/** When the random order in which the CRs are summarised shows in the stored OperandConfig. */
module FinalOrder {
  import opened Trees
  import opened Wrappers
  import opened ResourceComparison
  import opened Merging
  import opened Paths
  import opened Shrinking
  import opened Resetting
  import opened Services
  import opened SteadyState
  import opened OrderIndependence
  import opened CrSummaries
  import opened Scaling
  import opened ScalingLaws
  import opened FinalConfig
  import opened OrderDependence

  /** A desired custom resource as the scaling finds it: cleared if it is sized externally. */
  function OwnCr(ctx: Context, desired: seq<Service>, name: string, cr: string): Fields {
    Contribution(ctx, name, cr, Obj(AsMap(CrTree(desired, name, cr))))
  }

  /** What the final OperandConfig holds at a leaf for which the summary says `y`. */
  function Finish(ctx: Context, base: seq<Service>, desired: seq<Service>, name: string, cr: string, p: seq<Step>,
                  y: Json): Json
    requires p != []
  {
    var b, own := Find(Obj(AsMap(CrTree(base, name, cr))), p), OwnCr(ctx, desired, name, cr);
    if !CrSet(desired, name, cr) then b
    else MergeValue(PolicyFor(ctx, name, cr), LeafKey("", p), b,
                    PickLeaf(ctx.q, Max, Find(Obj(own), p), y, HasPlaceIn(own, p)))
  }

  function FinalLeafAt(ctx: Context, base: seq<Service>, crs: seq<CrConfig>, order: seq<CrConfig>,
                       desired: seq<Service>, name: string, cr: string, p: seq<Step>): Json {
    Find(Obj(AsMap(CrTree(Reconciled(ctx, base, crs, order, desired), name, cr))), p)
  }

  /** The trees that make up a custom resource of the final OperandConfig have the shape of the path. */
  ghost predicate ShapedLike(ctx: Context, base: seq<Service>, crs: seq<CrConfig>, desired: seq<Service>, name: string,
                             cr: string, p: seq<Step>) {
    && p != [] && p[0].Key? && CrOnPath(AllControlled(ctx, crs), Flatten(crs), name, cr, p)
    && OnPath(Obj(AsMap(CrTree(base, name, cr))), p) &&
       OnPath(Obj(OwnCr(AllControlled(ctx, crs), desired, name, cr)), p)
  }

  lemma ScaledLeaf(ctx: Context, crs: seq<CrConfig>, order: seq<CrConfig>, desired: seq<Service>, name: string,
                   cr: string, p: seq<Step>)
    requires p != [] && p[0].Key? && CrOnPath(AllControlled(ctx, crs), Flatten(order), name, cr, p)
    requires OnPath(Obj(OwnCr(AllControlled(ctx, crs), desired, name, cr)), p)
    ensures var c := Obj(AsMap(CrTree(Extremes(ctx, Max, crs, order, desired), name, cr)));
            var own := OwnCr(AllControlled(ctx, crs), desired, name, cr);
            && OnPath(c, p)
            && Find(c, p) == if !CrSet(desired, name, cr) then Null
                             else PickLeaf(ctx.q, Max, Find(Obj(own), p),
                                           SummaryLeafAt(AllControlled(ctx, crs), order, name, cr, p),
                                           HasPlaceIn(own, p))
  {
    var ctx' := AllControlled(ctx, crs);
    ScaledCrTree(ctx, Max, crs, order, desired, name, cr);
    EmptyOnPath(p);
    if CrSet(desired, name, cr) {
      var own, summary := OwnCr(ctx', desired, name, cr), SummaryCr(Summarize(ctx', [], order), name, cr);
      SummaryOnPath(ctx', order, name, cr, p);
      ShrinkAtPath(ctx.q, Max, own, AsMap(summary), p);
    }
  }

  /** The final leaf is what becomes of the summary's. */
  lemma FinalAtLeaf(ctx: Context, base: seq<Service>, crs: seq<CrConfig>, order: seq<CrConfig>, desired: seq<Service>,
                    name: string, cr: string, p: seq<Step>)
    requires multiset(order) == multiset(crs) && UniqueNames(desired) &&
             ShapedLike(ctx, base, crs, desired, name, cr, p)
    ensures var ctx' := AllControlled(ctx, crs);
            FinalLeafAt(ctx, base, crs, order, desired, name, cr, p) ==
            Finish(ctx', base, desired, name, cr, p, SummaryLeafAt(ctx', order, name, cr, p))
  {
    SameEntries(order, crs);
    ScaledLeaf(ctx, crs, order, desired, name, cr, p);
    ScaledCrTree(ctx, Max, crs, order, desired, name, cr);
    FinalLeaf(ctx, base, Extremes(ctx, Max, crs, order, desired), name, cr, p);
    FindIsLeaf(Obj(AsMap(CrTree(base, name, cr))), p);
    MergeNull(PolicyFor(ctx, name, cr), LeafKey("", p), Find(Obj(AsMap(CrTree(base, name, cr))), p));
  }

  /** Every order in which the CRs are summarised gives the same final leaf. */
  ghost predicate FinalOrderFree(ctx: Context, base: seq<Service>, crs: seq<CrConfig>, desired: seq<Service>,
                                 name: string, cr: string, p: seq<Step>) {
    forall order: seq<CrConfig> | multiset(order) == multiset(crs) ::
      FinalLeafAt(ctx, base, crs, order, desired, name, cr, p) == FinalLeafAt(ctx, base, crs, crs, desired, name, cr, p)
  }

  /** That, as a function of the summary's leaf. */
  function Finishing(ctx: Context, base: seq<Service>, desired: seq<Service>, name: string, cr: string,
                     p: seq<Step>): Json -> Json
    requires p != []
  {
    (y: Json) => Finish(ctx, base, desired, name, cr, p, y)
  }

  /** The settings that decide the leaf in the summary all end up as the same final value. */
  ghost predicate AgreeInFinal(ctx: Context, base: seq<Service>, crs: seq<CrConfig>, desired: seq<Service>,
                               name: string, cr: string, p: seq<Step>)
    requires p != []
  {
    var ctx' := AllControlled(ctx, crs);
    AgreeUnder(PolicyFor(ctx, name, cr), LeafKey("", p), SetValues(CrSettings(ctx', crs, name, cr, p)),
               Finishing(ctx', base, desired, name, cr, p))
  }

  lemma FinalFold(ctx: Context, base: seq<Service>, crs: seq<CrConfig>, order: seq<CrConfig>, desired: seq<Service>,
                  name: string, cr: string, p: seq<Step>)
    requires multiset(order) == multiset(crs) && UniqueNames(desired) &&
             ShapedLike(ctx, base, crs, desired, name, cr, p)
    ensures var ctx' := AllControlled(ctx, crs);
            FinalLeafAt(ctx, base, crs, order, desired, name, cr, p) ==
            Finish(ctx', base, desired, name, cr, p,
                   FoldLeaf(PolicyFor(ctx, name, cr), LeafKey("", p), Null, Flat(CrSource(ctx', name, cr, p), order)))
  {
    SameEntries(order, crs);
    FinalAtLeaf(ctx, base, crs, order, desired, name, cr, p);
    SummaryLeafFold(AllControlled(ctx, crs), order, name, cr, p);
  }

  lemma OrderFreeByFold(ctx: Context, base: seq<Service>, crs: seq<CrConfig>, desired: seq<Service>, name: string,
                        cr: string, p: seq<Step>)
    requires UniqueNames(desired) && ShapedLike(ctx, base, crs, desired, name, cr, p)
    ensures var ctx' := AllControlled(ctx, crs);
            FinalOrderFree(ctx, base, crs, desired, name, cr, p) <==>
            OrderFreeUnder(PolicyFor(ctx, name, cr), LeafKey("", p), CrSource(ctx', name, cr, p), crs,
                           Finishing(ctx', base, desired, name, cr, p))
  {
    var ctx' := AllControlled(ctx, crs);
    var m, key, g, f := PolicyFor(ctx, name, cr), LeafKey("", p), CrSource(ctx', name, cr, p),
      Finishing(ctx', base, desired, name, cr, p);
    forall order: seq<CrConfig> | multiset(order) == multiset(crs)
      ensures FinalLeafAt(ctx, base, crs, order, desired, name, cr, p) == f(FoldLeaf(m, key, Null, Flat(g, order)))
    {
      FinalFold(ctx, base, crs, order, desired, name, cr, p);
    }
  }

  /** The order in which the CRs are summarised does not show in a leaf of the stored OperandConfig if and only if any
      two settings that can decide it come out the same once they are scaled with the service's own setting and
      merged over the base template's. */
  lemma FinalOrderFreeIff(ctx: Context, base: seq<Service>, crs: seq<CrConfig>, desired: seq<Service>, name: string,
                          cr: string, p: seq<Step>)
    requires UniqueNames(desired) && ShapedLike(ctx, base, crs, desired, name, cr, p)
    requires Compares(PolicyFor(ctx, name, cr), LeafKey("", p)) ==>
               AllOrdered(ctx.q, SetValues(CrLeaves(AllControlled(ctx, crs), Flatten(crs), name, cr, p)))
    ensures FinalOrderFree(ctx, base, crs, desired, name, cr, p) <==> AgreeInFinal(ctx, base, crs, desired, name, cr, p)
  {
    var ctx' := AllControlled(ctx, crs);
    OrderFreeByFold(ctx, base, crs, desired, name, cr, p);
    SummaryLeafFold(ctx', crs, name, cr, p);
    LeavesByCr(ctx', crs, name, cr, p);
    OrderFreeIffAgreeUnder(PolicyFor(ctx, name, cr), LeafKey("", p), CrSource(ctx', name, cr, p), crs,
                           Finishing(ctx', base, desired, name, cr, p));
  }

  /** A CR that says the same in both extractions. */
  function LeafItem(c: CrConfig): CommonService {
    CommonService(false, "small", Ok(c), (size: string) => Ok(c))
  }

  lemma TwoItems(c: CrConfig, d: CrConfig)
    ensures SizedConfigs([LeafItem(c), LeafItem(d)]) == Ok([c, d]) &&
            ExtractedConfigs([LeafItem(c), LeafItem(d)]) == [c, d]
  {
    var items := [LeafItem(c), LeafItem(d)];
    var size := LargestSize(items);
    assert items[1..] == [LeafItem(d)] && [LeafItem(d)][1..] == [];
    assert ActiveConfigs([], size) == Ok([]);
    assert LeafItem(d).full(size) == Ok(d) && LeafItem(c).full(size) == Ok(c);
    assert [d] + [] == [d] && [c] + [d] == [c, d];
    assert ActiveConfigs([LeafItem(d)], size) == Ok([d]);
    assert ExtractedConfigs([LeafItem(d)]) == [d];
  }

  /** Without controllers the desired state is the summary of the CRs. */
  lemma {:induction false} DesiredIsSummary(ctx: Context, ss: seq<Service>, crs: seq<CrConfig>)
    requires ctx.controllers == map[] && forall c | c in crs :: c.controllers == map[]
    ensures DesiredState(ctx, ss, crs) == Summarize(ctx, ss, crs) && AllControllers(map[], crs) == map[]
    decreases |crs|
  {
    if crs != [] {
      assert crs[0] in crs;
      assert MergeControllers(map[], map[]) == map[];
      DesiredIsSummary(ctx, MergeOperators(ctx, ss, crs[0].services), crs[1..]);
    }
  }

  /** What two CRs without controllers make the desired state. */
  lemma DesiredOfTwo(ctx: Context, c: CrConfig, d: CrConfig)
    requires ctx.controllers == map[] && c.controllers == d.controllers == map[]
    ensures var desired := Desired(ctx, Ok([]), [LeafItem(c), LeafItem(d)]);
            && SizedConfigs([LeafItem(c), LeafItem(d)]) == Ok([c, d]) && UniqueNames(desired)
            && desired == Summarize(ctx, [], [c, d]) && AllControlled(ctx, [c, d]) == ctx && !External(ctx, "zen")
  {
    TwoItems(c, d);
    DesiredIsSummary(ctx, [], [c, d]);
    NamesOverRuns(ctx, [], [c, d]);
  }

  /** That, seen at one leaf. */
  lemma DesiredLeaf(ctx: Context, key: string, x: string, y: string)
    requires ctx.controllers == map[]
    ensures var crs, p := [LeafCr(key, x), LeafCr(key, y)], [Key(key)];
            var desired := Desired(ctx, Ok([]), [LeafItem(crs[0]), LeafItem(crs[1])]);
            && SizedConfigs([LeafItem(crs[0]), LeafItem(crs[1])]) == Ok(crs)
            && AllControlled(ctx, crs) == ctx && !External(ctx, "zen") && UniqueNames(desired)
            && OnPath(Obj(OwnCr(ctx, desired, "zen", "zenService")), p)
            && Find(Obj(OwnCr(ctx, desired, "zen", "zenService")), p) == SummaryLeafAt(ctx, crs, "zen", "zenService", p)
            && (!SummaryLeafAt(ctx, crs, "zen", "zenService", p).Null? ==> CrSet(desired, "zen", "zenService"))
  {
    var crs, p := [LeafCr(key, x), LeafCr(key, y)], [Key(key)];
    DesiredOfTwo(ctx, crs[0], crs[1]);
    TwoLeafCrs(ctx, key, x, y);
    OwnOfSummary(ctx, crs, p);
  }

  /** The summary's own custom resource, where nothing is sized externally. */
  lemma OwnOfSummary(ctx: Context, crs: seq<CrConfig>, p: seq<Step>)
    requires !External(ctx, "zen") && p != [] && p[0].Key? && CrOnPath(ctx, Flatten(crs), "zen", "zenService", p)
    ensures var summary := Summarize(ctx, [], crs);
            && OnPath(Obj(OwnCr(ctx, summary, "zen", "zenService")), p)
            && Find(Obj(OwnCr(ctx, summary, "zen", "zenService")), p) == SummaryLeafAt(ctx, crs, "zen", "zenService", p)
            && (!SummaryLeafAt(ctx, crs, "zen", "zenService", p).Null? ==> CrSet(summary, "zen", "zenService"))
  {
    SummaryOnPath(ctx, crs, "zen", "zenService", p);
    EmptyOnPath(p);
  }

  /** Two CRs that disagree on a key without rules, with texts that do not parse, and nothing else: what is stored
      depends on the order in which they are summarised. */
  lemma OrderReachesStore(ctx: Context, key: string, x: string, y: string)
    requires ctx.controllers == map[] && RuleFor(ctx.rules, "zen", "zenService").Null? && Incomparable(ctx.q, x, y)
    ensures var crs := [LeafCr(key, x), LeafCr(key, y)];
            var items := [LeafItem(crs[0]), LeafItem(crs[1])];
            var desired := Desired(ctx, Ok([]), items);
            && SizedConfigs(items) == Ok(crs)
            && exists order: seq<CrConfig> :: multiset(order) == multiset(crs) &&
                 Reconciled(ctx, [], crs, order, desired) != Reconciled(ctx, [], crs, crs, desired)
  {
    var crs, p := [LeafCr(key, x), LeafCr(key, y)], [Key(key)];
    var desired := Desired(ctx, Ok([]), [LeafItem(crs[0]), LeafItem(crs[1])]);
    DesiredLeaf(ctx, key, x, y);
    TextsDisagree(ctx, key, x, y, desired);
    var order: seq<CrConfig> :| multiset(order) == multiset(crs) &&
      FinalLeafAt(ctx, [], crs, order, desired, "zen", "zenService", p) !=
        FinalLeafAt(ctx, [], crs, crs, desired, "zen", "zenService", p);
  }

  /** Two texts that are no sizes. */
  ghost predicate Incomparable(q: Quantities, x: string, y: string) {
    x != y && PlainText(Str(x)) && PlainText(Str(y)) && Quantity(q, x).None? && Quantity(q, y).None?
  }

  lemma TextsDisagree(ctx: Context, key: string, x: string, y: string, desired: seq<Service>)
    requires ctx.controllers == map[] && RuleFor(ctx.rules, "zen", "zenService").Null? && Incomparable(ctx.q, x, y)
    requires desired == Desired(ctx, Ok([]), [LeafItem(LeafCr(key, x)), LeafItem(LeafCr(key, y))])
    ensures !FinalOrderFree(ctx, [], [LeafCr(key, x), LeafCr(key, y)], desired, "zen", "zenService", [Key(key)])
  {
    var crs, p := [LeafCr(key, x), LeafCr(key, y)], [Key(key)];
    LastText(ctx, key, x, y, desired);
    FinalOrderFreeIff(ctx, [], crs, desired, "zen", "zenService", p);
    TextsDiffer(ctx, key, x, y, desired);
    var m, vs, f := PolicyFor(ctx, "zen", "zenService"), [Str(x), Str(y)],
      Finishing(ctx, [], desired, "zen", "zenService", p);
    assert vs[0] == Str(x) && vs[1] == Str(y);
    assert Decides(m, key, Str(x), vs) && Decides(m, key, Str(y), vs) && f(Str(x)) != f(Str(y));
  }

  /** The desired state holds the text of the later CR. */
  lemma LastText(ctx: Context, key: string, x: string, y: string, desired: seq<Service>)
    requires ctx.controllers == map[] && RuleFor(ctx.rules, "zen", "zenService").Null?
    requires desired == Desired(ctx, Ok([]), [LeafItem(LeafCr(key, x)), LeafItem(LeafCr(key, y))])
    ensures var crs, p := [LeafCr(key, x), LeafCr(key, y)], [Key(key)];
            && UniqueNames(desired) && AllControlled(ctx, crs) == ctx && LeafKey("", p) == key
            && ShapedLike(ctx, [], crs, desired, "zen", "zenService", p) && CrSet(desired, "zen", "zenService")
            && Find(Obj(OwnCr(ctx, desired, "zen", "zenService")), p) == Str(y)
            && SetValues(CrSettings(ctx, crs, "zen", "zenService", p)) == [Str(x), Str(y)]
  {
    var crs, p := [LeafCr(key, x), LeafCr(key, y)], [Key(key)];
    DesiredLeaf(ctx, key, x, y);
    TwoLeafCrs(ctx, key, x, y);
    LaterWins(ctx, key, x, y);
    NoBase(ctx, crs, desired, "zen", "zenService", p);
  }

  /** Without a base template only the CRs and the service need the shape. */
  lemma NoBase(ctx: Context, crs: seq<CrConfig>, desired: seq<Service>, name: string, cr: string, p: seq<Step>)
    requires p != [] && p[0].Key? && AllControlled(ctx, crs) == ctx && CrOnPath(ctx, Flatten(crs), name, cr, p)
    requires OnPath(Obj(OwnCr(ctx, desired, name, cr)), p)
    ensures ShapedLike(ctx, [], crs, desired, name, cr, p)
  {
    EmptyOnPath(p);
  }

  /** Where nothing is compared, the summary of two CRs holds what the later one sets. */
  lemma LaterWins(ctx: Context, key: string, x: string, y: string)
    requires RuleFor(ctx.rules, "zen", "zenService").Null?
    ensures SummaryLeafAt(ctx, [LeafCr(key, x), LeafCr(key, y)], "zen", "zenService", [Key(key)]) == Str(y)
  {
    TwoLeafCrs(ctx, key, x, y);
    UncomparedOrderFree(ctx, [LeafCr(key, x), LeafCr(key, y)], "zen", "zenService", [Key(key)]);
    assert |[Str(x), Str(y)]| == 2 && [Str(x), Str(y)][1] == Str(y);
  }

  lemma TextsDiffer(ctx: Context, key: string, x: string, y: string, desired: seq<Service>)
    requires RuleFor(ctx.rules, "zen", "zenService").Null? && Incomparable(ctx.q, x, y)
    requires CrSet(desired, "zen", "zenService")
    requires Find(Obj(OwnCr(ctx, desired, "zen", "zenService")), [Key(key)]) == Str(y)
    ensures Finish(ctx, [], desired, "zen", "zenService", [Key(key)], Str(x)) !=
            Finish(ctx, [], desired, "zen", "zenService", [Key(key)], Str(y))
  {
    var m := PolicyFor(ctx, "zen", "zenService");
    EmptyOnPath([Key(key)]);
    assert Pick(ctx.q, Max, Str(y), Str(x)) == Str(x) && Pick(ctx.q, Max, Str(y), Str(y)) == Str(y);
    MergeNull(m, key, Str(x));
    MergeNull(m, key, Str(y));
  }

  /** One service of a base template that states a CPU. */
  function CpuBase(cpu: string): seq<Service> {
    [Service("zen", Some(map["zenService" := Obj(map["cpu" := Str(cpu)])]), None, map[])]
  }

  lemma CpuBaseLeaf(cpu: string)
    ensures var b := Obj(AsMap(CrTree(CpuBase(cpu), "zen", "zenService")));
            b == Obj(map["cpu" := Str(cpu)]) && OnPath(b, [Key("cpu")]) && Find(b, [Key("cpu")]) == Str(cpu)
  {
    var b, p := Obj(map["cpu" := Str(cpu)]), [Key("cpu")];
    assert p[1..] == [];
    assert Find(b, p) == Find(Str(cpu), p[1..]);
  }

  /** Two spellings of one size, such as "1" and "1000m", and a larger one. */
  ghost predicate Spellings(q: Quantities, x: string, y: string, larger: string) {
    && x != y && Rank(q, Str(x)) == Rank(q, Str(y)) && SameScale(q, Str(x), Str(larger)) &&
       Outranks(q, Str(larger), Str(x))
  }

  /** The order of two spellings shows in the summary, and not in what is stored when the base template states more. */
  lemma BaseHidesSpelling(ctx: Context, x: string, y: string, larger: string)
    requires ctx.controllers == map[] && !RuleFor(ctx.rules, "zen", "zenService").Null? &&
             Spellings(ctx.q, x, y, larger)
    ensures var crs, p := [LeafCr("cpu", x), LeafCr("cpu", y)], [Key("cpu")];
            var desired := Desired(ctx, Ok([]), [LeafItem(crs[0]), LeafItem(crs[1])]);
            && !LeafOrderFree(ctx, crs, "zen", "zenService", p)
            && FinalOrderFree(ctx, CpuBase(larger), crs, desired, "zen", "zenService", p)
  {
    SpellingShows(ctx, x, y, larger);
    SpellingHidden(ctx, x, y, larger);
  }

  lemma OneRank(q: Quantities, x: string, y: string, larger: string)
    requires Spellings(q, x, y, larger)
    ensures var vs := [Str(x), Str(y)];
            && AllOrdered(q, vs) && Decides(LargestWins(q), "cpu", vs[0], vs) &&
               Decides(LargestWins(q), "cpu", vs[1], vs)
            && forall v, w | v in vs && w in vs :: Larger(q, Str(larger), Pick(q, Max, v, w)) == Str(larger)
  {
    var vs := [Str(x), Str(y)];
    forall v, w | v in vs && w in vs ensures Larger(q, Str(larger), Pick(q, Max, v, w)) == Str(larger) {
      PickSelects(q, Max, v, w);
      LargerOutranks(q, Str(larger), Pick(q, Max, v, w));
    }
  }

  lemma SpellingShows(ctx: Context, x: string, y: string, larger: string)
    requires ctx.controllers == map[] && !RuleFor(ctx.rules, "zen", "zenService").Null? &&
             Spellings(ctx.q, x, y, larger)
    ensures !LeafOrderFree(ctx, [LeafCr("cpu", x), LeafCr("cpu", y)], "zen", "zenService", [Key("cpu")])
  {
    OneRank(ctx.q, x, y, larger);
    TwoLeafCrs(ctx, "cpu", x, y);
    LeafOrderFreeIffAgree(ctx, [LeafCr("cpu", x), LeafCr("cpu", y)], "zen", "zenService", [Key("cpu")]);
  }

  lemma SpellingHidden(ctx: Context, x: string, y: string, larger: string)
    requires ctx.controllers == map[] && !RuleFor(ctx.rules, "zen", "zenService").Null? &&
             Spellings(ctx.q, x, y, larger)
    ensures var crs := [LeafCr("cpu", x), LeafCr("cpu", y)];
            FinalOrderFree(ctx, CpuBase(larger), crs, Desired(ctx, Ok([]), [LeafItem(crs[0]), LeafItem(crs[1])]),
                           "zen", "zenService", [Key("cpu")])
  {
    var crs, p := [LeafCr("cpu", x), LeafCr("cpu", y)], [Key("cpu")];
    var desired := Desired(ctx, Ok([]), [LeafItem(crs[0]), LeafItem(crs[1])]);
    CpuBaseLeaf(larger);
    OneRank(ctx.q, x, y, larger);
    DesiredLeaf(ctx, "cpu", x, y);
    TwoLeafCrs(ctx, "cpu", x, y);
    OwnIsSpelling(ctx, x, y, larger);
    forall v | v in [Str(x), Str(y)]
      ensures Finish(ctx, CpuBase(larger), desired, "zen", "zenService", p, v) == Str(larger)
    {
      SpellingFinish(ctx, desired, x, y, larger, v);
    }
    FinalOrderFreeIff(ctx, CpuBase(larger), crs, desired, "zen", "zenService", p);
  }

  lemma OwnIsSpelling(ctx: Context, x: string, y: string, larger: string)
    requires ctx.controllers == map[] && !RuleFor(ctx.rules, "zen", "zenService").Null? &&
             Spellings(ctx.q, x, y, larger)
    ensures var desired := Desired(ctx, Ok([]), [LeafItem(LeafCr("cpu", x)), LeafItem(LeafCr("cpu", y))]);
            Find(Obj(OwnCr(ctx, desired, "zen", "zenService")), [Key("cpu")]) in [Str(x), Str(y)]
  {
    OneRank(ctx.q, x, y, larger);
    DesiredLeaf(ctx, "cpu", x, y);
    TwoLeafCrs(ctx, "cpu", x, y);
    SummaryLeafIsLastDeciding(ctx, [LeafCr("cpu", x), LeafCr("cpu", y)], "zen", "zenService", [Key("cpu")]);
  }

  lemma SpellingFinish(ctx: Context, desired: seq<Service>, x: string, y: string, larger: string, v: Json)
    requires !RuleFor(ctx.rules, "zen", "zenService").Null? && Spellings(ctx.q, x, y, larger) && v in [Str(x), Str(y)]
    requires Find(Obj(OwnCr(ctx, desired, "zen", "zenService")), [Key("cpu")]) in [Str(x), Str(y)]
    ensures Finish(ctx, CpuBase(larger), desired, "zen", "zenService", [Key("cpu")], v) == Str(larger)
  {
    var p := [Key("cpu")];
    CpuBaseLeaf(larger);
    OneRank(ctx.q, x, y, larger);
    assert p[1..] == [] && LeafKey("", p) == LeafKey("cpu", p[1..]);
  }

  /** A path to a size that the rules cover. */
  predicate CoveredPath(rules: Fields, ks: seq<string>)
    decreases ks
  {
    ks != [] && !Get(rules, ks[0]).Null? &&
    if |ks| == 1 then ks[0] in RESET_KEYS else rules[ks[0]].Obj? && CoveredPath(rules[ks[0]].fields, ks[1..])
  }

  /** A clean tree holds nothing there. */
  lemma {:induction false} CleanLeaf(t: Json, rules: Fields, ks: seq<string>)
    requires t.Obj? && Clean(t, rules) && CoveredPath(rules, ks) && OnPath(t, KeyPath(ks))
    ensures Find(t, KeyPath(ks)).Null?
    decreases ks
  {
    var k, x := ks[0], Get(t.fields, ks[0]);
    assert KeyPath(ks)[0] == Key(k) && KeyPath(ks)[1..] == KeyPath(ks[1..]);
    FindNull(KeyPath(ks[1..]));
    if |ks| == 1 {
      assert KeyPath(ks[1..]) == [];
    } else if !x.Null? {
      assert ks[1..] != [] && KeyPath(ks[1..])[0] == Key(ks[1]);
      CleanLeaf(x, rules[k].fields, ks[1..]);
    }
  }

  /** Where a service is sized externally, the final OperandConfig holds at every covered size exactly what the base
      template says, whatever the service and the CRs say and in whatever order the CRs are summarised. */
  lemma CoveredLeafIsBase(ctx: Context, base: seq<Service>, crs: seq<CrConfig>, order: seq<CrConfig>,
                          desired: seq<Service>, name: string, cr: string, ks: seq<string>)
    requires multiset(order) == multiset(crs) && UniqueNames(desired) &&
             ShapedLike(ctx, base, crs, desired, name, cr, KeyPath(ks))
    requires External(AllControlled(ctx, crs), name) && CoveredPath(AsMap(RuleFor(ctx.rules, name, cr)), ks)
    ensures FinalLeafAt(ctx, base, crs, order, desired, name, cr, KeyPath(ks)) ==
            Find(Obj(AsMap(CrTree(base, name, cr))), KeyPath(ks))
  {
    var p, cs, b := KeyPath(ks), Extremes(ctx, Max, crs, order, desired), Obj(AsMap(CrTree(base, name, cr)));
    SameEntries(order, crs);
    ScaledLeaf(ctx, crs, order, desired, name, cr, p);
    ScaledCrTree(ctx, Max, crs, order, desired, name, cr);
    ScaledIsClear(ctx, crs, order, desired, name, cr);
    CleanLeaf(Obj(AsMap(CrTree(cs, name, cr))), AsMap(RuleFor(ctx.rules, name, cr)), ks);
    FinalLeaf(ctx, base, cs, name, cr, p);
    FindIsLeaf(b, p);
    MergeNull(PolicyFor(ctx, name, cr), LeafKey("", p), Find(b, p));
  }

  lemma ScaledIsClear(ctx: Context, crs: seq<CrConfig>, order: seq<CrConfig>, desired: seq<Service>, name: string,
                      cr: string)
    requires External(AllControlled(ctx, crs), name)
    ensures Clean(Obj(AsMap(CrTree(Extremes(ctx, Max, crs, order, desired), name, cr))),
                  AsMap(RuleFor(ctx.rules, name, cr)))
  {
    var cs := Extremes(ctx, Max, crs, order, desired);
    ExternalServicesStayClean(ctx, Max, crs, order, desired);
    if CrSet(cs, name, cr) {
      assert CleanService(AllControlled(ctx, crs), cs[IndexOf(cs, name)]);
      assert CrIn(cs[IndexOf(cs, name)], cr) == AsMap(CrTree(cs, name, cr));
    }
  }

  /** A base template that states a CPU, and one CR that sets another and hands the service to an external controller:
      the OperandConfig ends with the base's CPU, although the clean-up cleared the CR's. */
  lemma BaseFillsBack(ctx: Context)
    requires ctx.controllers == map[] &&
             RuleFor(ctx.rules, "zen", "zenService") == Obj(map["cpu" := Str("LARGEST_VALUE")])
    ensures var c := LeafCr("cpu", "2").(controllers := map["zen" := "turbo"]);
            var desired := Desired(ctx, Ok([]), [LeafItem(c)]);
            var final := Obj(AsMap(CrTree(Reconciled(ctx, CpuBase("1"), [c], [c], desired), "zen", "zenService")));
            && SizedConfigs([LeafItem(c)]) == Ok([c]) && External(AllControlled(ctx, [c]), "zen")
            && Find(final, [Key("cpu")]) == Str("1") && !Clean(final, AsMap(RuleFor(ctx.rules, "zen", "zenService")))
  {
    var c := LeafCr("cpu", "2").(controllers := map["zen" := "turbo"]);
    var desired := Desired(ctx, Ok([]), [LeafItem(c)]);
    HandedOver(ctx, c);
    CpuBaseLeaf("1");
    CpuIsCovered("LARGEST_VALUE");
    CoveredLeafIsBase(ctx, CpuBase("1"), [c], [c], desired, "zen", "zenService", ["cpu"]);
    SizeIsNotClean(Obj(AsMap(CrTree(Reconciled(ctx, CpuBase("1"), [c], [c], desired), "zen", "zenService"))),
                   map["cpu" := Str("LARGEST_VALUE")], "1");
  }

  lemma CpuIsCovered(rule: string)
    ensures KeyPath(["cpu"]) == [Key("cpu")] && CoveredPath(map["cpu" := Str(rule)], ["cpu"])
    ensures forall cpu: string :: Reset(Obj(map["cpu" := Str(cpu)]), map["cpu" := Str(rule)]) == Obj(map[])
  {
    assert ["cpu"][1..] == [];
    assert KeyPath(["cpu"]) == [Key("cpu")] + KeyPath([]);
  }

  lemma SizeIsNotClean(t: Json, rules: Fields, cpu: string)
    requires t.Obj? && Find(t, [Key("cpu")]) == Str(cpu) && !Get(rules, "cpu").Null?
    ensures !Clean(t, rules)
  {
    assert [Key("cpu")][1..] == [];
    assert Find(t, [Key("cpu")]) == Find(Get(t.fields, "cpu"), [Key("cpu")][1..]);
    assert "cpu" in t.fields && Deletes("cpu", Str(cpu), Get(rules, "cpu"));
  }

  lemma HandedOver(ctx: Context, c: CrConfig)
    requires ctx.controllers == map[] &&
             RuleFor(ctx.rules, "zen", "zenService") == Obj(map["cpu" := Str("LARGEST_VALUE")])
    requires c == LeafCr("cpu", "2").(controllers := map["zen" := "turbo"])
    ensures var desired := Desired(ctx, Ok([]), [LeafItem(c)]);
            && SizedConfigs([LeafItem(c)]) == Ok([c]) && External(AllControlled(ctx, [c]), "zen") &&
               UniqueNames(desired)
            && ShapedLike(ctx, CpuBase("1"), [c], desired, "zen", "zenService", [Key("cpu")])
  {
    var ctx', p := AllControlled(ctx, [c]), [Key("cpu")];
    OneItem(c);
    CpuBaseLeaf("1");
    EmptyOnPath(p);
    assert AllControllers(map[], [c]) == MergeControllers(map[], c.controllers) == c.controllers;
    NamesOverRuns(ctx, [], [c]);
    NothingContributed(ctx', c);
    assert DesiredState(ctx, [], [c]) == MergeOperators(ctx', [], c.services);
    ClearedOnPath(ctx', c);
  }

  lemma ClearedOnPath(ctx: Context, c: CrConfig)
    requires External(ctx, "zen") && RuleFor(ctx.rules, "zen", "zenService") == Obj(map["cpu" := Str("LARGEST_VALUE")])
    requires c.services == LeafCr("cpu", "2").services
    ensures OnPath(Obj(OwnCr(ctx, MergeOperators(ctx, [], c.services), "zen", "zenService")), [Key("cpu")])
  {
    var p, desired := [Key("cpu")], MergeOperators(ctx, [], c.services);
    EmptyOnPath(p);
    NothingContributed(ctx, c);
    FoldAtCr(ctx, [], c.services, "zen", "zenService", p);
    ResetOnPath(Obj(AsMap(CrTree(desired, "zen", "zenService"))), map["cpu" := Str("LARGEST_VALUE")], p);
  }

  lemma NothingContributed(ctx: Context, c: CrConfig)
    requires External(ctx, "zen") && RuleFor(ctx.rules, "zen", "zenService") == Obj(map["cpu" := Str("LARGEST_VALUE")])
    requires c.services == LeafCr("cpu", "2").services
    ensures Flatten([c]) == c.services && CrOnPath(ctx, c.services, "zen", "zenService", [Key("cpu")])
  {
    var op := c.services[0];
    assert [c][1..] == [] && c.services + [] == c.services;
    CpuIsCovered("LARGEST_VALUE");
    assert Reset(op.spec.value["zenService"], map["cpu" := Str("LARGEST_VALUE")]) == Obj(map[]);
    assert CrOf(ctx, op, "zen", "zenService") == map[];
    EmptyOnPath([Key("cpu")]);
  }

  lemma OneItem(c: CrConfig)
    ensures SizedConfigs([LeafItem(c)]) == Ok([c]) && ExtractedConfigs([LeafItem(c)]) == [c] && [c][1..] == []
  {
    var size := LargestSize([LeafItem(c)]);
    assert [LeafItem(c)][1..] == [] && ActiveConfigs([], size) == Ok([]) && LeafItem(c).full(size) == Ok(c);
    assert [c] + [] == [c];
  }

  /** The reset keeps the shape of a path. */
  lemma {:induction false} ResetOnPath(t: Json, rules: Fields, p: seq<Step>)
    requires t.Obj? && OnPath(t, p) && p != []
    ensures OnPath(Reset(t, rules), p)
    decreases p
  {
    var k := p[0].k;
    var x := Get(t.fields, k);
    if x.Obj? && Get(rules, k).Obj? && p[1..] != [] {
      ResetOnPath(x, rules[k].fields, p[1..]);
    }
  }
}
