/** Scaling the desired services with the summary of all CRs, and what it means for services that an
    external controller sizes. */
module Scaling {
  import opened Sequences
  import opened Trees
  import opened Shrinking
  import opened Resetting
  import opened Resources
  import opened Services
  import opened OrderIndependence
  import opened CrSummaries
  import opened Wrappers
  import MergeEngine

  /** One custom resource of a desired service: cleared if it is sized externally, then scaled with
      what the summary says about it, if anything. */
  function ScaledCr(ctx: Context, e: Extreme, name: string, cr: string, t: Fields, summary: Json): Fields {
    var own := Contribution(ctx, name, cr, Obj(t));
    if summary.Null? then own else Shrink(ctx.q, e, own, AsMap(summary))
  }

  function SummaryCr(summary: seq<Service>, name: string, cr: string): Json {
    match FirstNamed(summary, name) case Some(s) => Get(GetOr(s.spec, map[]), cr) case None => Null
  }

  function ScaledSpec(ctx: Context, e: Extreme, summary: seq<Service>, name: string, spec: Fields): (r: Fields)
    ensures r.Keys == spec.Keys
    ensures forall cr | cr in r :: r[cr].Obj?
  {
    map cr | cr in spec :: Obj(ScaledCr(ctx, e, name, cr, AsMap(spec[cr]), SummaryCr(summary, name, cr)))
  }

  function ScaledResource(ctx: Context, e: Extreme, name: string, r: Json, summary: seq<Json>): Json {
    var s := FirstSame(summary, r, ctx.opconNs);
    if !Named(r) || !s.Obj? then r
    else Obj(Shrink(ctx.q, e, r.fields, if External(ctx, name) then ClearCpuLimit(s).fields else s.fields))
  }

  function ScaledResources(ctx: Context, e: Extreme, name: string, rs: seq<Json>, summary: seq<Json>): (r: seq<Json>)
    ensures |r| == |rs|
    ensures forall i | 0 <= i < |rs| :: r[i] == ScaledResource(ctx, e, name, rs[i], summary)
  {
    if rs == [] then []
    else [ScaledResource(ctx, e, name, rs[0], summary)] + ScaledResources(ctx, e, name, rs[1..], summary)
  }

  function ScaledService(ctx: Context, e: Extreme, summary: seq<Service>, s: Service): Service {
    s.(spec := if s.spec.Some? then Some(ScaledSpec(ctx, e, summary, s.name, s.spec.value)) else None,
       resources := if s.resources.Some?
                    then Some(ScaledResources(ctx, e, s.name, s.resources.value, ResourcesIn(summary, s.name)))
                    else None)
  }

  function ResourcesIn(summary: seq<Service>, name: string): seq<Json> {
    match FirstNamed(summary, name) case Some(s) => GetOr(s.resources, []) case None => []
  }

  function ScaledServices(ctx: Context, e: Extreme, summary: seq<Service>, ss: seq<Service>): (r: seq<Service>)
    ensures |r| == |ss|
    ensures forall i | 0 <= i < |ss| :: r[i] == ScaledService(ctx, e, summary, ss[i])
  {
    if ss == [] then [] else [ScaledService(ctx, e, summary, ss[0])] + ScaledServices(ctx, e, summary, ss[1..])
  }

  /** The context the step works in: the controllers of all CRs. */
  function AllControlled(ctx: Context, crs: seq<CrConfig>): Context {
    ctx.(controllers := AllControllers(map[], crs))
  }

  /** The whole step: all controllers first, in the order of the CRs, then the summary of all CRs in some order, then
      the scaling. */
  function Extremes(ctx: Context, e: Extreme, crs: seq<CrConfig>, order: seq<CrConfig>,
                    ss: seq<Service>): (r: seq<Service>)
    ensures |r| == |ss|
  {
    var ctx' := AllControlled(ctx, crs);
    ScaledServices(ctx', e, Summarize(ctx', [], order), ss)
  }

  /** No custom resource of the service holds a size its rules cover. */
  ghost predicate CleanService(ctx: Context, s: Service) {
    forall cr | cr in GetOr(s.spec, map[]) :: Clean(Obj(CrIn(s, cr)), AsMap(RuleFor(ctx.rules, s.name, cr)))
  }

  ghost predicate CleanIfExternal(ctx: Context, ss: seq<Service>) {
    forall i | 0 <= i < |ss| && External(ctx, ss[i].name) :: CleanService(ctx, ss[i])
  }

  lemma ContributionIsClean(ctx: Context, name: string, cr: string, t: Json)
    requires External(ctx, name)
    ensures Clean(Obj(Contribution(ctx, name, cr, t)), AsMap(RuleFor(ctx.rules, name, cr)))
  {
    if t.Obj? {
      ResetCleans(t, AsMap(RuleFor(ctx.rules, name, cr)));
    }
  }

  lemma UpdatedCrIsClean(ctx: Context, cur: Service, op: Service, cr: string)
    requires External(ctx, op.name) && Clean(Obj(CrIn(cur, cr)), AsMap(RuleFor(ctx.rules, op.name, cr)))
    ensures Clean(Obj(CrIn(Updated(ctx, cur, op), cr)), AsMap(RuleFor(ctx.rules, op.name, cr)))
  {
    EntryAtCr(ctx, cur, op, cr);
    if op.spec.Some? && cr in op.spec.value {
      ContributionIsClean(ctx, op.name, cr, op.spec.value[cr]);
      RootMergeKeepsClean(PolicyFor(ctx, op.name, cr), CrIn(cur, cr), CrOf(ctx, op, op.name, cr),
                          AsMap(RuleFor(ctx.rules, op.name, cr)));
    }
  }

  lemma UpdateKeepsClean(ctx: Context, cur: Service, op: Service)
    requires cur.name == op.name && External(ctx, op.name) && CleanService(ctx, cur)
    ensures CleanService(ctx, Updated(ctx, cur, op))
  {
    var next := Updated(ctx, cur, op);
    forall cr | cr in GetOr(next.spec, map[])
      ensures Clean(Obj(CrIn(next, cr)), AsMap(RuleFor(ctx.rules, next.name, cr)))
    {
      assert cr !in GetOr(cur.spec, map[]) ==> CrIn(cur, cr) == map[];
      UpdatedCrIsClean(ctx, cur, op, cr);
    }
  }

  lemma IntroductionIsClean(ctx: Context, op: Service)
    requires External(ctx, op.name)
    ensures CleanService(ctx, Introduced(ctx, op))
  {
    var next := Introduced(ctx, op);
    SpecAfterEntry(ctx, next, op);
    forall cr | cr in GetOr(next.spec, map[])
      ensures Clean(Obj(CrIn(next, cr)), AsMap(RuleFor(ctx.rules, next.name, cr)))
    {
      NewEntryAtCr(ctx, op, cr);
      if op.spec.Some? && cr in op.spec.value {
        ContributionIsClean(ctx, op.name, cr, op.spec.value[cr]);
        RootMergeKeepsClean(PolicyFor(ctx, op.name, cr),
                            map[], CrOf(ctx, op, op.name, cr), AsMap(RuleFor(ctx.rules, op.name, cr)));
      }
    }
  }

  lemma {:induction false} SummaryIsClean(ctx: Context, ss: seq<Service>, ops: seq<Service>)
    requires CleanIfExternal(ctx, ss)
    ensures CleanIfExternal(ctx, MergeOperators(ctx, ss, ops))
    decreases |ops|
  {
    if ops != [] {
      OneMoreClean(ctx, ss, ops[0]);
      SummaryIsClean(ctx, MergeOperator(ctx, ss, ops[0]), ops[1..]);
    }
  }

  lemma OneMoreClean(ctx: Context, ss: seq<Service>, op: Service)
    requires CleanIfExternal(ctx, ss)
    ensures CleanIfExternal(ctx, MergeOperator(ctx, ss, op))
  {
    var i := IndexOf(ss, op.name);
    if External(ctx, op.name) {
      if i < |ss| {
        UpdateKeepsClean(ctx, ss[i], op);
      } else {
        IntroductionIsClean(ctx, op);
      }
    }
  }

  lemma CrOfSummaryIsClean(ctx: Context, summary: seq<Service>, name: string, cr: string)
    requires CleanIfExternal(ctx, summary) && External(ctx, name)
    ensures Clean(Obj(AsMap(SummaryCr(summary, name, cr))), AsMap(RuleFor(ctx.rules, name, cr)))
  {
    var i := IndexOf(summary, name);
    if i < |summary| && cr in GetOr(summary[i].spec, map[]) {
      assert CleanService(ctx, summary[i]);
      assert CrIn(summary[i], cr) == AsMap(SummaryCr(summary, name, cr));
    }
  }

  /** Services sized by an external controller stay clean: neither the summary of any CRs nor the
      scaled services hold a size that a rule of the service covers, anywhere in its spec, whatever the order of
      the CRs in the summary. */
  lemma ExternalServicesStayClean(ctx: Context, e: Extreme, crs: seq<CrConfig>, order: seq<CrConfig>, ss: seq<Service>)
    ensures var ctx' := AllControlled(ctx, crs);
            && CleanIfExternal(ctx', Summarize(ctx', [], order))
            && CleanIfExternal(ctx', Extremes(ctx, e, crs, order, ss))
    ensures forall i | 0 <= i < |ss| && SizedExternally(crs, ss[i].name) ::
              CleanService(AllControlled(ctx, crs), Extremes(ctx, e, crs, order, ss)[i])
  {
    var ctx' := AllControlled(ctx, crs);
    var summary := Summarize(ctx', [], order);
    SummaryIsFold(ctx', [], order);
    SummaryIsClean(ctx', [], Flatten(order));
    var out := Extremes(ctx, e, crs, order, ss);
    forall i | 0 <= i < |out| && External(ctx', out[i].name)
      ensures CleanService(ctx', out[i])
    {
      ScaledIsClean(ctx', e, summary, ss[i]);
    }
    forall i | 0 <= i < |ss| && SizedExternally(crs, ss[i].name)
      ensures CleanService(ctx', out[i])
    {
      ExternalOverCrs(ctx', crs, ss[i].name);
      assert out[i].name == ss[i].name;
    }
  }

  lemma ScaledIsClean(ctx: Context, e: Extreme, summary: seq<Service>, s: Service)
    requires CleanIfExternal(ctx, summary) && External(ctx, s.name)
    ensures CleanService(ctx, ScaledService(ctx, e, summary, s))
  {
    var out := ScaledService(ctx, e, summary, s);
    forall cr | cr in GetOr(out.spec, map[])
      ensures Clean(Obj(CrIn(out, cr)), AsMap(RuleFor(ctx.rules, out.name, cr)))
    {
      var own := Contribution(ctx, s.name, cr, Obj(AsMap(s.spec.value[cr])));
      ContributionIsClean(ctx, s.name, cr, Obj(AsMap(s.spec.value[cr])));
      CrOfSummaryIsClean(ctx, summary, s.name, cr);
      RootShrinkKeepsClean(ctx.q, e, own, AsMap(SummaryCr(summary, s.name, cr)), AsMap(RuleFor(ctx.rules, s.name, cr)));
    }
  }

  /** The scalings of one service run without panic. */
  ghost predicate ScalingDefined(ctx: Context, summary: seq<Service>, s: Service) {
    && SpecIsMaps(s)
    && FieldsAreStrings(ResourcesIn(summary, s.name)) && FieldsAreStringsOrNull(GetOr(s.resources, []))
    && (forall cr | cr in GetOr(s.spec, map[]) && !SummaryCr(summary, s.name, cr).Null? ::
          ShrinkObjDefined(Obj(Contribution(ctx, s.name, cr, s.spec.value[cr])),
                           Obj(AsMap(SummaryCr(summary, s.name, cr)))))
    && (forall r | r in GetOr(s.resources, []) && Named(r) &&
        FirstSame(ResourcesIn(summary, s.name), r, ctx.opconNs).Obj? ::
          var m := FirstSame(ResourcesIn(summary, s.name), r, ctx.opconNs);
          && (External(ctx, s.name) ==> Limits(m).Obj? || Field(Field(Field(m, "data"), "spec"), "resources").Null?)
          && ShrinkObjDefined(r, if External(ctx, s.name) then ClearCpuLimit(m) else m))
  }

  method ScaleCr(ctx: Context, e: Extreme, name: string, cr: string, t: Fields, summary: Json) returns (scaled: Fields)
    requires !summary.Null? ==> ShrinkObjDefined(Obj(Contribution(ctx, name, cr, Obj(t))), Obj(AsMap(summary)))
    ensures scaled == ScaledCr(ctx, e, name, cr, t, summary)
  {
    scaled := t;
    if External(ctx, name) {
      scaled := MergeEngine.ResetResourceInTemplate(t, AsMap(RuleFor(ctx.rules, name, cr)));
    }
    if !summary.Null? {
      scaled := MergeEngine.ShrinkSize(ctx.q, e, scaled, AsMap(summary));
    }
  }

  method ScaleSpec(ctx: Context, e: Extreme, summary: seq<Service>, s: Service, spec: Fields) returns (scaled: Fields)
    requires s.spec == Some(spec) && ScalingDefined(ctx, summary, s)
    ensures scaled == ScaledSpec(ctx, e, summary, s.name, spec)
  {
    scaled := spec;
    ghost var goal := ScaledSpec(ctx, e, summary, s.name, spec);
    var todo := spec.Keys;
    assert scaled == Visited(goal, spec, todo);
    while todo != {}
      invariant todo <= spec.Keys
      invariant scaled == Visited(goal, spec, todo)
    {
      var cr :| cr in todo;
      VisitOne(goal, spec, todo, cr);
      var m := ScaleCr(ctx, e, s.name, cr, AsMap(spec[cr]), SummaryCr(summary, s.name, cr));
      scaled := scaled[cr := Obj(m)];
      todo := todo - {cr};
    }
    assert Visited(goal, spec, {}) == goal;
  }

  method ScaleResource(ctx: Context, e: Extreme, summary: seq<Service>, s: Service, r: Json) returns (scaled: Json)
    requires r in GetOr(s.resources, []) && ScalingDefined(ctx, summary, s)
    ensures scaled == ScaledResource(ctx, e, s.name, r, ResourcesIn(summary, s.name))
  {
    scaled := r;
    var m := FirstSame(ResourcesIn(summary, s.name), r, ctx.opconNs);
    if Named(r) && m.Obj? {
      if External(ctx, s.name) {
        m := ClearCpuLimit(m);
      }
      var fields := MergeEngine.ShrinkSize(ctx.q, e, r.fields, m.fields);
      scaled := Obj(fields);
    }
  }

  method ScaleResources(ctx: Context, e: Extreme, summary: seq<Service>, s: Service) returns (scaled: seq<Json>)
    requires s.resources.Some? && ScalingDefined(ctx, summary, s)
    ensures scaled == ScaledResources(ctx, e, s.name, s.resources.value, ResourcesIn(summary, s.name))
  {
    scaled := s.resources.value;
    for i := 0 to |scaled|
      invariant |scaled| == |s.resources.value|
      invariant forall j | 0 <= j < |scaled| ::
        scaled[j] == if j < i then ScaledResource(ctx, e, s.name, s.resources.value[j], ResourcesIn(summary, s.name))
          else s.resources.value[j]
    {
      var next := ScaleResource(ctx, e, summary, s, s.resources.value[i]);
      scaled := scaled[i := next];
    }
    assert scaled == ScaledResources(ctx, e, s.name, s.resources.value, ResourcesIn(summary, s.name));
  }

  /** Every merge of the step runs without panic, in whatever order the summary is made. */
  ghost predicate ExtremesDefined(ctx: Context, crs: seq<CrConfig>, ss: seq<Service>) {
    var ctx' := AllControlled(ctx, crs);
    && AnyOrderDefined(ctx', crs)
    && forall order: seq<CrConfig>, s | multiset(order) == multiset(crs) && s in ss ::
         ScalingDefined(ctx', Summarize(ctx', [], order), s)
  }

  /** The CRs can be folded in any order without panic. */
  ghost predicate AnyOrderDefined(ctx: Context, crs: seq<CrConfig>) {
    forall order: seq<CrConfig> | multiset(order) == multiset(crs) :: OperatorsDefined(ctx, [], Flatten(order))
  }

  lemma {:induction false} LastControllers(summary: map<string, string>, crs: seq<CrConfig>, c: CrConfig)
    ensures AllControllers(summary, crs + [c]) == MergeControllers(AllControllers(summary, crs), c.controllers)
    decreases |crs|
  {
    if crs == [] {
      assert [] + [c] == [c] && [c][1..] == [];
    } else {
      HeadOfConcat(crs, [c]);
      LastControllers(MergeControllers(summary, crs[0].controllers), crs[1..], c);
    }
  }

  /** The first loop: the configurations of the CRs at the given size, and the controllers of all of them. */
  method CollectConfigs(items: seq<CommonService>, size: string)
    returns (configs: Result<seq<CrConfig>>, controllers: map<string, string>)
    ensures configs == ActiveConfigs(items, size)
    ensures configs.Ok? ==> controllers == AllControllers(map[], configs.value)
  {
    var collected: seq<CrConfig> := [];
    controllers := map[];
    if ActiveConfigs(items, size).Ok? { NothingKnown(ActiveConfigs(items, size).value); }
    assert items[0..] == items;
    for i := 0 to |items|
      invariant ActiveConfigs(items, size) ==
                match ActiveConfigs(items[i..], size) case Ok(rest) => Ok(collected + rest) case Err(e) => Err(e)
      invariant controllers == AllControllers(map[], collected)
    {
      Suffix(items, i);
      if items[i].deleting {
        continue;
      }
      var extracted := items[i].full(size);
      if extracted.Err? {
        return Err(extracted.error), controllers;
      }
      var config := extracted.value;
      var rest := ActiveConfigs(items[i + 1..], size);
      if rest.Ok? {
        Associate(collected, [config], rest.value);
      }
      LastControllers(map[], collected, config);
      controllers := MergeProfileController(controllers, config.controllers);
      collected := collected + [config];
    }
    assert collected + [] == collected;
    return Ok(collected), controllers;
  }

  /** What the CRs say, all scaled to the largest of their sizes. */
  function SizedConfigs(items: seq<CommonService>): Result<seq<CrConfig>> {
    ActiveConfigs(items, LargestSize(items))
  }

  /** The whole step. The CRs are summarised in the random order of a Go map: some `order` of them. */
  method GetExtremeizes(ctx: Context, e: Extreme, items: seq<CommonService>, opconServices: seq<Service>)
    returns (result: Result<seq<Service>>, ghost order: seq<CrConfig>)
    requires SizedConfigs(items).Ok? ==> ExtremesDefined(ctx, SizedConfigs(items).value, opconServices)
    ensures match SizedConfigs(items)
            case Ok(crs) => multiset(order) == multiset(crs) &&
              result == Ok(Extremes(ctx, e, crs, order, opconServices))
            case Err(error) => result == Err(error)
  {
    var largestSize := GetLargestSizeFromCRs(items);
    var configs, controllers := CollectConfigs(items, largestSize);
    order := [];
    if configs.Err? {
      return Err(configs.error), order;
    }
    var ctx' := ctx.(controllers := controllers);
    var summary;
    summary, order := SummarizeAll(ctx', configs.value);
    assert ctx' == AllControlled(ctx, configs.value);
    var scaled := ScaleServices(ctx', e, summary, opconServices);
    result := Ok(scaled);
  }

  method ScaleServices(ctx: Context, e: Extreme, summary: seq<Service>, opconServices: seq<Service>)
    returns (result: seq<Service>)
    requires forall s | s in opconServices :: ScalingDefined(ctx, summary, s)
    ensures result == ScaledServices(ctx, e, summary, opconServices)
  {
    result := opconServices;
    for i := 0 to |opconServices|
      invariant |result| == |opconServices|
      invariant forall j | 0 <= j < |result| ::
        result[j] == if j < i then ScaledService(ctx, e, summary, opconServices[j]) else opconServices[j]
    {
      var s := opconServices[i];
      assert s in opconServices;
      var scaled := s;
      if s.spec.Some? {
        var spec := ScaleSpec(ctx, e, summary, s, s.spec.value);
        scaled := scaled.(spec := Some(spec));
      }
      if s.resources.Some? {
        var resources := ScaleResources(ctx, e, summary, s);
        scaled := scaled.(resources := Some(resources));
      }
      result := result[i := scaled];
    }
    assert result == ScaledServices(ctx, e, summary, opconServices);
  }

  /** Folds the CRs into a summary, taking any of the remaining ones at each turn. */
  method SummarizeAll(ctx: Context, crs: seq<CrConfig>) returns (summary: seq<Service>, ghost order: seq<CrConfig>)
    requires AnyOrderDefined(ctx, crs)
    ensures multiset(order) == multiset(crs) && summary == Summarize(ctx, [], order)
  {
    var s := new Summary([]);
    var todo := crs;
    order := [];
    while todo != []
      invariant multiset(order + todo) == multiset(crs)
      invariant s.services == Summarize(ctx, [], order)
      decreases |todo|
    {
      var i :| 0 <= i < |todo|;
      NextTaken(ctx, crs, order, todo, i);
      s.MergeCSCRs(ctx, todo[i].services);
      todo, order := todo[..i] + todo[i + 1..], order + [todo[i]];
    }
    assert order + [] == order;
    summary := s.services;
  }

  lemma OneTaken<T>(order: seq<T>, todo: seq<T>, i: nat)
    requires i < |todo|
    ensures multiset(order + [todo[i]] + (todo[..i] + todo[i + 1..])) == multiset(order + todo)
  {
    assert todo == todo[..i] + [todo[i]] + todo[i + 1..];
  }

  /** Any of the remaining CRs can be folded next. */
  lemma NextTaken(ctx: Context, crs: seq<CrConfig>, order: seq<CrConfig>, todo: seq<CrConfig>, i: nat)
    requires AnyOrderDefined(ctx, crs) && multiset(order + todo) == multiset(crs) && i < |todo|
    ensures OperatorsDefined(ctx, Summarize(ctx, [], order), todo[i].services)
    ensures MergeOperators(ctx, Summarize(ctx, [], order), todo[i].services) == Summarize(ctx, [], order + [todo[i]])
    ensures multiset(order + [todo[i]] + (todo[..i] + todo[i + 1..])) == multiset(crs)
  {
    OneTaken(order, todo, i);
    NextDefined(ctx, order, todo[i], todo[..i] + todo[i + 1..]);
    SummarizeLast(ctx, [], order, todo[i]);
  }

  /** When the CRs can be folded in an order, each of them can be folded into the summary of those before it. */
  lemma NextDefined(ctx: Context, order: seq<CrConfig>, c: CrConfig, rest: seq<CrConfig>)
    requires OperatorsDefined(ctx, [], Flatten(order + [c] + rest))
    ensures OperatorsDefined(ctx, Summarize(ctx, [], order), c.services)
  {
    FlattenSplit(order, [c] + rest);
    Associate(order, [c], rest);
    HeadOfConcat([c], rest);
    assert [c][1..] + rest == rest;
    SummaryIsFold(ctx, [], order);
    DefinedSplit(ctx, [], Flatten(order), Flatten([c] + rest));
    DefinedSplit(ctx, Summarize(ctx, [], order), c.services, Flatten(rest));
  }

  lemma {:induction false} FlattenSplit(a: seq<CrConfig>, b: seq<CrConfig>)
    ensures Flatten(a + b) == Flatten(a) + Flatten(b)
  {
    if a == [] {
      assert a + b == b;
    } else {
      HeadOfConcat(a, b);
      FlattenSplit(a[1..], b);
      Associate(a[0].services, Flatten(a[1..]), Flatten(b));
    }
  }

  lemma {:induction false} SummarizeLast(ctx: Context, ss: seq<Service>, crs: seq<CrConfig>, c: CrConfig)
    ensures Summarize(ctx, ss, crs + [c]) == MergeOperators(ctx, Summarize(ctx, ss, crs), c.services)
    decreases |crs|
  {
    if crs == [] {
      assert [] + [c] == [c] && [c][1..] == [];
    } else {
      HeadOfConcat(crs, [c]);
      SummarizeLast(ctx, MergeOperators(ctx, ss, crs[0].services), crs[1..], c);
    }
  }

  lemma {:induction false} DefinedSplit(ctx: Context, ss: seq<Service>, a: seq<Service>, b: seq<Service>)
    requires OperatorsDefined(ctx, ss, a + b)
    ensures OperatorsDefined(ctx, ss, a) && OperatorsDefined(ctx, MergeOperators(ctx, ss, a), b)
    decreases |a|
  {
    if a == [] {
      assert a + b == b;
    } else {
      HeadOfConcat(a, b);
      DefinedSplit(ctx, MergeOperator(ctx, ss, a[0]), a[1..], b);
    }
  }
}
