/** When the random order of the CRs shows in the resources of the stored OperandConfig. */
module FinalResources {
  import opened Trees
  import opened ResourceComparison
  import opened Merging
  import opened Paths
  import opened Shrinking
  import opened Resources
  import opened ResourceLaws
  import opened Services
  import opened SteadyState
  import opened OrderIndependence
  import opened ResourceOrder
  import opened CrSummaries
  import opened Scaling
  import opened ScalingLaws
  import opened FinalConfig
  import opened OrderDependence

  /** A resource that states a namespace does not state an empty one. */
  predicate Stated(r: Json) {
    r.Obj? && "namespace" in r.fields ==> StringField(r, "namespace") != ""
  }

  ghost predicate AllStated(rs: seq<Json>) {
    forall r | r in rs :: Stated(r)
  }

  /** Then the lookup of the scaling finds resources by identity. */
  lemma SameIffIdentity(s: Json, r: Json, opconNs: string)
    requires Named(r) && Stated(s)
    ensures IsSame(s, r, opconNs) <==> Named(s) && IdentityOf(s, opconNs) == IdentityOf(r, opconNs)
  {
  }

  /** With an empty namespace written out a stored resource is still the same to the merge, but the lookup misses it;
      without a namespace it is found. */
  lemma EmptyNamespaceIsMissed(r: Json, opconNs: string)
    requires Named(r) && StringField(r, "namespace") == "" && opconNs != ""
    ensures Matches(r, Put(r, "namespace", Str("")), opconNs) && !IsSame(Put(r, "namespace", Str("")), r, opconNs)
    ensures IsSame(Obj(r.fields - {"namespace"}), r, opconNs)
  {
  }

  lemma {:induction false} FirstSameIsAt(rs: seq<Json>, r: Json, opconNs: string)
    requires Named(r) && AllStated(rs)
    ensures FirstSame(rs, r, opconNs) == ResourceAt(rs, IdentityOf(r, opconNs), opconNs)
  {
    if rs != [] {
      SameIffIdentity(rs[0], r, opconNs);
      FirstSameIsAt(rs[1..], r, opconNs);
    }
  }

  lemma CombineStated(q: Quantities, b: Json, r: Json, controller: string)
    requires b.Obj? && r.Obj? && Stated(b) && Stated(r)
    ensures Stated(Combine(q, b, r, controller))
  {
    CombinedField(q, b, r, controller, "namespace");
    var merged := Merge(LargestWins(q), b.fields, r.fields);
    assert "namespace" in Combine(q, b, r, controller).fields ==> "namespace" in merged;
  }

  lemma ArraysStated(q: Quantities, base: seq<Json>, cs: seq<Json>, opconNs: string, controller: string)
    requires AllStated(base) && AllStated(cs)
    ensures AllStated(MergeArrays(q, base, cs, opconNs, controller))
  {
    var r, p := MergeArrays(q, base, cs, opconNs, controller), Partners(base, cs, opconNs);
    forall j | 0 <= j < |r| ensures Stated(r[j]) {
      if j < |base| {
        MergedInPlace(q, base, cs, opconNs, controller, j);
        assert base[j] in base;
        if j in p {
          assert cs[p[j]] in cs;
          CombineStated(q, base[j], cs[p[j]], controller);
        }
      } else {
        EntryOrigin(q, base, cs, opconNs, controller, j);
      }
    }
  }

  ghost predicate EntriesStated(ops: seq<Service>, name: string) {
    forall op | op in ops :: AllStated(ResourcesOf(op, name))
  }

  lemma {:induction false} SummaryStated(ctx: Context, ss: seq<Service>, ops: seq<Service>, name: string)
    requires AllStated(ResourcesAt(ss, name)) && EntriesStated(ops, name)
    ensures AllStated(ResourcesAt(MergeOperators(ctx, ss, ops), name))
    decreases |ops|
  {
    if ops != [] {
      assert ops[0] in ops;
      OneEntryAtResources(ctx, ss, ops[0], name);
      ArraysStated(ctx.q, ResourcesAt(ss, name), ResourcesOf(ops[0], name), ctx.opconNs,
                   ControllerOf(ctx.controllers, name));
      SummaryStated(ctx, MergeOperator(ctx, ss, ops[0]), ops[1..], name);
    }
  }

  /** Scaling keeps a text that both sides share. */
  lemma SharedText(q: Quantities, d: Fields, c: Fields, k: string)
    requires Get(d, k).Str? && (Get(c, k) == Get(d, k) || Get(c, k).Null?)
    ensures Get(Shrink(q, Max, d, c), k) == Get(d, k)
  {
  }

  /** Scaling keeps the identity of a resource. */
  lemma ShrinkKeepsIdentity(q: Quantities, r: Json, s: Json, opconNs: string)
    requires Named(r) && Named(s) && Stated(s) && IdentityOf(s, opconNs) == IdentityOf(r, opconNs)
    ensures var t := Obj(Shrink(q, Max, r.fields, s.fields));
            Named(t) && IdentityOf(t, opconNs) == IdentityOf(r, opconNs)
  {
    SharedText(q, r.fields, s.fields, "apiVersion");
    SharedText(q, r.fields, s.fields, "kind");
    SharedText(q, r.fields, s.fields, "name");
    var x, y := Get(r.fields, "namespace"), Get(s.fields, "namespace");
    var v := Get(Shrink(q, Max, r.fields, s.fields), "namespace");
    assert v == if "namespace" in r.fields then ShrinkValue(q, Max, x, y) else y;
    if y.Str? && !x.Null? {
      PickSelects(q, Max, x, y);
    }
  }

  lemma ClearKeepsIdentity(s: Json, opconNs: string)
    requires s.Obj?
    ensures var t := ClearCpuLimit(s);
            t.Obj? && (Named(t) <==> Named(s)) && IdentityOf(t, opconNs) == IdentityOf(s, opconNs)
    ensures Stated(s) ==> Stated(ClearCpuLimit(s))
  {
    CleanupKeepsField(s, "apiVersion");
    CleanupKeepsField(s, "kind");
    CleanupKeepsField(s, "name");
    CleanupKeepsField(s, "namespace");
    assert "namespace" in ClearCpuLimit(s).fields ==> "namespace" in s.fields;
  }

  lemma ScaledIdentity(ctx: Context, name: string, r: Json, summary: seq<Json>)
    requires AllStated(summary)
    ensures var t := ScaledResource(ctx, Max, name, r, summary);
            (Named(t) <==> Named(r)) && (Named(r) ==> IdentityOf(t, ctx.opconNs) == IdentityOf(r, ctx.opconNs))
  {
    if Named(r) {
      FirstSameIsAt(summary, r, ctx.opconNs);
      ResourceAtFinds(summary, IdentityOf(r, ctx.opconNs), ctx.opconNs);
      var s := FirstSame(summary, r, ctx.opconNs);
      if s.Obj? {
        ClearKeepsIdentity(s, ctx.opconNs);
        ShrinkKeepsIdentity(ctx.q, r, if External(ctx, name) then ClearCpuLimit(s) else s, ctx.opconNs);
      }
    }
  }

  /** The scaled list, seen from one identity. */
  lemma {:induction false} ScaledAt(ctx: Context, name: string, rs: seq<Json>, summary: seq<Json>, id: Identity)
    requires AllStated(summary)
    ensures var r := ResourceAt(rs, id, ctx.opconNs);
            ResourceAt(ScaledResources(ctx, Max, name, rs, summary), id, ctx.opconNs) ==
            if r.Null? then Null else ScaledResource(ctx, Max, name, r, summary)
  {
    if rs != [] {
      ScaledIdentity(ctx, name, rs[0], summary);
      ScaledAt(ctx, name, rs[1..], summary, id);
    }
  }

  lemma ScaledUnique(ctx: Context, name: string, rs: seq<Json>, summary: seq<Json>)
    requires AllStated(summary) && UniqueIdentities(rs, ctx.opconNs)
    ensures UniqueIdentities(ScaledResources(ctx, Max, name, rs, summary), ctx.opconNs)
  {
    var ts := ScaledResources(ctx, Max, name, rs, summary);
    forall i, j | 0 <= i < j < |ts| && Named(ts[i]) && Named(ts[j])
      ensures IdentityOf(ts[i], ctx.opconNs) != IdentityOf(ts[j], ctx.opconNs)
    {
      ScaledIdentity(ctx, name, rs[i], summary);
      ScaledIdentity(ctx, name, rs[j], summary);
    }
  }

  /** A leaf of a scaled resource. */
  lemma ScaledResourceLeaf(ctx: Context, name: string, r: Json, summary: seq<Json>, p: seq<Step>)
    requires Named(r) && AllStated(summary) && OnPath(r, p) && Untouched(p, ControllerOf(ctx.controllers, name))
    requires OnPath(ResourceAt(summary, IdentityOf(r, ctx.opconNs), ctx.opconNs), p)
    ensures var t, s := ScaledResource(ctx, Max, name, r, summary),
            ResourceAt(summary, IdentityOf(r, ctx.opconNs), ctx.opconNs);
            OnPath(t, p) && Find(t, p) == PickLeaf(ctx.q, Max, Find(r, p), Find(s, p), HasPlaceIn(r.fields, p))
  {
    FirstSameIsAt(summary, r, ctx.opconNs);
    var s := FirstSame(summary, r, ctx.opconNs);
    ResourceAtFinds(summary, IdentityOf(r, ctx.opconNs), ctx.opconNs);
    FindNull(p);
    if s.Obj? {
      ClearCpuKeepsShape(s, p, ControllerOf(ctx.controllers, name));
      ShrinkAtPath(ctx.q, Max, r.fields, if External(ctx, name) then ClearCpuLimit(s).fields else s.fields, p);
    }
  }

  lemma ClearCpuKeepsShape(s: Json, p: seq<Step>, controller: string)
    requires s.Obj? && OnPath(s, p) && Untouched(p, controller)
    ensures controller in EXTERNAL_CONTROLLERS ==> ClearCpuLimit(s).Obj? && SameLeaf(s, ClearCpuLimit(s), p)
  {
    if controller in EXTERNAL_CONTROLLERS {
      ClearCpuKeepsLeaf(s, p);
    }
  }

  /** The lists that make up a resource of the final OperandConfig name it once, with the shape of the path. */
  ghost predicate ResourceShaped(ctx: Context, rs: seq<Json>, id: Identity, p: seq<Step>) {
    UniqueIdentities(rs, ctx.opconNs) && OnPath(ResourceAt(rs, id, ctx.opconNs), p)
  }

  ghost predicate ResourcesShaped(ctx: Context, base: seq<Service>, crs: seq<CrConfig>, desired: seq<Service>,
                                  name: string, id: Identity, p: seq<Step>) {
    && Untouched(p, ControllerOf(AllControlled(ctx, crs).controllers, name))
    && ResourcesOnPath(Flatten(crs), name, id, ctx.opconNs, p) && EntriesStated(Flatten(crs), name)
    && ResourceShaped(ctx, ResourcesAt(base, name), id, p) && ResourceShaped(ctx, ResourcesAt(desired, name), id, p)
  }

  /** What the final OperandConfig holds at a leaf of a resource for which the summary says `y`. */
  function FinishResource(ctx: Context, base: seq<Service>, desired: seq<Service>, name: string, id: Identity,
                          p: seq<Step>, y: Json): Json
    requires p != []
  {
    MergeValue(LargestWins(ctx.q), LeafKey("", p), Find(ResourceAt(ResourcesAt(base, name), id, ctx.opconNs), p),
               ScaledTo(ctx, desired, name, id, p, y))
  }

  /** What the scaling makes of it. */
  function ScaledTo(ctx: Context, desired: seq<Service>, name: string, id: Identity, p: seq<Step>, y: Json): Json
    requires p != []
  {
    var own := ResourceAt(ResourcesAt(desired, name), id, ctx.opconNs);
    if own.Obj? then PickLeaf(ctx.q, Max, Find(own, p), y, HasPlaceIn(own.fields, p)) else Null
  }

  /** That, as a function of the summary's leaf. */
  function FinishingResource(ctx: Context, base: seq<Service>, desired: seq<Service>, name: string, id: Identity,
                             p: seq<Step>): Json -> Json
    requires p != []
  {
    (y: Json) => FinishResource(ctx, base, desired, name, id, p, y)
  }

  function FinalResourceLeaf(ctx: Context, base: seq<Service>, crs: seq<CrConfig>, order: seq<CrConfig>,
                             desired: seq<Service>, name: string, id: Identity, p: seq<Step>): Json {
    Find(ResourceAt(ResourcesAt(Reconciled(ctx, base, crs, order, desired), name), id, ctx.opconNs), p)
  }

  /** The summary's resources of a service. */
  lemma SummaryResources(ctx: Context, order: seq<CrConfig>, name: string, id: Identity, p: seq<Step>)
    requires Untouched(p, ControllerOf(ctx.controllers, name))
    requires ResourcesOnPath(Flatten(order), name, id, ctx.opconNs, p) && EntriesStated(Flatten(order), name)
    ensures var rs := ResourcesIn(Summarize(ctx, [], order), name);
            && rs == ResourcesAt(Summarize(ctx, [], order), name)
            && AllStated(rs) && OnPath(ResourceAt(rs, id, ctx.opconNs), p)
  {
    FindNull(p);
    SummaryIsFold(ctx, [], order);
    SummaryStated(ctx, [], Flatten(order), name);
    FoldAtResource(ctx, [], Flatten(order), name, id, p);
  }

  /** The scaled resources of a service. */
  lemma ScaledList(ctx: Context, crs: seq<CrConfig>, order: seq<CrConfig>, desired: seq<Service>, name: string)
    ensures var ctx' := AllControlled(ctx, crs);
            ResourcesAt(Extremes(ctx, Max, crs, order, desired), name) ==
            ScaledResources(ctx', Max, name, ResourcesAt(desired, name), ResourcesIn(Summarize(ctx', [], order), name))
  {
    SameIndex(Extremes(ctx, Max, crs, order, desired), desired, name);
  }

  /** A leaf of a scaled resource, for any identity. */
  lemma ScaledListLeaf(ctx: Context, crs: seq<CrConfig>, order: seq<CrConfig>, base: seq<Service>,
                       desired: seq<Service>, name: string, id: Identity, p: seq<Step>)
    requires multiset(order) == multiset(crs) && ResourcesShaped(ctx, base, crs, desired, name, id, p)
    ensures var cs := ResourcesAt(Extremes(ctx, Max, crs, order, desired), name);
            && ResourceShaped(ctx, cs, id, p)
            && Find(ResourceAt(cs, id, ctx.opconNs), p) ==
               ScaledTo(ctx, desired, name, id, p, SummaryResourceLeaf(AllControlled(ctx, crs), order, name, id, p))
  {
    var ctx', rs := AllControlled(ctx, crs), ResourcesAt(desired, name);
    var summary := ResourcesIn(Summarize(ctx', [], order), name);
    SameEntries(order, crs);
    SummaryResources(ctx', order, name, id, p);
    ScaledList(ctx, crs, order, desired, name);
    ScaledUnique(ctx', name, rs, summary);
    ScaledAt(ctx', name, rs, summary, id);
    ResourceAtFinds(rs, id, ctx.opconNs);
    FindNull(p);
    if !ResourceAt(rs, id, ctx.opconNs).Null? {
      ScaledResourceLeaf(ctx', name, ResourceAt(rs, id, ctx.opconNs), summary, p);
    }
  }

  /** The final resources of a service: the base's with the scaled ones merged over them, or the one side there is. */
  lemma FinalList(ctx: Context, base: seq<Service>, cs: seq<Service>, name: string)
    requires UniqueNames(cs)
    ensures var r, b, c := ResourcesAt(MergeWithBase(ctx, base, cs), name), ResourcesAt(base, name),
            ResourcesAt(cs, name);
            r == MergeArrays(ctx.q, b, c, ctx.opconNs, "default") || (b == [] && r == c)
  {
    FinalService(ctx, base, cs, name);
    NothingToMerge(ctx.q, ResourcesAt(base, name), ctx.opconNs, "default");
  }

  lemma FinalListLeaf(ctx: Context, base: seq<Service>, cs: seq<Service>, name: string, id: Identity, p: seq<Step>)
    requires UniqueNames(cs) && Untouched(p, "default")
    requires ResourceShaped(ctx, ResourcesAt(base, name), id, p) && ResourceShaped(ctx, ResourcesAt(cs, name), id, p)
    ensures Find(ResourceAt(ResourcesAt(MergeWithBase(ctx, base, cs), name), id, ctx.opconNs), p) ==
            MergeValue(LargestWins(ctx.q), LeafKey("", p),
                       Find(ResourceAt(ResourcesAt(base, name), id, ctx.opconNs), p),
                       Find(ResourceAt(ResourcesAt(cs, name), id, ctx.opconNs), p))
  {
    var b, c := ResourceAt(ResourcesAt(base, name), id, ctx.opconNs),
      ResourceAt(ResourcesAt(cs, name), id, ctx.opconNs);
    FinalList(ctx, base, cs, name);
    UnionAt(ctx.q, ResourcesAt(base, name), ResourcesAt(cs, name), ctx.opconNs, "default", id);
    ResourceAtFinds(ResourcesAt(base, name), id, ctx.opconNs);
    ResourceAtFinds(ResourcesAt(cs, name), id, ctx.opconNs);
    FindNull(p);
    FindIsLeaf(b, p);
    FindIsLeaf(c, p);
    MergeNull(LargestWins(ctx.q), LeafKey("", p), Find(b, p));
    MergeNull(LargestWins(ctx.q), LeafKey("", p), Find(c, p));
    if b.Obj? && c.Obj? {
      CombineAtPath(ctx.q, b, c, "default", p);
    }
  }

  lemma ScaledNames(ctx: Context, crs: seq<CrConfig>, order: seq<CrConfig>, desired: seq<Service>)
    requires UniqueNames(desired)
    ensures UniqueNames(Extremes(ctx, Max, crs, order, desired))
  {
  }

  lemma UntouchedByDefault(p: seq<Step>, controller: string)
    requires Untouched(p, controller)
    ensures Untouched(p, "default")
  {
  }

  /** The final leaf is what becomes of the summary's. */
  lemma FinalAtResource(ctx: Context, base: seq<Service>, crs: seq<CrConfig>, order: seq<CrConfig>,
                        desired: seq<Service>, name: string, id: Identity, p: seq<Step>)
    requires multiset(order) == multiset(crs) && UniqueNames(desired) &&
             ResourcesShaped(ctx, base, crs, desired, name, id, p)
    ensures FinalResourceLeaf(ctx, base, crs, order, desired, name, id, p) ==
            FinishResource(ctx, base, desired, name, id, p,
                           SummaryResourceLeaf(AllControlled(ctx, crs), order, name, id, p))
  {
    var cs := Extremes(ctx, Max, crs, order, desired);
    ScaledNames(ctx, crs, order, desired);
    ScaledListLeaf(ctx, crs, order, base, desired, name, id, p);
    UntouchedByDefault(p, ControllerOf(AllControlled(ctx, crs).controllers, name));
    FinishedLeaf(ctx, base, cs, desired, name, id, p,
                 SummaryResourceLeaf(AllControlled(ctx, crs), order, name, id, p));
    assert Reconciled(ctx, base, crs, order, desired) == MergeWithBase(ctx, base, cs);
  }

  lemma FinishedLeaf(ctx: Context, base: seq<Service>, cs: seq<Service>, desired: seq<Service>, name: string,
                     id: Identity, p: seq<Step>, y: Json)
    requires UniqueNames(cs) && Untouched(p, "default")
    requires ResourceShaped(ctx, ResourcesAt(base, name), id, p) && ResourceShaped(ctx, ResourcesAt(cs, name), id, p)
    requires Find(ResourceAt(ResourcesAt(cs, name), id, ctx.opconNs), p) == ScaledTo(ctx, desired, name, id, p, y)
    ensures Find(ResourceAt(ResourcesAt(MergeWithBase(ctx, base, cs), name), id, ctx.opconNs), p) ==
            FinishResource(ctx, base, desired, name, id, p, y)
  {
    FinalListLeaf(ctx, base, cs, name, id, p);
  }

  lemma FinalResourceFold(ctx: Context, base: seq<Service>, crs: seq<CrConfig>, order: seq<CrConfig>,
                          desired: seq<Service>, name: string, id: Identity, p: seq<Step>)
    requires multiset(order) == multiset(crs) && UniqueNames(desired) &&
             ResourcesShaped(ctx, base, crs, desired, name, id, p)
    ensures FinalResourceLeaf(ctx, base, crs, order, desired, name, id, p) ==
            FinishResource(ctx, base, desired, name, id, p,
                           FoldLeaf(LargestWins(ctx.q), LeafKey("", p), Null,
                                    Flat(ResourceSource(name, id, ctx.opconNs, p), order)))
  {
    SameEntries(order, crs);
    ResourceLeafFold(AllControlled(ctx, crs), order, name, id, p);
    FinalAtResource(ctx, base, crs, order, desired, name, id, p);
  }

  /** The order in which the CRs are summarised does not show in a leaf of a resource if and only if any two settings
      that can decide it come out the same once they are scaled and merged over the base template's. */
  lemma ResourceOrderFreeIff(ctx: Context, base: seq<Service>, crs: seq<CrConfig>, desired: seq<Service>, name: string,
                             id: Identity, p: seq<Step>)
    requires UniqueNames(desired) && ResourcesShaped(ctx, base, crs, desired, name, id, p)
    requires LeafKey("", p) in COMPARABLE_KEYS ==>
             AllOrdered(ctx.q, SetValues(ResourceLeaves(Flatten(crs), name, id, ctx.opconNs, p)))
    ensures var m, key, g := LargestWins(ctx.q), LeafKey("", p), ResourceSource(name, id, ctx.opconNs, p);
            (forall order: seq<CrConfig> | multiset(order) == multiset(crs) ::
               FinalResourceLeaf(ctx, base, crs, order, desired, name, id, p) ==
                 FinalResourceLeaf(ctx, base, crs, crs, desired, name, id, p)) <==>
            AgreeUnder(m, key, SetValues(Settings(m, key, g, crs)), FinishingResource(ctx, base, desired, name, id, p))
  {
    var m, key, g := LargestWins(ctx.q), LeafKey("", p), ResourceSource(name, id, ctx.opconNs, p);
    var f := FinishingResource(ctx, base, desired, name, id, p);
    ResourceLeafFold(AllControlled(ctx, crs), crs, name, id, p);
    ResourceLeavesByCr(crs, name, id, ctx.opconNs, p);
    forall order: seq<CrConfig> | multiset(order) == multiset(crs)
      ensures FinalResourceLeaf(ctx, base, crs, order, desired, name, id, p) ==
              f(FoldLeaf(m, key, Null, Flat(g, order)))
    {
      FinalResourceFold(ctx, base, crs, order, desired, name, id, p);
    }
    OrderFreeIffAgreeUnder(m, key, g, crs, f);
  }
}
