/** Order independence for the resources of a service. */
module ResourceOrder {
  import opened Trees
  import opened ResourceComparison
  import opened Merging
  import opened Paths
  import opened Resources
  import opened ResourceLaws
  import opened Services
  import opened SteadyState
  import opened OrderIndependence
  import opened Wrappers

  const INITDB: seq<Step> := [Key("data"), Key("spec"), Key("bootstrap"), Key("initdb")]
  const CPU_LIMIT: seq<Step> := [Key("data"), Key("spec"), Key("resources"), Key("limits"), Key("cpu")]

  /** Paths the clean-up after a merge leaves alone. */
  predicate Untouched(p: seq<Step>, controller: string) {
    p != [] && p[0].Key? && !(INITDB <= p) && (controller in EXTERNAL_CONTROLLERS ==> !(CPU_LIMIT <= p))
  }

  /** `t'` has the shape of the path and the same leaf there. */
  ghost predicate SameLeaf(t: Json, t': Json, p: seq<Step>) {
    OnPath(t', p) && Find(t', p) == Find(t, p)
  }

  lemma PutKeepsLeaf(t: Json, k: string, v: Json, p: seq<Step>)
    requires t.Obj? && p != [] && OnPath(t, p)
    requires p[0] == Key(k) ==> SameLeaf(Get(t.fields, k), v, p[1..])
    ensures SameLeaf(t, Put(t, k, v), p)
  {
  }

  /** Replacing an inner map is seen only by paths that lead into it. */
  lemma DropInitdbKeepsLeaf(t: Json, p: seq<Step>)
    requires t.Obj? && p != [] && OnPath(t, p) && !(INITDB <= p)
    ensures DropInitdb(t).Obj? && SameLeaf(t, DropInitdb(t), p)
  {
    var boot := Bootstrap(t);
    if boot.Obj? && "pg_basebackup" in boot.fields {
      var data := Field(t, "data");
      var spec := Field(data, "spec");
      var boot' := Obj(boot.fields - {"initdb"});
      var spec' := Put(spec, "bootstrap", boot');
      if p[0] == Key("data") {
        var p1 := p[1..];
        assert OnPath(data, p1) && p1 != [];
        if p1[0] == Key("spec") {
          var p2 := p1[1..];
          assert OnPath(spec, p2) && p2 != [];
          if p2[0] == Key("bootstrap") {
            var p3 := p2[1..];
            assert OnPath(boot, p3) && p3 != [] && p3[0].Key?;
            assert p3[0] != Key("initdb");
            assert SameLeaf(boot, boot', p3);
          }
          PutKeepsLeaf(spec, "bootstrap", boot', p2);
        }
        PutKeepsLeaf(data, "spec", spec', p1);
      }
      PutKeepsLeaf(t, "data", Put(data, "spec", spec'), p);
    }
  }

  lemma ClearCpuKeepsLeaf(t: Json, p: seq<Step>)
    requires t.Obj? && p != [] && OnPath(t, p) && !(CPU_LIMIT <= p)
    ensures ClearCpuLimit(t).Obj? && SameLeaf(t, ClearCpuLimit(t), p)
  {
    var limits := Limits(t);
    if limits.Obj? {
      var data := Field(t, "data");
      var spec := Field(data, "spec");
      var resources := Field(spec, "resources");
      var limits' := Put(limits, "cpu", Cleared);
      var resources' := Put(resources, "limits", limits');
      var spec' := Put(spec, "resources", resources');
      if p[0] == Key("data") {
        var p1 := p[1..];
        assert OnPath(data, p1) && p1 != [];
        if p1[0] == Key("spec") {
          var p2 := p1[1..];
          assert OnPath(spec, p2) && p2 != [];
          if p2[0] == Key("resources") {
            var p3 := p2[1..];
            assert OnPath(resources, p3) && p3 != [];
            if p3[0] == Key("limits") {
              var p4 := p3[1..];
              assert OnPath(limits, p4) && p4 != [] && p4[0].Key?;
              assert p4[0] != Key("cpu");
              PutKeepsLeaf(limits, "cpu", Cleared, p4);
            }
            PutKeepsLeaf(resources, "limits", limits', p3);
          }
          PutKeepsLeaf(spec, "resources", resources', p2);
        }
        PutKeepsLeaf(data, "spec", spec', p1);
      }
      PutKeepsLeaf(t, "data", Put(data, "spec", spec'), p);
    }
  }

  lemma CombineAtPath(q: Quantities, b: Json, r: Json, controller: string, p: seq<Step>)
    requires b.Obj? && r.Obj? && Untouched(p, controller) && OnPath(b, p) && OnPath(r, p)
    ensures OnPath(Combine(q, b, r, controller), p)
    ensures Find(Combine(q, b, r, controller), p) == MergeValue(LargestWins(q), LeafKey("", p), Find(b, p), Find(r, p))
  {
    var merged := Obj(Merge(LargestWins(q), b.fields, r.fields));
    MergeAtPath(LargestWins(q), b.fields, r.fields, p);
    DropInitdbKeepsLeaf(merged, p);
    var cleaned := if IsCluster(r) then DropInitdb(merged) else merged;
    if controller in EXTERNAL_CONTROLLERS {
      ClearCpuKeepsLeaf(cleaned, p);
    }
  }

  /** The first valid resource of an identity, or null. */
  function ResourceAt(rs: seq<Json>, id: Identity, opconNs: string): Json {
    if rs == [] then Null
    else if Named(rs[0]) && IdentityOf(rs[0], opconNs) == id then rs[0]
    else ResourceAt(rs[1..], id, opconNs)
  }

  lemma {:induction false} ResourceAtFinds(rs: seq<Json>, id: Identity, opconNs: string)
    ensures var r := ResourceAt(rs, id, opconNs);
            if r.Null? then forall i | 0 <= i < |rs| :: !(Named(rs[i]) && IdentityOf(rs[i], opconNs) == id)
            else Named(r) && IdentityOf(r, opconNs) == id && exists i :: 0 <= i < |rs| && rs[i] == r
  {
    if rs != [] && !(Named(rs[0]) && IdentityOf(rs[0], opconNs) == id) {
      ResourceAtFinds(rs[1..], id, opconNs);
      var r := ResourceAt(rs[1..], id, opconNs);
      if r.Null? {
        assert forall i | 1 <= i < |rs| :: rs[i] == rs[1..][i - 1];
      } else {
        var i :| 0 <= i < |rs[1..]| && rs[1..][i] == r;
        assert rs[i + 1] == r;
      }
    }
  }

  lemma ResourceAtIs(rs: seq<Json>, opconNs: string, i: nat)
    requires UniqueIdentities(rs, opconNs) && i < |rs| && Named(rs[i])
    ensures ResourceAt(rs, IdentityOf(rs[i], opconNs), opconNs) == rs[i]
  {
    var id := IdentityOf(rs[i], opconNs);
    ResourceAtFinds(rs, id, opconNs);
    var j :| 0 <= j < |rs| && rs[j] == ResourceAt(rs, id, opconNs);
  }

  /** The union by key, seen from one identity. */
  lemma UnionAt(q: Quantities, base: seq<Json>, cs: seq<Json>, opconNs: string, controller: string, id: Identity)
    requires UniqueIdentities(base, opconNs) && UniqueIdentities(cs, opconNs)
    ensures var b, c := ResourceAt(base, id, opconNs), ResourceAt(cs, id, opconNs);
            ResourceAt(MergeArrays(q, base, cs, opconNs, controller), id, opconNs) ==
            if c.Null? then b else if b.Null? then c else if b.Obj? && c.Obj? then Combine(q, b, c, controller)
              else Null
  {
    var b, c := ResourceAt(base, id, opconNs), ResourceAt(cs, id, opconNs);
    ResourceAtFinds(base, id, opconNs);
    ResourceAtFinds(cs, id, opconNs);
    if !b.Null? {
      var i: nat :| i < |base| && base[i] == b;
      BaseAt(q, base, cs, opconNs, controller, i);
    } else if !c.Null? {
      var n: nat :| n < |cs| && cs[n] == c;
      AdditionAt(q, base, cs, opconNs, controller, n);
    } else {
      NothingAppears(q, base, cs, opconNs, controller, id);
    }
  }

  lemma BaseAt(q: Quantities, base: seq<Json>, cs: seq<Json>, opconNs: string, controller: string, i: nat)
    requires UniqueIdentities(base, opconNs) && UniqueIdentities(cs, opconNs) && i < |base| && Named(base[i])
    ensures var id := IdentityOf(base[i], opconNs);
            var c := ResourceAt(cs, id, opconNs);
            ResourceAt(MergeArrays(q, base, cs, opconNs, controller), id, opconNs) ==
            if c.Obj? then Combine(q, base[i], c, controller) else base[i]
  {
    var r, p := MergeArrays(q, base, cs, opconNs, controller), Partners(base, cs, opconNs);
    var id := IdentityOf(base[i], opconNs);
    var c := ResourceAt(cs, id, opconNs);
    KeyedUnion(base, cs, opconNs);
    UnionStaysUnique(q, base, cs, opconNs, controller);
    MergedInPlace(q, base, cs, opconNs, controller, i);
    assert Named(r[i]) by { SameIdentityNamed(r[i], base[i], opconNs); }
    ResourceAtIs(r, opconNs, i);
    ResourceAtFinds(cs, id, opconNs);
    if !c.Null? {
      var n: nat :| n < |cs| && cs[n] == c;
      assert Matches(base[i], cs[n], opconNs);
    } else {
      assert i !in p;
    }
  }

  lemma SameIdentityNamed(a: Json, b: Json, opconNs: string)
    requires IdentityOf(a, opconNs) == IdentityOf(b, opconNs) && (a.Obj? <==> b.Obj?)
    ensures Named(a) <==> Named(b)
  {
  }

  lemma NoPartner(base: seq<Json>, cs: seq<Json>, opconNs: string, n: nat)
    requires UniqueIdentities(base, opconNs) && UniqueIdentities(cs, opconNs) && n < |cs| && Named(cs[n])
    requires ResourceAt(base, IdentityOf(cs[n], opconNs), opconNs).Null?
    ensures cs[n] in Others(cs, Handled(cs, Partners(base, cs, opconNs)))
  {
    var h := Handled(cs, Partners(base, cs, opconNs));
    ResourceAtFinds(base, IdentityOf(cs[n], opconNs), opconNs);
    KeyedUnion(base, cs, opconNs);
    forall i | 0 <= i < |base| ensures !Matches(base[i], cs[n], opconNs) {
      if Matches(base[i], cs[n], opconNs) { SameIdentityNamed(base[i], cs[n], opconNs); }
    }
    assert n !in h;
    OthersMembers(cs, h, cs[n]);
  }

  lemma AddedIsListed(q: Quantities, base: seq<Json>, cs: seq<Json>, opconNs: string, controller: string, r: Json)
    requires r in Others(cs, Handled(cs, Partners(base, cs, opconNs)))
    ensures r in MergeArrays(q, base, cs, opconNs, controller)
  {
  }

  lemma ResourceAtMember(rs: seq<Json>, opconNs: string, r: Json)
    requires UniqueIdentities(rs, opconNs) && r in rs && Named(r)
    ensures ResourceAt(rs, IdentityOf(r, opconNs), opconNs) == r
  {
    var i: nat :| i < |rs| && rs[i] == r;
    ResourceAtIs(rs, opconNs, i);
  }

  lemma AdditionAt(q: Quantities, base: seq<Json>, cs: seq<Json>, opconNs: string, controller: string, n: nat)
    requires UniqueIdentities(base, opconNs) && UniqueIdentities(cs, opconNs) && n < |cs| && Named(cs[n])
    requires ResourceAt(base, IdentityOf(cs[n], opconNs), opconNs).Null?
    ensures ResourceAt(MergeArrays(q, base, cs, opconNs, controller), IdentityOf(cs[n], opconNs), opconNs) == cs[n]
  {
    NoPartner(base, cs, opconNs, n);
    UnionStaysUnique(q, base, cs, opconNs, controller);
    AddedIsListed(q, base, cs, opconNs, controller, cs[n]);
    ResourceAtMember(MergeArrays(q, base, cs, opconNs, controller), opconNs, cs[n]);
  }

  /** Where an entry of the merged list comes from. */
  lemma EntryOrigin(q: Quantities, base: seq<Json>, cs: seq<Json>, opconNs: string, controller: string, j: nat)
    requires j < |MergeArrays(q, base, cs, opconNs, controller)|
    ensures var r := MergeArrays(q, base, cs, opconNs, controller)[j];
            if j < |base| then IdentityOf(r, opconNs) == IdentityOf(base[j], opconNs) && (Named(r) <==> Named(base[j]))
              else r in cs
  {
    if j < |base| {
      MergedInPlace(q, base, cs, opconNs, controller, j);
      SameIdentityNamed(MergeArrays(q, base, cs, opconNs, controller)[j], base[j], opconNs);
    } else {
      var h := Handled(cs, Partners(base, cs, opconNs));
      var r := Others(cs, h)[j - |base|];
      OthersMembers(cs, h, r);
    }
  }

  lemma NothingAppears(q: Quantities, base: seq<Json>, cs: seq<Json>, opconNs: string, controller: string, id: Identity)
    requires ResourceAt(base, id, opconNs).Null? && ResourceAt(cs, id, opconNs).Null?
    ensures ResourceAt(MergeArrays(q, base, cs, opconNs, controller), id, opconNs).Null?
  {
    var r := MergeArrays(q, base, cs, opconNs, controller);
    ResourceAtFinds(base, id, opconNs);
    ResourceAtFinds(cs, id, opconNs);
    ResourceAtFinds(r, id, opconNs);
    if !ResourceAt(r, id, opconNs).Null? {
      var j :| 0 <= j < |r| && r[j] == ResourceAt(r, id, opconNs);
      EntryOrigin(q, base, cs, opconNs, controller, j);
    }
  }

  /** The resources of the first service called `name`. */
  function ResourcesAt(ss: seq<Service>, name: string): seq<Json> {
    var i := IndexOf(ss, name);
    if i < |ss| then GetOr(ss[i].resources, []) else []
  }

  function ResourcesOf(op: Service, name: string): seq<Json> {
    if op.name == name then GetOr(op.resources, []) else []
  }

  lemma ResourcesAfterEntry(ctx: Context, cur: Service, op: Service)
    ensures GetOr(Updated(ctx, cur, op).resources, []) ==
            MergeResourcesOf(ctx, op.name, GetOr(cur.resources, []), GetOr(op.resources, []))
  {
    NothingToMerge(ctx.q, [], ctx.opconNs, ControllerOf(ctx.controllers, op.name));
  }

  lemma OneEntryAtResources(ctx: Context, ss: seq<Service>, op: Service, name: string)
    ensures ResourcesAt(MergeOperator(ctx, ss, op), name) ==
            MergeResourcesOf(ctx, name, ResourcesAt(ss, name), ResourcesOf(op, name))
  {
    var i := IndexOf(ss, op.name);
    var ss' := MergeOperator(ctx, ss, op);
    NothingToMerge(ctx.q, ResourcesAt(ss, name), ctx.opconNs, ControllerOf(ctx.controllers, name));
    if i < |ss| {
      ResourcesAfterEntry(ctx, ss[i], op);
      SameIndex(ss, ss', name);
    } else {
      AppendedElsewhere(ss, Introduced(ctx, op), name);
    }
  }

  /** The leaves at `p` that the entries set for one resource, in order. */
  function ResourceLeaves(ops: seq<Service>, name: string, id: Identity, opconNs: string, p: seq<Step>): (r: seq<Json>)
    ensures |r| == |ops|
    ensures forall i | 0 <= i < |ops| :: r[i] == Find(ResourceAt(ResourcesOf(ops[i], name), id, opconNs), p)
  {
    if ops == [] then []
    else [Find(ResourceAt(ResourcesOf(ops[0], name), id, opconNs), p)] + ResourceLeaves(ops[1..], name, id, opconNs, p)
  }

  /** Every entry lists an identity at most once, with the shape of the path. */
  ghost predicate ResourcesOnPath(ops: seq<Service>, name: string, id: Identity, opconNs: string, p: seq<Step>) {
    forall op | op in ops ::
      UniqueIdentities(ResourcesOf(op, name), opconNs) && OnPath(ResourceAt(ResourcesOf(op, name), id, opconNs), p)
  }

  lemma OneEntryAtResource(ctx: Context, ss: seq<Service>, op: Service, name: string, id: Identity, p: seq<Step>)
    requires Untouched(p, ControllerOf(ctx.controllers, name))
    requires UniqueIdentities(ResourcesAt(ss, name), ctx.opconNs) &&
             OnPath(ResourceAt(ResourcesAt(ss, name), id, ctx.opconNs), p)
    requires ResourcesOnPath([op], name, id, ctx.opconNs, p)
    ensures var rs := ResourcesAt(MergeOperator(ctx, ss, op), name);
            && UniqueIdentities(rs, ctx.opconNs) && OnPath(ResourceAt(rs, id, ctx.opconNs), p)
            && Find(ResourceAt(rs, id, ctx.opconNs), p) ==
               MergeValue(LargestWins(ctx.q), LeafKey("", p),
                          Find(ResourceAt(ResourcesAt(ss, name), id, ctx.opconNs), p),
                          Find(ResourceAt(ResourcesOf(op, name), id, ctx.opconNs), p))
  {
    var base, cs := ResourcesAt(ss, name), ResourcesOf(op, name);
    var controller := ControllerOf(ctx.controllers, name);
    assert op in [op];
    OneEntryAtResources(ctx, ss, op, name);
    UnionAt(ctx.q, base, cs, ctx.opconNs, controller, id);
    UnionStaysUnique(ctx.q, base, cs, ctx.opconNs, controller);
    var b, c := ResourceAt(base, id, ctx.opconNs), ResourceAt(cs, id, ctx.opconNs);
    ResourceAtFinds(base, id, ctx.opconNs);
    ResourceAtFinds(cs, id, ctx.opconNs);
    FindNull(p);
    FindIsLeaf(b, p);
    FindIsLeaf(c, p);
    MergeNull(LargestWins(ctx.q), LeafKey("", p), Find(b, p));
    MergeNull(LargestWins(ctx.q), LeafKey("", p), Find(c, p));
    if !b.Null? && !c.Null? {
      CombineAtPath(ctx.q, b, c, controller, p);
    }
  }

  lemma {:induction false} FoldAtResource(ctx: Context, ss: seq<Service>, ops: seq<Service>, name: string, id: Identity,
                                          p: seq<Step>)
    requires Untouched(p, ControllerOf(ctx.controllers, name))
    requires UniqueIdentities(ResourcesAt(ss, name), ctx.opconNs) &&
             OnPath(ResourceAt(ResourcesAt(ss, name), id, ctx.opconNs), p)
    requires ResourcesOnPath(ops, name, id, ctx.opconNs, p)
    ensures Find(ResourceAt(ResourcesAt(MergeOperators(ctx, ss, ops), name), id, ctx.opconNs), p) ==
            FoldLeaf(LargestWins(ctx.q), LeafKey("", p), Find(ResourceAt(ResourcesAt(ss, name), id, ctx.opconNs), p),
                     ResourceLeaves(ops, name, id, ctx.opconNs, p))
    ensures UniqueIdentities(ResourcesAt(MergeOperators(ctx, ss, ops), name), ctx.opconNs)
    ensures OnPath(ResourceAt(ResourcesAt(MergeOperators(ctx, ss, ops), name), id, ctx.opconNs), p)
    decreases |ops|
  {
    if ops != [] {
      assert ops[0] in ops;
      OneEntryAtResource(ctx, ss, ops[0], name, id, p);
      FoldAtResource(ctx, MergeOperator(ctx, ss, ops[0]), ops[1..], name, id, p);
    }
  }

  lemma ResourceLeafMembers(ops: seq<Service>, ops': seq<Service>, name: string, id: Identity, opconNs: string,
                            p: seq<Step>, v: Json)
    requires forall op :: op in ops ==> op in ops'
    requires v in ResourceLeaves(ops, name, id, opconNs, p)
    ensures v in ResourceLeaves(ops', name, id, opconNs, p)
  {
    var i :| 0 <= i < |ops| && ResourceLeaves(ops, name, id, opconNs, p)[i] == v;
    assert ops[i] in ops';
    var j :| 0 <= j < |ops'| && ops'[j] == ops[i];
    assert ResourceLeaves(ops', name, id, opconNs, p)[j] == v;
  }

  lemma ResourceLeavesAreScalar(ops: seq<Service>, name: string, id: Identity, opconNs: string, p: seq<Step>)
    requires ResourcesOnPath(ops, name, id, opconNs, p)
    ensures AllScalars(ResourceLeaves(ops, name, id, opconNs, p))
  {
    var ys := ResourceLeaves(ops, name, id, opconNs, p);
    forall i | 0 <= i < |ys| ensures ys[i].Scalar() {
      assert ops[i] in ops;
      FindIsLeaf(ResourceAt(ResourcesOf(ops[i], name), id, opconNs), p);
    }
  }

  /** Order independence of resources: in whatever order the entries are folded, every size of every
      resource ends up at the largest setting. */
  lemma ResourceOrderIrrelevant(ctx: Context, ops: seq<Service>, ops': seq<Service>, name: string, id: Identity,
                                p: seq<Step>)
    requires Untouched(p, ControllerOf(ctx.controllers, name)) && LeafKey("", p) in COMPARABLE_KEYS
    requires forall op :: op in ops <==> op in ops'
    requires ResourcesOnPath(ops, name, id, ctx.opconNs, p)
    requires OnOneScale(ctx.q, SetValues(ResourceLeaves(ops, name, id, ctx.opconNs, p)))
    ensures var r := Find(ResourceAt(ResourcesAt(MergeOperators(ctx, [], ops), name), id, ctx.opconNs), p);
            var vs := SetValues(ResourceLeaves(ops, name, id, ctx.opconNs, p));
            && Rank(ctx.q, r) ==
               Rank(ctx.q, Find(ResourceAt(ResourcesAt(MergeOperators(ctx, [], ops'), name), id, ctx.opconNs), p))
            && if vs == [] then r.Null? else IsLargest(ctx.q, r, vs)
  {
    FindNull(p);
    FoldAtResource(ctx, [], ops, name, id, p);
    FoldAtResource(ctx, [], ops', name, id, p);
    var ys, ys' := ResourceLeaves(ops, name, id, ctx.opconNs, p), ResourceLeaves(ops', name, id, ctx.opconNs, p);
    ResourceLeavesAreScalar(ops, name, id, ctx.opconNs, p);
    ResourceLeavesAreScalar(ops', name, id, ctx.opconNs, p);
    forall v: Json ensures v in SetValues(ys) <==> v in SetValues(ys') {
      SettingsMembers(ys, v);
      SettingsMembers(ys', v);
      if v in ys { ResourceLeafMembers(ops, ops', name, id, ctx.opconNs, p, v); }
      if v in ys' { ResourceLeafMembers(ops', ops, name, id, ctx.opconNs, p, v); }
    }
    FoldOrderIrrelevant(ctx.q, LeafKey("", p), ys, ys');
  }
}
