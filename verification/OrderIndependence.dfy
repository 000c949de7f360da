/** CRs may be folded in any order: at every size the largest setting comes out. */
module OrderIndependence {
  import opened Trees
  import opened ResourceComparison
  import opened Merging
  import opened Paths
  import opened Services
  import opened Wrappers

  function SetValue(v: Json): seq<Json> {
    if v.Null? then [] else [v]
  }

  /** The settings among `vs`: the values that are not null. */
  function SetValues(vs: seq<Json>): seq<Json> {
    if vs == [] then [] else SetValue(vs[0]) + SetValues(vs[1..])
  }

  /** One leaf after another merged onto `x`. */
  function FoldLeaf(m: Policy, key: string, x: Json, ys: seq<Json>): Json
    decreases |ys|
  {
    if ys == [] then x else FoldLeaf(m, key, MergeValue(m, key, x, ys[0]), ys[1..])
  }

  ghost predicate OnOneScale(q: Quantities, vs: seq<Json>) {
    forall v, w | v in vs && w in vs :: SameScale(q, v, w)
  }

  ghost predicate AllScalars(vs: seq<Json>) {
    forall v: Json | v in vs :: v.Scalar()
  }

  /** Merging two of the settings first leaves the largest of them all the same. */
  lemma LargestOfMerged(q: Quantities, key: string, x: Json, y: Json, rest: seq<Json>)
    requires x.Scalar() && y.Scalar() && key in COMPARABLE_KEYS
    requires OnOneScale(q, SetValue(x) + (SetValue(y) + rest))
    ensures var z := MergeValue(LargestWins(q), key, x, y);
            && z.Scalar()
            && OnOneScale(q, SetValue(z) + rest)
            && (z.Null? <==> x.Null? && y.Null?)
            && forall r :: IsLargest(q, r, SetValue(z) + rest) ==> IsLargest(q, r, SetValue(x) + (SetValue(y) + rest))
  {
    var vs := SetValue(x) + (SetValue(y) + rest);
    var z := MergeValue(LargestWins(q), key, x, y);
    MergeNull(LargestWins(q), key, x);
    MergeNull(LargestWins(q), key, y);
    if !x.Null? && !y.Null? {
      assert x in vs && y in vs;
      LargerIsMaximum(q, x, y);
    }
    assert forall v | v in SetValue(z) + rest :: v in vs;
  }

  lemma {:induction false} FoldIsLargest(q: Quantities, key: string, x: Json, ys: seq<Json>)
    requires key in COMPARABLE_KEYS && x.Scalar() && AllScalars(ys)
    requires OnOneScale(q, SetValue(x) + SetValues(ys))
    ensures var r, vs := FoldLeaf(LargestWins(q), key, x, ys), SetValue(x) + SetValues(ys);
            if vs == [] then r.Null? else IsLargest(q, r, vs)
    decreases |ys|
  {
    if ys == [] {
      if !x.Null? {
        assert x in SetValue(x) + SetValues(ys);
        assert SameScale(q, x, x);
      }
    } else {
      assert ys[0] in ys;
      LargestOfMerged(q, key, x, ys[0], SetValues(ys[1..]));
      FoldIsLargest(q, key, MergeValue(LargestWins(q), key, x, ys[0]), ys[1..]);
    }
  }

  lemma {:induction false} SettingsMembers(ys: seq<Json>, v: Json)
    ensures v in SetValues(ys) <==> !v.Null? && v in ys
  {
    if ys != [] {
      SettingsMembers(ys[1..], v);
    }
  }

  /** Two sequences with the same settings, in any order and number, fold to settings of one rank:
      the largest. */
  lemma FoldOrderIrrelevant(q: Quantities, key: string, ys: seq<Json>, ys': seq<Json>)
    requires key in COMPARABLE_KEYS && AllScalars(ys) && AllScalars(ys')
    requires forall v: Json :: v in SetValues(ys) <==> v in SetValues(ys')
    requires OnOneScale(q, SetValues(ys))
    ensures Rank(q, FoldLeaf(LargestWins(q), key, Null, ys)) == Rank(q, FoldLeaf(LargestWins(q), key, Null, ys'))
    ensures SetValues(ys) != [] ==> IsLargest(q, FoldLeaf(LargestWins(q), key, Null, ys), SetValues(ys))
    ensures SetValues(ys) == [] ==> FoldLeaf(LargestWins(q), key, Null, ys).Null?
  {
    assert SetValue(Null) + SetValues(ys) == SetValues(ys);
    assert SetValue(Null) + SetValues(ys') == SetValues(ys');
    FoldIsLargest(q, key, Null, ys);
    FoldIsLargest(q, key, Null, ys');
    var r, r' := FoldLeaf(LargestWins(q), key, Null, ys), FoldLeaf(LargestWins(q), key, Null, ys');
    if |SetValues(ys')| > 0 {
      assert SetValues(ys')[0] in SetValues(ys);
    }
    if |SetValues(ys)| > 0 {
      assert SetValues(ys)[0] in SetValues(ys');
      assert SameScale(q, r, r');
    }
  }

  /** The custom resource `cr` of the first service called `name`. */
  function CrAt(ss: seq<Service>, name: string, cr: string): Fields {
    var i := IndexOf(ss, name);
    if i < |ss| then CrIn(ss[i], cr) else map[]
  }

  /** What one entry of a CR says about it. */
  function CrOf(ctx: Context, op: Service, name: string, cr: string): Fields {
    if op.name == name && op.spec.Some? && cr in op.spec.value then Contribution(ctx, name, cr, op.spec.value[cr])
      else map[]
  }

  function CrIn(s: Service, cr: string): Fields {
    AsMap(Get(GetOr(s.spec, map[]), cr))
  }

  lemma SpecAtCr(ctx: Context, name: string, base: Fields, spec: Fields, cr: string)
    ensures AsMap(Get(MergeSpec(ctx, name, base, spec), cr)) ==
      if cr in spec then Merge(PolicyFor(ctx, name, cr), AsMap(Get(base, cr)), Contribution(ctx, name, cr, spec[cr]))
      else AsMap(Get(base, cr))
  {
  }

  lemma SpecAfterEntry(ctx: Context, cur: Service, op: Service)
    ensures GetOr(Updated(ctx, cur, op).spec, map[]) ==
      if op.spec.Some? then MergeSpec(ctx, op.name, GetOr(cur.spec, map[]), op.spec.value) else GetOr(cur.spec, map[])
    ensures GetOr(Introduced(ctx, op).spec, map[]) ==
      if op.spec.Some? then MergeSpec(ctx, op.name, map[], op.spec.value) else map[]
  {
  }

  lemma EntryAtCr(ctx: Context, cur: Service, op: Service, cr: string)
    ensures CrIn(Updated(ctx, cur, op), cr) ==
      if op.spec.Some? && cr in op.spec.value
      then Merge(PolicyFor(ctx, op.name, cr), CrIn(cur, cr), CrOf(ctx, op, op.name, cr)) else CrIn(cur, cr)
  {
    SpecAfterEntry(ctx, cur, op);
    if op.spec.Some? {
      SpecAtCr(ctx, op.name, GetOr(cur.spec, map[]), op.spec.value, cr);
    }
  }

  lemma NewEntryAtCr(ctx: Context, op: Service, cr: string)
    ensures CrIn(Introduced(ctx, op), cr) ==
      if op.spec.Some? && cr in op.spec.value
      then Merge(PolicyFor(ctx, op.name, cr), map[], CrOf(ctx, op, op.name, cr)) else map[]
  {
    SpecAfterEntry(ctx, Service(op.name, None, None, map[]), op);
    if op.spec.Some? {
      SpecAtCr(ctx, op.name, map[], op.spec.value, cr);
    }
  }

  lemma OneEntryAtCr(ctx: Context, ss: seq<Service>, op: Service, name: string, cr: string)
    ensures CrAt(MergeOperator(ctx, ss, op), name, cr) ==
      if op.name == name && op.spec.Some? && cr in op.spec.value
      then Merge(PolicyFor(ctx, name, cr), CrAt(ss, name, cr), CrOf(ctx, op, name, cr)) else CrAt(ss, name, cr)
  {
    var i := IndexOf(ss, op.name);
    var ss' := MergeOperator(ctx, ss, op);
    if i < |ss| {
      EntryAtCr(ctx, ss[i], op, cr);
      SameIndex(ss, ss', name);
    } else {
      NewEntryAtCr(ctx, op, cr);
      AppendedElsewhere(ss, Introduced(ctx, op), name);
    }
  }

  /** The leaves at `p` that the entries set, in order; null where an entry says nothing. */
  function CrLeaves(ctx: Context, ops: seq<Service>, name: string, cr: string, p: seq<Step>): (r: seq<Json>)
    ensures |r| == |ops|
    ensures forall i | 0 <= i < |ops| :: r[i] == Find(Obj(CrOf(ctx, ops[i], name, cr)), p)
  {
    if ops == [] then [] else [Find(Obj(CrOf(ctx, ops[0], name, cr)), p)] + CrLeaves(ctx, ops[1..], name, cr, p)
  }

  ghost predicate CrOnPath(ctx: Context, ops: seq<Service>, name: string, cr: string, p: seq<Step>) {
    forall op | op in ops :: OnPath(Obj(CrOf(ctx, op, name, cr)), p)
  }

  /** Folding whole CRs and then looking at a leaf is folding the leaves. */
  lemma {:induction false} FoldAtCr(ctx: Context, ss: seq<Service>, ops: seq<Service>, name: string, cr: string,
                                    p: seq<Step>)
    requires p != [] && OnPath(Obj(CrAt(ss, name, cr)), p) && CrOnPath(ctx, ops, name, cr, p)
    ensures Find(Obj(CrAt(MergeOperators(ctx, ss, ops), name, cr)), p) ==
            FoldLeaf(PolicyFor(ctx, name, cr), LeafKey("", p), Find(Obj(CrAt(ss, name, cr)), p),
                     CrLeaves(ctx, ops, name, cr, p))
    ensures OnPath(Obj(CrAt(MergeOperators(ctx, ss, ops), name, cr)), p)
    decreases |ops|
  {
    if ops != [] {
      var op, m := ops[0], PolicyFor(ctx, name, cr);
      OneEntryAtCr(ctx, ss, op, name, cr);
      var d, c := CrAt(ss, name, cr), CrOf(ctx, op, name, cr);
      MergeAtPath(m, d, c, p);
      FindIsLeaf(Obj(d), p);
      FindNull(p[1..]);
      if c == map[] {
        MergeNull(m, LeafKey("", p), Find(Obj(d), p));
      }
      FoldAtCr(ctx, MergeOperator(ctx, ss, op), ops[1..], name, cr, p);
    }
  }

  lemma EmptyOnPath(p: seq<Step>)
    requires p != [] && p[0].Key?
    ensures OnPath(Obj(map[]), p) && Find(Obj(map[]), p).Null?
  {
    FindNull(p[1..]);
    assert OnPath(Null, p[1..]);
  }

  lemma CrLeafMembers(ctx: Context, ops: seq<Service>, ops': seq<Service>, name: string, cr: string, p: seq<Step>,
                      v: Json)
    requires forall op :: op in ops ==> op in ops'
    requires v in CrLeaves(ctx, ops, name, cr, p)
    ensures v in CrLeaves(ctx, ops', name, cr, p)
  {
    var i :| 0 <= i < |ops| && CrLeaves(ctx, ops, name, cr, p)[i] == v;
    assert ops[i] in ops';
    var j :| 0 <= j < |ops'| && ops'[j] == ops[i];
    assert CrLeaves(ctx, ops', name, cr, p)[j] == v;
  }

  lemma CrLeavesAreScalar(ctx: Context, ops: seq<Service>, name: string, cr: string, p: seq<Step>)
    requires CrOnPath(ctx, ops, name, cr, p)
    ensures AllScalars(CrLeaves(ctx, ops, name, cr, p))
  {
    var ys := CrLeaves(ctx, ops, name, cr, p);
    forall i | 0 <= i < |ys| ensures ys[i].Scalar() {
      assert ops[i] in ops;
      FindIsLeaf(Obj(CrOf(ctx, ops[i], name, cr)), p);
    }
  }

  /** The same entries, in any order and however often, set the same. */
  lemma SameCrSettings(ctx: Context, ops: seq<Service>, ops': seq<Service>, name: string, cr: string, p: seq<Step>)
    requires forall op :: op in ops <==> op in ops'
    ensures forall v: Json :: v in SetValues(CrLeaves(ctx, ops, name, cr, p)) <==>
            v in SetValues(CrLeaves(ctx, ops', name, cr, p))
  {
    var ys, ys' := CrLeaves(ctx, ops, name, cr, p), CrLeaves(ctx, ops', name, cr, p);
    forall v: Json ensures v in SetValues(ys) <==> v in SetValues(ys') {
      SettingsMembers(ys, v);
      SettingsMembers(ys', v);
      if v in ys { CrLeafMembers(ctx, ops, ops', name, cr, p, v); }
      if v in ys' { CrLeafMembers(ctx, ops', ops, name, cr, p, v); }
    }
  }

  /** Order independence of specs: folding the same entries into an empty summary, in any order and however often,
      gives, at every size of every custom resource with rules, a setting of one and the same rank, and that is the
      largest one set. */
  lemma SpecOrderIrrelevant(ctx: Context, ops: seq<Service>, ops': seq<Service>, name: string, cr: string, p: seq<Step>)
    requires !RuleFor(ctx.rules, name, cr).Null?
    requires p != [] && p[0].Key? && LeafKey("", p) in COMPARABLE_KEYS
    requires forall op :: op in ops <==> op in ops'
    requires CrOnPath(ctx, ops, name, cr, p) && OnOneScale(ctx.q, SetValues(CrLeaves(ctx, ops, name, cr, p)))
    ensures var r := Find(Obj(CrAt(MergeOperators(ctx, [], ops), name, cr)), p);
            var vs := SetValues(CrLeaves(ctx, ops, name, cr, p));
            && Rank(ctx.q, r) == Rank(ctx.q, Find(Obj(CrAt(MergeOperators(ctx, [], ops'), name, cr)), p))
            && if vs == [] then r.Null? else IsLargest(ctx.q, r, vs)
  {
    var ys, ys' := CrLeaves(ctx, ops, name, cr, p), CrLeaves(ctx, ops', name, cr, p);
    EmptyOnPath(p);
    FoldAtCr(ctx, [], ops, name, cr, p);
    FoldAtCr(ctx, [], ops', name, cr, p);
    CrLeavesAreScalar(ctx, ops, name, cr, p);
    CrLeavesAreScalar(ctx, ops', name, cr, p);
    SameCrSettings(ctx, ops, ops', name, cr, p);
    FoldOrderIrrelevant(ctx.q, LeafKey("", p), ys, ys');
  }
}
