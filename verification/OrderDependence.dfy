/** The exact value at a leaf: which setting it is, and when the order of the CRs does not matter for it. */
module OrderDependence {
  import opened Sequences
  import opened Trees
  import opened Wrappers
  import opened ResourceComparison
  import opened Merging
  import opened Associativity
  import opened Paths
  import opened Resetting
  import opened Resources
  import opened Services
  import opened OrderIndependence
  import opened ResourceOrder
  import opened CrSummaries

  /** The settings that can decide a leaf: those nothing outranks at a key that is compared, all of them
      elsewhere. */
  ghost predicate Decides(m: Policy, key: string, v: Json, vs: seq<Json>) {
    v in vs && (Compares(m, key) ==> forall w | w in vs :: !Outranks(m.q, w, v))
  }

  ghost predicate AllOrdered(q: Quantities, vs: seq<Json>) {
    forall v, w | v in vs && w in vs :: Ordered(q, v, w)
  }

  /** On one scale the settings that decide are the largest ones. */
  lemma DecidesIsLargest(m: Policy, key: string, v: Json, vs: seq<Json>)
    requires Compares(m, key) && OnOneScale(m.q, vs)
    ensures Decides(m, key, v, vs) <==> IsLargest(m.q, v, vs)
    ensures AllOrdered(m.q, vs)
  {
    if v in vs {
      assert forall w | w in vs :: SameScale(m.q, w, v);
    }
  }

  /** `r` is the last setting that decides. */
  ghost predicate LastDeciding(m: Policy, key: string, r: Json, vs: seq<Json>) {
    exists i :: 0 <= i < |vs| && vs[i] == r && Decides(m, key, r, vs) && forall j | i < j < |vs| ::
      !Decides(m, key, vs[j], vs)
  }

  /** Leaves as a fold needs them; compared ones have an order. */
  ghost predicate Foldable(m: Policy, key: string, ys: seq<Json>) {
    AllScalars(ys) && (Compares(m, key) ==> AllOrdered(m.q, SetValues(ys)))
  }

  lemma {:induction false} FoldAppend(m: Policy, key: string, x: Json, a: seq<Json>, b: seq<Json>)
    ensures FoldLeaf(m, key, x, a + b) == FoldLeaf(m, key, FoldLeaf(m, key, x, a), b)
    decreases |a|
  {
    if a == [] {
      assert a + b == b;
    } else {
      HeadOfConcat(a, b);
      FoldAppend(m, key, MergeValue(m, key, x, a[0]), a[1..], b);
    }
  }

  lemma {:induction false} SetValuesAppend(a: seq<Json>, b: seq<Json>)
    ensures SetValues(a + b) == SetValues(a) + SetValues(b)
  {
    if a == [] {
      assert a + b == b;
    } else {
      HeadOfConcat(a, b);
      SetValuesAppend(a[1..], b);
      Associate(SetValue(a[0]), SetValues(a[1..]), SetValues(b));
    }
  }

  /** A fold makes up nothing. */
  lemma {:induction false} FoldSelects(m: Policy, key: string, x: Json, ys: seq<Json>)
    requires x.Scalar() && AllScalars(ys)
    ensures var r := FoldLeaf(m, key, x, ys);
            r.Scalar() && (r == x || r in ys) && (r.Null? <==> x.Null? && SetValues(ys) == [])
    decreases |ys|
  {
    if ys != [] {
      MergeNull(m, key, x);
      MergeNull(m, key, ys[0]);
      if Compares(m, key) { LargerSelects(m.q, x, ys[0]); }
      FoldSelects(m, key, MergeValue(m, key, x, ys[0]), ys[1..]);
    }
  }

  /** One more setting at the end. */
  lemma FoldLast(m: Policy, key: string, ys: seq<Json>, v: Json)
    ensures FoldLeaf(m, key, Null, ys + [v]) == MergeValue(m, key, FoldLeaf(m, key, Null, ys), v)
    ensures SetValues(ys + [v]) == SetValues(ys) + SetValue(v)
  {
    FoldAppend(m, key, Null, ys, [v]);
    SetValuesAppend(ys, [v]);
    assert [v][1..] == [];
    assert FoldLeaf(m, key, FoldLeaf(m, key, Null, ys), [v]) ==
           FoldLeaf(m, key, MergeValue(m, key, FoldLeaf(m, key, Null, ys), v), []);
    assert SetValues([v]) == SetValue(v) + SetValues([]);
  }

  lemma DecidesOneMore(m: Policy, key: string, r: Json, vs: seq<Json>, v: Json)
    requires Compares(m, key) && AllOrdered(m.q, vs + [v]) && LastDeciding(m, key, r, vs)
    ensures LastDeciding(m, key, if Outranks(m.q, r, v) then r else v, vs + [v])
  {
    var all := vs + [v];
    assert forall x :: x in all <==> x in vs || x == v;
    if Outranks(m.q, r, v) {
      var i :| 0 <= i < |vs| && vs[i] == r && forall j | i < j < |vs| :: !Decides(m, key, vs[j], vs);
      forall j | i < j < |all| ensures !Decides(m, key, all[j], all) {
        if j < |vs| {
          StillNotDeciding(m, key, vs, v, vs[j]);
        }
      }
      assert all[i] == r;
    } else {
      assert all[|vs|] == v;
    }
  }

  lemma StillNotDeciding(m: Policy, key: string, vs: seq<Json>, v: Json, w: Json)
    requires Compares(m, key) && w in vs && !Decides(m, key, w, vs)
    ensures !Decides(m, key, w, vs + [v])
  {
    var u :| u in vs && Outranks(m.q, u, w);
    assert u in vs + [v];
  }

  /** The value at a leaf is the last setting that decides. */
  lemma {:induction false} FoldIsLastDeciding(m: Policy, key: string, ys: seq<Json>)
    requires Foldable(m, key, ys)
    ensures var r, vs := FoldLeaf(m, key, Null, ys), SetValues(ys);
            if vs == [] then r.Null? else LastDeciding(m, key, r, vs)
    decreases |ys|
  {
    if ys != [] {
      var n := |ys| - 1;
      var init, v := ys[..n], ys[n];
      assert ys == init + [v];
      FoldLast(m, key, init, v);
      FoldSelects(m, key, Null, init);
      forall a, b | a in SetValues(init) && b in SetValues(init) && Compares(m, key) ensures Ordered(m.q, a, b) {
        assert a in SetValues(ys) && b in SetValues(ys);
      }
      FoldIsLastDeciding(m, key, init);
      FoldOneMore(m, key, init, v);
    }
  }

  lemma FoldOneMore(m: Policy, key: string, init: seq<Json>, v: Json)
    requires v.Scalar() && Foldable(m, key, init) &&
             (Compares(m, key) ==> AllOrdered(m.q, SetValues(init) + SetValue(v)))
    requires var r, vs := FoldLeaf(m, key, Null, init), SetValues(init);
             r.Scalar() && if vs == [] then r.Null? else !r.Null? && LastDeciding(m, key, r, vs)
    ensures var r, vs := MergeValue(m, key, FoldLeaf(m, key, Null, init), v), SetValues(init) + SetValue(v);
            if vs == [] then r.Null? else LastDeciding(m, key, r, vs)
  {
    var r, vs := FoldLeaf(m, key, Null, init), SetValues(init);
    MergeNull(m, key, r);
    MergeNull(m, key, v);
    if v.Null? {
      assert vs + [] == vs;
    } else if vs == [] {
      assert (vs + [v])[0] == v;
    } else if Compares(m, key) {
      DecidesOneMore(m, key, r, vs, v);
      assert r in vs + [v] && v in vs + [v];
      LargerOutranks(m.q, r, v);
    } else {
      assert (vs + [v])[|vs|] == v;
    }
  }

  /** The settings that can decide are all equal. */
  ghost predicate Agree(m: Policy, key: string, vs: seq<Json>) {
    forall v, w | Decides(m, key, v, vs) && Decides(m, key, w, vs) :: v == w
  }

  /** The leaves of several sources, one source after the other. */
  function Flat<T>(g: T -> seq<Json>, xs: seq<T>): seq<Json> {
    if xs == [] then [] else g(xs[0]) + Flat(g, xs[1..])
  }

  /** What each source sets on its own. */
  function Settings<T>(m: Policy, key: string, g: T -> seq<Json>, xs: seq<T>): (r: seq<Json>)
    ensures |r| == |xs|
    ensures forall i | 0 <= i < |xs| :: r[i] == FoldLeaf(m, key, Null, g(xs[i]))
  {
    if xs == [] then [] else [FoldLeaf(m, key, Null, g(xs[0]))] + Settings(m, key, g, xs[1..])
  }

  /** A fold from `x` is one merge of what the leaves make on their own. */
  lemma {:induction false} FoldFrom(m: Policy, key: string, x: Json, ys: seq<Json>)
    requires x.Scalar() && Foldable(m, key, ys) && (Compares(m, key) ==> AllOrdered(m.q, SetValue(x) + SetValues(ys)))
    ensures FoldLeaf(m, key, x, ys) == MergeValue(m, key, x, FoldLeaf(m, key, Null, ys))
    decreases |ys|
  {
    if ys == [] {
      MergeNull(m, key, x);
    } else {
      var n := |ys| - 1;
      var init, v := ys[..n], ys[n];
      assert ys == init + [v];
      FoldAppend(m, key, x, init, [v]);
      FoldLast(m, key, init, v);
      assert [v][1..] == [];
      PrefixOnScale(m, key, x, init, v);
      FoldFrom(m, key, x, init);
      FoldSelects(m, key, Null, init);
      var r := FoldLeaf(m, key, Null, init);
      SettingsMembers(init, r);
      assert !r.Null? ==> r in SetValue(x) + SetValues(ys);
      assert !v.Null? ==> v in SetValue(x) + SetValues(ys);
      assert !x.Null? ==> x in SetValue(x) + SetValues(ys);
      LeafAssociative(m, key, x, r, v);
    }
  }

  lemma PrefixOnScale(m: Policy, key: string, x: Json, init: seq<Json>, v: Json)
    requires Foldable(m, key, init + [v]) && (Compares(m, key) ==> AllOrdered(m.q, SetValue(x) + SetValues(init + [v])))
    ensures Foldable(m, key, init) && (Compares(m, key) ==> AllOrdered(m.q, SetValue(x) + SetValues(init)))
    ensures v.Scalar()
  {
    SetValuesAppend(init, [v]);
    assert forall w | w in init :: w in init + [v];
    assert v in init + [v];
    assert forall w | w in SetValues(init) :: w in SetValues(init + [v]);
  }

  /** Leaves that can be folded onto `x`. */
  ghost predicate FoldableFrom(m: Policy, key: string, x: Json, ys: seq<Json>) {
    x.Scalar() && AllScalars(ys) && (Compares(m, key) ==> AllOrdered(m.q, SetValue(x) + SetValues(ys)))
  }

  /** Fewer settings are foldable, too. */
  lemma FewerSettings(m: Policy, key: string, x: Json, ys: seq<Json>, x': Json, ys': seq<Json>)
    requires FoldableFrom(m, key, x, ys) && x'.Scalar()
    requires x'.Null? || x' == x || x' in ys
    requires forall y | y in ys' :: y.Null? || y in ys
    ensures FoldableFrom(m, key, x', ys') && Foldable(m, key, ys')
  {
    var all := SetValue(x) + SetValues(ys);
    forall v | v in SetValue(x') + SetValues(ys') ensures v in all {
      SettingsMembers(ys', v);
      SettingsMembers(ys, v);
    }
  }

  /** Folding source after source is folding what the sources make on their own. */
  lemma {:induction false} FoldBySource<T>(m: Policy, key: string, g: T -> seq<Json>, xs: seq<T>, x: Json)
    requires FoldableFrom(m, key, x, Flat(g, xs))
    ensures FoldLeaf(m, key, x, Flat(g, xs)) == FoldLeaf(m, key, x, Settings(m, key, g, xs))
    decreases |xs|
  {
    if xs != [] {
      var own, rest := g(xs[0]), Flat(g, xs[1..]);
      var s := FoldLeaf(m, key, Null, own);
      FoldAppend(m, key, x, own, rest);
      FewerSettings(m, key, x, own + rest, x, own);
      FoldFrom(m, key, x, own);
      FoldSelects(m, key, Null, own);
      var x' := MergeValue(m, key, x, s);
      MergeNull(m, key, x);
      MergeNull(m, key, s);
      if Compares(m, key) { LargerSelects(m.q, x, s); }
      FewerSettings(m, key, x, own + rest, x', rest);
      FoldBySource(m, key, g, xs[1..], x');
    }
  }

  lemma {:induction false} SettingIsLeaf<T>(m: Policy, key: string, g: T -> seq<Json>, xs: seq<T>)
    requires AllScalars(Flat(g, xs))
    ensures forall v | v in Settings(m, key, g, xs) :: v.Scalar() && (v.Null? || v in Flat(g, xs))
  {
    if xs != [] {
      assert forall v | v in g(xs[0]) || v in Flat(g, xs[1..]) :: v in Flat(g, xs);
      SettingIsLeaf(m, key, g, xs[1..]);
      FoldSelects(m, key, Null, g(xs[0]));
    }
  }

  /** The value the sources make, read off their settings. */
  lemma ValueOfSources<T>(m: Policy, key: string, g: T -> seq<Json>, xs: seq<T>)
    requires Foldable(m, key, Flat(g, xs))
    ensures var r, vs := FoldLeaf(m, key, Null, Flat(g, xs)), SetValues(Settings(m, key, g, xs));
            if vs == [] then r.Null? else LastDeciding(m, key, r, vs)
  {
    assert SetValue(Null) + SetValues(Flat(g, xs)) == SetValues(Flat(g, xs));
    FoldBySource(m, key, g, xs, Null);
    SettingIsLeaf(m, key, g, xs);
    FewerSettings(m, key, Null, Flat(g, xs), Null, Settings(m, key, g, xs));
    FoldIsLastDeciding(m, key, Settings(m, key, g, xs));
  }

  lemma {:induction false} FlatMembers<T>(g: T -> seq<Json>, xs: seq<T>, v: Json)
    ensures v in Flat(g, xs) <==> exists x :: x in xs && v in g(x)
  {
    if xs != [] {
      FlatMembers(g, xs[1..], v);
      assert forall x | x in xs :: x == xs[0] || x in xs[1..];
    }
  }

  /** Reordered sources set the same. */
  lemma SameSettings<T>(m: Policy, key: string, g: T -> seq<Json>, xs: seq<T>, xs': seq<T>)
    requires multiset(xs) == multiset(xs') && Foldable(m, key, Flat(g, xs))
    ensures Foldable(m, key, Flat(g, xs'))
    ensures forall v :: v in SetValues(Settings(m, key, g, xs)) <==> v in SetValues(Settings(m, key, g, xs'))
  {
    assert forall x :: x in xs <==> x in multiset(xs);
    assert forall x :: x in xs' <==> x in multiset(xs');
    forall v ensures v in Flat(g, xs) <==> v in Flat(g, xs') {
      FlatMembers(g, xs, v);
      FlatMembers(g, xs', v);
    }
    assert SetValue(Null) + SetValues(Flat(g, xs)) == SetValues(Flat(g, xs));
    FewerSettings(m, key, Null, Flat(g, xs), Null, Flat(g, xs'));
    forall v ensures v in SetValues(Settings(m, key, g, xs)) <==> v in SetValues(Settings(m, key, g, xs')) {
      SettingSource(m, key, g, xs, v);
      SettingSource(m, key, g, xs', v);
    }
  }

  lemma SettingSource<T>(m: Policy, key: string, g: T -> seq<Json>, xs: seq<T>, v: Json)
    ensures v in SetValues(Settings(m, key, g, xs)) <==>
            !v.Null? && exists x :: x in xs && FoldLeaf(m, key, Null, g(x)) == v
  {
    var vs := Settings(m, key, g, xs);
    SettingsMembers(vs, v);
    if v in vs {
      var i :| 0 <= i < |vs| && vs[i] == v;
      assert xs[i] in xs && FoldLeaf(m, key, Null, g(xs[i])) == v;
    }
    if exists x :: x in xs && FoldLeaf(m, key, Null, g(x)) == v {
      var x :| x in xs && FoldLeaf(m, key, Null, g(x)) == v;
      var i :| 0 <= i < |xs| && xs[i] == x;
      assert vs[i] == v;
    }
  }

  /** Source `i` moved to the end. */
  function MovedLast<T>(xs: seq<T>, i: nat): (r: seq<T>)
    requires i < |xs|
    ensures r != [] && r[|r| - 1] == xs[i]
  {
    xs[..i] + xs[i + 1..] + [xs[i]]
  }

  lemma MovedIsReordered<T>(xs: seq<T>, i: nat)
    requires i < |xs|
    ensures multiset(MovedLast(xs, i)) == multiset(xs)
  {
    assert xs == xs[..i] + [xs[i]] + xs[i + 1..];
  }

  lemma LastSetting(vs: seq<Json>, n: nat)
    requires |vs| == n + 1 && !vs[n].Null?
    ensures SetValues(vs) != [] && SetValues(vs)[|SetValues(vs)| - 1] == vs[n]
  {
    assert vs == vs[..n] + [vs[n]];
    SetValuesAppend(vs[..n], [vs[n]]);
    assert [vs[n]][1..] == [];
    assert SetValues([vs[n]]) == SetValue(vs[n]) + SetValues([]);
  }

  /** Any setting that can decide does decide when its source comes last. */
  lemma DecidesWhenLast<T>(m: Policy, key: string, g: T -> seq<Json>, xs: seq<T>, v: Json) returns (xs': seq<T>)
    requires Foldable(m, key, Flat(g, xs)) && Decides(m, key, v, SetValues(Settings(m, key, g, xs)))
    ensures multiset(xs') == multiset(xs) && FoldLeaf(m, key, Null, Flat(g, xs')) == v
  {
    SettingSource(m, key, g, xs, v);
    var x :| x in xs && FoldLeaf(m, key, Null, g(x)) == v;
    var i: nat :| i < |xs| && xs[i] == x;
    xs' := MovedLast(xs, i);
    MovedIsReordered(xs, i);
    SameSettings(m, key, g, xs, xs');
    ValueOfSources(m, key, g, xs');
    LastSetting(Settings(m, key, g, xs'), |xs'| - 1);
    DecidesLast(m, key, FoldLeaf(m, key, Null, Flat(g, xs')), v, SetValues(Settings(m, key, g, xs)),
                SetValues(Settings(m, key, g, xs')));
  }

  lemma DecidesLast(m: Policy, key: string, r: Json, v: Json, vs: seq<Json>, vs': seq<Json>)
    requires Decides(m, key, v, vs) && vs' != [] && vs'[|vs'| - 1] == v && LastDeciding(m, key, r, vs')
    requires forall w :: w in vs <==> w in vs'
    ensures r == v
  {
    SameDeciding(m, key, vs, vs');
    var j :| 0 <= j < |vs'| && vs'[j] == r && forall k | j < k < |vs'| :: !Decides(m, key, vs'[k], vs');
    assert Decides(m, key, vs'[|vs'| - 1], vs');
  }

  /** Every order of the sources gives the same value, as far as `f` shows it. */
  ghost predicate OrderFreeUnder<T(!new)>(m: Policy, key: string, g: T -> seq<Json>, xs: seq<T>, f: Json -> Json) {
    forall xs': seq<T> | multiset(xs') == multiset(xs) ::
      f(FoldLeaf(m, key, Null, Flat(g, xs'))) == f(FoldLeaf(m, key, Null, Flat(g, xs)))
  }

  /** The settings that can decide all look the same through `f`. */
  ghost predicate AgreeUnder(m: Policy, key: string, vs: seq<Json>, f: Json -> Json) {
    forall v, w | Decides(m, key, v, vs) && Decides(m, key, w, vs) :: f(v) == f(w)
  }

  lemma AgreementIsOrderFree<T>(m: Policy, key: string, g: T -> seq<Json>, xs: seq<T>, xs': seq<T>, f: Json -> Json)
    requires Foldable(m, key, Flat(g, xs)) && multiset(xs') == multiset(xs)
    requires AgreeUnder(m, key, SetValues(Settings(m, key, g, xs)), f)
    ensures f(FoldLeaf(m, key, Null, Flat(g, xs'))) == f(FoldLeaf(m, key, Null, Flat(g, xs)))
  {
    SameSettings(m, key, g, xs, xs');
    ValueOfSources(m, key, g, xs);
    ValueOfSources(m, key, g, xs');
    SameDeciding(m, key, SetValues(Settings(m, key, g, xs)), SetValues(Settings(m, key, g, xs')));
  }

  /** Whatever is made of the value, the order of the sources does not show in it if and only if the settings that
      can decide all make the same. */
  lemma OrderFreeIffAgreeUnder<T(!new)>(m: Policy, key: string, g: T -> seq<Json>, xs: seq<T>, f: Json -> Json)
    requires Foldable(m, key, Flat(g, xs))
    ensures OrderFreeUnder(m, key, g, xs, f) <==> AgreeUnder(m, key, SetValues(Settings(m, key, g, xs)), f)
  {
    var vs := SetValues(Settings(m, key, g, xs));
    if AgreeUnder(m, key, vs, f) {
      forall xs': seq<T> | multiset(xs') == multiset(xs)
        ensures f(FoldLeaf(m, key, Null, Flat(g, xs'))) == f(FoldLeaf(m, key, Null, Flat(g, xs)))
      {
        AgreementIsOrderFree(m, key, g, xs, xs', f);
      }
    }
    if OrderFreeUnder(m, key, g, xs, f) {
      forall v, w | Decides(m, key, v, vs) && Decides(m, key, w, vs) ensures f(v) == f(w) {
        var a := DecidesWhenLast(m, key, g, xs, v);
        var b := DecidesWhenLast(m, key, g, xs, w);
      }
    }
  }

  /** Every order of the sources gives the same value. */
  ghost predicate OrderFree<T(!new)>(m: Policy, key: string, g: T -> seq<Json>, xs: seq<T>) {
    forall xs': seq<T> | multiset(xs') == multiset(xs) ::
      FoldLeaf(m, key, Null, Flat(g, xs')) == FoldLeaf(m, key, Null, Flat(g, xs))
  }

  /** The order of the sources does not matter for the value if and only if the settings that can decide are
      all equal. */
  lemma OrderFreeIffAgree<T(!new)>(m: Policy, key: string, g: T -> seq<Json>, xs: seq<T>)
    requires Foldable(m, key, Flat(g, xs))
    ensures OrderFree(m, key, g, xs) <==> Agree(m, key, SetValues(Settings(m, key, g, xs)))
  {
    var f := (v: Json) => v;
    OrderFreeIffAgreeUnder(m, key, g, xs, f);
    SeenAsItIs(m, key, g, xs, f);
  }

  lemma SeenAsItIs<T(!new)>(m: Policy, key: string, g: T -> seq<Json>, xs: seq<T>, f: Json -> Json)
    requires forall v :: f(v) == v
    ensures OrderFree(m, key, g, xs) <==> OrderFreeUnder(m, key, g, xs, f)
    ensures forall vs :: Agree(m, key, vs) <==> AgreeUnder(m, key, vs, f)
  {
    forall vs ensures Agree(m, key, vs) <==> AgreeUnder(m, key, vs, f) {
      assert forall v, w :: f(v) == f(w) <==> v == w;
    }
  }

  lemma SameDeciding(m: Policy, key: string, vs: seq<Json>, vs': seq<Json>)
    requires forall v :: v in vs <==> v in vs'
    ensures vs == [] <==> vs' == []
    ensures forall v :: Decides(m, key, v, vs) <==> Decides(m, key, v, vs')
  {
    if vs != [] { assert vs[0] in vs'; }
    if vs' != [] { assert vs'[0] in vs; }
  }

  /** The leaves one CR sets for a custom resource, entry by entry. */
  function CrSource(ctx: Context, name: string, cr: string, p: seq<Step>): CrConfig -> seq<Json> {
    (c: CrConfig) => CrLeaves(ctx, c.services, name, cr, p)
  }

  lemma {:induction false} LeavesByCr(ctx: Context, crs: seq<CrConfig>, name: string, cr: string, p: seq<Step>)
    ensures CrLeaves(ctx, Flatten(crs), name, cr, p) == Flat(CrSource(ctx, name, cr, p), crs)
  {
    if crs != [] {
      LeavesByCr(ctx, crs[1..], name, cr, p);
      LeavesAppend(ctx, crs[0].services, Flatten(crs[1..]), name, cr, p);
    }
  }

  lemma {:induction false} LeavesAppend(ctx: Context, a: seq<Service>, b: seq<Service>, name: string, cr: string,
                                        p: seq<Step>)
    ensures CrLeaves(ctx, a + b, name, cr, p) == CrLeaves(ctx, a, name, cr, p) + CrLeaves(ctx, b, name, cr, p)
  {
    if a == [] {
      assert a + b == b;
    } else {
      HeadOfConcat(a, b);
      LeavesAppend(ctx, a[1..], b, name, cr, p);
      Associate([Find(Obj(CrOf(ctx, a[0], name, cr)), p)], CrLeaves(ctx, a[1..], name, cr, p),
                CrLeaves(ctx, b, name, cr, p));
    }
  }

  /** The leaf at `p` of a custom resource in the summary of the CRs. */
  function SummaryLeafAt(ctx: Context, crs: seq<CrConfig>, name: string, cr: string, p: seq<Step>): Json {
    Find(Obj(CrAt(Summarize(ctx, [], crs), name, cr)), p)
  }

  /** What each CR on its own sets at the leaf; null where it says nothing. */
  function CrSettings(ctx: Context, crs: seq<CrConfig>, name: string, cr: string, p: seq<Step>): seq<Json> {
    Settings(PolicyFor(ctx, name, cr), LeafKey("", p), CrSource(ctx, name, cr, p), crs)
  }

  /** Every order of the CRs gives the same leaf. */
  ghost predicate LeafOrderFree(ctx: Context, crs: seq<CrConfig>, name: string, cr: string, p: seq<Step>) {
    forall crs': seq<CrConfig> | multiset(crs') == multiset(crs) ::
      SummaryLeafAt(ctx, crs', name, cr, p) == SummaryLeafAt(ctx, crs, name, cr, p)
  }

  lemma SummaryLeafFold(ctx: Context, crs: seq<CrConfig>, name: string, cr: string, p: seq<Step>)
    requires p != [] && p[0].Key? && CrOnPath(ctx, Flatten(crs), name, cr, p)
    ensures SummaryLeafAt(ctx, crs, name, cr, p) ==
            FoldLeaf(PolicyFor(ctx, name, cr), LeafKey("", p), Null, Flat(CrSource(ctx, name, cr, p), crs))
    ensures AllScalars(Flat(CrSource(ctx, name, cr, p), crs))
  {
    EmptyOnPath(p);
    SummaryIsFold(ctx, [], crs);
    FoldAtCr(ctx, [], Flatten(crs), name, cr, p);
    LeavesByCr(ctx, crs, name, cr, p);
    CrLeavesAreScalar(ctx, Flatten(crs), name, cr, p);
  }

  /** The leaf in the summary is the last of the settings that decide: the last one set where nothing is
      compared, the last of the largest ones at a size. */
  lemma SummaryLeafIsLastDeciding(ctx: Context, crs: seq<CrConfig>, name: string, cr: string, p: seq<Step>)
    requires p != [] && p[0].Key? && CrOnPath(ctx, Flatten(crs), name, cr, p)
    requires Compares(PolicyFor(ctx, name, cr), LeafKey("", p)) ==>
             AllOrdered(ctx.q, SetValues(CrLeaves(ctx, Flatten(crs), name, cr, p)))
    ensures var r, vs := SummaryLeafAt(ctx, crs, name, cr, p), SetValues(CrSettings(ctx, crs, name, cr, p));
            if vs == [] then r.Null? else LastDeciding(PolicyFor(ctx, name, cr), LeafKey("", p), r, vs)
  {
    SummaryLeafFold(ctx, crs, name, cr, p);
    LeavesByCr(ctx, crs, name, cr, p);
    ValueOfSources(PolicyFor(ctx, name, cr), LeafKey("", p), CrSource(ctx, name, cr, p), crs);
  }

  /** The random order in which the CRs are folded does not show in the value of a leaf if and only if the
      settings that decide are equal: all of them where nothing is compared, the largest ones at a size. */
  lemma LeafOrderFreeIffAgree(ctx: Context, crs: seq<CrConfig>, name: string, cr: string, p: seq<Step>)
    requires p != [] && p[0].Key? && CrOnPath(ctx, Flatten(crs), name, cr, p)
    requires Compares(PolicyFor(ctx, name, cr), LeafKey("", p)) ==>
             AllOrdered(ctx.q, SetValues(CrLeaves(ctx, Flatten(crs), name, cr, p)))
    ensures LeafOrderFree(ctx, crs, name, cr, p) <==>
            Agree(PolicyFor(ctx, name, cr), LeafKey("", p), SetValues(CrSettings(ctx, crs, name, cr, p)))
  {
    var m, key, g := PolicyFor(ctx, name, cr), LeafKey("", p), CrSource(ctx, name, cr, p);
    SummaryLeafFold(ctx, crs, name, cr, p);
    LeavesByCr(ctx, crs, name, cr, p);
    forall crs': seq<CrConfig> | multiset(crs') == multiset(crs)
      ensures SummaryLeafAt(ctx, crs', name, cr, p) == FoldLeaf(m, key, Null, Flat(g, crs'))
    {
      SameEntries(crs, crs');
      SummaryLeafFold(ctx, crs', name, cr, p);
    }
    OrderFreeIffAgree(m, key, g, crs);
  }

  /** Where nothing is compared: the order does not matter if and only if all CRs that set the leaf set it
      alike. */
  lemma {:induction false} UncomparedOrderFree(ctx: Context, crs: seq<CrConfig>, name: string, cr: string, p: seq<Step>)
    requires p != [] && p[0].Key? && CrOnPath(ctx, Flatten(crs), name, cr, p)
    requires !Compares(PolicyFor(ctx, name, cr), LeafKey("", p))
    ensures var vs := SetValues(CrSettings(ctx, crs, name, cr, p));
            && (vs != [] ==> SummaryLeafAt(ctx, crs, name, cr, p) == vs[|vs| - 1])
            && (LeafOrderFree(ctx, crs, name, cr, p) <==> forall v, w | v in vs && w in vs :: v == w)
  {
    var m, key, vs := PolicyFor(ctx, name, cr), LeafKey("", p), SetValues(CrSettings(ctx, crs, name, cr, p));
    SummaryLeafIsLastDeciding(ctx, crs, name, cr, p);
    LeafOrderFreeIffAgree(ctx, crs, name, cr, p);
    AllDecide(m, key, vs);
    if vs != [] {
      LastOfAll(m, key, SummaryLeafAt(ctx, crs, name, cr, p), vs);
    }
  }

  lemma AllDecide(m: Policy, key: string, vs: seq<Json>)
    requires !Compares(m, key)
    ensures Agree(m, key, vs) <==> forall v, w | v in vs && w in vs :: v == w
  {
    assert forall v | v in vs :: Decides(m, key, v, vs);
  }

  lemma LastOfAll(m: Policy, key: string, r: Json, vs: seq<Json>)
    requires !Compares(m, key) && vs != [] && LastDeciding(m, key, r, vs)
    ensures r == vs[|vs| - 1]
  {
    assert Decides(m, key, vs[|vs| - 1], vs);
  }

  /** One CR that sets one key of a custom resource. */
  function LeafCr(key: string, text: string): CrConfig {
    CrConfig([Service("zen", Some(map["zenService" := Obj(map[key := Str(text)])]), None, map[])], map[])
  }

  /** Two CRs that disagree where nothing is compared: whichever is read last wins. */
  lemma DisagreeingCrs(ctx: Context, key: string, x: string, y: string)
    requires RuleFor(ctx.rules, "zen", "zenService").Null? && x != y
    ensures !LeafOrderFree(ctx, [LeafCr(key, x), LeafCr(key, y)], "zen", "zenService", [Key(key)])
  {
    TwoLeafCrs(ctx, key, x, y);
    UncomparedOrderFree(ctx, [LeafCr(key, x), LeafCr(key, y)], "zen", "zenService", [Key(key)]);
    assert Str(x) in [Str(x), Str(y)] && Str(y) in [Str(x), Str(y)];
  }

  lemma LeafCrSets(ctx: Context, key: string, text: string)
    requires !External(ctx, "zen") || RuleFor(ctx.rules, "zen", "zenService").Null?
    ensures CrOf(ctx, LeafCr(key, text).services[0], "zen", "zenService") == map[key := Str(text)]
    ensures OnPath(Obj(CrOf(ctx, LeafCr(key, text).services[0], "zen", "zenService")), [Key(key)])
    ensures CrLeaves(ctx, LeafCr(key, text).services, "zen", "zenService", [Key(key)]) == [Str(text)]
    ensures FoldLeaf(PolicyFor(ctx, "zen", "zenService"), key, Null,
                     CrLeaves(ctx, LeafCr(key, text).services, "zen", "zenService", [Key(key)])) == Str(text)
  {
    var op, p := LeafCr(key, text).services[0], [Key(key)];
    assert p[1..] == [];
    var t := op.spec.value["zenService"];
    if External(ctx, "zen") {
      SameFields(Reset(t, map[]).fields, t.fields);
    }
    assert CrOf(ctx, op, "zen", "zenService") == map[key := Str(text)];
    assert Find(Obj(map[key := Str(text)]), p) == Find(Str(text), p[1..]) == Str(text);
    var ys := CrLeaves(ctx, LeafCr(key, text).services, "zen", "zenService", p);
    assert ys == [Str(text)];
    assert ys[1..] == [];
    MergeNull(PolicyFor(ctx, "zen", "zenService"), key, Str(text));
  }

  /** What two such CRs set. */
  lemma TwoLeafCrs(ctx: Context, key: string, x: string, y: string)
    requires !External(ctx, "zen") || RuleFor(ctx.rules, "zen", "zenService").Null?
    ensures var crs, p := [LeafCr(key, x), LeafCr(key, y)], [Key(key)];
            && Flatten(crs) == LeafCr(key, x).services + LeafCr(key, y).services
            && CrOnPath(ctx, Flatten(crs), "zen", "zenService", p) && LeafKey("", p) == key
            && SetValues(CrLeaves(ctx, Flatten(crs), "zen", "zenService", p)) == [Str(x), Str(y)]
            && SetValues(CrSettings(ctx, crs, "zen", "zenService", p)) == [Str(x), Str(y)]
  {
    var crs, p := [LeafCr(key, x), LeafCr(key, y)], [Key(key)];
    LeafCrSets(ctx, key, x);
    LeafCrSets(ctx, key, y);
    assert p[1..] == [];
    FlattenTwo(LeafCr(key, x), LeafCr(key, y));
    forall op | op in Flatten(crs) ensures OnPath(Obj(CrOf(ctx, op, "zen", "zenService")), p) {
      assert op == LeafCr(key, x).services[0] || op == LeafCr(key, y).services[0];
    }
    LeavesAppend(ctx, LeafCr(key, x).services, LeafCr(key, y).services, "zen", "zenService", p);
    assert CrLeaves(ctx, Flatten(crs), "zen", "zenService", p) == [Str(x), Str(y)];
    var settings := CrSettings(ctx, crs, "zen", "zenService", p);
    var m, g := PolicyFor(ctx, "zen", "zenService"), CrSource(ctx, "zen", "zenService", p);
    assert LeafKey("", p) == LeafKey(key, p[1..]) == key;
    assert settings[0] == FoldLeaf(m, key, Null, g(crs[0])) == Str(x);
    assert settings[1] == FoldLeaf(m, key, Null, g(crs[1])) == Str(y);
    assert settings == [Str(x), Str(y)];
    BothSet(Str(x), Str(y));
  }

  lemma FlattenTwo(c: CrConfig, d: CrConfig)
    ensures Flatten([c, d]) == c.services + d.services
  {
    assert [c, d][1..] == [d] && [d][1..] == [];
    assert Flatten([d]) == d.services + [] == d.services;
  }

  lemma BothSet(v: Json, w: Json)
    requires !v.Null? && !w.Null?
    ensures SetValues([v, w]) == [v, w]
  {
    assert [v, w][1..] == [w] && [w][1..] == [];
    assert SetValues([w]) == [w] + [];
  }

  /** Settings without an order: text that does not parse, next to profile names. The largest profile is set and
      lost, since each comparison takes the later setting where it finds no order. */
  lemma MixedScales(q: Quantities)
    requires q.parse("x").None?
    ensures FoldLeaf(LargestWins(q), "profile", Null, [Str("large"), Str("x"), Str("small")]) == Str("small")
    ensures FoldLeaf(LargestWins(q), "profile", Null, [Str("x"), Str("small"), Str("large")]) == Str("large")
    ensures !AllOrdered(q, [Str("large"), Str("x"), Str("small")])
  {
    var l, x, s := Str("large"), Str("x"), Str("small");
    assert FoldLeaf(LargestWins(q), "profile", s, []) == s;
    assert [l, x, s][1..] == [x, s] && [x, s][1..] == [s] && [s][1..] == [];
    assert [x, s, l][1..] == [s, l] && [s, l][1..] == [l] && [l][1..] == [];
    assert l in [l, x, s] && x in [l, x, s];
  }

  /** The leaves one CR sets for a resource. */
  function ResourceSource(name: string, id: Identity, opconNs: string, p: seq<Step>): CrConfig -> seq<Json> {
    (c: CrConfig) => ResourceLeaves(c.services, name, id, opconNs, p)
  }

  lemma {:induction false} ResourceLeavesByCr(crs: seq<CrConfig>, name: string, id: Identity, opconNs: string,
                                              p: seq<Step>)
    ensures ResourceLeaves(Flatten(crs), name, id, opconNs, p) == Flat(ResourceSource(name, id, opconNs, p), crs)
  {
    if crs != [] {
      ResourceLeavesByCr(crs[1..], name, id, opconNs, p);
      ResourceLeavesAppend(crs[0].services, Flatten(crs[1..]), name, id, opconNs, p);
    }
  }

  lemma {:induction false} ResourceLeavesAppend(a: seq<Service>, b: seq<Service>, name: string, id: Identity,
                                                opconNs: string, p: seq<Step>)
    ensures ResourceLeaves(a + b, name, id, opconNs, p) ==
            ResourceLeaves(a, name, id, opconNs, p) + ResourceLeaves(b, name, id, opconNs, p)
  {
    if a == [] {
      assert a + b == b;
    } else {
      HeadOfConcat(a, b);
      ResourceLeavesAppend(a[1..], b, name, id, opconNs, p);
      Associate([Find(ResourceAt(ResourcesOf(a[0], name), id, opconNs), p)],
                ResourceLeaves(a[1..], name, id, opconNs, p),
                ResourceLeaves(b, name, id, opconNs, p));
    }
  }

  /** The leaf at `p` of a resource in the summary of the CRs. */
  function SummaryResourceLeaf(ctx: Context, crs: seq<CrConfig>, name: string, id: Identity, p: seq<Step>): Json {
    Find(ResourceAt(ResourcesAt(Summarize(ctx, [], crs), name), id, ctx.opconNs), p)
  }

  lemma ResourceLeafFold(ctx: Context, crs: seq<CrConfig>, name: string, id: Identity, p: seq<Step>)
    requires Untouched(p, ControllerOf(ctx.controllers, name)) &&
             ResourcesOnPath(Flatten(crs), name, id, ctx.opconNs, p)
    ensures SummaryResourceLeaf(ctx, crs, name, id, p) ==
            FoldLeaf(LargestWins(ctx.q), LeafKey("", p), Null, Flat(ResourceSource(name, id, ctx.opconNs, p), crs))
    ensures AllScalars(Flat(ResourceSource(name, id, ctx.opconNs, p), crs))
  {
    FindNull(p);
    SummaryIsFold(ctx, [], crs);
    FoldAtResource(ctx, [], Flatten(crs), name, id, p);
    ResourceLeavesByCr(crs, name, id, ctx.opconNs, p);
    ResourceLeavesAreScalar(Flatten(crs), name, id, ctx.opconNs, p);
  }

  /** The same equivalence for the resources of a service. */
  lemma ResourceLeafOrderFree(ctx: Context, crs: seq<CrConfig>, name: string, id: Identity, p: seq<Step>)
    requires Untouched(p, ControllerOf(ctx.controllers, name)) &&
             ResourcesOnPath(Flatten(crs), name, id, ctx.opconNs, p)
    requires LeafKey("", p) in COMPARABLE_KEYS ==>
             AllOrdered(ctx.q, SetValues(ResourceLeaves(Flatten(crs), name, id, ctx.opconNs, p)))
    ensures var m, key := LargestWins(ctx.q), LeafKey("", p);
            (forall crs': seq<CrConfig> | multiset(crs') == multiset(crs) ::
               SummaryResourceLeaf(ctx, crs', name, id, p) == SummaryResourceLeaf(ctx, crs, name, id, p)) <==>
            Agree(m, key, SetValues(Settings(m, key, ResourceSource(name, id, ctx.opconNs, p), crs)))
  {
    var m, key, g := LargestWins(ctx.q), LeafKey("", p), ResourceSource(name, id, ctx.opconNs, p);
    ResourceLeafFold(ctx, crs, name, id, p);
    ResourceLeavesByCr(crs, name, id, ctx.opconNs, p);
    forall crs': seq<CrConfig> | multiset(crs') == multiset(crs)
      ensures SummaryResourceLeaf(ctx, crs', name, id, p) == FoldLeaf(m, key, Null, Flat(g, crs'))
    {
      SameEntries(crs, crs');
      ResourceLeafFold(ctx, crs', name, id, p);
    }
    OrderFreeIffAgree(m, key, g, crs);
  }
}
