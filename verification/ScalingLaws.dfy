/** What scaling makes of a size: the extreme of everything that sets it. */
module ScalingLaws {
  import opened Trees
  import opened ResourceComparison
  import opened Merging
  import opened Paths
  import opened Shrinking
  import opened Services
  import opened OrderIndependence
  import opened CrSummaries
  import opened Scaling

  /** Below the root scaling takes a leaf over only into a map that is already there. */
  predicate HasPlace(d: Json, p: seq<Step>)
    decreases p
  {
    p == [] ||
    match p[0]
    case Key(k) => d.Obj? && HasPlace(Get(d.fields, k), p[1..])
    case Index(i) => d.List? && i < |d.items| && HasPlace(d.items[i], p[1..])
  }

  /** What a leaf holding `x` becomes when it is scaled with `y`; `place` tells whether a missing leaf can be
      taken over. */
  function PickLeaf(q: Quantities, e: Extreme, x: Json, y: Json, place: bool): Json {
    if x.Null? then (if place then y else Null) else if y.Null? then x else Pick(q, e, x, y)
  }

  /** At every leaf scaling picks from the two leaves, or takes over the only one. */
  lemma {:induction false} ShrunkAtLeaf(q: Quantities, e: Extreme, d: Json, c: Json, p: seq<Step>)
    requires OnPath(d, p) && OnPath(c, p)
    ensures OnPath(ShrinkValue(q, e, d, c), p)
    ensures Find(ShrinkValue(q, e, d, c), p) == PickLeaf(q, e, Find(d, p), Find(c, p), HasPlace(d, p))
    decreases p
  {
    FindNull(p);
    if p == [] {
      if !d.Null? && !c.Null? { PickSelects(q, e, d, c); }
    } else if !c.Null? && !d.Null? {
      FindNull(p[1..]);
      if p[0].Key? {
        var k := p[0].k;
        GetShrunk(q, e, d, c, k);
        ShrunkAtLeaf(q, e, Get(d.fields, k), Get(c.fields, k), p[1..]);
      } else {
        ShrunkAtItem(q, e, d, c, p);
      }
    } else if c.Null? {
      NoLeaf(d, p);
    }
  }

  lemma {:induction false} ShrunkAtItem(q: Quantities, e: Extreme, d: Json, c: Json, p: seq<Step>)
    requires OnPath(d, p) && OnPath(c, p) && p != [] && p[0].Index? && d.List? && c.List?
    ensures OnPath(List(ShrinkItems(q, e, d.items, c.items)), p)
    ensures Find(List(ShrinkItems(q, e, d.items, c.items)), p) == PickLeaf(q, e, Find(d, p), Find(c, p), HasPlace(d, p))
    decreases p, 0
  {
    var i, r := p[0].i, ShrinkItems(q, e, d.items, c.items);
    FindNull(p[1..]);
    forall j | 0 <= j < |r| ensures IsMap(r[j]) {
      assert IsMap(d.items[j]);
      ShrunkItem(q, e, d.items, c.items, j);
    }
    if i < |d.items| {
      ShrunkItem(q, e, d.items, c.items, i);
      assert IsMap(d.items[i]);
      if i < |c.items| {
        assert IsMap(c.items[i]);
        ShrunkAtLeaf(q, e, d.items[i], c.items[i], p[1..]);
      } else {
        NoLeaf(d.items[i], p[1..]);
      }
    }
  }

  /** With nothing to scale by, a leaf stays as it is. */
  lemma NoLeaf(d: Json, p: seq<Step>)
    requires OnPath(d, p)
    ensures forall q: Quantities, e: Extreme :: PickLeaf(q, e, Find(d, p), Null, HasPlace(d, p)) == Find(d, p)
  {
  }

  lemma {:induction false} ShrunkItem(q: Quantities, e: Extreme, ds: seq<Json>, cs: seq<Json>, i: nat)
    requires i < |ds|
    ensures ShrinkItems(q, e, ds, cs)[i] ==
            if i < |cs| && ds[i].Obj? && cs[i].Obj? then ShrinkObj(q, e, ds[i], cs[i]) else ds[i]
    decreases i
  {
    if i > 0 && cs != [] {
      ShrunkItem(q, e, ds[1..], cs[1..], i - 1);
    }
  }

  /** At the root a key the template lacks is taken over whole. */
  predicate HasPlaceIn(d: Fields, p: seq<Step>)
    requires p != []
  {
    p[0].Key? && (p[0].k !in d || HasPlace(d[p[0].k], p[1..]))
  }

  /** The law for whole configurations. */
  lemma ShrinkAtPath(q: Quantities, e: Extreme, d: Fields, c: Fields, p: seq<Step>)
    requires p != [] && OnPath(Obj(d), p) && OnPath(Obj(c), p)
    ensures OnPath(Obj(Shrink(q, e, d, c)), p)
    ensures Find(Obj(Shrink(q, e, d, c)), p) == PickLeaf(q, e, Find(Obj(d), p), Find(Obj(c), p), HasPlaceIn(d, p))
  {
    var k := p[0].k;
    FindNull(p[1..]);
    ShrunkAtLeaf(q, e, Get(d, k), Get(c, k), p[1..]);
    if k in d {
      assert Get(Shrink(q, e, d, c), k) == ShrinkValue(q, e, Get(d, k), Get(c, k));
    } else {
      assert Get(Shrink(q, e, d, c), k) == Get(c, k);
    }
  }

  /** `r` is one of the settings `vs`, and none of them is outranked by it. */
  ghost predicate IsSmallest(q: Quantities, r: Json, vs: seq<Json>) {
    r in vs && Rank(q, r).Some? && forall v | v in vs :: Rank(q, v).Some? && Rank(q, r).value.1 <= Rank(q, v).value.1
  }

  /** On one scale the leaf ends up at the larger, or the smaller, of the two. */
  lemma PickIsExtreme(q: Quantities, e: Extreme, x: Json, y: Json)
    requires SameScale(q, x, y)
    ensures if e.Max? then IsLargest(q, Pick(q, e, x, y), [x, y]) else IsSmallest(q, Pick(q, e, x, y), [x, y])
  {
    LargerIsMaximum(q, x, y);
  }

  /** `r` is the largest of the settings `vs`; null when there are none. */
  ghost predicate LargestOf(q: Quantities, r: Json, vs: seq<Json>) {
    if vs == [] then r.Null? else IsLargest(q, r, vs)
  }

  /** A custom resource of the summary has the shape of the path when all CRs have it. */
  lemma SummaryOnPath(ctx: Context, order: seq<CrConfig>, name: string, cr: string, p: seq<Step>)
    requires p != [] && p[0].Key? && CrOnPath(ctx, Flatten(order), name, cr, p)
    ensures CrAt(Summarize(ctx, [], order), name, cr) == AsMap(SummaryCr(Summarize(ctx, [], order), name, cr))
    ensures OnPath(Obj(AsMap(SummaryCr(Summarize(ctx, [], order), name, cr))), p)
  {
    EmptyOnPath(p);
    SummaryIsFold(ctx, [], order);
    FoldAtCr(ctx, [], Flatten(order), name, cr, p);
  }

  /** Settings with the same members have the same largest ones. */
  lemma SameLargest(q: Quantities, r: Json, vs: seq<Json>, vs': seq<Json>)
    requires forall v :: v in vs <==> v in vs'
    ensures LargestOf(q, r, vs) <==> LargestOf(q, r, vs')
    ensures OnOneScale(q, vs) <==> OnOneScale(q, vs')
  {
    assert vs != [] ==> vs[0] in vs';
    assert vs' != [] ==> vs'[0] in vs;
  }

  lemma SummaryLeaf(ctx: Context, crs: seq<CrConfig>, order: seq<CrConfig>, name: string, cr: string, p: seq<Step>)
    requires multiset(order) == multiset(crs) && !RuleFor(ctx.rules, name, cr).Null?
    requires p != [] && p[0].Key? && LeafKey("", p) in COMPARABLE_KEYS
    requires CrOnPath(ctx, Flatten(crs), name, cr, p)
    requires OnOneScale(ctx.q, SetValues(CrLeaves(ctx, Flatten(crs), name, cr, p)))
    ensures var summary := Obj(AsMap(SummaryCr(Summarize(ctx, [], order), name, cr)));
            OnPath(summary, p) && LargestOf(ctx.q, Find(summary, p),
                                            SetValues(CrLeaves(ctx, Flatten(crs), name, cr, p)))
  {
    var vs, vs' := SetValues(CrLeaves(ctx, Flatten(crs), name, cr, p)),
      SetValues(CrLeaves(ctx, Flatten(order), name, cr, p));
    SameEntries(crs, order);
    SummaryOnPath(ctx, order, name, cr, p);
    SameCrSettings(ctx, Flatten(crs), Flatten(order), name, cr, p);
    SameLargest(ctx.q, Find(Obj(CrAt(Summarize(ctx, [], order), name, cr)), p), vs, vs');
    SummaryOrderIrrelevant(ctx, order, order, name, cr, p);
  }

  /** From the CRs to the scaled service: scaling up leaves every size of a rule-covered custom resource at the
      largest of the service's own setting and all settings of all CRs, in whatever order they are summarised.
      Where the service has no place for the size, what the CRs set is left out. */
  lemma LargestOverAllCrs(ctx: Context, crs: seq<CrConfig>, order: seq<CrConfig>, name: string, cr: string, t: Fields,
                          p: seq<Step>)
    requires multiset(order) == multiset(crs) && !RuleFor(ctx.rules, name, cr).Null? && !External(ctx, name)
    requires p != [] && p[0].Key? && LeafKey("", p) in COMPARABLE_KEYS
    requires CrOnPath(ctx, Flatten(crs), name, cr, p) && OnPath(Obj(t), p)
    requires OnOneScale(ctx.q, SetValue(Find(Obj(t), p)) + SetValues(CrLeaves(ctx, Flatten(crs), name, cr, p)))
    ensures var scaled := Obj(ScaledCr(ctx, Max, name, cr, t, SummaryCr(Summarize(ctx, [], order), name, cr)));
            && OnPath(scaled, p)
            && LargestOf(ctx.q, Find(scaled, p), Contributing(ctx, crs, name, cr, t, p))
  {
    var vs := SetValues(CrLeaves(ctx, Flatten(crs), name, cr, p));
    var summary := SummaryCr(Summarize(ctx, [], order), name, cr);
    var x, y := Find(Obj(t), p), Find(Obj(AsMap(summary)), p);
    assert forall v | v in vs :: v in SetValue(x) + vs;
    SummaryLeaf(ctx, crs, order, name, cr, p);
    EmptyOnPath(p);
    ShrinkAtPath(ctx.q, Max, t, AsMap(summary), p);
    LargestOfAll(ctx.q, x, y, vs, HasPlaceIn(t, p));
    if summary.Null? {
      assert vs == [];
    }
  }

  /** The settings that reach a size: the service's own, and those of the CRs unless it has no place for them. */
  ghost function Contributing(ctx: Context, crs: seq<CrConfig>, name: string, cr: string, t: Fields,
                              p: seq<Step>): seq<Json>
    requires p != []
  {
    var own := Find(Obj(t), p);
    SetValue(own) + if own.Null? && !HasPlaceIn(t, p) then [] else SetValues(CrLeaves(ctx, Flatten(crs), name, cr, p))
  }

  lemma LargestOfAll(q: Quantities, x: Json, y: Json, vs: seq<Json>, place: bool)
    requires OnOneScale(q, SetValue(x) + vs) && LargestOf(q, y, vs)
    ensures LargestOf(q, PickLeaf(q, Max, x, y, place), SetValue(x) + if x.Null? && !place then [] else vs)
  {
    if x.Null? {
      assert [] + vs == vs;
    } else {
      var all := [x] + vs;
      assert forall v :: v in all <==> v == x || v in vs;
      assert SameScale(q, x, x);
      if vs != [] {
        assert SameScale(q, x, y);
        LargerIsMaximum(q, x, y);
      }
    }
  }
}
