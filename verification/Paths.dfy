/** What a merge does at one path of the tree. */
module Paths {
  import opened Trees
  import opened ResourceComparison
  import opened Merging
  import opened Associativity

  /** The key that decides how the leaf at `p` is merged. */
  function LeafKey(key: string, p: seq<Step>): string
    decreases p
  {
    if p == [] then key
    else LeafKey(if p[0].Key? then p[0].k else "", p[1..])
  }

  /** Merging and then following a path is following the path and then merging the two leaves. */
  lemma {:induction false} FindMerged(m: Policy, key: string, d: Json, c: Json, p: seq<Step>)
    requires OnPath(d, p) && OnPath(c, p)
    ensures OnPath(MergeValue(m, key, d, c), p)
    ensures Find(MergeValue(m, key, d, c), p) == MergeValue(m, LeafKey(key, p), Find(d, p), Find(c, p))
    decreases p
  {
    FindNull(p);
    if d.Null? || c.Null? {
      if Compares(m, key) { LargerSelects(m.q, d, c); }
      FindIsLeaf(d, p);
      FindIsLeaf(c, p);
      MergeNull(m, LeafKey(key, p), Find(d, p));
      MergeNull(m, LeafKey(key, p), Find(c, p));
    } else if p == [] {
      if Compares(m, key) { LargerSelects(m.q, d, c); }
    } else if p[0].Key? {
      var k := p[0].k;
      GetMerged(m, d, c, k);
      FindMerged(m, k, Get(d.fields, k), Get(c.fields, k), p[1..]);
    } else {
      FindMergedItem(m, d, c, p);
    }
  }

  lemma FindIsLeaf(t: Json, p: seq<Step>)
    requires OnPath(t, p)
    ensures Find(t, p).Scalar()
    decreases p
  {
    FindNull(p);
    if p != [] {
      FindNull(p[1..]);
      FindIsLeaf(match p[0]
                 case Key(k) => Field(t, k)
                 case Index(i) => if t.List? && i < |t.items| then t.items[i] else Null, p[1..]);
    }
  }

  lemma MergeNull(m: Policy, key: string, v: Json)
    requires v.Scalar()
    ensures MergeValue(m, key, Null, v) == v == MergeValue(m, key, v, Null)
  {
    if Compares(m, key) { LargerSelects(m.q, Null, v); }
  }

  lemma {:induction false} FindMergedItem(m: Policy, d: Json, c: Json, p: seq<Step>)
    requires p != [] && p[0].Index? && d.List? && c.List?
    requires OnPath(d, p) && OnPath(c, p)
    ensures OnPath(List(MergeItems(m, d.items, c.items)), p)
    ensures Find(List(MergeItems(m, d.items, c.items)), p) == MergeValue(m, LeafKey("", p[1..]), Find(d, p), Find(c, p))
    decreases p, 0
  {
    var i := p[0].i;
    var x := if i < |d.items| then d.items[i] else Null;
    var y := if i < |c.items| then c.items[i] else Null;
    MergeAllMaps(m, d.items, c.items);
    FindMerged(m, "", x, y, p[1..]);
    if i < |d.items| { assert IsMap(d.items[i]); }
    if i < |c.items| { assert IsMap(c.items[i]); }
    var r := MergeItems(m, d.items, c.items);
    assert (if i < |r| then r[i] else Null) == MergeValue(m, "", x, y);
  }

  predicate IsSet(v: Json) {
    v.Scalar() && !v.Null?
  }

  /** No key on the way to `p` is one whose values are compared. */
  ghost predicate NeverCompares(m: Policy, key: string, p: seq<Step>) {
    !Compares(m, key) && forall s | s in p && s.Key? :: !Compares(m, s.k)
  }

  /** Every setting of the change survives at its own path, whatever the default looks like, when
      nothing is compared on the way. `UserWins` never compares. */
  lemma {:induction false} ChangedLeafSurvives(m: Policy, key: string, d: Json, c: Json, p: seq<Step>)
    requires IsSet(Find(c, p))
    requires NeverCompares(m, key, p)
    ensures Find(MergeValue(m, key, d, c), p) == Find(c, p)
    decreases p
  {
    FindNull(p);
    if p == [] {
    } else if p[0].Key? {
      var k := p[0].k;
      FindNull(p[1..]);
      if d.Obj? && c.Obj? {
        GetMerged(m, d, c, k);
        ChangedLeafSurvives(m, k, Get(d.fields, k), Get(c.fields, k), p[1..]);
      }
    } else {
      var i := p[0].i;
      FindNull(p[1..]);
      if d.List? && c.List? {
        MergedItem(m, d.items, c.items, i);
        if i < |d.items| && d.items[i].Obj? && c.items[i].Obj? {
          ChangedLeafSurvives(m, "", d.items[i], c.items[i], p[1..]);
        }
      }
    }
  }

  /** The change says nothing at `p`: it is null there or at a prefix of `p`, reached through maps and list
      positions that both trees have, or past the end of its list, where the default goes on with maps. */
  predicate LeftOpen(d: Json, c: Json, p: seq<Step>)
    decreases p
  {
    c.Null? ||
    (p != [] &&
     match p[0]
     case Key(k) => d.Obj? && c.Obj? && LeftOpen(Get(d.fields, k), Get(c.fields, k), p[1..])
     case Index(i) =>
       d.List? && c.List? &&
       if i < |c.items| then i < |d.items| && d.items[i].Obj? && c.items[i].Obj? &&
         LeftOpen(d.items[i], c.items[i], p[1..])
       else |c.items| < |d.items| ==> AllMaps(d.items[|c.items|..]))
  }

  /** Every default the change leaves open is filled in, whatever it is: a leaf, a list of any elements, or a
      whole map. */
  lemma {:induction false} GapFilled(m: Policy, key: string, d: Json, c: Json, p: seq<Step>)
    requires LeftOpen(d, c, p)
    ensures Find(MergeValue(m, key, d, c), p) == Find(d, p)
    decreases p
  {
    if !c.Null? {
      if p[0].Key? {
        GetMerged(m, d, c, p[0].k);
        GapFilled(m, p[0].k, Get(d.fields, p[0].k), Get(c.fields, p[0].k), p[1..]);
      } else if p[0].i < |c.items| {
        MergedItem(m, d.items, c.items, p[0].i);
        GapFilled(m, "", d.items[p[0].i], c.items[p[0].i], p[1..]);
      } else {
        AppendedItem(m, d.items, c.items, p[0].i);
      }
    }
  }

  /** Past the end of the change, the maps of the default keep their positions. */
  lemma AppendedItem(m: Policy, ds: seq<Json>, cs: seq<Json>, i: nat)
    requires |cs| <= i && (|cs| < |ds| ==> AllMaps(ds[|cs|..]))
    ensures var r := MergeItems(m, ds, cs); (i < |r| <==> i < |ds|) && (i < |ds| ==> r[i] == ds[i])
  {
    var r := MergeItems(m, ds, cs);
    MergedTail(m, ds, cs);
    if |cs| < |ds| {
      MapsOfProperties(ds[|cs|..]);
    }
    assert r == r[..|cs|] + r[|cs|..];
    if i < |ds| {
      assert r[|cs|..][i - |cs|] == ds[|cs|..][i - |cs|];
    }
  }

  lemma DefaultFillsGap(m: Policy, d: Fields, c: Fields, p: seq<Step>)
    requires p != [] && LeftOpen(Obj(d), Obj(c), p)
    ensures Find(Obj(Merge(m, d, c)), p) == Find(Obj(d), p)
  {
    if p[0].Key? {
      var k := p[0].k;
      GetMerge(m, d, c, k);
      GapFilled(m, k, Get(d, k), Get(c, k), p[1..]);
    }
  }

  /** The path law for whole configurations. */
  lemma MergeAtPath(m: Policy, d: Fields, c: Fields, p: seq<Step>)
    requires p != [] && OnPath(Obj(d), p) && OnPath(Obj(c), p)
    ensures OnPath(Obj(Merge(m, d, c)), p)
    ensures Find(Obj(Merge(m, d, c)), p) == MergeValue(m, LeafKey("", p), Find(Obj(d), p), Find(Obj(c), p))
  {
    var k := p[0].k;
    GetMerge(m, d, c, k);
    FindMerged(m, k, Get(d, k), Get(c, k), p[1..]);
  }

  /** `r` is one of the settings `vs`, and none of them outranks it. */
  ghost predicate IsLargest(q: Quantities, r: Json, vs: seq<Json>) {
    r in vs && Rank(q, r).Some? && forall v | v in vs :: Rank(q, v).Some? && Rank(q, v).value.1 <= Rank(q, r).value.1
  }

  /** Merging a comparable setting dominates both sides. */
  lemma LargestDominates(q: Quantities, d: Fields, c: Fields, p: seq<Step>)
    requires p != [] && OnPath(Obj(d), p) && OnPath(Obj(c), p) && LeafKey("", p) in COMPARABLE_KEYS
    requires SameScale(q, Find(Obj(d), p), Find(Obj(c), p))
    ensures IsLargest(q, Find(Obj(Merge(LargestWins(q), d, c)), p), [Find(Obj(d), p), Find(Obj(c), p)])
  {
    MergeAtPath(LargestWins(q), d, c, p);
    FindIsLeaf(Obj(d), p);
    FindIsLeaf(Obj(c), p);
    LargerIsMaximum(q, Find(Obj(d), p), Find(Obj(c), p));
  }

  /** Of two database sizes at a comparable key the merge keeps the one that is the larger quantity. */
  lemma LargerDatabaseSizeWins(q: Quantities, d: Fields, c: Fields, p: seq<Step>, a: DatabaseSize, b: DatabaseSize)
    requires p != [] && OnPath(Obj(d), p) && OnPath(Obj(c), p) && LeafKey("", p) in COMPARABLE_KEYS
    requires Find(Obj(d), p) == Str(a.Written()) && Find(Obj(c), p) == Str(b.Written())
    requires a.text != "" && b.text != "" && q.parse(a.Quantity()).Some? && q.parse(b.Quantity()).Some?
    ensures Find(Obj(Merge(LargestWins(q), d, c)), p) ==
            if q.parse(a.Quantity()).value > q.parse(b.Quantity()).value then Str(a.Written()) else Str(b.Written())
  {
    MergeAtPath(LargestWins(q), d, c, p);
    LargerDatabaseSize(q, a, b);
  }
}
