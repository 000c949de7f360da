/** Merging layer upon layer: how the layers are grouped does not matter. */
module Associativity {
  import opened Trees
  import opened ResourceComparison
  import opened Merging

  /** Two values of one shape: null fits everything, maps agree on the keys they share, lists are
      both lists of maps or both without maps, and leaves that are compared have an order. */
  ghost predicate Compatible(m: Policy, key: string, x: Json, y: Json)
    decreases x, 1
  {
    if x.Null? || y.Null? then true
    else if x.Obj? then
      y.Obj? && forall k | k in x.fields && k in y.fields :: Compatible(m, k, x.fields[k], y.fields[k])
    else if x.List? then
      y.List? && ((NoMaps(x.items) && NoMaps(y.items)) ||
                  (AllMaps(x.items) && AllMaps(y.items) && CompatibleItems(m, x.items, y.items)))
    else
      y.Scalar() && (Compares(m, key) ==> Ordered(m.q, x, y))
  }

  ghost predicate CompatibleItems(m: Policy, xs: seq<Json>, ys: seq<Json>)
    decreases xs
  {
    xs == [] || ys == [] || (Compatible(m, "", xs[0], ys[0]) && CompatibleItems(m, xs[1..], ys[1..]))
  }

  lemma LargerIsAssociative(q: Quantities, a: Json, b: Json, c: Json)
    requires Ordered(q, a, b) && Ordered(q, b, c) && Ordered(q, a, c)
    ensures Larger(q, a, Larger(q, b, c)) == Larger(q, Larger(q, a, b), c)
  {
    LargerOutranks(q, a, b);
    LargerOutranks(q, b, c);
    LargerOutranks(q, a, c);
  }

  lemma LeafAssociative(m: Policy, key: string, a: Json, b: Json, c: Json)
    requires a.Scalar() && b.Scalar() && c.Scalar()
    requires Compatible(m, key, a, b) && Compatible(m, key, b, c) && Compatible(m, key, a, c)
    ensures MergeValue(m, key, a, MergeValue(m, key, b, c)) == MergeValue(m, key, MergeValue(m, key, a, b), c)
  {
    if Compares(m, key) {
      LargerSelects(m.q, a, b);
      LargerSelects(m.q, b, c);
      LargerSelects(m.q, a, c);
      if !a.Null? && !b.Null? && !c.Null? {
        LargerIsAssociative(m.q, a, b, c);
      }
    }
  }

  lemma {:induction false} ListAssociative(m: Policy, key: string, a: Json, b: Json, c: Json)
    requires a.List? && b.List? && c.List?
    requires Compatible(m, key, a, b) && Compatible(m, key, b, c) && Compatible(m, key, a, c)
    ensures MergeItems(m, a.items, MergeItems(m, b.items, c.items)) ==
            MergeItems(m, MergeItems(m, a.items, b.items), c.items)
    decreases a, 0
  {
    if NoMaps(a.items) && NoMaps(b.items) && NoMaps(c.items) {
      MergeNoMaps(m, a.items, b.items);
      MergeNoMaps(m, b.items, c.items);
      MergeNoMaps(m, a.items, c.items);
    } else {
      assert AllMaps(a.items) && AllMaps(b.items) && AllMaps(c.items);
      MergeItemsAssociative(m, a.items, b.items, c.items);
    }
  }

  /** Three pairwise compatible layers. */
  lemma {:induction false} MergeValueAssociative(m: Policy, key: string, a: Json, b: Json, c: Json)
    requires Compatible(m, key, a, b) && Compatible(m, key, b, c) && Compatible(m, key, a, c)
    ensures MergeValue(m, key, a, MergeValue(m, key, b, c)) == MergeValue(m, key, MergeValue(m, key, a, b), c)
    decreases a, 2
  {
    if a.Scalar() && b.Scalar() && c.Scalar() {
      LeafAssociative(m, key, a, b, c);
    } else if a.Null? || b.Null? || c.Null? {
      if Compares(m, key) {
        LargerSelects(m.q, Null, c);
      }
    } else if a.Obj? {
      MergeObjAssociative(m, key, a, b, c);
    } else {
      ListAssociative(m, key, a, b, c);
    }
  }

  /** Three maps, seen at one key. */
  lemma {:induction false} ObjAssociativeAt(m: Policy, key: string, a: Json, b: Json, c: Json, k: string)
    requires a.Obj? && b.Obj? && c.Obj?
    requires Compatible(m, key, a, b) && Compatible(m, key, b, c) && Compatible(m, key, a, c)
    ensures Get(MergeObj(m, a, MergeObj(m, b, c)).fields, k) == Get(MergeObj(m, MergeObj(m, a, b), c).fields, k)
    decreases a, 0
  {
    var x, y, z := Get(a.fields, k), Get(b.fields, k), Get(c.fields, k);
    GetMerged(m, a, MergeObj(m, b, c), k);
    GetMerged(m, b, c, k);
    GetMerged(m, MergeObj(m, a, b), c, k);
    GetMerged(m, a, b, k);
    if k in a.fields {
      MergeValueAssociative(m, k, x, y, z);
    } else if Compares(m, k) {
      LargerSelects(m.q, x, y);
      LargerSelects(m.q, x, MergeValue(m, k, y, z));
    }
  }

  /** A merge of two maps sets what either of them sets. */
  lemma MergedIsSet(m: Policy, a: Json, b: Json, k: string)
    requires a.Obj? && b.Obj?
    ensures Get(MergeObj(m, a, b).fields, k) != Null <==> Get(a.fields, k) != Null || Get(b.fields, k) != Null
  {
    GetMerged(m, a, b, k);
    if Compares(m, k) { LargerSelects(m.q, Get(a.fields, k), Get(b.fields, k)); }
  }

  lemma {:induction false} MergeObjAssociative(m: Policy, key: string, a: Json, b: Json, c: Json)
    requires a.Obj? && b.Obj? && c.Obj?
    requires Compatible(m, key, a, b) && Compatible(m, key, b, c) && Compatible(m, key, a, c)
    ensures MergeObj(m, a, MergeObj(m, b, c)) == MergeObj(m, MergeObj(m, a, b), c)
    decreases a, 1
  {
    var l := MergeObj(m, a, MergeObj(m, b, c)).fields;
    var r := MergeObj(m, MergeObj(m, a, b), c).fields;
    forall k: string
      ensures Get(MergeObj(m, a, b).fields, k) != Null <==> Get(a.fields, k) != Null || Get(b.fields, k) != Null
    {
      MergedIsSet(m, a, b, k);
    }
    assert l.Keys == r.Keys;
    forall k | k in l.Keys ensures Get(l, k) == Get(r, k) {
      ObjAssociativeAt(m, key, a, b, c, k);
    }
    SameFields(l, r);
  }

  lemma MergeNoMaps(m: Policy, ds: seq<Json>, cs: seq<Json>)
    requires NoMaps(ds)
    ensures MergeItems(m, ds, cs) == cs
    decreases ds
  {
    if ds != [] && cs != [] {
      assert NoMaps(ds[1..]);
      assert !IsMap(ds[0]);
      MergeNoMaps(m, ds[1..], cs[1..]);
    } else if ds != [] {
      MapsOfProperties(ds);
    }
  }

  /** Lists of maps keep the longer length and stay lists of maps. */
  lemma {:induction false} MergeAllMaps(m: Policy, ds: seq<Json>, cs: seq<Json>)
    requires AllMaps(ds) && AllMaps(cs)
    ensures |MergeItems(m, ds, cs)| == if |ds| < |cs| then |cs| else |ds|
    ensures AllMaps(MergeItems(m, ds, cs))
    ensures forall i | 0 <= i < |MergeItems(m, ds, cs)| ::
      MergeItems(m, ds, cs)[i] == if i >= |cs| then ds[i] else if i >= |ds| then cs[i] else MergeObj(m, ds[i], cs[i])
    decreases ds
  {
    if ds != [] && cs != [] {
      assert IsMap(ds[0]) && IsMap(cs[0]);
      MergeAllMaps(m, ds[1..], cs[1..]);
    } else if ds != [] {
      MapsOfProperties(ds);
    }
  }

  lemma {:induction false} MergeItemsAssociative(m: Policy, xs: seq<Json>, ys: seq<Json>, zs: seq<Json>)
    requires AllMaps(xs) && AllMaps(ys) && AllMaps(zs)
    requires CompatibleItems(m, xs, ys) && CompatibleItems(m, ys, zs) && CompatibleItems(m, xs, zs)
    ensures MergeItems(m, xs, MergeItems(m, ys, zs)) == MergeItems(m, MergeItems(m, xs, ys), zs)
    decreases xs
  {
    MapsOfProperties(xs);
    MapsOfProperties(ys);
    MergeAllMaps(m, xs, ys);
    MapsOfProperties(MergeItems(m, xs, ys));
    if xs != [] && ys != [] && zs != [] {
      assert IsMap(xs[0]) && IsMap(ys[0]) && IsMap(zs[0]);
      assert AllMaps(xs[1..]) && AllMaps(ys[1..]) && AllMaps(zs[1..]);
      MergeObjAssociative(m, "", xs[0], ys[0], zs[0]);
      MergeItemsAssociative(m, xs[1..], ys[1..], zs[1..]);
    }
  }

  /** Under one key of three maps. */
  lemma KeyAssociative(m: Policy, a: Fields, b: Fields, c: Fields, k: string)
    requires Compatible(m, "", Obj(a), Obj(b)) && Compatible(m, "", Obj(b), Obj(c)) && Compatible(m, "", Obj(a), Obj(c))
    ensures MergeValue(m, k, Get(a, k), MergeValue(m, k, Get(b, k), Get(c, k)))
         == MergeValue(m, k, MergeValue(m, k, Get(a, k), Get(b, k)), Get(c, k))
  {
    MergeValueAssociative(m, k, Get(a, k), Get(b, k), Get(c, k));
  }

  /** A merge loses no set key. */
  lemma MergedSetKeys(m: Policy, d: Fields, c: Fields)
    ensures SetKeys(Merge(m, d, c)) == SetKeys(d) + SetKeys(c)
  {
    forall k: string
      ensures k in SetKeys(Merge(m, d, c)) <==> k in SetKeys(d) + SetKeys(c)
    {
      GetMerge(m, d, c, k);
      if Compares(m, k) {
        LargerSelects(m.q, Get(d, k), Get(c, k));
      }
    }
  }

  /** Both merges are associative on three pairwise compatible configurations, null entries
      included. */
  lemma MergeIsAssociative(m: Policy, a: Fields, b: Fields, c: Fields)
    requires Compatible(m, "", Obj(a), Obj(b)) && Compatible(m, "", Obj(b), Obj(c)) && Compatible(m, "", Obj(a), Obj(c))
    ensures Merge(m, a, Merge(m, b, c)) == Merge(m, Merge(m, a, b), c)
  {
    var l, r := Merge(m, a, Merge(m, b, c)), Merge(m, Merge(m, a, b), c);
    MergedSetKeys(m, a, b);
    assert l.Keys == r.Keys;
    forall k | k in l.Keys
      ensures Get(l, k) == Get(r, k)
    {
      GetMerge(m, a, Merge(m, b, c), k);
      GetMerge(m, b, c, k);
      GetMerge(m, Merge(m, a, b), c, k);
      GetMerge(m, a, b, k);
      KeyAssociative(m, a, b, c, k);
    }
    SameFields(l, r);
  }
}
