/** Merging the same default in again: exactly when it changes nothing. */
module Idempotence {
  import opened Trees
  import opened ResourceComparison
  import opened Merging

  /** No map comes after an element that is not a map. */
  predicate MapsFirst(items: seq<Json>) {
    items == [] || if IsMap(items[0]) then MapsFirst(items[1..]) else NoMaps(items)
  }

  /** Wherever a default list is longer than the list it is merged under, the part beyond starts
      with all its maps. Lists of maps only and lists without maps qualify. */
  predicate Settled(d: Json, c: Json) {
    match d
    case Obj(f) => c.Obj? ==> forall k | k in f && k in c.fields :: Settled(f[k], c.fields[k])
    case List(items) => c.List? ==> SettledItems(items, c.items)
    case _ => true
  }

  predicate SettledItems(ds: seq<Json>, cs: seq<Json>)
    decreases ds
  {
    if ds == [] then true
    else if cs == [] then MapsFirst(ds)
    else (ds[0].Obj? && cs[0].Obj? ==> Settled(ds[0], cs[0])) && SettledItems(ds[1..], cs[1..])
  }

  /** Appending the maps of a list and merging the list in again. */
  lemma {:induction false} AppendedAgain(m: Policy, ds: seq<Json>)
    ensures MergeItems(m, ds, MapsOf(ds)) == MapsOf(ds) <==> MapsFirst(ds)
  {
    if ds == [] {
    } else if IsMap(ds[0]) {
      MergeSame(m, "", ds[0]);
      AppendedAgain(m, ds[1..]);
      var r := MergeItems(m, ds, MapsOf(ds));
      assert MapsOf(ds)[1..] == MapsOf(ds[1..]);
      assert r[1..] == MergeItems(m, ds[1..], MapsOf(ds[1..]));
    } else {
      MapsOfProperties(ds);
      var n := |MapsOf(ds)|;
      if n > 0 {
        assert ds == [ds[0]] + ds[1..n] + ds[n..];
        MapsOfSplit([ds[0]] + ds[1..n], ds[n..]);
        MapsOfSplit([ds[0]], ds[1..n]);
        assert |MapsOf(ds[n..])| > 0;
        MergedTail(m, ds, MapsOf(ds));
        assert MergeItems(m, ds, MapsOf(ds))[n..] != [];
      }
    }
  }

  /** Exactly when a second merge of one value changes nothing. */
  lemma {:induction false} MergeValueAgain(m: Policy, key: string, d: Json, c: Json)
    ensures MergeValue(m, key, d, MergeValue(m, key, d, c)) == MergeValue(m, key, d, c) <==> Settled(d, c)
    decreases d, 1
  {
    if c.Null? {
      MergeSame(m, key, d);
    } else if d.Obj? && c.Obj? {
      MergeObjAgain(m, d, c);
    } else if d.List? && c.List? {
      MergeItemsAgain(m, d.items, c.items);
    } else if d.Scalar() && Compares(m, key) {
      LargerSelects(m.q, d, c);
      LargerSelects(m.q, d, d);
    }
  }

  lemma {:induction false} MergeObjAgain(m: Policy, d: Json, c: Json)
    requires d.Obj? && c.Obj?
    ensures MergeObj(m, d, MergeObj(m, d, c)) == MergeObj(m, d, c) <==> Settled(d, c)
    decreases d, 0
  {
    var r := MergeObj(m, d, c);
    var rr := MergeObj(m, d, r);
    assert rr.fields.Keys == r.fields.Keys;
    forall k | k in d.fields
      ensures Get(rr.fields, k) == Get(r.fields, k) <==> Settled(d.fields[k], Get(c.fields, k))
    {
      MergeValueAgain(m, k, d.fields[k], Get(c.fields, k));
      GetMerged(m, d, c, k);
      GetMerged(m, d, r, k);
    }
    forall k | k in r.fields && k !in d.fields
      ensures Get(rr.fields, k) == Get(r.fields, k)
    {
      GetMerged(m, d, r, k);
    }
    if Settled(d, c) {
      forall k | k in r.fields ensures Get(rr.fields, k) == Get(r.fields, k) {
        if k in d.fields && k !in c.fields {
          assert Settled(d.fields[k], Null);
        }
      }
      SameFields(rr.fields, r.fields);
    }
    if rr == r {
      assert forall k | k in d.fields && k in c.fields :: Settled(d.fields[k], Get(c.fields, k));
    }
  }

  lemma {:induction false} MergeItemsAgain(m: Policy, ds: seq<Json>, cs: seq<Json>)
    ensures MergeItems(m, ds, MergeItems(m, ds, cs)) == MergeItems(m, ds, cs) <==> SettledItems(ds, cs)
    decreases ds
  {
    if ds != [] && cs == [] {
      AppendedAgain(m, ds);
    } else if ds != [] {
      MergeItemsAgain(m, ds[1..], cs[1..]);
      if ds[0].Obj? && cs[0].Obj? {
        MergeObjAgain(m, ds[0], cs[0]);
      }
      var r := MergeItems(m, ds, cs);
      var rr := MergeItems(m, ds, r);
      assert r[1..] == MergeItems(m, ds[1..], cs[1..]);
      assert rr[1..] == MergeItems(m, ds[1..], r[1..]);
      assert rr == [rr[0]] + rr[1..] && r == [r[0]] + r[1..];
    }
  }

  /** Merging one default into a configuration twice is the same as merging it once if and only
      if the two are settled. Both merges share the condition. */
  lemma MergeIsIdempotent(m: Policy, d: Fields, c: Fields)
    ensures Merge(m, d, Merge(m, d, c)) == Merge(m, d, c) <==> Settled(Obj(d), Obj(c))
  {
    var r := Merge(m, d, c);
    var rr := Merge(m, d, r);
    forall k | k in r
      ensures Get(rr, k) == Get(r, k) <==> (k in d ==> Settled(d[k], Get(c, k)))
    {
      if k in d {
        MergeValueAgain(m, k, d[k], Get(c, k));
      }
      GetMerge(m, d, c, k);
      GetMerge(m, d, r, k);
    }
    forall k | k in d && k !in c ensures Settled(d[k], Get(c, k)) {
    }
    if Settled(Obj(d), Obj(c)) {
      SameFields(rr, r);
    } else {
      var k :| k in d && k in c && !Settled(d[k], c[k]);
      assert k in r && Get(rr, k) != Get(r, k);
    }
  }

  /** A list that mixes maps with other elements grows at every merge: the two merges of this default into
      an empty list differ. */
  lemma MixedListGrows(m: Policy)
    ensures var d, c := map["l" := List([Num(0.0), Obj(map[])])], map["l" := List([])];
            Merge(m, d, Merge(m, d, c)) != Merge(m, d, c)
  {
    var d, c := map["l" := List([Num(0.0), Obj(map[])])], map["l" := List([])];
    MergeIsIdempotent(m, d, c);
    var items := [Num(0.0), Obj(map[])];
    assert IsMap(items[1]);
    assert !Settled(d["l"], c["l"]);
  }
}
