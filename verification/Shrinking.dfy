/** Scaling a template towards the larger (or smaller) of two settings. */
module Shrinking {
  import opened Trees
  import opened ResourceComparison
  import opened Merging
  import opened Paths

  datatype Extreme = Max | Min

  function Pick(q: Quantities, e: Extreme, d: Json, c: Json): Json {
    if e.Max? then Larger(q, d, c) else Smaller(q, d, c)
  }

  /** What a key holding `d` holds after scaling with `c`. Every leaf is compared, whatever its
      key; a map or list of `c` that has no counterpart is left out. */
  function ShrinkValue(q: Quantities, e: Extreme, d: Json, c: Json): Json
    decreases d, 1
  {
    match c
    case Null => d
    case Obj(_) => if d.Obj? then ShrinkObj(q, e, d, c) else d
    case List(items) => if d.List? then List(ShrinkItems(q, e, d.items, items)) else d
    case _ => if d.Null? then c else Pick(q, e, d, c)
  }

  function ShrinkObj(q: Quantities, e: Extreme, d: Json, c: Json): (r: Json)
    requires d.Obj? && c.Obj?
    ensures r.Obj?
    decreases d, 0
  {
    Obj(map k | k in d.fields.Keys + (set k | k in c.fields && c.fields[k].Scalar() && c.fields[k] != Null) ::
      if k in d.fields then ShrinkValue(q, e, d.fields[k], Get(c.fields, k)) else c.fields[k])
  }

  /** The maps of two lists, position by position; the template's length stays. */
  function ShrinkItems(q: Quantities, e: Extreme, ds: seq<Json>, cs: seq<Json>): (r: seq<Json>)
    ensures |r| == |ds|
    decreases ds
  {
    if ds == [] || cs == [] then ds
    else [if ds[0].Obj? && cs[0].Obj? then ShrinkObj(q, e, ds[0], cs[0]) else ds[0]] +
         ShrinkItems(q, e, ds[1..], cs[1..])
  }

  /** A whole configuration: at the root, keys that only `c` has are taken over. */
  function Shrink(q: Quantities, e: Extreme, d: Fields, c: Fields): (r: Fields)
    ensures r.Keys == d.Keys + c.Keys
  {
    map k | k in d.Keys + c.Keys :: if k in d then ShrinkValue(q, e, d[k], Get(c, k)) else c[k]
  }

  lemma GetShrunk(q: Quantities, e: Extreme, d: Json, c: Json, k: string)
    requires d.Obj? && c.Obj?
    ensures Get(ShrinkObj(q, e, d, c).fields, k) == ShrinkValue(q, e, Get(d.fields, k), Get(c.fields, k))
  {
  }

  /** Scaling a value with itself changes nothing: the code may skip equal values. */
  lemma {:induction false} ShrinkSame(q: Quantities, e: Extreme, t: Json)
    ensures ShrinkValue(q, e, t, t) == t
    ensures t.Obj? ==> ShrinkObj(q, e, t, t) == t
    decreases t
  {
    if t.Obj? {
      forall k | k in t.fields
        ensures Get(ShrinkObj(q, e, t, t).fields, k) == Get(t.fields, k)
      {
        ShrinkSame(q, e, t.fields[k]);
      }
      SameFields(ShrinkObj(q, e, t, t).fields, t.fields);
    } else if t.List? {
      ShrinkSameItems(q, e, t.items);
    }
  }

  lemma {:induction false} ShrinkSameItems(q: Quantities, e: Extreme, items: seq<Json>)
    ensures ShrinkItems(q, e, items, items) == items
    decreases items
  {
    if items != [] {
      ShrinkSame(q, e, items[0]);
      ShrinkSameItems(q, e, items[1..]);
    }
  }

  /** The scaling runs without panic: in lists that differ the user's elements are maps with a
      counterpart, and booleans meet booleans. */
  predicate ShrinkDefined(d: Json, c: Json)
    decreases d, 1
  {
    d == c || d.Null? ||
    match c
    case Obj(_) => d.Obj? ==> ShrinkObjDefined(d, c)
    case List(items) => d.List? ==> ShrinkItemsDefined(d.items, items)
    case _ => d.Bool? ==> c.Bool? || c.Null?
  }

  predicate ShrinkObjDefined(d: Json, c: Json)
    requires d.Obj? && c.Obj?
    decreases d, 0
  {
    forall k | k in d.fields && k in c.fields :: ShrinkDefined(d.fields[k], c.fields[k])
  }

  predicate ShrinkItemsDefined(ds: seq<Json>, cs: seq<Json>)
    decreases ds
  {
    if cs == [] then true
    else if ds == [] then forall i | 0 <= i < |cs| :: cs[i] == Obj(map[])
    else cs[0].Obj? && (ds[0].Obj? ==> ShrinkObjDefined(ds[0], cs[0])) && ShrinkItemsDefined(ds[1..], cs[1..])
  }

  /** Whatever the scaling did, the deep merge with the same change undoes it. */
  lemma {:induction false} ValueAbsorbed(q: Quantities, e: Extreme, key: string, d: Json, c: Json)
    ensures MergeValue(UserWins, key, ShrinkValue(q, e, d, c), c) == MergeValue(UserWins, key, d, c)
    decreases d, 1
  {
    if c.Obj? && d.Obj? {
      ObjectAbsorbed(q, e, d, c);
    } else if c.List? && d.List? {
      ItemsAbsorbed(q, e, d.items, c.items);
    } else if c.Scalar() && !c.Null? && !d.Null? {
      PickSelects(q, e, d, c);
      MergeSame(UserWins, key, c);
    }
  }

  lemma PickSelects(q: Quantities, e: Extreme, d: Json, c: Json)
    ensures Pick(q, e, d, c) == d || Pick(q, e, d, c) == c
  {
  }

  lemma {:induction false} ObjectAbsorbed(q: Quantities, e: Extreme, d: Json, c: Json)
    requires d.Obj? && c.Obj?
    ensures MergeObj(UserWins, ShrinkObj(q, e, d, c), c) == MergeObj(UserWins, d, c)
    decreases d, 0
  {
    var s := ShrinkObj(q, e, d, c);
    var l, r := MergeObj(UserWins, s, c).fields, MergeObj(UserWins, d, c).fields;
    assert l.Keys == r.Keys;
    forall k | k in l.Keys
      ensures Get(l, k) == Get(r, k)
    {
      GetMerged(UserWins, s, c, k);
      GetMerged(UserWins, d, c, k);
      GetShrunk(q, e, d, c, k);
      if k in d.fields {
        ValueAbsorbed(q, e, k, d.fields[k], Get(c.fields, k));
      } else {
        MergeSame(UserWins, k, Get(c.fields, k));
      }
    }
    SameFields(l, r);
  }

  lemma {:induction false} ItemsAbsorbed(q: Quantities, e: Extreme, ds: seq<Json>, cs: seq<Json>)
    ensures MergeItems(UserWins, ShrinkItems(q, e, ds, cs), cs) == MergeItems(UserWins, ds, cs)
    decreases ds
  {
    if ds != [] && cs != [] {
      ItemsAbsorbed(q, e, ds[1..], cs[1..]);
      if ds[0].Obj? && cs[0].Obj? {
        ObjectAbsorbed(q, e, ds[0], cs[0]);
      }
    }
  }

  /** Absorption: scaling a template before the deep merge with the same user values has no effect
      on the outcome, in either direction of scaling and for any two configurations. */
  lemma ShrinkAbsorbed(q: Quantities, e: Extreme, t: Fields, u: Fields)
    ensures Merge(UserWins, Shrink(q, e, t, u), u) == Merge(UserWins, t, u)
  {
    var s := Shrink(q, e, t, u);
    var l, r := Merge(UserWins, s, u), Merge(UserWins, t, u);
    assert l.Keys == r.Keys;
    forall k | k in l.Keys
      ensures Get(l, k) == Get(r, k)
    {
      GetMerge(UserWins, s, u, k);
      GetMerge(UserWins, t, u, k);
      if k in t {
        ValueAbsorbed(q, e, k, t[k], Get(u, k));
      } else {
        MergeSame(UserWins, k, Get(u, k));
      }
    }
    SameFields(l, r);
  }

  /** Although the code's comment speaks of keeping the template's scaling, a leaf the user sets
      always ends up with the user's value. */
  lemma UserSettingWins(q: Quantities, e: Extreme, t: Fields, u: Fields, p: seq<Step>)
    requires p != [] && Find(Obj(u), p).Scalar() && !Find(Obj(u), p).Null?
    ensures Find(Obj(Merge(UserWins, Shrink(q, e, t, u), u)), p) == Find(Obj(u), p)
  {
    ShrinkAbsorbed(q, e, t, u);
    FindNull(p[1..]);
    var k := p[0].k;
    GetMerge(UserWins, t, u, k);
    ChangedLeafSurvives(UserWins, k, Get(t, k), Get(u, k), p[1..]);
  }
}
