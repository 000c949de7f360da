/** The recursive merge of two configuration trees, as a function of the trees. */
module Merging {
  import opened Trees
  import opened ResourceComparison

  /** The two merges of the operator. `LargestWins` is the merge of CommonService CRs: at a key
      that holds a size the larger setting wins. `UserWins` is the deep merge that lets the
      change win everywhere and only fills its gaps. */
  datatype Policy = LargestWins(q: Quantities) | UserWins

  const COMPARABLE_KEYS: set<string> := {
    "replicas", "cpu", "memory", "ephemeral-storage", "profile", "fipsEnabled", "fips_enabled",
    "instances", "max_connections", "shared_buffers", "size"
  }

  /** Whether two values at `key` are compared instead of the change winning. */
  predicate Compares(m: Policy, key: string) {
    m.LargestWins? && key in COMPARABLE_KEYS
  }

  /** What `key` holds after the default `d` is merged under the change `c`. */
  function MergeValue(m: Policy, key: string, d: Json, c: Json): Json
    decreases d, 1
  {
    if c.Null? then d
    else match d
      case Obj(_) => if c.Obj? then MergeObj(m, d, c) else c
      case List(items) => if c.List? then List(MergeItems(m, items, c.items)) else c
      case _ => if Compares(m, key) then Larger(m.q, d, c) else c
  }

  /** Two maps below the root, key by key. `UserWins` copies even the null entries of the default. */
  function MergeObj(m: Policy, d: Json, c: Json): (r: Json)
    requires d.Obj? && c.Obj?
    ensures r.Obj? && r.fields.Keys == c.fields.Keys + if m.UserWins? then d.fields.Keys else SetKeys(d.fields)
    decreases d, 0
  {
    Obj(map k | k in c.fields.Keys + (if m.UserWins? then d.fields.Keys else SetKeys(d.fields)) ::
      if k in d.fields then MergeValue(m, k, d.fields[k], Get(c.fields, k)) else c.fields[k])
  }

  /** Two lists, position by position: maps merge, other elements keep the change, and the maps
      of a longer default list are appended. */
  function MergeItems(m: Policy, ds: seq<Json>, cs: seq<Json>): (r: seq<Json>)
    ensures |cs| <= |r|
    decreases ds
  {
    if ds == [] then cs
    else if cs == [] then MapsOf(ds)
    else [MergeItem(m, ds[0], cs[0])] + MergeItems(m, ds[1..], cs[1..])
  }

  function MergeItem(m: Policy, d: Json, c: Json): Json
    decreases d, 1
  {
    if d.Obj? && c.Obj? then MergeObj(m, d, c) else c
  }

  /** Two whole configurations. At the root a null default never creates a key. */
  function Merge(m: Policy, d: Fields, c: Fields): (r: Fields)
    ensures r.Keys == c.Keys + SetKeys(d)
  {
    map k | k in c.Keys + SetKeys(d) :: if k in d then MergeValue(m, k, d[k], Get(c, k)) else c[k]
  }

  /** The merge runs without panic: a map of a default list meets a map, a compared default is
      not null, and a compared boolean meets a boolean. */
  predicate MergeDefined(m: Policy, key: string, d: Json, c: Json)
    decreases d, 1
  {
    d == c || c.Null? ||
    match d
    case Obj(_) => c.Obj? ==> MergeObjDefined(m, d, c)
    case List(items) => c.List? ==> MergeItemsDefined(m, items, c.items)
    case _ => Compares(m, key) ==> !d.Null? && (d.Bool? ==> c.Bool?)
  }

  predicate MergeObjDefined(m: Policy, d: Json, c: Json)
    requires d.Obj? && c.Obj?
    decreases d, 0
  {
    forall k | k in d.fields && k in c.fields :: MergeDefined(m, k, d.fields[k], c.fields[k])
  }

  predicate MergeItemsDefined(m: Policy, ds: seq<Json>, cs: seq<Json>)
    decreases ds
  {
    ds == [] || cs == [] ||
    ((ds[0].Obj? && ds[0].fields != map[] ==> cs[0].Obj? && MergeObjDefined(m, ds[0], cs[0])) &&
     MergeItemsDefined(m, ds[1..], cs[1..]))
  }

  /** Reading a merged map: null stands for an absent key on every side. */
  lemma GetMerged(m: Policy, d: Json, c: Json, k: string)
    requires d.Obj? && c.Obj?
    ensures Get(MergeObj(m, d, c).fields, k) == MergeValue(m, k, Get(d.fields, k), Get(c.fields, k))
  {
  }

  lemma GetMerge(m: Policy, d: Fields, c: Fields, k: string)
    ensures Get(Merge(m, d, c), k) == MergeValue(m, k, Get(d, k), Get(c, k))
  {
  }

  /** The root merge is the nested merge without the null entries it takes from the default. */
  lemma RootMerge(m: Policy, d: Fields, c: Fields)
    ensures forall k | k in Merge(m, d, c) ::
              k in MergeObj(m, Obj(d), Obj(c)).fields && MergeObj(m, Obj(d), Obj(c)).fields[k] == Merge(m, d, c)[k]
    ensures forall k | k in MergeObj(m, Obj(d), Obj(c)).fields && k !in Merge(m, d, c) ::
            MergeObj(m, Obj(d), Obj(c)).fields[k].Null?
    ensures m.LargestWins? ==> MergeObj(m, Obj(d), Obj(c)) == Obj(Merge(m, d, c))
  {
  }

  /** The keys whose values are compared, by name. At any other key, and in the deep merge everywhere, the change
      wins over a default that is neither a map nor a list. */
  lemma ComparedByName(q: Quantities, key: string, d: Json, c: Json)
    requires d.Scalar() && !c.Null?
    ensures MergeValue(LargestWins(q), key, d, c) ==
            if key == "replicas" || key == "cpu" || key == "memory" || key == "ephemeral-storage" || key == "profile" ||
              key == "fipsEnabled" || key == "fips_enabled" || key == "instances" || key == "max_connections" ||
              key == "shared_buffers" || key == "size"
            then Larger(q, d, c) else c
    ensures MergeValue(UserWins, key, d, c) == c
  {
  }

  /** Merging a value into itself changes nothing: the code may skip equal values. */
  lemma {:induction false} MergeSame(m: Policy, key: string, t: Json)
    ensures MergeValue(m, key, t, t) == t
    ensures t.Obj? ==> MergeObj(m, t, t) == t
    decreases t
  {
    if t.Obj? {
      forall k | k in t.fields
        ensures Get(MergeObj(m, t, t).fields, k) == Get(t.fields, k)
      {
        MergeSame(m, k, t.fields[k]);
        GetMerged(m, t, t, k);
      }
      SameFields(MergeObj(m, t, t).fields, t.fields);
    } else if t.List? {
      MergeSameItems(m, t.items);
    } else if Compares(m, key) {
      LargerSelects(m.q, t, t);
    }
  }

  lemma {:induction false} MergeSameItems(m: Policy, items: seq<Json>)
    ensures MergeItems(m, items, items) == items
    decreases items
  {
    if items != [] {
      MergeSame(m, "", items[0]);
      MergeSameItems(m, items[1..]);
    }
  }

  /** Nothing to fill in: an empty default leaves the change as it is. */
  lemma MergeIntoEmpty(m: Policy, c: Fields)
    ensures Merge(m, map[], c) == c
  {
  }

  /** Position `i` of a merged list. */
  lemma {:induction false} MergedItem(m: Policy, ds: seq<Json>, cs: seq<Json>, i: nat)
    requires i < |cs|
    ensures MergeItems(m, ds, cs)[i] == if i < |ds| then MergeItem(m, ds[i], cs[i]) else cs[i]
    decreases ds
  {
    if ds != [] && i > 0 {
      MergedItem(m, ds[1..], cs[1..], i - 1);
    }
  }

  /** What a merged list holds beyond the change: the remaining maps of the default. */
  lemma {:induction false} MergedTail(m: Policy, ds: seq<Json>, cs: seq<Json>)
    ensures MergeItems(m, ds, cs)[|cs|..] == if |cs| < |ds| then MapsOf(ds[|cs|..]) else []
    decreases ds
  {
    if ds != [] && cs != [] {
      MergedTail(m, ds[1..], cs[1..]);
      DropOneMore(MergeItem(m, ds[0], cs[0]), MergeItems(m, ds[1..], cs[1..]), |cs| - 1);
      if |cs| < |ds| {
        DropOneMore(ds[0], ds[1..], |cs| - 1);
        assert [ds[0]] + ds[1..] == ds;
      }
    } else if cs == [] {
      assert ds[0..] == ds;
    }
  }

  lemma DropOneMore(x: Json, s: seq<Json>, n: nat)
    requires n <= |s|
    ensures ([x] + s)[n + 1..] == s[n..]
  {
  }
}
