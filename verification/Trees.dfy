/** Configuration trees: what the operator obtains by decoding YAML or JSON. */
module Trees {
  import opened Sequences

  /** `Cleared` is the value the code writes over a CPU limit (an empty Go struct):
      neither null, nor a map, nor a list. */
  datatype Json =
    | Null
    | Bool(b: bool)
    | Num(n: real)
    | Str(s: string)
    | Cleared
    | List(items: seq<Json>)
    | Obj(fields: Fields)
  {
    /** Neither a map nor a list: what the merges treat as a leaf. */
    predicate Scalar() {
      !List? && !Obj?
    }
  }

  type Fields = map<string, Json>

  /** Reading a Go map: a missing key reads as nil. */
  function Get(f: Fields, k: string): Json {
    if k in f then f[k] else Null
  }

  /** Field `k` of a tree that is expected to be a map. */
  function Field(t: Json, k: string): Json {
    if t.Obj? then Get(t.fields, k) else Null
  }

  /** The keys holding something other than null. */
  function SetKeys(f: Fields): set<string> {
    set k | k in f && f[k] != Null
  }

  predicate IsMap(t: Json) {
    t.Obj?
  }

  predicate AllMaps(items: seq<Json>) {
    forall i | 0 <= i < |items| :: IsMap(items[i])
  }

  predicate NoMaps(items: seq<Json>) {
    forall i | 0 <= i < |items| :: !IsMap(items[i])
  }

  /** The maps among `items`, in order: what a merge appends when the default list is longer. */
  function MapsOf(items: seq<Json>): (r: seq<Json>)
    ensures |r| <= |items|
  {
    if items == [] then []
    else if IsMap(items[0]) then [items[0]] + MapsOf(items[1..])
    else MapsOf(items[1..])
  }

  lemma {:induction false} MapsOfProperties(items: seq<Json>)
    ensures AllMaps(MapsOf(items))
    ensures AllMaps(items) <==> MapsOf(items) == items
    ensures NoMaps(items) <==> MapsOf(items) == []
  {
    if items != [] {
      MapsOfProperties(items[1..]);
      assert NoMaps(items) <==> !IsMap(items[0]) && NoMaps(items[1..]) by {
        assert forall i | 0 <= i < |items[1..]| :: items[1..][i] == items[i + 1];
      }
      assert AllMaps(items) <==> IsMap(items[0]) && AllMaps(items[1..]) by {
        assert forall i | 0 <= i < |items[1..]| :: items[1..][i] == items[i + 1];
      }
    }
  }

  lemma {:induction false} MapsOfSplit(a: seq<Json>, b: seq<Json>)
    ensures MapsOf(a + b) == MapsOf(a) + MapsOf(b)
  {
    if a == [] {
      assert a + b == b;
    } else {
      MapsOfSplit(a[1..], b);
      HeadOfConcat(a, b);
      Associate([a[0]], MapsOf(a[1..]), MapsOf(b));
    }
  }

  /** Two maps that read alike on a common key set are equal. */
  lemma SameFields(a: Fields, b: Fields)
    requires a.Keys == b.Keys
    requires forall k | k in a.Keys :: Get(a, k) == Get(b, k)
    ensures a == b
  {
    forall k | k in a ensures a[k] == b[k] {
      assert Get(a, k) == Get(b, k);
    }
  }

  /** One step of a path into a tree. */
  datatype Step = Key(k: string) | Index(i: nat)

  /** The value at a path; null when the path leads nowhere. */
  function Find(t: Json, p: seq<Step>): Json
    decreases p
  {
    if p == [] then t
    else match p[0]
      case Key(k) => Find(Field(t, k), p[1..])
      case Index(i) => Find(if t.List? && i < |t.items| then t.items[i] else Null, p[1..])
  }

  lemma FindNull(p: seq<Step>)
    ensures Find(Null, p) == Null
  {
  }

  /** Every map and list met along `p` is of the kind the path expects, every list it enters
      holds maps only, and the path ends at a leaf. Null ends the walk early. */
  predicate OnPath(t: Json, p: seq<Step>)
    decreases p
  {
    t.Null? ||
    if p == [] then t.Scalar()
    else match p[0]
      case Key(k) => t.Obj? && OnPath(Get(t.fields, k), p[1..])
      case Index(i) => t.List? && AllMaps(t.items) && (i < |t.items| ==> OnPath(t.items[i], p[1..]))
  }

  /** The tree without the null entries of its maps, at every depth. */
  function Strip(t: Json): Json {
    match t
    case Obj(f) => Obj(map k | k in f && f[k] != Null :: Strip(f[k]))
    case List(items) => List(StripAll(items))
    case _ => t
  }

  function StripAll(items: seq<Json>): (r: seq<Json>)
    ensures |r| == |items|
    ensures forall i | 0 <= i < |items| :: r[i] == Strip(items[i])
  {
    if items == [] then [] else [Strip(items[0])] + StripAll(items[1..])
  }
}
