/** Configuration trees as Go keeps them: maps are cells that values refer to, so one tree can share maps
    with another. What it takes to merge one tree into another where it is. */
module Heaps {
  import opened Trees
  import opened Merging
  import opened MergeEngine

  type Address = nat

  /** A value as Go stores it: a leaf, a reference to a map, or a slice of values. The ghost part of a
      slice says which maps each element owns. */
  datatype Value = Leaf(t: Json) | Ref(a: Address) | Slice(items: seq<Value>, ghost parts: seq<set<Address>>)

  /** A map in memory. The ghost part says which maps the value of each key owns. */
  datatype Cell = Cell(entries: map<string, Value>, ghost parts: map<string, set<Address>>)

  type Heap = map<Address, Cell>

  /** `v` stores the tree `t`, in maps of `own` only, none of which is used twice. */
  ghost predicate Stores(h: Heap, v: Value, t: Json, own: set<Address>)
    decreases t, 1
  {
    match v
    case Leaf(j) => t == j && t.Scalar()
    case Ref(a) => t.Obj? && StoresMap(h, a, t, own)
    case Slice(items, parts) => t.List? && StoresItems(h, items, parts, t, own)
  }

  ghost predicate StoresMap(h: Heap, a: Address, t: Json, own: set<Address>)
    requires t.Obj?
    decreases t, 0
  {
    a in own && a in h && h[a].entries.Keys == h[a].parts.Keys == t.fields.Keys &&
    (forall k | k in t.fields :: StoresEntry(h, a, h[a], k, t.fields[k], own)) &&
    Disjoint(h[a].parts)
  }

  ghost predicate StoresEntry(h: Heap, a: Address, c: Cell, k: string, t: Json, own: set<Address>)
    decreases t, 2
  {
    k in c.entries && k in c.parts && c.parts[k] <= own - {a} && Stores(h, c.entries[k], t, c.parts[k])
  }

  ghost predicate Disjoint(parts: map<string, set<Address>>) {
    forall k, l | k in parts && l in parts && k != l :: parts[k] !! parts[l]
  }

  ghost predicate StoresItems(h: Heap, items: seq<Value>, parts: seq<set<Address>>, t: Json, own: set<Address>)
    requires t.List?
    decreases t, 0
  {
    |items| == |parts| == |t.items| &&
    (forall i | 0 <= i < |items| :: parts[i] <= own && Stores(h, items[i], t.items[i], parts[i])) &&
    (forall i, j | 0 <= i < j < |parts| :: parts[i] !! parts[j])
  }

  /** The maps in `own` are the same in both heaps. */
  ghost predicate Same(h: Heap, h': Heap, own: set<Address>) {
    forall a | a in own && a in h :: a in h' && h'[a] == h[a]
  }

  /** A value stays stored while the maps it owns are left alone. */
  lemma {:induction false} Untouched(h: Heap, h': Heap, v: Value, t: Json, own: set<Address>)
    requires Stores(h, v, t, own) && Same(h, h', own)
    ensures Stores(h', v, t, own)
    decreases t
  {
    if v.Ref? {
      var c := h[v.a];
      forall k | k in t.fields ensures StoresEntry(h', v.a, c, k, t.fields[k], own) {
        assert StoresEntry(h, v.a, c, k, t.fields[k], own);
        Untouched(h, h', c.entries[k], t.fields[k], c.parts[k]);
      }
    } else if v.Slice? {
      forall i | 0 <= i < |v.items| ensures Stores(h', v.items[i], t.items[i], v.parts[i]) {
        Untouched(h, h', v.items[i], t.items[i], v.parts[i]);
      }
    }
  }

  /** A value stores one tree only. */
  lemma {:induction false} StoresOneTree(h: Heap, v: Value, t: Json, own: set<Address>, t': Json, own': set<Address>)
    requires Stores(h, v, t, own) && Stores(h, v, t', own')
    ensures t == t'
    decreases t
  {
    if v.Ref? {
      var c := h[v.a];
      forall k | k in t.fields ensures t.fields[k] == t'.fields[k] {
        assert StoresEntry(h, v.a, c, k, t.fields[k], own) && StoresEntry(h, v.a, c, k, t'.fields[k], own');
        StoresOneTree(h, c.entries[k], t.fields[k], c.parts[k], t'.fields[k], c.parts[k]);
      }
      SameFields(t.fields, t'.fields);
    } else if v.Slice? {
      forall i | 0 <= i < |v.items| ensures t.items[i] == t'.items[i] {
        StoresOneTree(h, v.items[i], t.items[i], v.parts[i], t'.items[i], v.parts[i]);
      }
    }
  }

  /** The maps a key owns, if it is there. */
  ghost function Owned(parts: map<string, set<Address>>, k: string): set<Address> {
    if k in parts then parts[k] else {}
  }

  /** Only cell `a` and the maps in `own` differ. */
  ghost predicate OnlyChanged(h: Heap, h': Heap, a: Address, own: set<Address>) {
    h'.Keys == h.Keys && forall x | x in h && x != a && x !in own :: h'[x] == h[x]
  }

  /** Only the maps in `own` differ. */
  ghost predicate SameOutside(h: Heap, h': Heap, own: set<Address>) {
    h'.Keys == h.Keys && forall x | x in h && x !in own :: h'[x] == h[x]
  }

  /** What a key of the map at `a` holds; null when the map has no such key. */
  ghost predicate KeyHolds(h: Heap, c: Cell, a: Address, key: string, t: Json) {
    && c.entries.Keys == c.parts.Keys
    && if key in c.entries then Stores(h, c.entries[key], t, c.parts[key]) && a !in c.parts[key] else t.Null?
  }

  /** One key of the map at `a` is merged: its value may now share maps of the default, nothing else of
      the map is touched, and nothing outside what the value owned. */
  ghost predicate KeyMerged(h: Heap, h': Heap, a: Address, key: string, adds: bool, merged: Json, ownD: set<Address>) {
    && a in h && a in h' && OnlyChanged(h, h', a, Owned(h[a].parts, key))
    && h'[a].entries.Keys == h'[a].parts.Keys == h[a].entries.Keys + (if adds then {key} else {})
    && (forall k | k in h[a].entries && k in h[a].parts && k != key ::
          h'[a].entries[k] == h[a].entries[k] && h'[a].parts[k] == h[a].parts[k])
    && (key in h'[a].entries ==>
          h'[a].parts[key] <= Owned(h[a].parts, key) + ownD && Stores(h', h'[a].entries[key], merged, h'[a].parts[key]))
  }

  lemma KeysGrow(c: set<string>, d: set<string>, todo: set<string>, k: string)
    requires k in todo
    ensures c + (d - todo) + (if k in d then {k} else {}) == c + (d - (todo - {k}))
  {
  }

  /** Updating the map at `a` key by key. In the memory `h0` it stores `tc` in the maps `ownC`. A key that was
      visited holds its tree of `goal`, if it is there at all: keys that are missing at first are taken over
      only if they are in `taken`. The value of a visited key may own the maps `dparts` of it, all among
      `ownD`, besides its own. */
  datatype Job = Job(goal: Fields, taken: set<string>, h0: Heap, a: Address, tc: Fields, ownC: set<Address>,
                     dparts: map<string, set<Address>>, ownD: set<Address>)
  {
    ghost predicate Valid() {
      && StoresMap(h0, a, Obj(tc), ownC) && ownC !! ownD && taken <= goal.Keys
      && Disjoint(dparts) && forall k | k in dparts :: dparts[k] <= ownD
    }

    /** The tree of a key when the keys in `todo` are still to be visited. */
    ghost function Pending(todo: set<string>, k: string): Json {
      if k in goal && k !in todo then goal[k] else Get(tc, k)
    }

    ghost function PartsOf(todo: set<string>, k: string): set<Address>
      requires a in h0
    {
      Owned(h0[a].parts, k) + if k in todo then {} else Owned(dparts, k)
    }

    /** The keys outside `todo` are visited. */
    ghost predicate Progress(h: Heap, todo: set<string>)
      requires a in h0
    {
      && a in h && OnlyChanged(h0, h, a, ownC)
      && h[a].entries.Keys == h[a].parts.Keys == tc.Keys + (taken - todo)
      && forall k | k in h[a].parts :: KeyState(h, h[a], todo, k)
    }

    ghost predicate KeyState(h: Heap, c: Cell, todo: set<string>, k: string)
      requires a in h0
    {
      k in c.entries && k in c.parts && c.parts[k] <= PartsOf(todo, k) &&
        Stores(h, c.entries[k], Pending(todo, k), c.parts[k])
    }

    /** Key `k` was visited. */
    ghost predicate Merged(h: Heap, h': Heap, k: string)
      requires k in goal
    {
      KeyMerged(h, h', a, k, k in taken, goal[k], Owned(dparts, k))
    }

    lemma PartsApart(k: string)
      requires Valid()
      ensures a in h0 && a in ownC && a !in ownD && Owned(h0[a].parts, k) <= ownC - {a} && Owned(dparts, k) <= ownD
    {
      if k in h0[a].parts { assert StoresEntry(h0, a, h0[a], k, tc[k], ownC); }
    }

    lemma PartsDisjoint(todo: set<string>, k: string, l: string)
      requires Valid() && a in h0 && k != l
      ensures PartsOf(todo, k) !! PartsOf(todo, l)
    {
      PartsApart(k);
      PartsApart(l);
      assert Owned(h0[a].parts, k) !! Owned(h0[a].parts, l);
      assert Owned(dparts, k) !! Owned(dparts, l);
    }

    /** Merging one key does not touch the maps of another. */
    lemma OtherKeyApart(h: Heap, h': Heap, todo: set<string>, k: string, l: string)
      requires Valid() && a in h0 && Progress(h, todo) && k in todo && k in goal && l != k && l in h[a].parts &&
               Merged(h, h', k)
      ensures Same(h, h', h[a].parts[l])
    {
      assert KeyState(h, h[a], todo, l);
      assert k in h[a].parts ==> KeyState(h, h[a], todo, k);
      PartsApart(l);
      PartsDisjoint(todo, k, l);
    }

    lemma OtherKeyKept(h: Heap, h': Heap, c: Cell, c': Cell, todo: set<string>, k: string, l: string)
      requires a in h0 && KeyState(h, c, todo, l) && k in todo && l != k
      requires l in c'.entries && l in c'.parts && c'.entries[l] == c.entries[l] && c'.parts[l] == c.parts[l]
      requires Same(h, h', c.parts[l])
      ensures KeyState(h', c', todo - {k}, l)
    {
      Untouched(h, h', c.entries[l], Pending(todo, l), c.parts[l]);
      assert Pending(todo - {k}, l) == Pending(todo, l);
    }

    lemma MergedKeyStored(h: Heap, h': Heap, todo: set<string>, k: string)
      requires Valid() && a in h0 && Progress(h, todo) && k in todo && k in goal && Merged(h, h', k)
      ensures k in h'[a].parts ==> KeyState(h', h'[a], todo - {k}, k)
      ensures OnlyChanged(h0, h', a, ownC)
    {
      assert k in h[a].parts ==> KeyState(h, h[a], todo, k);
      PartsApart(k);
    }

    /** Merging one more key. */
    lemma NextKey(h: Heap, h': Heap, todo: set<string>, k: string)
      requires Valid() && a in h0 && Progress(h, todo) && k in todo && k in goal && Merged(h, h', k)
      ensures Progress(h', todo - {k})
    {
      KeysGrow(tc.Keys, taken, todo, k);
      MergedKeyStored(h, h', todo, k);
      forall l | l in h'[a].parts
        ensures KeyState(h', h'[a], todo - {k}, l)
      {
        if l != k {
          OtherKeyApart(h, h', todo, k, l);
          OtherKeyKept(h, h', h[a], h'[a], todo, k, l);
        }
      }
    }

    lemma NothingMerged()
      requires Valid() && a in h0
      ensures Progress(h0, goal.Keys)
    {
      forall l | l in h0[a].parts
        ensures KeyState(h0, h0[a], goal.Keys, l)
      {
        assert StoresEntry(h0, a, h0[a], l, tc[l], ownC);
      }
    }

    ghost function Result(): Json
      requires taken <= goal.Keys
    {
      Obj(map k | k in tc.Keys + taken :: if k in goal then goal[k] else tc[k])
    }

    lemma MergedEntry(h: Heap, c: Cell, k: string)
      requires Valid() && a in h0 && KeyState(h, c, {}, k) && k in Result().fields
      ensures StoresEntry(h, a, c, k, Result().fields[k], ownC + ownD)
    {
      PartsApart(k);
      assert Pending({}, k) == Result().fields[k];
    }

    lemma MergedParts(h: Heap)
      requires Valid() && a in h0 && Progress(h, {})
      ensures Disjoint(h[a].parts)
    {
      forall k, l | k in h[a].parts && l in h[a].parts && k != l ensures h[a].parts[k] !! h[a].parts[l] {
        assert KeyState(h, h[a], {}, k) && KeyState(h, h[a], {}, l);
        PartsDisjoint({}, k, l);
      }
    }

    lemma MergedEntries(h: Heap)
      requires Valid() && a in h0 && Progress(h, {})
      ensures forall k | k in Result().fields :: StoresEntry(h, a, h[a], k, Result().fields[k], ownC + ownD)
    {
      forall k | k in Result().fields
        ensures StoresEntry(h, a, h[a], k, Result().fields[k], ownC + ownD)
      {
        assert k in h[a].parts;
        MergedEntry(h, h[a], k);
      }
    }

    lemma AllMerged(h: Heap)
      requires Valid() && a in h0 && Progress(h, {})
      ensures StoresMap(h, a, Result(), ownC + ownD)
    {
      MergedEntries(h);
      MergedParts(h);
      PartsApart("");
    }
  }

  lemma DefaultParts(h: Heap, d: Address, td: Json, ownD: set<Address>)
    requires td.Obj? && StoresMap(h, d, td, ownD)
    ensures forall k | k in h[d].parts :: h[d].parts[k] <= ownD
  {
    forall k | k in h[d].parts ensures h[d].parts[k] <= ownD {
      assert StoresEntry(h, d, h[d], k, td.fields[k], ownD);
    }
  }

  /** A key that is still to be visited holds what it held at first, and shares nothing with its default. */
  lemma KeyReady(job: Job, d: Address, td: Fields, h: Heap, todo: set<string>, k: string)
    requires job.Valid() && job.a in job.h0 && StoresMap(job.h0, d, Obj(td), job.ownD) && job.dparts == job.h0[d].parts
    requires job.Progress(h, todo) && k in todo && k in td
    ensures k in job.h0[d].entries && Stores(h, job.h0[d].entries[k], td[k], job.dparts[k]) && job.a !in job.dparts[k]
    ensures KeyHolds(h, h[job.a], job.a, k, Get(job.tc, k)) && Owned(h[job.a].parts, k) !! job.dparts[k]
  {
    job.PartsApart(k);
    assert StoresEntry(job.h0, d, job.h0[d], k, td[k], job.ownD);
    Untouched(job.h0, h, job.h0[d].entries[k], td[k], job.dparts[k]);
    if k in h[job.a].parts { assert job.KeyState(h, h[job.a], todo, k); }
  }

  /** A key is given a value of the default. */
  lemma KeyAssigned(h: Heap, a: Address, key: string, d: Value, td: Json, own: set<Address>, ownD: set<Address>)
    requires a in h && h[a].entries.Keys == h[a].parts.Keys && a !in own && own <= ownD && Stores(h, d, td, own)
    ensures KeyMerged(h, h[a := Cell(h[a].entries[key := d], h[a].parts[key := own])], a, key, true, td, ownD)
  {
    Untouched(h, h[a := Cell(h[a].entries[key := d], h[a].parts[key := own])], d, td, own);
  }

  /** After the value of a key was merged in place, the map above it owns more. */
  lemma KeyMergedBelow(h: Heap, h': Heap, a: Address, key: string, r: Value, merged: Json, ownD: set<Address>)
    requires a in h && key in h[a].entries && h[a].entries.Keys == h[a].parts.Keys
    requires a !in h[a].parts[key] && a !in ownD
    requires SameOutside(h, h', h[a].parts[key]) && Stores(h', r, merged, h[a].parts[key] + ownD)
    ensures a in h' && h'[a] == h[a]
    ensures KeyMerged(h, h'[a := Cell(h[a].entries[key := r], h[a].parts[key := h[a].parts[key] + ownD])], a, key, true,
                      merged, ownD)
  {
    Untouched(h', h'[a := Cell(h[a].entries[key := r], h[a].parts[key := h[a].parts[key] + ownD])], r, merged,
              h[a].parts[key] + ownD);
  }

  /** Configurations that share no maps, neither with each other nor with `used`. */
  ghost predicate StoresAll(h: Heap, crs: seq<Address>, trees: seq<Fields>,
                            owns: seq<set<Address>>, used: set<Address>) {
    && |crs| == |trees| == |owns|
    && (forall i | 0 <= i < |crs| :: StoresMap(h, crs[i], Obj(trees[i]), owns[i]) && owns[i] !! used)
    && forall i, j | 0 <= i < j < |owns| :: owns[i] !! owns[j]
  }

  lemma OthersKept(h: Heap, h': Heap, crs: seq<Address>, trees: seq<Fields>,
                   owns: seq<set<Address>>, used: set<Address>)
    requires crs != [] && StoresAll(h, crs, trees, owns, used) && SameOutside(h, h', owns[0])
    ensures StoresAll(h', crs[1..], trees[1..], owns[1..], owns[0] + used)
  {
    forall i | 1 <= i < |crs|
      ensures StoresMap(h', crs[i], Obj(trees[i]), owns[i])
    {
      Untouched(h, h', Ref(crs[i]), Obj(trees[i]), owns[i]);
    }
  }

  function Identity(n: nat): (s: seq<nat>)
    ensures |s| == n && forall i | 0 <= i < n :: s[i] == i
  {
    seq(n, i requires 0 <= i < n => i)
  }

  /** Merging the default slice `ds` into the slice `cs`. */
  datatype SliceJob = SliceJob(m: Policy, h0: Heap, cs: seq<Value>, cparts: seq<set<Address>>, tcs: seq<Json>,
                               ownC: set<Address>,
                               ds: seq<Value>, dparts: seq<set<Address>>, tds: seq<Json>, ownD: set<Address>)
  {
    ghost predicate Valid() {
      StoresItems(h0, cs, cparts, List(tcs), ownC) && StoresItems(h0, ds, dparts, List(tds), ownD) && ownC !! ownD
    }

    /** The maps that position `j` may own once `i` defaults are merged, when it takes from default `s`. */
    ghost function PartsOf(j: nat, s: nat, i: nat): set<Address> {
      (if j < |cparts| then cparts[j] else {}) + (if s < i && s < |dparts| then dparts[s] else {})
    }

    /** The first `i` defaults are merged. Position `j` of the result takes from default `src[j]`. */
    ghost predicate Progress(h: Heap, items: seq<Value>, parts: seq<set<Address>>, src: seq<nat>, i: nat)
      requires Valid() && i <= |tds|
    {
      var ts := MergeItems(m, tds[..i], tcs);
      && SameOutside(h0, h, ownC)
      && |items| == |parts| == |src| == |ts|
      && Sources(src, i)
      && (forall j: nat | j < |ts| :: Position(h, items[j], parts[j], src[j], ts[j], j, i))
      && forall j: nat | j < |cs| :: items[j] == cs[j]
    }

    /** Merged positions take from the default of the same position, appended ones from a later one. */
    ghost predicate Sources(src: seq<nat>, i: nat) {
      && |cs| <= |src|
      && (forall j: nat | j < |src| :: if j < |cs| then src[j] == j else |cs| <= src[j] < i)
      && forall j, k | 0 <= j < k < |src| :: src[j] < src[k]
    }

    ghost predicate Position(h: Heap, v: Value, part: set<Address>, s: nat, t: Json, j: nat, i: nat) {
      part <= PartsOf(j, s, i) && Stores(h, v, t, part)
    }

    lemma NothingMerged()
      requires Valid()
      ensures Progress(h0, cs, cparts, Identity(|cs|), 0)
    {
      assert tds[..0] == [];
    }

    /** The default at position `i`, still where it was. */
    lemma DefaultKept(h: Heap, i: nat)
      requires Valid() && SameOutside(h0, h, ownC) && i < |ds|
      ensures Stores(h, ds[i], tds[i], dparts[i]) && dparts[i] <= ownD
    {
      Untouched(h0, h, ds[i], tds[i], dparts[i]);
    }

    lemma ItemReady(h: Heap, items: seq<Value>, parts: seq<set<Address>>, src: seq<nat>, i: nat)
      requires Valid() && i < |tds| && i < |cs| && Progress(h, items, parts, src, i)
      ensures i < |items| && i < |parts| && items[i] == cs[i] && Stores(h, cs[i], tcs[i], parts[i])
      ensures parts[i] <= cparts[i] && parts[i] !! dparts[i] && Stores(h, ds[i], tds[i], dparts[i])
    {
      VisitItem(m, tds, tcs, i);
      DefaultKept(h, i);
      assert Position(h, items[i], parts[i], src[i], MergeItems(m, tds[..i], tcs)[i], i, i);
    }

    lemma PositionsApart(src: seq<nat>, i: nat, j: nat, k: nat)
      requires Valid() && j < |src| && k < |src| && j != k && src[j] != src[k]
      ensures PartsOf(j, src[j], i) !! PartsOf(k, src[k], i)
      ensures PartsOf(j, src[j], i) <= ownC + ownD
    {
    }

    /** A position keeps what it stores when the default after it is merged elsewhere. */
    lemma PositionKept(h: Heap, h': Heap, v: Value, part: set<Address>, s: nat, t: Json, j: nat, i: nat)
      requires Valid() && Position(h, v, part, s, t, j, i) && Same(h, h', part)
      ensures Position(h', v, part, s, t, j, i + 1)
    {
      Untouched(h, h', v, t, part);
    }

    lemma Skip(h: Heap, items: seq<Value>, parts: seq<set<Address>>, src: seq<nat>, i: nat)
      requires Valid() && i < |tds| && Progress(h, items, parts, src, i)
      requires !ds[i].Ref? || (i < |cs| && tds[i] == Obj(map[]))
      ensures Progress(h, items, parts, src, i + 1)
    {
      VisitItem(m, tds, tcs, i);
      var ts := MergeItems(m, tds[..i], tcs);
      DefaultKept(h, i);
      if i < |cs| && tds[i].Obj? && tcs[i].Obj? { MergeEmpty(m, tds[i], tcs[i]); }
      assert MergeItems(m, tds[..i + 1], tcs) == ts;
      forall j: nat | j < |ts| ensures Position(h, items[j], parts[j], src[j], ts[j], j, i + 1) {
        PositionKept(h, h, items[j], parts[j], src[j], ts[j], j, i);
      }
    }

    lemma Append(h: Heap, items: seq<Value>, parts: seq<set<Address>>, src: seq<nat>, i: nat)
      requires Valid() && |cs| <= i < |tds| && ds[i].Ref? && Progress(h, items, parts, src, i)
      ensures Progress(h, items + [ds[i]], parts + [dparts[i]], src + [i], i + 1)
    {
      VisitItem(m, tds, tcs, i);
      DefaultKept(h, i);
      AppendedPositions(h, items, parts, src, i);
      AppendedSources(src, i);
    }

    lemma AppendedSources(src: seq<nat>, i: nat)
      requires |cs| <= i && Sources(src, i)
      ensures Sources(src + [i], i + 1)
    {
    }

    lemma AppendedPositions(h: Heap, items: seq<Value>, parts: seq<set<Address>>, src: seq<nat>, i: nat)
      requires Valid() && |cs| <= i < |tds| && ds[i].Ref? && Progress(h, items, parts, src, i)
      ensures var ts, items', parts', src' := MergeItems(m, tds[..i], tcs) + [tds[i]], items + [ds[i]],
              parts + [dparts[i]], src + [i];
              forall j: nat | j < |ts| :: Position(h, items'[j], parts'[j], src'[j], ts[j], j, i + 1)
    {
      DefaultKept(h, i);
      var ts := MergeItems(m, tds[..i], tcs);
      forall j: nat | j < |ts| ensures Position(h, items[j], parts[j], src[j], ts[j], j, i + 1) {
        PositionKept(h, h, items[j], parts[j], src[j], ts[j], j, i);
      }
    }

    lemma MergeAt(h: Heap, h': Heap, items: seq<Value>, parts: seq<set<Address>>, src: seq<nat>, i: nat)
      requires Valid() && i < |tds| && i < |cs| && Progress(h, items, parts, src, i)
      requires ds[i].Ref? && cs[i].Ref? && i < |parts| && SameOutside(h, h', parts[i])
      requires Stores(h', cs[i], MergeItem(m, tds[i], tcs[i]), parts[i] + dparts[i])
      ensures Progress(h', items, parts[i := parts[i] + dparts[i]], src, i + 1)
    {
      VisitItem(m, tds, tcs, i);
      var ts := MergeItems(m, tds[..i], tcs);
      forall j: nat | j < |ts| && j != i ensures Position(h', items[j], parts[j], src[j], ts[j], j, i + 1) {
        PositionsApart(src, i, i, j);
        assert Position(h, items[i], parts[i], src[i], ts[i], i, i);
        PositionKept(h, h', items[j], parts[j], src[j], ts[j], j, i);
      }
    }

    lemma Done(h: Heap, items: seq<Value>, parts: seq<set<Address>>, src: seq<nat>)
      requires Valid() && Progress(h, items, parts, src, |tds|)
      ensures Stores(h, Slice(items, parts), List(MergeItems(m, tds, tcs)), ownC + ownD)
    {
      assert tds[..|tds|] == tds;
      forall j: nat | j < |parts|
        ensures parts[j] <= ownC + ownD && Stores(h, items[j], MergeItems(m, tds, tcs)[j], parts[j])
      {
        DoneAt(h, items, parts, src, j);
      }
      forall j, k | 0 <= j < k < |parts| ensures parts[j] !! parts[k] {
        PositionsApart(src, |tds|, j, k);
      }
    }

    lemma DoneAt(h: Heap, items: seq<Value>, parts: seq<set<Address>>, src: seq<nat>, j: nat)
      requires Valid() && Progress(h, items, parts, src, |tds|) && j < |parts|
      ensures tds[..|tds|] == tds && |items| == |parts| == |MergeItems(m, tds, tcs)|
      ensures parts[j] <= ownC + ownD && Stores(h, items[j], MergeItems(m, tds, tcs)[j], parts[j])
    {
      assert tds[..|tds|] == tds;
      assert Position(h, items[j], parts[j], src[j], MergeItems(m, tds, tcs)[j], j, |tds|);
    }
  }
}
