/** The merges in memory: the changed tree is updated where it is, and what is taken from the default is
    shared with it. */
module MergeMemory {
  import opened Sequences
  import opened Trees
  import opened ResourceComparison
  import opened Merging
  import opened MergeEngine
  import opened Heaps
  import opened OrderIndependence
  import opened Services

  /** The keys a merge takes over from a default map below the root. */
  function TakenKeys(m: Policy, td: Fields): set<string> {
    if m.UserWins? then td.Keys else SetKeys(td)
  }

  /** What the keys of a default hold after it is merged. */
  ghost function MergedKeys(m: Policy, td: Fields, tc: Fields): Fields {
    map k | k in td :: MergeValue(m, k, td[k], Get(tc, k))
  }

  /** Merging the default map at `d` into the map at `a`. */
  ghost function MergeJob(h: Heap, m: Policy, taken: set<string>, a: Address, tc: Fields, ownC: set<Address>,
                          d: Address, td: Fields, ownD: set<Address>): Job
    requires d in h
  {
    Job(MergedKeys(m, td, tc), taken, h, a, tc, ownC, h[d].parts, ownD)
  }

  lemma MergeJobStarts(h: Heap, m: Policy, taken: set<string>, a: Address, tc: Fields, ownC: set<Address>,
                       d: Address, td: Fields, ownD: set<Address>)
    requires StoresMap(h, a, Obj(tc), ownC) && StoresMap(h, d, Obj(td), ownD) && ownC !! ownD && taken <= td.Keys
    ensures var job := MergeJob(h, m, taken, a, tc, ownC, d, td, ownD);
            job.Valid() && job.a in job.h0 && job.goal.Keys == td.Keys && job.Progress(h, td.Keys)
  {
    DefaultParts(h, d, Obj(td), ownD);
    MergeJob(h, m, taken, a, tc, ownC, d, td, ownD).NothingMerged();
  }

  lemma MergeJobEnds(h: Heap, m: Policy, a: Address, tc: Fields, ownC: set<Address>, d: Address, td: Fields,
                     ownD: set<Address>)
    requires d in h
    ensures MergeJob(h, m, TakenKeys(m, td), a, tc, ownC, d, td, ownD).Result() == MergeObj(m, Obj(td), Obj(tc))
  {
  }

  /** The keys of the default `td` that are not shared with the change. */
  function Unshared(td: Fields, shared: set<string>): Fields {
    map k | k in td && k !in shared :: td[k]
  }

  /** The map at `d` refers to the very values of the map at `a` in the keys `shared`, and has nothing else in common
      with it. */
  ghost predicate Shares(h: Heap, a: Address, ownC: set<Address>, d: Address, td: Fields, shared: set<string>) {
    && a in h && d in h && d !in ownC
    && forall k | k in td && k in h[d].entries && k in h[d].parts ::
         if k in shared
         then k in h[a].entries && k in h[a].parts && h[d].entries[k] == h[a].entries[k] &&
           h[d].parts[k] == h[a].parts[k]
         else h[d].parts[k] !! ownC
  }

  /** Merging at the root, where shared values are skipped because they are equal. */
  ghost function RootJob(h: Heap, m: Policy, a: Address, tc: Fields, ownC: set<Address>, d: Address, td: Fields,
                         ownD: set<Address>, shared: set<string>): Job
    requires d in h
  {
    var own := Unshared(td, shared);
    Job(MergedKeys(m, own, tc), SetKeys(own), h, a, tc, ownC, map k | k in h[d].parts && k in own :: h[d].parts[k],
        ownD - ownC)
  }

  lemma RootJobStarts(h: Heap, m: Policy, a: Address, tc: Fields, ownC: set<Address>, d: Address, td: Fields,
                      ownD: set<Address>, shared: set<string>)
    requires StoresMap(h, a, Obj(tc), ownC) && StoresMap(h, d, Obj(td), ownD) && Shares(h, a, ownC, d, td, shared)
    ensures var job := RootJob(h, m, a, tc, ownC, d, td, ownD, shared);
            job.Valid() && job.a in job.h0 && job.goal.Keys == td.Keys - shared && job.Progress(h, td.Keys - shared)
  {
    DefaultParts(h, d, Obj(td), ownD);
    RootJob(h, m, a, tc, ownC, d, td, ownD, shared).NothingMerged();
  }

  /** Shared values store the same trees. */
  lemma SharedTrees(h: Heap, a: Address, tc: Fields, ownC: set<Address>, d: Address, td: Fields, ownD: set<Address>,
                    shared: set<string>, k: string)
    requires StoresMap(h, a, Obj(tc), ownC) && StoresMap(h, d, Obj(td), ownD) && Shares(h, a, ownC, d, td, shared)
    requires k in shared && k in td
    ensures k in tc && td[k] == tc[k] && k in h[a].entries && k in h[a].parts && h[a].parts[k] <= ownC
    ensures Stores(h, h[a].entries[k], tc[k], h[a].parts[k])
  {
    assert StoresEntry(h, d, h[d], k, td[k], ownD);
    assert StoresEntry(h, a, h[a], k, tc[k], ownC);
    StoresOneTree(h, h[d].entries[k], td[k], h[d].parts[k], tc[k], h[a].parts[k]);
  }

  /** Equal values need not be merged. */
  lemma EqualSkipped(m: Policy, td: Fields, tc: Fields, shared: set<string>)
    requires forall k | k in shared && k in td :: k in tc && td[k] == tc[k]
    ensures var goal := MergedKeys(m, Unshared(td, shared), tc);
            (map k | k in tc.Keys + SetKeys(Unshared(td, shared)) :: if k in goal then goal[k] else tc[k]) ==
              Merge(m, td, tc)
  {
    var own := Unshared(td, shared);
    var goal, merged := MergedKeys(m, own, tc), Merge(m, td, tc);
    var r := map k | k in tc.Keys + SetKeys(own) :: if k in goal then goal[k] else tc[k];
    assert r.Keys == merged.Keys;
    forall k | k in r ensures Get(r, k) == Get(merged, k) {
      if k in shared && k in td {
        MergeSame(m, k, tc[k]);
      }
    }
    SameFields(r, merged);
  }

  lemma RootJobEnds(h: Heap, m: Policy, a: Address, tc: Fields, ownC: set<Address>, d: Address, td: Fields,
                    ownD: set<Address>, shared: set<string>)
    requires StoresMap(h, a, Obj(tc), ownC) && StoresMap(h, d, Obj(td), ownD) && Shares(h, a, ownC, d, td, shared)
    ensures RootJob(h, m, a, tc, ownC, d, td, ownD, shared).Result() == Obj(Merge(m, td, tc))
  {
    forall k | k in shared && k in td ensures k in tc && td[k] == tc[k] {
      SharedTrees(h, a, tc, ownC, d, td, ownD, shared, k);
    }
    EqualSkipped(m, td, tc, shared);
  }

  /** The shared values are where they were. */
  ghost predicate SharedKept(h0: Heap, h: Heap, a: Address, shared: set<string>) {
    && a in h0 && a in h
    && forall k | k in shared && k in h0[a].entries && k in h0[a].parts ::
         k in h[a].entries && k in h[a].parts && h[a].entries[k] == h0[a].entries[k] && h[a].parts[k] == h0[a].parts[k]
  }

  /** What the next root key needs: it is stored on both sides, and unless it is shared the two have nothing in
      common. */
  ghost predicate RootKeyHolds(h0: Heap, h: Heap, a: Address, d: Address, shared: set<string>, k: string, td: Json,
                               tc: Json)
    requires d in h0
  {
    && k in h0[d].entries && k in h0[d].parts && Stores(h, h0[d].entries[k], td, h0[d].parts[k])
    && a in h && KeyHolds(h, h[a], a, k, tc)
    && if k in shared then td == tc else a !in h0[d].parts[k] && Owned(h[a].parts, k) !! h0[d].parts[k]
  }

  lemma RootKeyReady(h0: Heap, h: Heap, m: Policy, a: Address, tc: Fields, ownC: set<Address>, d: Address, td: Fields,
                     ownD: set<Address>, shared: set<string>, todo: set<string>, k: string)
    requires StoresMap(h0, a, Obj(tc), ownC) && StoresMap(h0, d, Obj(td), ownD) && Shares(h0, a, ownC, d, td, shared)
    requires var job := RootJob(h0, m, a, tc, ownC, d, td, ownD, shared); job.Valid() && job.Progress(h, todo)
    requires SharedKept(h0, h, a, shared) && k in td && (k !in shared ==> k in todo)
    ensures RootKeyHolds(h0, h, a, d, shared, k, td[k], Get(tc, k))
  {
    if k in shared {
      SharedKeyReady(h0, h, m, a, tc, ownC, d, td, ownD, shared, todo, k);
    } else {
      UnsharedKeyReady(h0, h, m, a, tc, ownC, d, td, ownD, shared, todo, k);
    }
  }

  lemma UnsharedKeyReady(h0: Heap, h: Heap, m: Policy, a: Address, tc: Fields, ownC: set<Address>, d: Address,
                         td: Fields, ownD: set<Address>, shared: set<string>, todo: set<string>, k: string)
    requires StoresMap(h0, a, Obj(tc), ownC) && StoresMap(h0, d, Obj(td), ownD) && Shares(h0, a, ownC, d, td, shared)
    requires var job := RootJob(h0, m, a, tc, ownC, d, td, ownD, shared); job.Valid() && job.Progress(h, todo)
    requires k in todo && k in td && k !in shared
    ensures RootKeyHolds(h0, h, a, d, shared, k, td[k], Get(tc, k))
  {
    var job := RootJob(h0, m, a, tc, ownC, d, td, ownD, shared);
    job.PartsApart(k);
    assert StoresEntry(h0, d, h0[d], k, td[k], ownD);
    Untouched(h0, h, h0[d].entries[k], td[k], h0[d].parts[k]);
    if k in h[a].parts { assert job.KeyState(h, h[a], todo, k); }
  }

  lemma SharedKeyReady(h0: Heap, h: Heap, m: Policy, a: Address, tc: Fields, ownC: set<Address>, d: Address, td: Fields,
                       ownD: set<Address>, shared: set<string>, todo: set<string>, k: string)
    requires StoresMap(h0, a, Obj(tc), ownC) && StoresMap(h0, d, Obj(td), ownD) && Shares(h0, a, ownC, d, td, shared)
    requires var job := RootJob(h0, m, a, tc, ownC, d, td, ownD, shared); job.Valid() && job.Progress(h, todo)
    requires SharedKept(h0, h, a, shared) && k in shared && k in td
    ensures RootKeyHolds(h0, h, a, d, shared, k, td[k], Get(tc, k))
  {
    SharedTrees(h0, a, tc, ownC, d, td, ownD, shared, k);
    assert StoresEntry(h0, d, h0[d], k, td[k], ownD);
    assert RootJob(h0, m, a, tc, ownC, d, td, ownD, shared).KeyState(h, h[a], todo, k);
  }

  /** One more root key is visited. */
  lemma NextRootKey(h0: Heap, h: Heap, h': Heap, m: Policy, a: Address, tc: Fields, ownC: set<Address>, d: Address,
                    td: Fields, ownD: set<Address>, shared: set<string>, todo: set<string>, k: string)
    requires d in h0 && k in h0[d].parts && k in todo && k in td && SharedKept(h0, h, a, shared)
    requires var job := RootJob(h0, m, a, tc, ownC, d, td, ownD, shared);
             job.Valid() && job.Progress(h, todo - shared)
    requires if k in shared then h' == h
             else KeyMerged(h, h', a, k, !td[k].Null?, MergeValue(m, k, td[k], Get(tc, k)), h0[d].parts[k])
    ensures RootJob(h0, m, a, tc, ownC, d, td, ownD, shared).Progress(h', todo - {k} - shared)
    ensures SharedKept(h0, h', a, shared)
  {
    if k in shared {
      assert todo - {k} - shared == todo - shared;
    } else {
      assert todo - {k} - shared == (todo - shared) - {k};
      RootKeyMerged(h0, h, h', m, a, tc, ownC, d, td, ownD, shared, k);
      RootJob(h0, m, a, tc, ownC, d, td, ownD, shared).NextKey(h, h', todo - shared, k);
      SharedElsewhere(h0, h, h', a, shared, k, !td[k].Null?, MergeValue(m, k, td[k], Get(tc, k)), h0[d].parts[k]);
    }
  }

  lemma RootKeyMerged(h0: Heap, h: Heap, h': Heap, m: Policy, a: Address, tc: Fields, ownC: set<Address>, d: Address,
                      td: Fields, ownD: set<Address>, shared: set<string>, k: string)
    requires d in h0 && k in td && k !in shared && k in h0[d].parts
    requires KeyMerged(h, h', a, k, !td[k].Null?, MergeValue(m, k, td[k], Get(tc, k)), h0[d].parts[k])
    ensures var job := RootJob(h0, m, a, tc, ownC, d, td, ownD, shared); k in job.goal && job.Merged(h, h', k)
  {
  }

  lemma SharedElsewhere(h0: Heap, h: Heap, h': Heap, a: Address, shared: set<string>, k: string, adds: bool,
                        merged: Json, own: set<Address>)
    requires SharedKept(h0, h, a, shared) && k !in shared && KeyMerged(h, h', a, k, adds, merged, own)
    ensures SharedKept(h0, h', a, shared)
  {
  }

  /** The default is left as it was. */
  lemma DefaultLeft(h0: Heap, h: Heap, m: Policy, a: Address, tc: Fields, ownC: set<Address>, d: Address, td: Fields,
                    ownD: set<Address>, shared: set<string>)
    requires StoresMap(h0, a, Obj(tc), ownC) && StoresMap(h0, d, Obj(td), ownD) && Shares(h0, a, ownC, d, td, shared)
    requires var job := RootJob(h0, m, a, tc, ownC, d, td, ownD, shared); job.Valid() && job.Progress(h, {})
    requires SharedKept(h0, h, a, shared)
    ensures StoresMap(h, d, Obj(td), ownD)
  {
    forall k | k in td ensures StoresEntry(h, d, h[d], k, td[k], ownD) {
      assert StoresEntry(h0, d, h0[d], k, td[k], ownD);
      if k in shared {
        SharedKeyReady(h0, h, m, a, tc, ownC, d, td, ownD, shared, {}, k);
      } else {
        Untouched(h0, h, h0[d].entries[k], td[k], h0[d].parts[k]);
      }
    }
  }

  /** One configuration after the other merged over the summary. */
  function Fold(m: Policy, t: Fields, cs: seq<Fields>): Fields
    decreases |cs|
  {
    if cs == [] then t else Fold(m, Merge(m, t, cs[0]), cs[1..])
  }

  predicate FoldDefined(m: Policy, t: Fields, cs: seq<Fields>)
    decreases |cs|
  {
    cs == [] || (MergeObjDefined(m, Obj(t), Obj(cs[0])) && FoldDefined(m, Merge(m, t, cs[0]), cs[1..]))
  }

  /** The memory of the operator. */
  class Memory {
    var cells: Heap

    constructor (h: Heap)
      ensures cells == h
    {
      cells := h;
    }

    /** The tree a value stores. */
    method Read(v: Value, ghost t: Json, ghost own: set<Address>) returns (r: Json)
      requires Stores(cells, v, t, own)
      ensures r == t
      decreases t
    {
      if v.Leaf? {
        r := v.t;
      } else if v.Ref? {
        r := ReadMap(v.a, t, own);
      } else {
        var items: seq<Json> := [];
        for i := 0 to |v.items|
          invariant items == t.items[..i]
        {
          var item := Read(v.items[i], t.items[i], v.parts[i]);
          Prefix(t.items, i);
          items := items + [item];
        }
        r := List(items);
      }
    }

    method ReadMap(a: Address, ghost t: Json, ghost own: set<Address>) returns (r: Json)
      requires t.Obj? && StoresMap(cells, a, t, own)
      ensures r == t
      decreases t, 0
    {
      var c := cells[a];
      var fields: Fields := map[];
      var todo := c.entries.Keys;
      while todo != {}
        invariant todo <= t.fields.Keys
        invariant fields.Keys == t.fields.Keys - todo
        invariant forall k | k in fields :: fields[k] == t.fields[k]
      {
        var k :| k in todo;
        assert StoresEntry(cells, a, c, k, t.fields[k], own);
        var v := Read(c.entries[k], t.fields[k], c.parts[k]);
        fields := fields[k := v];
        todo := todo - {k};
      }
      assert fields == t.fields;
      r := Obj(fields);
    }

    /** Merges the default `d` of one key into the map at `final`, where it is. The merge by size first
        compares the two trees and leaves equal ones alone. */
    method MergeKey(m: Policy, key: string, d: Value, final: Address, ghost td: Json,
                    ghost ownD: set<Address>, ghost tc: Json)
      requires Stores(cells, d, td, ownD) && final in cells && final !in ownD
      requires KeyHolds(cells, cells[final], final, key, tc) && Owned(cells[final].parts, key) !! ownD
      requires MergeDefined(m, key, td, tc)
      modifies this
      ensures KeyMerged(old(cells), cells, final, key, m.UserWins? || !td.Null?, MergeValue(m, key, td, tc), ownD)
      decreases td, 2
    {
      var c := cells[final];
      var changed := if key in c.entries then c.entries[key] else Leaf(Null);
      DefinedSame(m, td);
      if m.LargestWins? {
        var equal := SameTree(d, changed, td, ownD, tc, Owned(c.parts, key));
        if equal {
          MergeSame(m, key, td);
          return;
        }
      }
      if changed == Leaf(Null) {
        cells := cells[final := Cell(c.entries[key := d], c.parts[key := ownD])];
        KeyAssigned(old(cells), final, key, d, td, ownD, ownD);
      } else if (d.Ref? && changed.Ref?) || (d.Slice? && changed.Slice?) {
        MergeBelow(m, key, d, changed, final, td, ownD, tc);
      } else if d.Leaf? && m.LargestWins? && key in COMPARABLE_KEYS {
        TakeLarger(m.q, key, d, changed, final, td, ownD, tc);
      }
    }

    /** The value of a key is merged where it is. */
    method MergeBelow(m: Policy, key: string, d: Value, changed: Value, final: Address, ghost td: Json,
                      ghost ownD: set<Address>, ghost tc: Json)
      requires Stores(cells, d, td, ownD) && final in cells && final !in ownD
      requires KeyHolds(cells, cells[final], final, key, tc) && Owned(cells[final].parts, key) !! ownD
      requires key in cells[final].entries && changed == cells[final].entries[key]
      requires (d.Ref? && changed.Ref? && MergeObjDefined(m, td, tc)) ||
               (d.Slice? && changed.Slice? && MergeItemsDefined(m, td.items, tc.items))
      modifies this
      ensures KeyMerged(old(cells), cells, final, key, true, MergeValue(m, key, td, tc), ownD)
      decreases td, 1
    {
      var c := cells[final];
      var merged := changed;
      if d.Ref? {
        MergeMaps(m, changed.a, d.a, tc, c.parts[key], td, ownD);
      } else {
        merged := MergeSlices(m, changed, d, tc, c.parts[key], td, ownD);
      }
      KeyMergedBelow(old(cells), cells, final, key, merged, MergeValue(m, key, td, tc), ownD);
      cells := cells[final := Cell(c.entries[key := merged], c.parts[key := c.parts[key] + ownD])];
    }

    /** The larger of two settings; the change keeps its place unless the default is larger. */
    method TakeLarger(q: Quantities, key: string, d: Value, changed: Value, final: Address, ghost td: Json,
                      ghost ownD: set<Address>, ghost tc: Json)
      requires d.Leaf? && Stores(cells, d, td, ownD) && final in cells && key in COMPARABLE_KEYS && !tc.Null?
      requires KeyHolds(cells, cells[final], final, key, tc)
      requires key in cells[final].entries && changed == cells[final].entries[key]
      modifies this
      ensures KeyMerged(old(cells), cells, final, key, !td.Null?, MergeValue(LargestWins(q), key, td, tc), ownD)
    {
      var c := cells[final];
      var tree := Read(changed, tc, c.parts[key]);
      LargerSelects(q, td, tc);
      if Larger(q, d.t, tree) != tree {
        cells := cells[final := Cell(c.entries[key := d], c.parts[key := {}])];
        KeyAssigned(old(cells), final, key, d, td, {}, ownD);
      }
    }

    /** Go's deep comparison. */
    method SameTree(v: Value, w: Value, ghost tv: Json, ghost ownV: set<Address>, ghost tw: Json,
                    ghost ownW: set<Address>) returns (same: bool)
      requires Stores(cells, v, tv, ownV) && Stores(cells, w, tw, ownW)
      ensures same <==> tv == tw
    {
      var x := Read(v, tv, ownV);
      var y := Read(w, tw, ownW);
      return x == y;
    }

    /** Merges a default slice, position by position. */
    method MergeSlices(m: Policy, changed: Value, d: Value, ghost tc: Json, ghost ownC: set<Address>, ghost td: Json,
                       ghost ownD: set<Address>)
      returns (r: Value)
      requires changed.Slice? && d.Slice? && Stores(cells, changed, tc, ownC) && Stores(cells, d, td, ownD)
      requires ownC !! ownD && MergeItemsDefined(m, td.items, tc.items)
      modifies this
      ensures Stores(cells, r, List(MergeItems(m, td.items, tc.items)), ownC + ownD)
      ensures SameOutside(old(cells), cells, ownC)
      decreases td, 0, 1
    {
      ghost var job := SliceJob(m, cells, changed.items, changed.parts, tc.items, ownC, d.items, d.parts, td.items,
                                ownD);
      var items := changed.items;
      ghost var parts: seq<set<Address>>, src: seq<nat> := changed.parts, Identity(|changed.items|);
      job.NothingMerged();
      for i: nat := 0 to |d.items|
        invariant job.Progress(cells, items, parts, src, i)
      {
        items, parts, src := MergeSliceItem(m, changed.items, d.items, i, items, parts, src, job, td);
      }
      job.Done(cells, items, parts, src);
      r := Slice(items, parts);
    }

    /** One position of the default slice: a map is appended, or merged where it meets a map. */
    method MergeSliceItem(m: Policy, cs: seq<Value>, ds: seq<Value>, i: nat, items: seq<Value>,
                          ghost parts: seq<set<Address>>, ghost src: seq<nat>, ghost job: SliceJob, ghost td: Json)
      returns (items': seq<Value>, ghost parts': seq<set<Address>>, ghost src': seq<nat>)
      requires job.Valid() && job.m == m && job.cs == cs && job.ds == ds && td.List? && td.items == job.tds
      requires i < |ds| && job.Progress(cells, items, parts, src, i) && MergeItemsDefined(m, job.tds, job.tcs)
      modifies this
      ensures job.Progress(cells, items', parts', src', i + 1)
      decreases td, 0, 0
    {
      ghost var before := cells;
      items', parts', src' := items, parts, src;
      job.DefaultKept(cells, i);
      if ds[i].Ref? {
        if |cs| <= i {
          job.Append(cells, items, parts, src, i);
          items', parts', src' := items + [ds[i]], parts + [job.dparts[i]], src + [i];
        } else {
          job.ItemReady(cells, items, parts, src, i);
          if cells[ds[i].a].entries != map[] {
            DefinedItem(m, job.tds, job.tcs, i);
            MergeMaps(m, items[i].a, ds[i].a, job.tcs[i], parts[i], td.items[i], job.dparts[i]);
            job.MergeAt(before, cells, items, parts, src, i);
            parts' := parts[i := parts[i] + job.dparts[i]];
          } else {
            job.Skip(cells, items, parts, src, i);
          }
        }
      } else {
        job.Skip(cells, items, parts, src, i);
      }
    }

    /** Merges the default map at `d` into the map at `a`: afterwards `a` stores the merged tree, and only maps
        of the changed tree were written to. */
    method MergeMaps(m: Policy, a: Address, d: Address, ghost tc: Json, ghost ownC: set<Address>, ghost td: Json,
                     ghost ownD: set<Address>)
      requires tc.Obj? && td.Obj? && StoresMap(cells, a, tc, ownC) && StoresMap(cells, d, td, ownD) && ownC !! ownD
      requires MergeObjDefined(m, td, tc)
      modifies this
      ensures StoresMap(cells, a, MergeObj(m, td, tc), ownC + ownD)
      ensures SameOutside(old(cells), cells, ownC)
      decreases td, 0
    {
      var defaults := cells[d];
      ghost var job := MergeJob(cells, m, TakenKeys(m, td.fields), a, tc.fields, ownC, d, td.fields, ownD);
      MergeJobStarts(cells, m, TakenKeys(m, td.fields), a, tc.fields, ownC, d, td.fields, ownD);
      var todo := defaults.entries.Keys;
      while todo != {}
        invariant todo <= td.fields.Keys
        invariant job.Progress(cells, todo)
      {
        var k :| k in todo;
        ghost var before := cells;
        KeyReady(job, d, td.fields, before, todo, k);
        MergeKey(m, k, defaults.entries[k], a, td.fields[k], defaults.parts[k], Get(tc.fields, k));
        job.NextKey(before, cells, todo, k);
        todo := todo - {k};
      }
      job.AllMerged(cells);
      MergeJobEnds(old(cells), m, a, tc.fields, ownC, d, td.fields, ownD);
    }

    /** Merges two whole configurations: values that are equal already are skipped, and the default is left
        as it was. The default may refer to values of the change, each in its own key: they are equal. */
    method MergeInto(m: Policy, a: Address, d: Address, ghost tc: Fields, ghost ownC: set<Address>, ghost td: Fields,
                     ghost ownD: set<Address>, ghost shared: set<string>)
      requires StoresMap(cells, a, Obj(tc), ownC) && StoresMap(cells, d, Obj(td), ownD) &&
               Shares(cells, a, ownC, d, td, shared)
      requires MergeObjDefined(m, Obj(td), Obj(tc))
      modifies this
      ensures StoresMap(cells, a, Obj(Merge(m, td, tc)), ownC + ownD)
      ensures StoresMap(cells, d, Obj(td), ownD)
      ensures SameOutside(old(cells), cells, ownC)
    {
      ghost var h := cells;
      var defaults := cells[d];
      ghost var job := RootJob(h, m, a, tc, ownC, d, td, ownD, shared);
      RootJobStarts(h, m, a, tc, ownC, d, td, ownD, shared);
      var todo := defaults.entries.Keys;
      while todo != {}
        invariant todo <= td.Keys
        invariant job.Progress(cells, todo - shared) && SharedKept(h, cells, a, shared)
      {
        var k :| k in todo;
        ghost var before := cells;
        RootKeyReady(h, before, m, a, tc, ownC, d, td, ownD, shared, todo - shared, k);
        MergeRootKey(m, k, defaults.entries[k], a, td[k], defaults.parts[k], Get(tc, k));
        NextRootKey(h, before, cells, m, a, tc, ownC, d, td, ownD, shared, todo, k);
        todo := todo - {k};
      }
      assert {} - shared == {};
      job.AllMerged(cells);
      RootJobEnds(h, m, a, tc, ownC, d, td, ownD, shared);
      assert ownC + (ownD - ownC) == ownC + ownD;
      DefaultLeft(h, cells, m, a, tc, ownC, d, td, ownD, shared);
    }

    /** One key of the root: equal values are skipped, others are merged. */
    method MergeRootKey(m: Policy, key: string, d: Value, final: Address, ghost td: Json,
                        ghost ownD: set<Address>, ghost tc: Json)
      requires Stores(cells, d, td, ownD) && final in cells && KeyHolds(cells, cells[final], final, key, tc)
      requires td != tc ==> final !in ownD && Owned(cells[final].parts, key) !! ownD
      requires MergeDefined(m, key, td, tc)
      modifies this
      ensures td == tc ==> cells == old(cells)
      ensures KeyMerged(old(cells), cells, final, key, !td.Null?, MergeValue(m, key, td, tc), ownD)
    {
      var changed := if key in cells[final].entries then cells[final].entries[key] else Leaf(Null);
      var equal := SameTree(d, changed, td, ownD, tc, Owned(cells[final].parts, key));
      MergeSame(m, key, td);
      if !equal {
        MergeKey(m, key, d, final, td, ownD, tc);
      }
    }

    /** Folds configurations into a summary, as the operator does with one custom resource of all CRs: each
        configuration is merged over the summary where it is and becomes the new summary. The summaries share
        maps, and still every step reads the trees as they were given. */
    method MergeAll(m: Policy, summary: Address, crs: seq<Address>, ghost t: Fields,
                    ghost own: set<Address>, ghost trees: seq<Fields>,
                    ghost owns: seq<set<Address>>) returns (r: Address, ghost all: set<Address>)
      requires StoresMap(cells, summary, Obj(t), own) && StoresAll(cells, crs, trees, owns, own)
      requires FoldDefined(m, t, trees)
      modifies this
      ensures StoresMap(cells, r, Obj(Fold(m, t, trees)), all)
    {
      r, all := summary, own;
      ghost var now := t;
      for i := 0 to |crs|
        invariant StoresMap(cells, r, Obj(now), all) && StoresAll(cells, crs[i..], trees[i..], owns[i..], all)
        invariant FoldDefined(m, now, trees[i..]) && Fold(m, now, trees[i..]) == Fold(m, t, trees)
      {
        Suffix(crs, i);
        Suffix(trees, i);
        Suffix(owns, i);
        ghost var before := cells;
        NothingShared(before, crs[i], trees[i], owns[i], r, now, all);
        MergeInto(m, crs[i], r, trees[i], owns[i], now, all, {});
        OthersKept(before, cells, crs[i..], trees[i..], owns[i..], all);
        r, all, now := crs[i], owns[i] + all, Merge(m, now, trees[i]);
      }
    }
  }

  /** Configurations with disjoint maps share no values. */
  lemma NothingShared(h: Heap, a: Address, tc: Fields, ownC: set<Address>, d: Address, td: Fields, ownD: set<Address>)
    requires StoresMap(h, a, Obj(tc), ownC) && StoresMap(h, d, Obj(td), ownD) && ownC !! ownD
    ensures Shares(h, a, ownC, d, td, {})
  {
    DefaultParts(h, d, Obj(td), ownD);
  }

  /** What the entries of CRs say about one custom resource of a service, in order. */
  function Contributions(ctx: Context, ops: seq<Service>, name: string, cr: string): seq<Fields> {
    if ops == [] then []
    else (if ops[0].name == name && ops[0].spec.Some? && cr in ops[0].spec.value then [CrOf(ctx, ops[0], name, cr)]
          else []) +
         Contributions(ctx, ops[1..], name, cr)
  }

  lemma FoldFirst(m: Policy, t: Fields, c: Fields, cs: seq<Fields>)
    ensures Fold(m, t, [c] + cs) == Fold(m, Merge(m, t, c), cs)
  {
    assert ([c] + cs)[1..] == cs;
  }

  lemma NoContribution(cs: seq<Fields>)
    ensures [] + cs == cs
  {
  }

  /** What folding whole CRs into a summary makes of one custom resource is that fold. */
  lemma {:induction false} CrIsFold(ctx: Context, ss: seq<Service>, ops: seq<Service>, name: string, cr: string)
    ensures CrAt(MergeOperators(ctx, ss, ops), name, cr) ==
            Fold(PolicyFor(ctx, name, cr), CrAt(ss, name, cr), Contributions(ctx, ops, name, cr))
    decreases |ops|
  {
    if ops != [] {
      OneEntryAtCr(ctx, ss, ops[0], name, cr);
      CrIsFold(ctx, MergeOperator(ctx, ss, ops[0]), ops[1..], name, cr);
      FoldFirst(PolicyFor(ctx, name, cr), CrAt(ss, name, cr), CrOf(ctx, ops[0], name, cr),
                Contributions(ctx, ops[1..], name, cr));
      NoContribution(Contributions(ctx, ops[1..], name, cr));
    }
  }
}
