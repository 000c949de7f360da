/** The scaling in memory: the first level of the original is copied, what lies deeper is shared with the copy
    and scaled in place. */
module ScaleMemory {
  import opened Trees
  import opened ResourceComparison
  import opened Shrinking
  import opened MergeEngine
  import opened Heaps
  import opened MergeMemory

  /** References and slices stay where they are. */
  ghost predicate RefsKept(c: Cell, c': Cell) {
    forall k | k in c.entries && k in c.parts && !c.entries[k].Leaf? ::
      k in c'.entries && k in c'.parts && c'.entries[k] == c.entries[k] && c'.parts[k] == c.parts[k]
  }

  /** `v` is `d` itself, or the copy of a map that `d` refers to. */
  ghost predicate Mirrors(h: Heap, d: Value, v: Value, own: set<Address>) {
    d == v || (d.Ref? && v.Ref? && d.a in h && v.a in h && h[d.a] == h[v.a] && d.a !in own && v.a in own)
  }

  /** The address of the original, when `v` is a copy of it. */
  ghost function Top(d: Value, v: Value): set<Address> {
    if d != v && d.Ref? then {d.a} else {}
  }

  /** The maps of the original's tree, when the copy owns `own`. */
  ghost function OriginalOwn(d: Value, v: Value, own: set<Address>): set<Address> {
    if d != v && d.Ref? && v.Ref? then own - {v.a} + {d.a} else own
  }

  lemma MirrorStores(h: Heap, d: Value, v: Value, t: Json, own: set<Address>)
    requires Stores(h, v, t, own) && Mirrors(h, d, v, own)
    ensures Stores(h, d, t, OriginalOwn(d, v, own))
  {
    if d != v {
      var own' := OriginalOwn(d, v, own);
      forall k | k in t.fields ensures StoresEntry(h, d.a, h[d.a], k, t.fields[k], own') {
        assert StoresEntry(h, v.a, h[v.a], k, t.fields[k], own);
      }
    }
  }

  /** What is left of a value of the original: of a map, the scalars stay and what lies deeper is scaled; a list
      is scaled where it is. */
  function AfterScaling(q: Quantities, e: Extreme, t: Json, u: Json): Json {
    if t.Obj? then
      Obj(map k | k in t.fields :: if t.fields[k].Scalar() then t.fields[k] else Field(ShrinkValue(q, e, t, u), k))
    else if t.List? then ShrinkValue(q, e, t, u)
    else t
  }

  lemma StoredKind(h: Heap, v: Value, t: Json, own: set<Address>)
    requires Stores(h, v, t, own)
    ensures (v.Leaf? <==> t.Scalar()) && (v.Ref? <==> t.Obj?) && (v.Slice? <==> t.List?)
    ensures v.Leaf? ==> v.t == t
    ensures v.Ref? ==> v.a in h && v.a in own
  {
  }

  lemma ShrinkKeepsMap(q: Quantities, e: Extreme, t: Json, u: Json)
    requires t.Obj?
    ensures var r := ShrinkValue(q, e, t, u); r.Obj? && t.fields.Keys <= r.fields.Keys
  {
  }

  /** What is left of the original map once its copy `v` was scaled. */
  lemma OriginalAfter(h: Heap, h': Heap, q: Quantities, e: Extreme, d: Value, v: Value, t: Json, u: Json,
                      own: set<Address>)
    requires Stores(h, v, t, own) && Mirrors(h, d, v, own) && d != v
    requires Stores(h', v, ShrinkValue(q, e, t, u), own) && v.a in h' && RefsKept(h[v.a], h'[v.a])
    requires d.a in h' && h'[d.a] == h[d.a]
    ensures Stores(h', d, AfterScaling(q, e, t, u), OriginalOwn(d, v, own))
  {
    var own', after := OriginalOwn(d, v, own), AfterScaling(q, e, t, u);
    var scaled := ShrinkValue(q, e, t, u);
    ShrinkKeepsMap(q, e, t, u);
    forall k | k in t.fields ensures StoresEntry(h', d.a, h'[d.a], k, after.fields[k], own') {
      var entry := h[v.a].entries[k];
      assert StoresEntry(h, v.a, h[v.a], k, t.fields[k], own);
      StoredKind(h, entry, t.fields[k], h[v.a].parts[k]);
      if !t.fields[k].Scalar() {
        assert StoresEntry(h', v.a, h'[v.a], k, scaled.fields[k], own);
        assert after.fields[k] == scaled.fields[k];
      }
    }
  }

  /** Scaling the keys of a map: `tc` says how. */
  ghost function ScaledKeys(q: Quantities, e: Extreme, td: Fields, tc: Fields): Fields {
    map k | k in tc :: ShrinkValue(q, e, Get(td, k), tc[k])
  }

  ghost function SetScalars(tc: Fields): set<string> {
    set k | k in tc && tc[k].Scalar() && tc[k] != Null
  }

  ghost function ScaleJob(h: Heap, q: Quantities, e: Extreme, a: Address, td: Fields,
                          own: set<Address>, tc: Fields): Job {
    Job(ScaledKeys(q, e, td, tc), SetScalars(tc), h, a, td, own, map[], {})
  }

  lemma ScaleJobStarts(h: Heap, q: Quantities, e: Extreme, a: Address, td: Fields, own: set<Address>, tc: Fields)
    requires StoresMap(h, a, Obj(td), own)
    ensures var job := ScaleJob(h, q, e, a, td, own, tc);
            job.Valid() && job.a in job.h0 && job.goal.Keys == tc.Keys && job.Progress(h, tc.Keys)
    ensures ScaleJob(h, q, e, a, td, own, tc).Result() == ShrinkObj(q, e, Obj(td), Obj(tc))
  {
    ScaleJob(h, q, e, a, td, own, tc).NothingMerged();
    ScaleJobResult(h, q, e, a, td, own, tc);
  }

  lemma ScaleJobResult(h: Heap, q: Quantities, e: Extreme, a: Address, td: Fields, own: set<Address>, tc: Fields)
    ensures ScaleJob(h, q, e, a, td, own, tc).Result() == ShrinkObj(q, e, Obj(td), Obj(tc))
  {
    var r, s := ScaleJob(h, q, e, a, td, own, tc).Result().fields, ShrinkObj(q, e, Obj(td), Obj(tc)).fields;
    forall k | k in r ensures r[k] == s[k] {
      GetShrunk(q, e, Obj(td), Obj(tc), k);
    }
  }

  /** Keys that are still to be visited are as they were. */
  ghost predicate Unvisited(c0: Cell, c: Cell, todo: set<string>) {
    forall k | k in todo :: (k in c0.entries <==> k in c.entries) && (k in c0.entries ==> c.entries[k] == c0.entries[k])
  }

  /** The value of a key; null when the map has no such key. */
  function Entry(c: Cell, key: string): Value {
    if key in c.entries then c.entries[key] else Leaf(Null)
  }

  /** What scaling one key of the map at `final` leaves behind: the scaled value there, references and slices
      where they were, and of an original that was copied what scaling leaves of it. */
  ghost predicate KeyScaled(h: Heap, h': Heap, q: Quantities, e: Extreme, key: string, d: Value, final: Address,
                            td: Json, tc: Json)
    requires final in h && final in h'
  {
    var v := Entry(h[final], key);
    && KeyMerged(h, h', final, key, tc.Scalar() && !tc.Null?, ShrinkValue(q, e, td, tc), Top(d, v))
    && (d == v ==> RefsKept(h[final], h'[final]))
    && (d != v ==> Stores(h', d, AfterScaling(q, e, td, tc), OriginalOwn(d, v, Owned(h[final].parts, key))))
  }

  /** A key can be scaled: `d` is its value, or the original its value was copied from. */
  ghost predicate Scalable(h: Heap, key: string, d: Value, final: Address, td: Json) {
    && final in h && KeyHolds(h, h[final], final, key, td) && d != Ref(final)
    && Mirrors(h, d, Entry(h[final], key), Owned(h[final].parts, key))
  }

  lemma OriginalStored(h: Heap, key: string, d: Value, final: Address, td: Json)
    requires Scalable(h, key, d, final, td)
    ensures var v, own := Entry(h[final], key), Owned(h[final].parts, key);
            Stores(h, v, td, own) && Stores(h, d, td, OriginalOwn(d, v, own)) && final !in OriginalOwn(d, v, own)
  {
    var v, own := Entry(h[final], key), Owned(h[final].parts, key);
    MirrorStores(h, d, v, td, own);
  }

  /** Where scaling changes nothing, it may be skipped. */
  lemma NothingScaled(h: Heap, q: Quantities, e: Extreme, key: string, d: Value, final: Address, td: Json, tc: Json)
    requires Scalable(h, key, d, final, td) && ShrinkValue(q, e, td, tc) == td
    ensures KeyScaled(h, h, q, e, key, d, final, td, tc)
  {
    OriginalStored(h, key, d, final, td);
    StoredKind(h, d, td, OriginalOwn(d, Entry(h[final], key), Owned(h[final].parts, key)));
    AfterNothing(q, e, td, tc);
  }

  lemma AfterNothing(q: Quantities, e: Extreme, td: Json, tc: Json)
    requires ShrinkValue(q, e, td, tc) == td
    ensures AfterScaling(q, e, td, tc) == td
  {
    if td.Obj? {
      SameFields(AfterScaling(q, e, td, tc).fields, td.fields);
    }
  }

  /** The value of a key was scaled where it is. */
  lemma ScaledBelow(h: Heap, h': Heap, q: Quantities, e: Extreme, key: string, d: Value, final: Address, td: Json,
                    tc: Json)
    requires Scalable(h, key, d, final, td) && !tc.Scalar()
    requires var v, own := Entry(h[final], key), Owned(h[final].parts, key);
             && SameOutside(h, h', own) && Stores(h', v, ShrinkValue(q, e, td, tc), own)
             && (v.Ref? ==> v.a in h && v.a in h' && RefsKept(h[v.a], h'[v.a]))
    ensures final in h' && KeyScaled(h, h', q, e, key, d, final, td, tc)
  {
    var v, own := Entry(h[final], key), Owned(h[final].parts, key);
    if d != v {
      OriginalAfter(h, h', q, e, d, v, td, tc, own);
    }
  }

  /** Only a scalar gives way to a scalar. */
  lemma PickedScalar(q: Quantities, e: Extreme, td: Json, tc: Json)
    requires tc.Scalar() && !tc.Null? && !td.Null? && Pick(q, e, td, tc) != td
    ensures td.Scalar() && ShrinkValue(q, e, td, tc) == tc
  {
    PickSelects(q, e, td, tc);
  }

  /** A key is assigned the original value. */
  lemma {:induction false} OriginalKept(h: Heap, q: Quantities, e: Extreme, key: string, d: Value, final: Address,
                                        td: Json, tc: Json)
    requires Scalable(h, key, d, final, td) && tc.Scalar() && !tc.Null? && !td.Null? && ShrinkValue(q, e, td, tc) == td
    ensures var v, own, c := Entry(h[final], key), Owned(h[final].parts, key), h[final];
            KeyScaled(h, h[final := Cell(c.entries[key := d], c.parts[key := OriginalOwn(d, v, own)])], q, e, key, d,
                      final, td, tc)
  {
    var v, own, c := Entry(h[final], key), Owned(h[final].parts, key), h[final];
    OriginalStored(h, key, d, final, td);
    AfterNothing(q, e, td, tc);
    Untouched(h, h[final := Cell(c.entries[key := d], c.parts[key := OriginalOwn(d, v, own)])], d, td,
              OriginalOwn(d, v, own));
  }

  /** A key is assigned a scalar. */
  lemma {:induction false} ScalarTaken(h: Heap, q: Quantities, e: Extreme, key: string, d: Value, final: Address,
                                       td: Json, tc: Json)
    requires Scalable(h, key, d, final, td) && tc.Scalar() && !tc.Null? && d.Leaf? && ShrinkValue(q, e, td, tc) == tc
    ensures var c := h[final];
            KeyScaled(h, h[final := Cell(c.entries[key := Leaf(tc)], c.parts[key := {}])], q, e, key, d, final, td, tc)
  {
    OriginalStored(h, key, d, final, td);
  }

  /** Part of the keys of a map are scaled. */
  ghost predicate MapScaling(job: Job, h: Heap, todo: set<string>) {
    && job.Valid() && job.a in job.h0 && job.Progress(h, todo)
    && RefsKept(job.h0[job.a], h[job.a]) && Unvisited(job.h0[job.a], h[job.a], todo)
  }

  /** The next key is ready. */
  lemma KeyToScale(job: Job, h: Heap, source: Address, todo: set<string>, k: string)
    requires MapScaling(job, h, todo) && k in todo && job.dparts == map[] && job.ownD == {}
    requires source in job.h0 && (source == job.a || (source !in job.ownC && job.h0[source] == job.h0[job.a]))
    ensures job.a in h && source in h && Scalable(h, k, Entry(h[source], k), job.a, Get(job.tc, k))
    ensures Entry(h[source], k) == Entry(h[job.a], k) && Owned(h[job.a].parts, k) <= job.ownC
  {
    job.PartsApart(k);
    if k in h[job.a].parts {
      assert job.KeyState(h, h[job.a], todo, k);
      if h[job.a].entries[k].Ref? {
        StoredKind(h, h[job.a].entries[k], Get(job.tc, k), h[job.a].parts[k]);
      }
    }
  }

  lemma NextScaled(job: Job, h: Heap, h': Heap, todo: set<string>, k: string, q: Quantities, e: Extreme, tc: Json)
    requires MapScaling(job, h, todo) && k in todo && k in job.goal && job.a in h && job.a in h'
    requires KeyScaled(h, h', q, e, k, Entry(h[job.a], k), job.a, Get(job.tc, k), tc)
    requires job.goal[k] == ShrinkValue(q, e, Get(job.tc, k), tc) && (k in job.taken <==> tc.Scalar() && !tc.Null?)
    ensures MapScaling(job, h', todo - {k})
  {
    KeyMergedNarrow(h, h', job.a, k, k in job.taken, job.goal[k], Owned(job.dparts, k));
    job.NextKey(h, h', todo, k);
  }

  lemma KeyMergedNarrow(h: Heap, h': Heap, a: Address, key: string, adds: bool, merged: Json, ownD: set<Address>)
    requires KeyMerged(h, h', a, key, adds, merged, {})
    ensures KeyMerged(h, h', a, key, adds, merged, ownD)
  {
  }

  /** Scales one key of the map at `final`. The original of its value is `d`: the value itself, or what a copy on
      the first level was made from. */
  method ScaleKey(mem: Memory, q: Quantities, e: Extreme, key: string, d: Value, changed: Value, final: Address,
                  ghost td: Json, ghost tc: Json, ghost ownC: set<Address>)
    requires Scalable(mem.cells, key, d, final, td) && Stores(mem.cells, changed, tc, ownC)
    requires Owned(mem.cells[final].parts, key) !! ownC && ShrinkDefined(td, tc)
    modifies mem
    ensures final in mem.cells && KeyScaled(old(mem.cells), mem.cells, q, e, key, d, final, td, tc)
    decreases tc, 1
  {
    ghost var h := mem.cells;
    var c := mem.cells[final];
    var v := if key in c.entries then c.entries[key] else Leaf(Null);
    ghost var own := Owned(c.parts, key);
    OriginalStored(h, key, d, final, td);
    StoredKind(h, changed, tc, ownC);
    StoredKind(h, v, td, own);
    StoredKind(h, d, td, OriginalOwn(d, v, own));
    var equal := mem.SameTree(d, changed, td, OriginalOwn(d, v, own), tc, ownC);
    if equal {
      ShrinkSame(q, e, td);
      NothingScaled(h, q, e, key, d, final, td, tc);
      return;
    }
    if changed.Ref? {
      if d.Ref? {
        ScaleMap(mem, q, e, d.a, v.a, changed.a, td, own, tc, ownC);
        ScaledBelow(h, mem.cells, q, e, key, d, final, td, tc);
      } else {
        NothingScaled(h, q, e, key, d, final, td, tc);
      }
    } else if changed.Slice? {
      if d.Slice? {
        ScaleSlice(mem, q, e, d, changed, td, own, tc, ownC);
        ScaledBelow(h, mem.cells, q, e, key, d, final, td, tc);
      } else {
        NothingScaled(h, q, e, key, d, final, td, tc);
      }
    } else if changed != Leaf(Null) {
      if d != Leaf(Null) {
        var x := mem.Read(d, td, OriginalOwn(d, v, own));
        var picked := if e.Max? then Larger(q, x, changed.t) else Smaller(q, x, changed.t);
        PickSelects(q, e, td, tc);
        if picked == x {
          OriginalKept(h, q, e, key, d, final, td, tc);
          mem.cells := mem.cells[final := Cell(c.entries[key := d], c.parts[key := OriginalOwn(d, v, own)])];
        } else {
          PickedScalar(q, e, td, tc);
          ScalarTaken(h, q, e, key, d, final, td, tc);
          mem.cells := mem.cells[final := Cell(c.entries[key := changed], c.parts[key := {}])];
        }
      } else {
        ScalarTaken(h, q, e, key, d, final, td, tc);
        mem.cells := mem.cells[final := Cell(c.entries[key := changed], c.parts[key := {}])];
      }
    } else {
      NothingScaled(h, q, e, key, d, final, td, tc);
    }
  }

  /** Scales the map at `target`, which is the original at `source` or its copy. */
  method ScaleMap(mem: Memory, q: Quantities, e: Extreme, source: Address, target: Address, changed: Address,
                  ghost td: Json, ghost own: set<Address>, ghost tc: Json, ghost ownC: set<Address>)
    requires td.Obj? && tc.Obj? && StoresMap(mem.cells, target, td, own) && StoresMap(mem.cells, changed, tc, ownC) &&
             own !! ownC
    requires source in mem.cells && (source == target || (source !in own && mem.cells[source] == mem.cells[target]))
    requires ShrinkObjDefined(td, tc)
    modifies mem
    ensures StoresMap(mem.cells, target, ShrinkObj(q, e, td, tc), own) && SameOutside(old(mem.cells), mem.cells, own)
    ensures RefsKept(old(mem.cells)[target], mem.cells[target])
    decreases tc, 0
  {
    ghost var h := mem.cells;
    ghost var job := ScaleJob(h, q, e, target, td.fields, own, tc.fields);
    ScaleJobStarts(h, q, e, target, td.fields, own, tc.fields);
    var keys := mem.cells[changed].entries;
    var todo := keys.Keys;
    while todo != {}
      invariant todo <= tc.fields.Keys && MapScaling(job, mem.cells, todo)
    {
      var k :| k in todo;
      ghost var before := mem.cells;
      KeyToScale(job, before, source, todo, k);
      ChangeKept(h, before, target, changed, tc, ownC, own, k);
      var d := if k in mem.cells[source].entries then mem.cells[source].entries[k] else Leaf(Null);
      ScaleKey(mem, q, e, k, d, keys[k], target, Get(td.fields, k), tc.fields[k], h[changed].parts[k]);
      NextScaled(job, before, mem.cells, todo, k, q, e, tc.fields[k]);
      todo := todo - {k};
    }
    job.AllMerged(mem.cells);
  }

  /** The changed tree is not touched by what happens outside of it. */
  lemma ChangeKept(h: Heap, h': Heap, a: Address, changed: Address, tc: Json,
                   ownC: set<Address>, own: set<Address>, k: string)
    requires tc.Obj? && StoresMap(h, changed, tc, ownC) && OnlyChanged(h, h', a, own) && a in own && own !! ownC &&
             k in tc.fields
    ensures k in h[changed].entries && k in h[changed].parts && h[changed].parts[k] <= ownC
    ensures Stores(h', h[changed].entries[k], tc.fields[k], h[changed].parts[k])
  {
    assert StoresEntry(h, changed, h[changed], k, tc.fields[k], ownC);
    Untouched(h, h', h[changed].entries[k], tc.fields[k], h[changed].parts[k]);
  }

  lemma ItemsReady(h: Heap, h': Heap, changed: Value, tc: Json, ownC: set<Address>, own: set<Address>, i: nat)
    requires changed.Slice? && Stores(h, changed, tc, ownC) && SameOutside(h, h', own) && own !! ownC && i < |tc.items|
    ensures |changed.items| == |changed.parts| == |tc.items| && changed.parts[i] <= ownC
    ensures Stores(h', changed.items[i], tc.items[i], changed.parts[i])
    ensures tc.items[i].Obj? ==>
      changed.items[i].Ref? && changed.items[i].a in h' &&
        h'[changed.items[i].a].entries.Keys == tc.items[i].fields.Keys
  {
    Untouched(h, h', changed.items[i], tc.items[i], changed.parts[i]);
    StoredKind(h', changed.items[i], tc.items[i], changed.parts[i]);
  }

  /** Position `i` is still to be scaled. */
  lemma ItemPending(h: Heap, q: Quantities, e: Extreme, d: Value, td: Json, own: set<Address>, tc: Json, i: nat)
    requires d.Slice? && td.List? && tc.List? && i < |tc.items|
    requires Stores(h, d, List(ShrinkItems(q, e, td.items, tc.items[..i])), own)
    ensures |d.items| == |d.parts| == |td.items|
    ensures i < |td.items| ==>
      Stores(h, d.items[i], td.items[i], d.parts[i]) && d.parts[i] <= own && (d.items[i].Ref? <==> td.items[i].Obj?)
  {
    ScaleItem(q, e, td.items, tc.items, i);
    if i < |td.items| {
      StoredKind(h, d.items[i], td.items[i], d.parts[i]);
    }
  }

  lemma ItemScaled(h: Heap, h': Heap, q: Quantities, e: Extreme, d: Value, td: Json, own: set<Address>, tc: Json,
                   i: nat)
    requires d.Slice? && td.List? && tc.List? && i < |tc.items| && i < |td.items| == |d.items| == |d.parts|
    requires Stores(h, d, List(ShrinkItems(q, e, td.items, tc.items[..i])), own) && td.items[i].Obj? && tc.items[i].Obj?
    requires SameOutside(h, h', d.parts[i]) &&
             Stores(h', d.items[i], ShrinkObj(q, e, td.items[i], tc.items[i]), d.parts[i])
    ensures Stores(h', d, List(ShrinkItems(q, e, td.items, tc.items[..i + 1])), own)
  {
    ScaleItem(q, e, td.items, tc.items, i);
    var ts, ts' := ShrinkItems(q, e, td.items, tc.items[..i]), ShrinkItems(q, e, td.items, tc.items[..i + 1]);
    forall j | 0 <= j < |d.items| ensures Stores(h', d.items[j], ts'[j], d.parts[j]) {
      if j != i {
        Untouched(h, h', d.items[j], ts[j], d.parts[j]);
      }
    }
  }

  method ScaleSlice(mem: Memory, q: Quantities, e: Extreme, d: Value, changed: Value,
                    ghost td: Json, ghost own: set<Address>, ghost tc: Json, ghost ownC: set<Address>)
    requires d.Slice? && changed.Slice? && Stores(mem.cells, d, td, own) && Stores(mem.cells, changed, tc, ownC)
    requires own !! ownC && ShrinkItemsDefined(td.items, tc.items)
    modifies mem
    ensures Stores(mem.cells, d, List(ShrinkItems(q, e, td.items, tc.items)), own)
    ensures SameOutside(old(mem.cells), mem.cells, own)
    decreases tc, 0, 1
  {
    ghost var h := mem.cells;
    assert tc.items[..0] == [];
    for i: nat := 0 to |changed.items|
      invariant SameOutside(h, mem.cells, own)
      invariant Stores(mem.cells, d, List(ShrinkItems(q, e, td.items, tc.items[..i])), own)
    {
      ScaleSliceItem(mem, q, e, d, changed, i, h, td, own, tc, ownC);
    }
    assert tc.items[..|tc.items|] == tc.items;
  }

  /** One position: a map of the change scales the map it meets. */
  method ScaleSliceItem(mem: Memory, q: Quantities, e: Extreme, d: Value, changed: Value, i: nat, ghost h: Heap,
                        ghost td: Json, ghost own: set<Address>, ghost tc: Json, ghost ownC: set<Address>)
    requires d.Slice? && changed.Slice? && td.List? && tc.List? && Stores(h, changed, tc, ownC)
    requires own !! ownC && i < |changed.items| && i < |tc.items|
    requires SameOutside(h, mem.cells, own) && ShrinkItemsDefined(td.items, tc.items)
    requires Stores(mem.cells, d, List(ShrinkItems(q, e, td.items, tc.items[..i])), own)
    modifies mem
    ensures Stores(mem.cells, d, List(ShrinkItems(q, e, td.items, tc.items[..i + 1])), own)
    ensures SameOutside(h, mem.cells, own)
    decreases tc, 0, 0
  {
    ghost var before := mem.cells;
    DefinedScale(td.items, tc.items, i);
    ScaleItem(q, e, td.items, tc.items, i);
    ItemsReady(h, before, changed, tc, ownC, own, i);
    ItemPending(before, q, e, d, td, own, tc, i);
    if mem.cells[changed.items[i].a].entries != map[] {
      if d.items[i].Ref? {
        ScaleMap(mem, q, e, d.items[i].a, d.items[i].a, changed.items[i].a, td.items[i], d.parts[i], tc.items[i],
                 changed.parts[i]);
        ItemScaled(before, mem.cells, q, e, d, td, own, tc, i);
      }
    } else if i < |td.items| && td.items[i].Obj? {
      ScaleByEmpty(q, e, td.items[i], tc.items[i]);
    }
  }
}
