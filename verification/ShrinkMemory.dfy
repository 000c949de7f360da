/** Scaling a whole configuration in memory, and what it does to the original. */
module ShrinkMemory {
  import opened Trees
  import opened ResourceComparison
  import opened Shrinking
  import opened Heaps
  import opened MergeMemory
  import opened ScaleMemory
  import opened Wrappers

  lemma FreshAddress(s: set<Address>) returns (a: Address)
    ensures forall x | x in s :: x < a
    decreases |s|
  {
    if s == {} {
      a := 0;
    } else {
      var y :| y in s;
      var b := FreshAddress(s - {y});
      a := if b <= y then y + 1 else b;
      assert forall x | x in s :: x == y || x in s - {y};
    }
  }

  /** `w` is the copy of the root value `v`: a map is copied on this level, anything else is the same value. */
  ghost predicate CopyOf(h0: Heap, h: Heap, v: Value, part: set<Address>, w: Value, part': set<Address>) {
    if v.Ref? then w.Ref? && v.a in h0 && w.a in h && w.a !in h0 && h[w.a] == h0[v.a] && part' == part - {v.a} + {w.a}
    else w == v && part' == part
  }

  /** The entries of the map `c` that are copied. */
  ghost predicate Copied(h0: Heap, h: Heap, c: Cell, entries: map<string, Value>, parts: map<string, set<Address>>) {
    && entries.Keys == parts.Keys <= c.entries.Keys && c.entries.Keys == c.parts.Keys
    && (forall x | x in h0 :: x in h && h[x] == h0[x])
    && (forall k | k in entries :: CopyOf(h0, h, c.entries[k], c.parts[k], entries[k], parts[k]))
    && (forall k, l | k in entries && l in entries && k != l && entries[k].Ref? && entries[l].Ref? ::
        entries[k].a != entries[l].a)
  }

  lemma CopyKept(h0: Heap, h: Heap, h': Heap, v: Value, part: set<Address>, w: Value, part': set<Address>)
    requires CopyOf(h0, h, v, part, w, part') && forall x | x in h :: x in h' && h'[x] == h[x]
    ensures CopyOf(h0, h', v, part, w, part')
  {
  }

  /** A further copy leaves the ones made so far alone. */
  lemma CopiesKept(h0: Heap, h: Heap, h': Heap, c: Cell,
                   entries: map<string, Value>, parts: map<string, set<Address>>, a: Address)
    requires Copied(h0, h, c, entries, parts) && a !in h && h'.Keys == h.Keys + {a} && forall x | x in h ::
             h'[x] == h[x]
    ensures Copied(h0, h', c, entries, parts) && forall k | k in entries :: entries[k] != Ref(a)
  {
    forall k | k in entries ensures CopyOf(h0, h', c.entries[k], c.parts[k], entries[k], parts[k]) {
      CopyKept(h0, h, h', c.entries[k], c.parts[k], entries[k], parts[k]);
    }
  }

  lemma CopyAdded(h0: Heap, h: Heap, c: Cell, entries: map<string, Value>, parts: map<string, set<Address>>, k: string,
                  w: Value, part: set<Address>)
    requires Copied(h0, h, c, entries, parts) && k in c.entries && k !in entries &&
             CopyOf(h0, h, c.entries[k], c.parts[k], w, part)
    requires w.Ref? ==> forall l | l in entries :: entries[l] != w
    ensures Copied(h0, h, c, entries[k := w], parts[k := part])
  {
  }

  /** Copies the first level of the map at `d`. */
  method CopyMap(mem: Memory, d: Address, ghost t: Fields, ghost ownD: set<Address>)
    returns (entries: map<string, Value>, ghost parts: map<string, set<Address>>)
    requires StoresMap(mem.cells, d, Obj(t), ownD)
    modifies mem
    ensures Copied(old(mem.cells), mem.cells, old(mem.cells)[d], entries, parts) && entries.Keys == t.Keys
  {
    ghost var h := mem.cells;
    var c := mem.cells[d];
    entries, parts := map[], map[];
    var todo := c.entries.Keys;
    while todo != {}
      invariant todo <= c.entries.Keys && entries.Keys == c.entries.Keys - todo
      invariant Copied(h, mem.cells, c, entries, parts)
    {
      var k :| k in todo;
      assert StoresEntry(h, d, c, k, t[k], ownD);
      StoredKind(h, c.entries[k], t[k], c.parts[k]);
      if c.entries[k].Ref? {
        ghost var free := FreshAddress(mem.cells.Keys);
        assert free !in mem.cells;
        var a: Address :| a !in mem.cells;
        ghost var before := mem.cells;
        mem.cells := mem.cells[a := mem.cells[c.entries[k].a]];
        CopiesKept(h, before, mem.cells, c, entries, parts, a);
        CopyAdded(h, mem.cells, c, entries, parts, k, Ref(a), c.parts[k] - {c.entries[k].a} + {a});
        entries, parts := entries[k := Ref(a)], parts[k := c.parts[k] - {c.entries[k].a} + {a}];
      } else {
        CopyAdded(h, mem.cells, c, entries, parts, k, c.entries[k], c.parts[k]);
        entries, parts := entries[k := c.entries[k]], parts[k := c.parts[k]];
      }
      todo := todo - {k};
    }
  }

  /** The maps on the first two levels of a tree: those that are copied instead of shared. */
  ghost function Tops(d: Address, c: Cell): set<Address> {
    {d} + set k | k in c.entries && c.entries[k].Ref? :: c.entries[k].a
  }

  /** The maps of the copy: fresh ones, and what it shares. */
  ghost function CopyOwn(h0: Heap, h: Heap, d: Address, ownD: set<Address>): set<Address>
    requires d in h0
  {
    (h.Keys - h0.Keys) + (ownD - Tops(d, h0[d]))
  }

  lemma TopsApart(h0: Heap, d: Address, t: Fields, ownD: set<Address>, k: string)
    requires StoresMap(h0, d, Obj(t), ownD) && k in t
    ensures k in h0[d].entries && k in h0[d].parts && h0[d].parts[k] <= ownD - {d} && Tops(d, h0[d]) <= ownD
    ensures Stores(h0, h0[d].entries[k], t[k], h0[d].parts[k])
    ensures var v := h0[d].entries[k];
            h0[d].parts[k] * Tops(d, h0[d]) == (if v.Ref? then {v.a} else {})
  {
    var c := h0[d];
    forall l | l in c.entries
      ensures c.parts[l] <= ownD - {d} && (c.entries[l].Ref? ==> c.entries[l].a in c.parts[l])
    {
      assert StoresEntry(h0, d, c, l, t[l], ownD);
      StoredKind(h0, c.entries[l], t[l], c.parts[l]);
    }
    assert StoresEntry(h0, d, c, k, t[k], ownD);
    forall x | x in c.parts[k] && x in Tops(d, c) ensures c.entries[k].Ref? && x == c.entries[k].a {
      var l :| l in c.entries && c.entries[l].Ref? && c.entries[l].a == x;
    }
  }

  lemma CopyEntry(h0: Heap, h: Heap, d: Address, t: Fields,
                  ownD: set<Address>, entries: map<string, Value>, parts: map<string, set<Address>>, r: Address,
                  k: string)
    requires StoresMap(h0, d, Obj(t), ownD) && ownD <= h0.Keys && r !in h0
    requires Copied(h0, h, h0[d], entries, parts) && k in entries && r !in h && k in t
    ensures var h' := h[r := Cell(entries, parts)];
            && Stores(h', entries[k], t[k], parts[k]) && parts[k] <= CopyOwn(h0, h', d, ownD) - {r}
            && Mirrors(h', h0[d].entries[k], entries[k], parts[k])
  {
    var c, h' := h0[d], h[r := Cell(entries, parts)];
    var v, w := c.entries[k], entries[k];
    TopsApart(h0, d, t, ownD, k);
    assert CopyOf(h0, h, v, c.parts[k], w, parts[k]);
    Untouched(h0, h', v, t[k], c.parts[k]);
    StoredKind(h0, v, t[k], c.parts[k]);
    if v.Ref? {
      MirrorStores(h', w, v, t[k], c.parts[k]);
    }
  }

  lemma CopyParts(h0: Heap, h: Heap, d: Address, t: Fields,
                  ownD: set<Address>, entries: map<string, Value>, parts: map<string, set<Address>>)
    requires StoresMap(h0, d, Obj(t), ownD) && ownD <= h0.Keys && Copied(h0, h, h0[d], entries, parts) &&
             entries.Keys == t.Keys
    ensures Disjoint(parts)
  {
    forall k, l | k in parts && l in parts && k != l ensures parts[k] !! parts[l] {
      CopiesApart(h0, h, d, t, ownD, entries, parts, k, l);
    }
  }

  lemma {:induction false} CopiesApart(h0: Heap, h: Heap, d: Address, t: Fields,
                                       ownD: set<Address>, entries: map<string, Value>,
                                       parts: map<string, set<Address>>, k: string, l: string)
    requires StoresMap(h0, d, Obj(t), ownD) && ownD <= h0.Keys && Copied(h0, h, h0[d], entries, parts)
    requires entries.Keys == t.Keys && k in t && l in t && k != l
    ensures parts[k] !! parts[l]
  {
    var c := h0[d];
    TopsApart(h0, d, t, ownD, k);
    TopsApart(h0, d, t, ownD, l);
    assert CopyOf(h0, h, c.entries[k], c.parts[k], entries[k], parts[k]);
    assert CopyOf(h0, h, c.entries[l], c.parts[l], entries[l], parts[l]);
    assert c.parts[k] !! c.parts[l];
  }

  /** The copy stores the same tree. */
  lemma CopyStores(h0: Heap, h: Heap, d: Address, t: Fields, ownD: set<Address>, entries: map<string, Value>,
                   parts: map<string, set<Address>>, r: Address)
    requires StoresMap(h0, d, Obj(t), ownD) && ownD <= h0.Keys && Copied(h0, h, h0[d], entries, parts) &&
             entries.Keys == t.Keys && r !in h
    ensures var h' := h[r := Cell(entries, parts)]; StoresMap(h', r, Obj(t), CopyOwn(h0, h', d, ownD))
  {
    var h' := h[r := Cell(entries, parts)];
    assert r !in h0;
    forall k | k in t ensures StoresEntry(h', r, h'[r], k, t[k], CopyOwn(h0, h', d, ownD)) {
      CopyEntry(h0, h, d, t, ownD, entries, parts, r, k);
    }
    CopyParts(h0, h, d, t, ownD, entries, parts);
  }

  /** What scaling a root key leaves of the original value. */
  lemma PairLeft(h: Heap, h': Heap, q: Quantities, e: Extreme, key: string, v: Value, r: Address, td: Json, tc: Json,
                 p: set<Address>, ownD: set<Address>)
    requires r in h && r in h' && KeyScaled(h, h', q, e, key, v, r, td, tc) && key in h[r].entries && key in h[r].parts
    requires Stores(h, v, td, p) && p <= ownD
    requires var w, p' := h[r].entries[key], h[r].parts[key];
             if v.Ref? then w.Ref? && w.a !in ownD && v.a in p && p' == p - {v.a} + {w.a} else w == v && p' == p
    ensures Stores(h', v, AfterScaling(q, e, td, tc), p)
  {
    StoredKind(h, v, td, p);
    var w, p' := h[r].entries[key], h[r].parts[key];
    if v.Ref? {
      assert OriginalOwn(v, w, p') == p;
    }
  }

  /** Scaling the copy at `r` of the map at `d`, which stores `t`, with `u`. In the memory `h1` the copy was just
      made. */
  datatype Root = Root(q: Quantities, e: Extreme, h1: Heap, d: Address, r: Address, t: Fields, u: Fields,
                       ownD: set<Address>, ownR: set<Address>)
  {
    ghost predicate Valid() {
      && StoresMap(h1, d, Obj(t), ownD) && StoresMap(h1, r, Obj(t), ownR)
      && d != r && r !in ownD && ownR !! Tops(d, h1[d])
      && forall k | k in t :: Paired(h1, k)
    }

    /** A root value and its copy. */
    ghost predicate Paired(h: Heap, k: string)
      requires d in h1
    {
      && r in h && k in h1[d].entries && k in h1[d].parts && k in h[r].entries && k in h[r].parts
      && Mirrors(h, h1[d].entries[k], h[r].entries[k], h[r].parts[k])
      && var v, p, w, p' := h1[d].entries[k], h1[d].parts[k], h[r].entries[k], h[r].parts[k];
      if v.Ref? then w.Ref? && w.a !in ownD && v.a in p && p' == p - {v.a} + {w.a} else w == v && p' == p
    }

    ghost function RootJob(): Job
      requires d in h1 && r in h1
    {
      Job(map k | k in t :: ShrinkValue(q, e, t[k], Get(u, k)), {}, h1, r, t, ownR,
          map k | k in t && k in h1[d].entries && k in h1[r].entries :: Top(h1[d].entries[k], h1[r].entries[k]),
            Tops(d, h1[d]))
    }

    /** The tree of a root key of the original. */
    ghost function Left(todo: set<string>, k: string): Json
      requires k in t
    {
      if k in todo then t[k] else AfterScaling(q, e, t[k], Get(u, k))
    }

    /** The keys outside `todo` are scaled. */
    ghost predicate Scaling(h: Heap, todo: set<string>)
      requires d in h1 && r in h1
    {
      && RootJob().Valid() && RootJob().Progress(h, todo) && d in h && h[d] == h1[d]
      && (forall k | k in todo && k in t :: Paired(h, k))
      && forall k | k in t ::
           k in h1[d].entries && k in h1[d].parts && Stores(h, h1[d].entries[k], Left(todo, k), h1[d].parts[k])
    }

    lemma JobIsValid()
      requires Valid()
      ensures d in h1 && r in h1 && RootJob().Valid()
    {
      var dparts := RootJob().dparts;
      forall k | k in dparts ensures dparts[k] <= Tops(d, h1[d]) && dparts[k] <= h1[d].parts[k] {
        assert Paired(h1, k);
      }
      forall k, l | k in dparts && l in dparts && k != l ensures dparts[k] !! dparts[l] {
        assert h1[d].parts[k] !! h1[d].parts[l];
      }
    }

    lemma JobStarts()
      requires Valid() && d in h1 && r in h1
      ensures RootJob().Valid() && RootJob().Progress(h1, t.Keys)
    {
      JobIsValid();
      assert RootJob().goal.Keys == t.Keys;
      RootJob().NothingMerged();
    }

    lemma NothingScaledYet()
      requires Valid() && d in h1 && r in h1
      ensures Scaling(h1, t.Keys)
    {
      JobStarts();
      forall k | k in t
        ensures k in h1[d].entries && k in h1[d].parts && Stores(h1, h1[d].entries[k], Left(t.Keys, k), h1[d].parts[k])
      {
        RootOwn(k);
      }
    }

    /** The next root key is ready to be scaled. */
    lemma RootReady(h: Heap, todo: set<string>, k: string)
      requires Valid() && d in h1 && r in h1 && Scaling(h, todo) && k in todo && k in t
      ensures r in h && Scalable(h, k, h1[d].entries[k], r, t[k])
      ensures Owned(h[r].parts, k) <= ownR
      ensures Entry(h[r], k) == h[r].entries[k]
    {
      assert Paired(h, k);
      CopyPending(h, todo, k);
      RootOwn(k);
    }

    /** The copy of a root key still stores the key's tree. */
    lemma CopyPending(h: Heap, todo: set<string>, k: string)
      requires Valid() && d in h1 && r in h1 && Scaling(h, todo) && k in todo && k in t
      ensures r in h && k in h[r].entries && k in h[r].parts && h[r].entries.Keys == h[r].parts.Keys
      ensures Stores(h, h[r].entries[k], t[k], h[r].parts[k]) && h[r].parts[k] <= ownR - {r}
    {
      assert RootJob().KeyState(h, h[r], todo, k);
      RootJob().PartsApart(k);
    }

    /** A root key and its copy are left alone when another key is scaled. */
    lemma OtherPaired(h: Heap, h': Heap, todo: set<string>, k: string, l: string)
      requires Valid() && d in h1 && r in h1 && Scaling(h, todo) && k in todo && l in todo && k in t && l in t && k != l
      requires RootJob().Merged(h, h', k)
      ensures Paired(h', l)
    {
      assert Paired(h, l);
      CopyPending(h, todo, k);
      CopyPending(h, todo, l);
      RootJob().PartsApart(k);
      RootJob().OtherKeyApart(h, h', todo, k, l);
      var v, w := h1[d].entries[l], h[r].entries[l];
      if v.Ref? {
        assert v.a in Tops(d, h1[d]);
      }
    }

    /** What a root key of the original owns. */
    lemma RootOwn(k: string)
      requires Valid() && k in t
      ensures k in h1[d].entries && k in h1[d].parts && h1[d].parts[k] <= ownD - {d} &&
              Stores(h1, h1[d].entries[k], t[k], h1[d].parts[k])
    {
      assert StoresEntry(h1, d, h1[d], k, t[k], ownD);
    }

    /** The copy of one root key shares nothing with the original of another. */
    lemma PairApart(h: Heap, k: string, l: string)
      requires Valid() && k in t && l in t && k != l && d in h1 && Paired(h, k)
      ensures l in h1[d].parts && h[r].parts[k] !! h1[d].parts[l] && r !in h1[d].parts[l]
    {
      RootOwn(k);
      RootOwn(l);
      assert h1[d].parts[k] !! h1[d].parts[l];
    }

    lemma OriginalApart(h: Heap, h': Heap, k: string, l: string)
      requires Valid() && d in h1 && r in h1 && k in t && l in t && k != l && Paired(h, k)
      requires OnlyChanged(h, h', r, Owned(h[r].parts, k))
      ensures l in h1[d].parts && Same(h, h', h1[d].parts[l])
    {
      PairApart(h, k, l);
    }

    /** The rest of the original is left alone, too. */
    lemma OtherLeft(h: Heap, h': Heap, todo: set<string>, k: string, l: string)
      requires Valid() && d in h1 && r in h1 && Scaling(h, todo) && k in todo && k in t && l in t && k != l
      requires RootJob().Merged(h, h', k)
      ensures l in h1[d].entries && Stores(h', h1[d].entries[l], Left(todo - {k}, l), h1[d].parts[l])
    {
      assert Paired(h, k);
      OriginalApart(h, h', k, l);
      Untouched(h, h', h1[d].entries[l], Left(todo, l), h1[d].parts[l]);
    }

    /** What is left of the root value that was scaled. */
    lemma KeyLeft(h: Heap, h': Heap, todo: set<string>, k: string)
      requires Valid() && d in h1 && r in h1 && Scaling(h, todo) && k in todo && k in t && r in h && r in h'
      requires KeyScaled(h, h', q, e, k, h1[d].entries[k], r, t[k], Get(u, k))
      ensures Stores(h', h1[d].entries[k], AfterScaling(q, e, t[k], Get(u, k)), h1[d].parts[k])
    {
      assert Paired(h, k);
      RootOwn(k);
      PairLeft(h, h', q, e, k, h1[d].entries[k], r, t[k], Get(u, k), h1[d].parts[k], ownD);
    }

    lemma NextRoot(h: Heap, h': Heap, todo: set<string>, k: string)
      requires Valid() && d in h1 && r in h1 && Scaling(h, todo) && k in todo && k in t && r in h && r in h'
      requires KeyScaled(h, h', q, e, k, h1[d].entries[k], r, t[k], Get(u, k))
      ensures Scaling(h', todo - {k})
    {
      var job := RootJob();
      assert Paired(h, k);
      assert job.Merged(h, h', k) by {
        KeyMergedThere(h, h', r, k, Get(u, k).Scalar() && !Get(u, k).Null?, job.goal[k],
                       Top(h1[d].entries[k], h[r].entries[k]));
        assert Paired(h1, k);
        SameTop(h, todo, k);
      }
      job.NextKey(h, h', todo, k);
      RootUntouched(h, h', todo, k);
      forall l | l in todo - {k} && l in t ensures Paired(h', l) {
        OtherPaired(h, h', todo, k, l);
      }
      forall l | l in t
        ensures l in h1[d].entries && l in h1[d].parts &&
                Stores(h', h1[d].entries[l], Left(todo - {k}, l), h1[d].parts[l])
      {
        if l == k {
          KeyLeft(h, h', todo, k);
        } else {
          OtherLeft(h, h', todo, k, l);
        }
      }
    }

    lemma SameTop(h: Heap, todo: set<string>, k: string)
      requires Valid() && d in h1 && r in h1 && Scaling(h, todo) && k in todo && k in t
      ensures k in h[r].entries && Top(h1[d].entries[k], h[r].entries[k]) <= Owned(RootJob().dparts, k)
    {
      assert Paired(h, k) && Paired(h1, k);
      assert StoresEntry(h1, d, h1[d], k, t[k], ownD);
    }

    lemma RootUntouched(h: Heap, h': Heap, todo: set<string>, k: string)
      requires Valid() && d in h1 && r in h1 && Scaling(h, todo) && k in todo && k in t && RootJob().Merged(h, h', k)
      ensures d in h' && h'[d] == h1[d]
    {
      assert RootJob().KeyState(h, h[r], todo, k);
      RootJob().PartsApart(k);
      assert d in Tops(d, h1[d]);
    }
  }

  lemma KeyMergedThere(h: Heap, h': Heap, a: Address, key: string, adds: bool, merged: Json, ownD: set<Address>)
    requires KeyMerged(h, h', a, key, adds, merged, ownD) && key in h[a].entries
    ensures KeyMerged(h, h', a, key, false, merged, ownD)
  {
    assert h[a].entries.Keys + {key} == h[a].entries.Keys;
  }

  /** The original after the whole configuration was scaled. */
  function Leftover(q: Quantities, e: Extreme, t: Fields, u: Fields): Fields {
    map k | k in t :: AfterScaling(q, e, t[k], Get(u, k))
  }

  /** The keys that the scaled configuration has of the original. */
  function ScaledOriginal(q: Quantities, e: Extreme, t: Fields, u: Fields): Fields {
    map k | k in t :: ShrinkValue(q, e, t[k], Get(u, k))
  }

  lemma LeftoverStored(root: Root, h: Heap)
    requires root.Valid() && root.d in root.h1 && root.r in root.h1 && root.Scaling(h, {})
    ensures StoresMap(h, root.d, Obj(Leftover(root.q, root.e, root.t, root.u)), root.ownD)
  {
    var left := Leftover(root.q, root.e, root.t, root.u);
    assert root.d in root.ownD;
    forall k | k in left ensures StoresEntry(h, root.d, h[root.d], k, left[k], root.ownD) {
      root.RootOwn(k);
      assert root.Left({}, k) == left[k];
    }
  }

  /** The keys that only the change has are added last. */
  ghost function AddJob(h: Heap, r: Address, scaled: Fields, own: set<Address>, changed: Address, u: Fields,
                        ownC: set<Address>): Job
    requires changed in h
  {
    Job(map k | k in u && k !in scaled :: u[k], u.Keys - scaled.Keys, h, r, scaled, own,
        map k | k in h[changed].parts && k !in scaled :: h[changed].parts[k], ownC)
  }

  lemma AddStarts(h: Heap, r: Address, scaled: Fields, own: set<Address>, changed: Address, u: Fields,
                  ownC: set<Address>)
    requires StoresMap(h, r, Obj(scaled), own) && StoresMap(h, changed, Obj(u), ownC) && own !! ownC
    ensures var job := AddJob(h, r, scaled, own, changed, u, ownC);
            job.Valid() && job.a in job.h0 && job.goal.Keys == u.Keys - scaled.Keys &&
              job.Progress(h, u.Keys - scaled.Keys)
  {
    DefaultParts(h, changed, Obj(u), ownC);
    AddJob(h, r, scaled, own, changed, u, ownC).NothingMerged();
  }

  /** One more key is added: its value is shared with the change. */
  lemma AddKey(h: Heap, h': Heap, r: Address, scaled: Fields, own: set<Address>, changed: Address, u: Fields,
               ownC: set<Address>, todo: set<string>, k: string)
    requires StoresMap(h, r, Obj(scaled), own) && StoresMap(h, changed, Obj(u), ownC) && own !! ownC
    requires k in todo && k in u && k !in scaled
    requires var job := AddJob(h, r, scaled, own, changed, u, ownC);
             job.Valid() && job.a in job.h0 && job.Progress(h', todo)
    requires SameOutside(h, h', {r})
    ensures k in h[changed].entries && k in h[changed].parts && r in h'
    ensures var h'' := h'[r := Cell(h'[r].entries[k := h[changed].entries[k]], h'[r].parts[k := h[changed].parts[k]])];
            AddJob(h, r, scaled, own, changed, u, ownC).Progress(h'', todo - {k}) && SameOutside(h, h'', {r})
  {
    var job := AddJob(h, r, scaled, own, changed, u, ownC);
    assert StoresEntry(h, changed, h[changed], k, u[k], ownC);
    var v, p := h[changed].entries[k], h[changed].parts[k];
    job.PartsApart(k);
    Untouched(h, h', v, u[k], p);
    KeyAssigned(h', r, k, v, u[k], p, p);
    job.NextKey(h', h'[r := Cell(h'[r].entries[k := v], h'[r].parts[k := p])], todo, k);
  }

  lemma RootMade(h0: Heap, h: Heap, q: Quantities, e: Extreme, d: Address, t: Fields, u: Fields, ownD: set<Address>,
                 entries: map<string, Value>, parts: map<string, set<Address>>, r: Address)
    requires StoresMap(h0, d, Obj(t), ownD) && ownD <= h0.Keys && Copied(h0, h, h0[d], entries, parts) &&
             entries.Keys == t.Keys && r !in h
    ensures var h' := h[r := Cell(entries, parts)]; Root(q, e, h', d, r, t, u, ownD, CopyOwn(h0, h', d, ownD)).Valid()
  {
    var h' := h[r := Cell(entries, parts)];
    var root := Root(q, e, h', d, r, t, u, ownD, CopyOwn(h0, h', d, ownD));
    CopyStores(h0, h, d, t, ownD, entries, parts, r);
    Untouched(h0, h', Ref(d), Obj(t), ownD);
    assert r !in h0 && h'[d] == h0[d];
    DefaultParts(h0, d, Obj(t), ownD);
    forall k | k in t ensures root.Paired(h', k) {
      CopyEntry(h0, h, d, t, ownD, entries, parts, r, k);
      TopsApart(h0, d, t, ownD, k);
      StoredKind(h0, h0[d].entries[k], t[k], h0[d].parts[k]);
      assert CopyOf(h0, h, h0[d].entries[k], h0[d].parts[k], entries[k], parts[k]);
    }
    TopsOwned(h0, d, t, ownD);
  }

  lemma TopsOwned(h0: Heap, d: Address, t: Fields, ownD: set<Address>)
    requires StoresMap(h0, d, Obj(t), ownD)
    ensures Tops(d, h0[d]) <= ownD
  {
    forall k | k in h0[d].entries && h0[d].entries[k].Ref? ensures h0[d].entries[k].a in ownD {
      TopsApart(h0, d, t, ownD, k);
    }
  }

  /** The copy of the root. */
  method CopyRoot(mem: Memory, ghost q: Quantities, ghost e: Extreme, d: Address, ghost t: Fields,
                  ghost ownD: set<Address>, ghost changed: Address, ghost u: Fields, ghost ownC: set<Address>)
    returns (r: Address, ghost ownR: set<Address>)
    requires StoresMap(mem.cells, d, Obj(t), ownD) && StoresMap(mem.cells, changed, Obj(u), ownC) && ownD !! ownC
    requires ownD <= mem.cells.Keys && ownC <= mem.cells.Keys
    modifies mem
    ensures Root(q, e, mem.cells, d, r, t, u, ownD, ownR).Valid() && ownR !! ownC
    ensures StoresMap(mem.cells, changed, Obj(u), ownC)
  {
    ghost var h := mem.cells;
    var entries; ghost var parts;
    entries, parts := CopyMap(mem, d, t, ownD);
    ghost var free := FreshAddress(mem.cells.Keys);
    assert free !in mem.cells;
    r :| r !in mem.cells;
    RootMade(h, mem.cells, q, e, d, t, u, ownD, entries, parts, r);
    mem.cells := mem.cells[r := Cell(entries, parts)];
    ownR := CopyOwn(h, mem.cells, d, ownD);
    Untouched(h, mem.cells, Ref(changed), Obj(u), ownC);
  }

  /** What the change says about a root key. */
  lemma ChangeReady(h: Heap, h': Heap, r: Address, own: set<Address>, changed: Address, u: Fields,
                    ownC: set<Address>, k: string)
    requires StoresMap(h, changed, Obj(u), ownC) && OnlyChanged(h, h', r, own) && r in own && own !! ownC
    ensures changed in h' && h'[changed] == h[changed]
    ensures Stores(h', Entry(h[changed], k), Get(u, k), Owned(h[changed].parts, k)) &&
            Owned(h[changed].parts, k) <= ownC
  {
    if k in u {
      ChangeKept(h, h', r, changed, Obj(u), ownC, own, k);
    }
  }

  /** All root keys are scaled. */
  lemma RootScaled(root: Root, h: Heap, changed: Address, ownC: set<Address>)
    requires root.Valid() && root.d in root.h1 && root.r in root.h1 && root.Scaling(h, {})
    requires StoresMap(root.h1, changed, Obj(root.u), ownC) && root.ownR !! ownC
    ensures StoresMap(h, root.r, Obj(ScaledOriginal(root.q, root.e, root.t, root.u)),
                      root.ownR + Tops(root.d, root.h1[root.d]))
    ensures StoresMap(h, root.d, Obj(Leftover(root.q, root.e, root.t, root.u)), root.ownD)
    ensures StoresMap(h, changed, Obj(root.u), ownC)
  {
    root.RootJob().AllMerged(h);
    RootResult(root);
    LeftoverStored(root, h);
    Untouched(root.h1, h, Ref(changed), Obj(root.u), ownC);
  }

  lemma RootResult(root: Root)
    requires root.d in root.h1 && root.r in root.h1
    ensures root.RootJob().Result() == Obj(ScaledOriginal(root.q, root.e, root.t, root.u))
  {
  }

  /** A root key is ready, and so is what the change says about it. */
  lemma RootKeyReady(root: Root, h: Heap, todo: set<string>, k: string, changed: Address, ownC: set<Address>)
    requires root.Valid() && root.d in root.h1 && root.r in root.h1 && root.Scaling(h, todo) && k in todo && k in root.t
    requires StoresMap(root.h1, changed, Obj(root.u), ownC) && root.ownR !! ownC
    requires ShrinkObjDefined(Obj(root.t), Obj(root.u))
    ensures k in root.h1[root.d].entries && Scalable(h, k, root.h1[root.d].entries[k], root.r, root.t[k])
    ensures changed in h && h[changed] == root.h1[changed]
    ensures Stores(h, Entry(h[changed], k), Get(root.u, k), Owned(root.h1[changed].parts, k))
    ensures Owned(h[root.r].parts, k) !! Owned(root.h1[changed].parts, k) && ShrinkDefined(root.t[k], Get(root.u, k))
  {
    root.RootOwn(k);
    root.RootReady(h, todo, k);
    ChangeReady(root.h1, h, root.r, root.ownR, changed, root.u, ownC, k);
  }

  /** Scales the copy, key by key. */
  method ScaleRoot(mem: Memory, q: Quantities, e: Extreme, d: Address, r: Address, changed: Address, ghost root: Root,
                   ghost ownC: set<Address>)
    requires root.Valid() && mem.cells == root.h1 && root.q == q && root.e == e && root.d == d && root.r == r
    requires StoresMap(mem.cells, changed, Obj(root.u), ownC) && root.ownR !! ownC
    requires ShrinkObjDefined(Obj(root.t), Obj(root.u))
    modifies mem
    ensures d in root.h1
    ensures StoresMap(mem.cells, r, Obj(ScaledOriginal(q, e, root.t, root.u)), root.ownR + Tops(d, root.h1[d]))
    ensures StoresMap(mem.cells, d, Obj(Leftover(q, e, root.t, root.u)), root.ownD)
    ensures StoresMap(mem.cells, changed, Obj(root.u), ownC)
  {
    var keys := mem.cells[d].entries;
    var todo := keys.Keys;
    root.NothingScaledYet();
    while todo != {}
      invariant todo <= root.t.Keys && root.Scaling(mem.cells, todo)
    {
      var k :| k in todo;
      ghost var before := mem.cells;
      RootKeyReady(root, before, todo, k, changed, ownC);
      var change := if k in mem.cells[changed].entries then mem.cells[changed].entries[k] else Leaf(Null);
      ScaleKey(mem, q, e, k, keys[k], change, r, root.t[k], Get(root.u, k), Owned(root.h1[changed].parts, k));
      root.NextRoot(before, mem.cells, todo, k);
      todo := todo - {k};
    }
    RootScaled(root, mem.cells, changed, ownC);
  }

  /** The keys in `added` hold the very values of the change. */
  ghost predicate AddedFrom(h: Heap, h': Heap, r: Address, changed: Address, added: set<string>) {
    && changed in h && r in h'
    && forall k | k in added ::
         k in h[changed].entries && k in h[changed].parts && k in h'[r].entries && k in h'[r].parts &&
         h'[r].entries[k] == h[changed].entries[k] && h'[r].parts[k] == h[changed].parts[k]
  }

  /** The keys in `todo` are still to be added. */
  ghost predicate Adding(h: Heap, h': Heap, r: Address, scaled: Fields, own: set<Address>, changed: Address, u: Fields,
                         ownC: set<Address>, todo: set<string>)
    requires changed in h
  {
    var job := AddJob(h, r, scaled, own, changed, u, ownC);
    && todo <= u.Keys - scaled.Keys && job.Valid() && job.a in job.h0 && job.Progress(h', todo) &&
       SameOutside(h, h', {r})
    && AddedFrom(h, h', r, changed, u.Keys - scaled.Keys - todo)
  }

  lemma AddingStarts(h: Heap, r: Address, scaled: Fields, own: set<Address>, changed: Address, u: Fields,
                     ownC: set<Address>)
    requires StoresMap(h, r, Obj(scaled), own) && StoresMap(h, changed, Obj(u), ownC) && own !! ownC
    ensures Adding(h, h, r, scaled, own, changed, u, ownC, u.Keys - scaled.Keys)
    ensures h[changed].entries.Keys - h[r].entries.Keys == u.Keys - scaled.Keys
  {
    AddStarts(h, r, scaled, own, changed, u, ownC);
  }

  lemma NextAdded(h: Heap, h': Heap, r: Address, scaled: Fields, own: set<Address>, changed: Address, u: Fields,
                  ownC: set<Address>, todo: set<string>, k: string)
    requires StoresMap(h, r, Obj(scaled), own) && StoresMap(h, changed, Obj(u), ownC) && own !! ownC
    requires Adding(h, h', r, scaled, own, changed, u, ownC, todo) && k in todo
    ensures k in h[changed].entries && k in h[changed].parts && r in h'
    ensures var h'' := h'[r := Cell(h'[r].entries[k := h[changed].entries[k]], h'[r].parts[k := h[changed].parts[k]])];
            Adding(h, h'', r, scaled, own, changed, u, ownC, todo - {k})
  {
    AddKey(h, h', r, scaled, own, changed, u, ownC, todo, k);
  }

  /** What the result had before is its own. */
  lemma ScaledApart(h: Heap, h': Heap, r: Address, scaled: Fields, own: set<Address>, changed: Address, u: Fields,
                    ownC: set<Address>, k: string)
    requires StoresMap(h, r, Obj(scaled), own) && changed in h && own !! ownC
    requires Adding(h, h', r, scaled, own, changed, u, ownC, {}) && k in scaled && k in h'[r].parts
    ensures h'[r].parts[k] !! ownC
  {
    var job := AddJob(h, r, scaled, own, changed, u, ownC);
    assert job.KeyState(h', h'[r], {}, k);
    job.PartsApart(k);
  }

  /** All keys are added: the rest of the result has nothing in common with the change. */
  lemma AddedIsShared(h: Heap, h': Heap, r: Address, scaled: Fields, own: set<Address>, changed: Address, u: Fields,
                      ownC: set<Address>)
    requires StoresMap(h, r, Obj(scaled), own) && StoresMap(h, changed, Obj(u), ownC) && own !! ownC
    requires Adding(h, h', r, scaled, own, changed, u, ownC, {})
    ensures Shares(h', changed, ownC, r, scaled + map k | k in u && k !in scaled :: u[k], u.Keys - scaled.Keys)
  {
    assert r in own && changed in ownC && h'[changed] == h[changed];
    assert u.Keys - scaled.Keys - {} == u.Keys - scaled.Keys;
    forall k | k in scaled && k in h'[r].parts ensures h'[r].parts[k] !! ownC {
      ScaledApart(h, h', r, scaled, own, changed, u, ownC, k);
    }
  }

  lemma AddingEnds(h: Heap, h': Heap, r: Address, scaled: Fields, own: set<Address>, changed: Address, u: Fields,
                   ownC: set<Address>)
    requires changed in h && Adding(h, h', r, scaled, own, changed, u, ownC, {})
    ensures StoresMap(h', r, Obj(scaled + map k | k in u && k !in scaled :: u[k]), own + ownC)
  {
    AddJob(h, r, scaled, own, changed, u, ownC).AllMerged(h');
    AddResult(h, r, scaled, own, changed, u, ownC);
  }

  /** Adds the keys that only the change has. */
  method AddChanged(mem: Memory, r: Address, d: Address, changed: Address, ghost scaled: Fields,
                    ghost own: set<Address>, ghost left: Fields, ghost ownD: set<Address>, ghost u: Fields,
                    ghost ownC: set<Address>)
    requires StoresMap(mem.cells, r, Obj(scaled), own) && StoresMap(mem.cells, d, Obj(left), ownD) &&
             StoresMap(mem.cells, changed, Obj(u), ownC)
    requires own !! ownC && r !in ownD && left.Keys == scaled.Keys
    modifies mem
    ensures StoresMap(mem.cells, r, Obj(scaled + map k | k in u && k !in scaled :: u[k]), own + ownC)
    ensures StoresMap(mem.cells, d, Obj(left), ownD) && StoresMap(mem.cells, changed, Obj(u), ownC)
    ensures Shares(mem.cells, changed, ownC, r, scaled + map k | k in u && k !in scaled :: u[k], u.Keys - scaled.Keys)
  {
    ghost var h := mem.cells;
    AddingStarts(h, r, scaled, own, changed, u, ownC);
    var c := mem.cells[changed].entries;
    ghost var parts := mem.cells[changed].parts;
    var todo := c.Keys - mem.cells[d].entries.Keys;
    while todo != {}
      invariant Adding(h, mem.cells, r, scaled, own, changed, u, ownC, todo)
    {
      var k :| k in todo;
      NextAdded(h, mem.cells, r, scaled, own, changed, u, ownC, todo, k);
      mem.cells := mem.cells[r := Cell(mem.cells[r].entries[k := c[k]], mem.cells[r].parts[k := parts[k]])];
      todo := todo - {k};
    }
    AddingEnds(h, mem.cells, r, scaled, own, changed, u, ownC);
    StoredElsewhere(h, mem.cells, r, d, left, ownD);
    StoredElsewhere(h, mem.cells, r, changed, u, ownC);
    AddedIsShared(h, mem.cells, r, scaled, own, changed, u, ownC);
  }

  lemma AddResult(h: Heap, r: Address, scaled: Fields, own: set<Address>, changed: Address, u: Fields,
                  ownC: set<Address>)
    requires changed in h
    ensures AddJob(h, r, scaled, own, changed, u, ownC).Result() == Obj(scaled + map k | k in u && k !in scaled :: u[k])
  {
  }

  lemma StoredElsewhere(h: Heap, h': Heap, r: Address, a: Address, t: Fields, own: set<Address>)
    requires StoresMap(h, a, Obj(t), own) && SameOutside(h, h', {r}) && r !in own
    ensures StoresMap(h', a, Obj(t), own)
  {
    Untouched(h, h', Ref(a), Obj(t), own);
  }

  lemma ScaledAndAdded(q: Quantities, e: Extreme, t: Fields, u: Fields)
    ensures var scaled := ScaledOriginal(q, e, t, u);
            scaled + (map k | k in u && k !in scaled :: u[k]) == Shrink(q, e, t, u)
  {
  }

  /** Scales the configuration at `d` with the one at `changed`. The result stores the scaled tree. The original
      is not left as it was: of the maps on its first level the scalars stay, but what lies deeper, and every
      list of the root, is scaled where it is. The result refers to the user's own values in the keys that only
      the user has, and to nothing else of the user's. */
  method ShrinkSize(mem: Memory, q: Quantities, e: Extreme, d: Address, changed: Address,
                    ghost t: Fields, ghost ownD: set<Address>, ghost u: Fields, ghost ownC: set<Address>)
    returns (r: Address, ghost ownR: set<Address>)
    requires StoresMap(mem.cells, d, Obj(t), ownD) && StoresMap(mem.cells, changed, Obj(u), ownC) && ownD !! ownC
    requires ownD <= mem.cells.Keys && ownC <= mem.cells.Keys && ShrinkObjDefined(Obj(t), Obj(u))
    modifies mem
    ensures StoresMap(mem.cells, r, Obj(Shrink(q, e, t, u)), ownR)
    ensures StoresMap(mem.cells, d, Obj(Leftover(q, e, t, u)), ownD)
    ensures StoresMap(mem.cells, changed, Obj(u), ownC)
    ensures Shares(mem.cells, changed, ownC, r, Shrink(q, e, t, u), u.Keys - t.Keys)
  {
    r, ownR := CopyRoot(mem, q, e, d, t, ownD, changed, u, ownC);
    ghost var root := Root(q, e, mem.cells, d, r, t, u, ownD, ownR);
    ScaleRoot(mem, q, e, d, r, changed, root, ownC);
    TopsOwned(root.h1, d, t, ownD);
    ghost var scaled := ScaledOriginal(q, e, t, u);
    AddChanged(mem, r, d, changed, scaled, ownR + Tops(d, root.h1[d]), Leftover(q, e, t, u), ownD, u, ownC);
    ownR := ownR + Tops(d, root.h1[d]) + ownC;
    ScaledAndAdded(q, e, t, u);
  }

  /** No map or list directly below a map of the root would be changed by scaling it, and no list of the root. */
  ghost predicate LeavesOriginal(q: Quantities, e: Extreme, t: Fields, u: Fields) {
    forall k | k in t ::
      && (t[k].Obj? && Get(u, k).Obj? ==>
            forall n | n in t[k].fields && !t[k].fields[n].Scalar() ::
              ShrinkValue(q, e, t[k].fields[n], Get(u[k].fields, n)) == t[k].fields[n])
      && (t[k].List? && Get(u, k).List? ==> ShrinkItems(q, e, t[k].items, u[k].items) == t[k].items)
  }

  lemma RootMapLeft(q: Quantities, e: Extreme, x: Json, y: Json)
    requires x.Obj?
    ensures AfterScaling(q, e, x, y) == x <==>
            (y.Obj? ==> forall n | n in x.fields && !x.fields[n].Scalar() ::
             ShrinkValue(q, e, x.fields[n], Get(y.fields, n)) == x.fields[n])
  {
    var left := AfterScaling(q, e, x, y);
    if y.Obj? {
      forall n | n in x.fields && !x.fields[n].Scalar()
        ensures left.fields[n] == ShrinkValue(q, e, x.fields[n], Get(y.fields, n))
      {
        GetShrunk(q, e, x, y, n);
      }
      if forall n | n in x.fields && !x.fields[n].Scalar() ::
        ShrinkValue(q, e, x.fields[n], Get(y.fields, n)) == x.fields[n] {
        SameFields(left.fields, x.fields);
      }
    } else {
      AfterNothing(q, e, x, y);
    }
  }

  /** The scaling leaves the original as it was if and only if nothing below the first level changes. */
  lemma OriginalKeptIff(q: Quantities, e: Extreme, t: Fields, u: Fields)
    ensures Leftover(q, e, t, u) == t <==> LeavesOriginal(q, e, t, u)
  {
    var left := Leftover(q, e, t, u);
    forall k | k in t
      ensures left[k] == t[k] <==>
        (t[k].Obj? && Get(u, k).Obj? ==>
           forall n | n in t[k].fields && !t[k].fields[n].Scalar() ::
             ShrinkValue(q, e, t[k].fields[n], Get(u[k].fields, n)) == t[k].fields[n]) &&
        (t[k].List? && Get(u, k).List? ==> ShrinkItems(q, e, t[k].items, u[k].items) == t[k].items)
    {
      if t[k].Obj? {
        RootMapLeft(q, e, t[k], Get(u, k));
      }
    }
    if LeavesOriginal(q, e, t, u) {
      SameFields(left, t);
    }
  }

  lemma LargerTaken(q: Quantities, size: string, small: string, large: string)
    requires Larger(q, Str(small), Str(large)) == Str(large)
    ensures ShrinkValue(q, Max, Obj(map[size := Str(small)]), Obj(map[size := Str(large)])) ==
            Obj(map[size := Str(large)])
  {
    var x, y := Obj(map[size := Str(small)]), Obj(map[size := Str(large)]);
    GetShrunk(q, Max, x, y, size);
    assert ShrinkValue(q, Max, Str(small), Str(large)) == Str(large);
    SameFields(ShrinkObj(q, Max, x, y).fields, y.fields);
  }

  /** A template with a size two maps deep, scaled up by a larger one: afterwards the original holds the larger one. */
  lemma OriginalIsScaled(q: Quantities, a: string, b: string, size: string, small: string, large: string)
    requires small != large && Larger(q, Str(small), Str(large)) == Str(large)
    ensures var t := map[a := Obj(map[b := Obj(map[size := Str(small)])])];
            var u := map[a := Obj(map[b := Obj(map[size := Str(large)])])];
            Leftover(q, Max, t, u) == u && u != t && !LeavesOriginal(q, Max, t, u)
  {
    var t := map[a := Obj(map[b := Obj(map[size := Str(small)])])];
    var u := map[a := Obj(map[b := Obj(map[size := Str(large)])])];
    var x, y := Obj(map[size := Str(small)]), Obj(map[size := Str(large)]);
    LargerTaken(q, size, small, large);
    GetShrunk(q, Max, t[a], u[a], b);
    SameFields(AfterScaling(q, Max, t[a], u[a]).fields, u[a].fields);
    SameFields(Leftover(q, Max, t, u), u);
    assert t[a].fields[b].fields[size] != u[a].fields[b].fields[size];
    OriginalKeptIff(q, Max, t, u);
  }
}
