/** The merged resource list is a keyed union: what happens to each resource of either side. */
module ResourceLaws {
  import opened Trees
  import opened ResourceComparison
  import opened Merging
  import opened Resources

  lemma CleanupKeepsField(t: Json, k: string)
    requires t.Obj? && k != "data"
    ensures Field(DropInitdb(t), k) == Field(t, k) == Field(ClearCpuLimit(t), k)
    ensures DropInitdb(t).Obj? && ClearCpuLimit(t).Obj?
  {
  }

  lemma CombinedField(q: Quantities, b: Json, r: Json, controller: string, k: string)
    requires b.Obj? && r.Obj? && k != "data" && k !in COMPARABLE_KEYS
    ensures Combine(q, b, r, controller).Obj?
    ensures Field(Combine(q, b, r, controller), k) == MergeValue(LargestWins(q), k, Field(b, k), Field(r, k))
  {
    var merged := Obj(Merge(LargestWins(q), b.fields, r.fields));
    GetMerge(LargestWins(q), b.fields, r.fields, k);
    CleanupKeepsField(merged, k);
    var cleaned := if IsCluster(r) then DropInitdb(merged) else merged;
    assert cleaned.Obj? && Field(cleaned, k) == Field(merged, k);
    CleanupKeepsField(cleaned, k);
  }

  /** Merging keeps the identity of the base resource, however its namespace is written. */
  lemma CombineKeepsIdentity(q: Quantities, b: Json, r: Json, opconNs: string, controller: string)
    requires Matches(b, r, opconNs)
    ensures Named(Combine(q, b, r, controller))
    ensures IdentityOf(Combine(q, b, r, controller), opconNs) == IdentityOf(b, opconNs)
  {
    IdentityKeys();
    CombinedText(q, b, r, controller, "apiVersion");
    CombinedText(q, b, r, controller, "kind");
    CombinedText(q, b, r, controller, "name");
    CombinedNamespace(q, b, r, opconNs, controller);
  }

  lemma IdentityKeys()
    ensures forall k | k in {"apiVersion", "kind", "name", "namespace"} :: k != "data" && k !in COMPARABLE_KEYS
  {
  }

  lemma CombinedNamespace(q: Quantities, b: Json, r: Json, opconNs: string, controller: string)
    requires b.Obj? && r.Obj? && IdentityOf(b, opconNs).namespace == IdentityOf(r, opconNs).namespace
    ensures IdentityOf(Combine(q, b, r, controller), opconNs).namespace == IdentityOf(b, opconNs).namespace
  {
    IdentityKeys();
    CombinedField(q, b, r, controller, "namespace");
  }

  /** A text that both resources share is kept. */
  lemma CombinedText(q: Quantities, b: Json, r: Json, controller: string, k: string)
    requires b.Obj? && r.Obj? && k != "data" && k !in COMPARABLE_KEYS
    requires StringField(b, k) == StringField(r, k) != ""
    ensures Combine(q, b, r, controller).Obj? && StringField(Combine(q, b, r, controller), k) == StringField(b, k)
  {
    CombinedField(q, b, r, controller, k);
  }

  /** Clearing sets the CPU limit of a resource that states limits, and nothing else. */
  lemma ClearedLimits(t: Json, k: string)
    requires t.Obj?
    ensures Limits(ClearCpuLimit(t)).Obj? <==> Limits(t).Obj?
    ensures Limits(t).Obj? ==> Field(Limits(ClearCpuLimit(t)), k) == if k == "cpu" then Cleared else Field(Limits(t), k)
    ensures !Limits(t).Obj? ==> ClearCpuLimit(t) == t
  {
  }

  /** A resource merged for an externally sized service is left without a CPU limit. */
  lemma ExternalLimitsCleared(q: Quantities, b: Json, r: Json, controller: string)
    requires b.Obj? && r.Obj? && controller in EXTERNAL_CONTROLLERS
    ensures var t := Combine(q, b, r, controller);
            Limits(t).Obj? ==> Field(Limits(t), "cpu") == Cleared
  {
    var merged := Obj(Merge(LargestWins(q), b.fields, r.fields));
    CleanupKeepsField(merged, "");
    ClearedLimits(if IsCluster(r) then DropInitdb(merged) else merged, "cpu");
  }

  /** The last resource of the CR either takes the first free base resource or changes nothing. */
  lemma LastPartner(base: seq<Json>, cs: seq<Json>, opconNs: string)
    requires cs != []
    ensures var n := |cs| - 1;
            var p0, p := Partners(base, cs[..n], opconNs), Partners(base, cs, opconNs);
            var k := FirstFree(base, p0.Keys, cs[n], opconNs, 0);
            && p == (if k.Some? then p0[k.value := n] else p0)
            && p.Values == p0.Values + (if k.Some? then {n} else {})
            && n !in p0.Values
  {
    var n := |cs| - 1;
    var p0, p := Partners(base, cs[..n], opconNs), Partners(base, cs, opconNs);
    var k := FirstFree(base, p0.Keys, cs[n], opconNs, 0);
    if k.Some? {
      forall v | v in p0.Values ensures v in p.Values {
        var x :| x in p0 && p0[x] == v;
        assert p[x] == v;
      }
      assert p[k.value] == n;
    }
  }

  /** The matching is one to one: no resource of the CR is merged twice. */
  lemma {:induction false} PartnersAreInjective(base: seq<Json>, cs: seq<Json>, opconNs: string)
    ensures var p := Partners(base, cs, opconNs); forall i, j | i in p && j in p && p[i] == p[j] :: i == j
    decreases |cs|
  {
    if cs != [] {
      PartnersAreInjective(base, cs[..|cs| - 1], opconNs);
      LastPartner(base, cs, opconNs);
    }
  }

  /** A valid resource has no partner only when every base resource of its identity is taken. */
  lemma {:induction false} PartnersAreMaximal(base: seq<Json>, cs: seq<Json>, opconNs: string, i: nat, m: nat)
    requires i < |base| && m < |cs| && Matches(base[i], cs[m], opconNs)
    requires m !in Partners(base, cs, opconNs).Values
    ensures i in Partners(base, cs, opconNs)
    decreases |cs|
  {
    LastPartner(base, cs, opconNs);
    if m < |cs| - 1 {
      assert cs[..|cs| - 1][m] == cs[m];
      PartnersAreMaximal(base, cs[..|cs| - 1], opconNs, i, m);
    }
  }

  lemma {:induction false} OthersSame(cs: seq<Json>, h: set<nat>, h': set<nat>)
    requires forall j: nat | j < |cs| :: j in h <==> j in h'
    ensures Others(cs, h) == Others(cs, h')
    decreases |cs|
  {
    if cs != [] {
      OthersSame(cs[..|cs| - 1], h, h');
    }
  }

  /** `r` is a resource that was not dealt with. */
  ghost predicate LeftOver(cs: seq<Json>, handled: set<nat>, r: Json) {
    exists j: nat :: j < |cs| && j !in handled && cs[j] == r
  }

  lemma LeftOverLast(cs: seq<Json>, handled: set<nat>, r: Json)
    requires cs != []
    ensures var n: nat := |cs| - 1;
            LeftOver(cs, handled, r) <==> LeftOver(cs[..n], handled, r) || (n !in handled && cs[n] == r)
  {
    var n: nat := |cs| - 1;
    if LeftOver(cs[..n], handled, r) {
      var j: nat :| j < n && j !in handled && cs[..n][j] == r;
      assert cs[j] == r;
    }
    if LeftOver(cs, handled, r) {
      var j: nat :| j < |cs| && j !in handled && cs[j] == r;
      if j < n { assert cs[..n][j] == r; }
    }
  }

  /** What is appended is exactly what was not dealt with. */
  lemma {:induction false} OthersMembers(cs: seq<Json>, handled: set<nat>, r: Json)
    ensures r in Others(cs, handled) <==> LeftOver(cs, handled, r)
    decreases |cs|
  {
    if cs != [] {
      OthersMembers(cs[..|cs| - 1], handled, r);
      LeftOverLast(cs, handled, r);
    }
  }

  /** The two sides of the union, position by position: a base resource stays where it is and keeps
      its identity; it is merged with its partner if it has one and unchanged otherwise. */
  lemma MergedInPlace(q: Quantities, base: seq<Json>, cs: seq<Json>, opconNs: string, controller: string, i: nat)
    requires i < |base|
    ensures var r, p := MergeArrays(q, base, cs, opconNs, controller), Partners(base, cs, opconNs);
            && |base| <= |r|
            && r[i] == (if i in p then Combine(q, base[i], cs[p[i]], controller) else base[i])
            && IdentityOf(r[i], opconNs) == IdentityOf(base[i], opconNs)
            && (r[i].Obj? <==> base[i].Obj?)
  {
    var p := Partners(base, cs, opconNs);
    if i in p {
      CombineKeepsIdentity(q, base[i], cs[p[i]], opconNs, controller);
    }
  }

  /** How many resources of the CR are valid. */
  function NamedCount(cs: seq<Json>): nat
    decreases |cs|
  {
    if cs == [] then 0 else NamedCount(cs[..|cs| - 1]) + if Named(cs[|cs| - 1]) then 1 else 0
  }

  lemma {:induction false} MergedOrAppended(base: seq<Json>, cs: seq<Json>, opconNs: string)
    ensures var p := Partners(base, cs, opconNs); |Others(cs, Handled(cs, p))| + |p| == NamedCount(cs)
    decreases |cs|
  {
    var p := Partners(base, cs, opconNs);
    if cs != [] {
      var n := |cs| - 1;
      MergedOrAppended(base, cs[..n], opconNs);
      var p0 := Partners(base, cs[..n], opconNs);
      var k := FirstFree(base, p0.Keys, cs[n], opconNs, 0);
      assert p == if k.Some? then p0[k.value := n] else p0;
      if k.Some? {
        assert p.Keys == p0.Keys + {k.value};
        assert |p.Keys| == |p| && |p0.Keys| == |p0|;
      }
      assert cs[..n + 1] == cs;
      HandledGrows(cs, n, p0, p);
      OthersSame(cs[..n], Handled(cs, p), Handled(cs[..n], p0));
    }
  }

  /** Conservation: every valid resource of the CR is merged into a base resource or appended,
      never both and never twice, so the list grows by exactly the valid resources that found no
      partner. */
  lemma EveryResourceOnce(q: Quantities, base: seq<Json>, cs: seq<Json>, opconNs: string, controller: string)
    ensures var r, p := MergeArrays(q, base, cs, opconNs, controller), Partners(base, cs, opconNs);
            && |r| + |p| == |base| + NamedCount(cs)
            && r[|base|..] == Others(cs, Handled(cs, p))
            && (forall i, j | i in p && j in p && p[i] == p[j] :: i == j)
  {
    MergedOrAppended(base, cs, opconNs);
    PartnersAreInjective(base, cs, opconNs);
  }

  /** No two entries of one identity. */
  ghost predicate UniqueIdentities(rs: seq<Json>, opconNs: string) {
    forall i, j | 0 <= i < j < |rs| && Named(rs[i]) && Named(rs[j]) ::
      IdentityOf(rs[i], opconNs) != IdentityOf(rs[j], opconNs)
  }

  /** With unique identities on the CR's side the union is by key: a base resource is merged exactly
      when the CR lists its identity, and what is appended is exactly what the base lacks. */
  lemma KeyedUnion(base: seq<Json>, cs: seq<Json>, opconNs: string)
    requires UniqueIdentities(cs, opconNs) && UniqueIdentities(base, opconNs)
    ensures var p := Partners(base, cs, opconNs);
            && (forall i, n | 0 <= i < |base| && 0 <= n < |cs| && Matches(base[i], cs[n], opconNs) ::
                  i in p && p[i] == n)
            && (forall n: nat | n < |cs| :: n !in Handled(cs, p) <==> Named(cs[n]) && forall i | 0 <= i < |base| ::
                !Matches(base[i], cs[n], opconNs))
  {
    var p := Partners(base, cs, opconNs);
    forall i, n | 0 <= i < |base| && 0 <= n < |cs| && Matches(base[i], cs[n], opconNs)
      ensures i in p && p[i] == n
    {
      if n !in p.Values {
        PartnersAreMaximal(base, cs, opconNs, i, n);
      } else {
        var x :| x in p && p[x] == n;
        assert Matches(base[x], cs[n], opconNs);
        assert Named(base[x]) && Named(base[i]);
      }
    }
  }

  /** Unique identities on both sides stay unique. */
  lemma UnionStaysUnique(q: Quantities, base: seq<Json>, cs: seq<Json>, opconNs: string, controller: string)
    requires UniqueIdentities(base, opconNs) && UniqueIdentities(cs, opconNs)
    ensures UniqueIdentities(MergeArrays(q, base, cs, opconNs, controller), opconNs)
  {
    var r := MergeArrays(q, base, cs, opconNs, controller);
    var p := Partners(base, cs, opconNs);
    var h := Handled(cs, p);
    KeyedUnion(base, cs, opconNs);
    OthersUnique(cs, h, opconNs);
    forall i, j | 0 <= i < j < |r| && Named(r[i]) && Named(r[j])
      ensures IdentityOf(r[i], opconNs) != IdentityOf(r[j], opconNs)
    {
      if i < |base| { MergedInPlace(q, base, cs, opconNs, controller, i); }
      if j < |base| {
        MergedInPlace(q, base, cs, opconNs, controller, j);
        assert Named(base[i]) && Named(base[j]);
      } else if i < |base| {
        assert r[j] == Others(cs, h)[j - |base|];
        OthersMembers(cs, h, r[j]);
        var n: nat :| n < |cs| && n !in h && cs[n] == r[j];
        assert !Matches(base[i], cs[n], opconNs);
      } else {
        assert r[i] == Others(cs, h)[i - |base|] && r[j] == Others(cs, h)[j - |base|];
      }
    }
  }

  lemma {:induction false} OthersUnique(cs: seq<Json>, h: set<nat>, opconNs: string)
    requires UniqueIdentities(cs, opconNs)
    ensures UniqueIdentities(Others(cs, h), opconNs)
    decreases |cs|
  {
    if cs != [] {
      var n := |cs| - 1;
      assert forall i, j | 0 <= i < j < n :: cs[..n][i] == cs[i] && cs[..n][j] == cs[j];
      OthersUnique(cs[..n], h, opconNs);
      var o := Others(cs[..n], h);
      forall i | 0 <= i < |o| && Named(o[i]) && Named(cs[n])
        ensures IdentityOf(o[i], opconNs) != IdentityOf(cs[n], opconNs)
      {
        OthersMembers(cs[..n], h, o[i]);
        var k: nat :| k < n && cs[..n][k] == o[i];
        assert cs[k] == o[i];
      }
    }
  }
}
