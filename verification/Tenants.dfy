/** Many tenants writing to one namespace mapping. */
module Tenants {
  import opened Sequences
  import opened Text
  import opened NamespaceMaps
  import opened Wrappers

  lemma {:induction false} UnwatchedMembers(nss: seq<string>, watch: seq<string>, ns: string)
    ensures ns in Unwatched(nss, watch) <==> ns in nss && ns !in watch
  {
    if nss != [] {
      UnwatchedMembers(nss[1..], watch, ns);
    }
  }

  lemma {:induction false} UnwatchedSplit(a: seq<string>, b: seq<string>, watch: seq<string>)
    ensures Unwatched(a + b, watch) == Unwatched(a, watch) + Unwatched(b, watch)
  {
    if a == [] {
      assert a + b == b;
    } else {
      UnwatchedSplit(a[1..], b, watch);
      HeadOfConcat(a, b);
      Associate(if a[0] in watch then [] else [a[0]], Unwatched(a[1..], watch), Unwatched(b, watch));
    }
  }

  lemma {:induction false} DisjointUnwatched(nss: seq<string>, watch: seq<string>)
    requires forall ns | ns in nss :: ns !in watch
    ensures Unwatched(nss, watch) == nss
  {
    if nss != [] {
      assert nss[0] in nss;
      DisjointUnwatched(nss[1..], watch);
    }
  }

  /** `sub` keeps some elements of `s` and their order. */
  predicate Subsequence(sub: seq<string>, s: seq<string>) {
    if sub == [] then true
    else if s == [] then false
    else if sub[0] == s[0] && Subsequence(sub[1..], s[1..]) then true
    else Subsequence(sub, s[1..])
  }

  lemma {:induction false} SubsequenceMembers(sub: seq<string>, s: seq<string>)
    requires Subsequence(sub, s)
    ensures forall x | x in sub :: x in s
    ensures Distinct(s) ==> Distinct(sub)
    decreases |s|
  {
    if sub != [] {
      assert forall x | x in s[1..] :: x in s;
      if Distinct(s) {
        assert Distinct(s[1..]) && s[0] !in s[1..];
      }
      if sub[0] == s[0] && Subsequence(sub[1..], s[1..]) {
        SubsequenceMembers(sub[1..], s[1..]);
        assert sub == [sub[0]] + sub[1..];
      } else {
        SubsequenceMembers(sub, s[1..]);
      }
    }
  }

  lemma {:induction false} SubsequenceAppend(a: seq<string>, s: seq<string>, b: seq<string>, t: seq<string>)
    requires Subsequence(a, s) && Subsequence(b, t)
    ensures Subsequence(a + b, s + t)
    decreases |s|
  {
    if a == [] {
      assert a + b == b;
      SkipPrefix(b, s, t);
    } else {
      HeadOfConcat(s, t);
      if a[0] == s[0] && Subsequence(a[1..], s[1..]) {
        HeadOfConcat(a, b);
        SubsequenceAppend(a[1..], s[1..], b, t);
      } else {
        SubsequenceAppend(a, s[1..], b, t);
      }
    }
  }

  lemma {:induction false} SkipPrefix(b: seq<string>, s: seq<string>, t: seq<string>)
    requires Subsequence(b, t)
    ensures Subsequence(b, s + t)
    decreases |s|
  {
    if s == [] {
      assert s + t == t;
    } else {
      SkipPrefix(b, s[1..], t);
      assert (s + t)[1..] == s[1..] + t;
    }
  }

  lemma {:induction false} UnwatchedIsSubsequence(nss: seq<string>, watch: seq<string>)
    ensures Subsequence(Unwatched(nss, watch), nss)
  {
    if nss != [] {
      UnwatchedIsSubsequence(nss[1..], watch);
      if nss[0] in watch {
        assert Unwatched(nss, watch) == Unwatched(nss[1..], watch);
      } else {
        assert Unwatched(nss, watch)[1..] == Unwatched(nss[1..], watch);
      }
    }
  }

  /** What an update leaves is part of what was there, in the old order. */
  lemma {:induction false} KeptIsSubsequence(es: seq<NsMapping>, watch: seq<string>)
    ensures Subsequence(CsNamespaces(Keep(es, watch)), CsNamespaces(es))
    ensures Subsequence(Requests(Keep(es, watch)), Requests(es))
    ensures forall ns | ns in Requests(Keep(es, watch)) :: ns !in watch
  {
    if es != [] {
      KeptIsSubsequence(es[1..], watch);
      var first := KeepEntry(es[0], watch);
      UnwatchedIsSubsequence(es[0].requestNs, watch);
      assert Requests([es[0]]) == es[0].requestNs;
      RequestsSplit(first, Keep(es[1..], watch));
      if first == [] {
        assert Keep(es, watch) == Keep(es[1..], watch);
        SkipPrefix(Requests(Keep(es, watch)), es[0].requestNs, Requests(es[1..]));
        assert CsNamespaces(es)[1..] == CsNamespaces(es[1..]);
      } else {
        var rest := Unwatched(es[0].requestNs, watch);
        assert Requests(first) == rest;
        SubsequenceAppend(rest, es[0].requestNs, Requests(Keep(es[1..], watch)), Requests(es[1..]));
        forall ns | ns in rest ensures ns !in watch { UnwatchedMembers(es[0].requestNs, watch, ns); }
        assert CsNamespaces(Keep(es, watch))[1..] == CsNamespaces(Keep(es[1..], watch));
        assert CsNamespaces(es)[1..] == CsNamespaces(es[1..]);
      }
    }
  }

  lemma {:induction false} KeptServices(es: seq<NsMapping>, watch: seq<string>)
    ensures forall e | e in Keep(es, watch) :: e.csNs !in watch && e.csNs != "" && e.requestNs != []
    ensures forall ns | ns in CsNamespaces(Keep(es, watch)) :: ns !in watch
  {
    if es != [] {
      KeptServices(es[1..], watch);
      var ks := Keep(es, watch);
      forall ns | ns in CsNamespaces(ks) ensures ns !in watch {
        var i :| 0 <= i < |ks| && CsNamespaces(ks)[i] == ns;
        assert ks[i] in ks;
      }
    }
  }

  lemma DistinctAppend(a: seq<string>, b: seq<string>)
    ensures Distinct(a + b) <==> Distinct(a) && Distinct(b) && forall x | x in a :: x !in b
  {
    var s := a + b;
    assert forall i | 0 <= i < |a| :: s[i] == a[i];
    assert forall j | 0 <= j < |b| :: s[|a| + j] == b[j];
    if !Distinct(s) && Distinct(a) && Distinct(b) {
      var i, j :| 0 <= i < j < |s| && s[i] == s[j];
      assert i < |a| <= j;
      assert s[i] in a && s[j] == b[j - |a|];
    }
  }

  /** One update of a valid mapping: exactly when it stays valid. */
  lemma UpdateKeepsValid(m: CsMaps, watch: seq<string>, csNs: string)
    requires Valid(m)
    ensures var m' := Update(m, watch, csNs);
            Valid(m') <==>
              && Distinct(watch) && m'.controlNs !in watch && m'.controlNs != csNs
              && csNs !in CsNamespaces(Keep(m.mappings, watch))
              && (m.controlNs == "" ==>
                    && m'.controlNs !in CsNamespaces(Keep(m.mappings, watch))
                    && m'.controlNs !in Requests(Keep(m.mappings, watch)))
  {
    var m' := Update(m, watch, csNs);
    var kept := Keep(m.mappings, watch);
    KeptIsSubsequence(m.mappings, watch);
    SubsequenceMembers(CsNamespaces(kept), CsNamespaces(m.mappings));
    SubsequenceMembers(Requests(kept), Requests(m.mappings));
    assert CsNamespaces(m'.mappings) == [csNs] + CsNamespaces(kept);
    assert Requests(m'.mappings) == watch + Requests(kept);
    DistinctAppend([csNs], CsNamespaces(kept));
    DistinctAppend(watch, Requests(kept));
  }

  /** A tenant's call: the namespaces it watches, as a comma separated list, and the one that serves them. */
  datatype Call = Call(requestNsList: string, servicesNs: string)

  function Run(m: CsMaps, calls: seq<Call>): CsMaps
    decreases |calls|
  {
    if calls == [] then m else Run(Update(m, Split(calls[0].requestNsList, ','), calls[0].servicesNs), calls[1..])
  }

  /** The tenant serves itself and lists no namespace twice or the control namespace. */
  predicate WellBehaved(call: Call, controlNs: string) {
    var watch := Split(call.requestNsList, ',');
    Distinct(watch) && call.servicesNs in watch && controlNs !in watch
  }

  /** The control namespace in force, which the first update fills in when it is missing. */
  function ControlNs(m: CsMaps): string {
    if m.controlNs == "" then "cs-control" else m.controlNs
  }

  /** Valid, and the control namespace in force is nobody's. */
  predicate Safe(m: CsMaps) {
    Valid(m) && ControlNs(m) !in CsNamespaces(m.mappings) && ControlNs(m) !in Requests(m.mappings)
  }

  /** Over any run of well-behaved tenants, whatever their watch lists take from each other, the
      mapping stays valid, so no call is ever refused. */
  lemma {:induction false} RunsStaySafe(m: CsMaps, calls: seq<Call>)
    requires Safe(m) && forall call | call in calls :: WellBehaved(call, ControlNs(m))
    ensures Safe(Run(m, calls)) && ControlNs(Run(m, calls)) == ControlNs(m)
    decreases |calls|
  {
    if calls != [] {
      var watch := Split(calls[0].requestNsList, ',');
      var m' := Update(m, watch, calls[0].servicesNs);
      assert calls[0] in calls;
      UpdateKeepsValid(m, watch, calls[0].servicesNs);
      KeptServices(m.mappings, watch);
      KeptIsSubsequence(m.mappings, watch);
      SubsequenceMembers(CsNamespaces(Keep(m.mappings, watch)), CsNamespaces(m.mappings));
      SubsequenceMembers(Requests(Keep(m.mappings, watch)), Requests(m.mappings));
      RunsStaySafe(m', calls[1..]);
    }
  }

  /** The same run as the cluster sees it: a call whose result does not validate is refused. */
  function GuardedRun(m: CsMaps, calls: seq<Call>): CsMaps
    decreases |calls|
  {
    if calls == [] then m
    else
      var m' := Update(m, Split(calls[0].requestNsList, ','), calls[0].servicesNs);
      GuardedRun(if Valid(m') then m' else m, calls[1..])
  }

  /** Whatever the tenants do, what is stored stays valid; and well-behaved tenants are never refused. */
  lemma {:induction false} GuardedRunsStayValid(m: CsMaps, calls: seq<Call>)
    requires Valid(m)
    ensures Valid(GuardedRun(m, calls))
    ensures Safe(m) && (forall call | call in calls :: WellBehaved(call, ControlNs(m))) ==>
            GuardedRun(m, calls) == Run(m, calls)
    decreases |calls|
  {
    if calls != [] {
      var m' := Update(m, Split(calls[0].requestNsList, ','), calls[0].servicesNs);
      GuardedRunsStayValid(if Valid(m') then m' else m, calls[1..]);
      if Safe(m) && forall call | call in calls :: WellBehaved(call, ControlNs(m)) {
        assert calls[0] in calls && [calls[0]][1..] == [];
        RunsStaySafe(m, [calls[0]]);
        assert Run(m, [calls[0]]) == Run(m', []) == m';
      }
    }
  }

  /** A tenant whose services namespace is not in its own watch list can make the mapping invalid. */
  lemma UnwatchedServicesNamespace()
    ensures var m := CsMaps("cs-control", [NsMapping(["a"], "cs")]);
            Safe(m) && !Valid(Update(m, ["b"], "cs"))
  {
    var m := CsMaps("cs-control", [NsMapping(["a"], "cs")]);
    assert Requests(m.mappings) == ["a"] && CsNamespaces(m.mappings) == ["cs"];
    assert Unwatched(["a"], ["b"]) == ["a"];
    assert Keep(m.mappings, ["b"])[0].csNs == "cs";
    assert CsNamespaces(Keep(m.mappings, ["b"]))[0] == "cs";
    UpdateKeepsValid(m, ["b"], "cs");
  }

  /** The mapping the first tenant creates. */
  function Initial(call: Call): CsMaps {
    CsMaps("cs-control", [NsMapping(Split(call.requestNsList, ','), call.servicesNs)])
  }

  lemma InitialIsSafe(call: Call)
    requires WellBehaved(call, "cs-control")
    ensures Safe(Initial(call))
  {
    var m := Initial(call);
    assert Requests(m.mappings) == Split(call.requestNsList, ',');
    assert CsNamespaces(m.mappings) == [call.servicesNs];
  }

  /** Writing the same entry again changes nothing, whatever the mapping was. */
  lemma UpdateIsIdempotent(m: CsMaps, watch: seq<string>, csNs: string)
    ensures Update(Update(m, watch, csNs), watch, csNs) == Update(m, watch, csNs)
  {
    var kept := Keep(m.mappings, watch);
    OwnRequestsGone(watch, watch);
    assert KeepEntry(NsMapping(watch, csNs), watch) == [];
    assert Keep([NsMapping(watch, csNs)] + kept, watch) == Keep(kept, watch);
    KeepAgain(m.mappings, watch);
  }

  lemma {:induction false} OwnRequestsGone(nss: seq<string>, watch: seq<string>)
    requires forall ns | ns in nss :: ns in watch
    ensures Unwatched(nss, watch) == []
  {
    if nss != [] {
      assert nss[0] in nss;
      OwnRequestsGone(nss[1..], watch);
    }
  }

  lemma {:induction false} KeepAgain(es: seq<NsMapping>, watch: seq<string>)
    ensures Keep(Keep(es, watch), watch) == Keep(es, watch)
  {
    if es != [] {
      KeepAgain(es[1..], watch);
      var first := KeepEntry(es[0], watch);
      KeepSplit(first, Keep(es[1..], watch), watch);
      var rest := Unwatched(es[0].requestNs, watch);
      forall ns | ns in rest ensures ns !in watch { UnwatchedMembers(es[0].requestNs, watch, ns); }
      DisjointUnwatched(rest, watch);
      assert Keep(first, watch) == first;
    }
  }

  ghost predicate Disjoint(a: seq<string>, b: seq<string>) {
    forall x | x in a :: x !in b
  }

  lemma {:induction false} UnwatchedCommutes(nss: seq<string>, a: seq<string>, b: seq<string>)
    ensures Unwatched(Unwatched(nss, a), b) == Unwatched(Unwatched(nss, b), a)
  {
    if nss != [] {
      UnwatchedCommutes(nss[1..], a, b);
      var rest := nss[1..];
      UnwatchedSplit(if nss[0] in a then [] else [nss[0]], Unwatched(rest, a), b);
      UnwatchedSplit(if nss[0] in b then [] else [nss[0]], Unwatched(rest, b), a);
    }
  }

  lemma {:induction false} KeepCommutes(es: seq<NsMapping>, a: seq<string>, b: seq<string>)
    ensures Keep(Keep(es, a), b) == Keep(Keep(es, b), a)
  {
    if es != [] {
      KeepCommutes(es[1..], a, b);
      KeepSplit(KeepEntry(es[0], a), Keep(es[1..], a), b);
      KeepSplit(KeepEntry(es[0], b), Keep(es[1..], b), a);
      KeepEntryCommutes(es[0], a, b);
    }
  }

  lemma KeepEntryCommutes(e: NsMapping, a: seq<string>, b: seq<string>)
    ensures Keep(KeepEntry(e, a), b) == Keep(KeepEntry(e, b), a)
  {
    UnwatchedCommutes(e.requestNs, a, b);
    assert Unwatched([], a) == [] && Unwatched([], b) == [];
  }

  /** Two tenants with disjoint watch lists: the order of their updates shows only in the order of
      the two new entries. */
  lemma UpdatesCommute(m: CsMaps, a: seq<string>, csA: string, b: seq<string>, csB: string)
    requires a != [] && b != [] && Disjoint(a, b) && csA in a && csB in b && csA != "" && csB != ""
    ensures var ab, ba := Update(Update(m, a, csA), b, csB), Update(Update(m, b, csB), a, csA);
            ab.controlNs == ba.controlNs && multiset(ab.mappings) == multiset(ba.mappings)
  {
    var ea, eb := NsMapping(a, csA), NsMapping(b, csB);
    DisjointUnwatched(a, b);
    DisjointUnwatched(b, a);
    KeepSplit([ea], Keep(m.mappings, a), b);
    KeepSplit([eb], Keep(m.mappings, b), a);
    assert Keep([ea], b) == [ea] && Keep([eb], a) == [eb];
    KeepCommutes(m.mappings, a, b);
    var rest := Keep(Keep(m.mappings, a), b);
    Associate([eb], [ea], rest);
    Associate([ea], [eb], rest);
    assert Update(Update(m, a, csA), b, csB).mappings == [eb] + [ea] + rest;
    assert Update(Update(m, b, csB), a, csA).mappings == [ea] + [eb] + rest;
  }

  /** A services namespace that has an entry serves itself and whatever its entries request, and no namespace else. */
  lemma {:induction false} ScopeMembers(es: seq<NsMapping>, csNs: string, ns: string)
    ensures ns in Scope(es, csNs) <==> exists e :: e in es && e.csNs == csNs && (ns == csNs || ns in e.requestNs)
  {
    if es != [] {
      ScopeMembers(es[1..], csNs, ns);
      assert forall e | e in es :: e == es[0] || e in es[1..];
    }
  }

  /** The tenant's entry is there, and it is the only one of its services namespace. */
  predicate Owns(es: seq<NsMapping>, watch: seq<string>, csNs: string) {
    NsMapping(watch, csNs) in es && forall e | e in es && e.csNs == csNs :: e.requestNs == watch
  }

  lemma {:induction false} OwnedScope(es: seq<NsMapping>, watch: seq<string>, csNs: string)
    requires csNs in watch && forall e | e in es && e.csNs == csNs :: e.requestNs == watch
    ensures Scope(es, csNs) == if NsMapping(watch, csNs) in es then (set ns | ns in watch) else {}
  {
    if es != [] {
      OwnedScope(es[1..], watch, csNs);
      assert es[0] in es;
      if es[0].csNs == csNs {
        assert es[0] == NsMapping(watch, csNs);
      }
    }
  }

  lemma {:induction false} KeepMembers(es: seq<NsMapping>, watch: seq<string>, k: NsMapping)
    ensures k in Keep(es, watch) <==> exists e :: e in es && KeepEntry(e, watch) == [k]
  {
    if es != [] {
      KeepMembers(es[1..], watch, k);
      assert forall e | e in es :: e == es[0] || e in es[1..];
    }
  }

  lemma WritingOwns(m: CsMaps, watch: seq<string>, csNs: string)
    requires csNs in watch
    ensures Owns(Update(m, watch, csNs).mappings, watch, csNs)
  {
    KeptServices(m.mappings, watch);
  }

  lemma OthersLeaveAlone(m: CsMaps, watch: seq<string>, csNs: string, other: seq<string>, csOther: string)
    requires Owns(m.mappings, watch, csNs) && csNs in watch && csNs != "" && csOther in other && Disjoint(watch, other)
    ensures Owns(Update(m, other, csOther).mappings, watch, csNs)
  {
    var own := NsMapping(watch, csNs);
    DisjointUnwatched(watch, other);
    assert KeepEntry(own, other) == [own];
    KeepMembers(m.mappings, other, own);
    forall k | k in Keep(m.mappings, other) && k.csNs == csNs ensures k.requestNs == watch {
      KeepMembers(m.mappings, other, k);
      var e :| e in m.mappings && KeepEntry(e, other) == [k];
      assert e.csNs == csNs;
    }
  }

  /** Once a tenant has written, its scope is exactly its watch list, however often it writes again
      and whatever tenants with other namespaces do. */
  lemma {:induction false} ScopeIsKept(m: CsMaps, mine: Call, calls: seq<Call>)
    requires mine.servicesNs in Split(mine.requestNsList, ',') && mine.servicesNs != ""
    requires Owns(m.mappings, Split(mine.requestNsList, ','), mine.servicesNs)
    requires forall call | call in calls :: call == mine ||
               (call.servicesNs in Split(call.requestNsList, ',') &&
                Disjoint(Split(mine.requestNsList, ','), Split(call.requestNsList, ',')))
    ensures Scope(Run(m, calls).mappings, mine.servicesNs) == set ns | ns in Split(mine.requestNsList, ',')
    decreases |calls|
  {
    var watch := Split(mine.requestNsList, ',');
    if calls == [] {
      OwnedScope(m.mappings, watch, mine.servicesNs);
    } else {
      var call := calls[0];
      assert call in calls;
      if call == mine {
        WritingOwns(m, watch, mine.servicesNs);
      } else {
        OthersLeaveAlone(m, watch, mine.servicesNs, Split(call.requestNsList, ','), call.servicesNs);
      }
      ScopeIsKept(Update(m, Split(call.requestNsList, ','), call.servicesNs), mine, calls[1..]);
    }
  }

  /** Which services namespace serves `ns`: that of the first entry requesting it. */
  function Target(es: seq<NsMapping>, ns: string): Option<string> {
    if es == [] then None else if ns in es[0].requestNs then Some(es[0].csNs) else Target(es[1..], ns)
  }

  lemma {:induction false} TargetKnown(es: seq<NsMapping>, ns: string)
    ensures Target(es, ns).Some? <==> ns in Requests(es)
  {
    if es != [] {
      TargetKnown(es[1..], ns);
    }
  }

  lemma {:induction false} KeptTarget(es: seq<NsMapping>, watch: seq<string>, ns: string)
    requires Distinct(Requests(es)) && forall e | e in es :: e.csNs != ""
    requires ns !in watch
    ensures Target(Keep(es, watch), ns) ==
            match Target(es, ns) case Some(t) => (if t in watch then None else Some(t)) case None => None
  {
    if es != [] {
      assert es[0] in es;
      DistinctAppend(es[0].requestNs, Requests(es[1..]));
      KeptTarget(es[1..], watch, ns);
      UnwatchedMembers(es[0].requestNs, watch, ns);
      TargetKnown(es[1..], ns);
      var first, rest := KeepEntry(es[0], watch), Keep(es[1..], watch);
      assert Keep(es, watch) == first + rest;
      if first == [] {
        assert Keep(es, watch) == rest;
      } else {
        assert Keep(es, watch)[0] == first[0] && Keep(es, watch)[1..] == rest;
      }
      assert ns in es[0].requestNs ==> ns !in Requests(es[1..]);
    }
  }

  /** The list as a finite map: the watched namespaces now map to the tenant's services namespace, and
      every other namespace keeps its target unless the tenant watches that target. */
  lemma UpdateRefinesMap(m: CsMaps, watch: seq<string>, csNs: string, ns: string)
    requires Distinct(Requests(m.mappings)) && forall e | e in m.mappings :: e.csNs != ""
    ensures Target(Update(m, watch, csNs).mappings, ns) ==
            if ns in watch then Some(csNs)
            else match Target(m.mappings, ns) case Some(t) => (if t in watch then None else Some(t)) case None => None
  {
    if ns !in watch {
      KeptTarget(m.mappings, watch, ns);
    }
  }
}
