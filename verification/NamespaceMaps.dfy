/** The namespace mapping that all tenants of a cluster share in one ConfigMap. */
module NamespaceMaps {
  import opened Sequences
  import opened Text
  import opened Wrappers

  /** The namespaces a tenant requests services from, and the one that serves them. */
  datatype NsMapping = NsMapping(requestNs: seq<string>, csNs: string)

  datatype CsMaps = CsMaps(controlNs: string, mappings: seq<NsMapping>)

  datatype Error =
    | NoMaps
    | ControlIsServices(ns: string)
    | ServicesTwice(ns: string)
    | ControlIsRequested(ns: string)
    | RequestedTwice(ns: string)

  /** The namespaces outside the watch list. */
  function Unwatched(nss: seq<string>, watch: seq<string>): seq<string> {
    if nss == [] then [] else (if nss[0] in watch then [] else [nss[0]]) + Unwatched(nss[1..], watch)
  }

  /** What an update leaves of an entry: nothing if its services namespace is watched, if it names
      none, or if all its requests are watched. */
  function KeepEntry(e: NsMapping, watch: seq<string>): seq<NsMapping> {
    var rest := Unwatched(e.requestNs, watch);
    if e.csNs in watch || e.csNs == "" || rest == [] then [] else [NsMapping(rest, e.csNs)]
  }

  function Keep(es: seq<NsMapping>, watch: seq<string>): seq<NsMapping> {
    if es == [] then [] else KeepEntry(es[0], watch) + Keep(es[1..], watch)
  }

  /** The mapping after a tenant writes its entry. */
  function Update(m: CsMaps, watch: seq<string>, csNs: string): CsMaps {
    CsMaps(if m.controlNs == "" then "cs-control" else m.controlNs, [NsMapping(watch, csNs)] + Keep(m.mappings, watch))
  }

  function CsNamespaces(es: seq<NsMapping>): (r: seq<string>)
    ensures |r| == |es| && forall i | 0 <= i < |es| :: r[i] == es[i].csNs
  {
    if es == [] then [] else [es[0].csNs] + CsNamespaces(es[1..])
  }

  function Requests(es: seq<NsMapping>): seq<string> {
    if es == [] then [] else es[0].requestNs + Requests(es[1..])
  }

  predicate Distinct(s: seq<string>) {
    forall i, j | 0 <= i < j < |s| :: s[i] != s[j]
  }

  /** No services namespace and no requested namespace occurs twice, and the control namespace is
      neither. */
  predicate Valid(m: CsMaps) {
    Distinct(CsNamespaces(m.mappings)) && Distinct(Requests(m.mappings)) &&
    m.controlNs !in CsNamespaces(m.mappings) && m.controlNs !in Requests(m.mappings)
  }

  ghost predicate Twice(s: seq<string>, ns: string) {
    exists i, j :: 0 <= i < j < |s| && s[i] == s[j] == ns
  }

  /** What an error says is true of the mapping. */
  ghost predicate Explains(err: Error, m: CsMaps) {
    match err
    case NoMaps => false
    case ControlIsServices(ns) => ns == m.controlNs && ns in CsNamespaces(m.mappings)
    case ServicesTwice(ns) => Twice(CsNamespaces(m.mappings), ns)
    case ControlIsRequested(ns) => ns == m.controlNs && ns in Requests(m.mappings)
    case RequestedTwice(ns) => Twice(Requests(m.mappings), ns)
  }

  method Contains(list: seq<string>, s: string) returns (found: bool)
    ensures found <==> s in list
  {
    for i := 0 to |list|
      invariant s !in list[..i]
    {
      if list[i] == s {
        return true;
      }
    }
    return false;
  }

  /** The shared ConfigMap: its decoded data, if present, and whether it carries the managed label. */
  class ConfigMap {
    var maps: Option<CsMaps>
    var managed: bool

    constructor (m: Option<CsMaps>)
      ensures maps == m && !managed
    {
      maps := m;
      managed := false;
    }

    /** A tenant writes its namespaces. */
    method UpdateCsMaps(requestNsList: string, servicesNs: string) returns (err: Option<Error>)
      modifies this
      ensures old(maps).None? ==> err == Some(NoMaps) && maps == old(maps) && managed == old(managed)
      ensures old(maps).Some? ==>
                err == None && maps == Some(Update(old(maps).value, Split(requestNsList, ','), servicesNs)) && managed
      ensures old(maps).Some? ==> Requesting(maps.value, requestNsList, servicesNs)
    {
      if maps.None? {
        return Some(NoMaps);
      }
      var cmData := maps.value;
      var watch := Split(requestNsList, ',');
      var newList := [NsMapping(watch, servicesNs)];
      var controlNs := if cmData.controlNs == "" then "cs-control" else cmData.controlNs;
      for i := 0 to |cmData.mappings|
        invariant newList == [NsMapping(watch, servicesNs)] + Keep(cmData.mappings[..i], watch)
        invariant maps == old(maps) && managed == old(managed)
      {
        var nsMapping := cmData.mappings[i];
        KeepNext(cmData.mappings, i, watch);
        Associate([NsMapping(watch, servicesNs)], Keep(cmData.mappings[..i], watch), KeepEntry(nsMapping, watch));
        var serving := Contains(watch, nsMapping.csNs);
        if serving {
          continue;
        }
        var copied := CopyUnwatched(nsMapping.requestNs, watch);
        if nsMapping.csNs != "" && copied != [] {
          newList := newList + [NsMapping(copied, nsMapping.csNs)];
        }
      }
      assert cmData.mappings[..|cmData.mappings|] == cmData.mappings;
      maps := Some(CsMaps(controlNs, newList));
      managed := true;
      RequestsTheList(cmData, requestNsList, servicesNs);
      return None;
    }

    /** Checks that no scope overlaps another. */
    method ValidateCsMaps() returns (err: Option<Error>)
      ensures maps.None? ==> err == Some(NoMaps)
      ensures maps.Some? ==> (err.None? <==> Valid(maps.value))
      ensures maps.Some? && err.Some? ==> Explains(err.value, maps.value)
    {
      if maps.None? {
        return Some(NoMaps);
      }
      var m := maps.value;
      var csNsSet: set<string> := {};
      var requestNsSet: set<string> := {};
      for i := 0 to |m.mappings|
        invariant Checked(m, i, csNsSet, requestNsSet)
      {
        err, csNsSet, requestNsSet := CheckEntry(m, i, csNsSet, requestNsSet);
        if err.Some? {
          return err;
        }
      }
      assert m.mappings[..|m.mappings|] == m.mappings;
      return None;
    }

    /** All namespaces a services namespace serves: itself and what its entries request. */
    method GetCsScope(cpfsNamespace: string) returns (scope: Option<set<string>>)
      ensures scope == if maps.None? then None else Some(Scope(maps.value.mappings, cpfsNamespace))
    {
      if maps.None? {
        return None;
      }
      var es := maps.value.mappings;
      var nsSet: set<string> := {};
      for i := 0 to |es|
        invariant nsSet + Scope(es[i..], cpfsNamespace) == Scope(es, cpfsNamespace)
      {
        Suffix(es, i);
        if cpfsNamespace == es[i].csNs {
          nsSet := nsSet + {cpfsNamespace};
          for j := 0 to |es[i].requestNs|
            invariant nsSet + (set ns | ns in es[i].requestNs[j..]) + Scope(es[i + 1..], cpfsNamespace) ==
                      Scope(es, cpfsNamespace)
          {
            assert es[i].requestNs[j..] == [es[i].requestNs[j]] + es[i].requestNs[j + 1..];
            nsSet := nsSet + {es[i].requestNs[j]};
          }
        }
      }
      return Some(nsSet);
    }
  }

  /** The first entry is the tenant's: it requests the namespaces of the comma separated list, exactly and in
      their order. */
  ghost predicate Requesting(m: CsMaps, requestNsList: string, servicesNs: string) {
    && m.mappings != [] && m.mappings[0].csNs == servicesNs
    && (forall nss | Separable(nss, ',') && Join(nss, ',') == requestNsList :: m.mappings[0].requestNs == nss)
    && Separable(m.mappings[0].requestNs, ',') && Join(m.mappings[0].requestNs, ',') == requestNsList
  }

  /** Every text is such a list. */
  lemma RequestsTheList(m: CsMaps, requestNsList: string, servicesNs: string)
    ensures Requesting(Update(m, Split(requestNsList, ','), servicesNs), requestNsList, servicesNs)
  {
    PartsAreSeparable(requestNsList, ',');
    PartsJoin(requestNsList, ',');
    forall nss | Separable(nss, ',') && Join(nss, ',') == requestNsList ensures Split(requestNsList, ',') == nss {
      JoinThenSplit(nss, ',');
    }
  }

  /** The cluster, which holds the mapping between calls. */
  class Cluster {
    var stored: Option<CsMaps>

    constructor (m: Option<CsMaps>)
      ensures stored == m
    {
      stored := m;
    }

    /** A tenant's whole call: the updated mapping is written back only if it validates. */
    method UpdateCsMaps(watchNamespaces: string, servicesNs: string) returns (err: Option<Error>)
      modifies this
      ensures old(stored).None? ==> err == Some(NoMaps) && stored == None
      ensures old(stored).Some? ==>
        var m := Update(old(stored).value, Split(watchNamespaces, ','), servicesNs);
        if Valid(m) then err.None? && stored == Some(m)
        else err.Some? && Explains(err.value, m) && stored == old(stored)
      ensures old(stored).Some? && err.None? ==> stored.Some? && Requesting(stored.value, watchNamespaces, servicesNs)
    {
      var cm := new ConfigMap(stored);
      err := cm.UpdateCsMaps(watchNamespaces, servicesNs);
      if err.Some? {
        return err;
      }
      err := cm.ValidateCsMaps();
      if err.None? {
        stored := cm.maps;
      }
    }
  }

  /** The first `i` entries are valid and recorded. */
  ghost predicate Checked(m: CsMaps, i: nat, csNsSet: set<string>, requestNsSet: set<string>)
    requires i <= |m.mappings|
  {
    && Valid(CsMaps(m.controlNs, m.mappings[..i]))
    && csNsSet == (set ns | ns in CsNamespaces(m.mappings[..i]))
    && requestNsSet == (set ns | ns in Requests(m.mappings[..i]))
  }

  method CheckEntry(m: CsMaps, i: nat, csNsSet: set<string>, requestNsSet: set<string>)
    returns (err: Option<Error>, csNsSet': set<string>, requestNsSet': set<string>)
    requires i < |m.mappings| && Checked(m, i, csNsSet, requestNsSet)
    ensures err.None? ==> Checked(m, i + 1, csNsSet', requestNsSet')
    ensures err.Some? ==> !Valid(m) && Explains(err.value, m)
  {
    var e := m.mappings[i];
    PrefixInvalid(m, i);
    csNsSet', requestNsSet' := csNsSet, requestNsSet;
    assert CsNamespaces(m.mappings)[i] == e.csNs;
    if m.controlNs == e.csNs {
      return Some(ControlIsServices(m.controlNs)), csNsSet', requestNsSet';
    }
    if e.csNs in csNsSet {
      ServicesRepeat(m.mappings, i);
      return Some(ServicesTwice(e.csNs)), csNsSet', requestNsSet';
    }
    csNsSet' := csNsSet' + {e.csNs};
    err, requestNsSet' := CheckRequests(m.controlNs, Requests(m.mappings[..i]), e.requestNs, requestNsSet);
    if err.Some? {
      RequestsRepeat(m.mappings, i, err.value, m.controlNs);
    }
  }

  method CopyUnwatched(nss: seq<string>, watch: seq<string>) returns (copied: seq<string>)
    ensures copied == Unwatched(nss, watch)
  {
    copied := [];
    for i := 0 to |nss|
      invariant copied + Unwatched(nss[i..], watch) == Unwatched(nss, watch)
    {
      Suffix(nss, i);
      ghost var rest := Unwatched(nss[i + 1..], watch);
      assert Unwatched(nss[i..], watch) == (if nss[i] in watch then [] else [nss[i]]) + rest;
      var watched := Contains(watch, nss[i]);
      if watched {
        assert [] + rest == rest;
        continue;
      }
      Associate(copied, [nss[i]], rest);
      copied := copied + [nss[i]];
    }
  }

  method CheckRequests(controlNs: string, before: seq<string>, nss: seq<string>, seen: set<string>)
    returns (err: Option<Error>, all: set<string>)
    requires seen == set ns | ns in before
    requires Distinct(before) && controlNs !in before
    ensures err.None? <==> Distinct(before + nss) && controlNs !in nss
    ensures err.None? ==> all == set ns | ns in before + nss
    ensures err.Some? ==> (err.value == ControlIsRequested(controlNs) && controlNs in nss) ||
                          (err.value.RequestedTwice? && Twice(before + nss, err.value.ns))
  {
    all := seen;
    for i := 0 to |nss|
      invariant Distinct(before + nss[..i]) && controlNs !in nss[..i]
      invariant all == set ns | ns in before + nss[..i]
    {
      assert before + nss[..i + 1] == before + nss[..i] + [nss[i]];
      if controlNs == nss[i] {
        return Some(ControlIsRequested(controlNs)), all;
      }
      if nss[i] in all {
        var k :| 0 <= k < |before + nss[..i]| && (before + nss[..i])[k] == nss[i];
        assert (before + nss)[k] == (before + nss)[|before| + i];
        return Some(RequestedTwice(nss[i])), all;
      }
      all := all + {nss[i]};
    }
    assert nss[..|nss|] == nss;
    return None, all;
  }

  function Scope(es: seq<NsMapping>, csNs: string): set<string> {
    if es == [] then {}
    else (if es[0].csNs == csNs then {csNs} + (set ns | ns in es[0].requestNs) else {}) + Scope(es[1..], csNs)
  }

  lemma {:induction false} KeepSplit(a: seq<NsMapping>, b: seq<NsMapping>, watch: seq<string>)
    ensures Keep(a + b, watch) == Keep(a, watch) + Keep(b, watch)
  {
    if a == [] {
      assert a + b == b;
    } else {
      KeepSplit(a[1..], b, watch);
      HeadOfConcat(a, b);
      Associate(KeepEntry(a[0], watch), Keep(a[1..], watch), Keep(b, watch));
    }
  }

  /** One more entry. */
  lemma KeepNext(es: seq<NsMapping>, i: nat, watch: seq<string>)
    requires i < |es|
    ensures Keep(es[..i + 1], watch) == Keep(es[..i], watch) + KeepEntry(es[i], watch)
  {
    Prefix(es, i);
    KeepSplit(es[..i], [es[i]], watch);
    assert [es[i]][1..] == [];
    assert Keep([es[i]], watch) == KeepEntry(es[i], watch) + [];
  }

  lemma {:induction false} RequestsSplit(a: seq<NsMapping>, b: seq<NsMapping>)
    ensures Requests(a + b) == Requests(a) + Requests(b)
  {
    if a == [] {
      assert a + b == b;
    } else {
      RequestsSplit(a[1..], b);
      HeadOfConcat(a, b);
      Associate(a[0].requestNs, Requests(a[1..]), Requests(b));
    }
  }

  lemma ServicesRepeat(es: seq<NsMapping>, i: nat)
    requires i < |es| && es[i].csNs in CsNamespaces(es[..i])
    ensures Twice(CsNamespaces(es), es[i].csNs)
  {
    var k :| 0 <= k < i && CsNamespaces(es[..i])[k] == es[i].csNs;
    assert CsNamespaces(es)[k] == CsNamespaces(es)[i];
  }

  lemma RequestsRepeat(es: seq<NsMapping>, i: nat, err: Error, controlNs: string)
    requires i < |es|
    requires (err == ControlIsRequested(controlNs) && controlNs in es[i].requestNs) ||
             (err.RequestedTwice? && Twice(Requests(es[..i]) + es[i].requestNs, err.ns))
    ensures Explains(err, CsMaps(controlNs, es))
  {
    var a, rest := Requests(es[..i]) + es[i].requestNs, Requests(es[i + 1..]);
    RequestsAround(es, i);
    if err.RequestedTwice? {
      TwiceInPrefix(a, rest, err.ns);
    } else {
      assert controlNs in a;
    }
  }

  lemma {:induction false} RequestsAround(es: seq<NsMapping>, i: nat)
    requires i < |es|
    ensures Requests(es) == Requests(es[..i]) + es[i].requestNs + Requests(es[i + 1..])
  {
    assert es == es[..i] + ([es[i]] + es[i + 1..]);
    HeadOfConcat([es[i]], es[i + 1..]);
    assert [es[i]][1..] + es[i + 1..] == es[i + 1..];
    RequestsSplit(es[..i], [es[i]] + es[i + 1..]);
    Associate(Requests(es[..i]), es[i].requestNs, Requests(es[i + 1..]));
  }

  lemma TwiceInPrefix(a: seq<string>, b: seq<string>, ns: string)
    requires Twice(a, ns)
    ensures Twice(a + b, ns)
  {
    var x, y :| 0 <= x < y < |a| && a[x] == a[y] == ns;
    assert (a + b)[x] == (a + b)[y] == ns;
  }

  /** Checking one more entry: the prefix stays valid exactly when the entry fits, and an invalid
      prefix makes the whole mapping invalid. */
  lemma PrefixInvalid(m: CsMaps, i: nat)
    requires i < |m.mappings| && Valid(CsMaps(m.controlNs, m.mappings[..i]))
    ensures var e := m.mappings[i];
            Valid(CsMaps(m.controlNs, m.mappings[..i + 1])) <==>
              && m.controlNs != e.csNs && e.csNs !in CsNamespaces(m.mappings[..i])
              && Distinct(Requests(m.mappings[..i]) + e.requestNs) && m.controlNs !in e.requestNs
    ensures !Valid(CsMaps(m.controlNs, m.mappings[..i + 1])) ==> !Valid(m)
    ensures Requests(m.mappings[..i + 1]) == Requests(m.mappings[..i]) + m.mappings[i].requestNs
    ensures CsNamespaces(m.mappings[..i + 1]) == CsNamespaces(m.mappings[..i]) + [m.mappings[i].csNs]
  {
    var a, e := m.mappings[..i], m.mappings[i];
    assert m.mappings[..i + 1] == a + [e];
    RequestsSplit(a, [e]);
    assert Requests([e]) == e.requestNs;
    var cs, cs' := CsNamespaces(a), CsNamespaces(a + [e]);
    assert cs' == cs + [e.csNs];
    assert Distinct(cs') <==> e.csNs !in cs by {
      assert forall k | 0 <= k < |cs| :: cs'[k] == cs[k];
      assert cs'[|cs|] == e.csNs;
    }
    if Valid(m) {
      RequestsSplit(m.mappings[..i + 1], m.mappings[i + 1..]);
      assert m.mappings == m.mappings[..i + 1] + m.mappings[i + 1..];
      var all := CsNamespaces(m.mappings);
      assert forall k | 0 <= k < |cs'| :: cs'[k] == all[k];
      assert forall k | 0 <= k < |Requests(a + [e])| :: Requests(a + [e])[k] == Requests(m.mappings)[k];
    }
  }
}
