/** Merging the resource list of a service with the resources a CommonService CR lists for it. */
module Resources {
  import opened Trees
  import opened ResourceComparison
  import opened Merging
  import opened Wrappers
  import MergeEngine

  const EXTERNAL_CONTROLLERS: set<string> := {"turbo", "turbonomic", "vpa"}

  /** The controllers that size services from outside, by name. */
  lemma ExternalByName(c: string)
    ensures c in EXTERNAL_CONTROLLERS <==> c == "turbo" || c == "turbonomic" || c == "vpa"
  {
  }

  /** A field read as a string; anything else reads as empty. */
  function StringField(t: Json, key: string): string {
    var v := Field(t, key);
    if v.Str? then v.s else ""
  }

  datatype Identity = Identity(apiVersion: string, kind: string, name: string, namespace: string)

  /** What a resource is matched by. A missing namespace means the OperandConfig's own. */
  function IdentityOf(r: Json, opconNs: string): Identity {
    var ns := StringField(r, "namespace");
    Identity(StringField(r, "apiVersion"), StringField(r, "kind"), StringField(r, "name"), if ns == "" then opconNs
             else ns)
  }

  /** A resource of a CR is used only if it is a map with the three required fields. */
  predicate Named(r: Json) {
    r.Obj? && StringField(r, "apiVersion") != "" && StringField(r, "kind") != "" && StringField(r, "name") != ""
  }

  predicate Matches(b: Json, r: Json, opconNs: string) {
    b.Obj? && Named(r) && IdentityOf(b, opconNs) == IdentityOf(r, opconNs)
  }

  /** The position of the first resource with the fields of `r`, or the length. The stored namespace
      counts as it is; only a missing one is the OperandConfig's. */
  function IndexOfSame(rs: seq<Json>, r: Json, opconNs: string): (i: nat)
    ensures i <= |rs|
    ensures i < |rs| ==> IsSame(rs[i], r, opconNs)
  {
    if rs == [] then 0 else if IsSame(rs[0], r, opconNs) then 0 else 1 + IndexOfSame(rs[1..], r, opconNs)
  }

  lemma {:induction false} NoneSameBefore(rs: seq<Json>, r: Json, opconNs: string)
    ensures forall j | 0 <= j < IndexOfSame(rs, r, opconNs) :: !IsSame(rs[j], r, opconNs)
  {
    if rs != [] && !IsSame(rs[0], r, opconNs) {
      NoneSameBefore(rs[1..], r, opconNs);
      assert forall j | 0 < j < |rs| :: rs[j] == rs[1..][j - 1];
    }
  }

  predicate IsSame(s: Json, r: Json, opconNs: string) {
    s.Obj? && StringField(s, "apiVersion") == StringField(r, "apiVersion") &&
      StringField(s, "kind") == StringField(r, "kind") &&
    StringField(s, "name") == StringField(r, "name") &&
    (if "namespace" in s.fields then StringField(s, "namespace") else opconNs) == IdentityOf(r, opconNs).namespace
  }

  /** That resource, or null. */
  function FirstSame(rs: seq<Json>, r: Json, opconNs: string): Json {
    if IndexOfSame(rs, r, opconNs) < |rs| then rs[IndexOfSame(rs, r, opconNs)] else Null
  }

  /** The identifying fields of every resource are strings, as the lookup asserts. */
  predicate FieldsAreStrings(rs: seq<Json>) {
    forall r | r in rs :: r.Obj? && Field(r, "apiVersion").Str? && Field(r, "kind").Str? && Field(r, "name").Str? &&
      ("namespace" in r.fields ==> r.fields["namespace"].Str?)
  }

  /** The identifying fields of a resource that is looked up are strings where they are set. */
  predicate FieldsAreStringsOrNull(rs: seq<Json>) {
    forall r, k | r in rs && k in {"apiVersion", "kind", "name", "namespace"} ::
      r.Obj? && (Field(r, k).Str? || Field(r, k).Null?)
  }

  function Put(t: Json, k: string, v: Json): Json
    requires t.Obj?
  {
    Obj(t.fields[k := v])
  }

  function Bootstrap(t: Json): Json {
    Field(Field(Field(t, "data"), "spec"), "bootstrap")
  }

  function Limits(t: Json): Json {
    Field(Field(Field(Field(t, "data"), "spec"), "resources"), "limits")
  }

  /** A cluster that is bootstrapped as a replica must not also be initialised. */
  function DropInitdb(t: Json): Json {
    var boot := Bootstrap(t);
    if boot.Obj? && "pg_basebackup" in boot.fields then
      var data := Field(t, "data");
      var spec := Field(data, "spec");
      Put(t, "data", Put(data, "spec", Put(spec, "bootstrap", Obj(boot.fields - {"initdb"}))))
    else t
  }

  /** An external controller scales the resource: its CPU limit is cleared. */
  function ClearCpuLimit(t: Json): Json {
    var limits := Limits(t);
    if limits.Obj? then
      var data := Field(t, "data");
      var spec := Field(data, "spec");
      var resources := Field(spec, "resources");
      Put(t, "data", Put(data, "spec", Put(spec, "resources", Put(resources, "limits", Put(limits, "cpu", Cleared)))))
    else t
  }

  predicate IsCluster(r: Json) {
    StringField(r, "kind") == "Cluster" && StringField(r, "apiVersion") == "pg.ibm.com/v1"
  }

  /** A base resource with the matching resource of a CR merged over it. */
  function Combine(q: Quantities, b: Json, r: Json, controller: string): Json
    requires b.Obj? && r.Obj?
  {
    var merged := Obj(Merge(LargestWins(q), b.fields, r.fields));
    var cleaned := if IsCluster(r) then DropInitdb(merged) else merged;
    if controller in EXTERNAL_CONTROLLERS then ClearCpuLimit(cleaned) else cleaned
  }

  /** The first base resource from `i` on that matches `r` and is not taken. */
  function FirstFree(base: seq<Json>, taken: set<nat>, r: Json, opconNs: string, i: nat): (k: Option<nat>)
    requires i <= |base|
    ensures k.Some? ==> i <= k.value < |base| && k.value !in taken && Matches(base[k.value], r, opconNs)
    ensures k.Some? ==> forall j | i <= j < k.value :: j in taken || !Matches(base[j], r, opconNs)
    ensures k.None? ==> forall j | i <= j < |base| :: j in taken || !Matches(base[j], r, opconNs)
    decreases |base| - i
  {
    if i == |base| then None
    else if i !in taken && Matches(base[i], r, opconNs) then Some(i)
    else FirstFree(base, taken, r, opconNs, i + 1)
  }

  /** Which base resource each resource of the CR is merged into, first come first served. */
  function Partners(base: seq<Json>, cs: seq<Json>, opconNs: string): (p: map<nat, nat>)
    ensures forall i | i in p :: i < |base| && p[i] < |cs| && Matches(base[i], cs[p[i]], opconNs)
    decreases |cs|
  {
    if cs == [] then map[]
    else
      var n := |cs| - 1;
      var p := Partners(base, cs[..n], opconNs);
      assert forall i | i in p :: cs[..n][p[i]] == cs[p[i]];
      var k := FirstFree(base, p.Keys, cs[n], opconNs, 0);
      if k.Some? then p[k.value := n] else p
  }

  /** The resources at the positions outside `handled`, in order. */
  function Others(cs: seq<Json>, handled: set<nat>): seq<Json>
    decreases |cs|
  {
    if cs == [] then []
    else
      var n := |cs| - 1;
      Others(cs[..n], handled) + if n in handled then [] else [cs[n]]
  }

  function Handled(cs: seq<Json>, partners: map<nat, nat>): set<nat> {
    set j | 0 <= j < |cs| && (!Named(cs[j]) || j in partners.Values)
  }

  function MergedBase(q: Quantities, base: seq<Json>, cs: seq<Json>,
                      p: map<nat, nat>, controller: string): (r: seq<Json>)
    requires forall i | i in p :: i < |base| && p[i] < |cs| && base[i].Obj? && cs[p[i]].Obj?
    ensures |r| == |base|
  {
    seq(|base|, i requires 0 <= i < |base| => if i in p then Combine(q, base[i], cs[p[i]], controller) else base[i])
  }

  /** The merged list: the base in its order, then what matched nothing. */
  function MergeArrays(q: Quantities, base: seq<Json>, cs: seq<Json>, opconNs: string, controller: string): seq<Json> {
    var p := Partners(base, cs, opconNs);
    MergedBase(q, base, cs, p, controller) + Others(cs, Handled(cs, p))
  }

  /** Every merge that can happen runs without panic. */
  ghost predicate ArraysDefined(q: Quantities, base: seq<Json>, cs: seq<Json>, opconNs: string) {
    forall i, j | 0 <= i < |base| && 0 <= j < |cs| && Matches(base[i], cs[j], opconNs) ::
      MergeObjDefined(LargestWins(q), base[i], cs[j])
  }

  method MergeResourceArrays(q: Quantities, base: seq<Json>, cs: seq<Json>, opconNs: string, controller: string)
    returns (result: seq<Json>)
    requires ArraysDefined(q, base, cs, opconNs)
    ensures result == MergeArrays(q, base, cs, opconNs, controller)
  {
    var mergedByBaseIndex, matchedCs := MatchResources(q, base, cs, opconNs, controller);
    result := ReplaceMerged(base, mergedByBaseIndex);
    assert result == MergedBase(q, base, cs, Partners(base, cs, opconNs), controller);
    result := AppendUnmatched(result, cs, matchedCs);
  }

  /** Second pass: the base in its order, merged resources in place. */
  method ReplaceMerged(base: seq<Json>, merged: map<nat, Json>) returns (r: seq<Json>)
    ensures |r| == |base|
    ensures forall i | 0 <= i < |base| :: r[i] == if i in merged then merged[i] else base[i]
  {
    r := [];
    for i := 0 to |base|
      invariant |r| == i
      invariant forall j | 0 <= j < i :: r[j] == if j in merged then merged[j] else base[j]
    {
      r := r + [if i in merged then merged[i] else base[i]];
    }
  }

  /** Third pass: the resources of the CR that are new. */
  method AppendUnmatched(merged: seq<Json>, cs: seq<Json>, matchedCs: set<nat>) returns (r: seq<Json>)
    ensures r == merged + Others(cs, matchedCs)
  {
    r := merged;
    for csIdx := 0 to |cs|
      invariant r == merged + Others(cs[..csIdx], matchedCs)
    {
      assert cs[..csIdx + 1][..csIdx] == cs[..csIdx];
      if csIdx !in matchedCs {
        r := r + [cs[csIdx]];
      }
    }
    assert cs[..|cs|] == cs;
  }

  ghost function MergedMap(q: Quantities, base: seq<Json>, cs: seq<Json>,
                           p: map<nat, nat>, controller: string): map<nat, Json>
  {
    map i | i in p && i < |base| && p[i] < |cs| && base[i].Obj? && cs[p[i]].Obj? ::
      Combine(q, base[i], cs[p[i]], controller)
  }

  /** One more resource of the CR is considered. */
  lemma NextPartner(base: seq<Json>, cs: seq<Json>, n: nat, opconNs: string)
    requires n < |cs|
    ensures var p, p' := Partners(base, cs[..n], opconNs), Partners(base, cs[..n + 1], opconNs);
            var k := FirstFree(base, p.Keys, cs[n], opconNs, 0);
            p' == if k.Some? then p[k.value := n] else p
  {
    assert cs[..n + 1][..n] == cs[..n] && cs[..n + 1][n] == cs[n] && |cs[..n + 1]| - 1 == n;
  }

  lemma {:induction false} ConsiderResource(q: Quantities, base: seq<Json>, cs: seq<Json>, n: nat, opconNs: string,
                                            controller: string)
    requires n < |cs|
    ensures var p, p' := Partners(base, cs[..n], opconNs), Partners(base, cs[..n + 1], opconNs);
            var k := FirstFree(base, p.Keys, cs[n], opconNs, 0);
            && MergedMap(q, base, cs, p, controller).Keys == p.Keys
            && MergedMap(q, base, cs, p', controller) ==
               (if k.Some? then MergedMap(q, base, cs, p,
                                          controller)[k.value := Combine(q, base[k.value], cs[n], controller)]
                else MergedMap(q, base, cs, p, controller))
            && Handled(cs[..n + 1], p') == Handled(cs[..n], p) + (if !Named(cs[n]) || k.Some? then {n} else {})
  {
    var p, p' := Partners(base, cs[..n], opconNs), Partners(base, cs[..n + 1], opconNs);
    var k := FirstFree(base, p.Keys, cs[n], opconNs, 0);
    NextPartner(base, cs, n, opconNs);
    MergedKeys(q, base, cs, n, p, opconNs, controller);
    if k.Some? {
      MergedMapGrows(q, base, cs, p, k.value, n, controller);
    }
    HandledGrows(cs, n, p, p');
  }

  lemma MergedKeys(q: Quantities, base: seq<Json>, cs: seq<Json>, n: nat, p: map<nat, nat>, opconNs: string,
                   controller: string)
    requires n <= |cs| && p == Partners(base, cs[..n], opconNs)
    ensures MergedMap(q, base, cs, p, controller).Keys == p.Keys
  {
    assert forall i | i in p :: cs[..n][p[i]] == cs[p[i]];
  }

  lemma MergedMapGrows(q: Quantities, base: seq<Json>, cs: seq<Json>, p: map<nat, nat>, k: nat, n: nat,
                       controller: string)
    requires k < |base| && n < |cs| && base[k].Obj? && cs[n].Obj?
    ensures MergedMap(q, base, cs, p[k := n], controller) ==
            MergedMap(q, base, cs, p, controller)[k := Combine(q, base[k], cs[n], controller)]
  {
    var before, after := MergedMap(q, base, cs, p, controller), MergedMap(q, base, cs, p[k := n], controller);
    assert after.Keys == before.Keys + {k};
    assert forall i | i in before && i != k :: after[i] == before[i];
  }

  /** The two index maps after the first `n` resources of the CR. */
  ghost predicate Considered(q: Quantities, base: seq<Json>, cs: seq<Json>, n: nat, opconNs: string, controller: string,
                             merged: map<nat, Json>, matched: set<nat>)
    requires n <= |cs|
  {
    var p := Partners(base, cs[..n], opconNs);
    merged == MergedMap(q, base, cs, p, controller) && merged.Keys == p.Keys && matched == Handled(cs[..n], p)
  }

  lemma ConsiderNext(q: Quantities, base: seq<Json>, cs: seq<Json>, n: nat, opconNs: string, controller: string,
                     merged: map<nat, Json>, matched: set<nat>)
    requires n < |cs| && Considered(q, base, cs, n, opconNs, controller, merged, matched)
    ensures var k := FirstFree(base, merged.Keys, cs[n], opconNs, 0);
            Considered(q, base, cs, n + 1, opconNs, controller,
              if k.Some? then merged[k.value := Combine(q, base[k.value], cs[n], controller)] else merged,
              if !Named(cs[n]) || k.Some? then matched + {n} else matched)
  {
    ConsiderResource(q, base, cs, n, opconNs, controller);
    MergedKeys(q, base, cs, n + 1, Partners(base, cs[..n + 1], opconNs), opconNs, controller);
  }

  /** First pass: which base position holds which merged resource, and which resources of the CR
      are dealt with. */
  method MatchResources(q: Quantities, base: seq<Json>, cs: seq<Json>, opconNs: string, controller: string)
    returns (mergedByBaseIndex: map<nat, Json>, matchedCs: set<nat>)
    requires ArraysDefined(q, base, cs, opconNs)
    ensures mergedByBaseIndex == MergedMap(q, base, cs, Partners(base, cs, opconNs), controller)
    ensures matchedCs == Handled(cs, Partners(base, cs, opconNs))
  {
    mergedByBaseIndex := map[];
    matchedCs := {};
    for csIdx := 0 to |cs|
      invariant Considered(q, base, cs, csIdx, opconNs, controller, mergedByBaseIndex, matchedCs)
    {
      ConsiderNext(q, base, cs, csIdx, opconNs, controller, mergedByBaseIndex, matchedCs);
      if !Named(cs[csIdx]) {
        assert FirstFree(base, mergedByBaseIndex.Keys, cs[csIdx], opconNs, 0).None?;
        matchedCs := matchedCs + {csIdx};
      } else {
        var baseIdx := FindBase(base, mergedByBaseIndex, cs[csIdx], opconNs);
        if baseIdx < |base| {
          var merged := MergeMatching(q, base[baseIdx], cs[csIdx], controller);
          mergedByBaseIndex := mergedByBaseIndex[baseIdx := merged];
          matchedCs := matchedCs + {csIdx};
        }
      }
    }
    assert cs[..|cs|] == cs;
  }

  /** The first base resource that matches and is not merged yet, or the length of the list. */
  method FindBase(base: seq<Json>, merged: map<nat, Json>, r: Json, opconNs: string) returns (baseIdx: nat)
    ensures baseIdx <= |base|
    ensures FirstFree(base, merged.Keys, r, opconNs, 0) == if baseIdx == |base| then None else Some(baseIdx)
  {
    baseIdx := 0;
    while baseIdx < |base| && (baseIdx in merged || !Matches(base[baseIdx], r, opconNs))
      invariant 0 <= baseIdx <= |base|
      invariant FirstFree(base, merged.Keys, r, opconNs, 0) == FirstFree(base, merged.Keys, r, opconNs, baseIdx)
    {
      baseIdx := baseIdx + 1;
    }
  }

  lemma HandledGrows(cs: seq<Json>, n: nat, p: map<nat, nat>, p': map<nat, nat>)
    requires n < |cs| && forall i | i in p :: p[i] < n
    requires p' == p || exists i: nat :: i !in p && p' == p[i := n] && Named(cs[n])
    ensures Handled(cs[..n + 1], p') == Handled(cs[..n], p) + if !Named(cs[n]) || p' != p then {n} else {}
  {
    assert forall j | 0 <= j < n :: cs[..n + 1][j] == cs[j] == cs[..n][j];
    if p' != p {
      var i: nat :| i !in p && p' == p[i := n];
      assert p'[i] == n;
      forall v | v in p.Values ensures v in p'.Values {
        var k :| k in p && p[k] == v;
        assert p'[k] == v;
      }
    }
  }

  /** One matching pair: merge, drop a contradictory bootstrap, clear what is scaled externally. */
  method MergeMatching(q: Quantities, b: Json, r: Json, controller: string) returns (merged: Json)
    requires b.Obj? && r.Obj? && MergeObjDefined(LargestWins(q), b, r)
    ensures merged == Combine(q, b, r, controller)
  {
    var fields := MergeEngine.MergeCRsIntoOperandConfigWithDefaultRules(q, b.fields, r.fields);
    merged := Obj(fields);
    if IsCluster(r) {
      merged := DropInitdb(merged);
    }
    if controller in EXTERNAL_CONTROLLERS {
      merged := ClearCpuLimit(merged);
    }
  }
}
