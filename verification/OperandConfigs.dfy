/** Merging a desired OperandConfig into the one stored in the cluster. */
module OperandConfigs {
  import opened Trees
  import opened Wrappers

  /** The stored spec under the desired one: the desired value wins, maps are merged, and what only
      the stored spec has is kept. A null in the desired spec counts as set. */
  function MergeSpecMap(e: Json, n: Json): (r: Json)
    requires e.Obj? && n.Obj?
    ensures r.Obj? && r.fields.Keys == e.fields.Keys + n.fields.Keys
    decreases n
  {
    Obj(map k | k in e.fields.Keys + n.fields.Keys ::
      if k !in n.fields then e.fields[k]
      else if k in e.fields && e.fields[k].Obj? && n.fields[k].Obj? then MergeSpecMap(e.fields[k], n.fields[k])
      else n.fields[k])
  }

  /** A desired service with the spec of the stored service of its name merged in. */
  function MergeServiceMap(e: Fields, n: Fields): Fields {
    var es := Get(e, "spec");
    var ns := Get(n, "spec");
    if !es.Obj? then n else n["spec" := if ns.Obj? then MergeSpecMap(es, ns) else es]
  }

  function NameOf(t: Json): Json {
    Field(t, "name")
  }

  /** The first service of this name, or null. */
  function ServiceNamed(ss: seq<Json>, name: string): (r: Json)
    ensures r.Null? || (r.Obj? && NameOf(r) == Str(name))
  {
    if ss == [] then Null
    else if ss[0].Obj? && NameOf(ss[0]) == Str(name) then ss[0]
    else ServiceNamed(ss[1..], name)
  }

  function MergeEntry(es: seq<Json>, n: Json): Json {
    if n.Obj? && NameOf(n).Str? && ServiceNamed(es, NameOf(n).s).Obj?
    then Obj(MergeServiceMap(ServiceNamed(es, NameOf(n).s).fields, n.fields))
    else n
  }

  function MergeEntries(es: seq<Json>, ns: seq<Json>): (r: seq<Json>)
    ensures |r| == |ns|
    ensures forall i | 0 <= i < |ns| :: r[i] == MergeEntry(es, ns[i])
  {
    if ns == [] then [] else [MergeEntry(es, ns[0])] + MergeEntries(es, ns[1..])
  }

  /** The desired object with the stored one merged in. */
  function MergeConfigs(existing: Fields, desired: Fields): Result<Fields> {
    if "spec" !in existing then Ok(desired)
    else if "spec" !in desired then Err("new OperandConfig has no spec")
    else if !existing["spec"].Obj? then Ok(desired)
    else if !desired["spec"].Obj? then Err("new spec is not a map")
    else
      var es, ns := Field(existing["spec"], "services"), Field(desired["spec"], "services");
      if !es.List? || !ns.List? then Ok(desired)
      else Ok(desired["spec" := Obj(desired["spec"].fields["services" := List(MergeEntries(es.items, ns.items))])])
  }

  /** The spec of an object; what is not a map, or missing, reads as an empty one. */
  function SpecOf(o: Fields): Fields {
    var spec := Get(o, "spec");
    if spec.Obj? then spec.fields else map[]
  }

  /** Whether the merged object differs from the stored one. */
  predicate ShouldUpdate(existing: Fields, merged: Fields) {
    SpecOf(existing) != SpecOf(merged)
  }

  method MergeSpecMaps(e: Json, n: Json) returns (result: Json)
    requires e.Obj? && n.Obj?
    ensures result == MergeSpecMap(e, n)
    decreases n
  {
    var fields := n.fields;
    var todo := e.fields.Keys;
    while todo != {}
      invariant todo <= e.fields.Keys
      invariant fields.Keys == n.fields.Keys + (e.fields.Keys - todo)
      invariant forall k | k in fields :: fields[k] == if k in todo then n.fields[k] else MergeSpecMap(e, n).fields[k]
    {
      var k :| k in todo;
      if k !in fields {
        fields := fields[k := e.fields[k]];
      } else if e.fields[k].Obj? && fields[k].Obj? {
        var merged := MergeSpecMaps(e.fields[k], n.fields[k]);
        fields := fields[k := merged];
      }
      todo := todo - {k};
    }
    result := Obj(fields);
    SameFields(fields, MergeSpecMap(e, n).fields);
  }

  method MergeServiceConfigs(e: Fields, n: Fields) returns (result: Fields)
    ensures result == MergeServiceMap(e, n)
  {
    result := n;
    if Get(e, "spec").Obj? {
      if Get(n, "spec").Obj? {
        var merged := MergeSpecMaps(Get(e, "spec"), Get(n, "spec"));
        result := result["spec" := merged];
      } else {
        result := result["spec" := Get(e, "spec")];
      }
    }
  }

  method FindService(ss: seq<Json>, name: string) returns (r: Json)
    ensures r == ServiceNamed(ss, name)
  {
    for i := 0 to |ss|
      invariant ServiceNamed(ss, name) == ServiceNamed(ss[i..], name)
    {
      if ss[i].Obj? && NameOf(ss[i]) == Str(name) {
        return ss[i];
      }
    }
    return Null;
  }

  /** Every desired service, with the spec of the stored service of its name merged in. */
  method MergeServices(es: seq<Json>, ns: seq<Json>) returns (merged: seq<Json>)
    ensures merged == MergeEntries(es, ns)
  {
    merged := [];
    for i := 0 to |ns|
      invariant |merged| == i && forall j | 0 <= j < i :: merged[j] == MergeEntry(es, ns[j])
    {
      var n := ns[i];
      var next := n;
      if n.Obj? && NameOf(n).Str? {
        var e := FindService(es, NameOf(n).s);
        if e.Obj? {
          var fields := MergeServiceConfigs(e.fields, n.fields);
          next := Obj(fields);
        }
      }
      merged := merged + [next];
    }
  }

  /** A Kubernetes object. */
  class Unstructured {
    var content: Fields

    constructor (o: Fields)
      ensures content == o
    {
      content := o;
    }

    /** Writes the merge of the stored object into this desired one. */
    method MergeOperandConfigs(existing: Unstructured) returns (err: Result<()>)
      modifies this
      ensures match MergeConfigs(old(existing.content), old(content))
              case Ok(merged) => err.Ok? && content == merged
              case Err(e) => err == Err(e) && content == old(content)
    {
      if "spec" !in existing.content {
        return Ok(());
      }
      if "spec" !in content {
        return Err("new OperandConfig has no spec");
      }
      if !existing.content["spec"].Obj? {
        return Ok(());
      }
      if !content["spec"].Obj? {
        return Err("new spec is not a map");
      }
      var existingServices, newServices := Field(existing.content["spec"], "services"),
        Field(content["spec"], "services");
      if !existingServices.List? || !newServices.List? {
        return Ok(());
      }
      var mergedServices := MergeServices(existingServices.items, newServices.items);
      content := content["spec" := Obj(content["spec"].fields["services" := List(mergedServices)])];
      return Ok(());
    }
  }

  /** The merge fails exactly when the desired object lacks a spec that the stored one has, or has one that is not a map
      where the stored one is. */
  lemma MergeFailsIff(existing: Fields, desired: Fields)
    ensures MergeConfigs(existing, desired).Err? <==>
            "spec" in existing &&
            ("spec" !in desired || (existing["spec"].Obj? && !desired["spec"].Obj?))
  {
  }

  lemma {:induction false} MergeSpecAgain(e: Json, n: Json)
    requires e.Obj? && n.Obj?
    ensures MergeSpecMap(MergeSpecMap(e, n), n) == MergeSpecMap(e, n)
    decreases n
  {
    var r := MergeSpecMap(e, n);
    var rr := MergeSpecMap(r, n);
    forall k | k in rr.fields
      ensures Get(rr.fields, k) == Get(r.fields, k)
    {
      if k in n.fields && n.fields[k].Obj? {
        if k in e.fields && e.fields[k].Obj? {
          MergeSpecAgain(e.fields[k], n.fields[k]);
        } else {
          MergeSpecSame(n.fields[k]);
        }
      }
    }
    SameFields(rr.fields, r.fields);
  }

  lemma {:induction false} MergeSpecSame(n: Json)
    requires n.Obj?
    ensures MergeSpecMap(n, n) == n
    decreases n
  {
    forall k | k in n.fields
      ensures Get(MergeSpecMap(n, n).fields, k) == Get(n.fields, k)
    {
      if n.fields[k].Obj? {
        MergeSpecSame(n.fields[k]);
      }
    }
    SameFields(MergeSpecMap(n, n).fields, n.fields);
  }

  lemma MergeServiceAgain(e: Fields, n: Fields)
    ensures MergeServiceMap(MergeServiceMap(e, n), n) == MergeServiceMap(e, n)
  {
    var es, ns := Get(e, "spec"), Get(n, "spec");
    if ns.Obj? {
      MergeSpecSame(ns);
      if es.Obj? {
        MergeSpecAgain(es, ns);
      }
    }
  }

  lemma MergeServiceSame(n: Fields)
    ensures MergeServiceMap(n, n) == n
  {
    if Get(n, "spec").Obj? {
      MergeSpecSame(n["spec"]);
      assert n["spec" := n["spec"]] == n;
    }
  }

  /** No two services carry the same name. */
  ghost predicate UniqueServices(ss: seq<Json>) {
    forall i, j | 0 <= i < j < |ss| && NameOf(ss[i]).Str? :: NameOf(ss[i]) != NameOf(ss[j])
  }

  lemma {:induction false} UniquelyNamed(ss: seq<Json>, i: nat)
    requires UniqueServices(ss) && i < |ss| && ss[i].Obj? && NameOf(ss[i]).Str?
    ensures ServiceNamed(ss, NameOf(ss[i]).s) == ss[i]
  {
    if i > 0 {
      assert NameOf(ss[0]) != NameOf(ss[i]);
      assert forall a, b | 0 <= a < b < |ss[1..]| :: ss[1..][a] == ss[a + 1] && ss[1..][b] == ss[b + 1];
      UniquelyNamed(ss[1..], i - 1);
    }
  }

  lemma MergedNames(es: seq<Json>, n: Json)
    ensures NameOf(MergeEntry(es, n)) == NameOf(n) && (MergeEntry(es, n).Obj? <==> n.Obj?)
  {
  }

  /** Merging the same desired services again. */
  lemma EntriesAgain(es: seq<Json>, ns: seq<Json>)
    requires UniqueServices(ns)
    ensures MergeEntries(MergeEntries(es, ns), ns) == MergeEntries(es, ns)
  {
    var r := MergeEntries(es, ns);
    forall i | 0 <= i < |ns| ensures NameOf(r[i]) == NameOf(ns[i]) {
      MergedNames(es, ns[i]);
    }
    assert UniqueServices(r);
    forall i | 0 <= i < |ns| ensures MergeEntry(r, ns[i]) == r[i] {
      MergedNames(es, ns[i]);
      if ns[i].Obj? && NameOf(ns[i]).Str? {
        UniquelyNamed(r, i);
        var e := ServiceNamed(es, NameOf(ns[i]).s);
        if e.Obj? {
          MergeServiceAgain(e.fields, ns[i].fields);
        } else {
          MergeServiceSame(ns[i].fields);
        }
      }
    }
  }

  /** The services of an object, if it lists any. */
  function ServicesOf(o: Fields): seq<Json> {
    var ss := Field(Get(o, "spec"), "services");
    if ss.List? then ss.items else []
  }

  /** One step converges: once the desired configuration is merged in, merging it again yields the
      object just stored, so no further update is due. */
  lemma ConvergesInOneStep(existing: Fields, desired: Fields)
    requires UniqueServices(ServicesOf(desired)) && MergeConfigs(existing, desired).Ok?
    ensures var stored := MergeConfigs(existing, desired).value;
            MergeConfigs(stored, desired) == Ok(stored) && !ShouldUpdate(stored, MergeConfigs(stored, desired).value)
  {
    var stored := MergeConfigs(existing, desired).value;
    if "spec" in desired && desired["spec"].Obj? && Field(desired["spec"], "services").List? {
      var ns := desired["spec"].fields["services"].items;
      SameEntries(ns);
      var same := desired["spec"].fields["services" := List(ns)];
      assert same == desired["spec"].fields;
      assert desired["spec" := Obj(same)] == desired;
      if stored != desired {
        var es := existing["spec"].fields["services"].items;
        EntriesAgain(es, ns);
        assert stored["spec"].fields["services"] == List(MergeEntries(es, ns));
        assert MergeConfigs(stored, desired) == Ok(stored);
      } else {
        assert MergeConfigs(desired, desired) == Ok(desired);
      }
    }
  }

  lemma SameEntries(ns: seq<Json>)
    requires UniqueServices(ns)
    ensures MergeEntries(ns, ns) == ns
  {
    forall i | 0 <= i < |ns| ensures MergeEntry(ns, ns[i]) == ns[i] {
      if ns[i].Obj? && NameOf(ns[i]).Str? {
        UniquelyNamed(ns, i);
        MergeServiceSame(ns[i].fields);
      }
    }
  }

  /** The result lists exactly the desired services, in the desired order, and nothing but their specs
      is touched. */
  lemma HoldsDesiredServices(existing: Fields, desired: Fields, k: string)
    requires MergeConfigs(existing, desired).Ok?
    ensures var stored := MergeConfigs(existing, desired).value;
            var ss, ns := ServicesOf(stored), ServicesOf(desired);
            |ss| == |ns| && forall i | 0 <= i < |ns| ::
              NameOf(ss[i]) == NameOf(ns[i]) && (k != "spec" ==> Field(ss[i], k) == Field(ns[i], k))
    ensures k != "spec" ==> Get(MergeConfigs(existing, desired).value, k) == Get(desired, k)
  {
  }

  /** What a spec holds at a path of keys; none when it does not reach that far. */
  datatype Maybe = Absent | Present(v: Json)

  function At(t: Json, p: seq<string>): Maybe
    decreases p
  {
    if p == [] then Present(t)
    else if t.Obj? && p[0] in t.fields then At(t.fields[p[0]], p[1..])
    else Absent
  }

  /** Whether the map says nothing about the path: some key along it is missing from a map. */
  predicate Leaves(t: Json, p: seq<string>)
    decreases p
  {
    p != [] && t.Obj? && (p[0] !in t.fields || Leaves(t.fields[p[0]], p[1..]))
  }

  /** Every value the desired spec sets wins, and every value of the stored spec it says nothing about
      is kept. */
  lemma {:induction false} MergedSpecAt(e: Json, n: Json, p: seq<string>)
    requires e.Obj? && n.Obj? && p != []
    ensures At(n, p).Present? && !At(n, p).v.Obj? ==> At(MergeSpecMap(e, n), p) == At(n, p)
    ensures Leaves(n, p) && At(e, p).Present? ==> At(MergeSpecMap(e, n), p) == At(e, p)
    decreases p
  {
    var k := p[0];
    if k in n.fields {
      if |p| == 1 {
        assert p[1..] == [];
        assert !Leaves(n.fields[k], p[1..]);
      } else if k in e.fields && n.fields[k].Obj? && e.fields[k].Obj? {
        MergedSpecAt(e.fields[k], n.fields[k], p[1..]);
      } else {
        assert k in e.fields && !e.fields[k].Obj? ==> At(e.fields[k], p[1..]).Absent?;
        assert !n.fields[k].Obj? ==> !Leaves(n.fields[k], p[1..]);
      }
    }
  }

  /** The same for the spec of a desired service in the stored object: what the desired spec sets wins, and
      what only the stored service of that name has is kept. */
  lemma StoredSpecAt(existing: Fields, desired: Fields, i: nat, p: seq<string>)
    requires MergeConfigs(existing, desired).Ok? && i < |ServicesOf(desired)| && p != []
    ensures i < |ServicesOf(MergeConfigs(existing, desired).value)|
    ensures var n, s := ServicesOf(desired)[i], ServicesOf(MergeConfigs(existing, desired).value)[i];
            var e := if NameOf(n).Str? then ServiceNamed(ServicesOf(existing), NameOf(n).s) else Null;
            var ns, es, ss := Field(n, "spec"), Field(e, "spec"), Field(s, "spec");
            && (ns.Obj? && At(ns, p).Present? && !At(ns, p).v.Obj? ==> At(ss, p) == At(ns, p))
            && (ns.Obj? && es.Obj? && Leaves(ns, p) && At(es, p).Present? ==> At(ss, p) == At(es, p))
            && (!ns.Obj? && es.Obj? ==> ss == es)
  {
    var n := ServicesOf(desired)[i];
    var e := if NameOf(n).Str? then ServiceNamed(ServicesOf(existing), NameOf(n).s) else Null;
    if Field(e, "spec").Obj? && Field(n, "spec").Obj? {
      MergedSpecAt(Field(e, "spec"), Field(n, "spec"), p);
    }
  }

  /** The stored spec says everything the desired one says: what that sets is set alike, and where it has a map there is
      a map. */
  ghost predicate Contains(e: Json, n: Json) {
    forall p | At(n, p).Present? ::
      At(e, p).Present? && if At(n, p).v.Obj? then At(e, p).v.Obj? else At(e, p) == At(n, p)
  }

  lemma ContainsAtKey(e: Json, n: Json, k: string)
    requires e.Obj? && n.Obj? && Contains(e, n) && k in n.fields
    ensures k in e.fields && Contains(e.fields[k], n.fields[k])
    ensures !n.fields[k].Obj? ==> e.fields[k] == n.fields[k]
    ensures n.fields[k].Obj? ==> e.fields[k].Obj?
  {
    OneKey(e, k, []);
    OneKey(n, k, []);
    forall p | At(n.fields[k], p).Present?
      ensures At(e.fields[k], p).Present? &&
              if At(n.fields[k], p).v.Obj? then At(e.fields[k], p).v.Obj? else At(e.fields[k], p) == At(n.fields[k], p)
    {
      OneKey(e, k, p);
      OneKey(n, k, p);
    }
  }

  lemma OneKey(t: Json, k: string, p: seq<string>)
    requires t.Obj?
    ensures At(t, [k] + p) == if k in t.fields then At(t.fields[k], p) else Absent
  {
    assert ([k] + p)[1..] == p;
  }

  /** Merging the desired spec changes the stored one exactly when that does not say everything yet. */
  lemma {:induction false} SpecUnchangedIff(e: Json, n: Json)
    requires e.Obj? && n.Obj?
    ensures MergeSpecMap(e, n) == e <==> Contains(e, n)
    decreases n
  {
    if MergeSpecMap(e, n) == e {
      forall p | At(n, p).Present?
        ensures At(e, p).Present? && if At(n, p).v.Obj? then At(e, p).v.Obj? else At(e, p) == At(n, p)
      {
        KeptInMerge(e, n, p);
      }
    }
    if Contains(e, n) {
      forall k | k in e.fields ensures Get(MergeSpecMap(e, n).fields, k) == Get(e.fields, k) {
        if k in n.fields {
          ContainsAtKey(e, n, k);
          if n.fields[k].Obj? {
            SpecUnchangedIff(e.fields[k], n.fields[k]);
          }
        }
      }
      forall k | k in n.fields ensures k in e.fields {
        ContainsAtKey(e, n, k);
      }
      SameFields(MergeSpecMap(e, n).fields, e.fields);
    }
  }

  /** What the desired spec says at a path, the merged one says. */
  lemma {:induction false} KeptInMerge(e: Json, n: Json, p: seq<string>)
    requires e.Obj? && n.Obj? && At(n, p).Present?
    ensures var r := MergeSpecMap(e, n);
            At(r, p).Present? && if At(n, p).v.Obj? then At(r, p).v.Obj? else At(r, p) == At(n, p)
    decreases p
  {
    if p != [] && e.fields.Keys >= {p[0]} && e.fields[p[0]].Obj? && n.fields[p[0]].Obj? {
      KeptInMerge(e.fields[p[0]], n.fields[p[0]], p[1..]);
    }
  }

  /** The stored service says everything the desired one of its name says; only its spec may say more. */
  ghost predicate HoldsService(e: Json, n: Json) {
    if n.Obj? && NameOf(n).Str? && Field(e, "spec").Obj?
    then e.fields - {"spec"} == n.fields - {"spec"} &&
      (Field(n, "spec").Obj? ==> Contains(Field(e, "spec"), Field(n, "spec")))
    else e == n
  }

  lemma ServiceUnchangedIff(e: Fields, n: Fields)
    requires NameOf(Obj(n)).Str?
    ensures MergeServiceMap(e, n) == e <==> HoldsService(Obj(e), Obj(n))
  {
    var es, ns := Get(e, "spec"), Get(n, "spec");
    if es.Obj? {
      if ns.Obj? {
        SpecUnchangedIff(es, ns);
      }
      WithKey(e, n, "spec", if ns.Obj? then MergeSpecMap(es, ns) else es);
    }
  }

  lemma WithKey(e: Fields, n: Fields, k: string, v: Json)
    requires k in e
    ensures n[k := v] == e <==> n - {k} == e - {k} && v == e[k]
  {
    if n[k := v] == e {
      assert n - {k} == e - {k};
    }
    if n - {k} == e - {k} && v == e[k] {
      var r := n[k := v];
      assert r - {k} == n - {k};
      forall x ensures x in r <==> x in e {
        assert x != k ==> (x in r - {k} <==> x in e - {k});
      }
      forall x | x in r ensures r[x] == e[x] {
        assert x != k ==> (r - {k})[x] == (e - {k})[x];
      }
    }
  }

  /** With unique names a service of the merged list is the stored one at its place exactly when that holds the
      desired one. */
  lemma EntryUnchangedIff(es: seq<Json>, n: Json, i: nat)
    requires UniqueServices(es) && i < |es|
    ensures MergeEntry(es, n) == es[i] <==> HoldsService(es[i], n)
  {
    MergedNames(es, n);
    var e := es[i];
    if n.Obj? && NameOf(n).Str? {
      if NameOf(e) == NameOf(n) {
        UniquelyNamed(es, i);
        assert e.Obj?;
        ServiceUnchangedIff(e.fields, n.fields);
        assert MergeEntry(es, n) == Obj(MergeServiceMap(e.fields, n.fields));
      } else {
        if HoldsService(e, n) { HeldByName(e, n); }
      }
    }
  }

  lemma HeldByName(e: Json, n: Json)
    requires HoldsService(e, n)
    ensures NameOf(e) == NameOf(n)
  {
    if e.Obj? && n.Obj? {
      assert e.fields - {"spec"} == n.fields - {"spec"} ==>
        Get(e.fields - {"spec"}, "name") == Get(n.fields - {"spec"}, "name");
    }
  }

  /** No update is due exactly when the stored spec holds what is desired: the same keys with the same values besides
      the services, and as many services, each of them holding the desired one. */
  lemma NoUpdateDueIff(existing: Fields, desired: Fields)
    requires Field(Get(existing, "spec"), "services").List? && Field(Get(desired, "spec"), "services").List?
    requires UniqueServices(ServicesOf(existing))
    ensures MergeConfigs(existing, desired).Ok?
    ensures var es, ns := ServicesOf(existing), ServicesOf(desired);
            !ShouldUpdate(existing, MergeConfigs(existing, desired).value) <==>
              && SpecOf(existing) - {"services"} == SpecOf(desired) - {"services"}
              && |es| == |ns| && forall i | 0 <= i < |ns| :: HoldsService(es[i], ns[i])
  {
    var es, ns := ServicesOf(existing), ServicesOf(desired);
    var e, n := SpecOf(existing), SpecOf(desired);
    var merged := MergeEntries(es, ns);
    assert SpecOf(MergeConfigs(existing, desired).value) == n["services" := List(merged)];
    WithKey(e, n, "services", List(merged));
    assert e["services"] == List(es);
    forall i | 0 <= i < |ns| && i < |es| ensures merged[i] == es[i] <==> HoldsService(es[i], ns[i]) {
      EntryUnchangedIff(es, ns[i], i);
    }
    if |es| == |ns| && forall i | 0 <= i < |ns| :: HoldsService(es[i], ns[i]) {
      assert merged == es;
    }
  }

  /** In particular one differing setting in the spec of a service makes an update due. */
  lemma DifferingSettingIsDue(existing: Fields, desired: Fields, i: nat, p: seq<string>)
    requires Field(Get(existing, "spec"), "services").List? && Field(Get(desired, "spec"), "services").List?
    requires UniqueServices(ServicesOf(existing)) && i < |ServicesOf(existing)| && i < |ServicesOf(desired)|
    requires var es, ns := Field(ServicesOf(existing)[i], "spec"), Field(ServicesOf(desired)[i], "spec");
             es.Obj? && ns.Obj? && At(ns, p).Present? && !At(ns, p).v.Obj? && At(es, p) != At(ns, p)
    ensures MergeConfigs(existing, desired).Ok? && ShouldUpdate(existing, MergeConfigs(existing, desired).value)
  {
    NoUpdateDueIff(existing, desired);
    assert !HoldsService(ServicesOf(existing)[i], ServicesOf(desired)[i]);
  }
}
