/** PostgreSQL clusters bootstrapped as replicas, over any number of merges. */
module ReplicaMode {
  import opened Trees
  import opened ResourceComparison
  import opened Merging
  import opened Resources
  import opened ResourceLaws

  /** What counts as a PostgreSQL cluster. */
  lemma ClusterByName(r: Json)
    ensures IsCluster(r) <==> Field(r, "kind") == Str("Cluster") && Field(r, "apiVersion") == Str("pg.ibm.com/v1")
  {
  }

  /** A merged resource loses `initdb` exactly when the CR's resource is a PostgreSQL cluster and the merge of the two
      has a `pg_basebackup` entry in its bootstrap section; every other entry of the section is the merge's. */
  lemma MergedBootstrapEntry(q: Quantities, b: Json, r: Json, controller: string, k: string)
    requires b.Obj? && r.Obj?
    ensures var merged := Obj(Merge(LargestWins(q), b.fields, r.fields));
            var cluster := Field(r, "kind") == Str("Cluster") && Field(r, "apiVersion") == Str("pg.ibm.com/v1");
            Field(Bootstrap(Combine(q, b, r, controller)), k) ==
            if cluster && k == "initdb" && Bootstrap(merged).Obj? && "pg_basebackup" in Bootstrap(merged).fields
            then Null else Field(Bootstrap(merged), k)
  {
    var merged := Obj(Merge(LargestWins(q), b.fields, r.fields));
    ClusterByName(r);
    CleanedBootstrap(merged, k);
    ClearedBootstrap(merged);
    ClearedBootstrap(DropInitdb(merged));
  }

  /** The cluster is bootstrapped from a primary. */
  predicate IsReplica(r: Json) {
    IsCluster(r) && !Field(Bootstrap(r), "pg_basebackup").Null?
  }

  /** A replica cluster has nothing left to initialise it by. */
  predicate Consistent(r: Json) {
    IsReplica(r) ==> Field(Bootstrap(r), "initdb").Null?
  }

  /** Where the resource says anything on the way to its bootstrap section, it is a map. */
  predicate Shaped(r: Json) {
    var data := Field(r, "data");
    var spec := Field(data, "spec");
    (data.Null? || data.Obj?) && (spec.Null? || spec.Obj?) && (Bootstrap(r).Null? || Bootstrap(r).Obj?)
  }

  lemma MergedField(m: Policy, key: string, d: Json, c: Json, k: string)
    requires d.Null? || d.Obj?
    requires c.Null? || c.Obj?
    ensures Field(MergeValue(m, key, d, c), k) == MergeValue(m, k, Field(d, k), Field(c, k))
  {
    if d.Obj? && c.Obj? {
      GetMerged(m, d, c, k);
    } else {
      if Compares(m, key) { LargerSelects(m.q, Null, c); }
      if Compares(m, k) { LargerSelects(m.q, Null, Field(c, k)); }
    }
  }

  /** The bootstrap section of two merged resources. */
  lemma MergedBootstrap(q: Quantities, b: Json, r: Json, k: string)
    requires b.Obj? && r.Obj? && Shaped(b) && Shaped(r)
    ensures var merged := Obj(Merge(LargestWins(q), b.fields, r.fields));
            Field(Bootstrap(merged), k) == MergeValue(LargestWins(q), k, Field(Bootstrap(b), k), Field(Bootstrap(r), k))
  {
    var m := LargestWins(q);
    GetMerge(m, b.fields, r.fields, "data");
    MergedField(m, "data", Field(b, "data"), Field(r, "data"), "spec");
    MergedField(m, "spec", Field(Field(b, "data"), "spec"), Field(Field(r, "data"), "spec"), "bootstrap");
    MergedField(m, "bootstrap", Bootstrap(b), Bootstrap(r), k);
  }

  /** The clean-up removes `initdb` exactly from resources with a `pg_basebackup` entry, and nothing else. */
  lemma CleanedBootstrap(t: Json, k: string)
    requires t.Obj?
    ensures Field(Bootstrap(DropInitdb(t)), k) ==
      if k == "initdb" && Bootstrap(t).Obj? && "pg_basebackup" in Bootstrap(t).fields then Null
        else Field(Bootstrap(t), k)
  {
  }

  lemma InitdbGone(t: Json)
    requires t.Obj? && !Field(Bootstrap(t), "pg_basebackup").Null?
    ensures var boot := Bootstrap(DropInitdb(t)); boot.Obj? && "initdb" !in boot.fields
  {
  }

  lemma ClearedBootstrap(t: Json)
    requires t.Obj?
    ensures Bootstrap(ClearCpuLimit(t)) == Bootstrap(t)
  {
  }

  lemma SameKind(q: Quantities, b: Json, r: Json, opconNs: string, controller: string)
    requires Matches(b, r, opconNs)
    ensures IsCluster(Combine(q, b, r, controller)) <==> IsCluster(b)
    ensures IsCluster(r) <==> IsCluster(b)
  {
    CombineKeepsIdentity(q, b, r, opconNs, controller);
  }

  /** The bootstrap section of a merged cluster: the two sections merged, without `initdb` if there is a
      `pg_basebackup`. */
  lemma CombinedBootstrap(q: Quantities, b: Json, r: Json, controller: string)
    requires b.Obj? && r.Obj? && Shaped(b) && Shaped(r) && IsCluster(r)
    ensures var t, merged := Combine(q, b, r, controller), Obj(Merge(LargestWins(q), b.fields, r.fields));
            && Bootstrap(t) == Bootstrap(DropInitdb(merged))
            && Field(Bootstrap(t), "pg_basebackup") ==
               MergeValue(LargestWins(q), "pg_basebackup", Field(Bootstrap(b), "pg_basebackup"),
                          Field(Bootstrap(r), "pg_basebackup"))
            && (!Field(Bootstrap(t), "pg_basebackup").Null? ==> Bootstrap(t).Obj? && "initdb" !in Bootstrap(t).fields)
  {
    var merged := Obj(Merge(LargestWins(q), b.fields, r.fields));
    MergedBootstrap(q, b, r, "pg_basebackup");
    CleanedBootstrap(merged, "pg_basebackup");
    ClearedBootstrap(DropInitdb(merged));
    if !Field(Bootstrap(merged), "pg_basebackup").Null? { InitdbGone(merged); }
  }

  /** One merge: a replica on either side makes the result a replica, and the result has no
      `initdb` at all. */
  lemma ReplicaSurvivesMerge(q: Quantities, b: Json, r: Json, opconNs: string, controller: string)
    requires Matches(b, r, opconNs) && Shaped(b) && Shaped(r)
    ensures IsReplica(Combine(q, b, r, controller)) <==> IsReplica(b) || IsReplica(r)
    ensures var t := Combine(q, b, r, controller);
            IsReplica(t) ==> Bootstrap(t).Obj? && "initdb" !in Bootstrap(t).fields
    ensures Consistent(Combine(q, b, r, controller))
  {
    SameKind(q, b, r, opconNs, controller);
    if IsCluster(r) {
      CombinedBootstrap(q, b, r, controller);
      MergedIsSet(LargestWins(q), "pg_basebackup", Field(Bootstrap(b), "pg_basebackup"),
                  Field(Bootstrap(r), "pg_basebackup"));
    }
  }

  /** A merged value is null only if both sides are. */
  lemma MergedIsSet(m: Policy, key: string, d: Json, c: Json)
    ensures MergeValue(m, key, d, c).Null? <==> d.Null? && c.Null?
  {
    if Compares(m, key) { LargerSelects(m.q, d, c); }
  }

  lemma MapsMergeToMaps(m: Policy, key: string, d: Json, c: Json)
    requires (d.Null? || d.Obj?) && (c.Null? || c.Obj?)
    ensures MergeValue(m, key, d, c).Null? || MergeValue(m, key, d, c).Obj?
  {
    if Compares(m, key) { LargerSelects(m.q, Null, c); }
  }

  lemma MergedShape(m: Policy, b: Json, r: Json)
    requires b.Obj? && r.Obj? && Shaped(b) && Shaped(r)
    ensures Shaped(Obj(Merge(m, b.fields, r.fields)))
  {
    var bd, rd := Field(b, "data"), Field(r, "data");
    var bs, rs := Field(bd, "spec"), Field(rd, "spec");
    GetMerge(m, b.fields, r.fields, "data");
    MergedField(m, "data", bd, rd, "spec");
    MergedField(m, "spec", bs, rs, "bootstrap");
    MapsMergeToMaps(m, "data", bd, rd);
    MapsMergeToMaps(m, "spec", bs, rs);
    MapsMergeToMaps(m, "bootstrap", Bootstrap(b), Bootstrap(r));
  }

  lemma ShapeSurvivesMerge(q: Quantities, b: Json, r: Json, controller: string)
    requires b.Obj? && r.Obj? && Shaped(b) && Shaped(r)
    ensures Shaped(Combine(q, b, r, controller))
  {
    var merged := Obj(Merge(LargestWins(q), b.fields, r.fields));
    MergedShape(LargestWins(q), b, r);
    ShapeSurvivesCleanup(merged);
    ShapeSurvivesCleanup(DropInitdb(merged));
  }

  lemma ShapeSurvivesCleanup(t: Json)
    requires t.Obj? && Shaped(t)
    ensures DropInitdb(t).Obj? && Shaped(DropInitdb(t)) && Shaped(ClearCpuLimit(t))
  {
  }

  ghost predicate AllConsistent(rs: seq<Json>) {
    forall i | 0 <= i < |rs| :: Consistent(rs[i]) && Shaped(rs[i])
  }

  /** One list merged into another. */
  lemma ListStaysConsistent(q: Quantities, base: seq<Json>, cs: seq<Json>, opconNs: string, controller: string)
    requires AllConsistent(base) && AllConsistent(cs)
    ensures var r := MergeArrays(q, base, cs, opconNs, controller);
            && |base| <= |r| && AllConsistent(r)
            && forall i | 0 <= i < |base| && IsReplica(base[i]) :: IsReplica(r[i])
  {
    var r, p := MergeArrays(q, base, cs, opconNs, controller), Partners(base, cs, opconNs);
    var h := Handled(cs, p);
    forall i | 0 <= i < |r|
      ensures Consistent(r[i]) && Shaped(r[i])
      ensures i < |base| && IsReplica(base[i]) ==> IsReplica(r[i])
    {
      if i < |base| {
        MergedInPlace(q, base, cs, opconNs, controller, i);
        if i in p {
          ReplicaSurvivesMerge(q, base[i], cs[p[i]], opconNs, controller);
          ShapeSurvivesMerge(q, base[i], cs[p[i]], controller);
        }
      } else {
        assert r[i] == Others(cs, h)[i - |base|];
        OthersMembers(cs, h, r[i]);
      }
    }
  }

  /** Any number of resource lists merged one after the other. */
  function MergeLists(q: Quantities, base: seq<Json>, lists: seq<seq<Json>>, opconNs: string,
                      controller: string): seq<Json>
    decreases |lists|
  {
    if lists == [] then base
    else MergeLists(q, MergeArrays(q, base, lists[0], opconNs, controller), lists[1..], opconNs, controller)
  }

  /** Over any run of merges no replica cluster is ever turned back, and none regains an `initdb`. */
  lemma {:induction false} ReplicaModeIsStable(q: Quantities, base: seq<Json>, lists: seq<seq<Json>>, opconNs: string,
                                               controller: string)
    requires AllConsistent(base) && forall l | l in lists :: AllConsistent(l)
    ensures var r := MergeLists(q, base, lists, opconNs, controller);
            && |base| <= |r| && AllConsistent(r)
            && forall i | 0 <= i < |base| && IsReplica(base[i]) :: IsReplica(r[i])
    decreases |lists|
  {
    if lists != [] {
      ListStaysConsistent(q, base, lists[0], opconNs, controller);
      ReplicaModeIsStable(q, MergeArrays(q, base, lists[0], opconNs, controller), lists[1..], opconNs, controller);
    }
  }
}
