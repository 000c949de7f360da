/** The bootstrap path: checking the CR configurations and merging them into the base. */
module ConfigMerger {
  import opened Sequences
  import opened Trees
  import opened Resources
  import opened Services
  import opened ReplicaMode
  import opened SteadyState
  import opened Wrappers

  /** A resource that configures the common database as a replica. */
  predicate ConfiguresReplica(r: Json) {
    var spec := Field(Field(r, "data"), "spec");
    StringField(r, "kind") == "Cluster" && StringField(r, "name") == "common-service-db" && spec.Obj? &&
    ("replica" in spec.fields || "externalClusters" in spec.fields ||
     (Field(spec, "bootstrap").Obj? && "pg_basebackup" in Field(spec, "bootstrap").fields))
  }

  function ReplicasIn(rs: seq<Json>): nat {
    if rs == [] then 0 else (if ConfiguresReplica(rs[0]) then 1 else 0) + ReplicasIn(rs[1..])
  }

  /** How many replica configurations the CRs hold in total. */
  function ReplicaCount(cs: seq<Service>): nat {
    if cs == [] then 0
    else (if cs[0].name == "common-service-cnpg" then ReplicasIn(GetOr(cs[0].resources, [])) else 0) +
         ReplicaCount(cs[1..])
  }

  /** The common database is configured as a replica in three ways: by a replica section, by external clusters, or by a
      bootstrap from a backup. Another kind or name, or no spec, is none. */
  lemma ReplicaByKind(r: Json, spec: Fields)
    requires Field(Field(r, "data"), "spec") == Obj(spec)
    ensures ConfiguresReplica(r) <==>
            Field(r, "kind") == Str("Cluster") && Field(r, "name") == Str("common-service-db") &&
            ("replica" in spec || "externalClusters" in spec ||
             (Get(spec, "bootstrap").Obj? && "pg_basebackup" in spec["bootstrap"].fields))
  {
  }

  /** A PostgreSQL cluster that is bootstrapped from a primary is such a configuration under that name. */
  lemma ReplicaModeCounts(r: Json)
    requires IsReplica(r) && Field(r, "name") == Str("common-service-db")
    ensures ConfiguresReplica(r)
  {
  }

  /** The configurations of several services add up, and those of a service are its resources'. Only the service of the
      database operator counts. */
  lemma {:induction false} ReplicasAddUp(a: seq<Service>, b: seq<Service>)
    ensures ReplicaCount(a + b) == ReplicaCount(a) + ReplicaCount(b)
  {
    if a == [] {
      assert a + b == b;
    } else {
      HeadOfConcat(a, b);
      ReplicasAddUp(a[1..], b);
    }
  }

  lemma {:induction false} ReplicasOfResources(a: seq<Json>, b: seq<Json>)
    ensures ReplicasIn(a + b) == ReplicasIn(a) + ReplicasIn(b)
  {
    if a == [] {
      assert a + b == b;
    } else {
      HeadOfConcat(a, b);
      ReplicasOfResources(a[1..], b);
    }
  }

  lemma OneServiceCounts(s: Service, r: Json)
    requires s.resources == Some([r])
    ensures ReplicaCount([s]) == if s.name == "common-service-cnpg" && ConfiguresReplica(r) then 1 else 0
  {
    assert [s][1..] == [] && [r][1..] == [];
    assert ReplicasIn([r]) == if ConfiguresReplica(r) then 1 else 0;
    assert ReplicaCount([]) == 0;
  }

  /** At most one replica configuration is allowed. */
  method ValidateSingleReplicaConfig(cs: seq<Service>) returns (r: Result<()>)
    ensures r.Ok? <==> ReplicaCount(cs) <= 1
  {
    var replicaCount := 0;
    for i := 0 to |cs|
      invariant 0 <= replicaCount <= 1
      invariant replicaCount + ReplicaCount(cs[i..]) == ReplicaCount(cs)
    {
      Suffix(cs, i);
      if cs[i].name != "common-service-cnpg" {
        continue;
      }
      var resources := GetOr(cs[i].resources, []);
      for j := 0 to |resources|
        invariant 0 <= replicaCount <= 1
        invariant replicaCount + ReplicasIn(resources[j..]) + ReplicaCount(cs[i + 1..]) == ReplicaCount(cs)
      {
        Suffix(resources, j);
        if ConfiguresReplica(resources[j]) {
          replicaCount := replicaCount + 1;
          if replicaCount > 1 {
            return Err("multiple CSPostgreSQLReplica configurations found in tenant");
          }
        }
      }
    }
    return Ok(());
  }

  /** The base services with the CR's merged in. More than one replica configuration is an error, and then a
      base that does not parse. The result is what the reconcile path makes of the same base exactly when the two
      agree on every service. */
  method MergeBaseAndCSConfigs(ctx: Context, baseConfig: Result<seq<Service>>, cs: seq<Service>)
    returns (r: Result<seq<Service>>)
    requires baseConfig.Ok? ==> OperatorsDefined(ctx, baseConfig.value, cs)
    ensures r.Ok? <==> ReplicaCount(cs) <= 1 && baseConfig.Ok?
    ensures r.Ok? ==> r.value == MergeOperators(ctx, baseConfig.value, cs)
    ensures r.Ok? && UniqueNames(baseConfig.value) && UniqueNames(cs) && Comparable(baseConfig.value, cs) ==>
      (Contents(r.value) == Contents(MergeWithBase(ctx, baseConfig.value, cs)) <==>
       forall c | c in cs :: AgreeOn(ctx, baseConfig.value, c))
  {
    var valid := ValidateSingleReplicaConfig(cs);
    if valid.Err? {
      return Err(valid.error);
    }
    if baseConfig.Err? {
      return Err("failed to parse base OperandConfig: " + baseConfig.error);
    }
    var base := baseConfig.value;
    var summary := new Summary(base);
    summary.MergeCSCRs(ctx, cs);
    ghost var comparable := UniqueNames(base) && UniqueNames(cs) && Comparable(base, cs);
    if comparable {
      TwoPathsAgree(ctx, base, cs);
    }
    return Ok(summary.services);
  }
}
