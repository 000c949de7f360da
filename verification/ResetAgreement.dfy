/** When it makes no difference whether sizes are cleared before a merge. */
module ResetAgreement {
  import opened Trees
  import opened ResourceComparison
  import opened Merging
  import opened Resetting
  import opened Resources

  /** What the reset would remove from the change `c`, the default `d` decides anyway: every covered size of the
      change is one that the default sets and wins. A covered map that meets no map is clean, or loses to a default
      that is compared with it. */
  predicate ResetIsMoot(q: Quantities, d: Json, c: Json, rules: Fields)
    requires d.Obj? && c.Obj?
    decreases c, 0
  {
    forall k | k in c.fields :: MootAt(q, k, Get(d.fields, k), c.fields[k], Get(rules, k))
  }

  predicate MootAt(q: Quantities, k: string, x: Json, y: Json, rule: Json)
    decreases y, 1
  {
    if Deletes(k, y, rule) then !x.Null? && MergeValue(LargestWins(q), k, x, y) == x
    else if !y.Obj? || !rule.Obj? then true
    else if x.Obj? then ResetIsMoot(q, x, y, rule.fields)
    else Clean(y, rule.fields) || (!x.Null? && KeepsOver(q, k, x, y) && KeepsOver(q, k, x, Reset(y, rule.fields)))
  }

  /** The default stays when it meets a map. */
  predicate KeepsOver(q: Quantities, k: string, x: Json, y: Json)
    requires y.Obj? && !x.Obj?
  {
    MergeValue(LargestWins(q), k, x, y) == x
  }

  /** One key of the two merges. */
  ghost predicate SameAt(q: Quantities, d: Json, c: Json, rules: Fields, k: string)
    requires d.Obj? && c.Obj?
  {
    var m := LargestWins(q);
    var a, b := MergeObj(m, d, Reset(c, rules)).fields, MergeObj(m, d, c).fields;
    (k in a <==> k in b) && (k in a ==> a[k] == b[k])
  }

  lemma SameKeyByKey(q: Quantities, d: Json, c: Json, rules: Fields)
    requires d.Obj? && c.Obj?
    ensures MergeObj(LargestWins(q), d, Reset(c, rules)) == MergeObj(LargestWins(q), d, c) <==>
            forall k | k in c.fields :: SameAt(q, d, c, rules, k)
  {
    var m := LargestWins(q);
    var a, b := MergeObj(m, d, Reset(c, rules)), MergeObj(m, d, c);
    if forall k | k in c.fields :: SameAt(q, d, c, rules, k) {
      forall k: string ensures (k in a.fields <==> k in b.fields) && Get(a.fields, k) == Get(b.fields, k) {
        GetMerged(m, d, c, k);
        GetMerged(m, d, Reset(c, rules), k);
        assert k in c.fields ==> SameAt(q, d, c, rules, k);
      }
      SameFields(a.fields, b.fields);
    }
  }

  /** Clearing the change before the merge makes no difference if and only if nothing that is cleared would have had an
      effect. */
  lemma {:induction false} ResetMootIff(q: Quantities, d: Json, c: Json, rules: Fields)
    requires d.Obj? && c.Obj?
    ensures MergeObj(LargestWins(q), d, Reset(c, rules)) == MergeObj(LargestWins(q), d, c) <==>
            ResetIsMoot(q, d, c, rules)
    decreases c
  {
    forall k | k in c.fields ensures SameAt(q, d, c, rules, k) <==>
      MootAt(q, k, Get(d.fields, k), c.fields[k], Get(rules, k)) {
      var x, y, rule := Get(d.fields, k), c.fields[k], Get(rules, k);
      if x.Obj? && y.Obj? && rule.Obj? {
        ResetMootIff(q, x, y, rule.fields);
      }
      SameAtIff(q, d, c, rules, k);
    }
    SameKeyByKey(q, d, c, rules);
  }

  lemma SameAtIff(q: Quantities, d: Json, c: Json, rules: Fields, k: string)
    requires d.Obj? && c.Obj? && k in c.fields
    requires var x, y, rule := Get(d.fields, k), c.fields[k], Get(rules, k);
             x.Obj? && y.Obj? && rule.Obj? ==>
               (MergeObj(LargestWins(q), x, Reset(y, rule.fields)) == MergeObj(LargestWins(q), x, y) <==>
                ResetIsMoot(q, x, y, rule.fields))
    ensures SameAt(q, d, c, rules, k) <==> MootAt(q, k, Get(d.fields, k), c.fields[k], Get(rules, k))
  {
    var y, rule := c.fields[k], Get(rules, k);
    if Deletes(k, y, rule) {
      DeletedAt(q, d, c, rules, k);
    } else {
      KeptAt(q, d, c, rules, k);
      if y.Obj? && rule.Obj? && !Get(d.fields, k).Obj? {
        MapOverOther(q, k, Get(d.fields, k), y, rule.fields);
      }
    }
  }

  /** A key that is deleted is read from the default alone. */
  lemma DeletedAt(q: Quantities, d: Json, c: Json, rules: Fields, k: string)
    requires d.Obj? && c.Obj? && k in c.fields && Deletes(k, c.fields[k], Get(rules, k))
    ensures SameAt(q, d, c, rules, k) <==>
            !Get(d.fields, k).Null? && MergeValue(LargestWins(q), k, Get(d.fields, k), c.fields[k]) == Get(d.fields, k)
  {
    var m, x := LargestWins(q), Get(d.fields, k);
    var a, b := MergeObj(m, d, Reset(c, rules)).fields, MergeObj(m, d, c).fields;
    GetMerged(m, d, c, k);
    GetMerged(m, d, Reset(c, rules), k);
    assert k in a <==> !x.Null?;
    assert k in b;
  }

  /** Any other key is merged with what the reset leaves of it. */
  lemma KeptAt(q: Quantities, d: Json, c: Json, rules: Fields, k: string)
    requires d.Obj? && c.Obj? && k in c.fields && !Deletes(k, c.fields[k], Get(rules, k))
    ensures var x, y, rule := Get(d.fields, k), c.fields[k], Get(rules, k);
            SameAt(q, d, c, rules, k) <==>
            MergeValue(LargestWins(q), k, x, if y.Obj? && rule.Obj? then Reset(y, rule.fields) else y) ==
            MergeValue(LargestWins(q), k, x, y)
  {
    var m := LargestWins(q);
    assert k in Reset(c, rules).fields;
    GetMerged(m, d, c, k);
    GetMerged(m, d, Reset(c, rules), k);
  }

  /** A map of the change that meets something else. */
  lemma MapOverOther(q: Quantities, k: string, x: Json, y: Json, rules: Fields)
    requires y.Obj? && !x.Obj?
    ensures MergeValue(LargestWins(q), k, x, Reset(y, rules)) == MergeValue(LargestWins(q), k, x, y) <==>
            Clean(y, rules) || (!x.Null? && KeepsOver(q, k, x, y) && KeepsOver(q, k, x, Reset(y, rules)))
  {
    ResetCleans(y, rules);
    LargerSelects(q, x, y);
    LargerSelects(q, x, Reset(y, rules));
  }

  /** The same for whole configurations. */
  lemma RootMootIff(q: Quantities, d: Fields, c: Json, rules: Fields)
    requires c.Obj?
    ensures Merge(LargestWins(q), d, Reset(c, rules).fields) == Merge(LargestWins(q), d, c.fields) <==>
            ResetIsMoot(q, Obj(d), c, rules)
  {
    RootMerge(LargestWins(q), d, c.fields);
    RootMerge(LargestWins(q), d, Reset(c, rules).fields);
    ResetMootIff(q, Obj(d), c, rules);
  }

  /** Over nothing, only a clean change is the same cleared. */
  lemma {:induction false} MootOverNothing(q: Quantities, c: Json, rules: Fields)
    requires c.Obj?
    ensures ResetIsMoot(q, Obj(map[]), c, rules) <==> Clean(c, rules)
  {
  }

  /** A change that is clean already can be cleared over anything. */
  lemma {:induction false} CleanIsMoot(q: Quantities, d: Json, c: Json, rules: Fields)
    requires d.Obj? && c.Obj? && Clean(c, rules)
    ensures ResetIsMoot(q, d, c, rules)
    decreases c
  {
    ResetCleans(c, rules);
    ResetMootIff(q, d, c, rules);
  }

  /** A resource has no CPU limit that could be cleared. */
  predicate NoLimitLeft(t: Json) {
    Limits(t).Obj? ==> Get(Limits(t).fields, "cpu") == Cleared
  }

  lemma {:induction false} NothingToClear(t: Json)
    ensures ClearCpuLimit(t) == t <==> NoLimitLeft(t)
  {
    var limits := Limits(t);
    if limits.Obj? {
      var data := Field(t, "data");
      var spec := Field(data, "spec");
      var resources := Field(spec, "resources");
      var limits' := Put(limits, "cpu", Cleared);
      assert Limits(ClearCpuLimit(t)) == limits';
      if NoLimitLeft(t) {
        assert limits' == limits;
        assert Put(resources, "limits", limits) == resources;
        assert Put(spec, "resources", resources) == spec;
        assert Put(data, "spec", spec) == data;
      }
    }
  }

  /** No merged pair of resources has a CPU limit left. */
  ghost predicate LimitsMoot(q: Quantities, base: seq<Json>, cs: seq<Json>, opconNs: string) {
    var p := Partners(base, cs, opconNs);
    forall i | i in p :: NoLimitLeft(Combine(q, base[i], cs[p[i]], "default"))
  }

  /** An external controller makes no difference to a resource list if and only if no merged pair has a limit left. */
  lemma {:induction false} LimitsMootIff(q: Quantities, base: seq<Json>, cs: seq<Json>, opconNs: string,
                                         controller: string)
    requires controller in EXTERNAL_CONTROLLERS
    ensures MergeArrays(q, base, cs, opconNs, controller) == MergeArrays(q, base, cs, opconNs, "default") <==>
            LimitsMoot(q, base, cs, opconNs)
  {
    var p := Partners(base, cs, opconNs);
    var a, b, rest := MergedBase(q, base, cs, p, controller), MergedBase(q, base, cs, p, "default"),
      Others(cs, Handled(cs, p));
    forall i | i in p ensures a[i] == b[i] <==> NoLimitLeft(Combine(q, base[i], cs[p[i]], "default")) {
      NothingToClear(Combine(q, base[i], cs[p[i]], "default"));
    }
    assert forall i | 0 <= i < |base| && i !in p :: a[i] == b[i];
    assert a + rest == b + rest <==> a == b by {
      assert (a + rest)[..|base|] == a && (b + rest)[..|base|] == b;
    }
  }
}
