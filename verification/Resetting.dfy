/** Clearing the sizes of services that an external controller scales. */
module Resetting {
  import opened Trees
  import opened ResourceComparison
  import opened Merging
  import opened Shrinking

  const RESET_KEYS: set<string> := {"replicas", "cpu", "memory"}

  /** Whether the reset deletes key `k` holding `v`, when the rule tree has `rule` for it. */
  predicate Deletes(k: string, v: Json, rule: Json) {
    !rule.Null? && !v.Obj? && k in RESET_KEYS
  }

  /** The keys that are deleted, by name, where a rule covers them. */
  lemma DeletedByName(k: string, v: Json, rules: Fields)
    requires !v.Obj?
    ensures Reset(Obj(map[k := v]), rules) ==
            Obj(if (k == "replicas" || k == "cpu" || k == "memory") && !Get(rules, k).Null? then map[] else map[k := v])
  {
  }

  /** A map is never deleted, whatever its key and its rule are. It is looked into where the rule is a map. */
  lemma MapsStay(t: Json, rules: Fields, k: string)
    requires t.Obj? && k in t.fields && t.fields[k].Obj?
    ensures k in Reset(t, rules).fields && Reset(t, rules).fields[k].Obj?
    ensures Get(rules, k).Obj? ==> Reset(t, rules).fields[k] == Reset(t.fields[k], rules[k].fields)
    ensures !Get(rules, k).Obj? ==> Reset(t, rules).fields[k] == t.fields[k]
  {
  }

  /** The map `t` under the rules `rules`. */
  function Reset(t: Json, rules: Fields): (r: Json)
    requires t.Obj?
    ensures r.Obj?
    decreases t
  {
    Obj(map k | k in t.fields && !Deletes(k, t.fields[k], Get(rules, k)) ::
      if t.fields[k].Obj? && Get(rules, k).Obj? then Reset(t.fields[k], rules[k].fields) else t.fields[k])
  }

  /** No size that a rule covers is left anywhere in the map. */
  predicate Clean(t: Json, rules: Fields)
    requires t.Obj?
    decreases t
  {
    forall k | k in t.fields ::
      !Deletes(k, t.fields[k], Get(rules, k)) &&
      (t.fields[k].Obj? && Get(rules, k).Obj? ==> Clean(t.fields[k], rules[k].fields))
  }

  /** The reset leaves no covered size behind, and it changes exactly the maps that held one. */
  lemma {:induction false} ResetCleans(t: Json, rules: Fields)
    requires t.Obj?
    ensures Clean(Reset(t, rules), rules)
    ensures Reset(t, rules) == t <==> Clean(t, rules)
    decreases t
  {
    forall k | k in t.fields && t.fields[k].Obj? && Get(rules, k).Obj? {
      ResetCleans(t.fields[k], rules[k].fields);
    }
    if Clean(t, rules) {
      SameFields(Reset(t, rules).fields, t.fields);
    }
  }

  lemma ResetIsIdempotent(t: Json, rules: Fields)
    requires t.Obj?
    ensures Reset(Reset(t, rules), rules) == Reset(t, rules)
  {
    ResetCleans(t, rules);
    ResetCleans(Reset(t, rules), rules);
  }

  /** Whether the keys along `p` lead through rule-covered maps to a deleted entry, at `p` or above. */
  predicate RemovedAt(t: Json, rules: Fields, p: seq<string>)
    requires t.Obj?
    decreases p
  {
    p != [] && p[0] in t.fields &&
    (Deletes(p[0], t.fields[p[0]], Get(rules, p[0])) ||
     (t.fields[p[0]].Obj? && Get(rules, p[0]).Obj? && RemovedAt(t.fields[p[0]], rules[p[0]].fields, p[1..])))
  }

  function KeyPath(p: seq<string>): (r: seq<Step>)
    ensures |r| == |p|
  {
    if p == [] then [] else [Key(p[0])] + KeyPath(p[1..])
  }

  /** The reset deletes exactly the covered sizes: they read as absent afterwards, and every other
      value that is not a map is what it was. */
  lemma {:induction false} ResetDeletesExactly(t: Json, rules: Fields, p: seq<string>)
    requires t.Obj? && p != []
    ensures RemovedAt(t, rules, p) ==> Find(Reset(t, rules), KeyPath(p)).Null?
    ensures !RemovedAt(t, rules, p) && !Find(t, KeyPath(p)).Obj? ==>
            Find(Reset(t, rules), KeyPath(p)) == Find(t, KeyPath(p))
    decreases p
  {
    var k := p[0];
    assert KeyPath(p)[0] == Key(k) && KeyPath(p)[1..] == KeyPath(p[1..]);
    FindNull(KeyPath(p[1..]));
    var r := Reset(t, rules);
    assert Find(r, KeyPath(p)) == Find(Get(r.fields, k), KeyPath(p[1..]));
    if k in t.fields && t.fields[k].Obj? && Get(rules, k).Obj? {
      if |p| == 1 {
        assert p[1..] == [];
        assert !RemovedAt(t.fields[k], rules[k].fields, []);
      } else {
        ResetDeletesExactly(t.fields[k], rules[k].fields, p[1..]);
      }
    }
  }

  /** Both merges keep clean maps clean. */
  lemma {:induction false} MergeKeepsClean(m: Policy, d: Json, c: Json, rules: Fields)
    requires d.Obj? && c.Obj? && Clean(d, rules) && Clean(c, rules)
    ensures Clean(MergeObj(m, d, c), rules)
    decreases d
  {
    var r := MergeObj(m, d, c);
    forall k | k in r.fields
      ensures !Deletes(k, r.fields[k], Get(rules, k))
      ensures r.fields[k].Obj? && Get(rules, k).Obj? ==> Clean(r.fields[k], rules[k].fields)
    {
      var x, y := Get(d.fields, k), Get(c.fields, k);
      GetMerged(m, d, c, k);
      if x.Obj? && y.Obj? {
        if Get(rules, k).Obj? {
          MergeKeepsClean(m, x, y, rules[k].fields);
        }
      } else if Compares(m, k) {
        LargerSelects(m.q, x, y);
      }
    }
  }

  lemma RootMergeKeepsClean(m: Policy, d: Fields, c: Fields, rules: Fields)
    requires Clean(Obj(d), rules) && Clean(Obj(c), rules)
    ensures Clean(Obj(Merge(m, d, c)), rules)
  {
    MergeKeepsClean(m, Obj(d), Obj(c), rules);
    RootMerge(m, d, c);
  }

  /** So does scaling. */
  lemma {:induction false} ShrinkKeepsClean(q: Quantities, e: Extreme, d: Json, c: Json, rules: Fields)
    requires d.Obj? && c.Obj? && Clean(d, rules) && Clean(c, rules)
    ensures Clean(ShrinkObj(q, e, d, c), rules)
    decreases d
  {
    var r := ShrinkObj(q, e, d, c);
    forall k | k in r.fields
      ensures !Deletes(k, r.fields[k], Get(rules, k))
      ensures r.fields[k].Obj? && Get(rules, k).Obj? ==> Clean(r.fields[k], rules[k].fields)
    {
      var x, y := Get(d.fields, k), Get(c.fields, k);
      GetShrunk(q, e, d, c, k);
      if x.Obj? && y.Obj? {
        if Get(rules, k).Obj? {
          ShrinkKeepsClean(q, e, x, y, rules[k].fields);
        }
      } else if y.Scalar() && !y.Null? && !x.Null? {
        PickSelects(q, e, x, y);
      }
    }
  }

  lemma RootShrinkKeepsClean(q: Quantities, e: Extreme, d: Fields, c: Fields, rules: Fields)
    requires Clean(Obj(d), rules) && Clean(Obj(c), rules)
    ensures Clean(Obj(Shrink(q, e, d, c)), rules)
  {
    ShrinkKeepsClean(q, e, Obj(d), Obj(c), rules);
    var r := Shrink(q, e, d, c);
    forall k | k in r
      ensures !Deletes(k, r[k], Get(rules, k))
      ensures r[k].Obj? && Get(rules, k).Obj? ==> Clean(r[k], rules[k].fields)
    {
      GetShrunk(q, e, Obj(d), Obj(c), k);
    }
  }
}
