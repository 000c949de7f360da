/** The merges as the operator runs them: key by key, writing into the changed map. */
module MergeEngine {
  import opened Trees
  import opened ResourceComparison
  import opened Merging
  import opened Shrinking
  import opened Resetting

  /** The merge of two maps when the keys in `todo` are still to be visited. */
  ghost function MergedExcept(m: Policy, d: Json, c: Json, todo: set<string>): Fields
    requires d.Obj? && c.Obj?
  {
    map k | k in c.fields.Keys + ((if m.UserWins? then d.fields.Keys else SetKeys(d.fields)) - todo) ::
      if k in d.fields && k !in todo then MergeValue(m, k, d.fields[k], Get(c.fields, k)) else c.fields[k]
  }

  lemma VisitKey(m: Policy, d: Json, c: Json, todo: set<string>, k: string)
    requires d.Obj? && c.Obj? && k in todo && todo <= d.fields.Keys
    ensures var before, after := MergedExcept(m, d, c, todo), MergedExcept(m, d, c, todo - {k});
            && Get(before, k) == Get(c.fields, k)
            && after == if m.LargestWins? && d.fields[k] == Get(c.fields, k) then before
                        else before[k := MergeValue(m, k, d.fields[k], Get(c.fields, k))]
  {
    var before, after := MergedExcept(m, d, c, todo), MergedExcept(m, d, c, todo - {k});
    if m.LargestWins? && d.fields[k] == Get(c.fields, k) {
      MergeSame(m, k, d.fields[k]);
      assert after.Keys == before.Keys;
      assert after == before;
    } else {
      var updated := before[k := MergeValue(m, k, d.fields[k], Get(c.fields, k))];
      assert after.Keys == updated.Keys;
      assert after == updated;
    }
  }

  /** Position `i` of the default list is visited. */
  /** Past the end of the change, a map of the default is appended. */
  lemma VisitAppended(m: Policy, ds: seq<Json>, i: nat)
    requires i < |ds|
    ensures MergeItems(m, ds[..i + 1], []) == if ds[i].Obj? then MergeItems(m, ds[..i], []) + [ds[i]]
                                              else MergeItems(m, ds[..i], [])
  {
    assert ds[..i + 1] == ds[..i] + [ds[i]];
    MapsOfSplit(ds[..i], [ds[i]]);
    assert MapsOf([ds[i]]) == (if ds[i].Obj? then [ds[i]] else []);
  }

  /** Visiting item `i` of the default, as a step from `before` to `after`. */
  predicate ItemVisited(m: Policy, before: seq<Json>, after: seq<Json>, d: Json, cs: seq<Json>, i: nat)
    requires i < |cs| ==> i < |before|
  {
    && (i < |cs| ==> before[i] == cs[i] && after == before[i := MergeItem(m, d, cs[i])])
    && (i >= |cs| ==> after == if d.Obj? then before + [d] else before)
  }

  lemma {:induction false} VisitItem(m: Policy, ds: seq<Json>, cs: seq<Json>, i: nat)
    requires i < |ds|
    ensures ItemVisited(m, MergeItems(m, ds[..i], cs), MergeItems(m, ds[..i + 1], cs), ds[i], cs, i)
    decreases i
  {
    if cs == [] {
      VisitAppended(m, ds, i);
    } else if i == 0 {
      VisitFirst(m, ds, cs);
    } else {
      VisitItem(m, ds[1..], cs[1..], i - 1);
      UnrollMerge(m, ds, cs, i);
      UnrollMerge(m, ds, cs, i + 1);
      VisitedLater(m, MergeItem(m, ds[0], cs[0]), MergeItems(m, ds[1..][..i - 1], cs[1..]),
                   MergeItems(m, ds[1..][..i], cs[1..]), ds[i], cs, i);
    }
  }

  lemma VisitFirst(m: Policy, ds: seq<Json>, cs: seq<Json>)
    requires ds != [] && cs != []
    ensures ds[..0] == [] && MergeItems(m, ds[..0], cs) == cs
    ensures MergeItems(m, ds[..1], cs) == cs[0 := MergeItem(m, ds[0], cs[0])]
  {
    assert ds[..1] == [ds[0]] && [ds[0]][1..] == [];
    assert MergeItems(m, [], cs[1..]) == cs[1..];
  }

  /** One position further back, behind the same head. */
  lemma VisitedLater(m: Policy, head: Json, before: seq<Json>, after: seq<Json>, d: Json, cs: seq<Json>, i: nat)
    requires 0 < i && cs != [] && (i < |cs| ==> i - 1 < |before|)
    requires ItemVisited(m, before, after, d, cs[1..], i - 1)
    ensures ItemVisited(m, [head] + before, [head] + after, d, cs, i)
  {
    if i < |cs| {
      assert ([head] + before)[i] == before[i - 1];
      assert [head] + before[i - 1 := MergeItem(m, d, cs[i])] == ([head] + before)[i := MergeItem(m, d, cs[i])];
    } else if d.Obj? {
      assert [head] + (before + [d]) == [head] + before + [d];
    }
  }

  lemma UnrollMerge(m: Policy, ds: seq<Json>, cs: seq<Json>, i: nat)
    requires 0 < i <= |ds| && cs != []
    ensures MergeItems(m, ds[..i], cs) == [MergeItem(m, ds[0], cs[0])] + MergeItems(m, ds[1..][..i - 1], cs[1..])
  {
    assert ds[..i][1..] == ds[1..][..i - 1] && ds[..i][0] == ds[0];
  }

  lemma {:induction false} DefinedItem(m: Policy, ds: seq<Json>, cs: seq<Json>, i: nat)
    requires MergeItemsDefined(m, ds, cs) && i < |ds| && i < |cs|
    ensures ds[i].Obj? && ds[i].fields != map[] ==> cs[i].Obj? && MergeObjDefined(m, ds[i], cs[i])
    decreases i
  {
    if i > 0 {
      DefinedItem(m, ds[1..], cs[1..], i - 1);
    }
  }

  /** The scaling of a map when the keys in `todo` are still to be visited. */
  ghost function ShrunkExcept(q: Quantities, e: Extreme, d: Json, c: Json, todo: set<string>): Fields
    requires d.Obj? && c.Obj?
  {
    map k | k in d.fields.Keys + ((set k | k in c.fields && c.fields[k].Scalar() && c.fields[k] != Null) - todo) ::
      if k in d.fields then ShrinkValue(q, e, d.fields[k], if k in todo then Null else Get(c.fields, k))
        else c.fields[k]
  }

  lemma VisitScaled(q: Quantities, e: Extreme, d: Json, c: Json, todo: set<string>, k: string)
    requires d.Obj? && c.Obj? && k in todo && todo <= c.fields.Keys
    ensures var before, after := ShrunkExcept(q, e, d, c, todo), ShrunkExcept(q, e, d, c, todo - {k});
            var v := ShrinkValue(q, e, Get(d.fields, k), c.fields[k]);
            && Get(before, k) == Get(d.fields, k)
            && after == if v == Get(d.fields, k) then before else before[k := v]
  {
    var before, after := ShrunkExcept(q, e, d, c, todo), ShrunkExcept(q, e, d, c, todo - {k});
    var v := ShrinkValue(q, e, Get(d.fields, k), c.fields[k]);
    if v == Get(d.fields, k) {
      assert after.Keys == before.Keys;
      assert after == before;
    } else {
      var updated := before[k := v];
      assert after.Keys == updated.Keys;
      assert after == updated;
    }
  }

  lemma UpdateRest(first: Json, rest: seq<Json>, i: nat, x: Json)
    requires i < |rest|
    ensures ([first] + rest)[i + 1 := x] == [first] + rest[i := x]
  {
  }

  /** Position `i` of the user's list is visited. */
  lemma {:induction false} ScaleItem(q: Quantities, e: Extreme, ds: seq<Json>, cs: seq<Json>, i: nat)
    requires i < |cs|
    ensures var before, after := ShrinkItems(q, e, ds, cs[..i]), ShrinkItems(q, e, ds, cs[..i + 1]);
            if i < |ds| then
              && before[i] == ds[i]
              && after == before[i := if ds[i].Obj? && cs[i].Obj? then ShrinkObj(q, e, ds[i], cs[i]) else ds[i]]
            else after == before
    decreases i
  {
    if i > 0 && ds != [] {
      assert cs[..i][1..] == cs[1..][..i - 1] && cs[..i + 1][1..] == cs[1..][..i];
      ScaleItem(q, e, ds[1..], cs[1..], i - 1);
      assert cs[1..][i - 1] == cs[i] && (i < |ds| ==> ds[1..][i - 1] == ds[i]);
      if i < |ds| {
        var first := ShrinkItems(q, e, ds, cs[..i])[0];
        UpdateRest(first, ShrinkItems(q, e, ds[1..], cs[1..][..i - 1]), i - 1,
                   if ds[i].Obj? && cs[i].Obj? then ShrinkObj(q, e, ds[i], cs[i]) else ds[i]);
      }
    } else if ds != [] {
      assert cs[..0] == [] && cs[..1] == [cs[0]];
      assert [cs[0]][1..] == [];
      assert ShrinkItems(q, e, ds[1..], []) == ds[1..];
    }
  }

  lemma {:induction false} DefinedScale(ds: seq<Json>, cs: seq<Json>, i: nat)
    requires ShrinkItemsDefined(ds, cs) && i < |cs|
    ensures cs[i].Obj? && (cs[i].fields != map[] ==> i < |ds|)
    ensures i < |ds| && ds[i].Obj? ==> ShrinkObjDefined(ds[i], cs[i])
    decreases i
  {
    if i > 0 && ds != [] {
      DefinedScale(ds[1..], cs[1..], i - 1);
    }
  }

  lemma ScaleByEmpty(q: Quantities, e: Extreme, d: Json, c: Json)
    requires d.Obj? && c == Obj(map[])
    ensures ShrinkObj(q, e, d, c) == d
  {
    forall k | k in d.fields ensures Get(ShrinkObj(q, e, d, c).fields, k) == Get(d.fields, k) {
      assert ShrinkValue(q, e, d.fields[k], Null) == d.fields[k];
    }
    SameFields(ShrinkObj(q, e, d, c).fields, d.fields);
  }

  /** What a value holds after the rule filter went through it. */
  function Filtered(changed: Json, rules: Json): Json {
    if changed.Obj? && rules.Obj? then
      Obj(map k | k in changed.fields :: Filtered(changed.fields[k], Get(rules.fields, k)))
    else changed
  }

  /** The rule filter filters nothing, whatever the rules say. */
  lemma {:induction false} FilterKeepsEverything(changed: Json, rules: Json)
    ensures Filtered(changed, rules) == changed
  {
    if changed.Obj? && rules.Obj? {
      forall k | k in changed.fields ensures Get(Filtered(changed, rules).fields, k) == Get(changed.fields, k) {
        FilterKeepsEverything(changed.fields[k], Get(rules.fields, k));
      }
      SameFields(Filtered(changed, rules).fields, changed.fields);
    }
  }

  /** A map that the merges update in place. */
  class ConfigMap {
    var fields: Fields

    constructor (f: Fields)
      ensures fields == f
    {
      fields := f;
    }

    /** Merges the default of one key. The value to merge it under is the one this map holds. */
    method MergeChangedMap(q: Quantities, key: string, d: Json, changed: Json)
      requires Get(fields, key) == changed
      requires MergeDefined(LargestWins(q), key, d, changed)
      modifies this
      ensures fields == if d == changed then old(fields)
                        else old(fields)[key := MergeValue(LargestWins(q), key, d, changed)]
      decreases d, 1
    {
      assert !changed.Null? ==> fields == fields[key := changed];
      if d != changed {
        if d.Obj? {
          if changed.Null? {
            fields := fields[key := d];
          } else if changed.Obj? {
            var target := new ConfigMap(changed.fields);
            target.MergeKeys(q, d);
            // keys that only the changed map has
            var onlyChanged := changed.fields.Keys - d.fields.Keys;
            while onlyChanged != {}
              invariant onlyChanged <= changed.fields.Keys - d.fields.Keys
              invariant target.fields == MergeObj(LargestWins(q), d, changed).fields
              invariant fields == old(fields)
            {
              var k :| k in onlyChanged;
              target.fields := target.fields[k := changed.fields[k]];
              onlyChanged := onlyChanged - {k};
            }
            fields := fields[key := Obj(target.fields)];
          }
        } else if d.List? {
          var ds := d.items;
          if changed.Null? {
            fields := fields[key := d];
          } else if changed.List? {
            var final := changed.items;
            for i := 0 to |ds|
              invariant final == MergeItems(LargestWins(q), ds[..i], changed.items)
              invariant fields == old(fields)
            {
              VisitItem(LargestWins(q), ds, changed.items, i);
              if ds[i].Obj? {
                if |changed.items| <= i {
                  final := final + [ds[i]];
                } else if ds[i].fields != map[] {
                  DefinedItem(LargestWins(q), ds, changed.items, i);
                  var target := new ConfigMap(final[i].fields);
                  target.MergeKeys(q, ds[i]);
                  final := final[i := Obj(target.fields)];
                } else if changed.items[i].Obj? {
                  MergeEmpty(LargestWins(q), ds[i], changed.items[i]);
                }
              }
            }
            assert ds[..|ds|] == ds;
            fields := fields[key := List(final)];
          }
        } else {
          if changed.Null? {
            fields := fields[key := d];
          } else if key in COMPARABLE_KEYS {
            fields := fields[key := Larger(q, d, changed)];
          } else if changed != Str("") && changed != Bool(false) {
            fields := fields[key := changed];
          }
        }
      }
    }

    /** One pass over the keys of a default map. */
    method MergeKeys(q: Quantities, d: Json)
      requires d.Obj? && MergeObjDefined(LargestWins(q), d, Obj(fields))
      modifies this
      ensures fields == MergeObj(LargestWins(q), d, Obj(old(fields))).fields
      decreases d, 0
    {
      ghost var m := LargestWins(q);
      ghost var c := Obj(fields);
      var todo := d.fields.Keys;
      assert MergedExcept(m, d, c, todo) == fields;
      while todo != {}
        invariant todo <= d.fields.Keys
        invariant fields == MergedExcept(m, d, c, todo)
      {
        var k :| k in todo;
        VisitKey(m, d, c, todo, k);
        MergeChangedMap(q, k, d.fields[k], Get(fields, k));
        todo := todo - {k};
      }
      assert MergedExcept(m, d, c, {}) == MergeObj(m, d, c).fields;
    }

    /** The deep merge of one key: the change wins, the default fills its gaps. */
    method DeepMergeTwoMaps(key: string, d: Json, changed: Json)
      requires Get(fields, key) == changed
      requires MergeDefined(UserWins, key, d, changed)
      modifies this
      ensures fields == old(fields)[key := MergeValue(UserWins, key, d, changed)]
      decreases d, 1
    {
      assert !changed.Null? ==> fields == fields[key := changed];
      if d.Obj? {
        if changed.Null? {
          fields := fields[key := d];
        } else if changed.Obj? {
          DefinedSame(UserWins, d);
          var target := new ConfigMap(changed.fields);
          target.DeepMergeKeys(d);
          fields := fields[key := Obj(target.fields)];
        }
      } else if d.List? {
        var ds := d.items;
        if changed.Null? {
          fields := fields[key := d];
        } else if changed.List? {
          DefinedSame(UserWins, d);
          var final := changed.items;
          for i := 0 to |ds|
            invariant final == MergeItems(UserWins, ds[..i], changed.items)
            invariant fields == old(fields)
          {
            VisitItem(UserWins, ds, changed.items, i);
            if ds[i].Obj? {
              if |changed.items| <= i {
                final := final + [ds[i]];
              } else if ds[i].fields != map[] {
                DefinedItem(UserWins, ds, changed.items, i);
                var target := new ConfigMap(final[i].fields);
                target.DeepMergeKeys(ds[i]);
                final := final[i := Obj(target.fields)];
              } else if changed.items[i].Obj? {
                MergeEmpty(UserWins, ds[i], changed.items[i]);
              }
            }
          }
          assert ds[..|ds|] == ds;
          fields := fields[key := List(final)];
        }
      } else {
        if changed.Null? {
          fields := fields[key := d];
        }
      }
    }

    method DeepMergeKeys(d: Json)
      requires d.Obj? && MergeObjDefined(UserWins, d, Obj(fields))
      modifies this
      ensures fields == MergeObj(UserWins, d, Obj(old(fields))).fields
      decreases d, 0
    {
      ghost var c := Obj(fields);
      var todo := d.fields.Keys;
      assert MergedExcept(UserWins, d, c, todo) == fields;
      while todo != {}
        invariant todo <= d.fields.Keys
        invariant fields == MergedExcept(UserWins, d, c, todo)
      {
        var k :| k in todo;
        VisitKey(UserWins, d, c, todo, k);
        DeepMergeTwoMaps(k, d.fields[k], Get(fields, k));
        todo := todo - {k};
      }
      assert MergedExcept(UserWins, d, c, {}) == MergeObj(UserWins, d, c).fields;
    }

    /** Filters one key of this map by the rules, as the merge does first. */
    method FilterChangedMapWithRules(key: string, changed: Json, rules: Json)
      requires key in fields && fields[key] == changed
      modifies this
      ensures fields == old(fields)[key := Filtered(changed, rules)]
      decreases changed
    {
      assert fields == fields[key := changed];
      if changed.Obj? && rules.Obj? {
        var target := new ConfigMap(changed.fields);
        var todo := changed.fields.Keys;
        while todo != {}
          invariant todo <= changed.fields.Keys == target.fields.Keys
          invariant fields == old(fields)
          invariant forall k | k in target.fields ::
            target.fields[k] == if k in todo then changed.fields[k]
              else Filtered(changed.fields[k], Get(rules.fields, k))
        {
          var k :| k in todo;
          target.FilterChangedMapWithRules(k, changed.fields[k], Get(rules.fields, k));
          todo := todo - {k};
        }
        SameFields(target.fields, Filtered(changed, rules).fields);
        fields := fields[key := Obj(target.fields)];
      }
    }

    /** Scales the maps of a list, position by position. */
    static method ScaleLists(q: Quantities, e: Extreme, d: Json, changed: Json) returns (final: seq<Json>)
      requires d.List? && changed.List? && ShrinkItemsDefined(d.items, changed.items)
      ensures final == ShrinkItems(q, e, d.items, changed.items)
      decreases changed, 0
    {
      var cs := changed.items;
      final := d.items;
      for i := 0 to |cs|
        invariant final == ShrinkItems(q, e, d.items, cs[..i])
      {
        ScaleItem(q, e, d.items, cs, i);
        DefinedScale(d.items, cs, i);
        if cs[i].fields != map[] {
          if d.items[i].Obj? {
            var target := new ConfigMap(final[i].fields);
            target.ScaleKeys(q, e, d.items[i], cs[i]);
            final := final[i := Obj(target.fields)];
          }
        } else if i < |d.items| && d.items[i].Obj? {
          ScaleByEmpty(q, e, d.items[i], cs[i]);
        }
      }
      assert cs[..|cs|] == cs;
    }

    /** Scales one key. This map starts as a copy of the template. */
    method MergeChangedMapWithExtremeSize(q: Quantities, e: Extreme, key: string, d: Json, changed: Json)
      requires Get(fields, key) == d
      requires ShrinkDefined(d, changed)
      modifies this
      ensures var v := ShrinkValue(q, e, d, changed);
              fields == if v == d then old(fields) else old(fields)[key := v]
      decreases changed, 1
    {
      ShrinkSame(q, e, d);
      assert key in fields ==> fields == fields[key := d];
      if d != changed {
        if changed.Obj? {
          if d.Obj? {
            var target := new ConfigMap(d.fields);
            target.ScaleKeys(q, e, d, changed);
            fields := fields[key := Obj(target.fields)];
          }
        } else if changed.List? {
          if d.List? {
            var final := ScaleLists(q, e, d, changed);
            fields := fields[key := List(final)];
          }
        } else {
          if !changed.Null? && !d.Null? {
            if e.Max? {
              fields := fields[key := Larger(q, d, changed)];
            } else {
              fields := fields[key := Smaller(q, d, changed)];
            }
          } else if !changed.Null? && d.Null? {
            fields := fields[key := changed];
          }
        }
      }
    }

    method ScaleKeys(q: Quantities, e: Extreme, d: Json, changed: Json)
      requires d.Obj? && changed.Obj? && d.fields == fields && ShrinkObjDefined(d, changed)
      modifies this
      ensures fields == ShrinkObj(q, e, d, changed).fields
      decreases changed, 0
    {
      var todo := changed.fields.Keys;
      assert ShrunkExcept(q, e, d, changed, todo) == fields;
      while todo != {}
        invariant todo <= changed.fields.Keys
        invariant fields == ShrunkExcept(q, e, d, changed, todo)
      {
        var k :| k in todo;
        VisitScaled(q, e, d, changed, todo, k);
        MergeChangedMapWithExtremeSize(q, e, k, Get(d.fields, k), changed.fields[k]);
        todo := todo - {k};
      }
      assert ShrunkExcept(q, e, d, changed, {}) == ShrinkObj(q, e, d, changed).fields;
    }

    /** Deletes the covered sizes of this map. */
    method ResetChangedMap(ghost t: Json, rules: Fields)
      requires t == Obj(fields)
      modifies this
      ensures Obj(fields) == Reset(t, rules)
      decreases t
    {
      var todo := fields.Keys;
      while todo != {}
        invariant todo <= t.fields.Keys
        invariant fields.Keys == set k | k in t.fields && (k in todo || !Deletes(k, t.fields[k], Get(rules, k)))
        invariant forall k | k in fields ::
          fields[k] == if k !in todo && t.fields[k].Obj? && Get(rules, k).Obj? then Reset(t.fields[k], rules[k].fields)
            else t.fields[k]
      {
        var k :| k in todo;
        var rule := Get(rules, k);
        if !rule.Null? {
          if fields[k].Obj? {
            if rule.Obj? {
              var target := new ConfigMap(fields[k].fields);
              target.ResetChangedMap(t.fields[k], rule.fields);
              fields := fields[k := Obj(target.fields)];
            }
          } else if k in RESET_KEYS {
            fields := fields - {k};
          }
        }
        todo := todo - {k};
      }
      SameFields(fields, Reset(t, rules).fields);
    }
  }

  /** Merges a CommonService CR into the configuration under the service's rules: first the filter,
      then every key of the default. The rules have no influence on the result. */
  method MergeCRsIntoOperandConfig(q: Quantities, defaultMap: Fields, changedMap: Fields, rules: Fields)
    returns (merged: Fields)
    requires MergeObjDefined(LargestWins(q), Obj(defaultMap), Obj(changedMap))
    ensures merged == Merge(LargestWins(q), defaultMap, changedMap)
  {
    var final := new ConfigMap(changedMap);
    var todo := changedMap.Keys;
    while todo != {}
      invariant todo <= changedMap.Keys
      invariant final.fields == changedMap
    {
      var k :| k in todo;
      final.FilterChangedMapWithRules(k, changedMap[k], Get(rules, k));
      FilterKeepsEverything(changedMap[k], Get(rules, k));
      todo := todo - {k};
    }
    final.MergeKeys(q, Obj(defaultMap));
    RootMerge(LargestWins(q), defaultMap, changedMap);
    merged := final.fields;
  }

  /** The same merge for resources, without rules. */
  method MergeCRsIntoOperandConfigWithDefaultRules(q: Quantities, defaultMap: Fields, changedMap: Fields)
    returns (merged: Fields)
    requires MergeObjDefined(LargestWins(q), Obj(defaultMap), Obj(changedMap))
    ensures merged == Merge(LargestWins(q), defaultMap, changedMap)
  {
    var final := new ConfigMap(changedMap);
    final.MergeKeys(q, Obj(defaultMap));
    RootMerge(LargestWins(q), defaultMap, changedMap);
    merged := final.fields;
  }

  /** The deep merge of two configurations. Only the root skips values that are equal already. */
  method MergeSizeProfile(defaultMap: Fields, changedMap: Fields) returns (merged: Fields)
    requires MergeObjDefined(UserWins, Obj(defaultMap), Obj(changedMap))
    ensures merged == Merge(UserWins, defaultMap, changedMap)
  {
    var final := new ConfigMap(changedMap);
    var todo := defaultMap.Keys;
    while todo != {}
      invariant todo <= defaultMap.Keys
      invariant final.fields.Keys == changedMap.Keys + (SetKeys(defaultMap) - todo)
      invariant forall k | k in final.fields ::
        final.fields[k] == if k in defaultMap && k !in todo
          then MergeValue(UserWins, k, defaultMap[k], Get(changedMap, k)) else changedMap[k]
    {
      var k :| k in todo;
      if defaultMap[k] == Get(changedMap, k) {
        MergeSame(UserWins, k, defaultMap[k]);
      } else {
        final.DeepMergeTwoMaps(k, defaultMap[k], Get(final.fields, k));
      }
      todo := todo - {k};
    }
    merged := final.fields;
    SameFields(merged, Merge(UserWins, defaultMap, changedMap));
  }

  /** Adds the keys that only the user's map has. */
  method AddOnlyChanged(scaled: Fields, changedMap: Fields) returns (result: Fields)
    ensures result.Keys == scaled.Keys + changedMap.Keys
    ensures forall k | k in result :: result[k] == if k in scaled then scaled[k] else changedMap[k]
  {
    result := scaled;
    var onlyChanged := changedMap.Keys - scaled.Keys;
    while onlyChanged != {}
      invariant onlyChanged <= changedMap.Keys - scaled.Keys
      invariant result.Keys == scaled.Keys + (changedMap.Keys - scaled.Keys - onlyChanged)
      invariant forall k | k in result :: result[k] == if k in scaled then scaled[k] else changedMap[k]
    {
      var k :| k in onlyChanged;
      result := result[k := changedMap[k]];
      onlyChanged := onlyChanged - {k};
    }
  }

  /** Scales a template configuration towards the extreme. */
  method ShrinkSize(q: Quantities, e: Extreme, defaultMap: Fields, changedMap: Fields) returns (result: Fields)
    requires ShrinkObjDefined(Obj(defaultMap), Obj(changedMap))
    ensures result == Shrink(q, e, defaultMap, changedMap)
  {
    var final := new ConfigMap(defaultMap);
    var todo := defaultMap.Keys;
    while todo != {}
      invariant todo <= defaultMap.Keys == final.fields.Keys
      invariant forall k | k in defaultMap ::
        final.fields[k] == if k in todo then defaultMap[k] else ShrinkValue(q, e, defaultMap[k], Get(changedMap, k))
    {
      var k :| k in todo;
      ShrinkSame(q, e, defaultMap[k]);
      if defaultMap[k] != Get(changedMap, k) {
        final.MergeChangedMapWithExtremeSize(q, e, k, defaultMap[k], Get(changedMap, k));
      }
      todo := todo - {k};
    }
    result := AddOnlyChanged(final.fields, changedMap);
    SameFields(result, Shrink(q, e, defaultMap, changedMap));
  }

  /** Clears the covered sizes of one CR. */
  method ResetResourceInTemplate(changedMap: Fields, rules: Fields) returns (r: Fields)
    ensures Obj(r) == Reset(Obj(changedMap), rules)
  {
    var final := new ConfigMap(changedMap);
    final.ResetChangedMap(Obj(changedMap), rules);
    r := final.fields;
  }

  lemma MergeEmpty(m: Policy, d: Json, c: Json)
    requires d == Obj(map[]) && c.Obj?
    ensures MergeObj(m, d, c) == c
  {
    SameFields(MergeObj(m, d, c).fields, c.fields);
  }

  lemma {:induction false} DefinedSame(m: Policy, t: Json)
    ensures t.Obj? ==> MergeObjDefined(m, t, t)
    ensures t.List? ==> MergeItemsDefined(m, t.items, t.items)
  {
    if t.List? {
      DefinedSameItems(m, t.items);
    }
  }

  lemma {:induction false} DefinedSameItems(m: Policy, items: seq<Json>)
    ensures MergeItemsDefined(m, items, items)
  {
    if items != [] {
      DefinedSameItems(m, items[1..]);
    }
  }
}
