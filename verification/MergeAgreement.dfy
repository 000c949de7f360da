/** Where the two merges agree. */
module MergeAgreement {
  import opened Trees
  import opened ResourceComparison
  import opened Merging

  /** No leaf that both trees set sits at a key whose values are compared. */
  predicate Uncompared(key: string, d: Json, c: Json)
    decreases d, 1
  {
    d.Null? || c.Null? ||
    match d
    case Obj(f) => c.Obj? ==> forall k | k in f && k in c.fields :: Uncompared(k, f[k], c.fields[k])
    case List(items) => c.List? ==> UncomparedItems(items, c.items)
    case _ => key !in COMPARABLE_KEYS
  }

  predicate UncomparedItems(ds: seq<Json>, cs: seq<Json>)
    decreases ds
  {
    ds == [] || cs == [] || ((ds[0].Obj? && cs[0].Obj? ==> Uncompared("", ds[0], cs[0])) &&
                             UncomparedItems(ds[1..], cs[1..]))
  }

  lemma {:induction false} ValuesAgree(q: Quantities, key: string, d: Json, c: Json)
    requires Uncompared(key, d, c)
    ensures Strip(MergeValue(LargestWins(q), key, d, c)) == Strip(MergeValue(UserWins, key, d, c))
    decreases d, 1
  {
    if d.Null? {
      LargerSelects(q, d, c);
    } else if d.Obj? && c.Obj? {
      ObjectsAgree(q, d, c);
    } else if d.List? && c.List? {
      ItemsAgree(q, d.items, c.items);
    }
  }

  lemma {:induction false} ObjectsAgree(q: Quantities, d: Json, c: Json)
    requires d.Obj? && c.Obj? && forall k | k in d.fields && k in c.fields :: Uncompared(k, d.fields[k], c.fields[k])
    ensures Strip(MergeObj(LargestWins(q), d, c)) == Strip(MergeObj(UserWins, d, c))
    decreases d, 0
  {
    var l, u := MergeObj(LargestWins(q), d, c).fields, MergeObj(UserWins, d, c).fields;
    forall k: string
      ensures Strip(Get(l, k)) == Strip(Get(u, k))
    {
      GetMerged(LargestWins(q), d, c, k);
      GetMerged(UserWins, d, c, k);
      if k in d.fields {
        ValuesAgree(q, k, d.fields[k], Get(c.fields, k));
      }
    }
    StripByKey(l, u);
  }

  lemma StripByKey(a: Fields, b: Fields)
    requires forall k: string :: Strip(Get(a, k)) == Strip(Get(b, k))
    ensures Strip(Obj(a)) == Strip(Obj(b))
  {
    var sa, sb := Strip(Obj(a)).fields, Strip(Obj(b)).fields;
    assert forall t: Json :: Strip(t).Null? <==> t.Null?;
    forall k: string
      ensures k in sa <==> k in sb
      ensures Get(sa, k) == Get(sb, k)
    {
      assert Strip(Get(a, k)) == Strip(Get(b, k));
      assert Get(sa, k) == Strip(Get(a, k)) && Get(sb, k) == Strip(Get(b, k));
    }
    assert sa.Keys == sb.Keys;
    SameFields(sa, sb);
  }

  lemma {:induction false} ItemsAgree(q: Quantities, ds: seq<Json>, cs: seq<Json>)
    requires UncomparedItems(ds, cs)
    ensures StripAll(MergeItems(LargestWins(q), ds, cs)) == StripAll(MergeItems(UserWins, ds, cs))
    decreases ds
  {
    if ds != [] && cs != [] {
      if ds[0].Obj? && cs[0].Obj? {
        ObjectsAgree(q, ds[0], cs[0]);
      }
      ItemsAgree(q, ds[1..], cs[1..]);
    }
  }

  /** On any two configurations that share no compared leaf the merge with rules and the deep
      merge give the same configuration, null entries aside. */
  lemma MergesAgree(q: Quantities, d: Fields, c: Fields)
    requires Uncompared("", Obj(d), Obj(c))
    ensures Strip(Obj(Merge(LargestWins(q), d, c))) == Strip(Obj(Merge(UserWins, d, c)))
  {
    var l, u := Merge(LargestWins(q), d, c), Merge(UserWins, d, c);
    forall k: string
      ensures Strip(Get(l, k)) == Strip(Get(u, k))
    {
      GetMerge(LargestWins(q), d, c, k);
      GetMerge(UserWins, d, c, k);
      if k in d {
        ValuesAgree(q, k, d[k], Get(c, k));
      }
    }
    StripByKey(l, u);
  }

  /** No map of the tree has a null entry. */
  predicate NullFree(t: Json) {
    match t
    case Obj(f) => forall k | k in f :: f[k] != Null && NullFree(f[k])
    case List(items) => forall i | 0 <= i < |items| :: NullFree(items[i])
    case _ => true
  }

  lemma {:induction false} StripNullFree(t: Json)
    requires NullFree(t)
    ensures Strip(t) == t
  {
    if t.Obj? {
      forall k | k in t.fields ensures Strip(t.fields[k]) == t.fields[k] {
        StripNullFree(t.fields[k]);
      }
      SameFields(Strip(t).fields, t.fields);
    } else if t.List? {
      forall i | 0 <= i < |t.items| ensures Strip(t.items[i]) == t.items[i] {
        StripNullFree(t.items[i]);
      }
    }
  }

  lemma {:induction false} MergeNullFree(m: Policy, key: string, d: Json, c: Json)
    requires NullFree(d) && NullFree(c)
    ensures NullFree(MergeValue(m, key, d, c))
    ensures !d.Null? ==> !MergeValue(m, key, d, c).Null?
    decreases d, 1
  {
    if d.Obj? && c.Obj? {
      var r := MergeObj(m, d, c);
      forall k | k in r.fields ensures r.fields[k] != Null && NullFree(r.fields[k]) {
        GetMerged(m, d, c, k);
        if k in d.fields { MergeNullFree(m, k, d.fields[k], Get(c.fields, k)); }
      }
    } else if d.List? && c.List? {
      MergeItemsNullFree(m, d.items, c.items);
    } else if Compares(m, key) {
      LargerSelects(m.q, d, c);
    }
  }

  lemma {:induction false} MergeItemsNullFree(m: Policy, ds: seq<Json>, cs: seq<Json>)
    requires (forall i | 0 <= i < |ds| :: NullFree(ds[i])) && forall i | 0 <= i < |cs| :: NullFree(cs[i])
    ensures forall i | 0 <= i < |MergeItems(m, ds, cs)| :: NullFree(MergeItems(m, ds, cs)[i])
    decreases ds
  {
    if ds != [] && cs == [] {
      MapsOfNullFree(ds);
    } else if ds != [] {
      MergeNullFree(m, "", ds[0], cs[0]);
      MergeItemsNullFree(m, ds[1..], cs[1..]);
    }
  }

  lemma {:induction false} MapsOfNullFree(items: seq<Json>)
    requires forall i | 0 <= i < |items| :: NullFree(items[i])
    ensures forall i | 0 <= i < |MapsOf(items)| :: NullFree(MapsOf(items)[i])
  {
    if items != [] {
      MapsOfNullFree(items[1..]);
    }
  }

  /** On null-free configurations the two merges are equal outright. */
  lemma NullFreeMergesAgree(q: Quantities, d: Fields, c: Fields)
    requires Uncompared("", Obj(d), Obj(c)) && NullFree(Obj(d)) && NullFree(Obj(c))
    ensures Merge(LargestWins(q), d, c) == Merge(UserWins, d, c)
  {
    MergesAgree(q, d, c);
    RootNullFree(LargestWins(q), d, c);
    RootNullFree(UserWins, d, c);
    StripNullFree(Obj(Merge(LargestWins(q), d, c)));
    StripNullFree(Obj(Merge(UserWins, d, c)));
  }

  lemma RootNullFree(m: Policy, d: Fields, c: Fields)
    requires NullFree(Obj(d)) && NullFree(Obj(c))
    ensures NullFree(Obj(Merge(m, d, c)))
  {
    var r := Merge(m, d, c);
    forall k | k in r ensures r[k] != Null && NullFree(r[k]) {
      GetMerge(m, d, c, k);
      if k in d { MergeNullFree(m, k, d[k], Get(c, k)); }
    }
  }
}
