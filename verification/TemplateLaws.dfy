/** What a filled size template holds: the CR's settings where it has some, the template's elsewhere. */
module TemplateLaws {
  import opened Sequences
  import opened Trees
  import opened ResourceComparison
  import opened Merging
  import opened Paths
  import opened Shrinking
  import opened Resources
  import opened Services
  import opened SizeTemplates
  import opened Wrappers

  /** At the path `r` holds what the user's `u` sets, or what the template's `t` holds where the user leaves the path
      open. */
  ghost predicate FilledAt(t: Json, u: Json, r: Json, p: seq<Step>) {
    (IsSet(Find(u, p)) ==> Find(r, p) == Find(u, p)) && (LeftOpen(t, u, p) ==> Find(r, p) == Find(t, p))
  }

  lemma ConfigurationFilled(q: Quantities, mode: Mode, t: Fields, u: Fields, p: seq<Step>)
    ensures FilledAt(Obj(t), Obj(u), Obj(Filled(q, mode, t, u)), p)
  {
    SpecsReadAlike(q, t, u);
    if p != [] {
      FindNull(p[1..]);
      if IsSet(Find(Obj(u), p)) {
        UserSettingWins(q, Max, t, u, p);
      }
      if LeftOpen(Obj(t), Obj(u), p) {
        DefaultFillsGap(UserWins, t, u, p);
      }
    }
  }

  lemma SpecFilled(q: Quantities, mode: Mode, t: Fields, u: Fields, p: seq<Step>)
    ensures FilledAt(Obj(t), Obj(u), Obj(FilledSpec(q, mode, t, u)), p)
  {
    ConfigurationFilled(q, mode, t, u, p);
    if p != [] {
      FindNull(p[1..]);
      assert forall k :: Get(FilledSpec(q, mode, t, u), k) == Get(Filled(q, mode, t, u), k);
    }
  }

  /** One resource of the template: it is filled from its partner, or it stays as it is. */
  lemma ResourceFilled(q: Quantities, mode: Mode, t: Json, us: seq<Json>, opconNs: string, p: seq<Step>)
    ensures var r, s := FillResource(q, mode, t, us, opconNs).0, FirstSame(us, t, opconNs);
            if Named(t) && s.Obj? then FilledAt(t, s, r, p) else r == t
  {
    var i := IndexOfSame(us, t, opconNs);
    if Named(t) && i < |us| {
      ConfigurationFilled(q, mode, t.fields, us[i].fields, p);
    }
  }

  /** A text that template and user share is kept. */
  lemma TextStays(q: Quantities, mode: Mode, t: Json, u: Json, k: string)
    requires t.Obj? && u.Obj? && StringField(t, k) == StringField(u, k) != ""
    ensures StringField(Obj(Filled(q, mode, t.fields, u.fields)), k) == StringField(t, k)
  {
    SpecsReadAlike(q, t.fields, u.fields);
    GetMerge(UserWins, t.fields, u.fields, k);
  }

  /** The namespace a stored resource is looked up by. */
  function LookupNs(s: Json, k: string, opconNs: string): string
    requires s.Obj?
  {
    if k in s.fields then StringField(s, k) else opconNs
  }

  /** A common namespace is kept as well, unless the template writes the OperandConfig's own as an empty text. */
  lemma NamespaceStays(q: Quantities, mode: Mode, t: Json, u: Json, k: string, opconNs: string)
    requires t.Obj? && u.Obj?
    requires LookupNs(u, k, opconNs) == if StringField(t, k) == "" then opconNs else StringField(t, k)
    ensures var ns := LookupNs(Obj(Filled(q, mode, t.fields, u.fields)), k, opconNs);
            ns == LookupNs(u, k, opconNs) || (ns == "" && opconNs != "")
  {
    SpecsReadAlike(q, t.fields, u.fields);
    GetMerge(UserWins, t.fields, u.fields, k);
  }

  /** A resource that was filled is not taken for one of another identity afterwards, nor was it before. */
  lemma OtherResource(q: Quantities, mode: Mode, t: Json, u: Json, opconNs: string, t': Json)
    requires Named(t) && IsSame(u, t, opconNs) && IdentityOf(t', opconNs) != IdentityOf(t, opconNs)
    ensures !IsSame(u, t', opconNs) && !IsSame(Obj(Filled(q, mode, t.fields, u.fields)), t', opconNs)
  {
    TextStays(q, mode, t, u, "apiVersion");
    TextStays(q, mode, t, u, "kind");
    TextStays(q, mode, t, u, "name");
    NamespaceStays(q, mode, t, u, "namespace", opconNs);
  }

  lemma IndexAround(us: seq<Json>, us': seq<Json>, t: Json, t': Json, opconNs: string)
    requires |us| == |us'| && forall i | 0 <= i < |us| :: IsSame(us[i], t, opconNs) <==> IsSame(us'[i], t', opconNs)
    ensures IndexOfSame(us, t, opconNs) == IndexOfSame(us', t', opconNs)
  {
    var i, i' := IndexOfSame(us, t, opconNs), IndexOfSame(us', t', opconNs);
    NoneSameBefore(us, t, opconNs);
    NoneSameBefore(us', t', opconNs);
    assert i < |us| ==> IsSame(us'[i], t', opconNs);
    assert i' < |us'| ==> IsSame(us[i'], t, opconNs);
  }

  /** Filling one resource leaves every other lookup of the CR's resources as it was. */
  lemma LookupStays(q: Quantities, mode: Mode, t: Json, us: seq<Json>, opconNs: string, t': Json, k: nat)
    requires IdentityOf(t', opconNs) != IdentityOf(t, opconNs) && k < |us|
    ensures var us' := FillResource(q, mode, t, us, opconNs).1;
            (IsSame(us[k], t', opconNs) <==> IsSame(us'[k], t', opconNs)) &&
            (IsSame(us[k], t', opconNs) ==> us'[k] == us[k])
  {
    var i := IndexOfSame(us, t, opconNs);
    if Named(t) && i == k {
      OtherResource(q, mode, t, us[i], opconNs, t');
    }
  }

  /** The partner of a resource is the same after one of another identity was filled. */
  lemma PartnerStays(q: Quantities, mode: Mode, t: Json, us: seq<Json>, opconNs: string, t': Json)
    requires IdentityOf(t', opconNs) != IdentityOf(t, opconNs)
    ensures var us', i := FillResource(q, mode, t, us, opconNs).1, IndexOfSame(us, t', opconNs);
            IndexOfSame(us', t', opconNs) == i && (i < |us| ==> us'[i] == us[i])
  {
    var us' := FillResource(q, mode, t, us, opconNs).1;
    forall k | 0 <= k < |us|
      ensures IsSame(us[k], t', opconNs) <==> IsSame(us'[k], t', opconNs)
      ensures IsSame(us[k], t', opconNs) ==> us'[k] == us[k]
    {
      LookupStays(q, mode, t, us, opconNs, t', k);
    }
    IndexAround(us, us', t', t', opconNs);
  }

  lemma FilledAlike(q: Quantities, mode: Mode, t: Json, us: seq<Json>, us': seq<Json>, opconNs: string)
    requires |us| == |us'|
    requires var i := IndexOfSame(us, t, opconNs); IndexOfSame(us', t, opconNs) == i && (i < |us| ==> us'[i] == us[i])
    ensures FillResource(q, mode, t, us, opconNs).0 == FillResource(q, mode, t, us', opconNs).0
  {
  }

  /** No earlier resource of the template has the identity of resource `j`. */
  ghost predicate FirstOfIdentity(ts: seq<Json>, opconNs: string, j: nat)
    requires j < |ts|
  {
    forall m | 0 <= m < j :: IdentityOf(ts[m], opconNs) != IdentityOf(ts[j], opconNs)
  }

  /** The CR's resources when the first resources of the template have been filled. */
  function UsersAfter(q: Quantities, mode: Mode, ts: seq<Json>, us: seq<Json>, opconNs: string): (r: seq<Json>)
    ensures |r| == |us|
  {
    FilledResources(q, mode, ts, us, opconNs).1
  }

  lemma {:induction false} FilledSplit(q: Quantities, mode: Mode, a: seq<Json>, b: seq<Json>, us: seq<Json>,
                                       opconNs: string)
    ensures FilledResources(q, mode, a + b, us, opconNs).0 ==
            FilledResources(q, mode, a, us, opconNs).0 +
            FilledResources(q, mode, b, UsersAfter(q, mode, a, us, opconNs), opconNs).0
    decreases |a|
  {
    if a == [] {
      assert a + b == b;
    } else {
      var (r, us') := FillResource(q, mode, a[0], us, opconNs);
      HeadOfConcat(a, b);
      FilledSplit(q, mode, a[1..], b, us', opconNs);
      Associate([r], FilledResources(q, mode, a[1..], us', opconNs).0,
                FilledResources(q, mode, b, UsersAfter(q, mode, a[1..], us', opconNs), opconNs).0);
    }
  }

  lemma FirstFilled(q: Quantities, mode: Mode, ts: seq<Json>, us: seq<Json>, opconNs: string)
    requires ts != []
    ensures FilledResources(q, mode, ts, us, opconNs).0[0] == FillResource(q, mode, ts[0], us, opconNs).0
  {
  }

  lemma FilledInTurn(q: Quantities, mode: Mode, ts: seq<Json>, us: seq<Json>, opconNs: string, j: nat)
    requires j < |ts|
    ensures FilledResources(q, mode, ts, us, opconNs).0[j] ==
            FillResource(q, mode, ts[j], UsersAfter(q, mode, ts[..j], us, opconNs), opconNs).0
  {
    assert ts == ts[..j] + ts[j..];
    FilledSplit(q, mode, ts[..j], ts[j..], us, opconNs);
    FirstFilled(q, mode, ts[j..], UsersAfter(q, mode, ts[..j], us, opconNs), opconNs);
  }

  lemma {:induction false} PartnerKept(q: Quantities, mode: Mode, ts: seq<Json>, us: seq<Json>, opconNs: string,
                                       t: Json)
    requires forall m | 0 <= m < |ts| :: IdentityOf(ts[m], opconNs) != IdentityOf(t, opconNs)
    ensures var us', i := UsersAfter(q, mode, ts, us, opconNs), IndexOfSame(us, t, opconNs);
            IndexOfSame(us', t, opconNs) == i && (i < |us| ==> us'[i] == us[i])
    decreases |ts|
  {
    if ts != [] {
      PartnerStays(q, mode, ts[0], us, opconNs, t);
      PartnerKept(q, mode, ts[1..], FillResource(q, mode, ts[0], us, opconNs).1, opconNs, t);
    }
  }

  /** The first resource of an identity is filled from the CR's resource as it was given. */
  lemma FirstIsFilled(q: Quantities, mode: Mode, ts: seq<Json>, us: seq<Json>, opconNs: string, j: nat)
    requires j < |ts| && FirstOfIdentity(ts, opconNs, j)
    ensures FilledResources(q, mode, ts, us, opconNs).0[j] == FillResource(q, mode, ts[j], us, opconNs).0
  {
    FilledInTurn(q, mode, ts, us, opconNs, j);
    PartnerKept(q, mode, ts[..j], us, opconNs, ts[j]);
    FilledAlike(q, mode, ts[j], us, UsersAfter(q, mode, ts[..j], us, opconNs), opconNs);
  }

  /** A resource that is not valid or has no partner stays as it is, whatever the template repeats. */
  lemma UnmatchedStays(q: Quantities, mode: Mode, ts: seq<Json>, us: seq<Json>, opconNs: string, j: nat)
    requires j < |ts| && (!Named(ts[j]) || IndexOfSame(us, ts[j], opconNs) == |us|)
    ensures FilledResources(q, mode, ts, us, opconNs).0[j] == ts[j]
  {
    FilledInTurn(q, mode, ts, us, opconNs, j);
    UnmatchedKept(q, mode, ts[..j], us, opconNs, ts[j]);
  }

  lemma {:induction false} UnmatchedKept(q: Quantities, mode: Mode, ts: seq<Json>, us: seq<Json>, opconNs: string,
                                         t: Json)
    requires !Named(t) || IndexOfSame(us, t, opconNs) == |us|
    ensures !Named(t) || IndexOfSame(UsersAfter(q, mode, ts, us, opconNs), t, opconNs) == |us|
    decreases |ts|
  {
    if ts != [] {
      StaysUnmatched(q, mode, ts[0], us, opconNs, t);
      UnmatchedKept(q, mode, ts[1..], FillResource(q, mode, ts[0], us, opconNs).1, opconNs, t);
    }
  }

  lemma StaysUnmatched(q: Quantities, mode: Mode, t: Json, us: seq<Json>, opconNs: string, t': Json)
    requires !Named(t') || IndexOfSame(us, t', opconNs) == |us|
    ensures !Named(t') || IndexOfSame(FillResource(q, mode, t, us, opconNs).1, t', opconNs) == |us|
  {
    if IdentityOf(t, opconNs) != IdentityOf(t', opconNs) {
      PartnerStays(q, mode, t, us, opconNs, t');
    } else {
      SameLookup(us, t, t', opconNs);
    }
  }

  lemma SameLookup(us: seq<Json>, t: Json, t': Json, opconNs: string)
    requires IdentityOf(t, opconNs) == IdentityOf(t', opconNs)
    ensures IndexOfSame(us, t, opconNs) == IndexOfSame(us, t', opconNs)
  {
    forall i | 0 <= i < |us| ensures IsSame(us[i], t, opconNs) <==> IsSame(us[i], t', opconNs) {
      SameByIdentity(us[i], t, t', opconNs);
    }
    IndexAround(us, us, t, t', opconNs);
  }

  lemma SameByIdentity(s: Json, t: Json, t': Json, opconNs: string)
    requires IdentityOf(t, opconNs) == IdentityOf(t', opconNs)
    ensures IsSame(s, t, opconNs) <==> IsSame(s, t', opconNs)
  {
  }

  lemma {:induction false} UsersSplit(q: Quantities, mode: Mode, a: seq<Json>, b: seq<Json>, us: seq<Json>,
                                      opconNs: string)
    ensures UsersAfter(q, mode, a + b, us, opconNs) ==
            UsersAfter(q, mode, b, UsersAfter(q, mode, a, us, opconNs), opconNs)
    decreases |a|
  {
    if a == [] {
      assert a + b == b;
    } else {
      HeadOfConcat(a, b);
      UsersSplit(q, mode, a[1..], b, FillResource(q, mode, a[0], us, opconNs).1, opconNs);
    }
  }

  /** A resource of the CR that none of the template's resources is matched with stays as it is. */
  lemma {:induction false} UserStays(q: Quantities, mode: Mode, ts: seq<Json>, us: seq<Json>, opconNs: string, i: nat)
    requires i < |us| && forall m | 0 <= m < |ts| :: !IsSame(us[i], ts[m], opconNs)
    ensures UsersAfter(q, mode, ts, us, opconNs)[i] == us[i]
    decreases |ts|
  {
    if ts != [] {
      UserStays(q, mode, ts[1..], FillResource(q, mode, ts[0], us, opconNs).1, opconNs, i);
    }
  }

  lemma PartnerHoldsResult(q: Quantities, mode: Mode, a: seq<Json>, t: Json, b: seq<Json>, us: seq<Json>,
                           opconNs: string)
    requires Named(t) && IndexOfSame(us, t, opconNs) < |us|
    requires forall m | 0 <= m < |a| :: IdentityOf(a[m], opconNs) != IdentityOf(t, opconNs)
    requires forall m | 0 <= m < |b| :: IdentityOf(b[m], opconNs) != IdentityOf(t, opconNs)
    ensures var (ts, users) := FilledResources(q, mode, a + ([t] + b), us, opconNs);
            users[IndexOfSame(us, t, opconNs)] == ts[|a|]
  {
    var i := IndexOfSame(us, t, opconNs);
    var before := UsersAfter(q, mode, a, us, opconNs);
    var (r, after) := FillResource(q, mode, t, before, opconNs);
    FilledInTurn(q, mode, a + ([t] + b), us, opconNs, |a|);
    assert (a + ([t] + b))[..|a|] == a;
    UsersSplit(q, mode, a, [t] + b, us, opconNs);
    PartnerKept(q, mode, a, us, opconNs, t);
    AfterFirst(q, mode, t, b, before, opconNs);
    forall m | 0 <= m < |b| ensures !IsSame(r, b[m], opconNs) {
      OtherResource(q, mode, t, us[i], opconNs, b[m]);
    }
    UserStays(q, mode, b, after, opconNs, i);
  }

  lemma AfterFirst(q: Quantities, mode: Mode, t: Json, b: seq<Json>, us: seq<Json>, opconNs: string)
    ensures UsersAfter(q, mode, [t] + b, us, opconNs) ==
            UsersAfter(q, mode, b, FillResource(q, mode, t, us, opconNs).1, opconNs)
  {
    assert ([t] + b)[1..] == b;
  }

  /** The CR's entry holds the result as well: once the entry is filled, a valid template resource that is the only one
      of its identity and its partner are the same. */
  lemma EntryHoldsResult(q: Quantities, mode: Mode, t: Service, u: Service, opconNs: string, j: nat)
    requires t.resources.Some? && u.resources.Some? && j < |t.resources.value| && Named(t.resources.value[j])
    requires var ts := t.resources.value;
             forall m | 0 <= m < |ts| && m != j :: IdentityOf(ts[m], opconNs) != IdentityOf(ts[j], opconNs)
    ensures var i := IndexOfSame(u.resources.value, t.resources.value[j], opconNs);
            var (filled, user) := FilledService(q, mode, t, u, opconNs);
            && filled.resources.Some? && |filled.resources.value| == |t.resources.value|
            && user.resources.Some? && |user.resources.value| == |u.resources.value|
            && (i < |u.resources.value| ==> user.resources.value[i] == filled.resources.value[j])
  {
    var ts, us := t.resources.value, u.resources.value;
    assert ts == ts[..j] + ([ts[j]] + ts[j + 1..]);
    if IndexOfSame(us, ts[j], opconNs) < |us| {
      PartnerHoldsResult(q, mode, ts[..j], ts[j], ts[j + 1..], us, opconNs);
    }
  }

  /** No earlier entry of the template has the name of entry `n`. */
  ghost predicate FirstOfName(sizes: seq<Service>, n: nat)
    requires n < |sizes|
  {
    forall m | 0 <= m < n :: sizes[m].name != sizes[n].name
  }

  /** Filling an entry leaves the CR's services their names and everything but their specs and resources. */
  lemma EntryStays(q: Quantities, mode: Mode, t: Service, users: seq<Service>, controllers: map<string, string>,
                   opconNs: string, name: string)
    ensures var users' := FilledEntry(q, mode, t, users, controllers, opconNs).users;
            && IndexOf(users', name) == IndexOf(users, name)
            && (name != t.name ==> FirstNamed(users', name) == FirstNamed(users, name))
            && (FirstNamed(users, name).Some? ==>
                  FirstNamed(users', name).value.extra == FirstNamed(users, name).value.extra)
  {
    SameIndex(users, FilledEntry(q, mode, t, users, controllers, opconNs).users, name);
  }

  /** What an entry of the template becomes does not depend on the controllers. */
  lemma ControllersApart(q: Quantities, mode: Mode, t: Service, users: seq<Service>, c: map<string, string>,
                         c': map<string, string>, opconNs: string)
    ensures FilledEntry(q, mode, t, users, c, opconNs).sizes == FilledEntry(q, mode, t, users, c', opconNs).sizes
    ensures FilledEntry(q, mode, t, users, c, opconNs).users == FilledEntry(q, mode, t, users, c', opconNs).users
  {
  }

  /** The entry as it is filled from the CR's entry `u` of its name, or as it is when there is none. */
  function FilledFrom(q: Quantities, mode: Mode, t: Service, u: Option<Service>, opconNs: string): Service {
    if u.Some? then FilledService(q, mode, t, u.value, opconNs).0 else t
  }

  lemma {:induction false} FirstEntryIsFilled(q: Quantities, mode: Mode, sizes: seq<Service>, users: seq<Service>,
                                              controllers: map<string, string>, opconNs: string, n: nat)
    requires n < |sizes| && FirstOfName(sizes, n)
    ensures var r := FilledTemplate(q, mode, sizes, users, controllers, opconNs);
            |r.sizes| == |sizes| &&
            r.sizes[n] == FilledFrom(q, mode, sizes[n], FirstNamed(users, sizes[n].name), opconNs)
    decreases |sizes|
  {
    var first := FilledEntry(q, mode, sizes[0], users, controllers, opconNs);
    if n > 0 {
      assert forall m | 0 <= m < n - 1 :: sizes[1..][m] == sizes[m + 1];
      EntryStays(q, mode, sizes[0], users, controllers, opconNs, sizes[n].name);
      FirstEntryIsFilled(q, mode, sizes[1..], first.users, first.controllers, opconNs, n - 1);
    } else {
      TemplateLength(q, mode, sizes[1..], first.users, first.controllers, opconNs);
    }
  }

  lemma {:induction false} TemplateLength(q: Quantities, mode: Mode, sizes: seq<Service>, users: seq<Service>,
                                          controllers: map<string, string>, opconNs: string)
    ensures |FilledTemplate(q, mode, sizes, users, controllers, opconNs).sizes| == |sizes|
    decreases |sizes|
  {
    if sizes != [] {
      var first := FilledEntry(q, mode, sizes[0], users, controllers, opconNs);
      TemplateLength(q, mode, sizes[1..], first.users, first.controllers, opconNs);
    }
  }

  /** An entry the CR does not have stays as it is, whatever the template repeats. */
  lemma {:induction false} UnlistedStays(q: Quantities, mode: Mode, sizes: seq<Service>, users: seq<Service>,
                                         controllers: map<string, string>, opconNs: string, n: nat)
    requires n < |sizes| && FirstNamed(users, sizes[n].name).None?
    ensures n < |FilledTemplate(q, mode, sizes, users, controllers, opconNs).sizes|
    ensures FilledTemplate(q, mode, sizes, users, controllers, opconNs).sizes[n] == sizes[n]
    decreases |sizes|
  {
    TemplateLength(q, mode, sizes, users, controllers, opconNs);
    if n > 0 {
      var first := FilledEntry(q, mode, sizes[0], users, controllers, opconNs);
      EntryStays(q, mode, sizes[0], users, controllers, opconNs, sizes[n].name);
      UnlistedStays(q, mode, sizes[1..], first.users, first.controllers, opconNs, n - 1);
    }
  }

  /** Whatever the template repeats, what the CR sets in a spec reads as the CR's. */
  lemma {:induction false} SpecSettingWins(q: Quantities, mode: Mode, sizes: seq<Service>, users: seq<Service>,
                                           controllers: map<string, string>, opconNs: string, n: nat, p: seq<Step>)
    requires n < |sizes| && sizes[n].spec.Some?
    requires IsSet(Find(Obj(UserSpec(users, sizes[n].name)), p))
    ensures n < |FilledTemplate(q, mode, sizes, users, controllers, opconNs).sizes|
    ensures var r := FilledTemplate(q, mode, sizes, users, controllers, opconNs).sizes[n];
            r.spec.Some? && Find(Obj(r.spec.value), p) == Find(Obj(UserSpec(users, sizes[n].name)), p)
    decreases |sizes|
  {
    TemplateLength(q, mode, sizes, users, controllers, opconNs);
    var first := FilledEntry(q, mode, sizes[0], users, controllers, opconNs);
    if n > 0 {
      EntryKeepsSetting(q, mode, sizes[0], users, controllers, opconNs, sizes[n].name, p);
      SpecSettingWins(q, mode, sizes[1..], first.users, first.controllers, opconNs, n - 1, p);
    } else {
      NoneSet(users, sizes[0].name, p);
      SpecFilled(q, mode, sizes[0].spec.value, UserSpec(users, sizes[0].name), p);
    }
  }

  /** The spec of the CR's entry of a name, empty when there is none. */
  function UserSpec(users: seq<Service>, name: string): Fields {
    match FirstNamed(users, name) case Some(u) => GetOr(u.spec, map[]) case None => map[]
  }

  lemma NoneSet(users: seq<Service>, name: string, p: seq<Step>)
    requires IsSet(Find(Obj(UserSpec(users, name)), p))
    ensures FirstNamed(users, name).Some? && FirstNamed(users, name).value.spec.Some?
  {
    FindNull(p[1..]);
  }

  lemma EntryKeepsSetting(q: Quantities, mode: Mode, t: Service, users: seq<Service>, controllers: map<string, string>,
                          opconNs: string, name: string, p: seq<Step>)
    requires IsSet(Find(Obj(UserSpec(users, name)), p))
    ensures var users' := FilledEntry(q, mode, t, users, controllers, opconNs).users;
            Find(Obj(UserSpec(users', name)), p) == Find(Obj(UserSpec(users, name)), p)
  {
    EntryStays(q, mode, t, users, controllers, opconNs, name);
    if name == t.name && t.spec.Some? {
      NoneSet(users, name, p);
      ConfigurationFilled(q, mode, t.spec.value, UserSpec(users, name), p);
    }
  }

  lemma GapBecomesSetting(q: Quantities, mode: Mode, t: Service, users: seq<Service>, controllers: map<string, string>,
                          opconNs: string, p: seq<Step>)
    requires t.spec.Some? && FirstNamed(users, t.name).Some? && FirstNamed(users, t.name).value.spec.Some?
    requires LeftOpen(Obj(t.spec.value), Obj(UserSpec(users, t.name)), p)
    ensures var users' := FilledEntry(q, mode, t, users, controllers, opconNs).users;
            Find(Obj(UserSpec(users', t.name)), p) == Find(Obj(t.spec.value), p)
  {
    EntryStays(q, mode, t, users, controllers, opconNs, t.name);
    ConfigurationFilled(q, mode, t.spec.value, UserSpec(users, t.name), p);
  }

  /** The CR's entry holds the result from then on: where the template repeats a name, what its first entry of that name
      sets and the CR leaves open wins over what the later ones set. */
  lemma {:induction false} FirstEntryWins(q: Quantities, mode: Mode, sizes: seq<Service>, users: seq<Service>,
                                          controllers: map<string, string>, opconNs: string, m: nat, n: nat,
                                          p: seq<Step>)
    requires m < n < |sizes| && sizes[m].name == sizes[n].name && FirstOfName(sizes, m)
    requires sizes[m].spec.Some? && sizes[n].spec.Some?
    requires FirstNamed(users, sizes[m].name).Some? && FirstNamed(users, sizes[m].name).value.spec.Some?
    requires LeftOpen(Obj(sizes[m].spec.value), Obj(UserSpec(users, sizes[m].name)), p)
    requires IsSet(Find(Obj(sizes[m].spec.value), p))
    ensures n < |FilledTemplate(q, mode, sizes, users, controllers, opconNs).sizes|
    ensures var r := FilledTemplate(q, mode, sizes, users, controllers, opconNs).sizes[n];
            r.spec.Some? && Find(Obj(r.spec.value), p) == Find(Obj(sizes[m].spec.value), p)
    decreases |sizes|
  {
    var first := FilledEntry(q, mode, sizes[0], users, controllers, opconNs);
    TemplateLength(q, mode, sizes, users, controllers, opconNs);
    EntryStays(q, mode, sizes[0], users, controllers, opconNs, sizes[m].name);
    if m > 0 {
      assert forall k | 0 <= k < m - 1 :: sizes[1..][k] == sizes[k + 1];
      FirstEntryWins(q, mode, sizes[1..], first.users, first.controllers, opconNs, m - 1, n - 1, p);
    } else {
      GapBecomesSetting(q, mode, sizes[0], users, controllers, opconNs, p);
      SpecSettingWins(q, mode, sizes[1..], first.users, first.controllers, opconNs, n - 1, p);
    }
  }

  /** The same for a resource that the template repeats, as long as its partner is found again. */
  lemma FirstResourceWins(q: Quantities, mode: Mode, t: Json, t': Json, us: seq<Json>, opconNs: string, p: seq<Step>)
    requires Named(t) && IdentityOf(t', opconNs) == IdentityOf(t, opconNs)
    requires var i := IndexOfSame(us, t, opconNs);
             i < |us| && LeftOpen(t, us[i], p) && IsSet(Find(t, p)) &&
             IsSame(Obj(Filled(q, mode, t.fields, us[i].fields)), t, opconNs)
    ensures var us' := FillResource(q, mode, t, us, opconNs).1;
            Named(t') ==> Find(FillResource(q, mode, t', us', opconNs).0, p) == Find(t, p)
  {
    var i := IndexOfSame(us, t, opconNs);
    var us' := FillResource(q, mode, t, us, opconNs).1;
    if Named(t') {
      IndexAround(us, us', t, t, opconNs);
      SameLookup(us', t, t', opconNs);
      ConfigurationFilled(q, mode, t.fields, us[i].fields, p);
      ConfigurationFilled(q, mode, t'.fields, us'[i].fields, p);
    }
  }

  /** The spec of a filled entry: every leaf the CR sets reads as the CR's, and every path it leaves open as the
      template's. Without a spec on either side the template's stays. The entry's other fields stay in any case. */
  lemma SpecOfTemplate(q: Quantities, mode: Mode, sizes: seq<Service>, users: seq<Service>,
                       controllers: map<string, string>, opconNs: string, n: nat, p: seq<Step>)
    requires n < |sizes| && FirstOfName(sizes, n) && FirstNamed(users, sizes[n].name).Some?
    ensures n < |FilledTemplate(q, mode, sizes, users, controllers, opconNs).sizes|
    ensures var t, u := sizes[n], FirstNamed(users, sizes[n].name).value;
            var r := FilledTemplate(q, mode, sizes, users, controllers, opconNs).sizes[n];
            && r.name == t.name && r.extra == t.extra
            && if t.spec.Some? && u.spec.Some?
               then r.spec.Some? && FilledAt(Obj(t.spec.value), Obj(u.spec.value), Obj(r.spec.value), p)
               else r.spec == t.spec
  {
    var t, u := sizes[n], FirstNamed(users, sizes[n].name).value;
    FirstEntryIsFilled(q, mode, sizes, users, controllers, opconNs, n);
    if t.spec.Some? && u.spec.Some? {
      SpecFilled(q, mode, t.spec.value, u.spec.value, p);
    }
  }

  /** The resources of the CR's entry of a name, none when there is no such entry. */
  function UserResources(users: seq<Service>, name: string): seq<Json> {
    match FirstNamed(users, name) case Some(u) => GetOr(u.resources, []) case None => []
  }

  /** A resource of a filled entry: a valid one with a partner in the CR's entry reads as the partner at every leaf
      the partner sets, and as the template's wherever the partner leaves the path open. Any other one stays. */
  lemma ResourceOfTemplate(q: Quantities, mode: Mode, sizes: seq<Service>, users: seq<Service>,
                           controllers: map<string, string>, opconNs: string, n: nat, j: nat, p: seq<Step>)
    requires n < |sizes| && FirstOfName(sizes, n)
    requires sizes[n].resources.Some? && j < |sizes[n].resources.value|
    requires var ts := sizes[n].resources.value;
             Named(ts[j]) && FirstSame(UserResources(users, sizes[n].name), ts[j], opconNs).Obj? ==>
             FirstOfIdentity(ts, opconNs, j)
    ensures n < |FilledTemplate(q, mode, sizes, users, controllers, opconNs).sizes|
    ensures var ts := sizes[n].resources.value;
            var rs := FilledTemplate(q, mode, sizes, users, controllers, opconNs).sizes[n].resources;
            var s := FirstSame(UserResources(users, sizes[n].name), ts[j], opconNs);
            && rs.Some? && |rs.value| == |ts|
            && if Named(ts[j]) && s.Obj? then FilledAt(ts[j], s, rs.value[j], p) else rs.value[j] == ts[j]
  {
    var ts, u := sizes[n].resources.value, FirstNamed(users, sizes[n].name);
    FirstEntryIsFilled(q, mode, sizes, users, controllers, opconNs, n);
    if u.Some? && u.value.resources.Some? {
      var us := u.value.resources.value;
      if Named(ts[j]) && IndexOfSame(us, ts[j], opconNs) < |us| {
        FirstIsFilled(q, mode, ts, us, opconNs, j);
        ResourceFilled(q, mode, ts[j], us, opconNs, p);
      } else {
        UnmatchedStays(q, mode, ts, us, opconNs, j);
      }
    }
  }

  /** `after` has for the service the strategy of the CR's entry, if that states one, and everything else is as in
      `before`. */
  predicate Recorded(before: map<string, string>, after: map<string, string>, strategy: Json, name: string) {
    if strategy.Str? then name in after && Str(after[name]) == strategy
    else (name in after <==> name in before) && (name in after ==> after[name] == before[name])
  }

  /** The strategy that the CR's entry of a name states. */
  function StrategyOf(users: seq<Service>, name: string): Json {
    match FirstNamed(users, name) case Some(u) => Get(u.extra, "managementStrategy") case None => Null
  }

  lemma EntryRecorded(q: Quantities, mode: Mode, t: Service, users: seq<Service>, controllers: map<string, string>,
                      opconNs: string, name: string)
    ensures var r := FilledEntry(q, mode, t, users, controllers, opconNs);
            && Recorded(controllers, r.controllers, if t.name == name then StrategyOf(users, name) else Null, name)
            && StrategyOf(r.users, name) == StrategyOf(users, name)
  {
    EntryStays(q, mode, t, users, controllers, opconNs, name);
  }

  /** The controllers after the template is filled: a service that both the template and the CR list has the strategy
      of the CR's entry, if that states one, and everything else is as it was. */
  lemma {:induction false} ControllersOfTemplate(q: Quantities, mode: Mode, sizes: seq<Service>, users: seq<Service>,
                                                 controllers: map<string, string>, opconNs: string, name: string)
    ensures Recorded(controllers, FilledTemplate(q, mode, sizes, users, controllers, opconNs).controllers,
                     if IndexOf(sizes, name) < |sizes| then StrategyOf(users, name) else Null, name)
    decreases |sizes|
  {
    if sizes != [] {
      var first := FilledEntry(q, mode, sizes[0], users, controllers, opconNs);
      EntryRecorded(q, mode, sizes[0], users, controllers, opconNs, name);
      ControllersOfTemplate(q, mode, sizes[1..], first.users, first.controllers, opconNs, name);
    }
  }
}
