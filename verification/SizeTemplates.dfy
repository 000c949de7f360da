/** Filling a size template with the settings of one CommonService CR: the two implementations. */
module SizeTemplates {
  import opened Sequences
  import opened Trees
  import opened ResourceComparison
  import opened Merging
  import opened Shrinking
  import opened Resources
  import opened Services
  import opened Wrappers
  import MergeEngine

  /** `Scaled` scales a template entry before merging the CR's entry over it, `Plain` only merges. */
  datatype Mode = Scaled | Plain

  /** One configuration of the template merged under the CR's. The merge writes into the CR's own
      map, which from then on holds the result as well. */
  function Filled(q: Quantities, mode: Mode, t: Fields, u: Fields): Fields {
    Merge(UserWins, if mode.Scaled? then Shrink(q, Max, t, u) else t, u)
  }

  /** The template's spec afterwards: `Plain` copies the result over the template's own entries. */
  function FilledSpec(q: Quantities, mode: Mode, t: Fields, u: Fields): Fields {
    if mode.Scaled? then Filled(q, mode, t, u) else t + Filled(q, mode, t, u)
  }

  /** The resources of a template entry and of the CR's entry, after the former are filled. */
  function FilledResources(q: Quantities, mode: Mode, ts: seq<Json>, us: seq<Json>,
                           opconNs: string): (r: (seq<Json>, seq<Json>))
    ensures |r.0| == |ts| && |r.1| == |us|
    decreases |ts|
  {
    if ts == [] then ([], us)
    else
      var (t, us') := FillResource(q, mode, ts[0], us, opconNs);
      var (rest, us'') := FilledResources(q, mode, ts[1..], us', opconNs);
      ([t] + rest, us'')
  }

  function FillResource(q: Quantities, mode: Mode, t: Json, us: seq<Json>, opconNs: string): (r: (Json, seq<Json>))
    ensures |r.1| == |us|
  {
    var i := IndexOfSame(us, t, opconNs);
    if Named(t) && i < |us| then
      var merged := Obj(Filled(q, mode, t.fields, us[i].fields));
      (merged, us[i := merged])
    else (t, us)
  }

  /** A template entry and the CR's entry of its name, after the former is filled. */
  function FilledService(q: Quantities, mode: Mode, t: Service, u: Service, opconNs: string): (Service, Service) {
    var specs := t.spec.Some? && u.spec.Some?;
    var resources := t.resources.Some? && u.resources.Some?;
    var filled := if resources then FilledResources(q, mode, t.resources.value, u.resources.value, opconNs)
      else ([], []);
    (t.(spec := if specs then Some(FilledSpec(q, mode, t.spec.value, u.spec.value)) else t.spec,
        resources := if resources then Some(filled.0) else t.resources),
     u.(spec := if specs then Some(Filled(q, mode, t.spec.value, u.spec.value)) else u.spec,
        resources := if resources then Some(filled.1) else u.resources))
  }

  /** The template, the CR's entries, and the controllers named for services. */
  datatype Outcome = Outcome(sizes: seq<Service>, users: seq<Service>, controllers: map<string, string>)

  function NamedController(u: Service, name: string, controllers: map<string, string>): map<string, string> {
    var c := Get(u.extra, "managementStrategy");
    if c.Str? then controllers[name := c.s] else controllers
  }

  /** One template entry: filled from the CR's first entry of its name, if there is one. */
  function FilledEntry(q: Quantities, mode: Mode, t: Service, users: seq<Service>,
                       controllers: map<string, string>, opconNs: string): (r: Outcome)
    ensures |r.sizes| == 1 && |r.users| == |users|
  {
    var i := IndexOf(users, t.name);
    if i == |users| then Outcome([t], users, controllers)
    else
      var (filled, u) := FilledService(q, mode, t, users[i], opconNs);
      Outcome([filled], users[i := u], NamedController(users[i], t.name, controllers))
  }

  /** The whole template, entry by entry. */
  function FilledTemplate(q: Quantities, mode: Mode, sizes: seq<Service>, users: seq<Service>,
                          controllers: map<string, string>, opconNs: string): Outcome
    decreases |sizes|
  {
    if sizes == [] then Outcome([], users, controllers)
    else
      var first := FilledEntry(q, mode, sizes[0], users, controllers, opconNs);
      var rest := FilledTemplate(q, mode, sizes[1..], first.users, first.controllers, opconNs);
      rest.(sizes := first.sizes + rest.sizes)
  }

  /** Two maps that read alike: they differ at most in null entries. */
  ghost predicate ReadAlike(a: Fields, b: Fields) {
    forall k: string :: Get(a, k) == Get(b, k)
  }

  lemma SpecsReadAlike(q: Quantities, t: Fields, u: Fields)
    ensures Filled(q, Scaled, t, u) == Filled(q, Plain, t, u)
    ensures ReadAlike(FilledSpec(q, Scaled, t, u), FilledSpec(q, Plain, t, u))
  {
    ShrinkAbsorbed(q, Max, t, u);
  }

  lemma {:induction false} ResourcesAgree(q: Quantities, ts: seq<Json>, us: seq<Json>, opconNs: string)
    ensures FilledResources(q, Scaled, ts, us, opconNs) == FilledResources(q, Plain, ts, us, opconNs)
    decreases |ts|
  {
    if ts != [] {
      var i := IndexOfSame(us, ts[0], opconNs);
      if Named(ts[0]) && i < |us| {
        SpecsReadAlike(q, ts[0].fields, us[i].fields);
      }
      ResourcesAgree(q, ts[1..], FillResource(q, Plain, ts[0], us, opconNs).1, opconNs);
    }
  }

  /** The same service up to null entries of its spec. */
  ghost predicate SameService(a: Service, b: Service) {
    a.name == b.name && a.resources == b.resources && a.extra == b.extra && (a.spec.Some? <==> b.spec.Some?) &&
    ReadAlike(GetOr(a.spec, map[]), GetOr(b.spec, map[]))
  }

  lemma ServicesAgree(q: Quantities, t: Service, u: Service, opconNs: string)
    ensures FilledService(q, Scaled, t, u, opconNs).1 == FilledService(q, Plain, t, u, opconNs).1
    ensures SameService(FilledService(q, Scaled, t, u, opconNs).0, FilledService(q, Plain, t, u, opconNs).0)
  {
    if t.spec.Some? && u.spec.Some? {
      SpecsReadAlike(q, t.spec.value, u.spec.value);
    }
    if t.resources.Some? && u.resources.Some? {
      ResourcesAgree(q, t.resources.value, u.resources.value, opconNs);
    }
  }

  /** For every template and every list of user services, scaling first makes no difference: the two
      implementations give the same controllers, the same resources, and specs that differ at most
      in null entries of the template. */
  lemma {:induction false} TemplatesAgree(q: Quantities, sizes: seq<Service>, users: seq<Service>,
                                          controllers: map<string, string>, opconNs: string)
    ensures var s, p := FilledTemplate(q, Scaled, sizes, users, controllers, opconNs),
            FilledTemplate(q, Plain, sizes, users, controllers, opconNs);
            && s.controllers == p.controllers && s.users == p.users
            && |s.sizes| == |p.sizes| == |sizes|
            && forall i | 0 <= i < |sizes| :: SameService(s.sizes[i], p.sizes[i])
    decreases |sizes|
  {
    if sizes != [] {
      EntriesAgree(q, sizes[0], users, controllers, opconNs);
      var first := FilledEntry(q, Plain, sizes[0], users, controllers, opconNs);
      TemplatesAgree(q, sizes[1..], first.users, first.controllers, opconNs);
    }
  }

  lemma EntriesAgree(q: Quantities, t: Service, users: seq<Service>, controllers: map<string, string>, opconNs: string)
    ensures var s, p := FilledEntry(q, Scaled, t, users, controllers, opconNs),
            FilledEntry(q, Plain, t, users, controllers, opconNs);
            s.controllers == p.controllers && s.users == p.users && SameService(s.sizes[0], p.sizes[0])
  {
    var i := IndexOf(users, t.name);
    if i < |users| {
      ServicesAgree(q, t, users[i], opconNs);
    }
  }

  /** Filling one configuration runs without panic. */
  predicate FillDefined(q: Quantities, mode: Mode, t: Fields, u: Fields) {
    (mode.Scaled? ==> ShrinkObjDefined(Obj(t), Obj(u))) &&
    MergeObjDefined(UserWins, Obj(if mode.Scaled? then Shrink(q, Max, t, u) else t), Obj(u))
  }

  predicate ResourcesDefined(q: Quantities, mode: Mode, ts: seq<Json>, us: seq<Json>, opconNs: string)
    decreases |ts|
  {
    ts == [] ||
    (var i := IndexOfSame(us, ts[0], opconNs);
     && (Named(ts[0]) && i < |us| ==> FillDefined(q, mode, ts[0].fields, us[i].fields))
     && ResourcesDefined(q, mode, ts[1..], FillResource(q, mode, ts[0], us, opconNs).1, opconNs))
  }

  predicate ServiceDefined(q: Quantities, mode: Mode, t: Service, u: Service, opconNs: string) {
    && (t.spec.Some? && u.spec.Some? ==> FillDefined(q, mode, t.spec.value, u.spec.value))
    && (t.resources.Some? && u.resources.Some? ==>
          FieldsAreStringsOrNull(t.resources.value) && FieldsAreStrings(u.resources.value) &&
          ResourcesDefined(q, mode, t.resources.value, u.resources.value, opconNs))
  }

  predicate TemplateDefined(q: Quantities, mode: Mode, sizes: seq<Service>, users: seq<Service>, opconNs: string)
    decreases |sizes|
  {
    sizes == [] ||
    (var i := IndexOf(users, sizes[0].name);
     && (i < |users| ==> ServiceDefined(q, mode, sizes[0], users[i], opconNs))
     && TemplateDefined(q, mode, sizes[1..], FilledEntry(q, mode, sizes[0], users, map[], opconNs).users, opconNs))
  }

  /** Merges one configuration of the CR over the template's, scaling the latter first or not. */
  method FillConfiguration(q: Quantities, mode: Mode, t: Fields, u: Fields) returns (merged: Fields)
    requires FillDefined(q, mode, t, u)
    ensures merged == Filled(q, mode, t, u)
  {
    var base := t;
    if mode.Scaled? {
      base := MergeEngine.ShrinkSize(q, Max, t, u);
    }
    merged := MergeEngine.MergeSizeProfile(base, u);
  }

  /** Writes the filled spec back into the template entry. */
  method WriteSpec(q: Quantities, mode: Mode, t: Fields, merged: Fields) returns (spec: Fields)
    ensures spec == if mode.Scaled? then merged else t + merged
  {
    if mode.Scaled? {
      return merged;
    }
    spec := t;
    var todo := merged.Keys;
    while todo != {}
      invariant todo <= merged.Keys
      invariant spec == t + map k | k in merged && k !in todo :: merged[k]
    {
      var cr :| cr in todo;
      spec := spec[cr := merged[cr]];
      todo := todo - {cr};
    }
    assert (map k | k in merged && k !in {} :: merged[k]) == merged;
  }

  method FillOneResource(q: Quantities, mode: Mode, t: Json, us: seq<Json>, opconNs: string)
    returns (filled: Json, users: seq<Json>)
    requires Named(t) && IndexOfSame(us, t, opconNs) < |us| ==>
             FillDefined(q, mode, t.fields, us[IndexOfSame(us, t, opconNs)].fields)
    ensures filled == FillResource(q, mode, t, us, opconNs).0 && users == FillResource(q, mode, t, us, opconNs).1
  {
    filled, users := t, us;
    if Named(t) {
      var i := IndexOfSame(us, t, opconNs);
      if i < |us| {
        var merged := FillConfiguration(q, mode, t.fields, us[i].fields);
        filled := Obj(merged);
        users := us[i := filled];
      }
    }
  }

  /** The state after the first `j` resources: what remains completes it to the whole. */
  ghost predicate ResourcesFilled(q: Quantities, mode: Mode, ts: seq<Json>, us: seq<Json>, opconNs: string, j: nat,
                                  filled: seq<Json>, users: seq<Json>)
    requires j <= |ts|
  {
    var rest, all := FilledResources(q, mode, ts[j..], users, opconNs), FilledResources(q, mode, ts, us, opconNs);
    ResourcesDefined(q, mode, ts[j..], users, opconNs) && filled + rest.0 == all.0 && rest.1 == all.1
  }

  lemma NextResource(q: Quantities, mode: Mode, ts: seq<Json>, us: seq<Json>, opconNs: string, j: nat,
                     filled: seq<Json>, users: seq<Json>)
    requires j < |ts| && ResourcesFilled(q, mode, ts, us, opconNs, j, filled, users)
    ensures var i := IndexOfSame(users, ts[j], opconNs);
            Named(ts[j]) && i < |users| ==> FillDefined(q, mode, ts[j].fields, users[i].fields)
    ensures var r := FillResource(q, mode, ts[j], users, opconNs);
            ResourcesFilled(q, mode, ts, us, opconNs, j + 1, filled + [r.0], r.1)
  {
    Suffix(ts, j);
    var r := FillResource(q, mode, ts[j], users, opconNs);
    var rest := FilledResources(q, mode, ts[j + 1..], r.1, opconNs);
    Associate(filled, [r.0], rest.0);
  }

  method FillResources(q: Quantities, mode: Mode, ts: seq<Json>, us: seq<Json>, opconNs: string)
    returns (filled: seq<Json>, users: seq<Json>)
    requires ResourcesDefined(q, mode, ts, us, opconNs)
    ensures filled == FilledResources(q, mode, ts, us, opconNs).0 &&
            users == FilledResources(q, mode, ts, us, opconNs).1
  {
    filled, users := [], us;
    assert ts[0..] == ts;
    for j := 0 to |ts|
      invariant ResourcesFilled(q, mode, ts, us, opconNs, j, filled, users)
    {
      NextResource(q, mode, ts, us, opconNs, j, filled, users);
      var next;
      next, users := FillOneResource(q, mode, ts[j], users, opconNs);
      filled := filled + [next];
    }
  }

  method FillService(q: Quantities, mode: Mode, t: Service, u: Service, opconNs: string)
    returns (filled: Service, user: Service)
    requires ServiceDefined(q, mode, t, u, opconNs)
    ensures (filled, user) == FilledService(q, mode, t, u, opconNs)
  {
    filled, user := t, u;
    if t.spec.Some? && u.spec.Some? {
      var merged := FillConfiguration(q, mode, t.spec.value, u.spec.value);
      var spec := WriteSpec(q, mode, t.spec.value, merged);
      filled, user := filled.(spec := Some(spec)), user.(spec := Some(merged));
    }
    if t.resources.Some? && u.resources.Some? {
      var rs, us := FillResources(q, mode, t.resources.value, u.resources.value, opconNs);
      filled, user := filled.(resources := Some(rs)), user.(resources := Some(us));
    }
  }

  method FillEntry(q: Quantities, mode: Mode, t: Service, users: seq<Service>,
                   controllers: map<string, string>, opconNs: string)
    returns (filled: Service, users': seq<Service>, mapping: map<string, string>)
    requires IndexOf(users, t.name) < |users| ==> ServiceDefined(q, mode, t, users[IndexOf(users, t.name)], opconNs)
    ensures Outcome([filled], users', mapping) == FilledEntry(q, mode, t, users, controllers, opconNs)
  {
    filled, users', mapping := t, users, controllers;
    var i := IndexOf(users, t.name);
    if i < |users| {
      mapping := NamedController(users[i], t.name, controllers);
      var user;
      filled, user := FillService(q, mode, t, users[i], opconNs);
      users' := users[i := user];
    }
  }

  /** The state after the first `n` entries. */
  ghost predicate TemplateFilled(q: Quantities, mode: Mode, sizes: seq<Service>, start: Outcome, opconNs: string,
                                 n: nat, now: Outcome)
    requires n <= |sizes|
  {
    var rest := FilledTemplate(q, mode, sizes[n..], now.users, now.controllers, opconNs);
    var all := FilledTemplate(q, mode, sizes, start.users, start.controllers, opconNs);
    TemplateDefined(q, mode, sizes[n..], now.users, opconNs) && now.sizes + rest.sizes == all.sizes &&
      rest.controllers == all.controllers
  }

  lemma NextEntry(q: Quantities, mode: Mode, sizes: seq<Service>, start: Outcome, opconNs: string, n: nat, now: Outcome)
    requires n < |sizes| && TemplateFilled(q, mode, sizes, start, opconNs, n, now)
    ensures var i := IndexOf(now.users, sizes[n].name); i < |now.users| ==>
            ServiceDefined(q, mode, sizes[n], now.users[i], opconNs)
    ensures var r := FilledEntry(q, mode, sizes[n], now.users, now.controllers, opconNs);
            TemplateFilled(q, mode, sizes, start, opconNs, n + 1, r.(sizes := now.sizes + r.sizes))
  {
    Suffix(sizes, n);
    var r := FilledEntry(q, mode, sizes[n], now.users, now.controllers, opconNs);
    SameUsers(q, mode, sizes[n], now.users, now.controllers, opconNs);
    var rest := FilledTemplate(q, mode, sizes[n + 1..], r.users, r.controllers, opconNs);
    Associate(now.sizes, r.sizes, rest.sizes);
  }

  lemma SameUsers(q: Quantities, mode: Mode, t: Service, users: seq<Service>,
                  controllers: map<string, string>, opconNs: string)
    ensures FilledEntry(q, mode, t, users, controllers, opconNs).users ==
            FilledEntry(q, mode, t, users, map[], opconNs).users
  {
  }

  /** Fills the template: with scaling as the bootstrap extractor does it, or plainly as the renderer does. */
  method FillSizeTemplate(q: Quantities, mode: Mode, sizes: seq<Service>, src: seq<Service>,
                          controllers: map<string, string>, opconNs: string)
    returns (filled: seq<Service>, mapping: map<string, string>)
    requires TemplateDefined(q, mode, sizes, src, opconNs)
    ensures var r := FilledTemplate(q, mode, sizes, src, controllers, opconNs);
            filled == r.sizes && mapping == r.controllers
  {
    filled, mapping := [], controllers;
    var users := src;
    assert sizes[0..] == sizes;
    for n := 0 to |sizes|
      invariant TemplateFilled(q, mode, sizes, Outcome([], src, controllers), opconNs, n,
                               Outcome(filled, users, mapping))
    {
      NextEntry(q, mode, sizes, Outcome([], src, controllers), opconNs, n, Outcome(filled, users, mapping));
      var t;
      t, users, mapping := FillEntry(q, mode, sizes[n], users, mapping, opconNs);
      filled := filled + [t];
    }
  }
}
