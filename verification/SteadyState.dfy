/** The reconcile path: CR services merged into the base template, and when the bootstrap path makes the same of
    them. */
module SteadyState {
  import opened Sequences
  import opened Trees
  import opened ResourceComparison
  import opened Merging
  import opened Resetting
  import opened ResetAgreement
  import opened Resources
  import opened ResourceLaws
  import opened Services
  import opened Wrappers
  import MergeEngine

  /** The last service of the CR with this name, as the lookup table keeps it. */
  function LastNamed(cs: seq<Service>, name: string): (o: Option<Service>)
    ensures o.Some? ==> o.value in cs && o.value.name == name
    ensures o.None? <==> forall i | 0 <= i < |cs| :: cs[i].name != name
    decreases |cs|
  {
    if cs == [] then None
    else if cs[|cs| - 1].name == name then Some(cs[|cs| - 1])
    else LastNamed(cs[..|cs| - 1], name)
  }

  function MergeCrIntoBase(ctx: Context, name: string, cr: string, base: Json, t: Json): Json {
    if base.Null? then t else Obj(Merge(PolicyFor(ctx, name, cr), AsMap(base), AsMap(t)))
  }

  function MergeSpecIntoBase(ctx: Context, name: string, base: Fields, spec: Fields): Fields {
    base + map cr | cr in spec :: MergeCrIntoBase(ctx, name, cr, Get(base, cr), spec[cr])
  }

  /** The strategy of the CR replaces the base's, when the CR states one. */
  function MergeExtra(base: Fields, cs: Fields): Fields {
    if Get(cs, "managementStrategy").Null? then base else base["managementStrategy" := cs["managementStrategy"]]
  }

  function MergeConfig(ctx: Context, base: Service, cs: Service): Service {
    Service(base.name,
            if cs.spec.Some? then Some(MergeSpecIntoBase(ctx, base.name, GetOr(base.spec, map[]), cs.spec.value))
              else base.spec,
            if cs.resources.Some?
              then Some(MergeArrays(ctx.q, GetOr(base.resources, []), cs.resources.value, ctx.opconNs, "default"))
            else base.resources,
            MergeExtra(base.extra, cs.extra))
  }

  /** A base service after the CR's last service of its name. */
  function MergeOneBase(ctx: Context, b: Service, cs: seq<Service>): Service {
    match LastNamed(cs, b.name) case Some(c) => MergeConfig(ctx, b, c) case None => b
  }

  function MergeBase(ctx: Context, base: seq<Service>, cs: seq<Service>): (r: seq<Service>)
    ensures |r| == |base|
    ensures forall i | 0 <= i < |base| :: r[i] == MergeOneBase(ctx, base[i], cs)
  {
    if base == [] then [] else [MergeOneBase(ctx, base[0], cs)] + MergeBase(ctx, base[1..], cs)
  }

  predicate InBase(base: seq<Service>, name: string) {
    IndexOf(base, name) < |base|
  }

  function NotInBase(base: seq<Service>, cs: seq<Service>): seq<Service> {
    if cs == [] then []
    else (if InBase(base, cs[0].name) then [] else [cs[0]]) + NotInBase(base, cs[1..])
  }

  function MergeWithBase(ctx: Context, base: seq<Service>, cs: seq<Service>): seq<Service> {
    MergeBase(ctx, base, cs) + NotInBase(base, cs)
  }

  lemma LastAppended(cs: seq<Service>, c: Service, name: string)
    ensures LastNamed(cs + [c], name) == if c.name == name then Some(c) else LastNamed(cs, name)
  {
    assert (cs + [c])[..|cs|] == cs;
  }

  lemma {:induction false} OthersFollow(cs: seq<Service>, b: seq<Service>, name: string)
    requires forall s | s in b :: s.name != name
    ensures LastNamed(cs + b, name) == LastNamed(cs, name)
    decreases |b|
  {
    if b == [] {
      assert cs + b == cs;
    } else {
      var n := |b| - 1;
      assert b[n] in b && cs + b == cs + b[..n] + [b[n]];
      LastAppended(cs + b[..n], b[n], name);
      OthersFollow(cs, b[..n], name);
    }
  }

  /** Of several entries of a CR with one name the last one counts: it is merged over every base service of the name,
      and the others are not. */
  lemma LastEntryCounts(ctx: Context, base: seq<Service>, a: seq<Service>, c: Service, b: seq<Service>, i: nat)
    requires i < |base| && base[i].name == c.name && forall s | s in b :: s.name != c.name
    ensures MergeWithBase(ctx, base, a + [c] + b)[i] == MergeConfig(ctx, base[i], c)
  {
    LastAppended(a, c, c.name);
    OthersFollow(a + [c], b, c.name);
  }

  /** Every merge of a CR service into a base service of its name runs without panic. */
  ghost predicate ConfigDefined(ctx: Context, base: Service, cs: Service) {
    && SpecIsMaps(cs) && SpecIsMapsOrNull(base)
    && (cs.spec.Some? ==> forall cr | cr in cs.spec.value ::
          MergeObjDefined(PolicyFor(ctx, base.name, cr),
                          Obj(AsMap(Get(GetOr(base.spec, map[]), cr))), cs.spec.value[cr]))
    && ArraysDefined(ctx.q, GetOr(base.resources, []), GetOr(cs.resources, []), ctx.opconNs)
  }

  ghost predicate AllConfigsDefined(ctx: Context, base: seq<Service>, cs: seq<Service>) {
    forall b, c | b in base && c in cs && b.name == c.name :: ConfigDefined(ctx, b, c)
  }

  method MergeServiceConfig(ctx: Context, base: Service, cs: Service) returns (result: Service)
    requires base.name == cs.name && ConfigDefined(ctx, base, cs)
    ensures result == MergeConfig(ctx, base, cs)
  {
    result := base;
    if cs.spec.Some? {
      var baseSpec := GetOr(base.spec, map[]);
      ghost var goal := MergeSpecIntoBase(ctx, base.name, baseSpec, cs.spec.value);
      ghost var start := baseSpec;
      var todo := cs.spec.value.Keys;
      assert baseSpec == Visited(goal, start, todo);
      while todo != {}
        invariant todo <= cs.spec.value.Keys
        invariant baseSpec == Visited(goal, start, todo)
      {
        var cr :| cr in todo;
        VisitOne(goal, start, todo, cr);
        var merged := MergeServiceCr(ctx, base.name, cr, Get(baseSpec, cr), cs.spec.value[cr]);
        baseSpec := baseSpec[cr := merged];
        todo := todo - {cr};
      }
      assert Visited(goal, start, {}) == goal;
      result := result.(spec := Some(baseSpec));
    }
    if cs.resources.Some? {
      var merged := MergeResourceArrays(ctx.q, GetOr(base.resources, []), cs.resources.value, ctx.opconNs, "default");
      result := result.(resources := Some(merged));
    }
    if !Get(cs.extra, "managementStrategy").Null? {
      result := result.(extra := base.extra["managementStrategy" := cs.extra["managementStrategy"]]);
    }
  }

  method MergeServiceCr(ctx: Context, name: string, cr: string, base: Json, t: Json) returns (merged: Json)
    requires t.Obj? && (base.Obj? || base.Null?)
    requires MergeObjDefined(PolicyFor(ctx, name, cr), Obj(AsMap(base)), t)
    ensures merged == MergeCrIntoBase(ctx, name, cr, base, t)
  {
    if base.Null? {
      return t;
    }
    var rule := RuleFor(ctx.rules, name, cr);
    var fields: Fields;
    if !rule.Null? {
      fields := MergeEngine.MergeCRsIntoOperandConfig(ctx.q, base.fields, t.fields, AsMap(rule));
    } else {
      fields := MergeEngine.MergeSizeProfile(base.fields, t.fields);
    }
    merged := Obj(fields);
  }

  method MergeServicesWithBase(ctx: Context, base: seq<Service>, cs: seq<Service>) returns (result: seq<Service>)
    requires AllConfigsDefined(ctx, base, cs)
    ensures result == MergeWithBase(ctx, base, cs)
  {
    var csServiceMap := MapByName(cs);
    var processed;
    result, processed := MergeBaseServices(ctx, base, cs, csServiceMap);
    result := AppendNewServices(result, base, cs, csServiceMap, processed);
  }

  /** The table holds the last service of each name. */
  ghost predicate Indexes(cs: seq<Service>, table: map<string, Service>) {
    forall name: string :: LastNamed(cs, name) == if name in table then Some(table[name]) else None
  }

  /** The lookup table of the CR's services. */
  method MapByName(cs: seq<Service>) returns (m: map<string, Service>)
    ensures Indexes(cs, m)
  {
    m := map[];
    for i := 0 to |cs|
      invariant Indexes(cs[..i], m)
    {
      assert cs[..i + 1][..i] == cs[..i];
      m := m[cs[i].name := cs[i]];
    }
    assert cs[..|cs|] == cs;
  }

  /** The names of the base services that the CR lists as well. */
  ghost function ProcessedNames(base: seq<Service>, names: set<string>): set<string> {
    set b | b in base && b.name in names :: b.name
  }

  lemma ProcessedNext(base: seq<Service>, i: nat, names: set<string>)
    requires i < |base|
    ensures ProcessedNames(base[..i + 1], names) ==
            ProcessedNames(base[..i], names) + if base[i].name in names then {base[i].name} else {}
  {
    Prefix(base, i);
  }

  method MergeBaseService(ctx: Context, b: Service, ghost cs: seq<Service>, csServiceMap: map<string, Service>)
    returns (merged: Service)
    requires AllConfigsDefined(ctx, [b], cs) && Indexes(cs, csServiceMap)
    ensures merged == MergeOneBase(ctx, b, cs)
  {
    assert LastNamed(cs, b.name) == if b.name in csServiceMap then Some(csServiceMap[b.name]) else None;
    merged := b;
    if b.name in csServiceMap {
      assert b in [b];
      merged := MergeServiceConfig(ctx, b, csServiceMap[b.name]);
    }
  }

  lemma MergeBaseNext(ctx: Context, base: seq<Service>, cs: seq<Service>, i: nat)
    requires i < |base|
    ensures MergeBase(ctx, base[..i + 1], cs) == MergeBase(ctx, base[..i], cs) + [MergeOneBase(ctx, base[i], cs)]
  {
    var l, r := MergeBase(ctx, base[..i + 1], cs), MergeBase(ctx, base[..i], cs) + [MergeOneBase(ctx, base[i], cs)];
    assert forall j | 0 <= j <= i :: base[..i + 1][j] == base[j];
    assert forall j | 0 <= j <= i :: l[j] == r[j];
  }

  lemma OneDefined(ctx: Context, base: seq<Service>, cs: seq<Service>, i: nat)
    requires i < |base| && AllConfigsDefined(ctx, base, cs)
    ensures AllConfigsDefined(ctx, [base[i]], cs)
  {
    assert base[i] in base;
  }

  method MergeBaseServices(ctx: Context, base: seq<Service>, cs: seq<Service>, csServiceMap: map<string, Service>)
    returns (result: seq<Service>, processed: set<string>)
    requires AllConfigsDefined(ctx, base, cs)
    requires Indexes(cs, csServiceMap)
    ensures result == MergeBase(ctx, base, cs)
    ensures processed == ProcessedNames(base, csServiceMap.Keys)
  {
    result := [];
    processed := {};
    for i := 0 to |base|
      invariant result == MergeBase(ctx, base[..i], cs)
      invariant processed == ProcessedNames(base[..i], csServiceMap.Keys)
    {
      ProcessedNext(base, i, csServiceMap.Keys);
      MergeBaseNext(ctx, base, cs, i);
      OneDefined(ctx, base, cs, i);
      var merged := MergeBaseService(ctx, base[i], cs, csServiceMap);
      result := result + [merged];
      if base[i].name in csServiceMap {
        processed := processed + {base[i].name};
      }
    }
    assert base[..|base|] == base;
  }

  lemma {:induction false} NotInBaseNext(base: seq<Service>, cs: seq<Service>, i: nat)
    requires i < |cs|
    ensures NotInBase(base, cs[..i + 1]) == NotInBase(base, cs[..i]) + if InBase(base, cs[i].name) then [] else [cs[i]]
  {
    if i > 0 {
      var first := if InBase(base, cs[0].name) then [] else [cs[0]];
      var last := if InBase(base, cs[i].name) then [] else [cs[i]];
      assert cs[..i + 1][1..] == cs[1..][..i] && cs[..i][1..] == cs[1..][..i - 1];
      NotInBaseNext(base, cs[1..], i - 1);
      Associate(first, NotInBase(base, cs[1..][..i - 1]), last);
    } else {
      assert cs[..1][1..] == [];
    }
  }

  method AppendNewServices(merged: seq<Service>, base: seq<Service>, cs: seq<Service>,
                           ghost csServiceMap: map<string, Service>, processed: set<string>)
                           returns (result: seq<Service>)
    requires Indexes(cs, csServiceMap)
    requires processed == ProcessedNames(base, csServiceMap.Keys)
    ensures result == merged + NotInBase(base, cs)
  {
    result := merged;
    for i := 0 to |cs|
      invariant result == merged + NotInBase(base, cs[..i])
    {
      NotInBaseNext(base, cs, i);
      ProcessedIffInBase(base, csServiceMap, processed, cs[i].name);
      if cs[i].name !in processed {
        Associate(merged, NotInBase(base, cs[..i]), [cs[i]]);
        result := result + [cs[i]];
      }
    }
    assert cs[..|cs|] == cs;
  }

  lemma ProcessedIffInBase(base: seq<Service>, csServiceMap: map<string, Service>, processed: set<string>, name: string)
    requires processed == ProcessedNames(base, csServiceMap.Keys)
    requires name in csServiceMap
    ensures name in processed <==> InBase(base, name)
  {
    if InBase(base, name) {
      assert base[IndexOf(base, name)].name == name;
    }
  }

  ghost predicate UniqueNames(ss: seq<Service>) {
    forall i, j | 0 <= i < j < |ss| :: ss[i].name != ss[j].name
  }

  /** What a consumer sees of a service: a missing spec is an empty one, missing resources are none. */
  datatype Content = Content(name: string, spec: Fields, resources: seq<Json>)

  function ContentOf(s: Service): Content {
    Content(s.name, GetOr(s.spec, map[]), GetOr(s.resources, []))
  }

  function Contents(ss: seq<Service>): (r: seq<Content>)
    ensures |r| == |ss|
    ensures forall i | 0 <= i < |ss| :: r[i] == ContentOf(ss[i])
  {
    if ss == [] then [] else [ContentOf(ss[0])] + Contents(ss[1..])
  }

  lemma ContentsSplit(a: seq<Service>, b: seq<Service>)
    ensures Contents(a + b) == Contents(a) + Contents(b)
  {
    var l, r := Contents(a + b), Contents(a) + Contents(b);
    assert |l| == |r|;
    assert forall i | 0 <= i < |l| :: l[i] == r[i];
  }

  /** Controllers that are not external all leave the merge as it is. */
  lemma SameController(q: Quantities, base: seq<Json>, cs: seq<Json>, opconNs: string, c1: string, c2: string)
    requires c1 !in EXTERNAL_CONTROLLERS && c2 !in EXTERNAL_CONTROLLERS
    ensures MergeArrays(q, base, cs, opconNs, c1) == MergeArrays(q, base, cs, opconNs, c2)
  {
    var p := Partners(base, cs, opconNs);
    assert MergedBase(q, base, cs, p, c1) == MergedBase(q, base, cs, p, c2);
  }

  lemma NothingToMerge(q: Quantities, base: seq<Json>, opconNs: string, c: string)
    ensures MergeArrays(q, base, [], opconNs, c) == base
  {
    var p := Partners(base, [], opconNs);
    assert p == map[];
    assert MergedBase(q, base, [], p, c) == base;
  }

  ghost predicate AllNamed(rs: seq<Json>) {
    forall r | r in rs :: Named(r)
  }

  lemma {:induction false} NothingMatches(cs: seq<Json>, p: map<nat, nat>)
    requires AllNamed(cs) && p == map[]
    ensures Others(cs, Handled(cs, p)) == cs
  {
    assert Handled(cs, p) == {} by {
      assert forall j | 0 <= j < |cs| :: cs[j] in cs;
    }
    NoneHandled(cs);
  }

  lemma {:induction false} NoneHandled(cs: seq<Json>)
    ensures Others(cs, {}) == cs
    decreases |cs|
  {
    if cs != [] {
      NoneHandled(cs[..|cs| - 1]);
    }
  }

  lemma {:induction false} NamedCountFull(cs: seq<Json>)
    ensures NamedCount(cs) <= |cs| && (NamedCount(cs) == |cs| <==> AllNamed(cs))
    decreases |cs|
  {
    if cs != [] {
      var n := |cs| - 1;
      NamedCountFull(cs[..n]);
      Prefix(cs, n);
      assert cs[..n + 1] == cs;
    }
  }

  /** A list merged into an empty list stays what it is exactly when all its resources are valid. */
  lemma IntoEmptyList(q: Quantities, cs: seq<Json>, opconNs: string, c: string)
    ensures MergeArrays(q, [], cs, opconNs, c) == cs <==> AllNamed(cs)
  {
    var p := Partners([], cs, opconNs);
    assert p == map[] by {
      assert p.Keys == {};
    }
    assert MergedBase(q, [], cs, p, c) == [];
    MergedOrAppended([], cs, opconNs);
    NamedCountFull(cs);
    if AllNamed(cs) {
      NothingMatches(cs, p);
    }
  }

  /** Where an external controller sizes the service, clearing its sizes makes no difference to one custom resource. */
  predicate CrMoot(ctx: Context, name: string, cr: string, base: Fields, t: Json) {
    ResetIsMoot(ctx.q, Obj(base), Obj(AsMap(t)), AsMap(RuleFor(ctx.rules, name, cr)))
  }

  /** Nor does it to the whole service `c`, merged over `b`, including the CPU limits of its resources. */
  ghost predicate ClearingIsMoot(ctx: Context, b: Service, c: Service) {
    && (forall cr | cr in GetOr(c.spec, map[]) ::
        CrMoot(ctx, c.name, cr, AsMap(Get(GetOr(b.spec, map[]), cr)), c.spec.value[cr]))
    && LimitsMoot(ctx.q, GetOr(b.resources, []), GetOr(c.resources, []), ctx.opconNs)
  }

  lemma NoRulesNoReset(q: Quantities, d: Fields, t: Json)
    requires t.Obj?
    ensures Reset(t, map[]) == t && ResetIsMoot(q, Obj(d), t, map[])
  {
    ResetCleans(t, map[]);
    CleanIsMoot(q, Obj(d), t, map[]);
  }

  /** One custom resource on the two paths. */
  lemma SameCr(ctx: Context, name: string, cr: string, base: Json, t: Json)
    requires t.Obj? && (base.Obj? || base.Null?)
    ensures Obj(MergedCr(ctx, name, cr, AsMap(base), t)) == MergeCrIntoBase(ctx, name, cr, base, t) <==>
            (External(ctx, name) ==> CrMoot(ctx, name, cr, AsMap(base), t))
  {
    var m := PolicyFor(ctx, name, cr);
    MergeIntoEmpty(m, t.fields);
    assert MergeCrIntoBase(ctx, name, cr, base, t) == Obj(Merge(m, AsMap(base), t.fields));
    if External(ctx, name) {
      if m.UserWins? {
        NoRulesNoReset(ctx.q, AsMap(base), t);
      } else {
        RootMootIff(ctx.q, AsMap(base), t, AsMap(RuleFor(ctx.rules, name, cr)));
      }
    }
  }

  lemma SameSpec(ctx: Context, name: string, base: Fields, spec: Fields)
    requires forall cr | cr in spec :: spec[cr].Obj? && (Get(base, cr).Obj? || Get(base, cr).Null?)
    ensures MergeSpec(ctx, name, base, spec) == MergeSpecIntoBase(ctx, name, base, spec) <==>
            (External(ctx, name) ==> forall cr | cr in spec :: CrMoot(ctx, name, cr, AsMap(Get(base, cr)), spec[cr]))
  {
    var l, r := MergeSpec(ctx, name, base, spec), MergeSpecIntoBase(ctx, name, base, spec);
    assert l.Keys == r.Keys;
    forall cr | cr in spec
      ensures l[cr] == r[cr] <==> (External(ctx, name) ==> CrMoot(ctx, name, cr, AsMap(Get(base, cr)), spec[cr]))
    {
      SameCr(ctx, name, cr, Get(base, cr), spec[cr]);
    }
    if forall cr | cr in spec :: l[cr] == r[cr] {
      SameFields(l, r);
    }
  }

  lemma SameResources(ctx: Context, name: string, base: seq<Json>, cs: seq<Json>)
    ensures MergeResourcesOf(ctx, name, base, cs) == MergeArrays(ctx.q, base, cs, ctx.opconNs, "default") <==>
            (External(ctx, name) ==> LimitsMoot(ctx.q, base, cs, ctx.opconNs))
  {
    var controller := ControllerOf(ctx.controllers, name);
    if External(ctx, name) {
      LimitsMootIff(ctx.q, base, cs, ctx.opconNs, controller);
    } else {
      SameController(ctx.q, base, cs, ctx.opconNs, controller, "default");
    }
  }

  lemma NoLimitsOfNothing(q: Quantities, base: seq<Json>, cs: seq<Json>, opconNs: string)
    requires base == [] || cs == []
    ensures LimitsMoot(q, base, cs, opconNs)
  {
    assert Partners(base, cs, opconNs).Keys == {};
  }

  /** On one service the two implementations produce the same content, unless clearing makes a difference. */
  lemma SameMerge(ctx: Context, b: Service, c: Service)
    requires b.name == c.name && SpecIsMaps(c) && SpecIsMapsOrNull(b)
    ensures ContentOf(Updated(ctx, b, c)) == ContentOf(MergeConfig(ctx, b, c)) <==>
            (External(ctx, c.name) ==> ClearingIsMoot(ctx, b, c))
  {
    var resources := GetOr(b.resources, []);
    if c.spec.Some? {
      SameSpec(ctx, c.name, GetOr(b.spec, map[]), c.spec.value);
    }
    SameResources(ctx, c.name, resources, GetOr(c.resources, []));
    NothingToMerge(ctx.q, resources, ctx.opconNs, "default");
  }

  /** A service that only the CR has. */
  lemma SameIntroduction(ctx: Context, c: Service)
    requires SpecIsMaps(c)
    ensures ContentOf(Introduced(ctx, c)) == ContentOf(c) <==>
            AllNamed(GetOr(c.resources, [])) && (External(ctx, c.name) ==> ClearingIsMoot(ctx, NoService(c.name), c))
  {
    if c.spec.Some? {
      SameSpec(ctx, c.name, map[], c.spec.value);
      SameFields(MergeSpecIntoBase(ctx, c.name, map[], c.spec.value), c.spec.value);
    }
    NoLimitsOfNothing(ctx.q, [], GetOr(c.resources, []), ctx.opconNs);
    IntoEmptyList(ctx.q, GetOr(c.resources, []), ctx.opconNs, ControllerOf(ctx.controllers, c.name));
  }

  function NoService(name: string): Service {
    Service(name, None, None, map[])
  }

  /** What both paths need of their inputs: specs that are maps. */
  ghost predicate Comparable(base: seq<Service>, cs: seq<Service>) {
    && (forall b | b in base :: SpecIsMapsOrNull(b))
    && (forall c | c in cs :: SpecIsMaps(c))
  }

  /** The paths agree on a service of the CRs: one that is new to the base lists valid resources only, and for one that
      an external controller sizes there is nothing to clear that would have had an effect. */
  ghost predicate AgreeOn(ctx: Context, base: seq<Service>, c: Service) {
    && (!InBase(base, c.name) ==> AllNamed(GetOr(c.resources, [])))
    && (External(ctx, c.name) ==> ClearingIsMoot(ctx, GetOr(FirstNamed(base, c.name), NoService(c.name)), c))
  }

  /** A base service after the CR's last service of its name. */
  function UpdateOne(ctx: Context, b: Service, cs: seq<Service>): Service {
    match LastNamed(cs, b.name) case Some(c) => Updated(ctx, b, c) case None => b
  }

  function UpdateBase(ctx: Context, base: seq<Service>, cs: seq<Service>): (r: seq<Service>)
    ensures |r| == |base|
    ensures forall i | 0 <= i < |base| :: r[i] == UpdateOne(ctx, base[i], cs)
  {
    if base == [] then [] else [UpdateOne(ctx, base[0], cs)] + UpdateBase(ctx, base[1..], cs)
  }

  function IntroduceAll(ctx: Context, cs: seq<Service>): (r: seq<Service>)
    ensures |r| == |cs|
    ensures forall i | 0 <= i < |cs| :: r[i] == Introduced(ctx, cs[i])
  {
    if cs == [] then [] else [Introduced(ctx, cs[0])] + IntroduceAll(ctx, cs[1..])
  }

  lemma LastNamedHead(cs: seq<Service>, name: string)
    requires cs != [] && UniqueNames(cs)
    ensures LastNamed(cs, name) == if cs[0].name == name then Some(cs[0]) else LastNamed(cs[1..], name)
  {
    var o, rest := LastNamed(cs, name), LastNamed(cs[1..], name);
    if o.Some? {
      var i :| 0 <= i < |cs| && cs[i] == o.value;
      if i > 0 {
        assert cs[1..][i - 1].name == name;
        var j :| 0 <= j < |cs[1..]| && cs[1..][j] == rest.value;
        assert cs[j + 1].name == name;
      }
    } else {
      assert forall i | 0 <= i < |cs[1..]| :: cs[1..][i] == cs[i + 1];
    }
  }

  lemma {:induction false} NotInBaseNames(a: seq<Service>, b: seq<Service>, cs: seq<Service>)
    requires forall c | c in cs :: InBase(a, c.name) <==> InBase(b, c.name)
    ensures NotInBase(a, cs) == NotInBase(b, cs)
  {
    if cs != [] {
      assert cs[0] in cs;
      NotInBaseNames(a, b, cs[1..]);
    }
  }

  lemma KnownServiceUpdated(ctx: Context, base: seq<Service>, cs: seq<Service>, i: nat)
    requires cs != [] && UniqueNames(base) && UniqueNames(cs) && i < |base| && base[i].name == cs[0].name
    ensures UpdateBase(ctx, base[i := Updated(ctx, base[i], cs[0])], cs[1..]) == UpdateBase(ctx, base, cs)
  {
    var base' := base[i := Updated(ctx, base[i], cs[0])];
    var l, r := UpdateBase(ctx, base', cs[1..]), UpdateBase(ctx, base, cs);
    forall j | 0 <= j < |base|
      ensures l[j] == r[j]
    {
      LastNamedHead(cs, base[j].name);
      if j == i {
        assert forall k | 0 <= k < |cs[1..]| :: cs[1..][k] == cs[k + 1];
        assert LastNamed(cs[1..], base[i].name).None?;
      }
    }
    assert l == r;
  }

  lemma KnownServiceStays(base: seq<Service>, base': seq<Service>, cs: seq<Service>)
    requires UniqueNames(base) && |base| == |base'| && forall i | 0 <= i < |base| :: base[i].name == base'[i].name
    ensures UniqueNames(base') && NotInBase(base', cs) == NotInBase(base, cs)
  {
    forall c | c in cs ensures InBase(base', c.name) <==> InBase(base, c.name) {
      SameIndex(base, base', c.name);
    }
    NotInBaseNames(base', base, cs);
  }

  lemma {:induction false} KnownService(ctx: Context, base: seq<Service>, cs: seq<Service>)
    requires cs != [] && UniqueNames(base) && UniqueNames(cs) && InBase(base, cs[0].name)
    ensures var base' := MergeOperator(ctx, base, cs[0]);
            && UniqueNames(base')
            && UpdateBase(ctx, base', cs[1..]) == UpdateBase(ctx, base, cs)
            && NotInBase(base', cs[1..]) == NotInBase(base, cs)
  {
    var i := IndexOf(base, cs[0].name);
    var base' := base[i := Updated(ctx, base[i], cs[0])];
    assert MergeOperator(ctx, base, cs[0]) == base';
    KnownServiceUpdated(ctx, base, cs, i);
    KnownServiceStays(base, base', cs[1..]);
    assert NotInBase(base, cs) == [] + NotInBase(base, cs[1..]) == NotInBase(base, cs[1..]);
  }

  lemma {:induction false} NewServiceUpdates(ctx: Context, base: seq<Service>, cs: seq<Service>)
    requires cs != [] && UniqueNames(base) && UniqueNames(cs) && !InBase(base, cs[0].name)
    ensures UpdateBase(ctx, base + [Introduced(ctx, cs[0])], cs[1..]) == UpdateBase(ctx, base, cs) +
            [Introduced(ctx, cs[0])]
  {
    var base' := base + [Introduced(ctx, cs[0])];
    var l, r := UpdateBase(ctx, base', cs[1..]), UpdateBase(ctx, base, cs) + [Introduced(ctx, cs[0])];
    assert forall k | 0 <= k < |cs[1..]| :: cs[1..][k] == cs[k + 1];
    forall j | 0 <= j < |base'|
      ensures l[j] == r[j]
    {
      LastNamedHead(cs, base'[j].name);
    }
  }

  lemma NewService(ctx: Context, base: seq<Service>, cs: seq<Service>)
    requires cs != [] && UniqueNames(base) && UniqueNames(cs) && !InBase(base, cs[0].name)
    ensures var base' := MergeOperator(ctx, base, cs[0]);
            && UniqueNames(base')
            && UpdateBase(ctx, base', cs[1..]) == UpdateBase(ctx, base, cs) + [Introduced(ctx, cs[0])]
            && NotInBase(base', cs[1..]) == NotInBase(base, cs[1..])
  {
    var op := cs[0];
    var base' := MergeOperator(ctx, base, op);
    assert base' == base + [Introduced(ctx, op)];
    NewServiceUpdates(ctx, base, cs);
    AppendedUnique(base, Introduced(ctx, op));
    forall c | c in cs[1..] ensures InBase(base', c.name) <==> InBase(base, c.name) {
      OtherName(cs, c);
      AppendedElsewhere(base, Introduced(ctx, op), c.name);
    }
    NotInBaseNames(base', base, cs[1..]);
  }

  lemma AppendedUnique(ss: seq<Service>, s: Service)
    requires UniqueNames(ss) && !InBase(ss, s.name)
    ensures UniqueNames(ss + [s])
  {
  }

  lemma OtherName(cs: seq<Service>, c: Service)
    requires cs != [] && UniqueNames(cs) && c in cs[1..]
    ensures c.name != cs[0].name
  {
    var k :| 0 <= k < |cs[1..]| && cs[1..][k] == c;
    assert cs[k + 1] == c;
  }

  lemma IntroduceFirst(ctx: Context, c: Service, rest: seq<Service>)
    ensures IntroduceAll(ctx, [c] + rest) == [Introduced(ctx, c)] + IntroduceAll(ctx, rest)
  {
    assert ([c] + rest)[1..] == rest;
  }

  lemma FoldStep(ctx: Context, base: seq<Service>, cs: seq<Service>)
    requires cs != [] && UniqueNames(base) && UniqueNames(cs)
    ensures var base' := MergeOperator(ctx, base, cs[0]);
            && UniqueNames(base')
            && UpdateBase(ctx, base', cs[1..]) + IntroduceAll(ctx, NotInBase(base', cs[1..])) ==
               UpdateBase(ctx, base, cs) + IntroduceAll(ctx, NotInBase(base, cs))
  {
    if InBase(base, cs[0].name) {
      KnownService(ctx, base, cs);
    } else {
      NewService(ctx, base, cs);
      var rest := NotInBase(base, cs[1..]);
      IntroduceFirst(ctx, cs[0], rest);
      Associate(UpdateBase(ctx, base, cs), [Introduced(ctx, cs[0])], IntroduceAll(ctx, rest));
    }
  }

  /** The bootstrap path, unrolled over the base: with unique names on both sides every base
      service meets its one CR service, and the others are appended in order. */
  lemma {:induction false} FoldUnrolled(ctx: Context, base: seq<Service>, cs: seq<Service>)
    requires UniqueNames(base) && UniqueNames(cs)
    ensures MergeOperators(ctx, base, cs) == UpdateBase(ctx, base, cs) + IntroduceAll(ctx, NotInBase(base, cs))
    decreases |cs|
  {
    if cs == [] {
      assert UpdateBase(ctx, base, cs) == base;
    } else {
      FoldStep(ctx, base, cs);
      FoldUnrolled(ctx, MergeOperator(ctx, base, cs[0]), cs[1..]);
    }
  }

  /** The bootstrap path and the reconcile path produce the same services in the same order, with the same
      specs and resources, if and only if they agree on every service of the CRs. The bootstrap path drops invalid
      resources of new services and clears the sizes of externally sized ones; the reconcile path does neither. */
  lemma TwoPathsAgree(ctx: Context, base: seq<Service>, cs: seq<Service>)
    requires UniqueNames(base) && UniqueNames(cs) && Comparable(base, cs)
    ensures Contents(MergeOperators(ctx, base, cs)) == Contents(MergeWithBase(ctx, base, cs)) <==>
            forall c | c in cs :: AgreeOn(ctx, base, c)
  {
    var added := NotInBase(base, cs);
    var u, v := Contents(UpdateBase(ctx, base, cs)), Contents(MergeBase(ctx, base, cs));
    var l, r := Contents(IntroduceAll(ctx, added)), Contents(added);
    FoldUnrolled(ctx, base, cs);
    ContentsSplit(UpdateBase(ctx, base, cs), IntroduceAll(ctx, added));
    ContentsSplit(MergeBase(ctx, base, cs), added);
    BaseAgrees(ctx, base, cs);
    AdditionsAgree(ctx, base, cs);
    assert u + l == v + r <==> u == v && l == r by {
      assert (u + l)[..|u|] == u && (v + r)[..|u|] == v && (u + l)[|u|..] == l && (v + r)[|u|..] == r;
    }
  }

  /** The last of unique services of a name is the one there is. */
  lemma UniqueIsLast(cs: seq<Service>, c: Service)
    requires UniqueNames(cs) && c in cs
    ensures LastNamed(cs, c.name) == Some(c)
  {
    var o := LastNamed(cs, c.name);
    var i :| 0 <= i < |cs| && cs[i] == c;
    var j :| 0 <= j < |cs| && cs[j] == o.value;
  }

  lemma BaseServiceAgrees(ctx: Context, base: seq<Service>, cs: seq<Service>, i: nat)
    requires UniqueNames(base) && Comparable(base, cs) && i < |base|
    ensures ContentOf(UpdateOne(ctx, base[i], cs)) == ContentOf(MergeOneBase(ctx, base[i], cs)) <==>
            match LastNamed(cs, base[i].name) case Some(c) => AgreeOn(ctx, base, c) case None => true
  {
    var o := LastNamed(cs, base[i].name);
    if o.Some? {
      assert IndexOf(base, o.value.name) == i;
      SameMerge(ctx, base[i], o.value);
    }
  }

  lemma BaseAgrees(ctx: Context, base: seq<Service>, cs: seq<Service>)
    requires UniqueNames(base) && UniqueNames(cs) && Comparable(base, cs)
    ensures Contents(UpdateBase(ctx, base, cs)) == Contents(MergeBase(ctx, base, cs)) <==>
            forall c | c in cs && InBase(base, c.name) :: AgreeOn(ctx, base, c)
  {
    var u, v := Contents(UpdateBase(ctx, base, cs)), Contents(MergeBase(ctx, base, cs));
    forall i | 0 <= i < |base|
      ensures u[i] == v[i] <==> match LastNamed(cs, base[i].name) case Some(c) => AgreeOn(ctx, base,
          c) case None => true
    {
      BaseServiceAgrees(ctx, base, cs, i);
    }
    if u == v {
      forall c | c in cs && InBase(base, c.name) ensures AgreeOn(ctx, base, c) {
        UniqueIsLast(cs, c);
        assert u[IndexOf(base, c.name)] == v[IndexOf(base, c.name)];
      }
    }
    if forall c | c in cs && InBase(base, c.name) :: AgreeOn(ctx, base, c) {
      forall i | 0 <= i < |base| ensures u[i] == v[i] {
        var o := LastNamed(cs, base[i].name);
        assert o.Some? ==> InBase(base, o.value.name);
      }
      assert u == v;
    }
  }

  lemma {:induction false} NotInBaseMembers(base: seq<Service>, cs: seq<Service>)
    ensures forall c :: c in NotInBase(base, cs) <==> c in cs && !InBase(base, c.name)
  {
    if cs != [] {
      NotInBaseMembers(base, cs[1..]);
      assert forall c :: c in cs <==> c == cs[0] || c in cs[1..];
    }
  }

  lemma AdditionsAgree(ctx: Context, base: seq<Service>, cs: seq<Service>)
    requires Comparable(base, cs)
    ensures var added := NotInBase(base, cs);
            Contents(IntroduceAll(ctx, added)) == Contents(added) <==> forall c | c in cs && !InBase(base, c.name) ::
              AgreeOn(ctx, base, c)
  {
    var added := NotInBase(base, cs);
    var l, r := Contents(IntroduceAll(ctx, added)), Contents(added);
    NotInBaseMembers(base, cs);
    forall i | 0 <= i < |added| ensures l[i] == r[i] <==> AgreeOn(ctx, base, added[i]) {
      assert added[i] in added;
      SameIntroduction(ctx, added[i]);
    }
    if l == r {
      forall c | c in cs && !InBase(base, c.name) ensures AgreeOn(ctx, base, c) {
        assert c in added;
        var i :| 0 <= i < |added| && added[i] == c;
        assert l[i] == r[i];
      }
    }
    if forall c | c in cs && !InBase(base, c.name) :: AgreeOn(ctx, base, c) {
      assert forall i | 0 <= i < |added| :: added[i] in added;
      assert l == r;
    }
  }

  /** An input on which the two paths part: a new service with a resource that has no name. */
  lemma UnnamedResourceParts(ctx: Context)
    ensures var cs := [Service("zen", None, Some([Obj(map[])]), map[])];
            Contents(MergeOperators(ctx, [], cs)) != Contents(MergeWithBase(ctx, [], cs))
  {
    var c := Service("zen", None, Some([Obj(map[])]), map[]);
    assert !Named(c.resources.value[0]);
    assert c in [c] && !InBase([], c.name) && c.resources.value[0] in GetOr(c.resources, []);
    TwoPathsAgree(ctx, [], [c]);
  }

  /** Another one: a service that an external controller sizes, and that sets a size the base does not have. */
  lemma ClearedSizeParts(ctx: Context, cpu: string)
    requires External(ctx, "zen") && RuleFor(ctx.rules, "zen", "zenService") == Obj(map["cpu" := Str("LARGEST_VALUE")])
    ensures var cs := [Service("zen", Some(map["zenService" := Obj(map["cpu" := Str(cpu)])]), None, map[])];
            Contents(MergeOperators(ctx, [], cs)) != Contents(MergeWithBase(ctx, [], cs))
  {
    var t, rules := Obj(map["cpu" := Str(cpu)]), map["cpu" := Str("LARGEST_VALUE")];
    var c := Service("zen", Some(map["zenService" := t]), None, map[]);
    assert "cpu" in t.fields && Deletes("cpu", t.fields["cpu"], Get(rules, "cpu"));
    MootOverNothing(ctx.q, t, rules);
    assert "zenService" in GetOr(c.spec, map[]) && !CrMoot(ctx, "zen", "zenService", map[], c.spec.value["zenService"]);
    assert c in [c] && !AgreeOn(ctx, [], c);
    TwoPathsAgree(ctx, [], [c]);
  }
}
