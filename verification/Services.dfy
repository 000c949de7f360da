/** Folding the services of CommonService CRs into a summary, entry by entry. */
module Services {
  import opened Sequences
  import opened Trees
  import opened ResourceComparison
  import opened Merging
  import opened Resources
  import opened Resetting
  import opened Wrappers
  import MergeEngine

  /** One entry of an OperandConfig or of a CommonService CR. `extra` holds its other fields. */
  datatype Service = Service(name: string, spec: Option<Fields>, resources: Option<seq<Json>>, extra: Fields)

  /** The merge rules of one service: a rule tree per custom resource. */
  datatype RuleItem = RuleItem(name: string, spec: map<string, Fields>)

  /** What the merges of services depend on besides the services. */
  datatype Context = Context(q: Quantities, rules: seq<RuleItem>, controllers: map<string, string>, opconNs: string)

  /** The rule tree of a custom resource, or null. The first entry of the service's name counts. */
  function RuleFor(rules: seq<RuleItem>, name: string, cr: string): Json {
    if rules == [] then Null
    else if rules[0].name == name then (if cr in rules[0].spec then Obj(rules[0].spec[cr]) else Null)
    else RuleFor(rules[1..], name, cr)
  }

  /** The position of the first entry of the service's name, or the length. */
  function RuleIndex(rules: seq<RuleItem>, name: string): (i: nat)
    ensures i <= |rules| && (i < |rules| ==> rules[i].name == name)
    ensures forall j | 0 <= j < i :: rules[j].name != name
  {
    if rules == [] || rules[0].name == name then 0 else 1 + RuleIndex(rules[1..], name)
  }

  /** That entry has rules for the custom resource. */
  predicate Covered(rules: seq<RuleItem>, name: string, cr: string) {
    var i := RuleIndex(rules, name);
    i < |rules| && cr in rules[i].spec
  }

  lemma {:induction false} RuleIsFirst(rules: seq<RuleItem>, name: string, cr: string)
    ensures RuleFor(rules, name, cr) ==
            if Covered(rules, name, cr) then Obj(rules[RuleIndex(rules, name)].spec[cr]) else Null
  {
    if rules != [] {
      RuleIsFirst(rules[1..], name, cr);
    }
  }

  /** A tree read as a map; null and absent read as empty. */
  function AsMap(t: Json): Fields {
    if t.Obj? then t.fields else map[]
  }

  /** Custom resources with rules are merged by size, the others deeply. */
  function PolicyFor(ctx: Context, name: string, cr: string): Policy {
    if RuleFor(ctx.rules, name, cr).Null? then UserWins else LargestWins(ctx.q)
  }

  function ControllerOf(controllers: map<string, string>, name: string): string {
    if name in controllers then controllers[name]
    else if "profileController" in controllers then controllers["profileController"]
    else ""
  }

  predicate External(ctx: Context, name: string) {
    ControllerOf(ctx.controllers, name) in EXTERNAL_CONTROLLERS
  }

  /** A service's own controller decides whether it is sized externally; without one the controller of all services
      does, and without either it is not. */
  lemma ExternalIff(ctx: Context, name: string)
    ensures name in ctx.controllers ==> (External(ctx, name) <==> ctx.controllers[name] in EXTERNAL_CONTROLLERS)
    ensures name !in ctx.controllers && "profileController" in ctx.controllers ==>
            (External(ctx, name) <==> ctx.controllers["profileController"] in EXTERNAL_CONTROLLERS)
    ensures name !in ctx.controllers && "profileController" !in ctx.controllers ==> !External(ctx, name)
  {
  }

  /** What a CR contributes to one custom resource: externally sized services lose their sizes. */
  function Contribution(ctx: Context, name: string, cr: string, t: Json): Fields {
    if External(ctx, name) && t.Obj? then Reset(t, AsMap(RuleFor(ctx.rules, name, cr))).fields else AsMap(t)
  }

  /** The spec of a service with the spec of a CR merged over it. */
  function MergeSpec(ctx: Context, name: string, base: Fields, spec: Fields): Fields {
    base + map cr | cr in spec :: Obj(MergedCr(ctx, name, cr, AsMap(Get(base, cr)), spec[cr]))
  }

  function MergedCr(ctx: Context, name: string, cr: string, size: Fields, t: Json): Fields {
    Merge(PolicyFor(ctx, name, cr), size, Contribution(ctx, name, cr, t))
  }

  /** Merging one custom resource runs without panic. */
  predicate CrDefined(ctx: Context, name: string, cr: string, size: Fields, t: Json) {
    t.Obj? && MergeObjDefined(PolicyFor(ctx, name, cr), Obj(size), Obj(Contribution(ctx, name, cr, t)))
  }

  ghost predicate SpecDefined(ctx: Context, name: string, base: Fields, spec: Fields) {
    forall cr | cr in spec :: CrDefined(ctx, name, cr, AsMap(Get(base, cr)), spec[cr])
  }

  function MergeResourcesOf(ctx: Context, name: string, base: seq<Json>, cs: seq<Json>): seq<Json> {
    MergeArrays(ctx.q, base, cs, ctx.opconNs, ControllerOf(ctx.controllers, name))
  }

  /** A service of the summary, about to be merged: a missing spec is created, or else missing
      resources are. */
  function Prepared(cur: Service): Service {
    if cur.spec.None? then cur.(spec := Some(map[]))
    else if cur.resources.None? then cur.(resources := Some([]))
    else cur
  }

  /** A service of the summary after an entry of the CR with its name. */
  function Updated(ctx: Context, cur: Service, op: Service): Service {
    var p := Prepared(cur);
    p.(spec := if op.spec.Some? then Some(MergeSpec(ctx, op.name, p.spec.value, op.spec.value)) else p.spec,
       resources := if op.resources.Some? || p.resources.Some?
                    then Some(MergeResourcesOf(ctx, op.name, GetOr(p.resources, []), GetOr(op.resources, [])))
                    else None)
  }

  /** A service the summary did not have. */
  function Introduced(ctx: Context, op: Service): Service {
    Service(op.name,
            if op.spec.Some? then Some(MergeSpec(ctx, op.name, map[], op.spec.value)) else None,
            Some(MergeResourcesOf(ctx, op.name, [], GetOr(op.resources, []))),
            map[])
  }

  /** The position of the first service called `name`, or the length. */
  function IndexOf(ss: seq<Service>, name: string): (i: nat)
    ensures i <= |ss|
    ensures i < |ss| ==> ss[i].name == name
    ensures forall j | 0 <= j < i :: ss[j].name != name
  {
    if ss == [] then 0 else if ss[0].name == name then 0 else 1 + IndexOf(ss[1..], name)
  }

  function MergeOperator(ctx: Context, summary: seq<Service>, op: Service): seq<Service> {
    var i := IndexOf(summary, op.name);
    if i < |summary| then summary[i := Updated(ctx, summary[i], op)] else summary + [Introduced(ctx, op)]
  }

  /** All entries of a CR, in order. */
  function MergeOperators(ctx: Context, summary: seq<Service>, ops: seq<Service>): seq<Service>
    decreases |ops|
  {
    if ops == [] then summary else MergeOperators(ctx, MergeOperator(ctx, summary, ops[0]), ops[1..])
  }

  /** The specs of a CR are maps of maps, as the code asserts; in a summary a null stands for none. */
  predicate SpecIsMaps(s: Service) {
    s.spec.Some? ==> forall cr | cr in s.spec.value :: s.spec.value[cr].Obj?
  }

  predicate SpecIsMapsOrNull(s: Service) {
    s.spec.Some? ==> forall cr | cr in s.spec.value :: s.spec.value[cr].Obj? || s.spec.value[cr].Null?
  }

  /** One entry can be merged into the summary without panic. */
  ghost predicate OperatorDefined(ctx: Context, summary: seq<Service>, op: Service) {
    var i := IndexOf(summary, op.name);
    var base := if i < |summary| then GetOr(summary[i].spec, map[]) else map[];
    var resources := if i < |summary| then GetOr(summary[i].resources, []) else [];
    && (op.spec.Some? ==> SpecDefined(ctx, op.name, base, op.spec.value))
    && ArraysDefined(ctx.q, resources, GetOr(op.resources, []), ctx.opconNs)
  }

  ghost predicate OperatorsDefined(ctx: Context, summary: seq<Service>, ops: seq<Service>)
    decreases |ops|
  {
    ops == [] || (OperatorDefined(ctx, summary, ops[0]) &&
                  OperatorsDefined(ctx, MergeOperator(ctx, summary, ops[0]), ops[1..]))
  }

  method MergeCr(ctx: Context, name: string, cr: string, sizeForCr: Fields, t: Json) returns (merged: Fields)
    requires CrDefined(ctx, name, cr, sizeForCr, t)
    ensures merged == MergedCr(ctx, name, cr, sizeForCr, t)
  {
    var rule := RuleFor(ctx.rules, name, cr);
    var contribution := t.fields;
    if External(ctx, name) {
      contribution := MergeEngine.ResetResourceInTemplate(t.fields, AsMap(rule));
    }
    if !rule.Null? {
      merged := MergeEngine.MergeCRsIntoOperandConfig(ctx.q, sizeForCr, contribution, AsMap(rule));
    } else {
      merged := MergeEngine.MergeSizeProfile(sizeForCr, contribution);
    }
  }

  /** `base` on the keys still to be visited, `goal` on the others. */
  ghost function Visited(goal: Fields, base: Fields, todo: set<string>): Fields {
    map k | k in goal && (k in base || k !in todo) :: if k in todo then base[k] else goal[k]
  }

  lemma VisitOne(goal: Fields, base: Fields, todo: set<string>, k: string)
    requires k in todo && k in goal
    ensures Visited(goal, base, todo - {k}) == Visited(goal, base, todo)[k := goal[k]]
    ensures base.Keys <= goal.Keys ==> Get(Visited(goal, base, todo), k) == Get(base, k)
  {
  }

  lemma NextCr(ctx: Context, name: string, base: Fields, spec: Fields, cr: string)
    requires cr in spec
    ensures cr in MergeSpec(ctx, name, base, spec)
    ensures MergeSpec(ctx, name, base, spec)[cr] == Obj(MergedCr(ctx, name, cr, AsMap(Get(base, cr)), spec[cr]))
    ensures base.Keys <= MergeSpec(ctx, name, base, spec).Keys
  {
  }

  method MergeSpecs(ctx: Context, name: string, base: Fields, spec: Fields) returns (merged: Fields)
    requires SpecDefined(ctx, name, base, spec)
    ensures merged == MergeSpec(ctx, name, base, spec)
  {
    merged := base;
    ghost var goal := MergeSpec(ctx, name, base, spec);
    var todo := spec.Keys;
    assert merged == Visited(goal, base, todo);
    while todo != {}
      invariant todo <= spec.Keys
      invariant merged == Visited(goal, base, todo)
    {
      var cr :| cr in todo;
      VisitOne(goal, base, todo, cr);
      NextCr(ctx, name, base, spec, cr);
      var m := MergeCr(ctx, name, cr, AsMap(Get(merged, cr)), spec[cr]);
      merged := merged[cr := Obj(m)];
      todo := todo - {cr};
    }
    assert Visited(goal, base, {}) == goal;
  }

  /** The first service called `name` with its spec replaced, or such a service appended. */
  function WithSpec(ss: seq<Service>, name: string, spec: Fields): seq<Service> {
    var i := IndexOf(ss, name);
    if i < |ss| then ss[i := ss[i].(spec := Some(spec))] else ss + [Service(name, Some(spec), None, map[])]
  }

  function WithResources(ss: seq<Service>, name: string, resources: seq<Json>): seq<Service> {
    var i := IndexOf(ss, name);
    if i < |ss| then ss[i := ss[i].(resources := Some(resources))]
      else ss + [Service(name, None, Some(resources), map[])]
  }

  /** The first service called `name`. */
  function FirstNamed(ss: seq<Service>, name: string): Option<Service> {
    if IndexOf(ss, name) < |ss| then Some(ss[IndexOf(ss, name)]) else None
  }

  /** `after` differs from `before` in the first service called `name` only, or in a service of that name at
      the end. */
  ghost predicate OnlyNamed(before: seq<Service>, after: seq<Service>, name: string) {
    && (forall other: string | other != name :: FirstNamed(after, other) == FirstNamed(before, other))
    && |before| <= |after| && (|before| < |after| <==> FirstNamed(before, name).None?)
    && forall i | 0 <= i < |before| ::
         after[i].name == before[i].name && (i != IndexOf(before, name) ==> after[i] == before[i])
  }

  lemma Replaced(before: seq<Service>, s: Service)
    requires IndexOf(before, s.name) < |before|
    ensures var after := before[IndexOf(before, s.name) := s];
            OnlyNamed(before, after, s.name) && FirstNamed(after, s.name) == Some(s)
  {
    var after := before[IndexOf(before, s.name) := s];
    forall other: string ensures IndexOf(after, other) == IndexOf(before, other) {
      SameIndex(before, after, other);
    }
  }

  lemma Appended(before: seq<Service>, s: Service)
    requires IndexOf(before, s.name) == |before|
    ensures OnlyNamed(before, before + [s], s.name) && FirstNamed(before + [s], s.name) == Some(s)
  {
    forall other: string | other != s.name ensures FirstNamed(before + [s], other) == FirstNamed(before, other) {
      AppendedElsewhere(before, s, other);
    }
    AppendedElsewhere(before, s, s.name);
  }

  lemma ReplacedOrAppended(before: seq<Service>, after: seq<Service>, s: Service)
    requires var i := IndexOf(before, s.name); after == if i < |before| then before[i := s] else before + [s]
    ensures OnlyNamed(before, after, s.name) && FirstNamed(after, s.name) == Some(s)
  {
    if IndexOf(before, s.name) < |before| {
      Replaced(before, s);
    } else {
      Appended(before, s);
    }
  }

  /** What is stored is found again: the spec under its name, with what else the service had, and nothing else
      is disturbed. */
  lemma SpecIsStored(ss: seq<Service>, name: string, spec: Fields)
    ensures var s, r := FirstNamed(WithSpec(ss, name, spec), name), FirstNamed(ss, name);
            s.Some? && s.value.spec == Some(spec) &&
            s.value.resources == (if r.Some? then r.value.resources else None) &&
              s.value.extra == (if r.Some? then r.value.extra else map[])
    ensures OnlyNamed(ss, WithSpec(ss, name, spec), name)
  {
    var i := IndexOf(ss, name);
    ReplacedOrAppended(ss, WithSpec(ss, name, spec), if i < |ss| then ss[i].(spec := Some(spec))
                       else Service(name, Some(spec), None, map[]));
  }

  /** The same for resources. */
  lemma ResourcesAreStored(ss: seq<Service>, name: string, resources: seq<Json>)
    ensures var s, r := FirstNamed(WithResources(ss, name, resources), name), FirstNamed(ss, name);
            s.Some? && s.value.resources == Some(resources) &&
            s.value.spec == (if r.Some? then r.value.spec else None) &&
              s.value.extra == (if r.Some? then r.value.extra else map[])
    ensures OnlyNamed(ss, WithResources(ss, name, resources), name)
  {
    var i := IndexOf(ss, name);
    ReplacedOrAppended(ss, WithResources(ss, name, resources),
                       if i < |ss| then ss[i].(resources := Some(resources))
                         else Service(name, None, Some(resources), map[]));
  }

  /** A service with a spec and resources stored one after the other, where there are any. */
  function Stored(s: Service, spec: Option<Fields>, resources: Option<seq<Json>>): Service {
    s.(spec := if spec.Some? then spec else s.spec, resources := if resources.Some? then resources else s.resources)
  }

  lemma StoredAtIndex(ss: seq<Service>, name: string, spec: Option<Fields>, resources: Option<seq<Json>>)
    ensures var i := IndexOf(ss, name);
            var mid := if spec.Some? then WithSpec(ss, name, spec.value) else ss;
            (if resources.Some? then WithResources(mid, name, resources.value) else mid) ==
            if i < |ss| then ss[i := Stored(ss[i], spec, resources)]
            else if spec.Some? || resources.Some? then ss + [Service(name, spec, resources, map[])] else ss
  {
    var i := IndexOf(ss, name);
    var mid := if spec.Some? then WithSpec(ss, name, spec.value) else ss;
    if i < |ss| {
      SameIndex(ss, mid, name);
    } else if spec.Some? {
      AppendedElsewhere(ss, Service(name, spec, None, map[]), name);
    }
  }

  /** What an entry of the CR contributes to the entry `s` of the summary. */
  function SpecToStore(ctx: Context, s: Service, op: Service): Option<Fields> {
    if op.spec.Some? then Some(MergeSpec(ctx, op.name, GetOr(s.spec, map[]), op.spec.value)) else None
  }

  function ResourcesToStore(ctx: Context, s: Service, op: Service): Option<seq<Json>> {
    if op.resources.Some? || s.resources.Some?
    then Some(MergeResourcesOf(ctx, op.name, GetOr(s.resources, []), GetOr(op.resources, []))) else None
  }

  /** An entry of a CR reaches only the summary's service of its name. That keeps its other fields and gets a spec, and
      resources unless it had neither spec nor resources; a new service gets resources in any case, a spec only from the
      entry, and nothing else. */
  lemma EntryReachesOne(ctx: Context, ss: seq<Service>, op: Service)
    ensures OnlyNamed(ss, MergeOperator(ctx, ss, op), op.name)
    ensures var s, r := FirstNamed(MergeOperator(ctx, ss, op), op.name), FirstNamed(ss, op.name);
            && s.Some? && s.value.extra == (if r.Some? then r.value.extra else map[])
            && (s.value.spec.Some? <==> r.Some? || op.spec.Some?)
            && (s.value.resources.Some? <==>
                op.resources.Some? || r.None? || r.value.spec.Some? || r.value.resources.Some?)
  {
    var i := IndexOf(ss, op.name);
    ReplacedOrAppended(ss, MergeOperator(ctx, ss, op), if i < |ss| then Updated(ctx, ss[i], op)
                       else Introduced(ctx, op));
  }

  /** Storing the spec and the resources one after the other merges the entry. */
  lemma StoredBoth(ctx: Context, before: seq<Service>, prepared: seq<Service>, s: Service, op: Service)
    requires var i := IndexOf(before, op.name);
             if i < |before| then s == Prepared(before[i]) && prepared == before[i := s]
             else s == Service(op.name, Some(map[]), Some([]), map[]) && prepared == before
    ensures IndexOf(prepared, op.name) == IndexOf(before, op.name)
    ensures var i := IndexOf(before, op.name);
            var spec, resources := SpecToStore(ctx, s, op), ResourcesToStore(ctx, s, op);
            MergeOperator(ctx, before, op) ==
            if i < |before| then prepared[i := Stored(s, spec, resources)]
              else before + [Service(op.name, spec, resources, map[])]
  {
    var i := IndexOf(before, op.name);
    SameIndex(before, prepared, op.name);
    if i < |before| {
      assert Updated(ctx, before[i], op) == Stored(s, SpecToStore(ctx, s, op), ResourcesToStore(ctx, s, op));
    }
  }

  /** The summary that CR after CR is folded into. */
  class Summary {
    var services: seq<Service>

    constructor (initial: seq<Service>)
      ensures services == initial
    {
      services := initial;
    }

    method SetSpecByName(name: string, spec: Fields)
      modifies this
      ensures services == WithSpec(old(services), name, spec)
    {
      for i := 0 to |services|
        invariant services == old(services)
        invariant forall j | 0 <= j < i :: services[j].name != name
      {
        if services[i].name == name {
          services := services[i := services[i].(spec := Some(spec))];
          return;
        }
      }
      services := services + [Service(name, Some(spec), None, map[])];
    }

    method SetResByName(name: string, resources: seq<Json>)
      modifies this
      ensures services == WithResources(old(services), name, resources)
    {
      for i := 0 to |services|
        invariant services == old(services)
        invariant forall j | 0 <= j < i :: services[j].name != name
      {
        if services[i].name == name {
          services := services[i := services[i].(resources := Some(resources))];
          return;
        }
      }
      services := services + [Service(name, None, Some(resources), map[])];
    }

    /** Finds the summary's entry for a service, creating in place what it lacks; a service the
        summary does not have starts empty outside of it. */
    method SummaryFor(name: string) returns (summaryCR: Service)
      modifies this
      ensures var i := IndexOf(old(services), name);
              if i < |old(services)| then summaryCR == Prepared(old(services)[i]) &&
                services == old(services)[i := summaryCR]
              else summaryCR == Service(name, Some(map[]), Some([]), map[]) && services == old(services)
    {
      var i := IndexOf(services, name);
      summaryCR := Service(name, Some(map[]), Some([]), map[]);
      if i < |services| {
        if services[i].spec.None? {
          services := services[i := services[i].(spec := Some(map[]))];
        } else if services[i].resources.None? {
          services := services[i := services[i].(resources := Some([]))];
        }
        summaryCR := services[i];
      }
    }

    /** Merges the spec of an entry, if it has one, and stores the result. */
    method StoreSpec(ctx: Context, op: Service, summaryCR: Service)
      requires summaryCR.spec.Some? &&
               (op.spec.Some? ==> SpecDefined(ctx, op.name, summaryCR.spec.value, op.spec.value))
      modifies this
      ensures var spec := SpecToStore(ctx, summaryCR, op);
              services == if spec.Some? then WithSpec(old(services), op.name, spec.value) else old(services)
    {
      if op.spec.Some? {
        var spec := MergeSpecs(ctx, op.name, summaryCR.spec.value, op.spec.value);
        SetSpecByName(op.name, spec);
      }
    }

    /** Merges the resources of an entry, if either side has some, and stores the result. */
    method StoreResources(ctx: Context, op: Service, summaryCR: Service)
      requires ArraysDefined(ctx.q, GetOr(summaryCR.resources, []), GetOr(op.resources, []), ctx.opconNs)
      modifies this
      ensures var resources := ResourcesToStore(ctx, summaryCR, op);
              services == if resources.Some? then WithResources(old(services), op.name, resources.value)
                else old(services)
    {
      if op.resources.Some? || summaryCR.resources.Some? {
        var merged := MergeResourceArrays(ctx.q, GetOr(summaryCR.resources, []), GetOr(op.resources, []), ctx.opconNs,
                                          ControllerOf(ctx.controllers, op.name));
        SetResByName(op.name, merged);
      }
    }

    /** Folds one entry of a CR into the summary. */
    method MergeOne(ctx: Context, op: Service)
      requires OperatorDefined(ctx, services, op)
      modifies this
      ensures services == MergeOperator(ctx, old(services), op)
    {
      ghost var before := services;
      var summaryCR := SummaryFor(op.name);
      ghost var prepared := services;
      StoreSpec(ctx, op, summaryCR);
      StoreResources(ctx, op, summaryCR);
      StoredBoth(ctx, before, prepared, summaryCR, op);
      StoredAtIndex(prepared, op.name, SpecToStore(ctx, summaryCR, op), ResourcesToStore(ctx, summaryCR, op));
    }

    /** Folds a whole CR into the summary. */
    method MergeCSCRs(ctx: Context, csCR: seq<Service>)
      requires OperatorsDefined(ctx, services, csCR)
      modifies this
      ensures services == MergeOperators(ctx, old(services), csCR)
    {
      for i := 0 to |csCR|
        invariant OperatorsDefined(ctx, services, csCR[i..])
        invariant MergeOperators(ctx, services, csCR[i..]) == MergeOperators(ctx, old(services), csCR)
      {
        Suffix(csCR, i);
        MergeOne(ctx, csCR[i]);
      }
    }
  }

  lemma SameIndex(a: seq<Service>, b: seq<Service>, name: string)
    requires |a| == |b| && forall i | 0 <= i < |a| :: a[i].name == b[i].name
    ensures IndexOf(a, name) == IndexOf(b, name)
  {
  }

  lemma AppendedElsewhere(ss: seq<Service>, s: Service, name: string)
    ensures IndexOf(ss + [s], name) == if IndexOf(ss, name) < |ss| || s.name == name then IndexOf(ss, name)
            else |ss| + 1
  {
    var i, j := IndexOf(ss, name), IndexOf(ss + [s], name);
    assert (ss + [s])[|ss|] == s;
    assert forall k | 0 <= k < |ss| :: (ss + [s])[k] == ss[k];
  }
}
