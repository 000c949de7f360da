/** All CommonService CRs: their configurations and controllers, their summary, and the desired state. */
module CrSummaries {
  import opened Sequences
  import opened Trees
  import opened ResourceComparison
  import opened Merging
  import opened Paths
  import opened Resources
  import opened ResourceLaws
  import opened Services
  import opened SteadyState
  import opened OrderIndependence
  import opened ResourceOrder
  import opened Wrappers

  /** What one CR contributes: its services and the controllers it names for them. */
  datatype CrConfig = CrConfig(services: seq<Service>, controllers: map<string, string>)

  /** A CommonService CR of the cluster: whether it is being deleted, its size, and what the two extractions make
      of it. `own` is its size and services at its own size. `full` is features, size and services when the size is
      overridden by the given one. */
  datatype CommonService = CommonService(deleting: bool, size: string, own: Result<CrConfig>,
                                         full: string -> Result<CrConfig>)

  /** The predefined sizes. */
  const SIZE_PRIORITY: map<string, int> := map["starterset" := 0, "starter" := 0, "small" := 1, "medium" := 2,
                                               "large" := 3]

  function Priority(size: string): int {
    if size in SIZE_PRIORITY then SIZE_PRIORITY[size] else -1
  }

  /** The predefined sizes, by name, and their order: the two starter sets come first, alike, then small, medium and
      large. Any other name stays behind. */
  lemma SizesByName(size: string)
    ensures Priority("starterset") == Priority("starter") < Priority("small") < Priority("medium") < Priority("large")
    ensures Priority(size) < Priority("starter") <==>
            size != "starterset" && size != "starter" && size != "small" && size != "medium" && size != "large"
  {
  }

  /** The larger of the sizes of the CRs and `size`; the first one of several. */
  function LargestFrom(size: string, items: seq<CommonService>): string
    decreases |items|
  {
    if items == [] then size
    else LargestFrom(if !items[0].deleting && Priority(items[0].size) > Priority(size) then items[0].size else size,
                     items[1..])
  }

  function LargestSize(items: seq<CommonService>): string {
    if LargestFrom("", items) == "" then "starterset" else LargestFrom("", items)
  }

  /** No CR that is not being deleted has a higher predefined size. */
  ghost predicate NoneLarger(items: seq<CommonService>, size: string) {
    forall i | 0 <= i < |items| && !items[i].deleting :: Priority(items[i].size) <= Priority(size)
  }

  /** The CR at `i` is the first one to have the predefined size `size`, and those before it have lower ones. */
  ghost predicate FirstLargest(items: seq<CommonService>, size: string, i: int) {
    && 0 <= i < |items| && !items[i].deleting && items[i].size == size && size in SIZE_PRIORITY
    && forall j | 0 <= j < i && !items[j].deleting :: Priority(items[j].size) < Priority(size)
  }

  lemma {:induction false} LargestFromIsMaximum(size: string, items: seq<CommonService>)
    ensures var r := LargestFrom(size, items);
            && NoneLarger(items, r) && Priority(size) <= Priority(r)
            && (r == size || (Priority(size) < Priority(r) && exists i :: FirstLargest(items, r, i)))
    decreases |items|
  {
    if items != [] {
      var next := if !items[0].deleting && Priority(items[0].size) > Priority(size) then items[0].size else size;
      var r := LargestFrom(next, items[1..]);
      LargestFromIsMaximum(next, items[1..]);
      assert forall i | 1 <= i < |items| :: items[i] == items[1..][i - 1];
      if r != next {
        var i :| FirstLargest(items[1..], r, i);
        assert FirstLargest(items, r, i + 1);
      } else if next != size {
        assert FirstLargest(items, r, 0);
      }
    }
  }

  /** The size all CRs are scaled to is a predefined one. It is the first of the largest that any of them has, and the
      smallest there is when none has one: custom sizes and names beyond the five do not count. */
  lemma LargestSizeIsMaximum(items: seq<CommonService>)
    ensures var r := LargestSize(items);
            && r in SIZE_PRIORITY && NoneLarger(items, r)
            && if NoneLarger(items, "") then r == "starterset" else exists i :: FirstLargest(items, r, i)
  {
    LargestFromIsMaximum("", items);
  }

  method GetLargestSizeFromCRs(items: seq<CommonService>) returns (largestSize: string)
    ensures largestSize == LargestSize(items)
  {
    largestSize := "";
    var largestPriority := -1;
    assert items[0..] == items;
    for i := 0 to |items|
      invariant largestPriority == Priority(largestSize)
      invariant LargestFrom(largestSize, items[i..]) == LargestFrom("", items)
    {
      Suffix(items, i);
      if items[i].deleting {
        continue;
      }
      var csSize := items[i].size;
      if csSize in SIZE_PRIORITY {
        if SIZE_PRIORITY[csSize] > largestPriority {
          largestPriority, largestSize := SIZE_PRIORITY[csSize], csSize;
        }
      }
    }
    if largestSize == "" {
      return "starterset";
    }
  }

  /** The configurations of the CRs that are not being deleted, all at one size; the first one that cannot be
      extracted is an error. */
  function ActiveConfigs(items: seq<CommonService>, size: string): (r: Result<seq<CrConfig>>)
    ensures r.Ok? <==> forall i | 0 <= i < |items| :: items[i].deleting || items[i].full(size).Ok?
  {
    if items == [] then Ok([])
    else if items[0].deleting then ActiveConfigs(items[1..], size)
    else match items[0].full(size)
      case Err(e) => Err(e)
      case Ok(c) => (match ActiveConfigs(items[1..], size) case Ok(cs) => Ok([c] + cs) case Err(e) => Err(e))
  }

  /** What the CRs that are not being deleted say about services, each at its own size, as far as it can be
      extracted. */
  function ExtractedConfigs(items: seq<CommonService>): seq<CrConfig> {
    if items == [] then []
    else (if items[0].deleting || items[0].own.Err? then [] else [items[0].own.value]) + ExtractedConfigs(items[1..])
  }

  /** Controllers of two CRs: an external controller takes precedence, then the earlier one. */
  function MergeControllers(summary: map<string, string>, added: map<string, string>): map<string, string> {
    map o | o in summary.Keys + added.Keys ::
      if o !in summary then added[o]
      else if o in added && added[o] in EXTERNAL_CONTROLLERS && summary[o] !in EXTERNAL_CONTROLLERS then added[o]
      else summary[o]
  }

  method MergeProfileController(summary: map<string, string>, added: map<string, string>)
    returns (merged: map<string, string>)
    ensures merged == MergeControllers(summary, added)
  {
    merged := summary;
    var todo := added.Keys;
    while todo != {}
      invariant todo <= added.Keys
      invariant merged.Keys == summary.Keys + (added.Keys - todo)
      invariant forall o | o in merged ::
        merged[o] == if o in added && o !in todo then MergeControllers(summary, added)[o] else summary[o]
    {
      var o :| o in todo;
      if o in merged {
        if added[o] in EXTERNAL_CONTROLLERS {
          if merged[o] !in EXTERNAL_CONTROLLERS {
            merged := merged[o := added[o]];
          }
        }
      } else {
        merged := merged[o := added[o]];
      }
      todo := todo - {o};
    }
    assert merged == MergeControllers(summary, added);
  }

  function AllControllers(summary: map<string, string>, crs: seq<CrConfig>): map<string, string>
    decreases |crs|
  {
    if crs == [] then summary else AllControllers(MergeControllers(summary, crs[0].controllers), crs[1..])
  }

  /** Once any CR hands a service to an external controller it stays external. */
  lemma {:induction false} ExternalIsKept(summary: map<string, string>, crs: seq<CrConfig>, o: string)
    ensures var all := AllControllers(summary, crs);
            (o in all && all[o] in EXTERNAL_CONTROLLERS) <==>
            (o in summary && summary[o] in EXTERNAL_CONTROLLERS) ||
            exists i :: 0 <= i < |crs| && o in crs[i].controllers && crs[i].controllers[o] in EXTERNAL_CONTROLLERS
    decreases |crs|
  {
    if crs != [] {
      ExternalIsKept(MergeControllers(summary, crs[0].controllers), crs[1..], o);
      if exists i ::
           0 <= i < |crs[1..]| && o in crs[1..][i].controllers && crs[1..][i].controllers[o] in EXTERNAL_CONTROLLERS {
        var i :| 0 <= i < |crs[1..]| && o in crs[1..][i].controllers &&
          crs[1..][i].controllers[o] in EXTERNAL_CONTROLLERS;
        assert crs[i + 1] == crs[1..][i];
      }
      if exists i :: 0 <= i < |crs| && o in crs[i].controllers && crs[i].controllers[o] in EXTERNAL_CONTROLLERS {
        var i :| 0 <= i < |crs| && o in crs[i].controllers && crs[i].controllers[o] in EXTERNAL_CONTROLLERS;
        if i > 0 { assert crs[1..][i - 1] == crs[i]; }
      }
    }
  }

  /** Some CR names a controller for `o`, or an external one. */
  ghost predicate AnyNames(crs: seq<CrConfig>, o: string) {
    exists i :: 0 <= i < |crs| && o in crs[i].controllers
  }

  ghost predicate AnyExternal(crs: seq<CrConfig>, o: string) {
    exists i :: 0 <= i < |crs| && o in crs[i].controllers && crs[i].controllers[o] in EXTERNAL_CONTROLLERS
  }

  lemma {:induction false} NameIsKept(summary: map<string, string>, crs: seq<CrConfig>, o: string)
    ensures o in AllControllers(summary, crs) <==> o in summary || AnyNames(crs, o)
    decreases |crs|
  {
    if crs != [] {
      NameIsKept(MergeControllers(summary, crs[0].controllers), crs[1..], o);
      if AnyNames(crs[1..], o) {
        var i :| 0 <= i < |crs[1..]| && o in crs[1..][i].controllers;
        assert crs[i + 1] == crs[1..][i];
      }
      if AnyNames(crs, o) {
        var i :| 0 <= i < |crs| && o in crs[i].controllers;
        if i > 0 { assert crs[1..][i - 1] == crs[i]; }
      }
    }
  }

  /** The CRs hand a service to an external controller: one of them does so for the service itself, or, when none
      names a controller for it, one does so for all services. */
  ghost predicate SizedExternally(crs: seq<CrConfig>, name: string) {
    if AnyNames(crs, name) then AnyExternal(crs, name) else AnyExternal(crs, "profileController")
  }

  /** With the controllers of all CRs a service is sized externally exactly when the CRs hand it over. */
  lemma ExternalOverCrs(ctx: Context, crs: seq<CrConfig>, name: string)
    requires ctx.controllers == AllControllers(map[], crs)
    ensures External(ctx, name) <==> SizedExternally(crs, name)
  {
    ExternalIff(ctx, name);
    NameIsKept(map[], crs, name);
    ExternalIsKept(map[], crs, name);
    ExternalIsKept(map[], crs, "profileController");
  }

  /** A resource of the summary that meets one of a CR: its CPU limit is cleared exactly when the CRs hand the service
      to an external controller. */
  lemma LimitsOfService(ctx: Context, crs: seq<CrConfig>, name: string, base: seq<Json>, cs: seq<Json>, i: nat)
    requires ctx.controllers == AllControllers(map[], crs) && i in Partners(base, cs, ctx.opconNs)
    ensures i < |MergeResourcesOf(ctx, name, base, cs)|
    ensures var t := MergeResourcesOf(ctx, name, base, cs)[i];
            if SizedExternally(crs, name) then Limits(t).Obj? ==> Field(Limits(t), "cpu") == Cleared
            else t == Combine(ctx.q, base[i], cs[Partners(base, cs, ctx.opconNs)[i]], "default")
  {
    var controller := ControllerOf(ctx.controllers, name);
    var r := cs[Partners(base, cs, ctx.opconNs)[i]];
    ExternalOverCrs(ctx, crs, name);
    MergedInPlace(ctx.q, base, cs, ctx.opconNs, controller, i);
    if SizedExternally(crs, name) {
      ExternalLimitsCleared(ctx.q, base[i], r, controller);
    } else {
      ExternalByName("default");
    }
  }

  /** The controller a map names for a service, if any. */
  function NamedIn(controllers: map<string, string>, o: string): seq<string> {
    if o in controllers then [controllers[o]] else []
  }

  /** The controllers the CRs name for a service, in order. */
  function NamedFor(o: string, crs: seq<CrConfig>): seq<string> {
    if crs == [] then [] else NamedIn(crs[0].controllers, o) + NamedFor(o, crs[1..])
  }

  function FirstExternal(names: seq<string>): Option<string> {
    if names == [] then None
    else if names[0] in EXTERNAL_CONTROLLERS then Some(names[0])
    else FirstExternal(names[1..])
  }

  /** The first external controller of a list, or else its first. */
  function Chosen(names: seq<string>): seq<string> {
    if FirstExternal(names).Some? then [FirstExternal(names).value]
    else if names == [] then []
    else [names[0]]
  }

  lemma {:induction false} FirstExternalSplit(a: seq<string>, b: seq<string>)
    ensures FirstExternal(a + b) == if FirstExternal(a).Some? then FirstExternal(a) else FirstExternal(b)
    ensures FirstExternal(a).Some? ==> FirstExternal(a).value in EXTERNAL_CONTROLLERS
  {
    if a == [] {
      assert a + b == b;
    } else {
      HeadOfConcat(a, b);
      FirstExternalSplit(a[1..], b);
    }
  }

  lemma ChosenFirst(names: seq<string>, rest: seq<string>)
    ensures Chosen(names + rest) == Chosen(Chosen(names) + rest)
  {
    FirstExternalSplit(names, rest);
    FirstExternalSplit(Chosen(names), rest);
  }

  lemma ChosenIn(controllers: map<string, string>, o: string)
    ensures Chosen(NamedIn(controllers, o)) == NamedIn(controllers, o)
  {
    var names := NamedIn(controllers, o);
    assert FirstExternal([]) == None;
    assert names == [] || names[1..] == [];
    assert FirstExternal(names) == if names != [] && names[0] in EXTERNAL_CONTROLLERS then Some(names[0]) else None;
    assert names == [] || names == [names[0]];
  }

  lemma MergedIsChosen(summary: map<string, string>, added: map<string, string>, o: string)
    ensures NamedIn(MergeControllers(summary, added), o) == Chosen(NamedIn(summary, o) + NamedIn(added, o))
  {
    FirstExternalSplit(NamedIn(summary, o), NamedIn(added, o));
    ChosenIn(summary, o);
    ChosenIn(added, o);
    if o !in summary {
      assert NamedIn(summary, o) + NamedIn(added, o) == NamedIn(added, o);
    } else if o !in added {
      assert NamedIn(summary, o) + NamedIn(added, o) == NamedIn(summary, o);
    }
  }

  /** The controller of a service is the first external one that any CR names for it; without one, the
      first CR to name a controller decides. */
  lemma {:induction false} ControllerIsChosen(summary: map<string, string>, crs: seq<CrConfig>, o: string)
    ensures NamedIn(AllControllers(summary, crs), o) == Chosen(NamedIn(summary, o) + NamedFor(o, crs))
    decreases |crs|
  {
    if crs == [] {
      ChosenIn(summary, o);
      assert NamedIn(summary, o) + [] == NamedIn(summary, o);
    } else {
      var known, added, rest := NamedIn(summary, o), NamedIn(crs[0].controllers, o), NamedFor(o, crs[1..]);
      MergedIsChosen(summary, crs[0].controllers, o);
      ControllerIsChosen(MergeControllers(summary, crs[0].controllers), crs[1..], o);
      Associate(known, added, rest);
      ChosenFirst(known + added, rest);
    }
  }

  /** All entries of all CRs, one after the other. */
  function Flatten(crs: seq<CrConfig>): seq<Service> {
    if crs == [] then [] else crs[0].services + Flatten(crs[1..])
  }

  lemma {:induction false} FlattenMembers(crs: seq<CrConfig>, op: Service)
    ensures op in Flatten(crs) <==> exists c :: c in crs && op in c.services
  {
    if crs != [] {
      FlattenMembers(crs[1..], op);
      assert forall c | c in crs :: c == crs[0] || c in crs[1..];
    }
  }

  /** The CRs folded into a summary, with the controllers of all of them. */
  function Summarize(ctx: Context, summary: seq<Service>, crs: seq<CrConfig>): seq<Service>
    decreases |crs|
  {
    if crs == [] then summary else Summarize(ctx, MergeOperators(ctx, summary, crs[0].services), crs[1..])
  }

  lemma {:induction false} OperatorsSplit(ctx: Context, ss: seq<Service>, a: seq<Service>, b: seq<Service>)
    ensures MergeOperators(ctx, ss, a + b) == MergeOperators(ctx, MergeOperators(ctx, ss, a), b)
    decreases |a|
  {
    if a == [] {
      assert a + b == b;
    } else {
      HeadOfConcat(a, b);
      OperatorsSplit(ctx, MergeOperator(ctx, ss, a[0]), a[1..], b);
    }
  }

  lemma {:induction false} SummaryIsFold(ctx: Context, ss: seq<Service>, crs: seq<CrConfig>)
    ensures Summarize(ctx, ss, crs) == MergeOperators(ctx, ss, Flatten(crs))
    decreases |crs|
  {
    if crs != [] {
      OperatorsSplit(ctx, ss, crs[0].services, Flatten(crs[1..]));
      SummaryIsFold(ctx, MergeOperators(ctx, ss, crs[0].services), crs[1..]);
    }
  }

  /** The code folds the CRs in the random order of a Go map. Every order gives the same size at every
      rule-covered custom resource, and it is the largest one any CR sets. */
  lemma SummaryOrderIrrelevant(ctx: Context, crs: seq<CrConfig>, crs': seq<CrConfig>, name: string, cr: string,
                               p: seq<Step>)
    requires multiset(crs) == multiset(crs')
    requires !RuleFor(ctx.rules, name, cr).Null?
    requires p != [] && p[0].Key? && LeafKey("", p) in COMPARABLE_KEYS
    requires CrOnPath(ctx, Flatten(crs), name, cr, p)
    requires OnOneScale(ctx.q, SetValues(CrLeaves(ctx, Flatten(crs), name, cr, p)))
    ensures var r := Find(Obj(CrAt(Summarize(ctx, [], crs), name, cr)), p);
            var vs := SetValues(CrLeaves(ctx, Flatten(crs), name, cr, p));
            && Rank(ctx.q, r) == Rank(ctx.q, Find(Obj(CrAt(Summarize(ctx, [], crs'), name, cr)), p))
            && if vs == [] then r.Null? else IsLargest(ctx.q, r, vs)
  {
    SameEntries(crs, crs');
    SummaryIsFold(ctx, [], crs);
    SummaryIsFold(ctx, [], crs');
    SpecOrderIrrelevant(ctx, Flatten(crs), Flatten(crs'), name, cr, p);
  }

  /** The same for the resources of a service. */
  lemma SummaryResourceOrderIrrelevant(ctx: Context, crs: seq<CrConfig>, crs': seq<CrConfig>, name: string,
                                       id: Identity, p: seq<Step>)
    requires multiset(crs) == multiset(crs')
    requires Untouched(p, ControllerOf(ctx.controllers, name)) && LeafKey("", p) in COMPARABLE_KEYS
    requires ResourcesOnPath(Flatten(crs), name, id, ctx.opconNs, p)
    requires OnOneScale(ctx.q, SetValues(ResourceLeaves(Flatten(crs), name, id, ctx.opconNs, p)))
    ensures var r := Find(ResourceAt(ResourcesAt(Summarize(ctx, [], crs), name), id, ctx.opconNs), p);
            var vs := SetValues(ResourceLeaves(Flatten(crs), name, id, ctx.opconNs, p));
            && Rank(ctx.q, r) ==
               Rank(ctx.q, Find(ResourceAt(ResourcesAt(Summarize(ctx, [], crs'), name), id, ctx.opconNs), p))
            && if vs == [] then r.Null? else IsLargest(ctx.q, r, vs)
  {
    SameEntries(crs, crs');
    SummaryIsFold(ctx, [], crs);
    SummaryIsFold(ctx, [], crs');
    ResourceOrderIrrelevant(ctx, Flatten(crs), Flatten(crs'), name, id, p);
  }

  lemma SameEntries(crs: seq<CrConfig>, crs': seq<CrConfig>)
    requires multiset(crs) == multiset(crs')
    ensures forall op :: op in Flatten(crs) <==> op in Flatten(crs')
  {
    assert forall c :: c in crs <==> c in multiset(crs);
    assert forall c :: c in crs' <==> c in multiset(crs');
    forall op ensures op in Flatten(crs) <==> op in Flatten(crs') {
      FlattenMembers(crs, op);
      FlattenMembers(crs', op);
    }
  }

  /** The desired state: CR after CR, each with the controllers known so far. */
  function DesiredState(ctx: Context, summary: seq<Service>, crs: seq<CrConfig>): seq<Service>
    decreases |crs|
  {
    if crs == [] then summary
    else
      var ctx' := ctx.(controllers := MergeControllers(ctx.controllers, crs[0].controllers));
      DesiredState(ctx', MergeOperators(ctx', summary, crs[0].services), crs[1..])
  }

  function Names(ss: seq<Service>): (r: seq<string>)
    ensures |r| == |ss|
    ensures forall i | 0 <= i < |ss| :: r[i] == ss[i].name
  {
    if ss == [] then [] else [ss[0].name] + Names(ss[1..])
  }

  /** The names not known before, in the order of their first occurrence. */
  function NewNames(known: seq<string>, names: seq<string>): seq<string>
    decreases |names|
  {
    if names == [] then []
    else if names[0] in known then NewNames(known, names[1..])
    else [names[0]] + NewNames(known + [names[0]], names[1..])
  }

  lemma {:induction false} FoldedNames(ctx: Context, ss: seq<Service>, ops: seq<Service>)
    ensures Names(MergeOperators(ctx, ss, ops)) == Names(ss) + NewNames(Names(ss), Names(ops))
    ensures UniqueNames(ss) ==> UniqueNames(MergeOperators(ctx, ss, ops))
    decreases |ops|
  {
    if ops != [] {
      var ss' := MergeOperator(ctx, ss, ops[0]);
      OneEntryNames(ctx, ss, ops[0]);
      FoldedNames(ctx, ss', ops[1..]);
      assert Names(ops)[1..] == Names(ops[1..]);
      Associate(Names(ss), [ops[0].name], NewNames(Names(ss'), Names(ops[1..])));
    }
  }

  lemma NameListed(ss: seq<Service>, name: string)
    ensures name in Names(ss) <==> IndexOf(ss, name) < |ss|
  {
    var i := IndexOf(ss, name);
    if i < |ss| {
      assert Names(ss)[i] == name;
    }
  }

  lemma OneEntryNames(ctx: Context, ss: seq<Service>, op: Service)
    ensures Names(MergeOperator(ctx, ss, op)) == if op.name in Names(ss) then Names(ss) else Names(ss) + [op.name]
    ensures UniqueNames(ss) ==> UniqueNames(MergeOperator(ctx, ss, op))
  {
    NameListed(ss, op.name);
    var i := IndexOf(ss, op.name);
    if i < |ss| {
      SameNameList(ss, i, Updated(ctx, ss[i], op));
    } else {
      OneMoreName(ss, Introduced(ctx, op));
    }
  }

  lemma SameNameList(ss: seq<Service>, i: nat, s: Service)
    requires i < |ss| && s.name == ss[i].name
    ensures Names(ss[i := s]) == Names(ss) && (UniqueNames(ss) ==> UniqueNames(ss[i := s]))
  {
    assert forall j | 0 <= j < |ss| :: Names(ss[i := s])[j] == Names(ss)[j];
  }

  lemma OneMoreName(ss: seq<Service>, s: Service)
    requires IndexOf(ss, s.name) == |ss|
    ensures Names(ss + [s]) == Names(ss) + [s.name] && (UniqueNames(ss) ==> UniqueNames(ss + [s]))
  {
    NamesSplit(ss, [s]);
    assert Names([s]) == [s.name];
    if UniqueNames(ss) {
      AppendedUnique(ss, s);
    }
  }

  lemma {:induction false} NamesSplit(a: seq<Service>, b: seq<Service>)
    ensures Names(a + b) == Names(a) + Names(b)
  {
    if a == [] {
      assert a + b == b;
    } else {
      HeadOfConcat(a, b);
      NamesSplit(a[1..], b);
      Associate([a[0].name], Names(a[1..]), Names(b));
    }
  }

  /** All names the CRs mention, in order. */
  function AllNames(crs: seq<CrConfig>): seq<string> {
    if crs == [] then [] else Names(crs[0].services) + AllNames(crs[1..])
  }

  lemma {:induction false} NewNamesSplit(known: seq<string>, a: seq<string>, b: seq<string>)
    ensures NewNames(known, a + b) == NewNames(known, a) + NewNames(known + NewNames(known, a), b)
    decreases |a|
  {
    if a == [] {
      assert a + b == b && known + [] == known;
    } else {
      HeadOfConcat(a, b);
      var known' := if a[0] in known then known else known + [a[0]];
      NewNamesSplit(known', a[1..], b);
      Associate(known, [a[0]], NewNames(known', a[1..]));
      Associate([a[0]], NewNames(known', a[1..]), NewNames(known' + NewNames(known', a[1..]), b));
    }
  }

  /** Over any run of CRs, with duplicate names in them or not, the desired state keeps its names
      unique, never drops or moves a service, and appends new ones in order of first occurrence. */
  lemma {:induction false} NamesOverRuns(ctx: Context, ss: seq<Service>, crs: seq<CrConfig>)
    requires UniqueNames(ss)
    ensures Names(DesiredState(ctx, ss, crs)) == Names(ss) + NewNames(Names(ss), AllNames(crs))
    ensures UniqueNames(DesiredState(ctx, ss, crs))
    decreases |crs|
  {
    if crs != [] {
      var ctx' := ctx.(controllers := MergeControllers(ctx.controllers, crs[0].controllers));
      var ss' := MergeOperators(ctx', ss, crs[0].services);
      FoldedNames(ctx', ss, crs[0].services);
      NamesOverRuns(ctx', ss', crs[1..]);
      NewNamesSplit(Names(ss), Names(crs[0].services), AllNames(crs[1..]));
      Associate(Names(ss), NewNames(Names(ss), Names(crs[0].services)), NewNames(Names(ss'), AllNames(crs[1..])));
    }
  }

  /** Every merge on the way to the desired state runs without panic. */
  ghost predicate DesiredDefined(ctx: Context, summary: seq<Service>, crs: seq<CrConfig>)
    decreases |crs|
  {
    crs == [] ||
    (var ctx' := ctx.(controllers := MergeControllers(ctx.controllers, crs[0].controllers));
     && OperatorsDefined(ctx', summary, crs[0].services)
     && DesiredDefined(ctx', MergeOperators(ctx', summary, crs[0].services), crs[1..]))
  }

  /** Builds the desired state: the features that hold for all services first, unless they cannot be extracted,
      then CR after CR without those that are being deleted or cannot be extracted. No service is listed twice,
      whatever the CRs repeat. */
  method BuildDesiredState(ctx: Context, features: Result<seq<Service>>, items: seq<CommonService>)
    returns (services: seq<Service>, controllers: map<string, string>)
    requires ctx.controllers == map[] && OperatorsDefined(ctx, [], Features(features))
    requires DesiredDefined(ctx, MergeOperators(ctx, [], Features(features)), ExtractedConfigs(items))
    ensures services == DesiredState(ctx, MergeOperators(ctx, [], Features(features)), ExtractedConfigs(items))
    ensures controllers == AllControllers(map[], ExtractedConfigs(items))
    ensures UniqueNames(services)
    ensures Names(services) == NewNames([], Names(Features(features)) + AllNames(ExtractedConfigs(items)))
  {
    var summary := new Summary([]);
    if features.Ok? {
      summary.MergeCSCRs(ctx, features.value);
    }
    ghost var base := summary.services;
    controllers := map[];
    for i := 0 to |items|
      invariant AllControllers(controllers, ExtractedConfigs(items[i..])) ==
                AllControllers(map[], ExtractedConfigs(items))
      invariant DesiredDefined(ctx.(controllers := controllers), summary.services, ExtractedConfigs(items[i..]))
      invariant DesiredState(ctx.(controllers := controllers), summary.services, ExtractedConfigs(items[i..])) ==
                DesiredState(ctx, base, ExtractedConfigs(items))
    {
      Suffix(items, i);
      if items[i].deleting || items[i].own.Err? {
        NothingKnown(ExtractedConfigs(items[i + 1..]));
        continue;
      }
      var config := items[i].own.value;
      HeadOfConcat([config], ExtractedConfigs(items[i + 1..]));
      NothingKnown(ExtractedConfigs(items[i + 1..]));
      controllers := MergeProfileController(controllers, config.controllers);
      summary.MergeCSCRs(ctx.(controllers := controllers), config.services);
    }
    services := summary.services;
    FoldedNames(ctx, [], Features(features));
    NamesOverRuns(ctx, base, ExtractedConfigs(items));
    NewNamesSplit([], Names(Features(features)), AllNames(ExtractedConfigs(items)));
    NothingKnown(NewNames([], Names(Features(features))));
  }

  /** The features, none when they cannot be extracted. */
  function Features(features: Result<seq<Service>>): seq<Service> {
    if features.Ok? then features.value else []
  }

  lemma NothingKnown<T>(s: seq<T>)
    ensures [] + s == s && s[0..] == s
  {
  }
}
