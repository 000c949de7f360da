/** The OperandConfig that is stored in the end: the scaled services merged into the base template. */
module FinalConfig {
  import opened Sequences
  import opened Trees
  import opened Wrappers
  import opened ResourceComparison
  import opened Merging
  import opened Paths
  import opened Shrinking
  import opened Resetting
  import opened Services
  import opened SteadyState
  import opened OrderIndependence
  import opened CrSummaries
  import opened Scaling
  import opened ScalingLaws

  /** Base template, scaled services, final services. The CRs are summarised in the given order. */
  function Reconciled(ctx: Context, base: seq<Service>, crs: seq<CrConfig>, order: seq<CrConfig>,
                      desired: seq<Service>): seq<Service> {
    MergeWithBase(ctx, base, Extremes(ctx, Max, crs, order, desired))
  }

  /** The desired services of all CRs. */
  function Desired(ctx: Context, features: Result<seq<Service>>, items: seq<CommonService>): seq<Service> {
    DesiredState(ctx, MergeOperators(ctx, [], Features(features)), ExtractedConfigs(items))
  }

  /** Every merge on the way runs without panic, in whatever order the CRs are summarised. */
  ghost predicate UpdateDefined(ctx: Context, base: seq<Service>, features: Result<seq<Service>>,
                                items: seq<CommonService>) {
    && ctx.controllers == map[] && OperatorsDefined(ctx, [], Features(features))
    && DesiredDefined(ctx, MergeOperators(ctx, [], Features(features)), ExtractedConfigs(items))
    && (SizedConfigs(items).Ok? ==>
          var crs, desired := SizedConfigs(items).value, Desired(ctx, features, items);
          && ExtremesDefined(ctx, crs, desired)
          && forall order: seq<CrConfig> | multiset(order) == multiset(crs) ::
               AllConfigsDefined(ctx, base, Extremes(ctx, Max, crs, order, desired)))
  }

  /** The stored OperandConfig. */
  class OperandConfig {
    var services: seq<Service>

    constructor (ss: seq<Service>)
      ensures services == ss
    {
      services := ss;
    }

    /** One reconciliation: the services are replaced by what base template and CRs make, with the CRs summarised in
        some order, unless they are that already. Returns whether they were. */
    method Update(ctx: Context, base: seq<Service>, features: Result<seq<Service>>, items: seq<CommonService>)
      returns (isEqual: Result<bool>, ghost order: seq<CrConfig>)
      requires UpdateDefined(ctx, base, features, items)
      modifies this
      ensures match SizedConfigs(items)
              case Err(e) => isEqual == Err(e) && services == old(services)
              case Ok(crs) =>
                && multiset(order) == multiset(crs)
                && services == Reconciled(ctx, base, crs, order, Desired(ctx, features, items))
                && isEqual == Ok(services == old(services))
    {
      var desired, _ := BuildDesiredState(ctx, features, items);
      var scaled;
      scaled, order := GetExtremeizes(ctx, Max, items, desired);
      if scaled.Err? {
        return Err(scaled.error), order;
      }
      var merged := MergeServicesWithBase(ctx, base, scaled.value);
      if merged == services {
        return Ok(true), order;
      }
      services := merged;
      return Ok(false), order;
    }
  }

  /** The custom resource `cr` of a service, null when the list has no such service. */
  function CrTree(ss: seq<Service>, name: string, cr: string): Json {
    match FirstNamed(ss, name) case Some(s) => Get(GetOr(s.spec, map[]), cr) case None => Null
  }

  lemma LastIsFirst(ss: seq<Service>, name: string)
    requires UniqueNames(ss)
    ensures LastNamed(ss, name) == FirstNamed(ss, name)
  {
    var l := LastNamed(ss, name);
    var i := IndexOf(ss, name);
    if l.Some? {
      var j :| 0 <= j < |ss| && ss[j] == l.value;
      assert i <= j;
    }
  }

  lemma AppendedFirst(a: seq<Service>, b: seq<Service>, name: string)
    ensures FirstNamed(a + b, name) == if FirstNamed(a, name).Some? then FirstNamed(a, name) else FirstNamed(b, name)
    decreases |a|
  {
    if a == [] {
      assert a + b == b;
    } else {
      HeadOfConcat(a, b);
      AppendedFirst(a[1..], b, name);
    }
  }

  lemma {:induction false} NewNamed(base: seq<Service>, cs: seq<Service>, name: string)
    requires !InBase(base, name)
    ensures FirstNamed(NotInBase(base, cs), name) == FirstNamed(cs, name)
  {
    if cs != [] {
      NewNamed(base, cs[1..], name);
      AppendedFirst(if InBase(base, cs[0].name) then [] else [cs[0]], NotInBase(base, cs[1..]), name);
    }
  }

  /** Whether the list has the custom resource at all. */
  predicate CrSet(ss: seq<Service>, name: string, cr: string) {
    match FirstNamed(ss, name) case Some(s) => cr in GetOr(s.spec, map[]) case None => false
  }

  /** A final service: the base's with the CR's of its name merged over it, or the CR's. */
  lemma FinalService(ctx: Context, base: seq<Service>, cs: seq<Service>, name: string)
    requires UniqueNames(cs)
    ensures FirstNamed(MergeWithBase(ctx, base, cs), name) ==
            match (FirstNamed(base, name), FirstNamed(cs, name))
            case (Some(b), Some(c)) => Some(MergeConfig(ctx, b, c))
            case (Some(b), None) => Some(b)
            case (None, c) => c
  {
    var merged := MergeBase(ctx, base, cs);
    AppendedFirst(merged, NotInBase(base, cs), name);
    SameIndex(merged, base, name);
    if InBase(base, name) {
      LastIsFirst(cs, name);
    } else {
      NewNamed(base, cs, name);
    }
  }

  /** The other fields of a final service: the strategy is the CR's if that states one, and everything else is the
      base's. */
  lemma FinalExtra(ctx: Context, base: seq<Service>, cs: seq<Service>, name: string, k: string)
    requires UniqueNames(cs) && InBase(base, name)
    ensures var b, c, r := FirstNamed(base, name), FirstNamed(cs, name),
            FirstNamed(MergeWithBase(ctx, base, cs), name);
            && r.Some? && r.value.name == name
            && Get(r.value.extra, k) ==
               if k == "managementStrategy" && c.Some? && !Get(c.value.extra, k).Null? then Get(c.value.extra, k)
               else Get(b.value.extra, k)
  {
    FinalService(ctx, base, cs, name);
    var b, c := FirstNamed(base, name).value, FirstNamed(cs, name);
    if c.Some? {
      ExtraOfMerged(b.extra, c.value.extra, k);
    }
  }

  lemma ExtraOfMerged(base: Fields, cs: Fields, k: string)
    ensures Get(MergeExtra(base, cs), k) ==
            if k == "managementStrategy" && !Get(cs, k).Null? then Get(cs, k) else Get(base, k)
  {
  }

  /** A custom resource of the final services: merged if both sides have it, otherwise the one there is. */
  lemma FinalCr(ctx: Context, base: seq<Service>, cs: seq<Service>, name: string, cr: string)
    requires UniqueNames(cs)
    ensures var b, c := CrTree(base, name, cr), CrTree(cs, name, cr);
            CrTree(MergeWithBase(ctx, base, cs), name, cr) ==
            if !CrSet(cs, name, cr) then b else if InBase(base, name) then MergeCrIntoBase(ctx, name, cr, b, c) else c
  {
    FinalService(ctx, base, cs, name);
    if InBase(base, name) && FirstNamed(cs, name).Some? {
      CrOfMerged(ctx, FirstNamed(base, name).value, FirstNamed(cs, name).value, cr);
    }
  }

  lemma CrOfMerged(ctx: Context, b: Service, c: Service, cr: string)
    ensures Get(GetOr(MergeConfig(ctx, b, c).spec, map[]), cr) ==
            var own := GetOr(c.spec, map[]);
            if cr in own then MergeCrIntoBase(ctx, b.name, cr, Get(GetOr(b.spec, map[]), cr), own[cr])
              else Get(GetOr(b.spec, map[]), cr)
  {
  }

  /** At a leaf of a custom resource, the final value is the base's merged with the scaled one. */
  lemma FinalLeaf(ctx: Context, base: seq<Service>, cs: seq<Service>, name: string, cr: string, p: seq<Step>)
    requires UniqueNames(cs) && p != [] && p[0].Key?
    requires OnPath(Obj(AsMap(CrTree(base, name, cr))), p) && OnPath(Obj(AsMap(CrTree(cs, name, cr))), p)
    ensures var b, c := Obj(AsMap(CrTree(base, name, cr))), Obj(AsMap(CrTree(cs, name, cr)));
            Find(Obj(AsMap(CrTree(MergeWithBase(ctx, base, cs), name, cr))), p) ==
            MergeValue(PolicyFor(ctx, name, cr), LeafKey("", p), Find(b, p), Find(c, p))
  {
    var m := PolicyFor(ctx, name, cr);
    var b, c := AsMap(CrTree(base, name, cr)), AsMap(CrTree(cs, name, cr));
    FinalCr(ctx, base, cs, name, cr);
    EmptyOnPath(p);
    FindIsLeaf(Obj(b), p);
    FindIsLeaf(Obj(c), p);
    MergeNull(m, LeafKey("", p), Find(Obj(b), p));
    MergeNull(m, LeafKey("", p), Find(Obj(c), p));
    MergeAtPath(m, b, c, p);
  }

  /** Where the rules of a service say nothing of a custom resource, be it because they cover only others, the final
      OperandConfig holds whatever the scaled service sets, as large or small as it is. */
  lemma UncoveredSettingWins(ctx: Context, base: seq<Service>, cs: seq<Service>, name: string, cr: string, p: seq<Step>)
    requires UniqueNames(cs) && !Covered(ctx.rules, name, cr)
    requires IsSet(Find(Obj(AsMap(CrTree(cs, name, cr))), p))
    ensures Find(Obj(AsMap(CrTree(MergeWithBase(ctx, base, cs), name, cr))), p) ==
            Find(Obj(AsMap(CrTree(cs, name, cr))), p)
  {
    var b, c := AsMap(CrTree(base, name, cr)), AsMap(CrTree(cs, name, cr));
    RuleIsFirst(ctx.rules, name, cr);
    FinalCr(ctx, base, cs, name, cr);
    FindNull(p[1..]);
    if p[0].Key? {
      GetMerge(UserWins, b, c, p[0].k);
      ChangedLeafSurvives(UserWins, p[0].k, Get(b, p[0].k), Get(c, p[0].k), p[1..]);
    }
  }

  /** A custom resource of the scaled services. */
  lemma ScaledCrTree(ctx: Context, e: Extreme, crs: seq<CrConfig>, order: seq<CrConfig>, desired: seq<Service>,
                     name: string, cr: string)
    ensures var ctx', cs := AllControlled(ctx, crs), Extremes(ctx, e, crs, order, desired);
            && (UniqueNames(desired) ==> UniqueNames(cs))
            && (CrSet(cs, name, cr) <==> CrSet(desired, name, cr))
            && CrTree(cs, name, cr) ==
               if CrSet(desired, name, cr)
               then Obj(ScaledCr(ctx', e, name, cr, AsMap(CrTree(desired, name, cr)),
                                 SummaryCr(Summarize(ctx', [], order), name, cr)))
               else Null
  {
    SameIndex(Extremes(ctx, e, crs, order, desired), desired, name);
  }

  /** The settings of a service that reach a size: its own, and those of the CRs where it has a place for them. */
  ghost function FromCrs(ctx: Context, crs: seq<CrConfig>, desired: seq<Service>, name: string, cr: string,
                         p: seq<Step>): seq<Json>
    requires p != []
  {
    if CrSet(desired, name, cr)
    then Contributing(AllControlled(ctx, crs), crs, name, cr, AsMap(CrTree(desired, name, cr)), p) else []
  }

  /** The settings that reach a size of the final OperandConfig: the base template's besides. */
  ghost function Reaching(ctx: Context, base: seq<Service>, crs: seq<CrConfig>, desired: seq<Service>, name: string,
                          cr: string, p: seq<Step>): seq<Json>
    requires p != []
  {
    SetValue(Find(Obj(AsMap(CrTree(base, name, cr))), p)) + FromCrs(ctx, crs, desired, name, cr, p)
  }

  /** The settings of a size on one scale: the base template's, the service's own and those of the CRs. */
  ghost predicate SettingsOnOneScale(ctx: Context, base: seq<Service>, crs: seq<CrConfig>, desired: seq<Service>,
                                     name: string, cr: string, p: seq<Step>) {
    OnOneScale(ctx.q, SetValue(Find(Obj(AsMap(CrTree(base, name, cr))), p)) +
                      (SetValue(Find(Obj(AsMap(CrTree(desired, name, cr))), p)) +
                       SetValues(CrLeaves(AllControlled(ctx, crs), Flatten(crs), name, cr, p))))
  }

  /** The scaled service holds the largest of its own setting and those of the CRs that reach it. */
  lemma LargestInScaled(ctx: Context, base: seq<Service>, crs: seq<CrConfig>, order: seq<CrConfig>,
                        desired: seq<Service>, name: string, cr: string, p: seq<Step>)
    requires multiset(order) == multiset(crs)
    requires !RuleFor(ctx.rules, name, cr).Null? && !SizedExternally(crs, name)
    requires p != [] && p[0].Key? && LeafKey("", p) in COMPARABLE_KEYS
    requires CrOnPath(AllControlled(ctx, crs), Flatten(crs), name, cr, p)
    requires OnPath(Obj(AsMap(CrTree(desired, name, cr))), p)
    requires SettingsOnOneScale(ctx, base, crs, desired, name, cr, p)
    ensures var c := Obj(AsMap(CrTree(Extremes(ctx, Max, crs, order, desired), name, cr)));
            OnPath(c, p) && LargestOf(ctx.q, Find(c, p), FromCrs(ctx, crs, desired, name, cr, p))
  {
    var ctx' := AllControlled(ctx, crs);
    var t := AsMap(CrTree(desired, name, cr));
    var b, own, vs := Find(Obj(AsMap(CrTree(base, name, cr))), p), Find(Obj(t), p),
      SetValues(CrLeaves(ctx', Flatten(crs), name, cr, p));
    ScaledCrTree(ctx, Max, crs, order, desired, name, cr);
    ExternalOverCrs(ctx', crs, name);
    EmptyOnPath(p);
    assert forall v | v in SetValue(own) + vs :: v in SetValue(b) + (SetValue(own) + vs);
    LargestOverAllCrs(ctx', crs, order, name, cr, t, p);
  }

  lemma ReachingOnOneScale(ctx: Context, base: seq<Service>, crs: seq<CrConfig>, desired: seq<Service>,
                           name: string, cr: string, p: seq<Step>)
    requires p != [] && SettingsOnOneScale(ctx, base, crs, desired, name, cr, p)
    ensures OnOneScale(ctx.q, Reaching(ctx, base, crs, desired, name, cr, p))
  {
    var b, own := Find(Obj(AsMap(CrTree(base, name, cr))), p), Find(Obj(AsMap(CrTree(desired, name, cr))), p);
    var vs := SetValues(CrLeaves(AllControlled(ctx, crs), Flatten(crs), name, cr, p));
    assert forall v | v in FromCrs(ctx, crs, desired, name, cr, p) :: v in SetValue(own) + vs;
    assert forall v | v in Reaching(ctx, base, crs, desired, name, cr, p) ::
        v in SetValue(b) + (SetValue(own) + vs);
  }

  /** End to end: every size of a rule-covered custom resource in the final OperandConfig is the largest setting
      that reaches it, in whatever order the CRs are summarised. */
  lemma LargestInFinal(ctx: Context, base: seq<Service>, crs: seq<CrConfig>, order: seq<CrConfig>,
                       desired: seq<Service>, name: string, cr: string, p: seq<Step>)
    requires multiset(order) == multiset(crs) && UniqueNames(desired)
    requires !RuleFor(ctx.rules, name, cr).Null? && !SizedExternally(crs, name)
    requires p != [] && p[0].Key? && LeafKey("", p) in COMPARABLE_KEYS
    requires CrOnPath(AllControlled(ctx, crs), Flatten(crs), name, cr, p)
    requires OnPath(Obj(AsMap(CrTree(base, name, cr))), p) && OnPath(Obj(AsMap(CrTree(desired, name, cr))), p)
    requires SettingsOnOneScale(ctx, base, crs, desired, name, cr, p)
    ensures LargestOf(ctx.q, Find(Obj(AsMap(CrTree(Reconciled(ctx, base, crs, order, desired), name, cr))), p),
                      Reaching(ctx, base, crs, desired, name, cr, p))
  {
    var cs := Extremes(ctx, Max, crs, order, desired);
    ScaledCrTree(ctx, Max, crs, order, desired, name, cr);
    LargestInScaled(ctx, base, crs, order, desired, name, cr, p);
    FinalLeaf(ctx, base, cs, name, cr, p);
    FindIsLeaf(Obj(AsMap(CrTree(base, name, cr))), p);
    FindIsLeaf(Obj(AsMap(CrTree(cs, name, cr))), p);
    ReachingOnOneScale(ctx, base, crs, desired, name, cr, p);
    LargestOfTwo(ctx.q, LeafKey("", p), Find(Obj(AsMap(CrTree(base, name, cr))), p),
                 Find(Obj(AsMap(CrTree(cs, name, cr))), p), FromCrs(ctx, crs, desired, name, cr, p));
  }

  lemma LargestOfTwo(q: Quantities, key: string, b: Json, c: Json, vs: seq<Json>)
    requires b.Scalar() && c.Scalar() && key in COMPARABLE_KEYS && LargestOf(q, c, vs) &&
             OnOneScale(q, SetValue(b) + vs)
    ensures LargestOf(q, MergeValue(LargestWins(q), key, b, c), SetValue(b) + vs)
  {
    MergeNull(LargestWins(q), key, b);
    MergeNull(LargestWins(q), key, c);
    if b.Null? {
      assert [] + vs == vs;
    } else {
      assert forall v :: v in [b] + vs <==> v == b || v in vs;
      assert SameScale(q, b, b);
      if vs != [] {
        assert SameScale(q, b, c);
        LargerIsMaximum(q, b, c);
      }
    }
  }

  /** The base `d` fills no covered size back in under the clean change `c`: what the change leaves open is clean
      in the base, and no base size wins over a map. */
  predicate FillsNoSize(q: Quantities, d: Json, c: Json, rules: Fields)
    requires d.Obj? && c.Obj?
    decreases d
  {
    forall k | k in d.fields && !d.fields[k].Null? ::
      var x, y, rule := d.fields[k], Get(c.fields, k), Get(rules, k);
      if y.Null? then !Deletes(k, x, rule) && (x.Obj? && rule.Obj? ==> Clean(x, rule.fields))
      else if x.Obj? && y.Obj? then rule.Obj? ==> FillsNoSize(q, x, y, rule.fields)
      else x.Scalar() && Deletes(k, x, rule) ==> Larger(q, x, y) == y
  }

  /** What one key of the merge holds, when the change is clean. */
  lemma MergedKeyClean(q: Quantities, d: Json, c: Json, rules: Fields, k: string)
    requires d.Obj? && c.Obj? && Clean(c, rules) && k in d.fields && !d.fields[k].Null?
    ensures var x, y, v, rule := d.fields[k], Get(c.fields, k),
            MergeValue(LargestWins(q), k, d.fields[k], Get(c.fields, k)), Get(rules, k);
            && !v.Null?
            && (y.Null? ==> v == x)
            && (!y.Null? && !(x.Obj? && y.Obj?) ==>
                  ((!Deletes(k, v, rule) && (v.Obj? && rule.Obj? ==> Clean(v, rule.fields))) <==>
                   (x.Scalar() && Deletes(k, x, rule) ==> Larger(q, x, y) == y)))
  {
    var x, y := d.fields[k], Get(c.fields, k);
    LargerSelects(q, x, y);
  }

  /** A merge under a clean change is clean if and only if the base fills no size back in. */
  lemma {:induction false} MergeCleanIff(q: Quantities, d: Json, c: Json, rules: Fields)
    requires d.Obj? && c.Obj? && Clean(c, rules)
    ensures Clean(MergeObj(LargestWins(q), d, c), rules) <==> FillsNoSize(q, d, c, rules)
    decreases d
  {
    var m := LargestWins(q);
    var r := MergeObj(m, d, c);
    forall k | k in d.fields && !d.fields[k].Null?
      ensures k in r.fields
      ensures KeyClean(k, r.fields[k], rules) <==> KeyFillsNoSize(q, k, d.fields[k], Get(c.fields, k), rules)
    {
      MergedKeyClean(q, d, c, rules, k);
      GetMerged(m, d, c, k);
      var x, y := d.fields[k], Get(c.fields, k);
      if x.Obj? && y.Obj? && Get(rules, k).Obj? {
        MergeCleanIff(q, x, y, rules[k].fields);
      }
    }
    forall k | k in r.fields && (k !in d.fields || d.fields[k].Null?) ensures KeyClean(k, r.fields[k], rules) {
      GetMerged(m, d, c, k);
      if Compares(m, k) { LargerSelects(q, Null, Get(c.fields, k)); }
    }
    CleanByKey(r, rules);
    FillsByKey(q, d, c, rules);
  }

  predicate KeyClean(k: string, v: Json, rules: Fields) {
    !Deletes(k, v, Get(rules, k)) && (v.Obj? && Get(rules, k).Obj? ==> Clean(v, rules[k].fields))
  }

  predicate KeyFillsNoSize(q: Quantities, k: string, x: Json, y: Json, rules: Fields) {
    if y.Null? then KeyClean(k, x, rules)
    else if x.Obj? && y.Obj? then Get(rules, k).Obj? ==> FillsNoSize(q, x, y, rules[k].fields)
    else x.Scalar() && Deletes(k, x, Get(rules, k)) ==> Larger(q, x, y) == y
  }

  lemma CleanByKey(t: Json, rules: Fields)
    requires t.Obj?
    ensures Clean(t, rules) <==> forall k | k in t.fields :: KeyClean(k, t.fields[k], rules)
  {
  }

  lemma FillsByKey(q: Quantities, d: Json, c: Json, rules: Fields)
    requires d.Obj? && c.Obj?
    ensures FillsNoSize(q, d, c, rules) <==>
            forall k | k in d.fields && !d.fields[k].Null? :: KeyFillsNoSize(q, k, d.fields[k], Get(c.fields, k), rules)
  {
  }

  /** The final OperandConfig of an externally sized service is clean at a custom resource with rules if and only
      if the base template fills no size back in; where CRs say nothing of it, if the base's own is clean. */
  lemma FinalCleanIff(ctx: Context, base: seq<Service>, crs: seq<CrConfig>, order: seq<CrConfig>, desired: seq<Service>,
                      name: string, cr: string)
    requires UniqueNames(desired) && SizedExternally(crs, name) && !RuleFor(ctx.rules, name, cr).Null?
    ensures var rules := AsMap(RuleFor(ctx.rules, name, cr));
            var b := Obj(AsMap(CrTree(base, name, cr)));
            Clean(Obj(AsMap(CrTree(Reconciled(ctx, base, crs, order, desired), name, cr))), rules) <==>
            if CrSet(desired, name, cr)
            then FillsNoSize(ctx.q, b, Obj(AsMap(CrTree(Extremes(ctx, Max, crs, order, desired), name, cr))), rules)
            else Clean(b, rules)
  {
    var ctx', cs := AllControlled(ctx, crs), Extremes(ctx, Max, crs, order, desired);
    var rules := AsMap(RuleFor(ctx.rules, name, cr));
    ScaledCrTree(ctx, Max, crs, order, desired, name, cr);
    ExternalOverCrs(ctx', crs, name);
    FinalCr(ctx, base, cs, name, cr);
    if CrSet(desired, name, cr) {
      ExternalServicesStayClean(ctx, Max, crs, order, desired);
      var b, c := Obj(AsMap(CrTree(base, name, cr))), Obj(AsMap(CrTree(cs, name, cr)));
      var i := IndexOf(cs, name);
      assert CleanService(ctx', cs[i]);
      assert Clean(c, rules);
      MergeCleanIff(ctx.q, b, c, rules);
      RootMerge(LargestWins(ctx.q), b.fields, c.fields);
      if CrTree(base, name, cr).Null? {
        MergeIntoEmpty(LargestWins(ctx.q), c.fields);
      }
    }
  }

  /** A clean base template keeps the final OperandConfig clean. */
  lemma CleanBaseKeepsClean(ctx: Context, base: seq<Service>, crs: seq<CrConfig>, order: seq<CrConfig>,
                            desired: seq<Service>, name: string, cr: string)
    requires UniqueNames(desired) && SizedExternally(crs, name) && !RuleFor(ctx.rules, name, cr).Null?
    requires Clean(Obj(AsMap(CrTree(base, name, cr))), AsMap(RuleFor(ctx.rules, name, cr)))
    ensures Clean(Obj(AsMap(CrTree(Reconciled(ctx, base, crs, order, desired), name, cr))),
                  AsMap(RuleFor(ctx.rules, name, cr)))
  {
    FinalCleanIff(ctx, base, crs, order, desired, name, cr);
    CleanFillsNothing(ctx.q, Obj(AsMap(CrTree(base, name, cr))),
                      Obj(AsMap(CrTree(Extremes(ctx, Max, crs, order, desired), name, cr))),
                      AsMap(RuleFor(ctx.rules, name, cr)));
  }

  lemma {:induction false} CleanFillsNothing(q: Quantities, d: Json, c: Json, rules: Fields)
    requires d.Obj? && c.Obj? && Clean(d, rules)
    ensures FillsNoSize(q, d, c, rules)
    decreases d
  {
    forall k | k in d.fields && !d.fields[k].Null? ensures KeyFillsNoSize(q, k, d.fields[k], Get(c.fields, k), rules) {
      var x, y := d.fields[k], Get(c.fields, k);
      if x.Obj? && y.Obj? && Get(rules, k).Obj? {
        CleanFillsNothing(q, x, y, rules[k].fields);
      }
    }
    FillsByKey(q, d, c, rules);
  }
}
