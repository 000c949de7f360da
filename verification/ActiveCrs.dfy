/** Which CommonService CRs have an effect, and in what order. */
module ActiveCrs {
  import opened Sequences
  import opened Wrappers
  import opened Services
  import opened CrSummaries
  import opened Scaling
  import opened FinalConfig

  lemma {:induction false} ExtractedSplit(a: seq<CommonService>, b: seq<CommonService>)
    ensures ExtractedConfigs(a + b) == ExtractedConfigs(a) + ExtractedConfigs(b)
  {
    if a == [] {
      assert a + b == b;
    } else {
      HeadOfConcat(a, b);
      ExtractedSplit(a[1..], b);
      var own := if a[0].deleting || a[0].own.Err? then [] else [a[0].own.value];
      Associate(own, ExtractedConfigs(a[1..]), ExtractedConfigs(b));
    }
  }

  lemma OneExtracted(x: CommonService)
    ensures ExtractedConfigs([x]) == if x.deleting || x.own.Err? then [] else [x.own.value]
  {
    assert [x][1..] == [];
  }

  /** The controllers known after some CRs. */
  function Known(ctx: Context, crs: seq<CrConfig>): Context {
    ctx.(controllers := AllControllers(ctx.controllers, crs))
  }

  lemma {:induction false} DesiredSplit(ctx: Context, ss: seq<Service>, a: seq<CrConfig>, b: seq<CrConfig>)
    ensures DesiredState(ctx, ss, a + b) == DesiredState(Known(ctx, a), DesiredState(ctx, ss, a), b)
    decreases |a|
  {
    if a == [] {
      assert a + b == b;
    } else {
      HeadOfConcat(a, b);
      var ctx' := ctx.(controllers := MergeControllers(ctx.controllers, a[0].controllers));
      DesiredSplit(ctx', MergeOperators(ctx', ss, a[0].services), a[1..], b);
    }
  }

  /** A CR that is being deleted or cannot be extracted has no part in the desired services. */
  lemma DesiredWithout(ctx: Context, features: Result<seq<Service>>, a: seq<CommonService>, x: CommonService,
                       b: seq<CommonService>)
    requires x.deleting || x.own.Err?
    ensures Desired(ctx, features, a + [x] + b) == Desired(ctx, features, a + b)
  {
    OneExtracted(x);
    ExtractedSplit(a + [x], b);
    ExtractedSplit(a, [x]);
    ExtractedSplit(a, b);
    assert ExtractedConfigs(a) + [] == ExtractedConfigs(a);
  }

  /** Every other CR has, at its place: its services are folded over what the features and the CRs before it make,
      with their controllers and its own, and before those of the CRs after it. */
  lemma DesiredWith(ctx: Context, features: Result<seq<Service>>, a: seq<CommonService>, x: CommonService,
                    b: seq<CommonService>)
    requires !x.deleting && x.own.Ok?
    ensures var before := AllControllers(ctx.controllers, ExtractedConfigs(a));
            var ctx' := ctx.(controllers := MergeControllers(before, x.own.value.controllers));
            Desired(ctx, features, a + [x] + b) ==
            DesiredState(ctx', MergeOperators(ctx', Desired(ctx, features, a), x.own.value.services),
                         ExtractedConfigs(b))
  {
    var ss := MergeOperators(ctx, [], Features(features));
    var own := [x.own.value];
    OneExtracted(x);
    ExtractedSplit(a + [x], b);
    ExtractedSplit(a, [x]);
    Associate(ExtractedConfigs(a), own, ExtractedConfigs(b));
    DesiredSplit(ctx, ss, ExtractedConfigs(a), own + ExtractedConfigs(b));
    HeadOfConcat(own, ExtractedConfigs(b));
    assert own[1..] + ExtractedConfigs(b) == ExtractedConfigs(b);
  }

  /** Before all CRs come the features, if they can be extracted. */
  lemma FeaturesComeFirst(ctx: Context, features: seq<Service>, error: string)
    ensures Desired(ctx, Ok(features), []) == MergeOperators(ctx, [], features)
    ensures Desired(ctx, Err(error), []) == []
  {
  }

  lemma {:induction false} ActiveSplit(a: seq<CommonService>, b: seq<CommonService>, size: string)
    ensures ActiveConfigs(a + b, size) ==
            match ActiveConfigs(a, size)
            case Err(e) => Err(e)
            case Ok(crs) => match ActiveConfigs(b, size) case Ok(rest) => Ok(crs + rest) case Err(e) => Err(e)
  {
    if a == [] {
      assert a + b == b;
      if ActiveConfigs(b, size).Ok? { NothingKnown(ActiveConfigs(b, size).value); }
    } else {
      HeadOfConcat(a, b);
      ActiveSplit(a[1..], b, size);
      if !a[0].deleting && a[0].full(size).Ok? && ActiveConfigs(a[1..], size).Ok? && ActiveConfigs(b, size).Ok? {
        Associate([a[0].full(size).value], ActiveConfigs(a[1..], size).value, ActiveConfigs(b, size).value);
      }
    }
  }

  lemma OneActive(x: CommonService, size: string)
    ensures ActiveConfigs([x], size) ==
            if x.deleting then Ok([])
            else match x.full(size) case Ok(c) => Ok([c]) case Err(e) => Err(e)
  {
    assert [x][1..] == [];
    if !x.deleting && x.full(size).Ok? {
      assert [x.full(size).value] + [] == [x.full(size).value];
    }
  }

  lemma {:induction false} LargestFromSplit(size: string, a: seq<CommonService>, b: seq<CommonService>)
    ensures LargestFrom(size, a + b) == LargestFrom(LargestFrom(size, a), b)
    decreases |a|
  {
    if a == [] {
      assert a + b == b;
    } else {
      HeadOfConcat(a, b);
      LargestFromSplit(if !a[0].deleting && Priority(a[0].size) > Priority(size) then a[0].size else size, a[1..], b);
    }
  }

  /** A CR that is being deleted is not counted among the CRs that are scaled, whether it can be extracted or not. The
      size they are scaled to does not depend on it. */
  lemma SizedWithout(a: seq<CommonService>, x: CommonService, b: seq<CommonService>)
    requires x.deleting
    ensures LargestSize(a + [x] + b) == LargestSize(a + b) && SizedConfigs(a + [x] + b) == SizedConfigs(a + b)
  {
    var size := LargestSize(a + b);
    LargestFromSplit("", a + [x], b);
    LargestFromSplit("", a, [x]);
    LargestFromSplit("", a, b);
    assert [x][1..] == [];
    ActiveSplit(a + [x], b, size);
    ActiveSplit(a, [x], size);
    ActiveSplit(a, b, size);
    OneActive(x, size);
    if ActiveConfigs(a, size).Ok? {
      assert ActiveConfigs(a, size).value + [] == ActiveConfigs(a, size).value;
    }
  }

  /** Every other CR is scaled to the largest size and takes its place among the others; if it cannot be extracted at
      that size nothing can. */
  lemma SizedWith(a: seq<CommonService>, x: CommonService, b: seq<CommonService>)
    requires !x.deleting
    ensures var size := LargestSize(a + [x] + b);
            SizedConfigs(a + [x] + b) ==
            match (ActiveConfigs(a, size), x.full(size), ActiveConfigs(b, size))
            case (Ok(before), Ok(own), Ok(after)) => Ok(before + [own] + after)
            case (Err(e), _, _) => Err(e)
            case (_, Err(e), _) => Err(e)
            case (_, _, Err(e)) => Err(e)
  {
    var size := LargestSize(a + [x] + b);
    ActiveSplit(a + [x], b, size);
    ActiveSplit(a, [x], size);
    OneActive(x, size);
  }

  /** From the CRs to the store: with the CR that is being deleted or without it, a reconciliation fails alike or leaves
      the same services. */
  lemma DeletedCrHasNoEffect(ctx: Context, base: seq<Service>, features: Result<seq<Service>>, a: seq<CommonService>,
                             x: CommonService, b: seq<CommonService>, order: seq<CrConfig>)
    requires x.deleting
    ensures SizedConfigs(a + [x] + b) == SizedConfigs(a + b)
    ensures SizedConfigs(a + b).Ok? ==>
            var crs := SizedConfigs(a + b).value;
            Reconciled(ctx, base, crs, order, Desired(ctx, features, a + [x] + b)) ==
            Reconciled(ctx, base, crs, order, Desired(ctx, features, a + b))
  {
    SizedWithout(a, x, b);
    DesiredWithout(ctx, features, a, x, b);
  }
}
