/** Restarting the deployments that use a renewed certificate. */
module Restarts {
  import opened Sequences
  import opened Wrappers

  /** How restart times are written into labels, in whole seconds. A label is none when it is missing or
      empty; a label that lost its seconds is completed before it is parsed, so `parse` is the
      composition of both. */
  datatype Clock = Clock(parse: string -> Result<int>, format: int -> string)

  /** What is written can be read back. */
  ghost predicate Faithful(clock: Clock) {
    forall t: int :: clock.parse(clock.format(t)) == Ok(t) && clock.format(t) != ""
  }

  /** A volume mounts a secret directly or as one of several projected sources. */
  datatype Volume = Volume(secret: string, projected: seq<string>)

  /** A deployment: the secrets its containers read variables from, its volumes, whether it opted out of
      restarts, and its restart label. */
  class Deployment {
    const envSecrets: seq<seq<string>>
    const volumes: seq<Volume>
    const optedOut: bool
    var restartLabel: string
    var templateLabel: string

    constructor (env: seq<seq<string>>, vols: seq<Volume>, out: bool)
      ensures envSecrets == env && volumes == vols && optedOut == out && restartLabel == "" && templateLabel == ""
    {
      envSecrets, volumes, optedOut := env, vols, out;
      restartLabel, templateLabel := "", "";
    }
  }

  /** Some container or volume of the deployment uses the secret. */
  predicate Uses(envSecrets: seq<seq<string>>, volumes: seq<Volume>, secret: string) {
    (exists c | c in envSecrets :: secret in c) ||
    (exists v | v in volumes :: (v.secret != "" && v.secret == secret) || secret in v.projected)
  }

  /** There are three ways to use a secret. */
  lemma UsesByKind(secret: string, names: seq<string>)
    ensures !Uses([], [], secret)
    ensures Uses([names], [], secret) <==> secret in names
    ensures Uses([], [Volume(secret, [])], secret) <==> secret != ""
    ensures Uses([], [Volume("", names)], secret) <==> secret in names
    ensures forall other: string | other != secret :: !Uses([], [Volume(other, [])], secret)
  {
    assert [names][0] == names;
    assert Volume(secret, []) in [Volume(secret, [])] && Volume("", names) in [Volume("", names)];
  }

  /** A deployment uses the secret if a part of it does: a container, a volume, or the sources of a volume. */
  lemma UsesOfParts(env: seq<seq<string>>, env': seq<seq<string>>, volumes: seq<Volume>, volumes': seq<Volume>,
                    secret: string)
    ensures Uses(env + env', volumes + volumes', secret) <==> Uses(env, volumes, secret) || Uses(env', volumes', secret)
  {
    assert forall c :: c in env + env' <==> c in env || c in env';
    assert forall v :: v in volumes + volumes' <==> v in volumes || v in volumes';
  }

  lemma UsesOfVolume(name: string, projected: seq<string>, secret: string)
    ensures Uses([], [Volume(name, projected)], secret) <==>
            Uses([], [Volume(name, [])], secret) || Uses([], [Volume("", projected)], secret)
  {
    assert Volume(name, projected) in [Volume(name, projected)];
    assert Volume(name, []) in [Volume(name, [])] && Volume("", projected) in [Volume("", projected)];
  }

  /** Whether a restart label shows a restart after the renewal. */
  function RestartedSince(clock: Clock, restartLabel: string, lastUpdated: string): Result<bool> {
    if restartLabel == "" then Ok(false)
    else match (clock.parse(lastUpdated), clock.parse(restartLabel))
      case (Ok(u), Ok(r)) => Ok(r > u)
      case _ => Err("error parsing time")
  }

  predicate Selected(d: Deployment, clock: Clock, secret: string, lastUpdated: string)
    reads d
  {
    Uses(d.envSecrets, d.volumes, secret) && !d.optedOut &&
      RestartedSince(clock, d.restartLabel, lastUpdated) == Ok(false)
  }

  /** The selected deployments, in order. */
  ghost function SelectedAmong(ds: seq<Deployment>, clock: Clock, secret: string, lastUpdated: string): seq<Deployment>
    reads set d | d in ds
    decreases |ds|
  {
    if ds == [] then []
    else
      var d := ds[|ds| - 1];
      SelectedAmong(ds[..|ds| - 1], clock, secret, lastUpdated) + if Selected(d, clock, secret, lastUpdated) then [d]
        else []
  }

  lemma {:induction false} SelectedMembers(ds: seq<Deployment>, clock: Clock, secret: string, lastUpdated: string)
    ensures forall d :: d in SelectedAmong(ds, clock, secret, lastUpdated) <==>
              d in ds && Selected(d, clock, secret, lastUpdated)
    decreases |ds|
  {
    if ds != [] {
      SelectedMembers(ds[..|ds| - 1], clock, secret, lastUpdated);
      Prefix(ds, |ds| - 1);
      assert ds[..|ds|] == ds;
    }
  }

  method UsesSecret(d: Deployment, secret: string) returns (uses: bool)
    ensures uses <==> Uses(d.envSecrets, d.volumes, secret) && !d.optedOut
  {
    for i := 0 to |d.envSecrets|
      invariant forall j | 0 <= j < i :: secret !in d.envSecrets[j] || d.optedOut
    {
      for k := 0 to |d.envSecrets[i]|
        invariant forall j | 0 <= j < k :: d.envSecrets[i][j] != secret || d.optedOut
      {
        if d.envSecrets[i][k] == secret && !d.optedOut {
          assert secret in d.envSecrets[i];
          return true;
        }
      }
    }
    for i := 0 to |d.volumes|
      invariant forall j | 0 <= j < i ::
        d.optedOut || (!(d.volumes[j].secret != "" && d.volumes[j].secret == secret) &&
                       secret !in d.volumes[j].projected)
    {
      var v := d.volumes[i];
      if v.secret != "" && v.secret == secret && !d.optedOut {
        return true;
      }
      if !d.optedOut {
        for k := 0 to |v.projected|
          invariant forall j | 0 <= j < k :: v.projected[j] != secret
        {
          if v.projected[k] == secret {
            return true;
          }
        }
      }
    }
    return false;
  }

  /** The deployments to restart: exactly the selected ones, in order, unless a time does not parse. */
  method GetDeploymentsNeedUpdate(ds: seq<Deployment>, clock: Clock, secret: string, lastUpdated: string)
    returns (r: Result<seq<Deployment>>)
    ensures r.Err? <==> exists d | d in ds :: RestartedSince(clock, d.restartLabel, lastUpdated).Err?
    ensures r.Ok? ==> r.value == SelectedAmong(ds, clock, secret, lastUpdated)
    ensures r.Ok? ==> forall d :: d in r.value <==> d in ds && Selected(d, clock, secret, lastUpdated)
    ensures r.Ok? ==> forall d | d in r.value :: !d.optedOut
  {
    var selected: seq<Deployment> := [];
    for i := 0 to |ds|
      invariant forall j | 0 <= j < i :: RestartedSince(clock, ds[j].restartLabel, lastUpdated).Ok?
      invariant selected == SelectedAmong(ds[..i], clock, secret, lastUpdated)
    {
      var d := ds[i];
      Prefix(ds, i);
      assert ds[..i + 1][..i] == ds[..i];
      if d.restartLabel != "" {
        var updated := clock.parse(lastUpdated);
        if updated.Err? {
          assert RestartedSince(clock, ds[i].restartLabel, lastUpdated).Err?;
          return Err("error parsing time");
        }
        var restarted := clock.parse(d.restartLabel);
        if restarted.Err? {
          assert RestartedSince(clock, ds[i].restartLabel, lastUpdated).Err?;
          return Err("error parsing time");
        }
        if restarted.value > updated.value {
          continue;
        }
      }
      var uses := UsesSecret(d, secret);
      if uses {
        selected := selected + [d];
      }
    }
    assert ds[..|ds|] == ds;
    SelectedMembers(ds, clock, secret, lastUpdated);
    return Ok(selected);
  }

  /** Labels the deployments and their templates with the time, which restarts their pods. */
  method UpdateDeploymentAnnotations(ds: seq<Deployment>, timeNow: string)
    modifies set d | d in ds
    ensures forall d | d in ds :: d.restartLabel == timeNow && d.templateLabel == timeNow
  {
    for i := 0 to |ds|
      invariant forall j | 0 <= j < i :: ds[j].restartLabel == timeNow && ds[j].templateLabel == timeNow
    {
      ds[i].restartLabel := timeNow;
      ds[i].templateLabel := timeNow;
    }
  }

  /** A deployment's label as one restart leaves it. */
  function Relabelled(clock: Clock, uses: bool, restartLabel: string, lastUpdated: string, now: int): string {
    if uses && RestartedSince(clock, restartLabel, lastUpdated) == Ok(false) then clock.format(now) else restartLabel
  }

  /** Restarts what uses the renewed secret. Nothing changes when a time does not parse. */
  method Restart(ds: seq<Deployment>, clock: Clock, secret: string, lastUpdated: string, now: int)
    returns (r: Result<()>)
    modifies set d | d in ds
    ensures r.Err? <==> exists d | d in ds :: RestartedSince(clock, old(d.restartLabel), lastUpdated).Err?
    ensures r.Err? ==> forall d | d in ds ::
              d.restartLabel == old(d.restartLabel) && d.templateLabel == old(d.templateLabel)
    ensures r.Ok? ==> forall d | d in ds ::
      d.restartLabel == Relabelled(clock, Uses(d.envSecrets, d.volumes, secret) && !d.optedOut, old(d.restartLabel),
                                   lastUpdated, now)
    ensures r.Ok? ==> forall d | d in ds ::
      d.templateLabel == if old(Selected(d, clock, secret, lastUpdated)) then clock.format(now)
        else old(d.templateLabel)
  {
    var need := GetDeploymentsNeedUpdate(ds, clock, secret, lastUpdated);
    if need.Err? {
      return Err("error parsing time");
    }
    UpdateDeploymentAnnotations(need.value, clock.format(now));
    return Ok(());
  }

  /** Over the restarts of one renewal at the given times: how often the deployment is relabelled. */
  function RestartCount(clock: Clock, uses: bool, restartLabel: string, lastUpdated: string, times: seq<int>): nat
    decreases |times|
  {
    if times == [] then 0
    else
      (if uses && RestartedSince(clock, restartLabel, lastUpdated) == Ok(false) then 1 else 0) +
      RestartCount(clock, uses, Relabelled(clock, uses, restartLabel, lastUpdated, times[0]), lastUpdated, times[1..])
  }

  /** A deployment restarted at a time after the renewal's second is not selected for it again; one
      restarted within that second is. */
  lemma RelabelledIsDone(clock: Clock, renewed: int, now: int)
    requires Faithful(clock)
    ensures RestartedSince(clock, clock.format(now), clock.format(renewed)) == Ok(now > renewed)
  {
  }

  /** A deployment that is not due stays as it is for this renewal. */
  lemma {:induction false} NoRestartAfter(clock: Clock, uses: bool, restartLabel: string, lastUpdated: string,
                                          times: seq<int>)
    requires !uses || RestartedSince(clock, restartLabel, lastUpdated) != Ok(false)
    ensures RestartCount(clock, uses, restartLabel, lastUpdated, times) == 0
    decreases |times|
  {
    if times != [] {
      NoRestartAfter(clock, uses, restartLabel, lastUpdated, times[1..]);
    }
  }

  /** Whether the deployment is due for the renewal: it uses the secret and has no restart after it. */
  predicate Due(clock: Clock, uses: bool, restartLabel: string, renewed: int) {
    uses && RestartedSince(clock, restartLabel, clock.format(renewed)) == Ok(false)
  }

  /** However often a renewal is handled, a deployment restarts once if it is due and never otherwise, when
      the first handling comes in a second after that of the renewal. */
  lemma RestartsOnce(clock: Clock, uses: bool, restartLabel: string, renewed: int, times: seq<int>)
    requires Faithful(clock) && (times != [] ==> times[0] > renewed)
    ensures RestartCount(clock, uses, restartLabel, clock.format(renewed), times) ==
            if Due(clock, uses, restartLabel, renewed) && times != [] then 1 else 0
  {
    var lastUpdated := clock.format(renewed);
    if Due(clock, uses, restartLabel, renewed) && times != [] {
      RelabelledIsDone(clock, renewed, times[0]);
      NoRestartAfter(clock, uses, clock.format(times[0]), lastUpdated, times[1..]);
    } else if times != [] {
      NoRestartAfter(clock, uses, restartLabel, lastUpdated, times);
    }
  }

  /** A deployment restarts at most once for a renewal if and only if it is not due, the renewal is handled at
      most once, or its first handling comes in a later second. */
  lemma AtMostOneRestart(clock: Clock, uses: bool, restartLabel: string, renewed: int, times: seq<int>)
    requires Faithful(clock)
    ensures RestartCount(clock, uses, restartLabel, clock.format(renewed), times) <= 1 <==>
            !Due(clock, uses, restartLabel, renewed) || |times| <= 1 || times[0] > renewed
  {
    var lastUpdated := clock.format(renewed);
    if !Due(clock, uses, restartLabel, renewed) {
      NoRestartAfter(clock, uses, restartLabel, lastUpdated, times);
    } else if |times| > 0 && times[0] > renewed {
      RestartsOnce(clock, uses, restartLabel, renewed, times);
    } else if |times| > 1 {
      RelabelledIsDone(clock, renewed, times[0]);
      var later := RestartCount(clock, uses, clock.format(times[0]), lastUpdated, times[1..]);
      assert RestartCount(clock, uses, restartLabel, lastUpdated, times) == 1 + later && later >= 1;
    }
  }

  /** Within the second of the renewal itself a deployment can restart again and again. */
  lemma RestartsWithinTheSecond(clock: Clock, renewed: int)
    requires Faithful(clock)
    ensures RestartCount(clock, true, "", clock.format(renewed), [renewed, renewed]) == 2
  {
    var label1 := clock.format(renewed);
    RelabelledIsDone(clock, renewed, renewed);
    assert [renewed, renewed][1..] == [renewed] && [renewed][1..] == [];
    assert RestartCount(clock, true, label1, label1, [renewed]) == 1 + RestartCount(clock, true, label1, label1, []);
  }
}
