/** The status conditions of a CommonService CR. */
module Conditions {
  import opened Wrappers

  datatype ConditionType = Blocked | Ready | Warning | Error | Pending | Reconciling

  datatype ConditionStatus = True | False | Unknown

  datatype Condition = Condition(kind: ConditionType, status: ConditionStatus, lastUpdate: string,
                                 lastTransition: string,
                                 reason: string, message: string)

  const REASON_READY := "ReconcileSucceeded"
  const MESSAGE_READY := "CommonService CR is ready."

  function NewCondition(kind: ConditionType, status: ConditionStatus, reason: string, message: string,
                        now: string): Condition {
    Condition(kind, status, now, now, reason, message)
  }

  predicate SameKey(a: Condition, b: Condition) {
    a.kind == b.kind && a.message == b.message
  }

  /** The first condition with this type and message, or the length of the list. */
  function Position(cs: seq<Condition>, kind: ConditionType, message: string): (i: nat)
    ensures i <= |cs|
    ensures i < |cs| ==> cs[i].kind == kind && cs[i].message == message
    ensures forall j | 0 <= j < i :: !(cs[j].kind == kind && cs[j].message == message)
  {
    if cs == [] || (cs[0].kind == kind && cs[0].message == message) then 0 else 1 + Position(cs[1..], kind, message)
  }

  function WithCondition(cs: seq<Condition>, c: Condition): seq<Condition> {
    var i := Position(cs, c.kind, c.message);
    if i < |cs| then cs[i := c] else cs + [c]
  }

  predicate InProgress(c: Condition) {
    c.kind == Pending || c.kind == Reconciling
  }

  /** All progress conditions set to one status. */
  function Settled(cs: seq<Condition>, status: ConditionStatus): (r: seq<Condition>)
    ensures |r| == |cs|
    ensures forall i | 0 <= i < |cs| :: r[i] == if InProgress(cs[i]) then cs[i].(status := status) else cs[i]
  {
    if cs == [] then [] else [if InProgress(cs[0]) then cs[0].(status := status) else cs[0]] + Settled(cs[1..], status)
  }

  /** Position `i` is set. */
  lemma SettleNext(cs: seq<Condition>, i: nat, status: ConditionStatus)
    requires i < |cs|
    ensures var before, after := Settled(cs[..i], status) + cs[i..], Settled(cs[..i + 1], status) + cs[i + 1..];
            before[i] == cs[i] && after == before[i := if InProgress(cs[i]) then cs[i].(status := status) else cs[i]]
  {
    var before, after := Settled(cs[..i], status) + cs[i..], Settled(cs[..i + 1], status) + cs[i + 1..];
    assert forall j | 0 <= j < |cs| && j != i :: before[j] == after[j];
  }

  /** A write to the status. */
  datatype Write =
    | SetPending(kind: ConditionType, status: ConditionStatus, reason: string, message: string, now: string)
    | SetWarning(kind: ConditionType, status: ConditionStatus, reason: string, message: string, now: string)
    | SetReady(status: ConditionStatus, now: string)
    | SetError(kind: ConditionType, status: ConditionStatus, reason: string, message: string, now: string)

  /** The condition a write sets. */
  function Written(w: Write): Condition {
    if w.SetReady? then NewCondition(Ready, w.status, REASON_READY, MESSAGE_READY, w.now)
    else NewCondition(w.kind, w.status, w.reason, w.message, w.now)
  }

  function Apply(cs: seq<Condition>, w: Write): seq<Condition> {
    WithCondition(if w.SetReady? || w.SetError? then Settled(cs, False) else cs, Written(w))
  }

  function ApplyAll(cs: seq<Condition>, ws: seq<Write>): seq<Condition>
    decreases |ws|
  {
    if ws == [] then cs else ApplyAll(Apply(cs, ws[0]), ws[1..])
  }

  method GetCondition(cs: seq<Condition>, kind: ConditionType, message: string) returns (i: int)
    ensures i == if Position(cs, kind, message) < |cs| then Position(cs, kind, message) else -1
  {
    for n := 0 to |cs|
      invariant forall j | 0 <= j < n :: !(cs[j].kind == kind && cs[j].message == message)
    {
      if kind == cs[n].kind && message == cs[n].message {
        return n;
      }
    }
    return -1;
  }

  class CommonService {
    var conditions: seq<Condition>

    constructor ()
      ensures conditions == []
    {
      conditions := [];
    }

    method SetCondition(c: Condition)
      modifies this
      ensures conditions == WithCondition(old(conditions), c)
    {
      var position := GetCondition(conditions, c.kind, c.message);
      if position >= 0 {
        conditions := conditions[position := c];
      } else {
        conditions := conditions + [c];
      }
    }

    method UpdateConditionList(status: ConditionStatus)
      modifies this
      ensures conditions == Settled(old(conditions), status)
    {
      ghost var before := conditions;
      for i := 0 to |conditions|
        invariant conditions == Settled(before[..i], status) + before[i..]
      {
        SettleNext(before, i, status);
        if conditions[i].kind == Pending || conditions[i].kind == Reconciling {
          conditions := conditions[i := conditions[i].(status := status)];
        }
      }
      assert before[..|before|] == before;
    }

    method SetPendingCondition(kind: ConditionType, status: ConditionStatus, reason: string, message: string,
                               now: string)
      modifies this
      ensures conditions == Apply(old(conditions), Write.SetPending(kind, status, reason, message, now))
    {
      SetCondition(NewCondition(kind, status, reason, message, now));
    }

    method SetReadyCondition(status: ConditionStatus, now: string)
      modifies this
      ensures conditions == Apply(old(conditions), Write.SetReady(status, now))
    {
      UpdateConditionList(False);
      SetCondition(NewCondition(Ready, status, REASON_READY, MESSAGE_READY, now));
    }

    method SetWarningCondition(kind: ConditionType, status: ConditionStatus, reason: string, message: string,
                               now: string)
      modifies this
      ensures conditions == Apply(old(conditions), Write.SetWarning(kind, status, reason, message, now))
    {
      SetCondition(NewCondition(kind, status, reason, message, now));
    }

    method SetErrorCondition(kind: ConditionType, status: ConditionStatus, reason: string, message: string, now: string)
      modifies this
      ensures conditions == Apply(old(conditions), Write.SetError(kind, status, reason, message, now))
    {
      UpdateConditionList(False);
      SetCondition(NewCondition(kind, status, reason, message, now));
    }
  }

  /** No two conditions share type and message. */
  ghost predicate UniqueKeys(cs: seq<Condition>) {
    forall i, j | 0 <= i < j < |cs| :: !SameKey(cs[i], cs[j])
  }

  /** Nothing is lost: every condition keeps its place, its type and its message. */
  ghost predicate Extends(before: seq<Condition>, after: seq<Condition>) {
    |before| <= |after| && forall i | 0 <= i < |before| :: SameKey(before[i], after[i])
  }

  lemma SetKeeps(cs: seq<Condition>, c: Condition)
    ensures Extends(cs, WithCondition(cs, c)) && c in WithCondition(cs, c)
    ensures UniqueKeys(cs) ==> UniqueKeys(WithCondition(cs, c))
    ensures forall x | x in WithCondition(cs, c) :: x == c || x in cs
  {
    assert WithCondition(cs, c)[Position(cs, c.kind, c.message)] == c;
  }

  lemma SettledKeeps(cs: seq<Condition>, status: ConditionStatus)
    ensures Extends(cs, Settled(cs, status)) && (UniqueKeys(cs) ==> UniqueKeys(Settled(cs, status)))
    ensures forall c | c in Settled(cs, status) && InProgress(c) :: c.status == status
  {
  }

  lemma ApplyKeeps(cs: seq<Condition>, w: Write)
    ensures Extends(cs, Apply(cs, w)) && Written(w) in Apply(cs, w)
    ensures UniqueKeys(cs) ==> UniqueKeys(Apply(cs, w))
  {
    var settled := if w.SetReady? || w.SetError? then Settled(cs, False) else cs;
    SettledKeeps(cs, False);
    SetKeeps(settled, Written(w));
  }

  /** Over any run of writes the list stays free of duplicates and loses nothing. */
  lemma {:induction false} RunKeeps(cs: seq<Condition>, ws: seq<Write>)
    ensures Extends(cs, ApplyAll(cs, ws))
    ensures UniqueKeys(cs) ==> UniqueKeys(ApplyAll(cs, ws))
    decreases |ws|
  {
    if ws != [] {
      ApplyKeeps(cs, ws[0]);
      RunKeeps(Apply(cs, ws[0]), ws[1..]);
    }
  }

  /** The condition read for a type and message, if any. */
  function ConditionOf(cs: seq<Condition>, kind: ConditionType, message: string): Option<Condition> {
    var i := Position(cs, kind, message);
    if i < |cs| then Some(cs[i]) else None
  }

  lemma SetIsRead(cs: seq<Condition>, c: Condition, kind: ConditionType, message: string)
    ensures ConditionOf(WithCondition(cs, c), kind, message) ==
            if kind == c.kind && message == c.message then Some(c) else ConditionOf(cs, kind, message)
  {
    var i := Position(cs, c.kind, c.message);
    var r := WithCondition(cs, c);
    var p, q := Position(cs, kind, message), Position(r, kind, message);
    if i < |cs| {
      PositionByKeys(cs, r, kind, message);
    } else {
      assert forall j | 0 <= j < |cs| :: r[j] == cs[j];
      assert r[|cs|] == c;
    }
  }

  lemma SettledIsRead(cs: seq<Condition>, status: ConditionStatus, kind: ConditionType, message: string)
    ensures var o := ConditionOf(cs, kind, message);
            ConditionOf(Settled(cs, status), kind, message) ==
            if (kind == Pending || kind == Reconciling) && o.Some? then Some(o.value.(status := status)) else o
  {
    PositionByKeys(cs, Settled(cs, status), kind, message);
  }

  /** A write is read back with its reason, its message and its time, and leaves every other condition alone, except
      that ready and error writes end all progress conditions. */
  lemma WriteIsRead(cs: seq<Condition>, w: Write, kind: ConditionType, message: string)
    ensures var written := match w
              case SetReady(s, now) =>
                Condition(Ready, s, now, now, "ReconcileSucceeded", "CommonService CR is ready.")
              case SetPending(k, s, reason, m, now) => Condition(k, s, now, now, reason, m)
              case SetWarning(k, s, reason, m, now) => Condition(k, s, now, now, reason, m)
              case SetError(k, s, reason, m, now) => Condition(k, s, now, now, reason, m);
            var o := ConditionOf(cs, kind, message);
            ConditionOf(Apply(cs, w), kind, message) ==
            if kind == written.kind && message == written.message then Some(written)
            else if (w.SetReady? || w.SetError?) && (kind == Pending || kind == Reconciling) && o.Some?
              then Some(o.value.(status := False))
            else o
  {
    SetIsRead(if w.SetReady? || w.SetError? then Settled(cs, False) else cs, Written(w), kind, message);
    SettledIsRead(cs, False, kind, message);
  }

  lemma PositionByKeys(a: seq<Condition>, b: seq<Condition>, kind: ConditionType, message: string)
    requires |a| == |b| && forall i | 0 <= i < |a| :: SameKey(a[i], b[i])
    ensures Position(a, kind, message) == Position(b, kind, message)
  {
  }

  ghost predicate Quiet(cs: seq<Condition>) {
    forall c | c in cs :: !(InProgress(c) && c.status == True)
  }

  /** After the CR is reported ready nothing is in progress any more; after an error exactly when the error
      is not itself reported as progress. */
  lemma NothingInProgress(cs: seq<Condition>, w: Write)
    requires w.SetReady? || w.SetError?
    ensures Quiet(Apply(cs, w)) <==> !(InProgress(Written(w)) && w.status == True)
  {
    SettledKeeps(cs, False);
    SetKeeps(Settled(cs, False), Written(w));
    assert forall c | c in Settled(cs, False) :: !(InProgress(c) && c.status == True);
    assert Written(w).status == w.status;
  }

  /** An error that is reported as a pending condition stays in progress. */
  lemma PendingErrorStays(now: string)
    ensures !Quiet(Apply([], SetError(Pending, True, "Error", "failed", now)))
  {
    NothingInProgress([], SetError(Pending, True, "Error", "failed", now));
  }
}
