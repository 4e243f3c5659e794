/** The condition state machine of every resource (pkg/conditions/manager.go), with the default primary
    conditions, and the retry interval that reads it (internal/controller/addonclaim/remoteerr.go). */
module Conditions {
  import opened Clock
  import opened Wrappers

  datatype ConditionType = Ready | Progressing | Degraded | Other(name: string)

  datatype Status = True | False | Unknown

  datatype Condition = Condition(
    kind: ConditionType, status: Status, observedGeneration: nat, reason: string, message: string,
    lastTransitionTime: int)

  type Conditions = seq<Condition>

  const PRIMARY := [Ready, Progressing, Degraded]

  ghost predicate UniqueKinds(cs: Conditions) {
    forall i, j | 0 <= i < j < |cs| :: cs[i].kind != cs[j].kind
  }

  function Find(cs: Conditions, kind: ConditionType): Option<Condition> {
    if cs == [] then None else if cs[0].kind == kind then Some(cs[0]) else Find(cs[1..], kind)
  }

  /** meta.SetStatusCondition: append, or update in place, with a new transition time only for a new status. */
  function Put(cs: Conditions, c: Condition): (r: Conditions)
    ensures |cs| <= |r| <= |cs| + 1
    ensures forall i | 0 <= i < |cs| :: r[i].kind == cs[i].kind
  {
    if cs == [] then [c]
    else if cs[0].kind == c.kind then
      [if cs[0].status == c.status then c.(lastTransitionTime := cs[0].lastTransitionTime) else c] + cs[1..]
    else [cs[0]] + Put(cs[1..], c)
  }

  /** A set changes its own condition only, and its transition time exactly when the status changes. */
  lemma {:induction false} PutFind(cs: Conditions, c: Condition, kind: ConditionType)
    ensures Find(Put(cs, c), kind)
            == if kind != c.kind then Find(cs, kind)
               else
                 var was := Find(cs, kind);
                 Some(if was.Some? && was.value.status == c.status
                      then c.(lastTransitionTime := was.value.lastTransitionTime) else c)
  {
    if cs != [] {
      PutFind(cs[1..], c, kind);
      assert ([cs[0]] + Put(cs[1..], c))[1..] == Put(cs[1..], c);
    }
  }

  /** What a resource reports of one kind after it was set: the new time stands unless the status was there. */
  predicate Reports(
    was: Conditions, cs: Conditions, kind: ConditionType, status: Status, generation: nat, reason: string,
    message: string, now: int)
  {
    && Find(cs, kind).Some?
    && (var c := Find(cs, kind).value;
        && c.kind == kind && c.status == status && c.observedGeneration == generation
        && c.reason == reason && c.message == message
        && c.lastTransitionTime
           == if StatusOf(was, kind) == Some(status) then Find(was, kind).value.lastTransitionTime else now)
  }

  ghost predicate OthersSame(was: Conditions, cs: Conditions) {
    forall name :: Find(cs, Other(name)) == Find(was, Other(name))
  }

  /** Three sets report the three primaries, and nothing else changes. */
  lemma ThreeReport(cs: Conditions, ready: Condition, progressing: Condition, degraded: Condition)
    requires ready.kind == Ready && progressing.kind == Progressing && degraded.kind == Degraded
    ensures var r := Three(cs, ready, progressing, degraded);
            OthersSame(cs, r) && forall c | c in {ready, progressing, degraded} ::
              Reports(cs, r, c.kind, c.status, c.observedGeneration, c.reason, c.message, c.lastTransitionTime)
  {
    var one := Put(cs, ready);
    var two := Put(one, progressing);
    forall kind
      ensures Find(Put(two, degraded), kind)
              == if kind == Ready then Find(one, Ready) else if kind == Progressing then Find(two, Progressing)
                 else if kind == Degraded then Find(Put(two, degraded), Degraded) else Find(cs, kind)
    {
      PutFind(cs, ready, kind);
      PutFind(one, progressing, kind);
      PutFind(two, degraded, kind);
    }
    PutFind(cs, ready, Ready);
    PutFind(cs, ready, Progressing);
    PutFind(one, progressing, Progressing);
    PutFind(cs, ready, Degraded);
    PutFind(one, progressing, Degraded);
    PutFind(two, degraded, Degraded);
  }

  lemma {:induction false} PutUnique(cs: Conditions, c: Condition)
    requires UniqueKinds(cs)
    ensures UniqueKinds(Put(cs, c))
  {
    PutKinds(cs, c);
  }

  lemma {:induction false} PutKinds(cs: Conditions, c: Condition)
    ensures |Put(cs, c)| == |cs| + if exists i :: 0 <= i < |cs| && cs[i].kind == c.kind then 0 else 1
    ensures |Put(cs, c)| > |cs| ==> Put(cs, c)[|cs|].kind == c.kind
  {
    if cs != [] {
      PutKinds(cs[1..], c);
      if i :| 0 <= i < |cs| && cs[i].kind == c.kind {
        assert i > 0 ==> cs[1..][i - 1].kind == c.kind;
      }
    }
  }

  /** Put acts on the first condition of the kind. */
  lemma {:induction false} PutAt(cs: Conditions, c: Condition, i: nat)
    requires i <= |cs| && (forall k | 0 <= k < i :: cs[k].kind != c.kind) && (i < |cs| ==> cs[i].kind == c.kind)
    ensures Put(cs, c)
            == if i == |cs| then cs + [c]
               else cs[i := if cs[i].status == c.status then c.(lastTransitionTime := cs[i].lastTransitionTime) else c]
  {
    if i > 0 {
      PutAt(cs[1..], c, i - 1);
      assert cs == [cs[0]] + cs[1..];
    }
  }

  // ---- The manager ----

  class Manager {
    var conditions: Conditions
    const generation: nat

    constructor (conditions: Conditions, generation: nat)
      ensures this.conditions == conditions && this.generation == generation
    {
      this.conditions, this.generation := conditions, generation;
    }

    function Made(kind: ConditionType, status: Status, reason: string, message: string, now: int): Condition {
      Condition(kind, status, generation, reason, message, now)
    }

    method Set(kind: ConditionType, status: Status, reason: string, message: string, now: int)
      modifies this
      ensures conditions == Put(old(conditions), Made(kind, status, reason, message, now))
    {
      var c := Condition(kind, status, generation, reason, message, now);
      var i := 0;
      while i < |conditions| && conditions[i].kind != kind
        invariant 0 <= i <= |conditions|
        invariant forall k | 0 <= k < i :: conditions[k].kind != kind
      {
        i := i + 1;
      }
      PutAt(conditions, c, i);
      if i == |conditions| {
        conditions := conditions + [c];
      } else {
        if conditions[i].status == status {
          c := c.(lastTransitionTime := conditions[i].lastTransitionTime);
        }
        conditions := conditions[i := c];
      }
    }

    method SetCondition(kind: ConditionType, status: bool, reason: string, message: string, now: int)
      modifies this
      ensures conditions
              == Put(old(conditions), Made(kind, if status then True else False, reason, message, now))
    {
      var condStatus := False;
      if status {
        condStatus := True;
      }
      Set(kind, condStatus, reason, message, now);
    }

    method SetReady(reason: string, message: string, now: int)
      modifies this
      ensures conditions == Performed(old(conditions), MarkReady(reason, message), generation, now)
      ensures Reports(old(conditions), conditions, Ready, True, generation, reason, message, now)
      ensures Reports(old(conditions), conditions, Progressing, False, generation, "Complete", "", now)
      ensures Reports(old(conditions), conditions, Degraded, False, generation, "Healthy", "", now)
      ensures OthersSame(old(conditions), conditions)
    {
      Set(Ready, True, reason, message, now);
      Set(Progressing, False, "Complete", "", now);
      Set(Degraded, False, "Healthy", "", now);
      ThreeReport(old(conditions), Made(Ready, True, reason, message, now),
                  Made(Progressing, False, "Complete", "", now), Made(Degraded, False, "Healthy", "", now));
    }

    method SetProgressing(readyReason: string, progressingReason: string, message: string, now: int)
      modifies this
      ensures conditions
              == Performed(old(conditions), MarkProgressing(readyReason, progressingReason, message), generation, now)
      ensures Reports(old(conditions), conditions, Ready, False, generation, readyReason, message, now)
      ensures Reports(old(conditions), conditions, Progressing, True, generation, progressingReason, message, now)
      ensures Reports(old(conditions), conditions, Degraded, False, generation, "Healthy", "", now)
      ensures OthersSame(old(conditions), conditions)
    {
      Set(Ready, False, readyReason, message, now);
      Set(Progressing, True, progressingReason, message, now);
      Set(Degraded, False, "Healthy", "", now);
      ThreeReport(old(conditions), Made(Ready, False, readyReason, message, now),
                  Made(Progressing, True, progressingReason, message, now), Made(Degraded, False, "Healthy", "", now));
    }

    method SetDegraded(readyReason: string, degradedReason: string, message: string, now: int)
      modifies this
      ensures conditions
              == Performed(old(conditions), MarkDegraded(readyReason, degradedReason, message), generation, now)
      ensures Reports(old(conditions), conditions, Ready, False, generation, readyReason, message, now)
      ensures Reports(old(conditions), conditions, Progressing, False, generation, "Complete", "", now)
      ensures Reports(old(conditions), conditions, Degraded, True, generation, degradedReason, message, now)
      ensures OthersSame(old(conditions), conditions)
    {
      Set(Ready, False, readyReason, message, now);
      Set(Progressing, False, "Complete", "", now);
      Set(Degraded, True, degradedReason, message, now);
      ThreeReport(old(conditions), Made(Ready, False, readyReason, message, now),
                  Made(Progressing, False, "Complete", "", now), Made(Degraded, True, degradedReason, message, now));
    }

    method EnsureAllConditions(now: int)
      modifies this
      ensures conditions == Performed(old(conditions), EnsureAll, generation, now)
      ensures forall kind :: Find(conditions, kind)
                == if Find(old(conditions), kind).Some? then Find(old(conditions), kind)
                   else if kind == Ready then
                     Some(Condition(Ready, False, generation, "Initializing", "Condition not yet evaluated", now))
                   else if kind == Progressing then
                     Some(Condition(Progressing, True, generation, "Reconciling", "Reconciliation in progress", now))
                   else if kind == Degraded then Some(Condition(Degraded, False, generation, "Healthy", "", now))
                   else None
    {
      for n := 0 to |PRIMARY|
        invariant conditions == EnsuredUpTo(old(conditions), n, generation, now)
      {
        if Find(conditions, PRIMARY[n]).None? {
          match PRIMARY[n] {
            case Ready => Set(Ready, False, "Initializing", "Condition not yet evaluated", now);
            case Progressing => Set(Progressing, True, "Reconciling", "Reconciliation in progress", now);
            case _ => Set(Degraded, False, "Healthy", "", now);
          }
        }
      }
      forall kind
        ensures Find(conditions, kind)
                == if Find(old(conditions), kind).Some? || kind.Other? then Find(old(conditions), kind)
                   else Some(Default(kind, generation, now))
      {
        EnsureKind(old(conditions), generation, now, kind);
      }
    }
  }

  // ---- What the calls do, as functions ----

  datatype Call =
    | EnsureAll
    | MarkReady(reason: string, message: string)
    | MarkProgressing(readyReason: string, progressingReason: string, message: string)
    | MarkDegraded(readyReason: string, degradedReason: string, message: string)
    | Pause
    | SetOther(name: string, status: bool, reason: string, message: string)

  function Default(kind: ConditionType, generation: nat, now: int): Condition {
    match kind
    case Progressing => Condition(Progressing, True, generation, "Reconciling", "Reconciliation in progress", now)
    case Degraded => Condition(Degraded, False, generation, "Healthy", "", now)
    case _ => Condition(Ready, False, generation, "Initializing", "Condition not yet evaluated", now)
  }

  function EnsuredUpTo(cs: Conditions, n: nat, generation: nat, now: int): Conditions
    requires n <= |PRIMARY|
  {
    if n == 0 then cs
    else
      var before, kind := EnsuredUpTo(cs, n - 1, generation, now), PRIMARY[n - 1];
      if Find(before, kind).None? then Put(before, Default(kind, generation, now)) else before
  }

  function Three(cs: Conditions, ready: Condition, progressing: Condition, degraded: Condition): Conditions {
    Put(Put(Put(cs, ready), progressing), degraded)
  }

  predicate Decides(call: Call) {
    call.MarkReady? || call.MarkProgressing? || call.MarkDegraded?
  }

  /** What a decision sets for Ready, Progressing and Degraded. */
  function Decision(call: Call, generation: nat, now: int): (Condition, Condition, Condition)
    requires Decides(call)
  {
    match call
    case MarkReady(reason, message) =>
      (Condition(Ready, True, generation, reason, message, now),
       Condition(Progressing, False, generation, "Complete", "", now),
       Condition(Degraded, False, generation, "Healthy", "", now))
    case MarkProgressing(readyReason, progressingReason, message) =>
      (Condition(Ready, False, generation, readyReason, message, now),
       Condition(Progressing, True, generation, progressingReason, message, now),
       Condition(Degraded, False, generation, "Healthy", "", now))
    case MarkDegraded(readyReason, degradedReason, message) =>
      (Condition(Ready, False, generation, readyReason, message, now),
       Condition(Progressing, False, generation, "Complete", "", now),
       Condition(Degraded, True, generation, degradedReason, message, now))
  }

  function PausedCondition(kind: ConditionType, generation: nat, now: int): Condition {
    Condition(kind, False, generation, "Paused", "Reconciliation is paused", now)
  }

  function Performed(cs: Conditions, call: Call, generation: nat, now: int): Conditions {
    match call
    case EnsureAll => EnsuredUpTo(cs, |PRIMARY|, generation, now)
    case Pause => Put(Put(cs, PausedCondition(Ready, generation, now)), PausedCondition(Progressing, generation, now))
    case SetOther(name, status, reason, message) =>
      Put(cs, Condition(Other(name), if status then True else False, generation, reason, message, now))
    case _ =>
      var (ready, progressing, degraded) := Decision(call, generation, now);
      Three(cs, ready, progressing, degraded)
  }

  // ---- The primary conditions ----

  function StatusOf(cs: Conditions, kind: ConditionType): Option<Status> {
    var c := Find(cs, kind);
    if c.Some? then Some(c.value.status) else None
  }

  function CountTrue(cs: Conditions): nat {
    (if StatusOf(cs, Ready) == Some(True) then 1 else 0)
    + (if StatusOf(cs, Progressing) == Some(True) then 1 else 0)
    + (if StatusOf(cs, Degraded) == Some(True) then 1 else 0)
  }

  predicate Decided(s: Option<Status>) {
    s == Some(True) || s == Some(False)
  }

  /** All primary conditions are there, True or False. */
  predicate Explicit(cs: Conditions) {
    Decided(StatusOf(cs, Ready)) && Decided(StatusOf(cs, Progressing)) && Decided(StatusOf(cs, Degraded))
  }

  predicate NoneUnknown(cs: Conditions) {
    && StatusOf(cs, Ready) != Some(Unknown) && StatusOf(cs, Progressing) != Some(Unknown)
    && StatusOf(cs, Degraded) != Some(Unknown)
  }

  lemma StatusCases(s: Option<Status>)
    ensures s == None || s == Some(True) || s == Some(False) || s == Some(Unknown)
  {
    match s {
      case None =>
      case Some(v) => match v { case True => case False => case Unknown => }
    }
  }

  lemma EnsureOne(cs: Conditions, n: nat, generation: nat, now: int, kind: ConditionType)
    requires n < |PRIMARY|
    ensures Find(EnsuredUpTo(cs, n + 1, generation, now), kind)
            == var was := Find(EnsuredUpTo(cs, n, generation, now), kind);
               if kind == PRIMARY[n] && was.None? then Some(Default(kind, generation, now)) else was
  {
    PutFind(EnsuredUpTo(cs, n, generation, now), Default(PRIMARY[n], generation, now), kind);
  }

  lemma EnsureKind(cs: Conditions, generation: nat, now: int, kind: ConditionType)
    ensures Find(Performed(cs, EnsureAll, generation, now), kind)
            == var was := Find(cs, kind);
               if was.None? && !kind.Other? then Some(Default(kind, generation, now)) else was
  {
    EnsureOne(cs, 0, generation, now, kind);
    EnsureOne(cs, 1, generation, now, kind);
    EnsureOne(cs, 2, generation, now, kind);
    assert PRIMARY[0] == Ready && PRIMARY[1] == Progressing && PRIMARY[2] == Degraded;
  }

  lemma EnsureStatuses(cs: Conditions, generation: nat, now: int)
    ensures
      var r := Performed(cs, EnsureAll, generation, now);
      && StatusOf(r, Ready) == Some(if StatusOf(cs, Ready).Some? then StatusOf(cs, Ready).value else False)
      && StatusOf(r, Progressing)
         == Some(if StatusOf(cs, Progressing).Some? then StatusOf(cs, Progressing).value else True)
      && StatusOf(r, Degraded) == Some(if StatusOf(cs, Degraded).Some? then StatusOf(cs, Degraded).value else False)
  {
    EnsureKind(cs, generation, now, Ready);
    EnsureKind(cs, generation, now, Progressing);
    EnsureKind(cs, generation, now, Degraded);
  }

  /** From any conditions, even partial ones, EnsureAllConditions leaves exactly one primary True and the
      others False exactly when none was Unknown and the present ones leave room for what it adds. */
  lemma EnsureExactIff(cs: Conditions, generation: nat, now: int)
    ensures
      var r := Performed(cs, EnsureAll, generation, now);
      Explicit(r) && CountTrue(r) == 1 <==>
      NoneUnknown(cs) && CountTrue(cs) == if StatusOf(cs, Progressing).None? then 0 else 1
  {
    EnsureStatuses(cs, generation, now);
    StatusCases(StatusOf(cs, Ready));
    StatusCases(StatusOf(cs, Progressing));
    StatusCases(StatusOf(cs, Degraded));
  }

  /** A resource that has Ready alone ends up with two primaries True. */
  lemma PartialStateCanDouble(ready: Condition, generation: nat, now: int)
    requires ready.kind == Ready && ready.status == True
    ensures CountTrue(Performed([ready], EnsureAll, generation, now)) == 2
  {
    EnsureStatuses([ready], generation, now);
    assert Find([ready][1..], Progressing) == None && Find([ready][1..], Degraded) == None;
  }

  // ---- Reachable conditions ----

  datatype Timed = Timed(call: Call, generation: nat, now: int)

  /** Every reconcile begins with EnsureAllConditions, so every resource's history does. */
  function After(calls: seq<Timed>): Conditions {
    if calls == [] then []
    else
      var last := calls[|calls| - 1];
      Performed(After(calls[..|calls| - 1]), last.call, last.generation, last.now)
  }

  /** Since the last decision (SetReady, SetProgressing, SetDegraded) the resource was paused. */
  predicate PausedSince(calls: seq<Timed>) {
    calls != [] &&
      var call := calls[|calls| - 1].call;
      call.Pause? || ((call.EnsureAll? || call.SetOther?) && PausedSince(calls[..|calls| - 1]))
  }

  /** The last decision there was, if any. */
  function LastDecision(calls: seq<Timed>): Option<Call> {
    if calls == [] then None
    else
      var call := calls[|calls| - 1].call;
      if call.MarkReady? || call.MarkProgressing? || call.MarkDegraded? then Some(call)
      else LastDecision(calls[..|calls| - 1])
  }

  lemma PutStatuses(cs: Conditions, c: Condition)
    ensures forall kind :: StatusOf(Put(cs, c), kind) == if kind == c.kind then Some(c.status) else StatusOf(cs, kind)
  {
    forall kind
      ensures StatusOf(Put(cs, c), kind) == if kind == c.kind then Some(c.status) else StatusOf(cs, kind)
    {
      PutFind(cs, c, kind);
    }
  }

  lemma ThreeStatuses(cs: Conditions, ready: Condition, progressing: Condition, degraded: Condition)
    requires ready.kind == Ready && progressing.kind == Progressing && degraded.kind == Degraded
    ensures
      var r := Three(cs, ready, progressing, degraded);
      StatusOf(r, Ready) == Some(ready.status) && StatusOf(r, Progressing) == Some(progressing.status)
      && StatusOf(r, Degraded) == Some(degraded.status)
  {
    PutStatuses(cs, ready);
    PutStatuses(Put(cs, ready), progressing);
    PutStatuses(Put(Put(cs, ready), progressing), degraded);
  }

  lemma PauseStatuses(cs: Conditions, generation: nat, now: int)
    ensures
      var r := Performed(cs, Pause, generation, now);
      StatusOf(r, Ready) == Some(False) && StatusOf(r, Progressing) == Some(False)
      && StatusOf(r, Degraded) == StatusOf(cs, Degraded)
  {
    var ready, progressing := PausedCondition(Ready, generation, now), PausedCondition(Progressing, generation, now);
    PutStatuses(cs, ready);
    PutStatuses(Put(cs, ready), progressing);
  }

  /** In every history the primary that is True is that of the last decision, or Progressing while there is
      none; a pause since then takes Ready and Progressing away, but not Degraded. So at most one is True, and
      "exactly one" fails precisely for resources paused while not degraded. */
  lemma {:induction false} PrimariesExclusive(calls: seq<Timed>)
    requires calls != [] && calls[0].call.EnsureAll?
    ensures var cs := After(calls);
            && Explicit(cs) && CountTrue(cs) <= 1
            && (var last := LastDecision(calls);
                && (StatusOf(cs, Ready) == Some(True) <==>
                    !PausedSince(calls) && last.Some? && last.value.MarkReady?)
                && (StatusOf(cs, Progressing) == Some(True) <==>
                    !PausedSince(calls) && (last.Some? ==> last.value.MarkProgressing?))
                && (StatusOf(cs, Degraded) == Some(True) <==> last.Some? && last.value.MarkDegraded?))
            && (CountTrue(cs) == 0 <==> PausedSince(calls) && StatusOf(cs, Degraded) == Some(False))
  {
    var n := |calls| - 1;
    var last := calls[n];
    var was := After(calls[..n]);
    if n == 0 {
      assert was == [];
      EnsureStatuses([], last.generation, last.now);
      assert !PausedSince(calls[..n]) && LastDecision(calls[..n]).None?;
    } else {
      PrimariesExclusive(calls[..n]);
      if last.call.EnsureAll? {
        EnsureStatuses(was, last.generation, last.now);
      } else if last.call.Pause? {
        PauseStatuses(was, last.generation, last.now);
      } else if last.call.SetOther? {
        var (call, status) := (last.call, if last.call.status then True else False);
        PutStatuses(was, Condition(Other(call.name), status, last.generation, call.reason, call.message, last.now));
      } else {
        var (ready, progressing, degraded) := Decision(last.call, last.generation, last.now);
        ThreeStatuses(was, ready, progressing, degraded);
      }
    }
  }

  lemma {:induction false} EnsuredUnique(cs: Conditions, n: nat, generation: nat, now: int)
    requires UniqueKinds(cs) && n <= |PRIMARY|
    ensures UniqueKinds(EnsuredUpTo(cs, n, generation, now))
  {
    if n > 0 {
      EnsuredUnique(cs, n - 1, generation, now);
      PutUnique(EnsuredUpTo(cs, n - 1, generation, now), Default(PRIMARY[n - 1], generation, now));
    }
  }

  lemma ThreeUnique(cs: Conditions, ready: Condition, progressing: Condition, degraded: Condition)
    requires UniqueKinds(cs)
    ensures UniqueKinds(Three(cs, ready, progressing, degraded))
  {
    PutUnique(cs, ready);
    PutUnique(Put(cs, ready), progressing);
    PutUnique(Put(Put(cs, ready), progressing), degraded);
  }

  lemma PerformedUnique(cs: Conditions, call: Call, generation: nat, now: int)
    requires UniqueKinds(cs)
    ensures UniqueKinds(Performed(cs, call, generation, now))
  {
    match call
    case EnsureAll => EnsuredUnique(cs, |PRIMARY|, generation, now);
    case Pause =>
      PutUnique(cs, PausedCondition(Ready, generation, now));
      PutUnique(Put(cs, PausedCondition(Ready, generation, now)), PausedCondition(Progressing, generation, now));
    case SetOther(name, status, reason, message) =>
      PutUnique(cs, Condition(Other(name), if status then True else False, generation, reason, message, now));
    case _ =>
      var (ready, progressing, degraded) := Decision(call, generation, now);
      ThreeUnique(cs, ready, progressing, degraded);
  }

  /** A resource never has two conditions of one kind. */
  lemma {:induction false} HistoryUnique(calls: seq<Timed>)
    ensures UniqueKinds(After(calls))
  {
    if calls != [] {
      var last := calls[|calls| - 1];
      HistoryUnique(calls[..|calls| - 1]);
      PerformedUnique(After(calls[..|calls| - 1]), last.call, last.generation, last.now);
    }
  }

  // ---- Transition times ----

  function PutAll(cs: Conditions, sets: seq<Condition>): Conditions {
    if sets == [] then cs else Put(PutAll(cs, sets[..|sets| - 1]), sets[|sets| - 1])
  }

  /** The sets of one condition from s on all carry the status of the last, and the one before s does not. */
  ghost predicate StreakFrom(sets: seq<Condition>, kind: ConditionType, s: nat) {
    && s < |sets| && sets[s].kind == kind
    && (forall i | s <= i < |sets| && sets[i].kind == kind :: sets[i].status == sets[s].status)
    && (forall i | 0 <= i < s && sets[i].kind == kind ::
          (exists j | i < j < s :: sets[j].kind == kind) || sets[i].status != sets[s].status)
  }

  /** Whatever else is set in between, a condition's transition time is that of the first set of the
      present streak of equal statuses. */
  lemma {:induction false} TransitionTimeIsStreakStart(sets: seq<Condition>, kind: ConditionType, s: nat)
    requires StreakFrom(sets, kind, s)
    ensures Find(PutAll([], sets), kind).Some?
    ensures Find(PutAll([], sets), kind).value.lastTransitionTime == sets[s].lastTransitionTime
    ensures Find(PutAll([], sets), kind).value.status == sets[s].status
    decreases |sets|
  {
    var n := |sets| - 1;
    var front := sets[..n];
    PutFind(PutAll([], front), sets[n], kind);
    if s < n {
      StreakShortens(sets, kind, s);
      TransitionTimeIsStreakStart(front, kind, s);
    } else {
      StreakJustBegins(sets, kind);
      StatusBeforeDiffers(front, kind, sets[n].status);
    }
  }

  lemma StreakShortens(sets: seq<Condition>, kind: ConditionType, s: nat)
    requires StreakFrom(sets, kind, s) && s < |sets| - 1
    ensures StreakFrom(sets[..|sets| - 1], kind, s)
  {
    var front := sets[..|sets| - 1];
    assert forall i | 0 <= i < |front| :: front[i] == sets[i];
  }

  lemma StreakJustBegins(sets: seq<Condition>, kind: ConditionType)
    requires sets != [] && StreakFrom(sets, kind, |sets| - 1)
    ensures var front := sets[..|sets| - 1];
            forall i | 0 <= i < |front| && front[i].kind == kind ::
              (exists j | i < j < |front| :: front[j].kind == kind) || front[i].status != sets[|sets| - 1].status
  {
    var front := sets[..|sets| - 1];
    forall i | 0 <= i < |front| && front[i].kind == kind
      ensures (exists j | i < j < |front| :: front[j].kind == kind) || front[i].status != sets[|sets| - 1].status
    {
      if sets[i].status == sets[|sets| - 1].status {
        var j :| i < j < |sets| - 1 && sets[j].kind == kind;
        assert front[j].kind == kind;
      }
    }
  }

  /** If every last set of the kind had another status, so has the condition. */
  lemma {:induction false} StatusBeforeDiffers(sets: seq<Condition>, kind: ConditionType, status: Status)
    requires forall i | 0 <= i < |sets| && sets[i].kind == kind ::
               (exists j | i < j < |sets| :: sets[j].kind == kind) || sets[i].status != status
    ensures var was := Find(PutAll([], sets), kind); was.Some? ==> was.value.status != status
    decreases |sets|
  {
    if sets != [] {
      var n := |sets| - 1;
      PutFind(PutAll([], sets[..n]), sets[n], kind);
      if sets[n].kind != kind {
        forall i | 0 <= i < n && sets[..n][i].kind == kind
          ensures (exists j | i < j < n :: sets[..n][j].kind == kind) || sets[..n][i].status != status
        {
          if sets[i].status == status {
            var j :| i < j < |sets| && sets[j].kind == kind;
            assert sets[..n][j].kind == kind;
          }
        }
        StatusBeforeDiffers(sets[..n], kind, status);
      }
    }
  }

  // ---- The retry interval of a claim whose cluster is not ready ----

  const RETRY_FAST := 5 * SECOND
  const RETRY_SLOW := 30 * SECOND
  const FAST_WINDOW := 180 * SECOND
  const ADDON_SYNCED := Other("AddonSynced")

  function NotReadyRequeue(synced: Option<Condition>, now: int): int {
    if synced.None? || synced.value.status != False then RETRY_FAST
    else if now - synced.value.lastTransitionTime < FAST_WINDOW then RETRY_FAST
    else RETRY_SLOW
  }

  /** A condition that was ever set has a present streak. */
  lemma {:induction false} SomeStreak(sets: seq<Condition>, kind: ConditionType)
    ensures (exists i :: 0 <= i < |sets| && sets[i].kind == kind) <==> exists s: nat :: StreakFrom(sets, kind, s)
    decreases |sets|
  {
    if exists i :: 0 <= i < |sets| && sets[i].kind == kind {
      var n := |sets| - 1;
      var front := sets[..n];
      SomeStreak(front, kind);
      if s: nat :| StreakFrom(front, kind, s) {
        StreakGrows(sets, kind, s);
      } else {
        assert forall j | 0 <= j < n :: sets[j].kind == front[j].kind != kind;
        assert StreakFrom(sets, kind, n);
      }
    }
  }

  /** One more set continues the streak, begins the next or is of another kind. */
  lemma StreakGrows(sets: seq<Condition>, kind: ConditionType, s: nat)
    requires sets != [] && StreakFrom(sets[..|sets| - 1], kind, s)
    ensures exists r: nat :: StreakFrom(sets, kind, r)
  {
    var n := |sets| - 1;
    var front := sets[..n];
    assert forall i | 0 <= i < n :: front[i] == sets[i];
    if sets[n].kind == kind && sets[n].status != sets[s].status {
      forall i | 0 <= i < n && sets[i].kind == kind
        ensures (exists j | i < j < n :: sets[j].kind == kind) || sets[i].status != sets[n].status
      {
        if i < s {
          assert i < s < n && sets[s].kind == kind;
        }
      }
      assert StreakFrom(sets, kind, n);
    } else {
      assert StreakFrom(sets, kind, s);
    }
  }

  lemma {:induction false} NeverSet(sets: seq<Condition>, kind: ConditionType)
    requires forall i | 0 <= i < |sets| :: sets[i].kind != kind
    ensures Find(PutAll([], sets), kind).None?
  {
    if sets != [] {
      var n := |sets| - 1;
      NeverSet(sets[..n], kind);
      PutFind(PutAll([], sets[..n]), sets[n], kind);
    }
  }

  /** The present streak began with set s, three minutes ago or more, and is one of failures. */
  ghost predicate OldFailure(sets: seq<Condition>, s: nat, now: int) {
    && StreakFrom(sets, ADDON_SYNCED, s) && sets[s].status == False
    && now - sets[s].lastTransitionTime >= 180 * SECOND
  }

  lemma OldFailureRead(sets: seq<Condition>, s: nat, now: int)
    requires OldFailure(sets, s, now)
    ensures var c := Find(PutAll([], sets), ADDON_SYNCED);
            c.Some? && c.value.status == False && now - c.value.lastTransitionTime >= 180 * SECOND
  {
    TransitionTimeIsStreakStart(sets, ADDON_SYNCED, s);
  }

  /** Read back from the stored condition alone, the interval is 30 seconds exactly when there is a present
      streak of failed syncs that is three minutes old, whatever the failures in it were, and else 5. */
  lemma SlowRetryIff(sets: seq<Condition>, now: int)
    ensures NotReadyRequeue(Find(PutAll([], sets), ADDON_SYNCED), now)
            == if exists s: nat :: OldFailure(sets, s, now) then 30 * SECOND else 5 * SECOND
  {
    SomeStreak(sets, ADDON_SYNCED);
    if s: nat :| StreakFrom(sets, ADDON_SYNCED, s) {
      TransitionTimeIsStreakStart(sets, ADDON_SYNCED, s);
      if OldFailure(sets, s, now) {
        OldFailureRead(sets, s, now);
      }
      forall r: nat | OldFailure(sets, r, now)
        ensures OldFailure(sets, s, now)
      {
        OldFailureRead(sets, r, now);
      }
    } else {
      NeverSet(sets, ADDON_SYNCED);
    }
  }
}
