/** The Deployed latch of a rule as it stands in the store. The AddonPhase controller, too, overwrites the
    whole status with what it computed from the version its reconcile started with: exactly which writes
    drop a rule's Deployed, and that none does from a status write on, as long as the rule is there and
    reconciles start from a cache that shows that write. */
module RuleLatches {
  import opened Wrappers
  import opened AddonModel
  import opened Adjacent
  import opened Logs
  import R = Rules

  type Statuses = seq<R.RuleStatus>
  type Phases = seq<Option<Phase>>

  function StatusesOf(p: Option<Phase>): Statuses {
    if p.Some? then p.value.statuses else []
  }

  /** Deployed as the next evaluation will look it up, by name. */
  predicate Has(statuses: Statuses, name: string) {
    R.Previous(R.PreviousStatuses(statuses), name).deployed
  }

  /** The last rule of this name, or -1. */
  function LastNamed(rules: seq<R.Rule>, name: string): (k: int)
    ensures -1 <= k < |rules|
    ensures k >= 0 ==> rules[k].name == name
    ensures forall i | k < i < |rules| :: rules[i].name != name
  {
    if rules == [] then -1
    else if rules[|rules| - 1].name == name then |rules| - 1
    else
      var k := LastNamed(rules[..|rules| - 1], name);
      assert forall i | 0 <= i < |rules| - 1 :: rules[..|rules| - 1][i] == rules[i];
      k
  }

  predicate IsLatched(e: Event) {
    e.Latched?
  }

  /** The evaluation the phase controller made last. */
  function LastEvaluation(log: seq<Event>): Option<Event> {
    var i := LastThat(log, IsLatched);
    if i < 0 then None else Some(log[i])
  }

  lemma LastEvaluationAppend(log: seq<Event>, e: Event)
    ensures LastEvaluation(log + [e]) == if e.Latched? then Some(e) else LastEvaluation(log)
  {
    LastThatAppend(log, e, IsLatched);
  }

  // ---- What one evaluation gives a rule ----

  /** The statuses are those of event e: an evaluation of p, with the latch applied. */
  ghost predicate FromEvaluation(cfg: Config, p: Phase, e: Event, held: Statuses) {
    && e.Latched? && e.rules == p.rules
    && (exists snap, now ::
          R.Evaluate(cfg.engine, p.rules, R.PreviousStatuses(p.statuses), snap, now) == Ok(e.evaluation))
    && held == Stamped(cfg, e.evaluation.statuses, e.evaluation.selectors, e.read)
  }

  /** The rule exists and had Deployed in the start version, or matched now under a fitting verdict. */
  predicate Earned(cfg: Config, p: Phase, e: Event, name: string)
    requires e.Latched?
  {
    var k := LastNamed(p.rules, name);
    && k >= 0
    && (Has(p.statuses, name)
        || (k < |e.evaluation.statuses| && e.evaluation.statuses[k].matched
            && VerdictFits(cfg, e.evaluation.selectors, e.read)))
  }

  lemma {:induction false} EvaluatedStatus(
    engine: R.Engine, rules: seq<R.Rule>, prev: map<string, R.RuleStatus>, snap: R.Snapshot, now: int, k: nat)
    requires R.Evaluate(engine, rules, prev, snap, now).Ok? && k < |rules|
    ensures
      var status := R.Evaluate(engine, rules, prev, snap, now).value.statuses[k];
      status.name == rules[k].name && status.deployed == R.Previous(prev, rules[k].name).deployed
  {
    if k < |rules| - 1 {
      EvaluatedStatus(engine, rules[..|rules| - 1], prev, snap, now, k);
    }
  }

  /** Looking a name up finds the status of the last rule of that name. */
  lemma {:induction false} LookupIsLast(rules: seq<R.Rule>, statuses: Statuses, name: string)
    requires |statuses| == |rules| && forall i | 0 <= i < |rules| :: statuses[i].name == rules[i].name
    ensures R.Previous(R.PreviousStatuses(statuses), name)
            == if LastNamed(rules, name) < 0 then R.NO_STATUS else statuses[LastNamed(rules, name)]
  {
    if rules != [] {
      var n := |rules| - 1;
      assert forall i | 0 <= i < n :: statuses[..n][i].name == rules[..n][i].name;
      LookupIsLast(rules[..n], statuses[..n], name);
    }
  }

  /** The latch raises Deployed of exactly the matched rules, and of none unless the verdict fits. */
  lemma StampedRaisesMatched(cfg: Config, statuses: seq<R.RuleStatus>, active: Selectors, read: AddonStatus, k: nat)
    requires k < |statuses|
    ensures
      var r := Stamped(cfg, statuses, active, read)[k];
      && r == statuses[k].(deployed := r.deployed)
      && (r.deployed <==> statuses[k].deployed || (statuses[k].matched && VerdictFits(cfg, active, read)))
  {
  }

  lemma HeldHas(cfg: Config, p: Phase, e: Event, held: Statuses, name: string)
    requires FromEvaluation(cfg, p, e, held)
    ensures Has(held, name) <==> Earned(cfg, p, e, name)
  {
    var prev := R.PreviousStatuses(p.statuses);
    var snap, now :| R.Evaluate(cfg.engine, p.rules, prev, snap, now) == Ok(e.evaluation);
    forall k | 0 <= k < |p.rules|
      ensures held[k].name == p.rules[k].name
      ensures held[k].deployed <==>
              || R.Previous(prev, p.rules[k].name).deployed
              || (e.evaluation.statuses[k].matched && VerdictFits(cfg, e.evaluation.selectors, e.read))
    {
      EvaluatedStatus(cfg.engine, p.rules, prev, snap, now, k);
      StampedRaisesMatched(cfg, e.evaluation.statuses, e.evaluation.selectors, e.read, k);
    }
    LookupIsLast(p.rules, held, name);
  }

  // ---- Where the statuses a worker holds come from ----

  predicate Holds(w: PhaseWorker) {
    w.PatchGet? || w.Patch? || w.PhaseStatusGet? || w.PhaseStatusPut?
  }

  ghost predicate HeldFrom(cfg: Config, phases: Phases, log: seq<Event>, w: PhaseWorker) {
    Holds(w) ==>
      && w.start < |phases| && phases[w.start].Some? && LastEvaluation(log).Some?
      && FromEvaluation(cfg, phases[w.start].value, LastEvaluation(log).value, w.statuses)
  }

  lemma HeldGrows(cfg: Config, s: State, r: State)
    requires HeldFrom(cfg, s.phases, s.log, s.phaseCtl) && s.phases <= r.phases
    requires LastEvaluation(r.log) == LastEvaluation(s.log)
    requires Holds(r.phaseCtl) ==>
               Holds(s.phaseCtl) && r.phaseCtl.start == s.phaseCtl.start && r.phaseCtl.statuses == s.phaseCtl.statuses
    ensures HeldFrom(cfg, r.phases, r.log, r.phaseCtl)
  {
  }

  lemma EvaluateHolds(cfg: Config, s: State, start: nat, snap: R.Snapshot, now: int)
    requires InRange(s)
    ensures var r := DoEvaluate(cfg, s, start, snap, now); HeldFrom(cfg, r.phases, r.log, r.phaseCtl)
  {
    var r := DoEvaluate(cfg, s, start, snap, now);
    if Holds(r.phaseCtl) {
      var p := s.phases[start].value;
      var e := r.log[|s.log|];
      LastEvaluationAppend(s.log, e);
      assert R.Evaluate(cfg.engine, p.rules, R.PreviousStatuses(p.statuses), snap, now) == Ok(e.evaluation);
    }
  }

  ghost predicate NoneLatched(log: seq<Event>, more: seq<Event>)
  {
    log <= more && forall i | |log| <= i < |more| :: !more[i].Latched?
  }

  lemma AddonSideHolds(cfg: Config, s: State, step: AddonStep)
    requires InRange(s)
    ensures var r := StepAddon(cfg, s, step);
            r.phases == s.phases && r.phaseCtl == s.phaseCtl && r.phaseView == s.phaseView
  {
  }

  /** Events of the Addon controller only. */
  ghost predicate NoneOfPhase(log: seq<Event>, more: seq<Event>) {
    log <= more && forall i | |log| <= i < |more| :: !more[i].Latched? && !more[i].ClearRead?
  }

  lemma AddonSideLogs(cfg: Config, s: State, step: AddonStep)
    requires InRange(s)
    ensures NoneOfPhase(s.log, StepAddon(cfg, s, step).log)
  {
    if OnApp(step) {
      AppLogs(cfg, s, step);
    } else if !step.ResolveValues? {
      QuietLogs(cfg, s, step);
    }
  }

  lemma AppLogs(cfg: Config, s: State, step: AddonStep)
    requires InRange(s) && OnApp(step)
    ensures NoneOfPhase(s.log, StepAddon(cfg, s, step).log)
  {
    if step.CreateApp? {
      CreateLogs(cfg, s);
    }
  }

  lemma CreateLogs(cfg: Config, s: State)
    requires InRange(s)
    ensures NoneOfPhase(s.log, StepAddon(cfg, s, CreateApp).log)
  {
  }

  lemma QuietLogs(cfg: Config, s: State, step: AddonStep)
    requires InRange(s) && !OnApp(step) && !step.ResolveValues?
    ensures StepAddon(cfg, s, step).log == s.log
  {
  }

  lemma SameEvaluation(log: seq<Event>, more: seq<Event>)
    requires NoneLatched(log, more)
    ensures LastEvaluation(more) == LastEvaluation(log)
  {
    LastThatSame(log, more, IsLatched);
  }

  lemma PhaseSideHolds(cfg: Config, s: State, step: PhaseStep)
    requires InRange(s) && !step.EvaluatePhase?
    ensures
      var r := StepPhase(cfg, s, step);
      && NoneLatched(s.log, r.log) && s.phases <= r.phases
      && (Holds(r.phaseCtl) ==>
            Holds(s.phaseCtl) && r.phaseCtl.start == s.phaseCtl.start && r.phaseCtl.statuses == s.phaseCtl.statuses)
  {
  }

  lemma PhaseStepHolds(cfg: Config, s: State, step: PhaseStep)
    requires InRange(s) && HeldFrom(cfg, s.phases, s.log, s.phaseCtl)
    ensures var r := StepPhase(cfg, s, step); HeldFrom(cfg, r.phases, r.log, r.phaseCtl)
  {
    if step.EvaluatePhase? {
      if s.phaseCtl.Evaluating? {
        EvaluateHolds(cfg, s, s.phaseCtl.start, step.snap, step.now);
      }
    } else {
      PhaseSideHolds(cfg, s, step);
      SameEvaluation(s.log, StepPhase(cfg, s, step).log);
      HeldGrows(cfg, s, StepPhase(cfg, s, step));
    }
  }

  lemma EnvSideHolds(s: State, step: EnvStep)
    requires InRange(s)
    ensures StepEnv(s, step).log == s.log && StepEnv(s, step).phaseCtl == s.phaseCtl
  {
  }

  lemma AddonHolds(cfg: Config, s: State, step: AddonStep)
    requires InRange(s) && HeldFrom(cfg, s.phases, s.log, s.phaseCtl)
    ensures var r := StepAddon(cfg, s, step); HeldFrom(cfg, r.phases, r.log, r.phaseCtl)
  {
    var r := StepAddon(cfg, s, step);
    AddonSideHolds(cfg, s, step);
    AddonSideLogs(cfg, s, step);
    SameEvaluation(s.log, r.log);
    HeldGrows(cfg, s, r);
  }

  lemma EnvHolds(cfg: Config, s: State, step: EnvStep)
    requires InRange(s) && HeldFrom(cfg, s.phases, s.log, s.phaseCtl)
    ensures var r := StepEnv(s, step); HeldFrom(cfg, r.phases, r.log, r.phaseCtl)
  {
    EnvSideHolds(s, step);
    HeldGrows(cfg, s, StepEnv(s, step));
  }

  lemma {:induction false} RunHolds(cfg: Config, steps: seq<Step>)
    ensures var s := Run(cfg, steps); HeldFrom(cfg, s.phases, s.log, s.phaseCtl)
  {
    if steps != [] {
      var s := Run(cfg, steps[..|steps| - 1]);
      RunHolds(cfg, steps[..|steps| - 1]);
      match steps[|steps| - 1]
      case ByAddon(a) =>
        AddonHolds(cfg, s, a);
      case ByPhase(p) => PhaseStepHolds(cfg, s, p);
      case ByEnv(e) =>
        EnvHolds(cfg, s, e);
    }
  }

  // ---- Exactly the writes that drop Deployed ----

  /** The write at hand drops the rule's Deployed: the stored status has it, and neither the start version
      nor this evaluation gives it back. */
  predicate Drops(cfg: Config, s: State, step: Step, name: string)
    requires InRange(s)
  {
    && step == ByPhase(PhasePutStatus) && s.phaseCtl.PhaseStatusPut? && s.phaseCtl.at == |s.phases| - 1
    && LastPhase(s).Some? && Has(LastPhase(s).value.statuses, name)
    && s.phaseCtl.start < |s.phases| && s.phases[s.phaseCtl.start].Some? && LastEvaluation(s.log).Some?
    && !Earned(cfg, s.phases[s.phaseCtl.start].value, LastEvaluation(s.log).value, name)
  }

  predicate KeptTo(a: Option<Phase>, b: Option<Phase>, name: string) {
    Has(StatusesOf(a), name) && b.Some? ==> Has(StatusesOf(b), name)
  }

  /** Every other write of an AddonPhase leaves the statuses, or starts from none. */
  lemma OtherPhaseWrites(cfg: Config, s: State, step: PhaseStep)
    requires InRange(s) && !step.PhasePutStatus?
    ensures
      var r := StepPhase(cfg, s, step);
      r.phases == s.phases
      || (|r.phases| == |s.phases| + 1 && s.phases <= r.phases
          && (r.phases[|s.phases|].Some? ==> StatusesOf(r.phases[|s.phases|]) == StatusesOf(LastPhase(s))))
  {
  }

  lemma EnvPhaseWrites(s: State, step: EnvStep)
    requires InRange(s)
    ensures
      var r := StepEnv(s, step);
      r.phases == s.phases
      || (|r.phases| == |s.phases| + 1 && s.phases <= r.phases
          && (r.phases[|s.phases|].Some? ==> StatusesOf(r.phases[|s.phases|]) == StatusesOf(LastPhase(s))))
  {
  }

  lemma PutDropsIff(cfg: Config, s: State, name: string)
    requires InRange(s) && HeldFrom(cfg, s.phases, s.log, s.phaseCtl) && s.phaseCtl.PhaseStatusPut?
    requires s.phaseCtl.at == |s.phases| - 1 && LastPhase(s).Some?
    ensures
      var r := DoPhasePutStatus(s, s.phaseCtl.start, s.phaseCtl.statuses, s.phaseCtl.at);
      && |r.phases| == |s.phases| + 1 && s.phases <= r.phases
      && (!KeptTo(LastPhase(s), r.phases[|s.phases|], name) <==> Drops(cfg, s, ByPhase(PhasePutStatus), name))
  {
    var w := s.phaseCtl;
    var r := DoPhasePutStatus(s, w.start, w.statuses, w.at);
    assert r.phases == s.phases + [r.phases[|s.phases|]] && StatusesOf(r.phases[|s.phases|]) == w.statuses;
    HeldHas(cfg, s.phases[w.start].value, LastEvaluation(s.log).value, w.statuses, name);
  }

  /** In every reachable state the status write at hand drops a rule's Deployed iff the stored status has it,
      the start version does not or has no such rule, and the evaluation of this reconcile did not match the
      rule under a fitting verdict. */
  lemma WriteDropsIff(cfg: Config, steps: seq<Step>, name: string)
    requires var s := Run(cfg, steps);
             s.phaseCtl.PhaseStatusPut? && s.phaseCtl.at == |s.phases| - 1 && LastPhase(s).Some?
    ensures
      var s := Run(cfg, steps);
      var w := s.phaseCtl;
      var r := DoPhasePutStatus(s, w.start, w.statuses, w.at);
      && LastPhase(r).Some?
      && w.start < |s.phases| && s.phases[w.start].Some? && LastEvaluation(s.log).Some?
      && (Has(LastPhase(s).value.statuses, name) && !Has(LastPhase(r).value.statuses, name) <==>
          && Has(LastPhase(s).value.statuses, name)
          && !Earned(cfg, s.phases[w.start].value, LastEvaluation(s.log).value, name))
  {
    RunHolds(cfg, steps);
    PutDropsIff(cfg, Run(cfg, steps), name);
  }

  /** No step of the run is such a write. */
  ghost predicate NeverDrops(cfg: Config, steps: seq<Step>, name: string) {
    steps == []
    || (var front := steps[..|steps| - 1];
        NeverDrops(cfg, front, name) && !Drops(cfg, Run(cfg, front), steps[|steps| - 1], name))
  }

  function Keeping(name: string): (Option<Phase>, Option<Phase>) -> bool {
    (a, b) => KeptTo(a, b, name)
  }

  /** What one step does to the stored phases, and whether it drops the rule's Deployed. */
  ghost predicate KeepsIff(s: State, phases: Phases, name: string, drops: bool)
    requires InRange(s)
  {
    if phases == s.phases then !drops
    else |phases| == |s.phases| + 1 && s.phases <= phases
         && (!KeptTo(LastPhase(s), phases[|s.phases|], name) <==> drops)
  }

  /** A version with the statuses of the last one keeps the rule's Deployed. */
  lemma SameStatusesKept(s: State, phases: Phases, name: string)
    requires InRange(s)
    requires phases == s.phases
             || (|phases| == |s.phases| + 1 && s.phases <= phases
                 && (phases[|s.phases|].Some? ==> StatusesOf(phases[|s.phases|]) == StatusesOf(LastPhase(s))))
    ensures KeepsIff(s, phases, name, false)
  {
  }

  lemma PutKeepsIff(cfg: Config, s: State, name: string)
    requires InRange(s) && HeldFrom(cfg, s.phases, s.log, s.phaseCtl)
    ensures KeepsIff(s, StepPhase(cfg, s, PhasePutStatus).phases, name, Drops(cfg, s, ByPhase(PhasePutStatus), name))
  {
    if s.phaseCtl.PhaseStatusPut? && s.phaseCtl.at == |s.phases| - 1 && LastPhase(s).Some? {
      PutDropsIff(cfg, s, name);
    }
  }

  lemma StepKeepsIff(cfg: Config, s: State, step: Step, name: string)
    requires InRange(s) && HeldFrom(cfg, s.phases, s.log, s.phaseCtl)
    ensures KeepsIff(s, Apply(cfg, s, step).phases, name, Drops(cfg, s, step, name))
  {
    if step == ByPhase(PhasePutStatus) {
      PutKeepsIff(cfg, s, name);
    } else {
      OtherWrites(cfg, s, step);
      SameStatusesKept(s, Apply(cfg, s, step).phases, name);
    }
  }

  lemma OtherWrites(cfg: Config, s: State, step: Step)
    requires InRange(s) && step != ByPhase(PhasePutStatus)
    ensures
      var r := Apply(cfg, s, step);
      r.phases == s.phases
      || (|r.phases| == |s.phases| + 1 && s.phases <= r.phases
          && (r.phases[|s.phases|].Some? ==> StatusesOf(r.phases[|s.phases|]) == StatusesOf(LastPhase(s))))
  {
    match step
    case ByAddon(a) => AddonSideHolds(cfg, s, a);
    case ByPhase(p) => OtherPhaseWrites(cfg, s, p);
    case ByEnv(e) => EnvPhaseWrites(s, e);
  }

  /** Over a whole run, rule edits included, a rule's Deployed latches from each version to the next iff no
      step is such a write. */
  lemma {:induction false} RuleLatchesIff(cfg: Config, steps: seq<Step>, name: string)
    ensures Always(Run(cfg, steps).phases, Keeping(name)) <==> NeverDrops(cfg, steps, name)
  {
    if steps != [] {
      var front := steps[..|steps| - 1];
      var s, r := Run(cfg, front), Run(cfg, steps);
      RuleLatchesIff(cfg, front, name);
      RunHolds(cfg, front);
      StepKeepsIff(cfg, s, steps[|steps| - 1], name);
      AlwaysSplit(s.phases, r.phases, Keeping(name));
    }
  }

  // ---- From a status write on ----

  /** From version i to version j the AddonPhase exists and has a rule of this name. */
  ghost predicate Present(ps: Phases, i: nat, j: nat, name: string)
    requires i <= j < |ps|
  {
    forall k | i <= k <= j :: ps[k].Some? && LastNamed(ps[k].value.rules, name) >= 0
  }

  /** Version i was written with new statuses: a status write of the controller. */
  predicate StatusWrite(ps: Phases, i: nat) {
    0 < i < |ps| && StatusesOf(ps[i]) != StatusesOf(ps[i - 1]) && StatusesOf(ps[i]) != []
  }

  /** Every reconcile that starts once version i is stored starts from a cache that shows it. */
  ghost predicate StartsSee(cfg: Config, steps: seq<Step>, i: nat) {
    forall t | 0 <= t < |steps| && steps[t] == ByPhase(StartPhase) ::
      i < |Run(cfg, steps[..t]).phases| ==> i <= Run(cfg, steps[..t]).phaseView
  }

  ghost predicate WorkerFacts(w: PhaseWorker, i: nat, name: string) {
    match w
    case PhaseFinalizeGet(start) => i <= start
    case PhaseFinalizePut(start, _) => i <= start
    case Evaluating(start) => i <= start
    case PatchGet(_, statuses, _) => Has(statuses, name)
    case Patch(_, statuses, _, _) => Has(statuses, name)
    case PhaseStatusGet(_, statuses) => Has(statuses, name)
    case PhaseStatusPut(_, statuses, _) => Has(statuses, name)
    case _ => true
  }

  ghost predicate SpanHas(ps: Phases, i: nat, name: string) {
    forall j | i <= j < |ps| && Present(ps, i, j, name) :: Has(StatusesOf(ps[j]), name)
  }

  ghost predicate SpanInv(s: State, i: nat, name: string)
    requires InRange(s)
  {
    i < |s.phases| ==>
      && SpanHas(s.phases, i, name)
      && (Present(s.phases, i, |s.phases| - 1, name) ==> WorkerFacts(s.phaseCtl, i, name))
  }

  lemma PresentPrefix(ps: Phases, qs: Phases, i: nat, j: nat, name: string)
    requires ps <= qs && i <= j < |ps|
    ensures Present(qs, i, j, name) <==> Present(ps, i, j, name)
  {
    assert forall k | i <= k <= j :: qs[k] == ps[k];
  }

  /** One more version with the statuses of the last, or with those a worker held. */
  lemma SpanGrows(s: State, r: State, i: nat, name: string)
    requires InRange(s) && InRange(r) && SpanInv(s, i, name) && i < |s.phases|
    requires s.phases <= r.phases && |r.phases| <= |s.phases| + 1
    requires |r.phases| > |s.phases| && r.phases[|s.phases|].Some? && Present(s.phases, i, |s.phases| - 1, name) ==>
               || StatusesOf(r.phases[|s.phases|]) == StatusesOf(LastPhase(s))
               || Has(StatusesOf(r.phases[|s.phases|]), name)
    requires Present(s.phases, i, |s.phases| - 1, name) ==> WorkerFacts(r.phaseCtl, i, name)
    ensures SpanInv(r, i, name)
  {
    var n := |s.phases|;
    forall j | i <= j < |r.phases| && Present(r.phases, i, j, name)
      ensures Has(StatusesOf(r.phases[j]), name)
    {
      PresentPrefix(s.phases, r.phases, i, if j < n then j else n - 1, name);
      assert Present(r.phases, i, if j < n then j else n - 1, name);
      assert j < n ==> r.phases[j] == s.phases[j];
    }
    if Present(r.phases, i, |r.phases| - 1, name) {
      assert Present(r.phases, i, n - 1, name);
      PresentPrefix(s.phases, r.phases, i, n - 1, name);
    }
  }

  lemma EvaluateMoves(cfg: Config, s: State, start: nat, snap: R.Snapshot, now: int)
    requires InRange(s)
    ensures var r := DoEvaluate(cfg, s, start, snap, now);
            && r.phases == s.phases && !Begun(r.phaseCtl)
            && (Holds(r.phaseCtl) ==> r.phaseCtl.start == start < |s.phases| && s.phases[start].Some?)
  {
  }

  lemma EvaluateSpan(cfg: Config, s: State, snap: R.Snapshot, now: int, i: nat, name: string)
    requires InRange(s) && SpanInv(s, i, name) && i < |s.phases| && s.phaseCtl.Evaluating?
    ensures SpanInv(DoEvaluate(cfg, s, s.phaseCtl.start, snap, now), i, name)
  {
    var start := s.phaseCtl.start;
    var r := DoEvaluate(cfg, s, start, snap, now);
    EvaluateHolds(cfg, s, start, snap, now);
    EvaluateMoves(cfg, s, start, snap, now);
    if Present(s.phases, i, |s.phases| - 1, name) && Holds(r.phaseCtl) {
      assert Present(s.phases, i, start, name);
      assert Has(StatusesOf(s.phases[start]), name);
      HeldHas(cfg, s.phases[start].value, LastEvaluation(r.log).value, r.phaseCtl.statuses, name);
    }
  }

  predicate Begun(w: PhaseWorker) {
    w.PhaseFinalizeGet? || w.PhaseFinalizePut? || w.Evaluating?
  }

  /** Before its evaluation a reconcile keeps its start version, which is the one in view when it starts. */
  lemma StartKept(cfg: Config, s: State, step: PhaseStep)
    requires InRange(s) && !step.EvaluatePhase?
    ensures
      var v := StepPhase(cfg, s, step).phaseCtl;
      Begun(v) ==> (step.StartPhase? && v.start == s.phaseView) || (Begun(s.phaseCtl) && v.start == s.phaseCtl.start)
  {
  }

  lemma FactsKept(w: PhaseWorker, v: PhaseWorker, i: nat, name: string)
    requires WorkerFacts(w, i, name)
    requires Begun(v) ==> i <= v.start || (Begun(w) && v.start == w.start)
    requires Holds(v) ==> Holds(w) && v.statuses == w.statuses
    ensures WorkerFacts(v, i, name)
  {
  }

  lemma QuietSpan(cfg: Config, s: State, step: PhaseStep, i: nat, name: string)
    requires InRange(s) && SpanInv(s, i, name) && i < |s.phases| && Present(s.phases, i, |s.phases| - 1, name)
    requires !step.EvaluatePhase? && (step.StartPhase? ==> i <= s.phaseView)
    ensures WorkerFacts(StepPhase(cfg, s, step).phaseCtl, i, name)
  {
    StartKept(cfg, s, step);
    PhaseSideHolds(cfg, s, step);
    FactsKept(s.phaseCtl, StepPhase(cfg, s, step).phaseCtl, i, name);
  }

  lemma PutSpan(cfg: Config, s: State, i: nat, name: string)
    requires InRange(s) && SpanInv(s, i, name) && i < |s.phases|
    ensures SpanInv(StepPhase(cfg, s, PhasePutStatus), i, name)
  {
    var r := StepPhase(cfg, s, PhasePutStatus);
    if Present(s.phases, i, |s.phases| - 1, name) {
      QuietSpan(cfg, s, PhasePutStatus, i, name);
    }
    SpanGrows(s, r, i, name);
  }

  lemma PhaseSpan(cfg: Config, s: State, step: PhaseStep, i: nat, name: string)
    requires InRange(s) && SpanInv(s, i, name) && i < |s.phases| && (step.StartPhase? ==> i <= s.phaseView)
    ensures SpanInv(StepPhase(cfg, s, step), i, name)
  {
    if step.EvaluatePhase? {
      if s.phaseCtl.Evaluating? {
        EvaluateSpan(cfg, s, step.snap, step.now, i, name);
      }
    } else if step.PhasePutStatus? {
      PutSpan(cfg, s, i, name);
    } else {
      OtherPhaseWrites(cfg, s, step);
      if Present(s.phases, i, |s.phases| - 1, name) {
        QuietSpan(cfg, s, step, i, name);
      }
      SpanGrows(s, StepPhase(cfg, s, step), i, name);
    }
  }

  lemma StepSpan(cfg: Config, s: State, step: Step, i: nat, name: string)
    requires InRange(s) && SpanInv(s, i, name) && i < |s.phases| && (step == ByPhase(StartPhase) ==> i <= s.phaseView)
    ensures SpanInv(Apply(cfg, s, step), i, name)
  {
    match step
    case ByAddon(a) =>
      AddonSideHolds(cfg, s, a);
      SpanGrows(s, StepAddon(cfg, s, a), i, name);
    case ByPhase(p) => PhaseSpan(cfg, s, p, i, name);
    case ByEnv(e) =>
      EnvPhaseWrites(s, e);
      EnvSideHolds(s, e);
      SpanGrows(s, StepEnv(s, e), i, name);
  }

  /** New statuses are written by the status write alone, which ends its reconcile. */
  lemma StatusWriteEnds(cfg: Config, s: State, step: Step)
    requires InRange(s) && |Apply(cfg, s, step).phases| == |s.phases| + 1
    requires StatusWrite(Apply(cfg, s, step).phases, |s.phases|)
    ensures Apply(cfg, s, step).phaseCtl.PhaseIdle?
  {
    assert Apply(cfg, s, step).phases[|s.phases| - 1] == LastPhase(s);
    if step != ByPhase(PhasePutStatus) {
      OtherWrites(cfg, s, step);
    }
  }

  lemma SpanBegins(r: State, i: nat, name: string)
    requires InRange(r) && |r.phases| == i + 1 && r.phaseCtl.PhaseIdle? && Has(StatusesOf(r.phases[i]), name)
    ensures SpanInv(r, i, name)
  {
  }

  lemma OneVersion(cfg: Config, s: State, step: Step)
    requires InRange(s)
    ensures |Apply(cfg, s, step).phases| <= |s.phases| + 1
  {
    if step != ByPhase(PhasePutStatus) {
      OtherWrites(cfg, s, step);
    }
  }

  lemma {:induction false} RunSpan(cfg: Config, steps: seq<Step>, i: nat, name: string)
    requires StartsSee(cfg, steps, i)
    requires i < |Run(cfg, steps).phases| ==>
               StatusWrite(Run(cfg, steps).phases, i) && Has(StatusesOf(Run(cfg, steps).phases[i]), name)
    ensures SpanInv(Run(cfg, steps), i, name)
  {
    if steps != [] {
      var n := |steps| - 1;
      var s := Run(cfg, steps[..n]);
      var r := Apply(cfg, s, steps[n]);
      assert r == Run(cfg, steps);
      OneVersion(cfg, s, steps[n]);
      if i < |s.phases| {
        StartsSeeFront(cfg, steps, i);
        assert r.phases[i] == s.phases[i];
        if i > 0 { assert r.phases[i - 1] == s.phases[i - 1]; }
        RunSpan(cfg, steps[..n], i, name);
        StepSpan(cfg, s, steps[n], i, name);
      } else if i < |r.phases| {
        StatusWriteEnds(cfg, s, steps[n]);
        SpanBegins(r, i, name);
      }
    }
  }

  lemma StartsSeeFront(cfg: Config, steps: seq<Step>, i: nat)
    requires StartsSee(cfg, steps, i) && steps != []
    ensures StartsSee(cfg, steps[..|steps| - 1], i)
    ensures var s := Run(cfg, steps[..|steps| - 1]);
            steps[|steps| - 1] == ByPhase(StartPhase) && i < |s.phases| ==> i <= s.phaseView
  {
    var front := steps[..|steps| - 1];
    assert forall t | 0 <= t < |front| :: front[..t] == steps[..t] && front[t] == steps[t];
  }

  /** From a status write that gave a rule Deployed, the rule keeps it as long as the AddonPhase has a rule of
      that name, whatever else is edited, if later reconciles start from a cache that shows that write. */
  lemma RuleDeployedLatches(cfg: Config, steps: seq<Step>, i: nat, j: nat, name: string)
    requires StartsSee(cfg, steps, i) && i <= j < |Run(cfg, steps).phases|
    requires StatusWrite(Run(cfg, steps).phases, i) && Present(Run(cfg, steps).phases, i, j, name)
    requires Has(StatusesOf(Run(cfg, steps).phases[i]), name)
    ensures Has(StatusesOf(Run(cfg, steps).phases[j]), name)
  {
    RunSpan(cfg, steps, i, name);
  }
}
