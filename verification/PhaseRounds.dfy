/** When the AddonPhase controller stops writing its status: on an unchanged cluster everything but the
    Deployed latch settles after two rounds, and the latch after the verdict it waits for. */
module PhaseRounds {
  import opened Wrappers
  import opened AddonModel
  import H = RuleHistory
  import R = Rules

  /** The statuses a reconcile is about to store. */
  function HeldBy(w: PhaseWorker): Option<seq<R.RuleStatus>> {
    match w
    case PatchGet(_, statuses, _) => Some(statuses)
    case PhaseStatusGet(_, statuses) => Some(statuses)
    case _ => None
  }

  /** A rule that matches and is not yet Deployed. */
  ghost predicate Waiting(statuses: seq<R.RuleStatus>) {
    exists i | 0 <= i < |statuses| :: Stamp(statuses[i]) != statuses[i]
  }

  lemma StampedSame(cfg: Config, statuses: seq<R.RuleStatus>, active: Selectors, read: AddonStatus)
    ensures Stamped(cfg, statuses, active, read) == statuses <==>
            !(VerdictFits(cfg, active, read) && Waiting(statuses))
  {
    var held := Stamped(cfg, statuses, active, read);
    if VerdictFits(cfg, active, read) && Waiting(statuses) {
      var i :| 0 <= i < |statuses| && Stamp(statuses[i]) != statuses[i];
      assert held[i] != statuses[i];
    }
  }

  /** What one reconcile stores for the rules, given the statuses it started from and the verdict it read. */
  function Committed(cfg: Config, rules: seq<R.Rule>, before: seq<R.RuleStatus>, snap: R.Snapshot, now: int,
                     read: AddonStatus): Result<seq<R.RuleStatus>>
  {
    match R.Evaluate(cfg.engine, rules, R.PreviousStatuses(before), snap, now)
    case Err(e) => Err(e)
    case Ok(ev) => Ok(Stamped(cfg, ev.statuses, ev.selectors, read))
  }

  lemma CommitIsRound(cfg: Config, rules: seq<R.Rule>, before: seq<R.RuleStatus>, snap: R.Snapshot, now: int,
                      read: AddonStatus, after: seq<R.RuleStatus>)
    requires Committed(cfg, rules, before, snap, now, read) == Ok(after)
    ensures H.Round(cfg.engine, rules, before, snap, now, after)
  {
  }

  datatype Rounds = Rounds(before: seq<R.RuleStatus>, t1: int, read1: AddonStatus, one: seq<R.RuleStatus>,
                           t2: int, read2: AddonStatus)

  /** Two reconciles on this cluster led here, from any statuses and with any verdicts. */
  predicate TwoRounds(cfg: Config, rules: seq<R.Rule>, snap: R.Snapshot, h: Rounds, statuses: seq<R.RuleStatus>) {
    && Committed(cfg, rules, h.before, snap, h.t1, h.read1) == Ok(h.one)
    && Committed(cfg, rules, h.one, snap, h.t2, h.read2) == Ok(statuses)
  }

  lemma Settled(cfg: Config, rules: seq<R.Rule>, snap: R.Snapshot, h: Rounds, statuses: seq<R.RuleStatus>, now: int)
    requires H.UniqueNames(rules) && (forall i | 0 <= i < |rules| :: rules[i].name != "")
    requires TwoRounds(cfg, rules, snap, h, statuses)
    ensures var ev := R.Evaluate(cfg.engine, rules, R.PreviousStatuses(statuses), snap, now);
            ev.Ok? && ev.value.statuses == statuses
  {
    CommitIsRound(cfg, rules, h.before, snap, h.t1, h.read1, h.one);
    CommitIsRound(cfg, rules, h.one, snap, h.t2, h.read2, statuses);
    H.FixedPointAfterTwoRounds(cfg.engine, rules, h.before, snap, h.t1, h.t2, now, h.one, statuses);
  }

  lemma EvaluationHeld(cfg: Config, s: State, p: Phase, a: Addon, snap: R.Snapshot, now: int, ev: R.Evaluation)
    requires InRange(s) && s.phaseCtl.Evaluating? && s.phaseCtl.start < |s.phases|
    requires s.phases[s.phaseCtl.start] == Some(p) && SeenAddon(s) == Some(a)
    requires R.Evaluate(cfg.engine, p.rules, R.PreviousStatuses(p.statuses), snap, now) == Ok(ev)
    ensures HeldBy(DoEvaluate(cfg, s, s.phaseCtl.start, snap, now).phaseCtl)
            == Some(Stamped(cfg, ev.statuses, ev.selectors, a.status))
  {
  }

  /** After two rounds on an unchanged cluster an evaluation leaves the statuses of its start version as
      they are, in every state of the protocol, unless the verdict now read fits the active selectors and a
      matched rule still waits for it. */
  lemma ThirdRoundSameIff(cfg: Config, s: State, p: Phase, a: Addon, snap: R.Snapshot, now: int, h: Rounds)
    requires InRange(s) && s.phaseCtl.Evaluating? && s.phaseCtl.start < |s.phases|
    requires s.phases[s.phaseCtl.start] == Some(p) && SeenAddon(s) == Some(a)
    requires H.UniqueNames(p.rules) && forall i | 0 <= i < |p.rules| :: p.rules[i].name != ""
    requires TwoRounds(cfg, p.rules, snap, h, p.statuses)
    ensures
      var ev := R.Evaluate(cfg.engine, p.rules, R.PreviousStatuses(p.statuses), snap, now);
      var w := DoEvaluate(cfg, s, s.phaseCtl.start, snap, now).phaseCtl;
      && ev.Ok? && HeldBy(w).Some?
      && (HeldBy(w).value == p.statuses <==>
          !(VerdictFits(cfg, ev.value.selectors, a.status) && Waiting(p.statuses)))
  {
    Settled(cfg, p.rules, snap, h, p.statuses, now);
    var ev := R.Evaluate(cfg.engine, p.rules, R.PreviousStatuses(p.statuses), snap, now).value;
    EvaluationHeld(cfg, s, p, a, snap, now, ev);
    StampedSame(cfg, p.statuses, ev.selectors, a.status);
  }

  /** Statuses equal to those of the start version are not written when nothing else changed: exactly then the
      reconcile ends there, in every state in which it closes. Otherwise it goes on to write. */
  lemma ClosesUnwrittenIff(cfg: Config, s: State, at: nat, others: bool)
    requires InRange(s) && s.phaseCtl.PhaseStatusGet? && s.phaseCtl.start < |s.phases|
    requires s.phases[s.phaseCtl.start].Some? && s.phaseView <= at < |s.phases| && s.phases[at].Some?
    ensures
      var r := StepPhase(cfg, s, PhaseReadForStatus(at, others));
      && r == s.(phaseCtl := r.phaseCtl)
      && (r.phaseCtl.PhaseIdle? <==> s.phases[s.phaseCtl.start].value.statuses == s.phaseCtl.statuses && !others)
      && (!r.phaseCtl.PhaseIdle? ==> r.phaseCtl.PhaseStatusPut?)
  {
  }

  lemma EvaluatesTo(cfg: Config, s: State, p: Phase, a: Addon, snap: R.Snapshot, now: int, ev: R.Evaluation)
    requires InRange(s) && s.phaseCtl.Evaluating? && s.phaseCtl.start < |s.phases|
    requires s.phases[s.phaseCtl.start] == Some(p) && SeenAddon(s) == Some(a)
    requires R.Evaluate(cfg.engine, p.rules, R.PreviousStatuses(p.statuses), snap, now) == Ok(ev)
    requires SelectorsEqual(a.status.phaseSelectors, ev.selectors)
    ensures var r := StepPhase(cfg, s, EvaluatePhase(snap, now));
            r == s.(log := r.log, phaseCtl := PhaseStatusGet(s.phaseCtl.start,
                                                             Stamped(cfg, ev.statuses, ev.selectors, a.status)))
  {
  }

  /** A whole reconcile of an AddonPhase that two rounds on this cluster left, and whose selectors the Addon
      has: it writes nothing iff no matched rule waits for a verdict that now fits and no other part of its
      status changed. */
  lemma ReconcileWritesNothingIff(
    cfg: Config, s: State, p: Phase, a: Addon, snap: R.Snapshot, now: int, h: Rounds, at: nat, others: bool)
    requires InRange(s) && s.phaseCtl.PhaseIdle? && s.phases[s.phaseView] == Some(p) && SeenAddon(s) == Some(a)
    requires !p.deleting && p.finalizer
    requires H.UniqueNames(p.rules) && forall i | 0 <= i < |p.rules| :: p.rules[i].name != ""
    requires TwoRounds(cfg, p.rules, snap, h, p.statuses)
    requires s.phaseView <= at < |s.phases| && s.phases[at].Some?
    requires var ev := R.Evaluate(cfg.engine, p.rules, R.PreviousStatuses(p.statuses), snap, now);
             ev.Ok? ==> SelectorsEqual(a.status.phaseSelectors, ev.value.selectors)
    ensures
      var ev := R.Evaluate(cfg.engine, p.rules, R.PreviousStatuses(p.statuses), snap, now);
      var started := StepPhase(cfg, s, StartPhase);
      var evaluated := StepPhase(cfg, started, EvaluatePhase(snap, now));
      var r := StepPhase(cfg, evaluated, PhaseReadForStatus(at, others));
      && ev.Ok? && r.phases == s.phases && r.addons == s.addons
      && (r.phaseCtl.PhaseIdle? <==>
          !(VerdictFits(cfg, ev.value.selectors, a.status) && Waiting(p.statuses)) && !others)
      && (!r.phaseCtl.PhaseIdle? ==> r.phaseCtl.PhaseStatusPut?)
  {
    Settled(cfg, p.rules, snap, h, p.statuses, now);
    var ev := R.Evaluate(cfg.engine, p.rules, R.PreviousStatuses(p.statuses), snap, now).value;
    var started := s.(phaseCtl := Evaluating(s.phaseView));
    assert StepPhase(cfg, s, StartPhase) == started && SeenAddon(started) == Some(a);
    EvaluatesTo(cfg, started, p, a, snap, now, ev);
    StampedSame(cfg, p.statuses, ev.selectors, a.status);
    ClosesUnwrittenIff(cfg, StepPhase(cfg, started, EvaluatePhase(snap, now)), at, others);
  }
}
