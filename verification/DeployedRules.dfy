/** A rule reported as Deployed really was deployed, in every reachable state. */
module DeployedRules {
  import opened Wrappers
  import opened AddonModel
  import opened LatchSafety
  import A = Applications
  import R = Rules
  import F = Fnv

  /** Event i is an evaluation at which rule k, of this name, matched with its selector active, under a
      verdict computed for exactly the active selectors by an earlier translation. */
  ghost predicate LatchedAt(cfg: Config, log: Log, i: nat, k: nat, name: string) {
    && i < |log| && log[i].Latched?
    && k < |log[i].rules| && log[i].rules[k].name == name
    && log[i].rules[k].selector in log[i].evaluation.selectors
    && log[i].read.phaseSelectors == log[i].evaluation.selectors
    && log[i].read.observedHash == F.SelectorsHash(cfg.encode, log[i].evaluation.selectors)
    && log[i].read.synced && log[i].read.healthy
    && TripleFrom(cfg, log[..i], log[i].read)
  }

  ghost predicate DeployedBy(cfg: Config, log: Log, name: string) {
    exists i: nat, k: nat :: LatchedAt(cfg, log, i, k, name)
  }

  ghost predicate StatusesTraced(cfg: Config, log: Log, statuses: seq<R.RuleStatus>) {
    forall j | 0 <= j < |statuses| && statuses[j].deployed :: DeployedBy(cfg, log, statuses[j].name)
  }

  function HeldStatuses(w: PhaseWorker): seq<R.RuleStatus> {
    if w.PatchGet? || w.Patch? || w.PhaseStatusGet? || w.PhaseStatusPut? then w.statuses else []
  }

  ghost predicate PhasesTraced(cfg: Config, phases: seq<Option<Phase>>, log: Log) {
    forall i | 0 <= i < |phases| && phases[i].Some? :: StatusesTraced(cfg, log, phases[i].value.statuses)
  }

  ghost predicate PhaseInv(cfg: Config, s: State) {
    PhasesTraced(cfg, s.phases, s.log) && StatusesTraced(cfg, s.log, HeldStatuses(s.phaseCtl))
  }

  // ---- Growing logs ----

  lemma DeployedGrows(cfg: Config, log: Log, more: Log, name: string)
    requires log <= more && DeployedBy(cfg, log, name)
    ensures DeployedBy(cfg, more, name)
  {
    var i: nat, k: nat :| LatchedAt(cfg, log, i, k, name);
    assert more[i] == log[i] && more[..i] == log[..i];
    assert LatchedAt(cfg, more, i, k, name);
  }

  lemma StatusesGrow(cfg: Config, log: Log, more: Log, statuses: seq<R.RuleStatus>)
    requires log <= more && StatusesTraced(cfg, log, statuses)
    ensures StatusesTraced(cfg, more, statuses)
  {
    forall j | 0 <= j < |statuses| && statuses[j].deployed
      ensures DeployedBy(cfg, more, statuses[j].name)
    {
      DeployedGrows(cfg, log, more, statuses[j].name);
    }
  }

  lemma PhasesGrow(cfg: Config, phases: seq<Option<Phase>>, log: Log, more: Log)
    requires log <= more && PhasesTraced(cfg, phases, log)
    ensures PhasesTraced(cfg, phases, more)
  {
    forall i | 0 <= i < |phases| && phases[i].Some?
      ensures StatusesTraced(cfg, more, phases[i].value.statuses)
    {
      StatusesGrow(cfg, log, more, phases[i].value.statuses);
    }
  }

  /** Nothing happened to phases; only the log may have grown. */
  lemma OtherStepKeeps(cfg: Config, s: State, r: State)
    requires PhaseInv(cfg, s) && r.phases == s.phases && s.log <= r.log && r.phaseCtl == s.phaseCtl
    ensures PhaseInv(cfg, r)
  {
    PhasesGrow(cfg, s.phases, s.log, r.log);
    StatusesGrow(cfg, s.log, r.log, HeldStatuses(s.phaseCtl));
  }

  /** A phase version with traced statuses may be appended. */
  lemma WritePhaseKeeps(cfg: Config, s: State, content: Option<Phase>, w: PhaseWorker)
    requires PhaseInv(cfg, s)
    requires content.Some? ==> StatusesTraced(cfg, s.log, content.value.statuses)
    requires StatusesTraced(cfg, s.log, HeldStatuses(w))
    ensures PhaseInv(cfg, WritePhase(s, content).(phaseCtl := w))
  {
  }

  // ---- One evaluation ----

  /** The last status of the name. */
  ghost predicate LastNamed(statuses: seq<R.RuleStatus>, name: string, j: nat) {
    j < |statuses| && statuses[j].name == name && forall k | j < k < |statuses| :: statuses[k].name != name
  }

  lemma {:induction false} PreviousComesFrom(statuses: seq<R.RuleStatus>, name: string) returns (j: nat)
    requires name in R.PreviousStatuses(statuses)
    ensures LastNamed(statuses, name, j) && statuses[j] == R.PreviousStatuses(statuses)[name]
  {
    var n := |statuses| - 1;
    assert statuses != [];
    if statuses[n].name == name {
      j := n;
    } else {
      j := PreviousComesFrom(statuses[..n], name);
      assert forall k | 0 <= k < n :: statuses[..n][k] == statuses[k];
    }
  }

  lemma {:induction false} MatchedIsActive(
    engine: R.Engine, rules: seq<R.Rule>, prev: map<string, R.RuleStatus>, snap: R.Snapshot, now: int, k: nat)
    requires R.Evaluate(engine, rules, prev, snap, now).Ok? && k < |rules|
    ensures
      var ev := R.Evaluate(engine, rules, prev, snap, now).value;
      && ev.statuses[k].name == rules[k].name
      && ev.statuses[k].deployed == R.Previous(prev, rules[k].name).deployed
      && (ev.statuses[k].matched ==> rules[k].selector in ev.selectors)
  {
    if k < |rules| - 1 {
      MatchedIsActive(engine, rules[..|rules| - 1], prev, snap, now, k);
    }
  }

  /** Deployed after an evaluation and its latch: either inherited by name, or latched by this very event. */
  lemma EvaluationTraced(cfg: Config, log: Log, start: nat, p: Phase, read: AddonStatus, snap: R.Snapshot, now: int)
    requires R.Evaluate(cfg.engine, p.rules, R.PreviousStatuses(p.statuses), snap, now).Ok?
    requires StatusesTraced(cfg, log, p.statuses) && TripleFrom(cfg, log, read)
    ensures
      var ev := R.Evaluate(cfg.engine, p.rules, R.PreviousStatuses(p.statuses), snap, now).value;
      StatusesTraced(cfg, log + [Latched(start, p.rules, ev, read)], Stamped(cfg, ev.statuses, ev.selectors, read))
  {
    var prev := R.PreviousStatuses(p.statuses);
    var ev := R.Evaluate(cfg.engine, p.rules, prev, snap, now).value;
    var more := log + [Latched(start, p.rules, ev, read)];
    var statuses := Stamped(cfg, ev.statuses, ev.selectors, read);
    forall k | 0 <= k < |statuses| && statuses[k].deployed
      ensures DeployedBy(cfg, more, statuses[k].name)
    {
      var name := p.rules[k].name;
      MatchedIsActive(cfg.engine, p.rules, prev, snap, now, k);
      if R.Previous(prev, name).deployed {
        var j := PreviousComesFrom(p.statuses, name);
        DeployedGrows(cfg, log, more, name);
      } else {
        assert more[..|log|] == log;
        assert LatchedAt(cfg, more, |log|, k, name);
      }
    }
  }

  lemma EvaluateKeeps(cfg: Config, s: State, start: nat, snap: R.Snapshot, now: int)
    requires InRange(s) && PhaseInv(cfg, s) && AddonsTraced(cfg, s.addons, s.log)
    ensures PhaseInv(cfg, DoEvaluate(cfg, s, start, snap, now))
  {
    if start < |s.phases| && s.phases[start].Some? && SeenAddon(s).Some? {
      var p, read := s.phases[start].value, SeenAddon(s).value.status;
      var result := R.Evaluate(cfg.engine, p.rules, R.PreviousStatuses(p.statuses), snap, now);
      if result.Ok? {
        EvaluationTraced(cfg, s.log, start, p, read, snap, now);
        PhasesGrow(cfg, s.phases, s.log, s.log + [Latched(start, p.rules, result.value, read)]);
      }
    }
  }

  // ---- Steps ----

  lemma PhaseStepKeeps(cfg: Config, s: State, step: PhaseStep)
    requires InRange(s) && PhaseInv(cfg, s) && AddonsTraced(cfg, s.addons, s.log)
    ensures PhaseInv(cfg, StepPhase(cfg, s, step))
  {
    if step.EvaluatePhase? {
      if s.phaseCtl.Evaluating? {
        EvaluateKeeps(cfg, s, s.phaseCtl.start, step.snap, step.now);
      }
    } else {
      QuietPhaseStepKeeps(cfg, s, step);
    }
  }

  lemma QuietPhaseStepKeeps(cfg: Config, s: State, step: PhaseStep)
    requires InRange(s) && PhaseInv(cfg, s) && !step.EvaluatePhase?
    ensures PhaseInv(cfg, StepPhase(cfg, s, step))
  {
    var r := StepPhase(cfg, s, step);
    if r.phases != s.phases {
      assert r == WritePhase(s, LastPhase(r)).(phaseCtl := r.phaseCtl);
      WritePhaseKeeps(cfg, s, LastPhase(r), r.phaseCtl);
    } else {
      QuietMoveKeeps(cfg, s, step);
    }
  }

  lemma QuietMoveKeeps(cfg: Config, s: State, step: PhaseStep)
    requires InRange(s) && PhaseInv(cfg, s) && !step.EvaluatePhase? && StepPhase(cfg, s, step).phases == s.phases
    ensures PhaseInv(cfg, StepPhase(cfg, s, step))
  {
    var r := StepPhase(cfg, s, step);
    QuietHeld(cfg, s, step);
    PhasesGrow(cfg, s.phases, s.log, r.log);
    StatusesGrow(cfg, s.log, r.log, HeldStatuses(s.phaseCtl));
  }

  lemma QuietHeld(cfg: Config, s: State, step: PhaseStep)
    requires InRange(s) && !step.EvaluatePhase?
    ensures var r := StepPhase(cfg, s, step);
            s.log <= r.log && (HeldStatuses(r.phaseCtl) == [] || HeldStatuses(r.phaseCtl) == HeldStatuses(s.phaseCtl))
  {
  }

  lemma EnvStepKeeps(cfg: Config, s: State, step: EnvStep)
    requires InRange(s) && PhaseInv(cfg, s)
    ensures PhaseInv(cfg, StepEnv(s, step))
  {
  }

  lemma AddonSideLeavesPhases(cfg: Config, s: State, step: AddonStep)
    requires InRange(s)
    ensures StepAddon(cfg, s, step).phases == s.phases && StepAddon(cfg, s, step).phaseCtl == s.phaseCtl
  {
  }

  lemma {:induction false} PhaseRunKeeps(cfg: Config, steps: seq<Step>)
    requires cfg.name != ""
    ensures PhaseInv(cfg, Run(cfg, steps))
  {
    if steps != [] {
      var s := Run(cfg, steps[..|steps| - 1]);
      PhaseRunKeeps(cfg, steps[..|steps| - 1]);
      RunKeeps(cfg, steps[..|steps| - 1]);
      match steps[|steps| - 1]
      case ByAddon(a) =>
        AddonSideLeavesPhases(cfg, s, a);
        OtherStepKeeps(cfg, s, StepAddon(cfg, s, a));
      case ByPhase(p) => PhaseStepKeeps(cfg, s, p);
      case ByEnv(e) => EnvStepKeeps(cfg, s, e);
    }
  }

  // ---- The theorem ----

  /** The Application was Synced and Healthy, compared to exactly the source it carried, that source had
      been stored, and it carries the values aggregated under the selectors. */
  ghost predicate VerifiedTranslation(cfg: Config, s: State, e: Event) {
    && e.Translated? && WellBuilt(cfg, e)
    && e.app.status.sync == A.Synced && e.app.status.health == A.Healthy
    && e.app.spec.sources == [] && e.app.status.comparedTo.sources == []
    && e.app.status.comparedTo.source == e.app.spec.source.value
    && exists v :: 0 <= v < |s.apps| && s.apps[v].Some? && s.apps[v].value.spec.source == e.app.spec.source
  }

  ghost predicate DeploymentEvidence(cfg: Config, s: State, name: string, j: nat, i: nat, k: nat) {
    && j < i < |s.log| && LatchedAt(cfg, s.log, i, k, name)
    && VerifiedTranslation(cfg, s, s.log[j])
    && F.SelectorsHash(cfg.encode, s.log[j].selectors)
       == F.SelectorsHash(cfg.encode, s.log[i].evaluation.selectors)
  }

  lemma EvidenceFound(cfg: Config, s: State, name: string, i: nat, k: nat) returns (j: nat)
    requires TranslationsSound(cfg, s.apps, s.log) && LatchedAt(cfg, s.log, i, k, name)
    ensures DeploymentEvidence(cfg, s, name, j, i, k)
  {
    var read := s.log[i].read;
    j :| 0 <= j < |s.log[..i]| && TripleOf(cfg, read, s.log[..i][j]);
    assert s.log[..i][j] == s.log[j];
    assert Truthful(s.apps, s.log[j].app);
  }

  /** In every reachable state, each rule that any stored AddonPhase reports as Deployed has an earlier
      translation behind it, made under a selector list that hashes like the one its selector was active in. */
  lemma DeployedWasVerified(cfg: Config, steps: seq<Step>, version: nat, status: R.RuleStatus)
    requires cfg.name != ""
    requires version < |Run(cfg, steps).phases| && Run(cfg, steps).phases[version].Some?
    requires status in Run(cfg, steps).phases[version].value.statuses && status.deployed
    ensures exists j: nat, i: nat, k: nat :: DeploymentEvidence(cfg, Run(cfg, steps), status.name, j, i, k)
  {
    PhaseRunKeeps(cfg, steps);
    RunKeeps(cfg, steps);
    var s := Run(cfg, steps);
    assert DeployedBy(cfg, s.log, status.name);
    var i: nat, k: nat :| LatchedAt(cfg, s.log, i, k, status.name);
    var j := EvidenceFound(cfg, s, status.name, i, k);
  }
}
