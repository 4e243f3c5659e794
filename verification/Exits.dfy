/** How a reconcile of an Addon ends, and what it then reports. Exactly when each step ends it; and every status
    about to be written goes back to the one step of the run that ended its reconcile: Degraded says that this
    step failed, or that the resource was Degraded before and nothing good was read since
    (internal/controller/addon/controller.go, Reconcile). */
module Exits {
  import opened Wrappers
  import opened Aggregation
  import opened AddonModel
  import opened Dependencies
  import opened Latches
  import opened ReadyWrites
  import A = Applications
  import R = Rules

  predicate UnderWay(w: AddonWorker) {
    DraftOf(w).Some? && !Finished(w)
  }

  // ---- The ways to end ----

  /** The values cannot be resolved or aggregated; the Application went missing or cannot be handled. */
  predicate Fails(s: State, step: AddonStep)
    requires InRange(s)
  {
    var w := s.addonCtl;
    || (w.Resolve? && step.ResolveValues?
        && (!step.sourcesOk
            || Aggregate(w.d.snap.spec.valuesSelectors, w.d.status.phaseSelectors, step.lists).Err?))
    || (w.UpdateGet? && step.ReadForUpdate? && s.apps[s.appView].None?)
    || (step.GiveUpOnApp? && (w.Fetch? || w.Create? || w.UpdateGet? || w.UpdatePut?))
  }

  predicate Pauses(s: State, step: AddonStep) {
    s.addonCtl.Check? && step.CheckGate? && s.addonCtl.d.snap.paused
  }

  /** The check reads the Application through the same cache as everything else. */
  predicate ReadsView(s: State, cluster: Cluster)
    requires InRange(s)
  {
    (cluster.app.Found? ==> s.apps[s.appView].Some?) && (cluster.app.Missing? ==> s.apps[s.appView].None?)
  }

  /** Dependencies that are not met or cannot be checked; values that are not stable yet. */
  ghost predicate Waits(cfg: Config, s: State, step: AddonStep)
    requires InRange(s)
  {
    var w := s.addonCtl;
    || (w.Check? && step.CheckGate? && !w.d.snap.paused && ReadsView(s, step.cluster)
        && !GateOpens(cfg.engine, w.d.snap.spec.initDependencies, step.cluster))
    || (w.Look? && step.LookForApp? && s.apps[s.appView].None?
        && (w.built.previousHash == "" || w.built.hash != w.built.previousHash))
  }

  /** The Application is up to date, was written, or exists out of view: the closing decision. */
  predicate Closes(cfg: Config, s: State, step: AddonStep)
    requires InRange(s)
  {
    var w := s.addonCtl;
    || (w.Fetch? && step.FetchApp? && s.apps[s.appView].Some?
        && !A.NeedsUpdate(s.apps[s.appView].value, Desired(cfg, w.d, w.built)))
    || (w.Create? && step.CreateApp?)
    || (w.UpdatePut? && step.PutUpdate? && w.at == |s.apps| - 1 && s.apps[w.at].Some?)
  }

  /** A step ends the reconcile under way, with a status to write, in exactly these four ways. */
  lemma EndsIff(cfg: Config, s: State, step: AddonStep)
    requires InRange(s) && UnderWay(s.addonCtl)
    ensures StepAddon(cfg, s, step).addonCtl.StatusGet? <==>
            Fails(s, step) || Pauses(s, step) || Waits(cfg, s, step) || Closes(cfg, s, step)
  {
    if Early(step) {
      EarlyEndsIff(cfg, s, step);
    } else if OnApp(step) {
      OnAppEndsIff(cfg, s, step);
    } else {
      LateEndsIff(cfg, s, step);
    }
  }

  lemma EarlyEndsIff(cfg: Config, s: State, step: AddonStep)
    requires InRange(s) && UnderWay(s.addonCtl) && Early(step)
    ensures StepAddon(cfg, s, step).addonCtl.StatusGet? <==>
            Fails(s, step) || Pauses(s, step) || Waits(cfg, s, step) || Closes(cfg, s, step)
  {
  }

  lemma OnAppEndsIff(cfg: Config, s: State, step: AddonStep)
    requires InRange(s) && UnderWay(s.addonCtl) && OnApp(step)
    ensures StepAddon(cfg, s, step).addonCtl.StatusGet? <==>
            Fails(s, step) || Pauses(s, step) || Waits(cfg, s, step) || Closes(cfg, s, step)
  {
  }

  lemma LateEndsIff(cfg: Config, s: State, step: AddonStep)
    requires InRange(s) && UnderWay(s.addonCtl) && !Early(step) && !OnApp(step)
    ensures StepAddon(cfg, s, step).addonCtl.StatusGet? <==>
            Fails(s, step) || Pauses(s, step) || Waits(cfg, s, step) || Closes(cfg, s, step)
  {
  }

  // ---- What is reported then ----

  /** The primary conditions after each way to end, from those before and the verdict. */
  ghost predicate Reported(cfg: Config, s: State, step: AddonStep, was: AddonStatus, now: AddonStatus)
    requires InRange(s)
  {
    var good := now.synced && now.healthy;
    if Fails(s, step) then now.degraded && !now.ready
    else if Waits(cfg, s, step) then !now.degraded && !now.ready
    else if Pauses(s, step) then now.degraded == was.degraded && !now.ready
    else
      && (now.ready <==> good || (was.ready && was.degraded))
      && (now.degraded <==> was.degraded && !good)
  }

  lemma EndReports(cfg: Config, s: State, step: AddonStep)
    requires InRange(s) && UnderWay(s.addonCtl) && StepAddon(cfg, s, step).addonCtl.StatusGet?
    ensures var d, r := DraftOf(s.addonCtl).value, StepAddon(cfg, s, step).addonCtl.d;
            r.start == d.start && r.snap == d.snap && Reported(cfg, s, step, d.status, r.status)
  {
    if Early(step) {
      EarlyReports(cfg, s, step);
    } else if step.FetchApp? {
      FetchReports(cfg, s, step);
    } else if step.CreateApp? {
      CreateReports(cfg, s, step);
    } else if step.PutUpdate? {
      UpdateReports(cfg, s, step);
    } else {
      LateReports(cfg, s, step);
    }
  }

  lemma EarlyReports(cfg: Config, s: State, step: AddonStep)
    requires InRange(s) && UnderWay(s.addonCtl) && Early(step) && StepAddon(cfg, s, step).addonCtl.StatusGet?
    ensures var d, r := DraftOf(s.addonCtl).value, StepAddon(cfg, s, step).addonCtl.d;
            r.start == d.start && r.snap == d.snap && Reported(cfg, s, step, d.status, r.status)
  {
  }

  lemma FetchReports(cfg: Config, s: State, step: AddonStep)
    requires InRange(s) && UnderWay(s.addonCtl) && step.FetchApp? && StepAddon(cfg, s, step).addonCtl.StatusGet?
    ensures var d, r := DraftOf(s.addonCtl).value, StepAddon(cfg, s, step).addonCtl.d;
            r.start == d.start && r.snap == d.snap && Reported(cfg, s, step, d.status, r.status)
  {
  }

  lemma CreateReports(cfg: Config, s: State, step: AddonStep)
    requires InRange(s) && UnderWay(s.addonCtl) && step.CreateApp? && StepAddon(cfg, s, step).addonCtl.StatusGet?
    ensures var d, r := DraftOf(s.addonCtl).value, StepAddon(cfg, s, step).addonCtl.d;
            r.start == d.start && r.snap == d.snap && Reported(cfg, s, step, d.status, r.status)
  {
    var w := s.addonCtl;
    assert w.Create?;
    if LastApp(s).Some? {
      assert DoCreate(cfg, s, w.d, w.cluster, w.built, w.sawApp).addonCtl == Finish(w.d, Settle(w.d.status));
    } else {
      var app := A.Stored(Desired(cfg, w.d, w.built));
      assert DoCreate(cfg, s, w.d, w.cluster, w.built, w.sawApp).addonCtl
             == Finish(w.d, Settle(Translate(cfg, w.d.status, app)));
    }
  }

  lemma UpdateReports(cfg: Config, s: State, step: AddonStep)
    requires InRange(s) && UnderWay(s.addonCtl) && step.PutUpdate? && StepAddon(cfg, s, step).addonCtl.StatusGet?
    ensures var d, r := DraftOf(s.addonCtl).value, StepAddon(cfg, s, step).addonCtl.d;
            r.start == d.start && r.snap == d.snap && Reported(cfg, s, step, d.status, r.status)
  {
  }

  lemma LateReports(cfg: Config, s: State, step: AddonStep)
    requires InRange(s) && UnderWay(s.addonCtl) && !Early(step) && !OnApp(step)
    requires StepAddon(cfg, s, step).addonCtl.StatusGet?
    ensures var d, r := DraftOf(s.addonCtl).value, StepAddon(cfg, s, step).addonCtl.d;
            r.start == d.start && r.snap == d.snap && Reported(cfg, s, step, d.status, r.status)
  {
  }

  // ---- Over a run ----

  /** Step k of the run ended a reconcile with this draft. */
  ghost predicate EndedBy(cfg: Config, steps: seq<Step>, k: nat, d: Draft) {
    && k < |steps| && steps[k].ByAddon? && UnderWay(Run(cfg, steps[..k]).addonCtl)
    && StepAddon(cfg, Run(cfg, steps[..k]), steps[k].addonStep).addonCtl == StatusGet(d)
  }

  /** What has finished keeps its draft, and only what is under way finishes. */
  predicate FinishedFrom(w: AddonWorker, v: AddonWorker) {
    Finished(v) ==> if Finished(w) then v.d == w.d else UnderWay(w) && v.StatusGet?
  }

  lemma FinishedKeeps(cfg: Config, s: State, step: AddonStep)
    requires InRange(s)
    ensures FinishedFrom(s.addonCtl, StepAddon(cfg, s, step).addonCtl)
  {
    if Early(step) {
      EarlyFinished(cfg, s, step);
    } else if OnApp(step) {
      OnAppFinished(cfg, s, step);
    } else {
      LateFinished(cfg, s, step);
    }
  }

  lemma EarlyFinished(cfg: Config, s: State, step: AddonStep)
    requires InRange(s) && Early(step)
    ensures FinishedFrom(s.addonCtl, StepAddon(cfg, s, step).addonCtl)
  {
  }

  lemma OnAppFinished(cfg: Config, s: State, step: AddonStep)
    requires InRange(s) && OnApp(step)
    ensures FinishedFrom(s.addonCtl, StepAddon(cfg, s, step).addonCtl)
  {
  }

  lemma LateFinished(cfg: Config, s: State, step: AddonStep)
    requires InRange(s) && !Early(step) && !OnApp(step)
    ensures FinishedFrom(s.addonCtl, StepAddon(cfg, s, step).addonCtl)
  {
  }

  lemma {:induction false} SomeStepEnded(cfg: Config, steps: seq<Step>) returns (k: nat)
    requires Finished(Run(cfg, steps).addonCtl)
    ensures EndedBy(cfg, steps, k, Run(cfg, steps).addonCtl.d)
  {
    var n := |steps| - 1;
    var front := steps[..n];
    var s := Run(cfg, front);
    match steps[n] {
      case ByAddon(a) => FinishedKeeps(cfg, s, a);
      case ByPhase(p) => PhaseLeavesAddonCtl(cfg, s, p);
      case ByEnv(e) => EnvLeavesAddonCtl(s, e);
    }
    if Finished(s.addonCtl) {
      k := SomeStepEnded(cfg, front);
      assert front[..k] == steps[..k] && front[k] == steps[k];
    } else {
      k := n;
    }
  }

  /** In every run a status about to be written was decided by one step of its own reconcile. It is Degraded iff
      that step failed, or the Addon the reconcile started from was Degraded and the reconcile was paused, or
      closed without reading Synced and Healthy; and then it is not Ready. */
  lemma DegradedIff(cfg: Config, steps: seq<Step>) returns (k: nat)
    requires Run(cfg, steps).addonCtl.StatusPut?
    ensures EndedBy(cfg, steps, k, Run(cfg, steps).addonCtl.d)
    ensures var s, d, step := Run(cfg, steps[..k]), Run(cfg, steps).addonCtl.d, steps[k].addonStep;
            && (d.status.degraded <==>
                || Fails(s, step)
                || (d.snap.status.degraded
                    && (Pauses(s, step) || (Closes(cfg, s, step) && !(d.status.synced && d.status.healthy)))))
            && !(d.status.degraded && d.status.ready)
  {
    k := SomeStepEnded(cfg, steps);
    var s, step := Run(cfg, steps[..k]), steps[k].addonStep;
    RunKeeps(cfg, steps);
    RunKeeps(cfg, steps[..k]);
    EndsIff(cfg, s, step);
    EndReports(cfg, s, step);
  }

  // ---- Only changes are written ----

  /** Step k of the run went on to write a status because a part not modelled here had changed. */
  ghost predicate OtherPartsChanged(steps: seq<Step>, k: nat) {
    k < |steps| && steps[k].ByAddon? && steps[k].addonStep.ReadForStatus? && steps[k].addonStep.others
  }

  predicate WritesAsRead(w: AddonWorker) {
    w.StatusPut? && w.d.status == w.d.snap.status
  }

  lemma ChangesOnly(cfg: Config, s: State, step: AddonStep)
    requires InRange(s) && WritesAsRead(StepAddon(cfg, s, step).addonCtl)
    ensures WritesAsRead(s.addonCtl) || (step.ReadForStatus? && step.others)
  {
  }

  /** In every run a status that is just as the reconcile read it is written only for some other part of it. */
  lemma {:induction false} OnlyChangesAreWritten(cfg: Config, steps: seq<Step>) returns (k: nat)
    requires WritesAsRead(Run(cfg, steps).addonCtl)
    ensures OtherPartsChanged(steps, k)
  {
    var n := |steps| - 1;
    var s := Run(cfg, steps[..n]);
    match steps[n] {
      case ByAddon(a) => ChangesOnly(cfg, s, a);
      case ByPhase(p) => PhaseLeavesAddonCtl(cfg, s, p);
      case ByEnv(e) => EnvLeavesAddonCtl(s, e);
    }
    if WritesAsRead(s.addonCtl) {
      k := OnlyChangesAreWritten(cfg, steps[..n]);
    } else {
      k := n;
    }
  }

  // ---- The AddonPhase controller ----

  /** What one evaluation of the version it started from gives, if there is an Addon to evaluate for. */
  function EvaluationOf(cfg: Config, s: State, step: PhaseStep): Option<Result<R.Evaluation>>
    requires InRange(s) && s.phaseCtl.Evaluating? && step.EvaluatePhase?
  {
    var start := s.phaseCtl.start;
    if start < |s.phases| && s.phases[start].Some? && SeenAddon(s).Some? then
      var p := s.phases[start].value;
      Some(R.Evaluate(cfg.engine, p.rules, R.PreviousStatuses(p.statuses), step.snap, step.now))
    else None
  }

  /** The rules are evaluated, and the Addon read has their selectors, or gets them, or is gone. */
  predicate PhaseSucceeds(cfg: Config, s: State, step: PhaseStep)
    requires InRange(s)
  {
    var w := s.phaseCtl;
    || (w.Evaluating? && step.EvaluatePhase?
        && (var ev := EvaluationOf(cfg, s, step);
            ev.Some? && ev.value.Ok? && SeenAddon(s).value.status.phaseSelectors == ev.value.value.selectors))
    || (w.PatchGet? && step.ReadForPatch? && SeenAddon(s).None?)
    || (w.Patch? && step.SendPatch? && LastAddon(s).Some?)
  }

  /** There is no Addon, the evaluation fails, or the Addon is gone when it is patched. */
  predicate PhaseFails(cfg: Config, s: State, step: PhaseStep)
    requires InRange(s)
  {
    var w := s.phaseCtl;
    || (w.Evaluating? && step.EvaluatePhase? && w.start < |s.phases| && s.phases[w.start].Some?
        && (SeenAddon(s).None? || EvaluationOf(cfg, s, step).value.Err?))
    || (w.Patch? && step.SendPatch? && LastAddon(s).None?)
  }

  predicate PhaseFinished(w: PhaseWorker) {
    w.PhaseStatusGet? || w.PhaseStatusPut? || w.SnapshotPut?
  }

  /** A reconcile of the AddonPhase goes on to write its evaluated statuses, or its conditions alone, in exactly
      these ways. */
  lemma PhaseEndsIff(cfg: Config, s: State, step: PhaseStep)
    requires InRange(s) && !PhaseFinished(s.phaseCtl)
    ensures var v := StepPhase(cfg, s, step).phaseCtl;
            (v.PhaseStatusGet? <==> PhaseSucceeds(cfg, s, step)) && (v.SnapshotPut? <==> PhaseFails(cfg, s, step))
  {
  }

  /** A deleted AddonPhase goes on to give up its finalizer once no Addon is in view, or its patch to clear the
      selectors was taken; and again after a conflict. */
  lemma PhaseReleasesIff(cfg: Config, s: State, step: PhaseStep)
    requires InRange(s) && !s.phaseCtl.PhaseReleaseGet?
    ensures var w := s.phaseCtl;
            StepPhase(cfg, s, step).phaseCtl.PhaseReleaseGet? <==>
            || (w.ClearGet? && step.ReadForClear? && SeenAddon(s).None?)
            || (w.ClearPatch? && step.SendClear? && LastAddon(s).Some?)
            || (w.PhaseReleasePut? && step.PhasePutRelease? && (w.at != |s.phases| - 1 || s.phases[w.at].None?))
  {
  }
}
