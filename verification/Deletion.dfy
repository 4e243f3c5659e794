/** The order of a deletion in every run: the Addon controller takes its finalizer away only in a reconcile that
    began from an Addon being deleted, then deleted its Application, then read that it was gone
    (internal/controller/addon/controller.go, reconcileDelete). */
module Deletion {
  import opened Wrappers
  import opened AddonModel
  import opened FinalizerSafety

  /** Step i of the run began a reconcile from this version, of an Addon being deleted with its finalizer. */
  ghost predicate Began(cfg: Config, steps: seq<Step>, i: nat, start: nat, round: nat) {
    && i < |steps| && steps[i] == ByAddon(StartAddon)
    && var s := Run(cfg, steps[..i]);
       && s.addonCtl.Idle? && s.addonView == start && s.round + 1 == round
       && s.addons[start].content.Some?
       && s.addons[start].content.value.deleting && s.addons[start].content.value.finalizer
  }

  /** Step j, in the same reconcile, left no Application that is not being deleted. */
  ghost predicate Deleted(cfg: Config, steps: seq<Step>, j: nat, round: nat) {
    && j < |steps| && steps[j] == ByAddon(DeleteAppStep)
    && Run(cfg, steps[..j]).addonCtl.DeleteApp? && Run(cfg, steps[..j]).round == round
    && !Live(LastApp(Run(cfg, steps[..j + 1])))
  }

  /** Step k, in the same reconcile, read the Application and found none. */
  ghost predicate FoundGone(cfg: Config, steps: seq<Step>, k: nat, round: nat) {
    && k < |steps| && steps[k] == ByAddon(CheckGone)
    && var s := Run(cfg, steps[..k]);
       s.addonCtl.AwaitGone? && s.round == round && s.apps[s.appView].None?
  }

  /** How far a deletion has come, by what its worker waits to do. */
  ghost predicate Reached(cfg: Config, steps: seq<Step>, w: AddonWorker, round: nat) {
    && (w.DeleteApp? ==> exists i: nat :: Began(cfg, steps, i, w.start, round))
    && (w.AwaitGone? ==>
          exists i: nat, j: nat :: i < j && Began(cfg, steps, i, w.start, round) && Deleted(cfg, steps, j, round))
    && (w.ReleaseGet? || w.ReleasePut? ==>
          exists i: nat, j: nat, k: nat :: InOrder(cfg, steps, i, j, k, w.start, round))
  }

  ghost predicate InOrder(cfg: Config, steps: seq<Step>, i: nat, j: nat, k: nat, start: nat, round: nat) {
    i < j < k && Began(cfg, steps, i, start, round) && Deleted(cfg, steps, j, round) && FoundGone(cfg, steps, k, round)
  }

  lemma Prefix(steps: seq<Step>, n: nat, i: nat)
    requires i <= n <= |steps|
    ensures steps[..n][..i] == steps[..i]
    ensures i < n ==> steps[..n][i] == steps[i]
  {
  }

  lemma BeganLater(cfg: Config, steps: seq<Step>, n: nat, i: nat, start: nat, round: nat)
    requires n <= |steps| && Began(cfg, steps[..n], i, start, round)
    ensures Began(cfg, steps, i, start, round) && i < n
  {
    Prefix(steps, n, i);
  }

  lemma DeletedLater(cfg: Config, steps: seq<Step>, n: nat, j: nat, round: nat)
    requires n <= |steps| && Deleted(cfg, steps[..n], j, round)
    ensures Deleted(cfg, steps, j, round) && j < n
  {
    Prefix(steps, n, j);
    Prefix(steps, n, j + 1);
  }

  lemma FoundGoneLater(cfg: Config, steps: seq<Step>, n: nat, k: nat, round: nat)
    requires n <= |steps| && FoundGone(cfg, steps[..n], k, round)
    ensures FoundGone(cfg, steps, k, round) && k < n
  {
    Prefix(steps, n, k);
  }

  /** What was reached before stays reached. */
  lemma ReachedLater(cfg: Config, steps: seq<Step>, n: nat, w: AddonWorker, round: nat)
    requires n <= |steps| && Reached(cfg, steps[..n], w, round)
    ensures Reached(cfg, steps, w, round)
  {
    if w.DeleteApp? {
      var i: nat :| Began(cfg, steps[..n], i, w.start, round);
      BeganLater(cfg, steps, n, i, w.start, round);
    } else if w.AwaitGone? {
      var i: nat, j: nat :| i < j && Began(cfg, steps[..n], i, w.start, round) && Deleted(cfg, steps[..n], j, round);
      BeganLater(cfg, steps, n, i, w.start, round);
      DeletedLater(cfg, steps, n, j, round);
    } else if w.ReleaseGet? || w.ReleasePut? {
      var i: nat, j: nat, k: nat :| InOrder(cfg, steps[..n], i, j, k, w.start, round);
      BeganLater(cfg, steps, n, i, w.start, round);
      DeletedLater(cfg, steps, n, j, round);
      FoundGoneLater(cfg, steps, n, k, round);
      assert InOrder(cfg, steps, i, j, k, w.start, round);
    }
  }

  predicate Deleting(w: AddonWorker) {
    w.DeleteApp? || w.AwaitGone? || w.ReleaseGet? || w.ReleasePut?
  }

  /** The ways into and through a deletion. */
  ghost predicate Moves(s: State, step: AddonStep, r: State)
    requires InRange(s) && InRange(r)
  {
    var w, v := s.addonCtl, r.addonCtl;
    Deleting(v) ==>
      || (r.round == s.round && v == w)
      || (r.round == s.round && w.ReleaseGet? && v.ReleasePut? && v.start == w.start)
      || (r.round == s.round && w.ReleasePut? && v.ReleaseGet? && v.start == w.start)
      || (r.round == s.round + 1 && w.Idle? && step.StartAddon? && v == DeleteApp(s.addonView)
          && s.addons[s.addonView].content.Some?
          && s.addons[s.addonView].content.value.deleting && s.addons[s.addonView].content.value.finalizer)
      || (r.round == s.round && step.DeleteAppStep? && w.DeleteApp? && v == AwaitGone(w.start) && !Live(LastApp(r)))
      || (r.round == s.round && step.CheckGone? && w.AwaitGone? && v == ReleaseGet(w.start)
          && s.apps[s.appView].None?)
  }

  lemma StepMoves(cfg: Config, s: State, step: AddonStep)
    requires InRange(s)
    ensures Moves(s, step, StepAddon(cfg, s, step))
  {
    if Early(step) {
      EarlyMoves(cfg, s, step);
    } else if OnApp(step) {
      OnAppMoves(cfg, s, step);
    } else {
      LateMoves(cfg, s, step);
    }
  }

  lemma EarlyMoves(cfg: Config, s: State, step: AddonStep)
    requires InRange(s) && Early(step)
    ensures Moves(s, step, StepAddon(cfg, s, step))
  {
  }

  lemma OnAppMoves(cfg: Config, s: State, step: AddonStep)
    requires InRange(s) && OnApp(step)
    ensures Moves(s, step, StepAddon(cfg, s, step))
  {
  }

  lemma LateMoves(cfg: Config, s: State, step: AddonStep)
    requires InRange(s) && !Early(step) && !OnApp(step)
    ensures Moves(s, step, StepAddon(cfg, s, step))
  {
  }

  lemma PhaseLeavesRound(cfg: Config, s: State, step: PhaseStep)
    requires InRange(s)
    ensures StepPhase(cfg, s, step).round == s.round && StepPhase(cfg, s, step).addonCtl == s.addonCtl
  {
  }

  lemma EnvLeavesRound(s: State, step: EnvStep)
    requires InRange(s)
    ensures StepEnv(s, step).round == s.round && StepEnv(s, step).addonCtl == s.addonCtl
  {
  }

  /** No step of the others touches the worker. */
  lemma OthersLeave(cfg: Config, s: State, step: Step)
    requires InRange(s) && !step.ByAddon?
    ensures Apply(cfg, s, step).addonCtl == s.addonCtl && Apply(cfg, s, step).round == s.round
  {
    match step
    case ByPhase(p) => PhaseLeavesRound(cfg, s, p);
    case ByEnv(e) => EnvLeavesRound(s, e);
    case _ =>
  }

  lemma OthersReach(cfg: Config, steps: seq<Step>)
    requires steps != [] && !steps[|steps| - 1].ByAddon?
    requires var s := Run(cfg, steps[..|steps| - 1]); Reached(cfg, steps[..|steps| - 1], s.addonCtl, s.round)
    ensures Reached(cfg, steps, Run(cfg, steps).addonCtl, Run(cfg, steps).round)
  {
    var n := |steps| - 1;
    var s := Run(cfg, steps[..n]);
    ReachedLater(cfg, steps, n, s.addonCtl, s.round);
    OthersLeave(cfg, s, steps[n]);
  }

  lemma {:induction false} RunReaches(cfg: Config, steps: seq<Step>)
    ensures Reached(cfg, steps, Run(cfg, steps).addonCtl, Run(cfg, steps).round)
  {
    if steps != [] {
      var n := |steps| - 1;
      var s := Run(cfg, steps[..n]);
      RunReaches(cfg, steps[..n]);
      if steps[n].ByAddon? {
        ReachedLater(cfg, steps, n, s.addonCtl, s.round);
        StepMoves(cfg, s, steps[n].addonStep);
        MoveReaches(cfg, steps, steps[n].addonStep);
      } else {
        OthersReach(cfg, steps);
      }
    }
  }

  lemma MoveReaches(cfg: Config, steps: seq<Step>, a: AddonStep)
    requires steps != [] && steps[|steps| - 1] == ByAddon(a)
    requires var s := Run(cfg, steps[..|steps| - 1]);
             && Reached(cfg, steps[..|steps| - 1], s.addonCtl, s.round)
             && Reached(cfg, steps, s.addonCtl, s.round) && Moves(s, a, StepAddon(cfg, s, a))
    ensures Reached(cfg, steps, Run(cfg, steps).addonCtl, Run(cfg, steps).round)
  {
    var n := |steps| - 1;
    var s := Run(cfg, steps[..n]);
    var w, v := s.addonCtl, Run(cfg, steps).addonCtl;
    assert steps[..n + 1] == steps;
    if v.DeleteApp? && v != w {
      assert Began(cfg, steps, n, v.start, s.round + 1);
    } else if v.AwaitGone? && v != w {
      var i: nat :| Began(cfg, steps[..n], i, w.start, s.round);
      BeganLater(cfg, steps, n, i, w.start, s.round);
      assert Deleted(cfg, steps, n, s.round);
    } else if v.ReleaseGet? && w.AwaitGone? {
      var i: nat, j: nat :|
        i < j && Began(cfg, steps[..n], i, w.start, s.round) && Deleted(cfg, steps[..n], j, s.round);
      BeganLater(cfg, steps, n, i, w.start, s.round);
      DeletedLater(cfg, steps, n, j, s.round);
      assert FoundGone(cfg, steps, n, s.round);
      assert InOrder(cfg, steps, i, j, n, v.start, s.round);
    }
  }

  // ---- The theorem ----

  predicate Carries(a: Option<Addon>) {
    a.Some? && a.value.finalizer
  }

  lemma AddonSideTakes(cfg: Config, s: State, step: AddonStep)
    requires InRange(s) && Carries(LastAddon(s)) && !step.PutRelease?
    ensures Carries(LastAddon(StepAddon(cfg, s, step)))
  {
    if Early(step) {
      EarlyTakes(cfg, s, step);
    } else if OnApp(step) {
      OnAppTakes(cfg, s, step);
    } else {
      LateTakes(cfg, s, step);
    }
  }

  lemma EarlyTakes(cfg: Config, s: State, step: AddonStep)
    requires InRange(s) && Early(step)
    ensures StepAddon(cfg, s, step).addons == s.addons
  {
  }

  lemma OnAppTakes(cfg: Config, s: State, step: AddonStep)
    requires InRange(s) && OnApp(step)
    ensures StepAddon(cfg, s, step).addons == s.addons
  {
  }

  lemma LateTakes(cfg: Config, s: State, step: AddonStep)
    requires InRange(s) && Carries(LastAddon(s)) && !Early(step) && !OnApp(step) && !step.PutRelease?
    ensures Carries(LastAddon(StepAddon(cfg, s, step)))
  {
  }

  lemma PhaseSideTakes(cfg: Config, s: State, step: PhaseStep)
    requires InRange(s) && Carries(LastAddon(s))
    ensures Carries(LastAddon(StepPhase(cfg, s, step)))
  {
  }

  lemma EnvTakes(s: State, step: EnvStep)
    requires InRange(s) && Carries(LastAddon(s))
    ensures Carries(LastAddon(StepEnv(s, step)))
  {
  }

  lemma OnlyReleaseTakes(cfg: Config, s: State, step: Step)
    requires InRange(s) && Carries(LastAddon(s)) && !Carries(LastAddon(Apply(cfg, s, step)))
    ensures step == ByAddon(PutRelease) && s.addonCtl.ReleasePut?
  {
    match step
    case ByAddon(a) =>
      if !a.PutRelease? {
        AddonSideTakes(cfg, s, a);
      }
    case ByPhase(p) => PhaseSideTakes(cfg, s, p);
    case ByEnv(e) => EnvTakes(s, e);
  }

  /** In every run the step that takes the finalizer of the stored Addon away comes after these three, in this
      order and all in its own reconcile. */
  lemma ReleaseInOrder(cfg: Config, steps: seq<Step>, n: nat) returns (i: nat, j: nat, k: nat)
    requires n < |steps| && Carries(LastAddon(Run(cfg, steps[..n])))
    requires !Carries(LastAddon(Apply(cfg, Run(cfg, steps[..n]), steps[n])))
    ensures i < j < k < n
    ensures var round := Run(cfg, steps[..n]).round;
            (exists start: nat :: Began(cfg, steps, i, start, round))
            && Deleted(cfg, steps, j, round) && FoundGone(cfg, steps, k, round)
  {
    var s := Run(cfg, steps[..n]);
    OnlyReleaseTakes(cfg, s, steps[n]);
    RunReaches(cfg, steps[..n]);
    i, j, k :| InOrder(cfg, steps[..n], i, j, k, s.addonCtl.start, s.round);
    BeganLater(cfg, steps, n, i, s.addonCtl.start, s.round);
    DeletedLater(cfg, steps, n, j, s.round);
    FoundGoneLater(cfg, steps, n, k, s.round);
  }

  // ---- Finalizers of AddonPhases ----

  /** Being deleted, and without this finalizer. */
  predicate LetGo(p: Option<Phase>) {
    p.Some? && p.value.deleting && !p.value.finalizer
  }

  /** An AddonPhase being deleted never gets the finalizer back: it stays without, or it is gone. */
  lemma LetGoStays(cfg: Config, s: State, step: Step)
    requires InRange(s) && LetGo(LastPhase(s))
    ensures LetGo(LastPhase(Apply(cfg, s, step))) || LastPhase(Apply(cfg, s, step)).None?
  {
    match step
    case ByAddon(a) => PhasesAlone(cfg, s, a);
    case ByPhase(p) => PhaseLetGoStays(cfg, s, p);
    case ByEnv(e) => EnvLetGoStays(s, e);
  }

  lemma PhasesAlone(cfg: Config, s: State, step: AddonStep)
    requires InRange(s)
    ensures StepAddon(cfg, s, step).phases == s.phases
  {
  }

  lemma PhaseLetGoStays(cfg: Config, s: State, step: PhaseStep)
    requires InRange(s) && LetGo(LastPhase(s))
    ensures LetGo(LastPhase(StepPhase(cfg, s, step))) || LastPhase(StepPhase(cfg, s, step)).None?
  {
  }

  lemma EnvLetGoStays(s: State, step: EnvStep)
    requires InRange(s) && LetGo(LastPhase(s))
    ensures LetGo(LastPhase(StepEnv(s, step))) || LastPhase(StepEnv(s, step)).None?
  {
  }
}
