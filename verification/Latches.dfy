/** The Deployed latch of an Addon as it stands in the store. The controller overwrites the whole status from
    the snapshot its reconcile started with: exactly which writes withdraw Deployed, and that none does when
    reconciles start from a cache that shows the controller's own last write. */
module Latches {
  import opened Wrappers
  import opened AddonModel
  import opened Adjacent
  import opened Ownership

  predicate Deployed(v: AddonVersion) {
    v.content.Some? && v.content.value.status.deployed
  }

  /** The cache shows every write of the Addon controller. */
  ghost predicate OwnWritesSeen(s: State) {
    forall k | s.addonView < k < |s.addons| :: s.addons[k].writer != AddonController
  }

  ghost predicate AddonStartsFresh(cfg: Config, steps: seq<Step>) {
    forall i | 0 <= i < |steps| && steps[i] == ByAddon(StartAddon) :: OwnWritesSeen(Run(cfg, steps[..i]))
  }

  predicate Keeps(a: AddonVersion, b: AddonVersion) {
    Deployed(a) && b.content.Some? ==> Deployed(b)
  }

  ghost predicate AllKept(vs: Versions) {
    Always(vs, Keeps)
  }

  function DraftStatus(w: AddonWorker): Option<AddonStatus> {
    if DraftOf(w).Some? then Some(DraftOf(w).value.status) else None
  }

  ghost predicate AddonLatched(s: State)
    requires InRange(s)
  {
    && AllKept(s.addons)
    && (DraftStatus(s.addonCtl).Some? && Deployed(s.addons[|s.addons| - 1]) ==> DraftStatus(s.addonCtl).value.deployed)
  }

  /** Without writes of the Addon controller after it, a version shows Deployed if the last one does. */
  lemma {:induction false} DeployedBack(vs: Versions, view: nat, last: nat)
    requires AllOwned(vs) && view <= last < |vs| && Deployed(vs[last])
    requires forall k | view < k < |vs| :: vs[k].writer != AddonController
    ensures Deployed(vs[view])
    decreases last - view
  {
    if view < last {
      assert Owned(vs[last - 1], vs[last - 1 + 1]);
      DeployedBack(vs, view, last - 1);
    }
  }

  lemma StartLatches(s: State)
    requires InRange(s) && AddonLatched(s) && AllOwned(s.addons) && OwnWritesSeen(s) && s.addonCtl.Idle?
    ensures AddonLatched(DoStart(s))
  {
    if Deployed(s.addons[|s.addons| - 1]) {
      DeployedBack(s.addons, s.addonView, |s.addons| - 1);
    }
  }

  /** One more version, and a draft that has not lost Deployed. */
  lemma Extends(s: State, r: State)
    requires InRange(s) && InRange(r) && AddonLatched(s) && OwnedStep(s.addons, r.addons)
    requires r.addons != s.addons ==> Keeps(s.addons[|s.addons| - 1], r.addons[|s.addons|])
    requires r.addons != s.addons && DraftStatus(r.addonCtl).Some? ==>
               Deployed(r.addons[|s.addons|]) ==> Deployed(s.addons[|s.addons| - 1])
    requires DraftStatus(r.addonCtl).Some? ==>
               DraftStatus(s.addonCtl).Some?
               && (DraftStatus(s.addonCtl).value.deployed ==> DraftStatus(r.addonCtl).value.deployed)
    ensures AddonLatched(r)
  {
    forall j | 0 <= j && j + 1 < |r.addons|
      ensures Keeps(r.addons[j], r.addons[j + 1])
    {
      if j + 1 < |s.addons| {
        assert Keeps(s.addons[j], s.addons[j + 1]);
      }
    }
  }

  /** No step but the writes touches the stored Addons, and no draft loses Deployed. */
  ghost predicate OnlyDraft(s: State, r: State) {
    && r.addons == s.addons
    && (DraftStatus(r.addonCtl).Some? ==>
          DraftStatus(s.addonCtl).Some?
          && (DraftStatus(s.addonCtl).value.deployed ==> DraftStatus(r.addonCtl).value.deployed))
  }

  lemma EarlyKeepsDeployed(cfg: Config, s: State, step: AddonStep)
    requires InRange(s) && Early(step)
    ensures OnlyDraft(s, StepAddon(cfg, s, step))
  {
  }

  lemma LateKeepsDeployed(cfg: Config, s: State, step: AddonStep)
    requires InRange(s) && Late(step)
    ensures OnlyDraft(s, StepAddon(cfg, s, step))
  {
  }

  lemma AppKeepsDeployed(cfg: Config, s: State, step: AddonStep)
    requires InRange(s) && OnApp(step)
    ensures OnlyDraft(s, StepAddon(cfg, s, step))
  {
    if step.CreateApp? {
      CreateKeepsDeployed(cfg, s);
    }
  }

  lemma CreateKeepsDeployed(cfg: Config, s: State)
    requires InRange(s)
    ensures OnlyDraft(s, StepAddon(cfg, s, CreateApp))
  {
  }

  lemma AddonWriteLatches(cfg: Config, s: State, step: AddonStep)
    requires InRange(s) && AddonLatched(s) && Writing(step)
    ensures AddonLatched(StepAddon(cfg, s, step))
  {
    AddonStepOwned(cfg, s, step);
    Extends(s, StepAddon(cfg, s, step));
  }

  lemma AddonStepLatches(cfg: Config, s: State, step: AddonStep)
    requires InRange(s) && AddonLatched(s) && AllOwned(s.addons) && (step.StartAddon? ==> OwnWritesSeen(s))
    ensures AddonLatched(StepAddon(cfg, s, step))
  {
    if step.StartAddon? {
      if s.addonCtl.Idle? {
        StartLatches(s);
      }
    } else if Writing(step) {
      AddonWriteLatches(cfg, s, step);
    } else {
      if Early(step) {
        EarlyKeepsDeployed(cfg, s, step);
      } else if OnApp(step) {
        AppKeepsDeployed(cfg, s, step);
      } else {
        LateKeepsDeployed(cfg, s, step);
      }
      Extends(s, StepAddon(cfg, s, step));
    }
  }

  lemma PhaseStepLatches(cfg: Config, s: State, step: PhaseStep)
    requires InRange(s) && AddonLatched(s)
    ensures AddonLatched(StepPhase(cfg, s, step))
  {
    PhaseStepOwned(cfg, s, step);
    PhaseLeavesAddonCtl(cfg, s, step);
    Extends(s, StepPhase(cfg, s, step));
  }

  lemma PhaseLeavesAddonCtl(cfg: Config, s: State, step: PhaseStep)
    requires InRange(s)
    ensures StepPhase(cfg, s, step).addonCtl == s.addonCtl
    ensures StepPhase(cfg, s, step).addons != s.addons ==>
              var n := |s.addons|;
              |StepPhase(cfg, s, step).addons| > n && StepPhase(cfg, s, step).addons[n].writer == PhaseController
  {
  }

  lemma EnvStepLatches(s: State, step: EnvStep)
    requires InRange(s) && AddonLatched(s)
    ensures AddonLatched(StepEnv(s, step))
  {
    EnvStepOwned(s, step);
    EnvLeavesAddonCtl(s, step);
    Extends(s, StepEnv(s, step));
  }

  lemma EnvLeavesAddonCtl(s: State, step: EnvStep)
    requires InRange(s)
    ensures StepEnv(s, step).addonCtl == s.addonCtl
    ensures StepEnv(s, step).addons != s.addons ==>
              |StepEnv(s, step).addons| > |s.addons| && StepEnv(s, step).addons[|s.addons|].writer == User
  {
  }

  lemma {:induction false} AddonRunLatches(cfg: Config, steps: seq<Step>)
    requires AddonStartsFresh(cfg, steps)
    ensures AddonLatched(Run(cfg, steps))
  {
    if steps != [] {
      var n := |steps| - 1;
      var s := Run(cfg, steps[..n]);
      forall i | 0 <= i < n && steps[..n][i] == ByAddon(StartAddon)
        ensures OwnWritesSeen(Run(cfg, steps[..n][..i]))
      {
        assert steps[..n][..i] == steps[..i];
      }
      AddonRunLatches(cfg, steps[..n]);
      RunOwned(cfg, steps[..n]);
      match steps[n]
      case ByAddon(a) => AddonStepLatches(cfg, s, a);
      case ByPhase(p) => PhaseStepLatches(cfg, s, p);
      case ByEnv(e) => EnvStepLatches(s, e);
    }
  }

  lemma {:induction false} KeptOnwards(vs: Versions, i: nat, j: nat)
    requires AllKept(vs) && i <= j < |vs| && AllStored(vs, i, j) && Deployed(vs[i])
    ensures Deployed(vs[j])
    decreases j - i
  {
    if i < j {
      KeptOnwards(vs, i, j - 1);
      assert Keeps(vs[j - 1], vs[j - 1 + 1]);
    }
  }

  /** With such starts, status.deployed is never withdrawn while the Addon exists. */
  lemma AddonDeployedLatches(cfg: Config, steps: seq<Step>, i: nat, j: nat)
    requires AddonStartsFresh(cfg, steps) && i <= j < |Run(cfg, steps).addons|
    requires AllStored(Run(cfg, steps).addons, i, j) && Deployed(Run(cfg, steps).addons[i])
    ensures Deployed(Run(cfg, steps).addons[j])
  {
    AddonRunLatches(cfg, steps);
    KeptOnwards(Run(cfg, steps).addons, i, j);
  }

  // ---- Exactly the writes that withdraw it ----

  predicate VerdictDeployed(st: AddonStatus) {
    st.synced && st.healthy ==> st.deployed
  }

  predicate SameVerdict(a: AddonStatus, b: AddonStatus) {
    a.synced == b.synced && a.healthy == b.healthy && a.deployed == b.deployed
  }

  /** A draft keeps the snapshot's verdict until it closes; then Deployed is the snapshot's or newly earned. */
  predicate DraftFlags(w: AddonWorker) {
    if DraftStatus(w).None? then true
    else if w.StatusGet? || w.StatusPut? then
      VerdictDeployed(w.d.snap.status)
      && (w.d.status.deployed <==> w.d.snap.status.deployed || (w.d.status.synced && w.d.status.healthy))
    else VerdictDeployed(w.d.snap.status) && SameVerdict(w.d.status, w.d.snap.status)
  }

  ghost predicate StoredFlags(vs: Versions) {
    forall k | 0 <= k < |vs| && vs[k].content.Some? :: VerdictDeployed(vs[k].content.value.status)
  }

  ghost predicate FlagInv(s: State) {
    StoredFlags(s.addons) && DraftFlags(s.addonCtl)
  }

  /** The write at hand takes Deployed from the stored Addon: the snapshot had not seen it, and this
      reconcile has not earned it anew. */
  predicate Withdraws(s: State, step: Step)
    requires InRange(s)
  {
    && step == ByAddon(PutStatus) && s.addonCtl.StatusPut? && s.addonCtl.at == |s.addons| - 1
    && Deployed(s.addons[|s.addons| - 1])
    && !s.addonCtl.d.snap.status.deployed
    && !(s.addonCtl.d.status.synced && s.addonCtl.d.status.healthy)
  }

  lemma EarlyFlags(cfg: Config, s: State, step: AddonStep)
    requires InRange(s) && FlagInv(s) && Early(step)
    ensures FlagInv(StepAddon(cfg, s, step))
  {
  }

  lemma FetchFlags(cfg: Config, s: State)
    requires InRange(s) && FlagInv(s)
    ensures FlagInv(StepAddon(cfg, s, FetchApp))
  {
  }

  lemma CreateFlags(cfg: Config, s: State)
    requires InRange(s) && FlagInv(s)
    ensures FlagInv(StepAddon(cfg, s, CreateApp))
  {
  }

  lemma UpdateFlags(cfg: Config, s: State)
    requires InRange(s) && FlagInv(s)
    ensures FlagInv(StepAddon(cfg, s, PutUpdate))
  {
  }

  lemma LateFlags(cfg: Config, s: State, step: AddonStep)
    requires InRange(s) && FlagInv(s) && Late(step)
    ensures FlagInv(StepAddon(cfg, s, step))
  {
  }

  lemma WriteFlags(cfg: Config, s: State, step: AddonStep)
    requires InRange(s) && FlagInv(s) && (step.StartAddon? || Writing(step))
    ensures FlagInv(StepAddon(cfg, s, step))
  {
  }

  lemma AddonFlags(cfg: Config, s: State, step: AddonStep)
    requires InRange(s) && FlagInv(s)
    ensures FlagInv(StepAddon(cfg, s, step))
  {
    match step
    case FetchApp => FetchFlags(cfg, s);
    case CreateApp => CreateFlags(cfg, s);
    case PutUpdate => UpdateFlags(cfg, s);
    case _ =>
      if Early(step) {
        EarlyFlags(cfg, s, step);
      } else if Late(step) {
        LateFlags(cfg, s, step);
      } else {
        WriteFlags(cfg, s, step);
      }
  }

  /** The others keep every status, so the stored flags. */
  lemma OwnedFlags(s: State, r: State)
    requires InRange(s) && FlagInv(s) && OwnedStep(s.addons, r.addons) && r.addonCtl == s.addonCtl
    requires r.addons != s.addons ==> r.addons[|s.addons|].writer != AddonController
    ensures FlagInv(r)
  {
    if r.addons != s.addons {
      var n := |s.addons|;
      assert Owned(s.addons[n - 1], r.addons[n]);
      assert forall k | 0 <= k < n :: r.addons[k] == s.addons[k];
    }
  }

  lemma {:induction false} RunFlags(cfg: Config, steps: seq<Step>)
    ensures FlagInv(Run(cfg, steps))
  {
    if steps != [] {
      var s := Run(cfg, steps[..|steps| - 1]);
      RunFlags(cfg, steps[..|steps| - 1]);
      match steps[|steps| - 1]
      case ByAddon(a) => AddonFlags(cfg, s, a);
      case ByPhase(p) =>
        PhaseStepOwned(cfg, s, p);
        PhaseLeavesAddonCtl(cfg, s, p);
        OwnedFlags(s, StepPhase(cfg, s, p));
      case ByEnv(e) =>
        EnvStepOwned(s, e);
        EnvLeavesAddonCtl(s, e);
        OwnedFlags(s, StepEnv(s, e));
    }
  }

  /** One step keeps Deployed in the store unless it is such a write. */
  lemma StepKeepsIff(cfg: Config, s: State, step: Step)
    requires InRange(s) && FlagInv(s)
    ensures
      var r := Apply(cfg, s, step);
      if r.addons == s.addons then !Withdraws(s, step)
      else |r.addons| == |s.addons| + 1
           && (!Keeps(s.addons[|s.addons| - 1], r.addons[|s.addons|]) <==> Withdraws(s, step))
  {
    match step
    case ByAddon(a) =>
      AddonStepOwned(cfg, s, a);
      AddonKeepsIff(cfg, s, a);
    case ByPhase(p) => PhaseStepOwned(cfg, s, p);
    case ByEnv(e) => EnvStepOwned(s, e);
  }

  lemma AddonKeepsIff(cfg: Config, s: State, step: AddonStep)
    requires InRange(s) && FlagInv(s)
    ensures
      var r := StepAddon(cfg, s, step);
      if r.addons == s.addons then !Withdraws(s, ByAddon(step))
      else |r.addons| == |s.addons| + 1
           && (!Keeps(s.addons[|s.addons| - 1], r.addons[|s.addons|]) <==> Withdraws(s, ByAddon(step)))
  {
  }

  /** In every reachable state the status write at hand withdraws Deployed iff the stored Addon has it, the
      snapshot of the reconcile does not, and the reconcile did not end Synced and Healthy. */
  lemma WriteWithdrawsIff(cfg: Config, steps: seq<Step>)
    requires var s := Run(cfg, steps);
             s.addonCtl.StatusPut? && s.addonCtl.at == |s.addons| - 1 && LastAddon(s).Some?
    ensures
      var s := Run(cfg, steps);
      var r := DoPutStatus(s, s.addonCtl.d, s.addonCtl.at);
      && LastAddon(r).Some?
      && (LastAddon(s).value.status.deployed && !LastAddon(r).value.status.deployed <==>
          && LastAddon(s).value.status.deployed && !s.addonCtl.d.snap.status.deployed
          && !(s.addonCtl.d.status.synced && s.addonCtl.d.status.healthy))
  {
    RunFlags(cfg, steps);
  }

  /** No step of the run is such a write. */
  ghost predicate NeverWithdraws(cfg: Config, steps: seq<Step>) {
    steps == []
    || (var front := steps[..|steps| - 1];
        NeverWithdraws(cfg, front) && !Withdraws(Run(cfg, front), steps[|steps| - 1]))
  }

  /** Over a whole run Deployed latches, from each version to the next, iff no step is such a write. */
  lemma {:induction false} LatchesIff(cfg: Config, steps: seq<Step>)
    ensures AllKept(Run(cfg, steps).addons) <==> NeverWithdraws(cfg, steps)
  {
    if steps != [] {
      var front := steps[..|steps| - 1];
      var s, r := Run(cfg, front), Run(cfg, steps);
      LatchesIff(cfg, front);
      RunFlags(cfg, front);
      StepKeepsIff(cfg, s, steps[|steps| - 1]);
      AlwaysSplit(s.addons, r.addons, Keeps);
    }
  }
}
