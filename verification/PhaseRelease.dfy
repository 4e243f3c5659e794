/** The mirror of the finalizer handshake for the AddonPhase: exactly when a released AddonPhase leaves its
    selectors behind in the Addon (internal/controller/addonphase/controller.go, clearAddonStatus). The
    clearing patch is computed from the cached Addon, so it is empty if that one has no selectors. */
module PhaseRelease {
  import opened Wrappers
  import opened AddonModel
  import opened Logs
  import opened Ownership
  import opened Latches
  import opened RuleLatches

  function SelectorsOf(v: AddonVersion): Selectors {
    if v.content.Some? then v.content.value.status.phaseSelectors else []
  }

  /** The selectors in the stored Addon. */
  function Left(s: State): Selectors
    requires InRange(s)
  {
    SelectorsOf(s.addons[|s.addons| - 1])
  }

  predicate IsClearRead(e: Event) {
    e.ClearRead?
  }

  /** The last read of the Addon made in order to clear it. */
  function LastClear(log: seq<Event>): (e: Option<Event>)
    ensures e.Some? ==> e.value.ClearRead?
  {
    var i := LastThat(log, IsClearRead);
    if i < 0 then None else Some(log[i])
  }

  /** It found no Addon, or one without selectors: nothing will be cleared. */
  predicate Misses(e: Event)
    requires e.ClearRead?
  {
    e.found.None? || e.found.value == []
  }

  /** The selectors stored at the time of the read, as long as the Addon stays the same object. */
  ghost function StillThere(vs: Versions, e: Event): Selectors
    requires e.ClearRead? && e.version < |vs|
  {
    if AllStored(vs, e.version, |vs| - 1) then SelectorsOf(vs[e.version]) else []
  }

  predicate Releasing(w: PhaseWorker) {
    w.PhaseReleaseGet? || w.PhaseReleasePut?
  }

  ghost predicate ReleaseFacts(vs: Versions, log: seq<Event>, w: PhaseWorker)
    requires vs != []
  {
    w.ClearPatch? || Releasing(w) ==>
      && LastClear(log).Some? && LastClear(log).value.version < |vs|
      && var e := LastClear(log).value;
         && (w.ClearPatch? ==> e.found == Some(w.base))
         && SelectorsOf(vs[|vs| - 1]) == if w.ClearPatch? || Misses(e) then StillThere(vs, e) else []
  }

  ghost predicate Inv(s: State)
    requires InRange(s)
  {
    ReleaseFacts(s.addons, s.log, s.phaseCtl)
  }

  /** A write of another party, or one that leaves the selectors alone. */
  lemma StillThereNext(vs: Versions, v: AddonVersion, e: Event)
    requires e.ClearRead? && e.version < |vs|
    requires v.content.Some? ==>
               SelectorsOf(v) == if vs[|vs| - 1].content.Some? then SelectorsOf(vs[|vs| - 1]) else []
    ensures SelectorsOf(vs[|vs| - 1]) == StillThere(vs, e) ==> SelectorsOf(v) == StillThere(vs + [v], e)
    ensures SelectorsOf(vs[|vs| - 1]) == [] ==> SelectorsOf(v) == []
  {
    var us := vs + [v];
    assert forall k | 0 <= k < |vs| :: us[k] == vs[k];
    assert us[|us| - 1] == v;
    if AllStored(us, e.version, |us| - 1) {
      assert us[|vs| - 1].content.Some?;
      assert AllStored(vs, e.version, |vs| - 1);
    } else if AllStored(vs, e.version, |vs| - 1) {
      assert v.content.None?;
    }
  }

  /** No other step reads the Addon in order to clear it. */
  ghost predicate NoClearRead(log: seq<Event>, more: seq<Event>) {
    log <= more && forall i | |log| <= i < |more| :: !more[i].ClearRead?
  }

  lemma OthersKeep(s: State, r: State)
    requires InRange(s) && InRange(r) && Inv(s) && r.phaseCtl == s.phaseCtl && NoClearRead(s.log, r.log)
    requires OwnedStep(s.addons, r.addons)
    requires r.addons != s.addons ==> r.addons[|s.addons|].writer != PhaseController
    ensures Inv(r)
  {
    LastThatSame(s.log, r.log, IsClearRead);
    if r.addons != s.addons && LastClear(s.log).Some? && LastClear(s.log).value.version < |s.addons| {
      var v := r.addons[|s.addons|];
      assert r.addons == s.addons + [v] && Owned(s.addons[|s.addons| - 1], v);
      StillThereNext(s.addons, v, LastClear(s.log).value);
    }
  }

  lemma AddonStepKeeps(cfg: Config, s: State, step: AddonStep)
    requires InRange(s) && Inv(s)
    ensures Inv(StepAddon(cfg, s, step))
  {
    AddonSideHolds(cfg, s, step);
    AddonSideLogs(cfg, s, step);
    AddonStepOwned(cfg, s, step);
    AddonWrites(cfg, s, step);
    OthersKeep(s, StepAddon(cfg, s, step));
  }

  lemma AddonWrites(cfg: Config, s: State, step: AddonStep)
    requires InRange(s)
    ensures var r := StepAddon(cfg, s, step);
            r.addons != s.addons ==> |r.addons| > |s.addons| && r.addons[|s.addons|].writer == AddonController
  {
  }

  lemma EnvStepKeeps(s: State, step: EnvStep)
    requires InRange(s) && Inv(s)
    ensures Inv(StepEnv(s, step))
  {
    EnvSideHolds(s, step);
    EnvLeavesAddonCtl(s, step);
    EnvStepOwned(s, step);
    OthersKeep(s, StepEnv(s, step));
  }

  lemma ReadKeeps(s: State)
    requires InRange(s)
    ensures Inv(DoReadForClear(s))
  {
    LastThatAppend(s.log, DoReadForClear(s).log[|s.log|], IsClearRead);
  }

  lemma ClearKeeps(s: State)
    requires InRange(s) && Inv(s) && s.phaseCtl.ClearPatch?
    ensures Inv(DoClear(s, s.phaseCtl.base))
  {
    var r := DoClear(s, s.phaseCtl.base);
    if r.addons != s.addons {
      var v := r.addons[|s.addons|];
      assert r.addons == s.addons + [v];
      if s.phaseCtl.base == [] {
        StillThereNext(s.addons, v, LastClear(s.log).value);
      }
    }
  }

  /** No other step of the phase controller clears or starts to. */
  lemma PhaseMoves(cfg: Config, s: State, step: PhaseStep)
    requires InRange(s) && !step.ReadForClear? && !step.SendClear?
    ensures var r := StepPhase(cfg, s, step);
            && NoClearRead(s.log, r.log) && !(r.phaseCtl.ClearPatch? && r.phaseCtl != s.phaseCtl)
            && (Releasing(r.phaseCtl) ==> Releasing(s.phaseCtl))
            && (r.phaseCtl.ClearPatch? || Releasing(r.phaseCtl) ==> r.addons == s.addons)
  {
  }

  lemma PhaseStepKeeps(cfg: Config, s: State, step: PhaseStep)
    requires InRange(s) && Inv(s)
    ensures Inv(StepPhase(cfg, s, step))
  {
    match step
    case ReadForClear => if s.phaseCtl.ClearGet? { ReadKeeps(s); }
    case SendClear => if s.phaseCtl.ClearPatch? { ClearKeeps(s); }
    case _ =>
      PhaseMoves(cfg, s, step);
      MoveKeeps(s, StepPhase(cfg, s, step));
  }

  lemma MoveKeeps(s: State, r: State)
    requires InRange(s) && InRange(r) && Inv(s) && NoClearRead(s.log, r.log)
    requires r.phaseCtl.ClearPatch? ==> r.phaseCtl == s.phaseCtl
    requires Releasing(r.phaseCtl) ==> Releasing(s.phaseCtl)
    requires r.phaseCtl.ClearPatch? || Releasing(r.phaseCtl) ==> r.addons == s.addons
    ensures Inv(r)
  {
    LastThatSame(s.log, r.log, IsClearRead);
  }

  lemma {:induction false} RunKeeps(cfg: Config, steps: seq<Step>)
    ensures Inv(Run(cfg, steps))
  {
    if steps != [] {
      var s := Run(cfg, steps[..|steps| - 1]);
      RunKeeps(cfg, steps[..|steps| - 1]);
      match steps[|steps| - 1]
      case ByAddon(a) => AddonStepKeeps(cfg, s, a);
      case ByPhase(p) => PhaseStepKeeps(cfg, s, p);
      case ByEnv(e) => EnvStepKeeps(s, e);
    }
  }

  /** Selectors are left iff the read missed those that were stored, and the Addon is still the same. */
  ghost predicate LeavesIff(s: State)
    requires InRange(s)
  {
    && LastClear(s.log).Some? && LastClear(s.log).value.version < |s.addons|
    && var e := LastClear(s.log).value;
       (Left(s) != [] <==>
        && Misses(e) && SelectorsOf(s.addons[e.version]) != []
        && AllStored(s.addons, e.version, |s.addons| - 1))
  }

  lemma LeavesFromInv(s: State)
    requires InRange(s) && Inv(s) && s.phaseCtl.PhaseReleasePut?
    ensures LeavesIff(s) && LeavesIff(DoPhasePutRelease(s, s.phaseCtl.at))
  {
  }

  /** In every run, an AddonPhase about to be released, or just released, leaves selectors behind in the Addon
      iff its last read to clear them found no Addon or one without selectors, while the stored one had some,
      and that one is still there. */
  lemma ReleaseLeavesIff(cfg: Config, steps: seq<Step>)
    requires Run(cfg, steps).phaseCtl.PhaseReleasePut?
    ensures var s := Run(cfg, steps);
            LeavesIff(s) && LeavesIff(DoPhasePutRelease(s, s.phaseCtl.at))
  {
    RunKeeps(cfg, steps);
    LeavesFromInv(Run(cfg, steps));
  }
}
