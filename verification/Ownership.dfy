/** The Addon's status is two histories with one owner each: phaseSelectors belongs to the AddonPhase
    controller, everything else to the Addon controller, however their reads, writes and retries
    interleave. */
module Ownership {
  import opened Wrappers
  import opened AddonModel

  type Versions = seq<AddonVersion>

  /** What the Addon controller owns of a status. */
  function Own(st: AddonStatus): AddonStatus {
    st.(phaseSelectors := [])
  }

  predicate SameSelectors(a: AddonVersion, b: AddonVersion)
    requires a.content.Some? && b.content.Some?
  {
    a.content.value.status.phaseSelectors == b.content.value.status.phaseSelectors
  }

  predicate SameOwn(a: AddonVersion, b: AddonVersion)
    requires a.content.Some? && b.content.Some?
  {
    Own(a.content.value.status) == Own(b.content.value.status)
  }

  /** What each writer may do to the version before its own. */
  predicate Owned(a: AddonVersion, b: AddonVersion) {
    match b.writer
    case User =>
      b.content.Some? ==>
        if a.content.None? then b.content.value.status == NEW_ADDON_STATUS
        else a.content.value.status == b.content.value.status
    case AddonController =>
      a.content.Some?
      && (b.content.Some? ==>
            var x, y := a.content.value, b.content.value;
            x.(status := y.status, finalizer := y.finalizer) == y && SameSelectors(a, b)
            && (x.finalizer == y.finalizer || x.status == y.status))
    case PhaseController =>
      a.content.Some? && b.content.Some?
      && (var x, y := a.content.value, b.content.value;
          x.(status := x.status.(phaseSelectors := y.status.phaseSelectors)) == y)
  }

  ghost predicate AllOwned(vs: Versions) {
    forall j | 0 <= j && j + 1 < |vs| :: Owned(vs[j], vs[j + 1])
  }

  predicate OwnedStep(vs: Versions, us: Versions) {
    us == vs || (vs != [] && |us| == |vs| + 1 && vs <= us && Owned(vs[|vs| - 1], us[|vs|]))
  }

  lemma AddonStepOwned(cfg: Config, s: State, step: AddonStep)
    requires InRange(s)
    ensures OwnedStep(s.addons, StepAddon(cfg, s, step).addons)
  {
  }

  lemma PhaseStepOwned(cfg: Config, s: State, step: PhaseStep)
    requires InRange(s)
    ensures OwnedStep(s.addons, StepPhase(cfg, s, step).addons)
  {
  }

  lemma EnvStepOwned(s: State, step: EnvStep)
    requires InRange(s)
    ensures OwnedStep(s.addons, StepEnv(s, step).addons)
  {
  }

  lemma OwnedGrows(vs: Versions, us: Versions)
    requires AllOwned(vs) && OwnedStep(vs, us)
    ensures AllOwned(us)
  {
    forall j | 0 <= j && j + 1 < |us|
      ensures Owned(us[j], us[j + 1])
    {
      if j + 1 < |vs| {
        assert Owned(vs[j], vs[j + 1]);
      }
    }
  }

  /** Every version in a reachable history is a write its writer was entitled to. */
  lemma {:induction false} RunOwned(cfg: Config, steps: seq<Step>)
    ensures AllOwned(Run(cfg, steps).addons)
  {
    if steps != [] {
      var s := Run(cfg, steps[..|steps| - 1]);
      RunOwned(cfg, steps[..|steps| - 1]);
      match steps[|steps| - 1] {
        case ByAddon(a) => AddonStepOwned(cfg, s, a);
        case ByPhase(p) => PhaseStepOwned(cfg, s, p);
        case ByEnv(e) => EnvStepOwned(s, e);
      }
      OwnedGrows(s.addons, Run(cfg, steps).addons);
    }
  }

  ghost predicate AllStored(vs: Versions, i: nat, j: nat)
    requires i <= j < |vs|
  {
    forall k | i <= k <= j :: vs[k].content.Some?
  }

  ghost predicate NoWriteBy(vs: Versions, i: nat, j: nat, w: Writer)
    requires i <= j < |vs|
  {
    forall k | i < k <= j :: vs[k].writer != w
  }

  lemma {:induction false} OwnersOnly(vs: Versions, i: nat, j: nat)
    requires AllOwned(vs) && i <= j < |vs| && AllStored(vs, i, j)
    ensures NoWriteBy(vs, i, j, PhaseController) ==> SameSelectors(vs[i], vs[j])
    ensures NoWriteBy(vs, i, j, AddonController) ==> SameOwn(vs[i], vs[j])
    decreases j - i
  {
    if i < j {
      OwnersOnly(vs, i, j - 1);
      assert Owned(vs[j - 1], vs[j - 1 + 1]);
    }
  }

  /** Over any stretch of a reachable history in which the Addon exists: without a write of the AddonPhase
      controller the phase selectors stay, and without one of the Addon controller all the rest stays. */
  lemma TwoHistories(cfg: Config, steps: seq<Step>, i: nat, j: nat)
    requires i <= j < |Run(cfg, steps).addons| && AllStored(Run(cfg, steps).addons, i, j)
    ensures
      var vs := Run(cfg, steps).addons;
      && (NoWriteBy(vs, i, j, PhaseController) ==> SameSelectors(vs[i], vs[j]))
      && (NoWriteBy(vs, i, j, AddonController) ==> SameOwn(vs[i], vs[j]))
  {
    RunOwned(cfg, steps);
    OwnersOnly(Run(cfg, steps).addons, i, j);
  }
}
