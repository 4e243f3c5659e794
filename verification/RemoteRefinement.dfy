/** The remote cluster of module ClaimModel is what the full Addon protocol looks like from outside: every
    run of AddonModel, seen through spec, generation and the reported status, is a run of ClaimModel.Remote. */
module RemoteRefinement {
  import opened Wrappers
  import M = AddonModel
  import opened ClaimModel
  import A = Applications

  function SeenAs(a: M.Addon): RemoteAddon {
    RemoteAddon(a.spec, a.generation, a.status.observedGeneration, a.status.ready, a.status.deployed)
  }

  function SeenVersion(v: M.AddonVersion): Option<RemoteAddon> {
    if v.content.Some? then Some(SeenAs(v.content.value)) else None
  }

  function SeenVersions(vs: seq<M.AddonVersion>): (r: RemoteVersions)
    ensures |r| == |vs|
  {
    seq(|vs|, i requires 0 <= i < |vs| => SeenVersion(vs[i]))
  }

  function SeenWork(w: M.AddonWorker): Work {
    match M.DraftOf(w)
    case None => Resting
    case Some(d) => Working(d.start, SeenAs(d.snap))
  }

  /** The remote cluster as the claim sees it, given the conclusions so far. */
  function Abstract(s: M.State, concluded: seq<Conclusion>): (r: Remote)
    requires M.InRange(s)
    ensures RemoteInRange(r)
  {
    Remote(SeenVersions(s.addons), s.addonView, SeenWork(s.addonCtl), concluded)
  }

  /** A step of the remote side, or a write of the spec by the claim. */
  datatype Act = Own(step: RemoteStep) | Pushed(spec: A.AddonSpec)

  function Perform(r: Remote, act: Act): (q: Remote)
    requires RemoteInRange(r)
    ensures RemoteInRange(q)
  {
    match act
    case Own(step) => StepRemote(r, step)
    case Pushed(spec) => Push(r, spec)
  }

  ghost predicate Refines(s: M.State, r: M.State, concluded: seq<Conclusion>, act: Act)
    requires M.InRange(s) && M.InRange(r)
  {
    var q := Perform(Abstract(s, concluded), act);
    Abstract(r, q.concluded) == q
  }

  /** The conclusions after a step of the cluster: a status write is one more. */
  function ConcludedAfter(s: M.State, r: M.State, step: M.Step, concluded: seq<Conclusion>): seq<Conclusion> {
    if step == M.ByAddon(M.PutStatus) && s.addonCtl.StatusPut? && r.addons != s.addons
    then concluded + [Conclusion(s.addonCtl.d.start, s.addonCtl.d.status.ready)] else concluded
  }

  /** A status about to be written names the generation the reconcile started from. */
  predicate NamesGeneration(w: M.AddonWorker) {
    w.StatusGet? || w.StatusPut? ==> w.d.status.observedGeneration == w.d.snap.generation
  }

  lemma Appended(vs: seq<M.AddonVersion>, v: M.AddonVersion)
    ensures SeenVersions(vs + [v]) == SeenVersions(vs) + [SeenVersion(v)]
  {
  }

  /** The stored Addons are left alone: at most the worker starts on the version in view, or stops. */
  predicate OnlyWorker(s: M.State, r: M.State)
    requires M.InRange(s)
  {
    && r.addons == s.addons && r.addonView == s.addonView
    && (|| SeenWork(r.addonCtl) == SeenWork(s.addonCtl)
        || SeenWork(r.addonCtl).Resting?
        || (SeenWork(s.addonCtl).Resting? && M.SeenAddon(s).Some?
            && SeenWork(r.addonCtl) == Working(s.addonView, SeenAs(M.SeenAddon(s).value))))
  }

  lemma WorkerRefines(s: M.State, r: M.State, concluded: seq<Conclusion>) returns (act: Act)
    requires M.InRange(s) && M.InRange(r) && OnlyWorker(s, r)
    ensures act.Own? && !act.step.Conclude? && Refines(s, r, concluded, act)
  {
    if SeenWork(r.addonCtl) == SeenWork(s.addonCtl) {
      act := Own(Look(s.addonView));
    } else if SeenWork(r.addonCtl).Resting? {
      act := Own(Abandon);
    } else {
      act := Own(StartWork);
    }
  }

  lemma AddonStepRefines(cfg: M.Config, s: M.State, step: M.AddonStep, concluded: seq<Conclusion>) returns (act: Act)
    requires M.InRange(s) && NamesGeneration(s.addonCtl)
    ensures NamesGeneration(M.StepAddon(cfg, s, step).addonCtl)
    ensures act.Own? && Refines(s, M.StepAddon(cfg, s, step), concluded, act)
    ensures Perform(Abstract(s, concluded), act).concluded
            == ConcludedAfter(s, M.StepAddon(cfg, s, step), M.ByAddon(step), concluded)
  {
    var r := M.StepAddon(cfg, s, step);
    NamesGenerationKept(cfg, s, step);
    if M.Writing(step) {
      act := WriteRefines(cfg, s, step, concluded);
    } else {
      if M.Early(step) {
        EarlyMoves(cfg, s, step);
      } else {
        LateMoves(cfg, s, step);
      }
      act := WorkerRefines(s, r, concluded);
    }
  }

  lemma NamesGenerationKept(cfg: M.Config, s: M.State, step: M.AddonStep)
    requires M.InRange(s) && NamesGeneration(s.addonCtl)
    ensures NamesGeneration(M.StepAddon(cfg, s, step).addonCtl)
  {
    if M.Early(step) {
      EarlyNames(cfg, s, step);
    } else if M.OnApp(step) {
      AppNames(cfg, s, step);
    } else {
      OtherNames(cfg, s, step);
    }
  }

  lemma EarlyNames(cfg: M.Config, s: M.State, step: M.AddonStep)
    requires M.InRange(s) && NamesGeneration(s.addonCtl) && M.Early(step)
    ensures NamesGeneration(M.StepAddon(cfg, s, step).addonCtl)
  {
  }

  lemma AppNames(cfg: M.Config, s: M.State, step: M.AddonStep)
    requires M.InRange(s) && NamesGeneration(s.addonCtl) && M.OnApp(step)
    ensures NamesGeneration(M.StepAddon(cfg, s, step).addonCtl)
  {
  }

  lemma OtherNames(cfg: M.Config, s: M.State, step: M.AddonStep)
    requires M.InRange(s) && NamesGeneration(s.addonCtl) && !M.Early(step) && !M.OnApp(step)
    ensures NamesGeneration(M.StepAddon(cfg, s, step).addonCtl)
  {
  }

  lemma EarlyMoves(cfg: M.Config, s: M.State, step: M.AddonStep)
    requires M.InRange(s) && M.Early(step)
    ensures OnlyWorker(s, M.StepAddon(cfg, s, step))
  {
  }

  lemma LateMoves(cfg: M.Config, s: M.State, step: M.AddonStep)
    requires M.InRange(s) && !M.Early(step) && !M.Writing(step)
    ensures OnlyWorker(s, M.StepAddon(cfg, s, step))
  {
  }

  lemma StatusWritten(s: M.State)
    requires M.InRange(s) && s.addonCtl.StatusPut? && NamesGeneration(s.addonCtl)
    ensures
      var d := s.addonCtl.d;
      var r := M.DoPutStatus(s, d, s.addonCtl.at);
      if r.addons == s.addons then OnlyWorker(s, r)
      else
        && M.LastAddon(s).Some? && r.addonCtl.Idle? && r.addonView == s.addonView
        && |r.addons| == |s.addons| + 1 && s.addons <= r.addons
        && SeenVersion(r.addons[|s.addons|])
           == Some(SeenAs(M.LastAddon(s).value).(observedGeneration := d.snap.generation, ready := d.status.ready,
                                                 deployed := d.status.deployed))
  {
  }

  /** The finalizer is not visible to the claim. */
  lemma FinalizerWritten(cfg: M.Config, s: M.State, step: M.AddonStep)
    requires M.InRange(s) && (step.PutFinalizer? || step.PutRelease?)
    ensures
      var r := M.StepAddon(cfg, s, step);
      if r.addons == s.addons then OnlyWorker(s, r)
      else
        && M.LastAddon(s).Some? && r.addonView == s.addonView && SeenWork(r.addonCtl) == SeenWork(s.addonCtl)
        && |r.addons| == |s.addons| + 1 && s.addons <= r.addons
        && (r.addons[|s.addons|].content.None?
            || SeenVersion(r.addons[|s.addons|]) == SeenVersion(s.addons[|s.addons| - 1]))
  {
  }

  lemma StatusRefines(s: M.State, concluded: seq<Conclusion>) returns (act: Act)
    requires M.InRange(s) && NamesGeneration(s.addonCtl) && s.addonCtl.StatusPut?
    ensures
      var r := M.DoPutStatus(s, s.addonCtl.d, s.addonCtl.at);
      && act.Own? && Refines(s, r, concluded, act)
      && Perform(Abstract(s, concluded), act).concluded == ConcludedAfter(s, r, M.ByAddon(M.PutStatus), concluded)
  {
    var r := M.DoPutStatus(s, s.addonCtl.d, s.addonCtl.at);
    StatusWritten(s);
    if r.addons == s.addons {
      act := WorkerRefines(s, r, concluded);
    } else {
      assert r.addons == s.addons + [r.addons[|s.addons|]];
      Appended(s.addons, r.addons[|s.addons|]);
      act := Own(Conclude(s.addonCtl.d.status.ready, s.addonCtl.d.status.deployed));
    }
  }

  lemma FinalizerRefines(cfg: M.Config, s: M.State, step: M.AddonStep, concluded: seq<Conclusion>) returns (act: Act)
    requires M.InRange(s) && (step.PutFinalizer? || step.PutRelease?)
    ensures act.Own? && !act.step.Conclude? && Refines(s, M.StepAddon(cfg, s, step), concluded, act)
  {
    var r := M.StepAddon(cfg, s, step);
    FinalizerWritten(cfg, s, step);
    if r.addons == s.addons {
      act := WorkerRefines(s, r, concluded);
    } else {
      assert r.addons == s.addons + [r.addons[|s.addons|]];
      Appended(s.addons, r.addons[|s.addons|]);
      act := Own(if r.addons[|s.addons|].content.Some? then Touch else Vanish);
    }
  }

  lemma WriteRefines(cfg: M.Config, s: M.State, step: M.AddonStep, concluded: seq<Conclusion>) returns (act: Act)
    requires M.InRange(s) && NamesGeneration(s.addonCtl) && M.Writing(step)
    ensures act.Own? && Refines(s, M.StepAddon(cfg, s, step), concluded, act)
    ensures Perform(Abstract(s, concluded), act).concluded
            == ConcludedAfter(s, M.StepAddon(cfg, s, step), M.ByAddon(step), concluded)
  {
    if !step.PutStatus? {
      act := FinalizerRefines(cfg, s, step, concluded);
    } else if s.addonCtl.StatusPut? {
      act := StatusRefines(s, concluded);
    } else {
      act := WorkerRefines(s, s, concluded);
    }
  }

  lemma PhaseStepRefines(cfg: M.Config, s: M.State, step: M.PhaseStep, concluded: seq<Conclusion>) returns (act: Act)
    requires M.InRange(s)
    ensures M.StepPhase(cfg, s, step).addonCtl == s.addonCtl
    ensures act.Own? && !act.step.Conclude?
    ensures Refines(s, M.StepPhase(cfg, s, step), concluded, act)
  {
    var r := M.StepPhase(cfg, s, step);
    if r.addons == s.addons {
      act := WorkerRefines(s, r, concluded);
    } else {
      var v := r.addons[|s.addons|];
      assert r.addons == s.addons + [v];
      Appended(s.addons, v);
      act := Own(Touch);
    }
  }

  lemma EnvStepRefines(s: M.State, step: M.EnvStep, concluded: seq<Conclusion>) returns (act: Act)
    requires M.InRange(s)
    ensures M.StepEnv(s, step).addonCtl == s.addonCtl
    ensures act.Own? ==> !act.step.Conclude?
    ensures act.Pushed? ==> step.CreateAddon? || (step.EditAddon? && M.LastAddon(s).Some? && act.spec == step.spec)
    ensures Refines(s, M.StepEnv(s, step), concluded, act)
  {
    var r := M.StepEnv(s, step);
    if r.addons == s.addons {
      act := Own(Look(r.addonView));
    } else {
      var v := r.addons[|s.addons|];
      assert r.addons == s.addons + [v];
      Appended(s.addons, v);
      act := if v.content.None? then Own(Vanish)
             else if step.DeleteAddon? then Own(if M.LastAddon(s).value.deleting then Touch else Mark)
             else Pushed(v.content.value.spec);
    }
  }

  function Performed(acts: seq<Act>): (r: Remote)
    ensures RemoteInRange(r)
  {
    if acts == [] then ClaimModel.INIT.remote else Perform(Performed(acts[..|acts| - 1]), acts[|acts| - 1])
  }

  lemma StepRefines(cfg: M.Config, s: M.State, step: M.Step, concluded: seq<Conclusion>) returns (act: Act)
    requires M.InRange(s) && NamesGeneration(s.addonCtl)
    ensures NamesGeneration(M.Apply(cfg, s, step).addonCtl)
    ensures Refines(s, M.Apply(cfg, s, step), concluded, act)
  {
    match step
    case ByAddon(a) => act := AddonStepRefines(cfg, s, a, concluded);
    case ByPhase(p) => act := PhaseStepRefines(cfg, s, p, concluded);
    case ByEnv(e) => act := EnvStepRefines(s, e, concluded);
  }

  lemma PerformedNext(acts: seq<Act>, act: Act)
    ensures Performed(acts + [act]) == Perform(Performed(acts), act)
  {
    assert (acts + [act])[..|acts|] == acts;
  }

  /** Every run of the full protocol is, to the claim, a run of the remote cluster it was modelled with. */
  lemma {:induction false} RunRefines(cfg: M.Config, steps: seq<M.Step>) returns (acts: seq<Act>)
    ensures NamesGeneration(M.Run(cfg, steps).addonCtl)
    ensures Abstract(M.Run(cfg, steps), Performed(acts).concluded) == Performed(acts)
  {
    if steps == [] {
      acts := [];
    } else {
      var s := M.Run(cfg, steps[..|steps| - 1]);
      var before := RunRefines(cfg, steps[..|steps| - 1]);
      var act := StepRefines(cfg, s, steps[|steps| - 1], Performed(before).concluded);
      PerformedNext(before, act);
      acts := before + [act];
    }
  }
}
