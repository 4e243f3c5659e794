/** The AddonClaim controller and the whole Addon protocol of the remote cluster, run together: what a
    published claim version says about Argo CD. */
module EndToEnd {
  import opened Wrappers
  import M = AddonModel
  import C = ClaimModel
  import S = ClaimSafety
  import V = ClaimVersions
  import opened RemoteRefinement
  import opened Ownership
  import opened ReadyWrites
  import opened Latches
  import A = Applications

  datatype Joint = Joint(claim: C.State, cluster: M.State)

  const INIT := Joint(C.INIT, M.INIT)

  predicate JointInRange(j: Joint) {
    C.InRange(j.claim) && M.InRange(j.cluster)
  }

  /** paused: the annotation of the rendered Addon. */
  datatype JointStep = ByClaim(claimStep: C.Step, paused: bool) | ByCluster(clusterStep: M.Step)

  /** The specs of the remote Addon are written by the claim alone. */
  predicate WritesSpec(s: M.State, step: M.Step)
    requires M.InRange(s)
  {
    && step.ByEnv?
    && (|| step.envStep.CreateAddon?
        || (step.envStep.EditAddon? && M.LastAddon(s).Some? && step.envStep.spec != M.LastAddon(s).value.spec))
  }

  predicate Pushes(c: C.State, step: C.Step) {
    step.WriteRemote? && step.ok && c.worker.PutRemote? && c.worker.at == |c.remote.versions| - 1
  }

  /** Create or Update of the remote Addon, as its cluster sees it. */
  function PushStep(s: M.State, spec: A.AddonSpec, paused: bool): M.Step
    requires M.InRange(s)
  {
    match M.LastAddon(s)
    case None => M.ByEnv(M.CreateAddon(spec, paused, false))
    case Some(a) => M.ByEnv(M.EditAddon(spec, paused, a.foreign))
  }

  ghost function Apply(cfg: M.Config, j: Joint, step: JointStep): (r: Joint)
    requires JointInRange(j)
    ensures JointInRange(r)
  {
    match step
    case ByClaim(step, paused) =>
      if step.ByRemote? then j
      else
        Joint(C.Apply(j.claim, step),
              if Pushes(j.claim, step) then M.Apply(cfg, j.cluster, PushStep(j.cluster, j.claim.worker.spec, paused))
              else j.cluster)
    case ByCluster(step) =>
      if WritesSpec(j.cluster, step) then j
      else
        var after := M.Apply(cfg, j.cluster, step);
        var concluded := ConcludedAfter(j.cluster, after, step, j.claim.remote.concluded);
        Joint(j.claim.(remote := Abstract(after, concluded)), after)
  }

  ghost function Run(cfg: M.Config, steps: seq<JointStep>): (r: Joint)
    ensures JointInRange(r)
  {
    if steps == [] then INIT else Apply(cfg, Run(cfg, steps[..|steps| - 1]), steps[|steps| - 1])
  }

  // ---- A deleted Addon without finalizers is gone ----

  predicate Held(v: M.AddonVersion) {
    v.content.Some? && v.content.value.deleting ==> v.content.value.finalizer || v.content.value.foreign
  }

  lemma AddonHeld(cfg: M.Config, s: M.State, step: M.AddonStep)
    requires M.InRange(s) && Held(s.addons[|s.addons| - 1])
    ensures Held(M.StepAddon(cfg, s, step).addons[|M.StepAddon(cfg, s, step).addons| - 1])
  {
  }

  lemma PhaseHeld(cfg: M.Config, s: M.State, step: M.PhaseStep)
    requires M.InRange(s) && Held(s.addons[|s.addons| - 1])
    ensures Held(M.StepPhase(cfg, s, step).addons[|M.StepPhase(cfg, s, step).addons| - 1])
  {
  }

  lemma EnvHeld(s: M.State, step: M.EnvStep)
    requires M.InRange(s) && Held(s.addons[|s.addons| - 1])
    ensures Held(M.StepEnv(s, step).addons[|M.StepEnv(s, step).addons| - 1])
  {
  }

  // ---- One step of the cluster is one remote step ----

  lemma AddonOwn(cfg: M.Config, s: M.State, step: M.AddonStep, concluded: seq<C.Conclusion>)
    returns (own: C.RemoteStep)
    requires M.InRange(s) && NamesGeneration(s.addonCtl)
    ensures var r := M.StepAddon(cfg, s, step);
            C.StepRemote(Abstract(s, concluded), own)
            == Abstract(r, ConcludedAfter(s, r, M.ByAddon(step), concluded))
  {
    var act := AddonStepRefines(cfg, s, step, concluded);
    own := act.step;
  }

  lemma PhaseOwn(cfg: M.Config, s: M.State, step: M.PhaseStep, concluded: seq<C.Conclusion>)
    returns (own: C.RemoteStep)
    requires M.InRange(s)
    ensures C.StepRemote(Abstract(s, concluded), own) == Abstract(M.StepPhase(cfg, s, step), concluded)
  {
    var act := PhaseStepRefines(cfg, s, step, concluded);
    own := act.step;
  }

  lemma EnvOwn(s: M.State, step: M.EnvStep, concluded: seq<C.Conclusion>) returns (own: C.RemoteStep)
    requires M.InRange(s) && !WritesSpec(s, M.ByEnv(step))
    ensures C.StepRemote(Abstract(s, concluded), own) == Abstract(M.StepEnv(s, step), concluded)
  {
    var act := EnvStepRefines(s, step, concluded);
    if act.Own? {
      own := act.step;
    } else {
      PushesNothing(s, concluded);
      own := C.Touch;
    }
  }

  lemma PushesNothing(s: M.State, concluded: seq<C.Conclusion>)
    requires M.InRange(s)
    ensures M.LastAddon(s).Some? ==>
              C.Push(Abstract(s, concluded), M.LastAddon(s).value.spec)
              == C.StepRemote(Abstract(s, concluded), C.Touch)
  {
  }

  // ---- A joint run is a run of either side ----

  ghost predicate ClaimReached(c: C.State) {
    exists steps :: C.Run(steps) == c
  }

  ghost predicate ClusterReached(cfg: M.Config, s: M.State) {
    exists steps :: M.Run(cfg, steps) == s
  }

  lemma ClaimNext(c: C.State, step: C.Step)
    requires C.InRange(c) && ClaimReached(c)
    ensures ClaimReached(C.Apply(c, step))
  {
    var steps :| C.Run(steps) == c;
    assert (steps + [step])[..|steps|] == steps;
    assert C.Run(steps + [step]) == C.Apply(c, step);
  }

  lemma ClusterNext(cfg: M.Config, s: M.State, step: M.Step)
    requires M.InRange(s) && ClusterReached(cfg, s)
    ensures ClusterReached(cfg, M.Apply(cfg, s, step))
  {
    var steps :| M.Run(cfg, steps) == s;
    assert (steps + [step])[..|steps|] == steps;
    assert M.Run(cfg, steps + [step]) == M.Apply(cfg, s, step);
  }

  predicate Regular(s: M.State)
    requires M.InRange(s)
  {
    NamesGeneration(s.addonCtl) && Held(s.addons[|s.addons| - 1])
  }

  /** The claim's remote side is what its cluster looks like. */
  ghost predicate Matched(j: Joint)
    requires JointInRange(j)
  {
    j.claim.remote == Abstract(j.cluster, j.claim.remote.concluded) && Regular(j.cluster)
  }

  ghost predicate Coherent(cfg: M.Config, j: Joint)
    requires JointInRange(j)
  {
    Matched(j) && ClaimReached(j.claim) && ClusterReached(cfg, j.cluster)
  }

  lemma PushMatches(s: M.State, concluded: seq<C.Conclusion>, spec: A.AddonSpec, paused: bool)
    requires M.InRange(s) && Held(s.addons[|s.addons| - 1])
    ensures var r := M.StepEnv(s, PushStep(s, spec, paused).envStep);
            C.Push(Abstract(s, concluded), spec) == Abstract(r, concluded) && r.addonCtl == s.addonCtl
  {
    var r := M.StepEnv(s, PushStep(s, spec, paused).envStep);
    var v := r.addons[|s.addons|];
    assert r.addons == s.addons + [v];
    Appended(s.addons, v);
  }

  lemma ClaimStepMatches(cfg: M.Config, j: Joint, step: C.Step, paused: bool)
    requires JointInRange(j) && Matched(j) && !step.ByRemote?
    ensures Matched(Apply(cfg, j, ByClaim(step, paused)))
  {
    if Pushes(j.claim, step) {
      PushMatches(j.cluster, j.claim.remote.concluded, j.claim.worker.spec, paused);
      EnvHeld(j.cluster, PushStep(j.cluster, j.claim.worker.spec, paused).envStep);
      PushApplied(j.claim, step);
    } else {
      RemoteAlone(j.claim, step);
    }
  }

  lemma PushApplied(c: C.State, step: C.Step)
    requires C.InRange(c) && Pushes(c, step)
    ensures C.Apply(c, step).remote == C.Push(c.remote, c.worker.spec)
  {
  }

  lemma ClaimStepReached(cfg: M.Config, j: Joint, step: C.Step, paused: bool)
    requires JointInRange(j) && ClaimReached(j.claim) && ClusterReached(cfg, j.cluster)
    ensures var r := Apply(cfg, j, ByClaim(step, paused)); ClaimReached(r.claim) && ClusterReached(cfg, r.cluster)
  {
    ClaimNext(j.claim, step);
    if Pushes(j.claim, step) {
      ClusterNext(cfg, j.cluster, PushStep(j.cluster, j.claim.worker.spec, paused));
    }
  }

  lemma RemoteAlone(c: C.State, step: C.Step)
    requires C.InRange(c) && !step.ByRemote? && !Pushes(c, step)
    ensures C.Apply(c, step).remote == c.remote
  {
  }

  /** The step of the claim's own model that shows the cluster's step. */
  lemma ClusterShown(cfg: M.Config, s: M.State, step: M.Step, concluded: seq<C.Conclusion>)
    returns (own: C.RemoteStep)
    requires M.InRange(s) && NamesGeneration(s.addonCtl) && !WritesSpec(s, step)
    ensures var r := M.Apply(cfg, s, step);
            C.StepRemote(Abstract(s, concluded), own) == Abstract(r, ConcludedAfter(s, r, step, concluded))
  {
    match step
    case ByAddon(a) => own := AddonOwn(cfg, s, a, concluded);
    case ByPhase(p) => own := PhaseOwn(cfg, s, p, concluded);
    case ByEnv(e) => own := EnvOwn(s, e, concluded);
  }

  lemma ClusterRegular(cfg: M.Config, s: M.State, step: M.Step)
    requires M.InRange(s) && Regular(s)
    ensures Regular(M.Apply(cfg, s, step))
  {
    match step
    case ByAddon(a) => AddonRegular(cfg, s, a);
    case ByPhase(p) => PhaseRegular(cfg, s, p);
    case ByEnv(e) => EnvRegular(s, e);
  }

  lemma AddonRegular(cfg: M.Config, s: M.State, step: M.AddonStep)
    requires M.InRange(s) && Regular(s)
    ensures Regular(M.StepAddon(cfg, s, step))
  {
    NamesGenerationKept(cfg, s, step);
    AddonHeld(cfg, s, step);
  }

  lemma PhaseRegular(cfg: M.Config, s: M.State, step: M.PhaseStep)
    requires M.InRange(s) && Regular(s)
    ensures Regular(M.StepPhase(cfg, s, step))
  {
    PhaseLeavesAddonCtl(cfg, s, step);
    PhaseHeld(cfg, s, step);
  }

  lemma EnvRegular(s: M.State, step: M.EnvStep)
    requires M.InRange(s) && Regular(s)
    ensures Regular(M.StepEnv(s, step))
  {
    EnvLeavesAddonCtl(s, step);
    EnvHeld(s, step);
  }

  lemma ClusterStepMatches(cfg: M.Config, j: Joint, step: M.Step)
    requires JointInRange(j) && Matched(j)
    ensures Matched(Apply(cfg, j, ByCluster(step)))
  {
    ClusterRegular(cfg, j.cluster, step);
  }

  lemma ClusterStepReached(cfg: M.Config, j: Joint, step: M.Step)
    requires JointInRange(j) && ClaimReached(j.claim) && ClusterReached(cfg, j.cluster) && !WritesSpec(j.cluster, step)
    requires Regular(j.cluster) && j.claim.remote == Abstract(j.cluster, j.claim.remote.concluded)
    ensures var r := Apply(cfg, j, ByCluster(step)); ClaimReached(r.claim) && ClusterReached(cfg, r.cluster)
  {
    ClusterNext(cfg, j.cluster, step);
    ClaimShows(cfg, j, step);
  }

  lemma ClaimShows(cfg: M.Config, j: Joint, step: M.Step)
    requires JointInRange(j) && ClaimReached(j.claim) && !WritesSpec(j.cluster, step) && Regular(j.cluster)
    requires j.claim.remote == Abstract(j.cluster, j.claim.remote.concluded)
    ensures ClaimReached(Apply(cfg, j, ByCluster(step)).claim)
  {
    var own := ClusterShown(cfg, j.cluster, step, j.claim.remote.concluded);
    ClaimNext(j.claim, C.ByRemote(own));
    RemoteApplied(j.claim, own);
  }

  lemma RemoteApplied(c: C.State, own: C.RemoteStep)
    requires C.InRange(c)
    ensures C.Apply(c, C.ByRemote(own)) == c.(remote := C.StepRemote(c.remote, own))
  {
  }

  /** Every joint run is a run of the claim's model and a run of the full protocol, and they agree. */
  lemma {:induction false} JointRunCoherent(cfg: M.Config, steps: seq<JointStep>)
    ensures Coherent(cfg, Run(cfg, steps))
  {
    if steps == [] {
      assert C.Run([]) == C.INIT && M.Run(cfg, []) == M.INIT;
    } else {
      var j := Run(cfg, steps[..|steps| - 1]);
      JointRunCoherent(cfg, steps[..|steps| - 1]);
      match steps[|steps| - 1]
      case ByClaim(step, paused) =>
        if !step.ByRemote? {
          ClaimStepMatches(cfg, j, step, paused);
          ClaimStepReached(cfg, j, step, paused);
        }
      case ByCluster(step) =>
        if !WritesSpec(j.cluster, step) {
          ClusterStepMatches(cfg, j, step);
          ClusterStepReached(cfg, j, step);
        }
    }
  }

  // ---- What a published version says ----

  /** The remote Addon read was the rendered one; its Ready was written by a reconcile that started at a
      version of the same generation, and the event accounts for it: Argo CD reported Synced and Healthy of
      an Application for the spec of that version, or the Application could not be seen. Unless the Addon
      was replaced in between, that spec is the rendered one. */
  ghost predicate Evidence(s: M.State, e: C.Synced, start: nat, k: nat)
    requires e.read.Some?
  {
    var read := e.read.value;
    && start <= read < |s.addons| && s.addons[start].content.Some? && s.addons[read].content.Some? && k < |s.log|
    && s.addons[read].content.value.spec == e.rendered
    && s.addons[start].content.value.generation == s.addons[read].content.value.generation
    && Accounts(s.log[k], s.addons[start].content.value.spec)
    && (AllStored(s.addons, start, read) ==> Accounts(s.log[k], e.rendered))
  }

  lemma SeenVersionsAt(vs: Versions, i: nat)
    requires i < |vs|
    ensures SeenVersions(vs)[i] == SeenVersion(vs[i])
  {
  }

  /** Within one object the spec is that of the generation. */
  lemma SameGenerationSameSpec(r: C.Remote, vs: Versions, start: nat, read: nat)
    requires C.RemoteInRange(r) && S.RemoteInv(r) && r.versions == SeenVersions(vs)
    requires start <= read < |vs| && AllStored(vs, start, read)
    requires vs[start].content.value.generation == vs[read].content.value.generation
    ensures vs[start].content.value.spec == vs[read].content.value.spec
  {
    assert S.AllStored(r.versions, start, read);
    S.GenerationNamesSpec(r.versions, start, read);
  }

  lemma ReadIsReady(s: M.State, e: C.Synced, r: C.Remote)
    requires M.InRange(s) && C.RemoteInRange(r) && S.RemoteInv(r) && r.versions == SeenVersions(s.addons)
    requires ReadyWrites.Inv(s) && e.read.Some? && e.read.value < |s.addons|
    requires s.addons[e.read.value].content.Some?
    requires var a := s.addons[e.read.value].content.value;
             a.spec == e.rendered && a.status.ready && a.status.observedGeneration == a.generation
    ensures exists start: nat, k: nat :: Evidence(s, e, start, k)
  {
    var read := e.read.value;
    var st := s.addons[read].content.value.status;
    assert VersionOk(s.addons, s.log, read);
    var start: nat, k: nat :| AccountedBy(s.addons, s.log, read, st, start, k);
    if AllStored(s.addons, start, read) {
      SameGenerationSameSpec(r, s.addons, start, read);
    }
    assert Evidence(s, e, start, k);
  }

  lemma ClusterReady(cfg: M.Config, s: M.State)
    requires ClusterReached(cfg, s)
    ensures ReadyWrites.Inv(s)
  {
    var steps :| M.Run(cfg, steps) == s;
    ReadyWrites.RunKeeps(cfg, steps);
  }

  lemma ClaimSound(c: C.State, i: nat)
    requires C.InRange(c) && ClaimReached(c) && i < |c.log| && V.ReadReady(c.log[i])
    ensures S.RemoteInv(c.remote) && exists k: nat :: S.ReadyEvidence(c.remote, c.log[i], k)
  {
    var steps :| C.Run(steps) == c;
    S.RunKeeps(steps);
    S.PublishedWasReconciled(steps, i);
  }

  /** In every joint run, Ready after a successful remote read has such evidence. */
  lemma ReadyWasVerified(cfg: M.Config, steps: seq<JointStep>, i: nat)
    requires i < |Run(cfg, steps).claim.log| && V.ReadReady(Run(cfg, steps).claim.log[i])
    ensures exists start: nat, k: nat ::
              Evidence(Run(cfg, steps).cluster, Run(cfg, steps).claim.log[i], start, k)
  {
    var j := Run(cfg, steps);
    JointRunCoherent(cfg, steps);
    EvidenceFor(cfg, j, i);
  }

  lemma EvidenceFor(cfg: M.Config, j: Joint, i: nat)
    requires JointInRange(j) && Coherent(cfg, j) && i < |j.claim.log| && V.ReadReady(j.claim.log[i])
    ensures exists start: nat, k: nat :: Evidence(j.cluster, j.claim.log[i], start, k)
  {
    ClaimSound(j.claim, i);
    ClusterReady(cfg, j.cluster);
    var k: nat :| S.ReadyEvidence(j.claim.remote, j.claim.log[i], k);
    SeenVersionsAt(j.cluster.addons, j.claim.log[i].read.value);
    ReadIsReady(j.cluster, j.claim.log[i], j.claim.remote);
  }

  lemma ClaimTraced(c: C.State, n: nat)
    requires C.InRange(c) && ClaimReached(c) && n < |c.claims| && c.claims[n].Some?
    requires c.claims[n].value.status.version != ""
    ensures c.origins[n].version.Some?
    ensures exists source: nat ::
              V.PublishedBy(c.log, c.claims[n].value.status.version, c.origins[n].version.value, source)
  {
    var steps :| C.Run(steps) == c;
    V.StoredVersionTraced(steps, n);
  }

  /** So does every claim version that is ever stored: about the spec rendered by the synchronisation that
      published it, or, if that could not read, by the one whose Ready its snapshot carried. */
  lemma StoredVersionWasVerified(cfg: M.Config, steps: seq<JointStep>, n: nat)
    requires var c := Run(cfg, steps).claim;
             n < |c.claims| && c.claims[n].Some? && c.claims[n].value.status.version != ""
    ensures var j := Run(cfg, steps);
            var origin := j.claim.origins[n].version;
            && origin.Some?
            && exists source: nat ::
                 && V.PublishedBy(j.claim.log, j.claim.claims[n].value.status.version, origin.value, source)
                 && exists start: nat, k: nat :: Evidence(j.cluster, j.claim.log[source], start, k)
  {
    var j := Run(cfg, steps);
    JointRunCoherent(cfg, steps);
    ClaimTraced(j.claim, n);
    var i, version := j.claim.origins[n].version.value, j.claim.claims[n].value.status.version;
    var source: nat :| V.PublishedBy(j.claim.log, version, i, source);
    EvidenceFor(cfg, j, source);
  }
}
