/** Which claims are worked on at all, and how a reconcile of one ends, in every run: a claim that is paused or
    being deleted never reaches the remote cluster, a paused one reports nothing but that, and only changed
    statuses are written (internal/controller/addonclaim/controller.go, Reconcile and updateStatus). */
module ClaimExits {
  import opened ClaimModel

  predicate Working(w: Worker) {
    w.Render? || w.GetRemote? || w.PutRemote? || w.ReadBack?
  }

  predicate Closed(w: Worker) {
    w.StatusGet? || w.StatusPut?
  }

  /** The status is that of the claim as read, but for the generation and the conditions that say it is paused. */
  predicate OnlyPaused(d: Draft) {
    d.status == d.snap.status.(observedGeneration := d.snap.generation, conditions := "Paused")
  }

  predicate Respects(w: Worker) {
    && (Working(w) ==> !w.d.snap.deleting && !w.d.snap.paused)
    && (Closed(w) ==>
          && !w.d.snap.deleting && w.d.status != w.d.snap.status
          && w.d.status.observedGeneration == w.d.snap.generation
          && (w.d.snap.paused ==> OnlyPaused(w.d)))
  }

  ghost predicate Inv(s: State) {
    && Respects(s.worker)
    && forall i | 0 <= i < |s.log| :: !s.log[i].snap.deleting && !s.log[i].snap.paused
  }

  lemma StepKeeps(s: State, step: Step)
    requires InRange(s) && Inv(s)
    ensures Inv(Apply(s, step))
  {
  }

  lemma {:induction false} RunKeeps(steps: seq<Step>)
    ensures Inv(Run(steps))
  {
    if steps != [] {
      RunKeeps(steps[..|steps| - 1]);
      StepKeeps(Run(steps[..|steps| - 1]), steps[|steps| - 1]);
    }
  }

  /** In every run a claim status about to be written belongs to a claim that was not being deleted, differs from
      the one read, observes its generation, and says no more than Paused of a paused claim. */
  lemma OnlyChangesAreWritten(steps: seq<Step>)
    requires Run(steps).worker.StatusPut?
    ensures var d := Run(steps).worker.d;
            && !d.snap.deleting && d.status != d.snap.status && d.status.observedGeneration == d.snap.generation
            && (d.snap.paused ==> OnlyPaused(d))
  {
    RunKeeps(steps);
  }

  /** Whatever the claim controller does in the remote cluster, it does for a claim that was neither paused nor
      being deleted when its reconcile began. */
  lemma RemoteWritesAreUnpaused(steps: seq<Step>, n: nat)
    requires n < |steps| && !steps[n].ByRemote?
    requires Apply(Run(steps[..n]), steps[n]).remote != Run(steps[..n]).remote
    ensures var w := Run(steps[..n]).worker;
            w.PutRemote? && !w.d.snap.paused && !w.d.snap.deleting
  {
    RunKeeps(steps[..n]);
  }

  /** A reconcile under way goes on to write a status exactly when it cannot render or connect, cannot read or
      write the remote Addon, or has read it back; conditions it had not reported before make it a change. */
  lemma EndsIff(s: State, step: Step)
    requires InRange(s) && Working(s.worker)
    requires step.RenderAndConnect? || step.FetchRemote? || step.WriteRemote? || step.ReadRemote?
    requires step.conditions != s.worker.d.snap.status.conditions
    ensures var w := s.worker;
            Apply(s, step).worker.StatusGet? <==>
            || (w.Render? && step.RenderAndConnect? && step.rendered.None?)
            || (w.GetRemote? && step.FetchRemote? && !step.ok)
            || (w.PutRemote? && step.WriteRemote? && (!step.ok || w.at != |s.remote.versions| - 1))
            || (w.ReadBack? && step.ReadRemote?)
  {
  }
}
