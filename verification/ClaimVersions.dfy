/** Where a stored AddonClaim version comes from: the synchronisation that published it, and the remote
    reconcile that ended Ready behind the Ready it was published on. */
module ClaimVersions {
  import opened Wrappers
  import opened ClaimModel
  import opened ClaimSafety

  type Log = seq<Synced>

  predicate Publishes(e: Synced, version: string) {
    e.snap.external && e.status.ready == Some(true) && e.snap.version == version == e.status.version
  }

  predicate ReadReady(e: Synced) {
    e.read.Some? && e.status.ready == Some(true)
  }

  /** The Ready is exactly what that synchronisation read. */
  predicate ReadyFrom(log: Log, at: Option<nat>, ready: Option<bool>) {
    match at
    case None => ready == None
    case Some(j) => j < |log| && log[j].read.Some? && log[j].status.ready == ready
  }

  /** The version is the one that synchronisation published. */
  predicate VersionFrom(log: Log, at: Option<nat>, version: string) {
    match at
    case None => version == ""
    case Some(j) => j < |log| && Publishes(log[j], version)
  }

  predicate Sourced(log: Log, st: ClaimStatus, origin: Origin) {
    ReadyFrom(log, origin.ready, st.ready) && VersionFrom(log, origin.version, st.version)
  }

  ghost predicate ClaimsSourced(s: State)
    requires InRange(s)
  {
    forall j | 0 <= j < |s.claims| && s.claims[j].Some? :: Sourced(s.log, s.claims[j].value.status, s.origins[j])
  }

  /** A synchronisation began with the status of its snapshot, and one that could not read kept its Ready. */
  predicate EventSourced(log: Log, e: Synced) {
    && Sourced(log, e.snap.status, e.held)
    && (e.read.None? ==> e.status.ready == e.snap.status.ready)
  }

  ghost predicate LogSourced(log: Log) {
    forall i | 0 <= i < |log| :: EventSourced(log[..i], log[i])
  }

  ghost predicate Inv(s: State)
    requires InRange(s)
  {
    && ClaimsSourced(s) && LogSourced(s.log) && Untouched(s.worker)
    && (!s.worker.Idle? ==> Sourced(s.log, s.worker.d.status, s.worker.d.origin))
  }

  lemma SourcedGrows(log: Log, more: Log, st: ClaimStatus, origin: Origin)
    requires log <= more && Sourced(log, st, origin)
    ensures Sourced(more, st, origin)
  {
  }

  lemma LogExtends(log: Log, e: Synced)
    requires LogSourced(log) && EventSourced(log, e)
    ensures LogSourced(log + [e])
  {
    var more := log + [e];
    forall i | 0 <= i < |more|
      ensures EventSourced(more[..i], more[i])
    {
      assert more[..i] == log[..i];
      assert i == |log| ==> log[..i] == log;
    }
  }

  lemma ReadKeeps(s: State, ok: bool, conditions: string)
    requires InRange(s) && Inv(s) && s.worker.ReadBack?
    ensures Inv(DoReadRemote(s, s.worker.d, s.worker.spec, ok, conditions))
  {
    var d := s.worker.d;
    var r := DoReadRemote(s, d, s.worker.spec, ok, conditions);
    var e := r.log[|s.log|];
    assert r.log == s.log + [e];
    LogExtends(s.log, e);
    SourcedGrows(s.log, r.log, d.status, d.origin);
    forall j | 0 <= j < |r.claims| && r.claims[j].Some?
      ensures Sourced(r.log, r.claims[j].value.status, r.origins[j])
    {
      SourcedGrows(s.log, r.log, s.claims[j].value.status, s.origins[j]);
    }
  }

  lemma ClaimWriteKeeps(s: State, step: Step)
    requires InRange(s) && Inv(s)
    requires step.CreateClaim? || step.EditClaim? || step.DeleteClaim? || step.PutStatus?
    ensures Inv(Apply(s, step))
  {
    var r := Apply(s, step);
    if r.claims != s.claims {
      var n := |s.claims|;
      assert r.claims == s.claims + [r.claims[n]] && r.origins == s.origins + [r.origins[n]];
      assert r.claims[n].Some? ==> Sourced(s.log, r.claims[n].value.status, r.origins[n]);
    }
  }

  lemma LocalKeeps(s: State, step: Step)
    requires InRange(s) && Inv(s) && !step.ReadRemote?
    requires !step.CreateClaim? && !step.EditClaim? && !step.DeleteClaim? && !step.PutStatus?
    ensures Inv(Apply(s, step))
  {
  }

  lemma StepKeeps(s: State, step: Step)
    requires InRange(s) && Inv(s)
    ensures Inv(Apply(s, step))
  {
    if step.CreateClaim? || step.EditClaim? || step.DeleteClaim? || step.PutStatus? {
      ClaimWriteKeeps(s, step);
    } else if !step.ReadRemote? {
      LocalKeeps(s, step);
    } else if s.worker.ReadBack? {
      ReadKeeps(s, step.ok, step.conditions);
    }
  }

  lemma {:induction false} RunKeeps(steps: seq<Step>)
    ensures Inv(Run(steps))
  {
    if steps != [] {
      RunKeeps(steps[..|steps| - 1]);
      StepKeeps(Run(steps[..|steps| - 1]), steps[|steps| - 1]);
    }
  }

  /** Synchronisation i published the version. The Ready it did so on was read by the synchronisation source:
      by i itself, or, if i could not read, by the one whose Ready the snapshot of i carried. */
  predicate PublishedBy(log: Log, version: string, i: nat, source: nat) {
    && source <= i < |log| && Publishes(log[i], version) && ReadReady(log[source])
    && (if log[i].read.Some? then source == i
        else log[i].held.ready == Some(source) && log[i].snap.status.ready == Some(true))
  }

  /** In every run each stored version that is not empty was published, as the version of the claim it
      read, by the synchronisation recorded for it, which held Ready; and that very Ready was read with the
      evidence of a remote reconcile that ended Ready at the generation read. */
  lemma StoredVersionTraced(steps: seq<Step>, j: nat)
    requires j < |Run(steps).claims| && Run(steps).claims[j].Some?
    requires Run(steps).claims[j].value.status.version != ""
    ensures var s := Run(steps);
            && s.origins[j].version.Some?
            && exists source: nat ::
                 && PublishedBy(s.log, s.claims[j].value.status.version, s.origins[j].version.value, source)
                 && exists k: nat :: ReadyEvidence(s.remote, s.log[source], k)
  {
    var s := Run(steps);
    RunKeeps(steps);
    var source := Publication(s, s.claims[j].value.status, s.origins[j]);
    PublishedWasReconciled(steps, source);
  }

  lemma Publication(s: State, st: ClaimStatus, origin: Origin) returns (source: nat)
    requires InRange(s) && Inv(s) && Sourced(s.log, st, origin) && st.version != ""
    ensures PublishedBy(s.log, st.version, origin.version.value, source)
  {
    var i := origin.version.value;
    if s.log[i].read.Some? {
      source := i;
    } else {
      assert EventSourced(s.log[..i], s.log[i]);
      source := s.log[i].held.ready.value;
    }
  }
}
