/** What a published AddonClaim version promises, and when it can be emptied. */
module ClaimSafety {
  import opened Wrappers
  import opened ClaimModel
  import A = Applications

  // ---- Remote history ----

  ghost predicate AllStored(vs: RemoteVersions, i: nat, j: nat)
    requires i <= j < |vs|
  {
    forall k | i <= k <= j :: vs[k].Some?
  }

  predicate GenerationStep(a: Option<RemoteAddon>, b: Option<RemoteAddon>) {
    a.Some? && b.Some? ==>
      a.value.generation <= b.value.generation
      && (a.value.generation == b.value.generation ==> a.value.spec == b.value.spec)
  }

  ghost predicate GenerationsCount(vs: RemoteVersions) {
    forall j | 0 <= j && j + 1 < |vs| :: GenerationStep(vs[j], vs[j + 1])
  }

  /** Generations count the specs: within one object, equal generations mean equal specs. */
  lemma {:induction false} GenerationNamesSpec(vs: RemoteVersions, i: nat, j: nat)
    requires GenerationsCount(vs) && i <= j < |vs| && AllStored(vs, i, j)
    ensures GenerationStep(vs[i], vs[j])
    decreases j - i
  {
    if i < j {
      GenerationNamesSpec(vs, i, j - 1);
      assert GenerationStep(vs[j - 1], vs[j - 1 + 1]);
    }
  }

  /** The conclusion started from this object at this generation. */
  ghost predicate ConcludedAt(r: Remote, c: Conclusion, version: nat, a: RemoteAddon) {
    && c.start <= version < |r.versions| && r.versions[c.start].Some?
    && r.versions[c.start].value.generation == a.observedGeneration
    && c.ready == a.ready
  }

  /** A status is untouched, or some conclusion wrote both its parts. */
  ghost predicate StatusTraced(r: Remote, version: nat, a: RemoteAddon) {
    || a.observedGeneration == 0
    || exists k :: 0 <= k < |r.concluded| && ConcludedAt(r, r.concluded[k], version, a)
  }

  ghost predicate RemoteInv(r: Remote)
    requires RemoteInRange(r)
  {
    && GenerationsCount(r.versions)
    && (forall i | 0 <= i < |r.versions| && r.versions[i].Some? ::
          r.versions[i].value.generation > 0 && StatusTraced(r, i, r.versions[i].value))
    && (r.work.Working? ==> r.work.start < |r.versions| && r.versions[r.work.start] == Some(r.work.snap))
  }

  lemma TraceGrows(r: Remote, q: Remote, version: nat, a: RemoteAddon, later: nat)
    requires r.versions <= q.versions && r.concluded <= q.concluded && StatusTraced(r, version, a)
    requires version <= later < |q.versions|
    ensures StatusTraced(q, later, a)
  {
    if a.observedGeneration != 0 {
      var k :| 0 <= k < |r.concluded| && ConcludedAt(r, r.concluded[k], version, a);
      assert q.concluded[k] == r.concluded[k] && q.versions[r.concluded[k].start] == r.versions[r.concluded[k].start];
      assert ConcludedAt(q, q.concluded[k], later, a);
    }
  }

  /** Appending one version that continues the generations and has a traced status. */
  lemma AppendKeeps(r: Remote, q: Remote)
    requires RemoteInRange(r) && RemoteInv(r) && RemoteInRange(q)
    requires r.versions <= q.versions && |q.versions| == |r.versions| + 1 && r.concluded <= q.concluded
    requires var v := q.versions[|r.versions|];
             && GenerationStep(LastRemote(r), v)
             && (v.Some? ==> v.value.generation > 0 && StatusTraced(q, |r.versions|, v.value))
    requires q.work.Working? ==> q.work == r.work
    ensures RemoteInv(q)
  {
    var n := |r.versions|;
    forall j | 0 <= j && j + 1 < |q.versions|
      ensures GenerationStep(q.versions[j], q.versions[j + 1])
    {
      if j + 1 < n {
        assert GenerationStep(r.versions[j], r.versions[j + 1]);
      }
    }
    forall i | 0 <= i < n && q.versions[i].Some?
      ensures q.versions[i].value.generation > 0 && StatusTraced(q, i, q.versions[i].value)
    {
      TraceGrows(r, q, i, r.versions[i].value, i);
    }
  }

  lemma RemoteStepKeeps(r: Remote, step: RemoteStep)
    requires RemoteInRange(r) && RemoteInv(r)
    ensures RemoteInv(StepRemote(r, step))
  {
    var q := StepRemote(r, step);
    var n := |r.versions|;
    if |q.versions| > n {
      if step.Conclude? {
        assert q.concluded[|r.concluded|] == Conclusion(r.work.start, step.ready);
        assert ConcludedAt(q, q.concluded[|r.concluded|], n, q.versions[n].value);
      } else if step.Touch? || step.Mark? {
        TraceGrows(r, q, n - 1, LastRemote(r).value, n);
      }
      AppendKeeps(r, q);
    }
  }

  lemma PushKeeps(r: Remote, spec: A.AddonSpec)
    requires RemoteInRange(r) && RemoteInv(r)
    ensures RemoteInv(Push(r, spec))
  {
    var q := Push(r, spec);
    if LastRemote(r).Some? {
      TraceGrows(r, q, |r.versions| - 1, LastRemote(r).value, |r.versions|);
    }
    AppendKeeps(r, q);
  }

  // ---- What a successful read back proves ----

  /** The remote read found the rendered spec at this generation, and its readiness was concluded by a
      reconcile of this generation; of this very spec, unless the object was replaced in between. */
  ghost predicate ReadyEvidence(remote: Remote, e: Synced, k: nat)
    requires e.read.Some?
  {
    var r := e.read.value;
    && k < |remote.concluded| && remote.concluded[k].ready
    && var start := remote.concluded[k].start;
       && start <= r < |remote.versions| && remote.versions[start].Some? && remote.versions[r].Some?
       && remote.versions[r].value.spec == e.rendered && ReadyAtCurrentGeneration(remote.versions[r].value)
       && remote.versions[start].value.generation == remote.versions[r].value.generation
       && (AllStored(remote.versions, start, r) ==> remote.versions[start].value.spec == e.rendered)
  }

  ghost predicate SyncSound(remote: Remote, e: Synced) {
    && (e.read.Some? && e.status.ready == Some(true) ==> exists k: nat :: ReadyEvidence(remote, e, k))
    && (e.snap.external && e.status.ready == Some(true) ==> e.status.version == e.snap.version)
  }

  ghost predicate Inv(s: State)
    requires InRange(s)
  {
    && RemoteInv(s.remote)
    && (s.worker.ReadBack? && LastRemote(s.remote).Some? ==> LastRemote(s.remote).value.spec == s.worker.spec)
    && (forall i | 0 <= i < |s.log| :: SyncSound(s.remote, s.log[i]))
  }

  lemma EvidenceGrows(r: Remote, q: Remote, e: Synced)
    requires r.versions <= q.versions && r.concluded <= q.concluded && SyncSound(r, e)
    ensures SyncSound(q, e)
  {
    if e.read.Some? && e.status.ready == Some(true) {
      var k: nat :| ReadyEvidence(r, e, k);
      var start := r.concluded[k].start;
      assert q.versions[start] == r.versions[start] && q.versions[e.read.value] == r.versions[e.read.value];
      assert AllStored(q.versions, start, e.read.value) ==> AllStored(r.versions, start, e.read.value);
      assert ReadyEvidence(q, e, k);
    }
  }

  lemma LogGrows(s: State, r: State)
    requires forall i | 0 <= i < |s.log| :: SyncSound(s.remote, s.log[i])
    requires s.log == r.log && s.remote.versions <= r.remote.versions && s.remote.concluded <= r.remote.concluded
    ensures forall i | 0 <= i < |r.log| :: SyncSound(r.remote, r.log[i])
  {
    forall i | 0 <= i < |r.log|
      ensures SyncSound(r.remote, r.log[i])
    {
      EvidenceGrows(s.remote, r.remote, s.log[i]);
    }
  }

  lemma ReadBackKeeps(s: State, ok: bool, conditions: string)
    requires InRange(s) && Inv(s) && s.worker.ReadBack?
    ensures Inv(DoReadRemote(s, s.worker.d, s.worker.spec, ok, conditions))
  {
    var r := DoReadRemote(s, s.worker.d, s.worker.spec, ok, conditions);
    var e := r.log[|s.log|];
    var n := |s.remote.versions| - 1;
    if e.read.Some? && e.status.ready == Some(true) {
      var a := LastRemote(s.remote).value;
      assert StatusTraced(s.remote, n, a);
      var k :| 0 <= k < |s.remote.concluded| && ConcludedAt(s.remote, s.remote.concluded[k], n, a);
      if AllStored(s.remote.versions, s.remote.concluded[k].start, n) {
        GenerationNamesSpec(s.remote.versions, s.remote.concluded[k].start, n);
      }
      assert ReadyEvidence(s.remote, e, k);
    }
    assert SyncSound(r.remote, e);
  }

  lemma RemoteMoveKeeps(s: State, step: Step)
    requires InRange(s) && Inv(s) && step.ByRemote?
    ensures Inv(Apply(s, step))
  {
    RemoteStepKeeps(s.remote, step.remoteStep);
    LogGrows(s, Apply(s, step));
  }

  lemma WriteKeeps(s: State, ok: bool, conditions: string)
    requires InRange(s) && Inv(s) && s.worker.PutRemote?
    ensures Inv(DoWriteRemote(s, s.worker.d, s.worker.spec, s.worker.at, ok, conditions))
  {
    PushKeeps(s.remote, s.worker.spec);
    LogGrows(s, DoWriteRemote(s, s.worker.d, s.worker.spec, s.worker.at, ok, conditions));
  }

  lemma LocalKeeps(s: State, step: Step)
    requires InRange(s) && Inv(s) && !step.ByRemote? && !step.WriteRemote? && !step.ReadRemote?
    ensures Inv(Apply(s, step))
  {
  }

  lemma StepKeeps(s: State, step: Step)
    requires InRange(s) && Inv(s)
    ensures Inv(Apply(s, step))
  {
    match step
    case ByRemote(_) => RemoteMoveKeeps(s, step);
    case WriteRemote(ok, conditions) => if s.worker.PutRemote? { WriteKeeps(s, ok, conditions); }
    case ReadRemote(ok, conditions) => if s.worker.ReadBack? { ReadBackKeeps(s, ok, conditions); }
    case _ => LocalKeeps(s, step);
  }

  lemma {:induction false} RunKeeps(steps: seq<Step>)
    ensures Inv(Run(steps))
  {
    if steps != [] {
      RunKeeps(steps[..|steps| - 1]);
      StepKeeps(Run(steps[..|steps| - 1]), steps[|steps| - 1]);
    }
  }

  /** In every run, a claim that publishes its version after a successful remote read has a reconcile of
      exactly the read generation behind it that ended Ready, and the read spec is the rendered one. */
  lemma PublishedWasReconciled(steps: seq<Step>, i: nat)
    requires i < |Run(steps).log|
    requires Run(steps).log[i].read.Some? && Run(steps).log[i].status.ready == Some(true)
    ensures exists k: nat :: ReadyEvidence(Run(steps).remote, Run(steps).log[i], k)
    ensures Run(steps).log[i].snap.external ==> Run(steps).log[i].status.version == Run(steps).log[i].snap.version
  {
    RunKeeps(steps);
    assert SyncSound(Run(steps).remote, Run(steps).log[i]);
  }

  // ---- When a published version survives ----

  /** A synchronisation leaves no version in exactly these cases, each visible before it starts but Ready:
      no annotation, ready with nothing to publish, or not ready and nothing published in the snapshot. */
  ghost predicate EmptyExplained(e: Synced) {
    e.status.version == "" <==>
    !e.snap.external || (if e.status.ready == Some(true) then e.snap.version == "" else e.snap.status.version == "")
  }

  /** Without a successful read, Ready is the snapshot's. */
  predicate ReadyExplained(e: Synced) {
    e.read.None? ==> e.status.ready == e.snap.status.ready
  }

  predicate Untouched(w: Worker) {
    w.Render? || w.GetRemote? || w.PutRemote? || w.ReadBack? ==> w.d.status == w.d.snap.status
  }

  lemma VersionEmptyIff(steps: seq<Step>, i: nat)
    requires i < |Run(steps).log|
    ensures EmptyExplained(Run(steps).log[i]) && ReadyExplained(Run(steps).log[i])
  {
    SyncInvariant(steps);
  }

  lemma {:induction false} SyncInvariant(steps: seq<Step>)
    ensures Untouched(Run(steps).worker)
    ensures forall i | 0 <= i < |Run(steps).log| ::
              EmptyExplained(Run(steps).log[i]) && ReadyExplained(Run(steps).log[i])
  {
    if steps != [] {
      SyncInvariant(steps[..|steps| - 1]);
      SyncStepExplained(Run(steps[..|steps| - 1]), steps[|steps| - 1]);
    }
  }

  lemma SyncStepExplained(s: State, step: Step)
    requires InRange(s) && Untouched(s.worker)
    requires forall i | 0 <= i < |s.log| :: EmptyExplained(s.log[i]) && ReadyExplained(s.log[i])
    ensures var r := Apply(s, step);
            Untouched(r.worker) && forall i | 0 <= i < |r.log| :: EmptyExplained(r.log[i]) && ReadyExplained(r.log[i])
  {
    var r := Apply(s, step);
    if step.ReadRemote? && s.worker.ReadBack? {
      assert EmptyExplained(r.log[|s.log|]) && ReadyExplained(r.log[|s.log|]);
    } else {
      assert r.log == s.log;
    }
  }

  /** Users keep the annotation and a version. */
  predicate KeepsVersion(step: Step) {
    && (step.CreateClaim? ==> step.external && step.version != "")
    && (step.EditClaim? ==> step.external && step.version != "")
  }

  /** A reconcile starts from a cache that shows the controller's own last write. */
  predicate StartsFresh(s: State, step: Step) {
    step.Start? ==> s.lastWrite <= s.view
  }

  ghost predicate Careful(steps: seq<Step>) {
    forall i | 0 <= i < |steps| :: KeepsVersion(steps[i]) && StartsFresh(Run(steps[..i]), steps[i])
  }

  predicate Published(c: Option<Claim>) {
    c.Some? && c.value.status.version != ""
  }

  predicate Versioned(c: Option<Claim>) {
    c.Some? ==> c.value.external && c.value.version != ""
  }

  ghost predicate VersionInv(s: State)
    requires InRange(s)
  {
    && (forall i | 0 <= i < |s.claims| :: Versioned(s.claims[i]))
    && (forall i | s.lastWrite <= i < |s.claims| :: Published(LastClaim(s)) ==> Published(s.claims[i]))
    && (!s.worker.Idle? ==>
          && s.worker.d.snap.external && s.worker.d.snap.version != ""
          && (Published(LastClaim(s)) ==> s.worker.d.status.version != ""))
    && (forall j | 0 <= j && j + 1 < |s.claims| :: KeptNext(s.claims, j))
  }

  predicate KeptNext(claims: seq<Option<Claim>>, j: nat)
    requires j + 1 < |claims|
  {
    Published(claims[j]) && claims[j + 1].Some? ==> Published(claims[j + 1])
  }

  /** A write of the claim: a version by users, or a draft, that loses no published version. */
  lemma ClaimAppended(s: State, r: State)
    requires InRange(s) && VersionInv(s) && InRange(r) && s.claims <= r.claims && |r.claims| == |s.claims| + 1
    requires Versioned(LastClaim(r)) && KeptNext(r.claims, |s.claims| - 1)
    requires
      if r.worker.Idle? && r.lastWrite == |s.claims| then true
      else r.worker == s.worker && r.lastWrite == s.lastWrite && (Published(LastClaim(r)) ==> Published(LastClaim(s)))
    ensures VersionInv(r)
  {
    forall j | 0 <= j && j + 1 < |r.claims|
      ensures KeptNext(r.claims, j)
    {
      if j + 1 < |s.claims| {
        assert KeptNext(s.claims, j);
      }
    }
  }

  lemma VersionWriteKeeps(s: State, step: Step)
    requires InRange(s) && VersionInv(s) && KeepsVersion(step)
    requires step.CreateClaim? || step.EditClaim? || step.DeleteClaim? || step.PutStatus?
    ensures VersionInv(Apply(s, step))
  {
    var r := Apply(s, step);
    if |r.claims| > |s.claims| {
      ClaimAppended(s, r);
    }
  }

  lemma VersionLocalKeeps(s: State, step: Step)
    requires InRange(s) && VersionInv(s) && StartsFresh(s, step)
    requires !step.CreateClaim? && !step.EditClaim? && !step.DeleteClaim? && !step.PutStatus?
    ensures VersionInv(Apply(s, step))
  {
  }

  lemma VersionStepKeeps(s: State, step: Step)
    requires InRange(s) && VersionInv(s) && KeepsVersion(step) && StartsFresh(s, step)
    ensures VersionInv(Apply(s, step))
  {
    if step.CreateClaim? || step.EditClaim? || step.DeleteClaim? || step.PutStatus? {
      VersionWriteKeeps(s, step);
    } else {
      VersionLocalKeeps(s, step);
    }
  }

  lemma {:induction false} VersionRunKeeps(steps: seq<Step>)
    requires Careful(steps)
    ensures VersionInv(Run(steps))
  {
    if steps != [] {
      var n := |steps| - 1;
      forall i | 0 <= i < n
        ensures KeepsVersion(steps[..n][i]) && StartsFresh(Run(steps[..n][..i]), steps[..n][i])
      {
        assert steps[..n][..i] == steps[..i];
      }
      VersionRunKeeps(steps[..n]);
      VersionStepKeeps(Run(steps[..n]), steps[n]);
    }
  }

  ghost predicate ClaimStored(claims: seq<Option<Claim>>, i: nat, j: nat)
    requires i <= j < |claims|
  {
    forall k | i <= k <= j :: claims[k].Some?
  }

  lemma {:induction false} KeptOnwards(claims: seq<Option<Claim>>, i: nat, j: nat)
    requires i <= j < |claims| && ClaimStored(claims, i, j) && Published(claims[i])
    requires forall k | 0 <= k && k + 1 < |claims| :: KeptNext(claims, k)
    ensures Published(claims[j])
    decreases j - i
  {
    if i < j {
      KeptOnwards(claims, i, j - 1);
      assert KeptNext(claims, j - 1);
    }
  }

  /** With the annotation kept, a version always set, and reconciles that see their own last write, a
      published version is never emptied while the claim exists. */
  lemma VersionNeverEmptied(steps: seq<Step>, i: nat, j: nat)
    requires Careful(steps) && i <= j < |Run(steps).claims| && ClaimStored(Run(steps).claims, i, j)
    requires Published(Run(steps).claims[i])
    ensures Published(Run(steps).claims[j])
  {
    VersionRunKeeps(steps);
    KeptOnwards(Run(steps).claims, i, j);
  }
}
