/** Exactly which status writes of the AddonClaim controller empty a published version, when users keep the
    annotation and a version: the comment in its code promises that none does. */
module ClaimLatches {
  import opened Wrappers
  import opened Adjacent
  import opened ClaimModel
  import opened ClaimSafety

  ghost predicate KeepsVersions(steps: seq<Step>) {
    forall i | 0 <= i < |steps| :: KeepsVersion(steps[i])
  }

  predicate ReadyHasVersion(st: ClaimStatus) {
    st.ready == Some(true) ==> st.version != ""
  }

  /** The draft has lost the version iff its snapshot had none and the reconcile did not find Ready. */
  predicate EmptyDraft(d: Draft) {
    d.status.version == "" <==> d.snap.status.version == "" && d.status.ready != Some(true)
  }

  predicate ClaimOk(c: Option<Claim>) {
    c.Some? ==> Versioned(c) && ReadyHasVersion(c.value.status)
  }

  ghost predicate Inv(s: State) {
    && (forall i | 0 <= i < |s.claims| :: ClaimOk(s.claims[i]))
    && (!s.worker.Idle? ==> ClaimOk(Some(s.worker.d.snap)) && EmptyDraft(s.worker.d))
    && Untouched(s.worker)
  }

  lemma ClaimWriteKeeps(s: State, step: Step)
    requires InRange(s) && Inv(s) && KeepsVersion(step)
    requires step.CreateClaim? || step.EditClaim? || step.DeleteClaim? || step.PutStatus?
    ensures Inv(Apply(s, step))
  {
    var r := Apply(s, step);
    if r.claims != s.claims {
      var c := r.claims[|s.claims|];
      assert r.claims == s.claims + [c];
      assert ClaimOk(s.claims[|s.claims| - 1]);
      assert ClaimOk(c);
    }
  }

  lemma LocalKeeps(s: State, step: Step)
    requires InRange(s) && Inv(s)
    requires !step.CreateClaim? && !step.EditClaim? && !step.DeleteClaim? && !step.PutStatus?
    ensures Inv(Apply(s, step))
  {
  }

  lemma {:induction false} RunKeeps(steps: seq<Step>)
    requires KeepsVersions(steps)
    ensures Inv(Run(steps))
  {
    if steps != [] {
      var s, step := Run(steps[..|steps| - 1]), steps[|steps| - 1];
      RunKeeps(steps[..|steps| - 1]);
      if step.CreateClaim? || step.EditClaim? || step.DeleteClaim? || step.PutStatus? {
        ClaimWriteKeeps(s, step);
      } else {
        LocalKeeps(s, step);
      }
    }
  }

  /** The write at hand empties the stored version: the snapshot had not seen it, and this reconcile has not
      found the remote Addon Ready. */
  predicate Empties(s: State, step: Step)
    requires InRange(s)
  {
    && step == PutStatus && s.worker.StatusPut? && s.worker.at == |s.claims| - 1 && Published(LastClaim(s))
    && s.worker.d.snap.status.version == "" && s.worker.d.status.ready != Some(true)
  }

  /** In every such run the status write at hand empties the published version iff that is so. */
  lemma WriteEmptiesIff(steps: seq<Step>)
    requires KeepsVersions(steps)
    requires var s := Run(steps); s.worker.StatusPut? && s.worker.at == |s.claims| - 1 && LastClaim(s).Some?
    ensures
      var s := Run(steps);
      var d, r := s.worker.d, DoPutStatus(s, s.worker.d, s.worker.at);
      Published(LastClaim(s)) && !Published(LastClaim(r)) <==>
      Published(LastClaim(s)) && d.snap.status.version == "" && d.status.ready != Some(true)
  {
    RunKeeps(steps);
  }

  predicate Keeps(a: Option<Claim>, b: Option<Claim>) {
    Published(a) && b.Some? ==> Published(b)
  }

  /** No step of the run is such a write. */
  ghost predicate NeverEmpties(steps: seq<Step>) {
    steps == []
    || (var front := steps[..|steps| - 1]; NeverEmpties(front) && !Empties(Run(front), steps[|steps| - 1]))
  }

  lemma StepKeepsIff(s: State, step: Step)
    requires InRange(s) && Inv(s)
    ensures
      var r := Apply(s, step);
      if r.claims == s.claims then !Empties(s, step)
      else |r.claims| == |s.claims| + 1 && (!Keeps(LastClaim(s), r.claims[|s.claims|]) <==> Empties(s, step))
  {
  }

  lemma OneStepIff(s: State, step: Step)
    requires InRange(s) && Inv(s)
    ensures Always(Apply(s, step).claims, Keeps) <==> Always(s.claims, Keeps) && !Empties(s, step)
  {
    StepKeepsIff(s, step);
    AlwaysSplit(s.claims, Apply(s, step).claims, Keeps);
  }

  /** Over a whole such run a published version is kept, from each claim version to the next, iff no step is
      such a write. */
  lemma {:induction false} VersionLatchesIff(steps: seq<Step>)
    requires KeepsVersions(steps)
    ensures Always(Run(steps).claims, Keeps) <==> NeverEmpties(steps)
  {
    if steps != [] {
      var front, last := steps[..|steps| - 1], steps[|steps| - 1];
      VersionLatchesIff(front);
      RunKeeps(front);
      OneStepIff(Run(front), last);
    }
  }
}
