/** Reachable states in which the AddonClaim controller falls short of what its comments promise: the
    conditions of the theorems in module ClaimSafety cannot be dropped. */
module ClaimLimits {
  import opened Wrappers
  import opened ClaimModel
  import A = Applications

  ghost predicate EndsRun(s: State) {
    exists steps :: Run(steps) == s
  }

  /** A set of states that no step leaves: in the end, the reachable ones. */
  datatype World = World(inside: State -> bool)

  ghost predicate Closed(w: World) {
    forall s, step | InRange(s) && w.inside(s) :: w.inside(Apply(s, step))
  }

  ghost predicate Reachable(w: World, s: State) {
    Closed(w) && w.inside(s)
  }

  ghost function Everything(): World {
    World(s => EndsRun(s))
  }

  lemma EverythingClosed()
    ensures Reachable(Everything(), INIT)
  {
    var w := Everything();
    forall s, step | InRange(s) && w.inside(s)
      ensures w.inside(Apply(s, step))
    {
      var steps :| Run(steps) == s;
      assert (steps + [step])[..|steps|] == steps;
      assert Run(steps + [step]) == Apply(s, step);
    }
    assert Run([]) == INIT;
  }

  lemma Next(w: World, s: State, step: Step, r: State)
    requires InRange(s) && Reachable(w, s) && Apply(s, step) == r
    ensures InRange(r) && Reachable(w, r)
  {
  }

  /** The claim's controller, from its start up to its write of the remote Addon. */
  lemma ClaimRenders(w: World, s: State, spec: A.AddonSpec) returns (r: State)
    requires InRange(s) && Reachable(w, s) && s.worker.Idle? && s.claims[s.view].Some?
    requires !s.claims[s.view].value.deleting && !s.claims[s.view].value.paused
    ensures var claim := s.claims[s.view].value;
            r == s.(worker := GetRemote(DraftOf(s, claim), spec))
    ensures InRange(r) && Reachable(w, r)
  {
    var d := DraftOf(s, s.claims[s.view].value);
    Next(w, s, Start, s.(worker := Render(d)));
    r := s.(worker := GetRemote(d, spec));
    Next(w, s.(worker := Render(d)), RenderAndConnect(Some(spec), ""), r);
  }

  lemma ClaimPushes(w: World, s: State, spec: A.AddonSpec) returns (r: State)
    requires InRange(s) && Reachable(w, s) && s.worker.Idle? && s.claims[s.view].Some?
    requires !s.claims[s.view].value.deleting && !s.claims[s.view].value.paused
    ensures var claim := s.claims[s.view].value;
            r == s.(remote := Push(s.remote, spec), worker := ReadBack(DraftOf(s, claim), spec))
    ensures InRange(r) && Reachable(w, r)
  {
    var a := ClaimRenders(w, s, spec);
    var d := a.worker.d;
    var b := s.(worker := PutRemote(d, spec, |s.remote.versions| - 1));
    Next(w, a, FetchRemote(true, ""), b);
    r := s.(remote := Push(s.remote, spec), worker := ReadBack(d, spec));
    Next(w, b, WriteRemote(true, ""), r);
  }

  /** A remote controller takes up the last version. */
  lemma RemoteBegins(w: World, s: State) returns (r: State)
    requires InRange(s) && Reachable(w, s) && LastRemote(s.remote).Some? && s.remote.work.Resting?
    ensures var n := |s.remote.versions| - 1;
            r == s.(remote := s.remote.(view := n, work := Working(n, LastRemote(s.remote).value)))
    ensures InRange(r) && Reachable(w, r)
  {
    var n := |s.remote.versions| - 1;
    var a := s.(remote := s.remote.(view := n));
    Next(w, s, ByRemote(Look(n)), a);
    r := s.(remote := s.remote.(view := n, work := Working(n, LastRemote(s.remote).value)));
    Next(w, a, ByRemote(StartWork), r);
  }

  /** It ends Ready on the version now last. */
  lemma RemoteConcludes(w: World, s: State) returns (r: State)
    requires InRange(s) && Reachable(w, s) && LastRemote(s.remote).Some? && s.remote.work.Working?
    ensures
      var a := LastRemote(s.remote).value.(
                 observedGeneration := s.remote.work.snap.generation, ready := true, deployed := false);
      r == s.(remote := s.remote.(versions := s.remote.versions + [Some(a)], work := Resting,
                                  concluded := s.remote.concluded + [Conclusion(s.remote.work.start, true)]))
    ensures InRange(r) && Reachable(w, r)
  {
    r := Apply(s, ByRemote(Conclude(true, false)));
    Next(w, s, ByRemote(Conclude(true, false)), r);
  }

  /** The status a reconcile ends with, given whether its remote read succeeded. */
  function EndStatus(d: Draft, addon: RemoteAddon, ok: bool): ClaimStatus {
    WithExternal(d.snap, if ok then WithRemote(d.status, addon) else d.status)
    .(observedGeneration := d.snap.generation, conditions := "")
  }

  /** The rest of the claim's reconcile: read back and write the changed status. */
  lemma ClaimReads(w: World, s: State, ok: bool, st: ClaimStatus) returns (r: State)
    requires InRange(s) && Reachable(w, s) && s.worker.ReadBack? && LastRemote(s.remote).Some?
    requires st == EndStatus(s.worker.d, LastRemote(s.remote).value, ok) && st != s.worker.d.snap.status
    ensures r == s.(worker := r.worker, log := r.log)
    ensures r.worker.StatusGet? && r.worker.d == s.worker.d.(status := st, origin := r.worker.d.origin)
    ensures |r.log| == |s.log| + 1 && r.log[|s.log|].rendered == s.worker.spec
    ensures InRange(r) && Reachable(w, r)
  {
    r := Apply(s, ReadRemote(ok, ""));
    Next(w, s, ReadRemote(ok, ""), r);
  }

  lemma ClaimWrites(w: World, s: State) returns (r: State)
    requires InRange(s) && Reachable(w, s) && s.worker.StatusGet? && LastClaim(s).Some?
    ensures r == StoreClaim(s, Some(LastClaim(s).value.(status := s.worker.d.status)), s.worker.d.origin)
                 .(lastWrite := |s.claims|, worker := Idle)
    ensures InRange(r) && Reachable(w, r)
  {
    var n := |s.claims| - 1;
    var a := s.(worker := StatusPut(s.worker.d, n));
    Next(w, s, ReadForStatus(n), a);
    r := StoreClaim(s, Some(LastClaim(s).value.(status := s.worker.d.status)), s.worker.d.origin)
         .(lastWrite := |s.claims|, worker := Idle);
    Next(w, a, PutStatus, r);
  }

  lemma SameLast(s: State, r: State)
    requires InRange(s) && InRange(r) && r.claims == s.claims
    ensures LastClaim(r) == LastClaim(s)
  {
  }

  lemma ClaimPublishes(w: World, s: State, ok: bool, st: ClaimStatus) returns (r: State)
    requires InRange(s) && Reachable(w, s) && s.worker.ReadBack? && LastRemote(s.remote).Some? && LastClaim(s).Some?
    requires st == EndStatus(s.worker.d, LastRemote(s.remote).value, ok) && st != s.worker.d.snap.status
    ensures r.claims == s.claims + [Some(LastClaim(s).value.(status := st))] && r.lastWrite == |s.claims|
    ensures r.remote == s.remote && r.view == s.view && r.worker.Idle?
    ensures |r.log| == |s.log| + 1 && r.log[|s.log|].rendered == s.worker.spec
    ensures InRange(r) && Reachable(w, r)
  {
    var a := ClaimReads(w, s, ok, st);
    SameLast(s, a);
    r := ClaimWrites(w, a);
  }

  lemma ClaimAppears(w: World, version: string) returns (r: State)
    requires Reachable(w, INIT)
    ensures r == INIT.(claims := [None, Some(NewClaim(version))], origins := [NO_ORIGIN, NO_ORIGIN], view := 1)
    ensures InRange(r) && Reachable(w, r)
  {
    var create := CreateClaim(version, "", true);
    var a := INIT.(claims := [None, Some(NewClaim(version))], origins := [NO_ORIGIN, NO_ORIGIN]);
    Next(w, INIT, create, a);
    r := INIT.(claims := [None, Some(NewClaim(version))], origins := [NO_ORIGIN, NO_ORIGIN], view := 1);
    Next(w, a, AdvanceView(1), r);
  }

  function NewClaim(version: string): Claim {
    Claim(version, "", 1, true, false, false, NEW_CLAIM_STATUS)
  }

  /** The claim's first version has been published after a genuine reconcile; the cache has not seen it. */
  ghost predicate FirstPublished(s: State, version: string, spec: A.AddonSpec) {
    && InRange(s) && |s.claims| == 3 && s.view == 1 && s.lastWrite == 2 && s.worker.Idle?
    && s.claims[1] == Some(NewClaim(version))
    && s.claims[2] == Some(NewClaim(version).(status := FirstStatus(version)))
    && s.remote.work.Resting? && LastRemote(s.remote) == Some(RemoteAddon(spec, 1, 1, true, false))
  }

  function FirstStatus(version: string): ClaimStatus {
    ClaimStatus(1, Some(true), false, Some(RemoteStatus(false, 1, 1)), Some(true), Some(false), Some(false),
                version, "")
  }

  lemma PublishFirst(w: World, version: string, spec: A.AddonSpec) returns (s: State)
    requires version != "" && Reachable(w, INIT)
    ensures FirstPublished(s, version, spec) && Reachable(w, s)
  {
    var a := ClaimAppears(w, version);
    var b := ClaimPushes(w, a, spec);
    var c := RemoteBegins(w, b);
    var d := RemoteConcludes(w, c);
    s := ClaimPublishes(w, d, true, FirstStatus(version));
  }

  /** A failed remote read keeps the old Ready, and with it publishes a version no remote reconcile has
      reached: the remote spec has moved on and is not observed. */
  ghost predicate PublishedUnread(s: State, version: string, spec: A.AddonSpec) {
    && InRange(s) && LastClaim(s).Some? && LastClaim(s).value.status.version == version
    && LastRemote(s.remote).Some? && LastRemote(s.remote).value.spec == spec
    && !ReadyAtCurrentGeneration(LastRemote(s.remote).value)
  }

  lemma EditSeen(w: World, s: State, v1: string, v2: string, spec: A.AddonSpec) returns (r: State)
    requires FirstPublished(s, v1, spec) && Reachable(w, s) && v1 != v2
    ensures InRange(r) && Reachable(w, r) && r.worker.Idle? && r.remote == s.remote && r.view == 3 && |r.claims| == 4
    ensures r.claims[3] == Some(Claim(v2, "", 2, true, false, false, FirstStatus(v1)))
  {
    var edited := StoreClaim(s, Some(Claim(v2, "", 2, true, false, false, FirstStatus(v1))), LastOrigin(s));
    Next(w, s, EditClaim(v2, "", true, false), edited);
    r := edited.(view := 3);
    Next(w, edited, AdvanceView(3), r);
  }

  lemma PublishesUnread(w: World, v1: string, v2: string, spec1: A.AddonSpec, spec2: A.AddonSpec) returns (s: State)
    requires Reachable(w, INIT) && v1 != "" && v2 != "" && v1 != v2 && spec1 != spec2
    ensures Reachable(w, s) && PublishedUnread(s, v2, spec2)
  {
    var a := PublishFirst(w, v1, spec1);
    var b := EditSeen(w, a, v1, v2, spec1);
    var c := ClaimPushes(w, b, spec2);
    s := ClaimPublishes(w, c, false, FirstStatus(v1).(version := v2, observedGeneration := 2));
  }

  lemma FailedReadPublishes(v1: string, v2: string, spec1: A.AddonSpec, spec2: A.AddonSpec)
    requires v1 != "" && v2 != "" && v1 != v2 && spec1 != spec2
    ensures exists s: State :: EndsRun(s) && PublishedUnread(s, v2, spec2)
  {
    EverythingClosed();
    var s := PublishesUnread(Everything(), v1, v2, spec1, spec2);
    assert Everything().inside(s);
  }

  /** A version was published and then emptied, by the controller itself, on an unchanged claim. */
  ghost predicate Emptied(s: State, version: string) {
    && |s.claims| == 4 && s.claims[2].Some? && s.claims[3].Some?
    && s.claims[3].value == s.claims[2].value.(status := s.claims[3].value.status)
    && s.claims[3].value.external && s.claims[3].value.version == version
    && s.claims[2].value.status.version == version && s.claims[3].value.status.version == ""
  }

  lemma Empties(w: World, version: string, spec1: A.AddonSpec, spec2: A.AddonSpec) returns (s: State)
    requires Reachable(w, INIT) && version != "" && spec1 != spec2
    ensures Reachable(w, s) && Emptied(s, version)
  {
    var a := PublishFirst(w, version, spec1);
    var b := ClaimPushes(w, a, spec2);
    var st := EndStatus(b.worker.d, LastRemote(b.remote).value, true);
    assert st.ready == Some(false) && st.version == "";
    s := ClaimPublishes(w, b, true, st);
    assert s.claims[2] == a.claims[2] && s.claims[3].value.status == st;
  }

  /** A reconcile that starts from a cache without the controller's own last write does that. */
  lemma StaleStartEmpties(version: string, spec1: A.AddonSpec, spec2: A.AddonSpec)
    requires version != "" && spec1 != spec2
    ensures exists s: State :: EndsRun(s) && Emptied(s, version)
  {
    EverythingClosed();
    var s := Empties(Everything(), version, spec1, spec2);
    assert Everything().inside(s);
  }

  /** The claim published for spec2 on the word of a single conclusion, about an object with spec1. */
  ghost predicate PublishedForOther(s: State, version: string, spec1: A.AddonSpec, spec2: A.AddonSpec) {
    && |s.claims| == 3 && s.claims[2].Some? && s.claims[2].value.status.version == version
    && |s.log| == 1 && s.log[0].rendered == spec2 && s.remote.concluded == [Conclusion(1, true)]
    && |s.remote.versions| > 1 && s.remote.versions[1] == Some(RemoteAddon(spec1, 1, 0, false, false))
  }

  lemma Replaced(w: World, version: string, spec1: A.AddonSpec) returns (r: State)
    requires Reachable(w, INIT)
    ensures InRange(r) && Reachable(w, r) && r.worker.Idle? && r.view == 1 && r.log == []
    ensures r.claims == [None, Some(NewClaim(version))]
    ensures var a := RemoteAddon(spec1, 1, 0, false, false);
            r.remote == Remote([None, Some(a), None], 1, Working(1, a), [])
  {
    var a := ClaimAppears(w, version);
    var b := ClaimPushes(w, a, spec1);
    var c := RemoteBegins(w, b);
    var d := c.(worker := Idle);
    Next(w, c, Fail, d);
    r := d.(remote := d.remote.(versions := d.remote.versions + [None]));
    Next(w, d, ByRemote(Vanish), r);
  }

  lemma PublishesForOther(w: World, version: string, spec1: A.AddonSpec, spec2: A.AddonSpec) returns (s: State)
    requires Reachable(w, INIT) && version != "" && spec1 != spec2
    ensures Reachable(w, s) && PublishedForOther(s, version, spec1, spec2)
  {
    var a := Replaced(w, version, spec1);
    var b := ClaimPushes(w, a, spec2);
    var c := RemoteConcludes(w, b);
    s := ClaimPublishes(w, c, true, FirstStatus(version));
    assert s.remote.versions[1] == a.remote.versions[1];
  }

  /** If the remote Addon is replaced while it is being reconciled, the conclusion about the old object
      counts as Ready for the new spec, which nobody has reconciled. */
  lemma ReplacedAddonReadsReady(version: string, spec1: A.AddonSpec, spec2: A.AddonSpec)
    requires version != "" && spec1 != spec2
    ensures exists s: State :: EndsRun(s) && PublishedForOther(s, version, spec1, spec2)
  {
    EverythingClosed();
    var s := PublishesForOther(Everything(), version, spec1, spec2);
    assert Everything().inside(s);
  }
}
