/** A whole reachable history of one Addon, from its creation to Ready and Deployed, and on to a reconcile
    that starts from a stale cache and withdraws Deployed again: the condition of module Latches cannot be
    dropped, and the states the other theorems speak of are reached. */
module AddonLimits {
  import opened Wrappers
  import opened AddonModel
  import opened Dependencies
  import opened Aggregation
  import A = Applications
  import R = Rules

  /** A configuration, and a set of states that no step leaves: in the end, the reachable ones. */
  datatype World = World(cfg: Config, inside: State -> bool)

  ghost predicate Closed(w: World) {
    forall s, step | InRange(s) && w.inside(s) :: w.inside(Apply(w.cfg, s, step))
  }

  ghost predicate Reachable(w: World, s: State) {
    Closed(w) && w.inside(s)
  }

  ghost predicate EndsRun(cfg: Config, s: State) {
    exists steps :: Run(cfg, steps) == s
  }

  ghost function Everything(cfg: Config): World {
    World(cfg, s => EndsRun(cfg, s))
  }

  lemma EverythingClosed(cfg: Config)
    ensures Reachable(Everything(cfg), INIT)
  {
    var w := Everything(cfg);
    forall s, step | InRange(s) && w.inside(s)
      ensures w.inside(Apply(cfg, s, step))
    {
      var steps :| Run(cfg, steps) == s;
      assert (steps + [step])[..|steps|] == steps;
      assert Run(cfg, steps + [step]) == Apply(cfg, s, step);
    }
    assert Run(cfg, []) == INIT;
  }

  lemma Next(w: World, s: State, step: Step, r: State)
    requires InRange(s) && Reachable(w, s) && Apply(w.cfg, s, step) == r
    ensures InRange(r) && Reachable(w, r)
  {
  }

  /** An Addon without selectors and dependencies, and without fields that never converge. */
  ghost predicate Plain(spec: A.AddonSpec) {
    spec.valuesSelectors == [] && spec.initDependencies == [] && spec.chart != "" && A.NoEmptyFields(spec)
  }

  function NoLists(): Listings {
    (n: nat) => []
  }

  function Hash(cfg: Config): string {
    cfg.valuesHash(map[])
  }

  function Created0(spec: A.AddonSpec): Addon {
    Addon(spec, 1, false, false, false, false, NEW_ADDON_STATUS)
  }

  function Kept(spec: A.AddonSpec, st: AddonStatus): Addon {
    Addon(spec, 1, false, false, true, false, st)
  }

  /** Values resolved, nothing deployed. */
  function Waiting(cfg: Config): AddonStatus {
    AddonStatus(1, [], Hash(cfg), "", false, false, false, false, false)
  }

  function Done(cfg: Config): AddonStatus {
    AddonStatus(1, [], Hash(cfg), "", true, true, false, true, true)
  }

  function Built0(cfg: Config, previous: string): Built {
    Built(NoLists(), map[], previous, Hash(cfg))
  }

  lemma NoValues()
    ensures Aggregate([], [], NoLists()) == Ok(map[])
  {
  }

  // ---- Blocks of steps ----

  lemma Appears(w: World, spec: A.AddonSpec) returns (r: State)
    requires Reachable(w, INIT)
    ensures r == INIT.(addons := [AddonVersion(None, User), AddonVersion(Some(Created0(spec)), User)], addonView := 1)
    ensures InRange(r) && Reachable(w, r)
  {
    var a := INIT.(addons := [AddonVersion(None, User), AddonVersion(Some(Created0(spec)), User)]);
    Next(w, INIT, ByEnv(CreateAddon(spec, false, false)), a);
    r := a.(addonView := 1);
    Next(w, a, ByEnv(AdvanceViews(1, 0, 0)), r);
  }

  lemma TakesFinalizer(w: World, spec: A.AddonSpec, s: State) returns (r: State)
    requires InRange(s) && Reachable(w, s) && s.addonCtl.Idle? && |s.addons| == 2 && s.addonView == 1
    requires s.addons[1].content == Some(Created0(spec))
    ensures r == s.(addons := s.addons + [AddonVersion(Some(Kept(spec, NEW_ADDON_STATUS)), AddonController)],
                    round := s.round + 1, addonCtl := Check(Draft(1, Created0(spec), NEW_ADDON_STATUS)))
    ensures InRange(r) && Reachable(w, r)
  {
    var d := Draft(1, Created0(spec), NEW_ADDON_STATUS);
    var a := s.(round := s.round + 1, addonCtl := FinalizeGet(d));
    Next(w, s, ByAddon(StartAddon), a);
    var b := a.(addonCtl := FinalizePut(d, 1));
    Next(w, a, ByAddon(ReadForFinalizer), b);
    r := s.(addons := s.addons + [AddonVersion(Some(Kept(spec, NEW_ADDON_STATUS)), AddonController)],
            round := s.round + 1, addonCtl := Check(d));
    Next(w, b, ByAddon(PutFinalizer), r);
  }

  lemma Starts(w: World, s: State, a: Addon) returns (r: State)
    requires InRange(s) && Reachable(w, s) && s.addonCtl.Idle?
    requires SeenAddon(s) == Some(a) && !a.deleting && a.finalizer
    ensures r == s.(round := s.round + 1, addonCtl := Check(Draft(s.addonView, a, a.status)))
    ensures InRange(r) && Reachable(w, r)
  {
    r := s.(round := s.round + 1, addonCtl := Check(Draft(s.addonView, a, a.status)));
    Next(w, s, ByAddon(StartAddon), r);
  }

  /** The cluster as the dependency check reads it, in agreement with the Application in view. */
  function ClusterOf(s: State): Cluster
    requires InRange(s)
  {
    Cluster(if s.apps[s.appView].Some? then R.Found(map[]) else R.Missing, i => R.Missing, (i, j) => R.Missing)
  }

  lemma PassesGate(w: World, s: State, d: Draft) returns (r: State)
    requires InRange(s) && Reachable(w, s) && s.addonCtl == Check(d) && !d.snap.paused && Plain(d.snap.spec)
    ensures r == s.(addonCtl := Resolve(d, ClusterOf(s)))
    ensures InRange(r) && Reachable(w, r)
  {
    r := s.(addonCtl := Resolve(d, ClusterOf(s)));
    Next(w, s, ByAddon(CheckGate(ClusterOf(s))), r);
  }

  lemma Resolves(w: World, s: State, d: Draft) returns (r: State)
    requires InRange(s) && Reachable(w, s) && s.addonCtl == Check(d) && !d.snap.paused && Plain(d.snap.spec)
    requires d.status.phaseSelectors == []
    ensures r == s.(log := s.log + [Aggregated(s.round, Hash(w.cfg))],
                    addonCtl := Look(d.(status := d.status.(valuesHash := Hash(w.cfg))), ClusterOf(s),
                                     Built0(w.cfg, d.status.valuesHash)))
    ensures InRange(r) && Reachable(w, r)
  {
    var a := PassesGate(w, s, d);
    NoValues();
    r := s.(log := s.log + [Aggregated(s.round, Hash(w.cfg))],
            addonCtl := Look(d.(status := d.status.(valuesHash := Hash(w.cfg))), ClusterOf(s),
                             Built0(w.cfg, d.status.valuesHash)));
    Next(w, a, ByAddon(ResolveValues(true, NoLists())), r);
  }

  lemma ReadEffect(cfg: Config, s: State, d: Draft)
    requires InRange(s) && s.addonCtl == StatusGet(d) && LastAddon(s).Some?
    ensures Apply(cfg, s, ByAddon(ReadForStatus(|s.addons| - 1, true))) == s.(addonCtl := StatusPut(d, |s.addons| - 1))
  {
  }

  /** The stored Addon with the draft's status. */
  function Written(s: State, d: Draft, a: Addon): State {
    s.(addons := s.addons + [AddonVersion(Some(a.(status := d.status)), AddonController)], addonCtl := Idle)
  }

  lemma WriteEffect(cfg: Config, s: State, d: Draft, a: Addon)
    requires InRange(s) && s.addonCtl == StatusPut(d, |s.addons| - 1)
    requires LastAddon(s) == Some(a) && a.status.phaseSelectors == d.status.phaseSelectors
    ensures Apply(cfg, s, ByAddon(PutStatus)) == Written(s, d, a)
  {
    assert d.status.(phaseSelectors := a.status.phaseSelectors) == d.status;
  }

  lemma SameLast(s: State, w: AddonWorker)
    requires InRange(s)
    ensures LastAddon(s.(addonCtl := w)) == LastAddon(s)
  {
  }

  lemma ReadsToWrite(w: World, s: State, d: Draft) returns (r: State)
    requires InRange(s) && Reachable(w, s) && s.addonCtl == StatusGet(d)
    requires LastAddon(s).Some?
    ensures r == s.(addonCtl := StatusPut(d, |s.addons| - 1)) && InRange(r) && Reachable(w, r)
  {
    r := s.(addonCtl := StatusPut(d, |s.addons| - 1));
    ReadEffect(w.cfg, s, d);
    Next(w, s, ByAddon(ReadForStatus(|s.addons| - 1, true)), r);
  }

  lemma Puts(w: World, s: State, d: Draft, a: Addon) returns (r: State)
    requires InRange(s) && Reachable(w, s) && s.addonCtl == StatusPut(d, |s.addons| - 1)
    requires LastAddon(s) == Some(a) && a.status.phaseSelectors == d.status.phaseSelectors
    ensures r == Written(s, d, a) && InRange(r) && Reachable(w, r)
  {
    WriteEffect(w.cfg, s, d, a);
    r := Written(s, d, a);
    Next(w, s, ByAddon(PutStatus), r);
  }

  lemma Writes(w: World, s: State, d: Draft, a: Addon) returns (r: State)
    requires InRange(s) && Reachable(w, s) && s.addonCtl == StatusGet(d)
    requires LastAddon(s) == Some(a) && a.status.phaseSelectors == d.status.phaseSelectors
    ensures r == Written(s, d, a) && InRange(r) && Reachable(w, r)
  {
    var b := ReadsToWrite(w, s, d);
    SameLast(s, StatusPut(d, |s.addons| - 1));
    r := Puts(w, b, d, a);
  }

  // ---- The history ----

  /** The third version is stored and in view, with no Application yet. */
  ghost predicate AfterFirst(w: World, spec: A.AddonSpec, s: State) {
    && InRange(s) && Reachable(w, s) && s.addonCtl.Idle? && |s.addons| == 4 && s.addonView == 3
    && s.addons[3].content == Some(Kept(spec, Waiting(w.cfg)))
    && s.phases == [None] && s.phaseView == 0 && s.phaseCtl.PhaseIdle?
  }

  lemma DefersCreation(w: World, spec: A.AddonSpec, s: State, d: Draft) returns (r: State)
    requires InRange(s) && Reachable(w, s) && s.addonCtl.Look? && s.apps[s.appView].None?
    requires s.addonCtl.d == d && s.addonCtl.built.previousHash == "" && d.snap.generation == 1
    ensures r == s.(addonCtl := StatusGet(d.(status := SetProgressing(d.status).(observedGeneration := 1))))
    ensures InRange(r) && Reachable(w, r)
  {
    r := s.(addonCtl := StatusGet(d.(status := SetProgressing(d.status).(observedGeneration := 1))));
    Next(w, s, ByAddon(LookForApp), r);
  }

  lemma FirstDefers(w: World, spec: A.AddonSpec) returns (r: State)
    requires Reachable(w, INIT) && Plain(spec) && Hash(w.cfg) != ""
    ensures InRange(r) && Reachable(w, r) && r.apps == [None] && r.appView == 0
    ensures r.phases == [None] && r.phaseView == 0 && r.phaseCtl.PhaseIdle? && |r.addons| == 3 && r.addonView == 1
    ensures r.addonCtl == StatusGet(Draft(1, Created0(spec), Waiting(w.cfg)))
    ensures LastAddon(r) == Some(Kept(spec, NEW_ADDON_STATUS))
  {
    var a := Appears(w, spec);
    var b := TakesFinalizer(w, spec, a);
    var c := Resolves(w, b, Draft(1, Created0(spec), NEW_ADDON_STATUS));
    r := DefersCreation(w, spec, c, c.addonCtl.d);
  }

  /** First round: the hash is new, so no Application is created. */
  lemma FirstRound(w: World, spec: A.AddonSpec) returns (r: State)
    requires Reachable(w, INIT) && Plain(spec) && Hash(w.cfg) != ""
    ensures AfterFirst(w, spec, r) && r.apps == [None] && r.appView == 0
  {
    var a := FirstDefers(w, spec);
    var b := Writes(w, a, a.addonCtl.d, Kept(spec, NEW_ADDON_STATUS));
    r := b.(addonView := 3);
    Next(w, b, ByEnv(AdvanceViews(3, 0, 0)), r);
  }

  function App0(cfg: Config, spec: A.AddonSpec): A.App {
    A.Build(cfg.builder, cfg.name, spec, cfg.marshal(map[]))
  }

  lemma NewAppNotSynced(cfg: Config, spec: A.AddonSpec)
    requires Plain(spec)
    ensures A.Stored(App0(cfg, spec)) == App0(cfg, spec)
    ensures Settle(Translate(cfg, Waiting(cfg), App0(cfg, spec))) == Waiting(cfg)
  {
    A.StoredBuildSame(cfg.builder, cfg.name, spec, cfg.marshal(map[]));
  }

  /** The Addon waits, with an Application stored, and the controllers rest. */
  ghost predicate AfterSecond(w: World, spec: A.AddonSpec, s: State) {
    && InRange(s) && Reachable(w, s) && s.addonCtl.Idle? && |s.addons| == 5
    && s.addons[4].content == Some(Kept(spec, Waiting(w.cfg)))
    && s.phases == [None] && s.phaseView == 0 && s.phaseCtl.PhaseIdle?
  }

  /** Second round: the same hash again, so the Application is created; nothing to report yet but the
      reference to it, which the status write records. */
  lemma SecondRound(w: World, spec: A.AddonSpec, s: State) returns (r: State)
    requires Plain(spec) && Hash(w.cfg) != "" && AfterFirst(w, spec, s) && s.apps == [None] && s.appView == 0
    ensures AfterSecond(w, spec, r) && r.apps == [None, Some(App0(w.cfg, spec))] && r.appView == 0 && r.addonView == 3
  {
    var d := Draft(3, Kept(spec, Waiting(w.cfg)), Waiting(w.cfg));
    var a := Starts(w, s, d.snap);
    var b := Resolves(w, a, d);
    var built := Built0(w.cfg, Hash(w.cfg));
    var c := b.(addonCtl := Fetch(d, ClusterOf(a), built, false));
    Next(w, b, ByAddon(LookForApp), c);
    var e := c.(addonCtl := Create(d, ClusterOf(a), built, false));
    Next(w, c, ByAddon(FetchApp), e);
    var f := Creates(w, spec, e, d);
    r := Writes(w, f, d, Kept(spec, Waiting(w.cfg)));
  }

  lemma Creates(w: World, spec: A.AddonSpec, s: State, d: Draft) returns (r: State)
    requires Plain(spec) && d == Draft(3, Kept(spec, Waiting(w.cfg)), Waiting(w.cfg))
    requires InRange(s) && Reachable(w, s) && s.apps == [None] && s.addonCtl.Create? && s.addonCtl.d == d
    requires s.addonCtl.built == Built0(w.cfg, Hash(w.cfg))
    ensures r == s.(apps := [None, Some(App0(w.cfg, spec))], log := r.log, addonCtl := StatusGet(d))
    ensures InRange(r) && Reachable(w, r)
  {
    NewAppNotSynced(w.cfg, spec);
    r := Apply(w.cfg, s, ByAddon(CreateApp));
    Next(w, s, ByAddon(CreateApp), r);
  }

  function ComparedApp(cfg: Config, spec: A.AddonSpec): A.App {
    var app := App0(cfg, spec);
    app.(status := A.AppStatus(A.ComparedTo(app.spec.source.value, []), A.Synced, A.Healthy))
  }

  lemma ArgoReports(w: World, spec: A.AddonSpec, s: State) returns (r: State)
    requires AfterSecond(w, spec, s) && s.apps == [None, Some(App0(w.cfg, spec))] && s.appView == 0 && s.addonView == 3
    ensures AfterSecond(w, spec, r) && r.appView == 2 && r.addonView == 4
    ensures r.apps == [None, Some(App0(w.cfg, spec)), Some(ComparedApp(w.cfg, spec))]
  {
    var a := s.(apps := [None, Some(App0(w.cfg, spec)), Some(ComparedApp(w.cfg, spec))]);
    Next(w, s, ByEnv(ArgoCompare(1, A.Synced, A.Healthy)), a);
    r := a.(addonView := 4, appView := 2);
    Next(w, a, ByEnv(AdvanceViews(4, 0, 2)), r);
  }

  lemma ComparedIsDone(cfg: Config, spec: A.AddonSpec)
    requires Plain(spec) && cfg.name != ""
    ensures !A.NeedsUpdate(ComparedApp(cfg, spec), App0(cfg, spec))
    ensures Settle(Translate(cfg, Waiting(cfg), ComparedApp(cfg, spec))) == Done(cfg)
  {
    A.NeedsUpdateIsProjection(ComparedApp(cfg, spec), cfg.builder, cfg.name, spec, cfg.marshal(map[]));
  }

  /** Third round: Synced and Healthy, so Ready and Deployed. */
  lemma ThirdRound(w: World, spec: A.AddonSpec, s: State) returns (r: State)
    requires Plain(spec) && w.cfg.name != "" && AfterSecond(w, spec, s) && s.appView == 2 && s.addonView == 4
    requires s.apps == [None, Some(App0(w.cfg, spec)), Some(ComparedApp(w.cfg, spec))]
    ensures InRange(r) && Reachable(w, r) && r.addonCtl.Idle? && r.addonView == 4
    ensures |r.addons| == 6 && r.addons[..5] == s.addons && r.addons[5].content == Some(Kept(spec, Done(w.cfg)))
    ensures r.apps == s.apps && r.appView == 2 && r.phases == [None] && r.phaseView == 0 && r.phaseCtl.PhaseIdle?
  {
    var d := Draft(4, Kept(spec, Waiting(w.cfg)), Waiting(w.cfg));
    var a := Starts(w, s, d.snap);
    var b := Resolves(w, a, d);
    var built := Built0(w.cfg, Hash(w.cfg));
    var c := b.(addonCtl := Fetch(d, ClusterOf(a), built, true));
    Next(w, b, ByAddon(LookForApp), c);
    var e := FetchesDone(w, spec, c, d);
    r := Writes(w, e, d.(status := Done(w.cfg)), Kept(spec, Waiting(w.cfg)));
  }

  lemma FetchesDone(w: World, spec: A.AddonSpec, s: State, d: Draft) returns (r: State)
    requires Plain(spec) && w.cfg.name != "" && InRange(s) && Reachable(w, s)
    requires d == Draft(4, Kept(spec, Waiting(w.cfg)), Waiting(w.cfg))
    requires s.addonCtl.Fetch? && s.addonCtl.d == d && s.addonCtl.built == Built0(w.cfg, Hash(w.cfg))
    requires s.apps[s.appView] == Some(ComparedApp(w.cfg, spec))
    ensures r == s.(log := r.log, addonCtl := StatusGet(d.(status := Done(w.cfg))))
    ensures InRange(r) && Reachable(w, r)
  {
    ComparedIsDone(w.cfg, spec);
    r := Apply(w.cfg, s, ByAddon(FetchApp));
    Next(w, s, ByAddon(FetchApp), r);
  }

  lemma FailsValues(w: World, s: State, d: Draft, cluster: Cluster) returns (r: State)
    requires InRange(s) && Reachable(w, s) && s.addonCtl == Resolve(d, cluster)
    ensures r == s.(addonCtl := Finish(d, SetDegraded(d.status)))
    ensures InRange(r) && Reachable(w, r)
  {
    r := s.(addonCtl := Finish(d, SetDegraded(d.status)));
    Next(w, s, ByAddon(ResolveValues(false, NoLists())), r);
  }

  /** A reconcile that starts from the version before, and finds its values sources unreadable. */
  lemma StaleRound(w: World, spec: A.AddonSpec, s: State) returns (r: State)
    requires Plain(spec) && InRange(s) && Reachable(w, s) && s.addonCtl.Idle? && s.addonView == 4 && |s.addons| == 6
    requires s.addons[4].content == Some(Kept(spec, Waiting(w.cfg)))
    requires s.addons[5].content == Some(Kept(spec, Done(w.cfg)))
    ensures Reachable(w, r)
    ensures r.addons
            == s.addons + [AddonVersion(Some(Kept(spec, Waiting(w.cfg).(degraded := true))), AddonController)]
  {
    var d := Draft(4, Kept(spec, Waiting(w.cfg)), Waiting(w.cfg));
    var a := Starts(w, s, d.snap);
    var b := PassesGate(w, a, d);
    var c := FailsValues(w, b, d, ClusterOf(a));
    var e := d.(status := Waiting(w.cfg).(degraded := true));
    assert c.addonCtl == StatusGet(e) && LastAddon(c) == LastAddon(s);
    r := Writes(w, c, e, Kept(spec, Done(w.cfg)));
  }

  /** For every plain Addon some run deploys it and then withdraws Deployed, though the Addon is untouched:
      the one version is Ready and Deployed, the next is the same object without it. */
  ghost predicate Withdrawn(s: State) {
    && |s.addons| == 7 && s.addons[5].content.Some? && s.addons[6].content.Some?
    && var before, after := s.addons[5].content.value, s.addons[6].content.value;
       && before.status.ready && before.status.deployed && !after.status.deployed
       && after == before.(status := after.status) && s.addons[6].writer == AddonController
  }

  lemma StaleStartWithdraws(cfg: Config, spec: A.AddonSpec)
    requires Plain(spec) && cfg.name != "" && Hash(cfg) != ""
    ensures exists s: State :: EndsRun(cfg, s) && Withdrawn(s)
  {
    EverythingClosed(cfg);
    var s := Withdraws(Everything(cfg), spec);
    assert Everything(cfg).inside(s);
  }

  lemma Withdraws(w: World, spec: A.AddonSpec) returns (s: State)
    requires Plain(spec) && w.cfg.name != "" && Hash(w.cfg) != "" && Reachable(w, INIT)
    ensures Reachable(w, s) && Withdrawn(s)
  {
    var a := FirstRound(w, spec);
    var b := SecondRound(w, spec, a);
    var c := ArgoReports(w, spec, b);
    var d := ThirdRound(w, spec, c);
    assert d.addons[4] == d.addons[..5][4];
    s := StaleRound(w, spec, d);
    assert s.addons[5] == d.addons[5];
  }
}
