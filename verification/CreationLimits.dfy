/** Two reachable histories that show where the gates and the verdicts of the Addon controller end: a stale
    view of an Application opens the gate for the re-created Addon, and an Application that exists but is not
    in view ends a reconcile Ready for a spec that Argo CD never compared. */
module CreationLimits {
  import opened Wrappers
  import opened AddonModel
  import opened AddonLimits
  import opened Dependencies
  import A = Applications
  import R = Rules

  // ---- An Application created behind no gate ----

  /** A spec with a dependency, and no values. */
  predicate Dependent(spec: A.AddonSpec) {
    spec.valuesSelectors == [] && spec.initDependencies != []
  }

  /** The Application is in view, and none of the dependencies exists. */
  function Unready(): Cluster {
    Cluster(R.Found(map[]), i => R.Missing, (i, j) => R.Missing)
  }

  function Deleting(a: Addon): Addon {
    a.(deleting := true, generation := a.generation + 1)
  }

  lemma Deletes(w: World, s: State, a: Addon) returns (r: State)
    requires InRange(s) && Reachable(w, s) && s.addonCtl.Idle? && LastAddon(s) == Some(a)
    requires a.finalizer && !a.deleting
    ensures var n := |s.addons|;
            r == s.(addons := s.addons + [AddonVersion(Some(Deleting(a)), User)], addonView := n,
                    round := s.round + 1, addonCtl := DeleteApp(n))
    ensures InRange(r) && Reachable(w, r)
  {
    var n := |s.addons|;
    var b := s.(addons := s.addons + [AddonVersion(Some(Deleting(a)), User)]);
    Next(w, s, ByEnv(DeleteAddon), b);
    var c := b.(addonView := n);
    Next(w, b, ByEnv(AdvanceViews(n, b.phaseView, b.appView)), c);
    r := c.(round := s.round + 1, addonCtl := DeleteApp(n));
    Next(w, c, ByAddon(StartAddon), r);
  }

  /** The delete call removes an Application without finalizers; none is in view. */
  lemma Removes(w: World, s: State, app: A.App, start: nat) returns (r: State)
    requires InRange(s) && Reachable(w, s) && s.addonCtl == DeleteApp(start)
    requires LastApp(s) == Some(app) && app.finalizers == [] && s.apps[s.appView] == None && SeenAddon(s).Some?
    ensures r == s.(apps := s.apps + [None], addonCtl := ReleasePut(start, s.addonView))
    ensures InRange(r) && Reachable(w, r)
  {
    var a := s.(apps := s.apps + [None], addonCtl := AwaitGone(start));
    Next(w, s, ByAddon(DeleteAppStep), a);
    assert a.apps[a.appView] == s.apps[s.appView];
    var b := a.(addonCtl := ReleaseGet(start));
    Next(w, a, ByAddon(CheckGone), b);
    r := a.(addonCtl := ReleasePut(start, s.addonView));
    Next(w, b, ByAddon(ReadForRelease), r);
  }

  lemma Vanishes(w: World, s: State, a: Addon) returns (r: State)
    requires InRange(s) && Reachable(w, s) && s.addonCtl.ReleasePut? && s.addonCtl.at == |s.addons| - 1
    requires LastAddon(s) == Some(a) && a.deleting && !a.foreign
    ensures r == s.(addons := s.addons + [AddonVersion(None, AddonController)], addonCtl := Idle)
    ensures InRange(r) && Reachable(w, r)
  {
    r := s.(addons := s.addons + [AddonVersion(None, AddonController)], addonCtl := Idle);
    Next(w, s, ByAddon(PutRelease), r);
  }

  /** A new Addon of the same name, while the cache still shows the Application of the old one. */
  lemma Recreates(w: World, s: State, spec: A.AddonSpec) returns (r: State)
    requires InRange(s) && Reachable(w, s) && s.addonCtl.Idle? && LastAddon(s) == None
    requires s.appView == 0 && |s.apps| == 3
    ensures r == s.(addons := s.addons + [AddonVersion(Some(Created0(spec)), User)],
                    addonView := |s.addons|, appView := 1)
    ensures InRange(r) && Reachable(w, r)
  {
    var a := s.(addons := s.addons + [AddonVersion(Some(Created0(spec)), User)]);
    Next(w, s, ByEnv(CreateAddon(spec, false, false)), a);
    r := a.(addonView := |s.addons|, appView := 1);
    Next(w, a, ByEnv(AdvanceViews(|s.addons|, a.phaseView, 1)), r);
  }

  lemma Begins(w: World, s: State, a: Addon) returns (r: State)
    requires InRange(s) && Reachable(w, s) && s.addonCtl.Idle? && s.addonView == |s.addons| - 1
    requires LastAddon(s) == Some(a) && !a.deleting && !a.finalizer
    ensures r == s.(addons := s.addons + [AddonVersion(Some(a.(finalizer := true)), AddonController)],
                    round := s.round + 1, addonCtl := Check(Draft(s.addonView, a, a.status)))
    ensures InRange(r) && Reachable(w, r)
  {
    var d := Draft(s.addonView, a, a.status);
    var b := s.(round := s.round + 1, addonCtl := FinalizeGet(d));
    Next(w, s, ByAddon(StartAddon), b);
    var c := b.(addonCtl := FinalizePut(d, s.addonView));
    Next(w, b, ByAddon(ReadForFinalizer), c);
    r := s.(addons := s.addons + [AddonVersion(Some(a.(finalizer := true)), AddonController)],
            round := s.round + 1, addonCtl := Check(d));
    Next(w, c, ByAddon(PutFinalizer), r);
  }

  lemma PassesUnready(w: World, s: State, d: Draft) returns (r: State)
    requires InRange(s) && Reachable(w, s) && s.addonCtl == Check(d) && !d.snap.paused && s.apps[s.appView].Some?
    ensures r == s.(addonCtl := Resolve(d, Unready()))
    ensures InRange(r) && Reachable(w, r)
  {
    r := s.(addonCtl := Resolve(d, Unready()));
    Next(w, s, ByAddon(CheckGate(Unready())), r);
  }

  lemma ResolveApplied(cfg: Config, s: State, d: Draft, cluster: Cluster)
    requires InRange(s) && s.addonCtl == Resolve(d, cluster)
    requires d.snap.spec.valuesSelectors == [] && d.status.phaseSelectors == []
    ensures Apply(cfg, s, ByAddon(ResolveValues(true, NoLists())))
            == s.(log := s.log + [Aggregated(s.round, Hash(cfg))],
                  addonCtl := Look(d.(status := d.status.(valuesHash := Hash(cfg))), cluster,
                                   Built0(cfg, d.status.valuesHash)))
  {
    NoValues();
  }

  /** The Application in view is gone between the two looks at it. */
  lemma ReachesCreate(w: World, s: State, d: Draft) returns (r: State)
    requires InRange(s) && Reachable(w, s) && s.addonCtl == Resolve(d, Unready())
    requires d.snap.spec.valuesSelectors == [] && d.status.phaseSelectors == [] && d.status.valuesHash == ""
    requires s.apps[s.appView].Some? && s.appView == 1 && |s.apps| == 3 && s.apps[2] == None
    ensures r == s.(appView := 2, log := s.log + [Aggregated(s.round, Hash(w.cfg))],
                    addonCtl := Create(d.(status := d.status.(valuesHash := Hash(w.cfg))), Unready(),
                                       Built0(w.cfg, ""), true))
    ensures InRange(r) && Reachable(w, r)
  {
    ResolveApplied(w.cfg, s, d, Unready());
    var e := d.(status := d.status.(valuesHash := Hash(w.cfg)));
    var a := s.(log := s.log + [Aggregated(s.round, Hash(w.cfg))], addonCtl := Look(e, Unready(), Built0(w.cfg, "")));
    Next(w, s, ByAddon(ResolveValues(true, NoLists())), a);
    var b := a.(addonCtl := Fetch(e, Unready(), Built0(w.cfg, ""), true));
    Next(w, a, ByAddon(LookForApp), b);
    var c := b.(appView := 2);
    Next(w, b, ByEnv(AdvanceViews(b.addonView, b.phaseView, 2)), c);
    r := c.(addonCtl := Create(e, Unready(), Built0(w.cfg, ""), true));
    Next(w, c, ByAddon(FetchApp), r);
  }

  lemma Creates(w: World, s: State, d: Draft, cluster: Cluster, built: Built, sawApp: bool) returns (r: State)
    requires InRange(s) && Reachable(w, s) && s.addonCtl == Create(d, cluster, built, sawApp) && LastApp(s) == None
    ensures r == s.(apps := s.apps + [Some(A.Stored(Desired(w.cfg, d, built)))], log := r.log, addonCtl := r.addonCtl)
    ensures InRange(r) && Reachable(w, r) && |r.log| > |s.log|
    ensures r.log[|s.log|] == Created(s.round, d.snap, cluster, sawApp, built.previousHash, built.hash)
  {
    r := Apply(w.cfg, s, ByAddon(CreateApp));
    Next(w, s, ByAddon(CreateApp), r);
  }

  /** A creation for an Addon that replaced a deleted one, with no dependency met and no hash stored. */
  ghost predicate Ungated(cfg: Config, s: State, spec: A.AddonSpec) {
    && |s.addons| == 9 && s.addons[6].content == None && s.addons[7].content == Some(Created0(spec))
    && exists k :: 0 <= k < |s.log| && UngatedCreation(cfg, s.log[k], spec)
  }

  ghost predicate UngatedCreation(cfg: Config, e: Event, spec: A.AddonSpec) {
    && e.Created? && e.snap == Created0(spec) && e.previousHash == ""
    && !AllMet(cfg.engine, spec.initDependencies, e.cluster)
  }

  lemma NothingMet(cfg: Config, spec: A.AddonSpec)
    requires Dependent(spec)
    ensures !AllMet(cfg.engine, spec.initDependencies, Unready())
  {
    assert !DependencyMet(cfg.engine, spec.initDependencies, Unready(), 0);
  }

  /** The first Addon and its Application are gone; the cache still shows neither the Application nor that. */
  lemma Gone(w: World, spec: A.AddonSpec) returns (s: State)
    requires Reachable(w, INIT) && Plain(spec) && Hash(w.cfg) != "" && App0(w.cfg, spec).finalizers == []
    ensures InRange(s) && Reachable(w, s) && s.addonCtl.Idle? && |s.addons| == 7 && LastAddon(s) == None
    ensures s.apps == [None, Some(App0(w.cfg, spec)), None] && s.appView == 0
  {
    var a := FirstRound(w, spec);
    var b := SecondRound(w, spec, a);
    var kept := Kept(spec, Waiting(w.cfg));
    var c := Deletes(w, b, kept);
    var d := Removes(w, c, App0(w.cfg, spec), 5);
    s := Vanishes(w, d, Deleting(kept));
  }

  lemma CreatesUngated(w: World, s: State, spec: A.AddonSpec) returns (r: State)
    requires InRange(s) && Reachable(w, s) && Dependent(spec) && s.addonCtl.Idle? && |s.addons| == 7
    requires LastAddon(s) == None && |s.apps| == 3 && s.apps[1].Some? && s.apps[2] == None && s.appView == 0
    ensures Reachable(w, r) && Ungated(w.cfg, r, spec)
  {
    var a := Recreates(w, s, spec);
    var b := Begins(w, a, Created0(spec));
    var d := Draft(7, Created0(spec), NEW_ADDON_STATUS);
    var c := PassesUnready(w, b, d);
    var e := ReachesCreate(w, c, d);
    r := Creates(w, e, e.addonCtl.d, Unready(), Built0(w.cfg, ""), true);
    NothingMet(w.cfg, spec);
    assert UngatedCreation(w.cfg, r.log[|e.log|], spec);
  }

  /** For every plain Addon whose Application has no finalizers, and every spec with a dependency for the
      Addon re-created after it, some run creates the new Application behind no gate. */
  lemma StaleViewOpensGate(cfg: Config, spec: A.AddonSpec, again: A.AddonSpec)
    requires Plain(spec) && Dependent(again) && Hash(cfg) != "" && App0(cfg, spec).finalizers == []
    ensures exists s: State :: EndsRun(cfg, s) && Ungated(cfg, s, again)
  {
    EverythingClosed(cfg);
    var a := Gone(Everything(cfg), spec);
    var s := CreatesUngated(Everything(cfg), a, again);
    assert Everything(cfg).inside(s);
  }

  // ---- Ready for a spec that was never compared ----

  function Edited(cfg: Config, spec: A.AddonSpec): Addon {
    Kept(spec, Done(cfg)).(generation := 2)
  }

  /** Someone removes the Application. */
  lemma AppRemoved(w: World, s: State, app: A.App) returns (r: State)
    requires InRange(s) && Reachable(w, s) && LastApp(s) == Some(app) && !app.terminating
    ensures r == s.(apps := s.apps + [Some(app.(finalizers := []))] + [None])
    ensures InRange(r) && Reachable(w, r)
  {
    var a := s.(apps := s.apps + [Some(app.(finalizers := []))]);
    Next(w, s, ByEnv(EditApp(app.labels, [], app.spec)), a);
    r := a.(apps := a.apps + [None]);
    Next(w, a, ByEnv(DeleteAppByOthers), r);
  }

  /** The spec is edited, and both caches catch up. */
  lemma SpecEdited(w: World, s: State, spec: A.AddonSpec, edited: A.AddonSpec) returns (r: State)
    requires InRange(s) && Reachable(w, s) && LastAddon(s) == Some(Kept(spec, Done(w.cfg))) && edited != spec
    ensures r == s.(addons := s.addons + [AddonVersion(Some(Edited(w.cfg, edited)), User)],
                    addonView := |s.addons|, appView := |s.apps| - 1)
    ensures InRange(r) && Reachable(w, r)
  {
    var a := s.(addons := s.addons + [AddonVersion(Some(Edited(w.cfg, edited)), User)]);
    Next(w, s, ByEnv(EditAddon(edited, false, false)), a);
    r := a.(addonView := |s.addons|, appView := |s.apps| - 1);
    Next(w, a, ByEnv(AdvanceViews(|s.addons|, a.phaseView, |s.apps| - 1)), r);
  }

  /** A reconcile of the edited Addon, up to the creation of its Application; none is in view. */
  lemma AboutToCreate(w: World, s: State, spec: A.AddonSpec) returns (r: State)
    requires InRange(s) && Reachable(w, s) && s.addonCtl.Idle? && Plain(spec) && Hash(w.cfg) != ""
    requires SeenAddon(s) == Some(Edited(w.cfg, spec)) && s.apps[s.appView] == None
    ensures r == s.(round := s.round + 1, log := r.log, addonCtl := r.addonCtl)
    ensures r.addonCtl == Create(Draft(s.addonView, Edited(w.cfg, spec), Done(w.cfg)), ClusterOf(s),
                                 Built0(w.cfg, Hash(w.cfg)), false)
    ensures InRange(r) && Reachable(w, r)
  {
    var d := Draft(s.addonView, Edited(w.cfg, spec), Done(w.cfg));
    var a := Starts(w, s, d.snap);
    var b := Resolves(w, a, d);
    assert d.(status := d.status.(valuesHash := Hash(w.cfg))) == d;
    var c := b.(addonCtl := Fetch(d, ClusterOf(s), Built0(w.cfg, Hash(w.cfg)), false));
    Next(w, b, ByAddon(LookForApp), c);
    r := c.(addonCtl := Create(d, ClusterOf(s), Built0(w.cfg, Hash(w.cfg)), false));
    Next(w, c, ByAddon(FetchApp), r);
  }

  /** The reconcile that created it fails before it writes its status. */
  lemma CreatesAndFails(w: World, s: State, spec: A.AddonSpec) returns (r: State)
    requires InRange(s) && Reachable(w, s) && s.addonCtl.Idle? && Plain(spec) && Hash(w.cfg) != ""
    requires SeenAddon(s) == Some(Edited(w.cfg, spec)) && s.apps[s.appView] == None && LastApp(s) == None
    ensures r == s.(apps := s.apps + [Some(App0(w.cfg, spec))], round := r.round, log := r.log)
    ensures InRange(r) && Reachable(w, r)
  {
    var a := AboutToCreate(w, s, spec);
    NewAppNotSynced(w.cfg, spec);
    assert LastApp(a) == LastApp(s);
    var b := Creates(w, a, a.addonCtl.d, a.addonCtl.cluster, a.addonCtl.built, false);
    r := b.(addonCtl := Idle);
    Next(w, b, ByAddon(Fail), r);
  }

  function ReadyStatus(cfg: Config): AddonStatus {
    Done(cfg).(observedGeneration := 2)
  }

  lemma NotVisibleEffect(cfg: Config, s: State, d: Draft)
    requires InRange(s) && s.addonCtl.Create? && s.addonCtl.d == d && LastApp(s).Some?
    requires d.status == Done(cfg) && d.snap.generation == 2
    ensures var r := Apply(cfg, s, ByAddon(CreateApp));
            r == s.(log := r.log, addonCtl := StatusGet(d.(status := ReadyStatus(cfg))))
  {
  }

  /** The next one starts before the cache shows the new Application. */
  lemma EndsReady(w: World, s: State, spec: A.AddonSpec) returns (r: State)
    requires InRange(s) && Reachable(w, s) && s.addonCtl.Idle? && Plain(spec) && Hash(w.cfg) != ""
    requires s.addonView == |s.addons| - 1 && SeenAddon(s) == Some(Edited(w.cfg, spec))
    requires s.apps[s.appView] == None && LastApp(s) == Some(App0(w.cfg, spec))
    ensures InRange(r) && Reachable(w, r) && r.apps == s.apps
    ensures LastAddon(r) == Some(Edited(w.cfg, spec).(status := ReadyStatus(w.cfg)))
  {
    var a := AboutToCreate(w, s, spec);
    var d := a.addonCtl.d;
    assert LastApp(a) == LastApp(s);
    NotVisibleEffect(w.cfg, a, d);
    var b := Apply(w.cfg, a, ByAddon(CreateApp));
    Next(w, a, ByAddon(CreateApp), b);
    r := Writes(w, b, d.(status := ReadyStatus(w.cfg)), Edited(w.cfg, spec));
  }

  /** Ready at the present generation, while the only Application for it was never compared. */
  ghost predicate ReadyUnseen(s: State, spec: A.AddonSpec)
    requires InRange(s)
  {
    && LastAddon(s).Some? && LastApp(s).Some?
    && var a := LastAddon(s).value;
       && a.spec == spec && a.status.ready && a.status.observedGeneration == a.generation
       && !A.ComparedToCurrent(LastApp(s).value) && LastApp(s).value.status == A.NEW_STATUS
  }

  /** For every two different plain specs some run ends Ready for the second, edited in after the first was
      deployed, though Argo CD never saw its Application. */
  lemma InvisibleApplicationReadsReady(cfg: Config, spec: A.AddonSpec, edited: A.AddonSpec)
    requires Plain(spec) && Plain(edited) && edited != spec && cfg.name != "" && Hash(cfg) != ""
    ensures exists s: State :: EndsRun(cfg, s) && InRange(s) && ReadyUnseen(s, edited)
  {
    EverythingClosed(cfg);
    var s := ReadsReady(Everything(cfg), spec, edited);
    assert Everything(cfg).inside(s);
  }

  lemma ReadsReady(w: World, spec: A.AddonSpec, edited: A.AddonSpec) returns (s: State)
    requires Plain(spec) && Plain(edited) && edited != spec && w.cfg.name != "" && Hash(w.cfg) != ""
    requires Reachable(w, INIT)
    ensures InRange(s) && Reachable(w, s) && ReadyUnseen(s, edited)
  {
    var a := FirstRound(w, spec);
    var b := SecondRound(w, spec, a);
    var c := ArgoReports(w, spec, b);
    var d := ThirdRound(w, spec, c);
    var e := AppRemoved(w, d, ComparedApp(w.cfg, spec));
    assert LastAddon(e) == LastAddon(d);
    var f := SpecEdited(w, e, spec, edited);
    var g := CreatesAndFails(w, f, edited);
    s := EndsReady(w, g, edited);
  }
}
