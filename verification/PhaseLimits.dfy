/** The life of one rule: matched, its selector handed to the Addon, values aggregated under it, the verdict
    read back, Deployed latched; and then withdrawn by a reconcile that starts from a stale cache. It shows
    that the states of module DeployedRules are reached and that the condition of module Latches is needed. */
module PhaseLimits {
  import opened Wrappers
  import opened AddonModel
  import opened Aggregation
  import opened Dependencies
  import opened AddonLimits
  import opened Sorting
  import A = Applications
  import F = Fnv
  import R = Rules

  /** A rule with one criterion, that is never kept: the source exists. */
  datatype Scene = Scene(w: World, spec: A.AddonSpec, src: R.Source, path: string, selector: ValuesSelector)

  ghost predicate Fit(sc: Scene) {
    && Plain(sc.spec) && sc.w.cfg.name != "" && Hash(sc.w.cfg) != ""
    && sc.w.cfg.engine.extract(map[], sc.path).Ok? && sc.w.cfg.engine.extract(map[], sc.path).value.Some?
  }

  function Rule(sc: Scene): R.Rule {
    R.Rule("rule", [R.Criterion(Some(sc.src), sc.path, R.Exists, None, Some(false))], sc.selector)
  }

  /** The cluster with the source there, or not. */
  function Seen(sc: Scene, there: bool): R.Snapshot {
    R.Snapshot(Ok(map[]), if there then map[sc.src := R.Found(map[])] else map[])
  }

  function Evaluated(sc: Scene, before: seq<R.RuleStatus>, there: bool): Result<R.Evaluation> {
    R.Evaluate(sc.w.cfg.engine, [Rule(sc)], R.PreviousStatuses(before), Seen(sc, there), 0)
  }

  predicate OneStatus(statuses: seq<R.RuleStatus>, matched: bool, deployed: bool) {
    |statuses| == 1 && statuses[0].name == "rule" && statuses[0].matched == matched && statuses[0].deployed == deployed
  }

  lemma JudgedByPresence(sc: Scene, there: bool, latched: bool)
    requires Fit(sc)
    ensures var outcome := R.JudgeAll(sc.w.cfg.engine, Rule(sc).criteria, Seen(sc, there), latched);
            !outcome.Fail? && (outcome == R.Match <==> there)
  {
    assert Rule(sc).criteria[..0] == [];
  }

  /** No status yet, or one that is not Deployed. */
  predicate NotDeployed(before: seq<R.RuleStatus>) {
    before == [] || OneStatus(before, true, false) || OneStatus(before, false, false)
  }

  lemma PreviousNotDeployed(before: seq<R.RuleStatus>)
    requires NotDeployed(before)
    ensures !R.Previous(R.PreviousStatuses(before), "rule").deployed
  {
    if before != [] {
      assert before[..0] == [];
    }
  }

  lemma EvaluationIs(sc: Scene, before: seq<R.RuleStatus>, there: bool)
    requires Fit(sc) && NotDeployed(before)
    ensures Evaluated(sc, before, there).Ok?
    ensures Evaluated(sc, before, there).value.selectors == if there then [sc.selector] else []
    ensures OneStatus(Evaluated(sc, before, there).value.statuses, there, false)
  {
    var prev := R.PreviousStatuses(before);
    PreviousNotDeployed(before);
    JudgedByPresence(sc, there, R.Previous(prev, "rule").latched);
    assert [Rule(sc)][..0] == [];
    assert R.Evaluate(sc.w.cfg.engine, [], prev, Seen(sc, there), 0) == Ok(R.Evaluation([], []));
  }

  // ---- Blocks of steps ----

  lemma PhaseAppears(sc: Scene, s: State) returns (r: State)
    requires InRange(s) && Reachable(sc.w, s) && s.phases == [None] && s.phaseView == 0
    ensures r == s.(phases := [None, Some(Phase([Rule(sc)], false, false, false, []))], phaseView := 1)
    ensures InRange(r) && Reachable(sc.w, r)
  {
    var a := s.(phases := [None, Some(Phase([Rule(sc)], false, false, false, []))]);
    Next(sc.w, s, ByEnv(CreatePhase([Rule(sc)], false)), a);
    r := a.(phaseView := 1);
    Next(sc.w, a, ByEnv(AdvanceViews(a.addonView, 1, a.appView)), r);
  }

  function PhaseWith(sc: Scene, statuses: seq<R.RuleStatus>): Phase {
    Phase([Rule(sc)], false, true, false, statuses)
  }

  lemma PhaseTakesFinalizer(sc: Scene, s: State) returns (r: State)
    requires InRange(s) && Reachable(sc.w, s) && s.phaseCtl.PhaseIdle? && s.phaseView == 1
    requires s.phases == [None, Some(Phase([Rule(sc)], false, false, false, []))]
    ensures r == s.(phases := s.phases + [Some(PhaseWith(sc, []))], phaseCtl := Evaluating(1))
    ensures InRange(r) && Reachable(sc.w, r)
  {
    var a := s.(phaseCtl := PhaseFinalizeGet(1));
    Next(sc.w, s, ByPhase(StartPhase), a);
    var b := s.(phaseCtl := PhaseFinalizePut(1, 1));
    Next(sc.w, a, ByPhase(PhaseReadForFinalizer), b);
    r := s.(phases := s.phases + [Some(PhaseWith(sc, []))], phaseCtl := Evaluating(1));
    Next(sc.w, b, ByPhase(PhasePutFinalizer), r);
  }

  lemma PhaseStarts(sc: Scene, s: State, statuses: seq<R.RuleStatus>) returns (r: State)
    requires InRange(s) && Reachable(sc.w, s) && s.phaseCtl.PhaseIdle?
    requires s.phases[s.phaseView] == Some(PhaseWith(sc, statuses))
    ensures r == s.(phaseCtl := Evaluating(s.phaseView)) && InRange(r) && Reachable(sc.w, r)
  {
    r := s.(phaseCtl := Evaluating(s.phaseView));
    Next(sc.w, s, ByPhase(StartPhase), r);
  }

  /** Where an evaluation leads, given the Addon's status in view. */
  function AfterEvaluation(sc: Scene, start: nat, before: seq<R.RuleStatus>, read: AddonStatus, there: bool)
    : PhaseWorker
    requires Evaluated(sc, before, there).Ok?
  {
    var ev := Evaluated(sc, before, there).value;
    var held := Stamped(sc.w.cfg, ev.statuses, ev.selectors, read);
    if SelectorsEqual(read.phaseSelectors, ev.selectors) then PhaseStatusGet(start, held)
    else PatchGet(start, held, ev.selectors)
  }

  lemma PhaseEvaluates(sc: Scene, s: State, p: Phase, read: AddonStatus, there: bool) returns (r: State)
    requires InRange(s) && Reachable(sc.w, s) && s.phaseCtl.Evaluating? && s.phaseCtl.start < |s.phases|
    requires s.phases[s.phaseCtl.start] == Some(p) && p.rules == [Rule(sc)]
    requires SeenAddon(s).Some? && SeenAddon(s).value.status == read && Evaluated(sc, p.statuses, there).Ok?
    ensures r == s.(log := r.log, phaseCtl := AfterEvaluation(sc, s.phaseCtl.start, p.statuses, read, there))
    ensures InRange(r) && Reachable(sc.w, r)
  {
    r := DoEvaluate(sc.w.cfg, s, s.phaseCtl.start, Seen(sc, there), 0);
    Next(sc.w, s, ByPhase(EvaluatePhase(Seen(sc, there), 0)), r);
  }

  /** Reads of the store do not depend on what the controllers hold. */
  lemma SameStored(s: State, r: State)
    requires InRange(s) && InRange(r)
    ensures r.addons == s.addons ==> LastAddon(r) == LastAddon(s)
    ensures r.addons == s.addons && r.addonView == s.addonView ==> SeenAddon(r) == SeenAddon(s)
    ensures r.phases == s.phases ==> LastPhase(r) == LastPhase(s)
  {
  }

  function PatchedState(s: State, a: Addon, start: nat, active: Selectors, held: seq<R.RuleStatus>): State {
    s.(addons := s.addons + [AddonVersion(Some(a.(status := a.status.(phaseSelectors := active))), PhaseController)],
       phaseCtl := PhaseStatusGet(start, held))
  }

  lemma PatchEffect(s: State, a: Addon, start: nat, active: Selectors, held: seq<R.RuleStatus>)
    requires InRange(s) && LastAddon(s) == Some(a) && s.addonView == |s.addons| - 1 && a.status.phaseSelectors != active
    ensures DoReadForPatch(s, start, held, active)
            == s.(phaseCtl := Patch(start, held, active, a.status.phaseSelectors))
    ensures DoPatch(s.(phaseCtl := Patch(start, held, active, a.status.phaseSelectors)), start, held, active,
                    a.status.phaseSelectors)
            == PatchedState(s, a, start, active, held)
  {
  }

  lemma PhasePatches(sc: Scene, s: State, a: Addon) returns (r: State)
    requires InRange(s) && Reachable(sc.w, s) && s.phaseCtl.PatchGet?
    requires LastAddon(s) == Some(a) && s.addonView == |s.addons| - 1 && a.status.phaseSelectors != s.phaseCtl.active
    ensures r == PatchedState(s, a, s.phaseCtl.start, s.phaseCtl.active, s.phaseCtl.statuses)
    ensures InRange(r) && Reachable(sc.w, r)
  {
    var w := s.phaseCtl;
    PatchEffect(s, a, w.start, w.active, w.statuses);
    var b := s.(phaseCtl := Patch(w.start, w.statuses, w.active, a.status.phaseSelectors));
    Next(sc.w, s, ByPhase(ReadForPatch), b);
    r := PatchedState(s, a, w.start, w.active, w.statuses);
    Next(sc.w, b, ByPhase(SendPatch), r);
  }

  lemma PhaseWrites(sc: Scene, s: State, p: Phase) returns (r: State)
    requires InRange(s) && Reachable(sc.w, s) && s.phaseCtl.PhaseStatusGet? && LastPhase(s) == Some(p)
    ensures r == s.(phases := s.phases + [Some(p.(statuses := s.phaseCtl.statuses))], phaseCtl := PhaseIdle)
    ensures InRange(r) && Reachable(sc.w, r)
  {
    var n := |s.phases| - 1;
    var a := s.(phaseCtl := PhaseStatusPut(s.phaseCtl.start, s.phaseCtl.statuses, n));
    Next(sc.w, s, ByPhase(PhaseReadForStatus(n, true)), a);
    r := s.(phases := s.phases + [Some(p.(statuses := s.phaseCtl.statuses))], phaseCtl := PhaseIdle);
    Next(sc.w, a, ByPhase(PhasePutStatus), r);
  }

  lemma ViewsMove(sc: Scene, s: State, addons: nat, phases: nat, apps: nat) returns (r: State)
    requires InRange(s) && Reachable(sc.w, s)
    requires s.addonView <= addons < |s.addons| && s.phaseView <= phases < |s.phases| && s.appView <= apps < |s.apps|
    ensures r == s.(addonView := addons, phaseView := phases, appView := apps) && InRange(r) && Reachable(sc.w, r)
  {
    r := s.(addonView := addons, phaseView := phases, appView := apps);
    Next(sc.w, s, ByEnv(AdvanceViews(addons, phases, apps)), r);
  }

  // ---- The history ----

  /** Both controllers rest, and the compared Application is in view. */
  predicate AtRest(sc: Scene, s: State) {
    && s.addonCtl.Idle? && s.phaseCtl.PhaseIdle? && s.appView == 2
    && s.apps == [None, Some(App0(sc.w.cfg, sc.spec)), Some(ComparedApp(sc.w.cfg, sc.spec))]
  }

  /** At rest, with these as the last Addon and AddonPhase. */
  predicate Shows(sc: Scene, s: State, st: AddonStatus, p: Option<Phase>) {
    && InRange(s) && AtRest(sc, s) && s.addons[|s.addons| - 1].content == Some(Kept(sc.spec, st))
    && s.phases[|s.phases| - 1] == p
  }

  lemma BaseReached(sc: Scene) returns (s: State)
    requires Fit(sc) && Reachable(sc.w, INIT)
    ensures Reachable(sc.w, s) && Shows(sc, s, Done(sc.w.cfg), None)
    ensures |s.addons| == 6 && s.addonView == 4 && s.phases == [None] && s.phaseView == 0
  {
    var a := FirstRound(sc.w, sc.spec);
    var b := SecondRound(sc.w, sc.spec, a);
    var c := ArgoReports(sc.w, sc.spec, b);
    s := ThirdRound(sc.w, sc.spec, c);
  }

  function Selecting(sc: Scene): AddonStatus {
    Done(sc.w.cfg).(phaseSelectors := [sc.selector])
  }

  function Verdict(sc: Scene): AddonStatus {
    Selecting(sc).(observedHash := F.SelectorsHash(sc.w.cfg.encode, [sc.selector]))
  }

  lemma FirstEvaluation(sc: Scene) returns (statuses: seq<R.RuleStatus>)
    requires Fit(sc)
    ensures Evaluated(sc, [], true).Ok? && OneStatus(statuses, true, false)
    ensures AfterEvaluation(sc, 1, [], Done(sc.w.cfg), true) == PatchGet(1, statuses, [sc.selector])
  {
    EvaluationIs(sc, [], true);
    statuses := Evaluated(sc, [], true).value.statuses;
  }

  lemma RuleFirstEvaluated(sc: Scene, s: State) returns (r: State, statuses: seq<R.RuleStatus>)
    requires Fit(sc) && Reachable(sc.w, s) && Shows(sc, s, Done(sc.w.cfg), None)
    requires s.addonView == |s.addons| - 1 && s.phases == [None] && s.phaseView == 0
    ensures InRange(r) && Reachable(sc.w, r) && OneStatus(statuses, true, false)
    ensures r == s.(phases := r.phases, phaseView := 1, log := r.log, phaseCtl := PatchGet(1, statuses, [sc.selector]))
    ensures |r.phases| == 3 && LastPhase(r) == Some(PhaseWith(sc, []))
  {
    SeesLast(sc, s, Done(sc.w.cfg), None);
    var a := PhaseAppears(sc, s);
    var b := PhaseTakesFinalizer(sc, a);
    SameStored(s, b);
    statuses := FirstEvaluation(sc);
    r := PhaseEvaluates(sc, b, b.phases[1].value, Done(sc.w.cfg), true);
  }

  /** The rule matches: its selector is patched into the Addon, its status stored, not yet Deployed. */
  lemma RuleMatches(sc: Scene, s: State) returns (r: State, statuses: seq<R.RuleStatus>)
    requires Fit(sc) && Reachable(sc.w, s) && Shows(sc, s, Done(sc.w.cfg), None)
    requires s.addonView == |s.addons| - 1 && s.phases == [None] && s.phaseView == 0
    ensures Reachable(sc.w, r) && Shows(sc, r, Selecting(sc), Some(PhaseWith(sc, statuses)))
    ensures OneStatus(statuses, true, false)
    ensures |r.addons| == |s.addons| + 1 && |r.phases| == 4 && r.addonView == s.addonView && r.phaseView == 1
    ensures SeenAddon(r) == SeenAddon(s)
  {
    var a;
    a, statuses := RuleFirstEvaluated(sc, s);
    var b := PhasePatches(sc, a, Kept(sc.spec, Done(sc.w.cfg)));
    r := PhaseWrites(sc, b, PhaseWith(sc, []));
  }

  lemma SelectedNothing(sc: Scene)
    requires sc.spec.valuesSelectors == []
    ensures Aggregate(sc.spec.valuesSelectors, [sc.selector], NoLists()) == Ok(map[])
  {
    OneSorted(sc.selector);
    assert [] + [sc.selector] == [sc.selector];
    assert [sc.selector][..0] == [];
    assert ForSelectors([], NoLists()) == Ok(map[]);
    assert ForSelector(sc.selector, []) == Ok(map[]);
  }

  lemma OneSorted(x: ValuesSelector)
    ensures Sort(ByPriority(), [x]) == [x]
  {
    assert [x][..0] == [];
  }

  lemma ResolveEffect(cfg: Config, s: State, d: Draft, cluster: Cluster)
    requires InRange(s) && Aggregate(d.snap.spec.valuesSelectors, d.status.phaseSelectors, NoLists()) == Ok(map[])
    ensures DoResolve(cfg, s, d, cluster, true, NoLists())
            == s.(log := s.log + [Aggregated(s.round, Hash(cfg))],
                  addonCtl := Look(d.(status := d.status.(valuesHash := Hash(cfg))), cluster,
                                   Built0(cfg, d.status.valuesHash)))
  {
  }

  lemma ResolveStep(cfg: Config, s: State, lists: Listings)
    requires InRange(s) && s.addonCtl.Resolve?
    ensures var w := s.addonCtl;
            Apply(cfg, s, ByAddon(ResolveValues(true, lists))) == DoResolve(cfg, s, w.d, w.cluster, true, lists)
  {
  }

  lemma ResolvesSelected(sc: Scene, s: State, d: Draft) returns (r: State)
    requires Fit(sc) && InRange(s) && Reachable(sc.w, s) && s.addonCtl == Check(d)
    requires d.snap == Kept(sc.spec, Selecting(sc)) && d.status == Selecting(sc)
    ensures r == s.(log := r.log, addonCtl := Look(d, ClusterOf(s), Built0(sc.w.cfg, Hash(sc.w.cfg))))
    ensures InRange(r) && Reachable(sc.w, r)
  {
    var a := PassesGate(sc.w, s, d);
    SelectedNothing(sc);
    ResolveEffect(sc.w.cfg, a, d, ClusterOf(s));
    assert d.(status := d.status.(valuesHash := Hash(sc.w.cfg))) == d;
    ResolveStep(sc.w.cfg, a, NoLists());
    r := Apply(sc.w.cfg, a, ByAddon(ResolveValues(true, NoLists())));
    Next(sc.w, a, ByAddon(ResolveValues(true, NoLists())), r);
  }

  lemma ReadsVerdict(sc: Scene)
    requires Fit(sc)
    ensures !A.NeedsUpdate(ComparedApp(sc.w.cfg, sc.spec), App0(sc.w.cfg, sc.spec))
    ensures Settle(Translate(sc.w.cfg, Selecting(sc), ComparedApp(sc.w.cfg, sc.spec))) == Verdict(sc)
  {
    ComparedIsDone(sc.w.cfg, sc.spec);
  }

  lemma FetchEffect(sc: Scene, s: State, d: Draft, cluster: Cluster, built: Built)
    requires Fit(sc) && InRange(s) && d.snap == Kept(sc.spec, Selecting(sc)) && d.status == Selecting(sc)
    requires built.values == map[] && s.apps[s.appView] == Some(ComparedApp(sc.w.cfg, sc.spec))
    ensures var r := DoFetch(sc.w.cfg, s, d, cluster, built, true);
            r == s.(log := r.log, addonCtl := StatusGet(d.(status := Verdict(sc))))
  {
    ReadsVerdict(sc);
    assert Desired(sc.w.cfg, d, built) == App0(sc.w.cfg, sc.spec);
    assert Verdict(sc).(observedGeneration := d.snap.generation) == Verdict(sc);
  }

  lemma FetchStep(cfg: Config, s: State)
    requires InRange(s) && s.addonCtl.Fetch?
    ensures var w := s.addonCtl;
            Apply(cfg, s, ByAddon(FetchApp)) == DoFetch(cfg, s, w.d, w.cluster, w.built, w.sawApp)
  {
  }

  lemma TranslatesSelected(sc: Scene, s: State, d: Draft) returns (r: State)
    requires Fit(sc) && InRange(s) && Reachable(sc.w, s) && s.addonCtl.Fetch?
    requires s.addonCtl.d == d && d.snap == Kept(sc.spec, Selecting(sc)) && d.status == Selecting(sc)
    requires s.addonCtl.built == Built0(sc.w.cfg, Hash(sc.w.cfg)) && s.addonCtl.sawApp
    requires s.apps[s.appView] == Some(ComparedApp(sc.w.cfg, sc.spec))
    ensures r == s.(log := r.log, addonCtl := StatusGet(d.(status := Verdict(sc))))
    ensures InRange(r) && Reachable(sc.w, r)
  {
    FetchEffect(sc, s, d, s.addonCtl.cluster, s.addonCtl.built);
    FetchStep(sc.w.cfg, s);
    r := Apply(sc.w.cfg, s, ByAddon(FetchApp));
    Next(sc.w, s, ByAddon(FetchApp), r);
  }

  lemma AddonTranslates(sc: Scene, s: State, d: Draft) returns (r: State)
    requires Fit(sc) && InRange(s) && Reachable(sc.w, s) && AtRest(sc, s)
    requires SeenAddon(s) == Some(Kept(sc.spec, Selecting(sc)))
    requires d == Draft(s.addonView, Kept(sc.spec, Selecting(sc)), Selecting(sc))
    ensures r == s.(round := s.round + 1, log := r.log, addonCtl := StatusGet(d.(status := Verdict(sc))))
    ensures InRange(r) && Reachable(sc.w, r)
  {
    var a := Starts(sc.w, s, d.snap);
    var b := ResolvesSelected(sc, a, d);
    var c := b.(addonCtl := Fetch(d, ClusterOf(a), Built0(sc.w.cfg, Hash(sc.w.cfg)), true));
    Next(sc.w, b, ByAddon(LookForApp), c);
    r := TranslatesSelected(sc, c, d);
  }

  /** The Addon aggregates under the selector and reads the verdict for it. */
  lemma AddonFollows(sc: Scene, s: State, p: Option<Phase>) returns (r: State)
    requires Fit(sc) && Reachable(sc.w, s) && Shows(sc, s, Selecting(sc), p) && s.addonView == |s.addons| - 1
    ensures Reachable(sc.w, r) && Shows(sc, r, Verdict(sc), p)
    ensures r.phases == s.phases && r.phaseView == s.phaseView && r.addonView == s.addonView
    ensures |r.addons| == |s.addons| + 1
  {
    var d := Draft(s.addonView, Kept(sc.spec, Selecting(sc)), Selecting(sc));
    SeesLast(sc, s, Selecting(sc), p);
    var a := AddonTranslates(sc, s, d);
    SameStored(s, a);
    var e := d.(status := Verdict(sc));
    r := Writes(sc.w, a, e, Kept(sc.spec, Selecting(sc)));
    ShowsWritten(sc, s, a, e, p);
  }

  lemma ShowsMore(sc: Scene, s: State, r: State, st: AddonStatus, p: Option<Phase>, v: AddonVersion)
    requires Shows(sc, s, st, p) && InRange(r) && r.addons == s.addons + [v] && r.phases == s.phases
    requires v.content.Some? && v.content.value == Kept(sc.spec, v.content.value.status)
    requires r.addonCtl.Idle? && r.phaseCtl == s.phaseCtl && r.apps == s.apps && r.appView == s.appView
    ensures Shows(sc, r, v.content.value.status, p)
  {
    assert r.addons[|r.addons| - 1] == v;
  }

  lemma ShowsWritten(sc: Scene, s: State, a: State, d: Draft, p: Option<Phase>)
    requires Shows(sc, s, Selecting(sc), p) && InRange(a) && d.status == Verdict(sc)
    requires a == s.(round := a.round, log := a.log, addonCtl := a.addonCtl)
    ensures Shows(sc, Written(a, d, Kept(sc.spec, Selecting(sc))), Verdict(sc), p)
  {
    var v := AddonVersion(Some(Kept(sc.spec, Selecting(sc)).(status := d.status)), AddonController);
    ShowsMore(sc, s, Written(a, d, Kept(sc.spec, Selecting(sc))), Selecting(sc), p, v);
  }

  lemma VerdictLatches(sc: Scene, statuses: seq<R.RuleStatus>)
    requires OneStatus(statuses, true, false)
    ensures VerdictFits(sc.w.cfg, [sc.selector], Verdict(sc))
    ensures OneStatus(Stamped(sc.w.cfg, statuses, [sc.selector], Verdict(sc)), true, true)
  {
  }

  lemma SeesLast(sc: Scene, s: State, st: AddonStatus, p: Option<Phase>)
    requires Shows(sc, s, st, p) && s.addonView == |s.addons| - 1
    ensures SeenAddon(s) == LastAddon(s) == Some(Kept(sc.spec, st)) && LastPhase(s) == p
  {
  }

  lemma SeesLastPhase(sc: Scene, s: State, st: AddonStatus, p: Option<Phase>)
    requires Shows(sc, s, st, p)
    ensures LastPhase(s) == s.phases[|s.phases| - 1] == p
    ensures s.phaseView == |s.phases| - 1 ==> s.phases[s.phaseView] == p
  {
  }

  /** An evaluation of the rule from the version in view. */
  lemma Reevaluates(sc: Scene, s: State, before: seq<R.RuleStatus>, p: Option<Phase>, there: bool) returns (r: State)
    requires Fit(sc) && Reachable(sc.w, s) && Shows(sc, s, Verdict(sc), p) && NotDeployed(before)
    requires s.addonView == |s.addons| - 1 && s.phases[s.phaseView] == Some(PhaseWith(sc, before))
    requires Evaluated(sc, before, there).Ok?
    ensures r == s.(log := r.log, phaseCtl := AfterEvaluation(sc, s.phaseView, before, Verdict(sc), there))
    ensures InRange(r) && Reachable(sc.w, r)
  {
    var a := PhaseStarts(sc, s, before);
    SeesLast(sc, s, Verdict(sc), p);
    SameStored(s, a);
    r := PhaseEvaluates(sc, a, PhaseWith(sc, before), Verdict(sc), there);
  }

  lemma LatchesHere(sc: Scene, start: nat, before: seq<R.RuleStatus>) returns (after: seq<R.RuleStatus>)
    requires Fit(sc) && NotDeployed(before)
    ensures Evaluated(sc, before, true).Ok? && OneStatus(after, true, true)
    ensures AfterEvaluation(sc, start, before, Verdict(sc), true) == PhaseStatusGet(start, after)
  {
    EvaluationIs(sc, before, true);
    var statuses := Evaluated(sc, before, true).value.statuses;
    VerdictLatches(sc, statuses);
    after := Stamped(sc.w.cfg, statuses, [sc.selector], Verdict(sc));
  }

  lemma LatchedEvaluation(sc: Scene, s: State, before: seq<R.RuleStatus>, p: Option<Phase>)
    returns (r: State, after: seq<R.RuleStatus>)
    requires Fit(sc) && Reachable(sc.w, s) && Shows(sc, s, Verdict(sc), p) && NotDeployed(before)
    requires s.addonView == |s.addons| - 1 && s.phases[s.phaseView] == Some(PhaseWith(sc, before))
    ensures r == s.(log := r.log, phaseCtl := PhaseStatusGet(s.phaseView, after)) && InRange(r) && Reachable(sc.w, r)
    ensures OneStatus(after, true, true)
  {
    after := LatchesHere(sc, s.phaseView, before);
    r := Reevaluates(sc, s, before, p, true);
  }

  lemma ShowsAppended(sc: Scene, s: State, r: State, st: AddonStatus, p: Option<Phase>, q: Option<Phase>)
    requires Shows(sc, s, st, p) && InRange(r) && r.addons == s.addons && r.phases == s.phases + [q]
    requires r.addonCtl == s.addonCtl && r.phaseCtl.PhaseIdle? && r.apps == s.apps && r.appView == s.appView
    ensures Shows(sc, r, st, q) && r.phases[s.phaseView] == s.phases[s.phaseView]
  {
  }

  lemma MatchedNotDeployed(before: seq<R.RuleStatus>)
    requires OneStatus(before, true, false)
    ensures NotDeployed(before)
  {
  }

  /** The phase sees the verdict and latches. */
  lemma RuleLatches(sc: Scene, s: State, before: seq<R.RuleStatus>) returns (r: State, after: seq<R.RuleStatus>)
    requires Fit(sc) && Reachable(sc.w, s) && Shows(sc, s, Verdict(sc), Some(PhaseWith(sc, before)))
    requires s.addonView == |s.addons| - 1 && s.phaseView == |s.phases| - 1 && OneStatus(before, true, false)
    ensures Reachable(sc.w, r) && Shows(sc, r, Verdict(sc), Some(PhaseWith(sc, after)))
    ensures r.addons == s.addons && r.addonView == s.addonView && r.phaseView == s.phaseView
    ensures r.phases[r.phaseView] == Some(PhaseWith(sc, before)) && NotDeployed(before)
    ensures OneStatus(after, true, true)
  {
    var a, p := s, Some(PhaseWith(sc, before));
    MatchedNotDeployed(before);
    SeesLastPhase(sc, s, Verdict(sc), p);
    a, after := LatchedEvaluation(sc, s, before, p);
    SameStored(s, a);
    r := PhaseWrites(sc, a, PhaseWith(sc, before));
    ShowsAppended(sc, s, r, Verdict(sc), p, Some(PhaseWith(sc, after)));
  }

  /** Two successive versions of one AddonPhase with the same rules: Deployed, then not. */
  ghost predicate RuleWithdrawn(sc: Scene, phases: seq<Option<Phase>>) {
    var n := |phases|;
    && n >= 2 && phases[n - 2].Some? && phases[n - 1].Some?
    && var before, after := phases[n - 2].value, phases[n - 1].value;
       && before.rules == after.rules == [Rule(sc)]
       && OneStatus(before.statuses, true, true) && OneStatus(after.statuses, false, false)
  }

  lemma DropsHere(sc: Scene, start: nat, before: seq<R.RuleStatus>) returns (after: seq<R.RuleStatus>)
    requires Fit(sc) && NotDeployed(before)
    ensures Evaluated(sc, before, false).Ok? && OneStatus(after, false, false)
    ensures AfterEvaluation(sc, start, before, Verdict(sc), false) == PatchGet(start, after, [])
  {
    EvaluationIs(sc, before, false);
    after := Evaluated(sc, before, false).value.statuses;
  }

  lemma WithdrawnAppended(sc: Scene, phases: seq<Option<Phase>>, was: seq<R.RuleStatus>, after: seq<R.RuleStatus>)
    requires phases != [] && phases[|phases| - 1] == Some(PhaseWith(sc, was))
    requires OneStatus(was, true, true) && OneStatus(after, false, false)
    ensures RuleWithdrawn(sc, phases + [Some(PhaseWith(sc, after))])
  {
  }

  lemma StalePatch(sc: Scene, s: State, before: seq<R.RuleStatus>, p: Option<Phase>)
    returns (r: State, after: seq<R.RuleStatus>)
    requires Fit(sc) && Reachable(sc.w, s) && Shows(sc, s, Verdict(sc), p) && NotDeployed(before)
    requires s.addonView == |s.addons| - 1 && s.phases[s.phaseView] == Some(PhaseWith(sc, before))
    ensures InRange(r) && Reachable(sc.w, r) && r.phases == s.phases && r.phaseCtl == PhaseStatusGet(s.phaseView, after)
    ensures OneStatus(after, false, false)
  {
    after := DropsHere(sc, s.phaseView, before);
    var a := Reevaluates(sc, s, before, p, false);
    SameStored(s, a);
    SeesLast(sc, s, Verdict(sc), p);
    r := PhasePatches(sc, a, Kept(sc.spec, Verdict(sc)));
  }

  lemma WritesWithdrawn(sc: Scene, s: State, was: seq<R.RuleStatus>, after: seq<R.RuleStatus>) returns (r: State)
    requires InRange(s) && Reachable(sc.w, s) && s.phaseCtl.PhaseStatusGet? && s.phaseCtl.statuses == after
    requires LastPhase(s) == Some(PhaseWith(sc, was)) && OneStatus(was, true, true) && OneStatus(after, false, false)
    ensures Reachable(sc.w, r) && RuleWithdrawn(sc, r.phases)
  {
    r := PhaseWrites(sc, s, PhaseWith(sc, was));
    WithdrawnAppended(sc, s.phases, was, after);
  }

  /** The cache still shows the version before Deployed, and the source is gone. */
  lemma StaleEvaluation(sc: Scene, s: State, before: seq<R.RuleStatus>, was: seq<R.RuleStatus>) returns (r: State)
    requires Fit(sc) && Reachable(sc.w, s) && Shows(sc, s, Verdict(sc), Some(PhaseWith(sc, was)))
    requires s.addonView == |s.addons| - 1 && NotDeployed(before) && OneStatus(was, true, true)
    requires s.phases[s.phaseView] == Some(PhaseWith(sc, before))
    ensures Reachable(sc.w, r) && RuleWithdrawn(sc, r.phases)
  {
    var a, after := StalePatch(sc, s, before, Some(PhaseWith(sc, was)));
    SameStored(s, a);
    SeesLastPhase(sc, s, Verdict(sc), Some(PhaseWith(sc, was)));
    r := WritesWithdrawn(sc, a, was, after);
  }

  /** For every such scene some run deploys the rule and then withdraws its Deployed. */
  lemma StaleStartWithdrawsRule(cfg: Config, spec: A.AddonSpec, src: R.Source, path: string, selector: ValuesSelector)
    requires Fit(Scene(Everything(cfg), spec, src, path, selector))
    ensures exists s: State ::
              EndsRun(cfg, s) && RuleWithdrawn(Scene(Everything(cfg), spec, src, path, selector), s.phases)
  {
    EverythingClosed(cfg);
    var s := Withdraws(Scene(Everything(cfg), spec, src, path, selector));
    assert Everything(cfg).inside(s);
  }

  /** The caches catch up with the store. */
  lemma CatchesUp(sc: Scene, s: State, st: AddonStatus, p: Option<Phase>) returns (r: State)
    requires Reachable(sc.w, s) && Shows(sc, s, st, p)
    ensures r == s.(addonView := |s.addons| - 1, phaseView := |s.phases| - 1)
    ensures Reachable(sc.w, r) && Shows(sc, r, st, p)
  {
    r := ViewsMove(sc, s, |s.addons| - 1, |s.phases| - 1, 2);
    ShowsSeen(sc, s, r, st, p);
  }

  lemma ShowsSeen(sc: Scene, s: State, r: State, st: AddonStatus, p: Option<Phase>)
    requires Shows(sc, s, st, p) && InRange(r) && r == s.(addonView := r.addonView, phaseView := r.phaseView)
    ensures Shows(sc, r, st, p)
  {
  }

  /** The selector is in the Addon, aggregated and answered for, and the rule not yet Deployed. */
  lemma Answered(sc: Scene) returns (s: State, before: seq<R.RuleStatus>)
    requires Fit(sc) && Reachable(sc.w, INIT)
    ensures Reachable(sc.w, s) && Shows(sc, s, Verdict(sc), Some(PhaseWith(sc, before)))
    ensures OneStatus(before, true, false)
  {
    var a := BaseReached(sc);
    var b := CatchesUp(sc, a, Done(sc.w.cfg), None);
    var c;
    c, before := RuleMatches(sc, b);
    var d := CatchesUp(sc, c, Selecting(sc), Some(PhaseWith(sc, before)));
    s := AddonFollows(sc, d, Some(PhaseWith(sc, before)));
  }

  lemma Withdraws(sc: Scene) returns (s: State)
    requires Fit(sc) && Reachable(sc.w, INIT)
    ensures Reachable(sc.w, s) && RuleWithdrawn(sc, s.phases)
  {
    var a, before := Answered(sc);
    var b := CatchesUp(sc, a, Verdict(sc), Some(PhaseWith(sc, before)));
    var c, was := RuleLatches(sc, b, before);
    s := StaleEvaluation(sc, c, before, was);
  }
}
