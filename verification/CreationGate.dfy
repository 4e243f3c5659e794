/** Exactly when an Application is created behind every gate: its reconcile read an Addon neither deleting nor
    paused, every initDependency was met, and the values hash was stored by an earlier reconcile's successful
    aggregation and has not changed since. Each of the two gates is passed over by a read that shows an
    Application; the first creation of a run had none to show. */
module CreationGate {
  import opened Wrappers
  import opened AddonModel
  import opened Dependencies
  import opened Aggregation
  import A = Applications

  type Log = seq<Event>
  type Versions = seq<AddonVersion>

  ghost predicate AnyCreated(log: Log) {
    exists i :: 0 <= i < |log| && log[i].Created?
  }

  predicate AggregatedBefore(e: Event, round: nat, hash: string) {
    e.Aggregated? && e.hash == hash && e.round < round
  }

  /** A reconcile before this round aggregated values with this hash. */
  ghost predicate Persisted(log: Log, round: nat, hash: string) {
    exists k :: 0 <= k < |log| && AggregatedBefore(log[k], round, hash)
  }

  ghost predicate Stored(addons: Versions, snap: Addon) {
    exists v :: 0 <= v < |addons| && addons[v].content == Some(snap)
  }

  ghost predicate Justified(cfg: Config, addons: Versions, log: Log, e: Event) {
    && e.Created? && Stored(addons, e.snap) && !e.snap.deleting && !e.snap.paused
    && AllMet(cfg.engine, e.snap.spec.initDependencies, e.cluster)
    && e.hash != "" && e.hash == e.previousHash == e.snap.status.valuesHash
    && Persisted(log, e.round, e.hash)
  }

  /** Both reads of the reconcile found no Application. */
  predicate SawNone(e: Event) {
    e.Created? && !e.sawApp && !e.cluster.app.Found?
  }

  ghost predicate HashTraced(log: Log, round: nat, hash: string) {
    hash == "" || Persisted(log, round, hash)
  }

  predicate StableHash(e: Event)
    requires e.Created?
  {
    e.hash != "" && e.hash == e.previousHash
  }

  /** What every creation has behind it: each gate was open, or its read showed an Application. */
  ghost predicate Grounded(cfg: Config, addons: Versions, log: Log, e: Event) {
    && e.Created? && Stored(addons, e.snap) && !e.snap.deleting && !e.snap.paused
    && e.previousHash == e.snap.status.valuesHash && HashTraced(log, e.round, e.previousHash)
    && (e.cluster.app.Found? || AllMet(cfg.engine, e.snap.spec.initDependencies, e.cluster))
    && (e.sawApp || StableHash(e))
  }

  ghost predicate JustifiedAt(cfg: Config, addons: Versions, log: Log, i: nat)
    requires i < |log|
  {
    log[i].Created? ==> Grounded(cfg, addons, log[..i], log[i]) && (AnyCreated(log[..i]) || SawNone(log[i]))
  }

  ghost predicate FirstJustified(cfg: Config, addons: Versions, log: Log) {
    forall i | 0 <= i < |log| :: JustifiedAt(cfg, addons, log, i)
  }

  ghost predicate HashesTraced(addons: Versions, log: Log, round: nat) {
    forall v | 0 <= v < |addons| && addons[v].content.Some? ::
      HashTraced(log, round, addons[v].content.value.status.valuesHash)
  }

  ghost predicate AppsTraced(apps: seq<Option<A.App>>, log: Log) {
    forall i | 0 <= i < |apps| && apps[i].Some? :: AnyCreated(log)
  }

  // ---- What a reconcile has established at each point ----

  ghost predicate Began(s: State, d: Draft) {
    Stored(s.addons, d.snap) && !d.snap.deleting && HashTraced(s.log, s.round, d.snap.status.valuesHash)
  }

  ghost predicate Passed(cfg: Config, s: State, d: Draft, cluster: Cluster) {
    Began(s, d) && !d.snap.paused
    && (cluster.app.Found? ==> AnyCreated(s.log))
    && (cluster.app.Found? || AllMet(cfg.engine, d.snap.spec.initDependencies, cluster))
  }

  ghost predicate HasBuilt(s: State, d: Draft, built: Built) {
    built.previousHash == d.snap.status.valuesHash && HashTraced(s.log, s.round + 1, d.status.valuesHash)
  }

  ghost predicate Stable(s: State, built: Built, sawApp: bool) {
    && (sawApp ==> AnyCreated(s.log))
    && (sawApp || (built.previousHash != "" && built.previousHash == built.hash))
  }

  ghost predicate WorkerFacts(cfg: Config, s: State) {
    match s.addonCtl
    case FinalizeGet(d) => Began(s, d) && d.status == d.snap.status
    case FinalizePut(d, _) => Began(s, d) && d.status == d.snap.status
    case Check(d) => Began(s, d) && d.status == d.snap.status
    case Resolve(d, cluster) => Passed(cfg, s, d, cluster) && d.status == d.snap.status
    case Look(d, cluster, built) => Passed(cfg, s, d, cluster) && HasBuilt(s, d, built)
    case Fetch(d, cluster, built, saw) => Passed(cfg, s, d, cluster) && HasBuilt(s, d, built) && Stable(s, built, saw)
    case Create(d, cluster, built, saw) => Passed(cfg, s, d, cluster) && HasBuilt(s, d, built) && Stable(s, built, saw)
    case UpdateGet(d, _) => HashTraced(s.log, s.round + 1, d.status.valuesHash)
    case UpdatePut(d, _, _) => HashTraced(s.log, s.round + 1, d.status.valuesHash)
    case StatusGet(d) => HashTraced(s.log, s.round + 1, d.status.valuesHash)
    case StatusPut(d, _) => HashTraced(s.log, s.round + 1, d.status.valuesHash)
    case _ => true
  }

  ghost predicate Inv(cfg: Config, s: State) {
    && FirstJustified(cfg, s.addons, s.log) && HashesTraced(s.addons, s.log, s.round + 1)
    && AppsTraced(s.apps, s.log) && WorkerFacts(cfg, s)
  }

  // ---- Growing histories ----

  lemma CreatedGrows(log: Log, more: Log)
    requires log <= more && AnyCreated(log)
    ensures AnyCreated(more)
  {
    var i :| 0 <= i < |log| && log[i].Created?;
    assert more[i] == log[i];
  }

  lemma HashGrows(log: Log, more: Log, round: nat, later: nat, hash: string)
    requires log <= more && round <= later && HashTraced(log, round, hash)
    ensures HashTraced(more, later, hash)
  {
    if hash != "" {
      var k :| 0 <= k < |log| && AggregatedBefore(log[k], round, hash);
      assert more[k] == log[k] && AggregatedBefore(more[k], later, hash);
    }
  }

  lemma StoredGrows(addons: Versions, more: Versions, snap: Addon)
    requires addons <= more && Stored(addons, snap)
    ensures Stored(more, snap)
  {
    var v :| 0 <= v < |addons| && addons[v].content == Some(snap);
    assert more[v] == addons[v];
  }

  lemma FirstGrows(cfg: Config, addons: Versions, log: Log, moreAddons: Versions, more: Log)
    requires addons <= moreAddons && log <= more && FirstJustified(cfg, addons, log)
    requires forall i | |log| <= i < |more| :: JustifiedAt(cfg, moreAddons, more, i)
    ensures FirstJustified(cfg, moreAddons, more)
  {
    forall i | 0 <= i < |log|
      ensures JustifiedAt(cfg, moreAddons, more, i)
    {
      assert more[i] == log[i] && more[..i] == log[..i] && JustifiedAt(cfg, addons, log, i);
      if log[i].Created? {
        StoredGrows(addons, moreAddons, log[i].snap);
      }
    }
  }

  lemma HashesGrow(addons: Versions, log: Log, more: Log, round: nat, later: nat)
    requires log <= more && round <= later && HashesTraced(addons, log, round)
    ensures HashesTraced(addons, more, later)
  {
    forall v | 0 <= v < |addons| && addons[v].content.Some?
      ensures HashTraced(more, later, addons[v].content.value.status.valuesHash)
    {
      HashGrows(log, more, round, later, addons[v].content.value.status.valuesHash);
    }
  }

  lemma BeganGrows(s: State, r: State, d: Draft)
    requires s.addons <= r.addons && s.log <= r.log && r.round == s.round && Began(s, d)
    ensures Began(r, d)
  {
    StoredGrows(s.addons, r.addons, d.snap);
    HashGrows(s.log, r.log, s.round, r.round, d.snap.status.valuesHash);
  }

  lemma PassedGrows(cfg: Config, s: State, r: State, d: Draft, cluster: Cluster)
    requires s.addons <= r.addons && s.log <= r.log && r.round == s.round && Passed(cfg, s, d, cluster)
    ensures Passed(cfg, r, d, cluster)
  {
    BeganGrows(s, r, d);
    if AnyCreated(s.log) {
      CreatedGrows(s.log, r.log);
    }
  }

  lemma WorkerGrows(cfg: Config, s: State, r: State)
    requires s.addons <= r.addons && s.log <= r.log && r.round == s.round && r.addonCtl == s.addonCtl
    requires WorkerFacts(cfg, s)
    ensures WorkerFacts(cfg, r)
  {
    var w := s.addonCtl;
    if AnyCreated(s.log) {
      CreatedGrows(s.log, r.log);
    }
    match w
    case FinalizeGet(d) => BeganGrows(s, r, d);
    case FinalizePut(d, _) => BeganGrows(s, r, d);
    case Check(d) => BeganGrows(s, r, d);
    case Resolve(d, cluster) => PassedGrows(cfg, s, r, d, cluster);
    case Look(d, cluster, built) =>
      PassedGrows(cfg, s, r, d, cluster);
      HashGrows(s.log, r.log, s.round + 1, r.round + 1, d.status.valuesHash);
    case Fetch(d, cluster, built, _) =>
      PassedGrows(cfg, s, r, d, cluster);
      HashGrows(s.log, r.log, s.round + 1, r.round + 1, d.status.valuesHash);
    case Create(d, cluster, built, _) =>
      PassedGrows(cfg, s, r, d, cluster);
      HashGrows(s.log, r.log, s.round + 1, r.round + 1, d.status.valuesHash);
    case UpdateGet(d, _) => HashGrows(s.log, r.log, s.round + 1, r.round + 1, d.status.valuesHash);
    case UpdatePut(d, _, _) => HashGrows(s.log, r.log, s.round + 1, r.round + 1, d.status.valuesHash);
    case StatusGet(d) => HashGrows(s.log, r.log, s.round + 1, r.round + 1, d.status.valuesHash);
    case StatusPut(d, _) => HashGrows(s.log, r.log, s.round + 1, r.round + 1, d.status.valuesHash);
    case _ =>
  }

  lemma AppsGrow(apps: seq<Option<A.App>>, log: Log, more: seq<Option<A.App>>, moreLog: Log)
    requires AppsTraced(apps, log) && log <= moreLog && apps <= more
    requires forall i | |apps| <= i < |more| && more[i].Some? :: AnyCreated(moreLog)
    ensures AppsTraced(more, moreLog)
  {
    forall i | 0 <= i < |apps| && more[i].Some?
      ensures AnyCreated(moreLog)
    {
      assert more[i] == apps[i];
      CreatedGrows(log, moreLog);
    }
  }

  /** Whatever is appended keeps the facts about the stored histories, if it fits them itself. */
  lemma HistoriesGrow(cfg: Config, s: State, r: State)
    requires FirstJustified(cfg, s.addons, s.log) && HashesTraced(s.addons, s.log, s.round + 1)
    requires AppsTraced(s.apps, s.log)
    requires s.addons <= r.addons && s.apps <= r.apps && s.log <= r.log && s.round <= r.round
    requires forall i | |s.log| <= i < |r.log| :: JustifiedAt(cfg, r.addons, r.log, i)
    requires forall v | |s.addons| <= v < |r.addons| && r.addons[v].content.Some? ::
               HashTraced(r.log, r.round + 1, r.addons[v].content.value.status.valuesHash)
    requires forall i | |s.apps| <= i < |r.apps| && r.apps[i].Some? :: AnyCreated(r.log)
    ensures FirstJustified(cfg, r.addons, r.log) && HashesTraced(r.addons, r.log, r.round + 1)
    ensures AppsTraced(r.apps, r.log)
  {
    FirstGrows(cfg, s.addons, s.log, r.addons, r.log);
    HashesGrow(s.addons, s.log, r.log, s.round + 1, r.round + 1);
    forall v | 0 <= v < |s.addons| && r.addons[v].content.Some?
      ensures HashTraced(r.log, r.round + 1, r.addons[v].content.value.status.valuesHash)
    {
      assert r.addons[v] == s.addons[v];
    }
    AppsGrow(s.apps, s.log, r.apps, r.log);
  }

  // ---- Steps of the others ----

  lemma OthersKeep(cfg: Config, s: State, r: State)
    requires InRange(s) && Inv(cfg, s) && Grows(s, r) && r.addonCtl == s.addonCtl && r.round == s.round
    requires forall i | |s.log| <= i < |r.log| :: !r.log[i].Created?
    requires forall v | |s.addons| <= v < |r.addons| && r.addons[v].content.Some? ::
               var hash := r.addons[v].content.value.status.valuesHash;
               hash == "" || (LastAddon(s).Some? && hash == LastAddon(s).value.status.valuesHash)
    requires forall i | |s.apps| <= i < |r.apps| && r.apps[i].Some? :: LastApp(s).Some?
    ensures Inv(cfg, r)
  {
    forall v | |s.addons| <= v < |r.addons| && r.addons[v].content.Some?
      ensures HashTraced(r.log, r.round + 1, r.addons[v].content.value.status.valuesHash)
    {
      if LastAddon(s).Some? {
        HashGrows(s.log, r.log, s.round + 1, r.round + 1, LastAddon(s).value.status.valuesHash);
      }
    }
    if LastApp(s).Some? {
      CreatedGrows(s.log, r.log);
    }
    HistoriesGrow(cfg, s, r);
    WorkerGrows(cfg, s, r);
  }

  lemma EnvStepKeeps(cfg: Config, s: State, step: EnvStep)
    requires InRange(s) && Inv(cfg, s)
    ensures Inv(cfg, StepEnv(s, step))
  {
    OthersKeep(cfg, s, StepEnv(s, step));
  }

  lemma PhaseStepKeeps(cfg: Config, s: State, step: PhaseStep)
    requires InRange(s) && Inv(cfg, s)
    ensures Inv(cfg, StepPhase(cfg, s, step))
  {
    OthersKeep(cfg, s, StepPhase(cfg, s, step));
  }

  // ---- Steps of the Addon controller ----

  lemma StartKeeps(cfg: Config, s: State)
    requires InRange(s) && Inv(cfg, s) && s.addonCtl.Idle?
    ensures Inv(cfg, DoStart(s))
  {
    var r := DoStart(s);
    if SeenAddon(s).Some? {
      HistoriesGrow(cfg, s, r);
      assert HashTraced(s.log, s.round + 1, SeenAddon(s).value.status.valuesHash);
      assert Stored(r.addons, SeenAddon(s).value);
    }
  }

  lemma FinishKeeps(cfg: Config, s: State, d: Draft, st: AddonStatus)
    requires FirstJustified(cfg, s.addons, s.log) && HashesTraced(s.addons, s.log, s.round + 1)
    requires AppsTraced(s.apps, s.log)
    requires HashTraced(s.log, s.round + 1, st.valuesHash)
    ensures Inv(cfg, s.(addonCtl := Finish(d, st)))
  {
  }

  lemma GateKeeps(cfg: Config, s: State, cluster: Cluster)
    requires InRange(s) && Inv(cfg, s) && s.addonCtl.Check?
    ensures Inv(cfg, DoCheckGate(cfg, s, s.addonCtl.d, cluster))
  {
    var d := s.addonCtl.d;
    HashGrows(s.log, s.log, s.round, s.round + 1, d.status.valuesHash);
    FinishKeeps(cfg, s, d, d.status.(ready := false));
    FinishKeeps(cfg, s, d, SetProgressing(d.status));
    if GateOpens(cfg.engine, d.snap.spec.initDependencies, cluster) && s.apps[s.appView].None? && !cluster.app.Found? {
      assert AllMet(cfg.engine, d.snap.spec.initDependencies, cluster);
    }
  }

  lemma RecordAggregated(cfg: Config, s: State, hash: string)
    requires Inv(cfg, s)
    ensures Inv(cfg, Record(s, Aggregated(s.round, hash)))
    ensures HashTraced(Record(s, Aggregated(s.round, hash)).log, s.round + 1, hash)
  {
    var r := Record(s, Aggregated(s.round, hash));
    assert AggregatedBefore(r.log[|s.log|], s.round + 1, hash);
    HistoriesGrow(cfg, s, r);
    WorkerGrows(cfg, s, r);
  }

  lemma ResolveKeeps(cfg: Config, s: State, ok: bool, lists: Listings)
    requires InRange(s) && Inv(cfg, s) && s.addonCtl.Resolve?
    ensures Inv(cfg, DoResolve(cfg, s, s.addonCtl.d, s.addonCtl.cluster, ok, lists))
  {
    var d := s.addonCtl.d;
    HashGrows(s.log, s.log, s.round, s.round + 1, d.status.valuesHash);
    FinishKeeps(cfg, s, d, SetDegraded(d.status));
    var result := Aggregate(d.snap.spec.valuesSelectors, d.status.phaseSelectors, lists);
    if ok && result.Ok? {
      RecordAggregated(cfg, s, cfg.valuesHash(result.value));
    }
  }

  lemma LookKeeps(cfg: Config, s: State)
    requires InRange(s) && Inv(cfg, s) && s.addonCtl.Look?
    ensures Inv(cfg, DoLook(s, s.addonCtl.d, s.addonCtl.cluster, s.addonCtl.built))
  {
    FinishKeeps(cfg, s, s.addonCtl.d, SetProgressing(s.addonCtl.d.status));
  }

  /** After the Application is settled the draft's hash is still the aggregated one. */
  lemma TranslateKeeps(cfg: Config, s: State, d: Draft, built: Built, app: A.App)
    requires FirstJustified(cfg, s.addons, s.log) && HashesTraced(s.addons, s.log, s.round + 1)
    requires AppsTraced(s.apps, s.log) && HashTraced(s.log, s.round + 1, d.status.valuesHash)
    ensures Inv(cfg, TranslateAndFinish(cfg, s, d, built, app))
  {
    var r := TranslateAndFinish(cfg, s, d, built, app);
    HashGrows(s.log, r.log, s.round + 1, s.round + 1, d.status.valuesHash);
    HistoriesGrow(cfg, s, r);
  }

  lemma FetchKeeps(cfg: Config, s: State)
    requires InRange(s) && Inv(cfg, s) && s.addonCtl.Fetch?
    ensures Inv(cfg, DoFetch(cfg, s, s.addonCtl.d, s.addonCtl.cluster, s.addonCtl.built, s.addonCtl.sawApp))
  {
    if s.apps[s.appView].Some? {
      TranslateKeeps(cfg, s, s.addonCtl.d, s.addonCtl.built, s.apps[s.appView].value);
    }
  }

  lemma RecordCreated(cfg: Config, s: State, app: A.App)
    requires InRange(s) && Inv(cfg, s) && s.addonCtl.Create?
    ensures var w := s.addonCtl;
            var e := Created(s.round, w.d.snap, w.cluster, w.sawApp, w.built.previousHash, w.built.hash);
            Inv(cfg, Record(WriteApp(s, Some(app)), e))
  {
    var w := s.addonCtl;
    var e := Created(s.round, w.d.snap, w.cluster, w.sawApp, w.built.previousHash, w.built.hash);
    var r := Record(WriteApp(s, Some(app)), e);
    assert r.log[|s.log|] == e && r.log[..|s.log|] == s.log;
    assert JustifiedAt(cfg, r.addons, r.log, |s.log|);
    HistoriesGrow(cfg, s, r);
    WorkerGrows(cfg, s, r);
  }

  lemma RecordNotVisible(cfg: Config, s: State, spec: A.AddonSpec)
    requires InRange(s) && Inv(cfg, s)
    ensures Inv(cfg, Record(s, NotVisible(s.round, spec)))
  {
    HistoriesGrow(cfg, s, Record(s, NotVisible(s.round, spec)));
    WorkerGrows(cfg, s, Record(s, NotVisible(s.round, spec)));
  }

  lemma CreateKeeps(cfg: Config, s: State)
    requires InRange(s) && Inv(cfg, s) && s.addonCtl.Create?
    ensures Inv(cfg, DoCreate(cfg, s, s.addonCtl.d, s.addonCtl.cluster, s.addonCtl.built, s.addonCtl.sawApp))
  {
    var w := s.addonCtl;
    if LastApp(s).Some? {
      RecordNotVisible(cfg, s, w.d.snap.spec);
      FinishKeeps(cfg, Record(s, NotVisible(s.round, w.d.snap.spec)), w.d, Settle(w.d.status));
    } else {
      var app := A.Stored(Desired(cfg, w.d, w.built));
      RecordCreated(cfg, s, app);
      var e := Created(s.round, w.d.snap, w.cluster, w.sawApp, w.built.previousHash, w.built.hash);
      TranslateKeeps(cfg, Record(WriteApp(s, Some(app)), e), w.d, w.built, app);
    }
  }

  lemma PutUpdateKeeps(cfg: Config, s: State)
    requires InRange(s) && Inv(cfg, s) && s.addonCtl.UpdatePut?
    ensures Inv(cfg, DoPutUpdate(cfg, s, s.addonCtl.d, s.addonCtl.built, s.addonCtl.at))
  {
    var w := s.addonCtl;
    if w.at == |s.apps| - 1 && s.apps[w.at].Some? {
      var app := A.Stored(A.Updated(s.apps[w.at].value, Desired(cfg, w.d, w.built)));
      HistoriesGrow(cfg, s, WriteApp(s, StoredApp(app)));
      TranslateKeeps(cfg, WriteApp(s, StoredApp(app)), w.d, w.built, app);
    }
  }

  lemma WriteAddonKeeps(cfg: Config, s: State, step: AddonStep)
    requires InRange(s) && Inv(cfg, s) && (step.PutFinalizer? || step.PutStatus? || step.PutRelease?)
    ensures Inv(cfg, StepAddon(cfg, s, step))
  {
    var r := StepAddon(cfg, s, step);
    HistoriesGrow(cfg, s, r);
    if s.addonCtl.FinalizePut? {
      BeganGrows(s, r, s.addonCtl.d);
    }
  }

  lemma DeleteAppKeeps(cfg: Config, s: State)
    requires InRange(s) && Inv(cfg, s) && s.addonCtl.DeleteApp?
    ensures Inv(cfg, DoDeleteApp(s, s.addonCtl.start))
  {
    HistoriesGrow(cfg, s, DoDeleteApp(s, s.addonCtl.start));
  }

  lemma QuietKeeps(cfg: Config, s: State, step: AddonStep)
    requires InRange(s) && Inv(cfg, s)
    requires Quiet(step)
    ensures Inv(cfg, StepAddon(cfg, s, step))
  {
    QuietMoves(cfg, s, step);
    MoveKeeps(cfg, s, StepAddon(cfg, s, step));
  }

  predicate Quiet(step: AddonStep) {
    || step.Fail? || step.ReadForFinalizer? || step.ReadForUpdate? || step.GiveUpOnApp? || step.ReadForStatus?
    || step.CheckGone? || step.ReadForRelease?
  }

  /** The next worker has no draft, or one with the status hash of this draft and nothing more to show. */
  predicate Onwards(w: AddonWorker, v: AddonWorker) {
    || DraftOf(v).None?
    || (DraftOf(w).Some? && DraftOf(v).value.snap == DraftOf(w).value.snap
        && DraftOf(v).value.status.valuesHash == DraftOf(w).value.status.valuesHash
        && (v.StatusGet? || v.StatusPut? || v.UpdatePut?
            || ((v.FinalizePut? || v.Check?) && w.FinalizeGet? && v.d == w.d)))
  }

  lemma QuietMoves(cfg: Config, s: State, step: AddonStep)
    requires InRange(s) && Quiet(step)
    ensures var r := StepAddon(cfg, s, step);
            r == s || (r == s.(addonCtl := r.addonCtl) && Onwards(s.addonCtl, r.addonCtl))
  {
  }

  lemma MoveKeeps(cfg: Config, s: State, r: State)
    requires Inv(cfg, s) && r == s.(addonCtl := r.addonCtl) && (r == s || Onwards(s.addonCtl, r.addonCtl))
    ensures Inv(cfg, r)
  {
    if DraftOf(s.addonCtl).Some? {
      HashKept(cfg, s, DraftOf(s.addonCtl).value);
    }
  }

  lemma HashKept(cfg: Config, s: State, d: Draft)
    requires Inv(cfg, s) && DraftOf(s.addonCtl) == Some(d)
    ensures HashTraced(s.log, s.round + 1, d.status.valuesHash)
  {
    if HashTraced(s.log, s.round, d.status.valuesHash) {
      HashGrows(s.log, s.log, s.round, s.round + 1, d.status.valuesHash);
    }
  }

  lemma AddonStepKeeps(cfg: Config, s: State, step: AddonStep)
    requires InRange(s) && Inv(cfg, s)
    ensures Inv(cfg, StepAddon(cfg, s, step))
  {
    var w := s.addonCtl;
    match step
    case StartAddon => if w.Idle? { StartKeeps(cfg, s); }
    case CheckGate(cluster) => if w.Check? { GateKeeps(cfg, s, cluster); }
    case ResolveValues(ok, lists) => if w.Resolve? { ResolveKeeps(cfg, s, ok, lists); }
    case LookForApp => if w.Look? { LookKeeps(cfg, s); }
    case FetchApp => if w.Fetch? { FetchKeeps(cfg, s); }
    case CreateApp => if w.Create? { CreateKeeps(cfg, s); }
    case PutUpdate => if w.UpdatePut? { PutUpdateKeeps(cfg, s); }
    case PutFinalizer => WriteAddonKeeps(cfg, s, step);
    case PutStatus => WriteAddonKeeps(cfg, s, step);
    case PutRelease => WriteAddonKeeps(cfg, s, step);
    case DeleteAppStep => if w.DeleteApp? { DeleteAppKeeps(cfg, s); }
    case _ => QuietKeeps(cfg, s, step);
  }

  lemma {:induction false} RunKeeps(cfg: Config, steps: seq<Step>)
    ensures Inv(cfg, Run(cfg, steps))
  {
    if steps != [] {
      var s := Run(cfg, steps[..|steps| - 1]);
      RunKeeps(cfg, steps[..|steps| - 1]);
      match steps[|steps| - 1]
      case ByAddon(a) => AddonStepKeeps(cfg, s, a);
      case ByPhase(p) => PhaseStepKeeps(cfg, s, p);
      case ByEnv(e) => EnvStepKeeps(cfg, s, e);
    }
  }

  lemma GroundedJustified(cfg: Config, addons: Versions, log: Log, e: Event)
    requires Grounded(cfg, addons, log, e)
    ensures Justified(cfg, addons, log, e) <==>
            && (e.cluster.app.Found? ==> AllMet(cfg.engine, e.snap.spec.initDependencies, e.cluster))
            && (e.sawApp ==> StableHash(e))
  {
  }

  /** In every run, a creation is justified by what came before iff neither gate was passed over: the
      dependencies are met though the check saw an Application, and the hash is stable though the later look
      saw one. */
  lemma CreationIsGatedIff(cfg: Config, steps: seq<Step>, i: nat)
    requires i < |Run(cfg, steps).log| && Run(cfg, steps).log[i].Created?
    ensures var s := Run(cfg, steps);
            var e := s.log[i];
            Justified(cfg, s.addons, s.log[..i], e) <==>
            && (e.cluster.app.Found? ==> AllMet(cfg.engine, e.snap.spec.initDependencies, e.cluster))
            && (e.sawApp ==> StableHash(e))
  {
    var s := Run(cfg, steps);
    RunKeeps(cfg, steps);
    assert JustifiedAt(cfg, s.addons, s.log, i);
    GroundedJustified(cfg, s.addons, s.log[..i], s.log[i]);
  }

  /** So every creation by a reconcile that saw no Application is. */
  lemma CreationIsGated(cfg: Config, steps: seq<Step>, i: nat)
    requires i < |Run(cfg, steps).log| && SawNone(Run(cfg, steps).log[i])
    ensures var s := Run(cfg, steps); Justified(cfg, s.addons, s.log[..i], s.log[i])
  {
    CreationIsGatedIff(cfg, steps, i);
  }

  /** The first creation of a run always is one of these. */
  lemma FirstCreationSawNone(cfg: Config, steps: seq<Step>, i: nat)
    requires i < |Run(cfg, steps).log| && Run(cfg, steps).log[i].Created?
    requires forall k | 0 <= k < i :: !Run(cfg, steps).log[k].Created?
    ensures SawNone(Run(cfg, steps).log[i])
  {
    RunKeeps(cfg, steps);
    assert JustifiedAt(cfg, Run(cfg, steps).addons, Run(cfg, steps).log, i);
  }
}
