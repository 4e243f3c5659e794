/** The Addon and AddonPhase controllers, Argo CD and users as one interleaved state machine over a
    versioned store (internal/controller/addon/controller.go, internal/controller/addonphase/controller.go).

    Every stored object keeps all its versions. A cached read shows the version at the view, which only
    moves forward; an Update names the version it read and fails unless that is still the last one; a
    status patch carries no version. Each controller reconciles the one key serially, and every read or
    write of the store is a step of its own. */
module AddonModel {
  import opened Wrappers
  import opened Documents
  import opened Aggregation
  import opened Dependencies
  import A = Applications
  import R = Rules
  import F = Fnv

  type Selectors = seq<ValuesSelector>

  /** YAML marshalling, hashing of the values, JSON of a selector list: not part of this model. */
  datatype Config = Config(
    name: string, builder: A.Builder, engine: R.Engine,
    marshal: Doc -> string, valuesHash: Doc -> string, encode: Selectors -> seq<F.Byte>)

  /** Conditions are kept as "has status True"; their reasons and times are in module Conditions. */
  datatype AddonStatus = AddonStatus(
    observedGeneration: nat, phaseSelectors: Selectors, valuesHash: string, observedHash: string,
    deployed: bool, ready: bool, degraded: bool, synced: bool, healthy: bool)

  const NEW_ADDON_STATUS := AddonStatus(0, [], "", "", false, false, false, false, false)

  /** foreign: some other party's finalizer is present. */
  datatype Addon = Addon(
    spec: A.AddonSpec, generation: nat, paused: bool, deleting: bool, finalizer: bool, foreign: bool,
    status: AddonStatus)

  datatype Phase = Phase(
    rules: seq<R.Rule>, deleting: bool, finalizer: bool, foreign: bool, statuses: seq<R.RuleStatus>)

  datatype Writer = User | AddonController | PhaseController

  datatype AddonVersion = AddonVersion(content: Option<Addon>, writer: Writer)

  /** The local copy a reconcile works on: the version it started from and its status so far. */
  datatype Draft = Draft(start: nat, snap: Addon, status: AddonStatus)

  datatype Built = Built(lists: Listings, values: Doc, previousHash: string, hash: string)

  datatype AddonWorker =
    | Idle
    | FinalizeGet(d: Draft)
    | FinalizePut(d: Draft, at: nat)
    | Check(d: Draft)
    | Resolve(d: Draft, cluster: Cluster)
    | Look(d: Draft, cluster: Cluster, built: Built)
    | Fetch(d: Draft, cluster: Cluster, built: Built, sawApp: bool)
    | Create(d: Draft, cluster: Cluster, built: Built, sawApp: bool)
    | UpdateGet(d: Draft, built: Built)
    | UpdatePut(d: Draft, built: Built, at: nat)
    | StatusGet(d: Draft)
    | StatusPut(d: Draft, at: nat)
    | DeleteApp(start: nat)
    | AwaitGone(start: nat)
    | ReleaseGet(start: nat)
    | ReleasePut(start: nat, at: nat)

  function DraftOf(w: AddonWorker): Option<Draft> {
    if w.Idle? || w.DeleteApp? || w.AwaitGone? || w.ReleaseGet? || w.ReleasePut? then None else Some(w.d)
  }

  datatype PhaseWorker =
    | PhaseIdle
    | PhaseFinalizeGet(start: nat)
    | PhaseFinalizePut(start: nat, at: nat)
    | Evaluating(start: nat)
    | PatchGet(start: nat, statuses: seq<R.RuleStatus>, active: Selectors)
    | Patch(start: nat, statuses: seq<R.RuleStatus>, active: Selectors, base: Selectors)
    | PhaseStatusGet(start: nat, statuses: seq<R.RuleStatus>)
    | PhaseStatusPut(start: nat, statuses: seq<R.RuleStatus>, at: nat)
    | SnapshotPut(start: nat)
    | ClearGet
    | ClearPatch(base: Selectors)
    | PhaseReleaseGet
    | PhaseReleasePut(at: nat)

  /** What happened, in order; only the properties look at it. */
  datatype Event =
    | Aggregated(round: nat, hash: string)
    | Translated(round: nat, spec: A.AddonSpec, selectors: Selectors, lists: Listings, values: Doc, app: A.App)
    | NotVisible(round: nat, spec: A.AddonSpec)  // the Application to create exists, but is not in view
    | Created(round: nat, snap: Addon, cluster: Cluster, sawApp: bool, previousHash: string, hash: string)
    | Latched(start: nat, rules: seq<R.Rule>, evaluation: R.Evaluation, read: AddonStatus)
    | ClearRead(version: nat, found: Option<Selectors>)  // version: the last Addon version then

  datatype State = State(
    addons: seq<AddonVersion>, addonView: nat,
    phases: seq<Option<Phase>>, phaseView: nat,
    apps: seq<Option<A.App>>, appView: nat,
    addonCtl: AddonWorker, phaseCtl: PhaseWorker,
    round: nat, log: seq<Event>)

  const INIT := State([AddonVersion(None, User)], 0, [None], 0, [None], 0, Idle, PhaseIdle, 0, [])

  predicate InRange(s: State) {
    s.addonView < |s.addons| && s.phaseView < |s.phases| && s.appView < |s.apps|
  }

  /** Histories and views only move forward. */
  ghost predicate Grows(s: State, r: State) {
    && InRange(r)
    && s.addons <= r.addons && s.phases <= r.phases && s.apps <= r.apps && s.log <= r.log
    && s.addonView <= r.addonView && s.phaseView <= r.phaseView && s.appView <= r.appView
  }

  function LastAddon(s: State): Option<Addon>
    requires InRange(s)
  {
    s.addons[|s.addons| - 1].content
  }

  function LastPhase(s: State): Option<Phase>
    requires InRange(s)
  {
    s.phases[|s.phases| - 1]
  }

  function LastApp(s: State): Option<A.App>
    requires InRange(s)
  {
    s.apps[|s.apps| - 1]
  }

  function SeenAddon(s: State): Option<Addon>
    requires InRange(s)
  {
    s.addons[s.addonView].content
  }

  // ---- Local status changes of one Addon reconcile ----

  function SetReady(st: AddonStatus): AddonStatus {
    st.(ready := true, degraded := false)
  }

  function SetProgressing(st: AddonStatus): AddonStatus {
    st.(ready := false, degraded := false)
  }

  function SetDegraded(st: AddonStatus): AddonStatus {
    st.(ready := false, degraded := true)
  }

  function Translate(cfg: Config, st: AddonStatus, app: A.App): AddonStatus {
    st.(synced := A.ComparedToCurrent(app) && app.status.sync == A.Synced, healthy := app.status.health == A.Healthy,
        observedHash := F.SelectorsHash(cfg.encode, st.phaseSelectors))
  }

  /** The closing decision of Reconcile: a Degraded condition from an earlier reconcile is kept until
      the Application is both Synced and Healthy. */
  function Settle(st: AddonStatus): AddonStatus {
    if st.synced && st.healthy then SetReady(st).(deployed := true)
    else if !st.degraded then SetProgressing(st)
    else st
  }

  /** Leave the reconcile through updateStatus. */
  function Finish(d: Draft, st: AddonStatus): AddonWorker {
    StatusGet(d.(status := st.(observedGeneration := d.snap.generation)))
  }

  function Desired(cfg: Config, d: Draft, built: Built): A.App {
    A.Build(cfg.builder, cfg.name, d.snap.spec, cfg.marshal(built.values))
  }

  function WriteAddon(s: State, content: Option<Addon>, writer: Writer): State {
    s.(addons := s.addons + [AddonVersion(content, writer)])
  }

  /** An object that is being deleted disappears with its last finalizer. */
  function StoredApp(app: A.App): Option<A.App> {
    if app.terminating && app.finalizers == [] then None else Some(app)
  }

  function WriteApp(s: State, content: Option<A.App>): State {
    s.(apps := s.apps + [content])
  }

  function WritePhase(s: State, content: Option<Phase>): State {
    s.(phases := s.phases + [content])
  }

  function Record(s: State, e: Event): State {
    s.(log := s.log + [e])
  }

  /** translateApplicationStatus on the Application as last written or read, then the closing decision. */
  function TranslateAndFinish(cfg: Config, s: State, d: Draft, built: Built, app: A.App): State {
    Record(s, Translated(s.round, d.snap.spec, d.status.phaseSelectors, built.lists, built.values, app))
    .(addonCtl := Finish(d, Settle(Translate(cfg, d.status, app))))
  }

  // ---- Steps of the Addon controller ----

  datatype AddonStep =
    | Fail                                // any error return or crash
    | StartAddon
    | ReadForFinalizer
    | PutFinalizer
    | CheckGate(cluster: Cluster)
    | ResolveValues(sourcesOk: bool, lists: Listings)
    | LookForApp
    | FetchApp
    | CreateApp
    | ReadForUpdate
    | PutUpdate
    | GiveUpOnApp                         // any other error of reconcileApplication
    | ReadForStatus(at: nat, others: bool)  // others: a part of the status not modelled here changed
    | PutStatus
    | DeleteAppStep
    | CheckGone
    | ReadForRelease
    | PutRelease

  // Classes of steps: the way to the Application, the steps on it, the way out, and the writes.

  predicate Early(step: AddonStep) {
    step.Fail? || step.ReadForFinalizer? || step.CheckGate? || step.ResolveValues? || step.LookForApp?
  }

  predicate OnApp(step: AddonStep) {
    step.FetchApp? || step.CreateApp? || step.PutUpdate?
  }

  predicate Late(step: AddonStep) {
    || step.ReadForUpdate? || step.GiveUpOnApp? || step.ReadForStatus?
    || step.DeleteAppStep? || step.CheckGone? || step.ReadForRelease?
  }

  predicate Writing(step: AddonStep) {
    step.PutFinalizer? || step.PutStatus? || step.PutRelease?
  }

  ghost function StepAddon(cfg: Config, s: State, step: AddonStep): (r: State)
    requires InRange(s)
    ensures Grows(s, r)
  {
    var w := s.addonCtl;
    match step
    case Fail => s.(addonCtl := Idle)
    case StartAddon => if w.Idle? then DoStart(s) else s
    case ReadForFinalizer => if w.FinalizeGet? then DoReadForFinalizer(s, w.d) else s
    case PutFinalizer => if w.FinalizePut? then DoPutFinalizer(s, w.d, w.at) else s
    case CheckGate(cluster) => if w.Check? then DoCheckGate(cfg, s, w.d, cluster) else s
    case ResolveValues(ok, lists) => if w.Resolve? then DoResolve(cfg, s, w.d, w.cluster, ok, lists) else s
    case LookForApp => if w.Look? then DoLook(s, w.d, w.cluster, w.built) else s
    case FetchApp => if w.Fetch? then DoFetch(cfg, s, w.d, w.cluster, w.built, w.sawApp) else s
    case CreateApp => if w.Create? then DoCreate(cfg, s, w.d, w.cluster, w.built, w.sawApp) else s
    case ReadForUpdate => if w.UpdateGet? then DoReadForUpdate(s, w.d, w.built) else s
    case PutUpdate => if w.UpdatePut? then DoPutUpdate(cfg, s, w.d, w.built, w.at) else s
    case GiveUpOnApp => DoGiveUp(s)
    case ReadForStatus(at, others) => if w.StatusGet? then DoReadForStatus(s, w.d, at, others) else s
    case PutStatus => if w.StatusPut? then DoPutStatus(s, w.d, w.at) else s
    case DeleteAppStep => if w.DeleteApp? then DoDeleteApp(s, w.start) else s
    case CheckGone => if w.AwaitGone? then DoCheckGone(s, w.start) else s
    case ReadForRelease => if w.ReleaseGet? then DoReadForRelease(s, w.start) else s
    case PutRelease => if w.ReleasePut? then DoPutRelease(s, w.start, w.at) else s
  }

  function DoReadForUpdate(s: State, d: Draft, built: Built): (r: State)
    requires InRange(s)
    ensures Grows(s, r)
  {
    s.(addonCtl := if s.apps[s.appView].Some? then UpdatePut(d, built, s.appView)
                   else Finish(d, SetDegraded(d.status)))
  }

  function DoGiveUp(s: State): (r: State)
    requires InRange(s)
    ensures Grows(s, r)
  {
    var w := s.addonCtl;
    if w.Fetch? || w.Create? || w.UpdateGet? || w.UpdatePut?
    then s.(addonCtl := Finish(w.d, SetDegraded(w.d.status))) else s
  }

  function DoCheckGone(s: State, start: nat): (r: State)
    requires InRange(s)
    ensures Grows(s, r)
  {
    s.(addonCtl := if s.apps[s.appView].Some? then Idle else ReleaseGet(start))
  }

  function DoReadForRelease(s: State, start: nat): (r: State)
    requires InRange(s)
    ensures Grows(s, r)
  {
    s.(addonCtl := if SeenAddon(s).Some? then ReleasePut(start, s.addonView) else Idle)
  }

  function DoStart(s: State): (r: State)
    requires InRange(s)
    ensures Grows(s, r)
  {
    match SeenAddon(s)
    case None => s
    case Some(a) =>
      var d := Draft(s.addonView, a, a.status);
      s.(round := s.round + 1,
         addonCtl := if a.deleting then if a.finalizer then DeleteApp(s.addonView) else Idle
                     else if a.finalizer then Check(d)
                     else FinalizeGet(d))
  }

  function DoReadForFinalizer(s: State, d: Draft): (r: State)
    requires InRange(s)
    ensures Grows(s, r)
  {
    match SeenAddon(s)
    case None => s.(addonCtl := Idle)
    case Some(a) => s.(addonCtl := if a.finalizer then Check(d) else FinalizePut(d, s.addonView))
  }

  /** The API server refuses a new finalizer on an object that is being deleted. */
  function DoPutFinalizer(s: State, d: Draft, at: nat): (r: State)
    requires InRange(s)
    ensures Grows(s, r)
  {
    if at != |s.addons| - 1 then s.(addonCtl := FinalizeGet(d))
    else
      match s.addons[at].content
      case None => s.(addonCtl := Idle)
      case Some(a) =>
        if a.deleting then s.(addonCtl := Idle)
        else WriteAddon(s, Some(a.(finalizer := true)), AddonController).(addonCtl := Check(d))
  }

  ghost function DoCheckGate(cfg: Config, s: State, d: Draft, cluster: Cluster): (r: State)
    requires InRange(s)
    ensures Grows(s, r)
  {
    if d.snap.paused then s.(addonCtl := Finish(d, d.status.(ready := false)))
    else if cluster.app.Found? && s.apps[s.appView].None? then s
    else if cluster.app.Missing? && s.apps[s.appView].Some? then s
    else if GateOpens(cfg.engine, d.snap.spec.initDependencies, cluster) then s.(addonCtl := Resolve(d, cluster))
    else s.(addonCtl := Finish(d, SetProgressing(d.status)))
  }

  function DoResolve(cfg: Config, s: State, d: Draft, cluster: Cluster, ok: bool, lists: Listings): (r: State)
    requires InRange(s)
    ensures Grows(s, r)
  {
    if !ok then s.(addonCtl := Finish(d, SetDegraded(d.status)))
    else
      match Aggregate(d.snap.spec.valuesSelectors, d.status.phaseSelectors, lists)
      case Err(_) => s.(addonCtl := Finish(d, SetDegraded(d.status)))
      case Ok(values) =>
        var hash := cfg.valuesHash(values);
        Record(s, Aggregated(s.round, hash))
        .(addonCtl := Look(d.(status := d.status.(valuesHash := hash)), cluster,
                           Built(lists, values, d.status.valuesHash, hash)))
  }

  /** The stabilisation gate: create only when two successive aggregations agree. */
  function DoLook(s: State, d: Draft, cluster: Cluster, built: Built): (r: State)
    requires InRange(s)
    ensures Grows(s, r)
  {
    var seen := s.apps[s.appView].Some?;
    if !seen && (built.previousHash == "" || built.previousHash != built.hash) then
      s.(addonCtl := Finish(d, SetProgressing(d.status)))
    else s.(addonCtl := Fetch(d, cluster, built, seen))
  }

  function DoFetch(cfg: Config, s: State, d: Draft, cluster: Cluster, built: Built, sawApp: bool): (r: State)
    requires InRange(s)
    ensures Grows(s, r)
  {
    match s.apps[s.appView]
    case None => s.(addonCtl := Create(d, cluster, built, sawApp))
    case Some(app) =>
      if A.NeedsUpdate(app, Desired(cfg, d, built)) then s.(addonCtl := UpdateGet(d, built))
      else TranslateAndFinish(cfg, s, d, built, app)
  }

  /** An Application that exists but is not visible yet ends the reconcile without a translation. */
  function DoCreate(cfg: Config, s: State, d: Draft, cluster: Cluster, built: Built, sawApp: bool): (r: State)
    requires InRange(s)
    ensures Grows(s, r)
  {
    if LastApp(s).Some? then Record(s, NotVisible(s.round, d.snap.spec)).(addonCtl := Finish(d, Settle(d.status)))
    else
      var app := A.Stored(Desired(cfg, d, built));
      TranslateAndFinish(
        cfg, Record(WriteApp(s, Some(app)), Created(s.round, d.snap, cluster, sawApp, built.previousHash, built.hash)),
        d, built, app)
  }

  function DoPutUpdate(cfg: Config, s: State, d: Draft, built: Built, at: nat): (r: State)
    requires InRange(s)
    ensures Grows(s, r)
  {
    if at != |s.apps| - 1 || s.apps[at].None? then s.(addonCtl := UpdateGet(d, built))
    else
      var app := A.Stored(A.Updated(s.apps[at].value, Desired(cfg, d, built)));
      TranslateAndFinish(cfg, WriteApp(s, StoredApp(app)), d, built, app)
  }

  /** applyStatus re-reads directly, so it may see any version from the view on; an unchanged status is
      not written. */
  function DoReadForStatus(s: State, d: Draft, at: nat, others: bool): (r: State)
    requires InRange(s)
    ensures Grows(s, r)
  {
    if d.status == d.snap.status && !others then s.(addonCtl := Idle)
    else if at < s.addonView || at >= |s.addons| then s
    else s.(addonCtl := if s.addons[at].content.Some? then StatusPut(d, at) else Idle)
  }

  function DoPutStatus(s: State, d: Draft, at: nat): (r: State)
    requires InRange(s)
    ensures Grows(s, r)
  {
    if at != |s.addons| - 1 || s.addons[at].content.None? then s.(addonCtl := StatusGet(d))
    else
      var a := s.addons[at].content.value;
      WriteAddon(s, Some(a.(status := d.status.(phaseSelectors := a.status.phaseSelectors))), AddonController)
      .(addonCtl := Idle)
  }

  function DoDeleteApp(s: State, start: nat): (r: State)
    requires InRange(s)
    ensures Grows(s, r)
  {
    match LastApp(s)
    case None => s.(addonCtl := AwaitGone(start))
    case Some(app) => WriteApp(s, StoredApp(app.(terminating := true))).(addonCtl := AwaitGone(start))
  }

  function DoPutRelease(s: State, start: nat, at: nat): (r: State)
    requires InRange(s)
    ensures Grows(s, r)
  {
    if at != |s.addons| - 1 || s.addons[at].content.None? then s.(addonCtl := ReleaseGet(start))
    else
      var a := s.addons[at].content.value;
      WriteAddon(s, if a.deleting && !a.foreign then None else Some(a.(finalizer := false)), AddonController)
      .(addonCtl := Idle)
  }

  // ---- Steps of the AddonPhase controller ----

  predicate SelectorsEqual(a: Selectors, b: Selectors) {
    (|a| == 0 && |b| == 0) || a == b
  }

  /** The guard of latchDeployedRules: the verdict read was computed for the selectors now active. */
  predicate VerdictFits(cfg: Config, active: Selectors, read: AddonStatus) {
    && SelectorsEqual(read.phaseSelectors, active)
    && read.observedHash != "" && read.observedHash == F.SelectorsHash(cfg.encode, active)
    && read.synced && read.healthy
  }

  function Stamp(status: R.RuleStatus): R.RuleStatus {
    if status.matched && !status.deployed then status.(deployed := true) else status
  }

  function Stamped(
    cfg: Config, statuses: seq<R.RuleStatus>, active: Selectors, read: AddonStatus): (r: seq<R.RuleStatus>)
    ensures |r| == |statuses|
  {
    if VerdictFits(cfg, active, read)
    then seq(|statuses|, i requires 0 <= i < |statuses| => Stamp(statuses[i]))
    else statuses
  }

  datatype PhaseStep =
    | PhaseFail
    | StartPhase
    | PhaseReadForFinalizer
    | PhasePutFinalizer
    | EvaluatePhase(snap: R.Snapshot, now: int)
    | ReadForPatch
    | SendPatch
    | PhaseReadForStatus(at: nat, others: bool)
    | PhasePutStatus
    | PutSnapshot
    | ReadForClear
    | SendClear
    | PhaseReadForRelease
    | PhasePutRelease

  function StepPhase(cfg: Config, s: State, step: PhaseStep): (r: State)
    requires InRange(s)
    ensures Grows(s, r)
  {
    var w := s.phaseCtl;
    match step
    case PhaseFail => s.(phaseCtl := PhaseIdle)
    case StartPhase => if w.PhaseIdle? then DoStartPhase(s) else s
    case PhaseReadForFinalizer => if w.PhaseFinalizeGet? then DoPhaseReadForFinalizer(s, w.start) else s
    case PhasePutFinalizer => if w.PhaseFinalizePut? then DoPhasePutFinalizer(s, w.start, w.at) else s
    case EvaluatePhase(snap, now) => if w.Evaluating? then DoEvaluate(cfg, s, w.start, snap, now) else s
    case ReadForPatch => if w.PatchGet? then DoReadForPatch(s, w.start, w.statuses, w.active) else s
    case SendPatch => if w.Patch? then DoPatch(s, w.start, w.statuses, w.active, w.base) else s
    case PhaseReadForStatus(at, others) =>
      if w.PhaseStatusGet? then DoPhaseReadForStatus(s, w.start, w.statuses, at, others) else s
    case PhasePutStatus => if w.PhaseStatusPut? then DoPhasePutStatus(s, w.start, w.statuses, w.at) else s
    case PutSnapshot => if w.SnapshotPut? then DoPutSnapshot(s, w.start) else s
    case ReadForClear => if w.ClearGet? then DoReadForClear(s) else s
    case SendClear => if w.ClearPatch? then DoClear(s, w.base) else s
    case PhaseReadForRelease => if w.PhaseReleaseGet? then DoPhaseReadForRelease(s) else s
    case PhasePutRelease => if w.PhaseReleasePut? then DoPhasePutRelease(s, w.at) else s
  }

  function DoReadForPatch(s: State, start: nat, statuses: seq<R.RuleStatus>, active: Selectors): (r: State)
    requires InRange(s)
    ensures Grows(s, r)
  {
    s.(phaseCtl := if SeenAddon(s).Some? then Patch(start, statuses, active, SeenAddon(s).value.status.phaseSelectors)
                   else PhaseStatusGet(start, statuses))
  }

  /** A status update of the snapshot itself, for the conditions only; stale snapshots conflict. */
  function DoPutSnapshot(s: State, start: nat): (r: State)
    requires InRange(s)
    ensures Grows(s, r)
  {
    if start != |s.phases| - 1 then s.(phaseCtl := PhaseIdle)
    else WritePhase(s, s.phases[start]).(phaseCtl := PhaseIdle)
  }

  function DoReadForClear(s: State): (r: State)
    requires InRange(s)
    ensures Grows(s, r)
  {
    var read := if SeenAddon(s).Some? then Some(SeenAddon(s).value.status.phaseSelectors) else None;
    Record(s, ClearRead(|s.addons| - 1, read))
    .(phaseCtl := if read.Some? then ClearPatch(read.value) else PhaseReleaseGet)
  }

  function DoPhaseReadForRelease(s: State): (r: State)
    requires InRange(s)
    ensures Grows(s, r)
  {
    s.(phaseCtl := if s.phases[s.phaseView].Some? then PhaseReleasePut(s.phaseView) else PhaseIdle)
  }

  function DoStartPhase(s: State): (r: State)
    requires InRange(s)
    ensures Grows(s, r)
  {
    match s.phases[s.phaseView]
    case None => s
    case Some(p) =>
      s.(phaseCtl := if p.deleting then if p.finalizer then ClearGet else PhaseIdle
                     else if p.finalizer then Evaluating(s.phaseView)
                     else PhaseFinalizeGet(s.phaseView))
  }

  function DoPhaseReadForFinalizer(s: State, start: nat): (r: State)
    requires InRange(s)
    ensures Grows(s, r)
  {
    match s.phases[s.phaseView]
    case None => s.(phaseCtl := PhaseIdle)
    case Some(p) =>
      s.(phaseCtl := if p.finalizer then Evaluating(start) else PhaseFinalizePut(start, s.phaseView))
  }

  function DoPhasePutFinalizer(s: State, start: nat, at: nat): (r: State)
    requires InRange(s)
    ensures Grows(s, r)
  {
    if at != |s.phases| - 1 then s.(phaseCtl := PhaseFinalizeGet(start))
    else
      match s.phases[at]
      case None => s.(phaseCtl := PhaseIdle)
      case Some(p) =>
        if p.deleting then s.(phaseCtl := PhaseIdle)
        else WritePhase(s, Some(p.(finalizer := true))).(phaseCtl := Evaluating(start))
  }

  /** Evaluation of the rules of the version the reconcile started from, against the Addon the cache shows. */
  function DoEvaluate(cfg: Config, s: State, start: nat, snap: R.Snapshot, now: int): (r: State)
    requires InRange(s)
    ensures Grows(s, r)
  {
    if start >= |s.phases| || s.phases[start].None? then s.(phaseCtl := PhaseIdle)
    else if SeenAddon(s).None? then s.(phaseCtl := SnapshotPut(start))
    else
      var p, read := s.phases[start].value, SeenAddon(s).value.status;
      match R.Evaluate(cfg.engine, p.rules, R.PreviousStatuses(p.statuses), snap, now)
      case Err(_) => s.(phaseCtl := SnapshotPut(start))
      case Ok(ev) =>
        var statuses := Stamped(cfg, ev.statuses, ev.selectors, read);
        Record(s, Latched(start, p.rules, ev, read))
        .(phaseCtl := if SelectorsEqual(read.phaseSelectors, ev.selectors) then PhaseStatusGet(start, statuses)
                      else PatchGet(start, statuses, ev.selectors))
  }

  /** A merge patch computed from the cached copy: empty when that copy already has the selectors. */
  function Patched(live: Addon, base: Selectors, selectors: Selectors): Addon {
    if base == selectors then live else live.(status := live.status.(phaseSelectors := selectors))
  }

  function DoPatch(s: State, start: nat, statuses: seq<R.RuleStatus>, active: Selectors, base: Selectors): (r: State)
    requires InRange(s)
    ensures Grows(s, r)
  {
    match LastAddon(s)
    case None => s.(phaseCtl := SnapshotPut(start))
    case Some(live) =>
      WriteAddon(s, Some(Patched(live, base, active)), PhaseController).(phaseCtl := PhaseStatusGet(start, statuses))
  }

  /** As for the Addon, a status equal to that of the start version is not written. */
  function DoPhaseReadForStatus(
    s: State, start: nat, statuses: seq<R.RuleStatus>, at: nat, others: bool): (r: State)
    requires InRange(s)
    ensures Grows(s, r)
  {
    if start < |s.phases| && s.phases[start].Some? && s.phases[start].value.statuses == statuses && !others then
      s.(phaseCtl := PhaseIdle)
    else if at < s.phaseView || at >= |s.phases| then s
    else s.(phaseCtl := if s.phases[at].Some? then PhaseStatusPut(start, statuses, at) else PhaseIdle)
  }

  function DoPhasePutStatus(s: State, start: nat, statuses: seq<R.RuleStatus>, at: nat): (r: State)
    requires InRange(s)
    ensures Grows(s, r)
  {
    if at != |s.phases| - 1 || s.phases[at].None? then s.(phaseCtl := PhaseStatusGet(start, statuses))
    else WritePhase(s, Some(s.phases[at].value.(statuses := statuses))).(phaseCtl := PhaseIdle)
  }

  function DoClear(s: State, base: Selectors): (r: State)
    requires InRange(s)
    ensures Grows(s, r)
  {
    match LastAddon(s)
    case None => s.(phaseCtl := PhaseIdle)
    case Some(live) =>
      WriteAddon(s, Some(Patched(live, base, [])), PhaseController).(phaseCtl := PhaseReleaseGet)
  }

  function DoPhasePutRelease(s: State, at: nat): (r: State)
    requires InRange(s)
    ensures Grows(s, r)
  {
    if at != |s.phases| - 1 || s.phases[at].None? then s.(phaseCtl := PhaseReleaseGet)
    else
      var p := s.phases[at].value;
      WritePhase(s, if p.deleting && !p.foreign then None else Some(p.(finalizer := false))).(phaseCtl := PhaseIdle)
  }

  // ---- Steps of users, Argo CD and the cache ----

  datatype EnvStep =
    | CreateAddon(spec: A.AddonSpec, paused: bool, foreign: bool)
    | EditAddon(spec: A.AddonSpec, paused: bool, foreign: bool)
    | DeleteAddon
    | CreatePhase(rules: seq<R.Rule>, foreign: bool)
    | EditPhase(rules: seq<R.Rule>, foreign: bool)
    | DeletePhase
    | ArgoCompare(read: nat, sync: A.SyncCode, health: A.HealthCode)
    | EditApp(labels: map<string, string>, finalizers: seq<string>, appSpec: A.Spec)
    | DeleteAppByOthers
    | AdvanceViews(addons: nat, phases: nat, apps: nat)

  function StepEnv(s: State, step: EnvStep): (r: State)
    requires InRange(s)
    ensures Grows(s, r)
  {
    match step
    case CreateAddon(spec, paused, foreign) =>
      if LastAddon(s).Some? then s
      else WriteAddon(s, Some(Addon(spec, 1, paused, false, false, foreign, NEW_ADDON_STATUS)), User)
    case EditAddon(spec, paused, foreign) => DoEditAddon(s, spec, paused, foreign)
    case DeleteAddon => DoDeleteAddon(s)
    case CreatePhase(rules, foreign) =>
      if LastPhase(s).Some? then s else WritePhase(s, Some(Phase(rules, false, false, foreign, [])))
    case EditPhase(rules, foreign) => DoEditPhase(s, rules, foreign)
    case DeletePhase => DoDeletePhase(s)
    case ArgoCompare(read, sync, health) => DoArgoCompare(s, read, sync, health)
    case EditApp(labels, finalizers, spec) =>
      if LastApp(s).None? then s
      else WriteApp(s, StoredApp(LastApp(s).value.(labels := labels, finalizers := finalizers, spec := spec)))
    case DeleteAppByOthers =>
      if LastApp(s).None? then s else WriteApp(s, StoredApp(LastApp(s).value.(terminating := true)))
    case AdvanceViews(addons, phases, apps) =>
      if s.addonView <= addons < |s.addons| && s.phaseView <= phases < |s.phases| && s.appView <= apps < |s.apps|
      then s.(addonView := addons, phaseView := phases, appView := apps) else s
  }

  function DoEditAddon(s: State, spec: A.AddonSpec, paused: bool, foreign: bool): (r: State)
    requires InRange(s)
    ensures Grows(s, r)
  {
    match LastAddon(s)
    case None => s
    case Some(a) =>
      var edited := a.(spec := spec, paused := paused, foreign := foreign,
                       generation := if spec == a.spec then a.generation else a.generation + 1);
      WriteAddon(s, if a.deleting && !a.finalizer && !foreign then None else Some(edited), User)
  }

  /** The deletion mark counts as a new generation. */
  function DoDeleteAddon(s: State): (r: State)
    requires InRange(s)
    ensures Grows(s, r)
  {
    match LastAddon(s)
    case None => s
    case Some(a) =>
      var marked := a.(deleting := true, generation := if a.deleting then a.generation else a.generation + 1);
      WriteAddon(s, if !a.finalizer && !a.foreign then None else Some(marked), User)
  }

  function DoEditPhase(s: State, rules: seq<R.Rule>, foreign: bool): (r: State)
    requires InRange(s)
    ensures Grows(s, r)
  {
    match LastPhase(s)
    case None => s
    case Some(p) =>
      WritePhase(s, if p.deleting && !p.finalizer && !foreign then None
                    else Some(p.(rules := rules, foreign := foreign)))
  }

  function DoDeletePhase(s: State): (r: State)
    requires InRange(s)
    ensures Grows(s, r)
  {
    match LastPhase(s)
    case None => s
    case Some(p) => WritePhase(s, if !p.finalizer && !p.foreign then None else Some(p.(deleting := true)))
  }

  /** Argo CD reports any verdict, but truthfully about the source it read from some stored version. */
  function DoArgoCompare(s: State, read: nat, sync: A.SyncCode, health: A.HealthCode): (r: State)
    requires InRange(s)
    ensures Grows(s, r)
  {
    if read >= |s.apps| || s.apps[read].None? || s.apps[read].value.spec.source.None? || LastApp(s).None? then s
    else
      var seen := s.apps[read].value.spec;
      WriteApp(s, Some(LastApp(s).value.(
        status := A.AppStatus(A.ComparedTo(seen.source.value, seen.sources), sync, health))))
  }

  // ---- Runs ----

  datatype Step = ByAddon(addonStep: AddonStep) | ByPhase(phaseStep: PhaseStep) | ByEnv(envStep: EnvStep)

  ghost function Apply(cfg: Config, s: State, step: Step): (r: State)
    requires InRange(s)
    ensures Grows(s, r)
  {
    match step
    case ByAddon(a) => StepAddon(cfg, s, a)
    case ByPhase(p) => StepPhase(cfg, s, p)
    case ByEnv(e) => StepEnv(s, e)
  }

  /** Every reachable state is the end of such a run. */
  ghost function Run(cfg: Config, steps: seq<Step>): (r: State)
    ensures InRange(r)
  {
    if steps == [] then INIT else Apply(cfg, Run(cfg, steps[..|steps| - 1]), steps[|steps| - 1])
  }
}
