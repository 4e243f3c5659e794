/** The verdict stored on an Addon is one translation: its Synced, its Healthy and its observed hash always
    come together from one Application, which carried the source built from the values aggregated under
    the hashed selectors. */
module LatchSafety {
  import opened Wrappers
  import opened Aggregation
  import opened Dependencies
  import opened AddonModel
  import A = Applications
  import R = Rules
  import F = Fnv

  type Log = seq<Event>

  // ---- The verdict on an Addon always comes from one translation ----

  predicate TripleOf(cfg: Config, st: AddonStatus, e: Event) {
    && e.Translated?
    && st.synced == (A.ComparedToCurrent(e.app) && e.app.status.sync == A.Synced)
    && st.healthy == (e.app.status.health == A.Healthy)
    && st.observedHash == F.SelectorsHash(cfg.encode, e.selectors)
  }

  /** (Synced, Healthy, observed hash) is untouched or is exactly what one translation set. */
  ghost predicate TripleFrom(cfg: Config, log: Log, st: AddonStatus) {
    || (!st.synced && !st.healthy && st.observedHash == "")
    || exists i | 0 <= i < |log| :: TripleOf(cfg, st, log[i])
  }

  /** The translated Application carries the Addon's source with the values that were aggregated under the
      translated selectors. */
  predicate WellBuilt(cfg: Config, e: Event) {
    e.Translated? ==>
      && Aggregate(e.spec.valuesSelectors, e.selectors, e.lists) == Ok(e.values)
      && e.app.spec.source.Some?
      && A.Carries(e.app.spec.source.value, cfg.builder, e.spec, cfg.marshal(e.values))
  }

  /** Argo CD compared against nothing yet, or against a source some stored version had. */
  ghost predicate Truthful(apps: seq<Option<A.App>>, app: A.App) {
    || app.status.comparedTo.source == A.NO_SOURCE
    || exists k | 0 <= k < |apps| ::
         apps[k].Some? && apps[k].value.spec.source == Some(app.status.comparedTo.source)
  }

  function BuiltOf(w: AddonWorker): Option<Built> {
    if w.Look? || w.Fetch? || w.Create? || w.UpdateGet? || w.UpdatePut? then Some(w.built) else None
  }

  predicate BuiltRight(d: Draft, built: Built) {
    Aggregate(d.snap.spec.valuesSelectors, d.status.phaseSelectors, built.lists) == Ok(built.values)
  }

  ghost predicate AddonsTraced(cfg: Config, addons: seq<AddonVersion>, log: Log) {
    forall i | 0 <= i < |addons| && addons[i].content.Some? :: TripleFrom(cfg, log, addons[i].content.value.status)
  }

  ghost predicate WorkerTraced(cfg: Config, log: Log, w: AddonWorker) {
    && (DraftOf(w).Some? ==> TripleFrom(cfg, log, DraftOf(w).value.status))
    && (BuiltOf(w).Some? ==> BuiltRight(DraftOf(w).value, BuiltOf(w).value))
  }

  ghost predicate AppsTruthful(apps: seq<Option<A.App>>) {
    forall i | 0 <= i < |apps| && apps[i].Some? :: Truthful(apps, apps[i].value)
  }

  ghost predicate TranslationsSound(cfg: Config, apps: seq<Option<A.App>>, log: Log) {
    forall i | 0 <= i < |log| :: WellBuilt(cfg, log[i]) && (log[i].Translated? ==> Truthful(apps, log[i].app))
  }

  ghost predicate AddonInv(cfg: Config, s: State) {
    && AddonsTraced(cfg, s.addons, s.log) && WorkerTraced(cfg, s.log, s.addonCtl)
    && AppsTruthful(s.apps) && TranslationsSound(cfg, s.apps, s.log)
  }

  lemma TripleGrows(cfg: Config, log: Log, more: Log, st: AddonStatus)
    requires log <= more && TripleFrom(cfg, log, st)
    ensures TripleFrom(cfg, more, st)
  {
    if !(!st.synced && !st.healthy && st.observedHash == "") {
      var i :| 0 <= i < |log| && TripleOf(cfg, st, log[i]);
      assert more[i] == log[i];
    }
  }

  lemma TruthGrows(apps: seq<Option<A.App>>, more: seq<Option<A.App>>, app: A.App)
    requires apps <= more && Truthful(apps, app)
    ensures Truthful(more, app)
  {
    if app.status.comparedTo.source != A.NO_SOURCE {
      var k :| 0 <= k < |apps| && apps[k].Some? && apps[k].value.spec.source == Some(app.status.comparedTo.source);
      assert more[k] == apps[k];
    }
  }

  /** Appending stored versions and events keeps everything said about the earlier ones. */
  lemma HistoriesGrow(cfg: Config, s: State, r: State)
    requires AddonInv(cfg, s)
    requires s.addons <= r.addons && s.apps <= r.apps && s.log <= r.log
    requires forall i | |s.addons| <= i < |r.addons| && r.addons[i].content.Some? ::
               TripleFrom(cfg, r.log, r.addons[i].content.value.status)
    requires forall i | |s.apps| <= i < |r.apps| && r.apps[i].Some? :: Truthful(r.apps, r.apps[i].value)
    requires forall i | |s.log| <= i < |r.log| ::
               WellBuilt(cfg, r.log[i]) && (r.log[i].Translated? ==> Truthful(r.apps, r.log[i].app))
    ensures AddonsTraced(cfg, r.addons, r.log) && AppsTruthful(r.apps) && TranslationsSound(cfg, r.apps, r.log)
  {
    forall i | 0 <= i < |s.addons| && r.addons[i].content.Some?
      ensures TripleFrom(cfg, r.log, r.addons[i].content.value.status)
    {
      assert r.addons[i] == s.addons[i];
      TripleGrows(cfg, s.log, r.log, s.addons[i].content.value.status);
    }
    forall i | 0 <= i < |s.apps| && r.apps[i].Some?
      ensures Truthful(r.apps, r.apps[i].value)
    {
      assert r.apps[i] == s.apps[i];
      TruthGrows(s.apps, r.apps, s.apps[i].value);
    }
    forall i | 0 <= i < |s.log|
      ensures WellBuilt(cfg, r.log[i]) && (r.log[i].Translated? ==> Truthful(r.apps, r.log[i].app))
    {
      assert r.log[i] == s.log[i];
      if s.log[i].Translated? {
        TruthGrows(s.apps, r.apps, s.log[i].app);
      }
    }
  }

  lemma WorkerGrows(cfg: Config, log: Log, more: Log, w: AddonWorker)
    requires log <= more && WorkerTraced(cfg, log, w)
    ensures WorkerTraced(cfg, more, w)
  {
    if DraftOf(w).Some? {
      TripleGrows(cfg, log, more, DraftOf(w).value.status);
    }
  }

  /** One translation step, whatever was written just before it. */
  lemma TranslateKeeps(cfg: Config, s: State, d: Draft, built: Built, app: A.App)
    requires AddonsTraced(cfg, s.addons, s.log) && AppsTruthful(s.apps) && TranslationsSound(cfg, s.apps, s.log)
    requires BuiltRight(d, built) && Truthful(s.apps, app) && app.spec.source.Some?
    requires A.Carries(app.spec.source.value, cfg.builder, d.snap.spec, cfg.marshal(built.values))
    ensures AddonInv(cfg, TranslateAndFinish(cfg, s, d, built, app))
  {
    var e := Translated(s.round, d.snap.spec, d.status.phaseSelectors, built.lists, built.values, app);
    TranslationRecorded(cfg, s, e);
    SettledTriple(cfg, s.log, d.status, app, d.snap.generation, e);
    FinishedKeeps(cfg, Record(s, e), d, Settle(Translate(cfg, d.status, app)));
  }

  lemma FinishedKeeps(cfg: Config, s: State, d: Draft, st: AddonStatus)
    requires AddonsTraced(cfg, s.addons, s.log) && AppsTruthful(s.apps) && TranslationsSound(cfg, s.apps, s.log)
    requires TripleFrom(cfg, s.log, st.(observedGeneration := d.snap.generation))
    ensures AddonInv(cfg, s.(addonCtl := Finish(d, st)))
  {
  }

  lemma TranslationRecorded(cfg: Config, s: State, e: Event)
    requires AddonsTraced(cfg, s.addons, s.log) && AppsTruthful(s.apps) && TranslationsSound(cfg, s.apps, s.log)
    requires e.Translated? && WellBuilt(cfg, e) && Truthful(s.apps, e.app)
    ensures AddonsTraced(cfg, s.addons, s.log + [e]) && TranslationsSound(cfg, s.apps, s.log + [e])
  {
    HistoriesGrow(cfg, s.(addonCtl := Idle), Record(s, e));
  }

  /** The closing decision leaves the translated verdict alone. */
  lemma SettledTriple(cfg: Config, log: Log, st: AddonStatus, app: A.App, generation: nat, e: Event)
    requires e.Translated? && e.app == app && e.selectors == st.phaseSelectors
    ensures TripleFrom(cfg, log + [e], Settle(Translate(cfg, st, app)).(observedGeneration := generation))
  {
    assert (log + [e])[|log|] == e;
    assert TripleOf(cfg, Settle(Translate(cfg, st, app)).(observedGeneration := generation), e);
  }

  lemma FetchKeeps(cfg: Config, s: State)
    requires InRange(s) && AddonInv(cfg, s) && s.addonCtl.Fetch? && cfg.name != ""
    ensures AddonInv(cfg, DoFetch(cfg, s, s.addonCtl.d, s.addonCtl.cluster, s.addonCtl.built, s.addonCtl.sawApp))
  {
    var d, built := s.addonCtl.d, s.addonCtl.built;
    if s.apps[s.appView].Some? && !A.NeedsUpdate(s.apps[s.appView].value, Desired(cfg, d, built)) {
      A.UpToDateCarries(s.apps[s.appView].value, cfg.builder, cfg.name, d.snap.spec, cfg.marshal(built.values));
      TranslateKeeps(cfg, s, d, built, s.apps[s.appView].value);
    }
  }

  lemma WriteAppKeeps(cfg: Config, s: State, content: Option<A.App>)
    requires AddonInv(cfg, s) && (content.Some? ==> Truthful(s.apps, content.value))
    ensures AddonInv(cfg, WriteApp(s, content))
  {
    if content.Some? {
      TruthGrows(s.apps, s.apps + [content], content.value);
    }
    HistoriesGrow(cfg, s, WriteApp(s, content));
  }

  lemma WriteAddonKeeps(cfg: Config, s: State, content: Option<Addon>, writer: Writer)
    requires AddonInv(cfg, s) && (content.Some? ==> TripleFrom(cfg, s.log, content.value.status))
    ensures AddonInv(cfg, WriteAddon(s, content, writer))
  {
    HistoriesGrow(cfg, s, WriteAddon(s, content, writer));
  }

  lemma RecordKeeps(cfg: Config, s: State, e: Event)
    requires AddonInv(cfg, s) && !e.Translated?
    ensures AddonInv(cfg, Record(s, e))
  {
    HistoriesGrow(cfg, s, Record(s, e));
    WorkerGrows(cfg, s.log, s.log + [e], s.addonCtl);
  }

  lemma CreateKeeps(cfg: Config, s: State)
    requires InRange(s) && AddonInv(cfg, s) && s.addonCtl.Create?
    ensures AddonInv(cfg, DoCreate(cfg, s, s.addonCtl.d, s.addonCtl.cluster, s.addonCtl.built, s.addonCtl.sawApp))
  {
    var d, built := s.addonCtl.d, s.addonCtl.built;
    if LastApp(s).None? {
      var app := A.Stored(Desired(cfg, d, built));
      var e := Created(s.round, d.snap, s.addonCtl.cluster, s.addonCtl.sawApp, built.previousHash, built.hash);
      WriteAppKeeps(cfg, s, Some(app));
      RecordKeeps(cfg, WriteApp(s, Some(app)), e);
      TranslateKeeps(cfg, Record(WriteApp(s, Some(app)), e), d, built, app);
    } else {
      RecordKeeps(cfg, s, NotVisible(s.round, d.snap.spec));
      FinishKeeps(cfg, Record(s, NotVisible(s.round, d.snap.spec)), d, Settle(d.status));
    }
  }

  lemma PutUpdateKeeps(cfg: Config, s: State)
    requires InRange(s) && AddonInv(cfg, s) && s.addonCtl.UpdatePut?
    ensures AddonInv(cfg, DoPutUpdate(cfg, s, s.addonCtl.d, s.addonCtl.built, s.addonCtl.at))
  {
    var d, built, at := s.addonCtl.d, s.addonCtl.built, s.addonCtl.at;
    if at == |s.apps| - 1 && s.apps[at].Some? {
      var app := A.Stored(A.Updated(s.apps[at].value, Desired(cfg, d, built)));
      assert Truthful(s.apps, app) by {
        assert Truthful(s.apps, s.apps[at].value);
      }
      WriteAppKeeps(cfg, s, StoredApp(app));
      TruthGrows(s.apps, WriteApp(s, StoredApp(app)).apps, app);
      TranslateKeeps(cfg, WriteApp(s, StoredApp(app)), d, built, app);
    }
  }

  lemma PutStatusKeeps(cfg: Config, s: State)
    requires InRange(s) && AddonInv(cfg, s) && s.addonCtl.StatusPut?
    ensures AddonInv(cfg, DoPutStatus(s, s.addonCtl.d, s.addonCtl.at))
  {
    var d, at := s.addonCtl.d, s.addonCtl.at;
    if at == |s.addons| - 1 && s.addons[at].content.Some? {
      var a := s.addons[at].content.value;
      var st := d.status.(phaseSelectors := a.status.phaseSelectors);
      SameTriple(cfg, s.log, d.status, st);
      WriteAddonKeeps(cfg, s, Some(a.(status := st)), AddonController);
    }
  }

  lemma SameTriple(cfg: Config, log: Log, st: AddonStatus, like: AddonStatus)
    requires TripleFrom(cfg, log, st)
    requires like.synced == st.synced && like.healthy == st.healthy && like.observedHash == st.observedHash
    ensures TripleFrom(cfg, log, like)
  {
    if !(!st.synced && !st.healthy && st.observedHash == "") {
      var i :| 0 <= i < |log| && TripleOf(cfg, st, log[i]);
      assert TripleOf(cfg, like, log[i]);
    }
  }

  lemma FinishKeeps(cfg: Config, s: State, d: Draft, st: AddonStatus)
    requires AddonInv(cfg, s) && TripleFrom(cfg, s.log, d.status)
    requires st.synced == d.status.synced && st.healthy == d.status.healthy && st.observedHash == d.status.observedHash
    ensures AddonInv(cfg, s.(addonCtl := Finish(d, st)))
  {
    SameTriple(cfg, s.log, d.status, st.(observedGeneration := d.snap.generation));
  }

  lemma ResolveKeeps(cfg: Config, s: State, ok: bool, lists: Listings)
    requires InRange(s) && AddonInv(cfg, s) && s.addonCtl.Resolve?
    ensures AddonInv(cfg, DoResolve(cfg, s, s.addonCtl.d, s.addonCtl.cluster, ok, lists))
  {
    var d := s.addonCtl.d;
    FinishKeeps(cfg, s, d, SetDegraded(d.status));
    var result := Aggregate(d.snap.spec.valuesSelectors, d.status.phaseSelectors, lists);
    if result.Ok? {
      var hash := cfg.valuesHash(result.value);
      RecordKeeps(cfg, s, Aggregated(s.round, hash));
      SameTriple(cfg, s.log + [Aggregated(s.round, hash)], d.status, d.status.(valuesHash := hash));
    }
  }

  lemma AddonStepKeeps(cfg: Config, s: State, step: AddonStep)
    requires InRange(s) && AddonInv(cfg, s) && cfg.name != ""
    ensures AddonInv(cfg, StepAddon(cfg, s, step))
  {
    var w := s.addonCtl;
    match step
    case FetchApp => if w.Fetch? { FetchKeeps(cfg, s); }
    case CreateApp => if w.Create? { CreateKeeps(cfg, s); }
    case PutUpdate => if w.UpdatePut? { PutUpdateKeeps(cfg, s); }
    case PutStatus => if w.StatusPut? { PutStatusKeeps(cfg, s); }
    case ResolveValues(ok, lists) => if w.Resolve? { ResolveKeeps(cfg, s, ok, lists); }
    case PutFinalizer => if w.FinalizePut? { PutFinalizerKeeps(cfg, s); }
    case PutRelease => if w.ReleasePut? { PutReleaseKeeps(cfg, s); }
    case DeleteAppStep => if w.DeleteApp? { DeleteAppKeeps(cfg, s); }
    case StartAddon =>
    case CheckGate(cluster) => if w.Check? { GateKeeps(cfg, s, cluster); }
    case LookForApp => if w.Look? { LookKeeps(cfg, s); }
    case ReadForUpdate => GivingUpKeeps(cfg, s, step);
    case GiveUpOnApp => GivingUpKeeps(cfg, s, step);
    case _ => ReadStepKeeps(cfg, s, step);
  }

  /** The reads before a write. */
  lemma ReadStepKeeps(cfg: Config, s: State, step: AddonStep)
    requires InRange(s) && AddonInv(cfg, s)
    requires ReadStep(step)
    ensures AddonInv(cfg, StepAddon(cfg, s, step))
  {
    ReadStepMoves(cfg, s, step);
    MoveKeeps(cfg, s, StepAddon(cfg, s, step));
  }

  predicate ReadStep(step: AddonStep) {
    step.Fail? || step.ReadForFinalizer? || step.ReadForStatus? || step.CheckGone? || step.ReadForRelease?
  }

  /** At most the worker moves, and it keeps its draft, drops it, or gives the App up. */
  ghost predicate WorkerMoves(w: AddonWorker, v: AddonWorker) {
    || v == w
    || (BuiltOf(v).None? && (DraftOf(v).None? || DraftOf(v) == DraftOf(w)))
    || (v.UpdatePut? && w.UpdateGet? && v.d == w.d && v.built == w.built)
    || (v.StatusGet? && DraftOf(w).Some? && SameVerdict(v.d.status, DraftOf(w).value.status))
  }

  predicate SameVerdict(a: AddonStatus, b: AddonStatus) {
    a.synced == b.synced && a.healthy == b.healthy && a.observedHash == b.observedHash
  }

  lemma ReadStepMoves(cfg: Config, s: State, step: AddonStep)
    requires InRange(s) && ReadStep(step)
    ensures var r := StepAddon(cfg, s, step);
            r == s.(addonCtl := r.addonCtl) && WorkerMoves(s.addonCtl, r.addonCtl)
  {
  }

  lemma GivingUpMoves(cfg: Config, s: State, step: AddonStep)
    requires InRange(s) && (step.ReadForUpdate? || step.GiveUpOnApp?)
    ensures var r := StepAddon(cfg, s, step);
            r == s.(addonCtl := r.addonCtl) && WorkerMoves(s.addonCtl, r.addonCtl)
  {
  }

  lemma MoveKeeps(cfg: Config, s: State, r: State)
    requires AddonInv(cfg, s) && r == s.(addonCtl := r.addonCtl) && WorkerMoves(s.addonCtl, r.addonCtl)
    ensures AddonInv(cfg, r)
  {
    if DraftOf(s.addonCtl).Some? && DraftOf(r.addonCtl).Some? && r.addonCtl.StatusGet? {
      SameTriple(cfg, s.log, DraftOf(s.addonCtl).value.status, r.addonCtl.d.status);
    }
  }

  /** The decisions that may end the reconcile early. */
  lemma GateKeeps(cfg: Config, s: State, cluster: Cluster)
    requires InRange(s) && AddonInv(cfg, s) && s.addonCtl.Check?
    ensures AddonInv(cfg, DoCheckGate(cfg, s, s.addonCtl.d, cluster))
  {
    var d := s.addonCtl.d;
    FinishKeeps(cfg, s, d, SetProgressing(d.status));
    FinishKeeps(cfg, s, d, d.status.(ready := false));
  }

  lemma LookKeeps(cfg: Config, s: State)
    requires InRange(s) && AddonInv(cfg, s) && s.addonCtl.Look?
    ensures AddonInv(cfg, DoLook(s, s.addonCtl.d, s.addonCtl.cluster, s.addonCtl.built))
  {
    FinishKeeps(cfg, s, s.addonCtl.d, SetProgressing(s.addonCtl.d.status));
  }

  lemma GivingUpKeeps(cfg: Config, s: State, step: AddonStep)
    requires InRange(s) && AddonInv(cfg, s) && (step.ReadForUpdate? || step.GiveUpOnApp?)
    ensures AddonInv(cfg, StepAddon(cfg, s, step))
  {
    GivingUpMoves(cfg, s, step);
    MoveKeeps(cfg, s, StepAddon(cfg, s, step));
  }

  lemma PutFinalizerKeeps(cfg: Config, s: State)
    requires InRange(s) && AddonInv(cfg, s) && s.addonCtl.FinalizePut?
    ensures AddonInv(cfg, DoPutFinalizer(s, s.addonCtl.d, s.addonCtl.at))
  {
    var at := s.addonCtl.at;
    if at == |s.addons| - 1 && s.addons[at].content.Some? {
      var a := s.addons[at].content.value;
      WriteAddonKeeps(cfg, s, Some(a.(finalizer := true)), AddonController);
    }
  }

  lemma PutReleaseKeeps(cfg: Config, s: State)
    requires InRange(s) && AddonInv(cfg, s) && s.addonCtl.ReleasePut?
    ensures AddonInv(cfg, DoPutRelease(s, s.addonCtl.start, s.addonCtl.at))
  {
    var at := s.addonCtl.at;
    if at == |s.addons| - 1 && s.addons[at].content.Some? {
      var a := s.addons[at].content.value;
      WriteAddonKeeps(cfg, s, if a.deleting && !a.foreign then None else Some(a.(finalizer := false)), AddonController);
    }
  }

  lemma DeleteAppKeeps(cfg: Config, s: State)
    requires InRange(s) && AddonInv(cfg, s) && s.addonCtl.DeleteApp?
    ensures AddonInv(cfg, DoDeleteApp(s, s.addonCtl.start))
  {
    if LastApp(s).Some? {
      var app := LastApp(s).value.(terminating := true);
      assert Truthful(s.apps, app) by {
        assert Truthful(s.apps, LastApp(s).value);
      }
      WriteAppKeeps(cfg, s, StoredApp(app));
    }
  }

  // ---- Steps of the other parties ----

  lemma SameAddonSide(cfg: Config, s: State, r: State)
    requires AddonInv(cfg, s) && r.addons == s.addons && r.apps == s.apps && r.log == s.log && r.addonCtl == s.addonCtl
    ensures AddonInv(cfg, r)
  {
  }

  lemma PatchKeeps(cfg: Config, s: State, base: Selectors, selectors: Selectors)
    requires InRange(s) && AddonInv(cfg, s) && LastAddon(s).Some?
    ensures AddonInv(cfg, WriteAddon(s, Some(Patched(LastAddon(s).value, base, selectors)), PhaseController))
  {
    var live := LastAddon(s).value;
    SameTriple(cfg, s.log, live.status, Patched(live, base, selectors).status);
    WriteAddonKeeps(cfg, s, Some(Patched(live, base, selectors)), PhaseController);
  }

  lemma PhaseStepKeeps(cfg: Config, s: State, step: PhaseStep)
    requires InRange(s) && AddonInv(cfg, s)
    ensures AddonInv(cfg, StepPhase(cfg, s, step))
  {
    var w := s.phaseCtl;
    match step
    case EvaluatePhase(snap, now) =>
      if w.Evaluating? {
        EvaluationKeeps(cfg, s, w.start, snap, now);
      }
    case ReadForClear =>
      if w.ClearGet? {
        ClearReadKeeps(cfg, s);
      }
    case SendPatch =>
      if w.Patch? && LastAddon(s).Some? {
        PatchKeeps(cfg, s, w.base, w.active);
      }
    case SendClear =>
      if w.ClearPatch? && LastAddon(s).Some? {
        PatchKeeps(cfg, s, w.base, []);
      }
    case _ => SameAddonSide(cfg, s, StepPhase(cfg, s, step));
  }

  lemma ClearReadKeeps(cfg: Config, s: State)
    requires InRange(s) && AddonInv(cfg, s)
    ensures AddonInv(cfg, DoReadForClear(s))
  {
    var r := DoReadForClear(s);
    RecordKeeps(cfg, s, r.log[|s.log|]);
    SameAddonSide(cfg, Record(s, r.log[|s.log|]), r);
  }

  lemma EvaluationKeeps(cfg: Config, s: State, start: nat, snap: R.Snapshot, now: int)
    requires InRange(s) && AddonInv(cfg, s)
    ensures AddonInv(cfg, DoEvaluate(cfg, s, start, snap, now))
  {
    var r := DoEvaluate(cfg, s, start, snap, now);
    if r.log == s.log {
      SameAddonSide(cfg, s, r);
    } else {
      RecordKeeps(cfg, s, r.log[|s.log|]);
      SameAddonSide(cfg, Record(s, r.log[|s.log|]), r);
    }
  }

  lemma EditAppKeeps(cfg: Config, s: State, app: A.App)
    requires InRange(s) && AddonInv(cfg, s) && LastApp(s).Some? && app.status == LastApp(s).value.status
    ensures AddonInv(cfg, WriteApp(s, StoredApp(app)))
  {
    assert Truthful(s.apps, LastApp(s).value);
    WriteAppKeeps(cfg, s, StoredApp(app));
  }

  lemma AddonEditKeeps(cfg: Config, s: State, step: EnvStep)
    requires InRange(s) && AddonInv(cfg, s) && (step.CreateAddon? || step.EditAddon? || step.DeleteAddon?)
    ensures AddonInv(cfg, StepEnv(s, step))
  {
    var r := StepEnv(s, step);
    if r.addons != s.addons {
      var v := r.addons[|s.addons|];
      WriteAddonKeeps(cfg, s, v.content, v.writer);
    }
  }

  lemma EnvStepKeeps(cfg: Config, s: State, step: EnvStep)
    requires InRange(s) && AddonInv(cfg, s)
    ensures AddonInv(cfg, StepEnv(s, step))
  {
    var r := StepEnv(s, step);
    match step
    case EditApp(labels, finalizers, spec) =>
      if LastApp(s).Some? {
        EditAppKeeps(cfg, s, LastApp(s).value.(labels := labels, finalizers := finalizers, spec := spec));
      }
    case DeleteAppByOthers =>
      if LastApp(s).Some? {
        EditAppKeeps(cfg, s, LastApp(s).value.(terminating := true));
      }
    case ArgoCompare(read, sync, health) =>
      if r != s {
        WriteAppKeeps(cfg, s, r.apps[|s.apps|]);
      }
    case CreateAddon(_, _, _) => AddonEditKeeps(cfg, s, step);
    case EditAddon(_, _, _) => AddonEditKeeps(cfg, s, step);
    case DeleteAddon => AddonEditKeeps(cfg, s, step);
    case _ => SameAddonSide(cfg, s, r);
  }

  lemma {:induction false} RunKeeps(cfg: Config, steps: seq<Step>)
    requires cfg.name != ""
    ensures AddonInv(cfg, Run(cfg, steps))
  {
    if steps != [] {
      var s := Run(cfg, steps[..|steps| - 1]);
      RunKeeps(cfg, steps[..|steps| - 1]);
      match steps[|steps| - 1]
      case ByAddon(a) => AddonStepKeeps(cfg, s, a);
      case ByPhase(p) => PhaseStepKeeps(cfg, s, p);
      case ByEnv(e) => EnvStepKeeps(cfg, s, e);
    }
  }

  /** In every reachable state the stored verdict is untouched or is what one translation read, all three
      parts together, of an Application that carried the source built from the values aggregated under the
      selectors whose hash is stored. */
  lemma VerdictIsOneTranslation(cfg: Config, steps: seq<Step>)
    requires cfg.name != ""
    ensures
      var s := Run(cfg, steps);
      LastAddon(s).Some? ==>
        var st := LastAddon(s).value.status;
        || (!st.synced && !st.healthy && st.observedHash == "")
        || exists j :: 0 <= j < |s.log| && TripleOf(cfg, st, s.log[j]) && WellBuilt(cfg, s.log[j])
  {
    var s := Run(cfg, steps);
    RunKeeps(cfg, steps);
    if LastAddon(s).Some? {
      assert TripleFrom(cfg, s.log, LastAddon(s).value.status);
    }
  }
}
