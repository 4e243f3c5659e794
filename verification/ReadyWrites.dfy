/** What stands behind a Ready status of an Addon: exactly when a reconcile ends Ready, and the translation,
    or the missing one, that every stored Ready goes back to. */
module ReadyWrites {
  import opened Wrappers
  import opened Aggregation
  import opened AddonModel
  import opened Ownership
  import opened Latches
  import A = Applications

  type Log = seq<Event>

  // ---- The events that end a reconcile with a verdict ----

  predicate Ends(e: Event) {
    e.Translated? || e.NotVisible?
  }

  predicate EndsRound(e: Event, round: nat) {
    Ends(e) && e.round == round
  }

  predicate Named(source: A.Source) {
    source.repoURL != "" || source.chart != "" || source.path != ""
  }

  /** Argo CD reported Synced and Healthy, of exactly the one source of an Application for this very spec. */
  predicate Good(e: Event, spec: A.AddonSpec) {
    && e.Translated? && e.spec == spec
    && e.app.status.sync == A.Synced && e.app.status.health == A.Healthy
    && e.app.spec.sources == [] && e.app.status.comparedTo.sources == []
    && e.app.spec.source == Some(e.app.status.comparedTo.source) && Named(e.app.status.comparedTo.source)
  }

  ghost predicate Unended(log: Log, round: nat) {
    forall k | 0 <= k < |log| :: !EndsRound(log[k], round)
  }

  ghost predicate VerifiedNow(log: Log, round: nat, spec: A.AddonSpec) {
    exists k | 0 <= k < |log| :: EndsRound(log[k], round) && Good(log[k], spec)
  }

  ghost predicate NotVisibleNow(log: Log, round: nat) {
    exists k | 0 <= k < |log| :: EndsRound(log[k], round) && log[k].NotVisible?
  }

  /** Whatever ends this round is about this spec. */
  ghost predicate RoundSpec(log: Log, round: nat, spec: A.AddonSpec) {
    forall k | 0 <= k < |log| && EndsRound(log[k], round) :: log[k].spec == spec
  }

  lemma OtherEvent(log: Log, e: Event, round: nat, spec: A.AddonSpec)
    requires !EndsRound(e, round)
    ensures Unended(log + [e], round) <==> Unended(log, round)
    ensures VerifiedNow(log + [e], round, spec) <==> VerifiedNow(log, round, spec)
    ensures NotVisibleNow(log + [e], round) <==> NotVisibleNow(log, round)
  {
    var more := log + [e];
    assert forall k | 0 <= k < |log| :: more[k] == log[k];
  }

  lemma FirstEnd(log: Log, e: Event, round: nat, spec: A.AddonSpec)
    requires Unended(log, round) && EndsRound(e, round)
    ensures VerifiedNow(log + [e], round, spec) <==> Good(e, spec)
    ensures NotVisibleNow(log + [e], round) <==> e.NotVisible?
    ensures e.spec == spec ==> RoundSpec(log + [e], round, spec)
  {
    var more := log + [e];
    assert forall k | 0 <= k < |log| :: more[k] == log[k];
    assert more[|log|] == e;
  }

  // ---- What the controller keeps ----

  predicate DegradedNotReady(st: AddonStatus) {
    st.degraded ==> !st.ready
  }

  /** The event is a verdict for this spec, or says that its Application could not be seen. */
  predicate Accounts(e: Event, spec: A.AddonSpec) {
    Good(e, spec) || (e.NotVisible? && e.spec == spec)
  }

  ghost predicate AccountedBy(vs: Versions, log: Log, i: nat, st: AddonStatus, start: nat, k: nat) {
    && start <= i < |vs| && k < |log| && vs[start].content.Some?
    && vs[start].content.value.generation == st.observedGeneration
    && Accounts(log[k], vs[start].content.value.spec)
  }

  /** The reconcile that wrote the status started, at or before version i, from the observed generation. */
  ghost predicate Accounted(vs: Versions, log: Log, i: nat, st: AddonStatus) {
    exists start: nat, k: nat :: AccountedBy(vs, log, i, st, start, k)
  }

  ghost predicate VersionOk(vs: Versions, log: Log, i: nat)
    requires i < |vs|
  {
    vs[i].content.Some? ==>
      var st := vs[i].content.value.status;
      DegradedNotReady(st) && (st.ready ==> Accounted(vs, log, i, st))
  }

  ghost predicate StoredOk(vs: Versions, log: Log) {
    forall i | 0 <= i < |vs| :: VersionOk(vs, log, i)
  }

  predicate Finished(w: AddonWorker) {
    w.StatusGet? || w.StatusPut?
  }

  predicate SameFlags(a: AddonStatus, b: AddonStatus) {
    a.ready == b.ready && a.degraded == b.degraded && a.synced == b.synced && a.healthy == b.healthy
  }

  /** Exactly when a reconcile ends Ready, and never both ways at once. */
  ghost predicate ReadyExplained(log: Log, round: nat, d: Draft) {
    && (d.status.ready <==>
        || VerifiedNow(log, round, d.snap.spec)
        || (NotVisibleNow(log, round) && d.snap.status.synced && d.snap.status.healthy))
    && !(VerifiedNow(log, round, d.snap.spec) && NotVisibleNow(log, round))
  }

  ghost predicate DraftOk(log: Log, round: nat, d: Draft, finished: bool) {
    && RoundSpec(log, round, d.snap.spec)
    && if finished
       then
         && ReadyExplained(log, round, d) && DegradedNotReady(d.status)
         && d.status.observedGeneration == d.snap.generation
       else Unended(log, round) && SameFlags(d.status, d.snap.status)
  }

  ghost predicate WorkerOk(vs: Versions, log: Log, round: nat, w: AddonWorker) {
    DraftOf(w).Some? ==>
      var d := DraftOf(w).value;
      && d.start < |vs| && vs[d.start].content == Some(d.snap) && DegradedNotReady(d.snap.status)
      && DraftOk(log, round, d, Finished(w))
  }

  ghost predicate PastRounds(log: Log, round: nat) {
    forall k | 0 <= k < |log| && Ends(log[k]) :: log[k].round <= round
  }

  ghost predicate Inv(s: State) {
    StoredOk(s.addons, s.log) && WorkerOk(s.addons, s.log, s.round, s.addonCtl) && PastRounds(s.log, s.round)
  }

  lemma AccountGrows(vs: Versions, us: Versions, log: Log, more: Log, i: nat, j: nat, st: AddonStatus, now: AddonStatus)
    requires vs <= us && log <= more && i <= j < |us| && now.observedGeneration == st.observedGeneration
    requires Accounted(vs, log, i, st)
    ensures Accounted(us, more, j, now)
  {
    var start: nat, k: nat :| AccountedBy(vs, log, i, st, start, k);
    assert us[start] == vs[start] && more[k] == log[k];
    assert AccountedBy(us, more, j, now, start, k);
  }

  lemma StoredGrows(vs: Versions, us: Versions, log: Log, more: Log)
    requires StoredOk(vs, log) && vs <= us && log <= more
    requires forall i | |vs| <= i < |us| :: VersionOk(us, more, i)
    ensures StoredOk(us, more)
  {
    forall i | 0 <= i < |vs|
      ensures VersionOk(us, more, i)
    {
      assert us[i] == vs[i] && VersionOk(vs, log, i);
      if vs[i].content.Some? && vs[i].content.value.status.ready {
        AccountGrows(vs, us, log, more, i, i, vs[i].content.value.status, us[i].content.value.status);
      }
    }
  }

  // ---- Steps that only move the worker ----

  /** The draft has left by a way that is not Ready, without a verdict. */
  predicate LeavesUnready(d: Draft, w: AddonWorker) {
    && w.StatusGet? && w.d.start == d.start && w.d.snap == d.snap && !w.d.status.ready
    && w.d.status.observedGeneration == d.snap.generation
  }

  predicate Carries(d: Draft, w: AddonWorker) {
    && DraftOf(w).Some? && !Finished(w)
    && DraftOf(w).value.start == d.start && DraftOf(w).value.snap == d.snap
    && SameFlags(DraftOf(w).value.status, d.status)
  }

  /** From one worker to the next, no version written and no verdict recorded. */
  predicate Moves(w: AddonWorker, v: AddonWorker) {
    || DraftOf(v).None?
    || (DraftOf(w).Some? && !Finished(w) && (Carries(DraftOf(w).value, v) || LeavesUnready(DraftOf(w).value, v)))
    || (Finished(w) && Finished(v) && v.d == w.d)
  }

  lemma MoveKeeps(vs: Versions, log: Log, round: nat, w: AddonWorker, v: AddonWorker)
    requires WorkerOk(vs, log, round, w) && Moves(w, v)
    ensures WorkerOk(vs, log, round, v)
  {
  }

  lemma EarlyMoves(cfg: Config, s: State, step: AddonStep)
    requires InRange(s) && Early(step) && !step.ResolveValues?
    ensures var r := StepAddon(cfg, s, step);
            r == s.(addonCtl := r.addonCtl) && Moves(s.addonCtl, r.addonCtl)
  {
  }

  lemma LateMoves(cfg: Config, s: State, step: AddonStep)
    requires InRange(s) && Late(step)
    ensures var r := StepAddon(cfg, s, step);
            r == s.(apps := r.apps, addonCtl := r.addonCtl) && Moves(s.addonCtl, r.addonCtl)
  {
  }

  lemma QuietMoves(s: State, r: State)
    requires Inv(s) && r.addons == s.addons && r.log == s.log && r.round == s.round && Moves(s.addonCtl, r.addonCtl)
    ensures Inv(r)
  {
    MoveKeeps(s.addons, s.log, s.round, s.addonCtl, r.addonCtl);
  }

  lemma StartKeeps(s: State)
    requires InRange(s) && Inv(s) && s.addonCtl.Idle?
    ensures Inv(DoStart(s))
  {
    var r := DoStart(s);
    if DraftOf(r.addonCtl).Some? {
      assert VersionOk(s.addons, s.log, s.addonView);
      assert Unended(s.log, r.round);
    }
  }

  // ---- Steps that record ----

  /** One event that is no verdict of this round. */
  lemma RecordKeeps(s: State, e: Event)
    requires InRange(s) && Inv(s) && !Ends(e)
    ensures Inv(Record(s, e))
  {
    StoredGrows(s.addons, s.addons, s.log, s.log + [e]);
    if DraftOf(s.addonCtl).Some? {
      OtherEvent(s.log, e, s.round, DraftOf(s.addonCtl).value.snap.spec);
    }
  }

  lemma ResolveMoves(cfg: Config, s: State, ok: bool, lists: Listings)
    requires InRange(s) && s.addonCtl.Resolve?
    ensures var w := s.addonCtl;
            var r := DoResolve(cfg, s, w.d, w.cluster, ok, lists);
            && r == s.(log := r.log, addonCtl := r.addonCtl) && Moves(w, r.addonCtl)
            && (r.log == s.log || exists hash :: r.log == s.log + [Aggregated(s.round, hash)])
  {
  }

  lemma ResolveKeeps(cfg: Config, s: State, ok: bool, lists: Listings)
    requires InRange(s) && Inv(s) && s.addonCtl.Resolve?
    ensures Inv(DoResolve(cfg, s, s.addonCtl.d, s.addonCtl.cluster, ok, lists))
  {
    var r := DoResolve(cfg, s, s.addonCtl.d, s.addonCtl.cluster, ok, lists);
    ResolveMoves(cfg, s, ok, lists);
    if r.log == s.log {
      QuietMoves(s, r);
    } else {
      var hash :| r.log == s.log + [Aggregated(s.round, hash)];
      RecordKeeps(s, Aggregated(s.round, hash));
      QuietMoves(Record(s, Aggregated(s.round, hash)), r);
    }
  }

  /** The closing decision on the flags of an undegraded or degraded, never both ready, status. */
  lemma SettleFlags(st: AddonStatus)
    requires DegradedNotReady(st)
    ensures Settle(st).ready <==> st.synced && st.healthy
    ensures DegradedNotReady(Settle(st))
  {
  }

  /** The event that ends the round, and the draft it leaves. */
  lemma EndKeeps(s: State, r: State, e: Event, d: Draft)
    requires InRange(s) && Inv(s) && DraftOf(s.addonCtl) == Some(d) && !Finished(s.addonCtl)
    requires EndsRound(e, s.round) && e.spec == d.snap.spec
    requires r.addons == s.addons && r.round == s.round && r.log == s.log + [e]
    requires r.addonCtl.StatusGet? && r.addonCtl.d.start == d.start && r.addonCtl.d.snap == d.snap
    requires r.addonCtl.d.status.observedGeneration == d.snap.generation && DegradedNotReady(r.addonCtl.d.status)
    requires r.addonCtl.d.status.ready <==>
             Good(e, d.snap.spec) || (e.NotVisible? && d.snap.status.synced && d.snap.status.healthy)
    ensures Inv(r)
  {
    StoredGrows(s.addons, s.addons, s.log, r.log);
    FirstEnd(s.log, e, s.round, d.snap.spec);
  }

  lemma TranslateKeeps(cfg: Config, s: State, d: Draft, built: Built, app: A.App)
    requires InRange(s) && Inv(s) && DraftOf(s.addonCtl) == Some(d) && !Finished(s.addonCtl)
    ensures Inv(TranslateAndFinish(cfg, s, d, built, app))
  {
    var e := Translated(s.round, d.snap.spec, d.status.phaseSelectors, built.lists, built.values, app);
    SettleFlags(Translate(cfg, d.status, app));
    EndKeeps(s, TranslateAndFinish(cfg, s, d, built, app), e, d);
  }

  lemma FetchKeeps(cfg: Config, s: State)
    requires InRange(s) && Inv(s) && s.addonCtl.Fetch?
    ensures Inv(DoFetch(cfg, s, s.addonCtl.d, s.addonCtl.cluster, s.addonCtl.built, s.addonCtl.sawApp))
  {
    var w := s.addonCtl;
    if s.apps[s.appView].Some? && !A.NeedsUpdate(s.apps[s.appView].value, Desired(cfg, w.d, w.built)) {
      TranslateKeeps(cfg, s, w.d, w.built, s.apps[s.appView].value);
    } else {
      FetchMoves(cfg, s);
      QuietMoves(s, DoFetch(cfg, s, w.d, w.cluster, w.built, w.sawApp));
    }
  }

  lemma FetchMoves(cfg: Config, s: State)
    requires InRange(s) && s.addonCtl.Fetch?
    requires s.apps[s.appView].Some? ==>
               A.NeedsUpdate(s.apps[s.appView].value, Desired(cfg, s.addonCtl.d, s.addonCtl.built))
    ensures var w := s.addonCtl;
            var r := DoFetch(cfg, s, w.d, w.cluster, w.built, w.sawApp);
            r == s.(addonCtl := r.addonCtl) && Moves(s.addonCtl, r.addonCtl)
  {
  }

  lemma AppWriteKeeps(s: State, content: Option<A.App>)
    requires InRange(s) && Inv(s)
    ensures Inv(WriteApp(s, content))
  {
  }

  lemma CreateKeeps(cfg: Config, s: State)
    requires InRange(s) && Inv(s) && s.addonCtl.Create?
    ensures Inv(DoCreate(cfg, s, s.addonCtl.d, s.addonCtl.cluster, s.addonCtl.built, s.addonCtl.sawApp))
  {
    var w := s.addonCtl;
    if LastApp(s).Some? {
      SettleFlags(w.d.status);
      var r := DoCreate(cfg, s, w.d, w.cluster, w.built, w.sawApp);
      EndKeeps(s, r, NotVisible(s.round, w.d.snap.spec), w.d);
    } else {
      var app := A.Stored(Desired(cfg, w.d, w.built));
      var a := WriteApp(s, Some(app));
      AppWriteKeeps(s, Some(app));
      var e := Created(s.round, w.d.snap, w.cluster, w.sawApp, w.built.previousHash, w.built.hash);
      RecordKeeps(a, e);
      TranslateKeeps(cfg, Record(a, e), w.d, w.built, app);
    }
  }

  lemma UpdateMoves(cfg: Config, s: State)
    requires InRange(s) && s.addonCtl.UpdatePut? && (s.addonCtl.at != |s.apps| - 1 || s.apps[s.addonCtl.at].None?)
    ensures var r := DoPutUpdate(cfg, s, s.addonCtl.d, s.addonCtl.built, s.addonCtl.at);
            r == s.(addonCtl := r.addonCtl) && Moves(s.addonCtl, r.addonCtl)
  {
  }

  lemma UpdateKeeps(cfg: Config, s: State)
    requires InRange(s) && Inv(s) && s.addonCtl.UpdatePut?
    ensures Inv(DoPutUpdate(cfg, s, s.addonCtl.d, s.addonCtl.built, s.addonCtl.at))
  {
    var w := s.addonCtl;
    if w.at == |s.apps| - 1 && s.apps[w.at].Some? {
      var app := A.Stored(A.Updated(s.apps[w.at].value, Desired(cfg, w.d, w.built)));
      AppWriteKeeps(s, StoredApp(app));
      TranslateKeeps(cfg, WriteApp(s, StoredApp(app)), w.d, w.built, app);
    } else {
      UpdateMoves(cfg, s);
      QuietMoves(s, DoPutUpdate(cfg, s, w.d, w.built, w.at));
    }
  }

  // ---- Steps that write the Addon ----

  /** One more version, with flags and observed generation of the one before, or accounted for by the draft. */
  lemma WriteKeeps(s: State, r: State)
    requires InRange(s) && Inv(s) && r.log == s.log && r.round == s.round && Moves(s.addonCtl, r.addonCtl)
    requires s.addons <= r.addons && |r.addons| == |s.addons| + 1 && VersionOk(r.addons, r.log, |s.addons|)
    ensures Inv(r)
  {
    StoredGrows(s.addons, r.addons, s.log, r.log);
    MoveKeeps(s.addons, s.log, s.round, s.addonCtl, r.addonCtl);
  }

  predicate SameReport(a: AddonStatus, b: AddonStatus) {
    SameFlags(a, b) && a.observedGeneration == b.observedGeneration
  }

  /** A version that is new, gone, or reports what the one before did. */
  lemma ReportCarried(vs: Versions, v: AddonVersion, log: Log)
    requires vs != [] && StoredOk(vs, log)
    requires v.content.Some? && v.content.value.status != NEW_ADDON_STATUS ==>
               && vs[|vs| - 1].content.Some?
               && SameReport(v.content.value.status, vs[|vs| - 1].content.value.status)
    ensures VersionOk(vs + [v], log, |vs|)
  {
    if v.content.Some? && v.content.value.status != NEW_ADDON_STATUS {
      var n := |vs| - 1;
      assert VersionOk(vs, log, n);
      if v.content.value.status.ready {
        AccountGrows(vs, vs + [v], log, log, n, |vs|, vs[n].content.value.status, v.content.value.status);
      }
    }
  }

  /** The draft's Ready is accounted for by the event that ended its round. */
  lemma DraftAccounted(s: State, w: AddonWorker, us: Versions)
    requires InRange(s) && WorkerOk(s.addons, s.log, s.round, w) && Finished(w) && w.d.status.ready
    requires s.addons <= us && w.d.start < |us|
    ensures Accounted(us, s.log, |us| - 1, w.d.status)
  {
    var spec := w.d.snap.spec;
    var k: nat :| k < |s.log| && EndsRound(s.log[k], s.round) && (Good(s.log[k], spec) || s.log[k].NotVisible?);
    assert us[w.d.start] == s.addons[w.d.start];
    assert AccountedBy(us, s.log, |us| - 1, w.d.status, w.d.start, k);
  }

  lemma StatusWriteKeeps(cfg: Config, s: State)
    requires InRange(s) && Inv(s) && s.addonCtl.StatusPut?
    ensures Inv(StepAddon(cfg, s, PutStatus))
  {
    var w, r := s.addonCtl, StepAddon(cfg, s, PutStatus);
    if r.addons == s.addons {
      QuietMoves(s, r);
    } else {
      var n := |s.addons|;
      var st := r.addons[n].content.value.status;
      if st.ready {
        DraftAccounted(s, w, r.addons);
        AccountGrows(r.addons, r.addons, s.log, s.log, n, n, w.d.status, st);
      }
      WriteKeeps(s, r);
    }
  }

  lemma OtherWriteKeeps(cfg: Config, s: State, step: AddonStep)
    requires InRange(s) && Inv(s) && (step.PutFinalizer? || step.PutRelease?)
    ensures Inv(StepAddon(cfg, s, step))
  {
    var r := StepAddon(cfg, s, step);
    if r.addons == s.addons {
      QuietMoves(s, r);
    } else {
      var v := r.addons[|s.addons|];
      assert r.addons == s.addons + [v];
      ReportCarried(s.addons, v, s.log);
      WriteKeeps(s, r);
    }
  }

  lemma AddonStepKeeps(cfg: Config, s: State, step: AddonStep)
    requires InRange(s) && Inv(s)
    ensures Inv(StepAddon(cfg, s, step))
  {
    if Early(step) && !step.ResolveValues? {
      EarlyMoves(cfg, s, step);
      QuietMoves(s, StepAddon(cfg, s, step));
    } else if Late(step) {
      LateMoves(cfg, s, step);
      QuietMoves(s, StepAddon(cfg, s, step));
    } else {
      match step
      case StartAddon => if s.addonCtl.Idle? { StartKeeps(s); }
      case ResolveValues(ok, lists) => if s.addonCtl.Resolve? { ResolveKeeps(cfg, s, ok, lists); }
      case FetchApp => if s.addonCtl.Fetch? { FetchKeeps(cfg, s); }
      case CreateApp => if s.addonCtl.Create? { CreateKeeps(cfg, s); }
      case PutUpdate => if s.addonCtl.UpdatePut? { UpdateKeeps(cfg, s); }
      case PutStatus => if s.addonCtl.StatusPut? { StatusWriteKeeps(cfg, s); }
      case _ => OtherWriteKeeps(cfg, s, step);
    }
  }

  // ---- The others ----

  /** Whoever else writes the Addon leaves its report alone. */
  lemma OthersKeep(s: State, r: State)
    requires InRange(s) && Inv(s) && OwnedStep(s.addons, r.addons)
    requires r.addons != s.addons ==> r.addons[|s.addons|].writer != AddonController
    requires r.addonCtl == s.addonCtl && r.log == s.log && r.round == s.round
    ensures Inv(r)
  {
    if r.addons != s.addons {
      var v := r.addons[|s.addons|];
      assert r.addons == s.addons + [v] && Owned(s.addons[|s.addons| - 1], v);
      ReportCarried(s.addons, v, s.log);
      WriteKeeps(s, r);
    }
  }

  lemma PhaseLogs(cfg: Config, s: State, step: PhaseStep)
    requires InRange(s)
    ensures var r := StepPhase(cfg, s, step);
            && r.round == s.round
            && (r.log == s.log || (r.addons == s.addons && |r.log| == |s.log| + 1 && !Ends(r.log[|s.log|])))
  {
  }

  lemma PhaseStepKeeps(cfg: Config, s: State, step: PhaseStep)
    requires InRange(s) && Inv(s)
    ensures Inv(StepPhase(cfg, s, step))
  {
    var r := StepPhase(cfg, s, step);
    PhaseLeavesAddonCtl(cfg, s, step);
    PhaseLogs(cfg, s, step);
    if r.log == s.log {
      PhaseStepOwned(cfg, s, step);
      OthersKeep(s, r);
    } else {
      assert r.log == s.log + [r.log[|s.log|]];
      RecordKeeps(s, r.log[|s.log|]);
    }
  }

  lemma EnvStepKeeps(s: State, step: EnvStep)
    requires InRange(s) && Inv(s)
    ensures Inv(StepEnv(s, step))
  {
    EnvLeavesAddonCtl(s, step);
    EnvStepOwned(s, step);
    EnvLogs(s, step);
    OthersKeep(s, StepEnv(s, step));
  }

  lemma EnvLogs(s: State, step: EnvStep)
    requires InRange(s)
    ensures StepEnv(s, step).log == s.log && StepEnv(s, step).round == s.round
  {
  }

  lemma {:induction false} RunKeeps(cfg: Config, steps: seq<Step>)
    ensures Inv(Run(cfg, steps))
  {
    if steps != [] {
      var s := Run(cfg, steps[..|steps| - 1]);
      RunKeeps(cfg, steps[..|steps| - 1]);
      match steps[|steps| - 1]
      case ByAddon(a) => AddonStepKeeps(cfg, s, a);
      case ByPhase(p) => PhaseStepKeeps(cfg, s, p);
      case ByEnv(e) => EnvStepKeeps(s, e);
    }
  }

  // ---- What follows ----

  /** In every run a status about to be written is Ready exactly when its own reconcile read Synced and
      Healthy of an Application for the spec it started from, or could not see the Application it meant to
      create and had started from a status that said so. */
  lemma ReadyIff(cfg: Config, steps: seq<Step>)
    requires Run(cfg, steps).addonCtl.StatusPut?
    ensures var s := Run(cfg, steps);
            var d := s.addonCtl.d;
            d.status.ready <==>
            || VerifiedNow(s.log, s.round, d.snap.spec)
            || (NotVisibleNow(s.log, s.round) && d.snap.status.synced && d.snap.status.healthy)
  {
    RunKeeps(cfg, steps);
  }

  /** So a Ready status was verified in its own reconcile iff that did not end on an invisible Application. */
  lemma ReadyVerifiedIff(cfg: Config, steps: seq<Step>)
    requires Run(cfg, steps).addonCtl.StatusPut? && Run(cfg, steps).addonCtl.d.status.ready
    ensures var s := Run(cfg, steps);
            VerifiedNow(s.log, s.round, s.addonCtl.d.snap.spec) <==> !NotVisibleNow(s.log, s.round)
  {
    RunKeeps(cfg, steps);
  }

  /** Every stored Ready is accounted for: the version observed, and the verdict or its absence. */
  lemma StoredReadyAccounted(cfg: Config, steps: seq<Step>, i: nat)
    requires i < |Run(cfg, steps).addons| && Run(cfg, steps).addons[i].content.Some?
    requires Run(cfg, steps).addons[i].content.value.status.ready
    ensures var s := Run(cfg, steps);
            Accounted(s.addons, s.log, i, s.addons[i].content.value.status)
  {
    RunKeeps(cfg, steps);
    assert VersionOk(Run(cfg, steps).addons, Run(cfg, steps).log, i);
  }
}
