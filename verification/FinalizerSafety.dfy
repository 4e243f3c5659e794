/** No live Application outlives its Addon: whatever users, Argo CD and the caches do, a stored
    Application that is not being deleted has a stored Addon that still carries the finalizer. */
module FinalizerSafety {
  import opened Wrappers
  import opened AddonModel
  import A = Applications

  type Versions = seq<AddonVersion>

  predicate Held(v: AddonVersion) {
    v.content.Some? && v.content.value.finalizer
  }

  predicate Doomed(v: AddonVersion) {
    v.content.Some? && v.content.value.deleting
  }

  predicate Kept(v: AddonVersion) {
    Held(v) && !Doomed(v)
  }

  predicate Removal(vs: Versions, j: nat) {
    j + 1 < |vs| && Held(vs[j]) && !Held(vs[j + 1])
  }

  /** A finalizer was only ever removed at a version the cache had reached, and from a doomed object. */
  ghost predicate RemovalsSeen(vs: Versions, view: nat) {
    forall j | 0 <= j < |vs| && Removal(vs, j) :: j <= view && Doomed(vs[j])
  }

  ghost predicate NothingKeptFrom(vs: Versions, start: nat) {
    forall j | start <= j < |vs| :: !Kept(vs[j])
  }

  /** Once the cache or anything after it shows a doomed object, no later version holds the finalizer undoomed. */
  ghost predicate DoomLasts(vs: Versions, view: nat) {
    forall d | view <= d < |vs| && Doomed(vs[d]) :: NothingKeptFrom(vs, d)
  }

  ghost predicate NoRemovalFrom(vs: Versions, start: nat) {
    forall j | start <= j < |vs| :: !Removal(vs, j)
  }

  ghost predicate WorkerFacts(vs: Versions, view: nat, w: AddonWorker)
    requires view < |vs|
  {
    match w
    case FinalizeGet(d) => d.start <= view && NoRemovalFrom(vs, d.start)
    case FinalizePut(d, at) => d.start <= view && NoRemovalFrom(vs, d.start) && at <= view
    case Check(_) => Held(vs[|vs| - 1])
    case Resolve(_, _) => Held(vs[|vs| - 1])
    case Look(_, _, _) => Held(vs[|vs| - 1])
    case Fetch(_, _, _, _) => Held(vs[|vs| - 1])
    case Create(_, _, _, _) => Held(vs[|vs| - 1])
    case DeleteApp(start) => start <= view && NothingKeptFrom(vs, start)
    case AwaitGone(start) => start <= view && NothingKeptFrom(vs, start)
    case ReleaseGet(start) => start <= view && NothingKeptFrom(vs, start)
    case ReleasePut(start, at) => start <= at <= view && NothingKeptFrom(vs, start)
    case _ => true
  }

  predicate Live(app: Option<A.App>) {
    app.Some? && !app.value.terminating
  }

  /** After the delete call of a reconcile, and until the next reconcile, no Application is live. */
  predicate AppDeleted(w: AddonWorker) {
    w.AwaitGone? || w.ReleaseGet? || w.ReleasePut?
  }

  ghost predicate AppFacts(s: State)
    requires InRange(s)
  {
    && (Live(LastApp(s)) ==> Held(s.addons[|s.addons| - 1]))
    && (AppDeleted(s.addonCtl) ==> !Live(LastApp(s)))
  }

  ghost predicate VersionFacts(vs: Versions, view: nat) {
    RemovalsSeen(vs, view) && DoomLasts(vs, view)
  }

  ghost predicate Inv(s: State)
    requires InRange(s)
  {
    VersionFacts(s.addons, s.addonView) && WorkerFacts(s.addons, s.addonView, s.addonCtl) && AppFacts(s)
  }

  // ---- Writes that neither add nor drop the finalizer ----

  predicate Gentle(last: AddonVersion, v: AddonVersion) {
    (Held(last) ==> Held(v)) && (Kept(v) ==> Kept(last))
  }

  ghost predicate GentlyExtended(vs: Versions, us: Versions) {
    us == vs || (vs != [] && exists v :: us == vs + [v] && Gentle(vs[|vs| - 1], v))
  }

  lemma AppendGentle(vs: Versions, v: AddonVersion, view: nat, w: AddonWorker)
    requires view < |vs| && VersionFacts(vs, view) && WorkerFacts(vs, view, w) && Gentle(vs[|vs| - 1], v)
    ensures VersionFacts(vs + [v], view) && WorkerFacts(vs + [v], view, w)
  {
    var us := vs + [v];
    assert forall j | 0 <= j < |vs| :: us[j] == vs[j];
    forall j | 0 <= j < |us| && Removal(us, j)
      ensures j < |vs| - 1 && Removal(vs, j)
    {
    }
    forall d, j | 0 <= d <= j < |us| && NothingKeptFrom(vs, d)
      ensures !Kept(us[j]) || j == d == |vs|
    {
      if j == |vs| && d < |vs| {
        assert !Kept(vs[|vs| - 1]);
      }
    }
    forall d | view <= d < |us| && Doomed(us[d])
      ensures NothingKeptFrom(us, d)
    {
      if d < |vs| {
        assert NothingKeptFrom(vs, d);
      }
    }
    if w.DeleteApp? || w.AwaitGone? || w.ReleaseGet? || w.ReleasePut? {
      assert NothingKeptFrom(us, w.start);
    }
  }

  lemma ViewAdvances(vs: Versions, view: nat, later: nat, w: AddonWorker)
    requires view <= later < |vs| && VersionFacts(vs, view) && WorkerFacts(vs, view, w)
    ensures VersionFacts(vs, later) && WorkerFacts(vs, later, w)
  {
  }

  lemma EnvGentle(s: State, step: EnvStep)
    requires InRange(s)
    ensures GentlyExtended(s.addons, StepEnv(s, step).addons)
    ensures StepEnv(s, step).addonCtl == s.addonCtl
    ensures Live(LastApp(StepEnv(s, step))) ==> Live(LastApp(s))
  {
    var r := StepEnv(s, step);
    if |r.addons| > |s.addons| {
      var v := r.addons[|s.addons|];
      assert r.addons == s.addons + [v] && Gentle(s.addons[|s.addons| - 1], v);
    }
  }

  lemma PhaseGentle(cfg: Config, s: State, step: PhaseStep)
    requires InRange(s)
    ensures GentlyExtended(s.addons, StepPhase(cfg, s, step).addons)
    ensures StepPhase(cfg, s, step).addonCtl == s.addonCtl
    ensures StepPhase(cfg, s, step).apps == s.apps && StepPhase(cfg, s, step).addonView == s.addonView
  {
    var r := StepPhase(cfg, s, step);
    if |r.addons| > |s.addons| {
      var v := r.addons[|s.addons|];
      assert r.addons == s.addons + [v] && Gentle(s.addons[|s.addons| - 1], v);
    }
  }

  lemma GentleStepKeeps(s: State, r: State)
    requires InRange(s) && Inv(s) && Grows(s, r)
    requires GentlyExtended(s.addons, r.addons) && r.addonCtl == s.addonCtl
    requires Live(LastApp(r)) ==> Live(LastApp(s))
    ensures Inv(r)
  {
    if r.addons != s.addons {
      var v :| r.addons == s.addons + [v] && Gentle(s.addons[|s.addons| - 1], v);
      AppendGentle(s.addons, v, s.addonView, s.addonCtl);
    }
    ViewAdvances(r.addons, s.addonView, r.addonView, r.addonCtl);
  }

  // ---- The Addon controller's own steps ----

  /** A fresh read of a non-doomed version, or one that still holds the finalizer when nothing was removed
      since, vouches for the last version. */
  lemma {:induction false} HeldToTheEnd(vs: Versions, start: nat)
    requires start < |vs| && Held(vs[start]) && NoRemovalFrom(vs, start)
    ensures Held(vs[|vs| - 1])
    decreases |vs| - start
  {
    if start + 1 < |vs| {
      assert !Removal(vs, start);
      HeldToTheEnd(vs, start + 1);
    }
  }

  lemma NoRemovalAfterView(vs: Versions, view: nat)
    requires view < |vs| && RemovalsSeen(vs, view) && !Doomed(vs[view])
    ensures NoRemovalFrom(vs, view)
  {
  }

  lemma StartKeeps(s: State)
    requires InRange(s) && Inv(s) && s.addonCtl.Idle?
    ensures Inv(DoStart(s))
  {
    if SeenAddon(s).Some? {
      if Doomed(s.addons[s.addonView]) {
        assert NothingKeptFrom(s.addons, s.addonView);
      } else {
        NoRemovalAfterView(s.addons, s.addonView);
        if Held(s.addons[s.addonView]) {
          HeldToTheEnd(s.addons, s.addonView);
        }
      }
    }
  }

  lemma ReadForFinalizerKeeps(s: State)
    requires InRange(s) && Inv(s) && s.addonCtl.FinalizeGet?
    ensures Inv(DoReadForFinalizer(s, s.addonCtl.d))
  {
    var vs := s.addons;
    if Held(vs[s.addonView]) {
      HeldToTheEnd(vs, s.addonView);
    }
  }

  lemma PutFinalizerKeeps(s: State)
    requires InRange(s) && Inv(s) && s.addonCtl.FinalizePut?
    ensures Inv(DoPutFinalizer(s, s.addonCtl.d, s.addonCtl.at))
  {
    var vs, at := s.addons, s.addonCtl.at;
    var r := DoPutFinalizer(s, s.addonCtl.d, at);
    if |r.addons| > |vs| {
      var v := r.addons[|vs|];
      var us := r.addons;
      assert us == vs + [v] && Held(v) && at == s.addonView == |vs| - 1;
      forall j | 0 <= j < |us| && Removal(us, j)
        ensures Removal(vs, j)
      {
      }
      assert !Doomed(us[at]) && !Doomed(us[at + 1]);
    }
  }

  lemma PutReleaseKeeps(s: State)
    requires InRange(s) && Inv(s) && s.addonCtl.ReleasePut?
    ensures Inv(DoPutRelease(s, s.addonCtl.start, s.addonCtl.at))
  {
    var vs, at := s.addons, s.addonCtl.at;
    var r := DoPutRelease(s, s.addonCtl.start, at);
    if |r.addons| > |vs| {
      var us := r.addons;
      var v := us[|vs|];
      assert us == vs + [v] && !Held(v) && at == s.addonView == |vs| - 1;
      assert !Kept(vs[at]);
      forall j | 0 <= j < |us| && Removal(us, j)
        ensures j <= s.addonView && Doomed(us[j])
      {
        if j < at {
          assert Removal(vs, j);
        }
      }
      forall d | s.addonView <= d < |us| && Doomed(us[d])
        ensures NothingKeptFrom(us, d)
      {
      }
    }
  }

  lemma PutStatusKeeps(s: State)
    requires InRange(s) && Inv(s) && s.addonCtl.StatusPut?
    ensures Inv(DoPutStatus(s, s.addonCtl.d, s.addonCtl.at))
  {
    var r := DoPutStatus(s, s.addonCtl.d, s.addonCtl.at);
    if |r.addons| > |s.addons| {
      var v := r.addons[|s.addons|];
      assert r.addons == s.addons + [v];
      AppendGentle(s.addons, v, s.addonView, Idle);
    }
  }

  predicate Guarded(w: AddonWorker) {
    w.Check? || w.Resolve? || w.Look? || w.Fetch? || w.Create?
  }

  predicate Free(w: AddonWorker) {
    w.Idle? || w.UpdateGet? || w.UpdatePut? || w.StatusGet? || w.StatusPut?
  }

  /** What the next worker relies on, this one did. */
  ghost predicate Onwards(w: AddonWorker, v: AddonWorker) {
    v == w || Free(v) || (Guarded(v) && Guarded(w))
  }

  predicate Preparation(step: AddonStep) {
    step.CheckGate? || step.ResolveValues? || step.LookForApp? || step.ReadForUpdate? || step.GiveUpOnApp?
    || step.FetchApp?
  }

  lemma PreparationMoves(cfg: Config, s: State, step: AddonStep)
    requires InRange(s) && Preparation(step) && !step.FetchApp?
    ensures var r := StepAddon(cfg, s, step);
            r == s.(addonCtl := r.addonCtl, log := r.log) && Onwards(s.addonCtl, r.addonCtl)
  {
  }

  lemma FetchMoves(cfg: Config, s: State)
    requires InRange(s)
    ensures var r := StepAddon(cfg, s, FetchApp);
            r == s.(addonCtl := r.addonCtl, log := r.log) && Onwards(s.addonCtl, r.addonCtl)
  {
  }

  lemma MoveKeeps(s: State, r: State)
    requires InRange(s) && Inv(s) && r == s.(addonCtl := r.addonCtl, log := r.log) && Onwards(s.addonCtl, r.addonCtl)
    ensures Inv(r)
  {
  }

  /** The steps between the finalizer and the status write leave the stored Addon alone... */
  lemma PreparationKeeps(cfg: Config, s: State, step: AddonStep)
    requires InRange(s) && Inv(s) && Preparation(step)
    ensures Inv(StepAddon(cfg, s, step))
  {
    if step.FetchApp? {
      FetchMoves(cfg, s);
    } else {
      PreparationMoves(cfg, s, step);
    }
    MoveKeeps(s, StepAddon(cfg, s, step));
  }

  /** One more Application version, live only if the Addon holds the finalizer. */
  lemma AppWriteKeeps(s: State, r: State)
    requires InRange(s) && Inv(s) && InRange(r) && r.addons == s.addons && r.addonView == s.addonView
    requires Free(r.addonCtl) && (Live(LastApp(r)) ==> Held(s.addons[|s.addons| - 1]))
    ensures Inv(r)
  {
  }

  lemma UpdateWrites(cfg: Config, s: State)
    requires InRange(s) && s.addonCtl.UpdatePut?
    ensures var r := DoPutUpdate(cfg, s, s.addonCtl.d, s.addonCtl.built, s.addonCtl.at);
            && r.addons == s.addons && r.addonView == s.addonView && Free(r.addonCtl)
            && (Live(LastApp(r)) ==> Live(LastApp(s)))
  {
  }

  lemma PutUpdateKeeps(cfg: Config, s: State)
    requires InRange(s) && Inv(s) && s.addonCtl.UpdatePut?
    ensures Inv(DoPutUpdate(cfg, s, s.addonCtl.d, s.addonCtl.built, s.addonCtl.at))
  {
    UpdateWrites(cfg, s);
    AppWriteKeeps(s, DoPutUpdate(cfg, s, s.addonCtl.d, s.addonCtl.built, s.addonCtl.at));
  }

  lemma CreateWrites(cfg: Config, s: State)
    requires InRange(s) && s.addonCtl.Create?
    ensures var w := s.addonCtl;
            var r := DoCreate(cfg, s, w.d, w.cluster, w.built, w.sawApp);
            r.addons == s.addons && r.addonView == s.addonView && Free(r.addonCtl)
  {
  }

  /** ...and create the Application only while it holds the finalizer. */
  lemma CreateAppKeeps(cfg: Config, s: State)
    requires InRange(s) && Inv(s) && s.addonCtl.Create?
    ensures Inv(DoCreate(cfg, s, s.addonCtl.d, s.addonCtl.cluster, s.addonCtl.built, s.addonCtl.sawApp))
  {
    assert Held(s.addons[|s.addons| - 1]);
    CreateWrites(cfg, s);
    AppWriteKeeps(s, DoCreate(cfg, s, s.addonCtl.d, s.addonCtl.cluster, s.addonCtl.built, s.addonCtl.sawApp));
  }

  /** The delete call leaves no live Application. */
  lemma DeleteAppKeeps(s: State)
    requires InRange(s) && Inv(s) && s.addonCtl.DeleteApp?
    ensures Inv(DoDeleteApp(s, s.addonCtl.start))
  {
  }

  lemma DeletionKeeps(cfg: Config, s: State, step: AddonStep)
    requires InRange(s) && Inv(s)
    requires step.Fail? || step.ReadForStatus? || step.CheckGone? || step.ReadForRelease?
    ensures Inv(StepAddon(cfg, s, step))
  {
  }

  lemma AddonStepKeeps(cfg: Config, s: State, step: AddonStep)
    requires InRange(s) && Inv(s)
    ensures Inv(StepAddon(cfg, s, step))
  {
    var w := s.addonCtl;
    match step
    case StartAddon => if w.Idle? { StartKeeps(s); }
    case ReadForFinalizer => if w.FinalizeGet? { ReadForFinalizerKeeps(s); }
    case PutFinalizer => if w.FinalizePut? { PutFinalizerKeeps(s); }
    case PutStatus => if w.StatusPut? { PutStatusKeeps(s); }
    case PutRelease => if w.ReleasePut? { PutReleaseKeeps(s); }
    case CreateApp => if w.Create? { CreateAppKeeps(cfg, s); }
    case PutUpdate => if w.UpdatePut? { PutUpdateKeeps(cfg, s); }
    case DeleteAppStep => if w.DeleteApp? { DeleteAppKeeps(s); }
    case _ =>
      if Preparation(step) {
        PreparationKeeps(cfg, s, step);
      } else {
        DeletionKeeps(cfg, s, step);
      }
  }

  lemma StepKeeps(cfg: Config, s: State, step: Step)
    requires InRange(s) && Inv(s)
    ensures Inv(Apply(cfg, s, step))
  {
    match step
    case ByAddon(a) => AddonStepKeeps(cfg, s, a);
    case ByPhase(p) =>
      PhaseGentle(cfg, s, p);
      GentleStepKeeps(s, StepPhase(cfg, s, p));
    case ByEnv(e) =>
      EnvGentle(s, e);
      GentleStepKeeps(s, StepEnv(s, e));
  }

  lemma {:induction false} RunKeeps(cfg: Config, steps: seq<Step>)
    ensures Inv(Run(cfg, steps))
  {
    if steps != [] {
      RunKeeps(cfg, steps[..|steps| - 1]);
      StepKeeps(cfg, Run(cfg, steps[..|steps| - 1]), steps[|steps| - 1]);
    }
  }

  /** In every reachable state a live Application has a stored Addon with the finalizer. */
  lemma LiveApplicationHasFinalizer(cfg: Config, steps: seq<Step>)
    ensures var s := Run(cfg, steps);
            Live(LastApp(s)) ==> LastAddon(s).Some? && LastAddon(s).value.finalizer
  {
    RunKeeps(cfg, steps);
  }
}
