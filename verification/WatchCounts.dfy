/** The counting law of dynamic watches over every interleaving of Addon reconciles: the reference count
    of a GVK is the number of Addons tracking it, less those still about to ensure it, plus those still
    about to release it, plus one if it was bootstrapped (internal/controller/addon/controller.go,
    updateDynamicWatches and cleanupWatchesForAddon). */
module WatchCounts {
  import opened DynamicWatch

  /** The tracker, the manager, and what the reconcile now running for each Addon still has to do. */
  datatype State = State(
    tracked: Tracking, watches: Watches, ensuring: Tracking, releasing: Tracking, booted: GVKSet)

  const INIT := State(map[], map[], map[], map[], {})

  datatype Step =
    | UpdateTracker(uid: UID, gvks: GVKSet)                // SetGVKs, then the two loops below
    | EnsureOne(uid: UID, gvk: GVK, outcome: WatchOutcome)
    | ReleaseOne(uid: UID, gvk: GVK)                       // only after the last EnsureOne
    | Retry(gvk: GVK, outcome: WatchOutcome)
    | Cleanup(uid: UID)                                    // RemoveAddon, then releases
    | Bootstrap(gvk: GVK, outcome: WatchOutcome)           // a core type, at start-up

  /** Reconciles of one Addon are serial: the next starts when the last has nothing left to do. */
  predicate Idle(s: State, uid: UID) {
    TrackedBy(s.ensuring, uid) == {} && TrackedBy(s.releasing, uid) == {}
  }

  predicate Enabled(s: State, step: Step) {
    match step
    case UpdateTracker(uid, _) => Idle(s, uid)
    case EnsureOne(uid, gvk, _) => gvk in TrackedBy(s.ensuring, uid)
    case ReleaseOne(uid, gvk) => TrackedBy(s.ensuring, uid) == {} && gvk in TrackedBy(s.releasing, uid)
    case Retry(_, _) => true
    case Cleanup(uid) => Idle(s, uid)
    case Bootstrap(gvk, _) => gvk !in s.booted
  }

  /** A hard watch error makes updateDynamicWatches return before its remaining ensures and releases. */
  predicate Abandons(s: State, step: Step) {
    step.EnsureOne? && Enabled(s, step) && HardFailure(s.watches, step.gvk, step.outcome)
  }

  function Apply(s: State, step: Step): State {
    if !Enabled(s, step) then s
    else
      match step
      case UpdateTracker(uid, gvks) =>
        var was := TrackedBy(s.tracked, uid);
        s.(tracked := s.tracked[uid := gvks],
           ensuring := s.ensuring[uid := gvks - was], releasing := s.releasing[uid := was - gvks])
      case EnsureOne(uid, gvk, outcome) =>
        if HardFailure(s.watches, gvk, outcome) then
          s.(ensuring := s.ensuring[uid := {}], releasing := s.releasing[uid := {}])
        else
          s.(watches := Ensured(s.watches, gvk, outcome), ensuring := s.ensuring[uid := s.ensuring[uid] - {gvk}])
      case ReleaseOne(uid, gvk) =>
        s.(watches := Released(s.watches, gvk), releasing := s.releasing[uid := s.releasing[uid] - {gvk}])
      case Retry(gvk, outcome) => s.(watches := Retried(s.watches, gvk, outcome))
      case Cleanup(uid) =>
        s.(tracked := s.tracked - {uid}, releasing := s.releasing[uid := TrackedBy(s.tracked, uid)])
      case Bootstrap(gvk, outcome) =>
        if HardFailure(s.watches, gvk, outcome) then s
        else s.(watches := Ensured(s.watches, gvk, outcome), booted := s.booted + {gvk})
  }

  function Run(steps: seq<Step>): State {
    if steps == [] then INIT else Apply(Run(steps[..|steps| - 1]), steps[|steps| - 1])
  }

  predicate AbandonsAt(steps: seq<Step>, i: nat)
    requires i < |steps|
  {
    Abandons(Run(steps[..i]), steps[i])
  }

  /** No step of the run is a hard watch error. */
  ghost predicate Clean(steps: seq<Step>) {
    forall i | 0 <= i < |steps| :: !AbandonsAt(steps, i)
  }

  // ---- Counting ----

  function Users(t: Tracking, gvk: GVK): set<UID> {
    set u | u in t && gvk in t[u]
  }

  function Refs(w: Watches, gvk: GVK): int {
    if gvk in w then w[gvk].refCount else 0
  }

  function Boots(s: State, gvk: GVK): int {
    if gvk in s.booted then 1 else 0
  }

  ghost predicate Balanced(s: State, gvk: GVK) {
    Refs(s.watches, gvk)
    == |Users(s.tracked, gvk)| - |Users(s.ensuring, gvk)| + |Users(s.releasing, gvk)| + Boots(s, gvk)
  }

  /** An ensure still due is of a tracked GVK, a release still due of one no longer tracked. */
  predicate DueFits(s: State, uid: UID) {
    && TrackedBy(s.ensuring, uid) <= TrackedBy(s.tracked, uid)
    && TrackedBy(s.releasing, uid) !! TrackedBy(s.tracked, uid)
  }

  predicate EntrySound(e: WatchEntry) {
    e.refCount >= 1 && e.active != e.pending
  }

  ghost predicate Shape(s: State) {
    (forall u :: DueFits(s, u)) && (forall g | g in s.watches :: EntrySound(s.watches[g]))
  }

  ghost predicate Inv(s: State) {
    Shape(s) && forall g :: Balanced(s, g)
  }

  function One(b: bool): int {
    if b then 1 else 0
  }

  /** Replacing one Addon's set moves the count of a GVK by that Addon alone. */
  lemma UsersUpdate(t: Tracking, uid: UID, gvks: GVKSet, gvk: GVK)
    ensures |Users(t[uid := gvks], gvk)| == |Users(t, gvk)| - One(gvk in TrackedBy(t, uid)) + One(gvk in gvks)
  {
    var rest := Users(t, gvk) - {uid};
    assert Users(t, gvk) == if gvk in TrackedBy(t, uid) then rest + {uid} else rest;
    assert Users(t[uid := gvks], gvk) == if gvk in gvks then rest + {uid} else rest;
  }

  lemma UsersRemove(t: Tracking, uid: UID, gvk: GVK)
    ensures |Users(t - {uid}, gvk)| == |Users(t, gvk)| - One(gvk in TrackedBy(t, uid))
  {
    UsersUpdate(t, uid, {}, gvk);
    assert Users(t[uid := {}], gvk) == Users(t - {uid}, gvk);
  }

  lemma SubsetCount<T>(a: set<T>, b: set<T>)
    requires a <= b
    ensures |a| <= |b|
  {
    assert b == a + (b - a);
  }

  /** Every pending ensure is by an Addon that tracks the GVK, so it never outnumbers the trackers;
      an Addon that tracks without one makes the inequality strict. */
  lemma EnsuringBelowTracked(s: State, gvk: GVK)
    requires Shape(s)
    ensures |Users(s.ensuring, gvk)| <= |Users(s.tracked, gvk)|
    ensures forall u | u in Users(s.tracked, gvk) && u !in Users(s.ensuring, gvk) ::
              |Users(s.ensuring, gvk)| < |Users(s.tracked, gvk)|
  {
    forall u | u in Users(s.ensuring, gvk)
      ensures u in Users(s.tracked, gvk)
    {
      assert DueFits(s, u);
    }
    SubsetCount(Users(s.ensuring, gvk), Users(s.tracked, gvk));
    forall u | u in Users(s.tracked, gvk) && u !in Users(s.ensuring, gvk)
      ensures |Users(s.ensuring, gvk)| < |Users(s.tracked, gvk)|
    {
      SubsetCount(Users(s.ensuring, gvk) + {u}, Users(s.tracked, gvk));
    }
  }

  lemma CountsMove(s: State, step: Step, g: GVK)
    requires Shape(s) && Enabled(s, step) && !Abandons(s, step) && !step.ReleaseOne?
    requires Balanced(s, g)
    ensures Balanced(Apply(s, step), g)
  {
    match step
    case UpdateTracker(uid, gvks) =>
      var was := TrackedBy(s.tracked, uid);
      UsersUpdate(s.tracked, uid, gvks, g);
      UsersUpdate(s.ensuring, uid, gvks - was, g);
      UsersUpdate(s.releasing, uid, was - gvks, g);
    case EnsureOne(uid, gvk, _) => UsersUpdate(s.ensuring, uid, s.ensuring[uid] - {gvk}, g);
    case Cleanup(uid) =>
      UsersRemove(s.tracked, uid, g);
      UsersUpdate(s.releasing, uid, TrackedBy(s.tracked, uid), g);
    case Retry(_, _) =>
    case Bootstrap(_, _) =>
  }

  /** A due release always finds its entry. */
  lemma ReleaseMoves(s: State, uid: UID, gvk: GVK, g: GVK)
    requires Inv(s) && Enabled(s, ReleaseOne(uid, gvk))
    ensures Balanced(Apply(s, ReleaseOne(uid, gvk)), g)
  {
    UsersUpdate(s.releasing, uid, s.releasing[uid] - {gvk}, g);
    EnsuringBelowTracked(s, gvk);
    assert uid in Users(s.releasing, gvk);
    assert Balanced(s, gvk) && Balanced(s, g);
  }

  lemma ShapeKept(s: State, step: Step)
    requires Shape(s)
    ensures Shape(Apply(s, step))
  {
    var r := Apply(s, step);
    forall u
      ensures DueFits(r, u)
    {
      assert DueFits(s, u);
    }
  }

  lemma StepKeeps(s: State, step: Step)
    requires Inv(s) && !Abandons(s, step)
    ensures Inv(Apply(s, step))
  {
    ShapeKept(s, step);
    if Enabled(s, step) {
      forall g
        ensures Balanced(Apply(s, step), g)
      {
        assert Balanced(s, g);
        if step.ReleaseOne? {
          ReleaseMoves(s, step.uid, step.gvk, g);
        } else {
          CountsMove(s, step, g);
        }
      }
    }
  }

  lemma AbandonsFront(steps: seq<Step>, n: nat, i: nat)
    requires i < n <= |steps|
    ensures AbandonsAt(steps[..n], i) == AbandonsAt(steps, i)
  {
    assert steps[..n][..i] == steps[..i] && steps[..n][i] == steps[i];
  }

  lemma CleanSplit(steps: seq<Step>)
    requires steps != []
    ensures var front := steps[..|steps| - 1];
            Clean(steps) <==> Clean(front) && !Abandons(Run(front), steps[|steps| - 1])
  {
    var n := |steps| - 1;
    assert AbandonsAt(steps, n) == Abandons(Run(steps[..n]), steps[n]);
    forall i | 0 <= i < n
      ensures AbandonsAt(steps[..n], i) == AbandonsAt(steps, i)
    {
      AbandonsFront(steps, n, i);
    }
  }

  lemma InitBalanced()
    ensures Inv(INIT)
  {
    forall g
      ensures Balanced(INIT, g)
    {
      assert Users(map[], g) == {};
    }
  }

  /** The law holds at every state of every run without a hard watch error. */
  lemma {:induction false} CleanRunBalanced(steps: seq<Step>)
    requires Clean(steps)
    ensures Inv(Run(steps))
  {
    if steps == [] {
      InitBalanced();
    } else {
      var front := steps[..|steps| - 1];
      CleanSplit(steps);
      CleanRunBalanced(front);
      StepKeeps(Run(front), steps[|steps| - 1]);
    }
  }

  // ---- What follows ----

  /** A GVK that some Addon tracks and has ensured has a watch entry, whatever the other Addons do. */
  lemma RegisteredStaysWatched(steps: seq<Step>, uid: UID, gvk: GVK)
    requires Clean(steps)
    requires gvk in TrackedBy(Run(steps).tracked, uid) && gvk !in TrackedBy(Run(steps).ensuring, uid)
    ensures gvk in Run(steps).watches && Run(steps).watches[gvk].refCount >= 1
  {
    var s := Run(steps);
    CleanRunBalanced(steps);
    EnsuringBelowTracked(s, gvk);
    assert Balanced(s, gvk);
    assert uid in Users(s.tracked, gvk) && uid !in Users(s.ensuring, gvk);
  }

  /** When no reconcile is under way, the watches are exactly the tracked and the bootstrapped GVKs, each
      counted once per Addon. */
  lemma QuietStateExact(steps: seq<Step>, gvk: GVK)
    requires Clean(steps) && forall u :: Idle(Run(steps), u)
    ensures var s := Run(steps);
            && Refs(s.watches, gvk) == |Users(s.tracked, gvk)| + Boots(s, gvk)
            && (gvk in s.watches <==> gvk in s.booted || exists u :: u in s.tracked && gvk in s.tracked[u])
  {
    var s := Run(steps);
    CleanRunBalanced(steps);
    assert Balanced(s, gvk);
    forall u
      ensures u !in Users(s.ensuring, gvk) && u !in Users(s.releasing, gvk)
    {
      assert Idle(s, u);
    }
    assert Users(s.ensuring, gvk) == {} && Users(s.releasing, gvk) == {};
    if exists u :: u in s.tracked && gvk in s.tracked[u] {
      var u :| u in s.tracked && gvk in s.tracked[u];
      assert u in Users(s.tracked, gvk);
    } else {
      assert Users(s.tracked, gvk) == {};
    }
  }

  function TotalRefs(s: State, gvks: seq<GVK>): int {
    if gvks == [] then 0 else Refs(s.watches, gvks[0]) + TotalRefs(s, gvks[1..])
  }

  function TotalUsers(t: Tracking, gvks: seq<GVK>): int {
    if gvks == [] then 0 else |Users(t, gvks[0])| + TotalUsers(t, gvks[1..])
  }

  function TotalBoots(s: State, gvks: seq<GVK>): int {
    if gvks == [] then 0 else Boots(s, gvks[0]) + TotalBoots(s, gvks[1..])
  }

  lemma {:induction false} TotalBalanced(s: State, gvks: seq<GVK>)
    requires Inv(s)
    ensures TotalRefs(s, gvks) + TotalUsers(s.ensuring, gvks)
            == TotalUsers(s.tracked, gvks) + TotalUsers(s.releasing, gvks) + TotalBoots(s, gvks)
  {
    if gvks != [] {
      assert Balanced(s, gvks[0]);
      TotalBalanced(s, gvks[1..]);
    }
  }

  /** References are neither created nor lost: over any collection of GVKs the total of the counts and of
      the ensures still due equals that of the trackers, the releases still due and the bootstraps. */
  lemma ReferencesConserved(steps: seq<Step>, gvks: seq<GVK>)
    requires Clean(steps)
    ensures var s := Run(steps);
            TotalRefs(s, gvks) + TotalUsers(s.ensuring, gvks)
            == TotalUsers(s.tracked, gvks) + TotalUsers(s.releasing, gvks) + TotalBoots(s, gvks)
  {
    CleanRunBalanced(steps);
    TotalBalanced(Run(steps), gvks);
  }

  /** A hard watch error unbalances exactly the GVKs whose ensure or release it abandons. */
  lemma HardErrorUnbalances(s: State, step: Step, g: GVK)
    requires Inv(s) && Abandons(s, step)
    ensures Balanced(Apply(s, step), g) <==>
            g !in TrackedBy(s.ensuring, step.uid) && g !in TrackedBy(s.releasing, step.uid)
  {
    UsersUpdate(s.ensuring, step.uid, {}, g);
    UsersUpdate(s.releasing, step.uid, {}, g);
    assert Balanced(s, g) && DueFits(s, step.uid);
  }

  ghost predicate AllBalanced(s: State) {
    forall g :: Balanced(s, g)
  }

  /** The law holds after every prefix of the run. */
  ghost predicate BalancedThroughout(steps: seq<Step>) {
    AllBalanced(Run(steps)) && (steps == [] || BalancedThroughout(steps[..|steps| - 1]))
  }

  /** The law holds at every moment of a run, for every kind, iff the run is without a hard watch error. */
  lemma {:induction false} BalancedIffClean(steps: seq<Step>)
    ensures BalancedThroughout(steps) <==> Clean(steps)
  {
    if steps == [] {
      CleanRunBalanced(steps);
    } else {
      var front, last := steps[..|steps| - 1], steps[|steps| - 1];
      BalancedIffClean(front);
      CleanSplit(steps);
      if Clean(front) {
        CleanRunBalanced(front);
        if Abandons(Run(front), last) {
          HardErrorUnbalances(Run(front), last, last.gvk);
        } else {
          CleanRunBalanced(steps);
        }
      }
    }
  }

  /** After one such error an Addon can be tracked for good without a watch. */
  lemma HardErrorLosesAWatch(uid: UID, gvk: GVK, error: string)
    ensures
      var s := Run([UpdateTracker(uid, {gvk}), EnsureOne(uid, gvk, WatchFailed(error)), UpdateTracker(uid, {gvk})]);
      gvk in TrackedBy(s.tracked, uid) && Idle(s, uid) && gvk !in s.watches
  {
    var steps := [UpdateTracker(uid, {gvk}), EnsureOne(uid, gvk, WatchFailed(error)), UpdateTracker(uid, {gvk})];
    assert steps[..2][..1] == [steps[0]] && steps[..2][1] == steps[1] && steps[..1][..0] == [];
    assert Run(steps[..1]) == Apply(INIT, steps[0]);
    assert Run(steps[..2]) == Apply(Run(steps[..1]), steps[1]);
    assert Run(steps) == Apply(Run(steps[..2]), steps[2]);
  }
}
