/** A reachable history in which a deleted AddonPhase is released while its selectors stay in the Addon: the
    cache still shows the Addon from before they were patched in. */
module ReleaseLimits {
  import opened Wrappers
  import opened AddonModel
  import opened AddonLimits
  import opened PhaseLimits
  import opened Aggregation
  import A = Applications
  import R = Rules

  /** The AddonPhase is marked for deletion, and the cache shows that but no newer Addon. */
  lemma PhaseDeleted(sc: Scene, s: State, p: Phase) returns (r: State)
    requires InRange(s) && Reachable(sc.w, s) && LastPhase(s) == Some(p) && p.finalizer
    ensures r == s.(phases := s.phases + [Some(p.(deleting := true))], phaseView := |s.phases|)
    ensures InRange(r) && Reachable(sc.w, r)
  {
    var a := s.(phases := s.phases + [Some(p.(deleting := true))]);
    Next(sc.w, s, ByEnv(DeletePhase), a);
    r := ViewsMove(sc, a, a.addonView, |s.phases|, a.appView);
  }

  /** Its controller reads an Addon without selectors, so the clearing patch is empty. */
  lemma ClearsNothing(sc: Scene, s: State, p: Phase, seen: Addon, live: Addon) returns (r: State)
    requires InRange(s) && Reachable(sc.w, s) && s.phaseCtl.PhaseIdle?
    requires s.phases[s.phaseView] == Some(p) && p.deleting && p.finalizer
    requires SeenAddon(s) == Some(seen) && seen.status.phaseSelectors == [] && LastAddon(s) == Some(live)
    ensures r == s.(addons := s.addons + [AddonVersion(Some(live), PhaseController)], log := r.log,
                    phaseCtl := PhaseReleaseGet)
    ensures InRange(r) && Reachable(sc.w, r)
  {
    var a := s.(phaseCtl := ClearGet);
    Next(sc.w, s, ByPhase(StartPhase), a);
    var b := s.(log := s.log + [ClearRead(|s.addons| - 1, Some([]))], phaseCtl := ClearPatch([]));
    Next(sc.w, a, ByPhase(ReadForClear), b);
    r := b.(addons := s.addons + [AddonVersion(Some(live), PhaseController)], phaseCtl := PhaseReleaseGet);
    Next(sc.w, b, ByPhase(SendClear), r);
  }

  lemma Released(sc: Scene, s: State, p: Phase) returns (r: State)
    requires InRange(s) && Reachable(sc.w, s) && s.phaseCtl.PhaseReleaseGet? && s.phaseView == |s.phases| - 1
    requires LastPhase(s) == Some(p) && p.deleting && !p.foreign
    ensures r == s.(phases := s.phases + [None], phaseCtl := PhaseIdle)
    ensures InRange(r) && Reachable(sc.w, r)
  {
    var a := s.(phaseCtl := PhaseReleasePut(s.phaseView));
    Next(sc.w, s, ByPhase(PhaseReadForRelease), a);
    r := s.(phases := s.phases + [None], phaseCtl := PhaseIdle);
    Next(sc.w, a, ByPhase(PhasePutRelease), r);
  }

  /** No AddonPhase is stored, no controller is at work on it, and its selector is in the Addon. */
  predicate Orphaned(sc: Scene, s: State)
    requires InRange(s)
  {
    && LastPhase(s) == None && s.phaseCtl.PhaseIdle?
    && LastAddon(s).Some? && LastAddon(s).value.status.phaseSelectors == [sc.selector]
  }

  /** The rule has matched and its selector is stored; the cache has not seen that. */
  lemma Behind(sc: Scene) returns (s: State, statuses: seq<R.RuleStatus>)
    requires Fit(sc) && Reachable(sc.w, INIT)
    ensures Reachable(sc.w, s) && Shows(sc, s, Selecting(sc), Some(PhaseWith(sc, statuses)))
    ensures SeenAddon(s) == Some(Kept(sc.spec, Done(sc.w.cfg)))
  {
    var a := BaseReached(sc);
    var b := CatchesUp(sc, a, Done(sc.w.cfg), None);
    SeesLast(sc, b, Done(sc.w.cfg), None);
    s, statuses := RuleMatches(sc, b);
  }

  lemma Orphans(sc: Scene) returns (s: State)
    requires Fit(sc) && Reachable(sc.w, INIT)
    ensures InRange(s) && Reachable(sc.w, s) && Orphaned(sc, s)
  {
    var a, statuses := Behind(sc);
    SeesLastPhase(sc, a, Selecting(sc), Some(PhaseWith(sc, statuses)));
    var b := PhaseDeleted(sc, a, PhaseWith(sc, statuses));
    SameStored(a, b);
    var p := PhaseWith(sc, statuses).(deleting := true);
    var c := ClearsNothing(sc, b, p, Kept(sc.spec, Done(sc.w.cfg)), Kept(sc.spec, Selecting(sc)));
    SameStored(b, c);
    s := Released(sc, c, p);
  }

  /** For every such scene some run leaves the selector of a deleted AddonPhase in the Addon. */
  lemma StaleClearLeavesSelectors(
    cfg: Config, spec: A.AddonSpec, src: R.Source, path: string, selector: ValuesSelector)
    requires Fit(Scene(Everything(cfg), spec, src, path, selector))
    ensures exists s: State ::
              EndsRun(cfg, s) && InRange(s) && Orphaned(Scene(Everything(cfg), spec, src, path, selector), s)
  {
    EverythingClosed(cfg);
    var s := Orphans(Scene(Everything(cfg), spec, src, path, selector));
    assert Everything(cfg).inside(s);
  }
}
