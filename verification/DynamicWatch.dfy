/** The objects behind dynamic watches: which GVKs each Addon uses (internal/controller/dynamicwatch/
    tracker.go) and the reference counts of the watches (internal/controller/dynamicwatch/manager.go).
    GVK sets are Dafny sets. Each method runs under its object's lock, so it is one atomic step. */
module DynamicWatch {
  import opened Wrappers

  datatype GVK = GVK(group: string, version: string, kind: string)
  type GVKSet = set<GVK>
  type UID = string
  type Tracking = map<UID, GVKSet>

  /** What controller.Watch answers; CrdMissing is a missing kind or failed group discovery. */
  datatype WatchOutcome = Started | CrdMissing | WatchFailed(error: string)

  datatype WatchEntry = WatchEntry(refCount: int, active: bool, pending: bool)

  type Watches = map<GVK, WatchEntry>

  // ---- What each call does to the tables ----

  function TrackedBy(t: Tracking, uid: UID): GVKSet {
    if uid in t then t[uid] else {}
  }

  function Ensured(w: Watches, gvk: GVK, outcome: WatchOutcome): Watches {
    if gvk in w then w[gvk := w[gvk].(refCount := w[gvk].refCount + 1)]
    else
      match outcome
      case Started => w[gvk := WatchEntry(1, true, false)]
      case CrdMissing => w[gvk := WatchEntry(1, false, true)]
      case WatchFailed(_) => w
  }

  /** EnsureWatch returns an error exactly for a hard failure of a watch that does not exist yet. */
  predicate HardFailure(w: Watches, gvk: GVK, outcome: WatchOutcome) {
    gvk !in w && outcome.WatchFailed?
  }

  function Released(w: Watches, gvk: GVK): Watches {
    if gvk !in w then w
    else if w[gvk].refCount - 1 <= 0 then w - {gvk}
    else w[gvk := w[gvk].(refCount := w[gvk].refCount - 1)]
  }

  function Retried(w: Watches, gvk: GVK, outcome: WatchOutcome): Watches {
    if gvk in w && w[gvk].pending && outcome.Started? then w[gvk := w[gvk].(active := true, pending := false)] else w
  }

  class Tracker {
    var addonGVKs: Tracking

    constructor ()
      ensures addonGVKs == map[]
    {
      addonGVKs := map[];
    }

    method SetGVKs(uid: UID, gvks: GVKSet) returns (added: GVKSet, removed: GVKSet)
      modifies this
      ensures addonGVKs == old(addonGVKs)[uid := gvks]
      ensures added !! TrackedBy(old(addonGVKs), uid) && removed <= TrackedBy(old(addonGVKs), uid)
      ensures gvks == (TrackedBy(old(addonGVKs), uid) + added) - removed
    {
      var was: GVKSet := {};
      if uid in addonGVKs {
        was := addonGVKs[uid];
      }
      added, removed := gvks - was, was - gvks;
      addonGVKs := addonGVKs[uid := gvks];
    }

    method RemoveAddon(uid: UID) returns (gvks: GVKSet)
      modifies this
      ensures addonGVKs == old(addonGVKs) - {uid}
      ensures gvks == TrackedBy(old(addonGVKs), uid)
    {
      gvks := {};
      if uid in addonGVKs {
        gvks := addonGVKs[uid];
      }
      addonGVKs := addonGVKs - {uid};
    }

    method GetAllGVKs() returns (all: GVKSet)
      ensures forall g :: g in all <==> exists u :: u in addonGVKs && g in addonGVKs[u]
    {
      all := {};
      var left := addonGVKs.Keys;
      while left != {}
        invariant left <= addonGVKs.Keys
        invariant forall g :: g in all <==> exists u :: u in addonGVKs.Keys - left && g in addonGVKs[u]
        decreases left
      {
        var uid :| uid in left;
        ghost var was, seen := all, addonGVKs.Keys - left;
        all := all + addonGVKs[uid];
        left := left - {uid};
        assert addonGVKs.Keys - left == seen + {uid};
      }
    }
  }

  class WatchManager {
    var watches: Watches

    constructor ()
      ensures watches == map[]
    {
      watches := map[];
    }

    method EnsureWatch(gvk: GVK, outcome: WatchOutcome) returns (result: Result<()>)
      modifies this
      ensures watches == Ensured(old(watches), gvk, outcome)
      ensures gvk in old(watches) ==>
                watches == old(watches)[gvk := old(watches)[gvk].(refCount := old(watches)[gvk].refCount + 1)]
      ensures gvk !in old(watches) ==>
                watches == if outcome.WatchFailed? then old(watches)
                           else old(watches)[gvk := WatchEntry(1, outcome.Started?, outcome.CrdMissing?)]
      ensures result.Err? <==> HardFailure(old(watches), gvk, outcome)
      ensures result.Err? <==> gvk !in old(watches) && outcome.WatchFailed?
    {
      if gvk in watches {
        var entry := watches[gvk];
        watches := watches[gvk := entry.(refCount := entry.refCount + 1)];
        return Ok(());
      }
      match outcome {
        case CrdMissing => watches := watches[gvk := WatchEntry(1, false, true)];
        case WatchFailed(e) => return Err("start watch: " + e);
        case Started => watches := watches[gvk := WatchEntry(1, true, false)];
      }
      return Ok(());
    }

    method ReleaseWatch(gvk: GVK)
      modifies this
      ensures watches == Released(old(watches), gvk)
      ensures forall g | g != gvk :: g in watches <==> g in old(watches)
      ensures gvk in watches <==> gvk in old(watches) && old(watches)[gvk].refCount > 1
      ensures forall g | g in watches ::
                watches[g] == old(watches)[g].(refCount := old(watches)[g].refCount - if g == gvk then 1 else 0)
    {
      if gvk !in watches {
        return;
      }
      var entry := watches[gvk];
      watches := watches[gvk := entry.(refCount := entry.refCount - 1)];
      if watches[gvk].refCount <= 0 {
        watches := watches - {gvk};
      }
    }

    method GetPendingGVKs() returns (pending: seq<GVK>)
      ensures forall g :: g in pending <==> g in watches && watches[g].pending
      ensures forall i, j | 0 <= i < j < |pending| :: pending[i] != pending[j]
    {
      pending := [];
      var left := watches.Keys;
      while left != {}
        invariant left <= watches.Keys
        invariant forall g :: g in pending <==> g in watches.Keys - left && watches[g].pending
        invariant forall i, j | 0 <= i < j < |pending| :: pending[i] != pending[j]
        decreases left
      {
        var gvk :| gvk in left;
        if watches[gvk].pending {
          pending := pending + [gvk];
        }
        left := left - {gvk};
      }
    }

    method RetryPendingWatch(gvk: GVK, outcome: WatchOutcome) returns (result: Result<()>)
      modifies this
      ensures watches == Retried(old(watches), gvk, outcome)
      ensures watches == if gvk in old(watches) && old(watches)[gvk].pending && outcome.Started?
                         then old(watches)[gvk := WatchEntry(old(watches)[gvk].refCount, true, false)]
                         else old(watches)
      ensures result.Ok? <==> gvk !in watches || !watches[gvk].pending
    {
      if gvk !in watches || !watches[gvk].pending {
        return Ok(());
      }
      match outcome {
        case CrdMissing => return Err("CRD still not available");
        case WatchFailed(e) => return Err("start watch: " + e);
        case Started =>
      }
      watches := watches[gvk := watches[gvk].(pending := false, active := true)];
      return Ok(());
    }
  }
}
