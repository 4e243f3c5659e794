/** The controllers' step-by-step code behind single transitions of AddonModel: the retry loops over the
    store, the status a reconcile fills in, and the in-place latch of rule statuses
    (internal/controller/addon/controller.go, internal/controller/addonphase/controller.go). */
module Controllers {
  import opened Wrappers
  import opened AddonModel
  import A = Applications
  import F = Fnv
  import R = Rules

  type Versions = seq<AddonVersion>

  const MAX_ATTEMPTS := 5

  datatype Answer = Written | Conflicted | Gone

  /** The API server's copy of one Addon. Before the n-th request is served, other parties have made
      the writes others(n). */
  class Store {
    var addons: Versions
    var requests: nat
    const others: nat -> Versions

    constructor (addons: Versions, others: nat -> Versions)
      requires addons != []
      ensures this.addons == addons && this.others == others && requests == 0
    {
      this.addons, this.others, requests := addons, others, 0;
    }

    /** None of the interleaved writes is the caller's. */
    ghost predicate Apart(me: Writer)
      reads this
    {
      addons != [] && forall n, k | 0 <= k < |others(n)| :: others(n)[k].writer != me
    }

    method Serve(ghost me: Writer)
      requires Apart(me)
      modifies this
      ensures Apart(me) && NoneBy(old(addons), addons, me)
    {
      addons := addons + others(requests);
      requests := requests + 1;
    }

    method Get(ghost me: Writer) returns (found: Option<Addon>, at: nat)
      requires Apart(me)
      modifies this
      ensures Apart(me) && NoneBy(old(addons), addons, me)
      ensures at == |addons| - 1 && found == addons[at].content
    {
      Serve(me);
      at := |addons| - 1;
      found := addons[at].content;
    }

    /** An update of the version the caller read; any write since then is a conflict. */
    method Update(content: Addon, at: nat, me: Writer) returns (answer: Answer)
      requires Apart(me) && at < |addons|
      modifies this
      ensures Apart(me) && old(addons) <= addons
      ensures answer == Written ==>
                |old(addons)| == at + 1 && addons == old(addons) + [AddonVersion(Some(content), me)]
      ensures answer != Written ==> NoneBy(old(addons), addons, me)
    {
      Serve(me);
      if at != |addons| - 1 {
        return Conflicted;
      }
      addons := addons + [AddonVersion(Some(content), me)];
      return Written;
    }

    /** applyStatus: whatever interferes, one success is one write that overwrites the status of the
        version right before it, phase selectors excepted; a failure writes nothing. */
    method ApplyStatus(desired: AddonStatus) returns (answer: Answer)
      requires Apart(AddonController)
      modifies this
      ensures Apart(AddonController) && old(addons) <= addons
      ensures answer == Written ==> LastIsStatusWrite(old(addons), addons, desired)
      ensures answer != Written ==> NoneBy(old(addons), addons, AddonController)
    {
      for attempt := 0 to MAX_ATTEMPTS
        invariant Apart(AddonController) && NoneBy(old(addons), addons, AddonController)
      {
        var current, at := Get(AddonController);
        if current.None? {
          return Gone;
        }
        var a := current.value;
        var phaseSelectors := a.status.phaseSelectors;
        a := a.(status := desired);
        a := a.(status := a.status.(phaseSelectors := phaseSelectors));
        answer := Update(a, at, AddonController);
        if answer != Conflicted {
          return;
        }
      }
      return Conflicted;
    }
  }

  /** The history grew, and none of the new versions is by this writer. */
  ghost predicate NoneBy(was: Versions, now: Versions, w: Writer) {
    was <= now && forall k | |was| <= k < |now| :: now[k].writer != w
  }

  /** The last version is the Addon controller's only new one: the one before it with the desired status. */
  ghost predicate LastIsStatusWrite(was: Versions, now: Versions, desired: AddonStatus) {
    var n := |now| - 1;
    && |was| <= n && n > 0 && NoneBy(was, now[..n], AddonController)
    && now[n - 1].content.Some?
    && (var a := now[n - 1].content.value;
        var st := desired.(phaseSelectors := a.status.phaseSelectors);
        now[n] == AddonVersion(Some(a.(status := st)), AddonController))
  }

  /** The Addon a reconcile holds, from the translation of the Application to its closing decision. */
  class LocalAddon {
    var status: AddonStatus

    constructor (status: AddonStatus)
      ensures this.status == status
    {
      this.status := status;
    }

    method TranslateApplicationStatus(cfg: Config, app: A.App)
      modifies this
      ensures status == Translate(cfg, old(status), app)
      ensures status.healthy <==> app.status.health == A.Healthy
      ensures status.synced <==>
              && app.status.sync == A.Synced
              && app.spec.sources == [] && app.status.comparedTo.sources == []
              && app.spec.source == Some(app.status.comparedTo.source)
              && (app.status.comparedTo.source.repoURL != "" || app.status.comparedTo.source.chart != ""
                  || app.status.comparedTo.source.path != "")
    {
      var synced, healthy := false, false;
      if A.ComparedToCurrent(app) {
        synced := app.status.sync == A.Synced;
      }
      match app.status.health {
        case Healthy => healthy := true;
        case _ =>
      }
      status := status.(synced := synced);
      status := status.(healthy := healthy);
      status := status.(observedHash := F.SelectorsHash(cfg.encode, status.phaseSelectors));
    }

    /** Ready and Deployed exactly on Synced and Healthy; an older Degraded is otherwise kept. */
    method Close()
      modifies this
      ensures status == Settle(old(status))
      ensures var good := old(status).synced && old(status).healthy;
              && (status.ready <==> good || (old(status).ready && old(status).degraded))
              && (status.degraded <==> old(status).degraded && !good)
              && (status.deployed <==> old(status).deployed || good)
      ensures status
              == old(status).(ready := status.ready, degraded := status.degraded, deployed := status.deployed)
    {
      if status.synced && status.healthy {
        status := SetReady(status);
        status := status.(deployed := true);
      } else if !status.degraded {
        status := SetProgressing(status);
      }
    }
  }

  /** latchDeployedRules: the evaluated statuses, stamped in place. */
  method LatchDeployedRules(cfg: Config, statuses: array<R.RuleStatus>, active: Selectors, read: AddonStatus)
    modifies statuses
    ensures statuses[..] == Stamped(cfg, old(statuses[..]), active, read)
    ensures var fits := && read.phaseSelectors == active && active != []
                        && read.observedHash == F.SelectorsHash(cfg.encode, active)
                        && read.synced && read.healthy;
            forall k | 0 <= k < statuses.Length ::
              statuses[k] == old(statuses[k]).(
                deployed := old(statuses[k].deployed) || (old(statuses[k].matched) && fits))
  {
    if !SelectorsEqual(read.phaseSelectors, active) {
      return;
    }
    var observed := read.observedHash;
    if observed == "" || observed != F.SelectorsHash(cfg.encode, active) {
      return;
    }
    if !read.synced {
      return;
    }
    if !read.healthy {
      return;
    }
    StampMatched(statuses);
  }

  method StampMatched(statuses: array<R.RuleStatus>)
    modifies statuses
    ensures forall k | 0 <= k < statuses.Length :: statuses[k] == Stamp(old(statuses[k]))
  {
    for i := 0 to statuses.Length
      invariant forall k | 0 <= k < i :: statuses[k] == Stamp(old(statuses[k]))
      invariant forall k | i <= k < statuses.Length :: statuses[k] == old(statuses[k])
    {
      if statuses[i].matched && !statuses[i].deployed {
        statuses[i] := statuses[i].(deployed := true);
      }
    }
  }
}
