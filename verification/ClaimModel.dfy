/** The AddonClaim controller and the remote cluster it writes to, as one interleaved state machine
    (internal/controller/addonclaim/controller.go).

    The remote side is what the claim can observe of an Addon controller: it reads some version, works on
    that snapshot, and concludes by writing a status that names the generation it started from. That the
    Addon controller behaves like this is proved in module RemoteRefinement. */
module ClaimModel {
  import opened Wrappers
  import A = Applications

  // ---- The remote cluster ----

  datatype RemoteAddon = RemoteAddon(
    spec: A.AddonSpec, generation: nat, observedGeneration: nat, ready: bool, deployed: bool)

  type RemoteVersions = seq<Option<RemoteAddon>>

  datatype Work = Resting | Working(start: nat, snap: RemoteAddon)

  /** A reconcile, started at a version, that wrote its status. */
  datatype Conclusion = Conclusion(start: nat, ready: bool)

  datatype Remote = Remote(versions: RemoteVersions, view: nat, work: Work, concluded: seq<Conclusion>)

  predicate RemoteInRange(r: Remote) {
    r.view < |r.versions|
  }

  function LastRemote(r: Remote): Option<RemoteAddon>
    requires RemoteInRange(r)
  {
    r.versions[|r.versions| - 1]
  }

  /** What can happen there without the claim: only the claim writes specs. */
  datatype RemoteStep =
    | Look(view: nat)                        // the cache moves
    | StartWork
    | Abandon
    | Conclude(ready: bool, deployed: bool)  // the retry loop of applyStatus up to its successful write
    | Touch                                  // a write of anything but spec and status
    | Mark                                   // the deletion mark: a new generation of the same spec
    | Vanish                                 // the object is gone

  function StepRemote(r: Remote, step: RemoteStep): (q: Remote)
    requires RemoteInRange(r)
    ensures RemoteInRange(q) && r.versions <= q.versions && r.concluded <= q.concluded
  {
    match step
    case Look(view) => if r.view <= view < |r.versions| then r.(view := view) else r
    case StartWork =>
      if r.work.Resting? && r.versions[r.view].Some? then r.(work := Working(r.view, r.versions[r.view].value)) else r
    case Abandon => r.(work := Resting)
    case Conclude(ready, deployed) =>
      if r.work.Resting? || LastRemote(r).None? then r
      else
        var a := LastRemote(r).value.(
                   observedGeneration := r.work.snap.generation, ready := ready, deployed := deployed);
        r.(versions := r.versions + [Some(a)], work := Resting,
           concluded := r.concluded + [Conclusion(r.work.start, ready)])
    case Touch => if LastRemote(r).None? then r else r.(versions := r.versions + [LastRemote(r)])
    case Mark =>
      if LastRemote(r).None? then r
      else
        var a := LastRemote(r).value;
        r.(versions := r.versions + [Some(a.(generation := a.generation + 1))])
    case Vanish => if LastRemote(r).None? then r else r.(versions := r.versions + [None])
  }

  /** Create or Update by the claim; the API server counts spec changes. */
  function Push(r: Remote, spec: A.AddonSpec): (q: Remote)
    requires RemoteInRange(r)
    ensures RemoteInRange(q) && r.versions <= q.versions
  {
    var pushed :=
      match LastRemote(r)
      case None => RemoteAddon(spec, 1, 0, false, false)
      case Some(a) => a.(spec := spec, generation := if spec == a.spec then a.generation else a.generation + 1);
    r.(versions := r.versions + [Some(pushed)])
  }

  // ---- The claim ----

  datatype RemoteStatus = RemoteStatus(deployed: bool, generation: nat, observedGeneration: nat)

  /** Conditions are free text here; they are the subject of module Conditions. */
  datatype ClaimStatus = ClaimStatus(
    observedGeneration: nat, ready: Option<bool>, deployed: bool, remote: Option<RemoteStatus>,
    externallyManaged: Option<bool>, initialized: Option<bool>, controlPlaneInitialized: Option<bool>,
    version: string, conditions: string)

  const NEW_CLAIM_STATUS := ClaimStatus(0, None, false, None, None, None, None, "", "")

  /** external: the external-status/type annotation is not empty. */
  datatype Claim = Claim(
    version: string, content: string, generation: nat, external: bool, paused: bool, deleting: bool,
    status: ClaimStatus)

  predicate ReadyAtCurrentGeneration(a: RemoteAddon) {
    a.observedGeneration == a.generation && a.ready
  }

  function WithRemote(st: ClaimStatus, a: RemoteAddon): ClaimStatus {
    st.(ready := Some(ReadyAtCurrentGeneration(a)), deployed := a.deployed,
        remote := Some(RemoteStatus(a.deployed, a.generation, a.observedGeneration)))
  }

  function WithExternal(claim: Claim, st: ClaimStatus): ClaimStatus {
    if !claim.external then
      st.(externallyManaged := None, initialized := None, controlPlaneInitialized := None, version := "")
    else
      var initialized := Some(st.remote.Some? && st.remote.value.deployed);
      st.(externallyManaged := Some(true), initialized := initialized, controlPlaneInitialized := initialized,
          version := if st.ready == Some(true) then claim.version else st.version)
  }

  /** The claim object a reconcile holds and fills in. */
  class LocalClaim {
    const claim: Claim
    var status: ClaimStatus

    constructor (claim: Claim)
      ensures this.claim == claim && status == claim.status
    {
      this.claim := claim;
      status := claim.status;
    }

    /** A failed read leaves every field, Ready included, as it was. */
    method SyncRemoteAddonStatus(read: Option<RemoteAddon>)
      modifies this
      ensures status == if read.Some? then WithRemote(old(status), read.value) else old(status)
      ensures read.None? ==> status == old(status)
      ensures read.Some? ==>
                && status.ready == Some(read.value.ready && read.value.observedGeneration == read.value.generation)
                && status.deployed == read.value.deployed
                && status.remote
                   == Some(RemoteStatus(read.value.deployed, read.value.generation, read.value.observedGeneration))
                && status == old(status).(ready := status.ready, deployed := status.deployed, remote := status.remote)
    {
      if read.None? {
        return;
      }
      var addon := read.value;
      var ready := ReadyAtCurrentGeneration(addon);
      status := status.(ready := Some(ready));
      status := status.(deployed := addon.deployed);
      status := status.(remote := Some(RemoteStatus(addon.deployed, addon.generation, addon.observedGeneration)));
    }

    method SyncExternalStatus()
      modifies this
      ensures status == WithExternal(claim, old(status))
      ensures status.externallyManaged == if claim.external then Some(true) else None
      ensures status.initialized == status.controlPlaneInitialized
      ensures status.initialized
              == if claim.external then Some(old(status).remote.Some? && old(status).remote.value.deployed) else None
      ensures status.version
              == if !claim.external then "" else if old(status).ready == Some(true) then claim.version
                 else old(status).version
      ensures status == old(status).(
                externallyManaged := status.externallyManaged, initialized := status.initialized,
                controlPlaneInitialized := status.controlPlaneInitialized, version := status.version)
    {
      if !claim.external {
        status := status.(externallyManaged := None, initialized := None, controlPlaneInitialized := None);
        status := status.(version := "");
        return;
      }
      status := status.(externallyManaged := Some(true));
      var initialized := false;
      if status.remote.Some? {
        initialized := status.remote.value.deployed;
      }
      status := status.(initialized := Some(initialized), controlPlaneInitialized := Some(initialized));
      if status.ready.Some? && status.ready.value {
        status := status.(version := claim.version);
      }
    }
  }

  // ---- Its controller ----

  /** Where a status comes from: the synchronisations, as places in the log, whose read gave it its Ready and
      which published its version. Only the properties look at it. */
  datatype Origin = Origin(ready: Option<nat>, version: Option<nat>)

  const NO_ORIGIN := Origin(None, None)

  datatype Draft = Draft(start: nat, snap: Claim, status: ClaimStatus, origin: Origin)

  datatype Worker =
    | Idle
    | Render(d: Draft)
    | GetRemote(d: Draft, spec: A.AddonSpec)
    | PutRemote(d: Draft, spec: A.AddonSpec, at: nat)
    | ReadBack(d: Draft, spec: A.AddonSpec)
    | StatusGet(d: Draft)
    | StatusPut(d: Draft, at: nat)

  /** The end of syncRemoteResources; read is the remote version read back, if the read succeeded, and
      held is where the status it began with came from. */
  datatype Synced = Synced(snap: Claim, rendered: A.AddonSpec, held: Origin, read: Option<nat>, status: ClaimStatus)

  /** lastWrite: the claim version the controller wrote last; origins: one for each claim version. */
  datatype State = State(
    claims: seq<Option<Claim>>, origins: seq<Origin>, view: nat, lastWrite: nat, worker: Worker,
    remote: Remote, log: seq<Synced>)

  const INIT := State([None], [NO_ORIGIN], 0, 0, Idle, Remote([None], 0, Resting, []), [])

  predicate InRange(s: State) {
    && s.view < |s.claims| && s.lastWrite < |s.claims| && |s.origins| == |s.claims|
    && RemoteInRange(s.remote)
  }

  function LastClaim(s: State): Option<Claim>
    requires InRange(s)
  {
    s.claims[|s.claims| - 1]
  }

  /** One more claim version, with where its status comes from. */
  function StoreClaim(s: State, content: Option<Claim>, origin: Origin): State {
    s.(claims := s.claims + [content], origins := s.origins + [origin])
  }

  function LastOrigin(s: State): Origin
    requires InRange(s)
  {
    s.origins[|s.origins| - 1]
  }

  ghost predicate Grows(s: State, r: State) {
    && InRange(r) && s.claims <= r.claims && s.origins <= r.origins && s.view <= r.view && s.log <= r.log
    && s.remote.versions <= r.remote.versions && s.remote.concluded <= r.remote.concluded
  }

  datatype Step =
    | CreateClaim(version: string, content: string, external: bool)
    | EditClaim(version: string, content: string, external: bool, paused: bool)
    | DeleteClaim(gone: bool)                // marked, or gone once no finalizer is left
    | AdvanceView(view: nat)
    | ByRemote(remoteStep: RemoteStep)
    | Fail
    | Start
    | RenderAndConnect(rendered: Option<A.AddonSpec>, conditions: string)
    | FetchRemote(ok: bool, conditions: string)
    | WriteRemote(ok: bool, conditions: string)
    | ReadRemote(ok: bool, conditions: string)
    | ReadForStatus(at: nat)
    | PutStatus

  /** updateStatus: an unchanged status is not written. */
  function Close(d: Draft, conditions: string): Worker {
    var st := d.status.(observedGeneration := d.snap.generation, conditions := conditions);
    if st == d.snap.status then Idle else StatusGet(d.(status := st))
  }

  function DraftOf(s: State, claim: Claim): Draft
    requires InRange(s)
  {
    Draft(s.view, claim, claim.status, s.origins[s.view])
  }

  function DoStart(s: State): (r: State)
    requires InRange(s)
    ensures Grows(s, r)
  {
    match s.claims[s.view]
    case None => s
    case Some(claim) =>
      var d := DraftOf(s, claim);
      s.(worker := if claim.deleting then Idle else if claim.paused then Close(d, "Paused") else Render(d))
  }

  function DoWriteRemote(s: State, d: Draft, spec: A.AddonSpec, at: nat, ok: bool, conditions: string): (r: State)
    requires InRange(s)
    ensures Grows(s, r)
  {
    if !ok || at != |s.remote.versions| - 1 then s.(worker := Close(d, conditions))
    else s.(remote := Push(s.remote, spec), worker := ReadBack(d, spec))
  }

  function DoReadRemote(s: State, d: Draft, spec: A.AddonSpec, ok: bool, conditions: string): (r: State)
    requires InRange(s)
    ensures Grows(s, r)
  {
    var found := ok && LastRemote(s.remote).Some?;
    var read := if found then WithRemote(d.status, LastRemote(s.remote).value) else d.status;
    var st := WithExternal(d.snap, read);
    var last := if found then Some(|s.remote.versions| - 1) else None;
    var origin := Origin(if found then Some(|s.log|) else d.origin.ready,
                         if !d.snap.external then None
                         else if st.ready == Some(true) then Some(|s.log|) else d.origin.version);
    s.(log := s.log + [Synced(d.snap, spec, d.origin, last, st)],
       worker := Close(d.(status := st, origin := origin), conditions))
  }

  function DoPutStatus(s: State, d: Draft, at: nat): (r: State)
    requires InRange(s)
    ensures Grows(s, r)
  {
    if at != |s.claims| - 1 || s.claims[at].None? then s.(worker := StatusGet(d))
    else
      StoreClaim(s, Some(s.claims[at].value.(status := d.status)), d.origin).(lastWrite := |s.claims|, worker := Idle)
  }

  /** The deletion mark counts as a new generation. */
  function MarkedClaim(c: Claim): Claim {
    c.(deleting := true, generation := if c.deleting then c.generation else c.generation + 1)
  }

  function DoEditClaim(s: State, version: string, content: string, external: bool, paused: bool): (r: State)
    requires InRange(s)
    ensures Grows(s, r)
  {
    match LastClaim(s)
    case None => s
    case Some(c) =>
      var same := version == c.version && content == c.content;
      StoreClaim(s, Some(c.(version := version, content := content, external := external, paused := paused,
                           generation := if same then c.generation else c.generation + 1)), LastOrigin(s))
  }

  function Apply(s: State, step: Step): (r: State)
    requires InRange(s)
    ensures Grows(s, r)
  {
    var w := s.worker;
    match step
    case CreateClaim(version, content, external) =>
      if LastClaim(s).Some? then s
      else StoreClaim(s, Some(Claim(version, content, 1, external, false, false, NEW_CLAIM_STATUS)), NO_ORIGIN)
    case EditClaim(version, content, external, paused) => DoEditClaim(s, version, content, external, paused)
    case DeleteClaim(gone) =>
      if LastClaim(s).None? then s
      else if gone then StoreClaim(s, None, NO_ORIGIN)
      else StoreClaim(s, Some(MarkedClaim(LastClaim(s).value)), LastOrigin(s))
    case AdvanceView(view) => if s.view <= view < |s.claims| then s.(view := view) else s
    case ByRemote(remoteStep) => s.(remote := StepRemote(s.remote, remoteStep))
    case Fail => s.(worker := Idle)
    case Start => if w.Idle? then DoStart(s) else s
    case RenderAndConnect(rendered, conditions) =>
      if !w.Render? then s
      else s.(worker := if rendered.Some? then GetRemote(w.d, rendered.value) else Close(w.d, conditions))
    case FetchRemote(ok, conditions) =>
      if !w.GetRemote? then s
      else s.(worker := if ok then PutRemote(w.d, w.spec, |s.remote.versions| - 1) else Close(w.d, conditions))
    case WriteRemote(ok, conditions) =>
      if w.PutRemote? then DoWriteRemote(s, w.d, w.spec, w.at, ok, conditions) else s
    case ReadRemote(ok, conditions) => if w.ReadBack? then DoReadRemote(s, w.d, w.spec, ok, conditions) else s
    case ReadForStatus(at) =>
      if !w.StatusGet? || at < s.view || at >= |s.claims| then s
      else s.(worker := if s.claims[at].Some? then StatusPut(w.d, at) else Idle)
    case PutStatus => if w.StatusPut? then DoPutStatus(s, w.d, w.at) else s
  }

  function Run(steps: seq<Step>): (r: State)
    ensures InRange(r)
  {
    if steps == [] then INIT else Apply(Run(steps[..|steps| - 1]), steps[|steps| - 1])
  }
}
