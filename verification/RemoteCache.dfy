/** Clients of remote clusters and the failure backoff they share
    (internal/controller/addonclaim/remoteclient/cache.go, internal/controller/addonclaim/remoteerr.go). */
module RemoteCache {
  import opened Clock
  import opened Powers
  import opened Wrappers

  datatype CacheKey = CacheKey(namespace: string, secretName: string)

  /** A client remembers the kubeconfig it was built from; serial tells apart two builds from one. */
  datatype Client = Client(kubeconfig: string, serial: nat)

  datatype CachedClient = CachedClient(client: Client, resourceVersion: string, lastUsed: int)

  const MAX_IDLE := 600 * SECOND
  const BACKOFF_INITIAL := 15 * SECOND
  const BACKOFF_MAX := 900 * SECOND

  type Clients = map<CacheKey, CachedClient>

  // ---- Backoff ----

  const TWO_63 := 0x8000_0000_0000_0000
  const TWO_64 := 0x1_0000_0000_0000_0000

  /** The value a 64-bit signed integer holds after an operation with this exact result. */
  function Int64(x: int): int {
    (x + TWO_63) % TWO_64 - TWO_63
  }

  function ComputeHealthBackoff(failures: int): int {
    if failures < 1 then BACKOFF_INITIAL
    else
      var shift := failures - 1;
      if shift > 30 then BACKOFF_MAX
      else Capped(Int64(BACKOFF_INITIAL * Pow2(shift)))
  }

  function Capped(d: int): int {
    if d <= 0 || d > BACKOFF_MAX then BACKOFF_MAX else d
  }

  lemma Pow2Values()
    ensures Pow2(5) == 32 && Pow2(6) == 64 && Pow2(29) == 0x2000_0000 && Pow2(30) == 0x4000_0000
  {
    assert Pow2(10) == 1024;
    assert Pow2(20) == 0x10_0000;
  }

  lemma FitsInt64(x: int)
    requires 0 <= x < TWO_64
    ensures Int64(x) == if x < TWO_63 then x else x - TWO_64
  {
  }

  /** The shift overflows in exactly one reachable case. */
  lemma OverflowsOnce(shift: nat)
    requires shift <= 30
    ensures Int64(BACKOFF_INITIAL * Pow2(shift)) != BACKOFF_INITIAL * Pow2(shift) <==> shift == 30
    ensures shift == 30 ==> Int64(BACKOFF_INITIAL * Pow2(shift)) < 0
  {
    Pow2Values();
    if shift <= 29 {
      Pow2Monotone(shift, 29);
      ShiftFits(Pow2(shift));
    } else {
      FitsInt64(BACKOFF_INITIAL * 0x4000_0000);
    }
  }

  lemma LargeShift(p: int)
    requires p >= 0x4000_0000
    ensures BACKOFF_INITIAL * p > BACKOFF_MAX
  {
  }

  lemma ShiftFits(p: int)
    requires 1 <= p <= 0x2000_0000
    ensures Int64(BACKOFF_INITIAL * p) == BACKOFF_INITIAL * p
  {
    FitsInt64(BACKOFF_INITIAL * p);
  }

  lemma CappedShift(p: int)
    requires 1 <= p <= 0x2000_0000
    ensures Capped(Int64(BACKOFF_INITIAL * p))
            == if BACKOFF_INITIAL * p <= BACKOFF_MAX then BACKOFF_INITIAL * p else BACKOFF_MAX
  {
    ShiftFits(p);
  }

  lemma CappedOverflow()
    ensures Capped(Int64(BACKOFF_INITIAL * 0x4000_0000)) == BACKOFF_MAX
  {
    FitsInt64(BACKOFF_INITIAL * 0x4000_0000);
  }

  /** Wrap-around and caps included, the backoff is 15 seconds doubled per further failure, up to 15 minutes. */
  lemma BackoffExact(n: nat)
    requires n >= 1
    ensures ComputeHealthBackoff(n)
            == if 15 * SECOND * Pow2(n - 1) <= 900 * SECOND then 15 * SECOND * Pow2(n - 1) else 900 * SECOND
  {
    Pow2Values();
    if n >= 31 {
      Pow2Monotone(30, n - 1);
      LargeShift(Pow2(n - 1));
      CappedOverflow();
    } else {
      Pow2Monotone(n - 1, 29);
      CappedShift(Pow2(n - 1));
    }
  }

  lemma Doubles(p: int, q: int)
    requires p <= q
    ensures BACKOFF_INITIAL * p <= BACKOFF_INITIAL * q
  {
  }

  lemma BackoffMonotone(m: int, n: int)
    requires m <= n
    ensures BACKOFF_INITIAL <= ComputeHealthBackoff(m) <= ComputeHealthBackoff(n) <= BACKOFF_MAX
  {
    if m >= 1 {
      BackoffExact(m);
      Pow2Monotone(m - 1, n - 1);
      Doubles(Pow2(m - 1), Pow2(n - 1));
    }
    if n >= 1 {
      BackoffExact(n);
      Doubles(1, Pow2(n - 1));
    }
  }

  // ---- Classes of remote errors ----

  datatype Reason =
    | Conflict | AlreadyExists | NotFound | InternalError | Invalid | BadRequest | OtherReason

  /** status is absent when the error is no answer of an API server at all. */
  datatype RemoteError = RemoteError(noMatch: bool, status: Option<ApiStatus>)
  datatype ApiStatus = ApiStatus(reason: Reason, code: int)

  datatype ErrorClass = Unreachable | NotReady | Rejected

  /** No answer of an API server, or one that is none of its own: neither a missing kind, nor a conflict or a
      missing object, nor a failure inside it, nor a refusal. */
  predicate Unanswered(e: RemoteError) {
    && !e.noMatch
    && (e.status.Some? ==>
          || e.status.value.reason == OtherReason
          || (e.status.value.reason == InternalError && e.status.value.code != 500))
  }

  function Classify(e: RemoteError): (c: ErrorClass)
    ensures c == Unreachable <==> Unanswered(e)
    ensures c == Rejected <==>
            !e.noMatch && e.status.Some? && (e.status.value.reason == Invalid || e.status.value.reason == BadRequest)
  {
    if e.noMatch then NotReady
    else if e.status.None? then Unreachable
    else
      match e.status.value.reason
      case Conflict => NotReady
      case AlreadyExists => NotReady
      case NotFound => NotReady
      case InternalError => if e.status.value.code == 500 then NotReady else Unreachable
      case Invalid => Rejected
      case BadRequest => Rejected
      case OtherReason => Unreachable
  }

  // ---- The health record as a function of what happened ----

  /** One attempt to write to a cluster. */
  datatype Attempt = Succeeded | FailedAt(now: int, error: RemoteError)

  type Attempts = seq<Attempt>

  predicate Counts(a: Attempt) {
    a.FailedAt? && Unanswered(a.error)
  }

  /** The attempts after the last success that say the cluster itself is unreachable. */
  function Failures(log: Attempts): nat {
    if log == [] then 0
    else
      var last := log[|log| - 1];
      if last.Succeeded? then 0 else Failures(log[..|log| - 1]) + if Counts(last) then 1 else 0
  }

  function LastFailure(log: Attempts): int
    requires Failures(log) > 0
  {
    var last := log[|log| - 1];
    if Counts(last) then last.now else LastFailure(log[..|log| - 1])
  }

  datatype HealthState = HealthState(consecutiveFailures: int, openUntil: int)

  function RecordOf(log: Attempts): Option<HealthState> {
    if Failures(log) == 0 then None
    else Some(HealthState(Failures(log), LastFailure(log) + ComputeHealthBackoff(Failures(log))))
  }

  function Positions(log: Attempts, s: nat): set<nat> {
    set i: nat | s <= i < |log| && Counts(log[i])
  }

  /** An independent reading of the record: the number of unanswered attempts after the last success, and the
      time of the last of them. */
  lemma {:induction false} FailuresSinceSuccess(log: Attempts, s: nat)
    requires s <= |log| && (s > 0 ==> log[s - 1].Succeeded?)
    requires forall i | s <= i < |log| :: log[i].FailedAt?
    ensures Failures(log) == |Positions(log, s)|
    ensures forall i | i in Positions(log, s) && (forall j | j in Positions(log, s) :: j <= i) ::
              LastFailure(log) == log[i].now
  {
    if |log| > s {
      var n := |log| - 1;
      FailuresSinceSuccess(log[..n], s);
      var before := Positions(log[..n], s);
      assert Positions(log, s) == if Counts(log[n]) then before + {n} else before;
      assert forall i | i in before :: log[..n][i] == log[i];
    } else {
      assert Positions(log, s) == {};
    }
  }

  function LogOf(attempts: map<CacheKey, Attempts>, key: CacheKey): Attempts {
    if key in attempts then attempts[key] else []
  }

  type Health = map<CacheKey, HealthState>

  function HealthOf(health: Health, key: CacheKey): Option<HealthState> {
    if key in health then Some(health[key]) else None
  }

  ghost predicate HealthFits(health: Health, attempts: map<CacheKey, Attempts>) {
    forall k :: RecordOf(LogOf(attempts, k)) == HealthOf(health, k)
  }

  lemma HealthFitsAfter(health: Health, after: Health, attempts: map<CacheKey, Attempts>, key: CacheKey, a: Attempt)
    requires HealthFits(health, attempts)
    requires forall k | k != key :: HealthOf(after, k) == HealthOf(health, k)
    requires HealthOf(after, key) == RecordOf(LogOf(attempts, key) + [a])
    ensures HealthFits(after, attempts[key := LogOf(attempts, key) + [a]])
  {
    var more := attempts[key := LogOf(attempts, key) + [a]];
    forall k
      ensures RecordOf(LogOf(more, k)) == HealthOf(after, k)
    {
      assert k != key ==> LogOf(more, k) == LogOf(attempts, k);
    }
  }

  /** The backoff of a cluster as a property of its attempts: blocked until the last unreachable failure
      is as far back as the backoff for their number. */
  predicate Blocked(log: Attempts, now: int) {
    Failures(log) > 0 && now < LastFailure(log) + ComputeHealthBackoff(Failures(log))
  }

  class Cache {
    const build: (string, nat) -> Result<Client>
    var clients: Clients
    var health: Health
    var builds: nat
    // Every attempt reported for each cluster.
    ghost var attempts: map<CacheKey, Attempts>

    constructor (build: (string, nat) -> Result<Client>)
      ensures this.build == build && clients == map[] && Valid() && attempts == map[]
    {
      this.build := build;
      clients, health, builds, attempts := map[], map[], 0, map[];
    }

    ghost predicate Valid()
      reads this
    {
      HealthFits(health, attempts)
    }

    // ---- The two locked sections of GetOrCreate ----

    method Lookup(key: CacheKey, resourceVersion: string, now: int) returns (hit: Option<Client>)
      modifies this`clients
      ensures hit == Hit(old(clients), key, resourceVersion)
      ensures hit.Some? <==> key in old(clients) && old(clients)[key].resourceVersion == resourceVersion
      ensures hit.Some? ==> hit.value == old(clients)[key].client
      ensures clients == if hit.Some? then old(clients)[key := CachedClient(hit.value, resourceVersion, now)]
                         else old(clients)
    {
      if key in clients && clients[key].resourceVersion == resourceVersion {
        hit := Some(clients[key].client);
        clients := clients[key := clients[key].(lastUsed := now)];
      } else {
        hit := None;
      }
    }

    method Insert(made: Client, key: CacheKey, resourceVersion: string, now: int) returns (client: Client)
      modifies this`clients
      ensures client == if key in old(clients) && old(clients)[key].resourceVersion == resourceVersion
                        then old(clients)[key].client else made
      ensures clients == old(clients)[key := CachedClient(client, resourceVersion, now)]
    {
      var hit := Lookup(key, resourceVersion, now);
      if hit.Some? {
        return hit.value;
      }
      clients := clients[key := CachedClient(made, resourceVersion, now)];
      return made;
    }

    /** Undisturbed, a call returns the cached client of this key and version or builds one, and after a
        success both find it in the cache. */
    method GetOrCreate(kubeconfig: string, key: CacheKey, resourceVersion: string, now: int)
      returns (result: Result<Client>)
      modifies this`clients, this`builds
      ensures key in old(clients) && old(clients)[key].resourceVersion == resourceVersion ==>
                result == Ok(old(clients)[key].client) && builds == old(builds)
      ensures !(key in old(clients) && old(clients)[key].resourceVersion == resourceVersion) ==>
                result == build(kubeconfig, old(builds)) && builds == old(builds) + 1
      ensures result.Ok? ==> clients == old(clients)[key := CachedClient(result.value, resourceVersion, now)]
      ensures result.Err? ==> clients == old(clients)
    {
      var hit := Lookup(key, resourceVersion, now);
      if hit.Some? {
        return Ok(hit.value);
      }
      result := build(kubeconfig, builds);
      builds := builds + 1;
      if result.Ok? {
        var client := Insert(result.value, key, resourceVersion, now);
        result := Ok(client);
      }
    }

    method Invalidate(key: CacheKey)
      modifies this`clients
      ensures clients == old(clients) - {key}
    {
      clients := clients - {key};
    }

    method EvictIdle(now: int)
      modifies this`clients
      ensures clients == Fresh(old(clients), now)
      ensures forall k :: k in clients <==> k in old(clients) && now - old(clients)[k].lastUsed <= 600 * SECOND
      ensures forall k | k in clients :: clients[k] == old(clients)[k]
    {
      var left := clients.Keys;
      while left != {}
        invariant left <= clients.Keys <= old(clients).Keys
        invariant forall k | k in clients :: clients[k] == old(clients)[k]
        invariant forall k | k in old(clients) && k !in left ::
                    k in clients <==> now - old(clients)[k].lastUsed <= MAX_IDLE
        invariant forall k | k in left :: k in clients
        decreases left
      {
        var key :| key in left;
        if now - clients[key].lastUsed > MAX_IDLE {
          clients := clients - {key};
        }
        left := left - {key};
      }
    }

    // ---- Health ----

    method CheckHealth(key: CacheKey, now: int) returns (ok: bool, waitFor: int)
      requires Valid()
      ensures ok <==> !Blocked(LogOf(attempts, key), now)
      ensures var log := LogOf(attempts, key);
              waitFor == if ok then 0 else LastFailure(log) + ComputeHealthBackoff(Failures(log)) - now
    {
      assert RecordOf(LogOf(attempts, key)) == HealthOf(health, key);
      if key !in health {
        return true, 0;
      }
      var remaining := health[key].openUntil - now;
      if remaining <= 0 {
        return true, 0;
      }
      return false, remaining;
    }

    ghost method Report(key: CacheKey, a: Attempt)
      modifies this`attempts
      ensures attempts == old(attempts)[key := LogOf(old(attempts), key) + [a]]
    {
      attempts := attempts[key := LogOf(attempts, key) + [a]];
    }

    method RecordFailure(key: CacheKey, now: int)
      modifies this`health
      ensures var n := (if key in old(health) then old(health)[key].consecutiveFailures else 0) + 1;
              health == old(health)[key := HealthState(n, now + ComputeHealthBackoff(n))]
    {
      if key !in health {
        health := health[key := HealthState(0, 0)];
      }
      var n := health[key].consecutiveFailures + 1;
      health := health[key := HealthState(n, now + ComputeHealthBackoff(n))];
    }

    method RecordSuccess(key: CacheKey)
      modifies this`health
      ensures health == old(health) - {key}
    {
      health := health - {key};
    }

    /** The health side of handleRemoteSyncError: only unreachability moves the shared pause. */
    method HandleError(key: CacheKey, now: int, error: RemoteError)
      requires Valid()
      modifies this`health, this`attempts
      ensures Valid()
      ensures attempts == old(attempts)[key := LogOf(old(attempts), key) + [FailedAt(now, error)]]
    {
      ghost var was, log := health, LogOf(attempts, key);
      assert RecordOf(log) == HealthOf(health, key);
      RecordAfter(log, FailedAt(now, error));
      if Classify(error) == Unreachable {
        RecordFailure(key, now);
      }
      HealthFitsAfter(was, health, attempts, key, FailedAt(now, error));
      Report(key, FailedAt(now, error));
    }

    method HandleSuccess(key: CacheKey)
      requires Valid()
      modifies this`health, this`attempts
      ensures Valid()
      ensures attempts == old(attempts)[key := LogOf(old(attempts), key) + [Succeeded]]
    {
      ghost var was := health;
      RecordAfter(LogOf(attempts, key), Succeeded);
      RecordSuccess(key);
      HealthFitsAfter(was, health, attempts, key, Succeeded);
      Report(key, Succeeded);
    }
  }

  lemma RecordAfter(log: Attempts, a: Attempt)
    ensures RecordOf(log + [a])
            == if a.Succeeded? then None
               else if Counts(a) then
                 var n := (if RecordOf(log).Some? then RecordOf(log).value.consecutiveFailures else 0) + 1;
                 Some(HealthState(n, a.now + ComputeHealthBackoff(n)))
               else RecordOf(log)
  {
    assert (log + [a])[..|log|] == log;
  }

  // ---- What the locked sections do ----

  function Hit(clients: Clients, key: CacheKey, resourceVersion: string): Option<Client> {
    if key in clients && clients[key].resourceVersion == resourceVersion then Some(clients[key].client) else None
  }

  function Touched(clients: Clients, key: CacheKey, now: int): Clients
    requires key in clients
  {
    clients[key := clients[key].(lastUsed := now)]
  }

  function Inserted(clients: Clients, made: Client, key: CacheKey, resourceVersion: string, now: int): Clients {
    clients[key := CachedClient(
              if Hit(clients, key, resourceVersion).Some? then clients[key].client else made, resourceVersion, now)]
  }

  function Fresh(clients: Clients, now: int): Clients {
    map k | k in clients && now - clients[k].lastUsed <= MAX_IDLE :: clients[k]
  }
}
