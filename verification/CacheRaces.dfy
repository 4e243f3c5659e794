/** Concurrent GetOrCreate calls, evictions and invalidations in any interleaving: each call checks the
    cache, builds outside the lock, checks again and inserts
    (internal/controller/addonclaim/remoteclient/cache.go). */
module CacheRaces {
  import opened Wrappers
  import opened RemoteCache

  datatype Call = Call(kubeconfig: string, key: CacheKey, resourceVersion: string)

  datatype Thread = Building(call: Call) | Inserting(call: Call, made: Client)

  /** Calls made so far, and what the finished ones returned. */
  datatype State = State(clients: Clients, threads: map<nat, Thread>, calls: seq<Call>, answers: seq<(Call, Client)>)

  const INIT := State(map[], map[], [], [])

  datatype Step =
    | Begin(thread: nat, call: Call, now: int)
    | FinishBuild(thread: nat, made: Result<nat>)   // the serial of the new client, or the build error
    | Insert(thread: nat, now: int)
    | Evict(now: int)
    | Invalidate(key: CacheKey)

  function Apply(s: State, step: Step): State {
    match step
    case Begin(t, call, now) =>
      if t in s.threads then s
      else
        var r := s.(calls := s.calls + [call]);
        var hit := Hit(s.clients, call.key, call.resourceVersion);
        if hit.Some? then
          r.(clients := Touched(s.clients, call.key, now), answers := s.answers + [(call, hit.value)])
        else r.(threads := s.threads[t := Building(call)])
    case FinishBuild(t, made) =>
      if t !in s.threads || !s.threads[t].Building? then s
      else
        var call := s.threads[t].call;
        if made.Err? then s.(threads := s.threads - {t})
        else s.(threads := s.threads[t := Inserting(call, Client(call.kubeconfig, made.value))])
    case Insert(t, now) =>
      if t !in s.threads || !s.threads[t].Inserting? then s
      else
        var call, made := s.threads[t].call, s.threads[t].made;
        var after := Inserted(s.clients, made, call.key, call.resourceVersion, now);
        s.(clients := after, threads := s.threads - {t}, answers := s.answers + [(call, after[call.key].client)])
    case Evict(now) => s.(clients := Fresh(s.clients, now))
    case Invalidate(key) => s.(clients := s.clients - {key})
  }

  function Run(steps: seq<Step>): State {
    if steps == [] then INIT else Apply(Run(steps[..|steps| - 1]), steps[|steps| - 1])
  }

  /** A kubeconfig that some call passed for this key and version. */
  predicate Supplied(calls: seq<Call>, key: CacheKey, resourceVersion: string, kubeconfig: string) {
    Call(kubeconfig, key, resourceVersion) in calls
  }

  ghost predicate ThreadSound(s: State, t: Thread) {
    t.call in s.calls && (t.Inserting? ==> t.made.kubeconfig == t.call.kubeconfig)
  }

  ghost predicate Inv(s: State) {
    && (forall k | k in s.clients ::
          Supplied(s.calls, k, s.clients[k].resourceVersion, s.clients[k].client.kubeconfig))
    && (forall t | t in s.threads :: ThreadSound(s, s.threads[t]))
    && (forall i | 0 <= i < |s.answers| ::
          var (call, client) := s.answers[i];
          call in s.calls && Supplied(s.calls, call.key, call.resourceVersion, client.kubeconfig))
  }

  lemma StepKeeps(s: State, step: Step)
    requires Inv(s)
    ensures Inv(Apply(s, step))
  {
    match step
    case Begin(t, call, now) =>
      assert forall c | c in s.calls :: c in s.calls + [call];
    case _ =>
  }

  lemma {:induction false} RunKeeps(steps: seq<Step>)
    ensures Inv(Run(steps))
  {
    if steps != [] {
      RunKeeps(steps[..|steps| - 1]);
      StepKeeps(Run(steps[..|steps| - 1]), steps[|steps| - 1]);
    }
  }

  /** Every cached client was built from a kubeconfig some call supplied for its key and version... */
  lemma CachedWasSupplied(steps: seq<Step>, key: CacheKey)
    requires key in Run(steps).clients
    ensures var s := Run(steps);
            Supplied(s.calls, key, s.clients[key].resourceVersion, s.clients[key].client.kubeconfig)
  {
    RunKeeps(steps);
  }

  /** ...and so was every client a call returned. */
  lemma ReturnedWasSupplied(steps: seq<Step>, i: nat)
    requires i < |Run(steps).answers|
    ensures var s := Run(steps);
            var (call, client) := s.answers[i];
            Supplied(s.calls, call.key, call.resourceVersion, client.kubeconfig)
  {
    RunKeeps(steps);
  }

  /** A resource version names one content of the Secret. */
  ghost predicate VersionsDetermine(calls: seq<Call>) {
    forall c, d | c in calls && d in calls && c.key == d.key && c.resourceVersion == d.resourceVersion ::
      c.kubeconfig == d.kubeconfig
  }

  /** The cache is transparent: whatever raced with it, a call gets a client of its own kubeconfig. */
  lemma CacheTransparent(steps: seq<Step>, i: nat)
    requires VersionsDetermine(Run(steps).calls) && i < |Run(steps).answers|
    ensures Run(steps).answers[i].1.kubeconfig == Run(steps).answers[i].0.kubeconfig
  {
    RunKeeps(steps);
    var s := Run(steps);
    var (call, client) := s.answers[i];
    assert call in s.calls && Call(client.kubeconfig, call.key, call.resourceVersion) in s.calls;
  }
}
