/** The one-time gate on initDependencies (internal/controller/dependencies/checker.go). */
module Dependencies {
  import opened Wrappers
  import opened Documents
  import opened Rules

  datatype Dependency = Dependency(name: string, criteria: seq<Criterion>)

  /** Every read of the check: the Application, the Addon of dependency i, and the source of its
      criterion j. Each happens at its own moment, so no two need agree. */
  datatype Cluster = Cluster(app: Read, addon: nat -> Read, source: (nat, nat) -> Read)

  /** Unlike a rule's criterion, a missing path never satisfies a dependency: NotExists holds only of
      an explicit null. */
  function JudgeFound(engine: Engine, c: Criterion, content: Doc): Outcome {
    match engine.extract(content, c.path)
    case Err(e) => Fail(e)
    case Ok(None) => Mismatch(engine.explain(c, None))
    case Ok(Some(actual)) =>
      match c.op
      case Exists => if actual != Null then Match else Mismatch(engine.explain(c, Some(actual)))
      case NotExists => if actual == Null then Match else Mismatch(engine.explain(c, Some(actual)))
      case Comparing(_) =>
        match engine.compare(actual, c.op, c.expected)
        case Err(e) => Fail(e)
        case Ok(true) => Match
        case Ok(false) => Mismatch(engine.explain(c, Some(actual)))
  }

  function JudgeRead(engine: Engine, c: Criterion, r: Read): Outcome {
    match r
    case Failed(e) => Fail(e)
    case Missing => Mismatch("Resource not found")
    case Found(content) => JudgeFound(engine, c, content)
  }

  function CriterionOutcome(engine: Engine, deps: seq<Dependency>, cluster: Cluster, i: nat, j: nat): Outcome
    requires i < |deps| && j < |deps[i].criteria|
  {
    JudgeRead(engine, deps[i].criteria[j],
              if deps[i].criteria[j].source.Some? then cluster.source(i, j) else cluster.addon(i))
  }

  /** What criterion j of dependency i is about: its own source, or the dependency's Addon. */
  function Consulted(deps: seq<Dependency>, cluster: Cluster, i: nat, j: nat): Read
    requires i < |deps| && j < |deps[i].criteria|
  {
    if deps[i].criteria[j].source.None? then cluster.addon(i) else cluster.source(i, j)
  }

  /** The path is there, and is not null, is null or compares, as the operator asks. */
  predicate Satisfied(engine: Engine, c: Criterion, read: Read) {
    && read.Found?
    && var at := engine.extract(read.content, c.path);
       && at.Ok? && at.value.Some?
       && var actual := at.value.value;
          || (c.op == Exists && actual != Null)
          || (c.op == NotExists && actual == Null)
          || (c.op.Comparing? && engine.compare(actual, c.op, c.expected) == Ok(true))
  }

  /** The read, the extraction or the comparison fails. */
  predicate Undecided(engine: Engine, c: Criterion, read: Read) {
    || read.Failed?
    || (read.Found? &&
        var at := engine.extract(read.content, c.path);
        || at.Err?
        || (at.value.Some? && c.op.Comparing? && engine.compare(at.value.value, c.op, c.expected).Err?))
  }

  predicate Fulfilled(engine: Engine, deps: seq<Dependency>, cluster: Cluster, i: nat, j: nat)
    requires i < |deps| && j < |deps[i].criteria|
  {
    Satisfied(engine, deps[i].criteria[j], Consulted(deps, cluster, i, j))
  }

  lemma OutcomeIs(engine: Engine, c: Criterion, read: Read)
    ensures JudgeRead(engine, c, read) == Match <==> Satisfied(engine, c, read)
    ensures JudgeRead(engine, c, read).Fail? <==> Undecided(engine, c, read)
  {
    if read.Found? {
      match engine.extract(read.content, c.path) {
        case Ok(Some(actual)) =>
          match engine.compare(actual, c.op, c.expected) { case Ok(_) => case Err(_) => }
        case _ =>
      }
    }
  }

  /** The dependency's Addon exists and every one of its criteria is satisfied. */
  ghost predicate DependencyMet(engine: Engine, deps: seq<Dependency>, cluster: Cluster, i: nat)
    requires i < |deps|
  {
    cluster.addon(i).Found?
    && forall j | 0 <= j < |deps[i].criteria| :: Fulfilled(engine, deps, cluster, i, j)
  }

  /** Its Addon cannot be read, or the first of its criteria that is not satisfied cannot be decided. */
  ghost predicate DependencyFails(engine: Engine, deps: seq<Dependency>, cluster: Cluster, i: nat)
    requires i < |deps|
  {
    || cluster.addon(i).Failed?
    || (cluster.addon(i).Found? && exists j: nat :: FailsAt(engine, deps, cluster, i, j))
  }

  ghost predicate FailsAt(engine: Engine, deps: seq<Dependency>, cluster: Cluster, i: nat, j: nat)
    requires i < |deps|
  {
    && j < |deps[i].criteria| && Undecided(engine, deps[i].criteria[j], Consulted(deps, cluster, i, j))
    && forall k | 0 <= k < j :: Fulfilled(engine, deps, cluster, i, k)
  }

  ghost predicate AllMet(engine: Engine, deps: seq<Dependency>, cluster: Cluster) {
    forall i | 0 <= i < |deps| :: DependencyMet(engine, deps, cluster, i)
  }

  method CheckDependency(engine: Engine, deps: seq<Dependency>, cluster: Cluster, i: nat) returns (result: Result<bool>)
    requires i < |deps|
    ensures result == Ok(true) <==> DependencyMet(engine, deps, cluster, i)
    ensures result.Err? <==> DependencyFails(engine, deps, cluster, i)
  {
    match cluster.addon(i) {
      case Failed(e) => return Err(e);
      case Missing => return Ok(false);
      case Found(_) =>
    }
    var criteria := deps[i].criteria;
    for j := 0 to |criteria|
      invariant forall k | 0 <= k < j :: Fulfilled(engine, deps, cluster, i, k)
      invariant forall k | 0 <= k < j :: !Undecided(engine, criteria[k], Consulted(deps, cluster, i, k))
    {
      var outcome := CriterionOutcome(engine, deps, cluster, i, j);
      OutcomeIs(engine, criteria[j], Consulted(deps, cluster, i, j));
      match outcome {
        case Fail(e) =>
          assert FailsAt(engine, deps, cluster, i, j) && !Fulfilled(engine, deps, cluster, i, j);
          return Err(e);
        case Mismatch(_) =>
          assert !Fulfilled(engine, deps, cluster, i, j);
          return Ok(false);
        case Match =>
      }
    }
    return Ok(true);
  }

  /** The gate opens when there is nothing to wait for, when the Application is already visible, or
      when every criterion of every dependency is satisfied; in no other case. */
  ghost predicate GateOpens(engine: Engine, deps: seq<Dependency>, cluster: Cluster) {
    deps == [] || cluster.app.Found? || (cluster.app.Missing? && AllMet(engine, deps, cluster))
  }

  /** The Application cannot be read, or the first dependency that is not met fails. */
  ghost predicate GateFails(engine: Engine, deps: seq<Dependency>, cluster: Cluster) {
    && deps != []
    && (cluster.app.Failed? || (cluster.app.Missing? && exists i: nat :: FirstFails(engine, deps, cluster, i)))
  }

  ghost predicate FirstFails(engine: Engine, deps: seq<Dependency>, cluster: Cluster, i: nat) {
    && i < |deps| && DependencyFails(engine, deps, cluster, i)
    && forall k | 0 <= k < i :: DependencyMet(engine, deps, cluster, k)
  }

  method CheckDependencies(engine: Engine, deps: seq<Dependency>, cluster: Cluster) returns (result: Result<bool>)
    ensures result == Ok(true) <==> GateOpens(engine, deps, cluster)
    ensures result.Err? <==> GateFails(engine, deps, cluster)
  {
    if deps == [] {
      return Ok(true);
    }
    match cluster.app {
      case Found(_) => return Ok(true);
      case Failed(e) => return Err(e);
      case Missing =>
    }
    for i := 0 to |deps|
      invariant forall k | 0 <= k < i :: DependencyMet(engine, deps, cluster, k)
      invariant forall k | 0 <= k < i :: !DependencyFails(engine, deps, cluster, k)
    {
      var one := CheckDependency(engine, deps, cluster, i);
      if one.Err? {
        assert FirstFails(engine, deps, cluster, i);
        return one;
      }
      if !one.value {
        return one;
      }
    }
    return Ok(true);
  }
}
