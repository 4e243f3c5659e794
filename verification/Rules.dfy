/** The AddonPhase rule engine (internal/controller/rules/evaluator.go): one evaluation of all rules
    against the cluster, with the memo of source reads, feeding on the statuses it produced before. */
module Rules {
  import opened Wrappers
  import opened Documents
  import opened Aggregation

  datatype Source = Source(apiVersion: string, kind: string, namespace: string, name: string)

  /** The operators other than Exists and NotExists only differ in how a found value is compared. */
  datatype Operator = Exists | NotExists | Comparing(name: string)

  datatype Criterion = Criterion(
    source: Option<Source>, path: string, op: Operator, expected: Option<string>, keep: Option<bool>)

  datatype Rule = Rule(name: string, criteria: seq<Criterion>, selector: ValuesSelector)

  datatype RuleStatus = RuleStatus(
    name: string, matched: bool, latched: bool, message: string, lastEvaluated: int, deployed: bool)

  /** The zero value a Go map yields for a rule without a status. */
  const NO_STATUS := RuleStatus("", false, false, "", 0, false)

  datatype Read = Found(content: Doc) | Missing | Failed(error: string)

  /** JSONPath extraction and value comparison, which are not part of this model. */
  datatype Engine = Engine(
    extract: (Doc, string) -> Result<Option<Value>>,
    compare: (Value, Operator, Option<string>) -> Result<bool>,
    explain: (Criterion, Option<Value>) -> string)

  datatype Outcome = Match | Mismatch(reason: string) | Fail(error: string)

  type Reads = map<Source, Read>

  // ---- Specification: evaluation against one snapshot ----

  /** A snapshot: the target Addon as a map, and what each source read as. */
  datatype Snapshot = Snapshot(target: Result<Doc>, seen: Reads)

  function ReadIn(snap: Snapshot, src: Source): Read {
    if src in snap.seen then snap.seen[src] else Missing
  }

  function JudgeObject(engine: Engine, c: Criterion, content: Doc): Outcome {
    match engine.extract(content, c.path)
    case Err(e) => Fail(e)
    case Ok(None) => if c.op == NotExists then Match else Mismatch(engine.explain(c, None))
    case Ok(Some(actual)) =>
      match c.op
      case Exists => Match
      case NotExists => Mismatch(engine.explain(c, Some(actual)))
      case Comparing(_) =>
        match engine.compare(actual, c.op, c.expected)
        case Err(e) => Fail(e)
        case Ok(true) => Match
        case Ok(false) => Mismatch(engine.explain(c, Some(actual)))
  }

  function NotFoundReason(src: Source): string {
    "Resource " + src.kind + "/" + src.name + " not found"
  }

  function Judge(engine: Engine, c: Criterion, snap: Snapshot): Outcome {
    match c.source
    case None =>
      (match snap.target
       case Err(e) => Fail(e)
       case Ok(content) => JudgeObject(engine, c, content))
    case Some(src) =>
      match ReadIn(snap, src)
      case Failed(e) => Fail(e)
      case Missing => Mismatch(NotFoundReason(src))
      case Found(content) => JudgeObject(engine, c, content)
  }

  // What a criterion asks for, in terms of its document, the extraction and the comparison alone.

  /** What the criterion is about: its source as read, or the target Addon. */
  function Consulted(c: Criterion, snap: Snapshot): Read {
    if c.source.None? then if snap.target.Ok? then Found(snap.target.value) else Failed(snap.target.error)
    else if c.source.value in snap.seen then snap.seen[c.source.value]
    else Missing
  }

  /** The path is absent and is to be, or is there and is to be or compares. */
  predicate Satisfied(engine: Engine, c: Criterion, content: Doc) {
    var at := engine.extract(content, c.path);
    && at.Ok?
    && if at.value.None? then c.op == NotExists
       else c.op == Exists || (c.op.Comparing? && engine.compare(at.value.value, c.op, c.expected) == Ok(true))
  }

  /** The extraction or the comparison fails. */
  predicate Undecided(engine: Engine, c: Criterion, content: Doc) {
    var at := engine.extract(content, c.path);
    || at.Err?
    || (at.value.Some? && c.op.Comparing? && engine.compare(at.value.value, c.op, c.expected).Err?)
  }

  /** A match iff a document was found and satisfies, a failure iff the read, the extraction or the
      comparison failed, and in every other case a mismatch with its reason. */
  predicate Answers(engine: Engine, c: Criterion, read: Read, outcome: Outcome) {
    && (outcome == Match <==> read.Found? && Satisfied(engine, c, read.content))
    && (outcome.Fail? <==> read.Failed? || (read.Found? && Undecided(engine, c, read.content)))
    && (outcome.Mismatch? ==>
          outcome.reason
          == if read.Found? then engine.explain(c, engine.extract(read.content, c.path).value)
             else if c.source.None? then ""
             else "Resource " + c.source.value.kind + "/" + c.source.value.name + " not found")
  }

  lemma JudgeAnswers(engine: Engine, c: Criterion, snap: Snapshot)
    ensures Answers(engine, c, Consulted(c, snap), Judge(engine, c, snap))
  {
    if Consulted(c, snap).Found? {
      var at := engine.extract(Consulted(c, snap).content, c.path);
      match at {
        case Ok(Some(actual)) =>
          match engine.compare(actual, c.op, c.expected) { case Ok(_) => case Err(_) => }
        case _ =>
      }
    }
  }

  predicate IsKeep(c: Criterion) {
    c.keep.None? || c.keep.value
  }

  predicate HasKeepable(rule: Rule) {
    rule.criteria == [] || exists i | 0 <= i < |rule.criteria| :: IsKeep(rule.criteria[i])
  }

  /** Criteria in order up to the first that does not match; a latched rule skips its keep criteria. */
  function JudgeAll(engine: Engine, criteria: seq<Criterion>, snap: Snapshot, latched: bool): Outcome {
    if criteria == [] then Match
    else
      var front, last := JudgeAll(engine, criteria[..|criteria| - 1], snap, latched), criteria[|criteria| - 1];
      if front != Match || (latched && IsKeep(last)) then front else Judge(engine, last, snap)
  }

  function MatchMessage(rule: Rule): string {
    if rule.criteria == [] then "No conditions" else "All conditions satisfied"
  }

  function NextStatus(rule: Rule, prev: RuleStatus, outcome: Outcome, now: int): RuleStatus {
    var matched := outcome == Match;
    var latched := matched && HasKeepable(rule);
    var message := if outcome.Mismatch? then outcome.reason else MatchMessage(rule);
    var same := prev.name != "" && prev.matched == matched && prev.latched == latched && prev.message == message;
    RuleStatus(rule.name, matched, latched, message, if same then prev.lastEvaluated else now, prev.deployed)
  }

  function PreviousStatuses(statuses: seq<RuleStatus>): map<string, RuleStatus> {
    if statuses == [] then map[]
    else PreviousStatuses(statuses[..|statuses| - 1])[statuses[|statuses| - 1].name := statuses[|statuses| - 1]]
  }

  function Previous(prev: map<string, RuleStatus>, name: string): RuleStatus {
    if name in prev then prev[name] else NO_STATUS
  }

  datatype Evaluation = Evaluation(statuses: seq<RuleStatus>, selectors: seq<ValuesSelector>)

  function Evaluate(
    engine: Engine, rules: seq<Rule>, prev: map<string, RuleStatus>, snap: Snapshot, now: int): (r: Result<Evaluation>)
    ensures r.Ok? ==> |r.value.statuses| == |rules|
  {
    if rules == [] then Ok(Evaluation([], []))
    else
      match Evaluate(engine, rules[..|rules| - 1], prev, snap, now)
      case Err(e) => Err(e)
      case Ok(done) =>
        var rule := rules[|rules| - 1];
        var was := Previous(prev, rule.name);
        Extended(done, rule, was, JudgeAll(engine, rule.criteria, snap, was.latched), now)
  }

  // ---- The source's evaluation, reading a cluster that may change between reads ----

  function Join(parts: seq<string>): string {
    if |parts| == 0 then "" else if |parts| == 1 then parts[0] else parts[0] + "|" + Join(parts[1..])
  }

  /** The memo key. */
  function Key(src: Source): string {
    Join([src.apiVersion, src.kind, src.namespace, src.name])
  }

  predicate Plain(s: string) {
    '|' !in s
  }

  predicate PlainSource(src: Source) {
    Plain(src.apiVersion) && Plain(src.kind) && Plain(src.namespace) && Plain(src.name)
  }

  lemma LongerFirst(a: string, b: string, x: string, y: string)
    requires a + "|" + x == b + "|" + y && |a| < |b|
    ensures '|' in b
  {
    assert b[|a|] == (b + "|" + y)[|a|] == (a + "|" + x)[|a|] == '|';
  }

  lemma FirstComponent(a: string, b: string, x: string, y: string)
    requires Plain(a) && Plain(b) && a + "|" + x == b + "|" + y
    ensures a == b && x == y
  {
    if |a| < |b| { LongerFirst(a, b, x, y); }
    if |b| < |a| { LongerFirst(b, a, y, x); }
    assert a == (a + "|" + x)[..|a|] && b == (b + "|" + y)[..|b|];
    assert x == (a + "|" + x)[|a| + 1..] && y == (b + "|" + y)[|b| + 1..];
  }

  lemma {:induction false} JoinInjective(s: seq<string>, t: seq<string>)
    requires |s| == |t| && Join(s) == Join(t)
    requires forall i | 0 <= i < |s| :: Plain(s[i]) && Plain(t[i])
    ensures s == t
  {
    if |s| > 1 {
      FirstComponent(s[0], t[0], Join(s[1..]), Join(t[1..]));
      JoinInjective(s[1..], t[1..]);
      assert s == [s[0]] + s[1..] && t == [t[0]] + t[1..];
    }
  }

  /** The number of separators in a string. */
  function Bars(s: string): nat {
    if s == [] then 0 else Bars(s[..|s| - 1]) + if s[|s| - 1] == '|' then 1 else 0
  }

  lemma {:induction false} BarsConcat(a: string, b: string)
    ensures Bars(a + b) == Bars(a) + Bars(b)
    decreases |b|
  {
    if b == [] {
      assert a + b == a;
    } else {
      BarsConcat(a, b[..|b| - 1]);
      assert (a + b)[..|a + b| - 1] == a + b[..|b| - 1];
    }
  }

  lemma {:induction false} PlainIsBarless(s: string)
    ensures Plain(s) <==> Bars(s) == 0
  {
    if s != [] {
      PlainIsBarless(s[..|s| - 1]);
      assert s == s[..|s| - 1] + [s[|s| - 1]];
    }
  }

  lemma KeyIs(s: Source)
    ensures Key(s) == s.apiVersion + "|" + (s.kind + "|" + (s.namespace + "|" + s.name))
  {
    var a, b, c, d := s.apiVersion, s.kind, s.namespace, s.name;
    assert [a, b, c, d][1..] == [b, c, d] && [b, c, d][1..] == [c, d] && [c, d][1..] == [d];
    assert Join([c, d]) == c + "|" + d;
    assert Join([b, c, d]) == b + "|" + (c + "|" + d);
  }

  lemma KeyBars(s: Source)
    ensures Bars(Key(s)) == 3 <==> PlainSource(s)
  {
    var a, b, c, d := s.apiVersion, s.kind, s.namespace, s.name;
    KeyIs(s);
    TwoParts(a, b + "|" + (c + "|" + d));
    TwoParts(b, c + "|" + d);
    TwoParts(c, d);
    PlainIsBarless(a);
    PlainIsBarless(b);
    PlainIsBarless(c);
    PlainIsBarless(d);
  }

  lemma TwoParts(a: string, b: string)
    ensures Bars(a + "|" + b) == Bars(a) + 1 + Bars(b)
  {
    BarsConcat(a, "|");
    BarsConcat(a + "|", b);
    assert "|"[..0] == "";
  }

  /** The key determines a source without the separator in a component, among all sources. */
  lemma KeyInjective(s: Source, t: Source)
    requires PlainSource(s) && Key(s) == Key(t)
    ensures s == t
  {
    KeyBars(s);
    KeyBars(t);
    var p, q := [s.apiVersion, s.kind, s.namespace, s.name], [t.apiVersion, t.kind, t.namespace, t.name];
    JoinInjective(p, q);
    assert p[0] == q[0] && p[1] == q[1] && p[2] == q[2] && p[3] == q[3];
  }

  lemma SplitAtBar(s: string) returns (x: string, y: string)
    requires !Plain(s)
    ensures s == x + "|" + y
  {
    var i :| 0 <= i < |s| && s[i] == '|';
    x, y := s[..i], s[i + 1..];
  }

  /** A bar may close the first of two components or belong to the second. */
  lemma BarMoves(x: string, y: string, rest: string)
    ensures (x + "|" + y) + "|" + rest == x + "|" + (y + "|" + rest)
  {
  }

  /** With the separator in a component another source has the same key: the bar moves to a neighbour. */
  lemma SharedKey(s: Source) returns (t: Source)
    requires !PlainSource(s)
    ensures t != s && Key(t) == Key(s)
  {
    var a, b, c, d := s.apiVersion, s.kind, s.namespace, s.name;
    if !Plain(a) {
      var x, y := SplitAtBar(a);
      t := Source(x, y + "|" + b, c, d);
      BarMoves(x, y, b + "|" + (c + "|" + d));
      BarMoves(y, b, c + "|" + d);
    } else if !Plain(b) {
      var x, y := SplitAtBar(b);
      t := Source(a, x, y + "|" + c, d);
      BarMoves(x, y, c + "|" + d);
      BarMoves(y, c, d);
    } else if !Plain(c) {
      var x, y := SplitAtBar(c);
      t := Source(a, b, x, y + "|" + d);
      BarMoves(x, y, d);
    } else {
      var x, y := SplitAtBar(d);
      t := Source(a, b, c + "|" + x, y);
      BarMoves(c, x, y);
    }
    KeyIs(s);
    KeyIs(t);
  }

  /** The memo key tells a source from all others iff no component has the separator. */
  lemma KeyUniqueIff(s: Source)
    ensures PlainSource(s) <==> forall t | Key(t) == Key(s) :: t == s
  {
    if PlainSource(s) {
      forall t | Key(t) == Key(s)
        ensures t == s
      {
        KeyInjective(s, t);
      }
    } else {
      var t := SharedKey(s);
    }
  }

  predicate Extends(small: Reads, big: Reads) {
    forall s | s in small :: s in big && big[s] == small[s]
  }

  /** The read behind an answer: the number-th, of this source. */
  datatype Asked = Asked(number: nat, source: Source)

  function Answer(store: (nat, Source) -> Read, asked: Asked): Read {
    store(asked.number, asked.source)
  }

  /** Every source asked for so far was answered with the one read made under its key. */
  ghost predicate Recorded(store: (nat, Source) -> Read, key: Source -> string, first: Reads,
                           asked: map<string, Asked>, count: nat) {
    && (forall s | s in first :: key(s) in asked && first[s] == Answer(store, asked[key(s)]))
    && |asked| == count
    && forall k | k in asked :: asked[k].number < count && key(asked[k].source) == k && asked[k].source in first
  }

  /** The memo: exactly the reads that did not fail. */
  ghost function Memo(store: (nat, Source) -> Read, asked: map<string, Asked>): map<string, Read> {
    map k | k in asked && !Answer(store, asked[k]).Failed? :: Answer(store, asked[k])
  }

  lemma OneMore<K, V>(m: map<K, V>, k: K, v: V)
    requires k !in m
    ensures |m[k := v]| == |m| + 1
  {
    assert m[k := v].Keys == m.Keys + {k};
  }

  lemma Record(store: (nat, Source) -> Read, key: Source -> string, first: Reads, asked: map<string, Asked>,
               count: nat, src: Source)
    requires Recorded(store, key, first, asked, count) && key(src) !in asked
    ensures Recorded(store, key, first[src := store(count, src)], asked[key(src) := Asked(count, src)], count + 1)
    ensures Extends(first, first[src := store(count, src)])
  {
    var answers, now := first[src := store(count, src)], asked[key(src) := Asked(count, src)];
    OneMore(asked, key(src), Asked(count, src));
    forall s | s in answers
      ensures key(s) in now && answers[s] == Answer(store, now[key(s)])
    {
      if s != src {
        assert s in first && key(s) in asked && now[key(s)] == asked[key(s)];
      }
    }
    forall k | k in now
      ensures now[k].number < count + 1 && key(now[k].source) == k && now[k].source in answers
    {
      if k != key(src) {
        assert k in asked && now[k] == asked[k] && asked[k].source in first;
      }
    }
  }

  lemma RecordHit(store: (nat, Source) -> Read, key: Source -> string, first: Reads, asked: map<string, Asked>,
                  count: nat, src: Source, r: Read)
    requires Recorded(store, key, first, asked, count) && key(src) in asked && r == Answer(store, asked[key(src)])
    ensures Recorded(store, key, first[src := r], asked, count)
    ensures Extends(first, first[src := r])
  {
  }

  lemma MemoMiss(store: (nat, Source) -> Read, asked: map<string, Asked>, k: string, read: Asked)
    requires k !in asked
    ensures var r := Answer(store, read);
            Memo(store, asked[k := read]) == if r.Failed? then Memo(store, asked) else Memo(store, asked)[k := r]
  {
  }

  /** Such a source is read itself. */
  lemma PlainAnswered(store: (nat, Source) -> Read, first: Reads, asked: map<string, Asked>, count: nat, s: Source)
    requires Recorded(store, Key, first, asked, count) && s in first && PlainSource(s)
    ensures asked[Key(s)].source == s && first[s] == store(asked[Key(s)].number, s)
  {
    KeyInjective(s, asked[Key(s)].source);
  }

  /** The outcome stands in every snapshot that extends the reads made so far. */
  ghost predicate Settles(engine: Engine, target: Result<Doc>, first: Reads,
                          criteria: seq<Criterion>, latched: bool, outcome: Outcome) {
    forall seen: Reads | Extends(first, seen) ::
      JudgeAll(engine, criteria, Snapshot(target, seen), latched) == outcome
  }

  lemma SettlesNext(engine: Engine, target: Result<Doc>, was: Reads, first: Reads,
                    criteria: seq<Criterion>, i: nat, latched: bool, outcome: Outcome)
    requires i < |criteria| && Extends(was, first)
    requires Settles(engine, target, was, criteria[..i], latched, Match)
    requires if latched && IsKeep(criteria[i]) then outcome == Match
             else JudgedIn(engine, target, first, criteria[i], outcome)
    ensures Settles(engine, target, first, criteria[..i + 1], latched, outcome)
  {
    forall seen: Reads | Extends(first, seen)
      ensures JudgeAll(engine, criteria[..i + 1], Snapshot(target, seen), latched) == outcome
    {
      assert Extends(was, seen);
      assert criteria[..i + 1][..i] == criteria[..i];
    }
  }

  lemma SettlesAll(engine: Engine, target: Result<Doc>, first: Reads,
                   criteria: seq<Criterion>, i: nat, latched: bool, outcome: Outcome)
    requires i <= |criteria| && Settles(engine, target, first, criteria[..i], latched, outcome)
    requires outcome != Match || i == |criteria|
    ensures Settles(engine, target, first, criteria, latched, outcome)
  {
    forall seen: Reads | Extends(first, seen)
      ensures JudgeAll(engine, criteria, Snapshot(target, seen), latched) == outcome
    {
      if i == |criteria| {
        assert criteria[..i] == criteria;
      } else {
        JudgeAllStops(engine, criteria, i, Snapshot(target, seen), latched);
      }
    }
  }

  /** The source of the criterion, if any, was read and gives this outcome. */
  ghost predicate JudgedIn(engine: Engine, target: Result<Doc>, first: Reads, c: Criterion, outcome: Outcome) {
    && (c.source.Some? ==> c.source.value in first)
    && outcome == Judge(engine, c, Snapshot(target, first))
  }

  ghost predicate Evaluated(engine: Engine, target: Result<Doc>, first: Reads, rules: seq<Rule>,
                            prev: map<string, RuleStatus>, now: int, result: Result<Evaluation>) {
    forall seen: Reads | Extends(first, seen) ::
      Evaluate(engine, rules, prev, Snapshot(target, seen), now) == result
  }

  function Extended(done: Evaluation, rule: Rule, was: RuleStatus, outcome: Outcome, now: int): Result<Evaluation> {
    if outcome.Fail? then Err(outcome.error)
    else
      Ok(Evaluation(
        done.statuses + [NextStatus(rule, was, outcome, now)],
        if outcome == Match then done.selectors + [rule.selector] else done.selectors))
  }

  lemma EvaluatedNext(engine: Engine, target: Result<Doc>, was: Reads, first: Reads, rules: seq<Rule>, i: nat,
                      prev: map<string, RuleStatus>, now: int, done: Evaluation, outcome: Outcome)
    requires i < |rules| && Extends(was, first)
    requires Evaluated(engine, target, was, rules[..i], prev, now, Ok(done))
    requires Settles(engine, target, first, rules[i].criteria, Previous(prev, rules[i].name).latched, outcome)
    ensures Evaluated(engine, target, first, rules[..i + 1], prev, now,
                      Extended(done, rules[i], Previous(prev, rules[i].name), outcome, now))
  {
    forall seen: Reads | Extends(first, seen)
      ensures Evaluate(engine, rules[..i + 1], prev, Snapshot(target, seen), now)
              == Extended(done, rules[i], Previous(prev, rules[i].name), outcome, now)
    {
      assert Extends(was, seen);
      assert rules[..i + 1][..i] == rules[..i];
    }
  }

  lemma EvaluatedStops(engine: Engine, target: Result<Doc>, first: Reads, rules: seq<Rule>, i: nat,
                       prev: map<string, RuleStatus>, now: int, result: Result<Evaluation>)
    requires i <= |rules| && Evaluated(engine, target, first, rules[..i], prev, now, result)
    requires result.Err? || i == |rules|
    ensures Evaluate(engine, rules, prev, Snapshot(target, first), now) == result
  {
    assert Extends(first, first);
    if i == |rules| {
      assert rules[..i] == rules;
    } else {
      EvaluateStops(engine, rules, i, prev, Snapshot(target, first), now);
    }
  }

  /** evalContext: the memo of one EvaluateRules call, over a cluster whose n-th read, of a source s,
      returns store(n, s). */
  class EvalContext {
    const engine: Engine
    const target: Result<Doc>
    const store: (nat, Source) -> Read
    const key: Source -> string
    var sources: map<string, Read>
    var readCount: nat
    // What each source was answered with, and the read made under each key.
    ghost var first: Reads
    ghost var asked: map<string, Asked>

    constructor (engine: Engine, target: Result<Doc>, store: (nat, Source) -> Read)
      ensures this.engine == engine && this.target == target && this.store == store && key == Key
      ensures Live() && first == map[] && readCount == 0
    {
      this.engine, this.target, this.store, this.key := engine, target, store, Key;
      sources, readCount, first, asked := map[], 0, map[], map[];
    }

    ghost predicate Valid()
      reads this
    {
      Recorded(store, key, first, asked, readCount) && sources == Memo(store, asked)
    }

    /** No read has failed yet. */
    ghost predicate Live()
      reads this
    {
      Valid() && forall k | k in asked :: k in sources
    }

    method ResolveSource(src: Source) returns (r: Read)
      requires Live()
      modifies this
      ensures Valid() && Extends(old(first), first)
      ensures src in first && r == first[src]
      ensures !r.Failed? ==> Live()
    {
      if key(src) in sources {
        r := sources[key(src)];
        RecordHit(store, key, first, asked, readCount, src, r);
        first := first[src := r];
        return;
      }
      r := store(readCount, src);
      Record(store, key, first, asked, readCount, src);
      MemoMiss(store, asked, key(src), Asked(readCount, src));
      first, asked, readCount := first[src := r], asked[key(src) := Asked(readCount, src)], readCount + 1;
      if !r.Failed? {
        sources := sources[key(src) := r];
      }
    }

    method EvaluateCriterion(c: Criterion) returns (outcome: Outcome)
      requires Live()
      modifies this
      ensures Valid() && Extends(old(first), first)
      ensures JudgedIn(engine, target, first, c, outcome)
      ensures Answers(engine, c, Consulted(c, Snapshot(target, first)), outcome)
      ensures !outcome.Fail? ==> Live()
    {
      match c.source {
        case None =>
          match target {
            case Err(e) => outcome := Fail(e);
            case Ok(content) => outcome := JudgeObject(engine, c, content);
          }
        case Some(src) =>
          var r := ResolveSource(src);
          match r {
            case Failed(e) => outcome := Fail(e);
            case Missing => outcome := Mismatch(NotFoundReason(src));
            case Found(content) => outcome := JudgeObject(engine, c, content);
          }
      }
      JudgeAnswers(engine, c, Snapshot(target, first));
    }

    method EvaluateRule(rule: Rule, latched: bool) returns (outcome: Outcome)
      requires Live()
      modifies this
      ensures Valid() && Extends(old(first), first)
      ensures Settles(engine, target, first, rule.criteria, latched, outcome)
      ensures !outcome.Fail? ==> Live()
    {
      var criteria := rule.criteria;
      for i := 0 to |criteria|
        invariant Live() && Extends(old(first), first)
        invariant Settles(engine, target, first, criteria[..i], latched, Match)
      {
        ghost var was := first;
        outcome := Match;
        if !(latched && IsKeep(criteria[i])) {
          outcome := EvaluateCriterion(criteria[i]);
        }
        SettlesNext(engine, target, was, first, criteria, i, latched, outcome);
        if outcome != Match {
          SettlesAll(engine, target, first, criteria, i + 1, latched, outcome);
          return;
        }
      }
      SettlesAll(engine, target, first, criteria, |criteria|, latched, Match);
      return Match;
    }

    method EvaluateRules(rules: seq<Rule>, prev: map<string, RuleStatus>, now: int)
      returns (result: Result<Evaluation>)
      requires Live()
      modifies this
      ensures Valid()
      ensures result == Evaluate(engine, rules, prev, Snapshot(target, first), now)
    {
      var ruleStatuses: seq<RuleStatus> := [];
      var activeSelectors: seq<ValuesSelector> := [];
      for i := 0 to |rules|
        invariant Live()
        invariant Evaluated(engine, target, first, rules[..i], prev, now,
                            Ok(Evaluation(ruleStatuses, activeSelectors)))
      {
        ghost var was, done := first, Evaluation(ruleStatuses, activeSelectors);
        var previous := Previous(prev, rules[i].name);
        var outcome := EvaluateRule(rules[i], previous.latched);
        EvaluatedNext(engine, target, was, first, rules, i, prev, now, done, outcome);
        if outcome.Fail? {
          EvaluatedStops(engine, target, first, rules, i + 1, prev, now, Err(outcome.error));
          return Err(outcome.error);
        }
        ruleStatuses := ruleStatuses + [NextStatus(rules[i], previous, outcome, now)];
        if outcome == Match {
          activeSelectors := activeSelectors + [rules[i].selector];
        }
      }
      EvaluatedStops(engine, target, first, rules, |rules|, prev, now, Ok(Evaluation(ruleStatuses, activeSelectors)));
      return Ok(Evaluation(ruleStatuses, activeSelectors));
    }
  }

  lemma {:induction false} JudgeAllStops(
    engine: Engine, criteria: seq<Criterion>, i: nat, snap: Snapshot, latched: bool)
    requires i <= |criteria| && JudgeAll(engine, criteria[..i], snap, latched) != Match
    ensures JudgeAll(engine, criteria, snap, latched) == JudgeAll(engine, criteria[..i], snap, latched)
    decreases |criteria| - i
  {
    if i < |criteria| {
      assert criteria[..i + 1][..i] == criteria[..i];
      JudgeAllStops(engine, criteria, i + 1, snap, latched);
    } else {
      assert criteria[..i] == criteria;
    }
  }

  lemma {:induction false} EvaluateStops(
    engine: Engine, rules: seq<Rule>, i: nat, prev: map<string, RuleStatus>, snap: Snapshot, now: int)
    requires i <= |rules| && Evaluate(engine, rules[..i], prev, snap, now).Err?
    ensures Evaluate(engine, rules, prev, snap, now) == Evaluate(engine, rules[..i], prev, snap, now)
    decreases |rules| - i
  {
    if i < |rules| {
      assert rules[..i + 1][..i] == rules[..i];
      EvaluateStops(engine, rules, i + 1, prev, snap, now);
    } else {
      assert rules[..i] == rules;
    }
  }

  /** A separator inside a component makes two sources share one memo entry. */
  lemma KeyCollision()
    ensures Source("a", "b|c", "", "") != Source("a|b", "c", "", "")
    ensures Key(Source("a", "b|c", "", "")) == Key(Source("a|b", "c", "", ""))
  {
    assert |"a"| != |"a|b"|;
    var p, q := ["a", "b|c", "", ""], ["a|b", "c", "", ""];
    assert p[2..] == q[2..] && p[1..][1..] == p[2..] && q[1..][1..] == q[2..];
    var rest := Join(p[2..]);
    assert Join(p[1..]) == "b|c" + "|" + rest && Join(q[1..]) == "c" + "|" + rest;
    assert Join(p) == "a|b|c|" + rest && Join(q) == "a|b|c|" + rest;
  }
}
