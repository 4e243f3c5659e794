/** The rule engine over whole runs: the closed form of latching and the fixed point on an unchanged
    cluster (internal/controller/rules/evaluator.go, internal/controller/addonphase/controller.go). */
module RuleHistory {
  import opened Wrappers
  import opened Aggregation
  import opened Rules

  ghost predicate UniqueNames(rules: seq<Rule>) {
    forall i, j | 0 <= i < j < |rules| :: rules[i].name != rules[j].name
  }

  /** The document of a criterion is there in the snapshot and satisfies it. */
  predicate Holds(engine: Engine, c: Criterion, snap: Snapshot) {
    Consulted(c, snap).Found? && Satisfied(engine, c, Consulted(c, snap).content)
  }

  ghost predicate AllHold(engine: Engine, rule: Rule, snap: Snapshot) {
    forall i | 0 <= i < |rule.criteria| :: Holds(engine, rule.criteria[i], snap)
  }

  /** The criteria a latched rule still evaluates (keep=false) match in the snapshot. */
  ghost predicate FreshHold(engine: Engine, rule: Rule, snap: Snapshot) {
    forall i | 0 <= i < |rule.criteria| && rule.criteria[i].keep == Some(false) ::
      Holds(engine, rule.criteria[i], snap)
  }

  /** A criterion is evaluated, unless its rule is latched and the criterion is not keep=false. */
  predicate Counts(c: Criterion, latched: bool) {
    latched ==> c.keep == Some(false)
  }

  /** The first criterion that counts and does not hold. */
  ghost predicate FirstUnmet(engine: Engine, criteria: seq<Criterion>, snap: Snapshot, latched: bool, j: nat) {
    && j < |criteria| && Counts(criteria[j], latched) && !Holds(engine, criteria[j], snap)
    && forall i | 0 <= i < j && Counts(criteria[i], latched) :: Holds(engine, criteria[i], snap)
  }

  /** Rules are decided by their first unmet criterion. */
  lemma {:induction false} JudgeAllFirst(engine: Engine, criteria: seq<Criterion>, snap: Snapshot, latched: bool)
    requires JudgeAll(engine, criteria, snap, latched) != Match
    ensures exists j: nat :: FirstUnmet(engine, criteria, snap, latched, j)
                             && Answers(engine, criteria[j], Consulted(criteria[j], snap),
                                        JudgeAll(engine, criteria, snap, latched))
  {
    var n := |criteria| - 1;
    var front := criteria[..n];
    assert forall i | 0 <= i < n :: front[i] == criteria[i];
    if JudgeAll(engine, front, snap, latched) != Match {
      JudgeAllFirst(engine, front, snap, latched);
      var j: nat :| FirstUnmet(engine, front, snap, latched, j)
                    && Answers(engine, front[j], Consulted(front[j], snap), JudgeAll(engine, front, snap, latched));
      assert FirstUnmet(engine, criteria, snap, latched, j);
    } else {
      JudgeAllMatches(engine, front, snap, latched);
      JudgeAnswers(engine, criteria[n], snap);
      assert FirstUnmet(engine, criteria, snap, latched, n);
    }
  }

  lemma {:induction false} JudgeAllMatches(engine: Engine, criteria: seq<Criterion>, snap: Snapshot, latched: bool)
    ensures JudgeAll(engine, criteria, snap, latched) == Match <==>
            forall i | 0 <= i < |criteria| && Counts(criteria[i], latched) :: Holds(engine, criteria[i], snap)
  {
    if criteria != [] {
      JudgeAnswers(engine, criteria[|criteria| - 1], snap);
      JudgeAllMatches(engine, criteria[..|criteria| - 1], snap, latched);
      assert forall i | 0 <= i < |criteria| - 1 :: criteria[..|criteria| - 1][i] == criteria[i];
    }
  }

  // ---- One evaluation, rule by rule ----

  /** Statuses line up with the rules they were computed for. */
  ghost predicate Aligned(rules: seq<Rule>, statuses: seq<RuleStatus>) {
    |statuses| == |rules| && forall i | 0 <= i < |rules| :: statuses[i].name == rules[i].name
  }

  lemma {:induction false} EvaluatePointwise(
    engine: Engine, rules: seq<Rule>, prev: map<string, RuleStatus>, snap: Snapshot, now: int, i: nat)
    requires Evaluate(engine, rules, prev, snap, now).Ok? && i < |rules|
    ensures
      var was := Previous(prev, rules[i].name);
      var outcome := JudgeAll(engine, rules[i].criteria, snap, was.latched);
      !outcome.Fail?
      && Evaluate(engine, rules, prev, snap, now).value.statuses[i] == NextStatus(rules[i], was, outcome, now)
  {
    if i < |rules| - 1 {
      EvaluatePointwise(engine, rules[..|rules| - 1], prev, snap, now, i);
    }
  }

  /** What one evaluation reports of a rule, given the status it had. */
  ghost predicate Reports(engine: Engine, rule: Rule, was: RuleStatus, snap: Snapshot, now: int, st: RuleStatus) {
    && st.name == rule.name && st.deployed == was.deployed
    && (st.matched <==>
        forall j | 0 <= j < |rule.criteria| && Counts(rule.criteria[j], was.latched) ::
          Holds(engine, rule.criteria[j], snap))
    && (st.latched <==>
        st.matched && (rule.criteria == [] || exists j :: 0 <= j < |rule.criteria| && MayKeep(rule, j)))
    && (st.matched ==> st.message == if rule.criteria == [] then "No conditions" else "All conditions satisfied")
    && (!st.matched ==> exists j: nat ::
          FirstUnmet(engine, rule.criteria, snap, was.latched, j)
          && Answers(engine, rule.criteria[j], Consulted(rule.criteria[j], snap), Mismatch(st.message)))
    && st.lastEvaluated
       == if was.name != "" && was.matched == st.matched && was.latched == st.latched && was.message == st.message
          then was.lastEvaluated else now
  }

  predicate MayKeep(rule: Rule, j: nat)
    requires j < |rule.criteria|
  {
    rule.criteria[j].keep != Some(false)
  }

  /** The selectors of the matched rules, in the order of the rules. */
  function ActiveSelectors(rules: seq<Rule>, statuses: seq<RuleStatus>): seq<ValuesSelector>
    requires |statuses| == |rules|
  {
    if rules == [] then []
    else
      var n := |rules| - 1;
      ActiveSelectors(rules[..n], statuses[..n]) + if statuses[n].matched then [rules[n].selector] else []
  }

  /** A successful evaluation: the status of each rule, from the criteria it still counts, and the selectors. */
  lemma EvaluationReports(
    engine: Engine, rules: seq<Rule>, prev: map<string, RuleStatus>, snap: Snapshot, now: int)
    requires Evaluate(engine, rules, prev, snap, now).Ok?
    ensures var ev := Evaluate(engine, rules, prev, snap, now).value;
            && ev.selectors == ActiveSelectors(rules, ev.statuses)
            && forall i | 0 <= i < |rules| ::
                 Reports(engine, rules[i], Previous(prev, rules[i].name), snap, now, ev.statuses[i])
  {
    var ev := Evaluate(engine, rules, prev, snap, now).value;
    SelectorsInOrder(engine, rules, prev, snap, now);
    forall i | 0 <= i < |rules|
      ensures Reports(engine, rules[i], Previous(prev, rules[i].name), snap, now, ev.statuses[i])
    {
      EvaluatePointwise(engine, rules, prev, snap, now, i);
      StatusReports(engine, rules[i], Previous(prev, rules[i].name), snap, now);
    }
  }

  lemma StatusReports(engine: Engine, rule: Rule, was: RuleStatus, snap: Snapshot, now: int)
    requires !JudgeAll(engine, rule.criteria, snap, was.latched).Fail?
    ensures Reports(engine, rule, was, snap, now,
                    NextStatus(rule, was, JudgeAll(engine, rule.criteria, snap, was.latched), now))
  {
    var outcome := JudgeAll(engine, rule.criteria, snap, was.latched);
    JudgeAllMatches(engine, rule.criteria, snap, was.latched);
    if outcome != Match {
      JudgeAllFirst(engine, rule.criteria, snap, was.latched);
    }
    assert forall j | 0 <= j < |rule.criteria| :: IsKeep(rule.criteria[j]) <==> MayKeep(rule, j);
  }

  lemma {:induction false} SelectorsInOrder(
    engine: Engine, rules: seq<Rule>, prev: map<string, RuleStatus>, snap: Snapshot, now: int)
    requires Evaluate(engine, rules, prev, snap, now).Ok?
    ensures var ev := Evaluate(engine, rules, prev, snap, now).value;
            ev.selectors == ActiveSelectors(rules, ev.statuses)
  {
    if rules != [] {
      SelectorsInOrder(engine, rules[..|rules| - 1], prev, snap, now);
      var done := Evaluate(engine, rules[..|rules| - 1], prev, snap, now).value;
      var ev := Evaluate(engine, rules, prev, snap, now).value;
      assert ev.statuses[..|rules| - 1] == done.statuses;
    }
  }

  /** The evaluation of a rule fails: the first criterion that counts and does not hold cannot be decided. */
  ghost predicate Breaks(engine: Engine, rule: Rule, was: RuleStatus, snap: Snapshot) {
    exists j: nat ::
      FirstUnmet(engine, rule.criteria, snap, was.latched, j) && Unreadable(engine, rule.criteria[j], snap)
  }

  predicate Unreadable(engine: Engine, c: Criterion, snap: Snapshot) {
    var read := Consulted(c, snap);
    read.Failed? || (read.Found? && Undecided(engine, c, read.content))
  }

  lemma BreaksIff(engine: Engine, rule: Rule, was: RuleStatus, snap: Snapshot)
    ensures JudgeAll(engine, rule.criteria, snap, was.latched).Fail? <==> Breaks(engine, rule, was, snap)
  {
    var outcome := JudgeAll(engine, rule.criteria, snap, was.latched);
    if outcome != Match {
      JudgeAllFirst(engine, rule.criteria, snap, was.latched);
      var j: nat :| FirstUnmet(engine, rule.criteria, snap, was.latched, j)
                    && Answers(engine, rule.criteria[j], Consulted(rule.criteria[j], snap), outcome);
      forall k: nat | FirstUnmet(engine, rule.criteria, snap, was.latched, k)
        ensures k == j
      {
      }
    } else {
      JudgeAllMatches(engine, rule.criteria, snap, was.latched);
    }
  }

  /** The whole evaluation fails iff that of some rule does. */
  lemma {:induction false} EvaluationFailsIff(
    engine: Engine, rules: seq<Rule>, prev: map<string, RuleStatus>, snap: Snapshot, now: int)
    ensures Evaluate(engine, rules, prev, snap, now).Err? <==>
            exists i :: 0 <= i < |rules| && Breaks(engine, rules[i], Previous(prev, rules[i].name), snap)
  {
    if rules != [] {
      var n := |rules| - 1;
      EvaluationFailsIff(engine, rules[..n], prev, snap, now);
      BreaksIff(engine, rules[n], Previous(prev, rules[n].name), snap);
      SomeBreaks(engine, rules, prev, snap, n);
    }
  }

  lemma SomeBreaks(engine: Engine, rules: seq<Rule>, prev: map<string, RuleStatus>, snap: Snapshot, n: nat)
    requires |rules| == n + 1
    ensures (exists i :: 0 <= i < |rules| && Breaks(engine, rules[i], Previous(prev, rules[i].name), snap)) <==>
            || (exists i :: 0 <= i < n && Breaks(engine, rules[..n][i], Previous(prev, rules[..n][i].name), snap))
            || Breaks(engine, rules[n], Previous(prev, rules[n].name), snap)
  {
    assert forall i | 0 <= i < n :: rules[..n][i] == rules[i];
  }

  lemma {:induction false} EvaluateDetermined(
    engine: Engine, rules: seq<Rule>, prev: map<string, RuleStatus>, snap: Snapshot, now: int,
    statuses: seq<RuleStatus>)
    requires |statuses| == |rules|
    requires forall i | 0 <= i < |rules| ::
               var was := Previous(prev, rules[i].name);
               var outcome := JudgeAll(engine, rules[i].criteria, snap, was.latched);
               !outcome.Fail? && statuses[i] == NextStatus(rules[i], was, outcome, now)
    ensures Evaluate(engine, rules, prev, snap, now).Ok?
    ensures Evaluate(engine, rules, prev, snap, now).value.statuses == statuses
  {
    if rules != [] {
      EvaluateDetermined(engine, rules[..|rules| - 1], prev, snap, now, statuses[..|rules| - 1]);
      assert statuses == statuses[..|rules| - 1] + [statuses[|rules| - 1]];
    }
  }

  lemma {:induction false} PreviousOf(rules: seq<Rule>, statuses: seq<RuleStatus>, n: nat, i: nat)
    requires UniqueNames(rules) && Aligned(rules, statuses) && n <= |rules| && i < |rules|
    ensures Previous(PreviousStatuses(statuses[..n]), rules[i].name) == if i < n then statuses[i] else NO_STATUS
  {
    if n > 0 {
      PreviousOf(rules, statuses, n - 1, i);
      assert statuses[..n][..n - 1] == statuses[..n - 1];
      assert statuses[..n][n - 1] == statuses[n - 1];
    }
  }

  lemma PreviousIs(rules: seq<Rule>, statuses: seq<RuleStatus>, i: nat)
    requires UniqueNames(rules) && i < |rules|
    requires statuses == [] || Aligned(rules, statuses)
    ensures Previous(PreviousStatuses(statuses), rules[i].name) == if statuses == [] then NO_STATUS else statuses[i]
  {
    if statuses != [] {
      PreviousOf(rules, statuses, |rules|, i);
      assert statuses[..|rules|] == statuses;
    }
  }

  // ---- Runs ----

  /** The statuses committed after an evaluation: latchDeployedRules may only raise Deployed. */
  ghost predicate CommittedFrom(evaluated: seq<RuleStatus>, committed: seq<RuleStatus>) {
    |committed| == |evaluated|
    && forall i | 0 <= i < |committed| ::
         committed[i] == evaluated[i].(deployed := committed[i].deployed)
         && (evaluated[i].deployed ==> committed[i].deployed)
  }

  ghost predicate Round(engine: Engine, rules: seq<Rule>, before: seq<RuleStatus>, snap: Snapshot, now: int,
                        after: seq<RuleStatus>) {
    var r := Evaluate(engine, rules, PreviousStatuses(before), snap, now);
    r.Ok? && CommittedFrom(r.value.statuses, after)
  }

  /** hist[t] are the statuses committed by the t-th successful evaluation; the first starts from none. */
  ghost predicate IsRun(engine: Engine, rules: seq<Rule>, snaps: seq<Snapshot>, clock: seq<int>,
                        hist: seq<seq<RuleStatus>>) {
    |hist| == |snaps| == |clock| && forall t | 0 <= t < |hist| :: RoundAt(engine, rules, snaps, clock, hist, t)
  }

  ghost predicate RoundAt(engine: Engine, rules: seq<Rule>, snaps: seq<Snapshot>, clock: seq<int>,
                          hist: seq<seq<RuleStatus>>, t: nat)
    requires t < |hist| == |snaps| == |clock|
  {
    Round(engine, rules, if t == 0 then [] else hist[t - 1], snaps[t], clock[t], hist[t])
  }

  lemma RoundAligned(engine: Engine, rules: seq<Rule>, before: seq<RuleStatus>, snap: Snapshot, now: int,
                     after: seq<RuleStatus>)
    requires Round(engine, rules, before, snap, now, after)
    ensures Aligned(rules, after)
  {
    AlignedEvaluation(engine, rules, PreviousStatuses(before), snap, now);
  }

  lemma RunAligned(engine: Engine, rules: seq<Rule>, snaps: seq<Snapshot>, clock: seq<int>,
                   hist: seq<seq<RuleStatus>>, t: nat)
    requires IsRun(engine, rules, snaps, clock, hist) && t < |hist|
    ensures Aligned(rules, hist[t])
  {
    assert RoundAt(engine, rules, snaps, clock, hist, t);
    RoundAligned(engine, rules, if t == 0 then [] else hist[t - 1], snaps[t], clock[t], hist[t]);
  }

  /** One rule's step of a run. */
  lemma RunStep(engine: Engine, rules: seq<Rule>, snaps: seq<Snapshot>, clock: seq<int>,
                hist: seq<seq<RuleStatus>>, t: nat, i: nat)
    requires IsRun(engine, rules, snaps, clock, hist) && UniqueNames(rules) && t < |hist| && i < |rules|
    ensures |hist[t]| == |rules| && (t > 0 ==> |hist[t - 1]| == |rules|)
    ensures
      var was := if t == 0 then NO_STATUS else hist[t - 1][i];
      && hist[t][i].latched == (hist[t][i].matched && HasKeepable(rules[i]))
      && (hist[t][i].matched <==>
          if was.latched then FreshHold(engine, rules[i], snaps[t]) else AllHold(engine, rules[i], snaps[t]))
      && (was.deployed ==> hist[t][i].deployed)
  {
    RunAligned(engine, rules, snaps, clock, hist, t);
    if t > 0 {
      RunAligned(engine, rules, snaps, clock, hist, t - 1);
    }
    assert RoundAt(engine, rules, snaps, clock, hist, t);
    var prev := if t == 0 then [] else hist[t - 1];
    PreviousIs(rules, prev, i);
    EvaluatePointwise(engine, rules, PreviousStatuses(prev), snaps[t], clock[t], i);
    JudgeAllMatches(engine, rules[i].criteria, snaps[t], (if t == 0 then NO_STATUS else hist[t - 1][i]).latched);
  }

  /** Everything held at step s, and the fresh part at every step after it up to t. */
  ghost predicate HeldSince(all: seq<bool>, still: seq<bool>, s: int, t: int)
    requires 0 <= s <= t < |all| && |still| == |all|
  {
    all[s] && forall u | s < u <= t :: still[u]
  }

  ghost predicate Latched(all: seq<bool>, still: seq<bool>, t: nat)
    requires t < |all| && |still| == |all|
  {
    exists s :: 0 <= s <= t && HeldSince(all, still, s, t)
  }

  predicate Recurs(all: seq<bool>, still: seq<bool>, matched: seq<bool>, keepable: bool, u: nat)
    requires u < |all| == |still| == |matched|
  {
    matched[u] <==> if u > 0 && matched[u - 1] && keepable then still[u] else all[u]
  }

  /** The recurrence of latching and its closed form. */
  lemma {:induction false} ClosedForm(all: seq<bool>, still: seq<bool>, matched: seq<bool>, keepable: bool, t: nat)
    requires |all| == |still| == |matched| && t < |all|
    requires forall u | 0 <= u < |all| :: all[u] ==> still[u]
    requires !keepable ==> forall u | 0 <= u < |all| :: still[u] ==> all[u]
    requires forall u | 0 <= u < |all| :: Recurs(all, still, matched, keepable, u)
    ensures matched[t] <==> Latched(all, still, t)
  {
    assert Recurs(all, still, matched, keepable, t);
    if t > 0 {
      ClosedForm(all, still, matched, keepable, t - 1);
      if matched[t] {
        if matched[t - 1] && keepable {
          var s :| 0 <= s <= t - 1 && HeldSince(all, still, s, t - 1);
          assert HeldSince(all, still, s, t);
        } else {
          assert HeldSince(all, still, t, t);
        }
      }
      if Latched(all, still, t) {
        var s :| 0 <= s <= t && HeldSince(all, still, s, t);
        if s < t {
          assert HeldSince(all, still, s, t - 1);
        }
      }
    } else {
      assert HeldSince(all, still, 0, 0) <==> all[0];
    }
  }

  ghost function AllHeld(engine: Engine, rule: Rule, snaps: seq<Snapshot>): (r: seq<bool>)
    ensures |r| == |snaps| && forall t | 0 <= t < |r| :: r[t] == AllHold(engine, rule, snaps[t])
  {
    seq(|snaps|, t requires 0 <= t < |snaps| => AllHold(engine, rule, snaps[t]))
  }

  ghost function FreshHeld(engine: Engine, rule: Rule, snaps: seq<Snapshot>): (r: seq<bool>)
    ensures |r| == |snaps| && forall t | 0 <= t < |r| :: r[t] == FreshHold(engine, rule, snaps[t])
  {
    seq(|snaps|, t requires 0 <= t < |snaps| => FreshHold(engine, rule, snaps[t]))
  }

  /** A rule is matched at step t iff at some step s up to t all its criteria held, and its keep=false
      criteria held at every step after s up to t. */
  lemma LatchClosedForm(engine: Engine, rules: seq<Rule>, snaps: seq<Snapshot>, clock: seq<int>,
                        hist: seq<seq<RuleStatus>>, t: nat, i: nat)
    requires IsRun(engine, rules, snaps, clock, hist) && UniqueNames(rules) && t < |hist| && i < |rules|
    ensures |hist[t]| == |rules|
    ensures hist[t][i].matched <==>
            Latched(AllHeld(engine, rules[i], snaps), FreshHeld(engine, rules[i], snaps), t)
  {
    forall u | 0 <= u < |hist|
      ensures |hist[u]| == |rules|
    {
      RunAligned(engine, rules, snaps, clock, hist, u);
    }
    var matched := seq(|hist|, u requires 0 <= u < |hist| => hist[u][i].matched);
    var all, still := AllHeld(engine, rules[i], snaps), FreshHeld(engine, rules[i], snaps);
    forall u | 0 <= u < |hist|
      ensures Recurs(all, still, matched, HasKeepable(rules[i]), u)
    {
      RunStep(engine, rules, snaps, clock, hist, u, i);
      if u > 0 {
        RunStep(engine, rules, snaps, clock, hist, u - 1, i);
      }
    }
    ClosedForm(all, still, matched, HasKeepable(rules[i]), t);
  }

  /** A rule whose criteria are all kept stays matched once matched. */
  lemma KeptRuleStaysMatched(
    engine: Engine, rules: seq<Rule>, snaps: seq<Snapshot>, clock: seq<int>,
    hist: seq<seq<RuleStatus>>, s: nat, t: nat, i: nat)
    requires IsRun(engine, rules, snaps, clock, hist) && UniqueNames(rules) && s <= t < |hist| && i < |rules|
    requires forall k | 0 <= k < |rules[i].criteria| :: rules[i].criteria[k].keep != Some(false)
    ensures |hist[s]| == |hist[t]| == |rules|
    ensures hist[s][i].matched ==> hist[t][i].matched
  {
    LatchClosedForm(engine, rules, snaps, clock, hist, s, i);
    LatchClosedForm(engine, rules, snaps, clock, hist, t, i);
    if hist[s][i].matched {
      var all, still := AllHeld(engine, rules[i], snaps), FreshHeld(engine, rules[i], snaps);
      var u :| 0 <= u <= s && HeldSince(all, still, u, s);
      assert HeldSince(all, still, u, t);
    }
  }

  // ---- An unchanged cluster ----

  /** One rule over two rounds against the same cluster. */
  lemma RuleSettles(engine: Engine, rules: seq<Rule>, start: seq<RuleStatus>, snap: Snapshot,
                    t1: int, t2: int, t3: int, one: seq<RuleStatus>, two: seq<RuleStatus>, i: nat)
    requires UniqueNames(rules) && i < |rules| && rules[i].name != ""
    requires Round(engine, rules, start, snap, t1, one) && Round(engine, rules, one, snap, t2, two)
    requires Aligned(rules, one) && Aligned(rules, two)
    ensures two[i].matched == one[i].matched && two[i].latched == one[i].latched
    ensures
      var was := Previous(PreviousStatuses(two), rules[i].name);
      var outcome := JudgeAll(engine, rules[i].criteria, snap, was.latched);
      !outcome.Fail? && two[i] == NextStatus(rules[i], was, outcome, t3)
  {
    PreviousIs(rules, one, i);
    PreviousIs(rules, two, i);
    EvaluatePointwise(engine, rules, PreviousStatuses(start), snap, t1, i);
    EvaluatePointwise(engine, rules, PreviousStatuses(one), snap, t2, i);
    JudgeAllMatches(engine, rules[i].criteria, snap, false);
    JudgeAllMatches(engine, rules[i].criteria, snap, true);
  }

  /** From any statuses at all, two rounds against the same cluster reach a fixed point, whatever they
      latched: the matched rules are those of the first round, and a third evaluation changes no status,
      not even an evaluation time. */
  lemma FixedPointAfterTwoRounds(engine: Engine, rules: seq<Rule>, start: seq<RuleStatus>, snap: Snapshot,
                                 t1: int, t2: int, t3: int, one: seq<RuleStatus>, two: seq<RuleStatus>)
    requires UniqueNames(rules) && forall i | 0 <= i < |rules| :: rules[i].name != ""
    requires Round(engine, rules, start, snap, t1, one) && Round(engine, rules, one, snap, t2, two)
    ensures |one| == |two| == |rules|
    ensures forall i | 0 <= i < |rules| :: two[i].matched == one[i].matched
    ensures Evaluate(engine, rules, PreviousStatuses(two), snap, t3).Ok?
    ensures Evaluate(engine, rules, PreviousStatuses(two), snap, t3).value.statuses == two
  {
    RoundAligned(engine, rules, start, snap, t1, one);
    RoundAligned(engine, rules, one, snap, t2, two);
    forall i | 0 <= i < |rules|
      ensures two[i].matched == one[i].matched && two[i].latched == one[i].latched
      ensures
        var was := Previous(PreviousStatuses(two), rules[i].name);
        var outcome := JudgeAll(engine, rules[i].criteria, snap, was.latched);
        !outcome.Fail? && two[i] == NextStatus(rules[i], was, outcome, t3)
    {
      RuleSettles(engine, rules, start, snap, t1, t2, t3, one, two, i);
    }
    EvaluateDetermined(engine, rules, PreviousStatuses(two), snap, t3, two);
  }

  lemma AlignedEvaluation(engine: Engine, rules: seq<Rule>, prev: map<string, RuleStatus>, snap: Snapshot, now: int)
    requires Evaluate(engine, rules, prev, snap, now).Ok?
    ensures Aligned(rules, Evaluate(engine, rules, prev, snap, now).value.statuses)
  {
    forall i | 0 <= i < |rules|
      ensures Evaluate(engine, rules, prev, snap, now).value.statuses[i].name == rules[i].name
    {
      EvaluatePointwise(engine, rules, prev, snap, now, i);
    }
  }
}
