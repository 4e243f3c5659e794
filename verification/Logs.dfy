/** The last event of a kind in a log. */
module Logs {
  function LastThat<T>(log: seq<T>, p: T -> bool): (i: int)
    ensures -1 <= i < |log|
    ensures i >= 0 ==> p(log[i])
  {
    if log == [] then -1
    else if p(log[|log| - 1]) then |log| - 1
    else LastThat(log[..|log| - 1], p)
  }

  lemma LastThatAppend<T>(log: seq<T>, e: T, p: T -> bool)
    ensures LastThat(log + [e], p) == if p(e) then |log| else LastThat(log, p)
  {
    assert (log + [e])[..|log|] == log;
  }

  lemma {:induction false} LastThatSame<T>(log: seq<T>, more: seq<T>, p: T -> bool)
    requires |log| <= |more| && more[..|log|] == log && forall i | |log| <= i < |more| :: !p(more[i])
    ensures LastThat(more, p) == LastThat(log, p)
    decreases |more|
  {
    var n := |more| - 1;
    if |more| > |log| {
      LastThatSame(log, more[..n], p);
      LastThatAppend(more[..n], more[n], p);
      assert more == more[..n] + [more[n]];
    } else {
      assert more == log;
    }
  }
}
