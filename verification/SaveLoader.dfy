/** The poll loop that waits for a loaded colony to report a stable population. */
module SaveLoader {
  import opened Values

  const STABLE_POLLS_REQUIRED := 5
  const MAX_POLLS := 30

  /** The population of the last poll that answered; -1 before any did. */
  function LastPopulation(polls: seq<Option<int>>): int {
    if polls == [] then -1
    else match polls[|polls| - 1]
      case Some(p) => p
      case None => LastPopulation(polls[..|polls| - 1])
  }

  /** How many polls in a row repeated a positive population. */
  function StableCount(polls: seq<Option<int>>): nat {
    if polls == [] then 0
    else
      var front := polls[..|polls| - 1];
      match polls[|polls| - 1]
      case Some(p) => if p > 0 && p == LastPopulation(front) then StableCount(front) + 1 else 0
      case None => 0
  }

  /** The last `count` polls all answered with one positive population, and so did the last
      answer before them. */
  ghost predicate Repeated(polls: seq<Option<int>>, count: nat) {
    count <= |polls| &&
    exists p :: p > 0 && LastPopulation(polls[..|polls| - count]) == p &&
                forall k :: |polls| - count <= k < |polls| ==> polls[k] == Some(p)
  }

  lemma {:induction false} RepeatedLast(polls: seq<Option<int>>, count: nat)
    requires count > 0 && Repeated(polls, count)
    ensures Repeated(polls[..|polls| - 1], count - 1)
    ensures polls[|polls| - 1] == Some(LastPopulation(polls[..|polls| - 1])) && LastPopulation(polls[..|polls| - 1]) > 0
  {
    var front := polls[..|polls| - 1];
    var p :| p > 0 && LastPopulation(polls[..|polls| - count]) == p &&
      forall k :: |polls| - count <= k < |polls| ==> polls[k] == Some(p);
    assert front[..|front| - (count - 1)] == polls[..|polls| - count];
    if count > 1 {
      assert front[|front| - 1] == Some(p);
    } else {
      assert polls[..|polls| - count] == front;
    }
  }

  /** What the counter means. */
  lemma {:induction false} CountMeansRepeated(polls: seq<Option<int>>, count: nat)
    requires count > 0
    ensures StableCount(polls) >= count <==> Repeated(polls, count)
    decreases |polls|
  {
    if polls != [] {
      var front := polls[..|polls| - 1];
      if Repeated(polls, count) {
        RepeatedLast(polls, count);
        if count > 1 {
          CountMeansRepeated(front, count - 1);
        }
      }
      if StableCount(polls) >= count {
        var p := polls[|polls| - 1].value;
        if count == 1 {
          assert front == polls[..|polls| - 1];
        } else {
          CountMeansRepeated(front, count - 1);
          var q :| q > 0 && LastPopulation(front[..|front| - (count - 1)]) == q &&
            forall k :: |front| - (count - 1) <= k < |front| ==> front[k] == Some(q);
          assert front[|front| - 1] == Some(q) && p == q;
          assert front[..|front| - (count - 1)] == polls[..|polls| - count];
          assert forall k :: |polls| - count <= k < |front| ==> polls[k] == front[k];
        }
      }
    }
  }

  /** Five equal polls after the load do not settle it: the first has nothing to repeat. */
  lemma FiveEqualPolls(p: int)
    requires p > 0
    ensures !Repeated([Some(p), Some(p), Some(p), Some(p), Some(p)], STABLE_POLLS_REQUIRED)
    ensures Repeated([Some(p), Some(p), Some(p), Some(p), Some(p), Some(p)], STABLE_POLLS_REQUIRED)
  {
    var five := [Some(p), Some(p), Some(p), Some(p), Some(p)];
    var six := five + [Some(p)];
    assert five[..0] == [] && LastPopulation(five[..0]) == -1;
    assert six[..1] == [Some(p)] && LastPopulation(six[..1]) == p;
    assert six == [Some(p), Some(p), Some(p), Some(p), Some(p), Some(p)];
    assert forall k :: 1 <= k < 6 ==> six[k] == Some(p);
  }

  /** A failed poll starts the count again, but the next answer still counts against the one
      before it. */
  lemma FailedPollKeepsAnswer(polls: seq<Option<int>>, p: int)
    requires p > 0 && LastPopulation(polls) == p
    ensures StableCount(polls + [None]) == 0 && StableCount(polls + [None, Some(p)]) == 1
  {
    var failed := polls + [None];
    assert failed[..|polls|] == polls;
    assert polls + [None, Some(p)] == failed + [Some(p)];
    assert (failed + [Some(p)])[..|failed|] == failed;
  }

  /** Polls until the population repeated five times, or thirty polls. The run settles at the
      first poll after which the last five answers all repeat the answer before them. */
  method Settle(polls: seq<Option<int>>) returns (settled: bool, used: nat)
    requires |polls| == MAX_POLLS
    ensures settled ==> 0 < used <= MAX_POLLS && Repeated(polls[..used], STABLE_POLLS_REQUIRED)
    ensures !settled ==> used == 30
    ensures forall k :: 0 <= k < used || (!settled && k == used) ==> !Repeated(polls[..k], STABLE_POLLS_REQUIRED)
  {
    var stableCount, lastPopulation := 0, -1;
    for i := 0 to MAX_POLLS
      invariant stableCount == StableCount(polls[..i]) && lastPopulation == LastPopulation(polls[..i])
      invariant forall k :: 0 <= k <= i ==> StableCount(polls[..k]) < STABLE_POLLS_REQUIRED
      invariant forall k :: 0 <= k <= i ==> !Repeated(polls[..k], STABLE_POLLS_REQUIRED)
    {
      assert polls[..i + 1][..i] == polls[..i];
      CountMeansRepeated(polls[..i + 1], STABLE_POLLS_REQUIRED);
      match polls[i] {
        case None => stableCount := 0;
        case Some(p) =>
          if p > 0 && p == lastPopulation {
            stableCount := stableCount + 1;
            if stableCount >= STABLE_POLLS_REQUIRED {
              return true, i + 1;
            }
          } else {
            stableCount := 0;
          }
          lastPopulation := p;
      }
    }
    return false, MAX_POLLS;
  }
}
