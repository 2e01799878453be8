/** The shape shared by both request flows: a fixed list of checks run in order, where
    the first one that does not pass ends the request with its own error and no later
    check runs. */
module Pipeline {
  import opened Wrappers

  /** One step of a flow: whether it passes, the error it raises when it does not, and
      the collaborator calls made, from the start of the flow, by the time it is decided. */
  datatype Check<F, E> = Check(passes: bool, failure: F, trace: seq<E>)

  /** How a run of checks ended: the error of the check that stopped it (`None` when
      every check passed), and the collaborator calls made, in order. */
  datatype Verdict<F, E> = Verdict(failure: Option<F>, effects: seq<E>)

  /** Later checks only add calls to those made before them. */
  ghost predicate Growing<F, E>(cs: seq<Check<F, E>>) {
    forall i, j :: 0 <= i <= j < |cs| ==> cs[i].trace <= cs[j].trace
  }

  /** Runs the checks front to back and stops at the first one that fails; `made` is what
      had been called before the first of them. */
  function RunFrom<F, E>(cs: seq<Check<F, E>>, made: seq<E>): Verdict<F, E> {
    if |cs| == 0 then Verdict(None, made)
    else if !cs[0].passes then Verdict(Some(cs[0].failure), cs[0].trace)
    else RunFrom(cs[1..], cs[0].trace)
  }

  function Run<F, E>(cs: seq<Check<F, E>>): Verdict<F, E> {
    RunFrom(cs, [])
  }

  /** Check `k` is the first one of `cs` that fails. */
  ghost predicate FirstFailureAt<F, E>(cs: seq<Check<F, E>>, k: int) {
    && 0 <= k < |cs|
    && !cs[k].passes
    && forall j :: 0 <= j < k ==> cs[j].passes
  }

  /** The first failing check decides the error, and the calls made are exactly those
      made by the time it was decided: nothing after it runs. */
  lemma {:induction false} RunStopsAtFirstFailure<F, E>(cs: seq<Check<F, E>>, made: seq<E>, k: int)
    requires FirstFailureAt(cs, k)
    ensures RunFrom(cs, made) == Verdict(Some(cs[k].failure), cs[k].trace)
  {
    if k > 0 {
      var tail := cs[1..];
      assert FirstFailureAt(tail, k - 1) by {
        forall j | 0 <= j < k - 1 ensures tail[j].passes {
          assert tail[j] == cs[j + 1];
        }
      }
      RunStopsAtFirstFailure(tail, cs[0].trace, k - 1);
    }
  }

  /** When every check passes, the run completes with no error and with the calls of the
      last check. */
  lemma {:induction false} RunCompletes<F, E>(cs: seq<Check<F, E>>, made: seq<E>)
    requires forall j :: 0 <= j < |cs| ==> cs[j].passes
    ensures RunFrom(cs, made) == Verdict(None, if |cs| == 0 then made else cs[|cs| - 1].trace)
  {
    if |cs| > 0 {
      RunCompletes(cs[1..], cs[0].trace);
    }
  }

  /** With growing traces, whatever a run has called is a prefix of the calls the whole
      list would make. */
  lemma {:induction false} RunCallsPrefix<F, E>(cs: seq<Check<F, E>>, made: seq<E>)
    requires Growing(cs) && |cs| > 0 && made <= cs[0].trace
    ensures RunFrom(cs, made).effects <= cs[|cs| - 1].trace
  {
    if cs[0].passes && |cs| > 1 {
      var tail := cs[1..];
      assert Growing(tail) by {
        forall i, j | 0 <= i <= j < |tail| ensures tail[i].trace <= tail[j].trace {
          assert tail[i] == cs[i + 1] && tail[j] == cs[j + 1];
        }
      }
      assert cs[0].trace <= tail[0].trace by {
        assert tail[0] == cs[1];
      }
      RunCallsPrefix(tail, cs[0].trace);
    }
  }
}
