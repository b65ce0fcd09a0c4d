/**
 * The API check: poll until a check succeeds, the waiting time is over or the
 * context is cancelled, and choose the exit code.
 */
module CheckApi {
  import opened Wrappers
  import opened ExitCode

  /**
   * The k-th call of the checker: the time since the start when it returned, what it returned, and
   * whether the context is found cancelled before the next one.
   */
  datatype Poll = Poll(at: int, outcome: Option<Failure>, cancelled: bool)

  const DEADLINE := Failure(false, true)
  const CANCELED := Failure(true, false)

  predicate Stops(p: Poll, wait: int) {
    p.outcome.None? || p.at > wait || p.cancelled
  }

  /** Poll k is the one that ends the loop. */
  ghost predicate StopsAt(polls: nat -> Poll, wait: int, k: nat) {
    Stops(polls(k), wait) && forall j :: 0 <= j < k ==> !Stops(polls(j), wait)
  }

  /** The code offered after the loop ended with poll p; 0 offers nothing. */
  function OfferedCode(p: Poll, wait: int): int {
    if p.outcome.None? then 0
    else if p.at > wait && wait > 0 then 124
    else CodeOf(p.outcome)
  }

  /** Poll k returns no earlier than k intervals after the start. */
  ghost predicate Paced(polls: nat -> Poll, interval: int) {
    forall k: nat :: polls(k).at >= k * interval
  }

  /**
   * The command. It returns nil exactly when the poll that ended the loop was a success, and offers
   * one exit code. `enough` is any poll that ends after the waiting time: time passes.
   */
  method Run(handler: ExitHandler, polls: nat -> Poll, wait: int, ghost enough: nat)
    returns (err: Option<Failure>, checks: nat)
    requires handler.s.status.None? && polls(enough).at > wait
    modifies handler
    ensures 0 < checks <= enough + 1 && StopsAt(polls, wait, checks - 1)
    ensures var p := polls(checks - 1); p.outcome.None? || p.at > wait || p.cancelled
    ensures forall j :: 0 <= j < checks - 1 ==> polls(j).outcome.Some? && polls(j).at <= wait && !polls(j).cancelled
    ensures err == polls(checks - 1).outcome
    ensures handler.s == Step(old(handler.s), SetCode(OfferedCode(polls(checks - 1), wait)), handler.behavior)
    ensures err.None? ==> handler.s == old(handler.s)
    ensures err.Some? && old(handler.s.slot).None? ==>
              handler.s.slot == if polls(checks - 1).at > wait && wait > 0 then Some(124)
                                else if err.value.canceled then None
                                else if err.value.deadlineExceeded then Some(124)
                                else Some(1)
  {
    var lastError: Option<Failure> := None;
    var pollErr: Option<Failure> := None;
    checks := 0;
    while true
      invariant checks <= enough
      invariant forall j :: 0 <= j < checks ==> !Stops(polls(j), wait)
      decreases enough - checks
    {
      var p := polls(checks);
      checks := checks + 1;
      if p.outcome.None? {
        return None, checks;
      }
      lastError := p.outcome;
      if p.at > wait {
        pollErr := Some(DEADLINE);
        break;
      }
      if p.cancelled {
        pollErr := Some(CANCELED);
        break;
      }
    }
    if pollErr.value.deadlineExceeded && wait > 0 {
      handler.SetExitCode(pollErr);
    } else {
      handler.SetExitCode(lastError);
    }
    return lastError, checks;
  }

  /**
   * With a positive interval the loop always ends, after at most floor(wait / interval) + 2 checks
   * (one, if the waiting time is negative).
   */
  lemma BoundedChecks(polls: nat -> Poll, wait: int, interval: int, k: nat)
    requires interval > 0 && Paced(polls, interval) && StopsAt(polls, wait, k)
    ensures wait < 0 ==> k == 0
    ensures wait >= 0 ==> k + 1 <= wait / interval + 2
  {
    if k > 0 {
      assert !Stops(polls(k - 1), wait);
      var n := k - 1;
      assert n * interval <= wait;
      if n > wait / interval {
        QuotientBound(wait, interval, n);
      }
    }
  }

  /** The bound is met: checks that fail exactly on time are repeated as often as it says. */
  lemma BoundIsMet(wait: int, interval: int)
    requires interval > 0 && wait >= 0
    ensures exists polls: nat -> Poll :: Paced(polls, interval) && StopsAt(polls, wait, wait / interval + 1)
  {
    var polls: nat -> Poll := (k: nat) => Poll(k * interval, Some(Failure(false, false)), false);
    var n := wait / interval + 1;
    assert polls(n).at > wait by {
      QuotientBound(wait, interval, n);
    }
    forall j | 0 <= j < n ensures !Stops(polls(j), wait) {
      QuotientHolds(wait, interval, j);
    }
    assert Paced(polls, interval) && StopsAt(polls, wait, n);
  }

  lemma QuotientHolds(wait: int, interval: int, j: nat)
    requires interval > 0 && j <= wait / interval
    ensures j * interval <= wait
  {
    var q := wait / interval;
    assert q * interval <= wait;
    Distribute(j, q - j, interval);
  }

  lemma QuotientBound(wait: int, interval: int, n: nat)
    requires interval > 0 && n > wait / interval
    ensures n * interval > wait
  {
    var q := wait / interval;
    assert wait < q * interval + interval;
    Distribute(q, n - q, interval);
    Grows(n - q, interval);
  }

  lemma Distribute(a: int, b: int, c: int)
    ensures (a + b) * c == a * c + b * c
  {
  }

  lemma Grows(n: int, c: int)
    requires n >= 1 && c > 0
    ensures n * c >= c
  {
  }

  /** Some poll ends after the waiting time, so the loop has an end. */
  lemma EventuallyStops(polls: nat -> Poll, wait: int, interval: int) returns (enough: nat)
    requires interval > 0 && Paced(polls, interval)
    ensures polls(enough).at > wait
  {
    enough := if wait < 0 then 0 else wait + 1;
    assert enough * interval >= enough;
  }

  /**
   * After a timeout with a positive waiting time the process ends with 124, although the fatal error
   * handler offers 1 afterwards and whichever signals arrive, if no code was recorded before.
   */
  lemma TimeoutExits124(p: Poll, wait: int, before: seq<Event>, a: seq<Event>, b: seq<Event>)
    requires wait > 0 && p.outcome.Some? && p.at > wait
    requires var s := Exec(INIT, before, AlwaysErrCode); Running(s) && s.slot.None?
    requires NoExitCall(a) && NoExitCall(b)
    ensures Exec(INIT, before + [SetCode(OfferedCode(p, wait))] + (a + [SetCode(1)] + b) + [ExitCall(false)],
                 AlwaysErrCode).status == Some(124)
  {
    assert NoExitCall(a + [SetCode(1)] + b);
    FirstCodeSurvives(before, 124, a + [SetCode(1)] + b, false);
  }

  /**
   * How a failing check ends the process when no code was recorded before, with the fatal error
   * handler's 1 offered next and anything later: 124 after a timeout or for an error that is itself
   * a deadline, and 1 for every other failure.
   */
  lemma FailureExitStatus(p: Poll, wait: int, before: seq<Event>, later: seq<Event>)
    requires p.outcome.Some? && NoExitCall(later)
    requires var s := Exec(INIT, before, AlwaysErrCode); Running(s) && s.slot.None?
    ensures var offered := [SetCode(OfferedCode(p, wait)), SetCode(1)];
            Exec(INIT, before + offered + later + [ExitCall(false)], AlwaysErrCode).status ==
              if (p.at > wait && wait > 0) || (p.outcome.value.deadlineExceeded && !p.outcome.value.canceled)
              then Some(124) else Some(1)
  {
    var code := OfferedCode(p, wait);
    if code != 0 {
      assert NoExitCall([SetCode(1)] + later);
      FirstCodeSurvives(before, code, [SetCode(1)] + later, false);
      assert before + [SetCode(code), SetCode(1)] + later + [ExitCall(false)]
          == before + [SetCode(code)] + ([SetCode(1)] + later) + [ExitCall(false)];
    } else {
      var s := Exec(INIT, before, AlwaysErrCode);
      ExecAppend(INIT, before, [SetCode(0)], AlwaysErrCode);
      assert [SetCode(0)][1..] == [];
      assert Exec(s, [SetCode(0)], AlwaysErrCode) == Exec(s, [], AlwaysErrCode) == s;
      FirstCodeSurvives(before + [SetCode(0)], 1, later, false);
      assert before + [SetCode(0), SetCode(1)] + later + [ExitCall(false)]
          == before + [SetCode(0)] + [SetCode(1)] + later + [ExitCall(false)];
    }
  }

  /** A plain failure without a waiting time ends with 1 also if signals arrive between the two offers. */
  lemma PlainFailureExits1(p: Poll, before: seq<Event>, later: seq<Event>)
    requires p.outcome == Some(Failure(false, false)) && NoExitCall(later)
    requires var s := Exec(INIT, before, AlwaysErrCode); Running(s) && s.slot.None?
    ensures Exec(INIT, before + [SetCode(OfferedCode(p, 0))] + later + [ExitCall(false)], AlwaysErrCode).status == Some(1)
  {
    FirstCodeSurvives(before, 1, later, false);
  }

  /** A successful check offers nothing, and without signals and other codes the process ends with 0. */
  lemma SuccessExits0(p: Poll, wait: int)
    requires p.outcome.None?
    ensures Exec(INIT, [SetCode(OfferedCode(p, wait)), ExitCall(true)], AlwaysErrCode).status == Some(0)
  {
    var es := [SetCode(OfferedCode(p, wait)), ExitCall(true)];
    ExecFrom(INIT, es, 0, AlwaysErrCode);
    ExecFrom(INIT, es, 1, AlwaysErrCode);
    assert es[2..] == [];
  }

  /**
   * A check interrupted by a signal ends with 128 + signal although the command and the fatal error
   * handler offer other codes; only a second signal ends it otherwise, with 130.
   */
  lemma InterruptedExitsWithSignal(p: Poll, wait: int, before: seq<Event>, a: seq<Event>, b: seq<Event>)
    requires var s := Exec(INIT, before, AlwaysErrCode); Running(s) && s.cancelled
    requires NoExitCall(a) && NoExitCall(b)
    ensures var s := Exec(INIT, before, AlwaysErrCode);
            var rest := [SetCode(OfferedCode(p, wait))] + a + [SetCode(1)] + b + [ExitCall(false)];
            var status := Exec(INIT, before + rest, AlwaysErrCode).status;
            s.goroutine.AwaitSecond? && (status == Some(128 + s.goroutine.first) || status == Some(130))
  {
    var s := Exec(INIT, before, AlwaysErrCode);
    var work := [SetCode(OfferedCode(p, wait))] + a + [SetCode(1)] + b;
    var rest := work + [ExitCall(false)];
    ExecKeepsInv(INIT, before, AlwaysErrCode);
    ExecAppend(INIT, before, rest, AlwaysErrCode);
    ExecAppend(s, work, [ExitCall(false)], AlwaysErrCode);
    InterruptedKeepsSignalCode(s, rest);
    CancelledUntilExit(s, work);
    var t := Exec(s, work, AlwaysErrCode);
    var t' := Step(t, ExitCall(false), AlwaysErrCode);
    assert Exec(t', [ExitCall(false)][1..], AlwaysErrCode) == t';
  }

  /** Without an exit call an interrupted process keeps its code in the channel or ends by a second signal. */
  lemma {:induction false} CancelledUntilExit(s: State, events: seq<Event>)
    requires Inv(s, AlwaysErrCode) && Running(s) && s.cancelled && NoExitCall(events)
    ensures var s' := Exec(s, events, AlwaysErrCode);
            s'.status.Some? || (Running(s') && s'.slot.Some?)
    decreases |events|
  {
    if events != [] {
      assert events[0] in events;
      var s' := Step(s, events[0], AlwaysErrCode);
      StepKeepsInv(s, events[0], AlwaysErrCode);
      if s'.status.Some? {
        EndedStays(s', events[1..], AlwaysErrCode);
      } else {
        CancelledUntilExit(s', events[1..]);
      }
    }
  }
}
