/**
 * How the program chooses its exit status: a channel of capacity one, filled
 * by the signal goroutine's blocking send or by any number of non-blocking
 * sends, and read once by the exit function.
 */
module ExitCode {
  import opened Wrappers

  datatype Behavior = AlwaysErrCode | GracefulShutdown

  /** What `errors.Is` says of an error. */
  datatype Failure = Failure(canceled: bool, deadlineExceeded: bool)

  /** Where the signal goroutine stands. */
  datatype Goroutine = AwaitFirst | Offering(signal: nat) | Cancelling(signal: nat) | AwaitSecond(first: nat)

  /** `offered` records every code a sender tried to put into the channel, except a send that still blocks. */
  datatype State = State(
    slot: Option<int>, inbox: seq<nat>, goroutine: Goroutine, cancelled: bool,
    exitCalled: bool, status: Option<int>, offered: seq<int>)

  const INIT := State(None, [], AwaitFirst, false, false, None, [])

  const NOTIFY_CAPACITY := 2

  /** `ExitCall(mainReturns)`: the exit function runs; afterwards main returns, or its goroutine has been ended. */
  datatype Event = Signal(signal: nat) | GoroutineStep | SetCode(code: int) | ExitCall(mainReturns: bool)

  function CodeOf(err: Option<Failure>): int {
    if err.None? || err.value.canceled then 0
    else if err.value.deadlineExceeded then 124
    else 1
  }

  function Offer(s: State, code: int): State {
    var t := s.(offered := s.offered + [code]);
    if s.slot.None? then t.(slot := Some(code)) else t
  }

  function GoroutineNext(s: State, behavior: Behavior): State {
    match s.goroutine
    case AwaitFirst =>
      if s.inbox == [] then s
      else
        var signal := s.inbox[0];
        s.(inbox := s.inbox[1..],
           goroutine := if behavior == AlwaysErrCode then Offering(signal) else Cancelling(signal))
    case Offering(signal) =>
      // A blocking send: it completes only when there is room.
      if s.slot.Some? then s else Offer(s, 128 + signal).(goroutine := Cancelling(signal))
    case Cancelling(signal) => s.(cancelled := true, goroutine := AwaitSecond(signal))
    case AwaitSecond(first) => if s.inbox == [] then s else s.(inbox := s.inbox[1..], status := Some(130))
  }

  function Step(s: State, e: Event, behavior: Behavior): State {
    if s.status.Some? then s
    else
      match e
      case Signal(n) => if |s.inbox| < NOTIFY_CAPACITY then s.(inbox := s.inbox + [n]) else s
      case GoroutineStep => GoroutineNext(s, behavior)
      case SetCode(code) => if code == 0 then s else Offer(s, code)
      case ExitCall(mainReturns) =>
        if s.exitCalled then s
        else if s.slot.Some? then s.(exitCalled := true, slot := None, status := s.slot)
        else s.(exitCalled := true, status := if mainReturns then Some(0) else None)
  }

  function Exec(s: State, events: seq<Event>, behavior: Behavior): State
    decreases |events|
  {
    if events == [] then s else Exec(Step(s, events[0], behavior), events[1..], behavior)
  }

  ghost predicate Running(s: State) {
    s.status.None? && !s.exitCalled
  }

  /** The code of the signal the goroutine has finished sending. */
  function SentSignal(g: Goroutine): Option<nat> {
    match g
    case AwaitFirst => None
    case Offering(_) => None
    case Cancelling(n) => Some(n)
    case AwaitSecond(n) => Some(n)
  }

  /** Holds in every reachable state of the protocol. */
  ghost predicate Inv(s: State, behavior: Behavior) {
    && (Running(s) ==> s.slot == if s.offered == [] then None else Some(s.offered[0]))
    && (s.cancelled <==> s.goroutine.AwaitSecond?)
    && (behavior == AlwaysErrCode && SentSignal(s.goroutine).Some? && !s.exitCalled && s.status.None? ==>
          s.slot == Some(128 + SentSignal(s.goroutine).value))
    && (behavior == AlwaysErrCode && SentSignal(s.goroutine).Some? && !s.exitCalled ==>
          s.offered != [] && s.offered[0] == 128 + SentSignal(s.goroutine).value)
    && (s.status == Some(130) && !s.exitCalled ==> s.cancelled)
    && (s.status.Some? && !s.exitCalled ==> s.status == Some(130))
  }

  lemma StepKeepsInv(s: State, e: Event, behavior: Behavior)
    requires Inv(s, behavior)
    ensures Inv(Step(s, e, behavior), behavior)
  {
  }

  lemma {:induction false} ExecKeepsInv(s: State, events: seq<Event>, behavior: Behavior)
    requires Inv(s, behavior)
    ensures Inv(Exec(s, events, behavior), behavior)
    decreases |events|
  {
    if events != [] {
      StepKeepsInv(s, events[0], behavior);
      ExecKeepsInv(Step(s, events[0], behavior), events[1..], behavior);
    }
  }

  /** A zero code is never offered. */
  lemma {:induction false} NoZeroOffered(s: State, events: seq<Event>, behavior: Behavior)
    requires 0 !in s.offered
    ensures 0 !in Exec(s, events, behavior).offered
    decreases |events|
  {
    if events != [] {
      NoZeroOffered(Step(s, events[0], behavior), events[1..], behavior);
    }
  }

  function OfferedBy(e: Event): seq<int> {
    if e.SetCode? && e.code != 0 then [e.code] else []
  }

  /** The non-zero codes offered by other senders than the goroutine. */
  function NonZeroCodes(events: seq<Event>): seq<int> {
    if events == [] then [] else OfferedBy(events[0]) + NonZeroCodes(events[1..])
  }

  ghost predicate NoSignal(events: seq<Event>) {
    forall e :: e in events ==> !e.Signal?
  }

  /** Without signals exactly the non-zero codes are offered, in order. */
  lemma {:induction false} OfferedWithoutSignals(s: State, events: seq<Event>, behavior: Behavior)
    requires Running(s) && s.goroutine == AwaitFirst && s.inbox == [] && NoSignal(events) && NoExitCall(events)
    ensures var s' := Exec(s, events, behavior);
            Running(s') && s'.offered == s.offered + NonZeroCodes(events)
    decreases |events|
  {
    if events != [] {
      assert events[0] in events && !events[0].Signal? && !events[0].ExitCall?;
      var offer := OfferedBy(events[0]);
      var s1 := Step(s, events[0], behavior);
      assert s1.offered == s.offered + offer;
      OfferedWithoutSignals(s1, events[1..], behavior);
      assert (s.offered + offer) + NonZeroCodes(events[1..]) == s.offered + (offer + NonZeroCodes(events[1..]));
    }
  }

  lemma GracefulStep(s: State, e: Event)
    requires !s.goroutine.Offering?
    ensures var s' := Step(s, e, GracefulShutdown);
            && !s'.goroutine.Offering?
            && s'.offered == s.offered + if s.status.None? then OfferedBy(e) else []
  {
  }

  /** Under a graceful shutdown no signal offers a code, however many arrive. */
  lemma {:induction false} GracefulOffersNoSignalCode(s: State, events: seq<Event>)
    requires !s.goroutine.Offering?
    ensures Exec(s, events, GracefulShutdown).offered <= s.offered + NonZeroCodes(events)
    decreases |events|
  {
    if s.status.Some? {
      EndedStays(s, events, GracefulShutdown);
    } else if events != [] {
      var s1 := Step(s, events[0], GracefulShutdown);
      GracefulStep(s, events[0]);
      GracefulOffersNoSignalCode(s1, events[1..]);
      var rest := NonZeroCodes(events[1..]);
      assert (s.offered + OfferedBy(events[0])) + rest == s.offered + (OfferedBy(events[0]) + rest);
    }
  }

  /**
   * Whatever the interleaving, the exit function passes on exactly the first non-zero code that was
   * offered, and nothing if there was none.
   */
  lemma ExitTakesFirstCode(events: seq<Event>, mainReturns: bool, behavior: Behavior)
    requires Running(Exec(INIT, events, behavior))
    ensures var s := Exec(INIT, events, behavior);
            && Step(s, ExitCall(mainReturns), behavior).status ==
              (if s.offered != [] then Some(s.offered[0]) else if mainReturns then Some(0) else None)
            && 0 !in s.offered && (NoSignal(events) && NoExitCall(events) ==> s.offered == NonZeroCodes(events))
  {
    ExecKeepsInv(INIT, events, behavior);
    NoZeroOffered(INIT, events, behavior);
    if NoSignal(events) && NoExitCall(events) {
      OfferedWithoutSignals(INIT, events, behavior);
    }
  }

  /** A cancellation caused by a signal and seen before the exit call means exit status 128 + signal. */
  lemma CancelledExitsNonZero(events: seq<Event>, mainReturns: bool)
    requires var s := Exec(INIT, events, AlwaysErrCode); Running(s) && s.cancelled
    ensures var s := Exec(INIT, events, AlwaysErrCode);
            && s.goroutine.AwaitSecond?
            && Step(s, ExitCall(mainReturns), AlwaysErrCode).status == Some(128 + s.goroutine.first)
  {
    ExecKeepsInv(INIT, events, AlwaysErrCode);
  }

  /** How many signals have arrived. */
  function Signals(events: seq<Event>): nat {
    if events == [] then 0 else (if events[0].Signal? then 1 else 0) + Signals(events[1..])
  }

  /** The signals that are still waiting, were taken first, or ended the process. */
  function Accounted(s: State): nat {
    |s.inbox| + (if s.goroutine.AwaitFirst? then 0 else 1) + (if s.status.Some? && !s.exitCalled then 1 else 0)
  }

  /** No signal is taken that has not arrived, and none is taken twice. */
  lemma {:induction false} SignalsAccountedFor(s: State, events: seq<Event>, behavior: Behavior)
    ensures Accounted(Exec(s, events, behavior)) <= Accounted(s) + Signals(events)
    decreases |events|
  {
    if events != [] {
      SignalsAccountedFor(Step(s, events[0], behavior), events[1..], behavior);
    }
  }

  /**
   * The process ends before the exit call only with 130 and by a second signal, after the first one
   * has cancelled the context and, unless the shutdown is graceful, its code was the first accepted.
   */
  lemma SecondSignalPath(events: seq<Event>, behavior: Behavior)
    requires var s := Exec(INIT, events, behavior); s.status.Some? && !s.exitCalled
    ensures var s := Exec(INIT, events, behavior);
            && s.status == Some(130) && s.cancelled && s.goroutine.AwaitSecond?
            && (behavior == AlwaysErrCode ==> s.offered != [] && s.offered[0] == 128 + s.goroutine.first)
            && Signals(events) >= 2
  {
    ExecKeepsInv(INIT, events, behavior);
    SignalsAccountedFor(INIT, events, behavior);
  }

  /** Between the first cancellation and the exit call nothing changes the outcome but a second signal. */
  lemma {:induction false} InterruptedKeepsSignalCode(s: State, events: seq<Event>)
    requires Inv(s, AlwaysErrCode) && Running(s) && s.cancelled
    ensures var status := Exec(s, events, AlwaysErrCode).status;
            status == None || status == Some(128 + s.goroutine.first) || status == Some(130)
    decreases |events|
  {
    if events != [] {
      var s' := Step(s, events[0], AlwaysErrCode);
      StepKeepsInv(s, events[0], AlwaysErrCode);
      if Running(s') {
        InterruptedKeepsSignalCode(s', events[1..]);
      } else {
        EndedStays(s', events[1..], AlwaysErrCode);
      }
    }
  }

  lemma {:induction false} EndedStays(s: State, events: seq<Event>, behavior: Behavior)
    requires s.status.Some?
    ensures Exec(s, events, behavior) == s
    decreases |events|
  {
    if events != [] {
      EndedStays(s, events[1..], behavior);
    }
  }

  ghost predicate NoExitCall(events: seq<Event>) {
    forall e :: e in events ==> !e.ExitCall?
  }

  /**
   * A code recorded before the goroutine has sent its own blocks that send for good: until the exit
   * call, no signal cancels the context and not even a second one ends the process.
   */
  lemma {:induction false} RecordedCodeMutesSignals(s: State, events: seq<Event>)
    requires Running(s) && s.slot.Some? && SentSignal(s.goroutine).None? && !s.cancelled && NoExitCall(events)
    ensures var s' := Exec(s, events, AlwaysErrCode);
            Running(s') && s'.slot == s.slot && !s'.cancelled && SentSignal(s'.goroutine).None?
    decreases |events|
  {
    if events != [] {
      assert events[0] in events;
      RecordedCodeMutesSignals(Step(s, events[0], AlwaysErrCode), events[1..]);
    }
  }

  /** A first signal, given time, cancels the context exactly when no code was recorded before it or the shutdown is graceful. */
  lemma FirstSignalCancelsIff(s: State, signal: nat, behavior: Behavior)
    requires Running(s) && s.goroutine == AwaitFirst && s.inbox == [] && !s.cancelled
    ensures Exec(s, [Signal(signal), GoroutineStep, GoroutineStep, GoroutineStep], behavior).cancelled
       <==> (s.slot.None? || behavior == GracefulShutdown)
  {
    var s1 := Step(s, Signal(signal), behavior);
    var s2 := Step(s1, GoroutineStep, behavior);
    var s3 := Step(s2, GoroutineStep, behavior);
    var s4 := Step(s3, GoroutineStep, behavior);
    assert s1.inbox == [signal];
    var es := [Signal(signal), GoroutineStep, GoroutineStep, GoroutineStep];
    assert es[1..][1..][1..] == [GoroutineStep] && es[1..][1..] == [GoroutineStep, GoroutineStep];
    assert Exec(s3, [GoroutineStep], behavior) == Exec(s4, [], behavior);
    assert Exec(s2, [GoroutineStep, GoroutineStep], behavior) == Exec(s3, [GoroutineStep], behavior);
    assert Exec(s, es, behavior) == Exec(s1, es[1..], behavior) == Exec(s2, es[1..][1..], behavior);
  }

  /**
   * Two signals, each given time, end the program with 130 exactly when no code was recorded before
   * the first or the shutdown is graceful.
   */
  lemma SecondSignalEndsIff(s: State, first: nat, second: nat, behavior: Behavior)
    requires Running(s) && s.goroutine == AwaitFirst && s.inbox == []
    ensures Exec(s, [Signal(first), GoroutineStep, GoroutineStep, GoroutineStep, Signal(second), GoroutineStep], behavior).status
              == Some(130)
       <==> (s.slot.None? || behavior == GracefulShutdown)
  {
    var es := [Signal(first), GoroutineStep, GoroutineStep, GoroutineStep, Signal(second), GoroutineStep];
    var s1 := Step(s, es[0], behavior);
    var s2 := Step(s1, es[1], behavior);
    var s3 := Step(s2, es[2], behavior);
    var s4 := Step(s3, es[3], behavior);
    var s5 := Step(s4, es[4], behavior);
    assert s1.inbox == [first] && s2.inbox == [] && s5.inbox == [second];
    ExecFrom(s, es, 0, behavior);
    ExecFrom(s1, es, 1, behavior);
    ExecFrom(s2, es, 2, behavior);
    ExecFrom(s3, es, 3, behavior);
    ExecFrom(s4, es, 4, behavior);
    ExecFrom(s5, es, 5, behavior);
    assert es[6..] == [];
  }

  /** Two signals in a row, before the goroutine gets to run, are both delivered: the same condition. */
  lemma BurstEndsIff(s: State, first: nat, second: nat, behavior: Behavior)
    requires Running(s) && s.goroutine == AwaitFirst && s.inbox == []
    ensures Exec(s, [Signal(first), Signal(second), GoroutineStep, GoroutineStep, GoroutineStep, GoroutineStep], behavior).status
              == Some(130)
       <==> (s.slot.None? || behavior == GracefulShutdown)
  {
    var es := [Signal(first), Signal(second), GoroutineStep, GoroutineStep, GoroutineStep, GoroutineStep];
    var s1 := Step(s, es[0], behavior);
    var s2 := Step(s1, es[1], behavior);
    var s3 := Step(s2, es[2], behavior);
    var s4 := Step(s3, es[3], behavior);
    var s5 := Step(s4, es[4], behavior);
    assert s2.inbox == [first, second] && s3.inbox == [second];
    ExecFrom(s, es, 0, behavior);
    ExecFrom(s1, es, 1, behavior);
    ExecFrom(s2, es, 2, behavior);
    ExecFrom(s3, es, 3, behavior);
    ExecFrom(s4, es, 4, behavior);
    ExecFrom(s5, es, 5, behavior);
    assert es[6..] == [];
  }

  lemma ExecFrom(s: State, events: seq<Event>, k: nat, behavior: Behavior)
    requires k < |events|
    ensures Exec(s, events[k..], behavior) == Exec(Step(s, events[k], behavior), events[k + 1..], behavior)
    ensures k == 0 ==> events[k..] == events
  {
    assert events[k..][1..] == events[k + 1..];
  }

  lemma {:induction false} ExecAppend(s: State, a: seq<Event>, b: seq<Event>, behavior: Behavior)
    ensures Exec(s, a + b, behavior) == Exec(Exec(s, a, behavior), b, behavior)
    decreases |a|
  {
    if a == [] {
      assert a + b == b;
    } else {
      assert (a + b)[1..] == a[1..] + b;
      ExecAppend(Step(s, a[0], behavior), a[1..], b, behavior);
    }
  }

  /**
   * A code recorded first is the exit status, whatever is offered and whichever signals arrive
   * between recording it and the exit call.
   */
  lemma FirstCodeSurvives(before: seq<Event>, code: int, between: seq<Event>, mainReturns: bool)
    requires var s := Exec(INIT, before, AlwaysErrCode); Running(s) && s.slot.None?
    requires code != 0 && NoExitCall(between)
    ensures Exec(INIT, before + [SetCode(code)] + between + [ExitCall(mainReturns)], AlwaysErrCode).status == Some(code)
  {
    var s := Exec(INIT, before, AlwaysErrCode);
    ExecKeepsInv(INIT, before, AlwaysErrCode);
    ExecAppend(INIT, before + [SetCode(code)] + between, [ExitCall(mainReturns)], AlwaysErrCode);
    ExecAppend(INIT, before + [SetCode(code)], between, AlwaysErrCode);
    ExecAppend(INIT, before, [SetCode(code)], AlwaysErrCode);
    var s1 := Step(s, SetCode(code), AlwaysErrCode);
    assert Exec(s1, [SetCode(code)][1..], AlwaysErrCode) == s1;
    RecordedCodeMutesSignals(s1, between);
    var s2 := Exec(s1, between, AlwaysErrCode);
    assert Exec(Step(s2, ExitCall(mainReturns), AlwaysErrCode), [], AlwaysErrCode) == Step(s2, ExitCall(mainReturns), AlwaysErrCode);
  }

  /* ---------- The program ---------- */

  /** The package-level channel, the signal goroutine and the exit function. */
  class ExitHandler {
    var s: State
    const behavior: Behavior

    constructor (behavior: Behavior)
      ensures s == INIT && this.behavior == behavior
    {
      this.s := INIT;
      this.behavior := behavior;
    }

    method SetExitCodeValue(code: int)
      requires s.status.None?
      modifies this
      ensures s == Step(old(s), SetCode(code), behavior)
      ensures code == 0 ==> s == old(s)
      ensures code != 0 ==> s.slot == if old(s.slot).None? then Some(code) else old(s.slot)
    {
      if code != 0 {
        s := s.(offered := s.offered + [code]);
        if s.slot.None? {
          s := s.(slot := Some(code));
        }
      }
    }

    method SetExitCode(err: Option<Failure>)
      requires s.status.None?
      modifies this
      ensures s == Step(old(s), SetCode(CodeOf(err)), behavior)
      ensures err.None? || err.value.canceled ==> s == old(s)
      ensures err.Some? && !err.value.canceled && old(s.slot).None? ==>
                s.slot == Some(if err.value.deadlineExceeded then 124 else 1)
      ensures old(s.slot).Some? ==> s.slot == old(s.slot)
    {
      if err.None? || err.value.canceled {
      } else if err.value.deadlineExceeded {
        SetExitCodeValue(124);
      } else {
        SetExitCodeValue(1);
      }
    }

    method Exit(mainReturns: bool)
      requires Running(s)
      modifies this
      ensures s == Step(old(s), ExitCall(mainReturns), behavior)
      ensures s.status == if old(s.slot).Some? then old(s.slot) else if mainReturns then Some(0) else None
    {
      s := s.(exitCalled := true);
      if s.slot.Some? {
        var code := s.slot.value;
        s := s.(slot := None);
        s := s.(status := Some(code));
      } else if mainReturns {
        s := s.(status := Some(0));
      }
    }
  }
}
