/**
 * The approve and deny commands: any number of runs race on one
 * CertificateRequest under optimistic concurrency, among other writers.
 */
module Approval {
  import opened Wrappers

  datatype Status = True | False | Unknown

  datatype Kind = Approved | Denied | Unrelated(name: string)

  datatype Condition = Condition(kind: Kind, status: Status, reason: string, message: string)

  datatype Request = Request(conditions: seq<Condition>, rv: nat)

  datatype Command = Approve | Deny

  datatype Result = Success | AlreadyApproved | AlreadyDenied | NotFound | Conflict | Failure

  /** Where a run stands: before its Get, between Get and UpdateStatus, or done. */
  datatype Phase = Idle | Fetched(copy: Request) | Finished(result: Result)

  datatype Run = Run(command: Command, reason: string, message: string, phase: Phase)

  datatype State = State(request: Option<Request>, runs: seq<Run>)

  datatype Fault = NoFault | Refused | LostReply

  datatype Event =
    | Fetch(run: nat, refused: bool)
    | Write(run: nat, fault: Fault)
    | OtherWrite(conditions: seq<Condition>)
    | Delete

  predicate IsDecision(c: Condition) {
    c.kind == Approved || c.kind == Denied
  }

  /** The conditions of type Approved or Denied, in order. */
  function Decisions(conditions: seq<Condition>): seq<Condition> {
    if conditions == [] then []
    else (if IsDecision(conditions[0]) then [conditions[0]] else []) + Decisions(conditions[1..])
  }

  /** The decisions in force: those with status True. */
  function InForce(conditions: seq<Condition>): seq<Condition> {
    if conditions == [] then []
    else
      (if IsDecision(conditions[0]) && conditions[0].status == True then [conditions[0]] else [])
      + InForce(conditions[1..])
  }

  predicate Is(conditions: seq<Condition>, kind: Kind) {
    exists c :: c in conditions && c.kind == kind && c.status == True
  }

  /** Replaces the first condition of the same type, or appends. */
  function SetCondition(conditions: seq<Condition>, c: Condition): seq<Condition> {
    if conditions == [] then [c]
    else if conditions[0].kind == c.kind then [c] + conditions[1..]
    else [conditions[0]] + SetCondition(conditions[1..], c)
  }

  function Decision(run: Run): Condition {
    Condition(if run.command == Approve then Approved else Denied, True, run.reason, run.message)
  }

  function SetPhase(s: State, i: nat, phase: Phase): State
    requires i < |s.runs|
  {
    s.(runs := s.runs[i := s.runs[i].(phase := phase)])
  }

  function AfterFetch(request: Option<Request>, refused: bool): Phase {
    if refused then Finished(Failure)
    else if request.None? then Finished(NotFound)
    else if Is(request.value.conditions, Approved) then Finished(AlreadyApproved)
    else if Is(request.value.conditions, Denied) then Finished(AlreadyDenied)
    else Fetched(request.value)
  }

  /** The server's answer to an UpdateStatus that carries resourceVersion `rv`. */
  function UpdateStatus(request: Option<Request>, update: Request, fault: Fault): (Option<Request>, Result) {
    if fault == Refused then (request, Failure)
    else if request.None? then (request, if fault == NoFault then NotFound else Failure)
    else if request.value.rv != update.rv then (request, if fault == NoFault then Conflict else Failure)
    else (Some(update.(rv := update.rv + 1)), if fault == NoFault then Success else Failure)
  }

  function Step(s: State, e: Event): State {
    match e
    case Fetch(i, refused) =>
      if i < |s.runs| && s.runs[i].phase.Idle? then SetPhase(s, i, AfterFetch(s.request, refused)) else s
    case Write(i, fault) =>
      if i < |s.runs| && s.runs[i].phase.Fetched? then
        var copy := s.runs[i].phase.copy;
        var update := copy.(conditions := SetCondition(copy.conditions, Decision(s.runs[i])));
        var (request, result) := UpdateStatus(s.request, update, fault);
        SetPhase(s.(request := request), i, Finished(result))
      else s
    case OtherWrite(conditions) =>
      // Other writers do not touch the Approved and Denied conditions.
      if s.request.Some? && Decisions(conditions) == Decisions(s.request.value.conditions) then
        s.(request := Some(Request(conditions, s.request.value.rv + 1)))
      else s
    case Delete => s.(request := None)
  }

  function Exec(s: State, events: seq<Event>): State
    decreases |events|
  {
    if events == [] then s else Exec(Step(s, events[0]), events[1..])
  }

  /** A start: no run has begun, and nothing is both approved and denied. */
  ghost predicate Initial(s: State) {
    && (forall i :: 0 <= i < |s.runs| ==> s.runs[i].phase.Idle?)
    && (s.request.Some? ==> Exclusive(s.request.value.conditions))
  }

  ghost predicate Exclusive(conditions: seq<Condition>) {
    !(Is(conditions, Approved) && Is(conditions, Denied))
  }

  /* ---------- Conditions ---------- */

  lemma {:induction false} InForceOfDecisions(conditions: seq<Condition>)
    ensures InForce(conditions) == InForce(Decisions(conditions))
  {
    if conditions != [] {
      InForceOfDecisions(conditions[1..]);
      if IsDecision(conditions[0]) {
        var d := Decisions(conditions);
        assert d[0] == conditions[0] && d[1..] == Decisions(conditions[1..]);
      } else {
        assert Decisions(conditions) == Decisions(conditions[1..]);
      }
    }
  }

  lemma {:induction false} InForceMembers(conditions: seq<Condition>)
    ensures forall c :: c in InForce(conditions) <==> c in conditions && IsDecision(c) && c.status == True
  {
    if conditions != [] {
      InForceMembers(conditions[1..]);
      assert conditions == [conditions[0]] + conditions[1..];
    }
  }

  lemma NothingInForce(conditions: seq<Condition>)
    ensures InForce(conditions) == [] <==> !Is(conditions, Approved) && !Is(conditions, Denied)
  {
    InForceMembers(conditions);
    if InForce(conditions) != [] {
      assert InForce(conditions)[0] in InForce(conditions);
    }
  }

  lemma {:induction false} SetConditionInForce(conditions: seq<Condition>, c: Condition)
    requires InForce(conditions) == [] && IsDecision(c) && c.status == True
    ensures InForce(SetCondition(conditions, c)) == [c]
  {
    if conditions == [] {
      assert InForce([c]) == [c] + InForce([c][1..]);
    } else if conditions[0].kind == c.kind {
      assert SetCondition(conditions, c)[1..] == conditions[1..];
    } else {
      SetConditionInForce(conditions[1..], c);
      assert SetCondition(conditions, c)[1..] == SetCondition(conditions[1..], c);
    }
  }

  lemma OneInForceIsExclusive(conditions: seq<Condition>)
    requires |InForce(conditions)| <= 1
    ensures Exclusive(conditions)
  {
    InForceMembers(conditions);
  }

  /** The one decision in force is this one, with its reason and message. */
  ghost predicate Decided(conditions: seq<Condition>, kind: Kind, reason: string, message: string) {
    && Condition(kind, True, reason, message) in conditions
    && forall c :: c in conditions && c.status == True && (c.kind == Approved || c.kind == Denied) ==>
         c == Condition(kind, True, reason, message)
  }

  /** A run's own decision: to approve what it was told to approve, to deny what it was told to deny. */
  ghost predicate DecidedBy(run: Run, conditions: seq<Condition>) {
    && (run.command == Approve ==> Decided(conditions, Approved, run.reason, run.message))
    && (run.command == Deny ==> Decided(conditions, Denied, run.reason, run.message))
  }

  lemma InForceDecides(run: Run, conditions: seq<Condition>)
    requires InForce(conditions) == [Decision(run)]
    ensures DecidedBy(run, conditions)
  {
    InForceMembers(conditions);
    assert Decision(run) in InForce(conditions);
  }

  /* ---------- The race ---------- */

  /** A held copy is undecided, is no newer than the request, and if it is not older it is the request. */
  ghost predicate CopyOk(s: State, i: nat)
    requires i < |s.runs| && s.runs[i].phase.Fetched?
  {
    var copy := s.runs[i].phase.copy;
    && InForce(copy.conditions) == []
    && (s.request.Some? ==> copy.rv < s.request.value.rv || copy == s.request.value)
  }

  ghost predicate Succeeded(s: State, i: nat) {
    i < |s.runs| && s.runs[i].phase == Finished(Success)
  }

  /** A successful run's decision is the one in force, and no other run was successful. */
  ghost predicate SuccessOk(s: State) {
    && (forall i: nat :: Succeeded(s, i) && s.request.Some? ==>
          InForce(s.request.value.conditions) == [Decision(s.runs[i])])
    && (forall i: nat, j: nat :: Succeeded(s, i) && Succeeded(s, j) ==> i == j)
  }

  ghost predicate Inv(s: State) {
    && (forall i :: 0 <= i < |s.runs| && s.runs[i].phase.Fetched? ==> CopyOk(s, i))
    && SuccessOk(s)
    && (s.request.Some? ==> Exclusive(s.request.value.conditions))
  }

  lemma OtherWriteKeepsDecision(old_: seq<Condition>, new_: seq<Condition>)
    requires Decisions(old_) == Decisions(new_)
    ensures InForce(old_) == InForce(new_) && (Exclusive(old_) ==> Exclusive(new_))
  {
    InForceOfDecisions(old_);
    InForceOfDecisions(new_);
    InForceMembers(old_);
    InForceMembers(new_);
    forall c | c in new_ && IsDecision(c) && c.status == True ensures c in old_ {
      assert c in InForce(new_);
    }
  }

  /** What one event does to the decision in force: nothing, once there is one. */
  ghost predicate DecisionKept(s: State, s': State) {
    && (s.request.None? ==> s'.request.None?)
    && (s.request.Some? && s'.request.Some? && InForce(s.request.value.conditions) != [] ==>
          InForce(s'.request.value.conditions) == InForce(s.request.value.conditions))
  }

  lemma StepKeepsInv(s: State, e: Event)
    requires Inv(s)
    ensures Inv(Step(s, e)) && DecisionKept(s, Step(s, e))
  {
    match e
    case Fetch(i, refused) =>
      if s.request.Some? {
        NothingInForce(s.request.value.conditions);
      }
      if i < |s.runs| {
        SameSuccesses(s, Step(s, e), i);
      }
    case Write(i, fault) =>
      if i < |s.runs| && s.runs[i].phase.Fetched? {
        WriteKeepsInv(s, i, fault);
      }
    case OtherWrite(conditions) =>
      if s.request.Some? && Decisions(conditions) == Decisions(s.request.value.conditions) {
        OtherWriteKeepsDecision(s.request.value.conditions, conditions);
        assert forall i: nat :: Succeeded(Step(s, e), i) <==> Succeeded(s, i);
      }
    case Delete =>
      assert forall i: nat :: Succeeded(Step(s, e), i) <==> Succeeded(s, i);
  }

  /** A transition that touches only run `i`, which does not succeed by it. */
  lemma SameSuccesses(s: State, s': State, i: nat)
    requires i < |s.runs| == |s'.runs| && s'.request == s.request && SuccessOk(s)
    requires Succeeded(s', i) ==> s'.runs[i] == s.runs[i]
    requires forall j :: 0 <= j < |s.runs| && j != i ==> s'.runs[j] == s.runs[j]
    ensures SuccessOk(s')
  {
    assert forall j: nat :: Succeeded(s', j) ==> Succeeded(s, j) && Decision(s'.runs[j]) == Decision(s.runs[j]);
  }

  lemma WriteKeepsInv(s: State, i: nat, fault: Fault)
    requires Inv(s) && i < |s.runs| && s.runs[i].phase.Fetched?
    ensures var s' := Step(s, Write(i, fault)); Inv(s') && DecisionKept(s, s')
  {
    assert CopyOk(s, i);
    var s' := Step(s, Write(i, fault));
    var d := Decision(s.runs[i]);
    assert Decision(s'.runs[i]) == d;
    if s'.request != s.request {
      var conditions := s.request.value.conditions;
      SetConditionInForce(conditions, d);
      OneInForceIsExclusive(SetCondition(conditions, d));
      assert forall j: nat :: !Succeeded(s, j);
      assert forall j: nat :: Succeeded(s', j) ==> j == i;
    } else {
      SameSuccesses(s, s', i);
    }
  }

  lemma {:induction false} ExecKeepsInv(s: State, events: seq<Event>)
    requires Inv(s)
    ensures Inv(Exec(s, events)) && DecisionKept(s, Exec(s, events))
    decreases |events|
  {
    if events != [] {
      StepKeepsInv(s, events[0]);
      ExecKeepsInv(Step(s, events[0]), events[1..]);
    }
  }

  /**
   * In every interleaving of any number of approve and deny runs with other writers: Approved and
   * Denied never hold together, at most one run succeeds, and for as long as the request exists it
   * is approved if that run was to approve, denied if it was to deny, with its reason and message.
   */
  lemma RaceIsSafe(s: State, events: seq<Event>)
    requires Initial(s)
    ensures var s' := Exec(s, events);
            && (s'.request.Some? ==> Exclusive(s'.request.value.conditions))
            && (forall i: nat, j: nat :: Succeeded(s', i) && Succeeded(s', j) ==> i == j)
            && (forall i: nat :: Succeeded(s', i) && s'.request.Some? ==>
                  DecidedBy(s'.runs[i], s'.request.value.conditions))
  {
    ExecKeepsInv(s, events);
    var s' := Exec(s, events);
    forall i: nat | Succeeded(s', i) && s'.request.Some? ensures DecidedBy(s'.runs[i], s'.request.value.conditions) {
      InForceDecides(s'.runs[i], s'.request.value.conditions);
    }
  }

  /** The first decision, with its reason and message, is the last: later events never change it. */
  lemma FirstDecisionStands(s: State, before: seq<Event>, after: seq<Event>)
    requires Initial(s)
    ensures DecisionKept(Exec(s, before), Exec(s, before + after))
  {
    ExecKeepsInv(s, before);
    ExecKeepsInv(Exec(s, before), after);
    ExecAppend(s, before, after);
  }

  /** A run that nobody disturbs decides an undecided request. */
  lemma UndisturbedRunDecides(s: State, i: nat)
    requires i < |s.runs| && s.runs[i].phase.Idle? && s.request.Some?
    requires InForce(s.request.value.conditions) == []
    ensures var s' := Exec(s, [Fetch(i, false), Write(i, NoFault)]);
            && Succeeded(s', i) && s'.request.Some?
            && DecidedBy(s.runs[i], s'.request.value.conditions)
  {
    NothingInForce(s.request.value.conditions);
    SetConditionInForce(s.request.value.conditions, Decision(s.runs[i]));
    var s1 := Step(s, Fetch(i, false));
    assert Decision(s1.runs[i]) == Decision(s.runs[i]);
    ExecAppend(s, [Fetch(i, false)], [Write(i, NoFault)]);
    assert [Fetch(i, false)] + [Write(i, NoFault)] == [Fetch(i, false), Write(i, NoFault)];
    ExecOne(s, Fetch(i, false));
    ExecOne(s1, Write(i, NoFault));
    InForceDecides(s.runs[i], Step(s1, Write(i, NoFault)).request.value.conditions);
  }

  lemma {:induction false} ExecAppend(s: State, a: seq<Event>, b: seq<Event>)
    ensures Exec(s, a + b) == Exec(Exec(s, a), b)
    decreases |a|
  {
    if a == [] {
      assert a + b == b;
    } else {
      assert (a + b)[1..] == a[1..] + b;
      ExecAppend(Step(s, a[0]), a[1..], b);
    }
  }

  /* ---------- The commands ---------- */

  /** The cluster that the runs share. */
  class Server {
    var s: State

    constructor (s: State)
      ensures this.s == s
    {
      this.s := s;
    }

    method Interleave(events: seq<Event>)
      modifies this
      ensures s == Exec(old(s), events)
    {
      var i := 0;
      while i < |events|
        invariant i <= |events|
        invariant Exec(old(s), events) == Exec(s, events[i..])
      {
        s := Step(s, events[i]);
        i := i + 1;
      }
    }
  }

  method SetCertificateRequestCondition(conditions: seq<Condition>, c: Condition) returns (r: seq<Condition>)
    ensures r == SetCondition(conditions, c)
    ensures || (r == conditions + [c] && forall j :: 0 <= j < |conditions| ==> conditions[j].kind != c.kind)
            || exists i :: 0 <= i < |conditions| && conditions[i].kind == c.kind && r == conditions[i := c]
                           && forall j :: 0 <= j < i ==> conditions[j].kind != c.kind
  {
    var i := 0;
    while i < |conditions|
      invariant i <= |conditions|
      invariant SetCondition(conditions, c) == conditions[..i] + SetCondition(conditions[i..], c)
      invariant forall j :: 0 <= j < i ==> conditions[j].kind != c.kind
    {
      if conditions[i].kind == c.kind {
        assert conditions[..i] + [c] + conditions[i + 1..] == conditions[i := c];
        return conditions[..i] + [c] + conditions[i + 1..];
      }
      i := i + 1;
    }
    return conditions + [c];
  }

  /** One run of either command: Get, check, set the condition, UpdateStatus; other clients act before each request. */
  method RunCommand(server: Server, i: nat, before: seq<Event>, between: seq<Event>, refused: bool, fault: Fault)
    returns (r: Result)
    requires i < |server.s.runs| && server.s.runs[i].phase.Idle?
    requires forall e :: e in before + between ==> (e.Fetch? || e.Write?) ==> e.run != i
    modifies server
    ensures server.s == Exec(old(server.s), before + [Fetch(i, refused)] + between + [Write(i, fault)])
    ensures i < |server.s.runs| && server.s.runs[i].phase == Finished(r)
    ensures r == Answer(Exec(old(server.s), before).request,
                        Exec(old(server.s), before + [Fetch(i, refused)] + between).request, refused, fault)
    ensures r == Success && server.s.request.Some? ==> DecidedBy(old(server.s.runs[i]), server.s.request.value.conditions)
  {
    ghost var s0 := server.s;
    var run := server.s.runs[i];
    server.Interleave(before);
    OthersLeaveRun(s0, before, i);
    var got := server.s.request;
    var copy := Request([], 0);
    var phase := Idle;
    if refused {
      phase := Finished(Failure);
    } else if got.None? {
      phase := Finished(NotFound);
    } else if Is(got.value.conditions, Approved) {
      phase := Finished(AlreadyApproved);
    } else if Is(got.value.conditions, Denied) {
      phase := Finished(AlreadyDenied);
    } else {
      copy := got.value;
      phase := Fetched(copy);
    }
    server.s := SetPhase(server.s, i, phase);
    ghost var s1 := server.s;
    assert s1 == Step(Exec(s0, before), Fetch(i, refused));
    server.Interleave(between);
    OthersLeaveRun(s1, between, i);
    ghost var s2 := server.s;
    RunTrace(s0, i, before, between, refused, fault);
    SuccessDecides(s0, i, before, between, refused, fault);
    if phase.Finished? {
      return phase.result;
    }
    var conditions := SetCertificateRequestCondition(copy.conditions, Decision(run));
    var res := UpdateStatus(server.s.request, copy.(conditions := conditions), fault);
    server.s := SetPhase(server.s.(request := res.0), i, Finished(res.1));
    r := res.1;
  }

  lemma {:induction false} OthersLeaveRun(s: State, events: seq<Event>, i: nat)
    requires i < |s.runs| && forall e :: e in events ==> (e.Fetch? || e.Write?) ==> e.run != i
    ensures var s' := Exec(s, events); i < |s'.runs| && s'.runs[i] == s.runs[i]
    decreases |events|
  {
    if events != [] {
      assert events[0] in events;
      OthersLeaveRun(Step(s, events[0]), events[1..], i);
    }
  }

  /**
   * The answer of a run that found `got` at its Get and `now` at its UpdateStatus: an existing decision
   * is reported, a request that was written or deleted in between is not touched.
   */
  ghost function Answer(got: Option<Request>, now: Option<Request>, refused: bool, fault: Fault): Result {
    if refused then Failure
    else if got.None? then NotFound
    else if exists c :: c in got.value.conditions && c.kind == Approved && c.status == True then AlreadyApproved
    else if exists c :: c in got.value.conditions && c.kind == Denied && c.status == True then AlreadyDenied
    else if fault != NoFault then Failure
    else if now.None? then NotFound
    else if now.value.rv != got.value.rv then Conflict
    else Success
  }

  /** Between its Get and its UpdateStatus a run holds what it fetched. */
  lemma SuccessDecides(s: State, i: nat, before: seq<Event>, between: seq<Event>, refused: bool, fault: Fault)
    requires i < |s.runs| && s.runs[i].phase.Idle?
    requires forall e :: e in before + between ==> (e.Fetch? || e.Write?) ==> e.run != i
    ensures var s' := Exec(s, before + [Fetch(i, refused)] + between + [Write(i, fault)]);
            && i < |s'.runs| && s'.runs[i].(phase := Idle) == s.runs[i] && s'.runs[i].phase.Finished?
            && s'.runs[i].phase.result ==
                 Answer(Exec(s, before).request, Exec(s, before + [Fetch(i, refused)] + between).request, refused, fault)
            && (s'.runs[i].phase == Finished(Success) && s'.request.Some? ==>
                  DecidedBy(s.runs[i], s'.request.value.conditions))
            && (s'.runs[i].phase != Finished(Success) && fault != LostReply ==>
                  s'.request == Exec(s, before + [Fetch(i, refused)] + between).request)
  {
    var a := Exec(s, before);
    var b := Step(a, Fetch(i, refused));
    RunTrace(s, i, before, between, refused, fault);
    OthersLeaveRun(s, before, i);
    OthersLeaveRun(b, between, i);
    AnswerOfWrite(a, Exec(b, between), i, refused, fault);
    WriteDecides(a, Exec(b, between), i, refused, fault);
    ExecAppend(s, before + [Fetch(i, refused)], between);
    ExecAppend(s, before, [Fetch(i, refused)]);
    ExecOne(a, Fetch(i, refused));
  }

  lemma AnswerOfWrite(a: State, c: State, i: nat, refused: bool, fault: Fault)
    requires i < |a.runs| && a.runs[i].phase.Idle? && i < |c.runs|
    requires c.runs[i] == a.runs[i].(phase := AfterFetch(a.request, refused))
    ensures var s' := Step(c, Write(i, fault));
            && i < |s'.runs| && s'.runs[i].(phase := Idle) == a.runs[i] && s'.runs[i].phase.Finished?
            && s'.runs[i].phase.result == Answer(a.request, c.request, refused, fault)
            && (s'.runs[i].phase != Finished(Success) && fault != LostReply ==> s'.request == c.request)
  {
  }

  lemma UndecidedGetsDecided(run: Run, conditions: seq<Condition>)
    requires InForce(conditions) == []
    ensures DecidedBy(run, SetCondition(conditions, Decision(run)))
  {
    SetConditionInForce(conditions, Decision(run));
    InForceDecides(run, SetCondition(conditions, Decision(run)));
  }

  /** The Get happens in `a` and the UpdateStatus in `c`. */
  lemma WriteDecides(a: State, c: State, i: nat, refused: bool, fault: Fault)
    requires i < |a.runs| && a.runs[i].phase.Idle? && i < |c.runs|
    requires c.runs[i] == a.runs[i].(phase := AfterFetch(a.request, refused))
    ensures var s' := Step(c, Write(i, fault));
            i < |s'.runs| && (s'.runs[i].phase == Finished(Success) && s'.request.Some? ==>
                                DecidedBy(a.runs[i], s'.request.value.conditions))
  {
    if c.runs[i].phase.Fetched? {
      var conditions := a.request.value.conditions;
      NothingInForce(conditions);
      assert Decision(c.runs[i]) == Decision(a.runs[i]);
      UndecidedGetsDecided(a.runs[i], conditions);
    }
  }

  lemma RunTrace(s: State, i: nat, before: seq<Event>, between: seq<Event>, refused: bool, fault: Fault)
    ensures Exec(s, before + [Fetch(i, refused)] + between + [Write(i, fault)])
         == Step(Exec(Step(Exec(s, before), Fetch(i, refused)), between), Write(i, fault))
  {
    ExecAppend(s, before + [Fetch(i, refused)] + between, [Write(i, fault)]);
    ExecAppend(s, before + [Fetch(i, refused)], between);
    ExecAppend(s, before, [Fetch(i, refused)]);
    ExecOne(Exec(s, before), Fetch(i, refused));
    ExecOne(Exec(s, before + [Fetch(i, refused)] + between), Write(i, fault));
  }

  lemma ExecOne(s: State, e: Event)
    ensures Exec(s, [e]) == Step(s, e)
  {
    assert [e][1..] == [];
  }
}
