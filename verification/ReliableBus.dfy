/** Requests and responses correlated across threads.  Every section under the lock, and every use
    of an event, is one atomic step; the steps of all threads interleave freely. */
module ReliableBus {
  import opened Options

  datatype Message = Message(correlationId: string, payload: string)

  /** How far the requester with a given message id has come. */
  datatype Phase =
    | Registered
    | Raised
    | Waiting
    | Woken
    | TimedOut
    | Returned(answer: Option<Message>)

  /** `pending` and `responses` are the two dictionaries.  Each request has its own event, named
      by the message id: `signalling` are those a notifier has popped and is about to set,
      `isSet` those that are set. */
  datatype State = State(
    pending: set<string>,
    responses: map<string, Message>,
    signalling: set<string>,
    isSet: set<string>,
    phase: map<string, Phase>)

  const START := State({}, map[], {}, {}, map[])

  datatype Step =
    | Register(id: string)
    | Send(id: string)
    | FailToSend(id: string)
    | Store(message: Message)
    | Signal(id: string)
    | Wake(id: string)
    | TimeOut(id: string)
    | Withdraw(id: string)
    | Take(id: string)

  predicate In(s: State, id: string, p: Phase) {
    id in s.phase && s.phase[id] == p
  }

  /** A request has a fresh message id: no other request and no response before it has that id.  The
      rest follows the code of the two threads.  A wait may time out even when the event is being
      set. */
  predicate Enabled(s: State, step: Step) {
    match step
    case Register(id) => id !in s.phase && id !in s.responses
    case Send(id) => In(s, id, Registered)
    case FailToSend(id) => In(s, id, Registered)
    case Store(m) => m.correlationId != ""
    case Signal(id) => id in s.signalling
    case Wake(id) => In(s, id, Waiting) && id in s.isSet
    case TimeOut(id) => In(s, id, Waiting)
    case Withdraw(id) => In(s, id, TimedOut)
    case Take(id) => In(s, id, Woken)
  }

  function Lookup(responses: map<string, Message>, id: string): Option<Message> {
    if id in responses then Some(responses[id]) else None
  }

  function Next(s: State, step: Step): State
    requires Enabled(s, step)
  {
    match step
    case Register(id) => s.(pending := s.pending + {id}, phase := s.phase[id := Registered])
    case Send(id) => s.(phase := s.phase[id := Waiting])
    case FailToSend(id) => s.(phase := s.phase[id := Raised])
    case Store(m) =>
      var id := m.correlationId;
      s.(responses := s.responses[id := m], pending := s.pending - {id},
         signalling := s.signalling + if id in s.pending then {id} else {})
    case Signal(id) => s.(signalling := s.signalling - {id}, isSet := s.isSet + {id})
    case Wake(id) => s.(phase := s.phase[id := Woken])
    case TimeOut(id) => s.(phase := s.phase[id := TimedOut])
    case Withdraw(id) => s.(pending := s.pending - {id}, phase := s.phase[id := Returned(None)])
    case Take(id) =>
      s.(responses := s.responses - {id}, phase := s.phase[id := Returned(Lookup(s.responses, id))])
  }

  ghost predicate IsRun(trace: seq<Step>) {
    trace == [] || (IsRun(trace[..|trace| - 1]) && Enabled(After(trace[..|trace| - 1]), trace[|trace| - 1]))
  }

  ghost function After(trace: seq<Step>): State {
    if trace == [] then START
    else
      var s, step := After(trace[..|trace| - 1]), trace[|trace| - 1];
      if Enabled(s, step) then Next(s, step) else s
  }

  // ----- what every step keeps -----

  /** The request has been answered: its event is set or about to be. */
  predicate Answered(s: State, id: string) {
    id in s.signalling || id in s.isSet
  }

  predicate HasTaken(s: State, id: string) {
    id in s.phase && s.phase[id].Returned? && s.phase[id].answer.Some?
  }

  ghost predicate IdInvariant(s: State, id: string) {
    // A pending request has not been answered, and its requester has not returned.
    && (id in s.pending ==> !Answered(s, id) && id in s.phase && !s.phase[id].Woken? && !s.phase[id].Returned?)
    // Once answered, a response stays stored until the requester takes it.
    && (Answered(s, id) ==> id in s.phase && (id in s.responses || HasTaken(s, id)))
    && (In(s, id, Woken) ==> id in s.isSet)
    // A registered request is pending, answered, or withdrawn.
    && (id in s.phase ==> id in s.pending || Answered(s, id) || In(s, id, Returned(None)))
    // Responses are filed, and handed out, by the id they answer.
    && (id in s.responses ==> id != "" && s.responses[id].correlationId == id)
    && (HasTaken(s, id) ==> s.phase[id].answer.value.correlationId == id)
  }

  lemma StepKeepsInvariant(s: State, step: Step, id: string)
    requires Enabled(s, step) && IdInvariant(s, id)
    ensures IdInvariant(Next(s, step), id)
  {
    match step
    case Register(_) =>
    case Send(_) =>
    case FailToSend(_) =>
    case Store(m) =>
      if m.correlationId == id { assert Lookup(Next(s, step).responses, id) == Some(m); }
    case Signal(_) =>
    case Wake(_) =>
    case TimeOut(_) =>
    case Withdraw(_) =>
    case Take(_) =>
  }

  lemma {:induction false} InvariantHolds(trace: seq<Step>, id: string)
    ensures IdInvariant(After(trace), id)
  {
    if trace != [] {
      var s, step := After(trace[..|trace| - 1]), trace[|trace| - 1];
      InvariantHolds(trace[..|trace| - 1], id);
      if Enabled(s, step) { StepKeepsInvariant(s, step, id); }
    }
  }

  // ----- what requesters see -----

  /** A requester that is woken finds a response, and it is one to its own request. */
  lemma WokenFindsItsResponse(trace: seq<Step>, id: string)
    requires Enabled(After(trace), Take(id))
    ensures Lookup(After(trace).responses, id).Some?
    ensures After(trace).responses[id].correlationId == id
  {
    InvariantHolds(trace, id);
  }

  /** The last response to `id` that arrived. */
  function Latest(trace: seq<Step>, id: string): Option<Message> {
    if trace == [] then None
    else
      var last := trace[|trace| - 1];
      if last.Store? && last.message.correlationId == id then Some(last.message)
      else Latest(trace[..|trace| - 1], id)
  }

  lemma {:induction false} LatestIs(trace: seq<Step>, id: string, i: nat)
    requires i <= |trace| && (i > 0 ==> trace[i - 1].Store? && trace[i - 1].message.correlationId == id)
    requires forall j | i <= j < |trace| && trace[j].Store? :: trace[j].message.correlationId != id
    ensures Latest(trace, id) == if i > 0 then Some(trace[i - 1].message) else None
    decreases |trace|
  {
    if i < |trace| { LatestIs(trace[..|trace| - 1], id, i); }
  }

  lemma {:induction false} LatestIsStored(trace: seq<Step>, id: string)
    requires IsRun(trace)
    ensures !HasTaken(After(trace), id) ==> Lookup(After(trace).responses, id) == Latest(trace, id)
  {
    if trace != [] {
      var before := trace[..|trace| - 1];
      LatestIsStored(before, id);
      InvariantHolds(before, id);
    }
  }

  /** Whatever the interleaving, a requester that does not time out returns the latest response
      to its own request as of that moment. */
  lemma TakesTheLatest(trace: seq<Step>, id: string)
    requires IsRun(trace) && Enabled(After(trace), Take(id))
    ensures After(trace + [Take(id)]).phase[id] == Returned(Latest(trace, id))
    ensures Latest(trace, id).Some?
  {
    assert (trace + [Take(id)])[..|trace + [Take(id)]| - 1] == trace;
    InvariantHolds(trace, id);
    LatestIsStored(trace, id);
  }

  /** Nothing comes back exactly when the wait timed out. */
  lemma {:induction false} NoneOnlyAfterTimeout(trace: seq<Step>, id: string)
    requires IsRun(trace)
    ensures (In(After(trace), id, TimedOut) || In(After(trace), id, Returned(None))) <==> TimeOut(id) in trace
  {
    if trace != [] {
      var before, step := trace[..|trace| - 1], trace[|trace| - 1];
      NoneOnlyAfterTimeout(before, id);
      if step == Take(id) { WokenFindsItsResponse(before, id); }
      assert trace == before + [step];
    }
  }

  lemma {:induction false} NotPendingStays(trace: seq<Step>, id: string, i: nat)
    requires IsRun(trace) && i <= |trace|
    requires id in After(trace[..i]).phase && id !in After(trace[..i]).pending
    ensures id in After(trace).phase && id !in After(trace).pending
  {
    if i == |trace| {
      assert trace[..i] == trace;
    } else {
      assert trace[..|trace| - 1][..i] == trace[..i];
      NotPendingStays(trace[..|trace| - 1], id, i);
    }
  }

  lemma {:induction false} RunPrefix(trace: seq<Step>, i: nat)
    requires IsRun(trace) && i <= |trace|
    ensures IsRun(trace[..i])
  {
    if i == |trace| {
      assert trace[..i] == trace;
    } else {
      assert trace[..|trace| - 1][..i] == trace[..i];
      RunPrefix(trace[..|trace| - 1], i);
    }
  }

  lemma {:induction false} RegisteredStays(trace: seq<Step>, id: string, i: nat)
    requires IsRun(trace) && i < |trace| && trace[i] == Register(id)
    ensures id in After(trace).phase
  {
    if i < |trace| - 1 { RegisteredStays(trace[..|trace| - 1], id, i); }
  }

  /** No wake-up is lost: a response that arrives after the request was registered finds its
      requester signalled for good, unless that had given up waiting. */
  lemma NoLostWakeUp(trace: seq<Step>, id: string, i: nat, j: nat)
    requires IsRun(trace) && i < j < |trace|
    requires trace[i] == Register(id)
    requires trace[j].Store? && trace[j].message.correlationId == id
    ensures Answered(After(trace), id) || In(After(trace), id, Returned(None))
  {
    var upTo := trace[..j + 1];
    RunPrefix(trace, j + 1);
    assert upTo[..j] == trace[..j];
    RunPrefix(trace, j);
    RegisteredStays(trace[..j], id, i);
    NotPendingStays(trace, id, j + 1);
    InvariantHolds(trace, id);
  }

  // ----- responses nobody takes -----

  lemma Extend(trace: seq<Step>, step: Step)
    requires IsRun(trace) && Enabled(After(trace), step)
    ensures IsRun(trace + [step]) && After(trace + [step]) == Next(After(trace), step)
  {
    assert (trace + [step])[..|trace + [step]| - 1] == trace;
  }

  /** Nobody waits for a response with this id: it was never requested, or its requester could not
      send the request, has timed out, or has returned. */
  predicate IsUnclaimed(s: State, id: string) {
    id in s.phase ==> s.phase[id].Raised? || s.phase[id].TimedOut? || s.phase[id].Returned?
  }

  ghost predicate StaysForEver(trace: seq<Step>, id: string) {
    forall more :: IsRun(trace + more) ==> id in After(trace + more).responses
  }

  lemma UnclaimedIsFinal(s: State, step: Step, id: string)
    requires Enabled(s, step) && IsUnclaimed(s, id) && id in s.responses
    ensures IsUnclaimed(Next(s, step), id) && id in Next(s, step).responses
  {
  }

  /** A response nobody waits for stays behind: nobody will ever take it. */
  lemma {:induction false} LateResponseIsNeverTaken(trace: seq<Step>, more: seq<Step>, id: string)
    requires IsRun(trace + more) && IsUnclaimed(After(trace), id) && id in After(trace).responses
    ensures IsUnclaimed(After(trace + more), id) && id in After(trace + more).responses
  {
    hide Next;
    hide Enabled;
    hide IsUnclaimed;
    if more == [] {
      assert trace + more == trace;
    } else {
      var front, last := more[..|more| - 1], more[|more| - 1];
      assert (trace + more)[..|trace + more| - 1] == trace + front;
      LateResponseIsNeverTaken(trace, front, id);
      UnclaimedIsFinal(After(trace + front), last, id);
    }
  }

  /** How many steps a requester still has to go until it takes a response. */
  function StepsToTake(s: State, id: string): nat {
    (if In(s, id, Registered) then 1 else 0)
    + if id in s.pending then 4
      else if id in s.signalling then 3
      else if !In(s, id, Woken) then 2
      else 1
  }

  /** A step that brings the requester closer to taking a response. */
  function Forward(s: State, id: string): Step {
    if In(s, id, Registered) then Send(id)
    else if id in s.pending then Store(Message(id, ""))
    else if id in s.signalling then Signal(id)
    else if !In(s, id, Woken) then Wake(id)
    else Take(id)
  }

  lemma ForwardIsPossible(s: State, id: string)
    requires IdInvariant(s, id) && id != "" && !IsUnclaimed(s, id)
    ensures Enabled(s, Forward(s, id))
    ensures
      var next := Next(s, Forward(s, id));
      if StepsToTake(s, id) == 1 then id !in next.responses
      else !IsUnclaimed(next, id) && StepsToTake(next, id) < StepsToTake(s, id)
  {
  }

  lemma {:induction false} CanStillTake(trace: seq<Step>, id: string) returns (more: seq<Step>)
    requires IsRun(trace) && id != "" && !IsUnclaimed(After(trace), id)
    ensures IsRun(trace + more) && id !in After(trace + more).responses
    decreases StepsToTake(After(trace), id)
  {
    hide Next;
    hide Enabled;
    hide IsUnclaimed;
    hide StepsToTake;
    hide Forward;
    hide IdInvariant;
    InvariantHolds(trace, id);
    var s := After(trace);
    var step := Forward(s, id);
    ForwardIsPossible(s, id);
    Extend(trace, step);
    more := [step];
    if StepsToTake(s, id) != 1 {
      var rest := CanStillTake(trace + [step], id);
      more := [step] + rest;
      assert trace + more == trace + [step] + rest;
    }
  }

  /** A stored response stays for ever exactly when nobody waits for it: it was never requested, or
      its requester could not send it, timed out, or has returned, be it with an earlier response. */
  lemma StaysForEverIff(trace: seq<Step>, id: string)
    requires IsRun(trace) && id in After(trace).responses
    ensures StaysForEver(trace, id) <==> IsUnclaimed(After(trace), id)
  {
    InvariantHolds(trace, id);
    if IsUnclaimed(After(trace), id) {
      forall more | IsRun(trace + more) ensures id in After(trace + more).responses {
        LateResponseIsNeverTaken(trace, more, id);
      }
    } else {
      var more := CanStillTake(trace, id);
      assert IsRun(trace + more);
    }
  }

  /** A second response to a request that has been answered is such a leak. */
  lemma DuplicateResponseStays(id: string, m: Message)
    requires id != "" && m.correlationId == id
    ensures StaysForEver([Register(id), Send(id), Store(m), Signal(id), Wake(id), Take(id), Store(m)], id)
  {
    var trace := [Register(id)];
    assert trace[..0] == [] && IsRun(trace);
    Extend(trace, Send(id));
    Extend(trace + [Send(id)], Store(m));
    Extend(trace + [Send(id)] + [Store(m)], Signal(id));
    Extend(trace + [Send(id)] + [Store(m)] + [Signal(id)], Wake(id));
    Extend(trace + [Send(id)] + [Store(m)] + [Signal(id)] + [Wake(id)], Take(id));
    Extend(trace + [Send(id)] + [Store(m)] + [Signal(id)] + [Wake(id)] + [Take(id)], Store(m));
    var all := trace + [Send(id)] + [Store(m)] + [Signal(id)] + [Wake(id)] + [Take(id)] + [Store(m)];
    StaysForEverIff(all, id);
    assert all == [Register(id), Send(id), Store(m), Signal(id), Wake(id), Take(id), Store(m)];
  }

  /** And so is one that comes after the wait has timed out. */
  lemma LateResponseStays(id: string, m: Message)
    requires id != "" && m.correlationId == id
    ensures StaysForEver([Register(id), Send(id), TimeOut(id), Store(m)], id)
  {
    var trace := [Register(id)];
    assert trace[..0] == [] && IsRun(trace);
    Extend(trace, Send(id));
    Extend(trace + [Send(id)], TimeOut(id));
    Extend(trace + [Send(id)] + [TimeOut(id)], Store(m));
    StaysForEverIff(trace + [Send(id)] + [TimeOut(id)] + [Store(m)], id);
    assert trace + [Send(id)] + [TimeOut(id)] + [Store(m)] == [Register(id), Send(id), TimeOut(id), Store(m)];
  }

  /** A response to a message that was not sent as a request stays as well. */
  lemma UnrequestedResponseStays(m: Message)
    requires m.correlationId != ""
    ensures StaysForEver([Store(m)], m.correlationId)
  {
    assert [Store(m)][..0] == [] && IsRun([Store(m)]);
    StaysForEverIff([Store(m)], m.correlationId);
  }

  // ----- the bus -----

  /** The sections of `request` and `notify_arrival` that run under the lock. */
  class ReliableMessageBus {
    var pending: set<string>
    var responses: map<string, Message>
    /** Everything that has happened, by whatever thread. */
    ghost var trace: seq<Step>

    ghost predicate Valid()
      reads this
    {
      IsRun(trace) && pending == After(trace).pending && responses == After(trace).responses
    }

    constructor ()
      ensures Valid() && trace == []
    {
      pending, responses, trace := {}, map[], [];
    }

    /** A thread sends its request or fails to, sets an event, stops waiting for one, or gives up. */
    ghost method EventStep(step: Step)
      requires Valid() && Enabled(After(trace), step)
      requires step.Send? || step.FailToSend? || step.Signal? || step.Wake? || step.TimeOut?
      modifies this`trace
      ensures Valid() && trace == old(trace) + [step]
    {
      Extend(trace, step);
      trace := trace + [step];
    }

    method BeginRequest(id: string)
      requires Valid() && Enabled(After(trace), Register(id))
      modifies this
      ensures Valid() && trace == old(trace) + [Register(id)]
    {
      Extend(trace, Register(id));
      pending := pending + {id};
      trace := trace + [Register(id)];
    }

    /** The response is stored before its event is looked up; `popped` says whether to set it. */
    method FileResponse(message: Message) returns (popped: bool)
      requires Valid()
      modifies this
      ensures Valid()
      ensures trace == if message.correlationId == "" then old(trace) else old(trace) + [Store(message)]
      ensures popped ==> Enabled(After(trace), Signal(message.correlationId))
      ensures popped <==> message.correlationId != "" && message.correlationId in old(After(trace).pending)
    {
      if message.correlationId == "" { return false; }
      Extend(trace, Store(message));
      responses := responses[message.correlationId := message];
      popped := message.correlationId in pending;
      pending := pending - {message.correlationId};
      trace := trace + [Store(message)];
    }

    /** The end of a request whose wait timed out. */
    method EndTimedOut(id: string) returns (answer: Option<Message>)
      requires Valid() && Enabled(After(trace), Withdraw(id))
      modifies this
      ensures Valid() && trace == old(trace) + [Withdraw(id)]
      ensures After(trace).phase[id] == Returned(answer)
    {
      Extend(trace, Withdraw(id));
      pending := pending - {id};
      trace := trace + [Withdraw(id)];
      answer := None;
    }

    /** The end of a request that was woken: it always has an answer, to its own id. */
    method EndWoken(id: string) returns (answer: Option<Message>)
      requires Valid() && Enabled(After(trace), Take(id))
      modifies this
      ensures Valid() && trace == old(trace) + [Take(id)]
      ensures After(trace).phase[id] == Returned(answer)
      ensures answer.Some? && answer.value.correlationId == id
      ensures answer == Latest(old(trace), id)
    {
      Extend(trace, Take(id));
      InvariantHolds(trace, id);
      LatestIsStored(trace, id);
      answer := if id in responses then Some(responses[id]) else None;
      responses := responses - {id};
      trace := trace + [Take(id)];
    }
  }
}
