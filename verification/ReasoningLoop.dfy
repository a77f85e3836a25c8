/** The model/tool loop of one agent turn: how it grows the transcript, when it stops, and what it
    spends.  The provider, the tools and the callbacks are an arbitrary environment. */
module ReasoningLoop {
  import opened Messages
  import opened Options
  import opened PyText
  import Lists

  datatype Response = Response(content: Content, calls: seq<ToolCall>, raw: Option<Message>)

  /** A model call answers or raises. */
  datatype Reply = Answer(response: Response) | Failure

  /** What executing one tool call gave: denied by the loop guard, or for a tool not available. */
  datatype Outcome = Outcome(output: string, guardDenied: bool, unavailable: bool)

  datatype Reflection = NoReflection | Interrupt(message: string) | Advise(instruction: string)

  /** Everything outside the loop, as a function of the reasoning step (and the call in it). */
  datatype Environment = Environment(
    reply: nat -> Reply,
    outcome: (nat, nat) -> Outcome,
    pauseAfter: nat -> bool,
    reflect: nat -> Reflection)

  datatype StopReason = StepLimit | EmptyReplies | RepeatedCall | UnavailableTool | ReflectionStop

  datatype Exit = Finished | Paused | Stopped(reason: StopReason) | Raised

  datatype Summary = Summary(manualCompact: bool, unavailable: seq<string>, guardDenied: bool)

  const MAX_UNAVAILABLE_ATTEMPTS := 2

  const RETRY_NOTE: Wording
  const REMINDER: Wording
  const STOP_NOTE: Wording
  const COMPACT_OUTPUT: Wording
  const SEARCH_EXHAUSTED: Wording

  /** The parts of a session the loop works on; the search budget lives in its metadata. */
  class Session {
    var messages: seq<Message>
    var reminderSent: bool
    var searchLimit: int
    var searchUsed: int
    var searchRemaining: int
    var stopReason: Option<StopReason>
    /** How often the callback `after_turn` has been called with this session. */
    var turnsReported: nat

    constructor (limit: int)
      ensures messages == [] && !reminderSent && stopReason == None && turnsReported == 0
      ensures searchLimit == searchRemaining == limit && searchUsed == 0
    {
      messages, reminderSent, stopReason, turnsReported := [], false, None, 0;
      searchLimit, searchUsed, searchRemaining := limit, 0, limit;
    }
  }

  // ----- the provider's contract -----

  predicate DistinctIds(calls: seq<ToolCall>) {
    && (forall i | 0 <= i < |calls| :: calls[i].id != "")
    && (forall i, j | 0 <= i < j < |calls| :: calls[i].id != calls[j].id)
  }

  /** Call ids are nonempty and distinct, and the raw message says the same as the response. */
  predicate KeepsContract(r: Response) {
    && DistinctIds(r.calls)
    && (r.calls != [] ==> r.raw.Some?)
    && (r.raw.Some? ==>
          r.raw.value.role.Assistant? && r.raw.value.calls == r.calls && r.raw.value.content == r.content)
  }

  ghost predicate GoodProvider(env: Environment) {
    forall step :: env.reply(step).Answer? ==> KeepsContract(env.reply(step).response)
  }

  predicate IsEmptyResponse(r: Response) {
    && r.calls == []
    && match r.content
       case Missing => true
       case Text(t) => Strip(t) == ""
       case Parts(ps, _) => ps == []
  }

  /** A reply is empty when it asks for nothing and says nothing, or only blanks. */
  lemma EmptyResponseIff(r: Response)
    ensures IsEmptyResponse(r) <==>
      && |r.calls| == 0
      && (r.content == Missing
          || (r.content.Text? && forall i | 0 <= i < |r.content.text| :: IsSpace(r.content.text[i]))
          || (r.content.Parts? && |r.content.parts| == 0))
  {
    if r.content.Text? { StripIsBlank(r.content.text); }
  }

  // ----- one group of calls and results -----

  ghost predicate AnswerInOrder(results: seq<Message>, calls: seq<ToolCall>) {
    && |results| == |calls|
    && forall i | 0 <= i < |results| ::
         results[i].role.Tool? && results[i].resultId == calls[i].id && results[i].calls == []
  }

  function IdsUpTo(calls: seq<ToolCall>, k: nat): set<string>
    requires k <= |calls|
  {
    if k == 0 then {} else IdsUpTo(calls, k - 1) + {calls[k - 1].id}
  }

  lemma {:induction false} InIdsUpTo(calls: seq<ToolCall>, k: nat, x: string)
    requires k <= |calls|
    ensures x in IdsUpTo(calls, k) <==> exists i :: 0 <= i < k && calls[i].id == x
  {
    if k > 0 { InIdsUpTo(calls, k - 1, x); }
  }

  lemma AllIds(m: Message)
    requires DistinctIds(m.calls)
    ensures IdsUpTo(m.calls, |m.calls|) == Ids(m)
  {
    forall x ensures x in IdsUpTo(m.calls, |m.calls|) <==> x in Ids(m) {
      InIdsUpTo(m.calls, |m.calls|, x);
    }
  }

  /** The scan over results in call order reads them all and stops at the last. */
  lemma {:induction false} RunOverAnswers(results: seq<Message>, calls: seq<ToolCall>, k: nat)
    requires AnswerInOrder(results, calls) && DistinctIds(calls)
    requires k <= |calls|
    ensures ResultRun(results[k..], IdsUpTo(calls, |calls|), IdsUpTo(calls, k)) == |calls| - k
    decreases |calls| - k
  {
    var n, all := |calls|, IdsUpTo(calls, |calls|);
    if k < n {
      InIdsUpTo(calls, n, calls[k].id);
      RunOverAnswers(results, calls, k + 1);
      assert results[k..][1..] == results[k + 1..];
      if k + 1 < n {
        InIdsUpTo(calls, n, calls[k + 1].id);
        InIdsUpTo(calls, k + 1, calls[k + 1].id);
      }
    }
  }

  lemma {:induction false} SeenAnswers(results: seq<Message>, calls: seq<ToolCall>, k: nat)
    requires AnswerInOrder(results, calls) && k <= |calls|
    ensures Seen(results[..k]) == IdsUpTo(calls, k)
  {
    if k > 0 {
      SeenAnswers(results, calls, k - 1);
      SeenConcat(results[..k - 1], [results[k - 1]]);
      assert results[..k] == results[..k - 1] + [results[k - 1]];
    } else {
      assert results[..0] == [];
    }
  }

  lemma AnsweredCallsAreBlock(head: Message, results: seq<Message>)
    requires head.calls != [] && DistinctIds(head.calls) && AnswerInOrder(results, head.calls)
    ensures Block([head] + results) == 1 + |results|
  {
    hide IdsUpTo;
    var ms, n, ids := [head] + results, |results|, Ids(head);
    AllIds(head);
    FirstId(head.calls);
    RunOverAnswers(results, head.calls, 0);
    SeenAnswers(results, head.calls, n);
    assert results[0..] == results && results[..n] == results;
    assert ms[1..] == results && ms[1..1 + n] == results;
  }

  lemma FirstId(calls: seq<ToolCall>)
    requires calls != []
    ensures calls[0].id in IdsUpTo(calls, |calls|) && IdsUpTo(calls, 0) == {}
  {
    InIdsUpTo(calls, |calls|, calls[0].id);
  }

  /** A message with calls followed by their results, in order, is one legal block. */
  lemma AnsweredCallsAreLegal(head: Message, results: seq<Message>)
    requires head.calls != [] && DistinctIds(head.calls) && AnswerInOrder(results, head.calls)
    ensures Legal([head] + results)
  {
    hide Block;
    hide Ids;
    var ms := [head] + results;
    AnsweredCallsAreBlock(head, results);
    assert ms[|ms|..] == [];
  }

  // ----- the search budget -----

  const SEARCH := "web_search"
  const COMPACT := "compact"

  /** Used and remaining searches account for the limit. */
  ghost predicate Balanced(session: Session)
    reads session
  {
    session.searchLimit > 0 ==>
      0 <= session.searchUsed <= session.searchLimit
      && session.searchUsed + session.searchRemaining == session.searchLimit
  }

  function SearchCalls(calls: seq<ToolCall>, k: nat): nat
    requires k <= |calls|
  {
    if k == 0 then 0 else SearchCalls(calls, k - 1) + (if calls[k - 1].name == SEARCH then 1 else 0)
  }

  /** `_web_search_budget_denial`. */
  method SearchDenied(session: Session, tool: string) returns (denied: bool)
    modifies session`searchUsed, session`searchRemaining
    ensures tool != SEARCH || session.searchLimit <= 0 ==>
      !denied && session.searchUsed == old(session.searchUsed) && session.searchRemaining == old(session.searchRemaining)
    ensures tool == SEARCH && session.searchLimit > 0 ==>
      && (denied <==> old(session.searchUsed) >= session.searchLimit)
      && session.searchUsed == (if denied then old(session.searchUsed) else old(session.searchUsed) + 1)
      && session.searchRemaining == Max(0, session.searchLimit - session.searchUsed)
  {
    if tool != SEARCH { return false; }
    var limit := session.searchLimit;
    if limit <= 0 { return false; }
    var used := session.searchUsed;
    var remaining := Max(0, limit - used);
    if remaining <= 0 {
      session.searchRemaining := 0;
      return true;
    }
    used := used + 1;
    session.searchUsed := used;
    session.searchRemaining := Max(0, limit - used);
    denied := false;
  }

  // ----- executing the calls of one response -----

  function ToolResult(call: ToolCall, output: string): Message {
    Plain(Tool, output).(resultId := call.id)
  }

  function UnavailableNames(env: Environment, step: nat, calls: seq<ToolCall>, k: nat): seq<string>
    requires k <= |calls|
  {
    if k == 0 then []
    else
      var call, before := calls[k - 1], UnavailableNames(env, step, calls, k - 1);
      if call.name != COMPACT && env.outcome(step, k - 1).unavailable then before + [call.name] else before
  }

  predicate CallsCompact(calls: seq<ToolCall>, k: nat)
    requires k <= |calls|
  {
    k > 0 && (calls[k - 1].name == COMPACT || CallsCompact(calls, k - 1))
  }

  /** The loop guard denies one of the calls whatever the search budget says. */
  predicate MustDeny(env: Environment, step: nat, calls: seq<ToolCall>, k: nat)
    requires k <= |calls|
  {
    k > 0 && ((calls[k - 1].name != COMPACT && calls[k - 1].name != SEARCH && env.outcome(step, k - 1).guardDenied)
              || MustDeny(env, step, calls, k - 1))
  }

  predicate MayDeny(env: Environment, step: nat, calls: seq<ToolCall>, k: nat)
    requires k <= |calls|
  {
    k > 0 && ((calls[k - 1].name != COMPACT && env.outcome(step, k - 1).guardDenied)
              || MayDeny(env, step, calls, k - 1))
  }

  /** Which of the first `k` calls are searches. */
  function SearchesAt(calls: seq<ToolCall>, k: nat): set<nat>
    requires k <= |calls|
  {
    set i: nat | i < k && calls[i].name == "web_search"
  }

  lemma {:induction false} SearchesAreCounted(calls: seq<ToolCall>, k: nat)
    requires k <= |calls|
    ensures SearchCalls(calls, k) == |SearchesAt(calls, k)|
  {
    if k > 0 {
      SearchesAreCounted(calls, k - 1);
      assert SearchesAt(calls, k) == SearchesAt(calls, k - 1) + if calls[k - 1].name == "web_search" then {k - 1} else {};
    } else {
      assert SearchesAt(calls, 0) == {};
    }
  }

  /** Which of the first `k` calls ask for `name` in vain. */
  function InVainAt(env: Environment, step: nat, calls: seq<ToolCall>, k: nat, name: string): set<nat>
    requires k <= |calls|
  {
    set i: nat | i < k && calls[i].name == name && name != "compact" && env.outcome(step, i).unavailable
  }

  lemma InVainGrows(env: Environment, step: nat, calls: seq<ToolCall>, k: nat, name: string)
    requires 0 < k <= |calls|
    ensures |InVainAt(env, step, calls, k, name)| == |InVainAt(env, step, calls, k - 1, name)|
      + if calls[k - 1].name == name && name != "compact" && env.outcome(step, k - 1).unavailable then 1 else 0
  {
    assert InVainAt(env, step, calls, k, name) == InVainAt(env, step, calls, k - 1, name)
      + if calls[k - 1].name == name && name != "compact" && env.outcome(step, k - 1).unavailable then {k - 1} else {};
  }

  lemma NoneInVain(env: Environment, step: nat, calls: seq<ToolCall>, name: string)
    ensures InVainAt(env, step, calls, 0, name) == {}
  {
  }

  /** A tool is reported as unavailable for each call to it that found it so. */
  lemma {:induction false} UnavailableIsCounted(env: Environment, step: nat, calls: seq<ToolCall>, k: nat, name: string)
    requires k <= |calls|
    ensures Lists.Times(UnavailableNames(env, step, calls, k), name) == |InVainAt(env, step, calls, k, name)|
  {
    hide InVainAt;
    if k > 0 {
      UnavailableIsCounted(env, step, calls, k - 1, name);
      InVainGrows(env, step, calls, k, name);
      Lists.Snoc(UnavailableNames(env, step, calls, k - 1), calls[k - 1].name);
    } else {
      NoneInVain(env, step, calls, name);
    }
  }

  /** A response asks for compaction when one of its calls does.  It must be taken for denied when the
      guard denies one of its calls that is not a search, and may be when the guard would deny any. */
  lemma {:induction false} SomeCallIff(env: Environment, step: nat, calls: seq<ToolCall>, k: nat)
    requires k <= |calls|
    ensures CallsCompact(calls, k) <==> exists i :: 0 <= i < k && calls[i].name == "compact"
    ensures MustDeny(env, step, calls, k) <==>
      exists i: nat ::
        i < k && calls[i].name != "compact" && calls[i].name != "web_search" && env.outcome(step, i).guardDenied
    ensures MayDeny(env, step, calls, k) <==>
      exists i: nat :: i < k && calls[i].name != "compact" && env.outcome(step, i).guardDenied
  {
    if k > 0 { SomeCallIff(env, step, calls, k - 1); }
  }

  /** What is known about the result of one call. */
  ghost predicate ResultOf(env: Environment, step: nat, k: nat, call: ToolCall, result: Message) {
    && result.role.Tool? && result.resultId == call.id && result.calls == []
    && (call.name == COMPACT ==> result.content == Text(COMPACT_OUTPUT))
    && (call.name != COMPACT && call.name != SEARCH ==> result.content == Text(env.outcome(step, k).output))
  }

  ghost predicate ResultsOfCalls(env: Environment, step: nat, calls: seq<ToolCall>, results: seq<Message>, n: nat) {
    && n == |results| <= |calls|
    && forall i | 0 <= i < n :: ResultOf(env, step, i, calls[i], results[i])
  }

  method ExecuteCall(session: Session, env: Environment, step: nat, k: nat, call: ToolCall)
    returns (result: Message, unavailable: bool, guardDenied: bool)
    modifies session`searchUsed, session`searchRemaining
    ensures ResultOf(env, step, k, call, result)
    ensures unavailable == (call.name != COMPACT && env.outcome(step, k).unavailable)
    ensures guardDenied ==> call.name != COMPACT && env.outcome(step, k).guardDenied
    ensures call.name != COMPACT && call.name != SEARCH ==> guardDenied == env.outcome(step, k).guardDenied
    ensures var exhausted := session.searchLimit > 0 && old(session.searchUsed) >= session.searchLimit;
      call.name == SEARCH ==>
        && result.content == Text(if exhausted then SEARCH_EXHAUSTED else env.outcome(step, k).output)
        && (guardDenied <==> !exhausted && env.outcome(step, k).guardDenied)
    ensures old(Balanced(session)) ==> Balanced(session)
    ensures session.searchLimit > 0 && old(Balanced(session)) ==>
      session.searchUsed ==
      Min(session.searchLimit, old(session.searchUsed) + if call.name == SEARCH then 1 else 0)
  {
    if call.name == COMPACT {
      return ToolResult(call, COMPACT_OUTPUT), false, false;
    }
    var outcome := env.outcome(step, k);
    var denied := SearchDenied(session, call.name);
    if denied {
      result, guardDenied := ToolResult(call, SEARCH_EXHAUSTED), false;
    } else {
      result, guardDenied := ToolResult(call, outcome.output), outcome.guardDenied;
    }
    unavailable := outcome.unavailable;
  }

  /** `_execute_tool_calls`: one result per call, in the order of the calls. */
  method ExecuteToolCalls(session: Session, env: Environment, step: nat, calls: seq<ToolCall>)
    returns (summary: Summary, ghost results: seq<Message>)
    modifies session`messages, session`searchUsed, session`searchRemaining
    ensures session.messages == old(session.messages) + results
    ensures ResultsOfCalls(env, step, calls, results, |calls|)
    ensures summary.manualCompact == CallsCompact(calls, |calls|)
    ensures MustDeny(env, step, calls, |calls|) ==> summary.guardDenied
    ensures summary.guardDenied ==> MayDeny(env, step, calls, |calls|)
    ensures summary.unavailable == UnavailableNames(env, step, calls, |calls|)
    ensures old(Balanced(session)) ==> Balanced(session)
    ensures session.searchLimit > 0 && old(Balanced(session)) ==>
      session.searchUsed == Min(session.searchLimit, old(session.searchUsed) + SearchCalls(calls, |calls|))
  {
    hide ResultOf;
    var manualCompact, unavailable: seq<string>, guardDenied := false, [], false;
    results := [];
    for k := 0 to |calls|
      invariant session.messages == old(session.messages) + results
      invariant ResultsOfCalls(env, step, calls, results, k)
      invariant manualCompact == CallsCompact(calls, k)
      invariant MustDeny(env, step, calls, k) ==> guardDenied
      invariant guardDenied ==> MayDeny(env, step, calls, k)
      invariant unavailable == UnavailableNames(env, step, calls, k)
      invariant old(Balanced(session)) ==> Balanced(session)
      invariant session.searchLimit > 0 && old(Balanced(session)) ==>
        session.searchUsed == Min(session.searchLimit, old(session.searchUsed) + SearchCalls(calls, k))
    {
      var call := calls[k];
      var result, missing, denied := ExecuteCall(session, env, step, k, call);
      if call.name == COMPACT { manualCompact := true; }
      if missing { unavailable := unavailable + [call.name]; }
      if denied { guardDenied := true; }
      session.messages := session.messages + [result];
      results := results + [result];
    }
    summary := Summary(manualCompact, unavailable, guardDenied);
  }

  lemma ResultsAnswerInOrder(env: Environment, step: nat, calls: seq<ToolCall>, results: seq<Message>)
    requires ResultsOfCalls(env, step, calls, results, |calls|)
    ensures AnswerInOrder(results, calls)
  {
  }

  // ----- the loop -----

  /** A transcript the loop may continue and the model may be shown. */
  ghost predicate WellFormed(ms: seq<Message>) {
    Legal(ms) && CallsComeFromAssistants(ms)
  }

  lemma WellFormedConcat(a: seq<Message>, b: seq<Message>)
    requires WellFormed(a) && WellFormed(b)
    ensures WellFormed(a + b)
  {
    hide Legal;
    LegalConcat(a, b);
  }

  lemma PlainIsWellFormed(m: Message)
    requires m.calls == [] && !m.role.Tool? && !IsEmptyAssistant(m)
    ensures WellFormed([m])
  {
    hide Legal;
    LegalSingleton(m);
  }

  /** What a response adds to the transcript before its calls are executed. */
  function Recorded(r: Response): seq<Message> {
    if r.raw.Some? then [r.raw.value]
    else if !r.content.Missing? || r.calls != [] then
      [Plain(Assistant, "").(content := if IsFalsy(r.content) then Text("") else r.content)]
    else []
  }

  predicate IsFalsy(c: Content) {
    c.Missing? || c == Text("") || (c.Parts? && c.parts == [])
  }

  lemma FinalAnswerIsWellFormed(r: Response)
    requires KeepsContract(r) && r.calls == [] && !IsEmptyResponse(r)
    ensures WellFormed(Recorded(r))
  {
    hide Legal;
    var m := Recorded(r)[0];
    assert Recorded(r) == [m];
    PlainIsWellFormed(m);
  }

  lemma AnsweredResponseIsWellFormed(r: Response, results: seq<Message>)
    requires KeepsContract(r) && r.calls != [] && AnswerInOrder(results, r.calls)
    ensures WellFormed(Recorded(r) + results)
  {
    hide Legal;
    AnsweredCallsAreLegal(r.raw.value, results);
  }

  function CeilOf(x: real): int { -(-x).Floor }

  /** `_finishing_reminder_step`. */
  function ReminderStep(maxSteps: nat, ratio: real): int {
    if ratio <= 0.0 then maxSteps + 1 else Max(1, Min(maxSteps, CeilOf(maxSteps as real * ratio)))
  }

  /** The reminder comes at the first step that has used up the ratio, at the last one at the latest,
      and never for a ratio that is not positive. */
  lemma ReminderStepIsLeast(maxSteps: nat, ratio: real, step: nat)
    requires 1 <= step <= maxSteps
    ensures ReminderStep(maxSteps, ratio) >= 1
    ensures ratio <= 0.0 ==> ReminderStep(maxSteps, ratio) > maxSteps
    ensures ratio > 0.0 ==>
      (step >= ReminderStep(maxSteps, ratio) <==> step == maxSteps || step as real >= maxSteps as real * ratio)
  {
    var r := maxSteps as real * ratio;
    assert CeilOf(r) as real >= r > CeilOf(r) as real - 1.0;
  }

  /** How often `name` was requested in vain, `before` and in `names`. */
  function InVain(before: map<string, nat>, names: seq<string>, name: string): nat {
    Lists.Get(before, name, 0) + Lists.Times(names, name)
  }

  ghost predicate CountsInVain(before: map<string, nat>, after: map<string, nat>, names: seq<string>) {
    forall t :: Lists.Get(after, t, 0) == InVain(before, names, t)
  }

  function OneMore(counts: map<string, nat>, name: string): map<string, nat> {
    counts[name := Lists.Get(counts, name, 0) + 1]
  }

  lemma OneMoreInVain(before: map<string, nat>, after: map<string, nat>, names: seq<string>, i: nat)
    requires i < |names| && CountsInVain(before, after, names[..i])
    ensures CountsInVain(before, OneMore(after, names[i]), names[..i + 1])
    ensures OneMore(after, names[i])[names[i]] == InVain(before, names[..i + 1], names[i])
    ensures forall t :: t != names[i] ==> InVain(before, names[..i + 1], t) == InVain(before, names[..i], t)
  {
    assert names[..i + 1][..i] == names[..i];
    forall t ensures Lists.Get(OneMore(after, names[i]), t, 0) == InVain(before, names[..i + 1], t) {
      assert Lists.Get(after, t, 0) == InVain(before, names[..i], t);
    }
  }

  /** Counts the unavailable tools of one more response; too many requests for one end the turn. */
  method CountUnavailable(attempts: map<string, nat>, names: seq<string>)
    returns (after: map<string, nat>, exhausted: bool)
    ensures exhausted <==>
      exists i :: 0 <= i < |names| && InVain(attempts, names, names[i]) >= MAX_UNAVAILABLE_ATTEMPTS
    ensures !exhausted ==> CountsInVain(attempts, after, names)
  {
    after := attempts;
    for i := 0 to |names|
      invariant CountsInVain(attempts, after, names[..i])
      invariant forall j | 0 <= j < i ::
        InVain(attempts, names[..i], names[j]) < MAX_UNAVAILABLE_ATTEMPTS
    {
      var name := names[i];
      OneMoreInVain(attempts, after, names, i);
      after := OneMore(after, name);
      if after[name] >= MAX_UNAVAILABLE_ATTEMPTS {
        InVainOfPrefix(attempts, names, i + 1, name);
        return after, true;
      }
    }
    assert names[..|names|] == names;
    exhausted := false;
  }

  lemma InVainOfPrefix(before: map<string, nat>, names: seq<string>, n: nat, t: string)
    requires n <= |names|
    ensures InVain(before, names[..n], t) <= InVain(before, names, t)
  {
    Lists.TimesOfPrefix(names, n, t);
  }

  /** The tools a response requests in vain. */
  function UnavailableAt(env: Environment, step: nat): seq<string> {
    if env.reply(step).Failure? then []
    else UnavailableNames(env, step, env.reply(step).response.calls, |env.reply(step).response.calls|)
  }

  /** How often `name` was requested in vain in the first `n` steps. */
  function Tally(env: Environment, n: nat, name: string): nat {
    if n == 0 then 0 else Tally(env, n - 1, name) + Lists.Times(UnavailableAt(env, n), name)
  }

  ghost predicate TooMany(env: Environment, n: nat) {
    exists t :: Tally(env, n, t) >= MAX_UNAVAILABLE_ATTEMPTS
  }

  /** Twice is too often, in one response or in several. */
  lemma TwiceIsTooMany(env: Environment, n: nat)
    ensures TooMany(env, n) <==> exists t :: Tally(env, n, t) >= 2
  {
    if t :| Tally(env, n, t) >= 2 {
      assert Tally(env, n, t) >= MAX_UNAVAILABLE_ATTEMPTS;
    }
    if TooMany(env, n) {
      var t :| Tally(env, n, t) >= MAX_UNAVAILABLE_ATTEMPTS;
      assert Tally(env, n, t) >= 2;
    }
  }

  /** The tally adds up the calls of each step that asked in vain. */
  lemma TallyAddsUp(env: Environment, n: nat, name: string)
    ensures Tally(env, 0, name) == 0
    ensures Tally(env, n + 1, name) == Tally(env, n, name) +
      match env.reply(n + 1)
      case Failure => 0
      case Answer(r) => |InVainAt(env, n + 1, r.calls, |r.calls|, name)|
  {
    hide InVainAt;
    if env.reply(n + 1).Answer? {
      var calls := env.reply(n + 1).response.calls;
      UnavailableIsCounted(env, n + 1, calls, |calls|, name);
    }
  }

  ghost predicate Tallied(env: Environment, n: nat, attempts: map<string, nat>) {
    !TooMany(env, n) && forall t :: Lists.Get(attempts, t, 0) == Tally(env, n, t)
  }

  lemma NothingTallied(env: Environment)
    ensures Tallied(env, 0, map[])
  {
  }

  lemma TalliedIsNotTooMany(env: Environment, n: nat, attempts: map<string, nat>)
    requires Tallied(env, n, attempts)
    ensures !TooMany(env, n)
  {
  }

  /** Counting one more step: the count fails just when the tally has become too much. */
  lemma TallyStep(env: Environment, step: nat, before: map<string, nat>, after: map<string, nat>, exhausted: bool)
    requires step > 0 && Tallied(env, step - 1, before)
    requires var names := UnavailableAt(env, step);
      && (exhausted <==>
           exists i :: 0 <= i < |names| && InVain(before, names, names[i]) >= MAX_UNAVAILABLE_ATTEMPTS)
      && (!exhausted ==> CountsInVain(before, after, names))
    ensures exhausted ==> TooMany(env, step)
    ensures !exhausted ==> Tallied(env, step, after)
  {
    var names := UnavailableAt(env, step);
    forall t ensures InVain(before, names, t) == Tally(env, step, t) {
      assert Lists.Get(before, t, 0) == Tally(env, step - 1, t);
    }
    if exhausted {
      var i :| 0 <= i < |names| && InVain(before, names, names[i]) >= MAX_UNAVAILABLE_ATTEMPTS;
      assert Tally(env, step, names[i]) >= MAX_UNAVAILABLE_ATTEMPTS;
    } else {
      forall t ensures Tally(env, step, t) < MAX_UNAVAILABLE_ATTEMPTS {
        assert Tally(env, step - 1, t) < MAX_UNAVAILABLE_ATTEMPTS;
        Lists.InElements(names, t);
        Lists.AbsentZero(names, t);
      }
    }
  }

  lemma NothingRequested(env: Environment, step: nat)
    requires env.reply(step).Answer? && IsEmptyResponse(env.reply(step).response)
    ensures UnavailableAt(env, step) == []
  {
  }

  /** A step without unavailable tools leaves the tally as it is. */
  lemma QuietStep(env: Environment, step: nat, attempts: map<string, nat>)
    requires step > 0 && Tallied(env, step - 1, attempts) && UnavailableAt(env, step) == []
    ensures Tallied(env, step, attempts)
  {
    forall t ensures Tally(env, step, t) == Tally(env, step - 1, t) {}
  }

  lemma OrphanIsIllegal(ms: seq<Message>)
    requires |ms| > 1 && ms[0].calls == [] && ms[1].role.Tool? && ms[1].calls == []
    ensures !Legal(ms)
  {
    assert Block(ms) <= 1;
    assert Block(ms[1..]) == 0;
  }

  /** The raw message asks for just the ids that were answered, and the last of them comes last. */
  predicate Mirrors(r: Response)
    requires r.calls != []
  {
    var n := |r.calls|;
    && r.raw.Some? && r.raw.value.calls != []
    && Ids(r.raw.value) == IdsUpTo(r.calls, n)
    && "" !in IdsUpTo(r.calls, n)
    && r.calls[n - 1].id !in IdsUpTo(r.calls, n - 1)
  }

  /** The scan reads all results exactly when nothing is complete before the last. */
  lemma RunReadsAllIff(results: seq<Message>, calls: seq<ToolCall>, ids: set<string>)
    requires AnswerInOrder(results, calls) && calls != [] && ids != {}
    ensures var n := ResultRun(results, ids, {});
      n == |results| && Seen(results[..n]) == ids
      <==> ids == IdsUpTo(calls, |calls|) && calls[|calls| - 1].id !in IdsUpTo(calls, |calls| - 1)
  {
    hide IdsUpTo;
    hide Seen;
    hide ResultRun;
    var count, n := |calls|, ResultRun(results, ids, {});
    assert {} + IdsUpTo(calls, count - 1) == IdsUpTo(calls, count - 1);
    SeenAnswers(results, calls, count);
    SeenAnswers(results, calls, count - 1);
    LastId(calls);
    if n == count && Seen(results[..n]) == ids {
      RunStaysOpen(results, ids, {}, count - 1);
    }
    if ids == IdsUpTo(calls, count) && calls[count - 1].id !in IdsUpTo(calls, count - 1) {
      forall k | 0 <= k < count ensures results[k].role.Tool? && results[k].resultId in ids {
        InIdsUpTo(calls, count, calls[k].id);
      }
      RunReaches(results, ids, {}, count);
      SeenAnswers(results, calls, n);
      if n < count { IdsGrow(calls, n, count - 1); }
    }
  }

  lemma LastId(calls: seq<ToolCall>)
    requires calls != []
    ensures IdsUpTo(calls, |calls|) == IdsUpTo(calls, |calls| - 1) + {calls[|calls| - 1].id}
  {
  }

  lemma {:induction false} IdsGrow(calls: seq<ToolCall>, n: nat, m: nat)
    requires n <= m <= |calls|
    ensures IdsUpTo(calls, n) <= IdsUpTo(calls, m)
  {
    if n < m { IdsGrow(calls, n, m - 1); }
  }

  lemma RecordedIsLegalIff(head: Message, results: seq<Message>, calls: seq<ToolCall>)
    requires AnswerInOrder(results, calls) && calls != [] && head.calls != []
    ensures Legal([head] + results) <==>
      Ids(head) == IdsUpTo(calls, |calls|) && calls[|calls| - 1].id !in IdsUpTo(calls, |calls| - 1)
  {
    var ms, ids := [head] + results, Ids(head);
    assert ms[1..] == results && ms[0] == head;
    LastId(calls);
    if ids == {} {
      assert Block(ms) == 1;
      assert Block(results) == 0;
    } else {
      var n := ResultRun(results, ids, {});
      assert ms[1..1 + n] == results[..n];
      RunReadsAllIff(results, calls, ids);
      hide Block;
      BlockOfCalls(head, results);
      if n < |results| { OrphansAreIllegal(ms, 1 + n); } else { assert ms[1 + n..] == []; }
    }
  }

  lemma BlockOfCalls(head: Message, results: seq<Message>)
    requires head.calls != [] && Ids(head) != {}
    ensures var n := ResultRun(results, Ids(head), {});
      Block([head] + results) == if Seen(results[..n]) == Ids(head) then 1 + n else 0
  {
    var ms := [head] + results;
    assert ms[1..] == results && ms[0] == head;
    var n := ResultRun(results, Ids(head), {});
    assert ms[1..1 + n] == results[..n];
  }

  lemma OrphansAreIllegal(ms: seq<Message>, i: nat)
    requires i < |ms| && ms[i].role.Tool? && ms[i].calls == []
    ensures !Legal(ms[i..])
  {
    assert ms[i..][0] == ms[i];
  }

  /** Recording a response with calls and their results keeps a session legal exactly when its raw
      message mirrors the calls. */
  lemma RecordingIsLegalIff(ms: seq<Message>, r: Response, results: seq<Message>)
    requires Legal(ms) && r.calls != [] && AnswerInOrder(results, r.calls)
    requires r.raw.Some? ==> !r.raw.value.role.Tool?
    ensures Legal(ms + (Recorded(r) + results)) <==> Mirrors(r)
  {
    hide Legal;
    var tail := Recorded(r) + results;
    var head := Recorded(r)[0];
    assert tail == [head] + results && (ms + tail)[|ms|..] == tail;
    if Legal(ms + tail) { LegalSplit(ms + tail, |ms|); }
    if Legal(tail) { LegalConcat(ms, tail); }
    if head.calls == [] {
      OrphanIsIllegal(tail);
    } else {
      RecordedIsLegalIff(head, results, r.calls);
    }
  }

  /** Why the contract asks for the raw message: calls reported without it leave orphan results. */
  lemma UnmirroredCallsBreakProtocol(ms: seq<Message>, r: Response, results: seq<Message>)
    requires r.calls != [] && r.raw.None? && AnswerInOrder(results, r.calls)
    ensures !Legal(ms + (Recorded(r) + results))
  {
    hide Legal;
    var tail := Recorded(r) + results;
    assert (ms + tail)[|ms|..] == tail;
    if Legal(ms + tail) { LegalSplit(ms + tail, |ms|); }
    OrphanIsIllegal(tail);
  }

  // ----- how a turn unfolds -----

  /** The message says what the response says, and is the raw message if there is one. */
  predicate IsRecordOf(m: Message, r: Response) {
    && m.role.Assistant? && m.calls == r.calls && m.content == r.content
    && (r.raw.Some? ==> m == r.raw.value)
  }

  lemma RecordedIsRecord(r: Response)
    requires KeepsContract(r) && !IsEmptyResponse(r)
    ensures |Recorded(r)| == 1 && IsRecordOf(Recorded(r)[0], r)
  {
    BlankText();
  }

  lemma BlankText()
    ensures Strip("") == ""
  {
  }

  /** The response of `step` has been recorded in one message and each of its calls answered. */
  ghost predicate Executed(env: Environment, step: nat, before: seq<Message>, after: seq<Message>) {
    && env.reply(step).Answer?
    && var r, n := env.reply(step).response, |before|;
    && r.calls != []
    && before <= after && n < |after| && IsRecordOf(after[n], r)
    && ResultsOfCalls(env, step, r.calls, after[n + 1..], |r.calls|)
  }

  /** Neither the callback nor the loop guard ended the turn after the calls of this step. */
  ghost predicate Undisturbed(env: Environment, step: nat) {
    && env.reply(step).Answer?
    && var calls := env.reply(step).response.calls;
    !env.pauseAfter(step) && !MustDeny(env, step, calls, |calls|)
  }

  /** `after` is what a step that does not end the turn makes of the transcript. */
  ghost predicate Follows(env: Environment, step: nat, before: seq<Message>, after: seq<Message>) {
    && env.reply(step).Answer?
    && if IsEmptyResponse(env.reply(step).response) then after == before + [Plain(User, RETRY_NOTE)]
       else if env.reflect(step).Interrupt? || !Undisturbed(env, step) then false
       else if HasAdvice(env.reflect(step)) then
         EndsWith(after, Plain(User, env.reflect(step).instruction)) && Executed(env, step, before, Front(after))
       else Executed(env, step, before, after)
  }

  predicate HasAdvice(r: Reflection) { r.Advise? && r.instruction != "" }

  predicate EndsWith(ms: seq<Message>, m: Message) { ms != [] && ms[|ms| - 1] == m }

  function Front(ms: seq<Message>): seq<Message> { if ms == [] then [] else ms[..|ms| - 1] }

  /** The same with the reminder that steps are running out, if it comes before the next step. */
  ghost predicate Continues(env: Environment, step: nat, before: seq<Message>, after: seq<Message>, remindAt: int) {
    if step + 1 == remindAt then
      EndsWith(after, Plain(System, REMINDER)) && Follows(env, step, before, Front(after))
    else Follows(env, step, before, after)
  }

  /** The transcripts of successive model calls: all well formed, each what the step before made. */
  ghost predicate Chain(env: Environment, start: seq<Message>, heads: seq<seq<Message>>, remindAt: int) {
    && (forall i | 0 <= i < |heads| :: WellFormed(heads[i]))
    && (heads != [] ==> heads[0] == if remindAt == 1 then start + [Plain(System, REMINDER)] else start)
    && (forall i | 0 < i < |heads| :: Continues(env, i, heads[i - 1], heads[i], remindAt))
  }

  lemma EmptyChain(env: Environment, start: seq<Message>, remindAt: int)
    ensures Chain(env, start, [], remindAt)
  {
  }

  lemma ChainGrows(env: Environment, start: seq<Message>, heads: seq<seq<Message>>, body: seq<Message>,
                   next: seq<Message>, remindAt: int)
    requires Chain(env, start, heads, remindAt) && WellFormed(next)
    requires next == if |heads| + 1 == remindAt then body + [Plain(System, REMINDER)] else body
    requires if heads == [] then body == start else Follows(env, |heads|, heads[|heads| - 1], body)
    ensures Chain(env, start, heads + [next], remindAt)
  {
    hide WellFormed;
    hide Follows;
    assert |heads| + 1 == remindAt ==> Front(next) == body;
  }

  /** How the turn ends, `head` being the transcript of the last model call. */
  ghost predicate Closes(env: Environment, exit: Exit, step: nat, head: seq<Message>, after: seq<Message>) {
    match exit
    case Raised => env.reply(step).Failure? && after == head
    case Finished =>
      && env.reply(step).Answer?
      && var r := env.reply(step).response;
      && r.calls == [] && !IsEmptyResponse(r)
         && |after| == |head| + 1 && head <= after && IsRecordOf(after[|head|], r)
    case Paused => env.pauseAfter(step) && Executed(env, step, head, after)
    case Stopped(reason) =>
      && EndsWith(after, Plain(Assistant, STOP_NOTE))
      && match reason
         case StepLimit => Follows(env, step, head, Front(after))
         case EmptyReplies =>
           env.reply(step).Answer? && IsEmptyResponse(env.reply(step).response) && Front(after) == head
         case RepeatedCall =>
           && env.reply(step).Answer? && !env.pauseAfter(step)
           && MayDeny(env, step, env.reply(step).response.calls, |env.reply(step).response.calls|)
           && Executed(env, step, head, Front(after))
         case UnavailableTool =>
           Undisturbed(env, step) && TooMany(env, step) && Executed(env, step, head, Front(after))
         case ReflectionStop =>
           Undisturbed(env, step) && env.reflect(step).Interrupt? && Executed(env, step, head, Front(after))
  }

  /** The turn ends with one message of the assistant that gives the text of the last response. */
  ghost predicate GivesAnswer(env: Environment, step: nat, head: seq<Message>, after: seq<Message>) {
    && env.reply(step).Answer? && env.reply(step).response.calls == []
    && |after| == |head| + 1 && after[..|head|] == head
    && var m := after[|head|];
       m.role.Assistant? && m.calls == [] && m.content == env.reply(step).response.content
  }

  /** The calls of a response stand after the transcript it answers, each with its result. */
  ghost predicate ShowsCalls(env: Environment, step: nat, before: seq<Message>, after: seq<Message>) {
    && env.reply(step).Answer? && before <= after
    && var r, n := env.reply(step).response, |before|;
    r.calls != [] ==>
      && n + |r.calls| < |after|
      && after[n].role.Assistant? && after[n].calls == r.calls && after[n].content == r.content
      && forall i | 0 <= i < |r.calls| :: IsAnswerTo(after[n + 1..][i], r.calls[i])
  }

  predicate IsAnswerTo(m: Message, call: ToolCall) {
    m.role.Tool? && m.resultId == call.id
  }

  lemma FinishedAnswers(env: Environment, step: nat, head: seq<Message>, after: seq<Message>)
    requires Closes(env, Finished, step, head, after)
    ensures GivesAnswer(env, step, head, after)
  {
  }

  lemma LimitCloses(env: Environment, step: nat, head: seq<Message>, body: seq<Message>, after: seq<Message>)
    requires Follows(env, step, head, body) && after == body + [Plain(Assistant, STOP_NOTE)]
    ensures Closes(env, Stopped(StepLimit), step, head, after)
  {
    hide Follows;
    assert Front(after) == body;
  }

  lemma FailureCloses(env: Environment, step: nat, head: seq<Message>)
    requires env.reply(step).Failure?
    ensures Closes(env, Raised, step, head, head)
  {
  }

  lemma ExecutedShowsCalls(env: Environment, step: nat, before: seq<Message>, after: seq<Message>)
    requires Executed(env, step, before, after)
    ensures ShowsCalls(env, step, before, after)
  {
  }

  lemma ShowsMore(env: Environment, step: nat, before: seq<Message>, after: seq<Message>)
    requires after != [] && ShowsCalls(env, step, before, Front(after))
    ensures ShowsCalls(env, step, before, after)
  {
    var n, k := |before| + 1, |env.reply(step).response.calls|;
    if k > 0 {
      forall i | 0 <= i < k ensures IsAnswerTo(after[n..][i], env.reply(step).response.calls[i]) {
        assert IsAnswerTo(Front(after)[n..][i], env.reply(step).response.calls[i]);
      }
    }
  }

  lemma FollowsShowsCalls(env: Environment, step: nat, before: seq<Message>, after: seq<Message>)
    requires Follows(env, step, before, after)
    ensures ShowsCalls(env, step, before, after)
  {
    hide Executed;
    hide Undisturbed;
    if IsEmptyResponse(env.reply(step).response) { return; }
    hide ShowsCalls;
    if HasAdvice(env.reflect(step)) {
      ExecutedShowsCalls(env, step, before, Front(after));
      ShowsMore(env, step, before, after);
    } else {
      ExecutedShowsCalls(env, step, before, after);
    }
  }

  lemma ContinuesShowsCalls(env: Environment, step: nat, before: seq<Message>, after: seq<Message>, remindAt: int)
    requires Continues(env, step, before, after, remindAt)
    ensures ShowsCalls(env, step, before, after)
  {
    hide Follows;
    hide ShowsCalls;
    if step + 1 == remindAt {
      FollowsShowsCalls(env, step, before, Front(after));
      ShowsMore(env, step, before, after);
    } else {
      FollowsShowsCalls(env, step, before, after);
    }
  }

  /** Every call of the model and every result is in the transcripts that follow. */
  lemma ChainShowsCalls(env: Environment, start: seq<Message>, heads: seq<seq<Message>>, remindAt: int)
    requires Chain(env, start, heads, remindAt)
    ensures forall k | 0 < k < |heads| :: ShowsCalls(env, k, heads[k - 1], heads[k])
  {
    hide Continues;
    hide ShowsCalls;
    hide WellFormed;
    forall k | 0 < k < |heads| ensures ShowsCalls(env, k, heads[k - 1], heads[k]) {
      ContinuesShowsCalls(env, k, heads[k - 1], heads[k], remindAt);
    }
  }

  class ReasoningLoop {
    const maxSteps: nat
    const reminderRatio: real

    constructor (maxReasoningSteps: int, ratio: real)
      ensures maxSteps == Max(1, maxReasoningSteps) && reminderRatio == ratio
      ensures maxSteps > 0
    {
      maxSteps, reminderRatio := Max(1, maxReasoningSteps), ratio;
    }

    method Append(session: Session, m: Message)
      requires WellFormed(session.messages) && m.calls == [] && !m.role.Tool? && !IsEmptyAssistant(m)
      modifies session`messages
      ensures session.messages == old(session.messages) + [m] && WellFormed(session.messages)
    {
      PlainIsWellFormed(m);
      WellFormedConcat(session.messages, [m]);
      session.messages := session.messages + [m];
    }

    method MaybeRemind(session: Session, step: nat)
      requires WellFormed(session.messages)
      modifies session`messages, session`reminderSent
      ensures WellFormed(session.messages)
      ensures session.messages ==
        if !old(session.reminderSent) && step >= ReminderStep(maxSteps, reminderRatio)
        then old(session.messages) + [Plain(System, REMINDER)] else old(session.messages)
      ensures session.reminderSent == (old(session.reminderSent) || step >= ReminderStep(maxSteps, reminderRatio))
    {
      if session.reminderSent { return; }
      if step < ReminderStep(maxSteps, reminderRatio) { return; }
      Append(session, Plain(System, REMINDER));
      session.reminderSent := true;
    }

    /** The callback `after_turn`; what it does with the finished turn is not modelled. */
    method AfterTurn(session: Session)
      modifies session`turnsReported
      ensures session.turnsReported == old(session.turnsReported) + 1
    {
      session.turnsReported := session.turnsReported + 1;
    }

    method StopTurn(session: Session, reason: StopReason)
      requires WellFormed(session.messages)
      modifies session`messages, session`stopReason, session`turnsReported
      ensures WellFormed(session.messages)
      ensures session.messages == old(session.messages) + [Plain(Assistant, STOP_NOTE)]
      ensures session.stopReason == Some(reason)
      ensures session.turnsReported == old(session.turnsReported) + 1
    {
      Append(session, Plain(Assistant, STOP_NOTE));
      session.stopReason := Some(reason);
      AfterTurn(session);
    }

    /** One turn.  `heads` are the transcripts from which the successive contexts were built. */
    method Run(session: Session, env: Environment)
      returns (exit: Exit, modelCalls: nat, ghost heads: seq<seq<Message>>)
      requires maxSteps > 0
      requires GoodProvider(env) && WellFormed(session.messages) && Balanced(session)
      modifies session
      ensures WellFormed(session.messages) && old(session.messages) <= session.messages
      ensures |heads| == modelCalls <= maxSteps
      ensures Chain(env, old(session.messages), heads,
                    if old(session.reminderSent) then 0 else ReminderStep(maxSteps, reminderRatio))
      ensures modelCalls > 0
      ensures exit == Finished ==> GivesAnswer(env, modelCalls, heads[modelCalls - 1], session.messages)
      ensures forall k | 0 < k < modelCalls :: ShowsCalls(env, k, heads[k - 1], heads[k])
      ensures session.turnsReported == old(session.turnsReported) + if exit.Raised? then 0 else 1
      ensures session.searchLimit == old(session.searchLimit) && Balanced(session)
      ensures exit.Stopped? ==> session.stopReason == Some(exit.reason)
      ensures exit == Stopped(StepLimit) ==> modelCalls == maxSteps && !TooMany(env, modelCalls)
      ensures !TooMany(env, modelCalls - 1)
      ensures Closes(env, exit, modelCalls, heads[modelCalls - 1], session.messages)
      ensures exit == Stopped(EmptyReplies) ==>
        modelCalls > 1 && forall k | modelCalls - 1 <= k <= modelCalls ::
          env.reply(k).Answer? && IsEmptyResponse(env.reply(k).response)
    {
      hide Tallied;
      hide TooMany;
      hide WellFormed;
      hide Follows;
      hide Chain;
      hide Closes;
      hide GivesAnswer;
      hide ReminderStep;
      hide ShowsCalls;
      hide IsEmptyResponse;
      modelCalls, heads := 0, [];
      ghost var remindAt := if session.reminderSent then 0 else ReminderStep(maxSteps, reminderRatio);
      EmptyChain(env, session.messages, remindAt);
      NothingTallied(env);
      ReminderStepIsLeast(maxSteps, reminderRatio, 1);
      var steps := 0;
      var attempts: map<string, nat> := map[];
      var emptyReplies := 0;
      while true
        invariant steps == modelCalls == |heads| <= maxSteps && session.turnsReported == old(session.turnsReported)
        invariant WellFormed(session.messages) && old(session.messages) <= session.messages
        invariant Chain(env, old(session.messages), heads, remindAt)
        invariant session.reminderSent <==>
          old(session.reminderSent) || steps >= ReminderStep(maxSteps, reminderRatio)
        invariant session.searchLimit == old(session.searchLimit) && Balanced(session)
        invariant Tallied(env, steps, attempts)
        invariant steps > 0 ==> !TooMany(env, steps - 1)
        invariant steps == 0 ==> session.messages == old(session.messages)
        invariant steps > 0 ==> Follows(env, steps, heads[steps - 1], session.messages)
        invariant 0 <= emptyReplies <= 1 && emptyReplies <= steps
        invariant emptyReplies == 1 ==> env.reply(steps).Answer? && IsEmptyResponse(env.reply(steps).response)
        decreases maxSteps - steps
      {
        TalliedIsNotTooMany(env, steps, attempts);
        steps := steps + 1;
        ghost var body := session.messages;
        if steps > maxSteps {
          StopTurn(session, StepLimit);
          LimitCloses(env, maxSteps, heads[maxSteps - 1], body, session.messages);
          ChainShowsCalls(env, old(session.messages), heads, remindAt);
          return Stopped(StepLimit), modelCalls, heads;
        }
        MaybeRemind(session, steps);
        ChainGrows(env, old(session.messages), heads, body, session.messages, remindAt);
        heads := heads + [session.messages];
        modelCalls := modelCalls + 1;
        ChainShowsCalls(env, old(session.messages), heads, remindAt);
        if env.reply(steps).Failure? {
          FailureCloses(env, steps, session.messages);
          return Raised, modelCalls, heads;
        }
        var done;
        done, emptyReplies, attempts := HandleReply(session, env, steps, emptyReplies, attempts);
        if done.Some? {
          if done == Some(Finished) { FinishedAnswers(env, steps, heads[steps - 1], session.messages); }
          return done.value, modelCalls, heads;
        }
      }
    }

    /** What happens after a model call; every way to end the turn reports to `after_turn` once. */
    method HandleReply(session: Session, env: Environment, step: nat, emptyBefore: nat, attemptsBefore: map<string, nat>)
      returns (done: Option<Exit>, emptyReplies: nat, attempts: map<string, nat>)
      requires GoodProvider(env) && env.reply(step).Answer? && emptyBefore <= 1
      requires step > 0 && Tallied(env, step - 1, attemptsBefore)
      requires WellFormed(session.messages) && Balanced(session)
      modifies session
      ensures WellFormed(session.messages) && old(session.messages) <= session.messages
      ensures session.searchLimit == old(session.searchLimit) && Balanced(session)
      ensures done.None? ==> Follows(env, step, old(session.messages), session.messages)
      ensures done.Some? ==> !done.value.Raised? && done != Some(Stopped(StepLimit))
                             && Closes(env, done.value, step, old(session.messages), session.messages)
      ensures done.Some? && done.value.Stopped? ==> session.stopReason == Some(done.value.reason)
      ensures done == Some(Stopped(EmptyReplies)) ==> emptyBefore == 1 && IsEmptyResponse(env.reply(step).response)
      ensures done.None? ==> Tallied(env, step, attempts)
      ensures session.turnsReported == old(session.turnsReported) + if done.Some? then 1 else 0
      ensures session.reminderSent == old(session.reminderSent)
      ensures emptyReplies == (if IsEmptyResponse(env.reply(step).response) then emptyBefore + 1 else 0)
      ensures done.None? ==> emptyReplies <= 1
    {
      hide Tallied;
      hide TooMany;
      hide WellFormed;
      hide Executed;
      hide Recorded;
      hide IsRecordOf;
      hide UnavailableAt;
      hide IsEmptyResponse;
      var response := env.reply(step).response;
      emptyReplies, attempts := 0, attemptsBefore;
      if IsEmptyResponse(response) {
        emptyReplies := emptyBefore + 1;
        if emptyReplies >= 2 {
          StopTurn(session, EmptyReplies);
          return Some(Stopped(EmptyReplies)), emptyReplies, attempts;
        }
        Append(session, Plain(User, RETRY_NOTE));
        NothingRequested(env, step);
        QuietStep(env, step, attempts);
        return None, emptyReplies, attempts;
      }
      if response.calls == [] {
        FinalAnswerIsWellFormed(response);
        WellFormedConcat(session.messages, Recorded(response));
        RecordedIsRecord(response);
        session.messages := session.messages + Recorded(response);
        AfterTurn(session);
        return Some(Finished), emptyReplies, attempts;
      }
      var summary := RecordAndExecute(session, env, step, response);
      if env.pauseAfter(step) {
        AfterTurn(session);
        return Some(Paused), emptyReplies, attempts;
      }
      if summary.guardDenied {
        StopTurn(session, RepeatedCall);
        return Some(Stopped(RepeatedCall)), emptyReplies, attempts;
      }
      var exhausted;
      attempts, exhausted := CountUnavailable(attempts, summary.unavailable);
      TallyStep(env, step, attemptsBefore, attempts, exhausted);
      if exhausted {
        StopTurn(session, UnavailableTool);
        return Some(Stopped(UnavailableTool)), emptyReplies, attempts;
      }
      var reflection := env.reflect(step);
      if reflection.Interrupt? {
        StopTurn(session, ReflectionStop);
        return Some(Stopped(ReflectionStop)), emptyReplies, attempts;
      }
      if HasAdvice(reflection) { Append(session, Plain(User, reflection.instruction)); }
      done := None;
    }

    /** A response with calls and the results of executing them. */
    method RecordAndExecute(session: Session, env: Environment, step: nat, response: Response)
      returns (summary: Summary)
      requires WellFormed(session.messages) && Balanced(session)
      requires KeepsContract(response) && response.calls != []
      modifies session`messages, session`searchUsed, session`searchRemaining
      requires env.reply(step) == Answer(response)
      ensures WellFormed(session.messages) && old(session.messages) <= session.messages
      ensures Executed(env, step, old(session.messages), session.messages)
      ensures Balanced(session)
      ensures summary.unavailable == UnavailableAt(env, step)
      ensures MustDeny(env, step, response.calls, |response.calls|) ==> summary.guardDenied
      ensures summary.guardDenied ==> MayDeny(env, step, response.calls, |response.calls|)
    {
      hide WellFormed;
      ghost var before := session.messages;
      session.messages := session.messages + Recorded(response);
      ghost var results;
      summary, results := ExecuteToolCalls(session, env, step, response.calls);
      ResultsAnswerInOrder(env, step, response.calls, results);
      AnsweredResponseIsWellFormed(response, results);
      WellFormedConcat(before, Recorded(response) + results);
      RecordedIsRecord(response);
      assert session.messages == before + (Recorded(response) + results);
      assert session.messages[|before| + 1..] == results;
    }
  }
}
