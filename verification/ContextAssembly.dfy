/** Putting the model context together: system prompt, budgeted history, context frame, budgeted
    active turn.  From a legal session the sanitizer finds nothing to repair. */
module ContextAssembly {
  import opened Messages
  import opened Options
  import opened PyText
  import opened Turns
  import opened ContextHistory
  import opened ActiveTurn
  import Sanitizer
  import TokenEstimator
  import TextCutting

  /** `_split_active_turn`: history and active turn. */
  function SplitActive(session: seq<Message>, start: Option<int>): (seq<Message>, seq<Message>) {
    match start
    case Some(at) =>
      var index := if at < 0 then 0 else if at > |session| then |session| else at;
      (session[..index], session[index..])
    case None =>
      var last := LastUser(session);
      if last < 0 then (session, [])
      else (session[..last] + session[last + 1..], [session[last]])
  }

  function LastUser(ms: seq<Message>): (i: int)
    ensures -1 <= i < |ms|
    ensures i >= 0 ==> ms[i].role.User?
  {
    if ms == [] then -1
    else if ms[|ms| - 1].role.User? then |ms| - 1
    else LastUser(ms[..|ms| - 1])
  }

  /** The rules of the two budgets, if configured. */
  datatype Budget = Budget(enabled: bool, history: Option<Rule>, active: Option<Rule>)

  /** The messages of the context bundle. */
  function Assemble(
      session: seq<Message>, start: Option<int>, budget: Budget, systemPrompt: string, frame: string): seq<Message>
  {
    var split := SplitActive(session, start);
    [Plain(System, systemPrompt)]
    + (BudgetHistory(split.0, budget.enabled, budget.history)
       + WithFrame(frame, BudgetActive(split.1, budget.enabled, budget.active)))
  }

  function WithFrame(frame: string, active: seq<Message>): seq<Message> {
    if frame == "" then active else [Plain(User, frame)] + active
  }

  /** A turn whose start is known is cut off there, wherever that is. */
  lemma SplitAtStart(session: seq<Message>, at: int)
    ensures var i := Max(0, Min(at, |session|));
      SplitActive(session, Some(at)) == (session[..i], session[i..])
  {
  }

  /** Otherwise the last message of the user is taken out; without one there is no active turn. */
  lemma SplitAtLastUser(session: seq<Message>, last: int)
    requires -1 <= last < |session| && (last >= 0 ==> session[last].role.User?)
    requires forall i | last < i < |session| :: !session[i].role.User?
    ensures SplitActive(session, None) ==
      if last < 0 then (session, []) else (session[..last] + session[last + 1..], [session[last]])
  {
    LastUserIs(session);
  }

  lemma {:induction false} LastUserIs(ms: seq<Message>)
    ensures forall i | LastUser(ms) < i < |ms| :: !ms[i].role.User?
  {
    if ms != [] && !ms[|ms| - 1].role.User? { LastUserIs(ms[..|ms| - 1]); }
  }

  /** The bundle in order: the system prompt, the history, the frame as a message of the user if there is
      one, and the active turn.  Without budgets nothing of the session is missing. */
  lemma AssembledInOrder(
      session: seq<Message>, start: Option<int>, budget: Budget, systemPrompt: string, frame: string)
    ensures var history, active := SplitActive(session, start).0, SplitActive(session, start).1;
      var framed := if |frame| > 0 then [Plain(User, frame)] else [];
      var bundle := Assemble(session, start, budget, systemPrompt, frame);
      && bundle == [Plain(System, systemPrompt)] + BudgetHistory(history, budget.enabled, budget.history)
                   + framed + BudgetActive(active, budget.enabled, budget.active)
      && (!budget.enabled || (budget.history.None? && budget.active.None?) ==>
            bundle == [Plain(System, systemPrompt)] + history + framed + active)
  {
    hide SplitActive;
    var history, active := SplitActive(session, start).0, SplitActive(session, start).1;
    var framed := if |frame| > 0 then [Plain(User, frame)] else [];
    assert frame == "" <==> |frame| == 0;
    assert WithFrame(frame, BudgetActive(active, budget.enabled, budget.active))
        == framed + BudgetActive(active, budget.enabled, budget.active);
  }

  /** The start of the turn is where the runtime looks for it: at a user message, or left open. */
  ghost predicate TurnStart(session: seq<Message>, start: Option<int>) {
    match start
    case Some(at) => 0 <= at < |session| && session[at].role.User?
    case None => true
  }

  /** Cutting a legal session at the start of the turn leaves two legal parts. */
  lemma SplitKeepsProtocol(session: seq<Message>, start: Option<int>)
    requires Legal(session) && CallsComeFromAssistants(session) && TurnStart(session, start)
    ensures var split := SplitActive(session, start);
      && Legal(split.0)
      && (split.1 == [] || ActiveShape(split.1))
  {
    hide Legal;
    match start {
      case Some(at) =>
        LegalSplit(session, at);
      case None =>
        var last := LastUser(session);
        if last >= 0 {
          assert session[last] in session;
          LegalSplit(session, last);
          UserStandsAlone(session[last..]);
          assert session[last..][1..] == session[last + 1..];
          LegalConcat(session[..last], session[last + 1..]);
          LegalSingleton(session[last]);
        }
    }
  }

  lemma UserStandsAlone(ms: seq<Message>)
    requires ms != [] && ms[0].role.User? && ms[0].calls == [] && Legal(ms)
    ensures Legal(ms[1..])
  {
  }

  lemma BudgetOfNothing(enabled: bool, rule: Option<Rule>)
    ensures BudgetActive([], enabled, rule) == []
  {
  }

  /** The context built from a legal session is legal, whatever the budgets do to it. */
  lemma AssembledIsLegal(
      session: seq<Message>, start: Option<int>, budget: Budget, systemPrompt: string, frame: string)
    requires Legal(session) && CallsComeFromAssistants(session) && TurnStart(session, start)
    ensures Legal(Assemble(session, start, budget, systemPrompt, frame))
  {
    hide Legal;
    hide BudgetHistory;
    hide BudgetActive;
    hide SplitActive;
    var split := SplitActive(session, start);
    SplitKeepsProtocol(session, start);
    BudgetHistoryIsLegal(split.0, budget.enabled, budget.history);
    if split.1 == [] {
      BudgetOfNothing(budget.enabled, budget.active);
      EmptyIsLegal();
    } else {
      BudgetActiveKeepsLastGroup(split.1, budget.enabled, budget.active);
    }
    var active := BudgetActive(split.1, budget.enabled, budget.active);
    LegalSingleton(Plain(User, frame));
    LegalConcat([Plain(User, frame)], active);
    LegalConcat(BudgetHistory(split.0, budget.enabled, budget.history), WithFrame(frame, active));
    LegalSingleton(Plain(System, systemPrompt));
    LegalConcat([Plain(System, systemPrompt)],
                BudgetHistory(split.0, budget.enabled, budget.history) + WithFrame(frame, active));
  }

  /** Composition of the whole pipeline: after assembly the sanitizer changes and logs nothing. */
  lemma SanitizerNeverDrops(
      session: seq<Message>, start: Option<int>, budget: Budget, systemPrompt: string, frame: string)
    requires Legal(session) && CallsComeFromAssistants(session) && TurnStart(session, start)
    ensures var context := Assemble(session, start, budget, systemPrompt, frame);
      Sanitizer.Sanitized(context) == context && Sanitizer.DropLog(context, 0) == []
  {
    hide Assemble;
    hide Legal;
    AssembledIsLegal(session, start, budget, systemPrompt, frame);
    Sanitizer.SilentIffUnchanged(Assemble(session, start, budget, systemPrompt, frame));
  }

  /** Whatever context goes in, what is sent after sanitizing and trimming keeps the protocol, unless
      texts had to be cut from a selection with calls in it. */
  lemma SentIsLegal(context: seq<Message>, maxTokens: int, rounds: nat, sent: seq<Message>)
    requires CallsComeFromAssistants(context)
    requires TokenEstimator.TrimmedTo(Sanitizer.Sanitized(context), maxTokens, rounds, sent)
    ensures Legal(Sanitizer.Sanitized(context))
    ensures Legal(TokenEstimator.TrimmedSelection(Sanitizer.Sanitized(context), maxTokens))
    ensures
      var sanitized := Sanitizer.Sanitized(context);
      (TokenEstimator.MustCut(sanitized, maxTokens) ==>
         TextCutting.AsksNothing(TokenEstimator.LeastSelection(sanitized)))
      ==> Legal(sent)
  {
    hide *;
    var sanitized := Sanitizer.Sanitized(context);
    Sanitizer.SanitizedIsLegal(context);
    Sanitizer.SanitizedAddsNoCalls(context);
    TokenEstimator.NonSystemIsLegal(sanitized);
    TokenEstimator.TrimmedSelectionIsLegal(sanitized, maxTokens);
    TokenEstimator.LeastSelectionIsLegal(sanitized);
    TrimmedIsOneOf(sanitized, maxTokens, rounds, sent);
    if TextCutting.AsksNothing(TokenEstimator.LeastSelection(sanitized)) {
      TextCutting.CuttingPlainIsLegal(TokenEstimator.LeastSelection(sanitized), rounds);
    }
  }

  lemma TrimmedIsOneOf(ms: seq<Message>, maxTokens: int, rounds: nat, sent: seq<Message>)
    requires TokenEstimator.TrimmedTo(ms, maxTokens, rounds, sent)
    ensures
      || (!TokenEstimator.MustCut(ms, maxTokens)
          && (sent == ms || sent == TokenEstimator.TrimmedSelection(ms, maxTokens)))
      || (TokenEstimator.MustCut(ms, maxTokens)
          && sent == TokenEstimator.TrimRounds(TokenEstimator.LeastSelection(ms), rounds))
  {
  }
}
