/** Section budgets for the conversation: old turns are summarised or omitted, old tool results are
    replaced, and the tool-call protocol survives all of it. */
module ContextHistory {
  import opened Messages
  import opened Options
  import opened PyText
  import opened Turns

  datatype Strategy = SummaryMiddle | HeadTail | TailOnly | Unknown(name: string)

  datatype Rule = Rule(
    budgetChars: int,
    floorChars: int,
    strategy: Strategy,
    keepHeadTurns: int,
    keepTailTurns: int,
    summaryChars: int,
    keepRecentResults: int,
    preserveTools: set<string>,
    latestProtected: set<string>)

  /** The longer fixed texts: only their lengths enter the budgets. */
  type OmittedWording = s: string | |s| == 86 witness seq(86, i => '.')
  type CutWording = s: string | |s| == 57 witness seq(57, i => '.')
  type SummaryCutWording = s: string | |s| == 23 witness seq(23, i => '.')
  type HistoryWording = s: string | |s| == 79 witness seq(79, i => '.')
  type ActiveWording = s: string | |s| == 84 witness seq(84, i => '.')

  const OMITTED_NOTE: OmittedWording
  const RESULT_CUT: CutWording
  const SUMMARY_CUT: SummaryCutWording
  const HISTORY_HEADING: HistoryWording
  const ACTIVE_HEADING: ActiveWording
  const COMPRESSED: Wording
  const UNKNOWN_TOOL: string := "unknown_tool"

  // ----- message sizes -----

  /** `_message_text`. */
  function TextOf(m: Message): string {
    match m.content
    case Missing => ""
    case Text(t) => t
    case Parts(ps, _) => Join(ps, "")
  }

  /** `len(str(content or ""))`: a list is charged as printed. */
  function ContentChars(m: Message): nat {
    match m.content
    case Missing => 0
    case Text(t) => |t|
    case Parts(ps, quoting) => if ps == [] then 0 else |Join(ps, "")| + quoting
  }

  function MessageChars(m: Message): nat {
    RoleChars(m.role) + ContentChars(m) + m.overhead
  }

  function Chars(ms: seq<Message>): nat {
    if ms == [] then 0 else MessageChars(ms[0]) + Chars(ms[1..])
  }

  /** A message is charged for its role by name, for its text and for what else is printed of it. */
  lemma ChargedChars(m: Message)
    ensures m.role == System ==> RoleChars(m.role) == |"system"|
    ensures m.role == User || m.role == Tool ==> RoleChars(m.role) == |"user"| == |"tool"|
    ensures m.role == Assistant ==> RoleChars(m.role) == |"assistant"|
    ensures m.content.Text? ==> MessageChars(m) == RoleChars(m.role) + |m.content.text| + m.overhead
    ensures m.content.Text? ==> TextOf(m) == m.content.text
    ensures TextOf(m) == "" && (m.content.Parts? ==> |m.content.parts| == 0)
      ==> MessageChars(m) == RoleChars(m.role) + m.overhead
    ensures |TextOf(m)| > 0 ==> MessageChars(m) >= RoleChars(m.role) + |TextOf(m)|
    ensures m.content.Parts? && |m.content.parts| > 0 ==>
      var all := Join(m.content.parts, "");
      TextOf(m) == all && MessageChars(m) == RoleChars(m.role) + |all| + m.content.quoting + m.overhead
  {
  }

  // ----- summaries -----

  function Squash(text: string, limit: nat): string
    requires limit >= 3
  {
    Clip(OneLine(Strip(text)), limit)
  }

  function CallName(c: ToolCall): string {
    if c.name == "" then UNKNOWN_TOOL else c.name
  }

  function CallNames(calls: seq<ToolCall>): seq<string> {
    if calls == [] then [] else [CallName(calls[0])] + CallNames(calls[1..])
  }

  /** The name under which `id` was called last, as the map of ids to names holds it. */
  function NameIn(calls: seq<ToolCall>, id: string): string {
    if calls == [] || id == "" then ""
    else if calls[|calls| - 1].id == id then CallName(calls[|calls| - 1])
    else NameIn(calls[..|calls| - 1], id)
  }

  function ToolName(ms: seq<Message>, id: string): string {
    if ms == [] then UNKNOWN_TOOL
    else
      var name := NameIn(ms[|ms| - 1].calls, id);
      if name != "" then name else ToolName(ms[..|ms| - 1], id)
  }

  function RoleName(r: Role): string {
    match r
    case System => "system"
    case User => "user"
    case Assistant => "assistant"
    case Tool => "tool"
    case Other(name) => if name == "" then "unknown" else name
  }

  function UserText(turn: seq<Message>): string {
    if turn == [] then ""
    else if turn[0].role.User? then Squash(TextOf(turn[0]), 220)
    else UserText(turn[1..])
  }

  function MessageLine(turn: seq<Message>, m: Message): string {
    match m.role
    case User => ""
    case Assistant =>
      var names, content := Join(CallNames(m.calls), ","), Squash(TextOf(m), 160);
      (if names == "" then "" else "\n    -> called tools: " + names)
        + (if content == "" then "" else "\n    -> assistant said: " + content)
    case Tool =>
      "\n    -> [" + m.resultId + "] " + ToolName(turn, m.resultId) + " " + m.status + ": " + Squash(TextOf(m), 180)
    case _ =>
      var content := Squash(TextOf(m), 160);
      if content == "" then "" else "\n    -> " + RoleName(m.role) + ": " + content
  }

  function MessageLines(turn: seq<Message>, k: nat): string
    requires k <= |turn|
  {
    if k == 0 then "" else MessageLines(turn, k - 1) + MessageLine(turn, turn[k - 1])
  }

  function TurnText(turn: seq<Message>, index: nat): string {
    var asked := UserText(turn);
    "\n- Turn " + Decimal(index) + ":" + (if asked == "" then "" else " user asked: " + asked)
      + MessageLines(turn, |turn|)
  }

  /** The text after the turns from `index` on, stopping once it has reached the limit. */
  function SummaryText(groups: seq<seq<Message>>, index: nat, text: string, limit: nat): string {
    if groups == [] then text
    else
      var longer := text + TurnText(groups[0], index);
      if |longer| >= limit then longer + SUMMARY_CUT
      else SummaryText(groups[1..], index + 1, longer, limit)
  }

  function SummaryLimit(maxChars: int): (n: nat)
    ensures n > 0
  {
    if maxChars <= 0 then 1200 else maxChars
  }

  function SummaryHeader(turns: nat, messages: nat): string {
    HISTORY_HEADING + "\nCompressed turns: " + Decimal(turns)
      + ".\nCompressed messages: " + Decimal(messages) + "."
  }

  /** The whole summary: turn after turn, and a note where it goes no further. */
  function UncutSummary(ms: seq<Message>, limit: nat): string {
    SummaryText(GroupTurns(ms), 1, SummaryHeader(|GroupTurns(ms)|, |ms|), limit)
  }

  function SummaryContent(ms: seq<Message>, limit: nat): string {
    var text := UncutSummary(ms, limit);
    if |text| <= limit then text
    else if limit <= |SUMMARY_CUT| + 8 then text[..limit]
    else RStrip(text[..limit - |SUMMARY_CUT|]) + SUMMARY_CUT
  }

  function SummaryMessage(ms: seq<Message>, maxChars: int): Message {
    Plain(User, SummaryContent(ms, SummaryLimit(maxChars)))
  }

  /** The same summary under the heading for the active turn. */
  function ActiveSummary(ms: seq<Message>, maxChars: int): Message {
    var content := SummaryContent(ms, SummaryLimit(maxChars));
    Plain(User, if HISTORY_HEADING <= content then ACTIVE_HEADING + content[|HISTORY_HEADING|..] else content)
  }

  // ----- what a summary says -----

  lemma {:induction false} SummaryTextExtends(groups: seq<seq<Message>>, index: nat, text: string, limit: nat)
    ensures text <= SummaryText(groups, index, text, limit)
  {
    hide TurnText;
    if groups != [] { SummaryTextExtends(groups[1..], index + 1, text + TurnText(groups[0], index), limit); }
  }

  /** The opening says how many turns and messages are summarised. */
  lemma HeaderSays(turns: nat, messages: nat)
    ensures SummaryHeader(turns, messages)
         == HISTORY_HEADING + "\nCompressed turns: " + Decimal(turns) + ".\nCompressed messages: " + Decimal(messages) + "."
  {
    hide Decimal;
  }

  lemma HeaderEnds(turns: nat, messages: nat)
    ensures var header := SummaryHeader(turns, messages); header != "" && header[|header| - 1] == '.'
  {
    hide Decimal;
  }

  lemma CutKeepsOpening(text: string, opening: string, n: nat)
    requires opening <= text && 0 < |opening| <= n <= |text| && !IsSpace(opening[|opening| - 1])
    ensures opening <= RStrip(text[..n]) + SUMMARY_CUT
  {
    hide *;
    var k := |opening|;
    assert text[..n][k - 1] == opening[k - 1];
    RStripKeeps(text[..n], k);
    assert text[..n][..k] == opening;
  }

  /** Given room for its opening, a summary starts with it. */
  lemma {:induction false} SummaryOpens(ms: seq<Message>, limit: nat)
    ensures var opening := SummaryHeader(|GroupTurns(ms)|, |ms|);
      |opening| + 23 <= limit ==> opening <= SummaryContent(ms, limit)
  {
    hide SummaryText;
    hide GroupTurns;
    hide SummaryHeader;
    hide RStrip;
    var opening := SummaryHeader(|GroupTurns(ms)|, |ms|);
    HeaderEnds(|GroupTurns(ms)|, |ms|);
    SummaryTextExtends(GroupTurns(ms), 1, opening, limit);
    DotIsNoBlank();
    if |opening| + 23 <= limit < |UncutSummary(ms, limit)| {
      CutKeepsOpening(UncutSummary(ms, limit), opening, limit - 23);
    }
  }

  lemma DotIsNoBlank()
    ensures !IsSpace('.')
  {
  }

  /** The lines of several turns, numbered from `index` on. */
  function TurnTexts(groups: seq<seq<Message>>, index: nat): string {
    if groups == [] then "" else TurnText(groups[0], index) + TurnTexts(groups[1..], index + 1)
  }

  /** A summary tells of the first turns, up to the one with which its length reaches the limit. */
  lemma {:induction false} SummaryTellsOfTurns(groups: seq<seq<Message>>, index: nat, text: string, limit: nat)
    returns (told: nat)
    requires |text| < limit
    ensures told <= |groups|
    ensures var all := text + TurnTexts(groups[..told], index);
      SummaryText(groups, index, text, limit) == if |all| < limit then all else all + SUMMARY_CUT
    ensures forall k | 0 <= k < told :: |text + TurnTexts(groups[..k], index)| < limit
    ensures |text + TurnTexts(groups[..told], index)| < limit ==> told == |groups|
  {
    hide TurnText;
    if groups == [] { return 0; }
    var rest, longer := groups[1..], text + TurnText(groups[0], index);
    assert groups[..0] == [] && rest[..0] == [];
    assert groups[..1] == [groups[0]] && groups[..1][1..] == [];
    if |longer| >= limit { return 1; }
    var more := SummaryTellsOfTurns(rest, index + 1, longer, limit);
    told := more + 1;
    forall k | 0 < k <= told
      ensures text + TurnTexts(groups[..k], index) == longer + TurnTexts(rest[..k - 1], index + 1)
    {
      assert groups[..k][1..] == rest[..k - 1];
    }
  }

  /** The user's question in a turn's line is the first message of the user in the turn. */
  lemma {:induction false} UserTextIsFirst(turn: seq<Message>, i: nat)
    requires UserFree(turn, 0, i) && (i < |turn| ==> turn[i].role.User?)
    ensures UserText(turn) == if i < |turn| then Squash(TextOf(turn[i]), 220) else ""
  {
    hide Squash;
    hide TextOf;
    if i > 0 {
      var rest := turn[1..];
      assert forall j | 0 <= j < |rest| :: rest[j] == turn[j + 1];
      assert UserFree(rest, 0, i - 1);
      UserTextIsFirst(rest, i - 1);
    }
  }

  lemma {:induction false} LinesSay(turn: seq<Message>, i: nat, k: nat)
    requires i < k <= |turn|
    ensures Says(MessageLines(turn, k), MessageLine(turn, turn[i]))
  {
    hide MessageLine;
    var line := MessageLine(turn, turn[i]);
    if i == k - 1 {
      assert MessageLines(turn, k) == MessageLines(turn, k - 1) + line + "";
    } else {
      LinesSay(turn, i, k - 1);
      var before, after :| MessageLines(turn, k - 1) == before + line + after;
      assert MessageLines(turn, k) == before + line + (after + MessageLine(turn, turn[k - 1]));
    }
  }

  lemma TurnSays(turn: seq<Message>, index: nat, i: nat)
    requires i < |turn|
    ensures Says(TurnText(turn, index), MessageLine(turn, turn[i]))
  {
    hide MessageLine;
    hide MessageLines;
    hide UserText;
    hide Decimal;
    var line, lines := MessageLine(turn, turn[i]), MessageLines(turn, |turn|);
    LinesSay(turn, i, |turn|);
    var before, after :| lines == before + line + after;
    var front := TurnText(turn, index)[..|TurnText(turn, index)| - |lines|];
    assert TurnText(turn, index) == front + lines == (front + before) + line + after;
  }

  /** The line of a result tells which call it answers, the tool, the status and its text. */
  lemma TurnTellsOfResult(turn: seq<Message>, index: nat, i: nat)
    requires i < |turn| && turn[i].role.Tool?
    ensures var m := turn[i];
      Says(TurnText(turn, index),
           "[" + m.resultId + "] " + ToolName(turn, m.resultId) + " " + m.status + ": " + Squash(TextOf(m), 180))
  {
    hide *;
    var m := turn[i];
    TurnSays(turn, index, i);
    ResultLine(turn, m);
    SaysPart(TurnText(turn, index), "\n    -> ",
             "[" + m.resultId + "] " + ToolName(turn, m.resultId) + " " + m.status + ": " + Squash(TextOf(m), 180));
  }

  lemma ResultLine(turn: seq<Message>, m: Message)
    requires m.role.Tool?
    ensures MessageLine(turn, m) ==
      "\n    -> " + ("[" + m.resultId + "] " + ToolName(turn, m.resultId) + " " + m.status + ": "
                      + Squash(TextOf(m), 180))
  {
    hide ToolName;
    hide Squash;
    var id, name, text := m.resultId, ToolName(turn, m.resultId), Squash(TextOf(m), 180);
    assert "\n    -> [" == "\n    -> " + "[";
    var rest := id + "] " + name + " " + m.status + ": " + text;
    assert "[" + id + "] " + name + " " + m.status + ": " + text == "[" + rest;
    assert MessageLine(turn, m) == "\n    -> [" + rest;
  }

  /** A call is named by its tool, if it has a name. */
  lemma {:induction false} CallsAreNamed(calls: seq<ToolCall>)
    ensures |CallNames(calls)| == |calls|
    ensures forall i | 0 <= i < |calls| ::
      CallNames(calls)[i] == if |calls[i].name| > 0 then calls[i].name else "unknown_tool"
    ensures calls != [] ==> Join(CallNames(calls), ",") != ""
  {
    if calls != [] { CallsAreNamed(calls[1..]); }
  }

  /** The line of an assistant's message names its calls, if any, and gives its text, if any. */
  lemma TurnTellsOfAssistant(turn: seq<Message>, index: nat, i: nat)
    requires i < |turn| && turn[i].role.Assistant?
    ensures turn[i].calls != [] ==>
      Says(TurnText(turn, index), "called tools: " + Join(CallNames(turn[i].calls), ","))
    ensures Squash(TextOf(turn[i]), 160) != "" ==>
      Says(TurnText(turn, index), "assistant said: " + Squash(TextOf(turn[i]), 160))
  {
    hide *;
    var m := turn[i];
    TurnSays(turn, index, i);
    AssistantLine(turn, m);
    CallsAreNamed(m.calls);
    var names, said, text := Join(CallNames(m.calls), ","), Squash(TextOf(m), 160), TurnText(turn, index);
    if m.calls != [] {
      SaysFront(text, "\n    -> called tools: " + names, if said == "" then "" else "\n    -> assistant said: " + said);
      LeadsTo("\n    -> ", "called tools: ", "\n    -> called tools: ", names);
      SaysPart(text, "\n    -> ", "called tools: " + names);
    }
    if said != "" {
      SaysPart(text, if names == "" then "" else "\n    -> called tools: " + names, "\n    -> assistant said: " + said);
      LeadsTo("\n    -> ", "assistant said: ", "\n    -> assistant said: ", said);
      SaysPart(text, "\n    -> ", "assistant said: " + said);
    }
  }

  lemma AssistantLine(turn: seq<Message>, m: Message)
    requires m.role.Assistant?
    ensures var names, said := Join(CallNames(m.calls), ","), Squash(TextOf(m), 160);
      MessageLine(turn, m) == (if names == "" then "" else "\n    -> called tools: " + names)
                              + (if said == "" then "" else "\n    -> assistant said: " + said)
  {
    hide Join;
    hide CallNames;
    hide Squash;
    hide TextOf;
  }

  lemma LeadsTo(arrow: string, title: string, both: string, text: string)
    requires both == arrow + title
    ensures both + text == arrow + (title + text)
  {
  }

  lemma SaysFront(whole: string, part: string, rest: string)
    requires Says(whole, part + rest)
    ensures Says(whole, part)
  {
    var before, after :| whole == before + (part + rest) + after;
    assert whole == before + part + (rest + after);
  }

  /** The line of any other message gives its role and its text. */
  lemma TurnTellsOfOther(turn: seq<Message>, index: nat, i: nat)
    requires i < |turn| && (turn[i].role.System? || turn[i].role.Other?)
    ensures Squash(TextOf(turn[i]), 160) != "" ==>
      Says(TurnText(turn, index), RoleName(turn[i].role) + ": " + Squash(TextOf(turn[i]), 160))
  {
    hide *;
    var m := turn[i];
    TurnSays(turn, index, i);
    OtherLine(turn, m);
    var said, text := Squash(TextOf(m), 160), TurnText(turn, index);
    if said != "" { SaysPart(text, "\n    -> ", RoleName(m.role) + ": " + said); }
  }

  lemma OtherLine(turn: seq<Message>, m: Message)
    requires m.role.System? || m.role.Other?
    ensures var said := Squash(TextOf(m), 160);
      MessageLine(turn, m) == if said == "" then "" else "\n    -> " + (RoleName(m.role) + ": " + said)
  {
    hide RoleName;
    hide Squash;
    hide TextOf;
    var name, said := RoleName(m.role), Squash(TextOf(m), 160);
    assert "\n    -> " + name + ": " + said == "\n    -> " + (name + ": " + said);
  }

  lemma RoleNames(r: Role)
    ensures r == System ==> RoleName(r) == "system"
    ensures r == User ==> RoleName(r) == "user"
    ensures r == Assistant ==> RoleName(r) == "assistant"
    ensures r == Tool ==> RoleName(r) == "tool"
    ensures r.Other? ==> RoleName(r) == if |r.name| == 0 then "unknown" else r.name
    ensures r != Other("") ==> RoleChars(r) == |RoleName(r)|
  {
  }

  /** The lines of a turn start with its number and with what the user asked, if anything. */
  lemma TurnOpens(turn: seq<Message>, index: nat)
    ensures var asked := UserText(turn);
      var opening := "\n- Turn " + Decimal(index) + ":" + (if asked == "" then "" else " user asked: " + asked);
      opening <= TurnText(turn, index)
  {
    hide UserText;
    hide MessageLines;
    hide Decimal;
  }

  /** A squashed text has no line breaks and is the stripped text as far as the limit allows. */
  lemma SquashedText(text: string, limit: nat)
    requires limit >= 3
    ensures var whole := OneLine(Strip(text)); var r := Squash(text, limit);
      && |r| <= limit && '\n' !in r && |whole| == |Strip(text)|
      && (forall i | 0 <= i < |whole| ::
            whole[i] == if Strip(text)[i] == '\n' then ' ' else Strip(text)[i])
      && (|whole| <= limit ==> r == whole)
      && (|whole| > limit ==> IsCut(whole, limit - 3, "...", r))
  {
    hide Strip;
    ClipIsCut(OneLine(Strip(text)), limit);
  }

  /** A tool is named by the last call with its id. */
  lemma {:induction false} ToolNameIsLast(ms: seq<Message>, i: nat, j: nat)
    requires i < |ms| && j < |ms[i].calls| && ms[i].calls[j].id != ""
    requires forall k, l | i <= k < |ms| && (if k == i then j < l else 0 <= l) && l < |ms[k].calls| ::
      ms[k].calls[l].id != ms[i].calls[j].id
    ensures ToolName(ms, ms[i].calls[j].id) == CallName(ms[i].calls[j])
  {
    var last, id := |ms| - 1, ms[i].calls[j].id;
    if i < last {
      NotNamed(ms[last].calls, id);
      ToolNameIsLast(ms[..last], i, j);
    } else {
      NamedLast(ms[i].calls, j);
    }
  }

  lemma {:induction false} NotNamed(calls: seq<ToolCall>, id: string)
    requires forall l | 0 <= l < |calls| :: calls[l].id != id
    ensures NameIn(calls, id) == ""
  {
    if calls != [] { NotNamed(calls[..|calls| - 1], id); }
  }

  lemma {:induction false} NamedLast(calls: seq<ToolCall>, j: nat)
    requires j < |calls| && calls[j].id != ""
    requires forall l | j < l < |calls| :: calls[l].id != calls[j].id
    ensures NameIn(calls, calls[j].id) == CallName(calls[j])
  {
    if j < |calls| - 1 { NamedLast(calls[..|calls| - 1], j); }
  }

  /** A result that answers no call is called after an unknown tool. */
  lemma {:induction false} ToolWithoutName(ms: seq<Message>, id: string)
    requires forall k, l | 0 <= k < |ms| && 0 <= l < |ms[k].calls| :: ms[k].calls[l].id == id ==> id == ""
    ensures ToolName(ms, id) == "unknown_tool"
  {
    if ms != [] {
      if id != "" { NotNamed(ms[|ms| - 1].calls, id); }
      ToolWithoutName(ms[..|ms| - 1], id);
    }
  }

  lemma SummaryIsBounded(ms: seq<Message>, maxChars: int)
    ensures |SummaryContent(ms, SummaryLimit(maxChars))| <= SummaryLimit(maxChars)
    ensures MessageChars(SummaryMessage(ms, maxChars)) <= SummaryLimit(maxChars) + 4
  {
    hide UncutSummary;
  }

  lemma SummaryIsLegal(ms: seq<Message>, maxChars: int)
    ensures Legal([SummaryMessage(ms, maxChars)]) && Legal([ActiveSummary(ms, maxChars)])
  {
    hide SummaryContent;
    hide Legal;
    LegalSingleton(SummaryMessage(ms, maxChars));
    LegalSingleton(ActiveSummary(ms, maxChars));
  }

  // ----- conversation history: keep head and tail turns -----

  function HeadTurns(rule: Rule): nat {
    if rule.strategy.SummaryMiddle? || rule.strategy.HeadTail? then Max(0, rule.keepHeadTurns) else 0
  }

  /** How many of `n` turns are kept at the front and at the back. */
  function KeptTurns(rule: Rule, n: nat): (kept: (nat, nat))
    ensures kept.0 + kept.1 <= n
  {
    var head, tail := HeadTurns(rule), Max(0, rule.keepTailTurns);
    (Min(head, n), if head + tail >= n then Max(0, n - head) else tail)
  }

  function Head(groups: seq<seq<Message>>, rule: Rule): seq<seq<Message>> {
    groups[..KeptTurns(rule, |groups|).0]
  }

  function Middle(groups: seq<seq<Message>>, rule: Rule): seq<seq<Message>> {
    groups[KeptTurns(rule, |groups|).0..|groups| - KeptTurns(rule, |groups|).1]
  }

  function Tail(groups: seq<seq<Message>>, rule: Rule): seq<seq<Message>> {
    groups[|groups| - KeptTurns(rule, |groups|).1..]
  }

  /** `_reduce_messages`: what is rendered and what was summarised away. */
  function ReduceMessages(ms: seq<Message>, rule: Rule): (seq<Message>, seq<Message>) {
    var groups := GroupTurns(ms);
    var head, middle, tail := Flatten(Head(groups, rule)), Flatten(Middle(groups, rule)), Flatten(Tail(groups, rule));
    if rule.strategy.SummaryMiddle? && middle != [] then
      (head + [SummaryMessage(middle, rule.summaryChars)] + tail, middle)
    else (head + tail, middle)
  }

  /** Kept head, summarised middle and kept tail are the whole history. */
  lemma ReductionPartitions(ms: seq<Message>, rule: Rule)
    ensures var groups := GroupTurns(ms);
      ms == Flatten(Head(groups, rule)) + ReduceMessages(ms, rule).1 + Flatten(Tail(groups, rule))
  {
    hide SummaryMessage;
    hide GroupTurns;
    hide Flatten;
    var groups := GroupTurns(ms);
    var head, middle, tail := Head(groups, rule), Middle(groups, rule), Tail(groups, rule);
    assert head + middle + tail == groups;
    FlattenConcat(head + middle, tail);
    FlattenConcat(head, middle);
    FlattenTurns(ms);
  }

  /** Which turns those are: the first `h` and the last `t` as the rule has it, or all there are.  A
      summary stands between them only with the strategy that makes one. */
  lemma ReductionKeepsHeadAndTail(ms: seq<Message>, rule: Rule)
    ensures var groups := GroupTurns(ms); var n := |groups|;
      var h := if rule.strategy.SummaryMiddle? || rule.strategy.HeadTail? then Max(0, rule.keepHeadTurns) else 0;
      var t := Max(0, rule.keepTailTurns);
      var rendered, gone := ReduceMessages(ms, rule).0, ReduceMessages(ms, rule).1;
      if h + t >= n then rendered == ms && gone == []
      else
        && gone == Flatten(groups[h..n - t]) && gone != []
        && rendered == Flatten(groups[..h])
                       + (if rule.strategy.SummaryMiddle? then [SummaryMessage(gone, rule.summaryChars)] else [])
                       + Flatten(groups[n - t..])
  {
    hide SummaryMessage;
    hide GroupTurns;
    hide Flatten;
    var groups := GroupTurns(ms);
    var h, t := HeadTurns(rule), Max(0, rule.keepTailTurns);
    if h + t >= |groups| {
      FlattenFew([]);
      assert Middle(groups, rule) == [];
      ReductionPartitions(ms, rule);
    } else {
      TurnsAreNonempty(ms);
      SomeFlattened(groups[h..|groups| - t]);
      assert Head(groups, rule) == groups[..h];
      assert Middle(groups, rule) == groups[h..|groups| - t];
      assert Tail(groups, rule) == groups[|groups| - t..];
      var head, tail := Flatten(groups[..h]), Flatten(groups[|groups| - t..]);
      assert head + tail == head + [] + tail;
    }
  }

  /** The message that stands for the omitted turns: the user's, without calls, of at most the
      length asked for, and saying how much it stands for if there is room to. */
  lemma SummaryStandsFor(gone: seq<Message>, maxChars: int)
    ensures var m := SummaryMessage(gone, maxChars);
      var room := if maxChars <= 0 then 1200 else maxChars;
      var opening := HISTORY_HEADING + "\nCompressed turns: " + Decimal(|GroupTurns(gone)|)
                     + ".\nCompressed messages: " + Decimal(|gone|) + ".";
      && m.role.User? && m.calls == [] && m.content.Text? && |m.content.text| <= room
      && (|opening| + 23 <= room ==> opening <= m.content.text)
  {
    hide SummaryContent;
    hide GroupTurns;
    hide Decimal;
    hide SummaryHeader;
    HeaderSays(|GroupTurns(gone)|, |gone|);
    SummaryOpens(gone, SummaryLimit(maxChars));
    SummaryIsBounded(gone, maxChars);
  }

  lemma SomeFlattened(groups: seq<seq<Message>>)
    requires groups != [] && groups[0] != []
    ensures Flatten(groups) != []
  {
  }

  lemma ReductionIsLegal(ms: seq<Message>, rule: Rule)
    requires Legal(ms)
    ensures Legal(ReduceMessages(ms, rule).0)
  {
    hide SummaryMessage;
    hide Legal;
    hide GroupTurns;
    var groups := GroupTurns(ms);
    TurnsAreLegal(ms);
    var head, middle, tail := Head(groups, rule), Middle(groups, rule), Tail(groups, rule);
    FlattenLegal(head);
    FlattenLegal(tail);
    var summary := [SummaryMessage(Flatten(middle), rule.summaryChars)];
    SummaryIsLegal(Flatten(middle), rule.summaryChars);
    LegalConcat(Flatten(head), summary);
    LegalConcat(Flatten(head) + summary, Flatten(tail));
    LegalConcat(Flatten(head), Flatten(tail));
  }

  // ----- conversation history: omit what does not fit -----

  function OmittedMarker(): Message {
    Plain(User, OMITTED_NOTE)
  }

  const MARKER_CHARS := 90

  /** The turns kept from the back of `groups` when `total` characters are already kept. */
  function KeptSuffix(groups: seq<seq<Message>>, limit: int, started: bool, total: nat): seq<seq<Message>> {
    if groups == [] then []
    else
      var last := groups[|groups| - 1];
      if started && total + Chars(last) + MARKER_CHARS > limit then []
      else if !started && Chars(last) + MARKER_CHARS > limit then
        [[SummaryMessage(last, Max(1, limit - MARKER_CHARS))]]
      else KeptSuffix(groups[..|groups| - 1], limit, true, total + Chars(last)) + [last]
  }

  function TailTrim(ms: seq<Message>, limit: int): seq<Message> {
    [OmittedMarker()] + Flatten(KeptSuffix(GroupTurns(ms), limit, false, 0))
  }

  lemma MarkerIsLegal()
    ensures Legal([OmittedMarker()])
    ensures MessageChars(OmittedMarker()) == MARKER_CHARS && OmittedMarker().role.User?
  {
    hide Legal;
    LegalSingleton(OmittedMarker());
  }

  method TailTrimGroups(messages: seq<Message>, limit: int) returns (trimmed: seq<Message>)
    ensures trimmed == TailTrim(messages, limit)
  {
    hide SummaryMessage;
    hide Chars;
    hide Flatten;
    hide GroupTurns;
    var groups := GroupMessages(messages);
    var kept: seq<seq<Message>> := [];
    var total: nat := 0;
    var i := |groups|;
    ghost var result := KeptSuffix(groups, limit, false, 0);
    assert groups[..i] == groups;
    while i > 0
      invariant i <= |groups|
      invariant kept == [] ==> total == 0 && i == |groups|
      invariant kept != [] ==> result == KeptSuffix(groups[..i], limit, true, total) + kept
    {
      var group := groups[i - 1];
      assert groups[..i][..i - 1] == groups[..i - 1];
      assert groups[..i][i - 1] == group;
      if kept != [] && total + Chars(group) + MARKER_CHARS > limit {
        assert result == kept;
        trimmed := [OmittedMarker()] + Flatten(kept);
        return;
      }
      if kept == [] && Chars(group) + MARKER_CHARS > limit {
        kept := [[SummaryMessage(group, Max(1, limit - MARKER_CHARS))]];
        assert result == kept;
        trimmed := [OmittedMarker()] + Flatten(kept);
        return;
      }
      kept := [group] + kept;
      total := total + Chars(group);
      i := i - 1;
    }
    assert groups[..0] == [];
    assert result == kept;
    trimmed := [OmittedMarker()] + Flatten(kept);
  }

  lemma {:induction false} CharsConcat(a: seq<Message>, b: seq<Message>)
    ensures Chars(a + b) == Chars(a) + Chars(b)
  {
    hide MessageChars;
    if a == [] {
      assert a + b == b;
    } else {
      CharsConcat(a[1..], b);
      assert (a + b)[1..] == a[1..] + b;
    }
  }

  lemma SnocFlatten(groups: seq<seq<Message>>, last: seq<Message>)
    ensures Flatten(groups + [last]) == Flatten(groups) + last
  {
    FlattenConcat(groups, [last]);
    assert Flatten([last]) == last;
  }

  /** Index of the first turn that is kept: the earliest from which everything still fits. */
  function FirstKept(groups: seq<seq<Message>>, limit: int, total: nat): (t: nat)
    ensures t <= |groups|
  {
    if groups == [] || total + Chars(groups[|groups| - 1]) + MARKER_CHARS > limit then |groups|
    else FirstKept(groups[..|groups| - 1], limit, total + Chars(groups[|groups| - 1]))
  }

  lemma {:induction false} KeptSuffixIsSuffix(groups: seq<seq<Message>>, limit: int, started: bool, total: nat)
    requires started || groups == [] || Chars(groups[|groups| - 1]) + MARKER_CHARS <= limit
    requires !started ==> total == 0
    ensures KeptSuffix(groups, limit, started, total) == groups[FirstKept(groups, limit, total)..]
  {
    hide Chars;
    hide SummaryMessage;
    hide AllLegal;
    LegalOne(SummaryMessage(if groups == [] then [] else groups[|groups| - 1], Max(1, limit - MARKER_CHARS)));
    if groups != [] {
      var last, front := groups[|groups| - 1], groups[..|groups| - 1];
      if total + Chars(last) + MARKER_CHARS <= limit {
        KeptSuffixIsSuffix(front, limit, true, total + Chars(last));
        var t := FirstKept(front, limit, total + Chars(last));
        assert front[t..] + [last] == groups[t..];
      }
    }
  }

  lemma FlattenFew(last: seq<Message>)
    ensures Flatten([]) == [] && Chars([]) == 0
    ensures Flatten([last]) == last
  {
    assert Flatten([last]) == last + [] == last;
  }

  lemma {:induction false} FirstKeptFits(groups: seq<seq<Message>>, limit: int, total: nat)
    requires total + MARKER_CHARS <= limit
    ensures var t := FirstKept(groups, limit, total);
      && total + Chars(Flatten(groups[t..])) + MARKER_CHARS <= limit
      && (t > 0 ==> total + Chars(Flatten(groups[t - 1..])) + MARKER_CHARS > limit)
  {
    hide Flatten;
    hide Chars;
    var t, n := FirstKept(groups, limit, total), |groups|;
    if groups == [] || t == n {
      FlattenFew(if groups == [] then [] else groups[n - 1]);
      assert groups[t..] == [];
      if t > 0 { assert groups[t - 1..] == [groups[n - 1]]; }
    } else {
      FirstKeptFits(groups[..n - 1], limit, total + Chars(groups[n - 1]));
      SuffixChars(groups, t);
      if t > 0 { SuffixChars(groups, t - 1); }
    }
  }

  lemma SuffixChars(groups: seq<seq<Message>>, t: nat)
    requires t < |groups|
    ensures var n := |groups| - 1;
      Chars(Flatten(groups[t..])) == Chars(Flatten(groups[..n][t..])) + Chars(groups[n])
  {
    var n := |groups| - 1;
    assert groups[t..] == groups[..n][t..] + [groups[n]];
    SnocFlatten(groups[..n][t..], groups[n]);
    CharsConcat(Flatten(groups[..n][t..]), groups[n]);
  }

  /** If the last turn fits beside the marker, the longest suffix of turns that fits is kept. */
  lemma TailTrimKeepsLongestSuffix(ms: seq<Message>, limit: int)
    requires var groups := GroupTurns(ms);
      groups != [] && Chars(groups[|groups| - 1]) + MARKER_CHARS <= limit
    ensures var groups := GroupTurns(ms); var t := FirstKept(groups, limit, 0);
      && t < |groups|
      && TailTrim(ms, limit) == [OmittedMarker()] + Flatten(groups[t..])
      && Chars(TailTrim(ms, limit)) <= limit
      && (t > 0 ==> Chars(Flatten(groups[t - 1..])) + MARKER_CHARS > limit)
  {
    hide GroupTurns;
    var groups := GroupTurns(ms);
    KeptSuffixIsSuffix(groups, limit, false, 0);
    FirstKeptFits(groups, limit, 0);
    MarkerIsLegal();
  }

  // ----- the history budget -----

  lemma LastTurnCompacted(ms: seq<Message>, limit: int)
    requires var groups := GroupTurns(ms);
      groups != [] && Chars(groups[|groups| - 1]) + MARKER_CHARS > limit
    ensures var groups := GroupTurns(ms);
      var summary := SummaryMessage(groups[|groups| - 1], Max(1, limit - MARKER_CHARS));
      TailTrim(ms, limit) == [OmittedMarker(), summary]
      && Chars(TailTrim(ms, limit)) == MARKER_CHARS + MessageChars(summary)
  {
    hide GroupTurns;
    hide SummaryMessage;
    hide MessageChars;
    MarkerIsLegal();
    var groups := GroupTurns(ms);
    var summary := SummaryMessage(groups[|groups| - 1], Max(1, limit - MARKER_CHARS));
    FlattenFew([summary]);
    assert TailTrim(ms, limit) == [OmittedMarker(), summary];
    assert Chars([summary]) == MessageChars(summary);
  }

  lemma NothingToTrim(ms: seq<Message>, limit: int)
    requires GroupTurns(ms) == []
    ensures TailTrim(ms, limit) == [OmittedMarker()] && Chars(TailTrim(ms, limit)) == MARKER_CHARS
  {
    hide GroupTurns;
    MarkerIsLegal();
    FlattenFew([]);
  }

  /** Trimmed history costs at most its limit or the marker and a character, and then the four
      characters of the role that no summary is charged for. */
  lemma TailTrimCost(ms: seq<Message>, limit: int)
    ensures Chars(TailTrim(ms, limit)) <= Max(limit, MARKER_CHARS + 1) + 4
  {
    hide GroupTurns;
    hide TailTrim;
    hide SummaryContent;
    var groups := GroupTurns(ms);
    if groups == [] {
      NothingToTrim(ms, limit);
    } else if Chars(groups[|groups| - 1]) + MARKER_CHARS <= limit {
      TailTrimKeepsLongestSuffix(ms, limit);
    } else {
      LastTurnCompacted(ms, limit);
      SummaryIsBounded(groups[|groups| - 1], Max(1, limit - MARKER_CHARS));
    }
  }

  /** Whether the summary leaves room for the four characters of its role: it was short enough, or
      four blanks stand where it is cut. */
  ghost predicate LeavesFour(last: seq<Message>, room: nat) {
    var text := UncutSummary(last, room);
    || |text| + 4 <= room
    || (|text| > room > |SUMMARY_CUT| + 8 && AllSpace(text[room - |SUMMARY_CUT| - 4..room - |SUMMARY_CUT|]))
  }

  lemma SummaryLeavesFourIff(last: seq<Message>, room: nat)
    requires room > 0
    ensures |SummaryContent(last, room)| + 4 <= room <==> LeavesFour(last, room)
  {
    hide UncutSummary;
    var text := UncutSummary(last, room);
    if |text| > room > |SUMMARY_CUT| + 8 {
      var cut := text[..room - |SUMMARY_CUT|];
      StrippedFourIff(cut, RStrip(cut));
    }
  }

  /** What is left of a text without its trailing blanks is four shorter just when it ends in four. */
  lemma StrippedFourIff(s: string, r: string)
    requires |s| >= 4 && r <= s && AllSpace(s[|r|..]) && (r != [] ==> !IsSpace(r[|r| - 1]))
    ensures |r| + 4 <= |s| <==> AllSpace(s[|s| - 4..])
  {
    hide IsSpace;
    if |r| + 4 <= |s| {
      forall i | |s| - 4 <= i < |s| ensures IsSpace(s[i]) { assert s[i] == s[|r|..][i - |r|]; }
    } else {
      assert r[|r| - 1] == s[|s| - 4..][|r| - 1 - (|s| - 4)];
    }
  }

  /** When trimming brings a history within the limit: its last turn fits beside the marker, or is
      summarised with room for the role. */
  ghost predicate TrimFits(ms: seq<Message>, limit: int) {
    && limit >= MARKER_CHARS
    && var groups := GroupTurns(ms);
    || groups == []
    || Chars(groups[|groups| - 1]) + MARKER_CHARS <= limit
    || (limit > MARKER_CHARS && LeavesFour(groups[|groups| - 1], limit - MARKER_CHARS))
  }

  lemma TailTrimWithinLimitIff(ms: seq<Message>, limit: int)
    ensures Chars(TailTrim(ms, limit)) <= limit <==> TrimFits(ms, limit)
  {
    hide TailTrim;
    hide SummaryContent;
    hide GroupTurns;
    hide LeavesFour;
    var groups := GroupTurns(ms);
    if groups == [] {
      NothingToTrim(ms, limit);
    } else if Chars(groups[|groups| - 1]) + MARKER_CHARS <= limit {
      TailTrimKeepsLongestSuffix(ms, limit);
    } else {
      LastTurnCompacted(ms, limit);
      if limit > MARKER_CHARS { SummaryLeavesFourIff(groups[|groups| - 1], limit - MARKER_CHARS); }
    }
  }

  /** A summary is never shorter than its header and the first turn's line. */
  lemma UncutSummaryIsLong(last: seq<Message>, room: nat)
    requires last != []
    ensures |UncutSummary(last, room)| >= 134
  {
    hide TurnText;
    hide SummaryHeader;
    var groups := GroupTurns(last);
    var header := SummaryHeader(|groups|, |last|);
    HeaderLength(|groups|, |last|);
    TurnTextLength(groups[0], 1);
    var longer := header + TurnText(groups[0], 1);
    if |longer| < room { SummaryTextGrows(groups[1..], 2, longer, room); }
  }

  lemma {:induction false} SummaryTextGrows(groups: seq<seq<Message>>, index: nat, text: string, limit: nat)
    ensures |SummaryText(groups, index, text, limit)| >= |text|
  {
    hide TurnText;
    if groups != [] { SummaryTextGrows(groups[1..], index + 1, text + TurnText(groups[0], index), limit); }
  }

  lemma HeaderLength(turns: nat, messages: nat)
    ensures |SummaryHeader(turns, messages)| >= 124
  {
    hide Decimal;
    DecimalLength(turns);
    DecimalLength(messages);
  }

  lemma DecimalLength(n: nat)
    ensures |Decimal(n)| >= 1
  {
  }

  lemma TurnTextLength(turn: seq<Message>, index: nat)
    ensures |TurnText(turn, index)| >= 10
  {
    hide MessageLines;
    hide UserText;
    DecimalLength(index);
  }

  /** The overrun is real: whenever the last turn must go and leaves room for at most 31 characters,
      the limit is exceeded by exactly four; with room for less than 134, by four unless blanks
      stand where the summary is cut. */
  lemma TailTrimOverrunsByFour(ms: seq<Message>, limit: int)
    requires MARKER_CHARS < limit < MARKER_CHARS + 134
    requires var groups := GroupTurns(ms);
      groups != [] && groups[|groups| - 1] != [] && Chars(groups[|groups| - 1]) + MARKER_CHARS > limit
    ensures limit <= MARKER_CHARS + 31 ==> Chars(TailTrim(ms, limit)) == limit + 4
    ensures limit > MARKER_CHARS + 31 ==>
      var groups := GroupTurns(ms);
      var room := limit - MARKER_CHARS;
      var cut := UncutSummary(groups[|groups| - 1], room)[..room - |SUMMARY_CUT|];
      Chars(TailTrim(ms, limit)) == limit + 4 - (|cut| - |RStrip(cut)|)
  {
    hide *;
    var groups := GroupTurns(ms);
    var last, room := groups[|groups| - 1], limit - MARKER_CHARS;
    LastTurnCompacted(ms, limit);
    UncutSummaryIsLong(last, room);
    CutSummaryLength(last, room);
  }

  lemma CutSummaryLength(last: seq<Message>, room: nat)
    requires 0 < room < |UncutSummary(last, room)|
    ensures var summary := SummaryMessage(last, Max(1, room));
      && (room <= 31 ==> MessageChars(summary) == room + 4)
      && (room > 31 ==>
           var cut := UncutSummary(last, room)[..room - |SUMMARY_CUT|];
           MessageChars(summary) == room + 4 - (|cut| - |RStrip(cut)|))
  {
    hide UncutSummary;
  }

  lemma TailTrimIsLegal(ms: seq<Message>, limit: int)
    requires Legal(ms)
    ensures Legal(TailTrim(ms, limit))
  {
    hide Legal;
    hide GroupTurns;
    hide SummaryMessage;
    var groups := GroupTurns(ms);
    TurnsAreLegal(ms);
    MarkerIsLegal();
    KeptSuffixIsLegal(groups, limit, false, 0);
    FlattenLegal(KeptSuffix(groups, limit, false, 0));
    LegalConcat([OmittedMarker()], Flatten(KeptSuffix(groups, limit, false, 0)));
  }

  lemma {:induction false} KeptSuffixIsLegal(groups: seq<seq<Message>>, limit: int, started: bool, total: nat)
    requires AllLegal(groups)
    ensures AllLegal(KeptSuffix(groups, limit, started, total))
  {
    hide *;
    KeptSuffixStep(groups, limit, started, total);
    if groups == [] { return; }
    var last, front := groups[|groups| - 1], groups[..|groups| - 1];
    SummaryIsLegal(last, Max(1, limit - MARKER_CHARS));
    LegalOne(SummaryMessage(last, Max(1, limit - MARKER_CHARS)));
    LegalFront(groups);
    KeptSuffixIsLegal(front, limit, true, total + Chars(last));
    LegalSnoc(KeptSuffix(front, limit, true, total + Chars(last)), last);
  }

  lemma KeptSuffixStep(groups: seq<seq<Message>>, limit: int, started: bool, total: nat)
    ensures var kept := KeptSuffix(groups, limit, started, total);
      if groups == [] then kept == []
      else
        var last, front := groups[|groups| - 1], groups[..|groups| - 1];
        || kept == []
        || kept == [[SummaryMessage(last, Max(1, limit - MARKER_CHARS))]]
        || kept == KeptSuffix(front, limit, true, total + Chars(last)) + [last]
    ensures AllLegal([])
  {
    hide Chars;
    hide SummaryMessage;
  }

  lemma LegalFront(groups: seq<seq<Message>>)
    requires groups != [] && AllLegal(groups)
    ensures Legal(groups[|groups| - 1]) && AllLegal(groups[..|groups| - 1])
  {
  }

  lemma LegalSnoc(groups: seq<seq<Message>>, last: seq<Message>)
    requires AllLegal(groups) && Legal(last)
    ensures AllLegal(groups + [last])
  {
  }

  lemma LegalOne(m: Message)
    ensures Legal([m]) ==> AllLegal([[m]])
  {
  }

  function Target(rule: Rule): int { Max(1, rule.budgetChars) }

  function EffectiveTarget(rule: Rule, raw: nat): int {
    Max(Target(rule), Min(Max(0, rule.floorChars), raw))
  }

  /** `budget_conversation_history`: the messages rendered. */
  function BudgetHistory(ms: seq<Message>, enabled: bool, rule: Option<Rule>): seq<Message> {
    if rule.None? || !enabled || Chars(ms) <= Target(rule.value) then ms
    else
      var rendered := ReduceMessages(ms, rule.value).0;
      var limit := EffectiveTarget(rule.value, Chars(ms));
      if Chars(rendered) > limit then TailTrim(rendered, limit) else rendered
  }

  lemma BudgetHistoryIsLegal(ms: seq<Message>, enabled: bool, rule: Option<Rule>)
    requires Legal(ms)
    ensures Legal(BudgetHistory(ms, enabled, rule))
  {
    hide Legal;
    hide ReduceMessages;
    hide TailTrim;
    if rule.Some? {
      ReductionIsLegal(ms, rule.value);
      TailTrimIsLegal(ReduceMessages(ms, rule.value).0, EffectiveTarget(rule.value, Chars(ms)));
    }
  }

  /** What a section budget promises about the size of the history. */
  lemma BudgetHistoryCost(ms: seq<Message>, rule: Rule)
    ensures var target := Max(Max(1, rule.budgetChars), Min(Max(0, rule.floorChars), Chars(ms)));
      Chars(BudgetHistory(ms, true, Some(rule))) <= Max(target, 91) + 4
    ensures Chars(ms) <= Max(1, rule.budgetChars) ==> BudgetHistory(ms, true, Some(rule)) == ms
  {
    hide ReduceMessages;
    hide TailTrim;
    TailTrimCost(ReduceMessages(ms, rule).0, EffectiveTarget(rule, Chars(ms)));
  }

  /** A history is left alone without a budget, or if it is within it; over it, head and tail turns are
      kept as the rule says, and only if even they are too much is the history trimmed to its tail. */
  lemma BudgetHistoryKeeps(ms: seq<Message>, enabled: bool, rule: Option<Rule>)
    ensures rule.None? || !enabled || Chars(ms) <= Max(1, rule.value.budgetChars)
      ==> BudgetHistory(ms, enabled, rule) == ms
    ensures rule.Some? && enabled && Chars(ms) > Max(1, rule.value.budgetChars) ==>
      var limit := Max(Max(1, rule.value.budgetChars), Min(Max(0, rule.value.floorChars), Chars(ms)));
      var reduced := ReduceMessages(ms, rule.value).0;
      BudgetHistory(ms, enabled, rule) == if Chars(reduced) <= limit then reduced else TailTrim(reduced, limit)
  {
  }

  /** Just when the budgeted history is within its effective target. */
  lemma BudgetHistoryWithinTargetIff(ms: seq<Message>, rule: Rule)
    ensures var limit := Max(Max(1, rule.budgetChars), Min(Max(0, rule.floorChars), Chars(ms)));
      var reduced := ReduceMessages(ms, rule).0;
      Chars(BudgetHistory(ms, true, Some(rule))) <= limit
      <==> Chars(ms) <= Max(1, rule.budgetChars) || Chars(reduced) <= limit || TrimFits(reduced, limit)
  {
    hide ReduceMessages;
    hide TailTrim;
    hide TrimFits;
    TailTrimWithinLimitIff(ReduceMessages(ms, rule).0, EffectiveTarget(rule, Chars(ms)));
  }
}
