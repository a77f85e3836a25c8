/** Budgeting the turn in progress: old tool results are replaced, earlier steps summarised, and the
    latest tool-call group is kept together with its results whatever it costs. */
module ActiveTurn {
  import opened Messages
  import opened Options
  import opened PyText
  import opened Turns
  import opened ContextHistory

  // ----- replacing old tool results -----

  /** How many tool results stand at `i` or later. */
  function ToolsFrom(ms: seq<Message>, i: nat): nat
    requires i <= |ms|
    decreases |ms| - i
  {
    if i == |ms| then 0 else (if ms[i].role.Tool? then 1 else 0) + ToolsFrom(ms, i + 1)
  }

  function NameAt(ms: seq<Message>, i: nat): string
    requires i < |ms|
  {
    ToolName(ms, ms[i].resultId)
  }

  /** No result of the same tool comes after position `i`. */
  predicate IsLatest(ms: seq<Message>, i: nat)
    requires i < |ms|
  {
    forall j | i < j < |ms| :: ms[j].role.Tool? ==> NameAt(ms, j) != NameAt(ms, i)
  }

  /** Recent results, the latest one of each protected tool, and all of the preserved tools. */
  predicate Protected(ms: seq<Message>, rule: Rule, i: nat)
    requires i < |ms|
  {
    || ToolsFrom(ms, i) <= Max(0, rule.keepRecentResults)
    || (NameAt(ms, i) in rule.latestProtected && IsLatest(ms, i))
    || NameAt(ms, i) in rule.preserveTools
  }

  function Placeholder(tool: string, m: Message): string {
    "<" + tool + COMPRESSED + m.rerun + ">"
  }

  /** Message `i` after the replacement. */
  function CompressedAt(ms: seq<Message>, rule: Rule, i: nat): Message
    requires i < |ms|
  {
    var placeholder := Placeholder(NameAt(ms, i), ms[i]);
    if !ms[i].role.Tool? || Protected(ms, rule, i) || TextOf(ms[i]) == placeholder then ms[i]
    else ms[i].(content := Text(placeholder))
  }

  function Compressed(ms: seq<Message>, rule: Rule): (r: seq<Message>)
    ensures |r| == |ms|
    ensures forall i | 0 <= i < |ms| :: r[i] == CompressedAt(ms, rule, i)
  {
    seq(|ms|, i requires 0 <= i < |ms| => CompressedAt(ms, rule, i))
  }

  ghost predicate IsToolIndexes(ms: seq<Message>, n: nat, indexes: seq<nat>) {
    && n <= |ms|
    && (forall p | 0 <= p < |indexes| :: indexes[p] < n && ms[indexes[p]].role.Tool?)
    && (forall p, q | 0 <= p < q < |indexes| :: indexes[p] < indexes[q])
    && (forall i | 0 <= i < n && ms[i].role.Tool? :: i in indexes)
  }

  method FindToolIndexes(messages: seq<Message>) returns (indexes: seq<nat>)
    ensures IsToolIndexes(messages, |messages|, indexes)
  {
    indexes := [];
    for i := 0 to |messages|
      invariant IsToolIndexes(messages, i, indexes)
    {
      if messages[i].role.Tool? { indexes := indexes + [i]; }
    }
  }

  /** The position in the list of results says how many follow. */
  lemma {:induction false} RankOfResult(ms: seq<Message>, indexes: seq<nat>, p: nat)
    requires IsToolIndexes(ms, |ms|, indexes) && p < |indexes|
    ensures ToolsFrom(ms, indexes[p]) == |indexes| - p
    decreases |indexes| - p
  {
    var next := if p + 1 < |indexes| then indexes[p + 1] else |ms|;
    forall j | indexes[p] < j < next ensures !ms[j].role.Tool? {
      if ms[j].role.Tool? {
        var q :| 0 <= q < |indexes| && indexes[q] == j;
      }
    }
    NoToolsBetween(ms, indexes[p] + 1, next);
    if p + 1 < |indexes| { RankOfResult(ms, indexes, p + 1); }
  }

  lemma {:induction false} NoToolsBetween(ms: seq<Message>, i: nat, next: nat)
    requires i <= next <= |ms|
    requires forall j | i <= j < next :: !ms[j].role.Tool?
    ensures ToolsFrom(ms, i) == ToolsFrom(ms, next)
    decreases next - i
  {
    if i < next { NoToolsBetween(ms, i + 1, next); }
  }

  /** What is known after the first `p` results: the last of them under each protected name. */
  ghost predicate IsLatestMap(
      ms: seq<Message>, indexes: seq<nat>, protectedTools: set<string>, latest: map<string, nat>, p: nat)
    requires IsToolIndexes(ms, |ms|, indexes) && p <= |indexes|
  {
    && (forall t | t in latest ::
          t in protectedTools && latest[t] < |ms| && ms[latest[t]].role.Tool? && NameAt(ms, latest[t]) == t)
    && (forall q | 0 <= q < p :: NameAt(ms, indexes[q]) in protectedTools ==>
          NameAt(ms, indexes[q]) in latest && indexes[q] <= latest[NameAt(ms, indexes[q])])
  }

  lemma LatestMapDecides(
      ms: seq<Message>, indexes: seq<nat>, protectedTools: set<string>, latest: map<string, nat>, i: nat)
    requires IsToolIndexes(ms, |ms|, indexes)
    requires IsLatestMap(ms, indexes, protectedTools, latest, |indexes|)
    requires i < |ms| && ms[i].role.Tool?
    ensures (NameAt(ms, i) in protectedTools && IsLatest(ms, i))
       <==> (NameAt(ms, i) in latest && latest[NameAt(ms, i)] == i)
  {
    hide ToolName;
    var name := NameAt(ms, i);
    var q :| 0 <= q < |indexes| && indexes[q] == i;
    if name in latest && latest[name] == i {
      forall j | i < j < |ms| && ms[j].role.Tool? ensures NameAt(ms, j) != name {
        var r :| 0 <= r < |indexes| && indexes[r] == j;
      }
    }
  }

  /** `_latest_tool_result_indexes`. */
  method LatestResults(messages: seq<Message>, indexes: seq<nat>, protectedTools: set<string>)
    returns (latest: map<string, nat>)
    requires IsToolIndexes(messages, |messages|, indexes)
    ensures IsLatestMap(messages, indexes, protectedTools, latest, |indexes|)
  {
    hide ToolName;
    latest := map[];
    for p := 0 to |indexes|
      invariant IsLatestMap(messages, indexes, protectedTools, latest, p)
    {
      var name := NameAt(messages, indexes[p]);
      if name in protectedTools { latest := latest[name := indexes[p]]; }
    }
  }

  /** The first `p` results have been processed and nothing else has been touched. */
  ghost predicate CompressedUpTo(
      ms: seq<Message>, rule: Rule, indexes: seq<nat>, rendered: seq<Message>, p: nat)
    requires IsToolIndexes(ms, |ms|, indexes) && p <= |indexes|
  {
    && |rendered| == |ms|
    && (forall i | 0 <= i < |ms| && (p < |indexes| ==> i < indexes[p]) :: rendered[i] == CompressedAt(ms, rule, i))
    && (forall i | 0 <= i < |ms| && p < |indexes| && indexes[p] <= i :: rendered[i] == ms[i])
  }

  /** How many messages differ: what the source reports as `compressed`. */
  function Differences(a: seq<Message>, b: seq<Message>): nat
    requires |a| == |b|
  {
    if a == [] then 0 else (if a[0] == b[0] then 0 else 1) + Differences(a[1..], b[1..])
  }

  lemma {:induction false} OneMoreDifference(a: seq<Message>, b: seq<Message>, i: nat, m: Message)
    requires |a| == |b| && i < |b| && b[i] == a[i] && m != a[i]
    ensures Differences(a, b[i := m]) == Differences(a, b) + 1
  {
    if i > 0 {
      OneMoreDifference(a[1..], b[1..], i - 1, m);
      assert b[i := m][1..] == b[1..][i - 1 := m];
    } else {
      assert b[i := m][1..] == b[1..];
    }
  }

  lemma {:induction false} NoDifference(a: seq<Message>)
    ensures Differences(a, a) == 0
  {
    if a != [] { NoDifference(a[1..]); }
  }

  lemma BeforeFirstResult(ms: seq<Message>, rule: Rule, indexes: seq<nat>)
    requires IsToolIndexes(ms, |ms|, indexes)
    ensures CompressedUpTo(ms, rule, indexes, ms, 0)
  {
    forall i | 0 <= i < |ms| && (0 < |indexes| ==> i < indexes[0]) ensures ms[i] == CompressedAt(ms, rule, i) {
      assert ms[i].role.Tool? ==> i in indexes;
    }
  }

  lemma NextResult(ms: seq<Message>, rule: Rule, indexes: seq<nat>, rendered: seq<Message>, p: nat, m: Message)
    requires IsToolIndexes(ms, |ms|, indexes) && p < |indexes|
    requires CompressedUpTo(ms, rule, indexes, rendered, p)
    requires m == CompressedAt(ms, rule, indexes[p])
    ensures CompressedUpTo(ms, rule, indexes, rendered[indexes[p] := m], p + 1)
  {
    hide Protected;
    hide Placeholder;
    hide NameAt;
    var after := rendered[indexes[p] := m];
    forall i | 0 <= i < |ms| && (p + 1 < |indexes| ==> i < indexes[p + 1])
      ensures after[i] == CompressedAt(ms, rule, i)
    {
      assert ms[i].role.Tool? ==> i in indexes;
    }
  }

  method CompressOldToolResults(messages: seq<Message>, rule: Rule)
    returns (rendered: seq<Message>, compressed: nat)
    ensures rendered == Compressed(messages, rule)
    ensures compressed == Differences(messages, rendered)
  {
    hide ToolName;
    hide Placeholder;
    var indexes := FindToolIndexes(messages);
    var latest := LatestResults(messages, indexes, rule.latestProtected);
    var keepRecent := Max(0, rule.keepRecentResults);
    rendered, compressed := messages, 0;
    BeforeFirstResult(messages, rule, indexes);
    NoDifference(messages);
    for p := 0 to |indexes|
      invariant CompressedUpTo(messages, rule, indexes, rendered, p)
      invariant compressed == Differences(messages, rendered)
    {
      var index := indexes[p];
      var message := rendered[index];
      var name := NameAt(messages, index);
      RankOfResult(messages, indexes, p);
      LatestMapDecides(messages, indexes, rule.latestProtected, latest, index);
      NextResult(messages, rule, indexes, rendered, p, CompressedAt(messages, rule, index));
      if |indexes| - p <= keepRecent || (name in latest && latest[name] == index) || name in rule.preserveTools {
        assert rendered[index := message] == rendered;
        continue;
      }
      var placeholder := Placeholder(name, message);
      if TextOf(message) == placeholder {
        assert rendered[index := message] == rendered;
        continue;
      }
      OneMoreDifference(messages, rendered, index, message.(content := Text(placeholder)));
      rendered := rendered[index := message.(content := Text(placeholder))];
      compressed := compressed + 1;
    }
  }

  /** Result `p` in the list of all results is among the last few, of a preserved tool, or the last
      one of a protected tool. */
  ghost predicate Spared(ms: seq<Message>, rule: Rule, indexes: seq<nat>, p: nat)
    requires IsToolIndexes(ms, |ms|, indexes) && p < |indexes|
  {
    var name := NameAt(ms, indexes[p]);
    || p >= |indexes| - Max(0, rule.keepRecentResults)
    || name in rule.preserveTools
    || (name in rule.latestProtected && forall q | p < q < |indexes| :: NameAt(ms, indexes[q]) != name)
  }

  /** Compression touches results only, of each only the text, and spares just these results; all
      others end up as placeholders naming their tool. */
  lemma CompressionIsSelective(ms: seq<Message>, rule: Rule, indexes: seq<nat>, p: nat)
    requires IsToolIndexes(ms, |ms|, indexes) && p < |indexes|
    ensures forall i | 0 <= i < |ms| && !ms[i].role.Tool? :: Compressed(ms, rule)[i] == ms[i]
    ensures var i, r := indexes[p], Compressed(ms, rule)[indexes[p]];
      && r.(content := ms[i].content) == ms[i]
      && (Spared(ms, rule, indexes, p) ==> r == ms[i])
      && (!Spared(ms, rule, indexes, p) ==> TextOf(r) == Placeholder(NameAt(ms, i), ms[i]))
  {
    hide ToolName;
    hide Placeholder;
    var i := indexes[p];
    RankOfResult(ms, indexes, p);
    if IsLatest(ms, i) {
      forall q | p < q < |indexes| ensures NameAt(ms, indexes[q]) != NameAt(ms, i) {}
    } else {
      var j :| i < j < |ms| && ms[j].role.Tool? && NameAt(ms, j) == NameAt(ms, i);
      var q :| 0 <= q < |indexes| && indexes[q] == j;
      assert p < q;
    }
  }

  /** A placeholder starts with the name of the tool and ends with how to call it again. */
  lemma PlaceholderTells(tool: string, m: Message)
    ensures "<" + tool <= Placeholder(tool, m)
    ensures var rerun, r := m.rerun + ">", Placeholder(tool, m);
      |rerun| + |tool| < |r| && r[|r| - |rerun|..] == rerun
  {
  }

  lemma CompressedKeepsShape(ms: seq<Message>, rule: Rule)
    ensures SameShape(ms, Compressed(ms, rule))
  {
    hide Protected;
    hide Placeholder;
    hide NameAt;
  }

  // ----- summarising earlier steps -----

  function FirstUser(ms: seq<Message>): (i: nat)
    requires ms != []
    ensures i < |ms|
    ensures ms[0].role.User? ==> i == 0
  {
    if ms[0].role.User? then 0
    else if |ms| == 1 then 0
    else
      var rest := ms[1..];
      var j := FirstUser(rest);
      if rest[j].role.User? then 1 + j else 0
  }

  /** The first message of the user, or the first of all when the user has none. */
  lemma {:induction false} FirstUserIs(ms: seq<Message>, i: nat)
    requires i < |ms| && UserFree(ms, 0, i)
    ensures ms[i].role.User? ==> FirstUser(ms) == i
    ensures !ms[i].role.User? && i == |ms| - 1 ==> FirstUser(ms) == 0
  {
    if i > 0 {
      var rest := ms[1..];
      assert forall k | 0 <= k < |rest| :: rest[k] == ms[k + 1];
      assert UserFree(rest, 0, i - 1);
      FirstUserIs(rest, i - 1);
      FirstUserOr(rest);
    }
  }

  lemma {:induction false} FirstUserOr(ms: seq<Message>)
    requires ms != []
    ensures ms[FirstUser(ms)].role.User? || FirstUser(ms) == 0
  {
  }

  /** Position of the last message with calls, or -1. */
  function LastCall(ms: seq<Message>): (i: int)
    ensures -1 <= i < |ms|
    ensures i >= 0 ==> ms[i].calls != []
    ensures forall j | i < j < |ms| :: ms[j].calls == []
  {
    if ms == [] then -1
    else if ms[|ms| - 1].calls != [] then |ms| - 1
    else LastCall(ms[..|ms| - 1])
  }

  /** `_tool_group_end`: where the results of the calls at `i` end. */
  function ToolGroupEnd(ms: seq<Message>, i: nat): (end: nat)
    requires i < |ms|
    ensures i < end <= |ms|
  {
    i + 1 + ForeignFree(ms[i + 1..], Ids(ms[i]))
  }

  function ForeignFree(ms: seq<Message>, ids: set<string>): (n: nat)
    ensures n <= |ms|
  {
    if ms == [] || !ms[0].role.Tool? || (ids != {} && ms[0].resultId !in ids) then 0
    else 1 + ForeignFree(ms[1..], ids)
  }

  function WithSummary(prefix: seq<Message>, summarized: seq<Message>, maxChars: int): seq<Message> {
    if summarized == [] then prefix else prefix + [ActiveSummary(summarized, maxChars)]
  }

  /** `_reduce_active_turn`: what is rendered and what was summarised away. */
  function ReduceActive(ms: seq<Message>, maxChars: int): (seq<Message>, seq<Message>) {
    if ms == [] then ([], [])
    else
      var first, latest := FirstUser(ms), LastCall(ms);
      if latest <= first then
        (WithSummary(ms[..first + 1], ms[first + 1..], maxChars), ms[first + 1..])
      else
        var end := ToolGroupEnd(ms, latest);
        (WithSummary(ms[..first + 1], ms[first + 1..latest], maxChars) + ms[latest..end] + ms[end..],
         ms[first + 1..latest])
  }

  /** A turn in progress, as the loop keeps it: it starts with the user and keeps the protocol. */
  ghost predicate ActiveShape(ms: seq<Message>) {
    ms != [] && ms[0].role.User? && Legal(ms) && CallsComeFromAssistants(ms)
  }

  lemma OpeningIsLegal(ms: seq<Message>)
    requires ActiveShape(ms)
    ensures ms[..1] == [ms[0]] && ms[0].calls == [] && Legal(ms[..1])
  {
    hide Legal;
    assert ms[0] in ms;
    LegalSingleton(ms[0]);
  }

  lemma WithSummaryIsLegal(prefix: seq<Message>, summarized: seq<Message>, maxChars: int)
    requires Legal(prefix)
    ensures Legal(WithSummary(prefix, summarized, maxChars))
  {
    hide Legal;
    hide ActiveSummary;
    SummaryIsLegal(summarized, maxChars);
    LegalConcat(prefix, [ActiveSummary(summarized, maxChars)]);
  }

  lemma LastGroupIsLegal(ms: seq<Message>)
    requires Legal(ms) && CallsComeFromAssistants(ms) && LastCall(ms) >= 0
    ensures Legal(ms[LastCall(ms)..])
  {
    hide Legal;
    assert ms[LastCall(ms)] in ms;
    LegalSplit(ms, LastCall(ms));
  }

  /** In a legal transcript the scan for the group's end finds just the block the calls open. */
  lemma GroupEndIsBlockEnd(ms: seq<Message>, i: nat)
    requires i < |ms| && Legal(ms[i..]) && ms[i].calls != []
    requires CallsComeFromAssistants(ms)
    ensures ToolGroupEnd(ms, i) == i + Block(ms[i..])
  {
    var rest, n := ms[i..], Block(ms[i..]);
    assert rest[1..] == ms[i + 1..];
    forall k | 0 <= k < n - 1 ensures rest[1..][k].role.Tool? && rest[1..][k].resultId in Ids(rest[0]) {
      BlockIsHeadAndResults(rest, k + 1);
    }
    if n < |rest| {
      assert rest[n..][0] == rest[n] == ms[i + n];
      assert ms[i + n] in ms;
      NoStrayResultFirst(rest[n..]);
    }
    ForeignFreeIs(rest[1..], Ids(rest[0]), n - 1);
  }

  lemma NoStrayResultFirst(ms: seq<Message>)
    requires ms != [] && Legal(ms)
    requires ms[0].calls != [] ==> ms[0].role.Assistant?
    ensures !ms[0].role.Tool?
  {
  }

  lemma {:induction false} ForeignFreeIs(ms: seq<Message>, ids: set<string>, n: nat)
    requires n <= |ms|
    requires forall k | 0 <= k < n :: ms[k].role.Tool? && ms[k].resultId in ids
    requires n < |ms| ==> !ms[n].role.Tool?
    ensures ForeignFree(ms, ids) == n
  {
    if n > 0 { ForeignFreeIs(ms[1..], ids, n - 1); }
  }

  /** Summarising the earlier steps keeps the protocol, the opening request and, word for word,
      everything from the last tool-call group on. */
  lemma ReduceActiveKeepsLastGroup(ms: seq<Message>, maxChars: int)
    requires ActiveShape(ms)
    ensures var rendered, latest := ReduceActive(ms, maxChars).0, LastCall(ms);
      && ActiveShape(rendered)
      && rendered[0] == ms[0]
      && (latest >= 0 ==> |rendered| >= |ms| - latest && rendered[|rendered| - (|ms| - latest)..] == ms[latest..]
                          && LastCall(rendered) == |rendered| - (|ms| - latest))
      && (latest < 0 ==> LastCall(rendered) < 0)
  {
    hide Legal;
    hide ActiveSummary;
    hide ToolGroupEnd;
    OpeningIsLegal(ms);
    var rendered, latest := ReduceActive(ms, maxChars).0, LastCall(ms);
    if latest < 0 {
      WithSummaryIsLegal(ms[..1], ms[1..], maxChars);
      NoCallsInSummary(ms[..1], ms[1..], maxChars);
    } else {
      assert latest > 0;
      var front := WithSummary(ms[..1], ms[1..latest], maxChars);
      var end := ToolGroupEnd(ms, latest);
      assert ms[latest..end] + ms[end..] == ms[latest..];
      assert rendered == front + ms[latest..];
      WithSummaryIsLegal(ms[..1], ms[1..latest], maxChars);
      NoCallsInSummary(ms[..1], ms[1..latest], maxChars);
      LastGroupIsLegal(ms);
      LegalConcat(front, ms[latest..]);
      LastCallIs(rendered, |front|);
    }
  }

  lemma NoCallsInSummary(prefix: seq<Message>, summarized: seq<Message>, maxChars: int)
    requires |prefix| == 1 && prefix[0].calls == []
    ensures var r := WithSummary(prefix, summarized, maxChars);
      && r != [] && r[0] == prefix[0] && CallsComeFromAssistants(r)
      && forall i | 0 <= i < |r| :: r[i].calls == []
  {
    hide SummaryContent;
  }

  /** What stands in a rendered turn for the messages that are gone: nothing if none are, else one
      message of the user, which tells how many they are if it has the room to. */
  ghost predicate StandsFor(summary: seq<Message>, gone: seq<Message>, maxChars: int) {
    && (gone == [] ==> summary == [])
    && (gone != [] ==> |summary| == 1 && Tells(summary[0], gone, if maxChars <= 0 then 1200 else maxChars))
  }

  ghost predicate Tells(m: Message, gone: seq<Message>, room: int) {
    && m.role.User? && m.calls == [] && m.content.Text?
    && var opening := ACTIVE_HEADING + "\nCompressed turns: " + Decimal(|GroupTurns(gone)|)
                      + ".\nCompressed messages: " + Decimal(|gone|) + ".";
    |opening| + 18 <= room ==> opening <= m.content.text
  }

  lemma ActiveSummaryTells(gone: seq<Message>, maxChars: int)
    ensures Tells(ActiveSummary(gone, maxChars), gone, if maxChars <= 0 then 1200 else maxChars)
  {
    hide SummaryContent;
    hide SummaryHeader;
    hide GroupTurns;
    hide Decimal;
    var turns, messages := |GroupTurns(gone)|, |gone|;
    HeaderSays(turns, messages);
    var rest := "\nCompressed turns: " + Decimal(turns) + ".\nCompressed messages: " + Decimal(messages) + ".";
    Reassociate(HISTORY_HEADING, "\nCompressed turns: ", Decimal(turns), ".\nCompressed messages: ", Decimal(messages), ".");
    Reassociate(ACTIVE_HEADING, "\nCompressed turns: ", Decimal(turns), ".\nCompressed messages: ", Decimal(messages), ".");
    HeadingIsSwapped(gone, maxChars, rest);
  }

  lemma Reassociate(a: string, b: string, c: string, d: string, e: string, f: string)
    ensures a + b + c + d + e + f == a + (b + c + d + e + f)
  {
  }

  lemma HeadingIsSwapped(gone: seq<Message>, maxChars: int, rest: string)
    requires SummaryHeader(|GroupTurns(gone)|, |gone|) == HISTORY_HEADING + rest
    ensures 79 + |rest| + 23 <= SummaryLimit(maxChars) ==>
      ACTIVE_HEADING + rest <= TextOf(ActiveSummary(gone, maxChars))
  {
    hide SummaryContent;
    hide SummaryHeader;
    hide GroupTurns;
    hide SummaryLimit;
    SummaryOpens(gone, SummaryLimit(maxChars));
    if 79 + |rest| + 23 <= SummaryLimit(maxChars) {
      SwapHeading(SummaryContent(gone, SummaryLimit(maxChars)), HISTORY_HEADING, ACTIVE_HEADING, rest);
    }
  }

  lemma SwapHeading(text: string, from: string, to: string, rest: string)
    requires from + rest <= text
    ensures from <= text && to + rest <= to + text[|from|..]
  {
    assert text[..|from|] == (from + rest)[..|from|] == from;
    assert text[|from|..][..|rest|] == (from + rest)[|from|..] == rest;
  }

  lemma WithSummaryStands(prefix: seq<Message>, gone: seq<Message>, maxChars: int)
    ensures var k := if gone == [] then 0 else 1; var r := WithSummary(prefix, gone, maxChars);
      |r| == |prefix| + k && r[..|prefix|] == prefix && StandsFor(r[|prefix|..], gone, maxChars)
  {
    hide ActiveSummary;
    hide Tells;
    if gone != [] { ActiveSummaryTells(gone, maxChars); }
  }

  /** Where the messages to be summarised end: at the last calls, or with the turn. */
  function SummaryStop(ms: seq<Message>): (stop: nat)
    ensures stop <= |ms|
  {
    if LastCall(ms) < 0 then |ms| else LastCall(ms)
  }

  lemma SummaryStopsBehindOpening(ms: seq<Message>)
    requires ActiveShape(ms)
    ensures FirstUser(ms) == 0 < SummaryStop(ms)
  {
    assert ms[0] in ms;
  }

  /** Whatever a turn starts with: it is summarised between the first message of the user and the last
      calls after it, or all that follows that message. */
  lemma {:induction false} ReducedIs(ms: seq<Message>, maxChars: int, lo: nat, stop: nat)
    requires ms != [] && lo == FirstUser(ms) + 1
    requires stop == if LastCall(ms) < lo then |ms| else LastCall(ms)
    ensures lo <= stop <= |ms|
    ensures ReduceActive(ms, maxChars).1 == ms[lo..stop]
    ensures ReduceActive(ms, maxChars).0 == WithSummary(ms[..lo], ms[lo..stop], maxChars) + ms[stop..]
  {
    hide WithSummary;
    hide ToolGroupEnd;
    hide FirstUser;
    hide LastCall;
    if LastCall(ms) < lo {
      WholeSuffix(ms, lo, WithSummary(ms[..lo], ms[lo..], maxChars));
    } else {
      JoinedSuffix(WithSummary(ms[..lo], ms[lo..stop], maxChars), ms, stop, ToolGroupEnd(ms, stop));
    }
  }

  lemma WholeSuffix(ms: seq<Message>, i: nat, front: seq<Message>)
    requires i <= |ms|
    ensures ms[i..|ms|] == ms[i..] && front + ms[|ms|..] == front
  {
  }

  lemma JoinedSuffix(front: seq<Message>, ms: seq<Message>, i: nat, end: nat)
    requires i <= end <= |ms|
    ensures front + ms[i..end] + ms[end..] == front + ms[i..]
  {
    assert ms[i..] == ms[i..end] + ms[end..];
  }

  /** The opening request, what is summarised and the last group are the whole turn.  Rendered are the
      request, what stands for the summarised part, and the last group word for word. */
  lemma ReduceActivePartitions(ms: seq<Message>, maxChars: int)
    requires ActiveShape(ms)
    ensures var stop := if LastCall(ms) < 0 then |ms| else LastCall(ms);
      var rendered, gone := ReduceActive(ms, maxChars).0, ReduceActive(ms, maxChars).1;
      var k := if stop == 1 then 0 else 1;
      && 1 <= stop && gone == ms[1..stop] && ms == [ms[0]] + gone + ms[stop..]
      && k < |rendered| && rendered == [ms[0]] + rendered[1..1 + k] + ms[stop..]
      && StandsFor(rendered[1..1 + k], gone, maxChars)
  {
    hide ActiveShape;
    hide StandsFor;
    hide WithSummary;
    hide ReduceActive;
    hide LastCall;
    SummaryStopsBehindOpening(ms);
    var stop := SummaryStop(ms);
    ReducedIs(ms, maxChars, 1, stop);
    WithSummaryStands(ms[..1], ms[1..stop], maxChars);
    Assembled(ms[0], WithSummary(ms[..1], ms[1..stop], maxChars), ms[stop..]);
    assert ms == ms[..1] + ms[1..stop] + ms[stop..];
  }

  lemma Assembled(first: Message, front: seq<Message>, back: seq<Message>)
    requires front != [] && front[0] == first
    ensures (front + back)[1..|front|] == front[1..]
    ensures front + back == [first] + (front + back)[1..|front|] + back
  {
  }

  lemma LastCallIs(ms: seq<Message>, i: nat)
    requires i < |ms| && ms[i].calls != []
    requires forall j | i < j < |ms| :: ms[j].calls == []
    ensures LastCall(ms) == i
  {
  }

  // ----- shortening tool results -----

  const KEEP_AT_LEAST := 80
  const CUT_CHARS := 57

  function WithText(m: Message, text: string): Message {
    m.(content := Text(text))
  }

  /** The first `keep` characters, without trailing blanks, and the note that something is missing. */
  function Cut(text: string, keep: nat): (r: string)
    requires keep <= |text|
    ensures |r| <= keep + CUT_CHARS
  {
    RStrip(text[..keep]) + RESULT_CUT
  }

  function CompactOne(m: Message, keep: nat): Message {
    if m.role.Tool? && |TextOf(m)| > keep then WithText(m, Cut(TextOf(m), keep)) else m
  }

  function GroupKeep(group: seq<Message>, limit: int): (keep: nat)
    ensures keep >= 120
  {
    Max(120, Max(200, limit) / Max(1, |group|))
  }

  /** `_compact_tool_group_if_needed`. */
  function CompactGroup(group: seq<Message>, limit: int): (r: seq<Message>)
    ensures |r| == |group|
  {
    if Chars(group) <= limit then group
    else seq(|group|, i requires 0 <= i < |group| => CompactOne(group[i], GroupKeep(group, limit)))
  }

  method CompactToolGroup(group: seq<Message>, limit: int) returns (rendered: seq<Message>)
    ensures rendered == CompactGroup(group, limit)
  {
    if Chars(group) <= limit { return group; }
    rendered := [];
    var remaining := Max(200, limit);
    for i := 0 to |group|
      invariant |rendered| == i
      invariant forall k | 0 <= k < i :: rendered[k] == CompactOne(group[k], GroupKeep(group, limit))
    {
      var copied := group[i];
      if copied.role.Tool? {
        var content := TextOf(copied);
        var keep: nat := Max(120, remaining / Max(1, |group|));
        if |content| > keep { copied := WithText(copied, Cut(content, keep)); }
      }
      rendered := rendered + [copied];
    }
  }

  lemma CompactGroupKeepsShape(group: seq<Message>, limit: int)
    ensures SameShape(group, CompactGroup(group, limit))
  {
    hide Chars;
    hide GroupKeep;
  }

  /** Only a group over its limit is cut, and of it only results longer than an equal share. */
  lemma CompactGroupCuts(group: seq<Message>, limit: int, i: nat)
    requires i < |group|
    ensures var m, r := group[i], CompactGroup(group, limit)[i];
      var share := Max(120, Max(200, limit) / |group|);
      if Chars(group) <= limit || !m.role.Tool? || |TextOf(m)| <= share then r == m
      else r == m.(content := Text(TextOf(r))) && IsCut(TextOf(m), share, RESULT_CUT, TextOf(r))
  {
    hide Chars;
    hide IsCut;
    hide RStrip;
    var text, keep := TextOf(group[i]), GroupKeep(group, limit);
    if |text| > keep { RStripIsCut(text, keep, RESULT_CUT); }
  }

  /** `_force_trim_tool_contents` at one position, given the size of the whole list. */
  function TrimOne(m: Message, total: nat, limit: int): Message {
    var content := TextOf(m);
    var keep: nat := Max(KEEP_AT_LEAST, |content| - (total - limit) - CUT_CHARS);
    if m.role.Tool? && keep < |content| then WithText(m, Cut(content, keep)) else m
  }

  /** Positions below `k` still to be done, from the back; stops once the list fits. */
  function ForceTrim(ms: seq<Message>, limit: int, k: nat): (r: seq<Message>)
    requires k <= |ms|
    ensures |r| == |ms|
    decreases k
  {
    if k == 0 || Chars(ms) <= limit then ms
    else ForceTrim(ms[k - 1 := TrimOne(ms[k - 1], Chars(ms), limit)], limit, k - 1)
  }

  method ForceTrimToolContents(messages: seq<Message>, limit: int) returns (rendered: seq<Message>)
    ensures rendered == ForceTrim(messages, limit, |messages|)
  {
    hide Chars;
    hide Cut;
    rendered := messages;
    var index := |messages| - 1;
    while index >= 0
      invariant -1 <= index < |messages| == |rendered|
      invariant ForceTrim(messages, limit, |messages|) == ForceTrim(rendered, limit, index + 1)
    {
      if Chars(rendered) <= limit { break; }
      var message := rendered[index];
      ghost var after := rendered[index := TrimOne(message, Chars(rendered), limit)];
      if message.role.Tool? {
        var content := TextOf(message);
        var overflow := Chars(rendered) - limit;
        var keep: nat := Max(KEEP_AT_LEAST, |content| - overflow - CUT_CHARS);
        if keep < |content| { rendered := rendered[index := WithText(message, Cut(content, keep))]; }
      }
      assert rendered == after;
      index := index - 1;
    }
  }

  lemma {:induction false} ForceTrimKeepsShape(ms: seq<Message>, limit: int, k: nat)
    requires k <= |ms|
    ensures SameShape(ms, ForceTrim(ms, limit, k))
    decreases k
  {
    hide Chars;
    hide Cut;
    if k > 0 && Chars(ms) > limit {
      ForceTrimKeepsShape(ms[k - 1 := TrimOne(ms[k - 1], Chars(ms), limit)], limit, k - 1);
    }
  }

  /** Tool results from position `k` on are no longer than what a forced cut leaves. */
  ghost predicate ShortFrom(ms: seq<Message>, k: nat) {
    forall i | k <= i < |ms| && ms[i].role.Tool? :: |TextOf(ms[i])| <= KEEP_AT_LEAST + CUT_CHARS
  }

  lemma {:induction false} CharsAfterUpdate(ms: seq<Message>, i: nat, m: Message)
    requires i < |ms|
    ensures Chars(ms[i := m]) == Chars(ms) - MessageChars(ms[i]) + MessageChars(m)
  {
    hide MessageChars;
    if i == 0 {
      assert ms[i := m][1..] == ms[1..];
    } else {
      CharsAfterUpdate(ms[1..], i - 1, m);
      assert ms[i := m][1..] == ms[1..][i - 1 := m];
    }
  }

  /** Cutting one result either makes the whole list fit or leaves that result short. */
  lemma TrimOneFitsOrIsShort(m: Message, total: nat, limit: int)
    requires m.role.Tool? && MessageChars(m) <= total && total > limit
    ensures var r := TrimOne(m, total, limit);
      total - MessageChars(m) + MessageChars(r) <= limit || |TextOf(r)| <= KEEP_AT_LEAST + CUT_CHARS
  {
    hide Cut;
  }

  lemma {:induction false} ForceTrimFitsOrIsShort(ms: seq<Message>, limit: int, k: nat)
    requires k <= |ms| && ShortFrom(ms, k)
    ensures var r := ForceTrim(ms, limit, k); Chars(r) <= limit || ShortFrom(r, 0)
    decreases k
  {
    hide Chars;
    hide TrimOne;
    hide TextOf;
    if k > 0 && Chars(ms) > limit {
      var total := Chars(ms);
      var next := TrimOne(ms[k - 1], total, limit);
      var after := ms[k - 1 := next];
      CharsAfterUpdate(ms, k - 1, next);
      PartOfChars(ms, k - 1);
      if ms[k - 1].role.Tool? { TrimOneFitsOrIsShort(ms[k - 1], total, limit); }
      TrimOneKeepsRole(ms[k - 1], total, limit);
      if Chars(after) > limit { ForceTrimFitsOrIsShort(after, limit, k - 1); }
    }
  }

  lemma TrimOneKeepsRole(m: Message, total: nat, limit: int)
    ensures TrimOne(m, total, limit).role == m.role
  {
  }

  lemma {:induction false} PartOfChars(ms: seq<Message>, i: nat)
    requires i < |ms|
    ensures MessageChars(ms[i]) <= Chars(ms)
  {
    if i > 0 { PartOfChars(ms[1..], i - 1); }
  }

  /** A forced cut gives up what the list is over its limit and the length of the note, but leaves 80. */
  lemma TrimOneCuts(m: Message, total: nat, limit: int)
    requires m.role.Tool? && total > limit
    ensures var text, r := TextOf(m), TrimOne(m, total, limit);
      var keep := Max(80, |text| - (total - limit) - 57);
      if keep >= |text| then r == m
      else r == m.(content := Text(TextOf(r))) && IsCut(text, keep, RESULT_CUT, TextOf(r))
  {
    hide IsCut;
    hide RStrip;
    var text := TextOf(m);
    var keep: nat := Max(KEEP_AT_LEAST, |text| - (total - limit) - CUT_CHARS);
    if keep < |text| { RStripIsCut(text, keep, RESULT_CUT); }
  }

  /** When the cut came to position `j`, the list was still too long, and `j` was cut for it. */
  ghost predicate CutAt(ms: seq<Message>, r: seq<Message>, limit: int, j: nat)
    requires j < |ms| == |r|
  {
    var met := ms[..j + 1] + r[j + 1..];
    Chars(met) > limit && r[j] == TrimOne(ms[j], Chars(met), limit)
  }

  lemma CutElsewhere(ms: seq<Message>, next: seq<Message>, r: seq<Message>, limit: int, j: nat)
    requires |ms| == |next| == |r| && j < |ms| && ms[..j + 1] == next[..j + 1] && CutAt(next, r, limit, j)
    ensures CutAt(ms, r, limit, j)
  {
    hide Chars;
    hide TrimOne;
    assert ms[j] == ms[..j + 1][j] == next[j];
  }

  /** Results are cut from the last one backwards, each for what the list then costs, and none any
      more once the list fits. */
  lemma {:induction false} ForceTrimFromBack(ms: seq<Message>, limit: int, k: nat) returns (i: nat)
    requires k <= |ms|
    ensures i <= k
    ensures var r := ForceTrim(ms, limit, k);
      && r[..i] == ms[..i] && r[k..] == ms[k..]
      && (i > 0 ==> Chars(r) <= limit)
      && forall j | i <= j < k :: CutAt(ms, r, limit, j)
    decreases k
  {
    hide Chars;
    hide TrimOne;
    hide CutAt;
    i := k;
    if k > 0 && Chars(ms) > limit {
      var last, next := LastCut(ms, limit, k);
      var r := ForceTrim(next, limit, last);
      i := ForceTrimFromBack(next, limit, last);
      FromBackStep(ms, next, r, limit, last);
      assert r[..i] == ms[..i];
      forall j | i <= j < last ensures CutAt(ms, r, limit, j) {
        assert ms[..j + 1] == next[..j + 1];
        CutElsewhere(ms, next, r, limit, j);
      }
    }
  }

  lemma LastCut(ms: seq<Message>, limit: int, k: nat) returns (last: nat, next: seq<Message>)
    requires 0 < k <= |ms| && Chars(ms) > limit
    ensures last == k - 1 && |next| == |ms| && next == ms[last := TrimOne(ms[last], Chars(ms), limit)]
    ensures ForceTrim(ms, limit, k) == ForceTrim(next, limit, last)
  {
    hide Chars;
    hide TrimOne;
    last := k - 1;
    next := ms[last := TrimOne(ms[last], Chars(ms), limit)];
  }

  lemma FromBackStep(ms: seq<Message>, next: seq<Message>, r: seq<Message>, limit: int, last: nat)
    requires last < |ms| == |r| && Chars(ms) > limit
    requires next == ms[last := TrimOne(ms[last], Chars(ms), limit)] && r[last..] == next[last..]
    ensures r[last + 1..] == ms[last + 1..] && CutAt(ms, r, limit, last)
  {
    hide Chars;
    hide TrimOne;
    assert r[last] == r[last..][0] == next[last..][0];
    assert r[last + 1..] == r[last..][1..] == next[last..][1..] == ms[last + 1..];
    assert ms[..last + 1] + r[last + 1..] == ms;
  }

  /** A forced cut lengthens a result exactly when its text has more than 80 characters, but what is
      charged for it is less than the first 80 without trailing blanks and the note together. */
  lemma ForcedCutLengthensIff(m: Message, total: nat, limit: int)
    requires m.role.Tool? && limit < total
    ensures MessageChars(TrimOne(m, total, limit)) > MessageChars(m)
      <==> |TextOf(m)| > KEEP_AT_LEAST
           && ContentChars(m) < |RStrip(Prefix(TextOf(m), KEEP_AT_LEAST))| + CUT_CHARS
  {
    var text := TextOf(m);
    var keep: nat := Max(KEEP_AT_LEAST, |text| - (total - limit) - CUT_CHARS);
    if keep < |text| {
      assert |Cut(text, keep)| == |RStrip(text[..keep])| + CUT_CHARS;
      assert keep > KEEP_AT_LEAST ==> keep + CUT_CHARS < |text|;
    }
  }

  /** So 81 letters become 137 characters. */
  lemma ForcedCutMayLengthen(total: nat, limit: int)
    requires limit < total
    ensures var m := Plain(Tool, seq(81, _ => 'x'));
      MessageChars(m) == 85 && MessageChars(TrimOne(m, total, limit)) > 85
  {
    var m := Plain(Tool, seq(81, _ => 'x'));
    ForcedCutLengthensIff(m, total, limit);
    assert !IsSpace(m.content.text[KEEP_AT_LEAST - 1]);
    assert RStrip(m.content.text[..KEEP_AT_LEAST]) == m.content.text[..KEEP_AT_LEAST];
  }

  // ----- the active turn's budget -----

  /** `_compact_active_tail`. */
  function CompactActive(ms: seq<Message>, limit: int): seq<Message> {
    if ms == [] || Chars(ms) <= limit then ms
    else if LastCall(ms) < 0 then TailTrim(ms, limit)
    else
      var rendered := CompactedTail(ms, limit);
      if Chars(rendered) > limit then ForceTrim(rendered, limit, |rendered|) else rendered
  }

  function CompactedTail(ms: seq<Message>, limit: int): seq<Message>
    requires ms != [] && LastCall(ms) >= 0
  {
    var first, latest := FirstUser(ms), LastCall(ms);
    var prefix, candidates := ms[..first + 1], if first + 1 <= latest then ms[first + 1..latest] else [];
    var front := WithSummary(prefix, candidates, Max(120, Min(limit / 3, limit - Chars(prefix))));
    front + CompactGroup(ms[latest..], Max(200, limit - Chars(front)))
  }

  /** `budget_active_turn`: the messages rendered. */
  function BudgetActive(ms: seq<Message>, enabled: bool, rule: Option<Rule>): seq<Message> {
    if rule.None? || !enabled then ms
    else
      var working := Compressed(ms, rule.value);
      if Chars(working) <= Target(rule.value) then working
      else
        var rendered := ReduceActive(working, rule.value.summaryChars).0;
        var limit := EffectiveTarget(rule.value, Chars(ms));
        if Chars(rendered) > limit then CompactActive(rendered, limit) else rendered
  }

  /** The calls made last are still the last ones, each followed by results with the same ids. */
  ghost predicate KeepsLastGroup(ms: seq<Message>, r: seq<Message>) {
    var n := |ms| - LastCall(ms);
    LastCall(ms) >= 0 ==>
      n <= |r| && LastCall(r) == |r| - n && SameShape(ms[LastCall(ms)..], r[|r| - n..])
  }

  lemma SameShapeIsTransitive(a: seq<Message>, b: seq<Message>, c: seq<Message>)
    requires SameShape(a, b) && SameShape(b, c)
    ensures SameShape(a, c)
  {
  }

  lemma SameShapeKeepsActive(ms: seq<Message>, r: seq<Message>)
    requires ActiveShape(ms) && SameShape(ms, r)
    ensures ActiveShape(r) && LastCall(r) == LastCall(ms) && KeepsLastGroup(ms, r)
  {
    hide Legal;
    SameShapeSameLegal(ms, r);
    forall m | m in r ensures m.calls != [] ==> m.role.Assistant? {
      var i :| 0 <= i < |r| && r[i] == m;
      assert ms[i] in ms;
    }
    SameLastCall(ms, r);
  }

  lemma {:induction false} SameLastCall(a: seq<Message>, b: seq<Message>)
    requires SameShape(a, b)
    ensures LastCall(a) == LastCall(b)
  {
    if a != [] && a[|a| - 1].calls == [] { SameLastCall(a[..|a| - 1], b[..|a| - 1]); }
  }

  lemma KeepsLastGroupIsReflexive(ms: seq<Message>)
    requires ActiveShape(ms)
    ensures KeepsLastGroup(ms, ms)
  {
    SameShapeKeepsActive(ms, ms);
  }

  lemma KeepsLastGroupIsTransitive(a: seq<Message>, b: seq<Message>, c: seq<Message>)
    requires KeepsLastGroup(a, b) && KeepsLastGroup(b, c)
    ensures KeepsLastGroup(a, c)
  {
    if LastCall(a) >= 0 {
      var n := |a| - LastCall(a);
      SameShapeIsTransitive(a[LastCall(a)..], b[|b| - n..], c[|c| - n..]);
    }
  }

  lemma CompactedTailKeepsLastGroup(ms: seq<Message>, limit: int)
    requires ActiveShape(ms) && LastCall(ms) >= 0
    ensures ActiveShape(CompactedTail(ms, limit)) && KeepsLastGroup(ms, CompactedTail(ms, limit))
  {
    hide Legal;
    hide ActiveSummary;
    hide CompactGroup;
    hide Chars;
    OpeningIsLegal(ms);
    var latest := LastCall(ms);
    assert latest > 0;
    var maxChars := Max(120, Min(limit / 3, limit - Chars(ms[..1])));
    var front := WithSummary(ms[..1], ms[1..latest], maxChars);
    WithSummaryIsLegal(ms[..1], ms[1..latest], maxChars);
    NoCallsInSummary(ms[..1], ms[1..latest], maxChars);
    LastGroupIsLegal(ms);
    var group := CompactGroup(ms[latest..], Max(200, limit - Chars(front)));
    CompactGroupKeepsShape(ms[latest..], Max(200, limit - Chars(front)));
    SameShapeSameLegal(ms[latest..], group);
    LegalConcat(front, group);
    var r := front + group;
    assert r == CompactedTail(ms, limit);
    assert r[|front|..] == group;
    GroupCallsComeFromAssistants(ms, latest, front, group);
    LastCallIs(r, |front|);
  }

  lemma GroupCallsComeFromAssistants(ms: seq<Message>, i: nat, front: seq<Message>, group: seq<Message>)
    requires i < |ms| && CallsComeFromAssistants(ms) && CallsComeFromAssistants(front)
    requires SameShape(ms[i..], group)
    ensures CallsComeFromAssistants(front + group)
  {
    forall m | m in front + group ensures m.calls != [] ==> m.role.Assistant? {
      if m !in front {
        var k :| 0 <= k < |group| && group[k] == m;
        assert ms[i..][k] in ms;
      }
    }
  }

  lemma CompactActiveKeepsLastGroup(ms: seq<Message>, limit: int)
    requires ActiveShape(ms)
    ensures Legal(CompactActive(ms, limit))
    ensures KeepsLastGroup(ms, CompactActive(ms, limit))
    ensures LastCall(ms) >= 0 ==> ActiveShape(CompactActive(ms, limit))
  {
    hide Legal;
    hide CompactedTail;
    hide ForceTrim;
    hide TailTrim;
    hide Chars;
    if LastCall(ms) < 0 {
      TailTrimIsLegal(ms, limit);
    } else {
      var tail := CompactedTail(ms, limit);
      CompactedTailKeepsLastGroup(ms, limit);
      ForceTrimKeepsShape(tail, limit, |tail|);
      SameShapeKeepsActive(tail, ForceTrim(tail, limit, |tail|));
      KeepsLastGroupIsTransitive(ms, tail, ForceTrim(tail, limit, |tail|));
      SameShapeKeepsActive(ms, ms);
    }
  }

  lemma CompactedTailIs(ms: seq<Message>, limit: int)
    requires ActiveShape(ms) && LastCall(ms) >= 0
    ensures var front := WithSummary(ms[..1], ms[1..LastCall(ms)], Max(120, Min(limit / 3, limit - Chars(ms[..1]))));
      CompactedTail(ms, limit) == front + CompactGroup(ms[LastCall(ms)..], Max(200, limit - Chars(front)))
  {
    hide ActiveShape;
    hide WithSummary;
    hide Chars;
    hide CompactGroup;
    SummaryStopsBehindOpening(ms);
  }

  /** A turn that is too large keeps the request that opened it; the steps up to the last calls give
      way to one summary, of at most a third of the limit if that is 120 or more; the last group stays
      message by message but for the texts of its results. */
  lemma CompactActivePartitions(ms: seq<Message>, limit: int)
    requires ActiveShape(ms) && LastCall(ms) >= 0 && Chars(ms) > limit
    ensures var latest := LastCall(ms);
      var r := CompactActive(ms, limit);
      var k := if latest == 1 then 0 else 1;
      && 1 <= latest && |r| == 1 + k + |ms| - latest && r[0] == ms[0]
      && StandsFor(r[1..1 + k], ms[1..latest], Max(120, Min(limit / 3, limit - MessageChars(ms[0]))))
      && SameShape(ms[latest..], r[1 + k..])
  {
    hide *;
    SummaryStopsBehindOpening(ms);
    CompactActiveIs(ms, limit);
    var latest, r := LastCall(ms), CompactActive(ms, limit);
    var room := Max(120, Min(limit / 3, limit - MessageChars(ms[0])));
    assert latest == SummaryStop(ms) by { StopIsLastCall(ms); }
    CharsOfOpening(ms);
    var k := if latest == 1 then 0 else 1;
    var front := WithSummary(ms[..1], ms[1..latest], room);
    var group := CompactGroup(ms[latest..], Max(200, limit - Chars(front)));
    CompactedTailIs(ms, limit);
    var tail := CompactedTail(ms, limit);
    WithSummaryStands(ms[..1], ms[1..latest], room);
    CompactGroupKeepsShape(ms[latest..], Max(200, limit - Chars(front)));
    NoToolInFront(ms, room);
    ForceTrimKeepsShape(tail, limit, |tail|);
    SameShapeIsReflexive(tail);
    SplitShape(front, group, r);
    SameShapeIsTransitive(ms[latest..], group, r[1 + k..]);
    assert r[1..1 + k] == front[1..];
  }

  lemma StopIsLastCall(ms: seq<Message>)
    requires LastCall(ms) >= 0
    ensures SummaryStop(ms) == LastCall(ms)
  {
  }

  lemma CharsOfOpening(ms: seq<Message>)
    requires ms != []
    ensures Chars(ms[..1]) == MessageChars(ms[0])
  {
    hide MessageChars;
    assert ms[..1] == [ms[0]] && [ms[0]][1..] == [];
  }

  lemma CompactActiveIs(ms: seq<Message>, limit: int)
    requires ms != [] && LastCall(ms) >= 0 && Chars(ms) > limit
    ensures var tail := CompactedTail(ms, limit);
      CompactActive(ms, limit) == if Chars(tail) > limit then ForceTrim(tail, limit, |tail|) else tail
  {
    hide CompactedTail;
    hide ForceTrim;
    hide Chars;
  }

  lemma NoToolInFront(ms: seq<Message>, maxChars: int)
    requires ActiveShape(ms) && LastCall(ms) >= 0
    ensures var front := WithSummary(ms[..1], ms[1..SummaryStop(ms)], maxChars);
      forall i | 0 <= i < |front| :: !front[i].role.Tool?
  {
    hide ActiveShape;
    hide ActiveSummary;
    SummaryStopsBehindOpening(ms);
    SummaryIsUsers(ms[1..SummaryStop(ms)], maxChars);
    assert ms[..1] == [ms[0]];
    OpenedByUser(ms);
  }

  lemma OpenedByUser(ms: seq<Message>)
    requires ActiveShape(ms)
    ensures ms != [] && ms[0].role.User?
  {
  }

  lemma SummaryIsUsers(ms: seq<Message>, maxChars: int)
    ensures ActiveSummary(ms, maxChars).role.User?
  {
    hide SummaryContent;
  }

  lemma SameShapeIsReflexive(ms: seq<Message>)
    ensures SameShape(ms, ms)
  {
  }

  /** What has the shape of a list without results at its front has that front. */
  lemma SplitShape(front: seq<Message>, back: seq<Message>, r: seq<Message>)
    requires SameShape(front + back, r)
    requires forall i | 0 <= i < |front| :: !front[i].role.Tool?
    ensures |r| == |front| + |back| && r[..|front|] == front && SameShape(back, r[|front|..])
  {
    var whole := front + back;
    forall i | 0 <= i < |front| ensures r[i] == front[i] { assert whole[i] == front[i]; }
    forall i | 0 <= i < |back| ensures whole[|front| + i] == back[i] {}
  }

  /** A compacted turn with calls fits its limit, or every result in it is down to a forced cut. */
  lemma CompactActiveCost(ms: seq<Message>, limit: int)
    ensures var r := CompactActive(ms, limit);
      if ms != [] && LastCall(ms) >= 0 then Chars(r) <= limit || ShortFrom(r, 0)
      else ms == [] || Chars(r) <= Max(limit, MARKER_CHARS + 1) + 4
  {
    hide CompactedTail;
    hide ForceTrim;
    hide TailTrim;
    if ms != [] && Chars(ms) > limit {
      if LastCall(ms) < 0 {
        TailTrimCost(ms, limit);
      } else {
        var tail := CompactedTail(ms, limit);
        ForceTrimFitsOrIsShort(tail, limit, |tail|);
      }
    }
  }

  lemma ReducedKeepsLastGroup(ms: seq<Message>, maxChars: int)
    requires ActiveShape(ms)
    ensures ActiveShape(ReduceActive(ms, maxChars).0) && KeepsLastGroup(ms, ReduceActive(ms, maxChars).0)
  {
    hide Legal;
    hide ReduceActive;
    ReduceActiveKeepsLastGroup(ms, maxChars);
  }

  lemma CompressedKeepsLastGroup(ms: seq<Message>, rule: Rule)
    requires ActiveShape(ms)
    ensures ActiveShape(Compressed(ms, rule)) && KeepsLastGroup(ms, Compressed(ms, rule))
  {
    hide Compressed;
    CompressedKeepsShape(ms, rule);
    SameShapeKeepsActive(ms, Compressed(ms, rule));
  }

  /** Budgeting the active turn keeps the protocol and the calls in flight. */
  lemma BudgetActiveKeepsLastGroup(ms: seq<Message>, enabled: bool, rule: Option<Rule>)
    requires ActiveShape(ms)
    ensures Legal(BudgetActive(ms, enabled, rule))
    ensures KeepsLastGroup(ms, BudgetActive(ms, enabled, rule))
  {
    hide Legal;
    hide Compressed;
    hide ReduceActive;
    hide CompactActive;
    hide Chars;
    hide KeepsLastGroup;
    KeepsLastGroupIsReflexive(ms);
    if rule.Some? && enabled {
      var working := Compressed(ms, rule.value);
      CompressedKeepsLastGroup(ms, rule.value);
      var rendered := ReduceActive(working, rule.value.summaryChars).0;
      ReducedKeepsLastGroup(working, rule.value.summaryChars);
      KeepsLastGroupIsTransitive(ms, working, rendered);
      var limit := EffectiveTarget(rule.value, Chars(ms));
      CompactActiveKeepsLastGroup(rendered, limit);
      KeepsLastGroupIsTransitive(ms, rendered, CompactActive(rendered, limit));
    }
  }

  /** A turn is left alone without a budget.  Else old results are replaced, and if that is not enough
      the earlier steps are summarised, and if that is not enough the rest is cut. */
  lemma BudgetActiveSteps(ms: seq<Message>, enabled: bool, rule: Option<Rule>)
    ensures rule.None? || !enabled ==> BudgetActive(ms, enabled, rule) == ms
    ensures rule.Some? && enabled ==>
      var working := Compressed(ms, rule.value);
      var reduced := ReduceActive(working, rule.value.summaryChars).0;
      var limit := Max(Max(1, rule.value.budgetChars), Min(Max(0, rule.value.floorChars), Chars(ms)));
      BudgetActive(ms, enabled, rule) ==
        if Chars(working) <= Max(1, rule.value.budgetChars) then working
        else if Chars(reduced) <= limit then reduced
        else CompactActive(reduced, limit)
  {
    hide Compressed;
    hide ReduceActive;
    hide CompactActive;
    hide Chars;
  }

  /** Whatever it takes to bring a turn with calls into its budget, the request that opened it stays, at
      most one message of the user stands for the steps before the last calls, and these stay with
      their results. */
  lemma BudgetActivePartitions(ms: seq<Message>, rule: Rule)
    requires ActiveShape(ms) && LastCall(ms) >= 0
    requires Chars(Compressed(ms, rule)) > Max(1, rule.budgetChars)
    ensures var latest := LastCall(ms);
      var r := BudgetActive(ms, true, Some(rule));
      var k := if latest == 1 then 0 else 1;
      && 1 <= latest && |r| == 1 + k + |ms| - latest && r[0] == ms[0]
      && (k == 1 ==> r[1].role.User? && r[1].calls == [])
      && SameShape(ms[latest..], r[1 + k..])
  {
    hide *;
    BudgetActiveSteps(ms, true, Some(rule));
    var working := Compressed(ms, rule);
    var limit := Max(Max(1, rule.budgetChars), Min(Max(0, rule.floorChars), Chars(ms)));
    var latest := LastCall(ms);
    var k := if latest == 1 then 0 else 1;
    CompressedKeepsShape(ms, rule);
    SameShapeKeepsActive(ms, working);
    ReduceActivePartitions(working, rule.summaryChars);
    var reduced := ReduceActive(working, rule.summaryChars).0;
    ShapeOfParts(ms, working, latest);
    Summarised(reduced[1..1 + k], working[1..latest], rule.summaryChars);
    assert reduced[1 + k..] == working[latest..];
    if Chars(reduced) > limit {
      ReduceActiveKeepsLastGroup(working, rule.summaryChars);
      assert LastCall(reduced) == 1 + k;
      CompactActivePartitions(reduced, limit);
      var r := CompactActive(reduced, limit);
      Summarised(r[1..1 + k], reduced[1..1 + k], Max(120, Min(limit / 3, limit - MessageChars(reduced[0]))));
      SameShapeIsTransitive(ms[latest..], working[latest..], r[1 + k..]);
    }
  }

  lemma ShapeOfParts(a: seq<Message>, b: seq<Message>, i: nat)
    requires ActiveShape(a) && SameShape(a, b) && i <= |a|
    ensures a[0] == b[0] && SameShape(a[i..], b[i..])
  {
    hide Legal;
  }

  lemma Summarised(summary: seq<Message>, gone: seq<Message>, maxChars: int)
    requires StandsFor(summary, gone, maxChars)
    ensures gone != [] ==> |summary| == 1 && summary[0].role.User? && summary[0].calls == []
  {
    hide GroupTurns;
    hide Decimal;
  }

  /** Size of a budgeted turn with calls: within the effective target, or cut as far as it goes. */
  lemma BudgetActiveCost(ms: seq<Message>, rule: Rule)
    requires ActiveShape(ms) && LastCall(ms) >= 0
    ensures var r := BudgetActive(ms, true, Some(rule));
      Chars(r) <= EffectiveTarget(rule, Chars(ms)) || ShortFrom(r, 0)
  {
    hide Legal;
    hide Compressed;
    hide ReduceActive;
    hide CompactActive;
    hide Chars;
    hide ShortFrom;
    var working := Compressed(ms, rule);
    CompressedKeepsLastGroup(ms, rule);
    ReducedKeepsLastGroup(working, rule.summaryChars);
    CompactActiveCost(ReduceActive(working, rule.summaryChars).0, EffectiveTarget(rule, Chars(ms)));
  }
}
