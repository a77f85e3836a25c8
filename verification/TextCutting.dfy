/** What cutting texts does to the tool-call protocol.  The emergency trim removes single messages
    when no selection of turns fits, so it can tear a group of calls and results apart. */
module TextCutting {
  import opened Messages
  import opened PyText
  import opened Turns
  import opened TokenEstimator

  function Without(ms: seq<Message>, i: nat): seq<Message>
    requires i < |ms|
  {
    ms[..i] + ms[i + 1..]
  }

  // ----- results that are spare -----

  /** Results `i` and `j` of the calls at `h` carry the same id. */
  ghost predicate AreTwins(ms: seq<Message>, h: int, i: int, j: int) {
    Answers(ms, h, i) && Answers(ms, h, j) && j != i && ms[j].resultId == ms[i].resultId
  }

  /** The group result `i` belongs to has another result with the same id. */
  ghost predicate IsSpare(ms: seq<Message>, i: int) {
    exists h, j :: AreTwins(ms, h, i, j)
  }

  /** The same for a result in the first block. */
  ghost predicate IsSpareBefore(ms: seq<Message>, i: int, n: nat)
    requires 0 <= i < n <= |ms|
  {
    exists j | 0 < j < n :: j != i && ms[j].resultId == ms[i].resultId
  }

  /** Every result in the first block answers its head. */
  lemma BlockAnswers(ms: seq<Message>, i: nat)
    requires ms != [] && 0 < i < Block(ms)
    ensures Answers(ms, 0, i)
  {
    var ids := Ids(ms[0]);
    forall k | 0 < k < i + 1 ensures ms[k].role.Tool? && ms[k].resultId in ids {
      BlockIsHeadAndResults(ms, k);
    }
    RunStaysOpen(ms[1..], ids, {}, i - 1);
    assert ms[1..][..i - 1] == ms[1..i];
  }

  lemma NoCallsInside(ms: seq<Message>, h: nat)
    requires ms != [] && CallsComeFromAssistants(ms) && 0 < h < Block(ms)
    ensures Ids(ms[h]) == {}
  {
    hide Block;
    BlockIsHeadAndResults(ms, h);
    assert ms[h] in ms;
  }

  lemma AnswersSameBlock(ms: seq<Message>, h: int, i: int)
    requires ms != [] && CallsComeFromAssistants(ms) && Answers(ms, h, i)
    ensures 0 < i < Block(ms) ==> h == 0
    ensures h == 0 && Block(ms) > 0 ==> i < Block(ms)
  {
    hide Block;
    if 0 < h < Block(ms) { NoCallsInside(ms, h); }
    if 0 < Block(ms) <= i { OwnerComesLater(ms, h, i); }
  }

  lemma SpareInFirstBlock(ms: seq<Message>, i: nat)
    requires ms != [] && CallsComeFromAssistants(ms) && 0 < i < Block(ms)
    ensures IsSpare(ms, i) <==> IsSpareBefore(ms, i, Block(ms))
  {
    hide Block;
    if IsSpare(ms, i) {
      var h, j :| AreTwins(ms, h, i, j);
      AnswersSameBlock(ms, h, i);
      AnswersSameBlock(ms, h, j);
    }
    if j :| 0 < j < Block(ms) && j != i && ms[j].resultId == ms[i].resultId {
      BlockAnswers(ms, i);
      BlockAnswers(ms, j);
      assert AreTwins(ms, 0, i, j);
    }
  }

  lemma TwinsShift(ms: seq<Message>, n: nat, h: int, i: int, j: int)
    requires n <= h && n <= |ms|
    ensures AreTwins(ms, h, i, j) <==> AreTwins(ms[n..], h - n, i - n, j - n)
  {
    assert ms[n..] == ms[n..|ms|];
    if h < i < |ms| && h < j < |ms| {
      AnswersInStretch(ms, n, |ms|, h, i);
      AnswersInStretch(ms, n, |ms|, h, j);
    }
  }

  lemma TwinsAnswer(ms: seq<Message>, h: int, i: int, j: int)
    requires AreTwins(ms, h, i, j)
    ensures Answers(ms, h, i)
  {
  }

  lemma SpareLater(ms: seq<Message>, i: nat)
    requires ms != [] && CallsComeFromAssistants(ms) && 0 < Block(ms) <= i < |ms|
    ensures IsSpare(ms, i) <==> IsSpare(ms[Block(ms)..], i - Block(ms))
  {
    hide Block;
    hide AreTwins;
    hide Answers;
    var n := Block(ms);
    var rest, k := ms[n..], i - n;
    if IsSpare(ms, i) {
      var h: int, j: int :| AreTwins(ms, h, i, j);
      TwinsAnswer(ms, h, i, j);
      OwnerComesLater(ms, h, i);
      TwinsShift(ms, n, h, i, j);
      assert AreTwins(rest, h - n, k, j - n);
    }
    if IsSpare(rest, k) {
      var h: int, j: int :| AreTwins(rest, h, k, j);
      TwinsAnswer(rest, h, k, j);
      AnswersIsWithin(rest, h, k);
      TwinsShift(ms, n, h + n, i, j + n);
      assert AreTwins(ms, h + n, i, j + n);
    }
  }

  // ----- removing one message -----

  /** A legal transcript does not start with a result. */
  lemma LegalStart(ms: seq<Message>)
    requires ms != [] && Legal(ms) && CallsComeFromAssistants(ms)
    ensures !ms[0].role.Tool?
  {
    assert ms[0] in ms;
  }

  lemma {:induction false} SeenMembers(ms: seq<Message>, x: string)
    ensures x in Seen(ms) <==> exists k :: 0 <= k < |ms| && ms[k].resultId == x
  {
    if ms != [] {
      SeenMembers(ms[1..], x);
      if x == ms[0].resultId { assert ms[0].resultId == x; }
      if k :| 0 <= k < |ms[1..]| && ms[1..][k].resultId == x { assert ms[k + 1].resultId == x; }
      if k :| 0 < k < |ms| && ms[k].resultId == x { assert ms[1..][k - 1].resultId == x; }
    }
  }

  /** Without its only result for some id a group is no longer answered. */
  lemma OnlyResultRemoved(ms: seq<Message>, i: nat)
    requires ms != [] && Legal(ms) && CallsComeFromAssistants(ms) && 0 < i < Block(ms)
    requires !IsSpareBefore(ms, i, Block(ms))
    ensures Block(Without(ms, i)) == 0
  {
    var n, less, ids, x := Block(ms), Without(ms, i), Ids(ms[0]), ms[i].resultId;
    BlockIsHeadAndResults(ms, i);
    var run := ResultRun(less[1..], ids, {});
    RunStopsBeforeRest(ms, i);
    var seen := less[1..1 + run];
    forall k | 0 <= k < run ensures seen[k].resultId != x {
      var j := if k + 1 < i then k + 1 else k + 2;
      assert seen[k] == ms[j];
    }
    SeenMembers(seen, x);
    assert less[0] == ms[0];
  }

  /** What follows the first block is no result, so the scan does not get there. */
  lemma RunStopsBeforeRest(ms: seq<Message>, i: nat)
    requires ms != [] && Legal(ms) && CallsComeFromAssistants(ms) && 0 < i < Block(ms)
    ensures ResultRun(Without(ms, i)[1..], Ids(ms[0]), {}) <= Block(ms) - 2
  {
    hide ResultRun;
    var n, less := Block(ms), Without(ms, i);
    if n < |ms| {
      assert less[1..][n - 2] == ms[n] == ms[n..][0];
      assert forall m | m in ms[n..] :: m in ms;
      LegalStart(ms[n..]);
    }
    if n - 2 < ResultRun(less[1..], Ids(ms[0]), {}) {
      RunIsResults(less[1..], Ids(ms[0]), {}, n - 2);
    }
  }

  lemma GroupBlock(ms: seq<Message>)
    requires ms != [] && ms[0].calls != [] && Ids(ms[0]) != {}
    ensures var n := ResultRun(ms[1..], Ids(ms[0]), {});
      Block(ms) == if Seen(ms[1..1 + n]) == Ids(ms[0]) then 1 + n else 0
  {
  }

  lemma BlockSees(ms: seq<Message>)
    requires ms != [] && Block(ms) > 1
    ensures ms[0].calls != [] && Ids(ms[0]) != {} && Seen(ms[1..Block(ms)]) == Ids(ms[0])
  {
  }

  /** Without a result another one repeats a group is still answered, by the rest. */
  lemma SpareResultRemoved(ms: seq<Message>, i: nat)
    requires ms != [] && CallsComeFromAssistants(ms) && 0 < i < Block(ms)
    requires IsSpareBefore(ms, i, Block(ms))
    ensures Block(Without(ms, i)) == Block(ms) - 1
  {
    hide Block;
    hide ResultRun;
    hide Seen;
    hide IsSpareBefore;
    var n, less, ids := Block(ms), Without(ms, i), Ids(ms[0]);
    BlockSees(ms);
    SameIdsSeen(ms, i, n);
    OthersAreResults(ms, i);
    var tail := less[1..];
    assert tail[..n - 2] == less[1..n - 1] && less[0] == ms[0];
    assert {} + Seen(tail[..n - 2]) == Seen(tail[..n - 2]);
    RunReaches(tail, ids, {}, n - 2);
    var run := ResultRun(tail, ids, {});
    assert {} + Seen(tail[..run]) == Seen(tail[..run]);
    if run < n - 2 { NotYetComplete(ms, i, run); }
    GroupBlock(less);
    assert tail[..run] == less[1..1 + run];
  }

  lemma OthersAreResults(ms: seq<Message>, i: nat)
    requires ms != [] && 0 < i < Block(ms)
    ensures forall k | 0 <= k < Block(ms) - 2 ::
      Without(ms, i)[1..][k].role.Tool? && Without(ms, i)[1..][k].resultId in Ids(ms[0])
  {
    hide Block;
    var tail := Without(ms, i)[1..];
    forall k | 0 <= k < Block(ms) - 2 ensures tail[k].role.Tool? && tail[k].resultId in Ids(ms[0]) {
      var j := if k + 1 < i then k + 1 else k + 2;
      BlockIsHeadAndResults(ms, j);
      assert tail[k] == ms[j];
    }
  }

  /** The ids answered by the first block do not change with the spare result gone. */
  lemma SameIdsSeen(ms: seq<Message>, i: nat, n: nat)
    requires 0 < i < n <= |ms| && IsSpareBefore(ms, i, n)
    ensures Seen(Without(ms, i)[1..n - 1]) == Seen(ms[1..n])
  {
    hide Seen;
    var a, b, x := ms[1..i], ms[i + 1..n], ms[i].resultId;
    var j :| 0 < j < n && j != i && ms[j].resultId == x;
    SeenMembers(a, x);
    SeenMembers(b, x);
    if j < i { assert a[j - 1].resultId == x; } else { assert b[j - i - 1].resultId == x; }
    assert Without(ms, i)[1..n - 1] == a + b;
    assert ms[1..n] == a + [ms[i]] + b;
    SeenConcat(a, b);
    SeenConcat(a, [ms[i]]);
    SeenConcat(a + [ms[i]], b);
    SeenOne(ms[i]);
  }

  lemma SeenOne(m: Message)
    ensures Seen([m]) == {m.resultId}
  {
    assert [m][1..] == [];
  }

  /** Fewer of the results before the last cannot complete the group. */
  lemma NotYetComplete(ms: seq<Message>, i: nat, run: nat)
    requires ms != [] && 0 < i < Block(ms) && run < Block(ms) - 2
    ensures !(Ids(ms[0]) <= Seen(Without(ms, i)[1..][..run]))
  {
    var n, a := Block(ms), Without(ms, i)[1..][..run];
    RunStaysOpen(ms[1..], Ids(ms[0]), {}, n - 2);
    var b := ms[1..][..n - 2];
    forall x | x in Seen(a) ensures x in Seen(b) {
      SeenMembers(a, x);
      SeenMembers(b, x);
      var k :| 0 <= k < |a| && a[k].resultId == x;
      assert b[if k + 1 < i then k else k + 1] == a[k];
    }
  }

  // ----- one round -----

  /** Neither a result nor a message with calls that have ids. */
  predicate IsPlain(m: Message) {
    !m.role.Tool? && Ids(m) == {}
  }

  /** Removing message `i` does no harm. */
  ghost predicate IsRemovable(ms: seq<Message>, i: nat)
    requires i < |ms|
  {
    IsPlain(ms[i]) || (ms[i].role.Tool? && IsSpare(ms, i))
  }

  /** A message can be removed from a legal transcript exactly when it is plain, or a result with an
      id its group has answered twice. */
  lemma {:induction false} RemovalIsLegalIff(ms: seq<Message>, i: nat)
    requires Legal(ms) && CallsComeFromAssistants(ms) && i < |ms|
    ensures Legal(Without(ms, i)) <==> IsRemovable(ms, i)
    decreases |ms|
  {
    hide IsSpare;
    hide IsSpareBefore;
    hide Block;
    var n, less := Block(ms), Without(ms, i);
    var rest := ms[n..];
    assert forall m | m in rest :: m in ms;
    if i >= n {
      RemovalIsLegalIff(rest, i - n);
      RemovedLater(ms, i);
      assert rest[i - n] == ms[i];
      if ms[i].role.Tool? { SpareLater(ms, i); }
    } else if i == 0 {
      HeadRemoved(ms);
    } else {
      BlockIsHeadAndResults(ms, i);
      SpareInFirstBlock(ms, i);
      if IsSpareBefore(ms, i, n) {
        SpareResultRemoved(ms, i);
        assert less[n - 1..] == rest;
      } else {
        OnlyResultRemoved(ms, i);
      }
    }
  }

  lemma RemovedLater(ms: seq<Message>, i: nat)
    requires Legal(ms) && ms != [] && Block(ms) <= i < |ms|
    ensures Legal(Without(ms, i)) <==> Legal(Without(ms[Block(ms)..], i - Block(ms)))
  {
    hide Block;
    var n := Block(ms);
    var head, tail := ms[..n], Without(ms[n..], i - n);
    assert Without(ms, i) == head + tail;
    BlockIsLocal(ms, n);
    BlockIsStable(head, tail);
    assert (head + tail)[n..] == tail;
  }

  lemma HeadRemoved(ms: seq<Message>)
    requires Legal(ms) && CallsComeFromAssistants(ms) && ms != []
    ensures Legal(Without(ms, 0)) <==> IsRemovable(ms, 0)
  {
    assert ms[0] in ms;
    assert Without(ms, 0) == ms[1..];
    if Block(ms) > 1 {
      BlockSees(ms);
      BlockIsHeadAndResults(ms, 1);
      assert ms[1] in ms;
      assert Block(ms[1..]) == 0;
    }
  }

  /** The message a round works on. */
  function Chosen(ms: seq<Message>): (i: nat)
    requires ms != []
    ensures i < |ms|
  {
    LargestFrom(ms, if |ms| > 1 then 1 else 0)
  }

  /** The round removes it instead of shortening its text. */
  predicate Removes(ms: seq<Message>)
    requires ms != []
  {
    var c := ms[Chosen(ms)].content;
    !c.Text? || (|c.text| < 200 && |ms| > 1)
  }

  lemma ShorteningIsLegal(ms: seq<Message>, i: nat)
    requires Legal(ms) && CallsComeFromAssistants(ms) && i < |ms| && ms[i].content.Text?
    ensures Legal(ms[i := Shorten(ms[i])])
  {
    hide Legal;
    LegalIffProtocol(ms);
    ShortenedIsNotEmpty(ms[i]);
    SameGrammarSameLegal(ms, ms[i := Shorten(ms[i])]);
  }

  lemma ShortenedIsNotEmpty(m: Message)
    requires m.content.Text?
    ensures !IsEmptyAssistant(Shorten(m))
  {
    assert |ShortenText(m.content.text)| >= |CUT_NOTE| > 0;
  }

  /** A round of cutting keeps a legal list legal exactly when it shortens a text, or removes a
      message that may go. */
  lemma RoundIsLegalIff(ms: seq<Message>)
    requires ms != [] && Legal(ms) && CallsComeFromAssistants(ms)
    ensures Legal(TrimStep(ms)) <==> !Removes(ms) || IsRemovable(ms, Chosen(ms))
  {
    hide Legal;
    hide IsRemovable;
    hide Shorten;
    hide LargestFrom;
    var i := Chosen(ms);
    if Removes(ms) {
      RemovalIsLegalIff(ms, i);
    } else {
      ShorteningIsLegal(ms, i);
    }
  }

  // ----- lists without calls -----

  /** No message has calls with ids, so none asks for results. */
  ghost predicate AsksNothing(ms: seq<Message>) {
    forall i | 0 <= i < |ms| :: Ids(ms[i]) == {} && (ms[i].calls != [] ==> ms[i].role.Assistant?)
  }

  lemma {:induction false} NothingAskedNoResults(ms: seq<Message>)
    requires Legal(ms) && AsksNothing(ms)
    ensures forall i | 0 <= i < |ms| :: IsPlain(ms[i])
    decreases |ms|
  {
    if ms != [] {
      NothingAskedNoResults(ms[1..]);
      assert forall i | 0 < i < |ms| :: ms[i] == ms[1..][i - 1];
    }
  }

  lemma AskingNothingIsPlain(ms: seq<Message>)
    requires AsksNothing(ms)
    ensures CallsComeFromAssistants(ms)
  {
  }

  /** Cutting texts keeps the protocol as long as there are no calls to tear from their results. */
  lemma {:induction false} CuttingPlainIsLegal(ms: seq<Message>, n: nat)
    requires Legal(ms) && AsksNothing(ms)
    ensures Legal(TrimRounds(ms, n)) && AsksNothing(TrimRounds(ms, n))
  {
    hide Legal;
    hide TrimStep;
    if n > 0 {
      CuttingPlainIsLegal(ms, n - 1);
      var before := TrimRounds(ms, n - 1);
      if before != [] {
        AskingNothingIsPlain(before);
        NothingAskedNoResults(before);
        RoundIsLegalIff(before);
        StepAsksNothing(before);
      }
    }
  }

  lemma StepAsksNothing(ms: seq<Message>)
    requires ms != [] && AsksNothing(ms)
    ensures AsksNothing(TrimStep(ms))
  {
    hide LargestFrom;
    hide ShortenText;
  }

  // ----- a group torn apart -----

  /** A user message, a call and its result, of which the result is the largest after the first and
      short: when only the first two fit, the result goes and the call stays unanswered. */
  lemma CuttingTearsGroup(u: Message, a: Message, t: Message, maxTokens: int)
    requires u.role.User? && u.calls == [] && a.role.Assistant? && |a.calls| == 1 && a.calls[0].id != ""
    requires t.role.Tool? && t.calls == [] && t.resultId == a.calls[0].id
    requires t.content.Text? && |t.content.text| < 200 && JsonChars(t) > JsonChars(a)
    requires !Fits([u, a, t], maxTokens) && Fits([u, a], maxTokens)
    ensures Legal([u, a, t]) && !Legal([u, a])
    ensures TrimsTo([u, a, t], maxTokens, 1, [u, a])
  {
    var ms := [u, a, t];
    assert LargestFrom(ms, 1) == 2;
    assert ms[..2] + ms[3..] == [u, a];
    assert TrimRounds(ms, 0) == ms && TrimRounds(ms, 1) == TrimStep(ms);
    CallAndResultAreLegal(a, t);
    assert ms[1..] == [a, t] && Block(ms) == 1;
    LoneCallIsIllegal(a);
    assert [u, a][1..] == [a] && Block([u, a]) == 1;
  }

  lemma CallAndResultAreLegal(a: Message, t: Message)
    requires |a.calls| == 1 && a.calls[0].id != ""
    requires t.role.Tool? && t.resultId == a.calls[0].id
    ensures Legal([a, t])
  {
    var ids, ms := Ids(a), [a, t];
    OneId(a);
    assert ms[1..] == [t] && [t][1..] == [];
    assert {} + {t.resultId} == ids && ResultRun(ms[1..], ids, {}) == 1;
    SeenOne(t);
    assert ms[1..2] == [t];
    GroupBlock(ms);
    assert ms[2..] == [];
  }

  lemma OneId(a: Message)
    requires |a.calls| == 1 && a.calls[0].id != ""
    ensures Ids(a) == {a.calls[0].id}
  {
    assert a.calls[0] in a.calls;
  }

  lemma LoneCallIsIllegal(a: Message)
    requires |a.calls| == 1 && a.calls[0].id != ""
    ensures !Legal([a])
  {
    assert a.calls[0].id in Ids(a);
    assert [a][1..] == [] && [a][1..1] == [] && Seen([]) == {};
    assert Block([a]) == 0;
  }

  /** Such messages: a greeting, a call without text and a result of one character. */
  lemma TornGroup()
    ensures
      var u := Plain(User, "hi");
      var a := Plain(Assistant, "").(calls := [ToolCall("c", "read_file")], frame := 90);
      var t := Plain(Tool, "x").(resultId := "c", frame := 100);
      && Legal([u, a, t]) && !Legal([u, a]) && TrimsTo([u, a, t], 50, 1, [u, a])
      && MustCut([u, a, t], 50) && LeastSelection([u, a, t]) == [u, a, t]
  {
    var u := Plain(User, "hi");
    var a := Plain(Assistant, "").(calls := [ToolCall("c", "read_file")], frame := 90);
    var t := Plain(Tool, "x").(resultId := "c", frame := 100);
    Sizes(u, a, t);
    CuttingTearsGroup(u, a, t, 50);
    OneTurn(u, a, t, 50);
  }

  lemma Sizes(u: Message, a: Message, t: Message)
    requires u == Plain(User, "hi")
    requires a == Plain(Assistant, "").(calls := [ToolCall("c", "read_file")], frame := 90)
    requires t == Plain(Tool, "x").(resultId := "c", frame := 100)
    ensures JsonChars(u) == 33 && JsonChars(a) == 90 && JsonChars(t) == 101
    ensures TotalChars([u, a]) == 123 && TotalChars([u, a, t]) == 224
  {
    assert "hi"[1..] == "i" && "i"[1..] == "" && "x"[1..] == "";
    assert [u, a][1..] == [a] && [a][1..] == [] && [u, a, t][1..] == [a, t] && [a, t][1..] == [t] && [t][1..] == [];
    assert TotalChars([a]) == 90 && TotalChars([t]) == 101;
    assert TotalChars([a, t]) == 191;
  }

  /** A single turn is all there is to select. */
  lemma OneTurn(u: Message, a: Message, t: Message, maxTokens: int)
    requires u.role.User? && a.role.Assistant? && t.role.Tool? && !Fits([u, a, t], maxTokens)
    ensures MustCut([u, a, t], maxTokens) && LeastSelection([u, a, t]) == [u, a, t]
  {
    var ms := [u, a, t];
    assert ms[1..] == [a, t] && [a, t][1..] == [t] && [t][1..] == [];
    assert SystemOf([t]) == [] && NonSystemOf([t]) == [t];
    assert SystemOf([a, t]) == [] && NonSystemOf([a, t]) == [a, t];
    assert SystemOf(ms) == [] && NonSystemOf(ms) == ms;
    assert TurnLength([t]) == 1 && TurnLength([a, t]) == 2;
    assert TurnLength(ms) == 3 && ms[3..] == [] && ms[..3] == ms;
    var groups: seq<seq<Message>>, none: seq<seq<Message>> := [ms], [];
    assert GroupTurns(ms) == groups;
    assert groups[..1] == groups && groups[1..] == none;
    assert Flatten(groups) == ms && Flatten(none) == [];
    assert Selection([], groups, |groups|) == ms;
  }
}
