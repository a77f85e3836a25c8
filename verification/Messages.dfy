/** Chat messages and the tool-call protocol every part of the runtime has to respect. */
module Messages {
  import opened PyText

  /** A fixed sentence the runtime writes into a message.  Only that it says something matters. */
  type Wording = s: string | s != "" witness "."

  datatype Role = System | User | Assistant | Tool | Other(name: string)

  /** One entry of an assistant's `tool_calls`; an absent id is the empty string. */
  datatype ToolCall = ToolCall(id: string, name: string)

  /** `content` is absent, a string, or a list of text parts.  `quoting` is what printing
      the list adds to the text of its parts (brackets, quotes, escapes). */
  datatype Content =
    | Missing
    | Text(text: string)
    | Parts(parts: seq<string>, quoting: nat)

  /** `resultId` is `tool_call_id`, `rerun` the rendering of `final_arguments` that a result
      placeholder repeats, `overhead` the rendered size of the charged keys that are not text, and
      `frame` the size of the message as JSON apart from the text itself. */
  datatype Message = Message(
    role: Role,
    content: Content,
    calls: seq<ToolCall>,
    resultId: string,
    status: string,
    rerun: string,
    overhead: nat,
    frame: nat)

  function RoleChars(r: Role): nat {
    match r
    case System => 6
    case User => 4
    case Assistant => 9
    case Tool => 4
    case Other(name) => |name|
  }

  /** A message with a role and a text and nothing else. */
  function Plain(role: Role, text: string): Message {
    Message(role, Text(text), [], "", "", "", 0, 27 + RoleChars(role))
  }

  /** Such a message asks for nothing and answers nothing, and as JSON it is its role, its text and what
      goes around them. */
  lemma PlainIs(role: Role, text: string)
    ensures var m := Plain(role, text);
      && m.role == role && m.content == Text(text) && |m.calls| == 0 && |m.resultId| == 0
      && |m.status| == 0 && |m.rerun| == 0 && m.overhead == 0
      && m.frame == |"{'role': '', 'content': ''}"| + RoleChars(role)
  {
  }

  function Ids(m: Message): set<string> {
    set c | c in m.calls && c.id != "" :: c.id
  }

  function Seen(ms: seq<Message>): set<string> {
    if ms == [] then {} else {ms[0].resultId} + Seen(ms[1..])
  }

  /** Ids are those of the calls, as far as they have one. */
  lemma IdsOfCalls(m: Message, id: string)
    ensures id in Ids(m) <==> |id| > 0 && exists i :: 0 <= i < |m.calls| && m.calls[i].id == id
  {
    if |id| == 0 { assert id == ""; }
    if c :| c in m.calls && c.id == id {
      var i :| 0 <= i < |m.calls| && m.calls[i] == c;
    }
  }

  lemma {:induction false} SeenAreAnswered(ms: seq<Message>, id: string)
    ensures id in Seen(ms) <==> exists i :: 0 <= i < |ms| && ms[i].resultId == id
  {
    if ms != [] {
      SeenAreAnswered(ms[1..], id);
      if i :| 0 <= i < |ms| && ms[i].resultId == id {
        if i > 0 { assert ms[1..][i - 1] == ms[i]; }
      }
    }
  }

  predicate IsEmptyAssistant(m: Message) {
    && m.role.Assistant?
    && m.calls == []
    && (m.content.Missing? || m.content == Text("") || (m.content.Parts? && m.content.parts == []))
  }

  /** An assistant's message is empty when it has no calls and no content, no text or no parts. */
  lemma EmptyAssistantIff(m: Message)
    ensures IsEmptyAssistant(m) <==>
      && m.role == Assistant && |m.calls| == 0
      && match m.content
         case Missing => true
         case Text(t) => |t| == 0
         case Parts(ps, _) => |ps| == 0
  {
  }

  /** Only assistants issue calls: what a provider can send and the runtime stores. */
  ghost predicate CallsComeFromAssistants(ms: seq<Message>) {
    forall m | m in ms :: m.calls != [] ==> m.role.Assistant?
  }

  // ----- the protocol as a scan -----

  /** How many leading messages answer a group that expects `expected` and has seen `seen`:
      the scan ends at the first foreign message or once everything expected has been seen. */
  function ResultRun(ms: seq<Message>, expected: set<string>, seen: set<string>): (n: nat)
    ensures n <= |ms|
  {
    if ms == [] || !ms[0].role.Tool? || ms[0].resultId !in expected then 0
    else if expected <= seen + {ms[0].resultId} then 1
    else 1 + ResultRun(ms[1..], expected, seen + {ms[0].resultId})
  }

  /** Length of the legal block a transcript starts with; 0 when it starts with none. */
  function Block(ms: seq<Message>): (n: nat)
    requires ms != []
    ensures n <= |ms|
  {
    var head := ms[0];
    if head.calls != [] then
      if Ids(head) == {} then 1
      else
        var n := ResultRun(ms[1..], Ids(head), {});
        if Seen(ms[1..1 + n]) == Ids(head) then 1 + n else 0
    else if head.role.Tool? || IsEmptyAssistant(head) then 0
    else 1
  }

  /** A transcript made of legal blocks only. */
  predicate Legal(ms: seq<Message>)
    decreases |ms|
  {
    ms == [] || (Block(ms) > 0 && Legal(ms[Block(ms)..]))
  }

  // ----- the protocol as a property of positions -----

  /** Every message strictly between `h` and `e` is a result `h` asked for. */
  ghost predicate ResultsOf(ms: seq<Message>, h: int, e: int) {
    && 0 <= h < e <= |ms|
    && forall k | h < k < e :: ms[k].role.Tool? && ms[k].resultId in Ids(ms[h])
  }

  /** Result `i` belongs to the calls at `h`, and those were still unanswered before it. */
  ghost predicate Answers(ms: seq<Message>, h: int, i: int) {
    && ResultsOf(ms, h, i + 1)
    && h < i
    && !(Ids(ms[h]) <= Seen(ms[h + 1..i]))
  }

  ghost predicate Answered(ms: seq<Message>, h: int, e: int) {
    && ResultsOf(ms, h, e)
    && Ids(ms[h]) <= Seen(ms[h + 1..e])
  }

  ghost predicate ResultsOwned(ms: seq<Message>) {
    forall i | 0 <= i < |ms| && ms[i].role.Tool? :: exists h :: Answers(ms, h, i)
  }

  ghost predicate CallsAnswered(ms: seq<Message>) {
    forall h | 0 <= h < |ms| && ms[h].calls != [] :: exists e :: Answered(ms, h, e)
  }

  /** The promise to the model API: no orphan result, no unanswered call, no empty assistant. */
  ghost predicate Protocol(ms: seq<Message>) {
    && ResultsOwned(ms)
    && CallsAnswered(ms)
    && forall m | m in ms :: !IsEmptyAssistant(m)
  }

  // ----- scans -----

  lemma {:induction false} SeenConcat(a: seq<Message>, b: seq<Message>)
    ensures Seen(a + b) == Seen(a) + Seen(b)
  {
    if a == [] {
      assert a + b == b;
    } else {
      SeenConcat(a[1..], b);
      assert (a + b)[1..] == a[1..] + b;
    }
  }

  lemma {:induction false} RunIsResults(ms: seq<Message>, expected: set<string>, seen: set<string>, k: nat)
    requires k < ResultRun(ms, expected, seen)
    ensures ms[k].role.Tool? && ms[k].resultId in expected
  {
    if k > 0 { RunIsResults(ms[1..], expected, seen + {ms[0].resultId}, k - 1); }
  }

  lemma {:induction false} SeenInRun(ms: seq<Message>, expected: set<string>, seen: set<string>)
    ensures Seen(ms[..ResultRun(ms, expected, seen)]) <= expected
  {
    var n := ResultRun(ms, expected, seen);
    if n > 0 {
      assert ms[..n][1..] == ms[1..][..n - 1];
      if n == 1 {
        assert Seen(ms[1..][..0]) == {};
      } else {
        SeenInRun(ms[1..], expected, seen + {ms[0].resultId});
      }
    }
  }

  lemma {:induction false} RunIsLocal(ms: seq<Message>, expected: set<string>, seen: set<string>, k: nat)
    requires ResultRun(ms, expected, seen) <= k <= |ms|
    ensures ResultRun(ms[..k], expected, seen) == ResultRun(ms, expected, seen)
  {
    if ResultRun(ms, expected, seen) == 0 {
      if k > 0 { assert ms[..k][0] == ms[0]; }
    } else if !(expected <= seen + {ms[0].resultId}) {
      RunIsLocal(ms[1..], expected, seen + {ms[0].resultId}, k - 1);
      assert ms[..k][1..] == ms[1..][..k - 1];
    }
  }

  /** Once a scan has found everything, what follows does not matter. */
  lemma {:induction false} CompleteRunIsStable(
      ms: seq<Message>, more: seq<Message>, expected: set<string>, seen: set<string>)
    requires !(expected <= seen)
    requires expected <= seen + Seen(ms[..ResultRun(ms, expected, seen)])
    ensures ResultRun(ms + more, expected, seen) == ResultRun(ms, expected, seen)
  {
    var n := ResultRun(ms, expected, seen);
    assert n > 0;
    assert (ms + more)[0] == ms[0];
    if !(expected <= seen + {ms[0].resultId}) {
      assert ms[..n][1..] == ms[1..][..n - 1];
      CompleteRunIsStable(ms[1..], more, expected, seen + {ms[0].resultId});
      assert (ms + more)[1..] == ms[1..] + more;
    }
  }

  /** A scan never reads past the point where everything has been seen. */
  lemma {:induction false} RunStaysOpen(ms: seq<Message>, expected: set<string>, seen: set<string>, i: nat)
    requires !(expected <= seen)
    requires i < ResultRun(ms, expected, seen)
    ensures !(expected <= seen + Seen(ms[..i]))
  {
    if i > 0 {
      RunStaysOpen(ms[1..], expected, seen + {ms[0].resultId}, i - 1);
      assert ms[..i][1..] == ms[1..][..i - 1];
    }
  }

  /** A scan covers any stretch of results in which everything expected has come. */
  lemma {:induction false} RunReaches(ms: seq<Message>, expected: set<string>, seen: set<string>, e: nat)
    requires e <= |ms|
    requires forall k | 0 <= k < e :: ms[k].role.Tool? && ms[k].resultId in expected
    requires !(expected <= seen)
    requires expected <= seen + Seen(ms[..e])
    ensures ResultRun(ms, expected, seen) <= e
    ensures expected <= seen + Seen(ms[..ResultRun(ms, expected, seen)])
  {
    assert e > 0;
    if expected <= seen + {ms[0].resultId} {
      assert ms[..1][1..] == [];
    } else {
      assert ms[..e][1..] == ms[1..][..e - 1];
      RunReaches(ms[1..], expected, seen + {ms[0].resultId}, e - 1);
      var n := ResultRun(ms[1..], expected, seen + {ms[0].resultId});
      assert ms[..n + 1][1..] == ms[1..][..n];
    }
  }

  // ----- composition of legal transcripts -----

  lemma {:induction false} BlockIsStable(ms: seq<Message>, more: seq<Message>)
    requires ms != [] && Block(ms) > 0
    ensures Block(ms + more) == Block(ms)
  {
    assert (ms + more)[0] == ms[0];
    var ids := Ids(ms[0]);
    if ms[0].calls != [] && ids != {} {
      var n := ResultRun(ms[1..], ids, {});
      SlicesOfTail(ms, more, n);
      CompleteRunIsStable(ms[1..], more, ids, {});
    }
  }

  lemma SlicesOfTail(ms: seq<Message>, more: seq<Message>, n: nat)
    requires 1 + n <= |ms|
    ensures ms[1..][..n] == ms[1..1 + n] == (ms + more)[1..1 + n]
    ensures (ms + more)[1..] == ms[1..] + more
  {
  }

  lemma {:induction false} LegalConcat(a: seq<Message>, b: seq<Message>)
    requires Legal(a) && Legal(b)
    ensures Legal(a + b)
    decreases |a|
  {
    if a == [] {
      assert a + b == b;
    } else {
      BlockIsStable(a, b);
      hide Block;
      var n, c := Block(a), a + b;
      assert Block(c) == n;
      var rest := c[n..];
      assert rest == a[n..] + b;
      assert Legal(rest) by { LegalConcat(a[n..], b); }
    }
  }

  lemma BlockIsLocal(ms: seq<Message>, k: nat)
    requires ms != [] && 0 < Block(ms) <= k <= |ms|
    ensures Block(ms[..k]) == Block(ms)
  {
    var ids := Ids(ms[0]);
    if ms[0].calls != [] && ids != {} {
      var n := ResultRun(ms[1..], ids, {});
      RunIsLocal(ms[1..], ids, {}, k - 1);
      assert ms[..k][1..] == ms[1..][..k - 1];
      assert ms[..k][1..1 + n] == ms[1..1 + n];
    }
  }

  lemma BlockIsHeadAndResults(ms: seq<Message>, k: nat)
    requires ms != [] && 0 < k < Block(ms)
    ensures ms[0].calls != [] && ms[k].role.Tool? && ms[k].resultId in Ids(ms[0])
  {
    RunIsResults(ms[1..], Ids(ms[0]), {}, k - 1);
  }

  /** A legal transcript can be cut before any message that is not a tool result. */
  lemma {:induction false} LegalSplit(ms: seq<Message>, k: nat)
    requires k <= |ms|
    requires k < |ms| ==> !ms[k].role.Tool?
    requires Legal(ms)
    ensures Legal(ms[..k]) && Legal(ms[k..])
    decreases |ms|
  {
    hide Block;
    if k == 0 {
      assert ms[0..] == ms;
    } else {
      var n := Block(ms);
      if k < n { BlockIsHeadAndResults(ms, k); }
      BlockIsLocal(ms, k);
      var rest, head := ms[n..], ms[..k];
      assert k < |ms| ==> rest[k - n] == ms[k];
      LegalSplit(rest, k - n);
      assert rest[k - n..] == ms[k..];
      assert head[n..] == rest[..k - n];
      assert Legal(head);
    }
  }

  lemma LegalSingleton(m: Message)
    requires m.calls == [] && !m.role.Tool? && !IsEmptyAssistant(m)
    ensures Legal([m])
  {
    assert Block([m]) == 1;
    assert Legal([m][1..]);
  }

  // ----- the scan decides the protocol -----

  /** Groups look the same in a stretch of a transcript and in the whole. */
  lemma ResultsInStretch(ms: seq<Message>, lo: nat, hi: nat, h: int, e: int)
    requires lo <= h < e <= hi <= |ms|
    ensures ResultsOf(ms, h, e) <==> ResultsOf(ms[lo..hi], h - lo, e - lo)
    ensures ms[h + 1..e] == ms[lo..hi][h - lo + 1..e - lo]
    ensures Ids(ms[h]) == Ids(ms[lo..hi][h - lo])
  {
    var part := ms[lo..hi];
    SliceOfSlice(ms, lo, hi, h - lo + 1, e - lo);
    if ResultsOf(ms, h, e) {
      forall k | h - lo < k < e - lo ensures part[k].role.Tool? && part[k].resultId in Ids(ms[h]) {
        assert part[k] == ms[lo + k];
      }
    }
    if ResultsOf(part, h - lo, e - lo) {
      forall k | h < k < e ensures ms[k].role.Tool? && ms[k].resultId in Ids(ms[h]) {
        assert part[k - lo] == ms[k];
      }
    }
  }

  lemma AnswersInStretch(ms: seq<Message>, lo: nat, hi: nat, h: int, i: int)
    requires lo <= h < i < hi <= |ms|
    ensures Answers(ms, h, i) <==> Answers(ms[lo..hi], h - lo, i - lo)
  {
    ResultsInStretch(ms, lo, hi, h, i + 1);
    ResultsInStretch(ms, lo, hi, h, i);
  }

  lemma AnsweredInStretch(ms: seq<Message>, lo: nat, hi: nat, h: int, e: int)
    requires lo <= h < e <= hi <= |ms|
    ensures Answered(ms, h, e) <==> Answered(ms[lo..hi], h - lo, e - lo)
  {
    ResultsInStretch(ms, lo, hi, h, e);
  }

  lemma AnswersIsWithin(ms: seq<Message>, h: int, i: int)
    requires Answers(ms, h, i)
    ensures 0 <= h < i < |ms|
  {
  }

  lemma ResultOwnedInStretch(ms: seq<Message>, lo: nat, hi: nat, i: int)
    requires lo <= i < hi <= |ms| && ms[i].role.Tool?
    requires ResultsOwned(ms[lo..hi])
    ensures exists h :: Answers(ms, h, i)
  {
    hide Answers;
    var part := ms[lo..hi];
    assert part[i - lo].role.Tool?;
    var h :| Answers(part, h, i - lo);
    AnswersIsWithin(part, h, i - lo);
    AnswersInStretch(ms, lo, hi, lo + h, i);
  }

  lemma CallAnsweredInStretch(ms: seq<Message>, lo: nat, hi: nat, h: int)
    requires lo <= h < hi <= |ms| && ms[h].calls != []
    requires CallsAnswered(ms[lo..hi])
    ensures exists e :: Answered(ms, h, e)
  {
    var part := ms[lo..hi];
    assert part[h - lo].calls != [];
    var e :| Answered(part, h - lo, e);
    AnsweredInStretch(ms, lo, hi, h, lo + e);
  }

  lemma ProtocolConcat(a: seq<Message>, b: seq<Message>)
    requires Protocol(a) && Protocol(b)
    ensures Protocol(a + b)
  {
    var ms, n := a + b, |a|;
    assert ms[0..n] == a && ms[n..|ms|] == b;
    assert ResultsOwned(ms) by {
      forall i | 0 <= i < |ms| && ms[i].role.Tool? ensures exists h :: Answers(ms, h, i) {
        if i < n { ResultOwnedInStretch(ms, 0, n, i); } else { ResultOwnedInStretch(ms, n, |ms|, i); }
      }
    }
    assert CallsAnswered(ms) by {
      forall h | 0 <= h < |ms| && ms[h].calls != [] ensures exists e :: Answered(ms, h, e) {
        if h < n { CallAnsweredInStretch(ms, 0, n, h); } else { CallAnsweredInStretch(ms, n, |ms|, h); }
      }
    }
  }

  /** A single block keeps the protocol by itself. */
  lemma BlockKeepsProtocol(ms: seq<Message>)
    requires ms != [] && CallsComeFromAssistants(ms) && Block(ms) == |ms|
    ensures Protocol(ms)
  {
    var ids, n := Ids(ms[0]), |ms|;
    forall k | 0 < k < n ensures ms[k].role.Tool? && ms[k].resultId in ids {
      BlockIsHeadAndResults(ms, k);
    }
    forall i | 0 <= i < n && ms[i].role.Tool? ensures exists h :: Answers(ms, h, i) {
      RunStaysOpen(ms[1..], ids, {}, i - 1);
      assert ms[1..][..i - 1] == ms[1..i];
      assert Answers(ms, 0, i);
    }
    assert Answered(ms, 0, n) by {
      assert ms[1..1 + (n - 1)] == ms[1..n];
    }
  }

  lemma {:induction false} LegalImpliesProtocol(ms: seq<Message>)
    requires CallsComeFromAssistants(ms) && Legal(ms)
    ensures Protocol(ms)
    decreases |ms|
  {
    if ms != [] {
      var n := Block(ms);
      BlockIsLocal(ms, n);
      BlockKeepsProtocol(ms[..n]);
      LegalImpliesProtocol(ms[n..]);
      ProtocolConcat(ms[..n], ms[n..]);
      assert ms == ms[..n] + ms[n..];
    }
  }

  lemma AnsweredGroupIsBlock(ms: seq<Message>, e: nat)
    requires 0 < e <= |ms| && ms[0].calls != []
    requires Answered(ms, 0, e)
    ensures Block(ms) > 0
  {
    var ids, tail := Ids(ms[0]), ms[1..];
    if ids != {} {
      forall k | 0 <= k < e - 1 ensures tail[k].role.Tool? && tail[k].resultId in ids {
        assert tail[k] == ms[k + 1];
      }
      assert tail[..e - 1] == ms[1..e];
      RunReaches(tail, ids, {}, e - 1);
      SeenInRun(tail, ids, {});
      var n := ResultRun(tail, ids, {});
      assert tail[..n] == ms[1..1 + n];
    }
  }

  /** The first block of a protocol-abiding transcript is the whole first group. */
  lemma ProtocolStartsWithBlock(ms: seq<Message>)
    requires ms != [] && CallsComeFromAssistants(ms) && Protocol(ms)
    ensures Block(ms) > 0
  {
    if ms[0].calls != [] {
      var e :| Answered(ms, 0, e);
      AnsweredGroupIsBlock(ms, e);
    }
  }

  lemma AnsweredByItsBlock(ms: seq<Message>, i: int)
    requires ms != [] && 0 < Block(ms) <= i <= |ms|
    ensures Ids(ms[0]) <= Seen(ms[1..i])
  {
    var n := Block(ms);
    SeenConcat(ms[1..n], ms[n..i]);
    assert ms[1..n] + ms[n..i] == ms[1..i];
  }

  /** The group a later result belongs to cannot start in the first block. */
  lemma OwnerComesLater(ms: seq<Message>, h: int, i: int)
    requires ms != [] && CallsComeFromAssistants(ms)
    requires 0 < Block(ms) <= i && Answers(ms, h, i)
    ensures Block(ms) <= h
  {
    AnsweredByItsBlock(ms, i);
    assert ms[h] in ms;
    if 0 < h < Block(ms) { BlockIsHeadAndResults(ms, h); }
  }

  lemma AnswersAfterBlock(ms: seq<Message>, h: int, i: int)
    requires ms != [] && CallsComeFromAssistants(ms)
    requires 0 < Block(ms) <= i && Answers(ms, h, i)
    ensures Answers(ms[Block(ms)..|ms|], h - Block(ms), i - Block(ms))
  {
    OwnerComesLater(ms, h, i);
    AnswersInStretch(ms, Block(ms), |ms|, h, i);
  }

  lemma ResultsOwnedAfterBlock(ms: seq<Message>)
    requires ms != [] && CallsComeFromAssistants(ms) && ResultsOwned(ms) && Block(ms) > 0
    ensures ResultsOwned(ms[Block(ms)..|ms|])
  {
    hide Block;
    hide Answers;
    var n := Block(ms);
    var rest := ms[n..|ms|];
    forall i | 0 <= i < |rest| && rest[i].role.Tool? ensures exists h :: Answers(rest, h, i) {
      assert ms[n + i].role.Tool?;
      var h :| Answers(ms, h, n + i);
      AnswersAfterBlock(ms, h, n + i);
    }
  }

  lemma AnsweredIsWithin(ms: seq<Message>, h: int, e: int)
    requires Answered(ms, h, e)
    ensures 0 <= h < e <= |ms|
  {
  }

  lemma CallsAnsweredAfter(ms: seq<Message>, n: nat)
    requires n <= |ms| && CallsAnswered(ms)
    ensures CallsAnswered(ms[n..|ms|])
  {
    hide Answered;
    var rest := ms[n..|ms|];
    forall h | 0 <= h < |rest| && rest[h].calls != [] ensures exists e :: Answered(rest, h, e) {
      var e :| Answered(ms, n + h, e);
      AnsweredIsWithin(ms, n + h, e);
      AnsweredInStretch(ms, n, |ms|, n + h, e);
      assert Answered(rest, h, e - n);
    }
  }

  lemma ProtocolAfterBlock(ms: seq<Message>)
    requires ms != [] && CallsComeFromAssistants(ms) && Protocol(ms) && Block(ms) > 0
    ensures Protocol(ms[Block(ms)..])
  {
    ResultsOwnedAfterBlock(ms);
    CallsAnsweredAfter(ms, Block(ms));
    assert ms[Block(ms)..] == ms[Block(ms)..|ms|];
  }

  lemma {:induction false} ProtocolImpliesLegal(ms: seq<Message>)
    requires CallsComeFromAssistants(ms) && Protocol(ms)
    ensures Legal(ms)
    decreases |ms|
  {
    if ms != [] {
      ProtocolStartsWithBlock(ms);
      ProtocolAfterBlock(ms);
      ProtocolImpliesLegal(ms[Block(ms)..]);
    }
  }

  /** The block scan accepts exactly the transcripts that keep the protocol. */
  lemma LegalIffProtocol(ms: seq<Message>)
    requires CallsComeFromAssistants(ms)
    ensures Legal(ms) <==> Protocol(ms)
  {
    if Legal(ms) { LegalImpliesProtocol(ms); }
    if Protocol(ms) { ProtocolImpliesLegal(ms); }
  }

  /** The same but for the text of tool results. */
  ghost predicate SameShape(a: seq<Message>, b: seq<Message>) {
    && |a| == |b|
    && forall i | 0 <= i < |a| ::
      && a[i].role == b[i].role
      && a[i].calls == b[i].calls
      && a[i].resultId == b[i].resultId
      && (!a[i].role.Tool? ==> a[i] == b[i])
  }

  /** What legality looks at: roles, calls and ids, and which assistant messages are empty. */
  ghost predicate SameGrammar(a: seq<Message>, b: seq<Message>) {
    && |a| == |b|
    && forall i | 0 <= i < |a| ::
      && a[i].role == b[i].role
      && a[i].calls == b[i].calls
      && a[i].resultId == b[i].resultId
      && (IsEmptyAssistant(a[i]) <==> IsEmptyAssistant(b[i]))
  }

  lemma {:induction false} SameGrammarSameRun(
      a: seq<Message>, b: seq<Message>, expected: set<string>, seen: set<string>)
    requires SameGrammar(a, b)
    ensures ResultRun(a, expected, seen) == ResultRun(b, expected, seen)
  {
    if a != [] && a[0].role.Tool? && a[0].resultId in expected && !(expected <= seen + {a[0].resultId}) {
      SameGrammarSameRun(a[1..], b[1..], expected, seen + {a[0].resultId});
    }
  }

  lemma {:induction false} SameGrammarSameSeen(a: seq<Message>, b: seq<Message>)
    requires SameGrammar(a, b)
    ensures Seen(a) == Seen(b)
  {
    if a != [] { SameGrammarSameSeen(a[1..], b[1..]); }
  }

  /** Nothing else matters to legality. */
  lemma {:induction false} SameGrammarSameLegal(a: seq<Message>, b: seq<Message>)
    requires SameGrammar(a, b)
    ensures Legal(a) <==> Legal(b)
    decreases |a|
  {
    if a != [] {
      var ids := Ids(a[0]);
      if a[0].calls != [] && ids != {} {
        SameGrammarSameRun(a[1..], b[1..], ids, {});
        var n := ResultRun(a[1..], ids, {});
        SameGrammarSameSeen(a[1..1 + n], b[1..1 + n]);
      }
      assert Block(a) == Block(b);
      if Block(a) > 0 {
        SameGrammarSameLegal(a[Block(a)..], b[Block(b)..]);
      }
    }
  }

  /** Rewriting the text of tool results cannot break the protocol. */
  lemma SameShapeSameLegal(a: seq<Message>, b: seq<Message>)
    requires SameShape(a, b)
    ensures Legal(a) <==> Legal(b)
  {
    SameGrammarSameLegal(a, b);
  }
}
