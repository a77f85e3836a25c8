/** The last repair before a model call: whatever the transcript looks like, what is sent keeps
    the tool-call protocol, and the drop log says exactly which messages were not sent as they were. */
module Sanitizer {
  import opened Messages
  import opened PyText

  /** One log entry; the constructor is the logged reason. */
  datatype Drop =
    | EmptyAssistant(index: nat)
    | IncompleteGroup(index: nat, expected: set<string>, seen: set<string>)
    | StrandedResult(index: nat, resultId: string)
    | OrphanResult(index: nat, resultId: string)

  /** A stretch of the transcript and what becomes of it. */
  datatype Piece =
    | Keep(ms: seq<Message>)
    | Rewrite(ms: seq<Message>, note: Message)
    | Erase(ms: seq<Message>)

  /** First lines of the two kinds of note, up to and including the id lines. */
  const ORPHAN_HEADER: Wording
  const GROUP_HEADER: Wording

  // ----- notes -----

  /** `str(content or "")`; of a list only the text of its parts is modelled. */
  function PrintedText(c: Content): string {
    match c
    case Missing => ""
    case Text(t) => t
    case Parts(ps, _) => Join(ps, "")
  }

  function OrphanNote(m: Message): Message {
    Plain(User, ORPHAN_HEADER + "\ntool_call_id=" + m.resultId + "\n" + Clip(OneLine(PrintedText(m.content)), 500))
  }

  function ResultLines(results: seq<Message>): string {
    if results == [] then ""
    else
      var r := results[0];
      "\nTool result " + r.resultId + ": " + Clip(OneLine(PrintedText(r.content)), 300) + ResultLines(results[1..])
  }

  function ContentLine(content: string): string {
    if content == "" then "" else "\nAssistant content: " + Prefix(content, 500)
  }

  function GroupNote(head: Message, results: seq<Message>): Message {
    Plain(User, GROUP_HEADER + ContentLine(Strip(PrintedText(head.content))) + ResultLines(results))
  }

  /** On one line, as it is or cut to `limit` characters with an ellipsis at the end. */
  ghost predicate Shortened(text: string, limit: nat, r: string) {
    var line := OneLine(text);
    if |text| <= limit then r == line else IsCut(line, limit - 3, "...", r)
  }

  /** The note for an orphan result gives its id and its text, up to 500 characters. */
  lemma OrphanNoteTells(m: Message) returns (text: string)
    ensures Shortened(PrintedText(m.content), 500, text)
    ensures OrphanNote(m).content == Text(ORPHAN_HEADER + "\ntool_call_id=" + m.resultId + "\n" + text)
  {
    hide Shortened;
    hide PrintedText;
    hide Clip;
    hide OneLine;
    text := Clip(OneLine(PrintedText(m.content)), 500);
    ClipShortens(PrintedText(m.content), 500);
  }

  /** The note for an incomplete group gives the id and the text of each result it replaces, up to 300
      characters. */
  lemma GroupNoteTellsResult(head: Message, results: seq<Message>, i: nat) returns (text: string)
    requires i < |results|
    ensures Shortened(PrintedText(results[i].content), 300, text)
    ensures GroupNote(head, results).content.Text?
    ensures Says(GroupNote(head, results).content.text, "\nTool result " + results[i].resultId + ": " + text)
  {
    hide ResultLines;
    hide Says;
    hide ContentLine;
    hide Shortened;
    text := ResultLinesTell(results, i);
    var part, lines := "\nTool result " + results[i].resultId + ": " + text, ResultLines(results);
    var front := GROUP_HEADER + ContentLine(Strip(PrintedText(head.content)));
    var whole := GroupNote(head, results).content.text;
    assert whole == front + lines + "";
    SaysWithin(whole, front, lines, "", part);
  }

  lemma {:induction false} ResultLinesTell(results: seq<Message>, i: nat) returns (text: string)
    requires i < |results|
    ensures Shortened(PrintedText(results[i].content), 300, text)
    ensures Says(ResultLines(results), "\nTool result " + results[i].resultId + ": " + text)
  {
    hide Shortened;
    if i == 0 {
      text := FirstResultLine(results);
    } else {
      text := ResultLinesTell(results[1..], i - 1);
      var front := MoreResultLines(results);
      SaysWithin(ResultLines(results), front, ResultLines(results[1..]), "",
                 "\nTool result " + results[i].resultId + ": " + text);
    }
  }

  lemma FirstResultLine(results: seq<Message>) returns (text: string)
    requires results != []
    ensures Shortened(PrintedText(results[0].content), 300, text)
    ensures Says(ResultLines(results), "\nTool result " + results[0].resultId + ": " + text)
  {
    hide *;
    text := Clip(OneLine(PrintedText(results[0].content)), 300);
    ClipShortens(PrintedText(results[0].content), 300);
    FirstLineIs(results);
    SaysAtFront("\nTool result " + results[0].resultId + ": " + text, ResultLines(results[1..]));
  }

  lemma ClipShortens(text: string, limit: nat)
    requires limit >= 3
    ensures Shortened(text, limit, Clip(OneLine(text), limit))
  {
    hide IsCut;
    ClipIsCut(OneLine(text), limit);
  }

  lemma {:induction false} FirstLineIs(results: seq<Message>)
    requires results != []
    ensures ResultLines(results) ==
      "\nTool result " + results[0].resultId + ": " + Clip(OneLine(PrintedText(results[0].content)), 300)
        + ResultLines(results[1..])
  {
    hide PrintedText;
    hide Clip;
    hide OneLine;
  }

  lemma SaysAtFront(part: string, rest: string)
    ensures Says(part + rest, part)
  {
    assert part + rest == "" + part + rest;
  }

  lemma MoreResultLines(results: seq<Message>) returns (front: string)
    requires results != []
    ensures ResultLines(results) == front + ResultLines(results[1..]) + ""
  {
    hide PrintedText;
    var r := results[0];
    front := "\nTool result " + r.resultId + ": " + Clip(OneLine(PrintedText(r.content)), 300);
  }

  /** It also gives what the assistant said, up to 500 characters, if anything. */
  lemma GroupNoteTellsContent(head: Message, results: seq<Message>)
    ensures var said := Strip(PrintedText(head.content));
      var line := if |said| == 0 then "" else "\nAssistant content: " + (if |said| > 500 then said[..500] else said);
      GroupNote(head, results).content == Text(GROUP_HEADER + line + ResultLines(results))
  {
    hide ResultLines;
    hide PrintedText;
    hide Strip;
  }

  lemma Printed(c: Content)
    ensures c.Missing? ==> |PrintedText(c)| == 0
    ensures c.Text? ==> PrintedText(c) == c.text
    ensures c.Parts? ==> PrintedText(c) == Join(c.parts, "")
  {
  }

  // ----- the repair as a segmentation -----

  function NextPiece(ms: seq<Message>): (p: Piece)
    requires ms != []
    ensures 0 < |p.ms| <= |ms|
  {
    var head := ms[0];
    if IsEmptyAssistant(head) then Erase(ms[..1])
    else if head.calls != [] then
      if Ids(head) == {} then Keep(ms[..1])
      else
        var n := ResultRun(ms[1..], Ids(head), {});
        var results := ms[1..1 + n];
        if Seen(results) == Ids(head) then Keep(ms[..1 + n])
        else Rewrite(ms[..1 + n], GroupNote(head, results))
    else if head.role.Tool? then Rewrite(ms[..1], OrphanNote(head))
    else Keep(ms[..1])
  }

  /** What a piece sends, ahead of what the rest of the transcript sends. */
  function Send(p: Piece, rest: seq<Message>): seq<Message> {
    match p
    case Keep(ms) => ms + rest
    case Rewrite(_, note) => [note] + rest
    case Erase(_) => rest
  }

  function Stranded(results: seq<Message>, at: nat): seq<Drop> {
    if results == [] then [] else [StrandedResult(at, results[0].resultId)] + Stranded(results[1..], at + 1)
  }

  /** The log entries of a changed piece that starts at position `at`: one per message it covers. */
  function LogOf(p: Piece, at: nat): seq<Drop>
    requires p.ms != [] && !p.Keep?
  {
    if p.Erase? then [EmptyAssistant(at)]
    else if p.ms[0].calls != [] then
      [IncompleteGroup(at, Ids(p.ms[0]), Seen(p.ms[1..]))] + Stranded(p.ms[1..], at + 1)
    else [OrphanResult(at, p.ms[0].resultId)]
  }

  /** What is sent instead of `ms`. */
  function Sanitized(ms: seq<Message>): seq<Message>
    decreases |ms|
  {
    if ms == [] then []
    else
      var p := NextPiece(ms);
      Send(p, Sanitized(ms[|p.ms|..]))
  }

  /** What is logged about `ms`, which starts at position `at` of the transcript. */
  function DropLog(ms: seq<Message>, at: nat): seq<Drop>
    decreases |ms|
  {
    if ms == [] then []
    else
      var p := NextPiece(ms);
      var rest := DropLog(ms[|p.ms|..], at + |p.ms|);
      if p.Keep? then rest else LogOf(p, at) + rest
  }

  // ----- the loops of the source -----

  lemma SinglePieces(ms: seq<Message>)
    requires ms != []
    ensures IsEmptyAssistant(ms[0]) ==> NextPiece(ms) == Erase([ms[0]])
    ensures ms[0].calls != [] && Ids(ms[0]) == {} ==> NextPiece(ms) == Keep([ms[0]])
    ensures ms[0].calls == [] && !IsEmptyAssistant(ms[0]) ==>
              NextPiece(ms) == if ms[0].role.Tool? then Rewrite([ms[0]], OrphanNote(ms[0])) else Keep([ms[0]])
  {
    assert ms[..1] == [ms[0]];
  }

  lemma PieceIsPrefix(ms: seq<Message>)
    requires ms != []
    ensures NextPiece(ms).ms == ms[..|NextPiece(ms).ms|]
    ensures NextPiece(ms).Erase? || ms[0].calls == [] ==> |NextPiece(ms).ms| == 1
  {
  }

  lemma GroupPiece(ms: seq<Message>, results: seq<Message>)
    requires ms != [] && Ids(ms[0]) != {}
    requires results <= ms[1..] && |results| == ResultRun(ms[1..], Ids(ms[0]), {})
    ensures NextPiece(ms) ==
      if Seen(results) == Ids(ms[0]) then Keep([ms[0]] + results)
      else Rewrite([ms[0]] + results, GroupNote(ms[0], results))
  {
    hide ResultRun;
    hide Seen;
    hide GroupNote;
    HeadAndResults(ms, results);
    assert ms[0].calls != [] && !IsEmptyAssistant(ms[0]);
  }

  lemma HeadAndResults(ms: seq<Message>, results: seq<Message>)
    requires ms != [] && results <= ms[1..]
    ensures ms[1..1 + |results|] == results && ms[..1 + |results|] == [ms[0]] + results
  {
    assert ms[1..1 + |results|] == ms[1..][..|results|];
  }

  lemma SanitizeStep(ms: seq<Message>, index: nat)
    requires index < |ms|
    ensures var p := NextPiece(ms[index..]);
      && index + |p.ms| <= |ms|
      && Sanitized(ms[index..]) == Send(p, Sanitized(ms[index + |p.ms|..]))
      && DropLog(ms[index..], index)
         == if p.Keep? then DropLog(ms[index + |p.ms|..], index + |p.ms|)
            else LogOf(p, index) + DropLog(ms[index + |p.ms|..], index + |p.ms|)
  {
    hide NextPiece;
    hide Send;
    hide LogOf;
    var p := NextPiece(ms[index..]);
    assert ms[index..][|p.ms|..] == ms[index + |p.ms|..];
  }

  /** The step for a message without calls, in terms of the message alone. */
  lemma SingleStep(ms: seq<Message>, index: nat)
    requires index < |ms| && ms[index].calls == []
    ensures var sent, log := Sanitized(ms[index + 1..]), DropLog(ms[index + 1..], index + 1);
      if IsEmptyAssistant(ms[index]) then
        Sanitized(ms[index..]) == sent && DropLog(ms[index..], index) == [EmptyAssistant(index)] + log
      else if ms[index].role.Tool? then
        && Sanitized(ms[index..]) == [OrphanNote(ms[index])] + sent
        && DropLog(ms[index..], index) == [OrphanResult(index, ms[index].resultId)] + log
      else
        Sanitized(ms[index..]) == [ms[index]] + sent && DropLog(ms[index..], index) == log
  {
    hide NextPiece;
    hide OrphanNote;
    hide Sanitized;
    hide DropLog;
    SinglePieces(ms[index..]);
    SanitizeStep(ms, index);
  }

  /** The step for a group: kept as it is, or replaced by its note. */
  lemma GroupStep(ms: seq<Message>, index: nat)
    requires index < |ms|
    ensures var p := NextPiece(ms[index..]);
      && (p.Keep? ==> Becomes(ms, index, p.ms, [], index + |p.ms|))
      && (p.Rewrite? ==> Becomes(ms, index, [p.note], LogOf(p, index), index + |p.ms|))
  {
    hide NextPiece;
    hide LogOf;
    hide Sanitized;
    hide DropLog;
    SanitizeStep(ms, index);
  }

  lemma NothingToSend(index: nat)
    ensures Sanitized([]) == [] && DropLog([], index) == []
  {
  }

  /** What has been sent and logged so far, followed by what becomes of the messages from `index` on,
      is what becomes of them all. */
  ghost predicate DoneUpTo(ms: seq<Message>, sent: seq<Message>, log: seq<Drop>, index: nat) {
    && index <= |ms|
    && Sanitized(ms) == sent + Sanitized(ms[index..])
    && DropLog(ms, 0) == log + DropLog(ms[index..], index)
  }

  /** The message or group at `index` is replaced by `more`, and `drops` are logged about it. */
  ghost predicate Becomes(ms: seq<Message>, index: nat, more: seq<Message>, drops: seq<Drop>, next: nat) {
    && index < next <= |ms|
    && Sanitized(ms[index..]) == more + Sanitized(ms[next..])
    && DropLog(ms[index..], index) == drops + DropLog(ms[next..], next)
  }

  lemma StartAndEnd(ms: seq<Message>)
    ensures DoneUpTo(ms, [], [], 0)
    ensures forall sent, log :: DoneUpTo(ms, sent, log, |ms|) ==> sent == Sanitized(ms) && log == DropLog(ms, 0)
  {
    assert ms[0..] == ms && ms[|ms|..] == [];
    NothingToSend(|ms|);
  }

  lemma OneStepDone(ms: seq<Message>, sent: seq<Message>, log: seq<Drop>, index: nat,
                    more: seq<Message>, drops: seq<Drop>, next: nat)
    requires DoneUpTo(ms, sent, log, index) && Becomes(ms, index, more, drops, next)
    ensures DoneUpTo(ms, sent + more, log + drops, next)
  {
    hide Sanitized;
    hide DropLog;
  }

  /** A message without calls goes, becomes a note, or stays. */
  lemma SingleBecomes(ms: seq<Message>, index: nat)
    requires index < |ms| && ms[index].calls == []
    ensures
      var m := ms[index];
      if IsEmptyAssistant(m) then Becomes(ms, index, [], [EmptyAssistant(index)], index + 1)
      else if m.role.Tool? then
        Becomes(ms, index, [OrphanNote(m)], [OrphanResult(index, m.resultId)], index + 1)
      else Becomes(ms, index, [m], [], index + 1)
  {
    hide Sanitized;
    hide DropLog;
    hide OrphanNote;
    SingleStep(ms, index);
  }

  method SanitizeContextMessages(messages: seq<Message>)
    returns (sanitized: seq<Message>, dropped: seq<Drop>)
    ensures sanitized == Sanitized(messages)
    ensures dropped == DropLog(messages, 0)
  {
    hide *;
    sanitized, dropped := [], [];
    var index := 0;
    StartAndEnd(messages);
    while index < |messages|
      invariant index <= |messages| && DoneUpTo(messages, sanitized, dropped, index)
    {
      var message := messages[index];
      ghost var sent, log, from := sanitized, dropped, index;
      if message.calls == [] { SingleBecomes(messages, index); }
      if IsEmptyAssistant(message) {
        EmptyHasNoCalls(message);
        dropped := dropped + [EmptyAssistant(index)];
        index := index + 1;
        OneStepDone(messages, sent, log, from, [], [EmptyAssistant(from)], index);
        assert sent + [] == sent;
      } else if message.calls != [] {
        var replacement, next, drops := SanitizeToolCallGroup(messages, index);
        GroupStep(messages, index);
        if drops != [] { dropped := dropped + drops; }
        sanitized := sanitized + replacement;
        index := next;
        OneStepDone(messages, sent, log, from, replacement, drops, index);
        assert log + [] == log;
      } else if message.role.Tool? {
        dropped := dropped + [OrphanResult(index, message.resultId)];
        sanitized := sanitized + [OrphanNote(message)];
        index := index + 1;
        OneStepDone(messages, sent, log, from, [OrphanNote(message)], [OrphanResult(from, message.resultId)], index);
      } else {
        sanitized := sanitized + [message];
        index := index + 1;
        OneStepDone(messages, sent, log, from, [message], [], index);
        assert log + [] == log;
      }
    }
  }

  lemma EmptyHasNoCalls(m: Message)
    requires IsEmptyAssistant(m)
    ensures m.calls == []
  {
  }

  method SanitizeToolCallGroup(messages: seq<Message>, index: nat)
    returns (replacement: seq<Message>, next: nat, drops: seq<Drop>)
    requires index < |messages| && messages[index].calls != []
    ensures var p := NextPiece(messages[index..]);
      && next == index + |p.ms|
      && (p.Keep? ==> replacement == p.ms && drops == [])
      && (p.Rewrite? ==> replacement == [p.note] && drops != [] && drops == LogOf(p, index))
      && !p.Erase?
  {
    hide NextPiece;
    var message := messages[index];
    var expected := Ids(message);
    ghost var rest := messages[index..];
    if expected == {} {
      SinglePieces(rest);
      return [message], index + 1, [];
    }
    var toolMessages, cursor, seen := CollectResults(messages, index + 1, expected);
    assert rest[1..] == messages[index + 1..];
    GroupPiece(rest, toolMessages);
    if seen == expected {
      return [message] + toolMessages, cursor, [];
    }
    assert ([message] + toolMessages)[1..] == toolMessages;
    drops := LogIncompleteGroup(index, expected, seen, toolMessages);
    replacement, next := [GroupNote(message, toolMessages)], cursor;
  }

  method CollectResults(messages: seq<Message>, from: nat, expected: set<string>)
    returns (toolMessages: seq<Message>, cursor: nat, seen: set<string>)
    requires from <= |messages| && expected != {}
    ensures |toolMessages| == ResultRun(messages[from..], expected, {}) && toolMessages <= messages[from..]
    ensures cursor == from + |toolMessages| && seen == Seen(toolMessages)
  {
    cursor, toolMessages, seen := from, [], {};
    while cursor < |messages|
      invariant from <= cursor <= |messages|
      invariant toolMessages == messages[from..cursor]
      invariant seen == Seen(toolMessages)
      invariant !(expected <= seen)
      invariant ResultRun(messages[from..], expected, {})
             == cursor - from + ResultRun(messages[cursor..], expected, seen)
    {
      var candidate := messages[cursor];
      if !candidate.role.Tool? || candidate.resultId !in expected { break; }
      SeenConcat(toolMessages, [candidate]);
      toolMessages := toolMessages + [candidate];
      seen := seen + {candidate.resultId};
      assert messages[cursor..][1..] == messages[cursor + 1..];
      cursor := cursor + 1;
      if expected <= seen { break; }
    }
    assert messages[from..cursor] == messages[from..][..cursor - from];
  }

  method LogIncompleteGroup(index: nat, expected: set<string>, seen: set<string>, results: seq<Message>)
    returns (drops: seq<Drop>)
    ensures drops == [IncompleteGroup(index, expected, seen)] + Stranded(results, index + 1)
  {
    drops := [IncompleteGroup(index, expected, seen)];
    var offset := 0;
    while offset < |results|
      invariant offset <= |results|
      invariant drops + Stranded(results[offset..], index + 1 + offset)
             == [IncompleteGroup(index, expected, seen)] + Stranded(results, index + 1)
    {
      drops := drops + [StrandedResult(index + 1 + offset, results[offset].resultId)];
      assert results[offset..][1..] == results[offset + 1..];
      offset := offset + 1;
    }
  }

  // ----- the output keeps the protocol -----

  lemma NotesAreOrdinary(head: Message, results: seq<Message>)
    ensures var m := GroupNote(head, results); m.role.User? && m.calls == [] && !IsEmptyAssistant(m)
    ensures var m := OrphanNote(head); m.role.User? && m.calls == [] && !IsEmptyAssistant(m)
  {
  }

  /** A piece is kept exactly when the transcript starts with a legal block. */
  lemma KeptIffBlock(ms: seq<Message>)
    requires ms != []
    ensures NextPiece(ms).Keep? <==> Block(ms) > 0
    ensures NextPiece(ms).Keep? ==> |NextPiece(ms).ms| == Block(ms)
  {
  }

  lemma NoteOfPiece(ms: seq<Message>)
    requires ms != [] && NextPiece(ms).Rewrite?
    ensures var m := NextPiece(ms).note; m.role.User? && m.calls == [] && !IsEmptyAssistant(m)
  {
    hide GroupNote;
    hide OrphanNote;
    var head := ms[0];
    NotesAreOrdinary(head, if head.calls == [] then [] else ms[1..1 + ResultRun(ms[1..], Ids(head), {})]);
  }

  lemma SendIsLegal(ms: seq<Message>, rest: seq<Message>)
    requires ms != [] && Legal(rest)
    ensures Legal(Send(NextPiece(ms), rest))
  {
    hide NextPiece;
    hide Block;
    KeptIffBlock(ms);
    var p := NextPiece(ms);
    if p.Rewrite? {
      NoteOfPiece(ms);
      LegalSingleton(p.note);
      LegalConcat([p.note], rest);
    } else if p.Keep? {
      PieceIsPrefix(ms);
      BlockIsLocal(ms, |p.ms|);
      assert p.ms[|p.ms|..] == [];
      LegalConcat(p.ms, rest);
    }
  }

  lemma {:induction false} SanitizedIsLegal(ms: seq<Message>)
    ensures Legal(Sanitized(ms))
    decreases |ms|
  {
    hide NextPiece;
    hide Send;
    if ms != [] {
      var rest := ms[|NextPiece(ms).ms|..];
      SanitizedIsLegal(rest);
      SendIsLegal(ms, Sanitized(rest));
    }
  }

  lemma {:induction false} SanitizedAddsNoCalls(ms: seq<Message>)
    requires CallsComeFromAssistants(ms)
    ensures CallsComeFromAssistants(Sanitized(ms))
    decreases |ms|
  {
    hide NextPiece;
    if ms != [] {
      var p := NextPiece(ms);
      if p.Rewrite? { NoteOfPiece(ms); }
      PieceIsPrefix(ms);
      SanitizedAddsNoCalls(ms[|p.ms|..]);
    }
  }

  /** Sanitizing any transcript yields one the model API accepts. */
  lemma {:induction false} SanitizedKeepsProtocol(ms: seq<Message>)
    requires CallsComeFromAssistants(ms)
    ensures Protocol(Sanitized(ms))
  {
    SanitizedIsLegal(ms);
    SanitizedAddsNoCalls(ms);
    LegalIffProtocol(Sanitized(ms));
  }

  // ----- what is legal is left alone -----

  lemma {:induction false} LegalIsKept(ms: seq<Message>, at: nat)
    requires Legal(ms)
    ensures Sanitized(ms) == ms && DropLog(ms, at) == []
    decreases |ms|
  {
    hide NextPiece;
    hide Block;
    if ms != [] {
      var n := Block(ms);
      KeptIffBlock(ms);
      PieceIsPrefix(ms);
      assert NextPiece(ms).ms == ms[..n];
      LegalIsKept(ms[n..], at + n);
      assert ms[..n] + ms[n..] == ms;
    }
  }

  lemma {:induction false} SilentMeansLegal(ms: seq<Message>, at: nat)
    requires DropLog(ms, at) == []
    ensures Legal(ms)
    decreases |ms|
  {
    hide NextPiece;
    hide Block;
    if ms != [] {
      var p := NextPiece(ms);
      KeptIffBlock(ms);
      SilentMeansLegal(ms[|p.ms|..], at + |p.ms|);
    }
  }

  /** The log is empty exactly when nothing was changed, which is exactly when nothing had to be. */
  lemma {:induction false} SilentIffUnchanged(ms: seq<Message>)
    ensures DropLog(ms, 0) == [] <==> Sanitized(ms) == ms
    ensures DropLog(ms, 0) == [] <==> Legal(ms)
  {
    if Legal(ms) { LegalIsKept(ms, 0); }
    if DropLog(ms, 0) == [] { SilentMeansLegal(ms, 0); }
    if Sanitized(ms) == ms { SanitizedIsLegal(ms); }
  }

  /** Sanitizing twice is sanitizing once, and the second pass logs nothing. */
  lemma {:induction false} SanitizeIsIdempotent(ms: seq<Message>)
    ensures Sanitized(Sanitized(ms)) == Sanitized(ms)
    ensures DropLog(Sanitized(ms), 0) == []
  {
    SanitizedIsLegal(ms);
    SilentIffUnchanged(Sanitized(ms));
  }
}
