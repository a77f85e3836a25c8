/** The emergency trim before a model call: whole turns first, text only when nothing else is left. */
module TokenEstimator {
  import opened Messages
  import opened PyText
  import opened Turns

  // ----- the default estimate -----

  /** How many characters JSON spends on one character of a string. */
  function EscapedChar(c: char): (n: nat)
    ensures 1 <= n <= 6
  {
    if c == '"' || c == '\\' || c == '\n' || c == '\r' || c == '\t' || c as int == 8 || c as int == 12 then 2
    else if (c as int) < 0x20 then 6
    else 1
  }

  function EscapedChars(s: string): (n: nat)
    ensures |s| <= n <= 6 * |s|
  {
    if s == "" then 0 else EscapedChar(s[0]) + EscapedChars(s[1..])
  }

  /** What JSON makes of a character. */
  function Escaped(c: char): string {
    if c == '"' then "\\\""
    else if c == '\\' then "\\\\"
    else if c == '\n' then "\\n"
    else if c == '\r' then "\\r"
    else if c == '\t' then "\\t"
    else if c as int == 8 then "\\b"
    else if c as int == 12 then "\\f"
    else if (c as int) < 0x20 then "\\u00" + [HexDigit(c as int / 16), HexDigit(c as int % 16)]
    else [c]
  }

  function HexDigit(n: nat): char
    requires n < 16
  {
    "0123456789abcdef"[n]
  }

  function EscapedText(s: string): string {
    if s == "" then "" else Escaped(s[0]) + EscapedText(s[1..])
  }

  /** The estimate charges for a text what JSON needs to write it. */
  lemma {:induction false} EscapedCharsAreWritten(s: string)
    ensures |EscapedText(s)| == EscapedChars(s)
  {
    if s != "" { EscapedCharsAreWritten(s[1..]); }
  }

  /** `_message_chars`: the length of the message as JSON. */
  function JsonChars(m: Message): nat {
    m.frame + match m.content
              case Missing => 0
              case Text(t) => EscapedChars(t)
              case Parts(ps, quoting) => |Join(ps, "")| + quoting
  }

  /** Of a message without text only its frame is charged; a list costs the text of its parts and what
      printing them adds. */
  lemma ChargedAsJson(m: Message)
    ensures m.content == Missing ==> JsonChars(m) == m.frame
    ensures m.content.Text? ==> JsonChars(m) == m.frame + |EscapedText(m.content.text)|
    ensures m.content.Parts? ==> JsonChars(m) == m.frame + |Join(m.content.parts, "")| + m.content.quoting
  {
    if m.content.Text? { EscapedCharsAreWritten(m.content.text); }
  }

  function TotalChars(ms: seq<Message>): nat {
    if ms == [] then 0 else JsonChars(ms[0]) + TotalChars(ms[1..])
  }

  function EstimateTokens(ms: seq<Message>): nat {
    (TotalChars(ms) + 2) / 3
  }

  /** Three characters to the token, rounded up. */
  lemma TokensRoundUp(ms: seq<Message>)
    ensures 3 * EstimateTokens(ms) >= TotalChars(ms) > 3 * EstimateTokens(ms) - 3
  {
  }

  predicate Fits(ms: seq<Message>, maxTokens: int) {
    EstimateTokens(ms) <= maxTokens
  }

  // ----- shortening text -----

  /** What an emergency cut appends: two line breaks and 22 characters JSON does not escape. */
  type CutBody = s: string | |s| == 22 && forall i | 0 <= i < |s| :: EscapedChar(s[i]) == 1
    witness seq(22, i => '.')

  const CUT_BODY: CutBody
  const CUT_NOTE := "\n\n" + CUT_BODY

  lemma CutNoteChars()
    ensures |CUT_NOTE| == 24 && EscapedChars(CUT_NOTE) == 26
  {
    OrdinaryCharacters(CUT_BODY);
    assert CUT_NOTE[1..][1..] == CUT_BODY;
  }

  lemma {:induction false} OrdinaryCharacters(s: string)
    requires forall i | 0 <= i < |s| :: EscapedChar(s[i]) == 1
    ensures EscapedChars(s) == |s|
  {
    if s != "" { OrdinaryCharacters(s[1..]); }
  }

  /** First position from `lo` on of a message no other from `lo` on is larger than. */
  function LargestFrom(ms: seq<Message>, lo: nat): (i: nat)
    requires lo < |ms|
    ensures lo <= i < |ms|
    ensures forall k | lo <= k < |ms| :: JsonChars(ms[k]) <= JsonChars(ms[i])
    ensures forall k | lo <= k < i :: JsonChars(ms[k]) < JsonChars(ms[i])
    decreases |ms| - lo
  {
    if lo + 1 == |ms| then lo
    else
      var rest := LargestFrom(ms, lo + 1);
      if JsonChars(ms[lo]) >= JsonChars(ms[rest]) then lo else rest
  }

  function KeepChars(n: nat): (keep: nat)
    ensures keep >= 1
  {
    var wanted := if n < 200 then Max(1, n / 2) else Max(120, 65 * n / 100);
    if wanted >= n then Max(1, n - 1) else wanted
  }

  function ShortenText(t: string): string {
    RStrip(Prefix(t, KeepChars(|t|))) + CUT_NOTE
  }

  /** Of a text of 200 characters or more about 65 percent stay, of a shorter one half. */
  lemma ShortenedKeeps(t: string)
    ensures var keep := KeepChars(|t|);
      && (|t| >= 200 ==> 100 * keep <= 65 * |t| < 100 * (keep + 1))
      && (2 <= |t| < 200 ==> 2 * keep <= |t| <= 2 * keep + 1)
      && IsCut(t, Min(keep, |t|), "\n\n" + CUT_BODY, ShortenText(t))
  {
    hide IsCut;
    hide RStrip;
    var keep := Min(KeepChars(|t|), |t|);
    RStripIsCut(t, keep, CUT_NOTE);
    assert Prefix(t, KeepChars(|t|)) == t[..keep];
  }

  function Shorten(m: Message): Message
    requires m.content.Text?
  {
    m.(content := Text(ShortenText(m.content.text)))
  }

  /** A long text gets strictly shorter; a text of at most 48 characters stays that short. */
  lemma ShorteningProgress(t: string)
    ensures |t| >= 49 ==> |ShortenText(t)| < |t|
    ensures |t| <= 48 ==> |ShortenText(t)| <= 48 && EscapedChars(ShortenText(t)) <= 6 * 24 + 26
  {
    var kept := RStrip(Prefix(t, KeepChars(|t|)));
    CutNoteChars();
    EscapedConcat(kept, CUT_NOTE);
  }

  lemma {:induction false} EscapedConcat(a: string, b: string)
    ensures EscapedChars(a + b) == EscapedChars(a) + EscapedChars(b)
  {
    if a == "" {
      assert a + b == b;
    } else {
      EscapedConcat(a[1..], b);
      assert (a + b)[1..] == a[1..] + b;
    }
  }

  /** One round of the loop in `_trim_text_messages`. */
  function TrimStep(ms: seq<Message>): (r: seq<Message>)
    requires ms != []
  {
    var i := LargestFrom(ms, if |ms| > 1 then 1 else 0);
    if !ms[i].content.Text? || (|ms[i].content.text| < 200 && |ms| > 1) then ms[..i] + ms[i + 1..]
    else ms[i := Shorten(ms[i])]
  }

  /** A round takes the first of the largest messages, leaving out the first of all if there are others.
      It shortens a text of 200 characters or more, or of the only message, and removes all else. */
  lemma RoundTakesLargest(ms: seq<Message>, i: nat)
    requires i < |ms| && (|ms| > 1 ==> i > 0)
    requires forall k | 0 < k < |ms| :: JsonChars(ms[k]) <= JsonChars(ms[i])
    requires forall k | 0 < k < i :: JsonChars(ms[k]) < JsonChars(ms[i])
    ensures TrimStep(ms) ==
      if ms[i].content.Text? && (|ms| == 1 || |ms[i].content.text| >= 200)
      then ms[i := ms[i].(content := Text(ShortenText(ms[i].content.text)))]
      else ms[..i] + ms[i + 1..]
  {
    hide JsonChars;
    hide ShortenText;
    var j := LargestFrom(ms, if |ms| > 1 then 1 else 0);
    assert i == j;
  }

  function TextLength(m: Message): nat {
    if m.content.Text? then |m.content.text| else 0
  }

  function TotalText(ms: seq<Message>): nat {
    if ms == [] then 0 else TextLength(ms[0]) + TotalText(ms[1..])
  }

  lemma {:induction false} TotalTextUpdate(ms: seq<Message>, i: nat, m: Message)
    requires i < |ms|
    ensures TotalText(ms[i := m]) == TotalText(ms) - TextLength(ms[i]) + TextLength(m)
  {
    if i == 0 {
      assert ms[i := m][1..] == ms[1..];
    } else {
      TotalTextUpdate(ms[1..], i - 1, m);
      assert ms[i := m][1..] == ms[1..][i - 1 := m];
    }
  }

  /** A lone message in this frame fits whatever text of at most 48 characters a cut left in it. */
  predicate LoneFits(frame: nat, maxTokens: int) {
    (frame + 6 * 24 + 26 + 2) / 3 <= maxTokens
  }

  /** Same message, perhaps with another text. */
  predicate SameBut(a: Message, b: Message) {
    a.content.Text? && b.content.Text? && a == b.(content := a.content)
  }

  ghost function Potential(ms: seq<Message>, maxTokens: int): nat {
    if Fits(ms, maxTokens) then 0 else 1 + TotalText(ms)
  }

  lemma LoneShortTextFits(m: Message, maxTokens: int)
    requires m.content.Text? && |m.content.text| <= 48 && LoneFits(m.frame, maxTokens)
    ensures Fits([Shorten(m)], maxTokens)
  {
    hide ShortenText;
    ShorteningProgress(m.content.text);
    var r := Shorten(m);
    assert [r][1..] == [] && TotalChars([r]) == JsonChars(r);
    assert JsonChars(r) <= m.frame + 6 * 24 + 26;
  }

  /** A round never removes a first message that is text, and never adds a message. */
  lemma StepKeepsFirst(ms: seq<Message>)
    requires ms != []
    ensures |TrimStep(ms)| <= |ms|
    ensures ms[0].content.Text? ==> TrimStep(ms) != [] && SameBut(ms[0], TrimStep(ms)[0])
    ensures !ms[0].content.Text? && TrimStep(ms) != [] ==> TrimStep(ms)[0] == ms[0]
  {
    hide ShortenText;
  }

  /** Every round removes a message, or makes the list fit, or shortens its text. */
  lemma StepMakesProgress(ms: seq<Message>, maxTokens: int)
    requires ms != [] && !Fits(ms, maxTokens)
    requires ms[0].content.Text? ==> LoneFits(ms[0].frame, maxTokens)
    ensures var r := TrimStep(ms);
      |r| < |ms| || (|r| == |ms| && Potential(r, maxTokens) < Potential(ms, maxTokens))
  {
    hide ShortenText;
    hide EscapedChars;
    hide EscapedChar;
    hide LoneFits;
    hide Fits;
    var i := LargestFrom(ms, if |ms| > 1 then 1 else 0);
    if ms[i].content.Text? && (|ms[i].content.text| >= 200 || |ms| == 1) {
      var t := ms[i].content.text;
      ShorteningProgress(t);
      TotalTextUpdate(ms, i, Shorten(ms[i]));
      if |t| <= 48 {
        LoneShortTextFits(ms[0], maxTokens);
        assert ms[i := Shorten(ms[i])] == [Shorten(ms[0])];
      }
    }
  }

  /** The list after `n` rounds. */
  function TrimRounds(ms: seq<Message>, n: nat): seq<Message> {
    if n == 0 then ms
    else
      var before := TrimRounds(ms, n - 1);
      if before == [] then [] else TrimStep(before)
  }

  predicate IsTrimmed(ms: seq<Message>, maxTokens: int) {
    ms == [] || Fits(ms, maxTokens)
  }

  /** The loop ends within `n` rounds. */
  predicate TrimEnds(ms: seq<Message>, maxTokens: int, n: nat) {
    IsTrimmed(TrimRounds(ms, n), maxTokens)
  }

  lemma {:induction false} OneRoundFirst(ms: seq<Message>, n: nat)
    requires ms != []
    ensures TrimRounds(ms, n + 1) == TrimRounds(TrimStep(ms), n)
  {
    hide TrimStep;
    if n > 0 { OneRoundFirst(ms, n - 1); }
  }

  /** It does, unless the first message is text and its frame leaves that too little room. */
  lemma {:induction false} TrimmingEnds(ms: seq<Message>, maxTokens: int) returns (n: nat)
    requires ms != [] && ms[0].content.Text? ==> LoneFits(ms[0].frame, maxTokens)
    ensures TrimEnds(ms, maxTokens, n)
    decreases |ms|, Potential(ms, maxTokens)
  {
    hide Fits;
    hide TrimStep;
    hide LoneFits;
    if IsTrimmed(ms, maxTokens) {
      n := 0;
    } else {
      StepKeepsFirst(ms);
      StepMakesProgress(ms, maxTokens);
      var k := TrimmingEnds(TrimStep(ms), maxTokens);
      OneRoundFirst(ms, k);
      n := k + 1;
    }
  }

  /** The list after the first `n` rounds, all of which were needed. */
  ghost predicate TrimsTo(ms: seq<Message>, maxTokens: int, n: nat, r: seq<Message>) {
    && r == TrimRounds(ms, n)
    && forall k: nat | k < n :: !IsTrimmed(TrimRounds(ms, k), maxTokens)
  }

  lemma OneMoreTrim(ms: seq<Message>, maxTokens: int, n: nat, r: seq<Message>)
    requires TrimsTo(ms, maxTokens, n, r) && !IsTrimmed(r, maxTokens)
    ensures TrimsTo(ms, maxTokens, n + 1, TrimStep(r))
  {
  }

  lemma NotYetTrimmed(ms: seq<Message>, maxTokens: int, bound: nat, n: nat, r: seq<Message>)
    requires TrimEnds(ms, maxTokens, bound) && TrimsTo(ms, maxTokens, n, r)
    ensures n <= bound && (!IsTrimmed(r, maxTokens) ==> n < bound)
  {
  }

  /** `_trim_text_messages`, on any list on which its loop ends: as many rounds as it takes. */
  method TrimTextMessages(messages: seq<Message>, maxTokens: int, ghost bound: nat)
    returns (trimmed: seq<Message>, ghost rounds: nat)
    requires TrimEnds(messages, maxTokens, bound)
    ensures TrimsTo(messages, maxTokens, rounds, trimmed)
    ensures trimmed == [] || Fits(trimmed, maxTokens)
    ensures |trimmed| <= |messages|
    ensures messages != [] && messages[0].content.Text? ==> trimmed != [] && SameBut(messages[0], trimmed[0])
  {
    hide Fits;
    hide ShortenText;
    hide TrimsTo;
    hide TrimEnds;
    trimmed, rounds := messages, 0;
    NoTrimYet(messages, maxTokens);
    while !Fits(trimmed, maxTokens) && trimmed != []
      invariant TrimsTo(messages, maxTokens, rounds, trimmed)
      invariant |trimmed| <= |messages|
      invariant messages != [] && messages[0].content.Text? ==> trimmed != [] && SameBut(messages[0], trimmed[0])
      decreases bound - rounds
    {
      NotYetTrimmed(messages, maxTokens, bound, rounds, trimmed);
      StepKeepsFirst(trimmed);
      OneMoreTrim(messages, maxTokens, rounds, trimmed);
      ghost var next := TrimStep(trimmed);
      var largest := LargestFrom(trimmed, if |trimmed| > 1 then 1 else 0);
      var content := trimmed[largest].content;
      if !content.Text? {
        trimmed := trimmed[..largest] + trimmed[largest + 1..];
      } else if |content.text| < 200 && |trimmed| > 1 {
        trimmed := trimmed[..largest] + trimmed[largest + 1..];
      } else {
        trimmed := trimmed[largest := Shorten(trimmed[largest])];
      }
      assert trimmed == next;
      rounds := rounds + 1;
    }
  }

  lemma NoTrimYet(ms: seq<Message>, maxTokens: int)
    ensures TrimsTo(ms, maxTokens, 0, ms)
  {
  }

  // ----- when shortening a lone message ends -----

  /** The text of a lone message after `n` rounds. */
  function Rounds(t: string, n: nat): string
    decreases n
  {
    if n == 0 then t else Rounds(ShortenText(t), n - 1)
  }

  predicate LoneTextFits(frame: nat, t: string, maxTokens: int) {
    (frame + EscapedChars(t) + 2) / 3 <= maxTokens
  }

  /** A text no round can change any more. */
  lemma StuckText(p: string)
    requires |p| == 24 && !IsSpace(p[23])
    ensures ShortenText(p + CUT_NOTE) == p + CUT_NOTE
  {
    var t := p + CUT_NOTE;
    CutNoteChars();
    assert Prefix(t, KeepChars(|t|)) == p;
  }

  lemma {:induction false} StuckForever(p: string, n: nat)
    requires |p| == 24 && !IsSpace(p[23])
    ensures Rounds(p + CUT_NOTE, n) == p + CUT_NOTE
  {
    StuckText(p);
    if n > 0 { StuckForever(p, n - 1); }
  }

  lemma {:induction false} RoundsReachShort(t: string) returns (n: nat)
    ensures |Rounds(t, n)| <= 48
    decreases |t|
  {
    hide ShortenText;
    if |t| <= 48 {
      n := 0;
    } else {
      ShorteningProgress(t);
      var k := RoundsReachShort(ShortenText(t));
      n := k + 1;
    }
  }

  lemma {:induction false} OneMoreRound(t: string, n: nat)
    ensures Rounds(t, n + 1) == ShortenText(Rounds(t, n))
    decreases n
  {
    hide ShortenText;
    if n > 0 { OneMoreRound(ShortenText(t), n - 1); }
  }

  lemma {:induction false} ControlCharacters(n: nat)
    ensures EscapedChars(seq(n, _ => 1 as char)) == 6 * n
  {
    var s := seq(n, _ => 1 as char);
    if n > 0 {
      assert s[1..] == seq(n - 1, _ => 1 as char);
      ControlCharacters(n - 1);
    }
  }

  ghost predicate EndsFor(frame: nat, t: string, maxTokens: int) {
    exists n: nat :: LoneTextFits(frame, Rounds(t, n), maxTokens)
  }

  /** Shortening ends for every text exactly when the frame leaves room for the longest text a round
      cannot shorten: 24 characters, escaped, and the note. */
  lemma ShorteningTextsEndsIff(frame: nat, maxTokens: int)
    ensures (forall t: string :: EndsFor(frame, t, maxTokens)) <==> LoneFits(frame, maxTokens)
  {
    hide ShortenText;
    if LoneFits(frame, maxTokens) {
      forall t: string ensures EndsFor(frame, t, maxTokens) {
        var n := RoundsReachShort(t);
        OneMoreRound(t, n);
        ShorteningProgress(Rounds(t, n));
        assert LoneTextFits(frame, Rounds(t, n + 1), maxTokens);
      }
    }
    if forall t: string :: EndsFor(frame, t, maxTokens) {
      var p := seq(24, _ => 1 as char);
      var t := p + CUT_NOTE;
      assert EndsFor(frame, t, maxTokens);
      var n: nat :| LoneTextFits(frame, Rounds(t, n), maxTokens);
      StuckForever(p, n);
      ControlCharacters(24);
      CutNoteChars();
      EscapedConcat(p, CUT_NOTE);
    }
  }

  /** A round of the loop on a lone message shortens its text. */
  lemma {:induction false} LoneRounds(m: Message, n: nat)
    requires m.content.Text?
    ensures TrimRounds([m], n) == [m.(content := Text(Rounds(m.content.text, n)))]
  {
    hide ShortenText;
    hide Rounds;
    if n > 0 {
      LoneRounds(m, n - 1);
      OneMoreRound(m.content.text, n - 1);
    } else {
      NoRounds(m.content.text);
    }
  }

  lemma NoRounds(t: string)
    ensures Rounds(t, 0) == t
  {
  }

  lemma LoneFitsText(m: Message, t: string, maxTokens: int)
    ensures Fits([m.(content := Text(t))], maxTokens) <==> LoneTextFits(m.frame, t, maxTokens)
  {
    hide EscapedChars;
    var r := m.(content := Text(t));
    assert [r][1..] == [] && TotalChars([r]) == JsonChars(r);
  }

  /** The loop ends on a lone message, for some number of rounds. */
  ghost predicate EndsOnLone(m: Message, maxTokens: int) {
    exists n: nat :: TrimEnds([m], maxTokens, n)
  }

  lemma LoneEndsIffTextDoes(m: Message, maxTokens: int)
    requires m.content.Text?
    ensures EndsOnLone(m, maxTokens) <==> EndsFor(m.frame, m.content.text, maxTokens)
  {
    hide Rounds;
    hide Fits;
    hide LoneTextFits;
    hide TrimRounds;
    var t := m.content.text;
    forall n: nat ensures TrimEnds([m], maxTokens, n) <==> LoneTextFits(m.frame, Rounds(t, n), maxTokens) {
      LoneRounds(m, n);
      LoneFitsText(m, Rounds(t, n), maxTokens);
    }
  }

  /** The loop ends on every lone message in a frame exactly when the frame leaves room for the
      longest text a round cannot shorten. */
  lemma LoneShorteningEndsIff(frame: nat, maxTokens: int)
    ensures (forall m: Message | m.content.Text? && m.frame == frame :: EndsOnLone(m, maxTokens))
      <==> LoneFits(frame, maxTokens)
  {
    hide EndsFor;
    hide EndsOnLone;
    hide LoneFits;
    ShorteningTextsEndsIff(frame, maxTokens);
    forall m: Message | m.content.Text? && m.frame == frame
      ensures EndsOnLone(m, maxTokens) <==> EndsFor(frame, m.content.text, maxTokens)
    {
      LoneEndsIffTextDoes(m, maxTokens);
    }
    if forall m: Message | m.content.Text? && m.frame == frame :: EndsOnLone(m, maxTokens) {
      forall t: string ensures EndsFor(frame, t, maxTokens) {
        var m := Plain(User, t).(frame := frame);
        assert m.content.Text? && m.frame == frame && m.content.text == t;
        assert EndsOnLone(m, maxTokens);
      }
    }
  }

  // ----- dropping whole turns -----

  function SystemOf(ms: seq<Message>): seq<Message> {
    if ms == [] then []
    else if ms[0].role.System? then [ms[0]] + SystemOf(ms[1..])
    else SystemOf(ms[1..])
  }

  function NonSystemOf(ms: seq<Message>): seq<Message> {
    if ms == [] then []
    else if ms[0].role.System? then NonSystemOf(ms[1..])
    else [ms[0]] + NonSystemOf(ms[1..])
  }

  /** System messages and the others are told apart one by one and stay in order. */
  lemma {:induction false} SystemIsFiltered(a: seq<Message>, m: Message)
    ensures SystemOf([]) == [] && NonSystemOf([]) == []
    ensures SystemOf(a + [m]) == if m.role.System? then SystemOf(a) + [m] else SystemOf(a)
    ensures NonSystemOf(a + [m]) == if m.role.System? then NonSystemOf(a) else NonSystemOf(a) + [m]
  {
    if a != [] {
      assert (a + [m])[1..] == a[1..] + [m];
      SystemIsFiltered(a[1..], m);
    } else {
      assert a + [m] == [m] && [m][1..] == [];
    }
  }

  /** The first turns, always selected. */
  function Opening(groups: seq<seq<Message>>): nat {
    Min(2, |groups|)
  }

  /** System messages, the opening turns and the turns from `t` on. */
  function Selection(system: seq<Message>, groups: seq<seq<Message>>, t: nat): seq<Message>
    requires t <= |groups|
  {
    system + (Flatten(groups[..Opening(groups)]) + Flatten(groups[t..]))
  }

  predicate SelectionFits(system: seq<Message>, groups: seq<seq<Message>>, t: nat, maxTokens: int)
    requires t <= |groups|
  {
    Fits(Selection(system, groups, t), maxTokens)
  }

  /** Where the longest suffix of turns that still fits starts, given that the one from `t` does. */
  function SuffixStart(system: seq<Message>, groups: seq<seq<Message>>, maxTokens: int, t: nat): (s: nat)
    requires Opening(groups) <= t <= |groups|
    ensures Opening(groups) <= s <= t
    decreases t
  {
    if t > Opening(groups) && SelectionFits(system, groups, t - 1, maxTokens)
    then SuffixStart(system, groups, maxTokens, t - 1) else t
  }

  /** The result of `emergency_trim` for a list that is over its limit. */
  function TrimmedSelection(ms: seq<Message>, maxTokens: int): seq<Message> {
    var system, groups := SystemOf(ms), GroupTurns(NonSystemOf(ms));
    Selection(system, groups, SuffixStart(system, groups, maxTokens, |groups|))
  }

  lemma {:induction false} TotalConcat(a: seq<Message>, b: seq<Message>)
    ensures TotalChars(a + b) == TotalChars(a) + TotalChars(b)
  {
    hide JsonChars;
    if a == [] {
      assert a + b == b;
    } else {
      TotalConcat(a[1..], b);
      assert (a + b)[1..] == a[1..] + b;
    }
  }

  function GroupChars(groups: seq<seq<Message>>, lo: nat): nat
    requires lo <= |groups|
    decreases |groups| - lo
  {
    if lo == |groups| then 0 else TotalChars(groups[lo]) + GroupChars(groups, lo + 1)
  }

  lemma {:induction false} SuffixTotal(groups: seq<seq<Message>>, lo: nat)
    requires lo <= |groups|
    ensures TotalChars(Flatten(groups[lo..])) == GroupChars(groups, lo)
    decreases |groups| - lo
  {
    hide TotalChars;
    if lo == |groups| {
      assert groups[lo..] == [];
      EmptyTotal();
    } else {
      assert groups[lo..][1..] == groups[lo + 1..];
      TotalConcat(groups[lo], Flatten(groups[lo + 1..]));
      SuffixTotal(groups, lo + 1);
    }
  }

  lemma EmptyTotal()
    ensures TotalChars([]) == 0
  {
  }

  lemma SelectionTotal(system: seq<Message>, groups: seq<seq<Message>>, t: nat)
    requires t <= |groups|
    ensures TotalChars(Selection(system, groups, t))
         == TotalChars(system) + TotalChars(Flatten(groups[..Opening(groups)])) + GroupChars(groups, t)
  {
    hide TotalChars;
    hide Flatten;
    SuffixTotal(groups, t);
    TotalConcat(system, Flatten(groups[..Opening(groups)]) + Flatten(groups[t..]));
    TotalConcat(Flatten(groups[..Opening(groups)]), Flatten(groups[t..]));
  }

  lemma {:induction false} GroupCharsMonotone(groups: seq<seq<Message>>, s: nat, t: nat)
    requires s <= t <= |groups|
    ensures GroupChars(groups, t) <= GroupChars(groups, s)
    decreases t - s
  {
    if s < t { GroupCharsMonotone(groups, s + 1, t); }
  }

  lemma FewerTurnsFit(system: seq<Message>, groups: seq<seq<Message>>, s: nat, t: nat, maxTokens: int)
    requires s <= t <= |groups| && SelectionFits(system, groups, s, maxTokens)
    ensures SelectionFits(system, groups, t, maxTokens)
  {
    hide TotalChars;
    hide Selection;
    SelectionTotal(system, groups, s);
    SelectionTotal(system, groups, t);
    GroupCharsMonotone(groups, s, t);
  }

  /** The suffix chosen fits, and no longer one does. */
  lemma {:induction false} SuffixStartIsLongest(
      system: seq<Message>, groups: seq<seq<Message>>, maxTokens: int, t: nat)
    requires Opening(groups) <= t <= |groups| && SelectionFits(system, groups, t, maxTokens)
    ensures var s := SuffixStart(system, groups, maxTokens, t);
      && SelectionFits(system, groups, s, maxTokens)
      && forall r | Opening(groups) <= r < s :: !SelectionFits(system, groups, r, maxTokens)
    decreases t
  {
    hide SelectionFits;
    if t > Opening(groups) && SelectionFits(system, groups, t - 1, maxTokens) {
      SuffixStartIsLongest(system, groups, maxTokens, t - 1);
    } else {
      forall r | Opening(groups) <= r < t ensures !SelectionFits(system, groups, r, maxTokens) {
        if SelectionFits(system, groups, r, maxTokens) {
          FewerTurnsFit(system, groups, r, t - 1, maxTokens);
        }
      }
    }
  }

  lemma {:induction false} SystemSplitTotal(ms: seq<Message>)
    ensures TotalChars(SystemOf(ms)) + TotalChars(NonSystemOf(ms)) == TotalChars(ms)
  {
    hide JsonChars;
    if ms != [] {
      SystemSplitTotal(ms[1..]);
      var m := ms[0];
      assert ([m] + SystemOf(ms[1..]))[1..] == SystemOf(ms[1..]);
      assert ([m] + NonSystemOf(ms[1..]))[1..] == NonSystemOf(ms[1..]);
    }
  }

  /** When everything together is too much, so is selecting every turn. */
  lemma SelectingAllIsAll(ms: seq<Message>, maxTokens: int)
    ensures var system, groups := SystemOf(ms), GroupTurns(NonSystemOf(ms));
      Fits(ms, maxTokens) <==> SelectionFits(system, groups, Opening(groups), maxTokens)
  {
    hide TotalChars;
    hide GroupTurns;
    var system, groups := SystemOf(ms), GroupTurns(NonSystemOf(ms));
    var h := Opening(groups);
    SystemSplitTotal(ms);
    FlattenTurns(NonSystemOf(ms));
    assert groups[..h] + groups[h..] == groups;
    FlattenConcat(groups[..h], groups[h..]);
    assert Selection(system, groups, h) == system + NonSystemOf(ms);
    TotalConcat(system, NonSystemOf(ms));
  }

  /** What the group selection promises: within the limit, and the longest such suffix of turns. */
  lemma TrimmedSelectionIsLongest(ms: seq<Message>, maxTokens: int)
    requires var groups := GroupTurns(NonSystemOf(ms));
      SelectionFits(SystemOf(ms), groups, |groups|, maxTokens)
    ensures Fits(TrimmedSelection(ms, maxTokens), maxTokens)
    ensures var system, groups := SystemOf(ms), GroupTurns(NonSystemOf(ms));
      forall r | Opening(groups) <= r < SuffixStart(system, groups, maxTokens, |groups|) ::
        !SelectionFits(system, groups, r, maxTokens)
  {
    hide GroupTurns;
    hide Selection;
    var groups := GroupTurns(NonSystemOf(ms));
    SuffixStartIsLongest(SystemOf(ms), groups, maxTokens, |groups|);
  }

  /** The group selection never tears a tool-call group apart. */
  lemma TrimmedSelectionIsLegal(ms: seq<Message>, maxTokens: int)
    requires Legal(NonSystemOf(ms)) && CallsComeFromAssistants(ms)
    ensures Legal(TrimmedSelection(ms, maxTokens))
  {
    hide Legal;
    hide GroupTurns;
    hide SuffixStart;
    var system, groups := SystemOf(ms), GroupTurns(NonSystemOf(ms));
    var h, t := Opening(groups), SuffixStart(system, groups, maxTokens, |groups|);
    TurnsAreLegal(NonSystemOf(ms));
    FlattenLegal(groups[..h]);
    FlattenLegal(groups[t..]);
    LegalConcat(Flatten(groups[..h]), Flatten(groups[t..]));
    SystemIsLegal(ms);
    LegalConcat(system, Flatten(groups[..h]) + Flatten(groups[t..]));
  }

  /** Neither does the least selection, before texts are cut. */
  lemma LeastSelectionIsLegal(ms: seq<Message>)
    requires Legal(NonSystemOf(ms)) && CallsComeFromAssistants(ms)
    ensures Legal(LeastSelection(ms))
  {
    hide Legal;
    hide GroupTurns;
    var system, groups := SystemOf(ms), GroupTurns(NonSystemOf(ms));
    SystemIsLegal(ms);
    if groups != [] {
      var h := Opening(groups);
      TurnsAreLegal(NonSystemOf(ms));
      FlattenLegal(groups[..h]);
      FlattenLegal(groups[|groups|..]);
      LegalConcat(Flatten(groups[..h]), Flatten(groups[|groups|..]));
      LegalConcat(system, Flatten(groups[..h]) + Flatten(groups[|groups|..]));
    }
  }

  lemma {:induction false} SystemIsLegal(ms: seq<Message>)
    requires CallsComeFromAssistants(ms)
    ensures Legal(SystemOf(ms))
  {
    hide Legal;
    if ms == [] {
      EmptyIsLegal();
    } else {
      assert ms[0] in ms;
      SystemIsLegal(ms[1..]);
      if ms[0].role.System? {
        LegalSingleton(ms[0]);
        LegalConcat([ms[0]], SystemOf(ms[1..]));
      }
    }
  }

  lemma {:induction false} NonSystemSkips(a: seq<Message>, b: seq<Message>)
    requires forall i | 0 <= i < |a| :: !a[i].role.System?
    ensures NonSystemOf(a + b) == a + NonSystemOf(b)
  {
    if a == [] {
      assert a + b == b && a + NonSystemOf(b) == NonSystemOf(b);
    } else {
      NonSystemSkips(a[1..], b);
      FirstOfAppended(a, b);
      FirstOfAppended(a, NonSystemOf(b));
    }
  }

  lemma FirstOfAppended(a: seq<Message>, b: seq<Message>)
    requires a != []
    ensures a + b != [] && (a + b)[0] == a[0] && (a + b)[1..] == a[1..] + b
    ensures a + b == [a[0]] + (a[1..] + b)
  {
  }

  /** The first block is a single system message, or has none in it. */
  lemma NoSystemInBlock(ms: seq<Message>)
    requires ms != [] && CallsComeFromAssistants(ms) && Block(ms) > 0
    ensures ms[0].role.System? ==> Block(ms) == 1
    ensures !ms[0].role.System? ==> forall i | 0 <= i < Block(ms) :: !ms[i].role.System?
  {
    hide Block;
    assert ms[0] in ms;
    if Block(ms) > 1 { BlockIsHeadAndResults(ms, 1); }
    forall i | 0 < i < Block(ms) ensures !ms[i].role.System? { BlockIsHeadAndResults(ms, i); }
  }

  /** System messages can be taken out of a legal transcript wherever they stand. */
  lemma {:induction false} NonSystemIsLegal(ms: seq<Message>)
    requires Legal(ms) && CallsComeFromAssistants(ms)
    ensures Legal(NonSystemOf(ms))
    decreases |ms|
  {
    hide Block;
    if ms != [] {
      var n := Block(ms);
      var head, rest := ms[..n], ms[n..];
      NoSystemInBlock(ms);
      NonSystemIsLegal(rest);
      if ms[0].role.System? {
        assert ms[1..] == rest;
      } else {
        NonSystemSkips(head, rest);
        assert ms == head + rest;
        BlockIsLocal(ms, n);
        assert head[n..] == [];
        LegalConcat(head, NonSystemOf(rest));
      }
    }
  }

  // ----- the loops of `emergency_trim` -----

  /** `_flatten_groups` without the system messages: the selected groups from `lo` on. */
  function FlattenSelected(groups: seq<seq<Message>>, selected: set<nat>, lo: nat): seq<Message>
    requires lo <= |groups|
    decreases |groups| - lo
  {
    if lo == |groups| then []
    else if lo in selected then groups[lo] + FlattenSelected(groups, selected, lo + 1)
    else FlattenSelected(groups, selected, lo + 1)
  }

  ghost predicate Selected(selected: set<nat>, h: nat, t: nat, n: nat) {
    forall i: nat :: i in selected <==> i < h || t <= i < n
  }

  lemma {:induction false} FlattenSelectedSuffix(groups: seq<seq<Message>>, selected: set<nat>, t: nat, lo: nat)
    requires lo <= t <= |groups|
    requires forall i: nat | lo <= i < |groups| :: i in selected <==> t <= i
    ensures FlattenSelected(groups, selected, lo) == Flatten(groups[t..])
    decreases |groups| - lo
  {
    if lo < t {
      FlattenSelectedSuffix(groups, selected, t, lo + 1);
    } else if lo < |groups| {
      FlattenSelectedSuffix(groups, selected, t + 1, lo + 1);
      assert groups[t..][1..] == groups[t + 1..];
    }
  }

  lemma {:induction false} FlattenSelectedBoth(
      groups: seq<seq<Message>>, selected: set<nat>, h: nat, t: nat, lo: nat)
    requires lo <= h <= t <= |groups| && Selected(selected, h, t, |groups|)
    ensures FlattenSelected(groups, selected, lo) == Flatten(groups[lo..h]) + Flatten(groups[t..])
    decreases h - lo
  {
    if lo == h {
      assert groups[lo..h] == [];
      FlattenSelectedSuffix(groups, selected, t, lo);
    } else {
      FlattenSelectedBoth(groups, selected, h, t, lo + 1);
      assert groups[lo..h][1..] == groups[lo + 1..h];
      assert groups[lo] + (Flatten(groups[lo + 1..h]) + Flatten(groups[t..]))
          == (groups[lo] + Flatten(groups[lo + 1..h])) + Flatten(groups[t..]);
    }
  }

  method FlattenGroups(groups: seq<seq<Message>>, selected: set<nat>, system: seq<Message>, ghost t: nat)
    returns (messages: seq<Message>)
    requires Opening(groups) <= t <= |groups| && Selected(selected, Opening(groups), t, |groups|)
    ensures messages == Selection(system, groups, t)
  {
    hide Flatten;
    hide Selected;
    messages := system;
    ghost var goal := system + FlattenSelected(groups, selected, 0);
    for index := 0 to |groups|
      invariant goal == messages + FlattenSelected(groups, selected, index)
    {
      if index in selected { messages := messages + groups[index]; }
    }
    FlattenSelectedBoth(groups, selected, Opening(groups), t, 0);
  }

  lemma {:induction false} SuffixStartIs(
      system: seq<Message>, groups: seq<seq<Message>>, maxTokens: int, s: nat, t: nat)
    requires Opening(groups) <= s <= t <= |groups|
    requires SelectionFits(system, groups, s, maxTokens)
    requires s > Opening(groups) ==> !SelectionFits(system, groups, s - 1, maxTokens)
    ensures SuffixStart(system, groups, maxTokens, t) == s
    decreases t
  {
    hide SelectionFits;
    if s < t {
      FewerTurnsFit(system, groups, s, t - 1, maxTokens);
      SuffixStartIs(system, groups, maxTokens, s, t - 1);
    }
  }

  ghost predicate OpeningFits(ms: seq<Message>, maxTokens: int) {
    var all := SystemOf(ms) + NonSystemOf(ms);
    all != [] && all[0].content.Text? ==> LoneFits(all[0].frame, maxTokens)
  }

  lemma SelectionStartsTheSame(ms: seq<Message>, t: nat)
    requires var groups := GroupTurns(NonSystemOf(ms)); groups != [] && t <= |groups|
    ensures var groups := GroupTurns(NonSystemOf(ms));
      var selection, all := Selection(SystemOf(ms), groups, t), SystemOf(ms) + NonSystemOf(ms);
      selection != [] && all != [] && selection[0] == all[0]
  {
    var rest := NonSystemOf(ms);
    var groups := GroupTurns(rest);
    assert groups[0] == rest[..TurnLength(rest)];
    assert groups[..Opening(groups)][0] == groups[0];
    assert Flatten(groups[..Opening(groups)])[0] == rest[0];
  }

  lemma SystemOpens(ms: seq<Message>)
    requires GroupTurns(NonSystemOf(ms)) == []
    ensures SystemOf(ms) == SystemOf(ms) + NonSystemOf(ms)
  {
  }

  /** The first loop: add turns from the back while the selection fits. */
  method GrowTail(system: seq<Message>, groups: seq<seq<Message>>, maxTokens: int)
    returns (selected: set<nat>, messages: seq<Message>, ghost t: nat)
    ensures Opening(groups) <= t <= |groups| && Selected(selected, Opening(groups), t, |groups|)
    ensures messages == Selection(system, groups, t)
    ensures t < |groups| ==> SelectionFits(system, groups, t + 1, maxTokens)
    ensures Fits(messages, maxTokens) ==> t == Opening(groups)
  {
    hide Fits;
    hide Selection;
    selected := {};
    var h := Opening(groups);
    for index := 0 to h
      invariant forall i: nat :: i in selected <==> i < index
    {
      selected := selected + {index};
    }
    t := |groups|;
    messages := FlattenGroups(groups, selected, system, t);
    var tail := |groups| - 1;
    while tail >= 0 && Fits(messages, maxTokens)
      invariant -1 <= tail < |groups| && t == Max(tail + 1, h)
      invariant Selected(selected, h, t, |groups|)
      invariant messages == Selection(system, groups, t)
      invariant t < |groups| ==> SelectionFits(system, groups, t + 1, maxTokens)
    {
      selected := selected + {tail};
      if tail >= h { t := tail; }
      messages := FlattenGroups(groups, selected, system, t);
      tail := tail - 1;
    }
  }

  /** The second loop: take turns back, earliest first, until the selection fits. */
  method ShrinkTail(
      system: seq<Message>, groups: seq<seq<Message>>, maxTokens: int,
      chosen: set<nat>, grown: seq<Message>, ghost from: nat)
    returns (messages: seq<Message>, ghost t: nat)
    requires Opening(groups) <= from <= |groups| && Selected(chosen, Opening(groups), from, |groups|)
    requires grown == Selection(system, groups, from)
    requires from < |groups| ==> SelectionFits(system, groups, from + 1, maxTokens)
    requires Fits(grown, maxTokens) ==> from == Opening(groups)
    requires !SelectionFits(system, groups, Opening(groups), maxTokens)
    ensures Opening(groups) <= t <= |groups| && messages == Selection(system, groups, t)
    ensures from <= t <= from + 1  // at most one turn is taken back
    ensures Fits(messages, maxTokens) ==> t == SuffixStart(system, groups, maxTokens, |groups|)
    ensures !Fits(messages, maxTokens) ==> t == |groups|
  {
    hide Fits;
    hide Selection;
    hide SuffixStart;
    var selected := chosen;
    messages, t := grown, from;
    while !Fits(messages, maxTokens) && selected != {}
      invariant Opening(groups) <= t <= |groups| && Selected(selected, Opening(groups), t, |groups|)
      invariant messages == Selection(system, groups, t)
      invariant t == from || (t == from + 1 && Fits(messages, maxTokens))
      invariant t < |groups| && !Fits(messages, maxTokens) ==> SelectionFits(system, groups, t + 1, maxTokens)
      invariant Fits(messages, maxTokens) ==> t > Opening(groups) && !SelectionFits(system, groups, t - 1, maxTokens)
      decreases |groups| - t
    {
      var removable := set i | i in selected && i >= 2;
      assert t < |groups| ==> t in removable;
      if removable == {} { break; }
      var first := 2;
      while first !in removable
        invariant 2 <= first && forall i | 2 <= i < first :: i !in removable
        invariant first <= t
        decreases t - first
      {
        first := first + 1;
      }
      selected := selected - {first};
      t := t + 1;
      messages := FlattenGroups(groups, selected, system, t);
    }
    assert t < |groups| ==> t in selected;
    if Fits(messages, maxTokens) {
      SuffixStartIs(system, groups, maxTokens, t, |groups|);
    }
  }

  /** No selection of turns helps: texts have to be cut. */
  predicate MustCut(ms: seq<Message>, maxTokens: int) {
    var groups := GroupTurns(NonSystemOf(ms));
    !Fits(ms, maxTokens) && (groups == [] || !SelectionFits(SystemOf(ms), groups, |groups|, maxTokens))
  }

  /** System messages and opening turns, from which texts are cut. */
  function LeastSelection(ms: seq<Message>): seq<Message> {
    var groups := GroupTurns(NonSystemOf(ms));
    if groups == [] then SystemOf(ms) else Selection(SystemOf(ms), groups, |groups|)
  }

  /** Cutting texts ends when the first message, if text, leaves room for a short one. */
  lemma EmergencyCuttingEnds(ms: seq<Message>, maxTokens: int) returns (n: nat)
    requires MustCut(ms, maxTokens) && OpeningFits(ms, maxTokens)
    ensures TrimEnds(LeastSelection(ms), maxTokens, n)
  {
    hide GroupTurns;
    hide Selection;
    hide TrimEnds;
    hide Fits;
    hide LoneFits;
    var groups := GroupTurns(NonSystemOf(ms));
    if groups == [] { SystemOpens(ms); } else { SelectionStartsTheSame(ms, |groups|); }
    n := TrimmingEnds(LeastSelection(ms), maxTokens);
  }

  /** What becomes of a list: it stays if it fits, loses whole turns if that is enough, and otherwise
      what is left of it has its texts cut in as many rounds as it takes. */
  ghost predicate TrimmedTo(ms: seq<Message>, maxTokens: int, rounds: nat, r: seq<Message>) {
    && (Fits(ms, maxTokens) ==> r == ms)
    && (!Fits(ms, maxTokens) && !MustCut(ms, maxTokens) ==> r == TrimmedSelection(ms, maxTokens))
    && (MustCut(ms, maxTokens) ==> TrimsTo(LeastSelection(ms), maxTokens, rounds, r))
  }

  /** System messages, the first `k` turns and those from `t` on, with `t` as small as the limit allows. */
  ghost predicate KeepsLongestTail(
      system: seq<Message>, groups: seq<seq<Message>>, k: nat, t: nat, maxTokens: int, r: seq<Message>)
  {
    && k <= t <= |groups|
    && r == system + Flatten(groups[..k]) + Flatten(groups[t..]) && Fits(r, maxTokens)
    && forall s | k <= s < t :: !Fits(system + Flatten(groups[..k]) + Flatten(groups[s..]), maxTokens)
  }

  ghost predicate KeepsSomeTail(
      system: seq<Message>, groups: seq<seq<Message>>, k: nat, maxTokens: int, r: seq<Message>)
  {
    exists t: nat :: KeepsLongestTail(system, groups, k, t, maxTokens, r)
  }

  /** A list that is too long keeps its first two turns, or its only one, and as many of the last ones as
      fit; when not even the first two fit beside the system messages, these are what is cut. */
  ghost predicate KeepsTwoTurns(ms: seq<Message>, maxTokens: int, rounds: nat, r: seq<Message>) {
    var system, groups := SystemOf(ms), GroupTurns(NonSystemOf(ms));
    var k := if |groups| < 2 then |groups| else 2;
    var least := system + Flatten(groups[..k]);
    if Fits(ms, maxTokens) then r == ms
    else if Fits(least, maxTokens) then KeepsSomeTail(system, groups, k, maxTokens, r)
    else TrimsTo(least, maxTokens, rounds, r)
  }

  lemma SelectionIs(system: seq<Message>, groups: seq<seq<Message>>, t: nat)
    requires t <= |groups|
    ensures var k := if |groups| < 2 then |groups| else 2;
      && Opening(groups) == k
      && Selection(system, groups, t) == system + Flatten(groups[..k]) + Flatten(groups[t..])
      && Selection(system, groups, |groups|) == system + Flatten(groups[..k])
  {
    assert groups[|groups|..] == [];
  }

  lemma TrimmedKeepsTwoTurns(ms: seq<Message>, maxTokens: int, rounds: nat, r: seq<Message>)
    requires TrimmedTo(ms, maxTokens, rounds, r)
    ensures KeepsTwoTurns(ms, maxTokens, rounds, r)
  {
    hide Fits;
    hide GroupTurns;
    hide Selection;
    hide SuffixStart;
    hide TrimsTo;
    hide Opening;
    hide Flatten;
    var system, groups := SystemOf(ms), GroupTurns(NonSystemOf(ms));
    var n := |groups|;
    SelectionIs(system, groups, n);
    SelectingAllIsAll(ms, maxTokens);
    if groups == [] {
      SystemOnly(ms);
    } else if !Fits(ms, maxTokens) && SelectionFits(system, groups, n, maxTokens) {
      var t := SuffixStart(system, groups, maxTokens, n);
      SuffixStartIsLongest(system, groups, maxTokens, n);
      SelectionIs(system, groups, t);
      assert r == Selection(system, groups, t) && SelectionFits(system, groups, t, maxTokens);
      forall s | Opening(groups) <= s < t
        ensures !Fits(system + Flatten(groups[..Opening(groups)]) + Flatten(groups[s..]), maxTokens)
      {
        SelectionIs(system, groups, s);
        assert !SelectionFits(system, groups, s, maxTokens);
      }
      var k := if |groups| < 2 then |groups| else 2;
      assert KeepsLongestTail(system, groups, k, t, maxTokens, r);
      assert Fits(system + Flatten(groups[..k]), maxTokens);
    }
  }

  lemma SystemOnly(ms: seq<Message>)
    requires GroupTurns(NonSystemOf(ms)) == []
    ensures SystemOf(ms) + Flatten([]) == SystemOf(ms)
    ensures GroupTurns(NonSystemOf(ms))[..0] == []
  {
  }

  method EmergencyTrim(messages: seq<Message>, maxTokens: int, ghost bound: nat)
    returns (trimmed: seq<Message>, ghost rounds: nat)
    requires MustCut(messages, maxTokens) ==> TrimEnds(LeastSelection(messages), maxTokens, bound)
    ensures TrimmedTo(messages, maxTokens, rounds, trimmed)
    ensures KeepsTwoTurns(messages, maxTokens, rounds, trimmed)
    ensures trimmed == [] || Fits(trimmed, maxTokens)
  {
    hide Fits;
    hide GroupTurns;
    hide Selection;
    hide SuffixStart;
    hide TrimsTo;
    hide TrimEnds;
    hide KeepsTwoTurns;
    rounds := 0;
    if Fits(messages, maxTokens) {
      TrimmedKeepsTwoTurns(messages, maxTokens, 0, messages);
      return messages, 0;
    }
    var system := SystemOf(messages);
    var groups := GroupMessages(NonSystemOf(messages));
    if groups == [] {
      trimmed, rounds := TrimTextMessages(system, maxTokens, bound);
      TrimmedKeepsTwoTurns(messages, maxTokens, rounds, trimmed);
      return;
    }
    SelectingAllIsAll(messages, maxTokens);
    var selected, grown; ghost var from, t;
    selected, grown, from := GrowTail(system, groups, maxTokens);
    trimmed, t := ShrinkTail(system, groups, maxTokens, selected, grown, from);
    if Fits(trimmed, maxTokens) {
      FewerTurnsFit(system, groups, t, |groups|, maxTokens);
    } else {
      trimmed, rounds := TrimTextMessages(trimmed, maxTokens, bound);
    }
    TrimmedKeepsTwoTurns(messages, maxTokens, rounds, trimmed);
  }
}
