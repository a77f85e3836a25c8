/** The drop log of the sanitizer accounts for every message: each is either copied or logged, none
    is both. */
module SanitizerLog {
  import opened Messages
  import opened Sanitizer

  function Positions(log: seq<Drop>): set<int> {
    if log == [] then {} else {log[0].index} + Positions(log[1..])
  }

  /** Strictly increasing positions inside `[lo, hi)`. */
  predicate Rising(log: seq<Drop>, lo: int, hi: int) {
    if log == [] then lo <= hi
    else lo <= log[0].index < hi && Rising(log[1..], log[0].index + 1, hi)
  }

  /** All positions from `lo` up to, not including, `hi`. */
  function Interval(lo: int, hi: int): set<int>
    decreases hi - lo
  {
    if lo >= hi then {} else {lo} + Interval(lo + 1, hi)
  }

  ghost function Run(at: nat, n: nat): (from: seq<int>)
    ensures |from| == n && forall k | 0 <= k < n :: from[k] == at + k
  {
    seq(n, k => at + k)
  }

  /** For each message sent: the position it was copied from, or -1 for a note. */
  ghost function Origins(ms: seq<Message>, at: nat): seq<int>
    decreases |ms|
  {
    if ms == [] then []
    else
      var p := NextPiece(ms);
      var rest := Origins(ms[|p.ms|..], at + |p.ms|);
      match p
      case Keep(_) => Run(at, |p.ms|) + rest
      case Rewrite(_, _) => [-1] + rest
      case Erase(_) => rest
  }

  function Copied(from: seq<int>): set<int> {
    if from == [] then {} else (if from[0] < 0 then {} else {from[0]}) + Copied(from[1..])
  }

  /** `sent` copies messages of `all` in order, from position `lo` on; the rest of it are user notes. */
  ghost predicate Traces(sent: seq<Message>, from: seq<int>, all: seq<Message>, lo: int) {
    if sent == [] || from == [] then sent == [] && from == []
    else if from[0] < 0 then
      sent[0].role.User? && sent[0].calls == [] && Traces(sent[1..], from[1..], all, lo)
    else
      && lo <= from[0] < |all| && sent[0] == all[from[0]]
      && Traces(sent[1..], from[1..], all, from[0] + 1)
  }

  /** Every position of the stretch is either logged or copied, and none is both. */
  ghost predicate Complementary(log: seq<Drop>, from: seq<int>, lo: int, hi: int) {
    Positions(log) + Copied(from) == Interval(lo, hi) && Positions(log) !! Copied(from)
  }

  // sequences

  lemma {:induction false} IntervalMembers(lo: int, hi: int)
    ensures forall i :: i in Interval(lo, hi) <==> lo <= i < hi
    decreases hi - lo
  {
    if lo < hi { IntervalMembers(lo + 1, hi); }
  }

  lemma {:induction false} StrandedPositions(results: seq<Message>, at: nat)
    ensures Rising(Stranded(results, at), at, at + |results|)
    ensures Positions(Stranded(results, at)) == Interval(at, at + |results|)
  {
    if results != [] {
      StrandedPositions(results[1..], at + 1);
      assert Interval(at, at + |results|) == {at} + Interval(at + 1, at + |results|);
    } else {
      assert Interval(at, at) == {};
    }
  }

  lemma {:induction false} PositionsConcat(a: seq<Drop>, b: seq<Drop>)
    ensures Positions(a + b) == Positions(a) + Positions(b)
  {
    if a == [] {
      assert a + b == b;
    } else {
      PositionsConcat(a[1..], b);
      assert (a + b)[1..] == a[1..] + b;
    }
  }

  lemma {:induction false} RisingConcat(a: seq<Drop>, b: seq<Drop>, lo: int, mid: int, hi: int)
    requires Rising(a, lo, mid) && Rising(b, mid, hi)
    ensures Rising(a + b, lo, hi)
  {
    if a == [] {
      assert a + b == b;
      if b != [] { }
    } else {
      RisingConcat(a[1..], b, a[0].index + 1, mid, hi);
      assert (a + b)[1..] == a[1..] + b;
    }
  }

  lemma {:induction false} CopiedConcat(a: seq<int>, b: seq<int>)
    ensures Copied(a + b) == Copied(a) + Copied(b)
  {
    if a == [] {
      assert a + b == b;
    } else {
      CopiedConcat(a[1..], b);
      assert (a + b)[1..] == a[1..] + b;
    }
  }

  lemma {:induction false} CopiedRun(from: seq<int>, at: nat)
    requires forall k | 0 <= k < |from| :: from[k] == at + k
    ensures Copied(from) == Interval(at, at + |from|)
  {
    if from != [] {
      assert forall k | 0 <= k < |from[1..]| :: from[1..][k] == from[k + 1];
      CopiedRun(from[1..], at + 1);
      assert Interval(at, at + |from|) == {at} + Interval(at + 1, at + |from|);
    } else {
      assert Interval(at, at) == {};
    }
  }

  lemma {:induction false} TracesRun(sent: seq<Message>, from: seq<int>, all: seq<Message>, at: nat)
    requires |sent| == |from| && at + |sent| <= |all|
    requires forall k | 0 <= k < |from| :: from[k] == at + k
    requires sent == all[at..at + |sent|]
    ensures Traces(sent, from, all, at)
  {
    if sent != [] {
      assert sent[0] == all[at];
      assert forall k | 0 <= k < |from[1..]| :: from[1..][k] == from[k + 1];
      assert sent[1..] == all[at + 1..at + |sent|];
      TracesRun(sent[1..], from[1..], all, at + 1);
    }
  }

  lemma {:induction false} TracesConcat(
      sent: seq<Message>, from: seq<int>, more: seq<Message>, moreFrom: seq<int>,
      all: seq<Message>, lo: int, mid: int)
    requires Traces(sent, from, all, lo) && Traces(more, moreFrom, all, mid)
    requires lo <= mid && forall k | 0 <= k < |from| :: from[k] < mid
    ensures Traces(sent + more, from + moreFrom, all, lo)
  {
    if sent == [] {
      assert sent + more == more && from + moreFrom == moreFrom;
      TracesLower(more, moreFrom, all, lo, mid);
    } else {
      assert forall k | 0 <= k < |from[1..]| :: from[1..][k] == from[k + 1];
      TracesConcat(sent[1..], from[1..], more, moreFrom, all, if from[0] < 0 then lo else from[0] + 1, mid);
      assert (sent + more)[1..] == sent[1..] + more;
      assert (from + moreFrom)[1..] == from[1..] + moreFrom;
    }
  }

  lemma {:induction false} TracesLower(
      sent: seq<Message>, from: seq<int>, all: seq<Message>, lo: int, mid: int)
    requires Traces(sent, from, all, mid) && lo <= mid
    ensures Traces(sent, from, all, lo)
  {
    if sent != [] && from[0] < 0 { TracesLower(sent[1..], from[1..], all, lo, mid); }
  }

  lemma {:induction false} RisingLower(log: seq<Drop>, lo: int, mid: int, hi: int)
    requires Rising(log, mid, hi) && lo <= mid
    ensures Rising(log, lo, hi)
  {
  }

  // pieces

  lemma PieceLog(ms: seq<Message>, at: nat)
    requires ms != [] && !NextPiece(ms).Keep?
    ensures var p, log := NextPiece(ms), LogOf(NextPiece(ms), at);
      Rising(log, at, at + |p.ms|) && Positions(log) == Interval(at, at + |p.ms|)
  {
    hide NextPiece;
    PieceIsPrefix(ms);
    LogOfChanged(NextPiece(ms), at);
  }

  lemma LogOfChanged(p: Piece, at: nat)
    requires p.ms != [] && !p.Keep?
    requires p.Erase? || p.ms[0].calls == [] ==> |p.ms| == 1
    ensures Rising(LogOf(p, at), at, at + |p.ms|) && Positions(LogOf(p, at)) == Interval(at, at + |p.ms|)
  {
    var rest := p.ms[1..];
    StrandedPositions(rest, at + 1);
    assert Stranded([], at + 1) == [];
    assert LogOf(p, at)[1..] == if p.Rewrite? && p.ms[0].calls != [] then Stranded(rest, at + 1) else [];
    assert Interval(at, at + |p.ms|) == {at} + Interval(at + 1, at + |p.ms|);
    assert Interval(at + 1, at + 1) == {};
  }

  // transcripts

  lemma {:induction false} LogRises(ms: seq<Message>, at: nat)
    ensures Rising(DropLog(ms, at), at, at + |ms|)
    decreases |ms|
  {
    hide NextPiece;
    hide LogOf;
    if ms != [] {
      var p := NextPiece(ms);
      var n, rest := |p.ms|, ms[|p.ms|..];
      LogRises(rest, at + n);
      if p.Keep? {
        RisingLower(DropLog(rest, at + n), at, at + n, at + |ms|);
      } else {
        PieceLog(ms, at);
        RisingConcat(LogOf(p, at), DropLog(rest, at + n), at, at + n, at + |ms|);
      }
    }
  }

  lemma TracesKept(all: seq<Message>, at: nat, n: nat, sent: seq<Message>, from: seq<int>)
    requires at + n <= |all| && Traces(sent, from, all, at + n)
    ensures Traces(all[at..at + n] + sent, Run(at, n) + from, all, at)
  {
    TracesRun(all[at..at + n], Run(at, n), all, at);
    TracesConcat(all[at..at + n], Run(at, n), sent, from, all, at, at + n);
  }

  lemma PrefixOfSuffix(all: seq<Message>, at: nat, n: nat)
    requires at + n <= |all|
    ensures all[at..][..n] == all[at..at + n] && all[at..][n..] == all[at + n..]
  {
  }

  lemma {:induction false} OutputTraces(all: seq<Message>, at: nat)
    requires at <= |all|
    ensures Traces(Sanitized(all[at..]), Origins(all[at..], at), all, at)
    decreases |all| - at
  {
    hide NextPiece;
    hide Run;
    if at < |all| {
      var p := NextPiece(all[at..]);
      var n := |p.ms|;
      var rest := all[at + n..];
      PrefixOfSuffix(all, at, n);
      OutputTraces(all, at + n);
      var sent, from := Sanitized(rest), Origins(rest, at + n);
      match p {
        case Keep(_) =>
          PieceIsPrefix(all[at..]);
          TracesKept(all, at, n, sent, from);
        case Rewrite(_, _) =>
          NoteOfPiece(all[at..]);
          TracesConcat([p.note], [-1], sent, from, all, at, at + n);
        case Erase(_) =>
          TracesLower(sent, from, all, at, at + n);
      }
    }
  }

  lemma JoinParts(p: set<int>, c: set<int>, lo: int, mid: int, hi: int)
    requires lo <= mid <= hi
    requires p + c == Interval(mid, hi) && p !! c
    ensures (Interval(lo, mid) + p) + c == Interval(lo, hi) && (Interval(lo, mid) + p) !! c
    ensures p + (Interval(lo, mid) + c) == Interval(lo, hi) && p !! (Interval(lo, mid) + c)
  {
    hide Interval;
    IntervalMembers(lo, mid);
    IntervalMembers(mid, hi);
    IntervalMembers(lo, hi);
    var a, b := Interval(lo, mid), Interval(mid, hi);
    forall i ensures i in a + b <==> i in Interval(lo, hi) {
      assert i in a <==> lo <= i < mid;
      assert i in b <==> mid <= i < hi;
    }
    assert a + b == Interval(lo, hi);
    forall i | i in a ensures i !in p + c {
      assert i !in b;
    }
    assert (a + p) + c == a + (p + c);
    assert p + (a + c) == a + (p + c);
  }

  lemma KeptComplements(log: seq<Drop>, from: seq<int>, at: nat, n: nat, hi: int)
    requires at + n <= hi && Complementary(log, from, at + n, hi)
    ensures Complementary(log, Run(at, n) + from, at, hi)
  {
    CopiedRun(Run(at, n), at);
    CopiedConcat(Run(at, n), from);
    JoinParts(Positions(log), Copied(from), at, at + n, hi);
  }

  lemma ChangedComplements(changed: seq<Drop>, log: seq<Drop>, from: seq<int>, lo: int, mid: int, hi: int)
    requires lo <= mid <= hi && Complementary(log, from, mid, hi)
    requires Positions(changed) == Interval(lo, mid)
    ensures Complementary(changed + log, from, lo, hi)
    ensures Complementary(changed + log, [-1] + from, lo, hi)
  {
    PositionsConcat(changed, log);
    CopiedConcat([-1], from);
    assert Copied([-1]) == {};
    JoinParts(Positions(log), Copied(from), lo, mid, hi);
  }

  lemma {:induction false} LogComplementsCopies(ms: seq<Message>, at: nat)
    ensures Complementary(DropLog(ms, at), Origins(ms, at), at, at + |ms|)
    decreases |ms|
  {
    hide NextPiece;
    hide LogOf;
    hide Run;
    hide Rising;
    if ms != [] {
      var p := NextPiece(ms);
      var n, rest := |p.ms|, ms[|p.ms|..];
      LogComplementsCopies(rest, at + n);
      var log, from := DropLog(rest, at + n), Origins(rest, at + n);
      if p.Keep? {
        KeptComplements(log, from, at, n, at + |ms|);
      } else {
        PieceLog(ms, at);
        ChangedComplements(LogOf(p, at), log, from, at, at + n, at + |ms|);
      }
    }
  }

  /** The drop log is exact: its positions strictly increase, and a position is logged just when its
      message is not copied; copies keep text and order, and all else that is sent is a user note. */
  lemma {:induction false} DropLogIsExact(ms: seq<Message>)
    ensures Rising(DropLog(ms, 0), 0, |ms|)
    ensures Complementary(DropLog(ms, 0), Origins(ms, 0), 0, |ms|)
    ensures Traces(Sanitized(ms), Origins(ms, 0), ms, 0)
  {
    hide *;
    assert ms[0..] == ms;
    LogRises(ms, 0);
    OutputTraces(ms, 0);
    LogComplementsCopies(ms, 0);
  }

  // ----- what the entries say -----

  /** The entry is about a message of its kind, and names its id. */
  ghost predicate SaysKind(ms: seq<Message>, d: Drop, at: nat) {
    && at <= d.index < at + |ms|
    && var i := d.index - at;
    match d
    case EmptyAssistant(_) => ms[i].role.Assistant? && ms[i].calls == [] && IsEmptyAssistant(ms[i])
    case OrphanResult(_, id) => ms[i].role.Tool? && ms[i].calls == [] && ms[i].resultId == id
    case StrandedResult(_, id) => ms[i].role.Tool? && ms[i].resultId == id
    case IncompleteGroup(_, expected, seen) =>
      ms[i].calls != [] && expected == Ids(ms[i]) && seen < expected
  }

  lemma {:induction false} StrandedSay(all: seq<Message>, results: seq<Message>, at: nat, from: nat, d: Drop)
    requires 0 < at && at + |results| <= |all| && results == all[at..at + |results|]
    requires forall k | 0 <= k < |results| :: results[k].role.Tool?
    requires d in Stranded(results, from + at)
    ensures SaysKind(all, d, from)
  {
    if results != [] {
      assert results[0] == all[at];
      if d != StrandedResult(from + at, results[0].resultId) {
        assert results[1..] == all[at + 1..at + |results|];
        assert forall k | 0 <= k < |results[1..]| :: results[1..][k] == results[k + 1];
        StrandedSay(all, results[1..], at + 1, from, d);
      }
    }
  }

  /** Results the scan reads are wanted by the group. */
  lemma {:induction false} ReadAreWanted(ms: seq<Message>, expected: set<string>, seen: set<string>)
    ensures var n := ResultRun(ms, expected, seen);
      && (forall k | 0 <= k < n :: ms[k].role.Tool?) && Seen(ms[..n]) <= expected
    decreases |ms|
  {
    var n := ResultRun(ms, expected, seen);
    if n > 0 {
      ReadAreWanted(ms[1..], expected, seen + {ms[0].resultId});
      if n > 1 {
        assert ms[..n][1..] == ms[1..][..n - 1];
        assert forall k | 0 < k < n :: ms[k] == ms[1..][k - 1];
      } else {
        assert ms[..1][1..] == [];
        assert Seen([]) == {};
      }
    }
  }

  /** What the log says of the piece a transcript starts with is true of its messages. */
  lemma PieceSays(ms: seq<Message>, at: nat, d: Drop)
    requires ms != [] && !NextPiece(ms).Keep? && d in LogOf(NextPiece(ms), at)
    ensures SaysKind(ms, d, at)
  {
    hide GroupNote;
    hide OrphanNote;
    hide ResultRun;
    hide Seen;
    hide Stranded;
    var p := NextPiece(ms);
    if ms[0].calls != [] {
      var n := ResultRun(ms[1..], Ids(ms[0]), {});
      ReadAreWanted(ms[1..], Ids(ms[0]), {});
      var results := ms[1..1 + n];
      assert p.ms == ms[..1 + n] && p.ms[1..] == results && results == ms[1..][..n];
      assert forall k | 0 <= k < n :: results[k] == ms[1..][k];
      if d in Stranded(results, at + 1) { StrandedSay(ms, results, 1, at, d); }
    } else {
      SinglePieces(ms);
    }
  }

  lemma LaterSays(ms: seq<Message>, d: Drop, at: nat, n: nat)
    requires n <= |ms| && SaysKind(ms[n..], d, at + n)
    ensures SaysKind(ms, d, at)
  {
    assert ms[d.index - at] == ms[n..][d.index - at - n];
  }

  /** Each entry is about a message of the kind it names, with the ids it names. */
  lemma {:induction false} LogSaysKind(ms: seq<Message>, at: nat, d: Drop)
    requires d in DropLog(ms, at)
    ensures SaysKind(ms, d, at)
    decreases |ms|
  {
    hide NextPiece;
    hide LogOf;
    hide SaysKind;
    var p := NextPiece(ms);
    var n := |p.ms|;
    if !p.Keep? && d in LogOf(p, at) {
      PieceSays(ms, at, d);
    } else {
      LogSaysKind(ms[n..], at + n, d);
      LaterSays(ms, d, at, n);
    }
  }
}
