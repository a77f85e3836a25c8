/** The loop guard: within a turn, a call that has been made too often lately is refused, and so is a
    tool used too often.  Refused calls count as made. */
module LoopGuard {
  import opened Options
  import opened PyText
  import opened Lists

  /** A request; `fingerprint` renders the tool together with its arguments. */
  datatype Request = Request(session: string, tool: string, fingerprint: string)

  datatype Denial = SameCall | SameTool

  /** One call of a turn, and whether it was let through. */
  datatype Call = Call(fingerprint: string, tool: string, allowed: bool)

  datatype Limits = Limits(repeats: int, toolRepeats: int, window: int, resultRepeats: int)

  /** The limits as the guard applies them. */
  function Effective(l: Limits): Limits {
    var tools := Max(2, l.toolRepeats);
    Limits(Max(2, l.repeats), tools, Max(tools, l.window), Max(2, l.resultRepeats))
  }

  const RESULT_HASH_TOOLS: set<string> :=
    {"list_files", "rg", "read_file", "storage_list_files", "storage_read_file",
     "sandbox_list_files", "sandbox_read_file"}

  // ----- what a bounded deque holds -----

  /** The last `w` elements. */
  function LastOf(s: seq<string>, w: nat): seq<string> {
    if |s| > w then s[|s| - w..] else s
  }

  /** `append` on a deque of at most `w` elements. */
  function Push(recent: seq<string>, x: string, w: nat): seq<string>
    requires w > 0
  {
    (if |recent| >= w then recent[1..] else recent) + [x]
  }

  lemma PushKeepsLast(s: seq<string>, x: string, w: nat)
    requires w > 0
    ensures Push(LastOf(s, w), x, w) == LastOf(s + [x], w)
  {
  }

  // ----- why a window suffices -----

  /** How often `x` was let through. */
  function Passed(s: seq<string>, ok: seq<bool>, x: string): nat
    requires |ok| == |s|
  {
    if s == [] then 0
    else Passed(s[..|s| - 1], ok[..|s| - 1], x) + if s[|s| - 1] == x && ok[|s| - 1] then 1 else 0
  }

  function PassedAt(s: seq<string>, ok: seq<bool>, x: string): set<nat>
    requires |ok| == |s|
  {
    set i: nat | i < |s| && s[i] == x && ok[i]
  }

  lemma {:induction false} PassedIsNumber(s: seq<string>, ok: seq<bool>, x: string)
    requires |ok| == |s|
    ensures Passed(s, ok, x) == |PassedAt(s, ok, x)|
  {
    if s != [] {
      var n := |s| - 1;
      PassedIsNumber(s[..n], ok[..n], x);
      OnePassedMore(s, ok, x);
    } else {
      assert PassedAt(s, ok, x) == {};
    }
  }

  lemma OnePassedMore(s: seq<string>, ok: seq<bool>, x: string)
    requires |ok| == |s| > 0
    ensures var n := |s| - 1;
      |PassedAt(s, ok, x)| == |PassedAt(s[..n], ok[..n], x)| + if s[n] == x && ok[n] then 1 else 0
  {
    var n := |s| - 1;
    assert PassedAt(s, ok, x) == PassedAt(s[..n], ok[..n], x) + if s[n] == x && ok[n] then {n} else {};
  }

  /** Nothing is let through that would be the `limit`-th among itself and the `w` before it. */
  ghost predicate Limited(s: seq<string>, ok: seq<bool>, w: nat, limit: int) {
    && |ok| == |s|
    && forall i | 0 <= i < |s| && ok[i] :: Times(LastOf(s[..i], w), s[i]) + 1 < limit
  }

  lemma {:induction false} TimesConcat(a: seq<string>, b: seq<string>, x: string)
    ensures Times(a + b, x) == Times(a, x) + Times(b, x)
  {
    if b == [] {
      assert a + b == a;
    } else {
      TimesConcat(a, b[..|b| - 1], x);
      assert (a + b)[..|a + b| - 1] == a + b[..|b| - 1];
    }
  }

  lemma {:induction false} PassedAtMostTimes(s: seq<string>, ok: seq<bool>, x: string)
    requires |ok| == |s|
    ensures Passed(s, ok, x) <= Times(s, x)
  {
    if s != [] { PassedAtMostTimes(s[..|s| - 1], ok[..|s| - 1], x); }
  }

  lemma LastIsStretch(s: seq<string>, n: nat, w: nat)
    requires n <= |s|
    ensures LastOf(s[..n], w) == s[if n > w then n - w else 0..n]
  {
  }

  lemma WindowCovers(s: seq<string>, w: nat, a: nat, n: nat, x: string)
    requires a <= n <= |s| && n - a <= w
    ensures Times(s[a..n], x) <= Times(LastOf(s[..n], w), x)
  {
    hide Times;
    var from := if n > w then n - w else 0;
    LastIsStretch(s, n, w);
    assert s[from..n] == s[from..a] + s[a..n];
    TimesConcat(s[from..a], s[a..n], x);
  }

  /** In any stretch one longer than the window, fewer than `limit` equal entries got through. */
  lemma {:induction false} StretchIsLimited(s: seq<string>, ok: seq<bool>, w: nat, limit: int, a: nat, b: nat, x: string)
    requires Limited(s, ok, w, limit) && limit >= 1
    requires a <= b <= |s| && b - a <= w + 1
    ensures Passed(s[a..b], ok[a..b], x) <= limit - 1
    decreases b - a
  {
    hide LastOf;
    hide Times;
    if a < b {
      var n := b - 1;
      assert s[a..b][..n - a] == s[a..n] && ok[a..b][..n - a] == ok[a..n];
      if s[n] == x && ok[n] {
        WindowCovers(s, w, a, n, x);
        PassedAtMostTimes(s[a..n], ok[a..n], x);
      } else {
        StretchIsLimited(s, ok, w, limit, a, n, x);
      }
    }
  }

  // ----- the guard -----

  function Fingerprints(calls: seq<Call>): seq<string> {
    seq(|calls|, i requires 0 <= i < |calls| => calls[i].fingerprint)
  }

  function Tools(calls: seq<Call>): seq<string> {
    seq(|calls|, i requires 0 <= i < |calls| => calls[i].tool)
  }

  function Allowed(calls: seq<Call>): seq<bool> {
    seq(|calls|, i requires 0 <= i < |calls| => calls[i].allowed)
  }

  /** What the guard says to a call after the calls before it. */
  function Verdict(calls: seq<Call>, r: Request, l: Limits): Option<Denial>
    requires l.window > 0
  {
    if Times(LastOf(Fingerprints(calls), l.window), r.fingerprint) + 1 >= l.repeats then Some(SameCall)
    else if Times(LastOf(Tools(calls), l.window), r.tool) + 1 >= l.toolRepeats then Some(SameTool)
    else None
  }

  /** Where `x` stands in `s` from `lo` on. */
  function Positions(s: seq<string>, x: string, lo: nat): set<nat> {
    set i: nat | lo <= i < |s| && s[i] == x
  }

  lemma PositionsGrow(s: seq<string>, x: string, lo: nat)
    requires lo < |s|
    ensures var n := |s| - 1;
      Positions(s, x, lo) == Positions(s[..n], x, lo) + if s[n] == x then {n} else {}
  {
  }

  lemma TimesOfSuffix(s: seq<string>, x: string, lo: nat)
    requires lo < |s|
    ensures var n := |s| - 1; Times(s[lo..], x) == Times(s[..n][lo..], x) + if s[n] == x then 1 else 0
  {
    var n := |s| - 1;
    assert s[lo..][..n - lo] == s[..n][lo..];
  }

  lemma {:induction false} TimesIsNumber(s: seq<string>, x: string, lo: nat)
    requires lo <= |s|
    ensures Times(s[lo..], x) == |Positions(s, x, lo)|
    decreases |s|
  {
    hide Times;
    if lo < |s| {
      var n := |s| - 1;
      TimesIsNumber(s[..n], x, lo);
      PositionsGrow(s, x, lo);
      TimesOfSuffix(s, x, lo);
      assert n !in Positions(s[..n], x, lo);
    } else {
      NothingThere(x);
      assert s[lo..] == [] && Positions(s, x, lo) == {};
    }
  }

  lemma NothingThere(x: string)
    ensures Times([], x) == 0
  {
  }

  /** A call is refused exactly when it would be the `repeats`-th of its kind among itself and the last
      `window` calls, let through or not, or the `toolRepeats`-th of its tool. */
  lemma RefusedIff(calls: seq<Call>, r: Request, l: Limits)
    requires l.window > 0
    ensures var from := Max(0, |calls| - l.window);
      var same := set i: nat | from <= i < |calls| && calls[i].fingerprint == r.fingerprint;
      var tool := set i: nat | from <= i < |calls| && calls[i].tool == r.tool;
      && (Verdict(calls, r, l) == None <==> |same| + 1 < l.repeats && |tool| + 1 < l.toolRepeats)
      && (Verdict(calls, r, l) == Some(SameCall) <==> |same| + 1 >= l.repeats)
  {
    hide Times;
    var from: nat := Max(0, |calls| - l.window);
    var prints, tools := Fingerprints(calls), Tools(calls);
    TimesIsNumber(prints, r.fingerprint, from);
    TimesIsNumber(tools, r.tool, from);
    assert LastOf(prints, l.window) == prints[from..] && LastOf(tools, l.window) == tools[from..];
    assert Positions(prints, r.fingerprint, from)
        == set i: nat | from <= i < |calls| && calls[i].fingerprint == r.fingerprint;
    assert Positions(tools, r.tool, from) == set i: nat | from <= i < |calls| && calls[i].tool == r.tool;
  }

  /** No limit is below two, and the window is never shorter than the limit on one tool. */
  lemma LimitsApplied(l: Limits)
    ensures var e := Effective(l);
      && e.repeats >= 2 && e.toolRepeats >= 2 && e.resultRepeats >= 2 && e.window >= e.toolRepeats
      && (l.repeats >= 2 ==> e.repeats == l.repeats)
      && (l.toolRepeats >= 2 ==> e.toolRepeats == l.toolRepeats)
      && (l.resultRepeats >= 2 ==> e.resultRepeats == l.resultRepeats)
      && (l.window >= l.toolRepeats && l.window >= 2 ==> e.window == l.window)
      && (l.window < e.toolRepeats ==> e.window == e.toolRepeats)
  {
  }

  /** Both kinds of repetition stay within their limits. */
  ghost predicate Orderly(calls: seq<Call>, l: Limits)
    requires l.window > 0
  {
    && Limited(Fingerprints(calls), Allowed(calls), l.window, l.repeats)
    && Limited(Tools(calls), Allowed(calls), l.window, l.toolRepeats)
  }

  lemma LimitedSnoc(s: seq<string>, ok: seq<bool>, w: nat, limit: int, x: string, pass: bool)
    requires Limited(s, ok, w, limit)
    requires pass ==> Times(LastOf(s, w), x) + 1 < limit
    ensures Limited(s + [x], ok + [pass], w, limit)
  {
    forall i | 0 <= i < |s| + 1 && (ok + [pass])[i]
      ensures Times(LastOf((s + [x])[..i], w), (s + [x])[i]) + 1 < limit
    {
      assert (s + [x])[..i] == s[..i];
      assert s[..|s|] == s;
    }
  }

  function NextCall(calls: seq<Call>, r: Request, l: Limits): Call
    requires l.window > 0
  {
    Call(r.fingerprint, r.tool, Verdict(calls, r, l).None?)
  }

  lemma VerdictKeepsOrder(calls: seq<Call>, r: Request, l: Limits)
    requires l.window > 0 && Orderly(calls, l)
    ensures Orderly(calls + [NextCall(calls, r, l)], l)
  {
    var c := NextCall(calls, r, l);
    LimitedSnoc(Fingerprints(calls), Allowed(calls), l.window, l.repeats, c.fingerprint, c.allowed);
    LimitedSnoc(Tools(calls), Allowed(calls), l.window, l.toolRepeats, c.tool, c.allowed);
    assert Fingerprints(calls + [c]) == Fingerprints(calls) + [c.fingerprint];
    assert Tools(calls + [c]) == Tools(calls) + [c.tool];
    assert Allowed(calls + [c]) == Allowed(calls) + [c.allowed];
  }

  function KeyOf(session: string): string {
    if session == "" then "_global" else session
  }

  /** Calls outside any session share one memory; sessions do not share theirs. */
  lemma KeysOfSessions(a: string, b: string)
    ensures a != "_global" && b != "_global" ==> (KeyOf(a) == KeyOf(b) <==> a == b)
    ensures |a| == 0 ==> KeyOf(a) == "_global"
    ensures |a| > 0 ==> KeyOf(a) == a
  {
  }

  /** What the guard remembers of a session fits the calls of its turn and the results counted. */
  ghost predicate Remembers(recent: seq<string>, recentTools: seq<string>, counts: map<string, nat>,
                            turn: seq<Call>, results: seq<string>, l: Limits)
    requires l.window > 0
  {
    && recent == LastOf(Fingerprints(turn), l.window)
    && recentTools == LastOf(Tools(turn), l.window)
    && (forall h :: Times(results, h) == Get(counts, h, 0))
    && Orderly(turn, l)
  }

  function Counted(counts: map<string, nat>, h: string): map<string, nat> {
    counts[h := Get(counts, h, 0) + 1]
  }

  lemma NothingRemembered(l: Limits)
    requires l.window > 0
    ensures Remembers([], [], map[], [], [], l)
  {
  }

  lemma RemembersCall(recent: seq<string>, recentTools: seq<string>, counts: map<string, nat>,
                      turn: seq<Call>, results: seq<string>, l: Limits, r: Request)
    requires l.window > 0 && Remembers(recent, recentTools, counts, turn, results, l)
    ensures Remembers(Push(recent, r.fingerprint, l.window), Push(recentTools, r.tool, l.window), counts,
                      turn + [NextCall(turn, r, l)], results, l)
    ensures recent == LastOf(Fingerprints(turn), l.window) && recentTools == LastOf(Tools(turn), l.window)
  {
    var c := NextCall(turn, r, l);
    VerdictKeepsOrder(turn, r, l);
    PushKeepsLast(Fingerprints(turn), r.fingerprint, l.window);
    PushKeepsLast(Tools(turn), r.tool, l.window);
    assert Fingerprints(turn + [c]) == Fingerprints(turn) + [c.fingerprint];
    assert Tools(turn + [c]) == Tools(turn) + [c.tool];
  }

  lemma RemembersResult(recent: seq<string>, recentTools: seq<string>, counts: map<string, nat>,
                        turn: seq<Call>, results: seq<string>, l: Limits, h: string)
    requires l.window > 0 && Remembers(recent, recentTools, counts, turn, results, l)
    ensures Remembers(recent, recentTools, Counted(counts, h), turn, results + [h], l)
    ensures Times(results + [h], h) == Get(counts, h, 0) + 1
  {
    assert (results + [h])[..|results + [h]| - 1] == results;
    forall k ensures Times(results + [h], k) == Get(Counted(counts, h), k, 0) {
      assert Times(results, k) == Get(counts, k, 0);
    }
  }

  class ToolLoopGuard {
    const limits: Limits
    /** The deques of each session, and how often each result came up. */
    var recent: map<string, seq<string>>
    var recentTools: map<string, seq<string>>
    var resultCounts: map<string, map<string, nat>>
    /** The calls of each session's turn so far, and the results that were counted. */
    ghost var turns: map<string, seq<Call>>
    ghost var results: map<string, seq<string>>

    ghost predicate RemembersSession(key: string)
      requires limits.window > 0
      reads this
    {
      Remembers(Get(recent, key, []), Get(recentTools, key, []), Get(resultCounts, key, map[]),
                Get(turns, key, []), Get(results, key, []), limits)
    }

    ghost predicate Valid()
      reads this
    {
      && limits.window >= limits.toolRepeats >= 2 && limits.repeats >= 2 && limits.resultRepeats >= 2
      && forall key :: RemembersSession(key)
    }

    constructor (limits: Limits)
      ensures Valid() && turns == map[] && results == map[]
      ensures this.limits == Effective(limits)
    {
      this.limits := Effective(limits);
      recent, recentTools, resultCounts, turns, results := map[], map[], map[], map[], map[];
      NothingRemembered(Effective(limits));
    }

    /** Whatever calls were made in the turn: the deques hold its last calls, and in any stretch of
        `window + 1` calls fewer than `repeats` equal ones, and fewer than `toolRepeats` of one
        tool, were let through. */
    lemma TurnIsOrderly(key: string, a: nat, b: nat, x: string)
      requires Valid() && a <= b <= |Get(turns, key, [])| && b - a <= limits.window + 1
      ensures Get(recent, key, []) == LastOf(Fingerprints(Get(turns, key, [])), limits.window)
      ensures Get(recentTools, key, []) == LastOf(Tools(Get(turns, key, [])), limits.window)
      ensures
        var turn := Get(turns, key, []);
        && Passed(Fingerprints(turn)[a..b], Allowed(turn)[a..b], x) <= limits.repeats - 1
        && Passed(Tools(turn)[a..b], Allowed(turn)[a..b], x) <= limits.toolRepeats - 1
    {
      var turn := Get(turns, key, []);
      assert RemembersSession(key);
      StretchIsLimited(Fingerprints(turn), Allowed(turn), limits.window, limits.repeats, a, b, x);
      StretchIsLimited(Tools(turn), Allowed(turn), limits.window, limits.toolRepeats, a, b, x);
    }

    method Before(r: Request) returns (denial: Option<Denial>)
      requires Valid()
      modifies this
      ensures Valid()
      ensures denial == Verdict(old(Get(turns, KeyOf(r.session), [])), r, limits)
      ensures turns == old(turns)[KeyOf(r.session) := old(Get(turns, KeyOf(r.session), []))
        + [Call(r.fingerprint, r.tool, denial.None?)]]
      ensures results == old(results)
    {
      hide Remembers;
      hide Push;
      hide Times;
      hide LastOf;
      var key := KeyOf(r.session);
      assert RemembersSession(key);
      ghost var turn := Get(turns, key, []);
      var calls, tools := Get(recent, key, []), Get(recentTools, key, []);
      RemembersCall(calls, tools, Get(resultCounts, key, map[]), turn, Get(results, key, []), limits, r);
      var repeats, toolRepeats := Times(calls, r.fingerprint), Times(tools, r.tool);
      recent := recent[key := Push(calls, r.fingerprint, limits.window)];
      recentTools := recentTools[key := Push(tools, r.tool, limits.window)];
      denial := if repeats + 1 >= limits.repeats then Some(SameCall)
                else if toolRepeats + 1 >= limits.toolRepeats then Some(SameTool)
                else None;
      turns := turns[key := turn + [Call(r.fingerprint, r.tool, denial.None?)]];
      forall other ensures RemembersSession(other) {
        if other != key { assert old(RemembersSession(other)); }
      }
    }

    /** A result of a reading tool that keeps coming back is refused from some time on.  `digest`
        is the hash of its normalised output, empty when there is none. */
    method After(r: Request, success: bool, digest: string) returns (refused: bool)
      requires Valid()
      modifies this
      ensures Valid() && turns == old(turns)
      ensures !Counts(r, success, digest) ==> !refused && results == old(results)
      ensures Counts(r, success, digest) ==>
        && results == old(results)[KeyOf(r.session) := old(Get(results, KeyOf(r.session), [])) + [digest]]
        && (refused <==> Times(results[KeyOf(r.session)], digest) >= limits.resultRepeats)
    {
      if !Counts(r, success, digest) { return false; }
      hide Remembers;
      hide Times;
      var key := KeyOf(r.session);
      assert RemembersSession(key);
      var counts: map<string, nat> := Get(resultCounts, key, map[]);
      RemembersResult(Get(recent, key, []), Get(recentTools, key, []), counts, Get(turns, key, []),
                      Get(results, key, []), limits, digest);
      counts := Counted(counts, digest);
      resultCounts := resultCounts[key := counts];
      results := results[key := Get(results, key, []) + [digest]];
      refused := counts[digest] >= limits.resultRepeats;
      forall other ensures RemembersSession(other) {
        if other != key { assert old(RemembersSession(other)); }
      }
    }

    method ResetTurn(session: string)
      requires Valid()
      modifies this
      ensures Valid()
      ensures turns == old(turns) - {KeyOf(session)} && results == old(results) - {KeyOf(session)}
    {
      hide Remembers;
      var key := KeyOf(session);
      NothingRemembered(limits);
      recent, recentTools, resultCounts := recent - {key}, recentTools - {key}, resultCounts - {key};
      turns, results := turns - {key}, results - {key};
      forall other ensures RemembersSession(other) {
        if other != key { assert old(RemembersSession(other)); }
      }
    }
  }

  predicate Counts(r: Request, success: bool, digest: string) {
    r.tool in RESULT_HASH_TOOLS && success && digest != ""
  }

  /** Results are counted of the tools that read, when they succeed and say something. */
  lemma CountsIff(r: Request, success: bool, digest: string)
    ensures Counts(r, success, digest) <==>
      && success && |digest| > 0
      && (r.tool == "list_files" || r.tool == "rg" || r.tool == "read_file"
          || r.tool == "storage_list_files" || r.tool == "storage_read_file"
          || r.tool == "sandbox_list_files" || r.tool == "sandbox_read_file")
  {
  }
}
