/** Splitting documents: an overlapping window that prefers to end at natural breaks and avoids
    tearing code fences, and the headings that label each section. */
module Chunker {
  import opened PyText

  /** A chunk and the window of the normalised text it was taken from. */
  datatype Chunk = Chunk(text: string, start: nat, end: nat)

  const FENCE := "```"

  // ----- where a window ends -----

  /** `_semantic_split_point`: the last natural break inside the window, or -1. */
  function SplitPoint(text: string, start: nat, end: nat): (r: int)
    requires start <= end <= |text|
    ensures r == -1 || start <= r < end
  {
    Max(RFind("\n\n", text, start, end),
    Max(RFind("\n- ", text, start, end),
    Max(RFind("\n* ", text, start, end),
    Max(RFind("\n|", text, start, end),
    Max(RFind("\n", text, start, end),
    Max(RFind(". ", text, start, end), RFind("。", text, start, end)))))))
  }

  /** `_avoid_open_code_fence`: end before an open fence, or after it if that costs at most a quarter. */
  function AvoidOpenFence(text: string, start: nat, end: nat): (r: nat)
    requires start < end <= |text|
    ensures r <= |text| && r - start <= 5 * (end - start) / 4
    ensures r - start >= Min(end - start, (end - start) / 2 + 1)
  {
    var window := text[start..end];
    if Count(window, FENCE) % 2 == 0 then end
    else
      var fence := RFind(FENCE, window, 0, |window|);
      if fence > |window| / 2 then start + fence
      else
        var close := Find(FENCE, text, end, |text|);
        if close != -1 && close + 3 - start <= 5 * (end - start) / 4 then close + 3 else end
  }

  /** End of the window that starts at `start`. */
  function WindowEnd(text: string, start: nat, chunkChars: nat): (end: nat)
    requires start < |text| && chunkChars > 0
    ensures start < end <= |text|
  {
    var full := Min(|text|, start + chunkChars);
    if full < |text| then
      var split := SplitPoint(text, start, full);
      AvoidOpenFence(text, start, if split > start + chunkChars / 2 then split + 1 else full)
    else full
  }

  /** `_semantic_overlap_start`: where the next window starts. */
  function OverlapStart(text: string, end: nat, overlap: int): (start: nat)
    requires end <= |text|
    ensures start <= end && start >= end - Max(0, overlap)
  {
    if overlap <= 0 then end
    else
      var raw: nat := Max(0, end - overlap);
      var paragraph := Find("\n\n", text, raw, end);
      if paragraph != -1 && paragraph + 2 < end then paragraph + 2
      else
        var line := Find("\n", text, raw, end);
        if line != -1 && line + 1 < end then line + 1 else raw
  }

  /** No window is over five quarters of the chunk size. */
  lemma WindowSize(text: string, start: nat, chunkChars: nat)
    requires start < |text| && chunkChars > 0
    ensures 4 * (WindowEnd(text, start, chunkChars) - start) <= 5 * chunkChars
  {
  }

  // ----- what a window ends at -----

  /** A break starts at `i` and ends before `end`: an empty line, the start of a list item or a table
      row, any other line break, or the end of a sentence. */
  ghost predicate BreakAt(text: string, i: int, end: int) {
    || (OccursAt("\n\n", text, i) && i + 2 <= end)
    || (OccursAt("\n- ", text, i) && i + 3 <= end)
    || (OccursAt("\n* ", text, i) && i + 3 <= end)
    || (OccursAt("\n|", text, i) && i + 2 <= end)
    || (OccursAt("\n", text, i) && i + 1 <= end)
    || (OccursAt(". ", text, i) && i + 2 <= end)
    || (OccursAt("。", text, i) && i + 1 <= end)
  }

  lemma SplitPointIsLastBreak(text: string, start: nat, end: nat)
    requires start <= end <= |text|
    ensures var r := SplitPoint(text, start, end); r == -1 || (start <= r && BreakAt(text, r, end))
    ensures forall i | start <= i && BreakAt(text, i, end) :: i <= SplitPoint(text, start, end)
  {
    hide RFind;
    hide OccursAt;
  }

  /** A window before the last ends one past the last break behind its middle, unless that leaves a code
      fence open. */
  lemma WindowEndsAfterBreak(text: string, start: nat, chunkChars: nat, full: nat, at: nat)
    requires 0 < chunkChars && full == start + chunkChars < |text| && start + chunkChars / 2 < at
    requires BreakAt(text, at, full) && forall i | at < i :: !BreakAt(text, i, full)
    requires Count(text[start..at + 1], "```") % 2 == 0
    ensures WindowEnd(text, start, chunkChars) == at + 1
  {
    hide SplitPoint;
    hide BreakAt;
    hide Count;
    SplitPointIsLastBreak(text, start, full);
  }

  /** Without such a break it has the size of a full chunk, and the last window takes what is left. */
  lemma WindowWithoutBreakIsFull(text: string, start: nat, chunkChars: nat, full: nat)
    requires 0 < chunkChars && start < |text| && full == start + chunkChars
    ensures full >= |text| ==> WindowEnd(text, start, chunkChars) == |text|
    ensures full < |text|
      && (forall i | start + chunkChars / 2 < i :: !BreakAt(text, i, full))
      && Count(text[start..full], "```") % 2 == 0
      ==> WindowEnd(text, start, chunkChars) == full
  {
    hide SplitPoint;
    hide BreakAt;
    hide Count;
    if full < |text| { SplitPointIsLastBreak(text, start, full); }
  }

  /** A window is moved only when a fence is open at its end: before that fence if it stands behind the
      middle, else behind the fence that closes it if that makes the window at most a quarter longer. */
  lemma OpenFenceMoves(text: string, start: nat, end: nat, open: nat)
    requires start < end <= |text| && Count(text[start..end], "```") % 2 == 1
    requires start <= open && open + 3 <= end && OccursAt("```", text, open)
    requires forall i | open < i && i + 3 <= end :: !OccursAt("```", text, i)
    ensures var r, size := AvoidOpenFence(text, start, end), end - start;
      && (open - start > size / 2 ==> r == open)
      && (open - start <= size / 2 ==>
            || (r == end && forall i | end <= i && 4 * (i + 3 - start) <= 5 * size :: !OccursAt("```", text, i))
            || (r >= end + 3 && 4 * (r - start) <= 5 * size && OccursAt("```", text, r - 3)
                && forall i | end <= i < r - 3 :: !OccursAt("```", text, i)))
  {
    hide Count;
    hide Find;
    hide RFind;
    var window := text[start..end];
    var fence := RFind(FENCE, window, 0, |window|);
    InWindow(FENCE, text, start, end, open);
    InWindow(FENCE, text, start, end, fence + start);
    assert fence + start == open;
  }

  lemma InWindow(pat: string, text: string, start: nat, end: nat, i: int)
    requires start <= end <= |text|
    ensures start <= i && i + |pat| <= end ==> (OccursAt(pat, text[start..end], i - start) <==> OccursAt(pat, text, i))
  {
    if start <= i && i + |pat| <= end { SliceOfSlice(text, start, end, i - start, i - start + |pat|); }
  }

  /** The next window goes back by the overlap and then forward to the first paragraph, or else the first
      line, that starts there. */
  lemma OverlapStartsAtParagraph(text: string, end: nat, overlap: int, at: nat)
    requires end <= |text|
    requires Max(0, end - overlap) <= at && at + 2 < end && OccursAt("\n\n", text, at)
    requires forall i | Max(0, end - overlap) <= i < at :: !OccursAt("\n\n", text, i)
    ensures OverlapStart(text, end, overlap) == at + 2
  {
    hide Find;
    assert at == Find("\n\n", text, Max(0, end - overlap), end);
  }

  lemma OverlapStartsAtLine(text: string, end: nat, overlap: int, at: nat)
    requires end <= |text|
    requires forall i | Max(0, end - overlap) <= i && i + 2 < end :: !OccursAt("\n\n", text, i)
    requires Max(0, end - overlap) <= at && at + 1 < end && OccursAt("\n", text, at)
    requires forall i | Max(0, end - overlap) <= i < at :: !OccursAt("\n", text, i)
    ensures OverlapStart(text, end, overlap) == at + 1
  {
    hide Find;
    assert at == Find("\n", text, Max(0, end - overlap), end);
  }

  lemma OverlapStartsAnywhere(text: string, end: nat, overlap: int)
    requires end <= |text|
    requires forall i | Max(0, end - overlap) <= i && i + 1 < end :: !OccursAt("\n", text, i)
    ensures OverlapStart(text, end, overlap) == if overlap <= 0 then end else Max(0, end - overlap)
  {
    hide Find;
    if overlap > 0 {
      var raw: nat := Max(0, end - overlap);
      ParagraphIsLine(text, Find("\n\n", text, raw, end));
    }
  }

  lemma ParagraphIsLine(text: string, i: int)
    ensures OccursAt("\n\n", text, i) ==> OccursAt("\n", text, i)
  {
    assert OccursAt("\n\n", text, i) ==> text[i..i + 1] == text[i..i + 2][..1];
  }

  /** How short a window before the last can get. */
  function ShortestWindow(chunkChars: nat): (n: nat)
    ensures chunkChars > 0 ==> 0 < n <= chunkChars
  {
    if chunkChars <= 4 then chunkChars
    else if chunkChars == 5 || chunkChars == 7 then 4
    else if chunkChars <= 11 then 5
    else chunkChars / 4 + 2
  }

  /** A fence only shortens a window that has room for it in its second half. */
  lemma ShortenedByFence(text: string, start: nat, end: nat)
    requires start < end <= |text|
    ensures var r := AvoidOpenFence(text, start, end);
      || r >= end
      || (r - start >= (end - start) / 2 + 1 && r + 3 <= end && text[r] == text[r + 1] == text[r + 2] == '`')
  {
    var window := text[start..end];
    var fence := RFind(FENCE, window, 0, |window|);
    FenceAt(window, fence);
  }

  lemma SplitIsNoFence(text: string, start: nat, end: nat)
    requires start <= end <= |text|
    ensures SplitPoint(text, start, end) >= 0 ==> text[SplitPoint(text, start, end)] != '`'
  {
    FoundStart("\n\n", text, start, end);
    FoundStart("\n- ", text, start, end);
    FoundStart("\n* ", text, start, end);
    FoundStart("\n|", text, start, end);
    FoundStart("\n", text, start, end);
    FoundStart(". ", text, start, end);
    FoundStart("。", text, start, end);
  }

  lemma FoundStart(pat: string, text: string, start: nat, end: nat)
    requires pat != "" && start <= end <= |text|
    ensures RFind(pat, text, start, end) >= 0 ==> text[RFind(pat, text, start, end)] == pat[0]
  {
    var r := RFind(pat, text, start, end);
    assert r >= 0 ==> text[r..r + |pat|][0] == text[r];
  }

  /** A window before the last is at least that long, since a break is no part of a fence. */
  lemma WindowIsNotShorter(text: string, start: nat, chunkChars: nat)
    requires start < |text| && chunkChars > 0
    ensures var end := WindowEnd(text, start, chunkChars);
      end < |text| ==> end - start >= ShortestWindow(chunkChars)
  {
    hide SplitPoint;
    hide AvoidOpenFence;
    var full := Min(|text|, start + chunkChars);
    if full < |text| {
      var split := SplitPoint(text, start, full);
      SplitIsNoFence(text, start, full);
      ShortenedByFence(text, start, if split > start + chunkChars / 2 then split + 1 else full);
    }
  }

  /** An overlap the windows can always outgrow. */
  predicate Progressive(chunkChars: nat, overlap: int) {
    chunkChars > 0 && overlap < ShortestWindow(chunkChars)
  }

  lemma NextWindowAdvances(text: string, start: nat, chunkChars: nat, overlap: int)
    requires start < |text| && Progressive(chunkChars, overlap)
    ensures var end := WindowEnd(text, start, chunkChars);
      end < |text| ==> start < OverlapStart(text, end, overlap) <= end
  {
    hide WindowEnd;
    hide OverlapStart;
    hide ShortestWindow;
    WindowIsNotShorter(text, start, chunkChars);
  }

  // ----- overlaps the windows cannot outgrow -----

  /** From every start, the next window starts later. */
  ghost predicate AlwaysAdvances(chunkChars: nat, overlap: int)
    requires chunkChars > 0
  {
    forall text: string, start: nat | start < |text| ::
      var end := WindowEnd(text, start, chunkChars);
      end < |text| ==> start < OverlapStart(text, end, overlap)
  }

  /** Where the trap has a break; past its end if it needs none. */
  function TrapBreak(chunkChars: nat): nat {
    if chunkChars == 5 || chunkChars == 6 then chunkChars - 2
    else if chunkChars < 10 then chunkChars + 1
    else Max(8, chunkChars / 2 + 1)
  }

  /** Where the trap has a fence that is not closed; past its end if it needs none. */
  function TrapFence(chunkChars: nat): nat {
    if chunkChars < 7 then chunkChars + 1 else ShortestWindow(chunkChars)
  }

  function TrapChar(chunkChars: nat, i: nat): char {
    if TrapFence(chunkChars) <= i < TrapFence(chunkChars) + 3 then '`'
    else if i == TrapBreak(chunkChars) then '。' else 'x'
  }

  /** A text whose first window is as short as a window can get: it ends at a break just past the
      middle, or before a fence just past the middle of what is left. */
  function Trap(chunkChars: nat): (t: string)
    ensures |t| == chunkChars + 1
    ensures forall i :: 0 <= i < |t| ==> t[i] == TrapChar(chunkChars, i)
  {
    seq(chunkChars + 1, i requires 0 <= i => TrapChar(chunkChars, i))
  }

  /** Break and fence do not overlap, and the fence stands past the middle of its window. */
  lemma TrapShape(chunkChars: nat)
    requires chunkChars > 0
    ensures TrapBreak(chunkChars) < chunkChars ==>
      TrapBreak(chunkChars) > chunkChars / 2
      && (TrapFence(chunkChars) > chunkChars || TrapFence(chunkChars) + 3 <= TrapBreak(chunkChars))
    ensures TrapFence(chunkChars) <= chunkChars ==>
      TrapFence(chunkChars) == ShortestWindow(chunkChars) > TrapWindow(chunkChars) / 2
      && TrapFence(chunkChars) + 3 <= TrapWindow(chunkChars)
    ensures TrapFence(chunkChars) > chunkChars ==> ShortestWindow(chunkChars) == TrapWindow(chunkChars)
    ensures 0 < TrapWindow(chunkChars) <= chunkChars
  {
  }

  lemma AbsentFrom(pat: string, s: string)
    requires pat != "" && forall k | 0 <= k < |s| :: s[k] != pat[0]
    ensures forall i :: !OccursAt(pat, s, i)
  {
    forall i ensures !OccursAt(pat, s, i) {
      assert 0 <= i && i + |pat| <= |s| ==> s[i..i + |pat|][0] == s[i];
    }
  }

  lemma FenceAt(s: string, i: int)
    ensures OccursAt(FENCE, s, i) <==>
      0 <= i && i + 3 <= |s| && s[i] == '`' && s[i + 1] == '`' && s[i + 2] == '`'
  {
    assert 0 <= i && i + 3 <= |s| ==> s[i..i + 3] == [s[i], s[i + 1], s[i + 2]];
  }

  lemma {:induction false} CountOne(s: string, at: nat)
    requires at + 3 <= |s| && forall i | 0 <= i < |s| :: s[i] == '`' <==> at <= i < at + 3
    ensures Count(s, FENCE) == 1
  {
    FenceAt(s, 0);
    assert s[..3] == s[0..3];
    if at == 0 {
      AbsentFrom(FENCE, s[3..]);
    } else {
      CountOne(s[1..], at - 1);
    }
  }

  lemma NoLineBreaks(chunkChars: nat)
    ensures forall k | 0 <= k < |Trap(chunkChars)| :: Trap(chunkChars)[k] != '\n' && Trap(chunkChars)[k] != '.'
  {
  }

  lemma OneCharOccurs(pat: string, s: string, i: nat)
    requires |pat| == 1 && i < |s| && s[i] == pat[0]
    ensures OccursAt(pat, s, i)
  {
    assert s[i..i + 1] == [s[i]];
  }

  lemma TrapHasBreak(chunkChars: nat)
    requires 0 < TrapBreak(chunkChars) < chunkChars
    ensures Trap(chunkChars)[TrapBreak(chunkChars)] == '。'
  {
    hide Trap;
    TrapShape(chunkChars);
    assert TrapChar(chunkChars, TrapBreak(chunkChars)) == '。';
  }

  lemma TrapSplitPoint(chunkChars: nat)
    requires chunkChars > 0
    ensures SplitPoint(Trap(chunkChars), 0, chunkChars) ==
      if TrapBreak(chunkChars) < chunkChars then TrapBreak(chunkChars) else -1
  {
    hide Trap;
    hide TrapBreak;
    hide TrapFence;
    hide RFind;
    var t, at := Trap(chunkChars), TrapBreak(chunkChars);
    NoLineBreaks(chunkChars);
    AbsentFrom("\n\n", t);
    AbsentFrom("\n- ", t);
    AbsentFrom("\n* ", t);
    AbsentFrom("\n|", t);
    AbsentFrom("\n", t);
    AbsentFrom(". ", t);
    TrapShape(chunkChars);
    if at < chunkChars {
      TrapHasBreak(chunkChars);
      OneCharOccurs("。", t, at);
    }
    FoundStart("。", t, 0, chunkChars);
  }

  /** The window before the fence is looked at. */
  function TrapWindow(chunkChars: nat): nat {
    if TrapBreak(chunkChars) < chunkChars then TrapBreak(chunkChars) + 1 else chunkChars
  }

  lemma TrapWindowEnd(chunkChars: nat)
    requires chunkChars > 0
    ensures WindowEnd(Trap(chunkChars), 0, chunkChars) == ShortestWindow(chunkChars)
  {
    hide SplitPoint;
    hide AvoidOpenFence;
    hide Trap;
    TrapShape(chunkChars);
    TrapSplitPoint(chunkChars);
    TrapFenceCuts(chunkChars);
  }

  /** An open fence past the middle ends the window before it. */
  lemma OpenFenceCuts(text: string, end: nat, at: nat)
    requires end / 2 < at && at + 3 <= end <= |text|
    requires forall i | 0 <= i < end :: text[i] == '`' <==> at <= i < at + 3
    ensures AvoidOpenFence(text, 0, end) == at
  {
    hide Count;
    hide RFind;
    var window := text[0..end];
    CountOne(window, at);
    FenceAt(window, at);
    var fence := RFind(FENCE, window, 0, end);
    FenceAt(window, fence);
    assert fence == at;
  }

  lemma NoFenceNoCut(text: string, end: nat)
    requires 0 < end <= |text| && forall i | 0 <= i < end :: text[i] != '`'
    ensures AvoidOpenFence(text, 0, end) == end
  {
    hide RFind;
    AbsentFrom(FENCE, text[0..end]);
  }

  lemma TrapFenceCuts(chunkChars: nat)
    requires chunkChars > 0
    ensures TrapWindow(chunkChars) <= chunkChars
    ensures AvoidOpenFence(Trap(chunkChars), 0, TrapWindow(chunkChars)) == ShortestWindow(chunkChars)
  {
    hide *;
    TrapShape(chunkChars);
    var t, size, at := Trap(chunkChars), TrapWindow(chunkChars), TrapFence(chunkChars);
    forall i | 0 <= i < size ensures t[i] == '`' <==> at <= i < at + 3 { FenceOfTrap(chunkChars, i); }
    if at > chunkChars {
      NoFenceNoCut(t, size);
    } else {
      OpenFenceCuts(t, size, at);
    }
  }

  lemma FenceOfTrap(chunkChars: nat, i: nat)
    ensures TrapChar(chunkChars, i) == '`' <==> TrapFence(chunkChars) <= i < TrapFence(chunkChars) + 3
  {
  }

  lemma TrapHoldsTheWindow(chunkChars: nat, overlap: int)
    requires chunkChars > 0 && overlap >= ShortestWindow(chunkChars)
    ensures OverlapStart(Trap(chunkChars), ShortestWindow(chunkChars), overlap) == 0
  {
    hide Trap;
    NoLineBreaks(chunkChars);
    AbsentFrom("\n\n", Trap(chunkChars));
    AbsentFrom("\n", Trap(chunkChars));
  }

  /** The bound on the overlap is exact for every chunk size: with any larger one some text is never
      finished. */
  lemma AdvancesIffProgressive(chunkChars: nat, overlap: int)
    requires chunkChars > 0
    ensures AlwaysAdvances(chunkChars, overlap) <==> Progressive(chunkChars, overlap)
  {
    hide WindowEnd;
    hide OverlapStart;
    hide ShortestWindow;
    if Progressive(chunkChars, overlap) {
      forall text: string, start: nat | start < |text|
        ensures var end := WindowEnd(text, start, chunkChars);
          end < |text| ==> start < OverlapStart(text, end, overlap)
      {
        NextWindowAdvances(text, start, chunkChars, overlap);
      }
    } else {
      TrapWindowEnd(chunkChars);
      TrapHoldsTheWindow(chunkChars, overlap);
      assert |Trap(chunkChars)| > 0;
    }
  }

  // ----- the windows -----

  datatype Window = Window(start: nat, end: nat)

  /** The loop gets from `start` to the end of the text within `n` further rounds. */
  ghost predicate Finishes(text: string, start: nat, chunkChars: nat, overlap: int, n: nat)
    decreases n
  {
    && start < |text| && chunkChars > 0
    && var end := WindowEnd(text, start, chunkChars);
       end < |text| ==>
         n > 0 && Finishes(text, OverlapStart(text, end, overlap), chunkChars, overlap, n - 1)
  }

  /** With an overlap the windows can outgrow, every text is finished. */
  lemma {:induction false} ProgressiveFinishes(text: string, start: nat, chunkChars: nat, overlap: int)
    requires start < |text| && Progressive(chunkChars, overlap)
    ensures Finishes(text, start, chunkChars, overlap, |text| - start)
    decreases |text| - start
  {
    hide WindowEnd;
    hide OverlapStart;
    var end := WindowEnd(text, start, chunkChars);
    if end < |text| {
      NextWindowAdvances(text, start, chunkChars, overlap);
      var next := OverlapStart(text, end, overlap);
      ProgressiveFinishes(text, next, chunkChars, overlap);
      FinishesInMore(text, next, chunkChars, overlap, |text| - next, |text| - start - 1);
    }
  }

  lemma {:induction false} FinishesInMore(text: string, start: nat, chunkChars: nat, overlap: int, n: nat, m: nat)
    requires Finishes(text, start, chunkChars, overlap, n) && n <= m
    ensures Finishes(text, start, chunkChars, overlap, m)
    decreases n
  {
    hide WindowEnd;
    hide OverlapStart;
    var end := WindowEnd(text, start, chunkChars);
    if end < |text| { FinishesInMore(text, OverlapStart(text, end, overlap), chunkChars, overlap, n - 1, m - 1); }
  }

  /** All windows from `start` on. */
  ghost function Windows(text: string, start: nat, chunkChars: nat, overlap: int, n: nat): seq<Window>
    requires Finishes(text, start, chunkChars, overlap, n)
    decreases n
  {
    hide WindowEnd;
    hide OverlapStart;
    var end := WindowEnd(text, start, chunkChars);
    if end >= |text| then [Window(start, end)]
    else [Window(start, end)] + Windows(text, OverlapStart(text, end, overlap), chunkChars, overlap, n - 1)
  }

  /** The loop ends on this text. */
  ghost predicate EndsOn(text: string, chunkChars: nat, overlap: int) {
    exists n: nat :: Finishes(text, 0, chunkChars, overlap, n)
  }

  /** On the trap the loop never gets past the start. */
  lemma {:induction false} TrapIsNeverFinished(chunkChars: nat, overlap: int, n: nat)
    requires chunkChars > 0 && !Progressive(chunkChars, overlap)
    ensures !Finishes(Trap(chunkChars), 0, chunkChars, overlap, n)
  {
    hide WindowEnd;
    hide OverlapStart;
    hide ShortestWindow;
    hide Trap;
    TrapWindowEnd(chunkChars);
    TrapHoldsTheWindow(chunkChars, overlap);
    if n > 0 { TrapIsNeverFinished(chunkChars, overlap, n - 1); }
  }

  /** The loop ends on every text exactly with an overlap the windows can outgrow. */
  lemma EndsIffProgressive(chunkChars: nat, overlap: int)
    requires chunkChars > 0
    ensures (forall text: string | text != "" :: EndsOn(text, chunkChars, overlap)) <==> Progressive(chunkChars, overlap)
  {
    hide Finishes;
    hide Progressive;
    hide Trap;
    if Progressive(chunkChars, overlap) {
      forall text: string | text != "" ensures EndsOn(text, chunkChars, overlap) {
        ProgressiveFinishes(text, 0, chunkChars, overlap);
        assert Finishes(text, 0, chunkChars, overlap, |text| - 0);
      }
    } else {
      forall n: nat ensures !Finishes(Trap(chunkChars), 0, chunkChars, overlap, n) {
        TrapIsNeverFinished(chunkChars, overlap, n);
      }
      assert Trap(chunkChars) != "" && !EndsOn(Trap(chunkChars), chunkChars, overlap);
    }
  }

  /** How many rounds are allowed does not matter once they suffice. */
  lemma {:induction false} WindowsAreDetermined(text: string, start: nat, chunkChars: nat, overlap: int, n: nat, m: nat)
    requires Finishes(text, start, chunkChars, overlap, n) && Finishes(text, start, chunkChars, overlap, m)
    ensures Windows(text, start, chunkChars, overlap, n) == Windows(text, start, chunkChars, overlap, m)
    decreases n
  {
    hide WindowEnd;
    hide OverlapStart;
    var end := WindowEnd(text, start, chunkChars);
    if end < |text| {
      WindowsAreDetermined(text, OverlapStart(text, end, overlap), chunkChars, overlap, n - 1, m - 1);
    }
  }

  /** The windows walk through the text from `from` to `to`: none is too wide or empty, each starts
      no later than the one before ends, and the last one reaches the end. */
  predicate Walk(ws: seq<Window>, from: nat, to: nat, width: nat) {
    && ws != []
    && var w := ws[0];
    && from == w.start < w.end <= to && 4 * (w.end - w.start) <= 5 * width
    && if |ws| == 1 then w.end == to
       else ws[1].start <= w.end && Walk(ws[1..], ws[1].start, to, width)
  }

  /** Each window starts after the start of the one before. */
  predicate Advancing(ws: seq<Window>) {
    |ws| <= 1 || (ws[0].start < ws[1].start && Advancing(ws[1..]))
  }

  /** Whenever the loop ends, its windows are a walk through the whole text. */
  lemma {:induction false} WindowsWalk(text: string, start: nat, chunkChars: nat, overlap: int, n: nat)
    requires Finishes(text, start, chunkChars, overlap, n)
    ensures Walk(Windows(text, start, chunkChars, overlap, n), start, |text|, chunkChars)
    decreases n
  {
    hide WindowEnd;
    hide OverlapStart;
    var end := WindowEnd(text, start, chunkChars);
    WindowSize(text, start, chunkChars);
    if end < |text| { WindowsWalk(text, OverlapStart(text, end, overlap), chunkChars, overlap, n - 1); }
  }

  lemma {:induction false} WindowsAdvance(text: string, start: nat, chunkChars: nat, overlap: int, n: nat)
    requires Finishes(text, start, chunkChars, overlap, n) && Progressive(chunkChars, overlap)
    ensures Advancing(Windows(text, start, chunkChars, overlap, n))
    decreases n
  {
    hide WindowEnd;
    hide OverlapStart;
    var end := WindowEnd(text, start, chunkChars);
    if end < |text| {
      NextWindowAdvances(text, start, chunkChars, overlap);
      WindowsAdvance(text, OverlapStart(text, end, overlap), chunkChars, overlap, n - 1);
    }
  }

  /** Each window starts where the one before ends. */
  predicate Adjacent(ws: seq<Window>) {
    |ws| <= 1 || (ws[1].start == ws[0].end && Adjacent(ws[1..]))
  }

  /** Without overlap the windows partition the text. */
  lemma {:induction false} WindowsPartition(text: string, start: nat, chunkChars: nat, overlap: int, n: nat)
    requires Finishes(text, start, chunkChars, overlap, n) && overlap <= 0
    ensures Adjacent(Windows(text, start, chunkChars, overlap, n))
    decreases n
  {
    hide WindowEnd;
    var end := WindowEnd(text, start, chunkChars);
    if end < |text| { WindowsPartition(text, end, chunkChars, overlap, n - 1); }
  }

  /** A walk visits every position. */
  lemma {:induction false} WalkCovers(ws: seq<Window>, from: nat, to: nat, width: nat, i: nat) returns (k: nat)
    requires Walk(ws, from, to, width) && from <= i < to
    ensures k < |ws| && ws[k].start <= i < ws[k].end
  {
    if i < ws[0].end {
      k := 0;
    } else {
      var j := WalkCovers(ws[1..], ws[1].start, to, width, i);
      k := j + 1;
    }
  }

  // ----- the chunks -----

  predicate ValidWindows(text: string, ws: seq<Window>) {
    ws == [] || (ws[0].start <= ws[0].end <= |text| && ValidWindows(text, ws[1..]))
  }

  lemma {:induction false} WalkIsValid(text: string, ws: seq<Window>, from: nat, width: nat)
    requires Walk(ws, from, |text|, width)
    ensures ValidWindows(text, ws)
  {
    if |ws| > 1 { WalkIsValid(text, ws[1..], ws[1].start, width); }
  }

  function ChunkText(text: string, w: Window): string
    requires w.start <= w.end <= |text|
  {
    Strip(text[w.start..w.end])
  }

  /** The windows with something in them. */
  function ChunksOf(text: string, ws: seq<Window>): seq<Chunk>
    requires ValidWindows(text, ws)
  {
    if ws == [] then []
    else
      var chunk, rest := ChunkText(text, ws[0]), ChunksOf(text, ws[1..]);
      if chunk == "" then rest else [Chunk(chunk, ws[0].start, ws[0].end)] + rest
  }

  /** The chunks of a normalised text that the loop finishes within `n` rounds after the first. */
  ghost function Split(text: string, chunkChars: nat, overlap: int, n: nat): seq<Chunk>
    requires |text| > chunkChars ==> Finishes(text, 0, chunkChars, overlap, n)
  {
    if |text| <= chunkChars then [Chunk(text, 0, |text|)]
    else
      WindowsAreValid(text, 0, chunkChars, overlap, n);
      ChunksOf(text, Windows(text, 0, chunkChars, overlap, n))
  }

  lemma WindowsAreValid(text: string, start: nat, chunkChars: nat, overlap: int, n: nat)
    requires Finishes(text, start, chunkChars, overlap, n)
    ensures ValidWindows(text, Windows(text, start, chunkChars, overlap, n))
  {
    WindowsWalk(text, start, chunkChars, overlap, n);
    WalkIsValid(text, Windows(text, start, chunkChars, overlap, n), start, chunkChars);
  }

  /** `split_semantic_text`, on any text on which its loop ends. */
  method SplitSemanticText(text: string, chunkChars: nat, overlap: int, ghost n: nat) returns (chunks: seq<Chunk>)
    requires |text| > chunkChars ==> Finishes(text, 0, chunkChars, overlap, n)
    ensures chunks == Split(text, chunkChars, overlap, n)
  {
    hide WindowEnd;
    hide OverlapStart;
    hide Strip;
    if |text| <= chunkChars { return [Chunk(text, 0, |text|)]; }
    chunks := [];
    var start: nat := 0;
    ghost var left: nat := n;
    WindowsAreValid(text, 0, chunkChars, overlap, n);
    while start < |text|
      invariant Finishes(text, start, chunkChars, overlap, left)
      invariant ValidWindows(text, Windows(text, start, chunkChars, overlap, left))
      invariant Split(text, chunkChars, overlap, n)
             == chunks + ChunksOf(text, Windows(text, start, chunkChars, overlap, left))
      decreases left
    {
      var end := WindowEnd(text, start, chunkChars);
      var chunk := Strip(text[start..end]);
      if chunk != "" { chunks := chunks + [Chunk(chunk, start, end)]; }
      if end >= |text| { break; }
      start := OverlapStart(text, end, overlap);
      left := left - 1;
      WindowsAreValid(text, start, chunkChars, overlap, left);
    }
  }

  // ----- what the chunks are -----

  /** Chunk `c` is what window `w` shows, without blanks at its ends. */
  ghost predicate FromWindow(text: string, c: Chunk, w: Window) {
    && c.start == w.start && c.end == w.end && w.start <= w.end <= |text|
    && c.text == Strip(text[w.start..w.end]) && c.text != ""
  }

  lemma {:induction false} ChunkComesFromWindow(text: string, ws: seq<Window>, j: nat) returns (k: nat)
    requires ValidWindows(text, ws) && j < |ChunksOf(text, ws)|
    ensures k < |ws| && FromWindow(text, ChunksOf(text, ws)[j], ws[k])
  {
    hide Strip;
    if ChunkText(text, ws[0]) == "" {
      var i := ChunkComesFromWindow(text, ws[1..], j);
      k := i + 1;
    } else if j == 0 {
      k := 0;
    } else {
      var i := ChunkComesFromWindow(text, ws[1..], j - 1);
      k := i + 1;
    }
  }

  /** The chunks of windows that advance are in the order of their windows. */
  lemma {:induction false} ChunksAdvance(text: string, ws: seq<Window>)
    requires ValidWindows(text, ws) && Advancing(ws)
    ensures forall j | 0 <= j < |ChunksOf(text, ws)| :: ChunksOf(text, ws)[j].start >= ws[0].start
    ensures forall j, k | 0 <= j < k < |ChunksOf(text, ws)| :: ChunksOf(text, ws)[j].start < ChunksOf(text, ws)[k].start
  {
    hide ChunkText;
    if ws != [] { ChunksAdvance(text, ws[1..]); }
  }

  // ----- nothing but blanks is lost -----

  /** Character `i` of the text lies inside the chunk, at its place. */
  ghost predicate Inside(text: string, c: Chunk, i: nat) {
    exists a: nat, b: nat :: c.start <= a <= i < b <= c.end && b <= |text| && c.text == text[a..b]
  }

  lemma NonBlankInside(text: string, w: Window, i: nat)
    requires w.start <= i < w.end <= |text| && !IsSpace(text[i])
    ensures ChunkText(text, w) != "" && Inside(text, Chunk(ChunkText(text, w), w.start, w.end), i)
  {
    hide Strip;
    hide IsSpace;
    var s := text[w.start..w.end];
    var a, b := StripTrims(s);
    BlanksAround(s, a, b);
    assert !IsSpace(s[i - w.start]);
    SliceOfSlice(text, w.start, w.end, a, b);
    var c := Chunk(ChunkText(text, w), w.start, w.end);
    assert c.start <= w.start + a <= i < w.start + b <= c.end && c.text == text[w.start + a..w.start + b];
  }

  lemma BlanksAround(s: string, a: nat, b: nat)
    requires a <= b <= |s| && AllSpace(s[..a]) && AllSpace(s[b..])
    ensures forall k | 0 <= k < a || b <= k < |s| :: IsSpace(s[k])
  {
    hide IsSpace;
    assert forall k | 0 <= k < a :: s[k] == s[..a][k];
    assert forall k | b <= k < |s| :: s[k] == s[b..][k - b];
  }

  lemma {:induction false} ChunkOfWindow(text: string, ws: seq<Window>, k: nat) returns (j: nat)
    requires ValidWindows(text, ws) && k < |ws|
    requires ws[k].start <= ws[k].end <= |text| && ChunkText(text, ws[k]) != ""
    ensures j < |ChunksOf(text, ws)|
    ensures ChunksOf(text, ws)[j] == Chunk(ChunkText(text, ws[k]), ws[k].start, ws[k].end)
  {
    hide ChunkText;
    if k == 0 {
      j := 0;
    } else {
      var i := ChunkOfWindow(text, ws[1..], k - 1);
      j := if ChunkText(text, ws[0]) == "" then i else i + 1;
    }
  }

  /** Every character that is not blank ends up, at its place, in some chunk. */
  lemma NonBlankIsKept(text: string, chunkChars: nat, overlap: int, n: nat, i: nat) returns (j: nat)
    requires |text| > chunkChars ==> Finishes(text, 0, chunkChars, overlap, n)
    requires i < |text| && !IsSpace(text[i])
    ensures j < |Split(text, chunkChars, overlap, n)| && Inside(text, Split(text, chunkChars, overlap, n)[j], i)
  {
    hide Windows;
    hide ChunkText;
    if |text| <= chunkChars {
      j := 0;
      assert text == text[0..|text|];
    } else {
      var ws := Windows(text, 0, chunkChars, overlap, n);
      WindowsWalk(text, 0, chunkChars, overlap, n);
      WindowsAreValid(text, 0, chunkChars, overlap, n);
      var k := WalkCovers(ws, 0, |text|, chunkChars, i);
      ValidAt(text, ws, k);
      NonBlankInside(text, ws[k], i);
      j := ChunkOfWindow(text, ws, k);
    }
  }

  lemma {:induction false} ValidAt(text: string, ws: seq<Window>, k: nat)
    requires ValidWindows(text, ws) && k < |ws|
    ensures ws[k].start <= ws[k].end <= |text|
  {
    if k > 0 { ValidAt(text, ws[1..], k - 1); }
  }

  // ----- headings -----

  /** One heading match: its level, its text and where it starts. */
  datatype Heading = Heading(level: nat, title: string, start: nat)

  /** Index of the heading that encloses heading `i`: the last earlier one of a smaller level, or -1. */
  function Parent(hs: seq<Heading>, i: nat): (p: int)
    requires i < |hs|
    ensures -1 <= p < i
    ensures p >= 0 ==> hs[p].level < hs[i].level
    ensures forall k | p < k < i :: hs[k].level >= hs[i].level
  {
    EnclosingFrom(hs, i, hs[i].level)
  }

  /** The last heading before `i` whose level is below `level`, or -1. */
  function EnclosingFrom(hs: seq<Heading>, i: nat, level: nat): (p: int)
    requires i <= |hs|
    ensures -1 <= p < i
    ensures p >= 0 ==> hs[p].level < level
    ensures forall k | p < k < i :: hs[k].level >= level
  {
    if i == 0 then -1 else if hs[i - 1].level < level then i - 1 else EnclosingFrom(hs, i - 1, level)
  }

  /** The chain of enclosing headings, outermost first, ending with heading `i`. */
  function Ancestors(hs: seq<Heading>, i: nat): (chain: seq<Heading>)
    requires i < |hs|
    ensures chain != [] && chain[|chain| - 1] == hs[i]
  {
    if Parent(hs, i) < 0 then [hs[i]] else Ancestors(hs, Parent(hs, i)) + [hs[i]]
  }

  function ChainUpTo(hs: seq<Heading>, top: nat): seq<Heading>
    requires top <= |hs|
  {
    if top == 0 then [] else Ancestors(hs, top - 1)
  }

  /** Popping the innermost heading of a chain leads to the chain of its parent. */
  lemma PopOne(hs: seq<Heading>, i: nat, level: nat)
    requires i < |hs| && hs[i].level >= level
    ensures Parent(hs, i) + 1 <= i
    ensures EnclosingFrom(hs, i + 1, level) == EnclosingFrom(hs, Parent(hs, i) + 1, level)
    ensures var chain := Ancestors(hs, i); chain[..|chain| - 1] == ChainUpTo(hs, Parent(hs, i) + 1)
  {
    SkipDeeper(hs, Parent(hs, i) + 1, i + 1, level);
  }

  /** A chain whose innermost heading is higher encloses what comes next. */
  lemma PushOne(hs: seq<Heading>, index: nat, top: nat)
    requires index < |hs| && top <= index
    requires EnclosingFrom(hs, index, hs[index].level) == EnclosingFrom(hs, top, hs[index].level)
    requires top > 0 ==> hs[top - 1].level < hs[index].level
    ensures ChainUpTo(hs, top) + [hs[index]] == Ancestors(hs, index)
  {
    assert Parent(hs, index) == top - 1;
    assert [] + [hs[index]] == [hs[index]];
  }

  lemma {:induction false} SkipDeeper(hs: seq<Heading>, lo: nat, hi: nat, level: nat)
    requires lo <= hi <= |hs| && forall k | lo <= k < hi :: hs[k].level >= level
    ensures EnclosingFrom(hs, hi, level) == EnclosingFrom(hs, lo, level)
  {
    if lo < hi { SkipDeeper(hs, lo, hi - 1, level); }
  }

  /** The heading stack of `split_markdown_sections`: the path of each section is its chain of
      enclosing headings. */
  method HeadingPaths(hs: seq<Heading>) returns (paths: seq<seq<Heading>>)
    ensures |paths| == |hs| && forall i | 0 <= i < |hs| :: paths[i] == Ancestors(hs, i)
  {
    hide Ancestors;
    hide EnclosingFrom;
    paths := [];
    var stack: seq<Heading> := [];
    for index := 0 to |hs|
      invariant |paths| == index && forall i | 0 <= i < index :: paths[i] == Ancestors(hs, i)
      invariant stack == ChainUpTo(hs, index)
    {
      var level := hs[index].level;
      ghost var top: nat := index;
      while stack != [] && stack[|stack| - 1].level >= level
        invariant top <= index && stack == ChainUpTo(hs, top)
        invariant EnclosingFrom(hs, index, level) == EnclosingFrom(hs, top, level)
        decreases top
      {
        PopOne(hs, top - 1, level);
        stack := stack[..|stack| - 1];
        top := Parent(hs, top - 1) + 1;
      }
      PushOne(hs, index, top);
      stack := stack + [hs[index]];
      paths := paths + [stack];
    }
  }
}
