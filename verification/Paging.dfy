/** Files shown page by page: each page fits a character budget and says where to go on. */
module Paging {
  import opened Options
  import opened PyText

  const MAX_WORKSPACE_READ_CHARS: int := 50000

  /** The mark put behind the beginning of a line; only its length matters. */
  type LineMark = s: string | |s| == 19 witness seq(19, _ => '.')
  const TRUNCATED: LineMark

  /** How many characters a page may have, the notice aside. */
  function Budget(maxChars: int): (b: nat)
    ensures b >= 80
  {
    var asked := if maxChars == 0 then MAX_WORKSPACE_READ_CHARS else maxChars;
    Max(80, Max(200, asked) - 500)
  }

  // ----- one page -----

  /** The length of the lines joined by line breaks. */
  function Width(lines: seq<string>): nat {
    if lines == [] then 0
    else Width(lines[..|lines| - 1]) + (if |lines| > 1 then 1 else 0) + |lines[|lines| - 1]|
  }

  lemma {:induction false} JoinedWidth(lines: seq<string>, line: string)
    ensures |Join(lines + [line], "\n")| == (if lines == [] then 0 else |Join(lines, "\n")| + 1) + |line|
  {
    if lines == [] {
      assert lines + [line] == [line];
    } else {
      assert (lines + [line])[1..] == lines[1..] + [line];
      JoinedWidth(lines[1..], line);
    }
  }

  lemma {:induction false} WidthIsJoinLength(lines: seq<string>)
    ensures Width(lines) == |Join(lines, "\n")|
  {
    if lines != [] {
      var init := lines[..|lines| - 1];
      WidthIsJoinLength(init);
      JoinedWidth(init, lines[|lines| - 1]);
      assert lines == init + [lines[|lines| - 1]];
    }
  }

  /** The most lines from the start that fit. */
  ghost predicate Fitting(lines: seq<string>, budget: nat, n: nat) {
    && n <= |lines|
    && Width(lines[..n]) <= budget
    && (n < |lines| ==> Width(lines[..n + 1]) > budget)
  }

  /** `_fit_lines_to_chars`: as many whole lines as fit, but of a first line that is too long for
      a page by itself, its beginning. */
  method FitLinesToChars(lines: seq<string>, startOffset: nat, maxChars: int)
    returns (rendered: seq<string>, next: nat, limited: bool, ghost n: nat)
    ensures Fitting(lines, Budget(maxChars), n)
    ensures limited <==> n < |lines|
    ensures limited && n == 0 ==> rendered == [Beginning(lines[0], Budget(maxChars))] && next == startOffset + 1
    ensures !limited || n > 0 ==> rendered == lines[..n] && next == startOffset + n
    ensures |Join(rendered, "\n")| <= Budget(maxChars)
  {
    hide Width;
    hide Join;
    hide RStrip;
    hide Budget;
    var budget := Budget(maxChars);
    var used := 0;
    rendered, n := [], 0;
    WidthUpTo(lines, 0);
    for index := 0 to |lines|
      invariant n == index && rendered == lines[..index] && used == Width(lines[..index]) <= budget
    {
      var separator := if rendered != [] then 1 else 0;
      var addition := separator + |lines[index]|;
      WidthUpTo(lines, index);
      if used + addition > budget {
        if rendered == [] {
          var keep := Max(20, budget - |TRUNCATED|);
          rendered := [RStrip(lines[index][..keep]) + TRUNCATED];
          OneLineJoined(rendered[0]);
          return rendered, startOffset + 1, true, n;
        }
        WidthIsJoinLength(lines[..index]);
        return rendered, startOffset + index, true, n;
      }
      rendered := rendered + [lines[index]];
      used := used + addition;
      n := n + 1;
    }
    assert lines[..|lines|] == lines;
    WidthIsJoinLength(lines);
    next, limited := startOffset + |lines|, false;
  }

  lemma WidthUpTo(lines: seq<string>, n: nat)
    requires n <= |lines|
    ensures Width(lines[..0]) == 0
    ensures n < |lines| ==>
      Width(lines[..n + 1]) == Width(lines[..n]) + (if n > 0 then 1 else 0) + |lines[n]|
  {
    if n < |lines| { assert lines[..n + 1][..n] == lines[..n]; }
  }

  lemma OneLineJoined(line: string)
    ensures Join([line], "\n") == line
  {
  }

  /** What is shown of a line longer than a page. */
  function Beginning(line: string, budget: nat): (shown: string)
    requires budget >= 80 && |line| > budget
    ensures |shown| <= budget
  {
    RStrip(line[..budget - |TRUNCATED|]) + TRUNCATED
  }

  /** The lines shown, where the page starts and where the next one does, and the limit the notice
      suggests for it.  There is a notice when lines remain. */
  datatype Page = Page(displayed: seq<string>, start: nat, next: nat, suggested: Option<nat>)

  datatype Ask = Ask(limit: Option<int>, maxChars: int)

  function RequestedEnd(total: nat, offset: nat, limit: Option<int>): (e: nat)
    requires offset <= total
    ensures offset <= e <= total
    ensures offset < total ==> offset < e
  {
    if limit.Some? && limit.value > 0 then Min(total, offset + limit.value) else total
  }

  /** The limit asked for, if it is one. */
  function LimitOr(limit: Option<int>, other: int): int {
    if limit.Some? && limit.value > 0 then limit.value else other
  }

  /** What a page that starts at `p.start` has to be. */
  ghost predicate IsPage(lines: seq<string>, ask: Ask, p: Page) {
    && p.start <= p.next <= |lines|
    && (p.start < |lines| ==> p.start < p.next)
    && p.next <= RequestedEnd(|lines|, p.start, ask.limit)
    && |Join(p.displayed, "\n")| <= Budget(ask.maxChars)
    && (p.suggested.Some? <==> p.next < |lines|)
    && (p.suggested.Some? ==>
         p.suggested.value == LimitOr(ask.limit, p.next - p.start))
    && (if p.start < |lines| && |lines[p.start]| > Budget(ask.maxChars)
        then p.next == p.start + 1 && p.displayed == [Beginning(lines[p.start], Budget(ask.maxChars))]
        else p.displayed == lines[p.start..p.next])
    // The page is as long as the request and the budget allow.
    && (p.next < RequestedEnd(|lines|, p.start, ask.limit) ==>
         Width(lines[p.start..p.next + 1]) > Budget(ask.maxChars))
  }

  method FormatLineWindow(lines: seq<string>, offset: int, ask: Ask) returns (p: Page)
    ensures p.start == Min(Max(0, offset), |lines|)
    ensures IsPage(lines, ask, p)
  {
    var total := |lines|;
    var start := Min(Max(0, offset), total);
    var requestedEnd := RequestedEnd(total, start, ask.limit);
    var selected := lines[start..requestedEnd];
    var displayed, next, limited, n := FitLinesToChars(selected, start, ask.maxChars);
    FittingIsPage(lines, start, requestedEnd, Budget(ask.maxChars), n);
    if !limited { next := requestedEnd; }
    var suggested := None;
    if next < total {
      suggested := Some(LimitOr(ask.limit, Max(1, next - start)));
    }
    p := Page(displayed, start, next, suggested);
  }

  lemma FittingIsPage(lines: seq<string>, start: nat, end: nat, budget: nat, n: nat)
    requires start <= end <= |lines| && Fitting(lines[start..end], budget, n)
    ensures lines[start..end][..n] == lines[start..start + n]
    ensures n == 0 && start < end ==> |lines[start]| > budget
    ensures n > 0 ==> |lines[start]| <= budget
    ensures start + n < end ==> Width(lines[start..start + n + 1]) > budget
    ensures n == 0 && start + 1 < end ==> Width(lines[start..start + 2]) > budget
  {
    var selected := lines[start..end];
    if n < |selected| { assert selected[..n + 1] == lines[start..start + n + 1]; }
    if n > 0 {
      WidthGrows(selected[..n], 1);
      assert selected[0] == lines[start];
      assert selected[..n][..1] == [lines[start]];
    }
    if n == 0 && start < end { assert selected[..1] == [lines[start]]; }
    if n == 0 && start + 1 < end {
      WidthGrows(lines[start..start + 2], 1);
      assert lines[start..start + 2][..1] == [lines[start]];
    }
  }

  lemma {:induction false} WidthGrows(lines: seq<string>, k: nat)
    requires k <= |lines|
    ensures Width(lines[..k]) <= Width(lines)
  {
    if k < |lines| {
      assert lines[..|lines| - 1][..k] == lines[..k];
      WidthGrows(lines[..|lines| - 1], k);
    } else {
      assert lines[..k] == lines;
    }
  }

  /** How many characters a page has for its lines: 500 less than asked for, but never less than 80, and
      49500 when nothing is asked for. */
  lemma PageBudget(maxChars: int)
    ensures Budget(maxChars) == if maxChars == 0 then 49500 else if maxChars <= 580 then 80 else maxChars - 500
  {
  }

  /** In numbers: a page ends where the limit asked for ends, or with the file, unless one line more would
      be too much; a line longer than a page is cut at its end. */
  lemma PageInNumbers(lines: seq<string>, ask: Ask, p: Page)
    requires IsPage(lines, ask, p)
    ensures var budget: nat := if ask.maxChars == 0 then 49500 else if ask.maxChars <= 580 then 80 else ask.maxChars - 500;
      var n := |lines|;
      var end := if ask.limit.Some? && 0 < ask.limit.value < n - p.start then p.start + ask.limit.value else n;
      && p.start <= p.next <= end && (p.start < n ==> p.start < p.next)
      && |Join(p.displayed, "\n")| <= budget
      && (p.next < end ==> |Join(lines[p.start..p.next + 1], "\n")| > budget)
      && (p.start < n && |lines[p.start]| > budget ==>
            |p.displayed| == 1 && IsCut(lines[p.start], budget - 19, TRUNCATED, p.displayed[0]))
      && (p.start == n || |lines[p.start]| <= budget ==> p.displayed == lines[p.start..p.next])
      && p.suggested == if p.next == n then None
                        else Some(if ask.limit.Some? && ask.limit.value > 0 then ask.limit.value else p.next - p.start)
  {
    hide Join;
    hide RStrip;
    hide Budget;
    hide IsCut;
    hide Width;
    PageBudget(ask.maxChars);
    if p.next < |lines| { WidthIsJoinLength(lines[p.start..p.next + 1]); }
    if p.start < |lines| && |lines[p.start]| > Budget(ask.maxChars) {
      RStripIsCut(lines[p.start], Budget(ask.maxChars) - 19, TRUNCATED);
    }
  }

  // ----- following the notices -----

  /** Pages got by going on where each notice says, whatever limits are asked for. */
  ghost predicate Follow(lines: seq<string>, asks: seq<Ask>, pages: seq<Page>) {
    && |asks| == |pages|
    && (pages != [] ==>
         var n := |pages| - 1;
         && Follow(lines, asks[..n], pages[..n])
         && IsPage(lines, asks[n], pages[n])
         && pages[n].start == Reached(pages[..n])
         && (n > 0 ==> pages[n - 1].suggested.Some?))
  }

  /** Where the pages have got to. */
  function Reached(pages: seq<Page>): nat {
    if pages == [] then 0 else pages[|pages| - 1].next
  }

  function Shown(pages: seq<Page>): seq<string> {
    if pages == [] then [] else Shown(pages[..|pages| - 1]) + pages[|pages| - 1].displayed
  }

  /** One line as the reader sees it: whole, or its beginning when it exceeds the page's budget. */
  ghost predicate SameOrCut(line: string, shown: string) {
    || shown == line
    || exists budget: nat :: budget >= 80 && |line| > budget && shown == Beginning(line, budget)
  }

  /** The pages so far show every line up to where they got, each once and in order, and lose only
      the ends of lines longer than a page. */
  lemma {:induction false} PagesShowEachLineOnce(lines: seq<string>, asks: seq<Ask>, pages: seq<Page>)
    requires Follow(lines, asks, pages)
    ensures |Shown(pages)| == Reached(pages) <= |lines|
    ensures forall i :: 0 <= i < Reached(pages) ==> SameOrCut(lines[i], Shown(pages)[i])
    ensures |pages| <= if lines == [] then 1 else Reached(pages)
    ensures pages != [] ==> (pages[|pages| - 1].suggested.Some? <==> Reached(pages) < |lines|)
  {
    hide IsPage;
    if pages != [] {
      var n := |pages| - 1;
      var p := pages[n];
      PagesShowEachLineOnce(lines, asks[..n], pages[..n]);
      PageShowsItsLines(lines, asks[n], p);
      assert n > 0 ==> Reached(pages[..n]) == pages[n - 1].next;
    }
  }

  lemma PageShowsItsLines(lines: seq<string>, ask: Ask, p: Page)
    requires IsPage(lines, ask, p)
    ensures p.start <= p.next <= |lines| && |p.displayed| == p.next - p.start
    ensures p.start < |lines| ==> p.start < p.next
    ensures p.suggested.Some? <==> p.next < |lines|
    ensures forall i :: p.start <= i < p.next ==> SameOrCut(lines[i], p.displayed[i - p.start])
  {
  }

  /** Once there is no further notice, the reader has seen the whole file. */
  lemma LastPageEndsFile(lines: seq<string>, asks: seq<Ask>, pages: seq<Page>)
    requires Follow(lines, asks, pages) && pages != []
    ensures pages[|pages| - 1].suggested.None? <==> Reached(pages) == |lines|
    ensures pages[|pages| - 1].suggested.None? ==> |Shown(pages)| == |lines|
  {
    PagesShowEachLineOnce(lines, asks, pages);
  }

  ghost predicate AllFit(lines: seq<string>, budget: nat) {
    forall k | 0 <= k < |lines| :: |lines[k]| <= budget
  }

  lemma PageOfShortLines(lines: seq<string>, ask: Ask, p: Page)
    requires IsPage(lines, ask, p) && AllFit(lines, Budget(ask.maxChars))
    ensures p.start <= p.next <= |lines| && p.displayed == lines[p.start..p.next]
  {
  }

  /** Nothing is lost at all from a file whose lines fit on a page. */
  lemma {:induction false} ShortLinesComeWhole(lines: seq<string>, asks: seq<Ask>, pages: seq<Page>)
    requires Follow(lines, asks, pages)
    requires forall i :: 0 <= i < |asks| ==> AllFit(lines, Budget(asks[i].maxChars))
    ensures Reached(pages) <= |lines| && Shown(pages) == lines[..Reached(pages)]
  {
    hide IsPage;
    hide AllFit;
    hide Budget;
    if pages != [] {
      var n := |pages| - 1;
      ShortLinesComeWhole(lines, asks[..n], pages[..n]);
      PageOfShortLines(lines, asks[n], pages[n]);
      var p := pages[n];
      assert lines[..p.start] + lines[p.start..p.next] == lines[..p.next];
    }
  }

  lemma OnePageMore(lines: seq<string>, asks: seq<Ask>, pages: seq<Page>, ask: Ask, p: Page)
    requires Follow(lines, asks, pages) && IsPage(lines, ask, p) && p.start == Reached(pages)
    requires pages != [] ==> pages[|pages| - 1].suggested.Some?
    ensures Follow(lines, asks + [ask], pages + [p])
  {
    assert (asks + [ask])[..|asks|] == asks && (pages + [p])[..|pages|] == pages;
  }

  /** A reader who follows the notices gets to the end. */
  method ReadAll(lines: seq<string>, ask: Ask) returns (pages: seq<Page>, ghost asks: seq<Ask>)
    ensures Follow(lines, asks, pages) && pages != []
    ensures pages[|pages| - 1].suggested.None?
  {
    hide IsPage;
    hide Follow;
    var page := FormatLineWindow(lines, 0, ask);
    NoPagesYet(lines);
    OnePageMore(lines, [], [], ask, page);
    assert [] + [page] == [page] && [] + [ask] == [ask];
    pages, asks := [page], [ask];
    PageShowsItsLines(lines, ask, page);
    var now := ask;
    while page.suggested.Some?
      invariant pages != [] && page == pages[|pages| - 1]
      invariant Follow(lines, asks, pages)
      invariant page.next <= |lines| && (page.suggested.Some? <==> page.next < |lines|)
      decreases |lines| - page.next
    {
      now := now.(limit := Some(page.suggested.value));
      page := FormatLineWindow(lines, page.next, now);
      OnePageMore(lines, asks, pages, now, page);
      PageShowsItsLines(lines, now, page);
      pages, asks := pages + [page], asks + [now];
    }
  }

  lemma NoPagesYet(lines: seq<string>)
    ensures Follow(lines, [], [])
  {
  }
}
