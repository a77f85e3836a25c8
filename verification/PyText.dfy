/** The Python operations on numbers and strings the runtime relies on. */
module PyText {

  function Max(a: int, b: int): int { if a < b then b else a }

  function Min(a: int, b: int): int { if a < b then a else b }

  lemma LargerAndSmaller(a: int, b: int)
    ensures Max(a, b) >= a && Max(a, b) >= b && Max(a, b) in {a, b}
    ensures Min(a, b) <= a && Min(a, b) <= b && Min(a, b) in {a, b}
  {
  }

  lemma SliceOfSlice<T>(s: seq<T>, lo: nat, hi: nat, a: nat, b: nat)
    requires lo <= hi <= |s| && a <= b <= hi - lo
    ensures s[lo..hi][a..b] == s[lo + a..lo + b]
  {
    forall k | 0 <= k < b - a ensures s[lo..hi][a..b][k] == s[lo + a..lo + b][k] {
      assert s[lo..hi][a..b][k] == s[lo..hi][a + k] == s[lo + a + k];
    }
  }

  /** `str.isspace` for one character. */
  predicate IsSpace(c: char) {
    var n := c as int;
    || 0x09 <= n <= 0x0d || 0x1c <= n <= 0x20 || n == 0x85 || n == 0xa0
    || n == 0x1680 || 0x2000 <= n <= 0x200a || n == 0x2028 || n == 0x2029
    || n == 0x202f || n == 0x205f || n == 0x3000
  }

  /** The characters for which `str.isspace` holds. */
  lemma Blanks(c: char)
    ensures IsSpace(c) <==> c as int in {
      0x09, 0x0a, 0x0b, 0x0c, 0x0d, 0x1c, 0x1d, 0x1e, 0x1f, 0x20, 0x85, 0xa0, 0x1680,
      0x2000, 0x2001, 0x2002, 0x2003, 0x2004, 0x2005, 0x2006, 0x2007, 0x2008, 0x2009, 0x200a,
      0x2028, 0x2029, 0x202f, 0x205f, 0x3000}
  {
  }

  predicate AllSpace(s: string) {
    forall i | 0 <= i < |s| :: IsSpace(s[i])
  }

  function RStrip(s: string): (r: string)
    ensures r <= s
    ensures r != [] ==> !IsSpace(r[|r| - 1])
    ensures AllSpace(s[|r|..])
  {
    if s == [] then []
    else if IsSpace(s[|s| - 1]) then
      var r := RStrip(s[..|s| - 1]);
      assert forall i | |r| <= i < |s| - 1 :: s[i] == s[..|s| - 1][|r|..][i - |r|];
      r
    else s
  }

  function LStrip(s: string): (r: string)
    ensures |r| <= |s| && r == s[|s| - |r|..]
    ensures r != [] ==> !IsSpace(r[0])
    ensures AllSpace(s[..|s| - |r|])
  {
    if s == [] then []
    else if IsSpace(s[0]) then
      var r := LStrip(s[1..]);
      assert forall i | 1 <= i < |s| - |r| :: s[i] == s[1..][..|s| - 1 - |r|][i - 1];
      r
    else s
  }

  function Strip(s: string): string {
    RStrip(LStrip(s))
  }

  /** Only blanks at the two ends are taken off, and all of them. */
  lemma StripTrims(s: string) returns (lo: nat, hi: nat)
    ensures lo <= hi <= |s| && Strip(s) == s[lo..hi]
    ensures AllSpace(s[..lo]) && AllSpace(s[hi..])
    ensures lo < hi ==> !IsSpace(s[lo]) && !IsSpace(s[hi - 1])
  {
    hide LStrip;
    hide RStrip;
    hide AllSpace;
    hide IsSpace;
    var left, r := LStrip(s), Strip(s);
    lo := |s| - |left|;
    hi := lo + |r|;
    assert left[..|r|] == s[lo..hi] && left[|r|..] == s[hi..];
    if lo < hi { assert r[0] == left[0] == s[lo] && r[|r| - 1] == s[hi - 1]; }
  }

  lemma StripIsBlank(s: string)
    ensures Strip(s) == "" <==> AllSpace(s)
  {
    var lo, hi := StripTrims(s);
    if lo == hi { assert s == s[..lo] + s[hi..]; }
  }

  /** Blanks are taken off only behind the last character that is none. */
  lemma RStripKeeps(s: string, k: nat)
    requires 0 < k <= |s| && !IsSpace(s[k - 1])
    ensures |RStrip(s)| >= k && RStrip(s)[..k] == s[..k]
  {
    var r := RStrip(s);
    forall i | |r| <= i < |s| ensures IsSpace(s[i]) { assert s[|r|..][i - |r|] == s[i]; }
  }

  function Prefix(s: string, n: nat): string {
    if n < |s| then s[..n] else s
  }

  lemma PrefixIs(s: string, n: nat)
    ensures Prefix(s, n) <= s && |Prefix(s, n)| == Min(n, |s|)
  {
  }

  function Join(parts: seq<string>, sep: string): string {
    if parts == [] then ""
    else if |parts| == 1 then parts[0]
    else parts[0] + sep + Join(parts[1..], sep)
  }

  /** The parts in order, with the separator between each two. */
  lemma {:induction false} JoinAppends(parts: seq<string>, sep: string, last: string)
    ensures Join([], sep) == "" && Join([last], sep) == last
    ensures parts != [] ==> Join(parts + [last], sep) == Join(parts, sep) + sep + last
  {
    if parts != [] {
      assert (parts + [last])[1..] == parts[1..] + [last];
      if |parts| > 1 { JoinAppends(parts[1..], sep, last); }
    }
  }

  function OneLine(s: string): string {
    seq(|s|, i requires 0 <= i < |s| => if s[i] == '\n' then ' ' else s[i])
  }

  function Decimal(n: nat): string {
    if n < 10 then ["0123456789"[n]] else Decimal(n / 10) + ["0123456789"[n % 10]]
  }

  /** Reads a numeral back. */
  function NumeralValue(s: string): int {
    if s == "" then 0 else 10 * NumeralValue(s[..|s| - 1]) + (s[|s| - 1] as int - '0' as int)
  }

  /** A number is written in decimal digits, without a zero in front. */
  lemma {:induction false} DecimalIsNumeral(n: nat)
    ensures NumeralValue(Decimal(n)) == n && Decimal(n) != ""
    ensures forall i | 0 <= i < |Decimal(n)| :: '0' <= Decimal(n)[i] <= '9'
    ensures n > 0 ==> Decimal(n)[0] != '0'
  {
    if n >= 10 { DecimalIsNumeral(n / 10); }
  }

  /** `text[:limit-3].rstrip() + "..."` when the text is longer than `limit`. */
  function Clip(s: string, limit: nat): (r: string)
    requires limit >= 3
    ensures |r| <= limit
  {
    if |s| > limit then RStrip(s[..limit - 3]) + "..." else s
  }

  /** `r` is the first `n` characters of `s` without trailing blanks, and then `note`. */
  ghost predicate IsCut(s: string, n: int, note: string, r: string) {
    && 0 <= n <= |s|
    && exists k: nat ::
         && k <= n && r == s[..k] + note && AllSpace(s[k..n])
         && (k > 0 ==> !IsSpace(s[k - 1]))
  }

  lemma RStripIsCut(s: string, n: nat, note: string)
    requires n <= |s|
    ensures IsCut(s, n, note, RStrip(s[..n]) + note)
  {
    var k := |RStrip(s[..n])|;
    assert s[..n][k..] == s[k..n] && s[..n][..k] == s[..k];
  }

  lemma ClipIsCut(s: string, limit: nat)
    requires limit >= 3
    ensures |s| <= limit ==> Clip(s, limit) == s
    ensures |s| > limit ==> IsCut(s, limit - 3, "...", Clip(s, limit))
  {
    if |s| > limit { RStripIsCut(s, limit - 3, "..."); }
  }

  /** `part` stands somewhere in `whole`. */
  ghost predicate Says(whole: string, part: string) {
    exists before, after :: whole == before + part + after
  }

  lemma SaysPart(whole: string, lead: string, part: string)
    requires Says(whole, lead + part)
    ensures Says(whole, part)
  {
    var before, after :| whole == before + (lead + part) + after;
    assert whole == (before + lead) + part + after;
  }

  lemma SaysWithin(whole: string, lead: string, text: string, tail: string, part: string)
    requires whole == lead + text + tail && Says(text, part)
    ensures Says(whole, part)
  {
    var before, after :| text == before + part + after;
    assert whole == (lead + before) + part + (after + tail);
  }

  /** Whether `pat` occurs in `s` at position `i`. */
  predicate OccursAt(pat: string, s: string, i: int) {
    0 <= i && i + |pat| <= |s| && s[i..i + |pat|] == pat
  }

  /** `s.find(pat, lo, hi)`: the first occurrence inside `s[lo..hi]`, or -1. */
  function Find(pat: string, s: string, lo: nat, hi: nat): (r: int)
    requires hi <= |s|
    ensures r == -1 || (lo <= r && r + |pat| <= hi && OccursAt(pat, s, r))
    ensures forall i | lo <= i && i + |pat| <= hi && OccursAt(pat, s, i) :: r != -1 && r <= i
    decreases hi - lo
  {
    if lo + |pat| > hi then -1
    else if OccursAt(pat, s, lo) then lo
    else if lo == hi then -1
    else Find(pat, s, lo + 1, hi)
  }

  /** `s.rfind(pat, lo, hi)`: the last occurrence inside `s[lo..hi]`, or -1. */
  function RFind(pat: string, s: string, lo: nat, hi: nat): (r: int)
    requires hi <= |s|
    ensures r == -1 || (lo <= r && r + |pat| <= hi && OccursAt(pat, s, r))
    ensures forall i | lo <= i && i + |pat| <= hi && OccursAt(pat, s, i) :: i <= r
    decreases hi - lo
  {
    if lo + |pat| > hi then -1
    else if OccursAt(pat, s, hi - |pat|) then hi - |pat|
    else if lo == hi then -1
    else RFind(pat, s, lo, hi - 1)
  }

  /** `s.count(pat)`: occurrences that do not overlap, taken from the left. */
  function Count(s: string, pat: string): (n: nat)
    requires pat != ""
    ensures n > 0 <==> exists i :: OccursAt(pat, s, i)
    decreases |s|
  {
    if |s| < |pat| then 0
    else if s[..|pat|] == pat then
      assert OccursAt(pat, s, 0);
      1 + Count(s[|pat|..], pat)
    else
      assert forall i | OccursAt(pat, s, i) :: i > 0 && OccursAt(pat, s[1..], i - 1) by {
        forall i | OccursAt(pat, s, i) ensures i > 0 && OccursAt(pat, s[1..], i - 1) {
          assert i > 0;
          assert s[1..][i - 1..i - 1 + |pat|] == s[i..i + |pat|];
        }
      }
      assert forall i | OccursAt(pat, s[1..], i) :: OccursAt(pat, s, i + 1) by {
        forall i | OccursAt(pat, s[1..], i) ensures OccursAt(pat, s, i + 1) {
          assert s[1..][i..i + |pat|] == s[i + 1..i + 1 + |pat|];
        }
      }
      Count(s[1..], pat)
  }

  lemma OccursLater(s: string, pat: string, j: nat)
    requires s != ""
    ensures OccursAt(pat, s[1..], j) <==> OccursAt(pat, s, j + 1)
  {
    if j + 1 + |pat| <= |s| { assert s[1..][j..j + |pat|] == s[j + 1..j + 1 + |pat|]; }
  }

  /** Counting goes on behind the first occurrence. */
  lemma {:induction false} CountFromFirst(s: string, pat: string, i: nat)
    requires pat != "" && OccursAt(pat, s, i)
    requires forall j | 0 <= j < i :: !OccursAt(pat, s, j)
    ensures Count(s, pat) == 1 + Count(s[i + |pat|..], pat)
    decreases i
  {
    if i > 0 {
      assert !OccursAt(pat, s, 0);
      var rest, k := s[1..], i - 1;
      assert rest[k..k + |pat|] == s[i..i + |pat|];
      forall j | 0 <= j < k ensures !OccursAt(pat, rest, j) { OccursLater(s, pat, j); }
      CountFromFirst(rest, pat, k);
      assert rest[k + |pat|..] == s[i + |pat|..];
    }
  }
}
