/** Sequences of ids ordered by last use, as an ordered dictionary keeps them. */
module Recency {
  import opened Lists

  /** What a caller did with a session id. */
  datatype Use = Used(id: string) | Dropped(id: string)

  function Without(s: seq<string>, x: string): (r: seq<string>)
    ensures |r| <= |s|
  {
    if s == [] then []
    else
      var rest := Without(s[..|s| - 1], x);
      if s[|s| - 1] == x then rest else rest + [s[|s| - 1]]
  }

  /** `move_to_end`, adding the key when it is new. */
  function Touch(s: seq<string>, x: string): seq<string> {
    Without(s, x) + [x]
  }

  /** The order an unbounded cache would have. */
  function Recent(log: seq<Use>): seq<string> {
    if log == [] then []
    else
      var before := Recent(log[..|log| - 1]);
      match log[|log| - 1]
      case Used(id) => Touch(before, id)
      case Dropped(id) => Without(before, id)
  }

  /** When `x` was last used; `-1` when never, or dropped since. */
  function LastUse(log: seq<Use>, x: string): int {
    if log == [] then -1
    else
      var last := log[|log| - 1];
      if last == Used(x) then |log| - 1
      else if last == Dropped(x) then -1
      else LastUse(log[..|log| - 1], x)
  }

  /** The position of its last use, if it was not dropped after that. */
  lemma {:induction false} LastUseIs(log: seq<Use>, x: string, i: nat)
    requires i < |log| && log[i] == Used(x)
    requires forall j | i < j < |log| :: log[j] != Used(x) && log[j] != Dropped(x)
    ensures LastUse(log, x) == i
  {
    if i < |log| - 1 { LastUseIs(log[..|log| - 1], x, i); }
  }

  lemma {:induction false} NotInUse(log: seq<Use>, x: string, from: nat)
    requires from <= |log| && (from > 0 ==> log[from - 1] == Dropped(x))
    requires forall j | from <= j < |log| :: log[j] != Used(x)
    ensures LastUse(log, x) == -1
    decreases |log|
  {
    if from < |log| { NotInUse(log[..|log| - 1], x, from); }
  }

  lemma {:induction false} LastUseIsPast(log: seq<Use>, x: string)
    ensures LastUse(log, x) < |log|
  {
    if log != [] { LastUseIsPast(log[..|log| - 1], x); }
  }

  ghost predicate ByLastUse(log: seq<Use>, s: seq<string>) {
    || s == []
    || (&& ByLastUse(log, s[..|s| - 1])
        && forall y :: y in Elements(s[..|s| - 1]) ==> LastUse(log, y) < LastUse(log, s[|s| - 1]))
  }

  lemma {:induction false} WithoutElements(s: seq<string>, x: string)
    ensures Elements(Without(s, x)) == Elements(s) - {x}
  {
    if s != [] {
      WithoutElements(s[..|s| - 1], x);
      Snoc(Without(s[..|s| - 1], x), s[|s| - 1]);
    }
  }

  lemma {:induction false} WithoutDistinct(s: seq<string>, x: string)
    requires Distinct(s)
    ensures Distinct(Without(s, x))
    ensures x in Elements(s) ==> |Without(s, x)| == |s| - 1
    ensures x !in Elements(s) ==> Without(s, x) == s
  {
    if s != [] {
      WithoutDistinct(s[..|s| - 1], x);
      WithoutElements(s[..|s| - 1], x);
      Snoc(Without(s[..|s| - 1], x), s[|s| - 1]);
    }
  }

  lemma TouchDistinct(s: seq<string>, x: string)
    requires Distinct(s)
    ensures Distinct(Touch(s, x)) && Elements(Touch(s, x)) == Elements(s) + {x}
    ensures |Touch(s, x)| == if x in Elements(s) then |s| else |s| + 1
  {
    WithoutDistinct(s, x);
    WithoutElements(s, x);
    Snoc(Without(s, x), x);
  }

  lemma {:induction false} WithoutByLastUse(log: seq<Use>, more: seq<Use>, s: seq<string>, x: string)
    requires ByLastUse(log, s)
    requires forall y :: y != x ==> LastUse(more, y) == LastUse(log, y)
    ensures ByLastUse(more, Without(s, x))
  {
    if s != [] {
      WithoutByLastUse(log, more, s[..|s| - 1], x);
      WithoutElements(s[..|s| - 1], x);
      Snoc(Without(s[..|s| - 1], x), s[|s| - 1]);
    }
  }

  /** The list kept by moving ids to the end holds exactly the ids in use, by time of last use. */
  lemma {:induction false} RecentIsByLastUse(log: seq<Use>)
    ensures ByLastUse(log, Recent(log)) && Distinct(Recent(log))
    ensures forall x :: x in Elements(Recent(log)) <==> LastUse(log, x) >= 0
  {
    if log != [] {
      var before, x := log[..|log| - 1], log[|log| - 1].id;
      var s := Recent(before);
      RecentIsByLastUse(before);
      WithoutDistinct(s, x);
      WithoutElements(s, x);
      WithoutByLastUse(before, log, s, x);
      if log[|log| - 1].Used? {
        TouchDistinct(s, x);
        Snoc(Without(s, x), x);
        forall y ensures y != x ==> LastUse(log, y) < LastUse(log, x) { LastUseIsPast(before, y); }
      }
    }
  }

  ghost predicate IsSuffix(t: seq<string>, s: seq<string>) {
    |t| <= |s| && s[|s| - |t|..] == t
  }

  lemma {:induction false} WithoutSuffix(t: seq<string>, s: seq<string>, x: string)
    requires IsSuffix(t, s)
    ensures IsSuffix(Without(t, x), Without(s, x))
  {
    if t != [] {
      assert s[..|s| - 1][|s| - |t|..] == t[..|t| - 1];
      assert t[|t| - 1] == s[|s| - 1];
      WithoutSuffix(t[..|t| - 1], s[..|s| - 1], x);
    }
  }

  lemma TouchSuffix(t: seq<string>, s: seq<string>, x: string)
    requires IsSuffix(t, s)
    ensures IsSuffix(Touch(t, x), Touch(s, x))
  {
    WithoutSuffix(t, s, x);
  }

  lemma {:induction false} SuffixIsLater(log: seq<Use>, s: seq<string>, t: seq<string>, x: string, y: string)
    requires ByLastUse(log, s) && IsSuffix(t, s)
    requires x in Elements(s) && x !in Elements(t) && y in Elements(t)
    ensures LastUse(log, x) < LastUse(log, y)
  {
    var s', t' := s[..|s| - 1], t[..|t| - 1];
    assert s'[|s| - |t|..] == t';
    assert t[|t| - 1] == s[|s| - 1];
    if y in Elements(t') { SuffixIsLater(log, s', t', x, y); }
  }

  /** What a suffix of the recency list leaves out was last used before anything it holds. */
  lemma OnlyOldestMissing(log: seq<Use>, kept: seq<string>, x: string, y: string)
    requires IsSuffix(kept, Recent(log))
    requires LastUse(log, x) >= 0 && x !in Elements(kept) && y in Elements(kept)
    ensures LastUse(log, x) < LastUse(log, y)
  {
    RecentIsByLastUse(log);
    SuffixIsLater(log, Recent(log), kept, x, y);
  }

  lemma {:induction false} FrontGone(s: seq<string>)
    requires s != [] && Distinct(s)
    ensures Distinct(s[1..]) && Elements(s[1..]) == Elements(s) - {s[0]}
    ensures s[0] in Elements(s)
  {
    if |s| > 1 {
      var n := |s| - 1;
      assert s[..n][1..] == s[1..][..n - 1];
      FrontGone(s[..n]);
    }
  }

  lemma LastStays(t: seq<string>, s: seq<string>)
    requires IsSuffix(t, s) && t != []
    ensures s[|s| - 1] in Elements(t)
  {
    assert t[|t| - 1] == s[|s| - 1];
  }

  lemma SuffixOfSuffix(a: seq<string>, b: seq<string>, c: seq<string>)
    requires IsSuffix(a, b) && IsSuffix(b, c)
    ensures IsSuffix(a, c)
  {
  }

  lemma FrontDropped(s: seq<string>)
    requires s != []
    ensures IsSuffix(s[1..], s)
  {
  }

  lemma NextUse(log: seq<Use>, use: Use)
    ensures Recent(log + [use]) ==
      if use.Used? then Touch(Recent(log), use.id) else Without(Recent(log), use.id)
  {
    assert (log + [use])[..|log + [use]| - 1] == log;
  }

  // ----- the ordered dictionary of a cache -----

  /** `order` lists the cached keys once each, and only ids last used earlier are missing. */
  ghost predicate Tracks(order: seq<string>, keys: set<string>, log: seq<Use>) {
    Distinct(order) && Elements(order) == keys && IsSuffix(order, Recent(log))
  }

  lemma TrackTouch(order: seq<string>, keys: set<string>, log: seq<Use>, x: string)
    requires Tracks(order, keys, log)
    ensures Tracks(Touch(order, x), keys + {x}, log + [Used(x)])
    ensures |Touch(order, x)| == if x in keys then |order| else |order| + 1
    ensures Touch(order, x)[|Touch(order, x)| - 1] == x
  {
    TouchDistinct(order, x);
    TouchSuffix(order, Recent(log), x);
    NextUse(log, Used(x));
  }

  lemma TrackDrop(order: seq<string>, keys: set<string>, log: seq<Use>, x: string)
    requires Tracks(order, keys, log)
    ensures Tracks(Without(order, x), keys - {x}, log + [Dropped(x)])
  {
    WithoutDistinct(order, x);
    WithoutElements(order, x);
    WithoutSuffix(order, Recent(log), x);
    NextUse(log, Dropped(x));
  }

  lemma TrackEvict(order: seq<string>, keys: set<string>, log: seq<Use>)
    requires Tracks(order, keys, log) && order != []
    ensures Tracks(order[1..], keys - {order[0]}, log)
    ensures |order| > 1 ==> order[|order| - 1] in keys - {order[0]}
  {
    FrontGone(order);
    FrontDropped(order);
    SuffixOfSuffix(order[1..], order, Recent(log));
    if |order| > 1 { LastStays(order[1..], order); }
  }

  /** The keys a cache has let go were last used before any it holds. */
  lemma TrackedAreNewest(order: seq<string>, keys: set<string>, log: seq<Use>, gone: string, kept: string)
    requires Tracks(order, keys, log)
    requires LastUse(log, gone) >= 0 && gone !in keys && kept in keys
    ensures LastUse(log, gone) < LastUse(log, kept)
  {
    OnlyOldestMissing(log, order, gone, kept);
  }

  lemma LastIsTracked(order: seq<string>, keys: set<string>, log: seq<Use>)
    requires Tracks(order, keys, log) && order != []
    ensures order[|order| - 1] in keys
  {
  }
}
