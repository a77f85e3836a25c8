/** Lists of names, grown at the end. */
module Lists {
  function Elements(s: seq<string>): set<string> {
    if s == [] then {} else Elements(s[..|s| - 1]) + {s[|s| - 1]}
  }

  ghost predicate Distinct(s: seq<string>) {
    s == [] || (Distinct(s[..|s| - 1]) && s[|s| - 1] !in Elements(s[..|s| - 1]))
  }

  lemma Snoc(s: seq<string>, x: string)
    ensures (s + [x])[..|s + [x]| - 1] == s && (s + [x])[|s + [x]| - 1] == x
  {
  }

  /** `x` at the end unless it is there already. */
  function AddNew(s: seq<string>, x: string): seq<string> {
    if x in Elements(s) then s else s + [x]
  }

  /** Every name once, where it first occurs. */
  function Dedup(s: seq<string>): seq<string> {
    if s == [] then [] else AddNew(Dedup(s[..|s| - 1]), s[|s| - 1])
  }

  lemma DedupSnoc(s: seq<string>, x: string)
    ensures Dedup(s + [x]) == AddNew(Dedup(s), x)
  {
    Snoc(s, x);
  }

  lemma {:induction false} InElements(s: seq<string>, x: string)
    ensures x in Elements(s) <==> x in s
  {
    if s != [] {
      InElements(s[..|s| - 1], x);
      assert s == s[..|s| - 1] + [s[|s| - 1]];
    }
  }

  lemma {:induction false} DistinctAt(s: seq<string>, i: nat, j: nat)
    requires Distinct(s) && i < j < |s|
    ensures s[i] != s[j]
  {
    var init := s[..|s| - 1];
    if j < |s| - 1 {
      DistinctAt(init, i, j);
    } else {
      InElements(init, s[i]);
      assert init[i] == s[i];
    }
  }

  /** How often `x` occurs. */
  function Times(s: seq<string>, x: string): nat {
    if s == [] then 0
    else Times(s[..|s| - 1], x) + if s[|s| - 1] == x then 1 else 0
  }

  lemma {:induction false} DistinctTimes(s: seq<string>, x: string)
    requires Distinct(s)
    ensures Times(s, x) == if x in Elements(s) then 1 else 0
  {
    if s != [] { DistinctTimes(s[..|s| - 1], x); }
  }

  /** Where `x` first occurs; `|s|` when it does not. */
  function FirstIndex(s: seq<string>, x: string): (n: nat)
    ensures n <= |s|
  {
    if s == [] then 0
    else
      var n := FirstIndex(s[..|s| - 1], x);
      if n < |s| - 1 then n else if s[|s| - 1] == x then |s| - 1 else |s|
  }

  lemma {:induction false} FirstIndexIsFirst(s: seq<string>, x: string)
    ensures FirstIndex(s, x) < |s| ==> s[FirstIndex(s, x)] == x
    ensures forall i :: 0 <= i < FirstIndex(s, x) ==> s[i] != x
    ensures FirstIndex(s, x) < |s| <==> x in Elements(s)
  {
    if s != [] {
      FirstIndexIsFirst(s[..|s| - 1], x);
    }
  }

  /** Listed by first occurrence in `all`. */
  ghost predicate ByFirstIndex(all: seq<string>, s: seq<string>) {
    || s == []
    || (&& ByFirstIndex(all, s[..|s| - 1])
        && FirstIndex(all, s[|s| - 1]) < |all|
        && forall y :: y in Elements(s[..|s| - 1]) ==> FirstIndex(all, y) < FirstIndex(all, s[|s| - 1]))
  }

  lemma {:induction false} ByFirstIndexGrows(all: seq<string>, x: string, s: seq<string>)
    requires ByFirstIndex(all, s)
    ensures ByFirstIndex(all + [x], s)
    ensures forall y :: y in Elements(s) ==> FirstIndex(all, y) < |all|
  {
    if s != [] {
      ByFirstIndexGrows(all, x, s[..|s| - 1]);
      Snoc(all, x);
    }
  }

  /** Deduplication keeps every name, each once, in the order of first mention. */
  lemma {:induction false} DedupIsExact(s: seq<string>)
    ensures Distinct(Dedup(s)) && Elements(Dedup(s)) == Elements(s)
    ensures ByFirstIndex(s, Dedup(s))
  {
    if s != [] {
      var init, x := s[..|s| - 1], s[|s| - 1];
      var d := Dedup(init);
      assert s == init + [x];
      DedupIsExact(init);
      ByFirstIndexGrows(init, x, d);
      if x !in Elements(d) {
        Snoc(d, x);
        FirstIndexIsFirst(init, x);
        Snoc(init, x);
      }
    }
  }

  lemma {:induction false} AbsentZero(s: seq<string>, x: string)
    ensures Times(s, x) > 0 <==> x in Elements(s)
  {
    if s != [] { AbsentZero(s[..|s| - 1], x); }
  }

  lemma {:induction false} TimesOfPrefix(s: seq<string>, n: nat, x: string)
    requires n <= |s|
    ensures Times(s[..n], x) <= Times(s, x)
  {
    if n < |s| {
      assert s[..|s| - 1][..n] == s[..n];
      TimesOfPrefix(s[..|s| - 1], n, x);
    } else {
      assert s[..n] == s;
    }
  }

  /** `m.get(key, other)`. */
  function Get<T>(m: map<string, T>, key: string, other: T): T {
    if key in m then m[key] else other
  }

  lemma GetIs<T>(m: map<string, T>, key: string, other: T)
    ensures key in m ==> Get(m, key, other) == m[key]
    ensures key !in m ==> Get(m, key, other) == other
  {
  }
}
