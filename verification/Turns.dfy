/** Splitting a transcript into turns: every user message opens a new one. */
module Turns {
  import opened Messages

  /** Length of the turn that `ms` starts with: up to the next user message. */
  function TurnLength(ms: seq<Message>): (n: nat)
    requires ms != []
    ensures 0 < n <= |ms|
    ensures n < |ms| ==> ms[n].role.User?
  {
    if |ms| == 1 || ms[1].role.User? then 1 else 1 + TurnLength(ms[1..])
  }

  function GroupTurns(ms: seq<Message>): seq<seq<Message>>
    decreases |ms|
  {
    if ms == [] then []
    else
      var n := TurnLength(ms);
      [ms[..n]] + GroupTurns(ms[n..])
  }

  function Flatten(groups: seq<seq<Message>>): seq<Message> {
    if groups == [] then [] else groups[0] + Flatten(groups[1..])
  }

  ghost predicate UserFree(ms: seq<Message>, lo: nat, hi: nat) {
    lo <= hi <= |ms| && forall k | lo <= k < hi :: !ms[k].role.User?
  }

  lemma {:induction false} TurnLengthIs(ms: seq<Message>, n: nat)
    requires 0 < n && UserFree(ms, 1, n)
    requires n < |ms| ==> ms[n].role.User?
    ensures TurnLength(ms) == n
    decreases n
  {
    if n > 1 {
      assert UserFree(ms[1..], 1, n - 1);
      TurnLengthIs(ms[1..], n - 1);
    }
  }

  lemma TurnBetween(ms: seq<Message>, start: nat, end: nat)
    requires start < end && UserFree(ms, start + 1, end)
    requires end < |ms| ==> ms[end].role.User?
    ensures GroupTurns(ms[start..]) == [ms[start..end]] + GroupTurns(ms[end..])
  {
    var rest, n := ms[start..], end - start;
    assert UserFree(rest, 1, n);
    TurnLengthIs(rest, n);
    assert rest[..n] == ms[start..end];
    assert rest[n..] == ms[end..];
  }

  method GroupMessages(messages: seq<Message>) returns (groups: seq<seq<Message>>)
    ensures groups == GroupTurns(messages)
  {
    hide GroupTurns;
    groups := [];
    var current: seq<Message> := [];
    ghost var start := 0;
    var i := 0;
    assert messages[0..] == messages;
    while i < |messages|
      invariant start <= i <= |messages|
      invariant current == messages[start..i] && (current == [] ==> i == 0)
      invariant start < i ==> UserFree(messages, start + 1, i)
      invariant GroupTurns(messages) == groups + GroupTurns(messages[start..])
    {
      var message := messages[i];
      if message.role.User? && current != [] {
        TurnBetween(messages, start, i);
        groups := groups + [current];
        current := [];
        start := i;
      }
      current := current + [message];
      i := i + 1;
    }
    if current != [] {
      TurnBetween(messages, start, i);
      groups := groups + [current];
      start := i;
    }
    NoTurns();
    assert messages[start..] == [];
  }

  lemma NoTurns()
    ensures GroupTurns([]) == []
  {
  }

  // ----- what grouping keeps -----

  lemma {:induction false} FlattenTurns(ms: seq<Message>)
    ensures Flatten(GroupTurns(ms)) == ms
    decreases |ms|
  {
    if ms != [] {
      var n := TurnLength(ms);
      FlattenTurns(ms[n..]);
      assert ms[..n] + ms[n..] == ms;
    }
  }

  lemma {:induction false} FlattenConcat(a: seq<seq<Message>>, b: seq<seq<Message>>)
    ensures Flatten(a + b) == Flatten(a) + Flatten(b)
  {
    if a == [] {
      assert a + b == b;
    } else {
      FlattenConcat(a[1..], b);
      assert (a + b)[1..] == a[1..] + b;
      assert a[0] + (Flatten(a[1..]) + Flatten(b)) == Flatten(a) + Flatten(b);
    }
  }

  lemma {:induction false} TurnsAreNonempty(ms: seq<Message>)
    ensures forall i | 0 <= i < |GroupTurns(ms)| :: GroupTurns(ms)[i] != []
    decreases |ms|
  {
    if ms != [] { TurnsAreNonempty(ms[TurnLength(ms)..]); }
  }

  predicate AllLegal(groups: seq<seq<Message>>) {
    forall i | 0 <= i < |groups| :: Legal(groups[i])
  }

  /** Turns never tear a tool-call group apart. */
  lemma {:induction false} TurnsAreLegal(ms: seq<Message>)
    requires Legal(ms)
    ensures AllLegal(GroupTurns(ms))
    decreases |ms|
  {
    hide Block;
    if ms != [] {
      var n := TurnLength(ms);
      LegalSplit(ms, n);
      TurnsAreLegal(ms[n..]);
    }
  }

  /** Any selection of legal turns is a legal transcript. */
  lemma {:induction false} FlattenLegal(groups: seq<seq<Message>>)
    requires AllLegal(groups)
    ensures Legal(Flatten(groups))
  {
    hide Legal;
    if groups == [] {
      EmptyIsLegal();
    } else {
      FlattenLegal(groups[1..]);
      LegalConcat(groups[0], Flatten(groups[1..]));
    }
  }

  lemma EmptyIsLegal()
    ensures Legal([])
  {
  }
}
