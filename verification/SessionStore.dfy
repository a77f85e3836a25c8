/** Saving sessions row by row.  Only the rows from the first difference on are written, which
    comes to the same as rewriting the whole session. */
module SessionStore {
  import opened Options
  import opened PyText

  /** A message as stored: its JSON text. */
  type Row = string

  /** The rows of one session by sequence number. */
  type Rows = map<nat, Row>

  /** The columns of a session other than its messages. */
  datatype Info = Info(mode: string, createdAt: string, metadata: string)

  datatype Loaded = Loaded(info: Info, messages: seq<Row>)

  class Session {
    const id: string
    var messages: seq<Row>
    var info: Info

    constructor (id: string, messages: seq<Row>, info: Info)
      ensures this.id == id && this.messages == messages && this.info == info
    {
      this.id, this.messages, this.info := id, messages, info;
    }
  }

  // ----- the rows of a session -----

  /** The rows of a session written from scratch. */
  function RowsOf(messages: seq<Row>): Rows {
    map i: nat | i < |messages| :: messages[i]
  }

  /** The rows before `n`. */
  function Below(rows: Rows, n: nat): Rows {
    map k: nat | k in rows && k < n :: rows[k]
  }

  /** The rows from number `from` on, before row `to`. */
  function Between(messages: seq<Row>, from: nat, to: nat): Rows
    requires to <= |messages|
  {
    map k: nat | from <= k < to :: messages[k]
  }

  function Insert(rows: Rows, k: nat, row: Row): Rows
    requires k !in rows
  {
    rows[k := row]
  }

  ghost predicate IsLeast(keys: set<nat>, m: int) {
    m in keys && forall k :: k in keys ==> m <= k
  }

  lemma LeastExists(keys: set<nat>)
    requires keys != {}
    ensures exists m :: IsLeast(keys, m)
  {
    var m :| m in keys;
    var others := keys - {m};
    assert keys == others + {m};
    if others == {} {
      assert IsLeast(keys, m);
    } else {
      LeastExists(others);
      var l: nat :| IsLeast(others, l);
      assert IsLeast(keys, Min(l, m));
    }
  }

  function Least(keys: set<nat>): (m: nat)
    requires keys != {}
    ensures IsLeast(keys, m)
  {
    LeastExists(keys);
    var m: nat :| m in keys && forall k :: k in keys ==> m <= k;
    m
  }

  /** `SELECT message_json ... ORDER BY seq`. */
  function InOrder(rows: Rows): seq<Row>
    decreases |rows.Keys|
  {
    if rows.Keys == {} then []
    else
      var k := Least(rows.Keys);
      [rows[k]] + InOrder(rows - {k})
  }

  /** The numbers before `k`. */
  function Before(keys: set<nat>, k: nat): set<nat> {
    set j: nat | j in keys && j < k
  }

  /** Rows are read by rising number, whatever numbers there are: as many come before a row as have a
      smaller number. */
  lemma {:induction false} ReadByNumber(rows: Rows, k: nat)
    requires k in rows
    ensures |InOrder(rows)| == |rows.Keys|
    ensures var rank := |Before(rows.Keys, k)|; rank < |InOrder(rows)| && InOrder(rows)[rank] == rows[k]
    decreases |rows.Keys|
  {
    hide Before;
    var m := Least(rows.Keys);
    var rest := rows - {m};
    OneFewer(rows.Keys, m, k);
    assert rest.Keys == rows.Keys - {m};
    if k != m {
      ReadByNumber(rest, k);
    } else if rest.Keys != {} {
      ReadByNumber(rest, Least(rest.Keys));
    }
  }

  lemma OneFewer(keys: set<nat>, m: nat, k: nat)
    requires IsLeast(keys, m) && k in keys
    ensures |Before(keys, k)| == if k == m then 0 else 1 + |Before(keys - {m}, k)|
  {
    assert Before(keys, k) == if k == m then {} else Before(keys - {m}, k) + {m};
  }

  lemma {:induction false} TailInOrder(messages: seq<Row>, rows: Rows, from: nat)
    requires from <= |messages|
    requires rows == map i: nat | from <= i < |messages| :: messages[i]
    ensures InOrder(rows) == messages[from..]
    decreases |messages| - from
  {
    if from < |messages| {
      assert from in rows.Keys;
      assert Least(rows.Keys) == from;
      TailInOrder(messages, rows - {from}, from + 1);
    } else {
      assert rows.Keys == {};
    }
  }

  /** Reading back what was written. */
  lemma LoadInvertsSave(messages: seq<Row>)
    ensures InOrder(RowsOf(messages)) == messages
  {
    TailInOrder(messages, RowsOf(messages), 0);
  }

  ghost predicate SameUpTo(rows: Rows, messages: seq<Row>, n: nat)
    requires n <= |messages|
  {
    forall i: nat | i < n :: i in rows && rows[i] == messages[i]
  }

  /** How many messages from the start are stored as they are. */
  function CommonPrefix(rows: Rows, messages: seq<Row>): (n: nat)
    ensures n <= |messages| && SameUpTo(rows, messages, n)
    ensures n < |messages| ==> !SameUpTo(rows, messages, n + 1)
  {
    CommonPrefixFrom(rows, messages, 0)
  }

  function CommonPrefixFrom(rows: Rows, messages: seq<Row>, from: nat): (n: nat)
    requires from <= |messages| && SameUpTo(rows, messages, from)
    ensures from <= n <= |messages| && SameUpTo(rows, messages, n)
    ensures n < |messages| ==> !SameUpTo(rows, messages, n + 1)
    decreases |messages| - from
  {
    if from < |messages| && from in rows && rows[from] == messages[from]
    then CommonPrefixFrom(rows, messages, from + 1)
    else from
  }

  lemma CommonPrefixIs(rows: Rows, messages: seq<Row>, n: nat)
    requires n <= |messages| && SameUpTo(rows, messages, n)
    requires n < |messages| ==> !(n in rows && rows[n] == messages[n])
    ensures CommonPrefix(rows, messages) == n
  {
    assert n < |messages| ==> !SameUpTo(rows, messages, n + 1);
  }

  /** `first_changed`: the first row that differs, or the end when rows are left over beyond it. */
  method FirstChanged(rows: Rows, messages: seq<Row>) returns (first: Option<nat>)
    ensures first.None? <==> rows == RowsOf(messages)
    ensures first.Some? ==> first.value == CommonPrefix(rows, messages)
  {
    for seq_ := 0 to |messages|
      invariant SameUpTo(rows, messages, seq_)
    {
      if !(seq_ in rows && rows[seq_] == messages[seq_]) {
        CommonPrefixIs(rows, messages, seq_);
        return Some(seq_);
      }
    }
    if exists k :: k in rows.Keys && k >= |messages| {
      CommonPrefixIs(rows, messages, |messages|);
      return Some(|messages|);
    }
    first := None;
  }

  class Store {
    /** The tables `sessions` and `messages`. */
    var sessions: map<string, Info>
    var messages: map<string, Rows>
    var lastMessageInsertCount: nat

    constructor ()
      ensures sessions == map[] && messages == map[] && lastMessageInsertCount == 0
    {
      sessions, messages, lastMessageInsertCount := map[], map[], 0;
    }

    function RowsFor(id: string): Rows
      reads this
    {
      if id in messages then messages[id] else map[]
    }

    /** What loading a session gives; a session never saved has no messages. */
    function Stored(id: string): seq<Row>
      reads this
    {
      if id in sessions then InOrder(RowsFor(id)) else []
    }

    /** The store has these messages for a session, and these columns if it knows the session. */
    predicate Holds(id: string, l: Loaded)
      reads this
    {
      Stored(id) == l.messages && (id in sessions ==> sessions[id] == l.info)
    }

    method LoadSession(id: string) returns (r: Option<Loaded>)
      ensures r.None? <==> id !in sessions
      ensures r.None? ==> Stored(id) == []
      ensures r.Some? ==> r.value == Loaded(sessions[id], Stored(id))
      ensures r.Some? ==> r.value.messages == InOrder(RowsFor(id))
    {
      if id !in sessions { return None; }
      r := Some(Loaded(sessions[id], InOrder(RowsFor(id))));
    }

    /** The rows `from` and later of one session go. */
    method DeleteFrom(id: string, from: nat)
      modifies this`messages
      ensures messages == old(messages)[id := Below(old(RowsFor(id)), from)]
    {
      messages := messages[id := Below(RowsFor(id), from)];
    }

    /** Inserts the rows from number `from` on; each key has to be new. */
    method InsertMany(id: string, texts: seq<Row>, from: nat)
      requires from <= |texts|
      requires forall k :: k in RowsFor(id) ==> k < from
      modifies this`messages
      ensures id in messages && RowsFor(id) == old(RowsFor(id)) + Between(texts, from, |texts|)
      ensures messages - {id} == old(messages) - {id}
    {
      if id !in messages { messages := messages[id := map[]]; }
      for k := from to |texts|
        invariant id in messages && messages[id] == old(RowsFor(id)) + Between(texts, from, k)
        invariant messages - {id} == old(messages) - {id}
      {
        OneMoreRow(old(RowsFor(id)), texts, from, k);
        messages := messages[id := Insert(messages[id], k, texts[k])];
      }
    }

    /** Brings the message rows of one session up to date. */
    method SaveMessages(id: string, texts: seq<Row>)
      modifies this`messages, this`lastMessageInsertCount
      ensures RowsFor(id) == RowsOf(texts)
      ensures messages - {id} == old(messages) - {id}
      ensures lastMessageInsertCount == |texts| - CommonPrefix(old(RowsFor(id)), texts)
    {
      hide RowsOf;
      hide Below;
      hide Between;
      hide CommonPrefix;
      ghost var was := RowsFor(id);
      var first := FirstChanged(RowsFor(id), texts);
      if first.Some? {
        var from := first.value;
        DeleteFrom(id, from);
        BelowIsBelow(was, from);
        InsertMany(id, texts, from);
        RewrittenTail(was, texts, from);
        lastMessageInsertCount := |texts[from..]|;
      } else {
        NothingChanged(texts);
        lastMessageInsertCount := 0;
      }
    }

    lemma OthersKept(before: map<string, Rows>, after: map<string, Rows>, id: string, other: string)
      requires before - {id} == after - {id} && other != id
      ensures other in before <==> other in after
      ensures other in before ==> before[other] == after[other]
    {
      assert other in before <==> other in before - {id};
      assert other in after <==> other in after - {id};
    }

    /** Whatever rows were there, afterwards they are those of a full rewrite.  The number of
        rows inserted is what lies beyond the common prefix. */
    method SaveSession(session: Session)
      modifies this
      ensures RowsFor(session.id) == RowsOf(session.messages)
      ensures Stored(session.id) == session.messages
      ensures forall other :: other != session.id ==> RowsFor(other) == old(RowsFor(other))
      ensures forall other :: other != session.id ==> Stored(other) == old(Stored(other))
      ensures sessions == old(sessions)[session.id := session.info.(createdAt :=
        if session.id in old(sessions) then old(sessions)[session.id].createdAt else session.info.createdAt)]
      ensures forall other, l :: other != session.id && old(Holds(other, l)) ==> Holds(other, l)
      ensures Holds(session.id, Loaded(sessions[session.id], session.messages))
      ensures lastMessageInsertCount ==
        |session.messages| - CommonPrefix(old(RowsFor(session.id)), session.messages)
    {
      hide InOrder;
      hide RowsOf;
      hide CommonPrefix;
      var id, info := session.id, session.info;
      if id in sessions { info := info.(createdAt := sessions[id].createdAt); }
      sessions := sessions[id := info];
      SaveMessages(id, session.messages);
      LoadInvertsSave(session.messages);
      forall other | other != id ensures RowsFor(other) == old(RowsFor(other)) {
        OthersKept(old(messages), messages, id, other);
      }
      assert forall other, l :: other != id && old(Holds(other, l)) ==> Holds(other, l);
    }

    method DeleteSession(id: string) returns (existed: bool)
      modifies this`sessions, this`messages
      ensures existed <==> id in old(sessions)
      ensures sessions == old(sessions) - {id}
      ensures RowsFor(id) == map[] && Stored(id) == []
      ensures forall other :: other != id ==> RowsFor(other) == old(RowsFor(other))
      ensures forall other :: other != id ==> Stored(other) == old(Stored(other))
    {
      messages := messages - {id};
      existed := id in sessions;
      sessions := sessions - {id};
    }
  }

  lemma OneMoreRow(before: Rows, texts: seq<Row>, from: nat, k: nat)
    requires from <= k < |texts| && forall j :: j in before ==> j < from
    ensures k !in before + Between(texts, from, k)
    ensures Insert(before + Between(texts, from, k), k, texts[k]) == before + Between(texts, from, k + 1)
  {
  }

  lemma BelowIsBelow(rows: Rows, n: nat)
    ensures forall k :: k in Below(rows, n) ==> k < n
  {
  }

  lemma NothingChanged(texts: seq<Row>)
    ensures CommonPrefix(RowsOf(texts), texts) == |texts|
  {
    CommonPrefixIs(RowsOf(texts), texts, |texts|);
  }

  lemma RewrittenTail(was: Rows, texts: seq<Row>, from: nat)
    requires from <= |texts| && SameUpTo(was, texts, from)
    ensures Below(was, from) + Between(texts, from, |texts|) == RowsOf(texts)
  {
  }
}
