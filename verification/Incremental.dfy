/** Incremental ingestion: only changed files are chunked again, yet the index ends up as if it had
    been rebuilt from scratch, also when an earlier run crashed half way. */
module Incremental {
  import opened PyText

  type Path = string

  datatype Fingerprint = Fingerprint(mtime: int, size: nat)

  /** What the id of a chunk is the digest of. */
  datatype ChunkId = ChunkId(path: Path, start: nat, end: nat, head: string)

  datatype Entry = Entry(fingerprint: Fingerprint, chunkCount: nat)

  type Index = map<ChunkId, string>
  type State = map<Path, Entry>

  /** The files listed, their fingerprints, and what chunking gives.  Chunks depend on path and
      fingerprint: a fingerprint is never reused for other content. */
  datatype World = World(
    files: seq<Path>,
    fingerprint: Path -> Fingerprint,
    chunks: (Path, Fingerprint) -> seq<(ChunkId, string)>)

  /** Ids carry the path of their file. */
  ghost predicate Sound(w: World) {
    forall p, f, k :: 0 <= k < |w.chunks(p, f)| ==> w.chunks(p, f)[k].0.path == p
  }

  // ----- the index, file by file -----

  /** The chunks the index holds for one file. */
  function At(index: Index, p: Path): Index {
    map id | id in index && id.path == p :: index[id]
  }

  function DeleteFile(index: Index, p: Path): Index {
    map id | id in index && id.path != p :: index[id]
  }

  function Upsert(index: Index, chunks: seq<(ChunkId, string)>): Index
    decreases |chunks|
  {
    if chunks == [] then index else Upsert(index[chunks[0].0 := chunks[0].1], chunks[1..])
  }

  /** Afterwards the index holds each chunk written with the text written last, and the rest as before. */
  lemma {:induction false} UpsertIs(index: Index, chunks: seq<(ChunkId, string)>, id: ChunkId, k: nat)
    requires k <= |chunks| && forall j | k < j < |chunks| :: chunks[j].0 != id
    requires k < |chunks| ==> chunks[k].0 == id
    ensures k < |chunks| ==> id in Upsert(index, chunks) && Upsert(index, chunks)[id] == chunks[k].1
    ensures (forall j | 0 <= j < |chunks| :: chunks[j].0 != id) ==>
      (id in Upsert(index, chunks) <==> id in index) && (id in index ==> Upsert(index, chunks)[id] == index[id])
    decreases |chunks|
  {
    if chunks != [] {
      var next, rest := index[chunks[0].0 := chunks[0].1], chunks[1..];
      assert forall j | 0 <= j < |rest| :: rest[j] == chunks[j + 1];
      UpsertIs(next, rest, id, if k == 0 then |rest| else k - 1);
    }
  }

  /** What a fresh index holds for a file with these chunks. */
  function FileIndex(chunks: seq<(ChunkId, string)>): Index {
    Upsert(map[], chunks)
  }

  function CurrentChunks(w: World, p: Path): seq<(ChunkId, string)> {
    w.chunks(p, w.fingerprint(p))
  }

  /** A full rebuild. */
  function RebuiltAt(w: World, p: Path): Index {
    if p in w.files then FileIndex(CurrentChunks(w, p)) else map[]
  }

  ghost predicate IsRebuilt(index: Index, w: World) {
    forall p :: At(index, p) == RebuiltAt(w, p)
  }

  predicate Unchanged(state: State, w: World, p: Path) {
    p in state && state[p].fingerprint == w.fingerprint(p)
  }

  /** What one file's chunks are after `sync`, from any saved state and any index. */
  function SyncedAt(saved: State, index: Index, w: World, p: Path): Index {
    if p in w.files then (if Unchanged(saved, w, p) then At(index, p) else FileIndex(CurrentChunks(w, p)))
    else if p in saved then map[]
    else At(index, p)
  }

  // ----- what a sync leaves alone, and what it counts -----

  /** Nothing has happened to the file since the state was saved, or nothing is known of it. */
  predicate Quiet(saved: State, w: World, p: Path) {
    if p in w.files then Unchanged(saved, w, p) else p !in saved
  }

  /** None of the writes touches the chunks of a quiet file. */
  ghost predicate LeavesQuiet(saved: State, index: Index, w: World, moments: seq<Index>) {
    forall m, p | 0 <= m < |moments| && Quiet(saved, w, p) :: At(moments[m], p) == At(index, p)
  }

  /** The file at position `i` is indexed when it has changed and stands there for the first time. */
  predicate IndexedAt(saved: State, w: World, i: nat)
    requires i < |w.files|
  {
    !Unchanged(saved, w, w.files[i]) && w.files[i] !in w.files[..i]
  }

  function FilesIndexed(saved: State, w: World, n: nat): nat
    requires n <= |w.files|
  {
    if n == 0 then 0 else FilesIndexed(saved, w, n - 1) + if IndexedAt(saved, w, n - 1) then 1 else 0
  }

  function ChunksIndexed(saved: State, w: World, n: nat): nat
    requires n <= |w.files|
  {
    if n == 0 then 0
    else ChunksIndexed(saved, w, n - 1)
         + if IndexedAt(saved, w, n - 1) then |CurrentChunks(w, w.files[n - 1])| else 0
  }

  /** Chunks are counted of each file that has changed, once. */
  lemma ChunksAddUp(saved: State, w: World, n: nat)
    requires n < |w.files|
    ensures ChunksIndexed(saved, w, 0) == 0
    ensures var p, before := w.files[n], ChunksIndexed(saved, w, n);
      ChunksIndexed(saved, w, n + 1) ==
        if p in ChangedFiles(saved, w, n + 1) && p !in ChangedFiles(saved, w, n)
        then before + |w.chunks(p, w.fingerprint(p))| else before
  {
    hide Unchanged;
    assert w.files[..n + 1] == w.files[..n] + [w.files[n]];
  }

  function ChangedFiles(saved: State, w: World, n: nat): set<Path>
    requires n <= |w.files|
  {
    set p | p in w.files[..n] && !Unchanged(saved, w, p)
  }

  lemma OneFileMore(saved: State, w: World, n: nat)
    requires 0 < n <= |w.files|
    ensures |ChangedFiles(saved, w, n)|
         == |ChangedFiles(saved, w, n - 1)| + if IndexedAt(saved, w, n - 1) then 1 else 0
  {
    hide Unchanged;
    var p, before := w.files[n - 1], ChangedFiles(saved, w, n - 1);
    assert w.files[..n] == w.files[..n - 1] + [p];
    assert IndexedAt(saved, w, n - 1) ==> p !in before;
    assert ChangedFiles(saved, w, n) == if IndexedAt(saved, w, n - 1) then before + {p} else before;
  }

  /** As many files are indexed as have changed. */
  lemma {:induction false} FilesIndexedHaveChanged(saved: State, w: World, n: nat)
    requires n <= |w.files|
    ensures FilesIndexed(saved, w, n) == |ChangedFiles(saved, w, n)|
  {
    hide ChangedFiles;
    hide IndexedAt;
    if n > 0 {
      FilesIndexedHaveChanged(saved, w, n - 1);
      OneFileMore(saved, w, n);
    } else {
      NoFilesChanged(saved, w);
    }
  }

  lemma NoFilesChanged(saved: State, w: World)
    ensures ChangedFiles(saved, w, 0) == {}
  {
  }

  /** What the saved state says about a file after the sync: its fingerprint and how many chunks it has. */
  function EntryAfter(saved: State, w: World, p: Path): Entry {
    Entry(w.fingerprint(p), if Unchanged(saved, w, p) then saved[p].chunkCount else |CurrentChunks(w, p)|)
  }

  /** The saved state describes the index: every indexed file is recorded, with the chunks of the
      content its fingerprint stands for. */
  ghost predicate Agree(saved: State, index: Index, w: World) {
    && (forall id | id in index :: id.path in saved)
    && (forall p | p in saved :: At(index, p) == FileIndex(w.chunks(p, saved[p].fingerprint)))
  }

  /** Files taken for unchanged are indexed as they are, and all others are known or listed. */
  ghost predicate Recoverable(saved: State, index: Index, w: World) {
    && (forall id | id in index :: id.path in saved || id.path in w.files)
    && (forall p | p in w.files && Unchanged(saved, w, p) :: At(index, p) == FileIndex(CurrentChunks(w, p)))
  }

  lemma AgreementIsRecoverable(saved: State, index: Index, w: World)
    requires Agree(saved, index, w)
    ensures Recoverable(saved, index, w)
  {
  }

  /** Incremental sync equals a full rebuild exactly from the recoverable starting points. */
  lemma SyncRebuildsIff(saved: State, index: Index, w: World)
    ensures (forall p :: SyncedAt(saved, index, w, p) == RebuiltAt(w, p)) <==> Recoverable(saved, index, w)
  {
    if Recoverable(saved, index, w) {
      forall p ensures SyncedAt(saved, index, w, p) == RebuiltAt(w, p) {
        if p !in w.files && p !in saved {
          assert At(index, p) == map[];
        }
      }
    }
    if forall p :: SyncedAt(saved, index, w, p) == RebuiltAt(w, p) {
      forall id | id in index ensures id.path in saved || id.path in w.files {
        assert SyncedAt(saved, index, w, id.path) == RebuiltAt(w, id.path);
        assert id in At(index, id.path);
      }
      forall p | p in w.files && Unchanged(saved, w, p)
        ensures At(index, p) == FileIndex(CurrentChunks(w, p))
      {
        assert SyncedAt(saved, index, w, p) == RebuiltAt(w, p);
      }
    }
  }

  // ----- index operations keep to their file -----

  lemma DeleteTouchesOneFile(index: Index, p: Path, q: Path)
    ensures At(DeleteFile(index, p), q) == if q == p then map[] else At(index, q)
  {
  }

  lemma {:induction false} UpsertTouchesOneFile(index: Index, chunks: seq<(ChunkId, string)>, p: Path, q: Path)
    requires forall k | 0 <= k < |chunks| :: chunks[k].0.path == p
    ensures At(Upsert(index, chunks), q) == if q == p then Upsert(At(index, p), chunks) else At(index, q)
    decreases |chunks|
  {
    if chunks != [] {
      var next := index[chunks[0].0 := chunks[0].1];
      UpsertTouchesOneFile(next, chunks[1..], p, q);
      assert At(next, q) == if q == p then At(index, p)[chunks[0].0 := chunks[0].1] else At(index, q);
    }
  }

  lemma {:induction false} UpsertConcat(index: Index, a: seq<(ChunkId, string)>, b: seq<(ChunkId, string)>)
    ensures Upsert(index, a + b) == Upsert(Upsert(index, a), b)
    decreases |a|
  {
    if a == [] {
      assert a + b == b;
    } else {
      UpsertConcat(index[a[0].0 := a[0].1], a[1..], b);
      assert (a + b)[1..] == a[1..] + b;
    }
  }

  lemma NothingUpserted(index: Index)
    ensures Upsert(index, []) == index
  {
  }

  /** Changing the chunks of a file that has changed, or dropping those of any file not taken for
      unchanged, leaves a state from which a rerun recovers. */
  lemma OneFileStaysRecoverable(saved: State, index: Index, next: Index, w: World, p: Path)
    requires Recoverable(saved, index, w) && forall q | q != p :: At(next, q) == At(index, q)
    requires if p in w.files then !Unchanged(saved, w, p) else At(next, p) == map[]
    ensures Recoverable(saved, next, w)
  {
    forall id | id in next ensures id.path in saved || id.path in w.files {
      assert id in At(next, id.path);
      if id.path != p { assert id in At(index, id.path); }
    }
  }

  // ----- what the index passes through -----

  /** A single write: the chunks of one file are deleted, or one batch is written. */
  ghost predicate OneWrite(before: Index, after: Index, batchSize: nat) {
    || (exists p :: after == DeleteFile(before, p))
    || (exists chunks :: |chunks| <= batchSize && after == Upsert(before, chunks))
  }

  function LastOf(before: Index, moments: seq<Index>): Index {
    if moments == [] then before else moments[|moments| - 1]
  }

  /** The moments are all the index passes through on its way, one write after the other. */
  ghost predicate Trail(before: Index, moments: seq<Index>, after: Index, batchSize: nat) {
    && after == LastOf(before, moments)
    && (moments != [] ==>
         var n := |moments| - 1;
         && Trail(before, moments[..n], LastOf(before, moments[..n]), batchSize)
         && OneWrite(LastOf(before, moments[..n]), moments[n], batchSize))
  }

  lemma TrailGrows(before: Index, moments: seq<Index>, now: Index, next: Index, batchSize: nat)
    requires Trail(before, moments, now, batchSize) && OneWrite(now, next, batchSize)
    ensures Trail(before, moments + [next], next, batchSize)
  {
    assert (moments + [next])[..|moments|] == moments;
  }

  lemma {:induction false} TrailJoins(a: Index, first: seq<Index>, b: Index, more: seq<Index>, c: Index, batchSize: nat)
    requires Trail(a, first, b, batchSize) && Trail(b, more, c, batchSize)
    ensures Trail(a, first + more, c, batchSize)
  {
    hide OneWrite;
    if more == [] {
      assert first + more == first;
    } else {
      var n := |more| - 1;
      var now := LastOf(b, more[..n]);
      TrailJoins(a, first, b, more[..n], now, batchSize);
      TrailGrows(a, first + more[..n], now, more[n], batchSize);
      assert first + more == first + more[..n] + [more[n]];
    }
  }

  lemma DeleteIsOneWrite(before: Index, p: Path, batchSize: nat)
    ensures OneWrite(before, DeleteFile(before, p), batchSize)
  {
  }

  lemma BatchIsOneWrite(before: Index, chunks: seq<(ChunkId, string)>, batchSize: nat)
    requires |chunks| <= batchSize
    ensures OneWrite(before, Upsert(before, chunks), batchSize)
  {
  }

  lemma NoWrites(index: Index, batchSize: nat)
    ensures Trail(index, [], index, batchSize)
  {
  }

  // ----- the ingester -----

  class Ingester {
    var index: Index
    var saved: State
    const batchSize: nat

    constructor (batch: int)
      ensures index == map[] && saved == map[] && batchSize == Max(1, batch)
    {
      index, saved, batchSize := map[], map[], Max(1, batch);
    }

    /** `upsert_chunks`, batch by batch; `moments` are the states of the index a crash could leave. */
    method UpsertChunks(chunks: seq<(ChunkId, string)>, ghost p: Path)
      returns (indexed: nat, ghost moments: seq<Index>)
      requires batchSize > 0
      requires forall k | 0 <= k < |chunks| :: chunks[k].0.path == p
      modifies `index
      ensures index == Upsert(old(index), chunks) && indexed == |chunks|
      ensures forall m | 0 <= m < |moments| :: forall q | q != p :: At(moments[m], q) == At(old(index), q)
      ensures Trail(old(index), moments, index, batchSize)
    {
      hide Trail;
      hide OneWrite;
      hide Upsert;
      indexed, moments := 0, [];
      NothingUpserted(index);
      NoWrites(index, batchSize);
      assert chunks[..0] == [];
      while indexed < |chunks|
        invariant indexed <= |chunks| && index == Upsert(old(index), chunks[..indexed])
        invariant forall m | 0 <= m < |moments| :: forall q | q != p :: At(moments[m], q) == At(old(index), q)
        invariant Trail(old(index), moments, index, batchSize)
      {
        var end := if indexed + batchSize < |chunks| then indexed + batchSize else |chunks|;
        UpsertConcat(old(index), chunks[..indexed], chunks[indexed..end]);
        assert chunks[..indexed] + chunks[indexed..end] == chunks[..end];
        BatchIsOneWrite(index, chunks[indexed..end], batchSize);
        TrailGrows(old(index), moments, index, Upsert(index, chunks[indexed..end]), batchSize);
        index := Upsert(index, chunks[indexed..end]);
        forall q | q != p ensures At(index, q) == At(old(index), q) {
          UpsertTouchesOneFile(old(index), chunks[..end], p, q);
        }
        moments := moments + [index];
        indexed := end;
      }
      assert chunks[..|chunks|] == chunks;
    }

    /** Every index a crash could have left behind is one a rerun recovers from. */
    ghost static predicate AllRecoverable(state: State, moments: seq<Index>, w: World) {
      forall m | 0 <= m < |moments| :: Recoverable(state, moments[m], w)
    }

    static lemma MomentsRecoverable(state: State, index: Index, moments: seq<Index>, w: World, p: Path)
      requires Recoverable(state, index, w) && p in w.files && !Unchanged(state, w, p)
      requires forall m | 0 <= m < |moments| :: forall q | q != p :: At(moments[m], q) == At(index, q)
      ensures AllRecoverable(state, moments, w)
    {
      hide At;
      hide Recoverable;
      forall m | 0 <= m < |moments| ensures Recoverable(state, moments[m], w) {
        OneFileStaysRecoverable(state, index, moments[m], w, p);
      }
    }

    static lemma DropLastMoment(state: State, moments: seq<Index>, last: Index, w: World)
      requires AllRecoverable(state, moments + [last], w)
      ensures AllRecoverable(state, moments, w) && Recoverable(state, last, w)
    {
      hide Recoverable;
      var all := moments + [last];
      assert all[|moments|] == last;
      assert forall m | 0 <= m < |moments| :: moments[m] == all[m];
    }

    static lemma NoMoments(state: State, w: World)
      ensures AllRecoverable(state, [], w)
    {
    }

    static lemma JoinMoments(state: State, a: seq<Index>, b: seq<Index>, w: World)
      requires AllRecoverable(state, a, w) && AllRecoverable(state, b, w)
      ensures AllRecoverable(state, a + b, w)
    {
      hide Recoverable;
    }

    static lemma ProgressDone(saved0: State, index0: Index, w: World, state: State, now: Index)
      requires Progress(saved0, index0, w, state, now, |w.files|)
      ensures forall p :: At(now, p) == SyncedAt(saved0, index0, w, p)
      ensures state.Keys == set p | p in w.files
      ensures forall p | p in state :: state[p] == EntryAfter(saved0, w, p)
    {
      hide At;
      hide SyncedAt;
      hide EntryAfter;
      assert w.files[..|w.files|] == w.files;
    }

    static lemma ProgressIsQuiet(saved0: State, index0: Index, w: World, state: State, now: Index, i: nat)
      requires i <= |w.files| && Progress(saved0, index0, w, state, now, i)
      ensures forall p | Quiet(saved0, w, p) :: At(now, p) == At(index0, p)
    {
      hide At;
      hide EntryAfter;
    }

    static lemma OneMoreQuiet(saved0: State, index0: Index, w: World, moments: seq<Index>, now: Index)
      requires LeavesQuiet(saved0, index0, w, moments)
      requires forall p | Quiet(saved0, w, p) :: At(now, p) == At(index0, p)
      ensures LeavesQuiet(saved0, index0, w, moments + [now])
    {
      hide At;
      hide Quiet;
    }

    static lemma JoinQuiet(saved0: State, index0: Index, w: World, a: seq<Index>, b: seq<Index>)
      requires LeavesQuiet(saved0, index0, w, a) && LeavesQuiet(saved0, index0, w, b)
      ensures LeavesQuiet(saved0, index0, w, a + b)
    {
      hide At;
      hide Quiet;
    }

    static lemma NothingQuiet(saved0: State, index0: Index, w: World)
      ensures LeavesQuiet(saved0, index0, w, [])
    {
    }

    /** Writes to a changed file leave the quiet ones alone. */
    static lemma OtherFilesQuiet(
        saved0: State, index0: Index, w: World, before: Index, moments: seq<Index>, path: Path)
      requires !Quiet(saved0, w, path)
      requires forall p | Quiet(saved0, w, p) :: At(before, p) == At(index0, p)
      requires forall m | 0 <= m < |moments| :: forall q | q != path :: At(moments[m], q) == At(before, q)
      ensures LeavesQuiet(saved0, index0, w, moments)
    {
      hide At;
      hide Quiet;
    }

    /** What is done once the unlisted files are gone and the first `i` listed ones are processed. */
    ghost static predicate Progress(saved0: State, index0: Index, w: World, state: State, now: Index, i: nat)
      requires i <= |w.files|
    {
      && (forall p :: At(now, p) ==
            if p !in w.files || p in w.files[..i] then SyncedAt(saved0, index0, w, p) else At(index0, p))
      && (forall p | p in state :: p in w.files)
      && (forall p | p in w.files[..i] :: p in state && state[p] == EntryAfter(saved0, w, p))
      && (forall p | p in w.files && p !in w.files[..i] ::
            (p in state <==> p in saved0) && (p in state ==> state[p] == saved0[p]))
    }

    /** The files in `unlisted` are still to be forgotten. */
    ghost static predicate Forgetting(
        saved0: State, index0: Index, w: World, state: State, now: Index, unlisted: set<Path>)
    {
      && (forall p | p in unlisted :: p in saved0 && p !in w.files)
      && (forall p :: p in state <==> p in saved0 && (p in w.files || p in unlisted))
      && (forall p | p in state :: state[p] == saved0[p])
      && (forall p :: At(now, p) ==
            if p in saved0 && p !in w.files && p !in unlisted then map[] else At(index0, p))
    }

    static lemma ForgetOne(
        saved0: State, index0: Index, w: World, state: State, now: Index, unlisted: set<Path>, key: Path)
      requires Forgetting(saved0, index0, w, state, now, unlisted) && key in unlisted
      ensures Forgetting(saved0, index0, w, state - {key}, DeleteFile(now, key), unlisted - {key})
      ensures forall q | q != key :: At(DeleteFile(now, key), q) == At(now, q)
      ensures At(DeleteFile(now, key), key) == map[]
    {
      hide At;
      hide DeleteFile;
      forall q ensures At(DeleteFile(now, key), q) == if q == key then map[] else At(now, q) {
        DeleteTouchesOneFile(now, key, q);
      }
    }

    static lemma NothingForgotten(saved0: State, index0: Index, w: World, unlisted: set<Path>)
      requires unlisted == saved0.Keys - set p | p in w.files
      ensures Forgetting(saved0, index0, w, saved0, index0, unlisted)
    {
      hide At;
    }

    static lemma ForgettingIsQuiet(
        saved0: State, index0: Index, w: World, state: State, now: Index, unlisted: set<Path>)
      requires Forgetting(saved0, index0, w, state, now, unlisted)
      ensures forall p | Quiet(saved0, w, p) :: At(now, p) == At(index0, p)
    {
      hide At;
    }

    static lemma AllForgotten(saved0: State, index0: Index, w: World, state: State, now: Index)
      requires Forgetting(saved0, index0, w, state, now, {})
      ensures Progress(saved0, index0, w, state, now, 0)
    {
      hide At;
    }

    /** The first loop of `sync`: files no longer listed lose their chunks and their entry. */
    method DeleteUnlisted(w: World) returns (state: State, deleted: nat, ghost moments: seq<Index>)
      modifies `index
      ensures Progress(old(saved), old(index), w, state, index, 0)
      ensures deleted == |old(saved).Keys - set p | p in w.files|
      ensures Recoverable(old(saved), old(index), w) ==>
        Recoverable(old(saved), index, w) && AllRecoverable(old(saved), moments, w)
      ensures Trail(old(index), moments, index, batchSize)
      ensures LeavesQuiet(old(saved), old(index), w, moments)
    {
      hide Trail;
      hide OneWrite;
      hide At;
      hide DeleteFile;
      hide Recoverable;
      hide Forgetting;
      hide Progress;
      hide LeavesQuiet;
      state, deleted, moments := saved, 0, [];
      ghost var index0 := index;
      var unlisted := saved.Keys - set p | p in w.files;
      NoWrites(index, batchSize);
      NothingForgotten(saved, index, w, unlisted);
      NothingQuiet(saved, index, w);
      while unlisted != {}
        invariant Forgetting(saved, index0, w, state, index, unlisted)
        invariant unlisted <= saved.Keys - set p | p in w.files
        invariant deleted + |unlisted| == |saved.Keys - set p | p in w.files|
        invariant Recoverable(saved, index0, w) ==>
          Recoverable(saved, index, w) && AllRecoverable(saved, moments, w)
        invariant Trail(index0, moments, index, batchSize)
        invariant LeavesQuiet(saved, index0, w, moments)
      {
        var key :| key in unlisted;
        ForgetOne(saved, index0, w, state, index, unlisted, key);
        ghost var before := index;
        DeleteIsOneWrite(index, key, batchSize);
        TrailGrows(index0, moments, index, DeleteFile(index, key), batchSize);
        index := DeleteFile(index, key);
        if Recoverable(saved, before, w) { OneFileStaysRecoverable(saved, before, index, w, key); }
        state := state - {key};
        unlisted := unlisted - {key};
        deleted := deleted + 1;
        ForgettingIsQuiet(saved, index0, w, state, index, unlisted);
        OneMoreQuiet(saved, index0, w, moments, index);
        moments := moments + [index];
      }
      AllForgotten(saved, index0, w, state, index);
    }

    /** One round of the second loop: a changed file is indexed again. */
    method SyncFile(w: World, state: State, i: nat, ghost saved0: State, ghost index0: Index)
      returns (after: State, files: nat, chunks: nat, ghost moments: seq<Index>)
      requires batchSize > 0 && Sound(w) && i < |w.files|
      requires Progress(saved0, index0, w, state, index, i)
      modifies `index
      ensures Progress(saved0, index0, w, after, index, i + 1)
      ensures files == (if IndexedAt(saved0, w, i) then 1 else 0)
      ensures chunks == (if IndexedAt(saved0, w, i) then |CurrentChunks(w, w.files[i])| else 0)
      ensures Recoverable(saved0, old(index), w) ==>
        Recoverable(saved0, index, w) && AllRecoverable(saved0, moments, w)
      ensures Trail(old(index), moments, index, batchSize)
      ensures LeavesQuiet(saved0, index0, w, moments)
    {
      hide Trail;
      hide OneWrite;
      hide At;
      hide DeleteFile;
      hide Recoverable;
      hide Upsert;
      hide AllRecoverable;
      hide Progress;
      hide LeavesQuiet;
      hide CurrentChunks;
      var path := w.files[i];
      ghost var before := index;
      NoMoments(saved0, w);
      NothingQuiet(saved0, index0, w);
      NoWrites(index, batchSize);
      DeleteIsOneWrite(index, path, batchSize);
      TrailGrows(index, [], index, DeleteFile(index, path), batchSize);
      assert [] + [DeleteFile(index, path)] == [DeleteFile(index, path)];
      if Unchanged(state, w, path) {
        SkipUnchanged(saved0, index0, w, state, index, i);
        return state, 0, 0, [];
      }
      ChangedSinceSaved(saved0, index0, w, state, before, i);
      index := DeleteFile(index, path);
      ghost var cleared := index;
      var current := CurrentChunks(w, path);
      PathOfChunks(w, path);
      ghost var more;
      chunks, more := UpsertChunks(current, path);
      files := 1;
      after := state[path := Entry(w.fingerprint(path), |current|)];
      Reindexed(before, path, current);
      ReindexProgress(saved0, index0, w, state, before, index, i, |current|);
      moments := [cleared] + more;
      TrailJoins(before, [cleared], cleared, more, index, batchSize);
      ProgressIsQuiet(saved0, index0, w, state, before, i);
      OtherFilesQuiet(saved0, index0, w, before, moments, path);
      if Recoverable(saved0, before, w) {
        MomentsRecoverable(saved0, before, moments + [index], w, path);
        DropLastMoment(saved0, moments, index, w);
      }
    }

    static lemma PathOfChunks(w: World, path: Path)
      requires Sound(w)
      ensures forall k | 0 <= k < |CurrentChunks(w, path)| :: CurrentChunks(w, path)[k].0.path == path
    {
    }

    static lemma SkipUnchanged(saved0: State, index0: Index, w: World, state: State, now: Index, i: nat)
      requires i < |w.files| && Progress(saved0, index0, w, state, now, i)
      requires Unchanged(state, w, w.files[i])
      ensures Progress(saved0, index0, w, state, now, i + 1) && !IndexedAt(saved0, w, i)
    {
      hide At;
      hide FileIndex;
      assert w.files[..i + 1] == w.files[..i] + [w.files[i]];
    }

    static lemma ChangedSinceSaved(saved0: State, index0: Index, w: World, state: State, now: Index, i: nat)
      requires i < |w.files| && Progress(saved0, index0, w, state, now, i)
      requires !Unchanged(state, w, w.files[i])
      ensures !Unchanged(saved0, w, w.files[i]) && w.files[i] !in w.files[..i]
      ensures IndexedAt(saved0, w, i) && !Quiet(saved0, w, w.files[i])
    {
      hide At;
      hide SyncedAt;
      assert w.files[i] in w.files;
    }

    static lemma Reindexed(index: Index, p: Path, chunks: seq<(ChunkId, string)>)
      requires forall k | 0 <= k < |chunks| :: chunks[k].0.path == p
      ensures forall q :: At(DeleteFile(index, p), q) == if q == p then map[] else At(index, q)
      ensures forall q :: At(Upsert(DeleteFile(index, p), chunks), q)
                          == if q == p then FileIndex(chunks) else At(index, q)
    {
      hide At;
      hide DeleteFile;
      hide Upsert;
      forall q
        ensures At(DeleteFile(index, p), q) == if q == p then map[] else At(index, q)
        ensures At(Upsert(DeleteFile(index, p), chunks), q) == if q == p then FileIndex(chunks) else At(index, q)
      {
        DeleteTouchesOneFile(index, p, q);
        UpsertTouchesOneFile(DeleteFile(index, p), chunks, p, q);
      }
    }

    static lemma ReindexProgress(
        saved0: State, index0: Index, w: World, state: State, before: Index, now: Index, i: nat, count: nat)
      requires i < |w.files| && Progress(saved0, index0, w, state, before, i)
      requires !Unchanged(state, w, w.files[i]) && count == |CurrentChunks(w, w.files[i])|
      requires var path := w.files[i];
        forall q :: At(now, q) == if q == path then FileIndex(CurrentChunks(w, path)) else At(before, q)
      ensures Progress(saved0, index0, w, state[w.files[i] := Entry(w.fingerprint(w.files[i]), count)], now, i + 1)
    {
      hide At;
      hide FileIndex;
      hide CurrentChunks;
      hide EntryAfter;
      var path := w.files[i];
      ChangedSinceSaved(saved0, index0, w, state, before, i);
      EntryOfChanged(saved0, w, path);
      assert w.files[..i + 1] == w.files[..i] + [path];
    }

    static lemma EntriesHaveFingerprints(saved0: State, state: State, w: World)
      requires forall p | p in state :: state[p] == EntryAfter(saved0, w, p)
      ensures forall p | p in state :: state[p].fingerprint == w.fingerprint(p)
    {
    }

    static lemma EntryOfChanged(saved0: State, w: World, p: Path)
      requires !Unchanged(saved0, w, p)
      ensures EntryAfter(saved0, w, p) == Entry(w.fingerprint(p), |CurrentChunks(w, p)|)
    {
    }

    /** `sync`.  From a recoverable start the index becomes that of a full rebuild and the state saved
        describes it; until then, any crash leaves a recoverable start behind. */
    method Sync(w: World)
      returns (filesSeen: nat, filesIndexed: nat, filesDeleted: nat, chunksIndexed: nat, ghost moments: seq<Index>)
      requires batchSize > 0 && Sound(w)
      modifies this
      ensures forall p :: At(index, p) == SyncedAt(old(saved), old(index), w, p)
      ensures saved.Keys == (set p | p in w.files)
      ensures forall p | p in w.files :: saved[p] == EntryAfter(old(saved), w, p)
      ensures filesIndexed == FilesIndexed(old(saved), w, |w.files|)
      ensures chunksIndexed == ChunksIndexed(old(saved), w, |w.files|)
      ensures LeavesQuiet(old(saved), old(index), w, moments)
      ensures filesSeen == |w.files| && filesDeleted == |old(saved).Keys - set p | p in w.files|
      ensures old(Recoverable(saved, index, w)) ==>
        IsRebuilt(index, w) && Agree(saved, index, w) && AllRecoverable(old(saved), moments, w)
      ensures Trail(old(index), moments, index, batchSize)
    {
      hide Trail;
      hide At;
      hide SyncedAt;
      hide Recoverable;
      hide AllRecoverable;
      hide Progress;
      hide RebuiltAt;
      hide LeavesQuiet;
      hide EntryAfter;
      hide IndexedAt;
      ghost var saved0, index0 := saved, index;
      var state;
      filesSeen := |w.files|;
      state, filesDeleted, moments := DeleteUnlisted(w);
      filesIndexed, chunksIndexed := 0, 0;
      for i := 0 to |w.files|
        invariant saved == saved0
        invariant Progress(saved0, index0, w, state, index, i)
        invariant Recoverable(saved0, index0, w) ==>
          Recoverable(saved0, index, w) && AllRecoverable(saved0, moments, w)
        invariant Trail(index0, moments, index, batchSize)
        invariant LeavesQuiet(saved0, index0, w, moments)
        invariant filesIndexed == FilesIndexed(saved0, w, i)
        invariant chunksIndexed == ChunksIndexed(saved0, w, i)
      {
        ghost var more;
        ghost var before := index;
        var files, chunks;
        state, files, chunks, more := SyncFile(w, state, i, saved0, index0);
        filesIndexed, chunksIndexed := filesIndexed + files, chunksIndexed + chunks;
        JoinQuiet(saved0, index0, w, moments, more);
        if Recoverable(saved0, index0, w) { JoinMoments(saved0, moments, more, w); }
        TrailJoins(index0, moments, before, more, index, batchSize);
        moments := moments + more;
      }
      ProgressDone(saved0, index0, w, state, index);
      saved := state;
      EntriesHaveFingerprints(saved0, saved, w);
      if Recoverable(saved0, index0, w) {
        SyncRebuildsIff(saved0, index0, w);
        RebuiltAgrees(saved, index, w);
      }
    }

    /** Any sequence of syncs while files come, change and go: from state and index that agree,
        each one leaves the index of a full rebuild. */
    method SyncEach(worlds: seq<World>) returns (indexes: seq<Index>)
      requires batchSize > 0 && SameChunking(worlds)
      requires forall i | 0 <= i < |worlds| :: Sound(worlds[i]) && Agree(saved, index, worlds[i])
      modifies this
      ensures |indexes| == |worlds|
      ensures forall i | 0 <= i < |worlds| :: IsRebuilt(indexes[i], worlds[i])
      ensures forall i | 0 <= i < |worlds| :: Agree(saved, index, worlds[i])
    {
      hide *;
      indexes := [];
      for n := 0 to |worlds|
        invariant |indexes| == n && forall i | 0 <= i < n :: IsRebuilt(indexes[i], worlds[i])
        invariant forall i | 0 <= i < |worlds| :: Agree(saved, index, worlds[i])
      {
        AgreementIsRecoverable(saved, index, worlds[n]);
        var seen, indexed, deleted, chunks;
        ghost var moments;
        seen, indexed, deleted, chunks, moments := Sync(worlds[n]);
        indexes := indexes + [index];
        forall i | 0 <= i < |worlds| ensures Agree(saved, index, worlds[i]) {
          AgreementIsOfChunking(saved, index, worlds, n, i);
        }
      }
    }
  }

  /** Files may change, but how a file of given content is chunked does not. */
  ghost predicate SameChunking(worlds: seq<World>) {
    forall i, j | 0 <= i < |worlds| && 0 <= j < |worlds| :: worlds[i].chunks == worlds[j].chunks
  }

  /** Agreement is about state, index and chunking, not about the files there are. */
  lemma AgreementIsOfChunking(saved: State, index: Index, worlds: seq<World>, i: nat, j: nat)
    requires SameChunking(worlds) && i < |worlds| && j < |worlds| && Agree(saved, index, worlds[i])
    ensures Agree(saved, index, worlds[j])
  {
    hide At;
    hide FileIndex;
    assert worlds[i].chunks == worlds[j].chunks;
  }

  lemma RebuiltAgrees(saved: State, index: Index, w: World)
    requires IsRebuilt(index, w)
    requires forall p :: p in saved <==> p in w.files
    requires forall p | p in saved :: saved[p].fingerprint == w.fingerprint(p)
    ensures Agree(saved, index, w)
  {
    forall id | id in index ensures id.path in saved {
      assert id in At(index, id.path);
    }
  }
}
