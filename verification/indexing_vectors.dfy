/** Vectors are true: over every run each stored vector is that of its chunk's own text. */
module IndexingVectors {
  import opened IndexingDatabase
  import opened IndexingModels
  import opened IndexingOutcomes
  import opened IndexingRuns

  ghost predicate IsVectorOf(e: Embedding, c: Chunk, s: Settings) {
    e.version == c.version && e.hash == c.hash && e.vector == s.embed(c.text)
  }

  /** Every row of the model, live or not, carries version, hash and vector of its chunk. */
  ghost predicate Truthful(rows: seq<Embedding>, chunks: seq<Chunk>, s: Settings) {
    forall e, c :: e in rows && c in chunks && e.chunk == c.id && e.model == s.model ==> IsVectorOf(e, c, s)
  }

  /** The row was there, but for its status. */
  ghost predicate WasRow(before: Database, e: Embedding) {
    exists status :: e.(status := status) in before.embeddings
  }

  /** The row was made from a chunk that was there. */
  ghost predicate IsMade(before: Database, e: Embedding, s: Settings) {
    exists c :: c in before.chunks && e.chunk == c.id && IsVectorOf(e, c, s)
  }

  /** The chunk was there, but for its status. */
  ghost predicate WasChunk(before: Database, c: Chunk) {
    exists status :: c.(status := status) in before.chunks
  }

  lemma {:induction false} TruthCarries(before: Database, rows: seq<Embedding>, chunks: seq<Chunk>, s: Settings)
    requires UniqueChunks(before.chunks) && Truthful(before.embeddings, before.chunks, s)
    requires forall e :: e in rows ==> WasRow(before, e) || IsMade(before, e, s)
    requires forall c :: c in chunks ==> WasChunk(before, c) || forall e :: e in rows ==> e.chunk != c.id
    ensures Truthful(rows, chunks, s)
  {
    hide UniqueChunks;
    forall e, c | e in rows && c in chunks && e.chunk == c.id && e.model == s.model
      ensures IsVectorOf(e, c, s)
    {
      var status :| c.(status := status) in before.chunks;
      var was := c.(status := status);
      if WasRow(before, e) {
        var was :| e.(status := was) in before.embeddings;
        assert e.(status := was).chunk == c.(status := status).id;
      } else {
        var d :| d in before.chunks && e.chunk == d.id && IsVectorOf(e, d, s);
        if d != was {
          DifferentIds(before.chunks, d, was);
        }
      }
    }
  }

  // ------------------------------------------------------------- the steps

  lemma {:induction false} PersistAllForm(rows: seq<Embedding>, todo: seq<Chunk>, version: nat, s: Settings, force: bool)
    ensures
      var r := PersistAll(rows, todo, version, s, force);
      |rows| <= |r| && forall i :: 0 <= i < |rows| ==> r[i] == rows[i].(status := r[i].status)
    decreases |todo|
  {
    hide HasMatch, MaxGeneration;
    if todo != [] {
      var next := Persist(rows, todo[0], version, s, force);
      PersistAllForm(next, todo[1..], version, s, force);
      assert forall i :: 0 <= i < |rows| ==> next[i] == rows[i].(status := next[i].status);
    }
  }

  lemma {:induction false} CompletedRows(db: Database, version: nat, s: Settings, force: bool, e: Embedding)
    requires UniqueChunks(db.chunks) && version in db.versions && e in Completed(db, version, s, force).embeddings
    ensures WasRow(db, e) || IsMade(db, e, s)
  {
    hide *;
    var todo, after := ToEmbed(db, version, s, force), Completed(db, version, s, force).embeddings;
    var rows, n := PersistAll(db.embeddings, todo, version, s, force), |db.embeddings|;
    RowsAfter(db, version, s, force, todo);
    PersistCount(db.embeddings, todo, version, s, force);
    PersistAllForm(db.embeddings, todo, version, s, force);
    ToEmbedMembers(db, version, s, force);
    var i :| 0 <= i < |after| && after[i] == e;
    if i < n {
      RowWas(db, e, db.embeddings[i].status, i);
    } else {
      StoredInOrder(db.embeddings, todo, version, s, force, i - n);
      FreshChunk(rows[n + (i - n)], todo[i - n], s, db.embeddings);
      RowMade(db, e, todo[i - n], s);
    }
  }

  lemma RowWas(db: Database, e: Embedding, status: IndexStatus, i: nat)
    requires i < |db.embeddings| && db.embeddings[i] == e.(status := status)
    ensures WasRow(db, e)
  {
  }

  lemma RowMade(db: Database, e: Embedding, c: Chunk, s: Settings)
    requires c in db.chunks && e.chunk == c.id && e.version == c.version && e.hash == c.hash && e.vector == s.embed(c.text)
    ensures IsMade(db, e, s)
  {
  }

  lemma CompletedChunks(db: Database, version: nat, s: Settings, force: bool, c: Chunk)
    requires version in db.versions && c in Completed(db, version, s, force).chunks
    ensures WasChunk(db, c)
  {
    hide PersistAll, PendingChunks, ListForVersion, Priors, Promoted;
    var i :| 0 <= i < |db.chunks| && Completed(db, version, s, force).chunks[i] == c;
    assert c.(status := db.chunks[i].status) == db.chunks[i];
  }

  lemma SameWas(db: Database)
    ensures forall e :: e in db.embeddings ==> WasRow(db, e)
    ensures forall c :: c in db.chunks ==> WasChunk(db, c)
  {
    forall e | e in db.embeddings
      ensures WasRow(db, e)
    {
      assert e.(status := e.status) == e;
    }
    forall c | c in db.chunks
      ensures WasChunk(db, c)
    {
      assert c.(status := c.status) == c;
    }
  }

  /** Every committed step keeps the vectors true. */
  lemma {:induction false} StepKeepsTruth(db: Database, event: Event, s: Settings)
    requires UniqueChunks(db.chunks) && Truthful(db.embeddings, db.chunks, s) && Enabled(db, event)
    ensures Truthful(Apply(db, event, s).embeddings, Apply(db, event, s).chunks, s)
  {
    var after := Apply(db, event, s);
    SameWas(db);
    hide Truthful, WasRow, WasChunk, IsMade, UniqueChunks, Completed, MarkedFailed, WithoutRows, WithoutChunks;
    match event
    case Completes(v, force) =>
      forall e | e in after.embeddings
        ensures WasRow(db, e) || IsMade(db, e, s)
      {
        CompletedRows(db, v, s, force, e);
      }
      forall c | c in after.chunks
        ensures WasChunk(db, c)
      {
        CompletedChunks(db, v, s, force, c);
      }
      TruthCarries(db, after.embeddings, after.chunks, s);
    case Rechunks(v, chunks) =>
      WithoutRowsMembers(db.embeddings, {v});
      WithoutChunksKeeps(db.chunks, {v});
      forall c | c in after.chunks
        ensures WasChunk(db, c) || forall e :: e in after.embeddings ==> e.chunk != c.id
      {
        NewChunk(db, v, chunks, c);
      }
      TruthCarries(db, after.embeddings, after.chunks, s);
    case Removes(document) =>
      var gone := set v | v in db.versions && db.versions[v].document == document;
      WithoutRowsMembers(db.embeddings, gone);
      WithoutChunksKeeps(db.chunks, gone);
      TruthCarries(db, after.embeddings, after.chunks, s);
    case Fails(v, reason) =>
      FailedRows(db, v, reason);
    case _ =>
  }

  lemma FailedRows(db: Database, version: nat, reason: Error)
    ensures MarkedFailed(db, version, reason).embeddings == db.embeddings && MarkedFailed(db, version, reason).chunks == db.chunks
  {
  }

  /** A chunk after rechunking was there before or is fresh. */
  lemma NewChunk(db: Database, version: nat, chunks: seq<Chunk>, c: Chunk)
    requires UniqueChunks(db.chunks) && FreshChunks(db, version, chunks) && c in WithoutChunks(db.chunks, {version}) + chunks
    ensures WasChunk(db, c) || forall e :: e in WithoutRows(db.embeddings, {version}) ==> e.chunk != c.id
  {
    SameWas(db);
    WithoutChunksKeeps(db.chunks, {version});
    WithoutRowsMembers(db.embeddings, {version});
    hide WasChunk, WithoutChunks, WithoutRows, UniqueChunks;
  }

  lemma {:induction false} RunsKeepTruth(db: Database, events: seq<Event>, s: Settings)
    requires Consistent(db, s.model) && Truthful(db.embeddings, db.chunks, s) && IsRun(db, events, s)
    ensures Truthful(After(db, events, s).embeddings, After(db, events, s).chunks, s)
    decreases |events|
  {
    hide Consistent, Truthful, Enabled, Apply;
    if events != [] {
      ConsistentIsUnique(db, s.model);
      StepKeeps(db, events[0], s);
      StepKeepsTruth(db, events[0], s);
      RunsKeepTruth(Apply(db, events[0], s), events[1..], s);
    }
  }

  /** The row is live and found under the chunk. */
  predicate IsLiveFor(e: Embedding, c: Chunk, s: Settings) { e.chunk == c.id && e.model == s.model && e.status == Live }

  /** The row is the live vector of the chunk's own text. */
  ghost predicate IsLiveVector(e: Embedding, c: Chunk, s: Settings) {
    IsLiveFor(e, c, s) && e.version == c.version && e.hash == c.hash && e.vector == s.embed(c.text)
  }

  /**
   * What a search compares with: in every reachable database each chunk of an
   * indexed version, unless deleted, has exactly one live vector, and that is
   * the embedding of its own text.
   */
  lemma {:induction false} SearchedByOwnText(events: seq<Event>, s: Settings, k: nat)
    requires IsRun(Database(map[], [], []), events, s)
    requires
      var db := After(Database(map[], [], []), events, s);
      && k < |db.chunks| && db.chunks[k].status != ChunkDeleted
      && db.chunks[k].version in db.versions && db.versions[db.chunks[k].version].status == Indexed
    ensures
      var db := After(Database(map[], [], []), events, s);
      exists i :: 0 <= i < |db.embeddings| && IsLiveVector(db.embeddings[i], db.chunks[k], s)
        && forall j :: 0 <= j < |db.embeddings| && IsLiveFor(db.embeddings[j], db.chunks[k], s) ==> j == i
  {
    EmptyIsConsistent(s.model);
    var db := After(Database(map[], [], []), events, s);
    assert IsCurrent(db.versions, db.chunks[k]);
    hide After, IsRun, Consistent;
    RunsKeepTruth(Database(map[], [], []), events, s);
    SearchableExactlyOnce(events, s, k);
    var i :| 0 <= i < |db.embeddings| && Matches(db.embeddings[i], db.chunks[k], s.model)
      && forall j :: 0 <= j < |db.embeddings| && IsFor(db.embeddings[j], db.chunks[k].id, s.model) && db.embeddings[j].status.Live? ==> j == i;
    assert db.embeddings[i] in db.embeddings && db.chunks[k] in db.chunks;
    assert IsVectorOf(db.embeddings[i], db.chunks[k], s);
  }
}
