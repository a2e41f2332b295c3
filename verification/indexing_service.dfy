/** The indexing service: attempts, retries, resuming, and the status of versions. */
module IndexingServices {
  import opened EmbeddingBisection
  import opened IndexingBatches
  import opened IndexingDatabase
  import opened IndexingModels
  import opened IndexingRuns
  import opened PythonText

  datatype IndexingResult = IndexingResult(created: nat, skipped: nat)

  function TextsOf(batch: seq<Chunk>): (r: seq<string>)
    ensures |r| == |batch|
  {
    if batch == [] then [] else [batch[0].text] + TextsOf(batch[1..])
  }

  /** What a returning attempt leaves and reports. */
  ghost predicate Finishes(before: Database, after: Database, version: nat, s: Settings, force: bool, result: IndexingResult) {
    && version in before.versions
    && var list := ListForVersion(before.chunks, version);
       if before.versions[version].status.Indexed? && !force then
         after == before && result == IndexingResult(0, |list|)
       else
         && CanComplete(before, version, force)
         && after == Completed(before, version, s, force)
         && result.created == |PendingChunks(list, before.embeddings, s.model, force)|
         && result.created + result.skipped == |list|
  }

  /** Indexing of the version is refused whatever else holds: it is missing or in a status no attempt starts from. */
  predicate IsRefused(db: Database, version: nat) {
    version !in db.versions || !IsIndexable(db.versions[version].status)
  }

  predicate CanResume(db: Database, version: nat) {
    && version in db.versions
    && var status := db.versions[version].status; status.Failed? || status.Indexing? || status.Chunked?
  }

  /** The rows a resume starts indexing from. */
  function Resumed(db: Database, version: nat): Database
    requires CanResume(db, version)
  {
    if db.versions[version].status.Failed? then WithStatus(db, version, Chunked) else db
  }

  /** A session's rows once the prior versions are retired. */
  function Retired(session: Database, version: nat): Database
    requires version in session.versions
  {
    var priors := Priors(session.versions, version);
    Database(map v | v in session.versions :: if v in priors then session.versions[v].(status := Superseded) else session.versions[v],
             MarkChunks(session.chunks, priors, ChunkSuperseded), MarkStaleForVersions(session.embeddings, priors))
  }

  class IndexingService {
    const provider: Provider
    const model: nat
    const batchSize: int
    const maxBatchChars: int
    const retryDelays: nat
    /** The committed rows. */
    var db: Database

    /** An empty or missing list of delays means three. */
    constructor (provider: Provider, model: nat, batchSize: int, maxBatchChars: int, delays: nat)
      ensures this.provider == provider && this.model == model && db == Database(map[], [], [])
      ensures retryDelays == if delays == 0 then 3 else delays
    {
      this.provider, this.model, this.batchSize, this.maxBatchChars := provider, model, batchSize, maxBatchChars;
      retryDelays := if delays == 0 then 3 else delays;
      db := Database(map[], [], []);
    }

    function Configured(): Settings {
      Settings(model, provider.backend.embed)
    }

    /** `_embed_and_persist_batch` on a session's rows. */
    method EmbedAndPersistBatch(session: Database, version: nat, batch: seq<Chunk>, force: bool)
        returns (r: Outcome<Database>)
      modifies provider
      ensures r.Ok? ==> r.value == Database(session.versions, MarkIndexed(session.chunks, Ids(batch)),
        PersistAll(session.embeddings, batch, version, Configured(), force))
    {
      var vectors := provider.EmbedBatchWithSplit(TextsOf(batch));
      if vectors.Raise? {
        return Raise(vectors.error);
      }
      SplitPreservesMeaning(provider.backend, TextsOf(batch), old(provider.calls));
      hide EmbedAll, Split;
      var work := session;
      for i := 0 to |batch|
        invariant work.versions == session.versions
        invariant work.chunks == MarkIndexed(session.chunks, Ids(batch[..i]))
        invariant PersistAll(work.embeddings, batch[i..], version, Configured(), force)
          == PersistAll(session.embeddings, batch, version, Configured(), force)
      {
        var chunk, vector := batch[i], vectors.value[i];
        VectorAt(provider.backend.embed, batch, i);
        if |vector| != provider.dimensions {
          return Raise(DimensionMismatch);
        }
        var rows := work.embeddings;
        if force || !HasMatch(rows, chunk, model) {
          rows := MarkStaleForChunkModel(rows, chunk.id, model);
        }
        var generation := NextGeneration(rows, chunk.id, model);
        if * {
          return Raise(StorageWriteError);
        }
        rows := rows + [Embedding(chunk.id, version, model, chunk.hash, generation, vector, Live)];
        assert rows == Persist(work.embeddings, chunk, version, Configured(), force);
        assert batch[i..][0] == chunk && batch[i..][1..] == batch[i + 1..];
        MarkMore(session.chunks, batch, i);
        work := Database(work.versions, MarkIndexed(work.chunks, {chunk.id}), rows);
      }
      assert batch[..|batch|] == batch;
      return Ok(work);
    }

    /** `_supersede_prior_versions`. */
    method SupersedePriorVersions(session: Database, version: nat) returns (r: Database)
      requires version in session.versions
      ensures r == Retired(session, version)
      ensures r.versions.Keys == session.versions.Keys
      ensures forall v | v in session.versions ::
        r.versions[v] == (
          if v != version && session.versions[v].document == session.versions[version].document
             && session.versions[v].status in {Indexed, Chunked, Indexing}
          then session.versions[v].(status := Superseded) else session.versions[v])
    {
      var priors := Priors(session.versions, version);
      var versions, siblings := session.versions, session.versions.Keys;
      while siblings != {}
        invariant siblings <= session.versions.Keys && versions.Keys == session.versions.Keys
        invariant forall v :: v in versions ==>
          versions[v] == if v in priors && v !in siblings then session.versions[v].(status := Superseded) else session.versions[v]
        decreases |siblings|
      {
        var sibling :| sibling in siblings;
        if sibling in priors {
          versions := versions[sibling := versions[sibling].(status := Superseded)];
        }
        siblings := siblings - {sibling};
      }
      r := Database(versions, MarkChunks(session.chunks, priors, ChunkSuperseded), MarkStaleForVersions(session.embeddings, priors));
    }

    /** The pending chunks of an attempt; the others are marked as indexed right away. */
    method SkipMatched(session: Database, chunks: seq<Chunk>, force: bool)
        returns (pending: seq<Chunk>, marked: seq<Chunk>, skipped: nat)
      ensures pending == PendingChunks(chunks, session.embeddings, model, force)
      ensures |pending| + skipped == |chunks|
      ensures MarkIndexed(marked, Ids(pending)) == MarkIndexed(session.chunks, Ids(chunks))
    {
      hide HasMatch, MarkIndexed, Ids, PendingChunks;
      pending, marked, skipped := [], session.chunks, 0;
      NothingMarked(session.chunks, chunks, session.embeddings, model, force);
      ghost var skippedIds: set<nat> := {};
      for i := 0 to |chunks|
        invariant pending + PendingChunks(chunks[i..], session.embeddings, model, force) == PendingChunks(chunks, session.embeddings, model, force)
        invariant |pending| + skipped == i
        invariant marked == MarkIndexed(session.chunks, skippedIds)
        invariant skippedIds + Ids(pending) == Ids(chunks[..i])
      {
        var chunk := chunks[i];
        NextPending(chunks, i, session.embeddings, model, force);
        assert chunks[..i + 1] == chunks[..i] + [chunk];
        IdsConcat(chunks[..i], [chunk]);
        if !force && HasMatch(session.embeddings, chunk, model) {
          skipped := skipped + 1;
          MarkTwice(session.chunks, skippedIds, {chunk.id});
          marked := MarkIndexed(marked, {chunk.id});
          skippedIds := skippedIds + {chunk.id};
        } else {
          Regroup(pending, [chunk], PendingChunks(chunks[i + 1..], session.embeddings, model, force),
            PendingChunks(chunks[i..], session.embeddings, model, force), PendingChunks(chunks, session.embeddings, model, force));
          IdsConcat(pending, [chunk]);
          pending := pending + [chunk];
        }
      }
      assert chunks[..|chunks|] == chunks;
      MarkTwice(session.chunks, skippedIds, Ids(pending));
      NothingMarked(session.chunks, chunks, session.embeddings, model, force);
    }

    /** All batches of an attempt, one after the other. */
    method EmbedPending(session: Database, version: nat, pending: seq<Chunk>, force: bool)
        returns (r: Outcome<Database>, created: nat)
      modifies provider
      ensures r.Ok? ==> created == |pending|
      ensures r.Ok? ==> r.value == Database(session.versions, MarkIndexed(session.chunks, Ids(pending)),
        PersistAll(session.embeddings, pending, version, Configured(), force))
    {
      var batches := IterBatches(pending, batchSize, maxBatchChars);
      BatchesSplit(pending, batchSize, maxBatchChars);
      hide Batches, PersistAll, Feasible;
      var work := session;
      created := 0;
      ghost var done: seq<Chunk> := [];
      NothingPersisted(session, version, Configured(), force);
      for k := 0 to |batches|
        invariant done + Concat(batches[k..]) == pending && created == |done|
        invariant work == Database(session.versions, MarkIndexed(session.chunks, Ids(done)),
          PersistAll(session.embeddings, done, version, Configured(), force))
      {
        r := EmbedAndPersistBatch(work, version, batches[k], force);
        if r.Raise? {
          return;
        }
        work := r.value;
        created := created + |batches[k]|;
        PersistAllConcat(session.embeddings, done, batches[k], version, Configured(), force);
        MarkTwice(session.chunks, Ids(done), Ids(batches[k]));
        IdsConcat(done, batches[k]);
        assert batches[k..][0] == batches[k] && batches[k..][1..] == batches[k + 1..];
        assert (done + batches[k]) + Concat(batches[k + 1..]) == done + (batches[k] + Concat(batches[k + 1..]));
        done := done + batches[k];
      }
      assert Concat(batches[|batches|..]) == [] && done == pending;
      r := Ok(work);
    }

    /** `_index_once`: what is done before the commit is lost when the attempt raises. */
    method IndexOnce(version: nat, force: bool) returns (r: Outcome<IndexingResult>)
      requires UniqueChunks(db.chunks)
      modifies this`db, provider
      ensures r.Ok? ==> Finishes(old(db), db, version, Configured(), force, r.value)
      ensures r.Raise? ==> db == old(db) || (r.error == EmptyChunkList && db == MarkedFailed(old(db), version, EmptyChunkList))
      ensures IsRefused(old(db), version) ==> r == Raise(UnknownError) && db == old(db)
      ensures IsRefused(old(db), version) <==>
        version !in old(db).versions || old(db).versions[version].status in {Uploaded, Extracting, Extracted, Chunking, Superseded}
    {
      hide PersistAll, PendingChunks, ListForVersion, HasMatch, MarkChunks, MarkIndexed, Retired, Priors, Completed;
      var session := db;
      if version !in session.versions {
        return Raise(UnknownError);
      }
      var status := session.versions[version].status;
      if status.Indexed? && !force {
        return Ok(IndexingResult(0, |ListForVersion(session.chunks, version)|));
      }
      if !IsIndexable(status) {
        return Raise(UnknownError);
      }
      session := WithStatus(session, version, Indexing);
      if * {
        return Raise(OtherException);
      }
      var chunks := ListForVersion(session.chunks, version);
      if chunks == [] {
        db := MarkedFailed(session, version, EmptyChunkList);
        return Raise(EmptyChunkList);
      }
      var pending, marked, skipped := SkipMatched(session, chunks, force);
      var embedded, created := EmbedPending(session.(chunks := marked), version, pending, force);
      if embedded.Raise? {
        return Raise(embedded.error);
      }
      session := embedded.value;
      ListMembers(db.chunks, version);
      PendingMembers(chunks, db.embeddings, model, force);
      PersistAllMatches(db.embeddings, pending, version, Configured(), force);
      MarkListed(db.chunks, version);
      var failed: int := 0;
      for k := 0 to |pending|
        invariant failed == 0
      {
        if !HasMatch(session.embeddings, pending[k], model) {
          failed := failed + 1;
        }
      }
      if failed != 0 {
        // partial_embedding_failure: every pending chunk has its match by now.
        assert false;
      }
      session := SupersedePriorVersions(session, version);
      FinishedSession(db, version, Configured(), force, embedded.value);
      session := WithStatus(session, version, Indexed);
      if * {
        return Raise(OtherException);
      }
      db := session;
      return Ok(IndexingResult(created, skipped));
    }

    /** `_mark_failed`, in a session of its own. */
    method MarkFailed(version: nat, reason: Error)
      modifies this`db
      ensures db == MarkedFailed(old(db), version, reason)
    {
      if version in db.versions {
        db := db.(versions := db.versions[version := db.versions[version].(status := Failed, reason := Some(reason))]);
      }
    }

    /**
     * `_run_with_retries`: the attempt that returns worked on the rows as they
     * were before the call, and a raise leaves the version failed with its code.
     */
    method RunWithRetries(version: nat, force: bool) returns (r: Outcome<IndexingResult>)
      requires UniqueChunks(db.chunks)
      modifies this`db, provider
      ensures r.Ok? ==> Finishes(old(db), db, version, Configured(), force, r.value)
      ensures r.Raise? ==> r.error != OtherException && db == MarkedFailed(old(db), version, r.error)
      ensures IsRefused(old(db), version) ==> r == Raise(UnknownError)
      ensures Consistent(old(db), model) ==> Consistent(db, model)
    {
      StepsKeep(db, version, Configured(), force);
      hide Consistent, Finishes, UniqueChunks;
      var attempts := Max(1, retryDelays + 1);
      var attempt := 0;
      while true
        invariant 0 <= attempt < attempts && db == old(db)
        decreases attempts - attempt
      {
        r := IndexOnce(version, force);
        if r.Ok? {
          return;
        }
        if r.error.EmptyChunkList? || r.error.DimensionMismatch? || attempt >= attempts - 1 {
          r := Raise(if r.error.OtherException? then UnknownError else r.error);
          MarkFailed(version, r.error);
          return;
        }
        attempt := attempt + 1;
      }
    }

    /** `index_document_version`. */
    method IndexDocumentVersion(version: nat) returns (r: Outcome<IndexingResult>)
      requires UniqueChunks(db.chunks)
      modifies this`db, provider
      ensures r.Ok? ==> Finishes(old(db), db, version, Configured(), false, r.value)
      ensures r.Raise? ==> r.error != OtherException && db == MarkedFailed(old(db), version, r.error)
      ensures IsSuperseded(old(db), version) ==> r == Raise(UnknownError) && db == MarkedFailed(old(db), version, UnknownError)
      ensures Consistent(old(db), model) ==> Consistent(db, model)
    {
      r := RunWithRetries(version, false);
    }

    /** `reindex_document_version`. */
    method ReindexDocumentVersion(version: nat) returns (r: Outcome<IndexingResult>)
      requires UniqueChunks(db.chunks)
      modifies this`db, provider
      ensures r.Ok? ==> Finishes(old(db), db, version, Configured(), true, r.value)
      ensures r.Raise? ==> r.error != OtherException && db == MarkedFailed(old(db), version, r.error)
      ensures IsSuperseded(old(db), version) ==> r == Raise(UnknownError) && db == MarkedFailed(old(db), version, UnknownError)
      ensures Consistent(old(db), model) ==> Consistent(db, model)
    {
      r := RunWithRetries(version, true);
    }

    /** `resume_failed_indexing`: refused, with nothing changed, outside three statuses. */
    method ResumeFailedIndexing(version: nat) returns (r: Outcome<IndexingResult>)
      requires UniqueChunks(db.chunks)
      modifies this`db, provider
      ensures !CanResume(old(db), version) ==> r == Raise(UnknownError) && db == old(db)
      ensures CanResume(old(db), version) <==>
        version in old(db).versions && old(db).versions[version].status in {Failed, Indexing, Chunked}
      ensures CanResume(old(db), version) && r.Ok? ==> Finishes(Resumed(old(db), version), db, version, Configured(), false, r.value)
      ensures CanResume(old(db), version) && r.Raise? ==> r.error != OtherException && db == MarkedFailed(old(db), version, r.error)
      ensures Consistent(old(db), model) ==> Consistent(db, model)
    {
      if version !in db.versions {
        return Raise(UnknownError);
      }
      var status := db.versions[version].status;
      if !status.Failed? && !status.Indexing? && !status.Chunked? {
        return Raise(UnknownError);
      }
      ResumedKeeps(db, version, Configured());
      hide Consistent, Finishes;
      if status.Failed? {
        db := WithStatus(db, version, Chunked);
      }
      r := IndexDocumentVersion(version);
    }
  }

  /** Whatever a call of the service commits is a step of the state machine. */
  lemma StepsKeep(db: Database, version: nat, s: Settings, force: bool)
    ensures forall b, result :: Consistent(db, s.model) && Finishes(db, b, version, s, force, result) ==> Consistent(b, s.model)
    ensures forall reason :: Consistent(db, s.model) ==> Consistent(MarkedFailed(db, version, reason), s.model)
  {
    hide Consistent, Completed, Priors, PendingChunks, ListForVersion, MarkedFailed;
    forall b, result | Consistent(db, s.model) && Finishes(db, b, version, s, force, result)
      ensures Consistent(b, s.model)
    {
      if b != db {
        StepKeeps(db, Completes(version, force), s);
      }
    }
    forall reason | Consistent(db, s.model)
      ensures Consistent(MarkedFailed(db, version, reason), s.model)
    {
      FailureKeeps(db, version, reason, s);
    }
  }

  /**
   * A returning call leaves the version indexed, the only one of its document,
   * and each of its chunks with a live vector of its own content.
   */
  lemma {:induction false} SuccessIndexesEverything(
      before: Database, after: Database, version: nat, s: Settings, force: bool, result: IndexingResult)
    requires Consistent(before, s.model) && Finishes(before, after, version, s, force, result)
    ensures version in after.versions && after.versions[version].status.Indexed?
    ensures forall k :: 0 <= k < |after.chunks| && IsListed(after.chunks[k], version) ==>
      after.chunks[k].status.ChunkIndexed? && HasMatch(after.embeddings, after.chunks[k], s.model)
    ensures forall v ::
      (v in after.versions && after.versions[v].status.Indexed? && after.versions[v].document == after.versions[version].document)
      ==> v == version
  {
    StepsKeep(before, version, s, force);
    hide HasMatch, OneLive, Rising, Owned, UniqueChunks, ListForVersion, PendingChunks, PersistAll, Priors;
    assert Consistent(after, s.model);
  }

  lemma FailureKeeps(db: Database, version: nat, reason: Error, s: Settings)
    requires Consistent(db, s.model)
    ensures Consistent(MarkedFailed(db, version, reason), s.model)
  {
    hide Consistent;
    if version in db.versions {
      StepKeeps(db, Fails(version, reason), s);
    }
  }

  lemma ResumedKeeps(db: Database, version: nat, s: Settings)
    requires CanResume(db, version)
    ensures Consistent(db, s.model) ==> Consistent(Resumed(db, version), s.model)
    ensures forall reason :: MarkedFailed(Resumed(db, version), version, reason) == MarkedFailed(db, version, reason)
  {
    hide Consistent;
    if Consistent(db, s.model) && db.versions[version].status.Failed? {
      StepKeeps(db, Resets(version), s);
    }
  }

  /** A session with all vectors stored and the prior versions retired is the finished attempt. */
  lemma FinishedSession(db: Database, version: nat, s: Settings, force: bool, session: Database)
    requires version in db.versions
    requires session == Database(WithStatus(db, version, Indexing).versions, MarkChunks(db.chunks, {version}, ChunkIndexed),
               PersistAll(db.embeddings, PendingChunks(ListForVersion(db.chunks, version), db.embeddings, s.model, force), version, s, force))
    ensures version in Retired(session, version).versions
    ensures WithStatus(Retired(session, version), version, Indexed) == Completed(db, version, s, force)
  {
    hide PersistAll, PendingChunks, ListForVersion;
    assert Priors(session.versions, version) == Priors(db.versions, version);
  }

  lemma NothingPersisted(session: Database, version: nat, s: Settings, force: bool)
    ensures session == Database(session.versions, MarkIndexed(session.chunks, Ids([])), PersistAll(session.embeddings, [], version, s, force))
  {
  }

  lemma NothingMarked(chunks: seq<Chunk>, todo: seq<Chunk>, rows: seq<Embedding>, model: nat, force: bool)
    ensures chunks == MarkIndexed(chunks, {}) && Ids([]) == {}
    ensures PendingChunks(todo[|todo|..], rows, model, force) == []
  {
  }

  lemma NextPending(todo: seq<Chunk>, i: nat, rows: seq<Embedding>, model: nat, force: bool)
    requires i < |todo|
    ensures Ids([todo[i]]) == {todo[i].id}
    ensures PendingChunks(todo[i..], rows, model, force)
      == (if !force && HasMatch(rows, todo[i], model) then [] else [todo[i]]) + PendingChunks(todo[i + 1..], rows, model, force)
  {
    assert todo[i..][0] == todo[i] && todo[i..][1..] == todo[i + 1..];
  }

  lemma IdsConcat(a: seq<Chunk>, b: seq<Chunk>)
    ensures Ids(a + b) == Ids(a) + Ids(b)
  {
  }

  lemma MarkTwice(chunks: seq<Chunk>, a: set<nat>, b: set<nat>)
    ensures MarkIndexed(MarkIndexed(chunks, a), b) == MarkIndexed(chunks, a + b)
  {
  }

  /** Marking the listed chunks by id is marking the version's chunks. */
  lemma MarkListed(chunks: seq<Chunk>, version: nat)
    requires UniqueChunks(chunks)
    ensures MarkIndexed(chunks, Ids(ListForVersion(chunks, version))) == MarkChunks(chunks, {version}, ChunkIndexed)
  {
    ListMembers(chunks, version);
    hide ListForVersion;
    var list := ListForVersion(chunks, version);
    forall i | 0 <= i < |chunks|
      ensures chunks[i].id in Ids(list) <==> IsListed(chunks[i], version)
    {
      if chunks[i].id in Ids(list) {
        var c :| c in list && c.id == chunks[i].id;
        var j :| 0 <= j < |chunks| && chunks[j] == c;
      }
    }
  }

  lemma {:induction false} VectorAt(embed: string -> Vector, batch: seq<Chunk>, i: nat)
    requires i < |batch|
    ensures EmbedAll(embed, TextsOf(batch))[i] == embed(batch[i].text)
  {
    if i > 0 {
      VectorAt(embed, batch[1..], i - 1);
    }
  }

  lemma MarkMore(chunks: seq<Chunk>, batch: seq<Chunk>, i: nat)
    requires i < |batch|
    ensures MarkIndexed(MarkIndexed(chunks, Ids(batch[..i])), {batch[i].id}) == MarkIndexed(chunks, Ids(batch[..i + 1]))
  {
    assert batch[..i + 1] == batch[..i] + [batch[i]];
    assert Ids(batch[..i + 1]) == Ids(batch[..i]) + {batch[i].id};
  }
}
