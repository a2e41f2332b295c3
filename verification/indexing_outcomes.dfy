/** What a finished attempt leaves, row by row, stated on the rows alone. */
module IndexingOutcomes {
  import opened IndexingDatabase
  import opened IndexingModels
  import opened IndexingRuns
  import opened PythonText

  /** Two versions of one document. */
  predicate AreSiblings(versions: map<nat, Version>, a: nat, b: nat) {
    a in versions && b in versions && a != b && versions[a].document == versions[b].document
  }

  /** No vector row of the version can be found by a search. */
  ghost predicate NoneLive(rows: seq<Embedding>, version: nat) {
    forall i :: 0 <= i < |rows| && rows[i].version == version ==> !rows[i].status.Live?
  }

  /** The chunks of the version that are there are marked as superseded; deleted ones stay deleted. */
  ghost predicate ChunksRetired(before: seq<Chunk>, after: seq<Chunk>, version: nat) {
    && |after| == |before|
    && forall k :: 0 <= k < |before| && before[k].version == version ==>
         after[k] == if before[k].status.ChunkDeleted? then before[k] else before[k].(status := ChunkSuperseded)
  }

  /** Status, chunks and vectors of the version are what they were. */
  ghost predicate Untouched(before: Database, after: Database, version: nat) {
    && version in before.versions && version in after.versions && after.versions[version] == before.versions[version]
    && |after.chunks| == |before.chunks| && |after.embeddings| >= |before.embeddings|
    && (forall k :: 0 <= k < |before.chunks| && before.chunks[k].version == version ==> after.chunks[k] == before.chunks[k])
    && (forall i :: 0 <= i < |before.embeddings| && before.embeddings[i].version == version ==>
          after.embeddings[i] == before.embeddings[i])
  }

  /**
   * A finished attempt retires every sibling that was indexed, chunked or in
   * the middle of indexing: its status, its chunks and all its vectors.
   */
  lemma {:induction false} FinishedRetires(db: Database, version: nat, s: Settings, force: bool, sibling: nat)
    requires AreSiblings(db.versions, version, sibling)
    requires var was := db.versions[sibling].status; was.Indexed? || was.Chunked? || was.Indexing?
    ensures
      var after := Completed(db, version, s, force);
      && sibling in after.versions && after.versions[sibling] == db.versions[sibling].(status := Superseded)
      && ChunksRetired(db.chunks, after.chunks, sibling) && NoneLive(after.embeddings, sibling)
  {
    hide PersistAll, PendingChunks, ListForVersion;
    assert sibling in Priors(db.versions, version);
  }

  /** An attempt can finish exactly on a version in one of four statuses, an indexed one only when forced, with a chunk that is not deleted. */
  lemma {:induction false} CanCompleteExactlyWhen(db: Database, version: nat, force: bool)
    requires UniqueChunks(db.chunks)
    ensures CanComplete(db, version, force) <==>
      && version in db.versions
      && (db.versions[version].status in {Chunked, Indexing, Failed} || (force && db.versions[version].status == Indexed))
      && exists c :: c in db.chunks && c.version == version && c.status != ChunkDeleted
  {
    ListMembers(db.chunks, version);
    hide ListForVersion, UniqueChunks;
    var list := ListForVersion(db.chunks, version);
    if list != [] {
      assert list[0] in list;
    }
  }

  /** After a finished attempt no sibling can be indexed any more, unless it has failed. */
  lemma {:induction false} FinishedIsAlone(db: Database, version: nat, s: Settings, force: bool, sibling: nat, again: bool)
    requires AreSiblings(db.versions, version, sibling)
    ensures
      var after := Completed(db, version, s, force);
      CanComplete(after, sibling, again) ==> after.versions[sibling].status.Failed? && db.versions[sibling].status.Failed?
  {
    hide PersistAll, PendingChunks, ListForVersion, MarkChunks;
    if db.versions[sibling].status.Indexed? || db.versions[sibling].status.Chunked? || db.versions[sibling].status.Indexing? {
      FinishedRetires(db, version, s, force, sibling);
    } else {
      assert sibling !in Priors(db.versions, version);
    }
  }

  lemma {:induction false} PersistLeaves(rows: seq<Embedding>, todo: seq<Chunk>, version: nat, s: Settings, force: bool, i: nat)
    requires i < |rows| && forall k :: 0 <= k < |todo| ==> todo[k].id != rows[i].chunk
    ensures |PersistAll(rows, todo, version, s, force)| == |rows| + |todo|
    ensures PersistAll(rows, todo, version, s, force)[i] == rows[i]
    decreases |todo|
  {
    if todo != [] {
      var next := Persist(rows, todo[0], version, s, force);
      assert next[i] == rows[i] && |next| == |rows| + 1;
      PersistLeaves(next, todo[1..], version, s, force, i);
    }
  }

  lemma {:induction false} PersistCount(rows: seq<Embedding>, todo: seq<Chunk>, version: nat, s: Settings, force: bool)
    ensures |PersistAll(rows, todo, version, s, force)| == |rows| + |todo|
    decreases |todo|
  {
    if todo != [] {
      PersistCount(Persist(rows, todo[0], version, s, force), todo[1..], version, s, force);
    }
  }

  /** The chunks an attempt embeds. */
  function ToEmbed(db: Database, version: nat, s: Settings, force: bool): seq<Chunk> {
    PendingChunks(ListForVersion(db.chunks, version), db.embeddings, s.model, force)
  }

  lemma {:induction false} ToEmbedMembers(db: Database, version: nat, s: Settings, force: bool)
    requires UniqueChunks(db.chunks)
    ensures UniqueChunks(ToEmbed(db, version, s, force))
    ensures forall j :: 0 <= j < |ToEmbed(db, version, s, force)| ==>
      ToEmbed(db, version, s, force)[j] in db.chunks && ToEmbed(db, version, s, force)[j].version == version
    ensures forall c :: c in db.chunks && IsListed(c, version) && (force || !HasMatch(db.embeddings, c, s.model)) ==>
      c in ToEmbed(db, version, s, force)
    ensures forall c :: c in ToEmbed(db, version, s, force) ==> force || !HasMatch(db.embeddings, c, s.model)
  {
    ListMembers(db.chunks, version);
    PendingMembers(ListForVersion(db.chunks, version), db.embeddings, s.model, force);
    hide PendingChunks, ListForVersion, HasMatch, UniqueChunks;
    assert forall j :: 0 <= j < |ToEmbed(db, version, s, force)| ==> ToEmbed(db, version, s, force)[j] in ToEmbed(db, version, s, force);
  }

  /** No chunk of this version has the id of another version's row. */
  lemma OthersIds(rows: seq<Embedding>, chunks: seq<Chunk>, version: nat, i: nat, c: Chunk)
    requires Owned(rows, chunks) && i < |rows| && rows[i].version != version && c in chunks && c.version == version
    ensures c.id != rows[i].chunk
  {
    var l :| 0 <= l < |chunks| && chunks[l] == c;
  }

  /** Every other version is left alone: siblings in other statuses and versions of other documents. */
  lemma {:induction false} FinishedLeaves(db: Database, version: nat, s: Settings, force: bool, other: nat)
    requires Consistent(db, s.model) && version in db.versions && other in db.versions && other != version
    requires
      var was := db.versions[other];
      was.document == db.versions[version].document ==> !was.status.Indexed? && !was.status.Chunked? && !was.status.Indexing?
    ensures Untouched(db, Completed(db, version, s, force), other)
  {
    var todo := ToEmbed(db, version, s, force);
    ToEmbedMembers(db, version, s, force);
    PersistCount(db.embeddings, todo, version, s, force);
    assert other !in Priors(db.versions, version);
    hide PersistAll, ToEmbed, PendingChunks, ListForVersion, OneLive, Rising, Covered, OneIndexed, HasMatch, UniqueChunks, Owned;
    forall i | 0 <= i < |db.embeddings| && db.embeddings[i].version == other
      ensures PersistAll(db.embeddings, todo, version, s, force)[i] == db.embeddings[i]
    {
      forall j | 0 <= j < |todo|
        ensures todo[j].id != db.embeddings[i].chunk
      {
        OthersIds(db.embeddings, db.chunks, version, i, todo[j]);
      }
      PersistLeaves(db.embeddings, todo, version, s, force, i);
    }
    RetiringLeaves(db, version, s, force, other, todo);
  }

  lemma RetiringLeaves(db: Database, version: nat, s: Settings, force: bool, other: nat, todo: seq<Chunk>)
    requires version in db.versions && other in db.versions && other != version && other !in Priors(db.versions, version)
    requires todo == PendingChunks(ListForVersion(db.chunks, version), db.embeddings, s.model, force)
    requires
      var rows := PersistAll(db.embeddings, todo, version, s, force);
      |rows| >= |db.embeddings|
      && forall i :: 0 <= i < |db.embeddings| && db.embeddings[i].version == other ==> rows[i] == db.embeddings[i]
    ensures Untouched(db, Completed(db, version, s, force), other)
  {
    hide PersistAll, PendingChunks, ListForVersion;
  }

  /** The row is this chunk's live vector: of its own text, with its own hash, newer than every row before. */
  ghost predicate IsFreshVector(e: Embedding, c: Chunk, s: Settings, before: seq<Embedding>) {
    && e.chunk == c.id && e.version == c.version && e.model == s.model && e.hash == c.hash
    && e.vector == s.embed(c.text) && e.status.Live?
    && forall i :: 0 <= i < |before| && before[i].chunk == c.id && before[i].model == s.model ==> before[i].generation < e.generation
  }

  lemma {:induction false} MaxGenerationStaled(rows: seq<Embedding>, chunk: nat, model: nat, staled: nat)
    ensures MaxGeneration(MarkStaleForChunkModel(rows, staled, model), chunk, model) == MaxGeneration(rows, chunk, model)
  {
    if rows != [] {
      var r := MarkStaleForChunkModel(rows, staled, model);
      assert r[1..] == MarkStaleForChunkModel(rows[1..], staled, model);
      MaxGenerationStaled(rows[1..], chunk, model, staled);
    }
  }

  /** Row number `|rows| + k` is the vector of the k-th chunk stored. */
  lemma {:induction false} StoredInOrder(rows: seq<Embedding>, todo: seq<Chunk>, version: nat, s: Settings, force: bool, k: nat)
    requires UniqueChunks(todo) && k < |todo| && forall j :: 0 <= j < |todo| ==> todo[j].version == version
    ensures
      var r := PersistAll(rows, todo, version, s, force);
      |r| == |rows| + |todo| && IsFreshVector(r[|rows| + k], todo[k], s, rows)
    decreases |todo|
  {
    PersistCount(rows, todo, version, s, force);
    var c := todo[0];
    var next := Persist(rows, c, version, s, force);
    hide *;
    PersistIsFresh(rows, c, version, s, force);
    LaterIdsDiffer(todo);
    NextPersist(rows, todo, version, s, force);
    if k == 0 {
      PersistLeaves(next, todo[1..], version, s, force, |rows|);
    } else {
      assert todo[1..][k - 1] == todo[k];
      StoredInOrder(next, todo[1..], version, s, force, k - 1);
      StillFresh(PersistAll(rows, todo, version, s, force)[|rows| + k], todo[k], s, rows, next);
    }
  }

  lemma PersistIsFresh(rows: seq<Embedding>, c: Chunk, version: nat, s: Settings, force: bool)
    requires c.version == version
    ensures
      var next := Persist(rows, c, version, s, force);
      && |next| == |rows| + 1 && IsFreshVector(next[|rows|], c, s, rows) && next[|rows|].chunk == c.id
      && forall i :: 0 <= i < |rows| ==>
           next[i].chunk == rows[i].chunk && next[i].model == rows[i].model && next[i].generation == rows[i].generation
  {
    hide MaxGeneration, HasMatch;
    var next := Persist(rows, c, version, s, force);
    MaxGenerationStaled(rows, c.id, s.model, c.id);
    forall i | 0 <= i < |rows| && rows[i].chunk == c.id && rows[i].model == s.model
      ensures rows[i].generation < next[|rows|].generation
    {
      MaxGenerationBounds(rows, i, c.id, s.model);
    }
  }

  lemma StillFresh(e: Embedding, c: Chunk, s: Settings, before: seq<Embedding>, next: seq<Embedding>)
    requires IsFreshVector(e, c, s, next) && |before| <= |next|
    requires forall i :: 0 <= i < |before| ==>
      next[i].chunk == before[i].chunk && next[i].model == before[i].model && next[i].generation == before[i].generation
    ensures IsFreshVector(e, c, s, before)
  {
  }

  lemma NextPersist(rows: seq<Embedding>, todo: seq<Chunk>, version: nat, s: Settings, force: bool)
    requires todo != []
    ensures PersistAll(rows, todo, version, s, force) == PersistAll(Persist(rows, todo[0], version, s, force), todo[1..], version, s, force)
  {
  }

  lemma LaterIdsDiffer(todo: seq<Chunk>)
    requires UniqueChunks(todo) && todo != []
    ensures UniqueChunks(todo[1..]) && forall k :: 0 <= k < |todo[1..]| ==> todo[1..][k].id != todo[0].id
  {
  }

  /** A live vector of the chunk with the hash of its content. */
  ghost predicate IsStored(rows: seq<Embedding>, c: Chunk, model: nat) {
    exists i :: 0 <= i < |rows| && rows[i].chunk == c.id && rows[i].model == model && rows[i].hash == c.hash && rows[i].status == Live
  }

  lemma StoredIsMatch(rows: seq<Embedding>, c: Chunk, model: nat)
    ensures HasMatch(rows, c, model) <==> IsStored(rows, c, model)
  {
    if HasMatch(rows, c, model) {
      var i :| 0 <= i < |rows| && Matches(rows[i], c, model);
      assert rows[i].chunk == c.id;
    }
    if IsStored(rows, c, model) {
      var i :| 0 <= i < |rows| && rows[i].chunk == c.id && rows[i].model == model && rows[i].hash == c.hash && rows[i].status == Live;
      assert Matches(rows[i], c, model);
    }
  }

  /**
   * A finished attempt embeds each chunk it had to: a chunk of the version
   * without a match, or any chunk when forced, gets a live vector of its own text.
   */
  lemma {:induction false} FinishedEmbeds(db: Database, version: nat, s: Settings, force: bool, c: Chunk)
    requires Consistent(db, s.model) && version in db.versions && c in db.chunks && IsListed(c, version)
    requires force || !IsStored(db.embeddings, c, s.model)
    ensures
      var after := Completed(db, version, s, force);
      exists i :: |db.embeddings| <= i < |after.embeddings| && IsFreshVector(after.embeddings[i], c, s, db.embeddings)
  {
    hide *;
    var todo := ToEmbed(db, version, s, force);
    ConsistentIsUnique(db, s.model);
    StoredIsMatch(db.embeddings, c, s.model);
    ToEmbedMembers(db, version, s, force);
    NotPrior(db, version, s, force, todo);
    var k :| 0 <= k < |todo| && todo[k] == c;
    StoredInOrder(db.embeddings, todo, version, s, force, k);
    var rows := PersistAll(db.embeddings, todo, version, s, force);
    FreshVersion(rows[|db.embeddings| + k], c, s, db.embeddings, version);
  }

  /** Unless forced, a finished attempt leaves alone what is stored already. */
  lemma {:induction false} FinishedSkips(db: Database, version: nat, s: Settings, c: Chunk)
    requires Consistent(db, s.model) && version in db.versions && c in db.chunks && IsStored(db.embeddings, c, s.model)
    ensures
      var after := Completed(db, version, s, false).embeddings;
      forall i :: |db.embeddings| <= i < |after| ==> after[i].chunk != c.id
  {
    hide *;
    var todo, after := ToEmbed(db, version, s, false), Completed(db, version, s, false).embeddings;
    var rows, n := PersistAll(db.embeddings, todo, version, s, false), |db.embeddings|;
    ConsistentIsUnique(db, s.model);
    StoredIsMatch(db.embeddings, c, s.model);
    ToEmbedMembers(db, version, s, false);
    RowsAfter(db, version, s, false, todo);
    PersistCount(db.embeddings, todo, version, s, false);
    forall i | n <= i < |after|
      ensures after[i].chunk != c.id
    {
      StoredInOrder(db.embeddings, todo, version, s, false, i - n);
      FreshChunk(rows[n + (i - n)], todo[i - n], s, db.embeddings);
      DifferentIds(db.chunks, todo[i - n], c);
    }
  }

  lemma FreshChunk(e: Embedding, c: Chunk, s: Settings, before: seq<Embedding>)
    requires IsFreshVector(e, c, s, before)
    ensures e.chunk == c.id && e.version == c.version && e.hash == c.hash && e.vector == s.embed(c.text)
  {
  }

  lemma DifferentIds(chunks: seq<Chunk>, a: Chunk, b: Chunk)
    requires UniqueChunks(chunks) && a in chunks && b in chunks && a != b
    ensures a.id != b.id
  {
    var i :| 0 <= i < |chunks| && chunks[i] == a;
    var j :| 0 <= j < |chunks| && chunks[j] == b;
    assert i < j || j < i;
  }

  /** Retiring siblings changes no row but for its status. */
  lemma RowsAfter(db: Database, version: nat, s: Settings, force: bool, todo: seq<Chunk>)
    requires version in db.versions && todo == ToEmbed(db, version, s, force)
    ensures
      var rows, after := PersistAll(db.embeddings, todo, version, s, force), Completed(db, version, s, force).embeddings;
      |after| == |rows| && forall i :: 0 <= i < |rows| ==> after[i] == rows[i].(status := after[i].status)
  {
    hide PersistAll, PendingChunks, ListForVersion, Priors;
  }

  lemma ConsistentIsUnique(db: Database, model: nat)
    requires Consistent(db, model)
    ensures UniqueChunks(db.chunks)
  {
  }

  lemma FreshVersion(e: Embedding, c: Chunk, s: Settings, before: seq<Embedding>, version: nat)
    requires IsFreshVector(e, c, s, before) && IsListed(c, version)
    ensures e.version == version
  {
  }

  /** Retiring siblings leaves the rows of the version itself. */
  lemma NotPrior(db: Database, version: nat, s: Settings, force: bool, todo: seq<Chunk>)
    requires version in db.versions && todo == ToEmbed(db, version, s, force)
    ensures
      var rows, after := PersistAll(db.embeddings, todo, version, s, force), Completed(db, version, s, force).embeddings;
      |after| == |rows| && forall i :: 0 <= i < |rows| && rows[i].version == version ==> after[i] == rows[i]
  {
    hide PersistAll, PendingChunks, ListForVersion;
  }
}
