/** The rows indexing works on, and what each committed step does to them. */
module IndexingDatabase {
  import opened IndexingModels
  import opened PythonText
  import opened Sorting

  datatype Database = Database(versions: map<nat, Version>, chunks: seq<Chunk>, embeddings: seq<Embedding>)

  /** The configured embedding model and its vectors. */
  datatype Settings = Settings(model: nat, embed: string -> Vector)

  // -------------------------------------------------------- repositories

  predicate IsFor(e: Embedding, chunk: nat, model: nat) {
    e.chunk == chunk && e.model == model
  }

  predicate Matches(e: Embedding, c: Chunk, model: nat) {
    IsFor(e, c.id, model) && e.hash == c.hash && e.status.Live?
  }

  /** `find_active_match` finds a row. */
  predicate HasMatch(rows: seq<Embedding>, c: Chunk, model: nat) {
    exists i :: 0 <= i < |rows| && Matches(rows[i], c, model)
  }

  function MaxGeneration(rows: seq<Embedding>, chunk: nat, model: nat): nat {
    if rows == [] then 0
    else
      var rest := MaxGeneration(rows[1..], chunk, model);
      if IsFor(rows[0], chunk, model) then Max(rows[0].generation, rest) else rest
  }

  /** `next_generation`. */
  function NextGeneration(rows: seq<Embedding>, chunk: nat, model: nat): nat {
    MaxGeneration(rows, chunk, model) + 1
  }

  function Staled(e: Embedding, stale: bool): Embedding {
    if stale && e.status.Live? then e.(status := Stale) else e
  }

  /** `mark_stale_for_chunk_model`. */
  function MarkStaleForChunkModel(rows: seq<Embedding>, chunk: nat, model: nat): seq<Embedding> {
    seq(|rows|, i requires 0 <= i < |rows| => Staled(rows[i], IsFor(rows[i], chunk, model)))
  }

  /** `mark_stale_for_versions`. */
  function MarkStaleForVersions(rows: seq<Embedding>, versions: set<nat>): seq<Embedding> {
    seq(|rows|, i requires 0 <= i < |rows| => Staled(rows[i], rows[i].version in versions))
  }

  function Marked(c: Chunk, versions: set<nat>, status: ChunkStatus): Chunk {
    if c.version in versions && !c.status.ChunkDeleted? then c.(status := status) else c
  }

  /** `mark_superseded_for_versions`, and the same update to another status. */
  function MarkChunks(chunks: seq<Chunk>, versions: set<nat>, status: ChunkStatus): seq<Chunk> {
    seq(|chunks|, i requires 0 <= i < |chunks| => Marked(chunks[i], versions, status))
  }

  predicate IsListed(c: Chunk, version: nat) {
    c.version == version && !c.status.ChunkDeleted?
  }

  function OfVersion(chunks: seq<Chunk>, version: nat): seq<Chunk> {
    if chunks == [] then []
    else (if IsListed(chunks[0], version) then [chunks[0]] else []) + OfVersion(chunks[1..], version)
  }

  predicate ByNumber(a: Chunk, b: Chunk) { a.number <= b.number }

  /** `list_for_version`. */
  function ListForVersion(chunks: seq<Chunk>, version: nat): seq<Chunk> {
    Sort(OfVersion(chunks, version), ByNumber)
  }

  // ----------------------------------------------------- one indexing run

  /** The chunks that still need a vector. */
  function PendingChunks(todo: seq<Chunk>, rows: seq<Embedding>, model: nat, force: bool): seq<Chunk> {
    if todo == [] then []
    else
      (if force || !HasMatch(rows, todo[0], model) then [todo[0]] else [])
      + PendingChunks(todo[1..], rows, model, force)
  }

  /** Storing one vector. */
  function Persist(rows: seq<Embedding>, c: Chunk, version: nat, s: Settings, force: bool): seq<Embedding> {
    var kept := if force || !HasMatch(rows, c, s.model) then MarkStaleForChunkModel(rows, c.id, s.model) else rows;
    kept + [Embedding(c.id, version, s.model, c.hash, NextGeneration(kept, c.id, s.model), s.embed(c.text), Live)]
  }

  function PersistAll(rows: seq<Embedding>, todo: seq<Chunk>, version: nat, s: Settings, force: bool): seq<Embedding>
    decreases |todo|
  {
    if todo == [] then rows else PersistAll(Persist(rows, todo[0], version, s, force), todo[1..], version, s, force)
  }

  /** The siblings that `_supersede_prior_versions` retires. */
  function Priors(versions: map<nat, Version>, version: nat): set<nat>
    requires version in versions
  {
    set v | v in versions && v != version && versions[v].document == versions[version].document
            && (versions[v].status.Indexed? || versions[v].status.Chunked? || versions[v].status.Indexing?)
  }

  function Promoted(versions: map<nat, Version>, version: nat): map<nat, Version>
    requires version in versions
  {
    map v | v in versions ::
      if v == version then versions[v].(status := Indexed, reason := None)
      else if v in Priors(versions, version) then versions[v].(status := Superseded)
      else versions[v]
  }

  /** What a committed `_index_once` leaves. */
  function Completed(db: Database, version: nat, s: Settings, force: bool): Database
    requires version in db.versions
  {
    var priors := Priors(db.versions, version);
    var todo := PendingChunks(ListForVersion(db.chunks, version), db.embeddings, s.model, force);
    Database(
      Promoted(db.versions, version),
      MarkChunks(MarkChunks(db.chunks, {version}, ChunkIndexed), priors, ChunkSuperseded),
      MarkStaleForVersions(PersistAll(db.embeddings, todo, version, s, force), priors))
  }

  /** `_mark_failed`; a version that does not exist is left alone. */
  function MarkedFailed(db: Database, version: nat, reason: Error): Database {
    if version !in db.versions then db
    else db.(versions := db.versions[version := db.versions[version].(status := Failed, reason := Some(reason))])
  }

  // ---------------------------------------------------------- invariants

  ghost predicate UniqueChunks(chunks: seq<Chunk>) {
    forall i, j :: 0 <= i < j < |chunks| ==> chunks[i].id != chunks[j].id
  }

  /** Every vector carries the version of its chunk. */
  ghost predicate Owned(rows: seq<Embedding>, chunks: seq<Chunk>) {
    forall i, k :: 0 <= i < |rows| && 0 <= k < |chunks| && rows[i].chunk == chunks[k].id ==> rows[i].version == chunks[k].version
  }

  predicate SameKey(a: Embedding, b: Embedding) {
    a.chunk == b.chunk && a.model == b.model
  }

  /** At most one live vector per chunk and model. */
  ghost predicate OneLive(rows: seq<Embedding>) {
    forall i, j :: 0 <= i < j < |rows| && SameKey(rows[i], rows[j]) ==> !(rows[i].status.Live? && rows[j].status.Live?)
  }

  /** Generations strictly increase along the vectors of one chunk and model. */
  ghost predicate Rising(rows: seq<Embedding>) {
    forall i, j :: 0 <= i < j < |rows| && SameKey(rows[i], rows[j]) ==> rows[i].generation < rows[j].generation
  }

  /** At most one version per document is indexed. */
  ghost predicate OneIndexed(versions: map<nat, Version>) {
    forall v, w ::
      (v in versions && w in versions && versions[v].status.Indexed? && versions[w].status.Indexed?
       && versions[v].document == versions[w].document)
      ==> v == w
  }

  /** A chunk that is there of a version that is indexed. */
  predicate IsCurrent(versions: map<nat, Version>, c: Chunk) {
    c.version in versions && versions[c.version].status.Indexed? && !c.status.ChunkDeleted?
  }

  ghost predicate Covered(db: Database, model: nat) {
    forall k :: 0 <= k < |db.chunks| && IsCurrent(db.versions, db.chunks[k]) ==>
      db.chunks[k].status.ChunkIndexed? && HasMatch(db.embeddings, db.chunks[k], model)
  }

  ghost predicate Consistent(db: Database, model: nat) {
    && UniqueChunks(db.chunks) && Owned(db.embeddings, db.chunks)
    && OneLive(db.embeddings) && Rising(db.embeddings)
    && OneIndexed(db.versions) && Covered(db, model)
  }

  // ------------------------------------------------------ storing vectors

  lemma {:induction false} MaxGenerationBounds(rows: seq<Embedding>, i: nat, chunk: nat, model: nat)
    requires i < |rows| && IsFor(rows[i], chunk, model)
    ensures rows[i].generation <= MaxGeneration(rows, chunk, model)
  {
    if i > 0 {
      MaxGenerationBounds(rows[1..], i - 1, chunk, model);
    }
  }

  lemma StalingKeeps(rows: seq<Embedding>, chunk: nat, model: nat)
    requires OneLive(rows) && Rising(rows)
    ensures OneLive(MarkStaleForChunkModel(rows, chunk, model)) && Rising(MarkStaleForChunkModel(rows, chunk, model))
  {
    var r := MarkStaleForChunkModel(rows, chunk, model);
    forall i, j | 0 <= i < j < |r| && SameKey(r[i], r[j])
      ensures !(r[i].status.Live? && r[j].status.Live?) && r[i].generation < r[j].generation
    {
      assert SameKey(rows[i], rows[j]);
    }
  }

  lemma {:induction false} PersistKeeps(rows: seq<Embedding>, c: Chunk, version: nat, s: Settings, force: bool)
    requires OneLive(rows) && Rising(rows) && (force || !HasMatch(rows, c, s.model))
    ensures OneLive(Persist(rows, c, version, s, force)) && Rising(Persist(rows, c, version, s, force))
    ensures HasMatch(Persist(rows, c, version, s, force), c, s.model)
  {
    StalingKeeps(rows, c.id, s.model);
    var kept := MarkStaleForChunkModel(rows, c.id, s.model);
    var r := Persist(rows, c, version, s, force);
    forall i | 0 <= i < |kept| && IsFor(kept[i], c.id, s.model)
      ensures !kept[i].status.Live? && kept[i].generation < r[|kept|].generation
    {
      MaxGenerationBounds(kept, i, c.id, s.model);
    }
    assert Matches(r[|kept|], c, s.model);
  }

  /** Storing a vector for one chunk leaves the matches of every other chunk as they were. */
  lemma PersistFrame(rows: seq<Embedding>, c: Chunk, version: nat, s: Settings, force: bool, other: Chunk, model: nat)
    requires c.id != other.id
    ensures HasMatch(Persist(rows, c, version, s, force), other, model) <==> HasMatch(rows, other, model)
  {
    var r := Persist(rows, c, version, s, force);
    assert forall i :: 0 <= i < |rows| ==> (Matches(r[i], other, model) <==> Matches(rows[i], other, model));
    assert !Matches(r[|rows|], other, model);
  }

  lemma {:induction false} PersistAllFrame(rows: seq<Embedding>, todo: seq<Chunk>, version: nat, s: Settings, force: bool, other: Chunk, model: nat)
    requires forall k :: 0 <= k < |todo| ==> todo[k].id != other.id
    ensures HasMatch(PersistAll(rows, todo, version, s, force), other, model) <==> HasMatch(rows, other, model)
    decreases |todo|
  {
    hide Persist, HasMatch;
    if todo != [] {
      PersistFrame(rows, todo[0], version, s, force, other, model);
      PersistAllFrame(Persist(rows, todo[0], version, s, force), todo[1..], version, s, force, other, model);
    }
  }

  lemma {:induction false} PersistAllKeeps(rows: seq<Embedding>, todo: seq<Chunk>, version: nat, s: Settings, force: bool)
    requires OneLive(rows) && Rising(rows) && UniqueChunks(todo)
    requires force || forall k :: 0 <= k < |todo| ==> !HasMatch(rows, todo[k], s.model)
    ensures OneLive(PersistAll(rows, todo, version, s, force)) && Rising(PersistAll(rows, todo, version, s, force))
    ensures forall k :: 0 <= k < |todo| ==> HasMatch(PersistAll(rows, todo, version, s, force), todo[k], s.model)
    decreases |todo|
  {
    hide OneLive, Rising, Persist, HasMatch;
    if todo != [] {
      var next := Persist(rows, todo[0], version, s, force);
      PersistKeeps(rows, todo[0], version, s, force);
      forall k | 0 < k < |todo|
        ensures HasMatch(next, todo[k], s.model) <==> HasMatch(rows, todo[k], s.model)
      {
        PersistFrame(rows, todo[0], version, s, force, todo[k], s.model);
      }
      PersistAllKeeps(next, todo[1..], version, s, force);
      PersistAllFrame(next, todo[1..], version, s, force, todo[0], s.model);
      forall k | 0 <= k < |todo|
        ensures HasMatch(PersistAll(rows, todo, version, s, force), todo[k], s.model)
      {
        if k > 0 {
          assert todo[k] == todo[1..][k - 1];
        }
      }
    }
  }

  lemma PersistOwned(rows: seq<Embedding>, c: Chunk, version: nat, s: Settings, force: bool, chunks: seq<Chunk>)
    requires Owned(rows, chunks) && forall k :: 0 <= k < |chunks| && chunks[k].id == c.id ==> chunks[k].version == version
    ensures Owned(Persist(rows, c, version, s, force), chunks)
  {
    var r := Persist(rows, c, version, s, force);
    forall i, k | 0 <= i < |r| && 0 <= k < |chunks| && r[i].chunk == chunks[k].id
      ensures r[i].version == chunks[k].version
    {
      if i < |rows| {
        assert rows[i].chunk == chunks[k].id;
      }
    }
  }

  lemma {:induction false} PersistAllOwned(rows: seq<Embedding>, todo: seq<Chunk>, version: nat, s: Settings, force: bool, chunks: seq<Chunk>)
    requires Owned(rows, chunks)
    requires forall j, k :: 0 <= j < |todo| && 0 <= k < |chunks| && chunks[k].id == todo[j].id ==> chunks[k].version == version
    ensures Owned(PersistAll(rows, todo, version, s, force), chunks)
    decreases |todo|
  {
    hide Owned, Persist;
    if todo != [] {
      PersistOwned(rows, todo[0], version, s, force, chunks);
      PersistAllOwned(Persist(rows, todo[0], version, s, force), todo[1..], version, s, force, chunks);
    }
  }

  // --------------------------------------------------- the loops' shapes

  lemma {:induction false} PersistAllConcat(rows: seq<Embedding>, a: seq<Chunk>, b: seq<Chunk>, version: nat, s: Settings, force: bool)
    ensures PersistAll(rows, a + b, version, s, force) == PersistAll(PersistAll(rows, a, version, s, force), b, version, s, force)
    decreases |a|
  {
    hide Persist;
    if a == [] {
      assert a + b == b;
    } else {
      assert (a + b)[1..] == a[1..] + b;
      PersistAllConcat(Persist(rows, a[0], version, s, force), a[1..], b, version, s, force);
    }
  }

  /** Storing a chunk's vector leaves a match behind, and later chunks do not undo it. */
  lemma {:induction false} PersistAllMatches(rows: seq<Embedding>, todo: seq<Chunk>, version: nat, s: Settings, force: bool)
    requires UniqueChunks(todo)
    ensures forall k :: 0 <= k < |todo| ==> HasMatch(PersistAll(rows, todo, version, s, force), todo[k], s.model)
    decreases |todo|
  {
    if todo != [] {
      var next := Persist(rows, todo[0], version, s, force);
      assert Matches(next[|rows|], todo[0], s.model);
      hide Persist, HasMatch, Matches;
      PersistAllMatches(next, todo[1..], version, s, force);
      PersistAllFrame(next, todo[1..], version, s, force, todo[0], s.model);
      forall k | 0 <= k < |todo|
        ensures HasMatch(PersistAll(rows, todo, version, s, force), todo[k], s.model)
      {
        assert k > 0 ==> todo[k] == todo[1..][k - 1];
      }
    }
  }

  /** `chunk.status = INDEXED` for some chunks. */
  function MarkIndexed(chunks: seq<Chunk>, ids: set<nat>): seq<Chunk> {
    seq(|chunks|, i requires 0 <= i < |chunks| => if chunks[i].id in ids then chunks[i].(status := ChunkIndexed) else chunks[i])
  }

  function Ids(chunks: seq<Chunk>): set<nat> {
    set c | c in chunks :: c.id
  }
}
