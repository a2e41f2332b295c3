/** Runs of the indexing state machine, with attempts that fail and versions that come and go. */
module IndexingRuns {
  import opened IndexingDatabase
  import opened IndexingModels
  import opened PythonText
  import opened Sorting

  /**
   * One committed step. `Completes` is a whole successful attempt; a failed
   * one leaves no trace but `Fails`. `Resets` is the first half of a resume.
   * The others belong to the upload, processing, chunking and deletion services.
   */
  datatype Event =
    | Completes(version: nat, force: bool)
    | Fails(version: nat, reason: Error)
    | Resets(version: nat)
    | Arrives(version: nat, document: nat)
    | Moves(version: nat, status: ProcessingStatus)
    | Rechunks(version: nat, chunks: seq<Chunk>)
    | Removes(document: nat)

  predicate IsIndexable(status: ProcessingStatus) {
    status.Chunked? || status.Indexing? || status.Failed? || status.Indexed?
  }

  predicate CanComplete(db: Database, version: nat, force: bool) {
    && version in db.versions && IsIndexable(db.versions[version].status)
    && (db.versions[version].status.Indexed? ==> force)
    && ListForVersion(db.chunks, version) != []
  }

  /** Fresh chunks of one version, as the chunking service makes them. */
  ghost predicate FreshChunks(db: Database, version: nat, chunks: seq<Chunk>) {
    && UniqueChunks(chunks)
    && (forall k :: 0 <= k < |chunks| ==> chunks[k].version == version && chunks[k].status.ChunkCreated?)
    && (forall k, j :: 0 <= k < |chunks| && 0 <= j < |db.chunks| ==> chunks[k].id != db.chunks[j].id)
    && (forall k, i :: 0 <= k < |chunks| && 0 <= i < |db.embeddings| ==> chunks[k].id != db.embeddings[i].chunk)
  }

  ghost predicate Enabled(db: Database, event: Event) {
    match event
    case Completes(v, force) => CanComplete(db, v, force)
    case Fails(v, _) => v in db.versions
    case Resets(v) => v in db.versions && db.versions[v].status.Failed?
    case Arrives(v, _) => v !in db.versions
    case Moves(v, status) => v in db.versions && (status.Extracting? || status.Extracted? || status.Chunking?)
    case Rechunks(v, chunks) => v in db.versions && FreshChunks(db, v, chunks)
    case Removes(_) => true
  }

  function WithoutRows(rows: seq<Embedding>, versions: set<nat>): seq<Embedding> {
    if rows == [] then []
    else (if rows[0].version in versions then [] else [rows[0]]) + WithoutRows(rows[1..], versions)
  }

  function WithoutChunks(chunks: seq<Chunk>, versions: set<nat>): seq<Chunk> {
    if chunks == [] then []
    else (if chunks[0].version in versions then [] else [chunks[0]]) + WithoutChunks(chunks[1..], versions)
  }

  function WithStatus(db: Database, version: nat, status: ProcessingStatus): Database
    requires version in db.versions
  {
    db.(versions := db.versions[version := db.versions[version].(status := status, reason := None)])
  }

  function Apply(db: Database, event: Event, s: Settings): Database
    requires Enabled(db, event)
  {
    match event
    case Completes(v, force) => Completed(db, v, s, force)
    case Fails(v, reason) => MarkedFailed(db, v, reason)
    case Resets(v) => WithStatus(db, v, Chunked)
    case Arrives(v, document) => db.(versions := db.versions[v := Version(document, Uploaded, None)])
    case Moves(v, status) => WithStatus(db, v, status)
    case Rechunks(v, chunks) =>
      WithStatus(db, v, Chunked).(chunks := WithoutChunks(db.chunks, {v}) + chunks, embeddings := WithoutRows(db.embeddings, {v}))
    case Removes(document) =>
      var gone := set v | v in db.versions && db.versions[v].document == document;
      Database(db.versions - gone, WithoutChunks(db.chunks, gone), WithoutRows(db.embeddings, gone))
  }

  ghost predicate IsRun(db: Database, events: seq<Event>, s: Settings)
    decreases |events|
  {
    events == [] || (Enabled(db, events[0]) && IsRun(Apply(db, events[0], s), events[1..], s))
  }

  function After(db: Database, events: seq<Event>, s: Settings): Database
    requires IsRun(db, events, s)
    decreases |events|
  {
    if events == [] then db else After(Apply(db, events[0], s), events[1..], s)
  }

  // --------------------------------------------------- the chunks to index

  lemma {:induction false} OfVersionMembers(chunks: seq<Chunk>, version: nat)
    requires UniqueChunks(chunks)
    ensures forall c :: c in OfVersion(chunks, version) <==> c in chunks && IsListed(c, version)
    ensures NoDups(OfVersion(chunks, version))
  {
    if chunks != [] {
      OfVersionMembers(chunks[1..], version);
      assert forall c :: c in chunks <==> c == chunks[0] || c in chunks[1..];
      assert chunks[0] !in chunks[1..];
    }
  }

  lemma IdsTellApart(all: seq<Chunk>, chunks: seq<Chunk>)
    requires UniqueChunks(all) && NoDups(chunks) && forall c :: c in chunks ==> c in all
    ensures UniqueChunks(chunks)
  {
    forall i, j | 0 <= i < j < |chunks|
      ensures chunks[i].id != chunks[j].id
    {
      assert chunks[i] in all && chunks[j] in all;
      var k :| 0 <= k < |all| && all[k] == chunks[i];
      var l :| 0 <= l < |all| && all[l] == chunks[j];
      assert k != l;
    }
  }

  lemma {:induction false} ListMembers(chunks: seq<Chunk>, version: nat)
    requires UniqueChunks(chunks)
    ensures forall c :: c in ListForVersion(chunks, version) <==> c in chunks && IsListed(c, version)
    ensures UniqueChunks(ListForVersion(chunks, version))
  {
    OfVersionMembers(chunks, version);
    hide OfVersion;
    SortMembers(OfVersion(chunks, version), ByNumber);
    SortPermutes(OfVersion(chunks, version), ByNumber);
    NoDupsCarries(OfVersion(chunks, version), ListForVersion(chunks, version));
    IdsTellApart(chunks, ListForVersion(chunks, version));
  }

  /** They come by their sequence numbers. */
  lemma {:induction false} ListInOrder(chunks: seq<Chunk>, version: nat, i: nat, j: nat)
    requires i < j < |ListForVersion(chunks, version)|
    ensures ListForVersion(chunks, version)[i].number <= ListForVersion(chunks, version)[j].number
  {
    SortSorts(OfVersion(chunks, version), ByNumber);
    hide Sort, OfVersion;
    assert ByNumber(ListForVersion(chunks, version)[i], ListForVersion(chunks, version)[j]);
  }

  lemma {:induction false} PendingMembers(todo: seq<Chunk>, rows: seq<Embedding>, model: nat, force: bool)
    requires UniqueChunks(todo)
    ensures
      forall c :: c in PendingChunks(todo, rows, model, force) <==> c in todo && (force || !HasMatch(rows, c, model))
    ensures UniqueChunks(PendingChunks(todo, rows, model, force))
  {
    hide HasMatch;
    if todo != [] {
      PendingMembers(todo[1..], rows, model, force);
      assert forall c :: c in todo <==> c == todo[0] || c in todo[1..];
      assert forall c :: c in todo[1..] ==> c.id != todo[0].id;
    }
  }

  // ------------------------------------------------------ a finished attempt

  lemma VersionStalingKeeps(rows: seq<Embedding>, versions: set<nat>)
    requires OneLive(rows) && Rising(rows)
    ensures OneLive(MarkStaleForVersions(rows, versions)) && Rising(MarkStaleForVersions(rows, versions))
  {
    var r := MarkStaleForVersions(rows, versions);
    forall i, j | 0 <= i < j < |r| && SameKey(r[i], r[j])
      ensures !(r[i].status.Live? && r[j].status.Live?) && r[i].generation < r[j].generation
    {
      assert SameKey(rows[i], rows[j]);
    }
  }

  /** Retiring versions leaves the matches of every other version's chunks. */
  lemma VersionStalingFrame(rows: seq<Embedding>, versions: set<nat>, chunks: seq<Chunk>, k: nat, model: nat)
    requires Owned(rows, chunks) && k < |chunks| && chunks[k].version !in versions
    ensures HasMatch(MarkStaleForVersions(rows, versions), chunks[k], model) <==> HasMatch(rows, chunks[k], model)
  {
    var r := MarkStaleForVersions(rows, versions);
    assert forall i :: 0 <= i < |rows| ==> (Matches(r[i], chunks[k], model) <==> Matches(rows[i], chunks[k], model));
  }

  /** The vectors of a finished attempt before the prior versions are retired. */
  function Stored(db: Database, version: nat, s: Settings, force: bool): seq<Embedding> {
    PersistAll(db.embeddings, PendingChunks(ListForVersion(db.chunks, version), db.embeddings, s.model, force), version, s, force)
  }

  /** A finished attempt has a matching vector for every chunk of its version and takes none from others. */
  lemma {:induction false} StoredCovers(db: Database, version: nat, s: Settings, force: bool)
    requires Consistent(db, s.model)
    ensures OneLive(Stored(db, version, s, force)) && Rising(Stored(db, version, s, force))
    ensures Owned(Stored(db, version, s, force), db.chunks)
    ensures
      forall k :: 0 <= k < |db.chunks| && (IsListed(db.chunks[k], version) || HasMatch(db.embeddings, db.chunks[k], s.model))
        && (db.chunks[k].version == version ==> !db.chunks[k].status.ChunkDeleted?)
        ==> HasMatch(Stored(db, version, s, force), db.chunks[k], s.model)
  {
    hide HasMatch, OneLive, Rising, Owned, OneIndexed, Covered, PersistAll, PendingChunks, ListForVersion;
    var list := ListForVersion(db.chunks, version);
    var todo := PendingChunks(list, db.embeddings, s.model, force);
    ListMembers(db.chunks, version);
    PendingMembers(list, db.embeddings, s.model, force);
    assert forall j :: 0 <= j < |todo| ==> todo[j] in todo;
    PersistAllKeeps(db.embeddings, todo, version, s, force);
    forall j, k | 0 <= j < |todo| && 0 <= k < |db.chunks| && db.chunks[k].id == todo[j].id
      ensures db.chunks[k] == todo[j]
    {
      assert todo[j] in db.chunks;
    }
    PersistAllOwned(db.embeddings, todo, version, s, force, db.chunks);
    forall k | 0 <= k < |db.chunks| && (IsListed(db.chunks[k], version) || HasMatch(db.embeddings, db.chunks[k], s.model))
        && (db.chunks[k].version == version ==> !db.chunks[k].status.ChunkDeleted?)
      ensures HasMatch(Stored(db, version, s, force), db.chunks[k], s.model)
    {
      var c := db.chunks[k];
      if c !in todo {
        PersistAllFrame(db.embeddings, todo, version, s, force, c, s.model);
      }
    }
  }

  lemma PromotedKeeps(versions: map<nat, Version>, version: nat)
    requires OneIndexed(versions) && version in versions
    ensures OneIndexed(Promoted(versions, version)) && Promoted(versions, version)[version].status.Indexed?
  {
  }

  lemma {:induction false} CompletedCovers(db: Database, version: nat, s: Settings, force: bool)
    requires Consistent(db, s.model) && version in db.versions
    ensures Covered(Completed(db, version, s, force), s.model)
  {
    StoredCovers(db, version, s, force);
    hide OneLive, Rising, HasMatch, PersistAll, PendingChunks, ListForVersion;
    var rows := Stored(db, version, s, force);
    var priors := Priors(db.versions, version);
    var next := Completed(db, version, s, force);
    forall k | 0 <= k < |next.chunks| && IsCurrent(next.versions, next.chunks[k])
      ensures next.chunks[k].status.ChunkIndexed? && HasMatch(next.embeddings, next.chunks[k], s.model)
    {
      VersionStalingFrame(rows, priors, db.chunks, k, s.model);
      SameMatches(next.embeddings, db.chunks[k], next.chunks[k], s.model);
    }
  }

  lemma StalingOwned(rows: seq<Embedding>, versions: set<nat>, chunks: seq<Chunk>, marked: seq<Chunk>)
    requires Owned(rows, chunks) && UniqueChunks(chunks) && |marked| == |chunks|
    requires forall k :: 0 <= k < |chunks| ==> marked[k].id == chunks[k].id && marked[k].version == chunks[k].version
    ensures Owned(MarkStaleForVersions(rows, versions), marked) && UniqueChunks(marked)
  {
    var r := MarkStaleForVersions(rows, versions);
    assert forall i :: 0 <= i < |rows| ==> r[i].chunk == rows[i].chunk && r[i].version == rows[i].version;
  }

  /** A finished attempt keeps the database consistent, and makes every chunk of its version current. */
  lemma {:induction false} CompletedKeeps(db: Database, version: nat, s: Settings, force: bool)
    requires Consistent(db, s.model) && version in db.versions
    ensures Consistent(Completed(db, version, s, force), s.model)
    ensures forall k :: 0 <= k < |db.chunks| && IsListed(db.chunks[k], version) ==>
      IsCurrent(Completed(db, version, s, force).versions, Completed(db, version, s, force).chunks[k])
  {
    hide OneLive, Rising, Owned, OneIndexed, Covered, HasMatch, PersistAll, PendingChunks, ListForVersion, UniqueChunks;
    StoredCovers(db, version, s, force);
    CompletedCovers(db, version, s, force);
    PromotedKeeps(db.versions, version);
    var rows, priors := Stored(db, version, s, force), Priors(db.versions, version);
    var next := Completed(db, version, s, force);
    assert next.embeddings == MarkStaleForVersions(rows, priors);
    VersionStalingKeeps(rows, priors);
    StalingOwned(rows, priors, db.chunks, next.chunks);
  }

  lemma SameMatches(rows: seq<Embedding>, a: Chunk, b: Chunk, model: nat)
    requires a.id == b.id && a.hash == b.hash
    ensures HasMatch(rows, a, model) <==> HasMatch(rows, b, model)
  {
    assert forall i :: 0 <= i < |rows| ==> (Matches(rows[i], a, model) <==> Matches(rows[i], b, model));
  }

  // ------------------------------------------------------------ deletions

  lemma {:induction false} WithoutRowsMembers(rows: seq<Embedding>, versions: set<nat>)
    ensures forall r :: r in WithoutRows(rows, versions) <==> r in rows && r.version !in versions
  {
    if rows != [] {
      WithoutRowsMembers(rows[1..], versions);
      assert forall r :: r in rows <==> r == rows[0] || r in rows[1..];
    }
  }

  predicate Follows(a: Embedding, b: Embedding) {
    SameKey(a, b) ==> !(a.status.Live? && b.status.Live?) && a.generation < b.generation
  }

  lemma ConsRow(x: Embedding, rest: seq<Embedding>)
    requires OneLive(rest) && Rising(rest) && forall j :: 0 <= j < |rest| ==> Follows(x, rest[j])
    ensures OneLive([x] + rest) && Rising([x] + rest)
  {
    var r := [x] + rest;
    assert forall j :: 0 < j < |r| ==> r[j] == rest[j - 1];
    assert forall j :: 0 < j < |r| ==> Follows(r[0], r[j]);
  }

  lemma TailRows(rows: seq<Embedding>)
    requires OneLive(rows) && Rising(rows) && rows != []
    ensures OneLive(rows[1..]) && Rising(rows[1..])
    ensures forall j :: 0 <= j < |rows[1..]| ==> Follows(rows[0], rows[1..][j])
  {
  }

  lemma {:induction false} WithoutRowsFollow(x: Embedding, rows: seq<Embedding>, versions: set<nat>)
    requires forall j :: 0 <= j < |rows| ==> Follows(x, rows[j])
    ensures forall j :: 0 <= j < |WithoutRows(rows, versions)| ==> Follows(x, WithoutRows(rows, versions)[j])
  {
    hide Follows;
    if rows != [] {
      WithoutRowsFollow(x, rows[1..], versions);
    }
  }

  lemma {:induction false} WithoutRowsKeeps(rows: seq<Embedding>, versions: set<nat>)
    requires OneLive(rows) && Rising(rows)
    ensures OneLive(WithoutRows(rows, versions)) && Rising(WithoutRows(rows, versions))
  {
    if rows == [] {
      assert WithoutRows(rows, versions) == rows;
    } else {
      TailRows(rows);
      hide OneLive, Rising, Follows;
      var rest := WithoutRows(rows[1..], versions);
      WithoutRowsKeeps(rows[1..], versions);
      WithoutRowsFollow(rows[0], rows[1..], versions);
      ConsRow(rows[0], rest);
      assert [] + rest == rest;
    }
  }

  lemma {:induction false} WithoutChunksKeeps(chunks: seq<Chunk>, versions: set<nat>)
    requires UniqueChunks(chunks)
    ensures UniqueChunks(WithoutChunks(chunks, versions))
    ensures forall c :: c in WithoutChunks(chunks, versions) <==> c in chunks && c.version !in versions
  {
    if chunks != [] {
      WithoutChunksKeeps(chunks[1..], versions);
      assert forall c :: c in chunks <==> c == chunks[0] || c in chunks[1..];
      assert forall c :: c in chunks[1..] ==> c.id != chunks[0].id;
    }
  }

  /** Dropping other versions' vectors leaves the matches of a chunk. */
  lemma WithoutRowsFrame(rows: seq<Embedding>, versions: set<nat>, chunks: seq<Chunk>, k: nat, model: nat)
    requires Owned(rows, chunks) && k < |chunks| && chunks[k].version !in versions && HasMatch(rows, chunks[k], model)
    ensures HasMatch(WithoutRows(rows, versions), chunks[k], model)
  {
    WithoutRowsMembers(rows, versions);
    var i :| 0 <= i < |rows| && Matches(rows[i], chunks[k], model);
    assert rows[i] in WithoutRows(rows, versions);
    var j :| 0 <= j < |WithoutRows(rows, versions)| && WithoutRows(rows, versions)[j] == rows[i];
    assert Matches(WithoutRows(rows, versions)[j], chunks[k], model);
  }

  /** The chunks and vectors left after deleting some versions' are still consistent among themselves. */
  lemma {:induction false} DeletionKeeps(db: Database, gone: set<nat>, model: nat)
    requires Consistent(db, model)
    ensures UniqueChunks(WithoutChunks(db.chunks, gone))
    ensures OneLive(WithoutRows(db.embeddings, gone)) && Rising(WithoutRows(db.embeddings, gone))
    ensures Owned(WithoutRows(db.embeddings, gone), WithoutChunks(db.chunks, gone))
    ensures
      forall k :: 0 <= k < |WithoutChunks(db.chunks, gone)| && IsCurrent(db.versions, WithoutChunks(db.chunks, gone)[k])
        ==> WithoutChunks(db.chunks, gone)[k].status.ChunkIndexed?
            && HasMatch(WithoutRows(db.embeddings, gone), WithoutChunks(db.chunks, gone)[k], model)
  {
    WithoutRowsKeeps(db.embeddings, gone);
    WithoutRowsMembers(db.embeddings, gone);
    WithoutChunksKeeps(db.chunks, gone);
    var rows, chunks := WithoutRows(db.embeddings, gone), WithoutChunks(db.chunks, gone);
    forall i, k | 0 <= i < |rows| && 0 <= k < |chunks| && rows[i].chunk == chunks[k].id
      ensures rows[i].version == chunks[k].version
    {
      assert rows[i] in db.embeddings && chunks[k] in db.chunks;
    }
    forall k | 0 <= k < |chunks| && IsCurrent(db.versions, chunks[k])
      ensures chunks[k].status.ChunkIndexed? && HasMatch(rows, chunks[k], model)
    {
      assert chunks[k] in db.chunks && chunks[k].version !in gone;
      var l :| 0 <= l < |db.chunks| && db.chunks[l] == chunks[k];
      WithoutRowsFrame(db.embeddings, gone, db.chunks, l, model);
    }
  }

  /** Rows and chunks that were there before, plus chunks with ids of their own. */
  lemma FreshChunksFit(db: Database, rows: seq<Embedding>, kept: seq<Chunk>, version: nat, chunks: seq<Chunk>)
    requires UniqueChunks(kept) && Owned(rows, kept) && FreshChunks(db, version, chunks)
    requires forall c :: c in kept ==> c in db.chunks
    requires forall r :: r in rows ==> r in db.embeddings
    ensures UniqueChunks(kept + chunks) && Owned(rows, kept + chunks)
  {
    var all := kept + chunks;
    assert forall k :: 0 <= k < |kept| ==> kept[k] in db.chunks;
    assert forall i :: 0 <= i < |rows| ==> rows[i] in db.embeddings;
    assert forall k :: |kept| <= k < |all| ==> all[k] == chunks[k - |kept|];
  }

  lemma {:induction false} RechunkKeeps(db: Database, version: nat, chunks: seq<Chunk>, s: Settings)
    requires Consistent(db, s.model) && Enabled(db, Rechunks(version, chunks))
    ensures Consistent(Apply(db, Rechunks(version, chunks), s), s.model)
  {
    DeletionKeeps(db, {version}, s.model);
    WithoutChunksKeeps(db.chunks, {version});
    WithoutRowsMembers(db.embeddings, {version});
    var rows, kept := WithoutRows(db.embeddings, {version}), WithoutChunks(db.chunks, {version});
    FreshChunksFit(db, rows, kept, version, chunks);
    hide WithoutRows, WithoutChunks, OneLive, Rising, HasMatch, UniqueChunks, Owned;
  }

  lemma {:induction false} RemovalKeeps(db: Database, document: nat, s: Settings)
    requires Consistent(db, s.model)
    ensures Consistent(Apply(db, Removes(document), s), s.model)
  {
    var gone := set v | v in db.versions && db.versions[v].document == document;
    DeletionKeeps(db, gone, s.model);
    hide WithoutRows, WithoutChunks, OneLive, Rising, HasMatch;
  }

  // ----------------------------------------------------------------- runs

  lemma {:induction false} StepKeeps(db: Database, event: Event, s: Settings)
    requires Consistent(db, s.model) && Enabled(db, event)
    ensures Consistent(Apply(db, event, s), s.model)
  {
    match event
    case Completes(v, force) => CompletedKeeps(db, v, s, force);
    case Rechunks(v, chunks) => RechunkKeeps(db, v, chunks, s);
    case Removes(document) => RemovalKeeps(db, document, s);
    case _ => hide HasMatch, OneLive, Rising, Owned, UniqueChunks;
  }

  /**
   * Over every run: one live vector at most per chunk and model, increasing
   * generations, at most one indexed version per document, and every chunk
   * of an indexed version has a live vector of its own content.
   */
  lemma {:induction false} RunsStayConsistent(db: Database, events: seq<Event>, s: Settings)
    requires Consistent(db, s.model) && IsRun(db, events, s)
    ensures Consistent(After(db, events, s), s.model)
    decreases |events|
  {
    hide Consistent, Enabled, Apply;
    if events != [] {
      StepKeeps(db, events[0], s);
      RunsStayConsistent(Apply(db, events[0], s), events[1..], s);
    }
  }

  lemma EmptyIsConsistent(model: nat)
    ensures Consistent(Database(map[], [], []), model)
  {
  }

  /**
   * What retrieval joins on: in every reachable database a chunk of an
   * indexed version is found through exactly one live vector, made from its
   * own content.
   */
  lemma {:induction false} SearchableExactlyOnce(events: seq<Event>, s: Settings, k: nat)
    requires IsRun(Database(map[], [], []), events, s)
    requires
      var db := After(Database(map[], [], []), events, s);
      k < |db.chunks| && IsCurrent(db.versions, db.chunks[k])
    ensures
      var db := After(Database(map[], [], []), events, s);
      && db.chunks[k].status.ChunkIndexed?
      && exists i :: 0 <= i < |db.embeddings| && Matches(db.embeddings[i], db.chunks[k], s.model)
           && forall j :: 0 <= j < |db.embeddings| && IsFor(db.embeddings[j], db.chunks[k].id, s.model) && db.embeddings[j].status.Live? ==> j == i
  {
    EmptyIsConsistent(s.model);
    RunsStayConsistent(Database(map[], [], []), events, s);
    hide After, IsRun;
    var db := After(Database(map[], [], []), events, s);
    var i :| 0 <= i < |db.embeddings| && Matches(db.embeddings[i], db.chunks[k], s.model);
    forall j | 0 <= j < |db.embeddings| && IsFor(db.embeddings[j], db.chunks[k].id, s.model) && db.embeddings[j].status.Live?
      ensures j == i
    {
      assert SameKey(db.embeddings[j], db.embeddings[i]) && SameKey(db.embeddings[i], db.embeddings[j]);
    }
  }

  // ----------------------------------------------------- superseded versions

  predicate IsSuperseded(db: Database, version: nat) {
    version in db.versions && db.versions[version].status.Superseded?
  }

  /** The committed steps that take a superseded version of `document` out of its status. */
  predicate Reopens(event: Event, version: nat, document: nat) {
    match event
    case Fails(v, _) => v == version
    case Moves(v, _) => v == version
    case Rechunks(v, _) => v == version
    case Removes(d) => d == document
    case _ => false
  }

  /** The version is superseded at the start and after every step of the run. */
  ghost predicate SupersededThroughout(db: Database, version: nat, events: seq<Event>, s: Settings)
    requires IsRun(db, events, s)
    decreases |events|
  {
    && IsSuperseded(db, version)
    && (events != [] ==> SupersededThroughout(Apply(db, events[0], s), version, events[1..], s))
  }

  lemma {:induction false} SupersededStep(db: Database, version: nat, event: Event, s: Settings)
    requires IsSuperseded(db, version) && Enabled(db, event)
    ensures IsSuperseded(Apply(db, event, s), version) <==> !Reopens(event, version, db.versions[version].document)
    ensures IsSuperseded(Apply(db, event, s), version) ==>
      Apply(db, event, s).versions[version].document == db.versions[version].document
  {
    hide ListForVersion, PendingChunks, PersistAll, WithoutRows, WithoutChunks, FreshChunks;
  }

  /**
   * A superseded version stays superseded over a run exactly when the run
   * holds no failure, no processing move and no rechunking of it, and no
   * removal of its document: completing a sibling, or refusing to resume it,
   * never brings it back.
   */
  lemma {:induction false} SupersededExactlyWhile(db: Database, version: nat, events: seq<Event>, s: Settings)
    requires IsRun(db, events, s) && IsSuperseded(db, version)
    ensures SupersededThroughout(db, version, events, s)
      <==> forall i :: 0 <= i < |events| ==> !Reopens(events[i], version, db.versions[version].document)
    decreases |events|
  {
    hide Enabled, Apply, Reopens;
    if events != [] {
      var document, rest := db.versions[version].document, events[1..];
      SupersededStep(db, version, events[0], s);
      assert events == [events[0]] + rest;
      if !Reopens(events[0], version, document) {
        SupersededExactlyWhile(Apply(db, events[0], s), version, rest, s);
        assert forall i :: 0 < i < |events| ==> events[i] == rest[i - 1];
        assert forall i :: 0 <= i < |rest| ==> rest[i] == events[i + 1];
      } else {
        assert !IsSuperseded(Apply(db, events[0], s), version);
      }
    }
  }

  /**
   * Indexing a superseded version is refused, but the refusal marks it as
   * failed, and a failed version may be indexed: the old version then retires
   * the newer one that is indexed.
   */
  lemma {:induction false} RefusedVersionCanReturn(db: Database, version: nat, newer: nat, reason: Error, s: Settings)
    requires Consistent(db, s.model) && version in db.versions && newer in db.versions
    requires db.versions[version].status.Superseded?
    requires db.versions[newer].status.Indexed? && db.versions[newer].document == db.versions[version].document
    requires ListForVersion(db.chunks, version) != []
    ensures
      var events := [Fails(version, reason), Resets(version), Completes(version, false)];
      && !CanComplete(db, version, false) && !CanComplete(db, version, true)
      && IsRun(db, events, s)
      && var versions := After(db, events, s).versions;
         && version in versions && versions[version].status.Indexed?
         && newer in versions && versions[newer].status.Superseded?
  {
    var events := [Fails(version, reason), Resets(version), Completes(version, false)];
    var a := Apply(db, events[0], s);
    var b := Apply(a, events[1], s);
    hide ListForVersion, PendingChunks, PersistAll;
    assert events[1..] == [events[1], events[2]] && events[1..][1..] == [events[2]] && [events[2]][1..] == [];
    assert CanComplete(b, version, false);
    var c := Apply(b, events[2], s);
    assert newer in Priors(b.versions, version);
    assert IsRun(c, [], s) && IsRun(b, [events[2]], s) && IsRun(a, events[1..], s);
    assert After(b, [events[2]], s) == After(c, [], s) == c;
  }
}
