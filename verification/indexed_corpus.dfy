/** The corpus that lexical retrieval reads from the rows of the indexing service. */
module IndexedCorpus {
  import opened IndexingDatabase
  import opened IndexingModels
  import opened PythonText
  import opened Sorting
  import L = LexicalIndex
  import R = IndexingRuns

  /** The columns of a chunk that indexing does not look at, by chunk id. */
  datatype Columns = Columns(start: int, end: int, heading: Option<string>, language: Option<string>)

  predicate HasLive(rows: seq<Embedding>, chunk: nat, model: nat) {
    exists i :: 0 <= i < |rows| && IsFor(rows[i], chunk, model) && rows[i].status.Live?
  }

  /** The chunk, its version and a live vector of it join. */
  predicate IsFound(db: Database, c: Chunk, model: nat) {
    && c.version in db.versions && db.versions[c.version].status.Indexed?
    && c.status.ChunkIndexed? && HasLive(db.embeddings, c.id, model)
  }

  function RowOf(versions: map<nat, Version>, c: Chunk, columns: nat -> Columns): L.CorpusRow
    requires c.version in versions
  {
    var rest := columns(c.id);
    L.CorpusRow(c.id, versions[c.version].document, c.version, c.number, rest.start, rest.end, rest.heading, rest.language, c.text)
  }

  function FoundRows(db: Database, chunks: seq<Chunk>, model: nat, columns: nat -> Columns): seq<L.CorpusRow> {
    if chunks == [] then []
    else
      (if IsFound(db, chunks[0], model) then [RowOf(db.versions, chunks[0], columns)] else [])
      + FoundRows(db, chunks[1..], model, columns)
  }

  /** Document, then sequence number, then chunk. */
  predicate ByPlace(a: L.CorpusRow, b: L.CorpusRow) {
    a.documentId < b.documentId
    || (a.documentId == b.documentId
        && (a.chunkIndex < b.chunkIndex || (a.chunkIndex == b.chunkIndex && a.chunkId <= b.chunkId)))
  }

  /** `list_indexed_corpus` without filters. */
  function Corpus(db: Database, model: nat, columns: nat -> Columns): seq<L.CorpusRow> {
    Sort(FoundRows(db, db.chunks, model, columns), ByPlace)
  }

  // ------------------------------------------------------------- its rows

  lemma {:induction false} FoundIn(db: Database, chunks: seq<Chunk>, model: nat, columns: nat -> Columns, c: Chunk)
    requires c in chunks && IsFound(db, c, model)
    ensures RowOf(db.versions, c, columns) in FoundRows(db, chunks, model, columns)
  {
    hide HasLive;
    if c != chunks[0] {
      FoundIn(db, chunks[1..], model, columns, c);
    }
  }

  lemma {:induction false} FoundOf(db: Database, chunks: seq<Chunk>, model: nat, columns: nat -> Columns, r: L.CorpusRow) returns (c: Chunk)
    requires r in FoundRows(db, chunks, model, columns)
    ensures c in chunks && IsFound(db, c, model) && r == RowOf(db.versions, c, columns)
  {
    hide HasLive;
    if IsFound(db, chunks[0], model) && r == RowOf(db.versions, chunks[0], columns) {
      c := chunks[0];
    } else {
      c := FoundOf(db, chunks[1..], model, columns, r);
    }
  }

  ghost predicate DistinctIds(rows: seq<L.CorpusRow>) {
    forall i, j :: 0 <= i < j < |rows| ==> rows[i].chunkId != rows[j].chunkId
  }

  lemma {:induction false} FoundDistinct(db: Database, chunks: seq<Chunk>, model: nat, columns: nat -> Columns)
    requires UniqueChunks(chunks)
    ensures DistinctIds(FoundRows(db, chunks, model, columns))
  {
    hide IsFound;
    if chunks != [] {
      var rest := FoundRows(db, chunks[1..], model, columns);
      FoundDistinct(db, chunks[1..], model, columns);
      forall j | 0 <= j < |rest|
        ensures rest[j].chunkId != chunks[0].id
      {
        var c := FoundOf(db, chunks[1..], model, columns, rest[j]);
        assert c in chunks[1..];
      }
    }
  }

  /** The corpus lists the found rows in order, each once and none tied with another. */
  lemma {:induction false} CorpusIsSorted(db: Database, model: nat, columns: nat -> Columns)
    requires UniqueChunks(db.chunks)
    ensures var rows := Corpus(db, model, columns);
      && Sorted(rows, ByPlace) && NoDups(rows) && NoTies(rows, ByPlace)
      && forall r :: r in rows <==> r in FoundRows(db, db.chunks, model, columns)
  {
    var found := FoundRows(db, db.chunks, model, columns);
    FoundDistinct(db, db.chunks, model, columns);
    hide FoundRows;
    SortSorts(found, ByPlace);
    SortPermutes(found, ByPlace);
    SortMembers(found, ByPlace);
    NoDupsCarries(found, Corpus(db, model, columns));
  }

  /** A sorted part of a sorted list without ties is a subsequence of it. */
  lemma {:induction false} SortedPart(a: seq<L.CorpusRow>, b: seq<L.CorpusRow>)
    requires NoDups(a) && NoDups(b) && Sorted(a, ByPlace) && Sorted(b, ByPlace) && NoTies(b, ByPlace)
    requires forall r :: r in a ==> r in b
    ensures L.Subsequence(a, b)
    decreases |b|
  {
    if a != [] {
      FirstMember(a);
      assert a[0] in b;
      TailMembers(a);
      TailMembers(b);
      if a[0] == b[0] {
        SortedPart(a[1..], b[1..]);
      } else {
        assert b[0] !in a;
        SortedPart(a, b[1..]);
      }
    }
  }

  // ------------------------------------------------------- what shrinks it

  /** Whatever `after` finds, `before` finds too, in the same row. */
  ghost predicate FindsNoMore(before: Database, after: Database, model: nat) {
    forall c :: c in after.chunks && IsFound(after, c, model) ==>
      && c in before.chunks && IsFound(before, c, model)
      && after.versions[c.version].document == before.versions[c.version].document
  }

  lemma {:induction false} StatusFindsNoMore(db: Database, event: R.Event, s: Settings)
    requires R.Enabled(db, event) && (event.Fails? || event.Resets? || event.Arrives? || event.Moves?)
    ensures FindsNoMore(db, R.Apply(db, event, s), s.model)
  {
    hide HasLive;
  }

  lemma LiveAmong(rows: seq<Embedding>, gone: set<nat>, chunk: nat, model: nat)
    requires HasLive(R.WithoutRows(rows, gone), chunk, model)
    ensures HasLive(rows, chunk, model)
  {
    var kept := R.WithoutRows(rows, gone);
    R.WithoutRowsMembers(rows, gone);
    var i :| 0 <= i < |kept| && IsFor(kept[i], chunk, model) && kept[i].status.Live?;
    assert kept[i] in rows;
    var j :| 0 <= j < |rows| && rows[j] == kept[i];
  }

  lemma {:induction false} DeletionFindsNoMore(db: Database, event: R.Event, s: Settings)
    requires Consistent(db, s.model) && R.Enabled(db, event) && (event.Rechunks? || event.Removes?)
    ensures FindsNoMore(db, R.Apply(db, event, s), s.model)
  {
    var gone := if event.Rechunks? then {event.version} else set v | v in db.versions && db.versions[v].document == event.document;
    var after := R.Apply(db, event, s);
    R.WithoutChunksKeeps(db.chunks, gone);
    assert after.embeddings == R.WithoutRows(db.embeddings, gone);
    hide HasLive, R.WithoutRows, R.WithoutChunks, Consistent;
    forall c | c in after.chunks && IsFound(after, c, s.model)
      ensures c in db.chunks && IsFound(db, c, s.model) && after.versions[c.version].document == db.versions[c.version].document
    {
      LiveAmong(db.embeddings, gone, c.id, s.model);
    }
  }

  /**
   * Only a finished attempt adds to the corpus: every other committed step
   * leaves it as it is or takes rows away.
   */
  lemma {:induction false} OnlyCompletionAdds(db: Database, event: R.Event, s: Settings, columns: nat -> Columns)
    requires Consistent(db, s.model) && R.Enabled(db, event) && !event.Completes?
    ensures L.Subsequence(Corpus(R.Apply(db, event, s), s.model, columns), Corpus(db, s.model, columns))
  {
    var after := R.Apply(db, event, s);
    R.StepKeeps(db, event, s);
    if event.Rechunks? || event.Removes? {
      DeletionFindsNoMore(db, event, s);
    } else {
      StatusFindsNoMore(db, event, s);
    }
    hide HasLive, R.Apply, R.Enabled, OneLive, Rising, Covered, Owned, OneIndexed, UniqueChunks, Corpus, FoundRows, NoTies, Sorted, L.Subsequence;
    CorpusIsSorted(db, s.model, columns);
    CorpusIsSorted(after, s.model, columns);
    forall r | r in Corpus(after, s.model, columns)
      ensures r in Corpus(db, s.model, columns)
    {
      var c := FoundOf(after, after.chunks, s.model, columns, r);
      FoundIn(db, db.chunks, s.model, columns, c);
    }
    SortedPart(Corpus(after, s.model, columns), Corpus(db, s.model, columns));
  }

  // ------------------------------------------------ indexing and retrieval

  /** Indexing commits, loads of the lexical index and restarts of the process, in any order. */
  datatype Step =
    | Commits(event: R.Event)
    | Loads(query: L.Query, hasRoot: bool, now: int)
    | Restarts

  function Committed(db: Database, step: Step, s: Settings): Database
    requires step.Commits? ==> R.Enabled(db, step.event)
  {
    if step.Commits? then R.Apply(db, step.event, s) else db
  }

  /** What a step is to the lexical index; a finished attempt persists the side file before the next load. */
  function Seen(db: Database, step: Step, scope: L.Scope, s: Settings, columns: nat -> Columns): L.Event
    requires step.Commits? ==> R.Enabled(db, step.event)
  {
    match step
    case Commits(event) =>
      var rows := Corpus(R.Apply(db, event, s), s.model, columns);
      if event.Completes? then L.Publish(scope, rows) else L.Remove(scope, rows)
    case Loads(q, hasRoot, now) => L.Load(scope, q, hasRoot, now)
    case Restarts => L.Restart
  }

  /**
   * The steps can be taken one after the other, and none that shrinks the
   * corpus leaves as many rows as a partial load has selected since the last
   * finished attempt or restart.
   */
  ghost predicate Undisturbed(
      tokenize: L.Tokenizer, db: Database, store: L.Store, partial: L.Counts, steps: seq<Step>, scope: L.Scope, s: Settings, columns: nat -> Columns)
    decreases |steps|
  {
    steps != [] ==>
      && (steps[0].Commits? ==> R.Enabled(db, steps[0].event))
      && var e := Seen(db, steps[0], scope, s, columns);
         && (e.Remove? ==> |e.rows| !in L.CountsIn(partial, scope))
         && Undisturbed(tokenize, Committed(db, steps[0], s), L.Apply(tokenize, store, e), L.Track(partial, store, e), steps[1..], scope, s, columns)
  }

  /** Every unfiltered load answers with the index of the corpus of that moment. */
  ghost predicate EveryLoadCurrent(
      tokenize: L.Tokenizer, db: Database, store: L.Store, steps: seq<Step>, scope: L.Scope, s: Settings, columns: nat -> Columns)
    decreases |steps|
  {
    steps != [] && (steps[0].Commits? ==> R.Enabled(db, steps[0].event)) ==>
      && (steps[0].Loads? && steps[0].query.Unfiltered? ==>
            L.LoadStep(tokenize, store, scope, L.Unfiltered, steps[0].hasRoot, steps[0].now).1
            == L.Build(tokenize, Corpus(db, s.model, columns)))
      && EveryLoadCurrent(tokenize, Committed(db, steps[0], s),
           L.Apply(tokenize, store, Seen(db, steps[0], scope, s, columns)), steps[1..], scope, s, columns)
  }

  lemma {:induction false} CorpusFollows(tokenize: L.Tokenizer, db: Database, store: L.Store, step: Step, scope: L.Scope, s: Settings, columns: nat -> Columns)
    requires L.RowsIn(store, scope) == Corpus(db, s.model, columns)
    requires step.Commits? ==> R.Enabled(db, step.event)
    ensures L.RowsIn(L.Apply(tokenize, store, Seen(db, step, scope, s, columns)), scope) == Corpus(Committed(db, step, s), s.model, columns)
  {
    hide R.Apply, R.Enabled, Corpus, L.Build, L.WriteSideFile, L.LoadSideFile;
  }

  /**
   * Indexing and lexical retrieval together: over every run of commits, loads
   * and restarts, an unfiltered load answers with the index of exactly the
   * rows that the database joins at that moment.
   */
  lemma {:induction false} LoadsSeeTheDatabase(
      tokenize: L.Tokenizer, owner: nat -> nat, db: Database, store: L.Store, partial: L.Counts, steps: seq<Step>,
      scope: L.Scope, s: Settings, columns: nat -> Columns)
    requires L.TokenizerLaw(tokenize) && scope.organization == owner(scope.knowledgeBase)
    requires Consistent(db, s.model) && L.Fresh(tokenize, owner, store, partial)
    requires L.RowsIn(store, scope) == Corpus(db, s.model, columns)
    requires Undisturbed(tokenize, db, store, partial, steps, scope, s, columns)
    ensures EveryLoadCurrent(tokenize, db, store, steps, scope, s, columns)
    decreases |steps|
  {
    hide R.Apply, R.Enabled, Corpus, Consistent, L.Apply, L.Track, L.Fresh, L.LoadStep, L.Build, L.Subsequence, L.TokenizerLaw;
    if steps != [] {
      var step := steps[0];
      var e := Seen(db, step, scope, s, columns);
      if step.Commits? {
        R.StepKeeps(db, step.event, s);
        if !step.event.Completes? {
          OnlyCompletionAdds(db, step.event, s, columns);
        }
      }
      L.EventAgrees(tokenize, owner, store, partial, e);
      CorpusFollows(tokenize, db, store, step, scope, s, columns);
      LoadsSeeTheDatabase(tokenize, owner, Committed(db, step, s), L.Apply(tokenize, store, e), L.Track(partial, store, e),
        steps[1..], scope, s, columns);
    }
  }
}
