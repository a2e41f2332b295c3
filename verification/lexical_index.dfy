/**
 * The BM25 index cache: a process cache and a side file, both keyed by row
 * count, in front of the live corpus.
 */
module LexicalIndex {
  import opened PythonText

  datatype CorpusRow = CorpusRow(
    chunkId: nat, documentId: nat, versionId: nat, chunkIndex: int, startChar: int, endChar: int,
    heading: Option<string>, language: Option<string>, text: string)

  /** A row with its tokens; an index is determined by its documents. */
  datatype IndexedDoc = IndexedDoc(row: CorpusRow, tokens: seq<string>)

  datatype Scope = Scope(organization: nat, knowledgeBase: nat, model: nat)

  /** `_cache_key`: the scope and the number of rows, nothing else. */
  datatype Key = Key(scope: Scope, count: nat)

  datatype Cached = Cached(time: int, docs: seq<IndexedDoc>)

  datatype Item = NotAnObject | Object(row: CorpusRow, tokens: Option<seq<string>>)

  datatype SideFile = Unreadable | Payload(count: Option<int>, documents: Option<seq<Item>>)

  /** The side file's path holds the knowledge base and the model, not the organization. */
  datatype Path = Path(knowledgeBase: nat, model: nat)

  datatype Query = Unfiltered | Filtered(keep: CorpusRow -> bool)

  /** The database rows, the process cache and the side files. */
  datatype Store = Store(corpus: map<Scope, seq<CorpusRow>>, cache: map<Key, Cached>, files: map<Path, SideFile>)

  const CACHE_TTL_SECONDS := 300

  type Tokenizer = string -> seq<string>

  /** Dropping the heading line cannot create tokens. */
  ghost predicate TokenizerLaw(tokenize: Tokenizer) {
    forall heading, text :: tokenize(heading + "\n" + text) == [] ==> tokenize(text) == []
  }

  // ------------------------------------------------------------ building

  function IndexText(row: CorpusRow): string {
    var heading := if row.heading.Some? then Strip(row.heading.value) else "";
    if heading != "" then heading + "\n" + row.text else row.text
  }

  function BuildDoc(tokenize: Tokenizer, row: CorpusRow): IndexedDoc {
    IndexedDoc(row, tokenize(IndexText(row)))
  }

  /** `build_bm25_index`. */
  function Build(tokenize: Tokenizer, rows: seq<CorpusRow>): (docs: seq<IndexedDoc>)
    ensures |docs| == |rows|
  {
    if rows == [] then [] else [BuildDoc(tokenize, rows[0])] + Build(tokenize, rows[1..])
  }

  /** An index has the rows in order, each with the tokens of its heading line, if it has one, and its text. */
  lemma {:induction false} HeadingsAreIndexed(tokenize: Tokenizer, rows: seq<CorpusRow>, k: nat)
    requires k < |rows|
    ensures
      var doc, row := Build(tokenize, rows)[k], rows[k];
      && doc.row == row
      && ((row.heading.None? || Strip(row.heading.value) == "") ==> doc.tokens == tokenize(row.text))
      && (row.heading.Some? && Strip(row.heading.value) != "" ==>
            doc.tokens == tokenize(Strip(row.heading.value) + "\n" + row.text))
  {
    hide Strip;
    if k > 0 {
      HeadingsAreIndexed(tokenize, rows[1..], k - 1);
    }
  }

  /** `_write_side_file`. */
  function WriteSideFile(tokenize: Tokenizer, rows: seq<CorpusRow>): SideFile {
    Payload(Some(|rows|), Some(ItemsOf(tokenize, rows)))
  }

  function ItemsOf(tokenize: Tokenizer, rows: seq<CorpusRow>): (items: seq<Item>)
    ensures |items| == |rows|
  {
    if rows == [] then []
    else [Object(rows[0], Some(tokenize(IndexText(rows[0]))))] + ItemsOf(tokenize, rows[1..])
  }

  /** The documents of the well-formed items; missing tokens are computed from the text alone. */
  function DocsOf(tokenize: Tokenizer, items: seq<Item>): seq<IndexedDoc> {
    if items == [] then []
    else
      (match items[0]
       case NotAnObject => []
       case Object(row, tokens) =>
         [IndexedDoc(row, if tokens.Some? && tokens.value != [] then tokens.value else tokenize(row.text))])
      + DocsOf(tokenize, items[1..])
  }

  /** A stored count of zero reads as missing. */
  function StoredCount(file: SideFile): int
    requires file.Payload?
  {
    if file.count.Some? && file.count.value != 0 then file.count.value else -1
  }

  function LoadSideFile(tokenize: Tokenizer, file: Option<SideFile>, expected: nat): Option<seq<IndexedDoc>> {
    if file.None? || file.value.Unreadable? then None
    else if StoredCount(file.value) != expected || file.value.documents.None? then None
    else
      var docs := DocsOf(tokenize, file.value.documents.value);
      if |docs| != expected then None else Some(docs)
  }

  // --------------------------------------------------------------- steps

  function RowsIn(s: Store, scope: Scope): seq<CorpusRow> {
    if scope in s.corpus then s.corpus[scope] else []
  }

  function Select(rows: seq<CorpusRow>, q: Query): seq<CorpusRow> {
    match q
    case Unfiltered => rows
    case Filtered(keep) =>
      if rows == [] then [] else (if keep(rows[0]) then [rows[0]] else []) + Select(rows[1..], q)
  }

  function PathOf(scope: Scope): Path { Path(scope.knowledgeBase, scope.model) }

  function FileAt(s: Store, path: Path): Option<SideFile> {
    if path in s.files then Some(s.files[path]) else None
  }

  predicate IsHit(s: Store, key: Key, now: int) {
    key in s.cache && now - s.cache[key].time <= CACHE_TTL_SECONDS
  }

  /** `load_bm25_index`: the store afterwards and the documents of the index returned. */
  function LoadStep(tokenize: Tokenizer, s: Store, scope: Scope, q: Query, hasRoot: bool, now: int): (Store, seq<IndexedDoc>) {
    var rows := Select(RowsIn(s, scope), q);
    var key := Key(scope, |rows|);
    if IsHit(s, key, now) then (s, s.cache[key].docs)
    else
      var stored := if hasRoot && q.Unfiltered? then LoadSideFile(tokenize, FileAt(s, PathOf(scope)), |rows|) else None;
      var docs := if stored.Some? then stored.value else Build(tokenize, rows);
      var files := if stored.None? && hasRoot && q.Unfiltered? then s.files[PathOf(scope) := WriteSideFile(tokenize, rows)] else s.files;
      (Store(s.corpus, s.cache[key := Cached(now, docs)], files), docs)
  }

  /** `persist_kb_lexical_index`: rewrite the side file, drop the scope's cache entries. */
  function PersistStep(tokenize: Tokenizer, s: Store, scope: Scope): Store {
    Store(s.corpus,
          map key | key in s.cache && key.scope != scope :: s.cache[key],
          s.files[PathOf(scope) := WriteSideFile(tokenize, RowsIn(s, scope))])
  }

  // ------------------------------------------------- the stateful service

  class LexicalIndexStore {
    const tokenize: Tokenizer
    var corpus: map<Scope, seq<CorpusRow>>
    var cache: map<Key, Cached>
    var files: map<Path, SideFile>

    constructor (tokenize: Tokenizer)
      ensures this.tokenize == tokenize && corpus == map[] && cache == map[] && files == map[]
    {
      this.tokenize := tokenize;
      corpus, cache, files := map[], map[], map[];
    }

    function State(): Store
      reads this
    {
      Store(corpus, cache, files)
    }

    /** `_load_side_file`. */
    method ReadSideFile(path: Path, expected: nat) returns (docs: Option<seq<IndexedDoc>>)
      ensures docs == LoadSideFile(tokenize, FileAt(State(), path), expected)
    {
      if path !in files {
        return None;
      }
      var payload := files[path];
      if payload.Unreadable? || StoredCount(payload) != expected || payload.documents.None? {
        return None;
      }
      var items := payload.documents.value;
      var documents := DocsLoop(tokenize, items);
      docs := if |documents| != expected then None else Some(documents);
    }

    /** `load_bm25_index`. */
    method LoadIndex(scope: Scope, q: Query, hasRoot: bool, now: int) returns (docs: seq<IndexedDoc>)
      modifies this`cache, this`files
      ensures (State(), docs) == LoadStep(tokenize, old(State()), scope, q, hasRoot, now)
    {
      var rows := Select(RowsIn(State(), scope), q);
      var key := Key(scope, |rows|);
      if key in cache && now - cache[key].time <= CACHE_TTL_SECONDS {
        return cache[key].docs;
      }
      var index: Option<seq<IndexedDoc>> := None;
      if hasRoot && q.Unfiltered? {
        index := ReadSideFile(PathOf(scope), |rows|);
      }
      if index.None? {
        index := Some(Build(tokenize, rows));
        if hasRoot && q.Unfiltered? {
          files := files[PathOf(scope) := WriteSideFile(tokenize, rows)];
        }
      }
      docs := index.value;
      cache := cache[key := Cached(now, docs)];
    }

    /** `persist_kb_lexical_index`. */
    method Persist(scope: Scope)
      modifies this`cache, this`files
      ensures State() == PersistStep(tokenize, old(State()), scope)
    {
      files := files[PathOf(scope) := WriteSideFile(tokenize, RowsIn(State(), scope))];
      ghost var written := files;
      var todo := cache.Keys;
      while todo != {}
        invariant files == written
        invariant todo <= old(cache.Keys)
        invariant forall key :: key in cache <==> key in old(cache) && (key.scope != scope || key in todo)
        invariant forall key :: key in cache ==> cache[key] == old(cache)[key]
        decreases |todo|
      {
        var key :| key in todo;
        if key.scope == scope {
          cache := cache - {key};
        }
        todo := todo - {key};
      }
      assert cache == map key | key in old(cache) && key.scope != scope :: old(cache)[key];
    }
  }

  method DocsLoop(tokenize: Tokenizer, items: seq<Item>) returns (documents: seq<IndexedDoc>)
    ensures documents == DocsOf(tokenize, items)
  {
    ghost var all := DocsOf(tokenize, items);
    ghost var rest := all;
    documents := [];
    for i := 0 to |items|
      invariant rest == DocsOf(tokenize, items[i..])
      invariant documents + rest == all
    {
      var step: seq<IndexedDoc> := [];
      match items[i] {
        case NotAnObject =>
        case Object(row, tokens) =>
          var found := if tokens.Some? then tokens.value else [];
          if found == [] {
            found := tokenize(row.text);
          }
          step := [IndexedDoc(row, found)];
      }
      assert items[i..][1..] == items[i + 1..];
      Regroup(documents, step, DocsOf(tokenize, items[i + 1..]), rest, all);
      documents, rest := documents + step, DocsOf(tokenize, items[i + 1..]);
    }
  }

  // --------------------------------------------------------- the invariant

  /** `a` is `b` with some rows left out. */
  predicate Subsequence(a: seq<CorpusRow>, b: seq<CorpusRow>) {
    a == [] || (b != [] && (if a[0] == b[0] then Subsequence(a[1..], b[1..]) || Subsequence(a, b[1..]) else Subsequence(a, b[1..])))
  }

  lemma {:induction false} SubsequenceLength(a: seq<CorpusRow>, b: seq<CorpusRow>)
    requires Subsequence(a, b)
    ensures |a| <= |b|
    ensures |a| == |b| ==> a == b
  {
    if a != [] {
      if a[0] == b[0] && Subsequence(a[1..], b[1..]) {
        SubsequenceLength(a[1..], b[1..]);
        assert a == [a[0]] + a[1..] && b == [b[0]] + b[1..];
      } else {
        SubsequenceLength(a, b[1..]);
      }
    }
  }

  lemma {:induction false} SubsequenceSelf(a: seq<CorpusRow>)
    ensures Subsequence(a, a)
  {
    if a != [] {
      SubsequenceSelf(a[1..]);
    }
  }

  lemma {:induction false} SubsequenceWiden(a: seq<CorpusRow>, b: seq<CorpusRow>)
    requires a != [] && Subsequence(a, b)
    ensures Subsequence(a[1..], b)
    decreases |b|
  {
    if a[0] == b[0] && Subsequence(a[1..], b[1..]) {
      SubsequenceLater(a[1..], b);
    } else {
      SubsequenceWiden(a, b[1..]);
      SubsequenceLater(a[1..], b);
    }
  }

  lemma SubsequenceLater(a: seq<CorpusRow>, b: seq<CorpusRow>)
    requires b != [] && Subsequence(a, b[1..])
    ensures Subsequence(a, b)
  {
  }

  lemma {:induction false} SubsequenceTransitive(a: seq<CorpusRow>, b: seq<CorpusRow>, c: seq<CorpusRow>)
    requires Subsequence(a, b) && Subsequence(b, c)
    ensures Subsequence(a, c)
    decreases |c|, |b|
  {
    if a != [] {
      if b[0] == c[0] && Subsequence(b[1..], c[1..]) {
        if a[0] == b[0] && Subsequence(a[1..], b[1..]) {
          SubsequenceTransitive(a[1..], b[1..], c[1..]);
        } else {
          SubsequenceTransitive(a, b[1..], c[1..]);
        }
      } else {
        SubsequenceTransitive(a, b, c[1..]);
      }
    }
  }

  /** `docs` is the index of rows that contain the scope's current rows as a subsequence. */
  ghost predicate Covers(tokenize: Tokenizer, docs: seq<IndexedDoc>, rows: seq<CorpusRow>) {
    exists written :: docs == Build(tokenize, written) && Subsequence(rows, written)
  }

  /** `file` was written for such rows. */
  ghost predicate FileCovers(tokenize: Tokenizer, file: SideFile, rows: seq<CorpusRow>) {
    exists written :: file == WriteSideFile(tokenize, written) && Subsequence(rows, written)
  }

  /**
   * Per scope, the numbers of rows that partial loads have selected since the
   * scope was last published and the process last started.
   */
  type Counts = map<Scope, set<nat>>

  function CountsIn(partial: Counts, scope: Scope): set<nat> {
    if scope in partial then partial[scope] else {}
  }

  /** A cached index covers the current corpus of its scope, unless a partial load left it. */
  ghost predicate EntryFresh(tokenize: Tokenizer, key: Key, docs: seq<IndexedDoc>, rows: seq<CorpusRow>, partial: Counts) {
    |docs| == key.count && (Covers(tokenize, docs, rows) || key.count in CountsIn(partial, key.scope))
  }

  /**
   * Every side file covers the current corpus of its scope, and so does every
   * cached index other than a partial load's, whose count is not the current one.
   */
  ghost predicate Fresh(tokenize: Tokenizer, owner: nat -> nat, s: Store, partial: Counts) {
    && (forall scope :: scope in s.corpus ==> scope.organization == owner(scope.knowledgeBase))
    && (forall scope :: scope in partial ==> |RowsIn(s, scope)| !in partial[scope])
    && (forall key :: key in s.cache ==> EntryFresh(tokenize, key, s.cache[key].docs, RowsIn(s, key.scope), partial))
    && (forall path :: path in s.files ==>
          FileCovers(tokenize, s.files[path], RowsIn(s, Scope(owner(path.knowledgeBase), path.knowledgeBase, path.model))))
  }

  lemma {:induction false} BuildLength(tokenize: Tokenizer, rows: seq<CorpusRow>, docs: seq<IndexedDoc>)
    requires Covers(tokenize, docs, rows) && |docs| == |rows|
    ensures docs == Build(tokenize, rows)
  {
    var written :| docs == Build(tokenize, written) && Subsequence(rows, written);
    SubsequenceLength(rows, written);
  }

  /** Reading back what was written rebuilds the same documents. */
  lemma {:induction false} SideFileRoundTrip(tokenize: Tokenizer, rows: seq<CorpusRow>)
    requires TokenizerLaw(tokenize)
    ensures DocsOf(tokenize, ItemsOf(tokenize, rows)) == Build(tokenize, rows)
  {
    if rows != [] {
      SideFileRoundTrip(tokenize, rows[1..]);
      var items := ItemsOf(tokenize, rows);
      assert items[0] == Object(rows[0], Some(tokenize(IndexText(rows[0])))) && items[1..] == ItemsOf(tokenize, rows[1..]);
    }
  }

  lemma {:induction false} SideFileAgrees(tokenize: Tokenizer, file: SideFile, rows: seq<CorpusRow>)
    requires TokenizerLaw(tokenize) && FileCovers(tokenize, file, rows)
    ensures var loaded := LoadSideFile(tokenize, Some(file), |rows|); loaded.Some? ==> loaded.value == Build(tokenize, rows)
  {
    var written :| file == WriteSideFile(tokenize, written) && Subsequence(rows, written);
    SideFileRoundTrip(tokenize, written);
    SubsequenceLength(rows, written);
  }

  /** An unfiltered load returns the index of the current rows and keeps the invariant. */
  lemma {:induction false} LoadAgrees(
      tokenize: Tokenizer, owner: nat -> nat, s: Store, partial: Counts, scope: Scope, hasRoot: bool, now: int)
    requires TokenizerLaw(tokenize) && Fresh(tokenize, owner, s, partial) && scope.organization == owner(scope.knowledgeBase)
    ensures LoadStep(tokenize, s, scope, Unfiltered, hasRoot, now).1 == Build(tokenize, RowsIn(s, scope))
    ensures Fresh(tokenize, owner, LoadStep(tokenize, s, scope, Unfiltered, hasRoot, now).0, partial)
  {
    hide Build, LoadSideFile, WriteSideFile, Covers, FileCovers, TokenizerLaw, Subsequence;
    var rows := RowsIn(s, scope);
    var key := Key(scope, |rows|);
    CoversItself(tokenize, rows);
    var out := LoadStep(tokenize, s, scope, Unfiltered, hasRoot, now);
    if IsHit(s, key, now) {
      BuildLength(tokenize, rows, s.cache[key].docs);
    } else {
      if hasRoot && PathOf(scope) in s.files {
        SideFileAgrees(tokenize, s.files[PathOf(scope)], rows);
      } else {
        NoFileNoDocs(tokenize, |rows|);
      }
      assert out.1 == Build(tokenize, rows);
      InsertFresh(tokenize, owner, s, partial, scope, now);
    }
  }

  /** Caching, and perhaps writing out, the index of the current rows keeps the invariant. */
  lemma InsertFresh(tokenize: Tokenizer, owner: nat -> nat, s: Store, partial: Counts, scope: Scope, now: int)
    requires Fresh(tokenize, owner, s, partial) && scope.organization == owner(scope.knowledgeBase)
    ensures var rows := RowsIn(s, scope);
      var cache := s.cache[Key(scope, |rows|) := Cached(now, Build(tokenize, rows))];
      && Fresh(tokenize, owner, Store(s.corpus, cache, s.files), partial)
      && Fresh(tokenize, owner, Store(s.corpus, cache, s.files[PathOf(scope) := WriteSideFile(tokenize, rows)]), partial)
  {
    var rows := RowsIn(s, scope);
    var key, entry := Key(scope, |rows|), Cached(now, Build(tokenize, rows));
    hide Build, WriteSideFile, Covers, FileCovers;
    CoversItself(tokenize, rows);
    CurrentCounts(tokenize, owner, s, partial);
    hide Fresh;
    CacheFresh(tokenize, owner, s, partial, partial, key, entry);
    FileFresh(tokenize, owner, Store(s.corpus, s.cache[key := entry], s.files), partial, scope, WriteSideFile(tokenize, rows));
  }

  lemma CurrentCounts(tokenize: Tokenizer, owner: nat -> nat, s: Store, partial: Counts)
    requires Fresh(tokenize, owner, s, partial)
    ensures forall scope :: scope in partial ==> |RowsIn(s, scope)| !in partial[scope]
  {
  }

  /** Writing one side file that covers its scope. */
  lemma FileFresh(tokenize: Tokenizer, owner: nat -> nat, s: Store, partial: Counts, scope: Scope, file: SideFile)
    requires Fresh(tokenize, owner, s, partial) && scope.organization == owner(scope.knowledgeBase)
    requires FileCovers(tokenize, file, RowsIn(s, scope))
    ensures Fresh(tokenize, owner, Store(s.corpus, s.cache, s.files[PathOf(scope) := file]), partial)
  {
    hide EntryFresh, FileCovers, CountsIn;
    var t := Store(s.corpus, s.cache, s.files[PathOf(scope) := file]);
    assert forall other :: RowsIn(t, other) == RowsIn(s, other);
  }

  /** Adding one cache entry that is fresh. */
  lemma CacheFresh(tokenize: Tokenizer, owner: nat -> nat, s: Store, partial: Counts, noted: Counts, key: Key, entry: Cached)
    requires Fresh(tokenize, owner, s, partial) && EntryFresh(tokenize, key, entry.docs, RowsIn(s, key.scope), noted)
    requires forall scope :: CountsIn(partial, scope) <= CountsIn(noted, scope)
    requires forall scope :: scope in noted ==> |RowsIn(s, scope)| !in noted[scope]
    ensures Fresh(tokenize, owner, Store(s.corpus, s.cache[key := entry], s.files), noted)
  {
    hide Covers, FileCovers, CountsIn;
    var t := Store(s.corpus, s.cache[key := entry], s.files);
    assert forall scope :: RowsIn(t, scope) == RowsIn(s, scope);
    forall k | k in t.cache
      ensures EntryFresh(tokenize, k, t.cache[k].docs, RowsIn(t, k.scope), noted)
    {
      if k != key {
        assert EntryFresh(tokenize, k, s.cache[k].docs, RowsIn(s, k.scope), partial);
        assert CountsIn(partial, k.scope) <= CountsIn(noted, k.scope);
      }
    }
  }

  lemma {:induction false} SelectLength(rows: seq<CorpusRow>, q: Query)
    ensures |Select(rows, q)| <= |rows|
    ensures |Select(rows, q)| == |rows| ==> Select(rows, q) == rows
  {
    if q.Filtered? && rows != [] {
      SelectLength(rows[1..], q);
      assert rows == [rows[0]] + rows[1..];
    }
  }

  /** A filtered load keeps the invariant once its count is noted. */
  lemma {:induction false} FilteredLoadFresh(
      tokenize: Tokenizer, owner: nat -> nat, s: Store, partial: Counts, scope: Scope, q: Query, hasRoot: bool, now: int)
    requires Fresh(tokenize, owner, s, partial) && q.Filtered?
    ensures Fresh(tokenize, owner, LoadStep(tokenize, s, scope, q, hasRoot, now).0, Noted(partial, s, scope, q))
  {
    hide Build, LoadSideFile, WriteSideFile, Covers, FileCovers, Select, Fresh;
    var rows, selected := RowsIn(s, scope), Select(RowsIn(s, scope), q);
    SelectLength(rows, q);
    CoversItself(tokenize, rows);
    NotedCounts(tokenize, owner, s, partial, scope, q);
    var noted := Noted(partial, s, scope, q);
    if IsHit(s, Key(scope, |selected|), now) {
      NotedFresh(tokenize, owner, s, partial, noted);
    } else {
      CacheFresh(tokenize, owner, s, partial, noted, Key(scope, |selected|), Cached(now, Build(tokenize, selected)));
    }
  }

  lemma NotedCounts(tokenize: Tokenizer, owner: nat -> nat, s: Store, partial: Counts, scope: Scope, q: Query)
    requires Fresh(tokenize, owner, s, partial)
    ensures forall other :: CountsIn(partial, other) <= CountsIn(Noted(partial, s, scope, q), other)
    ensures forall other :: other in Noted(partial, s, scope, q) ==> |RowsIn(s, other)| !in Noted(partial, s, scope, q)[other]
  {
    hide Covers, FileCovers, Select;
  }

  lemma NotedFresh(tokenize: Tokenizer, owner: nat -> nat, s: Store, partial: Counts, noted: Counts)
    requires Fresh(tokenize, owner, s, partial)
    requires forall scope :: CountsIn(partial, scope) <= CountsIn(noted, scope)
    requires forall scope :: scope in noted ==> |RowsIn(s, scope)| !in noted[scope]
    ensures Fresh(tokenize, owner, s, noted)
  {
    hide Covers, FileCovers, CountsIn;
    forall k | k in s.cache
      ensures EntryFresh(tokenize, k, s.cache[k].docs, RowsIn(s, k.scope), noted)
    {
      assert EntryFresh(tokenize, k, s.cache[k].docs, RowsIn(s, k.scope), partial);
      assert CountsIn(partial, k.scope) <= CountsIn(noted, k.scope);
    }
  }

  lemma NoFileNoDocs(tokenize: Tokenizer, n: nat)
    ensures LoadSideFile(tokenize, None, n) == None
  {
  }

  lemma CoversItself(tokenize: Tokenizer, rows: seq<CorpusRow>)
    ensures Covers(tokenize, Build(tokenize, rows), rows) && FileCovers(tokenize, WriteSideFile(tokenize, rows), rows)
  {
    SubsequenceSelf(rows);
  }

  // ------------------------------------------------------------------- runs

  /**
   * What may happen to the store. `Publish` is a change of rows of any kind
   * followed, before the next load, by the persist that indexing performs;
   * `Remove` only takes rows away.
   */
  datatype Event =
    | Publish(scope: Scope, rows: seq<CorpusRow>)
    | Remove(scope: Scope, rows: seq<CorpusRow>)
    | Load(scope: Scope, query: Query, hasRoot: bool, now: int)
    | Restart

  function WithRows(s: Store, scope: Scope, rows: seq<CorpusRow>): Store {
    Store(s.corpus[scope := rows], s.cache, s.files)
  }

  function Apply(tokenize: Tokenizer, s: Store, e: Event): Store {
    match e
    case Publish(scope, rows) => PersistStep(tokenize, WithRows(s, scope, rows), scope)
    case Remove(scope, rows) => WithRows(s, scope, rows)
    case Load(scope, q, hasRoot, now) => LoadStep(tokenize, s, scope, q, hasRoot, now).0
    case Restart => Store(s.corpus, map[], s.files)
  }

  /** A load that selects fewer rows than there are is a partial one. */
  function Noted(partial: Counts, s: Store, scope: Scope, q: Query): Counts {
    var n := |Select(RowsIn(s, scope), q)|;
    if n < |RowsIn(s, scope)| then partial[scope := CountsIn(partial, scope) + {n}] else partial
  }

  function Track(partial: Counts, s: Store, e: Event): Counts {
    match e
    case Publish(scope, _) => partial - {scope}
    case Remove(_, _) => partial
    case Load(scope, q, _, _) => Noted(partial, s, scope, q)
    case Restart => map[]
  }

  /**
   * The event concerns a knowledge base of its own organization; a removal
   * only removes, and does not leave as many rows as some partial load of the
   * scope has selected.
   */
  predicate Allowed(owner: nat -> nat, s: Store, partial: Counts, e: Event) {
    match e
    case Publish(scope, _) => scope.organization == owner(scope.knowledgeBase)
    case Remove(scope, rows) =>
      && scope.organization == owner(scope.knowledgeBase) && Subsequence(rows, RowsIn(s, scope))
      && |rows| !in CountsIn(partial, scope)
    case Load(scope, _, _, _) => scope.organization == owner(scope.knowledgeBase)
    case Restart => true
  }

  /** Along the whole run every unfiltered load returns the index of the rows of that moment. */
  predicate AllLoadsAgree(tokenize: Tokenizer, s: Store, run: seq<Event>)
    decreases |run|
  {
    run != [] ==>
      && (run[0].Load? && run[0].query.Unfiltered? ==>
            LoadStep(tokenize, s, run[0].scope, Unfiltered, run[0].hasRoot, run[0].now).1 == Build(tokenize, RowsIn(s, run[0].scope)))
      && AllLoadsAgree(tokenize, Apply(tokenize, s, run[0]), run[1..])
  }

  predicate AllAllowed(tokenize: Tokenizer, owner: nat -> nat, s: Store, partial: Counts, run: seq<Event>)
    decreases |run|
  {
    run != [] ==>
      && Allowed(owner, s, partial, run[0])
      && AllAllowed(tokenize, owner, Apply(tokenize, s, run[0]), Track(partial, s, run[0]), run[1..])
  }

  lemma {:induction false} PublishFresh(
      tokenize: Tokenizer, owner: nat -> nat, s: Store, partial: Counts, scope: Scope, rows: seq<CorpusRow>)
    requires Fresh(tokenize, owner, s, partial) && scope.organization == owner(scope.knowledgeBase)
    ensures Fresh(tokenize, owner, PersistStep(tokenize, WithRows(s, scope, rows), scope), partial - {scope})
  {
    hide Build, WriteSideFile, Covers, FileCovers;
    CoversItself(tokenize, rows);
  }

  lemma {:induction false} RemoveFresh(
      tokenize: Tokenizer, owner: nat -> nat, s: Store, partial: Counts, scope: Scope, rows: seq<CorpusRow>)
    requires Fresh(tokenize, owner, s, partial) && Allowed(owner, s, partial, Remove(scope, rows))
    ensures Fresh(tokenize, owner, WithRows(s, scope, rows), partial)
  {
    hide Build, WriteSideFile, Subsequence;
    var t := WithRows(s, scope, rows);
    forall key | key in t.cache
      ensures EntryFresh(tokenize, key, t.cache[key].docs, RowsIn(t, key.scope), partial)
    {
      if key.scope == scope && key.count !in CountsIn(partial, scope) {
        var written :| s.cache[key].docs == Build(tokenize, written) && Subsequence(RowsIn(s, scope), written);
        SubsequenceTransitive(rows, RowsIn(s, scope), written);
      }
    }
    forall path | path in t.files
      ensures FileCovers(tokenize, t.files[path], RowsIn(t, Scope(owner(path.knowledgeBase), path.knowledgeBase, path.model)))
    {
      if Scope(owner(path.knowledgeBase), path.knowledgeBase, path.model) == scope {
        var written :| s.files[path] == WriteSideFile(tokenize, written) && Subsequence(RowsIn(s, scope), written);
        SubsequenceTransitive(rows, RowsIn(s, scope), written);
      }
    }
  }

  /** One allowed event keeps the invariant; an unfiltered load answers from the current rows. */
  lemma {:induction false} EventAgrees(tokenize: Tokenizer, owner: nat -> nat, s: Store, partial: Counts, e: Event)
    requires TokenizerLaw(tokenize) && Fresh(tokenize, owner, s, partial) && Allowed(owner, s, partial, e)
    ensures Fresh(tokenize, owner, Apply(tokenize, s, e), Track(partial, s, e))
    ensures e.Load? && e.query.Unfiltered? ==>
      LoadStep(tokenize, s, e.scope, Unfiltered, e.hasRoot, e.now).1 == Build(tokenize, RowsIn(s, e.scope))
  {
    hide Fresh, LoadStep, PersistStep, WithRows, TokenizerLaw, Build, Subsequence;
    match e {
      case Publish(scope, rows) => PublishFresh(tokenize, owner, s, partial, scope, rows);
      case Remove(scope, rows) => RemoveFresh(tokenize, owner, s, partial, scope, rows);
      case Load(scope, q, hasRoot, now) =>
        if q.Unfiltered? {
          LoadAgrees(tokenize, owner, s, partial, scope, hasRoot, now);
        } else {
          FilteredLoadFresh(tokenize, owner, s, partial, scope, q, hasRoot, now);
        }
      case Restart => RestartFresh(tokenize, owner, s, partial);
    }
  }

  /**
   * Cache agreement over every run: from a fresh store, whatever is published,
   * removed, loaded with or without a filter and restarted in whatever order,
   * every unfiltered load returns the index built from the current rows,
   * whether it comes from the process cache, the side file or a rebuild, as
   * long as no removal leaves as many rows as a partial load has selected
   * since the scope was last published or the process last started.
   */
  lemma {:induction false} EveryLoadAgrees(tokenize: Tokenizer, owner: nat -> nat, s: Store, partial: Counts, run: seq<Event>)
    requires TokenizerLaw(tokenize) && Fresh(tokenize, owner, s, partial) && AllAllowed(tokenize, owner, s, partial, run)
    ensures AllLoadsAgree(tokenize, s, run)
    decreases |run|
  {
    hide Fresh, LoadStep, Apply, Track, TokenizerLaw, Build, Allowed;
    if run != [] {
      EventAgrees(tokenize, owner, s, partial, run[0]);
      EveryLoadAgrees(tokenize, owner, Apply(tokenize, s, run[0]), Track(partial, s, run[0]), run[1..]);
    }
  }

  lemma RestartFresh(tokenize: Tokenizer, owner: nat -> nat, s: Store, partial: Counts)
    requires Fresh(tokenize, owner, s, partial)
    ensures Fresh(tokenize, owner, Store(s.corpus, map[], s.files), map[])
  {
  }

  /** A new process without files is fresh, whatever rows the database holds. */
  lemma ColdStartFresh(tokenize: Tokenizer, owner: nat -> nat, corpus: map<Scope, seq<CorpusRow>>)
    requires forall scope :: scope in corpus ==> scope.organization == owner(scope.knowledgeBase)
    ensures Fresh(tokenize, owner, Store(corpus, map[], map[]), map[])
  {
  }

  // --------------------------------------------- what the discipline excludes

  lemma {:induction false} BuildIsInjective(tokenize: Tokenizer, a: seq<CorpusRow>, b: seq<CorpusRow>)
    requires Build(tokenize, a) == Build(tokenize, b)
    ensures a == b
  {
    hide *;
    if a != [] && b != [] {
      BuildSplits(tokenize, a);
      BuildSplits(tokenize, b);
      BuildIsInjective(tokenize, a[1..], b[1..]);
      assert a == [a[0]] + a[1..] && b == [b[0]] + b[1..];
    }
  }

  lemma BuildSplits(tokenize: Tokenizer, rows: seq<CorpusRow>)
    requires rows != []
    ensures Build(tokenize, rows)[0].row == rows[0] && Build(tokenize, rows)[1..] == Build(tokenize, rows[1..])
  {
    hide IndexText;
  }

  /**
   * A filtered load answers with the index of its own rows exactly when no
   * live cache entry has as many rows, or that entry was built for the same
   * rows.
   */
  lemma {:induction false} FilteredLoadAgreesExactlyWhen(
      tokenize: Tokenizer, s: Store, scope: Scope, keep: CorpusRow -> bool, hasRoot: bool, now: int, cached: seq<CorpusRow>)
    requires
      var key := Key(scope, |Select(RowsIn(s, scope), Filtered(keep))|);
      IsHit(s, key, now) ==> s.cache[key].docs == Build(tokenize, cached)
    ensures
      var rows := Select(RowsIn(s, scope), Filtered(keep));
      LoadStep(tokenize, s, scope, Filtered(keep), hasRoot, now).1 == Build(tokenize, rows)
      <==> (!IsHit(s, Key(scope, |rows|), now) || cached == rows)
  {
    var rows := Select(RowsIn(s, scope), Filtered(keep));
    if IsHit(s, Key(scope, |rows|), now) && Build(tokenize, cached) == Build(tokenize, rows) {
      BuildIsInjective(tokenize, cached, rows);
    }
  }

  /** Filtered loads share the cache key: the second of two answers with the first one's rows. */
  lemma {:induction false} FilteredLoadsCollide(tokenize: Tokenizer, scope: Scope, a: CorpusRow, b: CorpusRow, now: int)
    requires a.documentId == 1 && b.documentId == 2
    ensures var s := Store(map[scope := [a, b]], map[], map[]);
      var first := LoadStep(tokenize, s, scope, Filtered((r: CorpusRow) => r.documentId == 1), false, now);
      var second := LoadStep(tokenize, first.0, scope, Filtered((r: CorpusRow) => r.documentId == 2), false, now);
      second.1 == Build(tokenize, [a]) && second.1 != Build(tokenize, [b])
  {
    var one, two := Filtered((r: CorpusRow) => r.documentId == 1), Filtered((r: CorpusRow) => r.documentId == 2);
    assert [a, b][1..] == [b] && [b][1..] == [];
    assert Select([b], one) == [] && Select([b], two) == [b];
    assert Select([a, b], one) == [a] && Select([a, b], two) == [b];
    assert Build(tokenize, [a])[0].row == a && Build(tokenize, [b])[0].row == b;
  }

  /**
   * A removal that leaves as many rows as a filtered load has just selected:
   * the next unfiltered load, within the cache's lifetime, is right exactly
   * when the rows left are the rows selected.
   */
  lemma {:induction false} RemovalAfterFilteredLoad(
      tokenize: Tokenizer, s: Store, scope: Scope, keep: CorpusRow -> bool, rows: seq<CorpusRow>, hasRoot: bool, now: int, later: int)
    requires
      var selected := Select(RowsIn(s, scope), Filtered(keep));
      |rows| == |selected| && !IsHit(s, Key(scope, |selected|), now)
    requires later - now <= CACHE_TTL_SECONDS
    ensures
      var first := LoadStep(tokenize, s, scope, Filtered(keep), hasRoot, now).0;
      LoadStep(tokenize, WithRows(first, scope, rows), scope, Unfiltered, hasRoot, later).1 == Build(tokenize, rows)
      <==> rows == Select(RowsIn(s, scope), Filtered(keep))
  {
    hide LoadSideFile, WriteSideFile;
    var selected := Select(RowsIn(s, scope), Filtered(keep));
    var first := LoadStep(tokenize, s, scope, Filtered(keep), hasRoot, now).0;
    assert IsHit(WithRows(first, scope, rows), Key(scope, |rows|), later);
    if Build(tokenize, selected) == Build(tokenize, rows) {
      BuildIsInjective(tokenize, selected, rows);
    }
  }

  /** A filtered load of `b`, then the removal of `b`: the next unfiltered load still finds `b`. */
  lemma {:induction false} FilteredLoadSpoilsUnfiltered(tokenize: Tokenizer, scope: Scope, a: CorpusRow, b: CorpusRow, now: int)
    requires a.documentId == 1 && b.documentId == 2
    ensures var s := Store(map[scope := [a, b]], map[], map[]);
      var first := LoadStep(tokenize, s, scope, Filtered((r: CorpusRow) => r.documentId == 2), false, now).0;
      var second := LoadStep(tokenize, WithRows(first, scope, [a]), scope, Unfiltered, false, now);
      && Subsequence([a], [a, b])
      && second.1 == Build(tokenize, [b]) && second.1 != Build(tokenize, [a])
  {
    var s, keep := Store(map[scope := [a, b]], map[], map[]), (r: CorpusRow) => r.documentId == 2;
    assert [a, b][1..] == [b] && [b][1..] == [];
    assert Select([b], Filtered(keep)) == [b] + Select([], Filtered(keep)) == [b];
    assert Select([a, b], Filtered(keep)) == Select([b], Filtered(keep));
    assert Subsequence([a][1..], [b]);
    RemovalAfterFilteredLoad(tokenize, s, scope, keep, [a], false, now, now);
  }

  /** Replacing a row without persisting leaves the old index in the cache. */
  lemma {:induction false} UnpersistedReplacementIsMissed(tokenize: Tokenizer, scope: Scope, a: CorpusRow, b: CorpusRow, now: int)
    requires a != b
    ensures var s := LoadStep(tokenize, Store(map[scope := [a]], map[], map[]), scope, Unfiltered, false, now).0;
      LoadStep(tokenize, WithRows(s, scope, [b]), scope, Unfiltered, false, now).1 != Build(tokenize, [b])
  {
    assert Build(tokenize, [a])[0].row == a && Build(tokenize, [b])[0].row == b;
  }
}
