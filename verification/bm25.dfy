/**
 * Okapi BM25 over FAQ segments: the index object and its search, with the
 * tokenizer, the segmenter and the logarithm left open.
 */
module Bm25 {
  import opened PythonText
  import opened Sorting

  datatype LexicalDocument = LexicalDocument(
    chunkId: nat, chunkIndex: int, heading: Option<string>, text: string, tokens: seq<string>)

  datatype Hit = Hit(chunkId: nat, score: real, rank: nat)

  /** `split_faq_segments`, `tokenize_lexical` and `math.log`. */
  datatype Analyzer = Analyzer(segments: string -> seq<string>, tokenize: string -> seq<string>, ln: real -> real)

  /** The one fact about the logarithm that scoring rests on. */
  ghost predicate LnPositiveAboveOne(a: Analyzer) {
    forall x :: x > 1.0 ==> a.ln(x) > 0.0
  }

  // --------------------------------------------------------------- expansion

  function SourceText(d: LexicalDocument): string {
    if d.heading.Some? && d.heading.value != "" then d.heading.value + "\n" + d.text else d.text
  }

  /** The first `n` segments of a document that have tokens, as documents of their own. */
  function SegmentDocs(a: Analyzer, d: LexicalDocument, segments: seq<string>, n: nat): seq<LexicalDocument>
    requires n <= |segments|
  {
    if n == 0 then []
    else
      var tokens := a.tokenize(segments[n - 1]);
      SegmentDocs(a, d, segments, n - 1) + if tokens == [] then [] else [d.(tokens := tokens)]
  }

  predicate HasChunk(docs: seq<LexicalDocument>, chunkId: nat) {
    exists i :: 0 <= i < |docs| && docs[i].chunkId == chunkId
  }

  /** The segment corpus of the first `n` documents. */
  function Expanded(a: Analyzer, documents: seq<LexicalDocument>, n: nat): seq<LexicalDocument>
    requires n <= |documents|
  {
    if n == 0 then []
    else
      var d := documents[n - 1];
      var segments := a.segments(SourceText(d));
      var expanded := Expanded(a, documents, n - 1) + SegmentDocs(a, d, segments, |segments|);
      if HasChunk(expanded, d.chunkId) then expanded else expanded + [d]
  }

  // ----------------------------------------------------------------- scoring

  /** Occurrences of `t` among the first `n` tokens. */
  function Occurrences(tokens: seq<string>, n: nat, t: string): (c: nat)
    requires n <= |tokens|
  {
    if n == 0 then 0 else Occurrences(tokens, n - 1, t) + if tokens[n - 1] == t then 1 else 0
  }

  /** How many of the first `n` documents contain `t`. */
  function DocFrequency(docs: seq<LexicalDocument>, n: nat, t: string): (c: nat)
    requires n <= |docs|
    ensures c <= n
  {
    if n == 0 then 0 else DocFrequency(docs, n - 1, t) + if t in docs[n - 1].tokens then 1 else 0
  }

  function TotalLength(docs: seq<LexicalDocument>, n: nat): nat
    requires n <= |docs|
  {
    if n == 0 then 0 else TotalLength(docs, n - 1) + |docs[n - 1].tokens|
  }

  function AverageLength(docs: seq<LexicalDocument>): (r: real)
    ensures r >= 0.0
  {
    if docs == [] then 0.0 else TotalLength(docs, |docs|) as real / |docs| as real
  }

  /** The tuning constants; the source uses k1 = 1.5 and b = 0.75. */
  predicate Tuned(k1: real, b: real) { k1 >= 0.0 && 0.0 <= b <= 1.0 }

  const TINY := 0.000000001

  function Idf(a: Analyzer, size: nat, df: nat): real {
    a.ln(1.0 + (size as real - df as real + 0.5) / (df as real + 0.5))
  }

  function LengthNorm(k1: real, b: real, docLen: nat, average: real): (r: real)
    requires Tuned(k1, b) && average >= 0.0
    ensures r >= 0.0
  {
    var floor := if average >= TINY then average else TINY;
    assert docLen as real / floor >= 0.0;
    assert b * (docLen as real / floor) >= 0.0;
    k1 * (1.0 - b + b * (docLen as real / floor))
  }

  /** The saturating term weight: `norm` is the length-normalised part of the denominator. */
  function Weigh(idf: real, frequency: nat, k1: real, norm: real): real
    requires frequency > 0 && norm >= 0.0
  {
    idf * (frequency as real * (k1 + 1.0)) / (frequency as real + norm)
  }

  /** What one query token adds to a document's score. */
  function TokenScore(a: Analyzer, docs: seq<LexicalDocument>, k1: real, b: real, d: LexicalDocument, t: string): real
    requires Tuned(k1, b)
  {
    var f := Occurrences(d.tokens, |d.tokens|, t);
    if f == 0 then 0.0
    else
      Weigh(Idf(a, |docs|, DocFrequency(docs, |docs|, t)), f, k1, LengthNorm(k1, b, |d.tokens|, AverageLength(docs)))
  }

  /** The score of document `d` for the first `n` query tokens. */
  function Score(a: Analyzer, docs: seq<LexicalDocument>, k1: real, b: real, d: LexicalDocument, query: seq<string>, n: nat): real
    requires n <= |query| && Tuned(k1, b)
  {
    if n == 0 then 0.0
    else Score(a, docs, k1, b, d, query, n - 1) + TokenScore(a, docs, k1, b, d, query[n - 1])
  }

  lemma {:induction false} OccursIffMember(tokens: seq<string>, n: nat, t: string)
    requires n <= |tokens|
    ensures Occurrences(tokens, n, t) > 0 <==> t in tokens[..n]
  {
    if n > 0 {
      assert tokens[..n] == tokens[..n - 1] + [tokens[n - 1]];
      OccursIffMember(tokens, n - 1, t);
    }
  }

  /** The document frequency never exceeds the corpus size, so every idf is positive. */
  lemma IdfPositive(a: Analyzer, docs: seq<LexicalDocument>, t: string)
    requires LnPositiveAboveOne(a)
    ensures Idf(a, |docs|, DocFrequency(docs, |docs|, t)) > 0.0
  {
    var df := DocFrequency(docs, |docs|, t);
    var x := (|docs| as real - df as real + 0.5) / (df as real + 0.5);
    assert x * (df as real + 0.5) == |docs| as real - df as real + 0.5;
    assert x > 0.0;
  }

  lemma QuotientPositive(x: real, y: real)
    requires x > 0.0 && y > 0.0
    ensures x / y > 0.0
  {
    assert (x / y) * y == x;
  }

  lemma TokenScoreSign(a: Analyzer, docs: seq<LexicalDocument>, k1: real, b: real, d: LexicalDocument, t: string)
    requires Tuned(k1, b) && LnPositiveAboveOne(a)
    ensures TokenScore(a, docs, k1, b, d, t) >= 0.0
    ensures TokenScore(a, docs, k1, b, d, t) > 0.0 <==> t in d.tokens
  {
    OccursIffMember(d.tokens, |d.tokens|, t);
    assert d.tokens[..|d.tokens|] == d.tokens;
    var f := Occurrences(d.tokens, |d.tokens|, t);
    if f > 0 {
      IdfPositive(a, docs, t);
      hide Idf, LengthNorm, Weigh;
      WeighPositive(Idf(a, |docs|, DocFrequency(docs, |docs|, t)), f, k1, LengthNorm(k1, b, |d.tokens|, AverageLength(docs)));
    }
  }

  lemma WeighPositive(idf: real, frequency: nat, k1: real, norm: real)
    requires idf > 0.0 && frequency > 0 && k1 >= 0.0 && norm >= 0.0
    ensures Weigh(idf, frequency, k1, norm) > 0.0
  {
    var w := frequency as real * (k1 + 1.0);
    assert w >= k1 + 1.0;
    assert idf * w > 0.0;
    QuotientPositive(idf * w, frequency as real + norm);
  }

  /** The scores of the first `n` documents. */
  ghost function ScoresUpTo(a: Analyzer, docs: seq<LexicalDocument>, k1: real, b: real, query: seq<string>, n: nat): (r: seq<real>)
    requires n <= |docs| && Tuned(k1, b)
    ensures |r| == n && forall i :: 0 <= i < n ==> r[i] == Score(a, docs, k1, b, docs[i], query, |query|)
  {
    if n == 0 then []
    else ScoresUpTo(a, docs, k1, b, query, n - 1) + [Score(a, docs, k1, b, docs[n - 1], query, |query|)]
  }

  ghost predicate SharesToken(d: LexicalDocument, query: seq<string>) {
    exists i :: 0 <= i < |query| && query[i] in d.tokens
  }

  /** A score is positive exactly when the document shares a token with the query. */
  lemma {:induction false} PositiveIffShares(
      a: Analyzer, docs: seq<LexicalDocument>, k1: real, b: real, d: LexicalDocument, query: seq<string>, n: nat)
    requires n <= |query| && Tuned(k1, b) && LnPositiveAboveOne(a)
    ensures Score(a, docs, k1, b, d, query, n) >= 0.0
    ensures Score(a, docs, k1, b, d, query, n) > 0.0 <==> exists i :: 0 <= i < n && query[i] in d.tokens
  {
    if n > 0 {
      hide TokenScore;
      PositiveIffShares(a, docs, k1, b, d, query, n - 1);
      TokenScoreSign(a, docs, k1, b, d, query[n - 1]);
    }
  }

  // --------------------------------------------------- the meaning of search

  /** `s` is the best score of chunk `c`, and it is positive. */
  ghost predicate IsBest(scores: seq<real>, docs: seq<LexicalDocument>, n: nat, c: nat, s: real)
    requires n <= |docs| == |scores|
  {
    && s > 0.0
    && (exists i :: 0 <= i < n && docs[i].chunkId == c && scores[i] == s)
    && (forall i :: 0 <= i < n && docs[i].chunkId == c ==> scores[i] <= s)
  }

  /** `key=lambda item: (-item[0], item[1], item[2])`; the third part never decides. */
  datatype Entry = Entry(score: real, chunkId: nat, chunkIndex: int)

  predicate Leq(x: Entry, y: Entry) {
    || x.score > y.score
    || (x.score == y.score &&
        (x.chunkId < y.chunkId || (x.chunkId == y.chunkId && x.chunkIndex <= y.chunkIndex)))
  }

  lemma LeqIsOrder()
    ensures TotalPreorder(Leq)
  {
  }

  predicate HitBefore(x: Hit, y: Hit) {
    x.score > y.score || (x.score == y.score && x.chunkId < y.chunkId)
  }

  /**
   * The hits are the chunks with a positive best segment score, each once with
   * that score, best first with ties by id, cut off after `topK`.
   */
  ghost predicate IsSearchResult(scores: seq<real>, docs: seq<LexicalDocument>, topK: int, hits: seq<Hit>)
    requires |docs| == |scores|
  {
    && (forall i :: 0 <= i < |hits| ==> IsBest(scores, docs, |docs|, hits[i].chunkId, hits[i].score) && hits[i].rank == i + 1)
    && (forall i, j :: 0 <= i < j < |hits| ==> HitBefore(hits[i], hits[j]))
    && |hits| <= Max(0, topK)
    && (forall c, s :: IsBest(scores, docs, |docs|, c, s) ==>
          || (exists i :: 0 <= i < |hits| && hits[i].chunkId == c)
          || (|hits| == Max(0, topK) && forall i :: 0 <= i < |hits| ==> HitBefore(hits[i], Hit(c, s, 0))))
  }

  /** Each chunk appears at most once. */
  lemma {:induction false} HitsAreDistinct(scores: seq<real>, docs: seq<LexicalDocument>, topK: int, hits: seq<Hit>, i: nat, j: nat)
    requires |docs| == |scores| && IsSearchResult(scores, docs, topK, hits) && i < j < |hits|
    ensures hits[i].chunkId != hits[j].chunkId
  {
    if hits[i].chunkId == hits[j].chunkId {
      hide HitBefore;
      BestUnique(scores, docs, hits[i].chunkId, hits[i].score, hits[j].score);
    }
    assert HitBefore(hits[i], hits[j]);
  }

  lemma BestUnique(scores: seq<real>, docs: seq<LexicalDocument>, c: nat, s: real, t: real)
    requires |docs| == |scores| && IsBest(scores, docs, |docs|, c, s) && IsBest(scores, docs, |docs|, c, t)
    ensures s == t
  {
    var i :| 0 <= i < |docs| && docs[i].chunkId == c && scores[i] == s;
    var j :| 0 <= j < |docs| && docs[j].chunkId == c && scores[j] == t;
  }

  lemma {:induction false} BestExists(scores: seq<real>, docs: seq<LexicalDocument>, n: nat, c: nat, k: nat) returns (s: real)
    requires k < n <= |docs| == |scores| && docs[k].chunkId == c && scores[k] > 0.0
    ensures IsBest(scores, docs, n, c, s)
  {
    if n == k + 1 {
      if m :| 0 <= m < k && docs[m].chunkId == c && scores[m] > 0.0 {
        var t := BestExists(scores, docs, k, c, m);
        s := if scores[k] > t then scores[k] else t;
      } else {
        s := scores[k];
      }
    } else {
      var t := BestExists(scores, docs, n - 1, c, k);
      s := if docs[n - 1].chunkId == c && scores[n - 1] > t then scores[n - 1] else t;
      assert docs[n - 1].chunkId == c && scores[n - 1] > t ==> scores[n - 1] == s;
    }
  }

  // ---------------------------------------------------------------- the index

  class BM25Index {
    const analyzer: Analyzer
    const k1: real
    const b: real
    var documents: seq<LexicalDocument>
    var canonical: map<nat, LexicalDocument>
    var docLen: seq<nat>
    var average: real
    var df: map<string, nat>

    ghost predicate Valid()
      reads this
    {
      && Tuned(k1, b) && LnPositiveAboveOne(analyzer)
      && |docLen| == |documents| && (forall i :: 0 <= i < |documents| ==> docLen[i] == |documents[i].tokens|)
      && average == AverageLength(documents)
      && Counts(df, documents, |documents|)
    }

    constructor (analyzer: Analyzer, documents: seq<LexicalDocument>, k1: real, b: real)
      requires Tuned(k1, b) && LnPositiveAboveOne(analyzer)
      ensures Valid() && this.analyzer == analyzer && this.k1 == k1 && this.b == b
      ensures this.documents == Expanded(analyzer, documents, |documents|)
      ensures forall d :: d in documents ==> d.chunkId in canonical && canonical[d.chunkId].chunkId == d.chunkId
    {
      var expanded := ExpandAll(analyzer, documents);
      var canonicalDocs: map<nat, LexicalDocument> := map[];
      for i := 0 to |documents|
        invariant forall j :: 0 <= j < i ==>
          documents[j].chunkId in canonicalDocs && canonicalDocs[documents[j].chunkId].chunkId == documents[j].chunkId
      {
        canonicalDocs := canonicalDocs[documents[i].chunkId := documents[i]];
      }
      var lengths: seq<nat> := [];
      var total := 0;
      for i := 0 to |expanded|
        invariant |lengths| == i && (forall j :: 0 <= j < i ==> lengths[j] == |expanded[j].tokens|)
        invariant total == TotalLength(expanded, i)
      {
        lengths := lengths + [|expanded[i].tokens|];
        total := total + |expanded[i].tokens|;
      }
      var counts := CountDocuments(expanded);
      this.analyzer, this.k1, this.b := analyzer, k1, b;
      this.documents, this.canonical, this.docLen := expanded, canonicalDocs, lengths;
      this.average := if expanded == [] then 0.0 else total as real / |expanded| as real;
      this.df := counts;
    }

    /** Every document's score for a query. */
    ghost function Scores(query: seq<string>): (r: seq<real>)
      requires Valid()
      reads this
    {
      ScoresUpTo(analyzer, documents, k1, b, query, |documents|)
    }

    /** `_score_document`. */
    method ScoreDocument(query: seq<string>, docIndex: nat) returns (score: real)
      requires Valid() && docIndex < |documents|
      ensures score == Score(analyzer, documents, k1, b, documents[docIndex], query, |query|)
    {
      var d := documents[docIndex];
      if d.tokens == [] {
        EmptyScoresZero(analyzer, documents, k1, b, d, query, |query|);
        return 0.0;
      }
      var tf := CountTokens(d.tokens);
      score := 0.0;
      for i := 0 to |query|
        invariant score == Score(analyzer, documents, k1, b, d, query, i)
      {
        hide Weigh, Idf, LengthNorm, TokenScore, Counts, Occurrences, DocFrequency;
        var t := query[i];
        var f := if t in tf then tf[t] else 0;
        var frequency := if t in df then df[t] else 0;
        CountsAt(df, documents, |documents|, t);
        TokenScoreValue(analyzer, documents, k1, b, d, t, f, frequency);
        if f != 0 {
          var idf := Idf(analyzer, |documents|, frequency);
          score := score + Weigh(idf, f, k1, LengthNorm(k1, b, docLen[docIndex], average));
        }
      }
    }

    /** `search`: best segment per chunk, sorted, cut to `topK`. */
    method Search(query: seq<string>, topK: int) returns (hits: seq<Hit>)
      requires Valid()
      ensures IsSearchResult(Scores(query), documents, topK, hits)
    {
      hide Score, IsBest, Tallied, IsSearchResult;
      ghost var scores := Scores(query);
      if documents == [] || query == [] || topK <= 0 {
        NothingFound(analyzer, documents, k1, b, query, topK, scores);
        return [];
      }
      var keys: seq<nat> := [];
      var best: map<nat, Entry> := map[];
      NothingTallied(scores, documents);
      for i := 0 to |documents|
        invariant Tallied(scores, documents, i, keys, best)
      {
        var score := ScoreDocument(query, i);
        TallyStep(scores, documents, i, keys, best);
        var d := documents[i];
        if score > 0.0 && (d.chunkId !in best || score > best[d.chunkId].score) {
          keys := if d.chunkId in best then keys else keys + [d.chunkId];
          best := best[d.chunkId := Entry(score, d.chunkId, d.chunkIndex)];
        }
      }
      TalliedKeys(scores, documents, keys, best);
      var sorted := Sort(EntriesOf(keys, best), Leq);
      hits := HitsOf(if topK < |sorted| then sorted[..topK] else sorted);
      TallyIsResult(scores, documents, keys, best, topK);
    }

    /**
     * With room for every match, a chunk is found exactly when one of its
     * segments shares a token with the query.
     */
    lemma {:induction false} FoundIffShares(query: seq<string>, topK: int, hits: seq<Hit>, c: nat)
      requires Valid() && IsSearchResult(Scores(query), documents, topK, hits) && |hits| < topK
      ensures (exists i :: 0 <= i < |hits| && hits[i].chunkId == c)
         <==> (exists k :: 0 <= k < |documents| && documents[k].chunkId == c && SharesToken(documents[k], query))
    {
      hide Score;
      var scores := Scores(query);
      if i :| 0 <= i < |hits| && hits[i].chunkId == c {
        var k :| 0 <= k < |documents| && documents[k].chunkId == c && scores[k] == hits[i].score;
        PositiveIffShares(analyzer, documents, k1, b, documents[k], query, |query|);
        assert SharesToken(documents[k], query);
      }
      if k :| 0 <= k < |documents| && documents[k].chunkId == c && SharesToken(documents[k], query) {
        PositiveIffShares(analyzer, documents, k1, b, documents[k], query, |query|);
        var s := BestExists(scores, documents, |documents|, c, k);
      }
    }
  }

  lemma TokenScoreValue(a: Analyzer, docs: seq<LexicalDocument>, k1: real, b: real, d: LexicalDocument, t: string, f: nat, df: nat)
    requires Tuned(k1, b)
    requires f == Occurrences(d.tokens, |d.tokens|, t) && df == DocFrequency(docs, |docs|, t)
    ensures TokenScore(a, docs, k1, b, d, t)
      == if f == 0 then 0.0
         else Weigh(Idf(a, |docs|, df), f, k1, LengthNorm(k1, b, |d.tokens|, AverageLength(docs)))
  {
    hide Weigh, Idf, LengthNorm;
  }

  // ----------------------------------------------------- construction loops

  method ExpandAll(a: Analyzer, documents: seq<LexicalDocument>) returns (expanded: seq<LexicalDocument>)
    ensures expanded == Expanded(a, documents, |documents|)
  {
    expanded := [];
    for n := 0 to |documents|
      invariant expanded == Expanded(a, documents, n)
    {
      var d := documents[n];
      var segments := a.segments(SourceText(d));
      ghost var before := expanded;
      for m := 0 to |segments|
        invariant expanded == before + SegmentDocs(a, d, segments, m)
      {
        var tokens := a.tokenize(segments[m]);
        if tokens == [] {
          continue;
        }
        expanded := expanded + [d.(tokens := tokens)];
      }
      if !HasChunk(expanded, d.chunkId) {
        expanded := expanded + [d];
      }
    }
  }

  ghost predicate Counts(df: map<string, nat>, docs: seq<LexicalDocument>, n: nat)
    requires n <= |docs|
  {
    forall t :: (if t in df then df[t] else 0) == DocFrequency(docs, n, t)
  }

  lemma CountsAt(df: map<string, nat>, docs: seq<LexicalDocument>, n: nat, t: string)
    requires n <= |docs| && Counts(df, docs, n)
    ensures (if t in df then df[t] else 0) == DocFrequency(docs, n, t)
  {
  }

  /** Document frequencies: each document counts each of its distinct tokens once. */
  method CountDocuments(docs: seq<LexicalDocument>) returns (df: map<string, nat>)
    ensures Counts(df, docs, |docs|)
  {
    df := map[];
    for n := 0 to |docs|
      invariant Counts(df, docs, n)
    {
      var tokens := docs[n].tokens;
      var todo := set t | t in tokens;
      ghost var before := df;
      while todo != {}
        invariant todo <= set t | t in tokens
        invariant forall t ::
          (if t in df then df[t] else 0) == (if t in before then before[t] else 0) + if t in tokens && t !in todo then 1 else 0
        decreases |todo|
      {
        var t :| t in todo;
        df := df[t := (if t in df then df[t] else 0) + 1];
        todo := todo - {t};
      }
    }
  }

  /** Term frequencies of one document. */
  method CountTokens(tokens: seq<string>) returns (tf: map<string, nat>)
    ensures forall t :: (if t in tf then tf[t] else 0) == Occurrences(tokens, |tokens|, t)
  {
    tf := map[];
    for i := 0 to |tokens|
      invariant forall t :: (if t in tf then tf[t] else 0) == Occurrences(tokens, i, t)
    {
      tf := tf[tokens[i] := (if tokens[i] in tf then tf[tokens[i]] else 0) + 1];
    }
  }

  lemma {:induction false} EmptyScoresZero(
      a: Analyzer, docs: seq<LexicalDocument>, k1: real, b: real, d: LexicalDocument, query: seq<string>, n: nat)
    requires n <= |query| && Tuned(k1, b) && d.tokens == []
    ensures Score(a, docs, k1, b, d, query, n) == 0.0
  {
    if n > 0 {
      EmptyScoresZero(a, docs, k1, b, d, query, n - 1);
    }
  }

  lemma {:induction false} NothingFound(
      a: Analyzer, docs: seq<LexicalDocument>, k1: real, b: real, query: seq<string>, topK: int, scores: seq<real>)
    requires Tuned(k1, b) && |scores| == |docs|
    requires forall i :: 0 <= i < |docs| ==> scores[i] == Score(a, docs, k1, b, docs[i], query, |query|)
    requires docs == [] || query == [] || topK <= 0
    ensures IsSearchResult(scores, docs, topK, [])
  {
    if query == [] {
      assert forall i :: 0 <= i < |docs| ==> scores[i] == 0.0;
    }
  }

  // ------------------------------------------------------------ search loop

  /** After `n` documents: `best` holds the best positive score of each chunk met, `keys` its insertion order. */
  ghost predicate Tallied(scores: seq<real>, docs: seq<LexicalDocument>, n: nat, keys: seq<nat>, best: map<nat, Entry>) {
    && n <= |docs| == |scores| && NoDups(keys)
    && (forall c :: c in keys <==> c in best)
    && (forall c :: c in best ==> best[c].chunkId == c && IsBest(scores, docs, n, c, best[c].score))
    && (forall i :: 0 <= i < n && scores[i] > 0.0 ==> docs[i].chunkId in best)
  }

  lemma NothingTallied(scores: seq<real>, docs: seq<LexicalDocument>)
    requires |docs| == |scores|
    ensures Tallied(scores, docs, 0, [], map[])
  {
  }

  lemma {:induction false} TallyStep(scores: seq<real>, docs: seq<LexicalDocument>, n: nat, keys: seq<nat>, best: map<nat, Entry>)
    requires n < |docs| && Tallied(scores, docs, n, keys, best)
    ensures var d := docs[n];
      if scores[n] > 0.0 && (d.chunkId !in best || scores[n] > best[d.chunkId].score) then
        Tallied(scores, docs, n + 1, if d.chunkId in best then keys else keys + [d.chunkId],
          best[d.chunkId := Entry(scores[n], d.chunkId, d.chunkIndex)])
      else Tallied(scores, docs, n + 1, keys, best)
  {
    var d := docs[n];
    forall c | c in best && c != d.chunkId
      ensures IsBest(scores, docs, n + 1, c, best[c].score)
    {
      BestExtends(scores, docs, n, c, best[c].score);
    }
    if scores[n] > 0.0 && (d.chunkId !in best || scores[n] > best[d.chunkId].score) {
      forall i | 0 <= i < n && docs[i].chunkId == d.chunkId
        ensures scores[i] <= scores[n]
      {
        if d.chunkId in best {
          assert scores[i] <= best[d.chunkId].score;
        }
      }
      assert IsBest(scores, docs, n + 1, d.chunkId, scores[n]);
    } else if d.chunkId in best {
      BestExtends(scores, docs, n, d.chunkId, best[d.chunkId].score);
    }
  }

  lemma BestExtends(scores: seq<real>, docs: seq<LexicalDocument>, n: nat, c: nat, s: real)
    requires n < |docs| == |scores| && IsBest(scores, docs, n, c, s)
    requires docs[n].chunkId == c ==> scores[n] <= s
    ensures IsBest(scores, docs, n + 1, c, s)
  {
  }

  lemma TalliedKeys(scores: seq<real>, docs: seq<LexicalDocument>, keys: seq<nat>, best: map<nat, Entry>)
    requires Tallied(scores, docs, |docs|, keys, best)
    ensures forall c :: c in keys ==> c in best
  {
  }

  function EntriesOf(keys: seq<nat>, best: map<nat, Entry>): (r: seq<Entry>)
    requires forall c :: c in keys ==> c in best
    ensures |r| == |keys| && forall i :: 0 <= i < |r| ==> r[i] == best[keys[i]]
  {
    seq(|keys|, i requires 0 <= i < |keys| => assert keys[i] in keys; best[keys[i]])
  }

  function HitsOf(entries: seq<Entry>): (r: seq<Hit>)
    ensures |r| == |entries|
    ensures forall i :: 0 <= i < |r| ==> r[i] == Hit(entries[i].chunkId, entries[i].score, i + 1)
  {
    seq(|entries|, i requires 0 <= i < |entries| => Hit(entries[i].chunkId, entries[i].score, i + 1))
  }

  lemma {:induction false} TallyIsResult(scores: seq<real>, docs: seq<LexicalDocument>, keys: seq<nat>, best: map<nat, Entry>, topK: int)
    requires topK > 0 && Tallied(scores, docs, |docs|, keys, best) && forall c :: c in keys ==> c in best
    ensures var sorted := Sort(EntriesOf(keys, best), Leq);
      IsSearchResult(scores, docs, topK, HitsOf(if topK < |sorted| then sorted[..topK] else sorted))
  {
    var e := EntriesOf(keys, best);
    LeqIsOrder();
    SortSorts(e, Leq);
    SortPermutes(e, Leq);
    SortMembers(e, Leq);
    var sorted := Sort(e, Leq);
    hide Sort, IsBest;
    EntriesDistinct(scores, docs, keys, best);
    NoDupsCarries(e, sorted);
    forall i | 0 <= i < |sorted|
      ensures sorted[i].chunkId in best && sorted[i] == best[sorted[i].chunkId]
    {
      assert sorted[i] in e;
      var j :| 0 <= j < |e| && e[j] == sorted[i];
      assert keys[j] in keys;
    }
    forall i, j | 0 <= i < j < |sorted|
      ensures sorted[i].score > sorted[j].score || (sorted[i].score == sorted[j].score && sorted[i].chunkId < sorted[j].chunkId)
    {
      assert Leq(sorted[i], sorted[j]) && sorted[i] != sorted[j];
    }
    forall c, s | IsBest(scores, docs, |docs|, c, s)
      ensures exists i :: 0 <= i < |sorted| && sorted[i].chunkId == c && sorted[i].score == s
    {
      BestIsTallied(scores, docs, keys, best, c, s);
      assert c in keys;
      var j :| 0 <= j < |keys| && keys[j] == c;
      assert e[j] in sorted;
    }
    CutIsResult(scores, docs, sorted, topK);
  }

  lemma BestIsTallied(scores: seq<real>, docs: seq<LexicalDocument>, keys: seq<nat>, best: map<nat, Entry>, c: nat, s: real)
    requires Tallied(scores, docs, |docs|, keys, best) && IsBest(scores, docs, |docs|, c, s)
    ensures c in best && best[c].score == s
  {
    BestUnique(scores, docs, c, s, if c in best then best[c].score else s);
  }

  lemma EntriesDistinct(scores: seq<real>, docs: seq<LexicalDocument>, keys: seq<nat>, best: map<nat, Entry>)
    requires Tallied(scores, docs, |docs|, keys, best) && forall c :: c in keys ==> c in best
    ensures NoDups(EntriesOf(keys, best))
  {
    var e := EntriesOf(keys, best);
    forall i, j | 0 <= i < j < |e|
      ensures e[i] != e[j]
    {
      assert keys[i] in keys && keys[j] in keys;
    }
  }

  lemma {:induction false} CutIsResult(scores: seq<real>, docs: seq<LexicalDocument>, sorted: seq<Entry>, topK: int)
    requires topK > 0 && |docs| == |scores|
    requires forall i :: 0 <= i < |sorted| ==> IsBest(scores, docs, |docs|, sorted[i].chunkId, sorted[i].score)
    requires forall i, j :: 0 <= i < j < |sorted| ==>
      sorted[i].score > sorted[j].score || (sorted[i].score == sorted[j].score && sorted[i].chunkId < sorted[j].chunkId)
    requires forall c, s :: IsBest(scores, docs, |docs|, c, s) ==>
      exists i :: 0 <= i < |sorted| && sorted[i].chunkId == c && sorted[i].score == s
    ensures IsSearchResult(scores, docs, topK, HitsOf(if topK < |sorted| then sorted[..topK] else sorted))
  {
    hide IsBest;
    var hits := HitsOf(if topK < |sorted| then sorted[..topK] else sorted);
    forall c, s | IsBest(scores, docs, |docs|, c, s)
      ensures (exists i :: 0 <= i < |hits| && hits[i].chunkId == c)
        || (|hits| == topK && forall i :: 0 <= i < |hits| ==> HitBefore(hits[i], Hit(c, s, 0)))
    {
      var i :| 0 <= i < |sorted| && sorted[i].chunkId == c && sorted[i].score == s;
      if i < |hits| {
        assert hits[i].chunkId == c;
      }
    }
  }
}
