/** What BM25 scores mean: rarer tokens, more occurrences and shorter segments weigh more, and the ranking follows. */
module Bm25Ranking {
  import opened Bm25
  import opened PythonText

  /** The logarithm rises strictly on the positive reals. */
  ghost predicate LnRises(a: Analyzer) {
    forall x, y :: 0.0 < x < y ==> a.ln(x) < a.ln(y)
  }

  // ------------------------------------------------------------ arithmetic

  lemma QuotientsCompare(x: real, y: real, p: real, q: real)
    requires y > 0.0 && q > 0.0 && x * q < p * y
    ensures x / y < p / q
  {
    var l, r := x / y, p / q;
    assert l * y == x && r * q == p;
    assert l * (y * q) == (l * y) * q == x * q;
    assert r * (y * q) == (r * q) * y == p * y;
    if l >= r {
      ProductsCompare(y * q, r, l);
    }
  }

  lemma ProductsCompare(c: real, x: real, y: real)
    requires c > 0.0 && x <= y
    ensures x * c <= y * c
    ensures x < y ==> x * c < y * c
  {
    var d := y - x;
    assert d * c >= 0.0 && (d > 0.0 ==> d * c > 0.0);
    assert y * c == x * c + d * c;
  }

  // ------------------------------------------------------------ one token

  /** A token in fewer documents has the larger inverse document frequency. */
  lemma {:induction false} RarerWeighsMore(a: Analyzer, size: nat, rare: nat, common: nat)
    requires LnRises(a) && rare < common <= size
    ensures Idf(a, size, rare) > Idf(a, size, common)
  {
    var n, r, c := size as real, rare as real, common as real;
    var x, y := (n - c + 0.5) / (c + 0.5), (n - r + 0.5) / (r + 0.5);
    assert (n - c + 0.5) * (r + 0.5) < (n - r + 0.5) * (c + 0.5) by {
      assert (n - r + 0.5) * (c + 0.5) - (n - c + 0.5) * (r + 0.5) == (n + 1.0) * (c - r);
      ProductsCompare(c - r, 0.0, n + 1.0);
    }
    QuotientsCompare(n - c + 0.5, c + 0.5, n - r + 0.5, r + 0.5);
    QuotientPositive(n - c + 0.5, c + 0.5);
  }

  /** The inverse document frequency as one quotient: the larger the corpus and the rarer the token, the larger. */
  lemma {:induction false} IdfIsOneQuotient(a: Analyzer, size: nat, df: nat)
    requires df <= size
    ensures Idf(a, size, df) == a.ln((size + 1) as real / (df as real + 0.5))
  {
    var n, c := size as real, df as real + 0.5;
    var q := (n - df as real + 0.5) / c;
    assert q * c == n - df as real + 0.5;
    assert (1.0 + q) * c == c + q * c == (size + 1) as real;
    QuotientIs((size + 1) as real, c, 1.0 + q);
    assert Idf(a, size, df) == a.ln(1.0 + q);
  }

  lemma WeighGrows(idf: real, more: real, f: nat, k1: real, norm: real)
    requires idf < more && f > 0 && k1 >= 0.0 && norm >= 0.0
    ensures Weigh(idf, f, k1, norm) < Weigh(more, f, k1, norm)
  {
    var g, b := f as real * (k1 + 1.0), f as real + norm;
    assert g > 0.0;
    ProductsCompare(g, idf, more);
    ProductsCompare(b, idf * g, more * g);
    QuotientsCompare(idf * g, b, more * g, b);
  }

  lemma WeighSaturates(idf: real, f: nat, g: nat, k1: real, norm: real)
    requires idf > 0.0 && 0 < f < g && k1 >= 0.0 && norm > 0.0
    ensures Weigh(idf, f, k1, norm) < Weigh(idf, g, k1, norm) < idf * (k1 + 1.0)
  {
    var c, x, y := idf * (k1 + 1.0), f as real, g as real;
    ProductsCompare(k1 + 1.0, 0.0, idf);
    ProductsCompare(c * norm, x, y) by { ProductsCompare(norm, 0.0, c); }
    assert idf * (x * (k1 + 1.0)) == c * x && idf * (y * (k1 + 1.0)) == c * y;
    assert (c * x) * (y + norm) == c * x * y + x * (c * norm) && (c * y) * (x + norm) == c * x * y + y * (c * norm);
    QuotientsCompare(c * x, x + norm, c * y, y + norm);
    ProductsCompare(norm, 0.0, c);
    assert (c * y) * 1.0 < c * (y + norm);
    QuotientsCompare(c * y, y + norm, c, 1.0);
  }

  lemma WeighFallsWithNorm(idf: real, f: nat, k1: real, short: real, long: real)
    requires idf > 0.0 && f > 0 && k1 >= 0.0 && 0.0 <= short < long
    ensures Weigh(idf, f, k1, long) < Weigh(idf, f, k1, short)
  {
    var g := idf * (f as real * (k1 + 1.0));
    assert f as real * (k1 + 1.0) > 0.0;
    ProductsCompare(f as real * (k1 + 1.0), 0.0, idf);
    ProductsCompare(g, f as real + short, f as real + long);
    QuotientsCompare(g, f as real + long, g, f as real + short);
  }

  lemma NormRises(k1: real, b: real, short: nat, long: nat, average: real)
    requires Tuned(k1, b) && k1 > 0.0 && b > 0.0 && average >= 0.0 && short < long
    ensures LengthNorm(k1, b, short, average) < LengthNorm(k1, b, long, average)
  {
    var floor := if average >= TINY then average else TINY;
    hide *;
    var x, p := NormParts(k1, b, short, average, floor);
    var y, q := NormParts(k1, b, long, average, floor);
    if y <= x {
      ProductsCompare(floor, y, x);
    }
    ProductsCompare(b, x, y);
    ProductsCompare(k1, p, q);
  }

  lemma NormParts(k1: real, b: real, n: nat, average: real, floor: real) returns (q: real, share: real)
    requires Tuned(k1, b) && average >= 0.0 && floor == if average >= TINY then average else TINY
    ensures floor > 0.0 && q * floor == n as real && share == 1.0 - b + q * b
    ensures LengthNorm(k1, b, n, average) == share * k1
  {
    q := n as real / floor;
    share := 1.0 - b + b * q;
  }

  lemma NormPositive(k1: real, b: real, n: nat, average: real)
    requires Tuned(k1, b) && k1 > 0.0 && average >= 0.0 && n > 0
    ensures LengthNorm(k1, b, n, average) > 0.0
  {
    var floor := if average >= TINY then average else TINY;
    QuotientPositive(n as real, floor);
    var q := n as real / floor;
    if b > 0.0 {
      ProductsCompare(q, 0.0, b);
      assert b * q > 0.0;
    } else {
      assert b * q == 0.0;
    }
    var x := 1.0 - b + b * q;
    assert LengthNorm(k1, b, n, average) == k1 * x;
    hide LengthNorm;
    assert x > 0.0;
    assert k1 * x > 0.0;
  }

  function Times(d: LexicalDocument, t: string): nat { Occurrences(d.tokens, |d.tokens|, t) }

  function Spread(docs: seq<LexicalDocument>, t: string): nat { DocFrequency(docs, |docs|, t) }

  /** The documents among the first `n` that hold the token, by number. */
  function Holders(docs: seq<LexicalDocument>, n: nat, t: string): set<nat>
    requires n <= |docs|
  {
    set i: nat | i < n && t in docs[i].tokens
  }

  /** The document frequency is the number of documents that hold the token, and the term frequency its multiplicity. */
  lemma {:induction false} FrequenciesCount(docs: seq<LexicalDocument>, d: LexicalDocument, t: string)
    ensures Spread(docs, t) == |Holders(docs, |docs|, t)|
    ensures Times(d, t) == multiset(d.tokens)[t]
  {
    HoldersCount(docs, |docs|, t);
    OccurrencesCount(d.tokens, |d.tokens|, t);
    assert d.tokens[..|d.tokens|] == d.tokens;
  }

  lemma {:induction false} HoldersCount(docs: seq<LexicalDocument>, n: nat, t: string)
    requires n <= |docs|
    ensures DocFrequency(docs, n, t) == |Holders(docs, n, t)|
  {
    if n > 0 {
      HoldersCount(docs, n - 1, t);
      var before := Holders(docs, n - 1, t);
      assert Holders(docs, n, t) == if t in docs[n - 1].tokens then before + {n - 1} else before;
    }
  }

  lemma {:induction false} OccurrencesCount(tokens: seq<string>, n: nat, t: string)
    requires n <= |tokens|
    ensures Occurrences(tokens, n, t) == multiset(tokens[..n])[t]
  {
    if n > 0 {
      OccurrencesCount(tokens, n - 1, t);
      assert tokens[..n] == tokens[..n - 1] + [tokens[n - 1]];
    }
  }

  /** With equal length and equally many occurrences, the rarer token adds strictly more. */
  lemma {:induction false} RarerTokenAddsMore(
      a: Analyzer, docs: seq<LexicalDocument>, k1: real, b: real, d: LexicalDocument, e: LexicalDocument, t: string, u: string)
    requires Tuned(k1, b) && LnRises(a)
    requires |d.tokens| == |e.tokens| && Times(d, t) == Times(e, u) > 0 && Spread(docs, t) < Spread(docs, u)
    ensures TokenScore(a, docs, k1, b, d, t) > TokenScore(a, docs, k1, b, e, u)
  {
    RarerWeighsMore(a, |docs|, Spread(docs, t), Spread(docs, u));
    hide Idf, LengthNorm, Weigh;
    WeighGrows(Idf(a, |docs|, Spread(docs, u)), Idf(a, |docs|, Spread(docs, t)), Times(d, t), k1,
      LengthNorm(k1, b, |d.tokens|, AverageLength(docs)));
  }

  /** With equal length, more occurrences add strictly more, and never as much as `k1 + 1` times the idf. */
  lemma {:induction false} MoreOccurrencesAddMore(
      a: Analyzer, docs: seq<LexicalDocument>, k1: real, b: real, d: LexicalDocument, e: LexicalDocument, t: string)
    requires Tuned(k1, b) && k1 > 0.0 && LnPositiveAboveOne(a)
    requires |d.tokens| == |e.tokens| && Times(d, t) > Times(e, t)
    ensures TokenScore(a, docs, k1, b, d, t) > TokenScore(a, docs, k1, b, e, t)
    ensures TokenScore(a, docs, k1, b, d, t) < Idf(a, |docs|, Spread(docs, t)) * (k1 + 1.0)
  {
    hide Idf, LengthNorm, Weigh, TokenScore, AverageLength;
    var idf, norm := Idf(a, |docs|, Spread(docs, t)), LengthNorm(k1, b, |d.tokens|, AverageLength(docs));
    var m, n := Times(d, t), Times(e, t);
    OccursIffMember(d.tokens, |d.tokens|, t);
    IdfPositive(a, docs, t);
    NormPositive(k1, b, |d.tokens|, AverageLength(docs));
    TokenScoreValue(a, docs, k1, b, d, t, m, Spread(docs, t));
    TokenScoreValue(a, docs, k1, b, e, t, n, Spread(docs, t));
    hide *;
    WeighSaturates(idf, m, m + 1, k1, norm);
    if n > 0 {
      WeighSaturates(idf, n, m, k1, norm);
    } else {
      WeighPositive(idf, m, k1, norm);
    }
  }

  /** With equally many occurrences, the longer document gets strictly less. */
  lemma {:induction false} LongerGetsLess(
      a: Analyzer, docs: seq<LexicalDocument>, k1: real, b: real, d: LexicalDocument, e: LexicalDocument, t: string)
    requires Tuned(k1, b) && k1 > 0.0 && b > 0.0 && LnPositiveAboveOne(a)
    requires |d.tokens| < |e.tokens| && Times(d, t) == Times(e, t) > 0
    ensures TokenScore(a, docs, k1, b, d, t) > TokenScore(a, docs, k1, b, e, t)
  {
    var average := AverageLength(docs);
    IdfPositive(a, docs, t);
    NormRises(k1, b, |d.tokens|, |e.tokens|, average);
    WeighFallsWithNorm(Idf(a, |docs|, Spread(docs, t)), Times(d, t), k1,
      LengthNorm(k1, b, |d.tokens|, average), LengthNorm(k1, b, |e.tokens|, average));
  }

  /** In a document of average length a single occurrence adds exactly the idf. */
  lemma {:induction false} AverageDocumentAddsIdf(a: Analyzer, docs: seq<LexicalDocument>, k1: real, b: real, d: LexicalDocument, t: string)
    requires Tuned(k1, b) && Times(d, t) == 1 && |d.tokens| as real == AverageLength(docs)
    ensures TokenScore(a, docs, k1, b, d, t) == Idf(a, |docs|, Spread(docs, t))
  {
    OccursIffMember(d.tokens, |d.tokens|, t);
    var n, idf := |d.tokens| as real, Idf(a, |docs|, Spread(docs, t));
    assert n >= 1.0 && n / n == 1.0;
    assert LengthNorm(k1, b, |d.tokens|, n) == k1;
    hide Idf;
    assert (idf * (1.0 * (k1 + 1.0))) == idf * (1.0 + k1);
    QuotientOfProduct(idf, 1.0 + k1);
  }

  /** When all documents are equally long, a single occurrence adds exactly the idf. */
  lemma {:induction false} EqualLengthsAddIdf(a: Analyzer, docs: seq<LexicalDocument>, k1: real, b: real, d: LexicalDocument, t: string)
    requires Tuned(k1, b) && Times(d, t) == 1 && d in docs && forall e :: e in docs ==> |e.tokens| == |d.tokens|
    ensures TokenScore(a, docs, k1, b, d, t) == Idf(a, |docs|, Spread(docs, t))
  {
    hide TokenScore, Idf;
    var n, size := |docs|, |d.tokens|;
    EqualTotal(docs, n, size);
    assert TotalLength(docs, n) as real == size as real * n as real;
    QuotientIs(TotalLength(docs, n) as real, n as real, size as real);
    AverageDocumentAddsIdf(a, docs, k1, b, d, t);
  }

  lemma {:induction false} EqualTotal(docs: seq<LexicalDocument>, n: nat, size: nat)
    requires n <= |docs| && forall e :: e in docs ==> |e.tokens| == size
    ensures TotalLength(docs, n) == size * n
  {
    if n > 0 {
      EqualTotal(docs, n - 1, size);
      assert docs[n - 1] in docs;
      assert size * n == size * (n - 1) + size;
    }
  }

  lemma QuotientIs(x: real, y: real, z: real)
    requires y > 0.0 && z * y == x
    ensures x / y == z
  {
  }

  lemma QuotientOfProduct(x: real, y: real)
    requires y > 0.0
    ensures (x * y) / y == x
  {
  }

  // ------------------------------------------------------------- a query

  /**
   * The two documents match the query alike, except that the first has a
   * token where the second has a more frequent one.
   */
  ghost predicate DiffersByRarer(docs: seq<LexicalDocument>, query: seq<string>, d: LexicalDocument, e: LexicalDocument, t: string, u: string) {
    && |d.tokens| == |e.tokens| && Spread(docs, t) < Spread(docs, u)
    && Times(d, t) == Times(e, u) > 0 && Times(d, u) == 0 && Times(e, t) == 0
    && 0 < Count(query, |query|, u) <= Count(query, |query|, t)
    && (forall q :: q in query && q != t && q != u ==> Times(d, q) == Times(e, q))
  }

  function Count(query: seq<string>, n: nat, t: string): nat
    requires n <= |query|
  {
    if n == 0 then 0 else Count(query, n - 1, t) + if query[n - 1] == t then 1 else 0
  }

  /** What the two scores differ by is what the two tokens add. */
  lemma {:induction false} ScoreDifference(
      a: Analyzer, docs: seq<LexicalDocument>, k1: real, b: real, query: seq<string>, n: nat,
      d: LexicalDocument, e: LexicalDocument, t: string, u: string)
    requires Tuned(k1, b) && n <= |query| && t != u && |d.tokens| == |e.tokens| && Times(d, u) == 0 && Times(e, t) == 0
    requires forall q :: q in query && q != t && q != u ==> Times(d, q) == Times(e, q)
    ensures
      Score(a, docs, k1, b, d, query, n) - Score(a, docs, k1, b, e, query, n)
      == Share(Count(query, n, t), TokenScore(a, docs, k1, b, d, t)) - Share(Count(query, n, u), TokenScore(a, docs, k1, b, e, u))
  {
    if n > 0 {
      var q := query[n - 1];
      assert TokenScore(a, docs, k1, b, d, u) == 0.0 && TokenScore(a, docs, k1, b, e, t) == 0.0;
      SameTimes(a, docs, k1, b, d, e, q);
      hide TokenScore, Spread, Times, Share;
      ScoreDifference(a, docs, k1, b, query, n - 1, d, e, t, u);
      OneMore(Count(query, n - 1, t), TokenScore(a, docs, k1, b, d, t));
      OneMore(Count(query, n - 1, u), TokenScore(a, docs, k1, b, e, u));
    }
  }

  function Share(c: nat, x: real): real { c as real * x }

  lemma OneMore(c: nat, x: real)
    ensures Share(c + 1, x) == Share(c, x) + x
  {
  }

  lemma SameTimes(a: Analyzer, docs: seq<LexicalDocument>, k1: real, b: real, d: LexicalDocument, e: LexicalDocument, q: string)
    requires Tuned(k1, b) && |d.tokens| == |e.tokens|
    ensures Times(d, q) == Times(e, q) ==> TokenScore(a, docs, k1, b, d, q) == TokenScore(a, docs, k1, b, e, q)
  {
    hide Weigh, Idf, LengthNorm;
  }

  /** The document with the rarer token scores strictly higher. */
  lemma {:induction false} RarerScoresHigher(
      a: Analyzer, docs: seq<LexicalDocument>, k1: real, b: real, query: seq<string>,
      d: LexicalDocument, e: LexicalDocument, t: string, u: string)
    requires Tuned(k1, b) && LnRises(a) && LnPositiveAboveOne(a) && DiffersByRarer(docs, query, d, e, t, u)
    ensures Score(a, docs, k1, b, d, query, |query|) > Score(a, docs, k1, b, e, query, |query|)
  {
    hide TokenScore, Score, Times, Spread, Count;
    ScoreDifference(a, docs, k1, b, query, |query|, d, e, t, u);
    RarerTokenAddsMore(a, docs, k1, b, d, e, t, u);
    TokenScoreSign(a, docs, k1, b, e, u);
    WeightedCompare(Count(query, |query|, t), TokenScore(a, docs, k1, b, d, t), Count(query, |query|, u), TokenScore(a, docs, k1, b, e, u));
  }

  lemma WeightedCompare(m: nat, x: real, n: nat, y: real)
    requires 0 < n <= m && x > y >= 0.0
    ensures m as real * x > n as real * y
  {
    ProductsCompare(n as real, y, x);
    ProductsCompare(x, n as real, m as real);
  }

  // ------------------------------------------------------------ the search

  /** A chunk with a segment that scores above a hit is a hit before it. */
  lemma {:induction false} HigherComesFirst(scores: seq<real>, docs: seq<LexicalDocument>, topK: int, hits: seq<Hit>, i: nat, j: nat)
    requires |docs| == |scores| && IsSearchResult(scores, docs, topK, hits)
    requires i < |docs| && j < |hits| && scores[i] > hits[j].score
    ensures exists h :: 0 <= h < j && hits[h].chunkId == docs[i].chunkId && hits[h].score >= scores[i]
  {
    assert IsBest(scores, docs, |docs|, hits[j].chunkId, hits[j].score);
    var c := docs[i].chunkId;
    var s := BestExists(scores, docs, |docs|, c, i);
    assert s >= scores[i];
    HigherIsAHit(scores, docs, topK, hits, c, s, j);
    var h :| 0 <= h < |hits| && hits[h].chunkId == c;
    BestUnique(scores, docs, c, s, hits[h].score);
    HigherIsEarlier(hits, h, j);
  }

  lemma HigherIsEarlier(hits: seq<Hit>, h: nat, j: nat)
    requires h < |hits| && j < |hits| && hits[h].score > hits[j].score
    requires forall i, k :: 0 <= i < k < |hits| ==> HitBefore(hits[i], hits[k])
    ensures h < j
  {
  }

  lemma HigherIsAHit(scores: seq<real>, docs: seq<LexicalDocument>, topK: int, hits: seq<Hit>, c: nat, s: real, j: nat)
    requires |docs| == |scores| && IsSearchResult(scores, docs, topK, hits)
    requires IsBest(scores, docs, |docs|, c, s) && j < |hits| && s > hits[j].score
    ensures exists h :: 0 <= h < |hits| && hits[h].chunkId == c
  {
    hide IsBest;
    assert !HitBefore(hits[j], Hit(c, s, 0));
  }

  /**
   * Of two chunks that match a query alike, except that one has a token in
   * fewer documents where the other has one in more, the first comes first.
   */
  lemma {:induction false} RarerComesFirst(
      a: Analyzer, docs: seq<LexicalDocument>, k1: real, b: real, query: seq<string>, topK: int, hits: seq<Hit>,
      i: nat, j: nat, t: string, u: string)
    requires Tuned(k1, b) && LnRises(a) && LnPositiveAboveOne(a)
    requires IsSearchResult(ScoresUpTo(a, docs, k1, b, query, |docs|), docs, topK, hits)
    requires i < |docs| && j < |hits|
    requires forall k :: 0 <= k < |docs| && docs[k].chunkId == hits[j].chunkId ==> DiffersByRarer(docs, query, docs[i], docs[k], t, u)
    ensures exists h :: 0 <= h < j && hits[h].chunkId == docs[i].chunkId
  {
    var scores := ScoresUpTo(a, docs, k1, b, query, |docs|);
    assert IsBest(scores, docs, |docs|, hits[j].chunkId, hits[j].score);
    var k :| 0 <= k < |docs| && docs[k].chunkId == hits[j].chunkId && scores[k] == hits[j].score;
    RarerScoresHigher(a, docs, k1, b, query, docs[i], docs[k], t, u);
    hide Score, DiffersByRarer;
    HigherComesFirst(scores, docs, topK, hits, i, j);
  }

  // --------------------------------------------------------- what is indexed

  /** The text whose segments are indexed: the heading line, if there is one, and the text. */
  function IndexedText(d: LexicalDocument): (text: string)
    ensures |d.text| <= |text| && text[|text| - |d.text|..] == d.text
  {
    match d.heading
    case Some(heading) => if |heading| > 0 then heading + "\n" + d.text else d.text
    case None => d.text
  }

  /** `e` is the document with the tokens of one of its segments. */
  ghost predicate IsSegment(a: Analyzer, d: LexicalDocument, e: LexicalDocument) {
    exists m :: 0 <= m < |a.segments(IndexedText(d))| && e == d.(tokens := a.tokenize(a.segments(IndexedText(d))[m])) && e.tokens != []
  }

  ghost predicate HasTokens(a: Analyzer, d: LexicalDocument) {
    exists m :: 0 <= m < |a.segments(IndexedText(d))| && a.tokenize(a.segments(IndexedText(d))[m]) != []
  }

  /** What a document puts into the index: its segments with tokens, else itself. */
  ghost predicate Indexes(a: Analyzer, d: LexicalDocument, e: LexicalDocument) {
    if HasTokens(a, d) then IsSegment(a, d, e) else e == d
  }

  lemma {:induction false} SegmentMembers(a: Analyzer, d: LexicalDocument, segments: seq<string>, n: nat, e: LexicalDocument)
    requires n <= |segments|
    ensures e in SegmentDocs(a, d, segments, n)
      <==> exists m :: 0 <= m < n && e == d.(tokens := a.tokenize(segments[m])) && e.tokens != []
  {
    if n > 0 {
      SegmentMembers(a, d, segments, n - 1, e);
    }
  }

  function OwnSegments(a: Analyzer, d: LexicalDocument): seq<LexicalDocument> {
    SegmentDocs(a, d, a.segments(SourceText(d)), |a.segments(SourceText(d))|)
  }

  lemma SegmentsOf(a: Analyzer, d: LexicalDocument, e: LexicalDocument)
    ensures e in OwnSegments(a, d) <==> IsSegment(a, d, e)
  {
    SegmentMembers(a, d, a.segments(SourceText(d)), |a.segments(SourceText(d))|, e);
    assert SourceText(d) == IndexedText(d);
  }

  lemma SomeSegment(a: Analyzer, d: LexicalDocument)
    ensures HasTokens(a, d) <==> exists e :: IsSegment(a, d, e)
  {
    if HasTokens(a, d) {
      var m :| 0 <= m < |a.segments(IndexedText(d))| && a.tokenize(a.segments(IndexedText(d))[m]) != [];
      assert IsSegment(a, d, d.(tokens := a.tokenize(a.segments(IndexedText(d))[m])));
    }
  }

  lemma HasChunkOf(docs: seq<LexicalDocument>, e: LexicalDocument)
    requires e in docs
    ensures HasChunk(docs, e.chunkId)
  {
    var i :| 0 <= i < |docs| && docs[i] == e;
  }

  /** Everything in the index has the chunk id of a document. */
  lemma {:induction false} ExpandedChunks(a: Analyzer, documents: seq<LexicalDocument>, n: nat, e: LexicalDocument)
    requires n <= |documents| && e in Expanded(a, documents, n)
    ensures exists i :: 0 <= i < n && documents[i].chunkId == e.chunkId
  {
    ExpandedStep(a, documents, n, e);
    var d := documents[n - 1];
    SegmentsOf(a, d, e);
    hide Expanded, OwnSegments, SourceText, IndexedText, HasChunk;
    if e in Expanded(a, documents, n - 1) {
      ExpandedChunks(a, documents, n - 1, e);
    } else {
      assert e.chunkId == documents[n - 1].chunkId;
    }
  }

  /** A document needs no entry of its own exactly when it has a segment with tokens. */
  lemma {:induction false} HasChunkExactlyWhen(a: Analyzer, documents: seq<LexicalDocument>, n: nat)
    requires 0 < n <= |documents| && forall i, j :: 0 <= i < j < |documents| ==> documents[i].chunkId != documents[j].chunkId
    ensures HasChunk(Expanded(a, documents, n - 1) + OwnSegments(a, documents[n - 1]), documents[n - 1].chunkId)
      <==> HasTokens(a, documents[n - 1])
  {
    var d, before := documents[n - 1], Expanded(a, documents, n - 1);
    var all := before + OwnSegments(a, d);
    SomeSegment(a, d);
    forall x
      ensures x in OwnSegments(a, d) <==> IsSegment(a, d, x)
    {
      SegmentsOf(a, d, x);
    }
    hide Expanded, OwnSegments, HasTokens;
    if x :| IsSegment(a, d, x) {
      HasChunkOf(all, x);
    }
    if k :| 0 <= k < |all| && all[k].chunkId == d.chunkId {
      if k < |before| {
        assert all[k] == before[k];
        ExpandedChunks(a, documents, n - 1, before[k]);
      } else {
        assert all[k] in OwnSegments(a, d);
      }
    }
  }

  /** The index holds exactly what its documents put into it. */
  lemma {:induction false} IndexHoldsSegments(a: Analyzer, documents: seq<LexicalDocument>, n: nat, e: LexicalDocument)
    requires n <= |documents| && forall i, j :: 0 <= i < j < |documents| ==> documents[i].chunkId != documents[j].chunkId
    ensures e in Expanded(a, documents, n) <==> exists i :: 0 <= i < n && Indexes(a, documents[i], e)
    decreases n
  {
    if n > 0 {
      IndexHoldsSegments(a, documents, n - 1, e);
      SegmentsOf(a, documents[n - 1], e);
      HasChunkExactlyWhen(a, documents, n);
      SomeSegment(a, documents[n - 1]);
      ExpandedStep(a, documents, n, e);
      hide Expanded, OwnSegments, IsSegment, HasTokens, HasChunk;
    }
  }

  lemma ExpandedStep(a: Analyzer, documents: seq<LexicalDocument>, n: nat, e: LexicalDocument)
    requires n <= |documents|
    ensures n == 0 ==> Expanded(a, documents, n) == []
    ensures n > 0 ==>
      var d := documents[n - 1];
      var all := Expanded(a, documents, n - 1) + OwnSegments(a, d);
      (e in Expanded(a, documents, n) <==> e in all || (!HasChunk(all, d.chunkId) && e == d))
  {
    hide HasChunk, SegmentDocs, SourceText;
  }
}
