/**
 * Blending cosine with fusion scores and the bounded lexical calibration that
 * follows, over exact reals.
 */
module Ranking {
  import opened PythonText
  import opened RetrievalModels
  import opened Sorting

  const MAX_TOTAL_BONUS := 0.18
  const MAX_TOTAL_PENALTY := 0.10
  const W_FAQ_QUESTION := 0.12
  const W_HEADING := 0.06
  const W_PHRASE := 0.10
  const W_BODY_OVERLAP := 0.06
  const W_GENERIC_PENALTY := 0.05
  const W_DISTRACTOR_PENALTY := 0.06

  /** What the token comparisons of one query and one chunk found. */
  datatype Signals = Signals(
    faqOverlap: real, hasHeading: bool, headingOverlap: real, phraseHit: bool,
    queryTokens: nat, bigrams: nat, bigramHits: nat, bodyOverlap: real,
    sharesContent: bool, sharesAny: bool, distractor: bool)
  {
    /** Overlaps are Jaccard values and hits are counted among the bigrams. */
    predicate Valid() {
      && 0.0 <= faqOverlap <= 1.0 && 0.0 <= headingOverlap <= 1.0 && 0.0 <= bodyOverlap <= 1.0
      && bigramHits <= bigrams
    }
  }

  function RMin(a: real, b: real): real { if a <= b then a else b }

  function BonusSum(s: Signals): real {
    (if s.faqOverlap > 0.0 then W_FAQ_QUESTION * s.faqOverlap else 0.0)
    + (if s.hasHeading && s.headingOverlap > 0.0 then W_HEADING * s.headingOverlap else 0.0)
    + (if s.phraseHit then W_PHRASE
       else if s.queryTokens >= 2 && s.bigrams > 0 && s.bigramHits > 0 then
         W_PHRASE * 0.5 * (s.bigramHits as real / s.bigrams as real)
       else 0.0)
    + (if s.bodyOverlap > 0.0 then W_BODY_OVERLAP * s.bodyOverlap else 0.0)
  }

  function PenaltySum(s: Signals): real {
    (if s.queryTokens > 0 && !s.sharesContent && s.faqOverlap == 0.0 && s.sharesAny then W_GENERIC_PENALTY else 0.0)
    + (if s.distractor then W_DISTRACTOR_PENALTY else 0.0)
  }

  /** The score `_score_chunk` gives to an incoming score. */
  function Adjusted(incoming: real, s: Signals): (r: real)
    ensures 0.0 <= r <= 1.0
  {
    Clamp01(incoming + RMin(MAX_TOTAL_BONUS, BonusSum(s)) - RMin(MAX_TOTAL_PENALTY, PenaltySum(s)))
  }

  /** Calibration moves a score up by at most 0.18 and down by at most 0.10. */
  lemma AdjustmentIsBounded(incoming: real, s: Signals)
    requires s.Valid() && 0.0 <= incoming <= 1.0
    ensures incoming - MAX_TOTAL_PENALTY <= Adjusted(incoming, s) <= incoming + MAX_TOTAL_BONUS
  {
    if s.bigrams > 0 {
      assert s.bigramHits as real / s.bigrams as real >= 0.0;
    }
    assert BonusSum(s) >= 0.0;
    assert PenaltySum(s) >= 0.0;
  }

  /** Every sign of relevance in `s` is in `t` too, at least as strong, and every sign against it in `t` is in `s`. */
  ghost predicate NoBetter(s: Signals, t: Signals) {
    && s.faqOverlap <= t.faqOverlap && s.bodyOverlap <= t.bodyOverlap && s.headingOverlap <= t.headingOverlap
    && (s.hasHeading ==> t.hasHeading) && (s.phraseHit ==> t.phraseHit)
    && s.queryTokens == t.queryTokens && s.bigrams == t.bigrams && s.bigramHits <= t.bigramHits
    && (s.sharesContent ==> t.sharesContent) && s.sharesAny == t.sharesAny && (t.distractor ==> s.distractor)
  }

  lemma HitShare(a: nat, b: nat, n: nat)
    requires a <= b <= n && n > 0
    ensures 0.0 <= a as real / n as real <= b as real / n as real <= 1.0
  {
    var x, y, z := a as real / n as real, b as real / n as real, n as real;
    assert x * z == a as real && y * z == b as real;
    assert (y - x) * z == b as real - a as real && (1.0 - y) * z == z - b as real;
    FactorSign(x, z);
    FactorSign(y - x, z);
    FactorSign(1.0 - y, z);
  }

  lemma FactorSign(x: real, z: real)
    requires z > 0.0 && x * z >= 0.0
    ensures x >= 0.0
  {
  }

  /** Better signals never rank a chunk lower. */
  lemma {:induction false} AdjustedIsMonotone(incoming: real, s: Signals, t: Signals)
    requires s.Valid() && t.Valid() && NoBetter(s, t)
    ensures BonusSum(s) <= BonusSum(t) && PenaltySum(s) >= PenaltySum(t)
    ensures Adjusted(incoming, s) <= Adjusted(incoming, t)
  {
    if s.bigrams > 0 {
      HitShare(s.bigramHits, t.bigramHits, s.bigrams);
    }
  }

  /** What a full sign of each kind is worth on its own. */
  lemma {:induction false} SignsAreWorth(incoming: real)
    requires 0.10 <= incoming <= 0.82
    ensures
      var none := Signals(0.0, false, 0.0, false, 0, 0, 0, 0.0, true, true, false);
      && Adjusted(incoming, none) == incoming
      && Adjusted(incoming, none.(faqOverlap := 1.0)) == incoming + 0.12
      && Adjusted(incoming, none.(phraseHit := true)) == incoming + 0.10
      && Adjusted(incoming, none.(queryTokens := 3, bigrams := 2, bigramHits := 2)) == incoming + 0.05
      && Adjusted(incoming, none.(hasHeading := true, headingOverlap := 1.0)) == incoming + 0.06
      && Adjusted(incoming, none.(bodyOverlap := 1.0)) == incoming + 0.06
      && Adjusted(incoming, none.(faqOverlap := 1.0, phraseHit := true)) == incoming + 0.18
      && Adjusted(incoming, none.(distractor := true)) == incoming - 0.06
      && Adjusted(incoming, none.(queryTokens := 1, sharesContent := false)) == incoming - 0.05
      && Adjusted(incoming, none.(queryTokens := 1, sharesContent := false, distractor := true)) == incoming - 0.10
  {
  }

  // ----------------------------------------------------------------- ranking

  datatype Scored = Scored(chunk: RetrievedChunk, incoming: real, adjusted: real)

  function ScoreOf(signals: RetrievedChunk -> Signals, c: RetrievedChunk): Scored {
    Scored(c, c.score, Adjusted(c.score, signals(c)))
  }

  /** Sort key: adjusted score, incoming score, document, position, chunk id. */
  predicate Leq(a: Scored, b: Scored) {
    || a.adjusted > b.adjusted
    || (a.adjusted == b.adjusted &&
        (|| a.incoming > b.incoming
         || (a.incoming == b.incoming &&
             (|| a.chunk.documentId < b.chunk.documentId
              || (a.chunk.documentId == b.chunk.documentId &&
                  (|| a.chunk.chunkIndex < b.chunk.chunkIndex
                   || (a.chunk.chunkIndex == b.chunk.chunkIndex && a.chunk.chunkId <= b.chunk.chunkId)))))))
  }

  lemma LeqIsOrder()
    ensures TotalPreorder(Leq)
    ensures forall a, b :: Leq(a, b) && Leq(b, a) ==> a.chunk.chunkId == b.chunk.chunkId
  {
  }

  function ScoreAll(signals: RetrievedChunk -> Signals, chunks: seq<RetrievedChunk>): seq<Scored> {
    if chunks == [] then [] else ScoreAll(signals, chunks[..|chunks| - 1]) + [ScoreOf(signals, chunks[|chunks| - 1])]
  }

  /** All candidates, best first. */
  function RankAll(signals: RetrievedChunk -> Signals, chunks: seq<RetrievedChunk>): seq<Scored> {
    Sort(ScoreAll(signals, chunks), Leq)
  }

  function Rescored(ranked: seq<Scored>): (r: seq<RetrievedChunk>)
    ensures |r| == |ranked|
  {
    seq(|ranked|, i requires 0 <= i < |ranked| => ranked[i].chunk.(score := ranked[i].adjusted))
  }

  function Truncated<T>(s: seq<T>, topK: int): seq<T> {
    var n := if topK < 1 then 1 else topK;
    if n < |s| then s[..n] else s
  }

  /** `rank_dense_hits`, with the breakdown of each returned chunk. */
  method RankDenseHits(signals: RetrievedChunk -> Signals, chunks: seq<RetrievedChunk>, topK: int)
    returns (reranked: seq<RetrievedChunk>, breakdowns: seq<Scored>)
    ensures breakdowns == Truncated(RankAll(signals, chunks), topK)
    ensures reranked == Rescored(breakdowns)
  {
    if chunks == [] {
      return [], [];
    }
    var scored: seq<Scored> := [];
    for i := 0 to |chunks|
      invariant scored == ScoreAll(signals, chunks[..i])
    {
      hide Adjusted;
      assert chunks[..i + 1][..i] == chunks[..i];
      scored := scored + [ScoreOf(signals, chunks[i])];
    }
    assert chunks[..|chunks|] == chunks;
    var sorted := Sort(scored, Leq);
    breakdowns := Truncated(sorted, topK);
    reranked := [];
    for i := 0 to |breakdowns|
      invariant |reranked| == i
      invariant forall j :: 0 <= j < i ==> reranked[j] == breakdowns[j].chunk.(score := breakdowns[j].adjusted)
    {
      reranked := reranked + [breakdowns[i].chunk.(score := breakdowns[i].adjusted)];
    }
  }

  lemma {:induction false} ScoreAllMembers(signals: RetrievedChunk -> Signals, chunks: seq<RetrievedChunk>)
    ensures |ScoreAll(signals, chunks)| == |chunks|
    ensures forall i :: 0 <= i < |chunks| ==> ScoreAll(signals, chunks)[i] == ScoreOf(signals, chunks[i])
  {
    if chunks != [] {
      ScoreAllMembers(signals, chunks[..|chunks| - 1]);
    }
  }

  /** Membership of the ranking: every candidate, with its own score. */
  lemma {:induction false} RankAllMembers(signals: RetrievedChunk -> Signals, chunks: seq<RetrievedChunk>)
    ensures |RankAll(signals, chunks)| == |chunks| && Sorted(RankAll(signals, chunks), Leq)
    ensures forall x :: x in RankAll(signals, chunks) <==> x.chunk in chunks && x == ScoreOf(signals, x.chunk)
  {
    hide Adjusted, Leq, Sort;
    ScoreAllMembers(signals, chunks);
    var all := ScoreAll(signals, chunks);
    LeqIsOrder();
    SortSorts(all, Leq);
    SortMembers(all, Leq);
    forall x
      ensures x in all <==> x.chunk in chunks && x == ScoreOf(signals, x.chunk)
    {
      if x in all {
        var i :| 0 <= i < |all| && all[i] == x;
        assert all[i] == ScoreOf(signals, chunks[i]) && chunks[i] in chunks;
      }
      if x.chunk in chunks && x == ScoreOf(signals, x.chunk) {
        var i :| 0 <= i < |chunks| && chunks[i] == x.chunk;
        assert all[i] == x;
      }
    }
  }

  ghost predicate ScoresInUnit(chunks: seq<RetrievedChunk>) {
    forall c :: c in chunks ==> 0.0 <= c.score <= 1.0
  }

  ghost predicate SignalsValid(signals: RetrievedChunk -> Signals) {
    forall c :: signals(c).Valid()
  }

  /**
   * Weak matches cannot leapfrog: nothing ranks above a chunk whose incoming
   * score leads by 0.28 or more, and truncation never keeps the former while
   * dropping the latter.
   */
  lemma {:induction false} LeadOf28Wins(signals: RetrievedChunk -> Signals, chunks: seq<RetrievedChunk>, i: nat, j: nat)
    requires SignalsValid(signals) && ScoresInUnit(chunks)
    requires i < j < |RankAll(signals, chunks)|
    ensures RankAll(signals, chunks)[j].incoming - RankAll(signals, chunks)[i].incoming < MAX_TOTAL_BONUS + MAX_TOTAL_PENALTY
  {
    hide RankAll, Adjusted;
    RankAllMembers(signals, chunks);
    var r := RankAll(signals, chunks);
    assert r[i] in r && r[j] in r;
    AdjustmentIsBounded(r[i].incoming, signals(r[i].chunk));
    AdjustmentIsBounded(r[j].incoming, signals(r[j].chunk));
    assert Leq(r[i], r[j]);
  }

  /** The bound is exact: for every smaller lead there are signals that overturn it. */
  lemma LeadUnder28CanLose(lead: real, strong: RetrievedChunk, weak: RetrievedChunk) returns (s: Signals, w: Signals)
    requires 0.0 <= lead < MAX_TOTAL_BONUS + MAX_TOTAL_PENALTY
    requires weak.score == 0.5 && strong.score == 0.5 + lead
    ensures s.Valid() && w.Valid()
    ensures Adjusted(weak.score, w) > Adjusted(strong.score, s)
  {
    s := Signals(0.0, false, 0.0, false, 1, 0, 0, 0.0, false, true, true);
    w := Signals(1.0, true, 1.0, false, 1, 0, 0, 0.0, true, true, false);
    assert BonusSum(w) == 0.18 && PenaltySum(w) == 0.0;
    assert BonusSum(s) == 0.0 && PenaltySum(s) == 0.11;
  }

  /** Returned scores stay in `[0, 1]`. */
  lemma {:induction false} RerankedInUnit(signals: RetrievedChunk -> Signals, chunks: seq<RetrievedChunk>, topK: int, i: nat)
    requires i < |Truncated(RankAll(signals, chunks), topK)|
    ensures 0.0 <= Rescored(Truncated(RankAll(signals, chunks), topK))[i].score <= 1.0
  {
    hide RankAll, Adjusted;
    RankAllMembers(signals, chunks);
    assert RankAll(signals, chunks)[i] in RankAll(signals, chunks);
  }

  /** The ranking has no repeats and, for distinct chunk ids, no ties. */
  lemma {:induction false} RankAllDistinct(signals: RetrievedChunk -> Signals, chunks: seq<RetrievedChunk>)
    requires DistinctChunks(chunks)
    ensures NoDups(RankAll(signals, chunks)) && NoTies(RankAll(signals, chunks), Leq)
  {
    hide Adjusted, ScoreOf;
    ScoreAllMembers(signals, chunks);
    var all := ScoreAll(signals, chunks);
    forall i, j | 0 <= i < j < |all|
      ensures all[i] != all[j]
    {
      ScoreOfChunk(signals, chunks[i]);
      ScoreOfChunk(signals, chunks[j]);
    }
    SortPermutes(all, Leq);
    NoDupsCarries(all, RankAll(signals, chunks));
    RankAllMembers(signals, chunks);
    LeqIsOrder();
    SameIdSameChunk(chunks);
    hide Leq, RankAll;
  }

  lemma SameIdSameChunk(chunks: seq<RetrievedChunk>)
    requires DistinctChunks(chunks)
    ensures forall c, d :: c in chunks && d in chunks && c.chunkId == d.chunkId ==> c == d
  {
  }

  /** For distinct chunk ids the ranking does not depend on the candidates' order. */
  lemma {:induction false} RankingForgetsOrder(signals: RetrievedChunk -> Signals, a: seq<RetrievedChunk>, b: seq<RetrievedChunk>)
    requires multiset(a) == multiset(b) && DistinctChunks(a)
    ensures RankAll(signals, a) == RankAll(signals, b)
  {
    SameMembers(a, b);
    DistinctCarries(a, b);
    RankAllDistinct(signals, a);
    RankAllDistinct(signals, b);
    RankAllMembers(signals, a);
    RankAllMembers(signals, b);
    hide RankAll, Leq, ScoreOf;
    SortedMembersUnique(RankAll(signals, a), RankAll(signals, b), Leq);
  }

  lemma ScoreOfChunk(signals: RetrievedChunk -> Signals, c: RetrievedChunk)
    ensures ScoreOf(signals, c).chunk == c
  {
  }

  // ---------------------------------------------------------------- blending

  /** `blend_cosine_with_rrf`. */
  function Blend(cosine: real, rrf: real, maxRrf: real): (r: real)
    ensures 0.0 <= r <= 1.0
  {
    if maxRrf <= 0.0 then Clamp01(cosine) else Clamp01(0.72 * cosine + 0.28 * (rrf / maxRrf))
  }

  lemma RatioInUnit(rrf: real, maxRrf: real)
    requires 0.0 < maxRrf && 0.0 <= rrf <= maxRrf
    ensures 0.0 <= rrf / maxRrf <= 1.0
  {
    assert (rrf / maxRrf) * maxRrf == rrf;
  }

  lemma RatioIs(x: real, y: real, z: real)
    requires y > 0.0 && z * y == x
    ensures x / y == z
  {
  }

  /** Cosine and fusion both count: more of either blends higher, the cosine for 0.72 and the best fusion score for 0.28. */
  lemma {:induction false} BlendIsMonotone(cosine: real, higher: real, rrf: real, better: real, maxRrf: real)
    requires 0.0 <= cosine <= higher <= 1.0 && 0.0 <= rrf <= better <= maxRrf && maxRrf > 0.0
    ensures Blend(cosine, rrf, maxRrf) <= Blend(higher, better, maxRrf)
    ensures cosine < higher || rrf < better ==> Blend(cosine, rrf, maxRrf) < Blend(higher, better, maxRrf)
    ensures Blend(cosine, 0.0, maxRrf) == 0.72 * cosine && Blend(cosine, maxRrf, maxRrf) == 0.72 * cosine + 0.28
    ensures Blend(cosine, rrf, 0.0) == cosine
  {
    RatioInUnit(rrf, maxRrf);
    RatioInUnit(better, maxRrf);
    var x, y := rrf / maxRrf, better / maxRrf;
    assert x * maxRrf == rrf && y * maxRrf == better;
    assert (y - x) * maxRrf == better - rrf;
    FactorSign(y - x, maxRrf);
    assert y == x ==> rrf == better;
    RatioIs(maxRrf, maxRrf, 1.0);
    RatioIs(0.0, maxRrf, 0.0);
  }

  /** A raw cosine lead of 7/9 leaves a blended lead of 0.28 whatever the fusion scores. */
  lemma BlendKeepsLead(strong: real, weak: real, rrfStrong: real, rrfWeak: real, maxRrf: real)
    requires 0.0 <= weak && strong <= 1.0 && strong - weak >= 7.0 / 9.0
    requires 0.0 <= rrfStrong && 0.0 <= rrfWeak && (maxRrf > 0.0 ==> rrfStrong <= maxRrf && rrfWeak <= maxRrf)
    ensures Blend(strong, rrfStrong, maxRrf) - Blend(weak, rrfWeak, maxRrf) >= MAX_TOTAL_BONUS + MAX_TOTAL_PENALTY
  {
    if maxRrf > 0.0 {
      RatioInUnit(rrfStrong, maxRrf);
      RatioInUnit(rrfWeak, maxRrf);
    }
  }

  /**
   * Through blending and calibration: a chunk whose raw cosine leads another's
   * by 7/9 ranks above it, whatever the lexical signals say.
   */
  lemma {:induction false} RawLeadWins(
      signals: RetrievedChunk -> Signals, chunks: seq<RetrievedChunk>, cosine: nat -> real, rrf: nat -> real, maxRrf: real,
      i: nat, j: nat)
    requires SignalsValid(signals)
    requires forall c :: c in chunks ==>
      && 0.0 <= cosine(c.chunkId) <= 1.0 && 0.0 <= rrf(c.chunkId) && (maxRrf > 0.0 ==> rrf(c.chunkId) <= maxRrf)
      && c.score == Blend(cosine(c.chunkId), rrf(c.chunkId), maxRrf)
    requires i < |RankAll(signals, chunks)| && j < |RankAll(signals, chunks)|
    requires cosine(RankAll(signals, chunks)[i].chunk.chunkId) - cosine(RankAll(signals, chunks)[j].chunk.chunkId) >= 7.0 / 9.0
    ensures i < j
  {
    hide RankAll, Blend, Adjusted;
    RankAllMembers(signals, chunks);
    var r := RankAll(signals, chunks);
    assert r[i] in r && r[j] in r;
    var a, b := r[i].chunk, r[j].chunk;
    BlendKeepsLead(cosine(a.chunkId), cosine(b.chunkId), rrf(a.chunkId), rrf(b.chunkId), maxRrf);
    if j < i {
      LeadOf28Wins(signals, chunks, j, i);
    }
  }
}
