/** What evidence selection keeps, drops and never drops. */
module EvidenceProperties {
  import opened EvidenceSelection
  import opened PythonText
  import opened RetrievalModels
  import opened Sorting

  // ------------------------------------------------------------------ filters

  ghost predicate DistinctItems(w: seq<Working>) {
    forall i, j :: 0 <= i < j < |w| ==> w[i].chunk.chunkId != w[j].chunk.chunkId
  }

  lemma {:induction false} WithLabelMembers(w: seq<Working>, tag: Label)
    ensures forall x :: x in WithLabel(w, tag) <==> x in w && x.tag == tag
  {
    if w != [] {
      WithLabelMembers(w[1..], tag);
      assert forall x :: x in w <==> x == w[0] || x in w[1..];
    }
  }

  lemma {:induction false} NotInMembers(w: seq<Working>, ids: set<nat>)
    ensures forall x :: x in NotIn(w, ids) <==> x in w && x.chunk.chunkId !in ids
  {
    if w != [] {
      NotInMembers(w[1..], ids);
      assert forall x :: x in w <==> x == w[0] || x in w[1..];
    }
  }

  lemma {:induction false} WithLabelDistinct(w: seq<Working>, tag: Label)
    requires DistinctItems(w)
    ensures DistinctItems(WithLabel(w, tag))
  {
    if w != [] {
      WithLabelDistinct(w[1..], tag);
      WithLabelMembers(w[1..], tag);
      HeadApart(w);
      hide WithLabel;
      ConsDistinct(w[0], WithLabel(w[1..], tag));
      LabelStep(w, tag);
    }
  }

  lemma LabelStep(w: seq<Working>, tag: Label)
    requires w != []
    ensures WithLabel(w, tag) == if w[0].tag == tag then [w[0]] + WithLabel(w[1..], tag) else WithLabel(w[1..], tag)
  {
  }

  lemma HeadApart(w: seq<Working>)
    requires w != [] && DistinctItems(w)
    ensures DistinctItems(w[1..]) && forall x :: x in w[1..] ==> x.chunk.chunkId != w[0].chunk.chunkId
  {
  }

  lemma ConsDistinct(x: Working, rest: seq<Working>)
    requires DistinctItems(rest) && forall y :: y in rest ==> y.chunk.chunkId != x.chunk.chunkId
    ensures DistinctItems([x] + rest)
  {
  }

  lemma {:induction false} NotInDistinct(w: seq<Working>, ids: set<nat>)
    requires DistinctItems(w)
    ensures DistinctItems(NotIn(w, ids))
  {
    if w != [] {
      HeadApart(w);
      NotInDistinct(w[1..], ids);
      NotInMembers(w[1..], ids);
      NotInStep(w, ids);
      hide NotIn;
      ConsDistinct(w[0], NotIn(w[1..], ids));
    }
  }

  lemma NotInStep(w: seq<Working>, ids: set<nat>)
    requires w != []
    ensures NotIn(w, ids) == if w[0].chunk.chunkId in ids then NotIn(w[1..], ids) else [w[0]] + NotIn(w[1..], ids)
  {
  }

  lemma {:induction false} SortDistinct(w: seq<Working>)
    requires DistinctItems(w)
    ensures DistinctItems(Sort(w, ByScore)) && forall x :: x in Sort(w, ByScore) <==> x in w
  {
    SortMembers(w, ByScore);
    SortPermutes(w, ByScore);
    assert NoDups(w);
    NoDupsCarries(w, Sort(w, ByScore));
    hide Sort;
    var s := Sort(w, ByScore);
    forall i, j | 0 <= i < j < |s|
      ensures s[i].chunk.chunkId != s[j].chunk.chunkId
    {
      assert s[i] in w && s[j] in w;
      var k :| 0 <= k < |w| && w[k] == s[i];
      var l :| 0 <= l < |w| && w[l] == s[j];
    }
  }

  lemma TakeKeeps(w: seq<Working>, n: nat)
    ensures Take(w, n) <= w && |Take(w, n)| <= n
    ensures forall x :: x in Take(w, n) ==> x in w
    ensures DistinctItems(w) ==> DistinctItems(Take(w, n))
  {
  }

  lemma ByScoreIsOrder()
    ensures TotalPreorder(ByScore)
  {
  }

  /** The first of the best scores is at least every other score. */
  lemma {:induction false} TopIsBest(w: seq<Working>)
    requires w != []
    ensures forall x :: x in w ==> x.score <= w[Top(w)].score
  {
    if |w| > 1 {
      TopIsBest(w[..|w| - 1]);
      assert forall x :: x in w <==> x in w[..|w| - 1] || x == w[|w| - 1];
    }
  }

  // ---------------------------------------------------------------- partition

  /** Selected primaries and supporters are candidates, apart from each other. */
  lemma {:induction false} SelectedAreCandidates(w: seq<Working>, maxPrimary: int, maxSupplementary: int)
    requires DistinctItems(w)
    ensures
      var p, s := PrimaryOf(w, maxPrimary), SupportOf(w, maxPrimary, maxSupplementary);
      && DistinctItems(p) && DistinctItems(s)
      && (forall x :: x in p ==> x in w) && (forall x :: x in s ==> x in w && x.tag.Supplementary? && x.chunk.chunkId !in IdsOf(p))
      && |p| <= Max(1, maxPrimary) && |s| <= Max(0, maxSupplementary)
  {
    WithLabelMembers(w, Primary);
    WithLabelMembers(w, Supplementary);
    WithLabelDistinct(w, Primary);
    WithLabelDistinct(w, Supplementary);
    SortDistinct(WithLabel(w, Primary));
    SortDistinct(WithLabel(w, Supplementary));
    hide Sort, WithLabel, DistinctItems, Take;
    var candidates := Sort(WithLabel(w, Primary), ByScore);
    TakeKeeps(candidates, Max(1, maxPrimary));
    if w != [] {
      TakeKeeps([w[Top(w)]], Max(1, maxPrimary));
      OneIsDistinct(w[Top(w)]);
    }
    var support := Sort(WithLabel(w, Supplementary), ByScore);
    var ids := IdsOf(PrimaryOf(w, maxPrimary));
    NotInMembers(support, ids);
    NotInDistinct(support, ids);
    TakeKeeps(NotIn(support, ids), Max(0, maxSupplementary));
    NoneDistinct();
  }

  lemma OneIsDistinct(x: Working)
    ensures DistinctItems([x])
  {
  }

  lemma NoneDistinct()
    ensures DistinctItems([])
  {
  }

  lemma JoinDistinct(a: seq<Working>, b: seq<Working>)
    requires DistinctItems(a) && DistinctItems(b) && forall x :: x in b ==> x.chunk.chunkId !in IdsOf(a)
    ensures DistinctItems(a + b)
  {
    var c := a + b;
    forall i, j | 0 <= i < j < |c|
      ensures c[i].chunk.chunkId != c[j].chunk.chunkId
    {
      if i < |a| && j >= |a| {
        assert a[i] in a && b[j - |a|] in b;
        assert a[i].chunk.chunkId in IdsOf(a);
      }
    }
  }

  lemma ChunksDistinct(w: seq<Working>)
    ensures DistinctItems(w) <==> DistinctChunks(ChunksOf(w))
    ensures forall x :: x in w ==> x.chunk in ChunksOf(w)
    ensures forall c :: c in ChunksOf(w) ==> exists x :: x in w && x.chunk == c
  {
    var cs := ChunksOf(w);
    assert forall i :: 0 <= i < |w| ==> cs[i] == w[i].chunk;
    if DistinctChunks(cs) {
      forall i, j | 0 <= i < j < |w|
        ensures w[i].chunk.chunkId != w[j].chunk.chunkId
      {
        assert cs[i].chunkId != cs[j].chunkId;
      }
    }
    forall x | x in w
      ensures x.chunk in cs
    {
      var i :| 0 <= i < |w| && w[i] == x;
      assert cs[i] == x.chunk;
    }
    forall c | c in cs
      ensures exists x :: x in w && x.chunk == c
    {
      var i :| 0 <= i < |cs| && cs[i] == c;
      assert w[i] in w && w[i].chunk == c;
    }
  }

  /** Primary, supplementary and discarded chunks are the input, each chunk in one of the three and once. */
  lemma {:induction false} SelectionPartitions(read: Reader, chunks: seq<RetrievedChunk>, maxPrimary: int, maxSupplementary: int)
    requires DistinctChunks(chunks)
    ensures
      var r := Select(read, chunks, maxPrimary, maxSupplementary);
      && DistinctChunks(r.primary + r.supplementary + r.discarded)
      && (forall c :: c in r.primary + r.supplementary + r.discarded <==> c in chunks)
      && |r.primary| <= Max(1, maxPrimary) && |r.supplementary| <= Max(0, maxSupplementary)
  {
    var w := Scored(read, chunks);
    ScoredInRankOrder(read, chunks);
    ChunksDistinct(w);
    hide Scored, DistinctItems, DistinctChunks, PrimaryOf, SupportOf, NotIn, ChunksOf;
    SelectedAreCandidates(w, maxPrimary, maxSupplementary);
    var p, s := PrimaryOf(w, maxPrimary), SupportOf(w, maxPrimary, maxSupplementary);
    JoinDistinct(p, s);
    var d := NotIn(w, IdsOf(p) + IdsOf(s));
    NotInMembers(w, IdsOf(p) + IdsOf(s));
    NotInDistinct(w, IdsOf(p) + IdsOf(s));
    IdsOfJoin(p, s);
    JoinDistinct(p + s, d);
    ChunksDistinct(p + s + d);
    ChunksOfJoin(p, s, d);
    SameItems(w, p, s, d);
  }

  lemma IdsOfJoin(a: seq<Working>, b: seq<Working>)
    ensures IdsOf(a + b) == IdsOf(a) + IdsOf(b)
  {
  }

  lemma ChunksOfJoin(a: seq<Working>, b: seq<Working>, c: seq<Working>)
    ensures ChunksOf(a + b + c) == ChunksOf(a) + ChunksOf(b) + ChunksOf(c)
  {
  }

  lemma SameItems(w: seq<Working>, p: seq<Working>, s: seq<Working>, d: seq<Working>)
    requires DistinctItems(w)
    requires forall x :: x in p ==> x in w
    requires forall x :: x in s ==> x in w
    requires forall x :: x in d <==> x in w && x.chunk.chunkId !in IdsOf(p) + IdsOf(s)
    ensures forall c :: c in ChunksOf(p + s + d) <==> c in ChunksOf(w)
  {
    ChunksDistinct(w);
    ChunksDistinct(p + s + d);
    hide ChunksOf;
    forall x | x in w
      ensures x in p + s + d
    {
      if x.chunk.chunkId in IdsOf(p) + IdsOf(s) {
        var y :| y in p + s && y.chunk.chunkId == x.chunk.chunkId;
        SameIdSameItem(w, x, y);
      }
    }
  }

  lemma SameIdSameItem(w: seq<Working>, x: Working, y: Working)
    requires DistinctItems(w) && x in w && y in w && x.chunk.chunkId == y.chunk.chunkId
    ensures x == y
  {
    var i :| 0 <= i < |w| && w[i] == x;
    var j :| 0 <= j < |w| && w[j] == y;
  }

  // ------------------------------------------------------ what is never dropped

  lemma LabelsFit(read: Reader, chunks: seq<RetrievedChunk>)
    ensures forall x :: x in Scored(read, chunks) ==> x.tag == Classify(x)
  {
    hide CombineScore, SectionProximity, FirstSignals;
  }

  /** The candidates are sorted before the cap, and are all those labelled primary. */
  lemma {:induction false} CandidatesSorted(w: seq<Working>, tag: Label)
    ensures Sorted(Sort(WithLabel(w, tag), ByScore), ByScore)
    ensures forall x :: x in Sort(WithLabel(w, tag), ByScore) <==> x in w && x.tag == tag
  {
    ByScoreIsOrder();
    SortSorts(WithLabel(w, tag), ByScore);
    SortMembers(WithLabel(w, tag), ByScore);
    WithLabelMembers(w, tag);
  }

  lemma TakenOutscore(w: seq<Working>, n: nat, x: Working, y: Working)
    requires Sorted(w, ByScore) && x in w && x !in Take(w, n) && y in Take(w, n)
    ensures y.score >= x.score
  {
    var i :| 0 <= i < |w| && w[i] == x;
    var j :| 0 <= j < |Take(w, n)| && Take(w, n)[j] == y;
    assert w[j] == y && i >= n && Take(w, n)[j] == w[j];
    assert ByScore(w[j], w[i]);
  }

  /** No primary candidate that the cap drops outscores one that is kept. */
  lemma {:induction false} NoDroppedPrimaryOutscores(
      read: Reader, chunks: seq<RetrievedChunk>, maxPrimary: int, dropped: Working, kept: Working)
    requires dropped in Scored(read, chunks) && dropped.tag.Primary?
    requires dropped !in PrimaryOf(Scored(read, chunks), maxPrimary) && kept in PrimaryOf(Scored(read, chunks), maxPrimary)
    ensures kept.tag.Primary? && kept.score >= dropped.score
  {
    hide Scored;
    var w := Scored(read, chunks);
    CandidatesSorted(w, Primary);
    hide Sort, WithLabel;
    var candidates := Sort(WithLabel(w, Primary), ByScore);
    assert dropped in candidates;
    TakenOutscore(candidates, Max(1, maxPrimary), dropped, kept);
    TakeKeeps(candidates, Max(1, maxPrimary));
  }

  /** Scores below which nothing of a kind is kept. */
  lemma {:induction false} KeptScoresHaveFloors(read: Reader, chunks: seq<RetrievedChunk>, maxPrimary: int, maxSupplementary: int)
    ensures forall x :: x in PrimaryOf(Scored(read, chunks), maxPrimary) ==> x.score >= IRRELEVANT_HARD_MAX
    ensures forall x :: x in SupportOf(Scored(read, chunks), maxPrimary, maxSupplementary) ==> x.score >= SUPPLEMENTARY_THRESHOLD
  {
    LabelsFit(read, chunks);
    hide Scored;
    var w := Scored(read, chunks);
    CandidatesSorted(w, Primary);
    CandidatesSorted(w, Supplementary);
    hide Sort, WithLabel;
    var candidates, support := Sort(WithLabel(w, Primary), ByScore), Sort(WithLabel(w, Supplementary), ByScore);
    TakeKeeps(candidates, Max(1, maxPrimary));
    var ids := IdsOf(PrimaryOf(w, maxPrimary));
    NotInMembers(support, ids);
    TakeKeeps(NotIn(support, ids), Max(0, maxSupplementary));
  }

  /** The prompt gets no evidence exactly when every final score is below 0.18. */
  lemma {:induction false} EmptyExactlyWhen(read: Reader, chunks: seq<RetrievedChunk>, maxPrimary: int, maxSupplementary: int)
    ensures
      var r := Select(read, chunks, maxPrimary, maxSupplementary);
      r.primary + r.supplementary == [] <==> forall x :: x in Scored(read, chunks) ==> x.score < IRRELEVANT_HARD_MAX
  {
    var w := Scored(read, chunks);
    KeptScoresHaveFloors(read, chunks, maxPrimary, maxSupplementary);
    hide Scored;
    var p, s := PrimaryOf(w, maxPrimary), SupportOf(w, maxPrimary, maxSupplementary);
    if forall x :: x in w ==> x.score < IRRELEVANT_HARD_MAX {
      SelectedAreScored(w, maxPrimary, maxSupplementary);
      hide PrimaryOf, SupportOf;
      FirstMemberOf(p);
      FirstMemberOf(s);
    } else {
      TopIsBest(w);
      CandidatesSorted(w, Primary);
      hide Sort, WithLabel;
      assert p != [];
    }
  }

  lemma FirstMemberOf(w: seq<Working>)
    ensures w != [] ==> w[0] in w
  {
  }

  lemma {:induction false} SelectedAreScored(w: seq<Working>, maxPrimary: int, maxSupplementary: int)
    ensures forall x :: x in PrimaryOf(w, maxPrimary) || x in SupportOf(w, maxPrimary, maxSupplementary) ==> x in w
  {
    CandidatesSorted(w, Primary);
    CandidatesSorted(w, Supplementary);
    hide Sort, WithLabel;
    var candidates, support := Sort(WithLabel(w, Primary), ByScore), Sort(WithLabel(w, Supplementary), ByScore);
    TakeKeeps(candidates, Max(1, maxPrimary));
    var ids := IdsOf(PrimaryOf(w, maxPrimary));
    NotInMembers(support, ids);
    TakeKeeps(NotIn(support, ids), Max(0, maxSupplementary));
  }

  // ------------------------------------------------------- who is primary

  /** Scores well, or scores fairly and answers the question directly. */
  predicate DeservesPrimary(x: Working) {
    || x.score >= 0.42
    || (x.score >= 0.28
        && (|| x.signals.lexical.faq >= 0.45
            || x.signals.lexical.phrase >= 0.75
            || (x.signals.lexical.numeric >= 1.0 && x.signals.lexical.overlap >= 0.15)
            || (x.signals.lexical.heading >= 0.5 && x.signals.lexical.overlap >= 0.2)))
  }

  lemma LabelsExactlyWhen(read: Reader, chunks: seq<RetrievedChunk>, x: Working)
    requires x in Scored(read, chunks)
    ensures x.tag.Primary? <==> DeservesPrimary(x)
    ensures x.tag.Supplementary? <==> !DeservesPrimary(x) && x.score >= 0.28
  {
    LabelsFit(read, chunks);
    hide Scored;
  }

  lemma TakenAll(w: seq<Working>, n: nat, x: Working)
    requires x in w && x !in Take(w, n)
    ensures |Take(w, n)| == n
  {
  }

  /**
   * The primary evidence is exactly the candidates that deserve it, the best
   * of them when there are more than the cap; when none does it is the best
   * candidate alone, if that scores 0.18.
   */
  lemma {:induction false} PrimariesExactlyWhen(read: Reader, chunks: seq<RetrievedChunk>, maxPrimary: int, x: Working)
    requires x in Scored(read, chunks)
    ensures
      var w, cap := Scored(read, chunks), if maxPrimary < 1 then 1 else maxPrimary;
      var p := PrimaryOf(w, maxPrimary);
      if exists y :: y in w && DeservesPrimary(y) then
        && (x in p ==> DeservesPrimary(x))
        && (DeservesPrimary(x) && x !in p ==> |p| == cap && forall y :: y in p ==> y.score >= x.score)
      else p == if w[Top(w)].score >= 0.18 then [w[Top(w)]] else []
  {
    var w := Scored(read, chunks);
    forall y | y in w
      ensures y.tag.Primary? <==> DeservesPrimary(y)
    {
      LabelsExactlyWhen(read, chunks, y);
    }
    CandidatesSorted(w, Primary);
    var candidates := Sort(WithLabel(w, Primary), ByScore);
    TakeKeeps(candidates, Max(1, maxPrimary));
    hide Scored, Sort, WithLabel, DeservesPrimary, Take, Top;
    FirstMemberOf(candidates);
    if DeservesPrimary(x) && x !in PrimaryOf(w, maxPrimary) {
      TakenAll(candidates, Max(1, maxPrimary), x);
      forall y | y in Take(candidates, Max(1, maxPrimary))
        ensures y.score >= x.score
      {
        TakenOutscore(candidates, Max(1, maxPrimary), x, y);
      }
    }
    TakeOne(w[Top(w)], Max(1, maxPrimary));
  }

  lemma TakeOne(x: Working, n: nat)
    ensures n >= 1 ==> Take([x], n) == [x]
    ensures Take([], n) == []
  {
  }

  /** The supporting evidence is the other candidates that score 0.28, the best of them when there are more than the cap. */
  lemma {:induction false} SupportersExactlyWhen(
      read: Reader, chunks: seq<RetrievedChunk>, maxPrimary: int, maxSupplementary: int, x: Working)
    requires x in Scored(read, chunks)
    ensures
      var w, cap := Scored(read, chunks), if maxSupplementary < 0 then 0 else maxSupplementary;
      var p, s := PrimaryOf(w, maxPrimary), SupportOf(w, maxPrimary, maxSupplementary);
      var deserves := !DeservesPrimary(x) && x.score >= 0.28 && x.chunk.chunkId !in IdsOf(p);
      && (x in s ==> deserves)
      && (deserves && x !in s ==> |s| == cap && forall y :: y in s ==> y.score >= x.score)
  {
    LabelsExactlyWhen(read, chunks, x);
    hide Scored, DeservesPrimary;
    var w := Scored(read, chunks);
    CandidatesSorted(w, Supplementary);
    hide Sort, WithLabel, PrimaryOf, Take;
    var ids := IdsOf(PrimaryOf(w, maxPrimary));
    var candidates := Sort(WithLabel(w, Supplementary), ByScore);
    var rest := NotIn(candidates, ids);
    NotInMembers(candidates, ids);
    NotInSorted(candidates, ids);
    TakeKeeps(rest, Max(0, maxSupplementary));
    if x in rest && x !in SupportOf(w, maxPrimary, maxSupplementary) {
      TakenAll(rest, Max(0, maxSupplementary), x);
      forall y | y in Take(rest, Max(0, maxSupplementary))
        ensures y.score >= x.score
      {
        TakenOutscore(rest, Max(0, maxSupplementary), x, y);
      }
    }
  }

  lemma {:induction false} NotInSorted(w: seq<Working>, ids: set<nat>)
    requires Sorted(w, ByScore)
    ensures Sorted(NotIn(w, ids), ByScore)
  {
    if w != [] {
      var rest := NotIn(w[1..], ids);
      NotInSorted(w[1..], ids);
      NotInMembers(w[1..], ids);
      NotInStep(w, ids);
      hide NotIn;
      forall j | 0 <= j < |rest|
        ensures ByScore(w[0], rest[j])
      {
        assert rest[j] in w[1..];
        var k :| 0 <= k < |w[1..]| && w[1..][k] == rest[j];
        assert w[k + 1] == rest[j];
      }
      SortedCons(w[0], rest, ByScore);
    }
  }

  // ----------------------------------------------------- what scores reward

  ghost predicate NoStronger(s: Signals, t: Signals) {
    && s.lexical.overlap <= t.lexical.overlap && s.lexical.persian <= t.lexical.persian && s.lexical.heading <= t.lexical.heading
    && s.lexical.faq <= t.lexical.faq && s.lexical.phrase <= t.lexical.phrase && s.lexical.numeric <= t.lexical.numeric
    && s.lexical.entities <= t.lexical.entities && (t.lexical.distractor ==> s.lexical.distractor)
    && s.section <= t.section && s.rc32 <= t.rc32 && s.hybridRank <= t.hybridRank
  }

  /** Stronger signals score no less, and strictly more unless nothing is stronger or both scores are cut off at zero. */
  lemma {:induction false} ScoreIsMonotone(s: Signals, t: Signals)
    requires NoStronger(s, t)
    ensures CombineScore(s) <= CombineScore(t)
    ensures CombineScore(s) == CombineScore(t) > 0.0 ==> s == t
  {
    if RawScore(s) == RawScore(t) {
      assert s.lexical == t.lexical && s.section == t.section && s.rc32 == t.rc32 && s.hybridRank == t.hybridRank;
    }
  }

  /** All signals together score 1; a distractor costs 0.12, and each signal is worth its share. */
  lemma {:induction false} SharesOfScore()
    ensures
      var none := Signals(Lexical(0.0, 0.0, 0.0, 0.0, 0.0, 0.0, 0.0, false), 0.0, 0.0, 0.0);
      var lexical := none.lexical;
      && CombineScore(none) == 0.0
      && CombineScore(Signals(Lexical(1.0, 1.0, 1.0, 1.0, 1.0, 1.0, 1.0, false), 1.0, 1.0, 1.0)) == 1.0
      && CombineScore(Signals(Lexical(1.0, 1.0, 1.0, 1.0, 1.0, 1.0, 1.0, true), 1.0, 1.0, 1.0)) == 0.88
      && CombineScore(none.(lexical := lexical.(overlap := 1.0))) == 0.14
      && CombineScore(none.(lexical := lexical.(persian := 1.0))) == 0.12
      && CombineScore(none.(lexical := lexical.(heading := 1.0))) == 0.10
      && CombineScore(none.(lexical := lexical.(faq := 1.0))) == 0.16
      && CombineScore(none.(lexical := lexical.(phrase := 1.0))) == 0.12
      && CombineScore(none.(lexical := lexical.(numeric := 1.0))) == 0.08
      && CombineScore(none.(lexical := lexical.(entities := 1.0))) == 0.06
      && CombineScore(none.(section := 1.0)) == 0.05
      && CombineScore(none.(rc32 := 1.0)) == 0.10
      && CombineScore(none.(hybridRank := 1.0)) == 0.07
  {
  }

  /** Nearer chunks of the anchor's document are closer to it; chunks of other documents are not close at all. */
  lemma {:induction false} NearerIsCloser(anchor: RetrievedChunk, a: RetrievedChunk, b: RetrievedChunk)
    requires a.chunkId != anchor.chunkId && b.chunkId != anchor.chunkId
    ensures SectionProximity(anchor, anchor) == 1.0 > SectionProximity(anchor, a)
    ensures a.documentId != anchor.documentId ==> SectionProximity(anchor, a) == 0.0
    ensures a.documentId == b.documentId == anchor.documentId
      && -5 < a.chunkIndex - anchor.chunkIndex < 5
      && (if a.chunkIndex < anchor.chunkIndex then anchor.chunkIndex - a.chunkIndex else a.chunkIndex - anchor.chunkIndex)
         < (if b.chunkIndex < anchor.chunkIndex then anchor.chunkIndex - b.chunkIndex else b.chunkIndex - anchor.chunkIndex)
      ==> SectionProximity(anchor, a) >= SectionProximity(anchor, b) && SectionProximity(anchor, a) > 0.0
  {
  }

  // ------------------------------------------------------------------- anchor

  /** The first pass leaves section proximity at zero; the second adds at most 0.05, and that only for the anchor. */
  lemma PlacedScore(anchor: RetrievedChunk, item: Working)
    requires item.signals.section == 0.0 && item.score == CombineScore(item.signals)
    ensures item.chunk.chunkId == anchor.chunkId && item.score > 0.0 ==> Tagged(anchor, item).score == item.score + 0.05
    ensures item.chunk.chunkId != anchor.chunkId ==> Tagged(anchor, item).score <= item.score + 0.045
  {
    hide LexicalScore, Classify;
    assert RawScore(item.signals.(section := 1.0)) == RawScore(item.signals) + 0.05;
  }

  lemma ScoredAt(read: Reader, chunks: seq<RetrievedChunk>, k: nat)
    requires k < |chunks|
    ensures Scored(read, chunks)[k] == Tagged(FirstPass(read, chunks)[Top(FirstPass(read, chunks))].chunk, FirstPass(read, chunks)[k])
    ensures FirstPass(read, chunks)[k] == Assessed(read, chunks, k)
  {
    hide Tagged, Assessed, Top;
  }

  /** A best candidate of the first pass with a positive score is the one best candidate of the second. */
  lemma {:induction false} AnchorStaysTop(read: Reader, chunks: seq<RetrievedChunk>, j: nat)
    requires DistinctChunks(chunks) && j < |chunks|
    ensures
      var first, final := FirstPass(read, chunks), Scored(read, chunks);
      var anchor := Top(first);
      first[anchor].score > 0.0 && j != anchor ==> final[j].score < final[anchor].score
  {
    var first := FirstPass(read, chunks);
    var anchor := Top(first);
    TopIsBest(first);
    assert first[j] in first;
    ScoredAt(read, chunks, j);
    ScoredAt(read, chunks, anchor);
    hide Scored, FirstPass, Tagged, FirstSignals, CombineScore, Top;
    assert first[j].chunk == chunks[j] && first[anchor].chunk == chunks[anchor];
    PlacedScore(first[anchor].chunk, first[j]) by {
      FirstSection(read, chunks, j);
    }
    PlacedScore(first[anchor].chunk, first[anchor]) by {
      FirstSection(read, chunks, anchor);
    }
  }

  lemma FirstSection(read: Reader, chunks: seq<RetrievedChunk>, k: nat)
    requires k < |chunks|
    ensures FirstSignals(read, chunks, k).section == 0.0
  {
  }

  lemma {:induction false} BestIsBest(chunks: seq<RetrievedChunk>, k: nat)
    requires k < |chunks|
    ensures chunks[k].score <= MaxScore(chunks)
  {
    if k < |chunks| - 1 {
      BestIsBest(chunks[..|chunks| - 1], k);
    }
  }

  lemma {:induction false} BestOfRanked(chunks: seq<RetrievedChunk>)
    requires chunks != [] && forall k :: 0 <= k < |chunks| ==> chunks[k].score <= chunks[0].score
    ensures MaxScore(chunks) == chunks[0].score
  {
    if |chunks| > 1 {
      BestOfRanked(chunks[..|chunks| - 1]);
    }
  }

  lemma FirstChunkScore(read: Reader, chunks: seq<RetrievedChunk>)
    requires chunks != [] && MaxScore(chunks) == chunks[0].score > 0.0 && AreUnits(read(chunks[0]))
    ensures Assessed(read, chunks, 0).score >= 0.05
  {
    hide MaxScore;
    assert FirstSignals(read, chunks, 0).rc32 == 1.0 && FirstSignals(read, chunks, 0).hybridRank == 1.0;
    assert LexicalScore(read(chunks[0])) >= -0.12;
  }

  /** For chunks that come best score first, as retrieval returns them, the anchor always has a positive score. */
  lemma {:induction false} AnchorOfRankedIsPositive(read: Reader, chunks: seq<RetrievedChunk>)
    requires chunks != [] && chunks[0].score > 0.0 && AreUnits(read(chunks[0]))
    requires forall k :: 0 <= k < |chunks| ==> chunks[k].score <= chunks[0].score
    ensures FirstPass(read, chunks)[Top(FirstPass(read, chunks))].score >= 0.05
  {
    BestOfRanked(chunks);
    FirstChunkScore(read, chunks);
    ScoredAt(read, chunks, 0);
    TopIsBest(FirstPass(read, chunks));
    hide Assessed, Top, FirstPass;
    FirstMemberOf(FirstPass(read, chunks));
  }

  /** A candidate's score with its proximity to `anchor` added, before the cut at zero. */
  function Lifted(anchor: RetrievedChunk, item: Working): real {
    RawScore(item.signals) + 0.05 * SectionProximity(anchor, item.chunk)
  }

  lemma FinalScore(read: Reader, chunks: seq<RetrievedChunk>, k: nat)
    requires k < |chunks|
    ensures
      var first := FirstPass(read, chunks);
      var lifted := Lifted(first[Top(first)].chunk, first[k]);
      Scored(read, chunks)[k].score == if lifted > 0.0 then lifted else 0.0
  {
    ScoredAt(read, chunks, k);
    FirstSection(read, chunks, k);
    hide Scored, FirstPass, Top, SectionProximity, LexicalScore, Classify, FirstSignals;
  }

  lemma {:induction false} TopOfZeros(w: seq<Working>)
    requires w != [] && forall k :: 0 <= k < |w| ==> w[k].score == 0.0
    ensures Top(w) == 0
  {
    if |w| > 1 {
      TopOfZeros(w[..|w| - 1]);
    }
  }

  /** First scores are never negative, so an anchor without a positive one is the first candidate. */
  lemma {:induction false} ZeroAnchorIsFirst(read: Reader, chunks: seq<RetrievedChunk>)
    requires chunks != []
    ensures var first := FirstPass(read, chunks);
      first[Top(first)].score > 0.0 || Top(first) == 0
  {
    var first := FirstPass(read, chunks);
    TopIsBest(first);
    assert forall k :: 0 <= k < |first| ==> first[k] in first && first[k].score >= 0.0;
    hide FirstPass, Top;
    if first[Top(first)].score <= 0.0 {
      TopOfZeros(first);
    }
  }

  /**
   * No candidate ends above the anchor exactly when the anchor's first score
   * is positive, or no candidate's proximity to the first one lifts it above
   * both zero and what the first one gets itself.
   */
  lemma {:induction false} AnchorHoldsExactlyWhen(read: Reader, chunks: seq<RetrievedChunk>)
    requires DistinctChunks(chunks) && chunks != []
    ensures
      var first, final := FirstPass(read, chunks), Scored(read, chunks);
      var anchor := Top(first);
      (forall j :: 0 <= j < |chunks| ==> final[j].score <= final[anchor].score)
      <==>
      (first[anchor].score > 0.0
       || forall j :: 0 <= j < |chunks| ==>
            Lifted(first[0].chunk, first[j]) <= 0.0 || Lifted(first[0].chunk, first[j]) <= Lifted(first[0].chunk, first[0]))
  {
    var first, final := FirstPass(read, chunks), Scored(read, chunks);
    var anchor := Top(first);
    ZeroAnchorIsFirst(read, chunks);
    FinalScore(read, chunks, anchor);
    forall j | 0 <= j < |chunks|
      ensures first[anchor].score > 0.0 ==> final[j].score <= final[anchor].score
      ensures final[j].score == if Lifted(first[anchor].chunk, first[j]) > 0.0 then Lifted(first[anchor].chunk, first[j]) else 0.0
    {
      hide Scored, FirstPass, Top, Lifted;
      AnchorStaysTop(read, chunks, j);
      FinalScore(read, chunks, j);
    }
    hide Scored, FirstPass, Top, Lifted;
  }

  /** Two neighbours with a distractor each; the second agrees with a number of the question. */
  const NEIGHBOURS := [
    RetrievedChunk(1, 1, 1, 0.0, "a", 0, 0, 1, None), RetrievedChunk(2, 1, 1, 0.0, "b", 1, 1, 2, None)]

  function NeighbourReader(c: RetrievedChunk): Lexical {
    Lexical(0.0, 0.0, 0.0, 0.0, 0.0, if c.chunkId == 2 then 1.0 else 0.0, 0.0, true)
  }

  /** Without a positive score the anchor can fall behind a neighbour that its own proximity lifts. */
  lemma AnchorCanFall()
    ensures
      var first, final := FirstPass(NeighbourReader, NEIGHBOURS), Scored(NeighbourReader, NEIGHBOURS);
      && DistinctChunks(NEIGHBOURS) && (forall c :: c in NEIGHBOURS ==> AreUnits(NeighbourReader(c)))
      && Top(first) == 0 && first[0].score == 0.0 && final[0].score == 0.0 && final[1].score == 0.03
  {
    var chunks := NEIGHBOURS;
    assert chunks[..1] == [chunks[0]];
    assert MaxScore([chunks[0]]) == 0.0 && MaxScore(chunks) == 0.0;
    assert FirstSignals(NeighbourReader, chunks, 0) == Signals(NeighbourReader(chunks[0]), 0.0, 0.0, 1.0);
    assert FirstSignals(NeighbourReader, chunks, 1) == Signals(NeighbourReader(chunks[1]), 0.0, 0.0, 0.5);
    hide FirstSignals, MaxScore, Scale;
    ScoredAt(NeighbourReader, chunks, 0);
    ScoredAt(NeighbourReader, chunks, 1);
    var first := FirstPass(NeighbourReader, chunks);
    assert first[0].score == 0.0 && first[1].score == 0.0;
    hide FirstPass, Scored;
    assert first[..1] == [first[0]];
    assert Top(first) == 0;
  }

  /** Scores are shares: between 0 and 1. */
  lemma {:induction false} ScoresAreUnits(read: Reader, chunks: seq<RetrievedChunk>, k: nat)
    requires k < |chunks| && AreUnits(read(chunks[k]))
    ensures IsUnit(Scored(read, chunks)[k].score)
  {
    hide *;
    ScoredAt(read, chunks, k);
    var first := FirstPass(read, chunks);
    var s := FinalSignals(read, chunks, k, first[Top(first)].chunk);
    CombinedIsUnit(s);
  }

  lemma FinalSignals(read: Reader, chunks: seq<RetrievedChunk>, k: nat, anchor: RetrievedChunk) returns (s: Signals)
    requires k < |chunks|
    ensures Tagged(anchor, Assessed(read, chunks, k)).score == CombineScore(s)
    ensures s.lexical == read(chunks[k]) && IsUnit(s.section) && IsUnit(s.rc32) && IsUnit(s.hybridRank)
  {
    hide SectionProximity, Scale, Classify, CombineScore;
    ProximityIsUnit(anchor, chunks[k]);
    s := FirstSignals(read, chunks, k).(section := SectionProximity(anchor, chunks[k]));
  }

  lemma CombinedIsUnit(s: Signals)
    requires AreUnits(s.lexical) && IsUnit(s.section) && IsUnit(s.rc32) && IsUnit(s.hybridRank)
    ensures IsUnit(CombineScore(s))
  {
    LexicalIsBounded(s.lexical);
    hide LexicalScore;
  }

  lemma LexicalIsBounded(l: Lexical)
    requires AreUnits(l)
    ensures LexicalScore(l) <= 0.78
  {
  }

  lemma ProximityIsUnit(a: RetrievedChunk, b: RetrievedChunk)
    ensures IsUnit(SectionProximity(a, b))
  {
  }
}
