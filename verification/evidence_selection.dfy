/** Scoring retrieved chunks as evidence and choosing the few that reach the prompt. */
module EvidenceSelection {
  import opened PythonText
  import opened RetrievalModels
  import opened Sorting

  datatype Label = Primary | Supplementary | Irrelevant

  /** The signals read from a chunk's text and heading for one question. */
  datatype Lexical = Lexical(
    overlap: real, persian: real, heading: real, faq: real, phrase: real, numeric: real, entities: real, distractor: bool)

  datatype Signals = Signals(lexical: Lexical, section: real, rc32: real, hybridRank: real)

  datatype Working = Working(chunk: RetrievedChunk, rank: nat, signals: Signals, score: real, tag: Label)

  datatype Selection = Selection(primary: seq<RetrievedChunk>, supplementary: seq<RetrievedChunk>, discarded: seq<RetrievedChunk>)

  type Reader = RetrievedChunk -> Lexical

  const MAX_PRIMARY := 3
  const MAX_SUPPLEMENTARY := 2
  const PRIMARY_THRESHOLD := 0.42
  const SUPPLEMENTARY_THRESHOLD := 0.28
  const IRRELEVANT_HARD_MAX := 0.18
  const DISTRACTOR_PENALTY := 0.12

  // ------------------------------------------------------------------ scoring

  predicate IsUnit(x: real) { 0.0 <= x <= 1.0 }

  /** Jaccard ratios and shares lie between 0 and 1. */
  predicate AreUnits(l: Lexical) {
    IsUnit(l.overlap) && IsUnit(l.persian) && IsUnit(l.heading) && IsUnit(l.faq) && IsUnit(l.phrase)
    && IsUnit(l.numeric) && IsUnit(l.entities)
  }

  function LexicalScore(l: Lexical): real {
    0.14 * l.overlap + 0.12 * l.persian + 0.10 * l.heading + 0.16 * l.faq + 0.12 * l.phrase
    + 0.08 * l.numeric + 0.06 * l.entities - if l.distractor then DISTRACTOR_PENALTY else 0.0
  }

  function RawScore(s: Signals): real {
    LexicalScore(s.lexical) + 0.05 * s.section + 0.10 * s.rc32 + 0.07 * s.hybridRank
  }

  /** `_combine_score`. */
  function CombineScore(s: Signals): real {
    if RawScore(s) > 0.0 then RawScore(s) else 0.0
  }

  /** `_section_proximity`. */
  function SectionProximity(anchor: RetrievedChunk, other: RetrievedChunk): real {
    var distance := if other.chunkIndex >= anchor.chunkIndex then other.chunkIndex - anchor.chunkIndex else anchor.chunkIndex - other.chunkIndex;
    if other.chunkId == anchor.chunkId then 1.0
    else if other.documentId != anchor.documentId then 0.0
    else if distance == 0 then 0.9
    else if distance == 1 then 0.7
    else if distance == 2 then 0.4
    else if distance <= 4 then 0.2
    else 0.0
  }

  /** `max(scores) or 1.0`. */
  function Scale(chunks: seq<RetrievedChunk>): (m: real)
    requires chunks != []
    ensures m != 0.0
  {
    if MaxScore(chunks) == 0.0 then 1.0 else MaxScore(chunks)
  }

  function FirstSignals(read: Reader, chunks: seq<RetrievedChunk>, i: nat): Signals
    requires i < |chunks|
  {
    Signals(read(chunks[i]), 0.0, Clamp01(chunks[i].score / Scale(chunks)), 1.0 / (1 + i) as real)
  }

  function Assessed(read: Reader, chunks: seq<RetrievedChunk>, i: nat): Working
    requires i < |chunks|
  {
    var signals := FirstSignals(read, chunks, i);
    Working(chunks[i], i + 1, signals, CombineScore(signals), Irrelevant)
  }

  /** The candidates after the first pass. */
  function FirstPass(read: Reader, chunks: seq<RetrievedChunk>): (w: seq<Working>)
    ensures |w| == |chunks|
  {
    seq(|chunks|, i requires 0 <= i < |chunks| => Assessed(read, chunks, i))
  }

  /** The position of the first candidate with the best score. */
  function Top(w: seq<Working>): (k: nat)
    requires w != []
    ensures k < |w|
  {
    if |w| == 1 then 0
    else
      var k := Top(w[..|w| - 1]);
      if w[|w| - 1].score > w[k].score then |w| - 1 else k
  }

  function Placed(anchor: RetrievedChunk, item: Working): Working {
    var signals := item.signals.(section := SectionProximity(anchor, item.chunk));
    item.(signals := signals, score := CombineScore(signals))
  }

  predicate IsStrongDirect(s: Signals) {
    || s.lexical.faq >= 0.45
    || s.lexical.phrase >= 0.75
    || (s.lexical.numeric >= 1.0 && s.lexical.overlap >= 0.15)
    || (s.lexical.heading >= 0.5 && s.lexical.overlap >= 0.2)
  }

  /** `_classify`. */
  function Classify(item: Working): Label {
    if item.score >= PRIMARY_THRESHOLD || (IsStrongDirect(item.signals) && item.score >= SUPPLEMENTARY_THRESHOLD) then Primary
    else if item.score >= SUPPLEMENTARY_THRESHOLD then Supplementary
    else Irrelevant
  }

  function Tagged(anchor: RetrievedChunk, item: Working): Working {
    var placed := Placed(anchor, item);
    placed.(tag := Classify(placed))
  }

  /** The candidates with their final scores and labels. */
  function Scored(read: Reader, chunks: seq<RetrievedChunk>): (w: seq<Working>)
    ensures |w| == |chunks|
  {
    if chunks == [] then []
    else
      var first := FirstPass(read, chunks);
      var anchor := first[Top(first)].chunk;
      seq(|first|, i requires 0 <= i < |first| => Tagged(anchor, first[i]))
  }

  // ---------------------------------------------------------------- selection

  predicate ByScore(a: Working, b: Working) {
    a.score > b.score || (a.score == b.score && a.rank <= b.rank)
  }

  function WithLabel(w: seq<Working>, tag: Label): seq<Working> {
    if w == [] then [] else (if w[0].tag == tag then [w[0]] else []) + WithLabel(w[1..], tag)
  }

  function NotIn(w: seq<Working>, ids: set<nat>): seq<Working> {
    if w == [] then [] else (if w[0].chunk.chunkId in ids then [] else [w[0]]) + NotIn(w[1..], ids)
  }

  function IdsOf(w: seq<Working>): set<nat> {
    set item | item in w :: item.chunk.chunkId
  }

  function Take(w: seq<Working>, n: nat): seq<Working> {
    if |w| <= n then w else w[..n]
  }

  function ChunksOf(w: seq<Working>): (r: seq<RetrievedChunk>)
    ensures |r| == |w|
  {
    seq(|w|, i requires 0 <= i < |w| => w[i].chunk)
  }

  /** The primary evidence, best first, with the best candidate promoted when there is none. */
  function PrimaryOf(w: seq<Working>, maxPrimary: int): seq<Working> {
    if w == [] then []
    else
      var candidates := Sort(WithLabel(w, Primary), ByScore);
      var best := w[Top(w)];
      Take(if candidates == [] && best.score >= IRRELEVANT_HARD_MAX then [best] else candidates, Max(1, maxPrimary))
  }

  function SupportOf(w: seq<Working>, maxPrimary: int, maxSupplementary: int): seq<Working> {
    Take(NotIn(Sort(WithLabel(w, Supplementary), ByScore), IdsOf(PrimaryOf(w, maxPrimary))), Max(0, maxSupplementary))
  }

  /** What `select_evidence` returns. */
  function Select(read: Reader, chunks: seq<RetrievedChunk>, maxPrimary: int, maxSupplementary: int): Selection {
    var w := Scored(read, chunks);
    var primary, support := PrimaryOf(w, maxPrimary), SupportOf(w, maxPrimary, maxSupplementary);
    Selection(ChunksOf(primary), ChunksOf(support), ChunksOf(NotIn(w, IdsOf(primary) + IdsOf(support))))
  }

  /** `select_evidence`. */
  method SelectEvidence(read: Reader, chunks: seq<RetrievedChunk>, maxPrimary: int, maxSupplementary: int) returns (r: Selection)
    ensures r == Select(read, chunks, maxPrimary, maxSupplementary)
  {
    if chunks == [] {
      NothingSelected(maxPrimary, maxSupplementary);
      return Selection([], [], []);
    }
    hide Assessed, Placed, Classify, Sort, SectionProximity;
    var working: seq<Working> := [];
    for i := 0 to |chunks|
      invariant working == FirstPass(read, chunks)[..i]
    {
      working := working + [Assessed(read, chunks, i)];
    }
    ghost var first := working;
    assert first == FirstPass(read, chunks);
    var anchor := TopLoop(working);
    working := PlaceAll(working, anchor);
    working := LabelAll(working);
    assert working == Scored(read, chunks);
    ScoredInRankOrder(read, chunks);
    r := Choose(working, maxPrimary, maxSupplementary);
  }

  /** The loop that adds section proximity and scores again. */
  method PlaceAll(first: seq<Working>, anchor: nat) returns (working: seq<Working>)
    requires anchor < |first|
    ensures |working| == |first| && forall j :: 0 <= j < |first| ==> working[j] == Placed(first[anchor].chunk, first[j])
  {
    hide Placed;
    working := first;
    for i := 0 to |working|
      invariant |working| == |first|
      invariant forall j :: 0 <= j < i ==> working[j] == Placed(first[anchor].chunk, first[j])
      invariant forall j :: i <= j < |first| ==> working[j] == first[j]
      invariant working[anchor].chunk == first[anchor].chunk
    {
      PlacedChunk(first[anchor].chunk, working[i]);
      working := working[i := Placed(working[anchor].chunk, working[i])];
    }
  }

  /** The loop that classifies. */
  method LabelAll(placed: seq<Working>) returns (working: seq<Working>)
    ensures |working| == |placed| && forall j :: 0 <= j < |placed| ==> working[j] == placed[j].(tag := Classify(placed[j]))
  {
    hide Classify;
    working := placed;
    for i := 0 to |working|
      invariant |working| == |placed|
      invariant forall j :: 0 <= j < i ==> working[j] == placed[j].(tag := Classify(placed[j]))
      invariant forall j :: i <= j < |placed| ==> working[j] == placed[j]
    {
      working := working[i := working[i].(tag := Classify(working[i]))];
    }
  }

  lemma PlacedChunk(anchor: RetrievedChunk, item: Working)
    ensures Placed(anchor, item).chunk == item.chunk
  {
  }

  lemma NothingSelected(maxPrimary: int, maxSupplementary: int)
    ensures PrimaryOf([], maxPrimary) == [] && SupportOf([], maxPrimary, maxSupplementary) == []
  {
  }

  method TopLoop(w: seq<Working>) returns (k: nat)
    requires w != []
    ensures k == Top(w)
  {
    k := 0;
    for i := 1 to |w|
      invariant k == Top(w[..i])
    {
      assert w[..i + 1][..i] == w[..i];
      if w[i].score > w[k].score {
        k := i;
      }
    }
    assert w[..|w|] == w;
  }

  ghost predicate InRankOrder(w: seq<Working>) {
    forall i :: 0 <= i < |w| ==> w[i].rank == i + 1
  }

  /** `max` by score and then by lower rank: the first of the best scores again. */
  method FallbackLoop(w: seq<Working>) returns (k: nat)
    requires w != [] && InRankOrder(w)
    ensures k == Top(w)
  {
    k := 0;
    for i := 1 to |w|
      invariant k < i && k == Top(w[..i])
    {
      assert w[..i + 1][..i] == w[..i];
      if w[i].score > w[k].score || (w[i].score == w[k].score && w[i].rank < w[k].rank) {
        k := i;
      }
    }
    assert w[..|w|] == w;
  }

  lemma ScoredInRankOrder(read: Reader, chunks: seq<RetrievedChunk>)
    ensures InRankOrder(Scored(read, chunks))
    ensures ChunksOf(Scored(read, chunks)) == chunks
  {
    hide CombineScore, Classify, SectionProximity, FirstSignals;
  }

  /** The second half of `select_evidence`: labels to selected chunks. */
  method Choose(w: seq<Working>, maxPrimary: int, maxSupplementary: int) returns (r: Selection)
    requires w != [] && InRankOrder(w)
    ensures
      var primary, support := PrimaryOf(w, maxPrimary), SupportOf(w, maxPrimary, maxSupplementary);
      r == Selection(ChunksOf(primary), ChunksOf(support), ChunksOf(NotIn(w, IdsOf(primary) + IdsOf(support))))
  {
    hide Sort, ChunksOf;
    var primaryCandidates := Sort(WithLabel(w, Primary), ByScore);
    var supportCandidates := Sort(WithLabel(w, Supplementary), ByScore);
    ghost var allSupport := supportCandidates;
    if primaryCandidates == [] {
      var best := FallbackLoop(w);
      var fallback := w[best];
      if fallback.score >= IRRELEVANT_HARD_MAX {
        primaryCandidates := [fallback];
        supportCandidates := NotIn(supportCandidates, {fallback.chunk.chunkId});
        NotInTwice(allSupport, {fallback.chunk.chunkId}, {fallback.chunk.chunkId});
        assert IdsOf([fallback]) == {fallback.chunk.chunkId};
        assert {fallback.chunk.chunkId} + {fallback.chunk.chunkId} == {fallback.chunk.chunkId};
      }
    }
    var selectedPrimary := Take(primaryCandidates, Max(1, maxPrimary));
    var selectedIds := IdsOf(selectedPrimary);
    var selectedSupport := Take(NotIn(supportCandidates, selectedIds), Max(0, maxSupplementary));
    selectedIds := selectedIds + IdsOf(selectedSupport);
    r := Selection(ChunksOf(selectedPrimary), ChunksOf(selectedSupport), ChunksOf(NotIn(w, selectedIds)));
  }

  lemma {:induction false} NotInTwice(w: seq<Working>, a: set<nat>, b: set<nat>)
    ensures NotIn(NotIn(w, a), b) == NotIn(w, a + b)
  {
    if w != [] {
      NotInTwice(w[1..], a, b);
      var rest := NotIn(w[1..], a);
      assert ([w[0]] + rest)[1..] == rest && [] + rest == rest;
    }
  }
}
