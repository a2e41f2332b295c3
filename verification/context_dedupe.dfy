/** Dropping near-duplicate chunks before the prompt is built. */
module ContextDedupe {
  import opened RetrievalModels

  /** Whitespace folding with case folding, `str.split()` as a set, and case folding alone. */
  datatype TextTools = TextTools(normalize: string -> string, words: string -> set<string>, fold: string -> string)

  const CONTAINMENT_RATIO := 0.85
  const TOKEN_JACCARD_DUP := 0.92

  predicate Contains(text: string, part: string) {
    exists i :: 0 <= i <= |text| - |part| && text[i..][..|part|] == part
  }

  /** `_token_jaccard`. */
  function TokenJaccard(tools: TextTools, left: string, right: string): real {
    var a, b := tools.words(left), tools.words(right);
    if a == {} || b == {} then 0.0
    else
      assert |a + b| > 0 by {
        var x :| x in a;
        assert x in a + b;
      }
      |a * b| as real / |a + b| as real
  }

  predicate Within(shorter: string, longer: string)
    requires |longer| > 0
  {
    Contains(longer, shorter) && |shorter| as real / |longer| as real >= CONTAINMENT_RATIO
  }

  /** `_is_near_duplicate`. */
  predicate IsNearDuplicate(tools: TextTools, left: string, right: string) {
    var a, b := tools.normalize(left), tools.normalize(right);
    if a == "" || b == "" then false
    else if a == b then true
    else if (if |a| <= |b| then Within(a, b) else Within(b, a)) then true
    else TokenJaccard(tools, a, b) >= TOKEN_JACCARD_DUP
  }

  predicate DuplicatesOne(tools: TextTools, chunk: RetrievedChunk, kept: seq<RetrievedChunk>) {
    exists i :: 0 <= i < |kept| && IsNearDuplicate(tools, chunk.text, kept[i].text)
  }

  /** The chunks kept of `chunks`. */
  function Kept(tools: TextTools, chunks: seq<RetrievedChunk>): seq<RetrievedChunk> {
    if chunks == [] then []
    else
      var n := |chunks| - 1;
      var kept := Kept(tools, chunks[..n]);
      if DuplicatesOne(tools, chunks[n], kept) then kept else kept + [chunks[n]]
  }

  function Removed(tools: TextTools, chunks: seq<RetrievedChunk>): seq<RetrievedChunk> {
    if chunks == [] then []
    else
      var n := |chunks| - 1;
      var removed := Removed(tools, chunks[..n]);
      if DuplicatesOne(tools, chunks[n], Kept(tools, chunks[..n])) then removed + [chunks[n]] else removed
  }

  /** `_dedupe_chunks`. */
  method DedupeChunks(tools: TextTools, chunks: seq<RetrievedChunk>)
      returns (kept: seq<RetrievedChunk>, removed: seq<RetrievedChunk>)
    ensures kept == Kept(tools, chunks) && removed == Removed(tools, chunks)
  {
    hide IsNearDuplicate;
    kept, removed := [], [];
    for n := 0 to |chunks|
      invariant kept == Kept(tools, chunks[..n]) && removed == Removed(tools, chunks[..n])
    {
      var chunk := chunks[n];
      assert chunks[..n + 1][..n] == chunks[..n];
      var duplicate := false;
      var k := 0;
      while k < |kept| && !duplicate
        invariant 0 <= k <= |kept|
        invariant duplicate ==> DuplicatesOne(tools, chunk, kept)
        invariant !duplicate ==> forall i :: 0 <= i < k ==> !IsNearDuplicate(tools, chunk.text, kept[i].text)
      {
        duplicate := IsNearDuplicate(tools, chunk.text, kept[k].text);
        k := k + 1;
      }
      if duplicate {
        removed := removed + [chunk];
      } else {
        kept := kept + [chunk];
      }
    }
    assert chunks[..|chunks|] == chunks;
  }

  // ------------------------------------------------------------ properties

  /** The relation is symmetric, although the test treats its two texts differently. */
  lemma NearDuplicateIsSymmetric(tools: TextTools, left: string, right: string)
    ensures IsNearDuplicate(tools, left, right) <==> IsNearDuplicate(tools, right, left)
  {
    var a, b := tools.normalize(left), tools.normalize(right);
    var x, y := tools.words(a), tools.words(b);
    assert x * y == y * x && x + y == y + x;
    assert TokenJaccard(tools, a, b) == TokenJaccard(tools, b, a);
    hide TokenJaccard;
    if |a| == |b| {
      SameLengthContains(a, b);
      SameLengthContains(b, a);
    }
  }

  lemma QuotientAtLeast(x: nat, y: nat, percent: nat)
    requires y > 0
    ensures x as real / y as real >= percent as real / 100.0 <==> 100 * x >= percent * y
  {
    var q, p := x as real / y as real, percent as real / 100.0;
    assert q * y as real == x as real && p * 100.0 == percent as real;
    var d := q - p;
    assert d * y as real == x as real - p * y as real;
    assert 100.0 * (d * y as real) == (100 * x) as real - (percent * y) as real by {
      assert 100.0 * (p * y as real) == (p * 100.0) * y as real == (percent * y) as real;
    }
    assert d >= 0.0 <==> d * y as real >= 0.0;
  }

  /**
   * Two texts are near-duplicates exactly when, folded, neither is blank and
   * they are equal, or the shorter stands in the longer and makes up 85
   * percent of it, or of all their words 92 percent are in both.
   */
  lemma {:induction false} NearDuplicateExactlyWhen(tools: TextTools, left: string, right: string)
    ensures
      var a, b := tools.normalize(left), tools.normalize(right);
      var x, y := tools.words(a), tools.words(b);
      IsNearDuplicate(tools, left, right) <==>
        && a != "" && b != ""
        && (|| a == b
            || (Contains(b, a) && 100 * |a| >= 85 * |b|)
            || (Contains(a, b) && 100 * |b| >= 85 * |a|)
            || (x != {} && y != {} && 100 * |x * y| >= 92 * |x + y|))
  {
    var a, b := tools.normalize(left), tools.normalize(right);
    var x, y := tools.words(a), tools.words(b);
    if a != "" && b != "" {
      QuotientAtLeast(|a|, |b|, 85);
      QuotientAtLeast(|b|, |a|, 85);
      if x != {} && y != {} {
        var w :| w in x;
        assert w in x + y;
        QuotientAtLeast(|x * y|, |x + y|, 92);
      }
      if |a| == |b| {
        SameLengthContains(a, b);
        SameLengthContains(b, a);
      }
    }
  }

  lemma SameLengthContains(text: string, part: string)
    requires |text| == |part|
    ensures Contains(text, part) <==> text == part
  {
    if text == part {
      assert text[0..][..|part|] == part;
    }
  }

  /** Kept and removed together are the input. */
  lemma {:induction false} DedupeConserves(tools: TextTools, chunks: seq<RetrievedChunk>)
    ensures multiset(Kept(tools, chunks)) + multiset(Removed(tools, chunks)) == multiset(chunks)
  {
    hide *;
    DedupeEmpty(tools);
    if chunks != [] {
      var n := |chunks| - 1;
      DedupeConserves(tools, chunks[..n]);
      DedupeSplits(tools, chunks);
      assert chunks == chunks[..n] + [chunks[n]];
    }
  }

  lemma DedupeEmpty(tools: TextTools)
    ensures Kept(tools, []) == [] && Removed(tools, []) == []
  {
  }

  lemma DedupeSplits(tools: TextTools, chunks: seq<RetrievedChunk>)
    requires chunks != []
    ensures
      var n := |chunks| - 1;
      var kept, removed, before, gone := Kept(tools, chunks), Removed(tools, chunks), Kept(tools, chunks[..n]), Removed(tools, chunks[..n]);
      || (kept == before + [chunks[n]] && removed == gone)
      || (kept == before && removed == gone + [chunks[n]])
  {
    hide DuplicatesOne;
  }

  /** The first chunk is always kept. */
  lemma {:induction false} FirstIsKept(tools: TextTools, chunks: seq<RetrievedChunk>)
    requires chunks != []
    ensures Kept(tools, chunks) != [] && Kept(tools, chunks)[0] == chunks[0]
  {
    hide IsNearDuplicate;
    KeptGrows(tools, chunks, 1);
    assert chunks[..1][..0] == [];
    assert Kept(tools, chunks[..1]) == [chunks[0]];
  }

  ghost predicate PairwiseDistinct(tools: TextTools, kept: seq<RetrievedChunk>) {
    forall i, j :: 0 <= i < |kept| && 0 <= j < |kept| && i != j ==> !IsNearDuplicate(tools, kept[i].text, kept[j].text)
  }

  /** No two kept chunks are near-duplicates, in either direction. */
  lemma {:induction false} KeptAreDistinct(tools: TextTools, chunks: seq<RetrievedChunk>)
    ensures PairwiseDistinct(tools, Kept(tools, chunks))
  {
    hide IsNearDuplicate;
    if chunks != [] {
      var n := |chunks| - 1;
      var kept := Kept(tools, chunks[..n]);
      KeptAreDistinct(tools, chunks[..n]);
      forall i | 0 <= i < |kept|
        ensures IsNearDuplicate(tools, kept[i].text, chunks[n].text) <==> IsNearDuplicate(tools, chunks[n].text, kept[i].text)
      {
        NearDuplicateIsSymmetric(tools, kept[i].text, chunks[n].text);
      }
    }
  }

  lemma {:induction false} KeptGrows(tools: TextTools, chunks: seq<RetrievedChunk>, n: nat)
    requires n <= |chunks|
    ensures Kept(tools, chunks[..n]) <= Kept(tools, chunks)
  {
    hide IsNearDuplicate, DuplicatesOne;
    if n == |chunks| {
      assert chunks[..n] == chunks;
    } else {
      KeptGrows(tools, chunks[..|chunks| - 1], n);
      assert chunks[..|chunks| - 1][..n] == chunks[..n];
    }
  }

  /** A chunk is removed exactly when it duplicates a chunk kept before it. */
  lemma {:induction false} RemovedExactlyWhen(tools: TextTools, chunks: seq<RetrievedChunk>, n: nat)
    requires n < |chunks|
    ensures
      var before, after := Kept(tools, chunks[..n]), Kept(tools, chunks[..n + 1]);
      && before <= after <= Kept(tools, chunks)
      && (after == before <==> DuplicatesOne(tools, chunks[n], before))
      && (after != before ==> after == before + [chunks[n]])
  {
    hide IsNearDuplicate, DuplicatesOne;
    KeptGrows(tools, chunks, n + 1);
    assert chunks[..n + 1][..n] == chunks[..n];
    assert |Kept(tools, chunks[..n]) + [chunks[n]]| > |Kept(tools, chunks[..n])|;
  }
}
