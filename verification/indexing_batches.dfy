/** The greedy batcher of the indexing service. */
module IndexingBatches {
  import opened IndexingModels
  import opened PythonText

  function Chars(batch: seq<Chunk>): nat {
    if batch == [] then 0 else |batch[0].text| + Chars(batch[1..])
  }

  /** The limits of one batch; a single chunk always makes a batch, however long. */
  predicate Feasible(batch: seq<Chunk>, size: int, cap: int) {
    batch != [] && (|batch| == 1 || (|batch| <= size && Chars(batch) <= cap))
  }

  /** An in-order split of `chunks` into feasible batches. */
  ghost predicate IsSplit(parts: seq<seq<Chunk>>, chunks: seq<Chunk>, size: int, cap: int) {
    Concat(parts) == chunks && forall i :: 0 <= i < |parts| ==> Feasible(parts[i], size, cap)
  }

  /** The length of the first batch once it holds the first `n` chunks. */
  function Grow(chunks: seq<Chunk>, n: nat, size: int, cap: int): (r: nat)
    requires 1 <= n <= |chunks|
    ensures n <= r <= |chunks|
    decreases |chunks| - n
  {
    if n == |chunks| || n >= size || Chars(chunks[..n + 1]) > cap then n else Grow(chunks, n + 1, size, cap)
  }

  function Batches(chunks: seq<Chunk>, size: int, cap: int): seq<seq<Chunk>> {
    if chunks == [] then []
    else
      var n := Grow(chunks, 1, size, cap);
      [chunks[..n]] + Batches(chunks[n..], size, cap)
  }

  /** `_iter_batches`. */
  method IterBatches(chunks: seq<Chunk>, size: int, cap: int) returns (batches: seq<seq<Chunk>>)
    ensures batches == Batches(chunks, size, cap)
  {
    hide Grow, Batches;
    batches := [];
    var current: seq<Chunk> := [];
    var currentChars := 0;
    ghost var start := 0;
    for i := 0 to |chunks|
      invariant 0 <= start <= i && current == chunks[start..i]
      invariant current == [] <==> i == 0
      invariant currentChars == Chars(current)
      invariant batches + Batches(chunks[start..], size, cap) == Batches(chunks, size, cap)
      invariant i > 0 ==> Grow(chunks[start..], 1, size, cap) == Grow(chunks[start..], i - start, size, cap)
    {
      var chunk := chunks[i];
      var nextChars := currentChars + |chunk.text|;
      GrowStep(chunks, start, i, size, cap);
      if current != [] && (|current| >= size || nextChars > cap) {
        Regroup(batches, [current], Batches(chunks[i..], size, cap), Batches(chunks[start..], size, cap), Batches(chunks, size, cap));
        batches := batches + [current];
        current := [];
        currentChars := 0;
        start := i;
      }
      CharsConcat(current, [chunk]);
      current := current + [chunk];
      currentChars := currentChars + |chunk.text|;
    }
    if current != [] {
      LastBatch(chunks, start, size, cap);
      batches := batches + [current];
    } else {
      NoBatch(size, cap);
    }
  }

  /** Whether the batch `chunks[start..i]` takes the next chunk or is complete. */
  lemma GrowStep(chunks: seq<Chunk>, start: nat, i: nat, size: int, cap: int)
    requires start <= i < |chunks|
    ensures i > start ==>
      var rest, n := chunks[start..], i - start;
      if n >= size || Chars(chunks[start..i]) + |chunks[i].text| > cap then
        Grow(rest, n, size, cap) == n
        && (Grow(rest, 1, size, cap) == n ==> Batches(rest, size, cap) == [chunks[start..i]] + Batches(chunks[i..], size, cap))
      else Grow(rest, n, size, cap) == Grow(rest, n + 1, size, cap)
  {
    var rest, n := chunks[start..], i - start;
    assert rest[..n] == chunks[start..i] && rest[n..] == chunks[i..];
    assert rest[..n + 1] == rest[..n] + [chunks[i]];
    CharsConcat(rest[..n], [chunks[i]]);
  }

  lemma LastBatch(chunks: seq<Chunk>, start: nat, size: int, cap: int)
    requires start < |chunks|
    ensures
      var rest, n := chunks[start..], |chunks| - start;
      Grow(rest, n, size, cap) == n && (Grow(rest, 1, size, cap) == n ==> Batches(rest, size, cap) == [chunks[start..|chunks|]])
  {
    assert chunks[start..][..|chunks| - start] == chunks[start..];
    assert chunks[start..|chunks|] == chunks[start..];
  }

  lemma NoBatch(size: int, cap: int)
    ensures Batches([], size, cap) == []
  {
  }

  lemma {:induction false} CharsConcat(a: seq<Chunk>, b: seq<Chunk>)
    ensures Chars(a + b) == Chars(a) + Chars(b)
  {
    if a == [] {
      assert a + b == b;
    } else {
      CharsConcat(a[1..], b);
      assert (a + b)[1..] == a[1..] + b;
    }
  }

  // --------------------------------------------------------- one batch

  lemma {:induction false} GrowFeasible(chunks: seq<Chunk>, n: nat, size: int, cap: int)
    requires 1 <= n <= |chunks| && Feasible(chunks[..n], size, cap)
    ensures Feasible(chunks[..Grow(chunks, n, size, cap)], size, cap)
    decreases |chunks| - n
  {
    if n < |chunks| && n < size && Chars(chunks[..n + 1]) <= cap {
      GrowFeasible(chunks, n + 1, size, cap);
    }
  }

  /** A shorter piece of a feasible batch is feasible. */
  lemma {:induction false} FeasiblePiece(batch: seq<Chunk>, lo: nat, hi: nat, size: int, cap: int)
    requires Feasible(batch, size, cap) && lo < hi <= |batch|
    ensures Feasible(batch[lo..hi], size, cap)
  {
    CharsConcat(batch[..lo], batch[lo..hi]);
    CharsConcat(batch[..hi], batch[hi..]);
    assert batch[..lo] + batch[lo..hi] == batch[..hi];
    assert batch[..hi] + batch[hi..] == batch;
  }

  /** No feasible first batch is longer than the greedy one. */
  lemma {:induction false} GrowIsLongest(chunks: seq<Chunk>, n: nat, m: nat, size: int, cap: int)
    requires 1 <= n <= m <= |chunks| && Feasible(chunks[..m], size, cap)
    ensures m <= Grow(chunks, n, size, cap)
    decreases m - n
  {
    if n < m {
      FeasiblePiece(chunks[..m], 0, n + 1, size, cap);
      assert chunks[..m][..n + 1] == chunks[..n + 1];
      GrowIsLongest(chunks, n + 1, m, size, cap);
    }
  }

  // ------------------------------------------------------- all batches

  /** The batches are the chunks in order, and each meets the limits. */
  lemma {:induction false} BatchesSplit(chunks: seq<Chunk>, size: int, cap: int)
    ensures IsSplit(Batches(chunks, size, cap), chunks, size, cap)
  {
    hide Feasible, Grow;
    if chunks != [] {
      var n := Grow(chunks, 1, size, cap);
      BatchesSplit(chunks[n..], size, cap);
      FirstFeasible(chunks, size, cap);
      SplitCons(chunks[..n], Batches(chunks[n..], size, cap), chunks[n..], size, cap);
      assert chunks[..n] + chunks[n..] == chunks;
    }
  }

  lemma FirstFeasible(chunks: seq<Chunk>, size: int, cap: int)
    requires chunks != []
    ensures Feasible(chunks[..Grow(chunks, 1, size, cap)], size, cap)
  {
    hide Grow;
    GrowFeasible(chunks, 1, size, cap);
  }

  lemma SplitCons(first: seq<Chunk>, parts: seq<seq<Chunk>>, chunks: seq<Chunk>, size: int, cap: int)
    requires Feasible(first, size, cap) && IsSplit(parts, chunks, size, cap)
    ensures IsSplit([first] + parts, first + chunks, size, cap)
  {
    hide Feasible;
    assert ([first] + parts)[1..] == parts;
  }

  /** Dropping chunks from the front never costs a batch. */
  lemma {:induction false} FewerChunksFewerBatches(chunks: seq<Chunk>, k: nat, size: int, cap: int)
    requires k <= |chunks|
    ensures |Batches(chunks[k..], size, cap)| <= |Batches(chunks, size, cap)|
    decreases |chunks|
  {
    hide Feasible, Grow;
    if k < |chunks| {
      var n := Grow(chunks, 1, size, cap);
      if n <= k {
        FewerChunksFewerBatches(chunks[n..], k - n, size, cap);
        assert chunks[n..][k - n..] == chunks[k..];
      } else {
        ReachesAsFar(chunks, k, size, cap);
        var m := Grow(chunks[k..], 1, size, cap);
        FewerChunksFewerBatches(chunks[n..], k + m - n, size, cap);
        assert chunks[n..][k + m - n..] == chunks[k..][m..];
      }
    }
  }

  /** Started inside the first batch, the greedy batch ends no earlier. */
  lemma ReachesAsFar(chunks: seq<Chunk>, k: nat, size: int, cap: int)
    requires k < |chunks| && k < Grow(chunks, 1, size, cap)
    ensures Grow(chunks, 1, size, cap) <= k + Grow(chunks[k..], 1, size, cap)
  {
    hide Feasible, Grow;
    var n := Grow(chunks, 1, size, cap);
    FirstFeasible(chunks, size, cap);
    FeasiblePiece(chunks[..n], k, n, size, cap);
    assert chunks[..n][k..n] == chunks[k..][..n - k];
    GrowIsLongest(chunks[k..], 1, n - k, size, cap);
  }

  /** No in-order split within the limits uses fewer batches than the greedy one. */
  lemma {:induction false} GreedyIsOptimal(chunks: seq<Chunk>, size: int, cap: int, parts: seq<seq<Chunk>>)
    requires IsSplit(parts, chunks, size, cap)
    ensures |Batches(chunks, size, cap)| <= |parts|
    decreases |parts|
  {
    if chunks != [] {
      var m := |parts[0]|;
      assert parts[0] == chunks[..m] && Concat(parts[1..]) == chunks[m..];
      GreedyIsOptimal(chunks[m..], size, cap, parts[1..]);
      GrowIsLongest(chunks, 1, m, size, cap);
      var n := Grow(chunks, 1, size, cap);
      FewerChunksFewerBatches(chunks[m..], n - m, size, cap);
      assert chunks[m..][n - m..] == chunks[n..];
    }
  }
}
