/** The values that retrieval hands to generation. */
module RetrievalModels {
  import opened PythonText
  import opened Sorting

  /** One ranked hit. Ids are numbers: canonical UUID strings sort the same way. */
  datatype RetrievedChunk = RetrievedChunk(
    chunkId: nat, documentId: nat, versionId: nat, score: real, text: string,
    chunkIndex: int, startChar: int, endChar: int, heading: Option<string>)

  ghost predicate DistinctChunks(chunks: seq<RetrievedChunk>) {
    forall i, j :: 0 <= i < j < |chunks| ==> chunks[i].chunkId != chunks[j].chunkId
  }

  /** A list with no more of any chunk than a list of distinct chunks is one. */
  lemma {:induction false} DistinctCarries(a: seq<RetrievedChunk>, b: seq<RetrievedChunk>)
    requires DistinctChunks(a) && multiset(b) <= multiset(a)
    ensures DistinctChunks(b)
  {
    assert NoDups(a);
    forall i, j | 0 <= i < j < |b|
      ensures b[i].chunkId != b[j].chunkId
    {
      assert b[i] in multiset(b) && b[j] in multiset(b);
      assert b[i] in multiset(a) && b[j] in multiset(a);
      var k :| 0 <= k < |a| && a[k] == b[i];
      var l :| 0 <= l < |a| && a[l] == b[j];
      if k == l {
        TwiceInMultiset(b, i, j);
        OnceInMultiset(a, k);
      }
    }
  }

  function MaxScore(chunks: seq<RetrievedChunk>): real
    requires chunks != []
  {
    if |chunks| == 1 then chunks[0].score
    else
      var rest := MaxScore(chunks[..|chunks| - 1]);
      if chunks[|chunks| - 1].score > rest then chunks[|chunks| - 1].score else rest
  }

  function Clamp01(x: real): (r: real)
    ensures 0.0 <= r <= 1.0
  {
    if x < 0.0 then 0.0 else if x > 1.0 then 1.0 else x
  }
}
