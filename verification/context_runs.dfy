/** Grouping chunks by document version and splitting each group into runs of neighbours. */
module ContextRuns {
  import opened PythonText
  import opened RetrievalModels
  import opened Sorting

  type Chain = seq<RetrievedChunk>

  /** `key=lambda item: (item.chunk_index, str(item.chunk_id))`. */
  predicate ByIndex(a: RetrievedChunk, b: RetrievedChunk) {
    a.chunkIndex < b.chunkIndex || (a.chunkIndex == b.chunkIndex && a.chunkId <= b.chunkId)
  }

  /** `_can_merge`. */
  predicate CanMerge(left: RetrievedChunk, right: RetrievedChunk) {
    left.versionId == right.versionId && right.chunkIndex == left.chunkIndex + 1
  }

  /** The versions of `chunks` in order of first appearance: the keys of `by_doc`. */
  function VersionsOf(chunks: seq<RetrievedChunk>): seq<nat> {
    if chunks == [] then []
    else
      var n := |chunks| - 1;
      var before := VersionsOf(chunks[..n]);
      if chunks[n].versionId in before then before else before + [chunks[n].versionId]
  }

  /** `by_doc[version]`. */
  function GroupOf(chunks: seq<RetrievedChunk>, version: nat): seq<RetrievedChunk> {
    if chunks == [] then []
    else
      var n := |chunks| - 1;
      var before := GroupOf(chunks[..n], version);
      if chunks[n].versionId == version then before + [chunks[n]] else before
  }

  /** The length of the first run once it holds the first `n` chunks. */
  function RunLength(chunks: seq<RetrievedChunk>, n: nat): (r: nat)
    requires 1 <= n <= |chunks|
    ensures n <= r <= |chunks|
    decreases |chunks| - n
  {
    if n == |chunks| || !CanMerge(chunks[n - 1], chunks[n]) then n else RunLength(chunks, n + 1)
  }

  function Runs(chunks: seq<RetrievedChunk>): seq<Chain> {
    if chunks == [] then []
    else
      var n := RunLength(chunks, 1);
      [chunks[..n]] + Runs(chunks[n..])
  }

  function Chains(chunks: seq<RetrievedChunk>, versions: seq<nat>): seq<Chain> {
    if versions == [] then []
    else Runs(Sort(GroupOf(chunks, versions[0]), ByIndex)) + Chains(chunks, versions[1..])
  }

  lemma {:induction false} RunsAreNotEmpty(chunks: seq<RetrievedChunk>)
    ensures forall k :: 0 <= k < |Runs(chunks)| ==> Runs(chunks)[k] != []
  {
    hide RunLength;
    if chunks != [] {
      RunsAreNotEmpty(chunks[RunLength(chunks, 1)..]);
    }
  }

  lemma {:induction false} ChainsAreNotEmpty(chunks: seq<RetrievedChunk>, versions: seq<nat>)
    ensures forall k :: 0 <= k < |Chains(chunks, versions)| ==> Chains(chunks, versions)[k] != []
  {
    hide Runs, Sort, GroupOf;
    if versions != [] {
      RunsAreNotEmpty(Sort(GroupOf(chunks, versions[0]), ByIndex));
      ChainsAreNotEmpty(chunks, versions[1..]);
    }
  }

  /** The `by_doc` dictionary of `_merge_neighbor_blocks`, with its keys in insertion order. */
  method GroupByVersion(chunks: seq<RetrievedChunk>) returns (order: seq<nat>, groups: map<nat, seq<RetrievedChunk>>)
    ensures order == VersionsOf(chunks)
    ensures forall v :: v in groups <==> v in order
    ensures forall v :: v in groups ==> groups[v] == GroupOf(chunks, v)
  {
    order, groups := [], map[];
    for n := 0 to |chunks|
      invariant order == VersionsOf(chunks[..n])
      invariant forall v :: v in groups <==> v in order
      invariant forall v :: v in groups ==> groups[v] == GroupOf(chunks[..n], v)
      invariant forall v :: v !in groups ==> GroupOf(chunks[..n], v) == []
    {
      var chunk := chunks[n];
      assert chunks[..n + 1][..n] == chunks[..n];
      if chunk.versionId !in groups {
        order := order + [chunk.versionId];
        groups := groups[chunk.versionId := []];
      }
      groups := groups[chunk.versionId := groups[chunk.versionId] + [chunk]];
    }
    assert chunks[..|chunks|] == chunks;
  }

  /** The merge chains of `_merge_neighbor_blocks`. */
  method MergeChains(chunks: seq<RetrievedChunk>) returns (chains: seq<Chain>)
    ensures chains == Chains(chunks, VersionsOf(chunks))
  {
    hide VersionsOf, GroupOf, Runs;
    var order, groups := GroupByVersion(chunks);
    VersionsHaveChunks(chunks);
    ghost var all := Chains(chunks, order);
    chains := [];
    for k := 0 to |order|
      invariant chains + Chains(chunks, order[k..]) == all
    {
      assert order[k] in order;
      var group := Sort(groups[order[k]], ByIndex);
      SortMembers(groups[order[k]], ByIndex);
      var runs := RunsLoop(group);
      assert order[k..][0] == order[k] && order[k..][1..] == order[k + 1..];
      Regroup(chains, runs, Chains(chunks, order[k + 1..]), Chains(chunks, order[k..]), all);
      chains := chains + runs;
    }
  }

  method RunsLoop(group: seq<RetrievedChunk>) returns (runs: seq<Chain>)
    requires group != []
    ensures runs == Runs(group)
  {
    hide Runs, RunLength;
    runs := [];
    var current := [group[0]];
    ghost var start := 0;
    for i := 1 to |group|
      invariant 0 <= start < i && current == group[start..i]
      invariant runs + Runs(group[start..]) == Runs(group)
      invariant RunLength(group[start..], 1) == RunLength(group[start..], i - start)
    {
      RunStep(group, start, i);
      var previous := current[|current| - 1];
      if CanMerge(previous, group[i]) {
        current := current + [group[i]];
      } else {
        Regroup(runs, [current], Runs(group[i..]), Runs(group[start..]), Runs(group));
        runs := runs + [current];
        current := [group[i]];
        start := i;
      }
    }
    LastRun(group, start);
    runs := runs + [current];
  }

  lemma RunStep(group: seq<RetrievedChunk>, start: nat, i: nat)
    requires start < i < |group|
    ensures
      var rest, n := group[start..], i - start;
      if CanMerge(group[i - 1], group[i]) then RunLength(rest, n) == RunLength(rest, n + 1)
      else
        RunLength(rest, n) == n
        && (RunLength(rest, 1) == n ==> Runs(rest) == [group[start..i]] + Runs(group[i..]))
  {
    assert group[start..][..i - start] == group[start..i] && group[start..][i - start..] == group[i..];
    assert group[start..][i - start] == group[i] && group[start..][i - start - 1] == group[i - 1];
    hide CanMerge;
  }

  lemma LastRun(group: seq<RetrievedChunk>, start: nat)
    requires start < |group|
    ensures
      var rest, n := group[start..], |group| - start;
      RunLength(rest, n) == n && (RunLength(rest, 1) == n ==> Runs(rest) == [group[start..|group|]])
  {
    assert group[start..|group|] == group[start..] && group[start..][..|group| - start] == group[start..];
  }

  lemma {:induction false} VersionsHaveChunks(chunks: seq<RetrievedChunk>)
    ensures forall v :: v in VersionsOf(chunks) ==> GroupOf(chunks, v) != []
    ensures NoDups(VersionsOf(chunks))
    ensures forall c :: c in chunks ==> c.versionId in VersionsOf(chunks)
  {
    if chunks != [] {
      var n := |chunks| - 1;
      VersionsHaveChunks(chunks[..n]);
      assert forall c :: c in chunks <==> c in chunks[..n] || c == chunks[n];
    }
  }

  // --------------------------------------------------------- runs of a group

  /** Chunks of one version with increasing indexes. */
  ghost predicate Ascending(chunks: seq<RetrievedChunk>) {
    forall i, j :: 0 <= i < j < |chunks| ==> chunks[i].versionId == chunks[j].versionId && chunks[i].chunkIndex < chunks[j].chunkIndex
  }

  /** Consecutive chunks of one version. */
  ghost predicate IsChain(chain: Chain) {
    chain != [] && forall i :: 0 <= i < |chain| ==> chain[i].versionId == chain[0].versionId && chain[i].chunkIndex == chain[0].chunkIndex + i
  }

  /** Two chains that no chunk index joins: there is a gap between them. */
  ghost predicate GapBetween(a: Chain, b: Chain)
    requires a != [] && b != []
  {
    a[|a| - 1].chunkIndex + 1 < b[0].chunkIndex
  }

  lemma {:induction false} RunLengthChain(chunks: seq<RetrievedChunk>, n: nat)
    requires 1 <= n <= |chunks| && IsChain(chunks[..n])
    ensures IsChain(chunks[..RunLength(chunks, n)])
    ensures RunLength(chunks, n) < |chunks| ==> !CanMerge(chunks[RunLength(chunks, n) - 1], chunks[RunLength(chunks, n)])
    decreases |chunks| - n
  {
    if n < |chunks| && CanMerge(chunks[n - 1], chunks[n]) {
      assert forall i :: 0 <= i < n ==> chunks[..n + 1][i] == chunks[..n][i];
      assert chunks[..n][n - 1] == chunks[n - 1];
      RunLengthChain(chunks, n + 1);
    }
  }

  /** All of a list of chains are chains starting at `low` or later, with gaps in between. */
  ghost predicate Spaced(chains: seq<Chain>, version: nat, low: int) {
    && (forall i :: 0 <= i < |chains| ==> IsChain(chains[i]) && chains[i][0].versionId == version && chains[i][0].chunkIndex >= low)
    && (forall i, j :: 0 <= i < j < |chains| ==> GapBetween(chains[i], chains[j]))
  }

  /** Whatever the chunks, every run is consecutive inside. */
  lemma {:induction false} RunsAreChains(chunks: seq<RetrievedChunk>)
    ensures forall k :: 0 <= k < |Runs(chunks)| ==> IsChain(Runs(chunks)[k])
  {
    if chunks != [] {
      RunLengthChain(chunks, 1);
      hide RunLength, IsChain;
      RunsAreChains(chunks[RunLength(chunks, 1)..]);
    }
  }

  lemma SpacedCons(first: Chain, rest: seq<Chain>, version: nat, low: int, next: int)
    requires IsChain(first) && first[0].versionId == version && first[0].chunkIndex >= low
    requires Spaced(rest, version, next) && first[|first| - 1].chunkIndex + 1 < next
    ensures Spaced([first] + rest, version, low)
  {
    hide IsChain;
    assert low < next by {
      ChainEnds(first);
    }
  }

  lemma ChainEnds(chain: Chain)
    requires IsChain(chain)
    ensures chain[|chain| - 1].chunkIndex == chain[0].chunkIndex + |chain| - 1
    ensures chain[|chain| - 1].versionId == chain[0].versionId
  {
  }

  lemma {:induction false} RunsConcat(chunks: seq<RetrievedChunk>)
    ensures Concat(Runs(chunks)) == chunks
  {
    hide RunLength;
    if chunks != [] {
      var n := RunLength(chunks, 1);
      RunsConcat(chunks[n..]);
      assert chunks[..n] + chunks[n..] == chunks;
      assert Runs(chunks)[1..] == Runs(chunks[n..]);
    }
  }

  lemma TailAscends(chunks: seq<RetrievedChunk>, n: nat)
    requires Ascending(chunks) && 0 < n < |chunks|
    ensures Ascending(chunks[n..])
    ensures chunks[n].versionId == chunks[0].versionId && chunks[n - 1].versionId == chunks[n].versionId
    ensures chunks[n - 1].chunkIndex < chunks[n].chunkIndex
  {
  }

  /** The runs of a group are consecutive inside and have gaps between them. */
  lemma {:induction false} RunsAreSpaced(chunks: seq<RetrievedChunk>)
    requires Ascending(chunks) && chunks != []
    ensures Spaced(Runs(chunks), chunks[0].versionId, chunks[0].chunkIndex)
  {
    var n := RunLength(chunks, 1);
    RunLengthChain(chunks, 1);
    if n < |chunks| {
      TailAscends(chunks, n);
      RunsAreSpaced(chunks[n..]);
      hide RunLength, IsChain, Spaced, Ascending;
      assert Runs(chunks) == [chunks[..n]] + Runs(chunks[n..]);
      SpacedCons(chunks[..n], Runs(chunks[n..]), chunks[0].versionId, chunks[0].chunkIndex, chunks[n].chunkIndex);
    } else {
      assert chunks[..n] == chunks;
      SpacedOne(chunks);
    }
  }

  lemma SpacedOne(chain: Chain)
    requires IsChain(chain)
    ensures Spaced([chain], chain[0].versionId, chain[0].chunkIndex)
  {
  }
}
