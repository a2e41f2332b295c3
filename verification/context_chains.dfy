/** The chains over all versions: a partition of the chunks into maximal runs. */
module ContextChains {
  import opened ContextRuns
  import opened PythonText
  import opened RetrievalModels
  import opened Sorting

  /** No two chunks share a place in their version, as the chunk table's unique constraint says. */
  ghost predicate DistinctPlaces(chunks: seq<RetrievedChunk>) {
    forall i, j :: 0 <= i < j < |chunks| ==> !SamePlace(chunks[i], chunks[j])
  }

  predicate SamePlace(a: RetrievedChunk, b: RetrievedChunk) {
    a.versionId == b.versionId && a.chunkIndex == b.chunkIndex
  }

  /** The chunks of the other versions. */
  function Others(chunks: seq<RetrievedChunk>, version: nat): seq<RetrievedChunk> {
    if chunks == [] then []
    else
      var n := |chunks| - 1;
      var before := Others(chunks[..n], version);
      if chunks[n].versionId == version then before else before + [chunks[n]]
  }

  lemma {:induction false} SplitByVersion(chunks: seq<RetrievedChunk>, version: nat)
    ensures multiset(GroupOf(chunks, version)) + multiset(Others(chunks, version)) == multiset(chunks)
    ensures forall c :: c in GroupOf(chunks, version) ==> c in chunks && c.versionId == version
    ensures forall c :: c in Others(chunks, version) ==> c in chunks && c.versionId != version
  {
    if chunks != [] {
      var n := |chunks| - 1;
      SplitByVersion(chunks[..n], version);
      assert chunks == chunks[..n] + [chunks[n]];
    }
  }

  lemma {:induction false} GroupOfOthers(chunks: seq<RetrievedChunk>, version: nat, other: nat)
    requires version != other
    ensures GroupOf(Others(chunks, version), other) == GroupOf(chunks, other)
  {
    if chunks != [] {
      var n := |chunks| - 1;
      GroupOfOthers(chunks[..n], version, other);
      var before := Others(chunks[..n], version);
      assert (before + [chunks[n]])[..|before|] == before;
    }
  }

  lemma {:induction false} ChainsOfOthers(chunks: seq<RetrievedChunk>, version: nat, versions: seq<nat>)
    requires version !in versions
    ensures Chains(Others(chunks, version), versions) == Chains(chunks, versions)
  {
    hide Others, GroupOf, Runs;
    if versions != [] {
      GroupOfOthers(chunks, version, versions[0]);
      ChainsOfOthers(chunks, version, versions[1..]);
    }
  }

  /** The chains hold every chunk exactly as often as the input does. */
  lemma {:induction false} ChainsPartition(chunks: seq<RetrievedChunk>, versions: seq<nat>)
    requires NoDups(versions) && forall c :: c in chunks ==> c.versionId in versions
    ensures multiset(Concat(Chains(chunks, versions))) == multiset(chunks)
    decreases |versions|
  {
    if versions == [] {
      assert chunks == [] by {
        FirstMember(chunks);
      }
    } else {
      var v, rest := versions[0], versions[1..];
      var group := GroupOf(chunks, v);
      SplitByVersion(chunks, v);
      TailMembers(versions);
      ChainsPartition(Others(chunks, v), rest);
      ChainsOfOthers(chunks, v, rest);
      RunsConcat(Sort(group, ByIndex));
      SortPermutes(group, ByIndex);
      ConcatAppend(Runs(Sort(group, ByIndex)), Chains(chunks, rest));
    }
  }

  /** Every chain is consecutive inside, whether or not places repeat. */
  lemma {:induction false} ChainsAreChains(chunks: seq<RetrievedChunk>, versions: seq<nat>)
    ensures forall k :: 0 <= k < |Chains(chunks, versions)| ==> IsChain(Chains(chunks, versions)[k])
  {
    hide Runs, Sort, GroupOf, IsChain;
    if versions != [] {
      RunsAreChains(Sort(GroupOf(chunks, versions[0]), ByIndex));
      ChainsAreChains(chunks, versions[1..]);
    }
  }

  // ------------------------------------------------------------- maximality

  lemma ByIndexIsOrder()
    ensures TotalPreorder(ByIndex)
  {
  }

  lemma {:induction false} GroupHasNoDups(chunks: seq<RetrievedChunk>, version: nat)
    requires NoDups(chunks)
    ensures NoDups(GroupOf(chunks, version))
  {
    if chunks != [] {
      var n := |chunks| - 1;
      GroupHasNoDups(chunks[..n], version);
      SplitByVersion(chunks[..n], version);
      assert chunks[n] !in chunks[..n];
    }
  }

  lemma {:induction false} DifferentPlaces(chunks: seq<RetrievedChunk>, a: RetrievedChunk, b: RetrievedChunk)
    requires DistinctPlaces(chunks) && a in chunks && b in chunks && a != b
    ensures !SamePlace(a, b)
  {
    var i :| 0 <= i < |chunks| && chunks[i] == a;
    var j :| 0 <= j < |chunks| && chunks[j] == b;
    assert if i < j then !SamePlace(chunks[i], chunks[j]) else !SamePlace(chunks[j], chunks[i]);
  }

  lemma {:induction false} GroupAscends(chunks: seq<RetrievedChunk>, version: nat)
    requires DistinctPlaces(chunks)
    ensures Ascending(Sort(GroupOf(chunks, version), ByIndex))
    ensures forall c :: c in Sort(GroupOf(chunks, version), ByIndex) ==> c.versionId == version
  {
    var group := GroupOf(chunks, version);
    ByIndexIsOrder();
    SortSorts(group, ByIndex);
    SortMembers(group, ByIndex);
    SortPermutes(group, ByIndex);
    SplitByVersion(chunks, version);
    GroupHasNoDups(chunks, version);
    NoDupsCarries(group, Sort(group, ByIndex));
    hide Sort, GroupOf;
    var s := Sort(group, ByIndex);
    forall i, j | 0 <= i < j < |s|
      ensures s[i].versionId == s[j].versionId && s[i].chunkIndex < s[j].chunkIndex
    {
      assert s[i] in s && s[j] in s;
      DifferentPlaces(chunks, s[i], s[j]);
    }
  }

  ghost predicate Separated(a: Chain, b: Chain) {
    a != [] && b != [] && (a[0].versionId != b[0].versionId || GapBetween(a, b) || GapBetween(b, a))
  }

  /** Chains that cannot be extended by one another. */
  ghost predicate Maximal(chains: seq<Chain>) {
    && (forall i :: 0 <= i < |chains| ==> IsChain(chains[i]))
    && (forall i, j :: 0 <= i < j < |chains| ==> Separated(chains[i], chains[j]))
  }

  lemma MaximalConcat(a: seq<Chain>, b: seq<Chain>, version: nat, low: int)
    requires Spaced(a, version, low) && Maximal(b)
    requires forall k :: 0 <= k < |b| ==> b[k] != [] && b[k][0].versionId != version
    ensures Maximal(a + b)
  {
    hide IsChain;
    var c := a + b;
    forall i, j | 0 <= i < j < |c|
      ensures Separated(c[i], c[j])
    {
      if j < |a| {
        NonEmpty(a[i]);
        NonEmpty(a[j]);
        assert GapBetween(a[i], a[j]);
      } else if i < |a| {
        assert IsChain(a[i]) && b[j - |a|] == c[j];
        NonEmpty(a[i]);
      } else {
        assert Separated(b[i - |a|], b[j - |a|]);
      }
    }
  }

  lemma NonEmpty(chain: Chain)
    requires IsChain(chain)
    ensures chain != []
  {
  }

  /** Within a version there is a gap between any two chains, so none can be merged further. */
  lemma {:induction false} ChainsAreMaximal(chunks: seq<RetrievedChunk>, versions: seq<nat>)
    requires DistinctPlaces(chunks) && NoDups(versions)
    ensures Maximal(Chains(chunks, versions))
    ensures forall k :: 0 <= k < |Chains(chunks, versions)| ==>
      Chains(chunks, versions)[k] != [] && Chains(chunks, versions)[k][0].versionId in versions
    decreases |versions|
  {
    if versions != [] {
      var v, rest := versions[0], versions[1..];
      var s := Sort(GroupOf(chunks, v), ByIndex);
      TailMembers(versions);
      ChainsAreMaximal(chunks, rest);
      GroupAscends(chunks, v);
      hide Sort, GroupOf, Runs, IsChain, Maximal, GapBetween;
      assert Chains(chunks, versions) == Runs(s) + Chains(chunks, rest);
      if s == [] {
        NoRuns();
        assert [] + Chains(chunks, rest) == Chains(chunks, rest);
      } else {
        FirstMember(s);
        RunsAreSpaced(s);
        SpacedVersions(Runs(s), v, s[0].chunkIndex);
        MaximalConcat(Runs(s), Chains(chunks, rest), v, s[0].chunkIndex);
      }
    }
  }

  lemma NoRuns()
    ensures Runs([]) == []
  {
  }

  lemma SpacedVersions(chains: seq<Chain>, version: nat, low: int)
    requires Spaced(chains, version, low)
    ensures forall k :: 0 <= k < |chains| ==> chains[k] != [] && chains[k][0].versionId == version
  {
  }
}
