/** What context assembly keeps: every chunk, once, in maximal blocks ordered by their best score. */
module ContextFaithful {
  import opened ContextAssembly
  import opened ContextChains
  import opened ContextDedupe
  import opened ContextRuns
  import opened NeighbourText
  import opened PythonText
  import opened RetrievalModels
  import opened Sorting

  // -------------------------------------------------------------- the orders

  lemma KeyLeqTransitive(a: OrderKey, b: OrderKey, c: OrderKey)
    requires KeyLeq(a, b) && KeyLeq(b, c)
    ensures KeyLeq(a, c)
  {
    hide TextLeq;
    TextLeqTotal(a.heading, b.heading);
    TextLeqTotal(b.heading, c.heading);
    if TextLeq(a.heading, b.heading) && TextLeq(b.heading, c.heading) {
      TextLeqTransitive(a.heading, b.heading, c.heading);
    }
  }

  lemma KeyLeqTotal(a: OrderKey, b: OrderKey)
    ensures KeyLeq(a, b) || KeyLeq(b, a)
  {
    hide TextLeq;
    TextLeqTotal(a.heading, b.heading);
  }

  lemma BlockOrder(tools: TextTools)
    ensures TotalPreorder(ByBlockKey(tools))
  {
    hide KeyLeq, BlockKey;
    var leq := ByBlockKey(tools);
    forall x, y
      ensures leq(x, y) || leq(y, x)
    {
      KeyLeqTotal(BlockKey(tools, x), BlockKey(tools, y));
    }
    forall x, y, z | leq(x, y) && leq(y, z)
      ensures leq(x, z)
    {
      KeyLeqTransitive(BlockKey(tools, x), BlockKey(tools, y), BlockKey(tools, z));
    }
  }

  // ------------------------------------------------------------- one block

  /** A chain is in order already. */
  lemma {:induction false} ChainIsSorted(chain: Chain)
    requires IsChain(chain)
    ensures Sort(chain, ByIndex) == chain
  {
    ByIndexIsOrder();
    SortSorts(chain, ByIndex);
    SortPermutes(chain, ByIndex);
    hide Sort;
    SameMembers(Sort(chain, ByIndex), chain);
    forall x, y | x in chain && y in chain && x.chunkIndex == y.chunkIndex
      ensures x == y
    {
      var i :| 0 <= i < |chain| && chain[i] == x;
      var j :| 0 <= j < |chain| && chain[j] == y;
    }
    SortedUnique(Sort(chain, ByIndex), chain, ByIndex);
  }

  /** The primary chunk is a chunk of the chain that none outranks, and has the chain's best score. */
  lemma {:induction false} PrimaryIsBest(chain: Chain)
    requires chain != []
    ensures Primary(chain) in chain && Primary(chain).score == MaxScore(chain)
    ensures forall c :: c in chain ==> !Outranks(c, Primary(chain)) && c.score <= MaxScore(chain)
    ensures forall c :: c in chain && c.score == Primary(chain).score ==>
      c.chunkIndex > Primary(chain).chunkIndex || (c.chunkIndex == Primary(chain).chunkIndex && c.chunkId <= Primary(chain).chunkId)
  {
    var n := |chain| - 1;
    if n > 0 {
      PrimaryIsBest(chain[..n]);
      assert forall c :: c in chain <==> c in chain[..n] || c == chain[n];
    }
  }

  lemma {:induction false} TextsAt(chain: Chain, i: nat)
    requires i < |chain|
    ensures Texts(chain)[i] == chain[i].text
  {
    if i < |chain| - 1 {
      TextsAt(chain[..|chain| - 1], i);
    }
  }

  predicate HasHeading(c: RetrievedChunk) { c.heading.Some? && c.heading.value != "" }

  /** The heading is that of the first chunk that has one; missing when none has. */
  ghost predicate IsFirstHeading(chain: Chain, heading: Option<string>) {
    if heading.None? then forall c :: c in chain ==> !HasHeading(c)
    else
      exists k :: 0 <= k < |chain| && chain[k].heading == heading && HasHeading(chain[k])
        && forall j :: 0 <= j < k ==> !HasHeading(chain[j])
  }

  lemma {:induction false} FirstHeadingIs(chain: Chain)
    ensures IsFirstHeading(chain, FirstHeading(chain))
  {
    if chain != [] {
      var first, rest := FirstHeading(chain), FirstHeading(chain[1..]);
      FirstHeadingIs(chain[1..]);
      if HasHeading(chain[0]) {
        assert chain[0].heading == first;
      } else if rest.Some? {
        var k :| 0 <= k < |chain[1..]| && chain[1..][k].heading == rest && HasHeading(chain[1..][k])
          && forall j :: 0 <= j < k ==> !HasHeading(chain[1..][j]);
        assert chain[k + 1].heading == first && forall j :: 0 <= j < k + 1 ==> !HasHeading(chain[j]) by {
          assert forall j :: 0 < j < k + 1 ==> chain[j] == chain[1..][j - 1];
        }
      } else {
        assert forall c :: c in chain <==> c == chain[0] || c in chain[1..];
      }
    }
  }

  /** The two headings are one up to case and outer blanks, or both are missing. */
  ghost predicate SameHeading(tools: TextTools, a: Option<string>, b: Option<string>) {
    tools.fold(Strip(if a.Some? then a.value else "")) == tools.fold(Strip(if b.Some? then b.value else ""))
  }

  /**
   * A block's heading is that of its first chunk with one, when its chunks
   * agree up to case and outer blanks; when they differ it is the primary chunk's.
   */
  lemma {:induction false} HeadingIsShared(tools: TextTools, chain: Chain)
    requires chain != []
    ensures
      if forall c, d :: c in chain && d in chain ==> SameHeading(tools, c.heading, d.heading) then
        IsFirstHeading(chain, BlockHeading(tools, chain))
      else BlockHeading(tools, chain) == Primary(chain).heading && Primary(chain) in chain
  {
    hide *;
    FirstHeadingIs(chain);
    PrimaryIsBest(chain);
    assert chain[0] in chain;
    if forall c, d :: c in chain && d in chain ==> SameHeading(tools, c.heading, d.heading) {
      forall c | c in chain
        ensures HeadingKey(tools, c.heading) == HeadingKey(tools, chain[0].heading)
      {
        KeysAgree(tools, c.heading, chain[0].heading);
      }
      SharedHeading(tools, chain);
    } else {
      var c, d :| c in chain && d in chain && !SameHeading(tools, c.heading, d.heading);
      KeysAgree(tools, c.heading, d.heading);
      PrimaryHeading(tools, chain, c, d);
    }
  }

  lemma SharedHeading(tools: TextTools, chain: Chain)
    requires chain != [] && forall c :: c in chain ==> HeadingKey(tools, c.heading) == HeadingKey(tools, chain[0].heading)
    ensures BlockHeading(tools, chain) == FirstHeading(chain)
  {
    hide HeadingKey, FirstHeading, Primary;
  }

  lemma PrimaryHeading(tools: TextTools, chain: Chain, c: RetrievedChunk, d: RetrievedChunk)
    requires c in chain && d in chain && HeadingKey(tools, c.heading) != HeadingKey(tools, d.heading)
    ensures BlockHeading(tools, chain) == Primary(chain).heading
  {
    hide HeadingKey, FirstHeading, Primary;
  }

  lemma KeysAgree(tools: TextTools, a: Option<string>, b: Option<string>)
    ensures SameHeading(tools, a, b) <==> HeadingKey(tools, a) == HeadingKey(tools, b)
  {
    hide Strip;
  }

  lemma BlockOfChain(tools: TextTools, chain: Chain)
    requires IsChain(chain)
    ensures ToBlock(tools, chain).chunks == chain && ToBlock(tools, chain).mergedText == Merged(Texts(chain))
  {
    ChainIsSorted(chain);
    hide Sort, Merged, Texts, BlockHeading, Primary, IsChain;
  }

  lemma PrefixContains(whole: string, upTo: string, part: string)
    requires upTo <= whole && EndsWith(upTo, part)
    ensures Contains(whole, part)
  {
    var at := |upTo| - |part|;
    assert whole[at..][..|part|] == whole[..|upTo|][at..];
  }

  /** A block's text holds the stripped text of each of its chunks. */
  lemma {:induction false} BlockHoldsItsChunks(tools: TextTools, chain: Chain, i: nat)
    requires IsChain(chain) && i < |chain|
    ensures Contains(ToBlock(tools, chain).mergedText, Strip(chain[i].text))
  {
    BlockOfChain(tools, chain);
    TextsAt(chain, i);
    hide Strip, Merged, Texts, ToBlock, IsChain, Contains, EndsWith;
    MergedHoldsAll(Texts(chain), i);
    PrefixContains(Merged(Texts(chain)), Merged(Texts(chain)[..i + 1]), Strip(chain[i].text));
  }

  // ------------------------------------------------------------ all blocks

  function ChainsOf(blocks: seq<ContextBlock>): (r: seq<Chain>)
    ensures |r| == |blocks|
  {
    seq(|blocks|, i requires 0 <= i < |blocks| => blocks[i].chunks)
  }

  lemma {:induction false} AllChunksConcat(a: seq<ContextBlock>, b: seq<ContextBlock>)
    ensures AllChunks(a + b) == AllChunks(a) + AllChunks(b)
  {
    if a == [] {
      assert a + b == b;
    } else {
      assert (a + b)[1..] == a[1..] + b && (a + b)[0] == a[0];
      AllChunksConcat(a[1..], b);
      assert a[0].chunks + (AllChunks(a[1..]) + AllChunks(b)) == (a[0].chunks + AllChunks(a[1..])) + AllChunks(b);
    }
  }

  /** One block's chunks are those of the whole list beyond those of the rest. */
  lemma AllChunksWithout(blocks: seq<ContextBlock>, k: nat)
    requires k < |blocks|
    ensures multiset(AllChunks(blocks)) == multiset(blocks[k].chunks) + multiset(AllChunks(blocks[..k] + blocks[k + 1..]))
  {
    AllChunksConcat(blocks[..k], blocks[k..]);
    AllChunksConcat(blocks[..k], blocks[k + 1..]);
    assert blocks[..k] + blocks[k..] == blocks;
    assert blocks[k..][1..] == blocks[k + 1..] && blocks[k..][0] == blocks[k];
  }

  /** Reordering blocks does not change which chunks they hold. */
  lemma {:induction false} AllChunksPermutes(a: seq<ContextBlock>, b: seq<ContextBlock>)
    requires multiset(a) == multiset(b)
    ensures multiset(AllChunks(a)) == multiset(AllChunks(b))
    decreases |a|
  {
    if a == [] {
      assert b == [] by {
        assert |multiset(b)| == |b|;
      }
    } else {
      SameMembers(a, b);
      FirstMember(a);
      var k :| 0 <= k < |b| && b[k] == a[0];
      var rest := b[..k] + b[k + 1..];
      WithoutMultiset(b, k);
      TailMultiset(a);
      AllChunksPermutes(a[1..], rest);
      AllChunksWithout(b, k);
    }
  }

  /** Blocks made of chains hold the chains' chunks. */
  lemma {:induction false} ToBlocksChunks(tools: TextTools, chains: seq<Chain>)
    requires forall k :: 0 <= k < |chains| ==> chains[k] != []
    ensures multiset(AllChunks(ToBlocks(tools, chains))) == multiset(Concat(chains))
  {
    hide ToBlock;
    if chains != [] {
      ToBlocksChunks(tools, chains[1..]);
      BlockPermutes(tools, chains[0]);
      assert ToBlocks(tools, chains)[1..] == ToBlocks(tools, chains[1..]);
    }
  }

  lemma BlockPermutes(tools: TextTools, chain: Chain)
    requires chain != []
    ensures multiset(ToBlock(tools, chain).chunks) == multiset(chain)
    ensures ToBlock(tools, chain).chunks != []
  {
    SortPermutes(chain, ByIndex);
    SortMembers(chain, ByIndex);
    hide Sort;
  }

  /** Merging neighbours loses and repeats no chunk. */
  lemma {:induction false} MergingConserves(tools: TextTools, chunks: seq<RetrievedChunk>)
    ensures multiset(AllChunks(MergedBlocks(tools, chunks))) == multiset(chunks)
  {
    hide Chains, ToBlocks, AllChunks, Sort, VersionsOf;
    var versions := VersionsOf(chunks);
    VersionsHaveChunks(chunks);
    ChainsPartition(chunks, versions);
    ChainsAreNotEmpty(chunks, versions);
    var blocks := ToBlocks(tools, Chains(chunks, versions));
    ToBlocksChunks(tools, Chains(chunks, versions));
    SortPermutes(blocks, ByBlockKey(tools));
    AllChunksPermutes(MergedBlocks(tools, chunks), blocks);
  }

  lemma {:induction false} ToBlocksAt(tools: TextTools, chains: seq<Chain>, k: nat)
    requires forall j :: 0 <= j < |chains| ==> chains[j] != [] && IsChain(chains[j])
    requires k < |chains|
    ensures ToBlocks(tools, chains)[k] == ToBlock(tools, chains[k]) && ToBlocks(tools, chains)[k].chunks == chains[k]
  {
    hide ToBlock, IsChain;
    if k == 0 {
      BlockOfChain(tools, chains[0]);
    } else {
      ToBlocksAt(tools, chains[1..], k - 1);
    }
  }

  // --------------------------------------------------------------- maximality

  lemma NotSeparatedFromItself(chain: Chain)
    requires IsChain(chain)
    ensures !Separated(chain, chain)
  {
  }

  /** Blocks that are chains apart from each other, in any order. */
  lemma {:induction false} MaximalPermutes(a: seq<ContextBlock>, b: seq<ContextBlock>)
    requires multiset(a) == multiset(b) && Maximal(ChainsOf(a))
    ensures Maximal(ChainsOf(b))
  {
    hide IsChain, Separated;
    SameMembers(a, b);
    var chains, moved := ChainsOf(a), ChainsOf(b);
    assert forall i :: 0 <= i < |a| ==> chains[i] == a[i].chunks;
    forall i, j | 0 <= i < j < |a|
      ensures a[i] != a[j]
    {
      NotSeparatedFromItself(chains[i]);
      assert Separated(chains[i], chains[j]);
    }
    NoDupsCarries(a, b);
    forall i, j | 0 <= i < j < |b|
      ensures IsChain(moved[i]) && IsChain(moved[j]) && Separated(moved[i], moved[j])
    {
      assert b[i] in a && b[j] in a && b[i] != b[j];
      var k :| 0 <= k < |a| && a[k] == b[i];
      var l :| 0 <= l < |a| && a[l] == b[j];
      SeparatedIsSymmetric(chains[k], chains[l]);
      assert if k < l then Separated(chains[k], chains[l]) else Separated(chains[l], chains[k]);
    }
    forall i | 0 <= i < |b|
      ensures IsChain(moved[i])
    {
      assert b[i] in a;
      var k :| 0 <= k < |a| && a[k] == b[i];
      assert IsChain(chains[k]);
    }
  }

  lemma SeparatedIsSymmetric(a: Chain, b: Chain)
    ensures Separated(a, b) <==> Separated(b, a)
  {
  }

  /** A list with no more of anything than a list with distinct places has distinct places. */
  lemma {:induction false} PlacesCarry(a: seq<RetrievedChunk>, b: seq<RetrievedChunk>)
    requires DistinctPlaces(a) && multiset(b) <= multiset(a)
    ensures DistinctPlaces(b)
  {
    assert NoDups(a) by {
      assert forall i, j :: 0 <= i < j < |a| ==> !SamePlace(a[i], a[j]);
    }
    forall i, j | 0 <= i < j < |b|
      ensures !SamePlace(b[i], b[j])
    {
      assert b[i] in multiset(b) && b[j] in multiset(b);
      assert b[i] in multiset(a) && b[j] in multiset(a);
      if b[i] == b[j] {
        TwiceInMultiset(b, i, j);
        var k :| 0 <= k < |a| && a[k] == b[i];
        OnceInMultiset(a, k);
      } else {
        DifferentPlaces(a, b[i], b[j]);
      }
    }
  }

  // ----------------------------------------------------------------- assembly

  /** The block of a run of consecutive chunks. */
  ghost predicate IsBuilt(tools: TextTools, block: ContextBlock) {
    IsChain(block.chunks) && block == ToBlock(tools, block.chunks)
  }

  lemma BlocksOfChains(tools: TextTools, chains: seq<Chain>)
    requires forall j :: 0 <= j < |chains| ==> chains[j] != [] && IsChain(chains[j])
    ensures ChainsOf(ToBlocks(tools, chains)) == chains
    ensures forall b :: b in ToBlocks(tools, chains) ==> IsBuilt(tools, b)
  {
    hide ToBlock, ToBlocks, IsChain;
    forall k | 0 <= k < |chains|
      ensures ToBlocks(tools, chains)[k].chunks == chains[k] && ToBlocks(tools, chains)[k] == ToBlock(tools, chains[k])
      ensures IsChain(ToBlocks(tools, chains)[k].chunks)
    {
      ToBlocksAt(tools, chains, k);
    }
  }

  /** Merged neighbours are consecutive chunks in one block, best score first. */
  lemma {:induction false} MergingBuilds(tools: TextTools, chunks: seq<RetrievedChunk>)
    ensures
      var blocks := MergedBlocks(tools, chunks);
      Sorted(blocks, ByBlockKey(tools)) && forall b :: b in blocks ==> IsBuilt(tools, b)
  {
    var chains := Chains(chunks, VersionsOf(chunks));
    ChainsAreChains(chunks, VersionsOf(chunks));
    ChainsAreNotEmpty(chunks, VersionsOf(chunks));
    hide Sort, Chains, ToBlocks, VersionsOf, IsBuilt, IsChain, Sorted, ByBlockKey;
    BlocksOfChains(tools, chains);
    var built := ToBlocks(tools, chains);
    BlockOrder(tools);
    SortSorts(built, ByBlockKey(tools));
    SortPermutes(built, ByBlockKey(tools));
    SameMembers(built, Sort(built, ByBlockKey(tools)));
  }

  /** For distinct places the blocks are maximal runs. */
  lemma {:induction false} MergingIsMaximal(tools: TextTools, chunks: seq<RetrievedChunk>)
    requires DistinctPlaces(chunks)
    ensures Maximal(ChainsOf(MergedBlocks(tools, chunks)))
  {
    var versions := VersionsOf(chunks);
    VersionsHaveChunks(chunks);
    ChainsAreMaximal(chunks, versions);
    ChainsAreChains(chunks, versions);
    ChainsAreNotEmpty(chunks, versions);
    hide Sort, Chains, ToBlocks, VersionsOf, Maximal, IsBuilt, IsChain;
    BlocksOfChains(tools, Chains(chunks, versions));
    var built := ToBlocks(tools, Chains(chunks, versions));
    SortPermutes(built, ByBlockKey(tools));
    MaximalPermutes(built, Sort(built, ByBlockKey(tools)));
  }

  /**
   * `assemble_context` conserves chunks: those in the blocks and those
   * removed as duplicates are exactly the input, each block holds consecutive
   * chunks, the blocks are ordered by best score, and they are maximal when
   * no two chunks share a place.
   */
  lemma {:induction false} AssemblyConserves(tools: TextTools, chunks: seq<RetrievedChunk>)
    ensures
      var a := Assemble(tools, chunks);
      && multiset(AllChunks(a.blocks)) == multiset(Kept(tools, chunks))
      && multiset(AllChunks(a.blocks)) + multiset(a.removed) == multiset(chunks)
      && (chunks != [] ==> a.blocks != [])
      && Sorted(a.blocks, ByBlockKey(tools)) && (forall b :: b in a.blocks ==> IsBuilt(tools, b))
      && (DistinctPlaces(chunks) ==> Maximal(ChainsOf(a.blocks)))
  {
    hide Sort, MergedBlocks, IsBuilt, Kept, Removed, Maximal, Sorted, DistinctPlaces;
    var kept := Kept(tools, chunks);
    var ordered := Sort(kept, ByChunkKey(tools));
    DedupeConserves(tools, chunks);
    SortPermutes(kept, ByChunkKey(tools));
    MergingConserves(tools, ordered);
    MergingBuilds(tools, ordered);
    if chunks != [] {
      FirstIsKept(tools, chunks);
      assert kept[0] in multiset(AllChunks(Assemble(tools, chunks).blocks));
    }
    if DistinctPlaces(chunks) {
      PlacesCarry(chunks, ordered);
      MergingIsMaximal(tools, ordered);
    }
  }

  /** Blocks come best score first: a block's score is its primary chunk's. */
  lemma {:induction false} BestBlockFirst(tools: TextTools, chunks: seq<RetrievedChunk>, i: nat, j: nat)
    requires i < j < |Assemble(tools, chunks).blocks|
    ensures
      var blocks := Assemble(tools, chunks).blocks;
      && blocks[i].primary in blocks[i].chunks && blocks[j].primary in blocks[j].chunks
      && blocks[i].primary.score >= blocks[j].primary.score
      && forall c :: c in blocks[j].chunks ==> c.score <= blocks[i].primary.score
  {
    AssemblyConserves(tools, chunks);
    hide Assemble, IsBuilt, Maximal, Primary, MaxScore, TextLeq, Kept, AllChunks;
    var blocks := Assemble(tools, chunks).blocks;
    assert blocks[i] in blocks && blocks[j] in blocks;
    PrimaryOfBlock(tools, blocks[i]);
    PrimaryOfBlock(tools, blocks[j]);
    assert ByBlockKey(tools)(blocks[i], blocks[j]);
  }

  /**
   * How blocks are ordered: better primary score, then heading, then version,
   * then place in the version, then primary chunk.
   */
  ghost predicate ComesBefore(tools: TextTools, a: ContextBlock, b: ContextBlock) {
    && a.chunks != [] && b.chunks != []
    && var x, y := tools.fold(OrEmpty(a.heading)), tools.fold(OrEmpty(b.heading));
       var c, d := a.chunks[0], b.chunks[0];
       || a.primary.score > b.primary.score
       || (&& a.primary.score == b.primary.score
           && (|| (x != y && TextLeq(x, y))
               || (x == y && c.versionId < d.versionId)
               || (x == y && c.versionId == d.versionId && c.chunkIndex < d.chunkIndex)
               || (x == y && c.versionId == d.versionId && c.chunkIndex == d.chunkIndex && a.primary.chunkId <= b.primary.chunkId)))
  }

  lemma {:induction false} FirstIsMinimal(chain: Chain)
    requires IsChain(chain)
    ensures chain != [] && MinIndex(chain) == chain[0].chunkIndex
  {
    var n := |chain| - 1;
    if n > 0 {
      ChainPrefix(chain);
      hide IsChain;
      FirstIsMinimal(chain[..n]);
    }
  }

  lemma ChainPrefix(chain: Chain)
    requires IsChain(chain) && |chain| > 1
    ensures IsChain(chain[..|chain| - 1]) && chain[0].chunkIndex <= chain[|chain| - 1].chunkIndex
  {
  }

  /** The whole order of the blocks, ties and all. */
  lemma {:induction false} BlocksInOrder(tools: TextTools, chunks: seq<RetrievedChunk>, i: nat, j: nat)
    requires i < j < |Assemble(tools, chunks).blocks|
    ensures ComesBefore(tools, Assemble(tools, chunks).blocks[i], Assemble(tools, chunks).blocks[j])
  {
    AssemblyConserves(tools, chunks);
    hide Assemble, IsBuilt, Maximal, Primary, MaxScore, TextLeq, Kept, AllChunks, ComesBefore, BlockKey, KeyLeq;
    var blocks := Assemble(tools, chunks).blocks;
    assert blocks[i] in blocks && blocks[j] in blocks;
    KeyOfBlock(tools, blocks[i]);
    KeyOfBlock(tools, blocks[j]);
    assert ByBlockKey(tools)(blocks[i], blocks[j]);
    KeysInOrder(tools, blocks[i], blocks[j]);
  }

  lemma KeyOfBlock(tools: TextTools, block: ContextBlock)
    requires IsBuilt(tools, block)
    ensures block.chunks != [] && BlockKey(tools, block)
      == OrderKey(block.primary.score, tools.fold(OrEmpty(block.heading)), block.chunks[0].versionId, block.chunks[0].chunkIndex, block.primary.chunkId)
  {
    PrimaryOfBlock(tools, block);
    FirstIsMinimal(block.chunks);
    hide ToBlock, Primary, IsChain, MaxScore, MinIndex;
  }

  lemma KeysInOrder(tools: TextTools, a: ContextBlock, b: ContextBlock)
    requires a.chunks != [] && b.chunks != []
    requires KeyLeq(
      OrderKey(a.primary.score, tools.fold(OrEmpty(a.heading)), a.chunks[0].versionId, a.chunks[0].chunkIndex, a.primary.chunkId),
      OrderKey(b.primary.score, tools.fold(OrEmpty(b.heading)), b.chunks[0].versionId, b.chunks[0].chunkIndex, b.primary.chunkId))
    ensures ComesBefore(tools, a, b)
  {
    hide TextLeq;
  }

  lemma PrimaryOfBlock(tools: TextTools, block: ContextBlock)
    requires IsBuilt(tools, block)
    ensures block.chunks != [] && block.primary in block.chunks && block.primary.score == MaxScore(block.chunks)
    ensures forall c :: c in block.chunks ==> c.score <= block.primary.score
  {
    hide Sort, BlockHeading, Merged;
    PrimaryIsBest(block.chunks);
  }
}
