/** The chunks of a built prompt: chunks of the request, each once, each with its own marker. */
module PromptGrounding {
  import opened ContextAssembly
  import opened ContextChains
  import opened ContextDedupe
  import opened ContextFaithful
  import opened ContextRuns
  import opened PromptBuilders
  import opened PromptParts
  import opened PythonText
  import opened RetrievalModels
  import opened Sorting

  ghost predicate IsSound(block: ContextBlock) {
    block.primary in block.chunks && DistinctChunks(block.chunks)
  }

  /** The chunks that do not have the given id. */
  function Without(chunks: seq<RetrievedChunk>, id: nat): seq<RetrievedChunk> {
    if chunks == [] then []
    else
      var n := |chunks| - 1;
      Without(chunks[..n], id) + if chunks[n].chunkId == id then [] else [chunks[n]]
  }

  lemma {:induction false} WithoutNone(chunks: seq<RetrievedChunk>, id: nat)
    requires forall k :: 0 <= k < |chunks| ==> chunks[k].chunkId != id
    ensures Without(chunks, id) == chunks
  {
    if chunks != [] {
      WithoutNone(chunks[..|chunks| - 1], id);
    }
  }

  lemma LastIsOne(chunks: seq<RetrievedChunk>, c: RetrievedChunk)
    requires DistinctChunks(chunks) && c in chunks
    ensures
      var n := |chunks| - 1;
      if chunks[n].chunkId == c.chunkId then c == chunks[n] && forall k :: 0 <= k < n ==> chunks[..n][k].chunkId != c.chunkId
      else DistinctChunks(chunks[..n]) && c in chunks[..n]
  {
    var k :| 0 <= k < |chunks| && chunks[k] == c;
    var n := |chunks| - 1;
    assert k < n ==> chunks[..n][k] == c;
  }

  lemma {:induction false} WithoutOne(chunks: seq<RetrievedChunk>, c: RetrievedChunk)
    requires DistinctChunks(chunks) && c in chunks
    ensures multiset([c] + Without(chunks, c.chunkId)) == multiset(chunks)
  {
    var n := |chunks| - 1;
    LastIsOne(chunks, c);
    hide DistinctChunks;
    assert chunks == chunks[..n] + [chunks[n]];
    if chunks[n].chunkId == c.chunkId {
      WithoutNone(chunks[..n], c.chunkId);
    } else {
      WithoutOne(chunks[..n], c);
    }
  }

  lemma {:induction false} SecondariesUse(t: Templates, block: ContextBlock, primary: string, d: Draft, n: nat)
    requires n <= |block.chunks|
    ensures AddSecondaries(t, block, primary, d, n).used == d.used + Without(block.chunks[..n], block.primary.chunkId)
  {
    hide ChunkText, Marker;
    if n > 0 {
      SecondariesUse(t, block, primary, d, n - 1);
      assert block.chunks[..n][..n - 1] == block.chunks[..n - 1];
    }
  }

  lemma PrimaryUse(t: Templates, cfg: Config, block: ContextBlock, d: Draft)
    ensures AddPrimary(t, cfg, block, AddHeading(block, d)).used == d.used + [block.primary]
    ensures AddBlock(t, cfg, block, d) == AddSecondaries(t, block, Marker(|d.used|), AddPrimary(t, cfg, block, AddHeading(block, d)), |block.chunks|)
  {
    hide ChunkText, Marker, Strip, Excerpt, AddSecondaries;
    assert AddHeading(block, d).used == d.used;
  }

  function BlockOrderOfUse(block: ContextBlock): seq<RetrievedChunk> {
    [block.primary] + Without(block.chunks, block.primary.chunkId)
  }

  /** A block's chunks are used once each: the primary first, then the others in order. */
  lemma BlockUses(t: Templates, cfg: Config, block: ContextBlock, d: Draft)
    ensures AddBlock(t, cfg, block, d).used == d.used + BlockOrderOfUse(block)
  {
    hide AddBlock, AddPrimary, AddHeading, AddSecondaries, Without, Marker;
    PrimaryUse(t, cfg, block, d);
    var begun := AddPrimary(t, cfg, block, AddHeading(block, d));
    SecondariesUse(t, block, Marker(|d.used|), begun, |block.chunks|);
    var chunks := block.chunks;
    assert chunks[..|chunks|] == chunks;
    var others := Without(chunks, block.primary.chunkId);
    Regroup(d.used, [block.primary], others, BlockOrderOfUse(block), d.used + BlockOrderOfUse(block));
  }

  lemma BlockPermuted(block: ContextBlock)
    requires IsSound(block)
    ensures multiset(BlockOrderOfUse(block)) == multiset(block.chunks)
  {
    WithoutOne(block.chunks, block.primary);
  }

  lemma AppendPermuted<T>(a: seq<T>, b: seq<T>, c: seq<T>, d: seq<T>)
    requires multiset(a) == multiset(b) && multiset(c) == multiset(d)
    ensures multiset(a + c) == multiset(b + d)
  {
  }

  lemma {:induction false} DraftUses(t: Templates, cfg: Config, blocks: seq<ContextBlock>)
    requires forall b :: b in blocks ==> IsSound(b)
    ensures multiset(DraftOf(t, cfg, blocks).used) == multiset(AllChunks(blocks))
  {
    hide AddBlock, IsSound, BlockOrderOfUse;
    if blocks != [] {
      var n := |blocks| - 1;
      var before, last := blocks[..n], blocks[n];
      DraftUses(t, cfg, before);
      BlockUses(t, cfg, last, DraftOf(t, cfg, before));
      assert blocks == before + [last];
      AllChunksConcat(before, [last]);
      OneBlock(last);
      BlockPermuted(last);
      AppendPermuted(DraftOf(t, cfg, before).used, AllChunks(before), BlockOrderOfUse(last), last.chunks);
    }
  }

  lemma OneBlock(block: ContextBlock)
    ensures AllChunks([block]) == block.chunks
  {
  }

  // ---------------------------------------------------- the assembled blocks

  lemma {:induction false} BlockOfAll(blocks: seq<ContextBlock>, k: nat)
    requires k < |blocks|
    ensures multiset(blocks[k].chunks) <= multiset(AllChunks(blocks))
  {
    AllChunksWithout(blocks, k);
  }

  lemma {:induction false} PrefixOfAll(blocks: seq<ContextBlock>, k: nat)
    requires k <= |blocks|
    ensures multiset(AllChunks(blocks[..k])) <= multiset(AllChunks(blocks))
  {
    assert blocks[..k] + blocks[k..] == blocks;
    AllChunksConcat(blocks[..k], blocks[k..]);
  }

  lemma {:induction false} ToBlocksHavePrimaries(tools: TextTools, chains: seq<Chain>)
    requires forall k :: 0 <= k < |chains| ==> chains[k] != []
    ensures forall b :: b in ToBlocks(tools, chains) ==> b.primary in b.chunks
  {
    if chains != [] {
      ToBlocksHavePrimaries(tools, chains[1..]);
      BlockPermutes(tools, chains[0]);
      PrimaryIsBest(ToBlock(tools, chains[0]).chunks);
      hide BlockHeading, Sort, Primary;
    }
  }

  lemma {:induction false} BlocksAreSound(tools: TextTools, chunks: seq<RetrievedChunk>)
    requires DistinctChunks(chunks)
    ensures forall b :: b in Assemble(tools, chunks).blocks ==> IsSound(b)
  {
    hide Sort, Chains, VersionsOf, Kept, Removed, DistinctChunks, ToBlocks;
    var blocks := Assemble(tools, chunks).blocks;
    AssemblyConserves(tools, chunks);
    var ordered := Sort(Kept(tools, chunks), ByChunkKey(tools));
    var chains := Chains(ordered, VersionsOf(ordered));
    ChainsAreNotEmpty(ordered, VersionsOf(ordered));
    ToBlocksHavePrimaries(tools, chains);
    SortMembers(ToBlocks(tools, chains), ByBlockKey(tools));
    forall b | b in blocks
      ensures IsSound(b)
    {
      var k :| 0 <= k < |blocks| && blocks[k] == b;
      BlockOfAll(blocks, k);
      DistinctCarries(chunks, b.chunks);
    }
  }

  /**
   * A built prompt fits, uses only chunks it was given, each once and at
   * least one of them, and its markers 1 to n name them in order.
   */
  lemma {:induction false} PromptIsGrounded(tools: TextTools, r: Request, chunks: seq<RetrievedChunk>, history: seq<Turn>)
    requires DistinctChunks(chunks) && Prompt(tools, r, chunks, history).Some?
    ensures
      var p := Prompt(tools, r, chunks, history).value;
      && |p.systemPrompt| + |p.userPrompt| <= r.config.maxPromptChars
      && multiset(p.used) <= multiset(chunks) && DistinctChunks(p.used)
      && (chunks != [] ==> p.used != [])
      && Numbers(p.markers, p.used)
  {
    var s := Whole(tools, r, chunks, history);
    var cut := Trim(r, s, |s.blocks|, 0).value;
    TrimmedFits(r, s);
    BlocksAreSound(tools, chunks);
    AssemblyConserves(tools, chunks);
    hide Trim, IsSound, DistinctChunks, Kept, Removed, Assemble, AllChunks, Numbers, ClampHistory, DraftOf;
    var kept := s.blocks[..cut.blocks];
    PrefixOfAll(s.blocks, cut.blocks);
    DraftUses(r.templates, r.config, kept);
    MarkersNumberChunks(r.templates, r.config, kept);
    assert multiset(AllChunks(kept)) <= multiset(chunks);
    DistinctCarries(chunks, PromptOf(r, Part(s, cut.blocks, cut.turns)).used);
    if chunks != [] {
      assert kept[0] in kept;
      SoundIsNotEmpty(kept[0]);
      BlockOfAll(kept, 0);
      assert kept[0].primary in multiset(kept[0].chunks);
    }
  }

  lemma SoundIsNotEmpty(block: ContextBlock)
    requires IsSound(block)
    ensures block.primary in block.chunks
  {
  }

  lemma TrimmedFits(r: Request, s: Selection)
    requires Trim(r, s, |s.blocks|, 0).Some?
    ensures
      var cut := Trim(r, s, |s.blocks|, 0).value;
      FitsAt(r, s, cut.blocks, cut.turns) && (s.blocks != [] ==> cut.blocks > 0)
  {
    hide FitsAt, Trim;
    TooLargeExactlyWhen(r, s, |s.blocks|, 0);
    TrimKeepsMost(r, s, |s.blocks|, 0, Min(1, |s.blocks|), |s.history|);
  }
}
