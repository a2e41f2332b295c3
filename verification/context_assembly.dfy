/** Assembling the evidence blocks of a prompt from retrieved chunks. */
module ContextAssembly {
  import opened ContextChains
  import opened ContextDedupe
  import opened ContextRuns
  import opened NeighbourText
  import opened PythonText
  import opened RetrievalModels
  import opened Sorting

  datatype ContextBlock = ContextBlock(
    heading: Option<string>, chunks: Chain, mergedText: string, primary: RetrievedChunk)

  datatype Assembly = Assembly(blocks: seq<ContextBlock>, removed: seq<RetrievedChunk>)

  // ---------------------------------------------------------------- ordering

  /** The sort keys of `_order_chunks` and `_merge_neighbor_blocks`, field by field. */
  datatype OrderKey = OrderKey(score: real, heading: string, version: nat, index: int, id: nat)

  /** Higher score first, everything else ascending. */
  predicate KeyLeq(a: OrderKey, b: OrderKey) {
    if a.score != b.score then a.score > b.score
    else if a.heading != b.heading then TextLeq(a.heading, b.heading)
    else if a.version != b.version then a.version < b.version
    else if a.index != b.index then a.index < b.index
    else a.id <= b.id
  }

  function OrEmpty(heading: Option<string>): string {
    if heading.Some? then heading.value else ""
  }

  function ChunkKey(tools: TextTools, c: RetrievedChunk): OrderKey {
    OrderKey(c.score, tools.fold(OrEmpty(c.heading)), c.versionId, c.chunkIndex, c.chunkId)
  }

  function ByChunkKey(tools: TextTools): (RetrievedChunk, RetrievedChunk) -> bool {
    (a, b) => KeyLeq(ChunkKey(tools, a), ChunkKey(tools, b))
  }

  function MinIndex(chain: Chain): int
    requires chain != []
  {
    if |chain| == 1 then chain[0].chunkIndex else Min(MinIndex(chain[..|chain| - 1]), chain[|chain| - 1].chunkIndex)
  }

  /** Blocks always hold a chunk; the key of an empty one is never looked at. */
  function BlockKey(tools: TextTools, b: ContextBlock): OrderKey {
    if b.chunks == [] then OrderKey(0.0, "", 0, 0, 0)
    else
      OrderKey(MaxScore(b.chunks), tools.fold(OrEmpty(b.heading)), b.chunks[0].versionId, MinIndex(b.chunks), b.primary.chunkId)
  }

  function ByBlockKey(tools: TextTools): (ContextBlock, ContextBlock) -> bool {
    (a, b) => KeyLeq(BlockKey(tools, a), BlockKey(tools, b))
  }

  // ------------------------------------------------------------------ blocks

  /** `(item.score, -item.chunk_index, str(item.chunk_id))` is greater for `a`. */
  predicate Outranks(a: RetrievedChunk, b: RetrievedChunk) {
    a.score > b.score
    || (a.score == b.score && (a.chunkIndex < b.chunkIndex || (a.chunkIndex == b.chunkIndex && a.chunkId > b.chunkId)))
  }

  /** `max` keeps the first of equals. */
  function Primary(chain: Chain): RetrievedChunk
    requires chain != []
  {
    if |chain| == 1 then chain[0]
    else
      var best := Primary(chain[..|chain| - 1]);
      if Outranks(chain[|chain| - 1], best) then chain[|chain| - 1] else best
  }

  /** `_heading_key`. */
  function HeadingKey(tools: TextTools, heading: Option<string>): string {
    tools.fold(Strip(OrEmpty(heading)))
  }

  function FirstHeading(chain: Chain): Option<string> {
    if chain == [] then None
    else if chain[0].heading.Some? && chain[0].heading.value != "" then chain[0].heading
    else FirstHeading(chain[1..])
  }

  /** A heading all chunks agree on, else the primary chunk's. */
  function BlockHeading(tools: TextTools, chain: Chain): Option<string>
    requires chain != []
  {
    if forall c :: c in chain ==> HeadingKey(tools, c.heading) == HeadingKey(tools, chain[0].heading) then FirstHeading(chain)
    else Primary(chain).heading
  }

  function Texts(chain: Chain): (r: seq<string>)
    ensures |r| == |chain|
  {
    if chain == [] then [] else Texts(chain[..|chain| - 1]) + [chain[|chain| - 1].text]
  }

  /** What `_to_block` returns. */
  function ToBlock(tools: TextTools, chain: Chain): ContextBlock
    requires chain != []
  {
    SortMembers(chain, ByIndex);
    var ordered := Sort(chain, ByIndex);
    ContextBlock(BlockHeading(tools, ordered), ordered, Merged(Texts(ordered)), Primary(ordered))
  }

  /** `_to_block`. */
  method MakeBlock(tools: TextTools, chain: Chain) returns (block: ContextBlock)
    requires chain != []
    ensures block == ToBlock(tools, chain)
  {
    SortMembers(chain, ByIndex);
    hide Sort, Merged, Primary, BlockHeading, Texts, Strip, Outranks;
    var ordered := Sort(chain, ByIndex);
    FirstOfChain(ordered);
    var primary := ordered[0];
    var merged := Strip(ordered[0].text);
    for i := 1 to |ordered|
      invariant primary == Primary(ordered[..i])
      invariant merged == Merged(Texts(ordered[..i]))
    {
      NextOfChain(ordered, i);
      if Outranks(ordered[i], primary) {
        primary := ordered[i];
      }
      merged := JoinAdjacent(merged, ordered[i].text);
    }
    assert ordered[..|ordered|] == ordered;
    block := ContextBlock(BlockHeading(tools, ordered), ordered, merged, primary);
  }

  lemma FirstOfChain(chain: Chain)
    requires chain != []
    ensures Primary(chain[..1]) == chain[0] && Merged(Texts(chain[..1])) == Strip(chain[0].text)
  {
    hide Strip;
    assert chain[..1] == [chain[0]] && Texts(chain[..1][..0]) == [];
    assert Texts(chain[..1]) == [chain[0].text];
  }

  lemma NextOfChain(chain: Chain, i: nat)
    requires 1 <= i < |chain|
    ensures Primary(chain[..i + 1]) == if Outranks(chain[i], Primary(chain[..i])) then chain[i] else Primary(chain[..i])
    ensures Merged(Texts(chain[..i + 1])) == Join(Merged(Texts(chain[..i])), chain[i].text)
  {
    hide Outranks, Join, Strip;
    assert chain[..i + 1][..i] == chain[..i];
    assert Texts(chain[..i + 1]) == Texts(chain[..i]) + [chain[i].text];
    assert Texts(chain[..i + 1])[..i] == Texts(chain[..i]);
  }

  function ToBlocks(tools: TextTools, chains: seq<Chain>): (r: seq<ContextBlock>)
    requires forall k :: 0 <= k < |chains| ==> chains[k] != []
    ensures |r| == |chains|
  {
    if chains == [] then [] else [ToBlock(tools, chains[0])] + ToBlocks(tools, chains[1..])
  }

  /** What `_merge_neighbor_blocks` returns. */
  function MergedBlocks(tools: TextTools, chunks: seq<RetrievedChunk>): seq<ContextBlock> {
    ChainsAreNotEmpty(chunks, VersionsOf(chunks));
    Sort(ToBlocks(tools, Chains(chunks, VersionsOf(chunks))), ByBlockKey(tools))
  }

  /** What `assemble_context` returns. */
  function Assemble(tools: TextTools, chunks: seq<RetrievedChunk>): Assembly {
    Assembly(MergedBlocks(tools, Sort(Kept(tools, chunks), ByChunkKey(tools))), Removed(tools, chunks))
  }

  /** `assemble_context`. */
  method AssembleContext(tools: TextTools, chunks: seq<RetrievedChunk>) returns (r: Assembly)
    ensures r == Assemble(tools, chunks)
  {
    hide Chains, ToBlock, Kept, Removed, Sort, VersionsOf;
    var kept, removed := DedupeChunks(tools, chunks);
    var ordered := Sort(kept, ByChunkKey(tools));
    var chains := MergeChains(ordered);
    ChainsAreNotEmpty(ordered, VersionsOf(ordered));
    var blocks: seq<ContextBlock> := [];
    ghost var all := ToBlocks(tools, chains);
    for k := 0 to |chains|
      invariant blocks + ToBlocks(tools, chains[k..]) == all
    {
      assert chains[k..][0] == chains[k] && chains[k..][1..] == chains[k + 1..];
      var block := MakeBlock(tools, chains[k]);
      Regroup(blocks, [block], ToBlocks(tools, chains[k + 1..]), ToBlocks(tools, chains[k..]), all);
      blocks := blocks + [block];
    }
    assert ToBlocks(tools, chains[|chains|..]) == [] && blocks == all;
    r := Assembly(Sort(blocks, ByBlockKey(tools)), removed);
  }

  /** The chunks of the blocks in prompt order: `chunks_for_citations`. */
  function AllChunks(blocks: seq<ContextBlock>): seq<RetrievedChunk> {
    if blocks == [] then [] else blocks[0].chunks + AllChunks(blocks[1..])
  }
}
