# Verification of the RAG engine

A Dafny model of the part of the RAG engine that lies between the document
parsers and the language model, with proofs of what it promises. `dafny verify
dfyconfig.toml` checks everything.

What is modelled, one module per component:

- **Text path.** `PythonText` (the string primitives), `SplitterUnits`,
  `SplitterSpans` and `SplitterDocument` (`chunking/splitter.py`), with
  `SplitterBlocks` and `SplitterPacking` on which units and chunks come out;
  `Normalization`, `NormalizationStability`, `NormalizationComposition`,
  `NormalizationRepeats`, `NormalizationContent`, `NormalizationJoiners` and
  `NormalizationLines` (`processing/normalization.py`).
- **Retrieval.** `Bm25` and `Bm25Ranking`, `LexicalIndex` (the index cache and
  its side file), `Hybrid` (rank fusion), `Ranking` (calibration), over exact
  reals; `Sorting` is Python's stable sort, `RetrievalModels` the hit that is
  passed on.
- **Indexing.** `IndexingBatches`, `EmbeddingBisection`, `IndexingDatabase` (the
  rows and the repositories' statements), `IndexingRuns` (the state machine over
  all committed steps), `IndexingOutcomes` (what one finished attempt leaves
  behind), `IndexingVectors` (whose vectors are stored), `IndexingServices` (the
  service itself), `IndexingModels`; `IndexedCorpus` joins this part to the
  lexical index.
- **Generation.** `EvidenceSelection` and `EvidenceProperties`, `ContextDedupe`,
  `ContextRuns`, `ContextChains`, `ContextAssembly`, `ContextFaithful`,
  `NeighbourText`, `PromptParts`, `PromptBuilders`, `PromptGrounding`,
  `PromptContents`, `DecimalText`, `Citations`, `GenerationServices`,
  `GenerationGrounding`, `GenerationOutcomes`.

Loops of the program are loops here, proved equal to a recursive function; the
theorems are about that function. Objects that the program mutates are classes
with the same fields. Regular expressions, word lists, Unicode tables, the
embedding model, the language model and the prompt wording are parameters, so
every theorem holds for all of them. Timing, logging and diagnostics are not
modelled.

Where the code does not do what it says:

- `normalize_persian_text` is documented as idempotent
  (`processing/normalization.py:4-5`). It is not, for two reasons: `!` ZWNJ `!`
  becomes `!!`, and a second pass makes it `!`; and alef, tatweel, maddah above
  lose the tatweel first and are composed only by the second pass.
  `NormalizationRepeats.IdempotentExactlyWhen` gives the exact condition for every
  text, `NormalizationRepeats.IdempotentForStarters` the one that is left when no
  combining character is in play, and two passes always reach a fixed point
  (`NormalizationComposition.StableAfterTwoPasses`).
- In the splitter's forced cut the preferred window, the preference for list
  items and the search for a newline change nothing:
  `SplitterSpans.WindowIsInert`, `SplitterSpans.CandidateBreakOffsets`,
  `SplitterSpans.NoNewlineWithoutBreak`.
- The index cache is keyed by row count alone, so filtered loads of equal size
  share an entry and the second may return the first one's rows
  (`LexicalIndex.FilteredLoadsCollide`,
  `LexicalIndex.FilteredLoadAgreesExactlyWhen`). A filtered load can also spoil a
  later unfiltered one, when a removal leaves as many rows as it selected
  (`LexicalIndex.FilteredLoadSpoilsUnfiltered`,
  `LexicalIndex.RemovalAfterFilteredLoad`); `LexicalIndex.EveryLoadAgrees` holds
  for all other runs.
- Indexing a superseded version is refused, but the refusal marks it as failed,
  and a failed version may be indexed, which retires the newer version
  (`IndexingRuns.RefusedVersionCanReturn`). `IndexingRuns.SupersededExactlyWhile`
  says which steps let a version leave the superseded status, and that no others
  do; refusing to resume it is not one of them.
- The branch for a partial embedding failure, the branch for failed citation
  validation and the choice of the best-scored chunk in the salvage step are never
  reached (`IndexingServices.IndexingService.IndexOnce`,
  `GenerationGrounding.CitationsAlwaysFound`, `Citations.SalvageIsGrounded`).
- A salvaged citation's marker need not stand in the answer
  (`generation/service.py:298` says it does): a reply with unknown markers only
  keeps them. `GenerationGrounding.CitationsShownExactlyWhen` gives the condition.
- When every candidate scores zero, the section-proximity pass of evidence
  selection can lift a neighbour above the anchor
  (`EvidenceProperties.AnchorCanFall`). `EvidenceProperties.AnchorHoldsExactlyWhen`
  gives the condition on the first scores under which it does not.

## Model

| member | source | states |
|---|---|---|
| SplitterDocument.NoContentLost | backend/src/rag_enterprise/chunking/splitter.py:95-152 | For every text, every classification of lines and every limit of at least 1, each non-whitespace character lies inside the range of some chunk |
| SplitterDocument.ChunksWellFormed | backend/src/rag_enterprise/chunking/splitter.py:122-152 | Every chunk is the exact slice of its range, not empty, at most the limit long, starts and ends on kept characters, and starts and ends never decrease along the list |
| SplitterDocument.NoChunkOnlyIfBlank | backend/src/rag_enterprise/chunking/splitter.py:138-152 | Exactly the blank texts give no chunk, so the whole-text fallback, which ignores the limit, is never taken |
| SplitterDocument.ZeroOverlapPartitions | backend/src/rag_enterprise/chunking/splitter.py:324-440 | Without overlap every non-whitespace character lies in exactly one chunk |
| SplitterDocument.FittingUnitsStayWhole | backend/src/rag_enterprise/chunking/splitter.py:324-394 | A list, table, FAQ pair or other unit that fits the limit lies whole in one chunk |
| SplitterDocument.HeadingIsNearest | backend/src/rag_enterprise/chunking/splitter.py:155-166 | A chunk gets the first titled heading it overlaps, else the closest heading before it |
| SplitterDocument.MergeFromCovers | backend/src/rag_enterprise/chunking/splitter.py:324-384 | Merging emits every position of the buffer and of each later unit |
| SplitterDocument.MergeTailOk | backend/src/rag_enterprise/chunking/splitter.py:386-394 | Merging a short tail into the last chunk keeps order and the limit |
| SplitterDocument.MergeUnits | backend/src/rag_enterprise/chunking/splitter.py:324-394 | The buffering loop and the tail step compute the merged spans, whose packing `SplitterPacking.RawSpansArePacked` and `SplitterPacking.TailPacks` state |
| SplitterDocument.SplitPersianDocument | backend/src/rag_enterprise/chunking/splitter.py:95-152 | The whole procedure returns the specified pieces, with the fallback branch unreachable; what they are, `ChunksWellFormed`, `NoContentLost` and `SplitterPacking.ChunksArePacked` state |
| SplitterPacking.ChunksArePacked | backend/src/rag_enterprise/chunking/splitter.py:324-394 | When no unit alone exceeds the limit, the chunks are the units packed in order: each chunk goes on exactly until the next unit would exceed the limit, or until the target size is reached and a heading, list, table, FAQ or clause of at least the minimum length begins; only the last chunk may hold a tail shorter than the minimum beyond that, and no tail is left that could have been taken in |
| SplitterPacking.RawSpansArePacked | backend/src/rag_enterprise/chunking/splitter.py:359-384 | The same of the spans before the tail step, with no exception |
| SplitterPacking.MergePacks | backend/src/rag_enterprise/chunking/splitter.py:359-384 | The same of merging from any buffered unit |
| SplitterPacking.PackingIsUnique | backend/src/rag_enterprise/chunking/splitter.py:359-384 | There is only one such packing |
| SplitterPacking.PackingIsFewest | backend/src/rag_enterprise/chunking/splitter.py:359-384 | For prose no way of cutting the units into runs within the limit has fewer of them |
| SplitterPacking.TailPacks | backend/src/rag_enterprise/chunking/splitter.py:386-394 | The tail step keeps the packing and leaves no short tail that fits its predecessor |
| SplitterPacking.SmallDocumentIsOneChunk | backend/src/rag_enterprise/chunking/splitter.py:359-383 | Units of prose, or too short to begin a chunk, that end within the limit of the first start make exactly one chunk |
| SplitterUnits.ParagraphUnitsOk | backend/src/rag_enterprise/chunking/splitter.py:169-228 | Units are in order, do not overlap and carry no outer whitespace |
| SplitterUnits.ParagraphUnitsCover | backend/src/rag_enterprise/chunking/splitter.py:169-228 | Every non-whitespace character is in a unit, through blank-line splitting, heading peeling and list splitting |
| SplitterUnits.ParagraphUnitsLoop | backend/src/rag_enterprise/chunking/splitter.py:169-184 | The loop over blank lines computes those units |
| SplitterUnits.LineSpansLoop | backend/src/rag_enterprise/chunking/splitter.py:231-240 | The line loop computes the stripped non-empty lines of a block |
| SplitterUnits.LineSpansCover | backend/src/rag_enterprise/chunking/splitter.py:231-240 | Each line of a block is found, in order, with only blanks between |
| SplitterUnits.CoalesceLoop | backend/src/rag_enterprise/chunking/splitter.py:284-321 | The coalescing loop computes the grouped units |
| SplitterUnits.CoalesceOk | backend/src/rag_enterprise/chunking/splitter.py:284-321 | Coalescing keeps units in order, disjoint and tight |
| SplitterUnits.CoalesceKeeps | backend/src/rag_enterprise/chunking/splitter.py:284-321 | Coalescing cuts no unit: each lies whole in a coalesced one |
| SplitterUnits.SemanticUnitsCover | backend/src/rag_enterprise/chunking/splitter.py:284-321 | Every non-whitespace character and every paragraph unit is in a semantic unit |
| SplitterBlocks.BlankLinesSeparate | backend/src/rag_enterprise/chunking/splitter.py:169-228 | No unit holds a blank line, and between two units there is one unless the first is a heading taken from the front of the second |
| SplitterBlocks.LinesExactly | backend/src/rag_enterprise/chunking/splitter.py:231-240 | The lines of a block are exactly its maximal stretches without a newline that are not blank |
| SplitterBlocks.ListBlocksAreLists | backend/src/rag_enterprise/chunking/splitter.py:187-202 | A block of several lines that are all list items is one list |
| SplitterBlocks.HeadingsArePeeled | backend/src/rag_enterprise/chunking/splitter.py:204-228 | Of any other block of several lines a leading section heading becomes a unit with its title and the rest is classified; without one the block is classified whole |
| SplitterBlocks.CoalescingIsMaximal | backend/src/rag_enterprise/chunking/splitter.py:284-321 | Coalescing takes whole runs of lists and of tables, and a question with the answer after it when the two span at most 2200 characters, and nothing else |
| SplitterUnits.TrimSpanLoop | backend/src/rag_enterprise/chunking/splitter.py:502-507 | Trimming moves both ends past newlines, tabs and spaces and no further |
| SplitterSpans.SpanPiecesOk | backend/src/rag_enterprise/chunking/splitter.py:397-440 | Forced pieces are bounded and ordered, leave no gap, and overlap the previous piece by exactly min(overlap, its length - 1) |
| SplitterSpans.CutMonotone | backend/src/rag_enterprise/chunking/splitter.py:397-440 | A later cursor never cuts earlier, although pieces step back for overlap |
| SplitterSpans.CutIsNatural | backend/src/rag_enterprise/chunking/splitter.py:397-440 | A cut falls on the last natural break within reach, else after a space, else at the hard limit |
| SplitterSpans.RegionLoop | backend/src/rag_enterprise/chunking/splitter.py:397-440 | The cursor loop terminates and returns the specified pieces |
| SplitterSpans.SplitSpan | backend/src/rag_enterprise/chunking/splitter.py:397-440 | The whole forced split returns the specified pieces in text offsets |
| SplitterSpans.CandidateBreakOffsets | backend/src/rag_enterprise/chunking/splitter.py:443-462 | The offsets are exactly the positions after newlines and sentence ends, with or without the list preference |
| SplitterSpans.AfterSentenceIs | backend/src/rag_enterprise/chunking/splitter.py:453-459 | The place after a sentence end is past all blanks, and past one newline if that is next |
| SplitterSpans.WindowIsInert | backend/src/rag_enterprise/chunking/splitter.py:465-471 | For any window floor the chosen break is the last one up to the hard limit |
| SplitterSpans.BreakAtIsCut | backend/src/rag_enterprise/chunking/splitter.py:418-431 | Window, newline and space fallbacks together amount to the last break, else the last space, else the hard limit |
| SplitterSpans.NoNewlineWithoutBreak | backend/src/rag_enterprise/chunking/splitter.py:424-431 | Where no break is found there is no newline either, so that fallback never fires |
| Normalization.NormalizePersianText | backend/src/rag_enterprise/processing/normalization.py:57-93 | The thirteen steps in the program's order, with their loops; what they keep, `NormalizationContent.ContentIsKept` states |
| Normalization.RemoveInvisible | backend/src/rag_enterprise/processing/normalization.py:96-109 | The loop keeps exactly the visible characters |
| Normalization.NormalizeZwnjLoop | backend/src/rag_enterprise/processing/normalization.py:136-151 | The loop keeps a joiner exactly between letters |
| Normalization.StripControls | backend/src/rag_enterprise/processing/normalization.py:154-164 | The loop drops exactly the control characters other than newline and tab |
| NormalizationContent.ContentIsKept | backend/src/rag_enterprise/processing/normalization.py:57-176 | For every text the words of N(x), letter by letter and in order, are the words of nfc(x), with the replaced letters, digits and marks written out one by one and repeated marks counted once; only spaces, line ends, format and control characters, tatweel and the diacritics show nothing |
| NormalizationContent.OutputIsPlain | backend/src/rag_enterprise/processing/normalization.py:57-93 | In N(x) nothing is left to replace, and only spaces and newlines separate words |
| NormalizationContent.LettersAndDigitsShow | backend/src/rag_enterprise/processing/normalization.py:47-88 | ASCII letters and digits, the Arabic and Persian letters and both digit blocks, unless format characters, are all shown, and only ي, ى, ك and the digits are replaced |
| NormalizationLines.LinesAreKept | backend/src/rag_enterprise/processing/normalization.py:87-176 | No line comes or goes: N(x) has as many newlines as nfc(x) when that has no carriage return, and otherwise as many as its line ends, a carriage return with its newline being one |
| NormalizationJoiners.HalfSpacesAreKept | backend/src/rag_enterprise/processing/normalization.py:86-176 | For every text, white space and controls apart, N(x) is the text after step 8 with each stretch of joiners between two letters as one joiner in its place and every other joiner gone |
| NormalizationJoiners.StepKeepsHalfSpaces | backend/src/rag_enterprise/processing/normalization.py:136-151 | The same of step 9 alone, character by character |
| NormalizationJoiners.JoinersJoinLetters | backend/src/rag_enterprise/processing/normalization.py:136-176 | In N(x) every joiner stands right between two letters |
| NormalizationStability.NormalizeQuiet | backend/src/rag_enterprise/processing/normalization.py:57-93 | The output is always in normal form up to punctuation runs |
| NormalizationStability.NormalizeIsCollapse | backend/src/rag_enterprise/processing/normalization.py:57-93 | Of a text whose NFC is in that form the whole pipeline is NFC followed by one punctuation collapse |
| NormalizationComposition.NfcKeepsQuiet | backend/src/rag_enterprise/processing/normalization.py:57-93 | NFC, applied to text in that form, leaves the form intact: no joiner, space or control needs removing again |
| NormalizationComposition.SecondPassIsOneCollapse | backend/src/rag_enterprise/processing/normalization.py:57-129 | For every x, N(N(x)) is exactly NFC and then one punctuation collapse of N(x) |
| NormalizationComposition.StableAfterTwoPasses | backend/src/rag_enterprise/processing/normalization.py:57-93 | For every x, N(N(N(x))) = N(N(x)) |
| NormalizationComposition.StartersAreComposed | backend/src/rag_enterprise/processing/normalization.py:57-93 | A text of starters only (NFC_QC Yes, combining class 0) is its own NFC |
| NormalizationStability.CollapseFixed | backend/src/rag_enterprise/processing/normalization.py:125-129 | The collapse leaves a text alone exactly when it has no run of marks or of four dots |
| NormalizationRepeats.IdempotentExactlyWhen | backend/src/rag_enterprise/processing/normalization.py:1-93 | N(N(x)) = N(x) exactly when no mark run comes together over dropped joiners and controls after the collapse step and the text before the last step is its own NFC |
| NormalizationRepeats.IdempotentForStarters | backend/src/rag_enterprise/processing/normalization.py:1-93 | When steps 2 to 7 leave only starters, N(N(x)) = N(x) exactly when no such mark run comes together, and N(N(x)) is one punctuation collapse of N(x) |
| NormalizationRepeats.CleanupComposed | backend/src/rag_enterprise/processing/normalization.py:167-176 | Whitespace cleanup neither lets characters compose nor keeps any from composing |
| NormalizationRepeats.LateStepsRepeats | backend/src/rag_enterprise/processing/normalization.py:136-176 | The steps after the collapse join marks exactly where the text before them shows it |
| NormalizationRepeats.OnePassIsNotEnough | backend/src/rag_enterprise/processing/normalization.py:1-6 | `!` ZWNJ `!` needs two passes, for any NFC that leaves this text and `!!` alone |
| NormalizationRepeats.TatweelHidesComposition | backend/src/rag_enterprise/processing/normalization.py:1-6 | Alef, tatweel, maddah above need two passes although no mark repeats |
| LexicalIndex.EveryLoadAgrees | backend/src/rag_enterprise/retrieval/lexical_index.py:89-186 | Over every run of publishing, removing, loading with or without filters, persisting and restarting, in which no removal leaves as many rows as a partial load has selected since the last persist or restart, every unfiltered load returns the index of the current rows, from cache, side file or rebuild |
| LexicalIndex.EventAgrees | backend/src/rag_enterprise/retrieval/lexical_index.py:89-186 | Each of these steps keeps the invariant behind it |
| LexicalIndex.LoadAgrees | backend/src/rag_enterprise/retrieval/lexical_index.py:89-141 | One unfiltered load returns the index of the current rows and keeps the invariant: a cached corpus contains the current one as a subsequence, or its count is not the current one |
| LexicalIndex.FilteredLoadFresh | backend/src/rag_enterprise/retrieval/lexical_index.py:79-141 | A filtered load keeps the invariant, its count noted when it is partial |
| LexicalIndex.SideFileRoundTrip | backend/src/rag_enterprise/retrieval/lexical_index.py:194-256 | Reading the written side file rebuilds the same documents |
| LexicalIndex.ColdStartFresh | backend/src/rag_enterprise/retrieval/lexical_index.py:189-191 | A new process without side files satisfies the invariant whatever rows the database holds |
| LexicalIndex.RestartFresh | backend/src/rag_enterprise/retrieval/lexical_index.py:189-191 | Losing the process cache keeps the invariant |
| LexicalIndex.SubsequenceLength | backend/src/rag_enterprise/retrieval/lexical_index.py:79-86 | A corpus that contains another as a subsequence and has equally many rows is equal to it |
| LexicalIndex.LexicalIndexStore.LoadIndex | backend/src/rag_enterprise/retrieval/lexical_index.py:89-141 | Cache, side file and result after a load, for every store, filter and time |
| LexicalIndex.LexicalIndexStore.Persist | backend/src/rag_enterprise/retrieval/lexical_index.py:144-186 | The side file holds the current rows and the scope's cache entries are gone, all others untouched |
| LexicalIndex.LexicalIndexStore.ReadSideFile | backend/src/rag_enterprise/retrieval/lexical_index.py:219-256 | A missing, unreadable, miscounted or incomplete file reads as none |
| LexicalIndex.DocsLoop | backend/src/rag_enterprise/retrieval/lexical_index.py:233-256 | The loop skips malformed items and tokenises those without tokens |
| LexicalIndex.HeadingsAreIndexed | backend/src/rag_enterprise/retrieval/lexical_index.py:52-76 | The index holds the rows in order, each with the tokens of its stripped heading, if any, on a line before its text |
| LexicalIndex.FilteredLoadAgreesExactlyWhen | backend/src/rag_enterprise/retrieval/lexical_index.py:79-141 | A filtered load is right exactly when no live entry has its row count or that entry was built for the same rows |
| LexicalIndex.FilteredLoadsCollide | backend/src/rag_enterprise/retrieval/lexical_index.py:79-86 | Two filtered loads of equal size: the second returns the first one's rows |
| LexicalIndex.RemovalAfterFilteredLoad | backend/src/rag_enterprise/retrieval/lexical_index.py:79-141 | When a removal leaves as many rows as a filtered load just selected, the next unfiltered load is right exactly when they are the same rows |
| LexicalIndex.FilteredLoadSpoilsUnfiltered | backend/src/rag_enterprise/retrieval/lexical_index.py:79-141 | Load b alone, remove b: the next unfiltered load returns b instead of a |
| LexicalIndex.UnpersistedReplacementIsMissed | backend/src/rag_enterprise/retrieval/lexical_index.py:79-141 | Replacing a row without persisting leaves the old index in place |
| IndexedCorpus.CorpusIsSorted | backend/src/rag_enterprise/indexing/repositories/embedding.py:146-180 | The corpus lists the joined rows by document, number and chunk, each once, without ties |
| IndexedCorpus.OnlyCompletionAdds | backend/src/rag_enterprise/indexing/repositories/embedding.py:146-180 | Every committed step other than a finished attempt leaves a subsequence of the corpus |
| IndexedCorpus.LoadsSeeTheDatabase | backend/src/rag_enterprise/retrieval/lexical_index.py:89-186 | Over every run of indexing commits, loads and restarts, under the same condition on partial loads, every unfiltered load returns the index of exactly the rows the database joins at that moment |
| Hybrid.ReciprocalRankFusion | backend/src/rag_enterprise/retrieval/hybrid.py:65-76 | Every found id once with its total score, best first, ties by id |
| Hybrid.FuseDenseAndBm25 | backend/src/rag_enterprise/retrieval/hybrid.py:137-170 | The fused ids up to the limit, without repeats, and the score of every found id |
| Hybrid.ConsensusFirst | backend/src/rag_enterprise/retrieval/hybrid.py:11-13 | With repeat-free lists of at most k + 1 ids, an id of both channels precedes every id of one |
| Hybrid.ServicePoolsAreShort | backend/src/rag_enterprise/retrieval/service.py:199-216 | The service's pools of 30 satisfy that bound for k = 60 |
| Hybrid.ConsensusBoundIsSharp | backend/src/rag_enterprise/retrieval/hybrid.py:65-76 | For every k there are two lists of k + 2 ids in whose fusion an id of one list precedes an id of both |
| Hybrid.UnanimousOrder | backend/src/rag_enterprise/retrieval/hybrid.py:65-76 | An id ahead of another in every list that holds the other precedes it |
| Hybrid.FusionIgnoresListOrder | backend/src/rag_enterprise/retrieval/hybrid.py:65-76 | The fusion does not depend on the order of the lists |
| Bm25.BM25Index.constructor | backend/src/rag_enterprise/retrieval/bm25.py:89-131 | Segments, lengths and document frequencies are those of the expanded corpus |
| Bm25.BM25Index.Search | backend/src/rag_enterprise/retrieval/bm25.py:145-164 | Each chunk with a positive segment score once, with its best one, in (-score, id) order, cut to top_k; which chunk comes first, `Bm25Ranking.RarerComesFirst` states |
| Bm25.BM25Index.ScoreDocument | backend/src/rag_enterprise/retrieval/bm25.py:166-185 | The loops compute the sum over query tokens of idf times saturated frequency; `Bm25Ranking` states what that rewards |
| Bm25.BM25Index.FoundIffShares | backend/src/rag_enterprise/retrieval/bm25.py:145-185 | With room for every match a chunk is found exactly when one of its segments shares a token with the query |
| Bm25.PositiveIffShares | backend/src/rag_enterprise/retrieval/bm25.py:166-185 | A score is positive exactly when the segment shares a token with the query |
| Bm25.IdfPositive | backend/src/rag_enterprise/retrieval/bm25.py:179-180 | The counted document frequency never exceeds the corpus size, so every idf is positive |
| Bm25.HitsAreDistinct | backend/src/rag_enterprise/retrieval/bm25.py:145-164 | No chunk appears twice among the hits |
| Bm25.ExpandAll | backend/src/rag_enterprise/retrieval/bm25.py:96-120 | The expansion loop adds each FAQ segment of each document, in order |
| Bm25.CountDocuments | backend/src/rag_enterprise/retrieval/bm25.py:128-131 | The frequency loop counts each document once per token |
| Bm25Ranking.RarerWeighsMore | backend/src/rag_enterprise/retrieval/bm25.py:179-180 | With a strictly rising logarithm, a token in fewer documents has a strictly larger idf |
| Bm25Ranking.IdfIsOneQuotient | backend/src/rag_enterprise/retrieval/bm25.py:180 | The idf is the logarithm of (size + 1) / (df + 0.5) |
| Bm25Ranking.RarerTokenAddsMore | backend/src/rag_enterprise/retrieval/bm25.py:166-185 | With equal length and equally many occurrences, the token in fewer documents adds strictly more |
| Bm25Ranking.MoreOccurrencesAddMore | backend/src/rag_enterprise/retrieval/bm25.py:181-184 | For k1 > 0, more occurrences at equal length add strictly more, but less than k1 + 1 times the idf |
| Bm25Ranking.LongerGetsLess | backend/src/rag_enterprise/retrieval/bm25.py:181-184 | For k1, b > 0 and equally many occurrences a longer document gets strictly less |
| Bm25Ranking.AverageDocumentAddsIdf | backend/src/rag_enterprise/retrieval/bm25.py:181-184 | One occurrence in a document of average length adds exactly the idf |
| Bm25Ranking.EqualLengthsAddIdf | backend/src/rag_enterprise/retrieval/bm25.py:126-184 | Where all segments are equally long, one occurrence adds exactly the idf |
| Bm25Ranking.FrequenciesCount | backend/src/rag_enterprise/retrieval/bm25.py:128-172 | The document frequency is the number of entries that hold the token, the term frequency its multiplicity |
| Bm25Ranking.RarerScoresHigher | backend/src/rag_enterprise/retrieval/bm25.py:166-185 | Of two documents of equal length that agree on all other query tokens, the one with the rarer token scores strictly higher |
| Bm25Ranking.HigherComesFirst | backend/src/rag_enterprise/retrieval/bm25.py:145-164 | A chunk with a segment that scores above a hit is itself a hit, before it |
| Bm25Ranking.RarerComesFirst | backend/src/rag_enterprise/retrieval/bm25.py:145-185 | In the result of a search, a chunk that matches the rarer token comes before every chunk whose segments are otherwise equal and match the more frequent one |
| Bm25Ranking.IndexHoldsSegments | backend/src/rag_enterprise/retrieval/bm25.py:96-120 | The indexed entries are exactly the segments with tokens of each heading and text, and a chunk without any is indexed by its own tokens |
| Ranking.RankDenseHits | backend/src/rag_enterprise/retrieval/ranking.py:148-195 | The returned chunks and breakdowns are the sorted, truncated calibration |
| Ranking.AdjustmentIsBounded | backend/src/rag_enterprise/retrieval/ranking.py:19-21 | Calibration adds at most 0.18 and takes at most 0.10 |
| Ranking.LeadOf28Wins | backend/src/rag_enterprise/retrieval/ranking.py:148-195 | A chunk whose incoming score leads by 0.28 is never ranked below |
| Ranking.LeadUnder28CanLose | backend/src/rag_enterprise/retrieval/ranking.py:255-262 | For every smaller lead there are signals that overturn it |
| Ranking.RawLeadWins | backend/src/rag_enterprise/retrieval/hybrid.py:173-184 | A raw cosine lead of 7/9 wins through blending and calibration whatever the lexical signals |
| Ranking.BlendKeepsLead | backend/src/rag_enterprise/retrieval/hybrid.py:173-184 | Blending leaves 0.28 of a raw lead of 7/9 |
| Ranking.RerankedInUnit | backend/src/rag_enterprise/retrieval/ranking.py:260-262 | Returned scores lie in [0, 1] |
| Ranking.RankingForgetsOrder | backend/src/rag_enterprise/retrieval/ranking.py:170-195 | For distinct ids the ranking is the same for every permutation of the candidates |
| Ranking.AdjustedIsMonotone | backend/src/rag_enterprise/retrieval/ranking.py:198-262 | Better signals never rank a chunk lower |
| Ranking.SignsAreWorth | backend/src/rag_enterprise/retrieval/ranking.py:205-262 | What each full sign adds or takes on its own, and where the caps cut |
| Ranking.BlendIsMonotone | backend/src/rag_enterprise/retrieval/hybrid.py:173-184 | A higher cosine and a higher fusion score both blend strictly higher, the cosine for 0.72 and the best fusion score for 0.28 |
| IndexingBatches.IterBatches | backend/src/rag_enterprise/indexing/service.py:403-417 | The loop computes the greedy batches |
| IndexingBatches.BatchesSplit | backend/src/rag_enterprise/indexing/service.py:403-417 | The batches concatenate to the input; each is non-empty and within size and character limits unless it is a single chunk |
| IndexingBatches.GreedyIsOptimal | backend/src/rag_enterprise/indexing/service.py:403-417 | No in-order split within the limits uses fewer batches |
| IndexingBatches.FewerChunksFewerBatches | backend/src/rag_enterprise/indexing/service.py:403-417 | Dropping chunks from the front never costs a batch |
| EmbeddingBisection.Provider.EmbedTexts | backend/src/rag_enterprise/indexing/service.py:383-401 | Every provider failure becomes a timeout or an unavailable model |
| EmbeddingBisection.Provider.EmbedSingleWithRetries | backend/src/rag_enterprise/indexing/service.py:370-381 | Three calls at most, the first answer or the last error |
| EmbeddingBisection.Provider.EmbedBatchWithSplit | backend/src/rag_enterprise/indexing/service.py:357-368 | The recursive halving, call by call |
| EmbeddingBisection.SplitPreservesMeaning | backend/src/rag_enterprise/indexing/service.py:357-381 | On success the vectors are those one undivided call would have given, in chunk order |
| EmbeddingBisection.SplitFailsExactlyWhen | backend/src/rag_enterprise/indexing/service.py:357-381 | A non-empty batch fails exactly when its last four calls in a row failed, and fewer than five calls are made per text |
| EmbeddingBisection.ThreeOutagesAreSurvived | backend/src/rag_enterprise/indexing/service.py:357-381 | A provider that never fails four times running embeds every non-empty batch |
| IndexingDatabase.PersistKeeps | backend/src/rag_enterprise/indexing/service.py:318-353 | Storing a vector keeps one live vector per chunk and model and rising generations, and leaves a match |
| IndexingDatabase.PersistAllKeeps | backend/src/rag_enterprise/indexing/service.py:312-355 | Storing all pending vectors does so for each of them |
| IndexingDatabase.PersistAllFrame | backend/src/rag_enterprise/indexing/repositories/embedding.py:97-110 | Storing vectors leaves the matches of every other chunk |
| IndexingDatabase.PersistAllOwned | backend/src/rag_enterprise/indexing/service.py:326-348 | Every stored vector carries the version of its chunk |
| IndexingDatabase.MaxGenerationBounds | backend/src/rag_enterprise/indexing/repositories/embedding.py:79-95 | The next generation exceeds every stored one of the chunk and model |
| IndexingRuns.ListMembers | backend/src/rag_enterprise/indexing/repositories/chunk.py:23-31 | The chunks to index are exactly the version's chunks that are not deleted, each once |
| IndexingRuns.ListInOrder | backend/src/rag_enterprise/indexing/repositories/chunk.py:23-31 | They come by their sequence numbers |
| IndexingRuns.StoredCovers | backend/src/rag_enterprise/indexing/service.py:197-233 | An attempt that stored its pending chunks has a match for every chunk of the version and took none from others |
| IndexingRuns.CompletedKeeps | backend/src/rag_enterprise/indexing/service.py:243-248 | A committed attempt keeps all invariants and makes each chunk of its version current |
| IndexingRuns.RechunkKeeps | backend/src/rag_enterprise/chunking/service.py:87-130 | Replacing a version's chunks keeps all invariants |
| IndexingRuns.RemovalKeeps | backend/src/rag_enterprise/indexing/repositories/embedding.py:366-371 | Deleting a document keeps all invariants |
| IndexingRuns.StepKeeps | backend/src/rag_enterprise/indexing/service.py:63-463 | Every committed step keeps all invariants |
| IndexingRuns.RunsStayConsistent | backend/src/rag_enterprise/indexing/service.py:63-463 | Over every run: one live vector per chunk and model, rising generations, one indexed version per document, and a live vector of its own content for every chunk of an indexed version |
| IndexingRuns.SearchableExactlyOnce | backend/src/rag_enterprise/indexing/repositories/embedding.py:241-268 | In every reachable database a chunk of an indexed version is joined through exactly one live vector |
| IndexingVectors.SearchedByOwnText | backend/src/rag_enterprise/indexing/repositories/embedding.py:241-268 | In every reachable database each chunk of an indexed version, unless deleted, has exactly one live vector, and that is the embedding of its own text with its own hash and version |
| IndexingVectors.RunsKeepTruth | backend/src/rag_enterprise/indexing/service.py:310-348 | Over every run every stored vector, live or not, is that of the text of its chunk |
| IndexingVectors.StepKeepsTruth | backend/src/rag_enterprise/indexing/service.py:310-348 | Each committed step keeps that |
| IndexingRuns.RefusedVersionCanReturn | backend/src/rag_enterprise/indexing/service.py:160-169 | A refused superseded version can be indexed afterwards and retires the newer one |
| IndexingRuns.SupersededExactlyWhile | backend/src/rag_enterprise/indexing/service.py:419-463 | A superseded version stays superseded throughout a run exactly when the run holds no failure, no processing move and no rechunking of it and no removal of its document |
| IndexingServices.IndexingService.IndexOnce | backend/src/rag_enterprise/indexing/service.py:135-270 | An attempt either commits the whole finished state, reports exact counts, or leaves no trace but a failed status for an empty version; a missing version or one in a status no attempt starts from is refused without change |
| IndexingServices.IndexingService.EmbedAndPersistBatch | backend/src/rag_enterprise/indexing/service.py:300-355 | A stored batch is its chunks' vectors with the next generations, statuses set |
| IndexingServices.IndexingService.EmbedPending | backend/src/rag_enterprise/indexing/service.py:211-220 | All batches together store the pending chunks in order |
| IndexingServices.IndexingService.SkipMatched | backend/src/rag_enterprise/indexing/service.py:191-209 | The pending chunks are those without a match; the rest are marked and counted |
| IndexingServices.IndexingService.SupersedePriorVersions | backend/src/rag_enterprise/indexing/service.py:419-449 | Each sibling that is indexed, chunked or indexing becomes superseded, with its undeleted chunks, and its vectors stale; every other version is as before |
| IndexingOutcomes.FinishedRetires | backend/src/rag_enterprise/indexing/service.py:419-449 | After a finished attempt every sibling that was indexed, chunked or indexing is superseded, its undeleted chunks too, and none of its vectors is live |
| IndexingOutcomes.FinishedIsAlone | backend/src/rag_enterprise/indexing/service.py:135-169 | After a finished attempt no sibling is in a status an attempt starts from, unless it has failed |
| IndexingOutcomes.CanCompleteExactlyWhen | backend/src/rag_enterprise/indexing/service.py:150-180 | An attempt can finish exactly on a chunked, indexing or failed version, or an indexed one when forced, that has a chunk which is not deleted |
| IndexingOutcomes.FinishedLeaves | backend/src/rag_enterprise/indexing/service.py:419-449 | Every other version, in whatever other status or of whatever other document, keeps its status, chunks and vectors |
| IndexingOutcomes.FinishedEmbeds | backend/src/rag_enterprise/indexing/service.py:300-355 | Each chunk without a match, or each when forced, gets a live vector of its own text and hash, with a generation above all earlier ones |
| IndexingOutcomes.FinishedSkips | backend/src/rag_enterprise/indexing/service.py:191-209 | Unless forced, an attempt adds no vector for a chunk that has a live one with the hash of its content |
| IndexingOutcomes.StoredInOrder | backend/src/rag_enterprise/indexing/service.py:310-355 | The k-th new row is the vector of the k-th pending chunk |
| IndexingServices.IndexingService.RunWithRetries | backend/src/rag_enterprise/indexing/service.py:102-133 | A return is a finished attempt on the rows before the call; a raise leaves an existing version failed with its code; all invariants are kept |
| IndexingServices.IndexingService.MarkFailed | backend/src/rag_enterprise/indexing/service.py:451-463 | The version is failed with the code; a missing one is left alone |
| IndexingServices.IndexingService.IndexDocumentVersion | backend/src/rag_enterprise/indexing/service.py:63-68 | Indexing without force; a superseded version always raises and is left failed |
| IndexingServices.IndexingService.ReindexDocumentVersion | backend/src/rag_enterprise/indexing/service.py:70-75 | Indexing with force; a superseded version always raises and is left failed |
| IndexingServices.IndexingService.ResumeFailedIndexing | backend/src/rag_enterprise/indexing/service.py:77-100 | Refused without change outside three statuses, which are failed, indexing and chunked; else indexing from the reset version |
| IndexingServices.SuccessIndexesEverything | backend/src/rag_enterprise/indexing/service.py:243-248 | After a return the version is the only indexed one of its document and each of its chunks has a live vector of its own content |
| ContextDedupe.DedupeChunks | backend/src/rag_enterprise/generation/context_assembly.py:125-143 | The loops compute the kept and the removed chunks |
| ContextDedupe.DedupeConserves | backend/src/rag_enterprise/generation/context_assembly.py:125-143 | Kept plus removed is exactly the input |
| ContextDedupe.KeptAreDistinct | backend/src/rag_enterprise/generation/context_assembly.py:125-143 | No two kept chunks are near-duplicates |
| ContextDedupe.RemovedExactlyWhen | backend/src/rag_enterprise/generation/context_assembly.py:125-143 | A chunk is removed exactly when it duplicates a chunk kept before it |
| ContextDedupe.NearDuplicateIsSymmetric | backend/src/rag_enterprise/generation/context_assembly.py:249-273 | The near-duplicate test is symmetric although it orders its texts by length |
| ContextDedupe.NearDuplicateExactlyWhen | backend/src/rag_enterprise/generation/context_assembly.py:249-273 | Two texts are near-duplicates exactly when, folded, neither is blank and they are equal, or one holds the other and is at most 100/85 as long, or 92 percent of their words are in both |
| ContextDedupe.FirstIsKept | backend/src/rag_enterprise/generation/context_assembly.py:125-143 | The first, best-scored chunk is always kept |
| ContextRuns.GroupByVersion | backend/src/rag_enterprise/generation/context_assembly.py:171-173 | The dictionary holds each version's chunks, keys in order of first appearance |
| ContextRuns.MergeChains | backend/src/rag_enterprise/generation/context_assembly.py:175-191 | The loops compute the runs of each sorted group |
| ContextRuns.RunsConcat | backend/src/rag_enterprise/generation/context_assembly.py:175-191 | The runs of a group concatenate to the group |
| ContextRuns.RunsAreSpaced | backend/src/rag_enterprise/generation/context_assembly.py:204-208 | Runs are consecutive inside and leave a gap between each other |
| ContextChains.ChainsAreChains | backend/src/rag_enterprise/generation/context_assembly.py:165-208 | Every chain holds consecutive chunks of one version, even where places repeat |
| ContextChains.ChainsPartition | backend/src/rag_enterprise/generation/context_assembly.py:165-191 | The chains hold every chunk exactly as often as the input |
| ContextChains.ChainsAreMaximal | backend/src/rag_enterprise/generation/context_assembly.py:165-208 | No two chains of a version could be merged |
| ContextAssembly.MakeBlock | backend/src/rag_enterprise/generation/context_assembly.py:215-232 | The loop computes a block's primary chunk and merged text |
| ContextAssembly.AssembleContext | backend/src/rag_enterprise/generation/context_assembly.py:106-122 | The whole assembly: dedupe, order, merge |
| ContextFaithful.AssemblyConserves | backend/src/rag_enterprise/generation/context_assembly.py:106-201 | The chunks of the blocks plus the removed ones are the input; each block holds consecutive chunks of one version, blocks come best score first, and they are maximal when no two chunks share a place |
| ContextFaithful.BestBlockFirst | backend/src/rag_enterprise/generation/context_assembly.py:192-201 | No chunk of a later block outscores the primary of an earlier one |
| ContextFaithful.BlocksInOrder | backend/src/rag_enterprise/generation/context_assembly.py:192-201 | The whole order of the blocks: primary score, then folded heading, version, first chunk's place and primary id |
| ContextFaithful.PrimaryIsBest | backend/src/rag_enterprise/generation/context_assembly.py:215-218 | The primary chunk has the best score; of those with it the lowest index, and of these the greatest id |
| ContextFaithful.HeadingIsShared | backend/src/rag_enterprise/generation/context_assembly.py:221-226 | A block's heading is that of its first chunk with one when its chunks agree up to case and outer blanks, and the primary's when they differ |
| ContextFaithful.BlockHoldsItsChunks | backend/src/rag_enterprise/generation/context_assembly.py:215-246 | A block's text contains the stripped text of each of its chunks |
| NeighbourText.JoinAdjacent | backend/src/rag_enterprise/generation/context_assembly.py:235-246 | The search loop finds the join over the largest overlap |
| NeighbourText.JoinHolds | backend/src/rag_enterprise/generation/context_assembly.py:235-246 | A join starts with the left text and ends with the right one |
| NeighbourText.JoinIsShortest | backend/src/rag_enterprise/generation/context_assembly.py:235-246 | When they overlap it is the one shortest text that does; otherwise it is the newline longer than any could be |
| NeighbourText.MergedHoldsAll | backend/src/rag_enterprise/generation/context_assembly.py:218-221 | The text of the first chunks is a prefix of the whole that ends with each chunk's text in turn |
| PromptBuilders.ClampTwice | backend/src/rag_enterprise/generation/prompt_builder.py:49-56 | Clamping keeps at most ten non-blank user and assistant turns, and clamping again changes nothing |
| PromptBuilders.ClampKeepsLatest | backend/src/rag_enterprise/generation/prompt_builder.py:49-56 | Turn by turn: a user or assistant turn with content comes last and pushes out the oldest beyond the configured limit, taken between 5 and 10; any other turn changes nothing |
| PromptBuilders.Build | backend/src/rag_enterprise/generation/prompt_builder.py:58-103 | The loop terminates and returns the prompt of the selection found; what stands in it, `PromptContents.BuiltPromptSays` and `PromptContents.KeptBlockIsShown` state |
| PromptBuilders.FitsMonotone | backend/src/rag_enterprise/generation/prompt_builder.py:105-172 | Dropping turns from the front or blocks from the end never makes a prompt longer |
| PromptBuilders.TrimKeepsMost | backend/src/rag_enterprise/generation/prompt_builder.py:72-103 | No fitting choice of leading blocks and latest turns has more blocks, or all blocks and more history, than the one kept; blocks go only when all history is gone |
| PromptBuilders.TooLargeExactlyWhen | backend/src/rag_enterprise/generation/prompt_builder.py:96-103 | It raises exactly when the best block alone, without history, is too large |
| PromptParts.ComposeUserPrompt | backend/src/rag_enterprise/generation/prompt_builder.py:105-172 | The loops write the specified parts, markers and chunks; what the parts say, `PromptContents.SelectionIsSaid` states |
| PromptParts.WriteEvidence | backend/src/rag_enterprise/generation/prompt_builder.py:127-166 | The evidence loop: headings, primaries with excerpts, secondaries; `PromptContents.EvidenceLaid` states the entries |
| PromptContents.BuiltPromptSays | backend/src/rag_enterprise/generation/prompt_builder.py:58-172 | Every built prompt holds, one after the other without overlap, the kept turns with role and stripped content, one evidence entry per marker in ascending order, each opening with its marker and the ids of the chunk used for it, and the stripped question; kept turns are the latest, kept blocks the first |
| PromptContents.KeptBlockIsShown | backend/src/rag_enterprise/generation/prompt_builder.py:132-148 | For each kept block, after its primary chunk's marker and before the next entry, stand the first `excerpt_chars * 4` characters of its stripped merged text |
| PromptContents.SelectionIsSaid | backend/src/rag_enterprise/generation/prompt_builder.py:105-172 | The same of the prompt for any choice of blocks and turns |
| PromptContents.EvidenceLaid | backend/src/rag_enterprise/generation/prompt_builder.py:127-166 | The evidence parts hold exactly these entries in order: a block's primary with its text, then a reference for each further chunk |
| PromptContents.ChunkTextIsEntry | backend/src/rag_enterprise/generation/templates/v1.py:54-57 | A written entry is marker, chunk id, document id, heading and text, without a trailing blank |
| PromptContents.EntriesOpen | backend/src/rag_enterprise/generation/prompt_builder.py:132-166 | Entry i opens with marker i and the ids of the i-th chunk used |
| PromptParts.MarkersNumberChunks | backend/src/rag_enterprise/generation/prompt_builder.py:113-166 | The markers are exactly 1 to n and marker i names the i-th chunk used |
| DecimalText.StrIsInjective | backend/src/rag_enterprise/generation/prompt_builder.py:135-137 | Different marker numbers are written differently |
| PromptGrounding.DraftUses | backend/src/rag_enterprise/generation/prompt_builder.py:127-166 | The prompt uses exactly the chunks of its blocks, each once |
| PromptGrounding.PromptIsGrounded | backend/src/rag_enterprise/generation/prompt_builder.py:58-103 | A built prompt fits, uses only chunks it was given, each once and at least one, and numbers them |
| Citations.ExtractMarkers | backend/src/rag_enterprise/generation/citations.py:78-87 | The loop returns the markers in order of first appearance |
| Citations.MarkersAreOccurrences | backend/src/rag_enterprise/generation/citations.py:78-87 | The extracted markers are exactly those written [digits] somewhere in the text, each once |
| Citations.ValidateCitations | backend/src/rag_enterprise/generation/citations.py:118-153 | One citation for each marker that resolves, or none at all |
| Citations.CitationsFollow | backend/src/rag_enterprise/generation/citations.py:127-150 | Citations follow the markers' order, with ranks that count all markers |
| Citations.CitationsAreGrounded | backend/src/rag_enterprise/generation/citations.py:118-153 | Every known marker of the answer is cited, each citation is of its own marker's chunk, and no chunk is cited twice |
| Citations.SalvageIsGrounded | backend/src/rag_enterprise/generation/citations.py:156-192 | A salvaged citation is of the first chunk of the prompt under its own marker |
| EvidenceSelection.SelectEvidence | backend/src/rag_enterprise/generation/evidence_selection.py:241-391 | The loops compute the specified selection |
| EvidenceSelection.FallbackLoop | backend/src/rag_enterprise/generation/evidence_selection.py:341-346 | The fallback by score and rank is the first of the best scores |
| EvidenceProperties.SelectionPartitions | backend/src/rag_enterprise/generation/evidence_selection.py:328-391 | Primary, supplementary and discarded chunks are the input, each chunk in one of the three and once, within the caps |
| EvidenceProperties.EmptyExactlyWhen | backend/src/rag_enterprise/generation/evidence_selection.py:328-358 | The prompt set is empty exactly when every final score is below 0.18 |
| EvidenceProperties.NoDroppedPrimaryOutscores | backend/src/rag_enterprise/generation/evidence_selection.py:328-353 | No primary hit dropped by the cap outscores a kept one |
| EvidenceProperties.KeptScoresHaveFloors | backend/src/rag_enterprise/generation/evidence_selection.py:411-450 | Kept primaries score at least 0.18 and kept supplementaries at least 0.28 |
| EvidenceProperties.AnchorStaysTop | backend/src/rag_enterprise/generation/evidence_selection.py:310-326 | An anchor with a positive first score strictly outscores all others after the proximity pass |
| EvidenceProperties.AnchorOfRankedIsPositive | backend/src/rag_enterprise/generation/evidence_selection.py:268-311 | For hits that come best score first the anchor's first score is positive |
| EvidenceProperties.AnchorHoldsExactlyWhen | backend/src/rag_enterprise/generation/evidence_selection.py:310-326 | No candidate ends above the anchor exactly when the anchor's first score is positive or proximity to the first candidate lifts none above both zero and what the first one gets |
| EvidenceProperties.AnchorCanFall | backend/src/rag_enterprise/generation/evidence_selection.py:310-326 | Two neighbouring hits scoring zero of which the anchor ends second |
| EvidenceProperties.ScoresAreUnits | backend/src/rag_enterprise/generation/evidence_selection.py:394-408 | Final scores lie in [0, 1] |
| EvidenceProperties.LabelsExactlyWhen | backend/src/rag_enterprise/generation/evidence_selection.py:411-450 | The label of a candidate as a condition on its final score and its direct matches |
| EvidenceProperties.PrimariesExactlyWhen | backend/src/rag_enterprise/generation/evidence_selection.py:331-353 | The primary evidence is exactly the candidates that deserve it, the best of them when there are more than the cap, or the best candidate of all from 0.18 on when none does |
| EvidenceProperties.SupportersExactlyWhen | backend/src/rag_enterprise/generation/evidence_selection.py:335-357 | The supporting evidence is exactly the other candidates from 0.28 on, the best of them when there are more than the cap |
| EvidenceProperties.ScoreIsMonotone | backend/src/rag_enterprise/generation/evidence_selection.py:394-408 | Stronger signals score no less, and strictly more unless cut off at zero |
| EvidenceProperties.SharesOfScore | backend/src/rag_enterprise/generation/evidence_selection.py:394-408 | All signals together score 1, each its share, and a distractor costs 0.12 |
| GenerationServices.GenerationService.Generate | backend/src/rag_enterprise/generation/service.py:91-324 | The result is the decision for the first usable reply; every returned result, and nothing else, adds its question and answer; the model is called only with a prompt |
| GenerationServices.GenerationService.JudgeReply | backend/src/rag_enterprise/generation/service.py:241-312 | The early returns after the model's reply give the specified result |
| GenerationServices.GenerationService.CompleteWithRetries | backend/src/rag_enterprise/generation/service.py:326-353 | The first reply with content within the attempts, else the last failure |
| GenerationServices.GenerationService.PersistTurn | backend/src/rag_enterprise/generation/service.py:382-442 | Question and answer take the next two sequence numbers |
| GenerationGrounding.GroundedForEveryReply | backend/src/rag_enterprise/generation/service.py:160-312 | For every possible reply a completed result has citations, all of distinct chunks of this request's search results under their own markers, its answer shows a marker, and failed validation is never its own reason |
| GenerationGrounding.CitationsAlwaysFound | backend/src/rag_enterprise/generation/service.py:272-297 | The reply always gets grounded citations, so the validation failure branch is dead |
| GenerationGrounding.FinalAnswerHasMarker | backend/src/rag_enterprise/generation/service.py:298-301 | The final answer shows a marker; one is appended exactly when it had none |
| GenerationGrounding.CitationsShownExactlyWhen | backend/src/rag_enterprise/generation/service.py:272-301 | The answer shows every citation's marker exactly when some marker of the reply resolves or it has none |
| GenerationGrounding.EvidenceIsFromResults | backend/src/rag_enterprise/generation/service.py:160-165 | The evidence is some of the search results, each at most once |
| GenerationGrounding.MarkersOfStrip | backend/src/rag_enterprise/generation/service.py:298-301 | Stripping an answer takes away no marker |
| GenerationOutcomes.StatusExactlyWhen | backend/src/rag_enterprise/generation/service.py:160-312 | A request is completed exactly when some result has the demanded score, there is evidence, the prompt fits and the reply is no refusal and says something beyond an echo; it fails exactly when the prompt is too large or there is no reply; the answer begins with the reply's own words; anything else abstains with the abstention message and no citations |
| GenerationOutcomes.JudgedStatus | backend/src/rag_enterprise/generation/service.py:241-312 | The same of the judgement of one reply |
| GenerationOutcomes.EvidenceExactlyWhen | backend/src/rag_enterprise/generation/service.py:160-180 | With evidence selection there is evidence exactly when some final score reaches 0.18, without it when there are results |
| GenerationOutcomes.AnswerBegins | backend/src/rag_enterprise/generation/service.py:298-301 | The final answer begins with the whole cleaned reply |
| GenerationOutcomes.FirstReplyIsFirst | backend/src/rag_enterprise/generation/service.py:326-353 | The reply used is the first with content among the attempts allowed, or the failure of the last of them |

## Left out

- Floating-point rounding: scores, ratios and thresholds are exact reals.
- Unicode: NFC, letter and format classes, casefolding and the digit class are parameters with the laws the proofs need (`Normalization.Tables`, `Citations.IsDigitClass`; for NFC `NormalizationComposition.IsNfc`: idempotent, computed apart on both sides of a starter, inert on spaces, joiners and the repeatable marks, and bringing nothing into a word that a later step rewrites); line classification, FAQ segmentation, tokenisation and the text signals of ranking and evidence selection are arbitrary functions.
- Ids are numbers: canonical UUID strings sort as the numbers they denote. Writing them into a prompt is a parameter.
- The model's judgement of a reply (`is_model_abstention`, `strip_question_echo`, `is_substantive_answer`) and the choice of language are arbitrary functions.
- SplitterPacking.ChunksArePacked: of documents whose semantic units all fit the limit. A longer unit is cut where `SplitterSpans.CutIsNatural` says, and the units around it are packed by `SplitterDocument.MergeFrom`, for which order, bounds and cover are proved.
- Bm25Ranking.RarerWeighsMore: the logarithm is a parameter, positive above 1 (`Bm25.LnPositiveAboveOne`) and strictly rising (`Bm25Ranking.LnRises`) where a statement needs it.
- The splitter requires a limit of at least 1 and a non-negative overlap (`SplitterSpans.Config.Valid`); the declared `overlap_chars` of a chunk is a diagnostic and is dropped.
- EvidenceSelection.SelectEvidence: the candidates are values in a list that the loops update in place; the aliasing of the program's mutable records, the reasons, the conflict flag and the `scored` diagnostics are not modelled.
- LexicalIndex.EveryLoadAgrees: rows are published together with a persist, as the indexing service does after its commit, and a knowledge base belongs to one organization, because the side file's path does not hold the organization. What filtered loads return is not claimed beyond `LexicalIndex.FilteredLoadAgreesExactlyWhen`; removals that leave as many rows as a partial load selected are excluded, since they make the claim false.
- IndexedCorpus.LoadsSeeTheDatabase: one knowledge base with its documents all active; the process that indexes is the one that loads, so its persist reaches the cache.
- IndexingServices.IndexingService.RunWithRetries: storage faults are nondeterministic choices; marking a version as failed is taken to succeed; the commit and the best-effort lexical persist that follows are one step; delays and timeouts are dropped.
- IndexingServices.IndexingService.IndexOnce: chunk ids are unique in the database, the table's primary key.
- IndexingRuns.RunsStayConsistent: the document services appear as steps that create versions, move their status, replace chunks and delete documents; concurrent attempts on one database are not interleaved below the level of commits.
- EmbeddingBisection.SplitPreservesMeaning: the provider is assumed pointwise when it answers, with one vector per text.
- ContextAssembly.AssembleContext: casefolding and whitespace folding are parameters; token estimates and character counts are dropped.
- ContextFaithful.AssemblyConserves: maximal runs need the unique (version, index) places that the chunk table guarantees.
- GenerationServices.GenerationService.Generate: one conversation; creating it, tenant scopes, warnings and model keys are dropped, the result count is the number of results, and search results are an input with distinct ids where grounding needs them.
- `apply_persian_bm25_boosts`, reason annotation in ranking, prompt diagnostics and the conflict detector: arithmetic and labels without an invariant of their own.
- HTTP routes, settings, health probes, migrations, the frontend, the parsers, the model clients, and the evaluation tools.
