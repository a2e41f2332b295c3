/** What stands in a built prompt: the turns, every evidence entry under its marker, and the question, in this order. */
module PromptContents {
  import opened ContextAssembly
  import opened ContextDedupe
  import opened DecimalText
  import opened PromptBuilders
  import opened PromptGrounding
  import opened PromptParts
  import opened PythonText
  import opened RetrievalModels

  /** `part` is written at position `at` of `text`. */
  ghost predicate StandsAt(text: string, at: nat, part: string) {
    at + |part| <= |text| && text[at..at + |part|] == part
  }

  // ----------------------------------------------------- a part in its place

  /** Where part `k` begins once the parts are joined by newlines. */
  function Offset(parts: seq<string>, k: nat): nat
    requires k <= |parts|
  {
    if k == 0 then 0 else Offset(parts, k - 1) + |parts[k - 1]| + 1
  }

  lemma {:induction false} OffsetOfRest(parts: seq<string>, k: nat)
    requires 0 < k <= |parts|
    ensures Offset(parts, k) == |parts[0]| + 1 + Offset(parts[1..], k - 1)
  {
    if k > 1 {
      OffsetOfRest(parts, k - 1);
    }
  }

  lemma {:induction false} PartStands(parts: seq<string>, k: nat)
    requires k < |parts|
    ensures StandsAt(JoinLines(parts), Offset(parts, k), parts[k])
    decreases |parts|
  {
    if |parts| == 1 {
      assert parts[0][0..|parts[0]|] == parts[0];
    } else if k == 0 {
      assert JoinLines(parts)[0..|parts[0]|] == parts[0];
    } else {
      var rest := JoinLines(parts[1..]);
      PartStands(parts[1..], k - 1);
      OffsetOfRest(parts, k);
      var at, n := Offset(parts[1..], k - 1), |parts[0]| + 1;
      assert JoinLines(parts) == (parts[0] + "\n") + rest;
      Shifted(parts[0] + "\n", rest, at, parts[k]);
    }
  }

  lemma Shifted(before: string, text: string, at: nat, part: string)
    requires StandsAt(text, at, part)
    ensures StandsAt(before + text, |before| + at, part)
  {
    assert (before + text)[|before| + at..|before| + at + |part|] == text[at..at + |part|];
  }

  lemma {:induction false} OffsetsRise(parts: seq<string>, j: nat, k: nat)
    requires j < k <= |parts|
    ensures Offset(parts, j) + |parts[j]| < Offset(parts, k)
  {
    if j < k - 1 {
      OffsetsRise(parts, j, k - 1);
    }
  }

  lemma Begins(text: string, at: nat, part: string, prefix: string)
    requires StandsAt(text, at, part) && prefix <= part
    ensures StandsAt(text, at, prefix)
  {
    assert text[at..at + |prefix|] == text[at..at + |part|][..|prefix|];
  }

  // ------------------------------------------------------------- one entry

  /** The opening of evidence entry number `i`, counted from zero. */
  function Opening(t: Templates, i: nat, c: RetrievedChunk): string {
    "[" + Str(i + 1) + "] chunk_id=" + t.idText(c.chunkId) + " document_id=" + t.idText(c.documentId) + "\nheading: "
  }

  /** A whole entry; an entry without text ends at the colon. */
  function Entry(t: Templates, i: nat, c: RetrievedChunk, heading: string, text: string): string {
    Opening(t, i, c) + heading + "\ntext:" + if text == "" then "" else " " + text
  }

  lemma RStripKeeps(a: string, b: string)
    requires a != "" && !IsSpace(a[|a| - 1])
    ensures RStrip(a + b) == a + RStrip(b)
    decreases |b|
  {
    hide IsSpace;
    if b == "" {
      assert a + b == a;
    } else if IsSpace(b[|b| - 1]) {
      assert (a + b)[..|a + b| - 1] == a + b[..|b| - 1];
      RStripKeeps(a, b[..|b| - 1]);
    }
  }

  lemma RStripOne(s: string, c: char)
    requires IsSpace(c)
    ensures RStrip(s + [c]) == RStrip(s)
  {
    hide IsSpace;
    assert (s + [c])[..|s|] == s;
  }

  lemma RStripNone(s: string)
    requires s == "" || !IsSpace(s[|s| - 1])
    ensures RStrip(s) == s
  {
    hide IsSpace;
  }

  lemma RStripTail(text: string)
    requires text == "" || !IsSpace(text[|text| - 1])
    ensures RStrip(" " + text + "\n") == if text == "" then "" else " " + text
  {
    assert IsSpace('\n') && IsSpace(' ');
    hide *;
    RStripOne(" " + text, '\n');
    if text == "" {
      RStripOne("", ' ');
      RStripNone("");
      assert " " + text == "" + [' '];
    } else {
      RStripNone(" " + text);
    }
  }

  lemma {:induction false} ChunkTextIsEntry(t: Templates, i: nat, c: RetrievedChunk, heading: string, text: string)
    requires text == "" || !IsSpace(text[|text| - 1])
    ensures ChunkText(t, Marker(i), c, heading, text) == Entry(t, i, c, heading, text)
  {
    var head := Opening(t, i, c) + heading + "\ntext:";
    assert !IsSpace(':');
    hide *;
    EntryOpens(t, i, c, heading, text);
    ChunkTextIsStripped(t, i, c, heading, text);
    RStripTail(text);
    RStripKeeps(head, " " + text + "\n");
  }

  lemma EntryOpens(t: Templates, i: nat, c: RetrievedChunk, heading: string, text: string)
    ensures Entry(t, i, c, heading, text) == (Opening(t, i, c) + heading + "\ntext:") + if text == "" then "" else " " + text
  {
    hide Opening;
  }

  lemma ChunkTextIsStripped(t: Templates, i: nat, c: RetrievedChunk, heading: string, text: string)
    ensures ChunkText(t, Marker(i), c, heading, text) == RStrip((Opening(t, i, c) + heading + "\ntext:") + (" " + text + "\n"))
  {
    hide Str, RStrip;
    var id, document := t.idText(c.chunkId), t.idText(c.documentId);
    SplitBeforeText("[" + Str(i + 1) + "] chunk_id=" + id + " document_id=" + document + "\nheading: " + heading, text);
  }

  lemma SplitBeforeText(front: string, text: string)
    ensures front + "\ntext: " + text + "\n" == (front + "\ntext:") + (" " + text + "\n")
  {
    assert "\ntext: " == "\ntext:" + " ";
  }

  /** The text shown of a block: all of it up to the limit, else so much and an ellipsis. */
  function Shown(block: ContextBlock, limit: nat): string {
    var text := Strip(block.mergedText);
    if |text| <= limit then text else text[..limit] + ['\U{2026}']
  }

  lemma ShownEnds(block: ContextBlock, limit: nat)
    ensures var text := Shown(block, limit); text == "" || !IsSpace(text[|text| - 1])
    ensures Shown(block, limit) == Excerpt(Strip(block.mergedText), limit)
  {
    hide Strip;
  }

  // --------------------------------------------------------- the evidence

  function HeadingOr(heading: Option<string>, other: string): string {
    match heading
    case Some(text) => if |text| == 0 then other else text
    case None => other
  }

  /** What an entry of a further chunk says instead of repeating the text. */
  function Reference(primary: nat): string { "[included in [" + Str(primary + 1) + "]]" }

  /** The entries of the further chunks of a block whose primary entry is number `p`. */
  function References(t: Templates, block: ContextBlock, p: nat, others: seq<RetrievedChunk>): (r: seq<string>)
    ensures |r| == |others|
  {
    if others == [] then []
    else
      var n := |others| - 1;
      References(t, block, p, others[..n])
      + [Entry(t, p + 1 + n, others[n], HeadingOr(others[n].heading, HeadingOr(block.heading, "(none)")), Reference(p))]
  }

  /** All entries of a block: its primary chunk with the text, then a reference for each chunk with another id. */
  function BlockEntries(t: Templates, cfg: PromptParts.Config, block: ContextBlock, p: nat): seq<string> {
    [Entry(t, p, block.primary, HeadingOr(block.heading, "(none)"), Shown(block, cfg.excerptChars * 4))]
    + References(t, block, p, Without(block.chunks, block.primary.chunkId))
  }

  /** The evidence entries of a prompt, numbered through. */
  function Entries(t: Templates, cfg: PromptParts.Config, blocks: seq<ContextBlock>): seq<string> {
    if blocks == [] then []
    else
      var before := Entries(t, cfg, blocks[..|blocks| - 1]);
      before + BlockEntries(t, cfg, blocks[|blocks| - 1], |before|)
  }

  /** Part `index[i]` is entry `i`, and the entries are in order. */
  ghost predicate Laid(parts: seq<string>, entries: seq<string>, index: seq<nat>) {
    && |index| == |entries|
    && (forall i :: 0 <= i < |index| ==> index[i] < |parts| && parts[index[i]] == entries[i])
    && (forall i, j :: 0 <= i < j < |index| ==> index[i] < index[j])
  }

  lemma LaidMore(parts: seq<string>, entries: seq<string>, index: seq<nat>, part: string)
    requires Laid(parts, entries, index)
    ensures Laid(parts + [part], entries + [part], index + [|parts|]) && Laid(parts + [part], entries, index)
  {
  }

  lemma SecondaryEntry(t: Templates, i: nat, c: RetrievedChunk, heading: string, p: nat)
    ensures ChunkText(t, Marker(i), c, heading, "[included in [" + Marker(p) + "]]") == Entry(t, i, c, heading, Reference(p))
  {
    assert !IsSpace(']');
    hide IsSpace, Str, Entry, ChunkText;
    ChunkTextIsEntry(t, i, c, heading, Reference(p));
  }

  lemma OneMoreSecondary(t: Templates, block: ContextBlock, p: nat, d: Draft, n: nat)
    requires 0 < n <= |block.chunks|
    ensures
      var before, c := AddSecondaries(t, block, Marker(p), d, n - 1), block.chunks[n - 1];
      AddSecondaries(t, block, Marker(p), d, n).parts
      == if c.chunkId == block.primary.chunkId then before.parts
         else before.parts + [Entry(t, |before.used|, c, HeadingOr(c.heading, HeadingOr(block.heading, "(none)")), Reference(p))]
  {
    var before, c := AddSecondaries(t, block, Marker(p), d, n - 1), block.chunks[n - 1];
    SecondaryEntry(t, |before.used|, c, HeadingOr(c.heading, HeadingOr(block.heading, "(none)")), p);
    hide ChunkText, Entry, Marker, Reference;
  }

  lemma WithoutStep(chunks: seq<RetrievedChunk>, id: nat, n: nat)
    requires 0 < n <= |chunks|
    ensures Without(chunks[..n], id) == Without(chunks[..n - 1], id) + if chunks[n - 1].chunkId == id then [] else [chunks[n - 1]]
  {
    assert chunks[..n][..n - 1] == chunks[..n - 1];
  }

  lemma ReferencesStep(t: Templates, block: ContextBlock, p: nat, others: seq<RetrievedChunk>, c: RetrievedChunk)
    ensures References(t, block, p, others + [c])
      == References(t, block, p, others)
         + [Entry(t, p + 1 + |others|, c, HeadingOr(c.heading, HeadingOr(block.heading, "(none)")), Reference(p))]
  {
    assert (others + [c])[..|others|] == others;
    hide Entry, Reference;
  }

  lemma NoReferences(t: Templates, cfg: PromptParts.Config, block: ContextBlock, p: nat, d: Draft, entries: seq<string>)
    ensures entries + References(t, block, p, Without(block.chunks[..0], block.primary.chunkId)) == entries
    ensures AddSecondaries(t, block, Marker(p), d, 0) == d
  {
  }

  lemma {:induction false} SecondariesLaid(
      t: Templates, cfg: PromptParts.Config, block: ContextBlock, p: nat, d: Draft, entries: seq<string>, index: seq<nat>, n: nat)
      returns (more: seq<nat>)
    requires n <= |block.chunks| && Laid(d.parts, entries, index) && |d.used| == p + 1
    ensures Laid(AddSecondaries(t, block, Marker(p), d, n).parts,
      entries + References(t, block, p, Without(block.chunks[..n], block.primary.chunkId)), more)
  {
    hide *;
    if n == 0 {
      more := index;
      NoReferences(t, cfg, block, p, d, entries);
    } else {
      var before, c := AddSecondaries(t, block, Marker(p), d, n - 1), block.chunks[n - 1];
      var others := Without(block.chunks[..n - 1], block.primary.chunkId);
      more := SecondariesLaid(t, cfg, block, p, d, entries, index, n - 1);
      SecondariesUse(t, block, Marker(p), d, n - 1);
      OneMoreSecondary(t, block, p, d, n);
      WithoutStep(block.chunks, block.primary.chunkId, n);
      if c.chunkId != block.primary.chunkId {
        var part := Entry(t, p + 1 + |others|, c, HeadingOr(c.heading, HeadingOr(block.heading, "(none)")), Reference(p));
        ReferencesStep(t, block, p, others, c);
        LaidMore(before.parts, entries + References(t, block, p, others), more, part);
        more := more + [|before.parts|];
        assert entries + References(t, block, p, others) + [part] == entries + (References(t, block, p, others) + [part]);
      } else {
        assert others + [] == others;
      }
    }
  }

  lemma HeadingsAgree(heading: Option<string>, other: string)
    ensures Or(heading, other) == HeadingOr(heading, other)
  {
  }

  lemma PrimaryPart(t: Templates, cfg: PromptParts.Config, block: ContextBlock, d: Draft)
    ensures AddPrimary(t, cfg, block, d).parts
      == d.parts + [ChunkText(t, Marker(|d.used|), block.primary, Or(block.heading, "(none)"), Excerpt(Strip(block.mergedText), cfg.excerptChars * 4))]
  {
    hide ChunkText, Marker, Strip, Excerpt, Or;
  }

  lemma PrimaryEntry(t: Templates, cfg: PromptParts.Config, block: ContextBlock, d: Draft)
    ensures AddPrimary(t, cfg, block, d).parts
      == d.parts + [Entry(t, |d.used|, block.primary, HeadingOr(block.heading, "(none)"), Shown(block, cfg.excerptChars * 4))]
  {
    hide *;
    PrimaryPart(t, cfg, block, d);
    HeadingsAgree(block.heading, "(none)");
    ShownEnds(block, cfg.excerptChars * 4);
    ChunkTextIsEntry(t, |d.used|, block.primary, HeadingOr(block.heading, "(none)"), Shown(block, cfg.excerptChars * 4));
  }

  lemma {:induction false} BlockLaid(
      t: Templates, cfg: PromptParts.Config, block: ContextBlock, d: Draft, entries: seq<string>, index: seq<nat>) returns (more: seq<nat>)
    requires Laid(d.parts, entries, index) && |entries| == |d.used|
    ensures Laid(AddBlock(t, cfg, block, d).parts, entries + BlockEntries(t, cfg, block, |entries|), more)
    ensures |AddBlock(t, cfg, block, d).used| == |entries + BlockEntries(t, cfg, block, |entries|)|
  {
    hide *;
    var p, headed, chunks := |d.used|, AddHeading(block, d), block.chunks;
    PrimaryUse(t, cfg, block, d);
    BlockUses(t, cfg, block, d);
    HeadingLaid(block, d, entries, index);
    PrimaryEntry(t, cfg, block, headed);
    BlockEntriesForm(t, cfg, block, p);
    var part := Entry(t, p, block.primary, HeadingOr(block.heading, "(none)"), Shown(block, cfg.excerptChars * 4));
    LaidMore(headed.parts, entries, index, part);
    more := SecondariesLaid(t, cfg, block, p, AddPrimary(t, cfg, block, headed), entries + [part], index + [|headed.parts|], |chunks|);
    assert chunks[..|chunks|] == chunks;
    var rest := References(t, block, p, Without(chunks, block.primary.chunkId));
    assert entries + [part] + rest == entries + ([part] + rest);
  }

  lemma BlockEntriesForm(t: Templates, cfg: PromptParts.Config, block: ContextBlock, p: nat)
    ensures BlockEntries(t, cfg, block, p)
      == [Entry(t, p, block.primary, HeadingOr(block.heading, "(none)"), Shown(block, cfg.excerptChars * 4))]
         + References(t, block, p, Without(block.chunks, block.primary.chunkId))
    ensures |BlockOrderOfUse(block)| == |BlockEntries(t, cfg, block, p)|
    ensures BlockOrderOfUse(block) == [block.primary] + Without(block.chunks, block.primary.chunkId)
  {
  }

  lemma HeadingLaid(block: ContextBlock, d: Draft, entries: seq<string>, index: seq<nat>)
    requires Laid(d.parts, entries, index)
    ensures Laid(AddHeading(block, d).parts, entries, index) && AddHeading(block, d).used == d.used
  {
    hide Strip;
  }

  /** The evidence part of a prompt holds exactly these entries, in order. */
  lemma {:induction false} EvidenceLaid(t: Templates, cfg: PromptParts.Config, blocks: seq<ContextBlock>) returns (index: seq<nat>)
    ensures Laid(DraftOf(t, cfg, blocks).parts, Entries(t, cfg, blocks), index)
    ensures |DraftOf(t, cfg, blocks).used| == |Entries(t, cfg, blocks)|
  {
    if blocks == [] {
      index := [];
    } else {
      hide Laid, AddBlock, BlockEntries;
      var n := |blocks| - 1;
      index := EvidenceLaid(t, cfg, blocks[..n]);
      index := BlockLaid(t, cfg, blocks[n], DraftOf(t, cfg, blocks[..n]), Entries(t, cfg, blocks[..n]), index);
    }
  }

  ghost predicate Opens(t: Templates, i: nat, c: RetrievedChunk, entry: string) { Opening(t, i, c) <= entry }

  lemma OpeningOfEntry(t: Templates, i: nat, c: RetrievedChunk, heading: string, text: string)
    ensures Opens(t, i, c, Entry(t, i, c, heading, text))
  {
    hide Opening;
  }

  lemma {:induction false} ReferencesOpen(t: Templates, block: ContextBlock, p: nat, others: seq<RetrievedChunk>, i: nat)
    requires i < |others|
    ensures Opens(t, p + 1 + i, others[i], References(t, block, p, others)[i])
  {
    hide Opens, Entry, Reference;
    var n := |others| - 1;
    if i < n {
      ReferencesOpen(t, block, p, others[..n], i);
    } else {
      OpeningOfEntry(t, p + 1 + n, others[n], HeadingOr(others[n].heading, HeadingOr(block.heading, "(none)")), Reference(p));
    }
  }

  lemma LastBlock(t: Templates, cfg: PromptParts.Config, blocks: seq<ContextBlock>)
    ensures blocks == [] ==> Entries(t, cfg, blocks) == []
    ensures blocks != [] ==>
      var before, block := blocks[..|blocks| - 1], blocks[|blocks| - 1];
      && Entries(t, cfg, blocks) == Entries(t, cfg, before) + BlockEntries(t, cfg, block, |Entries(t, cfg, before)|)
      && DraftOf(t, cfg, blocks) == AddBlock(t, cfg, block, DraftOf(t, cfg, before))
  {
    hide AddBlock, BlockEntries;
  }

  lemma {:induction false} BlockOpens(t: Templates, cfg: PromptParts.Config, block: ContextBlock, p: nat, j: nat)
    requires j < |BlockOrderOfUse(block)| == |BlockEntries(t, cfg, block, p)|
    ensures Opens(t, p + j, BlockOrderOfUse(block)[j], BlockEntries(t, cfg, block, p)[j])
  {
    hide *;
    BlockEntriesForm(t, cfg, block, p);
    var others := Without(block.chunks, block.primary.chunkId);
    if j == 0 {
      OpeningOfEntry(t, p, block.primary, HeadingOr(block.heading, "(none)"), Shown(block, cfg.excerptChars * 4));
    } else {
      ReferencesOpen(t, block, p, others, j - 1);
    }
  }

  /** Entry `i` opens with marker `p + i + 1` and the ids of the i-th chunk. */
  ghost predicate OpenFrom(t: Templates, p: nat, used: seq<RetrievedChunk>, entries: seq<string>) {
    |used| == |entries| && forall i :: 0 <= i < |used| ==> Opens(t, p + i, used[i], entries[i])
  }

  lemma BlockOpenFrom(t: Templates, cfg: PromptParts.Config, block: ContextBlock, p: nat)
    ensures OpenFrom(t, p, BlockOrderOfUse(block), BlockEntries(t, cfg, block, p))
  {
    BlockEntriesForm(t, cfg, block, p);
    hide Opens, BlockOrderOfUse, BlockEntries;
    forall j | 0 <= j < |BlockOrderOfUse(block)|
      ensures Opens(t, p + j, BlockOrderOfUse(block)[j], BlockEntries(t, cfg, block, p)[j])
    {
      BlockOpens(t, cfg, block, p, j);
    }
  }

  lemma OpenConcat(t: Templates, p: nat, used: seq<RetrievedChunk>, entries: seq<string>, more: seq<RetrievedChunk>, further: seq<string>)
    requires OpenFrom(t, p, used, entries) && OpenFrom(t, p + |entries|, more, further)
    ensures OpenFrom(t, p, used + more, entries + further)
  {
    hide Opens;
    forall i | |used| <= i < |used + more|
      ensures Opens(t, p + i, (used + more)[i], (entries + further)[i])
    {
      var j := i - |used|;
      assert Opens(t, p + |entries| + j, more[j], further[j]);
    }
  }

  /** Each entry of a prompt opens with its marker and the ids of its chunk. */
  lemma {:induction false} EntriesOpen(t: Templates, cfg: PromptParts.Config, blocks: seq<ContextBlock>)
    ensures OpenFrom(t, 0, DraftOf(t, cfg, blocks).used, Entries(t, cfg, blocks))
  {
    hide *;
    LastBlock(t, cfg, blocks);
    if blocks == [] {
      NothingOpens(t, cfg);
    } else {
      var before, block := blocks[..|blocks| - 1], blocks[|blocks| - 1];
      var used, entries := DraftOf(t, cfg, before).used, Entries(t, cfg, before);
      EntriesOpen(t, cfg, before);
      BlockUses(t, cfg, block, DraftOf(t, cfg, before));
      BlockOpenFrom(t, cfg, block, |entries|);
      OpenConcat(t, 0, used, entries, BlockOrderOfUse(block), BlockEntries(t, cfg, block, |entries|));
    }
  }

  lemma NothingOpens(t: Templates, cfg: PromptParts.Config)
    ensures OpenFrom(t, 0, DraftOf(t, cfg, []).used, Entries(t, cfg, []))
  {
  }

  /** The first entry of block `k` is its primary chunk with the block's text. */
  lemma {:induction false} PrimaryEntryAt(t: Templates, cfg: PromptParts.Config, blocks: seq<ContextBlock>, k: nat)
    requires k < |blocks|
    ensures
      var p := |Entries(t, cfg, blocks[..k])|;
      && p < |Entries(t, cfg, blocks)|
      && Entries(t, cfg, blocks)[p]
         == Entry(t, p, blocks[k].primary, HeadingOr(blocks[k].heading, "(none)"), Shown(blocks[k], cfg.excerptChars * 4))
  {
    hide Entry, References, Shown, Without;
    var n := |blocks| - 1;
    if k < n {
      PrimaryEntryAt(t, cfg, blocks[..n], k);
      assert blocks[..n][..k] == blocks[..k];
    }
  }

  // ------------------------------------------------------------ the prompt

  /** How a turn is written. */
  function Line(turn: Turn): string {
    (match turn.role case User => "user" case Assistant => "assistant" case System => "system") + ": " + Strip(turn.content)
  }

  lemma {:induction false} TurnTextAt(history: seq<Turn>, k: nat)
    requires k < |history|
    ensures |TurnTexts(history)| == |history| && TurnTexts(history)[k] == Line(history[k])
  {
    hide Strip;
    if k < |history| - 1 {
      TurnTextAt(history[..|history| - 1], k);
    } else if |history| > 1 {
      TurnTextAt(history[..|history| - 1], 0);
    }
  }

  /** Positions of the turns, the evidence entries and the question in a prompt. */
  datatype Places = Places(turns: seq<nat>, entries: seq<nat>, question: nat)

  /** The texts stand at these positions one after the other, the last one before `end`. */
  ghost predicate InTurn(prompt: string, at: seq<nat>, texts: seq<string>, end: nat) {
    && |at| == |texts|
    && (forall i :: 0 <= i < |at| ==> StandsAt(prompt, at[i], texts[i]) && at[i] + |texts[i]| < end)
    && (forall i, j :: 0 <= i < j < |at| ==> at[i] + |texts[i]| < at[j])
  }

  function Lines(history: seq<Turn>): (r: seq<string>)
    ensures |r| == |history| && forall k :: 0 <= k < |r| ==> r[k] == Line(history[k])
  {
    seq(|history|, k requires 0 <= k < |history| => Line(history[k]))
  }

  /** Everything a prompt for these blocks and turns must say, in order: turns, entries, question. */
  ghost predicate Says(r: Request, s: Selection, prompt: string, w: Places) {
    && InTurn(prompt, w.turns, Lines(s.history), if w.entries == [] then w.question else w.entries[0])
    && InTurn(prompt, w.entries, Entries(r.templates, r.config, s.blocks), w.question)
    && StandsAt(prompt, w.question, Strip(r.question))
  }

  /** The parts of a prompt, by number: turns, then evidence, then question. */
  lemma PartsByNumber(r: Request, s: Selection)
    ensures
      var parts, h, d := AllParts(r.templates, r.config, r.question, s.blocks, s.history, r.language),
        |HistoryParts(r.templates, s.history)|, DraftOf(r.templates, r.config, s.blocks).parts;
      && |parts| == h + 1 + |d| + 5 && (s.history != [] ==> h == |s.history| + 2)
      && (forall k :: 0 <= k < |s.history| ==> parts[1 + k] == Line(s.history[k]))
      && (forall j :: 0 <= j < |d| ==> parts[h + 1 + j] == d[j])
      && parts[h + 1 + |d| + 2] == Strip(r.question)
  {
    hide Strip, DraftOf, TurnTexts, Line;
    var parts := AllParts(r.templates, r.config, r.question, s.blocks, s.history, r.language);
    if s.history != [] {
      TurnTextAt(s.history, 0);
    }
    forall k | 0 <= k < |s.history|
      ensures parts[1 + k] == Line(s.history[k])
    {
      TurnTextAt(s.history, k);
    }
  }

  /** Parts taken in order stand one after the other. */
  lemma {:induction false} PartsInTurn(parts: seq<string>, index: seq<nat>, texts: seq<string>, last: nat) returns (at: seq<nat>)
    requires |index| == |texts| && last < |parts|
    requires forall i :: 0 <= i < |index| ==> index[i] < last && parts[index[i]] == texts[i]
    requires forall i, j :: 0 <= i < j < |index| ==> index[i] < index[j]
    ensures InTurn(JoinLines(parts), at, texts, Offset(parts, last))
    ensures |at| == |index| && forall i :: 0 <= i < |at| ==> at[i] == Offset(parts, index[i])
  {
    hide JoinLines, Offset, StandsAt;
    at := seq(|index|, i requires 0 <= i < |index| => Offset(parts, index[i]));
    forall i | 0 <= i < |at|
      ensures StandsAt(JoinLines(parts), at[i], texts[i]) && at[i] + |texts[i]| < Offset(parts, last)
    {
      PartStands(parts, index[i]);
      OffsetsRise(parts, index[i], last);
    }
    forall i, j | 0 <= i < j < |at|
      ensures at[i] + |texts[i]| < at[j]
    {
      OffsetsRise(parts, index[i], index[j]);
    }
  }

  function From(first: nat, index: seq<nat>): (r: seq<nat>)
    ensures |r| == |index| && forall i :: 0 <= i < |r| ==> r[i] == first + index[i]
  {
    seq(|index|, i requires 0 <= i < |index| => first + index[i])
  }

  lemma {:induction false} PlacesHold(parts: seq<string>, lines: seq<string>, entries: seq<string>, index: seq<nat>, first: nat, q: nat)
      returns (w: Places)
    requires |lines| < first <= q < |parts| && |index| == |entries|
    requires forall k :: 0 <= k < |lines| ==> parts[1 + k] == lines[k]
    requires forall i :: 0 <= i < |index| ==> first + index[i] < q && parts[first + index[i]] == entries[i]
    requires forall i, j :: 0 <= i < j < |index| ==> index[i] < index[j]
    ensures InTurn(JoinLines(parts), w.turns, lines, if w.entries == [] then w.question else w.entries[0])
    ensures InTurn(JoinLines(parts), w.entries, entries, w.question)
    ensures StandsAt(JoinLines(parts), w.question, parts[q]) && |w.entries| == |index|
  {
    hide JoinLines, InTurn, StandsAt, Offset;
    var at := PartsInTurn(parts, From(first, index), entries, q);
    var numbers := seq(|lines|, k requires 0 <= k < |lines| => 1 + k);
    var turns := PartsInTurn(parts, numbers, lines, if index == [] then q else first + index[0]);
    PartStands(parts, q);
    w := Places(turns, at, Offset(parts, q));
  }

  /**
   * The prompt of a selection says everything it must: each turn, each
   * evidence entry under its marker with the block's text, and the question.
   */
  lemma {:induction false} SelectionIsSaid(r: Request, s: Selection) returns (w: Places)
    ensures Says(r, s, UserPrompt(r, s), w)
    ensures |w.entries| == |DraftOf(r.templates, r.config, s.blocks).used|
  {
    var t, cfg := r.templates, r.config;
    var d, entries := DraftOf(t, cfg, s.blocks), Entries(t, cfg, s.blocks);
    var parts := AllParts(t, cfg, r.question, s.blocks, s.history, r.language);
    var h := |HistoryParts(t, s.history)|;
    hide *;
    PromptIsJoined(r, s);
    var index := EvidenceLaid(t, cfg, s.blocks);
    PartsByNumber(r, s);
    LaidIndex(d.parts, entries, index);
    w := PlacesHold(parts, Lines(s.history), entries, index, h + 1, h + 1 + |d.parts| + 2);
    AllIsSaid(r, s, UserPrompt(r, s), w);
  }

  lemma PromptIsJoined(r: Request, s: Selection)
    ensures UserPrompt(r, s) == JoinLines(AllParts(r.templates, r.config, r.question, s.blocks, s.history, r.language))
  {
    hide JoinLines, AllParts;
  }

  lemma AllIsSaid(r: Request, s: Selection, prompt: string, w: Places)
    requires InTurn(prompt, w.turns, Lines(s.history), if w.entries == [] then w.question else w.entries[0])
    requires InTurn(prompt, w.entries, Entries(r.templates, r.config, s.blocks), w.question)
    requires StandsAt(prompt, w.question, Strip(r.question))
    ensures Says(r, s, prompt, w)
  {
    hide InTurn, StandsAt;
  }

  lemma LaidIndex(parts: seq<string>, entries: seq<string>, index: seq<nat>)
    requires Laid(parts, entries, index)
    ensures |index| == |entries| && forall i :: 0 <= i < |index| ==> index[i] < |parts| && parts[index[i]] == entries[i]
    ensures forall i, j :: 0 <= i < j < |index| ==> index[i] < index[j]
  {
  }

  /** Every built prompt says everything about the blocks and the turns it keeps. */
  lemma {:induction false} BuiltPromptSays(tools: TextTools, r: Request, chunks: seq<RetrievedChunk>, history: seq<Turn>)
      returns (s: Selection, w: Places)
    requires Prompt(tools, r, chunks, history).Some?
    ensures
      var p, whole := Prompt(tools, r, chunks, history).value, Whole(tools, r, chunks, history);
      && s.blocks <= whole.blocks && (whole.blocks != [] ==> s.blocks != [])
      && s.history == p.history && |p.history| <= |whole.history| && p.history == whole.history[|whole.history| - |p.history|..]
      && Says(r, s, p.userPrompt, w)
      && OpenFrom(r.templates, 0, p.used, Entries(r.templates, r.config, s.blocks))
  {
    hide *;
    s := PromptOfSelection(tools, r, chunks, history);
    w := SelectionIsSaid(r, s);
    EntriesOpen(r.templates, r.config, s.blocks);
  }

  lemma PromptOfSelection(tools: TextTools, r: Request, chunks: seq<RetrievedChunk>, history: seq<Turn>) returns (s: Selection)
    requires Prompt(tools, r, chunks, history).Some?
    ensures
      var p, whole := Prompt(tools, r, chunks, history).value, Whole(tools, r, chunks, history);
      && s.blocks <= whole.blocks && (whole.blocks != [] ==> s.blocks != [])
      && s.history == p.history && |p.history| <= |whole.history| && p.history == whole.history[|whole.history| - |p.history|..]
      && p.userPrompt == UserPrompt(r, s) && p.used == DraftOf(r.templates, r.config, s.blocks).used
  {
    var whole := Whole(tools, r, chunks, history);
    hide Trim, Whole, DraftOf, UserPrompt;
    TrimmedFits(r, whole);
    var cut := Trim(r, whole, |whole.blocks|, 0).value;
    s := Part(whole, cut.blocks, cut.turns);
  }

  lemma EntryHolds(t: Templates, i: nat, c: RetrievedChunk, heading: string, block: ContextBlock, limit: nat) returns (pos: nat)
    ensures
      var entry, text := Entry(t, i, c, heading, Shown(block, limit)), Strip(block.mergedText);
      && "[" + Str(i + 1) + "]" <= entry
      && StandsAt(entry, pos, text[..if |text| < limit then |text| else limit])
  {
    hide *;
    var text, shown := Strip(block.mergedText), Shown(block, limit);
    var entry := Entry(t, i, c, heading, shown);
    var head := Opening(t, i, c) + heading + "\ntext:";
    ShownBegins(block, limit);
    EntryOpens(t, i, c, heading, shown);
    OpeningBegins(t, i, c, entry);
    if shown == "" {
      pos := 0;
      Follows("", entry, "");
      assert "" + entry == entry;
    } else {
      pos := |head| + 1;
      assert entry == (head + " ") + shown;
      Follows(head + " ", shown, text[..if |text| < limit then |text| else limit]);
    }
  }

  lemma ShownBegins(block: ContextBlock, limit: nat)
    ensures var text := Strip(block.mergedText); text[..if |text| < limit then |text| else limit] <= Shown(block, limit)
  {
    hide Strip;
  }

  lemma OpeningBegins(t: Templates, i: nat, c: RetrievedChunk, entry: string)
    requires Opening(t, i, c) <= entry
    ensures "[" + Str(i + 1) + "]" <= entry
  {
    hide Str;
  }

  lemma Follows(front: string, text: string, part: string)
    requires part <= text
    ensures StandsAt(front + text, |front|, part)
  {
    assert (front + text)[|front|..|front| + |part|] == text[..|part|];
  }

  /** A kept block's text, up to the limit, stands between its marker and the next entry. */
  lemma {:induction false} KeptBlockIsShown(r: Request, s: Selection, prompt: string, w: Places, k: nat) returns (at: nat)
    requires Says(r, s, prompt, w) && k < |s.blocks|
    ensures
      var p, text, limit := |Entries(r.templates, r.config, s.blocks[..k])|, Strip(s.blocks[k].mergedText), r.config.excerptChars * 4;
      var shown := text[..if |text| < limit then |text| else limit];
      && p < |w.entries| && StandsAt(prompt, w.entries[p], "[" + Str(p + 1) + "]")
      && w.entries[p] <= at && StandsAt(prompt, at, shown)
      && at + |shown| < if p + 1 < |w.entries| then w.entries[p + 1] else w.question
  {
    hide *;
    var t, cfg := r.templates, r.config;
    var p, heading := |Entries(t, cfg, s.blocks[..k])|, HeadingOr(s.blocks[k].heading, "(none)");
    PrimaryEntryAt(t, cfg, s.blocks, k);
    EntryIsSaid(r, s, prompt, w, p);
    var entry, text, limit := Entries(t, cfg, s.blocks)[p], Strip(s.blocks[k].mergedText), cfg.excerptChars * 4;
    var pos := EntryHolds(t, p, s.blocks[k].primary, heading, s.blocks[k], limit);
    Begins(prompt, w.entries[p], entry, "[" + Str(p + 1) + "]");
    at := w.entries[p] + pos;
    Within(prompt, w.entries[p], entry, pos, text[..if |text| < limit then |text| else limit]);
  }

  lemma EntryIsSaid(r: Request, s: Selection, prompt: string, w: Places, p: nat)
    requires Says(r, s, prompt, w) && p < |Entries(r.templates, r.config, s.blocks)|
    ensures
      var entry := Entries(r.templates, r.config, s.blocks)[p];
      && p < |w.entries| && StandsAt(prompt, w.entries[p], entry)
      && w.entries[p] + |entry| < if p + 1 < |w.entries| then w.entries[p + 1] else w.question
  {
    hide Entries, StandsAt, Strip, Lines;
  }

  lemma Within(text: string, at: nat, part: string, pos: nat, inner: string)
    requires StandsAt(text, at, part) && StandsAt(part, pos, inner)
    ensures StandsAt(text, at + pos, inner) && at + pos + |inner| <= at + |part|
  {
    forall k | 0 <= k < |inner|
      ensures text[at + pos..at + pos + |inner|][k] == inner[k]
    {
      assert inner[k] == part[pos..pos + |inner|][k] == part[pos + k];
      assert part[pos + k] == text[at..at + |part|][pos + k] == text[at + pos + k];
    }
  }
}
