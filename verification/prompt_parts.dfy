/** The text of a prompt and the numbering of its markers. */
module PromptParts {
  import opened ContextAssembly
  import opened DecimalText
  import opened PythonText
  import opened RetrievalModels

  datatype Role = User | Assistant | System

  datatype Turn = Turn(role: Role, content: string)

  /** The fixed wording of a template version, and how ids are written. */
  datatype Templates = Templates(
    historyHeader: string, evidenceHeader: string, questionHeader: string,
    system: string -> string, rules: string -> string, idText: nat -> string)

  datatype Config = Config(maxPromptChars: int, maxHistoryMessages: int, excerptChars: nat)

  /** The evidence part while it is being written. */
  datatype Draft = Draft(parts: seq<string>, markers: map<string, nat>, used: seq<RetrievedChunk>, heading: string)

  const EMPTY_DRAFT := Draft([], map[], [], "")

  function Or(text: Option<string>, other: string): string {
    if text.Some? && text.value != "" then text.value else other
  }

  /** `CHUNK_FORMAT`, right-stripped. */
  function ChunkText(t: Templates, marker: string, c: RetrievedChunk, heading: string, text: string): string {
    RStrip("[" + marker + "] chunk_id=" + t.idText(c.chunkId) + " document_id=" + t.idText(c.documentId)
           + "\nheading: " + heading + "\ntext: " + text + "\n")
  }

  function Excerpt(text: string, limit: nat): string {
    if |text| > limit then text[..limit] + "…" else text
  }

  /** The marker of chunk number `i`, counted from zero. */
  function Marker(i: nat): string {
    Str(i + 1)
  }

  lemma MarkerIsInjective(i: nat, j: nat)
    requires Marker(i) == Marker(j)
    ensures i == j
  {
    hide Str;
    StrIsInjective(i + 1, j + 1);
  }

  /** One more marker, `marker_index + 1`, for one more chunk. */
  function Mark(d: Draft, c: RetrievedChunk, part: string): Draft {
    Draft(d.parts + [part], d.markers[Marker(|d.used|) := c.chunkId], d.used + [c], d.heading)
  }

  /** The first `n` chunks of a block after its primary chunk has the marker `primary`. */
  function AddSecondaries(t: Templates, block: ContextBlock, primary: string, d: Draft, n: nat): Draft
    requires n <= |block.chunks|
  {
    if n == 0 then d
    else
      var before := AddSecondaries(t, block, primary, d, n - 1);
      var c := block.chunks[n - 1];
      if c.chunkId == block.primary.chunkId then before
      else Mark(before, c, ChunkText(t, Marker(|before.used|), c, Or(c.heading, Or(block.heading, "(none)")), "[included in [" + primary + "]]"))
  }

  function AddHeading(block: ContextBlock, d: Draft): Draft {
    var caption := Strip(OrEmpty(block.heading));
    if caption != "" && caption != d.heading then d.(parts := d.parts + [caption], heading := caption) else d
  }

  function AddPrimary(t: Templates, cfg: Config, block: ContextBlock, d: Draft): Draft {
    Mark(d, block.primary, ChunkText(t, Marker(|d.used|), block.primary, Or(block.heading, "(none)"),
      Excerpt(Strip(block.mergedText), cfg.excerptChars * 4)))
  }

  function AddBlock(t: Templates, cfg: Config, block: ContextBlock, d: Draft): Draft {
    AddSecondaries(t, block, Marker(|d.used|), AddPrimary(t, cfg, block, AddHeading(block, d)), |block.chunks|)
  }

  /** The evidence part for `blocks`. */
  function DraftOf(t: Templates, cfg: Config, blocks: seq<ContextBlock>): Draft {
    if blocks == [] then EMPTY_DRAFT
    else AddBlock(t, cfg, blocks[|blocks| - 1], DraftOf(t, cfg, blocks[..|blocks| - 1]))
  }

  function RoleText(role: Role): string {
    match role
    case User => "user"
    case Assistant => "assistant"
    case System => "system"
  }

  function TurnTexts(history: seq<Turn>): seq<string> {
    if history == [] then []
    else
      var last := history[|history| - 1];
      TurnTexts(history[..|history| - 1]) + [RoleText(last.role) + ": " + Strip(last.content)]
  }

  function HistoryParts(t: Templates, history: seq<Turn>): seq<string> {
    if history == [] then [] else [t.historyHeader] + TurnTexts(history) + [""]
  }

  function ClosingParts(t: Templates, question: string, language: string): seq<string> {
    ["", t.questionHeader, Strip(question), "", t.rules(language)]
  }

  function AllParts(t: Templates, cfg: Config, question: string, blocks: seq<ContextBlock>, history: seq<Turn>, language: string): seq<string> {
    HistoryParts(t, history) + [t.evidenceHeader] + DraftOf(t, cfg, blocks).parts + ClosingParts(t, question, language)
  }

  /** `"\n".join(parts)`. */
  function JoinLines(parts: seq<string>): string {
    if parts == [] then ""
    else if |parts| == 1 then parts[0]
    else parts[0] + "\n" + JoinLines(parts[1..])
  }

  /** `_compose_user_prompt`. */
  method ComposeUserPrompt(t: Templates, cfg: Config, question: string, blocks: seq<ContextBlock>, history: seq<Turn>, language: string)
      returns (prompt: string, markers: map<string, nat>, used: seq<RetrievedChunk>)
    ensures prompt == JoinLines(AllParts(t, cfg, question, blocks, history, language))
    ensures markers == DraftOf(t, cfg, blocks).markers && used == DraftOf(t, cfg, blocks).used
  {
    hide ChunkText, JoinLines, Strip, Str;
    var parts: seq<string> := [];
    if history != [] {
      parts := [t.historyHeader];
      for i := 0 to |history|
        invariant parts == [t.historyHeader] + TurnTexts(history[..i])
      {
        assert history[..i + 1][..i] == history[..i];
        parts := parts + [RoleText(history[i].role) + ": " + Strip(history[i].content)];
      }
      assert history[..|history|] == history;
      parts := parts + [""];
    }
    parts := parts + [t.evidenceHeader];
    var draft := WriteEvidence(t, cfg, blocks);
    parts := parts + draft.parts + ["", t.questionHeader, Strip(question), "", t.rules(language)];
    return JoinLines(parts), draft.markers, draft.used;
  }

  /** The loop over blocks of `_compose_user_prompt`. */
  method WriteEvidence(t: Templates, cfg: Config, blocks: seq<ContextBlock>) returns (draft: Draft)
    ensures draft == DraftOf(t, cfg, blocks)
  {
    hide ChunkText, Strip, Str, Excerpt;
    var parts: seq<string>, markers: map<string, nat>, used: seq<RetrievedChunk> := [], map[], [];
    var markerIndex, previousHeading := 0, "";
    for n := 0 to |blocks|
      invariant markerIndex == |used|
      invariant Draft(parts, markers, used, previousHeading) == DraftOf(t, cfg, blocks[..n])
    {
      assert blocks[..n + 1][..n] == blocks[..n];
      var block := blocks[n];
      ghost var before := Draft(parts, markers, used, previousHeading);
      var caption := Strip(OrEmpty(block.heading));
      if caption != "" && caption != previousHeading {
        parts, previousHeading := parts + [caption], caption;
      }
      markerIndex := markerIndex + 1;
      var primaryMarker := Str(markerIndex);
      markers := markers[primaryMarker := block.primary.chunkId];
      used := used + [block.primary];
      var text := Excerpt(Strip(block.mergedText), cfg.excerptChars * 4);
      parts := parts + [ChunkText(t, primaryMarker, block.primary, Or(block.heading, "(none)"), text)];
      ghost var begun := Draft(parts, markers, used, previousHeading);
      assert begun == AddPrimary(t, cfg, block, AddHeading(block, before));
      for k := 0 to |block.chunks|
        invariant markerIndex == |used|
        invariant Draft(parts, markers, used, previousHeading) == AddSecondaries(t, block, primaryMarker, begun, k)
      {
        var secondary := block.chunks[k];
        if secondary.chunkId != block.primary.chunkId {
          markerIndex := markerIndex + 1;
          var secondaryMarker := Str(markerIndex);
          markers := markers[secondaryMarker := secondary.chunkId];
          used := used + [secondary];
          parts := parts + [ChunkText(t, secondaryMarker, secondary, Or(secondary.heading, Or(block.heading, "(none)")),
            "[included in [" + primaryMarker + "]]")];
        }
      }
    }
    assert blocks[..|blocks|] == blocks;
    draft := Draft(parts, markers, used, previousHeading);
  }

  // ------------------------------------------------------------------ markers

  /** Marker `i` names the i-th chunk used, and there are no other markers. */
  ghost predicate Numbers(markers: map<string, nat>, used: seq<RetrievedChunk>) {
    && (forall i :: 0 <= i < |used| ==> Marker(i) in markers && markers[Marker(i)] == used[i].chunkId)
    && (forall m :: m in markers ==> exists i :: 0 <= i < |used| && m == Marker(i))
  }

  ghost predicate Numbered(d: Draft) {
    Numbers(d.markers, d.used)
  }

  lemma {:induction false} MarkNumbers(d: Draft, c: RetrievedChunk, part: string)
    requires Numbered(d)
    ensures Numbered(Mark(d, c, part))
  {
    hide Marker;
    var r := Mark(d, c, part);
    forall i | 0 <= i < |r.used|
      ensures Marker(i) in r.markers && r.markers[Marker(i)] == r.used[i].chunkId
    {
      if i < |d.used| && Marker(i) == Marker(|d.used|) {
        MarkerIsInjective(i, |d.used|);
      }
    }
  }

  lemma {:induction false} SecondariesNumber(t: Templates, block: ContextBlock, primary: string, d: Draft, n: nat)
    requires Numbered(d) && n <= |block.chunks|
    ensures Numbered(AddSecondaries(t, block, primary, d, n))
  {
    hide Numbered, Mark, ChunkText, Marker;
    if n > 0 {
      SecondariesNumber(t, block, primary, d, n - 1);
      var before, c := AddSecondaries(t, block, primary, d, n - 1), block.chunks[n - 1];
      MarkNumbers(before, c, ChunkText(t, Marker(|before.used|), c, Or(c.heading, Or(block.heading, "(none)")), "[included in [" + primary + "]]"));
    }
  }

  lemma HeadingNumbers(block: ContextBlock, d: Draft)
    requires Numbered(d)
    ensures Numbered(AddHeading(block, d)) && |AddHeading(block, d).used| == |d.used|
  {
    hide Strip, Marker;
    var headed := AddHeading(block, d);
    assert headed.markers == d.markers && headed.used == d.used;
  }

  /** The markers of a prompt are exactly 1 to n, and marker i names the i-th chunk of the prompt. */
  lemma {:induction false} MarkersNumberChunks(t: Templates, cfg: Config, blocks: seq<ContextBlock>)
    ensures Numbered(DraftOf(t, cfg, blocks))
  {
    hide Numbered, Mark, ChunkText, AddHeading, Excerpt, Strip, Marker;
    if blocks == [] {
      assert Numbered(EMPTY_DRAFT) by {
        NothingIsNumbered();
      }
    } else {
      var n := |blocks| - 1;
      MarkersNumberChunks(t, cfg, blocks[..n]);
      var d, block := DraftOf(t, cfg, blocks[..n]), blocks[n];
      HeadingNumbers(block, d);
      var headed := AddHeading(block, d);
      MarkNumbers(headed, block.primary, ChunkText(t, Marker(|headed.used|), block.primary, Or(block.heading, "(none)"),
        Excerpt(Strip(block.mergedText), cfg.excerptChars * 4)));
      SecondariesNumber(t, block, Marker(|d.used|), AddPrimary(t, cfg, block, headed), |block.chunks|);
    }
  }

  lemma NothingIsNumbered()
    ensures Numbered(EMPTY_DRAFT)
  {
  }
}
