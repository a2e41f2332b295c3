/** Building a prompt that fits: history goes first, then the lowest-scored blocks. */
module PromptBuilders {
  import opened ContextAssembly
  import opened ContextDedupe
  import opened PromptParts
  import opened PythonText
  import opened RetrievalModels

  /** What a prompt is made of, apart from the evidence blocks and the history. */
  datatype Request = Request(templates: Templates, config: Config, question: string, language: string)

  datatype BuiltPrompt = BuiltPrompt(
    systemPrompt: string, userPrompt: string, markers: map<string, nat>, used: seq<RetrievedChunk>, history: seq<Turn>)

  /** The blocks and the turns that a prompt keeps. */
  datatype Selection = Selection(blocks: seq<ContextBlock>, history: seq<Turn>)

  // ------------------------------------------------------------------ history

  predicate IsKept(turn: Turn) {
    (turn.role.User? || turn.role.Assistant?) && Strip(turn.content) != ""
  }

  function KeptTurns(history: seq<Turn>): seq<Turn> {
    if history == [] then [] else (if IsKept(history[0]) then [history[0]] else []) + KeptTurns(history[1..])
  }

  function LastTurns(turns: seq<Turn>, n: nat): seq<Turn> {
    if |turns| <= n then turns else turns[|turns| - n..]
  }

  function HistoryLimit(cfg: Config): (n: nat)
    ensures 5 <= n <= 10
  {
    Min(10, Max(5, cfg.maxHistoryMessages))
  }

  /** `clamp_history`. */
  function ClampHistory(cfg: Config, history: seq<Turn>): seq<Turn> {
    LastTurns(KeptTurns(history), HistoryLimit(cfg))
  }

  lemma {:induction false} KeptTurnsKept(history: seq<Turn>)
    ensures forall turn :: turn in KeptTurns(history) ==> IsKept(turn) && turn in history
  {
    hide IsKept;
    if history != [] {
      KeptTurnsKept(history[1..]);
    }
  }

  lemma {:induction false} KeptTurnsFixed(turns: seq<Turn>)
    requires forall turn :: turn in turns ==> IsKept(turn)
    ensures KeptTurns(turns) == turns
  {
    hide IsKept;
    if turns != [] {
      KeptTurnsFixed(turns[1..]);
      assert turns == [turns[0]] + turns[1..];
    }
  }

  /** Clamping twice, as a request with its own history does, is clamping once. */
  lemma {:induction false} ClampTwice(cfg: Config, history: seq<Turn>)
    ensures ClampHistory(cfg, ClampHistory(cfg, history)) == ClampHistory(cfg, history)
    ensures |ClampHistory(cfg, history)| <= 10
    ensures forall turn :: turn in ClampHistory(cfg, history) ==> IsKept(turn) && turn in history
  {
    KeptTurnsKept(history);
    hide IsKept, KeptTurns;
    KeptTurnsFixed(ClampHistory(cfg, history));
  }

  lemma {:induction false} KeptTurnsConcat(a: seq<Turn>, b: seq<Turn>)
    ensures KeptTurns(a + b) == KeptTurns(a) + KeptTurns(b)
  {
    hide IsKept;
    if a == [] {
      assert a + b == b;
    } else {
      assert (a + b)[1..] == a[1..] + b;
      KeptTurnsConcat(a[1..], b);
    }
  }

  /**
   * Clamping turn by turn: a user or assistant turn with content comes last
   * and pushes out the oldest one beyond the limit; any other turn changes
   * nothing. The limit is what is configured, but at least 5 and at most 10.
   */
  lemma {:induction false} ClampKeepsLatest(cfg: Config, history: seq<Turn>, turn: Turn)
    ensures ClampHistory(cfg, []) == []
    ensures
      var n := if cfg.maxHistoryMessages < 5 then 5 else if cfg.maxHistoryMessages > 10 then 10 else cfg.maxHistoryMessages;
      var before, after := ClampHistory(cfg, history), ClampHistory(cfg, history + [turn]);
      if (turn.role.User? || turn.role.Assistant?) && Strip(turn.content) != "" then
        after == (if |before| < n then before else before[1..]) + [turn]
      else after == before
  {
    KeptTurnsConcat(history, [turn]);
    hide Strip;
    assert KeptTurns([turn]) == if IsKept(turn) then [turn] else [];
  }

  // --------------------------------------------------------------------- size

  function UserPrompt(r: Request, s: Selection): string {
    JoinLines(AllParts(r.templates, r.config, r.question, s.blocks, s.history, r.language))
  }

  predicate Fits(r: Request, s: Selection) {
    |r.templates.system(r.language)| + |UserPrompt(r, s)| <= r.config.maxPromptChars
  }

  /** The length of the parts, each with a newline after it. */
  function Total(parts: seq<string>): nat {
    if parts == [] then 0 else |parts[0]| + 1 + Total(parts[1..])
  }

  lemma {:induction false} TotalConcat(a: seq<string>, b: seq<string>)
    ensures Total(a + b) == Total(a) + Total(b)
  {
    if a == [] {
      assert a + b == b;
    } else {
      assert (a + b)[1..] == a[1..] + b && (a + b)[0] == a[0];
      TotalConcat(a[1..], b);
    }
  }

  lemma {:induction false} JoinedLength(parts: seq<string>)
    requires parts != []
    ensures |JoinLines(parts)| == Total(parts) - 1
  {
    if |parts| > 1 {
      JoinedLength(parts[1..]);
    }
  }

  lemma {:induction false} SecondariesExtend(t: Templates, block: ContextBlock, primary: string, d: Draft, n: nat)
    requires n <= |block.chunks|
    ensures d.parts <= AddSecondaries(t, block, primary, d, n).parts
  {
    hide ChunkText, Marker;
    if n > 0 {
      SecondariesExtend(t, block, primary, d, n - 1);
    }
  }

  lemma BlockExtends(t: Templates, cfg: Config, block: ContextBlock, d: Draft)
    ensures d.parts <= AddBlock(t, cfg, block, d).parts
  {
    hide ChunkText, Marker, Strip, Excerpt, AddSecondaries;
    SecondariesExtend(t, block, Marker(|d.used|), AddPrimary(t, cfg, block, AddHeading(block, d)), |block.chunks|);
  }

  /** Fewer blocks make a prefix of the evidence part. */
  lemma {:induction false} DraftExtends(t: Templates, cfg: Config, blocks: seq<ContextBlock>, k: nat)
    requires k <= |blocks|
    ensures DraftOf(t, cfg, blocks[..k]).parts <= DraftOf(t, cfg, blocks).parts
  {
    hide AddBlock;
    if k == |blocks| {
      assert blocks[..k] == blocks;
    } else {
      var n := |blocks| - 1;
      DraftExtends(t, cfg, blocks[..n], k);
      assert blocks[..n][..k] == blocks[..k];
      BlockExtends(t, cfg, blocks[n], DraftOf(t, cfg, blocks[..n]));
    }
  }

  lemma {:induction false} TurnTextsConcat(a: seq<Turn>, b: seq<Turn>)
    ensures TurnTexts(a + b) == TurnTexts(a) + TurnTexts(b)
  {
    hide Strip, RoleText;
    if b == [] {
      assert a + b == a;
    } else {
      var n := |b| - 1;
      assert (a + b)[..|a| + n] == a + b[..n] && (a + b)[|a| + n] == b[n];
      TurnTextsConcat(a, b[..n]);
    }
  }

  /** Later turns alone take no more room. */
  lemma HistoryShrinks(t: Templates, history: seq<Turn>, n: nat)
    requires n <= |history|
    ensures Total(HistoryParts(t, history[n..])) <= Total(HistoryParts(t, history))
  {
    hide Total, TurnTexts;
    if n < |history| {
      assert history[..n] + history[n..] == history;
      TurnTextsConcat(history[..n], history[n..]);
      TotalConcat(TurnTexts(history[..n]), TurnTexts(history[n..]));
      HistoryTotal(t, history);
      HistoryTotal(t, history[n..]);
    } else {
      NoHistory(t, history, n);
    }
  }

  lemma NoHistory(t: Templates, history: seq<Turn>, n: nat)
    requires n == |history|
    ensures Total(HistoryParts(t, history[n..])) == 0
  {
  }

  lemma HistoryTotal(t: Templates, history: seq<Turn>)
    requires history != []
    ensures Total(HistoryParts(t, history)) == Total([t.historyHeader]) + Total(TurnTexts(history)) + Total([""])
  {
    TotalConcat([t.historyHeader], TurnTexts(history));
    TotalConcat([t.historyHeader] + TurnTexts(history), [""]);
    hide Total, TurnTexts;
  }

  lemma PromptLength(r: Request, s: Selection)
    ensures
      |UserPrompt(r, s)|
      == Total(HistoryParts(r.templates, s.history)) + Total([r.templates.evidenceHeader])
         + Total(DraftOf(r.templates, r.config, s.blocks).parts) + Total(ClosingParts(r.templates, r.question, r.language)) - 1
  {
    var a, b := HistoryParts(r.templates, s.history), [r.templates.evidenceHeader];
    var c, d := DraftOf(r.templates, r.config, s.blocks).parts, ClosingParts(r.templates, r.question, r.language);
    hide DraftOf, HistoryParts, ClosingParts, JoinLines, Total;
    TotalConcat(a, b);
    TotalConcat(a + b, c);
    TotalConcat(a + b + c, d);
    assert |a + b + c + d| > 0;
    JoinedLength(a + b + c + d);
  }

  lemma DraftShrinks(t: Templates, cfg: Config, blocks: seq<ContextBlock>, k: nat)
    requires k <= |blocks|
    ensures Total(DraftOf(t, cfg, blocks[..k]).parts) <= Total(DraftOf(t, cfg, blocks).parts)
  {
    hide *;
    DraftExtends(t, cfg, blocks, k);
    TotalOfPrefix(DraftOf(t, cfg, blocks[..k]).parts, DraftOf(t, cfg, blocks).parts);
  }

  lemma TotalOfPrefix(a: seq<string>, b: seq<string>)
    requires a <= b
    ensures Total(a) <= Total(b)
  {
    hide Total;
    assert a + b[|a|..] == b;
    TotalConcat(a, b[|a|..]);
  }

  /** Dropping turns from the front or blocks from the end never makes a prompt longer. */
  lemma {:induction false} FitsMonotone(r: Request, s: Selection, k: nat, n: nat)
    requires k <= |s.blocks| && n <= |s.history| && Fits(r, s)
    ensures Fits(r, Selection(s.blocks[..k], s.history[n..]))
  {
    hide DraftOf, HistoryParts, ClosingParts, Total, UserPrompt;
    PromptLength(r, s);
    PromptLength(r, Selection(s.blocks[..k], s.history[n..]));
    HistoryShrinks(r.templates, s.history, n);
    DraftShrinks(r.templates, r.config, s.blocks, k);
  }

  // ----------------------------------------------------------------- trimming

  /** How many blocks are kept, and how many turns are dropped. */
  datatype Cut = Cut(blocks: nat, turns: nat)

  function Part(s: Selection, k: nat, n: nat): Selection
    requires k <= |s.blocks| && n <= |s.history|
  {
    Selection(s.blocks[..k], s.history[n..])
  }

  predicate FitsAt(r: Request, s: Selection, k: nat, n: nat)
    requires k <= |s.blocks| && n <= |s.history|
  {
    Fits(r, Part(s, k, n))
  }

  /** The loop of `build` from `k` blocks and `n` turns dropped; `None` is `PromptTooLargeError`. */
  function Trim(r: Request, s: Selection, k: nat, n: nat): (cut: Option<Cut>)
    requires k <= |s.blocks| && n <= |s.history|
    ensures cut.Some? ==> cut.value.blocks <= k && n <= cut.value.turns <= |s.history|
    decreases k + |s.history| - n
  {
    if FitsAt(r, s, k, n) then Some(Cut(k, n))
    else if n < |s.history| then Trim(r, s, k, n + 1)
    else if k > 1 then Trim(r, s, k - 1, n)
    else None
  }

  function Whole(tools: TextTools, r: Request, chunks: seq<RetrievedChunk>, history: seq<Turn>): Selection {
    Selection(Assemble(tools, chunks).blocks, ClampHistory(r.config, history))
  }

  /** The prompt of a selection. */
  function PromptOf(r: Request, s: Selection): BuiltPrompt {
    var draft := DraftOf(r.templates, r.config, s.blocks);
    BuiltPrompt(r.templates.system(r.language), UserPrompt(r, s), draft.markers, draft.used, s.history)
  }

  /** What `build` returns. */
  function Prompt(tools: TextTools, r: Request, chunks: seq<RetrievedChunk>, history: seq<Turn>): Option<BuiltPrompt> {
    var s := Whole(tools, r, chunks, history);
    var cut := Trim(r, s, |s.blocks|, 0);
    if cut.None? then None else Some(PromptOf(r, Part(s, cut.value.blocks, cut.value.turns)))
  }

  /** `PromptBuilder.build`. */
  method Build(tools: TextTools, r: Request, chunks: seq<RetrievedChunk>, history: seq<Turn>) returns (built: Option<BuiltPrompt>)
    ensures built == Prompt(tools, r, chunks, history)
  {
    hide Assemble, ClampHistory, AllParts, DraftOf, JoinLines;
    var historyUsed := ClampHistory(r.config, history);
    var assembly := AssembleContext(tools, chunks);
    var blocks := assembly.blocks;
    ghost var s := Whole(tools, r, chunks, history);
    ghost var k: nat, n: nat := |blocks|, 0;
    while true
      invariant k <= |s.blocks| && n <= |s.history|
      invariant blocks == s.blocks[..k] && historyUsed == s.history[n..]
      invariant Trim(r, s, k, n) == Trim(r, s, |s.blocks|, 0)
      decreases |historyUsed| + |blocks|
    {
      var systemPrompt := r.templates.system(r.language);
      var userPrompt, markers, used := ComposeUserPrompt(r.templates, r.config, r.question, blocks, historyUsed, r.language);
      assert userPrompt == UserPrompt(r, Part(s, k, n));
      if |systemPrompt| + |userPrompt| <= r.config.maxPromptChars {
        return Some(BuiltPrompt(systemPrompt, userPrompt, markers, used, historyUsed));
      }
      if historyUsed != [] {
        historyUsed := historyUsed[1..];
        n := n + 1;
      } else if |blocks| > 1 {
        blocks := blocks[..|blocks| - 1];
        k := k - 1;
      } else {
        return None;
      }
    }
  }

  /** Fitting is kept when fewer blocks or fewer turns are taken. */
  lemma FitsAtMonotone(r: Request, s: Selection, k: nat, n: nat, j: nat, m: nat)
    requires j <= k <= |s.blocks| && n <= m <= |s.history| && FitsAt(r, s, k, n)
    ensures FitsAt(r, s, j, m)
  {
    hide Fits, Part;
    PartOfPart(s, k, n, j, m);
    FitsMonotone(r, Part(s, k, n), j, m - n);
  }

  lemma PartOfPart(s: Selection, k: nat, n: nat, j: nat, m: nat)
    requires j <= k <= |s.blocks| && n <= m <= |s.history|
    ensures |Part(s, k, n).blocks| == k && |Part(s, k, n).history| == |s.history| - n
    ensures Selection(Part(s, k, n).blocks[..j], Part(s, k, n).history[m - n..]) == Part(s, j, m)
  {
    assert s.blocks[..k][..j] == s.blocks[..j] && s.history[n..][m - n..] == s.history[m..];
  }

  /**
   * The prompt built is the best that fits: no choice of leading blocks and
   * latest turns that fits has more blocks, and none with all blocks has more
   * history. Blocks are dropped only when all history is.
   */
  lemma {:induction false} TrimKeepsMost(r: Request, s: Selection, k: nat, n: nat, j: nat, m: nat)
    requires j <= k <= |s.blocks| && n <= m <= |s.history| && (j > 0 || k == 0) && FitsAt(r, s, j, m)
    ensures
      var cut := Trim(r, s, k, n);
      && cut.Some? && FitsAt(r, s, cut.value.blocks, cut.value.turns)
      && j <= cut.value.blocks
      && (j == k ==> cut.value.blocks == k && cut.value.turns <= m)
      && (cut.value.blocks < k ==> cut.value.turns == |s.history|)
    decreases k + |s.history| - n
  {
    hide FitsAt;
    if !FitsAt(r, s, k, n) {
      if n < |s.history| {
        if m == n {
          FitsAtMonotone(r, s, j, m, j, n + 1);
        }
        TrimKeepsMost(r, s, k, n + 1, j, Max(m, n + 1));
      } else {
        TrimKeepsMost(r, s, k - 1, n, j, m);
      }
    }
  }

  /** `build` raises exactly when the best block alone, without history, is too large. */
  lemma {:induction false} TooLargeExactlyWhen(r: Request, s: Selection, k: nat, n: nat)
    requires k <= |s.blocks| && n <= |s.history|
    ensures Trim(r, s, k, n).None? <==> !FitsAt(r, s, Min(1, k), |s.history|)
    decreases k + |s.history| - n
  {
    hide FitsAt;
    if FitsAt(r, s, k, n) {
      FitsAtMonotone(r, s, k, n, Min(1, k), |s.history|);
    } else if n < |s.history| {
      TooLargeExactlyWhen(r, s, k, n + 1);
    } else if k > 1 {
      TooLargeExactlyWhen(r, s, k - 1, n);
    }
  }
}
