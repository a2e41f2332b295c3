/** How units are packed into chunks: greedily, to the limit, or to the target where structure begins. */
module SplitterPacking {
  import opened PythonText
  import opened SplitterDocument
  import opened SplitterSpans
  import opened SplitterUnits

  /** No unit alone exceeds the limit. */
  ghost predicate UnitsFit(units: seq<Unit>, cfg: Config) {
    forall j :: 0 <= j < |units| ==> units[j].end as int - units[j].start <= cfg.maxChars
  }

  /**
   * A chunk that began with unit `p` ends before unit `m`: the two do not fit
   * together, or the chunk has its target size and a new structure of some
   * size begins.
   */
  ghost predicate EndsBefore(units: seq<Unit>, p: nat, m: nat, cfg: Config) {
    && p < m < |units|
    && (|| units[m].end as int - units[p].start > cfg.maxChars
        || (&& units[m - 1].end as int - units[p].start >= cfg.targetChars
            && units[m].kind in {Heading, List, Table, Faq, Clause}
            && units[m].end as int - units[m].start >= cfg.minChars))
  }

  /** Run `k` of the cuts: the units from `cuts[k]` to before `cuts[k + 1]`. */
  ghost predicate IsRun(units: seq<Unit>, cuts: seq<nat>, k: nat, s: Span) {
    k + 1 < |cuts| && cuts[k] < cuts[k + 1] <= |units| && s == Span(units[cuts[k]].start, units[cuts[k + 1] - 1].end)
  }

  /** Run `k` had to end where it does. */
  ghost predicate MustEnd(units: seq<Unit>, cuts: seq<nat>, k: nat, cfg: Config) {
    k + 1 < |cuts| && EndsBefore(units, cuts[k], cuts[k + 1], cfg)
  }

  /** Run `k` need not have ended before. */
  ghost predicate MayGoOn(units: seq<Unit>, cuts: seq<nat>, k: nat, cfg: Config) {
    k + 1 < |cuts| && forall m :: cuts[k] < m < cuts[k + 1] ==> !EndsBefore(units, cuts[k], m, cfg)
  }

  /** The spans are the runs of the units up to the last, each as long as it may be and no longer. */
  ghost predicate Packs(units: seq<Unit>, spans: seq<Span>, cuts: seq<nat>, cfg: Config) {
    && |cuts| == |spans| + 1 && cuts[|spans|] == |units|
    && (forall k :: 0 <= k < |spans| ==> IsRun(units, cuts, k, spans[k]) && MayGoOn(units, cuts, k, cfg))
    && (forall k :: 0 <= k < |spans| - 1 ==> MustEnd(units, cuts, k, cfg))
  }

  lemma PacksLast(units: seq<Unit>, p: nat, cfg: Config)
    requires p < |units| && forall m :: p < m < |units| ==> !EndsBefore(units, p, m, cfg)
    ensures Packs(units, [Span(units[p].start, units[|units| - 1].end)], [p, |units|], cfg)
  {
    hide EndsBefore;
  }

  lemma PacksMore(units: seq<Unit>, p: nat, spans: seq<Span>, cuts: seq<nat>, cfg: Config)
    requires Packs(units, spans, cuts, cfg) && spans != [] && p < cuts[0] && EndsBefore(units, p, cuts[0], cfg)
    requires forall m :: p < m < cuts[0] ==> !EndsBefore(units, p, m, cfg)
    ensures Packs(units, [Span(units[p].start, units[cuts[0] - 1].end)] + spans, [p] + cuts, cfg)
  {
    var more, all := [p] + cuts, [Span(units[p].start, units[cuts[0] - 1].end)] + spans;
    assert IsRun(units, cuts, 0, spans[0]);
    hide EndsBefore;
    forall k | 0 <= k < |all|
      ensures IsRun(units, more, k, all[k]) && MayGoOn(units, more, k, cfg)
    {
      if k > 0 {
        assert IsRun(units, cuts, k - 1, spans[k - 1]) && MayGoOn(units, cuts, k - 1, cfg);
      }
    }
    forall k | 0 <= k < |all| - 1
      ensures MustEnd(units, more, k, cfg)
    {
      if k > 0 {
        assert MustEnd(units, cuts, k - 1, cfg);
      }
    }
  }

  /** The buffer, which began with unit `p` and holds the units before `i`, is flushed as one span. */
  lemma BufferFits(text: string, units: seq<Unit>, p: nat, i: nat, cfg: Config, rules: Rules)
    requires p < i <= |units| && Ordered(units, 0, |text|) && cfg.Valid() && UnitsFit(units, cfg)
    requires forall m :: p < m < i ==> !EndsBefore(units, p, m, cfg)
    ensures units[p].start <= units[i - 1].end <= |text|
    ensures Flush(text, units[p].start, units[i - 1].end, cfg, rules) == [Span(units[p].start, units[i - 1].end)]
  {
    assert units[p].start < units[i - 1].end;
    assert i - 1 > p ==> !EndsBefore(units, p, i - 1, cfg);
  }

  /** One step of the merging loop: it flushes exactly where a chunk must end. */
  lemma MergeStep(text: string, units: seq<Unit>, p: nat, i: nat, cfg: Config, rules: Rules)
    requires p < i <= |units| && cfg.Valid() && Ordered(units, 0, |text|) && UnitsFit(units, cfg)
    requires MergeState(text, units, i, units[p].start, units[i - 1].end, cfg)
    ensures
      var all := MergeFrom(text, units, i, units[p].start, units[i - 1].end, cfg, rules);
      var flushed := Flush(text, units[p].start, units[i - 1].end, cfg, rules);
      if i == |units| then all == flushed
      else if EndsBefore(units, p, i, cfg) then
        && MergeState(text, units, i + 1, units[i].start, units[i].end, cfg)
        && all == flushed + MergeFrom(text, units, i + 1, units[i].start, units[i].end, cfg, rules)
      else
        && MergeState(text, units, i + 1, units[p].start, units[i].end, cfg)
        && all == MergeFrom(text, units, i + 1, units[p].start, units[i].end, cfg, rules)
  {
    hide Flush;
    if i < |units| {
      assert units[p].start < units[i].start;
      assert StartsNewBuffer(units[i], units[p].start, units[i - 1].end, cfg) <==> EndsBefore(units, p, i, cfg);
    }
  }

  /** The merging loop packs the units from `p` on. */
  lemma {:induction false} MergePacks(text: string, units: seq<Unit>, p: nat, i: nat, cfg: Config, rules: Rules) returns (cuts: seq<nat>)
    requires p < i <= |units| && cfg.Valid() && Ordered(units, 0, |text|) && UnitsFit(units, cfg)
    requires MergeState(text, units, i, units[p].start, units[i - 1].end, cfg)
    requires forall m :: p < m < i ==> !EndsBefore(units, p, m, cfg)
    ensures Packs(units, MergeFrom(text, units, i, units[p].start, units[i - 1].end, cfg, rules), cuts, cfg)
    ensures |cuts| > 0 && cuts[0] == p
    decreases |units| - i
  {
    hide *;
    BufferFits(text, units, p, i, cfg, rules);
    MergeStep(text, units, p, i, cfg, rules);
    if i == |units| {
      cuts := [p, |units|];
      PacksLast(units, p, cfg);
    } else if EndsBefore(units, p, i, cfg) {
      var rest := MergePacks(text, units, i, i + 1, cfg, rules);
      var spans := MergeFrom(text, units, i + 1, units[i].start, units[i].end, cfg, rules);
      PacksNotEmpty(units, spans, rest, cfg);
      PacksMore(units, p, spans, rest, cfg);
      cuts := [p] + rest;
    } else {
      cuts := MergePacks(text, units, p, i + 1, cfg, rules);
    }
  }

  lemma PacksNotEmpty(units: seq<Unit>, spans: seq<Span>, cuts: seq<nat>, cfg: Config)
    requires Packs(units, spans, cuts, cfg) && cuts[0] < |units|
    ensures spans != []
  {
  }

  lemma {:induction false} RawSpansArePacked(text: string, cfg: Config, rules: Rules) returns (cuts: seq<nat>)
    requires cfg.Valid() && UnitsFit(SemanticUnits(text, rules), cfg) && SemanticUnits(text, rules) != []
    ensures Packs(SemanticUnits(text, rules), RawSpans(text, cfg, rules), cuts, cfg) && |cuts| > 0 && cuts[0] == 0
  {
    var units := SemanticUnits(text, rules);
    SemanticUnitsOk(text, rules);
    hide SemanticUnits, MergeFrom, Packs, EndsBefore;
    cuts := MergePacks(text, units, 0, 1, cfg, rules);
  }

  // ------------------------------------------------------------- uniqueness

  /** The packing is determined: the first span ends at the first unit that must begin a new one, and so on. */
  lemma {:induction false} PackingIsUnique(units: seq<Unit>, a: seq<Span>, x: seq<nat>, b: seq<Span>, y: seq<nat>, cfg: Config, k: nat)
    requires Packs(units, a, x, cfg) && Packs(units, b, y, cfg) && x[0] == y[0] && k <= |a|
    ensures k <= |b| && x[k] == y[k]
  {
    if k > 0 {
      PackingIsUnique(units, a, x, b, y, cfg, k - 1);
      assert IsRun(units, x, k - 1, a[k - 1]) && MayGoOn(units, x, k - 1, cfg);
      hide EndsBefore;
      if k <= |b| {
        assert IsRun(units, y, k - 1, b[k - 1]) && MayGoOn(units, y, k - 1, cfg);
        assert k < |a| ==> MustEnd(units, x, k - 1, cfg);
        assert k < |b| ==> MustEnd(units, y, k - 1, cfg);
      }
    }
  }

  // ------------------------------------------------------- the fewest chunks

  /** Another way to cut the units into runs that fit the limit. */
  ghost predicate FitsLimit(units: seq<Unit>, other: seq<nat>, cfg: Config) {
    && |other| > 0 && other[0] == 0 && other[|other| - 1] == |units|
    && (forall j, k :: 0 <= j < k < |other| ==> other[j] < other[k] <= |units|)
    && (forall k :: 0 <= k < |other| - 1 ==> units[other[k + 1] - 1].end as int - units[other[k]].start <= cfg.maxChars)
  }

  lemma {:induction false} PackingStaysAhead(text: string, units: seq<Unit>, spans: seq<Span>, cuts: seq<nat>, other: seq<nat>, cfg: Config, k: nat)
    requires Ordered(units, 0, |text|) && Packs(units, spans, cuts, cfg) && |cuts| > 0 && cuts[0] == 0
    requires forall j :: 0 <= j < |units| ==> units[j].kind == Prose
    requires FitsLimit(units, other, cfg) && k < |other| && k < |cuts|
    ensures other[k] <= cuts[k]
  {
    if k > 0 {
      PackingStaysAhead(text, units, spans, cuts, other, cfg, k - 1);
      if k < |spans| {
        assert MustEnd(units, cuts, k - 1, cfg);
        assert units[cuts[k]].end as int - units[cuts[k - 1]].start > cfg.maxChars;
        hide Packs, EndsBefore, MustEnd;
        assert units[other[k] - 1].end as int - units[other[k - 1]].start <= cfg.maxChars;
        UnitsRise(text, units, other[k - 1], cuts[k - 1]);
        EndsEarlier(text, units, other[k] - 1, cuts[k]);
      }
    }
  }

  lemma UnitsRise(text: string, units: seq<Unit>, i: nat, j: nat)
    requires Ordered(units, 0, |text|) && i <= j < |units|
    ensures units[i].start <= units[j].start && units[i].end <= units[j].end
  {
    if i < j {
      assert units[i].end <= units[j].start;
    }
  }

  lemma EndsEarlier(text: string, units: seq<Unit>, i: nat, j: nat)
    requires Ordered(units, 0, |text|) && i < |units| && j < |units| && units[i].end < units[j].end
    ensures i < j
  {
  }

  /** Prose is packed into as few chunks as the limit allows. */
  lemma {:induction false} PackingIsFewest(text: string, units: seq<Unit>, spans: seq<Span>, cuts: seq<nat>, other: seq<nat>, cfg: Config)
    requires Ordered(units, 0, |text|) && Packs(units, spans, cuts, cfg) && |cuts| > 0 && cuts[0] == 0
    requires forall j :: 0 <= j < |units| ==> units[j].kind == Prose
    requires FitsLimit(units, other, cfg)
    ensures |spans| <= |other| - 1
  {
    var last := |other| - 1;
    if last < |spans| {
      PackingStaysAhead(text, units, spans, cuts, other, cfg, last);
      CutsEndLast(units, spans, cuts, cfg, last);
    }
  }

  lemma CutsEndLast(units: seq<Unit>, spans: seq<Span>, cuts: seq<nat>, cfg: Config, k: nat)
    requires Packs(units, spans, cuts, cfg) && k < |spans|
    ensures cuts[k] < |units|
  {
    assert IsRun(units, cuts, k, spans[k]);
  }

  // --------------------------------------------------------------- the chunks

  lemma TrimSpanFixed(text: string, s: nat, e: nat)
    requires s < e <= |text| && !IsTrimChar(text[s]) && !IsTrimChar(text[e - 1])
    ensures TrimSpan(text, s, e) == Span(s, e)
  {
  }

  ghost predicate SpansTight(text: string, spans: seq<Span>) {
    forall i :: 0 <= i < |spans| ==>
      && spans[i].start < spans[i].end <= |text|
      && !IsTrimChar(text[spans[i].start]) && !IsTrimChar(text[spans[i].end - 1])
  }

  lemma {:induction false} TrimAllFixed(text: string, spans: seq<Span>)
    requires SpansFit(text, spans) && SpansTight(text, spans)
    ensures TrimAll(text, spans) == spans
  {
    hide TrimSpan, IsTrimChar;
    if spans != [] {
      TrimSpanFixed(text, spans[0].start, spans[0].end);
      TrimAllFixed(text, spans[1..]);
      assert spans == [spans[0]] + spans[1..];
    }
  }

  /** From unit `m` of the last run on, no more than a short tail is left where a chunk could have ended. */
  ghost predicate OnlyTailAfter(units: seq<Unit>, cuts: seq<nat>, k: nat, cfg: Config) {
    && k + 1 < |cuts| && cuts[k + 1] == |units|
    && forall m :: cuts[k] < m < |units| && EndsBefore(units, cuts[k], m, cfg) ==>
         units[|units| - 1].end as int - units[m].start < cfg.minChars
  }

  /** The packing of the final chunks: only the last one may hold more, a tail shorter than the minimum. */
  ghost predicate PacksChunks(units: seq<Unit>, spans: seq<Span>, cuts: seq<nat>, cfg: Config) {
    var n := |spans|;
    && |cuts| == n + 1 && cuts[0] == 0 && cuts[n] == |units|
    && (forall k :: 0 <= k < n ==> IsRun(units, cuts, k, spans[k]))
    && (forall k :: 0 <= k < n - 1 ==> MustEnd(units, cuts, k, cfg) && MayGoOn(units, cuts, k, cfg))
    && (n > 0 ==> OnlyTailAfter(units, cuts, n - 1, cfg))
    && (n >= 2 && cfg.minChars <= cfg.targetChars ==>
          || spans[n - 1].end as int - spans[n - 1].start >= cfg.minChars
          || spans[n - 1].end as int - spans[n - 2].start > cfg.maxChars)
  }

  /** Two spans that could stand together are apart only at the target size. */
  lemma ApartAtTarget(text: string, units: seq<Unit>, spans: seq<Span>, cuts: seq<nat>, cfg: Config, k: nat)
    requires Ordered(units, 0, |text|) && Packs(units, spans, cuts, cfg) && k + 1 < |spans|
    requires spans[k + 1].end as int - spans[k].start <= cfg.maxChars
    ensures spans[k].end as int - spans[k].start >= cfg.targetChars
  {
    assert MustEnd(units, cuts, k, cfg) && IsRun(units, cuts, k, spans[k]) && IsRun(units, cuts, k + 1, spans[k + 1]);
    hide Packs;
    UnitsRise(text, units, cuts[k + 1], cuts[k + 2] - 1);
  }

  /** What absorbing the tail does to the list. */
  lemma TailForm(text: string, units: seq<Unit>, spans: seq<Span>, cuts: seq<nat>, cfg: Config)
    requires Ordered(units, 0, |text|) && Packs(units, spans, cuts, cfg) && MergeTail(spans, cfg) != spans
    ensures
      var n, out := |spans|, MergeTail(spans, cfg);
      && n >= 2 && |out| == n - 1 && (forall k :: 0 <= k < n - 2 ==> out[k] == spans[k])
      && cuts[n - 2] < cuts[n - 1] < |units|
      && out[n - 2] == Span(units[cuts[n - 2]].start, units[|units| - 1].end)
      && units[|units| - 1].end as int - units[cuts[n - 1]].start < cfg.minChars
      && out[n - 2].end as int - out[n - 2].start >= cfg.targetChars
  {
    hide EndsBefore, MustEnd, MayGoOn, Packs, MergeTail, Ordered, Tight;
    var n := |spans|;
    AbsorbedForm(spans, cfg);
    LastRuns(units, spans, cuts, cfg);
    ApartAtTarget(text, units, spans, cuts, cfg, n - 2);
    UnitsRise(text, units, cuts[n - 1] - 1, |units| - 1);
  }

  lemma AbsorbedForm(spans: seq<Span>, cfg: Config)
    requires MergeTail(spans, cfg) != spans
    ensures
      var n, out := |spans|, MergeTail(spans, cfg);
      && n >= 2 && |out| == n - 1 && (forall k :: 0 <= k < n - 2 ==> out[k] == spans[k])
      && out[n - 2] == Span(spans[n - 2].start, spans[n - 1].end)
      && spans[n - 1].end as int - spans[n - 1].start < cfg.minChars
      && spans[n - 1].end as int - spans[n - 2].start <= cfg.maxChars
  {
  }

  lemma LastRuns(units: seq<Unit>, spans: seq<Span>, cuts: seq<nat>, cfg: Config)
    requires Packs(units, spans, cuts, cfg) && |spans| >= 2
    ensures
      var n := |spans|;
      && |cuts| == n + 1 && cuts[n] == |units|
      && IsRun(units, cuts, n - 2, spans[n - 2]) && IsRun(units, cuts, n - 1, spans[n - 1])
  {
    hide MustEnd, MayGoOn, IsRun;
  }

  lemma {:induction false} AbsorbedPacks(text: string, units: seq<Unit>, spans: seq<Span>, cuts: seq<nat>, out: seq<Span>, cfg: Config)
    requires Ordered(units, 0, |text|) && Packs(units, spans, cuts, cfg) && |cuts| > 0 && cuts[0] == 0
    requires
      var n := |spans|;
      && n >= 2 && |out| == n - 1 && (forall k :: 0 <= k < n - 2 ==> out[k] == spans[k])
      && cuts[n - 2] < cuts[n - 1] < |units|
      && out[n - 2] == Span(units[cuts[n - 2]].start, units[|units| - 1].end)
      && units[|units| - 1].end as int - units[cuts[n - 1]].start < cfg.minChars
      && out[n - 2].end as int - out[n - 2].start >= cfg.targetChars
    ensures PacksChunks(units, out, cuts[..|spans| - 1] + [|units|], cfg)
  {
    var n := |spans|;
    var left := cuts[..n - 1] + [|units|];
    assert MayGoOn(units, cuts, n - 2, cfg);
    hide EndsBefore;
    forall k | 0 <= k < n - 2
      ensures IsRun(units, left, k, out[k]) && MustEnd(units, left, k, cfg) && MayGoOn(units, left, k, cfg)
    {
      assert IsRun(units, cuts, k, spans[k]) && MustEnd(units, cuts, k, cfg) && MayGoOn(units, cuts, k, cfg);
      assert left[k] == cuts[k] && left[k + 1] == cuts[k + 1];
    }
    assert IsRun(units, left, n - 2, out[n - 2]);
    forall m | left[n - 2] < m < |units| && EndsBefore(units, left[n - 2], m, cfg)
      ensures units[|units| - 1].end as int - units[m].start < cfg.minChars
    {
      assert m >= cuts[n - 1];
      UnitsRise(text, units, cuts[n - 1], m);
    }
    assert OnlyTailAfter(units, left, n - 2, cfg);
  }

  lemma UnmergedPacks(units: seq<Unit>, spans: seq<Span>, cuts: seq<nat>, cfg: Config)
    requires Packs(units, spans, cuts, cfg) && |cuts| > 0 && cuts[0] == 0 && MergeTail(spans, cfg) == spans
    ensures PacksChunks(units, spans, cuts, cfg)
  {
    var n := |spans|;
    NoShortTail(spans, cfg);
    hide EndsBefore, MergeTail;
    if n > 0 {
      assert MayGoOn(units, cuts, n - 1, cfg);
      assert OnlyTailAfter(units, cuts, n - 1, cfg);
    }
  }

  lemma NoShortTail(spans: seq<Span>, cfg: Config)
    requires MergeTail(spans, cfg) == spans
    ensures
      var n := |spans|;
      n >= 2 ==>
        || spans[n - 1].end as int - spans[n - 1].start >= cfg.minChars
        || spans[n - 1].end as int - spans[n - 2].start > cfg.maxChars
  {
    assert |MergeTail(spans, cfg)| == |spans|;
  }

  /** Absorbing the tail keeps the packing, and leaves no short tail that could be absorbed. */
  lemma {:induction false} TailPacks(text: string, units: seq<Unit>, spans: seq<Span>, cuts: seq<nat>, cfg: Config) returns (left: seq<nat>)
    requires Ordered(units, 0, |text|) && Packs(units, spans, cuts, cfg) && |cuts| > 0 && cuts[0] == 0
    ensures PacksChunks(units, MergeTail(spans, cfg), left, cfg)
  {
    hide MergeTail, PacksChunks, EndsBefore;
    if MergeTail(spans, cfg) == spans {
      left := cuts;
      UnmergedPacks(units, spans, cuts, cfg);
    } else {
      TailForm(text, units, spans, cuts, cfg);
      AbsorbedPacks(text, units, spans, cuts, MergeTail(spans, cfg), cfg);
      left := cuts[..|spans| - 1] + [|units|];
    }
  }

  lemma {:induction false} PackedTight(text: string, units: seq<Unit>, spans: seq<Span>, cuts: seq<nat>, cfg: Config)
    requires Tight(text, units) && Ordered(units, 0, |text|) && PacksChunks(units, spans, cuts, cfg)
    ensures SpansTight(text, spans)
  {
    hide IsTrimChar, EndsBefore;
    forall i | 0 <= i < |spans|
      ensures spans[i].start < spans[i].end <= |text| && !IsTrimChar(text[spans[i].start]) && !IsTrimChar(text[spans[i].end - 1])
    {
      assert IsRun(units, cuts, i, spans[i]);
      UnitsRise(text, units, cuts[i], cuts[i + 1] - 1);
    }
  }

  /**
   * When no unit alone exceeds the limit, the chunks of a document are its
   * units packed in order: a chunk ends exactly where the next unit no longer
   * fits or a structure begins at the target size, and no short tail is left
   * that would fit its predecessor.
   */
  lemma {:induction false} ChunksArePacked(text: string, cfg: Config, rules: Rules) returns (cuts: seq<nat>)
    requires cfg.Valid() && UnitsFit(SemanticUnits(text, rules), cfg) && SemanticUnits(text, rules) != []
    ensures PacksChunks(SemanticUnits(text, rules), DocumentSpans(text, cfg, rules), cuts, cfg)
  {
    var units := SemanticUnits(text, rules);
    SemanticUnitsOk(text, rules);
    MergedSpansOk(text, units, cfg, rules);
    hide SemanticUnits, MergeFrom, MergeTail, TrimAll, Packs, PacksChunks, SpansOk, Ordered, Tight;
    var raw := RawSpansArePacked(text, cfg, rules);
    var spans := RawSpans(text, cfg, rules);
    cuts := TailPacks(text, units, spans, raw, cfg);
    PackedTight(text, units, MergeTail(spans, cfg), cuts, cfg);
    TrimAllFixed(text, MergedSpans(text, units, cfg, rules));
  }

  /** Units without structure that fit the limit together make one chunk. */
  lemma {:induction false} SmallDocumentIsOneChunk(text: string, cfg: Config, rules: Rules)
    requires cfg.Valid() && !IsBlank(text) && SemanticUnits(text, rules) != []
    requires
      var units := SemanticUnits(text, rules);
      && units[|units| - 1].end as int - units[0].start <= cfg.maxChars
      && forall j :: 0 <= j < |units| ==> units[j].kind == Prose || units[j].end as int - units[j].start < cfg.minChars
    ensures
      var units, pieces := SemanticUnits(text, rules), DocumentPieces(text, cfg, rules);
      && |pieces| == 1 && pieces[0].start == units[0].start && pieces[0].end == units[|units| - 1].end
  {
    var units := SemanticUnits(text, rules);
    SemanticUnitsOk(text, rules);
    OneRun(text, units, cfg);
    hide SemanticUnits, EndsBefore, PacksChunks;
    var cuts := ChunksArePacked(text, cfg, rules);
    var spans := DocumentSpans(text, cfg, rules);
    hide DocumentSpans;
    FirstChunk(units, spans, cuts, cfg);
    assert DocumentPieces(text, cfg, rules) == PiecesOf(text, units, spans);
  }

  lemma OneRun(text: string, units: seq<Unit>, cfg: Config)
    requires Ordered(units, 0, |text|) && units != [] && units[|units| - 1].end as int - units[0].start <= cfg.maxChars
    requires forall j :: 0 <= j < |units| ==> units[j].kind == Prose || units[j].end as int - units[j].start < cfg.minChars
    ensures UnitsFit(units, cfg) && forall m :: !EndsBefore(units, 0, m, cfg)
  {
    forall m | 0 <= m < |units|
      ensures units[m].end as int - units[0].start <= cfg.maxChars && units[m].start >= units[0].start
    {
      UnitsRise(text, units, m, |units| - 1);
      UnitsRise(text, units, 0, m);
    }
  }

  lemma FirstChunk(units: seq<Unit>, spans: seq<Span>, cuts: seq<nat>, cfg: Config)
    requires PacksChunks(units, spans, cuts, cfg) && units != []
    ensures |spans| >= 2 ==> exists m :: EndsBefore(units, 0, m, cfg)
    ensures |spans| >= 1
    ensures |spans| == 1 ==> spans[0] == Span(units[0].start, units[|units| - 1].end)
  {
    hide EndsBefore;
    assert |spans| >= 2 ==> MustEnd(units, cuts, 0, cfg);
    assert |spans| >= 1 ==> IsRun(units, cuts, 0, spans[0]);
  }
}
