/**
 * From document text to semantic units: blank-line blocks, peeled section
 * headings, and the coalescing of adjacent lists, tables and FAQ pairs.
 * The regular-expression tests are the arbitrary functions of `Rules`.
 */
module SplitterUnits {
  import opened PythonText

  datatype Kind = Heading | List | Faq | Table | Clause | Prose

  datatype Unit = Unit(start: nat, end: nat, kind: Kind, heading: Option<string>)

  /**
   * The classifiers whose regular expressions the model leaves open. The line
   * tests include the `strip()` the source applies to the line first.
   */
  datatype Rules = Rules(
    isListItem: string -> bool,
    isSectionHeading: string -> bool,
    title: string -> string,
    classify: string -> (Kind, Option<string>),
    isSentenceEnd: (string, nat) -> bool,
    isListBreak: (string, nat) -> bool)

  const DEFAULT_MAX_CHUNK_CHARS := 1200
  const DEFAULT_TARGET_CHUNK_CHARS := 1000

  // ---------------------------------------------------------------- trimming

  /** The characters `_trim_span` removes; fewer than `str.strip()` does. */
  predicate IsTrimChar(c: char) {
    c == ' ' || c == '\t' || c == '\r' || c == '\n'
  }

  function TrimStart(text: string, start: nat, end: nat): (s: nat)
    requires start <= end <= |text|
    ensures start <= s <= end
    ensures forall k :: start <= k < s ==> IsTrimChar(text[k])
    ensures s < end ==> !IsTrimChar(text[s])
    decreases end - start
  {
    if start < end && IsTrimChar(text[start]) then TrimStart(text, start + 1, end) else start
  }

  function TrimEnd(text: string, start: nat, end: nat): (e: nat)
    requires start <= end <= |text|
    ensures start <= e <= end
    ensures forall k :: e <= k < end ==> IsTrimChar(text[k])
    ensures start < e ==> !IsTrimChar(text[e - 1])
    decreases end
  {
    if start < end && IsTrimChar(text[end - 1]) then TrimEnd(text, start, end - 1) else end
  }

  function TrimSpan(text: string, start: nat, end: nat): (t: Span)
    requires start <= end <= |text|
    ensures start <= t.start <= t.end <= end
    ensures forall k :: start <= k < end && !IsTrimChar(text[k]) ==> t.start <= k < t.end
    ensures t.start < t.end ==> !IsTrimChar(text[t.start]) && !IsTrimChar(text[t.end - 1])
  {
    var s := TrimStart(text, start, end);
    Span(s, TrimEnd(text, s, end))
  }

  method TrimSpanLoop(text: string, start0: nat, end0: nat) returns (start: nat, end: nat)
    requires start0 <= end0 <= |text|
    ensures Span(start, end) == TrimSpan(text, start0, end0)
  {
    start, end := start0, end0;
    while start < end && IsTrimChar(text[start])
      invariant start0 <= start <= end == end0
      invariant TrimStart(text, start, end0) == TrimStart(text, start0, end0)
    {
      start := start + 1;
    }
    while end > start && IsTrimChar(text[end - 1])
      invariant start <= end <= end0
      invariant TrimEnd(text, start, end) == TrimEnd(text, start, end0)
    {
      end := end - 1;
    }
  }

  // ------------------------------------------------------ blank-line blocks

  /** First position at or after `i` that is not whitespace. */
  function SkipSpace(text: string, i: nat): (j: nat)
    requires i <= |text|
    ensures i <= j <= |text|
    ensures forall k :: i <= k < j ==> IsSpace(text[k])
    decreases |text| - i
  {
    if i < |text| && IsSpace(text[i]) then SkipSpace(text, i + 1) else i
  }

  /**
   * The leftmost match of `\n\s*\n+` at or after `from`: it starts at a newline
   * and, the star being greedy, ends after the last newline of the whitespace
   * run that follows.
   */
  function NextBlankLine(text: string, from: nat): (m: Option<Span>)
    requires from <= |text|
    ensures m.Some? ==> from <= m.value.start < m.value.end <= |text|
    ensures m.Some? ==> forall k :: m.value.start <= k < m.value.end ==> IsSpace(text[k])
    decreases |text| - from
  {
    if from == |text| then None
    else
      var last := if text[from] == '\n' then RFind(text, '\n', from + 1, SkipSpace(text, from + 1)) else -1;
      if last >= 0 then Some(Span(from, last + 1)) else NextBlankLine(text, from + 1)
  }

  /** The stretches of text between blank lines. */
  function BlockSpans(text: string, cursor: nat): seq<Span>
    requires cursor <= |text|
    decreases |text| - cursor
  {
    match NextBlankLine(text, cursor)
    case None => if cursor < |text| then [Span(cursor, |text|)] else []
    case Some(m) => (if m.start > cursor then [Span(cursor, m.start)] else []) + BlockSpans(text, m.end)
  }

  // ------------------------------------------------------------------ lines

  predicate BlankBetween(text: string, lo: nat, hi: nat)
    requires hi <= |text|
  {
    forall k :: lo <= k < hi ==> IsSpace(text[k])
  }

  /** The line at `cursor`, unless it is blank, and where the next line starts. */
  function LineAt(text: string, cursor: nat, end: nat): (r: (seq<Span>, nat))
    requires cursor < end <= |text|
    ensures cursor < r.1 <= end
  {
    var newline := Find(text, '\n', cursor, end);
    (if BlankBetween(text, cursor, newline) then [] else [Span(cursor, newline)],
     if newline == end then end else newline + 1)
  }

  /** Non-blank lines of the block `[cursor, end)`, as ranges of the whole text. */
  function LineSpans(text: string, cursor: nat, end: nat): (lines: seq<Span>)
    requires cursor <= end <= |text|
    decreases end - cursor
  {
    if cursor == end then []
    else
      var (line, next) := LineAt(text, cursor, end);
      line + LineSpans(text, next, end)
  }

  /** Lines are non-empty ranges, and only whitespace lies before the first and between the first two. */
  ghost predicate LinesOk(text: string, cursor: nat, end: nat, lines: seq<Span>)
    requires cursor <= end <= |text|
  {
    && (forall i :: 0 <= i < |lines| ==> cursor <= lines[i].start < lines[i].end <= end)
    && (lines == [] ==> BlankBetween(text, cursor, end))
    && (lines != [] ==> BlankBetween(text, cursor, lines[0].start))
    && (|lines| >= 2 ==> lines[0].end <= lines[1].start && BlankBetween(text, lines[0].end, lines[1].start))
  }

  lemma {:induction false} LineSpansCover(text: string, cursor: nat, end: nat)
    requires cursor <= end <= |text|
    ensures LinesOk(text, cursor, end, LineSpans(text, cursor, end))
    decreases end - cursor
  {
    if cursor < end {
      hide LineAt, LinesOk;
      var (line, next) := LineAt(text, cursor, end);
      LineSpansCover(text, next, end);
      LinesConsed(text, cursor, end, LineSpans(text, next, end));
    }
  }

  lemma {:induction false} LinesConsed(text: string, cursor: nat, end: nat, rest: seq<Span>)
    requires cursor < end <= |text| && LinesOk(text, LineAt(text, cursor, end).1, end, rest)
    ensures LinesOk(text, cursor, end, LineAt(text, cursor, end).0 + rest)
  {
    hide LineAt, BlankBetween, IsSpace;
    var (line, next) := LineAt(text, cursor, end);
    LineAtForm(text, cursor, end);
    if line == [] {
      assert line + rest == rest;
      BlankJoins(text, cursor, next, if rest == [] then end else rest[0].start);
    } else {
      assert line + rest == [line[0]] + rest;
      BlankJoins(text, line[0].end, next, if rest == [] then end else rest[0].start);
    }
  }

  lemma LineAtForm(text: string, cursor: nat, end: nat)
    requires cursor < end <= |text|
    ensures
      var (line, next) := LineAt(text, cursor, end);
      if line == [] then BlankBetween(text, cursor, next)
      else line == [Span(cursor, line[0].end)] && cursor < line[0].end <= next && BlankBetween(text, line[0].end, next)
    ensures BlankBetween(text, cursor, cursor)
  {
    assert IsSpace('\n');
    hide Find, IsSpace;
  }

  lemma BlankJoins(text: string, lo: nat, mid: nat, hi: nat)
    requires lo <= mid <= hi <= |text| && BlankBetween(text, lo, mid) && BlankBetween(text, mid, hi)
    ensures BlankBetween(text, lo, hi)
  {
    hide IsSpace;
  }

  /** Loop form of `_line_spans`. */
  method LineSpansLoop(text: string, start: nat, end: nat) returns (spans: seq<Span>)
    requires start <= end <= |text|
    ensures spans == LineSpans(text, start, end)
  {
    ghost var all := LineSpans(text, start, end);
    ghost var rest := all;
    spans := [];
    var cursor := start;
    while cursor < end
      invariant start <= cursor <= end
      invariant rest == LineSpans(text, cursor, end)
      invariant spans + rest == all
    {
      hide LineAt;
      var (line, next) := LineAt(text, cursor, end);
      Regroup(spans, line, LineSpans(text, next, end), rest, all);
      spans := spans + line;
      cursor, rest := next, LineSpans(text, next, end);
    }
  }

  // ------------------------------------------------------------------ units

  function LineText(text: string, line: Span): string
    requires line.start <= line.end <= |text|
  {
    text[line.start..line.end]
  }

  /** A unit over the trimmed range `[start, end)`, unless that range is empty. */
  function ClassifiedUnit(text: string, t: Span, rules: Rules): (units: seq<Unit>)
    requires t.start <= t.end <= |text|
    ensures t.start == t.end ==> units == []
    ensures t.start < t.end ==> |units| == 1 && units[0].start == t.start && units[0].end == t.end
  {
    if t.start < t.end then
      var (kind, heading) := rules.classify(text[t.start..t.end]);
      [Unit(t.start, t.end, kind, heading)]
    else []
  }

  /** Heading and body of a block whose first line ends at `cut` and whose second starts at `resume`. */
  function PeeledUnits(text: string, t: Span, cut: nat, resume: nat, title: string, rules: Rules): seq<Unit>
    requires t.start <= cut <= resume <= t.end <= |text|
  {
    var h := TrimSpan(text, t.start, cut);
    (if h.start < h.end then [Unit(h.start, h.end, Heading, Some(title))] else [])
    + ClassifiedUnit(text, TrimSpan(text, resume, t.end), rules)
  }

  predicate AllListItems(text: string, lines: seq<Span>, rules: Rules)
    requires forall i :: 0 <= i < |lines| ==> lines[i].start <= lines[i].end <= |text|
  {
    forall i :: 0 <= i < |lines| ==> rules.isListItem(LineText(text, lines[i]))
  }

  /** The units of a trimmed, non-empty block with the given lines. */
  function UnitsFromLines(text: string, t: Span, lines: seq<Span>, rules: Rules): seq<Unit>
    requires t.start < t.end <= |text| && LinesOk(text, t.start, t.end, lines)
  {
    if lines == [] then []
    else if |lines| >= 2 && AllListItems(text, lines, rules) then
      [Unit(t.start, t.end, List, None)]
    else if |lines| >= 2 && rules.isSectionHeading(LineText(text, lines[0])) then
      PeeledUnits(text, t, lines[0].end, lines[1].start, rules.title(LineText(text, lines[0])), rules)
    else
      ClassifiedUnit(text, t, rules)
  }

  /** `_units_from_block`: at most a peeled heading and one body unit. */
  function UnitsFromBlock(text: string, start: nat, end: nat, rules: Rules): seq<Unit>
    requires start <= end <= |text|
  {
    var t := TrimSpan(text, start, end);
    if t.start >= t.end then []
    else
      LineSpansCover(text, t.start, t.end);
      UnitsFromLines(text, t, LineSpans(text, t.start, t.end), rules)
  }

  /** Ranges are non-empty, in `[lo, hi]`, and each ends before the next begins. */
  ghost predicate OrderedSpans(spans: seq<Span>, lo: nat, hi: nat) {
    && (forall i :: 0 <= i < |spans| ==> lo <= spans[i].start < spans[i].end <= hi)
    && (forall i, j :: 0 <= i < j < |spans| ==> spans[i].end <= spans[j].start)
  }

  ghost predicate InSpans(spans: seq<Span>, k: nat) {
    exists i :: 0 <= i < |spans| && spans[i].start <= k < spans[i].end
  }

  lemma InSpansConcat(a: seq<Span>, b: seq<Span>, k: nat)
    ensures InSpans(a, k) || InSpans(b, k) ==> InSpans(a + b, k)
  {
    if InSpans(a, k) {
      var i :| 0 <= i < |a| && a[i].start <= k < a[i].end;
      assert (a + b)[i] == a[i];
    } else if InSpans(b, k) {
      var i :| 0 <= i < |b| && b[i].start <= k < b[i].end;
      assert (a + b)[|a| + i] == b[i];
    }
  }

  ghost predicate SpansFit(text: string, spans: seq<Span>) {
    forall i :: 0 <= i < |spans| ==> spans[i].start <= spans[i].end <= |text|
  }

  /** Units from the blocks `spans[i..]`. */
  function UnitsFromSpans(text: string, spans: seq<Span>, i: nat, rules: Rules): seq<Unit>
    requires i <= |spans| && SpansFit(text, spans)
    decreases |spans| - i
  {
    if i == |spans| then []
    else UnitsFromBlock(text, spans[i].start, spans[i].end, rules) + UnitsFromSpans(text, spans, i + 1, rules)
  }

  /** The blocks, or the whole text when there is none. */
  function Blocks(text: string): (spans: seq<Span>)
    ensures SpansFit(text, spans)
  {
    BlockSpansOk(text, 0);
    var spans := BlockSpans(text, 0);
    if spans == [] then [Span(0, |text|)] else spans
  }

  function ParagraphUnits(text: string, rules: Rules): seq<Unit> {
    UnitsFromSpans(text, Blocks(text), 0, rules)
  }

  /** The first loop of `_paragraph_units`. */
  method BlocksLoop(text: string) returns (spans: seq<Span>)
    ensures spans == Blocks(text)
  {
    ghost var all := BlockSpans(text, 0);
    spans := [];
    var cursor := 0;
    var next := NextBlankLine(text, cursor);
    while next.Some?
      invariant cursor <= |text|
      invariant next == NextBlankLine(text, cursor)
      invariant spans + BlockSpans(text, cursor) == all
      decreases |text| - cursor
    {
      hide NextBlankLine;
      var block := if next.value.start > cursor then [Span(cursor, next.value.start)] else [];
      Regroup(spans, block, BlockSpans(text, next.value.end), BlockSpans(text, cursor), all);
      spans := spans + block;
      cursor := next.value.end;
      next := NextBlankLine(text, cursor);
    }
    if cursor < |text| {
      spans := spans + [Span(cursor, |text|)];
    }
    if spans == [] {
      spans := [Span(0, |text|)];
    }
  }

  /** `_paragraph_units`. */
  method ParagraphUnitsLoop(text: string, rules: Rules) returns (units: seq<Unit>)
    ensures units == ParagraphUnits(text, rules)
  {
    hide UnitsFromBlock, Blocks;
    var spans := BlocksLoop(text);
    ghost var all := ParagraphUnits(text, rules);
    units := [];
    for i := 0 to |spans|
      invariant units + UnitsFromSpans(text, spans, i, rules) == all
    {
      var block := UnitsFromBlock(text, spans[i].start, spans[i].end, rules);
      Regroup(units, block, UnitsFromSpans(text, spans, i + 1, rules), UnitsFromSpans(text, spans, i, rules), all);
      units := units + block;
    }
  }

  // ------------------------------------------------------- order and coverage

  /** Units are non-empty, in `[lo, hi]`, and each ends before the next begins. */
  ghost predicate Ordered(units: seq<Unit>, lo: nat, hi: nat) {
    && (forall i :: 0 <= i < |units| ==> lo <= units[i].start < units[i].end <= hi)
    && (forall i, j :: 0 <= i < j < |units| ==> units[i].end <= units[j].start)
  }

  ghost predicate InUnit(units: seq<Unit>, k: nat) {
    exists i :: 0 <= i < |units| && units[i].start <= k < units[i].end
  }

  /** Units start and end on characters that `_trim_span` keeps. */
  ghost predicate Tight(text: string, units: seq<Unit>) {
    forall i :: 0 <= i < |units| ==>
      && units[i].start < units[i].end <= |text|
      && !IsTrimChar(text[units[i].start]) && !IsTrimChar(text[units[i].end - 1])
  }

  lemma InUnitConcat(a: seq<Unit>, b: seq<Unit>, k: nat)
    ensures InUnit(a, k) || InUnit(b, k) ==> InUnit(a + b, k)
  {
    if InUnit(a, k) {
      var i :| 0 <= i < |a| && a[i].start <= k < a[i].end;
      assert (a + b)[i] == a[i];
    } else if InUnit(b, k) {
      var i :| 0 <= i < |b| && b[i].start <= k < b[i].end;
      assert (a + b)[|a| + i] == b[i];
    }
  }

  lemma {:induction false} BlockSpansOk(text: string, cursor: nat)
    requires cursor <= |text|
    ensures OrderedSpans(BlockSpans(text, cursor), cursor, |text|)
    decreases |text| - cursor
  {
    match NextBlankLine(text, cursor)
    case None =>
    case Some(m) => BlockSpansOk(text, m.end);
  }

  /** No block loses a non-whitespace character. */
  lemma {:induction false} BlockSpansCover(text: string, cursor: nat, k: nat)
    requires cursor <= k < |text| && !IsSpace(text[k])
    ensures InSpans(BlockSpans(text, cursor), k)
    decreases |text| - cursor
  {
    match NextBlankLine(text, cursor)
    case None => assert BlockSpans(text, cursor)[0] == Span(cursor, |text|);
    case Some(m) =>
      var head := if m.start > cursor then [Span(cursor, m.start)] else [];
      var rest := BlockSpans(text, m.end);
      assert BlockSpans(text, cursor) == head + rest;
      if k < m.start {
        assert head[0] == Span(cursor, m.start);
      } else {
        BlockSpansCover(text, m.end, k);
      }
      InSpansConcat(head, rest, k);
  }

  lemma {:induction false} PeeledUnitsOk(text: string, t: Span, cut: nat, resume: nat, title: string, rules: Rules)
    requires t.start <= cut <= resume <= t.end <= |text|
    ensures var units := PeeledUnits(text, t, cut, resume, title, rules);
      Ordered(units, t.start, t.end) && Tight(text, units)
  {
    hide TrimSpan, ClassifiedUnit, IsTrimChar;
  }

  lemma {:induction false} PeeledUnitsCover(text: string, t: Span, cut: nat, resume: nat, title: string, rules: Rules, k: nat)
    requires t.start <= cut <= resume <= t.end <= |text|
    requires t.start <= k < cut || resume <= k < t.end
    requires !IsSpace(text[k])
    ensures InUnit(PeeledUnits(text, t, cut, resume, title, rules), k)
  {
    var units := PeeledUnits(text, t, cut, resume, title, rules);
    if k < cut {
      assert units[0].start <= k < units[0].end;
    } else {
      assert units[|units| - 1].start <= k < units[|units| - 1].end;
    }
  }

  lemma {:induction false} UnitsFromLinesOk(text: string, t: Span, lines: seq<Span>, rules: Rules)
    requires t.start < t.end <= |text| && LinesOk(text, t.start, t.end, lines)
    requires !IsTrimChar(text[t.start]) && !IsTrimChar(text[t.end - 1])
    ensures var units := UnitsFromLines(text, t, lines, rules);
      Ordered(units, t.start, t.end) && Tight(text, units)
  {
    if |lines| >= 2 {
      PeeledUnitsOk(text, t, lines[0].end, lines[1].start, rules.title(LineText(text, lines[0])), rules);
    }
  }

  lemma {:induction false} UnitsFromLinesCover(text: string, t: Span, lines: seq<Span>, rules: Rules, k: nat)
    requires t.start < t.end <= |text| && LinesOk(text, t.start, t.end, lines)
    requires t.start <= k < t.end && !IsSpace(text[k])
    ensures InUnit(UnitsFromLines(text, t, lines, rules), k)
  {
    assert lines != [] && lines[0].start <= k;
    var units := UnitsFromLines(text, t, lines, rules);
    if |lines| >= 2 && !AllListItems(text, lines, rules) && rules.isSectionHeading(LineText(text, lines[0])) {
      PeeledUnitsCover(text, t, lines[0].end, lines[1].start, rules.title(LineText(text, lines[0])), rules, k);
    } else {
      assert units[0].start == t.start && units[0].end == t.end;
    }
  }

  /** One block's units stay in the block, in order. */
  lemma {:induction false} UnitsFromBlockOk(text: string, start: nat, end: nat, rules: Rules)
    requires start <= end <= |text|
    ensures var units := UnitsFromBlock(text, start, end, rules);
      Ordered(units, start, end) && Tight(text, units)
  {
    var t := TrimSpan(text, start, end);
    if t.start < t.end {
      LineSpansCover(text, t.start, t.end);
      UnitsFromLinesOk(text, t, LineSpans(text, t.start, t.end), rules);
    }
  }

  /** One block loses no non-whitespace character. */
  lemma {:induction false} UnitsFromBlockCover(text: string, start: nat, end: nat, rules: Rules, k: nat)
    requires start <= k < end <= |text| && !IsSpace(text[k])
    ensures InUnit(UnitsFromBlock(text, start, end, rules), k)
  {
    var t := TrimSpan(text, start, end);
    LineSpansCover(text, t.start, t.end);
    UnitsFromLinesCover(text, t, LineSpans(text, t.start, t.end), rules, k);
  }

  lemma OrderedConcat(text: string, a: seq<Unit>, b: seq<Unit>, lo: nat, mid: nat)
    requires Ordered(a, lo, mid) && Ordered(b, mid, |text|) && lo <= mid <= |text|
    requires Tight(text, a) && Tight(text, b)
    ensures Ordered(a + b, lo, |text|) && Tight(text, a + b)
  {
  }

  lemma {:induction false} UnitsFromSpansOk(text: string, spans: seq<Span>, i: nat, lo: nat, rules: Rules)
    requires i <= |spans| && SpansFit(text, spans) && OrderedSpans(spans, 0, |text|)
    requires lo <= |text| && (i < |spans| ==> lo <= spans[i].start)
    ensures Ordered(UnitsFromSpans(text, spans, i, rules), lo, |text|)
    ensures Tight(text, UnitsFromSpans(text, spans, i, rules))
    decreases |spans| - i
  {
    if i < |spans| {
      var s := spans[i];
      UnitsFromBlockOk(text, s.start, s.end, rules);
      UnitsFromSpansOk(text, spans, i + 1, s.end, rules);
      OrderedConcat(text, UnitsFromBlock(text, s.start, s.end, rules), UnitsFromSpans(text, spans, i + 1, rules), lo, s.end);
    }
  }

  lemma {:induction false} UnitsFromSpansCover(text: string, spans: seq<Span>, i: nat, j: nat, rules: Rules, k: nat)
    requires i <= j < |spans| && SpansFit(text, spans)
    requires spans[j].start <= k < spans[j].end && !IsSpace(text[k])
    ensures InUnit(UnitsFromSpans(text, spans, i, rules), k)
    decreases |spans| - i
  {
    var s := spans[i];
    if i == j {
      UnitsFromBlockCover(text, s.start, s.end, rules, k);
    } else {
      UnitsFromSpansCover(text, spans, i + 1, j, rules, k);
    }
    InUnitConcat(UnitsFromBlock(text, s.start, s.end, rules), UnitsFromSpans(text, spans, i + 1, rules), k);
  }

  /** The paragraph units are ordered and tight. */
  lemma {:induction false} ParagraphUnitsOk(text: string, rules: Rules)
    ensures Ordered(ParagraphUnits(text, rules), 0, |text|)
    ensures Tight(text, ParagraphUnits(text, rules))
  {
    BlockSpansOk(text, 0);
    if text == "" {
      var spans := [Span(0, 0)];
      assert UnitsFromBlock(text, 0, 0, rules) == [];
      assert UnitsFromSpans(text, spans, 1, rules) == [];
      assert UnitsFromSpans(text, spans, 0, rules) == [];
    } else {
      UnitsFromSpansOk(text, Blocks(text), 0, 0, rules);
    }
  }

  /** The paragraph units hold every non-whitespace character. */
  lemma {:induction false} ParagraphUnitsCover(text: string, rules: Rules, k: nat)
    requires k < |text| && !IsSpace(text[k])
    ensures InUnit(ParagraphUnits(text, rules), k)
  {
    BlockSpansCover(text, 0, k);
    var spans := Blocks(text);
    var j :| 0 <= j < |spans| && spans[j].start <= k < spans[j].end;
    UnitsFromSpansCover(text, spans, 0, j, rules, k);
  }

  // -------------------------------------------------------------- coalescing

  /** End of the run of `kind` units that starts at `i`. */
  function RunEnd(units: seq<Unit>, kind: Kind, i: nat): (j: nat)
    requires i <= |units|
    ensures i <= j <= |units|
    ensures forall k :: i <= k < j ==> units[k].kind == kind
    ensures j < |units| ==> units[j].kind != kind
    decreases |units| - i
  {
    if i < |units| && units[i].kind == kind then RunEnd(units, kind, i + 1) else i
  }

  predicate IsFaqPair(units: seq<Unit>, i: nat)
    requires i < |units|
  {
    && units[i].kind == Faq && i + 1 < |units|
    && units[i + 1].kind in {Prose, Clause, List, Table}
    && units[i + 1].end as int - units[i].start <= DEFAULT_MAX_CHUNK_CHARS + DEFAULT_TARGET_CHUNK_CHARS
  }

  /** How many units, from `i` on, the coalescing step takes together. */
  function GroupEnd(units: seq<Unit>, i: nat): (j: nat)
    requires i < |units|
    ensures i < j <= |units|
  {
    if units[i].kind == List || units[i].kind == Table then RunEnd(units, units[i].kind, i + 1)
    else if IsFaqPair(units, i) then i + 2
    else i + 1
  }

  /** `_coalesce_semantic_units` from position `i`. */
  function Coalesce(units: seq<Unit>, i: nat): seq<Unit>
    requires i <= |units|
    decreases |units| - i
  {
    if i == |units| then []
    else
      var j := GroupEnd(units, i);
      var heading := if units[i].kind == Table then None else units[i].heading;
      [Unit(units[i].start, units[j - 1].end, units[i].kind, heading)] + Coalesce(units, j)
  }

  /** The run loop inside `_coalesce_semantic_units`. */
  method RunLoop(paragraphs: seq<Unit>, kind: Kind, first: nat) returns (end: nat, index: nat)
    requires first < |paragraphs|
    ensures index == RunEnd(paragraphs, kind, first + 1) && end == paragraphs[index - 1].end
  {
    end := paragraphs[first].end;
    index := first + 1;
    while index < |paragraphs| && paragraphs[index].kind == kind
      invariant first < index <= |paragraphs| && end == paragraphs[index - 1].end
      invariant RunEnd(paragraphs, kind, index) == RunEnd(paragraphs, kind, first + 1)
    {
      end := paragraphs[index].end;
      index := index + 1;
    }
  }

  /** Loop form of `_coalesce_semantic_units`. */
  method CoalesceLoop(paragraphs: seq<Unit>) returns (coalesced: seq<Unit>)
    ensures coalesced == Coalesce(paragraphs, 0)
  {
    ghost var all := Coalesce(paragraphs, 0);
    coalesced := [];
    var index := 0;
    while index < |paragraphs|
      invariant index <= |paragraphs|
      invariant coalesced + Coalesce(paragraphs, index) == all
    {
      var current := paragraphs[index];
      var unit, next := current, index + 1;
      if current.kind == List {
        var end, stop := RunLoop(paragraphs, List, index);
        unit, next := Unit(current.start, end, List, current.heading), stop;
      } else if IsFaqPair(paragraphs, index) {
        unit, next := Unit(current.start, paragraphs[index + 1].end, Faq, current.heading), index + 2;
      } else if current.kind == Table {
        var end, stop := RunLoop(paragraphs, Table, index);
        unit, next := Unit(current.start, end, Table, None), stop;
      }
      assert next == GroupEnd(paragraphs, index);
      Regroup(coalesced, [unit], Coalesce(paragraphs, next), Coalesce(paragraphs, index), all);
      coalesced := coalesced + [unit];
      index := next;
    }
  }

  /** Unit `u` lies inside some unit of `units`. */
  ghost predicate InsideSome(units: seq<Unit>, u: Unit) {
    exists i :: 0 <= i < |units| && units[i].start <= u.start && u.end <= units[i].end
  }

  /** Coalescing keeps order and tightness. */
  lemma {:induction false} CoalesceOk(text: string, units: seq<Unit>, i: nat, lo: nat)
    requires i <= |units|
    requires Ordered(units, 0, |text|) && Tight(text, units)
    requires i < |units| ==> lo <= units[i].start
    ensures Ordered(Coalesce(units, i), lo, |text|) && Tight(text, Coalesce(units, i))
    decreases |units| - i
  {
    if i < |units| {
      var j := GroupEnd(units, i);
      CoalesceOk(text, units, j, units[j - 1].end);
      var head := Coalesce(units, i)[0];
      OrderedConcat(text, [head], Coalesce(units, j), lo, head.end);
    }
  }

  /** Coalescing cuts no unit. */
  lemma {:induction false} CoalesceKeeps(units: seq<Unit>, i: nat, k: nat, hi: nat)
    requires i <= k < |units| && Ordered(units, 0, hi)
    ensures InsideSome(Coalesce(units, i), units[k])
    decreases |units| - i
  {
    var j := GroupEnd(units, i);
    var out, rest := Coalesce(units, i), Coalesce(units, j);
    if k < j {
      assert out[0].start <= units[k].start && units[k].end <= out[0].end;
    } else {
      CoalesceKeeps(units, j, k, hi);
      var r :| 0 <= r < |rest| && rest[r].start <= units[k].start && units[k].end <= rest[r].end;
      assert out[r + 1] == rest[r];
    }
  }

  /** The semantic units of a document, as `split_persian_document` computes them. */
  function SemanticUnits(text: string, rules: Rules): seq<Unit> {
    Coalesce(ParagraphUnits(text, rules), 0)
  }

  lemma {:induction false} SemanticUnitsOk(text: string, rules: Rules)
    ensures Ordered(SemanticUnits(text, rules), 0, |text|)
    ensures Tight(text, SemanticUnits(text, rules))
  {
    ParagraphUnitsOk(text, rules);
    CoalesceOk(text, ParagraphUnits(text, rules), 0, 0);
  }

  /** Every non-whitespace character, and every paragraph unit whole, is in a semantic unit. */
  lemma {:induction false} SemanticUnitsCover(text: string, rules: Rules, k: nat)
    requires k < |text| && !IsSpace(text[k])
    ensures InUnit(SemanticUnits(text, rules), k)
    ensures forall p :: 0 <= p < |ParagraphUnits(text, rules)| ==>
      InsideSome(SemanticUnits(text, rules), ParagraphUnits(text, rules)[p])
  {
    var paragraphs, units := ParagraphUnits(text, rules), SemanticUnits(text, rules);
    ParagraphUnitsOk(text, rules);
    ParagraphUnitsCover(text, rules, k);
    forall p | 0 <= p < |paragraphs|
      ensures InsideSome(units, paragraphs[p])
    {
      CoalesceKeeps(paragraphs, 0, p, |text|);
    }
    var p :| 0 <= p < |paragraphs| && paragraphs[p].start <= k < paragraphs[p].end;
    assert InsideSome(units, paragraphs[p]);
  }
}
