/** Where units begin and end: blank lines separate blocks, and lists, tables and questions are grouped as far as they reach. */
module SplitterBlocks {
  import opened PythonText
  import opened SplitterUnits

  /** Two newlines with nothing but whitespace between them. */
  ghost predicate BlankLineAt(text: string, a: nat, b: nat) {
    && a < b < |text| && text[a] == '\n' && text[b] == '\n' && forall k :: a < k < b ==> IsSpace(text[k])
  }

  ghost predicate HasBlankLine(text: string, lo: nat, hi: nat) {
    exists a: nat, b: nat :: lo <= a && b < hi && BlankLineAt(text, a, b)
  }

  lemma {:induction false} SkipSpaceReaches(text: string, i: nat, b: nat)
    requires i <= b < |text| && forall k :: i <= k <= b ==> IsSpace(text[k])
    ensures SkipSpace(text, i) > b
    decreases b - i
  {
    hide IsSpace;
    if i < b {
      SkipSpaceReaches(text, i + 1, b);
    }
  }

  /** The match found is the first blank line, and one is found whenever there is one. */
  lemma {:induction false} NextBlankLineIsFirst(text: string, from: nat, a: nat, b: nat)
    requires from <= a && BlankLineAt(text, a, b)
    ensures NextBlankLine(text, from).Some? && NextBlankLine(text, from).value.start <= a
    decreases |text| - from
  {
    assert IsSpace('\n');
    hide IsSpace;
    if a == from {
      SkipSpaceReaches(text, from + 1, b);
    } else {
      NextBlankLineIsFirst(text, from + 1, a, b);
    }
  }

  lemma {:induction false} MatchIsBlankLine(text: string, from: nat)
    requires from <= |text| && NextBlankLine(text, from).Some?
    ensures var m := NextBlankLine(text, from).value; BlankLineAt(text, m.start, m.end - 1)
    decreases |text| - from
  {
    hide IsSpace;
    if text[from] == '\n' && RFind(text, '\n', from + 1, SkipSpace(text, from + 1)) >= 0 {
    } else {
      MatchIsBlankLine(text, from + 1);
    }
  }

  /** No block holds a blank line, and a blank line separates any block from the next. */
  ghost predicate AreBlocks(text: string, spans: seq<Span>, from: nat) {
    && (forall i :: 0 <= i < |spans| ==> from <= spans[i].start <= spans[i].end <= |text| && !HasBlankLine(text, spans[i].start, spans[i].end))
    && (forall i, j :: 0 <= i < j < |spans| ==> HasBlankLine(text, spans[i].end, spans[j].start))
  }

  lemma WiderHasBlankLine(text: string, lo: nat, hi: nat, lo': nat, hi': nat)
    requires lo' <= lo && hi <= hi' && HasBlankLine(text, lo, hi)
    ensures HasBlankLine(text, lo', hi')
  {
  }

  lemma {:induction false} BlockSpansAreBlocks(text: string, cursor: nat)
    requires cursor <= |text|
    ensures AreBlocks(text, BlockSpans(text, cursor), cursor)
    decreases |text| - cursor
  {
    hide NextBlankLine, IsSpace;
    if NextBlankLine(text, cursor).None? {
      if a: nat, b: nat :| cursor <= a && BlankLineAt(text, a, b) {
        NextBlankLineIsFirst(text, cursor, a, b);
      }
    } else {
      var m := NextBlankLine(text, cursor).value;
      MatchIsBlankLine(text, cursor);
      assert HasBlankLine(text, m.start, m.end);
      BlockSpansAreBlocks(text, m.end);
      forall a: nat, b: nat | cursor <= a && BlankLineAt(text, a, b)
        ensures b >= m.start
      {
        NextBlankLineIsFirst(text, cursor, a, b);
      }
      assert !HasBlankLine(text, cursor, m.start);
      BlocksConsed(text, cursor, m, BlockSpans(text, m.end));
    }
  }

  lemma BlocksConsed(text: string, cursor: nat, m: Span, rest: seq<Span>)
    requires cursor <= m.start < m.end <= |text| && !HasBlankLine(text, cursor, m.start) && HasBlankLine(text, m.start, m.end)
    requires AreBlocks(text, rest, m.end)
    ensures AreBlocks(text, (if m.start > cursor then [Span(cursor, m.start)] else []) + rest, cursor)
  {
    hide HasBlankLine;
    var spans := (if m.start > cursor then [Span(cursor, m.start)] else []) + rest;
    forall j | 0 <= j < |rest|
      ensures HasBlankLine(text, m.start, rest[j].start)
    {
      WiderHasBlankLine(text, m.start, m.end, m.start, rest[j].start);
    }
    if m.start == cursor {
      assert spans == rest;
    } else {
      forall i, j | 0 <= i < j < |spans|
        ensures HasBlankLine(text, spans[i].end, spans[j].start)
      {
        assert spans[j] == rest[j - 1];
        if i > 0 {
          assert spans[i] == rest[i - 1];
        }
      }
    }
  }

  // ------------------------------------------------------------------- units

  ghost predicate InBlock(block: Span, u: Unit) { block.start <= u.start && u.start < u.end <= block.end }

  /** Units that hold no blank line and are separated by one, but for a heading and the body it was taken from. */
  ghost predicate AreUnits(text: string, units: seq<Unit>) {
    && (forall k :: 0 <= k < |units| ==> !HasBlankLine(text, units[k].start, units[k].end))
    && (forall j, k :: 0 <= j < k < |units| ==>
          HasBlankLine(text, units[j].end, units[k].start) || (k == j + 1 && units[j].kind == Heading))
  }

  /** One block gives at most two units, and of two the first is a heading. */
  lemma {:induction false} BlockUnits(text: string, start: nat, end: nat, rules: Rules)
    requires start <= end <= |text|
    ensures var units := UnitsFromBlock(text, start, end, rules);
      && |units| <= 2 && (|units| == 2 ==> units[0].kind == Heading)
      && forall k :: 0 <= k < |units| ==> InBlock(Span(start, end), units[k])
  {
    UnitsFromBlockOk(text, start, end, rules);
    hide TrimSpan, LineSpans, Ordered, Tight;
    var units := UnitsFromBlock(text, start, end, rules);
    OrderedIn(text, units, start, end);
  }

  lemma OrderedIn(text: string, units: seq<Unit>, start: nat, end: nat)
    requires Ordered(units, start, end)
    ensures forall k :: 0 <= k < |units| ==> InBlock(Span(start, end), units[k])
  {
  }

  lemma {:induction false} UnitsOfBlocks(text: string, spans: seq<Span>, i: nat, rules: Rules)
    requires i <= |spans| && SpansFit(text, spans) && AreBlocks(text, spans, 0)
    ensures var units := UnitsFromSpans(text, spans, i, rules);
      && AreUnits(text, units)
      && forall k :: 0 <= k < |units| ==> i < |spans| && spans[i].start <= units[k].start
    decreases |spans| - i
  {
    if i < |spans| {
      UnitsOfBlocks(text, spans, i + 1, rules);
      BlockUnits(text, spans[i].start, spans[i].end, rules);
      hide UnitsFromBlock;
      var own, rest := UnitsFromBlock(text, spans[i].start, spans[i].end, rules), UnitsFromSpans(text, spans, i + 1, rules);
      if i + 1 < |spans| {
        assert HasBlankLine(text, spans[i].end, spans[i + 1].start);
        hide UnitsFromSpans;
        UnitsConsed(text, spans[i], spans[i + 1].start, own, rest);
      } else {
        assert rest == [];
        hide UnitsFromSpans;
        UnitsConsed(text, spans[i], |text|, own, rest);
      }
    }
  }

  lemma UnitsConsed(text: string, block: Span, next: nat, own: seq<Unit>, rest: seq<Unit>)
    requires |own| <= 2 && (|own| == 2 ==> own[0].kind == Heading) && forall k :: 0 <= k < |own| ==> InBlock(block, own[k])
    requires block.start <= block.end && !HasBlankLine(text, block.start, block.end)
    requires AreUnits(text, rest) && forall k :: 0 <= k < |rest| ==> next <= rest[k].start
    requires rest != [] ==> HasBlankLine(text, block.end, next) && block.end <= next
    ensures AreUnits(text, own + rest) && forall k :: 0 <= k < |own + rest| ==> block.start <= (own + rest)[k].start
  {
    hide HasBlankLine;
    var units := own + rest;
    forall k | 0 <= k < |own|
      ensures !HasBlankLine(text, own[k].start, own[k].end)
    {
      if HasBlankLine(text, own[k].start, own[k].end) {
        WiderHasBlankLine(text, own[k].start, own[k].end, block.start, block.end);
      }
    }
    forall j, k | 0 <= j < k < |units|
      ensures HasBlankLine(text, units[j].end, units[k].start) || (k == j + 1 && units[j].kind == Heading)
    {
      if j < |own| <= k {
        assert units[k] == rest[k - |own|];
        WiderHasBlankLine(text, block.end, next, units[j].end, units[k].start);
      } else if |own| <= j {
        assert units[k] == rest[k - |own|] && units[j] == rest[j - |own|];
      }
    }
  }

  lemma {:induction false} BlankHasNoLines(text: string, cursor: nat, end: nat)
    requires cursor <= end <= |text| && BlankBetween(text, cursor, end)
    ensures LineSpans(text, cursor, end) == []
    decreases end - cursor
  {
    hide IsSpace;
    if cursor < end {
      BlankHasNoLines(text, LineAt(text, cursor, end).1, end);
    }
  }

  /**
   * Blank lines separate: no unit holds one, and between two units there is
   * one, unless the first is a heading taken from the front of the second.
   */
  lemma {:induction false} BlankLinesSeparate(text: string, rules: Rules)
    ensures AreUnits(text, ParagraphUnits(text, rules))
  {
    BlockSpansOk(text, 0);
    BlockSpansAreBlocks(text, 0);
    if BlockSpans(text, 0) == [] {
      NoBlocksNoUnits(text, rules);
    } else {
      hide BlockSpans, AreBlocks, AreUnits;
      UnitsOfBlocks(text, Blocks(text), 0, rules);
    }
  }

  lemma {:induction false} NoBlocksNoUnits(text: string, rules: Rules)
    requires BlockSpans(text, 0) == []
    ensures ParagraphUnits(text, rules) == []
  {
    hide IsSpace, TrimSpan;
    forall k | 0 <= k < |text|
      ensures IsSpace(text[k])
    {
      if !IsSpace(text[k]) {
        BlockSpansCover(text, 0, k);
      }
    }
    var t := TrimSpan(text, 0, |text|);
    BlankHasNoLines(text, t.start, t.end);
    assert UnitsFromBlock(text, 0, |text|, rules) == [];
    hide UnitsFromBlock, LineSpans;
    assert UnitsFromSpans(text, [Span(0, |text|)], 1, rules) == [];
  }

  // -------------------------------------------------------------------- lines

  /** A stretch between newlines or the ends of `[lo, hi)` that is not blank. */
  ghost predicate IsLine(text: string, lo: nat, hi: nat, s: Span) {
    && lo <= s.start < s.end <= hi <= |text|
    && (forall k :: s.start <= k < s.end ==> text[k] != '\n')
    && (exists k :: s.start <= k < s.end && !IsSpace(text[k]))
    && (s.start == lo || text[s.start - 1] == '\n') && (s.end == hi || text[s.end] == '\n')
  }

  lemma {:induction false} FindIsFirst(text: string, c: char, lo: nat, hi: nat, k: nat)
    requires lo <= k < hi <= |text| && text[k] == c
    ensures Find(text, c, lo, hi) <= k
    decreases hi - lo
  {
    if text[lo] != c {
      FindIsFirst(text, c, lo + 1, hi, k);
    }
  }

  lemma {:induction false} FindSkips(text: string, c: char, lo: nat, hi: nat, k: nat)
    requires lo <= hi <= |text| && lo <= k < Find(text, c, lo, hi)
    ensures text[k] != c
    decreases hi - lo
  {
    if k > lo {
      FindSkips(text, c, lo + 1, hi, k);
    }
  }

  /** The first line of a range, or none when it is blank. */
  lemma FirstLine(text: string, lo: nat, hi: nat, s: Span)
    requires lo < hi <= |text|
    ensures var (line, next) := LineAt(text, lo, hi);
      && (s in line <==> IsLine(text, lo, hi, s) && s.start == lo)
      && (IsLine(text, lo, hi, s) && s.start > lo ==> IsLine(text, next, hi, s))
      && (IsLine(text, next, hi, s) && next < hi ==> IsLine(text, lo, hi, s) && s.start > lo)
  {
    var newline := Find(text, '\n', lo, hi);
    hide IsSpace, Find;
    forall k | lo <= k < newline
      ensures text[k] != '\n'
    {
      FindSkips(text, '\n', lo, hi, k);
    }
    if IsLine(text, lo, hi, s) {
      if s.start == lo {
        if s.end < hi {
          FindIsFirst(text, '\n', lo, hi, s.end);
        }
        assert newline == s.end;
      } else {
        FindIsFirst(text, '\n', lo, hi, s.start - 1);
      }
    }
  }

  /** The lines of a block are exactly its lines. */
  lemma {:induction false} LinesExactly(text: string, lo: nat, hi: nat, s: Span)
    requires lo <= hi <= |text|
    ensures s in LineSpans(text, lo, hi) <==> IsLine(text, lo, hi, s)
    decreases hi - lo
  {
    if lo < hi {
      FirstLine(text, lo, hi, s);
      hide IsLine, LineAt;
      var next := LineAt(text, lo, hi).1;
      LinesExactly(text, next, hi, s);
      NoLineInNothing(text, hi, s);
    } else {
      NoLineInNothing(text, hi, s);
    }
  }

  lemma NoLineInNothing(text: string, hi: nat, s: Span)
    ensures !IsLine(text, hi, hi, s)
  {
  }

  /** The lines come in order. */
  lemma {:induction false} LinesInOrder(text: string, lo: nat, hi: nat)
    requires lo <= hi <= |text|
    ensures forall i, j :: 0 <= i < j < |LineSpans(text, lo, hi)| ==> LineSpans(text, lo, hi)[i].start < LineSpans(text, lo, hi)[j].start
    decreases hi - lo
  {
    if lo < hi {
      var (line, next) := LineAt(text, lo, hi);
      var rest := LineSpans(text, next, hi);
      LinesInOrder(text, next, hi);
      forall j | 0 <= j < |rest|
        ensures rest[j].start >= next
      {
        LinesExactly(text, next, hi, rest[j]);
      }
    }
  }

  /** `a` is the first of the lines of a block and `b` the next one. */
  ghost predicate AreFirstLines(text: string, lo: nat, hi: nat, a: Span, b: Span) {
    && IsLine(text, lo, hi, a) && IsLine(text, lo, hi, b) && a.start < b.start
    && forall s :: IsLine(text, lo, hi, s) ==> s == a || s == b || s.start > b.start
  }

  lemma {:induction false} FirstLinesAt(text: string, lo: nat, hi: nat, a: Span, b: Span)
    requires lo <= hi <= |text| && AreFirstLines(text, lo, hi, a, b)
    ensures var lines := LineSpans(text, lo, hi); |lines| >= 2 && lines[0] == a && lines[1] == b
  {
    var lines := LineSpans(text, lo, hi);
    LinesInOrder(text, lo, hi);
    LinesExactly(text, lo, hi, a);
    LinesExactly(text, lo, hi, b);
    hide IsLine, LineSpans;
    var i :| 0 <= i < |lines| && lines[i] == a;
    var j :| 0 <= j < |lines| && lines[j] == b;
    LinesExactly(text, lo, hi, lines[0]);
    LinesExactly(text, lo, hi, lines[1]);
    assert lines[0] in lines && lines[1] in lines;
  }

  // -------------------------------------------------------------------- kinds

  /** A block of several lines that are all list items is one list. */
  lemma {:induction false} ListBlocksAreLists(text: string, start: nat, end: nat, rules: Rules, a: Span, b: Span)
    requires start <= end <= |text|
    requires var t := TrimSpan(text, start, end); AreFirstLines(text, t.start, t.end, a, b)
    requires forall s :: IsLine(text, TrimSpan(text, start, end).start, TrimSpan(text, start, end).end, s) ==> rules.isListItem(text[s.start..s.end])
    ensures var t := TrimSpan(text, start, end);
      UnitsFromBlock(text, start, end, rules) == [Unit(t.start, t.end, List, None)]
  {
    var t := TrimSpan(text, start, end);
    hide TrimSpan;
    FirstLinesAt(text, t.start, t.end, a, b);
    LineSpansCover(text, t.start, t.end);
    var lines := LineSpans(text, t.start, t.end);
    forall i | 0 <= i < |lines|
      ensures rules.isListItem(LineText(text, lines[i]))
    {
      assert lines[i] in lines;
      LinesExactly(text, t.start, t.end, lines[i]);
    }
    hide IsLine, LineSpans;
  }

  /**
   * Of any other block of several lines the first line, if it is a section
   * heading, becomes a heading unit with its title, and the rest is
   * classified; a block that does not begin with one is classified whole.
   */
  lemma {:induction false} HeadingsArePeeled(text: string, start: nat, end: nat, rules: Rules, a: Span, b: Span, item: Span)
    requires start <= end <= |text|
    requires var t := TrimSpan(text, start, end); AreFirstLines(text, t.start, t.end, a, b) && IsLine(text, t.start, t.end, item)
    requires !rules.isListItem(text[item.start..item.end])
    ensures
      var t, units := TrimSpan(text, start, end), UnitsFromBlock(text, start, end, rules);
      if rules.isSectionHeading(text[a.start..a.end]) then
        var h, body := TrimSpan(text, t.start, a.end), TrimSpan(text, b.start, t.end);
        && h.start < h.end && body.start < body.end && |units| == 2
        && units[0] == Unit(h.start, h.end, Heading, Some(rules.title(text[a.start..a.end])))
        && units[1].start == body.start && units[1].end == body.end
        && (units[1].kind, units[1].heading) == rules.classify(text[body.start..body.end])
      else
        |units| == 1 && units[0].start == t.start && units[0].end == t.end
        && (units[0].kind, units[0].heading) == rules.classify(text[t.start..t.end])
  {
    hide *;
    var t := TrimSpan(text, start, end);
    var lines := LineSpans(text, t.start, t.end);
    FirstLinesAt(text, t.start, t.end, a, b);
    FirstLinesIn(text, t.start, t.end, a, b);
    LineSpansCover(text, t.start, t.end);
    NotAllItems(text, t.start, t.end, rules, item);
    BlockOfLines(text, start, end, rules);
    NotBlankTrims(text, t.start, t.end, a, t.start, a.end);
    NotBlankTrims(text, t.start, t.end, b, b.start, t.end);
    PeeledForm(text, t, lines, rules);
  }

  lemma FirstLinesIn(text: string, lo: nat, hi: nat, a: Span, b: Span)
    requires AreFirstLines(text, lo, hi, a, b)
    ensures IsLine(text, lo, hi, a) && IsLine(text, lo, hi, b)
    ensures lo <= a.start < a.end <= hi && lo <= b.start < b.end <= hi
  {
  }

  lemma NotAllItems(text: string, lo: nat, hi: nat, rules: Rules, item: Span)
    requires IsLine(text, lo, hi, item) && !rules.isListItem(text[item.start..item.end]) && LinesOk(text, lo, hi, LineSpans(text, lo, hi))
    ensures !AllListItems(text, LineSpans(text, lo, hi), rules)
  {
    LinesExactly(text, lo, hi, item);
    hide IsLine, LineSpans;
    var lines := LineSpans(text, lo, hi);
    var i :| 0 <= i < |lines| && lines[i] == item;
    assert !rules.isListItem(LineText(text, lines[i]));
  }

  lemma BlockOfLines(text: string, start: nat, end: nat, rules: Rules)
    requires start <= end <= |text|
    requires var t := TrimSpan(text, start, end); t.start < t.end && LinesOk(text, t.start, t.end, LineSpans(text, t.start, t.end))
    ensures var t := TrimSpan(text, start, end);
      UnitsFromBlock(text, start, end, rules) == UnitsFromLines(text, t, LineSpans(text, t.start, t.end), rules)
  {
    hide TrimSpan, LineSpans, LinesOk, UnitsFromLines;
  }

  lemma PeeledForm(text: string, t: Span, lines: seq<Span>, rules: Rules)
    requires t.start < t.end <= |text| && LinesOk(text, t.start, t.end, lines) && |lines| >= 2 && !AllListItems(text, lines, rules)
    requires
      var h, body := TrimSpan(text, t.start, lines[0].end), TrimSpan(text, lines[1].start, t.end);
      h.start < h.end && body.start < body.end
    ensures
      var units, a := UnitsFromLines(text, t, lines, rules), lines[0];
      if rules.isSectionHeading(text[a.start..a.end]) then
        var h, body := TrimSpan(text, t.start, a.end), TrimSpan(text, lines[1].start, t.end);
        && |units| == 2
        && units[0] == Unit(h.start, h.end, Heading, Some(rules.title(text[a.start..a.end])))
        && units[1].start == body.start && units[1].end == body.end
        && (units[1].kind, units[1].heading) == rules.classify(text[body.start..body.end])
      else
        |units| == 1 && units[0].start == t.start && units[0].end == t.end
        && (units[0].kind, units[0].heading) == rules.classify(text[t.start..t.end])
  {
    hide TrimSpan, AllListItems;
  }

  lemma NotBlankTrims(text: string, lo: nat, hi: nat, line: Span, from: nat, to: nat)
    requires IsLine(text, lo, hi, line) && lo <= from <= line.start && line.end <= to <= hi
    ensures TrimSpan(text, from, to).start < TrimSpan(text, from, to).end
  {
    var k :| line.start <= k < line.end && !IsSpace(text[k]);
    assert !IsTrimChar(text[k]);
    hide TrimSpan;
  }

  // --------------------------------------------------------------- coalescing

  /** Unit `u` is made of the paragraphs from `p` to before `q`, and takes in all it should. */
  ghost predicate IsGroup(paragraphs: seq<Unit>, p: nat, q: nat, u: Unit) {
    && p < q <= |paragraphs| && u.kind == paragraphs[p].kind
    && u.start == paragraphs[p].start && u.end == paragraphs[q - 1].end
    && u.heading == (if u.kind == Table then None else paragraphs[p].heading)
    && (match paragraphs[p].kind
        case List => (forall k :: p <= k < q ==> paragraphs[k].kind == List) && (q == |paragraphs| || paragraphs[q].kind != List)
        case Table => (forall k :: p <= k < q ==> paragraphs[k].kind == Table) && (q == |paragraphs| || paragraphs[q].kind != Table)
        case Faq =>
          if p + 1 < |paragraphs| && paragraphs[p + 1].kind != Heading && paragraphs[p + 1].kind != Faq
             && paragraphs[p + 1].end as int - paragraphs[p].start <= 2200
          then q == p + 2 else q == p + 1
        case _ => q == p + 1)
  }

  /** The groups follow one another without a gap, from paragraph `i` on. */
  ghost predicate AreGroups(paragraphs: seq<Unit>, units: seq<Unit>, cuts: seq<nat>) {
    && |cuts| == |units| + 1 && cuts[|units|] == |paragraphs|
    && forall k :: 0 <= k < |units| ==> IsGroupAt(paragraphs, cuts, k, units[k])
  }

  ghost predicate IsGroupAt(paragraphs: seq<Unit>, cuts: seq<nat>, k: nat, u: Unit) {
    k + 1 < |cuts| && IsGroup(paragraphs, cuts[k], cuts[k + 1], u)
  }

  lemma GroupsConsed(paragraphs: seq<Unit>, p: nat, u: Unit, units: seq<Unit>, cuts: seq<nat>)
    requires AreGroups(paragraphs, units, cuts) && IsGroup(paragraphs, p, cuts[0], u)
    ensures AreGroups(paragraphs, [u] + units, [p] + cuts)
  {
    hide IsGroup;
    forall k | 0 <= k < |[u] + units|
      ensures IsGroupAt(paragraphs, [p] + cuts, k, ([u] + units)[k])
    {
      if k > 0 {
        assert IsGroupAt(paragraphs, cuts, k - 1, units[k - 1]);
      }
    }
  }

  /**
   * Coalescing takes neighbours together as far as it should and no further:
   * whole runs of lists and of tables, and a question with the answer after
   * it when the two are not too long.
   */
  lemma {:induction false} CoalescingIsMaximal(paragraphs: seq<Unit>, i: nat) returns (cuts: seq<nat>)
    requires i <= |paragraphs|
    ensures AreGroups(paragraphs, Coalesce(paragraphs, i), cuts) && |cuts| > 0 && cuts[0] == i
    decreases |paragraphs| - i
  {
    if i == |paragraphs| {
      cuts := [i];
    } else {
      var j := GroupEnd(paragraphs, i);
      var rest := CoalescingIsMaximal(paragraphs, j);
      GroupEndIsGroup(paragraphs, i);
      CoalesceStep(paragraphs, i);
      hide AreGroups, IsGroup, GroupEnd, GroupUnit, Coalesce;
      GroupsConsed(paragraphs, i, GroupUnit(paragraphs, i), Coalesce(paragraphs, j), rest);
      cuts := [i] + rest;
    }
  }

  /** The unit the coalescing step makes at `i`. */
  function GroupUnit(paragraphs: seq<Unit>, i: nat): Unit
    requires i < |paragraphs|
  {
    Unit(paragraphs[i].start, paragraphs[GroupEnd(paragraphs, i) - 1].end, paragraphs[i].kind,
      if paragraphs[i].kind == Table then None else paragraphs[i].heading)
  }

  lemma CoalesceStep(paragraphs: seq<Unit>, i: nat)
    requires i < |paragraphs|
    ensures Coalesce(paragraphs, i) == [GroupUnit(paragraphs, i)] + Coalesce(paragraphs, GroupEnd(paragraphs, i))
  {
    hide GroupEnd;
  }

  lemma GroupEndIsGroup(paragraphs: seq<Unit>, i: nat)
    requires i < |paragraphs|
    ensures IsGroup(paragraphs, i, GroupEnd(paragraphs, i), GroupUnit(paragraphs, i))
  {
    hide RunEnd, Coalesce;
  }
}
