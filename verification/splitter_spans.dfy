/**
 * Force-splitting one oversized span: the cursor loop that steps back by the
 * overlap, and the break choice it makes.
 */
module SplitterSpans {
  import opened PythonText
  import opened SplitterUnits

  /**
   * Size limits in characters. `listFloor` and `proseFloor` stand for
   * `int(max_chunk_chars * 0.5)` and `int(max_chunk_chars * 0.7)`, whatever
   * floating-point rounding does to them.
   */
  datatype Config = Config(
    maxChars: nat, minChars: nat, overlapChars: nat, targetChars: nat, listFloor: nat, proseFloor: nat)
  {
    predicate Valid() {
      1 <= maxChars && listFloor <= maxChars && proseFloor <= maxChars
    }
  }

  // ------------------------------------------------------ candidate breaks

  /** Past the blanks, and one newline, that follow a sentence end at `i - 1`. */
  function AfterSentence(region: string, i: nat): (p: nat)
    requires i <= |region|
    ensures i <= p <= |region|
    decreases |region| - i
  {
    if i < |region| && (region[i] == ' ' || region[i] == '\t') then AfterSentence(region, i + 1)
    else if i < |region| && region[i] == '\n' then i + 1
    else i
  }

  /** All blanks that follow are passed, and then a newline if one is next. */
  lemma {:induction false} AfterSentenceIs(region: string, i: nat) returns (q: nat)
    requires i <= |region|
    ensures i <= q <= |region| && forall k :: i <= k < q ==> region[k] in {' ', '\t'}
    ensures q < |region| ==> region[q] !in {' ', '\t'}
    ensures AfterSentence(region, i) == if q < |region| && region[q] == '\n' then q + 1 else q
    decreases |region| - i
  {
    q := i;
    if i < |region| && region[i] in {' ', '\t'} {
      q := AfterSentenceIs(region, i + 1);
    }
  }

  /** Offset `p` follows a newline or a sentence end: the natural places to cut. */
  ghost predicate IsBreak(region: string, rules: Rules, p: nat) {
    && 0 < p <= |region|
    && (|| region[p - 1] == '\n'
        || exists i :: 0 <= i < |region| && rules.isSentenceEnd(region, i) && AfterSentence(region, i + 1) == p)
  }

  /**
   * `_candidate_break_offsets`, all three loops. The list-item pass only adds
   * offsets after newlines, which the last loop adds anyway.
   */
  method CandidateBreakOffsets(region: string, preferListBreaks: bool, rules: Rules) returns (offsets: set<nat>)
    ensures forall p :: p in offsets <==> IsBreak(region, rules, p)
  {
    offsets := {};
    if preferListBreaks {
      for i := 0 to |region|
        invariant forall p :: p in offsets ==> 0 < p <= |region| && region[p - 1] == '\n'
      {
        if region[i] == '\n' && rules.isListBreak(region, i) {
          offsets := offsets + {i + 1};
        }
      }
    }
    for i := 0 to |region|
      invariant forall p :: p in offsets ==> IsBreak(region, rules, p)
      invariant forall j :: 0 <= j < i && rules.isSentenceEnd(region, j) ==> AfterSentence(region, j + 1) in offsets
    {
      if rules.isSentenceEnd(region, i) {
        offsets := offsets + {AfterSentence(region, i + 1)};
      }
    }
    for i := 0 to |region|
      invariant forall p :: p in offsets ==> IsBreak(region, rules, p)
      invariant forall j :: 0 <= j < |region| && rules.isSentenceEnd(region, j) ==> AfterSentence(region, j + 1) in offsets
      invariant forall j :: 0 <= j < i && region[j] == '\n' ==> j + 1 in offsets
    {
      if region[i] == '\n' {
        offsets := offsets + {i + 1};
      }
    }
    forall p: nat | IsBreak(region, rules, p)
      ensures p in offsets
    {
      if region[p - 1] == '\n' {
        assert (p - 1) + 1 in offsets;
      }
    }
  }

  /** The largest break in `[lo, hi]`. */
  function LargestBreak(breaks: set<nat>, lo: nat, hi: nat): (r: Option<nat>)
    ensures r.Some? ==> lo <= r.value <= hi && r.value in breaks
    decreases hi
  {
    if hi < lo then None
    else if hi in breaks then Some(hi)
    else if hi == 0 then None
    else LargestBreak(breaks, lo, hi - 1)
  }

  lemma {:induction false} LargestBreakIsMax(breaks: set<nat>, lo: nat, hi: nat, p: nat)
    requires lo <= p <= hi && p in breaks
    ensures LargestBreak(breaks, lo, hi).Some? && p <= LargestBreak(breaks, lo, hi).value
    decreases hi
  {
    if hi !in breaks {
      LargestBreakIsMax(breaks, lo, hi - 1, p);
    }
  }

  /** Lowering the lower bound changes nothing once a break is found. */
  lemma {:induction false} LargestBreakWiden(breaks: set<nat>, lo: nat, lower: nat, hi: nat)
    requires lower <= lo
    ensures LargestBreak(breaks, lo, hi).Some? ==> LargestBreak(breaks, lower, hi) == LargestBreak(breaks, lo, hi)
    ensures LargestBreak(breaks, lo, hi).None? && LargestBreak(breaks, lower, hi).Some? ==>
      LargestBreak(breaks, lower, hi).value < lo
    decreases hi
  {
    if hi >= lo && hi !in breaks && hi > 0 {
      LargestBreakWiden(breaks, lo, lower, hi - 1);
    }
  }

  /** `_choose_break`: the last break in the preferred window, else the last one before it. */
  function ChooseBreak(breaks: set<nat>, floor: nat, hard: nat): Option<nat> {
    match LargestBreak(breaks, floor, hard)
    case Some(p) => Some(p)
    case None => LargestBreak(breaks, 1, hard)
  }

  /** The preferred window never changes the choice: it is always the last break up to `hard`. */
  lemma {:induction false} WindowIsInert(breaks: set<nat>, floor: nat, hard: nat)
    requires 0 !in breaks
    ensures ChooseBreak(breaks, floor, hard) == LargestBreak(breaks, 1, hard)
  {
    if floor >= 1 {
      LargestBreakWiden(breaks, floor, 1, hard);
    } else {
      LargestBreakWiden(breaks, 1, 0, hard);
    }
  }

  // -------------------------------------------------------- the cursor loop

  /**
   * Where the piece that starts at `cursor` ends, when it cannot reach the end
   * of the region: at the last natural break within reach, else after the last
   * space within reach, else at the hard limit.
   */
  function Cut(region: string, breaks: set<nat>, maxChars: nat, cursor: nat): (cut: nat)
    requires 1 <= maxChars && cursor + maxChars <= |region|
    ensures cursor < cut <= cursor + maxChars
  {
    match LargestBreak(breaks, cursor + 1, cursor + maxChars)
    case Some(p) => p
    case None =>
      var soft := RFind(region, ' ', cursor + 1, cursor + maxChars);
      if soft >= 0 then soft + 1 else cursor + maxChars
  }

  function NextCursor(cut: nat, overlapChars: nat, cursor: nat): nat {
    Max(cut - overlapChars, cursor + 1)
  }

  /** The pieces of a region from `cursor` on, as offsets into the region. */
  function RegionPieces(region: string, breaks: set<nat>, maxChars: nat, overlapChars: nat, cursor: nat): seq<Span>
    requires 1 <= maxChars && cursor < |region|
    decreases |region| - cursor
  {
    if cursor + maxChars >= |region| then [Span(cursor, |region|)]
    else
      var cut := Cut(region, breaks, maxChars, cursor);
      [Span(cursor, cut)] + RegionPieces(region, breaks, maxChars, overlapChars, NextCursor(cut, overlapChars, cursor))
  }

  ghost predicate AreBreaks(region: string, rules: Rules, breaks: set<nat>) {
    forall p :: p in breaks <==> IsBreak(region, rules, p)
  }

  /** The break offsets of a region as a set. */
  ghost function BreakSet(region: string, rules: Rules): (breaks: set<nat>)
    ensures AreBreaks(region, rules, breaks)
  {
    set p | 0 <= p <= |region| && IsBreak(region, rules, p)
  }

  function Shift(s: Span, d: nat): Span { Span(s.start + d, s.end + d) }

  function ShiftAll(spans: seq<Span>, d: nat): (r: seq<Span>)
    ensures |r| == |spans|
    ensures forall i :: 0 <= i < |r| ==> r[i] == Shift(spans[i], d)
  {
    if spans == [] then [] else [Shift(spans[0], d)] + ShiftAll(spans[1..], d)
  }

  /** `_split_span` as a function. Neither the list preference nor the window floors appear. */
  ghost function SpanPieces(text: string, start: nat, end: nat, cfg: Config, rules: Rules): seq<Span>
    requires start <= end <= |text| && cfg.Valid()
  {
    if end - start <= cfg.maxChars then [Span(start, end)]
    else
      var region := text[start..end];
      ShiftAll(RegionPieces(region, BreakSet(region, rules), cfg.maxChars, cfg.overlapChars, 0), start)
  }

  /** The source's choice of `break_at`, with its fallbacks in their order. */
  function BreakAt(region: string, breaks: set<nat>, cursor: nat, windowFloor: nat, hard: nat): int
    requires cursor <= windowFloor && cursor < hard <= |region|
  {
    var chosen := ChooseBreak(breaks, windowFloor, hard);
    if chosen.None? || chosen.value <= cursor then
      var soft0 := RFind(region, ' ', windowFloor, hard);
      var soft1 := if soft0 <= cursor then RFind(region, '\n', cursor + 1, hard) else soft0;
      var soft2 := if soft1 <= cursor then RFind(region, ' ', cursor + 1, hard) else soft1;
      if soft2 > cursor then soft2 + 1 else hard
    else chosen.value
  }

  /** The fallbacks and the window amount to `Cut`; the newline fallback never fires. */
  lemma {:induction false} BreakAtIsCut(region: string, rules: Rules, breaks: set<nat>, maxChars: nat, cursor: nat, windowFloor: nat)
    requires AreBreaks(region, rules, breaks)
    requires 1 <= maxChars && cursor + maxChars < |region| && cursor <= windowFloor
    ensures BreakAt(region, breaks, cursor, windowFloor, cursor + maxChars) == Cut(region, breaks, maxChars, cursor)
  {
    var hard := cursor + maxChars;
    assert 0 !in breaks;
    WindowIsInert(breaks, windowFloor, hard);
    LargestBreakWiden(breaks, cursor + 1, 1, hard);
    if LargestBreak(breaks, cursor + 1, hard).None? {
      NoNewlineWithoutBreak(region, rules, breaks, cursor, hard);
      LastSpace(region, cursor, windowFloor, hard);
    }
  }

  lemma {:induction false} NoNewlineWithoutBreak(region: string, rules: Rules, breaks: set<nat>, cursor: nat, hard: nat)
    requires AreBreaks(region, rules, breaks) && cursor < hard <= |region|
    requires LargestBreak(breaks, cursor + 1, hard).None?
    ensures RFind(region, '\n', cursor + 1, hard) == -1
  {
    var r := RFind(region, '\n', cursor + 1, hard);
    if r >= 0 {
      assert IsBreak(region, rules, r + 1);
      LargestBreakIsMax(breaks, cursor + 1, hard, r + 1);
    }
  }

  /** Searching a suffix of the window first finds the same last space. */
  lemma {:induction false} LastSpace(region: string, cursor: nat, floor: nat, hard: nat)
    requires cursor <= floor && cursor < hard <= |region|
    ensures RFind(region, ' ', floor, hard) > cursor ==>
      RFind(region, ' ', cursor + 1, hard) == RFind(region, ' ', floor, hard)
    decreases hard
  {
    if hard - 1 > cursor && region[hard - 1] != ' ' {
      LastSpace(region, cursor, floor, hard - 1);
    }
  }

  /** One turn of the cursor loop, as the source computes it, is one step of `RegionPieces`. */
  lemma {:induction false} RegionPiecesStep(
      region: string, rules: Rules, breaks: set<nat>, maxChars: nat, overlapChars: nat, cursor: nat, windowFloor: nat)
    requires AreBreaks(region, rules, breaks)
    requires 1 <= maxChars && cursor + maxChars < |region| && cursor <= windowFloor
    ensures var breakAt := BreakAt(region, breaks, cursor, windowFloor, cursor + maxChars);
      && cursor < breakAt && cursor < NextCursor(breakAt, overlapChars, cursor) < |region|
      && RegionPieces(region, breaks, maxChars, overlapChars, cursor)
         == [Span(cursor, breakAt)]
            + RegionPieces(region, breaks, maxChars, overlapChars, NextCursor(breakAt, overlapChars, cursor))
  {
    hide BreakAt, Cut, IsBreak;
    BreakAtIsCut(region, rules, breaks, maxChars, cursor, windowFloor);
  }

  lemma RegionPiecesLast(region: string, breaks: set<nat>, maxChars: nat, overlapChars: nat, cursor: nat)
    requires 1 <= maxChars && cursor < |region| <= cursor + maxChars
    ensures RegionPieces(region, breaks, maxChars, overlapChars, cursor) == [Span(cursor, |region|)]
  {
  }

  /** The cursor loop of `_split_span`; it terminates because the cursor always advances. */
  method RegionLoop(region: string, breaks: set<nat>, cfg: Config, preferListBreaks: bool, ghost rules: Rules)
    returns (pieces: seq<Span>)
    requires cfg.Valid() && cfg.maxChars < |region| && AreBreaks(region, rules, breaks)
    ensures pieces == RegionPieces(region, breaks, cfg.maxChars, cfg.overlapChars, 0)
  {
    hide BreakAt, RegionPieces, AreBreaks, IsBreak;
    ghost var all := RegionPieces(region, breaks, cfg.maxChars, cfg.overlapChars, 0);
    ghost var rest := all;
    var length := |region|;
    pieces := [];
    var cursor := 0;
    while true
      invariant cursor < length
      invariant rest == RegionPieces(region, breaks, cfg.maxChars, cfg.overlapChars, cursor)
      invariant pieces + rest == all
      decreases length - cursor
    {
      var hard := Min(cursor + cfg.maxChars, length);
      if hard == length {
        RegionPiecesLast(region, breaks, cfg.maxChars, cfg.overlapChars, cursor);
        pieces := pieces + [Span(cursor, length)];
        break;
      }
      var windowFloor := cursor + if preferListBreaks then cfg.listFloor else cfg.proseFloor;
      RegionPiecesStep(region, rules, breaks, cfg.maxChars, cfg.overlapChars, cursor, windowFloor);
      var breakAt := BreakAt(region, breaks, cursor, windowFloor, hard);
      var nextCursor := Max(breakAt - cfg.overlapChars, cursor + 1);
      if nextCursor <= cursor {
        nextCursor := breakAt;
      }
      ghost var after := RegionPieces(region, breaks, cfg.maxChars, cfg.overlapChars, nextCursor);
      Regroup(pieces, [Span(cursor, breakAt)], after, rest, all);
      pieces := pieces + [Span(cursor, breakAt)];
      cursor, rest := nextCursor, after;
    }
  }

  /** `_split_span`. */
  method SplitSpan(text: string, start: nat, end: nat, cfg: Config, preferListBreaks: bool, rules: Rules)
    returns (pieces: seq<Span>)
    requires start <= end <= |text| && cfg.Valid()
    ensures pieces == SpanPieces(text, start, end, cfg, rules)
  {
    if end - start <= cfg.maxChars {
      return [Span(start, end)];
    }
    hide IsBreak, RegionPieces, ShiftAll;
    var region := text[start..end];
    var breaks := CandidateBreakOffsets(region, preferListBreaks, rules);
    assert breaks == BreakSet(region, rules);
    var local := RegionLoop(region, breaks, cfg, preferListBreaks, rules);
    pieces := ShiftAll(local, start);
  }

  // ------------------------------------------- what the pieces are good for

  /** Ranges in `[lo, hi]`, none longer than `maxChars`, starts and ends never decreasing. */
  ghost predicate Chained(spans: seq<Span>, lo: nat, hi: nat, maxChars: nat) {
    && (forall i :: 0 <= i < |spans| ==> lo <= spans[i].start < spans[i].end <= hi && spans[i].end - spans[i].start <= maxChars)
    && (forall i, j :: 0 <= i < j < |spans| ==> spans[i].start <= spans[j].start && spans[i].end <= spans[j].end)
  }

  /**
   * Range `i` and its successor share exactly `min(overlap, length - 1)`
   * characters; in particular there is no gap between them.
   */
  ghost predicate Linked(spans: seq<Span>, i: nat, overlapChars: nat) {
    i + 1 < |spans| ==>
      spans[i].end - spans[i + 1].start == Min(overlapChars, spans[i].end - spans[i].start - 1)
  }

  /** The ranges run from `lo` to `hi`, each linked to the next. */
  ghost predicate Spanning(spans: seq<Span>, lo: nat, hi: nat, overlapChars: nat) {
    && spans != [] && spans[0].start == lo && spans[|spans| - 1].end == hi
    && (forall i :: 0 <= i < |spans| ==> Linked(spans, i, overlapChars))
  }

  /** A later cursor never cuts earlier. */
  lemma {:induction false} CutMonotone(region: string, breaks: set<nat>, maxChars: nat, c: nat, d: nat)
    requires 1 <= maxChars && c < d && d + maxChars <= |region|
    requires d <= Cut(region, breaks, maxChars, c)
    ensures Cut(region, breaks, maxChars, c) <= Cut(region, breaks, maxChars, d)
  {
    var cut, reach := Cut(region, breaks, maxChars, c), c + maxChars;
    if cut > d {
      match LargestBreak(breaks, c + 1, reach) {
        case Some(p) =>
          LargestBreakIsMax(breaks, d + 1, d + maxChars, p);
        case None =>
          match LargestBreak(breaks, d + 1, d + maxChars) {
            case Some(q) =>
              if q <= reach {
                LargestBreakIsMax(breaks, c + 1, reach, q);
              }
            case None =>
          }
      }
    }
  }

  lemma {:induction false} RegionPiecesOk(region: string, breaks: set<nat>, maxChars: nat, overlapChars: nat, cursor: nat)
    requires 1 <= maxChars && cursor < |region|
    ensures var spans := RegionPieces(region, breaks, maxChars, overlapChars, cursor);
      && Chained(spans, cursor, |region|, maxChars) && Spanning(spans, cursor, |region|, overlapChars)
      && (cursor + maxChars < |region| ==> spans[0].end == Cut(region, breaks, maxChars, cursor))
    decreases |region| - cursor
  {
    if cursor + maxChars < |region| {
      var cut := Cut(region, breaks, maxChars, cursor);
      var next := NextCursor(cut, overlapChars, cursor);
      RegionPiecesOk(region, breaks, maxChars, overlapChars, next);
      var rest := RegionPieces(region, breaks, maxChars, overlapChars, next);
      if next + maxChars < |region| {
        CutMonotone(region, breaks, maxChars, cursor, next);
      } else {
        assert rest == [Span(next, |region|)];
      }
      hide Cut, RegionPieces;
      PiecesConsed(rest, cursor, cut, next, |region|, maxChars, overlapChars);
    }
  }

  lemma {:induction false} PiecesConsed(rest: seq<Span>, cursor: nat, cut: nat, next: nat, length: nat, maxChars: nat, overlapChars: nat)
    requires Chained(rest, next, length, maxChars) && Spanning(rest, next, length, overlapChars)
    requires cursor < cut <= cursor + maxChars && next == NextCursor(cut, overlapChars, cursor) && cut <= rest[0].end
    ensures var spans := [Span(cursor, cut)] + rest;
      Chained(spans, cursor, length, maxChars) && Spanning(spans, cursor, length, overlapChars)
  {
    ChainedConsed(rest, cursor, cut, next, length, maxChars);
    hide Chained;
    var spans := [Span(cursor, cut)] + rest;
    forall i | 0 <= i < |spans|
      ensures Linked(spans, i, overlapChars)
    {
      if i > 0 {
        assert Linked(rest, i - 1, overlapChars);
      }
    }
  }

  lemma ChainedConsed(rest: seq<Span>, cursor: nat, cut: nat, next: nat, length: nat, maxChars: nat)
    requires Chained(rest, next, length, maxChars) && rest != []
    requires cursor < cut <= cursor + maxChars && cursor <= next && cut <= rest[0].end
    ensures Chained([Span(cursor, cut)] + rest, cursor, length, maxChars)
  {
    var spans := [Span(cursor, cut)] + rest;
    assert forall i :: 0 < i < |spans| ==> spans[i] == rest[i - 1];
  }

  /**
   * The pieces of a span: bounded, ordered, without gaps, and overlapping by
   * exactly the overlap asked for, as far as the previous piece allows it.
   */
  lemma {:induction false} SpanPiecesOk(text: string, start: nat, end: nat, cfg: Config, rules: Rules)
    requires start < end <= |text| && cfg.Valid()
    ensures var spans := SpanPieces(text, start, end, cfg, rules);
      Chained(spans, start, end, cfg.maxChars) && Spanning(spans, start, end, cfg.overlapChars)
  {
    if end - start > cfg.maxChars {
      var region := text[start..end];
      RegionPiecesOk(region, BreakSet(region, rules), cfg.maxChars, cfg.overlapChars, 0);
      ShiftOk(RegionPieces(region, BreakSet(region, rules), cfg.maxChars, cfg.overlapChars, 0), start, |region|, cfg);
    }
  }

  lemma {:induction false} ShiftOk(spans: seq<Span>, d: nat, hi: nat, cfg: Config)
    requires Chained(spans, 0, hi, cfg.maxChars) && Spanning(spans, 0, hi, cfg.overlapChars)
    ensures Chained(ShiftAll(spans, d), d, d + hi, cfg.maxChars)
    ensures Spanning(ShiftAll(spans, d), d, d + hi, cfg.overlapChars)
  {
    hide ShiftAll;
    var r := ShiftAll(spans, d);
    forall i | 0 <= i < |r|
      ensures Linked(r, i, cfg.overlapChars)
    {
      assert Linked(spans, i, cfg.overlapChars);
    }
  }

  ghost predicate HoldsNoBreak(region: string, rules: Rules, lo: nat, hi: nat) {
    forall p :: lo <= p <= hi ==> !IsBreak(region, rules, p)
  }

  /**
   * A cut falls on a natural break if one is within reach, else after a space
   * if one is, and only otherwise inside a word at the hard limit.
   */
  lemma {:induction false} CutIsNatural(region: string, rules: Rules, maxChars: nat, cursor: nat)
    requires 1 <= maxChars && cursor + maxChars <= |region|
    ensures var cut := Cut(region, BreakSet(region, rules), maxChars, cursor);
      && (IsBreak(region, rules, cut) || HoldsNoBreak(region, rules, cursor + 1, cursor + maxChars))
      && HoldsNoBreak(region, rules, cut + 1, cursor + maxChars)
      && (IsBreak(region, rules, cut) || region[cut - 1] == ' '
          || (cut == cursor + maxChars && forall i :: cursor < i < cursor + maxChars ==> region[i] != ' '))
  {
    var breaks := BreakSet(region, rules);
    forall p | cursor + 1 <= p <= cursor + maxChars && IsBreak(region, rules, p)
      ensures LargestBreak(breaks, cursor + 1, cursor + maxChars).Some?
      ensures p <= LargestBreak(breaks, cursor + 1, cursor + maxChars).value
    {
      LargestBreakIsMax(breaks, cursor + 1, cursor + maxChars, p);
    }
  }
}
