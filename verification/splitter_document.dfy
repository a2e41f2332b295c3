/**
 * The whole splitter: merging units into buffers, force-splitting them,
 * absorbing a short tail, trimming, and the promises made about the chunks.
 */
module SplitterDocument {
  import opened PythonText
  import opened SplitterUnits
  import opened SplitterSpans

  datatype ChunkPiece = ChunkPiece(start: nat, end: nat, text: string, heading: Option<string>, strategy: string)

  // ----------------------------------------------------------------- merging

  predicate IsStructured(kind: Kind) { kind in {List, Table, Faq, Clause} }

  predicate StartsNewBuffer(u: Unit, bufferStart: nat, bufferEnd: nat, cfg: Config) {
    || u.end as int - bufferStart > cfg.maxChars
    || (&& bufferEnd as int - bufferStart >= cfg.targetChars
        && (u.kind == Heading || IsStructured(u.kind))
        && u.end as int - u.start >= cfg.minChars)
  }

  ghost function Flush(text: string, bufferStart: nat, bufferEnd: nat, cfg: Config, rules: Rules): seq<Span>
    requires bufferStart <= bufferEnd <= |text| && cfg.Valid()
  {
    if bufferStart == bufferEnd then [] else SpanPieces(text, bufferStart, bufferEnd, cfg, rules)
  }

  /** The buffer may be followed by the units from `i` on. */
  ghost predicate MergeState(text: string, units: seq<Unit>, i: nat, bufferStart: nat, bufferEnd: nat, cfg: Config) {
    && cfg.Valid() && i <= |units| && Ordered(units, 0, |text|)
    && bufferStart <= bufferEnd <= |text| && (i < |units| ==> bufferEnd <= units[i].start)
  }

  /** The spans `_merge_units` emits from unit `i` on, given its buffer. */
  ghost function MergeFrom(text: string, units: seq<Unit>, i: nat, bufferStart: nat, bufferEnd: nat, cfg: Config, rules: Rules): seq<Span>
    requires MergeState(text, units, i, bufferStart, bufferEnd, cfg)
    decreases |units| - i
  {
    if i == |units| then Flush(text, bufferStart, bufferEnd, cfg, rules)
    else
      var u := units[i];
      if StartsNewBuffer(u, bufferStart, bufferEnd, cfg) then
        Flush(text, bufferStart, bufferEnd, cfg, rules)
        + (if u.end - u.start > cfg.maxChars then
             Flush(text, u.start, u.end, cfg, rules) + MergeFrom(text, units, i + 1, u.end, u.end, cfg, rules)
           else MergeFrom(text, units, i + 1, u.start, u.end, cfg, rules))
      else MergeFrom(text, units, i + 1, bufferStart, u.end, cfg, rules)
  }

  /** A last span shorter than the minimum joins its predecessor when both fit together. */
  function MergeTail(spans: seq<Span>, cfg: Config): seq<Span> {
    var n := |spans|;
    if && n >= 2
       && spans[n - 1].end as int - spans[n - 1].start < cfg.minChars
       && spans[n - 1].end as int - spans[n - 2].start <= cfg.maxChars
    then spans[..n - 2] + [Span(spans[n - 2].start, spans[n - 1].end)]
    else spans
  }

  ghost function MergedSpans(text: string, units: seq<Unit>, cfg: Config, rules: Rules): seq<Span>
    requires cfg.Valid() && Ordered(units, 0, |text|)
  {
    if units == [] then []
    else MergeTail(MergeFrom(text, units, 1, units[0].start, units[0].end, cfg, rules), cfg)
  }

  method FlushBuffer(text: string, bufferStart: nat, bufferEnd: nat, preferList: bool, cfg: Config, rules: Rules)
    returns (pieces: seq<Span>)
    requires bufferStart <= bufferEnd <= |text| && cfg.Valid()
    ensures pieces == Flush(text, bufferStart, bufferEnd, cfg, rules)
  {
    if bufferStart >= bufferEnd {
      return [];
    }
    pieces := SplitSpan(text, bufferStart, bufferEnd, cfg, preferList, rules);
  }

  /** The unit loop of `_merge_units`. */
  method MergeLoop(text: string, units: seq<Unit>, cfg: Config, rules: Rules) returns (spans: seq<Span>)
    requires units != [] && cfg.Valid() && Ordered(units, 0, |text|)
    ensures spans == MergeFrom(text, units, 1, units[0].start, units[0].end, cfg, rules)
  {
    var bufferStart, bufferEnd := units[0].start, units[0].end;
    var bufferHasStructure := IsStructured(units[0].kind);
    ghost var all := MergeFrom(text, units, 1, bufferStart, bufferEnd, cfg, rules);
    ghost var rest := all;
    spans := [];
    var i := 1;
    while i < |units|
      invariant i <= |units| && MergeState(text, units, i, bufferStart, bufferEnd, cfg)
      invariant rest == MergeFrom(text, units, i, bufferStart, bufferEnd, cfg, rules)
      invariant spans + rest == all
    {
      hide Flush;
      var unit := units[i];
      if StartsNewBuffer(unit, bufferStart, bufferEnd, cfg) {
        var flushed := FlushBuffer(text, bufferStart, bufferEnd, bufferHasStructure, cfg, rules);
        bufferStart, bufferEnd, bufferHasStructure := unit.start, unit.end, IsStructured(unit.kind);
        if unit.end - unit.start > cfg.maxChars {
          var oversized := FlushBuffer(text, bufferStart, bufferEnd, bufferHasStructure, cfg, rules);
          bufferStart, bufferHasStructure := bufferEnd, false;
          ghost var after := MergeFrom(text, units, i + 1, bufferStart, bufferEnd, cfg, rules);
          Regroup(spans, flushed, oversized + after, rest, all);
          Regroup(spans + flushed, oversized, after, oversized + after, all);
          spans, rest := spans + flushed + oversized, after;
        } else {
          ghost var after := MergeFrom(text, units, i + 1, bufferStart, bufferEnd, cfg, rules);
          Regroup(spans, flushed, after, rest, all);
          spans, rest := spans + flushed, after;
        }
      } else {
        bufferEnd := unit.end;
        bufferHasStructure := bufferHasStructure || IsStructured(unit.kind);
      }
      i := i + 1;
    }
    var last := FlushBuffer(text, bufferStart, bufferEnd, bufferHasStructure, cfg, rules);
    spans := spans + last;
  }

  /** `_merge_units`. */
  method MergeUnits(text: string, units: seq<Unit>, cfg: Config, rules: Rules) returns (spans: seq<Span>)
    requires cfg.Valid() && Ordered(units, 0, |text|)
    ensures spans == MergedSpans(text, units, cfg, rules)
  {
    if units == [] {
      return [];
    }
    var raw := MergeLoop(text, units, cfg, rules);
    spans := MergeTail(raw, cfg);
  }

  // ------------------------------------------------------- merged-span facts

  /** Some range contains all of `[s, e)`. */
  ghost predicate Holds(spans: seq<Span>, s: nat, e: nat) {
    exists i :: 0 <= i < |spans| && spans[i].start <= s && e <= spans[i].end
  }

  /** No character lies in two ranges. */
  ghost predicate Disjoint(spans: seq<Span>) {
    forall i, j :: 0 <= i < j < |spans| ==> spans[i].end <= spans[j].start
  }

  /** What every stage keeps: bounds, order, and disjointness when no overlap is asked for. */
  ghost predicate SpansOk(spans: seq<Span>, lo: nat, hi: nat, cfg: Config) {
    Chained(spans, lo, hi, cfg.maxChars) && (cfg.overlapChars == 0 ==> Disjoint(spans))
  }

  lemma SpansOkConcat(a: seq<Span>, b: seq<Span>, lo: nat, mid: nat, resume: nat, hi: nat, cfg: Config)
    requires SpansOk(a, lo, mid, cfg) && SpansOk(b, resume, hi, cfg) && lo <= mid <= resume <= hi
    ensures SpansOk(a + b, lo, hi, cfg)
  {
  }

  lemma HoldsConcat(a: seq<Span>, b: seq<Span>, s: nat, e: nat)
    ensures Holds(a, s, e) || Holds(b, s, e) ==> Holds(a + b, s, e)
  {
    if Holds(a, s, e) {
      var i :| 0 <= i < |a| && a[i].start <= s && e <= a[i].end;
      assert (a + b)[i] == a[i];
    } else if Holds(b, s, e) {
      var i :| 0 <= i < |b| && b[i].start <= s && e <= b[i].end;
      assert (a + b)[|a| + i] == b[i];
    }
  }

  /** Linked ranges leave no position out. */
  lemma {:induction false} SpanningCovers(spans: seq<Span>, lo: nat, hi: nat, cfg: Config, i: nat, k: nat)
    requires Chained(spans, lo, hi, cfg.maxChars) && Spanning(spans, lo, hi, cfg.overlapChars)
    requires i < |spans| && spans[i].start <= k < hi
    ensures InSpans(spans, k)
    decreases |spans| - i
  {
    if k >= spans[i].end {
      assert Linked(spans, i, cfg.overlapChars);
      SpanningCovers(spans, lo, hi, cfg, i + 1, k);
    }
  }

  lemma {:induction false} LinkedDisjoint(spans: seq<Span>, lo: nat, hi: nat, maxChars: nat)
    requires Chained(spans, lo, hi, maxChars) && Spanning(spans, lo, hi, 0)
    ensures Disjoint(spans)
  {
    forall i, j | 0 <= i < j < |spans|
      ensures spans[i].end <= spans[j].start
    {
      assert Linked(spans, j - 1, 0);
    }
  }

  lemma {:induction false} FlushOk(text: string, s: nat, e: nat, cfg: Config, rules: Rules)
    requires s <= e <= |text| && cfg.Valid()
    ensures SpansOk(Flush(text, s, e, cfg, rules), s, e, cfg)
    ensures forall k :: s <= k < e ==> InSpans(Flush(text, s, e, cfg, rules), k)
    ensures s < e <= s + cfg.maxChars ==> Holds(Flush(text, s, e, cfg, rules), s, e)
  {
    if s < e {
      var spans := SpanPieces(text, s, e, cfg, rules);
      if e <= s + cfg.maxChars {
        assert spans == [Span(s, e)] && spans[0] == Span(s, e);
      }
      SpanPiecesOk(text, s, e, cfg, rules);
      hide SpanPieces;
      if cfg.overlapChars == 0 {
        LinkedDisjoint(spans, s, e, cfg.maxChars);
      }
      forall k | s <= k < e
        ensures InSpans(spans, k)
      {
        SpanningCovers(spans, s, e, cfg, 0, k);
      }
    }
  }

  lemma {:induction false} MergeFromOk(text: string, units: seq<Unit>, i: nat, s: nat, e: nat, cfg: Config, rules: Rules)
    requires MergeState(text, units, i, s, e, cfg)
    ensures SpansOk(MergeFrom(text, units, i, s, e, cfg, rules), s, |text|, cfg)
    decreases |units| - i
  {
    hide Flush, SpansOk;
    FlushOk(text, s, e, cfg, rules);
    if i == |units| {
      SpansOkConcat(Flush(text, s, e, cfg, rules), [], s, e, |text|, |text|, cfg) by { SpansOkNil(|text|, cfg); }
      assert Flush(text, s, e, cfg, rules) + [] == Flush(text, s, e, cfg, rules);
    } else {
      var u := units[i];
      if StartsNewBuffer(u, s, e, cfg) {
        if u.end - u.start > cfg.maxChars {
          FlushOk(text, u.start, u.end, cfg, rules);
          MergeFromOk(text, units, i + 1, u.end, u.end, cfg, rules);
          SpansOkConcat(Flush(text, u.start, u.end, cfg, rules),
            MergeFrom(text, units, i + 1, u.end, u.end, cfg, rules), u.start, u.end, u.end, |text|, cfg);
        } else {
          MergeFromOk(text, units, i + 1, u.start, u.end, cfg, rules);
        }
        SpansOkConcat(Flush(text, s, e, cfg, rules),
          if u.end - u.start > cfg.maxChars then
            Flush(text, u.start, u.end, cfg, rules) + MergeFrom(text, units, i + 1, u.end, u.end, cfg, rules)
          else MergeFrom(text, units, i + 1, u.start, u.end, cfg, rules),
          s, e, u.start, |text|, cfg);
      } else {
        MergeFromOk(text, units, i + 1, s, u.end, cfg, rules);
      }
    }
  }

  lemma SpansOkNil(hi: nat, cfg: Config)
    ensures SpansOk([], hi, hi, cfg)
  {
  }

  /** Every position of the buffer and of a later unit is emitted. */
  lemma {:induction false} MergeFromCovers(text: string, units: seq<Unit>, i: nat, s: nat, e: nat, cfg: Config, rules: Rules, k: nat)
    requires MergeState(text, units, i, s, e, cfg)
    requires s <= k < e || exists j :: i <= j < |units| && units[j].start <= k < units[j].end
    ensures InSpans(MergeFrom(text, units, i, s, e, cfg, rules), k)
    decreases |units| - i
  {
    hide Flush, InSpans;
    FlushOk(text, s, e, cfg, rules);
    if i < |units| {
      var u := units[i];
      if StartsNewBuffer(u, s, e, cfg) {
        var head := Flush(text, s, e, cfg, rules);
        if u.end - u.start > cfg.maxChars {
          var big, rest := Flush(text, u.start, u.end, cfg, rules), MergeFrom(text, units, i + 1, u.end, u.end, cfg, rules);
          FlushOk(text, u.start, u.end, cfg, rules);
          if !(s <= k < e) && !(u.start <= k < u.end) {
            MergeFromCovers(text, units, i + 1, u.end, u.end, cfg, rules, k);
          }
          InSpansConcat(big, rest, k);
          InSpansConcat(head, big + rest, k);
        } else {
          var rest := MergeFrom(text, units, i + 1, u.start, u.end, cfg, rules);
          if !(s <= k < e) {
            MergeFromCovers(text, units, i + 1, u.start, u.end, cfg, rules, k);
          }
          InSpansConcat(head, rest, k);
        }
      } else {
        MergeFromCovers(text, units, i + 1, s, u.end, cfg, rules, k);
      }
    }
  }

  /** A buffer or later unit that fits the limit stays in one piece. */
  lemma {:induction false} MergeFromHolds(
      text: string, units: seq<Unit>, i: nat, s: nat, e: nat, cfg: Config, rules: Rules, a: nat, b: nat)
    requires MergeState(text, units, i, s, e, cfg) && a < b
    requires (s <= a && b <= e <= s + cfg.maxChars)
          || exists j :: i <= j < |units| && units[j].start == a && units[j].end == b && b - a <= cfg.maxChars
    ensures Holds(MergeFrom(text, units, i, s, e, cfg, rules), a, b)
    decreases |units| - i
  {
    hide Flush;
    var head := Flush(text, s, e, cfg, rules);
    FlushOk(text, s, e, cfg, rules);
    var inBuffer := s <= a && b <= e <= s + cfg.maxChars;
    if inBuffer {
      var p :| 0 <= p < |head| && head[p].start <= s && e <= head[p].end;
      assert Holds(head, a, b);
    }
    hide Holds;
    if i < |units| {
      var u := units[i];
      if StartsNewBuffer(u, s, e, cfg) {
        if u.end - u.start > cfg.maxChars {
          var big, rest := Flush(text, u.start, u.end, cfg, rules), MergeFrom(text, units, i + 1, u.end, u.end, cfg, rules);
          if !inBuffer {
            MergeFromHolds(text, units, i + 1, u.end, u.end, cfg, rules, a, b);
          }
          HoldsConcat(big, rest, a, b);
          HoldsConcat(head, big + rest, a, b);
        } else {
          var rest := MergeFrom(text, units, i + 1, u.start, u.end, cfg, rules);
          if !inBuffer {
            MergeFromHolds(text, units, i + 1, u.start, u.end, cfg, rules, a, b);
          }
          HoldsConcat(head, rest, a, b);
        }
      } else {
        MergeFromHolds(text, units, i + 1, s, u.end, cfg, rules, a, b);
      }
    }
  }

  // -------------------------------------------------------------- short tail

  lemma {:induction false} MergeTailOk(spans: seq<Span>, lo: nat, hi: nat, cfg: Config)
    requires SpansOk(spans, lo, hi, cfg)
    ensures SpansOk(MergeTail(spans, cfg), lo, hi, cfg)
  {
    var out := MergeTail(spans, cfg);
    if out != spans {
      var m := |spans| - 2;
      assert forall i :: 0 <= i < m ==> out[i] == spans[i];
      assert out[m] == Span(spans[m].start, spans[m + 1].end);
      hide MergeTail;
      forall i | 0 <= i < |out|
        ensures lo <= out[i].start < out[i].end <= hi && out[i].end - out[i].start <= cfg.maxChars
      {
        assert lo <= spans[i].start && spans[i].start < spans[i].end;
      }
    }
  }

  /** Absorbing the tail only enlarges ranges. */
  lemma {:induction false} MergeTailHolds(spans: seq<Span>, lo: nat, hi: nat, cfg: Config, s: nat, e: nat)
    requires SpansOk(spans, lo, hi, cfg) && Holds(spans, s, e)
    ensures Holds(MergeTail(spans, cfg), s, e)
  {
    var i :| 0 <= i < |spans| && spans[i].start <= s && e <= spans[i].end;
    var out := MergeTail(spans, cfg);
    if out != spans {
      var p := if i < |out| then i else |out| - 1;
      assert out[p].start <= s && e <= out[p].end;
    }
  }

  // ---------------------------------------------------------------- trimming

  /** The trimmed, non-empty spans, in order. */
  function TrimAll(text: string, spans: seq<Span>): seq<Span>
    requires SpansFit(text, spans)
  {
    if spans == [] then []
    else
      var t := TrimSpan(text, spans[0].start, spans[0].end);
      (if t.start < t.end then [t] else []) + TrimAll(text, spans[1..])
  }

  /** Trimming later ranges gives later ranges. */
  lemma {:induction false} TrimMonotone(text: string, a: Span, b: Span)
    requires a.start <= a.end <= |text| && b.start <= b.end <= |text| && a.start <= b.start && a.end <= b.end
    ensures var s, t := TrimSpan(text, a.start, a.end), TrimSpan(text, b.start, b.end);
      s.start < s.end && t.start < t.end ==> s.start <= t.start && s.end <= t.end
  {
    hide TrimSpan;
    var s, t := TrimSpan(text, a.start, a.end), TrimSpan(text, b.start, b.end);
    if s.start < s.end && t.start < t.end {
      if t.start < a.end {
        assert !IsTrimChar(text[t.start]);
      }
      if s.end - 1 >= b.start {
        assert !IsTrimChar(text[s.end - 1]);
      }
    }
  }

  lemma {:induction false} TrimAllWithin(text: string, spans: seq<Span>, x: Span)
    requires SpansFit(text, spans) && x in TrimAll(text, spans)
    ensures x.start < x.end <= |text| && !IsTrimChar(text[x.start]) && !IsTrimChar(text[x.end - 1])
    ensures exists i :: 0 <= i < |spans| && x == TrimSpan(text, spans[i].start, spans[i].end)
  {
    hide TrimSpan;
    var t := TrimSpan(text, spans[0].start, spans[0].end);
    if !(t.start < t.end && x == t) {
      TrimAllWithin(text, spans[1..], x);
      var i :| 0 <= i < |spans[1..]| && x == TrimSpan(text, spans[1..][i].start, spans[1..][i].end);
      assert spans[1..][i] == spans[i + 1];
    }
  }

  lemma {:induction false} TrimAllOk(text: string, spans: seq<Span>, lo: nat, cfg: Config)
    requires SpansFit(text, spans) && SpansOk(spans, lo, |text|, cfg)
    ensures SpansOk(TrimAll(text, spans), lo, |text|, cfg)
  {
    hide TrimSpan;
    if spans != [] {
      var t := TrimSpan(text, spans[0].start, spans[0].end);
      var rest := TrimAll(text, spans[1..]);
      TrimAllOk(text, spans[1..], lo, cfg);
      hide TrimAll;
      forall i | t.start < t.end && 0 <= i < |rest|
        ensures t.start <= rest[i].start && t.end <= rest[i].end && (cfg.overlapChars == 0 ==> t.end <= rest[i].start)
      {
        TrimAllWithin(text, spans[1..], rest[i]);
        var j :| 0 <= j < |spans[1..]| && rest[i] == TrimSpan(text, spans[1..][j].start, spans[1..][j].end);
        assert spans[1..][j] == spans[j + 1];
        TrimMonotone(text, spans[0], spans[j + 1]);
      }
      TrimConsed(t, rest, lo, |text|, cfg);
    }
  }

  lemma TrimConsed(t: Span, rest: seq<Span>, lo: nat, hi: nat, cfg: Config)
    requires SpansOk(rest, lo, hi, cfg)
    requires lo <= t.start <= t.end <= hi && t.end - t.start <= cfg.maxChars
    requires t.start < t.end ==> forall i :: 0 <= i < |rest| ==>
      t.start <= rest[i].start && t.end <= rest[i].end && (cfg.overlapChars == 0 ==> t.end <= rest[i].start)
    ensures SpansOk((if t.start < t.end then [t] else []) + rest, lo, hi, cfg)
  {
    if t.start == t.end {
      assert [] + rest == rest;
    } else {
      var out := [t] + rest;
      forall i, j | 0 <= i < j < |out|
        ensures out[i].start <= out[j].start && out[i].end <= out[j].end
        ensures cfg.overlapChars == 0 ==> out[i].end <= out[j].start
      {
        assert out[j] == rest[j - 1];
        if i > 0 {
          assert out[i] == rest[i - 1];
        }
      }
      assert forall i :: 0 <= i < |out| ==> out[i] == if i == 0 then t else rest[i - 1];
    }
  }

  /** Trimming drops no range that starts and ends on kept characters. */
  lemma {:induction false} TrimAllHolds(text: string, spans: seq<Span>, s: nat, e: nat)
    requires SpansFit(text, spans) && Holds(spans, s, e)
    requires s < e <= |text| && !IsTrimChar(text[s]) && !IsTrimChar(text[e - 1])
    ensures Holds(TrimAll(text, spans), s, e)
  {
    hide TrimSpan;
    var t := TrimSpan(text, spans[0].start, spans[0].end);
    var head := if t.start < t.end then [t] else [];
    if spans[0].start <= s && e <= spans[0].end {
      assert head == [t] && t.start <= s && e - 1 < t.end;
      assert Holds(head, s, e) by { assert head[0] == t; }
    } else {
      var i :| 0 <= i < |spans| && spans[i].start <= s && e <= spans[i].end;
      assert spans[1..][i - 1] == spans[i];
      assert Holds(spans[1..], s, e);
      TrimAllHolds(text, spans[1..], s, e);
    }
    HoldsConcat(head, TrimAll(text, spans[1..]), s, e);
  }

  // ---------------------------------------------------------------- headings

  /** `_heading_covering` from unit `i` on. */
  function HeadingCovering(units: seq<Unit>, i: nat, active: Option<string>, start: nat, end: nat): Option<string>
    requires i <= |units|
    decreases |units| - i
  {
    if i == |units| then active
    else
      var u := units[i];
      if u.end <= start then
        HeadingCovering(units, i + 1, if u.kind == Heading then u.heading else active, start, end)
      else if u.start >= end then active
      else if u.kind == Heading && u.heading.Some? && u.heading.value != "" then u.heading
      else HeadingCovering(units, i + 1, active, start, end)
  }

  /** Unit `u` is a titled heading that overlaps `[start, end)`. */
  predicate TitledInside(u: Unit, start: nat, end: nat) {
    u.end > start && u.start < end && u.kind == Heading && u.heading.Some? && u.heading.value != ""
  }

  /**
   * A chunk is filed under the first titled heading it overlaps, and without
   * one under the heading that precedes it most closely.
   */
  lemma {:induction false} HeadingIsNearest(units: seq<Unit>, i: nat, active: Option<string>, start: nat, end: nat, hi: nat, h: nat)
    requires Ordered(units, 0, hi) && i <= h < |units| && start <= end
    ensures TitledInside(units[h], start, end) && (forall k :: i <= k < h ==> !TitledInside(units[k], start, end)) ==>
      HeadingCovering(units, i, active, start, end) == units[h].heading
    ensures
      (&& units[h].kind == Heading && units[h].end <= start
       && (forall k :: h < k < |units| ==> !(units[k].kind == Heading && units[k].end <= start))
       && (forall k :: i <= k < |units| ==> !TitledInside(units[k], start, end)))
      ==> HeadingCovering(units, i, active, start, end) == units[h].heading
    decreases |units| - i
  {
    if i < h {
      HeadingIsNearest(units, i + 1, if units[i].end <= start && units[i].kind == Heading then units[i].heading else active,
        start, end, hi, h);
    } else if units[h].end <= start && units[h].kind == Heading {
      ActiveStays(units, h + 1, units[h].heading, start, end);
    }
  }

  lemma {:induction false} ActiveStays(units: seq<Unit>, i: nat, active: Option<string>, start: nat, end: nat)
    requires i <= |units|
    ensures
      (&& (forall k :: i <= k < |units| ==> !(units[k].kind == Heading && units[k].end <= start))
       && (forall k :: i <= k < |units| ==> !TitledInside(units[k], start, end)))
      ==> HeadingCovering(units, i, active, start, end) == active
    decreases |units| - i
  {
    if i < |units| {
      ActiveStays(units, i + 1, active, start, end);
    }
  }

  // ---------------------------------------------------------------- document

  /** The chunk ranges of a document, before headings are attached. */
  ghost function DocumentSpans(text: string, cfg: Config, rules: Rules): (spans: seq<Span>)
    requires cfg.Valid()
    ensures SpansFit(text, spans)
  {
    SemanticUnitsOk(text, rules);
    var merged := MergedSpans(text, SemanticUnits(text, rules), cfg, rules);
    MergedSpansOk(text, SemanticUnits(text, rules), cfg, rules);
    var spans := TrimAll(text, merged);
    TrimAllOk(text, merged, 0, cfg);
    spans
  }

  lemma {:induction false} MergedSpansOk(text: string, units: seq<Unit>, cfg: Config, rules: Rules)
    requires cfg.Valid() && Ordered(units, 0, |text|)
    ensures SpansOk(MergedSpans(text, units, cfg, rules), 0, |text|, cfg)
    ensures SpansFit(text, MergedSpans(text, units, cfg, rules))
  {
    hide MergeFrom, MergeTail;
    if units != [] {
      MergeFromOk(text, units, 1, units[0].start, units[0].end, cfg, rules);
      MergeTailOk(MergeFrom(text, units, 1, units[0].start, units[0].end, cfg, rules), units[0].start, |text|, cfg);
    }
  }

  function PieceOf(text: string, units: seq<Unit>, s: Span): ChunkPiece
    requires s.start <= s.end <= |text|
  {
    ChunkPiece(s.start, s.end, text[s.start..s.end], HeadingCovering(units, 0, None, s.start, s.end),
      if exists i :: 0 <= i < |units| && units[i].kind == Heading then "heading" else "paragraph")
  }

  ghost function PiecesOf(text: string, units: seq<Unit>, spans: seq<Span>): (pieces: seq<ChunkPiece>)
    requires SpansFit(text, spans)
    ensures |pieces| == |spans|
    ensures forall i :: 0 <= i < |spans| ==> pieces[i] == PieceOf(text, units, spans[i])
  {
    if spans == [] then [] else [PieceOf(text, units, spans[0])] + PiecesOf(text, units, spans[1..])
  }

  /** The chunks `split_persian_document` returns. */
  ghost function DocumentPieces(text: string, cfg: Config, rules: Rules): seq<ChunkPiece>
    requires cfg.Valid()
  {
    if IsBlank(text) then [] else PiecesOf(text, SemanticUnits(text, rules), DocumentSpans(text, cfg, rules))
  }

  // ------------------------------------------------------------ the promises

  ghost predicate InPiece(pieces: seq<ChunkPiece>, k: nat) {
    exists i :: 0 <= i < |pieces| && pieces[i].start <= k < pieces[i].end
  }

  /** The spans before the short tail is absorbed and blanks are trimmed. */
  ghost function RawSpans(text: string, cfg: Config, rules: Rules): seq<Span>
    requires cfg.Valid()
  {
    SemanticUnitsOk(text, rules);
    var units := SemanticUnits(text, rules);
    if units == [] then [] else MergeFrom(text, units, 1, units[0].start, units[0].end, cfg, rules)
  }

  /** What a raw span holds between kept characters, a chunk holds. */
  lemma {:induction false} RawToDocument(text: string, cfg: Config, rules: Rules, s: nat, e: nat)
    requires cfg.Valid() && Holds(RawSpans(text, cfg, rules), s, e)
    requires s < e <= |text| && !IsTrimChar(text[s]) && !IsTrimChar(text[e - 1])
    ensures Holds(DocumentSpans(text, cfg, rules), s, e)
  {
    var units := SemanticUnits(text, rules);
    SemanticUnitsOk(text, rules);
    hide SemanticUnits, MergeFrom, MergeTail, TrimAll, SpansOk, Holds;
    assert units != [] by { if units == [] { RawNil(s, e); } }
    MergeFromOk(text, units, 1, units[0].start, units[0].end, cfg, rules);
    MergeTailHolds(RawSpans(text, cfg, rules), units[0].start, |text|, cfg, s, e);
    MergedSpansOk(text, units, cfg, rules);
    TrimAllHolds(text, MergedSpans(text, units, cfg, rules), s, e);
  }

  lemma RawNil(s: nat, e: nat)
    ensures !Holds([], s, e)
  {
  }

  lemma {:induction false} RawHoldsUnit(text: string, cfg: Config, rules: Rules, u: Unit)
    requires cfg.Valid() && u in SemanticUnits(text, rules) && u.start < u.end <= u.start + cfg.maxChars
    ensures Holds(RawSpans(text, cfg, rules), u.start, u.end)
  {
    var units := SemanticUnits(text, rules);
    SemanticUnitsOk(text, rules);
    hide SemanticUnits, MergeFrom, Holds;
    var j :| 0 <= j < |units| && units[j] == u;
    MergeFromHolds(text, units, 1, units[0].start, units[0].end, cfg, rules, u.start, u.end);
  }

  lemma {:induction false} RawHoldsCharacter(text: string, cfg: Config, rules: Rules, k: nat)
    requires cfg.Valid() && InUnit(SemanticUnits(text, rules), k)
    ensures Holds(RawSpans(text, cfg, rules), k, k + 1)
  {
    var units := SemanticUnits(text, rules);
    SemanticUnitsOk(text, rules);
    hide SemanticUnits, MergeFrom;
    var j :| 0 <= j < |units| && units[j].start <= k < units[j].end;
    MergeFromCovers(text, units, 1, units[0].start, units[0].end, cfg, rules, k);
    var raw := RawSpans(text, cfg, rules);
    var r :| 0 <= r < |raw| && raw[r].start <= k < raw[r].end;
  }

  /** A semantic unit that fits the limit ends up whole in one chunk: lists, tables, FAQ pairs are not cut. */
  lemma {:induction false} FittingUnitsStayWhole(text: string, cfg: Config, rules: Rules, u: Unit)
    requires cfg.Valid() && u in SemanticUnits(text, rules) && u.end - u.start <= cfg.maxChars
    ensures Holds(DocumentSpans(text, cfg, rules), u.start, u.end)
  {
    hide DocumentSpans, SemanticUnits, RawSpans, Holds, Ordered;
    SemanticUnitsOk(text, rules);
    RawHoldsUnit(text, cfg, rules, u);
    RawToDocument(text, cfg, rules, u.start, u.end);
  }

  lemma {:induction false} DocumentSpansHold(text: string, cfg: Config, rules: Rules, k: nat)
    requires cfg.Valid() && k < |text| && !IsSpace(text[k])
    ensures Holds(DocumentSpans(text, cfg, rules), k, k + 1)
  {
    hide DocumentSpans, SemanticUnits, RawSpans, Holds, InUnit;
    SemanticUnitsCover(text, rules, k);
    RawHoldsCharacter(text, cfg, rules, k);
    RawToDocument(text, cfg, rules, k, k + 1);
  }

  lemma {:induction false} DocumentSpansOk(text: string, cfg: Config, rules: Rules)
    requires cfg.Valid()
    ensures SpansOk(DocumentSpans(text, cfg, rules), 0, |text|, cfg)
    ensures forall x :: x in DocumentSpans(text, cfg, rules) ==>
      x.start < x.end <= |text| && !IsTrimChar(text[x.start]) && !IsTrimChar(text[x.end - 1])
  {
    var units := SemanticUnits(text, rules);
    SemanticUnitsOk(text, rules);
    hide SemanticUnits, MergedSpans, TrimAll, SpansOk;
    MergedSpansOk(text, units, cfg, rules);
    var merged := MergedSpans(text, units, cfg, rules);
    TrimAllOk(text, merged, 0, cfg);
    forall x | x in DocumentSpans(text, cfg, rules)
      ensures x.start < x.end <= |text| && !IsTrimChar(text[x.start]) && !IsTrimChar(text[x.end - 1])
    {
      TrimAllWithin(text, merged, x);
    }
  }

  /** No content lost: every non-whitespace character lies in a chunk. */
  lemma {:induction false} NoContentLost(text: string, cfg: Config, rules: Rules, k: nat)
    requires cfg.Valid() && k < |text| && !IsSpace(text[k])
    ensures InPiece(DocumentPieces(text, cfg, rules), k)
  {
    DocumentSpansHold(text, cfg, rules, k);
    hide SemanticUnits, DocumentSpans, PiecesOf, IsSpace;
    var spans, pieces := DocumentSpans(text, cfg, rules), DocumentPieces(text, cfg, rules);
    var i :| 0 <= i < |spans| && spans[i].start <= k && k + 1 <= spans[i].end;
    assert pieces[i] == PieceOf(text, SemanticUnits(text, rules), spans[i]);
  }

  /** Exact slices within the limit that begin and end on kept characters, in order. */
  ghost predicate WellFormedPieces(text: string, pieces: seq<ChunkPiece>, maxChars: nat) {
    && (forall i :: 0 <= i < |pieces| ==>
          && pieces[i].start < pieces[i].end <= |text|
          && pieces[i].text == text[pieces[i].start..pieces[i].end] && |pieces[i].text| <= maxChars
          && !IsTrimChar(text[pieces[i].start]) && !IsTrimChar(text[pieces[i].end - 1]))
    && (forall i, j :: 0 <= i < j < |pieces| ==> pieces[i].start <= pieces[j].start && pieces[i].end <= pieces[j].end)
  }

  lemma {:induction false} PiecesWellFormed(text: string, units: seq<Unit>, spans: seq<Span>, cfg: Config)
    requires SpansFit(text, spans) && SpansOk(spans, 0, |text|, cfg)
    requires forall x :: x in spans ==>
      x.start < x.end <= |text| && !IsTrimChar(text[x.start]) && !IsTrimChar(text[x.end - 1])
    ensures WellFormedPieces(text, PiecesOf(text, units, spans), cfg.maxChars)
  {
    hide PiecesOf, HeadingCovering, IsTrimChar;
    var pieces := PiecesOf(text, units, spans);
    forall i | 0 <= i < |pieces|
      ensures pieces[i].start == spans[i].start && pieces[i].end == spans[i].end
      ensures pieces[i].text == text[spans[i].start..spans[i].end] && spans[i] in spans
    {
      assert pieces[i] == PieceOf(text, units, spans[i]);
    }
  }

  /**
   * Chunks are exact slices within the limit, begin and end on kept
   * characters, and their starts and ends never decrease.
   */
  lemma {:induction false} ChunksWellFormed(text: string, cfg: Config, rules: Rules)
    requires cfg.Valid()
    ensures WellFormedPieces(text, DocumentPieces(text, cfg, rules), cfg.maxChars)
  {
    hide SemanticUnits, DocumentSpans, PiecesOf, SpansOk, IsTrimChar, SpansFit;
    DocumentSpansOk(text, cfg, rules);
    PiecesWellFormed(text, SemanticUnits(text, rules), DocumentSpans(text, cfg, rules), cfg);
  }

  /** Exactly the blank texts have no chunk, so the whole-text fallback is never needed. */
  lemma {:induction false} NoChunkOnlyIfBlank(text: string, cfg: Config, rules: Rules)
    requires cfg.Valid()
    ensures DocumentPieces(text, cfg, rules) == [] <==> IsBlank(text)
  {
    if !IsBlank(text) {
      var k :| 0 <= k < |text| && !IsSpace(text[k]);
      hide DocumentPieces;
      NoContentLost(text, cfg, rules, k);
    }
  }

  ghost predicate OnlyPiece(pieces: seq<ChunkPiece>, i: nat, k: nat) {
    && i < |pieces| && pieces[i].start <= k < pieces[i].end
    && (forall j :: 0 <= j < |pieces| && pieces[j].start <= k < pieces[j].end ==> j == i)
  }

  /** Without overlap the chunks partition the content: each non-whitespace character is in exactly one. */
  lemma {:induction false} ZeroOverlapPartitions(text: string, cfg: Config, rules: Rules, k: nat)
    requires cfg.Valid() && cfg.overlapChars == 0 && k < |text| && !IsSpace(text[k])
    ensures exists i :: OnlyPiece(DocumentPieces(text, cfg, rules), i, k)
  {
    DocumentSpansOk(text, cfg, rules);
    NoContentLost(text, cfg, rules, k);
    var units, spans, pieces := SemanticUnits(text, rules), DocumentSpans(text, cfg, rules), DocumentPieces(text, cfg, rules);
    assert pieces == PiecesOf(text, units, spans);
    hide *;
    SpansOkDisjoint(spans, 0, |text|, cfg);
    DisjointPieces(text, units, spans, pieces, k);
  }

  lemma SpansOkDisjoint(spans: seq<Span>, lo: nat, hi: nat, cfg: Config)
    requires SpansOk(spans, lo, hi, cfg) && cfg.overlapChars == 0
    ensures Disjoint(spans)
  {
  }

  lemma {:induction false} DisjointPieces(text: string, units: seq<Unit>, spans: seq<Span>, pieces: seq<ChunkPiece>, k: nat)
    requires SpansFit(text, spans) && Disjoint(spans) && pieces == PiecesOf(text, units, spans)
    requires InPiece(pieces, k)
    ensures exists i :: OnlyPiece(pieces, i, k)
  {
    hide PiecesOf, HeadingCovering;
    var i :| 0 <= i < |pieces| && pieces[i].start <= k < pieces[i].end;
    forall j | 0 <= j < |pieces| && pieces[j].start <= k < pieces[j].end
      ensures j == i
    {
      assert pieces[i] == PieceOf(text, units, spans[i]);
      assert pieces[j] == PieceOf(text, units, spans[j]);
    }
    assert OnlyPiece(pieces, i, k);
  }

  lemma {:induction false} PiecesStep(text: string, units: seq<Unit>, spans: seq<Span>, i: nat)
    requires i < |spans| && SpansFit(text, spans)
    ensures TrimFits(text, spans[i..]) && TrimFits(text, spans[i + 1..])
    ensures var t := TrimSpan(text, spans[i].start, spans[i].end);
      PiecesOf(text, units, TrimAll(text, spans[i..]))
      == (if t.start < t.end then [PieceOf(text, units, t)] else []) + PiecesOf(text, units, TrimAll(text, spans[i + 1..]))
  {
    hide TrimSpan, PieceOf;
    TrimFitsAlways(text, spans[i..]);
    TrimFitsAlways(text, spans[i + 1..]);
    assert spans[i..][1..] == spans[i + 1..];
    var t := TrimSpan(text, spans[i].start, spans[i].end);
    var rest := TrimAll(text, spans[i + 1..]);
    if t.start < t.end {
      assert ([t] + rest)[1..] == rest;
    } else {
      assert TrimAll(text, spans[i..]) == rest;
    }
  }

  ghost predicate TrimFits(text: string, spans: seq<Span>) {
    SpansFit(text, spans) && SpansFit(text, TrimAll(text, spans))
  }

  lemma {:induction false} TrimFitsAlways(text: string, spans: seq<Span>)
    requires SpansFit(text, spans)
    ensures TrimFits(text, spans)
  {
    forall i | 0 <= i < |TrimAll(text, spans)|
      ensures TrimAll(text, spans)[i].start <= TrimAll(text, spans)[i].end <= |text|
    {
      TrimAllWithin(text, spans, TrimAll(text, spans)[i]);
    }
  }

  /** The trimming loop of `split_persian_document`. */
  method PiecesLoop(text: string, units: seq<Unit>, spans: seq<Span>) returns (pieces: seq<ChunkPiece>)
    requires SpansFit(text, spans)
    ensures TrimFits(text, spans) && pieces == PiecesOf(text, units, TrimAll(text, spans))
  {
    TrimFitsAlways(text, spans);
    hide SpansFit, TrimFits, TrimAll, PiecesOf, HeadingCovering, TrimSpan;
    assert spans[0..] == spans;
    ghost var all := PiecesOf(text, units, TrimAll(text, spans));
    ghost var rest := all;
    pieces := [];
    var hasHeading := exists i :: 0 <= i < |units| && units[i].kind == Heading;
    var strategy := if hasHeading then "heading" else "paragraph";
    for i := 0 to |spans|
      invariant TrimFits(text, spans[i..])
      invariant rest == PiecesOf(text, units, TrimAll(text, spans[i..]))
      invariant pieces + rest == all
    {
      PiecesStep(text, units, spans, i);
      var start, end := TrimSpanLoop(text, spans[i].start, spans[i].end);
      var step: seq<ChunkPiece> := [];
      if start < end {
        var heading := HeadingCovering(units, 0, None, start, end);
        step := [ChunkPiece(start, end, text[start..end], heading, strategy)];
      }
      ghost var after := PiecesOf(text, units, TrimAll(text, spans[i + 1..]));
      Regroup(pieces, step, after, rest, all);
      pieces, rest := pieces + step, after;
    }
    PiecesDone(text, units, spans[|spans|..]);
  }

  lemma PiecesDone(text: string, units: seq<Unit>, none: seq<Span>)
    requires none == [] && TrimFits(text, none)
    ensures PiecesOf(text, units, TrimAll(text, none)) == []
  {
  }

  /**
   * `split_persian_document`. The whole-text fallback, which ignores the size
   * limit, sits in a branch no non-blank text reaches.
   */
  method SplitPersianDocument(text: string, cfg: Config, rules: Rules) returns (pieces: seq<ChunkPiece>)
    requires cfg.Valid()
    ensures pieces == DocumentPieces(text, cfg, rules)
  {
    hide ParagraphUnits, Coalesce, MergedSpans, TrimAll, PiecesOf, Ordered, Tight;
    if IsBlank(text) {
      return [];
    }
    var paragraphs := ParagraphUnitsLoop(text, rules);
    var units := CoalesceLoop(paragraphs);
    SemanticUnitsOk(text, rules);
    var spans := MergeUnits(text, units, cfg, rules);
    MergedSpansOk(text, units, cfg, rules);
    pieces := PiecesLoop(text, units, spans);
    NoChunkOnlyIfBlank(text, cfg, rules);
    if pieces == [] {
      assert false;
    }
  }
}
