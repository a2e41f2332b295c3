/**
 * The shape of normalised text, and what the steps do to text of that shape.
 */
module NormalizationStability {
  import opened PythonText
  import opened Normalization

  // ------------------------------------------------------- characters in play

  /** Survives steps 2 to 4 and is left alone by steps 5 to 7. */
  ghost predicate EarlyOk(u: Unicode, c: char) {
    && KeepVisible(u)(c) && c != TATWEEL && !IsDiacritic(c)
    && LetterForm(c) == c && LatinDigit(c) == c && PlainPunctuation(c) == c && c != ELLIPSIS
  }

  /** Also left alone by steps 10 to 12. */
  ghost predicate LateOk(u: Unicode, c: char) {
    EarlyOk(u, c) && c != '\r' && PlainSpace(c) == c && (c == '\n' || c == '\t' || !IsControl(c))
  }

  ghost predicate AllEarly(u: Unicode, s: string) { forall c :: c in s ==> EarlyOk(u, c) }

  ghost predicate AllLate(u: Unicode, s: string) { forall c :: c in s ==> LateOk(u, c) }

  lemma {:induction false} FilterIn(s: string, keep: char -> bool)
    ensures forall c :: c in Filter(s, keep) ==> c in s && keep(c)
  {
    if s != "" {
      FilterIn(s[1..], keep);
    }
  }

  lemma {:induction false} FilterId(s: string, keep: char -> bool)
    requires forall c :: c in s ==> keep(c)
    ensures Filter(s, keep) == s
  {
    if s != "" {
      FilterId(s[1..], keep);
    }
  }

  lemma {:induction false} MapIn(s: string, f: char -> char, c: char)
    requires c in MapChars(s, f)
    ensures exists d :: d in s && f(d) == c
  {
    if c == f(s[0]) {
      assert s[0] in s;
    } else {
      MapIn(s[1..], f, c);
      var d :| d in s[1..] && f(d) == c;
      assert d in s;
    }
  }

  lemma {:induction false} MapId(s: string, f: char -> char)
    requires forall c :: c in s ==> f(c) == c
    ensures MapChars(s, f) == s
  {
    if s != "" {
      MapId(s[1..], f);
    }
  }

  lemma {:induction false} ExpandIn(s: string)
    ensures forall c :: c in ExpandEllipsis(s) ==> c == '.' || (c in s && c != ELLIPSIS)
  {
    if s != "" {
      ExpandIn(s[1..]);
    }
  }

  lemma {:induction false} ExpandId(s: string)
    requires ELLIPSIS !in s
    ensures ExpandEllipsis(s) == s
  {
    if s != "" {
      ExpandId(s[1..]);
    }
  }

  lemma CharacterStepOk(u: Unicode, c: char)
    requires Tables(u) && KeepVisible(u)(c) && c != TATWEEL && !IsDiacritic(c)
    ensures var d := PlainPunctuation(LatinDigit(LetterForm(c))); d == ELLIPSIS || EarlyOk(u, d)
  {
    var d := PlainPunctuation(LatinDigit(LetterForm(c)));
    if d != c {
      assert IsProduced(d);
    }
  }

  /** After steps 2 to 7 every character is one those steps leave alone. */
  lemma {:induction false} CharacterStepsOk(u: Unicode, s: string)
    requires Tables(u)
    ensures AllEarly(u, CharacterSteps(u, s))
  {
    var a := Filter(s, KeepVisible(u));
    var b := Filter(a, KeepNonTatweel());
    var d := Filter(b, KeepNonDiacritic());
    FilterIn(s, KeepVisible(u));
    FilterIn(a, KeepNonTatweel());
    FilterIn(b, KeepNonDiacritic());
    var e := MapChars(d, LetterForm);
    var f := MapChars(e, LatinDigit);
    var g := MapChars(f, PlainPunctuation);
    ExpandIn(g);
    hide Filter, MapChars, ExpandEllipsis, EarlyOk, LetterForm, LatinDigit, PlainPunctuation, Tables;
    forall c | c in ExpandEllipsis(g)
      ensures EarlyOk(u, c)
    {
      if c == '.' {
        DotOk(u);
      } else {
        MapIn(f, PlainPunctuation, c);
        var c3 :| c3 in f && PlainPunctuation(c3) == c;
        MapIn(e, LatinDigit, c3);
        var c2 :| c2 in e && LatinDigit(c2) == c3;
        MapIn(d, LetterForm, c2);
        var c1 :| c1 in d && LetterForm(c1) == c2;
        assert c1 in b && c1 in a;
        CharacterStepOk(u, c1);
      }
    }
  }

  lemma DotOk(u: Unicode)
    requires Tables(u)
    ensures EarlyOk(u, '.') && EarlyOk(u, '\n') && EarlyOk(u, ' ')
  {
    assert IsProduced('.') && IsProduced('\n') && IsProduced(' ');
  }

  lemma {:induction false} CharacterStepsId(u: Unicode, s: string)
    requires AllEarly(u, s)
    ensures CharacterSteps(u, s) == s
  {
    FilterId(s, KeepVisible(u));
    FilterId(s, KeepNonTatweel());
    FilterId(s, KeepNonDiacritic());
    MapId(s, LetterForm);
    MapId(s, LatinDigit);
    MapId(s, PlainPunctuation);
    ExpandId(s);
  }

  // --------------------------------------------- neighbouring characters

  /** A ZWNJ stands next to letters only. */
  ghost predicate Joined(u: Unicode, a: char, b: char) {
    (a == ZWNJ ==> u.isLetter(b)) && (b == ZWNJ ==> u.isLetter(a))
  }

  /** No doubled space, and no whitespace next to a line end. */
  ghost predicate Settled(a: char, b: char) {
    && !(a == ' ' && b == ' ')
    && (a == '\n' && b != '\n' ==> !IsSpace(b))
    && (b == '\n' && a != '\n' ==> !IsSpace(a))
  }

  ghost predicate Next(u: Unicode, strict: bool, a: char, b: char) {
    Joined(u, a, b) && (strict ==> Settled(a, b))
  }

  ghost predicate Pairs(u: Unicode, strict: bool, s: string) {
    |s| < 2 || (Next(u, strict, s[0], s[1]) && Pairs(u, strict, s[1..]))
  }

  ghost predicate EdgesJoined(s: string) {
    s == "" || (s[0] != ZWNJ && s[|s| - 1] != ZWNJ)
  }

  predicate EdgeChar(c: char) { c != ZWNJ && (c == '\n' || !IsSpace(c)) }

  ghost predicate EdgesSettled(s: string) {
    s == "" || (EdgeChar(s[0]) && EdgeChar(s[|s| - 1]))
  }

  /** The shape of normalised text. */
  ghost predicate Quiet(u: Unicode, s: string) {
    AllLate(u, s) && '\t' !in s && Pairs(u, true, s) && EdgesSettled(s)
  }

  lemma {:induction false} PairsConcat(u: Unicode, strict: bool, a: string, b: string)
    ensures Pairs(u, strict, a + b)
      <==> Pairs(u, strict, a) && Pairs(u, strict, b) && (a != "" && b != "" ==> Next(u, strict, a[|a| - 1], b[0]))
  {
    hide Next;
    if a == "" {
      assert a + b == b;
    } else {
      assert (a + b)[1..] == a[1..] + b;
      PairsConcat(u, strict, a[1..], b);
    }
  }

  lemma {:induction false} PairsSplit(u: Unicode, strict: bool, s: string, i: nat)
    requires i < |s| && Pairs(u, strict, s)
    ensures Pairs(u, strict, s[..i]) && Pairs(u, strict, s[i + 1..])
    ensures i > 0 ==> Next(u, strict, s[i - 1], s[i])
    ensures i + 1 < |s| ==> Next(u, strict, s[i], s[i + 1])
  {
    assert s == s[..i] + s[i..] && s[i..] == [s[i]] + s[i + 1..];
    PairsConcat(u, strict, s[..i], s[i..]);
    PairsConcat(u, strict, [s[i]], s[i + 1..]);
  }

  lemma {:induction false} PairsGlue(u: Unicode, strict: bool, a: string, c: char, b: string)
    requires Pairs(u, strict, a) && Pairs(u, strict, b)
    requires a != "" ==> Next(u, strict, a[|a| - 1], c)
    requires b != "" ==> Next(u, strict, c, b[0])
    ensures Pairs(u, strict, a + [c] + b)
  {
    hide Next;
    PairsConcat(u, strict, a, [c]);
    PairsConcat(u, strict, a + [c], b);
  }

  // --------------------------------------------------------------- collapsing

  /** Collapsing keeps first and last characters, neighbours and vocabulary. */
  ghost predicate Thinned(u: Unicode, s: string, t: string) {
    && (s == "" <==> t == "") && |t| <= |s|
    && (s != "" ==> s[0] == t[0] && s[|s| - 1] == t[|t| - 1])
    && (forall c :: c in t ==> c in s)
    && (forall strict :: Pairs(u, strict, s) ==> Pairs(u, strict, t))
  }

  /** Putting a character in front, or leaving out a repeated one, keeps that. */
  lemma {:induction false} ThinnedStep(u: Unicode, s: string, r: string, dropped: bool)
    requires s != "" && Thinned(u, s[1..], r)
    requires dropped ==> |s| > 1 && s[1] == s[0]
    ensures Thinned(u, s, if dropped then r else [s[0]] + r)
  {
    hide Next;
    var t := if dropped then r else [s[0]] + r;
    assert ([s[0]] + r)[1..] == r;
    forall strict | Pairs(u, strict, s)
      ensures Pairs(u, strict, t)
    {
      assert Pairs(u, strict, s[1..]);
    }
  }

  lemma {:induction false} CollapseMarksThins(u: Unicode, s: string)
    ensures Thinned(u, s, CollapseMarks(s))
  {
    hide Pairs;
    if s != "" {
      CollapseMarksThins(u, s[1..]);
      ThinnedStep(u, s, CollapseMarks(s[1..]), |s| > 1 && IsMark(s[0]) && s[1] == s[0]);
    }
  }

  lemma {:induction false} CollapseDotsThins(u: Unicode, s: string)
    ensures Thinned(u, s, CollapseDots(s))
  {
    hide Pairs;
    if s != "" {
      CollapseDotsThins(u, s[1..]);
      ThinnedStep(u, s, CollapseDots(s[1..]), FourDots(s));
    }
  }

  /** Collapsing keeps the shape of normalised text. */
  lemma {:induction false} CollapseQuiet(u: Unicode, s: string)
    requires Quiet(u, s)
    ensures Quiet(u, Collapse(s))
  {
    hide CollapseMarks, CollapseDots, Pairs, LateOk, EdgeChar;
    CollapseMarksThins(u, s);
    CollapseDotsThins(u, CollapseMarks(s));
  }

  predicate NoMarkRun(s: string) {
    |s| < 2 || (!(IsMark(s[0]) && s[1] == s[0]) && NoMarkRun(s[1..]))
  }

  predicate NoDotRun(s: string) {
    s == "" || (!FourDots(s) && NoDotRun(s[1..]))
  }

  function LeadDots(s: string): nat {
    if s == "" || s[0] != '.' then 0 else 1 + LeadDots(s[1..])
  }

  lemma FourDotsCount(s: string)
    ensures FourDots(s) <==> LeadDots(s) >= 4
  {
    if |s| >= 3 {
      assert s[1..][1..] == s[2..] && s[1..][1..][1..] == s[3..];
      assert LeadDots(s[1..]) == if s[1] != '.' then 0 else 1 + LeadDots(s[2..]);
      assert LeadDots(s[2..]) == if s[2] != '.' then 0 else 1 + LeadDots(s[3..]);
    } else if |s| == 2 {
      assert LeadDots(s[1..][1..]) == 0;
    }
  }

  /** `CollapseMarks` is the identity exactly on texts without a repeated mark. */
  lemma {:induction false} CollapseMarksFixed(s: string)
    ensures |CollapseMarks(s)| <= |s| && (s != "" ==> CollapseMarks(s) != "" && CollapseMarks(s)[0] == s[0])
    ensures NoMarkRun(CollapseMarks(s))
    ensures NoMarkRun(s) ==> CollapseMarks(s) == s
    ensures !NoMarkRun(s) ==> |CollapseMarks(s)| < |s|
  {
    if s != "" {
      CollapseMarksFixed(s[1..]);
      assert ([s[0]] + CollapseMarks(s[1..]))[1..] == CollapseMarks(s[1..]);
    }
  }

  lemma {:induction false} CollapseDotsFixed(s: string)
    ensures |CollapseDots(s)| <= |s| && (s != "" ==> CollapseDots(s) != "" && CollapseDots(s)[0] == s[0])
    ensures NoMarkRun(s) ==> NoMarkRun(CollapseDots(s))
    ensures LeadDots(CollapseDots(s)) == Min(3, LeadDots(s)) && NoDotRun(CollapseDots(s))
    ensures NoDotRun(s) ==> CollapseDots(s) == s
    ensures !NoDotRun(s) ==> |CollapseDots(s)| < |s|
  {
    if s != "" {
      FourDotsCount(s);
      CollapseDotsFixed(s[1..]);
      if !FourDots(s) {
        var t := [s[0]] + CollapseDots(s[1..]);
        assert t[1..] == CollapseDots(s[1..]);
        FourDotsCount(t);
      }
    }
  }

  /** Collapsing is idempotent, and the identity exactly when no run is left. */
  lemma {:induction false} CollapseFixed(s: string)
    ensures Collapse(Collapse(s)) == Collapse(s)
    ensures Collapse(s) == s <==> NoMarkRun(s) && NoDotRun(s)
  {
    hide CollapseMarks, CollapseDots, NoMarkRun, NoDotRun;
    var m := CollapseMarks(s);
    CollapseMarksFixed(s);
    CollapseDotsFixed(m);
    CollapseMarksFixed(CollapseDots(m));
    CollapseDotsFixed(CollapseDots(m));
  }

  // ---------------------------------------------------------- ZWNJ and spacing

  lemma {:induction false} CollapseZwnjIn(s: string)
    ensures forall c :: c in CollapseZwnj(s) ==> c in s
  {
    if s != "" {
      CollapseZwnjIn(s[1..]);
    }
  }

  lemma {:induction false} KeepJoinersIn(u: Unicode, prev: Option<char>, s: string)
    ensures forall c :: c in KeepJoiners(u, prev, s) ==> c in s
    decreases s
  {
    if s != "" {
      KeepJoinersIn(u, if s[0] != ZWNJ then Some(s[0]) else prev, s[1..]);
      KeepJoinersIn(u, Some(ZWNJ), s[1..]);
    }
  }

  /** Every ZWNJ that survives step 9 stands between two letters. */
  lemma {:induction false} KeepJoinersJoined(u: Unicode, prev: Option<char>, s: string)
    requires Tables(u)
    requires prev == Some(ZWNJ) ==> s != "" && u.isLetter(s[0])
    ensures var o := KeepJoiners(u, prev, s);
      && Pairs(u, false, o) && (prev == Some(ZWNJ) ==> o != "")
      && (o != "" ==> o[|o| - 1] != ZWNJ && (prev.None? ==> o[0] != ZWNJ) && (prev.Some? ==> Joined(u, prev.value, o[0])))
    decreases s
  {
    if s != "" {
      assert u.isLetter(s[0]) ==> s[0] != ZWNJ;
      if s[0] != ZWNJ {
        KeepJoinersJoined(u, Some(s[0]), s[1..]);
        var o := KeepJoiners(u, Some(s[0]), s[1..]);
        assert ([s[0]] + o)[1..] == o;
      } else if prev.Some? && u.isLetter(prev.value) && |s| > 1 && u.isLetter(s[1]) {
        KeepJoinersJoined(u, Some(ZWNJ), s[1..]);
        var o := KeepJoiners(u, Some(ZWNJ), s[1..]);
        assert ([ZWNJ] + o)[1..] == o;
      } else {
        KeepJoinersJoined(u, prev, s[1..]);
      }
    }
  }

  lemma {:induction false} NormalizeZwnjOk(u: Unicode, s: string)
    requires Tables(u) && AllEarly(u, s)
    ensures var o := NormalizeZwnj(u, s); AllEarly(u, o) && Pairs(u, false, o) && EdgesJoined(o)
  {
    CollapseZwnjIn(s);
    KeepJoinersIn(u, None, CollapseZwnj(s));
    KeepJoinersJoined(u, None, CollapseZwnj(s));
  }

  /** Where every ZWNJ stands between letters, step 9 changes nothing. */
  lemma {:induction false} NormalizeZwnjId(u: Unicode, prev: Option<char>, s: string)
    requires Tables(u) && Pairs(u, false, s) && (s != "" ==> s[|s| - 1] != ZWNJ)
    requires s != "" && s[0] == ZWNJ ==> prev.Some? && u.isLetter(prev.value)
    ensures CollapseZwnj(s) == s && KeepJoiners(u, prev, s) == s
    decreases s
  {
    if s != "" {
      assert u.isLetter(ZWNJ) ==> false;
      NormalizeZwnjId(u, Some(s[0]), s[1..]);
    }
  }

  ghost predicate KeepsJoins(u: Unicode, f: char -> char) {
    forall c :: (u.isLetter(c) || c == ZWNJ ==> f(c) == c) && (f(c) == ZWNJ ==> c == ZWNJ)
  }

  lemma {:induction false} MapJoined(u: Unicode, s: string, f: char -> char)
    requires Pairs(u, false, s) && EdgesJoined(s) && KeepsJoins(u, f)
    ensures |MapChars(s, f)| == |s|
    ensures Pairs(u, false, MapChars(s, f)) && EdgesJoined(MapChars(s, f))
  {
    MapPairs(u, s, f);
  }

  lemma {:induction false} MapPairs(u: Unicode, s: string, f: char -> char)
    requires Pairs(u, false, s) && KeepsJoins(u, f)
    ensures |MapChars(s, f)| == |s| && Pairs(u, false, MapChars(s, f))
    ensures s != "" ==> MapChars(s, f)[0] == f(s[0]) && MapChars(s, f)[|s| - 1] == f(s[|s| - 1])
  {
    if s != "" {
      MapPairs(u, s[1..], f);
      var t := [f(s[0])] + MapChars(s[1..], f);
      assert t[1..] == MapChars(s[1..], f);
    }
  }

  lemma {:induction false} DropCrJoined(u: Unicode, s: string)
    requires Tables(u) && Pairs(u, false, s)
    ensures var t := DropCrBeforeLf(s);
      && Pairs(u, false, t) && (s == "" <==> t == "") && (forall c :: c in t ==> c in s)
      && (s != "" ==> t[|t| - 1] == s[|s| - 1] && (t[0] == s[0] || (s[0] == '\r' && t[0] == '\n')))
  {
    if s != "" {
      DropCrJoined(u, s[1..]);
      var r := DropCrBeforeLf(s[1..]);
      assert ([s[0]] + r)[1..] == r;
      assert !u.isLetter('\r');
    }
  }

  /** Dropping characters other than letters and ZWNJ keeps every ZWNJ between letters. */
  ghost predicate StillJoined(u: Unicode, s: string, t: string) {
    && Pairs(u, false, t) && (t != "" ==> t[|t| - 1] != ZWNJ)
    && (s != "" && (u.isLetter(s[0]) || s[0] == ZWNJ) ==> t != "" && t[0] == s[0])
    && (s != "" && s[0] != ZWNJ && t != "" ==> t[0] != ZWNJ)
  }

  lemma StillJoinedStep(u: Unicode, s: string, t: string, keep: bool)
    requires s != "" && !u.isLetter(ZWNJ) && StillJoined(u, s[1..], t)
    requires |s| > 1 ==> Joined(u, s[0], s[1])
    requires |s| == 1 ==> s[0] != ZWNJ && t == ""
    requires u.isLetter(s[0]) || s[0] == ZWNJ ==> keep
    ensures StillJoined(u, s, if keep then [s[0]] + t else t)
  {
    hide Pairs;
    if keep {
      var r := [s[0]] + t;
      PairsConcat(u, false, [s[0]], t);
      OnePair(u, s[0]);
      assert t != "" ==> Joined(u, s[0], t[0]);
    }
  }

  lemma OnePair(u: Unicode, c: char)
    ensures Pairs(u, false, [c])
  {
  }

  lemma {:induction false} FilterJoined(u: Unicode, s: string, keep: char -> bool)
    requires Tables(u) && Pairs(u, false, s) && (s != "" ==> s[|s| - 1] != ZWNJ)
    requires forall c :: u.isLetter(c) || c == ZWNJ ==> keep(c)
    ensures StillJoined(u, s, Filter(s, keep))
  {
    if s != "" {
      FilterJoined(u, s[1..], keep);
      StillJoinedStep(u, s, Filter(s[1..], keep), keep(s[0]));
      assert "" + Filter(s[1..], keep) == Filter(s[1..], keep);
    }
  }

  /** Steps 10 to 12 keep ZWNJ between letters and leave only settled characters. */
  lemma {:induction false} SpacingStepsOk(u: Unicode, s: string)
    requires Tables(u) && AllEarly(u, s) && Pairs(u, false, s) && EdgesJoined(s)
    ensures var o := SpacingSteps(s); AllLate(u, o) && Pairs(u, false, o) && EdgesJoined(o)
  {
    hide DropCrBeforeLf, MapChars, Filter, Pairs, Tables, LateOk;
    var a := DropCrBeforeLf(s);
    DropCrJoined(u, s);
    var b := MapChars(a, CrToLf);
    JoinsKept(u);
    MapJoined(u, a, CrToLf);
    var d := MapChars(b, PlainSpace);
    MapJoined(u, b, PlainSpace);
    FilterJoined(u, d, KeepAllowed());
    FilterIn(d, KeepAllowed());
    forall c | c in Filter(d, KeepAllowed())
      ensures LateOk(u, c)
    {
      MapIn(b, PlainSpace, c);
      var c1 :| c1 in b && PlainSpace(c1) == c;
      MapIn(a, CrToLf, c1);
      var c0 :| c0 in a && CrToLf(c0) == c1;
      SpacedCharacterOk(u, c0);
    }
    EdgesAfterFilter(u, d);
  }

  lemma SpacedCharacterOk(u: Unicode, c: char)
    requires Tables(u) && EarlyOk(u, c) && KeepAllowed()(PlainSpace(CrToLf(c)))
    ensures LateOk(u, PlainSpace(CrToLf(c)))
  {
    DotOk(u);
  }

  lemma {:induction false} EdgesAfterFilter(u: Unicode, d: string)
    requires Tables(u) && Pairs(u, false, d) && EdgesJoined(d)
    ensures EdgesJoined(Filter(d, KeepAllowed()))
  {
    JoinsKept(u);
    FilterJoined(u, d, KeepAllowed());
  }

  lemma JoinsKept(u: Unicode)
    requires Tables(u)
    ensures KeepsJoins(u, CrToLf) && KeepsJoins(u, PlainSpace)
    ensures forall c :: u.isLetter(c) || c == ZWNJ ==> KeepAllowed()(c)
  {
  }

  lemma {:induction false} SpacingStepsId(u: Unicode, s: string)
    requires AllLate(u, s)
    ensures SpacingSteps(s) == s
  {
    NoCrId(s);
    MapId(s, CrToLf);
    MapId(s, PlainSpace);
    FilterId(s, KeepAllowed());
  }

  lemma {:induction false} NoCrId(s: string)
    requires '\r' !in s
    ensures DropCrBeforeLf(s) == s
  {
    if s != "" {
      NoCrId(s[1..]);
    }
  }

  // ------------------------------------------------------- whitespace cleanup

  function Spaced(c: char): char { if IsBlankChar(c) then ' ' else c }

  lemma {:induction false} SqueezeOk(u: Unicode, p: string)
    requires ZWNJ !in p && '\n' !in p
    ensures var q := Squeeze(p);
      && Pairs(u, true, q) && (p == "" <==> q == "")
      && (forall c :: c in q ==> c == ' ' || (c in p && c != '\t'))
      && (p != "" ==> q[0] == Spaced(p[0]) && q[|q| - 1] == Spaced(p[|p| - 1]))
  {
    if p != "" {
      SqueezeOk(u, p[1..]);
      var r := Squeeze(p[1..]);
      assert ([p[0]] + r)[1..] == r;
      assert (" " + r)[1..] == r;
    }
  }

  /** `Strip` returns a substring. */
  lemma {:induction false} StripSub(x: string) returns (i: nat, j: nat)
    ensures i <= j <= |x| && Strip(x) == x[i..j]
    ensures x != "" && !IsSpace(x[0]) ==> i == 0 < j
    ensures x != "" && !IsSpace(x[|x| - 1]) ==> i < j == |x|
  {
    var l := LStrip(x);
    var r := RStrip(l);
    i, j := |x| - |l|, |x| - |l| + |r|;
    assert r == x[i..j];
    if x != "" && !IsSpace(x[0]) {
      assert l == x;
    }
    if x != "" && !IsSpace(x[|x| - 1]) {
      assert i <= |x| - 1;
      assert l[|l| - 1] == x[|x| - 1];
    }
  }

  lemma {:induction false} PairsSub(u: Unicode, strict: bool, s: string, i: nat, j: nat)
    requires i <= j <= |s| && Pairs(u, strict, s)
    ensures Pairs(u, strict, s[i..j])
  {
    assert s == s[..i] + s[i..] && s[i..] == s[i..j] + s[j..];
    PairsConcat(u, strict, s[..i], s[i..]);
    PairsConcat(u, strict, s[i..j], s[j..]);
  }

  /** Cleaned text that touches letters keeps them at its ends. */
  ghost predicate KeepsEnds(u: Unicode, p: string, q: string) {
    && (p != "" && u.isLetter(p[0]) ==> q != "" && q[0] == p[0])
    && (p != "" && u.isLetter(p[|p| - 1]) ==> q != "" && q[|q| - 1] == p[|p| - 1])
  }

  lemma {:induction false} CleanPartOk(u: Unicode, p: string)
    requires Tables(u) && AllLate(u, p) && ZWNJ !in p && '\n' !in p
    ensures var q := CleanPart(p); Quiet(u, q) && ZWNJ !in q && '\n' !in q && KeepsEnds(u, p, q)
  {
    hide Squeeze, Strip, Pairs, IsSpace, Tables, LateOk;
    var x := Squeeze(p);
    SqueezeOk(u, p);
    var i, j := StripSub(x);
    PairsSub(u, true, x, i, j);
    SpaceLate(u);
    if p != "" && u.isLetter(p[0]) {
      LetterFacts(u, p[0]);
      BlankIsSpace();
    }
    if p != "" && u.isLetter(p[|p| - 1]) {
      LetterFacts(u, p[|p| - 1]);
      BlankIsSpace();
    }
    SubOf(x, i, j);
  }

  lemma BlankIsSpace()
    ensures IsSpace(' ') && IsSpace('\t')
  {
  }

  lemma SubOf(x: string, i: nat, j: nat)
    requires i <= j <= |x|
    ensures forall c :: c in x[i..j] ==> c in x
  {
  }

  lemma SpaceLate(u: Unicode)
    requires Tables(u)
    ensures LateOk(u, ' ') && LateOk(u, '\n')
  {
    DotOk(u);
  }

  lemma {:induction false} CleanPartId(u: Unicode, p: string)
    requires Quiet(u, p) && ZWNJ !in p && '\n' !in p
    ensures CleanPart(p) == p
  {
    SqueezeId(u, p);
    StripFixed(p);
  }

  lemma {:induction false} SqueezeId(u: Unicode, p: string)
    requires Pairs(u, true, p) && '\t' !in p
    ensures Squeeze(p) == p
  {
    if p != "" {
      SqueezeId(u, p[1..]);
    }
  }

  /** The pieces of `s` around its first `sep`. */
  lemma FirstSep(s: string, sep: char) returns (i: nat)
    ensures i == Find(s, sep, 0, |s|)
    ensures i <= |s| && sep !in s[..i] && (i < |s| ==> s[i] == sep && s == s[..i] + [sep] + s[i + 1..])
  {
    i := Find(s, sep, 0, |s|);
    FindFirst(s, sep, 0, |s|);
  }

  lemma {:induction false} FindFirst(s: string, sep: char, lo: nat, hi: nat)
    requires lo <= hi <= |s|
    ensures forall k :: lo <= k < Find(s, sep, lo, hi) ==> s[k] != sep
    decreases hi - lo
  {
    if lo < hi && s[lo] != sep {
      FindFirst(s, sep, lo + 1, hi);
    }
  }

  lemma {:induction false} CleanLineOk(u: Unicode, l: string)
    requires Tables(u) && AllLate(u, l) && '\n' !in l && Pairs(u, false, l) && EdgesJoined(l)
    ensures var o := CleanLine(l); Quiet(u, o) && '\n' !in o && KeepsEnds(u, l, o)
    decreases |l|
  {
    hide CleanPart, Tables, LateOk, Settled;
    var i := FirstSep(l, ZWNJ);
    var p := l[..i];
    CleanPartOk(u, p);
    if i < |l| {
      var rest := l[i + 1..];
      PairsSplit(u, false, l, i);
      assert i > 0 && rest != "" && u.isLetter(l[i - 1]) && u.isLetter(rest[0]);
      LetterFacts(u, l[i - 1]);
      LetterFacts(u, rest[0]);
      assert rest[|rest| - 1] == l[|l| - 1];
      CleanLineOk(u, rest);
      var q, o := CleanPart(p), CleanLine(rest);
      assert q[|q| - 1] == l[i - 1] && o[0] == rest[0];
      PairsGlue(u, true, q, ZWNJ, o);
      ZwnjLate(u, l);
    } else {
      assert p == l;
    }
  }

  lemma LetterFacts(u: Unicode, c: char)
    requires Tables(u) && u.isLetter(c)
    ensures !IsSpace(c) && c != ZWNJ && c != '\n' && Next(u, true, c, ZWNJ) && Next(u, true, ZWNJ, c)
    ensures !IsMark(c) && c != '.' && !IsControl(c)
  {
  }

  lemma ZwnjLate(u: Unicode, l: string)
    requires AllLate(u, l) && ZWNJ in l
    ensures LateOk(u, ZWNJ)
  {
  }

  lemma {:induction false} CleanLineId(u: Unicode, l: string)
    requires Tables(u) && Quiet(u, l) && '\n' !in l
    ensures CleanLine(l) == l
    decreases |l|
  {
    hide CleanPart, Tables, LateOk, Settled;
    var i := FirstSep(l, ZWNJ);
    var p := l[..i];
    if i < |l| {
      var rest := l[i + 1..];
      PairsSplit(u, true, l, i);
      assert i > 0 && rest != "" && u.isLetter(l[i - 1]) && u.isLetter(rest[0]);
      LetterFacts(u, l[i - 1]);
      LetterFacts(u, rest[0]);
      assert rest[|rest| - 1] == l[|l| - 1] && p[0] == l[0];
      CleanPartId(u, p);
      CleanLineId(u, rest);
    } else {
      assert p == l;
      CleanPartId(u, p);
    }
  }

  /** Step 13 leaves normalised text. */
  lemma {:induction false} CleanupOk(u: Unicode, s: string)
    requires Tables(u) && AllLate(u, s) && Pairs(u, false, s) && EdgesJoined(s)
    ensures Quiet(u, CleanupWhitespace(s))
    decreases |s|
  {
    hide CleanLine, Tables, LateOk;
    NewlineFacts(u);
    var i := FirstSep(s, '\n');
    var l := s[..i];
    if i < |s| {
      var rest := s[i + 1..];
      PairsSplit(u, false, s, i);
      if i > 0 {
        assert l[0] == s[0] && l[i - 1] != ZWNJ;
      }
      if rest != "" {
        assert rest[0] != ZWNJ && rest[|rest| - 1] == s[|s| - 1];
      }
      CleanLineOk(u, l);
      CleanupOk(u, rest);
      PairsGlue(u, true, CleanLine(l), '\n', CleanupWhitespace(rest));
    } else {
      assert l == s;
      CleanLineOk(u, s);
    }
  }

  lemma NewlineFacts(u: Unicode)
    requires Tables(u)
    ensures !u.isLetter('\n') && LateOk(u, '\n') && !u.isLetter(ZWNJ)
  {
    DotOk(u);
  }

  /** On normalised text step 13 changes nothing. */
  lemma {:induction false} CleanupId(u: Unicode, s: string)
    requires Tables(u) && Quiet(u, s)
    ensures CleanupWhitespace(s) == s
    decreases |s|
  {
    hide CleanLine, Tables, LateOk;
    NewlineFacts(u);
    var i := FirstSep(s, '\n');
    var l := s[..i];
    if i < |s| {
      var rest := s[i + 1..];
      PairsSplit(u, true, s, i);
      if i > 0 {
        assert l[0] == s[0] && EdgeChar(l[i - 1]);
      }
      if rest != "" {
        assert EdgeChar(rest[0]) && rest[|rest| - 1] == s[|s| - 1];
      }
      CleanLineId(u, l);
      CleanupId(u, rest);
    } else {
      assert l == s;
      CleanLineId(u, s);
    }
  }

  // ---------------------------------------------------------------- stability

  lemma {:induction false} PairsRelax(u: Unicode, s: string)
    requires Pairs(u, true, s)
    ensures Pairs(u, false, s)
  {
    if s != "" {
      PairsRelax(u, s[1..]);
    }
  }

  /** The pipeline's output is always of the normalised shape. */
  lemma {:induction false} NormalizeQuiet(u: Unicode, text: string)
    requires Tables(u)
    ensures Quiet(u, Normalize(u, text))
  {
    hide CharacterSteps, CollapseMarks, CollapseDots, NormalizeZwnj, SpacingSteps, CleanupWhitespace, EarlyOk, LateOk, Pairs;
    var s := CharacterSteps(u, u.nfc(text));
    CharacterStepsOk(u, u.nfc(text));
    CollapseMarksThins(u, s);
    CollapseDotsThins(u, CollapseMarks(s));
    assert AllEarly(u, Collapse(s));
    NormalizeZwnjOk(u, Collapse(s));
    SpacingStepsOk(u, NormalizeZwnj(u, Collapse(s)));
    CleanupOk(u, SpacingSteps(NormalizeZwnj(u, Collapse(s))));
  }

  /** From text of that shape on, every step but the collapse does nothing. */
  lemma {:induction false} QuietAfterSubstitutions(u: Unicode, text: string)
    requires Tables(u) && Quiet(u, AfterSubstitutions(u, text))
    ensures Normalize(u, text) == UpToCollapse(u, text) == Collapse(AfterSubstitutions(u, text))
  {
    var z := AfterSubstitutions(u, text);
    CollapseQuiet(u, z);
    var t := Collapse(z);
    assert t != "" ==> t[0] != ZWNJ && t[|t| - 1] != ZWNJ;
    hide CharacterSteps, Collapse, CollapseZwnj, KeepJoiners, SpacingSteps, CleanupWhitespace, EarlyOk, LateOk, Pairs, IsSpace,
      AfterSubstitutions;
    PairsRelax(u, t);
    NormalizeZwnjId(u, None, t);
    SpacingStepsId(u, t);
    CleanupId(u, t);
  }

  /** On text whose NFC has that shape every other step but the collapse does nothing. */
  lemma {:induction false} NormalizeIsCollapse(u: Unicode, s: string)
    requires Tables(u) && Quiet(u, u.nfc(s))
    ensures Normalize(u, s) == Collapse(u.nfc(s))
  {
    CharacterStepsId(u, u.nfc(s));
    hide Normalize, UpToCollapse, Collapse, CharacterSteps, Tables;
    QuietAfterSubstitutions(u, s);
  }
}
