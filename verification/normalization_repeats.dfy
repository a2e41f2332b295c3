/**
 * Exactly when one pass of the normaliser is enough: when no two equal marks,
 * and no four dots, are kept apart only by characters that later steps delete,
 * and deletions bring no characters together that NFC composes or reorders.
 */
module NormalizationRepeats {
  import opened PythonText
  import opened Normalization
  import opened NormalizationComposition
  import opened NormalizationStability

  /** The run of repeatable punctuation read so far. */
  datatype Run = NoRun | Marks(mark: char) | Dots(count: nat)

  /** Characters that steps 9 and 12 delete when they stand next to punctuation. */
  predicate IsTransparent(c: char) {
    c == ZWNJ || (IsControl(c) && c != '\n' && c != '\t' && c != '\r')
  }

  function Step(run: Run, c: char): Run {
    if IsMark(c) then Marks(c)
    else if c == '.' then Dots(if run.Dots? then run.count + 1 else 1)
    else if IsTransparent(c) then run
    else NoRun
  }

  predicate Closes(run: Run, c: char) {
    (IsMark(c) && run == Marks(c)) || (c == '.' && run.Dots? && run.count >= 3)
  }

  /**
   * Reading through the deletable characters, some mark repeats its
   * predecessor or some dot is at least the fourth in a row.
   */
  predicate Repeats(s: string, run: Run) {
    s != "" && (Closes(run, s[0]) || Repeats(s[1..], Step(run, s[0])))
  }

  function RunAfter(s: string, run: Run): Run {
    if s == "" then run else RunAfter(s[1..], Step(run, s[0]))
  }

  lemma {:induction false} RepeatsConcat(a: string, b: string, run: Run)
    ensures Repeats(a + b, run) <==> Repeats(a, run) || Repeats(b, RunAfter(a, run))
    ensures RunAfter(a + b, run) == RunAfter(b, RunAfter(a, run))
    decreases a
  {
    if a == "" {
      assert a + b == b;
    } else {
      assert (a + b)[1..] == a[1..] + b;
      RepeatsConcat(a[1..], b, Step(run, a[0]));
    }
  }

  /** Reading `a`, then `c`, then `b`, when nothing runs on past `a + [c]`. */
  lemma {:induction false} RepeatsAround(a: string, c: char, b: string)
    requires Step(RunAfter(a, NoRun), c) == NoRun && !IsMark(c) && c != '.'
    ensures Repeats(a + [c] + b, NoRun) <==> Repeats(a, NoRun) || Repeats(b, NoRun)
  {
    hide Step;
    RepeatsConcat(a, [c], NoRun);
    RepeatsConcat(a + [c], b, NoRun);
    assert RunAfter([c], RunAfter(a, NoRun)) == NoRun;
  }

  // ------------------------------------------ the steps leave `Repeats` alone

  lemma {:induction false} ZwnjRepeats(u: Unicode, prev: Option<char>, s: string, run: Run)
    ensures Repeats(CollapseZwnj(s), run) == Repeats(s, run)
    ensures Repeats(KeepJoiners(u, prev, s), run) == Repeats(s, run)
    decreases s
  {
    if s != "" {
      var next := Step(run, s[0]);
      ZwnjRepeats(u, if s[0] != ZWNJ then Some(s[0]) else prev, s[1..], next);
      ZwnjRepeats(u, Some(ZWNJ), s[1..], next);
      assert forall r: string :: ([s[0]] + r)[1..] == r;
    }
  }

  lemma {:induction false} CrRepeats(s: string, run: Run)
    ensures Repeats(DropCrBeforeLf(s), run) == Repeats(s, run)
    decreases s
  {
    if s != "" {
      CrRepeats(s[1..], Step(run, s[0]));
      CrRepeats(s[1..], run);
      var r := DropCrBeforeLf(s[1..]);
      assert ([s[0]] + r)[1..] == r;
      if |s| > 1 && s[0] == '\r' && s[1] == '\n' {
        assert Step(run, '\r') == NoRun && Step(run, '\n') == NoRun && Step(NoRun, '\n') == NoRun;
        assert Repeats(s[1..], NoRun) == Repeats(s[1..][1..], NoRun) == Repeats(s[1..], run);
      }
    }
  }

  /** A per-character change that maps plain separators to plain separators. */
  ghost predicate KeepsRuns(f: char -> char) {
    forall c :: f(c) != c ==>
      && !IsMark(c) && !IsMark(f(c)) && c != '.' && f(c) != '.' && !IsTransparent(c) && !IsTransparent(f(c))
  }

  lemma {:induction false} MapRepeats(s: string, f: char -> char, run: Run)
    requires KeepsRuns(f)
    ensures Repeats(MapChars(s, f), run) == Repeats(s, run)
    decreases s
  {
    if s != "" {
      MapRepeats(s[1..], f, Step(run, s[0]));
      var r := MapChars(s[1..], f);
      assert ([f(s[0])] + r)[1..] == r;
      assert Step(run, f(s[0])) == Step(run, s[0]);
    }
  }

  lemma {:induction false} FilterRepeats(s: string, run: Run)
    requires '\r' !in s
    ensures Repeats(Filter(s, KeepAllowed()), run) == Repeats(s, run)
    decreases s
  {
    if s != "" {
      FilterRepeats(s[1..], Step(run, s[0]));
      var r := Filter(s[1..], KeepAllowed());
      assert ([s[0]] + r)[1..] == r && "" + r == r;
      MarksAreKept(s[0]);
    }
  }

  lemma MarksAreKept(c: char)
    ensures IsMark(c) || c == '.' ==> KeepAllowed()(c)
    ensures !KeepAllowed()(c) && c != '\r' ==> IsTransparent(c)
  {
  }

  lemma {:induction false} SpacingRepeats(s: string)
    ensures Repeats(SpacingSteps(s), NoRun) == Repeats(s, NoRun)
  {
    hide Repeats, DropCrBeforeLf, MapChars, Filter;
    var a := DropCrBeforeLf(s);
    var b := MapChars(a, CrToLf);
    var d := MapChars(b, PlainSpace);
    CrRepeats(s, NoRun);
    MapRepeats(a, CrToLf, NoRun);
    MapRepeats(b, PlainSpace, NoRun);
    if '\r' in d {
      MapIn(b, PlainSpace, '\r');
      assert '\r' in b;
      MapIn(a, CrToLf, '\r');
    }
    FilterRepeats(d, NoRun);
  }

  lemma SpaceStep(c: char, run: Run)
    requires IsSpace(c)
    ensures !IsMark(c) && c != '.' && Step(NoRun, c) == NoRun && !Closes(run, c)
  {
  }

  lemma {:induction false} SqueezeRepeats(s: string, run: Run)
    ensures Repeats(Squeeze(s), run) == Repeats(s, run)
    ensures RunAfter(Squeeze(s), run) == RunAfter(s, run)
    decreases s
  {
    if s != "" {
      SqueezeRepeats(s[1..], Step(run, s[0]));
      SqueezeRepeats(s[1..], run);
      var r := Squeeze(s[1..]);
      assert ([s[0]] + r)[1..] == r && (" " + r)[1..] == r;
      if |s| > 1 && IsBlankChar(s[0]) && IsBlankChar(s[1]) {
        assert Repeats(s, run) == Repeats(s[1..], NoRun) == Repeats(s[1..][1..], NoRun) == Repeats(s[1..], run);
        assert RunAfter(s, run) == RunAfter(s[1..], NoRun) == RunAfter(s[1..][1..], NoRun) == RunAfter(s[1..], run);
      }
    }
  }

  lemma {:induction false} LStripRepeats(s: string)
    ensures Repeats(LStrip(s), NoRun) == Repeats(s, NoRun)
  {
    if s != "" && IsSpace(s[0]) {
      SpaceStep(s[0], NoRun);
      LStripRepeats(s[1..]);
    }
  }

  lemma {:induction false} RStripRepeats(s: string, run: Run)
    ensures Repeats(RStrip(s), run) == Repeats(s, run)
  {
    if s != "" && IsSpace(s[|s| - 1]) {
      var c := s[|s| - 1];
      assert s == s[..|s| - 1] + [c];
      RepeatsConcat(s[..|s| - 1], [c], run);
      SpaceStep(c, RunAfter(s[..|s| - 1], run));
      assert !Repeats([c], RunAfter(s[..|s| - 1], run));
      RStripRepeats(s[..|s| - 1], run);
    }
  }

  lemma {:induction false} CleanPartRepeats(p: string)
    ensures Repeats(CleanPart(p), NoRun) == Repeats(p, NoRun)
  {
    hide Repeats;
    SqueezeRepeats(p, NoRun);
    LStripRepeats(Squeeze(p));
    RStripRepeats(LStrip(Squeeze(p)), NoRun);
  }

  /** After a letter nothing runs on. */
  lemma {:induction false} LetterEndsRun(u: Unicode, p: string)
    requires Tables(u) && p != "" && u.isLetter(p[|p| - 1])
    ensures RunAfter(p, NoRun) == NoRun
  {
    var c := p[|p| - 1];
    LetterFacts(u, c);
    assert p == p[..|p| - 1] + [c];
    RepeatsConcat(p[..|p| - 1], [c], NoRun);
    assert RunAfter([c], RunAfter(p[..|p| - 1], NoRun)) == NoRun;
  }

  lemma {:induction false} CleanLineRepeats(u: Unicode, l: string)
    requires Tables(u) && AllLate(u, l) && '\n' !in l && Pairs(u, false, l) && EdgesJoined(l)
    ensures Repeats(CleanLine(l), NoRun) == Repeats(l, NoRun)
    decreases |l|
  {
    hide CleanPart, Tables, LateOk, Settled, Repeats, RunAfter;
    var i := FirstSep(l, ZWNJ);
    var p := l[..i];
    CleanPartRepeats(p);
    if i < |l| {
      var rest := l[i + 1..];
      PairsSplit(u, false, l, i);
      assert i > 0 && rest != "" && u.isLetter(l[i - 1]) && u.isLetter(rest[0]);
      LetterFacts(u, l[i - 1]);
      LetterFacts(u, rest[0]);
      assert rest[|rest| - 1] == l[|l| - 1];
      CleanPartOk(u, p);
      CleanLineRepeats(u, rest);
      LetterEndsRun(u, p);
      LetterEndsRun(u, CleanPart(p));
      RepeatsAround(p, ZWNJ, rest);
      RepeatsAround(CleanPart(p), ZWNJ, CleanLine(rest));
    } else {
      assert p == l;
    }
  }

  lemma {:induction false} CleanupRepeats(u: Unicode, s: string)
    requires Tables(u) && AllLate(u, s) && Pairs(u, false, s) && EdgesJoined(s)
    ensures Repeats(CleanupWhitespace(s), NoRun) == Repeats(s, NoRun)
    decreases |s|
  {
    hide CleanLine, Tables, LateOk, Repeats, RunAfter;
    NewlineFacts(u);
    var i := FirstSep(s, '\n');
    var l := s[..i];
    if i < |s| {
      var rest := s[i + 1..];
      PairsSplit(u, false, s, i);
      if i > 0 {
        assert l[0] == s[0] && l[i - 1] != ZWNJ;
      }
      if rest != "" {
        assert rest[0] != ZWNJ && rest[|rest| - 1] == s[|s| - 1];
      }
      CleanLineRepeats(u, l);
      CleanupRepeats(u, rest);
      RepeatsAround(l, '\n', rest);
      RepeatsAround(CleanLine(l), '\n', CleanupWhitespace(rest));
    } else {
      assert l == s;
      CleanLineRepeats(u, s);
    }
  }

  /** Steps 9 to 13 neither create nor remove a repeat, read this way. */
  lemma {:induction false} LateStepsRepeats(u: Unicode, text: string)
    requires Tables(u)
    ensures Repeats(Normalize(u, text), NoRun) == Repeats(UpToCollapse(u, text), NoRun)
  {
    hide CharacterSteps, CollapseMarks, CollapseDots, KeepJoiners, CollapseZwnj, SpacingSteps, CleanupWhitespace,
      EarlyOk, LateOk, Pairs, Repeats;
    var s := CharacterSteps(u, u.nfc(text));
    CharacterStepsOk(u, u.nfc(text));
    CollapseMarksThins(u, s);
    CollapseDotsThins(u, CollapseMarks(s));
    var c := Collapse(s);
    assert AllEarly(u, c);
    ZwnjRepeats(u, None, c, NoRun);
    ZwnjRepeats(u, None, CollapseZwnj(c), NoRun);
    NormalizeZwnjOk(u, c);
    var z := NormalizeZwnj(u, c);
    SpacingRepeats(z);
    SpacingStepsOk(u, z);
    CleanupRepeats(u, SpacingSteps(z));
  }

  // ---------------------------------------------- repeats on normalised text

  /** On normalised text only neighbouring characters can repeat. */
  lemma {:induction false} QuietRepeats(u: Unicode, s: string, run: Run)
    requires Tables(u) && AllLate(u, s) && Pairs(u, false, s)
    requires s != "" && s[0] == ZWNJ ==> run == NoRun
    requires run.Dots? ==> 1 <= run.count <= 3
    ensures Repeats(s, run) <==>
      || (run.Marks? && s != "" && s[0] == run.mark && IsMark(s[0]))
      || (run.Dots? && run.count + LeadDots(s) >= 4)
      || !NoMarkRun(s) || !NoDotRun(s)
    decreases s
  {
    if s != "" {
      FourDotsCount(s);
      if !Closes(run, s[0]) {
        var next := Step(run, s[0]);
        if |s| > 1 {
          assert Joined(u, s[0], s[1]);
          if s[1] == ZWNJ {
            LetterFacts(u, s[0]);
          }
        }
        assert LateOk(u, s[0]);
        QuietRepeats(u, s[1..], next);
      }
    }
  }

  /** Normalised text collapses to itself exactly when the text after step 8 has no repeat. */
  lemma {:induction false} CollapsesExactlyWhen(u: Unicode, text: string)
    requires Tables(u)
    ensures Collapse(Normalize(u, text)) == Normalize(u, text) <==> !Repeats(UpToCollapse(u, text), NoRun)
  {
    hide Normalize, UpToCollapse, Collapse, Repeats, LateOk, Pairs;
    var once := Normalize(u, text);
    NormalizeQuiet(u, text);
    CollapseFixed(once);
    PairsRelax(u, once);
    QuietRepeats(u, once, NoRun);
    LateStepsRepeats(u, text);
  }

  /** How many separators a text has. */
  function Separators(s: string): nat {
    if s == "" then 0 else (if IsSeparator(s[0]) then 1 else 0) + Separators(s[1..])
  }

  lemma {:induction false} SeparatorsConcat(a: string, b: string)
    ensures Separators(a + b) == Separators(a) + Separators(b)
  {
    hide IsSeparator;
    if a == "" {
      assert a + b == b;
    } else {
      assert (a + b)[1..] == a[1..] + b;
      SeparatorsConcat(a[1..], b);
    }
  }

  lemma {:induction false} WordHasNone(s: string)
    requires IsWord(s)
    ensures Separators(s) == 0
  {
    hide IsSeparator;
    if s != "" {
      assert s[0] in s;
      WordHasNone(s[1..]);
    }
  }

  /** NFC neither adds nor removes a separator. */
  lemma {:induction false} NfcKeepsSeparators(u: Unicode, s: string)
    requires IsNfc(u) && AllAllowed(u, s)
    ensures Separators(u.nfc(s)) == Separators(s)
    decreases |s|
  {
    hide IsNfc, IsSeparator, IsWord;
    var i := FirstSeparator(s);
    var a := s[..i];
    NfcOfWord(u, a);
    WordHasNone(a);
    WordHasNone(u.nfc(a));
    if i < |s| {
      var c, b := s[i], s[i + 1..];
      NfcKeepsSeparators(u, b);
      NfcAround(u, a, c, b);
      SeparatorsConcat(a + [c], b);
      SeparatorsConcat(a, [c]);
      SeparatorsConcat(u.nfc(a) + [c], u.nfc(b));
      SeparatorsConcat(u.nfc(a), [c]);
    }
  }

  /** What dropping leaves has as many separators only if nothing was dropped. */
  lemma {:induction false} DropsSeparators(s: string, t: string)
    requires Drops(s, t)
    ensures Separators(t) <= Separators(s) && (Separators(t) == Separators(s) ==> t == s)
  {
    hide IsSeparator;
    if s != "" {
      if t != "" && t[0] == s[0] && Drops(s[1..], t[1..]) {
        DropsSeparators(s[1..], t[1..]);
        assert t == [t[0]] + t[1..] && s == [s[0]] + s[1..];
      } else {
        DropsSeparators(s[1..], t);
      }
    }
  }

  /** A text that composes and then collapses to a text is already that text. */
  lemma {:induction false} CollapseOfNfc(u: Unicode, s: string)
    requires IsNfc(u) && AllAllowed(u, s)
    ensures Collapse(u.nfc(s)) == s <==> IsComposed(u, s) && Collapse(s) == s
  {
    hide IsNfc, CollapseMarks, CollapseDots, Separators, AllAllowed;
    var z := u.nfc(s);
    NfcKeepsSeparators(u, s);
    CollapseMarksDrops(z);
    CollapseDotsDrops(CollapseMarks(z));
    DropsSeparators(z, CollapseMarks(z));
    DropsSeparators(CollapseMarks(z), Collapse(z));
  }

  // ---------------------------------------------------------- words of a text

  /** The separator-free stretches of `a + s`, when `a` is the one being read. */
  function Words(a: string, s: string): seq<string>
    decreases |s|
  {
    if s == "" then (if a == "" then [] else [a])
    else if IsSeparator(s[0]) then (if a == "" then [] else [a]) + Words("", s[1..])
    else Words(a + [s[0]], s[1..])
  }

  ghost predicate AllComposed(u: Unicode, words: seq<string>) {
    forall w :: w in words ==> IsComposed(u, w)
  }

  lemma AllComposedConcat(u: Unicode, a: seq<string>, b: seq<string>)
    ensures AllComposed(u, a + b) <==> AllComposed(u, a) && AllComposed(u, b)
  {
    hide IsComposed;
    assert forall w :: w in a + b <==> w in a || w in b;
  }

  /** A text is composed exactly when each of its words is. */
  lemma {:induction false} ComposedByWords(u: Unicode, a: string, s: string)
    requires IsNfc(u) && IsWord(a) && AllAllowed(u, a + s)
    ensures IsComposed(u, a + s) <==> AllComposed(u, Words(a, s))
    decreases |s|
  {
    hide IsSeparator, AllComposed, ClassesHold, KeepsWords;
    if s == "" {
      assert a + s == a;
      OneWord(u, a);
    } else if IsSeparator(s[0]) {
      var b := s[1..];
      assert a + [s[0]] + b == a + s && "" + b == b;
      ComposedAround(u, a, s[0], b);
      ComposedByWords(u, "", b);
      OneWord(u, a);
      AllComposedConcat(u, if a == "" then [] else [a], Words("", b));
    } else {
      assert (a + [s[0]]) + s[1..] == a + s;
      ComposedByWords(u, a + [s[0]], s[1..]);
    }
  }

  lemma OneWord(u: Unicode, a: string)
    requires IsNfc(u)
    ensures AllComposed(u, if a == "" then [] else [a]) <==> IsComposed(u, a)
  {
  }

  /** Reading stops and starts afresh at a separator. */
  lemma {:induction false} WordsAround(a: string, x: string, c: char, y: string)
    requires IsSeparator(c)
    ensures Words(a, x + [c] + y) == Words(a, x) + Words("", y)
    decreases |x|
  {
    hide IsSeparator;
    if x == "" {
      assert (x + [c] + y)[1..] == y;
    } else {
      assert (x + [c] + y)[1..] == x[1..] + [c] + y;
      WordsAround(if IsSeparator(x[0]) then "" else a + [x[0]], x[1..], c, y);
    }
  }

  lemma {:induction false} SqueezeWords(a: string, s: string)
    ensures Words(a, Squeeze(s)) == Words(a, s)
    decreases |s|
  {
    if s != "" {
      var r := Squeeze(s[1..]);
      assert ([s[0]] + r)[1..] == r && (" " + r)[1..] == r;
      assert IsSeparator(' ') && (IsBlankChar(s[0]) ==> IsSeparator(s[0])) && (|s| > 1 && IsBlankChar(s[1]) ==> IsSeparator(s[1]));
      hide IsSeparator;
      if !IsBlankChar(s[0]) {
        SqueezeWords(if IsSeparator(s[0]) then "" else a + [s[0]], s[1..]);
      } else {
        SqueezeWords("", s[1..]);
        SqueezeWords(a, s[1..]);
      }
    }
  }

  /** Separators at either end belong to no word. */
  lemma {:induction false} WordsTrim(s: string, i: nat, j: nat)
    requires i <= j <= |s|
    requires forall k :: 0 <= k < |s| && !(i <= k < j) ==> IsSeparator(s[k])
    ensures Words("", s[i..j]) == Words("", s)
    decreases |s|
  {
    hide IsSeparator;
    if i > 0 {
      WordsTrim(s[1..], i - 1, j - 1);
      assert s[1..][i - 1..j - 1] == s[i..j];
      assert "" + [s[0]] + s[1..] == s;
      WordsAround("", "", s[0], s[1..]);
    } else if j < |s| {
      var n := |s| - 1;
      WordsTrim(s[..n], i, j);
      assert s[..n][i..j] == s[i..j];
      assert s[..n] + [s[n]] + "" == s;
      WordsAround("", s[..n], s[n], "");
    } else {
      assert s[i..j] == s;
    }
  }

  lemma {:induction false} CleanPartWords(u: Unicode, p: string)
    requires Tables(u) && AllLate(u, p)
    ensures Words("", CleanPart(p)) == Words("", p)
  {
    var q := Squeeze(p);
    SqueezeWords("", p);
    SqueezeIn(p);
    SpaceLate(u);
    var i, j := StripIsSlice(q);
    hide LateOk, IsSpace, Strip, Squeeze, IsSeparator, Tables;
    forall k | 0 <= k < |q| && !(i <= k < j)
      ensures IsSeparator(q[k])
    {
      assert q[k] in q && LateOk(u, q[k]);
      SpaceIsSeparator(u, q[k]);
    }
    WordsTrim(q, i, j);
  }

  lemma LateParts(u: Unicode, s: string, i: nat)
    requires AllLate(u, s) && i <= |s|
    ensures AllLate(u, s[..i]) && (i < |s| ==> AllLate(u, s[i + 1..]))
  {
    hide LateOk;
  }

  /** Rewriting the text on both sides of a separator keeps the words when each side keeps its own. */
  lemma WordsAtCut(s: string, i: nat, x: string, y: string, whole: string)
    requires i < |s| && IsSeparator(s[i])
    requires Words("", x) == Words("", s[..i]) && Words("", y) == Words("", s[i + 1..])
    requires whole == x + [s[i]] + y
    ensures Words("", whole) == Words("", s)
  {
    hide *;
    WordsAround("", x, s[i], y);
    WordsAround("", s[..i], s[i], s[i + 1..]);
    assert s[..i] + [s[i]] + s[i + 1..] == s;
  }

  lemma CleanLineStep(l: string, i: nat)
    requires i == Find(l, ZWNJ, 0, |l|)
    ensures CleanLine(l) == if i == |l| then CleanPart(l) else CleanPart(l[..i]) + [ZWNJ] + CleanLine(l[i + 1..])
  {
    hide CleanPart, Find;
  }

  lemma CleanupStep(s: string, i: nat)
    requires i == Find(s, '\n', 0, |s|)
    ensures CleanupWhitespace(s) == if i == |s| then CleanLine(s) else CleanLine(s[..i]) + ['\n'] + CleanupWhitespace(s[i + 1..])
  {
    hide CleanLine, Find;
  }

  lemma ZwnjSeparates()
    ensures IsSeparator(ZWNJ)
  {
  }

  lemma {:induction false} CleanLineWords(u: Unicode, l: string)
    requires Tables(u) && AllLate(u, l)
    ensures Words("", CleanLine(l)) == Words("", l)
    decreases |l|
  {
    hide *;
    ZwnjSeparates();
    var i := FirstSep(l, ZWNJ);
    LateParts(u, l, i);
    CleanLineStep(l, i);
    CleanPartWords(u, l[..i]);
    if i < |l| {
      CleanLineWords(u, l[i + 1..]);
      WordsAtCut(l, i, CleanPart(l[..i]), CleanLine(l[i + 1..]), CleanLine(l));
    } else {
      assert l[..i] == l;
    }
  }

  lemma {:induction false} CleanupWords(u: Unicode, s: string)
    requires Tables(u) && AllLate(u, s)
    ensures Words("", CleanupWhitespace(s)) == Words("", s)
    decreases |s|
  {
    assert IsSeparator('\n');
    hide *;
    var i := FirstSep(s, '\n');
    LateParts(u, s, i);
    CleanupStep(s, i);
    CleanLineWords(u, s[..i]);
    if i < |s| {
      CleanupWords(u, s[i + 1..]);
      WordsAtCut(s, i, CleanLine(s[..i]), CleanupWhitespace(s[i + 1..]), CleanupWhitespace(s));
    } else {
      assert s[..i] == s;
    }
  }

  /** Cleaning up whitespace neither composes text nor takes composition away. */
  lemma {:induction false} CleanupComposed(u: Unicode, text: string)
    requires Tables(u) && IsNfc(u)
    ensures IsComposed(u, Normalize(u, text)) <==> IsComposed(u, BeforeCleanup(u, text))
  {
    assert ClassesHold(u);
    hide CharacterSteps, CollapseMarks, CollapseDots, KeepJoiners, CollapseZwnj, SpacingSteps, CleanupWhitespace, LateOk,
      EarlyOk, Pairs, IsNfc, ClassesHold, IsComposed, Words;
    var before, after := BeforeCleanup(u, text), Normalize(u, text);
    NormalizedIsAllowed(u, text);
    BeforeCleanupLate(u, text);
    CleanupWords(u, before);
    assert "" + before == before && "" + after == after;
    ComposedByWords(u, "", before);
    ComposedByWords(u, "", after);
  }

  lemma BeforeCleanupLate(u: Unicode, text: string)
    requires Tables(u)
    ensures AllLate(u, BeforeCleanup(u, text))
  {
    hide CharacterSteps, CollapseMarks, CollapseDots, NormalizeZwnj, SpacingSteps, EarlyOk, LateOk, Pairs;
    var s := AfterSubstitutions(u, text);
    CharacterStepsOk(u, u.nfc(text));
    CollapseIn(s);
    CollapseIn(CollapseMarks(s));
    NormalizeZwnjOk(u, Collapse(s));
    SpacingStepsOk(u, NormalizeZwnj(u, Collapse(s)));
  }

  // ------------------------------------------------------------- idempotence

  /**
   * One pass is enough exactly when, in the text after step 8, no two equal
   * marks and no four dots are separated by nothing but deletable characters,
   * and the text after step 12 is still its own NFC.
   */
  lemma {:induction false} IdempotentExactlyWhen(u: Unicode, text: string)
    requires Tables(u) && IsNfc(u)
    ensures
      Normalize(u, Normalize(u, text)) == Normalize(u, text)
      <==> !Repeats(UpToCollapse(u, text), NoRun) && IsComposed(u, BeforeCleanup(u, text))
  {
    assert ClassesHold(u);
    hide Normalize, BeforeCleanup, UpToCollapse, Collapse, Repeats, IsNfc, ClassesHold, IsComposed;
    SecondPassIsOneCollapse(u, text);
    NormalizedIsAllowed(u, text);
    CollapseOfNfc(u, Normalize(u, text));
    CollapsesExactlyWhen(u, text);
    CleanupComposed(u, text);
  }

  /**
   * When steps 2 to 7 leave nothing but starters, marks and dots are all that
   * can make a second pass necessary.
   */
  lemma {:induction false} IdempotentForStarters(u: Unicode, text: string)
    requires Tables(u) && IsNfc(u) && AllStarters(u, AfterSubstitutions(u, text))
    ensures Normalize(u, Normalize(u, text)) == Normalize(u, text) <==> !Repeats(UpToCollapse(u, text), NoRun)
    ensures Normalize(u, Normalize(u, text)) == Collapse(Normalize(u, text))
  {
    assert IsSeparator(' ') && IsSeparator('\n');
    LateStepsIn(u, text);
    hide Normalize, BeforeCleanup, UpToCollapse, AfterSubstitutions, Collapse, Repeats, IsSeparator;
    StartersAreComposed(u, BeforeCleanup(u, text));
    StartersAreComposed(u, Normalize(u, text));
    IdempotentExactlyWhen(u, text);
    SecondPassIsOneCollapse(u, text);
  }

  // -------------------------------------------------------- concrete misses

  lemma ExclamationsAreQuiet(u: Unicode)
    requires Tables(u) && !u.isFormat('!')
    ensures Quiet(u, "!!") && AllEarly(u, ['!', ZWNJ, '!'])
    ensures Collapse("!!") == "!" && Collapse(['!', ZWNJ, '!']) == ['!', ZWNJ, '!']
  {
    var text := ['!', ZWNJ, '!'];
    assert "!!"[1..] == "!" && "!"[1..] == "";
    assert text[1..] == [ZWNJ, '!'] && [ZWNJ, '!'][1..] == "!";
    assert CollapseMarks("!") == "!" && CollapseMarks([ZWNJ, '!']) == [ZWNJ, '!'] && CollapseMarks(text) == text;
    assert CollapseDots("!") == "!" && CollapseDots([ZWNJ, '!']) == [ZWNJ, '!'];
  }

  /** Two exclamation marks around a ZWNJ: the first pass joins them, the second drops one. */
  lemma {:induction false} OnePassIsNotEnough(u: Unicode)
    requires Tables(u) && !u.isFormat('!')
    requires u.nfc(['!', ZWNJ, '!']) == ['!', ZWNJ, '!'] && u.nfc("!!") == "!!"
    ensures var text := ['!', ZWNJ, '!']; Normalize(u, text) == "!!" && Normalize(u, Normalize(u, text)) == "!"
  {
    var text := ['!', ZWNJ, '!'];
    ExclamationsAreQuiet(u);
    CharacterStepsId(u, text);
    assert !u.isLetter('!') && NormalizeZwnj(u, text) == "!!" by {
      hide Tables;
      assert text[1..] == [ZWNJ, '!'] && [ZWNJ, '!'][1..] == "!" && "!"[1..] == "";
      LettersAreNoMarks(u);
      assert CollapseZwnj("!") == "!" && CollapseZwnj([ZWNJ, '!']) == [ZWNJ, '!'] && CollapseZwnj(text) == text;
      assert KeepJoiners(u, Some('!'), "!") == "!";
      assert KeepJoiners(u, Some('!'), [ZWNJ, '!']) == "!";
    }
    hide CharacterSteps, Collapse, NormalizeZwnj, SpacingSteps, CleanupWhitespace, LateOk;
    SpacingStepsId(u, "!!");
    CleanupId(u, "!!");
    NormalizeIsCollapse(u, "!!");
  }

  lemma LettersAreNoMarks(u: Unicode)
    requires Tables(u)
    ensures !u.isLetter('!')
  {
  }

  const ALEF: char := '\U{0627}'
  const MADDAH: char := '\U{0653}'
  const ALEF_MADDAH: char := '\U{0622}'

  lemma ArabicIsQuiet(u: Unicode)
    requires Tables(u) && !u.isFormat(ALEF) && !u.isFormat(MADDAH) && !u.isFormat(ALEF_MADDAH)
    ensures Quiet(u, [ALEF, MADDAH]) && Quiet(u, [ALEF_MADDAH])
    ensures Collapse([ALEF, MADDAH]) == [ALEF, MADDAH] && Collapse([ALEF_MADDAH]) == [ALEF_MADDAH]
    ensures !Repeats([ALEF, MADDAH], NoRun)
  {
    assert [ALEF, MADDAH][1..] == [MADDAH] && [MADDAH][1..] == "" && [ALEF_MADDAH][1..] == "";
    assert CollapseMarks([MADDAH]) == [MADDAH] && CollapseDots([MADDAH]) == [MADDAH];
    assert CollapseMarks([ALEF_MADDAH]) == [ALEF_MADDAH];
    assert !Repeats([MADDAH], NoRun);
  }

  lemma TatweelGoes(u: Unicode)
    requires !u.isFormat(ALEF) && !u.isFormat(MADDAH) && AllEarly(u, [ALEF, MADDAH])
    ensures CharacterSteps(u, [ALEF, TATWEEL, MADDAH]) == [ALEF, MADDAH]
  {
    var text, kept := [ALEF, TATWEEL, MADDAH], [ALEF, MADDAH];
    assert text[1..] == [TATWEEL, MADDAH] && [TATWEEL, MADDAH][1..] == [MADDAH] && [MADDAH][1..] == "" && kept[1..] == [MADDAH];
    var visible := KeepVisible(u);
    assert Filter([MADDAH], visible) == [MADDAH];
    assert Filter([TATWEEL, MADDAH], visible) == (if visible(TATWEEL) then [TATWEEL] else "") + [MADDAH];
    assert Filter(text, visible) == if visible(TATWEEL) then text else kept;
    assert Filter([MADDAH], KeepNonTatweel()) == [MADDAH];
    assert Filter([TATWEEL, MADDAH], KeepNonTatweel()) == [MADDAH];
    assert Filter(text, KeepNonTatweel()) == kept && Filter(kept, KeepNonTatweel()) == kept;
    FilterId(kept, visible);
    CharacterStepsId(u, kept);
    hide Filter, MapChars, ExpandEllipsis, EarlyOk;
    assert Filter(Filter(text, visible), KeepNonTatweel()) == Filter(Filter(kept, visible), KeepNonTatweel());
  }

  /**
   * Alef, tatweel, maddah above: the first pass takes the tatweel out, and
   * only the second composes the two others, although no mark repeats.
   */
  lemma {:induction false} TatweelHidesComposition(u: Unicode)
    requires Tables(u) && !u.isFormat(ALEF) && !u.isFormat(MADDAH) && !u.isFormat(ALEF_MADDAH)
    requires u.nfc([ALEF, TATWEEL, MADDAH]) == [ALEF, TATWEEL, MADDAH] && u.nfc([ALEF, MADDAH]) == [ALEF_MADDAH]
    ensures
      var text := [ALEF, TATWEEL, MADDAH];
      && !Repeats(UpToCollapse(u, text), NoRun)
      && Normalize(u, text) == [ALEF, MADDAH] && Normalize(u, Normalize(u, text)) == [ALEF_MADDAH]
  {
    var text := [ALEF, TATWEEL, MADDAH];
    ArabicIsQuiet(u);
    TatweelGoes(u);
    hide CharacterSteps, Collapse, Normalize, UpToCollapse, Quiet, Repeats, Tables;
    QuietAfterSubstitutions(u, text);
    NormalizeIsCollapse(u, [ALEF, MADDAH]);
  }
}
