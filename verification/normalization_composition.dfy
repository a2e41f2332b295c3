/**
 * How NFC, the first step, acts on text that has been normalised before: a
 * second pass composes what deletions brought together, and then collapses.
 */
module NormalizationComposition {
  import opened PythonText
  import opened Normalization
  import opened NormalizationStability

  /** Characters that never combine with a neighbour: spacing, the joiner, and repeatable punctuation. */
  predicate IsSeparator(c: char) {
    c == ' ' || c == '\t' || c == '\n' || c == ZWNJ || c == '\U{2028}' || c == '\U{2029}' || c == '.' || IsMark(c)
  }

  ghost predicate AllAllowed(u: Unicode, s: string) { forall c :: c in s ==> u.isAllowed(c) }

  ghost predicate AllStarters(u: Unicode, s: string) { forall c :: c in s ==> u.isStarter(c) }

  ghost predicate IsWord(s: string) { forall c :: c in s ==> !IsSeparator(c) }

  /** Text that is its own NFC. */
  ghost predicate IsComposed(u: Unicode, s: string) { u.nfc(s) == s }

  /** NFC is idempotent, it is computed apart on the two sides of a starter, and starters stay as they are. */
  ghost predicate ComposesLocally(u: Unicode) {
    && u.nfc("") == ""
    && (forall s {:trigger IsComposed(u, u.nfc(s))} :: IsComposed(u, u.nfc(s)))
    && (forall a: string, c: char, b: string :: u.isStarter(c) ==> u.nfc(a + [c] + b) == u.nfc(a) + u.nfc([c] + b))
    && (forall c :: u.isStarter(c) ==> u.nfc([c]) == [c])
    && (forall c: char, b: string :: IsSeparator(c) ==> u.nfc([c] + b) == [c] + u.nfc(b))
  }

  /** The classes: what NFC returns is allowed, and so is what the pipeline writes. */
  ghost predicate ClassesHold(u: Unicode) {
    && (forall s, c :: c in u.nfc(s) ==> u.isAllowed(c))
    && (forall c :: IsProduced(c) || u.isStarter(c) ==> u.isAllowed(c))
    && (forall c :: IsProduced(c) || IsSeparator(c) ==> u.isStarter(c))
  }

  /**
   * On a stretch of allowed characters without separators, NFC brings in no
   * separator and nothing that a later step rewrites, and first and last
   * letters stay letters.
   */
  ghost predicate KeepsWords(u: Unicode) {
    forall s :: s != "" && AllAllowed(u, s) && IsWord(s) ==> WordKept(u, s, u.nfc(s))
  }

  ghost predicate WordKept(u: Unicode, s: string, z: string)
    requires s != ""
  {
    && z != "" && IsWord(z)
    && (AllLate(u, s) ==> AllLate(u, z))
    && (u.isLetter(s[0]) ==> u.isLetter(z[0]))
    && (u.isLetter(s[|s| - 1]) ==> u.isLetter(z[|z| - 1]))
  }

  /** Facts of NFC and its quick-check property in every version of Unicode. */
  ghost predicate IsNfc(u: Unicode) {
    ComposesLocally(u) && ClassesHold(u) && KeepsWords(u)
  }

  // ------------------------------------------------------------ vocabulary

  lemma {:induction false} DropCrIn(s: string)
    ensures forall c :: c in DropCrBeforeLf(s) ==> c in s
  {
    if s != "" {
      DropCrIn(s[1..]);
    }
  }

  lemma {:induction false} CollapseIn(s: string)
    ensures forall c :: c in CollapseMarks(s) || c in CollapseDots(s) ==> c in s
  {
    if s != "" {
      CollapseIn(s[1..]);
    }
  }

  lemma {:induction false} SqueezeIn(s: string)
    ensures forall c :: c in Squeeze(s) ==> c in s || c == ' '
  {
    if s != "" {
      SqueezeIn(s[1..]);
    }
  }

  lemma {:induction false} CleanPartIn(s: string)
    ensures forall c :: c in CleanPart(s) ==> c in s || c == ' '
  {
    SqueezeIn(s);
    var i, j := StripSub(Squeeze(s));
    hide Squeeze, Strip;
    var q := Squeeze(s);
    forall c | c in q[i..j]
      ensures c in q
    {
      var k :| 0 <= k < j - i && q[i..j][k] == c;
      assert q[i + k] == c;
    }
  }

  lemma {:induction false} CleanLineIn(s: string)
    ensures forall c :: c in CleanLine(s) ==> c in s || c == ' '
    decreases |s|
  {
    hide CleanPart;
    var i := FirstSep(s, ZWNJ);
    CleanPartIn(s[..i]);
    if i < |s| {
      CleanLineIn(s[i + 1..]);
      assert s == s[..i] + [ZWNJ] + s[i + 1..];
    } else {
      assert s[..i] == s;
    }
  }

  lemma {:induction false} CleanupIn(s: string)
    ensures forall c :: c in CleanupWhitespace(s) ==> c in s || c == ' '
    decreases |s|
  {
    hide CleanLine;
    var i := FirstSep(s, '\n');
    CleanLineIn(s[..i]);
    if i < |s| {
      CleanupIn(s[i + 1..]);
      assert s == s[..i] + ['\n'] + s[i + 1..];
    } else {
      assert s[..i] == s;
    }
  }

  lemma {:induction false} SpacingIn(s: string)
    ensures forall c :: c in SpacingSteps(s) ==> c in s || c == '\n' || c == ' '
  {
    var a := DropCrBeforeLf(s);
    var b := MapChars(a, CrToLf);
    var d := MapChars(b, PlainSpace);
    DropCrIn(s);
    FilterIn(d, KeepAllowed());
    hide DropCrBeforeLf, MapChars, Filter, PlainSpace, CrToLf;
    forall c | c in SpacingSteps(s)
      ensures c in s || c == '\n' || c == ' '
    {
      MapIn(b, PlainSpace, c);
      var c2 :| c2 in b && PlainSpace(c2) == c;
      MapIn(a, CrToLf, c2);
      var c1 :| c1 in a && CrToLf(c1) == c2;
      SpacingCharacter(c1);
    }
  }

  lemma SpacingCharacter(c: char)
    ensures PlainSpace(CrToLf(c)) == c || PlainSpace(CrToLf(c)) == '\n' || PlainSpace(CrToLf(c)) == ' '
    ensures CrToLf(c) == c || CrToLf(c) == '\n'
  {
  }

  /** Steps 8 to 13 write nothing new but spaces and line ends. */
  lemma {:induction false} LateStepsIn(u: Unicode, text: string)
    ensures forall c :: c in BeforeCleanup(u, text) ==> c in AfterSubstitutions(u, text) || c == '\n' || c == ' '
    ensures forall c :: c in Normalize(u, text) ==> c in AfterSubstitutions(u, text) || c == '\n' || c == ' '
  {
    hide AfterSubstitutions, CollapseMarks, CollapseDots, CollapseZwnj, KeepJoiners, SpacingSteps, CleanupWhitespace;
    var s := AfterSubstitutions(u, text);
    CollapseIn(s);
    CollapseIn(CollapseMarks(s));
    CollapseZwnjIn(Collapse(s));
    KeepJoinersIn(u, None, CollapseZwnj(Collapse(s)));
    SpacingIn(NormalizeZwnj(u, Collapse(s)));
    CleanupIn(BeforeCleanup(u, text));
  }

  lemma CharacterStepIn(c: char)
    ensures LetterForm(c) == c || IsProduced(LetterForm(c))
    ensures LatinDigit(c) == c || IsProduced(LatinDigit(c))
    ensures PlainPunctuation(c) == c || IsProduced(PlainPunctuation(c))
  {
  }

  lemma {:induction false} CharacterStepsIn(u: Unicode, s: string)
    ensures forall c :: c in CharacterSteps(u, s) ==> c in s || IsProduced(c)
  {
    var a := Filter(s, KeepVisible(u));
    var b := Filter(a, KeepNonTatweel());
    var d := Filter(b, KeepNonDiacritic());
    FilterIn(s, KeepVisible(u));
    FilterIn(a, KeepNonTatweel());
    FilterIn(b, KeepNonDiacritic());
    var e := MapChars(d, LetterForm);
    var f := MapChars(e, LatinDigit);
    var g := MapChars(f, PlainPunctuation);
    ExpandIn(g);
    assert IsProduced('.');
    hide Filter, MapChars, ExpandEllipsis, LetterForm, LatinDigit, PlainPunctuation, IsProduced;
    forall c | c in g
      ensures c in s || IsProduced(c)
    {
      MapIn(f, PlainPunctuation, c);
      var c3 :| c3 in f && PlainPunctuation(c3) == c;
      MapIn(e, LatinDigit, c3);
      var c2 :| c2 in e && LatinDigit(c2) == c3;
      MapIn(d, LetterForm, c2);
      var c1 :| c1 in d && LetterForm(c1) == c2;
      CharacterStepIn(c1);
      CharacterStepIn(c2);
      CharacterStepIn(c3);
    }
  }

  /** Normalised text holds allowed characters only. */
  lemma {:induction false} NormalizedIsAllowed(u: Unicode, text: string)
    requires ClassesHold(u)
    ensures AllAllowed(u, BeforeCleanup(u, text)) && AllAllowed(u, Normalize(u, text))
  {
    assert IsProduced('\n') && IsProduced(' ');
    hide BeforeCleanup, Normalize, CharacterSteps;
    LateStepsIn(u, text);
    CharacterStepsIn(u, u.nfc(text));
  }

  // ------------------------------------------------------- word by word

  /** The first separator and what lies on its two sides. */
  lemma FirstSeparator(s: string) returns (i: nat)
    ensures i <= |s| && IsWord(s[..i]) && (i < |s| ==> IsSeparator(s[i]))
    ensures i < |s| ==> s == s[..i] + [s[i]] + s[i + 1..]
    ensures i == |s| ==> s[..i] == s
  {
    hide IsSeparator;
    i := 0;
    while i < |s| && !IsSeparator(s[i])
      invariant i <= |s| && forall k :: 0 <= k < i ==> !IsSeparator(s[k])
    {
      i := i + 1;
    }
  }

  lemma NfcOfWord(u: Unicode, s: string)
    requires IsNfc(u) && AllAllowed(u, s) && IsWord(s)
    ensures s != "" ==> WordKept(u, s, u.nfc(s))
    ensures s == "" ==> u.nfc(s) == ""
    ensures IsWord(u.nfc(s))
  {
  }

  lemma NfcAround(u: Unicode, a: string, c: char, b: string)
    requires IsNfc(u) && IsSeparator(c)
    ensures u.nfc(a + [c] + b) == u.nfc(a) + [c] + u.nfc(b)
  {
    hide IsSeparator, IsMark, IsProduced, KeepsWords;
    assert u.nfc(a + [c] + b) == u.nfc(a) + u.nfc([c] + b);
    assert u.nfc([c] + b) == [c] + u.nfc(b);
    assert u.nfc(a) + ([c] + u.nfc(b)) == u.nfc(a) + [c] + u.nfc(b);
  }

  lemma SameSplit(a: string, b: string, c: char, p: string, q: string)
    requires IsWord(a) && IsWord(p) && IsSeparator(c) && a + [c] + b == p + [c] + q
    ensures a == p && b == q
  {
    hide IsSeparator;
    var s := a + [c] + b;
    assert s[|a|] == c && s[|p|] == c;
    WordStart(s, a);
    WordStart(s, p);
    assert |a| == |p|;
    assert a == s[..|a|] && p == s[..|p|] && b == s[|a| + 1..] && q == s[|p| + 1..];
  }

  lemma WordStart(s: string, a: string)
    requires IsWord(a) && a <= s
    ensures forall k :: 0 <= k < |a| ==> !IsSeparator(s[k])
  {
    hide IsSeparator;
    assert forall k :: 0 <= k < |a| ==> s[k] == a[k] && a[k] in a;
  }

  /** A text is composed exactly when both sides of its first separator are. */
  lemma ComposedAround(u: Unicode, a: string, c: char, b: string)
    requires IsNfc(u) && IsSeparator(c) && IsWord(a) && AllAllowed(u, a)
    ensures IsComposed(u, a + [c] + b) <==> IsComposed(u, a) && IsComposed(u, b)
  {
    NfcAround(u, a, c, b);
    NfcOfWord(u, a);
    hide IsNfc, IsSeparator, IsWord;
    if IsComposed(u, a + [c] + b) {
      SameSplit(u.nfc(a), u.nfc(b), c, a, b);
    }
  }

  /** Text of starters is composed. */
  lemma {:induction false} StartersAreComposed(u: Unicode, s: string)
    requires IsNfc(u) && AllStarters(u, s)
    ensures IsComposed(u, s)
    decreases |s|
  {
    hide IsSeparator, IsMark, IsProduced, KeepsWords;
    if s != "" {
      var n := |s| - 1;
      StartersAreComposed(u, s[..n]);
      assert s == s[..n] + [s[n]] + "";
      assert [s[n]] + "" == [s[n]];
      assert u.isStarter(s[n]);
      assert u.nfc(s[..n] + [s[n]] + "") == u.nfc(s[..n]) + u.nfc([s[n]] + "");
    }
  }

  // ------------------------------------------------------ the shape is kept

  /** `d` may stand where `c` stood: the same separator, or both none, and a letter for a letter. */
  ghost predicate Similar(u: Unicode, c: char, d: char) {
    (IsSeparator(c) || IsSeparator(d) ==> c == d) && (u.isLetter(c) ==> u.isLetter(d))
  }

  /** What NFC makes of quiet text. */
  ghost predicate Kept(u: Unicode, s: string, z: string) {
    && AllLate(u, z) && '\t' !in z && Pairs(u, true, z)
    && (s == "" <==> z == "")
    && (s != "" ==> Similar(u, s[0], z[0]) && Similar(u, s[|s| - 1], z[|z| - 1]))
  }

  lemma SpaceIsSeparator(u: Unicode, c: char)
    requires LateOk(u, c) && IsSpace(c)
    ensures IsSeparator(c)
  {
  }

  lemma {:induction false} WordPairs(u: Unicode, s: string)
    requires IsWord(s)
    ensures Pairs(u, true, s) && '\t' !in s
  {
    if |s| >= 2 {
      assert s[0] in s && s[1] in s;
      WordPairs(u, s[1..]);
    } else {
      assert '\t' in s ==> IsSeparator('\t');
    }
  }

  lemma WordIsKept(u: Unicode, s: string)
    requires IsNfc(u) && AllAllowed(u, s) && IsWord(s) && AllLate(u, s)
    ensures Kept(u, s, u.nfc(s)) && IsWord(u.nfc(s))
  {
    NfcOfWord(u, s);
    WordPairs(u, u.nfc(s));
    hide IsSeparator, LateOk, IsNfc, Pairs;
    var z := u.nfc(s);
    if s != "" {
      assert s[0] in s && s[|s| - 1] in s && z[0] in z && z[|z| - 1] in z;
    }
  }

  /** Replacing the character before a separator by a similar one keeps the pair settled. */
  lemma NextBefore(u: Unicode, a: char, b: char, c: char)
    requires Next(u, true, a, c) && Similar(u, a, b) && LateOk(u, b)
    ensures Next(u, true, b, c)
  {
    if IsSpace(b) {
      SpaceIsSeparator(u, b);
    }
    hide IsSpace, LateOk;
    assert IsSeparator(' ') && IsSeparator('\n') && IsSeparator(ZWNJ);
  }

  lemma NextAfter(u: Unicode, c: char, a: char, b: char)
    requires Next(u, true, c, a) && Similar(u, a, b) && LateOk(u, b)
    ensures Next(u, true, c, b)
  {
    if IsSpace(b) {
      SpaceIsSeparator(u, b);
    }
    hide IsSpace, LateOk;
    assert IsSeparator(' ') && IsSeparator('\n') && IsSeparator(ZWNJ);
  }

  lemma KeptAround(u: Unicode, a: string, za: string, c: char, b: string, zb: string)
    requires Kept(u, a, za) && Kept(u, b, zb) && LateOk(u, c) && c != '\t'
    requires Pairs(u, true, a + [c] + b)
    ensures Kept(u, a + [c] + b, za + [c] + zb)
  {
    var s := a + [c] + b;
    PairsSplit(u, true, s, |a|);
    hide LateOk, IsSeparator, Next, Pairs;
    if a != "" {
      assert s[|a| - 1] == a[|a| - 1] && za[|za| - 1] in za;
      NextBefore(u, a[|a| - 1], za[|za| - 1], c);
    }
    if b != "" {
      assert s[|a| + 1] == b[0] && zb[0] in zb;
      NextAfter(u, c, b[0], zb[0]);
    }
    PairsGlue(u, true, za, c, zb);
  }

  /** NFC keeps the shape of quiet text, edges included. */
  lemma {:induction false} QuietIsKept(u: Unicode, s: string)
    requires IsNfc(u) && AllAllowed(u, s) && AllLate(u, s) && '\t' !in s && Pairs(u, true, s)
    ensures Kept(u, s, u.nfc(s))
    decreases |s|
  {
    var i := FirstSeparator(s);
    hide IsNfc, IsSeparator, Next, LateOk, Kept, Pairs;
    var a := s[..i];
    WordIsKept(u, a);
    if i < |s| {
      var c, b := s[i], s[i + 1..];
      PairsSplit(u, true, s, i);
      QuietIsKept(u, b);
      NfcAround(u, a, c, b);
      KeptAround(u, a, u.nfc(a), c, b, u.nfc(b));
    }
  }

  lemma {:induction false} NfcKeepsQuiet(u: Unicode, s: string)
    requires IsNfc(u) && AllAllowed(u, s) && Quiet(u, s)
    ensures Quiet(u, u.nfc(s))
  {
    QuietIsKept(u, s);
    hide IsNfc, LateOk, Pairs;
    var z := u.nfc(s);
    if s != "" {
      assert z[0] in z && z[|z| - 1] in z;
      EdgeKept(u, s[0], z[0]);
      EdgeKept(u, s[|s| - 1], z[|z| - 1]);
    }
  }

  lemma EdgeKept(u: Unicode, c: char, d: char)
    requires EdgeChar(c) && Similar(u, c, d) && LateOk(u, d)
    ensures EdgeChar(d)
  {
    if IsSpace(d) {
      SpaceIsSeparator(u, d);
    }
    assert IsSeparator(ZWNJ);
  }

  // ------------------------------------------------------------ two passes

  /** A second pass is NFC and one more punctuation collapse, for every text. */
  lemma {:induction false} SecondPassIsOneCollapse(u: Unicode, text: string)
    requires Tables(u) && IsNfc(u)
    ensures Normalize(u, Normalize(u, text)) == Collapse(u.nfc(Normalize(u, text)))
  {
    hide Normalize, Quiet, Tables;
    NormalizeQuiet(u, text);
    NormalizedIsAllowed(u, text);
    NfcKeepsQuiet(u, Normalize(u, text));
    NormalizeIsCollapse(u, Normalize(u, text));
  }

  /** `t` is `s` without some separators that stood before an equal one. */
  ghost predicate Drops(s: string, t: string) {
    if s == "" then t == ""
    else
      || (t != "" && t[0] == s[0] && Drops(s[1..], t[1..]))
      || (|s| > 1 && IsSeparator(s[0]) && s[1] == s[0] && Drops(s[1..], t))
  }

  lemma {:induction false} DropsFirst(s: string, t: string)
    requires Drops(s, t)
    ensures |t| <= |s| && (s == "" <==> t == "") && (s != "" ==> s[0] == t[0])
    ensures |t| == |s| ==> t == s
  {
    if s != "" {
      if t != "" && t[0] == s[0] && Drops(s[1..], t[1..]) {
        DropsFirst(s[1..], t[1..]);
        assert t == [t[0]] + t[1..] && s == [s[0]] + s[1..];
      } else {
        DropsFirst(s[1..], t);
      }
    }
  }

  lemma {:induction false} CollapseMarksDrops(s: string)
    ensures Drops(s, CollapseMarks(s))
  {
    if s != "" {
      CollapseMarksDrops(s[1..]);
      assert ([s[0]] + CollapseMarks(s[1..]))[1..] == CollapseMarks(s[1..]);
    }
  }

  lemma {:induction false} CollapseDotsDrops(s: string)
    ensures Drops(s, CollapseDots(s))
  {
    if s != "" {
      CollapseDotsDrops(s[1..]);
      assert ([s[0]] + CollapseDots(s[1..]))[1..] == CollapseDots(s[1..]);
    }
  }

  /** Dropping repeated separators keeps text composed; `a` is the word read so far. */
  lemma {:induction false} DropsComposed(u: Unicode, a: string, s: string, t: string)
    requires IsNfc(u) && IsWord(a) && AllAllowed(u, a + s) && Drops(s, t)
    requires IsComposed(u, a + s)
    ensures IsComposed(u, a + t)
    decreases |s|
  {
    hide IsNfc, IsSeparator;
    if s != "" {
      var c, b := s[0], s[1..];
      var kept := t != "" && t[0] == c && Drops(b, t[1..]);
      if !IsSeparator(c) {
        assert (a + [c]) + b == a + s && (a + [c]) + t[1..] == a + t;
        DropsComposed(u, a + [c], b, t[1..]);
      } else {
        assert a + [c] + b == a + s && "" + b == b;
        ComposedAround(u, a, c, b);
        if kept {
          DropsComposed(u, "", b, t[1..]);
          assert a + [c] + t[1..] == a + t && "" + t[1..] == t[1..];
          ComposedAround(u, a, c, t[1..]);
        } else {
          DropsFirst(b, t);
          DropsComposed(u, "", b, t);
          assert "" + t == t && "" + t[1..] == t[1..];
          assert t == "" + [c] + t[1..];
          ComposedAround(u, "", c, t[1..]);
          assert a + [c] + t[1..] == a + t;
          ComposedAround(u, a, c, t[1..]);
        }
      }
    }
  }

  /** Collapsing keeps composed text composed. */
  lemma {:induction false} CollapseComposed(u: Unicode, s: string)
    requires IsNfc(u) && AllAllowed(u, s) && IsComposed(u, s)
    ensures IsComposed(u, Collapse(s))
  {
    hide IsNfc, CollapseMarks, CollapseDots, IsSeparator;
    var m := CollapseMarks(s);
    CollapseMarksDrops(s);
    CollapseIn(s);
    assert "" + s == s && "" + m == m && "" + CollapseDots(m) == CollapseDots(m);
    DropsComposed(u, "", s, m);
    CollapseDotsDrops(m);
    DropsComposed(u, "", m, CollapseDots(m));
  }

  /** Two passes reach a fixed point, for every text. */
  lemma {:induction false} StableAfterTwoPasses(u: Unicode, text: string)
    requires Tables(u) && IsNfc(u)
    ensures var twice := Normalize(u, Normalize(u, text)); Normalize(u, twice) == twice
  {
    var once := Normalize(u, text);
    var z := u.nfc(once);
    SecondPassIsOneCollapse(u, text);
    SecondPassIsOneCollapse(u, once);
    assert AllAllowed(u, z) && IsComposed(u, z);
    hide Normalize, Collapse, IsNfc;
    CollapseComposed(u, z);
    CollapseFixed(z);
  }
}
