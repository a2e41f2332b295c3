/** Half-spaces: exactly the joiners between letters stay, each in its place among the characters. */
module NormalizationJoiners {
  import opened Normalization
  import opened NormalizationRepeats
  import opened NormalizationStability
  import opened PythonText

  /**
   * A text with its half-spaces: joiners, one or more, are one joiner when
   * the characters before and after them are letters, and nothing otherwise.
   * `last` is the character before, `joined` tells whether joiners followed it.
   */
  function HalfSpaces(u: Unicode, last: Option<char>, joined: bool, s: string): string
    decreases |s|
  {
    if s == "" then ""
    else if s[0] == ZWNJ then HalfSpaces(u, last, true, s[1..])
    else
      (if joined && last.Some? && u.isLetter(last.value) && u.isLetter(s[0]) then [ZWNJ] else "")
      + [s[0]] + HalfSpaces(u, Some(s[0]), false, s[1..])
  }

  /** Step 9 keeps the half-spaces and drops every other joiner, for every text. */
  lemma {:induction false} StepKeepsHalfSpaces(u: Unicode, prev: Option<char>, s: string)
    ensures KeepJoiners(u, prev, CollapseZwnj(s)) == HalfSpaces(u, prev, false, s)
    decreases |s|, 0
  {
    hide *;
    HalfSpacesStep(u, prev, false, s);
    if s == "" {
      KeptNothing(u, prev);
    } else if s[0] == ZWNJ {
      JoinerThenRest(u, prev, s[1..]);
      assert s == [ZWNJ] + s[1..];
    } else {
      KeptHead(u, prev, s);
      StepKeepsHalfSpaces(u, Some(s[0]), s[1..]);
      assert "" + [s[0]] == [s[0]];
    }
  }

  lemma {:induction false} JoinerThenRest(u: Unicode, prev: Option<char>, t: string)
    ensures KeepJoiners(u, prev, CollapseZwnj([ZWNJ] + t)) == HalfSpaces(u, prev, true, t)
    decreases |t|, 1
  {
    hide *;
    HalfSpacesStep(u, prev, true, t);
    JoinerHead(u, prev, t);
    if t == "" {
      KeptNothing(u, prev);
    } else if t[0] == ZWNJ {
      JoinerThenRest(u, prev, t[1..]);
      assert t == [ZWNJ] + t[1..];
    } else {
      StepKeepsHalfSpaces(u, Some(t[0]), t[1..]);
    }
  }

  lemma HalfSpacesStep(u: Unicode, last: Option<char>, joined: bool, s: string)
    ensures HalfSpaces(u, last, joined, s)
      == if s == "" then ""
         else if s[0] == ZWNJ then HalfSpaces(u, last, true, s[1..])
         else
           (if joined && last.Some? && u.isLetter(last.value) && u.isLetter(s[0]) then [ZWNJ] else "")
           + [s[0]] + HalfSpaces(u, Some(s[0]), false, s[1..])
  {
  }

  lemma KeptNothing(u: Unicode, prev: Option<char>)
    ensures KeepJoiners(u, prev, CollapseZwnj("")) == ""
  {
  }

  lemma KeptHead(u: Unicode, prev: Option<char>, s: string)
    requires s != "" && s[0] != ZWNJ
    ensures KeepJoiners(u, prev, CollapseZwnj(s)) == [s[0]] + KeepJoiners(u, Some(s[0]), CollapseZwnj(s[1..]))
  {
    var rest := CollapseZwnj(s[1..]);
    assert ([s[0]] + rest)[1..] == rest;
  }

  lemma JoinerHead(u: Unicode, prev: Option<char>, t: string)
    ensures t == "" ==> KeepJoiners(u, prev, CollapseZwnj([ZWNJ] + t)) == KeepJoiners(u, prev, CollapseZwnj(""))
    ensures t != "" && t[0] == ZWNJ ==> CollapseZwnj([ZWNJ] + t) == CollapseZwnj(t)
    ensures t != "" && t[0] != ZWNJ ==>
      KeepJoiners(u, prev, CollapseZwnj([ZWNJ] + t))
      == (if prev.Some? && u.isLetter(prev.value) && u.isLetter(t[0]) then [ZWNJ] else "")
         + [t[0]] + KeepJoiners(u, Some(t[0]), CollapseZwnj(t[1..]))
  {
    assert ([ZWNJ] + t)[1..] == t;
    if t != "" && t[0] != ZWNJ {
      var rest := CollapseZwnj(t[1..]);
      assert CollapseZwnj(t) == [t[0]] + rest;
      JoinerKept(u, prev, t[0], rest);
    }
  }

  lemma JoinerKept(u: Unicode, prev: Option<char>, c: char, rest: string)
    requires c != ZWNJ
    ensures KeepJoiners(u, prev, [ZWNJ] + ([c] + rest))
      == (if prev.Some? && u.isLetter(prev.value) && u.isLetter(c) then [ZWNJ] else "") + [c] + KeepJoiners(u, Some(c), rest)
  {
    var t := [c] + rest;
    assert t[1..] == rest && ([ZWNJ] + t)[1..] == t;
    assert KeepJoiners(u, Some(ZWNJ), t) == [c] + KeepJoiners(u, Some(c), rest);
    assert KeepJoiners(u, prev, t) == [c] + KeepJoiners(u, Some(c), rest);
  }

  // ------------------------------------------- what the steps after leave alone

  /** Neither white space nor a control; joiners are ink. */
  predicate IsInk(c: char) { !IsSpace(c) && !IsControl(c) }

  /** A text without white space and controls. */
  function Ink(s: string): string {
    if s == "" then "" else (if IsInk(s[0]) then [s[0]] else "") + Ink(s[1..])
  }

  lemma {:induction false} InkConcat(a: string, b: string)
    ensures Ink(a + b) == Ink(a) + Ink(b)
  {
    hide IsInk;
    if a == "" {
      assert a + b == b;
    } else {
      assert (a + b)[1..] == a[1..] + b;
      InkConcat(a[1..], b);
    }
  }

  lemma InkHead(c: char, s: string)
    ensures Ink([c] + s) == (if IsInk(c) then [c] else "") + Ink(s)
  {
    hide IsInk;
    assert ([c] + s)[1..] == s;
  }

  lemma {:induction false} NoInk(s: string)
    requires forall c :: c in s ==> !IsInk(c)
    ensures Ink(s) == ""
  {
    hide IsInk;
    if s != "" {
      NoInk(s[1..]);
    }
  }

  lemma {:induction false} InkFilter(s: string, keep: char -> bool)
    requires forall c :: c in s && !keep(c) ==> !IsInk(c)
    ensures Ink(Filter(s, keep)) == Ink(s)
  {
    hide IsInk;
    if s != "" {
      InkFilter(s[1..], keep);
      InkHead(s[0], Filter(s[1..], keep));
      assert "" + Filter(s[1..], keep) == Filter(s[1..], keep);
    }
  }

  lemma {:induction false} InkMap(s: string, f: char -> char)
    requires forall c :: c in s ==> if IsInk(c) then f(c) == c else !IsInk(f(c))
    ensures Ink(MapChars(s, f)) == Ink(s)
  {
    hide IsInk;
    if s != "" {
      InkMap(s[1..], f);
      InkHead(f(s[0]), MapChars(s[1..], f));
    }
  }

  lemma {:induction false} InkOfCr(s: string)
    ensures Ink(DropCrBeforeLf(s)) == Ink(s)
  {
    if s != "" {
      assert !IsInk('\r');
      hide IsInk;
      InkOfCr(s[1..]);
      InkHead(s[0], DropCrBeforeLf(s[1..]));
    }
  }

  lemma SpacesAreNoInk(c: char)
    ensures if IsInk(c) then CrToLf(c) == c else !IsInk(CrToLf(c))
    ensures if IsInk(c) then PlainSpace(c) == c else !IsInk(PlainSpace(c))
    ensures !KeepAllowed()(c) ==> !IsInk(c)
    ensures IsBlankChar(c) || IsSpace(c) ==> !IsInk(c)
  {
  }

  lemma {:induction false} InkOfSpacing(s: string)
    ensures Ink(SpacingSteps(s)) == Ink(s)
  {
    hide IsInk, IsSpace, IsControl, Filter, MapChars, Ink, CrToLf, PlainSpace;
    forall c
      ensures if IsInk(c) then CrToLf(c) == c else !IsInk(CrToLf(c))
      ensures if IsInk(c) then PlainSpace(c) == c else !IsInk(PlainSpace(c))
      ensures !KeepAllowed()(c) ==> !IsInk(c)
    {
      SpacesAreNoInk(c);
    }
    var a := DropCrBeforeLf(s);
    var b := MapChars(a, CrToLf);
    InkOfCr(s);
    InkMap(a, CrToLf);
    InkMap(b, PlainSpace);
    InkFilter(MapChars(b, PlainSpace), KeepAllowed());
  }

  lemma {:induction false} InkOfSqueeze(s: string)
    ensures Ink(Squeeze(s)) == Ink(s)
  {
    if s != "" {
      SpacesAreNoInk(s[0]);
      SpacesAreNoInk(' ');
      hide IsInk;
      InkOfSqueeze(s[1..]);
      InkHead(s[0], Squeeze(s[1..]));
      InkHead(' ', Squeeze(s[1..]));
    }
  }

  lemma InkOfStrip(s: string)
    ensures Ink(Strip(s)) == Ink(s)
  {
    hide *;
    var a, b := StripIsSlice(s);
    SpacesHaveNoInk(s[..a]);
    SpacesHaveNoInk(s[b..]);
    ThreeParts(s, a, b);
    InkConcat(s[..a], s[a..b] + s[b..]);
    InkConcat(s[a..b], s[b..]);
  }

  lemma SpacesHaveNoInk(s: string)
    requires forall i :: 0 <= i < |s| ==> IsSpace(s[i])
    ensures Ink(s) == ""
  {
    hide *;
    forall c | c in s
      ensures !IsInk(c)
    {
      SpacesAreNoInk(c);
    }
    NoInk(s);
  }

  lemma ThreeParts(s: string, a: nat, b: nat)
    requires a <= b <= |s|
    ensures s == s[..a] + (s[a..b] + s[b..])
  {
  }

  lemma InkOfPart(s: string)
    ensures Ink(CleanPart(s)) == Ink(s)
  {
    InkOfSqueeze(s);
    InkOfStrip(Squeeze(s));
  }

  lemma InkAround(a: string, c: char, b: string)
    ensures Ink(a + [c] + b) == Ink(a) + (Ink([c]) + Ink(b))
  {
    InkConcat(a + [c], b);
    InkConcat(a, [c]);
  }

  lemma {:induction false} InkOfLine(s: string)
    ensures Ink(CleanLine(s)) == Ink(s)
    decreases |s|
  {
    hide *;
    var i := FirstSep(s, ZWNJ);
    CleanLineStep(s, i);
    InkOfPart(s[..i]);
    if i < |s| {
      InkOfLine(s[i + 1..]);
      InkAround(CleanPart(s[..i]), ZWNJ, CleanLine(s[i + 1..]));
      InkAround(s[..i], ZWNJ, s[i + 1..]);
      assert s[..i] + [ZWNJ] + s[i + 1..] == s;
    } else {
      assert s[..i] == s;
    }
  }

  lemma {:induction false} InkOfCleanup(s: string)
    ensures Ink(CleanupWhitespace(s)) == Ink(s)
    decreases |s|
  {
    hide *;
    var i := FirstSep(s, '\n');
    CleanupStep(s, i);
    InkOfLine(s[..i]);
    if i < |s| {
      InkOfCleanup(s[i + 1..]);
      InkAround(CleanLine(s[..i]), '\n', CleanupWhitespace(s[i + 1..]));
      InkAround(s[..i], '\n', s[i + 1..]);
      assert s[..i] + ['\n'] + s[i + 1..] == s;
    } else {
      assert s[..i] == s;
    }
  }

  /**
   * For every text: white space and controls apart, the normalised text is
   * the text after step 8 with its half-spaces, joiner by joiner in place.
   */
  lemma {:induction false} HalfSpacesAreKept(u: Unicode, text: string)
    ensures Ink(Normalize(u, text)) == Ink(HalfSpaces(u, None, false, UpToCollapse(u, text)))
  {
    hide SpacingSteps, CleanupWhitespace, KeepJoiners, CollapseZwnj, UpToCollapse, Ink, HalfSpaces;
    var s := UpToCollapse(u, text);
    StepKeepsHalfSpaces(u, None, s);
    InkOfSpacing(NormalizeZwnj(u, s));
    InkOfCleanup(SpacingSteps(NormalizeZwnj(u, s)));
  }

  // ------------------------------------------------------ joiners join letters

  lemma {:induction false} PairsAt(u: Unicode, s: string, i: nat)
    requires Pairs(u, true, s) && i + 1 < |s|
    ensures Next(u, true, s[i], s[i + 1])
  {
    hide Next;
    if i > 0 {
      PairsAt(u, s[1..], i - 1);
    }
  }

  lemma QuietEnds(u: Unicode, s: string)
    requires Quiet(u, s)
    ensures Pairs(u, true, s) && (s != "" ==> s[0] != ZWNJ && s[|s| - 1] != ZWNJ)
  {
    hide AllLate, Pairs, IsSpace;
  }

  lemma JoinedLetters(u: Unicode, a: char, b: char)
    requires Next(u, true, a, b)
    ensures (a == ZWNJ ==> u.isLetter(b)) && (b == ZWNJ ==> u.isLetter(a))
  {
  }

  /** In normalised text every joiner stands right between two letters. */
  lemma {:induction false} JoinersJoinLetters(u: Unicode, text: string, i: nat)
    requires Tables(u) && i < |Normalize(u, text)| && Normalize(u, text)[i] == ZWNJ
    ensures
      var out := Normalize(u, text);
      0 < i < |out| - 1 && u.isLetter(out[i - 1]) && u.isLetter(out[i + 1])
  {
    hide *;
    var out := Normalize(u, text);
    NormalizeQuiet(u, text);
    QuietEnds(u, out);
    PairsAt(u, out, i - 1);
    PairsAt(u, out, i);
    JoinedLetters(u, out[i - 1], out[i]);
    JoinedLetters(u, out[i], out[i + 1]);
  }
}
