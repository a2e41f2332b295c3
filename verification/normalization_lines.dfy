/** Line ends: the normaliser writes one newline for each, and no line is joined or cut. */
module NormalizationLines {
  import opened Normalization
  import NormalizationComposition
  import opened NormalizationStability
  import opened PythonText

  function Newlines(s: string): nat {
    if s == "" then 0 else (if s[0] == '\n' then 1 else 0) + Newlines(s[1..])
  }

  /** Newlines, and carriage returns that no newline follows. */
  function LineEnds(s: string): nat {
    if s == "" then 0
    else (if s[0] == '\n' || (s[0] == '\r' && !(|s| > 1 && s[1] == '\n')) then 1 else 0) + LineEnds(s[1..])
  }

  lemma {:induction false} NewlinesConcat(a: string, b: string)
    ensures Newlines(a + b) == Newlines(a) + Newlines(b)
  {
    if a == "" {
      assert a + b == b;
    } else {
      assert (a + b)[1..] == a[1..] + b;
      NewlinesConcat(a[1..], b);
    }
  }

  lemma {:induction false} NoNewlines(s: string)
    ensures '\n' !in s <==> Newlines(s) == 0
  {
    if s != "" {
      NoNewlines(s[1..]);
    }
  }

  lemma NewlinesHead(c: char, s: string)
    ensures Newlines([c] + s) == (if c == '\n' then 1 else 0) + Newlines(s)
  {
    assert ([c] + s)[1..] == s;
  }

  lemma {:induction false} FilterNewlines(s: string, keep: char -> bool)
    requires keep('\n')
    ensures Newlines(Filter(s, keep)) == Newlines(s)
  {
    if s != "" {
      var rest := Filter(s[1..], keep);
      FilterNewlines(s[1..], keep);
      NewlinesHead(s[0], rest);
      assert "" + rest == rest;
    }
  }

  lemma {:induction false} MapNewlines(s: string, f: char -> char)
    requires forall c :: c in s ==> (f(c) == '\n' <==> c == '\n')
    ensures Newlines(MapChars(s, f)) == Newlines(s)
  {
    if s != "" {
      MapNewlines(s[1..], f);
      NewlinesHead(f(s[0]), MapChars(s[1..], f));
    }
  }

  lemma {:induction false} ExpandNewlines(s: string)
    ensures Newlines(ExpandEllipsis(s)) == Newlines(s)
  {
    if s != "" {
      ExpandNewlines(s[1..]);
      NoNewlines("...");
      NewlinesConcat(if s[0] == ELLIPSIS then "..." else [s[0]], ExpandEllipsis(s[1..]));
      NewlinesHead(s[0], "");
    }
  }

  lemma {:induction false} MarksNewlines(s: string)
    ensures Newlines(CollapseMarks(s)) == Newlines(s)
  {
    if s != "" {
      MarksNewlines(s[1..]);
      NewlinesHead(s[0], CollapseMarks(s[1..]));
    }
  }

  lemma {:induction false} DotsNewlines(s: string)
    ensures Newlines(CollapseDots(s)) == Newlines(s)
  {
    if s != "" {
      DotsNewlines(s[1..]);
      NewlinesHead(s[0], CollapseDots(s[1..]));
    }
  }

  lemma {:induction false} ZwnjNewlines(s: string)
    ensures Newlines(CollapseZwnj(s)) == Newlines(s)
  {
    if s != "" {
      ZwnjNewlines(s[1..]);
      NewlinesHead(s[0], CollapseZwnj(s[1..]));
    }
  }

  lemma {:induction false} JoinersNewlines(u: Unicode, prev: Option<char>, s: string)
    ensures Newlines(KeepJoiners(u, prev, s)) == Newlines(s)
    decreases |s|
  {
    if s != "" {
      JoinersNewlines(u, Some(s[0]), s[1..]);
      JoinersNewlines(u, prev, s[1..]);
      NewlinesHead(s[0], KeepJoiners(u, Some(s[0]), s[1..]));
    }
  }

  /** A carriage return with its newline, or alone, becomes one newline. */
  lemma {:induction false} CrNewlines(s: string)
    ensures Newlines(MapChars(DropCrBeforeLf(s), CrToLf)) == LineEnds(s)
  {
    if s != "" {
      CrNewlines(s[1..]);
      var rest := DropCrBeforeLf(s[1..]);
      assert ([s[0]] + rest)[1..] == rest;
      NewlinesHead(CrToLf(s[0]), MapChars(rest, CrToLf));
    }
  }

  lemma {:induction false} NoCrLineEnds(s: string)
    requires '\r' !in s
    ensures LineEnds(s) == Newlines(s)
  {
    if s != "" {
      NoCrLineEnds(s[1..]);
    }
  }

  // ----------------------------------------------------------- whole steps

  lemma {:induction false} SpacingNewlines(s: string)
    ensures Newlines(SpacingSteps(s)) == LineEnds(s)
  {
    CrNewlines(s);
    var b := MapChars(DropCrBeforeLf(s), CrToLf);
    MapNewlines(b, PlainSpace);
    FilterNewlines(MapChars(b, PlainSpace), KeepAllowed());
  }

  lemma NewlineStays(u: Unicode, c: char)
    requires Tables(u)
    ensures KeepVisible(u)('\n') && KeepNonTatweel()('\n') && KeepNonDiacritic()('\n')
    ensures LetterForm(c) == '\n' <==> c == '\n'
    ensures LatinDigit(c) == '\n' <==> c == '\n'
    ensures PlainPunctuation(c) == '\n' <==> c == '\n'
  {
    assert IsProduced('\n');
  }

  lemma {:induction false} CharacterNewlines(u: Unicode, s: string)
    requires Tables(u)
    ensures Newlines(CharacterSteps(u, s)) == Newlines(s)
  {
    NewlineStays(u, '\n');
    hide Filter, MapChars, ExpandEllipsis, LetterForm, LatinDigit, PlainPunctuation, Tables, IsDiacritic, Newlines;
    forall c
      ensures LetterForm(c) == '\n' <==> c == '\n'
      ensures LatinDigit(c) == '\n' <==> c == '\n'
      ensures PlainPunctuation(c) == '\n' <==> c == '\n'
    {
      NewlineStays(u, c);
    }
    var a := Filter(s, KeepVisible(u));
    var b := Filter(a, KeepNonTatweel());
    var d := Filter(b, KeepNonDiacritic());
    FilterNewlines(s, KeepVisible(u));
    FilterNewlines(a, KeepNonTatweel());
    FilterNewlines(b, KeepNonDiacritic());
    MapNewlines(d, LetterForm);
    MapNewlines(MapChars(d, LetterForm), LatinDigit);
    MapNewlines(MapChars(MapChars(d, LetterForm), LatinDigit), PlainPunctuation);
    ExpandNewlines(MapChars(MapChars(MapChars(d, LetterForm), LatinDigit), PlainPunctuation));
  }

  lemma {:induction false} CleanupNewlines(s: string)
    ensures Newlines(CleanupWhitespace(s)) == Newlines(s)
    decreases |s|
  {
    hide CleanLine;
    var i := FirstSep(s, '\n');
    var l := s[..i];
    NormalizationComposition.CleanLineIn(l);
    NoNewlines(CleanLine(l));
    NoNewlines(l);
    if i < |s| {
      var rest := s[i + 1..];
      CleanupNewlines(rest);
      NewlinesConcat(l + ['\n'], rest);
      NewlinesConcat(l, ['\n']);
      NewlinesConcat(CleanLine(l) + ['\n'], CleanupWhitespace(rest));
      NewlinesConcat(CleanLine(l), ['\n']);
    } else {
      assert l == s;
    }
  }

  /**
   * The normalised text has as many newlines as there were line ends before
   * they were made uniform, which are those of the NFC of the text when no
   * carriage return is in play.
   */
  lemma {:induction false} LinesAreKept(u: Unicode, text: string)
    requires Tables(u)
    ensures Newlines(Normalize(u, text)) == LineEnds(NormalizeZwnj(u, UpToCollapse(u, text)))
    ensures '\r' !in u.nfc(text) ==> Newlines(Normalize(u, text)) == Newlines(u.nfc(text))
  {
    hide CharacterSteps, CollapseMarks, CollapseDots, CollapseZwnj, KeepJoiners, SpacingSteps, CleanupWhitespace, Newlines, LineEnds, Tables;
    var s := AfterSubstitutions(u, text);
    CharacterNewlines(u, u.nfc(text));
    MarksNewlines(s);
    DotsNewlines(CollapseMarks(s));
    var c := Collapse(s);
    ZwnjNewlines(c);
    JoinersNewlines(u, None, CollapseZwnj(c));
    var z := NormalizeZwnj(u, c);
    SpacingNewlines(z);
    CleanupNewlines(SpacingSteps(z));
    if '\r' !in u.nfc(text) {
      NormalizationComposition.CharacterStepsIn(u, u.nfc(text));
      NormalizationComposition.CollapseIn(s);
      NormalizationComposition.CollapseIn(CollapseMarks(s));
      CollapseZwnjIn(c);
      KeepJoinersIn(u, None, CollapseZwnj(c));
      NoCrLineEnds(z);
    }
  }
}
