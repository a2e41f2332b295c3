/**
 * What the normaliser keeps: read word by word, with the substitutions spelled
 * out, its output says what the NFC of the input says.
 */
module NormalizationContent {
  import opened Normalization
  import NormalizationComposition
  import opened NormalizationStability
  import opened PythonText

  /** What a character says in normalised text: a gap between words, nothing, or a character. */
  datatype Meaning = Gap | Nothing | Shows(shown: char)

  /** Spaces, tabs and line ends of every kind the normaliser knows. */
  predicate IsGap(c: char) {
    || c in {' ', '\t', '\n', '\r', '\U{a0}', '\U{1680}', '\U{202f}', '\U{205f}', '\U{3000}'}
    || '\U{2000}' <= c <= '\U{200a}'
  }

  /** Joiners and soft hyphens, tatweel, Arabic diacritics, controls, and the two separators that only `strip` touches. */
  predicate SaysNothing(c: char) {
    || c in {'\U{200c}', '\U{feff}', '\U{ad}', '\U{0640}', '\U{0670}', '\U{2028}', '\U{2029}'}
    || '\U{0610}' <= c <= '\U{061a}' || '\U{064b}' <= c <= '\U{0652}'
    || '\U{0655}' <= c <= '\U{065f}' || '\U{06d6}' <= c <= '\U{06ed}'
    || c < '\U{20}' || '\U{7f}' <= c <= '\U{9f}'
  }

  /** The character itself but for the two letters, the two digit blocks, quotes, full-width marks and the ellipsis. */
  function Image(c: char): char {
    if c in {'\U{064a}', '\U{0649}'} then '\U{06cc}'
    else if c == '\U{0643}' then '\U{06a9}'
    else if '\U{06f0}' <= c <= '\U{06f9}' then "0123456789"[c as int - 0x06f0]
    else if '\U{0660}' <= c <= '\U{0669}' then "0123456789"[c as int - 0x0660]
    else if c in {'\U{201c}', '\U{201d}', '\U{201e}', '\U{201f}', '\U{2033}'} then '"'
    else if c in {'\U{2018}', '\U{2019}', '\U{201a}', '\U{201b}', '\U{2032}'} then '\''
    else if c == '\U{ff1f}' then '\U{061f}'
    else if c == '\U{ff0c}' then '\U{060c}'
    else if c == '\U{ff1b}' then '\U{061b}'
    else if c == '\U{2026}' then '.'
    else c
  }

  function Says(u: Unicode, c: char): Meaning {
    if u.isFormat(c) then Nothing
    else if IsGap(c) then Gap
    else if SaysNothing(c) then Nothing
    else Shows(Image(c))
  }

  // ----------------------------------------------------------------- reading

  /** The words read so far and the word being read. */
  datatype Text = Text(words: seq<string>, word: string)

  const BLANK := Text([], "")

  /** Marks and dots count once however often they stand in a row. */
  predicate CountsOnce(c: char) {
    c in {'\U{061f}', '!', '?', ',', '\U{060c}', '\U{061b}', ';', ':', '.'}
  }

  function Put(word: string, c: char): string {
    if word != "" && word[|word| - 1] == c && CountsOnce(c) then word else word + [c]
  }

  function Close(t: Text): Text {
    if t.word == "" then t else Text(t.words + [t.word], "")
  }

  function ReadOne(u: Unicode, t: Text, c: char): Text {
    match Says(u, c)
    case Gap => Close(t)
    case Nothing => t
    case Shows(d) => Text(t.words, Put(t.word, d))
  }

  function Read(u: Unicode, t: Text, s: string): Text
    decreases |s|
  {
    if s == "" then t else Read(u, ReadOne(u, t, s[0]), s[1..])
  }

  /** The words of a text. */
  function Words(u: Unicode, s: string): seq<string> {
    Close(Read(u, BLANK, s)).words
  }

  lemma {:induction false} ReadConcat(u: Unicode, t: Text, a: string, b: string)
    ensures Read(u, t, a + b) == Read(u, Read(u, t, a), b)
    decreases |a|
  {
    hide ReadOne;
    if a == "" {
      assert a + b == b;
    } else {
      assert (a + b)[1..] == a[1..] + b;
      ReadConcat(u, ReadOne(u, t, a[0]), a[1..], b);
    }
  }

  lemma ReadHead(u: Unicode, t: Text, c: char, s: string)
    ensures Read(u, t, [c] + s) == Read(u, ReadOne(u, t, c), s)
  {
    assert ([c] + s)[1..] == s;
    hide ReadOne;
  }

  /** Leaving out characters that say nothing changes nothing. */
  lemma {:induction false} ReadFilter(u: Unicode, t: Text, s: string, keep: char -> bool)
    requires forall c :: c in s && !keep(c) ==> Says(u, c) == Nothing
    ensures Read(u, t, Filter(s, keep)) == Read(u, t, s)
    decreases |s|
  {
    hide Says;
    if s != "" {
      var rest := Filter(s[1..], keep);
      if keep(s[0]) {
        hide ReadOne;
        ReadFilter(u, ReadOne(u, t, s[0]), s[1..], keep);
        ReadHead(u, t, s[0], rest);
      } else {
        assert "" + rest == rest;
        ReadFilter(u, t, s[1..], keep);
      }
    }
  }

  /** Replacing characters by ones that say the same changes nothing. */
  lemma {:induction false} ReadMap(u: Unicode, t: Text, s: string, f: char -> char)
    requires forall c :: c in s ==> Says(u, f(c)) == Says(u, c)
    ensures Read(u, t, MapChars(s, f)) == Read(u, t, s)
    decreases |s|
  {
    hide Says;
    if s != "" {
      assert ReadOne(u, t, f(s[0])) == ReadOne(u, t, s[0]);
      hide ReadOne;
      ReadMap(u, ReadOne(u, t, s[0]), s[1..], f);
      ReadHead(u, t, f(s[0]), MapChars(s[1..], f));
    }
  }

  /** Saying twice what counts once, or leaving a word twice, is doing it once. */
  lemma ReadTwice(u: Unicode, t: Text, c: char)
    requires match Says(u, c) case Gap => true case Nothing => true case Shows(d) => CountsOnce(d)
    ensures ReadOne(u, ReadOne(u, t, c), c) == ReadOne(u, t, c)
  {
    hide Says;
  }

  lemma {:induction false} ReadExpand(u: Unicode, t: Text, s: string)
    requires Tables(u) && (ELLIPSIS in s ==> !u.isFormat(ELLIPSIS))
    ensures Read(u, t, ExpandEllipsis(s)) == Read(u, t, s)
    decreases |s|
  {
    if s != "" {
      var rest := ExpandEllipsis(s[1..]);
      if s[0] == ELLIPSIS {
        DotSaysDot(u);
        var after := ReadOne(u, t, '.');
        ReadTwice(u, t, '.');
        hide Says, ReadOne, Tables;
        ReadExpand(u, after, s[1..]);
        assert "..." + rest == ['.'] + (['.'] + (['.'] + rest));
        ReadHead(u, t, '.', ['.'] + (['.'] + rest));
        ReadHead(u, after, '.', ['.'] + rest);
        ReadHead(u, after, '.', rest);
        SameMeaning(u, t, ELLIPSIS, '.');
      } else {
        hide Says, ReadOne, Tables;
        ReadExpand(u, ReadOne(u, t, s[0]), s[1..]);
        ReadHead(u, t, s[0], rest);
      }
    }
  }

  lemma SameMeaning(u: Unicode, t: Text, c: char, d: char)
    requires Says(u, c) == Says(u, d)
    ensures ReadOne(u, t, c) == ReadOne(u, t, d)
  {
  }

  lemma DotSaysDot(u: Unicode)
    requires Tables(u)
    ensures Says(u, '.') == Shows('.') && (!u.isFormat(ELLIPSIS) ==> Says(u, ELLIPSIS) == Shows('.'))
  {
    assert IsProduced('.');
  }

  /** `r` is read like `s`, from any state. */
  ghost predicate Alike(u: Unicode, r: string, s: string) {
    forall t :: Read(u, t, r) == Read(u, t, s)
  }

  lemma AlikeHead(u: Unicode, c: char, r: string, s: string)
    requires Alike(u, r, s)
    ensures Alike(u, [c] + r, [c] + s)
  {
    hide ReadOne;
    forall t
      ensures Read(u, t, [c] + r) == Read(u, t, [c] + s)
    {
      ReadHead(u, t, c, r);
      ReadHead(u, t, c, s);
      assert Read(u, ReadOne(u, t, c), r) == Read(u, ReadOne(u, t, c), s);
    }
  }

  /** A character standing twice, where once says the same. */
  lemma AlikeTwice(u: Unicode, c: char, s: string)
    requires match Says(u, c) case Gap => true case Nothing => true case Shows(d) => CountsOnce(d)
    ensures Alike(u, [c] + s, [c] + ([c] + s))
  {
    forall t
      ensures Read(u, t, [c] + s) == Read(u, t, [c] + ([c] + s))
    {
      ReadTwice(u, t, c);
      hide ReadOne, Says;
      ReadHead(u, t, c, s);
      ReadHead(u, t, c, [c] + s);
      ReadHead(u, ReadOne(u, t, c), c, s);
    }
  }

  lemma AlikeTransitive(u: Unicode, a: string, b: string, c: string)
    requires Alike(u, a, b) && Alike(u, b, c)
    ensures Alike(u, a, c)
  {
    forall t
      ensures Read(u, t, a) == Read(u, t, c)
    {
      assert Read(u, t, a) == Read(u, t, b);
    }
  }

  lemma AlikeItself(u: Unicode, s: string)
    ensures Alike(u, s, s)
  {
  }

  lemma MarkCountsOnce(u: Unicode, c: char)
    requires IsMark(c) || c == '.'
    ensures match Says(u, c) case Gap => true case Nothing => true case Shows(d) => CountsOnce(d)
  {
  }

  lemma {:induction false} MarksAlike(u: Unicode, s: string)
    ensures Alike(u, CollapseMarks(s), s)
    decreases |s|
  {
    hide Alike, IsMark;
    if s == "" {
      AlikeItself(u, s);
    } else {
      MarksAlike(u, s[1..]);
      assert s == [s[0]] + s[1..];
      if |s| > 1 && IsMark(s[0]) && s[1] == s[0] {
        assert s[1..] == [s[0]] + s[2..];
        MarkCountsOnce(u, s[0]);
        AlikeTwice(u, s[0], s[2..]);
        AlikeTransitive(u, CollapseMarks(s), s[1..], s);
      } else {
        AlikeHead(u, s[0], CollapseMarks(s[1..]), s[1..]);
      }
    }
  }

  lemma {:induction false} DotsAlike(u: Unicode, s: string)
    ensures Alike(u, CollapseDots(s), s)
    decreases |s|
  {
    hide Alike;
    if s == "" {
      AlikeItself(u, s);
    } else {
      DotsAlike(u, s[1..]);
      assert s == [s[0]] + s[1..];
      if FourDots(s) {
        assert s[1..] == ['.'] + s[2..];
        MarkCountsOnce(u, '.');
        AlikeTwice(u, '.', s[2..]);
        AlikeTransitive(u, CollapseDots(s), s[1..], s);
      } else {
        AlikeHead(u, s[0], CollapseDots(s[1..]), s[1..]);
      }
    }
  }

  lemma JoinerSaysNothing(u: Unicode, s: string)
    ensures Says(u, ZWNJ) == Nothing && Alike(u, s, [ZWNJ] + s)
  {
    forall t
      ensures Read(u, t, s) == Read(u, t, [ZWNJ] + s)
    {
      ReadHead(u, t, ZWNJ, s);
    }
  }

  lemma {:induction false} ZwnjAlike(u: Unicode, s: string)
    ensures Alike(u, CollapseZwnj(s), s)
    decreases |s|
  {
    hide Alike;
    if s == "" {
      AlikeItself(u, s);
    } else {
      ZwnjAlike(u, s[1..]);
      assert s == [s[0]] + s[1..];
      if |s| > 1 && s[0] == ZWNJ && s[1] == ZWNJ {
        JoinerSaysNothing(u, s[1..]);
        AlikeTransitive(u, CollapseZwnj(s), s[1..], s);
      } else {
        AlikeHead(u, s[0], CollapseZwnj(s[1..]), s[1..]);
      }
    }
  }

  lemma {:induction false} JoinersAlike(u: Unicode, prev: Option<char>, s: string)
    ensures Alike(u, KeepJoiners(u, prev, s), s)
    decreases |s|
  {
    hide Alike;
    if s == "" {
      AlikeItself(u, s);
    } else {
      assert s == [s[0]] + s[1..];
      if s[0] != ZWNJ {
        JoinersAlike(u, Some(s[0]), s[1..]);
        AlikeHead(u, s[0], KeepJoiners(u, Some(s[0]), s[1..]), s[1..]);
      } else if prev.Some? && u.isLetter(prev.value) && |s| > 1 && u.isLetter(s[1]) {
        JoinersAlike(u, Some(ZWNJ), s[1..]);
        AlikeHead(u, ZWNJ, KeepJoiners(u, Some(ZWNJ), s[1..]), s[1..]);
      } else {
        JoinersAlike(u, prev, s[1..]);
        JoinerSaysNothing(u, s[1..]);
        AlikeTransitive(u, KeepJoiners(u, prev, s), s[1..], s);
      }
    }
  }

  /** Two gaps in a row are one. */
  lemma AlikeGaps(u: Unicode, c: char, d: char, s: string)
    requires Says(u, c) == Says(u, d) == Gap
    ensures Alike(u, [d] + s, [c] + ([d] + s))
  {
    forall t
      ensures Read(u, t, [d] + s) == Read(u, t, [c] + ([d] + s))
    {
      SameMeaning(u, t, c, d);
      ReadTwice(u, t, d);
      hide ReadOne, Says;
      ReadHead(u, t, d, s);
      ReadHead(u, t, c, [d] + s);
      ReadHead(u, ReadOne(u, t, c), d, s);
    }
  }

  lemma GapsAreGaps(u: Unicode)
    requires Tables(u)
    ensures Says(u, ' ') == Says(u, '\n') == Gap
  {
    assert IsProduced(' ') && IsProduced('\n');
  }

  lemma {:induction false} CrAlike(u: Unicode, s: string)
    requires Tables(u) && ('\r' in s ==> !u.isFormat('\r'))
    ensures Alike(u, DropCrBeforeLf(s), s)
    decreases |s|
  {
    hide Alike;
    GapsAreGaps(u);
    if s == "" {
      AlikeItself(u, s);
    } else {
      CrAlike(u, s[1..]);
      assert s == [s[0]] + s[1..];
      if |s| > 1 && s[0] == '\r' && s[1] == '\n' {
        assert s[1..] == ['\n'] + s[2..];
        AlikeGaps(u, '\r', '\n', s[2..]);
        AlikeTransitive(u, DropCrBeforeLf(s), s[1..], s);
      } else {
        AlikeHead(u, s[0], DropCrBeforeLf(s[1..]), s[1..]);
      }
    }
  }

  // -------------------------------------------------------------- whitespace

  lemma SpaceShowsNothing(u: Unicode, c: char)
    requires IsSpace(c)
    ensures Says(u, c) == Gap || Says(u, c) == Nothing
  {
  }

  lemma {:induction false} LeadingSpaces(u: Unicode, t: Text, s: string)
    requires t.word == "" && forall k :: 0 <= k < |s| ==> IsSpace(s[k])
    ensures Read(u, t, s) == t
    decreases |s|
  {
    if s != "" {
      SpaceShowsNothing(u, s[0]);
      hide Says, IsSpace;
      LeadingSpaces(u, t, s[1..]);
    }
  }

  lemma {:induction false} TrailingSpaces(u: Unicode, t: Text, s: string)
    requires forall k :: 0 <= k < |s| ==> IsSpace(s[k])
    ensures Close(Read(u, t, s)) == Close(t)
    decreases |s|
  {
    if s != "" {
      SpaceShowsNothing(u, s[0]);
      hide Says, IsSpace;
      TrailingSpaces(u, ReadOne(u, t, s[0]), s[1..]);
    }
  }

  /** Blanks are gaps in this text. */
  ghost predicate BlanksAreGaps(u: Unicode, s: string) {
    Says(u, ' ') == Gap && forall c :: c in s && IsBlankChar(c) ==> Says(u, c) == Gap
  }

  lemma LateBlanksAreGaps(u: Unicode, s: string)
    requires Tables(u) && AllLate(u, s)
    ensures BlanksAreGaps(u, s)
  {
    GapsAreGaps(u);
    hide Tables;
    forall c | c in s && IsBlankChar(c)
      ensures Says(u, c) == Gap
    {
      assert LateOk(u, c);
    }
  }

  lemma {:induction false} SqueezeAlike(u: Unicode, s: string)
    requires BlanksAreGaps(u, s)
    ensures Alike(u, Squeeze(s), s)
    decreases |s|
  {
    hide Alike, Says;
    if s == "" {
      AlikeItself(u, s);
    } else {
      SqueezeAlike(u, s[1..]);
      assert s == [s[0]] + s[1..];
      if !IsBlankChar(s[0]) {
        AlikeHead(u, s[0], Squeeze(s[1..]), s[1..]);
      } else if |s| > 1 && IsBlankChar(s[1]) {
        assert s[1] in s && s[0] in s && s[1..] == [s[1]] + s[2..];
        AlikeGaps(u, s[0], s[1], s[2..]);
        AlikeTransitive(u, Squeeze(s), s[1..], s);
      } else {
        assert s[0] in s;
        AlikeHead(u, ' ', Squeeze(s[1..]), s[1..]);
        AlikeChange(u, ' ', s[0], s[1..]);
        AlikeTransitive(u, Squeeze(s), " " + s[1..], s);
      }
    }
  }

  lemma AlikeChange(u: Unicode, c: char, d: char, s: string)
    requires Says(u, c) == Says(u, d)
    ensures Alike(u, [c] + s, [d] + s)
  {
    forall t
      ensures Read(u, t, [c] + s) == Read(u, t, [d] + s)
    {
      SameMeaning(u, t, c, d);
      hide ReadOne, Says;
      ReadHead(u, t, c, s);
      ReadHead(u, t, d, s);
    }
  }

  /** The part begins a word of its own, or continues one with a letter. */
  ghost predicate StartsWell(u: Unicode, t: Text, p: string) {
    t.word == "" || (p != "" && u.isLetter(p[0]))
  }

  /** What is left of a part once its blanks are squeezed and its ends stripped. */
  lemma {:induction false} PartSlice(u: Unicode, p: string) returns (i: nat, j: nat)
    requires Tables(u) && AllLate(u, p) && ZWNJ !in p && '\n' !in p
    ensures var q := Squeeze(p);
      && i <= j <= |q| && CleanPart(p) == q[i..j] && Alike(u, q, p)
      && (forall k :: 0 <= k < i || j <= k < |q| ==> IsSpace(q[k]))
      && (p != "" && u.isLetter(p[0]) ==> i == 0)
      && (p != "" && u.isLetter(p[|p| - 1]) ==> j == |q|)
  {
    var q := Squeeze(p);
    LateBlanksAreGaps(u, p);
    SqueezeAlike(u, p);
    SqueezeOk(u, p);
    hide Squeeze, Strip, Pairs, IsSpace, LateOk, Alike, BlanksAreGaps, Tables;
    BlankIsSpace();
    if p != "" && u.isLetter(p[0]) {
      LetterFacts(u, p[0]);
    }
    if p != "" && u.isLetter(p[|p| - 1]) {
      LetterFacts(u, p[|p| - 1]);
    }
    i, j := StripIsSlice(q);
  }

  lemma SpacesOf(q: string, i: nat, j: nat)
    requires i <= j <= |q| && forall k :: 0 <= k < i || j <= k < |q| ==> IsSpace(q[k])
    ensures forall k :: 0 <= k < |q[..i]| ==> IsSpace(q[..i][k])
    ensures forall k :: 0 <= k < |q[j..]| ==> IsSpace(q[j..][k])
    ensures q == q[..i] + (q[i..j] + q[j..])
  {
    hide IsSpace;
  }

  lemma AlikeAt(u: Unicode, t: Text, a: string, b: string)
    requires Alike(u, a, b)
    ensures Read(u, t, a) == Read(u, t, b)
  {
  }

  /** Cleaning a part changes no word; where the part ends with a letter, it leaves the last word open as it was. */
  lemma {:induction false} CleanPartReads(u: Unicode, t: Text, p: string)
    requires Tables(u) && AllLate(u, p) && ZWNJ !in p && '\n' !in p && StartsWell(u, t, p)
    ensures Close(Read(u, t, CleanPart(p))) == Close(Read(u, t, p))
    ensures p != "" && u.isLetter(p[|p| - 1]) ==> Read(u, t, CleanPart(p)) == Read(u, t, p)
  {
    hide Squeeze, Strip, Pairs, IsSpace, LateOk, Alike, Tables, Read, Close, CleanPart;
    var q := Squeeze(p);
    var i, j := PartSlice(u, p);
    SpacesOf(q, i, j);
    AlikeAt(u, t, q, p);
    ReadConcat(u, t, q[..i], q[i..j] + q[j..]);
    ReadConcat(u, Read(u, t, q[..i]), q[i..j], q[j..]);
    if t.word == "" {
      LeadingSpaces(u, t, q[..i]);
    } else {
      NothingRead(u, t);
    }
    TrailingSpaces(u, Read(u, t, q[i..j]), q[j..]);
    NothingRead(u, Read(u, t, q[i..j]));
  }

  lemma NothingRead(u: Unicode, t: Text)
    ensures Read(u, t, "") == t
  {
  }

  /** Cleaning a line changes no word. */
  lemma {:induction false} CleanLineReads(u: Unicode, t: Text, l: string)
    requires Tables(u) && AllLate(u, l) && '\n' !in l && Pairs(u, false, l) && EdgesJoined(l) && StartsWell(u, t, l)
    ensures Close(Read(u, t, CleanLine(l))) == Close(Read(u, t, l))
    decreases |l|
  {
    hide CleanPart, Tables, LateOk, Settled, Read, Close, IsSpace;
    var i := FirstSep(l, ZWNJ);
    var p := l[..i];
    if i < |l| {
      var rest := l[i + 1..];
      PairsSplit(u, false, l, i);
      assert i > 0 && rest != "" && u.isLetter(l[i - 1]) && u.isLetter(rest[0]);
      LetterFacts(u, l[i - 1]);
      LetterFacts(u, rest[0]);
      assert rest[|rest| - 1] == l[|l| - 1];
      CleanPartReads(u, t, p);
      CleanLineReads(u, Read(u, t, p), rest);
      JoinedReads(u, t, CleanPart(p), CleanLine(rest));
      JoinedReads(u, t, p, rest);
    } else {
      assert p == l;
      CleanPartReads(u, t, p);
    }
  }

  lemma JoinedReads(u: Unicode, t: Text, a: string, b: string)
    ensures Read(u, t, a + [ZWNJ] + b) == Read(u, Read(u, t, a), b)
  {
    assert a + [ZWNJ] + b == a + ([ZWNJ] + b);
    ReadConcat(u, t, a, [ZWNJ] + b);
    JoinerSaysNothing(u, b);
  }

  lemma NewlineReads(u: Unicode, t: Text, a: string, b: string)
    requires Tables(u)
    ensures Read(u, t, a + ['\n'] + b) == Read(u, Close(Read(u, t, a)), b)
  {
    GapsAreGaps(u);
    hide Says, Tables;
    assert a + ['\n'] + b == a + (['\n'] + b);
    ReadConcat(u, t, a, ['\n'] + b);
    ReadHead(u, Read(u, t, a), '\n', b);
  }

  /** Cleaning up whitespace changes no word. */
  lemma {:induction false} CleanupReads(u: Unicode, t: Text, s: string)
    requires Tables(u) && AllLate(u, s) && Pairs(u, false, s) && EdgesJoined(s) && t.word == ""
    ensures Close(Read(u, t, CleanupWhitespace(s))) == Close(Read(u, t, s))
    decreases |s|
  {
    hide CleanLine, Tables, LateOk, Read;
    NewlineFacts(u);
    var i := FirstSep(s, '\n');
    var l := s[..i];
    if i < |s| {
      var rest := s[i + 1..];
      PairsSplit(u, false, s, i);
      if i > 0 {
        assert l[0] == s[0] && l[i - 1] != ZWNJ;
      }
      if rest != "" {
        assert rest[0] != ZWNJ && rest[|rest| - 1] == s[|s| - 1];
      }
      CleanLineReads(u, t, l);
      CleanupReads(u, Close(Read(u, t, l)), rest);
      NewlineReads(u, t, CleanLine(l), CleanupWhitespace(rest));
      NewlineReads(u, t, l, rest);
    } else {
      assert l == s;
      CleanLineReads(u, t, s);
    }
  }

  // ---------------------------------------------------------- all the steps

  /** No format character but the joiner is left. */
  ghost predicate AllVisible(u: Unicode, s: string) { forall c :: c in s ==> c == ZWNJ || !u.isFormat(c) }

  lemma ImagesSay(u: Unicode, c: char)
    requires Tables(u) && (c == ZWNJ || !u.isFormat(c))
    ensures Says(u, LetterForm(c)) == Says(u, c) && (LetterForm(c) == ZWNJ || !u.isFormat(LetterForm(c)))
    ensures Says(u, LatinDigit(c)) == Says(u, c) && (LatinDigit(c) == ZWNJ || !u.isFormat(LatinDigit(c)))
    ensures Says(u, PlainPunctuation(c)) == Says(u, c) && (PlainPunctuation(c) == ZWNJ || !u.isFormat(PlainPunctuation(c)))
  {
    LetterSays(u, c);
    DigitSays(u, c);
    PunctuationSays(u, c);
    hide *;
  }

  lemma LetterSays(u: Unicode, c: char)
    requires Tables(u) && (c == ZWNJ || !u.isFormat(c))
    ensures Says(u, LetterForm(c)) == Says(u, c) && (LetterForm(c) == ZWNJ || !u.isFormat(LetterForm(c)))
  {
    assert LetterForm(c) != c ==> IsProduced(LetterForm(c));
  }

  lemma DigitSays(u: Unicode, c: char)
    requires Tables(u) && (c == ZWNJ || !u.isFormat(c))
    ensures Says(u, LatinDigit(c)) == Says(u, c) && (LatinDigit(c) == ZWNJ || !u.isFormat(LatinDigit(c)))
  {
    if LatinDigit(c) != c {
      assert IsProduced(LatinDigit(c));
      DigitImage(c);
      assert !IsGap(c) && !SaysNothing(c);
      assert !IsGap(LatinDigit(c)) && !SaysNothing(LatinDigit(c));
    }
  }

  lemma DigitImage(c: char)
    requires LatinDigit(c) != c
    ensures Image(c) == LatinDigit(c) == Image(LatinDigit(c)) && '0' <= LatinDigit(c) <= '9'
    ensures '\U{06f0}' <= c <= '\U{06f9}' || '\U{0660}' <= c <= '\U{0669}'
  {
    var d := if '\U{06f0}' <= c <= '\U{06f9}' then c as int - 0x06f0 else c as int - 0x0660;
    assert "0123456789"[d] == (d + 0x30) as char;
  }

  lemma PunctuationSays(u: Unicode, c: char)
    requires Tables(u) && (c == ZWNJ || !u.isFormat(c))
    ensures Says(u, PlainPunctuation(c)) == Says(u, c) && (PlainPunctuation(c) == ZWNJ || !u.isFormat(PlainPunctuation(c)))
  {
    assert PlainPunctuation(c) != c ==> IsProduced(PlainPunctuation(c));
  }

  lemma {:induction false} MapVisible(u: Unicode, s: string, f: char -> char)
    requires AllVisible(u, s) && forall c :: c in s ==> f(c) == ZWNJ || !u.isFormat(f(c))
    ensures AllVisible(u, MapChars(s, f))
  {
    forall c | c in MapChars(s, f)
      ensures c == ZWNJ || !u.isFormat(c)
    {
      MapIn(s, f, c);
    }
  }

  lemma DroppedSayNothing(u: Unicode, c: char)
    ensures !KeepVisible(u)(c) ==> Says(u, c) == Nothing
    ensures !KeepNonTatweel()(c) ==> Says(u, c) == Nothing
    ensures !KeepNonDiacritic()(c) ==> Says(u, c) == Nothing
  {
  }

  /** Steps 2 to 7 keep what a text says. */
  lemma {:induction false} CharacterStepsRead(u: Unicode, t: Text, s: string)
    requires Tables(u)
    ensures Read(u, t, CharacterSteps(u, s)) == Read(u, t, s)
  {
    var a := Filter(s, KeepVisible(u));
    var b := Filter(a, KeepNonTatweel());
    var d := Filter(b, KeepNonDiacritic());
    FilterIn(s, KeepVisible(u));
    FilterIn(a, KeepNonTatweel());
    FilterIn(b, KeepNonDiacritic());
    assert AllVisible(u, d);
    hide Filter, MapChars, ExpandEllipsis, Says, LetterForm, LatinDigit, PlainPunctuation, Tables, IsDiacritic, Read;
    forall c
      ensures !KeepVisible(u)(c) ==> Says(u, c) == Nothing
      ensures !KeepNonTatweel()(c) ==> Says(u, c) == Nothing
      ensures !KeepNonDiacritic()(c) ==> Says(u, c) == Nothing
    {
      DroppedSayNothing(u, c);
    }
    ReadFilter(u, t, s, KeepVisible(u));
    ReadFilter(u, t, a, KeepNonTatweel());
    ReadFilter(u, t, b, KeepNonDiacritic());
    MappedReads(u, t, d);
  }

  lemma {:induction false} MappedReads(u: Unicode, t: Text, d: string)
    requires Tables(u) && AllVisible(u, d)
    ensures Read(u, t, ExpandEllipsis(MapChars(MapChars(MapChars(d, LetterForm), LatinDigit), PlainPunctuation))) == Read(u, t, d)
  {
    hide Filter, MapChars, ExpandEllipsis, Says, LetterForm, LatinDigit, PlainPunctuation, Tables, Read;
    forall c | c == ZWNJ || !u.isFormat(c)
      ensures Says(u, LetterForm(c)) == Says(u, c) && (LetterForm(c) == ZWNJ || !u.isFormat(LetterForm(c)))
      ensures Says(u, LatinDigit(c)) == Says(u, c) && (LatinDigit(c) == ZWNJ || !u.isFormat(LatinDigit(c)))
      ensures Says(u, PlainPunctuation(c)) == Says(u, c) && (PlainPunctuation(c) == ZWNJ || !u.isFormat(PlainPunctuation(c)))
    {
      ImagesSay(u, c);
    }
    var e := MapChars(d, LetterForm);
    var f := MapChars(e, LatinDigit);
    var g := MapChars(f, PlainPunctuation);
    ReadMap(u, t, d, LetterForm);
    MapVisible(u, d, LetterForm);
    ReadMap(u, t, e, LatinDigit);
    MapVisible(u, e, LatinDigit);
    ReadMap(u, t, f, PlainPunctuation);
    MapVisible(u, f, PlainPunctuation);
    ReadExpand(u, t, g);
  }

  lemma SpacesSay(u: Unicode, c: char)
    requires Tables(u) && (c == ZWNJ || !u.isFormat(c))
    ensures Says(u, CrToLf(c)) == Says(u, c) && (CrToLf(c) == ZWNJ || !u.isFormat(CrToLf(c))) && CrToLf(c) != '\r'
    ensures Says(u, PlainSpace(c)) == Says(u, c) && (c != '\r' ==> PlainSpace(c) != '\r')
    ensures c != '\r' && !KeepAllowed()(c) ==> Says(u, c) == Nothing
    ensures PlainSpace(c) == ZWNJ || !u.isFormat(PlainSpace(c))
  {
    GapsAreGaps(u);
    assert IsProduced(' ') && IsProduced('\n');
  }

  /** Steps 10 to 12 keep what a text says. */
  lemma {:induction false} SpacingStepsRead(u: Unicode, t: Text, s: string)
    requires Tables(u) && AllVisible(u, s)
    ensures Read(u, t, SpacingSteps(s)) == Read(u, t, s)
  {
    CrAlike(u, s);
    var a := DropCrBeforeLf(s);
    assert Read(u, t, a) == Read(u, t, s);
    NormalizationComposition.DropCrIn(s);
    hide DropCrBeforeLf, Filter, MapChars, Says, PlainSpace, CrToLf, Tables, Read;
    var b := MapChars(a, CrToLf);
    var d := MapChars(b, PlainSpace);
    forall c | c == ZWNJ || !u.isFormat(c)
      ensures Says(u, CrToLf(c)) == Says(u, c) && (CrToLf(c) == ZWNJ || !u.isFormat(CrToLf(c))) && CrToLf(c) != '\r'
      ensures Says(u, PlainSpace(c)) == Says(u, c) && (c != '\r' ==> PlainSpace(c) != '\r')
      ensures PlainSpace(c) == ZWNJ || !u.isFormat(PlainSpace(c))
      ensures c != '\r' && !KeepAllowed()(c) ==> Says(u, c) == Nothing
    {
      SpacesSay(u, c);
    }
    ReadMap(u, t, a, CrToLf);
    MapVisible(u, a, CrToLf);
    ReadMap(u, t, b, PlainSpace);
    MapVisible(u, b, PlainSpace);
    forall c | c in d && !KeepAllowed()(c)
      ensures Says(u, c) == Nothing
    {
      MapIn(b, PlainSpace, c);
      var c1 :| c1 in b && PlainSpace(c1) == c;
      MapIn(a, CrToLf, c1);
    }
    ReadFilter(u, t, d, KeepAllowed());
  }

  lemma EarlyVisible(u: Unicode, s: string)
    requires AllEarly(u, s)
    ensures AllVisible(u, s)
  {
    forall c | c in s
      ensures c == ZWNJ || !u.isFormat(c)
    {
      assert EarlyOk(u, c);
    }
  }

  /**
   * Nothing but form changes: for every text, the normalised text has the
   * same words, in the same order and letter by letter, as the NFC of the
   * text, with the substitutions made and repeated marks counted once.
   */
  lemma {:induction false} ContentIsKept(u: Unicode, text: string)
    requires Tables(u)
    ensures Words(u, Normalize(u, text)) == Words(u, u.nfc(text))
  {
    hide CharacterSteps, CollapseMarks, CollapseDots, CollapseZwnj, KeepJoiners, SpacingSteps, CleanupWhitespace, EarlyOk, LateOk, Pairs, Read, Tables;
    var s := CharacterSteps(u, u.nfc(text));
    CharacterStepsOk(u, u.nfc(text));
    CharacterStepsRead(u, BLANK, u.nfc(text));
    CollapseMarksThins(u, s);
    CollapseDotsThins(u, CollapseMarks(s));
    MarksAlike(u, s);
    DotsAlike(u, CollapseMarks(s));
    var c := Collapse(s);
    NormalizeZwnjOk(u, c);
    ZwnjAlike(u, c);
    JoinersAlike(u, None, CollapseZwnj(c));
    var z := NormalizeZwnj(u, c);
    EarlyVisible(u, z);
    SpacingStepsOk(u, z);
    SpacingStepsRead(u, BLANK, z);
    CleanupReads(u, BLANK, SpacingSteps(z));
    assert Read(u, BLANK, z) == Read(u, BLANK, s);
  }

  /** The normalised text is written with the images only: reading it substitutes nothing. */
  lemma {:induction false} OutputIsPlain(u: Unicode, text: string, c: char)
    requires Tables(u) && c in Normalize(u, text)
    ensures Says(u, c) == Gap || Says(u, c) == Nothing || Says(u, c) == Shows(c)
    ensures Says(u, c) == Gap ==> c == ' ' || c == '\n'
  {
    NormalizeQuiet(u, text);
    QuietVocabulary(u, Normalize(u, text));
    hide *;
    PlainCharacter(u, c);
  }

  lemma QuietVocabulary(u: Unicode, s: string)
    requires Quiet(u, s)
    ensures AllLate(u, s) && forall c :: c in s ==> c != '\t' && LateOk(u, c)
  {
    hide LateOk, Pairs;
  }

  lemma PlainCharacter(u: Unicode, c: char)
    requires LateOk(u, c) && c != '\t'
    ensures Says(u, c) == Gap || Says(u, c) == Nothing || Says(u, c) == Shows(c)
    ensures Says(u, c) == Gap ==> c == ' ' || c == '\n'
  {
  }

  /** Letters and digits, Latin, Arabic and Persian, are all shown; only two letters and the two digit blocks are replaced. */
  lemma {:induction false} LettersAndDigitsShow(u: Unicode, c: char)
    requires !u.isFormat(c)
    requires 'a' <= c <= 'z' || 'A' <= c <= 'Z' || '0' <= c <= '9' || '\U{0621}' <= c <= '\U{063a}' || '\U{0641}' <= c <= '\U{064a}'
      || '\U{0671}' <= c <= '\U{06d3}' || '\U{06f0}' <= c <= '\U{06f9}' || '\U{0660}' <= c <= '\U{0669}'
    ensures Says(u, c).Shows?
    ensures c !in {'\U{064a}', '\U{0649}', '\U{0643}'} && !('\U{06f0}' <= c <= '\U{06f9}') && !('\U{0660}' <= c <= '\U{0669}') ==>
      Says(u, c) == Shows(c)
    ensures '\U{06f0}' <= c <= '\U{06f9}' ==> Says(u, c) == Shows((c as int - 0x06f0 + 48) as char)
    ensures '\U{0660}' <= c <= '\U{0669}' ==> Says(u, c) == Shows((c as int - 0x0660 + 48) as char)
  {
  }
}
