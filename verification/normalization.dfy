/**
 * `normalize_persian_text`: the thirteen-step rewriting of Persian text, with
 * the Unicode tables and NFC left open.
 */
module Normalization {
  import opened PythonText

  /**
   * Unicode NFC with its quick-check property, and the general categories Cf
   * and L*, whatever the Unicode version. Allowed characters have a quick check
   * other than No; starters have quick check Yes and combining class 0.
   */
  datatype Unicode = Unicode(
    nfc: string -> string, isFormat: char -> bool, isLetter: char -> bool, isAllowed: char -> bool, isStarter: char -> bool)

  const ZWNJ: char := '\U{200c}'
  const TATWEEL: char := '\U{0640}'
  const PERSIAN_YEH: char := '\U{06cc}'
  const PERSIAN_KAF: char := '\U{06a9}'
  const ELLIPSIS: char := '\U{2026}'

  /** The characters the pipeline itself may write. */
  predicate IsProduced(c: char) {
    || c == PERSIAN_YEH || c == PERSIAN_KAF || '0' <= c <= '9' || c == '"' || c == '\''
    || c == '\U{061f}' || c == '\U{060c}' || c == '\U{061b}' || c == '.' || c == '\n' || c == ' '
  }

  /** General category Cc, which Unicode never changes. */
  predicate IsControl(c: char) {
    c < ' ' || '\U{7f}' <= c <= '\U{9f}'
  }

  /** Facts every version of the Unicode tables satisfies. */
  ghost predicate Tables(u: Unicode) {
    && (forall c :: u.isLetter(c) ==> !u.isFormat(c) && !IsControl(c) && !IsSpace(c) && c != ZWNJ)
    && (forall c :: u.isFormat(c) ==> !IsProduced(c))
    && (forall c :: u.isLetter(c) ==> !IsMark(c) && c != '.')
  }

  // ------------------------------------------------------------ string passes

  function Filter(s: string, keep: char -> bool): string {
    if s == "" then "" else (if keep(s[0]) then [s[0]] else "") + Filter(s[1..], keep)
  }

  /** `str.translate` and single-character `str.replace`. */
  function MapChars(s: string, f: char -> char): string {
    if s == "" then "" else [f(s[0])] + MapChars(s[1..], f)
  }

  /** `sep.join(f(part) for part in s.split(sep))`. */
  function OnParts(s: string, sep: char, f: string -> string): string {
    var i := Find(s, sep, 0, |s|);
    if i == |s| then f(s) else f(s[..i]) + [sep] + OnParts(s[i + 1..], sep, f)
  }

  // ------------------------------------------------------------------- steps

  function KeepVisible(u: Unicode): char -> bool {
    c => c == ZWNJ || !(u.isFormat(c) || c == '\U{feff}' || c == '\U{ad}')
  }

  function KeepNonTatweel(): char -> bool { c => c != TATWEEL }

  predicate IsDiacritic(c: char) {
    || '\U{0610}' <= c <= '\U{061a}' || '\U{064b}' <= c <= '\U{0652}' || '\U{0655}' <= c <= '\U{065f}'
    || c == '\U{0670}' || '\U{06d6}' <= c <= '\U{06ed}'
  }

  function KeepNonDiacritic(): char -> bool { c => !IsDiacritic(c) }

  function LetterForm(c: char): char {
    if c == '\U{064a}' || c == '\U{0649}' then PERSIAN_YEH else if c == '\U{0643}' then PERSIAN_KAF else c
  }

  function LatinDigit(c: char): char {
    if '\U{06f0}' <= c <= '\U{06f9}' then (c as int - 0x06f0 + 0x30) as char
    else if '\U{0660}' <= c <= '\U{0669}' then (c as int - 0x0660 + 0x30) as char
    else c
  }

  /** Quotes to ASCII, full-width punctuation to Persian. */
  function PlainPunctuation(c: char): char {
    if '\U{201c}' <= c <= '\U{201f}' || c == '\U{2033}' then '"'
    else if '\U{2018}' <= c <= '\U{201b}' || c == '\U{2032}' then '\''
    else if c == '\U{ff1f}' then '\U{061f}'
    else if c == '\U{ff0c}' then '\U{060c}'
    else if c == '\U{ff1b}' then '\U{061b}'
    else c
  }

  function ExpandEllipsis(s: string): string {
    if s == "" then "" else (if s[0] == ELLIPSIS then "..." else [s[0]]) + ExpandEllipsis(s[1..])
  }

  /** The marks whose repetition is noise. */
  predicate IsMark(c: char) {
    || c == '\U{061f}' || c == '!' || c == '?' || c == ',' || c == '\U{060c}' || c == '\U{061b}' || c == ';' || c == ':'
  }

  /** `([marks])\1+` becomes one mark. */
  function CollapseMarks(s: string): string {
    if s == "" then ""
    else if |s| > 1 && IsMark(s[0]) && s[1] == s[0] then CollapseMarks(s[1..])
    else [s[0]] + CollapseMarks(s[1..])
  }

  predicate FourDots(s: string) {
    |s| >= 4 && s[0] == '.' && s[1] == '.' && s[2] == '.' && s[3] == '.'
  }

  /** `\.{4,}` becomes three dots. */
  function CollapseDots(s: string): string {
    if s == "" then ""
    else if FourDots(s) then CollapseDots(s[1..])
    else [s[0]] + CollapseDots(s[1..])
  }

  function Collapse(s: string): string { CollapseDots(CollapseMarks(s)) }

  /** Runs of ZWNJ become one. */
  function CollapseZwnj(s: string): string {
    if s == "" then ""
    else if |s| > 1 && s[0] == ZWNJ && s[1] == ZWNJ then CollapseZwnj(s[1..])
    else [s[0]] + CollapseZwnj(s[1..])
  }

  /** Drops every ZWNJ that does not stand between letters; `prev` is the last character written. */
  function KeepJoiners(u: Unicode, prev: Option<char>, s: string): string
    decreases s
  {
    if s == "" then ""
    else if s[0] != ZWNJ then [s[0]] + KeepJoiners(u, Some(s[0]), s[1..])
    else if prev.Some? && u.isLetter(prev.value) && |s| > 1 && u.isLetter(s[1]) then
      [ZWNJ] + KeepJoiners(u, Some(ZWNJ), s[1..])
    else KeepJoiners(u, prev, s[1..])
  }

  function NormalizeZwnj(u: Unicode, s: string): string { KeepJoiners(u, None, CollapseZwnj(s)) }

  /** `s.replace("\r\n", "\n")`. */
  function DropCrBeforeLf(s: string): string {
    if s == "" then ""
    else if |s| > 1 && s[0] == '\r' && s[1] == '\n' then DropCrBeforeLf(s[1..])
    else [s[0]] + DropCrBeforeLf(s[1..])
  }

  function CrToLf(c: char): char { if c == '\r' then '\n' else c }

  function PlainSpace(c: char): char {
    if c == '\U{a0}' || c == '\U{1680}' || '\U{2000}' <= c <= '\U{200a}'
       || c == '\U{202f}' || c == '\U{205f}' || c == '\U{3000}'
    then ' ' else c
  }

  function KeepAllowed(): char -> bool { c => c == '\n' || c == '\t' || !IsControl(c) }

  predicate IsBlankChar(c: char) { c == ' ' || c == '\t' }

  /** `[ \t]+` becomes one space. */
  function Squeeze(s: string): string {
    if s == "" then ""
    else if !IsBlankChar(s[0]) then [s[0]] + Squeeze(s[1..])
    else if |s| > 1 && IsBlankChar(s[1]) then Squeeze(s[1..])
    else " " + Squeeze(s[1..])
  }

  function CleanPart(s: string): string { Strip(Squeeze(s)) }

  function CleanLine(s: string): string { OnParts(s, ZWNJ, CleanPart) }

  function CleanupWhitespace(s: string): string { OnParts(s, '\n', CleanLine) }

  /** Steps 2 to 7: character by character, up to punctuation unification. */
  function CharacterSteps(u: Unicode, s: string): string {
    var visible := Filter(s, KeepVisible(u));
    var letters := Filter(Filter(visible, KeepNonTatweel()), KeepNonDiacritic());
    ExpandEllipsis(MapChars(MapChars(MapChars(letters, LetterForm), LatinDigit), PlainPunctuation))
  }

  /** Steps 10 to 12: line endings, spaces, controls. */
  function SpacingSteps(s: string): string {
    Filter(MapChars(MapChars(DropCrBeforeLf(s), CrToLf), PlainSpace), KeepAllowed())
  }

  /** Steps 1 to 7. */
  function AfterSubstitutions(u: Unicode, text: string): string {
    CharacterSteps(u, u.nfc(text))
  }

  /** Steps 1 to 8. */
  function UpToCollapse(u: Unicode, text: string): string {
    Collapse(AfterSubstitutions(u, text))
  }

  /** Steps 1 to 12: all but the last. */
  function BeforeCleanup(u: Unicode, text: string): string {
    SpacingSteps(NormalizeZwnj(u, UpToCollapse(u, text)))
  }

  /** `normalize_persian_text`. */
  function Normalize(u: Unicode, text: string): string {
    CleanupWhitespace(BeforeCleanup(u, text))
  }

  // -------------------------------------------------------------- the loops

  /** `_remove_invisible_unicode`. */
  method RemoveInvisible(u: Unicode, text: string) returns (out: string)
    ensures out == Filter(text, KeepVisible(u))
  {
    ghost var all := Filter(text, KeepVisible(u));
    ghost var rest := all;
    out := "";
    for i := 0 to |text|
      invariant rest == Filter(text[i..], KeepVisible(u))
      invariant out + rest == all
    {
      FilterStep(text, i, KeepVisible(u));
      ghost var after := Filter(text[i + 1..], KeepVisible(u));
      var c := text[i];
      if c == ZWNJ || !(u.isFormat(c) || c == '\U{feff}' || c == '\U{ad}') {
        Regroup(out, [c], after, rest, all);
        out := out + [c];
      }
      rest := after;
    }
  }

  /** `_strip_disallowed_controls`. */
  method StripControls(text: string) returns (out: string)
    ensures out == Filter(text, KeepAllowed())
  {
    ghost var all := Filter(text, KeepAllowed());
    ghost var rest := all;
    out := "";
    for i := 0 to |text|
      invariant rest == Filter(text[i..], KeepAllowed())
      invariant out + rest == all
    {
      FilterStep(text, i, KeepAllowed());
      ghost var after := Filter(text[i + 1..], KeepAllowed());
      var c := text[i];
      if c == '\n' || c == '\t' || !IsControl(c) {
        Regroup(out, [c], after, rest, all);
        out := out + [c];
      }
      rest := after;
    }
  }

  lemma FilterStep(s: string, i: nat, keep: char -> bool)
    requires i < |s|
    ensures Filter(s[i..], keep) == if keep(s[i]) then [s[i]] + Filter(s[i + 1..], keep) else Filter(s[i + 1..], keep)
  {
    assert s[i..][1..] == s[i + 1..];
  }

  /** `_normalize_zwnj`. */
  method NormalizeZwnjLoop(u: Unicode, text: string) returns (out: string)
    requires Tables(u)
    ensures out == NormalizeZwnj(u, text)
  {
    if ZWNJ !in text {
      NoZwnj(u, None, text);
      return text;
    }
    var collapsed := CollapseZwnj(text);
    hide *;
    ghost var all := NormalizeZwnj(u, text);
    ghost var rest := all;
    out := "";
    JoinersStart(u, text);
    for i := 0 to |collapsed|
      invariant IsJoinersFrom(u, out, collapsed, i, rest)
      invariant out + rest == all
    {
      var c := collapsed[i];
      ghost var after := JoinersStep(u, out, collapsed, i, rest);
      if c != ZWNJ {
        Regroup(out, [c], after, rest, all);
        out, rest := out + [c], after;
        continue;
      }
      if out != "" && u.isLetter(out[|out| - 1]) && i + 1 < |collapsed| && u.isLetter(collapsed[i + 1]) {
        Regroup(out, [ZWNJ], after, rest, all);
        out := out + [ZWNJ];
      }
      rest := after;
    }
    JoinersEnd(u, out, collapsed, rest);
  }

  /** What is still to be written from position `i` on. */
  ghost predicate IsJoinersFrom(u: Unicode, out: string, s: string, i: nat, rest: string)
    requires i <= |s|
  {
    rest == KeepJoiners(u, if out == "" then None else Some(out[|out| - 1]), s[i..])
  }

  lemma JoinersStart(u: Unicode, text: string)
    ensures IsJoinersFrom(u, "", CollapseZwnj(text), 0, NormalizeZwnj(u, text))
  {
    hide CollapseZwnj, KeepJoiners;
    assert CollapseZwnj(text)[0..] == CollapseZwnj(text);
  }

  lemma JoinersStep(u: Unicode, out: string, s: string, i: nat, rest: string) returns (after: string)
    requires i < |s| && IsJoinersFrom(u, out, s, i, rest)
    ensures
      if s[i] != ZWNJ || (out != "" && u.isLetter(out[|out| - 1]) && i + 1 < |s| && u.isLetter(s[i + 1])) then
        rest == [s[i]] + after && IsJoinersFrom(u, out + [s[i]], s, i + 1, after)
      else rest == after && IsJoinersFrom(u, out, s, i + 1, after)
  {
    assert s[i..][1..] == s[i + 1..];
    if s[i] != ZWNJ || (out != "" && u.isLetter(out[|out| - 1]) && i + 1 < |s| && u.isLetter(s[i + 1])) {
      after := rest[1..];
    } else {
      after := rest;
    }
  }

  lemma JoinersEnd(u: Unicode, out: string, s: string, rest: string)
    requires IsJoinersFrom(u, out, s, |s|, rest)
    ensures rest == ""
  {
  }

  lemma {:induction false} NoZwnj(u: Unicode, prev: Option<char>, s: string)
    requires ZWNJ !in s
    ensures CollapseZwnj(s) == s && KeepJoiners(u, prev, s) == s
    decreases s
  {
    if s != "" {
      NoZwnj(u, Some(s[0]), s[1..]);
      NoZwnj(u, None, s[1..]);
    }
  }

  /** `normalize_persian_text` as the chain of calls the source makes. */
  method NormalizePersianText(u: Unicode, text: string) returns (normalized: string)
    requires Tables(u)
    ensures normalized == Normalize(u, text)
  {
    hide Filter, MapChars, Collapse, NormalizeZwnj, DropCrBeforeLf, ExpandEllipsis, CleanupWhitespace;
    normalized := u.nfc(text);
    normalized := RemoveInvisible(u, normalized);
    normalized := Filter(normalized, KeepNonTatweel());
    normalized := Filter(normalized, KeepNonDiacritic());
    normalized := MapChars(normalized, LetterForm);
    normalized := MapChars(normalized, LatinDigit);
    normalized := ExpandEllipsis(MapChars(normalized, PlainPunctuation));
    normalized := Collapse(normalized);
    normalized := NormalizeZwnjLoop(u, normalized);
    normalized := MapChars(DropCrBeforeLf(normalized), CrToLf);
    normalized := MapChars(normalized, PlainSpace);
    normalized := StripControls(normalized);
    normalized := CleanupWhitespace(normalized);
  }
}
