/** The Python string primitives the text modules rely on, defined on `string`. */
module PythonText {

  datatype Option<+T> = None | Some(value: T)

  /** A half-open range of character offsets. */
  datatype Span = Span(start: nat, end: nat)

  /** `str.isspace()`, the membership test of `str.strip()`, and regex `\s`. */
  predicate IsSpace(c: char) {
    || '\t' <= c <= '\r'
    || '\U{1c}' <= c <= ' '
    || c == '\U{85}' || c == '\U{a0}' || c == '\U{1680}'
    || '\U{2000}' <= c <= '\U{200a}'
    || c == '\U{2028}' || c == '\U{2029}' || c == '\U{202f}' || c == '\U{205f}' || c == '\U{3000}'
  }

  /** True when `text.strip()` would be empty. */
  predicate IsBlank(text: string) {
    forall i :: 0 <= i < |text| ==> IsSpace(text[i])
  }

  function Max(a: int, b: int): int { if a >= b then a else b }

  function Min(a: int, b: int): int { if a <= b then a else b }

  /**
   * One loop step against a recursive specification: what is left, `before`,
   * is the step's output followed by what is left afterwards.
   */
  lemma Regroup<T>(done: seq<T>, step: seq<T>, after: seq<T>, before: seq<T>, all: seq<T>)
    requires before == step + after && done + before == all
    ensures (done + step) + after == all
  {
  }

  /** `text.rfind(c, lo, hi)`: the last position of `c` in `[lo, hi)`, or -1. */
  function RFind(text: string, c: char, lo: nat, hi: nat): (r: int)
    requires hi <= |text|
    ensures r == -1 || (lo <= r < hi && text[r] == c)
    ensures forall i :: lo <= i < hi && i > r ==> text[i] != c
    decreases hi
  {
    if hi <= lo then -1
    else if text[hi - 1] == c then hi - 1
    else RFind(text, c, lo, hi - 1)
  }

  /** `text.find(c, lo, hi)`, with `hi` standing for "absent". */
  function Find(text: string, c: char, lo: nat, hi: nat): (r: nat)
    requires lo <= hi <= |text|
    ensures lo <= r <= hi
    ensures r < hi ==> text[r] == c
    decreases hi - lo
  {
    if lo == hi || text[lo] == c then lo else Find(text, c, lo + 1, hi)
  }

  /** `text.lstrip()`. */
  function LStrip(text: string): (r: string)
    ensures |r| <= |text| && r == text[|text| - |r|..]
    ensures r == [] || !IsSpace(r[0])
    ensures forall i :: 0 <= i < |text| - |r| ==> IsSpace(text[i])
  {
    if text == [] || !IsSpace(text[0]) then text else LStrip(text[1..])
  }

  /** `text.rstrip()`. */
  function RStrip(text: string): (r: string)
    ensures |r| <= |text| && r == text[..|r|]
    ensures r == [] || !IsSpace(r[|r| - 1])
    ensures forall i :: |r| <= i < |text| ==> IsSpace(text[i])
  {
    if text == [] || !IsSpace(text[|text| - 1]) then text else RStrip(text[..|text| - 1])
  }

  /** `text.strip()`. */
  function Strip(text: string): (r: string)
    ensures r == [] || (!IsSpace(r[0]) && !IsSpace(r[|r| - 1]))
  {
    RStrip(LStrip(text))
  }

  /** What `strip()` removes at either end is whitespace. */
  lemma StripIsSlice(text: string) returns (a: nat, b: nat)
    ensures a <= b <= |text| && Strip(text) == text[a..b]
    ensures forall i :: 0 <= i < |text| && !(a <= i < b) ==> IsSpace(text[i])
  {
    hide IsSpace;
    var left := LStrip(text);
    a := |text| - |left|;
    b := a + |Strip(text)|;
    forall i | b <= i < |text|
      ensures IsSpace(text[i])
    {
      assert text[i] == left[i - a];
    }
  }

  /** A text without surrounding whitespace is its own `strip()`. */
  lemma {:induction false} StripFixed(text: string)
    requires text == [] || (!IsSpace(text[0]) && !IsSpace(text[|text| - 1]))
    ensures Strip(text) == text
  {
    if text != [] {
      assert LStrip(text) == text;
      assert RStrip(text) == text;
    }
  }

  function Concat<T>(parts: seq<seq<T>>): seq<T> {
    if parts == [] then [] else parts[0] + Concat(parts[1..])
  }

  lemma {:induction false} ConcatAppend<T>(a: seq<seq<T>>, b: seq<seq<T>>)
    ensures Concat(a + b) == Concat(a) + Concat(b)
  {
    if a == [] {
      assert a + b == b;
    } else {
      assert (a + b)[1..] == a[1..] + b && (a + b)[0] == a[0];
      ConcatAppend(a[1..], b);
      assert a[0] + (Concat(a[1..]) + Concat(b)) == (a[0] + Concat(a[1..])) + Concat(b);
    }
  }

  /** String comparison: by the first differing character. */
  predicate TextLeq(a: string, b: string) {
    a == "" || (b != "" && (a[0] < b[0] || (a[0] == b[0] && TextLeq(a[1..], b[1..]))))
  }

  lemma {:induction false} TextLeqTotal(a: string, b: string)
    ensures TextLeq(a, b) || TextLeq(b, a)
    ensures TextLeq(a, b) && TextLeq(b, a) ==> a == b
  {
    if a != "" && b != "" && a[0] == b[0] {
      TextLeqTotal(a[1..], b[1..]);
      assert a == [a[0]] + a[1..] && b == [b[0]] + b[1..];
    }
  }

  lemma {:induction false} TextLeqTransitive(a: string, b: string, c: string)
    requires TextLeq(a, b) && TextLeq(b, c)
    ensures TextLeq(a, c)
  {
    if a != "" && a[0] == b[0] && b[0] == c[0] {
      TextLeqTransitive(a[1..], b[1..], c[1..]);
    }
  }
}
