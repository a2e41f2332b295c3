/** Joining the texts of neighbouring chunks over their largest overlap. */
module NeighbourText {
  import opened PythonText

  predicate EndsWith(s: string, t: string) {
    |t| <= |s| && s[|s| - |t|..] == t
  }

  /** The largest `k <= size` such that `left` ends with the first `k` characters of `right`. */
  function Overlap(left: string, right: string, size: nat): (k: nat)
    requires size <= |left| && size <= |right|
    ensures k <= size && EndsWith(left, right[..k])
  {
    if size == 0 || EndsWith(left, right[..size]) then size else Overlap(left, right, size - 1)
  }

  function JoinStripped(left: string, right: string): string {
    if left == "" then right
    else if right == "" then left
    else
      var k := Overlap(left, right, Min(|left|, |right|));
      if k > 0 then left + right[k..] else left + "\n" + right
  }

  /** What `_join_adjacent` returns. */
  function Join(left: string, right: string): string {
    JoinStripped(Strip(left), Strip(right))
  }

  /** `_join_adjacent`. */
  method JoinAdjacent(left: string, right: string) returns (joined: string)
    ensures joined == Join(left, right)
  {
    hide Strip, IsSpace, EndsWith;
    var l, r := Strip(left), Strip(right);
    if l == "" {
      return r;
    }
    if r == "" {
      return l;
    }
    var size := Min(|l|, |r|);
    while size > 0
      invariant 0 <= size <= |l| && size <= |r|
      invariant Overlap(l, r, size) == Overlap(l, r, Min(|l|, |r|))
    {
      if EndsWith(l, r[..size]) {
        return l + r[size..];
      }
      size := size - 1;
    }
    return l + "\n" + r;
  }

  // ------------------------------------------------------------- one join

  lemma {:induction false} OverlapIsLargest(left: string, right: string, size: nat, k: nat)
    requires size <= |left| && size <= |right| && k <= size && EndsWith(left, right[..k])
    ensures k <= Overlap(left, right, size)
  {
    if k < size && !EndsWith(left, right[..size]) {
      OverlapIsLargest(left, right, size - 1, k);
    }
  }

  /** `text` starts with `left` and ends with `right`. */
  predicate Holds(text: string, left: string, right: string) {
    left <= text && EndsWith(text, right)
  }

  /** The join starts with the stripped left text and ends with the stripped right text. */
  lemma {:induction false} JoinHolds(left: string, right: string)
    ensures Holds(Join(left, right), Strip(left), Strip(right))
  {
    hide Strip;
    var l, r := Strip(left), Strip(right);
    if l != "" && r != "" {
      var k := Overlap(l, r, Min(|l|, |r|));
      hide Overlap;
      if k > 0 {
        var joined := l + r[k..];
        assert joined[|joined| - |r|..] == l[|l| - k..] + r[k..];
        assert r[..k] + r[k..] == r;
      }
    }
  }

  /** Two texts on top of each other determine their overlap. */
  lemma SharedLength(text: string, left: string, right: string)
    requires Holds(text, left, right) && |text| <= |left| + |right|
    ensures
      var m := |left| + |right| - |text|;
      m <= |left| && m <= |right| && EndsWith(left, right[..m]) && text == left + right[m..]
  {
    var m := |left| + |right| - |text|;
    assert text[..|left|] == left;
    assert text[|text| - |right|..] == right;
    assert left[|left| - m..] == text[|left| - m..|left|] == right[..m];
    assert text == text[..|left|] + text[|left|..];
    assert text[|left|..] == right[m..];
  }

  /**
   * When the texts overlap, or one is blank, the join is the one shortest
   * text that starts with the left and ends with the right. Otherwise no
   * such text is more than the newline shorter.
   */
  lemma {:induction false} JoinIsShortest(left: string, right: string, text: string)
    requires Holds(text, Strip(left), Strip(right))
    ensures
      var l, r := Strip(left), Strip(right);
      if l == "" || r == "" || Overlap(l, r, Min(|l|, |r|)) > 0 then
        |Join(left, right)| <= |text| && (|Join(left, right)| == |text| ==> text == Join(left, right))
      else |Join(left, right)| == |l| + |r| + 1 <= |text| + 1
  {
    hide Strip;
    var l, r := Strip(left), Strip(right);
    if l != "" && r != "" && |text| <= |l| + |r| {
      SharedLength(text, l, r);
      var m := |l| + |r| - |text|;
      OverlapIsLargest(l, r, Min(|l|, |r|), m);
      hide Overlap;
    }
  }

  predicate IsStripped(text: string) {
    text == "" || (!IsSpace(text[0]) && !IsSpace(text[|text| - 1]))
  }

  lemma StripIsStripped(text: string)
    ensures IsStripped(Strip(text))
  {
    hide Strip, IsSpace;
  }

  lemma StrippedIsFixed(text: string)
    requires IsStripped(text)
    ensures Strip(text) == text
  {
    hide IsSpace;
    StripFixed(text);
  }

  /** A text that starts and ends like stripped texts is stripped. */
  lemma OuterStripped(text: string, l: string, r: string)
    requires l != "" && r != "" && IsStripped(l) && IsStripped(r) && Holds(text, l, r)
    ensures IsStripped(text)
  {
    hide IsSpace;
    assert text[0] == l[0];
    assert text[|text| - 1] == text[|text| - |r|..][|r| - 1] == r[|r| - 1];
  }

  lemma JoinIsStripped(left: string, right: string)
    ensures IsStripped(Join(left, right)) && Strip(Join(left, right)) == Join(left, right)
  {
    hide Strip, Join, IsSpace, IsStripped, Holds;
    var l, r := Strip(left), Strip(right);
    StripIsStripped(left);
    StripIsStripped(right);
    JoinHolds(left, right);
    if l != "" && r != "" {
      OuterStripped(Join(left, right), l, r);
    } else {
      JoinWithBlank(left, right);
    }
    StrippedIsFixed(Join(left, right));
  }

  lemma JoinWithBlank(left: string, right: string)
    requires Strip(left) == "" || Strip(right) == ""
    ensures Join(left, right) == if Strip(left) == "" then Strip(right) else Strip(left)
  {
    hide Strip;
  }

  // ------------------------------------------------------------ many joins

  /** The loop of `_to_block` over the texts of a chain. */
  function Merged(texts: seq<string>): string
    requires texts != []
  {
    if |texts| == 1 then Strip(texts[0]) else Join(Merged(texts[..|texts| - 1]), texts[|texts| - 1])
  }

  lemma MergedIsStripped(texts: seq<string>)
    requires texts != []
    ensures IsStripped(Merged(texts)) && Strip(Merged(texts)) == Merged(texts)
  {
    hide Join, Strip, IsStripped;
    if |texts| == 1 {
      StripIsStripped(texts[0]);
      StrippedIsFixed(Strip(texts[0]));
    } else {
      JoinIsStripped(Merged(texts[..|texts| - 1]), texts[|texts| - 1]);
    }
  }

  /**
   * The merged text holds every stripped text, and in order: the text of the
   * first `i + 1` chunks is a prefix of it that ends with text number `i`.
   */
  lemma {:induction false} MergedHoldsAll(texts: seq<string>, i: nat)
    requires i < |texts|
    ensures Merged(texts[..i + 1]) <= Merged(texts)
    ensures EndsWith(Merged(texts[..i + 1]), Strip(texts[i]))
    decreases |texts|
  {
    hide Join, Strip, IsStripped;
    var n := |texts| - 1;
    if i == n {
      assert texts[..i + 1] == texts;
      if n > 0 {
        JoinHolds(Merged(texts[..n]), texts[n]);
      }
    } else {
      MergedHoldsAll(texts[..n], i);
      assert texts[..n][..i + 1] == texts[..i + 1];
      MergedIsStripped(texts[..n]);
      JoinHolds(Merged(texts[..n]), texts[n]);
    }
  }
}
