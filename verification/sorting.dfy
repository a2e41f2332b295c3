/** Stable sorting by a total preorder, the meaning of Python's `sorted` and `list.sort`. */
module Sorting {

  ghost predicate TotalPreorder<T(!new)>(leq: (T, T) -> bool) {
    && (forall x, y :: leq(x, y) || leq(y, x))
    && (forall x, y, z :: leq(x, y) && leq(y, z) ==> leq(x, z))
  }

  ghost predicate Sorted<T>(s: seq<T>, leq: (T, T) -> bool) {
    forall i, j :: 0 <= i < j < |s| ==> leq(s[i], s[j])
  }

  /** No two elements of `s` tie. */
  ghost predicate NoTies<T>(s: seq<T>, leq: (T, T) -> bool) {
    forall x, y :: x in s && y in s && leq(x, y) && leq(y, x) ==> x == y
  }

  function Insert<T>(x: T, s: seq<T>, leq: (T, T) -> bool): seq<T> {
    if s == [] then [x]
    else if leq(x, s[0]) then [x] + s
    else [s[0]] + Insert(x, s[1..], leq)
  }

  function Sort<T>(s: seq<T>, leq: (T, T) -> bool): seq<T> {
    if s == [] then [] else Insert(s[0], Sort(s[1..], leq), leq)
  }

  lemma {:induction false} InsertPermutes<T>(x: T, s: seq<T>, leq: (T, T) -> bool)
    ensures multiset(Insert(x, s, leq)) == multiset(s) + multiset{x}
  {
    if s != [] && !leq(x, s[0]) {
      InsertPermutes(x, s[1..], leq);
      assert s == [s[0]] + s[1..];
    }
  }

  lemma {:induction false} SortPermutes<T>(s: seq<T>, leq: (T, T) -> bool)
    ensures multiset(Sort(s, leq)) == multiset(s)
  {
    if s != [] {
      SortPermutes(s[1..], leq);
      InsertPermutes(s[0], Sort(s[1..], leq), leq);
      TailMultiset(s);
    }
  }

  lemma {:induction false} SortMembers<T>(s: seq<T>, leq: (T, T) -> bool)
    ensures |Sort(s, leq)| == |s|
    ensures forall x :: x in Sort(s, leq) <==> x in s
  {
    hide Sort;
    SortPermutes(s, leq);
    SameMembers(Sort(s, leq), s);
    assert |multiset(Sort(s, leq))| == |multiset(s)|;
  }

  lemma {:induction false} InsertIn<T>(x: T, s: seq<T>, leq: (T, T) -> bool)
    ensures forall y :: y in Insert(x, s, leq) <==> y == x || y in s
  {
    if s != [] && !leq(x, s[0]) {
      InsertIn(x, s[1..], leq);
      assert s == [s[0]] + s[1..];
    }
  }

  lemma {:induction false} InsertSorts<T(!new)>(x: T, s: seq<T>, leq: (T, T) -> bool)
    requires TotalPreorder(leq) && Sorted(s, leq)
    ensures Sorted(Insert(x, s, leq), leq)
  {
    if s != [] {
      if leq(x, s[0]) {
        forall j | 0 <= j < |s| ensures leq(x, s[j]) {
          if j > 0 {
            assert leq(s[0], s[j]);
          }
        }
      } else {
        InsertSorts(x, s[1..], leq);
        InsertIn(x, s[1..], leq);
        var r := Insert(x, s[1..], leq);
        forall j | 0 <= j < |r| ensures leq(s[0], r[j]) {
          assert r[j] in r;
          if r[j] != x {
            var k :| 0 <= k < |s[1..]| && s[1..][k] == r[j];
            assert s[k + 1] == r[j];
          }
        }
        SortedCons(s[0], r, leq);
      }
    }
  }

  lemma SortedCons<T>(x: T, s: seq<T>, leq: (T, T) -> bool)
    requires Sorted(s, leq) && forall j :: 0 <= j < |s| ==> leq(x, s[j])
    ensures Sorted([x] + s, leq)
  {
  }

  lemma {:induction false} SortSorts<T(!new)>(s: seq<T>, leq: (T, T) -> bool)
    requires TotalPreorder(leq)
    ensures Sorted(Sort(s, leq), leq)
  {
    if s != [] {
      SortSorts(s[1..], leq);
      InsertSorts(s[0], Sort(s[1..], leq), leq);
    }
  }

  lemma HeadLeast<T>(s: seq<T>, leq: (T, T) -> bool, k: nat)
    requires Sorted(s, leq) && k < |s|
    ensures k == 0 || leq(s[0], s[k])
  {
  }

  /** Without ties there is only one sorted arrangement. */
  lemma {:induction false} SortedUnique<T>(a: seq<T>, b: seq<T>, leq: (T, T) -> bool)
    requires Sorted(a, leq) && Sorted(b, leq) && multiset(a) == multiset(b) && NoTies(a, leq)
    ensures a == b
  {
    assert |a| == |multiset(a)| == |multiset(b)| == |b|;
    if a != [] {
      var x, y := a[0], b[0];
      SameMembers(a, b);
      assert x in a && y in b;
      var i :| 0 <= i < |b| && b[i] == x;
      var j :| 0 <= j < |a| && a[j] == y;
      HeadLeast(b, leq, i);
      HeadLeast(a, leq, j);
      assert x == y;
      TailMultiset(a);
      TailMultiset(b);
      SortedUnique(a[1..], b[1..], leq);
      assert a == [x] + a[1..] && b == [x] + b[1..];
    }
  }

  lemma TailMultiset<T>(s: seq<T>)
    requires s != []
    ensures multiset(s[1..]) == multiset(s) - multiset{s[0]}
  {
    assert s == [s[0]] + s[1..];
  }

  /** Taking out one element. */
  lemma WithoutMultiset<T>(s: seq<T>, i: nat)
    requires i < |s|
    ensures multiset(s[..i] + s[i + 1..]) == multiset(s) - multiset{s[i]}
  {
    assert s == s[..i] + [s[i]] + s[i + 1..];
  }

  lemma SameMembers<T>(a: seq<T>, b: seq<T>)
    requires multiset(a) == multiset(b)
    ensures forall x :: x in a <==> x in b
  {
    assert forall x :: x in a <==> x in multiset(a);
    assert forall x :: x in b <==> x in multiset(b);
  }

  // ------------------------------------------------- lists without repeats

  ghost predicate NoDups<T>(s: seq<T>) {
    forall i, j :: 0 <= i < j < |s| ==> s[i] != s[j]
  }

  lemma TwiceInMultiset<T>(s: seq<T>, i: nat, j: nat)
    requires i < j < |s| && s[i] == s[j]
    ensures multiset(s)[s[i]] >= 2
  {
    assert s == s[..i] + [s[i]] + s[i + 1..j] + [s[j]] + s[j + 1..];
  }

  lemma OnceInMultiset<T>(s: seq<T>, i: nat)
    requires i < |s| && NoDups(s)
    ensures multiset(s)[s[i]] == 1
  {
    assert s == s[..i] + [s[i]] + s[i + 1..];
    assert s[i] !in s[..i] && s[i] !in s[i + 1..];
  }

  /** A rearrangement of a list without repeats has none. */
  lemma {:induction false} NoDupsCarries<T>(a: seq<T>, b: seq<T>)
    requires NoDups(a) && multiset(a) == multiset(b)
    ensures NoDups(b)
  {
    forall i, j | 0 <= i < j < |b|
      ensures b[i] != b[j]
    {
      if b[i] == b[j] {
        TwiceInMultiset(b, i, j);
        assert b[i] in multiset(a);
        var k :| 0 <= k < |a| && a[k] == b[i];
        OnceInMultiset(a, k);
      }
    }
  }

  lemma FirstMember<T>(s: seq<T>)
    ensures s != [] ==> s[0] in s
  {
  }

  /** Without its first element a repeat-free list has all members but that one. */
  lemma {:induction false} TailMembers<T>(s: seq<T>)
    requires s != [] && NoDups(s)
    ensures NoDups(s[1..]) && forall x :: x in s[1..] <==> x in s && x != s[0]
  {
    forall x | x in s && x != s[0]
      ensures x in s[1..]
    {
      var k :| 0 <= k < |s| && s[k] == x;
      assert s[1..][k - 1] == x;
    }
  }

  /** Two sorted lists without repeats or ties that have the same members are the same list. */
  lemma {:induction false} SortedMembersUnique<T>(a: seq<T>, b: seq<T>, leq: (T, T) -> bool)
    requires NoDups(a) && NoDups(b) && Sorted(a, leq) && Sorted(b, leq) && NoTies(a, leq)
    requires forall x :: x in a <==> x in b
    ensures a == b
  {
    FirstMember(a);
    FirstMember(b);
    if a != [] && b != [] {
      var i :| 0 <= i < |b| && b[i] == a[0];
      var j :| 0 <= j < |a| && a[j] == b[0];
      HeadLeast(b, leq, i);
      HeadLeast(a, leq, j);
      assert a[0] == b[0];
      TailMembers(a);
      TailMembers(b);
      SortedMembersUnique(a[1..], b[1..], leq);
      assert a == [a[0]] + a[1..] && b == [b[0]] + b[1..];
    }
  }
}
