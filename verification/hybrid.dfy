/** Reciprocal rank fusion of the dense and the BM25 ranking, over exact reals. */
module Hybrid {
  import opened Sorting

  /**
   * A chunk id. UUIDs in canonical form sort as strings exactly as the numbers
   * they denote, so ids are numbers here.
   */
  type ChunkId = nat

  datatype Ranked = Ranked(id: ChunkId, score: real)

  const RRF_K := 60
  const HYBRID_POOL := 30

  // ------------------------------------------------------------------ scores

  function Reciprocal(k: nat, rank: nat): (r: real)
    requires rank > 0
    ensures r > 0.0
  {
    1.0 / (k + rank) as real
  }

  /** What the first `n` places of one ranking give to `id`. */
  function ListScore(ranked: seq<ChunkId>, k: nat, n: nat, id: ChunkId): (r: real)
    requires n <= |ranked|
    ensures r >= 0.0
  {
    if n == 0 then 0.0
    else ListScore(ranked, k, n - 1, id) + if ranked[n - 1] == id then Reciprocal(k, n) else 0.0
  }

  /** What the first `n` rankings give to `id`. */
  function Score(lists: seq<seq<ChunkId>>, k: nat, n: nat, id: ChunkId): (r: real)
    requires n <= |lists|
    ensures r >= 0.0
  {
    if n == 0 then 0.0 else Score(lists, k, n - 1, id) + ListScore(lists[n - 1], k, |lists[n - 1]|, id)
  }

  ghost predicate Found(lists: seq<seq<ChunkId>>, id: ChunkId) {
    exists i :: 0 <= i < |lists| && id in lists[i]
  }

  /** `key=lambda item: (-item[1], item[0])`. */
  predicate Leq(a: Ranked, b: Ranked) {
    a.score > b.score || (a.score == b.score && a.id <= b.id)
  }

  lemma LeqIsOrder()
    ensures TotalPreorder(Leq)
    ensures forall a, b :: Leq(a, b) && Leq(b, a) ==> a == b
  {
  }

  ghost predicate DistinctIds(r: seq<Ranked>) {
    forall i, j :: 0 <= i < j < |r| ==> r[i].id != r[j].id
  }

  /**
   * `r` is the fusion of `lists`: every id of some list once, with its total
   * score, best first and ties by id.
   */
  ghost predicate IsFusion(lists: seq<seq<ChunkId>>, k: nat, r: seq<Ranked>) {
    && DistinctIds(r) && Sorted(r, Leq)
    && (forall x :: x in r ==> Found(lists, x.id) && x.score == Score(lists, k, |lists|, x.id))
    && (forall id :: Found(lists, id) ==> Ranked(id, Score(lists, k, |lists|, id)) in r)
  }

  // --------------------------------------------------------------- the loops

  /** The ids met in the first `n` lists and the first `m` places of the next, in order of appearance. */
  ghost predicate Tallied(lists: seq<seq<ChunkId>>, k: nat, n: nat, m: nat, keys: seq<ChunkId>, scores: map<ChunkId, real>)
    requires n <= |lists| && (n == |lists| ==> m == 0) && (n < |lists| ==> m <= |lists[n]|)
  {
    && (forall i, j :: 0 <= i < j < |keys| ==> keys[i] != keys[j])
    && (forall id :: id in keys <==> id in scores)
    && (forall id :: id in scores <==> Met(lists, n, m, id))
    && (forall id :: id in scores ==>
          scores[id] == Score(lists, k, n, id) + if n < |lists| then ListScore(lists[n], k, m, id) else 0.0)
  }

  ghost predicate Met(lists: seq<seq<ChunkId>>, n: nat, m: nat, id: ChunkId)
    requires n <= |lists| && (n < |lists| ==> m <= |lists[n]|)
  {
    (exists i :: 0 <= i < n && id in lists[i]) || (n < |lists| && id in lists[n][..m])
  }

  /** An id not met yet has no score yet. */
  lemma {:induction false} UnmetScoresZero(lists: seq<seq<ChunkId>>, k: nat, n: nat, id: ChunkId)
    requires n <= |lists| && forall i :: 0 <= i < n ==> id !in lists[i]
    ensures Score(lists, k, n, id) == 0.0
  {
    if n > 0 {
      UnmetScoresZero(lists, k, n - 1, id);
      AbsentScoresZero(lists[n - 1], k, |lists[n - 1]|, id);
    }
  }

  lemma {:induction false} AbsentScoresZero(ranked: seq<ChunkId>, k: nat, n: nat, id: ChunkId)
    requires n <= |ranked| && id !in ranked[..n]
    ensures ListScore(ranked, k, n, id) == 0.0
  {
    if n > 0 {
      assert ranked[n - 1] in ranked[..n];
      assert ranked[..n - 1] == ranked[..n][..n - 1];
      AbsentScoresZero(ranked, k, n - 1, id);
    }
  }

  lemma {:induction false} TallyStep(
      lists: seq<seq<ChunkId>>, k: nat, n: nat, m: nat, keys: seq<ChunkId>, scores: map<ChunkId, real>)
    requires n < |lists| && m < |lists[n]| && Tallied(lists, k, n, m, keys, scores)
    ensures var id := lists[n][m];
      Tallied(lists, k, n, m + 1, if id in scores then keys else keys + [id],
        scores[id := (if id in scores then scores[id] else 0.0) + Reciprocal(k, m + 1)])
  {
    hide Reciprocal, Score, ListScore, Met;
    var id := lists[n][m];
    MetStep(lists, n, m);
    if id !in scores {
      FreshScoresZero(lists, k, n, m);
    }
    assert forall x :: x in scores ==> scores[x] == Score(lists, k, n, x) + ListScore(lists[n], k, m, x);
    forall x
      ensures ListScore(lists[n], k, m + 1, x)
           == ListScore(lists[n], k, m, x) + if x == id then Reciprocal(k, m + 1) else 0.0
    {
      ListScoreStep(lists[n], k, m, x);
    }
  }

  lemma ListScoreStep(ranked: seq<ChunkId>, k: nat, m: nat, x: ChunkId)
    requires m < |ranked|
    ensures ListScore(ranked, k, m + 1, x) == ListScore(ranked, k, m, x) + if ranked[m] == x then Reciprocal(k, m + 1) else 0.0
  {
  }

  lemma MetStep(lists: seq<seq<ChunkId>>, n: nat, m: nat)
    requires n < |lists| && m < |lists[n]|
    ensures forall x :: Met(lists, n, m + 1, x) <==> Met(lists, n, m, x) || x == lists[n][m]
  {
    var now, next := lists[n][..m], lists[n][..m + 1];
    assert next == now + [lists[n][m]];
    forall x
      ensures Met(lists, n, m + 1, x) <==> Met(lists, n, m, x) || x == lists[n][m]
    {
      assert x in next <==> x in now || x == lists[n][m];
    }
  }

  lemma FreshScoresZero(lists: seq<seq<ChunkId>>, k: nat, n: nat, m: nat)
    requires n < |lists| && m < |lists[n]| && !Met(lists, n, m, lists[n][m])
    ensures Score(lists, k, n, lists[n][m]) == 0.0 && ListScore(lists[n], k, m, lists[n][m]) == 0.0
  {
    UnmetScoresZero(lists, k, n, lists[n][m]);
    AbsentScoresZero(lists[n], k, m, lists[n][m]);
  }

  lemma {:induction false} TallyNext(lists: seq<seq<ChunkId>>, k: nat, n: nat, keys: seq<ChunkId>, scores: map<ChunkId, real>)
    requires n < |lists| && Tallied(lists, k, n, |lists[n]|, keys, scores)
    ensures Tallied(lists, k, n + 1, 0, keys, scores)
  {
    assert lists[n][..|lists[n]|] == lists[n];
    forall x
      ensures Met(lists, n + 1, 0, x) <==> Met(lists, n, |lists[n]|, x)
    {
      if x in lists[n] {
        assert 0 <= n < n + 1 && x in lists[n];
      }
      if n + 1 < |lists| {
        assert x !in lists[n + 1][..0];
      }
    }
    if n + 1 < |lists| {
      assert forall x: ChunkId {:trigger ListScore(lists[n + 1], k, 0, x)} :: ListScore(lists[n + 1], k, 0, x) == 0.0;
    }
  }

  function Entries(keys: seq<ChunkId>, scores: map<ChunkId, real>): (r: seq<Ranked>)
    requires forall id :: id in keys ==> id in scores
    ensures |r| == |keys| && forall i :: 0 <= i < |r| ==> r[i] == Ranked(keys[i], scores[keys[i]])
  {
    seq(|keys|, i requires 0 <= i < |keys| => assert keys[i] in keys; Ranked(keys[i], scores[keys[i]]))
  }

  /** `reciprocal_rank_fusion`; `keys` is the insertion order of the score dictionary. */
  method ReciprocalRankFusion(lists: seq<seq<ChunkId>>, k: nat) returns (ordered: seq<Ranked>)
    ensures IsFusion(lists, k, ordered)
  {
    hide Tallied, IsFusion, Reciprocal;
    var keys: seq<ChunkId> := [];
    var scores: map<ChunkId, real> := map[];
    TallyEmpty(lists, k);
    for n := 0 to |lists|
      invariant Tallied(lists, k, n, 0, keys, scores)
    {
      var ranked := lists[n];
      for m := 0 to |ranked|
        invariant Tallied(lists, k, n, m, keys, scores)
      {
        var id := ranked[m];
        TallyStep(lists, k, n, m, keys, scores);
        keys, scores := if id in scores then keys else keys + [id],
                        scores[id := (if id in scores then scores[id] else 0.0) + Reciprocal(k, m + 1)];
      }
      TallyNext(lists, k, n, keys, scores);
    }
    TalliedKeys(lists, k, keys, scores);
    ordered := Sort(Entries(keys, scores), Leq);
    TallyIsFusion(lists, k, keys, scores);
  }

  lemma TallyEmpty(lists: seq<seq<ChunkId>>, k: nat)
    ensures Tallied(lists, k, 0, 0, [], map[])
  {
  }

  lemma TalliedKeys(lists: seq<seq<ChunkId>>, k: nat, keys: seq<ChunkId>, scores: map<ChunkId, real>)
    requires Tallied(lists, k, |lists|, 0, keys, scores)
    ensures forall id :: id in keys ==> id in scores
  {
  }

  lemma {:induction false} TallyIsFusion(lists: seq<seq<ChunkId>>, k: nat, keys: seq<ChunkId>, scores: map<ChunkId, real>)
    requires Tallied(lists, k, |lists|, 0, keys, scores)
    ensures IsFusion(lists, k, Sort(Entries(keys, scores), Leq))
  {
    var e := Entries(keys, scores);
    LeqIsOrder();
    SortSorts(e, Leq);
    SortPermutes(e, Leq);
    SortMembers(e, Leq);
    var r := Sort(e, Leq);
    hide Sort, TotalPreorder, Leq;
    assert forall id :: Met(lists, |lists|, 0, id) <==> Found(lists, id);
    forall id | Found(lists, id)
      ensures Ranked(id, Score(lists, k, |lists|, id)) in r
    {
      assert id in keys;
      var i :| 0 <= i < |keys| && keys[i] == id;
      assert e[i] in e;
    }
    forall x | x in r
      ensures Found(lists, x.id) && x.score == Score(lists, k, |lists|, x.id)
    {
      assert x in e;
      var i :| 0 <= i < |e| && e[i] == x;
      assert keys[i] in keys;
    }
    assert NoDups(e);
    NoDupsCarries(e, r);
    assert DistinctIds(r) by {
      forall i, j | 0 <= i < j < |r| ensures r[i].id != r[j].id {
        assert r[i] in r && r[j] in r;
      }
    }
  }

  // ---------------------------------------------------------------- ordering

  ghost predicate Precedes(r: seq<Ranked>, a: ChunkId, b: ChunkId) {
    exists i, j :: 0 <= i < j < |r| && r[i].id == a && r[j].id == b
  }

  /** A higher score comes first, and of equal scores the smaller id. */
  lemma {:induction false} HigherFirst(lists: seq<seq<ChunkId>>, k: nat, r: seq<Ranked>, a: ChunkId, b: ChunkId)
    requires IsFusion(lists, k, r) && Found(lists, a) && Found(lists, b)
    requires Score(lists, k, |lists|, a) > Score(lists, k, |lists|, b) || (Score(lists, k, |lists|, a) == Score(lists, k, |lists|, b) && a < b)
    ensures Precedes(r, a, b)
  {
    hide Score, Found;
    var x, y := Ranked(a, Score(lists, k, |lists|, a)), Ranked(b, Score(lists, k, |lists|, b));
    var i :| 0 <= i < |r| && r[i] == x;
    var j :| 0 <= j < |r| && r[j] == y;
    assert j < i ==> Leq(r[j], r[i]);
    assert i < j;
  }

  /** In a list without repeats an id scores the reciprocal of its place. */
  lemma {:induction false} PlaceScore(ranked: seq<ChunkId>, k: nat, n: nat, p: nat)
    requires NoDups(ranked) && p < n <= |ranked|
    ensures ListScore(ranked, k, n, ranked[p]) == Reciprocal(k, p + 1)
  {
    if p == n - 1 {
      AbsentScoresZero(ranked, k, n - 1, ranked[p]);
    } else {
      PlaceScore(ranked, k, n - 1, p);
    }
  }

  lemma ReciprocalFalls(k: nat, p: nat, q: nat)
    requires 0 < p < q
    ensures Reciprocal(k, p) > Reciprocal(k, q)
  {
    var a, b := (k + p) as real, (k + q) as real;
    var x, y := 1.0 / a, 1.0 / b;
    assert x * a == 1.0 && y * b == 1.0;
    Scale(y, a, b);
    Unscale(y, x, a);
  }

  /** Two last places of lists of `k + 1` beat one first place, and barely. */
  lemma TwoLastBeatOneFirst(k: nat, p: nat, q: nat, top: nat)
    requires 0 < p <= k + 1 && 0 < q <= k + 1 && 0 < top
    ensures Reciprocal(k, p) + Reciprocal(k, q) > Reciprocal(k, top)
  {
    hide Reciprocal;
    if p < k + 1 { ReciprocalFalls(k, p, k + 1); }
    if q < k + 1 { ReciprocalFalls(k, q, k + 1); }
    if top > 1 { ReciprocalFalls(k, 1, top); }
    TwiceLastBeatsFirst(k);
  }

  lemma TwiceLastBeatsFirst(k: nat)
    ensures 2.0 * Reciprocal(k, k + 1) > Reciprocal(k, 1)
  {
    var a, b := (k + 1) as real, (k + (k + 1)) as real;
    var x, y := Reciprocal(k, 1), Reciprocal(k, k + 1);
    assert x * a == 1.0;
    assert y * b == 1.0;
    Scale(y, b, 2.0 * a);
    assert y * (2.0 * a) == (2.0 * y) * a;
    Unscale(x, 2.0 * y, a);
  }

  lemma Scale(y: real, b: real, c: real)
    requires y > 0.0 && b < c
    ensures y * b < y * c
  {
    assert y * (c - b) > 0.0;
    assert y * c == y * b + y * (c - b);
  }

  lemma Unscale(x: real, z: real, a: real)
    requires a > 0.0 && x * a < z * a
    ensures x < z
  {
    if z < x {
      Scale(a, z, x);
    }
  }

  /**
   * Consensus first: with two rankings of at most `k + 1` ids and no repeats,
   * an id both channels found precedes every id only one of them found.
   */
  lemma {:induction false} ConsensusFirst(dense: seq<ChunkId>, bm25: seq<ChunkId>, k: nat, r: seq<Ranked>, both: ChunkId, one: ChunkId)
    requires IsFusion([dense, bm25], k, r) && NoDups(dense) && NoDups(bm25)
    requires |dense| <= k + 1 && |bm25| <= k + 1
    requires both in dense && both in bm25 && (one in dense) != (one in bm25)
    ensures Precedes(r, both, one)
  {
    hide IsFusion, Precedes, Reciprocal;
    var lists := [dense, bm25];
    TwoListScore(lists, k, both);
    TwoListScore(lists, k, one);
    var p :| 0 <= p < |dense| && dense[p] == both;
    var q :| 0 <= q < |bm25| && bm25[q] == both;
    PlaceScore(dense, k, |dense|, p);
    PlaceScore(bm25, k, |bm25|, q);
    var home := if one in dense then dense else bm25;
    var t :| 0 <= t < |home| && home[t] == one;
    PlaceScore(home, k, |home|, t);
    if one in dense {
      AbsentScoresZero(bm25, k, |bm25|, one);
    } else {
      AbsentScoresZero(dense, k, |dense|, one);
    }
    TwoLastBeatOneFirst(k, p + 1, q + 1, t + 1);
    assert both in lists[0] && (one in lists[0] || one in lists[1]);
    HigherFirst(lists, k, r, both, one);
  }

  lemma TwoListScore(lists: seq<seq<ChunkId>>, k: nat, id: ChunkId)
    requires |lists| == 2
    ensures Score(lists, k, 2, id) == ListScore(lists[0], k, |lists[0]|, id) + ListScore(lists[1], k, |lists[1]|, id)
  {
    assert Score(lists, k, 1, id) == Score(lists, k, 0, id) + ListScore(lists[0], k, |lists[0]|, id);
  }

  /** The retrieval service's pools are short enough for consensus to win. */
  lemma ServicePoolsAreShort(dense: seq<ChunkId>, bm25: seq<ChunkId>)
    requires |dense| <= HYBRID_POOL && |bm25| <= HYBRID_POOL
    ensures |dense| <= RRF_K + 1 && |bm25| <= RRF_K + 1
  {
  }

  /** `first`, then the `n` ids from 2 on, then id 1. */
  function EndingInOne(first: seq<ChunkId>, n: nat): seq<ChunkId> {
    first + seq(n, i => i + 2) + [1]
  }

  /**
   * The length bound is sharp: with lists of `k + 2` ids, one last in both
   * lists only ties with the first of one list, and the smaller id wins.
   */
  lemma {:induction false} ConsensusBoundIsSharp(k: nat, r: seq<Ranked>)
    requires IsFusion([EndingInOne([0], k), EndingInOne([], k + 1)], k, r)
    ensures var dense, bm25 := EndingInOne([0], k), EndingInOne([], k + 1);
      && NoDups(dense) && NoDups(bm25) && |dense| == |bm25| == k + 2
      && 1 in dense && 1 in bm25 && 0 in dense && 0 !in bm25
      && Precedes(r, 0, 1)
  {
    var dense, bm25 := EndingInOne([0], k), EndingInOne([], k + 1);
    var lists := [dense, bm25];
    assert |dense| == k + 2 && dense[0] == 0 && dense[k + 1] == 1;
    assert |bm25| == k + 2 && bm25[k + 1] == 1;
    assert NoDups(dense) && NoDups(bm25) && 0 !in bm25;
    hide EndingInOne, IsFusion, Precedes, Reciprocal, ListScore, Score;
    TwoListScore(lists, k, 0);
    TwoListScore(lists, k, 1);
    PlaceScore(dense, k, k + 2, 0);
    PlaceScore(dense, k, k + 2, k + 1);
    PlaceScore(bm25, k, k + 2, k + 1);
    AbsentScoresZero(bm25, k, k + 2, 0);
    TwoAfterLastTieFirst(k);
    assert 0 in lists[0] && 1 in lists[0];
    HigherFirst(lists, k, r, 0, 1);
  }

  lemma TwoAfterLastTieFirst(k: nat)
    ensures Reciprocal(k, k + 2) + Reciprocal(k, k + 2) == Reciprocal(k, 1)
  {
    var a := (k + 1) as real;
    assert (k + (k + 2)) as real == 2.0 * a;
    var x, y := Reciprocal(k, 1), Reciprocal(k, k + 2);
    assert x * a == 1.0 && y * (2.0 * a) == 1.0;
    assert (y + y) * a == x * a;
  }

  ghost predicate AheadIn(ranked: seq<ChunkId>, a: ChunkId, b: ChunkId) {
    exists p, q :: 0 <= p < q < |ranked| && ranked[p] == a && ranked[q] == b
  }

  /** An id ahead of another in every ranking that holds the other precedes it. */
  lemma {:induction false} UnanimousOrder(lists: seq<seq<ChunkId>>, k: nat, r: seq<Ranked>, a: ChunkId, b: ChunkId)
    requires IsFusion(lists, k, r) && Found(lists, b)
    requires forall i :: 0 <= i < |lists| ==> NoDups(lists[i]) && (b in lists[i] ==> AheadIn(lists[i], a, b))
    ensures Precedes(r, a, b)
  {
    var i :| 0 <= i < |lists| && b in lists[i];
    var p, q :| 0 <= p < q < |lists[i]| && lists[i][p] == a && lists[i][q] == b;
    assert a in lists[i];
    hide IsFusion, Precedes, ListScore;
    UnanimousScore(lists, k, |lists|, a, b);
    HigherFirst(lists, k, r, a, b);
  }

  lemma {:induction false} UnanimousScore(lists: seq<seq<ChunkId>>, k: nat, n: nat, a: ChunkId, b: ChunkId)
    requires n <= |lists|
    requires forall i :: 0 <= i < n ==> NoDups(lists[i]) && (b in lists[i] ==> AheadIn(lists[i], a, b))
    ensures Score(lists, k, n, a) >= Score(lists, k, n, b)
    ensures (exists i :: 0 <= i < n && b in lists[i]) ==> Score(lists, k, n, a) > Score(lists, k, n, b)
  {
    if n > 0 {
      UnanimousScore(lists, k, n - 1, a, b);
      var l := lists[n - 1];
      if b in l {
        var p, q :| 0 <= p < q < |l| && l[p] == a && l[q] == b;
        PlaceScore(l, k, |l|, p);
        PlaceScore(l, k, |l|, q);
        ReciprocalFalls(k, p + 1, q + 1);
      } else {
        AbsentScoresZero(l, k, |l|, b);
      }
    }
  }

  // ---------------------------------------------------- independence of order

  lemma {:induction false} ScoreSwap(lists: seq<seq<ChunkId>>, other: seq<seq<ChunkId>>, k: nat, id: ChunkId)
    requires multiset(lists) == multiset(other)
    ensures Score(lists, k, |lists|, id) == Score(other, k, |other|, id)
    decreases |lists|
  {
    assert |lists| == |multiset(lists)| == |multiset(other)| == |other|;
    if lists != [] {
      var n := |lists| - 1;
      var last := lists[n];
      assert last in multiset(other);
      var j :| 0 <= j < |other| && other[j] == last;
      var rest := other[..j] + other[j + 1..];
      WithoutMultiset(lists, n);
      WithoutMultiset(other, j);
      assert lists[..n] + lists[n + 1..] == lists[..n];
      hide Score;
      ScoreSwap(lists[..n], rest, k, id);
      ScorePrefix(lists, lists[..n], k, n, id);
      ScoreLast(lists, k, id);
      ScoreRemove(other, k, j, |other|, id);
    } else {
      assert other == [];
    }
  }

  lemma ScoreLast(lists: seq<seq<ChunkId>>, k: nat, id: ChunkId)
    requires lists != []
    ensures var n := |lists| - 1;
      Score(lists, k, |lists|, id) == Score(lists, k, n, id) + ListScore(lists[n], k, |lists[n]|, id)
  {
  }

  lemma {:induction false} ScorePrefix(lists: seq<seq<ChunkId>>, other: seq<seq<ChunkId>>, k: nat, n: nat, id: ChunkId)
    requires n <= |lists| && n <= |other| && lists[..n] == other[..n]
    ensures Score(lists, k, n, id) == Score(other, k, n, id)
  {
    if n > 0 {
      assert lists[n - 1] == lists[..n][n - 1] == other[n - 1];
      assert lists[..n - 1] == lists[..n][..n - 1] == other[..n - 1];
      ScorePrefix(lists, other, k, n - 1, id);
    }
  }

  lemma {:induction false} ScoreRemove(lists: seq<seq<ChunkId>>, k: nat, j: nat, n: nat, id: ChunkId)
    requires j < n <= |lists|
    ensures var rest := lists[..j] + lists[j + 1..];
      Score(lists, k, n, id) == Score(rest, k, n - 1, id) + ListScore(lists[j], k, |lists[j]|, id)
  {
    hide ListScore;
    var rest := lists[..j] + lists[j + 1..];
    if n == j + 1 {
      ScorePrefix(lists, rest, k, j, id);
    } else {
      ScoreRemove(lists, k, j, n - 1, id);
      assert rest[n - 2] == lists[n - 1];
    }
  }

  lemma {:induction false} FusionIncluded(lists: seq<seq<ChunkId>>, other: seq<seq<ChunkId>>, k: nat, r: seq<Ranked>, r': seq<Ranked>)
    requires multiset(lists) == multiset(other) && IsFusion(lists, k, r) && IsFusion(other, k, r')
    ensures forall x :: x in r ==> x in r'
  {
    forall x | x in r
      ensures x in r'
    {
      var i :| 0 <= i < |lists| && x.id in lists[i];
      assert lists[i] in multiset(lists);
      assert lists[i] in multiset(other);
      assert Found(other, x.id);
      ScoreSwap(lists, other, k, x.id);
    }
  }

  /** The fusion does not depend on the order in which the rankings are given. */
  lemma {:induction false} FusionIgnoresListOrder(lists: seq<seq<ChunkId>>, other: seq<seq<ChunkId>>, k: nat, r: seq<Ranked>, r': seq<Ranked>)
    requires multiset(lists) == multiset(other) && IsFusion(lists, k, r) && IsFusion(other, k, r')
    ensures r == r'
  {
    FusionIncluded(lists, other, k, r, r');
    FusionIncluded(other, lists, k, r', r);
    FusionShape(lists, k, r);
    FusionShape(other, k, r');
    LeqIsOrder();
    hide *;
    SortedMembersUnique(r, r', Leq) by { NoTiesHere(r); }
  }

  lemma NoTiesHere(r: seq<Ranked>)
    ensures NoTies(r, Leq)
  {
  }

  lemma FusionShape(lists: seq<seq<ChunkId>>, k: nat, r: seq<Ranked>)
    requires IsFusion(lists, k, r)
    ensures NoDups(r) && Sorted(r, Leq)
  {
  }

  // ------------------------------------------------------------------ fusing

  /**
   * `fuse_dense_and_bm25`: the fused ids up to the candidate limit, and the
   * score of every fused id.
   */
  method FuseDenseAndBm25(dense: seq<ChunkId>, bm25: seq<ChunkId>, k: nat, limit: int)
    returns (fusedIds: seq<ChunkId>, rrfScores: map<ChunkId, real>, ghost fused: seq<Ranked>)
    ensures IsFusion([dense, bm25], k, fused)
    ensures |fusedIds| == if |fused| < 1 || |fused| < limit then |fused| else if limit < 1 then 1 else limit
    ensures forall i :: 0 <= i < |fusedIds| ==> fusedIds[i] == fused[i].id
    ensures NoDups(fusedIds)
    ensures forall id :: id in rrfScores <==> Found([dense, bm25], id)
    ensures forall id :: id in rrfScores ==> rrfScores[id] == Score([dense, bm25], k, 2, id)
  {
    var lists := [dense, bm25];
    var ordered := ReciprocalRankFusion(lists, k);
    fused := ordered;
    var n := if limit < 1 then 1 else limit;
    fusedIds := [];
    rrfScores := map[];
    hide Score, Found, Leq;
    for i := 0 to |ordered|
      invariant |fusedIds| == if i < n then i else n
      invariant forall j :: 0 <= j < |fusedIds| ==> fusedIds[j] == ordered[j].id
      invariant forall id :: id in rrfScores <==> exists j :: 0 <= j < i && ordered[j].id == id
      invariant forall id :: id in rrfScores ==> rrfScores[id] == Score(lists, k, 2, id)
    {
      assert ordered[i] in ordered;
      if i < n {
        fusedIds := fusedIds + [ordered[i].id];
      }
      rrfScores := rrfScores[ordered[i].id := ordered[i].score];
    }
    forall id | Found(lists, id)
      ensures exists j :: 0 <= j < |ordered| && ordered[j].id == id
    {
      var x := Ranked(id, Score(lists, k, |lists|, id));
      assert x in ordered;
    }
    forall id | id in rrfScores
      ensures Found(lists, id)
    {
      var j :| 0 <= j < |ordered| && ordered[j].id == id;
      assert ordered[j] in ordered;
    }
  }
}
