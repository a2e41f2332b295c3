/** Embedding a batch through a provider that may fail on any call. */
module EmbeddingBisection {
  import opened IndexingModels

  /** What becomes of one call to the provider. */
  datatype Fate = Up | TimedOut | Down

  /** A provider that is pointwise when it answers: `fate(n)` is the fate of its n-th call. */
  datatype Backend = Backend(embed: string -> Vector, fate: nat -> Fate)

  /** What one call with all the texts gives when it succeeds. */
  function EmbedAll(embed: string -> Vector, texts: seq<string>): (r: seq<Vector>)
    ensures |r| == |texts|
  {
    if texts == [] then [] else [embed(texts[0])] + EmbedAll(embed, texts[1..])
  }

  /** `_embed_texts` as call number `n`. */
  function Call(backend: Backend, texts: seq<string>, n: nat): Outcome<seq<Vector>> {
    match backend.fate(n)
    case Up => Ok(EmbedAll(backend.embed, texts))
    case TimedOut => Raise(EmbeddingTimeout)
    case Down => Raise(ModelUnavailable)
  }

  /** `_embed_single_with_retries` with `tries` calls left: the outcome and the calls made so far. */
  function Single(backend: Backend, text: string, n: nat, tries: nat): (Outcome<seq<Vector>>, nat)
    requires tries > 0
    decreases tries
  {
    var r := Call(backend, [text], n);
    if r.Ok? || tries == 1 then (r, n + 1) else Single(backend, text, n + 1, tries - 1)
  }

  /** `_embed_batch_with_split` starting at call number `n`. */
  function Split(backend: Backend, texts: seq<string>, n: nat): (Outcome<seq<Vector>>, nat)
    decreases |texts|
  {
    var r := Call(backend, texts, n);
    if r.Ok? then (r, n + 1)
    else if |texts| == 1 then Single(backend, texts[0], n + 1, 3)
    else if |texts| > 1 then
      var mid := |texts| / 2;
      var (left, n1) := Split(backend, texts[..mid], n + 1);
      if left.Raise? then (left, n1)
      else
        var (right, n2) := Split(backend, texts[mid..], n1);
        if right.Raise? then (right, n2) else (Ok(left.value + right.value), n2)
    else (r, n + 1)
  }

  class Provider {
    const backend: Backend
    const dimensions: nat
    var calls: nat

    constructor (backend: Backend, dimensions: nat)
      ensures this.backend == backend && this.dimensions == dimensions && calls == 0
    {
      this.backend, this.dimensions, calls := backend, dimensions, 0;
    }

    /** `_embed_texts`: every failure of the provider becomes a timeout or an unavailable model. */
    method EmbedTexts(texts: seq<string>) returns (r: Outcome<seq<Vector>>)
      modifies this
      ensures r == Call(backend, texts, old(calls)) && calls == old(calls) + 1
    {
      r := Call(backend, texts, calls);
      calls := calls + 1;
    }

    /** `_embed_single_with_retries`. */
    method EmbedSingleWithRetries(text: string) returns (r: Outcome<seq<Vector>>)
      modifies this
      ensures (r, calls) == Single(backend, text, old(calls), 3)
    {
      r := EmbedTexts([text]);
      var attempt := 1;
      while r.Raise? && attempt < 3
        invariant 1 <= attempt <= 3
        invariant r.Raise? && attempt < 3 ==>
          Single(backend, text, calls, 3 - attempt) == Single(backend, text, old(calls), 3)
        invariant r.Ok? || attempt == 3 ==> (r, calls) == Single(backend, text, old(calls), 3)
      {
        r := EmbedTexts([text]);
        attempt := attempt + 1;
      }
    }

    /** `_embed_batch_with_split`. */
    method EmbedBatchWithSplit(texts: seq<string>) returns (r: Outcome<seq<Vector>>)
      modifies this
      ensures (r, calls) == Split(backend, texts, old(calls))
      decreases |texts|
    {
      r := EmbedTexts(texts);
      if r.Raise? {
        if |texts| == 1 {
          r := EmbedSingleWithRetries(texts[0]);
        } else if |texts| > 1 {
          var mid := |texts| / 2;
          r := EmbedBatchWithSplit(texts[..mid]);
          if r.Ok? {
            var left := r.value;
            r := EmbedBatchWithSplit(texts[mid..]);
            if r.Ok? {
              r := Ok(left + r.value);
            }
          }
        }
      }
    }
  }

  // ------------------------------------------------------------- meaning

  lemma EmbedAllCons(embed: string -> Vector, texts: seq<string>)
    requires texts != []
    ensures EmbedAll(embed, texts) == [embed(texts[0])] + EmbedAll(embed, texts[1..])
  {
  }

  lemma {:induction false} EmbedAllConcat(embed: string -> Vector, a: seq<string>, b: seq<string>)
    ensures EmbedAll(embed, a + b) == EmbedAll(embed, a) + EmbedAll(embed, b)
  {
    if a == [] {
      assert a + b == b;
    } else {
      EmbedAllConcat(embed, a[1..], b);
      assert (a + b)[1..] == a[1..] + b && (a + b)[0] == a[0];
      EmbedAllCons(embed, a);
      EmbedAllCons(embed, a + b);
      hide EmbedAll;
    }
  }

  lemma {:induction false} EmbedAllAt(embed: string -> Vector, texts: seq<string>, i: nat)
    requires i < |texts|
    ensures EmbedAll(embed, texts)[i] == embed(texts[i])
  {
    if i > 0 {
      EmbedAllAt(embed, texts[1..], i - 1);
    }
  }

  lemma {:induction false} SingleOutcome(backend: Backend, text: string, n: nat, tries: nat)
    requires tries > 0
    ensures
      var (r, m) := Single(backend, text, n, tries);
      && n < m <= n + tries
      && (r.Ok? ==> r.value == [backend.embed(text)] && backend.fate(m - 1).Up?)
      && (r.Raise? ==> m == n + tries && forall i :: n <= i < m ==> !backend.fate(i).Up?)
    decreases tries
  {
    if Call(backend, [text], n).Raise? && tries > 1 {
      SingleOutcome(backend, text, n + 1, tries - 1);
    }
  }

  /** However the batch was split, success gives what one undivided call would have given. */
  lemma {:induction false} SplitPreservesMeaning(backend: Backend, texts: seq<string>, n: nat)
    ensures
      var (r, m) := Split(backend, texts, n);
      r.Ok? ==> r.value == EmbedAll(backend.embed, texts)
    decreases |texts|
  {
    if Call(backend, texts, n).Raise? {
      if |texts| == 1 {
        SingleOutcome(backend, texts[0], n + 1, 3);
      } else if |texts| > 1 {
        var mid := |texts| / 2;
        SplitInHalves(backend, texts, n);
        SplitPreservesMeaning(backend, texts[..mid], n + 1);
        SplitPreservesMeaning(backend, texts[mid..], Split(backend, texts[..mid], n + 1).1);
        EmbedAllConcat(backend.embed, texts[..mid], texts[mid..]);
        assert texts[..mid] + texts[mid..] == texts;
      }
    }
  }

  /** The four calls before call number `m` all failed. */
  predicate FourFailures(backend: Backend, m: nat) {
    m >= 4 && !backend.fate(m - 4).Up? && !backend.fate(m - 3).Up? && !backend.fate(m - 2).Up? && !backend.fate(m - 1).Up?
  }

  /**
   * Splitting a non-empty batch fails exactly when its last four calls in a
   * row failed (all of them its own), and it makes fewer than five calls for each text.
   */
  lemma {:induction false} SplitFailsExactlyWhen(backend: Backend, texts: seq<string>, n: nat)
    requires texts != []
    ensures
      var (r, m) := Split(backend, texts, n);
      && n < m < n + 5 * |texts|
      && (r.Raise? <==> FourFailures(backend, m))
      && (r.Raise? ==> m >= n + 4)
    decreases |texts|
  {
    if Call(backend, texts, n).Raise? {
      if |texts| == 1 {
        SplitOfOne(backend, texts, n);
      } else {
        SplitInHalves(backend, texts, n);
        hide Split, Call, EmbedAll, FourFailures;
        var mid := |texts| / 2;
        SplitFailsExactlyWhen(backend, texts[..mid], n + 1);
        SplitFailsExactlyWhen(backend, texts[mid..], Split(backend, texts[..mid], n + 1).1);
      }
    }
  }

  lemma SplitInHalves(backend: Backend, texts: seq<string>, n: nat)
    requires |texts| > 1 && Call(backend, texts, n).Raise?
    ensures
      var (left, n1) := Split(backend, texts[..|texts| / 2], n + 1);
      var (right, n2) := Split(backend, texts[|texts| / 2..], n1);
      var (r, m) := Split(backend, texts, n);
      if left.Raise? then (r, m) == (left, n1)
      else m == n2 && r == if right.Raise? then right else Ok(left.value + right.value)
  {
    hide Call, EmbedAll, Single;
  }

  lemma SplitOfOne(backend: Backend, texts: seq<string>, n: nat)
    requires |texts| == 1 && Call(backend, texts, n).Raise?
    ensures
      var (r, m) := Split(backend, texts, n);
      && n < m < n + 5
      && (r.Raise? <==> FourFailures(backend, m))
      && (r.Raise? ==> m == n + 4)
  {
    hide EmbedAll, Single;
    SingleOutcome(backend, texts[0], n + 1, 3);
    var (r, m) := Single(backend, texts[0], n + 1, 3);
    if r.Raise? {
      assert !backend.fate(n + 1).Up? && !backend.fate(n + 2).Up? && !backend.fate(n + 3).Up?;
    }
  }

  /** A provider that never fails four times running embeds every non-empty batch. */
  lemma ThreeOutagesAreSurvived(backend: Backend, texts: seq<string>, n: nat)
    requires texts != [] && forall m: nat :: !FourFailures(backend, m)
    ensures Split(backend, texts, n).0 == Ok(EmbedAll(backend.embed, texts))
  {
    hide EmbedAll, FourFailures;
    SplitFailsExactlyWhen(backend, texts, n);
    SplitPreservesMeaning(backend, texts, n);
  }
}
