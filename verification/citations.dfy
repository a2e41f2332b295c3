/** Citation markers in an answer and the citations they stand for. */
module Citations {
  import opened DecimalText
  import opened PromptParts
  import opened PythonText
  import opened RetrievalModels

  datatype Citation = Citation(
    chunkId: nat, documentId: nat, versionId: nat, rank: nat, relevanceScore: real, excerpt: string,
    startChar: int, endChar: int, marker: string)

  /** Regex `\d`: any class of digits with the ASCII ones and without brackets. */
  type DigitClass = char -> bool

  ghost predicate IsDigitClass(isDigit: DigitClass) {
    (forall c :: IsAsciiDigit(c) ==> isDigit(c)) && !isDigit('[') && !isDigit(']')
  }

  const EXCERPT_CHARS := 240

  // --------------------------------------------------------------- extraction

  /** The end of the digits that start at `i`. */
  function DigitsEnd(isDigit: DigitClass, text: string, i: nat): (j: nat)
    requires i <= |text|
    ensures i <= j <= |text|
    ensures forall k :: i <= k < j ==> isDigit(text[k])
    ensures j < |text| ==> !isDigit(text[j])
    decreases |text| - i
  {
    if i == |text| || !isDigit(text[i]) then i else DigitsEnd(isDigit, text, i + 1)
  }

  /** The pattern `\[(\d+)\]` matches at `i`. */
  predicate MatchesAt(isDigit: DigitClass, text: string, i: nat)
    requires i < |text|
  {
    var j := DigitsEnd(isDigit, text, i + 1);
    text[i] == '[' && j > i + 1 && j < |text| && text[j] == ']'
  }

  /** The groups of `finditer` from position `i` on. */
  function Matches(isDigit: DigitClass, text: string, i: nat): seq<string>
    requires i <= |text|
    decreases |text| - i
  {
    if i == |text| then []
    else if MatchesAt(isDigit, text, i) then
      var j := DigitsEnd(isDigit, text, i + 1);
      [text[i + 1..j]] + Matches(isDigit, text, j + 1)
    else Matches(isDigit, text, i + 1)
  }

  /** The distinct elements in order of first appearance. */
  function Firsts(list: seq<string>): (r: seq<string>)
  {
    if list == [] then []
    else
      var before := Firsts(list[..|list| - 1]);
      if list[|list| - 1] in before then before else before + [list[|list| - 1]]
  }

  function Markers(isDigit: DigitClass, content: string): seq<string> {
    Firsts(Matches(isDigit, content, 0))
  }

  /** `extract_markers`. */
  method ExtractMarkers(isDigit: DigitClass, content: string) returns (ordered: seq<string>)
    ensures ordered == Markers(isDigit, content)
  {
    var seen: set<string> := {};
    ordered := [];
    var i := 0;
    ghost var found: seq<string> := [];
    while i < |content|
      invariant i <= |content|
      invariant found + Matches(isDigit, content, i) == Matches(isDigit, content, 0)
      invariant ordered == Firsts(found)
      invariant forall m :: m in seen <==> m in ordered
      decreases |content| - i
    {
      if MatchesAt(isDigit, content, i) {
        var j := DigitsEnd(isDigit, content, i + 1);
        var marker := content[i + 1..j];
        Regroup(found, [marker], Matches(isDigit, content, j + 1), Matches(isDigit, content, i), Matches(isDigit, content, 0));
        assert (found + [marker])[..|found|] == found;
        found := found + [marker];
        if marker !in seen {
          seen := seen + {marker};
          ordered := ordered + [marker];
        }
        i := j + 1;
      } else {
        i := i + 1;
      }
    }
    assert found == Matches(isDigit, content, 0);
  }

  /** `"[" + m + "]"` with digits `m` starts at `p`. */
  ghost predicate Occurs(isDigit: DigitClass, text: string, p: nat, m: string) {
    && m != "" && (forall k :: 0 <= k < |m| ==> isDigit(m[k]))
    && p + |m| + 2 <= |text| && text[p] == '[' && text[p + 1..p + 1 + |m|] == m && text[p + 1 + |m|] == ']'
  }

  lemma {:induction false} DigitsStop(isDigit: DigitClass, text: string, i: nat, e: nat)
    requires i <= e < |text| && (forall k :: i <= k < e ==> isDigit(text[k])) && !isDigit(text[e])
    ensures DigitsEnd(isDigit, text, i) == e
    decreases e - i
  {
    if i < e {
      DigitsStop(isDigit, text, i + 1, e);
    }
  }

  /** No earlier match can run over a marker: a match holds no second bracket. */
  lemma {:induction false} OccurrenceIsMatched(isDigit: DigitClass, text: string, i: nat, p: nat, m: string)
    requires IsDigitClass(isDigit) && Occurs(isDigit, text, p, m) && i <= p
    ensures m in Matches(isDigit, text, i)
    decreases p - i
  {
    if i == p {
      forall k | p + 1 <= k < p + 1 + |m|
        ensures isDigit(text[k])
      {
        assert text[k] == text[p + 1..p + 1 + |m|][k - p - 1];
      }
      DigitsStop(isDigit, text, p + 1, p + 1 + |m|);
    } else if MatchesAt(isDigit, text, i) {
      var j := DigitsEnd(isDigit, text, i + 1);
      assert j < p;
      OccurrenceIsMatched(isDigit, text, j + 1, p, m);
    } else {
      OccurrenceIsMatched(isDigit, text, i + 1, p, m);
    }
  }

  lemma {:induction false} MatchOccurs(isDigit: DigitClass, text: string, i: nat, m: string)
    requires i <= |text| && m in Matches(isDigit, text, i)
    ensures exists p :: i <= p && Occurs(isDigit, text, p, m)
    decreases |text| - i
  {
    if MatchesAt(isDigit, text, i) {
      var j := DigitsEnd(isDigit, text, i + 1);
      if m == text[i + 1..j] {
        assert Occurs(isDigit, text, i, m);
      } else {
        MatchOccurs(isDigit, text, j + 1, m);
      }
    } else {
      MatchOccurs(isDigit, text, i + 1, m);
    }
  }

  lemma {:induction false} FirstsMembers(list: seq<string>)
    ensures forall m :: m in Firsts(list) <==> m in list
    ensures forall i, j :: 0 <= i < j < |Firsts(list)| ==> Firsts(list)[i] != Firsts(list)[j]
  {
    if list != [] {
      var n := |list| - 1;
      FirstsMembers(list[..n]);
      assert forall m :: m in list <==> m in list[..n] || m == list[n];
    }
  }

  /** The markers extracted are exactly those that occur in the answer, each once. */
  lemma {:induction false} MarkersAreOccurrences(isDigit: DigitClass, text: string, m: string)
    requires IsDigitClass(isDigit)
    ensures m in Markers(isDigit, text) <==> exists p :: Occurs(isDigit, text, p, m)
    ensures forall i, j :: 0 <= i < j < |Markers(isDigit, text)| ==> Markers(isDigit, text)[i] != Markers(isDigit, text)[j]
  {
    hide Matches, Firsts, Occurs;
    FirstsMembers(Matches(isDigit, text, 0));
    if m in Markers(isDigit, text) {
      MatchOccurs(isDigit, text, 0, m);
    }
    if p :| Occurs(isDigit, text, p, m) {
      OccurrenceIsMatched(isDigit, text, 0, p, m);
    }
  }

  // --------------------------------------------------------------- validation

  /** `{chunk.chunk_id: chunk for chunk in chunks}.get(id)`: the last one wins. */
  function LastWithId(chunks: seq<RetrievedChunk>, id: nat): Option<RetrievedChunk> {
    if chunks == [] then None
    else if chunks[|chunks| - 1].chunkId == id then Some(chunks[|chunks| - 1])
    else LastWithId(chunks[..|chunks| - 1], id)
  }

  function FirstWithId(chunks: seq<RetrievedChunk>, id: nat): Option<RetrievedChunk> {
    if chunks == [] then None
    else if chunks[0].chunkId == id then Some(chunks[0])
    else FirstWithId(chunks[1..], id)
  }

  function Cite(chunk: RetrievedChunk, rank: nat, marker: string): Citation {
    Citation(chunk.chunkId, chunk.documentId, chunk.versionId, rank, chunk.score,
      Excerpt(Strip(chunk.text), EXCERPT_CHARS), chunk.startChar, chunk.endChar, "[" + marker + "]")
  }

  /** The chunk a marker leads to, if it is known and the chunk is in the prompt. */
  function Resolve(marker: string, markers: map<string, nat>, chunks: seq<RetrievedChunk>): Option<RetrievedChunk> {
    if marker in markers then LastWithId(chunks, markers[marker]) else None
  }

  /** One citation for each marker that resolves; ranks count all markers. */
  function CitationsFor(ordered: seq<string>, markers: map<string, nat>, chunks: seq<RetrievedChunk>): seq<Citation> {
    if ordered == [] then []
    else
      var n := |ordered| - 1;
      var before := CitationsFor(ordered[..n], markers, chunks);
      var chunk := Resolve(ordered[n], markers, chunks);
      if chunk.None? then before else before + [Cite(chunk.value, n + 1, ordered[n])]
  }

  function NoneIfEmpty(citations: seq<Citation>): (r: Option<seq<Citation>>)
    ensures r.Some? ==> r.value != []
  {
    if citations == [] then None else Some(citations)
  }

  /** `validate_citations`. */
  method ValidateCitations(isDigit: DigitClass, answer: string, markers: map<string, nat>, chunks: seq<RetrievedChunk>)
      returns (r: Option<seq<Citation>>)
    ensures r == NoneIfEmpty(CitationsFor(Markers(isDigit, answer), markers, chunks))
  {
    hide Cite, Resolve;
    var citations: seq<Citation> := [];
    var ordered := ExtractMarkers(isDigit, answer);
    for n := 0 to |ordered|
      invariant citations == CitationsFor(ordered[..n], markers, chunks)
    {
      assert ordered[..n + 1][..n] == ordered[..n];
      var chunk := Resolve(ordered[n], markers, chunks);
      if chunk.Some? {
        citations := citations + [Cite(chunk.value, n + 1, ordered[n])];
      }
    }
    assert ordered[..|ordered|] == ordered;
    r := NoneIfEmpty(citations);
  }

  function BestScored(chunks: seq<RetrievedChunk>): RetrievedChunk
    requires chunks != []
  {
    if |chunks| == 1 then chunks[0]
    else
      var best := BestScored(chunks[..|chunks| - 1]);
      if chunks[|chunks| - 1].score > best.score then chunks[|chunks| - 1] else best
  }

  /** `salvage_top_chunk_citation`. */
  function Salvage(chunks: seq<RetrievedChunk>, markers: map<string, nat>): (r: Option<seq<Citation>>)
    ensures r.Some? ==> r.value != []
  {
    if chunks == [] then None
    else
      var preferred := if "1" in markers then FirstWithId(chunks, markers["1"]) else None;
      Some([Cite(if preferred.Some? then preferred.value else BestScored(chunks), 1, "1")])
  }

  // ---------------------------------------------------------------- grounding

  lemma {:induction false} LastWithIdIs(chunks: seq<RetrievedChunk>, i: nat)
    requires DistinctChunks(chunks) && i < |chunks|
    ensures LastWithId(chunks, chunks[i].chunkId) == Some(chunks[i])
  {
    if i < |chunks| - 1 {
      LastWithIdIs(chunks[..|chunks| - 1], i);
    }
  }

  /** `c` cites chunk number `i` of the prompt under that chunk's own marker. */
  ghost predicate CitesAt(c: Citation, used: seq<RetrievedChunk>, i: nat) {
    && i < |used|
    && c.chunkId == used[i].chunkId && c.documentId == used[i].documentId && c.versionId == used[i].versionId
    && c.relevanceScore == used[i].score && c.startChar == used[i].startChar && c.endChar == used[i].endChar
    && c.marker == "[" + Marker(i) + "]"
    && (var text := Strip(used[i].text);
        c.excerpt == if |text| <= 240 then text else text[..240] + ['\U{2026}'])
  }

  ghost predicate CitesOne(c: Citation, used: seq<RetrievedChunk>) {
    exists i :: CitesAt(c, used, i)
  }

  /** Every citation is of a chunk of the prompt, and no two are of the same chunk. */
  ghost predicate AreGrounded(citations: seq<Citation>, used: seq<RetrievedChunk>) {
    && (forall k :: 0 <= k < |citations| ==> CitesOne(citations[k], used))
    && (forall k, l :: 0 <= k < l < |citations| ==> citations[k].chunkId != citations[l].chunkId && citations[k].rank < citations[l].rank)
  }

  lemma {:induction false} ResolvesTo(marker: string, markers: map<string, nat>, used: seq<RetrievedChunk>)
    requires Numbers(markers, used) && DistinctChunks(used)
    ensures Resolve(marker, markers, used).Some? <==> exists i :: 0 <= i < |used| && marker == Marker(i)
    ensures forall i :: 0 <= i < |used| && marker == Marker(i) ==> Resolve(marker, markers, used) == Some(used[i])
  {
    hide Marker, LastWithId;
    if i :| 0 <= i < |used| && marker == Marker(i) {
      LastWithIdIs(used, i);
    }
    forall i | 0 <= i < |used| && marker == Marker(i)
      ensures Resolve(marker, markers, used) == Some(used[i])
    {
      LastWithIdIs(used, i);
    }
  }

  /** `c` is the citation for the marker of its rank. */
  ghost predicate CitesRank(c: Citation, ordered: seq<string>, markers: map<string, nat>, chunks: seq<RetrievedChunk>) {
    && 1 <= c.rank <= |ordered|
    && var chunk := Resolve(ordered[c.rank - 1], markers, chunks);
       chunk.Some? && c == Cite(chunk.value, c.rank, ordered[c.rank - 1])
  }

  lemma RankCarries(c: Citation, ordered: seq<string>, n: nat, markers: map<string, nat>, chunks: seq<RetrievedChunk>)
    requires n <= |ordered| && CitesRank(c, ordered[..n], markers, chunks)
    ensures CitesRank(c, ordered, markers, chunks) && c.rank <= n
  {
    hide Resolve, Cite;
    assert ordered[..n][c.rank - 1] == ordered[c.rank - 1];
  }

  lemma LastCitesRank(ordered: seq<string>, markers: map<string, nat>, chunks: seq<RetrievedChunk>)
    requires ordered != [] && Resolve(ordered[|ordered| - 1], markers, chunks).Some?
    ensures
      var c := Cite(Resolve(ordered[|ordered| - 1], markers, chunks).value, |ordered|, ordered[|ordered| - 1]);
      CitesRank(c, ordered, markers, chunks) && c.rank == |ordered|
  {
    hide Resolve, Strip, Excerpt;
  }

  /** The citations are those of the markers that resolve, in the markers' order. */
  lemma {:induction false} CitationsFollow(ordered: seq<string>, markers: map<string, nat>, chunks: seq<RetrievedChunk>)
    ensures
      forall k :: 0 <= k < |CitationsFor(ordered, markers, chunks)| ==>
        CitesRank(CitationsFor(ordered, markers, chunks)[k], ordered, markers, chunks)
    ensures RanksRise(CitationsFor(ordered, markers, chunks))
  {
    hide Resolve, CitesRank, Cite;
    if ordered != [] {
      var n := |ordered| - 1;
      var before := CitationsFor(ordered[..n], markers, chunks);
      CitationsFollow(ordered[..n], markers, chunks);
      forall k | 0 <= k < |before|
        ensures CitesRank(before[k], ordered, markers, chunks) && before[k].rank <= n
      {
        RankCarries(before[k], ordered, n, markers, chunks);
      }
      if Resolve(ordered[n], markers, chunks).Some? {
        LastCitesRank(ordered, markers, chunks);
      }
    }
  }

  ghost predicate RanksRise(citations: seq<Citation>) {
    forall k, l :: 0 <= k < l < |citations| ==> citations[k].rank < citations[l].rank
  }

  lemma {:induction false} EveryMarkerCited(ordered: seq<string>, markers: map<string, nat>, chunks: seq<RetrievedChunk>, n: nat)
    requires n < |ordered| && Resolve(ordered[n], markers, chunks).Some?
    ensures Cite(Resolve(ordered[n], markers, chunks).value, n + 1, ordered[n]) in CitationsFor(ordered, markers, chunks)
  {
    hide Cite, Resolve;
    if n < |ordered| - 1 {
      EveryMarkerCited(ordered[..|ordered| - 1], markers, chunks, n);
    }
  }

  lemma CitedAt(c: Citation, ordered: seq<string>, markers: map<string, nat>, used: seq<RetrievedChunk>) returns (i: nat)
    requires Numbers(markers, used) && DistinctChunks(used) && CitesRank(c, ordered, markers, used)
    ensures CitesAt(c, used, i) && ordered[c.rank - 1] == Marker(i)
  {
    hide Marker, Resolve, Numbers, Cite, CitesAt;
    var marker := ordered[c.rank - 1];
    ResolvesTo(marker, markers, used);
    i :| 0 <= i < |used| && marker == Marker(i);
    CiteCitesAt(used, i, c.rank);
  }

  /**
   * The citations of an answer are one for each of its markers that the
   * prompt gave out, each of that marker's own chunk, in order of appearance.
   */
  lemma {:induction false} CitationsAreGrounded(ordered: seq<string>, markers: map<string, nat>, used: seq<RetrievedChunk>)
    requires Numbers(markers, used) && DistinctChunks(used)
    requires forall i, j :: 0 <= i < j < |ordered| ==> ordered[i] != ordered[j]
    ensures AreGrounded(CitationsFor(ordered, markers, used), used)
    ensures
      forall i :: 0 <= i < |used| && Marker(i) in ordered ==>
        exists c :: c in CitationsFor(ordered, markers, used) && CitesAt(c, used, i)
  {
    var all := CitationsFor(ordered, markers, used);
    CitationsFollow(ordered, markers, used);
    hide Marker, Resolve, Numbers, CitationsFor, CitesAt, CitesRank;
    forall k | 0 <= k < |all|
      ensures CitesOne(all[k], used)
    {
      var i := CitedAt(all[k], ordered, markers, used);
    }
    forall k, l | 0 <= k < l < |all|
      ensures all[k].chunkId != all[l].chunkId
    {
      DifferentRanks(all[k], all[l], ordered, markers, used);
    }
    forall i | 0 <= i < |used| && Marker(i) in ordered
      ensures exists c :: c in all && CitesAt(c, used, i)
    {
      var n :| 0 <= n < |ordered| && ordered[n] == Marker(i);
      ResolvesTo(ordered[n], markers, used);
      EveryMarkerCited(ordered, markers, used, n);
      CiteCitesAt(used, i, n + 1);
    }
  }

  lemma CiteCitesAt(used: seq<RetrievedChunk>, i: nat, rank: nat)
    requires i < |used|
    ensures CitesAt(Cite(used[i], rank, Marker(i)), used, i)
  {
    hide Marker, Strip;
  }

  lemma DifferentRanks(a: Citation, b: Citation, ordered: seq<string>, markers: map<string, nat>, used: seq<RetrievedChunk>)
    requires Numbers(markers, used) && DistinctChunks(used)
    requires forall i, j :: 0 <= i < j < |ordered| ==> ordered[i] != ordered[j]
    requires CitesRank(a, ordered, markers, used) && CitesRank(b, ordered, markers, used) && a.rank < b.rank
    ensures a.chunkId != b.chunkId
  {
    hide Marker, Resolve, Numbers, Cite;
    var i := CitedAt(a, ordered, markers, used);
    var j := CitedAt(b, ordered, markers, used);
    assert i != j;
  }

  lemma FirstMarker()
    ensures Marker(0) == "1"
  {
    assert Str(1) == [Digit(1)];
  }

  /** With markers numbered from 1, a salvaged citation is of the first chunk; the score is never looked at. */
  lemma SalvageIsGrounded(used: seq<RetrievedChunk>, markers: map<string, nat>)
    requires Numbers(markers, used)
    ensures used == [] <==> Salvage(used, markers).None?
    ensures used != [] ==> Salvage(used, markers) == Some([Cite(used[0], 1, "1")]) && AreGrounded([Cite(used[0], 1, "1")], used)
  {
    FirstMarker();
    hide Marker, Cite, CitesAt, Strip;
    if used != [] {
      assert Marker(0) in markers && markers[Marker(0)] == used[0].chunkId;
      assert FirstWithId(used, used[0].chunkId) == Some(used[0]);
      CiteCitesAt(used, 0, 1);
      assert CitesOne(Cite(used[0], 1, "1"), used);
    }
  }
}
