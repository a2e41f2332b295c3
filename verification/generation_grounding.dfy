/** Grounding of answers, whatever the language model replies. */
module GenerationGrounding {
  import opened Citations
  import opened DecimalText
  import opened EvidenceProperties
  import opened EvidenceSelection
  import opened GenerationServices
  import opened PromptBuilders
  import opened PromptGrounding
  import opened PromptParts
  import opened PythonText
  import opened RetrievalModels
  import opened Sorting

  // ------------------------------------------------------------------ evidence

  /** The evidence is some of the search results, each at most once. */
  lemma {:induction false} EvidenceIsFromResults(s: Settings, question: string, chunks: seq<RetrievedChunk>)
    requires DistinctChunks(chunks)
    ensures DistinctChunks(Evidence(s, question, chunks))
    ensures forall c :: c in Evidence(s, question, chunks) ==> c in chunks
  {
    if s.evidenceSelection {
      SelectionPartitions(s.read(question), chunks, MAX_PRIMARY, MAX_SUPPLEMENTARY);
      hide Select;
      var r := Select(s.read(question), chunks, MAX_PRIMARY, MAX_SUPPLEMENTARY);
      var all := r.primary + r.supplementary + r.discarded;
      PrefixDistinct(r.primary + r.supplementary, r.discarded);
      assert forall c :: c in r.primary + r.supplementary ==> c in all;
    }
  }

  lemma PrefixDistinct(a: seq<RetrievedChunk>, b: seq<RetrievedChunk>)
    requires DistinctChunks(a + b)
    ensures DistinctChunks(a)
  {
    assert forall i :: 0 <= i < |a| ==> (a + b)[i] == a[i];
  }

  lemma MembersOf(a: seq<RetrievedChunk>, b: seq<RetrievedChunk>)
    requires multiset(a) <= multiset(b)
    ensures forall c :: c in a ==> c in b
  {
    assert forall c :: c in a ==> c in multiset(a) && c in multiset(b);
  }

  // -------------------------------------------------------------------- markers

  lemma BracketsAreNotSpace()
    ensures !IsSpace('[') && !IsSpace(']')
  {
  }

  lemma OccursInSlice(isDigit: DigitClass, text: string, a: nat, b: nat, p: nat, m: string)
    requires a <= p && p + |m| + 2 <= b <= |text|
    ensures Occurs(isDigit, text[a..b], p - a, m) <==> Occurs(isDigit, text, p, m)
  {
    var part := text[a..b];
    var inner, outer := part[p - a + 1..p - a + 1 + |m|], text[p + 1..p + 1 + |m|];
    assert forall k :: 0 <= k < |m| ==> inner[k] == part[p - a + 1 + k] == text[p + 1 + k] == outer[k];
    assert inner == outer;
  }

  /** A marker does not reach into whitespace around the text. */
  lemma OccursInside(isDigit: DigitClass, text: string, a: nat, b: nat, p: nat, m: string)
    requires a <= b <= |text| && Occurs(isDigit, text, p, m)
    requires forall i :: 0 <= i < |text| && !(a <= i < b) ==> IsSpace(text[i])
    ensures a <= p && p + |m| + 2 <= b
  {
    BracketsAreNotSpace();
    hide IsSpace;
    assert text[p] == '[' && text[p + 1 + |m|] == ']';
  }

  /** Stripping an answer takes away no marker. */
  lemma {:induction false} MarkersOfStrip(isDigit: DigitClass, text: string, m: string)
    requires IsDigitClass(isDigit)
    ensures m in Markers(isDigit, Strip(text)) <==> m in Markers(isDigit, text)
  {
    hide IsSpace, Strip, Markers, Occurs;
    MarkersAreOccurrences(isDigit, text, m);
    MarkersAreOccurrences(isDigit, Strip(text), m);
    var a, b := StripIsSlice(text);
    if p: nat :| Occurs(isDigit, text, p, m) {
      OccursInside(isDigit, text, a, b, p, m);
      OccursInSlice(isDigit, text, a, b, p, m);
    }
    if p: nat :| Occurs(isDigit, text[a..b], p, m) {
      OccursFits(isDigit, text[a..b], p, m);
      OccursInSlice(isDigit, text, a, b, a + p, m);
    }
  }

  lemma OccursFits(isDigit: DigitClass, text: string, p: nat, m: string)
    requires Occurs(isDigit, text, p, m)
    ensures p + |m| + 2 <= |text|
  {
  }

  lemma NoMarkersOfStrip(isDigit: DigitClass, text: string)
    requires IsDigitClass(isDigit)
    ensures Markers(isDigit, Strip(text)) == [] <==> Markers(isDigit, text) == []
  {
    var a, b := Markers(isDigit, Strip(text)), Markers(isDigit, text);
    hide Markers, Strip;
    if a != [] {
      MarkersOfStrip(isDigit, text, a[0]);
    }
    if b != [] {
      MarkersOfStrip(isDigit, text, b[0]);
    }
  }

  lemma OccursAtEnd(isDigit: DigitClass, before: string, m: string, marker: string)
    requires m != "" && (forall k :: 0 <= k < |m| ==> isDigit(m[k])) && marker == "[" + m + "]"
    ensures Occurs(isDigit, before + marker, |before|, m)
  {
    var text, p := before + marker, |before|;
    assert text[p..] == marker;
    assert text[p + 1..p + 1 + |m|] == marker[1..1 + |m|] == m;
    assert text[p] == marker[0] && text[p + 1 + |m|] == marker[1 + |m|];
  }

  /** A marker written at the end of an answer is found there. */
  lemma {:induction false} AppendedMarker(isDigit: DigitClass, before: string, m: string, marker: string)
    requires IsDigitClass(isDigit) && m != "" && (forall k :: 0 <= k < |m| ==> isDigit(m[k])) && marker == "[" + m + "]"
    ensures m in Markers(isDigit, Strip(before + marker))
  {
    hide Strip, Markers, IsSpace, Occurs;
    MarkersOfStrip(isDigit, before + marker, m);
    MarkersAreOccurrences(isDigit, before + marker, m);
    OccursAtEnd(isDigit, before, m, marker);
  }

  lemma MarkerIsDigits(isDigit: DigitClass, i: nat)
    requires IsDigitClass(isDigit)
    ensures Marker(i) != "" && forall k :: 0 <= k < |Marker(i)| ==> isDigit(Marker(i)[k])
  {
    hide Str;
  }

  // ------------------------------------------------------------------ citations

  /** Whatever the reply, there are citations, and they are grounded in the prompt's chunks. */
  lemma {:induction false} CitationsAlwaysFound(isDigit: DigitClass, cleaned: string, p: BuiltPrompt)
    requires IsDigitClass(isDigit) && Numbers(p.markers, p.used) && DistinctChunks(p.used) && p.used != []
    ensures CitationsOf(isDigit, cleaned, p).Some?
    ensures AreGrounded(CitationsOf(isDigit, cleaned, p).value, p.used)
  {
    MarkersAreOccurrences(isDigit, cleaned, "");
    CitationsAreGrounded(Markers(isDigit, cleaned), p.markers, p.used);
    SalvageIsGrounded(p.used, p.markers);
    hide Markers, CitationsFor, Salvage, AreGrounded, Numbers, DistinctChunks, Cite;
  }

  /** `c`'s marker can be read in the text. */
  ghost predicate IsShown(isDigit: DigitClass, text: string, c: Citation) {
    exists m :: m in Markers(isDigit, text) && c.marker == "[" + m + "]"
  }

  /** The final answer always shows some marker. */
  lemma {:induction false} FinalAnswerHasMarker(isDigit: DigitClass, cleaned: string, citations: seq<Citation>, used: seq<RetrievedChunk>)
    requires IsDigitClass(isDigit) && citations != [] && AreGrounded(citations, used)
    ensures Markers(isDigit, FinalAnswer(isDigit, cleaned, citations)) != []
    ensures Markers(isDigit, cleaned) == [] ==> IsShown(isDigit, FinalAnswer(isDigit, cleaned, citations), citations[0])
    ensures Markers(isDigit, cleaned) != [] ==> FinalAnswer(isDigit, cleaned, citations) == Strip(cleaned)
  {
    hide Strip, Markers, Marker, CitesAt, IsSpace;
    NoMarkersOfStrip(isDigit, cleaned);
    assert CitesOne(citations[0], used);
    var i :| CitesAt(citations[0], used, i);
    MarkerText(citations[0], used, i);
    MarkerIsDigits(isDigit, i);
    AppendedMarker(isDigit, Strip(cleaned) + " ", Marker(i), citations[0].marker);
  }

  lemma MarkerText(c: Citation, used: seq<RetrievedChunk>, i: nat)
    requires CitesAt(c, used, i)
    ensures c.marker == "[" + Marker(i) + "]"
  {
    hide Marker;
  }

  /** The judgement of a reply to a prompt whose markers number its chunks. */
  lemma {:induction false} JudgedIsGrounded(s: Settings, question: string, p: BuiltPrompt, reply: Reply)
    requires IsDigitClass(s.judge.isDigit) && Numbers(p.markers, p.used) && DistinctChunks(p.used) && p.used != []
    ensures
      var r := Judged(s, question, p, reply);
      && r.retrieved == p.used
      && (r.status.Completed? ==>
            r.citations != [] && AreGrounded(r.citations, p.used) && r.answer.Some? && Markers(s.judge.isDigit, r.answer.value) != [])
      && (r.reason == Some("citation_validation_failed") ==>
            reply.Content? && s.judge.abstention(reply.text) == Some("citation_validation_failed"))
  {
    hide Numbers, AreGrounded, DistinctChunks, IsDigitClass, CitationsOf, FinalAnswer, Markers;
    if reply.Content? {
      var cleaned := s.judge.withoutEcho(question, reply.text);
      CitationsAlwaysFound(s.judge.isDigit, cleaned, p);
      FinalAnswerHasMarker(s.judge.isDigit, cleaned, CitationsOf(s.judge.isDigit, cleaned, p).value, p.used);
    }
  }

  /**
   * Grounding for every possible reply: a completed answer has citations, all
   * of distinct chunks of this request's search results, each under the
   * marker of its own chunk, and shows a marker. The refusal for failed
   * citation validation never happens; that reason can only be the model's.
   */
  lemma {:induction false} GroundedForEveryReply(s: Settings, question: string, chunks: seq<RetrievedChunk>, history: seq<Turn>, reply: Reply)
    requires DistinctChunks(chunks) && IsDigitClass(s.judge.isDigit)
    ensures
      var r := Decide(s, question, chunks, history, reply);
      && (forall c :: c in r.retrieved ==> c in chunks)
      && (r.status.Completed? ==>
            && r.citations != [] && AreGrounded(r.citations, r.retrieved) && DistinctChunks(r.retrieved)
            && r.answer.Some? && Markers(s.judge.isDigit, r.answer.value) != [])
      && (r.reason == Some("citation_validation_failed") ==>
            reply.Content? && s.judge.abstention(reply.text) == Some("citation_validation_failed"))
  {
    hide Evidence, Prompt, Numbers, AreGrounded, DistinctChunks, IsDigitClass, Markers, MaxScore, Judged;
    var evidence := Evidence(s, question, chunks);
    EvidenceIsFromResults(s, question, chunks);
    var prompt := PromptFor(s, question, chunks, history);
    if prompt.Some? {
      PromptIsGrounded(s.tools, RequestFor(s, question), evidence, history);
      MembersOf(prompt.value.used, evidence);
      JudgedIsGrounded(s, question, prompt.value, reply);
    }
  }

  // ------------------------------------------------------ markers that are missing

  /**
   * The markers of an answer's citations can all be read in the answer
   * exactly when some marker of the reply resolves or it has none. A reply
   * with unknown markers only gets a citation of the first chunk that the
   * answer does not show.
   */
  lemma {:induction false} CitationsShownExactlyWhen(isDigit: DigitClass, cleaned: string, p: BuiltPrompt)
    requires IsDigitClass(isDigit) && Numbers(p.markers, p.used) && DistinctChunks(p.used) && p.used != []
    ensures CitationsOf(isDigit, cleaned, p).Some?
    ensures
      var citations := CitationsOf(isDigit, cleaned, p).value;
      (forall c :: c in citations ==> IsShown(isDigit, FinalAnswer(isDigit, cleaned, citations), c))
      <==> Markers(isDigit, cleaned) == [] || exists m :: m in Markers(isDigit, cleaned) && m in p.markers
  {
    hide Markers, CitationsFor, CitationsOf, FinalAnswer, IsShown, Cite, Numbers, AreGrounded, DistinctChunks, IsDigitClass, Strip;
    CitationsAlwaysFound(isDigit, cleaned, p);
    var citations := CitationsOf(isDigit, cleaned, p).value;
    FinalAnswerHasMarker(isDigit, cleaned, citations, p.used);
    if m :| m in Markers(isDigit, cleaned) && m in p.markers {
      KnownMarkerCites(isDigit, cleaned, p, m);
      OwnAreShown(isDigit, cleaned, p);
    } else {
      UnknownMarkersSalvage(isDigit, cleaned, p);
    }
  }

  lemma KnownMarkerCites(isDigit: DigitClass, cleaned: string, p: BuiltPrompt, m: string)
    requires Numbers(p.markers, p.used) && DistinctChunks(p.used) && m in Markers(isDigit, cleaned) && m in p.markers
    ensures CitationsFor(Markers(isDigit, cleaned), p.markers, p.used) != []
  {
    hide Markers, Marker, CitationsFor;
    var ordered := Markers(isDigit, cleaned);
    var n :| 0 <= n < |ordered| && ordered[n] == m;
    ResolvesTo(m, p.markers, p.used);
    EveryMarkerCited(ordered, p.markers, p.used, n);
  }

  /** A citation for a marker of the answer is shown by it. */
  lemma OwnAreShown(isDigit: DigitClass, cleaned: string, p: BuiltPrompt)
    requires IsDigitClass(isDigit) && CitationsFor(Markers(isDigit, cleaned), p.markers, p.used) != []
    ensures
      var own := CitationsFor(Markers(isDigit, cleaned), p.markers, p.used);
      CitationsOf(isDigit, cleaned, p) == Some(own) && forall c :: c in own ==> IsShown(isDigit, Strip(cleaned), c)
    ensures Markers(isDigit, cleaned) != []
  {
    hide Markers, Strip, Resolve;
    var ordered := Markers(isDigit, cleaned);
    var own := CitationsFor(ordered, p.markers, p.used);
    CitationsFollow(ordered, p.markers, p.used);
    forall c | c in own
      ensures IsShown(isDigit, Strip(cleaned), c)
    {
      var k :| 0 <= k < |own| && own[k] == c;
      assert CitesRank(own[k], ordered, p.markers, p.used);
      MarkersOfStrip(isDigit, cleaned, ordered[c.rank - 1]);
    }
  }

  lemma UnknownMarkersSalvage(isDigit: DigitClass, cleaned: string, p: BuiltPrompt)
    requires IsDigitClass(isDigit) && Numbers(p.markers, p.used) && DistinctChunks(p.used) && p.used != []
    requires forall m :: m in Markers(isDigit, cleaned) ==> m !in p.markers
    ensures CitationsOf(isDigit, cleaned, p) == Some([Cite(p.used[0], 1, "1")])
    ensures !IsShown(isDigit, Strip(cleaned), Cite(p.used[0], 1, "1"))
  {
    hide Markers, Strip, Marker;
    var ordered := Markers(isDigit, cleaned);
    SalvageIsGrounded(p.used, p.markers);
    NothingResolves(ordered, p.markers, p.used);
    FirstMarker();
    assert Marker(0) in p.markers;
    if m :| m in Markers(isDigit, Strip(cleaned)) && Cite(p.used[0], 1, "1").marker == "[" + m + "]" {
      SameBrackets("1", m);
      MarkersOfStrip(isDigit, cleaned, "1");
    }
  }

  lemma SameBrackets(a: string, b: string)
    requires "[" + a + "]" == "[" + b + "]"
    ensures a == b
  {
    assert a == ("[" + a + "]")[1..|a| + 1] && b == ("[" + b + "]")[1..|b| + 1];
  }

  lemma {:induction false} NothingResolves(ordered: seq<string>, markers: map<string, nat>, chunks: seq<RetrievedChunk>)
    requires forall m :: m in ordered ==> m !in markers
    ensures CitationsFor(ordered, markers, chunks) == []
  {
    if ordered != [] {
      assert ordered[|ordered| - 1] in ordered;
      NothingResolves(ordered[..|ordered| - 1], markers, chunks);
    }
  }
}
