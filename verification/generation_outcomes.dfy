/** Which of its results the generation service gives, and when. */
module GenerationOutcomes {
  import opened Citations
  import opened EvidenceProperties
  import opened EvidenceSelection
  import opened GenerationGrounding
  import opened GenerationServices
  import opened PromptBuilders
  import opened PromptGrounding
  import opened PromptParts
  import opened PythonText
  import opened RetrievalModels

  /** The search found a chunk of the demanded score, and a prompt was built from its evidence. */
  ghost predicate HasPrompt(s: Settings, question: string, chunks: seq<RetrievedChunk>, history: seq<Turn>) {
    && (exists k :: 0 <= k < |chunks| && chunks[k].score >= s.minEvidenceScore)
    && Evidence(s, question, chunks) != []
    && Prompt(s.tools, RequestFor(s, question), Evidence(s, question, chunks), history).Some?
  }

  /** The reply is no refusal, and without an echo of the question it still says something. */
  ghost predicate Answers(s: Settings, question: string, reply: Reply) {
    && reply.Content? && s.judge.abstention(reply.text).None?
    && s.judge.isSubstantive(s.judge.withoutEcho(question, reply.text))
  }

  lemma {:induction false} EnoughExactlyWhen(chunks: seq<RetrievedChunk>, floor: real)
    requires chunks != []
    ensures MaxScore(chunks) >= floor <==> exists k :: 0 <= k < |chunks| && chunks[k].score >= floor
  {
    if |chunks| > 1 {
      var n := |chunks| - 1;
      EnoughExactlyWhen(chunks[..n], floor);
      if k :| 0 <= k < |chunks| && chunks[k].score >= floor {
        assert k < n ==> chunks[..n][k] == chunks[k];
      }
    }
  }

  lemma SufficientExactlyWhen(s: Settings, chunks: seq<RetrievedChunk>)
    ensures !IsInsufficient(s, chunks) <==> exists k :: 0 <= k < |chunks| && chunks[k].score >= s.minEvidenceScore
  {
    if chunks != [] {
      EnoughExactlyWhen(chunks, s.minEvidenceScore);
    }
  }

  /** The judgement of a reply to a prompt: completed for an answer, failed without a reply, else abstained. */
  lemma {:induction false} JudgedStatus(s: Settings, question: string, p: BuiltPrompt, reply: Reply)
    requires IsDigitClass(s.judge.isDigit) && Numbers(p.markers, p.used) && DistinctChunks(p.used) && p.used != []
    ensures
      var r := Judged(s, question, p, reply);
      && (r.status.Completed? <==> Answers(s, question, reply))
      && (r.status.Failed? <==> !reply.Content?)
      && (r.status.Completed? ==> r.answer.Some? && Strip(s.judge.withoutEcho(question, reply.text)) <= r.answer.value && r.reason == None)
      && (r.status.Abstained? ==> r.answer == Some(s.judge.abstainMessage(s.language(question))) && r.citations == [] && r.reason.Some?)
      && (r.status.Failed? ==> r.answer == None && r.citations == [] && r.reason.Some?)
  {
    hide Numbers, DistinctChunks, IsDigitClass, CitationsOf, FinalAnswer, Strip;
    if reply.Content? {
      var cleaned := s.judge.withoutEcho(question, reply.text);
      CitationsAlwaysFound(s.judge.isDigit, cleaned, p);
      AnswerBegins(s.judge.isDigit, cleaned, CitationsOf(s.judge.isDigit, cleaned, p).value);
    }
  }

  /** The final answer begins with the cleaned reply, whole. */
  lemma AnswerBegins(isDigit: DigitClass, cleaned: string, citations: seq<Citation>)
    requires citations != [] && IsDigitClass(isDigit)
    ensures Strip(cleaned) <= FinalAnswer(isDigit, cleaned, citations)
  {
    hide Markers, IsSpace;
    var answer := Strip(cleaned);
    var whole := answer + (" " + citations[0].marker);
    assert whole == answer + " " + citations[0].marker;
    if answer != "" {
      LStripKeeps(whole);
      RStripPrefix(answer, " " + citations[0].marker);
    }
  }

  lemma LStripKeeps(text: string)
    requires text != "" && !IsSpace(text[0])
    ensures LStrip(text) == text
  {
    hide IsSpace;
  }

  lemma {:induction false} RStripPrefix(a: string, b: string)
    requires a != "" && !IsSpace(a[|a| - 1])
    ensures a <= RStrip(a + b)
    decreases |b|
  {
    hide IsSpace;
    if b == "" {
      assert a + b == a;
    } else if IsSpace(b[|b| - 1]) {
      assert (a + b)[..|a + b| - 1] == a + b[..|b| - 1];
      RStripPrefix(a, b[..|b| - 1]);
    }
  }

  /**
   * A request is answered exactly when the search found enough, a prompt
   * could be built from the evidence, and the model replied with an answer;
   * the answer begins with the model's own words. It fails exactly when the
   * prompt is too large or the model gave no reply, and abstains otherwise.
   */
  lemma {:induction false} StatusExactlyWhen(s: Settings, question: string, chunks: seq<RetrievedChunk>, history: seq<Turn>, reply: Reply)
    requires DistinctChunks(chunks) && IsDigitClass(s.judge.isDigit)
    ensures
      var r := Decide(s, question, chunks, history, reply);
      && (r.status.Completed? <==> HasPrompt(s, question, chunks, history) && Answers(s, question, reply))
      && (r.status.Failed? <==>
            && (exists k :: 0 <= k < |chunks| && chunks[k].score >= s.minEvidenceScore) && Evidence(s, question, chunks) != []
            && (!HasPrompt(s, question, chunks, history) || !reply.Content?))
      && (r.status.Completed? ==> r.answer.Some? && Strip(s.judge.withoutEcho(question, reply.text)) <= r.answer.value)
      && (!r.status.Completed? ==> r.citations == [] && r.reason.Some?)
      && (r.status.Abstained? ==> r.answer == Some(s.judge.abstainMessage(s.language(question))))
  {
    SufficientExactlyWhen(s, chunks);
    hide Evidence, Prompt, Numbers, DistinctChunks, IsDigitClass, Judged, IsInsufficient, Strip;
    EvidenceIsFromResults(s, question, chunks);
    var prompt := PromptFor(s, question, chunks, history);
    if prompt.Some? {
      PromptIsGrounded(s.tools, RequestFor(s, question), Evidence(s, question, chunks), history);
      JudgedStatus(s, question, prompt.value, reply);
    }
  }

  /** The service asks again until there is a reply with content, and no longer than it may. */
  lemma {:induction false} FirstReplyIsFirst(reply: nat -> Reply, n: nat, tries: nat)
    requires tries > 0
    ensures
      var (r, calls) := FirstReply(reply, n, tries);
      && n < calls <= n + tries && r == reply(calls - 1)
      && (forall k :: n <= k < calls - 1 ==> !reply(k).Content?)
      && (r.Content? || calls == n + tries)
    decreases tries
  {
    if !reply(n).Content? && tries > 1 {
      FirstReplyIsFirst(reply, n + 1, tries - 1);
    }
  }

  /** With evidence selection there is evidence exactly when some final score reaches 0.18; without it, when there are results. */
  lemma {:induction false} EvidenceExactlyWhen(s: Settings, question: string, chunks: seq<RetrievedChunk>)
    ensures Evidence(s, question, chunks) != [] <==>
      if s.evidenceSelection then exists x :: x in Scored(s.read(question), chunks) && x.score >= 0.18 else chunks != []
  {
    if s.evidenceSelection {
      EmptyExactlyWhen(s.read(question), chunks, MAX_PRIMARY, MAX_SUPPLEMENTARY);
    }
  }
}
