/** Answering a question: the way from search results to a persisted, cited answer. */
module GenerationServices {
  import opened Citations
  import opened ContextDedupe
  import opened EvidenceSelection
  import opened PromptBuilders
  import opened PromptParts
  import opened PythonText
  import opened RetrievalModels

  /** What becomes of one call to the language model. */
  datatype Reply = Content(text: string) | TimedOut | Unavailable

  datatype Status = Completed | Abstained | Failed

  datatype GenerationResult = GenerationResult(
    status: Status, answer: Option<string>, reason: Option<string>, citations: seq<Citation>, retrieved: seq<RetrievedChunk>)

  datatype Search = Found(chunks: seq<RetrievedChunk>) | KnowledgeBaseNotFound | RetrievalFailed

  datatype Outcome = InvalidQuestion | MissingKnowledgeBase | Returned(result: GenerationResult)

  /** The judgements on a model reply, which are regular expressions and word counts. */
  datatype Judge = Judge(
    abstention: string -> Option<string>, withoutEcho: (string, string) -> string, isSubstantive: string -> bool,
    isDigit: DigitClass, abstainMessage: string -> string)

  datatype Settings = Settings(
    tools: TextTools, read: string -> Reader, evidenceSelection: bool, templates: Templates, config: Config,
    judge: Judge, language: string -> string, minEvidenceScore: real)

  datatype Message = Message(role: Role, content: string, status: Option<Status>, number: nat)

  // ----------------------------------------------------------------- decisions

  /** The chunks that go to the prompt builder. */
  function Evidence(s: Settings, question: string, chunks: seq<RetrievedChunk>): seq<RetrievedChunk> {
    if s.evidenceSelection then
      var r := Select(s.read(question), chunks, MAX_PRIMARY, MAX_SUPPLEMENTARY);
      r.primary + r.supplementary
    else chunks
  }

  function RequestFor(s: Settings, question: string): Request {
    Request(s.templates, s.config, question, s.language(question))
  }

  predicate IsInsufficient(s: Settings, chunks: seq<RetrievedChunk>) {
    chunks == [] || MaxScore(chunks) < s.minEvidenceScore
  }

  function Abstain(s: Settings, question: string, reason: string, retrieved: seq<RetrievedChunk>): GenerationResult {
    GenerationResult(Abstained, Some(s.judge.abstainMessage(s.language(question))), Some(reason), [], retrieved)
  }

  function Fail(reason: string, retrieved: seq<RetrievedChunk>): GenerationResult {
    GenerationResult(Failed, None, Some(reason), [], retrieved)
  }

  /** The prompt of a request, unless it is answered without one. */
  function PromptFor(s: Settings, question: string, chunks: seq<RetrievedChunk>, history: seq<Turn>): Option<BuiltPrompt> {
    if IsInsufficient(s, chunks) || Evidence(s, question, chunks) == [] then None
    else Prompt(s.tools, RequestFor(s, question), Evidence(s, question, chunks), history)
  }

  function FinalAnswer(isDigit: DigitClass, cleaned: string, citations: seq<Citation>): string
    requires citations != []
  {
    var answer := Strip(cleaned);
    if Markers(isDigit, answer) == [] then Strip(answer + " " + citations[0].marker) else answer
  }

  /** The citations of a cleaned reply: its own, or else one for the top chunk. */
  function CitationsOf(isDigit: DigitClass, cleaned: string, p: BuiltPrompt): (r: Option<seq<Citation>>)
    ensures r.Some? ==> r.value != []
  {
    var own := NoneIfEmpty(CitationsFor(Markers(isDigit, cleaned), p.markers, p.used));
    if own.None? then Salvage(p.used, p.markers) else own
  }

  /** From the model's reply to the result. */
  function Judged(s: Settings, question: string, p: BuiltPrompt, reply: Reply): GenerationResult {
    match reply
    case TimedOut => Fail("generation_timeout", p.used)
    case Unavailable => Fail("model_unavailable", p.used)
    case Content(content) =>
      var abstention := s.judge.abstention(content);
      var cleaned := s.judge.withoutEcho(question, content);
      if abstention.Some? then Abstain(s, question, abstention.value, p.used)
      else if !s.judge.isSubstantive(cleaned) then Abstain(s, question, "empty_or_echo_answer", p.used)
      else
        var citations := CitationsOf(s.judge.isDigit, cleaned, p);
        if citations.None? then Abstain(s, question, "citation_validation_failed", p.used)
        else
          GenerationResult(Completed, Some(FinalAnswer(s.judge.isDigit, cleaned, citations.value)), None, citations.value, p.used)
  }

  /** The result for search results, when the model's final reply is `reply`. */
  function Decide(s: Settings, question: string, chunks: seq<RetrievedChunk>, history: seq<Turn>, reply: Reply): GenerationResult {
    if IsInsufficient(s, chunks) || Evidence(s, question, chunks) == [] then Abstain(s, question, "insufficient_evidence", chunks)
    else
      var p := PromptFor(s, question, chunks, history);
      if p.None? then Fail("prompt_too_large", chunks) else Judged(s, question, p.value, reply)
  }

  /** The first reply with content among `tries` calls from call number `n` on, or the last failure. */
  function FirstReply(reply: nat -> Reply, n: nat, tries: nat): (Reply, nat)
    requires tries > 0
    decreases tries
  {
    if reply(n).Content? || tries == 1 then (reply(n), n + 1) else FirstReply(reply, n + 1, tries - 1)
  }

  // --------------------------------------------------------------- the service

  class LlmProvider {
    const reply: nat -> Reply
    var calls: nat

    constructor (reply: nat -> Reply)
      ensures this.reply == reply && calls == 0
    {
      this.reply, calls := reply, 0;
    }

    method Complete() returns (r: Reply)
      modifies this
      ensures r == reply(old(calls)) && calls == old(calls) + 1
    {
      r := reply(calls);
      calls := calls + 1;
    }
  }

  /** Question and answer in turn, numbered from 1. */
  ghost predicate IsTranscript(messages: seq<Message>) {
    && |messages| % 2 == 0
    && forall i :: 0 <= i < |messages| ==>
         messages[i].number == i + 1 && messages[i].role == if i % 2 == 0 then User else Assistant
  }

  function MaxNumber(messages: seq<Message>): nat {
    if messages == [] then 0
    else Max(MaxNumber(messages[..|messages| - 1]), messages[|messages| - 1].number)
  }

  function TurnsOf(messages: seq<Message>): seq<Turn> {
    seq(|messages|, i requires 0 <= i < |messages| => Turn(messages[i].role, messages[i].content))
  }

  function TextOr(answer: Option<string>): string {
    if answer.Some? then answer.value else ""
  }

  /** The generation service on one conversation. */
  class GenerationService {
    const settings: Settings
    const llm: LlmProvider
    const retryDelays: nat
    /** The stored messages in order of their sequence numbers. */
    var messages: seq<Message>

    ghost predicate Valid()
      reads this
    {
      IsTranscript(messages)
    }

    constructor (settings: Settings, llm: LlmProvider, retryDelays: nat)
      ensures this.settings == settings && this.llm == llm && this.retryDelays == retryDelays && messages == [] && Valid()
    {
      this.settings, this.llm, this.retryDelays, messages := settings, llm, retryDelays, [];
    }

    /** `_complete_with_retries`. */
    method CompleteWithRetries() returns (r: Reply)
      modifies llm
      ensures (r, llm.calls) == FirstReply(llm.reply, old(llm.calls), retryDelays + 1)
    {
      var attempts := Max(1, retryDelays + 1);
      var attempt := 0;
      r := Unavailable;
      while attempt < attempts
        invariant 0 <= attempt <= attempts
        invariant attempt < attempts ==>
          FirstReply(llm.reply, llm.calls, attempts - attempt) == FirstReply(llm.reply, old(llm.calls), attempts)
        invariant attempt == attempts ==> (r, llm.calls) == FirstReply(llm.reply, old(llm.calls), attempts)
      {
        r := llm.Complete();
        if r.Content? {
          return;
        }
        attempt := attempt + 1;
      }
    }

    /** `_resolve_history`. */
    function History(history: Option<seq<Turn>>): seq<Turn>
      reads this
    {
      if history.Some? then ClampHistory(settings.config, history.value)
      else LastTurns(TurnsOf(messages), HistoryLimit(settings.config))
    }

    /** `_persist_turn`: the question and the answer take the next two numbers. */
    method PersistTurn(question: string, result: GenerationResult)
      requires Valid()
      modifies this`messages
      ensures Valid()
      ensures messages == old(messages) + [
        Message(User, question, None, |old(messages)| + 1),
        Message(Assistant, TextOr(result.answer), Some(result.status), |old(messages)| + 2)]
    {
      LastNumber(messages);
      var next := MaxNumber(messages) + 1;
      messages := messages + [Message(User, question, None, next)];
      messages := messages + [Message(Assistant, TextOr(result.answer), Some(result.status), next + 1)];
    }

    /**
     * `generate`. The result is the decision for the first usable reply, and
     * every returned result adds its question and answer to the conversation;
     * the model is called only when a prompt was built.
     */
    method Generate(text: string, history: Option<seq<Turn>>, search: Search) returns (r: Outcome)
      requires Valid()
      modifies this`messages, llm
      ensures Valid()
      ensures Strip(text) == "" <==> r == InvalidQuestion
      ensures Strip(text) != "" && search.KnowledgeBaseNotFound? <==> r == MissingKnowledgeBase
      ensures !r.Returned? ==> messages == old(messages) && llm.calls == old(llm.calls)
      ensures r.Returned? ==> messages == old(messages) + [
        Message(User, Strip(text), None, |old(messages)| + 1),
        Message(Assistant, TextOr(r.result.answer), Some(r.result.status), |old(messages)| + 2)]
      ensures r.Returned? && search.RetrievalFailed? ==> r.result == Fail("retrieval_failed", []) && llm.calls == old(llm.calls)
      ensures r.Returned? && search.Found? ==>
        var question, turns := Strip(text), old(History(history));
        var (reply, calls) := FirstReply(llm.reply, old(llm.calls), retryDelays + 1);
        && r.result == Decide(settings, question, search.chunks, turns, reply)
        && llm.calls == if PromptFor(settings, question, search.chunks, turns).Some? then calls else old(llm.calls)
    {
      hide Prompt, Select, FirstReply, CitationsFor, Salvage, FinalAnswer, Markers, Strip;
      var s := settings;
      var question := Strip(text);
      if question == "" {
        return InvalidQuestion;
      }
      var turns := History(history);
      var result: GenerationResult;
      if search.KnowledgeBaseNotFound? {
        return MissingKnowledgeBase;
      }
      if search.RetrievalFailed? {
        result := Fail("retrieval_failed", []);
        PersistTurn(question, result);
        return Returned(result);
      }
      var chunks := search.chunks;
      if chunks == [] || MaxScore(chunks) < s.minEvidenceScore {
        result := Abstain(s, question, "insufficient_evidence", chunks);
        PersistTurn(question, result);
        return Returned(result);
      }
      var evidence := chunks;
      if s.evidenceSelection {
        var selected := SelectEvidence(s.read(question), chunks, MAX_PRIMARY, MAX_SUPPLEMENTARY);
        evidence := selected.primary + selected.supplementary;
      }
      if evidence == [] {
        result := Abstain(s, question, "insufficient_evidence", chunks);
        PersistTurn(question, result);
        return Returned(result);
      }
      var built := Build(s.tools, RequestFor(s, question), evidence, turns);
      if built.None? {
        result := Fail("prompt_too_large", chunks);
        PersistTurn(question, result);
        return Returned(result);
      }
      var reply := CompleteWithRetries();
      result := JudgeReply(question, built.value, reply);
      PersistTurn(question, result);
      return Returned(result);
    }

    /** The part of `generate` after the model has replied. */
    method JudgeReply(question: string, p: BuiltPrompt, reply: Reply) returns (result: GenerationResult)
      ensures result == Judged(settings, question, p, reply)
    {
      var s := settings;
      hide CitationsFor, Salvage, Strip, Markers;
      match reply {
        case TimedOut => return Fail("generation_timeout", p.used);
        case Unavailable => return Fail("model_unavailable", p.used);
        case Content(content) =>
          var abstention := s.judge.abstention(content);
          if abstention.Some? {
            return Abstain(s, question, abstention.value, p.used);
          }
          var cleaned := s.judge.withoutEcho(question, content);
          if !s.judge.isSubstantive(cleaned) {
            return Abstain(s, question, "empty_or_echo_answer", p.used);
          }
          var citations := ValidateCitations(s.judge.isDigit, cleaned, p.markers, p.used);
          if citations.None? {
            citations := Salvage(p.used, p.markers);
          }
          if citations.None? {
            return Abstain(s, question, "citation_validation_failed", p.used);
          }
          var finalAnswer := Strip(cleaned);
          var found := ExtractMarkers(s.judge.isDigit, finalAnswer);
          if found == [] {
            finalAnswer := Strip(finalAnswer + " " + citations.value[0].marker);
          }
          return GenerationResult(Completed, Some(finalAnswer), None, citations.value, p.used);
      }
    }
  }

  lemma {:induction false} LastNumber(messages: seq<Message>)
    requires IsTranscript(messages)
    ensures MaxNumber(messages) == |messages|
  {
    NumbersUpTo(messages);
  }

  lemma {:induction false} NumbersUpTo(messages: seq<Message>)
    requires forall i :: 0 <= i < |messages| ==> messages[i].number == i + 1
    ensures MaxNumber(messages) == |messages|
  {
    if messages != [] {
      NumbersUpTo(messages[..|messages| - 1]);
    }
  }
}
