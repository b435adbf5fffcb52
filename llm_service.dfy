// The Llama client: its configuration, the prompt it sends, and the
// bounded retry loop that turns per-attempt HTTP outcomes into either a
// formatted summary or one terminal error message.
module LlmService {
  import opened Wrappers
  import opened JsString
  import SummaryFormat

  const DefaultOllamaUrl: string := "http://localhost:11434"
  const DefaultModel: string := "llama3"
  const DefaultMaxRetries: nat := 3
  const DefaultRetryDelayMs: nat := 1000
  const RequestTimeoutMs: nat := 120000
  const GeneratePath: string := "/api/generate"
  /** The character budget handed to the formatter. */
  const SummaryMaxChars: nat := 150

  // Terminal error messages, in the order the classifier tries them.
  const NotFoundMessage: string := "Run: ollama run llama3"
  const TimeoutMessage: string := "Llama request timed out."
  const ConnectPrefix: string := "Cannot connect to Ollama at "
  const GenericMessage: string := "Failed to generate summary"
  /** Raised only when the loop runs zero times. */
  const ExhaustedMessage: string := "Summarization failed"
  const EmptyReplyMessage: string := "Empty Llama response"

  /** The service's fields; `maxRetries` and `retryDelay` are fixed at 3 and 1000 ms in the running service. */
  datatype LlmConfig = LlmConfig(ollamaUrl: string, ollamaModel: string, maxRetries: nat, retryDelay: nat)

  /** The configuration the singleton is built with; `env` is the `OLLAMA_URL` environment variable. */
  function DefaultConfig(env: Option<string>): (c: LlmConfig)
    ensures c.ollamaModel == DefaultModel
    ensures c.maxRetries == DefaultMaxRetries && c.retryDelay == DefaultRetryDelayMs
    ensures env.Some? && env.value != "" ==> c.ollamaUrl == env.value
    ensures !(env.Some? && env.value != "") ==> c.ollamaUrl == DefaultOllamaUrl
  {
    var url := if env.Some? && env.value != "" then env.value else DefaultOllamaUrl;
    LlmConfig(url, DefaultModel, DefaultMaxRetries, DefaultRetryDelayMs)
  }

  // ---------------------------------------------------------------------------
  // The request
  // ---------------------------------------------------------------------------

  /** Everything before the note text in the prompt template. */
  const PromptHeader: string :=
    "Summarize the following text.\n\nRules:\n- Maximum 3 bullet points\n- Each bullet must be under 6 words\n- No full sentences\n- No explanations\n- Use simple phrases\nText:\n\""

  function Prompt(noteText: string): string {
    PromptHeader + noteText + "\""
  }

  /** The note text sits verbatim between the fixed header and the closing quote. */
  function NoteOfPrompt(prompt: string): string
    requires |prompt| > |PromptHeader|
  {
    prompt[|PromptHeader| .. |prompt| - 1]
  }

  lemma PromptRoundTrip(noteText: string)
    ensures |Prompt(noteText)| == |PromptHeader| + |noteText| + 1
    ensures Prompt(noteText)[..|PromptHeader|] == PromptHeader
    ensures Prompt(noteText)[|Prompt(noteText)| - 1] == '"'
    ensures NoteOfPrompt(Prompt(noteText)) == noteText
  {
    var p := Prompt(noteText);
    assert p == PromptHeader + (noteText + "\"");
    assert p[|PromptHeader| .. |p| - 1] == noteText;
  }

  /** Distinct notes are sent as distinct prompts. */
  lemma PromptInjective(a: string, b: string)
    requires Prompt(a) == Prompt(b)
    ensures a == b
  {
    PromptRoundTrip(a);
    PromptRoundTrip(b);
  }

  /** The body and options of the POST to Ollama. */
  datatype GenerateRequest = GenerateRequest(url: string, model: string, prompt: string, stream: bool, temperature: int, timeoutMs: nat)

  function RequestFor(cfg: LlmConfig, noteText: string): (q: GenerateRequest)
    ensures q.url == cfg.ollamaUrl + GeneratePath && q.model == cfg.ollamaModel
    ensures q.prompt == Prompt(noteText)
    ensures |q.prompt| > |PromptHeader| && NoteOfPrompt(q.prompt) == noteText
    ensures !q.stream && q.temperature == 0 && q.timeoutMs == RequestTimeoutMs
  {
    PromptRoundTrip(noteText);
    GenerateRequest(cfg.ollamaUrl + GeneratePath, cfg.ollamaModel, Prompt(noteText), false, 0, RequestTimeoutMs)
  }

  /** Every POST of a call carries the same request. */
  predicate AllRequestsFor(requests: seq<GenerateRequest>, cfg: LlmConfig, noteText: string) {
    forall i :: 0 <= i < |requests| ==> requests[i] == RequestFor(cfg, noteText)
  }

  // ---------------------------------------------------------------------------
  // Attempt outcomes and error classification
  // ---------------------------------------------------------------------------

  /** The parts of a thrown error the classifier looks at; each may be absent. */
  datatype HttpError = HttpError(status: Option<int>, code: Option<string>, message: Option<string>)

  /** What one POST produced: a reply whose `response` field may be missing, or a thrown error. */
  datatype AttemptOutcome = Responded(response: Option<string>) | Failed(error: HttpError)

  /** An attempt as the loop body sees it once the reply has been trimmed and checked. */
  datatype AttemptResult = Reply(text: string) | Error(error: HttpError)

  const EmptyReplyError: HttpError := HttpError(None, None, Some(EmptyReplyMessage))

  /** A missing or blank reply becomes the error the body throws for it. */
  function Examine(o: AttemptOutcome): (r: AttemptResult)
    ensures r.Reply? <==> o.Responded? && o.response.Some? && Trim(o.response.value) != ""
    ensures r.Reply? ==> r.text == Trim(o.response.value)
    ensures o.Failed? ==> r == Error(o.error)
    ensures o.Responded? && r.Error? ==> r.error == EmptyReplyError
  {
    match o
    case Responded(Some(t)) => if Trim(t) != "" then Reply(Trim(t)) else Error(EmptyReplyError)
    case Responded(None) => Error(EmptyReplyError)
    case Failed(e) => Error(e)
  }

  predicate Refused(e: HttpError) {
    e.message.Some? && Contains(e.message.value, "ECONNREFUSED")
  }

  /** The message thrown for the last attempt's error. */
  function Classify(url: string, e: HttpError): (m: string)
    ensures m == NotFoundMessage <==> e.status == Some(404)
    ensures m == TimeoutMessage <==> e.status != Some(404) && e.code == Some("ECONNABORTED")
    ensures m == ConnectPrefix + url <==> e.status != Some(404) && e.code != Some("ECONNABORTED") && Refused(e)
    ensures m == GenericMessage <==> e.status != Some(404) && e.code != Some("ECONNABORTED") && !Refused(e)
  {
    assert (ConnectPrefix + url)[0] == 'C';
    if e.status == Some(404) then NotFoundMessage
    else if e.code == Some("ECONNABORTED") then TimeoutMessage
    else if Refused(e) then ConnectPrefix + url
    else GenericMessage
  }

  /** The messages the service can fail with for a given URL. */
  predicate IsLlmError(url: string, m: string) {
    m == NotFoundMessage || m == TimeoutMessage || m == ConnectPrefix + url
    || m == GenericMessage || m == ExhaustedMessage
  }

  // ---------------------------------------------------------------------------
  // The retry loop, specified
  // ---------------------------------------------------------------------------

  function Pow2(n: nat): (r: nat)
    ensures r >= 1
  {
    if n == 0 then 1 else 2 * Pow2(n - 1)
  }

  /** The pause after a failed attempt that is not the last one. */
  function Backoff(cfg: LlmConfig, attempt: nat): nat
    requires attempt >= 1
  {
    cfg.retryDelay * Pow2(attempt - 1)
  }

  /** The pauses after attempts first, first + 1, ..., first + n - 1. */
  function Delays(cfg: LlmConfig, first: nat, n: nat): (d: seq<nat>)
    requires first >= 1
    ensures |d| == n
    ensures forall i :: 0 <= i < n ==> d[i] == Backoff(cfg, first + i)
    decreases n
  {
    if n == 0 then [] else [Backoff(cfg, first)] + Delays(cfg, first + 1, n - 1)
  }

  /**
   * What one call of the loop produces: the trimmed reply it settled on or
   * the message it throws, how many POSTs it made and the pauses between them.
   */
  datatype RetryRun = RetryRun(reply: Result<string>, attempts: nat, delays: seq<nat>)

  /** The run from attempt number `attempt` onwards; `outcomes[i]` is what attempt i + 1 would produce. */
  function RunFrom(cfg: LlmConfig, outcomes: seq<AttemptOutcome>, attempt: nat): (r: RetryRun)
    requires 1 <= attempt && cfg.maxRetries <= |outcomes|
    ensures r.attempts == 0 <==> attempt > cfg.maxRetries
    ensures r.attempts > 0 ==> attempt + r.attempts <= cfg.maxRetries + 1
    ensures r.attempts > 0 ==> |r.delays| == r.attempts - 1
    ensures r.delays == Delays(cfg, attempt, |r.delays|)
    ensures r.reply.Err? ==> IsLlmError(cfg.ollamaUrl, r.reply.error)
    decreases cfg.maxRetries + 1 - attempt
  {
    if attempt > cfg.maxRetries then RetryRun(Err(ExhaustedMessage), 0, [])
    else match Examine(outcomes[attempt - 1])
      case Reply(text) => RetryRun(Ok(text), 1, [])
      case Error(e) =>
        if attempt == cfg.maxRetries then RetryRun(Err(Classify(cfg.ollamaUrl, e)), 1, [])
        else
          var rest := RunFrom(cfg, outcomes, attempt + 1);
          RetryRun(rest.reply, rest.attempts + 1, [Backoff(cfg, attempt)] + rest.delays)
  }

  function Run(cfg: LlmConfig, outcomes: seq<AttemptOutcome>): RetryRun
    requires cfg.maxRetries <= |outcomes|
  {
    RunFrom(cfg, outcomes, 1)
  }

  /** The promise the service resolves or rejects with: the chosen reply, formatted. */
  function Finish(reply: Result<string>): (r: Result<string>)
    ensures reply.Err? ==> r == reply
    ensures reply.Ok? ==> r == Ok(SummaryFormat.FormatSummary(reply.value, SummaryMaxChars))
  {
    match reply
    case Ok(text) => Ok(SummaryFormat.FormatSummary(text, SummaryMaxChars))
    case Err(m) => Err(m)
  }

  // ---------------------------------------------------------------------------
  // The retry loop, as the service runs it
  // ---------------------------------------------------------------------------

  /**
   * The attempt loop: the POSTs it issues are returned in `requests` and the
   * pauses it sleeps in `delays`; the HTTP replies come from `outcomes`, one
   * per attempt. It settles on a trimmed reply or on the message to throw.
   */
  method Attempts(cfg: LlmConfig, noteText: string, outcomes: seq<AttemptOutcome>)
      returns (settled: Result<string>, requests: seq<GenerateRequest>, delays: seq<nat>)
    requires cfg.maxRetries <= |outcomes|
    ensures Run(cfg, outcomes) == RetryRun(settled, |requests|, delays)
    ensures AllRequestsFor(requests, cfg, noteText)
  {
    var request := RequestFor(cfg, noteText);
    requests, delays := [], [];
    var attempt: nat := 1;
    while attempt <= cfg.maxRetries
      invariant 1 <= attempt <= cfg.maxRetries + 1
      invariant |requests| == attempt - 1
      invariant forall i :: 0 <= i < |requests| ==> requests[i] == request
      invariant var tail := RunFrom(cfg, outcomes, attempt);
        Run(cfg, outcomes) == RetryRun(tail.reply, |requests| + tail.attempts, delays + tail.delays)
      decreases cfg.maxRetries + 1 - attempt
    {
      requests := requests + [request];
      var examined := Examine(outcomes[attempt - 1]);
      if examined.Reply? {
        settled := Ok(examined.text);
        return;
      }
      if attempt == cfg.maxRetries {
        settled := Err(Classify(cfg.ollamaUrl, examined.error));
        return;
      }
      ghost var rest := RunFrom(cfg, outcomes, attempt + 1);
      assert delays + ([Backoff(cfg, attempt)] + rest.delays) == (delays + [Backoff(cfg, attempt)]) + rest.delays;
      delays := delays + [Backoff(cfg, attempt)];
      attempt := attempt + 1;
    }
    assert delays + [] == delays;
    settled := Err(ExhaustedMessage);
  }

  /** One call of the service: the attempt loop, then the formatter on the reply it settled on. */
  method LlamaSummarize(cfg: LlmConfig, noteText: string, outcomes: seq<AttemptOutcome>)
      returns (result: Result<string>, requests: seq<GenerateRequest>, delays: seq<nat>)
    requires cfg.maxRetries <= |outcomes|
    ensures var run := Run(cfg, outcomes);
      result == Finish(run.reply) && |requests| == run.attempts && delays == run.delays
    ensures AllRequestsFor(requests, cfg, noteText)
  {
    var settled;
    settled, requests, delays := Attempts(cfg, noteText, outcomes);
    result := Finish(settled);
  }

  // ---------------------------------------------------------------------------
  // Properties of the specified loop
  // ---------------------------------------------------------------------------

  predicate FailsAll(outcomes: seq<AttemptOutcome>, lo: nat, hi: nat)
    requires lo <= hi <= |outcomes|
  {
    forall i :: lo <= i < hi ==> Examine(outcomes[i]).Error?
  }

  lemma {:induction false} FirstReplyWinsFrom(cfg: LlmConfig, outcomes: seq<AttemptOutcome>, attempt: nat, k: nat)
    requires cfg.maxRetries <= |outcomes|
    requires 1 <= attempt <= k + 1 && k < cfg.maxRetries
    requires FailsAll(outcomes, attempt - 1, k) && Examine(outcomes[k]).Reply?
    ensures RunFrom(cfg, outcomes, attempt) ==
      RetryRun(Ok(Examine(outcomes[k]).text), k + 2 - attempt, Delays(cfg, attempt, k + 1 - attempt))
    decreases k + 1 - attempt
  {
    if attempt <= k {
      assert Examine(outcomes[attempt - 1]).Error?;
      FirstReplyWinsFrom(cfg, outcomes, attempt + 1, k);
    }
  }

  /** The reply kept is the first non-blank one, after one pause per earlier failure. */
  lemma FirstReplyWins(cfg: LlmConfig, outcomes: seq<AttemptOutcome>, k: nat)
    requires cfg.maxRetries <= |outcomes| && k < cfg.maxRetries
    requires FailsAll(outcomes, 0, k) && Examine(outcomes[k]).Reply?
    ensures Run(cfg, outcomes) == RetryRun(Ok(Examine(outcomes[k]).text), k + 1, Delays(cfg, 1, k))
  {
    FirstReplyWinsFrom(cfg, outcomes, 1, k);
  }

  lemma {:induction false} AllFailFrom(cfg: LlmConfig, outcomes: seq<AttemptOutcome>, attempt: nat)
    requires cfg.maxRetries <= |outcomes|
    requires 1 <= attempt <= cfg.maxRetries
    requires FailsAll(outcomes, attempt - 1, cfg.maxRetries)
    ensures RunFrom(cfg, outcomes, attempt) ==
      RetryRun(Err(Classify(cfg.ollamaUrl, Examine(outcomes[cfg.maxRetries - 1]).error)), cfg.maxRetries + 1 - attempt,
               Delays(cfg, attempt, cfg.maxRetries - attempt))
    decreases cfg.maxRetries - attempt
  {
    assert Examine(outcomes[attempt - 1]).Error?;
    if attempt < cfg.maxRetries {
      AllFailFrom(cfg, outcomes, attempt + 1);
    }
  }

  /** When every attempt fails, only the last attempt's error is classified, after maxRetries - 1 pauses. */
  lemma AllAttemptsFail(cfg: LlmConfig, outcomes: seq<AttemptOutcome>)
    requires 1 <= cfg.maxRetries <= |outcomes|
    requires FailsAll(outcomes, 0, cfg.maxRetries)
    ensures Run(cfg, outcomes) ==
      RetryRun(Err(Classify(cfg.ollamaUrl, Examine(outcomes[cfg.maxRetries - 1]).error)), cfg.maxRetries,
               Delays(cfg, 1, cfg.maxRetries - 1))
  {
    AllFailFrom(cfg, outcomes, 1);
  }

  predicate SomeReply(outcomes: seq<AttemptOutcome>, lo: nat, hi: nat)
    requires lo <= hi <= |outcomes|
  {
    exists i :: lo <= i < hi && Examine(outcomes[i]).Reply?
  }

  /** A run that resolves has met a non-blank reply within the bound. */
  lemma {:induction false} ResolvesOnReply(cfg: LlmConfig, outcomes: seq<AttemptOutcome>, attempt: nat)
    requires 1 <= attempt <= cfg.maxRetries + 1 && cfg.maxRetries <= |outcomes|
    requires RunFrom(cfg, outcomes, attempt).reply.Ok?
    ensures SomeReply(outcomes, attempt - 1, cfg.maxRetries)
    decreases cfg.maxRetries + 1 - attempt
  {
    if Examine(outcomes[attempt - 1]).Error? {
      ResolvesOnReply(cfg, outcomes, attempt + 1);
      var i :| attempt <= i < cfg.maxRetries && Examine(outcomes[i]).Reply?;
      assert attempt - 1 <= i;
    }
  }

  /** A non-blank reply within the bound makes the run resolve. */
  lemma {:induction false} ReplyResolves(cfg: LlmConfig, outcomes: seq<AttemptOutcome>, attempt: nat, i: nat)
    requires 1 <= attempt && cfg.maxRetries <= |outcomes|
    requires attempt - 1 <= i < cfg.maxRetries && Examine(outcomes[i]).Reply?
    ensures RunFrom(cfg, outcomes, attempt).reply.Ok?
    decreases i + 1 - attempt
  {
    if Examine(outcomes[attempt - 1]).Error? {
      ReplyResolves(cfg, outcomes, attempt + 1, i);
    }
  }

  /** The call resolves exactly when some attempt within the bound gets a non-blank reply. */
  lemma SucceedsIffSomeReply(cfg: LlmConfig, outcomes: seq<AttemptOutcome>)
    requires cfg.maxRetries <= |outcomes|
    ensures Run(cfg, outcomes).reply.Ok? <==> SomeReply(outcomes, 0, cfg.maxRetries)
  {
    if Run(cfg, outcomes).reply.Ok? {
      ResolvesOnReply(cfg, outcomes, 1);
    }
    if SomeReply(outcomes, 0, cfg.maxRetries) {
      var i :| 0 <= i < cfg.maxRetries && Examine(outcomes[i]).Reply?;
      ReplyResolves(cfg, outcomes, 1, i);
    }
  }

  /** A reply that is missing or blank is retried like a transport error. */
  lemma BlankReplyRetried(cfg: LlmConfig, outcomes: seq<AttemptOutcome>, t: string)
    requires 2 <= cfg.maxRetries <= |outcomes|
    requires outcomes[0] == Responded(Some(t)) && AllSpace(t)
    ensures Run(cfg, outcomes).attempts >= 2
    ensures Run(cfg, outcomes).delays[0] == cfg.retryDelay
  {
    TrimEmpty(t);
  }

  /** A loop that may not run at all throws the fallback message. */
  lemma NoAttempts(cfg: LlmConfig, outcomes: seq<AttemptOutcome>)
    requires cfg.maxRetries == 0
    ensures Run(cfg, outcomes) == RetryRun(Err(ExhaustedMessage), 0, [])
  {
  }

  /**
   * With the service's own configuration there are at most three POSTs,
   * the pauses are a prefix of [1000, 2000], and "Summarization failed"
   * cannot be thrown.
   */
  lemma DefaultRun(env: Option<string>, outcomes: seq<AttemptOutcome>)
    requires |outcomes| >= DefaultMaxRetries
    ensures var r := Run(DefaultConfig(env), outcomes);
      1 <= r.attempts <= 3 && r.delays == [1000, 2000][..r.attempts - 1]
      && (r.reply.Err? ==> r.reply.error != ExhaustedMessage)
  {
    var cfg := DefaultConfig(env);
    assert Backoff(cfg, 1) == 1000 && Backoff(cfg, 2) == 2000;
    var r3 := RunFrom(cfg, outcomes, 3);
    var r2 := RunFrom(cfg, outcomes, 2);
    assert r3.attempts == 1 && r3.delays == [];
    assert r3.reply.Err? ==> r3.reply.error != ExhaustedMessage;
    assert r2.reply.Err? ==> r2.reply.error != ExhaustedMessage;
  }

  /** Two failures and then a reply: three POSTs, pauses of one and two seconds, the third reply kept. */
  lemma FailTwiceThenReply(env: Option<string>, e1: HttpError, e2: HttpError, reply: string)
    requires Trim(reply) != ""
    ensures Run(DefaultConfig(env), [Failed(e1), Failed(e2), Responded(Some(reply))]) ==
      RetryRun(Ok(Trim(reply)), 3, [1000, 2000])
  {
    var cfg := DefaultConfig(env);
    var outcomes := [Failed(e1), Failed(e2), Responded(Some(reply))];
    FirstReplyWins(cfg, outcomes, 2);
    assert Delays(cfg, 1, 2) == [1000, 2000];
  }

  /** A successful call resolves with formatted text of at most 153 characters. */
  lemma FinishWithinBound(reply: Result<string>)
    requires reply.Ok?
    ensures Finish(reply).Ok? && |Finish(reply).value| <= SummaryMaxChars + 3
  {
    SummaryFormat.FormatAtMost153(reply.value);
  }
}
