// The three note routes: which status and body each request ends with,
// given the validator, the note store and the error message a service
// call fails with.
module NotesApi {
  import opened Wrappers
  import opened JsString
  import Validation
  import NoteService
  import LlmService

  datatype Body =
    | ErrorBody(error: string)
    | CreatedBody(created: NoteService.CreatedNote)
    | NoteBody(view: NoteService.NoteView)
    | SummaryBody(reply: NoteService.SummaryReply)

  datatype Response = Response(status: nat, body: Body)

  const PasswordRequiredMessage: string := "Password is required"
  const RetrieveFailedMessage: string := "Failed to retrieve note"
  const SummarizeFailedMessage: string := "Failed to summarize note"
  const UnavailableMessage: string := "Summarization service not available"
  /** The text that would route a summarise failure to 503. */
  const ApiKeyMissing: string := "OpenAI API key not configured"
  const DefaultProtocol: string := "https"

  /** `!password` is false: the password is present and non-empty. */
  predicate HasPassword(password: Option<string>) {
    password.Some? && password.value != ""
  }

  /**
   * The `baseUrl` passed to note creation: none in development, otherwise
   * the forwarded protocol (else the request's, else https) and the Host
   * header (else the request's host name).
   */
  function CreateBaseUrl(isDevelopment: bool, forwardedProto: Option<string>, protocol: Option<string>,
                         hostHeader: Option<string>, hostname: string): (r: Option<string>)
    ensures r.None? <==> isDevelopment
    ensures r.Some? ==> r.value == OrElse(forwardedProto, OrElse(protocol, DefaultProtocol)) + "://" + OrElse(hostHeader, hostname)
  {
    if isDevelopment then None
    else Some(OrElse(forwardedProto, OrElse(protocol, DefaultProtocol)) + "://" + OrElse(hostHeader, hostname))
  }

  /** Outside development the share link always uses the request's own origin, whatever `FRONTEND_URL` says; in development it never does. */
  lemma ShareLinkOrigin(isDevelopment: bool, forwardedProto: Option<string>, protocol: Option<string>,
                        hostHeader: Option<string>, hostname: string, frontendUrl: Option<string>, noteId: string)
    ensures var base := CreateBaseUrl(isDevelopment, forwardedProto, protocol, hostHeader, hostname);
      var origin := OrElse(forwardedProto, OrElse(protocol, DefaultProtocol)) + "://" + OrElse(hostHeader, hostname);
      var link := NoteService.ShareUrl(NoteService.ResolveBaseUrl(base, frontendUrl), noteId);
      (!isDevelopment ==> link == origin + NoteService.SharePath + noteId)
      && (isDevelopment ==> link == NoteService.ShareUrl(OrElse(frontendUrl, NoteService.DefaultFrontendUrl), noteId))
  {
    var origin := OrElse(forwardedProto, OrElse(protocol, DefaultProtocol)) + "://" + OrElse(hostHeader, hostname);
    assert origin != "" by {
      assert |origin| >= 3;
    }
  }

  /** The status for a failed read, chosen by exact message. */
  function ViewErrorResponse(message: string): (resp: Response)
    ensures resp.status == 404 <==> message == NoteService.NotFoundMessage
    ensures resp.status == 401 <==> message == NoteService.InvalidPasswordMessage
    ensures resp.status == 500 <==> message != NoteService.NotFoundMessage && message != NoteService.InvalidPasswordMessage
    ensures resp.body == ErrorBody(if resp.status == 500 then RetrieveFailedMessage else message)
  {
    if message == NoteService.NotFoundMessage then Response(404, ErrorBody(message))
    else if message == NoteService.InvalidPasswordMessage then Response(401, ErrorBody(message))
    else Response(500, ErrorBody(RetrieveFailedMessage))
  }

  /** The status for a failed summarise, chosen by exact message, then by a substring, in that order. */
  function SummarizeErrorResponse(message: string): (resp: Response)
    ensures resp.status == 404 <==> message == NoteService.NotFoundMessage
    ensures resp.status == 401 <==> message == NoteService.InvalidPasswordMessage
    ensures resp.status == 503 <==>
      message != NoteService.NotFoundMessage && message != NoteService.InvalidPasswordMessage && Contains(message, ApiKeyMissing)
    ensures resp.status == 500 <==>
      message != NoteService.NotFoundMessage && message != NoteService.InvalidPasswordMessage && !Contains(message, ApiKeyMissing)
    ensures resp.status == 503 ==> resp.body == ErrorBody(UnavailableMessage)
    ensures resp.status == 500 ==> resp.body == ErrorBody(SummarizeFailedMessage)
  {
    if message == NoteService.NotFoundMessage then Response(404, ErrorBody(message))
    else if message == NoteService.InvalidPasswordMessage then Response(401, ErrorBody(message))
    else if Contains(message, ApiKeyMissing) then Response(503, ErrorBody(UnavailableMessage))
    else Response(500, ErrorBody(SummarizeFailedMessage))
  }

  /** POST /: validate the body, then create the note and answer 201. */
  method CreateRoute(store: NoteService.NoteStore, note: Validation.JsValue, isDevelopment: bool,
                     forwardedProto: Option<string>, protocol: Option<string>, hostHeader: Option<string>, hostname: string,
                     noteId: string, password: string, hash: string -> string, now: int, frontendUrl: Option<string>)
      returns (resp: Response)
    requires store.Valid()
    modifies store
    ensures store.Valid()
    ensures Validation.ValidateNote(note).Reject? ==>
      resp == Response(Validation.BadRequest, ErrorBody(Validation.ValidateNote(note).error)) && store.notes == old(store.notes)
    ensures Validation.ValidateNote(note).Accept? ==>
      var base := CreateBaseUrl(isDevelopment, forwardedProto, protocol, hostHeader, hostname);
      store.notes == old(store.notes)[noteId := NoteService.NewNote(noteId, note.s, hash(password), now)]
      && resp == Response(201, CreatedBody(NoteService.CreatedNote(noteId, password,
                   NoteService.ShareUrl(NoteService.ResolveBaseUrl(base, frontendUrl), noteId))))
  {
    var verdict := Validation.ValidateNote(note);
    if verdict.Reject? {
      return Response(verdict.status, ErrorBody(verdict.error));
    }
    var base := CreateBaseUrl(isDevelopment, forwardedProto, protocol, hostHeader, hostname);
    var created := store.CreateNote(verdict.note, noteId, password, hash, now, base, frontendUrl);
    resp := Response(201, CreatedBody(created));
  }

  /** GET /:noteId: the password gate, then the read. */
  method GetRoute(store: NoteService.NoteStore, noteId: string, password: Option<string>, verify: (string, string) -> bool)
      returns (resp: Response)
    requires store.Valid()
    ensures !HasPassword(password) ==> resp == Response(400, ErrorBody(PasswordRequiredMessage))
    ensures HasPassword(password) ==>
      var denied := NoteService.Guard(store.notes, noteId, password.value, verify);
      (denied.Some? ==> resp == ViewErrorResponse(denied.value))
      && (denied.None? ==> resp == Response(200, NoteBody(NoteService.View(store.notes[noteId]))))
  {
    if !HasPassword(password) {
      return Response(400, ErrorBody(PasswordRequiredMessage));
    }
    var r := store.ViewNote(noteId, password.value, verify);
    match r
    case Ok(view) => resp := Response(200, NoteBody(view));
    case Err(message) => resp := ViewErrorResponse(message);
  }

  /** POST /:noteId/summarize: the password gate, then the summarise call. */
  method SummarizeRoute(store: NoteService.NoteStore, noteId: string, password: Option<string>,
                        verify: (string, string) -> bool, cfg: LlmService.LlmConfig,
                        outcomes: seq<LlmService.AttemptOutcome>, now: int)
      returns (resp: Response, requests: seq<LlmService.GenerateRequest>)
    requires store.Valid() && cfg.maxRetries <= |outcomes|
    modifies store
    ensures store.Valid()
    ensures !HasPassword(password) ==>
      resp == Response(400, ErrorBody(PasswordRequiredMessage)) && store.notes == old(store.notes)
      && requests == []
    ensures HasPassword(password) ==>
      var denied := old(NoteService.Guard(store.notes, noteId, password.value, verify));
      var llm := LlmService.Finish(LlmService.Run(cfg, outcomes).reply);
      (denied.Some? ==> resp == SummarizeErrorResponse(denied.value) && store.notes == old(store.notes)
                        && requests == [])
      && (denied.None? ==> |requests| == LlmService.Run(cfg, outcomes).attempts
                           && LlmService.AllRequestsFor(requests, cfg, old(store.notes)[noteId].text))
      && (denied.None? && llm.Err? ==>
            resp == SummarizeErrorResponse(NoteService.SummaryFailurePrefix + llm.error) && store.notes == old(store.notes))
      && (denied.None? && llm.Ok? ==>
            resp == Response(200, SummaryBody(NoteService.SummaryReply(noteId, llm.value, false)))
            && store.notes == old(store.notes)[noteId := NoteService.WithSummary(old(store.notes)[noteId], llm.value, now)])
  {
    if !HasPassword(password) {
      return Response(400, ErrorBody(PasswordRequiredMessage)), [];
    }
    var r;
    r, requests := store.SummarizeNote(noteId, password.value, verify, cfg, outcomes, now);
    match r
    case Ok(reply) => resp := Response(200, SummaryBody(reply));
    case Err(message) => resp := SummarizeErrorResponse(message);
  }

  // ---------------------------------------------------------------------------
  // Which status an LLM failure ends in
  // ---------------------------------------------------------------------------

  lemma NoCapitalP(m: string)
    requires m == LlmService.NotFoundMessage || m == LlmService.TimeoutMessage
      || m == LlmService.GenericMessage || m == LlmService.ExhaustedMessage
    ensures 'P' !in NoteService.SummaryFailurePrefix + m
  {
    assert 'P' !in NoteService.SummaryFailurePrefix;
  }

  /**
   * A failure the Llama client raises ends in 503 only if it is the
   * connection message and the configured URL itself carries the 503
   * text; every other LLM failure ends in 500.
   */
  lemma LlmFailureStatus(url: string, m: string)
    requires LlmService.IsLlmError(url, m)
    ensures SummarizeErrorResponse(NoteService.SummaryFailurePrefix + m).status ==
      if m == LlmService.ConnectPrefix + url && Contains(url, ApiKeyMissing) then 503 else 500
  {
    var msg := NoteService.SummaryFailurePrefix + m;
    FailurePrefixed(m);
    if m == LlmService.ConnectPrefix + url {
      ConnectFailureContains(url);
    } else {
      NoCapitalP(m);
      if Contains(msg, ApiKeyMissing) {
        ContainsChars(msg, ApiKeyMissing, 'P');
      }
    }
  }

  /** A prefixed message is neither of the two messages that map to 404 and 401. */
  lemma FailurePrefixed(m: string)
    ensures var msg := NoteService.SummaryFailurePrefix + m;
      msg != NoteService.NotFoundMessage && msg != NoteService.InvalidPasswordMessage
  {
    var msg := NoteService.SummaryFailurePrefix + m;
    assert msg[0] == 'F' && msg[1] == 'a';
  }

  /** The prefixed connection message carries the 503 text exactly when the URL does. */
  lemma ConnectFailureContains(url: string)
    ensures Contains(NoteService.SummaryFailurePrefix + (LlmService.ConnectPrefix + url), ApiKeyMissing)
      <==> Contains(url, ApiKeyMissing)
  {
    var a := NoteService.SummaryFailurePrefix + LlmService.ConnectPrefix;
    assert NoteService.SummaryFailurePrefix + (LlmService.ConnectPrefix + url) == a + url;
    ConnectPrefixTail(a);
    ContainsAcross(a, url, ApiKeyMissing, 8);
  }

  lemma ConnectPrefixTail(a: string)
    requires a == NoteService.SummaryFailurePrefix + LlmService.ConnectPrefix
    ensures |ApiKeyMissing| > 8 && 8 <= |a|
    ensures ApiKeyMissing[8] !in a && ApiKeyMissing[0] !in a[|a| - 8..]
  {
    assert a[|a| - 8..] == "lama at ";
  }

  /** With `OLLAMA_URL` unset or not carrying the 503 text, every LLM failure reaches the client as 500. */
  lemma LlmFailureIs500(env: Option<string>, outcomes: seq<LlmService.AttemptOutcome>)
    requires |outcomes| >= LlmService.DefaultMaxRetries
    requires env.Some? ==> !Contains(env.value, ApiKeyMissing)
    ensures var cfg := LlmService.DefaultConfig(env);
      var llm := LlmService.Finish(LlmService.Run(cfg, outcomes).reply);
      llm.Err? ==> SummarizeErrorResponse(NoteService.SummaryFailurePrefix + llm.error).status == 500
  {
    var cfg := LlmService.DefaultConfig(env);
    var run := LlmService.Run(cfg, outcomes);
    if run.reply.Err? {
      assert LlmService.IsLlmError(cfg.ollamaUrl, run.reply.error);
      LlmFailureStatus(cfg.ollamaUrl, run.reply.error);
    }
  }

  /** A local address whose path carries the 503 text; no server listens on port 1. */
  const ProbeUrlHost: string := "http://localhost:1/"

  /**
   * The one way to 503: an `OLLAMA_URL` that carries the text, and a
   * refused connection on every attempt.
   */
  lemma ConfiguredUrlCanYield503()
    ensures var cfg := LlmService.DefaultConfig(Some(ProbeUrlHost + ApiKeyMissing));
      var refused := LlmService.Failed(LlmService.HttpError(None, None, Some("connect ECONNREFUSED 127.0.0.1:1")));
      var llm := LlmService.Finish(LlmService.Run(cfg, [refused, refused, refused]).reply);
      llm.Err? && SummarizeErrorResponse(NoteService.SummaryFailurePrefix + llm.error).status == 503
  {
    var url := ProbeUrlHost + ApiKeyMissing;
    var cfg := LlmService.DefaultConfig(Some(url));
    var e := LlmService.HttpError(None, None, Some("connect ECONNREFUSED 127.0.0.1:1"));
    var outcomes := [LlmService.Failed(e), LlmService.Failed(e), LlmService.Failed(e)];
    var msg := "connect ECONNREFUSED 127.0.0.1:1";
    assert msg == "connect " + "ECONNREFUSED" + " 127.0.0.1:1";
    assert msg[8..20] == "ECONNREFUSED";
    assert OccursAt(msg, "ECONNREFUSED", 8);
    assert LlmService.Refused(e);
    LlmService.AllAttemptsFail(cfg, outcomes);
    var m := LlmService.ConnectPrefix + url;
    assert LlmService.Finish(LlmService.Run(cfg, outcomes).reply) == Err(m);
    assert url[|ProbeUrlHost|..] == ApiKeyMissing;
    assert OccursAt(url, ApiKeyMissing, |ProbeUrlHost|);
    LlmFailureStatus(url, m);
  }
}
