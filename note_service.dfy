// The note store: creating a note, reading it back behind its password,
// and summarising it through the Llama client. The repository is a map
// from id to note held by one object whose methods update it in place.
module NoteService {
  import opened Wrappers
  import opened JsString
  import LlmService

  /** A stored note; `summary` and `summaryGeneratedAt` are null until a summary is saved. */
  datatype Note = Note(
    id: string,
    text: string,
    passwordHash: string,
    summary: Option<string>,
    summaryGeneratedAt: Option<int>,
    createdAt: int)

  /** What a reader is shown: never the hash or the cached summary. */
  datatype NoteView = NoteView(id: string, text: string, createdAt: int)

  datatype CreatedNote = CreatedNote(noteId: string, password: string, shareUrl: string)

  datatype SummaryReply = SummaryReply(noteId: string, summary: string, cached: bool)

  const NotFoundMessage: string := "Note not found"
  const InvalidPasswordMessage: string := "Invalid password"
  const SummaryFailurePrefix: string := "Failed to generate summary: "
  const DefaultFrontendUrl: string := "https://localhost:3000"
  const SharePath: string := "/note/"

  type Notes = map<string, Note>

  predicate KeyedById(notes: Notes) {
    forall id :: id in notes ==> notes[id].id == id
  }

  /** The base of the share link: the caller's, else `FRONTEND_URL`, else the local default. */
  function ResolveBaseUrl(baseUrl: Option<string>, frontendUrl: Option<string>): (r: string)
    ensures r != ""
    ensures baseUrl.Some? && baseUrl.value != "" ==> r == baseUrl.value
    ensures !(baseUrl.Some? && baseUrl.value != "") && frontendUrl.Some? && frontendUrl.value != "" ==> r == frontendUrl.value
    ensures !(baseUrl.Some? && baseUrl.value != "") && !(frontendUrl.Some? && frontendUrl.value != "") ==> r == DefaultFrontendUrl
  {
    OrElse(baseUrl, OrElse(frontendUrl, DefaultFrontendUrl))
  }

  function ShareUrl(base: string, noteId: string): string {
    base + SharePath + noteId
  }

  /** The link starts with its base, and an id without '/' is exactly what follows the link's last '/'. */
  lemma ShareUrlRoundTrip(base: string, noteId: string)
    requires '/' !in noteId
    ensures var u := ShareUrl(base, noteId);
      u[..|base|] == base && LastIndexOf(u, '/') == |base| + |SharePath| - 1
      && u[LastIndexOf(u, '/') + 1..] == noteId
  {
    var u := ShareUrl(base, noteId);
    var k := |base| + |SharePath| - 1;
    assert u[k] == '/';
    forall j | k < j < |u| ensures u[j] != '/' {
      assert u[j] == noteId[j - k - 1];
    }
    var r := LastIndexOf(u, '/');
    assert r >= 0 && u[r] == '/';
    assert r == k;
    assert u[k + 1..] == noteId;
  }

  function View(note: Note): (v: NoteView)
    ensures v.id == note.id && v.text == note.text && v.createdAt == note.createdAt
  {
    NoteView(note.id, note.text, note.createdAt)
  }

  /** A fresh note: no summary yet. */
  function NewNote(noteId: string, noteText: string, passwordHash: string, now: int): Note {
    Note(noteId, noteText, passwordHash, None, None, now)
  }

  /** The note after a summary is cached on it; every other field is kept. */
  function WithSummary(note: Note, summary: string, now: int): (n: Note)
    ensures n.id == note.id && n.text == note.text && n.passwordHash == note.passwordHash && n.createdAt == note.createdAt
    ensures n.summary == Some(summary) && n.summaryGeneratedAt == Some(now)
  {
    note.(summary := Some(summary), summaryGeneratedAt := Some(now))
  }

  /** The error shared by the two guarded reads, or None when the caller may see the note. */
  function Guard(notes: Notes, noteId: string, password: string, verify: (string, string) -> bool): (r: Option<string>)
    ensures r == Some(NotFoundMessage) <==> noteId !in notes
    ensures r == Some(InvalidPasswordMessage) <==> noteId in notes && !verify(password, notes[noteId].passwordHash)
    ensures r == None <==> noteId in notes && verify(password, notes[noteId].passwordHash)
  {
    if noteId !in notes then Some(NotFoundMessage)
    else if !verify(password, notes[noteId].passwordHash) then Some(InvalidPasswordMessage)
    else None
  }

  /** Creating a note and opening it with the password handed back shows the text that was stored. */
  lemma CreatedNoteIsViewable(notes: Notes, noteId: string, noteText: string, password: string,
                              hash: string -> string, verify: (string, string) -> bool, now: int)
    requires verify(password, hash(password))
    ensures var after := notes[noteId := NewNote(noteId, noteText, hash(password), now)];
      Guard(after, noteId, password, verify) == None && View(after[noteId]) == NoteView(noteId, noteText, now)
  {
  }

  /** Caching a summary keeps the store keyed by id and changes nothing a reader is shown. */
  lemma SummaryInvisibleToReaders(notes: Notes, noteId: string, summary: string, now: int)
    requires KeyedById(notes) && noteId in notes
    ensures var after := notes[noteId := WithSummary(notes[noteId], summary, now)];
      KeyedById(after) && View(after[noteId]) == View(notes[noteId])
      && forall id :: id in notes ==> id in after && View(after[id]) == View(notes[id])
  {
  }

  class NoteStore {
    var notes: Notes

    ghost predicate Valid()
      reads this
    {
      KeyedById(notes)
    }

    constructor()
      ensures Valid() && notes == map[]
    {
      notes := map[];
    }

    /**
     * Store a new note under `noteId` and hand back the share link. The
     * id, the password and its hash come from the random generators and
     * bcrypt; `now` is the creation timestamp the database assigns.
     */
    method CreateNote(noteText: string, noteId: string, password: string, hash: string -> string, now: int,
                      baseUrl: Option<string>, frontendUrl: Option<string>)
        returns (created: CreatedNote)
      requires Valid()
      modifies this
      ensures Valid()
      ensures notes == old(notes)[noteId := NewNote(noteId, noteText, hash(password), now)]
      ensures created == CreatedNote(noteId, password, ShareUrl(ResolveBaseUrl(baseUrl, frontendUrl), noteId))
    {
      notes := notes[noteId := NewNote(noteId, noteText, hash(password), now)];
      var resolved := ResolveBaseUrl(baseUrl, frontendUrl);
      created := CreatedNote(noteId, password, ShareUrl(resolved, noteId));
    }

    /** Read a note behind its password; the store is not touched. */
    method ViewNote(noteId: string, password: string, verify: (string, string) -> bool) returns (r: Result<NoteView>)
      requires Valid()
      ensures noteId !in notes ==> r == Err(NotFoundMessage)
      ensures noteId in notes && !verify(password, notes[noteId].passwordHash) ==> r == Err(InvalidPasswordMessage)
      ensures noteId in notes && verify(password, notes[noteId].passwordHash) ==> r == Ok(View(notes[noteId]))
    {
      if noteId !in notes {
        return Err(NotFoundMessage);
      }
      var note := notes[noteId];
      if !verify(password, note.passwordHash) {
        return Err(InvalidPasswordMessage);
      }
      r := Ok(View(note));
    }

    /**
     * Summarise a note behind its password. The Llama client is always
     * called (there is no cache short-circuit); `outcomes` are its HTTP
     * replies and `requests` the POSTs it made. On success only the
     * summary fields of that one note change.
     */
    method SummarizeNote(noteId: string, password: string, verify: (string, string) -> bool,
                         cfg: LlmService.LlmConfig, outcomes: seq<LlmService.AttemptOutcome>, now: int)
        returns (r: Result<SummaryReply>, requests: seq<LlmService.GenerateRequest>)
      requires Valid() && cfg.maxRetries <= |outcomes|
      modifies this
      ensures Valid()
      ensures old(Guard(notes, noteId, password, verify)).Some? ==>
        r == Err(old(Guard(notes, noteId, password, verify)).value) && notes == old(notes) && requests == []
      ensures old(Guard(notes, noteId, password, verify)).None? ==>
        var llm := LlmService.Finish(LlmService.Run(cfg, outcomes).reply);
        |requests| == LlmService.Run(cfg, outcomes).attempts
        && LlmService.AllRequestsFor(requests, cfg, old(notes)[noteId].text)
        && (llm.Err? ==> r == Err(SummaryFailurePrefix + llm.error) && notes == old(notes))
        && (llm.Ok? ==> r == Ok(SummaryReply(noteId, llm.value, false))
                        && notes == old(notes)[noteId := WithSummary(old(notes)[noteId], llm.value, now)])
    {
      var denied := Guard(notes, noteId, password, verify);
      if denied.Some? {
        return Err(denied.value), [];
      }
      var note := notes[noteId];
      ghost var run := LlmService.Run(cfg, outcomes);
      var summary, delays;
      summary, requests, delays := LlmService.LlamaSummarize(cfg, note.text, outcomes);
      assert |requests| == run.attempts;
      if summary.Err? {
        r := Err(SummaryFailurePrefix + summary.error);
        return;
      }
      SaveSummary(noteId, summary.value, now);
      r := Ok(SummaryReply(noteId, summary.value, false));
    }

    /** Cache a summary on a stored note and save it back. */
    method SaveSummary(noteId: string, summary: string, now: int)
      requires Valid() && noteId in notes
      modifies this
      ensures Valid()
      ensures notes == old(notes)[noteId := WithSummary(old(notes)[noteId], summary, now)]
    {
      var updated := WithSummary(notes[noteId], summary, now);
      assert updated.id == noteId;
      notes := notes[noteId := updated];
    }
  }
}
