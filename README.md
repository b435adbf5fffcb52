# PrivNote backend core in Dafny

PrivNote stores short text notes behind a generated password and can
summarise a note with a local Llama model served by Ollama. This project
models the four backend pieces that make those decisions:

- **the request validator** (`validateNote`): the three guards on `body.note`;
- **the note service** (`createNote`, `viewNote`, `summarizeNote`): the note
  repository, modelled as a `NoteStore` class whose `notes` map the methods
  update in place, the share link, the password guard, and how a summary is
  cached;
- **the Llama client** (`LlmService`): the prompt, the POST it sends, the
  bounded retry loop with exponential back-off, the classifier for the last
  error, and the deterministic `formatSummary` / `isNotNarration`
  post-processor;
- **the note routes**: the status and body each request ends with.

## Modules

| file | module | what it holds |
|---|---|---|
| `wrappers.dfy` | `Wrappers` | `Option` and `Result` |
| `jsstring.dfy` | `JsString` | JavaScript string operations the core uses: `trim` with the ECMAScript white-space set, `split`, `join`, `includes`, `lastIndexOf`, `x \|\| fallback` |
| `narration.dfy` | `Narration` | the eleven case-insensitive narration patterns as token lists, a backtracking reference semantics (`RegexTest`), the greedy matcher the filter uses (`Test`), and a proof that the two agree on every pattern |
| `summary_format.dfy` | `SummaryFormat` | `formatSummary`: normalisation, the newline path, the sentence fallback, the bullets, the length cap |
| `summary_examples.dfy` | `SummaryExamples` | worked inputs for the formatter, each proved as a general lemma plus a concrete instance |
| `llm_service.dfy` | `LlmService` | configuration, prompt, request, the retry loop as a specification function (`RunFrom`) and as a method with a `while` loop (`Attempts`), and properties of the loop |
| `validation.dfy` | `Validation` | JSON values, truthiness, `validateNote` |
| `note_service.dfy` | `NoteService` | notes, the guard, the share link, the `NoteStore` class |
| `notes_api.dfy` | `NotesApi` | the three routes and their status mapping |

The environment (`OLLAMA_URL`, `FRONTEND_URL`, `NODE_ENV`), the request
headers, the clock, the random id and password, bcrypt's `hash` and
`compare`, and the HTTP replies from Ollama are all parameters. The HTTP
replies are a sequence `outcomes`, where `outcomes[i]` is what attempt
`i + 1` would get back. The POSTs the client makes and the pauses it sleeps
are returned as output sequences instead of being performed.

## Where the code and its description differ

The model follows the code in each case.

- The doc comment on `formatSummary` promises at most 150 characters. The
  cap actually cuts to 150 and then appends `"..."`, so output can be up
  to 153 characters long. `FormatAtMost153` proves the real bound.
  `LongWordExceeds150` and `DocumentedBoundDoesNotHold` show that 153 is
  reached, for a single word of 149 characters or more.
- The routes do not send a 404 from Ollama to 503. A summarise failure is
  answered with 503 only if its message contains
  `"OpenAI API key not configured"`. None of the Llama client's own
  messages contains it. It can only appear through the configured URL,
  inside `"Cannot connect to Ollama at <url>"`. Every other failure is a
  500. See `LlmFailureStatus`, `LlmFailureIs500` and
  `ConfiguredUrlCanYield503`.
- With three attempts there are only two pauses, 1000 ms and 2000 ms
  (`DefaultRun`). No pause follows the last attempt.
- The summary cache is commented out. Every summarise call reaches the
  Llama client and answers `cached: false`. The summary is still written to
  the note.
- The sentence fallback replaces the newline path whenever that path keeps
  at most one line. A reply whose only kept line sits under a narration
  header can therefore lose that line. `FallbackLosesContent` shows this:
  `"Here is:\nmilk"` formats to `"• Summary unavailable"`.
- The sentence path splits the whole normalised text on `.`, `!` and `?` only, and `^` (without the `m` flag) anchors at the start of a candidate, not of each line. A narration line after a single content line therefore reaches the output inside one multi-line candidate, on its own unbulleted line: `"milk\nThis is it"` formats to `"• milk\nThis is it"` (`NarrationAfterContent`, `NarrationLineSurvives`). This breaks both the filtering of meta-commentary and the one-bullet-per-line shape.
- The marker regex removes exactly one marker character. `"1. Buy"`
  therefore becomes `". Buy"` (`NumberedItemKeepsDot`), and `"12. Buy"`
  becomes `"2. Buy"` (`TwoDigitItemKeepsDigit`).

## Model

| member | source | states |
|---|---|---|
| `Validation.ValidateNote` | backend/src/middleware/validation.ts:3-19 | accepts exactly the strings of length 1 to 500 and hands them on unchanged; every rejection is a 400; "cannot be empty" exactly for falsy values, "must be a string" exactly for truthy non-strings, "under 500 characters" exactly for longer strings |
| `Validation.FalsyRejectedAsEmpty` | backend/src/middleware/validation.ts:6-8 | undefined, null, false, 0 and "" all get the emptiness message, because that guard runs before the type guard |
| `Validation.LengthBoundary` | backend/src/middleware/validation.ts:14-16 | 500 characters pass, 501 are rejected, a blank note passes since nothing trims it |
| `JsString.Trim` | backend/src/services/llmService.ts:55 | the result is the slice of the input between its leading and trailing white-space runs, and it neither starts nor ends with white space |
| `JsString.TrimEmpty` | backend/src/services/llmService.ts:55-56 | trimming gives "" exactly when the reply is all white space, which is when the client treats the reply as empty |
| `JsString.TrimIdempotent` | backend/src/services/llmService.ts:95 | trimming twice is the same as trimming once |
| `JsString.SplitOn` | backend/src/services/llmService.ts:100-101 | splitting yields at least one part and no part contains a separator |
| `JsString.JoinSplit` | backend/src/services/llmService.ts:121 | joining the parts of a split on a character rebuilds the original string |
| `JsString.SplitJoin` | backend/src/services/llmService.ts:121 | splitting a join of separator-free parts gives the parts back |
| `JsString.SplitOnConcat` | backend/src/services/llmService.ts:100-101 | a separator between two strings splits them independently |
| `JsString.RemoveChar` | backend/src/services/llmService.ts:95 | deleting every `\r` keeps the count of every other character and leaves no `\r`; with no `\r` present the text is unchanged |
| `JsString.RemoveCharConcat` | backend/src/services/llmService.ts:95 | removal distributes over concatenation, so each character is kept or dropped in place and the order of the rest is kept |
| `JsString.RemoveCharSingle` | backend/src/services/llmService.ts:95 | a single character is dropped exactly when it is `\r` (with `RemoveCharConcat` this determines the result) |
| `JsString.LastIndexOf` | backend/src/services/llmService.ts:127 | the result is -1 when the character is absent, otherwise an index holding it with no later occurrence |
| `JsString.ContainsAcross` | backend/src/api/notes.ts:83 | a prefix that cannot hold any part of the needle does not change whether a string contains it |
| `JsString.OrElse` | backend/src/services/noteService.ts:25-26 | `s \|\| fallback`: the value when it is present and non-empty, otherwise the fallback; what the chains built from it mean is stated by `ResolveBaseUrl` and `ShareLinkOrigin` |
| `Narration.MatchAtIsRegex` | backend/src/services/llmService.ts:142-156 | for well-formed token lists the greedy matcher matches a prefix exactly when a backtracking regular-expression match exists |
| `Narration.SearchIsRegex` | backend/src/services/llmService.ts:146-153 | an unanchored search succeeds exactly when the pattern matches at some offset |
| `Narration.NarrationPatternsWellFormed` | backend/src/services/llmService.ts:142-154 | all eleven patterns meet the condition under which greedy matching is exact |
| `Narration.IsNotNarrationSpec` | backend/src/services/llmService.ts:138-157 | a line is kept exactly when it is non-empty and no pattern of the table matches it |
| `Narration.IsNotNarration` | backend/src/services/llmService.ts:138-157 | the filter over the eleven-pattern table `NarrationPatterns` (lines 142-154); its meaning is given by `IsNotNarrationSpec` (kept exactly when non-empty and no pattern matches, under the backtracking semantics) and `WordIsNotNarration` |
| `Narration.WordIsNotNarration` | backend/src/services/llmService.ts:142-156 | every pattern needs white space, so a line without spaces is kept exactly when it is non-empty |
| `SummaryFormat.StripMarker` | backend/src/services/llmService.ts:102 | a leading marker character and the white space after it are dropped; any other line is returned unchanged |
| `SummaryFormat.Normalize` | backend/src/services/llmService.ts:95 | the normalised reply is the `\r`-free text with exactly its leading and trailing white-space runs cut off, so it has no `\r` and no white space at either end |
| `SummaryFormat.Candidates` | backend/src/services/llmService.ts:97-111 | the newline path's cleaned, filtered lines, replaced by the sentence path's when there are at most one; proved about it: `CandidatesAreContent`, `NoNewlineUsesSentences`, `LineCandidatesAreLines` |
| `SummaryFormat.Compose` | backend/src/services/llmService.ts:119-121 | the first three candidates as "• " lines joined by newlines; proved about it: `ComposeLines` (it splits back into those bullets) and `ComposeStartsWithBullet` |
| `SummaryFormat.FormatSummary` | backend/src/services/llmService.ts:93-136 | the formatter; proved about it: `FormatShape` (never empty, starts with a bullet, the sentinel or at most maxChars + 3 long), `FormatListOutput`, `FormatBlank`, `FormatAtMost153` and `CandidatesAreContent` |
| `SummaryFormat.CutPoint` | backend/src/services/llmService.ts:125-130 | the cut is at the last space of the first maxChars characters when that space is beyond index 10, otherwise at maxChars |
| `SummaryFormat.Truncate` | backend/src/services/llmService.ts:123-133 | text within the limit is returned unchanged; longer text becomes its trimmed cut followed by "...", at most maxChars + 3 long |
| `SummaryFormat.CandidatesAreContent` | backend/src/services/llmService.ts:100-111 | every candidate that reaches the bullets is non-empty and matches no narration pattern |
| `SummaryFormat.NoNewlineUsesSentences` | backend/src/services/llmService.ts:106-111 | a reply without a newline always goes through the sentence path |
| `SummaryFormat.MarkerIsOneCharacter` | backend/src/services/llmService.ts:102 | only the first marker character is removed when no space follows it |
| `SummaryFormat.IndentedMarkerKept` | backend/src/services/llmService.ts:102 | an indented list marker is not stripped, because the regex is anchored before any white space |
| `SummaryFormat.LineCandidatesAreLines` | backend/src/services/llmService.ts:100-103 | no candidate of the newline path contains a newline |
| `SummaryFormat.ComposeLines` | backend/src/services/llmService.ts:119-121 | the composed text splits back into the bulleted first three candidates |
| `SummaryFormat.FormatListOutput` | backend/src/services/llmService.ts:93-136 | for a list reply of two or more kept lines that fits the limit, the output lines are exactly the bulleted first three kept lines |
| `SummaryFormat.FormatBlank` | backend/src/services/llmService.ts:114-116 | a reply of only white space and `\r` formats to the "unavailable" sentinel, whatever the limit |
| `SummaryFormat.FormatShape` | backend/src/services/llmService.ts:93-136 | the output is never empty, starts with a bullet for any positive limit, and is either the sentinel or at most maxChars + 3 long |
| `SummaryFormat.FormatAtMost153` | backend/src/services/llmService.ts:87-92 | with the service's limit of 150 the output has at most 153 characters |
| `SummaryFormat.SingleWordSummary` | backend/src/services/llmService.ts:106-121 | a one-word reply with no leading marker and no sentence terminator becomes one bullet, subject to the cap |
| `SummaryFormat.TruncateUncut` | backend/src/services/llmService.ts:124-133 | a text with no space past index 10 and no white space at its first or its maxChars-th character is cut at maxChars, and the result is exactly maxChars + 3 long |
| `SummaryFormat.LongWordExceeds150` | backend/src/services/llmService.ts:87-92 | a word of 149 or more characters with no leading marker and no sentence terminator formats to exactly 153 characters |
| `SummaryFormat.DocumentedBoundDoesNotHold` | backend/src/services/llmService.ts:87-92 | some reply formats to more than 150 characters |
| `SummaryExamples.HeaderedList` | backend/src/services/llmService.ts:100-121 | a narration header line followed by two dash items formats to exactly the two items as bullets, when the two bullet lines fit within the cap |
| `SummaryExamples.ListWithNarrationHeader` | backend/src/services/llmService.ts:100-121 | "Here is a summary:" followed by "- Buy milk" and "- Call mom" formats to "• Buy milk" and "• Call mom" |
| `SummaryExamples.FallbackDropsContent` | backend/src/services/llmService.ts:100-116 | when a narration header and a single content line are the only lines and neither line contains a sentence terminator, the newline path keeps just the content line, the sentence path drops the whole text, and the output is the sentinel |
| `SummaryExamples.FallbackLosesContent` | backend/src/services/llmService.ts:100-116 | "Here is:\nmilk" formats to "• Summary unavailable" although "milk" was kept on the newline path |
| `SummaryExamples.NarrationAfterContent` | backend/src/services/llmService.ts:100-133 | a content line followed by a narration line, neither with a sentence terminator: the newline path keeps only the content line, so the sentence path runs and the two-line text, narration included, is the one candidate and, subject to the cap, is printed under a single bullet |
| `SummaryExamples.NarrationLineSurvives` | backend/src/services/llmService.ts:100-133 | "milk\nThis is it" formats to "• milk\nThis is it", although "This is it" alone is narration |
| `SummaryExamples.NarratedProse` | backend/src/services/llmService.ts:106-121 | a prose reply of three terminator-free sentences joined by ". ", whose first sentence is narration, formats to its remaining two sentences as bullets when they fit within the cap |
| `SummaryExamples.ProseWithNarrationLead` | backend/src/services/llmService.ts:106-121 | "This is it. Save. Invest" formats to "• Save" and "• Invest" |
| `SummaryExamples.NarratedProseFinalStop` | backend/src/services/llmService.ts:106-121 | the same prose ending in a full stop formats the same way: the empty piece after the last "." is trimmed to "" and filtered out |
| `SummaryExamples.ProseWithFinalStop` | backend/src/services/llmService.ts:106-121 | "This is it. Save. Invest." also formats to "• Save" and "• Invest" |
| `SummaryExamples.NumberedItemKeepsDot` | backend/src/services/llmService.ts:102 | a one-digit numbered item keeps its ". " after cleaning |
| `SummaryExamples.TwoDigitItemKeepsDigit` | backend/src/services/llmService.ts:102 | a two-digit numbered item keeps its second digit and ". " after cleaning |
| `LlmService.DefaultConfig` | backend/src/services/llmService.ts:9-15 | model llama3, three retries and a 1000 ms starting delay; the URL is `OLLAMA_URL` when it is set and non-empty, otherwise http://localhost:11434; what this configuration implies for a call is `DefaultRun` |
| `LlmService.Prompt` | backend/src/services/llmService.ts:31-40 | the prompt template; its meaning is `PromptRoundTrip` (header, then the note verbatim, then a quote, and the note reads back) and `PromptInjective` |
| `LlmService.PromptRoundTrip` | backend/src/services/llmService.ts:31-40 | the prompt is the fixed rules header, then the note text verbatim, then a closing quote, so the note can be read back from it |
| `LlmService.PromptInjective` | backend/src/services/llmService.ts:31-40 | distinct notes are sent as distinct prompts |
| `LlmService.RequestFor` | backend/src/services/llmService.ts:44-53 | the POST goes to the URL plus /api/generate with the configured model, exactly `Prompt(noteText)` (the rules header, the note and the closing quote, by `PromptRoundTrip`), no streaming, temperature 0 and a 120000 ms timeout |
| `LlmService.Examine` | backend/src/services/llmService.ts:55-56 | an attempt yields a reply exactly when the response field is present and non-blank after trimming, and the reply is the trimmed text; a missing or blank response becomes the "Empty Llama response" error |
| `LlmService.Backoff` | backend/src/services/llmService.ts:79 | the pause after a failed attempt; `Delays`, `DefaultRun` and `FailTwiceThenReply` state its values (a doubling from retryDelay, 1000 and 2000 ms for the service) |
| `LlmService.Classify` | backend/src/services/llmService.ts:66-77 | the last attempt's error maps, in order, to the 404 message, the timeout message, the connect message naming the URL, or the generic one; each case holds exactly under its condition |
| `LlmService.Delays` | backend/src/services/llmService.ts:79-80 | the i-th pause is retryDelay times 2 to the power (attempt - 1) |
| `LlmService.RunFrom` | backend/src/services/llmService.ts:42-84 | the loop makes at most maxRetries POSTs, sleeps one back-off pause fewer than it makes POSTs, and fails only with one of the service's own messages |
| `LlmService.Run` | backend/src/services/llmService.ts:42-84 | the run from the first attempt, against which `Attempts` is proved; its properties are `FirstReplyWins`, `AllAttemptsFail`, `SucceedsIffSomeReply`, `BlankReplyRetried`, `NoAttempts` and `DefaultRun` |
| `LlmService.Finish` | backend/src/services/llmService.ts:58 | an error passes through; a reply is formatted with the 150-character budget; the bound this gives is `FinishWithinBound` |
| `LlmService.Attempts` | backend/src/services/llmService.ts:42-84 | the loop's reply, POST count and pauses are exactly those of the specified run, and every POST carries the same request for the note |
| `LlmService.LlamaSummarize` | backend/src/services/llmService.ts:26-84 | a call resolves or rejects with the formatted outcome of the specified run, making its POSTs and pauses |
| `LlmService.FirstReplyWins` | backend/src/services/llmService.ts:42-61 | the first non-blank reply is kept, after one POST per earlier failure and one pause after each of them |
| `LlmService.AllAttemptsFail` | backend/src/services/llmService.ts:63-81 | when every attempt fails, only the last error is classified, after maxRetries POSTs and maxRetries - 1 pauses |
| `LlmService.SucceedsIffSomeReply` | backend/src/services/llmService.ts:42-84 | a call resolves exactly when some attempt within the bound gets a non-blank reply |
| `LlmService.BlankReplyRetried` | backend/src/services/llmService.ts:55-56 | a blank reply is retried like a transport error, after the first pause |
| `LlmService.NoAttempts` | backend/src/services/llmService.ts:84 | a loop that runs zero times throws "Summarization failed" |
| `LlmService.DefaultRun` | backend/src/services/llmService.ts:11-12 | with the service's own configuration: one to three POSTs, pauses that are a prefix of [1000, 2000], and never "Summarization failed" |
| `LlmService.FailTwiceThenReply` | backend/src/services/llmService.ts:42-84 | two failures and then a reply give three POSTs, pauses of 1000 and 2000 ms, and the trimmed third reply |
| `LlmService.FinishWithinBound` | backend/src/services/llmService.ts:58 | a successful call resolves with at most 153 characters |
| `NoteService.ResolveBaseUrl` | backend/src/services/noteService.ts:25-26 | the caller's base URL when it is non-empty, else `FRONTEND_URL` when it is non-empty, else https://localhost:3000 |
| `NoteService.ShareUrl` | backend/src/services/noteService.ts:31 | the share link; `ShareUrlRoundTrip` states that it starts with its base and that the id is what follows its last '/' |
| `NoteService.ShareUrlRoundTrip` | backend/src/services/noteService.ts:31 | the share link starts with its base, and the note id is exactly what follows its last '/' |
| `NoteService.View` | backend/src/services/noteService.ts:47-51 | a reader sees the id, the text and the creation time, nothing else; `SummaryInvisibleToReaders` and `CreatedNoteIsViewable` state what this hides and shows |
| `NoteService.NewNote` | backend/src/services/noteService.ts:15-21 | a new note with the id, text and hash and no summary; `CreatedNoteIsViewable` states that it opens with its password and shows its text |
| `NoteService.WithSummary` | backend/src/services/noteService.ts:91-92 | caching sets the summary and its timestamp and keeps every other field |
| `NoteService.Guard` | backend/src/services/noteService.ts:36-45 | "Note not found" exactly when the id is absent, "Invalid password" exactly when the note exists and the password does not verify, and no error exactly when it does |
| `NoteService.CreatedNoteIsViewable` | backend/src/services/noteService.ts:10-52 | after creating a note, opening it with the password handed back shows the stored text |
| `NoteService.SummaryInvisibleToReaders` | backend/src/services/noteService.ts:91-93 | caching a summary keeps the store keyed by id and changes nothing a reader is shown, for any note |
| `NoteService.NoteStore.constructor` | backend/src/services/noteService.ts:7 | the model's store starts empty (the source opens a persistent table) |
| `NoteService.NoteStore.CreateNote` | backend/src/services/noteService.ts:10-33 | the new note is stored under its id with the hash of the password and no summary, nothing else changes, and the reply carries the id, the plain password and the share link |
| `NoteService.NoteStore.ViewNote` | backend/src/services/noteService.ts:35-52 | not found, invalid password, or the reader's view of the note, each exactly under its condition; the store is not touched |
| `NoteService.NoteStore.SummarizeNote` | backend/src/services/noteService.ts:54-105 | a guard failure changes nothing and sends no request; otherwise the Llama client is always called (there is no cache), a failure is re-thrown with the "Failed to generate summary: " prefix and leaves the store unchanged, and a success stores the summary on that one note and answers `cached: false` |
| `NoteService.NoteStore.SaveSummary` | backend/src/services/noteService.ts:91-93 | only the one note changes: it gets the summary and its timestamp, every other field and every other note stays, and the store stays keyed by id |
| `NotesApi.CreateBaseUrl` | backend/src/api/notes.ts:18-24 | no base URL in development; otherwise the forwarded protocol, else the request's, else https, then "://", then the Host header, else the host name; the link this yields is `ShareLinkOrigin` |
| `NotesApi.ShareLinkOrigin` | backend/src/api/notes.ts:18-25 | outside development the link is on the request's own origin; in development it is on `FRONTEND_URL` or the local default |
| `NotesApi.ViewErrorResponse` | backend/src/api/notes.ts:44-52 | 404 exactly for "Note not found", 401 exactly for "Invalid password", and 500 "Failed to retrieve note" for anything else |
| `NotesApi.SummarizeErrorResponse` | backend/src/api/notes.ts:74-87 | 404 and 401 as for reading; 503 exactly when the message contains "OpenAI API key not configured"; 500 otherwise |
| `NotesApi.CreateRoute` | backend/src/api/notes.ts:15-30 | a body the validator rejects gets its 400 and leaves the store alone; an accepted one is stored and answered with 201 and the created note |
| `NotesApi.GetRoute` | backend/src/api/notes.ts:33-53 | no password gives 400; otherwise the guard's error is mapped to its status, or the note's view is sent with 200 |
| `NotesApi.SummarizeRoute` | backend/src/api/notes.ts:56-88 | no password gives 400 and sends no request to Llama; a guard failure sends none either; otherwise every request is the note's generate request, one per attempt; a guard or Llama failure is mapped to its status and leaves the store unchanged; a success answers 200 with the reply and stores the summary |
| `NotesApi.LlmFailureStatus` | backend/src/api/notes.ts:83-86 | a Llama failure is answered with 503 only for the connect message whose URL contains "OpenAI API key not configured"; every other failure gets 500 |
| `NotesApi.LlmFailureIs500` | backend/src/api/notes.ts:77-86 | with the service's configuration and an `OLLAMA_URL` that does not contain that text, every failure of the Llama client is a 500 (guard failures are 404 and 401, by `SummarizeErrorResponse`) |
| `NotesApi.ConfiguredUrlCanYield503` | backend/src/api/notes.ts:83-85 | `OLLAMA_URL` "http://localhost:1/OpenAI API key not configured" with refused connections does produce a 503 |

## Left out

- Strings are sequences of Unicode code points. JavaScript's `length`, `slice` and `lastIndexOf` count UTF-16 code units. The 500-character limit and the 150-character cap therefore differ from the code for characters outside the Basic Multilingual Plane.
- The regex `i` flag is modelled as ASCII case folding. The patterns are plain ASCII and carry no `u` flag, and under those conditions JavaScript folds no other character onto them.
- `NaN` is falsy in the validator, but the number model has no `NaN`.
- axios, bcrypt, uuid and the database are not modelled. The HTTP replies, `hash`, `compare`, the note id and the clock are parameters instead.
- `generatePassword` (noteService.ts:107-109) is not modelled, because it is built on `Math.random`. The password is a parameter.
- `setTimeout` is not performed. The pauses are returned as a sequence of delays.
- Console logging is left out.
- The `LlmService` singleton and its `getInstance` are left out. The configuration is a value.
- Errors thrown by the repository are not modelled. Such a failure would give a 500 "Failed to create note" (notes.ts:27-29), and similar 500s on the other routes. The store in the model never fails. One consequence: `id` is a uuid column (models/Note.ts:14), so a non-UUID id in the URL makes Postgres fail the query and the source answers 500 "Failed to retrieve note" (or "Failed to summarize note"), where the model answers 404.
- A note's `createdAt` is passed in, not set by the database.
- A `password` query or body field that is not a string (an array or an object) is not modelled. Passwords are optional strings.
- The summarise rate limiter (notes.ts:6-10) is left out, because it depends on time and client IPs.
- The frontend, the server bootstrap, the database setup and the entity file are not part of this model.
- `LlmService.LlamaSummarize`: the code formats the reply inside the `try` block, while the model formats it after the loop. The formatter cannot throw, so the two are equivalent.
