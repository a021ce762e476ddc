# EMINES chatbot — a Dafny model of its core

The EMINES chatbot answers questions about the EMINES school. It uses
documents retrieved from a vector store and a streamed chat completion.
There are two front ends:

- a Streamlit page, `model1.py`;
- a Flask server, `app.py`, together with its browser script, `static/script.js`.

This project models the deterministic logic around the external services:

- **Transcription correction.** The `TranscriptionCorrector` strips the
  correction service's reply. It cuts at most one known "preface" phrase,
  and falls back to the raw transcript when the reply is more than twice as
  long or when the call failed.
- **Query clarification.** The `InteractiveClarifier` builds a context from
  the user's last two questions. It appends a response-language directive to
  the rewritten query and keeps a log of its successful rewrites.
- **`detect_language`.** The classifier's answer is stripped and lower-cased.
  Only `french`, `english` or `darija` is accepted; anything else, including
  a failed call, becomes `french`.
- **`generate_response`.** One generation step:
  - detect the language, then clarify the query;
  - with no store, yield a fixed message;
  - otherwise search with k = 3 and build the request (system message with
    the policy and context, the replayed history, the clarified query);
  - stream the non-empty deltas;
  - commit the turn only when the stream ends normally. A failure gives one
    `Erreur : ` fragment.

  The Streamlit bot first empties its history when the session's policy
  differs from the one of the previous turn. After a commit it reports an
  analytics failure as one more error fragment. The Flask bot keeps one
  policy and never resets.
- **`transcribe_audio` and `correct_and_transcribe`.** A failure is reported
  as a message starting with `Erreur`. Callers test for that prefix.
- **The Flask routes.**
  - `/api/chat` returns 400 on an empty message. Otherwise it returns one SSE
    event `data: {"text": ...}` per fragment, as Python's `json.dumps` writes
    it, then `data: [DONE]`.
  - `/api/transcribe` runs its checks in order: no file, empty file, a
    transcript that looks like an error, then success. The upload's
    extension is taken from its file name.
  - `/api/clear` empties the history.
- **The browser script.**
  - `sendMessage` sends nothing when the trimmed input is empty.
  - `formatMarkdown` handles bold, italics, bullets and line breaks.
  - The SSE reader splits **each network read** into lines on its own.
  - The recording's extension comes from its MIME type.
  - The page keeps the corrected transcript, else the raw one.

The external services are parameters of total function type (`Oracle`), so
contracts can say which request each service receives as well as what the
code does with any reply:

- chat completion;
- streamed completion;
- similarity search;
- speech to text;
- `JSON.parse(...).text` on the page.

A Python generator is modelled by the list of fragments it yields.

Modules:

- `Text`: strip/trim, lower, split and join.
- `Oracle`: the services.
- `Corrector`, `Language`, `Clarifier`, `Speech`: the components shared by
  both front ends.
- `Conversation` and `Generation`: the request and the commit rule.
- `StreamlitBot` and `FlaskApp`: the two front ends.
- `Json` and `EventStream`: the SSE body.
- `Markdown`, `StreamReader` and `Client`: the browser script.

## Model

| member | source | states |
|---|---|---|
| Text.Strip | model1.py:140 | `strip()`/`trim()` removes exactly the leading and trailing whitespace of the language's whitespace set; the result is a slice of the input with no whitespace at either end |
| Text.StripPadded | model1.py:414 | stripping a text padded with whitespace gives the text back |
| Text.Lower | model1.py:155 | `lower()` maps each character independently and keeps the length |
| Text.SplitAppend | app.py:447 | `split` on a one-character separator undoes joining: the pieces of `a + sep + b` are those of `a`, then those of `b` |
| Text.PiecesLackSeparator | app.py:447 | no piece of a split holds the separator |
| Text.LastPieceIsSuffix | app.py:447 | when the separator occurs, `split(sep)[-1]` is the text after the last separator (the name ends with separator + last piece) |
| Language.DetectionPrompt | model1.py:364-404 | the classifier gets the fixed instructions, then `Texte: <text>\nLangue:` |
| Language.DetectedLanguage | model1.py:414-425 | the result is always a label; `english`/`darija` exactly when the stripped, lower-cased reply is that word; `french` on any other reply and on failure |
| Language.DetectLanguage | app.py:226-265 | `detect_language` always returns one of the three labels |
| Language.LabelReadBack | model1.py:414-418 | a label surrounded by whitespace and in any capitalisation that `lower()` undoes is read as that label |
| Language.LabelsAreFixedPoints | model1.py:417-418 | each label returned verbatim is the detected language |
| Corrector.CorrectionPrompt | model1.py:92-130 | the correction service gets the fixed instructions, then the transcript |
| Corrector.FirstPreface | model1.py:143-157 | the index found is the first phrase of the list that the lower-cased reply starts with; no earlier phrase matches |
| Corrector.StripPreface | model1.py:154-157 | the preface loop stops at the first matching phrase, cuts its length and strips; with no match the reply is unchanged |
| Corrector.FirstPrefaceIs | model1.py:154-157 | a position where the first match occurs (or the list end, with no match) is the one the search returns |
| Corrector.Corrected | model1.py:138-168 | the correction is never longer than twice the transcript; a failed call gives the transcript; otherwise the result is the transcript or no longer than the reply |
| Corrector.RemovePrefaceShortens | model1.py:156 | cutting a preface never lengthens the reply |
| Corrector.CorrectTranscription | app.py:27-86 | `correct_transcription` returns `Corrected` of the service's reply to the correction prompt, at most twice the transcript's length |
| Corrector.OverlongReplyFallsBack | model1.py:161-163 | a reply still longer than twice the transcript after the preface cut is replaced by the transcript |
| Corrector.NoPreface | model1.py:155 | a reply that differs from a phrase at some position after lower-casing does not start with it |
| Corrector.VoiciComesFirst | model1.py:143-152 | a reply starting "Voici :" first matches the sixth phrase of the list |
| Corrector.ProgrammeComesFirst | model1.py:143-152 | a reply starting "Le programme" first matches the seventh phrase |
| Corrector.OnlyOnePrefaceCut | model1.py:154-157 | after "Voici :" is cut, the rest is kept whole even when it starts with a later phrase |
| Corrector.ContentPrefaceIsCut | model1.py:151-157 | a phrase that is real content ("Le programme ...") is cut all the same |
| Corrector.CorrectedAfter | model1.py:154-165 | for an unpadded reply whose first matching phrase is the i-th, the correction is the stripped rest after that phrase |
| Corrector.Unpadded | model1.py:140 | a text with no whitespace at either end is its own strip |
| Clarifier.Recent | model1.py:193 | `chat_history[-2:]`: the last two turns, or all when fewer |
| Clarifier.ContextText | model1.py:189-197 | the context holds only the user side, "Q: <question>", of at most the last two turns, joined by a newline; "Aucune conversation précédente" with no history |
| Clarifier.ClarificationPrompt | model1.py:199-245 | the rewriting service gets the instructions around the context, then the query |
| Clarifier.DirectiveSuffix | model1.py:257-260 | Darija and English add their directive; any other label adds nothing |
| Clarifier.Clarified | model1.py:252-272 | on success the result is the stripped reply followed by the directive of the language; on failure the query unchanged |
| Clarifier.LogEntries | model1.py:263-267 | a success logs one (original, clarified, language) record; a failure logs none |
| Clarifier.DirectiveOf | model1.py:257-260 | what a clarified query ends with determines a label |
| Clarifier.DirectiveRoundTrip | app.py:148-150 | a successful clarification carries exactly the detected language, read back from its end |
| Clarifier.DirectiveReadBack | model1.py:257-260 | a text not ending like a directive, followed by a label's directive, reads back as that label |
| Clarifier.EnglishIsNotDarija | model1.py:257-260 | the English directive never ends like the Darija one |
| Clarifier.FailureLosesDirective | model1.py:270-272 | a failed clarification returns the query without a directive: it is answered in French whatever was detected |
| Clarifier.InteractiveClarifier.constructor | model1.py:171-174 | the clarifier starts with an empty log |
| Clarifier.InteractiveClarifier.ClarifyQuestion | app.py:94-162 | returns `Clarified` of the reply to the prompt built from the history, and extends the log by exactly `LogEntries` |
| Speech.Transcript | model1.py:319-341 | the service's text on success; on failure "Erreur de transcription : " followed by the error |
| Speech.FailureIsFlagged | model1.py:352-353 | every failed transcription is caught by the callers' `startswith("Erreur")` |
| Speech.SpokenErrorIsFlagged | app.py:469-471 | a real transcript beginning with "Erreur" is treated as a failure too |
| Conversation.SystemContent | model1.py:449-534 | the system message starts with the fixed head, carries the policy verbatim right after it, and ends with the retrieved context |
| Conversation.Replay | model1.py:538-540 | the history is replayed as alternating user and assistant messages, oldest first |
| Conversation.BuildMessages | model1.py:449-542 | the request is the system message, the replayed history, then the clarified query |
| Conversation.ReplayRoundTrip | model1.py:538-540 | the turns can be read back from the replay: nothing of the history is lost |
| Conversation.HistoryIsReadableFromRequest | app.py:372-376 | the request's middle messages give back the history |
| Conversation.NonEmpty | model1.py:555-560 | every kept delta is non-empty, and no more are kept than were streamed |
| Conversation.NonEmptyOne | model1.py:557-560 | a single delta is kept exactly when it is non-empty |
| Conversation.NonEmptyAppend | model1.py:556-560 | the deltas are filtered one after the other: filtering distributes over concatenation, so the kept deltas stay in order |
| Conversation.ConcatNonEmpty | model1.py:557-559 | skipping empty deltas loses no text |
| Conversation.CollectFragments | app.py:387-392 | the loop keeps exactly the non-empty deltas, and their concatenation is the whole streamed text |
| Conversation.ErrorFragment | model1.py:574-575 | an exception becomes "Erreur : " followed by its message |
| Conversation.StreamFragments | model1.py:555-575 | the yielded fragments are the kept deltas, followed by one error fragment exactly when the stream failed |
| Conversation.CommitTurn | model1.py:562-565 | a normal end appends (query, whole streamed text); a failure leaves the history unchanged |
| Conversation.CommittedAnswerWasStreamed | app.py:394-397 | the committed answer is exactly the text the user was streamed, and earlier turns are kept |
| Generation.Request | model1.py:446-542 | the request is the system message, two messages per turn, then the clarified query |
| Generation.RequestCarriesPolicyAndHistory | model1.py:447-542 | the request carries the policy verbatim, the documents joined by newlines at the end of the system message, and the whole history |
| Generation.Generate | model1.py:433-575 | the clarifier log becomes the old log plus the record of a successful clarification of the query under the detected language (one record exactly when the rewriting call succeeds); with a store, the fragments, the new history and the completion flag are those of the generator's stream for the request built from the clarified query, `search(query, 3)` and the history, so the turn (query, streamed text) is committed exactly when that stream ends without error; with no store the only fragment is the fixed message and nothing is committed; no yielded fragment is empty when a store exists |
| Generation.NoStoreStillClarifies | model1.py:433-444 | with no store, detection and clarification still run and log their record before the fixed message |
| Generation.CompletedStreamIsCommitted | model1.py:555-565 | when the answer stream ends normally, the user is shown its non-empty deltas and the history gains (query, their whole text) |
| Generation.FailedStreamIsNotCommitted | model1.py:574-575 | a failed stream ends with an "Erreur : " fragment and commits nothing |
| StreamlitBot.HistoryUnder | model1.py:429-431 | a turn under a different policy starts from an empty history; under the same policy from the current one |
| StreamlitBot.Yielded | model1.py:562-575 | an analytics failure after a commit adds one error fragment after the answer |
| StreamlitBot.LogFailureAfterCommit | model1.py:562-575 | the turn stays committed although the user sees an error after the answer |
| StreamlitBot.PDFChatbot.constructor | model1.py:306-317 | empty history, no last policy, a fresh clarifier with an empty log |
| StreamlitBot.PDFChatbot.TranscribeAudio | model1.py:319-341 | the recording is sent as a .wav file; the result is `Transcript` of the reply |
| StreamlitBot.PDFChatbot.CorrectAndTranscribe | model1.py:343-359 | an error-looking raw text is returned twice without a correction call; otherwise the correction of the raw text |
| StreamlitBot.PDFChatbot.GenerateResponse | model1.py:427-575 | records the policy; history, log and fragments are those of `Generate` from `HistoryUnder` the policy |
| StreamlitBot.PolicyChangeForgetsHistory | model1.py:429-431 | after a policy change the clarifier sees no earlier question and the request replays no earlier turn |
| FlaskApp.PDFChatbot.constructor | app.py:196-211 | empty history, the fixed policy, a fresh clarifier with an empty log |
| FlaskApp.PDFChatbot.TranscribeAudio | app.py:213-224 | the result is `Transcript` of the service's reply for the uploaded file |
| FlaskApp.PDFChatbot.GenerateResponse | app.py:267-400 | history, log and fragments are those of `Generate` from the current history, with no reset |
| FlaskApp.ExtensionOf | app.py:447 | no dot gives `webm`; otherwise the name ends with "." followed by the result, which holds no dot |
| FlaskApp.ExtensionAfterDot | app.py:447 | a name `<base>.<ext>` with dot-free parts gives `<ext>` |
| FlaskApp.UploadExtension | app.py:446-447 | a missing file name counts as `recording.webm`, giving `webm` |
| FlaskApp.UploadExtensionOfRecording | app.py:446-447 | `recording.<ext>` gives `<ext>` |
| FlaskApp.Chat | app.py:412-426 | an empty or missing message gives 400 "Message vide" and changes nothing; otherwise 200 with the event body of `Generate`'s fragments, and the bot's state advanced as `Generate` says |
| FlaskApp.FrameAll | app.py:421-424 | one event per fragment, in order, then the closing event |
| FlaskApp.Transcribe | app.py:432-481 | the checks in order: no audio part 400; empty file 400; error-looking transcript 500 carrying it; else 200 with the raw and corrected transcripts |
| FlaskApp.ClearHistory | app.py:501-505 | the history is emptied; the clarifier's log is kept |
| FlaskApp.TurnKeepsEarlierTurns | app.py:394-397 | between two clears the history only grows, by at most one turn |
| Json.HexDigit | app.py:423 | the encoder writes lower-case hexadecimal digits |
| Json.DigitRoundTrip | app.py:423 | a written digit is read back |
| Json.HexRoundTrip | app.py:423 | four written digits are read back as the code unit |
| Json.UnitEscape | app.py:423 | `\uXXXX` escapes a code unit with four digits |
| Json.EscapeChar | app.py:423 | every escape is printable ASCII |
| Json.EscapePrintable | app.py:423 | an escaped text is printable ASCII |
| Json.TextObjectShape | app.py:423 | `json.dumps({'text': chunk})` is printable ASCII between braces, so never holds a line end |
| Json.UnescapeChar | app.py:423 | decoding undoes the escape of one character |
| Json.UnescapePair | app.py:423 | a character above U+FFFF is written as a surrogate pair and read back |
| Json.UnescapeEscape | app.py:423 | decoding undoes escaping |
| Json.DecodeTextObjectRoundTrip | app.py:423 | the object written for a chunk is read back as that chunk |
| EventStream.Frame | app.py:423 | an event is `data: `, then the fragment's JSON object, then a blank line |
| EventStream.FrameCarriesChunk | app.py:423 | an event starts with `data: ` and its payload decodes back to the fragment |
| EventStream.FrameIsOneLine | app.py:423 | an event is one line, then a blank line |
| EventStream.Events | app.py:421-424 | the events are one per fragment, then `data: [DONE]` |
| EventStream.OnlyLastIsDone | app.py:421-424 | exactly one event, the last, is the closing one |
| Markdown.Close | static/script.js:52-57 | a lazy `(.*?)` match ends at the first closing delimiter, on the same line; when there is no match, every later occurrence of the delimiter has a line terminator before it, so an unclosed delimiter is left alone |
| Markdown.ReplacePaired | static/script.js:52-57 | a text without the delimiter's first character is unchanged, and a non-empty text stays non-empty when the opening tag is non-empty |
| Markdown.PairReplaced | static/script.js:52-57 | a one-line span between delimiters is replaced by its tagged content |
| Markdown.BulletLine | static/script.js:60 | a line "- x" or "* x" with x non-empty becomes "• x"; any other line is unchanged |
| Markdown.LineEnd | static/script.js:60 | the first line terminator, where `^` and `$` of a multi-line pattern apply |
| Markdown.ReplaceNewlines | static/script.js:63 | no newline is left |
| Markdown.FormatMarkdown | static/script.js:50-66 | the output holds no newline and is empty only for an empty text |
| Markdown.ReplaceNewlinesAppend | static/script.js:63 | replacing newlines distributes over concatenation |
| Markdown.NewlinesBecomeBreaks | static/script.js:63 | lines joined by newlines come out joined by `<br>` |
| Markdown.BulletsSplit | static/script.js:60 | the bullet rule acts line by line |
| Markdown.BoldBecomesStrong | static/script.js:52-57 | `**x**` and `__x__` become `<strong>x</strong>`, not italics |
| Markdown.PlainTextUnchanged | static/script.js:50-66 | a one-line text without markup characters is shown as it is |
| Markdown.BulletList | static/script.js:60-63 | "- item" lines become "• item" lines joined by `<br>` |
| Markdown.BulletsOfLines | static/script.js:60 | each "- item" line of a list becomes "• item" |
| Markdown.CarriageReturnStartsBullet | static/script.js:60 | a "\r" also starts a line for the bullet rule, but is not turned into `<br>` |
| StreamReader.Shown | static/script.js:130-132 | the bubble is empty until some text arrived, and never holds a newline |
| StreamReader.ReadStream | static/script.js:112-140 | the accumulated text is that of each read split into lines on its own, and the bubble shows it formatted |
| StreamReader.ReadLines | static/script.js:120-138 | the lines of one read add their texts in order |
| StreamReader.DataLine | static/script.js:121-134 | a `data: ` line's payload is trimmed; it then adds nothing for `[DONE]` or an unparsable payload, and its parsed text otherwise |
| StreamReader.OtherLine | static/script.js:120-121 | a line that does not start with `data: ` adds nothing |
| StreamReader.UnpaddedDataLine | static/script.js:121-134 | for a payload with no space at its ends, the trim changes nothing |
| StreamReader.LinesTextAppend | static/script.js:120-138 | the text of lines distributes over concatenation |
| StreamReader.ChunkTextAtLineEnd | static/script.js:117-118 | a read ending a line can be joined to the next without changing the text |
| StreamReader.FrameText | static/script.js:117-134 | an event read alone gives its fragment, when parsing inverts the server's encoder |
| StreamReader.BodyText | static/script.js:117-134 | the whole body read at once gives the fragments joined |
| StreamReader.AlignedReads | static/script.js:112-140 | reads that each end a line give the text of the body read at once |
| StreamReader.WholeLineReadsShowAnswer | static/script.js:112-140 | when every read ends a line, the page accumulates exactly the fragments the server yielded |
| StreamReader.SplitEventIsLost | static/script.js:117-118 | a read boundary inside an event loses it: the one-fragment body cut after `data: {` shows nothing, read whole it shows the fragment |
| StreamReader.CompleteLines | static/script.js:117-118 | the complete lines hold no newline |
| StreamReader.PendingLine | static/script.js:117-118 | the unfinished last line holds no newline |
| StreamReader.ReadStreamBuffered | static/script.js:112-140 | with the unfinished line carried to the next read, the text is that of the complete lines of everything received |
| StreamReader.BufferedReaderShowsAnswer | static/script.js:112-140 | the buffered reader shows the whole answer however the body is cut into reads |
| Client.BlobExtension | static/script.js:421-423 | `webm`, `ogg`, `mp4` in that order of precedence when the MIME type contains them, else `wav` |
| Client.RecordingName | static/script.js:424 | the upload is named `recording.<ext>` |
| Client.ServerReadsBlobExtension | static/script.js:421-424 | the server reads back the extension the page chose |
| Client.ChooseTranscription | static/script.js:441-458 | the corrected transcript when non-empty, else the raw one; none when both are empty |
| Client.TranscriptionOf | static/script.js:433-458 | only a successful answer with a usable transcript gives one |
| Client.SilentRecordingIsAnError | static/script.js:441-458 | an empty transcript is never corrected into a usable one, so the page raises its alert |
| Client.AnswerBubble | static/script.js:145-149 | a failed request shows the error bubble; a successful one shows what the reader accumulated |
| Client.Answer | static/script.js:69-150 | computes the answer bubble of a chat request |
| Client.Page.constructor | static/script.js:1-5 | empty input, no transcript, no bubbles, no alerts |
| Client.Page.SendMessage | static/script.js:21-47 | a trimmed-empty input sends nothing and changes nothing; otherwise the input is cleared and the question and answer bubbles are appended |
| Client.Page.TranscribeAudio | static/script.js:410-468 | uploads as `recording.<ext>`; gives the input back enabled under its placeholder; a usable transcript fills the input, otherwise one alert is raised |

## Left out

- The wording of the prompts and of the Flask policy are opaque constants. Whether the language models obey them is outside the model.
- `load_vector_store` (PDF reading, chunking, embeddings) is not modelled. The store is a search function or None.
- Analytics file I/O, timestamps, the visitor counter and `update_temperature` are not modelled. So are the dashboard (`analytics_dashboard.py`), the Streamlit `main()` page and the test scripts.
- Exceptions outside the modelled `try` blocks are left out: the routes' outer `except`, "Erreur serveur" and a missing JSON body. The temporary files of both front ends are left out too.
- The Flask `chatbot` is one global object shared by concurrent requests. The model runs one request at a time.
- Generators are drained eagerly. A client that stops reading part-way is not modelled.
- Text.Lower: `lower()` is modelled for ASCII and Latin-1 capitals only. Other Unicode case mappings are not.
- The whitespace sets of `strip()` and `trim()` are written out as Python's `str.isspace()` and ECMAScript's `trim` set. Encodings and normalisation are not modelled.
- StreamReader.ReadStream: UTF-8 decoding is assumed to cut at character boundaries. Each read is already text.
- The behaviour of the line reader `LineText` is stated by the lemmas `DataLine` and `OtherLine`, not by an ensures of its own.
- The multi-line `^`/`$` of the bullet rule also break at "\r", U+2028 and U+2029. The model follows the regular expression here; other regular-expression features are not modelled.
- The page's DOM is left out: the typing indicator, scrolling, `newChat` and `sendTranscription`.
- MediaRecorder is left out: the probing of supported MIME types, microphone errors and their alerts.
- The catch of `sendMessage` around a thrown `streamChatResponse` is left out. It is subsumed by the error bubble for a failed request.
- A failing `reader.read()` is not modelled.
- Client.Page.SendMessage: the server's answer is a parameter (the chunks of a successful response, or None).
- Client.Page.TranscribeAudio: the endpoint's answer is a parameter. A non-JSON error body is not modelled.

## Findings

| source | as written | input that shows it | evidently intended | confidence | as-written member | corrected member |
|---|---|---|---|---|---|---|
| static/script.js:117-118 | each network read is split into lines on its own, and an event cut by a read boundary is dropped | the body of a one-fragment answer, read as `data: {` and then the rest | the unfinished last line of a read is kept and completed by the next read, so the whole answer is shown | not executed | StreamReader.SplitEventIsLost | StreamReader.ReadStreamBuffered, StreamReader.BufferedReaderShowsAnswer |
