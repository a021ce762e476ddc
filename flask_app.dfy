/**
 * The Flask front end (app.py): its chatbot object, whose policy is fixed
 * at construction and whose history is never reset by a turn, and the
 * decisions of the `/api/chat`, `/api/transcribe` and `/api/clear` routes.
 */
module FlaskApp {
  import opened Text
  import opened Oracle
  import opened Conversation
  import opened Clarifier
  import opened Corrector
  import opened Speech
  import opened Generation
  import opened EventStream

  /** The only fragment of a turn when there is no document store. */
  const NoDocuments := "⚠️ Aucun document trouvé dans le dossier 'docs/'"

  /** The wording of this front end's prompts and of its fixed policy (not modelled). */
  const DetectorInstructions: string
  const CorrectorInstructions: string
  const ClarifierHead: string
  const ClarifierTail: string
  const PromptHead: string
  const PromptMiddle: string
  const DefaultLimitations: string

  const BotPrompts := Prompts(DetectorInstructions, PromptHead, PromptMiddle, NoDocuments)

  /** The file name used when the upload has none, and the extension used when the name has no dot. */
  const DefaultFilename := "recording.webm"
  const DefaultExtension := "webm"

  /** The body of a JSON or event-stream response. */
  datatype Payload =
    | ErrorBody(error: string)
    | EventBody(text: string)
    | TranscriptBody(raw: string, corrected: string)
    | SuccessBody

  datatype HttpResponse = HttpResponse(status: nat, body: Payload)

  /** The `audio` part of a multipart upload: its file name ("" when absent) and its bytes. */
  datatype AudioPart = AudioPart(filename: string, content: seq<bv8>)

  class PDFChatbot {
    const services: Services
    const correction: Completion
    const whisper: SpeechToText
    const vectorStore: Option<Search>
    const clarifier: InteractiveClarifier
    const limitations: string
    var chatHistory: seq<Turn>

    constructor (services: Services, correction: Completion, whisper: SpeechToText, vectorStore: Option<Search>)
      ensures this.services == services && this.correction == correction && this.whisper == whisper
      ensures this.vectorStore == vectorStore && limitations == DefaultLimitations
      ensures fresh(clarifier) && clarifier.head == ClarifierHead && clarifier.tail == ClarifierTail
      ensures clarifier.conversationHistory == []
      ensures chatHistory == []
    {
      this.services := services;
      this.correction := correction;
      this.whisper := whisper;
      this.vectorStore := vectorStore;
      clarifier := new InteractiveClarifier(ClarifierHead, ClarifierTail);
      limitations := DefaultLimitations;
      chatHistory := [];
    }

    /** `transcribe_audio`: the uploaded file goes to the service with its own extension. */
    method TranscribeAudio(audio: seq<bv8>, extension: string) returns (r: string)
      ensures r == Transcript(whisper(audio, extension))
    {
      var reply := whisper(audio, extension);
      match reply {
        case Ok(text) => r := text;
        case Fail(error) => r := FailurePrefix + error;
      }
    }

    /**
     * `generate_response`: one generation step from the current history,
     * under the fixed policy; nothing is reset first.
     */
    method GenerateResponse(userQuery: string) returns (fragments: seq<string>)
      modifies this, clarifier
      ensures var r := Generate(BotPrompts, services, clarifier.head, clarifier.tail, vectorStore, limitations,
                                old(chatHistory), old(clarifier.conversationHistory), userQuery);
              && chatHistory == r.history
              && clarifier.conversationHistory == r.clarifications
              && fragments == r.fragments
    {
      var detectedLanguage := Language.DetectLanguage(DetectorInstructions, userQuery, services.detector);
      var clarifiedQuery := clarifier.ClarifyQuestion(userQuery, chatHistory, detectedLanguage, services.rewriter);
      if vectorStore.None? {
        fragments := [NoDocuments];
        return;
      }
      var relevantDocs := vectorStore.value(clarifiedQuery, TopK);
      var messages := Request(BotPrompts, limitations, relevantDocs, chatHistory, clarifiedQuery);
      var stream := services.generator(messages);
      var fullResponse := CollectFragments(stream.deltas);
      fragments := fullResponse;
      match stream.error {
        case Some(e) =>
          fragments := fragments + [ErrorFragment(e)];
        case None =>
          chatHistory := chatHistory + [Turn(userQuery, Concat(fullResponse))];
      }
    }
  }

  /**
   * The extension of a file name: the text after its last dot, or `webm`
   * when it has no dot.
   */
  function ExtensionOf(name: string): (r: string)
    ensures '.' !in r
    ensures '.' !in name ==> r == DefaultExtension
    ensures '.' in name ==> EndsWith(name, "." + r)
  {
    if '.' !in name then DefaultExtension
    else
      var pieces := Split(name, '.');
      LastPieceIsSuffix(name, '.');
      PiecesLackSeparator(name, '.');
      pieces[|pieces| - 1]
  }

  /** A name `<base>.<ext>` whose base and extension have no dot is read back as that extension. */
  lemma {:induction false} ExtensionAfterDot(base: string, ext: string)
    requires '.' !in base && '.' !in ext
    ensures ExtensionOf(base + "." + ext) == ext
  {
    var name := base + "." + ext;
    assert name == base + ['.'] + ext;
    assert name[|base|] == '.';
    SplitAppend(base, '.', ext);
    SplitNone(base, '.');
    SplitNone(ext, '.');
  }

  /**
   * The extension of the uploaded file: that of its name, `recording.webm`
   * standing for a missing name.
   */
  function UploadExtension(filename: string): (r: string)
    ensures '.' !in r
    ensures filename == "" ==> r == DefaultExtension
    ensures filename != "" ==> r == ExtensionOf(filename)
  {
    if filename == "" then
      assert DefaultFilename == "recording" + "." + DefaultExtension;
      ExtensionAfterDot("recording", DefaultExtension);
      ExtensionOf(DefaultFilename)
    else ExtensionOf(filename)
  }

  /** The name the browser gives its recordings, `recording.<ext>`, is read back as `<ext>`. */
  lemma UploadExtensionOfRecording(ext: string)
    requires '.' !in ext
    ensures UploadExtension("recording." + ext) == ext
  {
    assert "recording." + ext == "recording" + "." + ext;
    ExtensionAfterDot("recording", ext);
  }

  /**
   * `/api/chat`: 400 for a missing or empty message, without generating;
   * otherwise the event stream of the turn's fragments.
   */
  method Chat(bot: PDFChatbot, message: Option<string>) returns (response: HttpResponse)
    modifies bot, bot.clarifier
    ensures message.None? || message.value == "" ==>
              && response == HttpResponse(400, ErrorBody("Message vide"))
              && bot.chatHistory == old(bot.chatHistory)
              && bot.clarifier.conversationHistory == old(bot.clarifier.conversationHistory)
    ensures message.Some? && message.value != "" ==>
              var r := Generate(BotPrompts, bot.services, bot.clarifier.head, bot.clarifier.tail, bot.vectorStore,
                                bot.limitations, old(bot.chatHistory), old(bot.clarifier.conversationHistory), message.value);
              && response == HttpResponse(200, EventBody(Body(r.fragments)))
              && bot.chatHistory == r.history
              && bot.clarifier.conversationHistory == r.clarifications
  {
    var text := if message.Some? then message.value else "";
    if text == "" {
      return HttpResponse(400, ErrorBody("Message vide"));
    }
    var fragments := bot.GenerateResponse(text);
    var events := FrameAll(fragments);
    return HttpResponse(200, EventBody(Concat(events)));
  }

  /** The response generator of `/api/chat`: one event per fragment, in order, then the closing event. */
  method FrameAll(fragments: seq<string>) returns (events: seq<string>)
    ensures events == Events(fragments)
  {
    events := [];
    for i := 0 to |fragments|
      invariant |events| == i
      invariant forall k :: 0 <= k < i ==> events[k] == Frame(fragments[k])
    {
      events := events + [Frame(fragments[i])];
    }
    events := events + [DoneFrame];
  }

  /**
   * `/api/transcribe`, its checks in order: no audio part (400), an empty
   * file (400), a transcript that looks like an error (500, carrying it, and
   * no correction call), otherwise the raw and corrected transcripts.
   */
  method Transcribe(bot: PDFChatbot, audio: Option<AudioPart>) returns (response: HttpResponse)
    ensures audio.None? ==> response == HttpResponse(400, ErrorBody("Aucun fichier audio"))
    ensures audio.Some? && |audio.value.content| == 0 ==> response == HttpResponse(400, ErrorBody("Fichier audio vide"))
    ensures audio.Some? && |audio.value.content| > 0 ==>
              var raw := Transcript(bot.whisper(audio.value.content, UploadExtension(audio.value.filename)));
              && (LooksLikeError(raw) ==> response == HttpResponse(500, ErrorBody(raw)))
              && (!LooksLikeError(raw) ==>
                    response == HttpResponse(200, TranscriptBody(raw, Corrected(raw, bot.correction(CorrectionPrompt(CorrectorInstructions, raw))))))
  {
    if audio.None? {
      return HttpResponse(400, ErrorBody("Aucun fichier audio"));
    }
    var audioFile := audio.value;
    var extension := UploadExtension(audioFile.filename);
    if |audioFile.content| == 0 {
      return HttpResponse(400, ErrorBody("Fichier audio vide"));
    }
    var rawTranscription := bot.TranscribeAudio(audioFile.content, extension);
    if StartsWith(rawTranscription, ErrorMarker) {
      return HttpResponse(500, ErrorBody(rawTranscription));
    }
    var correctedTranscription := CorrectTranscription(CorrectorInstructions, rawTranscription, bot.correction);
    return HttpResponse(200, TranscriptBody(rawTranscription, correctedTranscription));
  }

  /** `/api/clear`: the history is emptied; the clarifier's own log is kept. */
  method ClearHistory(bot: PDFChatbot) returns (response: HttpResponse)
    modifies bot
    ensures bot.chatHistory == [] && response == HttpResponse(200, SuccessBody)
    ensures bot.clarifier.conversationHistory == old(bot.clarifier.conversationHistory)
  {
    bot.chatHistory := [];
    return HttpResponse(200, SuccessBody);
  }

  /**
   * Between two calls to `/api/clear` the history only grows, one turn per
   * completed answer: a turn never loses earlier turns.
   */
  lemma TurnKeepsEarlierTurns(
    services: Services, head: string, tail: string, store: Option<Search>, policy: string,
    history: seq<Turn>, log: seq<Record>, userQuery: string)
    ensures var r := Generate(BotPrompts, services, head, tail, store, policy, history, log, userQuery);
            history <= r.history && |r.history| <= |history| + 1
  {
  }
}
