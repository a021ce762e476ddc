/**
 * The recording and message handling of the browser page
 * (static/script.js): the name the recording is uploaded under, the
 * transcript the page keeps, and the page state that `sendMessage` and
 * `transcribeAudio` change.
 */
module Client {
  import opened Text
  import opened Oracle
  import opened Markdown
  import opened Corrector
  import opened StreamReader
  import FlaskApp

  /** The bot bubble shown when the chat request fails. */
  const ServerErrorText := "Désolé, une erreur s'est produite lors de la communication avec le serveur."

  /** The alert shown when no transcript can be used. */
  const TranscriptionAlert := "Erreur lors de la transcription. Veuillez réessayer."

  /** The placeholder of the input while a recording is being transcribed. */
  const TranscribingPlaceholder := "🎤 Transcription en cours..."

  /** The extension of the recording's file name, from the blob's MIME type. */
  function BlobExtension(mimeType: string): (r: string)
    ensures r == "webm" || r == "ogg" || r == "mp4" || r == "wav"
    ensures r == "webm" <==> Contains(mimeType, "webm")
    ensures r == "ogg" <==> !Contains(mimeType, "webm") && Contains(mimeType, "ogg")
    ensures r == "mp4" <==> !Contains(mimeType, "webm") && !Contains(mimeType, "ogg") && Contains(mimeType, "mp4")
  {
    if Contains(mimeType, "webm") then "webm"
    else if Contains(mimeType, "ogg") then "ogg"
    else if Contains(mimeType, "mp4") then "mp4"
    else "wav"
  }

  /** The name the recording is uploaded under. */
  function RecordingName(mimeType: string): (r: string)
    ensures StartsWith(r, "recording.") && r[|"recording."|..] == BlobExtension(mimeType)
  {
    "recording." + BlobExtension(mimeType)
  }

  /** The server reads back the extension the page chose. */
  lemma ServerReadsBlobExtension(mimeType: string)
    ensures FlaskApp.UploadExtension(RecordingName(mimeType)) == BlobExtension(mimeType)
  {
    var ext := BlobExtension(mimeType);
    assert '.' !in ext;
    FlaskApp.UploadExtensionOfRecording(ext);
  }

  /** The transcript the page keeps: the corrected one when non-empty, else the raw one; none when both are empty. */
  function ChooseTranscription(raw: string, corrected: string): (r: Option<string>)
    ensures r.Some? <==> raw != "" || corrected != ""
    ensures r.Some? ==> r.value != "" && (r.value == corrected || r.value == raw)
    ensures corrected != "" ==> r == Some(corrected)
  {
    if corrected != "" then Some(corrected) else if raw != "" then Some(raw) else None
  }

  /** The transcript taken from the endpoint's answer: only a successful answer with a usable transcript gives one. */
  function TranscriptionOf(response: FlaskApp.HttpResponse): (r: Option<string>)
    ensures r.Some? ==> 200 <= response.status < 300 && response.body.TranscriptBody? && r.value != ""
    ensures 200 <= response.status < 300 && response.body.TranscriptBody? ==>
              r == ChooseTranscription(response.body.raw, response.body.corrected)
  {
    if 200 <= response.status < 300 && response.body.TranscriptBody? then
      ChooseTranscription(response.body.raw, response.body.corrected)
    else None
  }

  /**
   * A silent recording is an error for the page: an empty raw transcript
   * is never corrected into a longer one, so both are empty and no
   * transcript is kept.
   */
  lemma SilentRecordingIsAnError(reply: Reply<string>)
    ensures ChooseTranscription("", Corrected("", reply)) == None
    ensures TranscriptionOf(FlaskApp.HttpResponse(200, FlaskApp.TranscriptBody("", Corrected("", reply)))) == None
  {
  }

  /** Who a message bubble belongs to. */
  datatype Sender = UserSender | Bot

  /** A bubble of the conversation: its sender and the HTML it shows. */
  datatype Bubble = Bubble(sender: Sender, html: string)

  /** The page's state that the modelled functions change. */
  class Page {
    var inputValue: string
    var inputDisabled: bool
    var placeholder: string
    var currentTranscription: string
    var bubbles: seq<Bubble>
    var alerts: seq<string>
    /** The text of the bot bubble shown when the chat request fails. */
    const serverError: string

    constructor (placeholder: string)
      ensures inputValue == "" && !inputDisabled && this.placeholder == placeholder
      ensures currentTranscription == "" && bubbles == [] && alerts == []
      ensures serverError == ServerErrorText
    {
      serverError := ServerErrorText;
      inputValue := "";
      inputDisabled := false;
      this.placeholder := placeholder;
      currentTranscription := "";
      bubbles := [];
      alerts := [];
    }

    /**
     * `sendMessage`: a trimmed input that is empty sends nothing. Otherwise
     * the input is cleared, the message shown, and posted; `chat` is the
     * endpoint, giving the chunks of a successful response or None for a
     * failed one, which shows the error bubble instead of the answer.
     */
    method SendMessage(chat: string -> Option<seq<string>>, parse: Parser) returns (sent: Option<string>)
      modifies this
      ensures var message := Strip(old(inputValue), JavaScript);
              && (message == "" ==> sent == None && inputValue == old(inputValue) && bubbles == old(bubbles))
              && (message != "" ==>
                    && sent == Some(message)
                    && inputValue == ""
                    && bubbles == old(bubbles) + [Bubble(UserSender, message), AnswerBubble(chat(message), parse, serverError)])
      ensures sent.Some? ==> sent.value != ""
      ensures inputDisabled == old(inputDisabled) && placeholder == old(placeholder)
      ensures currentTranscription == old(currentTranscription) && alerts == old(alerts)
    {
      var message := Strip(inputValue, JavaScript);
      if message == "" {
        return None;
      }
      inputValue := "";
      ghost var before := bubbles;
      var shownQuestion := Bubble(UserSender, message);
      bubbles := bubbles + [shownQuestion];
      var answer := Answer(chat(message), parse, serverError);
      bubbles := bubbles + [answer];
      AppendTwo(before, shownQuestion, answer);
      sent := Some(message);
    }

    /**
     * `transcribeAudio`: the recording is uploaded as `recording.<ext>`;
     * the input is disabled under a placeholder meanwhile and given back
     * afterwards; a usable transcript fills the input, anything else raises
     * the alert.
     */
    method TranscribeAudio(mimeType: string, audio: seq<bv8>, transcribe: (string, seq<bv8>) -> FlaskApp.HttpResponse)
      returns (uploadedAs: string)
      modifies this
      ensures uploadedAs == RecordingName(mimeType)
      ensures placeholder == old(placeholder) && !inputDisabled && bubbles == old(bubbles)
      ensures var chosen := TranscriptionOf(transcribe(uploadedAs, audio));
              && (chosen.Some? ==>
                    inputValue == chosen.value && currentTranscription == chosen.value && alerts == old(alerts))
              && (chosen.None? ==>
                    inputValue == old(inputValue) && currentTranscription == old(currentTranscription)
                    && alerts == old(alerts) + [TranscriptionAlert])
    {
      var originalPlaceholder := placeholder;
      placeholder := TranscribingPlaceholder;
      inputDisabled := true;
      uploadedAs := RecordingName(mimeType);
      var response := transcribe(uploadedAs, audio);
      var chosen := TranscriptionOf(response);
      match chosen {
        case Some(text) =>
          currentTranscription := text;
          inputValue := text;
          placeholder := originalPlaceholder;
          inputDisabled := false;
        case None =>
          placeholder := originalPlaceholder;
          inputDisabled := false;
          alerts := alerts + [TranscriptionAlert];
      }
    }
  }

  /** The bot bubble for a chat request's outcome: the error text, or what the reader shows of the stream. */
  method Answer(response: Option<seq<string>>, parse: Parser, errorText: string) returns (answer: Bubble)
    ensures answer == AnswerBubble(response, parse, errorText)
  {
    match response {
      case None =>
        answer := Bubble(Bot, FormatMarkdown(errorText));
      case Some(chunks) =>
        var fullText, shown := ReadStream(chunks, parse);
        answer := Bubble(Bot, shown);
    }
  }

  lemma AppendTwo<T>(s: seq<T>, a: T, b: T)
    ensures s + [a] + [b] == s + [a, b]
  {
  }

  /** The answer bubble of a chat request: the error text for a failed response, else what the reader shows. */
  function AnswerBubble(response: Option<seq<string>>, parse: Parser, errorText: string): (b: Bubble)
    ensures b.sender == Bot
    ensures response.Some? ==> b.html == Shown(StreamText(response.value, Reader(parse)))
    ensures response.None? ==> b.html == FormatMarkdown(errorText)
  {
    match response
    case None => Bubble(Bot, FormatMarkdown(errorText))
    case Some(chunks) => Bubble(Bot, Shown(StreamText(chunks, Reader(parse))))
  }
}
