/**
 * The chatbot object of the Streamlit front end (model1.py). Its history is
 * tied to the restriction policy currently set in the session: a policy that
 * differs from the one of the last turn empties the history first. After a
 * committed turn the interaction is appended to the analytics file, whose
 * failure is reported as one more error fragment.
 */
module StreamlitBot {
  import opened Text
  import opened Oracle
  import opened Conversation
  import opened Clarifier
  import opened Corrector
  import opened Speech
  import opened Generation

  /** The only fragment of a turn when there is no document store. */
  const NoDocuments := "⚠️ Créez un dossier 'docs/' avec des PDFs des formations"

  /** The wording of this front end's prompts (not modelled). */
  const DetectorInstructions: string
  const CorrectorInstructions: string
  const ClarifierHead: string
  const ClarifierTail: string
  const PromptHead: string
  const PromptMiddle: string

  /** The suffix of the temporary file the recording is written to before transcription. */
  const AudioExtension := "wav"

  const BotPrompts := Prompts(DetectorInstructions, PromptHead, PromptMiddle, NoDocuments)

  /** The history a turn starts from: emptied when the policy is not the one of the previous turn. */
  function HistoryUnder(history: seq<Turn>, lastPolicy: Option<string>, policy: string): (r: seq<Turn>)
    ensures lastPolicy == Some(policy) ==> r == history
    ensures lastPolicy != Some(policy) ==> r == []
  {
    if lastPolicy == Some(policy) then history else []
  }

  /** The fragments of a turn: those of the generation step, then one error fragment when saving the analytics failed after a commit. */
  function Yielded(r: Outcome, logFailure: Option<string>): (f: seq<string>)
    ensures |f| == |r.fragments| + (if r.completed && logFailure.Some? then 1 else 0)
    ensures f[..|r.fragments|] == r.fragments
    ensures |f| > |r.fragments| ==> f[|f| - 1] == ErrorFragment(logFailure.value)
  {
    if r.completed && logFailure.Some? then r.fragments + [ErrorFragment(logFailure.value)] else r.fragments
  }

  /**
   * A failure to save the analytics comes after the commit: the turn is kept
   * in the history although the user is shown an error after the answer.
   */
  lemma LogFailureAfterCommit(r: Outcome, history: seq<Turn>, userQuery: string, failure: string)
    requires r.completed && r.history == history + [Turn(userQuery, Concat(r.fragments))]
    ensures var f := Yielded(r, Some(failure));
            && Concat(f) == r.history[|history|].assistant + ErrorFragment(failure)
            && f[|f| - 1] == ErrorFragment(failure)
  {
    var f := Yielded(r, Some(failure));
    ConcatAppend(r.fragments, [ErrorFragment(failure)]);
    assert Concat([ErrorFragment(failure)]) == "" + ErrorFragment(failure);
  }

  class PDFChatbot {
    const services: Services
    /** The correction and speech-to-text services. */
    const correction: Completion
    const whisper: SpeechToText
    const vectorStore: Option<Search>
    const clarifier: InteractiveClarifier
    var chatHistory: seq<Turn>
    /** The policy the current history was built under; None before the first turn. */
    var lastLimitations: Option<string>

    constructor (services: Services, correction: Completion, whisper: SpeechToText, vectorStore: Option<Search>)
      ensures this.services == services && this.correction == correction && this.whisper == whisper
      ensures this.vectorStore == vectorStore
      ensures fresh(clarifier) && clarifier.head == ClarifierHead && clarifier.tail == ClarifierTail
      ensures clarifier.conversationHistory == []
      ensures chatHistory == [] && lastLimitations == None
    {
      this.services := services;
      this.correction := correction;
      this.whisper := whisper;
      this.vectorStore := vectorStore;
      clarifier := new InteractiveClarifier(ClarifierHead, ClarifierTail);
      chatHistory := [];
      lastLimitations := None;
    }

    /** `transcribe_audio`: the recording is sent as a .wav file. */
    method TranscribeAudio(audioBytes: seq<bv8>) returns (r: string)
      ensures r == Transcript(whisper(audioBytes, AudioExtension))
    {
      var reply := whisper(audioBytes, AudioExtension);
      match reply {
        case Ok(text) => r := text;
        case Fail(error) => r := FailurePrefix + error;
      }
    }

    /**
     * `correct_and_transcribe`: the raw transcript and its correction; a raw
     * text that looks like an error is returned twice, without calling the
     * correction service.
     */
    method CorrectAndTranscribe(audioBytes: seq<bv8>) returns (raw: string, corrected: string)
      ensures raw == Transcript(whisper(audioBytes, AudioExtension))
      ensures LooksLikeError(raw) ==> corrected == raw
      ensures !LooksLikeError(raw) ==> corrected == Corrected(raw, correction(CorrectionPrompt(CorrectorInstructions, raw)))
      ensures |corrected| <= 2 * |raw| || LooksLikeError(raw)
    {
      raw := TranscribeAudio(audioBytes);
      if StartsWith(raw, ErrorMarker) {
        return raw, raw;
      }
      corrected := CorrectTranscription(CorrectorInstructions, raw, correction);
    }

    /**
     * `generate_response` for the session's current policy. `logFailure` is
     * the error raised by saving the analytics after a commit, if any.
     */
    method GenerateResponse(userQuery: string, limitations: string, logFailure: Option<string>)
      returns (fragments: seq<string>)
      modifies this, clarifier
      ensures lastLimitations == Some(limitations)
      ensures var r := Generate(BotPrompts, services, clarifier.head, clarifier.tail, vectorStore, limitations,
                                HistoryUnder(old(chatHistory), old(lastLimitations), limitations),
                                old(clarifier.conversationHistory), userQuery);
              && chatHistory == r.history
              && clarifier.conversationHistory == r.clarifications
              && fragments == Yielded(r, logFailure)
    {
      if lastLimitations != Some(limitations) {
        chatHistory := [];
        lastLimitations := Some(limitations);
      }
      var detectedLanguage := Language.DetectLanguage(DetectorInstructions, userQuery, services.detector);
      var clarifiedQuery := clarifier.ClarifyQuestion(userQuery, chatHistory, detectedLanguage, services.rewriter);
      if vectorStore.None? {
        fragments := [NoDocuments];
        return;
      }
      var relevantDocs := vectorStore.value(clarifiedQuery, TopK);
      var messages := Request(BotPrompts, limitations, relevantDocs, chatHistory, clarifiedQuery);
      var stream := services.generator(messages);
      var fullResponse := CollectFragments(stream.deltas);
      fragments := fullResponse;
      match stream.error {
        case Some(e) =>
          fragments := fragments + [ErrorFragment(e)];
        case None =>
          chatHistory := chatHistory + [Turn(userQuery, Concat(fullResponse))];
          if logFailure.Some? {
            fragments := fragments + [ErrorFragment(logFailure.value)];
          }
      }
    }
  }

  /**
   * A change of policy is applied before anything else: the clarifier sees
   * no earlier question and the generation request replays no earlier turn.
   */
  lemma PolicyChangeForgetsHistory(history: seq<Turn>, lastPolicy: Option<string>, policy: string, docs: seq<string>, query: string)
    requires lastPolicy != Some(policy)
    ensures ContextText(HistoryUnder(history, lastPolicy, policy)) == NoHistory
    ensures |Request(BotPrompts, policy, docs, HistoryUnder(history, lastPolicy, policy), query)| == 2
  {
  }
}
