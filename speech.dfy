/**
 * `transcribe_audio` in both front ends: the speech-to-text service's
 * transcript, or, when the call raised, an error message in its place.
 * Callers tell the two apart only by the message's "Erreur" prefix.
 */
module Speech {
  import opened Text
  import opened Oracle

  /** What a failed transcription returns instead of a transcript. */
  const FailurePrefix := "Erreur de transcription : "

  /** The marker the callers test for. */
  const ErrorMarker := "Erreur"

  /** The text `transcribe_audio` returns for a given reply of the speech-to-text service. */
  function Transcript(reply: Reply<string>): (r: string)
    ensures reply.Ok? ==> r == reply.value
    ensures reply.Fail? ==> StartsWith(r, FailurePrefix) && r[|FailurePrefix|..] == reply.error
  {
    match reply
    case Ok(text) => text
    case Fail(error) =>
      var r := FailurePrefix + error;
      assert r[..|FailurePrefix|] == FailurePrefix;
      r
  }

  /** The callers' test: `raw_transcription.startswith("Erreur")`. */
  predicate LooksLikeError(raw: string) {
    StartsWith(raw, ErrorMarker)
  }

  /** Every failure is caught by the callers' test. */
  lemma FailureIsFlagged(error: string)
    ensures LooksLikeError(Transcript(Fail(error)))
  {
    var r := Transcript(Fail(error));
    assert r[..|ErrorMarker|] == FailurePrefix[..|ErrorMarker|] == ErrorMarker;
  }

  /**
   * The test is on the text alone: a recording whose transcript really begins
   * with the word "Erreur" is treated as a failed transcription.
   */
  lemma SpokenErrorIsFlagged(rest: string)
    ensures LooksLikeError(Transcript(Ok(ErrorMarker + rest)))
  {
    assert (ErrorMarker + rest)[..|ErrorMarker|] == ErrorMarker;
  }
}
