/**
 * `TranscriptionCorrector.correct_transcription`: a best-effort spelling pass
 * over a speech transcript. The correction service's reply is stripped, loses
 * at most one known "preface" phrase, and is thrown away in favour of the
 * transcript when it is more than twice as long or when the call failed.
 */
module Corrector {
  import opened Text
  import opened Oracle

  /** Phrases the service sometimes puts before its correction, in the order they are tried. */
  const UnwantedPrefixes: seq<string> := [
    "Voici la transcription corrigée :",
    "Voici la correction :",
    "La transcription corrigée est :",
    "Transcription corrigée :",
    "Correction :",
    "Voici :",
    "Le programme",
    "La première année"
  ]

  /**
   * The request sent to the correction service: the front end's fixed
   * instructions (their wording differs between the two front ends), then the
   * transcript.
   */
  function CorrectionPrompt(instructions: string, transcription: string): (r: seq<Message>)
    ensures |r| == 2 && r[0] == Message(System, instructions) && r[1] == Message(User, transcription)
  {
    [Message(System, instructions), Message(User, transcription)]
  }

  /** `corrected.lower().startswith(prefix.lower())`. */
  predicate HasPreface(corrected: string, prefix: string) {
    StartsWith(Lower(corrected), Lower(prefix))
  }

  /** Position of the first phrase of `prefixes` the reply starts with, or |prefixes| when there is none. */
  function FirstPreface(corrected: string, prefixes: seq<string>): (i: nat)
    ensures i <= |prefixes|
    ensures forall j :: 0 <= j < i ==> !HasPreface(corrected, prefixes[j])
    ensures i < |prefixes| ==> HasPreface(corrected, prefixes[i]) && |prefixes[i]| <= |corrected|
  {
    if prefixes == [] then 0
    else if HasPreface(corrected, prefixes[0]) then 0
    else 1 + FirstPreface(corrected, prefixes[1..])
  }

  /** The reply after the preface cut: the first matching phrase's length is cut off and the rest stripped. */
  function RemovePreface(corrected: string, prefixes: seq<string>): string {
    var i := FirstPreface(corrected, prefixes);
    if i == |prefixes| then corrected
    else Strip(corrected[|prefixes[i]|..], Python)
  }

  /** The loop over the preface list, which stops at the first phrase that matches. */
  method StripPreface(corrected: string, prefixes: seq<string>) returns (r: string)
    ensures r == RemovePreface(corrected, prefixes)
  {
    r := corrected;
    for i := 0 to |prefixes|
      invariant r == corrected
      invariant forall j :: 0 <= j < i ==> !HasPreface(corrected, prefixes[j])
    {
      var prefix := prefixes[i];
      if StartsWith(Lower(r), Lower(prefix)) {
        assert FirstPreface(corrected, prefixes) == i by {
          FirstPrefaceIs(corrected, prefixes, i);
        }
        r := Strip(r[|prefix|..], Python);
        return;
      }
    }
    assert FirstPreface(corrected, prefixes) == |prefixes| by {
      FirstPrefaceIs(corrected, prefixes, |prefixes|);
    }
  }

  /** FirstPreface is the first index whose phrase matches (or the end when none does). */
  lemma {:induction false} FirstPrefaceIs(corrected: string, prefixes: seq<string>, i: nat)
    requires i <= |prefixes|
    requires forall j :: 0 <= j < i ==> !HasPreface(corrected, prefixes[j])
    requires i < |prefixes| ==> HasPreface(corrected, prefixes[i])
    ensures FirstPreface(corrected, prefixes) == i
  {
    if prefixes != [] && i > 0 {
      assert !HasPreface(corrected, prefixes[0]);
      FirstPrefaceIs(corrected, prefixes[1..], i - 1);
    }
  }

  /** What `correct_transcription` returns for a given reply of the correction service. */
  function Corrected(transcription: string, reply: Reply<string>): (r: string)
    ensures |r| <= 2 * |transcription|
    ensures reply.Fail? ==> r == transcription
    ensures r == transcription || (reply.Ok? && |r| <= |reply.value|)
  {
    match reply
    case Fail(_) => transcription
    case Ok(content) =>
      var corrected := RemovePreface(Strip(content, Python), UnwantedPrefixes);
      RemovePrefaceShortens(Strip(content, Python), UnwantedPrefixes);
      if |corrected| > |transcription| * 2 then transcription else corrected
  }

  /** Cutting a preface never makes the reply longer. */
  lemma RemovePrefaceShortens(corrected: string, prefixes: seq<string>)
    ensures |RemovePreface(corrected, prefixes)| <= |corrected|
  {
  }

  /** `TranscriptionCorrector.correct_transcription`, given the correction service. */
  method CorrectTranscription(instructions: string, transcription: string, complete: Completion) returns (r: string)
    ensures r == Corrected(transcription, complete(CorrectionPrompt(instructions, transcription)))
    ensures |r| <= 2 * |transcription|
  {
    var reply := complete(CorrectionPrompt(instructions, transcription));
    match reply {
      case Fail(_) =>
        r := transcription;
      case Ok(content) =>
        var corrected := Strip(content, Python);
        corrected := StripPreface(corrected, UnwantedPrefixes);
        if |corrected| > |transcription| * 2 {
          r := transcription;
        } else {
          r := corrected;
        }
    }
  }

  /** A reply longer than twice the transcript, even after its preface is cut, is replaced by the transcript. */
  lemma OverlongReplyFallsBack(transcription: string, content: string)
    requires |RemovePreface(Strip(content, Python), UnwantedPrefixes)| > 2 * |transcription|
    ensures Corrected(transcription, Ok(content)) == transcription
  {
  }

  /** A reply that differs from a phrase at some position, after lower-casing, does not start with it. */
  lemma NoPreface(corrected: string, prefix: string, k: nat)
    requires k < |prefix| && k < |corrected| && LowerChar(corrected[k]) != LowerChar(prefix[k])
    ensures !HasPreface(corrected, prefix)
  {
    if |prefix| <= |corrected| {
      assert Lower(corrected)[..|prefix|][k] != Lower(prefix)[k];
    }
  }

  /** The correction of a reply that has no surrounding whitespace and whose first matching phrase is the i-th. */
  lemma CorrectedAfter(transcription: string, c: string, i: nat)
    requires Strip(c, Python) == c
    requires i < |UnwantedPrefixes| && FirstPreface(c, UnwantedPrefixes) == i
    requires |Strip(c[|UnwantedPrefixes[i]|..], Python)| <= 2 * |transcription|
    ensures Corrected(transcription, Ok(c)) == Strip(c[|UnwantedPrefixes[i]|..], Python)
  {
  }

  /** A text with no whitespace at either end is its own strip. */
  lemma Unpadded(c: string)
    requires c != [] && !IsPySpace(c[0]) && !IsPySpace(c[|c| - 1])
    ensures Strip(c, Python) == c
  {
    StripPadded("", c, "", Python);
    assert "" + c + "" == c;
  }

  /** "Voici :" is the first phrase of the list that a reply starting with it matches. */
  lemma VoiciComesFirst(rest: string)
    ensures FirstPreface("Voici : " + rest, UnwantedPrefixes) == 5
  {
    var c := "Voici : " + rest;
    var p := UnwantedPrefixes;
    NoPreface(c, p[0], 6);
    NoPreface(c, p[1], 6);
    NoPreface(c, p[2], 0);
    NoPreface(c, p[3], 0);
    NoPreface(c, p[4], 0);
    assert HasPreface(c, p[5]) by {
      assert c[..7] == p[5];
      assert Lower(c)[..7] == Lower(p[5]);
    }
    FirstPrefaceIs(c, p, 5);
  }

  /** "Le programme" is the first phrase of the list that a reply starting with it matches. */
  lemma ProgrammeComesFirst(rest: string)
    ensures FirstPreface("Le programme" + rest, UnwantedPrefixes) == 6
  {
    var c := "Le programme" + rest;
    var p := UnwantedPrefixes;
    NoPreface(c, p[0], 0);
    NoPreface(c, p[1], 0);
    NoPreface(c, p[2], 1);
    NoPreface(c, p[3], 0);
    NoPreface(c, p[4], 0);
    NoPreface(c, p[5], 0);
    assert HasPreface(c, p[6]) by {
      assert c[..12] == p[6];
      assert Lower(c)[..12] == Lower(p[6]);
    }
    FirstPrefaceIs(c, p, 6);
  }

  /**
   * Only one phrase is cut: after "Voici :" is removed, what follows is kept
   * whole, even when it starts with a later entry of the list such as
   * "Le programme".
   */
  lemma OnlyOnePrefaceCut(transcription: string, rest: string)
    requires rest != [] && !IsPySpace(rest[0]) && !IsPySpace(rest[|rest| - 1])
    requires |rest| <= 2 * |transcription|
    ensures Corrected(transcription, Ok("Voici : " + rest)) == rest
  {
    var c := "Voici : " + rest;
    Unpadded(c);
    VoiciComesFirst(rest);
    assert c[7..] == " " + rest + "";
    StripPadded(" ", rest, "", Python);
    CorrectedAfter(transcription, c, 5);
  }

  /**
   * A phrase of the list that is ordinary sentence content is cut all the
   * same: a correct transcript such as "Le programme ?", returned untouched
   * by the service, comes back as "?".
   */
  lemma ContentPrefaceIsCut(transcription: string, rest: string)
    requires rest != [] ==> !IsPySpace(rest[|rest| - 1])
    requires |rest| <= 2 * |transcription|
    ensures Corrected(transcription, Ok("Le programme" + rest)) == Strip(rest, Python)
  {
    var c := "Le programme" + rest;
    Unpadded(c);
    ProgrammeComesFirst(rest);
    assert c[12..] == rest;
    CorrectedAfter(transcription, c, 6);
  }
}
