/**
 * `PDFChatbot.detect_language`: the classifier's reply is stripped,
 * lower-cased and accepted only when it is one of the three labels; any other
 * reply, and any failure of the call, gives "french".
 */
module Language {
  import opened Text
  import opened Oracle

  const French := "french"
  const English := "english"
  const Darija := "darija"

  predicate IsLabel(s: string) {
    s == French || s == English || s == Darija
  }

  /**
   * The request sent to the classifier: the front end's fixed instructions
   * (their wording differs between the two front ends), then
   * "Texte: <text>\nLangue:".
   */
  function DetectionPrompt(instructions: string, text: string): (r: seq<Message>)
    ensures |r| == 2 && r[0] == Message(System, instructions)
    ensures r[1].role == User && r[1].content == "Texte: " + text + "\nLangue:"
  {
    [Message(System, instructions), Message(User, "Texte: " + text + "\nLangue:")]
  }

  /** The label `detect_language` returns for a given reply of the classifier. */
  function DetectedLanguage(reply: Reply<string>): (r: string)
    ensures IsLabel(r)
    ensures r == English <==> reply.Ok? && Lower(Strip(reply.value, Python)) == English
    ensures r == Darija <==> reply.Ok? && Lower(Strip(reply.value, Python)) == Darija
    ensures r == French <==> reply.Fail? || !(Lower(Strip(reply.value, Python)) in {English, Darija})
  {
    match reply
    case Fail(_) => French
    case Ok(content) =>
      var detected := Lower(Strip(content, Python));
      if detected == French || detected == English || detected == Darija then detected else French
  }

  /** `PDFChatbot.detect_language`, given the classification service. */
  function DetectLanguage(instructions: string, text: string, complete: Completion): (r: string)
    ensures IsLabel(r)
  {
    DetectedLanguage(complete(DetectionPrompt(instructions, text)))
  }

  /**
   * The label survives whitespace around it and any capitalisation that
   * lower() undoes: a reply " English\n" is read as "english".
   */
  lemma {:induction false} LabelReadBack(left: string, word: string, right: string)
    requires AllSpace(left, Python) && AllSpace(right, Python)
    requires IsLabel(Lower(word))
    ensures DetectedLanguage(Ok(left + word + right)) == Lower(word)
  {
    assert |word| > 0;
    assert !IsPySpace(word[0]) by {
      assert Lower(word)[0] == LowerChar(word[0]);
    }
    assert !IsPySpace(word[|word| - 1]) by {
      assert Lower(word)[|word| - 1] == LowerChar(word[|word| - 1]);
    }
    StripPadded(left, word, right, Python);
  }

  /** Each label, returned verbatim by the classifier, is the detected language. */
  lemma LabelsAreFixedPoints(name: string)
    requires IsLabel(name)
    ensures DetectedLanguage(Ok(name)) == name
  {
    assert Lower(name) == name;
    LabelReadBack("", name, "");
    assert "" + name + "" == name;
  }
}
