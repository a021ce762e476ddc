/**
 * `InteractiveClarifier.clarify_question`: rewrites a query with the help of
 * the user side of the last two turns, appends the response-language
 * directive, and keeps its own log of successful clarifications.
 */
module Clarifier {
  import opened Text
  import opened Oracle
  import opened Conversation
  import opened Language

  /** The context text used when there is no history. */
  const NoHistory := "Aucune conversation précédente"

  /** The directives appended for a query that must be answered in Darija or in English. */
  const DarijaDirective := " [RÉPONDS EN DARIJA MAROCAIN]"
  const EnglishDirective := " [RESPOND IN ENGLISH]"

  /** One entry of the clarifier's own log. */
  datatype Record = Record(original: string, clarified: string, language: string)

  /** The last two turns (or fewer): `chat_history[-2:]`. */
  function Recent(history: seq<Turn>): (r: seq<Turn>)
    ensures |r| == if |history| >= 2 then 2 else |history|
    ensures r == history[|history| - |r|..]
  {
    history[if |history| >= 2 then |history| - 2 else 0..]
  }

  /** One "Q: <user>" line per recent turn. */
  function QuestionLines(recent: seq<Turn>): (r: seq<string>)
    ensures |r| == |recent|
  {
    seq(|recent|, i requires 0 <= i < |recent| => "Q: " + recent[i].user)
  }

  /** The context text of the clarification prompt: only the user side of at most the last two turns. */
  function ContextText(history: seq<Turn>): (r: string)
    ensures |history| == 0 ==> r == NoHistory
    ensures |history| == 1 ==> r == "Q: " + history[0].user
    ensures |history| >= 2 ==> r == "Q: " + history[|history| - 2].user + "\n" + "Q: " + history[|history| - 1].user
  {
    if |history| == 0 then NoHistory
    else
      var recent := Recent(history);
      var lines := QuestionLines(recent);
      if |lines| == 2 then
        assert Join(lines[..1], "\n") == lines[0] == "Q: " + history[|history| - 2].user;
        Join(lines, "\n")
      else
        Join(lines, "\n")
  }

  /**
   * The request sent to the rewriting service: the instructions (`head` and
   * `tail`, worded differently by the two front ends) around the context
   * text, then the query.
   */
  function ClarificationPrompt(head: string, tail: string, context: string, userQuery: string): (r: seq<Message>)
    ensures |r| == 2 && r[0] == Message(System, head + context + tail)
    ensures r[1] == Message(User, userQuery)
  {
    [Message(System, head + context + tail), Message(User, userQuery)]
  }

  /** The directive appended for a detected language: one per non-French label, nothing otherwise. */
  function DirectiveSuffix(language: string): (r: string)
    ensures language == Darija ==> r == DarijaDirective
    ensures language == English ==> r == EnglishDirective
    ensures language != Darija && language != English ==> r == ""
  {
    if language == Darija then DarijaDirective
    else if language == English then EnglishDirective
    else ""
  }

  /** What `clarify_question` returns for a given reply of the rewriting service. */
  function Clarified(userQuery: string, reply: Reply<string>, language: string): (r: string)
    ensures reply.Fail? ==> r == userQuery
    ensures reply.Ok? ==> EndsWith(r, DirectiveSuffix(language))
                          && r[..|r| - |DirectiveSuffix(language)|] == Strip(reply.value, Python)
  {
    match reply
    case Fail(_) => userQuery
    case Ok(content) =>
      var r := Strip(content, Python) + DirectiveSuffix(language);
      assert r[..|r| - |DirectiveSuffix(language)|] == Strip(content, Python);
      r
  }

  /** The entries a clarification adds to the clarifier's log: one on success, none on failure. */
  function LogEntries(userQuery: string, reply: Reply<string>, language: string): (r: seq<Record>)
    ensures reply.Fail? ==> r == []
    ensures reply.Ok? ==> r == [Record(userQuery, Clarified(userQuery, reply, language), language)]
  {
    if reply.Ok? then [Record(userQuery, Clarified(userQuery, reply, language), language)] else []
  }

  /**
   * The response language a clarified query carries, read back from its end:
   * the generation prompt answers in Darija or English when the matching
   * directive is present, in French otherwise.
   */
  function DirectiveOf(clarified: string): (r: string)
    ensures IsLabel(r)
  {
    if EndsWith(clarified, DarijaDirective) then Darija
    else if EndsWith(clarified, EnglishDirective) then English
    else French
  }

  /**
   * The directive round-trips: a successful clarification carries exactly the
   * detected language, provided the rewritten text does not itself end like a
   * directive.
   */
  lemma DirectiveRoundTrip(userQuery: string, content: string, language: string)
    requires IsLabel(language)
    requires !EndsWith(Strip(content, Python), DarijaDirective) && !EndsWith(Strip(content, Python), EnglishDirective)
    ensures DirectiveOf(Clarified(userQuery, Ok(content), language)) == language
  {
    var t := Strip(content, Python);
    assert Clarified(userQuery, Ok(content), language) == t + DirectiveSuffix(language);
    DirectiveReadBack(t, language);
  }

  /** A text that does not end like a directive, followed by the directive of a label, reads back as that label. */
  lemma DirectiveReadBack(t: string, language: string)
    requires IsLabel(language)
    requires !EndsWith(t, DarijaDirective) && !EndsWith(t, EnglishDirective)
    ensures DirectiveOf(t + DirectiveSuffix(language)) == language
  {
    if language == English {
      EndsWithOwn(t, EnglishDirective);
      EnglishIsNotDarija(t);
    } else if language == Darija {
      EndsWithOwn(t, DarijaDirective);
    } else {
      assert t + "" == t;
    }
  }

  lemma EndsWithOwn(x: string, suffix: string)
    ensures EndsWith(x + suffix, suffix)
  {
    assert (x + suffix)[|x|..] == suffix;
  }

  /** The two directives differ in their last word, so one never ends like the other. */
  lemma EnglishIsNotDarija(x: string)
    ensures !EndsWith(x + EnglishDirective, DarijaDirective)
  {
    var r := x + EnglishDirective;
    assert r[|r| - 2] == EnglishDirective[19] == 'H';
    assert DarijaDirective[|DarijaDirective| - 2] == 'N';
  }

  /**
   * A failed clarification loses the directive: the query goes on unchanged,
   * and is answered in French although another language was detected.
   */
  lemma FailureLosesDirective(userQuery: string, error: string, language: string)
    requires !EndsWith(userQuery, DarijaDirective) && !EndsWith(userQuery, EnglishDirective)
    ensures Clarified(userQuery, Fail(error), language) == userQuery
    ensures DirectiveOf(Clarified(userQuery, Fail(error), language)) == French
  {
  }

  /** The clarifier, with its diagnostic log of (original, clarified, language) records. */
  class InteractiveClarifier {
    /** The wording of the instructions before and after the context text. */
    const head: string
    const tail: string
    var conversationHistory: seq<Record>

    constructor (head: string, tail: string)
      ensures this.head == head && this.tail == tail
      ensures conversationHistory == []
    {
      this.head := head;
      this.tail := tail;
      conversationHistory := [];
    }

    /**
     * `clarify_question`: sends the context of the user's recent questions
     * and the query to the rewriting service; on success, appends the
     * directive and logs the record; on failure, returns the query unchanged
     * and logs nothing. The history passed in is only read.
     */
    method ClarifyQuestion(userQuery: string, chatHistory: seq<Turn>, detectedLanguage: string, complete: Completion)
      returns (clarified: string)
      modifies this
      ensures var reply := complete(ClarificationPrompt(head, tail, ContextText(chatHistory), userQuery));
              && clarified == Clarified(userQuery, reply, detectedLanguage)
              && conversationHistory == old(conversationHistory) + LogEntries(userQuery, reply, detectedLanguage)
    {
      var contextText := ContextText(chatHistory);
      var reply := complete(ClarificationPrompt(head, tail, contextText, userQuery));
      match reply {
        case Fail(_) =>
          clarified := userQuery;
        case Ok(content) =>
          clarified := Strip(content, Python);
          if detectedLanguage == Darija {
            clarified := clarified + DarijaDirective;
          } else if detectedLanguage == English {
            clarified := clarified + EnglishDirective;
          }
          conversationHistory := conversationHistory + [Record(userQuery, clarified, detectedLanguage)];
      }
    }
  }
}
