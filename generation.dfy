/**
 * The generation step of `PDFChatbot.generate_response`, as both front ends
 * run it once the history to use is settled: detect the language, clarify
 * the query, stop with a fixed message when there is no document store,
 * otherwise retrieve, build the request, stream the answer and commit the
 * turn when the stream ends normally.
 */
module Generation {
  import opened Text
  import opened Oracle
  import opened Conversation
  import opened Language
  import opened Clarifier

  /** The fixed texts of one front end (their wording is not modelled, except the no-document message). */
  datatype Prompts = Prompts(
    detectorInstructions: string,
    promptHead: string,
    promptMiddle: string,
    noDocuments: string)

  /** The external services one front end calls. */
  datatype Services = Services(
    detector: Completion,
    rewriter: Completion,
    generator: StreamingCompletion)

  /**
   * What one generation step produces: the fragments yielded, the history and
   * the clarifier log afterwards, and whether the answer stream ended
   * normally (so that the turn was committed).
   */
  datatype Outcome = Outcome(fragments: seq<string>, history: seq<Turn>, clarifications: seq<Record>, completed: bool)

  /** The generation request for a clarified query and the documents retrieved for it. */
  function Request(prompts: Prompts, policy: string, docs: seq<string>, history: seq<Turn>, query: string): (r: seq<Message>)
    ensures |r| == 2 * |history| + 2
    ensures r[0].role == System && r[|r| - 1] == Message(User, query)
  {
    BuildMessages(SystemContent(prompts.promptHead, policy, prompts.promptMiddle, RetrievedContext(docs)), history, query)
  }

  /** The request carries the policy verbatim, the history in full and the retrieved context at the end of the system message. */
  lemma RequestCarriesPolicyAndHistory(prompts: Prompts, policy: string, docs: seq<string>, history: seq<Turn>, query: string)
    ensures var r := Request(prompts, policy, docs, history, query);
            var system := r[0].content;
            var n := |prompts.promptHead|;
            && n + |policy| <= |system| && system[n..n + |policy|] == policy
            && EndsWith(system, Join(docs, "\n"))
            && TurnsOf(r[1..|r| - 1]) == history
  {
    HistoryIsReadableFromRequest(SystemContent(prompts.promptHead, policy, prompts.promptMiddle, RetrievedContext(docs)), history, query);
  }

  /** The rewriting service's reply for a query, given the history the clarifier is shown. */
  function RewriterReply(services: Services, head: string, tail: string, history: seq<Turn>, userQuery: string): Reply<string> {
    services.rewriter(ClarificationPrompt(head, tail, ContextText(history), userQuery))
  }

  /** The query the answer is generated for: the clarification, with the directive of the detected language. */
  function ClarifiedQuery(prompts: Prompts, services: Services, head: string, tail: string, history: seq<Turn>, userQuery: string): string {
    Clarified(userQuery, RewriterReply(services, head, tail, history, userQuery),
              DetectLanguage(prompts.detectorInstructions, userQuery, services.detector))
  }

  /**
   * The answer stream: the generator's reply to the request built from the
   * clarified query, the top three documents found for it and the history.
   */
  function AnswerStream(
    prompts: Prompts, services: Services, head: string, tail: string, search: Search,
    policy: string, history: seq<Turn>, userQuery: string): Stream
  {
    var query := ClarifiedQuery(prompts, services, head, tail, history, userQuery);
    services.generator(Request(prompts, policy, search(query, TopK), history, query))
  }

  /**
   * One generation step, from the history and clarifier log it starts with.
   * The clarifier log gains the record of a successful clarification; with a
   * store, the fragments are those of the answer stream and the history gains
   * the turn (original query, streamed text) exactly when that stream ends
   * normally; with no store the only fragment is the fixed message.
   */
  function Generate(
    prompts: Prompts, services: Services, head: string, tail: string, store: Option<Search>,
    policy: string, history: seq<Turn>, log: seq<Record>, userQuery: string): (r: Outcome)
    ensures r.clarifications == log + LogEntries(userQuery, RewriterReply(services, head, tail, history, userQuery),
                                                 DetectLanguage(prompts.detectorInstructions, userQuery, services.detector))
    ensures log <= r.clarifications && |r.clarifications| <= |log| + 1
    ensures |r.clarifications| == |log| + 1 <==> RewriterReply(services, head, tail, history, userQuery).Ok?
    ensures store.Some? ==>
              var s := AnswerStream(prompts, services, head, tail, store.value, policy, history, userQuery);
              && r.fragments == StreamFragments(s)
              && r.history == CommitTurn(history, userQuery, s)
              && (r.completed <==> s.error.None?)
    ensures r.completed ==> store.Some? && r.history == history + [Turn(userQuery, Concat(r.fragments))]
    ensures !r.completed ==> r.history == history
    ensures store.None? ==> r.fragments == [prompts.noDocuments]
    ensures store.Some? ==> forall k :: 0 <= k < |r.fragments| ==> r.fragments[k] != ""
  {
    var language := DetectLanguage(prompts.detectorInstructions, userQuery, services.detector);
    var reply := RewriterReply(services, head, tail, history, userQuery);
    var clarifications := log + LogEntries(userQuery, reply, language);
    match store
    case None => Outcome([prompts.noDocuments], history, clarifications, false)
    case Some(search) =>
      var s := AnswerStream(prompts, services, head, tail, search, policy, history, userQuery);
      ConcatNonEmpty(s.deltas);
      Outcome(StreamFragments(s), CommitTurn(history, userQuery, s), clarifications, s.error.None?)
  }

  /**
   * Detection and clarification run before the store is looked at: with no
   * store, a successful clarification is still logged, for a turn that
   * yields nothing but the fixed message.
   */
  lemma NoStoreStillClarifies(
    prompts: Prompts, services: Services, head: string, tail: string,
    policy: string, history: seq<Turn>, log: seq<Record>, userQuery: string)
    requires RewriterReply(services, head, tail, history, userQuery).Ok?
    ensures var r := Generate(prompts, services, head, tail, None, policy, history, log, userQuery);
            && r.fragments == [prompts.noDocuments] && r.history == history
            && |r.clarifications| == |log| + 1 && r.clarifications[|log|].original == userQuery
  {
  }

  /**
   * A stream that fails yields one "Erreur : " fragment after what it had
   * already delivered, and the partial answer is not committed.
   */
  lemma FailedStreamIsNotCommitted(
    prompts: Prompts, services: Services, head: string, tail: string, search: Search,
    policy: string, history: seq<Turn>, log: seq<Record>, userQuery: string)
    requires AnswerStream(prompts, services, head, tail, search, policy, history, userQuery).error.Some?
    ensures var r := Generate(prompts, services, head, tail, Some(search), policy, history, log, userQuery);
            && r.history == history && !r.completed
            && |r.fragments| >= 1 && StartsWith(r.fragments[|r.fragments| - 1], "Erreur : ")
  {
  }

  /**
   * A stream that ends normally is committed: the user is shown its
   * non-empty deltas, and the history gains the turn holding the original
   * query and their whole text.
   */
  lemma CompletedStreamIsCommitted(
    prompts: Prompts, services: Services, head: string, tail: string, search: Search,
    policy: string, history: seq<Turn>, log: seq<Record>, userQuery: string)
    requires AnswerStream(prompts, services, head, tail, search, policy, history, userQuery).error.None?
    ensures var s := AnswerStream(prompts, services, head, tail, search, policy, history, userQuery);
            var r := Generate(prompts, services, head, tail, Some(search), policy, history, log, userQuery);
            && r.completed && r.fragments == NonEmpty(s.deltas)
            && r.history == history + [Turn(userQuery, Concat(s.deltas))]
  {
  }
}
