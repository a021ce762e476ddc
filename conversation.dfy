/**
 * The conversation state shared by both front ends of the chatbot: the turns
 * of the history, the generation request built from them, and the rule by
 * which a streamed answer becomes a new turn.
 */
module Conversation {
  import opened Text
  import opened Oracle

  /** One entry of `chat_history`: the user's original query and the full answer. */
  datatype Turn = Turn(user: string, assistant: string)

  /** The number of documents retrieved per query. */
  const TopK: nat := 3

  /** The retrieved documents as the prompt holds them: their page contents joined by newlines. */
  function RetrievedContext(docs: seq<string>): string {
    Join(docs, "\n")
  }

  /**
   * The system message: fixed text (`head`: role, school facts, contacts),
   * the active policy verbatim, fixed text (`middle`: language rule, format,
   * bans), then the retrieved context. Each front end has its own wording.
   */
  function SystemContent(head: string, policy: string, middle: string, context: string): (r: string)
    ensures StartsWith(r, head) && EndsWith(r, context)
    ensures |head| + |policy| <= |r| && r[|head|..|head| + |policy|] == policy
  {
    var r := head + policy + middle + context;
    assert r[..|head|] == head;
    assert r[|head|..|head| + |policy|] == policy;
    assert r[|r| - |context|..] == context;
    r
  }

  /** The history replayed as alternating user and assistant messages, oldest first. */
  function Replay(history: seq<Turn>): (r: seq<Message>)
    ensures |r| == 2 * |history|
    ensures forall i :: 0 <= i < |history| ==>
              r[2 * i] == Message(User, history[i].user) && r[2 * i + 1] == Message(Assistant, history[i].assistant)
  {
    if history == [] then []
    else
      var last := history[|history| - 1];
      Replay(history[..|history| - 1]) + [Message(User, last.user), Message(Assistant, last.assistant)]
  }

  /** The generation request: system message, replayed history, then the clarified query. */
  function BuildMessages(system: string, history: seq<Turn>, clarified: string): (r: seq<Message>)
    ensures |r| == 2 * |history| + 2
    ensures r[0] == Message(System, system)
    ensures r[|r| - 1] == Message(User, clarified)
    ensures forall i :: 0 <= i < |history| ==>
              r[2 * i + 1] == Message(User, history[i].user) && r[2 * i + 2] == Message(Assistant, history[i].assistant)
  {
    [Message(System, system)] + Replay(history) + [Message(User, clarified)]
  }

  /** Reads turns back out of replayed messages, two at a time. */
  function TurnsOf(replayed: seq<Message>): seq<Turn>
    requires |replayed| % 2 == 0
  {
    if replayed == [] then []
    else TurnsOf(replayed[..|replayed| - 2]) + [Turn(replayed[|replayed| - 2].content, replayed[|replayed| - 1].content)]
  }

  /** Nothing of the history is lost in the request: the turns can be read back from it. */
  lemma {:induction false} ReplayRoundTrip(history: seq<Turn>)
    ensures TurnsOf(Replay(history)) == history
  {
    if history != [] {
      var r := Replay(history);
      var front := history[..|history| - 1];
      assert r[..|r| - 2] == Replay(front);
      ReplayRoundTrip(front);
      assert history == front + [history[|history| - 1]];
    }
  }

  /** The request sent to the generator holds the replayed history between its system message and the query. */
  lemma HistoryIsReadableFromRequest(system: string, history: seq<Turn>, clarified: string)
    ensures var r := BuildMessages(system, history, clarified);
            TurnsOf(r[1..|r| - 1]) == history
  {
    var r := BuildMessages(system, history, clarified);
    assert r[1..|r| - 1] == Replay(history);
    ReplayRoundTrip(history);
  }

  /** The chunks the generation loop keeps and yields: the non-empty deltas, in order. */
  function NonEmpty(deltas: seq<string>): (r: seq<string>)
    ensures |r| <= |deltas|
    ensures forall k :: 0 <= k < |r| ==> r[k] != ""
  {
    if deltas == [] then []
    else
      var last := deltas[|deltas| - 1];
      NonEmpty(deltas[..|deltas| - 1]) + (if last != "" then [last] else [])
  }

  /** A single delta is kept exactly when it is non-empty. */
  lemma NonEmptyOne(x: string)
    ensures NonEmpty([x]) == if x == "" then [] else [x]
  {
    assert [x][..0] == [];
  }

  /** The deltas are filtered one after the other: keeping distributes over concatenation, so order is kept. */
  lemma {:induction false} NonEmptyAppend(a: seq<string>, b: seq<string>)
    ensures NonEmpty(a + b) == NonEmpty(a) + NonEmpty(b)
    decreases |b|
  {
    if b == [] {
      assert a + b == a;
    } else {
      var front, last := b[..|b| - 1], b[|b| - 1];
      assert (a + b)[..|a + b| - 1] == a + front;
      NonEmptyAppend(a, front);
    }
  }

  /** Skipping empty deltas loses no text. */
  lemma {:induction false} ConcatNonEmpty(deltas: seq<string>)
    ensures Concat(NonEmpty(deltas)) == Concat(deltas)
  {
    if deltas != [] {
      var front, last := deltas[..|deltas| - 1], deltas[|deltas| - 1];
      ConcatNonEmpty(front);
      ConcatAppend(NonEmpty(front), if last != "" then [last] else []);
      if last == "" {
        assert Concat(deltas) == Concat(front) + "";
      }
    }
  }

  /** The generation loop: each non-empty delta is kept in `full_response` (and yielded), in order. */
  method CollectFragments(deltas: seq<string>) returns (fullResponse: seq<string>)
    ensures fullResponse == NonEmpty(deltas)
    ensures Concat(fullResponse) == Concat(deltas)
  {
    fullResponse := [];
    for i := 0 to |deltas|
      invariant fullResponse == NonEmpty(deltas[..i])
    {
      var textChunk := deltas[i];
      assert deltas[..i + 1][..i] == deltas[..i];
      if textChunk != "" {
        fullResponse := fullResponse + [textChunk];
      }
    }
    assert deltas[..|deltas|] == deltas;
    ConcatNonEmpty(deltas);
  }

  /** The fragment an exception of the generation step is turned into. */
  function ErrorFragment(error: string): (r: string)
    ensures StartsWith(r, "Erreur : ") && r[9..] == error
  {
    "Erreur : " + error
  }

  /** Everything yielded from the generation request on: the kept deltas, then one error fragment if it failed. */
  function StreamFragments(s: Stream): (r: seq<string>)
    ensures s.error.None? ==> r == NonEmpty(s.deltas)
    ensures s.error.Some? ==> |r| == |NonEmpty(s.deltas)| + 1 && r[|r| - 1] == ErrorFragment(s.error.value)
    ensures s.error.Some? ==> r[..|r| - 1] == NonEmpty(s.deltas)
  {
    NonEmpty(s.deltas) + (match s.error case None => [] case Some(e) => [ErrorFragment(e)])
  }

  /** The history after the generation step: the turn is appended only when the stream ended normally. */
  function CommitTurn(history: seq<Turn>, userQuery: string, s: Stream): (r: seq<Turn>)
    ensures s.error.None? ==> r == history + [Turn(userQuery, Concat(s.deltas))]
    ensures s.error.Some? ==> r == history
  {
    ConcatNonEmpty(s.deltas);
    if s.error.None? then history + [Turn(userQuery, Concat(NonEmpty(s.deltas)))] else history
  }

  /** A committed answer is exactly the text the user was streamed. */
  lemma CommittedAnswerWasStreamed(history: seq<Turn>, userQuery: string, s: Stream)
    requires s.error.None?
    ensures var r := CommitTurn(history, userQuery, s);
            |r| == |history| + 1 && r[..|history|] == history
            && r[|history|].user == userQuery && r[|history|].assistant == Concat(StreamFragments(s))
  {
    ConcatNonEmpty(s.deltas);
  }
}
