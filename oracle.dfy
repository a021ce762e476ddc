/**
 * The external services the chatbot calls, reduced to what its code sees of
 * them. Each service is a total function from the request to an outcome, so
 * that a contract can say which request was sent as well as what came back.
 */
module Oracle {

  /** The reply of an external call: its text, or the exception it raised (as `str(e)`). */
  datatype Reply<T> = Ok(value: T) | Fail(error: string)

  datatype Option<T> = None | Some(value: T)

  datatype Role = System | User | Assistant

  /** One role-tagged entry of a chat-completion request. */
  datatype Message = Message(role: Role, content: string)

  /**
   * A streamed completion as the generator loop sees it: the `delta.content`
   * of each chunk in order ("" for a chunk whose content is None or empty),
   * then either a normal end (`error == None`) or the exception that stopped
   * it, whether raised by the request itself or in the middle of the stream.
   */
  datatype Stream = Stream(deltas: seq<string>, error: Option<string>)

  /** `client.chat.completions.create(...)` without streaming: `choices[0].message.content`, not yet stripped. */
  type Completion = seq<Message> -> Reply<string>

  /** `client.chat.completions.create(..., stream=True)`. */
  type StreamingCompletion = seq<Message> -> Stream

  /** `vector_store.similarity_search(query, k)`: the page contents of the documents found, best first. */
  type Search = (string, nat) -> seq<string>

  /** The speech-to-text call, given the audio bytes and the extension of the file that carries them. */
  type SpeechToText = (seq<bv8>, string) -> Reply<string>
}
