/**
 * The server-sent-events body of `/api/chat`: one `data:` event per
 * fragment, carrying the fragment as a JSON object, then one `[DONE]` event.
 */
module EventStream {
  import opened Text
  import opened Json
  import opened Oracle

  const DataPrefix := "data: "

  /** The event that closes every answer. */
  const DoneFrame := "data: [DONE]\n\n"

  /** The event for one fragment: a single `data:` line holding its JSON object, then a blank line. */
  function Frame(chunk: string): (r: string)
    ensures |r| >= 20 && r[..|DataPrefix|] == DataPrefix && r[|r| - 2..] == "\n\n"
    ensures r[|DataPrefix|..|r| - 2] == TextObject(chunk)
  {
    DataPrefix + TextObject(chunk) + "\n\n"
  }

  /** An event carries its fragment: the payload between the prefix and the blank line decodes back to it. */
  lemma FrameCarriesChunk(chunk: string)
    ensures var r := Frame(chunk);
            StartsWith(r, DataPrefix) && DecodeTextObject(r[|DataPrefix|..|r| - 2]) == Some(chunk)
  {
    var r := Frame(chunk);
    assert r[..|DataPrefix|] == DataPrefix;
    assert r[|DataPrefix|..|r| - 2] == TextObject(chunk);
    DecodeTextObjectRoundTrip(chunk);
  }

  /** An event is a single line followed by a blank line: no line end before its last two characters. */
  lemma FrameIsOneLine(chunk: string)
    ensures var r := Frame(chunk);
            && r[|r| - 2..] == "\n\n"
            && forall k :: 0 <= k < |r| - 2 ==> r[k] != '\n'
  {
    var r := Frame(chunk);
    var t := TextObject(chunk);
    TextObjectShape(chunk);
    forall k | 0 <= k < |r| - 2
      ensures r[k] != '\n'
    {
      if k >= |DataPrefix| {
        assert r[k] == t[k - |DataPrefix|];
        assert Printable(t[k - |DataPrefix|]);
      }
    }
  }

  /** What the response generator yields: the fragments' events in order, then the closing event. */
  function Events(fragments: seq<string>): (r: seq<string>)
    ensures |r| == |fragments| + 1 && r[|fragments|] == DoneFrame
    ensures forall i :: 0 <= i < |fragments| ==> r[i] == Frame(fragments[i])
  {
    if fragments == [] then [DoneFrame] else [Frame(fragments[0])] + Events(fragments[1..])
  }

  /** The response body: the events one after the other. */
  function Body(fragments: seq<string>): string {
    Concat(Events(fragments))
  }

  /** No fragment's event can be taken for the closing one: there is exactly one `[DONE]`. */
  lemma OnlyLastIsDone(fragments: seq<string>)
    ensures forall i :: 0 <= i < |Events(fragments)| ==> (Events(fragments)[i] == DoneFrame <==> i == |fragments|)
  {
    forall i | 0 <= i < |fragments|
      ensures Events(fragments)[i] != DoneFrame
    {
      var f := Frame(fragments[i]);
      TextObjectShape(fragments[i]);
      assert f[6] == TextObject(fragments[i])[0] == '{';
      assert DoneFrame[6] == '[';
    }
  }
}
