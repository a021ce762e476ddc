/**
 * The reader of `streamChatResponse` (static/script.js): each network read
 * of the chat endpoint's event stream is split into lines on its own, and
 * the `text` of every `data:` line is appended to the answer, which the
 * page re-renders through `formatMarkdown`.
 */
module StreamReader {
  import opened Text
  import opened Oracle
  import opened Json
  import opened EventStream
  import opened Markdown

  /** The payload of the closing event. */
  const DoneData := "[DONE]"

  /**
   * `JSON.parse(data).text` is a parameter of the reader: Some(text) when
   * the payload parses and has a string `text` field, None when it throws
   * or has none.
   */
  type Parser = string -> Option<string>

  /** What one line adds to the answer. */
  type LineReader = string -> string

  /**
   * The text one line adds: a `data: ` line's trimmed payload, unless it is
   * the closing marker or does not parse; any other line adds nothing.
   */
  function LineText(line: string, parse: Parser): string {
    if !StartsWith(line, DataPrefix) then ""
    else
      var data := Strip(line[|DataPrefix|..], JavaScript);
      if data == DoneData then ""
      else
        match parse(data)
        case None => ""
        case Some(t) => t
  }

  /** The line reader of the page for a given parser. */
  function Reader(parse: Parser): LineReader {
    line => LineText(line, parse)
  }

  /** The text of some lines, in order. */
  function LinesText(lines: seq<string>, f: LineReader): string {
    if lines == [] then "" else LinesText(lines[..|lines| - 1], f) + f(lines[|lines| - 1])
  }

  /** The text one network read adds: the read is split on newlines on its own. */
  function ChunkText(chunk: string, f: LineReader): string {
    LinesText(Split(chunk, '\n'), f)
  }

  /** The text accumulated over the reads of a response, each handled apart. */
  function StreamText(chunks: seq<string>, f: LineReader): string {
    if chunks == [] then "" else StreamText(chunks[..|chunks| - 1], f) + ChunkText(chunks[|chunks| - 1], f)
  }

  /** What the answer bubble shows: nothing until some text arrived, then the formatted text. */
  function Shown(fullText: string): (r: string)
    ensures fullText == "" <==> r == ""
    ensures '\n' !in r
  {
    if fullText == "" then "" else FormatMarkdown(fullText)
  }

  /**
   * The read loop of `streamChatResponse`: every read is split on newlines
   * and each `data:` payload that parses to a non-empty text is appended,
   * the bubble being re-rendered from the whole text.
   */
  method ReadStream(chunks: seq<string>, parse: Parser) returns (fullText: string, shown: string)
    ensures fullText == StreamText(chunks, Reader(parse))
    ensures shown == Shown(fullText)
  {
    fullText, shown := "", "";
    for i := 0 to |chunks|
      invariant fullText == StreamText(chunks[..i], Reader(parse))
      invariant shown == Shown(fullText)
    {
      var lines := Split(chunks[i], '\n');
      fullText, shown := ReadLines(lines, parse, fullText, shown);
      assert chunks[..i + 1][..i] == chunks[..i];
    }
    assert chunks[..|chunks|] == chunks;
  }

  /** The loop over the lines of one read. */
  method ReadLines(lines: seq<string>, parse: Parser, text0: string, shown0: string)
    returns (fullText: string, shown: string)
    requires shown0 == Shown(text0)
    ensures fullText == text0 + LinesText(lines, Reader(parse))
    ensures shown == Shown(fullText)
  {
    fullText, shown := text0, shown0;
    for j := 0 to |lines|
      invariant fullText == text0 + LinesText(lines[..j], Reader(parse))
      invariant shown == Shown(fullText)
    {
      var line := lines[j];
      ghost var before, added := fullText, LineText(line, parse);
      if StartsWith(line, DataPrefix) {
        var data := Strip(line[|DataPrefix|..], JavaScript);
        if data != DoneData {
          var parsed := parse(data);
          if parsed.Some? && parsed.value != "" {
            fullText := fullText + parsed.value;
            shown := FormatMarkdown(fullText);
          }
        }
      }
      assert fullText == before + added;
      NextLine(lines, j, Reader(parse), text0, before);
    }
    assert lines[..|lines|] == lines;
  }

  /** The loop step of ReadLines: line j's text follows the text of the lines before it. */
  lemma NextLine(lines: seq<string>, j: nat, f: LineReader, text0: string, before: string)
    requires j < |lines| && before == text0 + LinesText(lines[..j], f)
    ensures before + f(lines[j]) == text0 + LinesText(lines[..j + 1], f)
  {
    assert lines[..j + 1][..j] == lines[..j];
  }

  /** A blank line adds nothing. */
  lemma BlankLine(parse: Parser)
    ensures Reader(parse)("") == ""
  {
  }

  lemma {:induction false} LinesTextAppend(a: seq<string>, b: seq<string>, f: LineReader)
    ensures LinesText(a + b, f) == LinesText(a, f) + LinesText(b, f)
    decreases |b|
  {
    if b == [] {
      assert a + b == a;
    } else {
      var ab, front := a + b, b[..|b| - 1];
      var x := f(b[|b| - 1]);
      assert ab[..|ab| - 1] == a + front;
      assert ab[|ab| - 1] == b[|b| - 1];
      assert LinesText(ab, f) == LinesText(a + front, f) + x;
      LinesTextAppend(a, front, f);
      Regroup(LinesText(a, f), LinesText(front, f), x);
    }
  }

  /** A text without a newline is one line. */
  lemma OneLine(line: string, f: LineReader)
    requires '\n' !in line
    ensures ChunkText(line, f) == f(line)
  {
    SplitNone(line, '\n');
    assert LinesText([line], f) == LinesText([], f) + f(line);
  }

  /** A read that ends a line leaves nothing pending: the text of `a + b` is that of `a` then that of `b`. */
  lemma ChunkTextAtLineEnd(a: string, b: string, f: LineReader)
    requires f("") == ""
    requires a != [] && a[|a| - 1] == '\n'
    ensures ChunkText(a + b, f) == ChunkText(a, f) + ChunkText(b, f)
  {
    var front := a[..|a| - 1];
    assert a == front + ['\n'] + "";
    assert a + b == front + ['\n'] + b;
    SplitAppend(front, '\n', "");
    SplitAppend(front, '\n', b);
    SplitNone("", '\n');
    JoinLines(Split(front, '\n'), Split(b, '\n'), f);
  }

  /** The lines before a line end, then the lines after it. */
  lemma JoinLines(p: seq<string>, q: seq<string>, f: LineReader)
    requires f("") == ""
    ensures LinesText(p + q, f) == LinesText(p + [""], f) + LinesText(q, f)
  {
    LinesTextAppend(p, q, f);
    BlankLast(p, f);
  }

  /** A blank line at the end adds nothing. */
  lemma BlankLast(lines: seq<string>, f: LineReader)
    requires f("") == ""
    ensures LinesText(lines + [""], f) == LinesText(lines, f)
  {
    assert (lines + [""])[..|lines|] == lines;
  }

  /** An event line followed by the blank line that ends the event: the line's text only. */
  lemma EventText(line: string, f: LineReader)
    requires f("") == "" && '\n' !in line
    ensures ChunkText(line + "\n\n", f) == f(line)
  {
    EventLines(line);
    assert [line, "", ""] == [line] + [""] + [""];
    BlankLast([line] + [""], f);
    BlankLast([line], f);
    assert LinesText([line], f) == LinesText([], f) + f(line);
  }

  /** The lines of an event: its line, then two empty pieces. */
  lemma EventLines(line: string)
    requires '\n' !in line
    ensures Split(line + "\n\n", '\n') == [line, "", ""]
  {
    calc {
      Split(line + "\n\n", '\n');
    == { assert line + "\n\n" == line + ['\n'] + "\n"; }
      Split(line + ['\n'] + "\n", '\n');
    == { SplitAppend(line, '\n', "\n"); }
      Split(line, '\n') + Split("\n", '\n');
    == { SplitNone(line, '\n'); NewlineLines(); }
      [line] + ["", ""];
    }
  }

  /** A lone line end separates two empty pieces. */
  lemma NewlineLines()
    ensures Split("\n", '\n') == ["", ""]
  {
    assert "\n" == "" + ['\n'] + "";
    SplitAppend("", '\n', "");
    SplitNone("", '\n');
  }

  /**
   * The text of a payload line `data: <p>`: the payload is trimmed, the
   * closing marker adds nothing, and otherwise the parsed text is added
   * (nothing when the payload does not parse).
   */
  lemma DataLine(p: string, parse: Parser)
    ensures LineText(DataPrefix + p, parse) ==
            (var q := Strip(p, JavaScript);
             if q == DoneData then "" else match parse(q) case None => "" case Some(t) => t)
  {
    var line := DataPrefix + p;
    assert line[..|DataPrefix|] == DataPrefix;
    assert line[|DataPrefix|..] == p;
  }

  /** Any line that does not start with `data: ` adds nothing. */
  lemma OtherLine(line: string, parse: Parser)
    requires !StartsWith(line, DataPrefix)
    ensures LineText(line, parse) == ""
  {
  }

  /** The text of a payload line whose payload has no space at its ends. */
  lemma UnpaddedDataLine(p: string, parse: Parser)
    requires p != [] && !IsJsSpace(p[0]) && !IsJsSpace(p[|p| - 1])
    ensures LineText(DataPrefix + p, parse) == (if p == DoneData then "" else match parse(p) case None => "" case Some(t) => t)
  {
    DataLine(p, parse);
    StripPadded([], p, [], JavaScript);
    assert [] + p + [] == p;
  }

  lemma NoNewlineAfterPrefix(p: string)
    requires '\n' !in p
    ensures '\n' !in DataPrefix + p
  {
    var line := DataPrefix + p;
    assert forall k :: 0 <= k < |line| ==> line[k] == if k < |DataPrefix| then DataPrefix[k] else p[k - |DataPrefix|];
  }

  lemma PrintableHasNoNewline(t: string)
    requires forall k :: 0 <= k < |t| ==> Printable(t[k])
    ensures '\n' !in t
  {
    assert forall k :: 0 <= k < |t| ==> t[k] != '\n';
  }

  /** The event of a fragment gives back that fragment, when the parser reads the object the server wrote. */
  lemma FrameText(x: string, parse: Parser)
    requires parse(TextObject(x)) == Some(x)
    ensures ChunkText(Frame(x), Reader(parse)) == x && EndsLine(Frame(x))
  {
    var f := Reader(parse);
    var t := TextObject(x);
    var line := DataPrefix + t;
    assert Frame(x) == line + "\n\n";
    TextObjectShape(x);
    assert '\n' !in line by {
      PrintableHasNoNewline(t);
      NoNewlineAfterPrefix(t);
    }
    assert f(line) == x by {
      assert t != DoneData by { assert DoneData[0] == '['; }
      UnpaddedDataLine(t, parse);
    }
    assert f("") == "" by { BlankLine(parse); }
    EventText(line, f);
  }

  /** The closing event adds nothing. */
  lemma DoneText(parse: Parser)
    ensures ChunkText(DoneFrame, Reader(parse)) == "" && EndsLine(DoneFrame)
  {
    var f := Reader(parse);
    var line := DataPrefix + DoneData;
    assert DoneFrame == line + "\n\n";
    assert '\n' !in line by { NoNewlineAfterPrefix(DoneData); }
    assert f(line) == "" by { UnpaddedDataLine(DoneData, parse); }
    assert f("") == "" by { BlankLine(parse); }
    EventText(line, f);
  }

  /** The whole response body read at once gives the answer: the fragments joined. */
  lemma BodyText(fs: seq<string>, parse: Parser)
    requires forall i :: 0 <= i < |fs| ==> parse(TextObject(fs[i])) == Some(fs[i])
    ensures ChunkText(Body(fs), Reader(parse)) == Concat(fs)
    ensures EndsLine(Body(fs))
  {
    EventsText(fs, parse);
    BlankLine(parse);
    ReadsOfLines(Events(fs), fs + [""], Reader(parse));
    ConcatBlank(fs);
  }

  lemma ConcatBlank(fs: seq<string>)
    ensures Concat(fs + [""]) == Concat(fs)
  {
    assert (fs + [""])[..|fs|] == fs;
  }

  /** Reads that each end a line, read at once, give the texts they give one by one. */
  lemma ReadsOfLines(chunks: seq<string>, texts: seq<string>, f: LineReader)
    requires f("") == "" && |chunks| == |texts|
    requires forall i :: 0 <= i < |chunks| ==> EndsLine(chunks[i])
    requires forall i :: 0 <= i < |chunks| ==> ChunkText(chunks[i], f) == texts[i]
    ensures ChunkText(Concat(chunks), f) == Concat(texts)
    ensures chunks != [] ==> EndsLine(Concat(chunks))
  {
    AlignedReads(chunks, f);
    ReadTexts(chunks, texts, f);
  }

  /** Every event of the body, read alone, gives its fragment (nothing for the closing one) and ends a line. */
  lemma EventsText(fs: seq<string>, parse: Parser)
    requires forall i :: 0 <= i < |fs| ==> parse(TextObject(fs[i])) == Some(fs[i])
    ensures forall i :: 0 <= i < |Events(fs)| ==> EndsLine(Events(fs)[i])
    ensures forall i :: 0 <= i < |Events(fs)| ==> ChunkText(Events(fs)[i], Reader(parse)) == (fs + [""])[i]
  {
    var evs, texts := Events(fs), fs + [""];
    FramesText(fs, parse);
    DoneText(parse);
    forall i | 0 <= i < |evs|
      ensures ChunkText(evs[i], Reader(parse)) == texts[i] && EndsLine(evs[i])
    {
      if i < |fs| {
        assert evs[i] == Frame(fs[i]) && texts[i] == fs[i];
      } else {
        assert i == |fs|;
      }
    }
  }

  /** Every fragment's event, read alone, gives back the fragment and ends a line. */
  lemma FramesText(fs: seq<string>, parse: Parser)
    requires forall i :: 0 <= i < |fs| ==> parse(TextObject(fs[i])) == Some(fs[i])
    ensures forall i :: 0 <= i < |fs| ==> ChunkText(Frame(fs[i]), Reader(parse)) == fs[i] && EndsLine(Frame(fs[i]))
  {
    forall i | 0 <= i < |fs|
      ensures ChunkText(Frame(fs[i]), Reader(parse)) == fs[i] && EndsLine(Frame(fs[i]))
    {
      FrameText(fs[i], parse);
    }
  }

  /** Reads handled one by one give their texts joined. */
  lemma {:induction false} ReadTexts(chunks: seq<string>, texts: seq<string>, f: LineReader)
    requires |chunks| == |texts|
    requires forall i :: 0 <= i < |chunks| ==> ChunkText(chunks[i], f) == texts[i]
    ensures StreamText(chunks, f) == Concat(texts)
  {
    if chunks != [] {
      ReadTexts(chunks[..|chunks| - 1], texts[..|texts| - 1], f);
    }
  }

  predicate EndsLine(s: string) {
    s != [] && s[|s| - 1] == '\n'
  }

  /** Reads that each end a line are handled as if they had arrived in one read. */
  lemma {:induction false} AlignedReads(chunks: seq<string>, f: LineReader)
    requires f("") == ""
    requires forall i :: 0 <= i < |chunks| ==> EndsLine(chunks[i])
    ensures StreamText(chunks, f) == ChunkText(Concat(chunks), f)
    ensures chunks != [] ==> EndsLine(Concat(chunks))
  {
    if chunks == [] {
      OneLine("", f);
    } else {
      var front := chunks[..|chunks| - 1];
      var last := chunks[|chunks| - 1];
      AlignedReads(front, f);
      assert Concat(chunks) == Concat(front) + last;
      if front == [] {
        assert Concat(front) + last == last;
      } else {
        ChunkTextAtLineEnd(Concat(front), last, f);
      }
    }
  }

  /**
   * When every network read ends a line, the page shows the whole answer:
   * the reader accumulates exactly the fragments the server yielded.
   */
  lemma WholeLineReadsShowAnswer(fs: seq<string>, chunks: seq<string>, parse: Parser)
    requires Concat(chunks) == Body(fs)
    requires forall i :: 0 <= i < |chunks| ==> EndsLine(chunks[i])
    requires forall i :: 0 <= i < |fs| ==> parse(TextObject(fs[i])) == Some(fs[i])
    ensures StreamText(chunks, Reader(parse)) == Concat(fs)
  {
    BlankLine(parse);
    AlignedReads(chunks, Reader(parse));
    BodyText(fs, parse);
  }

  /**
   * A read boundary inside an event loses that event: with the body of a
   * one-fragment answer cut after `data: {`, the first read's payload `{`
   * does not parse and the rest of the line does not start with `data: `,
   * so nothing is shown, while the same body read at once shows the
   * fragment.
   */
  lemma SplitEventIsLost(x: string, parse: Parser)
    requires parse("{") == None && parse(TextObject(x)) == Some(x)
    ensures var body := Body([x]);
            |body| > 7
            && StreamText([body], Reader(parse)) == x
            && StreamText([body[..7], body[7..]], Reader(parse)) == ""
  {
    var f := Reader(parse);
    var t := TextObject(x);
    var body := Body([x]);
    assert StreamText([body], f) == x by {
      OneRead(body, f);
      BodyText([x], parse);
      assert Concat([x]) == Concat([]) + x;
    }
    var rest := t[1..];
    TextObjectShape(x);
    assert body[..7] == DataPrefix + "{" && body[7..] == rest + ("\n\n" + DoneFrame) by {
      OneFragmentBody(x);
      CutAfter(DataPrefix, t, "\n\n" + DoneFrame);
      assert t[..1] == "{";
    }
    assert ChunkText(body[..7], f) == "" by { FirstReadText(parse); }
    assert ChunkText(body[7..], f) == "" by {
      assert '\n' !in rest by {
        assert forall k :: 0 <= k < |rest| ==> Printable(rest[k]);
        PrintableHasNoNewline(rest);
      }
      assert rest[0] == t[1];
      SecondReadText(rest, parse);
    }
    TwoReads(body[..7], body[7..], f);
  }

  /** Cutting `p + t + tail` one character into t. */
  lemma CutAfter(p: string, t: string, tail: string)
    requires |p| == 6 && |t| >= 2
    ensures var s := p + t + tail;
            |s| > 7 && s[..7] == p + t[..1] && s[7..] == t[1..] + tail
  {
    var s := p + t + tail;
    assert s[..7] == p + t[..1] by {
      forall k | 0 <= k < 7
        ensures s[k] == (p + t[..1])[k]
      {
      }
    }
    assert s[7..] == t[1..] + tail by {
      assert s == p + [t[0]] + (t[1..] + tail);
    }
  }

  /** The body of a one-fragment answer. */
  lemma OneFragmentBody(x: string)
    ensures Body([x]) == DataPrefix + TextObject(x) + ("\n\n" + DoneFrame)
  {
    calc {
      Body([x]);
    == { assert Events([x]) == [Frame(x), DoneFrame]; }
      Concat([Frame(x), DoneFrame]);
    == { assert [Frame(x), DoneFrame][..1] == [Frame(x)]; }
      Concat([Frame(x)]) + DoneFrame;
    == { assert [Frame(x)][..0] == []; }
      Frame(x) + DoneFrame;
    }
  }

  lemma OneRead(chunk: string, f: LineReader)
    ensures StreamText([chunk], f) == ChunkText(chunk, f)
  {
    assert [chunk][..0] == [];
  }

  lemma TwoReads(a: string, b: string, f: LineReader)
    ensures StreamText([a, b], f) == ChunkText(a, f) + ChunkText(b, f)
  {
    assert [a, b][..1] == [a];
    OneRead(a, f);
  }

  /** The first read `data: {` adds nothing when `{` does not parse. */
  lemma FirstReadText(parse: Parser)
    requires parse("{") == None
    ensures ChunkText(DataPrefix + "{", Reader(parse)) == ""
  {
    UnpaddedDataLine("{", parse);
    NoNewlineAfterPrefix("{");
    OneLine(DataPrefix + "{", Reader(parse));
  }

  /** The rest of the cut event is not a `data:` line, and the closing event adds nothing. */
  lemma SecondReadText(rest: string, parse: Parser)
    requires '\n' !in rest && rest != [] && rest[0] == '"'
    ensures ChunkText(rest + ("\n\n" + DoneFrame), Reader(parse)) == ""
  {
    var f := Reader(parse);
    CutEventText(rest, parse);
    DoneText(parse);
    Regroup(rest, "\n\n", DoneFrame);
    BlankLine(parse);
    ChunkTextAtLineEnd(rest + "\n\n", DoneFrame, f);
  }

  /** The cut event's remainder, a line that does not start with `data: `, adds nothing. */
  lemma CutEventText(rest: string, parse: Parser)
    requires '\n' !in rest && rest != [] && rest[0] == '"'
    ensures ChunkText(rest + "\n\n", Reader(parse)) == ""
  {
    assert !StartsWith(rest, DataPrefix);
    BlankLine(parse);
    EventText(rest, Reader(parse));
  }

  /** The lines a reader has seen in full: every piece of the text but the unfinished last one. */
  function CompleteLines(text: string): (r: seq<string>)
    ensures forall k :: 0 <= k < |r| ==> '\n' !in r[k]
  {
    var pieces := Split(text, '\n');
    PiecesLackSeparator(text, '\n');
    pieces[..|pieces| - 1]
  }

  /** The unfinished last line of a text. */
  function PendingLine(text: string): (r: string)
    ensures '\n' !in r
  {
    var pieces := Split(text, '\n');
    PiecesLackSeparator(text, '\n');
    pieces[|pieces| - 1]
  }

  /**
   * A reader that keeps the unfinished last line of each read and puts it
   * in front of the next read: its text is that of the complete lines of
   * everything received, however the reads are cut.
   */
  method ReadStreamBuffered(chunks: seq<string>, parse: Parser) returns (fullText: string, shown: string)
    ensures fullText == LinesText(CompleteLines(Concat(chunks)), Reader(parse))
    ensures shown == Shown(fullText)
  {
    fullText, shown := "", "";
    var buffer := "";
    for i := 0 to |chunks|
      invariant buffer == PendingLine(Concat(chunks[..i]))
      invariant fullText == LinesText(CompleteLines(Concat(chunks[..i])), Reader(parse))
      invariant shown == Shown(fullText)
    {
      ghost var received := Concat(chunks[..i]);
      var lines := Split(buffer + chunks[i], '\n');
      ReceivedStep(chunks, i);
      BufferStep(received, chunks[i], lines, Reader(parse));
      fullText, shown := ReadLines(lines[..|lines| - 1], parse, fullText, shown);
      buffer := lines[|lines| - 1];
    }
    assert chunks[..|chunks|] == chunks;
  }

  lemma ReceivedStep(chunks: seq<string>, i: nat)
    requires i < |chunks|
    ensures Concat(chunks[..i + 1]) == Concat(chunks[..i]) + chunks[i]
  {
    assert chunks[..i + 1][..i] == chunks[..i];
  }

  /** The bookkeeping step of the buffered reader: the pending line is put in front of the new read. */
  lemma BufferStep(received: string, chunk: string, lines: seq<string>, f: LineReader)
    requires lines == Split(PendingLine(received) + chunk, '\n')
    ensures PendingLine(received + chunk) == lines[|lines| - 1]
    ensures LinesText(CompleteLines(received + chunk), f) == LinesText(CompleteLines(received), f) + LinesText(lines[..|lines| - 1], f)
  {
    var pa, pab := Split(received, '\n'), Split(received + chunk, '\n');
    assert pab == pa[..|pa| - 1] + lines by { SplitAcross(received, '\n', chunk); }
    PiecesStep(pa, lines, pab, f);
    assert CompleteLines(received + chunk) == pab[..|pab| - 1];
    assert CompleteLines(received) == pa[..|pa| - 1];
  }

  lemma PiecesStep(before: seq<string>, lines: seq<string>, after: seq<string>, f: LineReader)
    requires |before| >= 1 && |lines| >= 1
    requires after == before[..|before| - 1] + lines
    ensures after[|after| - 1] == lines[|lines| - 1]
    ensures LinesText(after[..|after| - 1], f) == LinesText(before[..|before| - 1], f) + LinesText(lines[..|lines| - 1], f)
  {
    assert after[..|after| - 1] == before[..|before| - 1] + lines[..|lines| - 1];
    LinesTextAppend(before[..|before| - 1], lines[..|lines| - 1], f);
  }

  /** A text that ends a line has no pending line: its complete lines give its whole text. */
  lemma CompleteAtLineEnd(text: string, f: LineReader)
    requires f("") == "" && EndsLine(text)
    ensures LinesText(CompleteLines(text), f) == ChunkText(text, f)
  {
    var front := text[..|text| - 1];
    assert text == front + ['\n'] + "";
    SplitAppend(front, '\n', "");
    SplitNone("", '\n');
    var pieces := Split(text, '\n');
    assert pieces == Split(front, '\n') + [""];
    assert pieces[..|pieces| - 1] == Split(front, '\n');
    BlankLast(Split(front, '\n'), f);
  }

  /**
   * The buffered reader shows the whole answer for every way of cutting the
   * body into reads.
   */
  lemma BufferedReaderShowsAnswer(fs: seq<string>, chunks: seq<string>, parse: Parser)
    requires Concat(chunks) == Body(fs)
    requires forall i :: 0 <= i < |fs| ==> parse(TextObject(fs[i])) == Some(fs[i])
    ensures LinesText(CompleteLines(Concat(chunks)), Reader(parse)) == Concat(fs)
  {
    BodyText(fs, parse);
    BlankLine(parse);
    CompleteAtLineEnd(Body(fs), Reader(parse));
  }
}
