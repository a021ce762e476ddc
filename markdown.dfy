/**
 * `formatMarkdown` in the browser: bold, then italic, then bullets, then
 * line breaks, each a global regular-expression replacement. The lazy
 * `(.*?)` between two delimiters and the `(.+)` of a bullet do not cross a
 * line terminator (`\n`, `\r`, U+2028, U+2029), and `^`/`$` in multiline
 * mode match at each of them.
 */
module Markdown {
  import opened Text
  import opened Oracle

  predicate IsLineTerminator(c: char) {
    c == '\n' || c == '\r' || c == '\U{2028}' || c == '\U{2029}'
  }

  predicate NoLineTerminator(s: string) {
    forall k :: 0 <= k < |s| ==> !IsLineTerminator(s[k])
  }

  predicate Lacks(s: string, c: char) {
    forall k :: 0 <= k < |s| ==> s[k] != c
  }

  /**
   * Where the lazy `(.*?)` stops in `t`, the text after an opening
   * delimiter: the first occurrence of the closing delimiter, provided no
   * line terminator comes before it.
   */
  function Close(t: string, d: string): (r: Option<nat>)
    requires |d| > 0 && NoLineTerminator(d)
    ensures r.Some? ==> OccursAt(t, r.value, d) && NoLineTerminator(t[..r.value])
    ensures r.Some? ==> forall j :: 0 <= j < r.value ==> !OccursAt(t, j, d)
    ensures r.None? ==> forall j: nat :: OccursAt(t, j, d) ==> !NoLineTerminator(t[..j])
    decreases |t|
  {
    if |t| < |d| then None
    else if t[..|d|] == d then Some(0)
    else if IsLineTerminator(t[0]) then
      assert forall j: nat :: OccursAt(t, j, d) ==> !NoLineTerminator(t[..j]) by {
        forall j: nat | OccursAt(t, j, d)
          ensures !NoLineTerminator(t[..j])
        {
          assert j != 0;
          assert t[..j][0] == t[0];
        }
      }
      None
    else
      match Close(t[1..], d)
      case None =>
        assert forall j: nat :: OccursAt(t, j, d) ==> !NoLineTerminator(t[..j]) by {
          forall j: nat | OccursAt(t, j, d)
            ensures !NoLineTerminator(t[..j])
          {
            assert j != 0;
            OccursShift(t, j, d);
            assert t[1..][..j - 1] == t[..j][1..];
          }
        }
        None
      case Some(k) =>
        forall j | 1 <= j < k + 2
          ensures OccursAt(t, j, d) == OccursAt(t[1..], j - 1, d)
        {
          OccursShift(t, j, d);
        }
        assert t[..k + 1] == [t[0]] + t[1..][..k];
        Some(k + 1)
  }

  /** The delimiter `d` occurs in `t` at position j. */
  predicate OccursAt(t: string, j: nat, d: string) {
    j + |d| <= |t| && t[j..j + |d|] == d
  }

  lemma {:induction false} OccursShift(t: string, j: nat, d: string)
    requires 1 <= j && t != []
    ensures OccursAt(t, j, d) == OccursAt(t[1..], j - 1, d)
  {
    if j + |d| <= |t| {
      var x, y := t[1..][j - 1..j - 1 + |d|], t[j..j + |d|];
      forall m | 0 <= m < |d|
        ensures x[m] == y[m]
      {
      }
      assert x == y;
    }
  }

  /**
   * `s.replace(/D(.*?)D/g, open + '$1' + close)` for a delimiter D: scanning
   * from the left, a delimiter that has a closing one on the same line is
   * replaced together with it; the scan resumes after the match.
   */
  function ReplacePaired(s: string, d: string, open: string, close: string): (r: string)
    requires |d| > 0 && NoLineTerminator(d)
    ensures Lacks(s, d[0]) ==> r == s
    ensures |open| > 0 && s != [] ==> r != []
    decreases |s|
  {
    if s == [] then []
    else if StartsWith(s, d) then
      match Close(s[|d|..], d)
      case Some(k) => open + s[|d|..|d| + k] + close + ReplacePaired(s[|d| + k + |d|..], d, open, close)
      case None => [s[0]] + ReplacePaired(s[1..], d, open, close)
    else
      [s[0]] + ReplacePaired(s[1..], d, open, close)
  }

  /** A delimited span on one line, with no delimiter character inside, is replaced by its tagged content. */
  lemma {:induction false} PairReplaced(x: string, d: string, open: string, close: string)
    requires |d| > 0 && NoLineTerminator(d) && NoLineTerminator(x) && Lacks(x, d[0])
    ensures ReplacePaired(d + x + d, d, open, close) == open + x + close
  {
    var s := d + x + d;
    assert s[..|d|] == d;
    var t := s[|d|..];
    assert t == x + d;
    assert t[..|x|] == x;
    CloseAt(x, d);
    assert s[|d|..|d| + |x|] == x;
    assert s[|d| + |x| + |d|..] == [];
  }

  lemma {:induction false} CloseAt(x: string, d: string)
    requires |d| > 0 && NoLineTerminator(d) && NoLineTerminator(x) && Lacks(x, d[0])
    ensures Close(x + d, d) == Some(|x|)
    decreases |x|
  {
    var t := x + d;
    if x == [] {
      assert t[..|d|] == d;
    } else {
      assert t[..|d|] != d by { assert t[0] == x[0] != d[0]; }
      assert t[1..] == x[1..] + d;
      CloseAt(x[1..], d);
    }
  }

  /** One line of `s.replace(/^[\-\*] (.+)$/gm, '• $1')`. */
  function BulletLine(line: string): (r: string)
    ensures (|line| >= 3 && (line[0] == '-' || line[0] == '*') && line[1] == ' ') ==> r == "• " + line[2..]
    ensures !(|line| >= 3 && (line[0] == '-' || line[0] == '*') && line[1] == ' ') ==> r == line
  {
    if |line| >= 3 && (line[0] == '-' || line[0] == '*') && line[1] == ' ' then "• " + line[2..] else line
  }

  /** The index of the first line terminator, or |s|. */
  function LineEnd(s: string): (e: nat)
    ensures e <= |s| && NoLineTerminator(s[..e])
    ensures e < |s| ==> IsLineTerminator(s[e])
  {
    if s == [] then 0
    else if IsLineTerminator(s[0]) then 0
    else
      var e := 1 + LineEnd(s[1..]);
      assert s[..e] == [s[0]] + s[1..][..e - 1];
      e
  }

  /** The bullet replacement applied line by line; the terminators are kept. */
  function Bullets(s: string): string
    decreases |s|
  {
    var e := LineEnd(s);
    if e == |s| then BulletLine(s) else BulletLine(s[..e]) + [s[e]] + Bullets(s[e + 1..])
  }

  lemma BulletsNonEmpty(s: string)
    ensures s != [] ==> Bullets(s) != []
  {
  }

  /** `s.replace(/\n/g, '<br>')`. */
  function ReplaceNewlines(s: string): (r: string)
    ensures '\n' !in r
    ensures Lacks(s, '\n') ==> r == s
    ensures s != [] ==> r != []
  {
    if s == [] then ""
    else (if s[0] == '\n' then "<br>" else [s[0]]) + ReplaceNewlines(s[1..])
  }

  /** `formatMarkdown(text)`: its output never holds a newline, and is empty only for an empty text. */
  function FormatMarkdown(text: string): (r: string)
    ensures '\n' !in r
    ensures text != [] ==> r != []
  {
    var bold := ReplacePaired(ReplacePaired(text, "**", "<strong>", "</strong>"), "__", "<strong>", "</strong>");
    var italic := ReplacePaired(ReplacePaired(bold, "*", "<em>", "</em>"), "_", "<em>", "</em>");
    BulletsNonEmpty(italic);
    ReplaceNewlines(Bullets(italic))
  }

  /** Replacing newlines distributes over concatenation. */
  lemma {:induction false} ReplaceNewlinesAppend(a: string, b: string)
    ensures ReplaceNewlines(a + b) == ReplaceNewlines(a) + ReplaceNewlines(b)
    decreases |a|
  {
    if a == [] {
      assert a + b == b;
    } else {
      assert (a + b)[1..] == a[1..] + b;
      ReplaceNewlinesAppend(a[1..], b);
    }
  }

  /** Lines joined by newlines come out joined by `<br>`. */
  lemma {:induction false} NewlinesBecomeBreaks(lines: seq<string>)
    requires forall i :: 0 <= i < |lines| ==> Lacks(lines[i], '\n')
    ensures ReplaceNewlines(Join(lines, "\n")) == Join(lines, "<br>")
  {
    if |lines| > 1 {
      var front := lines[..|lines| - 1];
      NewlinesBecomeBreaks(front);
      ReplaceNewlinesAppend(Join(front, "\n") + "\n", lines[|lines| - 1]);
      ReplaceNewlinesAppend(Join(front, "\n"), "\n");
    }
  }

  /** A line terminator ends a line for the bullet rule: the lines on either side are handled apart. */
  lemma {:induction false} BulletsSplit(a: string, c: char, b: string)
    requires IsLineTerminator(c)
    ensures Bullets(a + [c] + b) == Bullets(a) + [c] + Bullets(b)
    decreases |a|
  {
    var e := LineEnd(a);
    if e == |a| {
      LineEndNone(a);
      BulletsFirstLine(a, c, b);
    } else {
      var line, d, rest := a[..e], a[e], a[e + 1..];
      assert a == line + [d] + rest;
      BulletsFirstLine(line, d, rest);
      MoveAfter(line + [d], rest, c, b);
      AppendAfterChar(d, rest + [c], b);
      AppendAfterChar(d, rest, [c]);
      BulletsFirstLine(line, d, rest + [c] + b);
      BulletsSplit(rest, c, b);
      MoveAfter(BulletLine(line) + [d], Bullets(rest), c, Bullets(b));
    }
  }

  /** The first line of a text is handled on its own, up to its terminator. */
  lemma BulletsFirstLine(line: string, d: char, rest: string)
    requires NoLineTerminator(line) && IsLineTerminator(d)
    ensures Bullets(line + [d] + rest) == BulletLine(line) + [d] + Bullets(rest)
  {
    var s := line + [d] + rest;
    assert s[..|line|] == line;
    LineEndNone(line);
    assert LineEnd(s) == |line| by {
      LineEndPrefix(line, s);
    }
    assert s[|line| + 1..] == rest;
  }

  lemma MoveAfter(p: string, t: string, c: char, b: string)
    ensures p + (t + [c] + b) == p + t + [c] + b
  {
  }

  /** LineEnd only looks as far as the first line terminator. */
  lemma {:induction false} LineEndPrefix(p: string, s: string)
    requires |p| <= |s| && s[..|p|] == p
    requires LineEnd(p) < |p| || |p| == |s| || IsLineTerminator(s[|p|])
    ensures LineEnd(s) == LineEnd(p)
    decreases |p|
  {
    if p != [] && !IsLineTerminator(p[0]) {
      assert s[1..][..|p| - 1] == p[1..];
      LineEndPrefix(p[1..], s[1..]);
    }
  }

  /** With no `*` and no `_`, only the bullet and line-break steps change anything. */
  lemma {:induction false} MarkersAbsent(s: string)
    requires Lacks(s, '*') && Lacks(s, '_')
    ensures FormatMarkdown(s) == ReplaceNewlines(Bullets(s))
  {
  }

  /** A text without line terminators is a single line. */
  lemma {:induction false} LineEndNone(s: string)
    requires NoLineTerminator(s)
    ensures LineEnd(s) == |s| && Bullets(s) == BulletLine(s)
  {
  }

  lemma {:induction false} LacksAppend(a: string, b: string, c: char)
    requires Lacks(a, c) && Lacks(b, c)
    ensures Lacks(a + b, c)
  {
    assert forall k :: 0 <= k < |a + b| ==> (a + b)[k] == if k < |a| then a[k] else b[k - |a|];
  }

  lemma {:induction false} NoLineTerminatorAppend(a: string, b: string)
    requires NoLineTerminator(a) && NoLineTerminator(b)
    ensures NoLineTerminator(a + b)
  {
    assert forall k :: 0 <= k < |a + b| ==> (a + b)[k] == if k < |a| then a[k] else b[k - |a|];
  }

  /** Bold: `**x**` and `__x__`, for a one-line x without `*` or `_`, become `<strong>x</strong>`, not italics. */
  lemma {:induction false} BoldBecomesStrong(x: string, d: string)
    requires d == "**" || d == "__"
    requires NoLineTerminator(x) && Lacks(x, '*') && Lacks(x, '_')
    ensures FormatMarkdown(d + x + d) == "<strong>" + x + "</strong>"
  {
    var r := "<strong>" + x + "</strong>";
    LacksAppend("<strong>", x, '*');
    LacksAppend("<strong>" + x, "</strong>", '*');
    LacksAppend("<strong>", x, '_');
    LacksAppend("<strong>" + x, "</strong>", '_');
    LacksAppend("<strong>", x, '\n');
    LacksAppend("<strong>" + x, "</strong>", '\n');
    NoLineTerminatorAppend("<strong>", x);
    NoLineTerminatorAppend("<strong>" + x, "</strong>");
    var s := d + x + d;
    var bold1 := ReplacePaired(s, "**", "<strong>", "</strong>");
    if d == "**" {
      PairReplaced(x, d, "<strong>", "</strong>");
      assert bold1 == r;
    } else {
      LacksAppend(d, x, '*');
      LacksAppend(d + x, d, '*');
      assert bold1 == s;
      PairReplaced(x, d, "<strong>", "</strong>");
    }
    assert ReplacePaired(bold1, "__", "<strong>", "</strong>") == r;
    LineEndNone(r);
    assert BulletLine(r) == r by { assert r[0] == '<'; }
  }

  /** A one-line text with no `*` or `_` that does not start with "- " is left as it is. */
  lemma {:induction false} PlainTextUnchanged(s: string)
    requires NoLineTerminator(s) && Lacks(s, '*') && Lacks(s, '_') && !StartsWith(s, "- ")
    ensures FormatMarkdown(s) == s
  {
    MarkersAbsent(s);
    LineEndNone(s);
  }

  /** Lines "- item" joined by newlines become "• item" lines joined by `<br>`. */
  lemma {:induction false} BulletList(items: seq<string>)
    requires forall i :: 0 <= i < |items| ==>
               items[i] != [] && NoLineTerminator(items[i]) && Lacks(items[i], '*') && Lacks(items[i], '_')
    ensures FormatMarkdown(Join(Dashed(items), "\n")) == Join(Dotted(items), "<br>")
  {
    var s := Join(Dashed(items), "\n");
    JoinLacks(Dashed(items), "\n", '*');
    JoinLacks(Dashed(items), "\n", '_');
    BulletsOfLines(items);
    forall i | 0 <= i < |items|
      ensures Lacks(Dotted(items)[i], '\n')
    {
      assert Dotted(items)[i] == "• " + items[i];
    }
    NewlinesBecomeBreaks(Dotted(items));
  }

  function Dashed(items: seq<string>): (r: seq<string>)
    ensures |r| == |items| && forall i :: 0 <= i < |items| ==> r[i] == "- " + items[i]
  {
    seq(|items|, i requires 0 <= i < |items| => "- " + items[i])
  }

  function Dotted(items: seq<string>): (r: seq<string>)
    ensures |r| == |items| && forall i :: 0 <= i < |items| ==> r[i] == "• " + items[i]
  {
    seq(|items|, i requires 0 <= i < |items| => "• " + items[i])
  }

  lemma {:induction false} JoinLacks(parts: seq<string>, sep: string, c: char)
    requires Lacks(sep, c) && forall i :: 0 <= i < |parts| ==> Lacks(parts[i], c)
    ensures Lacks(Join(parts, sep), c)
  {
    if |parts| > 1 {
      JoinLacks(parts[..|parts| - 1], sep, c);
    }
  }

  lemma {:induction false} BulletsOfLines(items: seq<string>)
    requires forall i :: 0 <= i < |items| ==> items[i] != [] && NoLineTerminator(items[i])
    ensures Bullets(Join(Dashed(items), "\n")) == Join(Dotted(items), "\n")
    decreases |items|
  {
    if |items| == 1 {
      var line := "- " + items[0];
      assert Join(Dashed(items), "\n") == line;
      assert NoLineTerminator(line);
      assert LineEnd(line) == |line|;
      assert line[2..] == items[0];
    } else if |items| > 1 {
      var front := items[..|items| - 1];
      var last := items[|items| - 1];
      assert Dashed(items)[..|items| - 1] == Dashed(front);
      assert Dotted(items)[..|items| - 1] == Dotted(front);
      BulletsOfLines(front);
      BulletsOfLines([last]);
      assert Dashed([last]) == [Dashed(items)[|items| - 1]];
      assert Dotted([last]) == [Dotted(items)[|items| - 1]];
      assert Join(Dashed(items), "\n") == Join(Dashed(front), "\n") + ['\n'] + ("- " + last);
      BulletsSplit(Join(Dashed(front), "\n"), '\n', "- " + last);
    }
  }

  /**
   * A carriage return also starts a line for the bullet rule: "a\r- item"
   * comes out as "a\r• item", although it holds no newline.
   */
  lemma {:induction false} CarriageReturnStartsBullet(a: string, item: string)
    requires NoLineTerminator(a) && Lacks(a, '*') && Lacks(a, '_') && !StartsWith(a, "- ")
    requires item != [] && NoLineTerminator(item) && Lacks(item, '*') && Lacks(item, '_')
    ensures FormatMarkdown(a + "\r- " + item) == a + "\r• " + item
  {
    var s := a + "\r- " + item;
    var r := a + "\r• " + item;
    LacksAppend(a, "\r- ", '*');
    LacksAppend(a + "\r- ", item, '*');
    LacksAppend(a, "\r- ", '_');
    LacksAppend(a + "\r- ", item, '_');
    MarkersAbsent(s);
    BulletsAfterReturn(a, item);
    LacksAppend(a, "\r• ", '\n');
    LacksAppend(a + "\r• ", item, '\n');
    assert ReplaceNewlines(r) == r;
  }

  lemma {:induction false} BulletsAfterReturn(a: string, item: string)
    requires NoLineTerminator(a) && Lacks(a, '*') && !StartsWith(a, "- ") && item != [] && NoLineTerminator(item)
    ensures Bullets(a + "\r- " + item) == a + "\r• " + item
  {
    assert "\r- " == ['\r'] + "- ";
    assert "\r• " == ['\r'] + "• ";
    AfterOneChar(a, '\r', "- ", item);
    AfterOneChar(a, '\r', "• ", item);
    BulletsSplit(a, '\r', "- " + item);
    PlainLine(a);
    BulletItem(item);
  }

  lemma AfterOneChar(a: string, c: char, p: string, t: string)
    ensures a + ([c] + p) + t == a + [c] + (p + t)
  {
  }

  lemma {:induction false} PlainLine(a: string)
    requires NoLineTerminator(a) && Lacks(a, '*') && !StartsWith(a, "- ")
    ensures Bullets(a) == a
  {
    LineEndNone(a);
  }

  lemma {:induction false} BulletItem(item: string)
    requires item != [] && NoLineTerminator(item)
    ensures Bullets("- " + item) == "• " + item
  {
    var line := "- " + item;
    NoLineTerminatorAppend("- ", item);
    LineEndNone(line);
    assert line[2..] == item;
  }
}
