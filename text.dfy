/**
 * String helpers shared by the server (Python) and the client (JavaScript):
 * whitespace stripping with each language's own whitespace set, Python's
 * lower(), prefix/suffix tests, joining and JavaScript's split.
 */
module Text {

  /** Which language's notion of whitespace `strip()` / `trim()` uses. */
  datatype Whitespace = Python | JavaScript

  /** Python's str.isspace(). */
  predicate IsPySpace(c: char) {
    ('\t' <= c <= '\r') || ('\U{1C}' <= c <= '\U{1F}') || c == ' '
    || c == '\U{85}' || c == '\U{A0}' || c == '\U{1680}'
    || ('\U{2000}' <= c <= '\U{200A}') || c == '\U{2028}' || c == '\U{2029}'
    || c == '\U{202F}' || c == '\U{205F}' || c == '\U{3000}'
  }

  /** ECMAScript's WhiteSpace and LineTerminator, the set String.prototype.trim removes. */
  predicate IsJsSpace(c: char) {
    ('\t' <= c <= '\r') || c == ' ' || c == '\U{A0}' || c == '\U{FEFF}' || c == '\U{1680}'
    || ('\U{2000}' <= c <= '\U{200A}') || c == '\U{2028}' || c == '\U{2029}'
    || c == '\U{202F}' || c == '\U{205F}' || c == '\U{3000}'
  }

  predicate IsSpace(c: char, ws: Whitespace) {
    match ws
    case Python => IsPySpace(c)
    case JavaScript => IsJsSpace(c)
  }

  /** Number of whitespace characters at the start of `s`. */
  function LeadingSpaces(s: string, ws: Whitespace): (n: nat)
    ensures n <= |s|
    ensures forall k :: 0 <= k < n ==> IsSpace(s[k], ws)
    ensures n < |s| ==> !IsSpace(s[n], ws)
  {
    if s == [] || !IsSpace(s[0], ws) then 0 else 1 + LeadingSpaces(s[1..], ws)
  }

  /** Number of whitespace characters at the end of `s`. */
  function TrailingSpaces(s: string, ws: Whitespace): (n: nat)
    ensures n <= |s|
    ensures forall k :: |s| - n <= k < |s| ==> IsSpace(s[k], ws)
    ensures n < |s| ==> !IsSpace(s[|s| - 1 - n], ws)
  {
    if s == [] || !IsSpace(s[|s| - 1], ws) then 0 else 1 + TrailingSpaces(s[..|s| - 1], ws)
  }

  /** `s.strip()` in Python, `s.trim()` in JavaScript. */
  function Strip(s: string, ws: Whitespace): (r: string)
    ensures LeadingSpaces(s, ws) + |r| <= |s|
    ensures r == s[LeadingSpaces(s, ws)..LeadingSpaces(s, ws) + |r|]
    ensures r != [] ==> !IsSpace(r[0], ws) && !IsSpace(r[|r| - 1], ws)
    ensures forall k :: 0 <= k < LeadingSpaces(s, ws) ==> IsSpace(s[k], ws)
    ensures forall k :: LeadingSpaces(s, ws) + |r| <= k < |s| ==> IsSpace(s[k], ws)
  {
    var front := s[LeadingSpaces(s, ws)..];
    front[..|front| - TrailingSpaces(front, ws)]
  }

  predicate AllSpace(s: string, ws: Whitespace) {
    forall k :: 0 <= k < |s| ==> IsSpace(s[k], ws)
  }

  /** Stripping removes exactly the whitespace padding around a text that has none at its ends. */
  lemma {:induction false} StripPadded(left: string, t: string, right: string, ws: Whitespace)
    requires AllSpace(left, ws) && AllSpace(right, ws)
    requires t != [] ==> !IsSpace(t[0], ws) && !IsSpace(t[|t| - 1], ws)
    ensures Strip(left + t + right, ws) == t
  {
    var s := left + t + right;
    if t == [] {
      assert s == (left + right) + [];
      LeadingPadded(left + right, [], ws);
      return;
    }
    LeadingPadded(left, t + right, ws);
    assert s == left + (t + right);
    var front := s[|left|..];
    assert front == t + right;
    TrailingPadded(t, right, ws);
  }

  lemma {:induction false} LeadingPadded(left: string, rest: string, ws: Whitespace)
    requires AllSpace(left, ws)
    requires rest != [] ==> !IsSpace(rest[0], ws)
    ensures LeadingSpaces(left + rest, ws) == |left|
  {
    if left != [] {
      assert (left + rest)[1..] == left[1..] + rest;
      LeadingPadded(left[1..], rest, ws);
    } else {
      assert left + rest == rest;
    }
  }

  lemma {:induction false} TrailingPadded(t: string, right: string, ws: Whitespace)
    requires AllSpace(right, ws)
    requires t != [] ==> !IsSpace(t[|t| - 1], ws)
    ensures TrailingSpaces(t + right, ws) == |right|
  {
    if right != [] {
      var s := t + right;
      assert s[..|s| - 1] == t + right[..|right| - 1];
      TrailingPadded(t, right[..|right| - 1], ws);
    } else {
      assert t + right == t;
    }
  }

  /** Python's lower() on one character: ASCII and Latin-1 capitals; other letters are kept. */
  function LowerChar(c: char): char {
    if 'A' <= c <= 'Z' || ('\U{C0}' <= c <= '\U{DE}' && c != '\U{D7}') then
      (c as int + 32) as char
    else c
  }

  /** Python's lower(), as far as LowerChar goes. */
  function Lower(s: string): (r: string)
    ensures |r| == |s|
    ensures forall k :: 0 <= k < |s| ==> r[k] == LowerChar(s[k])
  {
    seq(|s|, k requires 0 <= k < |s| => LowerChar(s[k]))
  }

  lemma {:induction false} LowerAppend(a: string, b: string)
    ensures Lower(a + b) == Lower(a) + Lower(b)
  {
    assert |Lower(a + b)| == |Lower(a) + Lower(b)|;
    forall k | 0 <= k < |a| + |b|
      ensures Lower(a + b)[k] == (Lower(a) + Lower(b))[k]
    {
      if k < |a| { assert (a + b)[k] == a[k]; } else { assert (a + b)[k] == b[k - |a|]; }
    }
  }

  predicate StartsWith(s: string, prefix: string) {
    |prefix| <= |s| && s[..|prefix|] == prefix
  }

  predicate EndsWith(s: string, suffix: string) {
    |suffix| <= |s| && s[|s| - |suffix|..] == suffix
  }

  /** JavaScript's `s.includes(sub)`. */
  predicate Contains(s: string, sub: string)
    decreases |s|
  {
    StartsWith(s, sub) || (s != [] && Contains(s[1..], sub))
  }

  /** `"".join(parts)`. */
  function Concat(parts: seq<string>): (r: string)
    ensures |r| == 0 <== parts == []
  {
    if parts == [] then "" else Concat(parts[..|parts| - 1]) + parts[|parts| - 1]
  }

  lemma {:induction false} ConcatAppend(xs: seq<string>, ys: seq<string>)
    ensures Concat(xs + ys) == Concat(xs) + Concat(ys)
    decreases |ys|
  {
    if ys == [] {
      assert xs + ys == xs;
    } else {
      var zs := xs + ys;
      assert zs[..|zs| - 1] == xs + ys[..|ys| - 1];
      ConcatAppend(xs, ys[..|ys| - 1]);
    }
  }

  /** `sep.join(parts)`. */
  function Join(parts: seq<string>, sep: string): string {
    if parts == [] then ""
    else if |parts| == 1 then parts[0]
    else Join(parts[..|parts| - 1], sep) + sep + parts[|parts| - 1]
  }

  /** JavaScript's `s.split(sep)` (Python's `s.split(sep)` alike) for a one-character separator: never empty. */
  function Split(s: string, sep: char): (r: seq<string>)
    ensures |r| >= 1
    decreases |s|
  {
    if s == [] then [""]
    else
      var rest := Split(s[1..], sep);
      if s[0] == sep then [""] + rest else [[s[0]] + rest[0]] + rest[1..]
  }

  /** One step of Split: a separator starts a new piece, any other character joins the first piece. */
  lemma SplitCons(c: char, t: string, sep: char)
    ensures var rest := Split(t, sep);
            Split([c] + t, sep) == if c == sep then [""] + rest else [[c] + rest[0]] + rest[1..]
  {
    assert ([c] + t)[1..] == t;
  }

  /** No piece of a split holds the separator. */
  lemma {:induction false} PiecesLackSeparator(s: string, sep: char)
    ensures forall k :: 0 <= k < |Split(s, sep)| ==> sep !in Split(s, sep)[k]
    decreases |s|
  {
    if s != [] {
      var t := s[1..];
      PiecesLackSeparator(t, sep);
      var r, rest := Split(s, sep), Split(t, sep);
      forall k | 0 <= k < |r|
        ensures sep !in r[k]
      {
        if s[0] == sep {
          assert r == [""] + rest;
          if k > 0 {
            assert r[k] == rest[k - 1];
          }
        } else {
          assert r == [[s[0]] + rest[0]] + rest[1..];
          if k > 0 {
            assert r[k] == rest[k];
          } else {
            assert sep !in rest[0];
          }
        }
      }
    }
  }

  /** A text without the separator is a single piece. */
  lemma {:induction false} SplitNone(s: string, sep: char)
    requires sep !in s
    ensures Split(s, sep) == [s]
    decreases |s|
  {
    if s != [] {
      SplitNone(s[1..], sep);
      assert [s[0]] + s[1..] == s;
    }
  }

  /** A text holding the separator splits into at least two pieces. */
  lemma {:induction false} SeparatorSplits(s: string, sep: char)
    requires sep in s
    ensures |Split(s, sep)| >= 2
    decreases |s|
  {
    if s[0] != sep {
      SeparatorSplits(s[1..], sep);
    }
  }

  /** Putting a character before the first of several pieces. */
  lemma JoinFirst(x: string, p: seq<string>, q: seq<string>)
    requires |p| >= 1
    ensures var r := p + q;
            [x + r[0]] + r[1..] == ([x + p[0]] + p[1..]) + q
  {
    var r := p + q;
    assert r[1..] == p[1..] + q;
  }

  /** Splitting undoes joining on the separator: the pieces of `a + sep + b` are those of `a`, then those of `b`. */
  lemma {:induction false} SplitAppend(a: string, sep: char, b: string)
    ensures Split(a + [sep] + b, sep) == Split(a, sep) + Split(b, sep)
    decreases |a|
  {
    if a == [] {
      assert a + [sep] + b == [sep] + b;
      SplitNewPiece(b, sep);
    } else {
      var c, t := a[0], a[1..];
      assert a == [c] + t;
      AppendAfterChar(c, t + [sep], b);
      AppendAfterChar(c, t, [sep]);
      SplitAppend(t, sep, b);
      var pt, pb := Split(t, sep), Split(b, sep);
      if c == sep {
        SplitNewPiece(t + [sep] + b, sep);
        SplitNewPiece(t, sep);
        Regroup([""], pt, pb);
      } else {
        SplitJoinChar(c, t + [sep] + b, sep);
        SplitJoinChar(c, t, sep);
        JoinFirst([c], pt, pb);
      }
    }
  }

  lemma Regroup<T>(x: seq<T>, y: seq<T>, z: seq<T>)
    ensures x + (y + z) == x + y + z
  {
  }

  /**
   * Splitting `a + b`: every piece of `a` but its last is kept, and the last
   * one is continued by `b`.
   */
  lemma {:induction false} SplitAcross(a: string, sep: char, b: string)
    ensures var pa := Split(a, sep);
            Split(a + b, sep) == pa[..|pa| - 1] + Split(pa[|pa| - 1] + b, sep)
    decreases |a|
  {
    if a == [] {
      assert a + b == b;
    } else {
      var c, t := a[0], a[1..];
      assert a == [c] + t;
      SplitAcross(t, sep, b);
      SplitAcrossStep(c, t, sep, b);
    }
  }

  /** The inductive step of SplitAcross: one more character in front. */
  lemma SplitAcrossStep(c: char, t: string, sep: char, b: string)
    requires var pt := Split(t, sep);
             Split(t + b, sep) == pt[..|pt| - 1] + Split(pt[|pt| - 1] + b, sep)
    ensures var pa := Split([c] + t, sep);
            Split([c] + t + b, sep) == pa[..|pa| - 1] + Split(pa[|pa| - 1] + b, sep)
  {
    if c == sep {
      SplitAcrossAtSeparator(t, sep, b);
    } else if |Split(t, sep)| == 1 {
      SplitAcrossOnePiece(c, t, sep, b);
    } else {
      SplitAcrossPieces(c, t, sep, b);
    }
  }

  /** The step of SplitAcross for a separator: it starts a piece of its own. */
  lemma SplitAcrossAtSeparator(t: string, sep: char, b: string)
    requires var pt := Split(t, sep);
             Split(t + b, sep) == pt[..|pt| - 1] + Split(pt[|pt| - 1] + b, sep)
    ensures var pa := Split([sep] + t, sep);
            Split([sep] + t + b, sep) == pa[..|pa| - 1] + Split(pa[|pa| - 1] + b, sep)
  {
    var pt := Split(t, sep);
    AppendAfterChar(sep, t, b);
    SplitNewPiece(t + b, sep);
    SplitNewPiece(t, sep);
    SplitAcrossSeparator(pt, Split(t + b, sep), Split(pt[|pt| - 1] + b, sep));
  }

  /** A separator starts a new piece. */
  lemma SplitNewPiece(t: string, sep: char)
    ensures Split([sep] + t, sep) == [""] + Split(t, sep)
  {
    SplitCons(sep, t, sep);
  }

  /** The step of SplitAcross for another character, when `t` is one piece: the character joins it. */
  lemma SplitAcrossOnePiece(c: char, t: string, sep: char, b: string)
    requires c != sep && |Split(t, sep)| == 1
    requires var pt := Split(t, sep);
             Split(t + b, sep) == pt[..|pt| - 1] + Split(pt[|pt| - 1] + b, sep)
    ensures var pa := Split([c] + t, sep);
            Split([c] + t + b, sep) == pa[..|pa| - 1] + Split(pa[|pa| - 1] + b, sep)
  {
    var pt, r := Split(t, sep), Split(t + b, sep);
    var p := pt[0];
    assert r == Split(p + b, sep) by {
      assert pt[..0] == [];
    }
    assert Split([c] + t + b, sep) == [[c] + r[0]] + r[1..] by {
      assert [c] + t + b == [c] + (t + b);
      SplitCons(c, t + b, sep);
    }
    var pa := Split([c] + t, sep);
    assert pa == [[c] + p] by {
      SplitCons(c, t, sep);
    }
    SplitAcrossFirstPiece(c, p, sep, b);
    assert pa[..|pa| - 1] == [];
  }

  /** The step of SplitAcross for another character, when `t` has several pieces. */
  lemma SplitAcrossPieces(c: char, t: string, sep: char, b: string)
    requires c != sep && |Split(t, sep)| >= 2
    requires var pt := Split(t, sep);
             Split(t + b, sep) == pt[..|pt| - 1] + Split(pt[|pt| - 1] + b, sep)
    ensures var pa := Split([c] + t, sep);
            Split([c] + t + b, sep) == pa[..|pa| - 1] + Split(pa[|pa| - 1] + b, sep)
  {
    var pt := Split(t, sep);
    AppendAfterChar(c, t, b);
    SplitJoinChar(c, t + b, sep);
    SplitJoinChar(c, t, sep);
    SplitAcrossOther([c], pt, Split(t + b, sep), Split(pt[|pt| - 1] + b, sep));
  }

  /** A character other than the separator joins the first piece. */
  lemma SplitJoinChar(c: char, t: string, sep: char)
    requires c != sep
    ensures Split([c] + t, sep) == [[c] + Split(t, sep)[0]] + Split(t, sep)[1..]
  {
    SplitCons(c, t, sep);
  }

  lemma AppendAfterChar(c: char, t: string, b: string)
    ensures [c] + t + b == [c] + (t + b)
  {
  }

  /** SplitAcross after a character that joins the only piece. */
  lemma SplitAcrossFirstPiece(c: char, p: string, sep: char, b: string)
    requires c != sep
    ensures Split([c] + p + b, sep) == [[c] + Split(p + b, sep)[0]] + Split(p + b, sep)[1..]
  {
    assert [c] + p + b == [c] + (p + b);
    SplitCons(c, p + b, sep);
  }

  /** The bookkeeping of SplitAcross after a separator. */
  lemma SplitAcrossSeparator(pt: seq<string>, r: seq<string>, last: seq<string>)
    requires |pt| >= 1 && r == pt[..|pt| - 1] + last
    ensures var pa := [""] + pt;
            [""] + r == pa[..|pa| - 1] + last && pa[|pa| - 1] == pt[|pt| - 1]
  {
    var pa := [""] + pt;
    assert pa[..|pa| - 1] == [""] + pt[..|pt| - 1];
  }

  /** The bookkeeping of SplitAcross after another character, when its piece is not the last. */
  lemma SplitAcrossOther(x: string, pt: seq<string>, r: seq<string>, last: seq<string>)
    requires |pt| >= 2 && r == pt[..|pt| - 1] + last
    ensures var pa := [x + pt[0]] + pt[1..];
            [x + r[0]] + r[1..] == pa[..|pa| - 1] + last && pa[|pa| - 1] == pt[|pt| - 1]
  {
    var pa := [x + pt[0]] + pt[1..];
    assert r[0] == pt[0];
    assert r[1..] == pt[1..|pt| - 1] + last;
    assert pa[..|pa| - 1] == [x + pt[0]] + pt[1..|pt| - 1];
  }

  /** The last piece of a split on a separator the text contains follows the separator's last occurrence. */
  lemma {:induction false} LastPieceIsSuffix(s: string, sep: char)
    requires sep in s
    ensures var pieces := Split(s, sep);
            EndsWith(s, [sep] + pieces[|pieces| - 1])
    decreases |s|
  {
    var c, t := s[0], s[1..];
    assert s == [c] + t;
    SplitCons(c, t, sep);
    var pt := Split(t, sep);
    if sep in t {
      LastPieceIsSuffix(t, sep);
      SeparatorSplits(t, sep);
      EndsWithAfter([c], t, [sep] + pt[|pt| - 1]);
    } else {
      SplitNone(t, sep);
    }
  }

  /** A suffix of a text stays a suffix when something is put in front. */
  lemma EndsWithAfter(p: string, t: string, x: string)
    requires EndsWith(t, x)
    ensures EndsWith(p + t, x)
  {
    assert (p + t)[|p + t| - |x|..] == t[|t| - |x|..];
  }
}
