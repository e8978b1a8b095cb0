/**
 * The few JavaScript string operations the visitor relies on:
 * `trim`/`trimLeft`/`trimRight`, `split` on a one-character separator
 * (and `join`, its inverse), and the identifier-name test of esutils.
 */
module JsString {

  /** WhiteSpace or LineTerminator of ECMAScript: what `String.prototype.trim` strips. */
  predicate IsWhitespace(c: char) {
    || c == '\t' || c == '\n' || c == '\U{B}' || c == '\U{C}' || c == '\r' || c == ' '
    || c == '\U{A0}' || c == '\U{1680}' || ('\U{2000}' <= c <= '\U{200A}')
    || c == '\U{2028}' || c == '\U{2029}' || c == '\U{202F}' || c == '\U{205F}'
    || c == '\U{3000}' || c == '\U{FEFF}'
  }

  predicate AllWhitespace(s: string) {
    forall i :: 0 <= i < |s| ==> IsWhitespace(s[i])
  }

  /** `s.trimLeft()`: the longest suffix of `s` that does not start with whitespace. */
  function TrimLeft(s: string): (r: string)
    ensures |r| <= |s| && r == s[|s| - |r|..]
    ensures r == [] || !IsWhitespace(r[0])
    ensures AllWhitespace(s[..|s| - |r|])
  {
    if s != [] && IsWhitespace(s[0]) then
      var r := TrimLeft(s[1..]);
      var p := s[..|s| - |r|];
      assert AllWhitespace(p) by {
        forall i | 0 <= i < |p|
          ensures IsWhitespace(p[i])
        {
          if i > 0 {
            assert p[i] == s[1..][..|s| - 1 - |r|][i - 1];
          }
        }
      }
      r
    else
      s
  }

  /** `s.trimRight()`: the longest prefix of `s` that does not end with whitespace. */
  function TrimRight(s: string): (r: string)
    ensures |r| <= |s| && r == s[..|r|]
    ensures r == [] || !IsWhitespace(r[|r| - 1])
    ensures AllWhitespace(s[|r|..])
  {
    if s != [] && IsWhitespace(s[|s| - 1]) then
      var r := TrimRight(s[..|s| - 1]);
      var q := s[|r|..];
      assert AllWhitespace(q) by {
        forall i | 0 <= i < |q|
          ensures IsWhitespace(q[i])
        {
          if i < |q| - 1 {
            assert q[i] == s[..|s| - 1][|r|..][i];
          }
        }
      }
      r
    else
      s
  }

  /** `s.trim()`: whitespace stripped from both ends. */
  function Trim(s: string): (r: string)
    ensures r == [] <==> AllWhitespace(s)
    ensures r == [] <==> TrimLeft(s) == []
    ensures r == [] <==> TrimRight(s) == []
  {
    var l := TrimLeft(s);
    var r := TrimRight(l);
    assert r == [] ==> AllWhitespace(s) by {
      if r == [] {
        assert s == s[..|s| - |l|] + l;
      }
    }
    r
  }

  /** `parts.join([sep])`. */
  function Join(parts: seq<string>, sep: char): string {
    if |parts| == 0 then ""
    else if |parts| == 1 then parts[0]
    else parts[0] + [sep] + Join(parts[1..], sep)
  }

  /** The position of the first `c` in `s`. */
  function IndexOf(s: string, c: char): (i: nat)
    requires c in s
    ensures i < |s| && s[i] == c && c !in s[..i]
  {
    if s[0] == c then 0
    else
      assert c in s[1..] by {
        var k :| 0 <= k < |s| && s[k] == c;
        assert s[1..][k - 1] == c;
      }
      var i := 1 + IndexOf(s[1..], c);
      assert s[..i] == [s[0]] + s[1..][..i - 1];
      i
  }

  /** `s.split(sep)` for a one-character separator: the text before the first separator, then the split of the rest. */
  function Split(s: string, sep: char): (parts: seq<string>)
    ensures |parts| >= 1
    decreases |s|
  {
    if sep !in s then [s]
    else
      var i := IndexOf(s, sep);
      [s[..i]] + Split(s[i + 1..], sep)
  }

  /** `split` loses nothing: the parts join back to `s`. */
  lemma {:induction false} SplitJoinsBack(s: string, sep: char)
    ensures Join(Split(s, sep), sep) == s
    decreases |s|
  {
    if sep in s {
      var i := IndexOf(s, sep);
      var rest := s[i + 1..];
      SplitJoinsBack(rest, sep);
      var parts := Split(s, sep);
      assert parts[0] == s[..i] && parts[1..] == Split(rest, sep);
      assert s == s[..i] + [sep] + rest;
    }
  }

  /** `split` cuts at every separator: no part holds one, and there is one part exactly when `s` has none. */
  lemma {:induction false} SplitPartsFree(s: string, sep: char)
    ensures forall i :: 0 <= i < |Split(s, sep)| ==> sep !in Split(s, sep)[i]
    ensures |Split(s, sep)| == 1 <==> sep !in s
    decreases |s|
  {
    if sep in s {
      var i := IndexOf(s, sep);
      var rest := s[i + 1..];
      SplitPartsFree(rest, sep);
      var parts := Split(s, sep);
      assert parts[0] == s[..i] && parts[1..] == Split(rest, sep);
      forall j | 0 <= j < |parts|
        ensures sep !in parts[j]
      {
        if j > 0 {
          assert parts[j] == parts[1..][j - 1];
        }
      }
    }
  }

  /** Splitting a separator-free head, a separator and a tail gives the head, then the tail's parts. */
  lemma SplitAfterHead(a: string, b: string, sep: char)
    requires sep !in a
    ensures Split(a + [sep] + b, sep) == [a] + Split(b, sep)
  {
    var s := a + [sep] + b;
    assert s[|a|] == sep;
    var i := IndexOf(s, sep);
    assert i <= |a| by {
      assert forall k :: 0 <= k < i ==> s[..i][k] == s[k];
    }
    assert i >= |a| by {
      assert forall k :: 0 <= k < |a| ==> s[k] == a[k];
    }
    assert s[..i] == a && s[i + 1..] == b;
  }

  /** Splitting around one separator splits each side on its own. */
  lemma {:induction false} SplitAround(a: string, b: string, sep: char)
    ensures Split(a + [sep] + b, sep) == Split(a, sep) + Split(b, sep)
    decreases |a|
  {
    if sep !in a {
      SplitAfterHead(a, b, sep);
    } else {
      var i := IndexOf(a, sep);
      var head, tail := a[..i], a[i + 1..];
      assert sep !in head;
      assert a == head + [sep] + tail;
      calc {
        Split(a + [sep] + b, sep);
        { assert a + [sep] + b == head + [sep] + (tail + [sep] + b); }
        Split(head + [sep] + (tail + [sep] + b), sep);
        { SplitAfterHead(head, tail + [sep] + b, sep); }
        [head] + Split(tail + [sep] + b, sep);
        { SplitAround(tail, b, sep); }
        [head] + (Split(tail, sep) + Split(b, sep));
        { SplitAfterHead(head, tail, sep); }
        Split(a, sep) + Split(b, sep);
      }
    }
  }

  /** `join` followed by `split` gives the parts back when no part holds the separator. */
  lemma {:induction false} SplitJoin(parts: seq<string>, sep: char)
    requires |parts| >= 1
    requires forall i :: 0 <= i < |parts| ==> sep !in parts[i]
    ensures Split(Join(parts, sep), sep) == parts
  {
    if |parts| == 1 {
      assert sep !in parts[0];
    } else {
      SplitJoin(parts[1..], sep);
      SplitAfterHead(parts[0], Join(parts[1..], sep), sep);
      assert parts == [parts[0]] + parts[1..];
    }
  }

  predicate IsIdentifierStart(c: char) {
    ('a' <= c <= 'z') || ('A' <= c <= 'Z') || c == '$' || c == '_'
  }

  predicate IsIdentifierPart(c: char) {
    IsIdentifierStart(c) || ('0' <= c <= '9')
  }

  /**
   * esutils `keyword.isIdentifierName`: a non-empty name that starts with an
   * identifier-start character and continues with identifier-part characters.
   * Reserved words are identifier names too. Only the ASCII repertoire is modelled.
   */
  predicate IsIdentifierName(s: string) {
    |s| > 0 && IsIdentifierStart(s[0]) && forall i :: 1 <= i < |s| ==> IsIdentifierPart(s[i])
  }
}
