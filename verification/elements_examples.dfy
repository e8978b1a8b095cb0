/** Concrete scenarios of children normalisation. */
module ElementsExamples {
  import opened Wrappers
  import opened JsString
  import opened Syntax
  import opened Elements

  /** The text `" a\n"` trims to `" a"` at its end and is not whitespace-only. */
  lemma TrailingTextTrimmed()
    ensures Trim(" a\n") != "" && TrimRight(" a\n") == " a"
  {
    var trail := " a\n";
    assert !IsWhitespace(trail[1]);
    assert !AllWhitespace(trail);
    assert trail[..2] == " a";
    assert IsWhitespace(trail[2]);
    assert TrimRight(trail) == TrimRight(" a");
    assert !IsWhitespace(" a"[1]);
  }

  /** The text `"\n "` is whitespace only. */
  lemma BlankText()
    ensures Trim("\n ") == ""
  {
    var lead := "\n ";
    assert IsWhitespace(lead[0]) && IsWhitespace(lead[1]);
    assert AllWhitespace(lead);
  }

  /** A whitespace-only first child among three is blanked, not removed. */
  lemma LeadingBlankStep(span: Node, rest: Node)
    ensures TrimEdge([Literal(Str("\n "), Some("\n ")), span, rest], "start") == Trimmed([Blank, span, rest], Pass)
  {
    var xs := [Literal(Str("\n "), Some("\n ")), span, rest];
    BlankText();
    assert EdgeIndex(xs, "start") == 0;
    assert TrimEdge(xs, "start") == Trimmed(xs[0 := Blank], Pass);
    assert xs[0 := Blank] == [Blank, span, rest];
  }

  /**
   * Children that are a whitespace-only text followed by two other nodes stay
   * three: the text is blanked, not removed, since it is not the sole child,
   * and the end trim finds no text to touch.
   */
  lemma BlankedLeadingText(span: Node, rest: Node)
    requires !rest.Literal?
    ensures
      var children := [Literal(Str("\n "), Some("\n ")), span, rest];
      NormalizeChildren(children) == Trimmed([Blank, span, rest], Pass)
  {
    var ys := [Blank, span, rest];
    LeadingBlankStep(span, rest);
    assert "end"[0] != "start"[0];
    assert EdgeIndex(ys, "end") == 2 && ys[2] == rest;
    assert TrimEdge(ys, "end") == Trimmed(ys, Pass);
  }
}
