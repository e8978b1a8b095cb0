/**
 * Children normalisation (`trimChildren`) and the element lowering that uses
 * it (`leaveXJSElement`), as functions of the children list. The imperative
 * versions in module Visitor are proved equal to these.
 */
module Elements {
  import opened Wrappers
  import opened JsString
  import opened Syntax

  /** The children list after a trim, and whether the trim raised. */
  datatype Trimmed = Trimmed(children: seq<Node>, outcome: Outcome<Error>)

  predicate IsEdgePosition(position: string) {
    position == "start" || position == "end"
  }

  /** The child a trim inspects: the first for `start`, the last for `end`. */
  function EdgeIndex(children: seq<Node>, position: string): (i: nat)
    requires |children| > 0
    ensures i < |children|
  {
    if position == "start" then 0 else |children| - 1
  }

  /** `trimLeft` for `start`, `trimRight` for `end`. */
  function TrimSide(position: string, s: string): string {
    if position == "start" then TrimLeft(s) else TrimRight(s)
  }

  /** A blanked text child: `child.raw = child.value = ''`. */
  const Blank: Node := Literal(Str(""), Some(""))

  /**
   * `trimChildren(children, position)`. A position other than `start`/`end`
   * raises `Bad argument`. Only the edge child is inspected and only a Literal
   * edge is touched: text with content loses whitespace on that side only, in
   * both its value and its raw text; whitespace-only text is removed when it is
   * the sole child and blanked otherwise. No other child changes and the list
   * shrinks by at most the one sole child.
   */
  function TrimEdge(children: seq<Node>, position: string): (t: Trimmed)
    ensures !IsEdgePosition(position) ==> t == Trimmed(children, Fail(BadArgument))
    ensures IsEdgePosition(position) && children == [] ==> t == Trimmed(children, Fail(NoEdgeChild))
    ensures |t.children| == |children| || (|children| == 1 && t.children == [])
    ensures |children| > 0 && |t.children| == |children| ==>
      forall j :: 0 <= j < |children| && j != EdgeIndex(children, position) ==> t.children[j] == children[j]
    ensures IsEdgePosition(position) && children != [] ==>
      var i := EdgeIndex(children, position);
      var child := children[i];
      && (!child.Literal? ==> t == Trimmed(children, Pass))
      && (child.Literal? && !child.value.Str? ==> t == Trimmed(children, Fail(TrimOnNonString)))
      && (child.Literal? && child.value.Str? && Trim(child.value.s) != "" ==>
            && |t.children| == |children|
            && t.children[i].Literal?
            && t.children[i].value == Str(TrimSide(position, child.value.s))
            && (child.raw.Some? ==> t.outcome == Pass && t.children[i].raw == Some(TrimSide(position, child.raw.value)))
            && (child.raw.None? ==> t.outcome == Fail(RawMissing)))
      && (child.Literal? && child.value.Str? && Trim(child.value.s) == "" ==>
            && t.outcome == Pass
            && (|children| == 1 ==> t.children == [])
            && (|children| > 1 ==> t.children[i] == Blank))
  {
    if !IsEdgePosition(position) then Trimmed(children, Fail(BadArgument))
    else if children == [] then Trimmed(children, Fail(NoEdgeChild))
    else
      var i := EdgeIndex(children, position);
      var child := children[i];
      if !child.Literal? then Trimmed(children, Pass)
      else if !child.value.Str? then Trimmed(children, Fail(TrimOnNonString))
      else if Trim(child.value.s) != "" then
        var value := TrimSide(position, child.value.s);
        if child.raw.None? then
          Trimmed(children[i := child.(value := Str(value))], Fail(RawMissing))
        else
          Trimmed(children[i := Literal(Str(value), Some(TrimSide(position, child.raw.value)))], Pass)
      else if |children| == 1 then Trimmed([], Pass)
      else Trimmed(children[i := Blank], Pass)
  }

  /** The trims `leaveXJSElement` runs: `start`, then `end`, each only while children remain. */
  function NormalizeChildren(children: seq<Node>): (t: Trimmed)
    ensures t.outcome.Fail? ==> t.outcome.error == TrimOnNonString || t.outcome.error == RawMissing
    ensures t.outcome.Pass? ==>
      || (t.children == [] && |children| == 1)
      || (|t.children| == |children| && forall j :: 0 < j < |children| - 1 ==> t.children[j] == children[j])
  {
    var afterStart := if children != [] then TrimEdge(children, "start") else Trimmed(children, Pass);
    if afterStart.outcome.Fail? then afterStart
    else if afterStart.children != [] then
      var afterEnd := TrimEdge(afterStart.children, "end");
      assert EdgeIndex(children, "start") == 0;
      assert EdgeIndex(afterStart.children, "end") == |afterStart.children| - 1 by {
        assert "end"[0] != "start"[0];
      }
      afterEnd
    else afterStart
  }

  /** A trim only ever writes literals, so it never brings a JSX node into the list. */
  lemma TrimEdgeKeepsPlain(children: seq<Node>, position: string)
    requires forall j :: 0 <= j < |children| ==> NoJSX(children[j])
    ensures forall j :: 0 <= j < |TrimEdge(children, position).children| ==> NoJSX(TrimEdge(children, position).children[j])
  {
    var t := TrimEdge(children, position);
    if IsEdgePosition(position) && children != [] && |t.children| == |children| {
      var i := EdgeIndex(children, position);
      assert NoJSX(t.children[i]) by {
        if t.children[i] != children[i] {
          assert t.children[i].Literal?;
          assert Children(t.children[i]) == [];
        }
      }
      forall j | 0 <= j < |t.children|
        ensures NoJSX(t.children[j])
      {
        if j != i {
          assert t.children[j] == children[j];
        }
      }
    }
  }

  lemma NormalizeKeepsPlain(children: seq<Node>)
    requires forall j :: 0 <= j < |children| ==> NoJSX(children[j])
    ensures forall j :: 0 <= j < |NormalizeChildren(children).children| ==> NoJSX(NormalizeChildren(children).children[j])
  {
    if children != [] {
      TrimEdgeKeepsPlain(children, "start");
      var s := TrimEdge(children, "start").children;
      if s != [] {
        TrimEdgeKeepsPlain(s, "end");
      }
    }
  }

  /** The node kinds the model keeps a source location on. */
  predicate HasLoc(n: Node) {
    n.CallExpression? || n.Property? || n.XJSAttribute? || n.XJSElement?
  }

  /**
   * `callExpr.loc = node.loc` on a node the model keeps a location for: only
   * the location changes, and a node without one is left as it is.
   */
  function SetLoc(n: Node, loc: Loc): (r: Node)
    ensures HasLoc(n) ==> HasLoc(r) && r.loc == loc && r.(loc := n.loc) == n
    ensures !HasLoc(n) ==> r == n
  {
    match n
    case CallExpression(c, args, _) => CallExpression(c, args, loc)
    case Property(k, key, v, _) => Property(k, key, v, loc)
    case XJSAttribute(nm, v, _) => XJSAttribute(nm, v, loc)
    case XJSElement(o, c, ch, _) => XJSElement(o, c, ch, loc)
    case _ => n
  }

  /** `leaveXJSElement`, once the opening tag has become a call; its contract is ElementCallLowers. */
  function ElementCall(node: Node): (r: Result<Action, Error>)
    ensures !node.XJSElement? ==> r == Ok(Keep)
  {
    match node
    case XJSElement(open, _, children, loc) =>
      var t := NormalizeChildren(children);
      if t.outcome.Fail? then Err(t.outcome.error)
      else if open.CallExpression? then
        var args := if t.children == [] then open.arguments else open.arguments + [ArrayExpression(t.children)];
        Ok(Replace(CallExpression(open.callee, args, loc)))
      else if t.children != [] then Err(OpeningNotLowered)
      else Ok(Replace(SetLoc(open, loc)))
    case _ => Ok(Keep)
  }

  /**
   * What `leaveXJSElement` makes of an element: the children are normalised,
   * one array argument of the remaining children in their order is appended
   * if and only if children remain, and the call takes the element's
   * location. A trim that raises ends the lowering with its exception.
   */
  lemma ElementCallLowers(node: Node)
    ensures node.XJSElement? && NormalizeChildren(node.children).outcome.Fail? ==>
      ElementCall(node) == Err(NormalizeChildren(node.children).outcome.error)
    ensures node.XJSElement? && NormalizeChildren(node.children).outcome.Pass? && node.openingElement.CallExpression? ==>
      var open := node.openingElement;
      var kids := NormalizeChildren(node.children).children;
      && ElementCall(node).Ok? && ElementCall(node).value.Replace? && ElementCall(node).value.node.CallExpression?
      && var call := ElementCall(node).value.node;
      && call.callee == open.callee && call.loc == node.loc
      && |call.arguments| == |open.arguments| + (if kids == [] then 0 else 1)
      && call.arguments[..|open.arguments|] == open.arguments
      && (kids != [] ==> call.arguments[|open.arguments|] == ArrayExpression(kids))
    ensures node.XJSElement? && NormalizeChildren(node.children).outcome.Pass? && !node.openingElement.CallExpression? ==>
      (ElementCall(node).Err? <==> NormalizeChildren(node.children).children != []) &&
      (ElementCall(node).Err? ==> ElementCall(node).error == OpeningNotLowered)
  {
  }
}
