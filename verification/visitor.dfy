/**
 * The visitor object of lib/JSX.js with its state: the shared tag-call target
 * that `enterProgram` stores, the children list that `trimChildren` edits in
 * place, and the `enter`/`leave` entry points the traversal calls. Each method
 * is proved to leave the state that the functional model describes.
 */
module Visitor {
  import opened Wrappers
  import opened JsString
  import opened Syntax
  import opened TagCall
  import opened Lowering
  import opened Elements
  import Dispatch
  import opened Traversal

  /** A JavaScript array of child nodes, edited in place. */
  class NodeArray {
    var items: seq<Node>

    constructor (items0: seq<Node>)
      ensures items == items0
    {
      items := items0;
    }
  }

  class JSX {
    /** The callee every opening tag is lowered to; unset until a Program is entered. */
    var tagCall: Option<Node>

    /** The target is unset, or the one built from the default path. */
    predicate Valid()
      reads this
    {
      TargetOk(DefaultTagCall, tagCall)
    }

    constructor ()
      ensures tagCall == None && Valid()
    {
      tagCall := None;
    }

    /** `enterProgram`: builds the target from `JSX.tag` and stores it, whatever was stored before. */
    method EnterProgram()
      modifies this
      ensures tagCall == Some(BuildTagCall(DefaultTagCall)) && Valid()
      ensures tagCall == Some(MemberExpression(Identifier("JSX"), Identifier("tag"), false))
    {
      tagCall := Some(BuildTagCall(DefaultTagCall));
      DefaultTagCallShape();
    }

    /** `trimChildren`: edits the list at one edge exactly as TrimEdge says, and reports whether it raised. */
    method TrimChildren(children: NodeArray, position: string) returns (outcome: Outcome<Error>)
      modifies children
      ensures Trimmed(children.items, outcome) == TrimEdge(old(children.items), position)
    {
      var start := position == "start";
      var end := position == "end";
      if !start && !end {
        return Fail(BadArgument);
      }
      if children.items == [] {
        return Fail(NoEdgeChild);
      }
      var i := if start then 0 else |children.items| - 1;
      var child := children.items[i];
      if !child.Literal? {
        return Pass;
      }
      if !child.value.Str? {
        return Fail(TrimOnNonString);
      }
      outcome := TrimText(children, i, position);
    }

    /** The text edge of `trimChildren`: a one-sided trim, a removal of the sole child, or a blanking. */
    method TrimText(children: NodeArray, i: nat, position: string) returns (outcome: Outcome<Error>)
      requires IsEdgePosition(position) && children.items != [] && i == EdgeIndex(children.items, position)
      requires children.items[i].Literal? && children.items[i].value.Str?
      modifies children
      ensures Trimmed(children.items, outcome) == TrimEdge(old(children.items), position)
    {
      var items := children.items;
      var start := position == "start";
      var child := items[i];
      outcome := Pass;
      if Trim(child.value.s) != "" {
        var value := if start then TrimLeft(child.value.s) else TrimRight(child.value.s);
        if child.raw.None? {
          items := items[i := child.(value := Str(value))];
          outcome := Fail(RawMissing);
        } else {
          var raw := if start then TrimLeft(child.raw.value) else TrimRight(child.raw.value);
          items := items[i := child.(value := Str(value), raw := Some(raw))];
        }
      } else if |items| == 1 {
        items := if start then items[1..] else items[..|items| - 1];
      } else {
        items := items[i := child.(value := Str(""), raw := Some(""))];
      }
      children.items := items;
    }

    /**
     * `leaveXJSElement`, once the opening tag has become a call: trims a fresh
     * copy of the children at the start, then at the end, each only while
     * children remain, and appends them to the call's arguments when any remain.
     */
    method LeaveXJSElement(node: Node) returns (r: Result<Action, Error>)
      requires node.XJSElement?
      ensures r == ElementCall(node)
    {
      var callExpr := node.openingElement;
      var children := new NodeArray(node.children);
      var outcome: Outcome<Error> := Pass;
      if |children.items| > 0 {
        outcome := TrimChildren(children, "start");
        if outcome.Fail? {
          return Err(outcome.error);
        }
      }
      if |children.items| > 0 {
        outcome := TrimChildren(children, "end");
        if outcome.Fail? {
          return Err(outcome.error);
        }
      }
      if !callExpr.CallExpression? {
        if |children.items| > 0 {
          return Err(OpeningNotLowered);
        }
        return Ok(Replace(SetLoc(callExpr, node.loc)));
      }
      var args := callExpr.arguments;
      if |children.items| > 0 {
        args := args + [ArrayExpression(children.items)];
      }
      r := Ok(Replace(CallExpression(callExpr.callee, args, node.loc)));
    }

    /** The compiled `enter`: runs the handler the switch finds for the node's type, if any. */
    method Enter(node: Node) returns (action: Action)
      modifies this
      ensures Dispatch.Entered(tagCall, action) == Dispatch.Enter(DefaultTagCall, old(tagCall), node)
      ensures old(Valid()) ==> Valid()
    {
      match Dispatch.Switch(Dispatch.EnterCases(), TypeOf(node))
      case None =>
        action := Keep;
      case Some(handler) =>
        if handler == Dispatch.EnterPrefix + "Program" {
          EnterProgram();
          action := Keep;
        } else if handler == Dispatch.EnterPrefix + "XJSIdentifier" {
          action := EnterXJSIdentifier(node);
        } else if handler == Dispatch.EnterPrefix + "XJSNamespacedName" {
          action := EnterXJSNamespacedName(node);
        } else if handler == Dispatch.EnterPrefix + "XJSExpressionContainer" {
          action := EnterXJSExpressionContainer(node);
        } else {
          action := Keep;
        }
    }

    /** The compiled `leave`: runs the handler the switch finds for the node's type, if any. */
    method Leave(node: Node) returns (r: Result<Action, Error>)
      ensures r == Dispatch.Leave(tagCall, node)
    {
      match Dispatch.Switch(Dispatch.LeaveCases(), TypeOf(node))
      case None =>
        r := Ok(Keep);
      case Some(handler) =>
        if handler == Dispatch.LeavePrefix + "XJSMemberExpression" {
          r := Ok(LeaveXJSMemberExpression(node));
        } else if handler == Dispatch.LeavePrefix + "XJSEmptyExpression" {
          r := Ok(LeaveXJSEmptyExpression(node));
        } else if handler == Dispatch.LeavePrefix + "XJSAttribute" {
          r := LeaveXJSAttribute(node);
        } else if handler == Dispatch.LeavePrefix + "XJSOpeningElement" {
          r := LeaveXJSOpeningElement(tagCall, node);
        } else if handler == Dispatch.LeavePrefix + "XJSElement" {
          if node.XJSElement? {
            r := LeaveXJSElement(node);
          } else {
            // a node of unknown kind that only carries the element's type name
            r := Ok(Keep);
          }
        } else {
          r := Ok(Keep);
        }
    }

    /**
     * `visit`: hands the tree to the traversal, whose `enter` and `leave`
     * calls leave the target behind. The target stays the one built from the
     * default path, and a well-formed tree that lowers holds no JSX.
     */
    method Visit(ast: Node) returns (r: Result<Node, Error>)
      requires Valid()
      modifies this
      ensures Valid()
      ensures Walk(tagCall, r) == Traverse(DefaultTagCall, old(tagCall), ast)
      ensures r.Ok? && Wf(ast) ==> Lowered(ast, r.value)
    {
      var w := Traverse(DefaultTagCall, tagCall, ast);
      if Wf(ast) {
        TraverseLowers(DefaultTagCall, tagCall, ast);
      }
      tagCall := w.tagCall;
      r := w.result;
    }
  }
}
