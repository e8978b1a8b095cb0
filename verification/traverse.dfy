/**
 * `visit`: the replacing depth-first walk the visitor hands its `enter` and
 * `leave` to. A node is entered; when `enter` returns a replacement, the walk
 * continues with the replacement, whose sub-nodes are walked in order and
 * which is then left; what `leave` returns takes the node's place. The one
 * piece of visitor state, the tag-call target, is threaded through the walk.
 * The walk calls the handlers by node kind, which is what the compiled
 * `enter` and `leave` switches do (Dispatch.Enter and Dispatch.Leave).
 */
module Traversal {
  import opened Wrappers
  import opened JsString
  import opened Syntax
  import opened TagCall
  import opened Lowering
  import opened Elements
  import opened Dispatch

  /** The target after a walk, and the walked tree or the exception that ended the walk. */
  datatype Walk<T> = Walk(tagCall: Option<Node>, result: Result<T, Error>)

  lemma SizeListSplit(s: seq<Node>)
    requires s != []
    ensures SizeList(s) == Size(s[0]) + SizeList(s[1..])
    ensures Size(s[0]) >= 1
  {
    ChildrenSize(s[0]);
  }

  /** `enter` never hands the walk a larger node than it was given. */
  lemma EnterShrinks(path: string, tagCall: Option<Node>, node: Node)
    ensures Size(Apply(EnterByKind(path, tagCall, node).action, node)) <= Size(node)
  {
    var a := EnterByKind(path, tagCall, node).action;
    if a.Replace? && TypeOf(node) != "XJSExpressionContainer" {
      ChildrenSize(a.node);
      ChildrenSize(node);
    }
  }

  function Traverse(path: string, tagCall: Option<Node>, node: Node): (w: Walk<Node>)
    ensures TargetOk(path, tagCall) ==> TargetOk(path, w.tagCall)
    decreases Size(node), 0
  {
    var e := EnterByKind(path, tagCall, node);
    var n := Apply(e.action, node);
    EnterShrinks(path, tagCall, node);
    EnterTarget(path, tagCall, node);
    ChildrenSize(n);
    var walked := TraverseAll(path, e.tagCall, Children(n));
    match walked.result
    case Err(err) => Walk(walked.tagCall, Err(err))
    case Ok(kids) =>
      var m := WithChildren(n, kids);
      (match LeaveByKind(walked.tagCall, m)
       case Err(err) => Walk(walked.tagCall, Err(err))
       case Ok(a) => Walk(walked.tagCall, Ok(Apply(a, m))))
  }

  /** The sub-nodes walked left to right, each with the target the previous one left. */
  function TraverseAll(path: string, tagCall: Option<Node>, s: seq<Node>): (w: Walk<seq<Node>>)
    ensures w.result.Ok? ==> |w.result.value| == |s|
    ensures TargetOk(path, tagCall) ==> TargetOk(path, w.tagCall)
    decreases SizeList(s), 1
  {
    if s == [] then Walk(tagCall, Ok([]))
    else
      SizeListSplit(s);
      var first := Traverse(path, tagCall, s[0]);
      match first.result
      case Err(err) => Walk(first.tagCall, Err(err))
      case Ok(n) =>
        var rest := TraverseAll(path, first.tagCall, s[1..]);
        (match rest.result
         case Err(err) => Walk(rest.tagCall, Err(err))
         case Ok(ns) => Walk(rest.tagCall, Ok([n] + ns)))
  }

  /** A tree without JSX comes back unchanged: the walk only ever rewrites JSX nodes. */
  lemma {:induction false} PlainUnchanged(path: string, tagCall: Option<Node>, node: Node)
    requires NoJSX(node)
    ensures Traverse(path, tagCall, node).result == Ok(node)
    decreases Size(node), 0
  {
    var e := EnterByKind(path, tagCall, node);
    ChildrenSize(node);
    var walked := TraverseAll(path, e.tagCall, Children(node));
    PlainAllUnchanged(path, e.tagCall, Children(node));
    WithOwnChildren(node);
    PlainKindKept(path, walked.tagCall, node);
    assert Traverse(path, tagCall, node) == Walk(walked.tagCall, Ok(node));
  }

  lemma {:induction false} PlainAllUnchanged(path: string, tagCall: Option<Node>, s: seq<Node>)
    requires NoJSXList(s)
    ensures TraverseAll(path, tagCall, s).result == Ok(s)
    decreases SizeList(s), 1
  {
    if s != [] {
      SizeListSplit(s);
      PlainUnchanged(path, tagCall, s[0]);
      PlainAllUnchanged(path, Traverse(path, tagCall, s[0]).tagCall, s[1..]);
      assert s == [s[0]] + s[1..];
    }
  }

  /** No closing tag among `s`. */
  predicate NoClosing(s: seq<Node>) {
    forall i :: 0 <= i < |s| ==> !s[i].XJSClosingElement?
  }

  /**
   * Where a node's sub-nodes may be JSX in a well-formed (`Wf`) tree: an
   * element opens with an opening tag and may close with a closing tag; a
   * container wraps an ordinary expression, an empty expression or an
   * element; closing tags appear nowhere else; no other node kind carries the
   * `XJS` prefix.
   */
  predicate Placed(n: Node) {
    match n
    case XJSElement(o, c, ch, _) => o.XJSOpeningElement? && (c.Some? ==> c.value.XJSClosingElement?) && NoClosing(ch)
    case XJSExpressionContainer(e) => !IsJSXNode(e) || e.XJSEmptyExpression? || e.XJSElement?
    case Other(k, parts) => !IsJSXType(k) && NoClosing(parts)
    case _ => NoClosing(Children(n))
  }

  /** Every node of the tree is `Placed`; in particular no node is an `XJS` kind the model has no constructor for, such as a spread attribute. */
  predicate Wf(n: Node)
    decreases Size(n)
  {
    && Placed(n)
    && (ChildrenSize(n); ElementSizes(Children(n));
        forall i :: 0 <= i < |Children(n)| ==> Wf(Children(n)[i]))
  }

  /** The tag-call target is unset or the one `enterProgram` builds. */
  predicate TargetOk(path: string, tagCall: Option<Node>) {
    tagCall.None? || tagCall.value == BuildTagCall(path)
  }

  /**
   * What the walk makes of a node: a closing tag is left for its element to
   * drop, anything else holds no JSX; an opening tag becomes a call with two
   * arguments, and an element a call with two or three at the element's location.
   */
  predicate Lowered(n: Node, r: Node) {
    && (n.XJSClosingElement? || NoJSX(r))
    && (n.XJSOpeningElement? ==> r.CallExpression? && |r.arguments| == 2)
    && (n.XJSElement? ==> r.CallExpression? && 2 <= |r.arguments| <= 3 && r.loc == n.loc)
  }

  lemma TargetPlain(path: string, tagCall: Option<Node>)
    requires TargetOk(path, tagCall) && tagCall.Some?
    ensures NoJSX(tagCall.value)
  {
    FoldedTargetIsPlain(Split(path, '.'));
  }

  /** What `enter` hands on: a placed node that no `enter` handler would rewrite again. */
  lemma EnterFacts(path: string, tagCall: Option<Node>, node: Node)
    requires TargetOk(path, tagCall) && Wf(node)
    ensures
      var e := EnterByKind(path, tagCall, node);
      var n := Apply(e.action, node);
      && TargetOk(path, e.tagCall) && Wf(n)
      && !n.XJSIdentifier? && !n.XJSNamespacedName? && !n.XJSExpressionContainer?
      && (n.XJSClosingElement? <==> node.XJSClosingElement?)
      && (node.XJSOpeningElement? ==> n == node)
  {
    EnterTarget(path, tagCall, node);
    EnterKind(path, tagCall, node);
    EnterWf(path, tagCall, node);
  }

  lemma EnterTarget(path: string, tagCall: Option<Node>, node: Node)
    ensures TargetOk(path, tagCall) ==> TargetOk(path, EnterByKind(path, tagCall, node).tagCall)
  {
  }

  lemma EnterKind(path: string, tagCall: Option<Node>, node: Node)
    requires Placed(node)
    ensures
      var n := Apply(EnterByKind(path, tagCall, node).action, node);
      !n.XJSIdentifier? && !n.XJSNamespacedName? && !n.XJSExpressionContainer?
    ensures Apply(EnterByKind(path, tagCall, node).action, node).XJSClosingElement? <==> node.XJSClosingElement?
    ensures node.XJSOpeningElement? ==> Apply(EnterByKind(path, tagCall, node).action, node) == node
  {
    var n := Apply(EnterByKind(path, tagCall, node).action, node);
    match node
    case XJSIdentifier(name) =>
      assert n.Identifier? || n.Literal?;
    case XJSNamespacedName(_, _) =>
      assert n.Identifier?;
    case XJSExpressionContainer(x) =>
      assert n == x;
    case _ =>
      assert n == node;
  }

  lemma EnterWf(path: string, tagCall: Option<Node>, node: Node)
    requires Wf(node)
    ensures Wf(Apply(EnterByKind(path, tagCall, node).action, node))
  {
    var n := Apply(EnterByKind(path, tagCall, node).action, node);
    if node.XJSExpressionContainer? {
      ChildrenSize(node);
      ElementSizes(Children(node));
      assert Children(node)[0] == node.expression;
    } else if node.XJSIdentifier? || node.XJSNamespacedName? {
      assert Children(n) == [];
    }
  }

  /** Every sub-node of `n` is free of JSX. */
  predicate KidsPlain(n: Node) {
    forall i :: 0 <= i < |Children(n)| ==> NoJSX(Children(n)[i])
  }

  lemma PlainLeaf(n: Node)
    requires Children(n) == [] && !IsJSXNode(n)
    ensures NoJSX(n)
  {
    NoJSXUnfold(n);
  }

  /** An attribute whose name and value are lowered becomes a property without JSX. */
  lemma AttributeLowered(m: Node)
    requires m.XJSAttribute? && KidsPlain(m)
    ensures LeaveXJSAttribute(m).Ok? ==> NoJSX(LeaveXJSAttribute(m).value.node)
  {
    var r := LeaveXJSAttribute(m);
    if r.Ok? {
      var p := r.value.node;
      assert Children(m)[0] == m.attrName;
      if m.attrValue.Some? {
        assert Children(m)[1] == m.attrValue.value;
      } else {
        PlainLeaf(Lit(Bool(true)));
      }
      if p.key != m.attrName {
        PlainLeaf(p.key);
      }
      NoJSXUnfold(p);
    }
  }

  /** An opening tag whose name and attributes are lowered becomes a call without JSX. */
  lemma OpeningLowered(path: string, tagCall: Option<Node>, m: Node)
    requires m.XJSOpeningElement? && KidsPlain(m) && TargetOk(path, tagCall)
    ensures LeaveXJSOpeningElement(tagCall, m).Ok? ==>
      var a := LeaveXJSOpeningElement(tagCall, m).value.node;
      NoJSX(a) && a.CallExpression? && |a.arguments| == 2
  {
    var r := LeaveXJSOpeningElement(tagCall, m);
    if r.Ok? {
      var call := r.value.node;
      TargetPlain(path, tagCall);
      PlainLeaf(call.arguments[0]);
      if |m.attributes| > 0 {
        var obj := call.arguments[1];
        assert forall i :: 0 <= i < |m.attributes| ==> m.attributes[i] == Children(m)[i + 1];
        NoJSXUnfold(obj);
      } else {
        PlainLeaf(call.arguments[1]);
      }
      assert Children(call) == [call.callee] + call.arguments;
      NoJSXUnfold(call);
    }
  }

  /** A call whose callee and arguments hold no JSX holds none. */
  lemma CallPlain(callee: Node, args: seq<Node>, loc: Loc)
    requires NoJSX(callee) && forall i :: 0 <= i < |args| ==> NoJSX(args[i])
    ensures NoJSX(CallExpression(callee, args, loc))
  {
    var call := CallExpression(callee, args, loc);
    assert Children(call) == [callee] + args;
    NoJSXUnfold(call);
  }

  /** The call `leaveXJSElement` returns, once the opening tag is a call and the children trim without raising. */
  lemma ElementCallShape(m: Node)
    requires m.XJSElement? && m.openingElement.CallExpression?
    requires NormalizeChildren(m.children).outcome.Pass?
    ensures
      var open := m.openingElement;
      var kids := NormalizeChildren(m.children).children;
      ElementCall(m) == Ok(Replace(CallExpression(open.callee,
        if kids == [] then open.arguments else open.arguments + [ArrayExpression(kids)], m.loc)))
  {
  }

  /** Appending the array of children to a call without JSX keeps it without JSX. */
  lemma ExtendedCallPlain(open: Node, kids: seq<Node>, loc: Loc)
    requires open.CallExpression? && NoJSX(open)
    requires forall i :: 0 <= i < |kids| ==> NoJSX(kids[i])
    ensures NoJSX(CallExpression(open.callee, if kids == [] then open.arguments else open.arguments + [ArrayExpression(kids)], loc))
  {
    NoJSXUnfold(open);
    assert Children(open) == [open.callee] + open.arguments;
    assert forall i :: 0 <= i < |open.arguments| ==> open.arguments[i] == Children(open)[i + 1];
    if kids == [] {
      CallPlain(open.callee, open.arguments, loc);
    } else {
      var arr := ArrayExpression(kids);
      NoJSXUnfold(arr);
      var args := open.arguments + [arr];
      assert forall i :: 0 <= i < |args| ==> NoJSX(args[i]) by {
        assert forall i :: 0 <= i < |open.arguments| ==> args[i] == open.arguments[i];
        assert args[|open.arguments|] == arr;
      }
      CallPlain(open.callee, args, loc);
    }
  }

  /** An element whose opening tag is a lowered call and whose children are lowered becomes a call without JSX. */
  lemma ElementLowered(m: Node)
    requires m.XJSElement? && m.openingElement.CallExpression? && NoJSX(m.openingElement)
    requires |m.openingElement.arguments| == 2
    requires forall i :: 0 <= i < |m.children| ==> NoJSX(m.children[i])
    ensures ElementCall(m).Ok? ==>
      var call := ElementCall(m).value.node;
      NoJSX(call) && call.CallExpression? && 2 <= |call.arguments| <= 3 && call.loc == m.loc
  {
    var t := NormalizeChildren(m.children);
    if t.outcome.Pass? {
      ElementCallShape(m);
      NormalizeKeepsPlain(m.children);
      ExtendedCallPlain(m.openingElement, t.children, m.loc);
    }
  }

  /** The node `leave` sees once its placed sub-nodes are lowered; what `leave` returns for it is lowered too. */
  lemma LeaveLowers(path: string, tagCall: Option<Node>, n: Node, kids: seq<Node>)
    requires TargetOk(path, tagCall) && Placed(n) && |kids| == |Children(n)|
    requires !n.XJSIdentifier? && !n.XJSNamespacedName? && !n.XJSExpressionContainer?
    requires forall i :: 0 <= i < |kids| ==> Lowered(Children(n)[i], kids[i])
    ensures
      var m := WithChildren(n, kids);
      LeaveByKind(tagCall, m).Ok? ==> Lowered(n, Apply(LeaveByKind(tagCall, m).value, m))
  {
    if n.XJSElement? {
      ElementLeaves(n, kids);
    } else if n.XJSAttribute? || n.XJSOpeningElement? {
      TagPartLeaves(path, tagCall, n, kids);
    } else if !n.XJSClosingElement? {
      OtherLeaves(tagCall, n, kids);
    }
  }

  lemma TagPartLeaves(path: string, tagCall: Option<Node>, n: Node, kids: seq<Node>)
    requires TargetOk(path, tagCall) && Placed(n) && |kids| == |Children(n)|
    requires n.XJSAttribute? || n.XJSOpeningElement?
    requires forall i :: 0 <= i < |kids| ==> Lowered(Children(n)[i], kids[i])
    ensures
      var m := WithChildren(n, kids);
      LeaveByKind(tagCall, m).Ok? ==> Lowered(n, Apply(LeaveByKind(tagCall, m).value, m))
  {
    var m := WithChildren(n, kids);
    assert KidsPlain(m);
    if n.XJSAttribute? {
      AttributeLowered(m);
    } else {
      OpeningLowered(path, tagCall, m);
    }
  }

  lemma OtherLeaves(tagCall: Option<Node>, n: Node, kids: seq<Node>)
    requires Placed(n) && |kids| == |Children(n)|
    requires !n.XJSIdentifier? && !n.XJSNamespacedName? && !n.XJSExpressionContainer?
    requires !n.XJSElement? && !n.XJSAttribute? && !n.XJSOpeningElement? && !n.XJSClosingElement?
    requires forall i :: 0 <= i < |kids| ==> Lowered(Children(n)[i], kids[i])
    ensures
      var m := WithChildren(n, kids);
      LeaveByKind(tagCall, m).Ok? ==> NoJSX(Apply(LeaveByKind(tagCall, m).value, m))
  {
    var m := WithChildren(n, kids);
    if n.XJSMemberExpression? {
      PlainLeaf(LeaveXJSMemberExpression(m).node);
    } else if !n.XJSEmptyExpression? {
      JSXNodeByType(n);
      JSXNodeByType(m);
      NoJSXUnfold(m);
    }
  }

  lemma ElementLeaves(n: Node, kids: seq<Node>)
    requires n.XJSElement? && Placed(n) && |kids| == |Children(n)|
    requires forall i :: 0 <= i < |kids| ==> Lowered(Children(n)[i], kids[i])
    ensures
      var m := WithChildren(n, kids);
      ElementCall(m).Ok? ==> Lowered(n, ElementCall(m).value.node)
  {
    var m := WithChildren(n, kids);
    ElementKids(n, kids);
    if m.openingElement.CallExpression? {
      ElementLowered(m);
    }
  }

  /** Once an element's sub-nodes are lowered, its opening tag is a call without JSX and its children hold none. */
  lemma ElementKids(n: Node, kids: seq<Node>)
    requires n.XJSElement? && Placed(n) && |kids| == |Children(n)|
    requires forall i :: 0 <= i < |kids| ==> Lowered(Children(n)[i], kids[i])
    ensures
      var m := WithChildren(n, kids);
      && m.XJSElement? && m.loc == n.loc
      && m.openingElement.CallExpression? && NoJSX(m.openingElement) && |m.openingElement.arguments| == 2
      && forall j :: 0 <= j < |m.children| ==> NoJSX(m.children[j])
  {
    var m := WithChildren(n, kids);
    var off := |kids| - |n.children|;
    assert m == WithElementChildren(n, kids);
    assert Children(n) == [n.openingElement] + OptList(n.closingElement) + n.children;
    assert m.openingElement == kids[0] && m.children == kids[off..];
    assert Children(n)[0] == n.openingElement;
    assert Lowered(n.openingElement, m.openingElement);
    forall j | 0 <= j < |m.children|
      ensures NoJSX(m.children[j])
    {
      assert Children(n)[off + j] == n.children[j];
    }
  }

  /**
   * The walk removes every JSX node: on a well-formed (`Wf`) tree, a walk
   * that raises nothing returns a tree without JSX (an opening tag becoming a
   * call), except a closing tag not inside an element, which keeps its kind;
   * the target stays the one `enterProgram` builds.
   */
  lemma {:induction false} TraverseLowers(path: string, tagCall: Option<Node>, node: Node)
    requires TargetOk(path, tagCall) && Wf(node)
    ensures TargetOk(path, Traverse(path, tagCall, node).tagCall)
    ensures Traverse(path, tagCall, node).result.Ok? ==> Lowered(node, Traverse(path, tagCall, node).result.value)
    decreases Size(node), 0
  {
    var e := EnterByKind(path, tagCall, node);
    var n := Apply(e.action, node);
    EnterFacts(path, tagCall, node);
    EnterShrinks(path, tagCall, node);
    ChildrenSize(n);
    var walked := TraverseAll(path, e.tagCall, Children(n));
    TraverseAllLowers(path, e.tagCall, Children(n));
    if walked.result.Ok? {
      LeaveLowers(path, walked.tagCall, n, walked.result.value);
    }
  }

  lemma {:induction false} TraverseAllLowers(path: string, tagCall: Option<Node>, s: seq<Node>)
    requires TargetOk(path, tagCall) && forall i :: 0 <= i < |s| ==> Wf(s[i])
    ensures TargetOk(path, TraverseAll(path, tagCall, s).tagCall)
    ensures TraverseAll(path, tagCall, s).result.Ok? ==>
      forall i :: 0 <= i < |s| ==> Lowered(s[i], TraverseAll(path, tagCall, s).result.value[i])
    decreases SizeList(s), 1
  {
    if s != [] {
      SizeListSplit(s);
      var first := Traverse(path, tagCall, s[0]);
      TraverseLowers(path, tagCall, s[0]);
      assert forall i :: 1 <= i < |s| ==> s[i] == s[1..][i - 1];
      TraverseAllLowers(path, first.tagCall, s[1..]);
    }
  }
}
