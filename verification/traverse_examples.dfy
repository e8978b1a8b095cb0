/** Walks of small concrete trees, as the visitor lowers them. */
module TraversalExamples {
  import opened Wrappers
  import opened JsString
  import opened Syntax
  import opened TagCall
  import opened Lowering
  import opened Elements
  import opened Dispatch
  import opened Traversal

  /** An identifier-shaped JSX name walks to an Identifier of that name. */
  lemma IdentifierWalk(path: string, tagCall: Option<Node>, name: string)
    requires IsIdentifierName(name)
    ensures Traverse(path, tagCall, XJSIdentifier(name)) == Walk(tagCall, Ok(Identifier(name)))
  {
    assert Children(Identifier(name)) == [];
    assert TraverseAll(path, tagCall, []) == Walk(tagCall, Ok([]));
  }

  /** Walking two sub-nodes, neither of which touches the target. */
  lemma PairWalk(path: string, tagCall: Option<Node>, a: Node, b: Node, ra: Node, rb: Node)
    requires Traverse(path, tagCall, a) == Walk(tagCall, Ok(ra))
    requires Traverse(path, tagCall, b) == Walk(tagCall, Ok(rb))
    ensures TraverseAll(path, tagCall, [a, b]) == Walk(tagCall, Ok([ra, rb]))
  {
    SingleWalk(path, tagCall, b, rb);
    ConsWalk(path, tagCall, a, [b], ra, [rb]);
    assert [a] + [b] == [a, b];
    assert [ra] + [rb] == [ra, rb];
  }

  /** Walking a first sub-node that does not touch the target, then the rest. */
  lemma ConsWalk(path: string, tagCall: Option<Node>, a: Node, rest: seq<Node>, ra: Node, rs: seq<Node>)
    requires Traverse(path, tagCall, a) == Walk(tagCall, Ok(ra))
    requires TraverseAll(path, tagCall, rest) == Walk(tagCall, Ok(rs))
    ensures TraverseAll(path, tagCall, [a] + rest) == Walk(tagCall, Ok([ra] + rs))
  {
    var s := [a] + rest;
    assert s[0] == a && s[1..] == rest;
  }

  /** Walking one sub-node that does not touch the target. */
  lemma SingleWalk(path: string, tagCall: Option<Node>, a: Node, ra: Node)
    requires Traverse(path, tagCall, a) == Walk(tagCall, Ok(ra))
    ensures TraverseAll(path, tagCall, [a]) == Walk(tagCall, Ok([ra]))
  {
    assert TraverseAll(path, tagCall, []) == Walk(tagCall, Ok([]));
    ConsWalk(path, tagCall, a, [], ra, []);
    assert [a] + [] == [a];
    assert [ra] + [] == [ra];
  }

  /** One step of the walk over a node `enter` keeps and whose sub-nodes walk without touching the target. */
  lemma KeptWalk(path: string, tagCall: Option<Node>, n: Node, kids: seq<Node>)
    requires EnterByKind(path, tagCall, n) == Entered(tagCall, Keep)
    requires TraverseAll(path, tagCall, Children(n)) == Walk(tagCall, Ok(kids))
    ensures |kids| == |Children(n)|
    ensures
      var m := WithChildren(n, kids);
      Traverse(path, tagCall, n) ==
        match LeaveByKind(tagCall, m)
        case Err(err) => Walk(tagCall, Err(err))
        case Ok(a) => Walk(tagCall, Ok(Apply(a, m)))
  {
  }

  /** A member-expression name whose two sides walk to `ro` and `rp` walks to one Identifier joining their names. */
  lemma MemberStep(path: string, tagCall: Option<Node>, o: Node, p: Node, ro: Node, rp: Node)
    requires TraverseAll(path, tagCall, [o, p]) == Walk(tagCall, Ok([ro, rp]))
    ensures Traverse(path, tagCall, XJSMemberExpression(o, p)) == Walk(tagCall, Ok(ColonName(ro, rp)))
  {
    var n := XJSMemberExpression(o, p);
    KeptWalk(path, tagCall, n, [ro, rp]);
    assert WithChildren(n, [ro, rp]) == XJSMemberExpression(ro, rp);
  }

  /** The member name `a.b` of identifier-shaped parts walks to the Identifier `a:b`. */
  lemma PairNameWalk(path: string, tagCall: Option<Node>, a: string, b: string)
    requires IsIdentifierName(a) && IsIdentifierName(b)
    ensures Traverse(path, tagCall, XJSMemberExpression(XJSIdentifier(a), XJSIdentifier(b))) ==
      Walk(tagCall, Ok(Identifier(a + ":" + b)))
  {
    IdentifierWalk(path, tagCall, a);
    IdentifierWalk(path, tagCall, b);
    PairWalk(path, tagCall, XJSIdentifier(a), XJSIdentifier(b), Identifier(a), Identifier(b));
    MemberStep(path, tagCall, XJSIdentifier(a), XJSIdentifier(b), Identifier(a), Identifier(b));
  }

  /**
   * Member names are lowered on leave, inside out: the nested name `a.b.c` of
   * identifier-shaped parts walks to the one Identifier `a:b:c`.
   */
  lemma NestedNameWalk(path: string, tagCall: Option<Node>, a: string, b: string, c: string)
    requires IsIdentifierName(a) && IsIdentifierName(b) && IsIdentifierName(c)
    ensures Traverse(path, tagCall, XJSMemberExpression(XJSMemberExpression(XJSIdentifier(a), XJSIdentifier(b)), XJSIdentifier(c))) ==
      Walk(tagCall, Ok(Identifier(a + ":" + b + ":" + c)))
  {
    var inner := XJSMemberExpression(XJSIdentifier(a), XJSIdentifier(b));
    PairNameWalk(path, tagCall, a, b);
    IdentifierWalk(path, tagCall, c);
    PairWalk(path, tagCall, inner, XJSIdentifier(c), Identifier(a + ":" + b), Identifier(c));
    MemberStep(path, tagCall, inner, XJSIdentifier(c), Identifier(a + ":" + b), Identifier(c));
  }

  /** No identifier-shaped name holds a `:`. */
  lemma IdentifierHasNoColon(name: string)
    requires IsIdentifierName(name)
    ensures ':' !in name
  {
  }

  /** The name `a.b.c` walks to gives the tag name's parts back when split on `:`. */
  lemma NestedNameRoundTrip(path: string, tagCall: Option<Node>, a: string, b: string, c: string)
    requires IsIdentifierName(a) && IsIdentifierName(b) && IsIdentifierName(c)
    ensures
      var w := Traverse(path, tagCall, XJSMemberExpression(XJSMemberExpression(XJSIdentifier(a), XJSIdentifier(b)), XJSIdentifier(c)));
      w.result.Ok? && w.result.value.Identifier? && Split(w.result.value.name, ':') == [a, b, c]
  {
    NestedNameWalk(path, tagCall, a, b, c);
    ColonNameParts(a, b, c);
  }

  /** Three identifier names joined by `:` split back into those names. */
  lemma ColonNameParts(a: string, b: string, c: string)
    requires IsIdentifierName(a) && IsIdentifierName(b) && IsIdentifierName(c)
    ensures Split(a + ":" + b + ":" + c, ':') == [a, b, c]
  {
    IdentifierHasNoColon(a);
    IdentifierHasNoColon(b);
    IdentifierHasNoColon(c);
    var parts := [a, b, c];
    assert parts[1..] == [b, c] && [b, c][1..] == [c];
    assert Join([b, c], ':') == b + [':'] + c;
    assert Join(parts, ':') == a + [':'] + (b + [':'] + c);
    assert a + [':'] + (b + [':'] + c) == a + ":" + b + ":" + c;
    SplitJoin(parts, ':');
  }

  /** A literal is left as it is. */
  lemma LiteralWalk(path: string, tagCall: Option<Node>, v: Value, raw: Option<string>)
    ensures Traverse(path, tagCall, Literal(v, raw)) == Walk(tagCall, Ok(Literal(v, raw)))
  {
    assert TraverseAll(path, tagCall, []) == Walk(tagCall, Ok([]));
  }

  /** A name that is not identifier-shaped, such as `data-x`, walks to a string literal of itself. */
  lemma TextNameWalk(path: string, tagCall: Option<Node>, name: string)
    requires !IsIdentifierName(name)
    ensures Traverse(path, tagCall, XJSIdentifier(name)) == Walk(tagCall, Ok(Lit(Str(name))))
  {
    assert Children(Lit(Str(name))) == [];
    assert TraverseAll(path, tagCall, []) == Walk(tagCall, Ok([]));
  }

  /** The sub-nodes of an attribute whose value is absent or a literal walk to the lowered name and the same value. */
  lemma AttributeKidsWalk(path: string, tagCall: Option<Node>, name: Node, lowered: Node, value: Option<Node>)
    requires value.None? || value.value.Literal?
    requires Traverse(path, tagCall, name) == Walk(tagCall, Ok(lowered))
    ensures TraverseAll(path, tagCall, [name] + OptList(value)) == Walk(tagCall, Ok([lowered] + OptList(value)))
  {
    if value.Some? {
      LiteralWalk(path, tagCall, value.value.value, value.value.raw);
      PairWalk(path, tagCall, name, value.value, lowered, value.value);
      assert [name] + OptList(value) == [name, value.value];
      assert [lowered] + OptList(value) == [lowered, value.value];
    } else {
      SingleWalk(path, tagCall, name, lowered);
    }
  }

  /**
   * `name="v"` walks to the property `name: "v"` and a valueless `name` to
   * `name: true`; the property keeps the attribute's location.
   */
  lemma AttributeWalk(path: string, tagCall: Option<Node>, name: string, value: Option<Node>, loc: Loc)
    requires IsIdentifierName(name)
    requires value.None? || value.value.Literal?
    ensures Traverse(path, tagCall, XJSAttribute(XJSIdentifier(name), value, loc)) ==
      Walk(tagCall, Ok(Property("init", Identifier(name), value.GetOr(Lit(Bool(true))), loc)))
  {
    var n := XJSAttribute(XJSIdentifier(name), value, loc);
    IdentifierWalk(path, tagCall, name);
    AttributeKidsWalk(path, tagCall, XJSIdentifier(name), Identifier(name), value);
    KeptWalk(path, tagCall, n, [Identifier(name)] + OptList(value));
    assert WithChildren(n, [Identifier(name)] + OptList(value)) == XJSAttribute(Identifier(name), value, loc);
  }

  /**
   * A hyphenated attribute name such as `data-x` makes the walk raise: the name
   * has already become a literal, which has no `name` for the attribute rule to read.
   */
  lemma TextAttributeRaises(path: string, tagCall: Option<Node>, name: string, value: Option<Node>, loc: Loc)
    requires !IsIdentifierName(name)
    requires value.None? || value.value.Literal?
    ensures Traverse(path, tagCall, XJSAttribute(XJSIdentifier(name), value, loc)) == Walk(tagCall, Err(NameMissing))
  {
    var n := XJSAttribute(XJSIdentifier(name), value, loc);
    TextNameWalk(path, tagCall, name);
    AttributeKidsWalk(path, tagCall, XJSIdentifier(name), Lit(Str(name)), value);
    KeptWalk(path, tagCall, n, [Lit(Str(name))] + OptList(value));
    assert WithChildren(n, [Lit(Str(name))] + OptList(value)) == XJSAttribute(Lit(Str(name)), value, loc);
  }

  /** An empty container `{}` or `{/* comment */}` walks to the literal `null`. */
  lemma EmptyContainerWalk(path: string, tagCall: Option<Node>)
    ensures Traverse(path, tagCall, XJSExpressionContainer(XJSEmptyExpression)) == Walk(tagCall, Ok(Lit(Null)))
  {
    assert EnterByKind(path, tagCall, XJSExpressionContainer(XJSEmptyExpression)) == Entered(tagCall, Replace(XJSEmptyExpression));
    assert TraverseAll(path, tagCall, []) == Walk(tagCall, Ok([]));
  }

  /** The opening tag `<div>` without attributes. */
  function DivOpening(selfClosing: bool): Node {
    XJSOpeningElement(XJSIdentifier("div"), [], selfClosing)
  }

  /** The call `<div>` opens: the target applied to `"div"` and `null`. */
  function DivCall(target: Node): Node {
    CallExpression(target, [Lit(Str("div")), Lit(Null)], NoLoc)
  }

  lemma DivOpeningWalk(path: string, target: Node, selfClosing: bool)
    ensures Traverse(path, Some(target), DivOpening(selfClosing)) == Walk(Some(target), Ok(DivCall(target)))
  {
    var n := DivOpening(selfClosing);
    IdentifierWalk(path, Some(target), "div");
    SingleWalk(path, Some(target), XJSIdentifier("div"), Identifier("div"));
    assert Children(n) == [XJSIdentifier("div")];
    KeptWalk(path, Some(target), n, [Identifier("div")]);
    assert WithChildren(n, [Identifier("div")]) == XJSOpeningElement(Identifier("div"), [], selfClosing);
  }

  /** `<div/>` walks to the call `JSX.tag("div", null)` at the element's location. */
  lemma SelfClosingDivWalk(path: string, target: Node, loc: Loc)
    ensures Traverse(path, Some(target), XJSElement(DivOpening(true), None, [], loc)) ==
      Walk(Some(target), Ok(CallExpression(target, [Lit(Str("div")), Lit(Null)], loc)))
  {
    var n := XJSElement(DivOpening(true), None, [], loc);
    DivOpeningWalk(path, target, true);
    SingleWalk(path, Some(target), DivOpening(true), DivCall(target));
    assert Children(n) == [DivOpening(true)];
    KeptWalk(path, Some(target), n, [DivCall(target)]);
    assert WithChildren(n, [DivCall(target)]) == XJSElement(DivCall(target), None, [], loc);
  }

  /** The closing tag `</div>` walks to itself with its name lowered. */
  lemma DivClosingWalk(path: string, tagCall: Option<Node>)
    ensures Traverse(path, tagCall, XJSClosingElement(XJSIdentifier("div"))) ==
      Walk(tagCall, Ok(XJSClosingElement(Identifier("div"))))
  {
    var n := XJSClosingElement(XJSIdentifier("div"));
    IdentifierWalk(path, tagCall, "div");
    SingleWalk(path, tagCall, XJSIdentifier("div"), Identifier("div"));
    KeptWalk(path, tagCall, n, [Identifier("div")]);
  }

  /** Walking a first sub-node that does not touch the target, then two more. */
  lemma TripleWalk(path: string, tagCall: Option<Node>, a: Node, b: Node, c: Node, ra: Node, rb: Node, rc: Node)
    requires Traverse(path, tagCall, a) == Walk(tagCall, Ok(ra))
    requires TraverseAll(path, tagCall, [b, c]) == Walk(tagCall, Ok([rb, rc]))
    ensures TraverseAll(path, tagCall, [a, b, c]) == Walk(tagCall, Ok([ra, rb, rc]))
  {
    ConsWalk(path, tagCall, a, [b, c], ra, [rb, rc]);
    assert [a] + [b, c] == [a, b, c];
    assert [ra] + [rb, rc] == [ra, rb, rc];
  }

  /** The element leave step of `<div>{/* comment */}</div>`: the trim meets the `null` literal. */
  lemma CommentChildLeave(target: Node, closing: Node, loc: Loc)
    ensures LeaveByKind(Some(target), XJSElement(DivCall(target), Some(closing), [Lit(Null)], loc)) == Err(TrimOnNonString)
  {
    assert NormalizeChildren([Lit(Null)]) == Trimmed([Lit(Null)], Fail(TrimOnNonString));
  }

  /** The sub-nodes of `<div>{/* comment */}</div>` walk to the call, the lowered closing tag and `null`. */
  lemma CommentChildKids(path: string, target: Node, closing: Node, container: Node)
    requires closing == XJSClosingElement(XJSIdentifier("div"))
    requires container == XJSExpressionContainer(XJSEmptyExpression)
    ensures TraverseAll(path, Some(target), [DivOpening(false), closing, container]) ==
      Walk(Some(target), Ok([DivCall(target), XJSClosingElement(Identifier("div")), Lit(Null)]))
  {
    DivOpeningWalk(path, target, false);
    DivClosingWalk(path, Some(target));
    EmptyContainerWalk(path, Some(target));
    PairWalk(path, Some(target), closing, container, XJSClosingElement(Identifier("div")), Lit(Null));
    TripleWalk(path, Some(target), DivOpening(false), closing, container, DivCall(target), XJSClosingElement(Identifier("div")), Lit(Null));
  }

  /**
   * `<div>{/* comment */}</div>` makes the walk raise: the container has become
   * the literal `null` by the time the children are trimmed, and a `null`
   * literal has no text to trim.
   */
  lemma CommentChildRaises(path: string, target: Node, loc: Loc)
    ensures
      var n := XJSElement(DivOpening(false), Some(XJSClosingElement(XJSIdentifier("div"))), [XJSExpressionContainer(XJSEmptyExpression)], loc);
      Traverse(path, Some(target), n) == Walk(Some(target), Err(TrimOnNonString))
  {
    var closing := XJSClosingElement(XJSIdentifier("div"));
    var container := XJSExpressionContainer(XJSEmptyExpression);
    var n := XJSElement(DivOpening(false), Some(closing), [container], loc);
    var kids := [DivCall(target), XJSClosingElement(Identifier("div")), Lit(Null)];
    CommentChildKids(path, target, closing, container);
    assert Children(n) == [DivOpening(false), closing, container];
    KeptWalk(path, Some(target), n, kids);
    assert WithChildren(n, kids) == XJSElement(DivCall(target), Some(kids[1]), [Lit(Null)], loc);
    CommentChildLeave(target, kids[1], loc);
  }

  /** A node of a kind the visitor has no rule for is kept, with its sub-nodes walked. */
  lemma OtherWalk(path: string, tagCall: Option<Node>, k: string, parts: seq<Node>, kids: seq<Node>)
    requires k != "Program" && !IsJSXType(k)
    requires TraverseAll(path, tagCall, parts) == Walk(tagCall, Ok(kids))
    ensures Traverse(path, tagCall, Other(k, parts)) == Walk(tagCall, Ok(Other(k, kids)))
  {
    KeptWalk(path, tagCall, Other(k, parts), kids);
    assert WithChildren(Other(k, parts), kids) == Other(k, kids);
  }

  /** `<div/>;` as a statement: a node kind the visitor has no rule for, around the element. */
  function DivStatement(loc: Loc): Node {
    Other("ExpressionStatement", [XJSElement(DivOpening(true), None, [], loc)])
  }

  lemma DivStatementWalk(path: string, target: Node, loc: Loc)
    ensures Traverse(path, Some(target), DivStatement(loc)) ==
      Walk(Some(target), Ok(Other("ExpressionStatement", [CallExpression(target, [Lit(Str("div")), Lit(Null)], loc)])))
  {
    var call := CallExpression(target, [Lit(Str("div")), Lit(Null)], loc);
    SelfClosingDivWalk(path, target, loc);
    SingleWalk(path, Some(target), XJSElement(DivOpening(true), None, [], loc), call);
    assert "ExpressionStatement"[0] != "Program"[0];
    OtherWalk(path, Some(target), "ExpressionStatement", [XJSElement(DivOpening(true), None, [], loc)], [call]);
  }

  /**
   * The program `<div/>;` walks to `JSX.tag("div", null);`: entering the
   * program builds the target, which the element's call then uses and which
   * the walk hands back.
   */
  lemma ProgramWalk(path: string, tagCall: Option<Node>, loc: Loc)
    ensures
      var target := BuildTagCall(path);
      Traverse(path, tagCall, Program([DivStatement(loc)])) ==
        Walk(Some(target), Ok(Program([Other("ExpressionStatement", [CallExpression(target, [Lit(Str("div")), Lit(Null)], loc)])])))
  {
    var target := BuildTagCall(path);
    var n := Program([DivStatement(loc)]);
    var out := Other("ExpressionStatement", [CallExpression(target, [Lit(Str("div")), Lit(Null)], loc)]);
    assert EnterByKind(path, tagCall, n) == Entered(Some(target), Keep);
    DivStatementWalk(path, target, loc);
    SingleWalk(path, Some(target), DivStatement(loc), out);
    assert WithChildren(n, [out]) == Program([out]);
  }
}
