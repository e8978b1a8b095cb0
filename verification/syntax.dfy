/**
 * Syntax-tree nodes as the visitor sees them: the standard expression kinds
 * it produces, the XJS extension kinds the parser adds, and `Other` for every
 * node kind the visitor has no rule for.
 */
module Syntax {
  import opened Wrappers

  /** The `value` of a Literal node. */
  datatype Value = Str(s: string) | Bool(b: bool) | Null | Num(n: int)

  /** Location metadata (`loc`); builders create nodes without one. */
  datatype Loc = NoLoc | Span(startLine: nat, startColumn: nat, endLine: nat, endColumn: nat)

  datatype Node =
    | Program(body: seq<Node>)
    | Identifier(name: string)
    | Literal(value: Value, raw: Option<string>)
    | MemberExpression(obj: Node, property: Node, computed: bool)
    | CallExpression(callee: Node, arguments: seq<Node>, loc: Loc)
    | ObjectExpression(properties: seq<Node>)
    | Property(kind: string, key: Node, propValue: Node, loc: Loc)
    | ArrayExpression(elements: seq<Node>)
    | XJSIdentifier(name: string)
    | XJSNamespacedName(namespace: Node, localName: Node)
    | XJSMemberExpression(obj: Node, property: Node)
    | XJSEmptyExpression
    | XJSExpressionContainer(expression: Node)
    | XJSAttribute(attrName: Node, attrValue: Option<Node>, loc: Loc)
    | XJSOpeningElement(tagName: Node, attributes: seq<Node>, selfClosing: bool)
    | XJSClosingElement(closingName: Node)
    | XJSElement(openingElement: Node, closingElement: Option<Node>, children: seq<Node>, loc: Loc)
    | Other(kind: string, parts: seq<Node>)

  /** What a handler asks the traversal to do with the node it was given. */
  datatype Action = Keep | Replace(node: Node)

  /** The exceptions a lowering step can raise. */
  datatype Error =
    | BadArgument        // trimChildren's own TypeError('Bad argument')
    | NoEdgeChild        // trimChildren reading `.type` of the missing child of an empty list
    | TrimOnNonString    // `.trim()` called on a Literal value that is not a string
    | RawMissing         // `.trimLeft()`/`.trimRight()` called on an absent `raw`
    | NameMissing        // a name node without a string `name` handed to a builder or to isIdentifierName
    | TagCallUnset       // an opening tag lowered before any Program was entered
    | OpeningNotLowered  // `arguments.push` on an opening element that is not a call

  /** The node's `type` field. */
  function TypeOf(n: Node): string {
    match n
    case Program(_) => "Program"
    case Identifier(_) => "Identifier"
    case Literal(_, _) => "Literal"
    case MemberExpression(_, _, _) => "MemberExpression"
    case CallExpression(_, _, _) => "CallExpression"
    case ObjectExpression(_) => "ObjectExpression"
    case Property(_, _, _, _) => "Property"
    case ArrayExpression(_) => "ArrayExpression"
    case XJSIdentifier(_) => "XJSIdentifier"
    case XJSNamespacedName(_, _) => "XJSNamespacedName"
    case XJSMemberExpression(_, _) => "XJSMemberExpression"
    case XJSEmptyExpression => "XJSEmptyExpression"
    case XJSExpressionContainer(_) => "XJSExpressionContainer"
    case XJSAttribute(_, _, _) => "XJSAttribute"
    case XJSOpeningElement(_, _, _) => "XJSOpeningElement"
    case XJSClosingElement(_) => "XJSClosingElement"
    case XJSElement(_, _, _, _) => "XJSElement"
    case Other(k, _) => k
  }

  /** Every JSX extension kind carries the `XJS` prefix. */
  predicate IsJSXType(t: string) {
    |t| >= 3 && t[0] == 'X' && t[1] == 'J' && t[2] == 'S'
  }

  /** The JSX extension kinds, and any other kind whose type carries the `XJS` prefix. */
  predicate IsJSXNode(n: Node) {
    match n
    case XJSIdentifier(_) => true
    case XJSNamespacedName(_, _) => true
    case XJSMemberExpression(_, _) => true
    case XJSEmptyExpression => true
    case XJSExpressionContainer(_) => true
    case XJSAttribute(_, _, _) => true
    case XJSOpeningElement(_, _, _) => true
    case XJSClosingElement(_) => true
    case XJSElement(_, _, _, _) => true
    case Other(k, _) => IsJSXType(k)
    case _ => false
  }

  /** A node is a JSX node exactly when its type name carries the `XJS` prefix. */
  lemma JSXNodeByType(n: Node)
    ensures IsJSXNode(n) <==> IsJSXType(TypeOf(n))
  {
    if n.Other? {
    } else if IsJSXNode(n) {
      JSXKindsByType(n);
    } else {
      PlainKindsByType(n);
    }
  }

  lemma JSXKindsByType(n: Node)
    requires IsJSXNode(n) && !n.Other?
    ensures IsJSXType(TypeOf(n))
  {
    var t := TypeOf(n);
    assert t[0] == 'X' && t[1] == 'J' && t[2] == 'S';
  }

  lemma PlainKindsByType(n: Node)
    requires !IsJSXNode(n) && !n.Other?
    ensures !IsJSXType(TypeOf(n))
  {
    var t := TypeOf(n);
    assert t[0] != 'X';
  }

  /** The string held in `n.name`, when `n` has one. */
  function NameOf(n: Node): Option<string> {
    match n
    case Identifier(s) => Some(s)
    case XJSIdentifier(s) => Some(s)
    case _ => None
  }

  /**
   * `n.name` coerced to a string by `+`, as JavaScript does it: the name
   * itself when the node holds a string name, otherwise the text of a missing
   * value or of an object.
   */
  function JsName(n: Node): (r: string)
    ensures NameOf(n).Some? ==> r == NameOf(n).value
    ensures NameOf(n).None? ==> r == "undefined" || r == "[object Object]"
  {
    match n
    case Identifier(s) => s
    case XJSIdentifier(s) => s
    case XJSNamespacedName(_, _) => "[object Object]"
    case XJSAttribute(_, _, _) => "[object Object]"
    case XJSOpeningElement(_, _, _) => "[object Object]"
    case XJSClosingElement(_) => "[object Object]"
    case _ => "undefined"
  }

  /** `b.literal(v)`: a literal built without source text. */
  function Lit(v: Value): Node {
    Literal(v, None)
  }

  function Apply(a: Action, n: Node): Node {
    match a
    case Keep => n
    case Replace(m) => m
  }

  function OptList(o: Option<Node>): seq<Node> {
    match o
    case None => []
    case Some(n) => [n]
  }

  /** The node's sub-nodes in traversal order. */
  function Children(n: Node): seq<Node> {
    match n
    case Program(body) => body
    case Identifier(_) => []
    case Literal(_, _) => []
    case MemberExpression(o, p, _) => [o, p]
    case CallExpression(c, args, _) => [c] + args
    case ObjectExpression(props) => props
    case Property(_, k, v, _) => [k, v]
    case ArrayExpression(els) => els
    case XJSIdentifier(_) => []
    case XJSNamespacedName(ns, nm) => [ns, nm]
    case XJSMemberExpression(o, p) => [o, p]
    case XJSEmptyExpression => []
    case XJSExpressionContainer(e) => [e]
    case XJSAttribute(nm, v, _) => [nm] + OptList(v)
    case XJSOpeningElement(nm, attrs, _) => [nm] + attrs
    case XJSClosingElement(nm) => [nm]
    case XJSElement(o, c, ch, _) => [o] + OptList(c) + ch
    case Other(_, parts) => parts
  }

  /** The kinds whose sub-nodes are a head node followed by a list. */
  predicate HasListTail(n: Node) {
    n.CallExpression? || n.XJSAttribute? || n.XJSOpeningElement? || n.XJSElement?
  }

  /** `n` with its sub-nodes replaced, in traversal order, by `ks`. */
  function WithChildren(n: Node, ks: seq<Node>): (m: Node)
    requires |ks| == |Children(n)|
    ensures TypeOf(m) == TypeOf(n) && Children(m) == ks
  {
    if HasListTail(n) then WithListChildren(n, ks) else WithFixedChildren(n, ks)
  }

  function WithListChildren(n: Node, ks: seq<Node>): (m: Node)
    requires HasListTail(n) && |ks| == |Children(n)|
    ensures TypeOf(m) == TypeOf(n) && Children(m) == ks
  {
    match n
    case CallExpression(_, _, l) => assert ks == [ks[0]] + ks[1..]; CallExpression(ks[0], ks[1..], l)
    case XJSAttribute(_, v, l) =>
      if v.Some? then XJSAttribute(ks[0], Some(ks[1]), l) else XJSAttribute(ks[0], None, l)
    case XJSOpeningElement(_, _, sc) => assert ks == [ks[0]] + ks[1..]; XJSOpeningElement(ks[0], ks[1..], sc)
    case XJSElement(_, c, _, l) => WithElementChildren(n, ks)
  }

  function WithElementChildren(n: Node, ks: seq<Node>): (m: Node)
    requires n.XJSElement? && |ks| == |Children(n)|
    ensures m.XJSElement? && Children(m) == ks && m.loc == n.loc
  {
    if n.closingElement.Some? then
      assert ks == [ks[0]] + [ks[1]] + ks[2..];
      XJSElement(ks[0], Some(ks[1]), ks[2..], n.loc)
    else
      assert ks == [ks[0]] + ks[1..];
      XJSElement(ks[0], None, ks[1..], n.loc)
  }

  /** The kinds with exactly two sub-nodes. */
  predicate HasPair(n: Node) {
    n.MemberExpression? || n.Property? || n.XJSNamespacedName? || n.XJSMemberExpression?
  }

  function WithFixedChildren(n: Node, ks: seq<Node>): (m: Node)
    requires !HasListTail(n) && |ks| == |Children(n)|
    ensures TypeOf(m) == TypeOf(n) && Children(m) == ks
  {
    if HasPair(n) then WithPairChildren(n, ks)
    else match n
      case Program(_) => Program(ks)
      case ObjectExpression(_) => ObjectExpression(ks)
      case ArrayExpression(_) => ArrayExpression(ks)
      case XJSExpressionContainer(_) => XJSExpressionContainer(ks[0])
      case XJSClosingElement(_) => XJSClosingElement(ks[0])
      case Other(k, _) => Other(k, ks)
      case _ => n
  }

  function WithPairChildren(n: Node, ks: seq<Node>): (m: Node)
    requires HasPair(n) && |ks| == |Children(n)|
    ensures TypeOf(m) == TypeOf(n) && Children(m) == ks
  {
    match n
    case MemberExpression(_, _, c) => MemberExpression(ks[0], ks[1], c)
    case Property(k, _, _, l) => Property(k, ks[0], ks[1], l)
    case XJSNamespacedName(_, _) => XJSNamespacedName(ks[0], ks[1])
    case XJSMemberExpression(_, _) => XJSMemberExpression(ks[0], ks[1])
  }

  /** Putting a node's own sub-nodes back gives the node. */
  lemma WithOwnChildren(n: Node)
    ensures WithChildren(n, Children(n)) == n
  {
    if HasListTail(n) {
      assert WithListChildren(n, Children(n)) == n;
    } else {
      assert WithFixedChildren(n, Children(n)) == n;
    }
  }

  function Size(n: Node): nat
    decreases n
  {
    match n
    case Program(body) => 1 + SizeList(body)
    case Identifier(_) => 1
    case Literal(_, _) => 1
    case MemberExpression(o, p, _) => 1 + Size(o) + Size(p)
    case CallExpression(c, args, _) => 1 + Size(c) + SizeList(args)
    case ObjectExpression(props) => 1 + SizeList(props)
    case Property(_, k, v, _) => 1 + Size(k) + Size(v)
    case ArrayExpression(els) => 1 + SizeList(els)
    case XJSIdentifier(_) => 1
    case XJSNamespacedName(ns, nm) => 1 + Size(ns) + Size(nm)
    case XJSMemberExpression(o, p) => 1 + Size(o) + Size(p)
    case XJSEmptyExpression => 1
    case XJSExpressionContainer(e) => 1 + Size(e)
    case XJSAttribute(nm, v, _) => 1 + Size(nm) + (if v.Some? then Size(v.value) else 0)
    case XJSOpeningElement(nm, attrs, _) => 1 + Size(nm) + SizeList(attrs)
    case XJSClosingElement(nm) => 1 + Size(nm)
    case XJSElement(o, c, ch, _) => 1 + Size(o) + (if c.Some? then Size(c.value) else 0) + SizeList(ch)
    case Other(_, parts) => 1 + SizeList(parts)
  }

  function SizeList(s: seq<Node>): nat
    decreases s
  {
    if s == [] then 0 else Size(s[0]) + SizeList(s[1..])
  }

  lemma {:induction false} SizeListAppend(a: seq<Node>, b: seq<Node>)
    ensures SizeList(a + b) == SizeList(a) + SizeList(b)
  {
    if a != [] {
      assert (a + b)[1..] == a[1..] + b;
      SizeListAppend(a[1..], b);
    } else {
      assert a + b == b;
    }
  }

  lemma SizeListPair(a: Node, b: Node)
    ensures SizeList([a, b]) == Size(a) + Size(b)
  {
    assert [a, b][1..] == [b];
    assert [b][1..] == [];
    assert SizeList([b]) == Size(b) + SizeList([]);
    assert SizeList([a, b]) == Size(a) + SizeList([b]);
  }

  lemma SizeListOpt(o: Option<Node>)
    ensures SizeList(OptList(o)) == if o.Some? then Size(o.value) else 0
  {
    if o.Some? {
      assert [o.value][1..] == [];
    }
  }

  lemma SizeListCons(x: Node, s: seq<Node>)
    ensures SizeList([x] + s) == Size(x) + SizeList(s)
  {
    assert ([x] + s)[0] == x && ([x] + s)[1..] == s;
  }

  lemma SizeListOne(x: Node)
    ensures SizeList([x]) == Size(x)
  {
    SizeListCons(x, []);
    assert [x] + [] == [x];
  }

  lemma ElementChildrenSize(o: Node, c: Option<Node>, ch: seq<Node>)
    ensures SizeList([o] + OptList(c) + ch) == Size(o) + (if c.Some? then Size(c.value) else 0) + SizeList(ch)
  {
    assert [o] + OptList(c) + ch == [o] + (OptList(c) + ch);
    SizeListCons(o, OptList(c) + ch);
    SizeListAppend(OptList(c), ch);
    SizeListOpt(c);
  }

  /** The sub-nodes account for all of a node's size but the node itself. */
  lemma {:induction false} ChildrenSize(n: Node)
    ensures SizeList(Children(n)) == Size(n) - 1
  {
    if HasListTail(n) {
      ListChildrenSize(n);
    } else if HasPair(n) {
      PairChildrenSize(n);
    } else if n.XJSExpressionContainer? {
      SizeListOne(n.expression);
    } else if n.XJSClosingElement? {
      SizeListOne(n.closingName);
    }
  }

  lemma ListChildrenSize(n: Node)
    requires HasListTail(n)
    ensures SizeList(Children(n)) == Size(n) - 1
  {
    match n
    case CallExpression(c, args, _) => SizeListCons(c, args);
    case XJSAttribute(nm, v, _) => SizeListCons(nm, OptList(v)); SizeListOpt(v);
    case XJSOpeningElement(nm, attrs, _) => SizeListCons(nm, attrs);
    case XJSElement(o, c, ch, _) => ElementChildrenSize(o, c, ch);
  }

  lemma PairChildrenSize(n: Node)
    requires HasPair(n)
    ensures SizeList(Children(n)) == Size(n) - 1
  {
    match n
    case MemberExpression(o, p, _) => SizeListPair(o, p);
    case Property(_, k, v, _) => SizeListPair(k, v);
    case XJSNamespacedName(ns, nm) => SizeListPair(ns, nm);
    case XJSMemberExpression(o, p) => SizeListPair(o, p);
  }

  /** No JSX extension node anywhere in the tree. */
  predicate NoJSX(n: Node)
    decreases Size(n), 0
  {
    && !IsJSXNode(n)
    && (ChildrenSize(n); NoJSXList(Children(n)))
  }

  predicate NoJSXList(s: seq<Node>)
    decreases SizeList(s), 1
  {
    s == [] || (NoJSX(s[0]) && NoJSXList(s[1..]))
  }

  /** The list form of `NoJSX` holds exactly when every element is free of JSX. */
  lemma {:induction false} NoJSXListAll(s: seq<Node>)
    ensures NoJSXList(s) <==> forall i :: 0 <= i < |s| ==> NoJSX(s[i])
    decreases |s|
  {
    if s != [] {
      NoJSXListAll(s[1..]);
      assert forall i :: 1 <= i < |s| ==> s[i] == s[1..][i - 1];
    }
  }

  /** No element of a list is larger than the whole list. */
  lemma {:induction false} ElementSizes(s: seq<Node>)
    ensures forall i :: 0 <= i < |s| ==> Size(s[i]) <= SizeList(s)
    decreases |s|
  {
    if s != [] {
      ElementSizes(s[1..]);
      assert forall i :: 1 <= i < |s| ==> s[i] == s[1..][i - 1];
    }
  }

  /** `NoJSX` of a node is its own kind's test and `NoJSX` of each sub-node. */
  lemma NoJSXUnfold(n: Node)
    ensures NoJSX(n) <==> !IsJSXNode(n) && forall i :: 0 <= i < |Children(n)| ==> NoJSX(Children(n)[i])
  {
    NoJSXListAll(Children(n));
  }
}
