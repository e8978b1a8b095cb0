/**
 * The handlers of lib/JSX.js that only compute: tag-name normalisation,
 * expression containers, attributes and opening tags. A handler that the
 * source writes as an in-place change of `node.type` is given here as the
 * replacement node it leaves behind.
 */
module Lowering {
  import opened Wrappers
  import opened JsString
  import opened Syntax

  /** The text a name node spells: its string `name`, or a string Literal's value. */
  function NameText(n: Node): Option<string> {
    if n.Literal? && n.value.Str? then Some(n.value.s) else NameOf(n)
  }

  /** `enterXJSIdentifier`: an identifier-shaped name becomes an Identifier, any other a string literal. */
  function EnterXJSIdentifier(node: Node): (a: Action)
    ensures !node.XJSIdentifier? ==> a == Keep
    ensures node.XJSIdentifier? ==>
      && a.Replace? && Children(a.node) == []
      && NameText(a.node) == Some(node.name)
      && (a.node.Identifier? <==> IsIdentifierName(node.name))
      && (!a.node.Identifier? ==> a.node.Literal? && a.node.value == Str(node.name))
  {
    match node
    case XJSIdentifier(name) =>
      if IsIdentifierName(name) then Replace(Identifier(name)) else Replace(Lit(Str(name)))
    case _ => Keep
  }

  /** The identifier both `ns:name` and `object.property` become: the two names joined by `:`. */
  function ColonName(left: Node, right: Node): (id: Node)
    ensures id.Identifier?
  {
    Identifier(JsName(left) + ":" + JsName(right))
  }

  /** The joined name splits on `:` into the parts of the left name followed by the parts of the right. */
  lemma ColonNameSplits(left: Node, right: Node)
    ensures Split(ColonName(left, right).name, ':') == Split(JsName(left), ':') + Split(JsName(right), ':')
  {
    SplitAround(JsName(left), JsName(right), ':');
  }

  /** `enterXJSNamespacedName`: `ns:name` becomes one Identifier of both names; other nodes are kept. */
  function EnterXJSNamespacedName(node: Node): (a: Action)
    ensures !node.XJSNamespacedName? ==> a == Keep
    ensures node.XJSNamespacedName? ==> a == Replace(ColonName(node.namespace, node.localName))
  {
    match node
    case XJSNamespacedName(ns, nm) => Replace(ColonName(ns, nm))
    case _ => Keep
  }

  /** `leaveXJSMemberExpression`: `object.property` becomes one Identifier `object:property`; other nodes are kept. */
  function LeaveXJSMemberExpression(node: Node): (a: Action)
    ensures !node.XJSMemberExpression? ==> a == Keep
    ensures node.XJSMemberExpression? ==> a == Replace(ColonName(node.obj, node.property))
  {
    match node
    case XJSMemberExpression(o, p) => Replace(ColonName(o, p))
    case _ => Keep
  }

  /** `leaveXJSEmptyExpression`: the placeholder of a comment-only container becomes the literal `null`. */
  function LeaveXJSEmptyExpression(node: Node): (a: Action)
    ensures !node.XJSEmptyExpression? ==> a == Keep
    ensures node.XJSEmptyExpression? ==> a.Replace? && NoJSX(a.node) && a.node.Literal? && a.node.value == Null
  {
    match node
    case XJSEmptyExpression => Replace(Lit(Null))
    case _ => Keep
  }

  /** `enterXJSExpressionContainer`: the container gives way to the expression it wraps. */
  function EnterXJSExpressionContainer(node: Node): (a: Action)
    ensures !node.XJSExpressionContainer? ==> a == Keep
    ensures node.XJSExpressionContainer? ==> a.Replace? && a.node == Children(node)[0] && Size(a.node) < Size(node)
  {
    match node
    case XJSExpressionContainer(e) => Replace(e)
    case _ => Keep
  }

  /**
   * `leaveXJSAttribute`: the attribute becomes an `init` property. Its key is the
   * name node when the name is identifier-shaped and a string literal of the name
   * otherwise; its value is the attribute's value, or `true` when it has none; it
   * keeps the attribute's location. A name node without a string name raises.
   */
  function LeaveXJSAttribute(node: Node): (r: Result<Action, Error>)
    ensures !node.XJSAttribute? ==> r == Ok(Keep)
    ensures node.XJSAttribute? ==> (r.Err? <==> NameOf(node.attrName).None?)
    ensures node.XJSAttribute? && r.Err? ==> r.error == NameMissing
    ensures node.XJSAttribute? && r.Ok? ==>
      && r.value.Replace? && r.value.node.Property?
      && var p := r.value.node;
      && p.kind == "init" && p.loc == node.loc
      && NameText(p.key) == NameOf(node.attrName)
      && (p.key == node.attrName <==> IsIdentifierName(NameOf(node.attrName).value))
      && (p.key != node.attrName ==> p.key.Literal?)
      && (node.attrValue.Some? ==> p.propValue == node.attrValue.value)
      && (node.attrValue.None? ==> p.propValue == Lit(Bool(true)))
  {
    match node
    case XJSAttribute(name, value, loc) =>
      (match NameOf(name)
       case None => Err(NameMissing)
       case Some(s) =>
         var key := if IsIdentifierName(s) then name else Lit(Str(s));
         Ok(Replace(Property("init", key, value.GetOr(Lit(Bool(true))), loc))))
    case _ => Ok(Keep)
  }

  /**
   * `leaveXJSOpeningElement`: the opening tag becomes a call of the shared target
   * with exactly two arguments, a string literal of the tag name and either an
   * object of the attributes in their order or `null` when there are none.
   */
  function LeaveXJSOpeningElement(tagCall: Option<Node>, node: Node): (r: Result<Action, Error>)
    ensures !node.XJSOpeningElement? ==> r == Ok(Keep)
    ensures node.XJSOpeningElement? && NameOf(node.tagName).None? ==> r == Err(NameMissing)
    ensures node.XJSOpeningElement? && NameOf(node.tagName).Some? && tagCall.None? ==> r == Err(TagCallUnset)
    ensures node.XJSOpeningElement? && r.Ok? ==>
      && r.value.Replace? && r.value.node.CallExpression?
      && var call := r.value.node;
      && call.callee == tagCall.value && call.loc == NoLoc
      && |call.arguments| == 2
      && call.arguments[0] == Lit(Str(NameOf(node.tagName).value))
      && (|node.attributes| > 0 ==> call.arguments[1] == ObjectExpression(node.attributes))
      && (|node.attributes| == 0 ==> call.arguments[1] == Lit(Null))
  {
    match node
    case XJSOpeningElement(tagName, attributes, _) =>
      (match NameOf(tagName)
       case None => Err(NameMissing)
       case Some(name) =>
         if tagCall.None? then Err(TagCallUnset)
         else
           var props := if |attributes| > 0 then ObjectExpression(attributes) else Lit(Null);
           Ok(Replace(CallExpression(tagCall.value, [Lit(Str(name)), props], NoLoc))))
    case _ => Ok(Keep)
  }
}
