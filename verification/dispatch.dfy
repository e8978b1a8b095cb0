/**
 * The `enter` and `leave` entry points of lib/JSX.js. The source does not
 * write them by hand: it lists the prototype's own method names in order,
 * keeps those that start with `enter` (resp. `leave`), and compiles a
 * `switch` on `node.type` whose case for the rest of the name calls that
 * method. The table is modelled from the same key list, and each entry point
 * is proved to reach exactly the handler named after the node's type.
 */
module Dispatch {
  import opened Wrappers
  import opened JsString
  import opened Syntax
  import opened TagCall
  import opened Lowering
  import opened Elements

  const EnterPrefix: string := "enter"
  const LeavePrefix: string := "leave"

  /** The prototype's own keys, in declaration order; handler names are written as their prefix and node type. */
  const PrototypeKeys: seq<string> := [
    "visit",
    EnterPrefix + "Program",
    EnterPrefix + "XJSIdentifier",
    EnterPrefix + "XJSNamespacedName",
    LeavePrefix + "XJSMemberExpression",
    LeavePrefix + "XJSEmptyExpression",
    EnterPrefix + "XJSExpressionContainer",
    LeavePrefix + "XJSAttribute",
    LeavePrefix + "XJSOpeningElement",
    LeavePrefix + "XJSElement",
    "trimChildren"
  ]

  /** One compiled `case "<nodeType>": return this.<handler>(node);`. */
  datatype Case = Case(nodeType: string, handler: string)

  /** The cases compiled for one prefix: every key that starts with it, with the prefix cut off. */
  function Cases(prefix: string, keys: seq<string>): (cs: seq<Case>)
    ensures forall c | c in cs :: c.handler in keys && c.handler == prefix + c.nodeType
  {
    if keys == [] then []
    else
      var head := if prefix <= keys[0] then [Case(keys[0][|prefix|..], keys[0])] else [];
      assert prefix <= keys[0] ==> keys[0] == prefix + keys[0][|prefix|..] by {
        if prefix <= keys[0] {
          assert keys[0] == keys[0][..|prefix|] + keys[0][|prefix|..];
        }
      }
      head + Cases(prefix, keys[1..])
  }

  /**
   * The handler the first matching case calls, or none when no case matches:
   * the switch answers exactly when some case is for the node type, and then
   * with the handler of such a case.
   */
  function Switch(cases: seq<Case>, nodeType: string): (h: Option<string>)
    ensures h.Some? ==> Case(nodeType, h.value) in cases
    ensures h.None? <==> forall c | c in cases :: c.nodeType != nodeType
  {
    if cases == [] then None
    else if cases[0].nodeType == nodeType then Some(cases[0].handler)
    else Switch(cases[1..], nodeType)
  }

  /** The `enter` switch is compiled first, from the prototype as declared. */
  function EnterCases(): seq<Case> {
    Cases(EnterPrefix, PrototypeKeys)
  }

  /** The `leave` switch is compiled second: by then `enter` is a key of the prototype too. */
  function LeaveCases(): seq<Case> {
    Cases(LeavePrefix, PrototypeKeys + [EnterPrefix])
  }

  /** Cutting a prefix off a name and gluing it back are inverse. */
  lemma PrefixCut(prefix: string, key: string, nodeType: string)
    ensures (prefix <= key && key[|prefix|..] == nodeType) <==> key == prefix + nodeType
  {
    if key == prefix + nodeType {
      assert key[..|prefix|] == prefix;
      assert key[|prefix|..] == nodeType;
    }
    if prefix <= key && key[|prefix|..] == nodeType {
      assert key == key[..|prefix|] + key[|prefix|..];
    }
  }

  /** A compiled switch reaches, for a node type, the method named prefix + type, when the prototype has one. */
  lemma {:induction false} SwitchFindsHandler(prefix: string, keys: seq<string>, nodeType: string)
    ensures Switch(Cases(prefix, keys), nodeType) == if prefix + nodeType in keys then Some(prefix + nodeType) else None
  {
    if keys != [] {
      var cs := Cases(prefix, keys);
      var rest := Cases(prefix, keys[1..]);
      SwitchFindsHandler(prefix, keys[1..], nodeType);
      PrefixCut(prefix, keys[0], nodeType);
      assert prefix + nodeType in keys <==> keys[0] == prefix + nodeType || prefix + nodeType in keys[1..] by {
        assert keys == [keys[0]] + keys[1..];
      }
      if prefix <= keys[0] {
        assert cs == [Case(keys[0][|prefix|..], keys[0])] + rest;
        assert cs[1..] == rest;
      } else {
        assert cs == rest;
      }
    }
  }

  /** The `enter` switch answers for exactly four node types. */
  lemma EnterTable(nodeType: string)
    ensures Switch(EnterCases(), nodeType) ==
      if nodeType in {"Program", "XJSIdentifier", "XJSNamespacedName", "XJSExpressionContainer"}
      then Some(EnterPrefix + nodeType) else None
  {
    SwitchFindsHandler(EnterPrefix, PrototypeKeys, nodeType);
    if EnterPrefix + nodeType in PrototypeKeys {
      EnterKeyType(nodeType);
    } else {
      EnterKeysListed();
    }
  }

  lemma EnterKeysListed()
    ensures EnterPrefix + "Program" in PrototypeKeys && EnterPrefix + "XJSIdentifier" in PrototypeKeys
    ensures EnterPrefix + "XJSNamespacedName" in PrototypeKeys && EnterPrefix + "XJSExpressionContainer" in PrototypeKeys
  {
    assert PrototypeKeys[1] == EnterPrefix + "Program" && PrototypeKeys[2] == EnterPrefix + "XJSIdentifier";
    assert PrototypeKeys[3] == EnterPrefix + "XJSNamespacedName" && PrototypeKeys[6] == EnterPrefix + "XJSExpressionContainer";
  }

  lemma EnterKeyType(nodeType: string)
    requires EnterPrefix + nodeType in PrototypeKeys
    ensures nodeType in {"Program", "XJSIdentifier", "XJSNamespacedName", "XJSExpressionContainer"}
  {
    var k := EnterPrefix + nodeType;
    var keys := PrototypeKeys;
    var i :| 0 <= i < |keys| && keys[i] == k;
    assert k[0] == 'e';
    assert i !in {0, 4, 5, 7, 8, 9, 10} by {
      assert keys[0][0] == 'v' && keys[10][0] == 't';
      assert keys[4][0] == 'l' && keys[5][0] == 'l' && keys[7][0] == 'l' && keys[8][0] == 'l' && keys[9][0] == 'l';
    }
    PrefixCancel(EnterPrefix, nodeType, keys[i][5..]);
  }

  /** The `leave` switch answers for exactly five node types; the extra `enter` key adds no case. */
  lemma LeaveTable(nodeType: string)
    ensures Switch(LeaveCases(), nodeType) ==
      if nodeType in {"XJSMemberExpression", "XJSEmptyExpression", "XJSAttribute", "XJSOpeningElement", "XJSElement"}
      then Some(LeavePrefix + nodeType) else None
  {
    SwitchFindsHandler(LeavePrefix, PrototypeKeys + [EnterPrefix], nodeType);
    if LeavePrefix + nodeType in PrototypeKeys + [EnterPrefix] {
      LeaveKeyType(nodeType);
    } else {
      LeaveKeysListed();
    }
  }

  lemma LeaveKeysListed()
    ensures var keys := PrototypeKeys + [EnterPrefix];
      && LeavePrefix + "XJSMemberExpression" in keys && LeavePrefix + "XJSEmptyExpression" in keys
      && LeavePrefix + "XJSAttribute" in keys && LeavePrefix + "XJSOpeningElement" in keys
      && LeavePrefix + "XJSElement" in keys
  {
    var keys := PrototypeKeys + [EnterPrefix];
    assert keys[4] == LeavePrefix + "XJSMemberExpression" && keys[5] == LeavePrefix + "XJSEmptyExpression";
    assert keys[7] == LeavePrefix + "XJSAttribute" && keys[8] == LeavePrefix + "XJSOpeningElement";
    assert keys[9] == LeavePrefix + "XJSElement";
  }

  lemma LeaveKeyType(nodeType: string)
    requires LeavePrefix + nodeType in PrototypeKeys + [EnterPrefix]
    ensures nodeType in {"XJSMemberExpression", "XJSEmptyExpression", "XJSAttribute", "XJSOpeningElement", "XJSElement"}
  {
    var k := LeavePrefix + nodeType;
    var keys := PrototypeKeys + [EnterPrefix];
    var i :| 0 <= i < |keys| && keys[i] == k;
    assert k[0] == 'l';
    assert i !in {0, 1, 2, 3, 6, 10, 11} by {
      assert keys[0][0] == 'v' && keys[10][0] == 't' && keys[11][0] == 'e';
      assert keys[1][0] == 'e' && keys[2][0] == 'e' && keys[3][0] == 'e' && keys[6][0] == 'e';
    }
    PrefixCancel(LeavePrefix, nodeType, keys[i][5..]);
  }

  /** A name made of a prefix and a rest determines the rest. */
  lemma PrefixCancel(prefix: string, a: string, b: string)
    ensures prefix + a == prefix + b <==> a == b
  {
    if prefix + a == prefix + b {
      assert a == (prefix + a)[|prefix|..];
      assert b == (prefix + b)[|prefix|..];
    }
  }

  /**
   * What an `enter` call leaves behind: the visitor's tag-call target and the
   * action on the node. `enterProgram` builds the target from the dotted path
   * it is given, which the source fixes to `DefaultTagCall`.
   */
  datatype Entered = Entered(tagCall: Option<Node>, action: Action)

  /**
   * `this[handler](node)` for a handler of the `enter` switch. Only
   * `enterProgram` writes the target, and only with the one built from the
   * path; no handler rewrites a node that is not JSX.
   */
  function CallEnter(path: string, tagCall: Option<Node>, handler: string, node: Node): (e: Entered)
    ensures e.tagCall == tagCall || e.tagCall == Some(BuildTagCall(path))
    ensures e.tagCall != tagCall ==> handler == EnterPrefix + "Program"
    ensures !IsJSXNode(node) ==> e.action == Keep
  {
    if handler == EnterPrefix + "Program" then Entered(Some(BuildTagCall(path)), Keep)
    else if handler == EnterPrefix + "XJSIdentifier" then Entered(tagCall, EnterXJSIdentifier(node))
    else if handler == EnterPrefix + "XJSNamespacedName" then Entered(tagCall, EnterXJSNamespacedName(node))
    else if handler == EnterPrefix + "XJSExpressionContainer" then Entered(tagCall, EnterXJSExpressionContainer(node))
    else Entered(tagCall, Keep)
  }

  /**
   * `this[handler](node)` for a handler of the `leave` switch. Only the
   * attribute, opening-tag and element handlers can raise, and no handler
   * rewrites a node that is not JSX.
   */
  function CallLeave(tagCall: Option<Node>, handler: string, node: Node): (r: Result<Action, Error>)
    ensures r.Err? ==> handler in {LeavePrefix + "XJSAttribute", LeavePrefix + "XJSOpeningElement", LeavePrefix + "XJSElement"}
    ensures !IsJSXNode(node) ==> r == Ok(Keep)
  {
    if handler == LeavePrefix + "XJSMemberExpression" then Ok(LeaveXJSMemberExpression(node))
    else if handler == LeavePrefix + "XJSEmptyExpression" then Ok(LeaveXJSEmptyExpression(node))
    else if handler == LeavePrefix + "XJSAttribute" then LeaveXJSAttribute(node)
    else if handler == LeavePrefix + "XJSOpeningElement" then LeaveXJSOpeningElement(tagCall, node)
    else if handler == LeavePrefix + "XJSElement" then ElementCall(node)
    else Ok(Keep)
  }

  /** Dispatch by node kind, written without the compiled switch. */
  function EnterByKind(path: string, tagCall: Option<Node>, node: Node): Entered {
    match node
    case Program(_) => Entered(Some(BuildTagCall(path)), Keep)
    case XJSIdentifier(_) => Entered(tagCall, EnterXJSIdentifier(node))
    case XJSNamespacedName(_, _) => Entered(tagCall, EnterXJSNamespacedName(node))
    case XJSExpressionContainer(_) => Entered(tagCall, EnterXJSExpressionContainer(node))
    case Other(k, _) => if k == "Program" then Entered(Some(BuildTagCall(path)), Keep) else Entered(tagCall, Keep)
    case _ => Entered(tagCall, Keep)
  }

  /** Dispatch by node kind, written without the compiled switch. */
  function LeaveByKind(tagCall: Option<Node>, node: Node): Result<Action, Error> {
    match node
    case XJSMemberExpression(_, _) => Ok(LeaveXJSMemberExpression(node))
    case XJSEmptyExpression => Ok(LeaveXJSEmptyExpression(node))
    case XJSAttribute(_, _, _) => LeaveXJSAttribute(node)
    case XJSOpeningElement(_, _, _) => LeaveXJSOpeningElement(tagCall, node)
    case XJSElement(_, _, _, _) => ElementCall(node)
    case _ => Ok(Keep)
  }

  /** A node of a kind without the `XJS` prefix is kept by both dispatches. */
  lemma PlainKindKept(path: string, tagCall: Option<Node>, node: Node)
    requires !IsJSXNode(node)
    ensures EnterByKind(path, tagCall, node).action == Keep
    ensures LeaveByKind(tagCall, node) == Ok(Keep)
  {
  }

  /** For a node type the `enter` switch answers, the handler it names is the one dispatch by kind calls. */
  lemma CallEnterByKind(path: string, tagCall: Option<Node>, node: Node)
    ensures TypeOf(node) in {"Program", "XJSIdentifier", "XJSNamespacedName", "XJSExpressionContainer"} ==>
      CallEnter(path, tagCall, EnterPrefix + TypeOf(node), node) == EnterByKind(path, tagCall, node)
  {
    var t := TypeOf(node);
    PrefixCancel(EnterPrefix, t, "Program");
    PrefixCancel(EnterPrefix, t, "XJSIdentifier");
    PrefixCancel(EnterPrefix, t, "XJSNamespacedName");
    PrefixCancel(EnterPrefix, t, "XJSExpressionContainer");
  }

  /** For a node type the `leave` switch answers, the handler it names is the one dispatch by kind calls. */
  lemma CallLeaveByKind(tagCall: Option<Node>, node: Node)
    ensures TypeOf(node) in {"XJSMemberExpression", "XJSEmptyExpression", "XJSAttribute", "XJSOpeningElement", "XJSElement"} ==>
      CallLeave(tagCall, LeavePrefix + TypeOf(node), node) == LeaveByKind(tagCall, node)
  {
    var t := TypeOf(node);
    PrefixCancel(LeavePrefix, t, "XJSMemberExpression");
    PrefixCancel(LeavePrefix, t, "XJSEmptyExpression");
    PrefixCancel(LeavePrefix, t, "XJSAttribute");
    PrefixCancel(LeavePrefix, t, "XJSOpeningElement");
    PrefixCancel(LeavePrefix, t, "XJSElement");
  }

  /**
   * The compiled `enter`: the handler the switch finds for the node's type is
   * the one dispatch by kind names. A Program sets the tag-call target; a node
   * of any other kind leaves it as it was.
   */
  function Enter(path: string, tagCall: Option<Node>, node: Node): (e: Entered)
    ensures e == EnterByKind(path, tagCall, node)
  {
    EnterTable(TypeOf(node));
    CallEnterByKind(path, tagCall, node);
    match Switch(EnterCases(), TypeOf(node))
    case None => Entered(tagCall, Keep)
    case Some(handler) => CallEnter(path, tagCall, handler, node)
  }

  /** The compiled `leave`: the handler the switch finds for the node's type is the one dispatch by kind names. */
  function Leave(tagCall: Option<Node>, node: Node): (r: Result<Action, Error>)
    ensures r == LeaveByKind(tagCall, node)
  {
    LeaveTable(TypeOf(node));
    CallLeaveByKind(tagCall, node);
    match Switch(LeaveCases(), TypeOf(node))
    case None => Ok(Keep)
    case Some(handler) => CallLeave(tagCall, handler, node)
  }
}
