# JSX lowering visitor, modelled in Dafny

This project models the visitor of `lib/JSX.js` from jsx-transpiler. The visitor walks
an ECMAScript syntax tree that carries the JSX extension nodes (`XJSElement`,
`XJSOpeningElement`, `XJSAttribute`, …) and rewrites every element into a call
of a shared target, `JSX.tag(name, props, [children])`.

The model has these parts:

- **Data model (`syntax.dfy`).**
  - `Node` is a datatype with one constructor per node kind the visitor reads or builds. Any other kind is `Other(kind, parts)`.
  - `Action` (`Keep | Replace(node)`) is what a handler returns.
  - `Error` lists the exceptions the code can raise.
- **Call target (`tag_call.dfy`).** `enterProgram` splits the dotted path `JSX.tag` on `.`, maps the segments to identifiers, and folds them left into non-computed member expressions. The model proves that the target spells the path back.
- **Handlers (`lowering.dfy`).** Tag-name normalisation, expression containers, attributes and opening tags. Each handler is a function of the node it is given.
- **Children normalisation (`elements.dfy`).** `trimChildren` and the element lowering that uses it, as functions over the children list.
- **Dispatch (`dispatch.dfy`).** The `enter`/`leave` switches the source compiles from the prototype's method names. The table is built from the same ordered key list. It is proved to reach exactly the handler named after the node's type, and to keep every node without one.
- **Walk (`traverse.dfy`).** The replacing depth-first walk that `visit` hands its switches to:
  - enter the node; continue with the replacement if there is one;
  - walk its sub-nodes in order;
  - leave it; the result takes the node's place.

  The model proves three things about the walk:
  - a tree without JSX comes back unchanged;
  - the target stays the one `enterProgram` builds;
  - on a well-formed tree (`Traversal.Wf`), a walk that raises nothing leaves no JSX node, except a closing tag that is not inside an element, which keeps its kind. Every opening tag becomes a two-argument call, and every element becomes a call with two or three arguments at the element's location.
- **Visitor object (`visitor.dfy`).**
  - The class `JSX` holds the `tagCall` field.
  - `TrimChildren` edits a `NodeArray` (the children array) in place.
  - `LeaveXJSElement` trims, pushes the children and sets `loc`.
  - `Enter`/`Leave` run the compiled switch.
  - `Visit` runs the walk.

  Each method is proved to leave the state its functional counterpart describes.
- **Worked walks (`traverse_examples.dfy`, `elements_examples.dfy`).** Concrete inputs run through the model, such as `<div/>`, `a.b.c`, `name="v"`, `data-x`, `<div>{/* c */}</div>` and a whitespace-padded child list.

Behaviour worth noting, where the code does something other than a reader of the JSX syntax might expect; the model follows the code:

- **A whitespace-only edge child** is removed only when it is the sole child; otherwise it is blanked to `''` (lib/JSX.js:127-131). A leading whitespace-only text before other children is therefore kept as an empty text, not dropped (`ElementsExamples.BlankedLeadingText`).
- **Location.** The call for an element takes the element's `loc` (lib/JSX.js:108). The call for an opening tag carries no location.
- **A comment-only container at an edge of the children** (`{/* c */}` as the first or last child) becomes the literal `null` before the element is left. `trimChildren` then calls `.trim()` on `null` and raises (`TraversalExamples.CommentChildRaises`). A comment-only container between other children is never trimmed and stays the literal `null`.
- **A hyphenated attribute name** such as `data-x` is already a string literal when the attribute is left, because `enterXJSIdentifier` rewrote it. Reading its `name` gives `undefined`, and the attribute rule raises (`TraversalExamples.TextAttributeRaises`).

## Model

| member | source | states |
|---|---|---|
| JsString.TrimLeft | lib/JSX.js:118-125 | `trimLeft` gives the longest suffix not starting with whitespace; everything it drops is whitespace |
| JsString.TrimRight | lib/JSX.js:118-125 | `trimRight` gives the longest prefix not ending with whitespace; everything it drops is whitespace |
| JsString.Trim | lib/JSX.js:121-123 | `trim()` is empty exactly when the text is all whitespace, exactly when either one-sided trim is empty |
| JsString.Split | lib/JSX.js:32 | `split` on a one-character separator yields at least one part |
| JsString.SplitJoinsBack | lib/JSX.js:32 | the parts of `split('.')` join back to the path |
| JsString.SplitPartsFree | lib/JSX.js:32 | no part holds the separator, and there is one part exactly when the text has no separator |
| JsString.SplitAround | lib/JSX.js:48 | splitting `a + ':' + b` splits each side on its own |
| JsString.SplitJoin | lib/JSX.js:32 | joining separator-free parts and splitting again gives the parts back |
| TagCall.Identifiers | lib/JSX.js:33 | `map(b.identifier)` gives one Identifier per segment, in order, each spelling its segment |
| TagCall.FoldMembers | lib/JSX.js:34-36 | the left fold into non-computed member accesses is read back by its spine: the folded nodes in order, unless the first is itself a member access |
| TagCall.BuildTagCall | lib/JSX.js:31-36 | the spine of the prebuilt target is the path's `.`-parts, each as an Identifier |
| TagCall.FoldIdentifiers | lib/JSX.js:31-36 | reading the segments back off the folded member chain gives the names that were folded |
| TagCall.TagCallSpellsPath | lib/JSX.js:28-36 | the target's segments are the path's `.`-parts, they join back to the path, and the target is a bare identifier exactly when the path has no `.` |
| TagCall.DefaultTagCallShape | lib/JSX.js:28-36 | the default target is the non-computed member access `JSX.tag` |
| TagCall.FoldedTargetIsPlain | lib/JSX.js:31-36 | the target holds no JSX node |
| Lowering.EnterXJSIdentifier | lib/JSX.js:39-45 | a JSX identifier becomes a leaf spelling the same name: an Identifier exactly when the name is identifier-shaped, a string literal otherwise; other nodes are kept |
| Syntax.JsName | lib/JSX.js:48-52 | `.name` coerced by `+` is the name itself when the node holds a string name, and `undefined` or `[object Object]` otherwise |
| Lowering.ColonName | lib/JSX.js:48 | a joined name is an Identifier |
| Lowering.ColonNameSplits | lib/JSX.js:47-53 | the joined name splits on `:` into the left name's parts followed by the right name's parts |
| Lowering.EnterXJSNamespacedName | lib/JSX.js:47-49 | `ns:name` becomes the one joined Identifier; other nodes are kept |
| Lowering.LeaveXJSMemberExpression | lib/JSX.js:51-53 | `object.property` becomes the one joined Identifier `object:property`; other nodes are kept |
| Lowering.LeaveXJSEmptyExpression | lib/JSX.js:60-63 | the empty expression becomes the literal `null`, free of JSX; other nodes are kept |
| Lowering.EnterXJSExpressionContainer | lib/JSX.js:65-67 | a container gives way to the expression it wraps, a strictly smaller node; other nodes are kept |
| Lowering.LeaveXJSAttribute | lib/JSX.js:69-79 | an attribute becomes an `init` property at the attribute's location. Its key is the name node exactly when the name is identifier-shaped, otherwise a string literal of the name. Its value is the attribute's value or `true`. It raises exactly when the name node has no string name |
| Lowering.LeaveXJSOpeningElement | lib/JSX.js:81-89 | an opening tag becomes a call of the shared target with exactly two arguments: the tag name as a string literal, then the attributes' object in order or `null` when there are none. It raises when the name is missing or the target is unset |
| Elements.EdgeIndex | lib/JSX.js:117 | the inspected child is in range |
| Elements.TrimEdge | lib/JSX.js:111-134 | trims one edge of the children. Any other position raises `Bad argument`, and an empty list raises too. A non-literal edge leaves the list unchanged; a non-string literal raises. Text with content loses whitespace on that side only, in value and raw (a missing raw raises after the value is trimmed). Whitespace-only text is removed when it is the sole child and blanked otherwise. No other child changes, and the length drops by at most the one sole child |
| Elements.NormalizeChildren | lib/JSX.js:96-102 | the start trim, then the end trim, each while children remain. Only the trim exceptions can be raised, and every child other than the two edges is kept in place |
| Elements.TrimEdgeKeepsPlain | lib/JSX.js:120-133 | a trim never brings a JSX node into the children |
| Elements.NormalizeKeepsPlain | lib/JSX.js:96-102 | normalisation never brings a JSX node into the children |
| Elements.SetLoc | lib/JSX.js:108 | `callExpr.loc = node.loc` changes only the location: setting the old one back gives the node again, and a node without a location is left as it is |
| Elements.ElementCall | lib/JSX.js:91-110 | a node that is not an element is kept |
| Elements.ElementCallLowers | lib/JSX.js:91-110 | an element's call keeps the opening call's callee and arguments, appends one array of the normalised children exactly when children remain, and takes the element's location. A trim exception ends the lowering |
| ElementsExamples.TrailingTextTrimmed | lib/JSX.js:121-125 | `" a\n"` is not whitespace-only and right-trims to `" a"` |
| ElementsExamples.LeadingBlankStep | lib/JSX.js:126-131 | a whitespace-only first child among three is blanked, not removed |
| ElementsExamples.BlankedLeadingText | lib/JSX.js:96-131 | children of a whitespace-only text followed by two non-text nodes normalise to the blanked text and the same two nodes: the length is kept |
| Dispatch.Cases | lib/JSX.js:140-146 | every compiled case calls a key of the prototype, and that key is the prefix followed by the case's node type |
| Dispatch.Switch | lib/JSX.js:148-151 | the `switch (node.type)` answers exactly when some case is for the node type, and then with a handler of such a case |
| Dispatch.CallEnter | lib/JSX.js:145 | `this.<handler>(node)` for an `enter` handler: only `enterProgram` writes the target, and only with the one built from the path; a node that is not JSX is kept |
| Dispatch.CallLeave | lib/JSX.js:145 | `this.<handler>(node)` for a `leave` handler: only the attribute, opening-tag and element handlers can raise; a node that is not JSX is kept |
| Dispatch.CallEnterByKind | lib/JSX.js:139-152 | for the four node types the `enter` switch answers, the handler named `enter` + type does what dispatch by kind does |
| Dispatch.CallLeaveByKind | lib/JSX.js:139-152 | for the five node types the `leave` switch answers, the handler named `leave` + type does what dispatch by kind does |
| Dispatch.PrefixCut | lib/JSX.js:142-144 | cutting the `enter`/`leave` prefix off a method name and gluing it back are inverse |
| Dispatch.SwitchFindsHandler | lib/JSX.js:139-151 | a compiled switch reaches, for a node type, the method named prefix + type when the prototype has one, and no method otherwise |
| Dispatch.EnterTable | lib/JSX.js:139-152 | the `enter` switch answers for exactly Program, XJSIdentifier, XJSNamespacedName and XJSExpressionContainer |
| Dispatch.LeaveTable | lib/JSX.js:139-152 | the `leave` switch answers for exactly the five `leave` handler types; the `enter` key present by then adds no case |
| Dispatch.PlainKindKept | lib/JSX.js:139-151 | a node whose kind has no handler is kept by both switches |
| Dispatch.Enter | lib/JSX.js:139-152 | the compiled `enter` calls exactly the handler named after the node's type, with that handler's result |
| Dispatch.Leave | lib/JSX.js:139-152 | the compiled `leave` calls exactly the handler named after the node's type, with that handler's result |
| Traversal.EnterShrinks | lib/JSX.js:39-67 | no `enter` handler hands the walk a larger node |
| Traversal.Traverse | lib/JSX.js:17-24 | the replacing walk of one node leaves the target unset or the one built from the path, if it found it so |
| Traversal.TraverseAll | lib/JSX.js:17-24 | a walk over sub-nodes that raises nothing returns one node per sub-node |
| Traversal.PlainUnchanged | lib/JSX.js:17-24 | a tree without JSX comes back unchanged |
| Traversal.PlainAllUnchanged | lib/JSX.js:17-24 | a list of trees without JSX comes back unchanged |
| Traversal.AttributeLowered | lib/JSX.js:69-79 | an attribute whose name and value are lowered becomes a property without JSX |
| Traversal.OpeningLowered | lib/JSX.js:81-89 | an opening tag whose parts are lowered becomes a two-argument call without JSX |
| Traversal.ElementLowered | lib/JSX.js:91-110 | an element whose opening tag is a lowered call becomes a call without JSX, with two or three arguments, at the element's location |
| Traversal.TraverseLowers | lib/JSX.js:13-25 | on a well-formed tree (`Wf`), a walk that raises nothing leaves no JSX, unless the root is a closing tag not inside an element. Every opening tag becomes a two-argument call and every element a call with two or three arguments at its location. The target stays the one built from the path |
| Traversal.TraverseAllLowers | lib/JSX.js:13-25 | the same for a list of sub-trees, position by position |
| TraversalExamples.IdentifierWalk | lib/JSX.js:39-45 | an identifier-shaped JSX name walks to an Identifier of that name |
| TraversalExamples.TextNameWalk | lib/JSX.js:39-45 | any other JSX name walks to a string literal of that name |
| TraversalExamples.MemberStep | lib/JSX.js:51-53 | a member-expression name walks to the Identifier joining its two walked sides |
| TraversalExamples.PairNameWalk | lib/JSX.js:51-53 | the member name `a.b` of identifier-shaped parts walks to the Identifier `a:b` |
| TraversalExamples.NestedNameWalk | lib/JSX.js:51-53 | member names are lowered inside out on leave: the nested name `a.b.c` walks to the one Identifier `a:b:c` |
| TraversalExamples.NestedNameRoundTrip | lib/JSX.js:51-53 | the name `a.b.c` walks to splits on `:` back into `a`, `b`, `c` |
| TraversalExamples.ColonNameParts | lib/JSX.js:48-52 | three identifier names joined by `:` split back into those names |
| TraversalExamples.AttributeWalk | lib/JSX.js:69-79 | `name="v"` walks to the property `name: "v"` and a valueless `name` to `name: true`, at the attribute's location |
| TraversalExamples.TextAttributeRaises | lib/JSX.js:39-79 | a hyphenated attribute name makes the walk raise, because the name is already a literal when the attribute is left |
| TraversalExamples.EmptyContainerWalk | lib/JSX.js:60-67 | `{}` and `{/* c */}` walk to the literal `null` |
| TraversalExamples.DivOpeningWalk | lib/JSX.js:81-89 | `<div>` walks to the call of the target on `"div"` and `null` |
| TraversalExamples.SelfClosingDivWalk | lib/JSX.js:81-110 | `<div/>` walks to `JSX.tag("div", null)` at the element's location |
| TraversalExamples.DivClosingWalk | lib/JSX.js:39-45 | `</div>` walks to itself with its name lowered |
| TraversalExamples.CommentChildRaises | lib/JSX.js:60-121 | `<div>{/* c */}</div>` makes the walk raise, because the `null` child reaches `.trim()` |
| TraversalExamples.OtherWalk | lib/JSX.js:139-151 | a node of a kind without a handler is kept, with its sub-nodes walked |
| TraversalExamples.DivStatementWalk | lib/JSX.js:81-110 | the statement `<div/>;` walks to the statement of the call |
| TraversalExamples.ProgramWalk | lib/JSX.js:13-37 | a program of the one statement `<div/>;` sets the target from the path and walks to the statement `JSX.tag("div", null);` |
| Visitor.JSX.constructor | lib/JSX.js:8-10 | a new visitor has no target |
| Visitor.JSX.EnterProgram | lib/JSX.js:27-37 | `enterProgram` stores the target built from `JSX.tag`, the member access `JSX.tag`, whatever was stored before |
| Visitor.JSX.TrimChildren | lib/JSX.js:111-134 | editing the array in place leaves exactly the children and outcome `TrimEdge` gives for the old children |
| Visitor.JSX.TrimText | lib/JSX.js:120-133 | the text branch of the in-place trim, with the same result as `TrimEdge` |
| Visitor.JSX.LeaveXJSElement | lib/JSX.js:91-110 | trimming a copy of the children at both edges and pushing them onto the arguments gives exactly `ElementCall` |
| Visitor.JSX.Enter | lib/JSX.js:139-152 | running the compiled `enter` switch stores and returns exactly what `Dispatch.Enter` gives, and keeps the target valid |
| Visitor.JSX.Leave | lib/JSX.js:139-152 | running the compiled `leave` switch returns exactly what `Dispatch.Leave` gives |
| Visitor.JSX.Visit | lib/JSX.js:13-25 | `visit` stores the target the walk leaves and returns the walked tree. The target stays valid, and a well-formed (`Wf`) tree that lowers holds no JSX, unless it is a lone closing tag |

## Left out

- The traversal library (`estraverse-fb` `replace`) is not part of this model. It is modelled by `Traversal.Traverse`: enter, continue with the replacement, walk the sub-nodes in order, leave, substitute. The walk calls the handlers by node kind, which `Dispatch.Enter`/`Dispatch.Leave` prove equal to the compiled switches. Node kinds the library would not descend into, and its `skip`/`break` controls, are not modelled.
- The switch is compiled at runtime with `new Function` from generated source text. It is modelled as a table of cases built from the same ordered key list, not as code generation.
- The `ast-types` builders are datatype constructors. Two of their field checks are modelled because errors depend on them: `b.literal` given the `undefined` name of a node without a string `name` raises (`Error.NameMissing`, lib/JSX.js:86), and `b.callExpression` given an unset target raises (`Error.TagCallUnset`, lib/JSX.js:85). Their other field checks are not modelled, for example `b.objectExpression` given a spread attribute, which is not a property. Nor is the object identity of the nodes they build.
- `isIdentifierName` from `esutils` is modelled for ASCII only: a letter, `$` or `_`, then letters, digits, `$` or `_`. Unicode identifier characters are not modelled. Reserved words count as identifier names, as they do in `esutils`.
- `trim`, `trimLeft` and `trimRight` strip the ECMAScript WhiteSpace and LineTerminator characters listed in `JsString.IsWhitespace`.
- In the functional model, the dotted target path is a parameter (`path`); the visitor object fixes it to `JSX.tag`.
- In-place node mutation and aliasing are modelled as replacement values. The source shares one `tagCall` object among all calls and rewrites `node.type`/`node.value` in place; the model builds new values, so sharing is not visible. `LeaveXJSElement` trims a fresh copy of the children array, where the source edits the element's own array.
- `loc` is kept only on calls, properties, attributes and elements, the nodes the visitor reads or writes it on.
- Numbers in literals are `int`; floating point is not modelled.
- Spread attributes, and every node kind the visitor does not touch, are `Other(kind, parts)`.
- Traversal.TraverseLowers: says nothing about a tree with a spread attribute (`{...p}`) or any other node whose kind carries the `XJS` prefix but has no constructor of its own. `Traversal.Placed` rejects such an `Other`, so the tree is not `Wf`. The walk keeps such a node, and the lowered call would hold it.
- `lib/index.js` is not part of this model: parsing, comment attachment, code generation, source maps and the module-level shared visitor instance.
- TraversalExamples.NestedNameWalk: whole walks of member names are proved for two and three parts only. For any depth, the lowering is stated step by step by `Lowering.LeaveXJSMemberExpression` and `Lowering.ColonNameSplits`.
- Exceptions are values of `Error` in a `Result`. The messages of JavaScript's `TypeError`s are not modelled.
