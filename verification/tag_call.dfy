/**
 * The call target shared by every lowered element: the dotted path
 * `JSX.tag` split on `.`, each segment made an Identifier, and the
 * identifiers folded left into non-computed member expressions.
 */
module TagCall {
  import opened Wrappers
  import opened JsString
  import opened Syntax

  const DefaultTagCall: string := "JSX.tag"

  /**
   * The nodes a chain of non-computed member accesses is built from: the
   * innermost object, then each property from the inside out.
   */
  function Spine(n: Node): seq<Node> {
    match n
    case MemberExpression(o, p, false) => Spine(o) + [p]
    case _ => [n]
  }

  /**
   * `ids.reduce((object, property) => b.memberExpression(object, property, false))`,
   * no initial value. Unless the first node is itself a member access, the spine
   * of the chain gives the folded nodes back in order.
   */
  function FoldMembers(ids: seq<Node>): (r: Node)
    requires |ids| >= 1
    ensures !ids[0].MemberExpression? ==> Spine(r) == ids
  {
    if |ids| == 1 then ids[0]
    else MemberExpression(FoldMembers(ids[..|ids| - 1]), ids[|ids| - 1], false)
  }

  /** `names.map(b.identifier)`: one Identifier per name, spelling that name. */
  function Identifiers(names: seq<string>): (ids: seq<Node>)
    ensures |ids| == |names|
    ensures forall i | 0 <= i < |ids| :: ids[i].Identifier? && NameOf(ids[i]) == Some(names[i])
  {
    seq(|names|, i requires 0 <= i < |names| => Identifier(names[i]))
  }

  /**
   * The segments a target spells, read back off the tree: an Identifier is one
   * segment, a non-computed member access with an Identifier property adds one;
   * anything else is not a static dotted chain.
   */
  function Segments(n: Node): Option<seq<string>> {
    match n
    case Identifier(x) => Some([x])
    case MemberExpression(o, p, computed) =>
      if computed || !p.Identifier? then None
      else
        (match Segments(o)
         case Some(s) => Some(s + [p.name])
         case None => None)
    case _ => None
  }

  lemma {:induction false} FoldIdentifiers(names: seq<string>)
    requires |names| >= 1
    ensures Segments(FoldMembers(Identifiers(names))) == Some(names)
  {
    var ids := Identifiers(names);
    if |names| > 1 {
      var init := names[..|names| - 1];
      assert ids[..|ids| - 1] == Identifiers(init);
      FoldIdentifiers(init);
      assert ids[|ids| - 1] == Identifier(names[|names| - 1]);
      assert names == init + [names[|names| - 1]];
    } else {
      assert ids[0] == Identifier(names[0]);
      assert names == [names[0]];
    }
  }

  /**
   * The target `enterProgram` prebuilds from a dotted path: its identifiers
   * folded into member accesses. The spine of the target is the path's
   * `.`-separated parts, each as an Identifier.
   */
  function BuildTagCall(path: string): (t: Node)
    ensures Spine(t) == Identifiers(Split(path, '.'))
  {
    FoldMembers(Identifiers(Split(path, '.')))
  }

  /**
   * The target spells the path: its segments are the path's `.`-separated
   * parts and join back to the path, and it is a bare identifier exactly when
   * the path has no `.`.
   */
  lemma TagCallSpellsPath(path: string)
    ensures Segments(BuildTagCall(path)) == Some(Split(path, '.'))
    ensures Join(Segments(BuildTagCall(path)).value, '.') == path
    ensures BuildTagCall(path).Identifier? <==> '.' !in path
  {
    var segments := Split(path, '.');
    SplitJoinsBack(path, '.');
    SplitPartsFree(path, '.');
    FoldIdentifiers(segments);
    assert |segments| == 1 ==> Identifiers(segments)[0] == Identifier(segments[0]);
  }

  /** The default target is the member access `JSX.tag`. */
  lemma DefaultTagCallShape()
    ensures BuildTagCall(DefaultTagCall) == MemberExpression(Identifier("JSX"), Identifier("tag"), false)
  {
    var parts: seq<string> := ["JSX", "tag"];
    assert parts[1..] == ["tag"];
    assert Join(parts[1..], '.') == "tag";
    assert Join(parts, '.') == "JSX" + ['.'] + "tag";
    assert "JSX" + ['.'] + "tag" == DefaultTagCall;
    assert '.' !in parts[0] && '.' !in parts[1];
    SplitJoin(parts, '.');
    assert Split(DefaultTagCall, '.') == parts;
    var ids := Identifiers(parts);
    assert ids == [Identifier("JSX"), Identifier("tag")];
    assert ids[..1] == [Identifier("JSX")];
  }

  /** A tag-call target never holds a JSX node. */
  lemma {:induction false} FoldedTargetIsPlain(names: seq<string>)
    requires |names| >= 1
    ensures NoJSX(FoldMembers(Identifiers(names)))
  {
    var ids := Identifiers(names);
    if |names| > 1 {
      var init := names[..|names| - 1];
      assert ids[..|ids| - 1] == Identifiers(init);
      FoldedTargetIsPlain(init);
      var last := ids[|ids| - 1];
      var m := FoldMembers(ids);
      assert NoJSX(last) by {
        assert Children(last) == [];
      }
      assert Children(m) == [FoldMembers(Identifiers(init)), last];
      assert NoJSXList([last]) by {
        assert [last][1..] == [];
      }
      assert [FoldMembers(Identifiers(init)), last][1..] == [last];
    } else {
      assert ids[0] == Identifier(names[0]);
      assert Children(ids[0]) == [];
    }
  }
}
