/**
 * The tree builder: buildTree turns a decoded JSON value into nested visual
 * nodes, one per nested value, with the root container as a plain wrapper.
 */
module TreeBuilder {
  import opened Wrappers
  import opened JsonValue
  import Decimal
  import Render

  /** The root `<div>` wrapper, or an `<li>` for every other node. */
  datatype Element = Wrapper | Item

  /** What precedes the label: nothing (root), an alignment spacer, or a toggle with its glyph. */
  datatype Control = NoControl | Spacer | Toggle(glyph: string)

  /** The child `<ul>`: attached with its nodes, or never attached. */
  datatype ChildList = Absent | Attached(nodes: seq<VNode>)

  /**
   * A visual node: its element, control, `key:` label, type indicator,
   * rendered primitive value, child list, and whether it
   * carries the `collapsed` class.
   */
  datatype VNode = VNode(
    element: Element,
    control: Control,
    keyLabel: Option<string>,
    indicator: Option<string>,
    value: Option<string>,
    children: ChildList,
    collapsed: bool)

  const ExpandedGlyph := "-"
  const CollapsedGlyph := "+"

  /** The label text `${keyName}:`. */
  function KeyLabel(key: string): string {
    key + ":"
  }

  /**
   * The type indicator text. The source picks it in two branches on the
   * item count that give the same text, so it is fixed per kind.
   */
  function TypeIndicator(v: Json): (text: string)
    requires IsContainer(v)
    ensures text == (if v.Obj? then "{}" else "[]")
  {
    if MemberCount(v) > 0 then (if v.Obj? then "{}" else "[]")
    else (if v.Obj? then "{}" else "[]")
  }

  /** The key passed for member `i`: the object key, or the decimal index. */
  function MemberKey(v: Json, i: nat): (key: string)
    requires IsContainer(v) && i < MemberCount(v)
  {
    if v.Obj? then v.members[i].0 else Decimal.DecimalString(i)
  }

  /** buildTree(data, keyName, isRoot); None stands for the `null` it returns. */
  function Build(v: Json, key: string, isRoot: bool): (r: Option<VNode>)
    ensures r.Some? ==> (r.value.element == Wrapper <==> isRoot)
    ensures r.Some? ==> (r.value.value.None? <==> IsContainer(v))
    ensures r.Some? && !IsContainer(v) ==> r.value.children.Absent?
    decreases v, 1, 0
  {
    if IsContainer(v) then
      var cs := BuiltChildren(v, MemberCount(v));
      var hasChildren := MemberCount(v) > 0;
      Some(VNode(
        if isRoot then Wrapper else Item,
        if isRoot then NoControl else if hasChildren then Toggle(ExpandedGlyph) else Spacer,
        if isRoot then None else Some(KeyLabel(key)),
        if isRoot then None else Some(TypeIndicator(v)),
        None,
        if |cs| > 0 then Attached(cs) else Absent,
        false))
    else if isRoot then
      None
    else
      Some(VNode(Item, Spacer, Some(KeyLabel(key)), None, Some(Render.RenderValue(v)), Absent, false))
  }

  /** The child list after visiting the first `i` members, keeping only non-null results. */
  function BuiltChildren(v: Json, i: nat): (cs: seq<VNode>)
    requires IsContainer(v) && i <= MemberCount(v)
    decreases v, 0, i
  {
    if i == 0 then []
    else
      var child :=
        if v.Obj? then Build(v.members[i - 1].1, v.members[i - 1].0, false)
        else Build(v.items[i - 1], Decimal.DecimalString(i - 1), false);
      BuiltChildren(v, i - 1) + (if child.Some? then [child.value] else [])
  }

  /**
   * buildTree as the source runs it: the child list is filled by one of two
   * loops, and the node is assembled around it.
   */
  method BuildTree(data: Json, keyName: string, isRoot: bool) returns (r: Option<VNode>)
    ensures r == Build(data, keyName, isRoot)
    decreases data, 1
  {
    if data.Obj? || data.Arr? {
      var hasChildren := MemberCount(data) > 0;
      var control := NoControl;
      var keyLabel := None;
      if !isRoot {
        control := if hasChildren then Toggle(ExpandedGlyph) else Spacer;
        keyLabel := Some(KeyLabel(keyName));
      }
      var indicatorText := TypeIndicator(data);
      var indicator := if isRoot then None else Some(indicatorText);
      var childUl, hasVisibleChildren;
      if data.Obj? {
        childUl, hasVisibleChildren := BuildObjectChildren(data);
      } else {
        childUl, hasVisibleChildren := BuildArrayChildren(data);
      }
      var element := if isRoot then Wrapper else Item;
      var children := if hasVisibleChildren then Attached(childUl) else Absent;
      r := Some(VNode(element, control, keyLabel, indicator, None, children, false));
    } else if isRoot {
      r := None;
    } else {
      var text := Render.RenderValue(data);
      r := Some(VNode(Item, Spacer, Some(KeyLabel(keyName)), None, Some(text), Absent, false));
    }
  }

  /** The `for…in` loop: append the node of each member under its key and raise hasVisibleChildren. */
  method BuildObjectChildren(data: Json) returns (childUl: seq<VNode>, hasVisibleChildren: bool)
    requires data.Obj?
    ensures childUl == BuiltChildren(data, MemberCount(data))
    ensures hasVisibleChildren <==> |childUl| > 0
    decreases data, 0
  {
    childUl, hasVisibleChildren := [], false;
    var i := 0;
    while i < |data.members|
      invariant 0 <= i <= |data.members|
      invariant childUl == BuiltChildren(data, i)
      invariant hasVisibleChildren <==> |childUl| > 0
    {
      assert data.members[i] in data.members;
      var childLi := BuildTree(data.members[i].1, data.members[i].0, false);
      if childLi.Some? {
        childUl := childUl + [childLi.value];
        hasVisibleChildren := true;
      }
      i := i + 1;
    }
  }

  /** The `forEach` loop: append the node of each item under its decimal index and raise hasVisibleChildren. */
  method BuildArrayChildren(data: Json) returns (childUl: seq<VNode>, hasVisibleChildren: bool)
    requires data.Arr?
    ensures childUl == BuiltChildren(data, MemberCount(data))
    ensures hasVisibleChildren <==> |childUl| > 0
    decreases data, 0
  {
    childUl, hasVisibleChildren := [], false;
    var index := 0;
    while index < |data.items|
      invariant 0 <= index <= |data.items|
      invariant childUl == BuiltChildren(data, index)
      invariant hasVisibleChildren <==> |childUl| > 0
    {
      assert data.items[index] in data.items;
      var childLi := BuildTree(data.items[index], Decimal.DecimalString(index), false);
      if childLi.Some? {
        childUl := childUl + [childLi.value];
        hasVisibleChildren := true;
      }
      index := index + 1;
    }
  }

  // ---------------------------------------------------------------------
  // Properties of Build
  // ---------------------------------------------------------------------

  /** buildTree returns null exactly for a primitive passed as the root. */
  lemma BuildNullIff(v: Json, key: string, isRoot: bool)
    ensures Build(v, key, isRoot).None? <==> isRoot && !IsContainer(v)
  {
  }

  /** Every member yields one child, so the child list has one entry per member. */
  lemma {:induction false} BuiltChildrenLength(v: Json, i: nat)
    requires IsContainer(v) && i <= MemberCount(v)
    ensures |BuiltChildren(v, i)| == i
    decreases i
  {
    if i > 0 {
      BuiltChildrenLength(v, i - 1);
      if v.Obj? {
        BuildNullIff(v.members[i - 1].1, v.members[i - 1].0, false);
      } else {
        BuildNullIff(v.items[i - 1], Decimal.DecimalString(i - 1), false);
      }
    }
  }

  /** Child `j` is the node built for member `j` under its key: children follow member order. */
  lemma {:induction false} BuiltChildAt(v: Json, i: nat, j: nat)
    requires IsContainer(v) && j < i <= MemberCount(v)
    ensures |BuiltChildren(v, i)| == i
    ensures Build(Member(v, j), MemberKey(v, j), false).Some?
    ensures BuiltChildren(v, i)[j] == Build(Member(v, j), MemberKey(v, j), false).value
    decreases i
  {
    BuiltChildrenLength(v, i);
    BuildNullIff(Member(v, j), MemberKey(v, j), false);
    BuiltChildrenLength(v, i - 1);
    if j < i - 1 {
      BuiltChildAt(v, i - 1, j);
    }
  }

  /** The child list of a built container: present exactly when it has members, in member order. */
  lemma ContainerChildren(v: Json, key: string, isRoot: bool)
    requires IsContainer(v)
    ensures Build(v, key, isRoot).Some?
    ensures Build(v, key, isRoot).value.children.Attached? <==> MemberCount(v) > 0
    ensures Build(v, key, isRoot).value.children.Attached? ==>
      var cs := Build(v, key, isRoot).value.children.nodes;
      |cs| == MemberCount(v) &&
      forall j :: 0 <= j < |cs| ==>
        Build(Member(v, j), MemberKey(v, j), false).Some? &&
        cs[j] == Build(Member(v, j), MemberKey(v, j), false).value
  {
    BuiltChildrenLength(v, MemberCount(v));
    forall j | 0 <= j < MemberCount(v)
      ensures Build(Member(v, j), MemberKey(v, j), false).Some?
      ensures BuiltChildren(v, MemberCount(v))[j] == Build(Member(v, j), MemberKey(v, j), false).value
    {
      BuiltChildAt(v, MemberCount(v), j);
    }
  }

  /**
   * The labels of a container's children: object child `j` is labelled with
   * its key, array child `j` with the decimal text of `j`.
   */
  lemma ChildLabels(v: Json, key: string, isRoot: bool, j: nat)
    requires IsContainer(v) && j < MemberCount(v)
    ensures Build(v, key, isRoot).Some? && Build(v, key, isRoot).value.children.Attached?
    ensures var cs := Build(v, key, isRoot).value.children.nodes;
      j < |cs| &&
      cs[j].keyLabel == Some(if v.Obj? then v.members[j].0 + ":" else Decimal.DecimalString(j) + ":")
  {
    ContainerChildren(v, key, isRoot);
  }

  /**
   * A non-root container gets a toggle showing `-` exactly when it has a
   * member, otherwise a spacer; its label is `key:` and its indicator the
   * fixed `{}` or `[]`.
   */
  lemma NonRootContainerNode(v: Json, key: string)
    requires IsContainer(v)
    ensures Build(v, key, false).Some?
    ensures var n := Build(v, key, false).value;
      && n.element == Item
      && (n.control == Toggle(ExpandedGlyph) <==> MemberCount(v) > 0)
      && (n.control == Spacer <==> MemberCount(v) == 0)
      && n.keyLabel == Some(key + ":")
      && n.indicator == Some(if v.Obj? then "{}" else "[]")
      && n.value.None?
      && (n.control.Toggle? <==> n.children.Attached?)
      && !n.collapsed
  {
    ContainerChildren(v, key, false);
  }

  /** The root container is a plain wrapper: no toggle, no label, no indicator; the key is ignored. */
  lemma RootContainerNode(v: Json, key: string, other: string)
    requires IsContainer(v)
    ensures Build(v, key, true).Some?
    ensures var n := Build(v, key, true).value;
      n.element == Wrapper && n.control == NoControl && n.keyLabel.None? &&
      n.indicator.None? && n.value.None? && !n.collapsed
    ensures Build(v, key, true) == Build(v, other, true)
  {
  }

  /** A non-root primitive becomes a leaf: spacer, `key:` label, rendered value, no child list. */
  lemma PrimitiveNode(v: Json, key: string)
    requires !IsContainer(v)
    ensures Build(v, key, false) ==
      Some(VNode(Item, Spacer, Some(key + ":"), None, Some(Render.RenderValue(v)), Absent, false))
  {
  }

  // ---------------------------------------------------------------------
  // Same shape, same count
  // ---------------------------------------------------------------------

  /**
   * Node `n` has the shape of value `v`: a container has no value text and
   * one child per member, each mirroring that member (no child list when it
   * has none); a primitive is a leaf showing its rendered value.
   */
  ghost predicate Mirrors(v: Json, n: VNode)
    decreases v
  {
    if IsContainer(v) then
      && n.value.None?
      && (n.children.Attached? <==> MemberCount(v) > 0)
      && (n.children.Attached? ==>
            && |n.children.nodes| == MemberCount(v)
            && (v.Obj? ==> forall j :: 0 <= j < |v.members| ==> Mirrors(v.members[j].1, n.children.nodes[j]))
            && (v.Arr? ==> forall j :: 0 <= j < |v.items| ==> Mirrors(v.items[j], n.children.nodes[j])))
    else
      n.value == Some(Render.RenderValue(v)) && n.children.Absent?
  }

  /** The tree built for a value has the value's shape. */
  lemma {:induction false} BuildMirrors(v: Json, key: string, isRoot: bool)
    requires Build(v, key, isRoot).Some?
    ensures Mirrors(v, Build(v, key, isRoot).value)
    decreases v
  {
    if IsContainer(v) {
      ContainerChildren(v, key, isRoot);
      var n := Build(v, key, isRoot).value;
      if n.children.Attached? {
        var cs := n.children.nodes;
        forall j | 0 <= j < MemberCount(v)
          ensures Mirrors(Member(v, j), cs[j])
        {
          assert Member(v, j) < v by {
            if v.Obj? { assert v.members[j] in v.members; } else { assert v.items[j] in v.items; }
          }
          BuildMirrors(Member(v, j), MemberKey(v, j), false);
        }
      }
    }
  }

  /** Number of nodes in a visual tree, `n` itself included. */
  function NodeCount(n: VNode): (count: nat)
    decreases n, 1, 0
  {
    1 + (if n.children.Attached? then ChildNodeCount(n, |n.children.nodes|) else 0)
  }

  /** Sum of NodeCount over the first `i` children of `n`. */
  function ChildNodeCount(n: VNode, i: nat): (count: nat)
    requires n.children.Attached? && i <= |n.children.nodes|
    decreases n, 0, i
  {
    if i == 0 then 0
    else
      assert n.children.nodes[i - 1] in n.children.nodes;
      ChildNodeCount(n, i - 1) + NodeCount(n.children.nodes[i - 1])
  }

  /** A node that mirrors a value has exactly as many nodes as the value has nested values. */
  lemma {:induction false} MirrorsCount(v: Json, n: VNode)
    requires Mirrors(v, n)
    ensures NodeCount(n) == ValueCount(v)
    decreases v, 1, 0
  {
    if IsContainer(v) && n.children.Attached? {
      MirrorsChildCount(v, n, MemberCount(v));
    }
  }

  lemma {:induction false} MirrorsChildCount(v: Json, n: VNode, i: nat)
    requires Mirrors(v, n) && IsContainer(v) && n.children.Attached? && i <= MemberCount(v)
    ensures i <= |n.children.nodes|
    ensures ChildNodeCount(n, i) == MembersValueCount(v, i)
    decreases v, 0, i
  {
    if i > 0 {
      MirrorsChildCount(v, n, i - 1);
      var c := n.children.nodes[i - 1];
      if v.Obj? {
        assert v.members[i - 1] in v.members;
        MirrorsCount(v.members[i - 1].1, c);
      } else {
        assert v.items[i - 1] in v.items;
        MirrorsCount(v.items[i - 1], c);
      }
    }
  }

  /** One visual node per nested JSON value, the root container counted. */
  lemma BuildCount(v: Json, key: string, isRoot: bool)
    requires Build(v, key, isRoot).Some?
    ensures NodeCount(Build(v, key, isRoot).value) == ValueCount(v)
  {
    BuildMirrors(v, key, isRoot);
    MirrorsCount(v, Build(v, key, isRoot).value);
  }
}
