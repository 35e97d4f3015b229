/**
 * toggleNode: a click on a toggle flips the `collapsed` class of the item
 * that owns it and the toggle's glyph, provided that item has a child list.
 * A node of the displayed tree is addressed by the path of child indices
 * leading to it from the root.
 */
module Toggling {
  import opened Wrappers
  import opened JsonValue
  import opened TreeBuilder

  /** The node at `path` below `n`, if the path leads anywhere. */
  function Lookup(n: VNode, path: seq<nat>): (found: Option<VNode>)
    decreases |path|
  {
    if path == [] then Some(n)
    else if n.children.Attached? && path[0] < |n.children.nodes| then
      Lookup(n.children.nodes[path[0]], path[1..])
    else None
  }

  /** `path` leads to a node that shows a toggle, the only place a click handler is attached. */
  predicate IsToggleTarget(n: VNode, path: seq<nat>) {
    Lookup(n, path).Some? && Lookup(n, path).value.control.Toggle?
  }

  /** The glyph a toggle shows for a collapsed state: `+` when collapsed, `-` when expanded. */
  function GlyphFor(collapsed: bool): string {
    if collapsed then CollapsedGlyph else ExpandedGlyph
  }

  /** toggleNode on the item owning the clicked toggle: acts only when the item has a child list. */
  function Flip(n: VNode): (m: VNode)
    requires n.control.Toggle?
    ensures m.children == n.children && m.element == n.element && m.keyLabel == n.keyLabel
    ensures m.indicator == n.indicator && m.value == n.value
    ensures m.control.Toggle?
  {
    if n.children.Attached? then
      var isCollapsed := !n.collapsed;
      n.(collapsed := isCollapsed, control := Toggle(GlyphFor(isCollapsed)))
    else
      n
  }

  /** The tree after a click on the toggle at `path`; the click goes no further. */
  function ToggleAt(n: VNode, path: seq<nat>): (r: VNode)
    requires IsToggleTarget(n, path)
    ensures IsToggleTarget(r, path)
    ensures Lookup(r, path) == Some(Flip(Lookup(n, path).value))
    ensures path != [] ==> SameOwnState(r, n) && |r.children.nodes| == |n.children.nodes|
    decreases |path|
  {
    if path == [] then Flip(n)
    else
      var cs := n.children.nodes;
      var k := path[0];
      n.(children := Attached(cs[k := ToggleAt(cs[k], path[1..])]))
  }

  /**
   * A node's own display state is in step: a toggle has a child list and
   * shows the glyph of its `collapsed` state; a node without a toggle is
   * never collapsed.
   */
  predicate InStep(n: VNode) {
    if n.control.Toggle? then n.children.Attached? && n.control.glyph == GlyphFor(n.collapsed)
    else !n.collapsed
  }

  /** Every node of the tree is in step. */
  ghost predicate Consistent(n: VNode)
    decreases n
  {
    InStep(n) &&
    (n.children.Attached? ==>
      forall j :: 0 <= j < |n.children.nodes| ==> Consistent(n.children.nodes[j]))
  }

  /** The fields of a node other than its child list. */
  predicate SameOwnState(a: VNode, b: VNode) {
    a.element == b.element && a.control == b.control && a.keyLabel == b.keyLabel &&
    a.indicator == b.indicator && a.value == b.value && a.collapsed == b.collapsed
  }

  // ---------------------------------------------------------------------

  /** Nothing in the tree is collapsed and every toggle shows the expanded glyph. */
  ghost predicate AllExpanded(n: VNode)
    decreases n
  {
    !n.collapsed && (n.control.Toggle? ==> n.control.glyph == ExpandedGlyph) &&
    (n.children.Attached? ==>
      forall j :: 0 <= j < |n.children.nodes| ==> AllExpanded(n.children.nodes[j]))
  }

  /**
   * A freshly built tree is consistent and fully expanded: every toggle has
   * a child list and shows `-`, and nothing is collapsed.
   */
  lemma {:induction false} BuildConsistent(v: Json, key: string, isRoot: bool)
    requires Build(v, key, isRoot).Some?
    ensures Consistent(Build(v, key, isRoot).value)
    ensures AllExpanded(Build(v, key, isRoot).value)
    decreases v
  {
    var n := Build(v, key, isRoot).value;
    if IsContainer(v) {
      ContainerChildren(v, key, isRoot);
      if !isRoot {
        NonRootContainerNode(v, key);
      }
      if n.children.Attached? {
        forall j | 0 <= j < |n.children.nodes|
          ensures Consistent(n.children.nodes[j]) && AllExpanded(n.children.nodes[j])
        {
          assert Member(v, j) < v by {
            if v.Obj? { assert v.members[j] in v.members; } else { assert v.items[j] in v.items; }
          }
          BuildConsistent(Member(v, j), MemberKey(v, j), false);
        }
      }
    }
  }

  /** Flipping an in-step node twice gives it back; flipping keeps it in step and changes its state. */
  lemma FlipTwice(n: VNode)
    requires n.control.Toggle? && InStep(n)
    ensures InStep(Flip(n))
    ensures Flip(n).collapsed == !n.collapsed
    ensures Flip(n).control == Toggle(GlyphFor(!n.collapsed))
    ensures Flip(Flip(n)) == n
  {
  }

  /** Without a child list the click changes nothing. */
  lemma FlipWithoutList(n: VNode)
    requires n.control.Toggle? && n.children.Absent?
    ensures Flip(n) == n
  {
  }

  /** The node at the clicked path is flipped; its children are untouched. */
  lemma {:induction false} ToggleAtTarget(n: VNode, path: seq<nat>)
    requires IsToggleTarget(n, path)
    ensures Lookup(ToggleAt(n, path), path) == Some(Flip(Lookup(n, path).value))
    ensures Lookup(ToggleAt(n, path), path).value.children == Lookup(n, path).value.children
    decreases |path|
  {
    if path != [] {
      ToggleAtTarget(n.children.nodes[path[0]], path[1..]);
    }
  }

  /** Every other node keeps its own state: the click does not reach ancestors or siblings. */
  lemma {:induction false} ToggleAtElsewhere(n: VNode, path: seq<nat>, other: seq<nat>)
    requires IsToggleTarget(n, path) && other != path && Lookup(n, other).Some?
    ensures Lookup(ToggleAt(n, path), other).Some?
    ensures SameOwnState(Lookup(ToggleAt(n, path), other).value, Lookup(n, other).value)
    decreases |path|
  {
    var m := ToggleAt(n, path);
    if path == [] {
      assert m.children == n.children;
      assert other[0] < |n.children.nodes|;
      assert Lookup(m, other) == Lookup(n, other);
    } else if other != [] {
      var k, j := path[0], other[0];
      var cs := n.children.nodes;
      if k == j {
        assert path == [k] + path[1..] && other == [j] + other[1..];
        ToggleAtElsewhere(cs[k], path[1..], other[1..]);
      } else {
        assert m.children.nodes[j] == cs[j];
      }
    }
  }

  /** Toggling keeps every node in step. */
  lemma {:induction false} ToggleAtConsistent(n: VNode, path: seq<nat>)
    requires IsToggleTarget(n, path) && Consistent(n)
    ensures Consistent(ToggleAt(n, path))
    decreases |path|
  {
    if path == [] {
      FlipTwice(n);
    } else {
      var cs := n.children.nodes;
      var k := path[0];
      ToggleAtConsistent(cs[k], path[1..]);
      var m := ToggleAt(n, path);
      forall j | 0 <= j < |m.children.nodes|
        ensures Consistent(m.children.nodes[j])
      {
        if j != k { assert m.children.nodes[j] == cs[j]; }
      }
    }
  }

  /** Clicking the same toggle twice restores the tree exactly. */
  lemma {:induction false} ToggleAtTwice(n: VNode, path: seq<nat>)
    requires IsToggleTarget(n, path) && Consistent(n)
    ensures IsToggleTarget(ToggleAt(n, path), path)
    ensures ToggleAt(ToggleAt(n, path), path) == n
    decreases |path|
  {
    ToggleAtTarget(n, path);
    if path == [] {
      FlipTwice(n);
    } else {
      var cs := n.children.nodes;
      var k := path[0];
      ToggleAtTwice(cs[k], path[1..]);
      var m := ToggleAt(n, path);
      assert m.children.nodes[k := ToggleAt(m.children.nodes[k], path[1..])] == cs;
    }
  }

  /** Toggling changes display state only: the tree still mirrors the same JSON value. */
  lemma {:induction false} ToggleAtMirrors(v: Json, n: VNode, path: seq<nat>)
    requires IsToggleTarget(n, path) && Mirrors(v, n)
    ensures Mirrors(v, ToggleAt(n, path))
    decreases |path|
  {
    if path != [] {
      var cs := n.children.nodes;
      var k := path[0];
      var m := ToggleAt(n, path);
      assert IsContainer(v);
      assert Member(v, k) < v by {
        if v.Obj? { assert v.members[k] in v.members; } else { assert v.items[k] in v.items; }
      }
      assert Mirrors(Member(v, k), cs[k]);
      ToggleAtMirrors(Member(v, k), cs[k], path[1..]);
      forall j | 0 <= j < MemberCount(v)
        ensures Mirrors(Member(v, j), m.children.nodes[j])
      {
        if j != k { assert m.children.nodes[j] == cs[j]; }
      }
    }
  }
}
