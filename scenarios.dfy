/** Worked examples: the tree for `{"a":1,"b":[true,null]}`, a bare `42`, and a toggle clicked twice. */
module Scenarios {
  import opened Wrappers
  import opened JsonValue
  import opened TreeBuilder
  import opened Toggling
  import Render

  function SampleValue(): Json {
    Obj([("a", Num("1")), ("b", Arr([Bool(true), Null]))])
  }

  function SampleTree(): VNode {
    VNode(Wrapper, NoControl, None, None, None, Attached([
      VNode(Item, Spacer, Some("a:"), None, Some("1"), Absent, false),
      VNode(Item, Toggle("-"), Some("b:"), Some("[]"), None, Attached([
        VNode(Item, Spacer, Some("0:"), None, Some("true"), Absent, false),
        VNode(Item, Spacer, Some("1:"), None, Some("null"), Absent, false)]), false)]), false)
  }

  /** The root wraps two rows, `a: 1` and `b: []`, and `b` holds `0: true` and `1: null`. */
  lemma SampleBuild()
    ensures Build(SampleValue(), "root", true) == Some(SampleTree())
  {
    var v := SampleValue();
    var b := Arr([Bool(true), Null]);
    var yes := VNode(Item, Spacer, Some("0:"), None, Some("true"), Absent, false);
    var nothing := VNode(Item, Spacer, Some("1:"), None, Some("null"), Absent, false);
    var one := VNode(Item, Spacer, Some("a:"), None, Some("1"), Absent, false);
    var list := VNode(Item, Toggle("-"), Some("b:"), Some("[]"), None, Attached([yes, nothing]), false);
    assert Decimal.DecimalString(0) == "0" && Decimal.DecimalString(1) == "1";
    assert KeyLabel("0") == "0:" && KeyLabel("1") == "1:";
    assert KeyLabel("a") == "a:" && KeyLabel("b") == "b:";
    assert Build(Bool(true), "0", false) == Some(yes);
    assert Build(Null, "1", false) == Some(nothing);
    assert BuiltChildren(b, 1) == [yes];
    assert BuiltChildren(b, 2) == [yes, nothing];
    assert Build(b, "b", false) == Some(list);
    assert Build(Num("1"), "a", false) == Some(one);
    assert BuiltChildren(v, 1) == [one];
    assert BuiltChildren(v, 2) == [one, list];
  }

  /** A bare number at the top level builds no tree and is shown as its own text. */
  lemma BareNumber()
    ensures Build(Num("42"), "root", true).None?
    ensures Render.RenderValue(Num("42")) == "42"
  {
  }

  /** Clicking the toggle of `b` collapses it and shows `+`; clicking again restores the tree. */
  lemma SampleToggle()
    ensures IsToggleTarget(SampleTree(), [1])
    ensures var once := ToggleAt(SampleTree(), [1]);
      Lookup(once, [1]).Some? &&
      Lookup(once, [1]).value.collapsed &&
      Lookup(once, [1]).value.control == Toggle("+") &&
      Lookup(once, [1]).value.children == Lookup(SampleTree(), [1]).value.children &&
      IsToggleTarget(once, [1]) &&
      ToggleAt(once, [1]) == SampleTree()
  {
  }
}
