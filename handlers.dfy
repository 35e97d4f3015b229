/**
 * The three click handlers (Format, Minify, Visualize) and the toggle click,
 * acting on the page state: the text area, the error message, the tree
 * container and its `tree` class. JSON.parse and JSON.stringify are passed in
 * as functions; only the branching around them is modelled.
 */
module Handlers {
  import opened Wrappers
  import opened JsonValue
  import opened TreeBuilder
  import opened Toggling
  import Render

  /** White space and line terminators that String.prototype.trim removes. */
  predicate IsTrimmable(c: char) {
    var x := c as int;
    x == 0x09 || x == 0x0A || x == 0x0B || x == 0x0C || x == 0x0D || x == 0x20 ||
    x == 0xA0 || x == 0x1680 || (0x2000 <= x <= 0x200A) || x == 0x2028 || x == 0x2029 ||
    x == 0x202F || x == 0x205F || x == 0x3000 || x == 0xFEFF
  }

  /** `s` without its leading white space. */
  function TrimStart(s: string): (r: string)
    ensures |r| <= |s| && r == s[|s| - |r|..]
    ensures forall k :: 0 <= k < |s| - |r| ==> IsTrimmable(s[k])
    ensures r != [] ==> !IsTrimmable(r[0])
    decreases |s|
  {
    if s != [] && IsTrimmable(s[0]) then TrimStart(s[1..]) else s
  }

  /** `s` without its trailing white space. */
  function TrimEnd(s: string): (r: string)
    ensures |r| <= |s| && r == s[..|r|]
    ensures forall k :: |r| <= k < |s| ==> IsTrimmable(s[k])
    ensures r != [] ==> !IsTrimmable(r[|r| - 1])
    decreases |s|
  {
    if s != [] && IsTrimmable(s[|s| - 1]) then TrimEnd(s[..|s| - 1]) else s
  }

  /** `s.trim()`. */
  function Trim(s: string): (r: string)
    ensures |r| <= |s|
    ensures r != [] ==> !IsTrimmable(r[0]) && !IsTrimmable(r[|r| - 1])
  {
    TrimEnd(TrimStart(s))
  }

  /** The trimmed text is empty exactly when the input holds nothing but white space. */
  lemma TrimEmptyIff(s: string)
    ensures Trim(s) == [] <==> forall k :: 0 <= k < |s| ==> IsTrimmable(s[k])
  {
  }

  /**
   * The trimmed text is the slice of the input between its leading and its
   * trailing white space, and neither starts nor ends with white space.
   */
  lemma TrimIsCore(s: string)
    ensures var r, i := Trim(s), |s| - |TrimStart(s)|;
      i + |r| <= |s| && r == s[i..i + |r|] &&
      (forall k :: 0 <= k < i ==> IsTrimmable(s[k])) &&
      (forall k :: i + |r| <= k < |s| ==> IsTrimmable(s[k])) &&
      (r != [] ==> !IsTrimmable(r[0]) && !IsTrimmable(r[|r| - 1]))
  {
    var t := TrimStart(s);
    var r := TrimEnd(t);
    var i := |s| - |t|;
    assert r == t[..|r|] == s[i..][..|r|] == s[i..i + |r|];
    forall k | i + |r| <= k < |s| ensures IsTrimmable(s[k]) {
      assert s[k] == t[k - i];
    }
  }

  function EmptyMessage(verb: string): string {
    "Textarea is empty. Nothing to " + verb + "."
  }

  function DecodeErrorMessage(verb: string, parserMessage: string): string {
    "Invalid JSON: Cannot " + verb + ". " + parserMessage
  }

  /** What the tree container shows. */
  datatype Display =
    | Blank
    | TreeShown(root: VNode)
    | PrimitiveShown(text: string)

  /** The page: text area, error message, tree container and its `tree` class. */
  class App {
    var input: string
    var errorMsg: string
    var display: Display
    var treeStyled: bool
    /** The value the displayed tree was built from. */
    ghost var shown: Json

    /** A displayed tree has the shape of the value it shows and its toggles are in step. */
    ghost predicate Valid()
      reads this
    {
      display.TreeShown? ==> Consistent(display.root) && Mirrors(shown, display.root)
    }

    constructor (text: string)
      ensures Valid()
      ensures input == text && errorMsg == "" && display == Blank && !treeStyled
    {
      input := text;
      errorMsg := "";
      display := Blank;
      treeStyled := false;
      shown := Null;
    }

    /**
     * Shared body of the Format and Minify handlers: re-serialise the parsed
     * text with `serialize`, or report why nothing was done.
     */
    method Reencode(verb: string, parse: string -> Result<Json, string>, serialize: Json -> string)
      requires Valid()
      modifies this
      ensures Valid()
      ensures display == old(display) && treeStyled == old(treeStyled) && shown == old(shown)
      ensures Trim(old(input)) == [] ==>
        input == old(input) && errorMsg == EmptyMessage(verb)
      ensures Trim(old(input)) != [] && parse(Trim(old(input))).Failure? ==>
        input == old(input) && errorMsg == DecodeErrorMessage(verb, parse(Trim(old(input))).error)
      ensures Trim(old(input)) != [] && parse(Trim(old(input))).Success? ==>
        input == serialize(parse(Trim(old(input))).value) && errorMsg == ""
    {
      errorMsg := "";
      var jsonString := Trim(input);
      if jsonString == [] {
        errorMsg := EmptyMessage(verb);
        return;
      }
      var parsed := parse(jsonString);
      match parsed
      case Success(jsonData) =>
        input := serialize(jsonData);
      case Failure(message) =>
        errorMsg := DecodeErrorMessage(verb, message);
    }

    /** Format: `indented` stands for JSON.stringify with a 2-space indent. */
    method Format(parse: string -> Result<Json, string>, indented: Json -> string)
      requires Valid()
      modifies this
      ensures Valid()
      ensures display == old(display) && treeStyled == old(treeStyled) && shown == old(shown)
      ensures Trim(old(input)) == [] ==>
        input == old(input) && errorMsg == "Textarea is empty. Nothing to format."
      ensures Trim(old(input)) != [] && parse(Trim(old(input))).Failure? ==>
        input == old(input) &&
        errorMsg == "Invalid JSON: Cannot format. " + parse(Trim(old(input))).error
      ensures Trim(old(input)) != [] && parse(Trim(old(input))).Success? ==>
        input == indented(parse(Trim(old(input))).value) && errorMsg == ""
    {
      assert EmptyMessage("format") == "Textarea is empty. Nothing to format.";
      assert forall e :: DecodeErrorMessage("format", e) == "Invalid JSON: Cannot format. " + e;
      Reencode("format", parse, indented);
    }

    /** Minify: `compact` stands for JSON.stringify with no extra arguments. */
    method Minify(parse: string -> Result<Json, string>, compact: Json -> string)
      requires Valid()
      modifies this
      ensures Valid()
      ensures display == old(display) && treeStyled == old(treeStyled) && shown == old(shown)
      ensures Trim(old(input)) == [] ==>
        input == old(input) && errorMsg == "Textarea is empty. Nothing to minify."
      ensures Trim(old(input)) != [] && parse(Trim(old(input))).Failure? ==>
        input == old(input) &&
        errorMsg == "Invalid JSON: Cannot minify. " + parse(Trim(old(input))).error
      ensures Trim(old(input)) != [] && parse(Trim(old(input))).Success? ==>
        input == compact(parse(Trim(old(input))).value) && errorMsg == ""
    {
      assert EmptyMessage("minify") == "Textarea is empty. Nothing to minify.";
      assert forall e :: DecodeErrorMessage("minify", e) == "Invalid JSON: Cannot minify. " + e;
      Reencode("minify", parse, compact);
    }

    /**
     * Visualize: clear the container and the message, then show the tree
     * of the parsed value, or, for a bare primitive, its rendered text.
     */
    method Visualize(parse: string -> Result<Json, string>)
      requires Valid()
      modifies this
      ensures Valid()
      ensures input == old(input)
      ensures Trim(input) == [] ==>
        errorMsg == "Textarea is empty. Nothing to visualize." && display == Blank && !treeStyled
      ensures Trim(input) != [] && parse(Trim(input)).Failure? ==>
        errorMsg == "Invalid JSON: Cannot visualize. " + parse(Trim(input)).error &&
        display == Blank && !treeStyled
      ensures Trim(input) != [] && parse(Trim(input)).Success? ==>
        var v := parse(Trim(input)).value;
        errorMsg == "" && treeStyled &&
        (IsContainer(v) ==> display == TreeShown(Build(v, "root", true).value) && shown == v) &&
        (!IsContainer(v) ==> display == PrimitiveShown(Render.RenderValue(v)))
    {
      assert EmptyMessage("visualize") == "Textarea is empty. Nothing to visualize.";
      assert forall e :: DecodeErrorMessage("visualize", e) == "Invalid JSON: Cannot visualize. " + e;
      display := Blank;
      errorMsg := "";
      treeStyled := false;
      var jsonString := Trim(input);
      if jsonString == [] {
        errorMsg := EmptyMessage("visualize");
        return;
      }
      var parsed := parse(jsonString);
      match parsed
      case Failure(message) =>
        errorMsg := DecodeErrorMessage("visualize", message);
      case Success(jsonData) =>
        ShowParsed(jsonData);
    }

    /** The successful branch of Visualize: style the container and show the tree or the bare primitive. */
    method ShowParsed(data: Json)
      modifies this
      ensures Valid()
      ensures input == old(input) && errorMsg == old(errorMsg) && treeStyled
      ensures IsContainer(data) ==> display == TreeShown(Build(data, "root", true).value) && shown == data
      ensures !IsContainer(data) ==> display == PrimitiveShown(Render.RenderValue(data))
    {
      treeStyled := true;
      var rootElement := BuildTree(data, "root", true);
      if rootElement.Some? {
        BuildConsistent(data, "root", true);
        BuildMirrors(data, "root", true);
        display := TreeShown(rootElement.value);
        shown := data;
      } else {
        display := PrimitiveShown(Render.RenderValue(data));
      }
    }

    /** A click on the toggle at `path` of the displayed tree. */
    method ToggleNode(path: seq<nat>)
      requires Valid() && display.TreeShown? && IsToggleTarget(display.root, path)
      modifies this
      ensures Valid()
      ensures display == TreeShown(ToggleAt(old(display.root), path))
      ensures input == old(input) && errorMsg == old(errorMsg) && treeStyled == old(treeStyled)
      ensures shown == old(shown)
    {
      ToggleAtConsistent(display.root, path);
      ToggleAtMirrors(shown, display.root, path);
      display := TreeShown(ToggleAt(display.root, path));
    }
  }
}
