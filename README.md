# JSON visualizer: the tree builder, in Dafny

This project models the logic of a browser page that takes JSON text and can
format it, minify it, or show it as a collapsible tree (`script.js`). The model covers:

- `buildTree`, which turns a decoded JSON value into nested visual nodes;
- `renderValue`, which gives the text shown for a primitive;
- `toggleNode`, which collapses and expands one node;
- the branching of the three click handlers: empty input, parse failure, success.

Modules:

- `Wrappers` (wrappers.dfy): `Option` and `Result`.
- `JsonValue` (json.dfy): the decoded value `Json`. It is null, a boolean, a number kept as its
  printed text, a string, an array as `seq<Json>`, or an object as the
  sequence of its `(key, value)` members in enumeration order. It also
  defines `ValueCount`, the number of nested values.
- `Decimal` (decimal.dfy): the decimal text `${index}` used to label array children.
- `Render` (render.dfy): `RenderValue`, the rendering rule for primitives.
- `TreeBuilder` (tree.dfy): the visual node `VNode` with these fields:
  - its element: the root wrapper `<div>`, or an `<li>`;
  - its control: none, a spacer, or a toggle with its glyph;
  - its `key:` label;
  - its type indicator;
  - its rendered value;
  - its child list, which is attached or absent;
  - its `collapsed` class.

  The module has `Build`, the recursive specification of `buildTree`, and
  `BuildTree`, the method that runs the source's code and is proved equal
  to `Build`. Its two append loops are `BuildObjectChildren` and
  `BuildArrayChildren`. It also has `Mirrors`, the "same shape" relation
  between a value and a node, and `NodeCount`.
- `Toggling` (toggle.dfy): `Flip`, the effect of one click on the item that owns the toggle.
  `ToggleAt` applies it to the node at a path of child indices. The module
  also holds the `Consistent` invariant: each glyph matches its node's
  `collapsed` state. `AllExpanded` says that nothing is collapsed and every
  toggle shows `-`.
- `Handlers` (handlers.dfy): `Trim` (String.prototype.trim) and the `App` class. `App` holds the page
  state: the text area, the error message, what the tree container shows,
  and its `tree` class. Its methods `Format`, `Minify`, `Visualize` and
  `ToggleNode` change that state. `JSON.parse` and `JSON.stringify` are
  function parameters.
- `Scenarios` (scenarios.dfy): worked examples. They cover `{"a":1,"b":[true,null]}`, a bare `42`,
  and one toggle clicked twice.

The model follows the code in three details where a looser description of the page is possible:

- A node does not store a type or a child count.
- A primitive has no child list at all, not an empty one.
- The indicator and the `tree` class follow the code's branches for the paths the model covers. The paths where `buildTree` or `JSON.stringify` throws are listed under "Left out".

## Model

| member | source | states |
|---|---|---|
| `TreeBuilder.BuildTree` | script.js:85-188 | The imperative builder, with its `for…in` and `forEach` loops and the `hasVisibleChildren` flag, returns exactly `Build(data, keyName, isRoot)`. |
| `TreeBuilder.Build` | script.js:85-188 | A built node is the root wrapper exactly when built as root. It carries a value text exactly when the value is a primitive, and a primitive's node has no child list. The properties of `Build` are carried by the lemmas below. |
| `TreeBuilder.BuildObjectChildren` | script.js:137-146 | The `for…in` loop leaves the complete child list of the object in `childUl`. It raises `hasVisibleChildren` exactly when a child was appended. |
| `TreeBuilder.BuildArrayChildren` | script.js:147-155 | The `forEach` loop leaves the complete child list of the array in `childUl`. It raises `hasVisibleChildren` exactly when a child was appended. |
| `TreeBuilder.BuildNullIff` | script.js:90-166 | buildTree returns null if and only if the value is a primitive passed as root. |
| `TreeBuilder.TypeIndicator` | script.js:119-127 | The indicator is `{}` for objects and `[]` for arrays, whatever the item count. |
| `TreeBuilder.NonRootContainerNode` | script.js:92-130 | A non-root container is an `<li>`. It has a toggle showing `-` exactly when it has a member, otherwise a spacer. Its label is `key:` and its indicator is the fixed `{}`/`[]`. It has a toggle exactly when it has a child list, and it starts expanded. |
| `TreeBuilder.RootContainerNode` | script.js:91-130 | The root container is a plain wrapper: no control, no label, no indicator, no value. Its key is ignored. |
| `TreeBuilder.PrimitiveNode` | script.js:164-186 | A non-root primitive is a leaf: a spacer, a `key:` label, the rendered value, and no child list. |
| `TreeBuilder.BuiltChildrenLength` | script.js:137-155 | Every member contributes exactly one child, because a non-root build is never null. |
| `TreeBuilder.BuiltChildAt` | script.js:137-155 | Child `j` of the list is the node built for member `j` under member `j`'s key. |
| `TreeBuilder.ContainerChildren` | script.js:137-160 | The child list is attached exactly when the container has a member. It then has one node per member, in member order. |
| `TreeBuilder.ChildLabels` | script.js:138-154 | Object child `j` is labelled `key:`. Array child `j` is labelled with the decimal text of `j` and a colon. |
| `TreeBuilder.BuildMirrors` | script.js:85-188 | The built tree has the value's shape. Each container has one mirrored child per member and no value text. Each primitive is a leaf showing its rendered value. |
| `TreeBuilder.MirrorsCount` | script.js:137-186 | A node tree that mirrors a value has as many nodes as the value has nested values. |
| `TreeBuilder.BuildCount` | script.js:137-186 | Node count equals value count, with the root container counted. |
| `Decimal.DecimalString` | script.js:149 | An index label is a non-empty string of decimal digits. |
| `Decimal.ParseDecimalString` | script.js:149 | Reading an index label back as a number gives the index. |
| `Decimal.DecimalStringInjective` | script.js:148-149 | Distinct array indices get distinct labels. |
| `Decimal.LeadingDigit` | script.js:149 | An index label starts with `0` only for index 0. |
| `Render.RenderValue` | script.js:196-217 | `null` renders as `null`. A boolean renders as `true` exactly when it is true, and as `false` exactly when it is false. A string renders as its text between a pair of double quotes, with nothing escaped, and dropping the quotes gives the string back. Injectivity is in `RenderValueInjective`. |
| `Render.RenderValueInjective` | script.js:201-215 | Two primitives that render to the same text are equal. |
| `Toggling.Flip` | script.js:232-235 | A click changes only the owning node's `collapsed` flag and glyph. The node's label, indicator, value and child list stay the same. |
| `Toggling.FlipTwice` | script.js:233-234 | On an in-step node, a click flips `collapsed`, shows `+` when collapsed and `-` when expanded, and keeps the node in step. Two clicks give the node back. |
| `Toggling.FlipWithoutList` | script.js:230-232 | Without a direct child list, a click changes nothing. |
| `Toggling.BuildConsistent` | script.js:96-110 | A freshly built tree is consistent: every toggle has a child list and a glyph in step with its flag. The whole tree is also `AllExpanded`: no node is collapsed and every toggle shows `-`. |
| `Toggling.ToggleAt` | script.js:223-237 | After a click, the clicked path still leads to a toggle, and the node there is `Flip` of the old one. Below the root, the root's own state and its number of children are unchanged. Two clicks restoring the tree is `ToggleAtTwice`; the state of other nodes is `ToggleAtElsewhere`. |
| `Toggling.ToggleAtTarget` | script.js:223-235 | After a click, the clicked node is flipped and its children are untouched. |
| `Toggling.ToggleAtElsewhere` | script.js:223-236 | After a click, every other node keeps its own state, so the click reaches no ancestor's toggle. |
| `Toggling.ToggleAtConsistent` | script.js:232-234 | Clicking keeps the glyph of every node in step with its `collapsed` flag. |
| `Toggling.ToggleAtTwice` | script.js:223-237 | Clicking the same toggle twice restores the tree exactly. |
| `Toggling.ToggleAtMirrors` | script.js:223-237 | After a click the tree still mirrors the same JSON value, because only display state changes. |
| `Handlers.Trim` | script.js:13 | The trimmed text is no longer than the input and neither starts nor ends with white space. The exact slice is `TrimIsCore`. |
| `Handlers.TrimStart` | script.js:13 | The result is the suffix of the input left after its leading white space. |
| `Handlers.TrimEnd` | script.js:13 | The result is the prefix of the input left before its trailing white space. |
| `Handlers.TrimEmptyIff` | script.js:13-14 | The trimmed input is empty exactly when the input is all white space. |
| `Handlers.TrimIsCore` | script.js:13 | The trimmed text is the slice between the leading and trailing white space. It neither starts nor ends with white space. |
| `Handlers.App.Reencode` | script.js:11-43 | This holds when `JSON.stringify` does not throw (see "Left out"). It is the shared body of the format and minify handlers. Empty input sets the "nothing to" message and leaves the input unchanged. A parse failure sets the "Invalid JSON" message and leaves the input unchanged. Success replaces the input with the re-serialised value and clears the message. The tree display is never touched. |
| `Handlers.App.Format` | script.js:11-26 | Format handler: the messages `Textarea is empty. Nothing to format.` and `Invalid JSON: Cannot format. <parser message>`. On success the input becomes the indented serialisation. |
| `Handlers.App.Minify` | script.js:28-43 | Minify handler: the messages `Textarea is empty. Nothing to minify.` and `Invalid JSON: Cannot minify. <parser message>`. On success the input becomes the compact serialisation. |
| `Handlers.App.Visualize` | script.js:45-74 | This holds when neither `buildTree` nor `renderValue` throws (see "Left out"). The input is never changed. On empty input or a parse failure the container is empty and unstyled and the matching message is set. On success the `tree` class is set and a container shows `Build(v, "root", true)`. A primitive shows its rendered text with no tree. |
| `Handlers.App.ShowParsed` | script.js:58-68 | This is the successful branch of Visualize. It sets the `tree` class. A container shows its tree built as root, and the shown value is recorded. A primitive shows its rendered text. The page invariant holds afterwards, and the input and message are kept. |
| `Handlers.App.ToggleNode` | script.js:223-237 | A click on a displayed toggle replaces the tree with `ToggleAt` of it. It keeps the page invariant: the tree is consistent and mirrors the shown value. Nothing else changes. |
| `Scenarios.SampleBuild` | script.js:85-188 | `{"a":1,"b":[true,null]}` gives a root wrapper with rows `a: 1` and `b: []`. Row `b` has a `-` toggle and children `0: true` and `1: null`. |
| `Scenarios.BareNumber` | script.js:59-67 | A bare `42` builds no tree and is shown as the text `42`. |
| `Scenarios.SampleToggle` | script.js:223-237 | Clicking `b`'s toggle collapses `b` and shows `+` with `b`'s children untouched. Clicking again restores the tree. |

## Left out

- DOM construction: `createElement`, the inline styles and CSS class names. The value-kind classes and the alignment spacer's width are among them. The model keeps only abstract element, control, label, indicator and value tags.
- `JSON.parse` and `JSON.stringify`: library code that is not part of this model. The handlers take them as functions, and the formatted or minified text and its round trip are not modelled.
- Object key order and duplicate keys: an object is the member sequence in the order the parser and `for…in` deliver it. ECMAScript's rule that integer-like keys come first is not modelled. The `hasOwnProperty` filter is not modelled either, since every key of a parsed object is its own.
- Number-to-text conversion: a number is kept as its printed text. IEEE-754 doubles are not modelled.
- Render.RenderValue: the `String(value)` fallback branch is not modelled. No decoded JSON value reaches it. The function requires a primitive, because no caller passes a container.
- Render.RenderValueInjective: stated only for primitives whose number text has the form JavaScript prints: a sign, a digit, `Infinity` or `NaN` first.
- Toggling.Flip: requires the node to show a toggle, because the click handler is attached only to toggle spans.
- Event plumbing is not modelled: event wiring, `closest`/`querySelector`, `stopPropagation` and `console.error`. Instead, the clicked node is addressed by its path from the root. "No propagation" is stated as "no other node changes" in `ToggleAtElsewhere`.
- The `paddingLeft` of the bare-primitive container is not modelled; only the rendered text is kept.
- Handlers.App.Visualize: does not model a throw from `buildTree` or `renderValue` inside the `try` block (script.js:56-69). Such a throw would reach the catch at script.js:70-73 after the `tree` class was set at line 58. The likely cause is a RangeError from the recursion on deeply nested but valid JSON. The page would then show "Invalid JSON: Cannot visualize. …" with the `tree` class still set and an empty container. The model's recursion is unbounded, so its contract instead promises a cleared message and a displayed result (the tree, or the bare primitive's text) on every successful parse.
- Handlers.App.Format: `JSON.stringify` (script.js:21) is taken as a total function. A throw from it would reach the catch and set "Invalid JSON: Cannot format. …" with the input unchanged, and that path is not modelled.
- Handlers.App.Minify: `JSON.stringify` (script.js:38) is taken as a total function. A throw from it would reach the catch and set "Invalid JSON: Cannot minify. …" with the input unchanged, and that path is not modelled.
- Handlers.App.ShowParsed: has the same gap as Visualize, since this is where `buildTree` and `renderValue` run.
- Handlers.App.Reencode: this shared body of Format and Minify takes the serializer as a total function, so it has the same gap.
