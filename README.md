# r-model, class and style compilation in react-template-compiler

This project models, in Dafny, four pieces of the template compiler's web
platform.

- **The `r-model` directive helpers** (`src/directives/model.js`):
  - `parseModel` splits a model path such as `user.profile[name]` into a base
    expression (`user.profile`) and a list of tokens (`"user"`, `"profile"`,
    `name`).
  - `genAssignmentCode` turns a path and a value expression into the code that
    stores the value: a plain assignment, `$set(obj, key, v)`, or
    `$set(state, [keys], v)`.
  - `genComponentModel` records the `value`, `expression` and `callback` of a
    component's two-way binding on the element.
- **The `preTransformNode` hook of the web model module**
  (`src/platforms/web/modules/model.js`). It rewrites
  `<input r-model=… :type=…>` into three clones chained as an
  if / else-if / else group: a checkbox input, a radio input, and an input that
  keeps the dynamic type.
- **The class module** (`src/platforms/web/modules/class.js`). `transformNode`
  moves the static `class` and the `:class` binding into element fields.
  `genData` emits the `className:`/`class:` entry of the render data object.
- **The style module** (`src/platforms/web/modules/style.js`). It does the same
  for `style`, with `_rs` merging and object-literal merging.

The files:

- `js.dfy` (module `Js`) holds the JavaScript notions the code relies on:
  truthiness of an optional string, `JSON.stringify` of a string, `trim`,
  `slice`, `startsWith`/`endsWith`, and the exceptions the code can throw.
- `ast.dfy` (module `Ast`) holds the element record (a class whose fields the
  hooks update) and the parser helpers the hooks call on it
  (`getAndRemoveAttr`, `getBindingAttr`, `addRawAttr`, `addIfCondition`,
  `processFor`, `createASTElement`).
- `model_directive.dfy` (module `ModelDirective`):
  - `parseModel` is a method whose scanning loop is proved equal to a left fold
    of one step function.
  - A grammar of model paths (`ModelPath`: a root name followed by `.name` and
    `[key]` steps) is rendered to text. The main theorem states what
    `parseModel` returns for the text of any path.
- `web_model.dfy` (module `WebModel`): `preTransformNode` and
  `cloneASTElement`, as methods over the element objects.
- `class_module.dfy` (module `ClassModule`) and `style_module.dfy` (module
  `StyleModule`).

Where the unit tests' expected output disagrees with the module code, the model
follows the code:

- `spec/unit/codegen.spec.js:211-222` expects `staticClass:"class1"` and
  `class:class1` for a `<p>`. The class module emits `className:"class1",` and
  `className:_rc(class1),`.
- `spec/unit/codegen.spec.js:224-229` expects `style:(error)`. The style
  module emits `style:(_rs(error)),`.

Parameter `keyDots` of the parsing functions selects how a `.` inside brackets
is read:

- `false` is the code as written. The dot ends a segment even inside brackets.
- `true` is the reading the parser's doc comment describes (nested keys such as
  `xxx.test[a[a].test1[key]]`). The dot stays part of the key.

The rest of the compiler uses the as-written reading.

## Model

| member | source | states |
|---|---|---|
| ModelDirective.Finish | src/directives/model.js:112-127 | After the loop: the call throws exactly when no token was pushed and no trailing text is left; otherwise there is at least one token and `exp` is a prefix of the trimmed value |
| ModelDirective.ParseWith | src/directives/model.js:70-78 | A trimmed value with no `.`, `[` or `]` is its own `exp` and only token; any successful result has a token and an `exp` that is a prefix of the trimmed value |
| ModelDirective.ParseModel | src/directives/model.js:70-128 | The method (trim, plain-name shortcut, scanning loop, finishing code) returns exactly the specification `ParsedModel` |
| ModelDirective.ScanLoop | src/directives/model.js:80-110 | The scanning loop's final tokens, segment start and bracket depth equal the fold of the step function over the whole value |
| ModelDirective.StepPlain | src/directives/model.js:84-110 | A character that is not `.`, `[` or `]` changes nothing |
| ModelDirective.StepNested | src/directives/model.js:91-109 | Inside brackets, a `[` or a `]` that leaves the bracket open only moves the depth (and so does a dot when dots stay in keys) |
| ModelDirective.StepDot | src/directives/model.js:85-90 | A `.` (outside brackets, or anywhere as written) pushes the quoted pending segment unless a `]` precedes it, and starts a new segment after it |
| ModelDirective.StepOpen | src/directives/model.js:91-101 | At depth 0, a `[` pushes the pending segment (quoted unless a `]` precedes it) when non-empty, and opens a key |
| ModelDirective.StepClose | src/directives/model.js:102-109 | A `]` that returns to depth 0 pushes the raw key text and starts a new segment |
| ModelDirective.ScanAgree | src/directives/model.js:84-110 | The first n iterations of the loop depend only on the first n characters |
| ModelDirective.ScanPlain | src/directives/model.js:84-110 | Scanning a run of plain characters leaves the state unchanged |
| ModelDirective.ScanNested | src/directives/model.js:91-109 | Inside an open bracket, a run that never closes it (and, as written, has no dot) pushes no token, keeps the start and moves the depth by its bracket balance |
| ModelDirective.PathSyntax | src/directives/model.js:73 | The text of a path contains `.`, `[` or `]` exactly when the path has at least one step |
| ModelDirective.ParseWithPath | src/directives/model.js:70-128 | On the text of any readable path, the result is the path without its last step as `exp`, and the quoted root followed by each step's key (quoted after a dot, raw in brackets) as `tokens` |
| ModelDirective.ParseModelPath | src/directives/model.js:70-128 | parseModel as written splits every path whose keys contain no dot in this way |
| ModelDirective.ParseModelIntendedPath | src/directives/model.js:50-63 | With dots kept inside keys, every well-formed path (including the nested keys the doc comment lists) splits in this way |
| ModelDirective.ParseModelRebuilds | src/directives/model.js:116-127 | The split loses nothing: `exp + "[" + last + "]"` (input ending in `]`) or `exp + "." + unquoted last` is the trimmed input again |
| ModelDirective.OneStep | src/directives/model.js:116-127 | A one-step path reads as its root and one step, with the root as base expression and two tokens |
| ModelDirective.TwoSteps | src/directives/model.js:116-127 | A two-step path has the one-step prefix as base expression and three tokens |
| ModelDirective.ExampleBareName | spec/unit/parse-model.spec.js:4-9 | `value` gives exp `value` and tokens `[value]` |
| ModelDirective.ExampleMember | spec/unit/parse-model.spec.js:12-15 | `user.name` gives exp `user` and tokens `"user"`, `"name"` (also lines 39-42) |
| ModelDirective.ExampleIndex | spec/unit/parse-model.spec.js:17-20 | `user[name]` gives exp `user` and tokens `"user"`, `name` (also lines 44-47) |
| ModelDirective.ExampleMemberIndex | spec/unit/parse-model.spec.js:22-25 | `user.profile[name]` gives exp `user.profile` and tokens `"user"`, `"profile"`, `name` (also lines 49-52) |
| ModelDirective.ExampleIndexMember | spec/unit/parse-model.spec.js:27-30 | `user[key].name` gives exp `user[key]` and tokens `"user"`, `key`, `"name"` (also lines 54-57) |
| ModelDirective.ExampleIndexIndex | spec/unit/parse-model.spec.js:32-35 | `user[key][name]` gives exp `user[key]` and tokens `"user"`, `key`, `name` (also lines 59-62) |
| ModelDirective.ScanDottedKey | src/directives/model.js:85-90 | As written, scanning `a[b.c]` pushes `"a"`, then `"b"` at the inner dot, then `c` at the closing bracket |
| ModelDirective.ScanDottedKeyIntended | src/directives/model.js:102-109 | With dots kept in keys, scanning `a[b.c]` pushes `"a"` and then the whole key `b.c` |
| ModelDirective.ParseModelSplitsDottedKey | src/directives/model.js:85-90 | As written, `a[b.c]` parses to exp `a[b` and tokens `"a"`, `"b"`, `c` |
| ModelDirective.ParseModelIntendedKeepsDottedKey | src/directives/model.js:60-61 | With dots kept in keys, `a[b.c]` parses to exp `a` and tokens `"a"`, `b.c` |
| ModelDirective.GenAssignmentCode | src/directives/model.js:36-48 | genAssignmentCode throws exactly when parseModel throws |
| ModelDirective.AssignBareName | src/directives/model.js:41-42 | A value without path syntax is assigned directly, untrimmed: `value=assignment` |
| ModelDirective.AssignThroughParent | src/directives/model.js:45-46 | For a path not starting with `state.`: `$set(<path minus last step>, <last step's key>, assignment)` |
| ModelDirective.AssignThroughState | src/directives/model.js:43-44 | For a path starting with `state.`: `$set(state, [<every step's key>], assignment)` |
| ModelDirective.AssignFromParse | src/directives/model.js:43-46 | With two or more tokens, the code is a `$set` call on the parse result, and which one depends on the `state.` prefix |
| ModelDirective.AssignLoneBracketThrows | src/directives/model.js:116 | A lone `[` leaves no token, so parseModel and genAssignmentCode throw |
| ModelDirective.ValueExpression | src/directives/model.js:13-23 | `$$v` when no modifier is set; exactly `(typeof $$v === 'string'? $$v.trim(): $$v)` for `trim` alone; for `number`, `_n(` wrapped around exactly the expression the same `trim` gives without `number` |
| ModelDirective.ComponentModel | src/directives/model.js:24-30 | Throws exactly when parseModel throws; otherwise value `(value)`, expression `"value"`, and a callback over `$$v` whose body is the assignment code |
| ModelDirective.GenComponentModel | src/directives/model.js:6-31 | Sets `el.model` to that record and changes nothing else, or returns the exception and leaves `el.model` unchanged |
| Ast.Element.constructor | src/platforms/web/modules/model.js:88-90 | createASTElement: the given tag, list and parent, a map built from the list, and nothing processed |
| WebModel.TypeBindingSources | src/platforms/web/modules/model.js:33-40 | The type binding is `:type` if truthy, else `r-bind:type`, else `(obj).type` for `r-bind="obj"` without a static `type`; it is truthy exactly when one of these applies |
| WebModel.BranchCondition | src/platforms/web/modules/model.js:43-64 | The condition of a branch is exactly `(tb)==='<type>'`, followed by `&&(c)` when the element had a truthy `r-if="c"` |
| WebModel.CheckboxRadioDiffer | src/platforms/web/modules/model.js:53-64 | The checkbox and radio branches never get the same condition |
| WebModel.ClonesDropDirectives | src/platforms/web/modules/model.js:42-70 | For a duplicate-free list, no clone keeps `r-if`, `r-else` or `r-else-if`, and the clones' starting list has no `r-for` |
| WebModel.DuplicateIfSurvives | src/platforms/web/modules/model.js:42-70 | With two `r-if` attributes only the first is taken off: the element and every clone keep the second |
| WebModel.CloneASTElement | src/platforms/web/modules/model.js:88-90 | A fresh element with the same tag, parent and attribute list, a rebuilt map, and nothing processed |
| WebModel.ReadTypeBinding | src/platforms/web/modules/model.js:33-40 | Returns the type binding; takes a bound `type` off the list only when `:type` or `r-bind:type` is truthy; the map is unchanged |
| WebModel.TakeConditions | src/platforms/web/modules/model.js:42-45 | Returns `r-if`, whether `r-else` is present, and `r-else-if`; all three leave the list and the map |
| WebModel.CheckboxBranch | src/platforms/web/modules/model.js:47-57 | Branch 0: a fresh clone with `r-for` processed, `type="checkbox"` appended, marked processed, carrying the checkbox condition as its `if` and as the first entry of its own chain |
| WebModel.TypedBranch | src/platforms/web/modules/model.js:59-70 | Branches 1 and 2: a fresh clone without `r-for`, with one raw attribute appended, nothing processed |
| WebModel.BuildChain | src/platforms/web/modules/model.js:47-81 | Branch 0 heads a chain of exactly three distinct conditions: itself, a radio clone under the radio condition, and a `:type` clone under the original `r-if` |
| WebModel.Expand | src/platforms/web/modules/model.js:41-83 | The conditions leave the element; an `r-else` sets the head's else flag and otherwise a truthy `r-else-if` becomes its else-if; the chain is built as above |
| WebModel.PreTransformNode | src/platforms/web/modules/model.js:26-86 | No rewrite (null result, element untouched) unless the tag is `input`, `r-model` is truthy and there is a type binding; otherwise the element loses those attributes and the result heads the three-branch chain |
| ClassModule.StaticKeys | src/platforms/web/modules/class.js:46 | The only static field is `staticClass` |
| ClassModule.StaticClass | src/platforms/web/modules/class.js:12-26 | Set exactly when the `class` attribute is truthy, to the attribute as a double-quoted string literal, which unquotes to the attribute again |
| ClassModule.ClassBinding | src/platforms/web/modules/class.js:27-30 | Set exactly when `:class` or `r-bind:class` is truthy, to that binding, never to the static class |
| ClassModule.TransformNode | src/platforms/web/modules/class.js:10-31 | Each field is written only when its value is truthy; `class` and its binding leave the list, and the map is unchanged |
| ClassModule.GenData | src/platforms/web/modules/class.js:33-43 | Empty exactly when neither field is truthy; with a binding, `key:_rc(binding[,static]),`; with only a static class, `key:static,` |
| ClassModule.GenDataFragment | src/platforms/web/modules/class.js:35-40 | A non-empty fragment starts with `class:` for a tag containing `-` and `className:` otherwise, and ends with `,` |
| ClassModule.TransformedClassData | src/platforms/web/modules/class.js:24-40 | After transformNode, the data holds the attribute as a string literal and the binding raw; an element with neither contributes nothing |
| StyleModule.StaticKeys | src/platforms/web/modules/style.js:51 | The only static field is `staticStyle` |
| StyleModule.StaticStyle | src/platforms/web/modules/style.js:13-28 | Set exactly when the `style` attribute is truthy, to the JSON of the parsed style text, which is a non-empty `{…}` object literal |
| StyleModule.StyleBinding | src/platforms/web/modules/style.js:30-33 | Set exactly when `:style` or `r-bind:style` is truthy, to that binding |
| StyleModule.TransformNode | src/platforms/web/modules/style.js:11-34 | Each field is written only when its value is truthy; `style` and its binding leave the list, and the map is unchanged |
| StyleModule.TransformedStyleData | src/platforms/web/modules/style.js:27-45 | After transformNode: no data exactly when there is neither a `style` nor a bound style; a static style alone throws as written and gives `style:(<json>),` corrected; an object-literal binding is merged with the static object's body |
| StyleModule.Fragment | src/platforms/web/modules/style.js:40-45 | Every entry starts with `style:` and ends with `,` |
| StyleModule.GenData | src/platforms/web/modules/style.js:36-48 | Empty exactly when neither field is truthy; both set: an object-literal merge or `_rs(binding, static)`; binding only: `(_rs(binding))`; static only: a ReferenceError |
| StyleModule.StaticOnlyStyleThrows | src/platforms/web/modules/style.js:45 | Every element with a static style and no binding makes genData throw |
| StyleModule.GenDataIntended | src/platforms/web/modules/style.js:44-45 | Corrected genData: a static style alone gives `style:(static),`; empty exactly when neither field is set |
| StyleModule.IntendedAgreesWhereDefined | src/platforms/web/modules/style.js:36-48 | Wherever the written genData does not throw, the corrected one returns the same text |
| StyleModule.MergesObjectLiterals | src/platforms/web/modules/style.js:39-40 | An object-literal static style and binding merge into `({static body,binding body})` |

## Left out

- The parser, optimizer and code generator around these hooks are not part of
  this model. So are the `on` and `html` directives.
- The helpers `getAndRemoveAttr`, `getBindingAttr`, `addRawAttr`,
  `addIfCondition`, `processFor` and `createASTElement` are not part of this
  model. `Ast` gives them the behaviour stated in its header comment.
  - `getBindingAttr`'s filter parsing is the identity.
  - `processFor` records the raw `r-for` text; its alias split is not modelled.
- `processElement` (`src/platforms/web/modules/model.js:51,62,71`) is not
  modelled. The clones are described as they are before it runs.
- WebModel.BuildChain: the head's `else`/`elseif` flags are set when the head
  is built, not after the other two branches as in lines 77-81. Nothing reads
  them in between, so the final state is the same.
- `JSON.stringify` of a string is modelled as wrapping it in double quotes,
  without escaping.
- `parseStyleText` and the `JSON.stringify` of its result are the parameter
  `styleJson` of `StyleModule.TransformNode`. The model assumes only that it
  always yields a `{…}` object literal (`StyleModule.WritesObjectLiterals`).
- WebModel.ClonesDropDirectives assumes an attribute list without duplicate
  names. With duplicates, the helpers take off only the first entry of a name,
  so a second `r-if` stays on the element and on every clone
  (`WebModel.DuplicateIfSurvives`).
- The development-mode interpolation warnings of the class and style modules
  (`parseText`, `warn`) are I/O and are left out.
- The `options` argument of the hooks is left out. The class and style modules
  read its `warn` and `delimiters` only for those warnings. The model module
  passes it only to `processElement`, which is not modelled either.
- The `modifiers` object of genComponentModel is two booleans, `number` and
  `trim`. An absent object means both are false.
- ModelDirective.ParseModelPath covers paths whose keys hold balanced, nested
  brackets and no dot. A dot inside a key is covered only by the six-character
  `a[b.c]` shape of ModelDirective.ParseModelSplitsDottedKey.
- Strings are sequences of characters; `trim` removes the WhiteSpace and
  LineTerminator code points of ECMAScript, one character at a time.

## Findings

| source | as written | input that shows it | evidently intended | confidence | as-written member | corrected member |
|---|---|---|---|---|---|---|
| src/directives/model.js:85-90 | A `.` ends a segment even inside brackets, so a key containing a dot is split | `a[b.c]` parses to exp `a[b`, tokens `"a"`, `"b"`, `c`, so genAssignmentCode writes `$set(a[b, c, v)` | The key stays whole: exp `a`, tokens `"a"`, `b.c` (nested keys as in lines 60-61) | not executed | ModelDirective.ParseModelSplitsDottedKey | ModelDirective.ParseModelIntendedKeepsDottedKey |
| src/platforms/web/modules/style.js:45 | The static-only branch reads `e.staticStyle`, an undeclared identifier | Any element with `style="color:red"` and no `:style` throws a ReferenceError in genData | `style:(<static style>),` from `el.staticStyle` | not executed | StyleModule.StaticOnlyStyleThrows | StyleModule.GenDataIntended |
