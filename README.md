# Object styles to template literals, the serializer

This project models the core of a Babel plugin that rewrites style objects
into template literals for a CSS-in-JS runtime. An object literal such as
`{ zIndex: 5, "&:hover": { color: "red" } }` is written out as CSS text:
one property per line, indented two spaces per level, with nested rules in
`{ }` blocks. Property names go from camelCase to kebab-case, and bare
numbers get a `px` unit unless the property is unitless. Computed keys and
non-literal values become interpolated expressions. A concise arrow
`props => ({ ... })` passed as an argument becomes an arrow whose body is a
`css`-tagged template of that object.

Modules:

- `Ast` (`ast.dfy`): the input syntax (`Key`, `Value`, `Prop`) and the output
  (`Expr`, `Template`). A template keeps its fragments ("quasis") and its
  expressions in two lists, plus an optional tag.
- `Names` (`names.dfy`): `dashify` and the table of 41 unitless properties.
- `Serializer` (`serializer.dfy`): the property walk written as functions on an
  explicit accumulator (`Acc`: open text buffer, closed fragments,
  expressions). Beside it is an independent description of the output, a
  stream of characters and expression holes (`PropStream`, `StreamUpTo`).
  The lemmas prove that, from an accumulator with as many fragments as
  expressions, reading it back gives the old stream followed by that stream.
  From any accumulator, including the unpaired ones the argument loop leaves,
  the joined text grows by the stream's text (`FlatUpTo`). A walk from any
  accumulator is the walk from its bare buffer, with the earlier fragments and
  expressions in front (`SerializeFrame`).
- `Assemble` (`assemble.dfy`): the loop over the call's arguments
  (`CssLiteral`), the counting and ordering lemmas, the arrow rewrite, and
  import requests. It also has a corrected loop for the finding below.
- `Builder` (`builder.dfy`): the imperative form the source has. A
  `TemplateBuilder` class holds `text`, `quasis` and `exprs`, which
  `Finalize`, `Serialize` and the per-property step update in place.
  `ToCssLiteral` runs the argument loop on a fresh builder. Each method is
  proved equal to the functional specification.

A numeric value under a computed key gets no `px`: `key` stays undefined
for a computed key, so the guard `key && ...` fails (index.js:118-122, 136).
`Serializer.LiteralLeaf` states this.

## Model

| member | source | states |
|---|---|---|
| `Names.Lower` | index.js:3 | `toLowerCase` on ASCII: same length, each character lower-cased, no upper-case letter left |
| `Names.Dashify` | index.js:3 | the converted name contains no upper-case ASCII letter |
| `Names.DashifyLength` | index.js:3 | the result is longer than the input by exactly the number of lower-to-upper boundaries, adjacent ones included: one character is added per boundary |
| `Names.DashifyZIndex` | index.js:3 | `zIndex` becomes `z-index`: the hyphen goes between the two letters of the boundary and the upper-case letter is lowered |
| `Names.DashifyIdempotent` | index.js:3 | converting an already converted name changes nothing |
| `Serializer.Indent` | index.js:82-90 | the indent for depth `level` is `2 * level` characters |
| `Serializer.IndentSpaces` | index.js:82-90 | every character of the indent is a space |
| `Serializer.LiteralLeaf` | index.js:118-140 | a string or numeric leaf writes a line break, the indent, the dashified static key, `": "`, the literal and `";"`, and closes no fragment. A computed key closes the fragment instead and is paired with the key. A string is written as it is. A number gets `px` exactly when its key is static, non-empty and not among the 41 unitless names, so never under a computed key |
| `Serializer.PropPushes` | index.js:92-143 | one property appends its interpolated expressions (`PropHoles`: a computed key first, then a non-literal value or the nested block's own) and closes one fragment per expression. Fragments closed before are left as they were |
| `Serializer.BlockPushes` | index.js:93-115 | a nested object pushes a computed key first, then its children's expressions in order, and closes one fragment per expression. Fragments closed before are left as they were |
| `Serializer.UpToPushes` | index.js:84-143 | the walk over a property list pushes exactly one fragment-expression pair per computed key and per leaf value that is not a string, number or object literal, in property order. Nothing else is pushed |
| `Serializer.FlatFinalize` | index.js:84-88 | `finalize` keeps all the text: the closed fragments and the buffer, joined, read as before followed by the new buffer |
| `Serializer.FlatProp` | index.js:92-144 | from any accumulator, even one with more fragments than expressions, one property adds exactly the text of its document (`PropStream` without its holes) |
| `Serializer.FlatUpTo` | index.js:89-145 | from any accumulator, the walk over the first `n` properties adds exactly the text of their documents, in order |
| `Serializer.RenderedFinalize` | index.js:84-88 | `finalize` loses nothing: the accumulator now reads as before, then the expression, then the new buffer |
| `Serializer.KeyRenders` | index.js:98-111 | a key reads as a line break, the indent and the key text followed by the separator (`" {"` or `": "`). A computed key reads as a line break and the indent, then the key as a hole, then the separator |
| `Serializer.LeafValueRenders` | index.js:133-143 | a leaf value reads as the literal (plus `px` by the unit rule) and `";"`, or as the value as a hole and then `";"` |
| `Serializer.BlockRenders` | index.js:93-115 | a nested object reads as a blank line only when it is not the first property, then the raw (not dashified) key and `" {"`, then the children one level deeper in their order, then a line break, the same indent and `"}"` |
| `Serializer.PropRenders` | index.js:92-144 | after one property the accumulator still has as many closed fragments as expressions, and it reads as before followed by that property's document `PropStream` |
| `Serializer.UpToRenders` | index.js:89-145 | after the first `n` properties the accumulator reads as before followed by their documents in order: nothing is lost, duplicated or reordered |
| `Serializer.SerializeRenders` | index.js:89-145 | the same, for a whole property list |
| `Serializer.SerializeFrame` | index.js:84-145 | a walk from any accumulator equals the walk from its open buffer alone, with the fragments and expressions closed before kept in front: the walk never reads or changes them |
| `Assemble.CssLiteral` | index.js:173-177 | the result is tagged exactly when a tag is given, and with that tag |
| `Assemble.ArgStepPushes` | index.js:148-171 | one argument adds its expressions after those already there. An object argument closes one fragment more than it adds expressions; any other argument closes one fragment and adds one expression |
| `Assemble.ArgStepText` | index.js:148-171 | every argument leaves the buffer holding `";"`. The text held (fragments joined, then the buffer) gains the argument's text and then that `";"`: an object's document and a line break, or a line break |
| `Assemble.ArgStepFragments` | index.js:148-171 | the fragments an argument closes, after those closed before. An object is walked from the old buffer alone. The fragments closed there, paired with its expressions, read as that buffer followed by the object's document. Its last buffer and a line break close one fragment more, with no expression. Any other argument closes the old buffer and a line break |
| `Assemble.ArgsPushes` | index.js:147-172 | the arguments are handled left to right. The expressions are the concatenation of each argument's own (`ArgHoles`). The surplus of fragments over expressions grows by one per object argument |
| `Assemble.ArgsText` | index.js:147-172 | after at least one argument the buffer holds `";"`, and the text held is the arguments' text in order, each followed by `";"` |
| `Assemble.CssLiteralText` | index.js:147-177 | the template's fragments, joined, are the arguments' text in order with `";"` between them. The `";"` left in the buffer after the last argument is dropped |
| `Assemble.CssLiteralCounts` | index.js:147-172 | in the result, the number of fragments minus the number of expressions is the number of object arguments. The expressions come argument by argument, in order |
| `Assemble.LoneObject` | index.js:147-151 | a single object argument gives one more fragment than expressions. The expressions are the walk's. The template reads as the object's document at level 1 followed by a line break |
| `Assemble.StyleArrowRewrite` | index.js:152-166 | a concise arrow with an object body keeps its parameters. Its body becomes a well-formed template tagged `css` that reads as the object's document |
| `Assemble.HolesAreSource` | index.js:141-142 | the property walk never rewrites an arrow: arrows nested as property values are interpolated unchanged |
| `Assemble.ArgArrows` | index.js:148-171 | an argument yields exactly one rewritten arrow when it is a concise arrow with an object body, and none otherwise: an object's expressions never are |
| `Assemble.ImportsMatchArrows` | index.js:152-166 | the number of import requests equals the number of rewritten arrows in the result |
| `Assemble.LoneExpressionUnbalanced` | index.js:167-172 | `css(x)` gives the fragments `["\n"]` and the expressions `[x]`: no fragment follows `x` |
| `Assemble.TwoObjectsUnbalanced` | index.js:148-151 | two empty object arguments give the fragments `["\n", ";\n"]` and no expression |
| `Assemble.BalancedStepRenders` | index.js:148-171 | one step of the corrected loop reads as `";"` (except before the first argument), then the object's document and a line break, or a line break and the interpolated argument |
| `Assemble.BalancedCssLiteral` | index.js:147-177 | the corrected loop always gives one more fragment than expressions. Its template reads as the arguments' text in order, with `";"` between arguments |
| `Assemble.LoopsAgreeOnText` | index.js:147-177 | for every call, the source's loop and the corrected loop interpolate the same expressions in the same order, and their fragments joined are the same text. They differ only in where fragments are cut |
| `Assemble.ObjectThenExpression` | index.js:148-171 | `css({}, x)` gives the fragments `["\n", ";\n"]` and `[x]`, so `x` prints before the `";\n"` that was written ahead of it. The corrected loop gives `["\n;\n", ""]` and `[x]` |
| `Assemble.BalancedAgreesOnLoneObject` | index.js:147-151 | for a single object argument the corrected loop and the source's loop give the same template |
| `Builder.TemplateBuilder.constructor` | index.js:78-81 | a new builder has an empty buffer and no fragments or expressions |
| `Builder.TemplateBuilder.Finalize` | index.js:84-88 | the buffer is pushed as a fragment, the expression is pushed, and the buffer is reopened with the given text |
| `Builder.TemplateBuilder.SerializeProp` | index.js:92-144 | the in-place step for one property leaves exactly the state `Serializer.SerializeProp` specifies |
| `Builder.TemplateBuilder.Serialize` | index.js:89-145 | the in-place walk over a property list leaves exactly the state `Serializer.Serialize` specifies |
| `Builder.ToCssLiteral` | index.js:77-178 | the template built in place is `CssLiteral(args, pre)`, and the number of import requests is the number of concise-arrow arguments with an object body |

## Left out

- `addImportDeclaration` (index.js:50-75) edits the module's import of `css`. Here it is only counted: `ToCssLiteral` returns the number of requests it would make.
- The exported visitor (index.js:180-249) finds the `css` attribute and the `styled(...)`, `styled.x(...)` and `css(...)` calls, builds the tag, splices the result into the tree, copies the source location and requeues the node. It is tree plumbing: here the tag is any `Option<Expr>` the caller passes.
- Babel's node builders and type tests become the constructors and discriminators of the `Ast` datatypes.
- A numeric literal is carried as the text JavaScript prints for it (`1.50` prints as `1.5`). Number-to-string conversion, in `value + "px"` (index.js:137) and in `${value};` (index.js:140), is not modelled.
- `toLowerCase` is modelled on ASCII only. Other letters are left unchanged.
- Lookups in `unitless` go through JavaScript's prototype chain, so for example `unitless["constructor"]` is truthy. The model uses a plain set of the 41 names.
- A numeric literal used as a static key (`{ 1: ... }`) is not modelled. On a leaf, `dashify` would be called on a number and throw. Static keys here are identifiers and strings.
- Spread elements and methods inside a style object are not modelled. The source assumes every property has a key and a value.
- `TemplateBuilder.SerializeProp` computes the indent for each property. The source computes it once per list. The value is the same.

## Findings

| source | as written | input that shows it | evidently intended | confidence | as-written member | corrected member |
|---|---|---|---|---|---|---|
| index.js:147-172 | An object argument closes a fragment with no paired expression. Every other argument closes one paired with its expression. The buffer left after the last argument is never closed. So the template has one more fragment than expressions only when exactly one argument is an object. After an object argument, the fragments are shifted by one against the expressions. So the `";"` separator and line break written before a later expression print after it | `css(x)` gives fragments `["\n"]` and expressions `[x]`. `css({}, {})` gives fragments `["\n", ";\n"]` and no expression. `css({}, x)` gives fragments `["\n", ";\n"]` and `[x]`, printed as `\n`, `x`, `;\n` | a template literal pairs fragment `i` with expression `i` and ends with one more fragment. It should read as the arguments' text and expressions in the order the loop produces them | medium; not executed | `Assemble.LoneExpressionUnbalanced` | `Assemble.BalancedCssLiteral` |

`Assemble.TwoObjectsUnbalanced` and `Assemble.ObjectThenExpression` are the
other inputs, and `Assemble.CssLiteralCounts` states the general count.
`Assemble.LoopsAgreeOnText` proves that the corrected loop changes only where
the fragments are cut. The expressions and the joined text stay the same.
`Builder.ToCssLiteral` models the loop as written. The nested call made for an arrow's body always has a single object argument.
On that input the two loops agree (`Assemble.BalancedAgreesOnLoneObject`), so
rewritten arrows are the same under both.
