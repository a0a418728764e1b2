# Max API mock generator: a Dafny model of its helpers and extraction pass

The generator reads the TypeScript declarations of the Max API, already parsed into an
AST. It extracts the enums and declared functions into template data. Then a set of
Handlebars helpers renders the code and the doc comments of a mock implementation. This
project models both halves:

- `src/helpers.js`, the helper library:
  - `typeConverter` normalises parameter descriptors;
  - `returnPromise` and `returnTypeConverter` build the body of a generated function;
  - `commentBuilder` and `commentParamBuilder` build its doc comment;
  - `replaceBulk` is a single-pass replace of several literal strings;
  - `typeRender`/`typeRenderer` render a descriptor as TypeScript text.
- `src/generateShim.js`, the extraction pass:
  - the walk over the program that fills `filteredTemplateData.enums` and `.funcs`;
  - `has`;
  - its own, older `returnPromise`, `TsTypeCommentConverter` and `TsTypeReturnConverter`,
    and a copy of `replaceBulk`.

Modules:

| file | module | models |
|---|---|---|
| js.dfy | `Js` | `undefined`, thrown errors, `String(v)`, `trim`, `split().pop()`, `join`, string `+=` |
| descriptors.dfy | `Descriptors` | the `{type, subParams, name}` descriptors, the function record, a size measure |
| type_conversion.dfy | `TypeConversion` | `typeConverter` |
| return_helpers.dfy | `ReturnHelpers` | `returnPromise`, `returnTypeConverter` |
| bulk_replace.dfy | `BulkReplace` | `replaceBulk` (both copies) |
| comments.dfy | `Comments` | `commentParamBuilder`, `commentBuilder` |
| type_rendering.dfy | `TypeRendering` | `typeRender`, `typeRenderer` |
| ast.dfy | `Ast` | the AST nodes the extraction reads, `has` |
| shim.dfy | `Shim` | the extraction pass, with `filteredTemplateData` as the class `TemplateData` |
| shim_helpers.dfy | `ShimHelpers` | the helper bodies of src/generateShim.js |

How JavaScript is rendered:

- A descriptor's `type` is the field `kind`.
- A missing property is `None` (or `Undefined` for `subParams`).
- A `Handlebars.SafeString` is its string.
- `options.fn(this)` is an input string `body`.
- `this` is a `FuncData` record.
- A thrown `Error` or a `TypeError` from reading a property of `undefined` is an `Err` of
  `Js.Result`. This is used where the code may also throw on purpose, which is
  `returnTypeConverter` and `typeRenderer`, so the order between errors is kept.
- Where the code can only crash, the fields it reads unchecked become preconditions:
  - the `subParams` of `typeConverter` and `commentParamBuilder`;
  - the AST fields read by the extraction pass.

Each loop of the source is a method with invariants. The method is proved equal to a
specification function, and the lemmas are stated about that function. The extraction
pass appends into `TemplateData.enums` and `TemplateData.funcs`. Its `Extract` method
states the new arrays as the old ones followed by `ProgramEnums`/`ProgramFuncs` of the
program.

## Behaviour worth noting

- `returnTypeConverter` skips any number of `Promise` tokens, stops at the first void,
  null or `JSONObject` token, and throws on anything else before it. The generator's
  own `TsTypeReturnConverter` walks nested lists and never throws.
- `commentParamBuilder` joins the branches of a union with `" |"` and discards the text
  accumulated for earlier parameters.
- The `post` override is hard-coded on the id `"post"`.
- `typeConverter` gives children only to `Array` and union descriptors. Every other
  descriptor, `Record` included, becomes childless.
- A rest parameter is recorded as `"..." + argument.name`.

## Model

| member | source | states |
|---|---|---|
| Js.Trim | src/helpers.js:48 | `trim()` never lengthens its input |
| Js.TrimSpec | src/helpers.js:48 | the result of `trim()` is an infix of the input with only white space removed on either side, and it neither starts nor ends with white space |
| Js.TrimInfix | src/helpers.js:48 | trimming the start and then the end leaves an infix of the input with only white space cut on either side |
| Js.TrimEnds | src/helpers.js:48 | the trimmed text neither starts nor ends with white space |
| Js.LastSegment | src/helpers.js:48 | `split("*").pop()` is a suffix of the input without `*`, preceded by a `*` whenever it is not the whole input |
| TypeConversion.ConvertNode | src/helpers.js:5-25 | the pushed node has no name, has the converted kind (`ConvertedKind`: the string keyword becomes `string`, the number keyword `number`, every other kind is kept), and has `subParams` exactly when the element is `Array` or a union |
| TypeConversion.ConvertAll | src/helpers.js:3-28 | one output node per input element |
| TypeConversion.TypeConverter | src/helpers.js:3-28 | the loop returns one node per element, in order, each the conversion of that element, recursing into `Array` and union `subParams` |
| TypeConversion.ConvertNodeKeywordFree | src/helpers.js:7-24 | no string or number keyword survives `ConvertedKind` at any depth |
| TypeConversion.ConvertNodeConvertible | src/helpers.js:13-22 | a converted node may be converted again, since every structured node has `subParams` |
| TypeConversion.ConvertNodeIdempotent | src/helpers.js:5-25 | converting a converted node changes nothing |
| TypeConversion.ConvertAllIdempotent | src/helpers.js:3-28 | re-applying `typeConverter` to its output changes nothing |
| TypeConversion.ConvertAllKeywordFree | src/helpers.js:3-28 | no element of the output holds a keyword at any depth |
| ReturnHelpers.ReturnPromiseRoundTrip | src/helpers.js:30-44 | outside the `post` override the body comes back out of the result unchanged, wrapped as `Promise.resolve(...)` exactly when the first token is `Promise` and as `{...}` otherwise |
| ReturnHelpers.PostIgnoresBody | src/helpers.js:33-41 | under the override the result is `Promise.resolve(console.log(<first param name>))` whatever the body, the name shown by `Js.Show` (the word `undefined` when the first parameter has no name) |
| ReturnHelpers.FirstNonPromise | src/helpers.js:121-132 | the index of the first token that is not `Promise`, every token before it being `Promise` |
| ReturnHelpers.ReturnTypeValue | src/helpers.js:119-142 | a value returned is one of `""`, `"null"` and `"{}"` |
| ReturnHelpers.ReturnTypeConverter | src/helpers.js:119-142 | the `some` loop returns what `ReturnTypeValue` gives, error included |
| ReturnHelpers.FirstNonPromiseAt | src/helpers.js:121-132 | an index with only `Promise` tokens before it and a non-`Promise` token at it is the first non-`Promise` index |
| ReturnHelpers.ReturnTypeDecided | src/helpers.js:121-139 | after the `Promise` tokens, void gives `""`, null `"null"`, `JSONObject` `"{}"`, and a list of only `Promise` gives `""` |
| ReturnHelpers.ReturnTypeErrorIff | src/helpers.js:121-137 | an error is thrown exactly when an unknown token comes before every terminal token, and its message names the whole list joined with commas |
| ReturnHelpers.ReturnTypeIgnoresTail | src/helpers.js:121-139 | tokens after the deciding terminal token are never examined |
| ReturnHelpers.ReturnTypeExamples | src/helpers.js:119-141 | `Promise<void>` gives `""`, `Promise<JSONObject>` `"{}"`, `Promise<null>` `"null"` |
| BulkReplace.Table | src/helpers.js:108-111 | after `n` rounds `map` holds each of the first `n` find strings as a key |
| BulkReplace.TableKeys | src/helpers.js:108-111 | `map` has no key but one of the first `n` find strings |
| BulkReplace.BuildTable | src/helpers.js:108-111 | the `for` loop leaves `map` as `Table` after all rounds |
| BulkReplace.FirstMatch | src/helpers.js:112-113 | the first alternative, in `findArray` order, that the text starts with |
| BulkReplace.ReplaceBulk | src/helpers.js:104-117 | the `for` loop and the global replace give `BulkReplaced` |
| BulkReplace.ScanCopiesUnmatched | src/helpers.js:113-115 | a prefix at none of whose positions a find string starts is copied unchanged |
| BulkReplace.BulkReplacedUnchanged | src/helpers.js:113-115 | a string in which no find string occurs is returned unchanged |
| BulkReplace.TableLookup | src/helpers.js:108-111 | with no later duplicate, `map[findArray[k]]` is `replaceArray[k]` (`ReplacementAt`: the word `undefined` past the end of `replaceArray`); a duplicate's last replacement wins |
| BulkReplace.BulkReplacedStep | src/helpers.js:113-115 | left to right and without overlap: text before the leftmost match is copied, the match becomes its replacement, and the rest is replaced independently, so replacement text is never re-scanned |
| BulkReplace.BulkReplacedCons | src/helpers.js:113-115 | a first character no find string starts with is copied |
| BulkReplace.FirstMatchPrefix | src/helpers.js:113 | a match cannot reach across a character that occurs in no find string |
| BulkReplace.ScanStep | src/helpers.js:113-115 | one step of the scan produces the table entry of the first matching find string, or the first character, and consumes that many characters |
| BulkReplace.ScanHead | src/helpers.js:113-115 | before a character that occurs in no find string, the first step of the scan is the same with or without what follows |
| BulkReplace.ScanSplit | src/helpers.js:113-115 | the scan splits at a character that occurs in no find string |
| BulkReplace.BulkReplacedSplit | src/helpers.js:113-115 | the replace splits at a character that occurs in no find string |
| BulkReplace.BulkReplacedPrefix | src/helpers.js:113-115 | a prefix of characters no find string starts with is copied |
| Comments.Finish | src/helpers.js:99 | a trailing `"\n*   "` is cut off, and nothing else |
| Comments.BranchComments | src/helpers.js:77-79 | one comment per sub-descriptor |
| Comments.ChildEdits | src/helpers.js:90 | one edit per sub-descriptor |
| Comments.Edits | src/helpers.js:67-98 | one edit per parameter |
| Comments.ChildEditsAreEdits | src/helpers.js:90 | the default branch recurses on the sub-descriptors as a parameter list |
| Comments.SingleIsParamComment | src/helpers.js:78 | `commentParamBuilder([elem])` is the comment of the one-element list |
| Comments.SubComments | src/helpers.js:77-79 | the `map` gives, in order, `commentParamBuilder([elem])` of each sub-descriptor |
| Comments.AppendElement | src/helpers.js:67-97 | one round of the `forEach` applies that element's edit to `comment` |
| Comments.CommentParamBuilder | src/helpers.js:65-101 | the loop and the final cut give `ParamComment(params)` |
| Comments.ApplyEditsAppend | src/helpers.js:67-98 | edits of two parts of the list apply one after the other |
| Comments.OverwriteForgets | src/helpers.js:87 | once an overwrite comes first, earlier text does not matter |
| Comments.FinishKeeps | src/helpers.js:99 | text that does not end in a space is not cut |
| Comments.EditsAppend | src/helpers.js:67-98 | the edits of a joined list are the joined edits |
| Comments.UnionDiscardsEarlier | src/helpers.js:83-87 | a union parameter throws away the comment of every parameter before it |
| Comments.UnionComment | src/helpers.js:83-88 | a final union gives exactly its branches joined by a space and a bar and trimmed, its own name and kind dropped |
| Comments.LeafComments | src/helpers.js:67-71 | leaves contribute `name kind` each, run together with no separator |
| Comments.LeafEdits | src/helpers.js:67-71 | the edits of leaves append `name kind` each |
| Comments.KindlessGroup | src/helpers.js:92-97 | a kind-less group gives its name and its sub-descriptors' comment, the separator after it being cut at the end |
| Comments.BracketedComment | src/helpers.js:73-82 | an `Array`, `Record` or array-type descriptor is drawn `name kind<sub, sub>`, each sub-descriptor commented on its own |
| Comments.KindsReplacedCopies | src/helpers.js:53-61 | text without a `T` passes through the replace of `commentBuilder` |
| Comments.KindsReplacedSplit | src/helpers.js:53-61 | that replace works on either side of a line break separately |
| Comments.KindsReplacedShort | src/helpers.js:53-61 | text shorter than every kind name is copied |
| Comments.KindsReplacedUnchanged | src/helpers.js:53-61 | text holding no kind name is copied |
| Comments.DocText | src/helpers.js:48 | the doc text holds no `*` |
| Comments.CommentBuilder | src/helpers.js:47-63 | the method returns `DocComment(self)` |
| Comments.RawCommentBuilder | src/helpers.js:48-52 | the statements before the replace assemble `RawComment(self)`: `"* "`, the doc text, and the types block only when `params` is a non-empty array |
| Comments.RawCommentWith | src/helpers.js:48-52 | with parameters, the raw comment is the doc text, the types heading, the separator and the parameter comment, in that order |
| Comments.RawCommentWithout | src/helpers.js:48-49 | without parameters, the raw comment is `"* "` and the doc text alone |
| Comments.KindsReplacedBlock | src/helpers.js:50-51 | the types heading survives the replace |
| Comments.KindsReplacedParts | src/helpers.js:48-61 | the replace leaves the leading `"* "` alone and handles the doc text and the types block separately |
| Comments.DocCommentParts | src/helpers.js:47-63 | the doc comment is `"* "`, the replaced doc text and the replaced types block |
| Comments.DocCommentWithoutParams | src/helpers.js:47-49 | without a non-empty `params` array the comment is `"* "` and the replaced doc text, with no types block |
| Comments.KindsReplacedWithBlock | src/helpers.js:48-61 | the replace of a comment with a types block, part by part |
| Comments.DocCommentWithParams | src/helpers.js:49-52 | with parameters, the heading `"\n* Types: "`, `"\n*   "` and the replaced parameter comment follow the doc text |
| Comments.DocCommentStart | src/helpers.js:48 | the comment starts with `"* "`, then the trimmed doc text itself when it holds no kind name |
| TypeRendering.Collect | src/helpers.js:152-153 | the values of a list of results in order exactly when all succeed |
| TypeRendering.CollectPrefixErr | src/helpers.js:152-153 | once an element throws, the later ones are not reached |
| TypeRendering.CollectErrAt | src/helpers.js:152-153 | the error is that of the first element that throws |
| TypeRendering.CollectStep | src/helpers.js:152-153 | one more result extends the values or gives its error |
| TypeRendering.TypeRender | src/helpers.js:144-146 | `typeRender` returns what `typeRenderer` gives |
| TypeRendering.TypeRenderer | src/helpers.js:148-201 | the method returns `Rendered(types, typedef)`, error included |
| TypeRendering.UnionRenderer | src/helpers.js:150-159 | the union loop renders each element of `types` against `types` and joins them with a bar between spaces |
| TypeRendering.ArrayRenderer | src/helpers.js:160-166 | the `Array` loop renders each sub-descriptor against its own `subParams`, between `Array<` and `>` |
| TypeRendering.ParamAppender | src/helpers.js:170-192 | one parameter appends `any[]` per element of its array, or the loop throws for the first parameter or element of another kind |
| TypeRendering.FunctionRenderer | src/helpers.js:167-196 | the nested loops of the function-type case give `FunctionRendered(typedef)` |
| TypeRendering.Repeat | src/helpers.js:175-184 | proof helper for the closed form of `FunctionRenderedOk`, a general string fact: `n` copies of a string have `n` times its length |
| TypeRendering.RepeatAdd | src/helpers.js:175-184 | proof helper for `FunctionRenderedOk`, a general string fact: copies run together add up |
| TypeRendering.ConcatSame | src/helpers.js:175-184 | proof helper for `FunctionRenderedOk`, a general string fact: equal pieces concatenate to repeated copies |
| TypeRendering.ConcatRepeats | src/helpers.js:169-185 | pieces repeating per parameter concatenate to one copy per array element |
| TypeRendering.ParamArgsOk | src/helpers.js:170-193 | a parameter of a function type succeeds exactly when it is an array of `any`, and then appends `any[]` per element |
| TypeRendering.FunctionRenderedOk | src/helpers.js:167-196 | a function type renders exactly when every parameter is an array of `any`, as `(...args: ` then `any[]` per element with no separator, then `)` |
| TypeRendering.FunctionRenderedErr | src/helpers.js:169-192 | a function type fails by a missing `subParams` or with a `type helper ... unknown!` error |
| TypeRendering.UnionUsesOuterList | src/helpers.js:150-154 | a union renders the outer list whatever its own `subParams` and name |
| TypeRendering.PlainRenders | src/helpers.js:160-166 | a tree without unions or function types whose `Array` nodes have `subParams` always renders, against any list |
| TypeRendering.UnionOfPlain | src/helpers.js:150-159 | a union over a defined list of such trees always renders, and its text is each branch's own rendering, in order, joined with a bar between spaces |
| TypeRendering.ArrayExample | src/helpers.js:160-166 | `Array` of string and number is `Array<stringnumber>` |
| TypeRendering.UnionExample | src/helpers.js:150-159 | a union over string and number is `string`, a bar between spaces, `number` |
| TypeRendering.UnionStopsAtEarlierThrow | src/helpers.js:150-154 | a union over an outer list whose first element, a function type without `subParams`, throws is renderable and gives that error, although a union follows in the list |
| Shim.BuildEnum | src/generateShim.js:26-47 | the enum record has the id, the first leading comment and one `{key, value}` per member in declared order, `value` the initializer |
| Shim.ReturnTypeParameters | src/generateShim.js:54-78 | one list per type argument: a union gives its branches in order, each a reference name or else the node kind, and anything else a singleton; no type arguments give no lists (`Ast.Has` decides whether `typeParameters` is present) |
| Shim.LeadingComment | src/generateShim.js:79-82 | each leading comment followed by a space |
| Shim.ParamsLoop | src/generateShim.js:84-95 | appends `pname typeof typename, ` per parameter and pushes one `{name}` per parameter, in order |
| Shim.BuildFunc | src/generateShim.js:48-99 | the function record holds the id, the return type name (`TypeNameOf`: the reference name when `Ast.Has` finds `typeName`, otherwise the node kind), the return type parameters, the comment made of leading comments and then parameter entries, and one `{name}` per parameter |
| Shim.TemplateData.constructor | src/generateShim.js:22 | both arrays start empty |
| Shim.TemplateData.ExtractModule | src/generateShim.js:25-100 | the inner walk over a module body appends exactly that body's enum and function records |
| Shim.TemplateData.Extract | src/generateShim.js:23-102 | the walk appends to `enums` and `funcs` exactly the records of the program, in declaration order |
| Shim.ModuleSnoc | src/generateShim.js:25-100 | one more statement of a module body adds that statement's enum record or function record, if any, at the end |
| Shim.ProgramSnoc | src/generateShim.js:23-102 | one more top-level statement adds the records of its module body, if it is a module declaration |
| Shim.ModuleAppend | src/generateShim.js:25-100 | the records of two consecutive stretches of a module body come one after the other |
| Shim.ProgramAppend | src/generateShim.js:23-102 | the same for stretches of the program |
| Shim.InnerContribution | src/generateShim.js:26-48 | inside a module an enum adds one enum record and no function record, a declared function the reverse, and any other statement, a nested module included, nothing |
| Shim.TopLevelContribution | src/generateShim.js:23-24 | at the top level only module declarations contribute, with the records of their bodies |
| Shim.ParamsTextAppend | src/generateShim.js:85-95 | the entries of two stretches of parameters come one after the other |
| Shim.ParamsTextSnoc | src/generateShim.js:85-95 | one more parameter adds its entry at the end |
| Shim.ParamsReadySplit | src/generateShim.js:86-89 | the parameters before and after any one are ready when all are |
| Shim.ParamEntryAt | src/generateShim.js:93 | each parameter's entry sits right after those of the parameters before it |
| Shim.RestParamName | src/generateShim.js:90-92 | for identifiers not beginning with a dot, a `...` prefix marks exactly the rest parameters, and the rest of the name is the argument's name |
| Shim.PromiseVoidRecord | src/generateShim.js:48-78 | `declare function f(): Promise<void>` gives return type `Promise` and the return type parameters `[["TSVoidKeyword"]]` |
| ShimHelpers.ShimReturnPromiseAgrees | src/generateShim.js:130-139 | away from `post`, the older helper on a return type gives what the newer one gives on that one-token list |
| ShimHelpers.ShimReturnPromiseRoundTrip | src/generateShim.js:130-139 | the body comes back out unchanged, wrapped as a promise exactly for `Promise`, with no `post` override |
| ShimHelpers.TsTypeCommentConverter | src/generateShim.js:141-159 | the helper is `replaceBulk` with the array and string kind names |
| ShimHelpers.CommentConvertedCopies | src/generateShim.js:148-159 | text without a `T` passes through |
| ShimHelpers.CommentConvertedArray | src/generateShim.js:141-145 | the array kind becomes `array` |
| ShimHelpers.CommentConvertedNumber | src/generateShim.js:141-145 | the number keyword is left as it is, unlike in `commentBuilder` |
| ShimHelpers.InnerValue | src/generateShim.js:164-180 | one inner list sets `""`, `"null"` or `"{}"` |
| ShimHelpers.OuterValue | src/generateShim.js:161-184 | the helper returns only `""`, `"null"` or `"{}"` |
| ShimHelpers.TsTypeReturnConverter | src/generateShim.js:161-184 | the nested `some` loops give `OuterValue(context)`, and no error is possible |
| ShimHelpers.IgnoredPrefix | src/generateShim.js:176-177 | unknown tokens are ignored |
| ShimHelpers.VoidEndsInnerList | src/generateShim.js:167-168 | the void marker ends only its own list, and the scan goes on with the next list |
| ShimHelpers.ValueEndsScan | src/generateShim.js:179-181 | once null or `JSONObject` sets the value, no later list or token is examined |
| ShimHelpers.IgnoredList | src/generateShim.js:163-181 | a list of only unknown tokens leaves the value to the lists after it |
| ShimHelpers.AgreesWithReturnTypeConverter | src/generateShim.js:161-184 | on a list of `Promise` and terminal tokens the older converter agrees with `returnTypeConverter` |
| ShimHelpers.ReturnConverterExamples | src/generateShim.js:161-184 | `[[void, JSONObject]]` gives `""`; `[[void], [null]]` gives `"null"` |

## Left out

- Reading the declaration file, parsing it with `@babel/parser`, compiling the template and writing the generated file (src/generateShim.js:6-17, 187-198): I/O and a foreign parser. The AST is an input datatype.
- Registering the Handlebars partials and helpers (src/generateShim.js:109-128 and the `registerHelper` wrappers): foreign library. Only the helper bodies are modelled, as functions on strings.
- `console.log` in `TsTypeReturnConverter` and at the end of the pass: output only.
- Building and escaping the regular expression in `replaceBulk`: escaped literals joined by `|` are modelled directly as a literal alternation that takes the first alternative at the leftmost position. The only precondition is that no find string is empty. An empty `findArray` is modelled as the empty pattern, which matches at every position.
- BulkReplace.Interleave: puts `undefined` between Dafny characters (Unicode scalar values), while the empty JavaScript pattern matches between UTF-16 code units, so the two differ on strings with characters outside the Basic Multilingual Plane.
- The per-member enum comment (src/generateShim.js:35-39): it is built and then dropped. The model keeps only the crash it can cause, as the precondition that `leadingComments` is present.
- The identity `map` in the union case of `typeRenderer` (src/helpers.js:155-158): it changes nothing.
- TypeRendering.TypeRenderer: requires `Renderable`, which excludes exactly the inputs on which the source recurses without end: a union whose `forEach` reaches, after only elements that render without throwing, an element that is itself a union. It does not model the resulting stack overflow. Elements after the first throwing one are unconstrained, so such a list renders to that element's error (`UnionStopsAtEarlierThrow`).
- TypeRendering.TypeRender: has the same `Renderable` precondition as `TypeRenderer`, for the same reason.
- TypeRendering.UnionRenderer: has the same `Renderable` precondition, excluding only a union element that its loop reaches after elements that all render.
- TypeRendering.ArrayRenderer: has the same `Renderable` precondition; for an `Array` it constrains only the sub-descriptors its loop reaches after sub-descriptors that all render.
- TypeRendering.FunctionRenderedErr: states only that the error is the missing-`forEach` error or names some kind. It does not say which descriptor's kind.
- Shim.BuildEnum: the enum initializer is modelled as a string value. Babel's numeric initializers are not distinguished.
- The AST: a union's `types` is always present. A module's `body.body` is its list of statements, so a dotted namespace whose body is another module declaration is not modelled. The datatypes also cannot represent these inputs, on which the source throws or reads `undefined`:
  - a bodyless `declare module "m";`, where reading `element.body.body` throws (src/generateShim.js:25);
  - a qualified type name `A.B`, whose `typeName.name` is undefined (src/generateShim.js:51 and 89);
  - a string-literal enum key, whose `im.id.name` is undefined (src/generateShim.js:42);
  - a destructured parameter, where reading `param.argument.name` throws (src/generateShim.js:90-92).
- src/index.test.js and vitest.config.ts: tests and configuration. The tests only informed the properties.
