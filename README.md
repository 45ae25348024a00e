# plotly.js `Lib` helpers, modelled in Dafny

This project models a group of general-purpose helpers from plotly.js's
`src/lib/index.js` and proves properties about them:

- **Property paths.** `objectFromPath` builds a nested object from a dotted or
  indexed path such as `'nested.test[2].path'`. `expandObjectPaths` rewrites
  an object's path-shaped keys into nested objects and arrays.
- **Templates.** `templateString` substitutes `%{key}` tokens. The hover and
  text template formatters (`hovertemplateString`, `texttemplateString`, both
  driven by `templateFormatString`) also apply number and date formats and
  label fallbacks. They log throttled "could not be found" warnings through a
  per-formatter warning state `{max: 10, count, name}`.
- **Number formatting.** `numSeparate` applies the decimal point and
  thousands separator to a number.
- **Subplot ordering.** `subplotSort` orders subplot ids such as `'scene2'`
  before `'scene10'`.
- **Writes into caller-owned containers.** `noneOrAll` makes a group of
  attributes come all together or not at all. `mergeArray` and `fillArray`
  copy a trace array attribute onto calcdata items.
- **Selections.** `makePtIndex2PtNumber`, `tagSelected` and
  `selIndices2selPoints` handle selected points.
- **`minExtend`.** It copies a trace without private keys and functions and
  with arrays cut to three items.
- **Small helpers.** `isIndex`, `repeat`, `constrain`, `stripTrailingSlash`,
  `titleCase` and `containsAny`.

JavaScript values are modelled by `JsValue.Value`, which has these cases:
`undefined`, `null`, booleans, integer numbers, strings, arrays, ordered
objects and functions. An object is a sequence of `Field(key, val)` kept in
insertion order. `Get`, `Put` and `Remove` behave like property read, write
and `delete`.

Each operation follows the code's own form:

- **Loops become methods.** The method carries loop invariants and is proved
  equal to a specification function. Examples: `ObjectFromPath`,
  `ExpandObjectPaths`, `NumSeparate`, `SubplotSort`, `ContainsAny`,
  `MakePtIndex2PtNumber` and `MinExtend`.
- **Objects updated in place** are classes or arrays with `modifies`
  clauses:
  - the warning state is `TemplateFormat.WarningState`;
  - `noneOrAll`'s container is `Containers.JsObject`;
  - calcdata is an `array<seq<Field>>`.
- **Pure code becomes functions.** Examples: the template scanner and
  `templateString`.

The properties are lemmas about the specification functions.

### Where the documentation and the code differ (the model follows the code)

- **Holes in `objectFromPath` arrays.** The doc comment at
  `src/lib/index.js:780-785` promises a `null`-filled array. The code
  assigns into `[]` at an index, so the holes are `undefined`.
  `PathExpand.PathTreeIndexedSegment` states this.
- **Parallel paths in `expandObjectPaths`.** The doc comment at
  `src/lib/index.js:846-847` shows `{'foo[1].bar': 10, 'foo[0].bar': 20}`
  giving `[{bar: 10}, {bar: 20}]`. The code puts each value at its own
  index: `[{bar: 20}, {bar: 10}]`. `PathExpandExamples.ParallelIndexedKeys`
  proves this.
- **Doubly-indexed overwrite in `expandObjectPaths`.** The doc comment at
  `src/lib/index.js:851-852` shows `{range: 4}`. The code gives
  `{range: [4]}`. `PathExpandExamples.NestedArraysOverwrite` proves this.

## Model

| member | source | states |
|---|---|---|
| PathExpand.Segments | src/lib/index.js:793-805 | the path splits on `.`; each piece is `name[digits]` (the last bracket group) or a plain name |
| PathExpand.ObjectFromPath | src/lib/index.js:792-828 | the loop builds exactly `PathTree` of the path's segments and the value |
| PathExpand.PathTreeReachesValue | src/lib/index.js:792-828 | following the path's keys and indices through the built object reaches the value |
| PathExpand.PathTreeSubtree | src/lib/index.js:797-825 | after the first j segments, the built object holds the tree of the remaining segments |
| PathExpand.PathTreeIndexedSegment | src/lib/index.js:803-815 | an indexed segment `name[i]` makes an array of length i+1 with `undefined` holes, holding the value (last segment) or the next object |
| PathExpand.ObjectFromPathExample | src/lib/index.js:783-785 | `'nested.test[2].path'` gives `{nested: {test: [ , , {path: 'value'}]}}` |
| PathExpand.Classify | src/lib/index.js:858-859 | a dotted key's prop has no `.` or `[` and is followed by `.`; an indexed key's prop has no `.` and is followed by `[digits]` |
| PathExpand.ClassifyCases | src/lib/index.js:858-859 | a key is dotted exactly when its first `.` or `[` is a `.` after at least one character; otherwise it is indexed exactly when a bracket group starts before the first `.`, and then the last such group gives prop, index, dot and trailing path |
| PathExpand.ExpandObjectPaths | src/lib/index.js:861-915 | the in-place loop over the keys gives exactly `ExpandSpec`, the key-by-key recursive reference definition |
| PathExpand.ThrowPropagates | src/lib/index.js:863-911 | once one key's expansion throws, the whole expansion throws the same error |
| PathExpandProps.ExpandObjectPathsKeys | src/lib/index.js:863-911 | plain keys stay; every result key is a plain input key or the prop of a path key; dotted keys vanish; a path key vanishes unless another key names it |
| PathExpandProps.ExpandObjectPathsPlainValue | src/lib/index.js:905-907 | a plain key's value is its own recursive expansion |
| PathExpandProps.ExpandedIsFixpoint | src/lib/index.js:861-915 | expanding an object with no path-shaped keys at any depth changes nothing: the result is the object itself once the recursion bound exceeds its nesting depth, and never a different object |
| PathExpandProps.DottedKeyPlaced | src/lib/index.js:866-872 | a dotted key is removed and its prop set to the merge of `objectFromPath` of the rest of the key (holding the expanded value) into the prop's old value, or `{}` when that is falsy |
| PathExpandProps.IndexedKeyPlaced | src/lib/index.js:873-904 | an indexed key is removed and its prop set to an array (the old one, or `[]` when falsy) that differs only at the index, which holds the expanded value, or the merge of `objectFromPath` of the trailing path into the old slot (`{}` when falsy) |
| PathExpandPlace.CleanMerge | src/lib/index.js:872 | merging properties without `undefined` values and with keys new to the target appends them unchanged |
| PathExpandPlace.FreshKeyPlaced | src/lib/index.js:866-904 | with nothing truthy under its prop, a path key's prop receives exactly what `objectFromPath` builds below the prop, and following the key's segments through the result reaches the expanded value |
| PathExpandPlace.DottedFreshTree | src/lib/index.js:866-872 | for a dotted key, `{prop: that fresh value}` is `objectFromPath(key, value)`, and the key's placed steps are the steps of its segments |
| PathExpandPlace.ExpandReaches | src/lib/index.js:861-915 | after the whole expansion, a path key whose prop no other key touches has its expanded value at the end of its path |
| PathExpandPlace.LoneDottedKey | src/lib/index.js:861-872 | `{key: v}` with a dotted key expands to `objectFromPath(key, expanded v)` |
| PathExpandExamples.NestedDottedExample | src/lib/index.js:835-836 | `{'a.b.c': v}` expands to `{a: {b: {c: v}}}` for plain names and a non-object `v` |
| PathExpandExamples.NestedTestPath | src/lib/index.js:835-836 | `{'nested.test.path': 'value'}` expands to `{nested: {test: {path: 'value'}}}` |
| PathExpandProps.ExpandKeyKeys | src/lib/index.js:866-907 | one key's step keeps all other keys, adds only the key's prop, and removes a path key |
| PathExpandProps.ExpandKeyValues | src/lib/index.js:866-907 | one key's step changes no other property, and a plain key gets its expansion |
| PathExpandExamples.ParallelIndexedKeys | src/lib/index.js:875-903 | `{'n[1].l': a, 'n[0].l': b}` expands to `{n: [{l: b}, {l: a}]}` |
| PathExpandExamples.NestedArraysOverwrite | src/lib/index.js:886-898 | `{'n[1].i[1]': a, 'n[1].i[0]': b}` expands to `{n: [ , {i: [b]}]}`: the second array replaces the first |
| TemplateScan.MatchAt | src/lib/index.js:967 | a match is `%{`, a key of non-space, non-`%{}:` characters, an optional `:`/`\|` format without `}`, then `}`; its key and format are well formed |
| TemplateScan.MatchToken | src/lib/index.js:967 | every well-formed token (plain, `:` format or `\|` format) at the head of a string is matched whole, with its own key and format |
| TemplateScan.ScanRoundTrip | src/lib/index.js:967 | the text pieces and raw tokens the scanner cuts a string into concatenate back to the string |
| TemplateScan.BarInsideKey | src/lib/index.js:967 | `%{x\|Y}` is one token with key `x\|Y` and no format (the key run may hold `\|`) |
| TemplateScan.BarOpensFormat | src/lib/index.js:967 | `%{x\|%Y}` backtracks: key `x`, date format `\|%Y` |
| TemplateScan.SpaceIsNoToken | src/lib/index.js:967 | a key with whitespace is no token |
| Template.Prop | src/lib/index.js:987-989 | a key the object does not own reads as `undefined` |
| Template.TemplateStringText | src/lib/index.js:982-994 | text without `%` passes through unchanged |
| Template.TemplateStringToken | src/lib/index.js:982-994 | a token becomes the value's text when truthy, otherwise the empty string; a simple key reads the own property, others go through `nestedProperty` |
| Template.ScanToken | src/lib/index.js:967 | a well-formed token at the head, with or without a `:` or `\|` format, is cut off whole |
| Template.NameTraceExample | src/lib/index.js:974 | `'name: %{trace}'` with `{trace: 'asdf'}` gives `'name: asdf'` |
| Template.ZeroIsBlanked | src/lib/index.js:987-992 | `templateString` turns a `0` value into the empty string |
| TemplateFormat.WarningState.constructor | src/lib/index.js:996-1009 | a fresh warning state has `max` 10, `count` 0 and its formatter's name |
| TemplateFormat.ResolveFromHit | src/lib/index.js:1041-1054 | lookup takes the first truthy source that owns the key (or, for a path key, yields a defined value) |
| TemplateFormat.ResolveFromNone | src/lib/index.js:1041-1054 | when no source holds the key, the value is `undefined` |
| TemplateFormat.FirstOwnSourceWins | src/lib/index.js:1043-1047 | an own property wins even when it holds a falsy value |
| TemplateFormat.ResolveCached | src/lib/index.js:1049-1052 | `getterCache` lookups return the uncached value and keep the cache sound |
| TemplateFormat.TemplateFormatString | src/lib/index.js:1031-1087 | output, new `count` and the warnings logged are those of `FormatRun`, the piece-by-piece reference |
| TemplateFormat.ThrottleShape | src/lib/index.js:1056-1068 | the warnings are one "could not be found" per miss while `count < max`, then one "Too many" exactly when `max` is crossed, then nothing |
| TemplateFormat.FreshThrottle | src/lib/index.js:996-1012 | from a fresh state at most 10 misses are reported, then one "Too many" |
| TemplateFormat.RunCountsMisses | src/lib/index.js:1056-1068 | `count` grows by the number of misses, and the warnings are the throttle of the missed keys |
| TemplateFormat.FormatRunAppend | src/lib/index.js:1038-1086 | formatting a concatenation is formatting the parts in turn, threading `count` |
| TemplateFormat.MissLeavesToken | src/lib/index.js:1056-1068 | a missing key leaves the raw token in the output and counts one miss |
| TemplateFormat.ZeroIsSubstituted | src/lib/index.js:1070-1085 | unlike `templateString`, a `0` value prints `0` |
| TemplateFormat.LabelOnlyWithoutFormat | src/lib/index.js:1070-1084 | without a format an own `<key>Label` replaces the value; with `:` the number formatter sees the value |
| TemplateFormat.DateFormatToken | src/lib/index.js:1077-1081 | `%{x\|%Y}` sends `%Y` and the value to the date formatter |
| NumSeparate.NumSeparate | src/lib/index.js:938-965 | the loop's result is `NumSeparateSpec`, which uses the reference `GroupAll` (every digit run grouped in threes from the right) |
| NumSeparate.InsertOnceGroups | src/lib/index.js:959-961 | one `replace` step keeps the fully grouped form unchanged, which is the loop invariant |
| NumSeparate.NoLongRunFixed | src/lib/index.js:959 | once no run of four digits is left, the string is fully grouped |
| NumSeparate.LongRunLengthens | src/lib/index.js:959-961 | while a long run is left, the grouped form is strictly longer, so the loop ends |
| NumSeparate.StripGroupAll | src/lib/index.js:938-965 | removing the separators from the grouped form gives back the digits |
| NumSeparate.SeparatorsRequired | src/lib/index.js:941-943 | an error is thrown exactly when the separators are not a non-empty string |
| NumSeparate.DecimalPoint | src/lib/index.js:953-963 | with a decimal part, the integer part is grouped and the first separator replaces `.` |
| NumSeparate.ShortIntegersKept | src/lib/index.js:957-958 | integers of four characters or fewer, without the flag, are left alone (years) |
| NumSeparate.YearExample | src/lib/index.js:957-958 | `2016` stays `'2016'` |
| NumSeparate.FlagExample | src/lib/index.js:958-961 | `3000` with `separatethousands` gives `'3,000'` |
| NumSeparate.DecimalExample | src/lib/index.js:938-965 | `'1234.56'` with `'\|,'` gives `'1,234\|56'` |
| NumSeparate.AsWrittenAgrees | src/lib/index.js:960 | for any separator other than `$`, the replacement as written does the intended insertion |
| NumSeparate.DollarSeparatorLosesDigits | src/lib/index.js:960 | with `$` as the separator, the replacement `'$1$$2'` turns `12345` into `12$2`, not `12$345` |
| SubplotSort.SubplotSort | src/lib/index.js:1094-1113 | the loop returns `Compare`, the character-by-character reference with numeral accumulation |
| SubplotSort.Antisymmetric | src/lib/index.js:1094-1113 | `subplotSort(a, b) == -subplotSort(b, a)` |
| SubplotSort.ZeroIffEqual | src/lib/index.js:1094-1113 | for strings without NUL characters, the result is 0 exactly when the ids are equal |
| SubplotSort.NumberedIdsOrder | src/lib/index.js:1094-1113 | ids sharing a digit-free prefix order by the value of their numeric suffix |
| SubplotSort.SceneExample | src/lib/index.js:1094-1113 | `'scene2'` sorts before `'scene10'` |
| Helpers.IsIndexIff | src/lib/index.js:177-180 | a valid index is a non-negative integer (number or digit string) below the length when one is given |
| Helpers.Repeat | src/lib/index.js:192-198 | a fresh array of `cnt` copies of `v`; a negative count throws (`new Array`'s RangeError) |
| Helpers.Constrain | src/lib/index.js:233-236 | the result lies between the bounds (in either order), equals `v` inside them, and clamps outside |
| Helpers.ConstrainIdempotent | src/lib/index.js:233-236 | constraining twice is constraining once |
| Helpers.StripTrailingSlash | src/lib/index.js:422-425 | one trailing `/` is removed, otherwise the string is unchanged |
| Helpers.StripOneSlash | src/lib/index.js:422-425 | only one slash is stripped: `s + '/'` gives back `s` |
| Helpers.TitleCase | src/lib/index.js:685-687 | the first character is upper-cased, the rest kept |
| Helpers.TitleCaseIdempotent | src/lib/index.js:685-687 | title-casing twice is title-casing once |
| Helpers.IndexOf | src/lib/index.js:691 | `indexOf` returns the first occurrence, or -1 when there is none |
| Helpers.ContainsAny | src/lib/index.js:689-694 | true exactly when one of the fragments occurs in the string |
| Containers.NoneOrAll | src/lib/index.js:427-451 | the container's new properties are `NoneOrAllSpec`: when some but not all attributes are set, all are copied from the output container |
| Containers.Survey | src/lib/index.js:435-444 | the first loop finds whether any and whether all attributes are set (neither `undefined` nor `null`) |
| Containers.CopyInto | src/lib/index.js:446-450 | the second loop copies the attributes in order |
| Containers.CopyAttrsValues | src/lib/index.js:447-449 | after the copy each attribute holds the output container's value, and all else is unchanged |
| Containers.NoneOrAllHolds | src/lib/index.js:427-451 | when the output container sets every attribute, afterwards the input container sets none or all of them |
| Containers.MergeArray | src/lib/index.js:462-471 | items below `min(traceAttr.length, cd.length)` get `cdAttr` set (through `fn` when given); the rest are untouched; non-arrays do nothing |
| Containers.FillArray | src/lib/index.js:491-499 | every item gets `cdAttr` set to `fn` of the element at its index, `undefined` past the end |
| Containers.MergeFillAgree | src/lib/index.js:462-499 | both keep items well formed and change only `cdAttr`; they agree within the array's reach, and past it only `fillArray` writes |
| Selection.MakePtIndex2PtNumber | src/lib/index.js:546-555 | the nested loops build `PtMap` |
| Selection.PtMapLastWins | src/lib/index.js:546-555 | an index is mapped exactly when some entry lists it, to the number of the last entry that does |
| Selection.TagSelected | src/lib/index.js:570-596 | the calcdata becomes `Tagged` with the `Targets` of the selection |
| Selection.TargetsIff | src/lib/index.js:584-595 | a calcdata index is tagged exactly when some selected entry is an index that leads to it |
| Selection.TargetsInRange | src/lib/index.js:580-582 | only valid calcdata indices are tagged |
| Selection.TaggedMarks | src/lib/index.js:592-593 | tagged items get `selected: 1`, nothing else changes, and tagging again changes nothing |
| Selection.SelIndices2SelPoints | src/lib/index.js:598-620 | without `_indexToPoints` the selection comes back as is; otherwise the mapped point numbers in order |
| Selection.SelPointsIff | src/lib/index.js:602-614 | a number is listed exactly when a selected index maps to it; every entry is a point number |
| Selection.TagSelectedMatchesSelPoints | src/lib/index.js:570-620 | for identity calcdata, `tagSelected` marks exactly the in-range numbers `selIndices2selPoints` lists |
| MinExtend.MinExtend | src/lib/index.js:651-683 | the result is `MinExtendSpec`: the first loop over `obj1` followed by the second over `obj2` |
| MinExtend.CopyProperties | src/lib/index.js:658-671 | the first loop gives `FirstPass`, recursing into nested objects |
| MinExtend.MergeProperties | src/lib/index.js:673-680 | the second loop gives `SecondPass` |
| MinExtend.MinExtendSpec | src/lib/index.js:651-683 | `obj2 === null` throws, and so does a `null`/`undefined` `obj1` |
| MinExtend.MinExtendKeys | src/lib/index.js:651-683 | the result holds the public, non-function properties of `obj1` and every property of `obj2` |
| MinExtend.MinExtendOverride | src/lib/index.js:673-680 | `obj2`'s non-object values always win; a private key comes only from `obj2`, with its value |
| MinExtend.MinExtendCopies | src/lib/index.js:661-680 | unless overridden, arrays come back cut to three items (`colorscale` whole), and nested objects come back reduced recursively |
| MinExtend.TrimmedShort | src/lib/index.js:663-668 | only `colorscale` keeps more than three array items, and the kept items are a prefix |
| MinExtend.FirstPassHas | src/lib/index.js:658-671 | the first loop keeps exactly the keys not starting with `_` whose values are not functions |
| MinExtend.FirstPassValue | src/lib/index.js:661-670 | the first loop's value per kept key: `module` as is, arrays trimmed, objects recursed, others as is |
| MinExtend.SecondPassAt | src/lib/index.js:673-680 | the second loop writes `obj2`'s value unless both it and the current value are objects, and leaves other keys alone |

## Left out

- **Integer-keyed properties.** JavaScript enumerates integer-like keys first, in ascending order. The model keeps insertion order for every key (`for…in`, `Object.keys`).
- **Prototypes and `hasOwnProperty`.** Only plain objects own properties here. `templateFormatString` tests `obj.hasOwnProperty(key)` (src/lib/index.js:1044); the own index properties and `length` of arrays and strings are not modelled there.
- Template.Prop: `obj[key]` is read off plain objects only. In the source, `templateString` throws a `TypeError` when `obj` is `null` or `undefined`. It also reads inherited names such as `%{constructor}` or `%{toString}`, and the index properties and `length` of strings and arrays. The model yields `undefined`, hence the empty string, in all these cases.
- Template.TemplateString: the `TypeError` on a `null` or `undefined` data object and the inherited names read through the prototype chain are not modelled (see `Template.Prop`).
- **Numbers.**
  - Numbers are integers; floating point is out of scope.
  - `String(n)` is decimal digits with an optional minus sign. The exponent form of large numbers is not modelled.
  - `isNumeric` accepts only numbers and digit strings. Leading zeros and signs in numeric strings are not modelled.
- **`extendDeepNoArrays` and `nestedProperty`.** Their code is not part of this model.
  - `extendDeepNoArrays` is modelled from its documented behaviour: arrays copied by reference, plain objects merged deeply, `undefined` skipped.
  - `nestedProperty` lookups are a parameter (`lookup`).
- **Formatting.** The d3 number and date formatters are parameters (`Formatters`). So the `'price: %{y:$.2f}'` doc example is not computed.
- **Logging.** `Lib.warn` is modelled as a ghost log of messages on the warning state.
- **`templateString` getter cache.** It caches the getter function, not the value, so it cannot change a result; it is not modelled.
- **Line terminators in keys.** The path regexes' `.` does not match line terminators; the model treats them as ordinary characters.
- **`objectFromPath` indices.** Bracket indices are taken by numeric value. Leading zeros and indices beyond 2^32-2 are not modelled.
- PathExpand.ExpandObjectPaths: values are trees, so in-place updates seen through shared sub-objects are not captured. In the source, `expandObjectPaths({a: s, 'a.b': 1, d: s})` with `s = {c: 2}` writes `b` into `s` itself, so `d` becomes `{c: 2, b: 1}` as well; in the model only `a` changes.
- PathExpand.ExpandObjectPaths: the recursion carries a `fuel` bound because merged values are expanded again. When the bound is reached, the model reports `TooDeep` where the code would carry on.
- PathExpandPlace.FreshKeyPlaced: states the placed value only when the expanded value holds no `undefined` and no repeated key at any depth (`Clean`). The merge skips `undefined` properties, so the prop then receives less than `objectFromPath` builds; `PathExpandProps.DottedKeyPlaced` and `PathExpandProps.IndexedKeyPlaced` state that case as the merge itself.
- PathExpandPlace.ExpandReaches: needs the same `Clean` condition when the value is merged rather than stored. It also needs that no other key of the object is the key's prop, shares its prop, or has the key itself as its prop (`Undisturbed`). Keys that write into the same prop merge or overwrite, which `PathExpandExamples.ParallelIndexedKeys` and `PathExpandExamples.NestedArraysOverwrite` show on examples.
- PathExpandPlace.LoneDottedKey: needs the `Clean` condition for the same reason as `FreshKeyPlaced`.
- **Named properties on arrays or functions.** `expandObjectPaths` writing a named property onto an array or a function is reported as `Unmodelled`.
- NumSeparate.NumSeparate: requires that the thousands separator is not a digit. With a digit separator the code's `while` loop never ends.
- NumSeparate.NumSeparate: values other than numbers and strings end in `TypeError` ("value.split is not a function"); array values are not modelled.
- **`tagSelected` and `selIndices2selPoints` indices.**
  - Indices are numbers or digit strings taken by value. A digit string with leading zeros (a different property name in JavaScript) is not modelled.
  - `ptNumber2cdIndex` maps to non-negative integers.
- **Aliasing.** `cd`, the calcdata array and the `noneOrAll` container are assumed not to share items.
- Containers.MergeArray: `fn` applies when present. Other values of `fn` stand for "no function", which matches `typeof fn === 'function'`.
- MinExtend.MinExtendKeys: the per-key lemmas assume each object holds a key once (`UniqueKeys`), as JavaScript objects do.
- SubplotSort.SubplotSort: strings are sequences of code points, and `charCodeAt` is modelled as the code point at each position. The source compares UTF-16 code units. So strings with characters beyond U+FFFF may order differently: `'\u{10000}'` (code units `0xD800 0xDC00`) sorts before `'\u{FFFF}'` in the source and after it in the model.
- NumSeparate.NumSeparate: with a `$` separator the model computes the intended grouping, not the source's (see ## Findings).
- **`titleCase`** upper-cases ASCII letters only; full Unicode case mapping is not modelled.
- **The rest of `src/lib/index.js`** is not modelled: DOM, d3, randomness, `syncOrAsync`, `smooth`, `randstr` and the other re-exported modules.

## Findings

| source | as written | input that shows it | evidently intended | confidence | as-written member | corrected member |
|---|---|---|---|---|---|---|
| src/lib/index.js:960 | `x1.replace(thousandsRe, '$1' + thouSep + '$2')` builds the replacement pattern from the separator, so a `$` separator makes it `'$1$$2'`: `$$` is a literal `$`, and the second group's digits are replaced by the text `2` | `numSeparate(12345, '.$')` gives `'12$2'` | `'12$345'`: the separator inserted before the last three digits, digits kept (a replacement function, or `$` escaped as `$$`) | not executed | NumSeparate.DollarSeparatorLosesDigits | NumSeparate.StripGroupAll |
