# quill-delta-to-html core, in Dafny

This project models the decision logic of `quill-delta-to-html`, which turns a Quill
delta (a list of insert operations with formatting attributes) into HTML. It covers four
pieces and proves properties of each:

- **The attribute sanitizer** (`OpAttributeSanitizer`). It turns an untrusted attribute
  object into a record built from a fixed whitelist. Each key has its own check: flags,
  hex colours, font and size patterns, enumerations, clamped numbers, a scrubbed link,
  and `user` renamed to `id`.
- **The insert-op converter** (`InsertOpsConverter`). It turns raw ops into typed ops:
  - it drops unusable entries;
  - it classifies the insert payload by the first embed key it has;
  - it promotes the attributes embedded in a mention or file;
  - it sanitizes the attributes of every op.
- **Two string helpers** (`StringExt`): the line tokenizer `_tokenizeWithNewLines` and the
  URL filter `_scrubUrl`.
- **The per-op renderer** (`OpToHtmlConverter`). For one typed op it works out:
  - the tag list;
  - the CSS classes and styles;
  - the tag attributes;
  - the content;
  - the opening and closing tag structure.

  Tags are kept as structure: a tag name with key/value pairs, not markup.

JavaScript values are a datatype `JValue` (`js_value.dfy`):
- `Truthy` models truthiness;
- `ToJsString` models `String(v)`;
- `ToNumber` models `Number(v)`;
- `Get` models `v[key]` on an object, where an absent key reads as `JUndefined`. Reading a
  property of any other value also gives `JUndefined`. That is not true of JavaScript for
  every key: `"ab".length` is 2 and `"ab".link` is a function. It is true for the keys this
  library reads. `insert`, `attributes`, `mention`, `file`, `user` and `name` are on none of
  the String, Number, Boolean or Array prototypes. The whitelisted attribute names are read
  only after the `typeof` object check (`src/OpAttributeSanitizer.ts:12`), so only on objects
  and arrays, and none of them is on the Array prototype. For `null` and `undefined`
  JavaScript throws (see "## Left out").

A sanitized attribute object is the record `Attrs`: twenty optional fields. `ToJs` gives
the same record as the JavaScript object that the renderer indexes by name
(`op_attributes.dfy`).

Code that these files call but that is not part of this model is passed in as function
parameters. That covers the `DeltaInsertOp` predicates `isContainerBlock`,
`isJustNewline` and `isLink`, `encodeHtml`, and the denormalizer.

Where the code and its design description differ, the model follows the code:
- `InsertData` tests `Object(this.value)` before assigning the field. That test is always
  truthy, so the payload is stored unchanged and never coerced to a string
  (`src/InsertData.ts:9-12`).
- The sanitizer writes `id`, which `IOpAttributes` does not declare. Every output key
  therefore comes from an input key of the same name, except `id`, which comes from
  `user`.
- `header` and `indent` are only capped from above. Negative values pass through.

## Model

| member | source | states |
|---|---|---|
| JsValue.Get | src/OpAttributeSanitizer.ts:16-18 | reading a property the object does not have gives undefined |
| JsValue.NumberOfString | src/OpAttributeSanitizer.ts:55-57 | `Number(String(n))` is `n` for every integer, so a numeric header or indent written as a string reads back as the same number |
| StringExt.Split | dist/commonjs/extensions/String.js:7 | `split("\n")` always gives at least one segment |
| StringExt.SplitShape | dist/commonjs/extensions/String.js:7 | there is one more segment than there are newlines, and no segment contains a newline; joining the segments with newlines gives the input back, and concatenating them gives the input with its newlines removed |
| StringExt.SplitLines | dist/commonjs/extensions/String.js:7 | there are k+1 segments for k newlines, and none contains a newline |
| StringExt.SplitJoin | dist/commonjs/extensions/String.js:7 | joining the segments with newlines rebuilds the input |
| StringExt.SplitConcat | dist/commonjs/extensions/String.js:7 | concatenating the segments gives the input without its newlines |
| StringExt.NoNewLineSplit | dist/commonjs/extensions/String.js:7-10 | a string without a newline splits into itself alone |
| StringExt.LineTokens | dist/commonjs/extensions/String.js:1-29 | every input, the empty string included, gives at least one token, so no text insert disappears when it is split into lines |
| StringExt.TokenizeWithNewLines | dist/commonjs/extensions/String.js:1-29 | the reduce loop returns the line tokens: `[s]` for a bare newline, the single segment when there is no newline, and otherwise each non-final segment (or a newline for an empty one) followed by the final segment when it is non-empty |
| StringExt.ReducedShape | dist/commonjs/extensions/String.js:13-26 | after k segments the accumulator holds at most k tokens; each token is a bare newline or a non-empty piece without a newline; the text tokens concatenate to the first k segments |
| StringExt.TokensOfNewLine | dist/commonjs/extensions/String.js:4-5 | the string `"\n"` gives `["\n"]` |
| StringExt.TokensWithoutNewLine | dist/commonjs/extensions/String.js:7-10 | a string without a newline, the empty string included, gives itself as the only token |
| StringExt.TokensShape | dist/commonjs/extensions/String.js:11-26 | for an input with a newline: at most newlines+1 tokens, each a bare newline or a non-empty newline-free piece, and the text tokens concatenate to the input with its newlines removed |
| StringExt.TokenizeDropsNewLine | dist/commonjs/extensions/String.js:14-17 | as written, `"a\nb"` tokenizes to `["a", "b"]`, and joining the tokens does not rebuild the input |
| StringExt.KeptLineTokens | dist/commonjs/extensions/String.js:13-26 | the corrected tokenizer also gives at least one token for every input |
| StringExt.KeptTokensRebuild | dist/commonjs/extensions/String.js:13-26 | with a newline token kept after every non-empty non-final segment, the tokens concatenate to exactly the input, for every input |
| StringExt.ScrubUrl | dist/commonjs/extensions/String.js:30-32 | the scrubbed URL contains only characters of the safe class, and is no longer than the input |
| StringExt.ScrubSubsequence | dist/commonjs/extensions/String.js:31 | the scrubbed URL is the input with some characters deleted (a subsequence) |
| StringExt.ScrubKeepsSafeChars | dist/commonjs/extensions/String.js:31 | every safe character appears in the output exactly as often as in the input |
| StringExt.ScrubSafe | dist/commonjs/extensions/String.js:31 | a string made only of safe characters is returned unchanged |
| StringExt.ScrubIdempotent | dist/commonjs/extensions/String.js:31 | scrubbing twice is the same as scrubbing once |
| StringExt.ScrubConcat | dist/commonjs/extensions/String.js:31 | scrubbing distributes over concatenation |
| StringExt.ScriptSchemeSurvives | dist/commonjs/extensions/String.js:31 | `javascript:alert(1)` passes through unchanged: the filter restricts characters, not URL schemes |
| OpAttributes.Field | src/IOpAttributes.ts:4-40 | reading a name outside the sanitizer's whitelist gives undefined |
| OpAttributes.ToJs | src/OpAttributeSanitizer.ts:10-79 | the record seen as an object has only whitelisted keys, and never holds undefined under a key |
| OpAttributes.ToJsGet | src/OpAttributeSanitizer.ts:10-79 | reading a name from the object gives the record's field under that name |
| OpAttributes.ToJsEmpty | src/OpAttributeSanitizer.ts:10-14 | the empty record is the empty object `{}` |
| OpAttributes.ToJsShows | src/OpAttributeSanitizer.ts:10-79 | each of the twenty whitelisted names reads back its own field from the object |
| OpAttributes.ToJsNoUser | src/OpAttributeSanitizer.ts:75-77 | a sanitized object never has a `user` key |
| OpAttributeSanitizer.IsValidHexColor | src/OpAttributeSanitizer.ts:82-84 | a string that passes (`#` and three or six hex digits) has no quote, angle bracket, ampersand, colon or semicolon, so it cannot leave the `style` attribute it is written into |
| OpAttributeSanitizer.IsValidFontName | src/OpAttributeSanitizer.ts:86-88 | a font name that passes has none of those characters either, so it cannot leave the `class` attribute it is written into |
| OpAttributeSanitizer.IsValidSize | src/OpAttributeSanitizer.ts:90-92 | a size that passes has none of those characters either |
| OpAttributeSanitizer.Sanitized | src/OpAttributeSanitizer.ts:8-80 | a falsy or non-object input gives the empty record; whatever the input, each kept background, colour, font and size is inert in an attribute, and the link holds only URL-safe characters |
| OpAttributeSanitizer.Sanitize | src/OpAttributeSanitizer.ts:8-80 | the method, with its early return, two loops and the per-key copies, computes exactly the declarative sanitized record |
| OpAttributeSanitizer.CopyScalars | src/OpAttributeSanitizer.ts:35-77 | the single-key copies after the loops set exactly the keys whose check passes, and leave the rest of the record alone |
| OpAttributeSanitizer.CopyFormats | src/OpAttributeSanitizer.ts:35-53 | font, size, link, script and list are copied when their checks pass |
| OpAttributeSanitizer.CopyLayout | src/OpAttributeSanitizer.ts:55-77 | header, align, direction, indent, name, and `user` as `id`, are copied when their checks pass |
| OpAttributeSanitizer.FlagLoopDone | src/OpAttributeSanitizer.ts:20-26 | after the flag loop, each of the seven flags holds `true` exactly when its input is truthy, and nothing else is set |
| OpAttributeSanitizer.ColourLoopDone | src/OpAttributeSanitizer.ts:28-33 | after the colour loop, background and color hold their input exactly when it passes the hex-colour check |
| OpAttributeSanitizer.SanitizedInSteps | src/OpAttributeSanitizer.ts:16-79 | running the two loops and then the single-key copies gives the sanitized record |
| OpAttributeSanitizer.SanitizedNonObject | src/OpAttributeSanitizer.ts:12-14 | a falsy or non-object input gives the empty record, which is the empty object |
| OpAttributeSanitizer.SanitizedFlags | src/OpAttributeSanitizer.ts:20-26 | each flag is present exactly when the input object's value under it is truthy |
| OpAttributeSanitizer.SanitizedStyles | src/OpAttributeSanitizer.ts:28-41 | background, color, font and size are present exactly when the value is truthy and its string form passes its validator, and they are then the input value unchanged |
| OpAttributeSanitizer.SanitizedEnums | src/OpAttributeSanitizer.ts:47-65 | script, list, align and direction are present exactly when the input is one of the allowed strings, and they are then that string |
| OpAttributeSanitizer.SanitizedNumbers | src/OpAttributeSanitizer.ts:55-57 | header is present exactly when its number is nonzero; it then equals the input when within the bound 6 and is 6 above it, so a header of 10 sanitizes to 6 (indent likewise with 30, lines 67-69) |
| OpAttributeSanitizer.SanitizedLinkAndIds | src/OpAttributeSanitizer.ts:43-45 | link is present exactly when the input link is truthy and holds the scrubbed string; name and id (from `user`) are present exactly when truthy with a non-empty string form (lines 71-77) |
| OpAttributeSanitizer.SanitizedIsClean | src/OpAttributeSanitizer.ts:20-77 | every sanitized record is clean: each present value passes the check that admitted it, and the link is made of safe characters |
| OpAttributeSanitizer.SanitizedStylesClean | src/OpAttributeSanitizer.ts:28-45 | colours, font, size and link of a sanitized record pass their checks |
| OpAttributeSanitizer.SanitizedFlagsClean | src/OpAttributeSanitizer.ts:20-26 | no sanitized flag is `false` |
| OpAttributeSanitizer.SanitizedLayoutClean | src/OpAttributeSanitizer.ts:47-69 | sanitized enumerations hold allowed values, and header and indent are nonzero and within their caps |
| OpAttributeSanitizer.FieldsFromInput | src/OpAttributeSanitizer.ts:16-77 | every present field comes from an input property of the same name; `id` comes from `user` |
| OpAttributeSanitizer.SanitizedKeys | src/OpAttributeSanitizer.ts:10-79 | the output object has only whitelisted keys; each of them is a key of the input, except `id`, whose input key is `user` |
| OpAttributeSanitizer.ResanitizeClean | src/OpAttributeSanitizer.ts:43-45 | sanitizing the object of a clean record gives the record back, with `id` dropped (lines 75-77) and an empty link dropped |
| OpAttributeSanitizer.SanitizeNearlyIdempotent | src/OpAttributeSanitizer.ts:8-80 | sanitizing a sanitized object again changes nothing, except that `id` and an empty link are dropped |
| InsertOpsConverter.ConvertInsertVal | src/InsertOpsConverter.ts:47-67 | a string gives a text insert with that string; any other value that is not a truthy object gives nothing; otherwise the result is an embed whose key the payload has, carrying the value under that key |
| InsertOpsConverter.ClassifiedByFirstKey | src/InsertOpsConverter.ts:56-66 | an object is classified by the first of image, video, mention, file and formula that it has, whatever later keys it also has |
| InsertOpsConverter.UnclassifiedObject | src/InsertOpsConverter.ts:52-66 | a non-string value with none of the embed keys gives nothing |
| InsertOpsConverter.PayloadRoundTrip | src/InsertOpsConverter.ts:47-67 | converting the payload of an insert gives that insert back, when a text insert holds a string |
| InsertOpsConverter.ClassifiedTextIsString | src/InsertOpsConverter.ts:48-50 | a text insert always holds a string |
| InsertOpsConverter.PromotedAttributes | src/InsertOpsConverter.ts:34-39 | the op's own attributes are used when truthy; otherwise a truthy mention's attributes when truthy; otherwise a truthy file's attributes; with neither payload the falsy own attributes stay; a truthy result is one of these three |
| InsertOpsConverter.ConvertOp | src/InsertOpsConverter.ts:26-42 | an op is skipped exactly when its insert is falsy or cannot be classified; otherwise it gives the classified insert, with exactly the sanitized promoted attributes (`sanitize` of the op's own attributes, or the mention's or file's), which form a clean record |
| InsertOpsConverter.Denormalized | src/InsertOpsConverter.ts:19-20 | when the denormalizer returns no array, flattening is a plain map: one op per input op, in order |
| InsertOpsConverter.DenormalizedConcat | src/InsertOpsConverter.ts:19-20 | flattening a concatenation is the concatenation of the flattened parts, whatever the denormalizer returns |
| InsertOpsConverter.DenormalizedOne | src/InsertOpsConverter.ts:19-20 | one op flattens to the elements of the array the denormalizer returns for it, or to that single value |
| InsertOpsConverter.Converted | src/InsertOpsConverter.ts:13-45 | a non-array gives `[]`; otherwise there is at most one typed op per denormalized op, every typed op is the conversion of some denormalized op, and every typed op has clean attributes |
| InsertOpsConverter.Convert | src/InsertOpsConverter.ts:13-45 | the loop returns the conversion of the denormalized ops in order (each kept op with its sanitized promoted attributes), and a non-array input gives `[]` |
| InsertOpsConverter.ConvertAllConcat | src/InsertOpsConverter.ts:25-43 | converting a list split in two is converting the two parts and appending the results, so output order follows input order |
| InsertOpsConverter.ConvertAllShorter | src/InsertOpsConverter.ts:25-43 | each denormalized op gives at most one output, so the output is no longer than the denormalized list |
| InsertOpsConverter.ConvertAllOrigin | src/InsertOpsConverter.ts:25-43 | every output comes from some input op, and its attributes are clean (line 40) |
| InsertOpsConverter.TextOpKept | src/InsertOpsConverter.ts:26-33 | a non-empty string insert always gives one text op holding that string |
| OpToHtmlConverter.WithDefaults | src/OpToHtmlConverter.ts:28-36 | each option passed is kept, and each option left out takes its default: prefix `ql`, encoding on, `li`, `p` |
| OpToHtmlConverter.OpToHtmlConverter.constructor | src/OpToHtmlConverter.ts:28-36 | the renderer holds the op, the options overlaid on the defaults, and the op's attributes as an object |
| OpToHtmlConverter.OpToHtmlConverter.PrefixClass | src/OpToHtmlConverter.ts:38-43 | with an empty prefix the class is returned bare; otherwise it is the prefix, a hyphen, then the class |
| OpToHtmlConverter.OpToHtmlConverter.PrefixClassInjective | src/OpToHtmlConverter.ts:38-43 | distinct classes stay distinct after prefixing |
| OpToHtmlConverter.OpToHtmlConverter.PrefixAll | src/OpToHtmlConverter.ts:102 | every class of the list is prefixed, in order |
| OpToHtmlConverter.OpToHtmlConverter.GetCssClasses | src/OpToHtmlConverter.ts:90-103 | the classes are `prop-value` for each set property among indent, align, direction, font and size, in that order, then formula, video or image, all prefixed |
| OpToHtmlConverter.OpToHtmlConverter.NoClassesForPlainText | src/OpToHtmlConverter.ts:90-103 | a text op with none of the five class properties has no classes |
| OpToHtmlConverter.OpToHtmlConverter.EmbedClassLast | src/OpToHtmlConverter.ts:99-101 | an image, video or formula ends its class list with its own prefixed kind |
| OpToHtmlConverter.OpToHtmlConverter.GetCssStyles | src/OpToHtmlConverter.ts:106-113 | `background-color:` followed by the background when it is set, then `color:` followed by the colour when it is set |
| OpToHtmlConverter.OpToHtmlConverter.ClassAttr | src/OpToHtmlConverter.ts:122-123 | at most one attribute, and it is `class` |
| OpToHtmlConverter.OpToHtmlConverter.Src | src/OpToHtmlConverter.ts:126 | the `src` attribute holds only safe URL characters |
| OpToHtmlConverter.OpToHtmlConverter.MentionAttributes | src/OpToHtmlConverter.ts:141-147 | a mention gets three attributes ending with `class=mention`, and never a `src` or an `href` |
| OpToHtmlConverter.OpToHtmlConverter.KindAttributes | src/OpToHtmlConverter.ts:125-154 | every `src` after the class attribute is URL-safe; an `href` appears only for a plain link (no embed, no container block, `isLink`), and then holds the string form of the link; a plain link always ends with its `href` |
| OpToHtmlConverter.OpToHtmlConverter.GetTagAttributes | src/OpToHtmlConverter.ts:115-155 | code gets no attributes; anything else gets its class attribute first, then the attributes of its kind of op |
| OpToHtmlConverter.OpToHtmlConverter.TagAttributesSrcSafe | src/OpToHtmlConverter.ts:125-138 | every `src` attribute, for an image or a video, is the insert value with its unsafe characters scrubbed, and so is URL-safe |
| OpToHtmlConverter.OpToHtmlConverter.TagAttributesByKind | src/OpToHtmlConverter.ts:115-154 | for an op that is not code, the attributes written out per kind: the class attribute with the classes joined by spaces (absent when there are none), then the scrubbed `src` of an image; nothing more for a formula or container block; `frameborder=0`, `allowfullscreen=true` and the scrubbed `src` of a video; `data-user`, `data-name` and `class=mention` of a mention; the styles joined by `;` and then the link as `href` for every other op: text, a file, or an unclassified embed |
| OpToHtmlConverter.OpToHtmlConverter.TagAttributesHref | src/OpToHtmlConverter.ts:115-154 | an `href` attribute appears exactly when the op is not code, not an embed, not a container block, and `isLink` holds |
| OpToHtmlConverter.OpToHtmlConverter.HrefOnlyForLinks | src/OpToHtmlConverter.ts:115-155 | an `href` attribute means the op is a plain link |
| OpToHtmlConverter.OpToHtmlConverter.AttrIsField | src/OpToHtmlConverter.ts:158 | the attribute object the renderer indexes by name reads, under every name, the field of the op's attribute record |
| OpToHtmlConverter.OpToHtmlConverter.LinkSafe | src/OpToHtmlConverter.ts:154 | for a clean attribute record, the link written into `href` is URL-safe: the scrubbed link, or `undefined` when there is none |
| OpToHtmlConverter.OpToHtmlConverter.HrefSafe | src/OpToHtmlConverter.ts:152-154 | for an op with clean attributes, as every op that `convert` returns, every `href` attribute holds only URL-safe characters |
| OpToHtmlConverter.OpToHtmlConverter.LinkHasHref | src/OpToHtmlConverter.ts:152-154 | a plain link ends its attributes with `href` |
| OpToHtmlConverter.OpToHtmlConverter.VideoAttributes | src/OpToHtmlConverter.ts:133-138 | a video outside a container block gets `frameborder=0` and `allowfullscreen=true` |
| OpToHtmlConverter.OpToHtmlConverter.Blocks | src/OpToHtmlConverter.ts:176-179 | the block table has seven entries, each naming a property |
| OpToHtmlConverter.OpToHtmlConverter.FirstBlockFrom | src/OpToHtmlConverter.ts:180-184 | the chosen entry is set, and no entry before it is set; no choice means no entry from that point on is set |
| OpToHtmlConverter.OpToHtmlConverter.BlockTag | src/OpToHtmlConverter.ts:182 | a header's tag is `h` followed by the string form of its level; any other block's tag is taken from its table entry, the entry's second element when it has one |
| OpToHtmlConverter.OpToHtmlConverter.Tags | src/OpToHtmlConverter.ts:157-196 | code gives `["code"]`; a non-text op gives `iframe`, `img` or `span`; there are never more tags than inline formats |
| OpToHtmlConverter.OpToHtmlConverter.GetTags | src/OpToHtmlConverter.ts:157-196 | the method, with its early returns and its loop over the block table, returns the tags |
| OpToHtmlConverter.OpToHtmlConverter.InlineTagsShorter | src/OpToHtmlConverter.ts:187-195 | filtering the inline table gives at most one tag per entry |
| OpToHtmlConverter.OpToHtmlConverter.InlineTags | src/OpToHtmlConverter.ts:187-195 | when no property of the table is set, there are no inline tags |
| OpToHtmlConverter.OpToHtmlConverter.BlockDecides | src/OpToHtmlConverter.ts:174-184 | for text that is not code, the first set block property decides a single tag, whatever else is set |
| OpToHtmlConverter.OpToHtmlConverter.BlockOrder | src/OpToHtmlConverter.ts:174-184 | for text that is not code, the block priority and tags: `blockquote`, then `pre` for a code block, then the list item tag, then `h` and the header level, then the paragraph tag (`p` when none is configured) for alignment, direction or indentation |
| OpToHtmlConverter.OpToHtmlConverter.InlineOrder | src/OpToHtmlConverter.ts:187-195 | with no block property set, the tags are `a`, `sub`/`sup`, `strong`, `em`, `s`, `u`, each only when set and in that order; `sub` only for script = sub |
| OpToHtmlConverter.OpToHtmlConverter.InlineTableTags | src/OpToHtmlConverter.ts:187-195 | the filtered and mapped inline table, written out entry by entry |
| OpToHtmlConverter.OpToHtmlConverter.NamedStep | src/OpToHtmlConverter.ts:189-194 | an inline entry other than script contributes its tag exactly when its property is set |
| OpToHtmlConverter.OpToHtmlConverter.GetContent | src/OpToHtmlConverter.ts:79-88 | a container block gives `""`; a mention gives its name; text and formula give their encoded value when encoding is on and the encoding is non-empty, and otherwise the raw value; other embeds give the encoding of `""` when encoding is on and that is non-empty, and otherwise `""` |
| OpToHtmlConverter.OpToHtmlConverter.PartTags | src/OpToHtmlConverter.ts:58-60 | the tags, or a single `span` when there are none but there are attributes |
| OpToHtmlConverter.OpToHtmlConverter.GetHtmlParts | src/OpToHtmlConverter.ts:50-77 | a bare newline outside a container block is the newline with no tags; otherwise the tags open in order with the attributes on the first, the content is the op's content, and the tags close in reverse order |
| OpToHtmlConverter.OpeningTags | src/OpToHtmlConverter.ts:64-69 | one start tag per tag, in order; the attributes go on the first only |
| OpToHtmlConverter.ClosingTags | src/OpToHtmlConverter.ts:66-70 | one end entry per tag, in reverse order; the entry is empty exactly for `img` |
| OpToHtmlConverter.OpenAndClose | src/OpToHtmlConverter.ts:62-70 | the loop, which consumes the attributes on the first tag and then reverses the end tags, produces the opening and closing tags |
| OpToHtmlConverter.ConvertedTextContent | src/OpToHtmlConverter.ts:79-88 | a non-empty text insert that the converter keeps renders, with encoding off and outside a container block, as exactly its string |
| OpToHtmlConverter.KeyInConcat | src/OpToHtmlConverter.ts:153-154 | a key that none of the leading attributes has is found in the ones appended after them |

## Findings

| source | as written | input that shows it | evidently intended | confidence | as-written member | corrected member |
|---|---|---|---|---|---|---|
| dist/commonjs/extensions/String.js:14-17 | a non-empty segment that is not the last is pushed without a newline token after it | `"a\nb"` gives `["a", "b"]`, so the newline between the two lines is lost | push the segment and then a newline, so the tokens concatenate to the input (an empty segment already becomes a newline token) | medium, not executed | StringExt.TokenizeDropsNewLine | StringExt.KeptTokensRebuild |

`StringExt.TokenizeWithNewLines` models the code as written. The corrected tokenizer is
`StringExt.KeptLineTokens`. Nothing else in this model calls the tokenizer.

## Left out

- The `console.log` calls in `_tokenizeWithNewLines`. They are debugging output and do not change the result.
- Numbers are integers.
  - `Number()` reads an optional sign followed by decimal digits.
  - Whitespace, fractions, hexadecimal forms and `Infinity` are not modelled.
  - Any other string reads as 0, which stands for both 0 and NaN; both are falsy.
  - `Math.min` is taken on integers.
- Strings are sequences of characters, not UTF-16 code units.
- The regular expressions of the three validators and of `_scrubUrl` are written as character predicates with length bounds.
- `OpAttributeSanitizer.Sanitize`: the sanitized record is a new value. `InsertOpsConverter.Convert` does not write the promoted attributes back into the raw op, so the model does not capture that mutation or any aliasing of the op.
- Collaborators that are not part of this model are parameters:
  - the denormalizer;
  - `encodeHtml`;
  - `isContainerBlock`, `isJustNewline` and `isLink`.

  `makeStartTag` and `makeEndTag` are kept as structure (`StartTag`, `EndTag`), not markup. `getHtml` concatenates markup and is not modelled.
- `Object._assign` is modelled as: a given option wins. An option passed explicitly as `undefined` is not distinguished from one left out.
- `InsertOpsConverter.Convert`: a null or undefined entry after denormalization makes the source throw when it reads `op.insert`. The model skips such an entry.
- `InsertOpsConverter.Denormalized`: `map` also passes the index and the array to the denormalizer. The model passes only the op.
- `value-types.ts` is not part of this model. The `DataType` names are taken as `image`, `video`, `mention`, `file` and `formula`, and the enumeration strings as `sub`, `super`, `bullet`, `ordered`, `center`, `right` and `rtl`.
- `_preferSecond` is modelled as: the second element when there is one, otherwise the first.
- `OpToHtmlConverter.OpToHtmlConverter.GetContent`: text and formula content is the string `ToJsString` of the insert value. The source passes the raw `insert.value` to `encodeHtml`, or returns it unconverted when encoding is off or empty (`src/OpToHtmlConverter.ts:86-87`), so `{formula: 5}` yields the number 5 there and the string `"5"` here.
- `OpToHtmlConverter.OpToHtmlConverter.GetContent`: a mention's `name` is returned through `String()`. The source returns the raw value, which is not always a string.
- `OpToHtmlConverter.OpToHtmlConverter.GetTagAttributes`: a missing link is written `String(undefined)`, which is `"undefined"`. The source passes `undefined` itself.
- `OpToHtmlConverter.OpToHtmlConverter.GetTagAttributes`: `convertInsertVal` classifies `{mention: null}` as a mention whose value is `null`. Outside a container block, the source then throws a TypeError when it reads `.user` (`src/OpToHtmlConverter.ts:143`). The model reads `undefined` and writes `data-user="undefined"` and `data-name="undefined"`; it does not model exceptions.
- `OpToHtmlConverter.OpToHtmlConverter.GetContent`: for the same null mention, the source throws when it reads `.name` (`src/OpToHtmlConverter.ts:84`). The model returns `"undefined"`.
- `IOpAttributes` also declares file-related keys (`url`, `filename` and others). The sanitizer never emits them, so `Attrs` does not have them.
