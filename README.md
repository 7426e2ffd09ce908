# Mustache templates, modelled in Dafny

This project models the core of Mustache, a Swift template engine in two flavours:

- The plain flavour. `MustacheParser` turns `{{…}}` source into a tree of `MustacheNode`s. The tree serializes back to source and renders into a string against a context of values.
- The attributed flavour. `AttributedMustacheParser` builds a tree of `AttributedMustacheNode`s from an `NSAttributedString`. That tree renders into an attributed string. The text of the template keeps its attributes, and a tag's value takes the attributes of the tag's key.

Both renderers keep a stack of scopes. A section over a collection renders its children once per element. A section over any other true value renders them once. An inverted section renders them only for a false value. A tag looks its key up innermost scope first. A partial renders a named template in the current scope. A lambda section hands the section's children, serialized back to source, to a closure.

The model has one Dafny module per source file, plus two small ones:

| module | models |
|---|---|
| `Wrappers` | an `Option` type |
| `AttributedText` | `NSAttributedString` as a sequence of characters, each with its attribute dictionary, and `NSMutableAttributedString` |
| `Helpers` | the values a template renders against, `isMustacheTrue` and `isFoundationBaseType` |
| `MustacheNode` | the plain tree, `asMustacheString`, `hasKeys`, `keys` |
| `MustacheParser` | the plain parser: specification functions and the `Parser` class with its cursor |
| `MustacheRoundTrip` | parsing what the serializer writes gives the tree back |
| `MustacheRendering` | the plain renderer: specification functions, a rendering context class and the render methods |
| `AttributedMustacheNode` | the attributed tree and its plain and attributed serializations |
| `AttributedMustacheParser` | the attributed parser as written |
| `AttributedRenderingContext` | `AttributedMustacheDefaultRenderingContext` |
| `AttributedMustacheRendering` | the attributed renderer |

Each operation that works by changing state is a `method` of a class, or a method over a context object. Examples are the parsers' cursor loops and the renderers' appends, pushes and pops. Each such method is proved against a specification function of its inputs: `ParseF`, `Rendered` and their companions. The properties the source and its tests promise are lemmas about those functions. Examples are the round trip, section truthiness, scope lookup, lambda behaviour and the rendered output of the test templates.

The attributed parser is modelled as written. As written it reports end of input while the cursor is still inside the input. It also reads lookahead from the start of the input rather than from the cursor. The model proves that, as a consequence, every input parses to `Empty`. The attributed renderer is therefore specified over arbitrary trees. `ParseAndRender` proves that the attributed rendering tests, which parse their templates first, render nothing as written. The other test lemmas render the trees those templates are meant to parse to.

## Model

| member | source | states |
|---|---|---|
| AttributedText.Chars | Sources/AttributedMustache/AttributedMustacheRendering.swift:160 | the `.string` of an attributed string has its characters, in order, and no attributes |
| AttributedText.WithAttributes | Sources/AttributedMustache/AttributedMustacheRendering.swift:100 | `NSAttributedString(string:attributes:)` gives every character of the string the same attributes |
| AttributedText.Unattributed | Sources/AttributedMustache/AttributedMustacheRendering.swift:153-162 | `NSAttributedString(string:)` gives every character no attributes |
| AttributedText.CharsAppend | Sources/AttributedMustache/AttributedMustacheRendering.swift:160 | `.string` of appended strings is the concatenation of their `.string`s; see also Sources/Mustache/AttributedMustacheRenderingContext.swift:76-78 |
| AttributedText.CharsWithAttributes | Sources/AttributedMustache/AttributedMustacheRendering.swift:100 | attributing a string and taking `.string` again gives the string back; see also Sources/AttributedMustache/AttributedMustacheRendering.swift:160 |
| AttributedText.MutableAttrString.constructor | Sources/Mustache/AttributedMustacheRenderingContext.swift:61 | `NSMutableAttributedString()` starts empty |
| AttributedText.MutableAttrString.Append | Sources/Mustache/AttributedMustacheRenderingContext.swift:76-78 | `append` adds the string, attributes included, at the end |
| Helpers.DisplayStyleOf | Sources/Mustache/Helpers.swift:38-41 | a mirror has a display style exactly for `NSNumber`, `NSAttributedString` (classes) and reflected values (their own style) |
| Helpers.IsFoundationBaseType | Sources/Mustache/Helpers.swift:18-25 | only `NSNumber`, `NSString` and `NSValue` objects are base types, and they are all classes |
| Helpers.IsMustacheTrue | Sources/Mustache/Helpers.swift:28-46 | `nil` is false; a `Bool` is itself; an `Int` is true unless 0; a `String` unless empty; an `NSNumber` is its `boolValue`; no display style is false; a non-collection is true; a collection is true exactly when it has children |
| Helpers.FalsyValues | Sources/Mustache/Helpers.swift:28-46 | the false values are exactly `nil`, `false`, `0`, `""`, a false `NSNumber`, a value without display style and an empty collection |
| Helpers.EmptyDictionaryIsTrue | Sources/Mustache/Helpers.swift:44-45 | an empty dictionary is true while an empty collection is false |
| MustacheNode.SerializedAllAppend | Sources/Mustache/MustacheNode.swift:143-150 | the source of a concatenation of node sequences is the concatenation of their sources |
| MustacheNode.SerializedAllCons | Sources/Mustache/MustacheNode.swift:143-150 | a sequence's source is its first node's source followed by the rest's |
| MustacheNode.AppendToString | Sources/Mustache/MustacheNode.swift:111-140 | `append(toString:)` leaves `s` as a prefix and adds exactly the node's source: nothing for empty, the text, the children for global, `{{#k}}`/`{{^k}}` + children + `{{/k}}`, `{{k}}`, `{{{k}}}`, `{{> k}}` |
| MustacheNode.AppendAllToString | Sources/Mustache/MustacheNode.swift:119-128 | `forEach { append(toString:) }` adds the children's sources in order |
| MustacheNode.AsMustacheString | Sources/Mustache/MustacheNode.swift:101-105 | a node's `asMustacheString` is its source |
| MustacheNode.SequenceAsMustacheString | Sources/Mustache/MustacheNode.swift:146-150 | a sequence's `asMustacheString` is the in-order concatenation of its elements' sources, and each prefix's source is a prefix of it |
| MustacheNode.AddKeys | Sources/Mustache/MustacheNode.swift:170-182 | `addKeys(to:)` adds exactly the node's keys to the set and keeps what was there |
| MustacheNode.AddAllKeys | Sources/Mustache/MustacheNode.swift:173-176 | adding the keys of a node list adds the union of the nodes' keys |
| MustacheNode.NodeKeys | Sources/Mustache/MustacheNode.swift:185-189 | a node's `keys` are its collected keys |
| MustacheNode.SequenceKeys | Sources/Mustache/MustacheNode.swift:192-209 | a sequence's `keys` are the union of its elements' keys and contain each element's keys |
| MustacheNode.KeysAllMembers | Sources/Mustache/MustacheNode.swift:195-198 | a key is in a sequence's keys exactly when some element has it |
| MustacheNode.KeysAllAppend | Sources/Mustache/MustacheNode.swift:195-198 | the keys of a concatenation are the union of the parts' keys |
| MustacheNode.PartialHasKeysButNoKeys | Sources/Mustache/MustacheNode.swift:165-180 | a partial reports `hasKeys` yet contributes no key, alone or inside a global node |
| MustacheNode.HasKeysIffKeysOrPartial | Sources/Mustache/MustacheNode.swift:159-182 | `hasKeys` holds exactly when `keys` is non-empty or a partial shows at the top level (through global nodes); false for empty and text, true for sections and tags |
| MustacheNode.KeysAreExactlyContributedKeys | Sources/Mustache/MustacheNode.swift:170-182 | a key is in `keys` exactly when some section, inverted section, tag or unescaped tag anywhere in the tree carries it; partial names and text never enter |
| MustacheNode.ChildrenKeys | Sources/Mustache/MustacheNode.swift:173-176 | the keys collected from a node's children are exactly the keys contributed by nodes strictly inside it |
| MustacheParser.At | Sources/Mustache/MustacheParser.swift:120 | reading the buffer yields NUL at and past its end, and a non-NUL unit only inside it (the C string's terminator); see also Sources/Mustache/MustacheParser.swift:140, 197, 208 |
| MustacheParser.TextEnd | Sources/Mustache/MustacheParser.swift:197-205 | the text scan stops inside the buffer, on a NUL or on two open delimiters |
| MustacheParser.TextEndFirst | Sources/Mustache/MustacheParser.swift:197-203 | every unit the text scan passes is neither NUL nor the start of a tag |
| MustacheParser.CStringEnd | Sources/Mustache/MustacheParser.swift:190-205 | `String(cString:)` ends at the first NUL from the cursor |
| MustacheParser.FindClose | Sources/Mustache/MustacheParser.swift:140-141 | the tag loop stops at the first NUL or closing delimiters (two, or three for `{{{`), passing no NUL; see also Sources/Mustache/MustacheParser.swift:187 |
| MustacheParser.SkipSpaces | Sources/Mustache/MustacheParser.swift:169 | the partial scan skips exactly a run of spaces and stops on a non-space |
| MustacheParser.SkipSpacesBound | Sources/Mustache/MustacheParser.swift:169-170 | the space skip never passes a non-space unit, so it stays before the closing delimiters |
| MustacheParser.LexTag | Sources/Mustache/MustacheParser.swift:130-191 | a tag token always consumes input and ends inside the buffer |
| MustacheParser.ClosedTag | Sources/Mustache/MustacheParser.swift:141-184 | a closed tag's token consumes its closing delimiters |
| MustacheParser.NextToken | Sources/Mustache/MustacheParser.swift:119-128 | `parseTagOrText` yields no token exactly on NUL, leaving the cursor; otherwise it consumes at least one unit |
| MustacheParser.TextToken | Sources/Mustache/MustacheParser.swift:122-127 | a text token is the non-empty run up to the next tag start or end of input and contains no NUL and no two adjacent open delimiters; see also Sources/Mustache/MustacheParser.swift:193-206 |
| MustacheParser.FindCloseFirst | Sources/Mustache/MustacheParser.swift:140-141 | the tag loop stops at the first closing delimiters |
| MustacheParser.CStringEndNoNul | Sources/Mustache/MustacheParser.swift:190 | on a buffer without NUL, `String(cString:)` runs to the end |
| MustacheParser.UnterminatedTag | Sources/Mustache/MustacheParser.swift:140 | a tag start with no closing delimiter after it yields a text token of everything from the `{{` to the end of input; see also Sources/Mustache/MustacheParser.swift:187-190 |
| MustacheParser.ClosedTagToken | Sources/Mustache/MustacheParser.swift:134-143 | `{{` opens a tag and a third open delimiter makes it unescaped; the content runs from after the opening delimiters to the first closing delimiters |
| MustacheParser.UnescapedContent | Sources/Mustache/MustacheParser.swift:141-148 | a `{{{` tag ends only on three close delimiters and its whole content is the key of an unescaped tag |
| MustacheParser.SigilContent | Sources/Mustache/MustacheParser.swift:155-165 | `#`, `^` and `/` select section start, inverted section start and section end, and the sigil is stripped from the name |
| MustacheParser.PartialContent | Sources/Mustache/MustacheParser.swift:167-172 | `>` makes a partial whose name follows the sigil and all spaces after it, and does not start with a space |
| MustacheParser.AmpersandContent | Sources/Mustache/MustacheParser.swift:174-183 | `& ` makes an unescaped tag named from two units past the marker; `&` without a space falls through to a plain tag whose name keeps the `&` |
| MustacheParser.PlainTagContent | Sources/Mustache/MustacheParser.swift:181-183 | any other first unit makes a plain tag named by the whole content |
| MustacheParser.ParseNodesF | Sources/Mustache/MustacheParser.swift:71-88 | `parseNodes` is `nil` exactly at the end of input, and the nodes it returns contain no `empty` or `global` node at any depth |
| MustacheParser.NodeListF | Sources/Mustache/MustacheParser.swift:78-85 | the node loop keeps the cursor in the buffer and drops every `empty` node |
| MustacheParser.NodeF | Sources/Mustache/MustacheParser.swift:90-114 | `parseNode` consumes input whenever it returns a node, and a non-empty node it returns holds no `empty`/`global` node |
| MustacheParser.ParseF | Sources/Mustache/MustacheParser.swift:58-66 | an input whose first unit is NUL parses to `empty`, any other to `global(nodes)` |
| MustacheParser.Parser.constructor | Sources/Mustache/MustacheParser.swift:11-26 | a new parser has the delimiters `{` and `}` and no input |
| MustacheParser.Parser.OpenCharacter | Sources/Mustache/MustacheParser.swift:38 | the getter returns the open delimiter in use, so it returns what the setter stored |
| MustacheParser.Parser.CloseCharacter | Sources/Mustache/MustacheParser.swift:45 | the getter returns the close delimiter in use, so it returns what the setter stored |
| MustacheParser.Parser.SetOpenCharacter | Sources/Mustache/MustacheParser.swift:34-37 | the setter replaces the open delimiter; a scalar that does not fit a `CChar` is excluded |
| MustacheParser.Parser.SetCloseCharacter | Sources/Mustache/MustacheParser.swift:41-44 | the setter replaces the close delimiter; a scalar that does not fit a `CChar` is excluded |
| MustacheParser.Parser.Parse | Sources/Mustache/MustacheParser.swift:52-66 | `parse` returns the tree of the parse specification; on NUL-first input it touches neither buffer nor cursor |
| MustacheParser.Parser.ParseNodes | Sources/Mustache/MustacheParser.swift:71-88 | the loop returns the node list of the specification and leaves the cursor where it ends |
| MustacheParser.Parser.ParseNode | Sources/Mustache/MustacheParser.swift:90-114 | one node per the specification: tokens map to nodes, a section start recurses, a section end of any name ends the frame |
| MustacheParser.Parser.ParseTagOrText | Sources/Mustache/MustacheParser.swift:119-128 | the token and cursor of the lexing specification |
| MustacheParser.Parser.ParseTag | Sources/Mustache/MustacheParser.swift:130-191 | the tag loop computes the token and cursor of the lexing specification, including the unterminated case |
| MustacheParser.Parser.TakeClosedTag | Sources/Mustache/MustacheParser.swift:141-184 | the found-end branch computes the classified token and skips the closing delimiters |
| MustacheParser.Parser.ParseText | Sources/Mustache/MustacheParser.swift:193-206 | the text loop returns the units up to the next tag start or end of input and leaves the cursor there |
| MustacheRoundTrip.LexText | Sources/Mustache/MustacheParser.swift:119-127 | a well-formed text followed by a tag start or the end of input lexes to one text token holding exactly it; see also Sources/Mustache/MustacheParser.swift:193-206 |
| MustacheRoundTrip.LexTagKey | Sources/Mustache/MustacheParser.swift:130-143 | the serialized `{{k}}` lexes back to the tag `k` and consumes exactly its source; see also Sources/Mustache/MustacheParser.swift:181-183 and Sources/Mustache/MustacheNode.swift:131-132 |
| MustacheRoundTrip.LexUnescaped | Sources/Mustache/MustacheParser.swift:134-148 | the serialized `{{{k}}}` lexes back to the unescaped tag `k`; see also Sources/Mustache/MustacheNode.swift:134-135 |
| MustacheRoundTrip.LexPartial | Sources/Mustache/MustacheParser.swift:167-172 | the serialized `{{> k}}` lexes back to the partial `k`; see also Sources/Mustache/MustacheNode.swift:137-138 |
| MustacheRoundTrip.LexSigil | Sources/Mustache/MustacheParser.swift:153-165 | `{{#k}}`, `{{^k}}` and `{{/k}}` lex to section start, inverted section start and section end of `k`; see also Sources/Mustache/MustacheNode.swift:122-129 |
| MustacheRoundTrip.NodeListSkipsEmpty | Sources/Mustache/MustacheParser.swift:78-82 | an `empty` node is dropped from the node list |
| MustacheRoundTrip.NodeListStop | Sources/Mustache/MustacheParser.swift:78 | the node list ends when `parseNode` returns `nil` |
| MustacheRoundTrip.NodeListStep | Sources/Mustache/MustacheParser.swift:78-85 | any other node is appended in front of the rest of the list |
| MustacheRoundTrip.NodeOfSectionEnd | Sources/Mustache/MustacheParser.swift:108-112 | a section end ends the frame whatever its name |
| MustacheRoundTrip.NodeOfSection | Sources/Mustache/MustacheParser.swift:100-106 | a section start followed by a node list makes a (inverted) section of those children |
| MustacheRoundTrip.ParseOfList | Sources/Mustache/MustacheParser.swift:58-66 | non-NUL input parses to the global node of its node list |
| MustacheRoundTrip.SerializedShape | Sources/Mustache/MustacheNode.swift:111-140 | a well-formed node's source is non-empty, and every node but a text opens with `{{` |
| MustacheRoundTrip.NodeRoundTrip | Sources/Mustache/MustacheParser.swift:90-114 | parsing a well-formed node's source gives the node back and consumes exactly its source; see also Sources/Mustache/MustacheNode.swift:111-140 |
| MustacheRoundTrip.SectionNodeRoundTrip | Sources/Mustache/MustacheParser.swift:100-106 | the same for sections and inverted sections; see also Sources/Mustache/MustacheNode.swift:121-129 |
| MustacheRoundTrip.SectionRoundTrip | Sources/Mustache/MustacheParser.swift:100-112 | a section start, well-formed children and an end tag of any key parse to one section node |
| MustacheRoundTrip.SectionBody | Sources/Mustache/MustacheParser.swift:71-88 | a section's children and its end tag parse to the children, the end tag consumed; see also Sources/Mustache/MustacheParser.swift:108-112 |
| MustacheRoundTrip.SectionSplit | Sources/Mustache/MustacheParser.swift:130-165 | a section's source splits into a start tag that lexes to one token, the children and the end tag |
| MustacheRoundTrip.ListRoundTrip | Sources/Mustache/MustacheParser.swift:78-85 | parsing the source of a well-formed node list yields the list, followed by whatever the input after it yields; see also Sources/Mustache/MustacheNode.swift:143-150 |
| MustacheRoundTrip.HeadRoundTrip | Sources/Mustache/MustacheParser.swift:90-114 | the first node of a serialized list parses back first |
| MustacheRoundTrip.ListEnd | Sources/Mustache/MustacheParser.swift:78 | an end tag yields an empty node list and is consumed; see also Sources/Mustache/MustacheParser.swift:108-112 |
| MustacheRoundTrip.ParseListAt | Sources/Mustache/MustacheParser.swift:58-66 | a serialized list at the start of the input parses to its global node |
| MustacheRoundTrip.ParseSerialized | Sources/Mustache/MustacheParser.swift:58-66 | parsing the source of any well-formed node list gives `global` of the list back, and `empty` for no nodes; see also Sources/Mustache/MustacheNode.swift:143-150 and Tests/MustacheTests/AttributedMustacheTests.swift:189-195 |
| MustacheRoundTrip.ParseSerializedNode | Sources/Mustache/MustacheParser.swift:58-66 | parsing a well-formed node's source gives it back inside a global node; see also Sources/Mustache/MustacheNode.swift:111-140 |
| MustacheRoundTrip.TopLevelEndAt | Sources/Mustache/MustacheParser.swift:78 | an end tag after a top-level node list ends the parse there; see also Sources/Mustache/MustacheParser.swift:108-112 |
| MustacheRoundTrip.TopLevelEndDropsRest | Sources/Mustache/MustacheParser.swift:64-65 | a section end at top level ends the whole parse and whatever follows it is dropped; see also Sources/Mustache/MustacheParser.swift:108-112 |
| MustacheRoundTrip.DanglingSectionAt | Sources/Mustache/MustacheParser.swift:80-105 | a section start that ends the input yields `empty` |
| MustacheRoundTrip.DanglingSectionDropped | Sources/Mustache/MustacheParser.swift:80-105 | that `empty` node is dropped, so the parse is the nodes before the dangling start |
| MustacheRoundTrip.MismatchedEndAt | Sources/Mustache/MustacheParser.swift:108-112 | a section closed by an end tag of another name is still one section |
| MustacheRoundTrip.MismatchedEndCloses | Sources/Mustache/MustacheParser.swift:108-112 | a closed section whose end tag names another key still closes and parses to one section |
| AttributedMustacheNode.Plain | Sources/Mustache/AttributedMustacheNode.swift:87-96 | the plain tree of an attributed node has the same kind at the top: text, tag and unescaped tag map to themselves |
| AttributedMustacheNode.PlainAll | Sources/Mustache/AttributedMustacheNode.swift:87-96 | the plain list has one node per attributed node |
| AttributedMustacheNode.PlainAllAt | Sources/Mustache/AttributedMustacheNode.swift:87-96 | the plain list maps each node in place |
| AttributedMustacheNode.StringSerializedIsPlain | Sources/Mustache/AttributedMustacheNode.swift:119-148 | `append(toString:)` of an attributed node writes the same delimiters as the plain serializer, with the `.string` of text and tag keys; see also Sources/Mustache/MustacheNode.swift:111-140 |
| AttributedMustacheNode.StringSerializedAllIsPlain | Sources/Mustache/AttributedMustacheNode.swift:127 | the same for node lists; see also Sources/Mustache/AttributedMustacheNode.swift:131, 136, 190-194 |
| AttributedMustacheNode.AppendToString | Sources/Mustache/AttributedMustacheNode.swift:119-148 | `append(toString:)` keeps `s` as a prefix and adds the node's plain source |
| AttributedMustacheNode.AppendAllToString | Sources/Mustache/AttributedMustacheNode.swift:127-136 | the children are appended in order |
| AttributedMustacheNode.AsMustacheString | Sources/Mustache/AttributedMustacheNode.swift:103-107 | a node's `asMustacheString` is its plain source, which is the plain serializer's output on the plain tree, so attributes are dropped |
| AttributedMustacheNode.SequenceAsMustacheString | Sources/Mustache/AttributedMustacheNode.swift:190-194 | a sequence's `asMustacheString` is the in-order concatenation of the sources, equal to the plain serializer's |
| AttributedMustacheNode.FramedChars | Sources/Mustache/AttributedMustacheNode.swift:162-179 | the `.string` of an unattributed opening, a part and an unattributed closing is the three strings in a row |
| AttributedMustacheNode.FramedAttributes | Sources/Mustache/AttributedMustacheNode.swift:162-179 | the frame adds no attributes |
| AttributedMustacheNode.AttrSerializedChars | Sources/Mustache/AttributedMustacheNode.swift:103-113 | the `.string` of `asMustacheAttributedString` equals `asMustacheString` for every node; see also Sources/Mustache/AttributedMustacheNode.swift:119-184 |
| AttributedMustacheNode.AttrSerializedAllChars | Sources/Mustache/AttributedMustacheNode.swift:187-201 | the same for sequences |
| AttributedMustacheNode.AttrSerializedAttributes | Sources/Mustache/AttributedMustacheNode.swift:151-184 | every character of the attributed source is unattributed or has attributes copied from a text or tag key of the tree: delimiters, section keys and partial names are added without attributes |
| AttributedMustacheNode.AttrSerializedAllAttributes | Sources/Mustache/AttributedMustacheNode.swift:159 | the same for sequences; see also Sources/Mustache/AttributedMustacheNode.swift:163, 168, 198 |
| AttributedMustacheNode.AppendToAttributedString | Sources/Mustache/AttributedMustacheNode.swift:151-184 | `append(toAttributedString:)` extends the mutable string by exactly the node's attributed source: text and tag keys with their attributes, the rest plain |
| AttributedMustacheNode.AppendSectionToAttributedString | Sources/Mustache/AttributedMustacheNode.swift:161-169 | a section appends its unattributed start tag, the children and its unattributed end tag |
| AttributedMustacheNode.AppendFramedToAttributedString | Sources/Mustache/AttributedMustacheNode.swift:171-179 | a tag appends unattributed `{{`, the key with its attributes and unattributed `}}` (three braces when unescaped) |
| AttributedMustacheNode.AppendAllToAttributedString | Sources/Mustache/AttributedMustacheNode.swift:159-168 | the children are appended in order |
| AttributedMustacheNode.AsMustacheAttributedString | Sources/Mustache/AttributedMustacheNode.swift:109-113 | a node's `asMustacheAttributedString` is its attributed source, whose `.string` is `asMustacheString` |
| AttributedMustacheNode.SequenceAsMustacheAttributedString | Sources/Mustache/AttributedMustacheNode.swift:196-200 | a sequence's attributed source is the elements' in order, and its `.string` is the sequence's `asMustacheString` |
| AttributedMustacheNode.HasKeysIsPlain | Sources/Mustache/AttributedMustacheNode.swift:209-217 | `hasKeys` follows the same rules as the plain tree's |
| AttributedMustacheNode.KeysIsPlain | Sources/Mustache/AttributedMustacheNode.swift:220-239 | `keys` are the plain tree's keys: section keys and the `.string` of tag keys, recursively, partials excluded |
| AttributedMustacheNode.KeysAllIsPlain | Sources/Mustache/AttributedMustacheNode.swift:242-259 | the same for sequences |
| AttributedMustacheNode.AddKeys | Sources/Mustache/AttributedMustacheNode.swift:220-232 | `addKeys(to:)` adds exactly the node's keys and keeps the set's contents |
| AttributedMustacheNode.AddAllKeys | Sources/Mustache/AttributedMustacheNode.swift:223-226 | the children's keys are added in turn |
| AttributedMustacheNode.NodeKeys | Sources/Mustache/AttributedMustacheNode.swift:235-239 | a node's `keys` equal the plain tree's keys |
| AttributedMustacheNode.SequenceKeys | Sources/Mustache/AttributedMustacheNode.swift:242-259 | a sequence's `keys` equal the plain list's keys |
| AttributedMustacheParser.Substring | Sources/Mustache/AttributedMustacheParser.swift:159 | `attributedSubstring(from:)` returns the characters of the range with their attributes, and raises exactly when the range is negative or runs past the string; see also Sources/Mustache/AttributedMustacheParser.swift:169, 188, 200, 206, 217, 233 |
| AttributedMustacheParser.MakeToken | Sources/Mustache/AttributedMustacheParser.swift:159-160 | text and tag tokens keep the substring with its attributes; section, end and partial names keep only its `.string`; a raising substring raises; see also Sources/Mustache/AttributedMustacheParser.swift:169-189, 200-207 |
| AttributedMustacheParser.UnterminatedText | Sources/Mustache/AttributedMustacheParser.swift:214-217 | an unclosed tag is the text from the tag's start to the end of the input |
| AttributedMustacheParser.SomeToken | Sources/Mustache/AttributedMustacheParser.swift:133-135 | a token wraps as the optional token, and a trap stays a trap |
| AttributedMustacheParser.Parser.constructor | Sources/Mustache/AttributedMustacheParser.swift:15 | a new parser has the delimiters `{` and `}`, no input, no code units and the cursor at 0; see also Sources/Mustache/AttributedMustacheParser.swift:27-28, 50-58 |
| AttributedMustacheParser.Parser.OpenCharacter | Sources/Mustache/AttributedMustacheParser.swift:39 | the getter returns the open delimiter in use, so it returns what the setter stored |
| AttributedMustacheParser.Parser.CloseCharacter | Sources/Mustache/AttributedMustacheParser.swift:45 | the getter returns the close delimiter in use, so it returns what the setter stored |
| AttributedMustacheParser.Parser.SetOpenCharacter | Sources/Mustache/AttributedMustacheParser.swift:36-38 | the setter replaces the open delimiter with the character's first code unit |
| AttributedMustacheParser.Parser.SetCloseCharacter | Sources/Mustache/AttributedMustacheParser.swift:42-44 | the setter replaces the close delimiter with the character's first code unit |
| AttributedMustacheParser.Parser.HitEOF | Sources/Mustache/AttributedMustacheParser.swift:239-242 | as written, `hitEOF` is true without an input and otherwise exactly while the cursor is before the end |
| AttributedMustacheParser.Parser.La | Sources/Mustache/AttributedMustacheParser.swift:244-248 | `la(p)` is nil exactly when `cursor + p` reaches the end of the code units, and otherwise is the unit at `p`, ignoring the cursor |
| AttributedMustacheParser.Parser.La0 | Sources/Mustache/AttributedMustacheParser.swift:249 | `la0` is the first code unit while the cursor is inside the input, else 0 |
| AttributedMustacheParser.Parser.La1 | Sources/Mustache/AttributedMustacheParser.swift:250 | `la1` is the second code unit while `cursor + 1` is inside, else 0 |
| AttributedMustacheParser.Parser.La2 | Sources/Mustache/AttributedMustacheParser.swift:251 | `la2` is the third code unit while `cursor + 2` is inside, else 0 |
| AttributedMustacheParser.Parser.ParseText | Sources/Mustache/AttributedMustacheParser.swift:220-234 | with `hitEOF` it returns an empty string and leaves the cursor; otherwise it never yields a text: on a loaded input the `&&` loop runs on unless the open delimiter is NUL, and then the range assertion traps |
| AttributedMustacheParser.Parser.ParseTag | Sources/Mustache/AttributedMustacheParser.swift:138-218 | when the guard fails it returns an empty text at once; when it holds the cursor is already at or past the end, so no call yields a token |
| AttributedMustacheParser.Parser.ParseClosedTag | Sources/Mustache/AttributedMustacheParser.swift:151-208 | the found-end branch skips the closing delimiters first, then takes the content range up to the new cursor and reads the type through `la0`; states the token for `{{{`, `#`, `^`, `/`, `>` (the partial named from where the space skip stops, or a trap), `& `, `&` and plain tags |
| AttributedMustacheParser.Parser.AmpersandLa1 | Sources/Mustache/AttributedMustacheParser.swift:192-195 | the unit after `&` is read from the code units directly, 0 past their end |
| AttributedMustacheParser.Parser.SkipPartialSpaces | Sources/Mustache/AttributedMustacheParser.swift:183-186 | the loop stops exactly where `PartialNameStart` says |
| AttributedMustacheParser.Parser.PartialNameStart | Sources/Mustache/AttributedMustacheParser.swift:183-186 | the partial's name starts after a run of spaces only, never past the cursor, at the cursor or a non-space; the skip traps only when it reads past the code units, which were all spaces |
| AttributedMustacheParser.Parser.ParseTagOrText | Sources/Mustache/AttributedMustacheParser.swift:130-136 | with `hitEOF` there is no token and the cursor stays |
| AttributedMustacheParser.Parser.ParseNode | Sources/Mustache/AttributedMustacheParser.swift:100-125 | with `hitEOF` there is no node and the cursor stays |
| AttributedMustacheParser.Parser.ParseNodes | Sources/Mustache/AttributedMustacheParser.swift:81-98 | with `hitEOF`, which holds on a freshly loaded input, `parseNodes` returns nil and the cursor stays |
| AttributedMustacheParser.Parser.Parse | Sources/Mustache/AttributedMustacheParser.swift:60-76 | `parse` returns `empty` for every input; an empty string leaves the parser untouched, any other input leaves no input, no code units and the cursor at 0 |
| AttributedRenderingContext.Lookup | Sources/Mustache/AttributedMustacheRenderingContext.swift:98-107 | the value of a key in a scope stack is the value of the innermost scope that has one (no inner scope has one), and `nil` exactly when no scope has one |
| AttributedRenderingContext.LookupPushed | Sources/Mustache/AttributedMustacheRenderingContext.swift:83-107 | a pushed scope answers every key it has a value for, and defers to the stack below for the others |
| AttributedRenderingContext.LookupPrefix | Sources/Mustache/AttributedMustacheRenderingContext.swift:99-104 | one step of the reverse scan: a prefix of the stack answers from its last scope or from the rest |
| AttributedRenderingContext.NoPartial | Sources/Mustache/AttributedMustacheRenderingContext.swift:119-121 | the default class resolves no partial, for any name |
| AttributedRenderingContext.DefaultContext.constructor | Sources/Mustache/AttributedMustacheRenderingContext.swift:61-68 | `init(_ root:)`: the stack is `[root]`, or empty for a `nil` root; the output is empty; no partials |
| AttributedRenderingContext.DefaultContext.WithPartials | Sources/Mustache/AttributedMustacheRenderingContext.swift:61-68 | the same, in a subclass whose `retrievePartial` is the given resolver; see also Sources/Mustache/AttributedMustacheRenderingContext.swift:119 |
| AttributedRenderingContext.DefaultContext.Copy | Sources/Mustache/AttributedMustacheRenderingContext.swift:61-71 | `init(context:)`: an equal copy of the stack and a new empty output |
| AttributedRenderingContext.DefaultContext.Append | Sources/Mustache/AttributedMustacheRenderingContext.swift:76-78 | `append` adds the string, attributes included, to the output and changes nothing else |
| AttributedRenderingContext.DefaultContext.Enter | Sources/Mustache/AttributedMustacheRenderingContext.swift:83-85 | `enter` pushes the scope, `nil` included |
| AttributedRenderingContext.DefaultContext.Leave | Sources/Mustache/AttributedMustacheRenderingContext.swift:86-88 | `leave` removes the last scope, so `enter(x); leave()` restores the stack; an empty stack is excluded, as `removeLast` traps |
| AttributedRenderingContext.DefaultContext.Cursor | Sources/Mustache/AttributedMustacheRenderingContext.swift:90-93 | `cursor` is the innermost scope, `nil` for an empty stack |
| AttributedRenderingContext.DefaultContext.ValueForTag | Sources/Mustache/AttributedMustacheRenderingContext.swift:98-107 | the reverse scan returns the innermost non-`nil` value of the key, and `nil` when no scope has one |
| AttributedRenderingContext.DefaultContext.NewLambdaContext | Sources/Mustache/AttributedMustacheRenderingContext.swift:112-114 | `newLambdaContext` is a new object with an equal copy of the stack and an empty output, so later changes to either leave the other alone; being a default context it resolves no partials |
| AttributedRenderingContext.DefaultContext.RetrievePartial | Sources/Mustache/AttributedMustacheRenderingContext.swift:119-121 | `retrievePartial` is the context's resolver, nothing for the default class |
| MustacheRendering.TagText | Sources/Mustache/MustacheRendering.swift:53-68 | a tag shows a `String` value itself and any other value's description |
| MustacheRendering.Context.constructor | Sources/Mustache/MustacheRendering.swift:12-17 | a context for a root value has the root as its only scope (none for `nil`) and an empty output |
| MustacheRendering.Context.Copy | Sources/Mustache/MustacheRendering.swift:94 | a lambda context copies the stack and environment and starts with an empty output |
| MustacheRendering.Context.Append | Sources/Mustache/MustacheRendering.swift:41 | `append(string:)` adds to the output; see also Sources/Mustache/MustacheRendering.swift:54, 100 |
| MustacheRendering.Context.Enter | Sources/Mustache/MustacheRendering.swift:140-150 | `enter(scope:)` pushes the scope |
| MustacheRendering.Context.Leave | Sources/Mustache/MustacheRendering.swift:142-152 | `leave()` pops the innermost scope, restoring the stack before the matching `enter` |
| MustacheRendering.Context.ValueForTag | Sources/Mustache/MustacheRendering.swift:47 | `value(forTag:)` returns the innermost scope's value, `nil` when no scope has one; see also Sources/Mustache/MustacheRendering.swift:52, 62, 109 |
| MustacheRendering.Context.NewLambdaContext | Sources/Mustache/MustacheRendering.swift:94 | `newLambdaContext()` is a new context on an equal copy of the stack with an empty output |
| MustacheRendering.RenderNode | Sources/Mustache/MustacheRendering.swift:33-75 | `render(inContext:)` appends exactly the node's output and leaves the stack as it was: nothing for empty, the children for global, text verbatim, escaped or unescaped tag values, nothing for `nil`, the inverted section's children only for a false value, a resolved partial in the same context |
| MustacheRendering.RenderNodes | Sources/Mustache/MustacheRendering.swift:22-26 | `render(nodes:inContext:)` appends the nodes' outputs left to right |
| MustacheRendering.RenderSection | Sources/Mustache/MustacheRendering.swift:106-159 | a section appends nothing for `nil`, a full lambda's result alone, a simple lambda's result, nothing for a false value, and otherwise the children by display style; the stack is restored |
| MustacheRendering.RenderValueBody | Sources/Mustache/MustacheRendering.swift:129-158 | a true value without display style renders the children once; a collection once per element; a class or dictionary once |
| MustacheRendering.RenderRecord | Sources/Mustache/MustacheRendering.swift:145-153 | a class or dictionary value is entered once as the scope unless it is a Foundation base type, and left afterwards |
| MustacheRendering.RenderItems | Sources/Mustache/MustacheRendering.swift:138-143 | the collection loop renders the children once per element with that element entered, and leaves after each |
| MustacheRendering.RenderLambda | Sources/Mustache/MustacheRendering.swift:77-101 | the lambda's result is appended exactly once and the stack is unchanged |
| MustacheRendering.RunLambda | Sources/Mustache/MustacheRendering.swift:81-82 | the lambda receives the children's `asMustacheString`; a simple lambda is given no callback; see also Sources/Mustache/MustacheRendering.swift:119 |
| MustacheRendering.Callback | Sources/Mustache/MustacheRendering.swift:82-99 | the callback renders its original children when given their source and otherwise the parsed original source, into a fresh lambda context, and returns that context's output |
| MustacheRendering.RenderObject | Sources/Mustache/MustacheRendering.swift:16-20 | `render(object:)` returns the node's output for the stack holding only the object |
| MustacheRendering.RenderedAllAppend | Sources/Mustache/MustacheRendering.swift:22-26 | a node list renders as its parts, left to right |
| MustacheRendering.TagIsEscapedUnescapedTag | Sources/Mustache/MustacheRendering.swift:51-69 | a tag shows nothing for `nil`, and otherwise `escape` of exactly what the unescaped tag shows |
| MustacheRendering.SectionsComplement | Sources/Mustache/MustacheRendering.swift:46-49 | for a value that is not a function, the section shows its children exactly when the inverted section does not; `nil` counts as false; see also Sources/Mustache/MustacheRendering.swift:109-125 |
| MustacheRendering.IterationsAppend | Sources/Mustache/MustacheRendering.swift:139-143 | iterating over two runs of items renders the first run's iterations, then the second's |
| MustacheRendering.TextsRender | Sources/Mustache/MustacheRendering.swift:40-41 | text nodes render as their text in every scope |
| MustacheRendering.IterationsRepeat | Sources/Mustache/MustacheRendering.swift:138-143 | a collection of N elements renders text-only children N times |
| MustacheRendering.CollectionSection | Sources/Mustache/MustacheRendering.swift:125-143 | a collection section renders the children once per element, each as the innermost scope, and nothing for an empty collection |
| MustacheRendering.CallbackIgnoresItsArgument | Sources/Mustache/MustacheRendering.swift:86-96 | both branches of the callback render the lambda's own children, because the second parses `mustache` and not `mustacheToRender` |
| AttributedMustacheRendering.TagText | Sources/AttributedMustache/AttributedMustacheRendering.swift:99 | a value shows as itself when it is a `String` and as its description otherwise |
| AttributedMustacheRendering.TagContent | Sources/AttributedMustache/AttributedMustacheRendering.swift:74-101 | an attributed string value is shown unchanged; any other value's text is shown, unescaped, with every character carrying the attributes of the key's first character |
| AttributedMustacheRendering.RenderNode | Sources/AttributedMustache/AttributedMustacheRendering.swift:51-109 | `render(inContext:)` appends exactly the node's output and leaves the stack as it was: nothing for empty, the children for global, text with its attributes, the inverted section's children only for a false value, tags unescaped, a resolved partial in the same context |
| AttributedMustacheRendering.RenderTag | Sources/AttributedMustache/AttributedMustacheRendering.swift:69-103 | a tag or unescaped tag appends nothing for `nil` and the tag content otherwise |
| AttributedMustacheRendering.RenderNodes | Sources/AttributedMustache/AttributedMustacheRendering.swift:38-42 | `render(nodes:inContext:)` appends the nodes' outputs left to right |
| AttributedMustacheRendering.RenderSection | Sources/AttributedMustache/AttributedMustacheRendering.swift:168-229 | a section appends nothing for `nil`; a full lambda's result alone (attributed tried before plain); a simple lambda's result and nothing more; nothing for a false value; otherwise the children by display style; the stack is restored |
| AttributedMustacheRendering.RenderValueBody | Sources/AttributedMustache/AttributedMustacheRendering.swift:199-228 | a true value renders the children once without display style, once per element of a collection, once for a class or dictionary, once otherwise |
| AttributedMustacheRendering.RenderRecord | Sources/AttributedMustache/AttributedMustacheRendering.swift:215-223 | a class or dictionary value is entered once unless it is a Foundation base type, and left afterwards |
| AttributedMustacheRendering.RenderItems | Sources/AttributedMustache/AttributedMustacheRendering.swift:208-213 | the collection loop enters each element, renders the children and leaves, in order |
| AttributedMustacheRendering.RenderAttrLambda | Sources/AttributedMustache/AttributedMustacheRendering.swift:111-135 | an attributed lambda's result is appended once, attributes included, and the stack is unchanged |
| AttributedMustacheRendering.RunAttrLambda | Sources/AttributedMustache/AttributedMustacheRendering.swift:115-116 | the attributed lambda receives `asMustacheAttributedString` of the children; a simple one is given no callback; see also Sources/AttributedMustache/AttributedMustacheRendering.swift:180-182 |
| AttributedMustacheRendering.AttrCallback | Sources/AttributedMustache/AttributedMustacheRendering.swift:116-133 | the callback renders the children in a new lambda context when given their own source, and otherwise what the parser makes of the original source, which is the empty node |
| AttributedMustacheRendering.RenderPlainLambda | Sources/AttributedMustache/AttributedMustacheRendering.swift:137-163 | a plain lambda's result is appended once without attributes, and the stack is unchanged |
| AttributedMustacheRendering.RunPlainLambda | Sources/AttributedMustache/AttributedMustacheRendering.swift:142-143 | the plain lambda receives `asMustacheString` of the children, attributes dropped; see also Sources/AttributedMustache/AttributedMustacheRendering.swift:188-190 |
| AttributedMustacheRendering.PlainCallback | Sources/AttributedMustache/AttributedMustacheRendering.swift:143-161 | the plain callback returns the `.string` of the lambda context's output, with the same choice of tree as the attributed one |
| AttributedMustacheRendering.RenderObject | Sources/AttributedMustache/AttributedMustacheRendering.swift:32-36 | `render(object:)` returns the node's output for the stack holding only the object, in a default context without partials |
| AttributedMustacheRendering.TagsRenderIdentically | Sources/AttributedMustache/AttributedMustacheRendering.swift:69-72 | a tag and an unescaped tag with the same key render identically: there is no escaping |
| AttributedMustacheRendering.StringTagVerbatim | Sources/AttributedMustache/AttributedMustacheRendering.swift:72-100 | a `String` value is shown verbatim, markup such as `Ch<r>is` included, in the attributes of the tag key; see also Tests/MustacheTests/AttributedMustacheTests.swift:55-56, 81-82 |
| AttributedMustacheRendering.RenderedAllAppend | Sources/AttributedMustache/AttributedMustacheRendering.swift:38-42 | a node list renders as its parts, left to right |
| AttributedMustacheRendering.IterationsAppend | Sources/AttributedMustache/AttributedMustacheRendering.swift:209-213 | iterating over two runs of items renders the first run's iterations, then the second's |
| AttributedMustacheRendering.SectionsComplement | Sources/AttributedMustache/AttributedMustacheRendering.swift:64-67 | for a value that is not a function, exactly one of the section and the inverted section shows its children; see also Sources/AttributedMustache/AttributedMustacheRendering.swift:171-195 |
| AttributedMustacheRendering.PlainLambdaDropsAttributes | Sources/AttributedMustache/AttributedMustacheRendering.swift:141-142 | what a plain lambda section shows carries no attributes; see also Sources/AttributedMustache/AttributedMustacheRendering.swift:162, 184-190 |
| AttributedMustacheRendering.AttrCallbackOtherText | Sources/AttributedMustache/AttributedMustacheRendering.swift:123-130 | given any other text, the attributed callback re-parses the original source, gets the empty node and renders nothing; see also Sources/Mustache/AttributedMustacheParser.swift:60-76 |
| AttributedMustacheRendering.AttrCallbackOwnText | Sources/AttributedMustache/AttributedMustacheRendering.swift:120-132 | given the children's own source, the callback renders them in a lambda context on the same stack |
| AttributedMustacheRendering.LambdaContextHasNoPartials | Sources/AttributedMustache/AttributedMustacheRendering.swift:128-130 | a partial inside re-rendered lambda children renders nothing, as the lambda context is a default context; see also Sources/Mustache/AttributedMustacheRenderingContext.swift:112-121 |
| AttributedMustacheRendering.PlainFullSection | Sources/AttributedMustache/AttributedMustacheRendering.swift:184-187 | a full plain lambda section shows the lambda's result alone, unattributed |
| AttributedMustacheRendering.PlainSimpleSection | Sources/AttributedMustache/AttributedMustacheRendering.swift:188-195 | a simple plain lambda section shows the result and nothing more: its branch does not return, but a function value is false; see also Sources/Mustache/Helpers.swift:41 |
| AttributedMustacheRendering.PlainCallbackOwnText | Sources/AttributedMustache/AttributedMustacheRendering.swift:147-160 | the plain callback given the children's source shows their rendered text from a lambda context |
| AttributedMustacheRendering.CollectionSection | Sources/AttributedMustache/AttributedMustacheRendering.swift:195-213 | a collection section renders the children once per element, each innermost, and nothing for an empty collection |
| AttributedMustacheRendering.RenderedAllSnoc | Sources/AttributedMustache/AttributedMustacheRendering.swift:41 | one more node renders after the others |
| AttributedMustacheRendering.IterationsSnoc | Sources/AttributedMustache/AttributedMustacheRendering.swift:209-213 | one more element renders the children once more, after the others |
| AttributedMustacheRendering.RenderedAllThreeNodes | Sources/AttributedMustache/AttributedMustacheRendering.swift:41 | three nodes render one after another |
| AttributedMustacheRendering.RenderedAllThree | Sources/AttributedMustache/AttributedMustacheRendering.swift:41 | the text of three nodes rendered in a row |
| AttributedMustacheRendering.RenderedAllTwoNodes | Sources/AttributedMustache/AttributedMustacheRendering.swift:41 | two nodes render one after the other |
| AttributedMustacheRendering.RenderedAllTwo | Sources/AttributedMustache/AttributedMustacheRendering.swift:41 | the text of two nodes rendered in a row |
| AttributedMustacheRendering.IterationsThreeItems | Sources/AttributedMustache/AttributedMustacheRendering.swift:209-213 | three elements render the children three times, each element innermost in turn |
| AttributedMustacheRendering.IterationsThree | Sources/AttributedMustache/AttributedMustacheRendering.swift:209-213 | the text of those three iterations |
| AttributedMustacheRendering.PartialRenders | Sources/AttributedMustache/AttributedMustacheRendering.swift:105-107 | a resolved partial renders in the current scope, each time it is reached |
| AttributedMustacheRendering.TextRenders | Sources/AttributedMustache/AttributedMustacheRendering.swift:58-59 | a text node shows its text |
| AttributedMustacheRendering.WrappedTemplateIsSection | Tests/MustacheTests/AttributedMustacheTests.swift:93-94 | the tree the lambda fixture template is meant to parse to renders as its one `wrapped` section |
| AttributedMustacheRendering.WrappedChildrenRender | Tests/MustacheTests/AttributedMustacheTests.swift:93-97 | that tree's section children render as `Willy` + ` is awesome.` for the name `Willy` |
| AttributedMustacheRendering.WrappedChildrenSource | Tests/MustacheTests/AttributedMustacheTests.swift:93-94 | that tree's section children serialize back to `{{name}} is awesome.`; see also Tests/MustacheTests/AttributedMustacheTests.swift:245 |
| AttributedMustacheRendering.WrapBody | Tests/MustacheTests/AttributedMustacheTests.swift:98-104 | a lambda body `pre + e + post` gives `e`'s value between the literals |
| AttributedMustacheRendering.RenderInputRendersChildren | Sources/AttributedMustache/AttributedMustacheRendering.swift:143-160 | `render(text)` on the section's own text renders the children in a lambda context |
| AttributedMustacheRendering.FullWrapLambda | Sources/AttributedMustache/AttributedMustacheRendering.swift:137-163 | a full lambda `pre + render(text) + post` shows the section's own children, rendered, between the literals; see also Sources/AttributedMustache/AttributedMustacheRendering.swift:184-187 |
| AttributedMustacheRendering.SimpleWrapLambda | Sources/AttributedMustache/AttributedMustacheRendering.swift:142 | a simple lambda `pre + text + post` shows the children's source between the literals, not rendered again; see also Sources/AttributedMustache/AttributedMustacheRendering.swift:188-195 |
| AttributedMustacheRendering.FullLambdaWrapsRenderedChildren | Tests/MustacheTests/AttributedMustacheTests.swift:96-101 | rendered with the full `wrapped` lambda, the tree the template is meant to parse to gives `fixLambda1Result`, `<b>Willy is awesome.</b>`; the test itself (lines 213-220) renders nothing, see `ParseAndRender`; see also Tests/MustacheTests/AttributedMustacheTests.swift:107 |
| AttributedMustacheRendering.SimpleLambdaWrapsSource | Tests/MustacheTests/AttributedMustacheTests.swift:102-105 | rendered with the simple `wrapped` lambda, the same tree gives `fixSimpleLambda1Result`, `<b>{{name}} is awesome.</b>`; the test itself (lines 222-261) renders nothing, see `ParseAndRender`; see also Tests/MustacheTests/AttributedMustacheTests.swift:108 |
| AttributedMustacheRendering.UserRenders | Tests/MustacheTests/AttributedMustacheTests.swift:53 | the tree the `user` partial's template is meant to parse to renders `<strong>` + the innermost user's last name + `</strong>` |
| AttributedMustacheRendering.UserPartialRenders | Sources/AttributedMustache/AttributedMustacheRendering.swift:105-107 | a `user` partial that resolves to that tree renders that line in the current scope; see also Tests/MustacheTests/AttributedMustacheTests.swift:279-285 |
| AttributedMustacheRendering.NameLineRenders | Tests/MustacheTests/AttributedMustacheTests.swift:50 | the body the names section is meant to parse to renders one indented line per user |
| AttributedMustacheRendering.ThreeItemSection | Sources/AttributedMustache/AttributedMustacheRendering.swift:208-213 | a section over a three-element collection shows the three renderings in order |
| AttributedMustacheRendering.NamesSection | Tests/MustacheTests/AttributedMustacheTests.swift:49-51 | the `{{#names}}` section the base template is meant to parse to, over three users, renders the partial three times, once per user |
| AttributedMustacheRendering.PartialPerUser | Tests/MustacheTests/AttributedMustacheTests.swift:47-53 | the tree the base template is meant to parse to renders the heading followed by one line per user |
| AttributedMustacheRendering.PartialTest | Tests/MustacheTests/AttributedMustacheTests.swift:109-113 | for Donald and Dagobert Duck and Mickey Mouse (lines 65-69), the tree the base template is meant to parse to renders `fixPartialResult1`; the test itself (lines 289-302) renders nothing, see `ParseAndRender` |
| AttributedMustacheRendering.ParseAndRender | Tests/MustacheTests/AttributedMustacheTests.swift:213-220 | as the attributed parser is written, a test that parses its template and renders the tree with `render(object:)` gets nothing, whatever the template, root and context; see also Tests/MustacheTests/AttributedMustacheTests.swift:222-261, 289-302 |

## Left out

- Reading templates from files or bundles, and the diagnostics the source prints, are I/O and are not modelled.
- Dynamic casts and `Mirror` reflection are replaced by the closed `Value` datatype. Its constructors are the cases the casts tell apart. A reflected value carries the display style and children its mirror would report.
- `KeyValueCoding.value(forKeyPath:inObject:)` is not part of this model. Contexts take it as a parameter function, with `Nil` for "no value". Key paths with dots are whatever that function makes of them.
- `escape(string:)` and the description of a value (`"\(v)"`, `String(describing:)`) are parameters of the rendering environment, because their code is not part of this model.
- Images and text attachments as tag values (Sources/AttributedMustache/AttributedMustacheRendering.swift:77-92) depend on AppKit and UIKit and are not modelled. Any other value takes the string branch.
- An `NSNumber`'s `boolValue` is a field of the value, since floating-point conversion is not modelled.
- Whether a reflected class is an `NSString` or `NSValue` is a flag of the value, since class identity across the Objective-C bridge is not modelled.
- `MustacheRenderingContext.swift` is not part of this model. The plain context copies the attributed default context's stack, its innermost-first lookup and its `nil`-root handling. Its lambda context keeps the whole environment, partials included.
- Partials and lambda re-render callbacks can recurse without bound. Each takes one unit of `fuel`, and a step without fuel renders nothing. The model therefore does not capture templates whose partials recurse forever.
- MustacheParser: the lexer requires a closing delimiter outside `#^/>` and space. With such a delimiter, an empty tag such as `{{#` followed by `#` gives a negative copy length, and the copy overruns the buffer (Sources/Mustache/MustacheParser.swift:143-176). The model cannot represent that. The delimiter setters require characters below 128, as the `CChar` conversion traps above that.
- AttributedMustacheRendering.TagContent: an empty tag key gets no attributes. The source raises a range exception on `attributes(at: 0)` (Sources/AttributedMustache/AttributedMustacheRendering.swift:74).
- A model `char` is one code unit: a UTF-8 byte in the plain parser and a UTF-16 unit in the attributed one. No Unicode normalization or grapheme handling is modelled.
- A Swift `assert` in the attributed parser is modelled as a trap, as in a debug build. A release build would carry on past it.
- Swift `Int` overflow on cursor arithmetic is not modelled; integers are unbounded.
- The `render(…, cb:)` overloads that take a completion callback (Sources/Mustache/MustacheRendering.swift:11-14, 28-31; Sources/AttributedMustache/AttributedMustacheRendering.swift:27-30, 44-49) only hand the string to a closure and are left out.
- The `Mustachable`/`Mustacheable` convenience wrappers, `ReExports.swift` and the package manifest hold no logic of the core and are left out.
- Lambda bodies are a small closed expression language: literals, the section text, concatenation and the re-render callback. A simple lambda has no callback, so its `Render(e)` is read as `e`. Closures doing anything else are not modelled.
- AttributedMustacheParser.Parser.ParseTagOrText: the contract states only the `hitEOF` case. The other case, with the cursor at or past the end, is modelled, but `parse` never reaches it, and no contract states its result.
- AttributedMustacheParser.Parser.ParseNode: the same, for the node built from such a token.
- AttributedMustacheParser.Parser.ParseNodes: the same, for the node list.
- The parsing tests at Tests/MustacheTests/AttributedMustacheTests.swift:138-145 and 189-195 expect trees that the attributed parser as written does not build. The model states what it does build.
- The rendering tests `testLambda`, `testSimpleLambda` and `testPartial` (Tests/MustacheTests/AttributedMustacheTests.swift:213-220, 222-261, 289-302) parse their templates with that parser, so as written they render nothing, which `ParseAndRender` states. The test lemmas of the attributed renderer state instead what the trees those templates are meant to parse to render.
