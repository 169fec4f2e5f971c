# mtcute file IDs and HTML entities, modelled in Dafny

This project models two parts of the mtcute Telegram client library and
proves properties of them.

**The file-ID decoder** (`packages/file-id/src/parse.ts`) turns a TDLib
persistent file identifier into a `FullRemoteFileLocation`:

- The last byte of an identifier selects the generation. For generation 3,
  the byte before it is the subversion.
- The rest is run-length decoded and then read field by field with a
  little-endian binary reader:
  - a raw type word carrying two flag bits;
  - the DC id;
  - an optional file reference;
  - then a web, photo or common location, chosen by the web flag and the
    file type.
- A photo location carries a photo size source. Its layout depends on the
  subversion: from 32 on, a tagged size source; from 22 to 31, a volume id,
  a tagged size source and a local id, after which the source is converted
  to its legacy form; below 22, a volume id, a secret and a local id.

The decoder is modelled in two layers:

- Module `FileIdDecoding` holds pure functions over the buffer and an
  offset (`SizeSourceAt`, `LocationAt`, `PersistentIdV23`, ...). These
  carry the contracts and the lemmas.
- Module `FileIdParse` holds the parsers as the source writes them: methods
  that read from a `BinaryReader` object whose offset advances with each
  read. Each method is proved to return exactly what its function
  describes and to leave the reader just past what that function consumed.
- The reader itself (module `BinaryReading`) is a class with a mutable
  offset. It is proved against `Int32At`, `LongAt` and `BytesAt`.

The numeric values of the format constants are declared without values,
so no proof depends on a particular numbering. These are the `FileType`
codes, `FileType.Size`, the two flag bits, the two generation markers and
the current subversion.

**The HTML entity parser** (`packages/html-parser/src/index.ts`) has three
parts:

- `escape` is a chain of global replacements. Module `HtmlEscape` proves
  that it escapes each character independently of the others, and that its
  output holds no markup.
- The `html` template helper joins literal parts with escaped or
  pre-formatted substitutions (module `HtmlTemplate`).
- `parse` and `unparse`:
  - `parse` is modelled as the three tokenizer callbacks acting on a class
    `EntityParser`, which holds the open-entity stacks, the finished
    entities and the plain text. It is driven by a sequence of tokenizer
    events (module `HtmlParse`). Each callback is proved to perform one
    transition of the value `HandlerState`, and `Run` folds those
    transitions over the events.
  - `_unparse` is a recursive, looping procedure (method
    `HtmlUnparse.Unparse` and the methods it is split into). It is proved
    equal to the function `UnparseFrom`, which is defined together with
    `Loop` and `Step`, the loop over the entities. The source's `break` on
    an entity that starts at or after the end of the range is written as
    the loop guard.

Two behaviours of the code worth noting:

- The local id of a legacy photo source is range-checked only when it is
  read as part of a tagged size source (tags 5 to 8). The sources built on
  the pre-22 path, and the `legacy` to `fullLegacy` conversion, accept
  negative local ids. The model does the same (`PhotoLayoutBefore22`).
- When the identifier is too short, the binary reader throws. The model
  makes this an error of its own, `RangeError`.

## Model

| member | source | states |
|---|---|---|
| BinaryReading.Int32At | packages/file-id/src/parse.ts:220 | fails exactly when fewer than four bytes remain; otherwise advances by four and yields the signed value whose 32-bit pattern is the little-endian word |
| BinaryReading.LongAt | packages/file-id/src/parse.ts:129-130 | fails exactly when fewer than eight bytes remain; otherwise advances by eight and yields the signed value whose 64-bit pattern is the low little-endian word plus 2^32 times the high one |
| BinaryReading.BytesAt | packages/file-id/src/parse.ts:237 | a length-prefixed string: the bytes returned are the ones after the header, and the offset moves past the padding to a multiple of four; with a one-byte header the string succeeds exactly when that many bytes follow and has that length; with the header byte 254 it fails when the three length bytes are missing, and otherwise succeeds exactly when the announced three-byte little-endian length fits and has that length; it fails past the end of the buffer |
| BinaryReading.BinaryReader.Int32 | packages/file-id/src/parse.ts:220 | the method returns what `Int32At` yields at the old offset and leaves the offset just past it |
| BinaryReading.BinaryReader.Long | packages/file-id/src/parse.ts:129-130 | returns what `LongAt` yields at the old offset and advances past it |
| BinaryReading.BinaryReader.Bytes | packages/file-id/src/parse.ts:237 | returns what `BytesAt` yields at the old offset and advances past it |
| BinaryReading.BinaryReader.String | packages/file-id/src/parse.ts:10 | a string field is framed like a byte string: returns what `BytesAt` yields and advances past it |
| TelegramRle.RleDecodeZeroFree | packages/file-id/src/parse.ts:216 | a payload without zero bytes holds no runs, so run-length decoding leaves it unchanged |
| FileIdFlags.ClearFlagClears | packages/file-id/src/parse.ts:225-226 | after `x & ~flag` the flag is no longer set |
| FileIdFlags.ClearFlagKeepsOthers | packages/file-id/src/parse.ts:225-226 | `x & ~flag` keeps every bit disjoint from the flag |
| FileIdFlags.ClearFlagUnset | packages/file-id/src/parse.ts:225-226 | clearing a flag that is not set changes nothing |
| FileIdFlags.FileTypeHasNoFlags | packages/file-id/src/parse.ts:222-226 | the file type left after clearing both flags carries neither the web flag nor the file-reference flag |
| FileIdFlags.FileTypeKeepsOtherBits | packages/file-id/src/parse.ts:222-226 | the file type keeps every bit of the raw type word outside the two flags |
| FileIdFlags.FileTypeOfUnflagged | packages/file-id/src/parse.ts:222-226 | a raw type word without either flag is its own file type |
| FileIdDecoding.SizeSourceAt | packages/file-id/src/parse.ts:15-121 | a decoded source's tag is the 32-bit word read first; a decoded thumbnail has an inner file type in range and a thumbnail type below 256; a decoded legacy source has a non-negative local id; the source lies within the buffer; a tag outside 0..9 is an unsupported-error |
| FileIdDecoding.SizeSourceLayout | packages/file-id/src/parse.ts:15-121 | the layout of each tag by byte offset: tag 0 a secret; 1 a file type (unsupported-error out of range) then a thumbnail type (invalid-file-id error outside 0..255); 2 and 3 a small or big dialog photo id and access hash; 4 a sticker set id and access hash; 5 a volume id, secret and local id; 6 and 7 a dialog photo id, access hash, volume id and local id; 8 the same for a sticker set; 9 a sticker set id, access hash and version; a negative local id is an invalid-file-id error, and a record cut short a range error |
| FileIdDecoding.WebLocationAt | packages/file-id/src/parse.ts:5-13 | succeeds exactly when a byte string and then a long can be read; the URL is the byte string at the offset and the access hash the long after it; the location ends after that long |
| FileIdDecoding.CommonLocationAt | packages/file-id/src/parse.ts:195-203 | succeeds exactly when sixteen bytes remain; the id is the long at the offset and the access hash the long eight bytes on; the location ends sixteen bytes on |
| FileIdDecoding.PhotoLocationAt | packages/file-id/src/parse.ts:123-193 | a decoded photo location has its id and access hash from the two longs at the offset, whatever the subversion |
| FileIdDecoding.LegacySourceAt | packages/file-id/src/parse.ts:151-184 | the conversion of a pre-32 source yields only a thumbnail, full-legacy, dialog-photo-legacy or sticker-set-thumbnail-legacy source; it refuses exactly the dialog-photo-legacy, sticker-set-thumbnail-legacy and versioned sticker-set-thumbnail sources, with an invalid-file-id error |
| FileIdDecoding.LocationAt | packages/file-id/src/parse.ts:245-316 | with the web flag set, the result is exactly the web location at the offset, whatever the file type; otherwise, for a photo type, it is the photo location at the offset when that fails or its size source agrees with the file type, and an invalid-file-id error when the source disagrees; for a common type it is exactly the common location at the offset; any other type is an unsupported-error; a decoded location is web exactly when the flag is set |
| FileIdDecoding.FileReferenceAt | packages/file-id/src/parse.ts:235-243 | without the flag nothing is read; with it the reference is the byte string read, except that the one-byte reference `#` becomes no reference; a decoded reference is never `#` |
| FileIdDecoding.PersistentIdV23 | packages/file-id/src/parse.ts:205-325 | a subversion outside 0..current is an unsupported-error; a file type out of range after clearing the flags is an unsupported-error; otherwise the identifier decodes exactly when the dc id at byte 4, the file reference at byte 8 (read only under the reference flag) and the location after it all decode; the dc id, reference and location are those values; the file type is the raw word with both flags cleared; the decoded identifier is well formed |
| FileIdDecoding.ParseFileId | packages/file-id/src/parse.ts:341-359 | an empty identifier, or one whose last byte is neither generation marker, is an unsupported-error; every identifier it decodes is well formed |
| FileIdParse.ParseWebFileLocation | packages/file-id/src/parse.ts:5-13 | the reader method returns what `WebLocationAt` describes at the old offset and leaves the reader just past it |
| FileIdParse.ParsePhotoSizeSource | packages/file-id/src/parse.ts:15-121 | returns what `SizeSourceAt` describes at the old offset, with the same error on each path, and leaves the reader just past it |
| FileIdParse.ConvertLegacySource | packages/file-id/src/parse.ts:151-184 | the `switch` over the source returns what `LegacySourceAt` describes, reading a secret and a local id afresh for a `legacy` source |
| FileIdParse.ParsePhotoFileLocation | packages/file-id/src/parse.ts:123-193 | returns what `PhotoLocationAt` describes for the subversion and leaves the reader just past it |
| FileIdParse.ParseCommonFileLocation | packages/file-id/src/parse.ts:195-203 | returns what `CommonLocationAt` describes and leaves the reader just past it |
| FileIdParse.FromPersistentIdV23 | packages/file-id/src/parse.ts:205-325 | the imperative decoder returns exactly `PersistentIdV23` of its payload and subversion, errors included |
| FileIdProperties.OldMarkerDispatch | packages/file-id/src/parse.ts:327-329 | an identifier ending in the old marker decodes as its payload without the marker, at subversion 0 |
| FileIdProperties.CurrentMarkerDispatch | packages/file-id/src/parse.ts:331-334 | an identifier ending in the current marker decodes as its payload without the last two bytes, at the subversion given by the byte before the marker |
| FileIdProperties.ThumbnailSourceErrors | packages/file-id/src/parse.ts:23-39 | a thumbnail source with an inner file type out of range is an unsupported-error; one with a thumbnail type outside 0..255 is an invalid-file-id error |
| FileIdProperties.NegativeLocalIdRefused | packages/file-id/src/parse.ts:61-106 | a tag-5, 6, 7 or 8 source whose local id is negative is refused with an invalid-file-id error |
| FileIdProperties.PhotoLayoutFrom32 | packages/file-id/src/parse.ts:133-134 | from subversion 32 on, the photo location's source is exactly the size source after the id and access hash |
| FileIdProperties.PhotoLayoutBefore22 | packages/file-id/src/parse.ts:142-149 | below subversion 22, the location takes exactly 36 bytes and its source is the full-legacy source built from the volume id, secret and local id, with no tag read and no local-id check |
| FileIdProperties.PhotoLayoutFrom22 | packages/file-id/src/parse.ts:136-141 | from subversion 22 to 31, the location decodes exactly when the size source after the volume id, the local id after it, and the conversion all succeed; its source is then the converted source |
| FileIdProperties.PhotoLayoutFrom22Refuses | packages/file-id/src/parse.ts:182-184 | from 22 to 31, a dialog-photo-legacy, sticker-set-thumbnail-legacy or versioned sticker-set-thumbnail source makes the whole location an invalid-file-id error |
| FileIdProperties.LegacyConversion | packages/file-id/src/parse.ts:151-184 | each case of the conversion: a dialog photo or sticker-set thumbnail gains the volume id and local id; full-legacy and thumbnail sources are kept; a `legacy` source reads twelve more bytes and becomes full-legacy |
| FileIdProperties.DialogPhotoAtSubversion25 | packages/file-id/src/parse.ts:123-193 | a worked example: a small dialog photo stored at subversion 25 decodes to the dialog-photo-legacy source with the volume id and local id around it |
| HtmlEscape.EscapeOneChar | packages/html-parser/src/index.ts:95-103 | the replacement chain maps `&`, `<`, `>` (and `"` when quoting) to their entities and leaves any other character alone; `&amp;` is not escaped again by the later replacements |
| HtmlEscape.EscapeConcat | packages/html-parser/src/index.ts:95-103 | escaping distributes over concatenation |
| HtmlEscape.EscapeIsPerCharacter | packages/html-parser/src/index.ts:95-103 | the chain of replacements equals escaping each character on its own |
| HtmlEscape.EscapeRemovesMarkup | packages/html-parser/src/index.ts:95-103 | the output holds no `<` or `>`, and no `"` when quoting |
| HtmlEscape.EscapeAmpersands | packages/html-parser/src/index.ts:95-103 | every `&` of the output begins one of the entities the escaping writes |
| HtmlEscape.EscapeIdentity | packages/html-parser/src/index.ts:95-103 | a string without the special characters is returned unchanged |
| HtmlTemplate.Substitute | packages/html-parser/src/index.ts:26-31 | a plain substitution is escaped; a formatted one is inserted as is exactly when its mode is unset, empty or `html`, and otherwise fails with that mode |
| HtmlTemplate.Html | packages/html-parser/src/index.ts:20-36 | succeeds exactly when every substitution is compatible, giving the literal parts interleaved with the rendered substitutions in mode `html`; otherwise fails with the mode of the first incompatible substitution |
| HtmlParse.ToLowerNormalises | packages/html-parser/src/index.ts:112 | lower-casing keeps the length, leaves no ASCII capital, keeps every other character, and lower-casing again changes nothing |
| HtmlParse.HashGroup | packages/html-parser/src/index.ts:10 | a captured access hash follows `&hash=`, is an optional `-` and at least one hex digit, and is followed by `&` or the end |
| HtmlParse.HashGroupComplete | packages/html-parser/src/index.ts:10 | any hash group the pattern can capture after the user id is the one `HashGroup` returns |
| HtmlParse.MatchMention | packages/html-parser/src/index.ts:10 | a mention match starts with `tg://user?id=`; its user id is the whole run of digits that follows, which is non-empty; it is followed by a captured hash group or, when none can be captured, by `&` or the end |
| HtmlParse.MatchMentionComplete | packages/html-parser/src/index.ts:10 | whenever the mention pattern matches a link, `MatchMention` returns that match, so it never misses one |
| HtmlParse.LinkKind | packages/html-parser/src/index.ts:170-207 | a link becomes a mention exactly when the mention pattern matches, and a text link otherwise, with `http:` put before a protocol-relative `//` link; a mention with an access hash becomes an input mention, one without becomes a mention; the user id is the decimal value of the digits and the access hash the signed hexadecimal value of the captured group |
| HtmlParse.KindFor | packages/html-parser/src/index.ts:115-210 | an opening tag starts an entity exactly when it is one of the known tags, except an `a` without a non-empty `href`; `pre` takes its `language` attribute or the empty string; `a` takes the link kind of its `href`; `b`/`strong` are bold, `i`/`em` italic, `u` underline, `s`/`del`/`strike` strikethrough, `blockquote` a blockquote and `code` code, each in both directions |
| HtmlParse.EntityParser.constructor | packages/html-parser/src/index.ts:106-108 | the state starts with no stacks, no entities and no text |
| HtmlParse.EntityParser.OnOpenTag | packages/html-parser/src/index.ts:111-216 | a recognised tag pushes an empty entity at the current end of the plain text onto the stack of its lower-cased name; any other tag changes nothing; the invariant that open entities reach the end of the text holds |
| HtmlParse.EntityParser.OnText | packages/html-parser/src/index.ts:217-225 | every open entity in every stack grows by the length of the text, which is appended to the plain text; nothing else changes |
| HtmlParse.EntityParser.OnCloseTag | packages/html-parser/src/index.ts:226-230 | the last open entity of that name is popped and appended to the finished entities; an unmatched closing tag changes nothing |
| HtmlParse.AfterEventConsistent | packages/html-parser/src/index.ts:111-230 | each callback keeps open entities reaching the end of the plain text and finished ones within it |
| HtmlParse.RunConsistent | packages/html-parser/src/index.ts:105-236 | after any sequence of events, the finished entities lie within the plain text |
| HtmlParse.RunPlainText | packages/html-parser/src/index.ts:217-225 | after any sequence of events, the plain text is the text events joined in order, whatever tags surround them |
| HtmlParse.NestedTagsExample | packages/html-parser/src/index.ts:105-236 | `<B>ab<i>c</i></b></b>` gives the italic entity (2, 1) and then the bold one (0, 3), in closing order; the upper-case opening tag is filed under `b`, and the unmatched closing tag is ignored |
| HtmlParse.Parse | packages/html-parser/src/index.ts:105-236 | the entities returned are exactly those finished by the callbacks, in the order their closing tags arrive, and the plain text is that of the same run: the concatenation of the text events; every finished entity lies within it |
| HtmlUnparse.Markup | packages/html-parser/src/index.ts:300-350 | an entity type yields markup exactly when the unparser knows it |
| HtmlUnparse.SingleEntityRenders | packages/html-parser/src/index.ts:243-358 | a text with one entity of a known type that covers a non-empty part of it unparses to the escaped text before the entity, then the entity's escaped text wrapped in its markup, then the escaped rest |
| HtmlUnparse.Unparse | packages/html-parser/src/index.ts:243-358 | the recursive procedure returns exactly `UnparseFrom` of its arguments |
| HtmlUnparse.PlaceEntities | packages/html-parser/src/index.ts:257-262 | the loop's HTML pieces and covered position are what `Loop` describes from the first entity to place |
| HtmlUnparse.PlaceEntity | packages/html-parser/src/index.ts:261-352 | one pass of the loop body does what `Step` describes |
| HtmlUnparse.EmitGap | packages/html-parser/src/index.ts:264-282 | the offset and length are clipped at zero, the plain text before the entity is emitted escaped, and the part already covered is cut off, as `Align` describes |
| HtmlUnparse.RenderEntity | packages/html-parser/src/index.ts:289-352 | the entity's text is unparsed recursively and wrapped in its markup, and the covered position moves past it only when there is markup |
| HtmlUnparse.SkippedTypeAddsNoMarkup | packages/html-parser/src/index.ts:347-352 | an entity of an unknown type adds no markup, and the covered position does not move past its start |
| HtmlUnparse.CorrectedStepCoversPrefix | packages/html-parser/src/index.ts:272-290 | with the gap correction, a step over an entity without markup keeps the HTML equal to the escaped text up to the covered position |
| HtmlUnparse.CorrectedLoopCoversPrefix | packages/html-parser/src/index.ts:260-353 | with the gap correction, the whole loop over entities without markup keeps that invariant |
| HtmlUnparse.CorrectedKeepsPlainText | packages/html-parser/src/index.ts:243-358 | with the gap correction, entities that produce no markup leave the text escaped and otherwise unchanged |
| HtmlUnparse.GapRepeatedAsWritten | packages/html-parser/src/index.ts:272-290 | as written, `"ab"` with an empty bold entity at offset 1 unparses to `"aab"`; corrected, to `"ab"` |

## Left out

- Base64: `parseFileId` also accepts a URL-safe base64 string. The model starts from the decoded bytes, because base64 decoding is done by a helper outside these files.
- Run-length decoding: `telegramRleDecode` (packages/file-id/src/utils.ts) is not part of this model. `TelegramRle.RleDecode` decodes Telegram's zero-run scheme: a zero byte followed by a count stands for that many zeros, and every other byte stands for itself.
- Binary reader: the `BinaryReader` of `@mtcute/core` is not part of this model. `BinaryReading` follows the TL framing: a first byte of 254 announces a three-byte length, and fields are padded to four bytes. Running out of bytes is modelled as the error `RangeError`.
- BinaryReading.BinaryReader.String: returns the raw bytes of the string. Its UTF-8 decoding into a JavaScript string is not modelled, so a web URL is kept as bytes.
- Error messages: the text of each thrown error, which includes the identifier in base64, is not modelled. Only the kind of error is.
- FileType constants: the numeric codes, the flag bits, the generation markers and the current subversion are declared without values. Their values come from `./types`, which is not part of this model.
- HtmlParse.LinkKind: the user id is the exact value of its digits. JavaScript's `parseInt` loses precision above 2^53, and this is not modelled. `bigInt(hash, 16)` is modelled exactly.
- HtmlParse.ToLower: lower-cases ASCII letters only. `toLowerCase` also maps non-ASCII letters.
- The HTML tokenizer: htmlparser2 is not modelled. `parse` takes the sequence of events it would deliver: opening tags with attributes, text, and closing tags.
- Entity kinds: `parse` yields the entity kind and span, not the TL object names. Entities still open when the events end are dropped, as in the source.
- Inherited keys: the source keeps its stacks in a plain object. A closing tag named after an inherited property, such as `</constructor>`, makes `stacks[name]?.pop()` throw a TypeError there. `OnCloseTag` treats such a tag as unmatched.
- HtmlUnparse.Markup: `code`, `pre` and `blockquote` wrap the inner text as it is. The optional syntax-highlighter callback is left out because it is user code.
- HtmlUnparse.Unparse, HtmlParse.EntityParser.OnOpenTag, HtmlParse.EntityParser.OnText, HtmlParse.Parse: JavaScript strings are sequences of UTF-16 code units, so `length`, `substring` and `substr` count code units. The model counts characters. Offsets and lengths therefore agree with the source only on text from the Basic Multilingual Plane. Each character outside it, such as an emoji, shifts later offsets by one.
- Defaults: the public `unparse` calls `_unparse` with `entitiesOffset = 0`, `offset = 0` and `length = text.length`. The model states `_unparse` for any arguments.
- Encoding: no file-ID encoder is modelled, so no round trip is stated.

## Findings

| source | as written | input that shows it | evidently intended | confidence | as-written member | corrected member |
|---|---|---|---|---|---|---|
| packages/html-parser/src/index.ts:272-290 | the plain text before an entity is pushed to the output, but when that entity is then passed over (`continue` for an empty or out-of-range entity), `lastOffset` is not advanced, so the same text is emitted again later | text `"ab"` with one bold entity at offset 1, length 0 (what `parse` returns for `a<b></b>b`) unparses to `"aab"` | every character of the text is emitted once: `"ab"` | not executed | HtmlUnparse.GapRepeatedAsWritten | HtmlUnparse.CorrectedKeepsPlainText |

In the model, the procedure `HtmlUnparse.Unparse` follows the source as
written. The specification functions take a `GapHandling` argument. Its
`Corrected` value advances the covered position past the emitted gap, and
the corrected properties are proved for that value.
