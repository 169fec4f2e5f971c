/**
 * `HtmlMessageEntityParser._unparse`: turning plain text and its entities
 * back into HTML. The function `UnparseFrom` states what one call returns;
 * `Loop` and `Step` state what its loop over the entities accumulates. The
 * method `Unparse` is the recursive, looping procedure itself and is proved
 * to return `UnparseFrom`.
 */
module HtmlUnparse {
  import opened Results
  import opened HtmlEscape

  /** The entity types the unparser renders, and any other type (which it skips). */
  datatype EntityType =
    | Bold
    | Italic
    | Underline
    | Strikethrough
    | Code
    | Pre(language: string)
    | Blockquote
    | Email
    | Url
    | TextLink(url: string)
    | TextMention(userId: int)
    | OtherType(name: string)

  /** A message entity as the unparser receives it; offsets and lengths are not validated. */
  datatype MessageEntity = MessageEntity(kind: EntityType, offset: int, length: int)

  /**
   * The loop as the source writes it, or with the correction that advances
   * the consumed position past the plain text it has just emitted (see
   * `GapRepeatedAsWritten`).
   */
  datatype GapHandling = AsWritten | Corrected

  // ----- JavaScript string slicing -----

  function Clamp(n: int, size: nat): (c: nat)
    ensures c <= size
  {
    if n < 0 then 0 else if n > size then size else n
  }

  /** `text.substring(start, end)`: both ends clamped to the string, swapped when reversed. */
  function Substring(text: string, start: int, end: int): string
  {
    var a, b := Clamp(start, |text|), Clamp(end, |text|);
    if a <= b then text[a..b] else text[b..a]
  }

  /** `text.substr(start, length)` for a non-negative start. */
  function Substr(text: string, start: nat, length: int): string
  {
    if start >= |text| || length <= 0 then "" else text[start..Clamp(start + length, |text|)]
  }

  /** `text.substr(start)` for a non-negative start. */
  function SubstrFrom(text: string, start: nat): string
  {
    if start >= |text| then "" else text[start..]
  }

  lemma SubstrFromSuffix(text: string, start: nat)
    requires start <= |text|
    ensures SubstrFrom(text, start) == text[start..]
  {
  }

  // ----- rendering one entity -----

  function DigitChar(d: nat): char
    requires d < 10
  {
    ('0' as int + d) as char
  }

  function NatDecimal(n: nat): (s: string)
    ensures |s| > 0
  {
    if n < 10 then [DigitChar(n)] else NatDecimal(n / 10) + [DigitChar(n % 10)]
  }

  /** The decimal form of an integer, as a template literal prints a number. */
  function Decimal(n: int): string {
    if n < 0 then "-" + NatDecimal(-n) else NatDecimal(n)
  }

  /** The HTML an entity becomes around its already rendered inner text, or nothing for a type that is skipped. */
  function Markup(kind: EntityType, inner: string): (r: Option<string>)
    ensures r.None? <==> kind.OtherType?
  {
    match kind
    case Bold => Some("<b>" + inner + "</b>")
    case Italic => Some("<i>" + inner + "</i>")
    case Underline => Some("<u>" + inner + "</u>")
    case Strikethrough => Some("<s>" + inner + "</s>")
    case Code => Some("<code>" + inner + "</code>")
    case Pre(language) =>
      Some("<pre" + (if language != "" then " language=\"" + language + "\"" else "") + ">" + inner + "</pre>")
    case Blockquote => Some("<blockquote>" + inner + "</blockquote>")
    case Email => Some("<a href=\"mailto:" + inner + "\">" + inner + "</a>")
    case Url => Some("<a href=\"" + inner + "\">" + inner + "</a>")
    case TextLink(url) => Some("<a href=\"" + EscapeEach(url, true) + "\">" + inner + "</a>")
    case TextMention(userId) => Some("<a href=\"tg://user?id=" + Decimal(userId) + "\">" + inner + "</a>")
    case OtherType(_) => None
  }

  // ----- the specification of `_unparse` -----

  /** What the loop carries from one entity to the next: the HTML so far and how much of the text it covers. */
  datatype LoopState = LoopState(html: string, lastOffset: nat)

  /**
   * `_unparse(text, entities, entitiesOffset, offset, length)`: `text` is the
   * slice of the message that starts at absolute offset `offset`, and the
   * entities from `entitiesOffset` on are the ones still to place.
   */
  function UnparseFrom(mode: GapHandling, text: string, entities: seq<MessageEntity>, entitiesOffset: nat,
                       offset: int, length: int): (r: string)
    requires entitiesOffset <= |entities|
    ensures |text| == 0 ==> r == ""
    ensures |text| > 0 && entitiesOffset == |entities| ==> r == EscapeEach(text, false)
    decreases |entities| - entitiesOffset, 2
  {
    if |text| == 0 then text
    else if |entities| == 0 || |entities| == entitiesOffset then EscapeEach(text, false)
    else
      var last := Loop(mode, text, entities, offset, offset + length, entitiesOffset, LoopState("", 0));
      last.html + EscapeEach(SubstrFrom(text, last.lastOffset), false)
  }

  /** The loop from entity `i` on, until the entities run out or one starts at or after `end`. */
  function Loop(mode: GapHandling, text: string, entities: seq<MessageEntity>, offset: int, end: int,
                i: nat, st: LoopState): LoopState
    requires i <= |entities|
    decreases |entities| - i, 1
  {
    if i == |entities| || entities[i].offset >= end then st
    else Loop(mode, text, entities, offset, end, i + 1, Step(mode, text, entities, offset, end, i, st))
  }

  /** The part of an entity that starts at a negative offset is dropped. */
  function ClippedStart(e: MessageEntity): nat {
    if e.offset < 0 then 0 else e.offset
  }

  function ClippedLength(e: MessageEntity): int {
    if e.offset < 0 then e.length + e.offset else e.length
  }

  /**
   * The first half of the loop body: the entity's position relative to
   * `text`, the plain text emitted before it, and its start and length once
   * the part already covered is cut off.
   */
  datatype Aligned = Aligned(html: string, covered: nat, rel: int, len: int)

  function Align(mode: GapHandling, text: string, entity: MessageEntity, offset: int, st: LoopState): Aligned {
    var rel0 := ClippedStart(entity) - offset;
    var gap := rel0 > st.lastOffset;
    Aligned(
      if gap then st.html + EscapeEach(Substring(text, st.lastOffset, rel0), false) else st.html,
      if mode.Corrected? && gap then rel0 else st.lastOffset,
      if rel0 < st.lastOffset then st.lastOffset else rel0,
      if rel0 < st.lastOffset then ClippedLength(entity) - (st.lastOffset - rel0) else ClippedLength(entity))
  }

  /** One pass of the loop body for entity `i`. */
  function Step(mode: GapHandling, text: string, entities: seq<MessageEntity>, offset: int, end: int,
                i: nat, st: LoopState): LoopState
    requires i < |entities|
    decreases |entities| - i, 0
  {
    var a := Align(mode, text, entities[i], offset, st);
    if a.len <= 0 || a.rel >= end || a.rel < 0 then LoopState(a.html, a.covered)
    else
      var sub := Substr(text, a.rel, a.len);
      if |sub| == 0 then LoopState(a.html, a.covered)
      else
        Rendered(a.html, a.rel, a.len, Markup(entities[i].kind, UnparseFrom(mode, sub, entities, i + 1, offset + a.rel, a.len)))
  }

  /**
   * The end of the loop body for an entity with text of its own: its markup
   * is appended and the covered position moves past it; an entity without
   * markup leaves the covered position at its start.
   */
  function Rendered(html: string, rel: nat, len: nat, markup: Option<string>): LoopState {
    match markup
    case Some(m) => LoopState(html + m, rel + len)
    case None => LoopState(html, rel)
  }

  // ----- the procedure -----

  /** `html.join('')`. */
  function Join(pieces: seq<string>): string {
    if |pieces| == 0 then "" else Join(pieces[..|pieces| - 1]) + pieces[|pieces| - 1]
  }

  lemma JoinAppend(pieces: seq<string>, piece: string)
    ensures Join(pieces + [piece]) == Join(pieces) + piece
  {
    assert (pieces + [piece])[..|pieces|] == pieces;
  }

  /** `_unparse` as the source writes it: a loop over the entities that recurses into each entity's text. */
  method Unparse(text: string, entities: seq<MessageEntity>, entitiesOffset: nat, offset: int, length: int)
    returns (r: string)
    requires entitiesOffset <= |entities|
    ensures r == UnparseFrom(AsWritten, text, entities, entitiesOffset, offset, length)
    decreases |entities| - entitiesOffset, 3
  {
    if |text| == 0 {
      return text;
    }
    if |entities| == 0 || |entities| == entitiesOffset {
      EscapeIsPerCharacter(text, false);
      return Escape(text, false);
    }

    var html, lastOffset := PlaceEntities(text, entities, entitiesOffset, offset, offset + length);
    UnparseFromLoop(AsWritten, text, entities, entitiesOffset, offset, length, LoopState(Join(html), lastOffset));
    r := Join(html) + Escape(SubstrFrom(text, lastOffset), false);
    EscapeIsPerCharacter(SubstrFrom(text, lastOffset), false);
  }

  /** The loop of `_unparse`: each entity that starts before `end`, in order, placed by `PlaceEntity`. */
  method PlaceEntities(text: string, entities: seq<MessageEntity>, entitiesOffset: nat, offset: int, end: int)
    returns (html: seq<string>, lastOffset: nat)
    requires entitiesOffset <= |entities|
    ensures LoopState(Join(html), lastOffset)
         == Loop(AsWritten, text, entities, offset, end, entitiesOffset, LoopState("", 0))
    decreases |entities| - entitiesOffset, 2
  {
    html, lastOffset := [], 0;
    assert Join(html) == "";
    ghost var goal := Loop(AsWritten, text, entities, offset, end, entitiesOffset, LoopState(Join(html), lastOffset));

    var i := entitiesOffset;
    while i < |entities| && entities[i].offset < end
      invariant entitiesOffset <= i <= |entities|
      invariant Loop(AsWritten, text, entities, offset, end, i, LoopState(Join(html), lastOffset)) == goal
    {
      ghost var st := LoopState(Join(html), lastOffset);
      html, lastOffset := PlaceEntity(text, entities, offset, end, i, html, lastOffset);
      LoopContinues(AsWritten, text, entities, offset, end, i, st, LoopState(Join(html), lastOffset));
      i := i + 1;
    }
    LoopStops(AsWritten, text, entities, offset, end, i, LoopState(Join(html), lastOffset));
  }

  /** The body of `_unparse`'s loop for entity `i`: the plain text before it, then its markup. */
  method PlaceEntity(text: string, entities: seq<MessageEntity>, offset: int, end: int, i: nat,
                     html: seq<string>, lastOffset: nat)
    returns (html': seq<string>, lastOffset': nat)
    requires i < |entities|
    ensures LoopState(Join(html'), lastOffset')
         == Step(AsWritten, text, entities, offset, end, i, LoopState(Join(html), lastOffset))
    decreases |entities| - i, 1
  {
    html', lastOffset' := html, lastOffset;
    var entity := entities[i];
    ghost var st := LoopState(Join(html), lastOffset);

    var relativeOffset: int, length: int;
    html', relativeOffset, length := EmitGap(text, entity, offset, html, lastOffset);

    if length <= 0 || relativeOffset >= end || relativeOffset < 0 {
      StepPassesOver(text, entities, offset, end, i, st, Join(html'), relativeOffset, length);
      return;
    }

    var substr := Substr(text, relativeOffset, length);
    if |substr| == 0 {
      StepPassesOver(text, entities, offset, end, i, st, Join(html'), relativeOffset, length);
      return;
    }

    ghost var before := Join(html');
    html', lastOffset' := RenderEntity(substr, entities, i, offset + relativeOffset, relativeOffset, length, html');
    StepRenders(text, entities, offset, end, i, st, before, relativeOffset, length, LoopState(Join(html'), lastOffset'));
  }

  /** The second half of the loop body: the entity's own text rendered recursively and wrapped in its markup. */
  method RenderEntity(substr: string, entities: seq<MessageEntity>, i: nat, start: int, rel: nat, length: nat,
                      html: seq<string>)
    returns (html': seq<string>, lastOffset': nat)
    requires i < |entities|
    ensures LoopState(Join(html'), lastOffset')
         == Rendered(Join(html), rel, length,
                     Markup(entities[i].kind, UnparseFrom(AsWritten, substr, entities, i + 1, start, length)))
    decreases |entities| - i, 0
  {
    var entityText := Unparse(substr, entities, i + 1, start, length);
    var markup := Markup(entities[i].kind, entityText);
    html' := html;
    if markup.Some? {
      JoinAppend(html', markup.value);
      html' := html' + [markup.value];
    }
    lastOffset' := rel + (if markup.None? then 0 else length);
  }

  /** `UnparseFrom` for a non-empty text with entities left: the loop, then the text after the last covered position. */
  lemma UnparseFromLoop(mode: GapHandling, text: string, entities: seq<MessageEntity>, entitiesOffset: nat,
                        offset: int, length: int, last: LoopState)
    requires entitiesOffset < |entities| && |text| > 0
    requires last == Loop(mode, text, entities, offset, offset + length, entitiesOffset, LoopState("", 0))
    ensures UnparseFrom(mode, text, entities, entitiesOffset, offset, length)
         == last.html + EscapeEach(SubstrFrom(text, last.lastOffset), false)
  {
  }

  /** `UnparseFromLoop`, with the loop's outcome and the text after it given by their parts. */
  lemma UnparseFromParts(mode: GapHandling, text: string, entities: seq<MessageEntity>, entitiesOffset: nat,
                         offset: int, length: int, html: string, lastOffset: nat, rest: string)
    requires entitiesOffset < |entities| && |text| > 0
    requires Loop(mode, text, entities, offset, offset + length, entitiesOffset, LoopState("", 0))
          == LoopState(html, lastOffset)
    requires SubstrFrom(text, lastOffset) == rest
    ensures UnparseFrom(mode, text, entities, entitiesOffset, offset, length) == html + EscapeEach(rest, false)
  {
  }

  /** The loop goes on past an entity that starts before the end of the range. */
  lemma LoopContinues(mode: GapHandling, text: string, entities: seq<MessageEntity>, offset: int, end: int, i: nat,
                      st: LoopState, next: LoopState)
    requires i < |entities| && entities[i].offset < end
    requires next == Step(mode, text, entities, offset, end, i, st)
    ensures Loop(mode, text, entities, offset, end, i, st) == Loop(mode, text, entities, offset, end, i + 1, next)
  {
  }

  /** The loop stops when the entities run out or one starts at or after the end of the range. */
  lemma LoopStops(mode: GapHandling, text: string, entities: seq<MessageEntity>, offset: int, end: int, i: nat,
                  st: LoopState)
    requires i <= |entities| && (i == |entities| || entities[i].offset >= end)
    ensures Loop(mode, text, entities, offset, end, i, st) == st
  {
  }

  /** An entity that is empty once clipped, or lies outside the text, adds only the plain text before it. */
  lemma StepPassesOver(text: string, entities: seq<MessageEntity>, offset: int, end: int, i: nat, st: LoopState,
                       html: string, rel: int, len: int)
    requires i < |entities|
    requires var a := Align(AsWritten, text, entities[i], offset, st); html == a.html && rel == a.rel && len == a.len
    requires len <= 0 || rel >= end || rel < 0 || |Substr(text, rel, len)| == 0
    ensures Step(AsWritten, text, entities, offset, end, i, st) == LoopState(html, st.lastOffset)
  {
  }

  /** An entity with text of its own adds the markup around its rendered text, if its type has markup. */
  lemma StepRenders(text: string, entities: seq<MessageEntity>, offset: int, end: int, i: nat, st: LoopState,
                    html: string, rel: int, len: int, next: LoopState)
    requires i < |entities|
    requires var a := Align(AsWritten, text, entities[i], offset, st); html == a.html && rel == a.rel && len == a.len
    requires len > 0 && 0 <= rel < end && |Substr(text, rel, len)| != 0
    requires next == Rendered(html, rel, len,
                              Markup(entities[i].kind, UnparseFrom(AsWritten, Substr(text, rel, len), entities, i + 1,
                                                                   offset + rel, len)))
    ensures Step(AsWritten, text, entities, offset, end, i, st) == next
  {
  }

  /**
   * The first half of the loop body: the entity's start and length clipped
   * at zero, the plain text before it emitted, and the part already covered
   * cut off.
   */
  method EmitGap(text: string, entity: MessageEntity, offset: int, html: seq<string>, lastOffset: nat)
    returns (html': seq<string>, relativeOffset: int, length: int)
    ensures var a := Align(AsWritten, text, entity, offset, LoopState(Join(html), lastOffset));
      Join(html') == a.html && relativeOffset == a.rel && length == a.len
  {
    html' := html;
    var entOffset := entity.offset;
    length := entity.length;
    if entOffset < 0 {
      length := length + entOffset;
      entOffset := 0;
    }

    relativeOffset := entOffset - offset;
    if relativeOffset > lastOffset {
      var gap := Escape(Substring(text, lastOffset, relativeOffset), false);
      EscapeIsPerCharacter(Substring(text, lastOffset, relativeOffset), false);
      JoinAppend(html', gap);
      html' := html' + [gap];
    } else if relativeOffset < lastOffset {
      length := length - (lastOffset - relativeOffset);
      relativeOffset := lastOffset;
    }
  }

  // ----- properties -----

  /**
   * An entity of a type the unparser does not know adds no markup: only the
   * plain text before it is emitted, and the covered position does not move
   * past the entity's start, so its text is emitted later as plain text.
   */
  lemma SkippedTypeAddsNoMarkup(mode: GapHandling, text: string, entities: seq<MessageEntity>, offset: int,
                                end: int, i: nat, st: LoopState)
    requires i < |entities| && entities[i].kind.OtherType?
    ensures var a, next := Align(mode, text, entities[i], offset, st), Step(mode, text, entities, offset, end, i, st);
      next.html == a.html && next.lastOffset <= a.rel
  {
  }

  /** Where the only entity, of a known type and covering `text[o..o + l]`, starts and how long it is. */
  lemma SingleEntityAligns(text: string, kind: EntityType, o: nat, l: nat)
    requires l > 0 && o + l <= |text|
    ensures Align(AsWritten, text, MessageEntity(kind, o, l), 0, LoopState("", 0))
         == Aligned(EscapeEach(text[..o], false), 0, o, l)
  {
    if o > 0 {
      assert Substring(text, 0, o) == text[..o];
    }
  }

  /** The one pass of the loop over one entity of a known type covering `text[o..o + l]`. */
  lemma SingleEntityStep(text: string, kind: EntityType, o: nat, l: nat)
    requires !kind.OtherType? && l > 0 && o + l <= |text|
    ensures Step(AsWritten, text, [MessageEntity(kind, o, l)], 0, |text|, 0, LoopState("", 0))
         == LoopState(EscapeEach(text[..o], false) + Markup(kind, EscapeEach(text[o..o + l], false)).value, o + l)
  {
    var entities := [MessageEntity(kind, o, l)];
    SingleEntityAligns(text, kind, o, l);
    var html := EscapeEach(text[..o], false);
    assert Substr(text, o, l) == text[o..o + l];
    var inner := UnparseFrom(AsWritten, text[o..o + l], entities, 1, o, l);
    StepRenders(text, entities, 0, |text|, 0, LoopState("", 0), html, o, l, Rendered(html, o, l, Markup(kind, inner)));
  }

  /** The loop, and the whole result, for one entity of a known type covering `text[o..o + l]`. */
  lemma SingleEntityLoop(text: string, kind: EntityType, o: nat, l: nat)
    requires !kind.OtherType? && l > 0 && o + l <= |text|
    ensures UnparseFrom(AsWritten, text, [MessageEntity(kind, o, l)], 0, 0, |text|)
         == EscapeEach(text[..o], false) + Markup(kind, EscapeEach(text[o..o + l], false)).value
            + EscapeEach(text[o + l..], false)
  {
    var entities := [MessageEntity(kind, o, l)];
    var start := LoopState("", 0);
    SingleEntityStep(text, kind, o, l);
    var next := Step(AsWritten, text, entities, 0, |text|, 0, start);
    LoopContinues(AsWritten, text, entities, 0, |text|, 0, start, next);
    LoopStops(AsWritten, text, entities, 0, |text|, 1, next);
    SubstrFromSuffix(text, o + l);
    UnparseFromParts(AsWritten, text, entities, 0, 0, |text|, next.html, o + l, text[o + l..]);
  }

  /**
   * One entity of a known type covering `text[o..o + l]`: the text before it
   * escaped, the entity's own text escaped and wrapped in its markup, then
   * the rest of the text escaped.
   */
  lemma SingleEntityRenders(text: string, kind: EntityType, o: nat, l: nat)
    requires !kind.OtherType? && l > 0 && o + l <= |text|
    ensures UnparseFrom(AsWritten, text, [MessageEntity(kind, o, l)], 0, 0, |text|)
         == Escape(text[..o], false) + Markup(kind, Escape(text[o..o + l], false)).value + Escape(text[o + l..], false)
  {
    SingleEntityLoop(text, kind, o, l);
    EscapeIsPerCharacter(text[..o], false);
    EscapeIsPerCharacter(text[o..o + l], false);
    EscapeIsPerCharacter(text[o + l..], false);
  }

  /** The entities from `from` on that produce no markup: unknown types and empty or negative lengths. */
  predicate NoMarkup(entities: seq<MessageEntity>, from: nat) {
    forall j :: from <= j < |entities| ==> entities[j].kind.OtherType? || entities[j].length <= 0
  }

  /** The HTML so far is exactly the escaped text up to the covered position. */
  predicate CoversPrefix(text: string, st: LoopState) {
    st.html == EscapeEach(text[..Clamp(st.lastOffset, |text|)], false)
  }

  lemma PrefixSplit(text: string, x: nat, y: nat)
    requires x <= y <= |text|
    ensures EscapeEach(text[..y], false) == EscapeEach(text[..x], false) + EscapeEach(text[x..y], false)
  {
    assert text[..y] == text[..x] + text[x..y];
    EscapeEachConcat(text[..x], text[x..y], false);
  }

  /** With the correction, a step over an entity that produces no markup keeps the HTML equal to the escaped prefix. */
  lemma CorrectedStepCoversPrefix(text: string, entities: seq<MessageEntity>, offset: int, end: int, i: nat,
                                  st: LoopState)
    requires i < |entities| && NoMarkup(entities, i) && CoversPrefix(text, st)
    ensures CoversPrefix(text, Step(Corrected, text, entities, offset, end, i, st))
  {
    var e := entities[i];
    var a := Align(Corrected, text, e, offset, st);
    var rel0 := ClippedStart(e) - offset;
    if rel0 > st.lastOffset {
      PrefixSplit(text, Clamp(st.lastOffset, |text|), Clamp(rel0, |text|));
    }
    assert CoversPrefix(text, LoopState(a.html, a.covered));
    assert !e.kind.OtherType? ==> a.len <= 0;
  }

  lemma {:induction false} CorrectedLoopCoversPrefix(text: string, entities: seq<MessageEntity>, offset: int,
                                                     end: int, i: nat, st: LoopState)
    requires i <= |entities| && NoMarkup(entities, i) && CoversPrefix(text, st)
    ensures CoversPrefix(text, Loop(Corrected, text, entities, offset, end, i, st))
    decreases |entities| - i
  {
    if i < |entities| && entities[i].offset < end {
      CorrectedStepCoversPrefix(text, entities, offset, end, i, st);
      CorrectedLoopCoversPrefix(text, entities, offset, end, i + 1, Step(Corrected, text, entities, offset, end, i, st));
    }
  }

  /**
   * With the correction, entities that produce no markup leave the text as
   * it is, escaped: nothing is emitted twice and nothing is lost.
   */
  lemma CorrectedKeepsPlainText(text: string, entities: seq<MessageEntity>, entitiesOffset: nat, offset: int,
                                length: int)
    requires entitiesOffset <= |entities| && NoMarkup(entities, entitiesOffset)
    ensures UnparseFrom(Corrected, text, entities, entitiesOffset, offset, length) == Escape(text, false)
  {
    if |text| > 0 && entitiesOffset < |entities| {
      var start := LoopState("", 0);
      assert CoversPrefix(text, start);
      CorrectedLoopCoversPrefix(text, entities, offset, offset + length, entitiesOffset, start);
      var last := Loop(Corrected, text, entities, offset, offset + length, entitiesOffset, start);
      var c := Clamp(last.lastOffset, |text|);
      assert SubstrFrom(text, last.lastOffset) == text[c..];
      UnparseFromParts(Corrected, text, entities, entitiesOffset, offset, length, last.html, last.lastOffset, text[c..]);
      assert text == text[..c] + text[c..];
      EscapeEachConcat(text[..c], text[c..], false);
    }
    EscapeIsPerCharacter(text, false);
  }

  /**
   * As written, the plain text before an entity that is then passed over
   * (here an empty bold entity, as `parse` produces for `a<b></b>b`) is
   * emitted twice; the corrected loop emits it once.
   */
  lemma GapRepeatedAsWritten()
    ensures UnparseFrom(AsWritten, "ab", [MessageEntity(Bold, 1, 0)], 0, 0, 2) == "aab"
    ensures UnparseFrom(Corrected, "ab", [MessageEntity(Bold, 1, 0)], 0, 0, 2) == "ab"
  {
    var entities := [MessageEntity(Bold, 1, 0)];
    var st := Step(AsWritten, "ab", entities, 0, 2, 0, LoopState("", 0));
    assert Substring("ab", 0, 1) == "a";
    assert st == LoopState("a", 0);
    assert Loop(AsWritten, "ab", entities, 0, 2, 0, LoopState("", 0)) == st;
    assert SubstrFrom("ab", 0) == "ab";
    CorrectedKeepsPlainText("ab", entities, 0, 0, 2);
  }
}
