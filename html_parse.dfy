/**
 * `HtmlMessageEntityParser.parse`: the callbacks that turn a stream of
 * tokenizer events (opening tags with their attributes, text, closing tags)
 * into plain text and a list of message entities. The tokenizer itself is
 * not modelled; its events are the input.
 */
module HtmlParse {
  import opened Results
  import opened HtmlEscape

  /** A tokenizer event. */
  datatype Event =
    | OpenTag(name: string, attribs: map<string, string>)
    | Text(data: string)
    | CloseTag(name: string)

  /** The kinds of entity the parser emits, with their extra fields. */
  datatype EntityKind =
    | Bold
    | Italic
    | Underline
    | Strike
    | Blockquote
    | Code
    | Pre(language: string)
    | InputMentionName(userId: int, accessHash: int)
    | MentionName(userId: int)
    | TextUrl(url: string)

  /** A message entity: a kind and the span of plain text it covers. */
  datatype Entity = Entity(kind: EntityKind, offset: nat, length: nat)

  // ----- tag names -----

  /** ASCII lower-casing of one character. */
  function LowerChar(c: char): char {
    if 'A' <= c <= 'Z' then (c as int + 32) as char else c
  }

  function ToLower(s: string): (r: string)
    ensures |r| == |s| && forall i :: 0 <= i < |s| ==> r[i] == LowerChar(s[i])
  {
    seq(|s|, i requires 0 <= i < |s| => LowerChar(s[i]))
  }

  /** Lower-casing leaves no ASCII capital, keeps every other character, and is idempotent. */
  lemma ToLowerNormalises(s: string)
    ensures |ToLower(s)| == |s|
    ensures forall i :: 0 <= i < |s| ==> !('A' <= ToLower(s)[i] <= 'Z')
    ensures forall i :: 0 <= i < |s| && !('A' <= s[i] <= 'Z') ==> ToLower(s)[i] == s[i]
    ensures ToLower(ToLower(s)) == ToLower(s)
  {
  }

  // ----- the mention link `tg://user?id=<digits>[&hash=<hex>]` -----

  predicate IsDigit(c: char) { '0' <= c <= '9' }

  predicate IsHexDigit(c: char) { IsDigit(c) || 'a' <= c <= 'f' || 'A' <= c <= 'F' }

  /** Length of the run of decimal digits at the start of `s`. */
  function DigitRun(s: string): (n: nat)
    ensures n <= |s| && (forall i :: 0 <= i < n ==> IsDigit(s[i])) && (n < |s| ==> !IsDigit(s[n]))
  {
    if |s| == 0 || !IsDigit(s[0]) then 0 else 1 + DigitRun(s[1..])
  }

  /** Length of the run of hexadecimal digits at the start of `s`. */
  function HexRun(s: string): (n: nat)
    ensures n <= |s| && (forall i :: 0 <= i < n ==> IsHexDigit(s[i])) && (n < |s| ==> !IsHexDigit(s[n]))
  {
    if |s| == 0 || !IsHexDigit(s[0]) then 0 else 1 + HexRun(s[1..])
  }

  /** The two groups the mention pattern captures: the user id and, when present, the access hash. */
  datatype Mention = Mention(userId: string, accessHash: Option<string>)

  const MentionPrefix: string := "tg://user?id="

  /** An optional `-` followed by at least one hexadecimal digit. */
  predicate SignedHex(g: string) {
    var sign := if |g| > 0 && g[0] == '-' then 1 else 0;
    |g| > sign && forall i :: sign <= i < |g| ==> IsHexDigit(g[i])
  }

  /** `g` is what `&hash=(-?[0-9a-fA-F]+)(?:&|$)` captures at the start of `after`. */
  predicate HashMatches(after: string, g: string) {
    && StartsWith(after, "&hash=") && SignedHex(g)
    && 6 + |g| <= |after| && after[6..6 + |g|] == g
    && (6 + |g| == |after| || after[6 + |g|] == '&')
  }

  /** The first alternative after the user id: `&hash=`, an optional `-`, hex digits, then `&` or the end. */
  function HashGroup(after: string): (r: Option<string>)
    ensures r.Some? ==> StartsWith(after, "&hash=") && |r.value| > 0
    ensures r.Some? ==> HashMatches(after, r.value)
  {
    if !StartsWith(after, "&hash=") then None
    else
      var h := after[6..];
      var sign := if |h| > 0 && h[0] == '-' then 1 else 0;
      var x := HexRun(h[sign..]);
      if x > 0 && (sign + x == |h| || h[sign + x] == '&') then Some(h[..sign + x]) else None
  }

  /** The hash group the pattern captures is the only one it could capture. */
  lemma HashGroupComplete(after: string, g: string)
    requires HashMatches(after, g)
    ensures HashGroup(after) == Some(g)
  {
    var h := after[6..];
    var sign := if |h| > 0 && h[0] == '-' then 1 else 0;
    assert sign == if g[0] == '-' then 1 else 0 by {
      assert h[0] == g[0];
    }
    var tail := h[sign..];
    var x := HexRun(tail);
    assert x == |g| - sign;
    assert h[..sign + x] == g;
  }

  /**
   * `m` is a match of the mention pattern on `url`: the prefix, a non-empty
   * run of digits, then either a hash group or, when no hash group can be
   * captured there, `&` or the end.
   */
  ghost predicate MentionMatches(url: string, m: Mention) {
    && StartsWith(url, MentionPrefix)
    && var rest := url[|MentionPrefix|..];
    && 0 < |m.userId| <= |rest| && rest[..|m.userId|] == m.userId
    && (forall i :: 0 <= i < |m.userId| ==> IsDigit(m.userId[i]))
    && var after := rest[|m.userId|..];
    && (m.accessHash.Some? ==> HashMatches(after, m.accessHash.value))
    && (m.accessHash.None? ==> (forall g :: !HashMatches(after, g)) && (|after| == 0 || after[0] == '&'))
  }

  /**
   * The match of `^tg:\/\/user\?id=(\d+)(?:&hash=(-?[0-9a-fA-F]+)(?:&|$)|&|$)`
   * on `url`. Both runs of digits are followed by a character outside their
   * class or by the end, so backtracking never finds another match.
   */
  function MatchMention(url: string): (r: Option<Mention>)
    ensures r.Some? ==> StartsWith(url, MentionPrefix)
    ensures r.Some? ==> |r.value.userId| > 0 && forall i :: 0 <= i < |r.value.userId| ==> IsDigit(r.value.userId[i])
    ensures r.Some? ==> (
      var rest := url[|MentionPrefix|..];
      |r.value.userId| <= |rest| && rest[..|r.value.userId|] == r.value.userId)
    ensures r.Some? ==> MentionMatches(url, r.value)
    ensures r.Some? ==> |r.value.userId| == DigitRun(url[|MentionPrefix|..])
  {
    if !StartsWith(url, MentionPrefix) then None
    else
      var rest := url[|MentionPrefix|..];
      var d := DigitRun(rest);
      if d == 0 then None
      else
        var after := rest[d..];
        var hash := HashGroup(after);
        assert hash.None? ==> forall g :: !HashMatches(after, g) by {
          forall g | HashMatches(after, g) ensures hash == Some(g) {
            HashGroupComplete(after, g);
          }
        }
        if hash.Some? then Some(Mention(rest[..d], hash))
        else if |after| == 0 || after[0] == '&' then Some(Mention(rest[..d], None))
        else None
  }

  /** Whatever the mention pattern matches, the match is the one found. */
  lemma MatchMentionComplete(url: string, m: Mention)
    requires MentionMatches(url, m)
    ensures MatchMention(url) == Some(m)
  {
    var rest := url[|MentionPrefix|..];
    var after := rest[|m.userId|..];
    assert DigitRun(rest) == |m.userId| by {
      assert |after| > 0 ==> after[0] == '&';
    }
    if m.accessHash.Some? {
      HashGroupComplete(after, m.accessHash.value);
    }
  }

  function DigitValue(c: char): nat {
    if IsDigit(c) then c as int - '0' as int
    else if 'a' <= c <= 'f' then c as int - 'a' as int + 10
    else if 'A' <= c <= 'F' then c as int - 'A' as int + 10
    else 0
  }

  /** The value of a string of digits in base `base`, most significant first. */
  function NumberValue(s: string, base: nat): nat
    decreases |s|
  {
    if |s| == 0 then 0 else NumberValue(s[..|s| - 1], base) * base + DigitValue(s[|s| - 1])
  }

  /** `parseInt` of a string of decimal digits. */
  function ParseDecimal(s: string): nat {
    NumberValue(s, 10)
  }

  /** `bigInt(s, 16)` of an optionally negative string of hex digits. */
  function ParseSignedHex(s: string): int {
    if |s| > 0 && s[0] == '-' then -(NumberValue(s[1..], 16) as int) else NumberValue(s, 16)
  }

  // ----- which entity an opening tag starts -----

  /** `<a href>`: a mention link, else a text link, with a protocol-relative `//` link given `http:`. */
  function LinkKind(href: string): (k: EntityKind)
    ensures MatchMention(href).None? ==> (
      && k.TextUrl?
      && (StartsWith(href, "//") ==> k.url == "http:" + href)
      && (!StartsWith(href, "//") ==> k.url == href))
    ensures MatchMention(href).Some? ==> (k.InputMentionName? <==> MatchMention(href).value.accessHash.Some?)
    ensures k.MentionName? || k.InputMentionName? ==> k.userId == ParseDecimal(MatchMention(href).value.userId)
    ensures MatchMention(href).Some? <==> k.MentionName? || k.InputMentionName?
    ensures k.InputMentionName? ==> k.accessHash == ParseSignedHex(MatchMention(href).value.accessHash.value)
  {
    match MatchMention(href)
    case Some(mention) =>
      if mention.accessHash.Some? then
        InputMentionName(ParseDecimal(mention.userId), ParseSignedHex(mention.accessHash.value))
      else MentionName(ParseDecimal(mention.userId))
    case None =>
      TextUrl(if StartsWith(href, "//") then "http:" + href else href)
  }

  /** The tags the parser knows. */
  predicate Recognised(name: string) {
    name in {"b", "strong", "i", "em", "u", "s", "del", "strike", "blockquote", "code", "pre", "a"}
  }

  /** The kind of entity the (lower-cased) opening tag `name` starts, if any. */
  function KindFor(name: string, attribs: map<string, string>): (r: Option<EntityKind>)
    ensures r.None? <==> !Recognised(name) || (name == "a" && ("href" !in attribs || attribs["href"] == ""))
    ensures r.Some? && name == "pre" ==> r.value == Pre(if "language" in attribs then attribs["language"] else "")
    ensures r.Some? && name == "a" ==> r.value == LinkKind(attribs["href"])
    ensures r.Some? ==> (
      && (r.value.Bold? <==> name in {"b", "strong"})
      && (r.value.Italic? <==> name in {"i", "em"})
      && (r.value.Underline? <==> name == "u")
      && (r.value.Blockquote? <==> name == "blockquote")
      && (r.value.Code? <==> name == "code")
      && (r.value.Strike? <==> name in {"s", "del", "strike"}))
  {
    if name == "b" || name == "strong" then Some(Bold)
    else if name == "i" || name == "em" then Some(Italic)
    else if name == "u" then Some(Underline)
    else if name == "s" || name == "del" || name == "strike" then Some(Strike)
    else if name == "blockquote" then Some(Blockquote)
    else if name == "code" then Some(Code)
    else if name == "pre" then Some(Pre(if "language" in attribs then attribs["language"] else ""))
    else if name == "a" then
      if "href" !in attribs || attribs["href"] == "" then None
      else Some(LinkKind(attribs["href"]))
    else None
  }

  // ----- the handler state -----

  /** `stacks[name]`, or an empty stack when there is none yet. */
  function StackOf(stacks: map<string, seq<Entity>>, name: string): seq<Entity> {
    if name in stacks then stacks[name] else []
  }

  function Lengthen(e: Entity, n: nat): Entity {
    e.(length := e.length + n)
  }

  /** Every entity of `s`, `n` longer. */
  function Lengthened(s: seq<Entity>, n: nat): (r: seq<Entity>)
    ensures |r| == |s| && forall i :: 0 <= i < |s| ==> r[i] == Lengthen(s[i], n)
  {
    seq(|s|, i requires 0 <= i < |s| => Lengthen(s[i], n))
  }

  /** Every entity of every stack, `n` longer. */
  function Grown(stacks: map<string, seq<Entity>>, n: nat): (r: map<string, seq<Entity>>)
    ensures r.Keys == stacks.Keys && forall name :: name in stacks ==> r[name] == Lengthened(stacks[name], n)
  {
    map name | name in stacks :: Lengthened(stacks[name], n)
  }

  /** The text of a text event, or nothing. */
  function EventText(e: Event): string {
    if e.Text? then e.data else ""
  }

  /** The texts of all text events, in order. */
  function TextOf(events: seq<Event>): string {
    if |events| == 0 then "" else TextOf(events[..|events| - 1]) + EventText(events[|events| - 1])
  }

  // ----- the callbacks as transitions of the shared state -----

  /** What the callbacks share: open entities per tag name, finished entities, and the plain text so far. */
  datatype HandlerState = HandlerState(stacks: map<string, seq<Entity>>, entities: seq<Entity>, plainText: string)

  const Start: HandlerState := HandlerState(map[], [], "")

  /** Open entities reach the end of the plain text; finished ones lie within it. */
  predicate Consistent(st: HandlerState) {
    && (forall name, k :: name in st.stacks && 0 <= k < |st.stacks[name]| ==>
          st.stacks[name][k].offset + st.stacks[name][k].length == |st.plainText|)
    && (forall k :: 0 <= k < |st.entities| ==> st.entities[k].offset + st.entities[k].length <= |st.plainText|)
  }

  /** `onopentag`: a recognised tag pushes an empty entity at the end of the plain text onto its lower-cased name's stack. */
  function AfterOpenTag(st: HandlerState, name: string, attribs: map<string, string>): HandlerState {
    var lower := ToLower(name);
    match KindFor(lower, attribs)
    case None => st
    case Some(kind) => st.(stacks := st.stacks[lower := StackOf(st.stacks, lower) + [Entity(kind, |st.plainText|, 0)]])
  }

  /** `ontext`: every open entity grows by the length of the text, which is appended to the plain text. */
  function AfterText(st: HandlerState, data: string): HandlerState {
    st.(stacks := Grown(st.stacks, |data|), plainText := st.plainText + data)
  }

  /** `onclosetag`: the last open entity of exactly that name, if any, moves to the finished entities. */
  function AfterCloseTag(st: HandlerState, name: string): HandlerState {
    if name in st.stacks && |st.stacks[name]| > 0 then
      var stack := st.stacks[name];
      st.(stacks := st.stacks[name := stack[..|stack| - 1]], entities := st.entities + [stack[|stack| - 1]])
    else st
  }

  function AfterEvent(st: HandlerState, e: Event): HandlerState {
    match e
    case OpenTag(name, attribs) => AfterOpenTag(st, name, attribs)
    case Text(data) => AfterText(st, data)
    case CloseTag(name) => AfterCloseTag(st, name)
  }

  /** The state after the tokenizer has reported `events`, in order, to fresh callbacks. */
  function Run(events: seq<Event>): HandlerState {
    if |events| == 0 then Start else AfterEvent(Run(events[..|events| - 1]), events[|events| - 1])
  }

  /** Every callback keeps the state consistent. */
  lemma AfterEventConsistent(st: HandlerState, e: Event)
    requires Consistent(st)
    ensures Consistent(AfterEvent(st, e))
  {
    match e
    case OpenTag(name, attribs) =>
    case Text(data) =>
    case CloseTag(name) =>
      if name in st.stacks && |st.stacks[name]| > 0 {
        var stack := st.stacks[name];
        assert stack[|stack| - 1].offset + stack[|stack| - 1].length == |st.plainText|;
      }
  }

  /** Whatever the events, the finished entities lie within the plain text. */
  lemma {:induction false} RunConsistent(events: seq<Event>)
    ensures Consistent(Run(events))
  {
    if |events| > 0 {
      RunConsistent(events[..|events| - 1]);
      AfterEventConsistent(Run(events[..|events| - 1]), events[|events| - 1]);
    }
  }

  /** The plain text is the text events joined, whatever the tags around them. */
  lemma {:induction false} RunPlainText(events: seq<Event>)
    ensures Run(events).plainText == TextOf(events)
  {
    if |events| > 0 {
      RunPlainText(events[..|events| - 1]);
    }
  }

  /** One more event: the callback for it applied to the state so far. */
  lemma RunSnoc(events: seq<Event>, e: Event)
    ensures Run(events + [e]) == AfterEvent(Run(events), e)
  {
    assert (events + [e])[..|events|] == events;
  }

  /** `<B>ab` from the start: one bold entity, open over the text so far. */
  lemma NestedTagsBold(st: HandlerState)
    requires st == Start
    ensures var next := AfterText(AfterOpenTag(st, "B", map[]), "ab");
      && next.stacks.Keys == {"b"} && next.stacks["b"] == [Entity(Bold, 0, 2)]
      && next.entities == [] && next.plainText == "ab"
  {
    assert ToLower("B") == "b" && KindFor("b", map[]) == Some(Bold);
    var pushed := AfterOpenTag(st, "B", map[]);
    assert pushed.stacks.Keys == {"b"} && pushed.stacks["b"] == [Entity(Bold, 0, 0)];
  }

  /** `<i>c` after `<B>ab`: an italic entity opens, and both grow over the new text. */
  lemma NestedTagsItalic(st: HandlerState)
    requires st.stacks.Keys == {"b"} && st.stacks["b"] == [Entity(Bold, 0, 2)]
    requires st.entities == [] && st.plainText == "ab"
    ensures var next := AfterText(AfterOpenTag(st, "i", map[]), "c");
      && "b" in next.stacks && next.stacks["b"] == [Entity(Bold, 0, 3)]
      && "i" in next.stacks && next.stacks["i"] == [Entity(Italic, 2, 1)]
      && next.entities == [] && next.plainText == "abc"
  {
    assert ToLower("i") == "i" && KindFor("i", map[]) == Some(Italic);
    var pushed := AfterOpenTag(st, "i", map[]);
    assert pushed.stacks["b"] == [Entity(Bold, 0, 2)] && pushed.stacks["i"] == [Entity(Italic, 2, 0)];
  }

  /** `<B>ab<i>c`: both entities are open, each reaching the end of the text. */
  lemma NestedTagsOpened(events: seq<Event>)
    requires events == [OpenTag("B", map[]), Text("ab"), OpenTag("i", map[]), Text("c")]
    ensures "b" in Run(events).stacks && Run(events).stacks["b"] == [Entity(Bold, 0, 3)]
    ensures "i" in Run(events).stacks && Run(events).stacks["i"] == [Entity(Italic, 2, 1)]
    ensures Run(events).entities == [] && Run(events).plainText == "abc"
  {
    RunSnoc([], events[0]);
    assert [] + [events[0]] == events[..1];
    RunSnoc(events[..1], events[1]);
    assert events[..1] + [events[1]] == events[..2];
    NestedTagsBold(Run([]));
    RunSnoc(events[..2], events[2]);
    assert events[..2] + [events[2]] == events[..3];
    RunSnoc(events[..3], events[3]);
    assert events[..3] + [events[3]] == events;
    NestedTagsItalic(Run(events[..2]));
  }

  /** `</i></b></b>` after `<B>ab<i>c`: the italic entity finishes first, and the third tag finds no open entity. */
  lemma NestedTagsClosed(st: HandlerState)
    requires "b" in st.stacks && st.stacks["b"] == [Entity(Bold, 0, 3)]
    requires "i" in st.stacks && st.stacks["i"] == [Entity(Italic, 2, 1)]
    requires st.entities == []
    ensures var done := AfterCloseTag(AfterCloseTag(AfterCloseTag(st, "i"), "b"), "b");
      done.entities == [Entity(Italic, 2, 1), Entity(Bold, 0, 3)] && done.plainText == st.plainText
  {
    var s5 := AfterCloseTag(st, "i");
    assert s5.stacks["b"] == [Entity(Bold, 0, 3)] && s5.entities == [Entity(Italic, 2, 1)];
    var s6 := AfterCloseTag(s5, "b");
    assert s6.stacks["b"] == [];
  }

  /**
   * `<B>ab<i>c</i></b></b>`: entities are listed in the order they close, an
   * upper-case opening tag is filed under its lower-case name, and the
   * unmatched last closing tag is ignored.
   */
  lemma NestedTagsExample(events: seq<Event>)
    requires events == [OpenTag("B", map[]), Text("ab"), OpenTag("i", map[]), Text("c"),
                        CloseTag("i"), CloseTag("b"), CloseTag("b")]
    ensures Run(events).entities == [Entity(Italic, 2, 1), Entity(Bold, 0, 3)]
    ensures Run(events).plainText == "abc"
  {
    NestedTagsOpened(events[..4]);
    NestedTagsClosed(Run(events[..4]));
    RunSnoc(events[..4], events[4]);
    assert events[..4] + [events[4]] == events[..5];
    RunSnoc(events[..5], events[5]);
    assert events[..5] + [events[5]] == events[..6];
    RunSnoc(events[..6], events[6]);
    assert events[..6] + [events[6]] == events;
  }

  /** The state the callbacks share, held by one handler object. */
  class EntityParser {
    var stacks: map<string, seq<Entity>>
    var entities: seq<Entity>
    var plainText: string

    function State(): HandlerState
      reads this
    {
      HandlerState(stacks, entities, plainText)
    }

    ghost predicate Valid()
      reads this
    {
      Consistent(State())
    }

    constructor ()
      ensures Valid() && stacks == map[] && entities == [] && plainText == ""
      ensures State() == Start
    {
      stacks := map[];
      entities := [];
      plainText := "";
    }

    /** `onopentag`: a recognised tag pushes a new, empty entity at the current end of the plain text. */
    method OnOpenTag(name: string, attribs: map<string, string>)
      requires Valid()
      modifies this
      ensures Valid()
      ensures State() == AfterOpenTag(old(State()), name, attribs)
      ensures entities == old(entities) && plainText == old(plainText)
      ensures var lower := ToLower(name);
        stacks == match KindFor(lower, attribs)
          case None => old(stacks)
          case Some(kind) => old(stacks)[lower := StackOf(old(stacks), lower) + [Entity(kind, |plainText|, 0)]]
    {
      var lower := ToLower(name);
      var kind := KindFor(lower, attribs);
      if kind.None? {
        return;
      }
      var entity := Entity(kind.value, |plainText|, 0);
      if lower !in stacks {
        stacks := stacks[lower := []];
      }
      stacks := stacks[lower := stacks[lower] + [entity]];
    }

    /** `ontext`: every open entity grows by the length of the text, which is appended to the plain text. */
    method OnText(data: string)
      requires Valid()
      modifies this
      ensures Valid()
      ensures State() == AfterText(old(State()), data)
      ensures stacks == Grown(old(stacks), |data|)
      ensures entities == old(entities) && plainText == old(plainText) + data
    {
      ghost var before := stacks;
      var pending := stacks.Keys;
      while pending != {}
        invariant pending <= before.Keys && stacks.Keys == before.Keys
        invariant entities == old(entities) && plainText == old(plainText)
        invariant forall name :: name in stacks ==>
          stacks[name] == if name in pending then before[name] else Lengthened(before[name], |data|)
        decreases |pending|
      {
        var name :| name in pending;
        var ents := stacks[name];
        var j := 0;
        while j < |ents|
          invariant j <= |ents| == |before[name]|
          invariant forall t :: 0 <= t < |ents| ==>
            ents[t] == if t < j then Lengthen(before[name][t], |data|) else before[name][t]
        {
          ents := ents[j := ents[j].(length := ents[j].length + |data|)];
          j := j + 1;
        }
        stacks := stacks[name := ents];
        pending := pending - {name};
      }
      assert stacks == Grown(before, |data|);
      plainText := plainText + data;
    }

    /** `onclosetag`: the most recent open entity of that tag name, if any, is finished. */
    method OnCloseTag(name: string)
      requires Valid()
      modifies this
      ensures Valid()
      ensures State() == AfterCloseTag(old(State()), name)
      ensures plainText == old(plainText)
      ensures name in old(stacks) && |old(stacks)[name]| > 0 ==>
        && stacks == old(stacks)[name := old(stacks)[name][..|old(stacks)[name]| - 1]]
        && entities == old(entities) + [old(stacks)[name][|old(stacks)[name]| - 1]]
      ensures !(name in old(stacks) && |old(stacks)[name]| > 0) ==>
        stacks == old(stacks) && entities == old(entities)
    {
      if name !in stacks || |stacks[name]| == 0 {
        return;
      }
      var stack := stacks[name];
      var entity := stack[|stack| - 1];
      stacks := stacks[name := stack[..|stack| - 1]];
      entities := entities + [entity];
    }
  }

  /**
   * `parse`, with the tokenizer's events as input: the plain text is the
   * concatenation of the text events, and every finished entity lies within
   * it. Entities still open at the end are dropped.
   */
  method Parse(events: seq<Event>) returns (plainText: string, entities: seq<Entity>)
    ensures plainText == TextOf(events)
    ensures forall k :: 0 <= k < |entities| ==> entities[k].offset + entities[k].length <= |plainText|
    ensures entities == Run(events).entities && plainText == Run(events).plainText
  {
    var handler := new EntityParser();
    var i := 0;
    while i < |events|
      invariant i <= |events|
      invariant handler.Valid()
      invariant handler.State() == Run(events[..i])
    {
      match events[i] {
        case OpenTag(name, attribs) => handler.OnOpenTag(name, attribs);
        case Text(data) => handler.OnText(data);
        case CloseTag(name) => handler.OnCloseTag(name);
      }
      assert events[..i + 1][..i] == events[..i];
      i := i + 1;
    }
    assert events[..|events|] == events;
    RunPlainText(events);
    return handler.plainText, handler.entities;
  }
}
