/**
 * `HtmlMessageEntityParser.escape`: the chain of global replacements that
 * makes a string safe to place inside HTML, and what its result is known to
 * satisfy.
 */
module HtmlEscape {

  /** `s.replace(/c/g, rep)`: every occurrence of `c`, replaced by `rep`. */
  function ReplaceAll(s: string, c: char, rep: string): string {
    if |s| == 0 then ""
    else (if s[0] == c then rep else [s[0]]) + ReplaceAll(s[1..], c, rep)
  }

  /** The escaping as written: `&` first, then `<` and `>`, then `"` when `quote` is set. */
  function Escape(s: string, quote: bool): string {
    var noMarkup := ReplaceAll(ReplaceAll(ReplaceAll(s, '&', "&amp;"), '<', "&lt;"), '>', "&gt;");
    if quote then ReplaceAll(noMarkup, '"', "&quot;") else noMarkup
  }

  /** What one character becomes. */
  function EscapeChar(c: char, quote: bool): string {
    if c == '&' then "&amp;"
    else if c == '<' then "&lt;"
    else if c == '>' then "&gt;"
    else if c == '"' && quote then "&quot;"
    else [c]
  }

  /** Escaping character by character: an independent statement of what the replacement chain computes. */
  function EscapeEach(s: string, quote: bool): string {
    if |s| == 0 then "" else EscapeChar(s[0], quote) + EscapeEach(s[1..], quote)
  }

  lemma {:induction false} ReplaceAllConcat(a: string, b: string, c: char, rep: string)
    ensures ReplaceAll(a + b, c, rep) == ReplaceAll(a, c, rep) + ReplaceAll(b, c, rep)
    decreases |a|
  {
    if |a| == 0 {
      assert a + b == b;
    } else {
      assert (a + b)[1..] == a[1..] + b;
      ReplaceAllConcat(a[1..], b, c, rep);
    }
  }

  /** Escaping distributes over concatenation. */
  lemma EscapeConcat(a: string, b: string, quote: bool)
    ensures Escape(a + b, quote) == Escape(a, quote) + Escape(b, quote)
  {
    ReplaceAllConcat(a, b, '&', "&amp;");
    var a1, b1 := ReplaceAll(a, '&', "&amp;"), ReplaceAll(b, '&', "&amp;");
    ReplaceAllConcat(a1, b1, '<', "&lt;");
    var a2, b2 := ReplaceAll(a1, '<', "&lt;"), ReplaceAll(b1, '<', "&lt;");
    ReplaceAllConcat(a2, b2, '>', "&gt;");
    var a3, b3 := ReplaceAll(a2, '>', "&gt;"), ReplaceAll(b2, '>', "&gt;");
    ReplaceAllConcat(a3, b3, '"', "&quot;");
  }

  /** A string none of whose characters is `c` is left alone by `ReplaceAll`. */
  lemma {:induction false} ReplaceAllAbsent(s: string, c: char, rep: string)
    requires c !in s
    ensures ReplaceAll(s, c, rep) == s
    decreases |s|
  {
    if |s| > 0 {
      assert s[0] in s;
      assert forall x :: x in s[1..] ==> x in s;
      ReplaceAllAbsent(s[1..], c, rep);
    }
  }

  /** `ReplaceAll` on a one-character string. */
  lemma ReplaceAllOne(x: char, c: char, rep: string)
    ensures ReplaceAll([x], c, rep) == if x == c then rep else [x]
  {
    assert [x][1..] == "";
  }

  /** After the first replacement, a one-character string is either `&amp;` or the character itself. */
  lemma EscapeOneChar(c: char, quote: bool)
    ensures Escape([c], quote) == EscapeChar(c, quote)
  {
    var s1 := ReplaceAll([c], '&', "&amp;");
    ReplaceAllOne(c, '&', "&amp;");
    if c == '&' {
      EscapeAfterAmp(s1, quote);
    } else {
      assert s1 == [c];
      var s2 := ReplaceAll(s1, '<', "&lt;");
      ReplaceAllOne(c, '<', "&lt;");
      var s3 := ReplaceAll(s2, '>', "&gt;");
      if c == '<' {
        assert s2 == "&lt;";
        ReplaceAllAbsent(s2, '>', "&gt;");
        ReplaceAllAbsent(s3, '"', "&quot;");
      } else {
        assert s2 == [c];
        ReplaceAllOne(c, '>', "&gt;");
        if c == '>' {
          assert s3 == "&gt;";
          ReplaceAllAbsent(s3, '"', "&quot;");
        } else {
          assert s3 == [c];
          ReplaceAllOne(c, '"', "&quot;");
        }
      }
    }
  }

  lemma EscapeAfterAmp(s1: string, quote: bool)
    requires s1 == "&amp;"
    ensures (var s3 := ReplaceAll(ReplaceAll(s1, '<', "&lt;"), '>', "&gt;");
             if quote then ReplaceAll(s3, '"', "&quot;") else s3) == "&amp;"
  {
    ReplaceAllAbsent(s1, '<', "&lt;");
    ReplaceAllAbsent(s1, '>', "&gt;");
    ReplaceAllAbsent(s1, '"', "&quot;");
  }

  /** Escaping character by character distributes over concatenation. */
  lemma {:induction false} EscapeEachConcat(a: string, b: string, quote: bool)
    ensures EscapeEach(a + b, quote) == EscapeEach(a, quote) + EscapeEach(b, quote)
    decreases |a|
  {
    if |a| == 0 {
      assert a + b == b;
    } else {
      assert (a + b)[1..] == a[1..] + b;
      EscapeEachConcat(a[1..], b, quote);
    }
  }

  /** The replacement chain escapes each character independently of the others. */
  lemma {:induction false} EscapeIsPerCharacter(s: string, quote: bool)
    ensures Escape(s, quote) == EscapeEach(s, quote)
    decreases |s|
  {
    if |s| == 0 {
    } else {
      assert s == [s[0]] + s[1..];
      EscapeConcat([s[0]], s[1..], quote);
      EscapeOneChar(s[0], quote);
      EscapeIsPerCharacter(s[1..], quote);
    }
  }

  // ----- what an escaped string satisfies -----

  predicate StartsWith(s: string, prefix: string) {
    |prefix| <= |s| && s[..|prefix|] == prefix
  }

  /** The `&` at `i` begins one of the entities the escaping writes. */
  predicate EntityAt(r: string, i: nat, quote: bool)
    requires i <= |r|
  {
    StartsWith(r[i..], "&amp;") || StartsWith(r[i..], "&lt;") || StartsWith(r[i..], "&gt;")
    || (quote && StartsWith(r[i..], "&quot;"))
  }

  /** Every `&` of `r` begins an entity. */
  predicate AmpersandsAreEntities(r: string, quote: bool) {
    forall i :: 0 <= i < |r| && r[i] == '&' ==> EntityAt(r, i, quote)
  }

  /** The characters escaping removes. */
  predicate Special(c: char, quote: bool) {
    c == '&' || c == '<' || c == '>' || (quote && c == '"')
  }

  /** The output holds no `<` or `>`, and no `"` when `quote` is set. */
  lemma {:induction false} EscapeRemovesMarkup(s: string, quote: bool)
    ensures '<' !in Escape(s, quote) && '>' !in Escape(s, quote)
    ensures quote ==> '"' !in Escape(s, quote)
    decreases |s|
  {
    EscapeIsPerCharacter(s, quote);
    if |s| > 0 {
      EscapeRemovesMarkup(s[1..], quote);
      EscapeIsPerCharacter(s[1..], quote);
      var h := EscapeChar(s[0], quote);
      assert '<' !in h && '>' !in h && (quote ==> '"' !in h);
    }
  }

  lemma EntitiesConcat(a: string, b: string, quote: bool)
    requires AmpersandsAreEntities(a, quote) && AmpersandsAreEntities(b, quote)
    ensures AmpersandsAreEntities(a + b, quote)
  {
    var r := a + b;
    forall i | 0 <= i < |r| && r[i] == '&'
      ensures EntityAt(r, i, quote)
    {
      if i < |a| {
        assert a[i] == '&';
        assert EntityAt(a, i, quote);
        PrefixExtends(a, b, i, "&amp;");
        PrefixExtends(a, b, i, "&lt;");
        PrefixExtends(a, b, i, "&gt;");
        PrefixExtends(a, b, i, "&quot;");
      } else {
        assert b[i - |a|] == '&';
        assert r[i..] == b[i - |a|..];
      }
    }
  }

  /** A prefix found at `i` in `a` is still there once `b` is appended. */
  lemma PrefixExtends(a: string, b: string, i: nat, p: string)
    requires i <= |a|
    ensures StartsWith(a[i..], p) ==> StartsWith((a + b)[i..], p)
  {
    if StartsWith(a[i..], p) {
      assert (a + b)[i..][..|p|] == a[i..][..|p|];
    }
  }

  /** Every `&` of the output begins `&amp;`, `&lt;`, `&gt;`, or `&quot;` when `quote` is set. */
  lemma {:induction false} EscapeAmpersands(s: string, quote: bool)
    ensures AmpersandsAreEntities(Escape(s, quote), quote)
    decreases |s|
  {
    EscapeIsPerCharacter(s, quote);
    if |s| > 0 {
      EscapeAmpersands(s[1..], quote);
      EscapeIsPerCharacter(s[1..], quote);
      var h := EscapeChar(s[0], quote);
      assert AmpersandsAreEntities(h, quote) by {
        if h[0] == '&' {
          assert h[0..] == h;
        }
      }
      EntitiesConcat(h, EscapeEach(s[1..], quote), quote);
    }
  }

  /** A string without the special characters comes back unchanged. */
  lemma EscapeIdentity(s: string, quote: bool)
    requires forall i :: 0 <= i < |s| ==> !Special(s[i], quote)
    ensures Escape(s, quote) == s
  {
    ReplaceAllAbsent(s, '&', "&amp;");
    ReplaceAllAbsent(s, '<', "&lt;");
    ReplaceAllAbsent(s, '>', "&gt;");
    if quote {
      ReplaceAllAbsent(s, '"', "&quot;");
    }
  }
}
