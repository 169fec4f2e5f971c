/**
 * The `html` tagged-template helper: it joins the literal parts of a
 * template with its substitutions, escaping plain strings and inserting
 * already formatted HTML as it is.
 */
module HtmlTemplate {
  import opened Results
  import opened HtmlEscape

  /** A string that carries the parse mode it is written in, if any. */
  datatype FormattedString = FormattedString(value: string, mode: Option<string>)

  /** One `${...}` of a template: a plain string or a formatted one. */
  datatype Substitution = Plain(text: string) | Formatted(formatted: FormattedString)

  datatype TemplateError = IncompatibleParseMode(mode: string)

  /** A formatted substitution may be inserted when its mode is unset, empty or `html`. */
  predicate Compatible(s: Substitution) {
    s.Plain? || s.formatted.mode.None? || s.formatted.mode.value == "" || s.formatted.mode.value == "html"
  }

  /** The text a substitution contributes. */
  function Render(s: Substitution): string {
    match s
    case Plain(text) => Escape(text, false)
    case Formatted(f) => f.value
  }

  function RenderAll(subs: seq<Substitution>): (pieces: seq<string>)
    ensures |pieces| == |subs| && forall j :: 0 <= j < |subs| ==> pieces[j] == Render(subs[j])
  {
    seq(|subs|, j requires 0 <= j < |subs| => Render(subs[j]))
  }

  /** The literal parts and the pieces, alternating, starting and ending with a literal part. */
  function Interleave(strings: seq<string>, pieces: seq<string>): string
    requires |strings| == |pieces| + 1
    decreases |pieces|
  {
    if |pieces| == 0 then strings[0]
    else strings[0] + pieces[0] + Interleave(strings[1..], pieces[1..])
  }

  /** The first `k` literal parts, each followed by its piece. */
  function Prefix(strings: seq<string>, pieces: seq<string>, k: nat): string
    requires k <= |pieces| && k <= |strings|
  {
    if k == 0 then "" else Prefix(strings, pieces, k - 1) + strings[k - 1] + pieces[k - 1]
  }

  lemma {:induction false} PrefixShift(strings: seq<string>, pieces: seq<string>, k: nat)
    requires k < |pieces| && k < |strings|
    ensures Prefix(strings, pieces, k + 1) == strings[0] + pieces[0] + Prefix(strings[1..], pieces[1..], k)
  {
    if k > 0 {
      PrefixShift(strings, pieces, k - 1);
    }
  }

  lemma {:induction false} InterleaveIsPrefix(strings: seq<string>, pieces: seq<string>)
    requires |strings| == |pieces| + 1
    ensures Interleave(strings, pieces) == Prefix(strings, pieces, |pieces|) + strings[|pieces|]
    decreases |pieces|
  {
    if |pieces| > 0 {
      InterleaveIsPrefix(strings[1..], pieces[1..]);
      PrefixShift(strings, pieces, |pieces| - 1);
    }
  }

  /** One substitution of the helper: a plain string escaped, a formatted one checked for its mode. */
  method Substitute(sub: Substitution) returns (r: Result<string, TemplateError>)
    ensures r.Ok? <==> Compatible(sub)
    ensures r.Ok? ==> r.value == Render(sub)
    ensures r.Err? ==> r.error == IncompatibleParseMode(sub.formatted.mode.value)
  {
    match sub {
      case Plain(text) =>
        return Ok(Escape(text, false));
      case Formatted(f) =>
        if f.mode.Some? && f.mode.value != "" && f.mode.value != "html" {
          return Err(IncompatibleParseMode(f.mode.value));
        }
        return Ok(f.value);
    }
  }

  /**
   * The helper: with `strings` the literal parts of the template (always one
   * more than the substitutions), it fails on the first formatted
   * substitution of another mode, and otherwise returns the interleaving in
   * mode `html`.
   */
  method Html(strings: seq<string>, subs: seq<Substitution>) returns (r: Result<FormattedString, TemplateError>)
    requires |strings| == |subs| + 1
    ensures r.Ok? <==> forall j :: 0 <= j < |subs| ==> Compatible(subs[j])
    ensures r.Ok? ==> r.value == FormattedString(Interleave(strings, RenderAll(subs)), Some("html"))
    ensures r.Err? ==> exists j :: (
      && 0 <= j < |subs| && !Compatible(subs[j])
      && (forall k :: 0 <= k < j ==> Compatible(subs[k]))
      && r.error == IncompatibleParseMode(subs[j].formatted.mode.value))
  {
    var str := "";
    var idx := 0;
    while idx < |subs|
      invariant idx <= |subs|
      invariant forall k :: 0 <= k < idx ==> Compatible(subs[k])
      invariant str == Prefix(strings, RenderAll(subs), idx)
    {
      var it := Substitute(subs[idx]);
      if it.Err? {
        assert !Compatible(subs[idx]);
        return Err(it.error);
      }
      str := str + strings[idx] + it.value;
      idx := idx + 1;
    }
    InterleaveIsPrefix(strings, RenderAll(subs));
    return Ok(FormattedString(str + strings[|strings| - 1], Some("html")));
  }
}
