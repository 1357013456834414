// scripts/helpers.js: the link-list grammar, the two HTML escapers, the
// `html` tagged-template function, `clone` and the empty branch of
// `formatDate`. All pure.

module Helpers {
  import opened Wrappers
  import opened JsString

  /** A link of a mission; `caption` is the `label` property of the script. */
  datatype Link = Link(caption: string, href: string)

  /** `clone(value)`: a deep copy of `value || []`. Values are immutable here,
      so the copy is the value itself; an absent value becomes the empty list. */
  function Clone<T>(value: Option<seq<T>>): (r: seq<T>)
    ensures value.None? ==> r == []
    ensures value.Some? ==> r == value.value
  {
    match value
    case None => []
    case Some(v) => v
  }

  // ---------------------------------------------------------------------------
  // Link grammar: `Label|URL; Label|URL`

  /** One `;`-piece, already trimmed and non-empty: the text before the first
      `|` is the label (`Open` when empty), the text between the first and the
      second `|` the href (`#` when empty or missing); both are trimmed after
      the default is applied. */
  function ParsePair(pair: string): Link {
    var parts := Split(pair, '|');
    Link(Trim(Or(parts[0], "Open")), Trim(Or(if |parts| > 1 then parts[1] else "", "#")))
  }

  /** Trim every piece, drop the empty ones, parse the rest. */
  function ParsePieces(pieces: seq<string>): (r: seq<Link>)
    ensures |r| <= |pieces|
    ensures Labelled(r)
  {
    if pieces == [] then []
    else
      var p := Trim(pieces[0]);
      var more := ParsePieces(pieces[1..]);
      if p == [] then more
      else
        LabelNeverEmpty(p);
        LabelledCons(ParsePair(p), more);
        [ParsePair(p)] + more
  }

  /** Every link has a non-empty label. */
  predicate Labelled(ls: seq<Link>) {
    forall k :: 0 <= k < |ls| ==> ls[k].caption != []
  }

  lemma LabelledCons(l: Link, ls: seq<Link>)
    requires l.caption != [] && Labelled(ls)
    ensures Labelled([l] + ls)
  {
  }

  /** `parseLinks(input)`. At most one link per `;`-piece; every label is non-empty. */
  function ParseLinks(input: string): (r: seq<Link>)
    ensures input == [] ==> r == []
    ensures |r| <= Count(input, ';') + 1
    ensures Labelled(r)
  {
    if input == [] then [] else ParsePieces(Split(input, ';'))
  }

  lemma LabelNeverEmpty(pair: string)
    requires pair != [] && Trimmed(pair)
    ensures ParsePair(pair).caption != []
  {
    var parts := Split(pair, '|');
    if parts[0] == [] {
      assert Trimmed("Open");
      TrimmedIsFixed("Open");
    } else {
      SplitFirst(pair, '|');
      assert parts[0][0] == pair[0];
      TrimKeepsNonSpace(parts[0], 0);
    }
  }

  /** The first piece of a split is the text before the first separator. */
  lemma SplitFirst(s: string, c: char)
    ensures Split(s, c)[0] == s[..IndexOf(s, c)]
  {
    if IndexOf(s, c) == |s| {
      assert s[..|s|] == s;
    }
  }

  /** Label and href of a pair with at least one `|`: the label is the trimmed
      text before the first bar, the href the trimmed text up to the second bar;
      whatever follows the second bar is ignored. */
  lemma {:induction false} ParsePairWithBar(a: string, b: string, rest: string)
    requires '|' !in a && '|' !in b
    requires rest == [] || rest[0] == '|'
    ensures ParsePair(a + "|" + b + rest) == Link(Trim(Or(a, "Open")), Trim(Or(b, "#")))
  {
    SplitTwo(a, b, rest, '|');
  }

  /** The first two pieces of `a + [c] + b + rest` split on `c`, where `rest`
      is empty or starts with another `c`. */
  lemma SplitTwo(a: string, b: string, rest: string, c: char)
    requires c !in a && c !in b
    requires rest == [] || rest[0] == c
    ensures var parts := Split(a + [c] + b + rest, c); |parts| > 1 && parts[0] == a && parts[1] == b
  {
    Assoc(a + [c], b, rest);
    SplitAt(a, b + rest, c);
    SplitHead(b, rest, c);
  }

  /** The first piece of `b + rest` is `b` when `rest` is empty or starts with `c`. */
  lemma SplitHead(b: string, rest: string, c: char)
    requires c !in b
    requires rest == [] || rest[0] == c
    ensures Split(b + rest, c)[0] == b
  {
    if rest == [] {
      assert b + rest == b;
      SplitWithout(b, c);
    } else {
      assert b + rest == b + [c] + rest[1..];
      SplitAt(b, rest[1..], c);
    }
  }

  /** A pair without a bar is all label; the href defaults to `#`. */
  lemma ParsePairWithoutBar(p: string)
    requires '|' !in p && p != []
    ensures ParsePair(p) == Link(Trim(p), "#")
  {
    SplitWithout(p, '|');
    assert Trimmed("#");
    TrimmedIsFixed("#");
  }

  /** `serializeLinks(links)`: `label|href` pairs joined by `; `, with `Link`
      and `#` standing in for empty parts; anything that is not a list gives
      the empty string. */
  function SerializeLinks(links: Option<seq<Link>>): (r: string)
    ensures links.None? || links.value == [] ==> r == ""
    ensures links.Some? && |links.value| == 1 ==> r == LinkText(links.value[0])
  {
    match links
    case None => ""
    case Some(ls) => Join(LinkTexts(ls), "; ")
  }

  function LinkText(l: Link): string {
    Or(l.caption, "Link") + "|" + Or(l.href, "#")
  }

  function LinkTexts(ls: seq<Link>): (r: seq<string>)
    ensures |r| == |ls|
    ensures forall k :: 0 <= k < |ls| ==> r[k] == LinkText(ls[k])
  {
    if ls == [] then [] else [LinkText(ls[0])] + LinkTexts(ls[1..])
  }

  /** A link with an empty label and href is written as `Link|#` and so
      comes back from the textarea with those defaults filled in. */
  lemma EmptyPartsGetDefaults(l: Link)
    requires l.caption == [] && l.href == []
    ensures SerializeLinks(Some([l])) == "Link|#"
    ensures ParseLinks(SerializeLinks(Some([l]))) == [Link("Link", "#")]
  {
    var d := Link("Link", "#");
    assert LinkText(l) == LinkText(d) == "Link|#";
    assert PlainLink(d) by {
      assert Trimmed("Link") && Trimmed("#");
    }
    LinksRoundTrip([d]);
  }

  /** A link that survives the textarea round trip unchanged. */
  predicate PlainLink(l: Link) {
    l.caption != [] && l.href != [] && Trimmed(l.caption) && Trimmed(l.href)
    && ';' !in l.caption && '|' !in l.caption && ';' !in l.href && '|' !in l.href
  }

  /** The admin textarea round trip: parsing the serialized list gives the list
      back when every label and href is non-empty, trimmed and free of `;`
      and `|`. */
  lemma LinksRoundTrip(ls: seq<Link>)
    requires forall k :: 0 <= k < |ls| ==> PlainLink(ls[k])
    ensures ParseLinks(SerializeLinks(Some(ls))) == ls
  {
    if ls != [] {
      ParseSerialized(ls, "");
      assert "" + Join(LinkTexts(ls), "; ") == Join(LinkTexts(ls), "; ");
      assert Join(LinkTexts(ls), "; ") != [] by {
        JoinStartsWith(LinkTexts(ls), "; ");
      }
    }
  }

  lemma JoinStartsWith(pieces: seq<string>, sep: string)
    requires |pieces| > 0
    ensures |Join(pieces, sep)| >= |pieces[0]|
  {
  }

  lemma {:induction false} ParseSerialized(ls: seq<Link>, w: string)
    requires ls != [] && forall k :: 0 <= k < |ls| ==> PlainLink(ls[k])
    requires w == "" || w == " "
    ensures ParsePieces(Split(w + Join(LinkTexts(ls), "; "), ';')) == ls
  {
    var ts := LinkTexts(ls);
    var t := ts[0];
    var pieces := Split(w + Join(ts, "; "), ';');
    var tail := if |ls| == 1 then [] else Split(" " + Join(ts[1..], "; "), ';');
    assert pieces == [w + t] + tail by {
      SerializedFirst(ls, w);
    }
    assert ParsePieces(tail) == ls[1..] by {
      if |ls| > 1 {
        assert ts[1..] == LinkTexts(ls[1..]);
        ParseSerialized(ls[1..], " ");
      }
    }
    assert ParsePieces(pieces) == [ls[0]] + ls[1..] by {
      PlainPiece(ls[0], w);
      ParsePiecesCons(w + t, tail);
    }
    HeadTail(ls);
  }

  /** The first `;`-piece of a serialized list is the first link's text. */
  lemma SerializedFirst(ls: seq<Link>, w: string)
    requires ls != [] && forall k :: 0 <= k < |ls| ==> PlainLink(ls[k])
    requires w == "" || w == " "
    ensures var ts := LinkTexts(ls);
      Split(w + Join(ts, "; "), ';')
      == [w + ts[0]] + (if |ls| == 1 then [] else Split(" " + Join(ts[1..], "; "), ';'))
  {
    var ts := LinkTexts(ls);
    PlainTextNoSemicolon(ls[0], w);
    if |ls| == 1 {
      assert Join(ts, "; ") == ts[0];
      SplitWithout(w + ts[0], ';');
    } else {
      JoinSemicolon(ts, w);
      SplitAt(w + ts[0], " " + Join(ts[1..], "; "), ';');
    }
  }

  lemma JoinSemicolon(ts: seq<string>, w: string)
    requires |ts| > 1
    ensures w + Join(ts, "; ") == (w + ts[0]) + [';'] + (" " + Join(ts[1..], "; "))
  {
    assert Join(ts, "; ") == ts[0] + "; " + Join(ts[1..], "; ");
    assert "; " == [';'] + " ";
    Regroup(w, ts[0], [';'], " ", Join(ts[1..], "; "));
  }

  lemma Regroup<T>(w: seq<T>, x: seq<T>, p: seq<T>, q: seq<T>, j: seq<T>)
    ensures w + (x + (p + q) + j) == (w + x) + p + (q + j)
  {
  }

  /** One serialized link, possibly after the blank of the `; ` separator. */
  lemma PlainPiece(l: Link, w: string)
    requires PlainLink(l)
    requires w == "" || w == " "
    ensures ';' !in w + LinkText(l)
    ensures Trim(w + LinkText(l)) == LinkText(l)
    ensures ParsePair(LinkText(l)) == l
  {
    PlainTextNoSemicolon(l, w);
    PlainTextTrims(l, w);
    PlainPairParses(l);
  }

  lemma PlainTextNoSemicolon(l: Link, w: string)
    requires PlainLink(l)
    requires w == "" || w == " "
    ensures ';' !in w + LinkText(l)
  {
    var t := LinkText(l);
    assert t == l.caption + "|" + l.href;
    NotInAppend(l.caption, "|", ';');
    NotInAppend(l.caption + "|", l.href, ';');
    NotInAppend(w, t, ';');
  }

  lemma PlainTextTrims(l: Link, w: string)
    requires PlainLink(l)
    requires w == "" || w == " "
    ensures Trim(w + LinkText(l)) == LinkText(l)
  {
    var t := LinkText(l);
    assert t == l.caption + "|" + l.href;
    assert t[0] == l.caption[0] && t[|t| - 1] == l.href[|l.href| - 1];
    assert AllSpace(w);
    TrimDropsPadding(w, t);
  }

  lemma PlainPairParses(l: Link)
    requires PlainLink(l)
    ensures ParsePair(LinkText(l)) == l
  {
    ParsePairWithBar(l.caption, l.href, "");
    assert l.caption + "|" + l.href + "" == LinkText(l);
    TrimmedIsFixed(l.caption);
    TrimmedIsFixed(l.href);
  }

  lemma ParsePiecesCons(p: string, more: seq<string>)
    requires Trim(p) != []
    ensures ParsePieces([p] + more) == [ParsePair(Trim(p))] + ParsePieces(more)
  {
    assert ([p] + more)[1..] == more;
  }

  /** A piece whose href part holds only white space yields an empty href,
      not the `#` default: `Sign up| |x` parses to one link with href `""`. */
  lemma BlankHrefIsEmpty(a: string, b: string, rest: string)
    requires a != [] && Trimmed(a) && '|' !in a && ';' !in a
    requires AllSpace(b) && b != [] && ';' !in b
    requires |rest| > 1 && rest[0] == '|' && !IsSpace(rest[|rest| - 1]) && ';' !in rest
    ensures ParseLinks(a + "|" + b + rest) == [Link(a, "")]
  {
    var input := a + "|" + b + rest;
    NotInSpaces(b, '|');
    assert ParseLinks(input) == ParsePieces([input]) by {
      NotInSpaces(b, ';');
      assert ';' !in input;
      SplitWithout(input, ';');
    }
    assert Trim(input) == input by {
      assert input[0] == a[0] && input[|input| - 1] == rest[|rest| - 1];
      TrimmedIsFixed(input);
    }
    assert ParsePieces([input]) == [ParsePair(input)] by {
      ParsePiecesCons(input, []);
    }
    BlankHrefPair(a, b, rest);
  }

  lemma BlankHrefPair(a: string, b: string, rest: string)
    requires a != [] && Trimmed(a) && '|' !in a
    requires b != [] && AllSpace(b) && '|' !in b
    requires rest != [] && rest[0] == '|'
    ensures ParsePair(a + "|" + b + rest) == Link(a, "")
  {
    ParsePairWithBar(a, b, rest);
    TrimmedIsFixed(a);
    TrimOfSpaces(b);
  }

  // ---------------------------------------------------------------------------
  // Escaping

  /** `escapeAttr(value)`: `&`, then `"`, then `<` replaced by entities; null
      and undefined give the empty string. */
  function EscapeAttr(value: Option<string>): (r: string)
    ensures '"' !in r && '<' !in r
    ensures value.None? ==> r == []
    ensures value.Some? && '&' !in value.value && '"' !in value.value && '<' !in value.value
            ==> r == value.value
  {
    var s := match value case None => "" case Some(v) => v;
    var s1 := ReplaceAll(s, '&', "&amp;");
    var s2 := ReplaceAll(s1, '"', "&quot;");
    var r := ReplaceAll(s2, '<', "&lt;");
    if '"' in r then ReplaceAllOrigin(s2, '<', "&lt;", '"'); ReplaceAllOrigin(s1, '"', "&quot;", '"'); r
    else if '<' in r then ReplaceAllOrigin(s2, '<', "&lt;", '<'); r
    else r
  }

  /** `escapeHTML(value)`: `&`, then `<`, then `>` replaced by entities; null
      and undefined give the empty string. */
  function EscapeHTML(value: Option<string>): (r: string)
    ensures '<' !in r && '>' !in r
    ensures value.None? ==> r == []
    ensures value.Some? && '&' !in value.value && '<' !in value.value && '>' !in value.value
            ==> r == value.value
  {
    var s := match value case None => "" case Some(v) => v;
    var s1 := ReplaceAll(s, '&', "&amp;");
    var s2 := ReplaceAll(s1, '<', "&lt;");
    var r := ReplaceAll(s2, '>', "&gt;");
    if '<' in r then ReplaceAllOrigin(s2, '>', "&gt;", '<'); ReplaceAllOrigin(s1, '<', "&lt;", '<'); r
    else if '>' in r then ReplaceAllOrigin(s2, '>', "&gt;", '>'); r
    else r
  }

  /** Reference definition of attribute escaping, one character at a time. */
  function AttrEntity(c: char): string {
    if c == '&' then "&amp;" else if c == '"' then "&quot;" else if c == '<' then "&lt;" else [c]
  }

  function EscapeAttrEach(s: string): string {
    if s == [] then [] else AttrEntity(s[0]) + EscapeAttrEach(s[1..])
  }

  /** Attribute escaping also writes each character's entity once: the `&`
      of an entity written by a later step is never escaped again. */
  lemma {:induction false} EscapeAttrPerChar(s: string)
    ensures EscapeAttr(Some(s)) == EscapeAttrEach(s)
  {
    if s != [] {
      HeadTail(s);
      EscapeAttrAppend([s[0]], s[1..]);
      EscapeAttrOneChar(s[0]);
      EscapeAttrPerChar(s[1..]);
    }
  }

  /** The attribute replacement chain works piecewise. */
  lemma EscapeAttrAppend(a: string, b: string)
    ensures EscapeAttr(Some(a + b)) == EscapeAttr(Some(a)) + EscapeAttr(Some(b))
  {
    ReplaceAllAppend(a, b, '&', "&amp;");
    var a1, b1 := ReplaceAll(a, '&', "&amp;"), ReplaceAll(b, '&', "&amp;");
    ReplaceAllAppend(a1, b1, '"', "&quot;");
    var a2, b2 := ReplaceAll(a1, '"', "&quot;"), ReplaceAll(b1, '"', "&quot;");
    ReplaceAllAppend(a2, b2, '<', "&lt;");
  }

  lemma EscapeAttrOneChar(c: char)
    ensures EscapeAttr(Some([c])) == AttrEntity(c)
  {
    ReplaceAllSingle(c, '&', "&amp;");
    if c == '&' {
      assert '"' !in "&amp;" && '<' !in "&amp;";
    } else {
      ReplaceAllSingle(c, '"', "&quot;");
      if c == '"' {
        assert '<' !in "&quot;";
      } else {
        ReplaceAllSingle(c, '<', "&lt;");
      }
    }
  }

  /** Reference definition of HTML escaping, one character at a time. */
  function HtmlEntity(c: char): string {
    if c == '&' then "&amp;" else if c == '<' then "&lt;" else if c == '>' then "&gt;" else [c]
  }

  function EscapeEach(s: string): string {
    if s == [] then [] else HtmlEntity(s[0]) + EscapeEach(s[1..])
  }

  /** The three-step replacement chain escapes each character once: the `&`
      of an entity written by a later step is never escaped again. */
  lemma {:induction false} EscapeHTMLPerChar(s: string)
    ensures EscapeHTML(Some(s)) == EscapeEach(s)
  {
    if s != [] {
      HeadTail(s);
      EscapeHTMLAppend([s[0]], s[1..]);
      EscapeHTMLOneChar(s[0]);
      EscapeHTMLPerChar(s[1..]);
    }
  }

  /** The replacement chain works piecewise. */
  lemma EscapeHTMLAppend(a: string, b: string)
    ensures EscapeHTML(Some(a + b)) == EscapeHTML(Some(a)) + EscapeHTML(Some(b))
  {
    ReplaceAllAppend(a, b, '&', "&amp;");
    var a1, b1 := ReplaceAll(a, '&', "&amp;"), ReplaceAll(b, '&', "&amp;");
    ReplaceAllAppend(a1, b1, '<', "&lt;");
    var a2, b2 := ReplaceAll(a1, '<', "&lt;"), ReplaceAll(b1, '<', "&lt;");
    ReplaceAllAppend(a2, b2, '>', "&gt;");
  }

  lemma EscapeHTMLOneChar(c: char)
    ensures EscapeHTML(Some([c])) == HtmlEntity(c)
  {
    ReplaceAllSingle(c, '&', "&amp;");
    if c == '&' {
      assert '<' !in "&amp;" && '>' !in "&amp;";
    } else {
      ReplaceAllSingle(c, '<', "&lt;");
      if c == '<' {
        assert '>' !in "&lt;";
      } else {
        ReplaceAllSingle(c, '>', "&gt;");
      }
    }
  }

  // ---------------------------------------------------------------------------
  // The `html` tagged template

  /** A value interpolated into a template. */
  datatype Value = Absent | Text(text: string) | List(items: seq<string>)

  function Render(v: Value): string {
    match v
    case Absent => ""
    case Text(t) => t
    case List(items) => Concat(items)
  }

  function ValueAt(values: seq<Value>, i: nat): Value {
    if i < |values| then values[i] else Absent
  }

  /** The `reduce` in `html`: from chunk `i` on, append each chunk and the
      value that follows it (lists joined without a separator, null and
      undefined skipped). */
  function HtmlFrom(acc: string, strings: seq<string>, values: seq<Value>, i: nat): string
    requires i <= |strings|
    decreases |strings| - i
  {
    if i == |strings| then acc
    else HtmlFrom(acc + strings[i] + Render(ValueAt(values, i)), strings, values, i + 1)
  }

  /** `html(strings, ...values)`. */
  function Html(strings: seq<string>, values: seq<Value>): string {
    HtmlFrom("", strings, values, 0)
  }

  /** Reference definition: the chunks interleaved with the rendered values. */
  function Interleave(strings: seq<string>, values: seq<Value>, i: nat): string
    requires i <= |strings|
    decreases |strings| - i
  {
    if i == |strings| then "" else strings[i] + Render(ValueAt(values, i)) + Interleave(strings, values, i + 1)
  }

  lemma {:induction false} HtmlFromInterleaves(acc: string, strings: seq<string>, values: seq<Value>, i: nat)
    requires i <= |strings|
    ensures HtmlFrom(acc, strings, values, i) == acc + Interleave(strings, values, i)
    decreases |strings| - i
  {
    if i < |strings| {
      HtmlFromInterleaves(acc + strings[i] + Render(ValueAt(values, i)), strings, values, i + 1);
    }
  }

  /** `html` is the concatenation of each chunk followed by its rendered value. */
  lemma HtmlIsInterleaving(strings: seq<string>, values: seq<Value>)
    ensures Html(strings, values) == Interleave(strings, values, 0)
  {
    HtmlFromInterleaves("", strings, values, 0);
  }

  /** With nothing to interpolate, `html` concatenates the chunks. */
  lemma {:induction false} HtmlWithoutValues(strings: seq<string>)
    ensures Html(strings, []) == Concat(strings)
  {
    HtmlIsInterleaving(strings, []);
    InterleaveWithoutValues(strings, 0);
    assert strings[0..] == strings;
  }

  lemma {:induction false} InterleaveWithoutValues(strings: seq<string>, i: nat)
    requires i <= |strings|
    ensures Interleave(strings, [], i) == Concat(strings[i..])
    decreases |strings| - i
  {
    if i < |strings| {
      InterleaveWithoutValues(strings, i + 1);
      assert strings[i..][1..] == strings[i + 1..];
    }
  }

  // ---------------------------------------------------------------------------

  /** `formatDate(timestamp)`: a falsy timestamp (absent or zero) reads
      `Never`; any other is handed to the locale formatter. */
  function FormatDate(timestamp: Option<int>, localeString: int -> string): (r: string)
    ensures timestamp.None? || timestamp.value == 0 ==> r == "Never"
    ensures timestamp.Some? && timestamp.value != 0 ==> r == localeString(timestamp.value)
  {
    match timestamp
    case None => "Never"
    case Some(t) => if t == 0 then "Never" else localeString(t)
  }
}
