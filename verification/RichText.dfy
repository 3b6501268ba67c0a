/**
  Rich paragraphs of a word-processor document: runs of styled text, their HTML rendering,
  and the cursor loop that renders a range of characters.  The HTML is read back by a small
  decoder, so that the loop is compared with plain slicing of styled characters.
 */
module RichText {
  import opened Wrappers
  import opened Chars

  datatype Style = Style(bold: bool, italic: bool, underline: bool)

  const PLAIN := Style(false, false, false)

  /** One run of a paragraph. */
  datatype Part = Part(text: string, style: Style)

  datatype Row = Row(text: string, parts: seq<Part>)

  datatype Styled = Styled(c: char, style: Style)

  // ------------------------------------------------------------------- rendering

  function ReplaceChar(s: string, c: char, sub: string): string {
    if s == "" then "" else (if s[0] == c then sub else [s[0]]) + ReplaceChar(s[1..], c, sub)
  }

  /** `escape(value).replace("\n", "<br>")`: six replacements, one after the other. */
  function EscapedText(value: string): string {
    var amp := ReplaceChar(value, '&', "&amp;");
    var lt := ReplaceChar(amp, '<', "&lt;");
    var gt := ReplaceChar(lt, '>', "&gt;");
    var quot := ReplaceChar(gt, '\"', "&quot;");
    var apos := ReplaceChar(quot, '\'', "&#x27;");
    ReplaceChar(apos, '\n', "<br>")
  }

  function Strong(p: Part): string {
    if p.style.bold then "<strong>" + EscapedText(p.text) + "</strong>" else EscapedText(p.text)
  }

  function Emphasis(p: Part): string {
    if p.style.italic then "<em>" + Strong(p) + "</em>" else Strong(p)
  }

  function Render(p: Part): string {
    if p.style.underline then "<u>" + Emphasis(p) + "</u>" else Emphasis(p)
  }

  function Html(parts: seq<Part>): string {
    if parts == [] then "" else Render(parts[0]) + Html(parts[1..])
  }

  function PlainText(parts: seq<Part>): string {
    if parts == [] then "" else parts[0].text + PlainText(parts[1..])
  }

  // -------------------------------------------------------------------- decoding

  datatype Token = Glyph(c: char) | Bold(on: bool) | Italic(on: bool) | Underline(on: bool)

  /** The first token of HTML: a tag, a named character, or a character itself. */
  function NextToken(h: string): (r: (Token, nat))
    requires h != ""
    ensures 0 < r.1 <= |h|
  {
    if h[0] == '<' then
      if "<br>" <= h then (Glyph('\n'), 4)
      else if "<strong>" <= h then (Bold(true), 8)
      else if "</strong>" <= h then (Bold(false), 9)
      else if "<em>" <= h then (Italic(true), 4)
      else if "</em>" <= h then (Italic(false), 5)
      else if "<u>" <= h then (Underline(true), 3)
      else if "</u>" <= h then (Underline(false), 4)
      else (Glyph('<'), 1)
    else if h[0] == '&' then
      if "&amp;" <= h then (Glyph('&'), 5)
      else if "&lt;" <= h then (Glyph('<'), 4)
      else if "&gt;" <= h then (Glyph('>'), 4)
      else if "&quot;" <= h then (Glyph('\"'), 6)
      else if "&#x27;" <= h then (Glyph('\''), 6)
      else (Glyph('&'), 1)
    else (Glyph(h[0]), 1)
  }

  /** The styled characters that HTML stands for, read in a given style. */
  function Decode(h: string, style: Style): seq<Styled>
    decreases |h|
  {
    if h == "" then []
    else
      var (token, n) := NextToken(h);
      match token
      case Glyph(c) => [Styled(c, style)] + Decode(h[n..], style)
      case Bold(on) => Decode(h[n..], style.(bold := on))
      case Italic(on) => Decode(h[n..], style.(italic := on))
      case Underline(on) => Decode(h[n..], style.(underline := on))
  }

  function Paint(s: string, style: Style): (r: seq<Styled>)
    ensures |r| == |s| && forall k :: 0 <= k < |s| ==> r[k] == Styled(s[k], style)
  {
    seq(|s|, k requires 0 <= k < |s| => Styled(s[k], style))
  }

  /** The styled characters of runs: what rendering and slicing are about. */
  function Styles(parts: seq<Part>): seq<Styled> {
    if parts == [] then [] else Paint(parts[0].text, parts[0].style) + Styles(parts[1..])
  }

  // ------------------------------------------------------ escaping is charwise

  function EscapedChar(c: char): string {
    if c == '&' then "&amp;" else if c == '<' then "&lt;" else if c == '>' then "&gt;"
    else if c == '\"' then "&quot;" else if c == '\'' then "&#x27;" else if c == '\n' then "<br>" else [c]
  }

  function Escape(s: string): string {
    if s == "" then "" else EscapedChar(s[0]) + Escape(s[1..])
  }

  lemma {:induction false} ReplaceConcat(a: string, b: string, c: char, sub: string)
    ensures ReplaceChar(a + b, c, sub) == ReplaceChar(a, c, sub) + ReplaceChar(b, c, sub)
    decreases |a|
  {
    if a == "" {
      assert a + b == b;
    } else {
      assert (a + b)[1..] == a[1..] + b;
      ReplaceConcat(a[1..], b, c, sub);
    }
  }

  lemma {:induction false} ReplaceAbsent(s: string, c: char, sub: string)
    requires c !in s
    ensures ReplaceChar(s, c, sub) == s
    decreases |s|
  {
    if s != "" {
      assert s[0] in s && forall x :: x in s[1..] ==> x in s;
      ReplaceAbsent(s[1..], c, sub);
    }
  }

  lemma ReplaceOne(c: char, d: char, sub: string)
    ensures ReplaceChar([d], c, sub) == if d == c then sub else [d]
  {
    assert [d][1..] == "";
  }

  lemma EscapedConcat(a: string, b: string)
    ensures EscapedText(a + b) == EscapedText(a) + EscapedText(b)
  {
    hide ReplaceChar;
    ReplaceConcat(a, b, '&', "&amp;");
    var a1, b1 := ReplaceChar(a, '&', "&amp;"), ReplaceChar(b, '&', "&amp;");
    ReplaceConcat(a1, b1, '<', "&lt;");
    var a2, b2 := ReplaceChar(a1, '<', "&lt;"), ReplaceChar(b1, '<', "&lt;");
    ReplaceConcat(a2, b2, '>', "&gt;");
    var a3, b3 := ReplaceChar(a2, '>', "&gt;"), ReplaceChar(b2, '>', "&gt;");
    ReplaceConcat(a3, b3, '\"', "&quot;");
    var a4, b4 := ReplaceChar(a3, '\"', "&quot;"), ReplaceChar(b3, '\"', "&quot;");
    ReplaceConcat(a4, b4, '\'', "&#x27;");
    var a5, b5 := ReplaceChar(a4, '\'', "&#x27;"), ReplaceChar(b4, '\'', "&#x27;");
    ReplaceConcat(a5, b5, '\n', "<br>");
  }

  /** One replacement on a text that holds its character only as the whole text. */
  lemma ReplaceStep(s: string, c: char, sub: string)
    requires c !in s || s == [c]
    ensures ReplaceChar(s, c, sub) == if s == [c] then sub else s
  {
    if s == [c] {
      ReplaceOne(c, c, sub);
    } else {
      ReplaceAbsent(s, c, sub);
    }
  }

  lemma EscapedOne(c: char)
    ensures EscapedText([c]) == EscapedChar(c)
  {
    hide ReplaceChar;
    ReplaceStep([c], '&', "&amp;");
    var s1 := if c == '&' then "&amp;" else [c];
    ReplaceStep(s1, '<', "&lt;");
    var s2 := if c == '<' then "&lt;" else s1;
    ReplaceStep(s2, '>', "&gt;");
    var s3 := if c == '>' then "&gt;" else s2;
    ReplaceStep(s3, '\"', "&quot;");
    var s4 := if c == '\"' then "&quot;" else s3;
    ReplaceStep(s4, '\'', "&#x27;");
    var s5 := if c == '\'' then "&#x27;" else s4;
    ReplaceStep(s5, '\n', "<br>");
  }

  lemma EscapedNone()
    ensures EscapedText("") == ""
  {
  }

  /** The six replacements in a row do what one pass over the characters does. */
  lemma {:induction false} EscapedIsCharwise(s: string)
    ensures EscapedText(s) == Escape(s)
    decreases |s|
  {
    hide EscapedText, EscapedChar;
    if s == "" {
      EscapedNone();
    } else {
      assert s == [s[0]] + s[1..];
      EscapedConcat([s[0]], s[1..]);
      EscapedOne(s[0]);
      EscapedIsCharwise(s[1..]);
    }
  }

  // --------------------------------------------------- reading back what was rendered

  function TokenText(t: Token): string {
    match t
    case Glyph(c) => EscapedChar(c)
    case Bold(on) => if on then "<strong>" else "</strong>"
    case Italic(on) => if on then "<em>" else "</em>"
    case Underline(on) => if on then "<u>" else "</u>"
  }

  lemma TokenReadsBack(t: Token, rest: string)
    ensures TokenText(t) + rest != "" && NextToken(TokenText(t) + rest) == (t, |TokenText(t)|)
    ensures (TokenText(t) + rest)[|TokenText(t)|..] == rest
  {
    var h := TokenText(t) + rest;
    assert TokenText(t) <= h;
    assert h[0] == TokenText(t)[0];
    if |TokenText(t)| > 1 {
      assert h[1] == TokenText(t)[1] && h[2] == TokenText(t)[2];
    }
  }

  lemma {:induction false} EscapedDecodes(s: string, rest: string, style: Style)
    ensures Decode(Escape(s) + rest, style) == Paint(s, style) + Decode(rest, style)
    decreases |s|
  {
    hide NextToken, EscapedChar;
    if s == "" {
      assert Escape(s) + rest == rest;
    } else {
      var after := Escape(s[1..]) + rest;
      assert Escape(s) + rest == TokenText(Glyph(s[0])) + after;
      TokenReadsBack(Glyph(s[0]), after);
      EscapedDecodes(s[1..], rest, style);
      assert [Styled(s[0], style)] + Paint(s[1..], style) == Paint(s, style);
    }
  }

  lemma TagDecodes(t: Token, rest: string, style: Style)
    ensures t.Bold? ==> Decode(TokenText(t) + rest, style) == Decode(rest, style.(bold := t.on))
    ensures t.Italic? ==> Decode(TokenText(t) + rest, style) == Decode(rest, style.(italic := t.on))
    ensures t.Underline? ==> Decode(TokenText(t) + rest, style) == Decode(rest, style.(underline := t.on))
  {
    hide NextToken, TokenText;
    TokenReadsBack(t, rest);
  }

  lemma StrongDecodes(p: Part, rest: string, style: Style)
    requires !style.bold
    ensures Decode(Strong(p) + rest, style) == Paint(p.text, style.(bold := p.style.bold)) + Decode(rest, style)
  {
    hide Decode, EscapedText, Escape;
    EscapedIsCharwise(p.text);
    var text := Escape(p.text);
    if p.style.bold {
      assert Strong(p) + rest == "<strong>" + (text + ("</strong>" + rest));
      TagDecodes(Bold(true), text + ("</strong>" + rest), style);
      EscapedDecodes(p.text, "</strong>" + rest, style.(bold := true));
      TagDecodes(Bold(false), rest, style.(bold := true));
    } else {
      EscapedDecodes(p.text, rest, style);
    }
  }

  lemma EmphasisDecodes(p: Part, rest: string, style: Style)
    requires !style.bold && !style.italic
    ensures Decode(Emphasis(p) + rest, style)
         == Paint(p.text, style.(bold := p.style.bold, italic := p.style.italic)) + Decode(rest, style)
  {
    hide Decode, Strong;
    if p.style.italic {
      assert Emphasis(p) + rest == "<em>" + (Strong(p) + ("</em>" + rest));
      TagDecodes(Italic(true), Strong(p) + ("</em>" + rest), style);
      StrongDecodes(p, "</em>" + rest, style.(italic := true));
      TagDecodes(Italic(false), rest, style.(italic := true));
    } else {
      StrongDecodes(p, rest, style);
    }
  }

  lemma RenderDecodes(p: Part, rest: string)
    ensures Decode(Render(p) + rest, PLAIN) == Paint(p.text, p.style) + Decode(rest, PLAIN)
  {
    hide Decode, Emphasis;
    if p.style.underline {
      assert Render(p) + rest == "<u>" + (Emphasis(p) + ("</u>" + rest));
      TagDecodes(Underline(true), Emphasis(p) + ("</u>" + rest), PLAIN);
      EmphasisDecodes(p, "</u>" + rest, PLAIN.(underline := true));
      TagDecodes(Underline(false), rest, PLAIN.(underline := true));
    } else {
      EmphasisDecodes(p, rest, PLAIN);
    }
  }

  /** Rendered runs stand for exactly the styled characters of the runs. */
  lemma {:induction false} HtmlDecodes(parts: seq<Part>)
    ensures Decode(Html(parts), PLAIN) == Styles(parts)
    decreases |parts|
  {
    hide Render, NextToken;
    if parts != [] {
      RenderDecodes(parts[0], Html(parts[1..]));
      HtmlDecodes(parts[1..]);
    }
  }
}
