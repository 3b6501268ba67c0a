/**
  Paragraphs of a document as rich rows, and `slice_html`: the loop that walks over the runs
  with a cursor and renders the part of each run inside a range of characters.
 */
module RichSlices {
  import opened Wrappers
  import opened Chars
  import opened RichText

  // ------------------------------------------------------------- text replacements

  /** The replacement table for characters the target database does not like. */
  function SafeChar(c: char): string {
    var n := c as int;
    if n == 0x03C0 then "pi"
    else if n == 0x2212 || 0x2010 <= n <= 0x2014 || n == 0x2022 || n == 0xF0B7 then "-"
    else if n == 0x20A6 then "N"
    else if n == 0x00A0 then " "
    else [c]
  }

  function SafeText(s: string): string {
    if s == "" then "" else SafeChar(s[0]) + SafeText(s[1..])
  }

  lemma {:induction false} SafeConcat(a: string, b: string)
    ensures SafeText(a + b) == SafeText(a) + SafeText(b)
    decreases |a|
  {
    hide SafeChar;
    if a == "" {
      assert a + b == b;
    } else {
      assert (a + b)[1..] == a[1..] + b;
      SafeConcat(a[1..], b);
    }
  }

  lemma SafeSingle(c: char)
    ensures SafeText([c]) == SafeChar(c)
  {
    assert [c][1..] == "";
  }

  lemma SafeOnce(c: char)
    ensures SafeText(SafeChar(c)) == SafeChar(c) && SafeChar(c) != ""
  {
    hide SafeText;
    var safe := SafeChar(c);
    if safe == "pi" {
      SafeConcat("p", "i");
      SafeSingle('p');
      SafeSingle('i');
      assert "p" + "i" == "pi";
    } else {
      SafeSingle(safe[0]);
      assert safe == [safe[0]];
    }
  }

  /** Making a text safe twice changes nothing more. */
  lemma {:induction false} SafeIdempotent(s: string)
    ensures SafeText(SafeText(s)) == SafeText(s)
    ensures s != "" ==> SafeText(s) != ""
    decreases |s|
  {
    hide SafeChar;
    if s != "" {
      SafeIdempotent(s[1..]);
      SafeOnce(s[0]);
      SafeConcat(SafeChar(s[0]), SafeText(s[1..]));
    }
  }

  // ------------------------------------------------------------------ paragraphs

  /** A paragraph of the document: its text and its runs. */
  datatype Paragraph = Paragraph(text: string, runs: seq<Part>)

  function SafeRuns(runs: seq<Part>): seq<Part> {
    if runs == [] then []
    else (if runs[0].text == "" then [] else [Part(SafeText(runs[0].text), runs[0].style)]) + SafeRuns(runs[1..])
  }

  predicate AllBlank(s: string) { forall k :: 0 <= k < |s| ==> IsSpace(s[k]) }

  function PartsOf(p: Paragraph): seq<Part> {
    var parts := SafeRuns(p.runs);
    if parts == [] && !AllBlank(SafeText(p.text)) then [Part(SafeText(p.text), PLAIN)] else parts
  }

  /** The text a paragraph shows: that of its runs, or its own when no run has any. */
  function ShownText(p: Paragraph): string {
    if PlainText(p.runs) == "" then p.text else PlainText(p.runs)
  }

  /** The row of a paragraph; blank paragraphs have none. */
  function RowsOf(ps: seq<Paragraph>): seq<Row> {
    if ps == [] then []
    else
      var text := SafeText(ShownText(ps[0]));
      (if AllBlank(text) then [] else [Row(text, PartsOf(ps[0]))]) + RowsOf(ps[1..])
  }

  lemma {:induction false} SafeRunsText(runs: seq<Part>)
    ensures PlainText(SafeRuns(runs)) == SafeText(PlainText(runs))
    ensures NonEmpty(SafeRuns(runs)) && (SafeRuns(runs) == [] <==> PlainText(runs) == "")
    decreases |runs|
  {
    hide SafeText;
    if runs == [] {
      assert SafeText("") == "" by { NothingSafe(); }
    } else {
      SafeRunsText(runs[1..]);
      SafeConcat(runs[0].text, PlainText(runs[1..]));
      SafeIdempotent(runs[0].text);
      if runs[0].text == "" {
        assert "" + PlainText(runs[1..]) == PlainText(runs[1..]);
        assert SafeRuns(runs) == SafeRuns(runs[1..]);
      } else {
        var first := Part(SafeText(runs[0].text), runs[0].style);
        assert SafeRuns(runs) == [first] + SafeRuns(runs[1..]);
      }
    }
  }

  lemma NothingSafe() ensures SafeText("") == "" { }

  /** What the loops below compute for one paragraph is its row: the text is the concatenation
      of the run texts, which are safe already. */
  lemma ParagraphText(p: Paragraph)
    ensures SafeText(PlainText(PartsOf(p))) == PlainText(PartsOf(p))
    ensures NonEmpty(PartsOf(p))
    ensures !AllBlank(PlainText(PartsOf(p))) <==> !AllBlank(SafeText(ShownText(p)))
    ensures !AllBlank(SafeText(ShownText(p))) ==> PlainText(PartsOf(p)) == SafeText(ShownText(p))
  {
    hide SafeText, SafeRuns;
    SafeRunsText(p.runs);
    SafeIdempotent(ShownText(p));
    NothingSafe();
    if SafeRuns(p.runs) == [] {
      OnePart(Part(SafeText(p.text), PLAIN));
    }
  }

  lemma OnePart(p: Part)
    ensures PlainText([p]) == p.text
  {
    assert [p][1..] == [];
  }

  /** `paragraph_rows_from_doc` */
  method ParagraphRows(paragraphs: seq<Paragraph>) returns (rows: seq<Row>)
    ensures rows == RowsOf(paragraphs)
    ensures forall r :: r in rows ==> NonEmpty(r.parts) && r.text == PlainText(r.parts)
  {
    hide SafeText, AllBlank, PlainText, SafeRuns, PartsOf, NonEmpty, ShownText;
    rows := [];
    for i := 0 to |paragraphs|
      invariant rows + RowsOf(paragraphs[i..]) == RowsOf(paragraphs)
      invariant forall r :: r in rows ==> NonEmpty(r.parts) && r.text == PlainText(r.parts)
    {
      var paragraph := paragraphs[i];
      var parts := CollectParts(paragraph);
      ParagraphText(paragraph);
      var text := SafeText(PlainText(parts));
      ghost var rest := paragraphs[i..];
      assert rest[0] == paragraph && rest[1..] == paragraphs[i + 1..];
      ghost var tail := RowsOf(paragraphs[i + 1..]);
      if !AllBlank(text) {
        assert RowsOf(rest) == [Row(text, parts)] + tail;
        assert rows + ([Row(text, parts)] + tail) == (rows + [Row(text, parts)]) + tail;
        rows := rows + [Row(text, parts)];
      } else {
        assert RowsOf(rest) == tail;
      }
    }
  }

  lemma NoRuns(parts: seq<Part>)
    ensures parts + SafeRuns([]) == parts
  {
  }

  lemma OneMoreRun(parts: seq<Part>, runs: seq<Part>)
    requires runs != []
    ensures parts + SafeRuns(runs)
         == if runs[0].text == "" then parts + SafeRuns(runs[1..])
            else parts + [Part(SafeText(runs[0].text), runs[0].style)] + SafeRuns(runs[1..])
  {
    var first, rest := Part(SafeText(runs[0].text), runs[0].style), SafeRuns(runs[1..]);
    assert SafeRuns(runs) == if runs[0].text == "" then rest else [first] + rest by { hide SafeText; assert [] + rest == rest; }
    hide *;
    Regroup(parts, [first], rest);
  }

  method CollectParts(paragraph: Paragraph) returns (parts: seq<Part>)
    ensures parts == PartsOf(paragraph)
  {
    hide SafeText, AllBlank, PlainText, SafeRuns;
    parts := [];
    assert paragraph.runs[0..] == paragraph.runs && [] + SafeRuns(paragraph.runs) == SafeRuns(paragraph.runs);
    for j := 0 to |paragraph.runs|
      invariant parts + SafeRuns(paragraph.runs[j..]) == SafeRuns(paragraph.runs)
    {
      var run := paragraph.runs[j];
      OneMoreRun(parts, paragraph.runs[j..]);
      assert paragraph.runs[j..][1..] == paragraph.runs[j + 1..];
      if run.text == "" {
        continue;
      }
      parts := parts + [Part(SafeText(run.text), run.style)];
    }
    NoRuns(parts);
    assert paragraph.runs[|paragraph.runs|..] == [];
    if parts == [] {
      var text := SafeText(paragraph.text);
      if !AllBlank(text) {
        parts := parts + [Part(text, PLAIN)];
      }
    }
  }

  // --------------------------------------------------------------------- slicing

  predicate NonEmpty(parts: seq<Part>) { forall p :: p in parts ==> p.text != "" }

  function Clamp(k: int, n: nat): (r: nat)
    ensures r <= n
  {
    if k < 0 then 0 else if k > n then n else k
  }

  /** The characters at positions from `lo` up to `hi`, as far as there are any. */
  function Window<T>(s: seq<T>, lo: int, hi: int): seq<T>
    requires lo <= hi
  {
    s[Clamp(lo, |s|)..Clamp(hi, |s|)]
  }

  /** What the cursor loop renders: the pieces of the runs inside the range. */
  function Cut(parts: seq<Part>, cursor: int, start: int, end: int): seq<Part> {
    if parts == [] then []
    else
      var text := parts[0].text;
      var next := cursor + |text|;
      if next <= start then Cut(parts[1..], next, start, end)
      else if cursor >= end then []
      else
        Piece(parts[0], start - cursor, end - cursor) + Cut(parts[1..], next, start, end)
  }

  /** The piece of one run inside a range, if there is any. */
  function Piece(p: Part, lo: int, hi: int): seq<Part> {
    var localStart, localEnd := Clamp(lo, |p.text|), Clamp(hi, |p.text|);
    if localEnd > localStart then [Part(p.text[localStart..localEnd], p.style)] else []
  }

  lemma WindowConcat<T>(a: seq<T>, b: seq<T>, lo: int, hi: int)
    requires lo <= hi
    ensures Window(a + b, lo, hi) == Window(a, lo, hi) + Window(b, lo - |a|, hi - |a|)
  {
  }

  lemma PieceIsWindow(p: Part, lo: int, hi: int)
    requires lo <= hi
    ensures Styles(Piece(p, lo, hi)) == Window(Paint(p.text, p.style), lo, hi)
    ensures NonEmpty(Piece(p, lo, hi))
  {
    if Piece(p, lo, hi) != [] {
      OneHtml(Piece(p, lo, hi)[0]);
    }
  }

  lemma WindowOutside<T>(s: seq<T>, lo: int, hi: int)
    requires lo <= hi && (|s| <= lo || hi <= 0 || s == [])
    ensures Window(s, lo, hi) == []
  {
  }

  lemma CutUnfolds(parts: seq<Part>, cursor: int, start: int, end: int)
    requires parts != []
    ensures var p, next := parts[0], cursor + |parts[0].text|;
      Cut(parts, cursor, start, end)
      == if next <= start then Cut(parts[1..], next, start, end)
         else if cursor >= end then []
         else Piece(p, start - cursor, end - cursor) + Cut(parts[1..], next, start, end)
  {
  }

  lemma StylesUnfold(parts: seq<Part>)
    ensures Styles([]) == []
    ensures parts != [] ==> Styles(parts) == Paint(parts[0].text, parts[0].style) + Styles(parts[1..])
  {
  }

  lemma NonEmptyAppend(a: seq<Part>, b: seq<Part>)
    ensures NonEmpty([]) && (NonEmpty(a) && NonEmpty(b) ==> NonEmpty(a + b))
  {
  }

  /** The cursor loop is plain slicing of the styled characters. */
  lemma NothingCut(cursor: int, start: int, end: int)
    ensures Cut([], cursor, start, end) == [] && NonEmpty([])
  {
  }

  lemma NothingBefore<T>(s: seq<T>)
    ensures [] + s == s
  {
  }

  lemma {:induction false} CutIsWindow(parts: seq<Part>, cursor: int, start: int, end: int)
    requires start <= end
    ensures Styles(Cut(parts, cursor, start, end)) == Window(Styles(parts), start - cursor, end - cursor)
    ensures NonEmpty(Cut(parts, cursor, start, end))
    decreases |parts|
  {
    hide *;
    var lo, hi := start - cursor, end - cursor;
    StylesUnfold(parts);
    NothingCut(cursor, start, end);
    if |parts| == 0 {
      WindowOutside(Styles(parts), lo, hi);
    } else {
      var p, tail := parts[0], Styles(parts[1..]);
      var painted, next := Paint(p.text, p.style), cursor + |p.text|;
      CutUnfolds(parts, cursor, start, end);
      CutIsWindow(parts[1..], next, start, end);
      WindowConcat(painted, tail, lo, hi);
      if next <= start {
        WindowOutside(painted, lo, hi);
        NothingBefore(Window(tail, lo - |p.text|, hi - |p.text|));
      } else if cursor >= end {
        WindowOutside(Styles(parts), lo, hi);
      } else {
        PieceIsWindow(p, lo, hi);
        HtmlAppend(Piece(p, lo, hi), Cut(parts[1..], next, start, end));
        NonEmptyAppend(Piece(p, lo, hi), Cut(parts[1..], next, start, end));
      }
    }
  }

  lemma {:induction false} StylesLength(parts: seq<Part>)
    ensures |Styles(parts)| == |PlainText(parts)|
    decreases |parts|
  {
    if parts != [] { StylesLength(parts[1..]); }
  }

  /** Slices at any split point put together are the whole slice. */
  lemma SlicesConcatenate(parts: seq<Part>, a: nat, b: nat, c: nat)
    requires a <= b <= c
    ensures Decode(Html(Cut(parts, 0, a, b)), PLAIN) + Decode(Html(Cut(parts, 0, b, c)), PLAIN)
         == Decode(Html(Cut(parts, 0, a, c)), PLAIN)
  {
    hide *;
    HtmlDecodes(Cut(parts, 0, a, b));
    HtmlDecodes(Cut(parts, 0, b, c));
    HtmlDecodes(Cut(parts, 0, a, c));
    CutIsWindow(parts, 0, a, b);
    CutIsWindow(parts, 0, b, c);
    CutIsWindow(parts, 0, a, c);
    WindowsJoin(Styles(parts), a, b, c);
  }

  lemma WindowsJoin<T>(s: seq<T>, a: nat, b: nat, c: nat)
    requires a <= b <= c
    ensures Window(s, a, b) + Window(s, b, c) == Window(s, a, c)
  {
  }

  lemma WholePiece(p: Part, lo: int, hi: int)
    requires lo <= 0 && |p.text| <= hi && p.text != ""
    ensures Piece(p, lo, hi) == [p]
  {
    assert p.text[0..|p.text|] == p.text;
  }

  /** A slice over all characters renders the row as a whole. */
  lemma {:induction false} FullCut(parts: seq<Part>, cursor: int, start: int, end: int)
    requires NonEmpty(parts) && start <= cursor && cursor + |PlainText(parts)| <= end
    ensures Cut(parts, cursor, start, end) == parts
    decreases |parts|
  {
    hide Piece;
    if parts != [] {
      hide Cut;
      assert parts[0] in parts && forall p :: p in parts[1..] ==> p in parts;
      assert |PlainText(parts)| == |parts[0].text| + |PlainText(parts[1..])|;
      CutUnfolds(parts, cursor, start, end);
      FullCut(parts[1..], cursor + |parts[0].text|, start, end);
      WholePiece(parts[0], start - cursor, end - cursor);
      assert parts == [parts[0]] + parts[1..];
    }
  }

  /** A slice without bounds is the whole row: its rendering, and all of its characters. */
  lemma WholeSlice(row: Row)
    requires NonEmpty(row.parts) && row.text == PlainText(row.parts)
    ensures Cut(row.parts, 0, 0, |row.text|) == row.parts
    ensures Window(Styles(row.parts), 0, |row.text|) == Styles(row.parts)
  {
    FullCut(row.parts, 0, 0, |row.text|);
    StylesLength(row.parts);
  }

  // ------------------------------------------------------------- the final strip

  /** Characters that a strip of the HTML takes away: blanks outside every tag.  A line break is
      a tag by then, and stays. */
  predicate PlainBlank(s: Styled) { s.style == PLAIN && IsSpace(s.c) && s.c != '\n' }

  function TrimmedLeft(s: seq<Styled>): seq<Styled> {
    if s != [] && PlainBlank(s[0]) then TrimmedLeft(s[1..]) else s
  }

  function TrimmedRight(s: seq<Styled>): seq<Styled> {
    if s != [] && PlainBlank(s[|s| - 1]) then TrimmedRight(s[..|s| - 1]) else s
  }

  function DropFirst(parts: seq<Part>): seq<Part>
    requires NonEmpty(parts) && parts != []
  {
    if |parts[0].text| == 1 then parts[1..]
    else [Part(parts[0].text[1..], parts[0].style)] + parts[1..]
  }

  function DropLast(parts: seq<Part>): seq<Part>
    requires NonEmpty(parts) && parts != []
  {
    var last := parts[|parts| - 1];
    if |last.text| == 1 then parts[..|parts| - 1]
    else parts[..|parts| - 1] + [Part(last.text[..|last.text| - 1], last.style)]
  }

  lemma RenderPlain(p: Part)
    requires p.style == PLAIN
    ensures Render(p) == Escape(p.text)
  {
    EscapedIsCharwise(p.text);
  }

  lemma RenderTagged(p: Part)
    requires p.style != PLAIN
    ensures |Render(p)| > 1 && Render(p)[0] == '<' && Render(p)[|Render(p)| - 1] == '>'
  {
    hide EscapedText;
  }

  lemma {:induction false} HtmlAppend(a: seq<Part>, b: seq<Part>)
    ensures Html(a + b) == Html(a) + Html(b) && Styles(a + b) == Styles(a) + Styles(b)
    decreases |a|
  {
    hide Render;
    if a == [] {
      assert a + b == b;
    } else {
      assert (a + b)[1..] == a[1..] + b;
      HtmlAppend(a[1..], b);
    }
  }

  lemma {:induction false} EscapeAppend(a: string, b: string)
    ensures Escape(a + b) == Escape(a) + Escape(b)
    decreases |a|
  {
    hide EscapedChar;
    if a == "" {
      assert a + b == b;
    } else {
      assert (a + b)[1..] == a[1..] + b;
      EscapeAppend(a[1..], b);
    }
  }

  lemma EscapeOne(c: char)
    ensures Escape([c]) == EscapedChar(c)
  {
    assert [c][1..] == "";
  }

  lemma OneHtml(p: Part)
    ensures Html([p]) == Render(p) && Styles([p]) == Paint(p.text, p.style)
  {
    assert [p][1..] == [];
  }

  /** A rendered run without its first character. */
  lemma FirstOfPart(p: Part)
    requires p.text != ""
    ensures var q := Part(p.text[1..], p.style);
      && Paint(p.text, p.style) == [Styled(p.text[0], p.style)] + Paint(q.text, q.style)
      && (p.style == PLAIN ==> Render(p) == EscapedChar(p.text[0]) + Render(q))
  {
    hide Render, EscapedChar, Escape, PLAIN;
    var q := Part(p.text[1..], p.style);
    assert p.text == [p.text[0]] + q.text;
    assert Paint(p.text, p.style) == [Styled(p.text[0], p.style)] + Paint(q.text, q.style);
    hide Paint;
    EscapeAppend([p.text[0]], q.text);
    EscapeOne(p.text[0]);
    if p.style == PLAIN {
      RenderPlain(p);
      RenderPlain(q);
    }
  }

  lemma LastOfPart(p: Part)
    requires p.text != ""
    ensures var q, c := Part(p.text[..|p.text| - 1], p.style), p.text[|p.text| - 1];
      && Paint(p.text, p.style) == Paint(q.text, q.style) + [Styled(c, p.style)]
      && (p.style == PLAIN ==> Render(p) == Render(q) + EscapedChar(c))
  {
    hide Render, EscapedChar, Escape;
    var q, c := Part(p.text[..|p.text| - 1], p.style), p.text[|p.text| - 1];
    assert p.text == q.text + [c];
    EscapeAppend(q.text, [c]);
    EscapeOne(c);
    if p.style == PLAIN {
      RenderPlain(p);
      RenderPlain(q);
    }
  }

  lemma EmptyPart(style: Style)
    ensures style == PLAIN ==> Render(Part("", style)) == ""
    ensures Paint("", style) == []
  {
    if style == PLAIN { RenderPlain(Part("", style)); }
  }

  lemma FirstCharacter(parts: seq<Part>)
    requires NonEmpty(parts) && parts != []
    ensures NonEmpty(DropFirst(parts))
    ensures Styles(parts) == [Styled(parts[0].text[0], parts[0].style)] + Styles(DropFirst(parts))
    ensures parts[0].style == PLAIN ==> Html(parts) == EscapedChar(parts[0].text[0]) + Html(DropFirst(parts))
  {
    assert parts[0] in parts && parts == [parts[0]] + parts[1..];
    assert NonEmpty(DropFirst(parts));
    hide *;
    var p, tail := parts[0], parts[1..];
    var c, q := [Styled(p.text[0], p.style)], Part(p.text[1..], p.style);
    HtmlAppend([p], tail);
    OneHtml(p);
    FirstOfPart(p);
    Regroup(c, Paint(q.text, q.style), Styles(tail));
    Regroup(EscapedChar(p.text[0]), Render(q), Html(tail));
    WithFirst(q, tail);
    DroppedFirst(parts);
  }

  /** A run in front, when it has any text left. */
  lemma WithFirst(q: Part, tail: seq<Part>)
    ensures var rest := if q.text == "" then tail else [q] + tail;
      Styles(rest) == Paint(q.text, q.style) + Styles(tail) && (q.style == PLAIN ==> Html(rest) == Render(q) + Html(tail))
  {
    EmptyPart(q.style);
    hide Render, Html, Styles, Paint;
    HtmlAppend([q], tail);
    OneHtml(q);
    assert "" + Html(tail) == Html(tail) && [] + Styles(tail) == Styles(tail);
  }

  lemma DroppedFirst(parts: seq<Part>)
    requires NonEmpty(parts) && parts != []
    ensures parts[0].text != ""
    ensures var q := Part(parts[0].text[1..], parts[0].style);
      DropFirst(parts) == if q.text == "" then parts[1..] else [q] + parts[1..]
  {
    assert parts[0] in parts;
  }

  lemma LastCharacter(parts: seq<Part>)
    requires NonEmpty(parts) && parts != []
    ensures NonEmpty(DropLast(parts))
    ensures var p := parts[|parts| - 1];
      && Styles(parts) == Styles(DropLast(parts)) + [Styled(p.text[|p.text| - 1], p.style)]
      && (p.style == PLAIN ==> Html(parts) == Html(DropLast(parts)) + EscapedChar(p.text[|p.text| - 1]))
  {
    assert parts[|parts| - 1] in parts && parts == parts[..|parts| - 1] + [parts[|parts| - 1]];
    assert NonEmpty(DropLast(parts));
    hide *;
    var p, front := parts[|parts| - 1], parts[..|parts| - 1];
    var c, q := [Styled(p.text[|p.text| - 1], p.style)], Part(p.text[..|p.text| - 1], p.style);
    HtmlAppend(front, [p]);
    OneHtml(p);
    LastOfPart(p);
    Regroup(Styles(front), Paint(q.text, q.style), c);
    Regroup(Html(front), Render(q), EscapedChar(p.text[|p.text| - 1]));
    WithLast(front, q);
    DroppedLast(parts);
  }

  lemma WithLast(front: seq<Part>, q: Part)
    ensures var rest := if q.text == "" then front else front + [q];
      Styles(rest) == Styles(front) + Paint(q.text, q.style) && (q.style == PLAIN ==> Html(rest) == Html(front) + Render(q))
  {
    EmptyPart(q.style);
    hide Render, Html, Styles, Paint;
    HtmlAppend(front, [q]);
    OneHtml(q);
    assert Html(front) + "" == Html(front) && Styles(front) + [] == Styles(front);
  }

  lemma DroppedLast(parts: seq<Part>)
    requires NonEmpty(parts) && parts != []
    ensures parts[|parts| - 1].text != ""
    ensures var p := parts[|parts| - 1];
      var q := Part(p.text[..|p.text| - 1], p.style);
      DropLast(parts) == if q.text == "" then parts[..|parts| - 1] else parts[..|parts| - 1] + [q]
  {
    assert parts[|parts| - 1] in parts;
  }

  lemma SkipOne(c: char, h: string)
    ensures IsSpace(c) ==> ([c] + h)[SkipSpaces([c] + h, 0)..] == h[SkipSpaces(h, 0)..]
    ensures !IsSpace(c) ==> SkipSpaces([c] + h, 0) == 0
  {
    if IsSpace(c) {
      SkipSpacesSkips(h, 0);
      SkipSpacesUnique([c] + h, 0, 1 + SkipSpaces(h, 0));
    }
  }

  lemma {:induction false} LeftStrip(parts: seq<Part>) returns (rest: seq<Part>)
    requires NonEmpty(parts)
    ensures NonEmpty(rest)
    ensures Html(parts)[SkipSpaces(Html(parts), 0)..] == Html(rest)
    ensures TrimmedLeft(Styles(parts)) == Styles(rest)
    decreases |Styles(parts)|
  {
    hide Html, Styles, Render, NonEmpty, DropFirst, SkipSpaces;
    rest := parts;
    if parts == [] {
      EmptyHtml();
    } else {
      FirstCharacter(parts);
      FirstOfHtml(parts);
      var first := Styles(parts)[0];
      assert Styles(parts)[1..] == Styles(DropFirst(parts));
      if PlainBlank(first) {
        assert Html(parts) == [first.c] + Html(DropFirst(parts));
        SkipOne(first.c, Html(DropFirst(parts)));
        rest := LeftStrip(DropFirst(parts));
      } else {
        SkipOne(Html(parts)[0], Html(parts)[1..]);
        assert Html(parts) == [Html(parts)[0]] + Html(parts)[1..];
      }
    }
  }

  lemma EmptyHtml()
    ensures Html([]) == "" && Styles([]) == [] && SkipSpaces("", 0) == 0
  {
  }

  lemma FirstOfHtml(parts: seq<Part>)
    requires NonEmpty(parts) && parts != []
    ensures Html(parts) != "" && Styles(parts) != []
    ensures Styles(parts)[0].style == parts[0].style && Styles(parts)[0].c == parts[0].text[0]
    ensures IsSpace(Html(parts)[0]) <==> PlainBlank(Styles(parts)[0])
  {
    hide Render, Escape, IsSpace;
    FirstCharacter(parts);
    SpacesAreRaw(parts[0].text[0]);
    if parts[0].style != PLAIN {
      RenderTagged(parts[0]);
    }
  }

  lemma SpacesAreRaw(c: char)
    ensures var e := EscapedChar(c);
      && e != "" && (IsSpace(e[0]) <==> IsSpace(c) && c != '\n') && (IsSpace(e[|e| - 1]) <==> IsSpace(c) && c != '\n')
      && (IsSpace(c) && c != '\n' ==> e == [c])
    ensures !IsSpace('<') && !IsSpace('>')
  {
  }

  lemma LastOfHtml(parts: seq<Part>)
    requires NonEmpty(parts) && parts != []
    ensures var h, s, p := Html(parts), Styles(parts), parts[|parts| - 1];
      && h != "" && s != [] && s[|s| - 1] == Styled(p.text[|p.text| - 1], p.style)
      && (IsSpace(h[|h| - 1]) <==> PlainBlank(s[|s| - 1]))
  {
    hide Render, Escape, IsSpace, Html, Styles, DropLast, EscapedChar;
    var p := parts[|parts| - 1];
    LastCharacter(parts);
    SpacesAreRaw(p.text[|p.text| - 1]);
    if p.style != PLAIN {
      assert parts == parts[..|parts| - 1] + [p];
      HtmlAppend(parts[..|parts| - 1], [p]);
      OneHtml(p);
      RenderTagged(p);
    }
  }

  lemma {:induction false} RightStrip(parts: seq<Part>) returns (rest: seq<Part>)
    requires NonEmpty(parts)
    ensures NonEmpty(rest)
    ensures RStrip(Html(parts)) == Html(rest)
    ensures TrimmedRight(Styles(parts)) == Styles(rest)
    decreases |Styles(parts)|
  {
    hide Html, Styles, Render, NonEmpty, DropLast;
    rest := parts;
    if parts == [] {
      EmptyHtml();
    } else {
      LastCharacter(parts);
      LastOfHtml(parts);
      var s := Styles(parts);
      assert s[..|s| - 1] == Styles(DropLast(parts));
      if PlainBlank(s[|s| - 1]) {
        SpacesAreRaw(s[|s| - 1].c);
        assert Html(parts)[..|Html(parts)| - 1] == Html(DropLast(parts));
        rest := RightStrip(DropLast(parts));
      }
    }
  }

  /** Stripping the HTML takes away exactly the untagged blanks at the ends. */
  lemma StripTrims(parts: seq<Part>)
    requires NonEmpty(parts)
    ensures Decode(Strip(Html(parts)), PLAIN) == TrimmedRight(TrimmedLeft(Styles(parts)))
  {
    hide Html, Styles, Decode, RStrip, SkipSpaces, TrimmedLeft, TrimmedRight;
    var left := LeftStrip(parts);
    var rest := RightStrip(left);
    HtmlDecodes(rest);
  }

  // --------------------------------------------------------------- the cursor loop

  function PieceHtml(p: Part, lo: int, hi: int): string {
    var localStart, localEnd := Clamp(lo, |p.text|), Clamp(hi, |p.text|);
    if localEnd > localStart then Render(Part(p.text[localStart..localEnd], p.style)) else ""
  }

  lemma NothingLeft(parts: seq<Part>, cursor: int, start: int, end: int)
    ensures Html(Cut(parts[|parts|..], cursor, start, end)) == ""
  {
  }

  lemma CutStep(parts: seq<Part>, i: nat, cursor: int, start: int, end: int)
    requires i < |parts|
    ensures var p, next := parts[i], cursor + |parts[i].text|;
      && (next <= start ==> Cut(parts[i..], cursor, start, end) == Cut(parts[i + 1..], next, start, end))
      && (start < next && cursor >= end ==> Html(Cut(parts[i..], cursor, start, end)) == "")
      && (start < next && cursor < end ==>
            Html(Cut(parts[i..], cursor, start, end))
            == Html(Piece(p, start - cursor, end - cursor)) + Html(Cut(parts[i + 1..], next, start, end)))
      && (start < next && cursor < end ==>
            Html(Piece(p, start - cursor, end - cursor)) == PieceHtml(p, start - cursor, end - cursor))
  {
    hide Render;
    var rest := parts[i..];
    var p, next := parts[i], cursor + |parts[i].text|;
    assert rest[0] == p && rest[1..] == parts[i + 1..];
    if start < next && cursor < end {
      var piece := Piece(p, start - cursor, end - cursor);
      HtmlAppend(piece, Cut(parts[i + 1..], next, start, end));
      if piece != [] { OneHtml(piece[0]); }
    }
  }

  /** `ParagraphRow.slice_html` */
  method SliceHtml(row: Row, start: int, end: Option<int>) returns (html: string)
    ensures var from := if start < 0 then 0 else start;
            var to := if end.None? then |row.text| else end.value;
            && (to < from ==> html == "")
            && (from <= to ==> html == Strip(Html(Cut(row.parts, 0, from, to))))
            && (from <= to ==> Decode(html, PLAIN) == TrimmedRight(TrimmedLeft(Window(Styles(row.parts), from, to))))
    ensures start <= 0 && end.None? && NonEmpty(row.parts) && row.text == PlainText(row.parts) ==>
              html == Strip(Html(row.parts))
  {
    hide Render, Strip, Decode, Styles, TrimmedLeft, TrimmedRight, Cut, Html, Piece;
    var to := if end.None? then |row.text| else end.value;
    var from := if start < 0 then 0 else start;
    if to < from {
      return "";
    }
    var cursor, chunks := 0, "";
    ghost var whole := Html(Cut(row.parts, 0, from, to));
    for i := 0 to |row.parts|
      invariant chunks + Html(Cut(row.parts[i..], cursor, from, to)) == whole
    {
      var part := row.parts[i];
      CutStep(row.parts, i, cursor, from, to);
      var next := cursor + |part.text|;
      if next <= from {
        cursor := next;
        continue;
      }
      if cursor >= to {
        assert chunks + "" == chunks;
        break;
      }
      var localStart := if from - cursor > 0 then from - cursor else 0;
      var localEnd := if to - cursor < |part.text| then to - cursor else |part.text|;
      if localEnd > localStart {
        chunks := chunks + Render(Part(part.text[localStart..localEnd], part.style));
      }
      cursor := next;
    }
    NothingLeft(row.parts, cursor, from, to);
    assert chunks + "" == chunks;
    html := Strip(chunks);
    SliceDenotes(row, from, to);
  }

  /** What the stripped rendering of a cut stands for. */
  lemma SliceDenotes(row: Row, from: nat, to: int)
    requires from <= to
    ensures Decode(Strip(Html(Cut(row.parts, 0, from, to))), PLAIN) == TrimmedRight(TrimmedLeft(Window(Styles(row.parts), from, to)))
    ensures from == 0 && to == |row.text| && NonEmpty(row.parts) && row.text == PlainText(row.parts) ==>
              Html(Cut(row.parts, 0, from, to)) == Html(row.parts)
  {
    hide *;
    CutIsWindow(row.parts, 0, from, to);
    StripTrims(Cut(row.parts, 0, from, to));
    if from == 0 && to == |row.text| && NonEmpty(row.parts) && row.text == PlainText(row.parts) {
      WholeSlice(row);
    }
  }

  /** Rich texts without runs stand for their safe characters. */
  lemma RichTextDecodes(value: string)
    ensures Decode(EscapedText(SafeText(value)), PLAIN) == Paint(SafeText(value), PLAIN)
  {
    EscapedIsCharwise(SafeText(value));
    EscapedDecodes(SafeText(value), "", PLAIN);
    assert Escape(SafeText(value)) + "" == Escape(SafeText(value));
  }
}
