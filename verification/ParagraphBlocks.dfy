/**
  The parser that reads a DOCX paper paragraph by paragraph: it closes a question block
  at a paragraph that bears an answer, so that answers cannot drift between questions.
 */
module ParagraphBlocks {
  import opened Chars
  import opened Markers
  import opened Wrappers
  import opened QuestionParsers
  import opened PrintedLines
  import opened CanonicalText

  datatype Cut = Cut(chunks: seq<seq<string>>, current: seq<string>, theory: seq<string>, inTheory: bool)

  predicate IsTheoryMark(text: string) { MatchAt(TheoryMark, text, 0).Some? }

  predicate BearsAnswer(text: string) { Search(AnyAnswer, text, 0).Some? }

  predicate FourMarks(text: string) { |FindAll(OptionMark, text, 0)| >= 4 }

  function Flush(c: Cut): Cut {
    if c.current == [] then c else c.(chunks := c.chunks + [c.current], current := [])
  }

  /** One paragraph of the loop. */
  function Read(c: Cut, paragraph: string): Cut {
    var text := Strip(paragraph);
    if text == "" then c
    else if IsTheoryMark(text) then Flush(c).(inTheory := true)
    else if c.inTheory then c.(theory := c.theory + [text])
    else
      var full := c.current != [] && FourMarks(Join(c.current, "\n")) && FourMarks(text);
      var open := if full then Flush(c) else c;
      var grown := open.(current := open.current + [text]);
      if BearsAnswer(text) then Flush(grown) else grown
  }

  function ReadAll(paragraphs: seq<string>): Cut {
    if paragraphs == [] then Cut([], [], [], false)
    else Read(ReadAll(paragraphs[..|paragraphs| - 1]), paragraphs[|paragraphs| - 1])
  }

  function ChunkRows(chunks: seq<seq<string>>): seq<Row> {
    if chunks == [] then []
    else WithNumber(ChunkRow(Join(chunks[0], "\n")), None) + ChunkRows(chunks[1..])
  }

  function ParagraphRows(paragraphs: seq<string>): seq<Row> {
    var c := Flush(ReadAll(paragraphs));
    ChunkRows(c.chunks) + TheoryRows(CollapsedLines(Join(c.theory, "\n")), [])
  }

  method ParseParagraphs(paragraphs: seq<string>) returns (rows: seq<Row>)
    ensures rows == ParagraphRows(paragraphs)
  {
    hide FourMarks, BearsAnswer, IsTheoryMark, Strip, ChunkRow, Join;
    var chunks: seq<seq<string>>, current: seq<string>, theory: seq<string> := [], [], [];
    var inTheory := false;
    for k := 0 to |paragraphs|
      invariant ReadAll(paragraphs[..k]) == Cut(chunks, current, theory, inTheory)
    {
      assert paragraphs[..k + 1][..k] == paragraphs[..k];
      var text := Strip(paragraphs[k]);
      if text == "" {
      } else if IsTheoryMark(text) {
        if current != [] {
          chunks, current := chunks + [current], [];
        }
        inTheory := true;
      } else if inTheory {
        theory := theory + [text];
      } else {
        if current != [] && FourMarks(Join(current, "\n")) && FourMarks(text) {
          chunks, current := chunks + [current], [];
        }
        current := current + [text];
        if BearsAnswer(text) {
          chunks, current := chunks + [current], [];
        }
      }
    }
    assert paragraphs[..|paragraphs|] == paragraphs;
    if current != [] {
      chunks, current := chunks + [current], [];
    }
    rows := ParseChunks(chunks);
    var theoryRows := ParseTheoryRows(Join(theory, "\n"));
    rows := rows + theoryRows;
  }

  method ParseChunks(chunks: seq<seq<string>>) returns (rows: seq<Row>)
    ensures rows == ChunkRows(chunks)
  {
    hide ChunkRow, Join;
    rows := [];
    for k := 0 to |chunks|
      invariant rows + ChunkRows(chunks[k..]) == ChunkRows(chunks)
    {
      assert chunks[k..][0] == chunks[k] && chunks[k..][1..] == chunks[k + 1..];
      var row := ParseObjectiveChunk(Join(chunks[k], "\n"));
      var one := if row.Some? then [row.value.(number := None)] else [];
      Regroup(rows, one, ChunkRows(chunks[k + 1..]));
      rows := rows + one;
    }
  }

  // ------------------------------------------------------------ what the cut keeps

  function Flatten(chunks: seq<seq<string>>): seq<string> {
    if chunks == [] then [] else Flatten(chunks[..|chunks| - 1]) + chunks[|chunks| - 1]
  }

  /** The paragraphs that are neither blank nor theory headings, stripped, in order. */
  function Kept(paragraphs: seq<string>): seq<string> {
    if paragraphs == [] then []
    else
      var text := Strip(paragraphs[|paragraphs| - 1]);
      Kept(paragraphs[..|paragraphs| - 1]) + (if text == "" || IsTheoryMark(text) then [] else [text])
  }

  /** A chunk is not empty, and only its last paragraph may bear an answer. */
  predicate Closed(chunk: seq<string>) {
    chunk != [] && forall k :: 0 <= k < |chunk| - 1 ==> !BearsAnswer(chunk[k])
  }

  /** A chunk cut before its end: the block it holds has its four options and no answer. */
  predicate Open(current: seq<string>) {
    forall k :: 0 <= k < |current| ==> !BearsAnswer(current[k])
  }

  /** Invariant of the loop: nothing is lost or reordered, and answers only close chunks. */
  predicate Sound(c: Cut, paragraphs: seq<string>) {
    && Flatten(c.chunks) + c.current + c.theory == Kept(paragraphs)
    && (forall k :: 0 <= k < |c.chunks| ==> Closed(c.chunks[k]))
    && Open(c.current)
    && (if c.inTheory then c.current == [] else c.theory == [])
  }

  lemma FlushKeeps(c: Cut)
    requires forall k :: 0 <= k < |c.chunks| ==> Closed(c.chunks[k])
    requires c.current != [] ==> Closed(c.current)
    ensures var f := Flush(c);
      && Flatten(f.chunks) + f.current == Flatten(c.chunks) + c.current
      && f.current == [] && f.theory == c.theory && f.inTheory == c.inTheory
      && forall k :: 0 <= k < |f.chunks| ==> Closed(f.chunks[k])
  {
    hide BearsAnswer;
    if c.current != [] {
      assert (c.chunks + [c.current])[..|c.chunks|] == c.chunks;
    }
  }

  /** A paragraph put into the open block, which it closes when it bears an answer. */
  lemma GrowKeeps(c: Cut, text: string)
    requires (forall k :: 0 <= k < |c.chunks| ==> Closed(c.chunks[k])) && Open(c.current)
    ensures var grown := c.(current := c.current + [text]);
      var r := if BearsAnswer(text) then Flush(grown) else grown;
      && Flatten(r.chunks) + r.current == (Flatten(c.chunks) + c.current) + [text]
      && (forall k :: 0 <= k < |r.chunks| ==> Closed(r.chunks[k]))
      && Open(r.current) && r.theory == c.theory && r.inTheory == c.inTheory
  {
    hide BearsAnswer, Flatten;
    var grown := c.(current := c.current + [text]);
    Regroup(Flatten(c.chunks), c.current, [text]);
    if BearsAnswer(text) {
      FlushKeeps(grown);
    }
  }

  lemma KeptStep(paragraphs: seq<string>, paragraph: string)
    ensures var text := Strip(paragraph);
      Kept(paragraphs + [paragraph]) == Kept(paragraphs) + (if text == "" || IsTheoryMark(text) then [] else [text])
  {
    hide Strip, IsTheoryMark;
    assert (paragraphs + [paragraph])[..|paragraphs|] == paragraphs;
  }

  lemma ReadIsSound(c: Cut, paragraphs: seq<string>, paragraph: string)
    requires Sound(c, paragraphs)
    ensures Sound(Read(c, paragraph), paragraphs + [paragraph])
  {
    hide BearsAnswer, FourMarks, IsTheoryMark, Strip, Join, Kept, Flatten, Closed, Open;
    var text := Strip(paragraph);
    KeptStep(paragraphs, paragraph);
    if text == "" || IsTheoryMark(text) {
      assert Kept(paragraphs) + [] == Kept(paragraphs);
      OpenCloses(c.current);
      FlushKeeps(c);
    } else if c.inTheory {
      Regroup(Flatten(c.chunks) + c.current, c.theory, [text]);
    } else {
      OpenCloses(c.current);
      FlushKeeps(c);
      var full := c.current != [] && FourMarks(Join(c.current, "\n")) && FourMarks(text);
      var open := if full then Flush(c) else c;
      GrowKeeps(open, text);
      var r := Read(c, paragraph);
      assert Flatten(r.chunks) + r.current + [] == Flatten(r.chunks) + r.current;
      assert Flatten(c.chunks) + c.current + [] == Flatten(c.chunks) + c.current;
    }
  }

  lemma OpenCloses(current: seq<string>)
    requires Open(current)
    ensures current != [] ==> Closed(current)
    ensures Open([])
  {
  }

  lemma NothingReadIsSound()
    ensures Sound(ReadAll([]), [])
  {
  }

  lemma {:induction false} ReadAllIsSound(paragraphs: seq<string>)
    ensures Sound(ReadAll(paragraphs), paragraphs)
  {
    hide Sound, Read;
    if paragraphs == [] {
      NothingReadIsSound();
    } else {
      var front := paragraphs[..|paragraphs| - 1];
      ReadAllIsSound(front);
      ReadIsSound(ReadAll(front), front, paragraphs[|paragraphs| - 1]);
      assert front + [paragraphs[|paragraphs| - 1]] == paragraphs;
    }
  }

  /** The chunks followed by the theory lines are the paragraphs of the document, blank ones
      and theory headings left out, in order; and in every chunk only the last paragraph may
      bear an answer, so no question can take the answer of another. */
  lemma SegmentationConserves(paragraphs: seq<string>)
    ensures var c := Flush(ReadAll(paragraphs));
      && Flatten(c.chunks) + c.theory == Kept(paragraphs)
      && forall k :: 0 <= k < |c.chunks| ==> Closed(c.chunks[k])
  {
    hide BearsAnswer;
    ReadAllIsSound(paragraphs);
    FlushKeeps(ReadAll(paragraphs));
    var f := Flush(ReadAll(paragraphs));
    assert Flatten(f.chunks) + f.current == Flatten(f.chunks);
  }

  // --------------------------------------------- a printed paper, line by line

  function ReadFrom(c: Cut, paragraphs: seq<string>): Cut
    decreases |paragraphs|
  {
    if paragraphs == [] then c else ReadFrom(Read(c, paragraphs[0]), paragraphs[1..])
  }

  lemma {:induction false} ReadOn(a: seq<string>, b: seq<string>)
    ensures ReadAll(a + b) == ReadFrom(ReadAll(a), b)
    decreases |b|
  {
    if b == [] {
      assert a + b == a;
    } else {
      assert a + b == (a + [b[0]]) + b[1..];
      assert (a + [b[0]])[..|a|] == a;
      ReadOn(a + [b[0]], b[1..]);
    }
  }

  lemma {:induction false} ReadParts(c: Cut, a: seq<string>, b: seq<string>)
    ensures ReadFrom(c, a + b) == ReadFrom(ReadFrom(c, a), b)
    decreases |a|
  {
    hide Read;
    if a == [] {
      assert a + b == b;
    } else {
      assert (a + b)[1..] == a[1..] + b;
      ReadParts(Read(c, a[0]), a[1..], b);
    }
  }

  lemma SingleLineMarks(l: string)
    requires OneLine(l)
    ensures !FourMarks(l)
  {
    hide OptionMark, FindAll, MatchAt;
    assert l[0..|l|] == l;
    AllAnchored(l);
    if MatchAt(OptionMark, l, 0).None? {
      PassLine(OptionMark, l, 0, l);
    } else {
      MarkInText(OptionMark, l, 0);
      TakeLine(OptionMark, l, 0, l, MatchAt(OptionMark, l, 0).value);
    }
  }

  lemma MarkInText(p: Pattern, t: string, i: nat)
    requires i <= |t| && MatchAt(p, t, i).Some?
    ensures MatchAt(p, t, i).value.end <= |t|
  {
  }

  lemma GuardedIsPlain(l: string)
    requires OneLine(l) && Guarded(l)
    ensures !IsTheoryMark(l) && !BearsAnswer(l)
  {
    hide TheoryMark, AnyAnswer, Search, MatchAt, Guarded;
    assert l[0..|l|] == l;
    AllAnchored(l);
    OnGuarded(l, 0, l);
    PassLine(AnyAnswer, l, 0, l);
  }

  lemma KeyIsAnswer(key: string)
    requires IsKey(key)
    ensures !IsTheoryMark(KeyLine(key)) && BearsAnswer(KeyLine(key))
  {
    hide TheoryMark, AnyAnswer, Search, MatchAt;
    var l := KeyLine(key);
    assert l[0..|l|] == l;
    KeyOneLine(key);
    AnyAnswerOnKeyLine(l, 0, key);
    OthersOnKeyLine(l, 0, key);
    SearchHere(AnyAnswer, l, 0);
  }

  lemma StripTrimmed(s: string)
    requires Trimmed(s)
    ensures Strip(s) == s && s != ""
  {
    StripAround("", s, "");
    assert "" + s + "" == s;
  }

  predicate Plain(l: string) { Trimmed(l) && OneLine(l) && Guarded(l) }

  lemma {:induction false} ReadPlain(c: Cut, lines: seq<string>)
    requires !c.inTheory && forall k :: 0 <= k < |lines| ==> Plain(lines[k])
    ensures ReadFrom(c, lines) == c.(current := c.current + lines)
    decreases |lines|
  {
    hide FourMarks, BearsAnswer, IsTheoryMark, Strip, Join, Trimmed, OneLine, Guarded;
    if lines == [] {
      assert c.current + lines == c.current;
    } else {
      var l := lines[0];
      assert Plain(l);
      StripTrimmed(l);
      SingleLineMarks(l);
      GuardedIsPlain(l);
      var d := c.(current := c.current + [l]);
      assert Read(c, l) == d;
      ReadPlain(d, lines[1..]);
      assert c.current + lines == (c.current + [l]) + lines[1..];
    }
  }

  lemma HeadIsPlain(n: nat, row: Row)
    requires Printable(row)
    ensures forall k :: 0 <= k < |HeadLines(n, row)| ==> Plain(HeadLines(n, row)[k])
  {
    hide Guarded, OneLine, Numeral, Single;
    HeadShape(n, row);
    StemLineCollapsed(n, row.stem);
    assert "A" in LABELS && "B" in LABELS && "C" in LABELS && "D" in LABELS;
    OptionTrimmed("A", row.options["A"]);
    OptionTrimmed("B", row.options["B"]);
    OptionTrimmed("C", row.options["C"]);
    OptionTrimmed("D", row.options["D"]);
  }

  lemma OptionTrimmed(key: string, text: string)
    requires IsKey(key) && Trimmed(text)
    ensures Trimmed(OptionLine(key, text))
  {
  }

  lemma ReadBlock(c: Cut, n: nat, row: Row)
    requires Printable(row) && !c.inTheory && c.current == []
    ensures ReadFrom(c, RowLines(n, row)) == c.(chunks := c.chunks + [RowLines(n, row)])
  {
    hide HeadLines, RowLines, FourMarks, BearsAnswer, IsTheoryMark, Strip, Join, Plain, KeyLine, Printable, IsKey;
    var h := HeadLines(n, row);
    HeadIsPlain(n, row);
    HeadAndKey(n, row);
    ReadPlain(c, h);
    assert c.current + h == h;
    PrintableKey(row);
    var key := KeyLine(row.answer);
    KeyIsAnswer(row.answer);
    KeyTrimmed(row.answer);
    StripTrimmed(key);
    KeyOneLine(row.answer);
    SingleLineMarks(key);
    ReadParts(c, h, [key]);
    var d := c.(current := h);
    assert ReadFrom(d, [key]) == Read(d, key);
  }

  lemma PrintableKey(row: Row)
    requires Printable(row)
    ensures row.Objective? && IsKey(row.answer)
  {
  }

  lemma KeyTrimmed(key: string)
    requires IsKey(key)
    ensures Trimmed(KeyLine(key))
  {
  }

  function Blocks(rows: seq<Row>, n: nat): seq<seq<string>>
    requires AllPrintable(rows)
  {
    if rows == [] then [] else [RowLines(n, rows[0])] + Blocks(rows[1..], n + 1)
  }

  lemma {:induction false} ReadPaper(c: Cut, rows: seq<Row>, n: nat)
    requires AllPrintable(rows) && !c.inTheory && c.current == []
    ensures ReadFrom(c, PaperLines(rows, n)) == c.(chunks := c.chunks + Blocks(rows, n))
    decreases |rows|
  {
    hide RowLines, Printable, Read;
    if rows == [] {
      assert c.chunks + Blocks(rows, n) == c.chunks;
    } else {
      ReadBlock(c, n, rows[0]);
      ReadParts(c, RowLines(n, rows[0]), PaperLines(rows[1..], n + 1));
      var d := c.(chunks := c.chunks + [RowLines(n, rows[0])]);
      ReadPaper(d, rows[1..], n + 1);
      Regroup(c.chunks, [RowLines(n, rows[0])], Blocks(rows[1..], n + 1));
    }
  }

  function WithoutNumbers(rows: seq<Row>): seq<Row>
    requires AllPrintable(rows)
  {
    if rows == [] then [] else [rows[0].(number := None)] + WithoutNumbers(rows[1..])
  }

  lemma RowOfBlock(n: nat, row: Row)
    requires Printable(row)
    ensures ChunkRow(Join(RowLines(n, row), "\n")) == Some(row.(number := None))
  {
    hide RowLines, ChunkRow, Join, BlockAt, OneLiners;
    var t := Join(RowLines(n, row), "\n");
    RowLinesOneLine(n, row);
    assert t[0..|t|] == t;
    SixLines(n, row);
    BlockOfLines(t, 0, n, row);
    ChunkOfBlock(t, n, row);
  }

  lemma SixLines(n: nat, row: Row)
    requires Printable(row)
    ensures |RowLines(n, row)| == 6
  {
  }

  lemma {:induction false} RowsOfBlocks(rows: seq<Row>, n: nat)
    requires AllPrintable(rows)
    ensures ChunkRows(Blocks(rows, n)) == WithoutNumbers(rows)
    decreases |rows|
  {
    hide RowLines, ChunkRow, Join;
    if rows != [] {
      RowOfBlock(n, rows[0]);
      RowsOfBlocks(rows[1..], n + 1);
      assert Blocks(rows, n)[1..] == Blocks(rows[1..], n + 1);
    }
  }

  /** Read paragraph by paragraph, a printed paper gives its rows back too, whatever the
      first letters of the stems; the paragraphs behind the heading become the theory part. */
  lemma ParagraphRoundTrip(rows: seq<Row>, rest: seq<string>)
    requires AllPrintable(rows)
    ensures ParagraphRows(PaperLines(rows, 1) + (if rest == [] then [] else [HEADING] + rest))
         == WithoutNumbers(rows) + TheoryRows(CollapsedLines(Join(Kept(rest), "\n")), [])
  {
    hide PaperLines, Blocks, ChunkRows, TheoryRows, CollapsedLines, Join, Read;
    var start := Cut([], [], [], false);
    var lines := PaperLines(rows, 1);
    ReadPaper(start, rows, 1);
    assert start.chunks + Blocks(rows, 1) == Blocks(rows, 1);
    var c := Cut(Blocks(rows, 1), [], [], false);
    RowsOfBlocks(rows, 1);
    assert [] + lines == lines;
    ReadOn([], lines);
    if rest == [] {
      assert lines + [] == lines;
    } else {
      ReadOn(lines, [HEADING] + rest);
      HeadingRead(c);
      ReadParts(c, [HEADING], rest);
      ReadTheory(c.(inTheory := true), rest);
      assert [] + Kept(rest) == Kept(rest);
    }
  }

  lemma HeadingRead(c: Cut)
    requires c.current == []
    ensures ReadFrom(c, [HEADING]) == c.(inTheory := true)
  {
    hide MatchAt, Strip, TheoryMark;
    assert HEADING[0..|HEADING|] == HEADING;
    TheoryOnHeading(HEADING, 0);
    StripTrimmed(HEADING);
    assert ReadFrom(c, [HEADING]) == Read(c, HEADING);
  }

  lemma {:induction false} ReadTheory(c: Cut, rest: seq<string>)
    requires c.inTheory && c.current == []
    ensures ReadFrom(c, rest) == c.(theory := c.theory + Kept(rest))
    decreases |rest|
  {
    hide MatchAt, Strip, TheoryMark, Read;
    if rest == [] {
      assert c.theory + Kept(rest) == c.theory;
    } else {
      var front, last := rest[..|rest| - 1], rest[|rest| - 1];
      ReadTheory(c, front);
      ReadParts(c, front, [last]);
      assert front + [last] == rest;
      var d := c.(theory := c.theory + Kept(front));
      TheoryStep(d, last);
      assert ReadFrom(d, [last]) == Read(d, last);
      Regroup(c.theory, Kept(front), Kept([last]));
      KeptLast(front, last);
    }
  }

  lemma TheoryStep(c: Cut, paragraph: string)
    requires c.inTheory && c.current == []
    ensures Read(c, paragraph) == c.(theory := c.theory + Kept([paragraph]))
  {
    hide IsTheoryMark, Strip;
    assert [paragraph][..0] == [];
    assert c.theory + [] == c.theory;
  }

  lemma KeptLast(front: seq<string>, last: string)
    ensures Kept(front + [last]) == Kept(front) + Kept([last])
  {
    assert (front + [last])[..|front|] == front;
    assert [last][..0] == [];
  }
}
