/**
  The canonical text of a paper: the printer of the exam importer, and what the
  parsers of the CA importer read back from it.
 */
module CanonicalText {
  import opened Chars
  import opened Markers
  import opened Wrappers
  import opened QuestionParsers
  import opened PrintedLines

  /** A row as the importers emit it: collapsed texts, four options, a key A-D. */
  predicate Printable(row: Row) {
    && row.Objective?
    && IsCollapsed(row.stem)
    && row.options.Keys == {"A", "B", "C", "D"}
    && (forall l :: l in LABELS ==> IsCollapsed(row.options[l]))
    && IsKey(row.answer)
  }

  predicate AllPrintable(rows: seq<Row>) { forall k :: 0 <= k < |rows| ==> Printable(rows[k]) }

  // ----------------------------------------------------------------- printing

  function RowLines(n: nat, row: Row): seq<string>
    requires Printable(row)
  {
    [StemLine(n, row.stem)]
    + [OptionLine("A", row.options["A"]), OptionLine("B", row.options["B"]),
       OptionLine("C", row.options["C"]), OptionLine("D", row.options["D"])]
    + [KeyLine(row.answer)]
  }

  function PaperLines(rows: seq<Row>, n: nat): seq<string>
    requires AllPrintable(rows)
  {
    if rows == [] then [] else RowLines(n, rows[0]) + PaperLines(rows[1..], n + 1)
  }

  function TheoryLines(theory: string): seq<string> {
    if theory == "" then [] else [HEADING, theory]
  }

  function PaperText(rows: seq<Row>, theory: string): string
    requires AllPrintable(rows)
  {
    Join(PaperLines(rows, 1) + TheoryLines(theory), "\n")
  }

  method PrintCanonical(rows: seq<Row>, theory: string) returns (text: string)
    requires AllPrintable(rows)
    ensures text == PaperText(rows, theory)
  {
    var lines: seq<string> := [];
    for k := 0 to |rows|
      invariant lines + PaperLines(rows[k..], k + 1) == PaperLines(rows, 1)
    {
      var block := [StemLine(k + 1, rows[k].stem)];
      block := block + [OptionLine("A", rows[k].options["A"]), OptionLine("B", rows[k].options["B"]),
                        OptionLine("C", rows[k].options["C"]), OptionLine("D", rows[k].options["D"])];
      block := block + [KeyLine(rows[k].answer)];
      PaperLinesStep(rows, k, lines, block);
      lines := lines + block;
    }
    assert rows[|rows|..] == [] && lines + [] == lines;
    if theory != "" {
      lines := lines + [HEADING, theory];
    } else {
      assert lines + TheoryLines(theory) == lines;
    }
    text := Join(lines, "\n");
  }

  lemma PaperLinesStep(rows: seq<Row>, k: nat, lines: seq<string>, block: seq<string>)
    requires AllPrintable(rows) && k < |rows| && block == RowLines(k + 1, rows[k])
    ensures lines + PaperLines(rows[k..], k + 1) == (lines + block) + PaperLines(rows[k + 1..], k + 2)
  {
    assert rows[k..][0] == rows[k] && rows[k..][1..] == rows[k + 1..];
    Regroup(lines, block, PaperLines(rows[k + 1..], k + 2));
  }

  // ------------------------------------------------------------ one printed block

  function HeadLines(n: nat, row: Row): seq<string>
    requires Printable(row)
  {
    [StemLine(n, row.stem), OptionLine("A", row.options["A"]), OptionLine("B", row.options["B"]),
     OptionLine("C", row.options["C"]), OptionLine("D", row.options["D"])]
  }

  lemma HeadAndKey(n: nat, row: Row)
    requires Printable(row)
    ensures RowLines(n, row) == HeadLines(n, row) + [KeyLine(row.answer)]
  {
  }

  lemma CollapsedOneLine(s: string)
    requires Single(s)
    ensures OneLine(s)
  {
  }

  lemma HeadShape(n: nat, row: Row)
    requires Printable(row)
    ensures OneLiners(HeadLines(n, row))
    ensures forall k :: 0 <= k < 5 ==> Guarded(HeadLines(n, row)[k])
    ensures forall k :: 1 <= k < 5 ==> Unnumbered(HeadLines(n, row)[k])
  {
    assert "A" in LABELS && "B" in LABELS && "C" in LABELS && "D" in LABELS;
    hide OneLine, Guarded, Unnumbered, Numeral, StemLine, OptionLine, IsCollapsed;
    StemShape(n, row.stem);
    forall l | l in LABELS
      ensures OneLine(OptionLine(l, row.options[l])) && Guarded(OptionLine(l, row.options[l])) && Unnumbered(OptionLine(l, row.options[l]))
    {
      OptionLineShape(l, row.options[l]);
    }
  }

  lemma StemShape(n: nat, stem: string)
    requires IsCollapsed(stem)
    ensures OneLine(StemLine(n, stem)) && Guarded(StemLine(n, stem))
  {
    var num := Numeral(n);
    CollapsedOneLine(stem);
    assert forall k :: 0 <= k < |num| ==> IsDigit(num[k]);
    assert StemLine(n, stem)[0] == num[0];
  }

  lemma OptionLineShape(l: string, text: string)
    requires l in LABELS && IsCollapsed(text)
    ensures OneLine(OptionLine(l, text)) && Guarded(OptionLine(l, text)) && Unnumbered(OptionLine(l, text))
  {
    CollapsedOneLine(text);
  }

  /** Text of the five lines before the key line. */
  function HeadText(n: nat, row: Row): string
    requires Printable(row)
  {
    Join(HeadLines(n, row), "\n")
  }

  /** A printed block at `i`: the head, a line break, the key line. */
  predicate BlockAt(t: string, i: nat, n: nat, row: Row)
    requires Printable(row)
  {
    && LinesAt(t, i, HeadLines(n, row))
    && i + |HeadText(n, row)| < |t|
    && LineAt(t, i + |HeadText(n, row)| + 1, KeyLine(row.answer))
  }

  lemma BlockOfLines(t: string, i: nat, n: nat, row: Row)
    requires Printable(row) && LinesAt(t, i, RowLines(n, row))
    ensures BlockAt(t, i, n, row)
    ensures |Join(RowLines(n, row), "\n")| == |HeadText(n, row)| + 10
  {
    HeadAndKey(n, row);
    LinesPrefix(t, i, HeadLines(n, row), [KeyLine(row.answer)]);
    FirstLine(t, i + |HeadText(n, row)| + 1, [KeyLine(row.answer)]);
    JoinAppend(HeadLines(n, row), [KeyLine(row.answer)], "\n");
  }

  /** Markers that match on no line of the head first match on the key line, if at all. */
  lemma PassHead(p: Pattern, t: string, i: nat, n: nat, row: Row)
    requires Printable(row) && BlockAt(t, i, n, row)
    requires Anchored(p, t) && Quiet(p, t, i, HeadLines(n, row))
    ensures Search(p, t, i) == Search(p, t, i + |HeadText(n, row)| + 1)
    ensures FindAll(p, t, i) == FindAll(p, t, i + |HeadText(n, row)| + 1)
  {
    PassLines(p, t, i, HeadLines(n, row));
  }

  lemma QuietHead(t: string, i: nat, n: nat, row: Row)
    requires Printable(row) && BlockAt(t, i, n, row)
    ensures Quiet(AnyAnswer, t, i, HeadLines(n, row))
    ensures Quiet(AnswerLine, t, i, HeadLines(n, row))
    ensures Quiet(TheoryMark, t, i, HeadLines(n, row))
  {
    HeadShape(n, row);
    GuardedQuiet(t, i, HeadLines(n, row));
  }

  // ------------------------------------------- a printed block read by ChunkRow

  /** What a block is made of, for proofs that need no more. */
  lemma BlockParts(t: string, i: nat, n: nat, row: Row)
    requires Printable(row) && BlockAt(t, i, n, row)
    ensures row.Objective? && LinesAt(t, i, HeadLines(n, row)) && i + |HeadText(n, row)| < |t|
    ensures LineAt(t, i + |HeadText(n, row)| + 1, KeyLine(row.answer)) && IsKey(row.answer)
    ensures i + |HeadText(n, row)| + 10 <= |t|
  {
  }

  lemma AnswerOfBlock(t: string, n: nat, row: Row)
    requires Printable(row) && BlockAt(t, 0, n, row)
    ensures Search(AnyAnswer, t, 0)
         == Some(Match(|HeadText(n, row)| + 1, |HeadText(n, row)| + 10, row.answer))
  {
    hide *;
    AllAnchored(t);
    BlockParts(t, 0, n, row);
    QuietHead(t, 0, n, row);
    PassHead(AnyAnswer, t, 0, n, row);
    AnyAnswerOnKeyLine(t, |HeadText(n, row)| + 1, row.answer);
    SearchHere(AnyAnswer, t, |HeadText(n, row)| + 1);
  }

  /** The text after an option mark, up to the next line, collapses to the option. */
  lemma TextOfOption(t: string, i: nat, key: string, text: string, end: nat)
    requires LineAt(t, i, OptionLine(key, text)) && IsKey(key) && IsCollapsed(text)
    requires end == (if i + 3 + |text| < |t| then i + 4 + |text| else |t|)
    ensures Collapse(t[i + 3..end]) == text
  {
    var line := OptionLine(key, text);
    var j := i + |line|;
    assert line[3..] == text;
    assert t[i + 3..j] == t[i..j][3..] == text;
    if j < |t| {
      assert t[j] == '\n';
      assert t[i + 3..end] == text + "\n";
      CollapseLine(text, "\n");
    } else {
      assert t[i + 3..end] == text + "";
      CollapseLine(text, "");
    }
  }

  /** Each line is an option line; their marks, when the first line starts at `i`. */
  predicate OptionLines(lines: seq<string>, keys: string, texts: seq<string>) {
    |lines| == |keys| == |texts| &&
    forall k :: 0 <= k < |lines| ==>
      lines[k] == OptionLine([keys[k]], texts[k]) && keys[k] in "ABCD" && IsCollapsed(texts[k])
  }

  function OptionMarks(i: nat, lines: seq<string>, keys: string): seq<Match>
    requires |lines| == |keys|
    decreases |lines|
  {
    if lines == [] then []
    else [Match(i, i + 3, [keys[0]])] + OptionMarks(i + |lines[0]| + 1, lines[1..], keys[1..])
  }

  lemma {:induction false} MarksOfOptions(t: string, i: nat, lines: seq<string>, keys: string, texts: seq<string>)
    requires LinesAt(t, i, lines) && i + |Join(lines, "\n")| == |t|
    requires OptionLines(lines, keys, texts)
    ensures FindAll(OptionMark, t, i) == OptionMarks(i, lines, keys)
    decreases |lines|
  {
    hide TextAt, LineAt, OptionLine, OneLiners, FindAll, MatchAt, Anchored, OptionMark;
    FirstLine(t, i, lines);
    AllAnchored(t);
    var m := Match(i, i + 3, [keys[0]]);
    assert lines[0] == OptionLine([keys[0]], texts[0]);
    OptionLength([keys[0]], texts[0]);
    MarkOnOptionLine(t, i, [keys[0]], texts[0]);
    NextMarks(OptionMark, t, i, lines, m);
    if |lines| > 1 {
      assert OptionLines(lines[1..], keys[1..], texts[1..]);
      MarksOfOptions(t, i + |lines[0]| + 1, lines[1..], keys[1..], texts[1..]);
    }
  }

  lemma NextMarks(p: Pattern, t: string, i: nat, lines: seq<string>, m: Match)
    requires LinesAt(t, i, lines) && i + |Join(lines, "\n")| == |t| && Anchored(p, t)
    requires MatchAt(p, t, i) == Some(m) && m.end <= i + |lines[0]|
    ensures |lines| == 1 ==> FindAll(p, t, i) == [m]
    ensures |lines| > 1 ==> i + |lines[0]| < |t|
    ensures |lines| > 1 ==> FindAll(p, t, i) == [m] + FindAll(p, t, i + |lines[0]| + 1)
  {
    FirstLine(t, i, lines);
    TakeLine(p, t, i, lines[0], m);
  }

  lemma OptionLength(key: string, text: string)
    requires |key| == 1
    ensures |OptionLine(key, text)| == 3 + |text|
  {
  }

  /** The option cut at the k-th mark is the k-th option printed. */
  lemma {:induction false} TextAtMark(t: string, i: nat, lines: seq<string>, keys: string, texts: seq<string>, k: nat)
    requires LinesAt(t, i, lines) && i + |Join(lines, "\n")| == |t|
    requires OptionLines(lines, keys, texts) && k < |lines|
    ensures var ms := OptionMarks(i, lines, keys);
      && |ms| == |lines| && ms[k].group == [keys[k]]
      && ms[k].end <= (if k + 1 < |ms| then ms[k + 1].start else |t|) <= |t|
      && Collapse(t[ms[k].end..if k + 1 < |ms| then ms[k + 1].start else |t|]) == texts[k]
    decreases |lines|
  {
    hide TextAt, LineAt, OptionLine, Collapse, OneLiners;
    FirstLine(t, i, lines);
    assert lines[0] == OptionLine([keys[0]], texts[0]);
    OptionLength([keys[0]], texts[0]);
    var rest := OptionMarks(i + |lines[0]| + 1, lines[1..], keys[1..]);
    if k == 0 {
      TextOfOption(t, i, [keys[0]], texts[0], if |lines| > 1 then i + |lines[0]| + 1 else |t|);
      if |lines| > 1 {
        assert rest[0].start == i + |lines[0]| + 1;
      }
      MarksLength(i, lines, keys);
    } else {
      assert OptionLines(lines[1..], keys[1..], texts[1..]);
      TextAtMark(t, i + |lines[0]| + 1, lines[1..], keys[1..], texts[1..], k - 1);
      assert OptionMarks(i, lines, keys)[1..] == rest;
    }
  }

  lemma {:induction false} MarksLength(i: nat, lines: seq<string>, keys: string)
    requires |lines| == |keys|
    ensures |OptionMarks(i, lines, keys)| == |lines|
    decreases |lines|
  {
    if lines != [] { MarksLength(i + |lines[0]| + 1, lines[1..], keys[1..]); }
  }

  lemma OptionsOfBlock(t: string, i: nat, lines: seq<string>, texts: seq<string>)
    requires LinesAt(t, i, lines) && i + |Join(lines, "\n")| == |t|
    requires OptionLines(lines, "ABCD", texts)
    ensures var ms := FindAll(OptionMark, t, i);
      && |ms| == 4 && ms[0].start == i && Ordered(ms, 0, |t|)
      && OptionMap(t, ms, 4) == map["A" := texts[0], "B" := texts[1], "C" := texts[2], "D" := texts[3]]
  {
    var ms := OptionMarks(i, lines, "ABCD");
    MarksOfOptions(t, i, lines, "ABCD", texts);
    TextAtMark(t, i, lines, "ABCD", texts, 0);
    TextAtMark(t, i, lines, "ABCD", texts, 1);
    TextAtMark(t, i, lines, "ABCD", texts, 2);
    TextAtMark(t, i, lines, "ABCD", texts, 3);
    FindAllOrdered(OptionMark, t, i, 0);
    MapOfFour(t, ms, texts);
  }

  lemma MapOfFour(t: string, ms: seq<Match>, texts: seq<string>)
    requires |ms| == |texts| == 4 && Ordered(ms, 0, |t|)
    requires ms[0].group == "A" && ms[1].group == "B" && ms[2].group == "C" && ms[3].group == "D"
    requires OptionText(t, ms, 0) == texts[0] && OptionText(t, ms, 1) == texts[1]
    requires OptionText(t, ms, 2) == texts[2] && OptionText(t, ms, 3) == texts[3]
    ensures OptionMap(t, ms, 4) == map["A" := texts[0], "B" := texts[1], "C" := texts[2], "D" := texts[3]]
  {
    assert OptionMap(t, ms, 1) == map["A" := texts[0]];
    assert OptionMap(t, ms, 2) == map["A" := texts[0], "B" := texts[1]];
    assert OptionMap(t, ms, 3) == map["A" := texts[0], "B" := texts[1], "C" := texts[2]];
  }

  lemma StemLineCollapsed(n: nat, stem: string)
    requires IsCollapsed(stem)
    ensures IsCollapsed(StemLine(n, stem)) && OneLine(StemLine(n, stem))
  {
    var num, s := Numeral(n), StemLine(n, stem);
    assert |s| == |num| + 2 + |stem|;
    forall k | 0 <= k < |s|
      ensures s[k] == if k < |num| then num[k] else if k < |num| + 2 then ". "[k - |num|] else stem[k - |num| - 2]
    {
    }
  }

  lemma NumberStripped(n: nat, stem: string)
    requires IsCollapsed(stem)
    ensures StripNumber(StemLine(n, stem)) == stem
  {
    var s := StemLine(n, stem);
    StemLineCollapsed(n, stem);
    assert s[0..|s|] == s;
    StemPrefix(s, 0, n, stem);
    assert s[|Numeral(n)| + 2..] == stem;
  }

  lemma CollapsedFirstLine(t: string, s: string)
    requires LineAt(t, 0, s) && |s| < |t| && IsCollapsed(s)
    ensures Collapse(t[..|s| + 1]) == s
  {
    assert t[..|s| + 1] == t[0..|s|] + [t[|s|]] == s + "\n";
    CollapseLine(s, "\n");
  }

  function OptionTexts(row: Row): seq<string>
    requires Printable(row)
  {
    [row.options["A"], row.options["B"], row.options["C"], row.options["D"]]
  }

  lemma HeadOptions(n: nat, row: Row)
    requires Printable(row)
    ensures OptionLines(HeadLines(n, row)[1..], "ABCD", OptionTexts(row))
  {
    assert "A" in LABELS && "B" in LABELS && "C" in LABELS && "D" in LABELS;
    var lines := HeadLines(n, row)[1..];
    assert lines[0] == OptionLine("A", row.options["A"]) && lines[1] == OptionLine("B", row.options["B"]);
    assert lines[2] == OptionLine("C", row.options["C"]) && lines[3] == OptionLine("D", row.options["D"]);
  }

  lemma OptionMapOfTexts(row: Row)
    requires Printable(row)
    ensures var x := OptionTexts(row); row.options == map["A" := x[0], "B" := x[1], "C" := x[2], "D" := x[3]]
  {
  }

  /** The head of a block, as a text of its own: its lines, and where the options start. */
  lemma HeadLayout(n: nat, row: Row)
    requires Printable(row)
    ensures row.Objective? && |HeadLines(n, row)| == 5
    ensures var h := HeadText(n, row); var s := StemLine(n, row.stem);
      && LineAt(h, 0, s) && |s| < |h| && LinesAt(h, |s| + 1, HeadLines(n, row)[1..])
      && |s| + 1 + |Join(HeadLines(n, row)[1..], "\n")| == |h|
  {
    HeadShape(n, row);
    var h := HeadText(n, row);
    assert h[0..|h|] == h;
    FirstLine(h, 0, HeadLines(n, row));
  }

  /** The head of a block gives the options back, and the stem once its number is stripped. */
  lemma MarksOfHead(n: nat, row: Row)
    requires Printable(row)
    ensures var h := HeadText(n, row); var ms := FindAll(OptionMark, h, 0);
      && |ms| == 4 && Ordered(ms, 0, |h|) && OptionMap(h, ms, 4) == row.options
      && StripNumber(Collapse(h[..ms[0].start])) == row.stem
  {
    hide *;
    var h, s := HeadText(n, row), StemLine(n, row.stem);
    HeadLayout(n, row);
    PrintableStem(row);
    SkipStem(h, n, row.stem);
    HeadOptions(n, row);
    OptionsOfBlock(h, |s| + 1, HeadLines(n, row)[1..], OptionTexts(row));
    OptionMapOfTexts(row);
    StemLineCollapsed(n, row.stem);
    CollapsedFirstLine(h, s);
    NumberStripped(n, row.stem);
  }

  lemma PrintableStem(row: Row)
    requires Printable(row)
    ensures IsCollapsed(row.stem) && Trimmed(row.stem)
  {
  }

  lemma SkipStem(t: string, n: nat, stem: string)
    requires LineAt(t, 0, StemLine(n, stem)) && Trimmed(stem) && |StemLine(n, stem)| < |t|
    ensures FindAll(OptionMark, t, 0) == FindAll(OptionMark, t, |StemLine(n, stem)| + 1)
  {
    hide OptionMark, FindAll, Search, MatchAt, StemLine, LineAt;
    AllAnchored(t);
    MarkOnStemLine(t, 0, n, stem);
    PassLine(OptionMark, t, 0, StemLine(n, stem));
  }

  lemma HeadTrimmed(n: nat, row: Row)
    requires Printable(row)
    ensures Trimmed(HeadText(n, row))
  {
    var h, s := HeadText(n, row), StemLine(n, row.stem);
    HeadLayout(n, row);
    StemLineCollapsed(n, row.stem);
    CharsOf(h, 0, s);
    assert h[0] == s[0];
    LastOfJoin(HeadLines(n, row));
    assert "D" in LABELS;
  }

  lemma {:induction false} LastOfJoin(lines: seq<string>)
    requires lines != [] && lines[|lines| - 1] != ""
    ensures var j := Join(lines, "\n"); var l := lines[|lines| - 1]; j != "" && j[|j| - 1] == l[|l| - 1]
  {
    if |lines| > 1 {
      LastOfJoin(lines[1..]);
    }
  }

  lemma CutAtKey(t: string, n: nat, row: Row)
    requires Printable(row) && BlockAt(t, 0, n, row)
    ensures RStrip(t[..|HeadText(n, row)| + 1]) == HeadText(n, row)
  {
    var h := HeadText(n, row);
    assert t[..|h| + 1] == t[0..|h|] + [t[|h|]] == h + "\n";
    hide *;
    HeadTrimmed(n, row);
    BreakIsSpace();
    RStripAfter(h, "\n");
  }

  lemma BreakIsSpace()
    ensures IsSpace('\n')
  {
  }

  /** Whatever follows it, a text that starts with a printed block is parsed as its row. */
  lemma ChunkOfBlock(t: string, n: nat, row: Row)
    requires Printable(row) && BlockAt(t, 0, n, row)
    ensures ChunkRow(t) == Some(row.(number := None))
  {
    AnswerOfBlock(t, n, row);
    CutAtKey(t, n, row);
    MarksOfHead(n, row);
    ChunkOfParts(t, HeadText(n, row), row);
  }

  lemma ChunkOfParts(t: string, h: string, row: Row)
    requires Printable(row) && |h| + 1 <= |t|
    requires Search(AnyAnswer, t, 0) == Some(Match(|h| + 1, |h| + 10, row.answer))
    requires RStrip(t[..|h| + 1]) == h
    requires var ms := FindAll(OptionMark, h, 0);
      && |ms| == 4 && Ordered(ms, 0, |h|) && OptionMap(h, ms, 4) == row.options
      && StripNumber(Collapse(h[..ms[0].start])) == row.stem
    ensures ChunkRow(t) == Some(row.(number := None))
  {
    assert forall l :: l in LABELS ==> row.options[l] != "";
  }

  // ----------------------------------------------- the whole text, block by block

  /** Length of a printed block with the line break after it. */
  function BlockLength(n: nat, row: Row): nat
    requires Printable(row)
  {
    |Join(RowLines(n, row), "\n")| + 1
  }

  lemma BlockLengths(n: nat, row: Row)
    requires Printable(row)
    ensures BlockLength(n, row) == |HeadText(n, row)| + 11
  {
    HeadAndKey(n, row);
    JoinAppend(HeadLines(n, row), [KeyLine(row.answer)], "\n");
  }

  /** The printed questions from the n-th on stand at `i`; the line after them starts at `end`. */
  predicate PaperAt(t: string, i: nat, rows: seq<Row>, n: nat, end: nat)
    requires AllPrintable(rows)
    decreases |rows|
  {
    if rows == [] then i == end
    else i <= |t| && BlockAt(t, i, n, rows[0]) && PaperAt(t, i + BlockLength(n, rows[0]), rows[1..], n + 1, end)
  }

  lemma {:induction false} PaperOfLines(t: string, i: nat, rows: seq<Row>, n: nat)
    requires AllPrintable(rows) && rows != []
    requires LinesAt(t, i, PaperLines(rows, n))
    ensures PaperAt(t, i, rows, n, i + |Join(PaperLines(rows, n), "\n")| + 1)
    decreases |rows|
  {
    hide RowLines, Join, LinesAt, BlockAt, Printable;
    var b := PaperLines(rows[1..], n + 1);
    if |rows| == 1 {
      LastBlock(t, i, n, rows[0], b);
    } else {
      MoreLines(rows, n);
      MoreLines(rows[1..], n + 1);
      SplitLines2(t, i, RowLines(n, rows[0]), b);
      BlockOfLines(t, i, n, rows[0]);
      PaperOfLines(t, i + BlockLength(n, rows[0]), rows[1..], n + 1);
    }
  }

  lemma MoreLines(rows: seq<Row>, n: nat)
    requires AllPrintable(rows) && rows != []
    ensures PaperLines(rows, n) != [] && RowLines(n, rows[0]) != []
  {
    assert |RowLines(n, rows[0])| == 6;
  }

  lemma LastBlock(t: string, i: nat, n: nat, row: Row, rest: seq<string>)
    requires Printable(row) && rest == [] && LinesAt(t, i, RowLines(n, row) + rest)
    ensures BlockAt(t, i, n, row)
    ensures |Join(RowLines(n, row) + rest, "\n")| + 1 == BlockLength(n, row)
  {
    assert RowLines(n, row) + rest == RowLines(n, row);
    BlockOfLines(t, i, n, row);
  }

  lemma SplitLines2(t: string, i: nat, a: seq<string>, b: seq<string>)
    requires a != [] && b != [] && LinesAt(t, i, a + b)
    ensures LinesAt(t, i, a) && i + |Join(a, "\n")| < |t|
    ensures LinesAt(t, i + |Join(a, "\n")| + 1, b)
    ensures |Join(a + b, "\n")| == |Join(a, "\n")| + 1 + |Join(b, "\n")|
  {
    LinesPrefix(t, i, a, b);
    JoinAppend(a, b, "\n");
  }

  lemma {:induction false} PaperEnd(t: string, i: nat, rows: seq<Row>, n: nat, end: nat)
    requires AllPrintable(rows) && PaperAt(t, i, rows, n, end) && i <= |t| + 1
    ensures i <= end <= |t| + 1
    decreases |rows|
  {
    hide BlockAt, BlockLength, HeadText, Printable;
    if rows != [] {
      BlockParts(t, i, n, rows[0]);
      BlockLengths(n, rows[0]);
      PaperEnd(t, i + BlockLength(n, rows[0]), rows[1..], n + 1, end);
    }
  }

  // ------------------------------------------------------- the end of the objective part

  lemma KeyLineLength(key: string)
    requires IsKey(key)
    ensures |KeyLine(key)| == 9
  {
  }

  lemma NoTheoryInBlock(t: string, i: nat, n: nat, row: Row)
    requires Printable(row) && BlockAt(t, i, n, row)
    ensures i + BlockLength(n, row) <= |t| + 1
    ensures i + BlockLength(n, row) <= |t| ==> Search(TheoryMark, t, i) == Search(TheoryMark, t, i + BlockLength(n, row))
    ensures i + BlockLength(n, row) == |t| + 1 ==> Search(TheoryMark, t, i).None?
  {
    hide *;
    var k := i + |HeadText(n, row)| + 1;
    BlockLengths(n, row);
    BlockParts(t, i, n, row);
    AllAnchored(t);
    QuietHead(t, i, n, row);
    PassHead(TheoryMark, t, i, n, row);
    OthersOnKeyLine(t, k, row.answer);
    KeyLineLength(row.answer);
    PassLine(TheoryMark, t, k, KeyLine(row.answer));
  }

  lemma {:induction false} NoTheoryInPaper(t: string, i: nat, rows: seq<Row>, n: nat, end: nat)
    requires AllPrintable(rows) && PaperAt(t, i, rows, n, end) && i <= |t|
    ensures i <= end <= |t| + 1
    ensures end <= |t| ==> Search(TheoryMark, t, i) == Search(TheoryMark, t, end)
    ensures end == |t| + 1 ==> Search(TheoryMark, t, i).None?
    decreases |rows|
  {
    hide BlockAt, BlockLength, Search;
    if rows != [] {
      PaperEnd(t, i, rows, n, end);
      NoTheoryInBlock(t, i, n, rows[0]);
      var j := i + BlockLength(n, rows[0]);
      PaperEnd(t, j, rows[1..], n + 1, end);
      if j <= |t| {
        NoTheoryInPaper(t, j, rows[1..], n + 1, end);
      } else if rows[1..] == [] {
      } else {
        assert false;
      }
    }
  }

  // ------------------------------------------------------ blocks cut at their answers

  /** The answer markers of a paper: one per key line.  The last one also takes the line
      break that ends the text, when there is one. */
  function KeyMarks(t: string, i: nat, rows: seq<Row>, n: nat): seq<Match>
    requires AllPrintable(rows)
    decreases |rows|
  {
    if rows == [] then []
    else
      var k := i + |HeadText(n, rows[0])| + 1;
      [Match(k, if k + 10 == |t| then |t| else k + 9, rows[0].answer)]
      + KeyMarks(t, i + BlockLength(n, rows[0]), rows[1..], n + 1)
  }

  /** The character after the line break of a block starts the next block. */
  lemma NextIsDigit(t: string, i: nat, rows: seq<Row>, n: nat, end: nat)
    requires AllPrintable(rows) && PaperAt(t, i, rows, n, end) && |t| <= end && i < |t|
    ensures IsDigit(t[i])
  {
    hide Join, LinesAt, LineAt;
    if rows != [] {
      var h := HeadLines(n, rows[0]);
      BlockParts(t, i, n, rows[0]);
      FirstLine(t, i, h);
      PrintableStem(rows[0]);
      StemPrefix(t, i, n, rows[0].stem);
    }
  }

  lemma MarkOfBlock(t: string, i: nat, n: nat, row: Row)
    requires Printable(row) && BlockAt(t, i, n, row)
    requires var j := i + BlockLength(n, row); j < |t| ==> IsDigit(t[j])
    ensures var k := i + |HeadText(n, row)| + 1; var m := Match(k, if k + 10 == |t| then |t| else k + 9, row.answer);
      FindAll(AnswerLine, t, i)
      == [m] + (if i + BlockLength(n, row) < |t| then FindAll(AnswerLine, t, i + BlockLength(n, row)) else [])
  {
    hide *;
    var k := i + |HeadText(n, row)| + 1;
    BlockLengths(n, row);
    BlockParts(t, i, n, row);
    var m := Match(k, if k + 10 == |t| then |t| else k + 9, row.answer);
    AllAnchored(t);
    QuietHead(t, i, n, row);
    PassHead(AnswerLine, t, i, n, row);
    KeyLineLength(row.answer);
    DigitIsPlain(t, i + BlockLength(n, row));
    AnswerLineOnKeyLine(t, k, row.answer);
    if k + 10 == |t| {
      NothingAtEnd(t);
      LastMatch(AnswerLine, t, k, m);
    } else {
      TakeLine(AnswerLine, t, k, KeyLine(row.answer), m);
    }
  }

  lemma DigitIsPlain(t: string, j: nat)
    requires j < |t| ==> IsDigit(t[j])
    ensures j < |t| ==> !IsSpace(t[j]) && t[j] !in ")."
  {
  }

  lemma LastMatch(p: Pattern, t: string, i: nat, m: Match)
    requires i <= |t| && MatchAt(p, t, i) == Some(m) && m.end == |t| && MatchAt(p, t, |t|).None?
    ensures FindAll(p, t, i) == [m]
  {
    SearchHere(p, t, i);
  }

  lemma NextInText(t: string, i: nat, rows: seq<Row>, n: nat, end: nat)
    requires AllPrintable(rows) && rows != [] && PaperAt(t, i, rows, n, end)
    ensures i < |t|
  {
    hide BlockAt, Printable;
    BlockParts(t, i, n, rows[0]);
  }

  lemma {:induction false} MarksOfPaper(t: string, i: nat, rows: seq<Row>, n: nat, end: nat)
    requires AllPrintable(rows) && rows != [] && PaperAt(t, i, rows, n, end) && |t| <= end && i <= |t|
    ensures FindAll(AnswerLine, t, i) == KeyMarks(t, i, rows, n)
    decreases |rows|
  {
    hide BlockAt, BlockLength, FindAll, HeadText, Printable, PaperAt;
    var j := i + BlockLength(n, rows[0]);
    AfterBlock(t, i, rows, n, end);
    if j < |t| {
      NextIsDigit(t, j, rows[1..], n + 1, end);
    }
    MarkOfBlock(t, i, n, rows[0]);
    if rows[1..] != [] {
      NextInText(t, j, rows[1..], n + 1, end);
      MarksOfPaper(t, j, rows[1..], n + 1, end);
    }
  }

  // ---------------------------------------------------------- one terminated block

  lemma NumbersOfHead(n: nat, row: Row)
    requires Printable(row)
    ensures FindAll(NumberedLine, HeadText(n, row), 0) == [Match(0, |Numeral(n)| + 2, Numeral(n))]
  {
    hide *;
    var h, s := HeadText(n, row), StemLine(n, row.stem);
    var m := Match(0, |Numeral(n)| + 2, Numeral(n));
    HeadLayout(n, row);
    PrintableStem(row);
    AllAnchored(h);
    NumberedOnStemLine(h, 0, n, row.stem);
    StemLineLength(n, row.stem);
    TakeLine(NumberedLine, h, 0, s, m);
    HeadUnnumbered(n, row);
    UnnumberedQuiet(h, |s| + 1, HeadLines(n, row)[1..]);
    PassLines(NumberedLine, h, |s| + 1, HeadLines(n, row)[1..]);
  }

  lemma StemLineLength(n: nat, stem: string)
    ensures |StemLine(n, stem)| == |Numeral(n)| + 2 + |stem|
  {
  }

  lemma HeadUnnumbered(n: nat, row: Row)
    requires Printable(row)
    ensures |HeadLines(n, row)| == 5
    ensures forall k :: 0 <= k < 4 ==> Unnumbered(HeadLines(n, row)[1..][k])
  {
    HeadShape(n, row);
  }

  /** The head with an answer line put back is the block again. */
  lemma BlockRestored(n: nat, row: Row)
    requires Printable(row)
    ensures BlockAt(HeadText(n, row) + "\nAnswer: " + row.answer, 0, n, row)
  {
    hide HeadLines, Join, OneLine;
    var h := HeadText(n, row);
    var t := h + "\nAnswer: " + row.answer;
    HeadShape(n, row);
    HeadUnnumbered(n, row);
    assert t == h + ("\n" + KeyLine(row.answer));
    assert t[0..|h|] == h && t[|h|] == '\n';
    assert t[|h| + 1..] == KeyLine(row.answer);
    assert t[|h| + 1..|h| + 1 + |KeyLine(row.answer)|] == KeyLine(row.answer);
    KeyOneLine(row.answer);
  }

  lemma KeyOneLine(key: string)
    requires IsKey(key)
    ensures OneLine(KeyLine(key))
  {
  }

  lemma TerminatedBlock(t: string, i: nat, n: nat, row: Row, previousEnd: nat, marker: Match)
    requires Printable(row) && BlockAt(t, i, n, row)
    requires previousEnd == i || (previousEnd + 1 == i && t[previousEnd] == '\n')
    requires marker.start == i + |HeadText(n, row)| + 1 && marker.group == row.answer
    ensures TerminatedRow(t, previousEnd, marker) == [row.(number := Some(n))]
  {
    hide *;
    var h := HeadText(n, row);
    BlockParts(t, i, n, row);
    StripBlock(t, i, n, row, previousEnd);
    NumbersOfHead(n, row);
    BlockRestored(n, row);
    ChunkOfBlock(h + "\nAnswer: " + row.answer, n, row);
    NumeralRoundTrip(n);
    TerminatedParts(t, previousEnd, marker, n, row);
  }

  lemma StripBlock(t: string, i: nat, n: nat, row: Row, previousEnd: nat)
    requires Printable(row) && BlockAt(t, i, n, row)
    requires previousEnd == i || (previousEnd + 1 == i && t[previousEnd] == '\n')
    ensures Strip(t[previousEnd..i + |HeadText(n, row)| + 1]) == HeadText(n, row)
  {
    hide HeadText, Strip, HeadLines;
    var h := HeadText(n, row);
    var k := i + |h| + 1;
    HeadTrimmed(n, row);
    HeadStands(t, i, n, row);
    var v := if previousEnd == i then "" else "\n";
    assert t[previousEnd..i] == v;
    assert t[i + |h|..k] == [t[i + |h|]] == "\n";
    assert t[previousEnd..k] == t[previousEnd..i] + t[i..i + |h|] + t[i + |h|..k];
    StripAround(v, h, "\n");
  }

  lemma HeadStands(t: string, i: nat, n: nat, row: Row)
    requires Printable(row) && BlockAt(t, i, n, row)
    ensures i + |HeadText(n, row)| < |t| && t[i..i + |HeadText(n, row)|] == HeadText(n, row)
    ensures t[i + |HeadText(n, row)|] == '\n'
  {
    hide HeadLines, Join;
  }

  lemma TerminatedParts(t: string, previousEnd: nat, marker: Match, n: nat, row: Row)
    requires row.Objective? && previousEnd <= marker.start <= |t|
    requires FindAll(NumberedLine, Strip(t[previousEnd..marker.start]), 0) == [Match(0, |Numeral(n)| + 2, Numeral(n))]
    requires ChunkRow(Strip(t[previousEnd..marker.start]) + "\nAnswer: " + marker.group) == Some(row.(number := None))
    requires NumeralValue(Numeral(n)) == n
    ensures TerminatedRow(t, previousEnd, marker) == [row.(number := Some(n))]
  {
    hide FindAll, Strip, ChunkRow, Numeral, NumeralValue;
    var chunk := Strip(t[previousEnd..marker.start]);
    assert chunk[0..] == chunk;
  }

  function NumberRows(rows: seq<Row>, n: nat): seq<Row>
    requires AllPrintable(rows)
  {
    if rows == [] then [] else [rows[0].(number := Some(n))] + NumberRows(rows[1..], n + 1)
  }

  /** Where the text of the next block starts to be read: at its first character, or at
      the line break before it. */
  predicate ReadsFrom(t: string, e: nat, i: nat) {
    e == i || (e + 1 == i <= |t| && t[e] == '\n')
  }

  function PreviousEnd(all: seq<Match>, j: nat): nat
    requires j <= |all|
  {
    if j == 0 then 0 else all[j - 1].end
  }

  /** From the j-th marker on, the rows are those printed from position `i` on. */
  lemma {:induction false} RowsOfPaper(t: string, all: seq<Match>, j: nat, i: nat, rows: seq<Row>, n: nat, end: nat)
    requires AllPrintable(rows) && PaperAt(t, i, rows, n, end) && |t| <= end && (rows != [] ==> i <= |t|)
    requires Ordered(all, 0, |t|) && j <= |all| && all[j..] == KeyMarks(t, i, rows, n)
    requires rows != [] ==> ReadsFrom(t, PreviousEnd(all, j), i)
    ensures RowsFromMarkers(t, all, j) == NumberRows(rows, n)
    decreases |rows|
  {
    hide BlockAt, BlockLength, TerminatedRow, HeadText, Ordered, Printable, RowsFromMarkers, ReadsFrom;
    if rows == [] {
      NoMarkers(t, all, j);
    } else {
      var row := rows[0];
      var next := i + BlockLength(n, row);
      assert all[j] == all[j..][0] && all[j + 1..] == all[j..][1..];
      OneMarker(t, all, j, i, n, row);
      if rows[1..] != [] {
        BlockParts(t, next, n + 1, rows[1..][0]);
        BlockLengths(n, row);
        ReadsNext(t, i, n, row, all[j].end);
      }
      RowsOfPaper(t, all, j + 1, next, rows[1..], n + 1, end);
    }
  }

  lemma ReadsNext(t: string, i: nat, n: nat, row: Row, e: nat)
    requires Printable(row) && BlockAt(t, i, n, row) && i + BlockLength(n, row) < |t|
    requires e == i + |HeadText(n, row)| + 10
    ensures ReadsFrom(t, e, i + BlockLength(n, row))
  {
    hide HeadText, BlockAt, BlockLength, Printable;
    BlockLengths(n, row);
    LineBreakAfter(t, i, n, row);
  }

  lemma OneMarker(t: string, all: seq<Match>, j: nat, i: nat, n: nat, row: Row)
    requires Ordered(all, 0, |t|) && j < |all| && Printable(row) && BlockAt(t, i, n, row)
    requires ReadsFrom(t, PreviousEnd(all, j), i)
    requires all[j].start == i + |HeadText(n, row)| + 1 && all[j].group == row.answer
    ensures row.Objective?
    ensures RowsFromMarkers(t, all, j) == [row.(number := Some(n))] + RowsFromMarkers(t, all, j + 1)
  {
    hide TerminatedRow, Ordered, BlockAt, HeadText, Printable;
    BlockParts(t, i, n, row);
    OrderedAt(all, 0, |t|, j);
    TerminatedBlock(t, i, n, row, PreviousEnd(all, j), all[j]);
  }

  lemma NoMarkers(t: string, all: seq<Match>, j: nat)
    requires Ordered(all, 0, |t|) && j == |all|
    ensures RowsFromMarkers(t, all, j) == []
  {
  }

  lemma LineBreakAfter(t: string, i: nat, n: nat, row: Row)
    requires Printable(row) && BlockAt(t, i, n, row) && i + BlockLength(n, row) <= |t|
    ensures t[i + BlockLength(n, row) - 1] == '\n'
  {
    hide Join, HeadLines, RowLines;
    BlockLengths(n, row);
    KeyLineLength(row.answer);
  }

  lemma TerminatedPaper(t: string, rows: seq<Row>, end: nat)
    requires AllPrintable(rows) && PaperAt(t, 0, rows, 1, end) && |t| <= end
    ensures TerminatedObjectives(t) == NumberRows(rows, 1)
  {
    hide BlockAt, MatchAt;
    var all := FindAll(AnswerLine, t, 0);
    FindAllOrdered(AnswerLine, t, 0, 0);
    if rows == [] {
      NothingAtEnd(t);
    } else {
      MarksOfPaper(t, 0, rows, 1, end);
    }
    RowsOfPaper(t, all, 0, 0, rows, 1, end);
  }

  // --------------------------------------------------------- blocks cut at their starts

  /** The question starts of a paper: only stems with an ASCII capital first have one. */
  function StartMarks(t: string, i: nat, rows: seq<Row>, n: nat): seq<Match>
    requires AllPrintable(rows)
    decreases |rows|
  {
    if rows == [] then []
    else
      (if IsUpper(rows[0].stem[0]) then [Match(i, i + |Numeral(n)| + 2, Numeral(n))] else [])
      + StartMarks(t, i + BlockLength(n, rows[0]), rows[1..], n + 1)
  }

  lemma StartOfBlock(t: string, i: nat, n: nat, row: Row)
    requires Printable(row) && BlockAt(t, i, n, row)
    ensures row.Objective? && row.stem != ""
    ensures FindAll(QuestionStart, t, i)
         == (if IsUpper(row.stem[0]) then [Match(i, i + |Numeral(n)| + 2, Numeral(n))] else [])
          + (if i + BlockLength(n, row) <= |t| then FindAll(QuestionStart, t, i + BlockLength(n, row)) else [])
  {
    hide *;
    var k := i + |HeadText(n, row)| + 1;
    BlockLengths(n, row);
    BlockParts(t, i, n, row);
    PrintableStem(row);
    TrimmedNotEmpty(row.stem);
    AllAnchored(t);
    var head := HeadLines(n, row);
    FirstLine(t, i, head);
    HeadFirst(n, row);
    StemLineLength(n, row.stem);
    QuestionOnStemLine(t, i, n, row.stem);
    var s := StemLine(n, row.stem);
    if IsUpper(row.stem[0]) {
      TakeLine(QuestionStart, t, i, s, Match(i, i + |Numeral(n)| + 2, Numeral(n)));
    } else {
      PassLine(QuestionStart, t, i, s);
    }
    HeadUnnumbered(n, row);
    UnnumberedQuiet(t, i + |s| + 1, head[1..]);
    PassLines(QuestionStart, t, i + |s| + 1, head[1..]);
    OthersOnKeyLine(t, k, row.answer);
    KeyLineLength(row.answer);
    PassLine(QuestionStart, t, k, KeyLine(row.answer));
  }

  lemma TrimmedNotEmpty(s: string)
    requires Trimmed(s)
    ensures s != ""
  {
  }

  /** The head of a block starts with its stem line, and goes on with the four option lines. */
  lemma HeadFirst(n: nat, row: Row)
    requires Printable(row)
    ensures |HeadLines(n, row)| == 5 && HeadLines(n, row)[0] == StemLine(n, row.stem)
    ensures |HeadText(n, row)| == |StemLine(n, row.stem)| + 1 + |Join(HeadLines(n, row)[1..], "\n")|
  {
    hide StemLine, OptionLine;
  }

  lemma {:induction false} StartsOfPaper(t: string, i: nat, rows: seq<Row>, n: nat, end: nat)
    requires AllPrintable(rows) && PaperAt(t, i, rows, n, end) && |t| <= end && i <= |t|
    ensures FindAll(QuestionStart, t, i) == StartMarks(t, i, rows, n)
    decreases |rows|
  {
    hide BlockAt, BlockLength, FindAll, HeadText, MatchAt, Printable, Numeral;
    if rows == [] {
      NothingAtEnd(t);
      NothingFound(QuestionStart, t);
    } else {
      var j := i + BlockLength(n, rows[0]);
      StartOfBlock(t, i, n, rows[0]);
      AfterBlock(t, i, rows, n, end);
      if j <= |t| {
        StartsOfPaper(t, j, rows[1..], n + 1, end);
      }
    }
  }

  /** The next block starts in the text, or there is none. */
  lemma AfterBlock(t: string, i: nat, rows: seq<Row>, n: nat, end: nat)
    requires AllPrintable(rows) && rows != [] && PaperAt(t, i, rows, n, end) && i <= |t|
    ensures BlockAt(t, i, n, rows[0]) && i + BlockLength(n, rows[0]) <= |t| + 1
    ensures PaperAt(t, i + BlockLength(n, rows[0]), rows[1..], n + 1, end)
    ensures i + BlockLength(n, rows[0]) == |t| + 1 ==> rows[1..] == []
    ensures rows[1..] == [] ==> i + BlockLength(n, rows[0]) == end
  {
    hide BlockAt, BlockLength, HeadText, Printable;
    BlockLengths(n, rows[0]);
    BlockParts(t, i, n, rows[0]);
  }

  lemma NothingFound(p: Pattern, t: string)
    requires MatchAt(p, t, |t|).None?
    ensures FindAll(p, t, |t|) == []
  {
  }

  /** The numbered rows whose stem starts with an ASCII capital. */
  function CapitalRows(rows: seq<Row>, n: nat): seq<Row>
    requires AllPrintable(rows)
  {
    if rows == [] then []
    else
      (if IsUpper(rows[0].stem[0]) then [rows[0].(number := Some(n))] else []) + CapitalRows(rows[1..], n + 1)
  }

  /** A text that stands in a piece of `t` stands there in the piece. */
  lemma TextShift(t: string, i: nat, end: nat, k: nat, s: string)
    requires i <= k && k + |s| <= end <= |t| && TextAt(t, k, s)
    ensures TextAt(t[i..end], k - i, s)
  {
    var u := t[i..end];
    var a, b := u[k - i..k - i + |s|], t[k..k + |s|];
    forall m | 0 <= m < |s| ensures a[m] == b[m] {
      assert a[m] == u[k - i + m] == t[i + (k - i + m)] && b[m] == t[k + m];
    }
    assert a == b;
    if k > i { assert u[k - i - 1] == t[k - 1]; }
    if k + |s| < end { assert u[k - i + |s|] == t[k + |s|]; }
  }

  lemma BlockShift(t: string, i: nat, n: nat, row: Row, end: nat)
    requires Printable(row) && BlockAt(t, i, n, row) && i + BlockLength(n, row) - 1 <= end <= |t|
    ensures BlockAt(t[i..end], 0, n, row)
  {
    hide HeadLines, Join, RowLines, TextAt, Printable, OneLine, OneLiners, KeyLine;
    BlockLengths(n, row);
    BlockParts(t, i, n, row);
    KeyLineLength(row.answer);
    var h := HeadText(n, row);
    TextShift(t, i, end, i, h);
    TextShift(t, i, end, i + |h| + 1, KeyLine(row.answer));
  }

  lemma {:induction false} StartsAfter(t: string, i: nat, rows: seq<Row>, n: nat)
    requires AllPrintable(rows)
    ensures var ms := StartMarks(t, i, rows, n); ms != [] ==> ms[0].start >= i
    decreases |rows|
  {
    hide BlockLength, Numeral;
    if rows != [] {
      StartsAfter(t, i + BlockLength(n, rows[0]), rows[1..], n + 1);
    }
  }

  /** A block that a question start opens gives its row back, wherever the cut after it is. */
  lemma OneStart(t: string, all: seq<Match>, j: nat, i: nat, n: nat, row: Row)
    requires Ordered(all, 0, |t|) && j < |all| && Printable(row) && BlockAt(t, i, n, row)
    requires all[j].start == i && all[j].group == Numeral(n)
    requires j + 1 < |all| ==> all[j + 1].start >= i + BlockLength(n, row) - 1
    ensures row.Objective?
    ensures RowsFromStarts(t, all, j) == [row.(number := Some(n))] + RowsFromStarts(t, all, j + 1)
  {
    hide Ordered, BlockAt, BlockLength, HeadText, Printable, ChunkRow, Numeral, NumeralValue;
    var end := NextStart(t, all, j);
    BlockParts(t, i, n, row);
    BlockLengths(n, row);
    BlockShift(t, i, n, row, end);
    ChunkOfBlock(t[i..end], n, row);
    NumeralRoundTrip(n);
  }

  lemma {:induction false} RowsOfStarts(t: string, all: seq<Match>, j: nat, i: nat, rows: seq<Row>, n: nat, end: nat)
    requires AllPrintable(rows) && PaperAt(t, i, rows, n, end) && (rows != [] ==> i <= |t|)
    requires Ordered(all, 0, |t|) && j <= |all| && all[j..] == StartMarks(t, i, rows, n)
    ensures RowsFromStarts(t, all, j) == CapitalRows(rows, n)
    decreases |rows|
  {
    hide Ordered, BlockAt, BlockLength, HeadText, Printable, Numeral, StartRow, NextStart;
    if rows != [] {
      var row := rows[0];
      var next := i + BlockLength(n, row);
      AfterBlock(t, i, rows, n, end);
      StartsAfter(t, next, rows[1..], n + 1);
      PrintableStem(row);
      TrimmedNotEmpty(row.stem);
      if IsUpper(row.stem[0]) {
        assert all[j] == all[j..][0] && all[j + 1..] == all[j..][1..];
        assert j + 1 < |all| ==> all[j + 1] == all[j + 1..][0];
        OneStart(t, all, j, i, n, row);
        RowsOfStarts(t, all, j + 1, next, rows[1..], n + 1, end);
      } else {
        RowsOfStarts(t, all, j, next, rows[1..], n + 1, end);
      }
    }
  }

  lemma NumberedPaper(t: string, rows: seq<Row>, end: nat)
    requires AllPrintable(rows) && PaperAt(t, 0, rows, 1, end) && |t| <= end
    ensures NumberedObjectives(t) == CapitalRows(rows, 1)
  {
    hide BlockAt, MatchAt, Ordered, FindAll, StartMarks, RowsFromStarts;
    FindAllOrdered(QuestionStart, t, 0, 0);
    StartsOfPaper(t, 0, rows, 1, end);
    RowsOfStarts(t, FindAll(QuestionStart, t, 0), 0, 0, rows, 1, end);
  }

  // ------------------------------------------------------------------ the theorems

  /** Objective part of a printed paper: the lines, with a line break when a theory part follows. */
  function ObjectiveText(rows: seq<Row>, theory: string): string
    requires AllPrintable(rows)
  {
    if rows == [] then "" else Join(PaperLines(rows, 1), "\n") + (if theory == "" then "" else "\n")
  }

  lemma {:induction false} PaperOneLiners(rows: seq<Row>, n: nat)
    requires AllPrintable(rows)
    ensures OneLiners(PaperLines(rows, n))
  {
    hide RowLines;
    if rows != [] {
      RowLinesOneLine(n, rows[0]);
      PaperOneLiners(rows[1..], n + 1);
      OneLinersSplit(RowLines(n, rows[0]), PaperLines(rows[1..], n + 1));
    }
  }

  lemma RowLinesOneLine(n: nat, row: Row)
    requires Printable(row)
    ensures OneLiners(RowLines(n, row))
  {
    hide HeadLines;
    HeadShape(n, row);
    HeadAndKey(n, row);
    KeyOneLine(row.answer);
    OneLinersSplit(HeadLines(n, row), [KeyLine(row.answer)]);
  }

  /** The paper stands in its own objective text. */
  lemma ObjectivePaper(rows: seq<Row>, theory: string)
    requires AllPrintable(rows)
    ensures exists end :: |ObjectiveText(rows, theory)| <= end && PaperAt(ObjectiveText(rows, theory), 0, rows, 1, end)
  {
    hide PaperLines, Join;
    var t := ObjectiveText(rows, theory);
    if rows == [] {
      assert PaperAt(t, 0, rows, 1, 0);
    } else {
      var j := Join(PaperLines(rows, 1), "\n");
      PaperOneLiners(rows, 1);
      MoreLines(rows, 1);
      assert t[0..|j|] == j;
      PaperOfLines(t, 0, rows, 1);
    }
  }

  /** The heading found in a text that has it after `front`. */
  lemma HeadingAt(t: string, front: string, theory: string)
    requires t == front + HEADING + "\n" + theory
    requires front == "" || front[|front| - 1] == '\n'
    ensures Search(TheoryMark, t, |front|) == Some(Match(|front|, |front| + 17, ""))
    ensures t[..|front|] == front && t[|front| + 17..] == "\n" + theory
  {
    hide TheoryMark, MatchAt, Search;
    var p := |front|;
    assert t[p..p + 17] == HEADING && t[p + 17] == '\n';
    assert t[..p] == front;
    assert p > 0 ==> t[p - 1] == front[p - 1];
    TheoryOnHeading(t, p);
    SearchHere(TheoryMark, t, p);
  }

  lemma JoinHeading(lines: seq<string>, theory: string)
    requires lines != []
    ensures Join(lines + [HEADING, theory], "\n") == (Join(lines, "\n") + "\n") + HEADING + "\n" + theory
  {
    JoinAppend(lines, [HEADING, theory], "\n");
    assert [HEADING, theory][1..] == [theory];
    assert Join([HEADING, theory], "\n") == HEADING + "\n" + theory;
  }

  lemma HeadingOfPaper(rows: seq<Row>, theory: string)
    requires AllPrintable(rows) && theory != ""
    ensures SplitTheory(PaperText(rows, theory)) == (ObjectiveText(rows, theory), "\n" + theory)
  {
    hide PaperText, Search, MatchAt, ObjectiveText;
    FrontOfPaper(rows, theory);
    HeadingAt(PaperText(rows, theory), ObjectiveText(rows, theory), theory);
    SearchSkipsFront(rows, theory);
  }

  lemma FrontOfPaper(rows: seq<Row>, theory: string)
    requires AllPrintable(rows) && theory != ""
    ensures PaperText(rows, theory) == ObjectiveText(rows, theory) + HEADING + "\n" + theory
    ensures var front := ObjectiveText(rows, theory); front == "" || front[|front| - 1] == '\n'
  {
    hide PaperLines, Join;
    if rows == [] {
      NoLines();
      JoinTwo(HEADING, theory);
      assert "" + HEADING == HEADING;
    } else {
      MoreLines(rows, 1);
      JoinHeading(PaperLines(rows, 1), theory);
    }
  }

  lemma SearchSkipsFront(rows: seq<Row>, theory: string)
    requires AllPrintable(rows) && theory != "" && |ObjectiveText(rows, theory)| <= |PaperText(rows, theory)|
    ensures Search(TheoryMark, PaperText(rows, theory), 0)
         == Search(TheoryMark, PaperText(rows, theory), |ObjectiveText(rows, theory)|)
  {
    hide PaperText, PaperLines, Search, Join, Printable;
    if rows != [] {
      var j := Join(PaperLines(rows, 1), "\n");
      FrontOfPaper(rows, theory);
      assert PaperText(rows, theory) == (j + "\n") + (HEADING + "\n" + theory);
      SkipFront(PaperText(rows, theory), rows, j, HEADING + "\n" + theory);
    }
  }

  lemma SkipFront(t: string, rows: seq<Row>, front: string, rest: string)
    requires AllPrintable(rows) && rows != [] && front == Join(PaperLines(rows, 1), "\n")
    requires t == (front + "\n") + rest
    ensures |front| + 1 <= |t| && Search(TheoryMark, t, 0) == Search(TheoryMark, t, |front| + 1)
  {
    hide PaperLines, Search, Join, OneLiners, PaperAt, TextAt, Printable;
    PaperOneLiners(rows, 1);
    MoreLines(rows, 1);
    FrontStands(t, front, rest);
    PaperOfLines(t, 0, rows, 1);
    NoTheoryInPaper(t, 0, rows, 1, |front| + 1);
  }

  lemma FrontStands(t: string, front: string, rest: string)
    requires t == (front + "\n") + rest
    ensures TextAt(t, 0, front) && |front| < |t|
  {
    assert t[0..|front|] == front && t[|front|] == '\n';
  }

  lemma NoLines()
    ensures PaperLines([], 1) == []
  {
  }

  lemma JoinTwo(a: string, b: string)
    ensures Join([] + [a, b], "\n") == a + "\n" + b
  {
    assert [] + [a, b] == [a, b] && [a, b][1..] == [b];
    assert Join([b], "\n") == b;
  }

  /** A printed paper splits into its objective part and its theory text. */
  lemma SplitPaper(rows: seq<Row>, theory: string)
    requires AllPrintable(rows)
    ensures SplitTheory(PaperText(rows, theory))
         == (ObjectiveText(rows, theory), if theory == "" then "" else "\n" + theory)
  {
    hide PaperLines, Search, Join, OneLiners, MatchAt;
    var t := PaperText(rows, theory);
    var lines := PaperLines(rows, 1);
    if theory == "" {
      assert lines + TheoryLines(theory) == lines;
      if rows == [] {
        EmptyPaper();
      } else {
        PaperOneLiners(rows, 1);
        MoreLines(rows, 1);
        assert t[0..|t|] == t;
        PaperOfLines(t, 0, rows, 1);
        NoTheoryInPaper(t, 0, rows, 1, |t| + 1);
        assert ObjectiveText(rows, theory) == t + "" == t;
      }
    } else {
      HeadingOfPaper(rows, theory);
    }
  }

  lemma EmptyPaper()
    ensures PaperText([], "") == "" && Search(TheoryMark, "", 0).None?
  {
    NothingAtEnd("");
  }

  lemma SplitBreak(s: string)
    ensures SplitLines("\n" + s) == [""] + SplitLines(s)
  {
    var t := "\n" + s;
    assert IsBreak(t[0]) && FirstBreak(t, 0) == 0;
    assert t[..0] == "" && t[1..] == s;
  }

  /** A line break before a theory text does not change its questions. */
  lemma TheoryAfterBreak(theory: string)
    ensures TheoryRows(CollapsedLines("\n" + theory), []) == TheoryRows(CollapsedLines(theory), [])
  {
    hide SplitLines, Collapse;
    SplitBreak(theory);
    EmptyCollapses();
    assert CollapsedLines("\n" + theory) == [Collapse("")] + CollapsedLines(theory);
    assert CollapsedLines("\n" + theory)[1..] == CollapsedLines(theory);
  }

  lemma EmptyCollapses()
    ensures Collapse("") == ""
  {
  }

  /** Print, then parse: the answer-terminated parser gives back exactly the stems, options
      and keys that were printed, numbered from 1 in order, and the questions of the theory
      part.  The theory text may be anything. */
  lemma RoundTrip(rows: seq<Row>, theory: string)
    requires AllPrintable(rows)
    ensures AnswerTerminatedRows(PaperText(rows, theory))
         == NumberRows(rows, 1) + TheoryRows(CollapsedLines(theory), [])
  {
    hide PaperText, TerminatedObjectives, CollapsedLines, TheoryRows, PaperAt, SplitTheory;
    SplitPaper(rows, theory);
    ObjectivePaper(rows, theory);
    var t := ObjectiveText(rows, theory);
    var end :| |t| <= end && PaperAt(t, 0, rows, 1, end);
    TerminatedPaper(t, rows, end);
    if theory != "" {
      TheoryAfterBreak(theory);
    }
  }

  /** The parser that cuts at question starts gives back exactly the questions whose stem
      starts with an ASCII capital, under the same numbers; it drops the others. */
  lemma NumberedParserKeepsCapitals(rows: seq<Row>, theory: string)
    requires AllPrintable(rows)
    ensures NumberedTextRows(PaperText(rows, theory))
         == CapitalRows(rows, 1) + TheoryRows(CollapsedLines(theory), [])
  {
    hide PaperText, NumberedObjectives, CollapsedLines, TheoryRows, PaperAt, SplitTheory;
    SplitPaper(rows, theory);
    ObjectivePaper(rows, theory);
    var t := ObjectiveText(rows, theory);
    var end :| |t| <= end && PaperAt(t, 0, rows, 1, end);
    NumberedPaper(t, rows, end);
    if theory != "" {
      TheoryAfterBreak(theory);
    }
  }

  predicate AllCapitals(rows: seq<Row>)
    requires AllPrintable(rows)
  {
    forall k :: 0 <= k < |rows| ==> IsUpper(rows[k].stem[0])
  }

  lemma {:induction false} CapitalsLength(rows: seq<Row>, n: nat)
    requires AllPrintable(rows)
    ensures |NumberRows(rows, n)| == |rows|
    ensures |CapitalRows(rows, n)| <= |rows|
    ensures |CapitalRows(rows, n)| == |rows| <==> AllCapitals(rows)
    ensures AllCapitals(rows) ==> CapitalRows(rows, n) == NumberRows(rows, n)
  {
    if rows != [] {
      CapitalsLength(rows[1..], n + 1);
      assert AllCapitals(rows) <==> IsUpper(rows[0].stem[0]) && AllCapitals(rows[1..]) by {
        assert forall k :: 1 <= k < |rows| ==> rows[k] == rows[1..][k - 1];
      }
    }
  }

  /** The two parsers agree on a printed paper if and only if every stem starts with an
      ASCII capital. */
  lemma ParsersAgree(rows: seq<Row>, theory: string)
    requires AllPrintable(rows)
    ensures NumberedTextRows(PaperText(rows, theory)) == AnswerTerminatedRows(PaperText(rows, theory))
       <==> AllCapitals(rows)
  {
    hide PaperText, NumberedTextRows, AnswerTerminatedRows, CollapsedLines, TheoryRows;
    RoundTrip(rows, theory);
    NumberedParserKeepsCapitals(rows, theory);
    CapitalsLength(rows, 1);
  }

  /** One such paper: a single question that starts with a small letter. */
  lemma SmallLetterDivides(row: Row)
    requires row.Objective? && row.stem == "x" && row.answer == "A"
    requires row.options == map["A" := "a", "B" := "b", "C" := "c", "D" := "d"]
    ensures AllPrintable([row])
    ensures NumberedTextRows(PaperText([row], "")) != AnswerTerminatedRows(PaperText([row], ""))
  {
    assert Printable(row);
    hide PaperText, NumberedTextRows, AnswerTerminatedRows;
    assert [row][0] == row && !IsUpper('x');
    ParsersAgree([row], "");
  }
}
