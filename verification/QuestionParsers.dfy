/**
  The deterministic question-document parsers.  Each loop of the source is a
  method proved equal to a recursive function; the theorems about the functions
  are in CanonicalText and ParagraphBlocks.
 */
module QuestionParsers {
  import opened Chars
  import opened Markers
  import opened Wrappers

  datatype Row =
    | Objective(stem: string, options: map<string, string>, answer: string, number: Option<nat>)
    | Theory(stem: string)

  const LABELS: seq<string> := ["A", "B", "C", "D"]

  predicate HasFourOptions(options: map<string, string>) {
    forall l :: l in LABELS ==> l in options && options[l] != ""
  }

  // ------------------------------------------------------ one question block

  /** `re.sub(r"^\d+\s*[\).:\-]\s*", "", s)` */
  function StripNumber(s: string): string {
    var d := SkipDigits(s, 0);
    var q := SkipSpaces(s, d);
    if 0 < d && q < |s| && s[q] in ").:-" then s[SkipSpaces(s, q + 1)..] else s
  }

  /** Text of the k-th option of a block: up to the next of the first four marks. */
  function OptionText(block: string, marks: seq<Match>, k: nat): string
    requires k < 4 <= |marks| && Ordered(marks, 0, |block|)
  {
    OrderedAt(marks, 0, |block|, k);
    assert k < 3 ==> marks[k].end <= marks[k + 1].start <= |block| by {
      if k < 3 { OrderedAt(marks, 0, |block|, k + 1); }
    }
    var end := if k < 3 then marks[k + 1].start else |block|;
    Collapse(block[marks[k].end..end])
  }

  function OptionMap(block: string, marks: seq<Match>, n: nat): map<string, string>
    requires n <= 4 <= |marks| && Ordered(marks, 0, |block|)
  {
    if n == 0 then map[]
    else OptionMap(block, marks, n - 1)[marks[n - 1].group := OptionText(block, marks, n - 1)]
  }

  function ChunkRow(chunk: string): (row: Option<Row>)
    ensures row.Some? ==> row.value.Objective? && row.value.stem != "" && HasFourOptions(row.value.options)
  {
    var answer := Search(AnyAnswer, chunk, 0);
    var key := if answer.Some? then answer.value.group else "";
    var block := if answer.Some? then RStrip(chunk[..answer.value.start]) else chunk;
    var marks := FindAll(OptionMark, block, 0);
    FindAllOrdered(OptionMark, block, 0, 0);
    if |marks| < 4 then None
    else
      var options := OptionMap(block, marks, 4);
      var stem := StripNumber(Collapse(block[..marks[0].start]));
      if stem == "" || !HasFourOptions(options) then None
      else Some(Objective(stem, options, key, None))
  }

  method CollectOptions(block: string, marks: seq<Match>) returns (options: map<string, string>)
    requires 4 <= |marks| && Ordered(marks, 0, |block|)
    ensures options == OptionMap(block, marks, 4)
  {
    options := map[];
    for index := 0 to 4
      invariant options == OptionMap(block, marks, index)
    {
      options := options[marks[index].group := OptionText(block, marks, index)];
    }
  }

  method ParseObjectiveChunk(chunk: string) returns (row: Option<Row>)
    ensures row == ChunkRow(chunk)
  {
    var answer := Search(AnyAnswer, chunk, 0);
    var key := if answer.Some? then answer.value.group else "";
    var block := if answer.Some? then RStrip(chunk[..answer.value.start]) else chunk;
    var marks := FindAll(OptionMark, block, 0);
    FindAllOrdered(OptionMark, block, 0, 0);
    if |marks| < 4 {
      return None;
    }
    var options := CollectOptions(block, marks);
    var stem := StripNumber(Collapse(block[..marks[0].start]));
    if stem == "" || !HasFourOptions(options) {
      return None;
    }
    return Some(Objective(stem, options, key, None));
  }

  // ------------------------------------------------------------ theory part

  /** Objective text before the first theory heading, and the text after that heading. */
  function SplitTheory(text: string): (string, string) {
    var m := Search(TheoryMark, text, 0);
    if m.Some? then (text[..m.value.start], text[m.value.end..]) else (text, "")
  }

  function CollapsedLines(text: string): seq<string> {
    var lines := SplitLines(text);
    seq(|lines|, k requires 0 <= k < |lines| => Collapse(lines[k]))
  }

  /** A line opens a theory question when it starts with a digit and goes on: the two
      expressions `^(\d+)\s*[\).\:-]?\s*(.+)$` and `^(\d+[A-Za-z])\s*[\).\:-]?\s*(.+)$`
      match together exactly then. */
  predicate OpensQuestion(line: string) {
    |line| >= 2 && IsDigit(line[0])
  }

  function TheoryRow(current: seq<string>): seq<Row> {
    var stem := Strip(Join(current, " "));
    if stem != "" then [Theory(stem)] else []
  }

  function TheoryRows(lines: seq<string>, current: seq<string>): seq<Row> {
    if lines == [] then TheoryRow(current)
    else if lines[0] == "" || MatchAt(TheoryMark, lines[0], 0).Some? then TheoryRows(lines[1..], current)
    else if OpensQuestion(lines[0]) then TheoryRow(current) + TheoryRows(lines[1..], [lines[0]])
    else TheoryRows(lines[1..], current + [lines[0]])
  }

  method ParseTheoryRows(text: string) returns (rows: seq<Row>)
    ensures rows == TheoryRows(CollapsedLines(text), [])
  {
    var lines := CollapsedLines(text);
    rows := [];
    var current: seq<string> := [];
    for k := 0 to |lines|
      invariant rows + TheoryRows(lines[k..], current) == TheoryRows(lines, [])
    {
      var line := lines[k];
      assert lines[k..][1..] == lines[k + 1..];
      if line == "" || MatchAt(TheoryMark, line, 0).Some? {
        continue;
      }
      if OpensQuestion(line) {
        rows := rows + TheoryRow(current);
        current := [line];
      } else {
        current := current + [line];
      }
    }
    rows := rows + TheoryRow(current);
  }

  // ------------------------------------------------- blocks cut at their starts

  function WithNumber(row: Option<Row>, number: Option<nat>): seq<Row>
    requires row.Some? ==> row.value.Objective?
  {
    if row.Some? then [row.value.(number := number)] else []
  }

  /** The block of one question start: the text up to the next start. */
  function StartRow(t: string, m: Match, end: nat): seq<Row>
    requires m.start <= end <= |t|
  {
    WithNumber(ChunkRow(t[m.start..end]), Some(NumeralValue(m.group)))
  }

  function RowsFromStarts(t: string, starts: seq<Match>, k: nat): seq<Row>
    requires Ordered(starts, 0, |t|) && k <= |starts|
    decreases |starts| - k
  {
    if k == |starts| then []
    else
      var end := NextStart(t, starts, k);
      StartRow(t, starts[k], end) + RowsFromStarts(t, starts, k + 1)
  }

  function NextStart(t: string, starts: seq<Match>, k: nat): (end: nat)
    requires Ordered(starts, 0, |t|) && k < |starts|
    ensures starts[k].start <= end <= |t|
  {
    OrderedAt(starts, 0, |t|, k);
    if k + 1 < |starts| then
      OrderedAt(starts, 0, |t|, k + 1);
      starts[k + 1].start
    else |t|
  }

  function NumberedObjectives(text: string): seq<Row> {
    FindAllOrdered(QuestionStart, text, 0, 0);
    RowsFromStarts(text, FindAll(QuestionStart, text, 0), 0)
  }

  function NumberedTextRows(text: string): seq<Row> {
    var (objective, theory) := SplitTheory(text);
    NumberedObjectives(objective) + TheoryRows(CollapsedLines(theory), [])
  }

  method CutAtStarts(t: string, starts: seq<Match>) returns (objective: seq<Row>)
    requires Ordered(starts, 0, |t|)
    ensures objective == RowsFromStarts(t, starts, 0)
  {
    hide ChunkRow, NumeralValue, Ordered;
    objective := [];
    for index := 0 to |starts|
      invariant objective + RowsFromStarts(t, starts, index) == RowsFromStarts(t, starts, 0)
    {
      var end := NextStart(t, starts, index);
      var row := ParseObjectiveChunk(t[starts[index].start..end]);
      var rows := if row.Some? then [row.value.(number := Some(NumeralValue(starts[index].group)))] else [];
      ghost var rest := RowsFromStarts(t, starts, index + 1);
      assert RowsFromStarts(t, starts, index) == rows + rest;
      Regroup(objective, rows, rest);
      objective := objective + rows;
    }
  }

  method ParseNumberedTextRows(text: string) returns (rows: seq<Row>)
    ensures rows == NumberedTextRows(text)
  {
    var (objectiveText, theoryText) := SplitTheory(text);
    var starts := FindAll(QuestionStart, objectiveText, 0);
    FindAllOrdered(QuestionStart, objectiveText, 0, 0);
    var objective := CutAtStarts(objectiveText, starts);
    var theory := ParseTheoryRows(theoryText);
    rows := objective + theory;
  }

  // ---------------------------------------------------- blocks cut at their answers

  /** The block of one answer marker: the text since the previous marker, from its last
      numbered line on when it has one. */
  function TerminatedRow(t: string, previousEnd: nat, marker: Match): seq<Row>
    requires previousEnd <= marker.start <= |t|
  {
    var chunk := Strip(t[previousEnd..marker.start]);
    var numbered := FindAll(NumberedLine, chunk, 0);
    FindAllOrdered(NumberedLine, chunk, 0, 0);
    assert numbered != [] ==> numbered[|numbered| - 1].start <= |chunk| by {
      if numbered != [] { OrderedAt(numbered, 0, |chunk|, |numbered| - 1); }
    }
    var cut := if numbered == [] then chunk else chunk[numbered[|numbered| - 1].start..];
    var number := if numbered == [] then None else Some(NumeralValue(numbered[|numbered| - 1].group));
    WithNumber(ChunkRow(cut + "\nAnswer: " + marker.group), number)
  }

  function RowsFromMarkers(t: string, markers: seq<Match>, k: nat): seq<Row>
    requires Ordered(markers, 0, |t|) && k <= |markers|
    decreases |markers| - k
  {
    if k == |markers| then []
    else
      OrderedAt(markers, 0, |t|, k);
      TerminatedRow(t, if k == 0 then 0 else markers[k - 1].end, markers[k]) + RowsFromMarkers(t, markers, k + 1)
  }

  function TerminatedObjectives(text: string): seq<Row> {
    FindAllOrdered(AnswerLine, text, 0, 0);
    RowsFromMarkers(text, FindAll(AnswerLine, text, 0), 0)
  }

  function AnswerTerminatedRows(text: string): seq<Row> {
    var (objective, theory) := SplitTheory(text);
    TerminatedObjectives(objective) + TheoryRows(CollapsedLines(theory), [])
  }

  method CutAtAnswers(t: string, markers: seq<Match>) returns (objective: seq<Row>)
    requires Ordered(markers, 0, |t|)
    ensures objective == RowsFromMarkers(t, markers, 0)
  {
    hide ChunkRow, NumeralValue, Ordered, TerminatedRow;
    objective := [];
    var previousEnd: nat := 0;
    for index := 0 to |markers|
      invariant previousEnd == if index == 0 then 0 else markers[index - 1].end
      invariant objective + RowsFromMarkers(t, markers, index) == RowsFromMarkers(t, markers, 0)
    {
      OrderedAt(markers, 0, |t|, index);
      var marker := markers[index];
      var rows := ParseTerminatedBlock(t, previousEnd, marker);
      ghost var rest := RowsFromMarkers(t, markers, index + 1);
      assert RowsFromMarkers(t, markers, index) == rows + rest;
      Regroup(objective, rows, rest);
      objective := objective + rows;
      previousEnd := marker.end;
    }
  }

  method ParseTerminatedBlock(t: string, previousEnd: nat, marker: Match) returns (rows: seq<Row>)
    requires previousEnd <= marker.start <= |t|
    ensures rows == TerminatedRow(t, previousEnd, marker)
  {
    var chunk := Strip(t[previousEnd..marker.start]);
    var numbered := FindAll(NumberedLine, chunk, 0);
    FindAllOrdered(NumberedLine, chunk, 0, 0);
    var number := None;
    if numbered != [] {
      var last := numbered[|numbered| - 1];
      OrderedAt(numbered, 0, |chunk|, |numbered| - 1);
      chunk := chunk[last.start..];
      number := Some(NumeralValue(last.group));
    }
    var row := ParseObjectiveChunk(chunk + "\nAnswer: " + marker.group);
    rows := if row.Some? then [row.value.(number := number)] else [];
  }

  method ParseAnswerTerminatedRows(text: string) returns (rows: seq<Row>)
    ensures rows == AnswerTerminatedRows(text)
  {
    var (objectiveText, theoryText) := SplitTheory(text);
    var markers := FindAll(AnswerLine, objectiveText, 0);
    FindAllOrdered(AnswerLine, objectiveText, 0, 0);
    var objective := CutAtAnswers(objectiveText, markers);
    var theory := ParseTheoryRows(theoryText);
    rows := objective + theory;
  }
}
