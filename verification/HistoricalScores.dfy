/**
  Reading the score table of an old result sheet, one text line per cell: subject lines, the
  printed marks, and six more cells.  Marks are in hundredths.
 */
module HistoricalScores {
  import opened Wrappers
  import opened Chars

  datatype Row = Row(subject: string, ca1: int, ca2: int, ca3: int, ca4: int, exam: int, total: int,
                     grade: string, remark: string, position: string,
                     lowest: Option<int>, highest: Option<int>, average: Option<int>)

  datatype Issue = UnexpectedNumber(line: nat) | ExamMissing(subject: string, total: int)
                 | ProjectMissing(subject: string, total: int) | BothMissing(subject: string, total: int)
                 | BadRow(subject: string) | SumDiffers(subject: string, computed: int, total: int) | NoRows

  /** The reading of one line: column titles to be skipped, and the mark of a numeric line, if
      the decimal library can hold it. */
  datatype Reader = Reader(title: string -> bool, mark: string -> Option<int>)

  /** `^-?\d+(?:\.\d+)?$` */
  predicate IsNumeric(line: string) {
    var from := if line != "" && line[0] == '-' then 1 else 0;
    var dot := SkipDigits(line, from);
    dot > from && (dot == |line| || (line[dot] == '.' && dot + 1 < |line| && SkipDigits(line, dot + 1) == |line|))
  }

  predicate IsStop(line: string) {
    var u := UpperText(line);
    u == "ANALYSIS" || u == "PSYCOMOTOR DOMAIN" || u == "PSYCHOMOTOR DOMAIN" || u == "COGNITIVE DOMAIN RATING"
  }

  // ------------------------------------------------------------------ one row

  const TOLERANCE: int := 5

  function Distance(a: int, b: int): int { if a < b then b - a else a - b }

  function Sum(r: Row): int { r.ca1 + r.ca2 + r.ca3 + r.ca4 + r.exam }

  predicate Balanced(r: Row) { Distance(Sum(r), r.total) <= TOLERANCE }

  /** The five components and the total that a run of printed marks stands for, with what had to
      be guessed. */
  datatype Components = Components(ca1: int, ca2: int, ca3: int, ca4: int, exam: int, total: int)

  function Guessed(marks: seq<int>, subject: string): (r: (Components, seq<Issue>))
    requires |marks| >= 4
  {
    if |marks| >= 6 then
      (Components(marks[0], marks[1], marks[2], marks[3], marks[4], marks[5]), [])
    else if |marks| == 5 then
      if Distance(marks[0] + marks[1] + marks[2] + marks[3], marks[4]) <= TOLERANCE then
        (Components(marks[0], marks[1], marks[2], marks[3], 0, marks[4]), [ExamMissing(subject, marks[4])])
      else
        (Components(marks[0], marks[1], marks[2], 0, marks[3], marks[4]), [ProjectMissing(subject, marks[4])])
    else
      (Components(marks[0], marks[1], marks[2], 0, 0, marks[3]), [BothMissing(subject, marks[3])])
  }

  // ------------------------------------------------------------------ one step

  /** The end of the subject lines that start at `i`. */
  function SubjectEnd(lines: seq<string>, i: nat): (j: nat)
    requires i <= |lines|
    ensures i <= j <= |lines|
    ensures forall k :: i <= k < j ==> !IsNumeric(lines[k]) && !IsStop(lines[k])
    ensures j < |lines| ==> IsNumeric(lines[j]) || IsStop(lines[j])
    decreases |lines| - i
  {
    if i < |lines| && !IsNumeric(lines[i]) && !IsStop(lines[i]) then SubjectEnd(lines, i + 1) else i
  }

  function NumbersEnd(lines: seq<string>, i: nat): (j: nat)
    requires i <= |lines|
    ensures i <= j <= |lines|
    ensures forall k :: i <= k < j ==> IsNumeric(lines[k])
    ensures j < |lines| ==> !IsNumeric(lines[j])
    decreases |lines| - i
  {
    if i < |lines| && IsNumeric(lines[i]) then NumbersEnd(lines, i + 1) else i
  }

  /** The marks of numeric lines; none if one of them cannot be read. */
  function Marks(lines: seq<string>, rd: Reader): (r: Option<seq<int>>)
    ensures r.Some? ==> |r.value| == |lines|
  {
    if lines == [] then Some([])
    else
      var front := Marks(lines[..|lines| - 1], rd);
      var last := rd.mark(lines[|lines| - 1]);
      if front.Some? && last.Some? then Some(front.value + [last.value]) else None
  }

  /** An optional number: nothing for a line that is not numeric, a failure for an unreadable one. */
  function Optional(line: string, rd: Reader): Option<Option<int>> {
    if !IsNumeric(line) then Some(None)
    else if rd.mark(line).Some? then Some(rd.mark(line))
    else None
  }

  /** What one turn of the loop does. */
  datatype Move = Halt(issues: seq<Issue>) | Skip(next: nat, issues: seq<Issue>) | Take(row: Row, next: nat, issues: seq<Issue>)

  function RowAt(lines: seq<string>, m: nat, subject: string, marks: seq<int>, rd: Reader): Move
    requires m <= |lines| && |marks| >= 4
  {
    var (c, guesses) := Guessed(marks, subject);
    if m + 5 >= |lines| then Halt(guesses + [BadRow(subject)])
    else
      var lowest, highest, average := Optional(lines[m + 3], rd), Optional(lines[m + 4], rd), Optional(lines[m + 5], rd);
      if lowest.None? || highest.None? || average.None? then Halt(guesses + [BadRow(subject)])
      else
        var row := Row(subject, c.ca1, c.ca2, c.ca3, c.ca4, c.exam, c.total, Strip(lines[m]), Strip(lines[m + 1]), Strip(lines[m + 2]),
                       lowest.value, highest.value, average.value);
        Take(row, m + 6, guesses + if Balanced(row) then [] else [SumDiffers(subject, Sum(row), row.total)])
  }

  function Turn(lines: seq<string>, i: nat, rd: Reader): Move
    requires i < |lines|
  {
    if IsStop(lines[i]) then Halt([])
    else if rd.title(lines[i]) then Skip(i + 1, [])
    else if IsNumeric(lines[i]) then Skip(i + 1, [UnexpectedNumber(i + 1)])
    else
      var j := SubjectEnd(lines, i);
      if j >= |lines| || IsStop(lines[j]) then Halt([])
      else
        var subject := Strip(Join(lines[i..j], " "));
        var m := NumbersEnd(lines, j);
        var marks := Marks(lines[j..m], rd);
        if marks.None? || |marks.value| < 4 then Halt([BadRow(subject)])
        else RowAt(lines, m, subject, marks.value, rd)
  }

  lemma TurnMovesOn(lines: seq<string>, i: nat, rd: Reader)
    requires i < |lines| && !Turn(lines, i, rd).Halt?
    ensures i < Turn(lines, i, rd).next <= |lines|
  {
  }

  /** The rows and issues from line `i` on.  Every turn that does not halt uses up a line. */
  function Table(lines: seq<string>, i: nat, rd: Reader): (seq<Row>, seq<Issue>)
    requires i <= |lines|
    decreases |lines| - i
  {
    if i == |lines| then ([], [])
    else
      var move := Turn(lines, i, rd);
      if move.Halt? then ([], move.issues)
      else
        TurnMovesOn(lines, i, rd);
        var rest := Table(lines, move.next, rd);
        ((if move.Take? then [move.row] else []) + rest.0, move.issues + rest.1)
  }

  // ------------------------------------------------------------------- the loop

  method ReadSubject(lines: seq<string>, i: nat) returns (j: nat)
    requires i <= |lines|
    ensures j == SubjectEnd(lines, i)
  {
    hide IsNumeric, IsStop;
    j := i;
    while j < |lines| && !IsNumeric(lines[j])
      invariant i <= j <= |lines| && SubjectEnd(lines, i) == SubjectEnd(lines, j)
    {
      if IsStop(lines[j]) {
        break;
      }
      j := j + 1;
    }
  }

  method ReadMarks(lines: seq<string>, j: nat, rd: Reader) returns (m: nat, marks: Option<seq<int>>)
    requires j <= |lines|
    ensures marks == Marks(lines[j..NumbersEnd(lines, j)], rd)
    ensures marks.Some? ==> m == NumbersEnd(lines, j)
  {
    hide IsNumeric;
    m := j;
    var read := [];
    while m < |lines| && IsNumeric(lines[m])
      invariant j <= m <= |lines| && NumbersEnd(lines, j) == NumbersEnd(lines, m)
      invariant Marks(lines[j..m], rd) == Some(read)
    {
      var mark := rd.mark(lines[m]);
      assert lines[j..m + 1][..m - j] == lines[j..m];
      if mark.None? {
        UnreadableMark(lines, j, m, NumbersEnd(lines, m), rd);
        return m, None;
      }
      read := read + [mark.value];
      m := m + 1;
    }
    marks := Some(read);
  }

  /** Reads one row at `i`, as the body of the loop does. */
  method ReadRow(lines: seq<string>, i: nat, rd: Reader) returns (move: Move)
    requires i < |lines| && !IsStop(lines[i]) && !rd.title(lines[i]) && !IsNumeric(lines[i])
    ensures move == Turn(lines, i, rd)
  {
    hide IsNumeric, IsStop, Strip, Join, RowAt, Marks, SubjectEnd, NumbersEnd;
    var j := ReadSubject(lines, i);
    if j >= |lines| || IsStop(lines[j]) {
      return Halt([]);
    }
    var subject := Strip(Join(lines[i..j], " "));
    var m, marks := ReadMarks(lines, j, rd);
    if marks.None? || |marks.value| < 4 {
      return Halt([BadRow(subject)]);
    }
    move := ReadCells(lines, m, subject, marks.value, rd);
  }

  lemma {:induction false} UnreadableMark(lines: seq<string>, j: nat, m: nat, end: nat, rd: Reader)
    requires j <= m < end <= |lines| && rd.mark(lines[m]).None?
    ensures Marks(lines[j..end], rd).None?
    decreases end - m
  {
    assert lines[j..end][..end - j - 1] == lines[j..end - 1];
    if m + 1 < end { UnreadableMark(lines, j, m, end - 1, rd); }
  }

  method ReadCells(lines: seq<string>, m: nat, subject: string, marks: seq<int>, rd: Reader) returns (move: Move)
    requires m <= |lines| && |marks| >= 4
    ensures move == RowAt(lines, m, subject, marks, rd)
  {
    hide IsNumeric, Strip;
    var ca1, ca2, ca3 := marks[0], marks[1], marks[2];
    var ca4, exam, total := 0, 0, 0;
    var issues: seq<Issue> := [];
    if |marks| >= 6 {
      ca4, exam, total := marks[3], marks[4], marks[5];
    } else if |marks| == 5 {
      var fourth, fifth := marks[3], marks[4];
      if Distance(ca1 + ca2 + ca3 + fourth, fifth) <= TOLERANCE {
        ca4, exam, total := fourth, 0, fifth;
        issues := issues + [ExamMissing(subject, total)];
      } else {
        ca4, exam, total := 0, fourth, fifth;
        issues := issues + [ProjectMissing(subject, total)];
      }
    } else {
      total := marks[3];
      issues := issues + [BothMissing(subject, total)];
    }
    if m + 5 >= |lines| {
      return Halt(issues + [BadRow(subject)]);
    }
    var lowest, highest, average := Optional(lines[m + 3], rd), Optional(lines[m + 4], rd), Optional(lines[m + 5], rd);
    if lowest.None? || highest.None? || average.None? {
      return Halt(issues + [BadRow(subject)]);
    }
    var row := Row(subject, ca1, ca2, ca3, ca4, exam, total, Strip(lines[m]), Strip(lines[m + 1]), Strip(lines[m + 2]),
                   lowest.value, highest.value, average.value);
    var computed := ca1 + ca2 + ca3 + ca4 + exam;
    if Distance(computed, total) > TOLERANCE {
      issues := issues + [SumDiffers(subject, computed, total)];
    }
    move := Take(row, m + 6, issues);
  }

  /** The row loop of `parse_pdf`, from the line behind the table header. */
  method ParseRows(lines: seq<string>, start: nat, rd: Reader) returns (rows: seq<Row>, issues: seq<Issue>)
    requires start <= |lines|
    ensures rows == Table(lines, start, rd).0
    ensures issues == Table(lines, start, rd).1 + if rows == [] then [NoRows] else []
  {
    hide IsNumeric, IsStop, Turn, Table;
    rows, issues := [], [];
    var i := start;
    ghost var whole := Table(lines, start, rd);
    while i < |lines|
      invariant i <= |lines|
      invariant rows + Table(lines, i, rd).0 == whole.0 && issues + Table(lines, i, rd).1 == whole.1
      decreases |lines| - i
    {
      TableStep(lines, i, rd, rows, issues);
      if IsStop(lines[i]) {
        TurnPlain(lines, i, rd);
        break;
      }
      if rd.title(lines[i]) {
        TurnPlain(lines, i, rd);
        i := i + 1;
        continue;
      }
      if IsNumeric(lines[i]) {
        TurnPlain(lines, i, rd);
        issues := issues + [UnexpectedNumber(i + 1)];
        i := i + 1;
        continue;
      }
      var move := ReadRow(lines, i, rd);
      issues := issues + move.issues;
      if move.Halt? {
        break;
      }
      if move.Take? {
        rows := rows + [move.row];
      }
      i := move.next;
    }
    TableEnds(lines, rd);
    if |rows| == 0 {
      issues := issues + [NoRows];
    }
  }

  lemma TurnPlain(lines: seq<string>, i: nat, rd: Reader)
    requires i < |lines|
    ensures IsStop(lines[i]) ==> Turn(lines, i, rd) == Halt([])
    ensures !IsStop(lines[i]) && rd.title(lines[i]) ==> Turn(lines, i, rd) == Skip(i + 1, [])
    ensures !IsStop(lines[i]) && !rd.title(lines[i]) && IsNumeric(lines[i]) ==>
              Turn(lines, i, rd) == Skip(i + 1, [UnexpectedNumber(i + 1)])
  {
  }

  lemma TableEnds(lines: seq<string>, rd: Reader)
    ensures Table(lines, |lines|, rd) == ([], [])
  {
  }

  lemma TableStep(lines: seq<string>, i: nat, rd: Reader, rows: seq<Row>, issues: seq<Issue>)
    requires i < |lines|
    ensures var move := Turn(lines, i, rd);
      && (move.Halt? ==> Table(lines, i, rd) == ([], move.issues))
      && (!move.Halt? ==> i < move.next <= |lines|)
      && (!move.Halt? ==>
            && rows + Table(lines, i, rd).0 == (rows + if move.Take? then [move.row] else []) + Table(lines, move.next, rd).0
            && issues + Table(lines, i, rd).1 == (issues + move.issues) + Table(lines, move.next, rd).1)
  {
    hide Turn;
    var move := Turn(lines, i, rd);
    if !move.Halt? {
      TurnMovesOn(lines, i, rd);
      var rest := Table(lines, move.next, rd);
      Regroup(rows, if move.Take? then [move.row] else [], rest.0);
      Regroup(issues, move.issues, rest.1);
    }
  }

  // ------------------------------------------------------------------ what it means

  /** A row whose printed total is off by more than the tolerance has been reported. */
  predicate Reconciled(row: Row, issues: seq<Issue>) {
    Balanced(row) || SumDiffers(row.subject, Sum(row), row.total) in issues
  }

  lemma TakenIsReconciled(lines: seq<string>, i: nat, rd: Reader)
    requires i < |lines| && Turn(lines, i, rd).Take?
    ensures Reconciled(Turn(lines, i, rd).row, Turn(lines, i, rd).issues)
  {
    hide IsNumeric, IsStop, Strip, Join, Guessed;
  }

  /** Every row adds up to its printed total or is among the issues. */
  lemma {:induction false} RowsReconcile(lines: seq<string>, i: nat, rd: Reader)
    requires i <= |lines|
    ensures forall r :: r in Table(lines, i, rd).0 ==> Reconciled(r, Table(lines, i, rd).1)
    decreases |lines| - i
  {
    hide Turn, Reconciled;
    if i < |lines| && !Turn(lines, i, rd).Halt? {
      var move := Turn(lines, i, rd);
      TurnMovesOn(lines, i, rd);
      RowsReconcile(lines, move.next, rd);
      var rest := Table(lines, move.next, rd);
      var all := move.issues + rest.1;
      assert move.issues + rest.1 + [] == all;
      forall r | r in rest.0 ensures Reconciled(r, all) { MoreIssues(r, rest.1, move.issues, []); }
      if move.Take? {
        TakenIsReconciled(lines, i, rd);
        MoreIssues(move.row, move.issues, [], rest.1);
        assert [] + move.issues + rest.1 == all;
      }
    }
  }

  lemma MoreIssues(r: Row, issues: seq<Issue>, before: seq<Issue>, after: seq<Issue>)
    requires Reconciled(r, issues)
    ensures Reconciled(r, before + issues + after)
  {
  }

  // ---------------------------------------------------------------- printed tables

  /** One printed row: its subject lines, its numbers, and the six cells behind them. */
  datatype Record = Record(parts: seq<string>, numbers: seq<string>, cells: seq<string>)

  predicate ValidRecord(r: Record, rd: Reader) {
    && r.parts != [] && !rd.title(r.parts[0])
    && (forall p :: p in r.parts ==> !IsNumeric(p) && !IsStop(p))
    && |r.numbers| >= 4 && (forall n :: n in r.numbers ==> IsNumeric(n)) && Marks(r.numbers, rd).Some?
    && |r.cells| == 6 && !IsNumeric(r.cells[0])
    && Optional(r.cells[3], rd).Some? && Optional(r.cells[4], rd).Some? && Optional(r.cells[5], rd).Some?
  }

  function RecordLines(r: Record): seq<string> { r.parts + r.numbers + r.cells }

  function Print(records: seq<Record>): seq<string> {
    if records == [] then [] else RecordLines(records[0]) + Print(records[1..])
  }

  /** The row a record stands for. */
  function RowOf(r: Record, rd: Reader): Row
    requires ValidRecord(r, rd)
  {
    var subject := Strip(Join(r.parts, " "));
    var c := Guessed(Marks(r.numbers, rd).value, subject).0;
    Row(subject, c.ca1, c.ca2, c.ca3, c.ca4, c.exam, c.total, Strip(r.cells[0]), Strip(r.cells[1]), Strip(r.cells[2]),
        Optional(r.cells[3], rd).value, Optional(r.cells[4], rd).value, Optional(r.cells[5], rd).value)
  }

  function RowsFrom(records: seq<Record>, rd: Reader): seq<Row>
    requires forall r :: r in records ==> ValidRecord(r, rd)
  {
    if records == [] then [] else [RowOf(records[0], rd)] + RowsFrom(records[1..], rd)
  }

  lemma {:induction false} SubjectEndIs(lines: seq<string>, i: nat, j: nat)
    requires i <= j <= |lines| && forall k :: i <= k < j ==> !IsNumeric(lines[k]) && !IsStop(lines[k])
    requires j < |lines| ==> IsNumeric(lines[j]) || IsStop(lines[j])
    ensures SubjectEnd(lines, i) == j
    decreases j - i
  {
    hide IsNumeric, IsStop;
    if i < j { SubjectEndIs(lines, i + 1, j); }
  }

  lemma {:induction false} NumbersEndIs(lines: seq<string>, i: nat, j: nat)
    requires i <= j <= |lines| && forall k :: i <= k < j ==> IsNumeric(lines[k])
    requires j < |lines| ==> !IsNumeric(lines[j])
    ensures NumbersEnd(lines, i) == j
    decreases j - i
  {
    hide IsNumeric;
    if i < j { NumbersEndIs(lines, i + 1, j); }
  }

  /** Where the lines of a printed record stand. */
  lemma RecordPlaces(r: Record, before: seq<string>, after: seq<string>)
    requires |r.cells| == 6
    ensures var lines, i := before + RecordLines(r) + after, |before|;
      var j := i + |r.parts|;
      var m := j + |r.numbers|;
      && m + 6 == i + |RecordLines(r)| <= |lines| && lines[i..j] == r.parts && lines[j..m] == r.numbers
      && lines[m] == r.cells[0] && lines[m + 1] == r.cells[1] && lines[m + 2] == r.cells[2]
      && lines[m + 3] == r.cells[3] && lines[m + 4] == r.cells[4] && lines[m + 5] == r.cells[5]
  {
  }

  lemma InSlice(lines: seq<string>, i: nat, j: nat, part: seq<string>)
    requires i <= j <= |lines| && lines[i..j] == part
    ensures forall k :: i <= k < j ==> lines[k] in part && lines[k] == part[k - i]
  {
    forall k | i <= k < j ensures lines[k] in part && lines[k] == part[k - i] { assert lines[k] == part[k - i]; }
  }

  /** One turn on a printed record takes exactly its lines. */
  lemma TurnOnRecord(r: Record, before: seq<string>, after: seq<string>, rd: Reader)
    requires ValidRecord(r, rd)
    ensures |RecordLines(r)| > 0
    ensures var move := Turn(before + RecordLines(r) + after, |before|, rd);
      move.Take? && move.row == RowOf(r, rd) && move.next == |before| + |RecordLines(r)|
  {
    hide IsNumeric, IsStop, Strip, Join, Guessed, Optional, Marks, RecordLines, SubjectEnd, NumbersEnd;
    var lines := before + RecordLines(r) + after;
    var i := |before|;
    var j := i + |r.parts|;
    var m := j + |r.numbers|;
    RecordPlaces(r, before, after);
    InSlice(lines, i, j, r.parts);
    InSlice(lines, j, m, r.numbers);
    SubjectEndIs(lines, i, j);
    NumbersEndIs(lines, j, m);
    NumbersAreNotStops(lines[j]);
  }

  lemma NumbersAreNotStops(line: string)
    requires IsNumeric(line)
    ensures !IsStop(line)
  {
    var d := if line[0] == '-' then 1 else 0;
    assert IsDigit(line[d]);
    assert UpperText(line)[d] == line[d];
    assert "ANALYSIS"[0] == 'A' && "PSYCOMOTOR DOMAIN"[0] == 'P' && "PSYCHOMOTOR DOMAIN"[0] == 'P' && "COGNITIVE DOMAIN RATING"[0] == 'C';
    assert UpperText(line)[0] == line[0];
  }

  lemma StopEnds(before: seq<string>, after: seq<string>, rd: Reader)
    requires after == [] || IsStop(after[0])
    ensures Table(before + after, |before|, rd).0 == []
  {
    if after != [] {
      TurnPlain(before + after, |before|, rd);
    }
  }

  lemma PrintUnfolds(records: seq<Record>)
    ensures Print([]) == []
    ensures records != [] ==> Print(records) == RecordLines(records[0]) + Print(records[1..])
  {
  }

  /** A printed table comes back row by row, up to the stop line or the end. */
  lemma {:induction false} RoundTrip(before: seq<string>, records: seq<Record>, after: seq<string>, rd: Reader)
    requires forall r :: r in records ==> ValidRecord(r, rd)
    requires after == [] || IsStop(after[0])
    ensures Table(before + Print(records) + after, |before|, rd).0 == RowsFrom(records, rd)
    decreases |records|
  {
    hide ValidRecord, IsStop, RecordLines, RowOf, Table, Turn, Print;
    var lines := before + Print(records) + after;
    PrintUnfolds(records);
    if records == [] {
      assert lines == before + after;
      StopEnds(before, after, rd);
    } else {
      var r, tail := records[0], Print(records[1..]);
      assert r in records;
      assert lines == before + RecordLines(r) + (tail + after);
      TurnOnRecord(r, before, tail + after, rd);
      TableStep(lines, |before|, rd, [], []);
      var move := Turn(lines, |before|, rd);
      assert Table(lines, |before|, rd).0 == [move.row] + Table(lines, move.next, rd).0 by {
        assert [] + Table(lines, |before|, rd).0 == Table(lines, |before|, rd).0 && [] + [move.row] == [move.row];
      }
      assert lines == (before + RecordLines(r)) + tail + after;
      RoundTrip(before + RecordLines(r), records[1..], after, rd);
    }
  }

  // ------------------------------------------------------------------ stored scores

  datatype Score = Score(objective: int, theory: int, totalCa: int, totalExam: int, grandTotal: int)

  const OBJECTIVE_MAXIMUM: int := 2000

  /** `upsert_historical_score` */
  function Stored(row: Row): Score {
    var objective := if row.exam < OBJECTIVE_MAXIMUM then row.exam else OBJECTIVE_MAXIMUM;
    var theory := if row.exam - objective > 0 then row.exam - objective else 0;
    Score(objective, theory, row.ca1 + row.ca2 + row.ca3 + row.ca4, row.exam, row.total)
  }

  /** Objective and theory marks of every imported score make up its exam mark, the theory mark
      is not negative, and the parts make up the printed total unless that was reported. */
  lemma StoredScoresAddUp(lines: seq<string>, i: nat, rd: Reader, row: Row)
    requires i <= |lines| && row in Table(lines, i, rd).0
    ensures var s := Stored(row);
      && s.objective + s.theory == s.totalExam && s.objective <= OBJECTIVE_MAXIMUM && s.theory >= 0
      && (Distance(s.totalCa + s.objective + s.theory, s.grandTotal) <= TOLERANCE
          || SumDiffers(row.subject, s.totalCa + s.totalExam, s.grandTotal) in Table(lines, i, rd).1)
  {
    hide Table;
    RowsReconcile(lines, i, rd);
  }
}
