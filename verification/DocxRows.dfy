/**
  The line-by-line parser for structured word-processor papers: it keeps one question open,
  switches between objective and theory sections, and fills a trailing answer key into the
  questions that have none.
 */
module DocxRows {
  import opened Wrappers
  import opened Chars
  import opened RichSlices

  datatype Label = A | B | C | D

  const LABELS: seq<Label> := [A, B, C, D]

  /** An emitted row.  `lines` are the paragraphs it was made from; they are kept to say where
      rows come from. */
  datatype Row = Objective(stem: string, options: map<Label, string>, key: Option<Label>, section: string, lines: seq<nat>)
               | Theory(stem: string, section: string, lines: seq<nat>)

  /** The question being read. */
  datatype Draft = ObjectiveDraft(stem: string, options: map<Label, string>, key: Option<Label>, section: string, lines: seq<nat>)
                 | TheoryDraft(stem: string, section: string, lines: seq<nat>)

  datatype Marker = Marker(key: Label, start: int, end: int)

  /** The heading shapes of lines and the search for option markers and answers inside a
      paragraph. */
  datatype Shapes = Shapes(section: string -> bool, theoryHeader: string -> bool, objectiveHeader: string -> bool,
                           instruction: string -> bool, theoryNumber: string -> bool,
                           answerTail: string -> Option<(int, string)>, markers: string -> seq<Marker>,
                           resolve: (map<Label, string>, string) -> Option<Label>)

  datatype State = State(rows: seq<Row>, instructions: seq<string>, section: string, theory: bool,
                         current: Option<Draft>, keyMode: bool, keys: seq<Label>)

  const START := State([], [], "", false, None, false, [])

  // ------------------------------------------------------------------ text helpers

  function StripSet(s: string, chars: set<char>): string {
    if s != "" && s[0] in chars then StripSet(s[1..], chars) else StripRight(s, chars)
  }

  function StripRight(s: string, chars: set<char>): string {
    if s != "" && s[|s| - 1] in chars then StripRight(s[..|s| - 1], chars) else s
  }

  /** `_normalize_stem_text` */
  function StemText(s: string): string { Strip(SafeText(Collapse(s))) }

  /** `_normalize_option_text` */
  function OptionText(s: string): string { StripSet(SafeText(Collapse(s)), {' ', '-'}) }

  /** `s[lo:hi]` for bounds that are not negative. */
  function Slice(s: string, lo: int, hi: int): string {
    var from, to := Clamp(lo, |s|), Clamp(hi, |s|);
    if from <= to then s[from..to] else ""
  }

  // ------------------------------------------------------------------ line shapes

  function LabelOf(c: char): Option<Label> {
    var u := Upper(c);
    if u == 'A' then Some(A) else if u == 'B' then Some(B) else if u == 'C' then Some(C) else if u == 'D' then Some(D) else None
  }

  /** A line that is one letter of an answer key. */
  function KeyLetter(line: string): Option<Label> {
    if |line| == 1 then LabelOf(line[0]) else None
  }

  /** `^\s*([A-Da-d])[\)\.\:-]\s*(.+)$` on a stripped line. */
  function OptionLine(line: string): Option<(Label, string)> {
    if |line| > 2 && LabelOf(line[0]).Some? && line[1] in {')', '.', ':', '-'} && SkipSpaces(line, 2) < |line|
    then Some((LabelOf(line[0]).value, line[SkipSpaces(line, 2)..]))
    else None
  }

  /** `^\s*(?:answer|ans)\s*[:\-]?\s*([A-Da-d])(?:\b|[\).\:-])` on a stripped line. */
  function AnswerLine(line: string): Option<Label> {
    var u := UpperText(line);
    if "ANSWER" <= u then AnswerAfter(line, 6) else if "ANS" <= u then AnswerAfter(line, 3) else None
  }

  function AnswerAfter(line: string, i: nat): Option<Label>
    requires i <= |line|
  {
    var p := SkipSpaces(line, i);
    var q := if p < |line| && line[p] in {':', '-'} then SkipSpaces(line, p + 1) else p;
    if q < |line| && (q + 1 == |line| || !IsWordChar(line[q + 1])) then LabelOf(line[q]) else None
  }

  predicate QuestionHeading(line: string) { Contains(UpperText(line), "QUESTION") && WordCount(line) <= 4 }

  predicate LongStatement(line: string) { |line| > 120 && line[|line| - 1] != '?' }

  // --------------------------------------------------------- a whole question in one line

  function FirstMarker(markers: seq<Marker>, want: Label): Option<Marker> {
    if markers == [] then None
    else if markers[0].key == want then Some(markers[0])
    else FirstMarker(markers[1..], want)
  }

  /** `_extract_inline_objective_row` */
  function InlineRow(text: string, section: string, at: nat, sh: Shapes): Option<Row> {
    var whole := SafeText(text);
    var tail := sh.answerTail(whole);
    var value := if tail.Some? then Strip(Slice(whole, 0, tail.value.0)) else whole;
    var raw := if tail.Some? then SafeText(tail.value.1) else "";
    var markers := sh.markers(value);
    var a, b, c, d := FirstMarker(markers, A), FirstMarker(markers, B), FirstMarker(markers, C), FirstMarker(markers, D);
    if Strip(whole) == "" || a.None? || b.None? || c.None? || d.None? then None
    else if !(a.value.start < b.value.start < c.value.start < d.value.start) then None
    else
      var stem := StemText(StripSet(Slice(value, 0, a.value.start), {' ', ':', '-'}));
      var options := map[A := OptionText(Slice(value, a.value.end, b.value.start)),
                         B := OptionText(Slice(value, b.value.end, c.value.start)),
                         C := OptionText(Slice(value, c.value.end, d.value.start)),
                         D := OptionText(Slice(value, d.value.end, |value|))];
      if stem == "" || "" in options.Values then None
      else Some(Objective(stem, options, sh.resolve(options, raw), section, [at]))
  }

  // ----------------------------------------------------------------- one transition

  function OrElse(section: string, other: string): string { if section != "" then section else other }

  /** `finalize_current`: the open question becomes a row if it has a stem and four options. */
  function Finalized(s: State): State {
    match s.current
    case None => s
    case Some(TheoryDraft(raw, section, lines)) =>
      var stem := StemText(raw);
      s.(current := None,
         rows := s.rows + if stem != "" then [Theory(stem, OrElse(section, s.section), lines)] else [])
    case Some(ObjectiveDraft(raw, options, key, section, lines)) =>
      var stem := StemText(raw);
      s.(current := None,
         rows := s.rows + if |options| >= 4 && stem != "" then [Objective(stem, Ordered(options), key, OrElse(section, s.section), lines)]
                          else [])
  }

  function Ordered(options: map<Label, string>): (r: map<Label, string>)
    ensures r.Keys == {A, B, C, D}
  {
    map l | l in {A, B, C, D} :: OptionText(if l in options then options[l] else "")
  }

  function WithInstruction(instructions: seq<string>, line: string): seq<string> {
    var cleaned := StemText(line);
    if cleaned == "" || cleaned in instructions then instructions else instructions + [cleaned]
  }

  predicate OpenObjective(s: State) { s.current.Some? && s.current.value.ObjectiveDraft? }

  function Heading(s: State, line: string, theory: bool): State {
    Finalized(s).(theory := theory, section := SafeText(line), instructions := WithInstruction(s.instructions, line))
  }

  /** One paragraph with some text. */
  function Step(s0: State, text: string, at: nat, sh: Shapes): State {
    var line := StemText(text);
    if line == "" then s0
    else if s0.keyMode && KeyLetter(line).Some? then s0.(keys := s0.keys + [KeyLetter(line).value])
    else
      var s := s0.(keyMode := false);
      if UpperText(line) == "ANSWER" then Finalized(s).(keyMode := true)
      else if sh.section(line) then Heading(s, line, sh.theoryHeader(line) || (s.theory && !Contains(UpperText(line), "SECTION")))
      else if sh.theoryHeader(line) then Heading(s, line, true)
      else if sh.objectiveHeader(line) then Heading(s, line, false)
      else if QuestionHeading(line) then Heading(s, line, false)
      else if sh.instruction(line) then Finalized(s).(instructions := WithInstruction(s.instructions, line))
      else if LongStatement(line) && s.current.None? && s.rows == [] then s.(instructions := WithInstruction(s.instructions, line))
      else Body(s, line, text, at, sh)
  }

  /** A line that is no heading. */
  function Body(s: State, line: string, text: string, at: nat, sh: Shapes): State {
    if AnswerLine(line).Some? then
      if OpenObjective(s) then
        var d := s.current.value;
        Finalized(s.(current := Some(d.(key := AnswerLine(line), lines := d.lines + [at]))))
      else s.(keys := s.keys + [AnswerLine(line).value])
    else if s.theory then
      var t := if s.current.Some? && sh.theoryNumber(line) then Finalized(s) else s;
      if t.current.None? then t.(current := Some(TheoryDraft(line, s.section, [at])))
      else
        var d := t.current.value;
        t.(current := Some(d.(stem := Strip(d.stem + "\n" + line), lines := d.lines + [at])))
    else if InlineRow(text, s.section, at, sh).Some? then
      Finalized(s).(rows := Finalized(s).rows + [InlineRow(text, s.section, at, sh).value])
    else if OptionLine(line).Some? && OpenObjective(s) then
      var (key, option) := OptionLine(line).value;
      var d := s.current.value;
      var d' := d.(options := d.options[key := OptionText(option)], lines := d.lines + [at]);
      var t := s.(current := Some(d'));
      if |d'.options| >= 4 && d'.key.Some? then Finalized(t) else t
    else if OpenObjective(s) && |s.current.value.options| < 4 then
      var d := s.current.value;
      s.(current := Some(d.(options := d.options[LABELS[|d.options|] := OptionText(line)], lines := d.lines + [at])))
    else
      Finalized(s).(current := Some(ObjectiveDraft(line, map[], None, s.section, [at])))
  }

  /** All paragraphs from `from` on. */
  function Run(s: State, texts: seq<string>, from: nat, sh: Shapes): State
    requires from <= |texts|
    decreases |texts| - from
  {
    if from == |texts| then s else Run(Step(s, texts[from], from, sh), texts, from + 1, sh)
  }

  /** The answer key, letter by letter, for the objective rows without a label. */
  function Filled(rows: seq<Row>, keys: seq<Label>): seq<Row> {
    if rows == [] then []
    else if keys != [] && rows[0].Objective? && rows[0].key.None? then
      [rows[0].(key := Some(keys[0]))] + Filled(rows[1..], keys[1..])
    else [rows[0]] + Filled(rows[1..], keys)
  }

  function Parsed(texts: seq<string>, sh: Shapes): seq<Row> {
    var s := Finalized(Run(START, texts, 0, sh));
    Filled(s.rows, s.keys)
  }

  /** The instructions handed on with the rows. */
  function ParsedInstructions(texts: seq<string>, sh: Shapes): seq<string> { Run(START, texts, 0, sh).instructions }

  // ---------------------------------------------------------------------- the parser

  class Parser {
    var rows: seq<Row>
    var instructions: seq<string>
    var section: string
    var theory: bool
    var current: Option<Draft>
    var keyMode: bool
    var keys: seq<Label>

    constructor ()
      ensures Now() == START
    {
      rows, instructions, section, theory := [], [], "", false;
      current, keyMode, keys := None, false, [];
    }

    function Now(): State
      reads this
    {
      State(rows, instructions, section, theory, current, keyMode, keys)
    }

    method FinalizeCurrent()
      modifies this`rows, this`current
      ensures Now() == Finalized(old(Now()))
    {
      hide StemText, Ordered;
      if current.None? {
        return;
      }
      var d := current.value;
      var stem := StemText(d.stem);
      if d.ObjectiveDraft? {
        if |d.options| >= 4 && stem != "" {
          rows := rows + [Objective(stem, Ordered(d.options), d.key, if d.section != "" then d.section else section, d.lines)];
        }
      } else if stem != "" {
        rows := rows + [Theory(stem, if d.section != "" then d.section else section, d.lines)];
      }
      current := None;
    }

    method StartSection(line: string, toTheory: bool)
      modifies this
      ensures Now() == Heading(old(Now()), line, toTheory)
    {
      hide StemText, SafeText;
      FinalizeCurrent();
      theory := toTheory;
      section := SafeText(line);
      instructions := WithInstruction(instructions, line);
    }

    /** One paragraph of the loop. */
    method TakeParagraph(text: string, at: nat, sh: Shapes)
      modifies this
      ensures Now() == Step(old(Now()), text, at, sh)
    {
      hide StemText, Finalized, Heading, Body, KeyLetter, Contains, QuestionHeading, LongStatement, WithInstruction;
      var line := StemText(text);
      if line == "" {
        return;
      }
      if keyMode {
        var letter := KeyLetter(line);
        if letter.Some? {
          keys := keys + [letter.value];
          return;
        }
        keyMode := false;
      }
      if UpperText(line) == "ANSWER" {
        FinalizeCurrent();
        keyMode := true;
      } else if sh.section(line) {
        StartSection(line, sh.theoryHeader(line) || (theory && !Contains(UpperText(line), "SECTION")));
      } else if sh.theoryHeader(line) {
        StartSection(line, true);
      } else if sh.objectiveHeader(line) {
        StartSection(line, false);
      } else if QuestionHeading(line) {
        StartSection(line, false);
      } else if sh.instruction(line) {
        ghost var before := Now();
        FinalizedKeeps(before);
        FinalizeCurrent();
        instructions := WithInstruction(instructions, line);
      } else if LongStatement(line) && current.None? && rows == [] {
        instructions := WithInstruction(instructions, line);
      } else {
        TakeBody(line, text, at, sh);
      }
    }

    method TakeBody(line: string, text: string, at: nat, sh: Shapes)
      modifies this
      ensures Now() == Body(old(Now()), line, text, at, sh)
    {
      hide StemText, OptionText, Finalized, InlineRow, AnswerLine, OptionLine;
      var answer := AnswerLine(line);
      if answer.Some? {
        if current.Some? && current.value.ObjectiveDraft? {
          current := Some(current.value.(key := answer, lines := current.value.lines + [at]));
          FinalizeCurrent();
        } else {
          keys := keys + [answer.value];
        }
        return;
      }
      if theory {
        if current.Some? && sh.theoryNumber(line) {
          FinalizeCurrent();
        }
        if current.None? {
          current := Some(TheoryDraft(line, section, [at]));
        } else {
          current := Some(current.value.(stem := Strip(current.value.stem + "\n" + line), lines := current.value.lines + [at]));
        }
        return;
      }
      var inline := InlineRow(text, section, at, sh);
      if inline.Some? {
        FinalizeCurrent();
        rows := rows + [inline.value];
        return;
      }
      var option := OptionLine(line);
      if option.Some? && current.Some? && current.value.ObjectiveDraft? {
        var d := current.value;
        current := Some(d.(options := d.options[option.value.0 := OptionText(option.value.1)], lines := d.lines + [at]));
        if |current.value.options| >= 4 && current.value.key.Some? {
          FinalizeCurrent();
        }
        return;
      }
      if current.Some? && current.value.ObjectiveDraft? && |current.value.options| < 4 {
        var d := current.value;
        current := Some(d.(options := d.options[LABELS[|d.options|] := OptionText(line)], lines := d.lines + [at]));
        return;
      }
      FinalizedKeeps(Now());
      FinalizeCurrent();
      current := Some(ObjectiveDraft(line, map[], None, section, [at]));
    }

    /** `parse_structured_docx_rows` on the texts of the document's rows. */
    method Parse(texts: seq<string>, sh: Shapes) returns (parsed: seq<Row>, notes: seq<string>)
      requires Now() == START
      modifies this
      ensures parsed == Parsed(texts, sh) && notes == ParsedInstructions(texts, sh)
    {
      hide Step, Finalized;
      for i := 0 to |texts|
        invariant Run(Now(), texts, i, sh) == Run(START, texts, 0, sh)
      {
        TakeParagraph(texts[i], i, sh);
      }
      FinalizedKeeps(Now());
      FinalizeCurrent();
      parsed := FillAnswers();
      notes := instructions;
    }

    /** Hands the collected answers to the unanswered objective rows, in order. */
    method FillAnswers() returns (filled: seq<Row>)
      ensures filled == Filled(rows, keys)
    {
      filled := [];
      var next := 0;
      for i := 0 to |rows|
        invariant next <= |keys| && filled + Filled(rows[i..], keys[next..]) == Filled(rows, keys)
      {
        ghost var rest, left := rows[i..], keys[next..];
        assert rest[0] == rows[i] && rest[1..] == rows[i + 1..];
        if next < |keys| && rows[i].Objective? && rows[i].key.None? {
          assert left[0] == keys[next] && left[1..] == keys[next + 1..];
          Regroup(filled, [rows[i].(key := Some(keys[next]))], Filled(rest[1..], left[1..]));
          filled := filled + [rows[i].(key := Some(keys[next]))];
          next := next + 1;
        } else {
          Regroup(filled, [rows[i]], Filled(rest[1..], left));
          filled := filled + [rows[i]];
        }
      }
    }
  }

  lemma FinalizedKeeps(s: State)
    ensures Finalized(s).instructions == s.instructions && Finalized(s).section == s.section && Finalized(s).theory == s.theory
    ensures Finalized(s).keyMode == s.keyMode && Finalized(s).keys == s.keys && Finalized(s).current.None?
    ensures s.rows <= Finalized(s).rows
  {
  }

  // ------------------------------------------------------------------ the answer key

  predicate Unanswered(r: Row) { r.Objective? && r.key.None? }

  /** How many of the rows wait for an answer. */
  function Waiting(rows: seq<Row>): nat {
    if rows == [] then 0 else (if Unanswered(rows[0]) then 1 else 0) + Waiting(rows[1..])
  }

  /** The key fills exactly the first waiting rows, the n-th of them with the n-th letter, and
      changes nothing else. */
  lemma {:induction false} KeyFillsFirst(rows: seq<Row>, keys: seq<Label>, i: nat)
    requires i < |rows|
    ensures |Filled(rows, keys)| == |rows|
    ensures Filled(rows, keys)[i]
         == if Unanswered(rows[i]) && Waiting(rows[..i]) < |keys| then rows[i].(key := Some(keys[Waiting(rows[..i])]))
            else rows[i]
    decreases |rows|
  {
    var keys' := if keys != [] && Unanswered(rows[0]) then keys[1..] else keys;
    FilledLength(rows, keys);
    if i > 0 {
      KeyFillsFirst(rows[1..], keys', i - 1);
      assert rows[..i][1..] == rows[1..][..i - 1];
    }
  }

  lemma {:induction false} FilledLength(rows: seq<Row>, keys: seq<Label>)
    ensures |Filled(rows, keys)| == |rows|
    decreases |rows|
  {
    if rows != [] {
      FilledLength(rows[1..], if keys != [] && Unanswered(rows[0]) then keys[1..] else keys);
    }
  }

  // ------------------------------------------------------- what every reachable state keeps

  /** A row that students can answer. */
  predicate Complete(r: Row) { r.stem != "" && (r.Objective? ==> r.options.Keys == {A, B, C, D}) }

  predicate Ascending(s: seq<nat>, lo: nat, n: nat) {
    (forall a, b :: 0 <= a < b < |s| ==> s[a] < s[b]) && forall k :: 0 <= k < |s| ==> lo <= s[k] < n
  }

  function RowLines(rows: seq<Row>): seq<nat> {
    if rows == [] then [] else RowLines(rows[..|rows| - 1]) + rows[|rows| - 1].lines
  }

  function DraftLines(d: Option<Draft>): seq<nat> { if d.None? then [] else d.value.lines }

  /** All rows are complete, and the lines of the rows and then those of the open question are
      different lines in the order of the document. */
  predicate Tidy(s: State, lo: nat, n: nat) {
    (forall r :: r in s.rows ==> Complete(r)) && Ascending(RowLines(s.rows) + DraftLines(s.current), lo, n)
  }

  lemma RowLinesAppend(rows: seq<Row>, r: Row)
    ensures RowLines(rows + [r]) == RowLines(rows) + r.lines
  {
    assert (rows + [r])[..|rows|] == rows;
  }

  lemma AscendingParts(a: seq<nat>, b: seq<nat>, lo: nat, n: nat)
    requires lo <= n && Ascending(a + b, lo, n)
    ensures Ascending(a, lo, n) && Ascending(a, lo, n + 1)
    ensures Ascending(a + [n], lo, n + 1) && Ascending(a + (b + [n]), lo, n + 1) && Ascending(a + b, lo, n + 1)
    ensures Ascending(a + b + [n], lo, n + 1) && Ascending(a + [], lo, n)
  {
    assert forall k :: 0 <= k < |a| ==> (a + b)[k] == a[k];
    assert a + (b + [n]) == a + b + [n] && a + [] == a;
    assert forall k :: 0 <= k < |a + b| ==> (a + b + [n])[k] == (a + b)[k];
  }

  /** Finalizing adds one complete row made of the lines of the open question, or none. */
  lemma FinalizedRow(s: State) returns (r: Option<Row>)
    ensures Finalized(s).current.None?
    ensures r.None? ==> Finalized(s).rows == s.rows
    ensures s.current.None? ==> r.None?
    ensures r.Some? ==> Finalized(s).rows == s.rows + [r.value] && Complete(r.value) && r.value.lines == DraftLines(s.current)
  {
    hide StemText, OptionText;
    var rows := Finalized(s).rows;
    assert s.rows + [] == s.rows;
    r := if rows == s.rows then None else Some(rows[|rows| - 1]);
  }

  lemma AllComplete(rows: seq<Row>, r: Row)
    requires (forall x :: x in rows ==> Complete(x)) && Complete(r)
    ensures forall x :: x in rows + [r] ==> Complete(x)
  {
  }

  lemma FinalizedIsTidy(s: State, lo: nat, n: nat)
    requires lo <= n && Tidy(s, lo, n)
    ensures Tidy(Finalized(s), lo, n) && Finalized(s).current.None?
  {
    hide Finalized, Complete, Ascending, RowLines;
    AscendingParts(RowLines(s.rows), DraftLines(s.current), lo, n);
    assert RowLines(s.rows) + [] == RowLines(s.rows);
    var r := FinalizedRow(s);
    if r.Some? {
      RowLinesAppend(s.rows, r.value);
      AllComplete(s.rows, r.value);
      assert RowLines(s.rows + [r.value]) + [] == RowLines(s.rows + [r.value]);
    }
  }

  /** No input line takes part in two rows, and rows come in the order of the document: one step
      keeps the state tidy. */
  lemma StepIsTidy(s0: State, text: string, lo: nat, at: nat, sh: Shapes)
    requires lo <= at && Tidy(s0, lo, at)
    ensures Tidy(Step(s0, text, at, sh), lo, at + 1)
  {
    hide StemText, Finalized, Body, QuestionHeading, LongStatement, WithInstruction, Tidy, KeyLetter, Contains, RowLines;
    var line := StemText(text);
    var s := s0.(keyMode := false);
    OtherFields(s0, lo, at);
    FinalizedIsTidy(s, lo, at);
    OtherFields(Finalized(s), lo, at);
    if line != "" {
      BodyIsTidy(s, line, text, lo, at, sh);
    }
  }

  /** Only the rows and the open question matter. */
  lemma OtherFields(s: State, lo: nat, n: nat)
    requires Tidy(s, lo, n)
    ensures forall t: State :: t.rows == s.rows && t.current == s.current ==> Tidy(t, lo, n) && Tidy(t, lo, n + 1)
  {
  }

  lemma InlineIsComplete(text: string, section: string, at: nat, sh: Shapes)
    requires InlineRow(text, section, at, sh).Some?
    ensures Complete(InlineRow(text, section, at, sh).value) && InlineRow(text, section, at, sh).value.lines == [at]
  {
    hide StemText, OptionText, StripSet, FirstMarker;
  }

  lemma BodyIsTidy(s: State, line: string, text: string, lo: nat, at: nat, sh: Shapes)
    requires lo <= at && Tidy(s, lo, at) && line != ""
    ensures Tidy(Body(s, line, text, at, sh), lo, at + 1)
  {
    hide StemText, OptionText, Finalized, InlineRow, AnswerLine, OptionLine, Ascending, Complete, RowLines;
    var lines, open := RowLines(s.rows), DraftLines(s.current);
    AscendingParts(lines, open, lo, at);
    FinalizedIsTidy(s, lo, at);
    FinalizedKeeps(s);
    var t := Finalized(s);
    AscendingParts(RowLines(t.rows), [], lo, at);
    assert RowLines(t.rows) + [] == RowLines(t.rows);
    if OpenObjective(s) {
      var d := s.current.value;
      if AnswerLine(line).Some? {
        FinalizedIsTidy(s.(current := Some(d.(key := AnswerLine(line), lines := open + [at]))), lo, at + 1);
      } else if OptionLine(line).Some? {
        var (key, option) := OptionLine(line).value;
        var d' := d.(options := d.options[key := OptionText(option)], lines := open + [at]);
        FinalizedIsTidy(s.(current := Some(d')), lo, at + 1);
      }
    }
    if InlineRow(text, s.section, at, sh).Some? {
      InlineIsComplete(text, s.section, at, sh);
      var r := InlineRow(text, s.section, at, sh).value;
      RowLinesAppend(t.rows, r);
      assert RowLines(t.rows) + [at] + [] == RowLines(t.rows) + [at];
    }
  }

  lemma {:induction false} RunIsTidy(s: State, texts: seq<string>, lo: nat, from: nat, sh: Shapes)
    requires lo <= from <= |texts| && Tidy(s, lo, from)
    ensures Tidy(Run(s, texts, from, sh), lo, |texts|)
    decreases |texts| - from
  {
    hide Tidy, Step;
    if from < |texts| {
      StepIsTidy(s, texts[from], lo, from, sh);
      RunIsTidy(Step(s, texts[from], from, sh), texts, lo, from + 1, sh);
    }
  }

  lemma {:induction false} FilledLines(rows: seq<Row>, keys: seq<Label>)
    ensures |Filled(rows, keys)| == |rows|
    ensures forall k :: 0 <= k < |rows| ==>
              Filled(rows, keys)[k].lines == rows[k].lines && (Complete(rows[k]) ==> Complete(Filled(rows, keys)[k]))
    decreases |rows|
  {
    FilledLength(rows, keys);
    if rows != [] {
      var keys' := if keys != [] && Unanswered(rows[0]) then keys[1..] else keys;
      FilledLines(rows[1..], keys');
      var f := Filled(rows, keys);
      assert f[1..] == Filled(rows[1..], keys');
      forall k | 0 < k < |rows| ensures f[k].lines == rows[k].lines && (Complete(rows[k]) ==> Complete(f[k])) {
        assert f[k] == f[1..][k - 1] && rows[k] == rows[1..][k - 1];
      }
    }
  }

  lemma {:induction false} SameLines(a: seq<Row>, b: seq<Row>)
    requires |a| == |b| && forall k :: 0 <= k < |a| ==> a[k].lines == b[k].lines
    ensures RowLines(a) == RowLines(b)
    decreases |a|
  {
    if a != [] { SameLines(a[..|a| - 1], b[..|b| - 1]); }
  }

  /** Whatever the document holds: every emitted row has a stem, every objective row has exactly
      the options A to D, rows come in the order of the document, and no paragraph is part of
      two rows. */
  lemma RowsAreComplete(texts: seq<string>, sh: Shapes)
    ensures forall r :: r in Parsed(texts, sh) ==> Complete(r)
    ensures Ascending(RowLines(Parsed(texts, sh)), 0, |texts|)
  {
    RowsFromHere(START, texts, 0, sh);
  }

  lemma NothingRead(s: State, n: nat)
    requires s.rows == [] && s.current.None?
    ensures Tidy(s, n, n)
  {
  }

  /** The rows of a run that starts with nothing read come from the paragraphs it reads. */
  lemma RowsFromHere(s: State, texts: seq<string>, from: nat, sh: Shapes)
    requires from <= |texts| && s.rows == [] && s.current.None?
    ensures var f := Finalized(Run(s, texts, from, sh));
      && (forall r :: r in Filled(f.rows, f.keys) ==> Complete(r))
      && Ascending(RowLines(Filled(f.rows, f.keys)), from, |texts|)
  {
    hide Run, Finalized, Complete, Ascending;
    NothingRead(s, from);
    RunIsTidy(s, texts, from, from, sh);
    var t := Finalized(Run(s, texts, from, sh));
    FinalizedIsTidy(Run(s, texts, from, sh), from, |texts|);
    FilledLines(t.rows, t.keys);
    SameLines(t.rows, Filled(t.rows, t.keys));
    assert RowLines(t.rows) + [] == RowLines(t.rows);
    forall r | r in Filled(t.rows, t.keys) ensures Complete(r) {
      var k :| 0 <= k < |t.rows| && Filled(t.rows, t.keys)[k] == r;
      assert t.rows[k] in t.rows;
    }
  }

  lemma {:induction false} LineOfRow(rows: seq<Row>, i: nat, x: nat)
    requires i < |rows| && x in rows[i].lines
    ensures x in RowLines(rows)
    decreases |rows|
  {
    if i < |rows| - 1 { LineOfRow(rows[..|rows| - 1], i, x); }
  }
}
