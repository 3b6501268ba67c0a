/**
  Papers in the layout the document parser is made for: a stem, four lettered options and
  perhaps an answer line for each question, then perhaps a theory section and an answer key.
  Such papers come back question by question.
 */
module DocxPapers {
  import opened Wrappers
  import opened Chars
  import opened RichSlices
  import opened DocxRows

  datatype Question = Question(stem: string, a: string, b: string, c: string, d: string, answer: Option<Label>)

  function Letter(l: Label): char {
    match l case A => 'A' case B => 'B' case C => 'C' case D => 'D'
  }

  function Choice(q: Question, l: Label): string {
    match l case A => q.a case B => q.b case C => q.c case D => q.d
  }

  function OptionPrinted(q: Question, l: Label): string { [Letter(l)] + ". " + Choice(q, l) }

  function AnswerPrinted(l: Label): string { "Answer: " + [Letter(l)] }

  function Printed(q: Question): seq<string> {
    [q.stem, OptionPrinted(q, A), OptionPrinted(q, B), OptionPrinted(q, C), OptionPrinted(q, D)]
    + if q.answer.Some? then [AnswerPrinted(q.answer.value)] else []
  }

  function Paper(qs: seq<Question>): seq<string> {
    if qs == [] then [] else Printed(qs[0]) + Paper(qs[1..])
  }

  function KeyLines(keys: seq<Label>): seq<string> {
    seq(|keys|, k requires 0 <= k < |keys| => [Letter(keys[k])])
  }

  function KeyBlock(keys: seq<Label>): seq<string> { if keys == [] then [] else ["ANSWER"] + KeyLines(keys) }

  // ------------------------------------------------------- lines that are no headings

  /** Text that the clean-up of lines leaves alone. */
  predicate Settled(s: string) { IsCollapsed(s) && SafeText(s) == s }

  predicate NoHeading(line: string, sh: Shapes) {
    && UpperText(line) != "ANSWER" && !sh.section(line) && !sh.theoryHeader(line) && !sh.objectiveHeader(line)
    && !QuestionHeading(line) && !sh.instruction(line)
  }

  predicate NoInline(line: string, sh: Shapes) { InlineRow(line, "", 0, sh).None? }

  predicate ValidStem(stem: string, sh: Shapes) {
    Settled(stem) && NoHeading(stem, sh) && NoInline(stem, sh) && AnswerLine(stem).None?
  }

  /** Text that the clean-up of options leaves alone. */
  predicate ProperOption(x: string) { Settled(x) && x[0] != '-' && x[|x| - 1] != '-' }

  predicate ValidOption(q: Question, l: Label, sh: Shapes) {
    && ProperOption(Choice(q, l))
    && NoHeading(OptionPrinted(q, l), sh) && NoInline(OptionPrinted(q, l), sh)
  }

  predicate ValidQuestion(q: Question, sh: Shapes) {
    && ValidStem(q.stem, sh)
    && ValidOption(q, A, sh) && ValidOption(q, B, sh) && ValidOption(q, C, sh) && ValidOption(q, D, sh)
    && (q.answer.Some? ==> NoHeading(AnswerPrinted(q.answer.value), sh))
  }

  lemma SettledStays(s: string)
    requires Settled(s)
    ensures StemText(s) == s && s != ""
  {
    hide Collapse, SafeText, Strip, Single;
    CollapseLine(s, "");
    assert s + "" == s;
    StripAround("", s, "");
    assert "" + s + "" == s;
  }

  lemma OptionStays(s: string)
    requires ProperOption(s)
    ensures OptionText(s) == s
  {
    CollapseLine(s, "");
    assert s + "" == s;
  }

  lemma InlineNowhere(line: string, section: string, at: nat, sh: Shapes)
    requires NoInline(line, sh)
    ensures InlineRow(line, section, at, sh).None?
  {
    hide StemText, OptionText, StripSet, FirstMarker, SafeText, Slice;
  }

  lemma SafeAppend(a: string, b: string)
    requires SafeText(a) == a && SafeText(b) == b
    ensures SafeText(a + b) == a + b
  {
    SafeConcat(a, b);
  }

  lemma PrefixCollapsed(c: char, x: string)
    requires 'A' <= c <= 'D' && IsCollapsed(x)
    ensures IsCollapsed([c] + ". " + x)
  {
    var line := [c] + ". " + x;
    assert line[0] == c && !IsSpace(c) && !IsSpace('.') && line[|line| - 1] == x[|x| - 1] && line[3] == x[0];
    forall k | 0 <= k < |line| && IsSpace(line[k]) ensures line[k] == ' ' && (k + 1 < |line| ==> !IsSpace(line[k + 1])) {
      if k >= 3 { assert line[k] == x[k - 3] && (k + 1 < |line| ==> line[k + 1] == x[k - 2]); }
    }
  }

  /** A letter, a full stop and a settled text are settled. */
  lemma PrefixSettled(c: char, x: string)
    requires 'A' <= c <= 'D' && Settled(x)
    ensures Settled([c] + ". " + x)
  {
    hide SafeText, IsCollapsed;
    PrefixCollapsed(c, x);
    SafePlain([c] + ". ");
    SafeAppend([c] + ". ", x);
  }

  /** Text of visible ASCII characters is settled. */
  lemma VisibleSettled(s: string)
    requires s != "" && forall k :: 0 <= k < |s| ==> 0x21 <= s[k] as int < 0x7F
    ensures Settled(s)
  {
    SafePlain(s);
  }

  lemma AnswerSettled(l: Label)
    ensures Settled(AnswerPrinted(l))
  {
    hide SafeText;
    var line := AnswerPrinted(l);
    assert line == ['A', 'n', 's', 'w', 'e', 'r', ':', ' ', Letter(l)];
    SafePlain(line);
  }

  lemma AnswerRecognised(l: Label)
    ensures AnswerLine(AnswerPrinted(l)) == Some(l)
  {
    var line := AnswerPrinted(l);
    assert line == ['A', 'n', 's', 'w', 'e', 'r', ':', ' ', Letter(l)];
    hide SkipSpaces;
    assert "ANSWER" <= UpperText(line);
    SkipSpacesUnique(line, 6, 6);
    SkipSpacesUnique(line, 7, 8);
    LetterLabel(l);
  }

  lemma LetterLabel(l: Label)
    ensures LabelOf(Letter(l)) == Some(l) && 'A' <= Letter(l) <= 'D' && !IsSpace(Letter(l))
  {
  }

  lemma {:induction false} SafePlain(s: string)
    requires forall k :: 0 <= k < |s| ==> s[k] as int < 0x80
    ensures SafeText(s) == s
    decreases |s|
  {
    if s != "" {
      SafePlain(s[1..]);
      assert SafeChar(s[0]) == [s[0]];
      hide SafeChar;
      assert s == [s[0]] + s[1..];
    }
  }

  lemma NoAnswerWord(line: string)
    requires |line| > 1 && line[1] == '.'
    ensures AnswerLine(line).None?
  {
    hide AnswerAfter;
    assert UpperText(line)[1] == '.';
    assert "ANSWER"[1] == 'N' && "ANS"[1] == 'N';
  }

  lemma OptionRecognised(q: Question, l: Label, sh: Shapes)
    requires ValidOption(q, l, sh)
    ensures OptionLine(OptionPrinted(q, l)) == Some((l, Choice(q, l)))
    ensures AnswerLine(OptionPrinted(q, l)).None? && Settled(OptionPrinted(q, l))
  {
    hide Settled, NoHeading, NoInline, AnswerLine, LabelOf, OptionLine, Choice, Letter;
    LetterLabel(l);
    PrefixSettled(Letter(l), Choice(q, l));
    NoAnswerWord(OptionPrinted(q, l));
    OptionShape(l, Choice(q, l));
  }

  lemma OptionShape(l: Label, x: string)
    requires Settled(x)
    ensures OptionLine([Letter(l)] + ". " + x) == Some((l, x))
  {
    hide LabelOf, SkipSpaces, Letter, SafeText;
    var line := [Letter(l)] + ". " + x;
    LetterLabel(l);
    assert line[1] == '.' && line[2] == ' ' && line[3] == x[0];
    SkipSpacesUnique(line, 2, 3);
    assert line[3..] == x;
  }

  // ---------------------------------------------------------------- reading one question

  /** Between two questions: the last one is stored or has its four options. */
  predicate Ready(s: State) {
    !s.theory && !s.keyMode
    && (s.current.None? || (s.current.value.ObjectiveDraft? && |s.current.value.options| == 4))
  }

  lemma QuietStep(s: State, line: string, at: nat, sh: Shapes)
    requires !s.keyMode && Settled(line) && NoHeading(line, sh)
    requires !(LongStatement(line) && s.current.None? && s.rows == [])
    ensures Step(s, line, at, sh) == Body(s, line, line, at, sh)
  {
    hide StemText, Body, QuestionHeading, LongStatement, Settled, UpperText;
    SettledStays(line);
    assert s.(keyMode := false) == s;
  }

  lemma StemStep(s: State, stem: string, at: nat, sh: Shapes)
    requires Ready(s) && ValidStem(stem, sh) && !(LongStatement(stem) && s.current.None? && s.rows == [])
    requires OptionLine(stem).None? || !OpenObjective(s)
    ensures Step(s, stem, at, sh) == Finalized(s).(current := Some(ObjectiveDraft(stem, map[], None, s.section, [at])))
  {
    hide NoHeading, NoInline, LongStatement, InlineRow, OptionLine, AnswerLine, Settled, Finalized, Step, Ready;
    ReadyFacts(s);
    QuietStep(s, stem, at, sh);
    InlineNowhere(stem, s.section, at, sh);
  }

  lemma ReadyFacts(s: State)
    requires Ready(s)
    ensures !s.theory && !s.keyMode && (OpenObjective(s) ==> |s.current.value.options| == 4)
  {
  }

  lemma OptionStep(s: State, q: Question, l: Label, at: nat, sh: Shapes)
    requires !s.keyMode && !s.theory && OpenObjective(s) && s.current.value.key.None? && ValidOption(q, l, sh)
    ensures Step(s, OptionPrinted(q, l), at, sh)
         == (var d := s.current.value;
             s.(current := Some(d.(options := d.options[l := Choice(q, l)], lines := d.lines + [at]))))
  {
    hide NoHeading, NoInline, LongStatement, InlineRow, OptionLine, AnswerLine, Settled, Finalized, Step, OptionPrinted, Choice;
    OptionRecognised(q, l, sh);
    QuietStep(s, OptionPrinted(q, l), at, sh);
    InlineNowhere(OptionPrinted(q, l), s.section, at, sh);
    OptionStays(Choice(q, l));
  }

  lemma AnswerStep(s: State, l: Label, at: nat, sh: Shapes)
    requires !s.keyMode && OpenObjective(s) && NoHeading(AnswerPrinted(l), sh)
    ensures var d := s.current.value;
      Step(s, AnswerPrinted(l), at, sh) == Finalized(s.(current := Some(d.(key := Some(l), lines := d.lines + [at]))))
  {
    hide NoHeading, LongStatement, AnswerLine, Settled, Finalized, Step, AnswerPrinted;
    AnswerSettled(l);
    AnswerRecognised(l);
    QuietStep(s, AnswerPrinted(l), at, sh);
  }

  function Choices(q: Question): map<Label, string> { map[A := q.a, B := q.b, C := q.c, D := q.d] }

  function Places(from: nat, n: nat): seq<nat> { seq(n, k requires 0 <= k < n => from + k) }

  /** The row of a printed question whose first line is `from`. */
  function RowAt(q: Question, from: nat, section: string): Row {
    Objective(q.stem, Choices(q), q.answer, section, Places(from, |Printed(q)|))
  }

  /** Run over a list of lines that stand from `from` on. */
  function Over(s: State, lines: seq<string>, from: nat, sh: Shapes): State
    decreases |lines|
  {
    if lines == [] then s else Over(Step(s, lines[0], from, sh), lines[1..], from + 1, sh)
  }

  lemma {:induction false} OverIsRun(s: State, texts: seq<string>, from: nat, sh: Shapes)
    requires from <= |texts|
    ensures Run(s, texts, from, sh) == Over(s, texts[from..], from, sh)
    decreases |texts| - from
  {
    hide Step;
    if from < |texts| {
      OverIsRun(Step(s, texts[from], from, sh), texts, from + 1, sh);
      assert texts[from..][1..] == texts[from + 1..];
    }
  }

  lemma {:induction false} OverAppend(s: State, a: seq<string>, b: seq<string>, from: nat, sh: Shapes)
    ensures Over(s, a + b, from, sh) == Over(Over(s, a, from, sh), b, from + |a|, sh)
    decreases |a|
  {
    hide Step;
    if a == [] {
      assert a + b == b;
    } else {
      assert (a + b)[1..] == a[1..] + b;
      OverAppend(Step(s, a[0], from, sh), a[1..], b, from + 1, sh);
    }
  }

  lemma OverOne(s: State, line: string, from: nat, sh: Shapes)
    ensures Over(s, [line], from, sh) == Step(s, line, from, sh)
  {
    hide Step;
    assert [line][1..] == [];
  }

  /** The stem and the four options open a complete question. */
  lemma QuestionOpens(s: State, q: Question, from: nat, sh: Shapes)
    requires Ready(s) && ValidQuestion(q, sh) && !(LongStatement(q.stem) && s.current.None? && s.rows == [])
    requires OptionLine(q.stem).None? || !OpenObjective(s)
    ensures Over(s, Printed(q)[..5], from, sh)
         == Finalized(s).(current := Some(ObjectiveDraft(q.stem, Choices(q), None, s.section, Places(from, 5))))
  {
    hide OptionLine, Step, ValidStem, ValidOption, LongStatement, NoHeading, Finalized, Over, OptionPrinted, Ready;
    StemStep(s, q.stem, from, sh);
    ReadyFacts(s);
    FinalizedKeeps(s);
    var s1 := Step(s, q.stem, from, sh);
    OptionStep(s1, q, A, from + 1, sh);
    var s2 := Step(s1, OptionPrinted(q, A), from + 1, sh);
    OptionStep(s2, q, B, from + 2, sh);
    var s3 := Step(s2, OptionPrinted(q, B), from + 2, sh);
    OptionStep(s3, q, C, from + 3, sh);
    var s4 := Step(s3, OptionPrinted(q, C), from + 3, sh);
    OptionStep(s4, q, D, from + 4, sh);
    var lines := Printed(q)[..5];
    FiveSteps(s, lines, from, sh);
    assert [from] + [from + 1] + [from + 2] + [from + 3] + [from + 4] == Places(from, 5);
  }

  lemma OverFirst(s: State, lines: seq<string>, from: nat, sh: Shapes)
    requires lines != []
    ensures Over(s, lines, from, sh) == Over(Step(s, lines[0], from, sh), lines[1..], from + 1, sh)
  {
    hide Step;
  }

  lemma FiveSteps(s: State, lines: seq<string>, from: nat, sh: Shapes)
    requires |lines| == 5
    ensures Over(s, lines, from, sh)
         == Step(Step(Step(Step(Step(s, lines[0], from, sh), lines[1], from + 1, sh), lines[2], from + 2, sh),
                      lines[3], from + 3, sh), lines[4], from + 4, sh)
  {
    hide Step, Over;
    OverFirst(s, lines, from, sh);
    var s1 := Step(s, lines[0], from, sh);
    OverFirst(s1, lines[1..], from + 1, sh);
    var s2 := Step(s1, lines[1], from + 1, sh);
    assert lines[1..][1..] == lines[2..] && lines[2..][1..] == lines[3..] && lines[3..][1..] == lines[4..] == [lines[4]];
    OverFirst(s2, lines[2..], from + 2, sh);
    var s3 := Step(s2, lines[2], from + 2, sh);
    OverFirst(s3, lines[3..], from + 3, sh);
    OverOne(Step(s3, lines[3], from + 3, sh), lines[4], from + 4, sh);
  }

  /** A printed question adds its row. */
  lemma QuestionReads(s: State, q: Question, from: nat, sh: Shapes)
    requires Ready(s) && ValidQuestion(q, sh) && !(LongStatement(q.stem) && s.current.None? && s.rows == [])
    requires OptionLine(q.stem).None? || !OpenObjective(s)
    ensures var t := Over(s, Printed(q), from, sh);
      && Ready(t) && t.keys == s.keys && t.section == s.section && (OpenObjective(t) <==> q.answer.None?)
      && Finalized(t).rows == Finalized(s).rows + [RowAt(q, from, s.section)]
  {
    hide OptionLine, Step, ValidStem, ValidOption, LongStatement, NoHeading, Over, OptionPrinted, StemText, Choices, Ordered;
    var lines := Printed(q);
    QuestionOpens(s, q, from, sh);
    FinalizedKeeps(s);
    var open := Finalized(s).(current := Some(ObjectiveDraft(q.stem, Choices(q), None, s.section, Places(from, 5))));
    assert lines == lines[..5] + lines[5..];
    OverAppend(s, lines[..5], lines[5..], from, sh);
    SettledQuestion(q, sh);
    if q.answer.Some? {
      assert lines[5..] == [AnswerPrinted(q.answer.value)];
      OverOne(open, AnswerPrinted(q.answer.value), from + 5, sh);
      AnswerStep(open, q.answer.value, from + 5, sh);
      assert Places(from, 5) + [from + 5] == Places(from, 6);
    } else {
      assert lines[5..] == [];
      OverNone(open, from + 5, sh);
    }
  }

  lemma OverNone(s: State, from: nat, sh: Shapes)
    ensures Over(s, [], from, sh) == s
  {
  }

  lemma SettledQuestion(q: Question, sh: Shapes)
    requires ValidQuestion(q, sh)
    ensures StemText(q.stem) == q.stem && q.stem != ""
    ensures |Choices(q)| == 4 && Ordered(Choices(q)) == Choices(q)
  {
    hide NoHeading, NoInline, AnswerLine, OptionLine, OptionText, StemText, Settled;
    SettledStays(q.stem);
    ValidChoice(q, A, sh);
    ValidChoice(q, B, sh);
    ValidChoice(q, C, sh);
    ValidChoice(q, D, sh);
    var m := Choices(q);
    assert m.Keys == {A, B, C, D};
    assert |m| == |m.Keys|;
  }

  lemma ValidChoice(q: Question, l: Label, sh: Shapes)
    requires ValidOption(q, l, sh)
    ensures OptionText(Choice(q, l)) == Choice(q, l)
  {
    OptionStays(Choice(q, l));
  }

  // -------------------------------------------------------------------- whole papers

  function RowsFrom(qs: seq<Question>, from: nat, section: string): seq<Row> {
    if qs == [] then [] else [RowAt(qs[0], from, section)] + RowsFrom(qs[1..], from + |Printed(qs[0])|, section)
  }

  /** A stem that looks like an option line stands behind an answer line, where no question is open. */
  predicate InSequence(qs: seq<Question>) {
    forall j :: 1 <= j < |qs| ==> OptionLine(qs[j].stem).None? || qs[j - 1].answer.Some?
  }

  lemma RestInSequence(qs: seq<Question>)
    requires qs != [] && InSequence(qs)
    ensures InSequence(qs[1..]) && (|qs| > 1 ==> OptionLine(qs[1].stem).None? || qs[0].answer.Some?)
  {
    hide OptionLine;
    var rest := qs[1..];
    forall j | 1 <= j < |rest| ensures OptionLine(rest[j].stem).None? || rest[j - 1].answer.Some? {
      assert rest[j] == qs[j + 1] && rest[j - 1] == qs[j];
    }
  }

  lemma {:induction false} PaperReads(s: State, qs: seq<Question>, from: nat, sh: Shapes)
    requires Ready(s) && forall q :: q in qs ==> ValidQuestion(q, sh)
    requires qs != [] && s.current.None? && s.rows == [] ==> !LongStatement(qs[0].stem)
    requires InSequence(qs) && (qs != [] ==> OptionLine(qs[0].stem).None? || !OpenObjective(s))
    ensures var t := Over(s, Paper(qs), from, sh);
      && Ready(t) && t.keys == s.keys && t.section == s.section
      && (OpenObjective(t) <==> if qs == [] then OpenObjective(s) else qs[|qs| - 1].answer.None?)
      && Finalized(t).rows == Finalized(s).rows + RowsFrom(qs, from, s.section)
    decreases |qs|
  {
    hide Step, ValidQuestion, LongStatement, Over, Printed, RowAt, Ready, Finalized, OptionLine, OpenObjective, InSequence;
    if qs == [] {
      OverNone(s, from, sh);
      assert Finalized(s).rows + [] == Finalized(s).rows;
    } else {
      var q, rest := qs[0], Paper(qs[1..]);
      assert q in qs;
      var t := Over(s, Printed(q), from, sh);
      QuestionReads(s, q, from, sh);
      NotFirst(t, Finalized(s).rows, RowAt(q, from, s.section));
      OverAppend(s, Printed(q), rest, from, sh);
      RestInSequence(qs);
      PaperReads(t, qs[1..], from + |Printed(q)|, sh);
      Regroup(Finalized(s).rows, [RowAt(q, from, s.section)], RowsFrom(qs[1..], from + |Printed(q)|, s.section));
    }
  }

  lemma NotFirst(t: State, rows: seq<Row>, r: Row)
    requires Finalized(t).rows == rows + [r]
    ensures !(t.current.None? && t.rows == [])
  {
  }

  lemma {:induction false} KeyReads(s: State, keys: seq<Label>, from: nat, sh: Shapes)
    requires s.keyMode
    ensures Over(s, KeyLines(keys), from, sh) == s.(keys := s.keys + keys)
    decreases |keys|
  {
    hide Step;
    if keys == [] {
      assert s.keys + keys == s.keys;
      OverNone(s, from, sh);
    } else {
      var line := [Letter(keys[0])];
      KeyLetterStep(s, keys[0], from, sh);
      assert KeyLines(keys)[0] == line && KeyLines(keys)[1..] == KeyLines(keys[1..]);
      var t := s.(keys := s.keys + [keys[0]]);
      KeyReads(t, keys[1..], from + 1, sh);
      assert s.keys + [keys[0]] + keys[1..] == s.keys + keys;
    }
  }

  lemma KeyLetterStep(s: State, l: Label, at: nat, sh: Shapes)
    requires s.keyMode
    ensures Step(s, [Letter(l)], at, sh) == s.(keys := s.keys + [l])
  {
    hide StemText, Body, Settled, Letter, LabelOf;
    var line := [Letter(l)];
    LetterLabel(l);
    VisibleSettled(line);
    SettledStays(line);
  }

  lemma KeyHeading(s: State, at: nat, sh: Shapes)
    requires !s.keyMode
    ensures Step(s, "ANSWER", at, sh) == Finalized(s).(keyMode := true)
  {
    hide StemText, Body, Finalized, Settled;
    VisibleSettled("ANSWER");
    SettledStays("ANSWER");
    assert UpperText("ANSWER") == "ANSWER";
    assert s.(keyMode := false) == s;
  }

  // ------------------------------------------------------------------ theory sections

  /** The lines of one theory question, none behind the first of them numbered. */
  predicate ValidTheory(lines: seq<string>, sh: Shapes) {
    && lines != []
    && (forall k :: 0 <= k < |lines| ==> Settled(lines[k]) && NoHeading(lines[k], sh) && AnswerLine(lines[k]).None?)
    && forall k :: 1 <= k < |lines| ==> !sh.theoryNumber(lines[k])
  }

  /** Every theory question but the first must start with a number. */
  predicate Numbered(ts: seq<seq<string>>, sh: Shapes) {
    forall k :: 1 <= k < |ts| && ts[k] != [] ==> sh.theoryNumber(ts[k][0])
  }

  predicate ValidHeading(heading: string, sh: Shapes) {
    Settled(heading) && UpperText(heading) != "ANSWER" && sh.theoryHeader(heading)
  }

  function AllLines(ts: seq<seq<string>>): seq<string> { if ts == [] then [] else ts[0] + AllLines(ts[1..]) }

  function FirstLine(ts: seq<seq<string>>): string { if ts != [] && ts[0] != [] then ts[0][0] else "" }

  /** The first line of the first question or theory question. */
  function FirstStatement(qs: seq<Question>, ts: seq<seq<string>>): string {
    if qs != [] then qs[0].stem else FirstLine(ts)
  }

  function TheoryPart(heading: string, ts: seq<seq<string>>): seq<string> {
    if ts == [] then [] else [heading] + AllLines(ts)
  }

  /** The row of a theory question: its lines, joined by blanks. */
  function TheoryRowsFrom(ts: seq<seq<string>>, from: nat, section: string): seq<Row> {
    if ts == [] then []
    else [Theory(Join(ts[0], " "), section, Places(from, |ts[0]|))] + TheoryRowsFrom(ts[1..], from + |ts[0]|, section)
  }

  lemma {:induction false} SqueezePrefix(a: string, x: string)
    requires Single(a) && (a != "" ==> !IsSpace(a[|a| - 1]))
    ensures Squeeze(a + x) == a + Squeeze(x)
    decreases |a|
  {
    hide Squeeze, SkipSpaces, IsSpace;
    if a == "" {
      assert a + x == x;
    } else {
      var t := a + x;
      assert t[0] == a[0];
      SqueezeUnfolds(t);
      if IsSpace(a[0]) {
        assert t[1] == a[1];
        SkipSpacesUnique(t, 0, 1);
      }
      assert t[1..] == a[1..] + x && a == [a[0]] + a[1..];
      assert forall k :: 0 <= k < |a[1..]| ==> a[1..][k] == a[k + 1];
      SqueezePrefix(a[1..], x);
    }
  }

  lemma SqueezeBreak(x: string)
    requires x != "" && !IsSpace(x[0])
    ensures Squeeze("\n" + x) == " " + Squeeze(x)
  {
    hide Squeeze, SkipSpaces;
    SqueezeUnfolds("\n" + x);
    SkipSpacesUnique("\n" + x, 0, 1);
    assert ("\n" + x)[1..] == x;
  }

  /** Collapsing the joined lines of a question turns the line breaks into blanks. */
  lemma {:induction false} JoinedLines(lines: seq<string>)
    requires lines != [] && forall k :: 0 <= k < |lines| ==> Settled(lines[k])
    ensures Squeeze(Join(lines, "\n")) == Join(lines, " ") && SafeText(Join(lines, " ")) == Join(lines, " ")
    ensures Trimmed(Join(lines, " ")) && Trimmed(Join(lines, "\n"))
    decreases |lines|
  {
    hide Squeeze, SafeText, Single;
    var a := lines[0];
    if |lines| == 1 {
      SqueezeSingle(a);
    } else {
      var x := Join(lines[1..], "\n");
      JoinedLines(lines[1..]);
      assert Join(lines, "\n") == a + ("\n" + x);
      SqueezePrefix(a, "\n" + x);
      SqueezeBreak(x);
      SafePlain(" ");
      SafeAppend(a, " ");
      SafeAppend(a + " ", Join(lines[1..], " "));
      assert a + " " + Join(lines[1..], " ") == a + (" " + Join(lines[1..], " "));
    }
  }

  lemma JoinedStem(lines: seq<string>)
    requires lines != [] && forall k :: 0 <= k < |lines| ==> Settled(lines[k])
    ensures StemText(Join(lines, "\n")) == Join(lines, " ") && Join(lines, " ") != ""
  {
    hide Squeeze, SafeText, Settled;
    JoinedLines(lines);
    var j := Join(lines, " ");
    StripAround("", j, "");
    assert "" + j + "" == j;
  }

  lemma TheoryStep(s: State, line: string, at: nat, sh: Shapes)
    requires s.theory && !s.keyMode && Settled(line) && NoHeading(line, sh) && AnswerLine(line).None?
    requires !(LongStatement(line) && s.current.None? && s.rows == [])
    ensures sh.theoryNumber(line) || s.current.None? ==>
              Step(s, line, at, sh) == Finalized(s).(current := Some(TheoryDraft(line, s.section, [at])))
    ensures !sh.theoryNumber(line) && s.current.Some? ==>
              var d := s.current.value;
              Step(s, line, at, sh) == s.(current := Some(d.(stem := Strip(d.stem + "\n" + line), lines := d.lines + [at])))
  {
    hide NoHeading, LongStatement, InlineRow, OptionLine, AnswerLine, Settled, Step, Strip;
    QuietStep(s, line, at, sh);
    FinalizedKeeps(s);
  }

  lemma TrimmedAround(a: string, b: string)
    requires Trimmed(a) && Trimmed(b)
    ensures Strip(a + "\n" + b) == a + "\n" + b
  {
    hide Strip, IsSpace;
    var j := a + "\n" + b;
    assert j[0] == a[0] && j[|j| - 1] == b[|b| - 1];
    StripAround("", j, "");
    assert "" + j + "" == j;
  }

  lemma JoinMore(front: seq<string>, line: string)
    requires front != [] && forall k :: 0 <= k < |front| ==> Settled(front[k])
    requires Settled(line)
    ensures Strip(Join(front, "\n") + "\n" + line) == Join(front + [line], "\n")
  {
    hide SafeText, Single, Strip, Trimmed;
    JoinedLines(front);
    JoinAppend(front, [line], "\n");
    TrimmedAround(Join(front, "\n"), line);
  }

  /** The first `n` lines of a theory question, read one after the other. */
  lemma {:induction false} TheoryReads(s: State, lines: seq<string>, n: nat, from: nat, sh: Shapes)
    requires s.theory && !s.keyMode && ValidTheory(lines, sh) && 1 <= n <= |lines|
    requires sh.theoryNumber(lines[0]) || s.current.None?
    requires !(LongStatement(lines[0]) && s.current.None? && s.rows == [])
    ensures Over(s, lines[..n], from, sh)
         == Finalized(s).(current := Some(TheoryDraft(Join(lines[..n], "\n"), s.section, Places(from, n))))
    decreases n
  {
    hide Step, NoHeading, AnswerLine, LongStatement, Settled, Finalized, Over, Strip;
    FinalizedKeeps(s);
    if n == 1 {
      assert lines[..1] == [lines[0]];
      OverOne(s, lines[0], from, sh);
      TheoryStep(s, lines[0], from, sh);
      assert Places(from, 1) == [from];
    } else {
      var front, line := lines[..n - 1], lines[n - 1];
      TheoryReads(s, lines, n - 1, from, sh);
      assert lines[..n] == front + [line];
      OverAppend(s, front, [line], from, sh);
      var t := Over(s, front, from, sh);
      OverOne(t, line, from + (n - 1), sh);
      TheoryStep(t, line, from + (n - 1), sh);
      assert forall k :: 0 <= k < |front| ==> front[k] == lines[k];
      JoinMore(front, line);
      assert Places(from, n - 1) + [from + (n - 1)] == Places(from, n);
    }
  }

  lemma {:induction false} TheorySectionReads(s: State, ts: seq<seq<string>>, from: nat, sh: Shapes)
    requires s.theory && !s.keyMode && s.section != "" && forall k :: 0 <= k < |ts| ==> ValidTheory(ts[k], sh)
    requires ts != [] && s.current.None? && s.rows == [] ==> !LongStatement(FirstLine(ts))
    requires Numbered(ts, sh) && (ts != [] && ts[0] != [] ==> sh.theoryNumber(ts[0][0]) || s.current.None?)
    ensures var t := Over(s, AllLines(ts), from, sh);
      && (if ts == [] then t == s else t.current.Some?)
      && t.theory && !t.keyMode && t.keys == s.keys && t.section == s.section
      && Finalized(t).rows == Finalized(s).rows + TheoryRowsFrom(ts, from, s.section)
    decreases |ts|
  {
    hide *;
    TheoryUnfolds(ts, from, s.section);
    if ts == [] {
      OverNone(s, from, sh);
      assert Finalized(s).rows + [] == Finalized(s).rows;
    } else {
      var lines := ts[0];
      ValidTheoryLines(lines, sh);
      TheoryReads(s, lines, |lines|, from, sh);
      assert lines[..|lines|] == lines;
      OverAppend(s, lines, AllLines(ts[1..]), from, sh);
      var t := Over(s, lines, from, sh);
      FinalizedKeeps(s);
      JoinedStem(lines);
      TheoryFinalized(Finalized(s), Join(lines, "\n"), s.section, Places(from, |lines|));
      assert forall k :: 0 <= k < |ts[1..]| ==> ts[1..][k] == ts[k + 1];
      RestNumbered(ts, sh);
      TheorySectionReads(t, ts[1..], from + |lines|, sh);
      Regroup(Finalized(s).rows, [Theory(Join(lines, " "), s.section, Places(from, |lines|))],
              TheoryRowsFrom(ts[1..], from + |lines|, s.section));
    }
  }

  lemma RestNumbered(ts: seq<seq<string>>, sh: Shapes)
    requires ts != [] && Numbered(ts, sh)
    ensures Numbered(ts[1..], sh) && (|ts| > 1 && ts[1] != [] ==> sh.theoryNumber(ts[1][0]))
  {
    assert forall k :: 0 <= k < |ts[1..]| ==> ts[1..][k] == ts[k + 1];
  }

  lemma TheoryUnfolds(ts: seq<seq<string>>, from: nat, section: string)
    ensures AllLines([]) == [] && TheoryRowsFrom([], from, section) == []
    ensures ts != [] ==>
              && FirstLine(ts) == (if ts[0] != [] then ts[0][0] else "")
              && AllLines(ts) == ts[0] + AllLines(ts[1..])
              && TheoryRowsFrom(ts, from, section)
                 == [Theory(Join(ts[0], " "), section, Places(from, |ts[0]|))] + TheoryRowsFrom(ts[1..], from + |ts[0]|, section)
  {
  }

  lemma ValidTheoryLines(lines: seq<string>, sh: Shapes)
    requires ValidTheory(lines, sh)
    ensures lines != [] && forall k :: 0 <= k < |lines| ==> Settled(lines[k])
  {
  }

  lemma TheoryFinalized(s: State, stem: string, section: string, lines: seq<nat>)
    requires StemText(stem) != "" && section != ""
    ensures var t := s.(current := Some(TheoryDraft(stem, section, lines)));
      Finalized(t).rows == s.rows + [Theory(StemText(stem), section, lines)]
  {
    hide StemText;
  }

  lemma HeadingStep(s: State, heading: string, at: nat, sh: Shapes)
    requires !s.keyMode && ValidHeading(heading, sh)
    ensures Step(s, heading, at, sh)
         == Finalized(s).(theory := true, section := heading, instructions := WithInstruction(s.instructions, heading))
  {
    hide StemText, Body, Finalized, UpperText, WithInstruction;
    SettledStays(heading);
    assert SafeText(heading) == heading;
    assert s.(keyMode := false) == s;
  }

  predicate ValidTheoryPart(heading: string, ts: seq<seq<string>>, sh: Shapes) {
    (ts != [] ==> ValidHeading(heading, sh)) && (forall k :: 0 <= k < |ts| ==> ValidTheory(ts[k], sh)) && Numbered(ts, sh)
  }

  /** Reading a theory part behind the objective questions. */
  lemma TheoryPartReads(s: State, heading: string, ts: seq<seq<string>>, from: nat, sh: Shapes)
    requires !s.keyMode && ts != [] && ValidTheoryPart(heading, ts, sh)
    requires Finalized(s).rows == [] ==> !LongStatement(FirstLine(ts))
    ensures var t := Over(s, TheoryPart(heading, ts), from, sh);
      && !t.keyMode && t.keys == s.keys
      && Finalized(t).rows == Finalized(s).rows + TheoryRowsFrom(ts, from + 1, heading)
  {
    assert heading != "";
    hide Step, ValidTheory, LongStatement, Over, Finalized, ValidHeading, WithInstruction;
    OverAppend(s, [heading], AllLines(ts), from, sh);
    OverOne(s, heading, from, sh);
    HeadingStep(s, heading, from, sh);
    FinalizedKeeps(s);
    var t := Step(s, heading, from, sh);
    FinalizedTwice(t);
    TheorySectionReads(t, ts, from + 1, sh);
  }

  /** A key block closes the paper and hands on its letters. */
  lemma KeyBlockReads(t: State, keys: seq<Label>, n: nat, sh: Shapes)
    requires !t.keyMode && t.keys == []
    ensures var u := Finalized(Over(t, KeyBlock(keys), n, sh)); u.rows == Finalized(t).rows && u.keys == keys
  {
    hide Step, Over, Finalized;
    FinalizedKeeps(t);
    if keys == [] {
      OverNone(t, n, sh);
    } else {
      OverAppend(t, ["ANSWER"], KeyLines(keys), n, sh);
      OverOne(t, "ANSWER", n, sh);
      KeyHeading(t, n, sh);
      var u := Finalized(t).(keyMode := true);
      KeyReads(u, keys, n + 1, sh);
      assert [] + keys == keys;
      FinalizedTwice(u.(keys := keys));
    }
  }

  /** A theory part, or none, behind the questions. */
  lemma TheoryPartOrNone(t: State, heading: string, ts: seq<seq<string>>, from: nat, sh: Shapes)
    requires !t.keyMode && ValidTheoryPart(heading, ts, sh)
    requires Finalized(t).rows == [] ==> !LongStatement(FirstLine(ts))
    ensures var u := Over(t, TheoryPart(heading, ts), from, sh);
      && !u.keyMode && u.keys == t.keys
      && Finalized(u).rows == Finalized(t).rows + TheoryRowsFrom(ts, from + 1, heading)
  {
    hide *;
    if |ts| == 0 {
      NoTheoryPart(heading, ts, from);
      OverNone(t, from, sh);
      assert Finalized(t).rows + [] == Finalized(t).rows;
    } else {
      TheoryPartReads(t, heading, ts, from, sh);
    }
  }

  /** What a paper needs to be read as it is printed. */
  predicate Readable(qs: seq<Question>, heading: string, ts: seq<seq<string>>, sh: Shapes) {
    && (forall q :: q in qs ==> ValidQuestion(q, sh)) && InSequence(qs)
    && ValidTheoryPart(heading, ts, sh)
    && !LongStatement(FirstStatement(qs, ts))
  }

  lemma ReadableParts(qs: seq<Question>, heading: string, ts: seq<seq<string>>, sh: Shapes)
    requires Readable(qs, heading, ts, sh)
    ensures (forall q :: q in qs ==> ValidQuestion(q, sh)) && InSequence(qs) && ValidTheoryPart(heading, ts, sh)
    ensures if qs != [] then !LongStatement(qs[0].stem) else !LongStatement(FirstLine(ts))
  {
  }

  /** The questions and the theory part. */
  lemma PartsRead(s: State, qs: seq<Question>, heading: string, ts: seq<seq<string>>, sh: Shapes)
    requires Ready(s) && !OpenObjective(s) && Readable(qs, heading, ts, sh)
    ensures var u := Over(s, Paper(qs) + TheoryPart(heading, ts), 0, sh);
      && !u.keyMode && u.keys == s.keys
      && Finalized(u).rows == Finalized(s).rows + RowsFrom(qs, 0, s.section) + TheoryRowsFrom(ts, |Paper(qs)| + 1, heading)
  {
    hide *;
    ReadableParts(qs, heading, ts, sh);
    OverAppend(s, Paper(qs), TheoryPart(heading, ts), 0, sh);
    PaperReads(s, qs, 0, sh);
    var t := Over(s, Paper(qs), 0, sh);
    ReadyFacts(t);
    SomeRows(Finalized(s).rows, qs, s.section);
    TheoryPartOrNone(t, heading, ts, |Paper(qs)|, sh);
  }

  /** The whole document: questions, theory part, answer key. */
  function WholePaper(qs: seq<Question>, heading: string, ts: seq<seq<string>>, keys: seq<Label>): seq<string> {
    Paper(qs) + TheoryPart(heading, ts) + KeyBlock(keys)
  }

  /** The rows it stands for. */
  function ExpectedRows(qs: seq<Question>, heading: string, ts: seq<seq<string>>, keys: seq<Label>): seq<Row> {
    Filled(RowsFrom(qs, 0, "") + TheoryRowsFrom(ts, |Paper(qs)| + 1, heading), keys)
  }

  /** A printed paper comes back question by question: the stems and options as printed, the
      printed answers kept and the key handed to the questions without one, then the theory
      questions of the section behind them, their lines joined. */
  lemma RoundTrip(qs: seq<Question>, heading: string, ts: seq<seq<string>>, keys: seq<Label>, sh: Shapes)
    requires Readable(qs, heading, ts, sh)
    ensures Parsed(WholePaper(qs, heading, ts, keys), sh) == ExpectedRows(qs, heading, ts, keys)
  {
    hide *;
    PaperParts(qs, heading, ts, keys);
    var parts := Paper(qs) + TheoryPart(heading, ts);
    StartIsReady();
    PartsRead(START, qs, heading, ts, sh);
    assert [] + RowsFrom(qs, 0, "") == RowsFrom(qs, 0, "");
    var texts := parts + KeyBlock(keys);
    OverAppend(START, parts, KeyBlock(keys), 0, sh);
    KeyBlockReads(Over(START, parts, 0, sh), keys, |parts|, sh);
    ParsedIs(texts, sh);
  }

  lemma PaperParts(qs: seq<Question>, heading: string, ts: seq<seq<string>>, keys: seq<Label>)
    ensures WholePaper(qs, heading, ts, keys) == Paper(qs) + TheoryPart(heading, ts) + KeyBlock(keys)
    ensures ExpectedRows(qs, heading, ts, keys)
         == Filled(RowsFrom(qs, 0, "") + TheoryRowsFrom(ts, |Paper(qs)| + 1, heading), keys)
  {
  }

  lemma ParsedIs(texts: seq<string>, sh: Shapes)
    ensures var s := Finalized(Over(START, texts, 0, sh)); Parsed(texts, sh) == Filled(s.rows, s.keys)
  {
    hide Step, Over, Finalized, Filled, Run;
    OverIsRun(START, texts, 0, sh);
    assert texts[0..] == texts;
  }

  lemma NoTheoryPart(heading: string, ts: seq<seq<string>>, from: nat)
    requires |ts| == 0
    ensures TheoryPart(heading, ts) == [] && TheoryRowsFrom(ts, from + 1, heading) == []
  {
  }

  lemma SomeRows(rows: seq<Row>, qs: seq<Question>, section: string)
    ensures qs != [] ==> rows + RowsFrom(qs, 0, section) != []
  {
    hide RowAt;
  }

  lemma StartIsReady()
    ensures Ready(START) && !OpenObjective(START) && Finalized(START).rows == [] && START.keys == [] && START.section == ""
  {
  }

  lemma FinalizedTwice(s: State)
    requires s.current.None?
    ensures Finalized(s) == s
  {
  }
}
