/**
  Texts that the clean-up of the document parser changes: they are in no row, so a printed paper
  with such a text does not come back.
 */
module DocxTexts {
  import opened Wrappers
  import opened Chars
  import opened RichSlices
  import opened DocxRows
  import opened DocxPapers
  import opened DocxSources
  import opened DocxAbsence

  // ----------------------------------------------------------------- texts that do not stay

  /** The clean-up leaves the texts of the row alone. */
  predicate Cleaned(r: Row) {
    Settled(r.stem) && (r.Objective? ==> forall l :: l in r.options ==> r.options[l] == "" || ProperOption(r.options[l]))
  }

  predicate AllCleaned(rows: seq<Row>) { forall r :: r in rows ==> Cleaned(r) }

  lemma FinalizedCleaned(s: State)
    requires AllCleaned(s.rows)
    ensures AllCleaned(Finalized(s).rows)
  {
    hide StemText, OptionText, Settled, ProperOption;
    if s.current.Some? {
      var d := s.current.value;
      StemIsSettled(d.stem);
      if d.ObjectiveDraft? {
        forall l | l in Ordered(d.options) ensures Ordered(d.options)[l] == "" || ProperOption(Ordered(d.options)[l]) {
          OptionIsProper(if l in d.options then d.options[l] else "");
        }
      }
    }
  }

  lemma InlineCleaned(text: string, section: string, at: nat, sh: Shapes)
    requires InlineRow(text, section, at, sh).Some?
    ensures Cleaned(InlineRow(text, section, at, sh).value)
  {
    hide StemText, OptionText, Settled, ProperOption, StripSet, FirstMarker, SafeText, Slice, Strip;
    forall s: string ensures StemText(s) == "" || Settled(StemText(s)) { StemIsSettled(s); }
    forall s: string ensures OptionText(s) == "" || ProperOption(OptionText(s)) { OptionIsProper(s); }
  }

  lemma AnyDraftCleaned(rows: seq<Row>)
    requires AllCleaned(rows)
    ensures forall t: State :: t.rows == rows ==> AllCleaned(Finalized(t).rows)
  {
    hide Finalized, AllCleaned;
    forall t: State | t.rows == rows ensures AllCleaned(Finalized(t).rows) { FinalizedCleaned(t); }
  }

  lemma OneMoreCleaned(rows: seq<Row>, r: Row)
    requires AllCleaned(rows) && Cleaned(r)
    ensures AllCleaned(rows + [r])
  {
    hide Cleaned;
  }

  lemma BodyCleaned(s: State, line: string, text: string, at: nat, sh: Shapes)
    requires AllCleaned(s.rows)
    ensures AllCleaned(Body(s, line, text, at, sh).rows)
  {
    hide StemText, OptionText, Finalized, InlineRow, AnswerLine, OptionLine, AllCleaned, Cleaned;
    AnyDraftCleaned(s.rows);
    if OptionLine(line).Some? && OpenObjective(s) {
      var d := s.current.value;
      var options := d.options[OptionLine(line).value.0 := OptionText(OptionLine(line).value.1)];
      assert AllCleaned(Finalized(s.(current := Some(d.(options := options, lines := d.lines + [at])))).rows);
    }
    if InlineRow(text, s.section, at, sh).Some? {
      InlineCleaned(text, s.section, at, sh);
      OneMoreCleaned(Finalized(s).rows, InlineRow(text, s.section, at, sh).value);
    }
  }

  lemma StepCleaned(s0: State, text: string, at: nat, sh: Shapes)
    requires AllCleaned(s0.rows)
    ensures AllCleaned(Step(s0, text, at, sh).rows)
  {
    hide StemText, Finalized, Body, QuestionHeading, LongStatement, WithInstruction, AllCleaned, KeyLetter, Contains,
         UpperText;
    AnyDraftCleaned(s0.rows);
    BodyCleaned(s0.(keyMode := false), StemText(text), text, at, sh);
  }

  lemma {:induction false} OverCleaned(s: State, lines: seq<string>, from: nat, sh: Shapes)
    requires AllCleaned(s.rows)
    ensures AllCleaned(Over(s, lines, from, sh).rows)
    decreases |lines|
  {
    hide Step, AllCleaned;
    if lines != [] {
      StepCleaned(s, lines[0], from, sh);
      OverCleaned(Step(s, lines[0], from, sh), lines[1..], from + 1, sh);
    }
  }

  /** Every text of every emitted row stays as it is under the clean-up. */
  lemma RowsAreCleaned(texts: seq<string>, sh: Shapes, i: nat)
    requires i < |Parsed(texts, sh)|
    ensures Cleaned(Parsed(texts, sh)[i])
  {
    hide Step, Over, Finalized, Filled, Parsed, Settled, ProperOption;
    OverCleaned(START, texts, 0, sh);
    var s := Over(START, texts, 0, sh);
    FinalizedCleaned(s);
    ParsedIs(texts, sh);
    FilledLength(Finalized(s).rows, Finalized(s).keys);
    assert Finalized(s).rows[i] in Finalized(s).rows;
    FilledAt(Finalized(s).rows, Finalized(s).keys, i);
  }

  /** The printed texts that stay as they are. */
  predicate TextsFit(q: Question) { Settled(q.stem) && forall l :: ProperOption(Choice(q, l)) }

  lemma UnsettledStem(qs: seq<Question>, heading: string, ts: seq<seq<string>>, keys: seq<Label>, sh: Shapes, j: nat)
    requires j < |qs| && !Settled(qs[j].stem)
    ensures Parsed(WholePaper(qs, heading, ts, keys), sh) != ExpectedRows(qs, heading, ts, keys)
  {
    hide Settled, Parsed, WholePaper, ExpectedRows, ProperOption, Printed;
    PrintedStarts(qs[j]);
    QuestionRow(qs, heading, ts, keys, j, 0);
    if j < |Parsed(WholePaper(qs, heading, ts, keys), sh)| { RowsAreCleaned(WholePaper(qs, heading, ts, keys), sh, j); }
  }

  function Order(l: Label): nat {
    match l case A => 1 case B => 2 case C => 3 case D => 4
  }

  lemma PrintedStarts(q: Question)
    ensures |Printed(q)| == (if q.answer.Some? then 6 else 5) && Printed(q)[0] == q.stem
    ensures forall l :: Printed(q)[Order(l)] == OptionPrinted(q, l)
    ensures q.answer.Some? ==> Printed(q)[5] == AnswerPrinted(q.answer.value)
  {
  }

  lemma ChoiceInRow(q: Question, l: Label)
    ensures l in Choices(q) && Choices(q)[l] == Choice(q, l)
  {
  }

  lemma ImproperOption(qs: seq<Question>, heading: string, ts: seq<seq<string>>, keys: seq<Label>, sh: Shapes, j: nat, l: Label)
    requires j < |qs| && Choice(qs[j], l) != "" && !ProperOption(Choice(qs[j], l))
    ensures Parsed(WholePaper(qs, heading, ts, keys), sh) != ExpectedRows(qs, heading, ts, keys)
  {
    hide Settled, Parsed, WholePaper, ExpectedRows, ProperOption, Printed, Choices, Choice;
    PrintedStarts(qs[j]);
    ChoiceInRow(qs[j], l);
    QuestionRow(qs, heading, ts, keys, j, 0);
    if j < |Parsed(WholePaper(qs, heading, ts, keys), sh)| { RowsAreCleaned(WholePaper(qs, heading, ts, keys), sh, j); }
  }

  /** A printed option or answer line is not the empty option of another letter. */
  lemma PrintedOption(q: Question, l: Label, other: Label)
    requires Choice(q, l) == "" && (Choice(q, other) == "" || ProperOption(Choice(q, other)))
    ensures !OptionOfLine("", l, StemText(OptionPrinted(q, other)))
  {
    hide Settled, OptionLine, OptionText, StemText, Letter, ProperOption, Choice;
    if Choice(q, other) == "" {
      BareLetter(other);
      assert OptionPrinted(q, other) == [Letter(other)] + ". ";
    } else {
      ProperPrinted(other, Choice(q, other));
    }
  }

  lemma ProperPrinted(l: Label, x: string)
    requires ProperOption(x)
    ensures var line := StemText([Letter(l)] + ". " + x); OptionText(line) != "" && OptionLine(line) == Some((l, x)) && OptionText(x) == x && x != ""
  {
    hide SafeText, OptionLine, OptionText, StemText, Letter, LabelOf, IsCollapsed;
    var line := [Letter(l)] + ". " + x;
    LetterLabel(l);
    PrefixSettled(Letter(l), x);
    SettledStays(x);
    SettledStays(line);
    OptionShape(l, x);
    OptionStays(x);
    assert line[|line| - 1] == x[|x| - 1];
    OptionStays(line);
  }

  /** A letter and a full stop with nothing behind them are no option line. */
  lemma BareLetter(l: Label)
    ensures var line := StemText([Letter(l)] + ". "); OptionLine(line).None? && OptionText(line) != ""
  {
    hide SafeText, LabelOf;
    var bare := [Letter(l), '.'];
    LetterLabel(l);
    VisibleSettled(bare);
    assert [Letter(l)] + ". " == bare + " ";
    SqueezeBlank(bare);
    SettledStays(bare);
    OptionStays(bare);
  }

  lemma SqueezeBlank(s: string)
    requires Settled(s)
    ensures StemText(s + " ") == s
  {
    hide SafeText, Single, Squeeze, Strip;
    SqueezePrefix(s, " ");
    assert Squeeze(" ") == " " by { OneBlank(); }
    assert [' '] == " ";
    StripAround("", s, " ");
    assert "" + s + " " == s + " ";
    StripAround("", s, "");
    assert "" + s + "" == s;
  }

  lemma OneBlank()
    ensures Squeeze(" ") == " "
  {
    SqueezeSingle(" ");
  }

  lemma PrintedAnswer(a: Label, l: Label)
    ensures !OptionOfLine("", l, StemText(AnswerPrinted(a)))
  {
    hide SafeText, StemText, OptionText;
    var line := AnswerPrinted(a);
    assert line == ['A', 'n', 's', 'w', 'e', 'r', ':', ' ', Letter(a)];
    AnswerSettled(a);
    SettledStays(line);
    LetterLabel(a);
    OptionStays(line);
  }

  lemma EmptyOption(qs: seq<Question>, heading: string, ts: seq<seq<string>>, keys: seq<Label>, sh: Shapes, j: nat, l: Label)
    requires j < |qs| && Choice(qs[j], l) == "" && forall m :: Choice(qs[j], m) == "" || ProperOption(Choice(qs[j], m))
    ensures Parsed(WholePaper(qs, heading, ts, keys), sh) != ExpectedRows(qs, heading, ts, keys)
  {
    hide Parsed, WholePaper, ExpectedRows, ProperOption, Printed, Choice, Choices, Paper, OptionOfLine, StemText,
         OptionPrinted, AnswerPrinted, InlineOf;
    var q, texts, e := qs[j], WholePaper(qs, heading, ts, keys), ExpectedRows(qs, heading, ts, keys);
    PrintedStarts(q);
    ChoiceInRow(q, l);
    QuestionRow(qs, heading, ts, keys, j, 0);
    RowsComeFromParagraphs(texts, sh);
    var k := QuestionAt(qs, j);
    if Parsed(texts, sh) == e {
      assert RowFrom(e[j], texts, sh);
      assert |e[j].lines| >= 5;
      assert OptionFrom("", l, texts, e[j].lines);
      var i :| 1 <= i < |e[j].lines| && e[j].lines[i] < |texts| && OptionOfLine("", l, StemText(texts[e[j].lines[i]]));
      QuestionRow(qs, heading, ts, keys, j, i);
      LineKinds(q, i);
      if i == 5 { PrintedAnswer(q.answer.value, l); } else { PrintedOption(q, l, LABELS[i - 1]); }
    }
  }

  lemma LineKinds(q: Question, i: nat)
    requires 1 <= i < |Printed(q)|
    ensures if i == 5 then q.answer.Some? && Printed(q)[i] == AnswerPrinted(q.answer.value)
            else i < 5 && Printed(q)[i] == OptionPrinted(q, LABELS[i - 1])
  {
  }

  lemma UnfitQuestion(qs: seq<Question>, heading: string, ts: seq<seq<string>>, keys: seq<Label>, sh: Shapes, j: nat)
    requires j < |qs| && !TextsFit(qs[j])
    ensures Parsed(WholePaper(qs, heading, ts, keys), sh) != ExpectedRows(qs, heading, ts, keys)
  {
    hide Settled, Parsed, WholePaper, ExpectedRows, ProperOption, Choice;
    if !Settled(qs[j].stem) {
      UnsettledStem(qs, heading, ts, keys, sh, j);
    } else if l :| Choice(qs[j], l) != "" && !ProperOption(Choice(qs[j], l)) {
      ImproperOption(qs, heading, ts, keys, sh, j, l);
    } else {
      var l :| !ProperOption(Choice(qs[j], l));
      EmptyOption(qs, heading, ts, keys, sh, j, l);
    }
  }

  predicate LinesFit(lines: seq<string>) { lines != [] && forall m :: 0 <= m < |lines| ==> Settled(lines[m]) }

  /** Lines that do not stay as they are do not join to a text that does. */
  lemma {:induction false} JoinFits(lines: seq<string>)
    requires Settled(Join(lines, " "))
    ensures LinesFit(lines)
    decreases |lines|
  {
    hide Settled;
    if |lines| > 1 {
      SettledHalves(lines[0], Join(lines[1..], " "));
      JoinFits(lines[1..]);
      assert forall m :: 1 <= m < |lines| ==> lines[m] == lines[1..][m - 1];
    } else if lines == [] {
      NothingSettled();
    }
  }

  lemma NothingSettled()
    ensures !Settled("")
  {
  }

  lemma SettledHalves(a: string, b: string)
    requires Settled(a + " " + b)
    ensures Settled(a) && Settled(b)
  {
    hide SafeText, IsSpace;
    var j := a + " " + b;
    BlankHere();
    HalvesSafe(a, b);
    assert j[|a|] == ' ';
    assert j[|j| - 1] == if b == "" then ' ' else b[|b| - 1];
    assert j[0] == if a == "" then ' ' else a[0];
    assert forall k :: 0 <= k < |a| ==> a[k] == j[k];
    assert forall k :: 0 <= k < |b| ==> b[k] == j[|a| + 1 + k];
  }

  lemma BlankHere()
    ensures IsSpace(' ')
  {
  }

  lemma HalvesSafe(a: string, b: string)
    requires SafeText(a + " " + b) == a + " " + b
    ensures SafeText(a) == a && SafeText(b) == b
  {
    hide SafeText;
    var j := a + " " + b;
    SafeTextIsSafe(j);
    assert forall k :: 0 <= k < |a| ==> a[k] == j[k];
    assert forall k :: 0 <= k < |b| ==> b[k] == j[|a| + 1 + k];
    AllSafeStays(a);
    AllSafeStays(b);
  }

  lemma UnfitTheory(qs: seq<Question>, heading: string, ts: seq<seq<string>>, keys: seq<Label>, sh: Shapes, i: nat)
    requires i < |ts| && !LinesFit(ts[i])
    ensures Parsed(WholePaper(qs, heading, ts, keys), sh) != ExpectedRows(qs, heading, ts, keys)
  {
    hide Settled, Parsed, WholePaper, ExpectedRows, ProperOption, LinesFit;
    TheoryRow(qs, heading, ts, keys, i);
    if Settled(Join(ts[i], " ")) { JoinFits(ts[i]); }
    if |qs| + i < |Parsed(WholePaper(qs, heading, ts, keys), sh)| { RowsAreCleaned(WholePaper(qs, heading, ts, keys), sh, |qs| + i); }
  }
}
