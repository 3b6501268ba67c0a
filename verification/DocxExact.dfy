/**
  Which papers come back from the document parser, for every paper that can be printed: whatever
  the texts are, and whatever lines are taken for headings, exactly the readable ones do.
 */
module DocxExact {
  import opened Wrappers
  import opened Chars
  import opened RichSlices
  import opened DocxRows
  import opened DocxPapers
  import opened DocxSources
  import opened DocxAbsence
  import opened DocxTexts

  // ------------------------------------------------------------- lines taken for headings

  /** All texts of the paper stay as they are. */
  predicate PaperFits(qs: seq<Question>, ts: seq<seq<string>>) {
    (forall q :: q in qs ==> TextsFit(q)) && forall i :: 0 <= i < |ts| ==> LinesFit(ts[i])
  }

  lemma PrintedSettled(q: Question, i: nat)
    requires TextsFit(q) && i < |Printed(q)|
    ensures Settled(Printed(q)[i]) && StemText(Printed(q)[i]) == Printed(q)[i]
  {
    hide Settled, StemText, Letter, Choice;
    if 1 <= i {
      LineKinds(q, i);
      if i == 5 {
        AnswerSettled(q.answer.value);
      } else {
        LetterLabel(LABELS[i - 1]);
        PrefixSettled(Letter(LABELS[i - 1]), Choice(q, LABELS[i - 1]));
      }
    }
    SettledStays(Printed(q)[i]);
  }

  lemma PlaceInRow(k: nat, n: nat, i: nat)
    requires i < n
    ensures Places(k, n) != [] && !Lacks(Places(k, n), k + i, Nowhere)
    ensures i == 0 ==> !Lacks(Places(k, n), k + i, NotFirst)
    ensures i > 0 ==> !Lacks(Places(k, n), k + i, NotLater)
    ensures n > 1 ==> !Lacks(Places(k, n), k + i, NotTogether)
  {
    var p := Places(k, n);
    assert p[i] == k + i && (i > 0 ==> p[1..][i - 1] == k + i);
  }

  /** A printed line of a question that is taken for a heading is in no row. */
  lemma HeadingInQuestion(qs: seq<Question>, heading: string, ts: seq<seq<string>>, keys: seq<Label>, sh: Shapes, j: nat, i: nat)
    requires j < |qs| && i < |Printed(qs[j])| && TextsFit(qs[j]) && !NoHeading(Printed(qs[j])[i], sh)
    ensures Parsed(WholePaper(qs, heading, ts, keys), sh) != ExpectedRows(qs, heading, ts, keys)
  {
    hide Parsed, WholePaper, ExpectedRows, Printed, Paper, NoHeading, Clear, Step, Body, StemText, TextsFit, Lacks,
         Before;
    QuestionRow(qs, heading, ts, keys, j, i);
    PrintedSettled(qs[j], i);
    var texts, k := WholePaper(qs, heading, ts, keys), QuestionAt(qs, j) + i;
    PlaceInRow(QuestionAt(qs, j), |Printed(qs[j])|, i);
    var s := Before(texts, k, sh);
    if Clear(s, k, Nowhere) { StepClear(s, texts[k], k, sh, k, Nowhere); }
    LostAt(texts, k, Nowhere, ExpectedRows(qs, heading, ts, keys), j, sh);
  }

  lemma HeadingInTheory(qs: seq<Question>, heading: string, ts: seq<seq<string>>, keys: seq<Label>, sh: Shapes, i: nat, m: nat)
    requires i < |ts| && m < |ts[i]| && Settled(ts[i][m]) && !NoHeading(ts[i][m], sh)
    ensures Parsed(WholePaper(qs, heading, ts, keys), sh) != ExpectedRows(qs, heading, ts, keys)
  {
    hide Parsed, WholePaper, ExpectedRows, Printed, Paper, NoHeading, Clear, Step, Body, StemText, Settled, Lacks,
         Before;
    TheoryRow(qs, heading, ts, keys, i);
    TheoryText(qs, heading, ts, keys, i, m);
    SettledStays(ts[i][m]);
    var texts, k := WholePaper(qs, heading, ts, keys), TheoryAt(qs, ts, i) + m;
    PlaceInRow(TheoryAt(qs, ts, i), |ts[i]|, m);
    var s := Before(texts, k, sh);
    if Clear(s, k, Nowhere) { StepClear(s, texts[k], k, sh, k, Nowhere); }
    LostAt(texts, k, Nowhere, ExpectedRows(qs, heading, ts, keys), |qs| + i, sh);
  }

  /** No printed line of a question and no line of a theory question is taken for a heading. */
  predicate NoHeadings(qs: seq<Question>, ts: seq<seq<string>>, sh: Shapes) {
    && (forall q, i :: q in qs && 0 <= i < |Printed(q)| ==> NoHeading(Printed(q)[i], sh))
    && forall i, m :: 0 <= i < |ts| && 0 <= m < |ts[i]| ==> NoHeading(ts[i][m], sh)
  }

  // ----------------------------------------------------------------- a heading that is none

  /** Nothing has turned the parser to theory. */
  predicate NoTheory(s: State) {
    !s.theory && (s.current.Some? ==> s.current.value.ObjectiveDraft?) && forall r :: r in s.rows ==> r.Objective?
  }

  lemma FinalizedNoTheory(s: State)
    requires NoTheory(s)
    ensures NoTheory(Finalized(s))
  {
    hide StemText, Ordered;
  }

  lemma AnyDraftNoTheory(s: State)
    requires NoTheory(s)
    ensures forall t: State :: t.rows == s.rows && !t.theory && (t.current.Some? ==> t.current.value.ObjectiveDraft?) ==>
              NoTheory(t) && NoTheory(Finalized(t))
  {
    hide Finalized;
    forall t: State | t.rows == s.rows && !t.theory && (t.current.Some? ==> t.current.value.ObjectiveDraft?)
      ensures NoTheory(t) && NoTheory(Finalized(t))
    {
      FinalizedNoTheory(t);
    }
  }

  lemma InlineIsObjective(text: string, section: string, at: nat, sh: Shapes)
    requires InlineRow(text, section, at, sh).Some?
    ensures InlineRow(text, section, at, sh).value.Objective?
  {
    hide StemText, OptionText, StripSet, FirstMarker, SafeText, Slice;
  }

  lemma BodyNoTheory(s: State, line: string, text: string, at: nat, sh: Shapes)
    requires NoTheory(s)
    ensures NoTheory(Body(s, line, text, at, sh))
  {
    hide StemText, OptionText, Finalized, InlineRow, AnswerLine, OptionLine;
    FinalizedNoTheory(s);
    AnyDraftNoTheory(s);
    if InlineRow(text, s.section, at, sh).Some? { InlineIsObjective(text, s.section, at, sh); }
    if OptionLine(line).Some? && OpenObjective(s) {
      var d := s.current.value;
      var options := d.options[OptionLine(line).value.0 := OptionText(OptionLine(line).value.1)];
      assert NoTheory(Finalized(s.(current := Some(d.(options := options, lines := d.lines + [at])))));
    }
  }

  /** A line that does not start a theory section. */
  predicate Plain(line: string, sh: Shapes) { UpperText(line) == "ANSWER" || !sh.theoryHeader(line) }

  lemma StepNoTheory(s0: State, text: string, at: nat, sh: Shapes)
    requires NoTheory(s0) && Plain(StemText(text), sh)
    ensures NoTheory(Step(s0, text, at, sh))
  {
    hide StemText, Finalized, Body, QuestionHeading, LongStatement, WithInstruction, KeyLetter, Contains, UpperText;
    var s := s0.(keyMode := false);
    FinalizedNoTheory(s);
    FinalizedKeeps(s);
    BodyNoTheory(s, StemText(text), text, at, sh);
  }

  predicate AllPlain(lines: seq<string>, sh: Shapes) { forall k :: 0 <= k < |lines| ==> Plain(StemText(lines[k]), sh) }

  lemma {:induction false} OverNoTheory(s: State, lines: seq<string>, from: nat, sh: Shapes)
    requires NoTheory(s) && AllPlain(lines, sh)
    ensures NoTheory(Over(s, lines, from, sh))
    decreases |lines|
  {
    hide Step, NoTheory, StemText, Plain;
    if lines != [] {
      StepNoTheory(s, lines[0], from, sh);
      OverNoTheory(Step(s, lines[0], from, sh), lines[1..], from + 1, sh);
    }
  }

  /** An answer key turns nothing to theory. */
  lemma KeysNoTheory(s: State, keys: seq<Label>, from: nat, sh: Shapes)
    requires NoTheory(s)
    ensures NoTheory(Over(s, KeyBlock(keys), from, sh))
  {
    hide Step, Over, Finalized, NoTheory;
    if keys == [] {
      OverNone(s, from, sh);
    } else {
      OverAppend(s, ["ANSWER"], KeyLines(keys), from, sh);
      OverOne(s, "ANSWER", from, sh);
      var t := Step(s, "ANSWER", from, sh);
      AnswerIsPlain(sh);
      StepNoTheory(s, "ANSWER", from, sh);
      KeyHeadingAlways(s, from, sh);
      KeyReads(t, keys, from + 1, sh);
      KeysDoNotMatter(t, t.keys + keys);
    }
  }

  lemma KeysDoNotMatter(s: State, keys: seq<Label>)
    requires NoTheory(s)
    ensures NoTheory(s.(keys := keys))
  {
  }

  lemma AnswerIsPlain(sh: Shapes)
    ensures Plain(StemText("ANSWER"), sh)
  {
    hide StemText, Settled;
    VisibleSettled("ANSWER");
    SettledStays("ANSWER");
    assert UpperText("ANSWER") == "ANSWER";
  }

  lemma KeyHeadingAlways(s: State, at: nat, sh: Shapes)
    ensures Step(s, "ANSWER", at, sh).keyMode
  {
    hide StemText, Body, Finalized, Settled;
    VisibleSettled("ANSWER");
    SettledStays("ANSWER");
    assert UpperText("ANSWER") == "ANSWER";
  }

  lemma {:induction false} PaperPlain(qs: seq<Question>, sh: Shapes)
    requires forall q :: q in qs ==> TextsFit(q) && forall i :: 0 <= i < |Printed(q)| ==> NoHeading(Printed(q)[i], sh)
    ensures AllPlain(Paper(qs), sh)
    decreases |qs|
  {
    hide StemText, Printed, TextsFit, UpperText, QuestionHeading;
    if qs != [] {
      var q := qs[0];
      assert q in qs;
      PaperPlain(qs[1..], sh);
      assert AllPlain(Printed(q), sh) by {
        forall i | 0 <= i < |Printed(q)| ensures Plain(StemText(Printed(q)[i]), sh) {
          PrintedSettled(q, i);
        }
      }
      PlainTogether(Printed(q), Paper(qs[1..]), sh);
    }
  }

  lemma PlainTogether(a: seq<string>, b: seq<string>, sh: Shapes)
    requires AllPlain(a, sh) && AllPlain(b, sh)
    ensures AllPlain(a + b, sh)
  {
    hide Plain, StemText;
  }

  lemma {:induction false} TheoryPlain(ts: seq<seq<string>>, sh: Shapes)
    requires forall i :: 0 <= i < |ts| ==> LinesFit(ts[i]) && forall m :: 0 <= m < |ts[i]| ==> NoHeading(ts[i][m], sh)
    ensures AllPlain(AllLines(ts), sh)
    decreases |ts|
  {
    hide StemText, UpperText, QuestionHeading, Settled;
    if ts != [] {
      assert forall i :: 0 <= i < |ts[1..]| ==> ts[1..][i] == ts[i + 1];
      TheoryPlain(ts[1..], sh);
      assert AllPlain(ts[0], sh) by {
        forall m | 0 <= m < |ts[0]| ensures Plain(StemText(ts[0][m]), sh) {
          SettledStays(ts[0][m]);
        }
      }
      PlainTogether(ts[0], AllLines(ts[1..]), sh);
    }
  }

  /** Without a theory heading there are no theory rows. */
  lemma PlainHeading(qs: seq<Question>, heading: string, ts: seq<seq<string>>, keys: seq<Label>, sh: Shapes)
    requires PaperFits(qs, ts) && NoHeadings(qs, ts, sh) && ts != [] && Settled(heading) && Plain(heading, sh)
    ensures Parsed(WholePaper(qs, heading, ts, keys), sh) != ExpectedRows(qs, heading, ts, keys)
  {
    hide Settled, TextsFit, LinesFit, NoHeading, Plain, Step, Over, Finalized, Filled, StemText, Printed, Paper,
         AllLines, Parsed, ExpectedRows, KeyBlock;
    PaperPlain(qs, sh);
    TheoryPlain(ts, sh);
    SettledStays(heading);
    PlainTogether([heading], AllLines(ts), sh);
    PlainTogether(Paper(qs), [heading] + AllLines(ts), sh);
    var parts := Paper(qs) + TheoryPart(heading, ts);
    OverNoTheory(START, parts, 0, sh);
    OverAppend(START, parts, KeyBlock(keys), 0, sh);
    KeysNoTheory(Over(START, parts, 0, sh), keys, |parts|, sh);
    var s := Over(START, parts + KeyBlock(keys), 0, sh);
    FinalizedNoTheory(s);
    ParsedIs(parts + KeyBlock(keys), sh);
    TheoryRow(qs, heading, ts, keys, 0);
    AllObjective(Finalized(s).rows, Finalized(s).keys);
    assert WholePaper(qs, heading, ts, keys) == parts + KeyBlock(keys);
  }

  lemma AllObjective(rows: seq<Row>, keys: seq<Label>)
    requires forall r :: r in rows ==> r.Objective?
    ensures forall i :: 0 <= i < |Filled(rows, keys)| ==> Filled(rows, keys)[i].Objective?
  {
    hide Filled;
    FilledLength(rows, keys);
    forall i | 0 <= i < |rows| ensures Filled(rows, keys)[i].Objective? {
      assert rows[i] in rows;
      FilledAt(rows, keys, i);
    }
  }

  // ------------------------------------------------------------- a heading that does not stay

  predicate TheorySection(r: Row) { r.Theory? ==> Settled(r.section) }

  /** Theory rows stand under a cleaned heading. */
  predicate SectionsFit(s: State) {
    && (s.section == "" || Settled(s.section)) && (s.theory ==> s.section != "")
    && (s.current.Some? && s.current.value.TheoryDraft? ==> Settled(s.current.value.section))
    && forall r :: r in s.rows ==> TheorySection(r)
  }

  lemma FinalizedSections(s: State)
    requires SectionsFit(s)
    ensures SectionsFit(Finalized(s)) && Finalized(s).current.None?
  {
    hide StemText, Ordered, Settled;
    NothingSettled();
  }

  lemma AnyDraftSections(s: State)
    requires SectionsFit(s)
    ensures forall t: State :: t.rows == s.rows && t.section == s.section && t.theory == s.theory && OpenObjective(t) ==>
              SectionsFit(t) && SectionsFit(Finalized(t))
  {
    hide Finalized, TheorySection, Settled;
    forall t: State | t.rows == s.rows && t.section == s.section && t.theory == s.theory && OpenObjective(t)
      ensures SectionsFit(t) && SectionsFit(Finalized(t))
    {
      FinalizedSections(t);
    }
  }

  lemma BodySections(s: State, line: string, text: string, at: nat, sh: Shapes)
    requires SectionsFit(s)
    ensures SectionsFit(Body(s, line, text, at, sh))
  {
    hide StemText, OptionText, Finalized, InlineRow, AnswerLine, OptionLine, Settled, Strip;
    FinalizedSections(s);
    FinalizedKeeps(s);
    AnyDraftSections(s);
    if InlineRow(text, s.section, at, sh).Some? { InlineIsObjective(text, s.section, at, sh); }
    if OptionLine(line).Some? && OpenObjective(s) {
      var d := s.current.value;
      var options := d.options[OptionLine(line).value.0 := OptionText(OptionLine(line).value.1)];
      assert SectionsFit(Finalized(s.(current := Some(d.(options := options, lines := d.lines + [at])))));
    }
  }

  lemma StepSections(s0: State, text: string, at: nat, sh: Shapes)
    requires SectionsFit(s0)
    ensures SectionsFit(Step(s0, text, at, sh))
  {
    hide StemText, Finalized, Body, QuestionHeading, LongStatement, WithInstruction, KeyLetter, Contains, UpperText,
         Settled, SafeText;
    var s, line := s0.(keyMode := false), StemText(text);
    FinalizedSections(s);
    FinalizedKeeps(s);
    BodySections(s, line, text, at, sh);
    StemIsSettled(text);
    SafeStays(line);
  }

  lemma SafeStays(line: string)
    ensures Settled(line) ==> SafeText(line) == line
  {
  }

  lemma {:induction false} OverSections(s: State, lines: seq<string>, from: nat, sh: Shapes)
    requires SectionsFit(s)
    ensures SectionsFit(Over(s, lines, from, sh))
    decreases |lines|
  {
    hide Step, SectionsFit;
    if lines != [] {
      StepSections(s, lines[0], from, sh);
      OverSections(Step(s, lines[0], from, sh), lines[1..], from + 1, sh);
    }
  }

  lemma UnsettledHeading(qs: seq<Question>, heading: string, ts: seq<seq<string>>, keys: seq<Label>, sh: Shapes)
    requires ts != [] && !Settled(heading)
    ensures Parsed(WholePaper(qs, heading, ts, keys), sh) != ExpectedRows(qs, heading, ts, keys)
  {
    hide Settled, Step, Over, Finalized, Filled, WholePaper, Parsed, ExpectedRows;
    var texts := WholePaper(qs, heading, ts, keys);
    OverSections(START, texts, 0, sh);
    var s := Over(START, texts, 0, sh);
    FinalizedSections(s);
    ParsedIs(texts, sh);
    TheoryRow(qs, heading, ts, keys, 0);
    FilledSections(Finalized(s).rows, Finalized(s).keys);
  }

  lemma FilledSections(rows: seq<Row>, keys: seq<Label>)
    requires forall r :: r in rows ==> TheorySection(r)
    ensures forall i :: 0 <= i < |Filled(rows, keys)| ==> TheorySection(Filled(rows, keys)[i])
  {
    hide Filled, Settled;
    FilledLength(rows, keys);
    forall i | 0 <= i < |rows| ensures TheorySection(Filled(rows, keys)[i]) {
      assert rows[i] in rows;
      FilledAt(rows, keys, i);
    }
  }

  // ----------------------------------------------------------------- a long first statement

  /** Before anything else, a long statement is taken for an instruction. */
  lemma SwallowedClear(s: State, line: string, k: nat, sh: Shapes)
    requires !s.keyMode && s.current.None? && s.rows == [] && Settled(line) && NoHeading(line, sh) && LongStatement(line)
    ensures Clear(Step(s, line, k, sh), k, Nowhere)
  {
    hide UpperText, QuestionHeading, Body, StemText, WithInstruction, LongStatement, Settled;
    SettledStays(line);
  }

  lemma LongStem(qs: seq<Question>, heading: string, ts: seq<seq<string>>, keys: seq<Label>, sh: Shapes)
    requires qs != [] && Settled(qs[0].stem) && NoHeading(qs[0].stem, sh) && LongStatement(qs[0].stem)
    ensures Parsed(WholePaper(qs, heading, ts, keys), sh) != ExpectedRows(qs, heading, ts, keys)
  {
    hide Parsed, WholePaper, ExpectedRows, Printed, NoHeading, Clear, Step, StemText, Settled, Lacks, LongStatement;
    PrintedStarts(qs[0]);
    QuestionRow(qs, heading, ts, keys, 0, 0);
    assert qs[..0] == [];
    PlaceInRow(0, |Printed(qs[0])|, 0);
    SwallowedClear(START, qs[0].stem, 0, sh);
    LostAt(WholePaper(qs, heading, ts, keys), 0, Nowhere, ExpectedRows(qs, heading, ts, keys), 0, sh);
  }

  lemma LongLine(heading: string, ts: seq<seq<string>>, keys: seq<Label>, sh: Shapes)
    requires ts != [] && LinesFit(ts[0]) && ValidHeading(heading, sh) && NoHeading(ts[0][0], sh) && LongStatement(ts[0][0])
    ensures Parsed(WholePaper([], heading, ts, keys), sh) != ExpectedRows([], heading, ts, keys)
  {
    hide Parsed, WholePaper, ExpectedRows, NoHeading, Clear, Step, StemText, Settled, Lacks, LongStatement,
         ValidHeading, WithInstruction, Over;
    TheoryRow([], heading, ts, keys, 0);
    TheoryText([], heading, ts, keys, 0, 0);
    var texts := WholePaper([], heading, ts, keys);
    assert ts[..0] == [] && TheoryAt([], ts, 0) == 1;
    PlaceInRow(1, |ts[0]|, 0);
    assert texts[..1] == [heading];
    OverOne(START, heading, 0, sh);
    HeadingStep(START, heading, 0, sh);
    FinalizedTwice(START);
    SwallowedClear(Step(START, heading, 0, sh), ts[0][0], 1, sh);
    LostAt(texts, 1, Nowhere, ExpectedRows([], heading, ts, keys), 0, sh);
  }

  // --------------------------------------------------------- stems taken for something else

  lemma AnswerBodyClear(s: State, line: string, text: string, k: nat, sh: Shapes)
    requires Clear(s, k, NotFirst) && AnswerLine(line).Some?
    ensures Clear(Body(s, line, text, k, sh), k, NotFirst)
  {
    hide StemText, OptionText, Finalized, InlineRow, AnswerLine, OptionLine, Lacks, RowsLack;
    if OpenObjective(s) {
      var d := s.current.value;
      LacksMore(d.lines, k, k, NotFirst);
      DraftClear(s, d.(key := AnswerLine(line), lines := d.lines + [k]), k, NotFirst);
    }
  }

  /** A stem that reads like an answer line starts no row. */
  lemma AnswerStem(qs: seq<Question>, heading: string, ts: seq<seq<string>>, keys: seq<Label>, sh: Shapes, j: nat)
    requires j < |qs| && TextsFit(qs[j]) && AnswerLine(qs[j].stem).Some?
    ensures Parsed(WholePaper(qs, heading, ts, keys), sh) != ExpectedRows(qs, heading, ts, keys)
  {
    hide Parsed, WholePaper, ExpectedRows, Printed, Paper, NoHeading, Clear, Step, Body, StemText, TextsFit, Lacks,
         Before, AnswerLine;
    PrintedStarts(qs[j]);
    QuestionRow(qs, heading, ts, keys, j, 0);
    PrintedSettled(qs[j], 0);
    var texts, k := WholePaper(qs, heading, ts, keys), QuestionAt(qs, j);
    PlaceInRow(k, |Printed(qs[j])|, 0);
    var s := Before(texts, k, sh);
    if Clear(s, k, NotFirst) {
      OtherFieldsClear(s, k, NotFirst);
      AnswerBodyClear(s.(keyMode := false), qs[j].stem, texts[k], k, sh);
      StepClear(s, texts[k], k, sh, k, NotFirst);
    }
    LostAt(texts, k, NotFirst, ExpectedRows(qs, heading, ts, keys), j, sh);
  }

  lemma InlineBodyClear(s: State, line: string, text: string, k: nat, sh: Shapes)
    requires Clear(s, k, NotTogether) && AnswerLine(line).None? && !s.theory && InlineRow(text, s.section, k, sh).Some?
    ensures Clear(Body(s, line, text, k, sh), k, NotTogether)
  {
    hide StemText, OptionText, Finalized, InlineRow, AnswerLine, OptionLine, RowsLack;
    FinalizedClear(s, k, NotTogether);
    InlineIsComplete(text, s.section, k, sh);
    RowsLackMore(Finalized(s).rows, InlineRow(text, s.section, k, sh).value, k, NotTogether);
  }

  lemma InlineAnywhere(line: string, section: string, at: nat, sh: Shapes)
    requires !NoInline(line, sh)
    ensures InlineRow(line, section, at, sh).Some?
  {
    hide StemText, OptionText, StripSet, FirstMarker, SafeText, Slice;
  }

  /** The lines of a paper before line `i` of question `j` start no theory section. */
  lemma FrontPlain(qs: seq<Question>, j: nat, i: nat, sh: Shapes)
    requires j < |qs| && i <= |Printed(qs[j])|
    requires forall q :: q in qs ==> TextsFit(q) && forall i :: 0 <= i < |Printed(q)| ==> NoHeading(Printed(q)[i], sh)
    ensures AllPlain(Paper(qs[..j]) + Printed(qs[j])[..i], sh)
  {
    hide StemText, Printed, TextsFit, NoHeading, Plain;
    PaperPlain(qs[..j], sh);
    PaperPlain([qs[j]], sh);
    assert [qs[j]][1..] == [];
    assert Paper([qs[j]]) == Printed(qs[j]);
    PlainTogether(Paper(qs[..j]), Printed(qs[j])[..i], sh);
  }

  /** A line of a question that holds a whole question of its own becomes a row of its own. */
  lemma InlineInQuestion(qs: seq<Question>, heading: string, ts: seq<seq<string>>, keys: seq<Label>, sh: Shapes, j: nat, i: nat)
    requires j < |qs| && i < |Printed(qs[j])| && AnswerLine(Printed(qs[j])[i]).None? && !NoInline(Printed(qs[j])[i], sh)
    requires forall q :: q in qs ==> TextsFit(q) && forall i :: 0 <= i < |Printed(q)| ==> NoHeading(Printed(q)[i], sh)
    ensures Parsed(WholePaper(qs, heading, ts, keys), sh) != ExpectedRows(qs, heading, ts, keys)
  {
    hide Parsed, WholePaper, ExpectedRows, Printed, Paper, NoHeading, Clear, Step, Body, StemText, TextsFit, Lacks,
         AnswerLine, NoInline, InlineRow, Over, NoTheory, AllPlain;
    FrontPlain(qs, j, i, sh);
    PrintedStarts(qs[j]);
    QuestionRow(qs, heading, ts, keys, j, i);
    PrintedSettled(qs[j], i);
    var texts, k := WholePaper(qs, heading, ts, keys), QuestionAt(qs, j) + i;
    PlaceInRow(QuestionAt(qs, j), |Printed(qs[j])|, i);
    var s := Before(texts, k, sh);
    StartNoTheory();
    OverNoTheory(START, texts[..k], 0, sh);
    if Clear(s, k, NotTogether) {
      OtherFieldsClear(s, k, NotTogether);
      TheoryOff(s);
      InlineAnywhere(texts[k], s.section, k, sh);
      InlineBodyClear(s.(keyMode := false), texts[k], texts[k], k, sh);
      StepClear(s, texts[k], k, sh, k, NotTogether);
    }
    LostAt(texts, k, NotTogether, ExpectedRows(qs, heading, ts, keys), j, sh);
  }

  lemma StartNoTheory()
    ensures NoTheory(START)
  {
  }

  lemma TheoryOff(s: State)
    requires NoTheory(s)
    ensures !s.theory
  {
  }

  lemma OptionBodyClear(s: State, line: string, text: string, k: nat, sh: Shapes)
    requires Clear(s, k, NotFirst) && AnswerLine(line).None? && !s.theory && InlineRow(text, s.section, k, sh).None?
    requires OptionLine(line).Some? && OpenObjective(s)
    ensures Clear(Body(s, line, text, k, sh), k, NotFirst)
  {
    hide StemText, OptionText, Finalized, InlineRow, AnswerLine, OptionLine, Lacks, RowsLack;
    var d := s.current.value;
    LacksMore(d.lines, k, k, NotFirst);
    DraftClear(s, d.(options := d.options[OptionLine(line).value.0 := OptionText(OptionLine(line).value.1)], lines := d.lines + [k]), k, NotFirst);
  }

  /** A stem that reads like an option line, behind a question that is still open, becomes one of
      its options. */
  lemma OptionStem(qs: seq<Question>, heading: string, ts: seq<seq<string>>, keys: seq<Label>, sh: Shapes, j: nat)
    requires 1 <= j < |qs| && (forall q :: q in qs ==> ValidQuestion(q, sh)) && !LongStatement(qs[0].stem)
    requires InSequence(qs[..j]) && OptionLine(qs[j].stem).Some? && qs[j - 1].answer.None?
    ensures Parsed(WholePaper(qs, heading, ts, keys), sh) != ExpectedRows(qs, heading, ts, keys)
  {
    hide Parsed, WholePaper, ExpectedRows, Printed, Paper, NoHeading, Clear, Step, Body, StemText, Lacks, AnswerLine,
         NoInline, InlineRow, Over, OptionLine, Settled, LongStatement, ValidOption;
    var texts, k, stem := WholePaper(qs, heading, ts, keys), QuestionAt(qs, j), qs[j].stem;
    PrintedStarts(qs[j]);
    QuestionRow(qs, heading, ts, keys, j, 0);
    PlaceInRow(k, |Printed(qs[j])|, 0);
    assert texts[..k] == Paper(qs[..j]);
    StartIsReady();
    PaperReads(START, qs[..j], 0, sh);
    var s := Before(texts, k, sh);
    ReadyFacts(s);
    assert qs[j] in qs;
    SettledStays(stem);
    if Clear(s, k, NotFirst) {
      InlineNowhere(stem, s.section, k, sh);
      assert s.(keyMode := false) == s;
      OptionBodyClear(s, stem, stem, k, sh);
      StepClear(s, stem, k, sh, k, NotFirst);
    }
    LostAt(texts, k, NotFirst, ExpectedRows(qs, heading, ts, keys), j, sh);
  }

  // ------------------------------------------------------------------ theory lines

  /** All questions are read as printed. */
  predicate QuestionsFit(qs: seq<Question>, sh: Shapes) {
    (forall q :: q in qs ==> ValidQuestion(q, sh)) && InSequence(qs) && (qs != [] ==> !LongStatement(qs[0].stem))
  }

  /** The state behind the heading of the theory part. */
  lemma BehindHeading(qs: seq<Question>, heading: string, sh: Shapes) returns (s: State)
    requires QuestionsFit(qs, sh) && ValidHeading(heading, sh)
    ensures s == Over(START, Paper(qs) + [heading], 0, sh)
    ensures s.theory && !s.keyMode && s.current.None? && s.section == heading && s.section != "" && (qs != [] ==> s.rows != [])
  {
    hide Step, Over, Paper, ValidQuestion, LongStatement, OptionLine, Finalized, RowAt, WithInstruction, UpperText,
         StemText;
    StartIsReady();
    PaperReads(START, qs, 0, sh);
    var t := Over(START, Paper(qs), 0, sh);
    ReadyFacts(t);
    OverAppend(START, Paper(qs), [heading], 0, sh);
    OverOne(t, heading, |Paper(qs)|, sh);
    HeadingStep(t, heading, |Paper(qs)|, sh);
    FinalizedKeeps(t);
    s := Step(t, heading, |Paper(qs)|, sh);
    SomeRows([], qs, "");
  }

  predicate InTheory(s: State) { s.theory && !OpenObjective(s) }

  lemma BodyInTheory(s: State, line: string, text: string, at: nat, sh: Shapes)
    requires InTheory(s)
    ensures InTheory(Body(s, line, text, at, sh))
  {
    hide StemText, OptionText, Finalized, InlineRow, AnswerLine, OptionLine, Strip;
    FinalizedKeeps(s);
  }

  lemma StepInTheory(s: State, line: string, at: nat, sh: Shapes)
    requires InTheory(s) && Settled(line) && NoHeading(line, sh)
    ensures InTheory(Step(s, line, at, sh))
  {
    hide StemText, Finalized, Body, QuestionHeading, LongStatement, WithInstruction, KeyLetter, UpperText, Settled;
    SettledStays(line);
    BodyInTheory(s.(keyMode := false), line, line, at, sh);
  }

  lemma {:induction false} OverInTheory(s: State, lines: seq<string>, from: nat, sh: Shapes)
    requires InTheory(s) && forall k :: 0 <= k < |lines| ==> Settled(lines[k]) && NoHeading(lines[k], sh)
    ensures InTheory(Over(s, lines, from, sh))
    decreases |lines|
  {
    hide Step, InTheory, Settled, NoHeading;
    if lines != [] {
      StepInTheory(s, lines[0], from, sh);
      assert forall k :: 0 <= k < |lines[1..]| ==> lines[1..][k] == lines[k + 1];
      OverInTheory(Step(s, lines[0], from, sh), lines[1..], from + 1, sh);
    }
  }

  lemma {:induction false} AllLinesFit(ts: seq<seq<string>>, sh: Shapes)
    requires forall i :: 0 <= i < |ts| ==> forall m :: 0 <= m < |ts[i]| ==> Settled(ts[i][m]) && NoHeading(ts[i][m], sh)
    ensures forall k :: 0 <= k < |AllLines(ts)| ==> Settled(AllLines(ts)[k]) && NoHeading(AllLines(ts)[k], sh)
    decreases |ts|
  {
    hide Settled, NoHeading;
    if ts != [] {
      assert forall i :: 0 <= i < |ts[1..]| ==> ts[1..][i] == ts[i + 1];
      AllLinesFit(ts[1..], sh);
    }
  }

  /** The state before line `m` of theory question `i`. */
  lemma BeforeTheory(qs: seq<Question>, heading: string, ts: seq<seq<string>>, keys: seq<Label>, sh: Shapes, i: nat, m: nat) returns (s: State)
    requires QuestionsFit(qs, sh) && ValidHeading(heading, sh) && i < |ts| && m < |ts[i]|
    ensures s == Over(START, Paper(qs) + [heading], 0, sh)
    ensures s.theory && !s.keyMode && s.current.None? && s.section == heading && s.section != "" && (qs != [] ==> s.rows != [])
    ensures var texts, k := WholePaper(qs, heading, ts, keys), TheoryAt(qs, ts, i) + m;
      k < |texts| && texts[k] == ts[i][m] && Before(texts, k, sh) == Over(s, AllLines(ts[..i]) + ts[i][..m], |Paper(qs)| + 1, sh)
  {
    hide Over, Paper, AllLines, WholePaper, QuestionsFit, ValidHeading;
    s := BehindHeading(qs, heading, sh);
    TheoryText(qs, heading, ts, keys, i, m);
    var lines := AllLines(ts[..i]) + ts[i][..m];
    assert TheoryFront(qs, heading, ts, i) + ts[i][..m] == (Paper(qs) + [heading]) + lines;
    OverAppend(START, Paper(qs) + [heading], lines, 0, sh);
  }

  lemma AnswerInTheoryClear(s: State, line: string, text: string, k: nat, sh: Shapes)
    requires Clear(s, k, Nowhere) && InTheory(s) && AnswerLine(line).Some?
    ensures Clear(Body(s, line, text, k, sh), k, Nowhere)
  {
    hide AnswerLine;
  }

  /** A theory line that reads like an answer line goes to the answer key. */
  lemma TheoryAnswer(qs: seq<Question>, heading: string, ts: seq<seq<string>>, keys: seq<Label>, sh: Shapes, i: nat, m: nat)
    requires QuestionsFit(qs, sh) && ValidHeading(heading, sh) && i < |ts| && m < |ts[i]| && AnswerLine(ts[i][m]).Some?
    requires forall i :: 0 <= i < |ts| ==> forall m :: 0 <= m < |ts[i]| ==> Settled(ts[i][m]) && NoHeading(ts[i][m], sh)
    ensures Parsed(WholePaper(qs, heading, ts, keys), sh) != ExpectedRows(qs, heading, ts, keys)
  {
    hide Parsed, WholePaper, ExpectedRows, Paper, NoHeading, Clear, Step, Body, StemText, Lacks, AnswerLine, Over,
         Settled, QuestionsFit, ValidHeading, AllLines;
    var texts, k := WholePaper(qs, heading, ts, keys), TheoryAt(qs, ts, i) + m;
    var s := BeforeTheory(qs, heading, ts, keys, sh, i, m);
    AllLinesFit(ts[..i], sh);
    OverInTheory(s, AllLines(ts[..i]) + ts[i][..m], |Paper(qs)| + 1, sh);
    TheoryRow(qs, heading, ts, keys, i);
    PlaceInRow(TheoryAt(qs, ts, i), |ts[i]|, m);
    var t := Before(texts, k, sh);
    SettledStays(texts[k]);
    if Clear(t, k, Nowhere) {
      OtherFieldsClear(t, k, Nowhere);
      AnswerInTheoryClear(t.(keyMode := false), texts[k], texts[k], k, sh);
      StepClear(t, texts[k], k, sh, k, Nowhere);
    }
    LostAt(texts, k, Nowhere, ExpectedRows(qs, heading, ts, keys), |qs| + i, sh);
  }

  /** The lines of a theory question, but for numbers. */
  predicate TheoryLines(lines: seq<string>, sh: Shapes) {
    lines != [] && forall k :: 0 <= k < |lines| ==> Settled(lines[k]) && NoHeading(lines[k], sh) && AnswerLine(lines[k]).None?
  }

  /** Theory question `i` is divided as it is printed: from its number, unless it is the first, to
      its last line. */
  predicate Divided(ts: seq<seq<string>>, i: nat, sh: Shapes) {
    i < |ts| && ts[i] != [] && (i >= 1 ==> sh.theoryNumber(ts[i][0])) && forall m :: 1 <= m < |ts[i]| ==> !sh.theoryNumber(ts[i][m])
  }

  lemma DividedIsValid(ts: seq<seq<string>>, sh: Shapes)
    requires forall i :: 0 <= i < |ts| ==> TheoryLines(ts[i], sh) && Divided(ts, i, sh)
    ensures (forall i :: 0 <= i < |ts| ==> ValidTheory(ts[i], sh)) && Numbered(ts, sh)
  {
    hide Settled, NoHeading, AnswerLine;
  }

  /** The lines before an undivided place form a theory section that is read as printed. */
  lemma Undivided(s: State, front: seq<seq<string>>, from: nat, sh: Shapes)
    requires s.theory && !s.keyMode && s.current.None? && s.section != ""
    requires front != [] && (forall i :: 0 <= i < |front| ==> TheoryLines(front[i], sh) && Divided(front, i, sh))
    requires s.rows == [] ==> !LongStatement(FirstLine(front))
    ensures var t := Over(s, AllLines(front), from, sh); t.theory && !t.keyMode && t.current.Some?
  {
    hide Over, AllLines, LongStatement, ValidTheory, TheoryLines, Divided, Numbered, Finalized;
    DividedIsValid(front, sh);
    TheorySectionReads(s, front, from, sh);
  }

  lemma MoreLines(front: seq<seq<string>>, more: seq<string>)
    ensures AllLines(front + [more]) == AllLines(front) + more && AllLines(front + []) == AllLines(front)
  {
    LinesSplit(front + [more], |front|);
    assert (front + [more])[..|front|] == front && (front + [more])[|front|..] == [more] && [more][1..] == [];
    assert front + [] == front;
  }

  /** The lines in front of line `m` of question `i`, as questions. */
  function Front(ts: seq<seq<string>>, i: nat, m: nat): seq<seq<string>>
    requires i < |ts| && m <= |ts[i]|
  {
    ts[..i] + if m == 0 then [] else [ts[i][..m]]
  }

  lemma FrontDivided(ts: seq<seq<string>>, i: nat, m: nat, sh: Shapes)
    requires i < |ts| && m <= |ts[i]| && forall n :: 0 <= n < |ts| ==> TheoryLines(ts[n], sh)
    requires forall n :: 0 <= n < i ==> Divided(ts, n, sh)
    requires m > 0 ==> (i >= 1 ==> sh.theoryNumber(ts[i][0])) && forall n :: 1 <= n < m ==> !sh.theoryNumber(ts[i][n])
    ensures forall n :: 0 <= n < |Front(ts, i, m)| ==> TheoryLines(Front(ts, i, m)[n], sh) && Divided(Front(ts, i, m), n, sh)
    ensures AllLines(Front(ts, i, m)) == AllLines(ts[..i]) + ts[i][..m]
    ensures (i > 0 || m > 0) ==> Front(ts, i, m) != [] && FirstLine(Front(ts, i, m)) == FirstLine(ts)
  {
    hide Settled, NoHeading, AnswerLine, AllLines;
    MoreLines(ts[..i], ts[i][..m]);
    var front := Front(ts, i, m);
    if m > 0 { assert front[i] == ts[i][..m]; } else { assert ts[i][..m] == [] && AllLines(ts[..i]) + [] == AllLines(ts[..i]); }
    forall n | 0 <= n < |front| ensures TheoryLines(front[n], sh) && Divided(front, n, sh) {
      if n < i { assert front[n] == ts[n] && Divided(ts, n, sh); }
    }
  }

  /** A numbered line starts a row of its own; a line without a number joins the open question. */
  lemma WrongNumber(s: State, line: string, k: nat, sh: Shapes)
    requires s.theory && !s.keyMode && s.current.Some? && Settled(line) && NoHeading(line, sh) && AnswerLine(line).None?
    ensures !sh.theoryNumber(line) && Clear(s, k, NotFirst) ==> Clear(Step(s, line, k, sh), k, NotFirst)
    ensures sh.theoryNumber(line) && Clear(s, k, NotLater) ==> Clear(Step(s, line, k, sh), k, NotLater)
  {
    hide Settled, NoHeading, AnswerLine, Step, Finalized, Strip, RowsLack, Lacks, LongStatement;
    TheoryStep(s, line, k, sh);
    if sh.theoryNumber(line) && Clear(s, k, NotLater) {
      FinalizedClear(s, k, NotLater);
      LacksAlone(k, k, NotLater);
    }
    if !sh.theoryNumber(line) && Clear(s, k, NotFirst) {
      LacksMore(s.current.value.lines, k, k, NotFirst);
    }
  }

  /** A theory question that is not divided as printed does not come back. */
  lemma WrongDivision(qs: seq<Question>, heading: string, ts: seq<seq<string>>, keys: seq<Label>, sh: Shapes, i: nat, m: nat)
    requires QuestionsFit(qs, sh) && ValidHeading(heading, sh) && i < |ts| && m < |ts[i]|
    requires (forall n :: 0 <= n < |ts| ==> TheoryLines(ts[n], sh)) && !LongStatement(FirstStatement(qs, ts))
    requires forall n :: 0 <= n < i ==> Divided(ts, n, sh)
    requires if m == 0 then i >= 1 && !sh.theoryNumber(ts[i][0])
             else (i >= 1 ==> sh.theoryNumber(ts[i][0])) && (forall n :: 1 <= n < m ==> !sh.theoryNumber(ts[i][n])) && sh.theoryNumber(ts[i][m])
    ensures Parsed(WholePaper(qs, heading, ts, keys), sh) != ExpectedRows(qs, heading, ts, keys)
  {
    hide Parsed, WholePaper, ExpectedRows, Paper, NoHeading, Clear, Step, StemText, Lacks, AnswerLine, Over, Settled,
         QuestionsFit, ValidHeading, AllLines, LongStatement, Divided, FirstLine;
    var texts, k := WholePaper(qs, heading, ts, keys), TheoryAt(qs, ts, i) + m;
    var s := BeforeTheory(qs, heading, ts, keys, sh, i, m);
    FrontDivided(ts, i, m, sh);
    Undivided(s, Front(ts, i, m), |Paper(qs)| + 1, sh);
    TheoryRow(qs, heading, ts, keys, i);
    PlaceInRow(TheoryAt(qs, ts, i), |ts[i]|, m);
    WrongNumber(Before(texts, k, sh), texts[k], k, sh);
    LostAt(texts, k, if m == 0 then NotFirst else NotLater, ExpectedRows(qs, heading, ts, keys), |qs| + i, sh);
  }

  // -------------------------------------------------------------------- all papers

  /** The first of the indices below `n` that are bad. */
  lemma {:induction false} Least(bad: nat -> bool, i: nat) returns (k: nat)
    requires bad(i)
    ensures k <= i && bad(k) && forall j :: 0 <= j < k ==> !bad(j)
    decreases i
  {
    if j :| 0 <= j < i && bad(j) {
      k := Least(bad, j);
    } else {
      k := i;
    }
  }

  lemma UnfitLost(qs: seq<Question>, heading: string, ts: seq<seq<string>>, keys: seq<Label>, sh: Shapes)
    requires !PaperFits(qs, ts)
    ensures Parsed(WholePaper(qs, heading, ts, keys), sh) != ExpectedRows(qs, heading, ts, keys)
  {
    hide TextsFit, LinesFit, Parsed, WholePaper, ExpectedRows;
    if q :| q in qs && !TextsFit(q) {
      var j :| 0 <= j < |qs| && qs[j] == q;
      UnfitQuestion(qs, heading, ts, keys, sh, j);
    } else {
      var i :| 0 <= i < |ts| && !LinesFit(ts[i]);
      UnfitTheory(qs, heading, ts, keys, sh, i);
    }
  }

  lemma HeadingLost(qs: seq<Question>, heading: string, ts: seq<seq<string>>, keys: seq<Label>, sh: Shapes)
    requires PaperFits(qs, ts) && !NoHeadings(qs, ts, sh)
    ensures Parsed(WholePaper(qs, heading, ts, keys), sh) != ExpectedRows(qs, heading, ts, keys)
  {
    hide TextsFit, Settled, Parsed, WholePaper, ExpectedRows, NoHeading, Printed;
    if q, i :| q in qs && 0 <= i < |Printed(q)| && !NoHeading(Printed(q)[i], sh) {
      var j :| 0 <= j < |qs| && qs[j] == q;
      HeadingInQuestion(qs, heading, ts, keys, sh, j, i);
    } else {
      var i, m :| 0 <= i < |ts| && 0 <= m < |ts[i]| && !NoHeading(ts[i][m], sh);
      HeadingInTheory(qs, heading, ts, keys, sh, i, m);
    }
  }

  lemma WrongHeadingLost(qs: seq<Question>, heading: string, ts: seq<seq<string>>, keys: seq<Label>, sh: Shapes)
    requires PaperFits(qs, ts) && NoHeadings(qs, ts, sh) && ts != [] && !ValidHeading(heading, sh)
    ensures Parsed(WholePaper(qs, heading, ts, keys), sh) != ExpectedRows(qs, heading, ts, keys)
  {
    hide PaperFits, NoHeadings, Parsed, WholePaper, ExpectedRows, Settled;
    if !Settled(heading) {
      UnsettledHeading(qs, heading, ts, keys, sh);
    } else {
      PlainHeading(qs, heading, ts, keys, sh);
    }
  }

  lemma LongLost(qs: seq<Question>, heading: string, ts: seq<seq<string>>, keys: seq<Label>, sh: Shapes)
    requires PaperFits(qs, ts) && NoHeadings(qs, ts, sh) && (ts != [] ==> ValidHeading(heading, sh))
    requires LongStatement(FirstStatement(qs, ts))
    ensures Parsed(WholePaper(qs, heading, ts, keys), sh) != ExpectedRows(qs, heading, ts, keys)
  {
    hide Parsed, WholePaper, ExpectedRows, Settled, NoHeading, ValidHeading, Printed;
    if qs != [] {
      PrintedStarts(qs[0]);
      assert qs[0] in qs;
      assert NoHeading(Printed(qs[0])[0], sh);
      LongStem(qs, heading, ts, keys, sh);
    } else {
      LongLine(heading, ts, keys, sh);
    }
  }

  /** A question that is read as printed when it stands alone. */
  predicate StandsAlone(q: Question, sh: Shapes) {
    AnswerLine(q.stem).None? && NoInline(q.stem, sh) && forall l :: NoInline(OptionPrinted(q, l), sh)
  }

  lemma AloneIsValid(q: Question, sh: Shapes)
    requires TextsFit(q) && (forall i :: 0 <= i < |Printed(q)| ==> NoHeading(Printed(q)[i], sh)) && StandsAlone(q, sh)
    ensures ValidQuestion(q, sh)
  {
    hide Settled, NoHeading, Printed, NoInline, OptionPrinted, Choice, AnswerPrinted, AnswerLine, ProperOption;
    PrintedStarts(q);
    assert NoHeading(Printed(q)[0], sh);
    forall l ensures NoHeading(OptionPrinted(q, l), sh) { assert NoHeading(Printed(q)[Order(l)], sh); }
    if q.answer.Some? { assert NoHeading(Printed(q)[5], sh); }
  }

  lemma NotAloneLost(qs: seq<Question>, heading: string, ts: seq<seq<string>>, keys: seq<Label>, sh: Shapes, q: Question)
    requires PaperFits(qs, ts) && NoHeadings(qs, ts, sh) && q in qs && !StandsAlone(q, sh)
    ensures Parsed(WholePaper(qs, heading, ts, keys), sh) != ExpectedRows(qs, heading, ts, keys)
  {
    hide TextsFit, Parsed, WholePaper, ExpectedRows, NoHeading, Printed, OptionPrinted, NoInline, AnswerLine, LinesFit;
    var j :| 0 <= j < |qs| && qs[j] == q;
    PrintedStarts(q);
    if AnswerLine(q.stem).Some? {
      AnswerStem(qs, heading, ts, keys, sh, j);
    } else if !NoInline(q.stem, sh) {
      InlineInQuestion(qs, heading, ts, keys, sh, j, 0);
    } else {
      var l :| !NoInline(OptionPrinted(q, l), sh);
      OptionIsNoAnswer(q, l);
      InlineInQuestion(qs, heading, ts, keys, sh, j, Order(l));
    }
  }

  lemma OptionIsNoAnswer(q: Question, l: Label)
    ensures AnswerLine(OptionPrinted(q, l)).None?
  {
    NoAnswerWord(OptionPrinted(q, l));
  }

  lemma OutOfSequenceLost(qs: seq<Question>, heading: string, ts: seq<seq<string>>, keys: seq<Label>, sh: Shapes)
    requires (forall q :: q in qs ==> ValidQuestion(q, sh)) && (qs != [] ==> !LongStatement(qs[0].stem)) && !InSequence(qs)
    ensures Parsed(WholePaper(qs, heading, ts, keys), sh) != ExpectedRows(qs, heading, ts, keys)
  {
    hide *;
    var j := FirstOutOfSequence(qs);
    OptionStem(qs, heading, ts, keys, sh, j);
  }

  lemma {:induction false} FirstOutOfSequence(qs: seq<Question>) returns (j: nat)
    requires !InSequence(qs)
    ensures 1 <= j < |qs| && InSequence(qs[..j]) && OptionLine(qs[j].stem).Some? && qs[j - 1].answer.None?
    decreases |qs|
  {
    hide OptionLine;
    var front := qs[..|qs| - 1];
    if InSequence(front) {
      j := |front|;
    } else {
      j := FirstOutOfSequence(front);
      assert front[..j] == qs[..j];
    }
  }

  lemma UndividedLost(qs: seq<Question>, heading: string, ts: seq<seq<string>>, keys: seq<Label>, sh: Shapes, n: nat)
    requires QuestionsFit(qs, sh) && ValidHeading(heading, sh) && n < |ts| && !Divided(ts, n, sh)
    requires (forall n :: 0 <= n < |ts| ==> TheoryLines(ts[n], sh)) && !LongStatement(FirstStatement(qs, ts))
    ensures Parsed(WholePaper(qs, heading, ts, keys), sh) != ExpectedRows(qs, heading, ts, keys)
  {
    hide QuestionsFit, ValidHeading, Parsed, WholePaper, ExpectedRows, LongStatement, NoHeading, Settled, AnswerLine;
    var bad := (i: nat) => !Divided(ts, i, sh);
    var i := Least(bad, n);
    forall j: nat | j < i ensures Divided(ts, j, sh) { assert !bad(j); }
    if i >= 1 && !sh.theoryNumber(ts[i][0]) {
      WrongDivision(qs, heading, ts, keys, sh, i, 0);
    } else {
      var numbered := (m: nat) => 1 <= m < |ts[i]| && sh.theoryNumber(ts[i][m]);
      var last: nat :| 1 <= last < |ts[i]| && sh.theoryNumber(ts[i][last]);
      assert numbered(last);
      var m := Least(numbered, last);
      forall j: nat | 1 <= j < m ensures !sh.theoryNumber(ts[i][j]) { assert !numbered(j); }
      WrongDivision(qs, heading, ts, keys, sh, i, m);
    }
  }

  lemma TheoryLost(qs: seq<Question>, heading: string, ts: seq<seq<string>>, keys: seq<Label>, sh: Shapes)
    requires QuestionsFit(qs, sh) && PaperFits(qs, ts) && NoHeadings(qs, ts, sh) && (ts != [] ==> ValidHeading(heading, sh))
    requires !ValidTheoryPart(heading, ts, sh) && !LongStatement(FirstStatement(qs, ts))
    ensures Parsed(WholePaper(qs, heading, ts, keys), sh) != ExpectedRows(qs, heading, ts, keys)
  {
    hide QuestionsFit, ValidHeading, Parsed, WholePaper, ExpectedRows, LongStatement, NoHeading, Settled, AnswerLine,
         Divided, FirstStatement;
    if i, m :| 0 <= i < |ts| && 0 <= m < |ts[i]| && AnswerLine(ts[i][m]).Some? {
      TheoryAnswer(qs, heading, ts, keys, sh, i, m);
    } else {
      assert forall n :: 0 <= n < |ts| ==> LinesFit(ts[n]) && TheoryLines(ts[n], sh);
      if n :| 0 <= n < |ts| && !Divided(ts, n, sh) {
        UndividedLost(qs, heading, ts, keys, sh, n);
      } else {
        DividedIsValid(ts, sh);
      }
    }
  }

  /** Every other paper loses a row, a text or a place. */
  lemma UnreadableIsLost(qs: seq<Question>, heading: string, ts: seq<seq<string>>, keys: seq<Label>, sh: Shapes)
    requires !Readable(qs, heading, ts, sh)
    ensures Parsed(WholePaper(qs, heading, ts, keys), sh) != ExpectedRows(qs, heading, ts, keys)
  {
    hide ValidQuestion, ValidTheoryPart, ValidHeading, Parsed, WholePaper, ExpectedRows, LongStatement, InSequence,
         StandsAlone, PaperFits, NoHeadings;
    if !PaperFits(qs, ts) {
      UnfitLost(qs, heading, ts, keys, sh);
    } else if !NoHeadings(qs, ts, sh) {
      HeadingLost(qs, heading, ts, keys, sh);
    } else if ts != [] && !ValidHeading(heading, sh) {
      WrongHeadingLost(qs, heading, ts, keys, sh);
    } else if LongStatement(FirstStatement(qs, ts)) {
      LongLost(qs, heading, ts, keys, sh);
    } else if q :| q in qs && !StandsAlone(q, sh) {
      NotAloneLost(qs, heading, ts, keys, sh, q);
    } else {
      AllAlone(qs, ts, sh);
      if !InSequence(qs) {
        OutOfSequenceLost(qs, heading, ts, keys, sh);
      } else {
        TheoryLost(qs, heading, ts, keys, sh);
      }
    }
  }

  lemma AllAlone(qs: seq<Question>, ts: seq<seq<string>>, sh: Shapes)
    requires PaperFits(qs, ts) && NoHeadings(qs, ts, sh) && forall q :: q in qs ==> StandsAlone(q, sh)
    ensures forall q :: q in qs ==> ValidQuestion(q, sh)
  {
    hide TextsFit, NoHeading, StandsAlone, ValidQuestion, Printed;
    forall q | q in qs ensures ValidQuestion(q, sh) { AloneIsValid(q, sh); }
  }

  /** A printed paper, whatever its texts and whatever lines are taken for headings, comes back
      question by question and row by row if and only if it is readable. */
  lemma RoundTripExactly(qs: seq<Question>, heading: string, ts: seq<seq<string>>, keys: seq<Label>, sh: Shapes)
    ensures Parsed(WholePaper(qs, heading, ts, keys), sh) == ExpectedRows(qs, heading, ts, keys) <==> Readable(qs, heading, ts, sh)
  {
    hide *;
    if Readable(qs, heading, ts, sh) {
      RoundTrip(qs, heading, ts, keys, sh);
    } else {
      UnreadableIsLost(qs, heading, ts, keys, sh);
    }
  }
}
