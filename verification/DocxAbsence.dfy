/**
  Paragraphs that a step leaves out of the rows, and where a printed paper should have them: a
  paragraph that is missing from its place in the rows stays missing.
 */
module DocxAbsence {
  import opened Wrappers
  import opened Chars
  import opened RichSlices
  import opened DocxRows
  import opened DocxPapers

  // ------------------------------------------------- where a paragraph is missing from rows

  /** What the paragraph lists of all rows can lack of one paragraph: it stands nowhere, never in
      front, never behind another one, or in no list of more than one. */
  datatype Absence = Nowhere | NotFirst | NotLater | NotTogether

  predicate Lacks(lines: seq<nat>, k: nat, how: Absence) {
    lines != []
    && match how
       case Nowhere => k !in lines
       case NotFirst => lines[0] != k
       case NotLater => k !in lines[1..]
       case NotTogether => k in lines ==> lines == [k]
  }

  /** The open question can still grow, so for the last kind the paragraph must not be in it. */
  function OfDraft(how: Absence): Absence { if how == NotTogether then Nowhere else how }

  predicate RowsLack(rows: seq<Row>, k: nat, how: Absence) { forall r :: r in rows ==> Lacks(r.lines, k, how) }

  predicate Clear(s: State, k: nat, how: Absence) {
    RowsLack(s.rows, k, how) && (s.current.Some? ==> Lacks(s.current.value.lines, k, OfDraft(how)))
  }

  lemma LacksMore(lines: seq<nat>, at: nat, k: nat, how: Absence)
    requires Lacks(lines, k, OfDraft(how)) && (at != k || how == NotFirst)
    ensures Lacks(lines + [at], k, OfDraft(how))
  {
    assert (lines + [at])[1..] == lines[1..] + [at];
  }

  lemma LacksAlone(at: nat, k: nat, how: Absence)
    ensures at != k ==> Lacks([at], k, how) && Lacks([at], k, OfDraft(how))
    ensures Lacks([at], k, NotLater) && Lacks([at], k, NotTogether)
  {
  }

  lemma RowsLackMore(rows: seq<Row>, r: Row, k: nat, how: Absence)
    requires RowsLack(rows, k, how) && Lacks(r.lines, k, how)
    ensures RowsLack(rows + [r], k, how)
  {
  }

  lemma FinalizedClear(s: State, k: nat, how: Absence)
    requires Clear(s, k, how)
    ensures Clear(Finalized(s), k, how) && Finalized(s).current.None?
  {
    hide Finalized, RowsLack;
    var r := FinalizedRow(s);
    if r.Some? { RowsLackMore(s.rows, r.value, k, how); }
  }

  /** Only the rows and the open question matter. */
  lemma OtherFieldsClear(s: State, k: nat, how: Absence)
    requires Clear(s, k, how)
    ensures forall t: State :: t.rows == s.rows && t.current == s.current ==> Clear(t, k, how)
  {
  }

  lemma DraftClear(s: State, d: Draft, k: nat, how: Absence)
    requires Clear(s, k, how) && Lacks(d.lines, k, OfDraft(how))
    ensures Clear(s.(current := Some(d)), k, how) && Clear(Finalized(s.(current := Some(d))), k, how)
  {
    hide Finalized, Lacks, RowsLack;
    FinalizedClear(s.(current := Some(d)), k, how);
  }

  lemma BodyClear(s: State, line: string, text: string, at: nat, sh: Shapes, k: nat, how: Absence)
    requires Clear(s, k, how) && at != k
    ensures Clear(Body(s, line, text, at, sh), k, how)
  {
    hide StemText, OptionText, Finalized, InlineRow, AnswerLine, OptionLine, Lacks, RowsLack;
    LacksAlone(at, k, how);
    FinalizedClear(s, k, how);
    FinalizedKeeps(s);
    DraftClear(Finalized(s), ObjectiveDraft(line, map[], None, s.section, [at]), k, how);
    DraftClear(Finalized(s), TheoryDraft(line, s.section, [at]), k, how);
    DraftClear(s, TheoryDraft(line, s.section, [at]), k, how);
    if s.current.Some? {
      var d := s.current.value;
      LacksMore(d.lines, at, k, how);
      if d.ObjectiveDraft? {
        DraftClear(s, d.(key := AnswerLine(line), lines := d.lines + [at]), k, how);
        if OptionLine(line).Some? {
          DraftClear(s, d.(options := d.options[OptionLine(line).value.0 := OptionText(OptionLine(line).value.1)], lines := d.lines + [at]), k, how);
        }
        if |d.options| < 4 {
          DraftClear(s, d.(options := d.options[LABELS[|d.options|] := OptionText(line)], lines := d.lines + [at]), k, how);
        }
      } else {
        DraftClear(s, TheoryDraft(Strip(d.stem + "\n" + line), d.section, d.lines + [at]), k, how);
      }
    }
    if InlineRow(text, s.section, at, sh).Some? {
      InlineIsComplete(text, s.section, at, sh);
      RowsLackMore(Finalized(s).rows, InlineRow(text, s.section, at, sh).value, k, how);
    }
  }

  lemma StepClear(s0: State, text: string, at: nat, sh: Shapes, k: nat, how: Absence)
    requires Clear(s0, k, how)
    requires at != k || !NoHeading(StemText(text), sh) || Clear(Body(s0.(keyMode := false), StemText(text), text, at, sh), k, how)
    ensures Clear(Step(s0, text, at, sh), k, how)
  {
    hide StemText, Finalized, Body, QuestionHeading, LongStatement, WithInstruction, Clear, KeyLetter, Contains,
         UpperText;
    var s := s0.(keyMode := false);
    OtherFieldsClear(s0, k, how);
    FinalizedClear(s, k, how);
    OtherFieldsClear(Finalized(s), k, how);
    if at != k { BodyClear(s, StemText(text), text, at, sh, k, how); }
  }

  lemma {:induction false} OverClear(s: State, lines: seq<string>, from: nat, sh: Shapes, k: nat, how: Absence)
    requires Clear(s, k, how) && (k < from || from + |lines| <= k)
    ensures Clear(Over(s, lines, from, sh), k, how)
    decreases |lines|
  {
    hide Clear, Step;
    if lines != [] {
      StepClear(s, lines[0], from, sh, k, how);
      OverClear(Step(s, lines[0], from, sh), lines[1..], from + 1, sh, k, how);
    }
  }

  /** The state in which the paragraph `k` is read. */
  function Before(texts: seq<string>, k: nat, sh: Shapes): State
    requires k <= |texts|
  {
    Over(START, texts[..k], 0, sh)
  }

  lemma ReadAt(texts: seq<string>, k: nat, sh: Shapes)
    requires k < |texts|
    ensures Over(START, texts, 0, sh) == Over(Step(Before(texts, k, sh), texts[k], k, sh), texts[k + 1..], k + 1, sh)
  {
    hide Step, Over;
    var s := Before(texts, k, sh);
    assert texts == texts[..k] + ([texts[k]] + texts[k + 1..]);
    OverAppend(START, texts[..k], [texts[k]] + texts[k + 1..], 0, sh);
    OverAppend(s, [texts[k]], texts[k + 1..], k, sh);
    OverOne(s, texts[k], k, sh);
  }

  /** A paragraph that reading it leaves out of the rows stays out, so rows that should have it do
      not come back. */
  lemma LostAt(texts: seq<string>, k: nat, how: Absence, expected: seq<Row>, i: nat, sh: Shapes)
    requires k < |texts| && i < |expected| && !Lacks(expected[i].lines, k, how)
    requires Clear(Before(texts, k, sh), k, how) ==> Clear(Step(Before(texts, k, sh), texts[k], k, sh), k, how)
    ensures Parsed(texts, sh) != expected
  {
    hide Step, Over, Finalized, Filled, Lacks, Parsed, Before;
    assert Clear(START, k, how);
    assert Before(texts, k, sh) == Over(START, texts[..k], 0, sh) by { BeforeIs(texts, k, sh); }
    OverClear(START, texts[..k], 0, sh, k, how);
    ReadAt(texts, k, sh);
    OverClear(Step(Before(texts, k, sh), texts[k], k, sh), texts[k + 1..], k + 1, sh, k, how);
    var s := Over(START, texts, 0, sh);
    FinalizedClear(s, k, how);
    ParsedIs(texts, sh);
    FilledLacks(Finalized(s).rows, Finalized(s).keys, k, how);
    assert i < |Parsed(texts, sh)| ==> Lacks(Parsed(texts, sh)[i].lines, k, how);
  }

  lemma FilledLacks(rows: seq<Row>, keys: seq<Label>, k: nat, how: Absence)
    requires RowsLack(rows, k, how)
    ensures forall i :: 0 <= i < |Filled(rows, keys)| ==> Lacks(Filled(rows, keys)[i].lines, k, how)
  {
    hide Lacks, Filled;
    FilledLines(rows, keys);
    forall i | 0 <= i < |rows| ensures Lacks(Filled(rows, keys)[i].lines, k, how) {
      assert rows[i] in rows;
    }
  }

  lemma BeforeIs(texts: seq<string>, k: nat, sh: Shapes)
    requires k <= |texts|
    ensures Before(texts, k, sh) == Over(START, texts[..k], 0, sh)
  {
  }

  // ------------------------------------------------------- what a paper should come back as

  lemma {:induction false} PaperSplit(qs: seq<Question>, j: nat)
    requires j <= |qs|
    ensures Paper(qs) == Paper(qs[..j]) + Paper(qs[j..])
    decreases |qs|
  {
    hide Printed;
    if j == 0 {
      assert qs[0..] == qs && qs[..0] == [];
    } else {
      PaperSplit(qs[1..], j - 1);
      assert qs[..j][1..] == qs[1..][..j - 1] && qs[1..][j - 1..] == qs[j..];
      assert Printed(qs[0]) + (Paper(qs[1..][..j - 1]) + Paper(qs[j..])) == Printed(qs[0]) + Paper(qs[1..][..j - 1]) + Paper(qs[j..]);
    }
  }

  lemma {:induction false} RowsFromAt(qs: seq<Question>, from: nat, section: string, j: nat)
    requires j < |qs|
    ensures |RowsFrom(qs, from, section)| == |qs|
    ensures RowsFrom(qs, from, section)[j] == RowAt(qs[j], from + |Paper(qs[..j])|, section)
    decreases |qs|
  {
    hide Printed, RowAt;
    RowsFromLength(qs, from, section);
    if j > 0 {
      RowsFromAt(qs[1..], from + |Printed(qs[0])|, section, j - 1);
      assert qs[..j][1..] == qs[1..][..j - 1];
    }
  }

  lemma {:induction false} RowsFromLength(qs: seq<Question>, from: nat, section: string)
    ensures |RowsFrom(qs, from, section)| == |qs|
    decreases |qs|
  {
    hide Printed, RowAt;
    if qs != [] { RowsFromLength(qs[1..], from + |Printed(qs[0])|, section); }
  }

  lemma {:induction false} LinesSplit(ts: seq<seq<string>>, i: nat)
    requires i <= |ts|
    ensures AllLines(ts) == AllLines(ts[..i]) + AllLines(ts[i..])
    decreases |ts|
  {
    if i == 0 {
      assert ts[0..] == ts && ts[..0] == [];
    } else {
      LinesSplit(ts[1..], i - 1);
      assert ts[..i][1..] == ts[1..][..i - 1] && ts[1..][i - 1..] == ts[i..];
      assert ts[0] + (AllLines(ts[1..][..i - 1]) + AllLines(ts[i..])) == ts[0] + AllLines(ts[1..][..i - 1]) + AllLines(ts[i..]);
    }
  }

  lemma {:induction false} TheoryRowsAt(ts: seq<seq<string>>, from: nat, section: string, i: nat)
    requires i < |ts|
    ensures |TheoryRowsFrom(ts, from, section)| == |ts|
    ensures TheoryRowsFrom(ts, from, section)[i] == Theory(Join(ts[i], " "), section, Places(from + |AllLines(ts[..i])|, |ts[i]|))
    decreases |ts|
  {
    hide Join, Places;
    TheoryRowsLength(ts, from, section);
    if i > 0 {
      TheoryRowsAt(ts[1..], from + |ts[0]|, section, i - 1);
      assert ts[..i][1..] == ts[1..][..i - 1];
    }
  }

  lemma {:induction false} TheoryRowsLength(ts: seq<seq<string>>, from: nat, section: string)
    ensures |TheoryRowsFrom(ts, from, section)| == |ts|
    decreases |ts|
  {
    hide Join, Places;
    if ts != [] { TheoryRowsLength(ts[1..], from + |ts[0]|, section); }
  }

  /** Equal but for the answer. */
  predicate SameButKey(a: Row, b: Row) {
    a.stem == b.stem && a.section == b.section && a.lines == b.lines && (a.Objective? <==> b.Objective?)
    && (a.Objective? ==> a.options == b.options)
  }

  lemma FilledAt(rows: seq<Row>, keys: seq<Label>, i: nat)
    requires i < |rows|
    ensures |Filled(rows, keys)| == |rows| && SameButKey(Filled(rows, keys)[i], rows[i])
  {
    KeyFillsFirst(rows, keys, i);
  }

  lemma LineOf(texts: seq<string>, front: seq<string>, lines: seq<string>, rest: seq<string>, i: nat)
    requires texts == front + lines + rest && i < |lines|
    ensures texts[|front| + i] == lines[i] && texts[..|front| + i] == front + lines[..i]
  {
  }

  /** The start of question `j`. */
  function QuestionAt(qs: seq<Question>, j: nat): nat
    requires j < |qs|
  {
    |Paper(qs[..j])|
  }

  lemma QuestionRow(qs: seq<Question>, heading: string, ts: seq<seq<string>>, keys: seq<Label>, j: nat, i: nat)
    requires j < |qs| && i < |Printed(qs[j])|
    ensures var k, e, texts := QuestionAt(qs, j), ExpectedRows(qs, heading, ts, keys), WholePaper(qs, heading, ts, keys);
      && j < |e| && SameButKey(e[j], RowAt(qs[j], k, ""))
      && k + i < |texts| && texts[k + i] == Printed(qs[j])[i] && texts[..k + i] == Paper(qs[..j]) + Printed(qs[j])[..i]
  {
    hide Printed, RowAt, SameButKey, Filled, RowsFrom, TheoryRowsFrom, TheoryPart, KeyBlock;
    RowsFromAt(qs, 0, "", j);
    FilledAt(RowsFrom(qs, 0, "") + TheoryRowsFrom(ts, |Paper(qs)| + 1, heading), keys, j);
    PaperSplit(qs, j);
    assert qs[j..][0] == qs[j] && qs[j..][1..] == qs[j + 1..];
    var front, rest := Paper(qs[..j]), Paper(qs[j + 1..]) + TheoryPart(heading, ts) + KeyBlock(keys);
    assert WholePaper(qs, heading, ts, keys) == front + Printed(qs[j]) + rest;
    LineOf(WholePaper(qs, heading, ts, keys), front, Printed(qs[j]), rest, i);
  }

  /** The start of theory question `i`. */
  function TheoryAt(qs: seq<Question>, ts: seq<seq<string>>, i: nat): nat
    requires i < |ts|
  {
    |Paper(qs)| + 1 + |AllLines(ts[..i])|
  }

  /** What is printed in front of it. */
  function TheoryFront(qs: seq<Question>, heading: string, ts: seq<seq<string>>, i: nat): seq<string>
    requires i < |ts|
  {
    Paper(qs) + ([heading] + AllLines(ts[..i]))
  }

  lemma TheoryRow(qs: seq<Question>, heading: string, ts: seq<seq<string>>, keys: seq<Label>, i: nat)
    requires i < |ts|
    ensures var e := ExpectedRows(qs, heading, ts, keys);
      |qs| + i < |e| && e[|qs| + i].Theory? && e[|qs| + i].section == heading && e[|qs| + i].stem == Join(ts[i], " ")
      && e[|qs| + i].lines == Places(TheoryAt(qs, ts, i), |ts[i]|)
  {
    hide Join, RowsFrom, TheoryRowsFrom, Filled, RowAt;
    RowsFromLength(qs, 0, "");
    TheoryRowsAt(ts, |Paper(qs)| + 1, heading, i);
    FilledAt(RowsFrom(qs, 0, "") + TheoryRowsFrom(ts, |Paper(qs)| + 1, heading), keys, |qs| + i);
  }

  lemma TheoryText(qs: seq<Question>, heading: string, ts: seq<seq<string>>, keys: seq<Label>, i: nat, m: nat)
    requires i < |ts| && m < |ts[i]|
    ensures var k, texts := TheoryAt(qs, ts, i), WholePaper(qs, heading, ts, keys);
      k + m < |texts| && texts[k + m] == ts[i][m] && texts[..k + m] == TheoryFront(qs, heading, ts, i) + ts[i][..m]
  {
    hide Paper, KeyBlock, WholePaper, AllLines;
    AroundTheory(qs, heading, ts, keys, i);
    LineOf(WholePaper(qs, heading, ts, keys), TheoryFront(qs, heading, ts, i), ts[i], AllLines(ts[i + 1..]) + KeyBlock(keys), m);
  }

  lemma AroundTheory(qs: seq<Question>, heading: string, ts: seq<seq<string>>, keys: seq<Label>, i: nat)
    requires i < |ts|
    ensures WholePaper(qs, heading, ts, keys) == TheoryFront(qs, heading, ts, i) + ts[i] + (AllLines(ts[i + 1..]) + KeyBlock(keys))
  {
    hide Paper, KeyBlock, AllLines;
    LinesSplit(ts, i);
    TheoryUnfolds(ts[i..], 0, "");
    assert ts[i..][0] == ts[i] && ts[i..][1..] == ts[i + 1..];
    Regroups(Paper(qs), [heading], AllLines(ts[..i]), ts[i], AllLines(ts[i + 1..]), KeyBlock(keys));
  }

  lemma Regroups<T>(a: seq<T>, b: seq<T>, c: seq<T>, d: seq<T>, e: seq<T>, f: seq<T>)
    ensures a + (b + (c + (d + e))) + f == a + (b + c) + d + (e + f)
  {
  }
}
