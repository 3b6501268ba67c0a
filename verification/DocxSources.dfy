/**
  Where the rows of a structured document come from: each stem and option is the text of a
  paragraph of its own row.
 */
module DocxSources {
  import opened Wrappers
  import opened Chars
  import opened RichSlices
  import opened DocxRows
  import opened DocxPapers

  // -------------------------------------------------- cleaning a text twice changes nothing

  lemma SafeCharShape(c: char)
    requires IsSpace(c) ==> c == ' '
    ensures SafeChar(c) == [c] || SafeChar(c) == "pi" || SafeChar(c) == "-" || SafeChar(c) == "N"
    ensures SafeChar(c) != [c] ==> !IsSpace(c)
    ensures !IsSpace('p') && !IsSpace('i') && !IsSpace('-') && !IsSpace('N')
  {
  }

  /** Safe text has blanks where the text has them. */
  lemma {:induction false} SafeKeepsBlanks(s: string)
    requires Single(s)
    ensures Single(SafeText(s))
    ensures s != "" ==>
              SafeText(s) != "" && (IsSpace(SafeText(s)[0]) <==> IsSpace(s[0]))
              && (IsSpace(SafeText(s)[|SafeText(s)| - 1]) <==> IsSpace(s[|s| - 1]))
    decreases |s|
  {
    hide SafeChar, IsSpace;
    if s != "" {
      var c, t := s[0], s[1..];
      assert forall k :: 0 <= k < |t| ==> t[k] == s[k + 1];
      SafeKeepsBlanks(t);
      SafeCharShape(c);
      hide Single;
      var q := SafeText(t);
      assert SafeText(s) == SafeChar(c) + q;
      if SafeChar(c) == "pi" {
        SingleCons('i', q);
        SingleCons('p', ['i'] + q);
        assert SafeText(s) == ['p'] + (['i'] + q);
      } else {
        SingleCons(SafeChar(c)[0], q);
        assert SafeText(s) == [SafeChar(c)[0]] + q;
      }
    }
  }

  lemma StemIsSettled(s: string)
    ensures StemText(s) == "" || Settled(StemText(s))
    ensures StemText(StemText(s)) == StemText(s)
  {
    hide Collapse, Single, SafeText, IsSpace;
    CollapseIsCollapsed(s);
    var c := Collapse(s);
    NothingSafe();
    if c != "" {
      SafeKeepsBlanks(c);
      SafeIdempotent(c);
      SpacesStay(SafeText(c));
    } else {
      NothingStripped();
    }
    if StemText(s) != "" { SettledStays(StemText(s)); } else { NothingCleaned(); }
  }

  lemma SpacesStay(s: string)
    requires Trimmed(s)
    ensures Strip(s) == s
  {
    StripAround("", s, "");
    assert "" + s + "" == s;
  }

  lemma NothingStripped() ensures Strip("") == "" { }

  lemma NothingCleaned()
    ensures StemText("") == "" && OptionText("") == ""
  {
  }

  predicate AllSafe(s: string) { forall k :: 0 <= k < |s| ==> SafeChar(s[k]) == [s[k]] }

  lemma {:induction false} SafeTextIsSafe(s: string)
    ensures AllSafe(SafeText(s))
    decreases |s|
  {
    if s != "" {
      SafeTextIsSafe(s[1..]);
      var q := SafeText(s[1..]);
      forall k | 0 <= k < |SafeText(s)| ensures SafeChar(SafeText(s)[k]) == [SafeText(s)[k]] {
        if k >= |SafeChar(s[0])| { assert SafeText(s)[k] == q[k - |SafeChar(s[0])|]; }
      }
    }
  }

  lemma {:induction false} AllSafeStays(s: string)
    requires AllSafe(s)
    ensures SafeText(s) == s
    decreases |s|
  {
    if s != "" {
      hide SafeChar;
      assert forall k :: 0 <= k < |s[1..]| ==> s[1..][k] == s[k + 1];
      AllSafeStays(s[1..]);
      assert s == [s[0]] + s[1..];
    }
  }

  /** Stripping a set of characters takes a piece out of the text that ends outside the set. */
  lemma {:induction false} StripSetShape(s: string, chars: set<char>) returns (i: nat, j: nat)
    ensures i <= j <= |s| && StripSet(s, chars) == s[i..j]
    ensures i < j ==> s[i] !in chars && s[j - 1] !in chars
    decreases |s|
  {
    if s != "" && s[0] in chars {
      i, j := StripSetShape(s[1..], chars);
      i, j := i + 1, j + 1;
    } else {
      i := 0;
      j := StripRightShape(s, chars);
    }
  }

  lemma {:induction false} StripRightShape(s: string, chars: set<char>) returns (j: nat)
    ensures j <= |s| && StripRight(s, chars) == s[..j] && (j > 0 ==> s[j - 1] !in chars)
    decreases |s|
  {
    if s != "" && s[|s| - 1] in chars {
      j := StripRightShape(s[..|s| - 1], chars);
    } else {
      j := |s|;
    }
  }

  lemma OptionIsProper(s: string)
    ensures OptionText(s) == "" || ProperOption(OptionText(s))
  {
    hide SafeText, StripSet, Collapse, IsSpace;
    var u, r := SafeText(Collapse(s)), OptionText(s);
    CollapseIsCollapsed(s);
    NothingSafe();
    if Collapse(s) != "" { SafeKeepsBlanks(Collapse(s)); }
    SafeTextIsSafe(Collapse(s));
    var i, j := StripSetShape(u, {' ', '-'});
    if r != "" {
      assert forall k :: 0 <= k < |r| ==> r[k] == u[i + k];
      assert AllSafe(r);
      assert IsCollapsed(r);
      AllSafeStays(r);
    }
  }

  lemma OptionIsStable(s: string)
    ensures OptionText(OptionText(s)) == OptionText(s)
  {
    hide OptionText, ProperOption;
    OptionIsProper(s);
    if OptionText(s) == "" { NothingCleaned(); } else { OptionStays(OptionText(s)); }
  }

  // --------------------------------------------------------------------- provenance

  /** The option is the text of one of these paragraphs but the first, or what stands there behind
      its letter. */
  predicate OptionFrom(value: string, l: Label, texts: seq<string>, lines: seq<nat>) {
    exists j :: 1 <= j < |lines| && lines[j] < |texts| && OptionOfLine(value, l, StemText(texts[lines[j]]))
  }

  predicate OptionOfLine(value: string, l: Label, line: string) {
    value == OptionText(line)
    || (OptionLine(line).Some? && OptionLine(line).value.0 == l && value == OptionText(OptionLine(line).value.1))
  }

  function TheoryStem(texts: seq<string>, lines: seq<nat>): string
    requires lines != [] && forall k :: 0 <= k < |lines| ==> lines[k] < |texts|
  {
    if |lines| == 1 then StemText(texts[lines[0]])
    else Strip(TheoryStem(texts, lines[..|lines| - 1]) + "\n" + StemText(texts[lines[|lines| - 1]]))
  }

  predicate Lines(lines: seq<nat>, texts: seq<string>) {
    lines != [] && forall k :: 0 <= k < |lines| ==> lines[k] < |texts|
  }

  predicate OptionsFrom(options: map<Label, string>, texts: seq<string>, lines: seq<nat>) {
    forall l :: l in options ==> OptionFrom(options[l], l, texts, lines)
  }

  predicate DraftFrom(d: Draft, texts: seq<string>) {
    Lines(d.lines, texts)
    && match d
       case ObjectiveDraft(stem, options, _, _, lines) =>
         stem == StemText(texts[lines[0]]) && OptionsFrom(options, texts, lines)
       case TheoryDraft(stem, _, lines) => stem == TheoryStem(texts, lines)
  }

  /** The stem of an objective row is its first paragraph and each option one of the other ones,
      unless all of them stand in a single paragraph; a theory row is its paragraphs joined. */
  predicate RowFrom(r: Row, texts: seq<string>, sh: Shapes) {
    Lines(r.lines, texts)
    && match r
       case Objective(stem, options, _, section, lines) =>
         || (stem == StemText(texts[lines[0]]) && OptionsFrom(options, texts, lines))
         || (|lines| == 1 && InlineOf(r, texts[lines[0]], sh))
       case Theory(stem, _, lines) => stem == StemText(TheoryStem(texts, lines))
  }

  predicate InlineOf(r: Row, text: string, sh: Shapes)
    requires r.Objective? && r.lines != []
  {
    var inline := InlineRow(text, r.section, r.lines[0], sh);
    inline.Some? && inline.value.Objective? && inline.value.stem == r.stem && inline.value.options == r.options
  }

  predicate Sourced(s: State, texts: seq<string>, sh: Shapes) {
    (forall r :: r in s.rows ==> RowFrom(r, texts, sh)) && (s.current.Some? ==> DraftFrom(s.current.value, texts))
  }

  lemma OptionGrows(value: string, l: Label, texts: seq<string>, lines: seq<nat>, at: nat)
    requires OptionFrom(value, l, texts, lines)
    ensures OptionFrom(value, l, texts, lines + [at])
  {
    hide OptionOfLine;
    var j :| 1 <= j < |lines| && lines[j] < |texts| && OptionOfLine(value, l, StemText(texts[lines[j]]));
    assert (lines + [at])[j] == lines[j];
  }

  lemma OptionsGrow(options: map<Label, string>, texts: seq<string>, lines: seq<nat>, at: nat)
    requires OptionsFrom(options, texts, lines)
    ensures OptionsFrom(options, texts, lines + [at])
  {
    hide OptionFrom;
    forall l | l in options ensures OptionFrom(options[l], l, texts, lines + [at]) {
      OptionGrows(options[l], l, texts, lines, at);
    }
  }

  lemma NewOption(value: string, l: Label, texts: seq<string>, lines: seq<nat>, at: nat)
    requires lines != [] && at < |texts| && OptionOfLine(value, l, StemText(texts[at]))
    ensures OptionFrom(value, l, texts, lines + [at])
  {
    assert (lines + [at])[|lines|] == at;
  }

  lemma OptionSettled(value: string, l: Label, texts: seq<string>, lines: seq<nat>)
    requires OptionFrom(value, l, texts, lines)
    ensures OptionText(value) == value
  {
    var j :| 1 <= j < |lines| && lines[j] < |texts| && OptionOfLine(value, l, StemText(texts[lines[j]]));
    hide OptionText;
    OptionIsStable(StemText(texts[lines[j]]));
    if OptionLine(StemText(texts[lines[j]])).Some? { OptionIsStable(OptionLine(StemText(texts[lines[j]])).value.1); }
  }

  /** A question with four options has all of them. */
  lemma FourLabels(options: map<Label, string>)
    requires |options| >= 4
    ensures options.Keys == {A, B, C, D}
  {
    var all: set<Label> := {A, B, C, D};
    assert options.Keys <= all by { forall l | l in options.Keys ensures l in all { match l case A => case B => case C => case D => } }
    assert all == options.Keys + (all - options.Keys);
    assert |options| == |options.Keys|;
  }

  lemma FinalizedIsSourced(s: State, texts: seq<string>, sh: Shapes)
    requires Sourced(s, texts, sh)
    ensures Sourced(Finalized(s), texts, sh)
  {
    hide OptionFrom, StemText, OptionText, InlineOf, TheoryStem;
    if OpenObjective(s) {
      var d := s.current.value;
      StemIsSettled(texts[d.lines[0]]);
      NothingCleaned();
      if |d.options| >= 4 {
        FourLabels(d.options);
        forall l | l in Ordered(d.options) ensures OptionFrom(Ordered(d.options)[l], l, texts, d.lines) {
          OptionSettled(d.options[l], l, texts, d.lines);
        }
      }
    }
  }

  /** Only the rows and the open question matter. */
  lemma OtherFields(s: State, texts: seq<string>, sh: Shapes)
    requires Sourced(s, texts, sh)
    ensures forall t: State :: t.rows == s.rows && t.current == s.current ==> Sourced(t, texts, sh)
  {
  }

  /** A theory section never has an objective question open: headings close questions. */
  predicate Consistent(s: State) { s.theory ==> !OpenObjective(s) }

  lemma FinalizedIsConsistent(s: State)
    ensures Finalized(s).current.None? && Finalized(s).theory == s.theory && Consistent(Finalized(s))
  {
    FinalizedKeeps(s);
  }

  lemma BodyIsConsistent(s: State, line: string, text: string, at: nat, sh: Shapes)
    requires Consistent(s)
    ensures Consistent(Body(s, line, text, at, sh))
  {
    hide OptionText, Finalized, InlineRow, AnswerLine, OptionLine;
    FinalizedIsConsistent(s);
    if OpenObjective(s) {
      var d := s.current.value;
      FinalizedIsConsistent(s.(current := Some(d.(key := AnswerLine(line), lines := d.lines + [at]))));
      if OptionLine(line).Some? {
        var (key, option) := OptionLine(line).value;
        FinalizedIsConsistent(s.(current := Some(d.(options := d.options[key := OptionText(option)], lines := d.lines + [at]))));
      }
    }
  }

  lemma StepIsConsistent(s0: State, text: string, at: nat, sh: Shapes)
    requires Consistent(s0)
    ensures Consistent(Step(s0, text, at, sh))
  {
    hide StemText, Finalized, Body, QuestionHeading, LongStatement, WithInstruction, KeyLetter, Contains, UpperText;
    var s := s0.(keyMode := false);
    FinalizedIsConsistent(s);
    BodyIsConsistent(s, StemText(text), text, at, sh);
  }

  lemma StepIsSourced(s0: State, texts: seq<string>, at: nat, sh: Shapes)
    requires at < |texts| && Sourced(s0, texts, sh) && Consistent(s0)
    ensures Sourced(Step(s0, texts[at], at, sh), texts, sh)
  {
    hide StemText, Finalized, Body, QuestionHeading, LongStatement, WithInstruction, Sourced, KeyLetter, Contains;
    var line, s := StemText(texts[at]), s0.(keyMode := false);
    OtherFields(s0, texts, sh);
    FinalizedIsSourced(s, texts, sh);
    OtherFields(Finalized(s), texts, sh);
    if line != "" {
      BodyIsSourced(s, line, texts, at, sh);
    }
  }

  lemma LinesGrow(lines: seq<nat>, texts: seq<string>, at: nat)
    requires at < |texts|
    ensures Lines([at], texts) && (Lines(lines, texts) ==> Lines(lines + [at], texts) && (lines + [at])[0] == lines[0])
  {
  }

  /** A draft with one more paragraph. */
  lemma DraftGrows(d: Draft, options: map<Label, string>, key: Option<Label>, texts: seq<string>, at: nat, sh: Shapes)
    requires d.ObjectiveDraft? && DraftFrom(d, texts) && at < |texts|
    requires forall l :: l in options ==> (l in d.options && options[l] == d.options[l]) || OptionOfLine(options[l], l, StemText(texts[at]))
    ensures DraftFrom(d.(options := options, key := key, lines := d.lines + [at]), texts)
  {
    hide OptionFrom, OptionOfLine, StemText;
    LinesGrow(d.lines, texts, at);
    OptionsGrow(d.options, texts, d.lines, at);
    forall l | l in options ensures OptionFrom(options[l], l, texts, d.lines + [at]) {
      if OptionOfLine(options[l], l, StemText(texts[at])) { NewOption(options[l], l, texts, d.lines, at); }
    }
  }

  lemma TheoryGrows(d: Draft, texts: seq<string>, at: nat)
    requires d.TheoryDraft? && DraftFrom(d, texts) && at < |texts|
    ensures DraftFrom(TheoryDraft(Strip(d.stem + "\n" + StemText(texts[at])), d.section, d.lines + [at]), texts)
  {
    hide StemText, Strip;
    LinesGrow(d.lines, texts, at);
    assert (d.lines + [at])[..|d.lines|] == d.lines;
  }

  lemma NewDraft(texts: seq<string>, section: string, at: nat)
    requires at < |texts|
    ensures DraftFrom(ObjectiveDraft(StemText(texts[at]), map[], None, section, [at]), texts)
    ensures DraftFrom(TheoryDraft(StemText(texts[at]), section, [at]), texts)
  {
    hide StemText;
  }

  lemma WithDraft(s: State, d: Draft, texts: seq<string>, sh: Shapes)
    requires Sourced(s, texts, sh) && DraftFrom(d, texts)
    ensures Sourced(s.(current := Some(d)), texts, sh) && Sourced(Finalized(s.(current := Some(d))), texts, sh)
  {
    hide DraftFrom, RowFrom;
    FinalizedIsSourced(s.(current := Some(d)), texts, sh);
  }

  lemma InlineIsSourced(s: State, texts: seq<string>, section: string, at: nat, sh: Shapes)
    requires at < |texts| && Sourced(s, texts, sh) && InlineRow(texts[at], section, at, sh).Some?
    ensures Sourced(s.(rows := s.rows + [InlineRow(texts[at], section, at, sh).value]), texts, sh)
  {
    hide DraftFrom, StemText, OptionText, StripSet, FirstMarker, SafeText, Slice;
    var r := InlineRow(texts[at], section, at, sh).value;
    assert r.section == section && r.lines == [at];
    hide InlineRow;
    assert RowFrom(r, texts, sh);
  }

  lemma BodyIsSourced(s: State, line: string, texts: seq<string>, at: nat, sh: Shapes)
    requires at < |texts| && Sourced(s, texts, sh) && line == StemText(texts[at]) && Consistent(s)
    ensures Sourced(Body(s, line, texts[at], at, sh), texts, sh)
  {
    hide StemText, OptionText, Finalized, InlineRow, AnswerLine, OptionLine, DraftFrom, RowFrom, OptionOfLine;
    NewDraft(texts, s.section, at);
    FinalizedIsSourced(s, texts, sh);
    FinalizedKeeps(s);
    WithDraft(Finalized(s), ObjectiveDraft(line, map[], None, s.section, [at]), texts, sh);
    WithDraft(Finalized(s), TheoryDraft(line, s.section, [at]), texts, sh);
    if AnswerLine(line).Some? {
      if OpenObjective(s) {
        var d := s.current.value;
        DraftGrows(d, d.options, AnswerLine(line), texts, at, sh);
        WithDraft(s, d.(key := AnswerLine(line), lines := d.lines + [at]), texts, sh);
      }
    } else if s.theory {
      if s.current.Some? {
        var d := s.current.value;
        TheoryGrows(d, texts, at);
        WithDraft(s, TheoryDraft(Strip(d.stem + "\n" + line), d.section, d.lines + [at]), texts, sh);
      }
    } else if InlineRow(texts[at], s.section, at, sh).Some? {
      InlineIsSourced(Finalized(s), texts, s.section, at, sh);
    } else if OpenObjective(s) {
      var d := s.current.value;
      if OptionLine(line).Some? {
        var (l, option) := OptionLine(line).value;
        var options := d.options[l := OptionText(option)];
        LineOption(line, l, option);
        DraftGrows(d, options, d.key, texts, at, sh);
        WithDraft(s, d.(options := options, lines := d.lines + [at]), texts, sh);
      } else if |d.options| < 4 {
        var options := d.options[LABELS[|d.options|] := OptionText(line)];
        WholeLine(line, LABELS[|d.options|]);
        DraftGrows(d, options, d.key, texts, at, sh);
        WithDraft(s, d.(options := options, lines := d.lines + [at]), texts, sh);
      }
    }
  }

  lemma LineOption(line: string, l: Label, option: string)
    requires OptionLine(line) == Some((l, option))
    ensures OptionOfLine(OptionText(option), l, line)
  {
  }

  lemma WholeLine(line: string, l: Label)
    ensures OptionOfLine(OptionText(line), l, line)
  {
  }

  lemma {:induction false} RunIsSourced(s: State, texts: seq<string>, from: nat, sh: Shapes)
    requires from <= |texts| && Sourced(s, texts, sh) && Consistent(s)
    ensures Sourced(Run(s, texts, from, sh), texts, sh)
    decreases |texts| - from
  {
    hide Sourced, Step, Consistent;
    if from < |texts| {
      StepIsSourced(s, texts, from, sh);
      StepIsConsistent(s, texts[from], from, sh);
      RunIsSourced(Step(s, texts[from], from, sh), texts, from + 1, sh);
    }
  }

  lemma KeyDoesNotMatter(r: Row, key: Label, texts: seq<string>, sh: Shapes)
    requires r.Objective? && RowFrom(r, texts, sh)
    ensures RowFrom(r.(key := Some(key)), texts, sh)
  {
    hide InlineRow, StemText, OptionFrom;
  }

  lemma {:induction false} FilledIsSourced(rows: seq<Row>, keys: seq<Label>, texts: seq<string>, sh: Shapes)
    requires forall r :: r in rows ==> RowFrom(r, texts, sh)
    ensures forall r :: r in Filled(rows, keys) ==> RowFrom(r, texts, sh)
    decreases |rows|
  {
    hide RowFrom;
    if rows != [] {
      assert rows[0] in rows && forall r :: r in rows[1..] ==> r in rows;
      if keys != [] && rows[0].Objective? && rows[0].key.None? {
        KeyDoesNotMatter(rows[0], keys[0], texts, sh);
        FilledIsSourced(rows[1..], keys[1..], texts, sh);
      } else {
        FilledIsSourced(rows[1..], keys, texts, sh);
      }
    }
  }

  /** Whatever the document holds: the stem of every objective row is the first paragraph of the
      row, each of its options is one of its other paragraphs or what stands there behind the letter,
      unless the whole question stands in one paragraph; and the stem of a theory row is its
      paragraphs joined. */
  lemma RowsComeFromParagraphs(texts: seq<string>, sh: Shapes)
    ensures forall r :: r in Parsed(texts, sh) ==> RowFrom(r, texts, sh)
  {
    hide Run, Finalized, RowFrom, DraftFrom, Filled;
    RunIsSourced(START, texts, 0, sh);
    var s := Run(START, texts, 0, sh);
    FinalizedIsSourced(s, texts, sh);
    FilledIsSourced(Finalized(s).rows, Finalized(s).keys, texts, sh);
  }
}
