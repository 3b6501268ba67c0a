/**
  The expressions of the document parser on characters: headings, instructions, theory numbers,
  the answer behind a question, the option markers inside a line, and what an answer text
  stands for.  With them, exactly the legible papers come back.
 */
module DocxShapes {
  import opened Wrappers
  import opened Chars
  import opened RichSlices
  import opened DocxRows
  import opened DocxPapers
  import opened DocxTexts
  import DocxExact
  import M = Markers

  // ------------------------------------------------------------------------ headings

  predicate IsLetter(c: char) { 'a' <= c <= 'z' || 'A' <= c <= 'Z' }

  predicate IsAlnum(c: char) { IsLetter(c) || IsDigit(c) }

  /** The word, in any case, stands at `i` and ends there: `word\b`. */
  predicate WordAt(line: string, i: nat, word: string) {
    i <= |line| && M.Literal(word, line, i) != [] && M.WordBoundary(line, i + |word|)
  }

  /** `^\s*word\b` */
  predicate StartsWith(line: string, word: string) { WordAt(line, SkipSpaces(line, 0), word) }

  /** Where the name behind `^\s*SECTION\s+` starts. */
  function SectionName(line: string): Option<nat> {
    var i := SkipSpaces(line, 0);
    if M.Literal("section", line, i) == [] then None
    else
      var p := SkipSpaces(line, i + 7);
      if i + 7 < p < |line| && IsAlnum(line[p]) then Some(p) else None
  }

  /** `^\s*SECTION\s+([A-Z0-9]+)` */
  predicate SectionLine(line: string) { SectionName(line).Some? }

  function SkipAlnum(t: string, i: nat): (r: nat)
    requires i <= |t|
    ensures i <= r <= |t|
    decreases |t| - i
  {
    if i < |t| && IsAlnum(t[i]) then SkipAlnum(t, i + 1) else i
  }

  /** `\s*[:\-]?\s*` */
  function SkipDash(t: string, i: nat): (r: nat)
    requires i <= |t|
    ensures i <= r <= |t|
  {
    var p := SkipSpaces(t, i);
    if p < |t| && t[p] in ":-" then SkipSpaces(t, p + 1) else p
  }

  /** `^\s*(?:SECTION\s+[A-Z0-9]+\s*[:\-]?\s*THEORY|THEORY(?:\s+QUESTIONS?)?)\b`: the name of the
      section may end anywhere, also inside a word. */
  predicate TheoryHeader(line: string) {
    || StartsWith(line, "theory")
    || (SectionName(line).Some?
        && exists q :: SectionName(line).value < q <= SkipAlnum(line, SectionName(line).value) && WordAt(line, SkipDash(line, q), "theory"))
  }

  /** `^\s*(?:OBJECTIVE(?:S|\s+QUESTIONS?)?|COMPREHENSION\s+QUESTIONS)\b` */
  predicate ObjectiveHeader(line: string) {
    var i := SkipSpaces(line, 0);
    || StartsWith(line, "objective") || StartsWith(line, "objectives")
    || (M.Literal("comprehension", line, i) != []
        && i + 13 < SkipSpaces(line, i + 13) && WordAt(line, SkipSpaces(line, i + 13), "questions"))
  }

  /** The lines of instructions and the headings of passages. */
  predicate InstructionLine(line: string) {
    || StartsWith(line, "instruction") || StartsWith(line, "instructions") || StartsWith(line, "answer all the questions")
    || StartsWith(line, "read the passage") || StartsWith(line, "read the texte")
    || StartsWith(line, "objective") || StartsWith(line, "objectives")
    || StartsWith(line, "texte") || StartsWith(line, "passage")
  }

  /** `^\s*\d+[A-Za-z]?[\.\)]` */
  predicate TheoryNumber(line: string) {
    var i := SkipSpaces(line, 0);
    var d := SkipDigits(line, i);
    var e := if d < |line| && IsLetter(line[d]) then d + 1 else d;
    i < d && e < |line| && line[e] in ".)"
  }

  // --------------------------------------------------------------- a question in one line

  /** What `\s*[:\-]?\s*(.+)$` finds behind `e`: all behind the blanks, or the last of them. */
  function Behind(t: string, e: nat): Option<string>
    requires e <= |t|
  {
    if SkipDash(t, e) < |t| then Some(t[SkipDash(t, e)..]) else if e < |t| then Some(t[|t| - 1..]) else None
  }

  /** `(?is)\b(?:answer|ans)\s*[:\-]?\s*(.+)$` */
  function AnswerWord(t: string, i: nat): (r: Option<M.Match>) {
    if i <= |t| && M.WordBoundary(t, i) then
      if M.Literal("answer", t, i) != [] && Behind(t, i + 6).Some? then Some(M.Match(i, |t|, Behind(t, i + 6).value))
      else if M.Literal("ans", t, i) != [] && Behind(t, i + 3).Some? then Some(M.Match(i, |t|, Behind(t, i + 3).value))
      else None
    else None
  }

  function AnswerTail(t: string): Option<(int, string)> {
    var m := M.Search(AnswerWord, t, 0);
    if m.Some? then Some((m.value.start, m.value.group)) else None
  }

  /** `(?i)\b([A-D])\s*[\)\.\:-]\s*` */
  function InlineMark(t: string, i: nat): (r: Option<M.Match>) {
    if i < |t| && M.WordBoundary(t, i) && LabelOf(t[i]).Some? then
      var p := SkipSpaces(t, i + 1);
      if p < |t| && t[p] in ").:-" then Some(M.Match(i, SkipSpaces(t, p + 1), [t[i]])) else None
    else None
  }

  predicate Labelled(ms: seq<M.Match>) { forall m :: m in ms ==> |m.group| == 1 && LabelOf(m.group[0]).Some? }

  lemma {:induction false} MarksLabelled(t: string, i: nat)
    requires i <= |t|
    ensures Labelled(M.FindAll(InlineMark, t, i))
    decreases |t| - i
  {
    M.SearchIsFirst(InlineMark, t, i);
    var first := M.Search(InlineMark, t, i);
    if first.Some? { MarksLabelled(t, first.value.end); }
  }

  function ToMarkers(ms: seq<M.Match>): (r: seq<Marker>)
    requires Labelled(ms)
    ensures |r| == |ms| && forall k :: 0 <= k < |ms| ==> r[k] == Marker(LabelOf(ms[k].group[0]).value, ms[k].start, ms[k].end)
  {
    if ms == [] then []
    else
      assert ms[0] in ms;
      [Marker(LabelOf(ms[0].group[0]).value, ms[0].start, ms[0].end)] + ToMarkers(ms[1..])
  }

  function InlineMarkers(t: string): seq<Marker> {
    MarksLabelled(t, 0);
    ToMarkers(M.FindAll(InlineMark, t, 0))
  }

  // ------------------------------------------------------------- what an answer stands for

  function LowerText(s: string): (r: string)
    ensures |r| == |s|
  {
    seq(|s|, k requires 0 <= k < |s| => Lower(s[k]))
  }

  function OptionKey(options: map<Label, string>, l: Label): string {
    if l in options then LowerText(Collapse(options[l])) else ""
  }

  /** The first of the labels that fits. */
  function FirstFit(fits: Label -> bool): Option<Label> {
    if fits(A) then Some(A) else if fits(B) then Some(B) else if fits(C) then Some(C) else if fits(D) then Some(D) else None
  }

  /** `_resolve_correct_label`: a first letter A to D is the label; otherwise the first option that
      equals the text, and otherwise the first that holds it. */
  function ResolvedLabel(options: map<Label, string>, raw: string): Option<Label> {
    var text := OptionText(raw);
    var i := SkipSpaces(text, 0);
    if text == "" then None
    else if i < |text| && LabelOf(text[i]).Some? then LabelOf(text[i])
    else
      var wanted := LowerText(Collapse(text));
      var equal := FirstFit(l => OptionKey(options, l) != "" && OptionKey(options, l) == wanted);
      if equal.Some? then equal
      else FirstFit(l => OptionKey(options, l) != "" && Contains(OptionKey(options, l), wanted))
  }

  const SHAPES: Shapes := Shapes(SectionLine, TheoryHeader, ObjectiveHeader, InstructionLine, TheoryNumber,
                                 AnswerTail, InlineMarkers, ResolvedLabel)

  /** `parse_structured_docx_rows` on the texts of a document. */
  method ParseDocument(texts: seq<string>) returns (rows: seq<Row>, instructions: seq<string>)
    ensures rows == Parsed(texts, SHAPES) && instructions == ParsedInstructions(texts, SHAPES)
  {
    var parser := new Parser();
    rows, instructions := parser.Parse(texts, SHAPES);
  }

  // ------------------------------------------------- option and answer lines are no headings

  /** No heading of the parser starts with a letter and a full stop. */
  lemma SecondIsStop(line: string, word: string)
    requires |line| > 1 && !IsSpace(line[0]) && line[1] == '.' && |word| > 1 && word[1] != '.'
    ensures M.Literal(word, line, 0) == [] && !StartsWith(line, word) && SkipSpaces(line, 0) == 0
  {
    SkipSpacesUnique(line, 0, 0);
    assert Lower('.') == '.';
  }

  lemma StopIsNoHeading(line: string)
    requires |line| > 1 && !IsSpace(line[0]) && line[1] == '.'
    ensures NoHeading(line, SHAPES) <==> !QuestionHeading(line)
  {
    hide QuestionHeading, SkipSpaces, IsSpace, StartsWith, M.Literal;
    SecondIsStop(line, "section");
    SecondIsStop(line, "theory");
    SecondIsStop(line, "objective");
    SecondIsStop(line, "objectives");
    SecondIsStop(line, "comprehension");
    SecondIsStop(line, "instruction");
    SecondIsStop(line, "instructions");
    SecondIsStop(line, "answer all the questions");
    SecondIsStop(line, "read the passage");
    SecondIsStop(line, "read the texte");
    SecondIsStop(line, "texte");
    SecondIsStop(line, "passage");
    assert UpperText(line)[1] == '.' && "ANSWER"[1] == 'N';
  }

  lemma OptionHeading(q: Question, l: Label)
    ensures NoHeading(OptionPrinted(q, l), SHAPES) <==> !QuestionHeading(OptionPrinted(q, l))
  {
    hide QuestionHeading, NoHeading, LabelOf, IsSpace;
    LetterLabel(l);
    StopIsNoHeading(OptionPrinted(q, l));
  }

  lemma NotThere(line: string, word: string, k: nat)
    requires |line| > k && !IsSpace(line[0]) && |word| > k && Lower(line[k]) != word[k]
    ensures M.Literal(word, line, 0) == [] && !StartsWith(line, word) && SkipSpaces(line, 0) == 0
  {
    SkipSpacesUnique(line, 0, 0);
  }

  lemma AnswerHeading(l: Label)
    ensures NoHeading(AnswerPrinted(l), SHAPES)
  {
    hide SkipSpaces, IsSpace, StartsWith, M.Literal, Contains, WordCount;
    var line := AnswerPrinted(l);
    assert line == ['A', 'n', 's', 'w', 'e', 'r', ':', ' ', Letter(l)];
    assert !IsSpace('A') by { LetterLabel(A); assert Letter(A) == 'A'; }
    NotThere(line, "section", 0);
    NotThere(line, "theory", 0);
    NotThere(line, "objective", 0);
    NotThere(line, "objectives", 0);
    NotThere(line, "comprehension", 0);
    NotThere(line, "instruction", 0);
    NotThere(line, "instructions", 0);
    NotThere(line, "answer all the questions", 6);
    NotThere(line, "read the passage", 0);
    NotThere(line, "read the texte", 0);
    NotThere(line, "texte", 0);
    NotThere(line, "passage", 0);
    var u := UpperText(line);
    assert u[0] == 'A' && |u| == 9;
    assert 'Q' !in u by { assert u == ['A', 'N', 'S', 'W', 'E', 'R', ':', ' ', Letter(l)]; }
    NoWordIn(u, "QUESTION");
  }

  lemma {:induction false} NoWordIn(s: string, word: string)
    requires word != "" && word[0] !in s
    ensures !Contains(s, word)
    decreases |s|
  {
    if s != "" {
      assert s[0] in s && forall c :: c in s[1..] ==> c in s;
      NoWordIn(s[1..], word);
    }
  }

  // -------------------------------------------------- option lines hold no whole question

  lemma {:induction false} RStripReaches(s: string, i: nat)
    requires i < |s| && !IsSpace(s[i])
    ensures i < |RStrip(s)|
    decreases |s|
  {
    if IsSpace(s[|s| - 1]) { RStripReaches(s[..|s| - 1], i); }
  }

  /** No answer word starts in front of the option itself. */
  lemma AnswerTailBehind(line: string)
    requires |line| > 2 && line[1] == '.' && line[2] == ' '
    ensures AnswerTail(line).Some? ==> 3 <= AnswerTail(line).value.0 <= |line|
  {
    hide M.WordBoundary, Behind;
    M.SearchIsFirst(AnswerWord, line, 0);
    var m := M.Search(AnswerWord, line, 0);
    if m.Some? && m.value.start < 3 {
      var k := m.value.start;
      assert AnswerWord(line, k).Some?;
      AnswerWordStarts(line, k);
    }
  }

  lemma AnswerWordStarts(t: string, i: nat)
    requires AnswerWord(t, i).Some?
    ensures i + 1 < |t| && Lower(t[i]) == 'a' && Lower(t[i + 1]) == 'n'
  {
    hide M.WordBoundary, Behind;
    assert "answer"[0] == 'a' && "answer"[1] == 'n' && "ans"[0] == 'a' && "ans"[1] == 'n';
  }

  /** What is left of an option line in front of an answer word still starts with the letter. */
  lemma ValueStarts(line: string)
    requires |line| > 2 && !IsSpace(line[0]) && line[1] == '.' && line[2] == ' '
    ensures var tail := AnswerTail(line);
      var value := if tail.Some? then Strip(Slice(line, 0, tail.value.0)) else line;
      |value| > 1 && value[0] == line[0] && value[1] == '.'
  {
    hide AnswerTail, IsSpace;
    AnswerTailBehind(line);
    var tail := AnswerTail(line);
    if tail.Some? {
      var cut := Slice(line, 0, tail.value.0);
      assert cut == line[..tail.value.0];
      SkipSpacesUnique(cut, 0, 0);
      StopIsVisible();
      RStripReaches(cut, 1);
      assert cut[0..] == cut;
    }
  }

  lemma StopIsVisible()
    ensures !IsSpace('.')
  {
  }

  lemma OwnMarkFirst(value: string, l: Label)
    requires |value| > 1 && value[0] == Letter(l) && value[1] == '.'
    ensures InlineMarkers(value) != [] && InlineMarkers(value)[0].key == l && InlineMarkers(value)[0].start == 0
  {
    LetterLabel(l);
    SkipSpacesUnique(value, 1, 1);
    assert M.MatchAt(InlineMark, value, 0).Some?;
    M.SearchHere(InlineMark, value, 0);
  }

  lemma {:induction false} MarkerIsOne(ms: seq<Marker>, l: Label)
    requires forall m :: m in ms ==> m.start >= 0
    ensures FirstMarker(ms, l).Some? ==> FirstMarker(ms, l).value.start >= 0
    decreases |ms|
  {
    if ms != [] && ms[0].key != l { MarkerIsOne(ms[1..], l); }
  }

  /** The first marker of an option line is its own letter, so no question is found in it. */
  lemma NoInlineBehindOwn(text: string, l: Label)
    requires SafeText(text) == text
    requires var tail := AnswerTail(text);
      var value := if tail.Some? then Strip(Slice(text, 0, tail.value.0)) else text;
      InlineMarkers(value) != [] && InlineMarkers(value)[0].key == l && InlineMarkers(value)[0].start == 0
    ensures InlineRow(text, "", 0, SHAPES).None?
  {
    hide AnswerTail, InlineMarkers, SafeText, OptionText, ResolvedLabel;
    var tail := AnswerTail(text);
    var value := if tail.Some? then Strip(Slice(text, 0, tail.value.0)) else text;
    var markers := InlineMarkers(value);
    MarkersInText(value);
    MarkerIsOne(markers, A);
    assert FirstMarker(markers, l) == Some(markers[0]);
    if l == A {
      assert Slice(value, 0, 0) == "";
      NoStem();
    }
  }

  lemma NoStem()
    ensures StemText(StripSet("", {' ', ':', '-'})) == ""
  {
  }

  lemma MarkersInText(value: string)
    ensures forall m :: m in InlineMarkers(value) ==> m.start >= 0
  {
    MarksLabelled(value, 0);
    hide M.FindAll;
    var r := InlineMarkers(value);
    forall m | m in r ensures m.start >= 0 { var k :| 0 <= k < |r| && r[k] == m; }
  }

  lemma OptionNeverInline(q: Question, l: Label)
    requires Settled(Choice(q, l))
    ensures NoInline(OptionPrinted(q, l), SHAPES)
  {
    hide InlineRow, AnswerTail, InlineMarkers, Strip, Slice, SafeText, IsCollapsed, Letter, LabelOf;
    var line := OptionPrinted(q, l);
    LetterLabel(l);
    PrefixSettled(Letter(l), Choice(q, l));
    ValueStarts(line);
    var tail := AnswerTail(line);
    OwnMarkFirst(if tail.Some? then Strip(Slice(line, 0, tail.value.0)) else line, l);
    NoInlineBehindOwn(line, l);
  }

  // ------------------------------------------------------------------ all documents

  /** A question that the parser reads as printed: its texts stay as they are under the clean-up,
      its stem is no heading, no answer line and no whole question, and none of its option lines
      is taken for a heading because it holds the word question among at most four words. */
  predicate LegibleQuestion(q: Question) {
    && TextsFit(q) && NoHeading(q.stem, SHAPES) && NoInline(q.stem, SHAPES) && DocxRows.AnswerLine(q.stem).None?
    && forall l :: !QuestionHeading(OptionPrinted(q, l))
  }

  predicate Legible(qs: seq<Question>, heading: string, ts: seq<seq<string>>) {
    && (forall q :: q in qs ==> LegibleQuestion(q)) && InSequence(qs)
    && ValidTheoryPart(heading, ts, SHAPES)
    && !LongStatement(FirstStatement(qs, ts))
  }

  lemma LegibleIsValid(q: Question)
    ensures LegibleQuestion(q) <==> ValidQuestion(q, SHAPES)
  {
    hide Settled, NoHeading, NoInline, DocxRows.AnswerLine, OptionPrinted, AnswerPrinted, QuestionHeading, ProperOption, Choice;
    forall l ensures NoHeading(OptionPrinted(q, l), SHAPES) <==> !QuestionHeading(OptionPrinted(q, l)) { OptionHeading(q, l); }
    forall l | ProperOption(Choice(q, l)) ensures NoInline(OptionPrinted(q, l), SHAPES) {
      ProperIsSettled(Choice(q, l));
      OptionNeverInline(q, l);
    }
    if q.answer.Some? { AnswerHeading(q.answer.value); }
    forall l ensures ValidOption(q, l, SHAPES) <==> ProperOption(Choice(q, l)) && !QuestionHeading(OptionPrinted(q, l)) { }
    if ValidQuestion(q, SHAPES) {
      forall l ensures ValidOption(q, l, SHAPES) { match l { case A => case B => case C => case D => } }
    }
  }

  lemma ProperIsSettled(x: string)
    requires ProperOption(x)
    ensures Settled(x)
  {
  }

  /** Every printed document, whatever its texts, comes back question by question and row by row
      if and only if it is legible. */
  lemma RoundTripExactly(qs: seq<Question>, heading: string, ts: seq<seq<string>>, keys: seq<Label>)
    ensures Parsed(WholePaper(qs, heading, ts, keys), SHAPES) == ExpectedRows(qs, heading, ts, keys) <==> Legible(qs, heading, ts)
  {
    DocxExact.RoundTripExactly(qs, heading, ts, keys, SHAPES);
    hide LegibleQuestion, ValidQuestion, InSequence, ValidTheoryPart, LongStatement, Parsed, WholePaper, ExpectedRows;
    forall q ensures LegibleQuestion(q) <==> ValidQuestion(q, SHAPES) { LegibleIsValid(q); }
  }

  // ------------------------------------------------------------------ lost questions

  function Repeated(n: nat): (s: string)
    ensures |s| == n && forall k :: 0 <= k < n ==> s[k] == 'x'
  {
    seq(n, _ => 'x')
  }

  lemma NoMarks(t: string)
    requires forall k :: 0 <= k < |t| ==> t[k] == 'x'
    ensures AnswerTail(t).None? && InlineMarkers(t) == []
  {
    hide M.WordBoundary, Behind;
    M.SearchIsFirst(AnswerWord, t, 0);
    M.SearchIsFirst(InlineMark, t, 0);
    var m := M.Search(AnswerWord, t, 0);
    if m.Some? { AnswerWordStarts(t, m.value.start); }
  }

  /** A stem of the letter x alone is read as printed. */
  lemma RepeatedIsStem(n: nat)
    requires n > 6
    ensures Settled(Repeated(n)) && NoHeading(Repeated(n), SHAPES) && NoInline(Repeated(n), SHAPES)
    ensures DocxRows.AnswerLine(Repeated(n)).None? && OptionLine(Repeated(n)).None?
  {
    hide NoHeading, NoInline, SafeText, IsCollapsed, AnswerTail, InlineMarkers, SkipSpaces;
    var stem := Repeated(n);
    VisibleSettled(stem);
    RepeatedIsNoHeading(n);
    NoMarks(stem);
    NoInlineWithout(stem);
    assert UpperText(stem)[0] == 'X' && "ANSWER"[0] == 'A' && "ANS"[0] == 'A';
    assert LabelOf('x').None?;
  }

  lemma RepeatedIsNoHeading(n: nat)
    requires n > 6
    ensures NoHeading(Repeated(n), SHAPES)
  {
    hide SkipSpaces, IsSpace, StartsWith, M.Literal, Contains, WordCount;
    var stem := Repeated(n);
    assert !IsSpace('x') by { XIsVisible(); }
    NotThere(stem, "section", 0);
    NotThere(stem, "theory", 0);
    NotThere(stem, "objective", 0);
    NotThere(stem, "objectives", 0);
    NotThere(stem, "comprehension", 0);
    NotThere(stem, "instruction", 0);
    NotThere(stem, "instructions", 0);
    NotThere(stem, "answer all the questions", 0);
    NotThere(stem, "read the passage", 0);
    NotThere(stem, "read the texte", 0);
    NotThere(stem, "texte", 0);
    NotThere(stem, "passage", 0);
    var u := UpperText(stem);
    assert forall k :: 0 <= k < |u| ==> u[k] == 'X';
    NoWordIn(u, "QUESTION");
  }

  lemma XIsVisible()
    ensures !IsSpace('x')
  {
  }

  lemma NoInlineWithout(text: string)
    requires SafeText(text) == text && AnswerTail(text).None? && InlineMarkers(text) == []
    ensures NoInline(text, SHAPES)
  {
    hide AnswerTail, InlineMarkers, SafeText, OptionText, StemText, ResolvedLabel;
  }

  /** A question with a stem of `n` letters and the first option `a`. */
  function Sample(n: nat, a: string): Question { Question(Repeated(n), a, "b", "c", "d", Some(A)) }

  lemma SampleLegible(n: nat, a: string)
    requires n > 6 && ProperOption(a)
    ensures Legible([Sample(n, a)], "", []) <==> n <= 120 && !QuestionHeading("A. " + a)
  {
    hide QuestionHeading, NoHeading, NoInline, DocxRows.AnswerLine, Settled, ProperOption;
    var q := Sample(n, a);
    RepeatedIsStem(n);
    ShortOption(B, 'b');
    ShortOption(C, 'c');
    ShortOption(D, 'd');
    assert OptionPrinted(q, A) == "A. " + a && OptionPrinted(q, B) == "B. b" && OptionPrinted(q, C) == "C. c" && OptionPrinted(q, D) == "D. d";
    assert TextsFit(q);
    assert LegibleQuestion(q) <==> !QuestionHeading("A. " + a);
  }

  lemma ShortOption(l: Label, c: char)
    requires 'b' <= c <= 'd'
    ensures ProperOption([c]) && !QuestionHeading([Letter(l)] + ". " + [c])
  {
    VisibleSettled([c]);
    var line := [Letter(l)] + ". " + [c];
    NoWordIn(UpperText(line), "QUESTION");
  }

  /** A question whose stem is 121 letters is lost; with one letter less it comes back. */
  lemma LongStemIsLost()
    ensures Parsed(WholePaper([Sample(121, "a")], "", [], []), SHAPES) != ExpectedRows([Sample(121, "a")], "", [], [])
    ensures Parsed(WholePaper([Sample(120, "a")], "", [], []), SHAPES) == ExpectedRows([Sample(120, "a")], "", [], [])
  {
    hide *;
    PlainOption();
    SampleLegible(121, "a");
    SampleLegible(120, "a");
    RoundTripExactly([Sample(121, "a")], "", [], []);
    RoundTripExactly([Sample(120, "a")], "", [], []);
  }

  lemma PlainOption()
    ensures ProperOption("a") && !QuestionHeading("A. " + "a")
  {
    VisibleSettled("a");
    NoWordIn(UpperText("A. " + "a"), "QUESTION");
  }

  /** A question with the option "No question" is lost: the code takes its option line for a heading. */
  lemma QuestionOptionIsLost()
    ensures var q := Sample(7, "No question"); Parsed(WholePaper([q], "", [], []), SHAPES) != ExpectedRows([q], "", [], [])
  {
    hide *;
    NoQuestion();
    SampleLegible(7, "No question");
    RoundTripExactly([Sample(7, "No question")], "", [], []);
  }

  lemma NoQuestion()
    ensures ProperOption("No question") && QuestionHeading("A. " + "No question")
  {
    hide WordCount, Contains, ProperOption;
    var x, line := "No question", "A. No question";
    assert "A. " + x == line;
    NoQuestionIsProper();
    assert UpperText(line)[6..] == "QUESTION";
    ContainsTail(UpperText(line), "QUESTION", 6);
    FewWords();
  }

  lemma NoQuestionIsProper()
    ensures ProperOption("No question")
  {
    hide SafeText;
    SafePlain("No question");
  }

  lemma {:induction false} ContainsTail(s: string, part: string, i: nat)
    requires i <= |s| && part <= s[i..]
    ensures Contains(s, part)
    decreases |s|
  {
    if i > 0 { ContainsTail(s[1..], part, i - 1); }
  }

  /** One more word without blanks in it. */
  lemma {:induction false} WordTail(s: string, w: string)
    ensures (forall k :: 0 <= k < |w| ==> !IsSpace(w[k])) ==> WordCount(s + w) <= WordCount(s) + 1
    ensures (forall k :: 0 <= k < |w| ==> !IsSpace(w[k])) && s != "" && !IsSpace(s[|s| - 1]) ==> WordCount(s + w) == WordCount(s)
    decreases |w|
  {
    hide IsSpace;
    if w == "" {
      assert s + w == s;
    } else {
      var t := s + w;
      assert t[..|t| - 1] == s + w[..|w| - 1];
      WordTail(s, w[..|w| - 1]);
    }
  }

  lemma FewWords()
    ensures WordCount("A. No question") <= 4
  {
    hide WordCount;
    WordTail("", "A.");
    BlankTail("A.");
    WordTail("A. ", "No");
    BlankTail("A. No");
    WordTail("A. No ", "question");
    assert "" + "A." == "A." && "A." + " " == "A. " && "A. " + "No" == "A. No" && "A. No" + " " == "A. No " && "A. No " + "question" == "A. No question";
    NoWords();
  }

  lemma NoWords()
    ensures WordCount("") == 0
  {
  }

  lemma BlankTail(s: string)
    ensures WordCount(s + " ") == WordCount(s)
  {
    assert (s + " ")[..|s|] == s;
  }
}
