/**
  The answer slots of a source text, and why the normaliser cannot change a key of a paper
  that the printer wrote: the slots of the printed text are the printed keys.
 */
module AnswerSlots {
  import opened Chars
  import opened Markers
  import opened Wrappers
  import opened QuestionParsers
  import opened PrintedLines
  import opened CanonicalText
  import opened NormalizeRows
  import YorubaPaper

  /** The last place between `lo` and `hi` where `(?:\b|$)` holds. */
  function LastStop(t: string, lo: nat, hi: nat): (r: Option<nat>)
    requires lo <= hi <= |t|
    ensures r.Some? ==> lo <= r.value <= hi
    decreases hi - lo
  {
    if WordBoundary(t, hi) || LineEnd(t, hi) then Some(hi)
    else if lo < hi then LastStop(t, lo, hi - 1)
    else None
  }

  /** `([A-D])\s*(?:\b|$)` after the separators. */
  function LabelSlot(t: string, start: nat, e: nat): Option<Match>
    requires start < e <= |t|
  {
    var s := SkipSeparators(t, e);
    if s < |t| && IsLabel(t[s]) && LastStop(t, s + 1, SkipSpaces(t, s + 1)).Some?
    then Some(Match(start, LastStop(t, s + 1, SkipSpaces(t, s + 1)).value, [Upper(t[s])]))
    else None
  }

  function TrySlots(t: string, start: nat, ends: seq<nat>): Option<Match>
    requires forall e :: e in ends ==> start < e <= |t|
  {
    if ends == [] then None
    else
      assert ends[0] in ends && forall e :: e in ends[1..] ==> e in ends;
      if LabelSlot(t, start, ends[0]).Some? then LabelSlot(t, start, ends[0]) else TrySlots(t, start, ends[1..])
  }

  /** The slot expression of the CA layer: an answer word and its label. */
  function SlotMark(t: string, i: nat): Option<Match> {
    if i <= |t| && LineStart(t, i) then TrySlots(t, i, AnswerWords(true, t, SkipSpaces(t, i))) else None
  }

  function Groups(ms: seq<Match>): seq<string> {
    seq(|ms|, k requires 0 <= k < |ms| => ms[k].group)
  }

  function Slots(text: string): seq<string> { Groups(FindAll(SlotMark, text, 0)) }

  // ---------------------------------------------------------- slots of printed lines

  lemma SlotAnchored(t: string) ensures Anchored(SlotMark, t) { }

  lemma NoSlotWithoutWord(t: string, i: nat)
    requires i <= |t| && SkipSpaces(t, i) == i && AnswerWords(true, t, i) == []
    ensures MatchAt(SlotMark, t, i).None?
  {
  }

  lemma NoSlotOnGuarded(t: string, i: nat, line: string)
    requires LineAt(t, i, line) && Guarded(line)
    ensures MatchAt(SlotMark, t, i).None?
  {
    hide SlotMark, MatchAt;
    CharsOf(t, i, line);
    assert t[i + 0] == line[0] && t[i + 1] == line[1];
    SkipSpacesUnique(t, i, i);
    if Guards(line[0]) {
      NoWordAt(t, i);
    } else {
      NoWordBeforeDot(t, i);
    }
    NoSlotWithoutWord(t, i);
  }

  lemma {:induction false} NoSlotsInHead(t: string, i: nat, lines: seq<string>)
    requires LinesAt(t, i, lines)
    requires forall k :: 0 <= k < |lines| ==> Guarded(lines[k])
    ensures Quiet(SlotMark, t, i, lines)
    decreases |lines|
  {
    hide TextAt, LineAt, MatchAt, Guarded, Join, OneLiners;
    FirstLine(t, i, lines);
    NoSlotOnGuarded(t, i, lines[0]);
    if |lines| > 1 {
      NoSlotsInHead(t, i + |lines[0]| + 1, lines[1..]);
    }
  }

  /** The slot of a key line runs over the line break to the next word. */
  lemma SlotOnKeyLine(t: string, i: nat, key: string)
    requires LineAt(t, i, KeyLine(key)) && IsKey(key)
    requires i + 10 < |t| ==> IsWordChar(t[i + 10])
    ensures MatchAt(SlotMark, t, i) == Some(Match(i, if i + 9 == |t| then |t| else i + 10, key))
  {
    KeyPrefix(t, i, key);
    var p := i + 9;
    var q := if p == |t| then p else p + 1;
    assert p < |t| ==> t[p] == '\n' && IsSpace(t[p]);
    SkipSpacesUnique(t, p, q);
    assert WordBoundary(t, q) || LineEnd(t, q);
    assert LastStop(t, p, q) == Some(q);
    assert AnswerWords(true, t, i)[0] == i + 6;
    assert Upper(t[i + 8]) == t[i + 8];
  }

  lemma NoSlotAtEnd(t: string)
    ensures MatchAt(SlotMark, t, |t|).None?
  {
  }

  // ------------------------------------------------------------- slots of a paper

  function KeySlots(i: nat, rows: seq<Row>, n: nat, length: nat): seq<Match>
    requires AllPrintable(rows)
    decreases |rows|
  {
    if rows == [] then []
    else
      var k := i + |HeadText(n, rows[0])| + 1;
      [Match(k, if k + 9 == length then length else k + 10, rows[0].answer)]
      + KeySlots(i + BlockLength(n, rows[0]), rows[1..], n + 1, length)
  }

  function From(t: string, i: nat): seq<Match> {
    if i <= |t| then FindAll(SlotMark, t, i) else []
  }

  lemma SlotOfBlock(t: string, i: nat, n: nat, row: Row)
    requires Printable(row) && BlockAt(t, i, n, row)
    requires var j := i + BlockLength(n, row); j < |t| ==> IsWordChar(t[j])
    ensures var k := i + |HeadText(n, row)| + 1;
      row.Objective? &&
      From(t, i) == [Match(k, if k + 9 == |t| then |t| else k + 10, row.answer)] + From(t, i + BlockLength(n, row))
  {
    hide *;
    var k := i + |HeadText(n, row)| + 1;
    var j := i + BlockLength(n, row);
    BlockLengths(n, row);
    BlockParts(t, i, n, row);
    var m := Match(k, if k + 9 == |t| then |t| else k + 10, row.answer);
    SlotAnchored(t);
    HeadShape(n, row);
    HeadUnnumbered(n, row);
    NoSlotsInHead(t, i, HeadLines(n, row));
    PassHead(SlotMark, t, i, n, row);
    SlotOnKeyLine(t, k, row.answer);
    FoundHere(t, k, m);
    NoSlotAtEnd(t);
    FromMeans(t, i);
    FromMeans(t, j);
    NothingFound(SlotMark, t);
  }

  lemma FoundHere(t: string, k: nat, m: Match)
    requires k <= |t| && MatchAt(SlotMark, t, k) == Some(m)
    ensures k < m.end <= |t| && FindAll(SlotMark, t, k) == [m] + FindAll(SlotMark, t, m.end)
  {
    hide SlotMark;
    SearchHere(SlotMark, t, k);
  }

  lemma FromMeans(t: string, i: nat)
    ensures From(t, i) == if i <= |t| then FindAll(SlotMark, t, i) else []
  {
  }

  lemma {:induction false} SlotsOfPaper(t: string, i: nat, rows: seq<Row>, n: nat, end: nat)
    requires AllPrintable(rows) && PaperAt(t, i, rows, n, end) && (rows != [] ==> i <= |t|)
    requires end < |t| ==> IsWordChar(t[end])
    ensures From(t, i) == KeySlots(i, rows, n, |t|) + From(t, end)
    decreases |rows|
  {
    hide BlockAt, BlockLength, HeadText, Printable, From, IsWordChar;
    if rows != [] {
      var next := i + BlockLength(n, rows[0]);
      AfterBlock(t, i, rows, n, end);
      NextIsWord(t, next, rows[1..], n + 1, end);
      SlotOfBlock(t, i, n, rows[0]);
      SlotsOfPaper(t, next, rows[1..], n + 1, end);
    }
  }

  lemma NextIsWord(t: string, i: nat, rows: seq<Row>, n: nat, end: nat)
    requires AllPrintable(rows) && PaperAt(t, i, rows, n, end) && (rows == [] && i < |t| ==> IsWordChar(t[i]))
    ensures i < |t| ==> IsWordChar(t[i])
  {
    hide Join, LinesAt, LineAt;
    if rows != [] && i < |t| {
      BlockParts(t, i, n, rows[0]);
      FirstLine(t, i, HeadLines(n, rows[0]));
      PrintableStem(rows[0]);
      StemPrefix(t, i, n, rows[0].stem);
    }
  }

  function Answers(rows: seq<Row>): seq<string>
    requires AllPrintable(rows)
  {
    seq(|rows|, k requires 0 <= k < |rows| => assert Printable(rows[k]); rows[k].answer)
  }

  lemma {:induction false} SlotGroups(i: nat, rows: seq<Row>, n: nat, length: nat)
    requires AllPrintable(rows)
    ensures Groups(KeySlots(i, rows, n, length)) == Answers(rows)
    decreases |rows|
  {
    hide HeadText, BlockLength, Printable;
    if rows != [] {
      SlotGroups(i + BlockLength(n, rows[0]), rows[1..], n + 1, length);
      PrintableAnswer(rows[0]);
      var ks := KeySlots(i, rows, n, length);
      assert Groups(ks) == [ks[0].group] + Groups(ks[1..]);
      assert Answers(rows) == [rows[0].answer] + Answers(rows[1..]);
    }
  }

  lemma PrintableAnswer(row: Row)
    requires Printable(row)
    ensures row.Objective? && IsKey(row.answer) && ValidObjective(row)
  {
    assert forall l :: l in LABELS ==> row.options[l] != "";
  }

  /** The paper stands at the start of its printed text, up to the theory heading. */
  lemma PrintedPaper(rows: seq<Row>, theory: string) returns (end: nat)
    requires AllPrintable(rows) && rows != []
    ensures PaperAt(PaperText(rows, theory), 0, rows, 1, end)
    ensures end < |PaperText(rows, theory)| ==> IsWordChar(PaperText(rows, theory)[end])
  {
    hide PaperLines, Join, OneLiners, Printable;
    var t, j := PaperText(rows, theory), Join(PaperLines(rows, 1), "\n");
    PaperOneLiners(rows, 1);
    MoreLines(rows, 1);
    if theory == "" {
      assert PaperLines(rows, 1) + TheoryLines(theory) == PaperLines(rows, 1);
    } else {
      JoinHeading(PaperLines(rows, 1), theory);
      assert t[|j|] == '\n' && t[|j| + 1] == HEADING[0];
    }
    assert t[0..|j|] == j;
    PaperOfLines(t, 0, rows, 1);
    end := |j| + 1;
  }

  /** When the text has as many answer slots as rows, its slots are the printed keys. */
  lemma SlotsAreKeys(rows: seq<Row>, theory: string)
    requires AllPrintable(rows)
    ensures |Slots(PaperText(rows, theory))| >= |rows|
    ensures |Slots(PaperText(rows, theory))| == |rows| ==> Slots(PaperText(rows, theory)) == Answers(rows)
  {
    hide PaperText, Printable, KeySlots, FindAll;
    if rows == [] {
      assert Answers(rows) == [];
    } else {
      var t := PaperText(rows, theory);
      var end := PrintedPaper(rows, theory);
      SlotsOfPaper(t, 0, rows, 1, end);
      SlotGroups(0, rows, 1, |t|);
      var ks := KeySlots(0, rows, 1, |t|);
      assert Groups(ks + From(t, end)) == Groups(ks) + Groups(From(t, end));
    }
  }

  lemma KeysInked(row: Row)
    requires Printable(row)
    ensures Strip(row.answer) != "" && row.Objective?
  {
    StripAround("", row.answer, "");
    assert "" + row.answer + "" == row.answer;
  }

  /** The normaliser, run on printable rows with the slots of their printed text, keeps every
      key: it only cleans stems. */
  lemma KeysSurvive(rows: seq<Row>, theory: string, f: Found)
    requires AllPrintable(rows) && f.slots == Slots(PaperText(rows, theory))
    ensures forall k :: 0 <= k < |rows| ==> ValidObjective(rows[k])
    ensures KeyedAll(FilledAll(rows, f.labels), f) == CleanedAll(rows)
  {
    hide PaperText, Printable, Slots, Strip, CleanStem, NamedLabel, HasFourOptions;
    SlotsAreKeys(rows, theory);
    forall k | 0 <= k < |rows|
      ensures ValidObjective(rows[k]) && Filled(rows[k], k, f.labels) == rows[k]
      ensures Keyed(rows[k], k, |rows|, f) == rows[k]
    {
      PrintableAnswer(rows[k]);
      KeysInked(rows[k]);
      assert |f.slots| == |rows| ==> f.slots[k] == Answers(rows)[k];
    }
    assert FilledAll(rows, f.labels) == rows;
  }

  /** End to end: a Yoruba paper that goes through its block parser, the printer and the
      normaliser stack keeps its questions, options, keys and theory text, whatever else the
      theory text makes the answer expressions find. */
  lemma YorubaKeysSurvive(objective: seq<string>, theory: seq<string>, f: Found)
    requires f.slots == Slots(YorubaPaper.ExtractedText(objective, theory))
    ensures AllPrintable(YorubaPaper.ObjectiveRows(objective))
    ensures var th := YorubaPaper.TheoryText(theory);
      var tail := if th == "" then [] else [Theory(th)];
      ExamRows(YorubaPaper.ObjectiveRows(objective) + tail, f) == CleanedAll(YorubaPaper.ObjectiveRows(objective)) + tail
  {
    hide PaperText, Slots, YorubaPaper.ObjectiveRows, Printable, Merged, Strip, ValidObjective;
    YorubaPaper.ObjectiveRowsPrintable(objective);
    var rows, th := YorubaPaper.ObjectiveRows(objective), YorubaPaper.TheoryText(theory);
    var tail := if th == "" then [] else [Theory(th)];
    KeysSurvive(rows, th, f);
    SplitsApart(rows, tail);
    StripIdempotent(Join(theory, "\n\n"));
    MergeOne(th);
  }

  lemma MergeOne(text: string)
    requires Strip(text) == text
    ensures Merged(if text == "" then [] else [Theory(text)]) == if text == "" then [] else [Theory(text)]
  {
    hide Strip;
    if text == "" {
      NoJoin();
    } else {
      assert [Theory(text)][1..] == [];
      assert InkedStems([Theory(text)]) == [text];
      OneJoin(text);
    }
  }

  // ------------------------------------------------------ what a source text makes it find

  /** The answer words and the two Igbo ones, the first as its file encodes it. */
  function LabelWords(t: string, i: nat): (ends: seq<nat>)
    requires i <= |t|
    ensures forall e :: e in ends ==> i < e <= |t|
  {
    AnswerWords(true, t, i) + Literal("az\U{00E1}\U{00BB}\U{2039}za", t, i) + Literal("aziza", t, i)
  }

  /** `([A-D])(?:\b|[\).:\-])` after the separators. */
  function LabelBehind(t: string, start: nat, e: nat): Option<Match>
    requires start < e <= |t|
  {
    var s := SkipSeparators(t, e);
    if s < |t| && IsLabel(t[s]) && (s + 1 == |t| || !IsWordChar(t[s + 1])) then Some(Match(start, s + 1, [Upper(t[s])])) else None
  }

  function TryLabels(t: string, start: nat, ends: seq<nat>): Option<Match>
    requires forall e :: e in ends ==> start < e <= |t|
  {
    if ends == [] then None
    else
      assert ends[0] in ends && forall e :: e in ends[1..] ==> e in ends;
      if LabelBehind(t, start, ends[0]).Some? then LabelBehind(t, start, ends[0]) else TryLabels(t, start, ends[1..])
  }

  /** The label expression of the base layer, as the CA layer sets it. */
  function LabelMark(t: string, i: nat): Option<Match> {
    if i <= |t| && LineStart(t, i) then TryLabels(t, i, LabelWords(t, SkipSpaces(t, i))) else None
  }

  /** The last character from `lo` on that is no line break. */
  function LastVisible(t: string, lo: nat, hi: nat): (p: Option<nat>)
    requires lo <= hi <= |t|
    ensures p.Some? ==> lo <= p.value < hi
    decreases hi - lo
  {
    if lo == hi then None else if t[hi - 1] != '\n' then Some(hi - 1) else LastVisible(t, lo, hi - 1)
  }

  /** `(.+?)\s*$` after the separators: the rest of the line without its last blanks, or, when
      nothing but separators is left in the text, the last of them that is no line break. */
  function ValueBehind(t: string, start: nat, e: nat): Option<Match>
    requires start < e <= |t|
  {
    var s := SkipSeparators(t, e);
    if s < |t| then
      var value := RStrip(t[s..EndOfLine(t, s)]);
      var tail := LastLineEnd(t, s + |value|, SkipSpaces(t, s + |value|));
      Some(Match(start, if tail.Some? then tail.value else EndOfLine(t, s), value))
    else if LastVisible(t, e, |t|).Some? then Some(Match(start, |t|, Strip([t[LastVisible(t, e, |t|).value]])))
    else None
  }

  function TryValues(t: string, start: nat, ends: seq<nat>): Option<Match>
    requires forall e :: e in ends ==> start < e <= |t|
  {
    if ends == [] then None
    else
      assert ends[0] in ends && forall e :: e in ends[1..] ==> e in ends;
      if ValueBehind(t, start, ends[0]).Some? then ValueBehind(t, start, ends[0]) else TryValues(t, start, ends[1..])
  }

  /** The value expression of the CA layer. */
  function ValueMark(t: string, i: nat): Option<Match> {
    if i <= |t| && LineStart(t, i) then TryValues(t, i, LabelWords(t, SkipSpaces(t, i))) else None
  }

  /** What the three expressions find in a source text, for rows that list their options in these
      orders. */
  function FoundIn(text: string, orders: seq<seq<string>>): Found {
    Found(Groups(FindAll(LabelMark, text, 0)), Slots(text), Groups(FindAll(ValueMark, text, 0)), orders)
  }

  predicate OneLabel(m: Match) { |m.group| == 1 && m.group[0] in "ABCD" }

  lemma {:induction false} LabelFound(t: string, start: nat, ends: seq<nat>)
    requires forall e :: e in ends ==> start < e <= |t|
    ensures TryLabels(t, start, ends).Some? ==> OneLabel(TryLabels(t, start, ends).value)
    ensures TrySlots(t, start, ends).Some? ==> OneLabel(TrySlots(t, start, ends).value)
    decreases |ends|
  {
    hide SkipSeparators, SkipSpaces, LastStop;
    if ends != [] {
      assert ends[0] in ends && forall e :: e in ends[1..] ==> e in ends;
      LabelFound(t, start, ends[1..]);
    }
  }

  predicate FindsLabels(p: Pattern, t: string) { forall i :: 0 <= i <= |t| && p(t, i).Some? ==> OneLabel(p(t, i).value) }

  lemma BothFindLabels(t: string)
    ensures FindsLabels(LabelMark, t) && FindsLabels(SlotMark, t)
  {
    hide AnswerWords, TryLabels, TrySlots, OneLabel, Literal;
    forall i | 0 <= i <= |t| && LineStart(t, i)
      ensures LabelMark(t, i).Some? ==> OneLabel(LabelMark(t, i).value)
      ensures SlotMark(t, i).Some? ==> OneLabel(SlotMark(t, i).value)
    {
      LabelFound(t, i, LabelWords(t, SkipSpaces(t, i)));
      LabelFound(t, i, AnswerWords(true, t, SkipSpaces(t, i)));
    }
  }

  lemma {:induction false} AllLabels(p: Pattern, t: string, i: nat)
    requires i <= |t| && FindsLabels(p, t)
    ensures forall m :: m in FindAll(p, t, i) ==> OneLabel(m)
    decreases |t| - i
  {
    hide OneLabel;
    SearchIsFirst(p, t, i);
    var first := Search(p, t, i);
    if first.Some? { AllLabels(p, t, first.value.end); }
  }

  lemma LabelInked(m: Match)
    requires OneLabel(m)
    ensures Strip(m.group) != ""
  {
    var g := m.group;
    StripAround("", g, "");
    assert "" + g + "" == g;
  }

  /** Labels and slots that a text holds are never blank, so the theorems on the stack hold for
      every source text. */
  lemma FoundIsWell(text: string, orders: seq<seq<string>>)
    requires forall k :: 0 <= k < |orders| ==> forall l :: l in orders[k] ==> Strip(l) != ""
    ensures WellFound(FoundIn(text, orders))
  {
    hide FindAll, OneLabel, Strip, FindsLabels;
    BothFindLabels(text);
    AllLabels(LabelMark, text, 0);
    AllLabels(SlotMark, text, 0);
    forall m | OneLabel(m) ensures Strip(m.group) != "" { LabelInked(m); }
    var labels, slots := FindAll(LabelMark, text, 0), FindAll(SlotMark, text, 0);
    assert forall k :: 0 <= k < |labels| ==> labels[k] in labels;
    assert forall k :: 0 <= k < |slots| ==> slots[k] in slots;
  }

  /** With any source text the stack is idempotent on a paper if and only if no valid objective row
      of the paper has a stem with two option marks in front. */
  lemma StackIdempotentOnText(rows: seq<Row>, text: string, orders: seq<seq<string>>)
    requires forall k :: 0 <= k < |orders| ==> forall l :: l in orders[k] ==> Strip(l) != ""
    ensures var f := FoundIn(text, orders);
      ExamRows(ExamRows(rows, f), f) == ExamRows(rows, f)
      <==> forall r :: r in rows && ValidObjective(r) ==> !DoublyMarked(r.stem)
  {
    FoundIsWell(text, orders);
    hide *;
    StackIdempotent(rows, FoundIn(text, orders));
  }
}
