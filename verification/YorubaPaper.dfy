/**
  The block parser for Yoruba papers, which prints its rows as the canonical text that
  the rest of the pipeline reads.  The paragraphs of the class section, objective part and
  theory part, are the input.
 */
module YorubaPaper {
  import opened Chars
  import opened Markers
  import opened Wrappers
  import opened QuestionParsers
  import opened PrintedLines
  import opened CanonicalText

  // ------------------------------------------------------------------ line shapes

  /** `^\s*Answer\s*:\s*([A-D])(?:\b|[\s\.:;\-)])`: the key of an answer paragraph. */
  function AnswerKey(p: string): (key: Option<string>)
    ensures key.Some? ==> IsKey(key.value)
  {
    var i := SkipSpaces(p, 0);
    if Literal("answer", p, i) == [] then None
    else
      var c := SkipSpaces(p, i + 6);
      if c < |p| && p[c] == ':' then
        var k := SkipSpaces(p, c + 1);
        if k < |p| && IsLabel(p[k]) && (k + 1 == |p| || !IsWordChar(p[k + 1]))
        then Some([Upper(p[k])]) else None
      else None
  }

  /** A header line of the paper, which belongs to no question. */
  predicate IsHeader(line: string) {
    || TwoWords("third", "term", line)
    || TwoWords("3rd", "term", line)
    || WordColon("subject", line)
    || WordColon("class", line)
    || WordColon("instruction", line)
  }

  predicate TwoWords(a: string, b: string, line: string) {
    Literal(a, line, 0) != [] &&
    var e := SkipSpaces(line, |a|);
    e > |a| && Literal(b, line, e) != []
  }

  predicate WordColon(a: string, line: string) {
    Literal(a, line, 0) != [] &&
    var e := SkipSpaces(line, |a|);
    e < |line| && line[e] == ':'
  }

  /** An option line "(A) text", "A. text" or "A text": its label and its text. */
  function OptionOf(line: string): (r: Option<(string, string)>)
    ensures r.Some? ==> IsKey(r.value.0)
  {
    if |line| > 3 && line[0] == '(' && IsLabel(line[1]) && line[2] == ')' then
      Some(([Upper(line[1])], Strip(line[3..])))
    else if |line| > 2 && IsLabel(line[0]) && (line[1] in ").:-" || IsSpace(line[1])) then
      Some(([Upper(line[0])], Strip(line[2..])))
    else None
  }

  // -------------------------------------------------------------------- blocks

  datatype Block = Block(paragraphs: seq<string>, key: string)

  function Blocks(paragraphs: seq<string>, current: seq<string>): (blocks: seq<Block>)
    ensures forall b :: b in blocks ==> IsKey(b.key)
  {
    if paragraphs == [] then []
    else
      var key := AnswerKey(paragraphs[0]);
      if key.Some? then [Block(current, key.value)] + Blocks(paragraphs[1..], [])
      else Blocks(paragraphs[1..], current + [paragraphs[0]])
  }

  function KeptLines(lines: seq<string>): seq<string> {
    if lines == [] then []
    else
      var line := Strip(lines[0]);
      (if line == "" || IsHeader(line) then [] else [line]) + KeptLines(lines[1..])
  }

  function BlockLines(paragraphs: seq<string>): seq<string> {
    if paragraphs == [] then [] else KeptLines(SplitLines(paragraphs[0])) + BlockLines(paragraphs[1..])
  }

  function Labelled(lines: seq<string>): seq<(string, string)> {
    if lines == [] then []
    else (if OptionOf(lines[0]).Some? then [OptionOf(lines[0]).value] else []) + Labelled(lines[1..])
  }

  function FirstOption(lines: seq<string>): (k: nat)
    ensures k <= |lines|
  {
    if lines == [] || OptionOf(lines[0]).Some? then 0 else 1 + FirstOption(lines[1..])
  }

  /** The options of four labelled lines, when their labels are the four letters. */
  function OptionTable(entries: seq<(string, string)>): map<string, string>
    requires |entries| == 4
  {
    map[][entries[0].0 := entries[0].1][entries[1].0 := entries[1].1]
         [entries[2].0 := entries[2].1][entries[3].0 := entries[3].1]
  }

  /** Stem lines and options: the last four labelled lines, or else the last four lines. */
  function SplitBlock(lines: seq<string>): Option<(seq<string>, map<string, string>)> {
    var labelled := Labelled(lines);
    if |labelled| >= 4 && OptionTable(labelled[|labelled| - 4..]).Keys == {"A", "B", "C", "D"} then
      Some((lines[..FirstOption(lines)], OptionTable(labelled[|labelled| - 4..])))
    else if |lines| >= 5 then
      var o := lines[|lines| - 4..];
      Some((lines[..|lines| - 4], map["A" := o[0], "B" := o[1], "C" := o[2], "D" := o[3]]))
    else None
  }

  function CollapseAll(options: map<string, string>): (r: map<string, string>)
    ensures r.Keys == options.Keys
  {
    map l | l in options :: Collapse(options[l])
  }

  function BlockRow(block: Block, number: nat): Option<Row> {
    var parts := SplitBlock(BlockLines(block.paragraphs));
    if parts.None? then None
    else
      var stem := Collapse(Join(parts.value.0, " "));
      var options := parts.value.1;
      if stem == "" || exists l :: l in options && Strip(options[l]) == "" then None
      else Some(Objective(stem, CollapseAll(options), block.key, Some(number)))
  }

  /** The rows of the blocks from the n-th on; a block that does not parse is skipped. */
  function BlockRows(blocks: seq<Block>, n: nat): seq<Row> {
    if blocks == [] then []
    else (if BlockRow(blocks[0], n).Some? then [BlockRow(blocks[0], n).value] else []) + BlockRows(blocks[1..], n + 1)
  }

  function ObjectiveRows(objective: seq<string>): seq<Row> {
    BlockRows(Blocks(objective, []), 1)
  }

  function TheoryText(theory: seq<string>): string { Strip(Join(theory, "\n\n")) }

  // --------------------------------------------- every row it emits can be printed

  predicate HasInk(s: string) { exists k :: 0 <= k < |s| && !IsSpace(s[k]) }

  lemma {:induction false} InkSurvivesSqueeze(s: string)
    requires HasInk(s)
    ensures HasInk(Squeeze(s))
    decreases |s|
  {
    var k :| 0 <= k < |s| && !IsSpace(s[k]);
    if IsSpace(s[0]) {
      var j := SkipSpaces(s, 0);
      SkipSpacesSkips(s, 0);
      assert s[j..][k - j] == s[k];
      InkSurvivesSqueeze(s[j..]);
      var q := Squeeze(s[j..]);
      var m :| 0 <= m < |q| && !IsSpace(q[m]);
      assert Squeeze(s)[m + 1] == q[m];
    } else {
      assert Squeeze(s)[0] == s[0];
    }
  }

  lemma {:induction false} RStripInk(s: string)
    requires HasInk(s)
    ensures RStrip(s) != ""
  {
    if IsSpace(s[|s| - 1]) {
      var k :| 0 <= k < |s| && !IsSpace(s[k]);
      assert s[..|s| - 1][k] == s[k];
      RStripInk(s[..|s| - 1]);
    }
  }

  lemma StripInk(s: string)
    ensures Strip(s) != "" <==> HasInk(s)
  {
    var j := SkipSpaces(s, 0);
    SkipSpacesSkips(s, 0);
    if HasInk(s) {
      var k :| 0 <= k < |s| && !IsSpace(s[k]);
      assert s[j..][k - j] == s[k];
      RStripInk(s[j..]);
    }
    var r := Strip(s);
    if r != "" {
      assert r[|r| - 1] == s[j..][|r| - 1] == s[j + |r| - 1];
    }
  }

  /** A text with a character that is not blank collapses to a collapsed text. */
  lemma InkCollapses(s: string)
    requires Strip(s) != ""
    ensures IsCollapsed(Collapse(s))
  {
    hide Strip, Squeeze, IsCollapsed;
    StripInk(s);
    InkSurvivesSqueeze(s);
    StripInk(Squeeze(s));
    CollapseIsCollapsed(s);
  }

  lemma RowPrintable(block: Block, number: nat)
    requires IsKey(block.key) && BlockRow(block, number).Some?
    ensures Printable(BlockRow(block, number).value)
  {
    hide Strip, Collapse, IsCollapsed, BlockLines, Labelled, FirstOption, OptionOf, Join;
    var parts := SplitBlock(BlockLines(block.paragraphs)).value;
    CollapseIsCollapsed(Join(parts.0, " "));
    assert parts.1.Keys == {"A", "B", "C", "D"};
    forall l | l in LABELS ensures IsCollapsed(CollapseAll(parts.1)[l]) {
      InkCollapses(parts.1[l]);
    }
  }

  lemma {:induction false} RowsPrintable(blocks: seq<Block>, n: nat)
    requires forall k :: 0 <= k < |blocks| ==> IsKey(blocks[k].key)
    ensures AllPrintable(BlockRows(blocks, n))
    decreases |blocks|
  {
    hide BlockRow, Printable, IsKey;
    if blocks != [] {
      RowsPrintable(blocks[1..], n + 1);
      if BlockRow(blocks[0], n).Some? {
        RowPrintable(blocks[0], n);
      }
    }
  }

  lemma ObjectiveRowsPrintable(objective: seq<string>)
    ensures AllPrintable(ObjectiveRows(objective))
  {
    hide Blocks, BlockRows, IsKey;
    forall k | 0 <= k < |Blocks(objective, [])| ensures IsKey(Blocks(objective, [])[k].key) {
      assert Blocks(objective, [])[k] in Blocks(objective, []);
    }
    RowsPrintable(Blocks(objective, []), 1);
  }

  /** The text that the parser hands on. */
  function ExtractedText(objective: seq<string>, theory: seq<string>): string {
    ObjectiveRowsPrintable(objective);
    PaperText(ObjectiveRows(objective), TheoryText(theory))
  }

  // ------------------------------------------------------------------- the method

  method ParseYoruba(objective: seq<string>, theory: seq<string>) returns (rows: seq<Row>, text: string)
    ensures rows == ObjectiveRows(objective) + (if TheoryText(theory) == "" then [] else [Theory(TheoryText(theory))])
    ensures text == ExtractedText(objective, theory)
  {
    var blocks := CutBlocks(objective);
    var objectiveRows := ReadBlocks(blocks);
    ObjectiveRowsPrintable(objective);
    var theoryText := TheoryText(theory);
    rows := objectiveRows + (if theoryText == "" then [] else [Theory(theoryText)]);
    text := PrintCanonical(objectiveRows, theoryText);
  }

  method CutBlocks(objective: seq<string>) returns (blocks: seq<Block>)
    ensures blocks == Blocks(objective, [])
  {
    hide AnswerKey, IsKey;
    blocks := [];
    var current: seq<string> := [];
    for k := 0 to |objective|
      invariant blocks + Blocks(objective[k..], current) == Blocks(objective, [])
    {
      assert objective[k..][0] == objective[k] && objective[k..][1..] == objective[k + 1..];
      var key := AnswerKey(objective[k]);
      if key.Some? {
        Regroup(blocks, [Block(current, key.value)], Blocks(objective[k + 1..], []));
        blocks := blocks + [Block(current, key.value)];
        current := [];
      } else {
        current := current + [objective[k]];
      }
    }
  }

  method ReadBlocks(blocks: seq<Block>) returns (rows: seq<Row>)
    ensures rows == BlockRows(blocks, 1)
  {
    hide BlockRow;
    rows := [];
    for k := 0 to |blocks|
      invariant rows + BlockRows(blocks[k..], k + 1) == BlockRows(blocks, 1)
    {
      assert blocks[k..][0] == blocks[k] && blocks[k..][1..] == blocks[k + 1..];
      var row := BlockRow(blocks[k], k + 1);
      var one := if row.Some? then [row.value] else [];
      Regroup(rows, one, BlockRows(blocks[k + 1..], k + 2));
      rows := rows + one;
    }
  }

  // ----------------------------------------------------------------- the theorems

  /** End to end: for every paper, the text handed on re-parses to exactly the stems,
      options and keys of the rows handed on, numbered in order. */
  lemma TextCarriesRows(objective: seq<string>, theory: seq<string>)
    ensures AllPrintable(ObjectiveRows(objective))
    ensures AnswerTerminatedRows(ExtractedText(objective, theory))
         == NumberRows(ObjectiveRows(objective), 1) + TheoryRows(CollapsedLines(TheoryText(theory)), [])
  {
    hide ObjectiveRows, NumberRows, AnswerTerminatedRows, TheoryRows, CollapsedLines, PaperText;
    ObjectiveRowsPrintable(objective);
    RoundTrip(ObjectiveRows(objective), TheoryText(theory));
  }

  predicate Bears(entries: seq<(string, string)>, l: string) { exists k :: 0 <= k < |entries| && entries[k].0 == l }

  /** The last four labelled lines bear the four letters. */
  predicate FourLetters(lines: seq<string>) {
    var entries := Labelled(lines);
    |entries| >= 4 && forall l :: l in LABELS ==> Bears(entries[|entries| - 4..], l)
  }

  /** What becomes of the block, on its lines: with four lettered lines it is skipped when the
      first line is an option already or one of the four options is empty, and otherwise when
      it has fewer than five lines. */
  predicate Skipped(block: Block) {
    var lines := BlockLines(block.paragraphs);
    var entries := Labelled(lines);
    if FourLetters(lines) then FirstOption(lines) == 0 || exists k :: |entries| - 4 <= k < |entries| && entries[k].1 == ""
    else |lines| < 5
  }

  predicate AllStripped(lines: seq<string>) { forall k :: 0 <= k < |lines| ==> lines[k] != "" && Strip(lines[k]) == lines[k] }

  lemma {:induction false} KeptStripped(lines: seq<string>)
    ensures AllStripped(KeptLines(lines))
  {
    hide Strip, IsHeader;
    if lines != [] {
      KeptStripped(lines[1..]);
      StripIdempotent(lines[0]);
    }
  }

  lemma {:induction false} LinesStripped(paragraphs: seq<string>)
    ensures AllStripped(BlockLines(paragraphs))
  {
    hide Strip, KeptLines, SplitLines;
    if paragraphs != [] {
      LinesStripped(paragraphs[1..]);
      KeptStripped(SplitLines(paragraphs[0]));
    }
  }

  /** Labels are letters and option texts are stripped. */
  predicate Entry(e: (string, string)) { IsKey(e.0) && Strip(e.1) == e.1 }

  lemma OptionIsEntry(line: string)
    requires OptionOf(line).Some?
    ensures Entry(OptionOf(line).value)
  {
    hide Strip, IsSpace;
    if |line| > 3 { StripIdempotent(line[3..]); }
    if |line| > 2 { StripIdempotent(line[2..]); }
  }

  lemma {:induction false} LabelledEntries(lines: seq<string>)
    ensures forall e :: e in Labelled(lines) ==> Entry(e)
    ensures Labelled(lines) != [] ==> lines != []
  {
    hide OptionOf, Entry;
    if lines != [] {
      LabelledEntries(lines[1..]);
      if OptionOf(lines[0]).Some? { OptionIsEntry(lines[0]); }
    }
  }

  lemma KeyIsLetter(key: string)
    requires IsKey(key)
    ensures key in LABELS
  {
    assert key == "A" || key == "B" || key == "C" || key == "D";
  }

  /** Four entries make a table of four options exactly when their labels are the four letters,
      and then each entry is one of the options. */
  lemma TableOfFour(entries: seq<(string, string)>)
    requires |entries| == 4 && forall k :: 0 <= k < 4 ==> entries[k].0 in LABELS
    ensures OptionTable(entries).Keys == {"A", "B", "C", "D"} <==> forall l :: l in LABELS ==> Bears(entries, l)
    ensures OptionTable(entries).Keys == {"A", "B", "C", "D"} ==>
              forall k :: 0 <= k < 4 ==> OptionTable(entries)[entries[k].0] == entries[k].1
  {
    hide OptionTable, Bears;
    var a, b, c, d := entries[0].0, entries[1].0, entries[2].0, entries[3].0;
    assert OptionTable(entries).Keys == {a, b, c, d} by { TableOf(entries); }
    Covering(a, b, c, d);
    forall l | l in LABELS ensures Bears(entries, l) <==> l == a || l == b || l == c || l == d { BearsOfFour(entries, l); }
    if OptionTable(entries).Keys == {"A", "B", "C", "D"} { TableEntries(entries); }
  }

  lemma TableEntries(entries: seq<(string, string)>)
    requires |entries| == 4 && OptionTable(entries).Keys == {"A", "B", "C", "D"}
    ensures forall k :: 0 <= k < 4 ==> OptionTable(entries)[entries[k].0] == entries[k].1
  {
    hide OptionTable;
    TableOf(entries);
    FourDistinct(entries[0].0, entries[1].0, entries[2].0, entries[3].0);
  }

  lemma BearsOfFour(entries: seq<(string, string)>, l: string)
    requires |entries| == 4
    ensures Bears(entries, l) <==> l == entries[0].0 || l == entries[1].0 || l == entries[2].0 || l == entries[3].0
  {
  }

  lemma TableOf(entries: seq<(string, string)>)
    requires |entries| == 4
    ensures OptionTable(entries).Keys == {entries[0].0, entries[1].0, entries[2].0, entries[3].0}
    ensures (forall j, k :: 0 <= j < k < 4 ==> entries[j].0 != entries[k].0) ==>
              forall k :: 0 <= k < 4 ==> OptionTable(entries)[entries[k].0] == entries[k].1
  {
  }

  lemma Covering(a: string, b: string, c: string, d: string)
    requires a in LABELS && b in LABELS && c in LABELS && d in LABELS
    ensures {a, b, c, d} == {"A", "B", "C", "D"} <==> forall l :: l in LABELS ==> l == a || l == b || l == c || l == d
  {
    var letters, s := {"A", "B", "C", "D"}, {a, b, c, d};
    assert forall l :: l in LABELS <==> l in letters;
    assert forall l :: l in s <==> l == a || l == b || l == c || l == d;
  }

  lemma FourDistinct(a: string, b: string, c: string, d: string)
    requires {a, b, c, d} == {"A", "B", "C", "D"}
    ensures a != b && a != c && a != d && b != c && b != d && c != d
  {
    var s := {a, b, c, d};
    assert "A" in s && "B" in s && "C" in s && "D" in s;
    assert a in s && b in s && c in s && d in s;
    assert "A"[0] == 'A' && "B"[0] == 'B' && "C"[0] == 'C' && "D"[0] == 'D';
  }

  lemma JoinHasInk(lines: seq<string>)
    requires lines != [] && HasInk(lines[0])
    ensures HasInk(Join(lines, " "))
  {
    var k :| 0 <= k < |lines[0]| && !IsSpace(lines[0][k]);
    assert Join(lines, " ")[k] == lines[0][k];
  }

  /** The stem is empty exactly when no line stands in front of the options. */
  lemma StemOfLines(lines: seq<string>)
    requires AllStripped(lines)
    ensures Collapse(Join(lines, " ")) == "" <==> lines == []
  {
    hide Strip, Squeeze, IsSpace, IsCollapsed;
    if lines != [] {
      StripInk(lines[0]);
      JoinHasInk(lines);
      StripInk(Join(lines, " "));
      InkCollapses(Join(lines, " "));
      CollapsedIsText(Collapse(Join(lines, " ")));
    } else {
      NothingCollapsed();
    }
  }

  lemma CollapsedIsText(s: string)
    requires IsCollapsed(s)
    ensures s != ""
  {
  }

  lemma NothingCollapsed()
    ensures Collapse("") == ""
  {
  }

  /** The block has no row exactly when it is skipped, whatever its number. */
  lemma SkipIgnoresNumber(block: Block, n: nat)
    ensures BlockRow(block, n).None? <==> Skipped(block)
    ensures BlockRow(block, n).Some? ==> BlockRow(block, n).value.Objective? && BlockRow(block, n).value.number == Some(n)
  {
    hide BlockLines, Labelled, FirstOption, OptionTable, Collapse, Strip, FourLetters, AllStripped, CollapseAll, Join;
    var lines := BlockLines(block.paragraphs);
    LinesStripped(block.paragraphs);
    LettersSplit(lines);
    if FourLetters(lines) {
      FrontStripped(lines, FirstOption(lines));
      StemOfLines(lines[..FirstOption(lines)]);
    } else if |lines| >= 5 {
      FrontStripped(lines, |lines| - 4);
      StemOfLines(lines[..|lines| - 4]);
      LastStripped(lines);
    }
  }

  lemma FrontStripped(lines: seq<string>, k: nat)
    requires AllStripped(lines) && k <= |lines|
    ensures AllStripped(lines[..k])
  {
    hide Strip;
  }

  lemma LastStripped(lines: seq<string>)
    requires AllStripped(lines) && |lines| >= 5
    ensures var o := lines[|lines| - 4..]; forall k :: 0 <= k < 4 ==> Strip(o[k]) != ""
  {
    hide Strip;
  }

  /** Where the options of a block come from. */
  lemma LettersSplit(lines: seq<string>)
    ensures var entries := Labelled(lines);
      FourLetters(lines) <==> |entries| >= 4 && OptionTable(entries[|entries| - 4..]).Keys == {"A", "B", "C", "D"}
    ensures FourLetters(lines) ==>
              var entries := Labelled(lines);
              var options := OptionTable(entries[|entries| - 4..]);
              (exists l :: l in options && Strip(options[l]) == "") <==> exists k :: |entries| - 4 <= k < |entries| && entries[k].1 == ""
  {
    hide Labelled, OptionTable, Strip, Bears;
    LabelledEntries(lines);
    var entries := Labelled(lines);
    if |entries| >= 4 {
      var four := entries[|entries| - 4..];
      forall k | 0 <= k < 4 ensures four[k].0 in LABELS && Strip(four[k].1) == four[k].1 {
        assert four[k] == entries[|entries| - 4 + k] && Entry(entries[|entries| - 4 + k]);
        KeyIsLetter(four[k].0);
      }
      TableOfFour(four);
      assert forall k :: |entries| - 4 <= k < |entries| ==> entries[k] == four[k - (|entries| - 4)];
      assert forall k :: 0 <= k < 4 ==> four[k] == entries[|entries| - 4 + k];
      if FourLetters(lines) { EmptyOfFour(four); }
    }
  }

  lemma EmptyOfFour(four: seq<(string, string)>)
    requires |four| == 4 && forall k :: 0 <= k < 4 ==> four[k].0 in LABELS && Strip(four[k].1) == four[k].1
    requires OptionTable(four).Keys == {"A", "B", "C", "D"}
    ensures (exists l :: l in OptionTable(four) && Strip(OptionTable(four)[l]) == "") <==> exists k :: 0 <= k < 4 && four[k].1 == ""
  {
    hide OptionTable, Strip;
    TableOfFour(four);
    var t := OptionTable(four);
    if l :| l in t && Strip(t[l]) == "" {
      assert l in t.Keys && l in LABELS;
    }
    if k :| 0 <= k < 4 && four[k].1 == "" {
      assert four[k].0 in t.Keys;
    }
  }

  /** No block is kept behind a skipped one. */
  predicate SkipsLast(blocks: seq<Block>) {
    forall j, k :: 0 <= j < k < |blocks| && Skipped(blocks[j]) ==> Skipped(blocks[k])
  }

  lemma {:induction false} NumbersMatch(blocks: seq<Block>, n: nat, m: nat)
    requires m <= n && AllPrintable(BlockRows(blocks, n))
    ensures NumberRows(BlockRows(blocks, n), m) == BlockRows(blocks, n)
       <==> (m == n && SkipsLast(blocks)) || forall k :: 0 <= k < |blocks| ==> Skipped(blocks[k])
    decreases |blocks|
  {
    hide BlockRow, Skipped, Printable;
    if blocks != [] {
      var b, rest := blocks[0], blocks[1..];
      SkipIgnoresNumber(b, n);
      assert forall k :: 1 <= k < |blocks| ==> blocks[k] == rest[k - 1];
      var rows := BlockRows(blocks, n);
      if Skipped(b) {
        assert rows == BlockRows(rest, n + 1);
        NumbersMatch(rest, n + 1, m);
        assert SkipsLast(blocks) ==> forall k :: 0 <= k < |rest| ==> Skipped(rest[k]) by {
          forall k | SkipsLast(blocks) && 0 <= k < |rest| ensures Skipped(rest[k]) {
            assert Skipped(blocks[k + 1]);
          }
        }
        assert (forall k :: 0 <= k < |rest| ==> Skipped(rest[k])) ==> SkipsLast(blocks) && forall k :: 0 <= k < |blocks| ==> Skipped(blocks[k]);
      } else {
        var tail := BlockRows(rest, n + 1);
        assert rows[1..] == tail && rows[0].number == Some(n);
        assert AllPrintable(tail) by { assert forall k :: 0 <= k < |tail| ==> tail[k] == rows[k + 1]; }
        NumbersMatch(rest, n + 1, m + 1);
        NumberHead(rows, m);
        assert SkipsLast(blocks) <==> SkipsLast(rest) by {
          forall j, k | SkipsLast(rest) && 0 <= j < k < |blocks| && Skipped(blocks[j]) ensures Skipped(blocks[k]) {
            assert rest[j - 1] == blocks[j] && rest[k - 1] == blocks[k];
          }
          forall j, k | SkipsLast(blocks) && 0 <= j < k < |rest| && Skipped(rest[j]) ensures Skipped(rest[k]) {
            assert rest[j] == blocks[j + 1] && rest[k] == blocks[k + 1];
          }
        }
      }
    }
  }

  lemma NumberHead(rows: seq<Row>, m: nat)
    requires rows != [] && AllPrintable(rows)
    ensures AllPrintable(rows[1..])
    ensures NumberRows(rows, m) == rows
       <==> rows[0].Objective? && rows[0].number == Some(m) && NumberRows(rows[1..], m + 1) == rows[1..]
  {
  }

  /** The source numbers agree too if and only if no block is kept behind a skipped one:
      the parser numbers the blocks it finds, the printer the rows it prints. */
  lemma NumbersAgree(objective: seq<string>)
    ensures AllPrintable(ObjectiveRows(objective))
    ensures NumberRows(ObjectiveRows(objective), 1) == ObjectiveRows(objective)
       <==> SkipsLast(Blocks(objective, []))
  {
    hide BlockRows, Skipped;
    ObjectiveRowsPrintable(objective);
    NumbersMatch(Blocks(objective, []), 1, 1);
  }

  /** Lines of one visible character each. */
  predicate OneLetters(lines: seq<string>) {
    forall k :: 0 <= k < |lines| ==> |lines[k]| == 1 && !IsSpace(lines[k][0]) && !IsBreak(lines[k][0])
  }

  lemma ShortLine(l: string)
    requires |l| == 1
    ensures AnswerKey(l).None? && OptionOf(l).None? && !IsHeader(l)
  {
    hide Strip, IsSpace, IsLabel, SkipSpaces;
  }

  lemma OneLetter(l: string)
    requires |l| == 1 && !IsSpace(l[0]) && !IsBreak(l[0])
    ensures AnswerKey(l).None? && OptionOf(l).None? && !IsHeader(l)
    ensures Collapse(l) == l && Strip(l) == l && SplitLines(l) == [l]
  {
    hide Strip, Collapse, IsSpace, AnswerKey, OptionOf, IsHeader;
    ShortLine(l);
    StripAround("", l, "");
    assert "" + l + "" == l;
    CollapseLine(l, "");
    assert l + "" == l;
  }

  lemma {:induction false} LettersStay(lines: seq<string>)
    requires OneLetters(lines)
    ensures BlockLines(lines) == lines && Labelled(lines) == []
    ensures forall k :: 0 <= k < |lines| ==> AnswerKey(lines[k]).None?
    decreases |lines|
  {
    hide SplitLines, OptionOf, AnswerKey, Strip, IsHeader, IsSpace, IsBreak;
    if lines != [] {
      var l := lines[0];
      OneLetter(l);
      LettersStay(lines[1..]);
      assert [l][1..] == [] && KeptLines([l]) == [l];
      assert lines == [l] + lines[1..];
    }
  }

  lemma FiveLettersAreKept(lines: seq<string>, key: string)
    requires OneLetters(lines) && |lines| == 5
    ensures !Skipped(Block(lines, key))
  {
    hide BlockLines, Labelled;
    LettersStay(lines);
  }

  lemma KeyParagraph(c: char)
    requires c == 'A' || c == 'B'
    ensures AnswerKey("Answer:" + [c]) == Some([c])
    ensures "Answer:" + ['A'] == "Answer:A" && "Answer:" + ['B'] == "Answer:B"
  {
    var p := "Answer:" + [c];
    assert p == ['A', 'n', 's', 'w', 'e', 'r', ':', c];
    hide SkipSpaces;
    SkipSpacesUnique(p, 0, 0);
    SkipSpacesUnique(p, 6, 6);
    SkipSpacesUnique(p, 7, 7);
  }

  /** A paper that starts with a lone answer line, and a question of five one-letter lines behind
      it: the question is number 2 in the rows and number 1 in the text. */
  lemma LoneAnswerShiftsNumbers(lines: seq<string>)
    requires OneLetters(lines) && |lines| == 5
    ensures var objective := ["Answer:A"] + (lines + ["Answer:B"]);
      AllPrintable(ObjectiveRows(objective)) && NumberRows(ObjectiveRows(objective), 1) != ObjectiveRows(objective)
  {
    hide AnswerKey, BlockRow, ObjectiveRows, NumberRows, OneLetters, Skipped, Blocks;
    var objective := ["Answer:A"] + (lines + ["Answer:B"]);
    KeyParagraph('A');
    KeyParagraph('B');
    LettersStay(lines);
    BlocksOf(lines, [], "Answer:B", "B");
    assert [] + lines == lines;
    FirstBlock("Answer:A", "A", lines + ["Answer:B"]);
    var blocks := Blocks(objective, []);
    NothingIsSkipped("A");
    FiveLettersAreKept(lines, "B");
    assert Skipped(blocks[0]) && !Skipped(blocks[1]);
    NumbersAgree(objective);
  }

  lemma {:induction false} BlocksOf(lines: seq<string>, current: seq<string>, last: string, key: string)
    requires (forall k :: 0 <= k < |lines| ==> AnswerKey(lines[k]).None?) && AnswerKey(last) == Some(key)
    ensures Blocks(lines + [last], current) == [Block(current + lines, key)]
    decreases |lines|
  {
    hide AnswerKey;
    if lines == [] {
      assert lines + [last] == [last] && current + lines == current;
    } else {
      assert (lines + [last])[1..] == lines[1..] + [last];
      BlocksOf(lines[1..], current + [lines[0]], last, key);
      assert current + [lines[0]] + lines[1..] == current + lines;
    }
  }

  lemma FirstBlock(first: string, key: string, rest: seq<string>)
    requires AnswerKey(first) == Some(key)
    ensures Blocks([first] + rest, []) == [Block([], key)] + Blocks(rest, [])
  {
    hide AnswerKey;
    assert ([first] + rest)[1..] == rest;
  }

  lemma NothingIsSkipped(key: string)
    ensures Skipped(Block([], key))
  {
  }
}
