/**
  The row normaliser, three layers deep: the base importer fills missing keys from the
  text, the CA importer lets the answer lines of the text overrule them, and the exam
  importer merges the theory rows into one.
 */
module NormalizeRows {
  import opened Chars
  import opened Markers
  import opened Wrappers
  import opened QuestionParsers

  /** What the three answer expressions find in the source text, in order: labels for the
      base layer, label slots and answer values for the CA layer; and the order in which each
      valid objective row lists its options. */
  datatype Found = Found(labels: seq<string>, slots: seq<string>, values: seq<string>, orders: seq<seq<string>>)

  predicate WellFound(f: Found) {
    && (forall k :: 0 <= k < |f.labels| ==> Strip(f.labels[k]) != "")
    && (forall k :: 0 <= k < |f.slots| ==> Strip(f.slots[k]) != "")
    && (forall k :: 0 <= k < |f.orders| ==> forall l :: l in f.orders[k] ==> Strip(l) != "")
  }

  // ----------------------------------------------------------------- base layer

  predicate ValidObjective(row: Row) {
    row.Objective? && row.stem != "" && HasFourOptions(row.options)
  }

  function ValidObjectives(rows: seq<Row>): (r: seq<Row>)
    ensures forall k :: 0 <= k < |r| ==> ValidObjective(r[k])
  {
    if rows == [] then []
    else ValidObjectives(rows[..|rows| - 1]) + (if ValidObjective(rows[|rows| - 1]) then [rows[|rows| - 1]] else [])
  }

  function ValidTheory(rows: seq<Row>): (r: seq<Row>)
    ensures forall k :: 0 <= k < |r| ==> r[k].Theory? && r[k].stem != ""
  {
    if rows == [] then []
    else
      var last := rows[|rows| - 1];
      ValidTheory(rows[..|rows| - 1]) + (if last.Theory? && last.stem != "" then [last] else [])
  }

  function Filled(row: Row, k: nat, labels: seq<string>): Row {
    if row.Objective? && Strip(row.answer) == "" && k < |labels| then row.(answer := labels[k]) else row
  }

  function FilledAll(rows: seq<Row>, labels: seq<string>): (r: seq<Row>)
    requires forall k :: 0 <= k < |rows| ==> ValidObjective(rows[k])
    ensures |r| == |rows|
    ensures forall k :: 0 <= k < |r| ==> r[k] == Filled(rows[k], k, labels)
  {
    seq(|rows|, k requires 0 <= k < |rows| => Filled(rows[k], k, labels))
  }

  /** The base layer: valid objective rows first, then valid theory rows, each group in its
      own order; the k-th objective keeps its key or takes the k-th label of the text. */
  method NormalizeBase(rows: seq<Row>, labels: seq<string>) returns (objective: seq<Row>, theory: seq<Row>)
    ensures objective == FilledAll(ValidObjectives(rows), labels)
    ensures theory == ValidTheory(rows)
  {
    hide Strip, HasFourOptions;
    var answerIndex := 0;
    objective, theory := [], [];
    for i := 0 to |rows|
      invariant answerIndex == |objective|
      invariant objective == FilledAll(ValidObjectives(rows[..i]), labels)
      invariant theory == ValidTheory(rows[..i])
    {
      assert rows[..i + 1][..i] == rows[..i];
      var row := rows[i];
      if row.Objective? {
        if row.stem != "" && HasFourOptions(row.options) {
          if Strip(row.answer) == "" && answerIndex < |labels| {
            row := row.(answer := labels[answerIndex]);
          }
          answerIndex := answerIndex + 1;
          objective := objective + [row];
        }
      } else if row.stem != "" {
        theory := theory + [row];
      }
    }
    assert rows[..|rows|] == rows;
  }

  // ------------------------------------------------------------------- CA layer

  /** An option mark in front: a letter, a bracket, blanks, and then more text. */
  predicate Marked(stem: string) {
    |stem| >= 3 && stem[0] in "ABCD" && stem[1] == ')' && 2 < SkipSpaces(stem, 2) < |stem|
  }

  /** `re.sub(r"^[A-D]\)\s+(?=\S)", "", stem)` */
  function CleanStem(stem: string): (r: string)
    ensures stem != "" ==> r != ""
  {
    if Marked(stem) then stem[SkipSpaces(stem, 2)..] else stem
  }

  /** Two option marks in front, one behind the other. */
  predicate DoublyMarked(stem: string) { Marked(stem) && Marked(stem[SkipSpaces(stem, 2)..]) }

  /** Words of a text in lower case, other characters turned into single blanks. */
  function Words(s: string): string {
    if s == "" then ""
    else if IsWordChar(s[0]) then [Lower(s[0])] + Words(s[1..])
    else
      var rest := Words(s[1..]);
      if rest != "" && rest[0] == ' ' then rest else " " + rest
  }

  function StripOptionPrefix(value: string): string {
    if value != "" && IsLabel(value[0]) then
      var q := SkipSpaces(value, 1);
      if q < |value| && value[q] in ").:-" then value[SkipSpaces(value, q + 1)..] else value
    else value
  }

  predicate Names(value: string, option: string) {
    var a, o := Strip(Words(StripOptionPrefix(value))), Strip(Words(option));
    a != "" && o != "" && (a == o || Contains(o, a) || Contains(a, o))
  }

  /** The first label, in the order given, whose option the answer value names; none when no
      option is named. */
  function NamedLabel(options: map<string, string>, order: seq<string>, value: string): (key: string)
    ensures key == "" || key in order
  {
    if order == [] then ""
    else if order[0] in options && Names(value, options[order[0]]) then order[0]
    else NamedLabel(options, order[1..], value)
  }

  /** The order of the options of the k-th objective row. */
  function OrderOf(f: Found, k: nat): seq<string> { if k < |f.orders| then f.orders[k] else [] }

  function Keyed(row: Row, k: nat, n: nat, f: Found): (r: Row)
    requires ValidObjective(row) && k < n
    ensures r.Objective? && r.options == row.options && r.stem == row.stem
  {
    var a := if |f.slots| == n then f.slots[k] else row.answer;
    var named := if |f.values| == n && Strip(a) == "" then NamedLabel(row.options, OrderOf(f, k), f.values[k]) else "";
    row.(answer := if named != "" then named else a)
  }

  function Cleaned(row: Row): Row
    requires row.Objective?
  {
    row.(stem := CleanStem(row.stem))
  }

  function KeyedAll(rows: seq<Row>, f: Found): (r: seq<Row>)
    requires forall k :: 0 <= k < |rows| ==> ValidObjective(rows[k])
    ensures |r| == |rows|
    ensures forall k :: 0 <= k < |r| ==> r[k] == Cleaned(Keyed(rows[k], k, |rows|, f))
  {
    seq(|rows|, k requires 0 <= k < |rows| => Cleaned(Keyed(rows[k], k, |rows|, f)))
  }

  /** The CA layer on the objective rows: three passes over the list. */
  method NormalizeKeys(rows: seq<Row>, f: Found) returns (objective: seq<Row>)
    requires forall k :: 0 <= k < |rows| ==> ValidObjective(rows[k])
    ensures objective == KeyedAll(rows, f)
  {
    hide NamedLabel, Strip, CleanStem, HasFourOptions;
    objective := rows;
    var n := |rows|;
    if |f.slots| == n {
      for k := 0 to n
        invariant |objective| == n
        invariant forall j :: 0 <= j < n ==>
          objective[j] == if j < k then rows[j].(answer := f.slots[j]) else rows[j]
      {
        objective := objective[k := objective[k].(answer := f.slots[k])];
      }
    }
    ghost var slotted := objective;
    if |f.values| == n {
      for k := 0 to n
        invariant |objective| == n
        invariant forall j :: 0 <= j < n ==> objective[j] == if j < k then Keyed(rows[j], j, n, f) else slotted[j]
      {
        if Strip(objective[k].answer) == "" {
          var named := NamedLabel(objective[k].options, OrderOf(f, k), f.values[k]);
          if named != "" {
            objective := objective[k := objective[k].(answer := named)];
          }
        }
      }
    }
    for k := 0 to n
      invariant |objective| == n
      invariant forall j :: 0 <= j < n ==>
        objective[j] == if j < k then Cleaned(Keyed(rows[j], j, n, f)) else Keyed(rows[j], j, n, f)
    {
      objective := objective[k := Cleaned(objective[k])];
    }
  }

  // ----------------------------------------------------------------- exam layer

  function InkedStems(theory: seq<Row>): seq<string> {
    if theory == [] then []
    else
      var s := Strip(theory[0].stem);
      (if s == "" then [] else [s]) + InkedStems(theory[1..])
  }

  function Merged(theory: seq<Row>): seq<Row> {
    var text := Join(InkedStems(theory), "\n\n");
    if text == "" then [] else [Theory(text)]
  }

  function ExamRows(rows: seq<Row>, f: Found): seq<Row> {
    FilledKeepsValid(ValidObjectives(rows), f.labels);
    KeyedAll(FilledAll(ValidObjectives(rows), f.labels), f) + Merged(ValidTheory(rows))
  }

  lemma FilledKeepsValid(rows: seq<Row>, labels: seq<string>)
    requires forall k :: 0 <= k < |rows| ==> ValidObjective(rows[k])
    ensures forall k :: 0 <= k < |rows| ==> ValidObjective(FilledAll(rows, labels)[k])
  {
  }

  lemma InkedStep(theory: seq<Row>, k: nat, stems: seq<string>)
    requires k < |theory|
    ensures var s := Strip(theory[k].stem);
      stems + InkedStems(theory[k..]) == (if s == "" then stems else stems + [s]) + InkedStems(theory[k + 1..])
  {
    hide Strip;
    assert theory[k..][0] == theory[k] && theory[k..][1..] == theory[k + 1..];
    var s := Strip(theory[k].stem);
    Regroup(stems, if s == "" then [] else [s], InkedStems(theory[k + 1..]));
  }

  lemma NoInkedStems() ensures InkedStems([]) == [] { }

  method MergeTheory(theory: seq<Row>) returns (merged: seq<Row>)
    ensures merged == Merged(theory)
  {
    hide Strip, Join, InkedStems;
    var stems: seq<string> := [];
    assert theory[0..] == theory && stems + InkedStems(theory) == InkedStems(theory);
    for k := 0 to |theory|
      invariant stems + InkedStems(theory[k..]) == InkedStems(theory)
    {
      InkedStep(theory, k, stems);
      var s := Strip(theory[k].stem);
      if s != "" {
        stems := stems + [s];
      }
    }
    NoInkedStems();
    assert theory[|theory|..] == [] && stems + [] == stems;
    var text := Join(stems, "\n\n");
    merged := if text == "" then [] else [Theory(text)];
  }

  lemma MergedOnce(theory: seq<Row>) ensures |Merged(theory)| <= 1 { }

  /** The whole stack, as the exam importer runs it. */
  method NormalizeExamRows(rows: seq<Row>, f: Found) returns (result: seq<Row>, objectiveCount: nat, theoryCount: nat)
    ensures result == ExamRows(rows, f)
    ensures objectiveCount == |ValidObjectives(rows)| && theoryCount == |result| - objectiveCount <= 1
  {
    MergedOnce(ValidTheory(rows));
    hide ValidObjective, Keyed, Filled, Merged;
    var objective, theory := NormalizeBase(rows, f.labels);
    FilledKeepsValid(ValidObjectives(rows), f.labels);
    objective := NormalizeKeys(objective, f);
    theory := MergeTheory(theory);
    result, objectiveCount, theoryCount := objective + theory, |objective|, |theory|;
  }

  // -------------------------------------------------------------- running it twice

  lemma {:induction false} AllObjective(objective: seq<Row>)
    requires forall k :: 0 <= k < |objective| ==> ValidObjective(objective[k])
    ensures ValidObjectives(objective) == objective && ValidTheory(objective) == []
  {
    hide HasFourOptions;
    if objective != [] {
      var o := objective[..|objective| - 1];
      AllObjective(o);
      assert o + [objective[|objective| - 1]] == objective;
    }
  }

  lemma {:induction false} SplitsApart(objective: seq<Row>, theory: seq<Row>)
    requires forall k :: 0 <= k < |objective| ==> ValidObjective(objective[k])
    requires forall k :: 0 <= k < |theory| ==> theory[k].Theory? && theory[k].stem != ""
    ensures ValidObjectives(objective + theory) == objective
    ensures ValidTheory(objective + theory) == theory
    decreases |theory|
  {
    hide HasFourOptions, ValidObjectives, ValidTheory;
    if theory == [] {
      assert objective + theory == objective;
      AllObjective(objective);
    } else {
      var t, last := theory[..|theory| - 1], theory[|theory| - 1];
      assert objective + theory == (objective + t) + [last];
      SplitsApart(objective, t);
      TheoryLast(objective + t, last);
      assert t + [last] == theory;
    }
  }

  lemma TheoryLast(rows: seq<Row>, last: Row)
    requires last.Theory? && last.stem != ""
    ensures ValidObjectives(rows + [last]) == ValidObjectives(rows)
    ensures ValidTheory(rows + [last]) == ValidTheory(rows) + [last]
  {
    assert (rows + [last])[..|rows|] == rows;
  }

  /** The merged theory row is left alone by a second merge. */
  lemma MergeTwice(theory: seq<Row>)
    ensures Merged(Merged(theory)) == Merged(theory)
    ensures forall k :: 0 <= k < |Merged(theory)| ==> Merged(theory)[k].Theory? && Merged(theory)[k].stem != ""
  {
    hide Strip, Join;
    var m := Merged(theory);
    if m != [] {
      var text := m[0].stem;
      NoJoin();
      InkedAreTrimmed(theory);
      JoinTrimmed(InkedStems(theory));
      assert Strip(text) == text by {
        StripAround("", text, "");
        assert "" + text + "" == text;
      }
      assert m[1..] == [];
      assert InkedStems(m) == [text];
      OneJoin(text);
    } else {
      NoJoin();
    }
  }

  lemma OneJoin(s: string) ensures Join([s], "\n\n") == s { }

  lemma NoJoin() ensures Join([], "\n\n") == "" { }

  lemma {:induction false} InkedAreTrimmed(theory: seq<Row>)
    ensures forall k :: 0 <= k < |InkedStems(theory)| ==> Trimmed(InkedStems(theory)[k])
  {
    hide Strip, Trimmed;
    if theory != [] {
      InkedAreTrimmed(theory[1..]);
      StripIdempotent(theory[0].stem);
    }
  }

  lemma {:induction false} JoinTrimmed(stems: seq<string>)
    requires stems != [] ==> forall k :: 0 <= k < |stems| ==> Trimmed(stems[k])
    ensures stems != [] ==> Trimmed(Join(stems, "\n\n"))
  {
    if |stems| > 1 {
      JoinTrimmed(stems[1..]);
    }
  }

  /** A key that the two key layers settled stays as it is. */
  lemma KeySettled(row: Row, k: nat, n: nat, f: Found)
    requires ValidObjective(row) && k < n && WellFound(f)
    ensures var r := Cleaned(Keyed(Filled(row, k, f.labels), k, n, f));
      ValidObjective(r) && Cleaned(Keyed(Filled(r, k, f.labels), k, n, f)) == Cleaned(r)
  {
    hide NamedLabel, HasFourOptions, CleanStem;
    BlankIsBlank();
    var r := Cleaned(Keyed(Filled(row, k, f.labels), k, n, f));
    assert r.options == row.options;
    assert ValidObjective(r);
    var a := Filled(row, k, f.labels).answer;
    var b := if |f.slots| == n then f.slots[k] else a;
    if |f.values| == n && Strip(b) == "" && NamedLabel(row.options, OrderOf(f, k), f.values[k]) != "" {
      assert NamedLabel(row.options, OrderOf(f, k), f.values[k]) in OrderOf(f, k);
    }
  }

  lemma BlankIsBlank() ensures Strip("") == "" { }

  function CleanedAll(rows: seq<Row>): seq<Row>
    requires forall k :: 0 <= k < |rows| ==> rows[k].Objective?
  {
    seq(|rows|, k requires 0 <= k < |rows| => Cleaned(rows[k]))
  }

  /** Running the stack again on its own result, with the same source text, keeps the order,
      the options, the keys and the theory row; it only cleans each stem once more. */
  lemma StackTwice(rows: seq<Row>, f: Found)
    requires WellFound(f)
    ensures ExamRows(ExamRows(rows, f), f)
         == CleanedAll(ValidObjectives(ExamRows(rows, f))) + ValidTheory(ExamRows(rows, f))
    ensures ExamRows(rows, f) == ValidObjectives(ExamRows(rows, f)) + ValidTheory(ExamRows(rows, f))
  {
    hide Merged, Keyed, Cleaned, HasFourOptions, Strip;
    var o := ValidObjectives(rows);
    var n := |o|;
    FilledKeepsValid(o, f.labels);
    var once := KeyedAll(FilledAll(o, f.labels), f);
    var theory := Merged(ValidTheory(rows));
    forall k | 0 <= k < n
      ensures ValidObjective(once[k])
      ensures Cleaned(Keyed(Filled(once[k], k, f.labels), k, n, f)) == Cleaned(once[k])
    {
      KeySettled(o[k], k, n, f);
    }
    MergeTwice(ValidTheory(rows));
    SplitsApart(once, theory);
    FilledKeepsValid(once, f.labels);
    assert KeyedAll(FilledAll(once, f.labels), f) == CleanedAll(once);
  }

  lemma CleanedOnce(stem: string)
    ensures CleanStem(CleanStem(stem)) == CleanStem(stem) <==> !DoublyMarked(stem)
  {
    hide SkipSpaces;
    var s := CleanStem(stem);
    if Marked(s) {
      assert |CleanStem(s)| < |s|;
    }
  }

  lemma {:induction false} ValidMembers(rows: seq<Row>)
    ensures forall r :: r in ValidObjectives(rows) <==> r in rows && ValidObjective(r)
  {
    hide HasFourOptions;
    if rows != [] {
      assert rows == rows[..|rows| - 1] + [rows[|rows| - 1]];
      ValidMembers(rows[..|rows| - 1]);
    }
  }

  /** The objective rows of the result are the valid ones of the input, with their stems cleaned
      once. */
  lemma ResultStems(rows: seq<Row>, f: Found)
    requires WellFound(f)
    ensures |ValidObjectives(ExamRows(rows, f))| == |ValidObjectives(rows)|
    ensures forall k :: 0 <= k < |ValidObjectives(rows)| ==>
              ValidObjectives(ExamRows(rows, f))[k].stem == CleanStem(ValidObjectives(rows)[k].stem)
  {
    hide Merged, HasFourOptions, Strip, CleanStem, NamedLabel;
    var o := ValidObjectives(rows);
    FilledKeepsValid(o, f.labels);
    var once := KeyedAll(FilledAll(o, f.labels), f);
    MergeTwice(ValidTheory(rows));
    SplitsApart(once, Merged(ValidTheory(rows)));
  }

  /** The stack is idempotent on a paper if and only if no valid objective row of the paper has
      a stem with two option marks in front. */
  lemma StackIdempotent(rows: seq<Row>, f: Found)
    requires WellFound(f)
    ensures ExamRows(ExamRows(rows, f), f) == ExamRows(rows, f)
       <==> forall r :: r in rows && ValidObjective(r) ==> !DoublyMarked(r.stem)
  {
    hide ExamRows, CleanStem, HasFourOptions, DoublyMarked;
    StackTwice(rows, f);
    var before, once := ValidObjectives(rows), ExamRows(rows, f);
    var o := ValidObjectives(once);
    var c := CleanedAll(o);
    SameFront(c, o, ValidTheory(once));
    ResultStems(rows, f);
    ValidMembers(rows);
    forall k | 0 <= k < |o| ensures c[k] == o[k] <==> !DoublyMarked(before[k].stem) {
      CleanedOnce(before[k].stem);
    }
    SameRows(c, o);
    assert c == o <==> forall k :: 0 <= k < |o| ==> !DoublyMarked(before[k].stem);
  }

  lemma SameRows(a: seq<Row>, b: seq<Row>)
    requires |a| == |b|
    ensures a == b <==> forall k :: 0 <= k < |a| ==> a[k] == b[k]
  {
  }

  /** One such row: its second mark goes in a second pass. */
  lemma DoubleMarkIsCleanedTwice(row: Row, f: Found)
    requires WellFound(f) && ValidObjective(row) && row.stem == "A) B) x"
    ensures ExamRows(ExamRows([row], f), f) != ExamRows([row], f)
  {
    SkipSpacesUnique("A) B) x", 2, 3);
    assert "A) B) x"[3..] == "B) x";
    SkipSpacesUnique("B) x", 2, 3);
    assert DoublyMarked(row.stem);
    hide DoublyMarked, ExamRows, ValidObjective;
    assert row in [row];
    StackIdempotent([row], f);
  }

  lemma SameFront(a: seq<Row>, b: seq<Row>, tail: seq<Row>)
    requires |a| == |b|
    ensures a + tail == b + tail <==> a == b
  {
    if a + tail == b + tail {
      assert a == (a + tail)[..|a|] == (b + tail)[..|b|] == b;
    }
  }
}
