/**
  Twenty marks, in cents, split over the objective questions of an exam: evenly, the first
  questions taking the cents that are left over.
 */
module MarkSplit {
  const TOTAL: nat := 2000

  function Sum(s: seq<int>): int {
    if s == [] then 0 else Sum(s[..|s| - 1]) + s[|s| - 1]
  }

  /** The k-th of `count` shares. */
  function Share(count: nat, k: nat): nat
    requires count > 0
  {
    TOTAL / count + (if k < TOTAL % count then 1 else 0)
  }

  function ObjectiveMarks(count: nat): (marks: seq<int>)
    requires count > 0
    ensures |marks| == count
  {
    seq(count, k requires 0 <= k < count => Share(count, k))
  }

  function Bonus(count: nat, k: nat): nat
    requires count > 0
  {
    if k < TOTAL % count then k else TOTAL % count
  }

  lemma {:induction false} SumOfShares(count: nat, s: seq<int>)
    requires count > 0 && |s| <= count && forall k :: 0 <= k < |s| ==> s[k] == Share(count, k)
    ensures Sum(s) == |s| * (TOTAL / count) + Bonus(count, |s|)
  {
    if s != [] {
      SumOfShares(count, s[..|s| - 1]);
      ShareStep(count, |s| - 1);
    }
  }

  /** The shares add up to exactly twenty marks, never increase and differ by one cent at most. */
  lemma MarksAreExact(count: nat)
    requires count > 0
    ensures Sum(ObjectiveMarks(count)) == TOTAL
    ensures forall j, k :: 0 <= j <= k < count ==>
              ObjectiveMarks(count)[k] <= ObjectiveMarks(count)[j] <= ObjectiveMarks(count)[k] + 1
  {
    SumOfShares(count, ObjectiveMarks(count));
    Divided(count);
  }

  lemma Divided(count: nat)
    requires count > 0
    ensures count * (TOTAL / count) + TOTAL % count == TOTAL
  {
  }

  // ----------------------------------------------- marks for the keyed questions only

  /** How many of the links are keyed. */
  function KeyedCount(ids: seq<nat>, keyed: set<nat>): nat {
    if ids == [] then 0 else KeyedCount(ids[..|ids| - 1], keyed) + (if ids[|ids| - 1] in keyed then 1 else 0)
  }

  /** The shares scattered over the keyed positions, zero elsewhere. */
  function Scattered(ids: seq<nat>, keyed: set<nat>, count: nat): seq<int>
    requires count > 0
  {
    if ids == [] then []
    else
      var front := ids[..|ids| - 1];
      Scattered(front, keyed, count)
      + [if ids[|ids| - 1] in keyed then Share(count, KeyedCount(front, keyed)) else 0]
  }

  /** `_zero_unkeyed_question_marks`: rewrites the marks of the links in order. */
  method ZeroUnkeyed(ids: seq<nat>, keyed: set<nat>, marks: array<int>)
    requires marks.Length == |ids|
    modifies marks
    ensures KeyedCount(ids, keyed) == 0 ==> marks[..] == old(marks[..])
    ensures KeyedCount(ids, keyed) > 0 ==> marks[..] == Scattered(ids, keyed, KeyedCount(ids, keyed))
  {
    var keyedCount := 0;
    for i := 0 to |ids|
      invariant keyedCount == KeyedCount(ids[..i], keyed)
    {
      assert ids[..i + 1][..i] == ids[..i];
      if ids[i] in keyed { keyedCount := keyedCount + 1; }
    }
    assert ids[..|ids|] == ids;
    if keyedCount == 0 {
      return;
    }
    var base, extra := TOTAL / keyedCount, TOTAL % keyedCount;
    var seen := 0;
    for i := 0 to |ids|
      invariant seen == KeyedCount(ids[..i], keyed)
      invariant marks[..i] == Scattered(ids[..i], keyed, keyedCount)
    {
      assert ids[..i + 1][..i] == ids[..i];
      if ids[i] !in keyed {
        marks[i] := 0;
      } else {
        seen := seen + 1;
        marks[i] := base + (if seen <= extra then 1 else 0);
      }
      assert marks[..i + 1] == marks[..i] + [marks[i]];
    }
    assert marks[..|ids|] == marks[..];
  }

  lemma {:induction false} ScatteredSum(ids: seq<nat>, keyed: set<nat>, count: nat)
    requires count > 0 && KeyedCount(ids, keyed) <= count
    ensures Sum(Scattered(ids, keyed, count))
         == KeyedCount(ids, keyed) * (TOTAL / count) + Bonus(count, KeyedCount(ids, keyed))
  {
    if ids != [] {
      hide Share, Bonus;
      var front := ids[..|ids| - 1];
      ScatteredSum(front, keyed, count);
      var s := Scattered(ids, keyed, count);
      assert s[..|s| - 1] == Scattered(front, keyed, count);
      ShareStep(count, KeyedCount(front, keyed));
    }
  }

  lemma ShareStep(count: nat, c: nat)
    requires count > 0
    ensures (c + 1) * (TOTAL / count) + Bonus(count, c + 1) == c * (TOTAL / count) + Bonus(count, c) + Share(count, c)
  {
  }

  /** Whatever subset is keyed, if it is not empty its marks add up to twenty. */
  lemma KeyedMarksAreExact(ids: seq<nat>, keyed: set<nat>)
    requires KeyedCount(ids, keyed) > 0
    ensures Sum(Scattered(ids, keyed, KeyedCount(ids, keyed))) == TOTAL
  {
    hide KeyedCount, Scattered, Sum;
    var c := KeyedCount(ids, keyed);
    ScatteredSum(ids, keyed, c);
    Divided(c);
  }

  /** When every question is keyed, the two scripts agree. */
  lemma {:induction false} AllKeyed(ids: seq<nat>, keyed: set<nat>, count: nat)
    requires count > 0 && forall k :: 0 <= k < |ids| ==> ids[k] in keyed
    ensures KeyedCount(ids, keyed) == |ids|
    ensures |ids| == count ==> Scattered(ids, keyed, count) == ObjectiveMarks(count)
    ensures |Scattered(ids, keyed, count)| == |ids|
    ensures forall k :: 0 <= k < |ids| ==> Scattered(ids, keyed, count)[k] == Share(count, k)
  {
    if ids != [] {
      AllKeyed(ids[..|ids| - 1], keyed, count);
    }
  }
}
