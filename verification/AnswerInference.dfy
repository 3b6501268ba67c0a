/**
  Finding the correct option of a practice question from its explanation, and turning the
  options round.  The text comparison of one option with the explanation is an input; scoring,
  ranking and the margin the winner needs are modelled.
 */
module AnswerInference {
  import opened Wrappers

  /** What comparing an option with the explanation finds: its signature in the first part, its
      signature anywhere, its signature as whole words in the first part, and how many of its
      words occur in the first part and anywhere. */
  datatype Evidence = Evidence(inFirst: bool, inSolution: bool, asWords: bool, firstWords: nat, solutionWords: nat)

  function Score(e: Evidence): nat {
    (if e.inFirst then 18 else if e.inSolution then 9 else 0)
    + (if e.asWords then 8 else 0) + e.firstWords * 3 + e.solutionWords
  }

  function Scores(options: seq<string>, look: string -> Evidence): (scores: seq<nat>)
    ensures |scores| == |options| && forall k :: 0 <= k < |options| ==> scores[k] == Score(look(options[k]))
  {
    seq(|options|, k requires 0 <= k < |options| => Score(look(options[k])))
  }

  /** The i-th score is at least five and at least two ahead of every other. */
  predicate Wins(scores: seq<nat>, i: nat) {
    i < |scores| && scores[i] >= 5 && forall j :: 0 <= j < |scores| && j != i ==> scores[j] + 2 <= scores[i]
  }

  /** `r` is the winner, or there is none. */
  predicate IsWinner(scores: seq<nat>, r: Option<nat>) {
    if r.Some? then Wins(scores, r.value) else forall i :: 0 <= i < |scores| ==> !Wins(scores, i)
  }

  lemma WinnerIsUnique(scores: seq<nat>, r: Option<nat>, s: Option<nat>)
    requires IsWinner(scores, r) && IsWinner(scores, s)
    ensures r == s
  {
  }

  ghost function Inferred(options: seq<string>, look: string -> Evidence): (r: Option<nat>)
    ensures IsWinner(Scores(options, look), r)
  {
    if i: nat :| Wins(Scores(options, look), i) then Some(i) else None
  }

  // ------------------------------------------------------------------ the ranking

  /** Pairs of score and index compare as tuples do. */
  predicate AtLeast(a: (nat, nat), b: (nat, nat)) { a.0 > b.0 || (a.0 == b.0 && a.1 >= b.1) }

  /** Every pair is at least those behind it, and no two have the same index. */
  predicate Ranked(s: seq<(nat, nat)>) {
    s == [] || ((forall q :: q in s[1..] ==> AtLeast(s[0], q) && s[0].1 != q.1) && Ranked(s[1..]))
  }

  /** `scored.sort(reverse=True)` */
  method SortDescending(scored: seq<(nat, nat)>) returns (sorted: seq<(nat, nat)>)
    requires forall j, k :: 0 <= j < k < |scored| ==> scored[j].1 != scored[k].1
    ensures Ranked(sorted) && |sorted| == |scored|
    ensures forall q :: q in sorted <==> q in scored
  {
    sorted := [];
    for i := 0 to |scored|
      invariant Ranked(sorted) && |sorted| == i
      invariant forall q :: q in sorted <==> q in scored[..i]
    {
      sorted := InsertPair(scored[i], sorted);
      assert scored[..i + 1] == scored[..i] + [scored[i]];
    }
    assert scored[..|scored|] == scored;
  }

  method InsertPair(x: (nat, nat), s: seq<(nat, nat)>) returns (r: seq<(nat, nat)>)
    requires Ranked(s) && forall q :: q in s ==> q.1 != x.1
    ensures Ranked(r) && |r| == |s| + 1
    ensures forall q :: q in r <==> q in s || q == x
    decreases |s|
  {
    if s == [] || AtLeast(x, s[0]) {
      r := [x] + s;
      assert r[1..] == s;
      assert s != [] ==> forall q :: q in s ==> q == s[0] || q in s[1..];
    } else {
      assert forall q :: q in s <==> q == s[0] || q in s[1..];
      var rest := InsertPair(x, s[1..]);
      r := [s[0]] + rest;
      assert r[1..] == rest;
    }
  }

  /** `infer_correct_index`: the winner if there is one, in whatever order the options come. */
  method InferCorrectIndex(options: seq<string>, look: string -> Evidence) returns (r: Option<nat>)
    ensures IsWinner(Scores(options, look), r)
  {
    ghost var scores := Scores(options, look);
    var scored: seq<(nat, nat)> := [];
    for index := 0 to |options|
      invariant |scored| == index && forall k :: 0 <= k < index ==> scored[k] == (scores[k], k)
    {
      var e := look(options[index]);
      var score := 0;
      if e.inFirst {
        score := score + 18;
      } else if e.inSolution {
        score := score + 9;
      }
      if e.asWords {
        score := score + 8;
      }
      score := score + e.firstWords * 3;
      score := score + e.solutionWords;
      scored := scored + [(score, index)];
    }
    ghost var unsorted := scored;
    scored := SortDescending(scored);
    RankedScores(scores, unsorted, scored);
    if |scored| == 0 || scored[0].0 < 5 {
      return None;
    }
    if |scored| > 1 && scored[0].0 <= scored[1].0 + 1 {
      return None;
    }
    return Some(scored[0].1);
  }

  /** What the first two places of the ranking say about all scores. */
  lemma RankedScores(scores: seq<nat>, scored: seq<(nat, nat)>, sorted: seq<(nat, nat)>)
    requires |scored| == |scores| && forall k :: 0 <= k < |scores| ==> scored[k] == (scores[k], k)
    requires Ranked(sorted) && |sorted| == |scored|
    requires forall q :: q in sorted <==> q in scored
    ensures |sorted| > 0 ==> sorted[0].1 < |scores| && scores[sorted[0].1] == sorted[0].0
    ensures |sorted| > 0 ==> forall i :: 0 <= i < |scores| ==> scores[i] <= sorted[0].0
    ensures |sorted| > 1 ==> sorted[1].1 < |scores| && scores[sorted[1].1] == sorted[1].0 && sorted[1].1 != sorted[0].1
    ensures forall i :: 0 <= i < |scores| && i != sorted[0].1 ==> |sorted| > 1 && scores[i] <= sorted[1].0
  {
    assert |sorted| > 0 ==> sorted[0] in scored;
    assert |sorted| > 1 ==> sorted[1] in scored && sorted[1] == sorted[1..][0];
    forall i | 0 <= i < |scores|
      ensures scores[i] <= sorted[0].0 && (i != sorted[0].1 ==> |sorted| > 1 && scores[i] <= sorted[1].0)
    {
      assert scored[i] in sorted;
      var k :| 0 <= k < |sorted| && sorted[k] == scored[i];
      assert k > 0 ==> sorted[k] == sorted[1..][k - 1];
      assert k > 1 ==> sorted[k] == sorted[1..][1..][k - 2];
    }
  }

  // ------------------------------------------------------- the order does not matter

  predicate IsPermutation(p: seq<nat>, n: nat) {
    && |p| == n
    && (forall k :: 0 <= k < n ==> p[k] < n)
    && forall j, k :: 0 <= j < k < n ==> p[j] != p[k]
  }

  function Permuted<T>(s: seq<T>, p: seq<nat>): (r: seq<T>)
    requires IsPermutation(p, |s|)
    ensures |r| == |s| && forall k :: 0 <= k < |s| ==> r[k] == s[p[k]]
  {
    seq(|s|, k requires 0 <= k < |s| => s[p[k]])
  }

  /** The set of the first n numbers. */
  function Below(n: nat): (s: set<nat>)
    ensures |s| == n && forall i: nat :: i in s <==> i < n
  {
    if n == 0 then {} else Below(n - 1) + {n - 1}
  }

  function Entries(p: seq<nat>): (s: set<nat>)
    ensures forall i :: i in s <==> i in p
  {
    set k | 0 <= k < |p| :: p[k]
  }

  lemma {:induction false} EntriesCount(p: seq<nat>)
    requires forall j, k :: 0 <= j < k < |p| ==> p[j] != p[k]
    ensures |Entries(p)| == |p|
  {
    if p != [] {
      var front, last := p[..|p| - 1], p[|p| - 1];
      EntriesCount(front);
      assert Entries(p) == Entries(front) + {last};
    } else {
      assert Entries(p) == {};
    }
  }

  lemma SubsetOfSameSize(a: set<nat>, b: set<nat>)
    requires a <= b && |a| == |b|
    ensures a == b
  {
    assert |b| == |a| + |b - a| by { assert b == a + (b - a); }
  }

  lemma PermutationCovers(p: seq<nat>, n: nat, i: nat)
    requires IsPermutation(p, n) && i < n
    ensures exists k :: 0 <= k < n && p[k] == i
  {
    EntriesCount(p);
    SubsetOfSameSize(Entries(p), Below(n));
    assert i in p;
  }

  /** The options in another order have the same winner, or none as before. */
  lemma OrderDoesNotMatter(options: seq<string>, p: seq<nat>, look: string -> Evidence)
    requires IsPermutation(p, |options|)
    ensures var r, s := Inferred(options, look), Inferred(Permuted(options, p), look);
      && (r.Some? <==> s.Some?)
      && (r.Some? ==> s.value < |p| && r.value < |options| && p[s.value] == r.value)
      && (r.Some? ==> Permuted(options, p)[s.value] == options[r.value])
  {
    var scores, turned := Scores(options, look), Scores(Permuted(options, p), look);
    forall k: nat | k < |p| ensures Wins(turned, k) <==> Wins(scores, p[k]) {
      if Wins(turned, k) {
        forall j | 0 <= j < |scores| && j != p[k] ensures scores[j] + 2 <= scores[p[k]] {
          PermutationCovers(p, |p|, j);
          var m :| 0 <= m < |p| && p[m] == j;
          assert turned[m] == scores[j];
        }
      }
    }
    var r := Inferred(options, look);
    if r.Some? {
      PermutationCovers(p, |p|, r.value);
      var m: nat :| m < |p| && p[m] == r.value;
      assert Wins(turned, m);
      WinnerIsUnique(turned, Some(m), Inferred(Permuted(options, p), look));
    }
  }

  // --------------------------------------------------------------- turning the options

  function Turn(n: nat, shift: nat): (p: seq<nat>)
    requires shift < n
    ensures IsPermutation(p, n)
  {
    seq(n, k requires 0 <= k < n => if k + shift < n then k + shift else k + shift - n)
  }

  function Rotated(options: seq<string>, shift: nat): seq<string>
    requires shift < |options|
  {
    options[shift..] + options[..shift]
  }

  /** Where an option goes. */
  lemma RotatedParts(options: seq<string>, shift: nat, i: nat)
    requires shift < |options| && i < |options|
    ensures multiset(Rotated(options, shift)) == multiset(options) && |Rotated(options, shift)| == |options|
    ensures Rotated(options, shift)[if i >= shift then i - shift else i + |options| - shift] == options[i]
  {
    assert options == options[..shift] + options[shift..];
  }

  /** `rotate_options`; `seed` is the number taken from the hash of the stem. */
  method RotateOptions(options: seq<string>, seed: nat, correctIndex: nat) returns (rotated: seq<string>, place: nat)
    requires correctIndex < |options|
    ensures rotated == Rotated(options, seed % |options|) && multiset(rotated) == multiset(options)
    ensures place < |rotated| && rotated[place] == options[correctIndex]
    ensures forall k :: 0 <= k < place ==> rotated[k] != options[correctIndex]
  {
    var shift := seed % |options|;
    RotatedParts(options, shift, correctIndex);
    rotated := options[shift..] + options[..shift];
    var correct := options[correctIndex];
    ghost var k := if correctIndex >= shift then correctIndex - shift else correctIndex + |options| - shift;
    place := 0;
    while rotated[place] != correct
      invariant place <= k && forall j :: 0 <= j < place ==> rotated[j] != correct
      decreases k - place
    {
      place := place + 1;
    }
  }

  /** The turned options have the same correct text as before, and the label names it: with
      distinct options it is the only place where that text stands. */
  lemma RotationKeepsTheAnswer(options: seq<string>, shift: nat, look: string -> Evidence, place: nat)
    requires shift < |options| && Inferred(options, look).Some?
    requires forall j, k :: 0 <= j < k < |options| ==> options[j] != options[k]
    requires Inferred(options, look).value < |options|
    requires place < |options| && Rotated(options, shift)[place] == options[Inferred(options, look).value]
    ensures Inferred(Rotated(options, shift), look) == Some(place)
    ensures forall k :: 0 <= k < |options| && k != place ==> Rotated(options, shift)[k] != Rotated(options, shift)[place]
  {
    var p := Turn(|options|, shift);
    assert Rotated(options, shift) == Permuted(options, p);
    OrderDoesNotMatter(options, p, look);
    forall k | 0 <= k < |options| && k != place
      ensures Rotated(options, shift)[k] != Rotated(options, shift)[place]
    {
      assert p[k] != p[place];
      assert Permuted(options, p)[k] == options[p[k]] && Permuted(options, p)[place] == options[p[place]];
    }
  }
}
