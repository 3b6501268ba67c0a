/**
  The line markers of the question-document parsers.  Each one is a Python
  regular expression under `(?m)` (most of them also `(?i)`), written here as a
  matcher that says, for a position of the text, where the backtracking match
  that starts there ends and what its group holds.  Like the expressions, the
  matchers run across line breaks: `\s*` skips them.
 */
module Markers {
  import opened Chars
  import opened Wrappers

  datatype Match = Match(start: nat, end: nat, group: string)

  /** A compiled expression: what it matches when the match has to start at a position. */
  type Pattern = (string, nat) -> Option<Match>

  predicate LineStart(t: string, i: nat)
    requires i <= |t|
  {
    i == 0 || t[i - 1] == '\n'
  }

  predicate LineEnd(t: string, i: nat)
    requires i <= |t|
  {
    i == |t| || t[i] == '\n'
  }

  predicate WordBoundary(t: string, i: nat)
    requires i <= |t|
  {
    (i > 0 && IsWordChar(t[i - 1])) != (i < |t| && IsWordChar(t[i]))
  }

  predicate IsLabel(c: char) { Upper(c) in "ABCD" }

  // ----------------------------------------------------------- pieces

  /** Ends of the matches of the literal word `w`, letter case ignored: none or one. */
  function Literal(w: string, t: string, i: nat): (ends: seq<nat>)
    requires i <= |t|
    ensures forall e :: e in ends ==> e == i + |w| <= |t|
  {
    if i + |w| <= |t| && forall k :: 0 <= k < |w| ==> Lower(t[i + k]) == w[k] then [i + |w|] else []
  }

  function Reponse(accents: string, t: string, i: nat): (ends: seq<nat>)
    requires i <= |t|
    ensures forall e :: e in ends ==> e == i + 7 <= |t|
  {
    if i + 7 <= |t| && Lower(t[i]) == 'r' && t[i + 1] in accents && Literal("ponse", t, i + 2) != []
    then [i + 7] else []
  }

  function Correct(t: string, i: nat): (ends: seq<nat>)
    requires i <= |t|
    ensures forall e :: e in ends ==> i < e <= |t|
  {
    if Literal("correct", t, i) == [] then []
    else
      var e := SkipSpaces(t, i + 7);
      Literal("answer", t, e) + Literal("option", t, e)
  }

  function EnglishWords(t: string, i: nat): (ends: seq<nat>)
    requires i <= |t|
    ensures forall e :: e in ends ==> i < e <= |t|
  {
    Literal("answer", t, i) + Literal("anwer", t, i) + Literal("anwers", t, i) + Literal("ans", t, i)
  }

  function ForeignWords(anyAnswer: bool, t: string, i: nat): (ends: seq<nat>)
    requires i <= |t|
    ensures forall e :: e in ends ==> i < e <= |t|
  {
    if anyAnswer
    then Reponse("\U{00C3}\U{00E3}\U{00A9}eE\U{00E9}\U{00C9}", t, i) + Literal("reponse", t, i)
    else Reponse("\U{00C3}\U{00E3}\U{00A9}eE", t, i)
  }

  /** Where the answer word can end, in the order the alternatives are tried. */
  function AnswerWords(anyAnswer: bool, t: string, i: nat): (ends: seq<nat>)
    requires i <= |t|
    ensures forall e :: e in ends ==> i < e <= |t|
  {
    EnglishWords(t, i) + ForeignWords(anyAnswer, t, i) + Correct(t, i)
  }

  predicate IsSeparator(c: char) { IsSpace(c) || c in ".:;=-" }

  /** End of the greedy `\s*[\s\.:;=\-]*\s*`. */
  function SkipSeparators(t: string, i: nat): (r: nat)
    requires i <= |t|
    ensures i <= r <= |t|
    decreases |t| - i
  {
    if i < |t| && IsSeparator(t[i]) then SkipSeparators(t, i + 1) else i
  }

  /** The last line end between `lo` and `hi`: where a greedy `\s*$` stops. */
  function LastLineEnd(t: string, lo: nat, hi: nat): (r: Option<nat>)
    requires lo <= hi <= |t|
    ensures r.Some? ==> lo <= r.value <= hi && LineEnd(t, r.value)
    decreases hi - lo
  {
    if LineEnd(t, hi) then Some(hi)
    else if lo < hi then LastLineEnd(t, lo, hi - 1)
    else None
  }

  /** `\s*[\).]?\s*$` from `p`. */
  function LineTail(t: string, p: nat): (r: Option<nat>)
    requires p <= |t|
    ensures r.Some? ==> p <= r.value <= |t|
  {
    var q := SkipSpaces(t, p);
    var closed := if q < |t| && t[q] in ")." then LastLineEnd(t, q + 1, SkipSpaces(t, q + 1)) else None;
    if closed.Some? then closed else LastLineEnd(t, p, q)
  }

  function EndOfLine(t: string, i: nat): (r: nat)
    requires i <= |t|
    ensures i <= r <= |t| && LineEnd(t, r)
    decreases |t| - i
  {
    if LineEnd(t, i) then i else EndOfLine(t, i + 1)
  }

  // ------------------------------------------------ what follows the answer word

  /** `([A-D])\s*[\).]?\s*$` after the separators. */
  function LabelAlone(t: string, start: nat, e: nat): (r: Option<Match>)
    requires start < e <= |t|
    ensures r.Some? ==> start == r.value.start < r.value.end <= |t|
  {
    var s := SkipSeparators(t, e);
    if s < |t| && IsLabel(t[s]) && LineTail(t, s + 1).Some?
    then Some(Match(start, LineTail(t, s + 1).value, [Upper(t[s])]))
    else None
  }

  /** `([A-D])?\s*(?:\b|$)` after the separators; the group is empty when no label is
      taken.  Blanks that the expression takes after the label are left out of the match:
      the parsers use its start and its group only. */
  function LabelOptional(t: string, start: nat, e: nat): (r: Option<Match>)
    requires start < e <= |t|
    ensures r.Some? ==> start == r.value.start < r.value.end <= |t|
  {
    var s := SkipSeparators(t, e);
    if s < |t| && IsLabel(t[s]) && (s + 1 == |t| || !IsWordChar(t[s + 1]))
    then Some(Match(start, s + 1, [Upper(t[s])]))
    else if e == |t| || !IsWordChar(t[e]) then Some(Match(start, e, ""))
    else None
  }

  function TryWords(anyAnswer: bool, t: string, start: nat, ends: seq<nat>): (r: Option<Match>)
    requires forall e :: e in ends ==> start < e <= |t|
    ensures r.Some? ==> start == r.value.start < r.value.end <= |t|
  {
    if ends == [] then None
    else
      assert ends[0] in ends && forall e :: e in ends[1..] ==> e in ends;
      var first := if anyAnswer then LabelOptional(t, start, ends[0]) else LabelAlone(t, start, ends[0]);
      if first.Some? then first else TryWords(anyAnswer, t, start, ends[1..])
  }

  function MatchAnswer(anyAnswer: bool, t: string, i: nat): (r: Option<Match>)
    requires i <= |t|
    ensures r.Some? ==> i == r.value.start < r.value.end <= |t|
  {
    if LineStart(t, i) then TryWords(anyAnswer, t, i, AnswerWords(anyAnswer, t, SkipSpaces(t, i))) else None
  }

  // --------------------------------------------------------- the expressions

  /** ANY_ANSWER_RE: an answer word with an optional label. */
  function AnyAnswer(t: string, i: nat): (r: Option<Match>) {
    if i <= |t| then MatchAnswer(true, t, i) else None
  }

  /** An answer word and a label, alone on their line. */
  function AnswerLine(t: string, i: nat): (r: Option<Match>) {
    if i <= |t| then MatchAnswer(false, t, i) else None
  }

  /** `^\s*(\d+)\s*\.\s*(?=\S)` */
  function NumberedLine(t: string, i: nat): (r: Option<Match>) {
    if i <= |t| && LineStart(t, i) then
      var p := SkipSpaces(t, i);
      var d := SkipDigits(t, p);
      var q := SkipSpaces(t, d);
      if p < d && q < |t| && t[q] == '.' && SkipSpaces(t, q + 1) < |t|
      then Some(Match(i, SkipSpaces(t, q + 1), t[p..d]))
      else None
    else None
  }

  /** `^\s*(\d+)\s*[\).]?\s+(?=[A-Z])` */
  function QuestionStart(t: string, i: nat): (r: Option<Match>) {
    if i <= |t| && LineStart(t, i) then
      var p := SkipSpaces(t, i);
      var d := SkipDigits(t, p);
      var q := SkipSpaces(t, d);
      var bracket := q < |t| && t[q] in ").";
      var f := if bracket then SkipSpaces(t, q + 1) else q;
      if p < d && (if bracket then q + 1 else d) < f < |t| && IsUpper(t[f])
      then Some(Match(i, f, t[p..d]))
      else None
    else None
  }

  /** OPTION_LINE_RE: `^\s*([A-D])\s*[\).:\-]\s*` */
  function OptionMark(t: string, i: nat): (r: Option<Match>) {
    if i <= |t| && LineStart(t, i) then
      var p := SkipSpaces(t, i);
      if p < |t| && IsLabel(t[p]) then
        var q := SkipSpaces(t, p + 1);
        if q < |t| && t[q] in ").:-" then Some(Match(i, SkipSpaces(t, q + 1), [Upper(t[p])])) else None
      else None
    else None
  }

  /** THEORY_MARKER_RE: a heading `SECTION B`, `THEORY`, `THEORY QUESTIONS` or its Igbo
      counterpart, up to the end of its line. */
  function TheoryMark(t: string, i: nat): (r: Option<Match>) {
    if i <= |t| && LineStart(t, i) then
      var e := TheoryWords(t, SkipSpaces(t, i));
      if e.Some? then Some(Match(i, EndOfLine(t, e.value), "")) else None
    else None
  }

  /** Where the words of a theory heading that starts at `p` end. */
  function TheoryWords(t: string, p: nat): (e: Option<nat>)
    requires p <= |t|
    ensures e.Some? ==> p < e.value <= |t|
  {
    if Literal("section", t, p) != [] then
      var f := SkipSpaces(t, p + 7);
      if p + 7 < f < |t| && Lower(t[f]) == 'b' && WordBoundary(t, f + 1) then Some(f + 1) else None
    else if Literal("theory", t, p) != [] then
      var f := SkipSpaces(t, p + 6);
      var g := f + 8;
      if p + 6 < f && Literal("question", t, f) != [] && g < |t| && Lower(t[g]) == 's' && WordBoundary(t, g + 1)
      then Some(g + 1)
      else if p + 6 < f && Literal("question", t, f) != [] && WordBoundary(t, g) then Some(g)
      else if WordBoundary(t, p + 6) then Some(p + 6)
      else None
    else if p + 5 <= |t| && Lower(t[p]) == 'a' && Lower(t[p + 1]) == 'j' && t[p + 2] in "uU\U{1EE4}\U{1EE5}"
         && Lower(t[p + 3]) == 'j' && t[p + 4] in "uU\U{1EE4}\U{1EE5}" then
      var f := SkipSpaces(t, p + 5);
      if p + 5 < f && Literal("ederede", t, f) != [] && WordBoundary(t, f + 7) then Some(f + 7) else None
    else None
  }

  // ---------------------------------------------------------------- searching

  /** `pattern.match(t, i)`: a match starts at `i`, ends in the text and is never empty,
      as is the case for each expression above. */
  function MatchAt(p: Pattern, t: string, i: nat): (r: Option<Match>)
    requires i <= |t|
    ensures r.Some? ==> i == r.value.start < r.value.end <= |t|
  {
    var r := p(t, i);
    if r.Some? && i == r.value.start < r.value.end <= |t| then r else None
  }

  /** `pattern.search(t, i)` */
  function Search(p: Pattern, t: string, i: nat): (r: Option<Match>)
    requires i <= |t|
    ensures r.Some? ==> i <= r.value.start < r.value.end <= |t|
    decreases |t| - i
  {
    if MatchAt(p, t, i).Some? then MatchAt(p, t, i)
    else if i < |t| then Search(p, t, i + 1)
    else None
  }

  predicate Ordered(ms: seq<Match>, lo: nat, hi: nat) {
    ms == [] || (lo <= ms[0].start < ms[0].end <= hi && Ordered(ms[1..], ms[0].end, hi))
  }

  lemma {:induction false} OrderedAt(ms: seq<Match>, lo: nat, hi: nat, k: nat)
    requires Ordered(ms, lo, hi) && k < |ms|
    ensures lo <= ms[k].start < ms[k].end <= hi
    ensures k > 0 ==> ms[k - 1].end <= ms[k].start
  {
    if k > 0 {
      assert ms[k] == ms[1..][k - 1];
      OrderedAt(ms[1..], ms[0].end, hi, k - 1);
    }
  }

  /** `list(pattern.finditer(t, i))`: the leftmost matches that do not overlap. */
  function FindAll(p: Pattern, t: string, i: nat): (ms: seq<Match>)
    requires i <= |t|
    decreases |t| - i
  {
    var first := Search(p, t, i);
    if first.None? then [] else [first.value] + FindAll(p, t, first.value.end)
  }

  lemma {:induction false} FindAllOrdered(p: Pattern, t: string, i: nat, lo: nat)
    requires lo <= i <= |t|
    ensures Ordered(FindAll(p, t, i), lo, |t|)
    decreases |t| - i
  {
    var first := Search(p, t, i);
    if first.Some? {
      var rest := FindAll(p, t, first.value.end);
      FindAllOrdered(p, t, first.value.end, first.value.end);
      assert ([first.value] + rest)[1..] == rest;
    }
  }

  lemma SearchHere(p: Pattern, t: string, i: nat)
    requires i <= |t| && MatchAt(p, t, i).Some?
    ensures Search(p, t, i) == MatchAt(p, t, i)
  {
  }

  /** A search finds the first position where the expression matches. */
  lemma {:induction false} SearchIsFirst(p: Pattern, t: string, i: nat)
    requires i <= |t|
    ensures var r := Search(p, t, i);
      && (r.Some? ==> MatchAt(p, t, r.value.start) == r)
      && forall k :: i <= k < (if r.Some? then r.value.start else |t| + 1) ==> MatchAt(p, t, k).None?
    decreases |t| - i
  {
    if MatchAt(p, t, i).None? && i < |t| {
      SearchIsFirst(p, t, i + 1);
    }
  }

  /** Positions where nothing matches can be skipped. */
  lemma {:induction false} SkipUnmatched(p: Pattern, t: string, i: nat, j: nat)
    requires i <= j <= |t|
    requires forall k :: i <= k < j ==> MatchAt(p, t, k).None?
    ensures Search(p, t, i) == Search(p, t, j)
    ensures FindAll(p, t, i) == FindAll(p, t, j)
    decreases j - i
  {
    if i < j {
      SkipUnmatched(p, t, i + 1, j);
    }
  }
}
