/**
  The four kinds of line that the canonical printer writes, and what each marker
  expression does on them.  The prefix of a line ("7. ", "A. ", "Answer: ") guards
  it against every other marker, whatever the text after the prefix is.
 */
module PrintedLines {
  import opened Chars
  import opened Markers
  import opened Wrappers

  predicate OneLine(s: string) { forall k :: 0 <= k < |s| ==> s[k] != '\n' }

  /** `s` stands at `i` between line breaks or ends of `t`. */
  predicate TextAt(t: string, i: nat, s: string) {
    i + |s| <= |t| && LineStart(t, i) && t[i..i + |s|] == s && LineEnd(t, i + |s|)
  }

  /** The characters of `t` from `i` on are this line, up to a line break or the end. */
  predicate LineAt(t: string, i: nat, line: string) {
    TextAt(t, i, line) && OneLine(line)
  }

  lemma CharsOf(t: string, i: nat, line: string)
    requires TextAt(t, i, line)
    ensures forall k {:trigger line[k]} :: 0 <= k < |line| ==> t[i + k] == line[k]
  {
    assert forall k {:trigger line[k]} :: 0 <= k < |line| ==> t[i..i + |line|][k] == line[k];
  }

  predicate Anchored(p: Pattern, t: string) {
    forall k :: 0 <= k <= |t| && !LineStart(t, k) ==> p(t, k).None?
  }

  lemma AllAnchored(t: string)
    ensures Anchored(AnyAnswer, t) && Anchored(AnswerLine, t) && Anchored(NumberedLine, t)
    ensures Anchored(QuestionStart, t) && Anchored(OptionMark, t) && Anchored(TheoryMark, t)
  {
  }

  /** A search passes over a line that does not match at its first character. */
  lemma PassLine(p: Pattern, t: string, i: nat, line: string)
    requires LineAt(t, i, line) && Anchored(p, t)
    requires MatchAt(p, t, i).None?
    ensures i + |line| == |t| ==> Search(p, t, i).None? && FindAll(p, t, i) == []
    ensures i + |line| < |t| ==> Search(p, t, i) == Search(p, t, i + |line| + 1)
    ensures i + |line| < |t| ==> FindAll(p, t, i) == FindAll(p, t, i + |line| + 1)
  {
    var j := i + |line|;
    CharsOf(t, i, line);
    forall k | i <= k <= j
      ensures MatchAt(p, t, k).None?
    {
      if k > i {
        assert t[k - 1] == line[k - 1 - i];
        assert !LineStart(t, k);
      }
    }
    if j < |t| {
      SkipUnmatched(p, t, i, j + 1);
    } else {
      SkipUnmatched(p, t, i, j);
    }
  }

  /** A match inside a line is found, and the search goes on at the next line. */
  lemma TakeLine(p: Pattern, t: string, i: nat, line: string, m: Match)
    requires LineAt(t, i, line) && Anchored(p, t)
    requires MatchAt(p, t, i) == Some(m) && m.end <= i + |line|
    ensures i + |line| == |t| ==> FindAll(p, t, i) == [m]
    ensures i + |line| < |t| ==> FindAll(p, t, i) == [m] + FindAll(p, t, i + |line| + 1)
  {
    var j := i + |line|;
    CharsOf(t, i, line);
    forall k | m.end <= k <= j
      ensures MatchAt(p, t, k).None?
    {
      assert t[k - 1] == line[k - 1 - i];
      assert !LineStart(t, k);
    }
    if j < |t| {
      SkipUnmatched(p, t, m.end, j + 1);
    } else {
      SkipUnmatched(p, t, m.end, j);
    }
  }

  // ----------------------------------------------------------------- the lines

  function StemLine(n: nat, stem: string): string { Numeral(n) + ". " + stem }

  function OptionLine(key: string, text: string): string { key + ". " + text }

  function KeyLine(key: string): string { "Answer: " + key }

  const HEADING: string := "SECTION B: THEORY"

  predicate IsKey(key: string) { |key| == 1 && key[0] in "ABCD" }

  /** Where the digits of a stem line end, and what stands there. */
  lemma StemPrefix(t: string, i: nat, n: nat, stem: string)
    requires LineAt(t, i, StemLine(n, stem)) && Trimmed(stem)
    ensures SkipSpaces(t, i) == i
    ensures i + |Numeral(n)| + 2 < |t| && IsDigit(t[i]) && t[i..i + |Numeral(n)|] == Numeral(n)
    ensures SkipDigits(t, i) == i + |Numeral(n)| && SkipSpaces(t, i + |Numeral(n)|) == i + |Numeral(n)|
    ensures t[i + |Numeral(n)|] == '.' && SkipSpaces(t, i + |Numeral(n)| + 1) == i + |Numeral(n)| + 2
    ensures t[i + |Numeral(n)| + 2] == stem[0]
  {
    var num := Numeral(n);
    var line := StemLine(n, stem);
    var d := i + |num|;
    CharsOf(t, i, line);
    assert line[0] == num[0] && t[i + 0] == line[0];
    assert forall k :: 0 <= k < |num| ==> t[i + k] == line[k] == num[k];
    forall k | i <= k < d ensures t[k] == num[k - i] && IsDigit(t[k]) {
      assert t[i + (k - i)] == line[k - i];
    }
    assert t[i + |num|] == line[|num|] == '.';
    assert t[i + (|num| + 1)] == line[|num| + 1] == ' ';
    assert t[i + (|num| + 2)] == line[|num| + 2] == stem[0];
    SkipDigitsUnique(t, i, d);
    SkipSpacesUnique(t, i, i);
    SkipSpacesUnique(t, d, d);
    SkipSpacesUnique(t, d + 1, d + 2);
  }

  lemma LiteralMiss(w: string, t: string, i: nat, k: nat)
    requires k < |w| && i + k < |t| && Lower(t[i + k]) != w[k]
    ensures Literal(w, t, i) == []
  {
  }

  /** No answer word and no theory heading starts with such a character. */
  predicate Guards(c: char) { Lower(c) !in "arcst" }

  lemma NoWordAt(t: string, i: nat)
    requires i < |t| && Guards(t[i])
    ensures AnswerWords(true, t, i) == [] && AnswerWords(false, t, i) == []
    ensures TheoryWords(t, i).None?
  {
    assert t[i + 0] == t[i];
    LiteralMiss("answer", t, i, 0);
    LiteralMiss("anwer", t, i, 0);
    LiteralMiss("anwers", t, i, 0);
    LiteralMiss("ans", t, i, 0);
    LiteralMiss("reponse", t, i, 0);
    LiteralMiss("correct", t, i, 0);
    LiteralMiss("section", t, i, 0);
    LiteralMiss("theory", t, i, 0);
  }

  /** Nor with a letter before a full stop. */
  lemma NoWordBeforeDot(t: string, i: nat)
    requires i + 1 < |t| && t[i + 1] == '.'
    ensures AnswerWords(true, t, i) == [] && AnswerWords(false, t, i) == []
    ensures TheoryWords(t, i).None?
  {
    LiteralMiss("answer", t, i, 1);
    LiteralMiss("anwer", t, i, 1);
    LiteralMiss("anwers", t, i, 1);
    LiteralMiss("ans", t, i, 1);
    LiteralMiss("reponse", t, i, 1);
    LiteralMiss("correct", t, i, 1);
    LiteralMiss("section", t, i, 1);
    LiteralMiss("theory", t, i, 1);
  }

  lemma NoWordNoMatch(t: string, i: nat)
    requires i <= |t| && SkipSpaces(t, i) == i
    requires AnswerWords(true, t, i) == [] && AnswerWords(false, t, i) == []
    requires TheoryWords(t, i).None?
    ensures MatchAt(AnyAnswer, t, i).None? && MatchAt(AnswerLine, t, i).None?
    ensures MatchAt(TheoryMark, t, i).None?
  {
  }

  lemma MarkOnStemLine(t: string, i: nat, n: nat, stem: string)
    requires LineAt(t, i, StemLine(n, stem)) && Trimmed(stem)
    ensures MatchAt(OptionMark, t, i).None?
  {
    StemPrefix(t, i, n, stem);
  }

  lemma NumberedOnStemLine(t: string, i: nat, n: nat, stem: string)
    requires LineAt(t, i, StemLine(n, stem)) && Trimmed(stem)
    ensures MatchAt(NumberedLine, t, i) == Some(Match(i, i + |Numeral(n)| + 2, Numeral(n)))
  {
    StemPrefix(t, i, n, stem);
  }

  lemma QuestionOnStemLine(t: string, i: nat, n: nat, stem: string)
    requires LineAt(t, i, StemLine(n, stem)) && Trimmed(stem)
    ensures MatchAt(QuestionStart, t, i)
         == if IsUpper(stem[0]) then Some(Match(i, i + |Numeral(n)| + 2, Numeral(n))) else None
  {
    StemPrefix(t, i, n, stem);
  }

  lemma OptionPrefix(t: string, i: nat, key: string, text: string)
    requires LineAt(t, i, OptionLine(key, text)) && IsKey(key) && Trimmed(text)
    ensures i + 3 < |t| && [t[i]] == key && t[i + 1] == '.' && t[i + 3] == text[0]
    ensures SkipSpaces(t, i) == i && SkipSpaces(t, i + 1) == i + 1 && SkipSpaces(t, i + 2) == i + 3
  {
    var line := OptionLine(key, text);
    CharsOf(t, i, line);
    assert t[i + 0] == line[0] == key[0];
    assert t[i + 1] == line[1] == '.';
    assert t[i + 2] == line[2] == ' ';
    assert t[i + 3] == line[3] == text[0];
    SkipSpacesUnique(t, i, i);
    SkipSpacesUnique(t, i + 1, i + 1);
    SkipSpacesUnique(t, i + 2, i + 3);
  }

  lemma MarkOnOptionLine(t: string, i: nat, key: string, text: string)
    requires LineAt(t, i, OptionLine(key, text)) && IsKey(key) && Trimmed(text)
    ensures MatchAt(OptionMark, t, i) == Some(Match(i, i + 3, key))
  {
    OptionPrefix(t, i, key, text);
    assert Upper(t[i]) == t[i];
  }

  lemma KeyPrefix(t: string, i: nat, key: string)
    requires LineAt(t, i, KeyLine(key)) && IsKey(key)
    ensures i + 9 <= |t| && t[i] == 'A' && t[i + 1] == 'n' && [t[i + 8]] == key
    ensures SkipSpaces(t, i) == i && SkipSeparators(t, i + 6) == i + 8
    ensures Literal("answer", t, i) == [i + 6]
  {
    var line := KeyLine(key);
    CharsOf(t, i, line);
    assert t[i + 0] == line[0] == 'A' && t[i + 1] == line[1] == 'n' && t[i + 2] == line[2] == 's';
    assert t[i + 3] == line[3] == 'w' && t[i + 4] == line[4] == 'e' && t[i + 5] == line[5] == 'r';
    assert t[i + 6] == line[6] == ':' && t[i + 7] == line[7] == ' ' && t[i + 8] == line[8] == key[0];
    SkipSpacesUnique(t, i, i);
    assert SkipSeparators(t, i + 8) == i + 8;
    assert SkipSeparators(t, i + 7) == i + 8;
  }

  lemma AnyAnswerOnKeyLine(t: string, i: nat, key: string)
    requires LineAt(t, i, KeyLine(key)) && IsKey(key)
    ensures MatchAt(AnyAnswer, t, i) == Some(Match(i, i + 9, key))
  {
    KeyPrefix(t, i, key);
    assert AnswerWords(true, t, i)[0] == i + 6;
    assert Upper(t[i + 8]) == t[i + 8];
  }

  /** The label must stand alone on its line.  The match runs to the end of the line, over
      a last line break too. */
  lemma AnswerLineOnKeyLine(t: string, i: nat, key: string)
    requires LineAt(t, i, KeyLine(key)) && IsKey(key)
    requires i + 10 < |t| ==> !IsSpace(t[i + 10]) && t[i + 10] !in ")."
    ensures MatchAt(AnswerLine, t, i)
         == Some(Match(i, if i + 10 == |t| then |t| else i + 9, key))
  {
    hide LineTail, Literal, SkipSpaces, SkipSeparators, IsSpace, OneLine, AnswerWords;
    KeyPrefix(t, i, key);
    KeyTail(t, i, key);
    KeyWord(t, i);
    assert Upper(t[i + 8]) == t[i + 8];
  }

  lemma KeyWord(t: string, i: nat)
    requires i <= |t| && Literal("answer", t, i) == [i + 6]
    ensures AnswerWords(false, t, i) != [] && AnswerWords(false, t, i)[0] == i + 6
  {
    hide Literal, ForeignWords, Correct;
  }

  lemma KeyTail(t: string, i: nat, key: string)
    requires LineAt(t, i, KeyLine(key)) && IsKey(key)
    requires i + 10 < |t| ==> !IsSpace(t[i + 10]) && t[i + 10] !in ")."
    ensures i + 9 <= |t| && LineTail(t, i + 9) == Some(if i + 10 == |t| then |t| else i + 9)
  {
    hide SkipSpaces;
    var p := i + 9;
    assert p < |t| ==> t[p] == '\n' && IsSpace(t[p]);
    SkipSpacesUnique(t, p, if p == |t| then p else p + 1);
    assert LastLineEnd(t, p, p) == Some(p);
  }

  lemma OthersOnKeyLine(t: string, i: nat, key: string)
    requires LineAt(t, i, KeyLine(key)) && IsKey(key)
    ensures MatchAt(NumberedLine, t, i).None? && MatchAt(QuestionStart, t, i).None?
    ensures MatchAt(OptionMark, t, i).None? && MatchAt(TheoryMark, t, i).None?
  {
    KeyPrefix(t, i, key);
    SkipDigitsUnique(t, i, i);
    SkipSpacesUnique(t, i + 1, i + 1);
    LiteralMiss("section", t, i, 0);
    LiteralMiss("theory", t, i, 0);
  }

  lemma TheoryOnHeading(t: string, i: nat)
    requires LineAt(t, i, HEADING)
    ensures MatchAt(TheoryMark, t, i) == Some(Match(i, i + 17, ""))
  {
    hide SkipSpaces, EndOfLine, IsSpace, IsWordChar;
    HeadingChars(t, i);
    HeadingWord(t, i);
    EndOfLineUnique(t, i + 9, i + 17);
  }

  lemma HeadingWord(t: string, i: nat)
    requires i + 17 <= |t| && t[i..i + 17] == HEADING
    ensures i < |t| && SkipSpaces(t, i) == i && SkipSpaces(t, i + 7) == i + 8 && Literal("section", t, i) == [i + 7]
    ensures Lower(t[i + 8]) == 'b' && WordBoundary(t, i + 9)
  {
    var line := HEADING;
    assert forall k {:trigger line[k]} :: 0 <= k < 17 ==> t[i..i + 17][k] == line[k];
    assert t[i + 0] == line[0] == 'S' && t[i + 1] == line[1] == 'E' && t[i + 2] == line[2] == 'C';
    assert t[i + 3] == line[3] == 'T' && t[i + 4] == line[4] == 'I' && t[i + 5] == line[5] == 'O';
    assert t[i + 6] == line[6] == 'N' && t[i + 7] == line[7] == ' ' && t[i + 8] == line[8] == 'B';
    assert t[i + 9] == line[9] == ':';
    SkipSpacesUnique(t, i, i);
    SkipSpacesUnique(t, i + 7, i + 8);
  }

  lemma HeadingChars(t: string, i: nat)
    requires LineAt(t, i, HEADING)
    ensures i + 17 <= |t| && t[i..i + 17] == HEADING && LineStart(t, i) && LineEnd(t, i + 17)
    ensures forall k :: i + 9 <= k < i + 17 ==> t[k] != '\n'
  {
    CharsOf(t, i, HEADING);
    forall k | i + 9 <= k < i + 17 ensures t[k] != '\n' {
      assert t[i + (k - i)] == HEADING[k - i];
    }
  }

  lemma {:induction false} EndOfLineUnique(t: string, i: nat, r: nat)
    requires i <= r <= |t| && LineEnd(t, r)
    requires forall k :: i <= k < r ==> t[k] != '\n'
    ensures EndOfLine(t, i) == r
    decreases r - i
  {
    if i < r { EndOfLineUnique(t, i + 1, r); }
  }

  /** Nothing matches behind the last character. */
  lemma NothingAtEnd(t: string)
    ensures MatchAt(AnswerLine, t, |t|).None? && MatchAt(QuestionStart, t, |t|).None?
    ensures MatchAt(TheoryMark, t, |t|).None?
  {
  }

  // -------------------------------------------------------- lines after each other

  predicate OneLiners(lines: seq<string>) { forall k :: 0 <= k < |lines| ==> OneLine(lines[k]) }

  lemma OneLinersSplit(a: seq<string>, b: seq<string>)
    ensures OneLiners(a + b) <==> OneLiners(a) && OneLiners(b)
  {
    forall k | 0 <= k < |b| ensures b[k] == (a + b)[|a| + k] {}
    assert forall k :: 0 <= k < |a| ==> a[k] == (a + b)[k];
  }

  predicate LinesAt(t: string, i: nat, lines: seq<string>) {
    lines != [] && OneLiners(lines) && TextAt(t, i, Join(lines, "\n"))
  }

  lemma Halves(t: string, i: nat, u: string, v: string)
    requires TextAt(t, i, u + "\n" + v)
    ensures TextAt(t, i, u)
    ensures i + |u| < |t| && TextAt(t, i + |u| + 1, v)
  {
    var s := u + "\n" + v;
    assert s[..|u|] == u && s[|u|] == '\n' && s[|u| + 1..] == v;
    assert t[i..i + |u|] == t[i..i + |s|][..|u|];
    assert t[i + |u|] == t[i..i + |s|][|u|];
    assert t[i + |u| + 1..i + |u| + 1 + |v|] == t[i..i + |s|][|u| + 1..];
  }

  lemma LinesPrefix(t: string, i: nat, a: seq<string>, b: seq<string>)
    requires LinesAt(t, i, a + b) && a != [] && b != []
    ensures LinesAt(t, i, a)
    ensures i + |Join(a, "\n")| < |t| && LinesAt(t, i + |Join(a, "\n")| + 1, b)
  {
    hide Join, OneLiners, TextAt;
    OneLinersSplit(a, b);
    JoinAppend(a, b, "\n");
    Halves(t, i, Join(a, "\n"), Join(b, "\n"));
  }

  lemma FirstLine(t: string, i: nat, lines: seq<string>)
    requires LinesAt(t, i, lines)
    ensures LineAt(t, i, lines[0])
    ensures |lines| > 1 ==> i + |lines[0]| < |t| && LinesAt(t, i + |lines[0]| + 1, lines[1..])
  {
    if |lines| > 1 {
      Halves(t, i, lines[0], Join(lines[1..], "\n"));
    }
  }

  /** The expression matches at the start of none of the lines. */
  predicate Quiet(p: Pattern, t: string, i: nat, lines: seq<string>)
    requires i <= |t|
    decreases |lines|
  {
    lines == [] ||
    (MatchAt(p, t, i).None? &&
     (|lines| > 1 ==> i + |lines[0]| < |t| && Quiet(p, t, i + |lines[0]| + 1, lines[1..])))
  }

  lemma {:induction false} PassLines(p: Pattern, t: string, i: nat, lines: seq<string>)
    requires LinesAt(t, i, lines) && Anchored(p, t) && Quiet(p, t, i, lines)
    ensures i + |Join(lines, "\n")| == |t| ==> Search(p, t, i).None? && FindAll(p, t, i) == []
    ensures i + |Join(lines, "\n")| < |t| ==> Search(p, t, i) == Search(p, t, i + |Join(lines, "\n")| + 1)
    ensures i + |Join(lines, "\n")| < |t| ==> FindAll(p, t, i) == FindAll(p, t, i + |Join(lines, "\n")| + 1)
    decreases |lines|
  {
    hide TextAt, LineAt, MatchAt, Search, FindAll, Anchored, OneLiners;
    FirstLine(t, i, lines);
    PassLine(p, t, i, lines[0]);
    if |lines| > 1 {
      PassLines(p, t, i + |lines[0]| + 1, lines[1..]);
    }
  }

  // ------------------------------------------------------------- guarded lines

  /** Prefixes that no answer word and no theory heading has. */
  predicate Guarded(line: string) {
    |line| >= 2 && !IsSpace(line[0]) && (Guards(line[0]) || line[1] == '.')
  }

  lemma OnGuarded(t: string, i: nat, line: string)
    requires LineAt(t, i, line) && Guarded(line)
    ensures MatchAt(AnyAnswer, t, i).None? && MatchAt(AnswerLine, t, i).None?
    ensures MatchAt(TheoryMark, t, i).None?
  {
    CharsOf(t, i, line);
    assert t[i + 0] == line[0] && t[i + 1] == line[1];
    SkipSpacesUnique(t, i, i);
    if Guards(line[0]) {
      NoWordAt(t, i);
    } else {
      NoWordBeforeDot(t, i);
    }
    NoWordNoMatch(t, i);
  }

  lemma {:induction false} GuardedQuiet(t: string, i: nat, lines: seq<string>)
    requires LinesAt(t, i, lines)
    requires forall k :: 0 <= k < |lines| ==> Guarded(lines[k])
    ensures Quiet(AnyAnswer, t, i, lines) && Quiet(AnswerLine, t, i, lines) && Quiet(TheoryMark, t, i, lines)
    decreases |lines|
  {
    hide TextAt, LineAt, MatchAt, Guarded, Join, OneLiners;
    FirstLine(t, i, lines);
    OnGuarded(t, i, lines[0]);
    if |lines| > 1 {
      GuardedQuiet(t, i + |lines[0]| + 1, lines[1..]);
    }
  }

  predicate Unnumbered(line: string) {
    |line| >= 1 && !IsSpace(line[0]) && !IsDigit(line[0])
  }

  lemma OnUnnumbered(t: string, i: nat, line: string)
    requires LineAt(t, i, line) && Unnumbered(line)
    ensures MatchAt(NumberedLine, t, i).None? && MatchAt(QuestionStart, t, i).None?
  {
    CharsOf(t, i, line);
    assert t[i + 0] == line[0];
    SkipSpacesUnique(t, i, i);
    SkipDigitsUnique(t, i, i);
  }

  lemma {:induction false} UnnumberedQuiet(t: string, i: nat, lines: seq<string>)
    requires LinesAt(t, i, lines)
    requires forall k :: 0 <= k < |lines| ==> Unnumbered(lines[k])
    ensures Quiet(NumberedLine, t, i, lines) && Quiet(QuestionStart, t, i, lines)
    decreases |lines|
  {
    hide TextAt, LineAt, MatchAt, Unnumbered, Join, OneLiners;
    FirstLine(t, i, lines);
    OnUnnumbered(t, i, lines[0]);
    if |lines| > 1 {
      UnnumberedQuiet(t, i + |lines[0]| + 1, lines[1..]);
    }
  }
}
