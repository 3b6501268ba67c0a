/**
  Character classes and the small string functions the importers share: skipping
  a run of characters, stripping, collapsing whitespace, splitting into lines,
  and decimal numerals.  Text is a sequence of Unicode scalars, as in Python.
 */
module Chars {

  /** `str.isspace()`, which is also the class `\s` of Python's `re` on text. */
  predicate IsSpace(c: char) {
    var n := c as int;
    || 0x09 <= n <= 0x0D || 0x1C <= n <= 0x20 || n == 0x85 || n == 0xA0 || n == 0x1680
    || 0x2000 <= n <= 0x200A || n == 0x2028 || n == 0x2029 || n == 0x202F || n == 0x205F || n == 0x3000
  }

  /** The line boundaries of `str.splitlines()`. */
  predicate IsBreak(c: char) {
    var n := c as int;
    0x0A <= n <= 0x0D || 0x1C <= n <= 0x1E || n == 0x85 || n == 0x2028 || n == 0x2029
  }

  predicate IsDigit(c: char) { '0' <= c <= '9' }

  predicate IsUpper(c: char) { 'A' <= c <= 'Z' }

  predicate IsWordChar(c: char) {
    'a' <= c <= 'z' || 'A' <= c <= 'Z' || '0' <= c <= '9' || c == '_'
  }

  function Lower(c: char): char {
    if 'A' <= c <= 'Z' then c - 'A' + 'a' else c
  }

  function Upper(c: char): char {
    if 'a' <= c <= 'z' then c - 'a' + 'A' else c
  }

  function UpperText(s: string): (r: string)
    ensures |r| == |s| && forall k :: 0 <= k < |s| ==> r[k] == Upper(s[k])
  {
    seq(|s|, k requires 0 <= k < |s| => Upper(s[k]))
  }

  // ---------------------------------------------------------------- runs

  /** End of the run of whitespace that starts at `i` (the greedy `\s*`). */
  function SkipSpaces(t: string, i: nat): (r: nat)
    requires i <= |t|
    ensures i <= r <= |t|
    decreases |t| - i
  {
    if i < |t| && IsSpace(t[i]) then SkipSpaces(t, i + 1) else i
  }

  /** End of the run of digits that starts at `i` (the greedy `\d*`). */
  function SkipDigits(t: string, i: nat): (r: nat)
    requires i <= |t|
    ensures i <= r <= |t|
    decreases |t| - i
  {
    if i < |t| && IsDigit(t[i]) then SkipDigits(t, i + 1) else i
  }

  lemma {:induction false} SkipSpacesSkips(t: string, i: nat)
    requires i <= |t|
    ensures forall k :: i <= k < SkipSpaces(t, i) ==> IsSpace(t[k])
    ensures SkipSpaces(t, i) < |t| ==> !IsSpace(t[SkipSpaces(t, i)])
    decreases |t| - i
  {
    if i < |t| && IsSpace(t[i]) {
      SkipSpacesSkips(t, i + 1);
    }
  }

  /** These two properties pin the result of `SkipSpaces`. */
  lemma {:induction false} SkipSpacesUnique(t: string, i: nat, r: nat)
    requires i <= r <= |t|
    requires forall k :: i <= k < r ==> IsSpace(t[k])
    requires r < |t| ==> !IsSpace(t[r])
    ensures SkipSpaces(t, i) == r
    decreases r - i
  {
    if i < r { SkipSpacesUnique(t, i + 1, r); }
  }

  lemma {:induction false} SkipDigitsUnique(t: string, i: nat, r: nat)
    requires i <= r <= |t|
    requires forall k :: i <= k < r ==> IsDigit(t[k])
    requires r < |t| ==> !IsDigit(t[r])
    ensures SkipDigits(t, i) == r
    decreases r - i
  {
    if i < r { SkipDigitsUnique(t, i + 1, r); }
  }

  // ------------------------------------------------------ strip, collapse

  function RStrip(s: string): (r: string)
    ensures r <= s
    ensures r != "" ==> !IsSpace(r[|r| - 1])
  {
    if s != "" && IsSpace(s[|s| - 1]) then RStrip(s[..|s| - 1]) else s
  }

  function Strip(s: string): string {
    RStrip(s[SkipSpaces(s, 0)..])
  }

  /** `re.sub(r"\s+", " ", s)` */
  function Squeeze(s: string): string
    decreases |s|
  {
    if s == "" then ""
    else if IsSpace(s[0]) then
      assert SkipSpaces(s, 0) > 0;
      " " + Squeeze(s[SkipSpaces(s, 0)..])
    else [s[0]] + Squeeze(s[1..])
  }

  /** `re.sub(r"\s+", " ", s).strip()`, which equals `" ".join(s.split())`. */
  function Collapse(s: string): string {
    Strip(Squeeze(s))
  }

  /** Words separated by single blanks: what `Collapse` produces, stated without it. */
  predicate Single(s: string) {
    forall k :: 0 <= k < |s| && IsSpace(s[k]) ==> s[k] == ' ' && (k + 1 < |s| ==> !IsSpace(s[k + 1]))
  }

  predicate Trimmed(s: string) {
    s != "" && !IsSpace(s[0]) && !IsSpace(s[|s| - 1])
  }

  predicate IsCollapsed(s: string) {
    Trimmed(s) && Single(s)
  }

  lemma {:induction false} RStripAfter(s: string, w: string)
    requires s != "" ==> !IsSpace(s[|s| - 1])
    requires forall k :: 0 <= k < |w| ==> IsSpace(w[k])
    ensures RStrip(s + w) == s
  {
    if w == "" {
      assert s + w == s;
    } else {
      var t := s + w;
      assert t[|t| - 1] == w[|w| - 1];
      assert t[..|t| - 1] == s + w[..|w| - 1];
      RStripAfter(s, w[..|w| - 1]);
    }
  }

  lemma StripAround(v: string, s: string, w: string)
    requires Trimmed(s)
    requires forall k :: 0 <= k < |v| ==> IsSpace(v[k])
    requires forall k :: 0 <= k < |w| ==> IsSpace(w[k])
    ensures Strip(v + s + w) == s
  {
    var t := v + s + w;
    assert t[|v|] == s[0];
    SkipSpacesUnique(t, 0, |v|);
    assert t[|v|..] == s + w;
    RStripAfter(s, w);
  }

  /** Stripping twice is stripping once. */
  lemma StripIdempotent(s: string)
    ensures Strip(Strip(s)) == Strip(s)
    ensures Strip(s) == "" || Trimmed(Strip(s))
  {
    var r := Strip(s);
    var k := SkipSpaces(s, 0);
    SkipSpacesSkips(s, 0);
    if r != "" {
      assert r[0] == s[k];
      StripAround("", r, "");
      assert "" + r + "" == r;
    }
  }

  lemma {:induction false} SqueezeSingle(s: string)
    requires Single(s)
    ensures Squeeze(s) == s
  {
    if s != "" {
      if IsSpace(s[0]) {
        SkipSpacesUnique(s, 0, 1);
      }
      assert forall k :: 0 <= k < |s[1..]| ==> s[1..][k] == s[k + 1];
      SqueezeSingle(s[1..]);
      assert s == [s[0]] + s[1..];
    }
  }

  lemma SqueezeUnfolds(s: string)
    requires s != ""
    ensures IsSpace(s[0]) ==> SkipSpaces(s, 0) > 0 && Squeeze(s) == " " + Squeeze(s[SkipSpaces(s, 0)..])
    ensures !IsSpace(s[0]) ==> Squeeze(s) == [s[0]] + Squeeze(s[1..])
  {
  }

  lemma SingleCons(c: char, q: string)
    requires Single(q) && (IsSpace(c) ==> c == ' ' && (q != "" ==> !IsSpace(q[0])))
    ensures Single([c] + q)
  {
    hide IsSpace;
    var r := [c] + q;
    forall k | 0 <= k < |r| && IsSpace(r[k])
      ensures r[k] == ' ' && (k + 1 < |r| ==> !IsSpace(r[k + 1]))
    {
      if k > 0 {
        assert r[k] == q[k - 1];
      }
    }
  }

  lemma {:induction false} SqueezeIsSingle(s: string)
    ensures Single(Squeeze(s))
    ensures Squeeze(s) != "" && s != "" ==> (IsSpace(Squeeze(s)[0]) <==> IsSpace(s[0]))
    decreases |s|
  {
    if s != "" {
      assert IsSpace(' ');
      hide Single, SkipSpaces, Squeeze, IsSpace;
      SqueezeUnfolds(s);
      SkipSpacesSkips(s, 0);
      var rest := if IsSpace(s[0]) then s[SkipSpaces(s, 0)..] else s[1..];
      SqueezeIsSingle(rest);
      SqueezeOfNothing();
      SingleCons(if IsSpace(s[0]) then ' ' else s[0], Squeeze(rest));
    } else {
      SqueezeOfNothing();
    }
  }

  lemma SqueezeOfNothing()
    ensures Squeeze("") == "" && Single("")
  {
  }

  /** A collapsed text is empty or a list of words with one blank between them. */
  lemma CollapseIsCollapsed(s: string)
    ensures Collapse(s) == "" || IsCollapsed(Collapse(s))
  {
    hide Squeeze, SkipSpaces, IsSpace;
    SqueezeIsSingle(s);
    StripIdempotent(Squeeze(s));
    StripSingle(Squeeze(s));
  }

  lemma StripSingle(q: string)
    requires Single(q)
    ensures Single(Strip(q))
  {
    hide IsSpace;
    var k, r := SkipSpaces(q, 0), Strip(q);
    assert r <= q[k..];
    assert forall j :: 0 <= j < |r| ==> r[j] == q[k + j];
  }

  /** Collapsing ignores one line break after a collapsed text. */
  lemma CollapseLine(s: string, w: string)
    requires IsCollapsed(s)
    requires w == "" || w == "\n"
    ensures Collapse(s + w) == s
  {
    SqueezeTail(s, w);
    StripAround("", s, if w == "" then "" else " ");
    assert "" + s == s;
  }

  lemma {:induction false} SqueezeTail(s: string, w: string)
    requires Single(s) && (s != "" ==> !IsSpace(s[|s| - 1]))
    requires w == "" || w == "\n"
    ensures Squeeze(s + w) == s + (if w == "" then "" else " ")
  {
    hide Squeeze, SkipSpaces, IsSpace;
    if w == "" {
      assert s + w == s;
      SqueezeSingle(s);
    } else if s == "" {
      assert s + w == "\n";
      SqueezeOneBreak();
    } else {
      var t := s + w;
      assert t[0] == s[0];
      SqueezeUnfolds(t);
      if IsSpace(s[0]) {
        assert |s| > 1 && t[1] == s[1];
        SkipSpacesUnique(t, 0, 1);
      }
      assert t[1..] == s[1..] + w && s == [s[0]] + s[1..];
      assert forall k :: 0 <= k < |s[1..]| ==> s[1..][k] == s[k + 1];
      SqueezeTail(s[1..], w);
    }
  }

  lemma SqueezeOneBreak()
    ensures Squeeze("\n") == " "
  {
    SkipSpacesUnique("\n", 0, 1);
    assert "\n"[1..] == "";
  }

  /** `part in s` */
  predicate Contains(s: string, part: string) {
    part <= s || (s != "" && Contains(s[1..], part))
  }

  /** `len(s.split())` */
  function WordCount(s: string): nat {
    if s == "" then 0
    else WordCount(s[..|s| - 1])
         + if !IsSpace(s[|s| - 1]) && (|s| == 1 || IsSpace(s[|s| - 2])) then 1 else 0
  }

  // ------------------------------------------------------------- lines

  function Join(parts: seq<string>, sep: string): string {
    if |parts| == 0 then ""
    else if |parts| == 1 then parts[0]
    else parts[0] + sep + Join(parts[1..], sep)
  }

  function FirstBreak(s: string, i: nat): (r: nat)
    requires i <= |s|
    ensures i <= r <= |s|
    ensures forall k :: i <= k < r ==> !IsBreak(s[k])
    ensures r < |s| ==> IsBreak(s[r])
    decreases |s| - i
  {
    if i < |s| && !IsBreak(s[i]) then FirstBreak(s, i + 1) else i
  }

  /** `s.splitlines()` */
  function SplitLines(s: string): (lines: seq<string>)
    ensures forall l :: l in lines ==> forall k :: 0 <= k < |l| ==> !IsBreak(l[k])
    decreases |s|
  {
    if s == "" then []
    else
      var k := FirstBreak(s, 0);
      if k == |s| then [s]
      else
        var next := if s[k] == '\r' && k + 1 < |s| && s[k + 1] == '\n' then k + 2 else k + 1;
        [s[..k]] + SplitLines(s[next..])
  }

  lemma {:induction false} JoinAppend(a: seq<string>, b: seq<string>, sep: string)
    requires a != [] && b != []
    ensures Join(a + b, sep) == Join(a, sep) + sep + Join(b, sep)
  {
    if |a| == 1 {
      assert (a + b)[1..] == b;
    } else {
      assert (a + b)[1..] == a[1..] + b;
      JoinAppend(a[1..], b, sep);
    }
  }

  // ----------------------------------------------------------- numerals

  /** Decimal numeral of a natural number, as `str(n)` prints it. */
  function Numeral(n: nat): (s: string)
    ensures s != ""
    ensures forall k :: 0 <= k < |s| ==> IsDigit(s[k])
  {
    var last := [(n % 10) as char + '0'];
    if n < 10 then last else Numeral(n / 10) + last
  }

  function DigitValue(c: char): nat {
    if IsDigit(c) then (c - '0') as nat else 0
  }

  /** `int(s)` on a string of decimal digits. */
  function NumeralValue(s: string): nat {
    if s == "" then 0 else 10 * NumeralValue(s[..|s| - 1]) + DigitValue(s[|s| - 1])
  }

  /** Reading back a printed number gives that number. */
  lemma {:induction false} NumeralRoundTrip(n: nat)
    ensures NumeralValue(Numeral(n)) == n
  {
    var s := Numeral(n);
    var d := (n % 10) as char + '0';
    assert d - '0' == (n % 10) as char;
    if n < 10 {
      assert s[..0] == "";
      assert s[0] == d;
    } else {
      var front := Numeral(n / 10);
      assert s == front + [d];
      assert s[..|s| - 1] == front;
      assert s[|s| - 1] == d;
      NumeralRoundTrip(n / 10);
    }
  }
}
