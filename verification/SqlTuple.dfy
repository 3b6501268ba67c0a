/**
  The hand-written scanner that reads one row of a MySQL dump: the text between two
  parentheses is cut at the commas outside quotes, doubled quotes and backslash escapes are
  undone, and each field is trimmed and turned into nothing, a number or a text.
 */
module SqlTuple {
  import opened Chars

  datatype Value = Null | Int(n: int) | Text(s: string)

  // ------------------------------------------------------------------ the scanner

  /** The trimmed fields of what is left of the text, `current` being the field so far. */
  function Fields(t: string, inQuote: bool, current: string): (fields: seq<string>)
    ensures fields != []
    decreases |t|
  {
    if t == "" then [Strip(current)]
    else if inQuote then
      if t[0] == '\\' && |t| > 1 then Fields(t[2..], true, current + [t[1]])
      else if t[0] == '\'' then
        if |t| > 1 && t[1] == '\'' then Fields(t[2..], true, current + "'")
        else Fields(t[1..], false, current)
      else Fields(t[1..], true, current + [t[0]])
    else if t[0] == '\'' then Fields(t[1..], true, current)
    else if t[0] == ',' then [Strip(current)] + Fields(t[1..], false, "")
    else Fields(t[1..], false, current + [t[0]])
  }

  function Unwrapped(chunk: string): string {
    var text := Strip(chunk);
    if |text| > 1 && text[0] == '(' && text[|text| - 1] == ')' then text[1..|text| - 1] else text
  }

  /** `-?\d+` on the whole field. */
  predicate IsInteger(v: string) {
    var digits := if v != "" && v[0] == '-' then v[1..] else v;
    digits != "" && forall k :: 0 <= k < |digits| ==> IsDigit(digits[k])
  }

  function IntegerValue(v: string): int {
    if v != "" && v[0] == '-' then -(NumeralValue(v[1..]) as int) else NumeralValue(v)
  }

  function Normalized(v: string): Value {
    if UpperText(v) == "NULL" then Null
    else if IsInteger(v) then Int(IntegerValue(v))
    else Text(v)
  }

  function AllNormalized(fields: seq<string>): (values: seq<Value>)
    ensures |values| == |fields| && forall k :: 0 <= k < |fields| ==> values[k] == Normalized(fields[k])
  {
    seq(|fields|, k requires 0 <= k < |fields| => Normalized(fields[k]))
  }

  function TupleValues(chunk: string): seq<Value> {
    AllNormalized(Fields(Unwrapped(chunk), false, ""))
  }

  /** The scan moves on by one or two characters at a time and stops. */
  method ScanFields(text: string) returns (fields: seq<string>)
    ensures fields == Fields(text, false, "")
  {
    hide Strip;
    fields := [];
    var current, inQuote, index := "", false, 0;
    while index < |text|
      invariant 0 <= index <= |text|
      invariant fields + Fields(text[index..], inQuote, current) == Fields(text, false, "")
    {
      var c := text[index];
      ghost var rest := text[index..];
      assert rest[1..] == text[index + 1..] && (|rest| > 1 ==> rest[2..] == text[index + 2..]);
      if inQuote {
        if c == '\\' && index + 1 < |text| {
          current := current + [text[index + 1]];
          index := index + 2;
          continue;
        }
        if c == '\'' {
          if index + 1 < |text| && text[index + 1] == '\'' {
            current := current + "'";
            index := index + 2;
            continue;
          }
          inQuote := false;
          index := index + 1;
          continue;
        }
        current := current + [c];
        index := index + 1;
        continue;
      }
      if c == '\'' {
        inQuote := true;
        index := index + 1;
        continue;
      }
      if c == ',' {
        ghost var tail := Fields(text[index + 1..], false, "");
        assert (fields + [Strip(current)]) + tail == fields + ([Strip(current)] + tail);
        fields := fields + [Strip(current)];
        current := "";
        index := index + 1;
        continue;
      }
      current := current + [c];
      index := index + 1;
    }
    fields := fields + [Strip(current)];
  }

  /** `literal_sql_tuple` */
  method LiteralSqlTuple(chunk: string) returns (normalized: seq<Value>)
    ensures normalized == TupleValues(chunk)
  {
    hide Strip, Fields, UpperText, IsInteger, IntegerValue;
    var text := Strip(chunk);
    if |text| > 1 && text[0] == '(' && text[|text| - 1] == ')' {
      text := text[1..|text| - 1];
    }
    var fields := ScanFields(text);
    normalized := [];
    for k := 0 to |fields|
      invariant |normalized| == k && forall j :: 0 <= j < k ==> normalized[j] == Normalized(fields[j])
    {
      var value := fields[k];
      if UpperText(value) == "NULL" {
        normalized := normalized + [Null];
      } else if IsInteger(value) {
        normalized := normalized + [Int(IntegerValue(value))];
      } else {
        normalized := normalized + [Text(value)];
      }
    }
  }

  // ------------------------------------------------------------------ the printer

  /** How one character of a text stands inside the quotes. */
  datatype Glyph = Raw(c: char) | Doubled | Escaped(c: char)

  datatype Cell = NullCell | IntCell(n: int) | Quoted(glyphs: seq<Glyph>)

  /** A cell with the blanks around it. */
  datatype Padded = Padded(before: string, cell: Cell, after: string)

  function GlyphChar(g: Glyph): char {
    if g.Doubled? then '\'' else g.c
  }

  function GlyphText(gs: seq<Glyph>): (s: string)
    ensures |s| == |gs| && forall k :: 0 <= k < |gs| ==> s[k] == GlyphChar(gs[k])
  {
    seq(|gs|, k requires 0 <= k < |gs| => GlyphChar(gs[k]))
  }

  function PrintGlyph(g: Glyph): string {
    match g
    case Raw(c) => [c]
    case Doubled => "''"
    case Escaped(c) => ['\\', c]
  }

  function Body(gs: seq<Glyph>): string {
    if gs == [] then "" else PrintGlyph(gs[0]) + Body(gs[1..])
  }

  function PrintInt(n: int): string {
    if n < 0 then "-" + Numeral(-n) else Numeral(n)
  }

  function PrintCell(c: Cell): string {
    match c
    case NullCell => "NULL"
    case IntCell(n) => PrintInt(n)
    case Quoted(gs) => "'" + Body(gs) + "'"
  }

  /** What the scanner collects for a cell. */
  function Content(c: Cell): string {
    if c.Quoted? then GlyphText(c.glyphs) else PrintCell(c)
  }

  function PrintPadded(p: Padded): string { p.before + PrintCell(p.cell) + p.after }

  function PrintCells(ps: seq<Padded>): string
    requires ps != []
  {
    if |ps| == 1 then PrintPadded(ps[0]) else PrintPadded(ps[0]) + "," + PrintCells(ps[1..])
  }

  predicate Blank(s: string) { forall k :: 0 <= k < |s| ==> IsSpace(s[k]) }

  predicate ValidGlyph(g: Glyph) { g.Raw? ==> g.c != '\'' && g.c != '\\' }

  predicate ValidPadded(p: Padded) {
    Blank(p.before) && Blank(p.after) && (p.cell.Quoted? ==> forall g :: g in p.cell.glyphs ==> ValidGlyph(g))
  }

  /** What a printed cell comes back as: quoted texts are trimmed and may turn into nothing or
      a number. */
  function Meaning(c: Cell): Value {
    match c
    case NullCell => Null
    case IntCell(n) => Int(n)
    case Quoted(gs) => Normalized(Strip(GlyphText(gs)))
  }

  // ------------------------------------------------------- scanning what was printed

  lemma ScanGlyph(g: Glyph, after: string, current: string)
    requires ValidGlyph(g) && after != ""
    ensures Fields(PrintGlyph(g) + after, true, current) == Fields(after, true, current + [GlyphChar(g)])
  {
    hide Strip;
    var t := PrintGlyph(g) + after;
    assert g.Raw? ==> t[1..] == after;
    assert !g.Raw? ==> t[2..] == after;
  }

  lemma CloseQuote(rest: string, current: string)
    requires rest == "" || rest[0] != '\''
    ensures Fields("'" + rest, true, current) == Fields(rest, false, current)
  {
    hide Strip;
    assert ("'" + rest)[1..] == rest;
  }

  lemma {:induction false} ScanQuoted(gs: seq<Glyph>, rest: string, current: string)
    requires forall g :: g in gs ==> ValidGlyph(g)
    requires rest == "" || rest[0] != '\''
    ensures Fields(Body(gs) + "'" + rest, true, current) == Fields(rest, false, current + GlyphText(gs))
    decreases |gs|
  {
    hide Fields, ValidGlyph, PrintGlyph, GlyphChar;
    if gs == [] {
      assert Body(gs) + "'" + rest == "'" + rest && current + GlyphText(gs) == current;
      CloseQuote(rest, current);
    } else {
      var after := Body(gs[1..]) + "'" + rest;
      assert Body(gs) + "'" + rest == PrintGlyph(gs[0]) + after;
      ScanGlyph(gs[0], after, current);
      var longer := current + [GlyphChar(gs[0])];
      assert longer + GlyphText(gs[1..]) == current + GlyphText(gs);
      ScanQuoted(gs[1..], rest, longer);
    }
  }

  lemma {:induction false} ScanBare(s: string, rest: string, current: string)
    requires forall k :: 0 <= k < |s| ==> s[k] != '\'' && s[k] != ','
    ensures Fields(s + rest, false, current) == Fields(rest, false, current + s)
    decreases |s|
  {
    if s == "" {
      assert s + rest == rest && current + s == current;
    } else {
      ScanBare(s[1..], rest, current + [s[0]]);
      assert (s + rest)[1..] == s[1..] + rest;
      assert (current + [s[0]]) + s[1..] == current + s;
    }
  }

  lemma ScanPadded(p: Padded, rest: string)
    requires ValidPadded(p) && (rest == "" || rest[0] == ',')
    ensures Fields(PrintPadded(p) + rest, false, "") == Fields(rest, false, p.before + Content(p.cell) + p.after)
  {
    hide Fields;
    var cell := PrintCell(p.cell);
    assert PrintPadded(p) + rest == p.before + (cell + (p.after + rest));
    ScanBare(p.before, cell + (p.after + rest), "");
    assert "" + p.before == p.before;
    match p.cell
    case Quoted(gs) =>
      assert cell + (p.after + rest) == "'" + (Body(gs) + "'" + (p.after + rest));
      OpenQuote(Body(gs) + "'" + (p.after + rest), p.before);
      ScanQuoted(gs, p.after + rest, p.before);
      ScanBare(p.after, rest, p.before + Content(p.cell));
    case _ =>
      ScanBare(cell, p.after + rest, p.before);
      ScanBare(p.after, rest, p.before + cell);
  }

  lemma OpenQuote(t: string, current: string)
    ensures Fields("'" + t, false, current) == Fields(t, true, current)
  {
    assert ("'" + t)[1..] == t;
  }

  lemma {:induction false} SpacesAround(v: string, s: string, w: string)
    requires Blank(v) && Blank(w)
    ensures Strip(v + s + w) == Strip(s)
  {
    var k := SkipSpaces(s, 0);
    SkipSpacesSkips(s, 0);
    var t := v + s + w;
    if k < |s| {
      assert t[|v| + k] == s[k];
      SkipSpacesUnique(t, 0, |v| + k);
      assert t[|v| + k..] == s[k..] + w;
      RStripMore(s[k..], w);
    } else {
      SkipSpacesUnique(t, 0, |t|);
    }
  }

  lemma {:induction false} RStripMore(s: string, w: string)
    requires Blank(w)
    ensures RStrip(s + w) == RStrip(s)
    decreases |w|
  {
    if w == "" {
      assert s + w == s;
    } else {
      assert (s + w)[..|s + w| - 1] == s + w[..|w| - 1];
      RStripMore(s, w[..|w| - 1]);
    }
  }

  lemma {:induction false} ScanCells(ps: seq<Padded>)
    requires ps != [] && forall k :: 0 <= k < |ps| ==> ValidPadded(ps[k])
    ensures |Fields(PrintCells(ps), false, "")| == |ps|
    ensures forall k :: 0 <= k < |ps| ==> Fields(PrintCells(ps), false, "")[k] == Strip(Content(ps[k].cell))
    decreases |ps|
  {
    hide Strip, Content, PrintPadded, ValidPadded, Blank;
    var p := ps[0];
    var collected := p.before + Content(p.cell) + p.after;
    assert Strip(collected) == Strip(Content(p.cell)) by {
      ValidBlank(p);
      SpacesAround(p.before, Content(p.cell), p.after);
    }
    if |ps| == 1 {
      ScanPadded(p, "");
      assert PrintPadded(p) + "" == PrintPadded(p);
    } else {
      var rest := "," + PrintCells(ps[1..]);
      ScanPadded(p, rest);
      assert PrintCells(ps) == PrintPadded(p) + rest;
      assert rest[1..] == PrintCells(ps[1..]);
      ScanCells(ps[1..]);
      forall k | 0 <= k < |ps|
        ensures Fields(PrintCells(ps), false, "")[k] == Strip(Content(ps[k].cell))
      {
        if k > 0 { assert ps[k] == ps[1..][k - 1]; }
      }
    }
  }

  lemma ValidBlank(p: Padded)
    requires ValidPadded(p)
    ensures Blank(p.before) && Blank(p.after)
  {
  }

  lemma DigitsAreNotNull(s: string)
    requires s != "" && IsDigit(s[|s| - 1])
    ensures UpperText(s) != "NULL"
  {
    assert UpperText(s)[|s| - 1] == s[|s| - 1];
    assert "NULL"[3] == 'L';
  }

  lemma SpacesKept(s: string)
    requires s == "" || Trimmed(s)
    ensures Strip(s) == s
  {
    if s != "" {
      StripAround("", s, "");
      assert "" + s + "" == s;
    }
  }

  lemma IntReadsBack(n: int)
    ensures Normalized(Strip(PrintInt(n))) == Int(n)
  {
    hide Strip, Numeral, NumeralValue, UpperText;
    var m: nat := if n < 0 then -n else n;
    var digits, s := Numeral(m), PrintInt(n);
    NumeralRoundTrip(m);
    SpacesKept(s);
    DigitsAreNotNull(s);
    if n < 0 {
      assert s[1..] == digits;
    } else {
      assert IsDigit(s[0]);
    }
  }

  lemma CellReadsBack(c: Cell)
    ensures Normalized(Strip(Content(c))) == Meaning(c)
  {
    match c
    case NullCell =>
      SpacesKept("NULL");
      assert UpperText("NULL") == "NULL";
    case IntCell(n) => IntReadsBack(n);
    case Quoted(_) =>
  }

  /** Every printed row comes back: numbers and NULL as they are, texts up to trimming and the
      reading of NULL-like and number-like texts, whatever escapes and blanks were used. */
  lemma RoundTrip(lead: string, ps: seq<Padded>, trail: string)
    requires Blank(lead) && Blank(trail)
    requires ps != [] && forall k :: 0 <= k < |ps| ==> ValidPadded(ps[k])
    ensures TupleValues(lead + ("(" + PrintCells(ps) + ")") + trail)
         == seq(|ps|, k requires 0 <= k < |ps| => Meaning(ps[k].cell))
  {
    hide Fields, PrintCells, Meaning, Content, Normalized, RStrip, SkipSpaces, ValidPadded;
    var inner := PrintCells(ps);
    var text := "(" + inner + ")";
    StripAround(lead, text, trail);
    assert text[1..|text| - 1] == inner;
    ScanCells(ps);
    forall k | 0 <= k < |ps| ensures Normalized(Strip(Content(ps[k].cell))) == Meaning(ps[k].cell) {
      CellReadsBack(ps[k].cell);
    }
  }

  // ------------------------------------------------------------------ plain values

  /** Texts that the scanner leaves alone. */
  predicate Plain(s: string) {
    (s == "" || Trimmed(s)) && UpperText(s) != "NULL" && !IsInteger(s)
  }

  predicate PlainValue(v: Value) { v.Text? ==> Plain(v.s) }

  function Glyphs(s: string): (gs: seq<Glyph>)
    ensures |gs| == |s| && GlyphText(gs) == s && forall g :: g in gs ==> ValidGlyph(g)
  {
    seq(|s|, k requires 0 <= k < |s| =>
        if s[k] == '\'' then Doubled else if s[k] == '\\' then Escaped('\\') else Raw(s[k]))
  }

  function CellOf(v: Value): Cell {
    match v
    case Null => NullCell
    case Int(n) => IntCell(n)
    case Text(s) => Quoted(Glyphs(s))
  }

  function PrintTuple(values: seq<Value>): string
    requires values != []
  {
    "(" + PrintCells(seq(|values|, k requires 0 <= k < |values| => Padded("", CellOf(values[k]), ""))) + ")"
  }

  lemma PlainReadsBack(v: Value)
    ensures Meaning(CellOf(v)) == v <==> PlainValue(v)
  {
    if v.Text? {
      StripIdempotent(v.s);
      if v.s == "" || Trimmed(v.s) {
        SpacesKept(v.s);
      }
    }
  }

  /** A row of values printed in the plain style comes back unchanged exactly when none of its
      texts has blanks at an end or looks like NULL or a number. */
  lemma ValuesRoundTrip(values: seq<Value>)
    requires values != []
    ensures TupleValues(PrintTuple(values)) == values <==> forall k :: 0 <= k < |values| ==> PlainValue(values[k])
  {
    hide TupleValues, PrintCells, Meaning, PlainValue, CellOf;
    var ps := seq(|values|, k requires 0 <= k < |values| => Padded("", CellOf(values[k]), ""));
    forall k | 0 <= k < |ps| ensures ValidPadded(ps[k]) {
      ValidCell(values[k]);
    }
    RoundTrip("", ps, "");
    assert "" + ("(" + PrintCells(ps) + ")") + "" == PrintTuple(values);
    var back := TupleValues(PrintTuple(values));
    assert |back| == |values| && forall k :: 0 <= k < |values| ==> back[k] == Meaning(CellOf(values[k]));
    forall k | 0 <= k < |values| ensures back[k] == values[k] <==> PlainValue(values[k]) {
      PlainReadsBack(values[k]);
    }
    if forall k :: 0 <= k < |values| ==> PlainValue(values[k]) {
      assert back == values;
    }
  }

  /** A text that reads as NULL does not come back. */
  lemma NullTextChanges()
    ensures TupleValues(PrintTuple([Text("null")])) != [Text("null")]
  {
    assert UpperText("null") == "NULL";
    assert !PlainValue([Text("null")][0]);
    hide TupleValues, PrintTuple, PlainValue;
    ValuesRoundTrip([Text("null")]);
  }

  lemma ValidCell(v: Value)
    ensures ValidPadded(Padded("", CellOf(v), ""))
  {
  }

  lemma {:induction false} FieldsAreStripped(t: string, inQuote: bool, current: string)
    ensures forall f :: f in Fields(t, inQuote, current) ==> f == "" || Trimmed(f)
    decreases |t|
  {
    hide Strip, Trimmed;
    StripIdempotent(current);
    if t != "" {
      if inQuote {
        if t[0] == '\\' && |t| > 1 {
          FieldsAreStripped(t[2..], true, current + [t[1]]);
        } else if t[0] == '\'' {
          if |t| > 1 && t[1] == '\'' {
            FieldsAreStripped(t[2..], true, current + "'");
          } else {
            FieldsAreStripped(t[1..], false, current);
          }
        } else {
          FieldsAreStripped(t[1..], true, current + [t[0]]);
        }
      } else if t[0] == '\'' {
        FieldsAreStripped(t[1..], true, current);
      } else if t[0] == ',' {
        FieldsAreStripped(t[1..], false, "");
      } else {
        FieldsAreStripped(t[1..], false, current + [t[0]]);
      }
    }
  }

  /** Whatever text was scanned, printing the result and scanning again changes nothing. */
  lemma RescanIsStable(chunk: string)
    ensures TupleValues(chunk) != []
    ensures TupleValues(PrintTuple(TupleValues(chunk))) == TupleValues(chunk)
  {
    hide Fields, Strip, Trimmed, PrintTuple;
    var values := TupleValues(chunk);
    FieldsAreStripped(Unwrapped(chunk), false, "");
    forall k | 0 <= k < |values| ensures PlainValue(values[k]) {
    }
    ValuesRoundTrip(values);
  }
}
