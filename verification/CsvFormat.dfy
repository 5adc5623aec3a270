/** The CSV format from outside (src/integration/CsvSerializer.cpp; RFC 4180 section 2): when a field is quoted,
    which texts the reader takes beyond those the writer makes, and which row it rejects. */
module CsvFormat {
  import opened Wrappers
  import opened Sequences
  import opened DecimalText
  import opened Products
  import opened CsvSerializer

  // ----- writing -----------------------------------------------------------------------------

  predicate Breaks(c: char) {
    c == ',' || c == '\r' || c == '\n'
  }

  function Quotes(s: string): nat {
    if s == "" then 0 else (if s[0] == '"' then 1 else 0) + Quotes(s[1..])
  }

  lemma {:induction false} DoubledLength(s: string)
    ensures |Doubled(s)| == |s| + Quotes(s)
  {
    if s != "" {
      DoubledLength(s[1..]);
    }
  }

  /** A field without comma, quote and line break is written as it is; any other between two quotes, with
      every quote of its own doubled. */
  lemma QuotedExactly(s: string)
    ensures Escaped(s) == s <==> forall i :: 0 <= i < |s| ==> s[i] != '"' && !Breaks(s[i])
    ensures Escaped(s) != s ==>
      |Escaped(s)| == |s| + Quotes(s) + 2 && Escaped(s)[0] == '"' && Escaped(s)[|Escaped(s)| - 1] == '"'
  {
    DoubledLength(s);
    if NeedsQuoting(s) {
      var i :| 0 <= i < |s| && Special(s[i]);
      assert |Escaped(s)| > |s|;
    }
  }

  /** A whole text: the mark, the header, one line for each product, its columns in their order. */
  lemma CsvExample()
    ensures Csv(["Code", "Name"], [Product("A-1", "6\"", "ok", -12, 97.5)]) ==
      "\U{EF}\U{BB}\U{BF}" + ("Code" + "," + "Name" + ("\r\n"
      + ("A-1" + "," + "\"6\"\"\"" + "," + "ok" + "," + "-12" + "," + "97.5" + "\r\n")))
  {
    var p := Product("A-1", "6\"", "ok", -12, 97.5);
    NumberExample();
    NameExample();
    PlainExample("Code");
    PlainExample("Name");
    PlainExample("A-1");
    PlainExample("ok");
    hide Escaped, Decimal, RateText, Joined;
    RowIsJoined(p);
    TwoJoined("Code", "Name");
    OneRow(p);
    Associative("Code", ",", "Name");
  }

  lemma NumberExample()
    ensures Decimal(-12) == "-12" && RateText(97.5) == "97.5"
  {
    assert Digits(12) == "12" && Digits(97) == "97";
    assert Tenths(97.5) == 975;
  }

  lemma OneRow(p: Product)
    ensures Rows([p]) == Joined(Columns(p)) + CRLF
  {
    assert [p][1..] == [] && CRLF + "" == CRLF;
  }

  lemma TwoJoined(a: string, b: string)
    ensures Joined([a, b]) == Escaped(a) + ("," + Escaped(b))
  {
    assert [a, b][1..] == [b];
  }

  lemma PlainExample(s: string)
    requires forall i :: 0 <= i < |s| ==> s[i] != '"' && !Breaks(s[i])
    ensures Escaped(s) == s
  {
    QuotedExactly(s);
  }

  lemma NameExample()
    ensures Escaped("6\"") == "\"6\"\"\""
  {
    var s := "6\"";
    assert Special(s[1]);
    assert s[1..] == "\"" && "\""[1..] == "";
    assert Doubled("\"") == "\"\"";
    assert Doubled(s) == "6\"\"";
  }

  // ----- reading -----------------------------------------------------------------------------

  /** A field as it may stand in a text: bare, or with a part in quotes first. */
  datatype Cell = Bare(text: string) | Quoted(inner: string, after: string)

  predicate Unbroken(s: string) {
    forall i :: 0 <= i < |s| ==> !Breaks(s[i])
  }

  /** A bare field does not start with a quote; it may have quotes further on. */
  predicate CellOk(c: Cell) {
    match c
    case Bare(text) => Unbroken(text) && (text != "" ==> text[0] != '"')
    case Quoted(_, after) => Unbroken(after) && Quotes(after) == 0
  }

  function CellText(c: Cell): string {
    match c
    case Bare(text) => text
    case Quoted(inner, after) => "\"" + (Doubled(inner) + ("\"" + after))
  }

  function CellValue(c: Cell): string {
    match c
    case Bare(text) => text
    case Quoted(inner, after) => inner + after
  }

  function CellsText(cells: seq<Cell>): string {
    if cells == [] then ""
    else if |cells| == 1 then CellText(cells[0])
    else CellText(cells[0]) + ("," + CellsText(cells[1..]))
  }

  function Values(cells: seq<Cell>): (r: seq<string>)
    ensures |r| == |cells|
  {
    if cells == [] then [] else [CellValue(cells[0])] + Values(cells[1..])
  }

  datatype End = CrLf | Lf | Cr | EndOfText

  function EndText(end: End): string {
    match end
    case CrLf => "\r\n"
    case Lf => "\n"
    case Cr => "\r"
    case EndOfText => ""
  }

  /** A lone CR is not followed by an LF, and nothing follows the end. */
  predicate EndOk(end: End, tail: string) {
    && (end == Cr ==> tail == "" || tail[0] != '\n')
    && (end == EndOfText ==> tail == "")
  }

  predicate Stops(rest: string) {
    rest == "" || Breaks(rest[0])
  }

  lemma {:induction false} BareScanned(bare: string, rest: string, fields: seq<string>, current: string, seen: bool)
    requires Unbroken(bare) && Stops(rest) && (current == "" && bare != "" ==> bare[0] != '"')
    ensures Scan(bare + rest, fields, current, false, seen) == Scan(rest, fields, current + bare, false, seen || bare != "")
    decreases |bare|
  {
    if bare == "" {
      assert bare + rest == rest && current + bare == current;
    } else {
      assert (bare + rest)[1..] == bare[1..] + rest;
      BareScanned(bare[1..], rest, fields, current + [bare[0]], true);
      assert current + [bare[0]] + bare[1..] == current + bare;
    }
  }

  lemma {:induction false} InnerScanned(inner: string, rest: string, fields: seq<string>, current: string)
    requires rest == "" || rest[0] != '"'
    ensures Scan(Doubled(inner) + ("\"" + rest), fields, current, true, true) ==
      Scan(rest, fields, current + inner, false, true)
    decreases |inner|
  {
    var s := Doubled(inner) + ("\"" + rest);
    if inner == "" {
      assert s == "\"" + rest && s[1..] == rest && current + inner == current;
    } else {
      var (c, more) := (inner[0], Doubled(inner[1..]) + ("\"" + rest));
      assert current + [c] + inner[1..] == current + inner;
      InnerScanned(inner[1..], rest, fields, current + [c]);
      if c == '"' {
        assert s == "\"\"" + more && s[1..][1..] == more;
      } else {
        assert s == [c] + more && s[1..] == more;
      }
    }
  }

  lemma {:induction false} NoQuotes(s: string, i: nat)
    requires Quotes(s) == 0 && i < |s|
    ensures s[i] != '"'
  {
    if i > 0 {
      NoQuotes(s[1..], i - 1);
    }
  }

  /** A field is read as its quoted part and what follows it up to the next comma or line break. */
  lemma CellScanned(c: Cell, rest: string, fields: seq<string>, seen: bool)
    requires CellOk(c) && Stops(rest)
    ensures Scan(CellText(c) + rest, fields, "", false, seen) ==
      Scan(rest, fields, CellValue(c), false, seen || CellText(c) != "")
  {
    hide Doubled;
    match c {
      case Bare(text) =>
        BareScanned(text, rest, fields, "", seen);
        assert "" + text == text;
      case Quoted(inner, after) =>
        var more := Doubled(inner) + ("\"" + (after + rest));
        assert CellText(c) + rest == "\"" + more;
        QuoteOpens(more, fields, seen);
        if after != "" { NoQuotes(after, 0); }
        InnerScanned(inner, after + rest, fields, "");
        assert "" + inner == inner;
        BareScanned(after, rest, fields, inner, true);
    }
  }

  lemma EndScanned(end: End, tail: string, fields: seq<string>, current: string, seen: bool)
    requires EndOk(end, tail) && (end == EndOfText ==> seen || fields != [])
    ensures Scan(EndText(end) + tail, fields, current, false, seen) ==
      Record(fields + [current], tail, end != EndOfText && (end == Cr ==> tail != ""))
  {
    var s := EndText(end) + tail;
    match end {
      case CrLf => assert s[1..] == "\n" + tail && ("\n" + tail)[1..] == tail;
      case Lf => assert s[1..] == tail;
      case Cr => assert s[1..] == tail;
      case EndOfText => assert s == "";
    }
  }

  lemma {:induction false} CellsScanned(cells: seq<Cell>, end: End, tail: string, fields: seq<string>, seen: bool)
    requires cells != [] && (forall i :: 0 <= i < |cells| ==> CellOk(cells[i])) && EndOk(end, tail)
    requires end == EndOfText ==> seen || fields != [] || CellsText(cells) != ""
    ensures Scan(CellsText(cells) + (EndText(end) + tail), fields, "", false, seen) ==
      Record(fields + Values(cells), tail, end != EndOfText && (end == Cr ==> tail != ""))
    decreases |cells|
  {
    hide Scan, CellText, CellValue, CellOk, EndText, EndOk;
    var (rest, c) := (EndText(end) + tail, cells[0]);
    EndStops(end, tail);
    if |cells| == 1 {
      CellScanned(c, rest, fields, seen);
      EndScanned(end, tail, fields, CellValue(c), seen || CellText(c) != "");
      assert Values(cells) == [CellValue(c)];
    } else {
      FirstCell(cells, rest);
      var more := CellsText(cells[1..]) + rest;
      CellScanned(c, "," + more, fields, seen);
      CommaNext(more, fields, CellValue(c), seen || CellText(c) != "");
      CellsScanned(cells[1..], end, tail, fields + [CellValue(c)], true);
      Associative(fields, [CellValue(c)], Values(cells[1..]));
    }
  }

  lemma EndStops(end: End, tail: string)
    requires EndOk(end, tail)
    ensures Stops(EndText(end) + tail)
  {}

  lemma FirstCell(cells: seq<Cell>, rest: string)
    requires |cells| > 1
    ensures CellsText(cells) + rest == CellText(cells[0]) + ("," + (CellsText(cells[1..]) + rest))
    ensures Values(cells) == [CellValue(cells[0])] + Values(cells[1..])
  {
    hide CellText, CellValue;
    Associative(CellText(cells[0]), "," + CellsText(cells[1..]), rest);
    Associative(",", CellsText(cells[1..]), rest);
  }

  lemma CommaNext(rest: string, fields: seq<string>, current: string, seen: bool)
    ensures Scan("," + rest, fields, current, false, seen) == Scan(rest, fields + [current], "", false, true)
  {
    assert ("," + rest)[1..] == rest;
  }

  /** A record in any of the forms the format allows, ended by CRLF, LF, CR or the end of the text, is read
      field by field up to its end exactly. */
  lemma AnyRecordRead(cells: seq<Cell>, end: End, tail: string)
    requires cells != [] && (forall i :: 0 <= i < |cells| ==> CellOk(cells[i])) && EndOk(end, tail)
    requires end == EndOfText ==> CellsText(cells) != ""
    ensures FirstRecord(CellsText(cells) + (EndText(end) + tail)) ==
      Record(Values(cells), tail, end != EndOfText && (end == Cr ==> tail != ""))
  {
    CellsScanned(cells, end, tail, [], false);
    assert [] + Values(cells) == Values(cells);
  }

  /** A quote that is never closed takes the rest of the text. */
  lemma {:induction false} OpenQuoteRead(inner: string, current: string)
    ensures Scan(Doubled(inner), [], current, true, true) == Record([current + inner], "", false)
    decreases |inner|
  {
    if inner == "" {
      assert current + inner == current;
    } else {
      var (c, more) := (inner[0], Doubled(inner[1..]));
      assert current + [c] + inner[1..] == current + inner;
      OpenQuoteRead(inner[1..], current + [c]);
      if c == '"' {
        assert Doubled(inner) == "\"\"" + more && Doubled(inner)[1..][1..] == more;
      } else {
        assert Doubled(inner)[1..] == more;
      }
    }
  }

  // ----- rows --------------------------------------------------------------------------------

  /** What a record has to be: five fields, the fourth an integer, the fifth a number; the first thing wrong is
      what is reported. */
  lemma ColumnsExact(fields: seq<string>)
    ensures |fields| != 5 ==> ToProduct(fields) == Err(FieldCount(|fields|))
    ensures |fields| == 5 && FromChars(fields[3]).None? ==> ToProduct(fields) == Err(StockNotAnInteger(fields[3]))
    ensures |fields| == 5 && FromChars(fields[3]).Some? && Stof(fields[4]).None? ==>
      ToProduct(fields) == Err(QualityNotAFloat(fields[4]))
    ensures |fields| == 5 && FromChars(fields[3]).Some? && Stof(fields[4]).Some? ==>
      ToProduct(fields) == Ok(Product(fields[0], fields[1], fields[2], FromChars(fields[3]).value, Stof(fields[4]).value))
  {
    hide FromChars, Stof;
  }

  /** Records as the writer ends them. */
  function Lines(records: seq<seq<string>>): string {
    if records == [] then "" else Joined(records[0]) + (CRLF + Lines(records[1..]))
  }

  /** The first row that is not a product is the error, whatever follows it; rows that all are make up the
      list, in their order. */
  lemma {:induction false} FirstBadRow(records: seq<seq<string>>, tail: string)
    requires forall r <- records :: r != [] && ToProduct(r).Ok?
    ensures forall bad: seq<string> :: bad != [] && ToProduct(bad).Err? ==>
      ReadRows(Lines(records) + (Joined(bad) + (CRLF + tail)), true) == Err(ToProduct(bad).error)
    ensures ReadRows(Lines(records), true).Ok?
    ensures |ReadRows(Lines(records), true).value| == |records|
    ensures forall i :: 0 <= i < |records| ==> ReadRows(Lines(records), true).value[i] == ToProduct(records[i]).value
  {
    hide Joined, Scan, ToProduct;
    if records == [] {
      NothingScanned();
      forall bad: seq<string> | bad != [] && ToProduct(bad).Err?
        ensures ReadRows(Lines(records) + (Joined(bad) + (CRLF + tail)), true) == Err(ToProduct(bad).error)
      {
        assert Lines(records) + (Joined(bad) + (CRLF + tail)) == Joined(bad) + (CRLF + tail);
        LineRead(bad, tail);
      }
    } else {
      var (first, rest) := (records[0], Lines(records[1..]));
      assert first in records && forall r <- records[1..] :: r in records;
      FirstBadRow(records[1..], tail);
      LineRead(first, rest);
      forall bad: seq<string> | bad != [] && ToProduct(bad).Err?
        ensures ReadRows(Lines(records) + (Joined(bad) + (CRLF + tail)), true) == Err(ToProduct(bad).error)
      {
        var more := rest + (Joined(bad) + (CRLF + tail));
        assert Lines(records) + (Joined(bad) + (CRLF + tail)) == Joined(first) + (CRLF + more);
        LineRead(first, more);
      }
    }
  }

  lemma LineRead(fields: seq<string>, tail: string)
    requires fields != []
    ensures ReadRows(Joined(fields) + (CRLF + tail), true) ==
      if ToProduct(fields).Err? then Err(ToProduct(fields).error)
      else Prepended([ToProduct(fields).value], ReadRows(tail, true))
  {
    hide Joined, Scan, ToProduct;
    RecordScanned(fields, tail, [], false);
    assert [] + fields == fields;
  }

  /** An empty line is a row with one field. */
  lemma EmptyLineRead(tail: string)
    ensures ReadRows("\n" + tail, true) == Err(FieldCount(1)) == ReadRows("\r\n" + tail, true)
  {
    AnyRecordRead([Bare("")], Lf, tail);
    AnyRecordRead([Bare("")], CrLf, tail);
    assert "" + ("\n" + tail) == "\n" + tail && "" + ("\r\n" + tail) == "\r\n" + tail;
    assert |Values([Bare("")])| == 1;
    hide Scan;
  }

  /** The mark is optional: without it a text reads the same, unless the text itself starts with the mark's
      first character. */
  lemma MarkIsOptional(text: string)
    requires text == "" || text[0] != '\U{EF}'
    ensures ReadCsv("\U{EF}\U{BB}\U{BF}" + text) == ReadCsv(text)
  {
    var marked := "\U{EF}\U{BB}\U{BF}" + text;
    assert marked[..3] == BOM && marked[3..] == text;
    hide FirstRecord, ReadRows;
  }
}
