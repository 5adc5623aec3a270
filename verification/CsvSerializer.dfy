/** Products as comma-separated text (src/integration/CsvSerializer.cpp; RFC 4180 section 2): fields
    quoted where they must be, records ended by CRLF, a byte-order mark in front. */
module CsvSerializer {
  import opened Wrappers
  import opened Sequences
  import opened DecimalText
  import opened Products
  import opened TextInput

  const BOM: string := "\U{EF}\U{BB}\U{BF}"
  const CRLF: string := "\r\n"

  // ----- writing -----------------------------------------------------------------------------

  predicate Special(c: char) {
    c == ',' || c == '"' || c == '\n' || c == '\r'
  }

  predicate NeedsQuoting(field: string) {
    exists i :: 0 <= i < |field| && Special(field[i])
  }

  function Doubled(field: string): string {
    if field == "" then ""
    else if field[0] == '"' then "\"\"" + Doubled(field[1..])
    else [field[0]] + Doubled(field[1..])
  }

  function Escaped(field: string): string {
    if NeedsQuoting(field) then "\"" + (Doubled(field) + "\"") else field
  }

  function Joined(fields: seq<string>): string {
    if fields == [] then ""
    else if |fields| == 1 then Escaped(fields[0])
    else Escaped(fields[0]) + ("," + Joined(fields[1..]))
  }

  /** The columns of a product; the numbers need no quotes. */
  function Columns(p: Product): seq<string> {
    [p.productCode, p.name, p.status, Decimal(p.stock), RateText(p.qualityRate)]
  }

  function Rows(ps: seq<Product>): string {
    if ps == [] then "" else Joined(Columns(ps[0])) + (CRLF + Rows(ps[1..]))
  }

  function Csv(header: seq<string>, ps: seq<Product>): string {
    BOM + (Joined(header) + (CRLF + Rows(ps)))
  }

  // ----- reading -----------------------------------------------------------------------------

  /** One record, what follows it, and whether the stream can still be read. */
  datatype Record = Record(fields: seq<string>, rest: string, good: bool)

  /** The field scanner: fields so far, the open field, whether inside quotes, and whether any
      character of the record has been seen. */
  function Scan(s: string, fields: seq<string>, current: string, inQuotes: bool, seen: bool): (r: Record)
    ensures |r.rest| <= |s| && (s != "" ==> |r.rest| < |s|) && (!r.good ==> r.rest == "")
    ensures s == "" && !seen && fields == [] ==> r.fields == []
    decreases |s|
  {
    if s == "" then Record(if seen || fields != [] then fields + [current] else fields, "", false)
    else
      var c, t := s[0], s[1..];
      if inQuotes then
        if c != '"' then Scan(t, fields, current + [c], true, true)
        else if t != "" && t[0] == '"' then Scan(t[1..], fields, current + "\"", true, true)
        else Scan(t, fields, current, false, true)
      else if c == ',' then Scan(t, fields + [current], "", false, true)
      else if c == '\r' then
        if t != "" && t[0] == '\n' then Record(fields + [current], t[1..], true)
        else Record(fields + [current], t, t != "")
      else if c == '\n' then Record(fields + [current], t, true)
      else if c == '"' && current == "" then Scan(t, fields, current, true, true)
      else Scan(t, fields, current + [c], false, true)
  }

  function FirstRecord(s: string): Record {
    Scan(s, [], "", false, false)
  }

  datatype CsvError = FieldCount(count: nat) | StockNotAnInteger(text: string) | QualityNotAFloat(text: string)

  function ToProduct(fields: seq<string>): Result<Product, CsvError> {
    if |fields| != 5 then Err(FieldCount(|fields|))
    else
      match FromChars(fields[3])
      case None => Err(StockNotAnInteger(fields[3]))
      case Some(stock) =>
        match Stof(fields[4])
        case None => Err(QualityNotAFloat(fields[4]))
        case Some(rate) => Ok(Product(fields[0], fields[1], fields[2], stock, rate))
  }

  /** The rows up to the end of the text, or the first error. */
  function ReadRows(s: string, good: bool): Result<seq<Product>, CsvError>
    decreases |s|
  {
    var record := FirstRecord(s);
    if !good || record.fields == [] then Ok([])
    else
      match ToProduct(record.fields)
      case Err(e) => Err(e)
      case Ok(p) =>
        Prepended([p], ReadRows(record.rest, record.good))
  }

  /** After the mark, if there is one. A text of one or two characters that starts like the mark is
      lost: the mark's read fails and the characters cannot be put back. */
  function AfterBom(text: string): string {
    if text == "" || text[0] != BOM[0] then text
    else if |text| < 3 then ""
    else if text[..3] == BOM then text[3..]
    else text
  }

  function ReadCsv(text: string): Result<seq<Product>, CsvError> {
    var header := FirstRecord(AfterBom(text));
    ReadRows(header.rest, header.good)
  }

  // ----- round trip --------------------------------------------------------------------------

  predicate Plain(field: string) {
    forall i :: 0 <= i < |field| ==> !Special(field[i])
  }

  /** What stands after a field: a comma or the end of the line. */
  predicate EndsField(rest: string) {
    rest != "" && (rest[0] == ',' || rest[0] == '\r' || rest[0] == '\n')
  }

  lemma {:induction false} PlainScanned(field: string, rest: string, fields: seq<string>, current: string, seen: bool)
    requires Plain(field) && EndsField(rest)
    ensures Scan(field + rest, fields, current, false, seen) == Scan(rest, fields, current + field, false, true)
    decreases |field|
  {
    if field == "" {
      assert field + rest == rest && current + field == current;
    } else {
      assert !Special(field[0]);
      assert (field + rest)[0] == field[0] && (field + rest)[1..] == field[1..] + rest;
      PlainScanned(field[1..], rest, fields, current + [field[0]], true);
      assert current + [field[0]] + field[1..] == current + field;
    }
  }

  lemma {:induction false} DoubledScanned(field: string, rest: string, fields: seq<string>, current: string)
    requires EndsField(rest)
    ensures Scan(Doubled(field) + ("\"" + rest), fields, current, true, true) ==
      Scan(rest, fields, current + field, false, true)
    decreases |field|
  {
    var s := Doubled(field) + ("\"" + rest);
    if field == "" {
      assert s[0] == '"' && s[1..] == rest && current + field == current;
    } else {
      var t := Doubled(field[1..]) + ("\"" + rest);
      DoubledScanned(field[1..], rest, fields, current + [field[0]]);
      assert current + [field[0]] + field[1..] == current + field;
      if field[0] == '"' {
        assert s[0] == '"' && s[1] == '"' && s[1..][1..] == t;
      } else {
        assert s[0] == field[0] && s[1..] == t;
      }
    }
  }

  lemma QuoteOpens(rest: string, fields: seq<string>, seen: bool)
    ensures Scan("\"" + rest, fields, "", false, seen) == Scan(rest, fields, "", true, true)
  {
    assert ("\"" + rest)[1..] == rest;
  }

  /** The scanner inverts the escaping of any field and stops where the field does. */
  lemma FieldScanned(field: string, rest: string, fields: seq<string>, seen: bool)
    requires EndsField(rest)
    ensures Scan(Escaped(field) + rest, fields, "", false, seen) == Scan(rest, fields, field, false, true)
  {
    hide Scan, Doubled;
    assert "" + field == field;
    if NeedsQuoting(field) {
      var inner := Doubled(field) + ("\"" + rest);
      assert Escaped(field) + rest == "\"" + inner;
      QuoteOpens(inner, fields, seen);
      DoubledScanned(field, rest, fields, "");
    } else {
      PlainScanned(field, rest, fields, "", seen);
    }
  }

  /** A joined record is read back field for field, up to its terminator exactly. */
  lemma {:induction false} RecordScanned(record: seq<string>, tail: string, fields: seq<string>, seen: bool)
    requires record != []
    ensures Scan(Joined(record) + (CRLF + tail), fields, "", false, seen) == Record(fields + record, tail, true)
    decreases |record|
  {
    hide Scan, Escaped;
    var end := CRLF + tail;
    if |record| == 1 {
      FieldScanned(record[0], end, fields, seen);
      LineEnds(tail, fields, record[0]);
      assert [record[0]] == record;
    } else {
      var rest := "," + (Joined(record[1..]) + end);
      assert Joined(record) + end == Escaped(record[0]) + rest;
      FieldScanned(record[0], rest, fields, seen);
      CommaStarts(Joined(record[1..]) + end, fields, record[0]);
      RecordScanned(record[1..], tail, fields + [record[0]], true);
      assert fields + [record[0]] + record[1..] == fields + record;
    }
  }

  lemma LineEnds(tail: string, fields: seq<string>, current: string)
    ensures Scan(CRLF + tail, fields, current, false, true) == Record(fields + [current], tail, true)
  {
    assert (CRLF + tail)[1..] == "\n" + tail && ("\n" + tail)[1..] == tail;
  }

  lemma CommaStarts(rest: string, fields: seq<string>, current: string)
    ensures Scan("," + rest, fields, current, false, true) == Scan(rest, fields + [current], "", false, true)
  {
    assert ("," + rest)[1..] == rest;
  }

  lemma HeaderScanned(header: seq<string>, tail: string)
    ensures FirstRecord(Joined(header) + (CRLF + tail)).rest == tail
    ensures FirstRecord(Joined(header) + (CRLF + tail)).good
  {
    if header == [] {
      var s := Joined(header) + (CRLF + tail);
      assert s == CRLF + tail;
      assert s[1..] == "\n" + tail && ("\n" + tail)[1..] == tail;
    } else {
      RecordScanned(header, tail, [], false);
    }
  }

  lemma ColumnsRead(p: Product)
    ensures ToProduct(Columns(p)) == Ok(Rounded(p))
  {
    hide FromChars, Stof, Decimal, RateText;
    IntegerReads(p.stock, "");
    RateReads(p.qualityRate, "");
    assert Decimal(p.stock) + "" == Decimal(p.stock) && RateText(p.qualityRate) + "" == RateText(p.qualityRate);
  }

  lemma {:induction false} RowsRead(ps: seq<Product>)
    ensures ReadRows(Rows(ps), true) == Ok(AllRounded(ps))
    decreases |ps|
  {
    hide Joined, Scan, ToProduct;
    if ps == [] {
      NothingScanned();
    } else {
      var s := Joined(Columns(ps[0])) + (CRLF + Rows(ps[1..]));
      RecordScanned(Columns(ps[0]), Rows(ps[1..]), [], false);
      assert [] + Columns(ps[0]) == Columns(ps[0]);
      ColumnsRead(ps[0]);
      RowsRead(ps[1..]);
    }
  }

  lemma NothingScanned()
    ensures FirstRecord("").fields == []
  {}

  /** Reading what was written gives back every product: any text in any field, stocks exactly,
      rates to the tenth. */
  lemma CsvRoundTrip(header: seq<string>, ps: seq<Product>)
    ensures ReadCsv(Csv(header, ps)) == Ok(AllRounded(ps))
  {
    hide Joined, Rows, FirstRecord, ReadRows;
    var body := Joined(header) + (CRLF + Rows(ps));
    assert Csv(header, ps)[..3] == BOM && Csv(header, ps)[3..] == body;
    HeaderScanned(header, Rows(ps));
    RowsRead(ps);
  }

  // ----- the serializer ----------------------------------------------------------------------

  method EscapeField(field: string) returns (out: string)
    ensures out == Escaped(field)
  {
    var needsQuoting := false;
    for i := 0 to |field|
      invariant !needsQuoting
      invariant Plain(field[..i])
    {
      if Special(field[i]) {
        needsQuoting := true;
        break;
      }
    }
    if !needsQuoting {
      assert field[..|field|] == field;
      return field;
    }
    out := "\"";
    assert field[0..] == field && NeedsQuoting(field);
    for i := 0 to |field|
      invariant out + (Doubled(field[i..]) + "\"") == Escaped(field)
    {
      ghost var rest := Doubled(field[i + 1..]) + "\"";
      assert field[i..][1..] == field[i + 1..];
      if field[i] == '"' {
        assert Doubled(field[i..]) + "\"" == "\"\"" + rest;
        out := out + "\"\"";
      } else {
        assert Doubled(field[i..]) + "\"" == [field[i]] + rest;
        out := out + [field[i]];
      }
    }
    out := out + "\"";
  }

  class Serializer {
    const header: seq<string>

    constructor (header: seq<string>)
      ensures this.header == header
    {
      this.header := header;
    }

    method WriteHeader() returns (out: string)
      ensures out == BOM + Joined(header) + CRLF
    {
      hide Joined, Escaped;
      out := BOM;
      JoinedNothing();
      for i := 0 to |header|
        invariant out == BOM + Joined(header[..i])
      {
        if i > 0 {
          out := out + ",";
        }
        var field := EscapeField(header[i]);
        out := out + field;
        JoinedSnoc(header[..i], header[i]);
        assert header[..i + 1] == header[..i] + [header[i]];
      }
      assert header[..|header|] == header;
      out := out + CRLF;
    }

    method WriteProducts(ps: seq<Product>) returns (out: string)
      ensures out == Csv(header, ps)
    {
      hide Joined, Escaped;
      out := WriteHeader();
      Associative(BOM, Joined(header), CRLF);
      Associative(BOM, Joined(header) + CRLF, Rows(ps));
      Associative(Joined(header), CRLF, Rows(ps));
      assert ps[0..] == ps;
      for i := 0 to |ps|
        invariant out + Rows(ps[i..]) == Csv(header, ps)
      {
        var code := EscapeField(ps[i].productCode);
        var name := EscapeField(ps[i].name);
        var status := EscapeField(ps[i].status);
        var row := code + "," + name + "," + status + "," + Decimal(ps[i].stock) + "," + RateText(ps[i].qualityRate);
        RowIsJoined(ps[i]);
        assert ps[i..][1..] == ps[i + 1..];
        Associative(row, CRLF, Rows(ps[i + 1..]));
        Associative(out, row + CRLF, Rows(ps[i + 1..]));
        out := out + (row + CRLF);
      }
      assert out + "" == out;
    }

    method ParseRecord(input: Input) returns (fields: seq<string>)
      requires input.Valid()
      modifies input
      ensures input.Valid()
      ensures Record(fields, input.rest, input.good) == FirstRecord(old(input.rest))
    {
      fields := [];
      var current, inQuotes, sawAnyChar := "", false, false;
      while true
        invariant input.Valid()
        invariant Scan(input.rest, fields, current, inQuotes, sawAnyChar) == FirstRecord(old(input.rest))
        decreases |input.rest|
      {
        var next := input.Get();
        if next == None {
          if sawAnyChar || fields != [] {
            fields := fields + [current];
          }
          return;
        }
        sawAnyChar := true;
        var c := next.value;
        if inQuotes {
          if c == '"' {
            var following := input.Peek();
            if following == Some('"') {
              current := current + "\"";
              var _ := input.Get();
            } else {
              inQuotes := false;
            }
          } else {
            current := current + [c];
          }
          continue;
        }
        if c == ',' {
          fields := fields + [current];
          current := "";
        } else if c == '\r' {
          var following := input.Peek();
          if following == Some('\n') {
            var _ := input.Get();
          }
          fields := fields + [current];
          return;
        } else if c == '\n' {
          fields := fields + [current];
          return;
        } else if c == '"' && current == "" {
          inQuotes := true;
        } else {
          current := current + [c];
        }
      }
    }

    method SkipBom(input: Input)
      requires input.Valid()
      modifies input
      ensures input.Valid() && input.rest == AfterBom(old(input.rest))
    {
      var first := input.Peek();
      if first == Some(BOM[0]) {
        if |input.rest| < 3 {
          input.rest, input.good := "", false;
        } else if input.rest[..3] == BOM {
          input.rest := input.rest[3..];
        }
      }
    }

    method ReadProducts(input: Input) returns (r: Result<seq<Product>, CsvError>)
      requires input.Valid()
      modifies input
      ensures r == ReadCsv(old(input.rest))
    {
      hide Scan, ToProduct;
      SkipBom(input);
      var _ := ParseRecord(input);
      var out: seq<Product> := [];
      PrependNothing(ReadRows(input.rest, input.good));
      while input.good
        invariant input.Valid()
        invariant ReadCsv(old(input.rest)) == Prepended(out, ReadRows(input.rest, input.good))
        decreases |input.rest|, input.good
      {
        var fields := ParseRecord(input);
        if fields == [] {
          break;
        }
        var p := ToProduct(fields);
        if p.Err? {
          return Err(p.error);
        }
        PrependStep(out, p.value, ReadRows(input.rest, input.good));
        out := out + [p.value];
      }
      assert out + [] == out;
      return Ok(out);
    }
  }

  lemma JoinedNothing()
    ensures Joined([]) == ""
  {}

  lemma {:induction false} JoinedSnoc(fields: seq<string>, field: string)
    ensures Joined(fields + [field]) == Joined(fields) + (if fields == [] then "" else ",") + Escaped(field)
  {
    hide Escaped;
    if |fields| > 1 {
      JoinedSnoc(fields[1..], field);
      assert (fields + [field])[1..] == fields[1..] + [field];
    } else if |fields| == 1 {
      assert (fields + [field])[1..] == [field];
    } else {
      assert fields + [field] == [field];
    }
  }

  lemma PlainIsItself(s: string)
    requires NumberChars(s)
    ensures Escaped(s) == s
  {}

  lemma RowIsJoined(p: Product)
    ensures Joined(Columns(p)) == Escaped(p.productCode) + "," + Escaped(p.name) + "," + Escaped(p.status)
      + "," + Decimal(p.stock) + "," + RateText(p.qualityRate)
  {
    hide Escaped, Decimal, RateText;
    NumbersArePlain(p.stock, p.qualityRate);
    PlainIsItself(Decimal(p.stock));
    PlainIsItself(RateText(p.qualityRate));
    JoinedSnoc([], p.productCode);
    JoinedSnoc([p.productCode], p.name);
    JoinedSnoc([p.productCode, p.name], p.status);
    JoinedSnoc([p.productCode, p.name, p.status], Decimal(p.stock));
    JoinedSnoc([p.productCode, p.name, p.status, Decimal(p.stock)], RateText(p.qualityRate));
    assert [] + [p.productCode] == [p.productCode];
    assert [p.productCode] + [p.name] == [p.productCode, p.name];
    assert [p.productCode, p.name] + [p.status] == [p.productCode, p.name, p.status];
    assert [p.productCode, p.name, p.status] + [Decimal(p.stock)] == [p.productCode, p.name, p.status, Decimal(p.stock)];
    assert [p.productCode, p.name, p.status, Decimal(p.stock)] + [RateText(p.qualityRate)] == Columns(p);
  }
}
