/** The serializer as the code runs it (src/integration/JsonSerializer.cpp): loops over a character
    stream, each proved to do what the text functions say. */
module JsonSerializer {
  import opened Wrappers
  import opened Sequences
  import opened DecimalText
  import opened Products
  import opened TextInput
  import opened JsonText

  method SkipBlanks(input: Input)
    requires input.Valid()
    modifies input
    ensures input.Valid() && input.rest == SkipWs(old(input.rest))
  {
    while input.good
      invariant input.Valid() && SkipWs(input.rest) == SkipWs(old(input.rest))
      decreases |input.rest|, input.good
    {
      var c := input.Peek();
      if c.Some? && Blank(c.value) {
        var _ := input.Get();
      } else {
        return;
      }
    }
  }

  method ExpectChar(input: Input, c: char) returns (r: Result<(), JsonError>)
    requires input.Valid()
    modifies input
    ensures input.Valid()
    ensures match Expect(old(input.rest), c)
      case Err(e) => r == Err(e)
      case Ok(rest) => r == Ok(()) && input.rest == rest
  {
    SkipBlanks(input);
    var got := input.Get();
    return if got == Some(c) then Ok(()) else Err(Expected(c));
  }

  /** The reader's result in the parsers' terms. */
  ghost predicate Reads<T>(r: Result<T, JsonError>, rest: string, spec: Result<Parsed<T>, JsonError>) {
    match spec
    case Err(e) => r == Err(e)
    case Ok(v) => r == Ok(v.value) && rest == v.rest
  }

  method ReadString(input: Input) returns (r: Result<string, JsonError>)
    requires input.Valid()
    modifies input
    ensures input.Valid() && Reads(r, input.rest, ParseString(old(input.rest)))
  {
    var start := ExpectChar(input, '"');
    if start.Err? {
      return Err(start.error);
    }
    var out := "";
    while true
      invariant input.Valid() && Unescape(input.rest, out) == ParseString(old(input.rest))
      decreases |input.rest|
    {
      ghost var was := input.rest;
      var c := input.Get();
      if c == None {
        return Err(EndInString);
      }
      if c.value == '"' {
        return Ok(out);
      }
      if c.value == '\\' {
        var esc := input.Get();
        if esc == None {
          return Err(BadEscape);
        }
        if esc.value == 'u' {
          return Err(UnicodeEscape);
        }
        var plain := Unletter(esc.value);
        if plain == None {
          return Err(BadEscape);
        }
        assert was[2..] == input.rest;
        out := out + [plain.value];
        continue;
      }
      out := out + [c.value];
    }
  }

  method ReadNumber(input: Input) returns (r: Result<string, JsonError>)
    requires input.Valid()
    modifies input
    ensures input.Valid() && Reads(r, input.rest, ParseNumber(old(input.rest)))
  {
    SkipBlanks(input);
    ghost var t := input.rest;
    var out := "";
    assert t[..0] == "" && t[0..] == t;
    while input.good
      invariant input.Valid() && |out| <= |t| && out == t[..|out|] && input.rest == t[|out|..]
      invariant NumberRun(t) == |out| + NumberRun(input.rest)
      decreases |input.rest|, input.good
    {
      var c := input.Peek();
      if c == None {
        break;
      }
      if !NumberChar(c.value) {
        break;
      }
      assert t[|out|..][1..] == t[|out| + 1..];
      out := out + [c.value];
      var _ := input.Get();
    }
    return if out == "" then Err(ExpectedNumber) else Ok(out);
  }

  method ReadFieldValue(input: Input, key: string, p: Product) returns (r: Result<Product, JsonError>)
    requires input.Valid()
    modifies input
    ensures input.Valid() && Reads(r, input.rest, ReadValue(old(input.rest), key, p))
  {
    hide ParseString, ParseNumber, FromChars, Stof;
    SkippedFirst(input.rest, key, p);
    SkipBlanks(input);
    if key == "productCode" {
      var v := ReadString(input);
      return if v.Err? then Err(v.error) else Ok(p.(productCode := v.value));
    }
    if key == "name" {
      var v := ReadString(input);
      return if v.Err? then Err(v.error) else Ok(p.(name := v.value));
    }
    if key == "status" {
      var v := ReadString(input);
      return if v.Err? then Err(v.error) else Ok(p.(status := v.value));
    }
    if key == "stock" {
      var v := ReadNumber(input);
      if v.Err? {
        return Err(v.error);
      }
      var n := FromChars(v.value);
      return if n.None? then Err(StockNotAnInteger) else Ok(p.(stock := n.value));
    }
    if key == "qualityRate" {
      var v := ReadNumber(input);
      if v.Err? {
        return Err(v.error);
      }
      var x := Stof(v.value);
      return if x.None? then Err(QualityNotAFloat) else Ok(p.(qualityRate := x.value));
    }
    var c := input.Peek();
    var v: Result<string, JsonError>;
    if c == Some('"') {
      v := ReadString(input);
    } else {
      v := ReadNumber(input);
    }
    return if v.Err? then Err(v.error) else Ok(p);
  }

  lemma SkippedFirst(s: string, key: string, p: Product)
    ensures ReadValue(SkipWs(s), key, p) == ReadValue(s, key, p)
    ensures SkipWs(SkipWs(s)) == SkipWs(s)
  {
    hide FromChars, Stof;
    assert SkipWs(SkipWs(s)) == SkipWs(s);
  }

  method ReadOneMember(input: Input, p: Product) returns (r: Result<Product, JsonError>)
    requires input.Valid()
    modifies input
    ensures input.Valid() && Reads(r, input.rest, ReadMember(old(input.rest), p))
  {
    hide ParseString, Expect, ReadValue;
    var key := ReadString(input);
    if key.Err? {
      return Err(key.error);
    }
    var colon := ExpectChar(input, ':');
    if colon.Err? {
      return Err(colon.error);
    }
    r := ReadFieldValue(input, key.value, p);
  }

  method ReadOneObject(input: Input, blank: Product) returns (r: Result<Product, JsonError>)
    requires input.Valid()
    modifies input
    ensures input.Valid() && Reads(r, input.rest, ReadObject(old(input.rest), blank))
  {
    hide ReadMember;
    var start := ExpectChar(input, '{');
    if start.Err? {
      return Err(start.error);
    }
    var p, first := blank, true;
    while true
      invariant input.Valid() && ReadMembers(input.rest, p, first) == ReadObject(old(input.rest), blank)
      decreases |input.rest|
    {
      SkipBlanks(input);
      var c := input.Peek();
      if c == Some('}') {
        var _ := input.Get();
        return Ok(p);
      }
      if !first {
        var comma := ExpectChar(input, ',');
        if comma.Err? {
          return Err(comma.error);
        }
      }
      first := false;
      var next := ReadOneMember(input, p);
      if next.Err? {
        return Err(next.error);
      }
      p := next.value;
    }
  }

  method ReadProducts(input: Input, blank: Product) returns (r: Result<seq<Product>, JsonError>)
    requires input.Valid()
    modifies input
    ensures r == ReadJson(old(input.rest), blank)
  {
    hide ReadObject;
    var start := ExpectChar(input, '[');
    if start.Err? {
      return Err(start.error);
    }
    SkipBlanks(input);
    var c := input.Peek();
    if c == Some(']') {
      return Ok([]);
    }
    var result: seq<Product> := [];
    PrependNothing(ReadObjects(input.rest, blank));
    while true
      invariant input.Valid()
      invariant ReadJson(old(input.rest), blank) == Prepended(result, ReadObjects(input.rest, blank))
      decreases |input.rest|
    {
      var p := ReadOneObject(input, blank);
      if p.Err? {
        return Err(p.error);
      }
      SkipBlanks(input);
      var after := input.Get();
      if after == Some(']') {
        return Ok(result + [p.value]);
      }
      if after != Some(',') {
        return Err(BetweenObjects);
      }
      PrependStep(result, p.value, ReadObjects(input.rest, blank));
      result := result + [p.value];
    }
  }

  method EscapeString(s: string) returns (out: string)
    ensures out == Escaped(s)
  {
    hide EscapedChar;
    out := "";
    assert s[0..] == s;
    for i := 0 to |s|
      invariant out + Escaped(s[i..]) == Escaped(s)
    {
      assert s[i..][1..] == s[i + 1..];
      Associative(out, EscapedChar(s[i]), Escaped(s[i + 1..]));
      out := out + EscapedChar(s[i]);
    }
    assert out + "" == out;
  }

  method WriteProducts(ps: seq<Product>) returns (out: string)
    ensures out == Json(ps)
  {
    hide ObjectText;
    if ps == [] {
      return "[]\n";
    }
    out := "[\n";
    assert ps[0..] == ps;
    for i := 0 to |ps|
      invariant out + ObjectsText(ps[i..]) == Json(ps)
    {
      var one := WriteObject(ps[i]);
      var end := if i + 1 < |ps| then ",\n" else "\n";
      assert ps[i..][1..] == ps[i + 1..];
      Associative(out, one, end + ObjectsText(ps[i + 1..]));
      Associative(out + one, end, ObjectsText(ps[i + 1..]));
      out := out + one + end;
    }
    out := out + "]\n";
  }

  method WriteObject(p: Product) returns (out: string)
    ensures out == ObjectText(p)
  {
    hide Escaped, Decimal, RateText, MemberText, MembersText;
    var code := EscapeString(p.productCode);
    var name := EscapeString(p.name);
    var status := EscapeString(p.status);
    ghost var ms := Members(p);
    MembersStart(p);
    out := "  {";
    AppendMember(out, ms, true);
    TextLine(Code(p.productCode), "    \"productCode\": \"");
    out := out + ("" + ("\n" + ("    \"productCode\": \"" + (code + "\""))));
    AppendMember(out, ms[1..], false);
    TextLine(Name(p.name), "    \"name\": \"");
    out := out + ("," + ("\n" + ("    \"name\": \"" + (name + "\""))));
    AppendMember(out, ms[1..][1..], false);
    TextLine(Status(p.status), "    \"status\": \"");
    out := out + ("," + ("\n" + ("    \"status\": \"" + (status + "\""))));
    AppendMember(out, ms[1..][1..][1..], false);
    StockLine(p.stock);
    out := out + ("," + ("\n" + ("    \"stock\": " + Decimal(p.stock))));
    AppendMember(out, ms[1..][1..][1..][1..], false);
    RateLine(p.qualityRate);
    out := out + ("," + ("\n" + ("    \"qualityRate\": " + RateText(p.qualityRate))));
    MembersDone();
    assert ms[1..][1..][1..][1..][1..] == [];
    out := out + ("\n" + "  }");
  }

  lemma MembersStart(p: Product)
    ensures ObjectText(p) == "  {" + MembersText(Members(p), true)
  {}

  lemma MembersDone()
    ensures MembersText([], false) == "\n" + "  }"
  {}

  lemma AppendMember(out: string, ms: seq<Member>, first: bool)
    requires ms != []
    ensures out + MembersText(ms, first) ==
      out + ((if first then "" else ",") + MemberText(ms[0])) + MembersText(ms[1..], false)
  {
    hide MemberText;
    var separator := if first then "" else ",";
    Associative(separator, MemberText(ms[0]), MembersText(ms[1..], false));
    Associative(out, separator + MemberText(ms[0]), MembersText(ms[1..], false));
  }

  /** The line of a text member begins with its key in quotes, a colon and the opening quote. */
  lemma TextLine(m: Member, start: string)
    requires !m.Stock? && !m.Rate? && start == "    \"" + (Key(m) + "\": \"")
    ensures MemberText(m) == "\n" + (start + (Escaped(m.text) + "\""))
  {
    hide Escaped, Key;
    var value := Escaped(m.text) + "\"";
    assert "\": \"" == "\": " + "\"";
    Associative("    \"", Key(m) + "\": \"", value);
    Associative(Key(m), "\": \"", value);
    Associative("\": ", "\"", value);
  }

  lemma StockLine(n: int32)
    ensures MemberText(Stock(n)) == "\n" + ("    \"stock\": " + Decimal(n))
  {
    hide Decimal;
    assert MemberText(Stock(n)) == "\n" + ("    \"" + ("stock" + ("\": " + Decimal(n))));
  }

  lemma RateLine(r: real)
    ensures MemberText(Rate(r)) == "\n" + ("    \"qualityRate\": " + RateText(r))
  {
    hide RateText;
    assert MemberText(Rate(r)) == "\n" + ("    \"" + ("qualityRate" + ("\": " + RateText(r))));
  }
}
