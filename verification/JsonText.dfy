/** The product format as text (src/integration/JsonSerializer.cpp; RFC 8259): what the writer prints and
    what the reader accepts, as functions of the text. */
module JsonText {
  import opened Wrappers
  import opened DecimalText
  import opened Products

  // ----- writing -----------------------------------------------------------------------------

  function HexDigit(d: nat): char
    requires d < 16
  {
    if d < 10 then '0' + d as char else 'a' + (d - 10) as char
  }

  /** The controls with an escape letter of their own. */
  function Letter(c: char): Option<char> {
    if c == '"' then Some('"')
    else if c == '\\' then Some('\\')
    else if c == '\U{08}' then Some('b')
    else if c == '\U{0C}' then Some('f')
    else if c == '\n' then Some('n')
    else if c == '\r' then Some('r')
    else if c == '\t' then Some('t')
    else None
  }

  function EscapedChar(c: char): (r: string)
    ensures r != ""
  {
    if Letter(c).Some? then ['\\', Letter(c).value]
    else if c < ' ' then "\\u00" + [HexDigit(c as int / 16), HexDigit(c as int % 16)]
    else [c]
  }

  function Escaped(s: string): string {
    if s == "" then "" else EscapedChar(s[0]) + Escaped(s[1..])
  }

  /** A member of the written object, in the writer's order. */
  datatype Member = Code(text: string) | Name(text: string) | Status(text: string) | Stock(n: int32) | Rate(r: real)

  function Members(p: Product): seq<Member> {
    [Code(p.productCode), Name(p.name), Status(p.status), Stock(p.stock), Rate(p.qualityRate)]
  }

  function Key(m: Member): string {
    match m
    case Code(_) => "productCode"
    case Name(_) => "name"
    case Status(_) => "status"
    case Stock(_) => "stock"
    case Rate(_) => "qualityRate"
  }

  function ValueText(m: Member): string {
    match m
    case Stock(n) => Decimal(n)
    case Rate(r) => RateText(r)
    case _ => "\"" + (Escaped(m.text) + "\"")
  }

  function MemberText(m: Member): string {
    "\n" + ("    \"" + (Key(m) + ("\": " + ValueText(m))))
  }

  /** Members from `first` on, to the end of the object. */
  function MembersText(ms: seq<Member>, first: bool): string {
    if ms == [] then "\n  }"
    else (if first then "" else ",") + (MemberText(ms[0]) + MembersText(ms[1..], false))
  }

  function ObjectText(p: Product): string {
    "  {" + MembersText(Members(p), true)
  }

  /** The objects, and the end of the array. */
  function ObjectsText(ps: seq<Product>): string {
    if ps == [] then "]\n"
    else ObjectText(ps[0]) + ((if |ps| > 1 then ",\n" else "\n") + ObjectsText(ps[1..]))
  }

  function Json(ps: seq<Product>): string {
    if ps == [] then "[]\n" else "[\n" + ObjectsText(ps)
  }

  // ----- reading -----------------------------------------------------------------------------

  datatype JsonError =
    | Expected(c: char)
    | EndInString
    | UnicodeEscape
    | BadEscape
    | ExpectedNumber
    | StockNotAnInteger
    | QualityNotAFloat
    | BetweenObjects

  /** A value and the text after it. */
  datatype Parsed<T> = Parsed(value: T, rest: string)

  predicate Blank(c: char) {
    c == ' ' || c == '\t' || c == '\n' || c == '\r'
  }

  function SkipWs(s: string): (r: string)
    ensures |r| <= |s| && (r != "" ==> !Blank(r[0]))
  {
    if s != "" && Blank(s[0]) then SkipWs(s[1..]) else s
  }

  function Expect(s: string, c: char): (r: Result<string, JsonError>)
    ensures r.Ok? ==> |r.value| < |s|
  {
    var t := SkipWs(s);
    if t != "" && t[0] == c then Ok(t[1..]) else Err(Expected(c))
  }

  function Unletter(c: char): Option<char> {
    if c == '"' || c == '\\' || c == '/' then Some(c)
    else if c == 'b' then Some('\U{08}')
    else if c == 'f' then Some('\U{0C}')
    else if c == 'n' then Some('\n')
    else if c == 'r' then Some('\r')
    else if c == 't' then Some('\t')
    else None
  }

  /** The rest of a string literal, up to its closing quote. */
  function Unescape(s: string, out: string): (r: Result<Parsed<string>, JsonError>)
    ensures r.Ok? ==> |r.value.rest| < |s|
  {
    if s == "" then Err(EndInString)
    else if s[0] == '"' then Ok(Parsed(out, s[1..]))
    else if s[0] != '\\' then Unescape(s[1..], out + [s[0]])
    else if |s| == 1 then Err(BadEscape)
    else if s[1] == 'u' then Err(UnicodeEscape)
    else
      match Unletter(s[1])
      case None => Err(BadEscape)
      case Some(c) => Unescape(s[2..], out + [c])
  }

  function ParseString(s: string): (r: Result<Parsed<string>, JsonError>)
    ensures r.Ok? ==> |r.value.rest| < |s|
  {
    match Expect(s, '"')
    case Err(e) => Err(e)
    case Ok(t) => Unescape(t, "")
  }

  predicate NumberChar(c: char) {
    IsDigit(c) || c == '-' || c == '+' || c == '.' || c == 'e' || c == 'E'
  }

  function NumberRun(s: string): (n: nat)
    ensures n <= |s|
  {
    if s != "" && NumberChar(s[0]) then 1 + NumberRun(s[1..]) else 0
  }

  function ParseNumber(s: string): (r: Result<Parsed<string>, JsonError>)
    ensures r.Ok? ==> |r.value.rest| < |s|
  {
    var t := SkipWs(s);
    var n := NumberRun(t);
    if n == 0 then Err(ExpectedNumber) else Ok(Parsed(t[..n], t[n..]))
  }

  /** A value by its key; the value of an unknown key is read and dropped. */
  function ReadValue(s: string, key: string, p: Product): (r: Result<Parsed<Product>, JsonError>)
    ensures r.Ok? ==> |r.value.rest| < |s|
  {
    if key == "productCode" || key == "name" || key == "status" then
      match ParseString(s)
      case Err(e) => Err(e)
      case Ok(v) =>
        Ok(Parsed(if key == "productCode" then p.(productCode := v.value)
                  else if key == "name" then p.(name := v.value)
                  else p.(status := v.value), v.rest))
    else if key == "stock" || key == "qualityRate" then
      match ParseNumber(s)
      case Err(e) => Err(e)
      case Ok(v) =>
        if key == "stock" then
          match FromChars(v.value)
          case None => Err(StockNotAnInteger)
          case Some(n) => Ok(Parsed(p.(stock := n), v.rest))
        else
          match Stof(v.value)
          case None => Err(QualityNotAFloat)
          case Some(x) => Ok(Parsed(p.(qualityRate := x), v.rest))
    else
      match if SkipWs(s) != "" && SkipWs(s)[0] == '"' then ParseString(s) else ParseNumber(s)
      case Err(e) => Err(e)
      case Ok(v) => Ok(Parsed(p, v.rest))
  }

  /** One member: its key, a colon and its value. */
  function ReadMember(s: string, p: Product): (r: Result<Parsed<Product>, JsonError>)
    ensures r.Ok? ==> |r.value.rest| < |s|
  {
    match ParseString(s)
    case Err(e) => Err(e)
    case Ok(key) =>
      match Expect(key.rest, ':')
      case Err(e) => Err(e)
      case Ok(t) => ReadValue(t, key.value, p)
  }

  /** The members up to the closing brace, with a comma before each but the first. */
  function ReadMembers(s: string, p: Product, first: bool): (r: Result<Parsed<Product>, JsonError>)
    ensures r.Ok? ==> |r.value.rest| < |s|
    decreases |s|
  {
    var t := SkipWs(s);
    if t != "" && t[0] == '}' then Ok(Parsed(p, t[1..]))
    else
      match if first then Ok(t) else Expect(t, ',')
      case Err(e) => Err(e)
      case Ok(u) =>
        match ReadMember(u, p)
        case Err(e) => Err(e)
        case Ok(v) => ReadMembers(v.rest, v.value, false)
  }

  function ReadObject(s: string, blank: Product): (r: Result<Parsed<Product>, JsonError>)
    ensures r.Ok? ==> |r.value.rest| < |s|
  {
    match Expect(s, '{')
    case Err(e) => Err(e)
    case Ok(t) => ReadMembers(t, blank, true)
  }

  function ReadObjects(s: string, blank: Product): Result<seq<Product>, JsonError>
    decreases |s|
  {
    match ReadObject(s, blank)
    case Err(e) => Err(e)
    case Ok(v) =>
      var t := SkipWs(v.rest);
      if t != "" && t[0] == ']' then Ok([v.value])
      else if t == "" || t[0] != ',' then Err(BetweenObjects)
      else Prepended([v.value], ReadObjects(t[1..], blank))
  }

  /** The reader. `blank` is what a product holds before any member is read: its numbers are
      whatever the memory held. */
  function ReadJson(s: string, blank: Product): Result<seq<Product>, JsonError> {
    match Expect(s, '[')
    case Err(e) => Err(e)
    case Ok(t) =>
      var u := SkipWs(t);
      if u != "" && u[0] == ']' then Ok([]) else ReadObjects(u, blank)
  }
}
