/** The JSON format from outside (src/integration/JsonSerializer.cpp; RFC 8259): the writer's text to the
    character, and the reader on any layout: blanks anywhere between tokens, members in any order, repeated,
    missing, or with keys it does not know. */
module JsonLayout {
  import opened Wrappers
  import opened DecimalText
  import opened Products
  import opened JsonText
  import opened JsonRoundTrip
  import opened JsonSerializer

  // ----- writing -----------------------------------------------------------------------------

  /** How each character is written inside a string. */
  lemma EscapesExact(c: char)
    ensures Escaped([c]) ==
      if c == '"' then "\\\"" else if c == '\\' then "\\\\"
      else if c as int == 8 then "\\b" else if c as int == 12 then "\\f"
      else if c as int == 10 then "\\n" else if c as int == 13 then "\\r" else if c as int == 9 then "\\t"
      else if c as int < 32 then "\\u00" + ["01"[c as int / 16], "0123456789abcdef"[c as int % 16]]
      else [c]
  {
    assert [c][1..] == "";
    assert EscapedChar(c) + "" == EscapedChar(c);
    if c as int < 32 {
      HexDigits(c as int / 16);
      HexDigits(c as int % 16);
    }
  }

  lemma HexDigits(d: nat)
    requires d < 16
    ensures HexDigit(d) == "0123456789abcdef"[d]
    ensures d < 2 ==> "01"[d] == "0123456789abcdef"[d]
  {
    if d < 10 {
      assert "0123456789abcdef"[d] == '0' + d as char;
    } else {
      assert "0123456789abcdef"[d] == 'a' + (d - 10) as char;
    }
  }

  /** An object as it is written: two blanks, the keys in their order, each on a line of its own. */
  lemma ObjectLines(p: Product)
    ensures ObjectText(p) == "  {"
      + (("\n" + ("    \"productCode\": \"" + (Escaped(p.productCode) + "\"")))
      + (("," + ("\n" + ("    \"name\": \"" + (Escaped(p.name) + "\""))))
      + (("," + ("\n" + ("    \"status\": \"" + (Escaped(p.status) + "\""))))
      + (("," + ("\n" + ("    \"stock\": " + Decimal(p.stock))))
      + (("," + ("\n" + ("    \"qualityRate\": " + RateText(p.qualityRate))))
      + "\n  }")))))
  {
    hide Escaped, Decimal, RateText, MemberText, MembersText;
    TextLine(Code(p.productCode), "    \"productCode\": \"");
    TextLine(Name(p.name), "    \"name\": \"");
    TextLine(Status(p.status), "    \"status\": \"");
    StockLine(p.stock);
    RateLine(p.qualityRate);
    FiveMembers(Code(p.productCode), Name(p.name), Status(p.status), Stock(p.stock), Rate(p.qualityRate));
  }

  lemma FiveMembers(a: Member, b: Member, c: Member, d: Member, e: Member)
    ensures MembersText([a, b, c, d, e], true) ==
      MemberText(a) + (("," + MemberText(b)) + (("," + MemberText(c)) + (("," + MemberText(d)) + (("," + MemberText(e)) + "\n  }"))))
  {
    hide MemberText;
    assert [a, b, c, d, e][1..] == [b, c, d, e] && [b, c, d, e][1..] == [c, d, e] && [c, d, e][1..] == [d, e];
    assert [d, e][1..] == [e] && [e][1..] == [];
    assert MembersText([], false) == "\n  }";
    assert MembersText([e], false) == "," + (MemberText(e) + "\n  }");
    assert MembersText([d, e], false) == "," + (MemberText(d) + MembersText([e], false));
    assert MembersText([c, d, e], false) == "," + (MemberText(c) + MembersText([d, e], false));
    assert MembersText([b, c, d, e], false) == "," + (MemberText(b) + MembersText([c, d, e], false));
    assert MembersText([a, b, c, d, e], true) == "" + (MemberText(a) + MembersText([b, c, d, e], false));
  }

  /** An array as it is written. */
  lemma ArrayLines(p: Product, q: Product)
    ensures Json([]) == "[]\n" && Json([p]) == "[\n" + (ObjectText(p) + ("\n" + "]\n"))
    ensures Json([p, q]) == "[\n" + (ObjectText(p) + (",\n" + (ObjectText(q) + ("\n" + "]\n"))))
  {
    hide ObjectText;
    LastObject(p);
    LastObject(q);
    assert [p, q][1..] == [q];
    assert ObjectsText([p, q]) == ObjectText(p) + (",\n" + ObjectsText([q]));
    hide ObjectsText;
  }

  lemma LastObject(p: Product)
    ensures ObjectsText([p]) == ObjectText(p) + ("\n" + "]\n")
  {
    hide ObjectText;
    assert [p][1..] == [] && ObjectsText([]) == "]\n";
  }

  // ----- any layout --------------------------------------------------------------------------

  predicate Blanks(s: string) {
    forall i :: 0 <= i < |s| ==> s[i] == ' ' || s[i] == '\t' || s[i] == '\n' || s[i] == '\r'
  }

  datatype Value = Words(text: string) | Figures(text: string)

  /** A member with the blanks before its key, before and after its colon, and after its value. */
  datatype Entry = Entry(before: string, key: string, beforeColon: string, afterColon: string, value: Value, after: string)

  /** An object with the blanks before it, after its opening brace, and after it. */
  datatype Item = Item(before: string, inner: string, entries: seq<Entry>, after: string)

  // Every text is written with the text that follows it.

  function ValueThen(v: Value, tail: string): string {
    match v
    case Words(text) => "\"" + (Escaped(text) + ("\"" + tail))
    case Figures(text) => text + tail
  }

  function EntryThen(e: Entry, tail: string): string {
    e.before + ("\"" + (Escaped(e.key) + ("\"" + (e.beforeColon + (":" + (e.afterColon + ValueThen(e.value, e.after + tail)))))))
  }

  function EntriesThen(entries: seq<Entry>, tail: string): string
    requires entries != []
  {
    if |entries| == 1 then EntryThen(entries[0], tail)
    else EntryThen(entries[0], "," + EntriesThen(entries[1..], tail))
  }

  function ItemThen(o: Item, tail: string): string {
    o.before + ("{" + (o.inner + if o.entries == [] then "}" + (o.after + tail) else EntriesThen(o.entries, "}" + (o.after + tail))))
  }

  function ItemsThen(items: seq<Item>, tail: string): string
    requires items != []
  {
    if |items| == 1 then ItemThen(items[0], "]" + tail)
    else ItemThen(items[0], "," + ItemsThen(items[1..], tail))
  }

  predicate NumberText(s: string) {
    s != "" && forall i :: 0 <= i < |s| ==> '0' <= s[i] <= '9' || s[i] in "-+.eE"
  }

  /** The value is of the kind its key asks for; an unknown key may have a string or a number. */
  predicate ValueOk(key: string, v: Value) {
    && (v.Words? ==> Clean(v.text))
    && (v.Figures? ==> NumberText(v.text))
    && (key in ["productCode", "name", "status"] ==> v.Words?)
    && (key == "stock" ==> v.Figures? && FromChars(v.text).Some?)
    && (key == "qualityRate" ==> v.Figures? && Stof(v.text).Some?)
  }

  predicate EntryOk(e: Entry) {
    && Blanks(e.before) && Blanks(e.beforeColon) && Blanks(e.afterColon) && Blanks(e.after)
    && Clean(e.key) && ValueOk(e.key, e.value)
  }

  predicate EntriesOk(entries: seq<Entry>) {
    forall i :: 0 <= i < |entries| ==> EntryOk(entries[i])
  }

  predicate ItemOk(o: Item) {
    Blanks(o.before) && Blanks(o.inner) && Blanks(o.after) && EntriesOk(o.entries)
  }

  /** What one member says of the product; an unknown key says nothing. */
  function Filled(p: Product, key: string, v: Value): Product
    requires ValueOk(key, v)
  {
    if key == "productCode" then p.(productCode := v.text)
    else if key == "name" then p.(name := v.text)
    else if key == "status" then p.(status := v.text)
    else if key == "stock" then p.(stock := FromChars(v.text).value)
    else if key == "qualityRate" then p.(qualityRate := Stof(v.text).value)
    else p
  }

  /** Members take effect in their order, so of several with one key the last counts. */
  function AllFilled(p: Product, entries: seq<Entry>): Product
    requires EntriesOk(entries)
    decreases |entries|
  {
    if entries == [] then p
    else
      assert EntryOk(entries[0]);
      AllFilled(Filled(p, entries[0].key, entries[0].value), entries[1..])
  }

  predicate ItemsOk(items: seq<Item>) {
    forall i :: 0 <= i < |items| ==> ItemOk(items[i])
  }

  function Listed(blank: Product, items: seq<Item>): (r: seq<Product>)
    requires ItemsOk(items)
    ensures |r| == |items|
  {
    if items == [] then [] else [AllFilled(blank, items[0].entries)] + Listed(blank, items[1..])
  }

  lemma {:induction false} BlanksSkipped(b: string, s: string)
    requires Blanks(b)
    ensures SkipWs(b + s) == SkipWs(s)
  {
    if b == "" {
      assert b + s == s;
    } else {
      assert (b + s)[1..] == b[1..] + s;
      BlanksSkipped(b[1..], s);
    }
  }

  lemma TokenNext(b: string, c: char, s: string)
    requires Blanks(b) && !Blank(c)
    ensures SkipWs(b + ([c] + s)) == [c] + s
    ensures Expect(b + ([c] + s), c) == Ok(s)
  {
    BlanksSkipped(b, [c] + s);
    SkipOne(c, s);
    assert ([c] + s)[1..] == s;
  }

  lemma StringNext(b: string, text: string, tail: string)
    requires Blanks(b) && Clean(text)
    ensures ParseString(b + ("\"" + (Escaped(text) + ("\"" + tail)))) == Ok(Parsed(text, tail))
  {
    hide Escaped, Clean, Unescape;
    TokenNext(b, '"', Escaped(text) + ("\"" + tail));
    TextUnescapes(text, tail, "");
    assert "" + text == text;
  }

  predicate EndsNumberText(tail: string) {
    tail != "" && !NumberChar(tail[0])
  }

  lemma NumberNext(b: string, number: string, tail: string)
    requires Blanks(b) && NumberText(number) && EndsNumberText(tail)
    ensures ParseNumber(b + (number + tail)) == Ok(Parsed(number, tail))
    ensures SkipWs(b + (number + tail)) == number + tail && (number + tail)[0] != '"'
  {
    var s := number + tail;
    BlanksSkipped(b, s);
    assert s[0] == number[0] && NumberChar(s[0]) && SkipWs(s) == s;
    NumberEnds(number, tail);
    assert s[..|number|] == number && s[|number|..] == tail;
  }

  lemma ValueNext(b: string, key: string, v: Value, tail: string, p: Product)
    requires Blanks(b) && ValueOk(key, v) && EndsNumberText(tail)
    ensures ReadValue(b + ValueThen(v, tail), key, p) == Ok(Parsed(Filled(p, key, v), tail))
  {
    hide ParseString, ParseNumber, FromChars, Stof, Escaped, Clean, SkipWs, NumberText;
    match v {
      case Words(text) =>
        StringNext(b, text, tail);
        TokenNext(b, '"', Escaped(text) + ("\"" + tail));
      case Figures(text) =>
        NumberNext(b, text, tail);
    }
  }

  lemma BlanksEnd(b: string, tail: string)
    requires Blanks(b) && tail != "" && (tail[0] == ',' || tail[0] == '}')
    ensures EndsNumberText(b + tail)
  {}

  lemma EntryNext(e: Entry, tail: string, p: Product)
    requires EntryOk(e) && tail != "" && (tail[0] == ',' || tail[0] == '}')
    ensures ReadMember(EntryThen(e, tail), p) == Ok(Parsed(Filled(p, e.key, e.value), e.after + tail))
    ensures ReadMember(SkipWs(EntryThen(e, tail)), p) == ReadMember(EntryThen(e, tail), p)
    ensures SkipWs(EntryThen(e, tail)) != "" && SkipWs(EntryThen(e, tail))[0] == '"'
  {
    hide ReadValue, ValueOk, Clean, Escaped, ValueThen, EndsNumberText, SkipWs, ParseString, Expect;
    BlanksEnd(e.after, tail);
    var value := ValueThen(e.value, e.after + tail);
    var colon := e.beforeColon + (":" + (e.afterColon + value));
    StringNext(e.before, e.key, colon);
    TokenNext(e.before, '"', Escaped(e.key) + ("\"" + colon));
    TokenNext(e.beforeColon, ':', e.afterColon + value);
    ValueNext(e.afterColon, e.key, e.value, e.after + tail, p);
    BlanksBeforeMember(EntryThen(e, tail), p);
  }

  /** Members up to the closing brace, the first of them or after a comma. */
  lemma {:induction false} EntriesNext(b: string, entries: seq<Entry>, first: bool, tail: string, p: Product)
    requires entries != [] && EntriesOk(entries) && Blanks(b)
    ensures ReadMembers(b + ((if first then "" else ",") + EntriesThen(entries, "}" + tail)), p, first) ==
      Ok(Parsed(AllFilled(p, entries), tail))
    decreases |entries|
  {
    hide ReadMember, EntryThen, Filled, EntryOk, Blanks, SkipWs, Expect;
    var e := entries[0];
    var more := if |entries| == 1 then "}" + tail else "," + EntriesThen(entries[1..], "}" + tail);
    var text := EntryThen(e, more);
    AfterBlanks(e);
    EntryNext(e, more, p);
    FirstOfMembers(b, text, first);
    if |entries| == 1 {
      MembersClose(e.after, tail, Filled(p, e.key, e.value));
      assert AllFilled(Filled(p, e.key, e.value), entries[1..]) == Filled(p, e.key, e.value);
    } else {
      EntriesNext(e.after, entries[1..], false, tail, Filled(p, e.key, e.value));
    }
  }

  lemma AfterBlanks(e: Entry)
    requires EntryOk(e)
    ensures Blanks(e.after) && ValueOk(e.key, e.value)
  {}

  lemma FirstOfMembers(b: string, text: string, first: bool)
    requires Blanks(b) && SkipWs(text) != "" && SkipWs(text)[0] == '"'
    ensures first ==> SkipWs(b + ("" + text)) == SkipWs(text)
    ensures !first ==> SkipWs(b + ("," + text)) == "," + text && Expect("," + text, ',') == Ok(text)
  {
    assert "" + text == text;
    BlanksSkipped(b, text);
    TokenNext(b, ',', text);
    TokenNext("", ',', text);
    assert "" + ("," + text) == "," + text;
  }

  lemma MembersClose(b: string, tail: string, p: Product)
    requires Blanks(b)
    ensures forall first :: ReadMembers(b + ("}" + tail), p, first) == Ok(Parsed(p, tail))
  {
    TokenNext(b, '}', tail);
  }

  lemma ItemNext(o: Item, tail: string, blank: Product)
    requires ItemOk(o)
    ensures ReadObject(ItemThen(o, tail), blank) == Ok(Parsed(AllFilled(blank, o.entries), o.after + tail))
  {
    hide ReadMembers, EntriesThen, AllFilled, EntryOk, SkipWs;
    var more := o.after + tail;
    if o.entries == [] {
      TokenNext(o.before, '{', o.inner + ("}" + more));
      MembersClose(o.inner, more, blank);
      NothingFilled(blank);
    } else {
      var text := EntriesThen(o.entries, "}" + more);
      TokenNext(o.before, '{', o.inner + text);
      assert "" + text == text;
      EntriesNext(o.inner, o.entries, true, more, blank);
    }
  }

  lemma NothingFilled(p: Product)
    ensures AllFilled(p, []) == p
  {}

  lemma {:induction false} ItemsNext(items: seq<Item>, tail: string, blank: Product)
    requires items != [] && ItemsOk(items)
    ensures ReadObjects(ItemsThen(items, tail), blank) == Ok(Listed(blank, items))
    decreases |items|
  {
    hide ReadObject, ItemThen, AllFilled, Blanks, SkipWs;
    var o := items[0];
    BackBlanks(o);
    if |items| == 1 {
      ItemNext(o, "]" + tail, blank);
      TokenNext(o.after, ']', tail);
      assert Listed(blank, items) == [AllFilled(blank, o.entries)];
    } else {
      var more := ItemsThen(items[1..], tail);
      ItemNext(o, "," + more, blank);
      TokenNext(o.after, ',', more);
      assert ("," + more)[1..] == more;
      ItemsNext(items[1..], tail, blank);
    }
  }

  lemma BackBlanks(o: Item)
    requires ItemOk(o)
    ensures Blanks(o.after)
  {}

  lemma ItemStarts(items: seq<Item>, tail: string)
    requires items != [] && ItemsOk(items)
    ensures SkipWs(ItemsThen(items, tail)) != "" && SkipWs(ItemsThen(items, tail))[0] == '{'
  {
    hide EntriesThen, EntryOk, SkipWs;
    var o := items[0];
    var next := if |items| == 1 then "]" + tail else "," + ItemsThen(items[1..], tail);
    TokenNext(o.before, '{', o.inner + if o.entries == [] then "}" + (o.after + next) else EntriesThen(o.entries, "}" + (o.after + next)));
  }

  /** The reader on any layout of an array of objects: each object in order, each member in its own field,
      what an object does not mention left as it was, what the reader does not know ignored, and
      whatever follows the array not looked at. */
  lemma AnyLayoutRead(before: string, inner: string, items: seq<Item>, tail: string, blank: Product)
    requires Blanks(before) && Blanks(inner) && ItemsOk(items)
    ensures ReadJson(before + ("[" + if items == [] then inner + ("]" + tail) else ItemsThen(items, tail)), blank) ==
      Ok(Listed(blank, items))
  {
    hide ReadObjects, ItemsThen, Blanks, SkipWs, ItemOk, AllFilled;
    if items == [] {
      TokenNext(before, '[', inner + ("]" + tail));
      TokenNext(inner, ']', tail);
    } else {
      var text := ItemsThen(items, tail);
      TokenNext(before, '[', text);
      ItemStarts(items, tail);
      BlanksBeforeObjects(text, blank);
      ItemsNext(items, tail, blank);
    }
  }

  /** A member with a key the reader does not know leaves the product as it is. */
  lemma UnknownKeyIgnored(e: Entry, tail: string, p: Product)
    requires EntryOk(e) && tail != "" && (tail[0] == ',' || tail[0] == '}')
    requires e.key !in ["productCode", "name", "status", "stock", "qualityRate"]
    ensures ReadMember(EntryThen(e, tail), p) == Ok(Parsed(p, e.after + tail))
  {
    hide ReadMember, EntryThen, EntryOk;
    EntryNext(e, tail, p);
    assert e.key != "productCode" && e.key != "name" && e.key != "status" && e.key != "stock" && e.key != "qualityRate";
  }

  // ----- what is rejected --------------------------------------------------------------------

  /** The first character that is not a blank. */
  predicate NextIs(s: string, c: char) {
    SkipWs(s) != "" && SkipWs(s)[0] == c
  }

  /** A text is rejected where it first departs from an array of objects. */
  lemma Rejected(s: string, p: Product, blank: Product)
    ensures !NextIs(s, '[') ==> ReadJson(s, blank) == Err(Expected('['))
    ensures !NextIs(s, '{') ==> ReadObjects(s, blank) == Err(Expected('{'))
    ensures !NextIs(s, '}') && !NextIs(s, '"') ==> ReadMembers(s, p, true) == Err(Expected('"'))
    ensures !NextIs(s, '}') && !NextIs(s, ',') ==> ReadMembers(s, p, false) == Err(Expected(','))
  {
    assert SkipWs(SkipWs(s)) == SkipWs(s);
  }

  /** Inside a member: a key without a colon, a value of the wrong kind, and a nested value, which the reader
      cannot skip. */
  lemma MemberRejected(before: string, key: string, rest: string, p: Product)
    requires Blanks(before) && Clean(key)
    ensures var s := before + ("\"" + (Escaped(key) + ("\"" + rest)));
      && (!NextIs(rest, ':') ==> ReadMember(s, p) == Err(Expected(':')))
      && (NextIs(rest, ':') ==>
        var value := SkipWs(rest)[1..];
        && (key in ["productCode", "name", "status"] && !NextIs(value, '"') ==> ReadMember(s, p) == Err(Expected('"')))
        && (key in ["stock", "qualityRate"] && (SkipWs(value) == "" || !NumberChar(SkipWs(value)[0])) ==>
          ReadMember(s, p) == Err(ExpectedNumber))
        && (key !in ["productCode", "name", "status", "stock", "qualityRate"] && (NextIs(value, '{') || NextIs(value, '[')) ==>
          ReadMember(s, p) == Err(ExpectedNumber)))
  {
    hide Escaped, Clean;
    StringNext(before, key, rest);
    hide ParseString;
    if NextIs(rest, ':') {
      ValueRejected(SkipWs(rest)[1..], key, p);
    }
  }

  lemma ValueRejected(s: string, key: string, p: Product)
    ensures key in ["productCode", "name", "status"] && !NextIs(s, '"') ==> ReadValue(s, key, p) == Err(Expected('"'))
    ensures key in ["stock", "qualityRate"] && (SkipWs(s) == "" || !NumberChar(SkipWs(s)[0])) ==>
      ReadValue(s, key, p) == Err(ExpectedNumber)
    ensures key !in ["productCode", "name", "status", "stock", "qualityRate"] && (NextIs(s, '{') || NextIs(s, '[')) ==>
      ReadValue(s, key, p) == Err(ExpectedNumber)
  {
    hide FromChars, Stof, Unescape;
    if key !in ["productCode", "name", "status", "stock", "qualityRate"] {
      assert key != "productCode" && key != "name" && key != "status" && key != "stock" && key != "qualityRate";
    }
  }

  /** After an object: a comma, the end of the array, or nothing the reader takes. */
  lemma AfterObject(o: Item, tail: string, blank: Product)
    requires ItemOk(o) && !NextIs(tail, ',') && !NextIs(tail, ']')
    ensures ReadObjects(ItemThen(o, tail), blank) == Err(BetweenObjects)
  {
    hide ReadObject, ItemThen;
    ItemNext(o, tail, blank);
    BackBlanks(o);
    BlanksSkipped(o.after, tail);
  }

  /** What a backslash may stand before inside a string, and what it then means. */
  lemma EscapesRead(x: char, rest: string, out: string)
    ensures Unescape("\\" + ([x] + rest), out) ==
      if x == '"' || x == '\\' || x == '/' then Unescape(rest, out + [x])
      else if x == 'b' then Unescape(rest, out + [8 as char]) else if x == 'f' then Unescape(rest, out + [12 as char])
      else if x == 'n' then Unescape(rest, out + [10 as char]) else if x == 'r' then Unescape(rest, out + [13 as char])
      else if x == 't' then Unescape(rest, out + [9 as char])
      else if x == 'u' then Err(UnicodeEscape) else Err(BadEscape)
    ensures Unescape("", out) == Err(EndInString) && Unescape("\\", out) == Err(BadEscape)
  {
    var s := "\\" + ([x] + rest);
    assert s[0] == '\\' && s[1] == x && s[2..] == rest;
  }

  /** A number the field cannot hold. */
  lemma NumberRejected(b: string, number: string, tail: string, p: Product)
    requires Blanks(b) && NumberText(number) && EndsNumberText(tail)
    ensures FromChars(number).None? ==> ReadValue(b + (number + tail), "stock", p) == Err(StockNotAnInteger)
    ensures Stof(number).None? ==> ReadValue(b + (number + tail), "qualityRate", p) == Err(QualityNotAFloat)
  {
    hide FromChars, Stof, ParseNumber, ParseString, SkipWs;
    NumberNext(b, number, tail);
  }
}
