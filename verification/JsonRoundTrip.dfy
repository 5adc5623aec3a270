/** Reading what was written: a product list comes back exactly when no string of it holds a control
    character that has no escape letter; otherwise the reader rejects the text. */
module JsonRoundTrip {
  import opened Wrappers
  import opened Sequences
  import opened DecimalText
  import opened Products
  import opened JsonText

  /** No character that the writer must spell in hexadecimal, which the reader does not take. */
  predicate Clean(s: string) {
    forall i :: 0 <= i < |s| ==> s[i] >= ' ' || Letter(s[i]).Some?
  }

  predicate CleanProduct(p: Product) {
    Clean(p.productCode) && Clean(p.name) && Clean(p.status)
  }

  predicate CleanMember(m: Member) {
    m.Stock? || m.Rate? || Clean(m.text)
  }

  function Assigned(p: Product, m: Member): Product {
    match m
    case Code(t) => p.(productCode := t)
    case Name(t) => p.(name := t)
    case Status(t) => p.(status := t)
    case Stock(n) => p.(stock := n)
    case Rate(r) => p.(qualityRate := Tenths(r) as real / 10.0)
  }

  function AllAssigned(p: Product, ms: seq<Member>): Product
    decreases |ms|
  {
    if ms == [] then p else AllAssigned(Assigned(p, ms[0]), ms[1..])
  }

  lemma LettersInvert(c: char)
    ensures Letter(c).Some? ==> Unletter(Letter(c).value) == Some(c)
    ensures Letter(c).Some? ==> Letter(c).value != 'u'
  {}

  lemma CharUnescapes(c: char, rest: string, out: string)
    ensures c >= ' ' || Letter(c).Some? ==> Unescape(EscapedChar(c) + rest, out) == Unescape(rest, out + [c])
    ensures !(c >= ' ' || Letter(c).Some?) ==> Unescape(EscapedChar(c) + rest, out) == Err(UnicodeEscape)
  {
    var s := EscapedChar(c) + rest;
    LettersInvert(c);
    if Letter(c).Some? {
      assert s[0] == '\\' && s[1] == Letter(c).value && s[2..] == rest;
    } else if c >= ' ' {
      assert s[0] == c && s[1..] == rest;
    } else {
      assert s[0] == '\\' && s[1] == 'u';
    }
  }

  lemma {:induction false} TextUnescapes(s: string, tail: string, out: string)
    ensures Unescape(Escaped(s) + ("\"" + tail), out) ==
      if Clean(s) then Ok(Parsed(out + s, tail)) else Err(UnicodeEscape)
    decreases |s|
  {
    hide EscapedChar, Letter;
    var end := "\"" + tail;
    if s == "" {
      assert Escaped(s) + end == end && end[1..] == tail && out + s == out;
    } else {
      Associative(EscapedChar(s[0]), Escaped(s[1..]), end);
      CharUnescapes(s[0], Escaped(s[1..]) + end, out);
      TextUnescapes(s[1..], tail, out + [s[0]]);
      assert out + [s[0]] + s[1..] == out + s;
      CleanStep(s);
    }
  }

  lemma CleanStep(s: string)
    requires s != ""
    ensures Clean(s) <==> (s[0] >= ' ' || Letter(s[0]).Some?) && Clean(s[1..])
  {
    assert s == [s[0]] + s[1..];
    assert forall i :: 0 <= i < |s| - 1 ==> s[1..][i] == s[i + 1];
    assert forall i :: 0 < i < |s| ==> s[i] == s[1..][i - 1];
  }

  lemma SkipOne(c: char, s: string)
    ensures SkipWs([c] + s) == if Blank(c) then SkipWs(s) else [c] + s
  {
    assert ([c] + s)[1..] == s;
  }

  /** A string literal, with or without a blank before it, reads as the string it was made of. */
  lemma QuotedReads(s: string, tail: string)
    ensures ParseString("\"" + (Escaped(s) + ("\"" + tail))) ==
      if Clean(s) then Ok(Parsed(s, tail)) else Err(UnicodeEscape)
  {
    hide Unescape, Escaped, Clean;
    var body := Escaped(s) + ("\"" + tail);
    assert ("\"" + body)[1..] == body;
    TextUnescapes(s, tail, "");
    assert "" + s == s;
  }

  lemma {:induction false} NumberEnds(number: string, tail: string)
    requires (forall i :: 0 <= i < |number| ==> NumberChar(number[i])) && tail != "" && !NumberChar(tail[0])
    ensures NumberRun(number + tail) == |number|
  {
    if number == "" {
      assert number + tail == tail;
    } else {
      assert (number + tail)[1..] == number[1..] + tail;
      NumberEnds(number[1..], tail);
    }
  }

  predicate EndsValue(tail: string) {
    tail != "" && (tail[0] == ',' || tail[0] == '\n')
  }

  lemma NumberReads(number: string, tail: string)
    requires NumberChars(number) && EndsValue(tail)
    ensures ParseNumber(number + tail) == Ok(Parsed(number, tail))
  {
    var s := number + tail;
    assert s[0] == number[0] && SkipWs(s) == s;
    NumberEnds(number, tail);
    assert s[..|number|] == number && s[|number|..] == tail;
  }

  lemma PlainKey(m: Member)
    ensures Escaped(Key(m)) == Key(m) && Clean(Key(m))
  {
    var key := Key(m);
    assert forall i :: 0 <= i < |key| ==> 'A' <= key[i] <= 'z' && key[i] != '\\';
    PlainText(key);
  }

  lemma {:induction false} PlainText(s: string)
    requires forall i :: 0 <= i < |s| ==> 'A' <= s[i] <= 'z' && s[i] != '\\'
    ensures Escaped(s) == s && Clean(s)
  {
    if s != "" {
      PlainText(s[1..]);
      assert s == [s[0]] + s[1..];
    }
  }

  /** Each value reads back into its own field. */
  lemma ValueReads(p: Product, m: Member, tail: string)
    requires EndsValue(tail)
    ensures ReadValue(ValueText(m) + tail, Key(m), p) ==
      if CleanMember(m) then Ok(Parsed(Assigned(p, m), tail)) else Err(UnicodeEscape)
  {
    hide ParseString, ParseNumber, FromChars, Stof, Decimal, RateText, Escaped, Clean;
    match m {
      case Stock(n) =>
        NumbersArePlain(n, 0.0);
        NumberReads(Decimal(n), tail);
        IntegerReads(n, "");
        assert Decimal(n) + "" == Decimal(n);
      case Rate(r) =>
        NumbersArePlain(0, r);
        NumberReads(RateText(r), tail);
        RateReads(r, "");
        assert RateText(r) + "" == RateText(r);
      case _ =>
        QuotedReads(m.text, tail);
        Associative(Escaped(m.text), "\"", tail);
        Associative("\"", Escaped(m.text) + "\"", tail);
    }
  }

  // ----- blanks before a token ---------------------------------------------------------------

  lemma BlankBeforeValue(c: char, s: string, key: string, p: Product)
    requires Blank(c)
    ensures ReadValue([c] + s, key, p) == ReadValue(s, key, p)
  {
    SkipOne(c, s);
  }

  lemma BlanksBeforeMember(s: string, p: Product)
    ensures ReadMember(SkipWs(s), p) == ReadMember(s, p)
  {
    assert SkipWs(SkipWs(s)) == SkipWs(s);
  }

  lemma BlanksBeforeObjects(s: string, blank: Product)
    ensures ReadObjects(SkipWs(s), blank) == ReadObjects(s, blank)
  {
    assert SkipWs(SkipWs(s)) == SkipWs(s);
    assert ReadObject(SkipWs(s), blank) == ReadObject(s, blank);
  }

  // ----- members and objects -----------------------------------------------------------------

  /** A member from its opening quote on. */
  function Quoted(m: Member, tail: string): string {
    "\"" + (Key(m) + ("\"" + (": " + (ValueText(m) + tail))))
  }

  lemma IndentSkips(s: string)
    ensures SkipWs("\n" + ("    " + s)) == SkipWs(s)
  {
    assert "\n" + ("    " + s) == "\n" + (" " + (" " + (" " + (" " + s))));
    SkipOne('\n', " " + (" " + (" " + (" " + s))));
    SkipOne(' ', " " + (" " + (" " + s)));
    SkipOne(' ', " " + (" " + s));
    SkipOne(' ', " " + s);
    SkipOne(' ', s);
  }

  lemma MemberIsIndented(m: Member, tail: string)
    ensures MemberText(m) + tail == "\n" + ("    " + Quoted(m, tail))
  {
    hide Key, ValueText;
    var (key, value) := (Key(m), ValueText(m));
    assert "    \"" == "    " + "\"" && "\": " == "\"" + ": ";
    Associative("\n", "    \"" + (key + ("\": " + value)), tail);
    Associative("    \"", key + ("\": " + value), tail);
    Associative(key, "\": " + value, tail);
    Associative("\": ", value, tail);
    Associative("\"", ": ", value + tail);
    Associative("    ", "\"", key + ("\"" + (": " + (value + tail))));
  }

  lemma MemberSkips(m: Member, tail: string)
    ensures SkipWs(MemberText(m) + tail) == Quoted(m, tail)
  {
    hide Key, ValueText, MemberText;
    MemberIsIndented(m, tail);
    IndentSkips(Quoted(m, tail));
    assert Quoted(m, tail)[0] == '"';
  }

  lemma MemberReads(p: Product, m: Member, tail: string)
    requires EndsValue(tail)
    ensures ReadMember(Quoted(m, tail), p) ==
      if CleanMember(m) then Ok(Parsed(Assigned(p, m), tail)) else Err(UnicodeEscape)
  {
    hide ParseString, ReadValue, Key, ValueText, Escaped, Clean, CleanMember;
    var rest := ": " + (ValueText(m) + tail);
    PlainKey(m);
    QuotedReads(Key(m), rest);
    assert rest[0] == ':' && rest[1..] == " " + (ValueText(m) + tail);
    BlankBeforeValue(' ', ValueText(m) + tail, Key(m), p);
    ValueReads(p, m, tail);
  }

  /** A list of members reads member by member, and fails at the first that is not clean. */
  lemma {:induction false} MembersRead(p: Product, ms: seq<Member>, first: bool, tail: string)
    ensures ReadMembers(MembersText(ms, first) + tail, p, first) ==
      if forall m <- ms :: CleanMember(m) then Ok(Parsed(AllAssigned(p, ms), tail)) else Err(UnicodeEscape)
    decreases |ms|
  {
    hide ReadMember, Quoted, MemberText, CleanMember, Assigned;
    if ms == [] {
      MembersEnd(p, first, tail);
    } else {
      var more := MembersText(ms[1..], false) + tail;
      MembersContinue(ms[1..], tail);
      var separator := if first then "" else ",";
      Associative(MemberText(ms[0]), MembersText(ms[1..], false), tail);
      Associative(separator, MemberText(ms[0]) + MembersText(ms[1..], false), tail);
      MemberStart(p, ms[0], more, first);
      MemberReads(p, ms[0], more);
      MembersRead(Assigned(p, ms[0]), ms[1..], false, tail);
      assert ms == [ms[0]] + ms[1..];
    }
  }

  lemma MembersEnd(p: Product, first: bool, tail: string)
    ensures ReadMembers("\n  }" + tail, p, first) == Ok(Parsed(p, tail))
  {
    hide ReadMember, Expect;
    var close := "}" + tail;
    assert "\n  }" + tail == "\n" + ("  " + close);
    SkipOne('\n', "  " + close);
    TwoBlanks(close);
    assert close[1..] == tail;
  }

  lemma TwoBlanks(s: string)
    ensures SkipWs("  " + s) == SkipWs(s)
  {
    assert "  " + s == " " + (" " + s);
    SkipOne(' ', " " + s);
    SkipOne(' ', s);
  }

  lemma MembersContinue(ms: seq<Member>, tail: string)
    ensures EndsValue(MembersText(ms, false) + tail)
  {
    hide MemberText;
  }

  /** Reading members starts with one member, after a comma unless it is the first. */
  lemma MemberStart(p: Product, m: Member, more: string, first: bool)
    ensures ReadMembers((if first then "" else ",") + (MemberText(m) + more), p, first) ==
      match ReadMember(Quoted(m, more), p)
      case Err(e) => Err(e)
      case Ok(v) => ReadMembers(v.rest, v.value, false)
  {
    hide ReadMember, MemberText;
    var member := MemberText(m) + more;
    MemberSkips(m, more);
    BlanksBeforeMember(member, p);
    assert Quoted(m, more)[0] == '"';
    if first {
      assert "" + member == member;
    } else {
      assert ("," + member)[1..] == member;
    }
  }

  lemma ProductAssigned(blank: Product, p: Product)
    ensures AllAssigned(blank, Members(p)) == Rounded(p)
  {
    var ms := Members(p);
    assert ms[1..] == [Name(p.name), Status(p.status), Stock(p.stock), Rate(p.qualityRate)];
    assert ms[1..][1..] == [Status(p.status), Stock(p.stock), Rate(p.qualityRate)];
    assert ms[1..][1..][1..] == [Stock(p.stock), Rate(p.qualityRate)];
    assert ms[1..][1..][1..][1..] == [Rate(p.qualityRate)];
    assert ms[1..][1..][1..][1..][1..] == [];
    var named := blank.(productCode := p.productCode, name := p.name);
    assert AllAssigned(blank, ms) == AllAssigned(named, ms[1..][1..]);
    var stocked := named.(status := p.status, stock := p.stock);
    assert AllAssigned(named, ms[1..][1..]) == AllAssigned(stocked, ms[1..][1..][1..][1..]);
  }

  lemma MembersClean(p: Product)
    ensures (forall m <- Members(p) :: CleanMember(m)) <==> CleanProduct(p)
  {
    var ms := Members(p);
    assert ms[0] == Code(p.productCode) && ms[1] == Name(p.name) && ms[2] == Status(p.status);
    hide Clean;
    assert ms[0] in ms && ms[1] in ms && ms[2] in ms;
    if CleanProduct(p) {
      forall m | m in ms ensures CleanMember(m) {
        assert m in [Code(p.productCode), Name(p.name), Status(p.status)] || m.Stock? || m.Rate?;
      }
    } else {
      assert !CleanMember(ms[0]) || !CleanMember(ms[1]) || !CleanMember(ms[2]);
    }
  }

  lemma ObjectReads(blank: Product, p: Product, tail: string)
    ensures ReadObject(ObjectText(p) + tail, blank) ==
      if CleanProduct(p) then Ok(Parsed(Rounded(p), tail)) else Err(UnicodeEscape)
  {
    hide ReadMembers, MembersText, Members, CleanProduct, CleanMember, AllAssigned;
    var body := MembersText(Members(p), true) + tail;
    var open := "{" + body;
    assert "  {" == "  " + "{";
    Associative("  {", MembersText(Members(p), true), tail);
    Associative("  ", "{", body);
    TwoBlanks(open);
    assert open[1..] == body && SkipWs(open) == open;
    MembersRead(blank, Members(p), true, tail);
    ProductAssigned(blank, p);
    MembersClean(p);
  }

  lemma LastObjectReads(blank: Product, p: Product)
    ensures ReadObjects(ObjectsText([p]), blank) ==
      if CleanProduct(p) then Ok([Rounded(p)]) else Err(UnicodeEscape)
  {
    hide ReadObject, ObjectText, CleanProduct, Rounded;
    var end := "\n" + "]\n";
    assert [p][1..] == [];
    assert ObjectsText([]) == "]\n";
    ObjectReads(blank, p, end);
    SkipOne('\n', "]\n");
  }

  lemma NextObjectReads(blank: Product, p: Product, ps: seq<Product>)
    requires ps != []
    ensures ReadObjects(ObjectsText([p] + ps), blank) ==
      if CleanProduct(p) then Prepended([Rounded(p)], ReadObjects(ObjectsText(ps), blank)) else Err(UnicodeEscape)
  {
    hide ReadObject, ObjectText, CleanProduct, Rounded, Prepended;
    var rest := ObjectsText(ps);
    var more := "\n" + rest;
    assert ([p] + ps)[1..] == ps;
    assert ",\n" + rest == "," + more;
    ObjectReads(blank, p, "," + more);
    assert ("," + more)[1..] == more;
    SkipOne('\n', rest);
    BlanksBeforeObjects(more, blank);
    BlanksBeforeObjects(rest, blank);
  }

  lemma {:induction false} ObjectsRead(blank: Product, ps: seq<Product>)
    requires ps != []
    ensures ReadObjects(ObjectsText(ps), blank) ==
      if forall p <- ps :: CleanProduct(p) then Ok(AllRounded(ps)) else Err(UnicodeEscape)
    decreases |ps|
  {
    hide ReadObjects, ObjectsText, CleanProduct, Rounded;
    assert ps == [ps[0]] + ps[1..];
    if |ps| == 1 {
      LastObjectReads(blank, ps[0]);
      assert ps == [ps[0]] && AllRounded(ps) == [Rounded(ps[0])];
    } else {
      NextObjectReads(blank, ps[0], ps[1..]);
      ObjectsRead(blank, ps[1..]);
    }
  }

  /** The round trip, exactly: a list is read back, rates to the tenth, when every string of every
      product is clean; otherwise the text is rejected, for the escape the reader does not take. */
  lemma JsonRoundTrip(blank: Product, ps: seq<Product>)
    ensures ReadJson(Json(ps), blank) ==
      if forall p <- ps :: CleanProduct(p) then Ok(AllRounded(ps)) else Err(UnicodeEscape)
  {
    hide ReadObjects, ObjectsText, CleanProduct;
    var s := Json(ps);
    if ps == [] {
      assert s[1..] == "]\n";
    } else {
      var more := "\n" + ObjectsText(ps);
      assert s == "[" + more && s[1..] == more;
      SkipOne('\n', ObjectsText(ps));
      ObjectsStart(ps);
      BlanksBeforeObjects(more, blank);
      BlanksBeforeObjects(ObjectsText(ps), blank);
      ObjectsRead(blank, ps);
    }
  }

  lemma ObjectsStart(ps: seq<Product>)
    requires ps != []
    ensures SkipWs(ObjectsText(ps)) != "" && SkipWs(ObjectsText(ps))[0] == '{'
  {
    hide MembersText;
    var s := ObjectsText(ps);
    var open := s[2..];
    assert s == " " + (" " + open) && open[0] == '{';
    SkipOne(' ', " " + open);
    SkipOne(' ', open);
  }

  /** A string for which it fails: a lone escape character, U+001B. */
  lemma UncleanExample(blank: Product)
    ensures ReadJson(Json([Product("\U{1B}", "", "", 0, 0.0)]), blank) == Err(UnicodeEscape)
  {
    var p := Product("\U{1B}", "", "", 0, 0.0);
    assert p.productCode[0] == '\U{1B}' && !CleanProduct(p);
    JsonRoundTrip(blank, [p]);
    assert p in [p];
  }
}
