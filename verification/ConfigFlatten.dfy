/** Flattening a parsed configuration into dotted keys (src/config/ConfigManager.cpp): a worklist takes
    the place of recursion, and its order decides which of two equal keys wins. */
module ConfigFlatten {
  import opened DecimalText

  datatype Json =
    | Object(members: seq<Member>)
    | Array(items: seq<Json>)
    | Text(text: string)
    | Boolean(b: bool)
    | Number(n: Int64OrUnsigned64)
    | Float(dump: string)
    | Null

  datatype Member = Member(key: string, value: Json)

  const TWO63: int := 0x8000_0000_0000_0000
  const TWO64: int := 0x1_0000_0000_0000_0000

  /** What the parser stores as an integer, signed or unsigned. */
  type Int64OrUnsigned64 = n: int | -TWO63 <= n < TWO64 witness 0

  datatype Frame = Frame(node: Json, prefix: string)

  datatype Binding = Binding(path: string, text: string)

  // ----- paths and leaves --------------------------------------------------------------------

  /** Reading any integer, unsigned ones too, as a signed 64-bit number. */
  function AsInt64(n: Int64OrUnsigned64): int {
    if n < TWO63 then n else n - TWO64
  }

  function LeafText(node: Json): string {
    match node
    case Text(t) => t
    case Boolean(b) => if b then "true" else "false"
    case Number(n) => Decimal(AsInt64(n))
    case Float(dump) => dump
    case _ => ""
  }

  function Join(prefix: string, segment: string): string {
    if prefix == "" then segment else prefix + "." + segment
  }

  predicate Container(node: Json) {
    node.Object? || node.Array?
  }

  /** The children of a container with their paths, in document order. */
  function Children(f: Frame): (r: seq<Frame>) {
    match f.node
    case Object(ms) => seq(|ms|, i requires 0 <= i < |ms| => Frame(ms[i].value, Join(f.prefix, ms[i].key)))
    case Array(items) => seq(|items|, i requires 0 <= i < |items| => Frame(items[i], Join(f.prefix, Decimal(i))))
    case _ => []
  }

  function Size(node: Json): nat {
    match node
    case Object(ms) => 1 + MembersSize(ms)
    case Array(items) => 1 + ItemsSize(items)
    case _ => 1
  }

  function MembersSize(ms: seq<Member>): nat {
    if ms == [] then 0 else Size(ms[0].value) + MembersSize(ms[1..])
  }

  function ItemsSize(items: seq<Json>): nat {
    if items == [] then 0 else Size(items[0]) + ItemsSize(items[1..])
  }

  function FramesSize(frames: seq<Frame>): nat {
    if frames == [] then 0 else Size(frames[0].node) + FramesSize(frames[1..])
  }

  lemma {:induction false} MembersFrames(ms: seq<Member>, frames: seq<Frame>)
    requires |frames| == |ms| && forall i :: 0 <= i < |ms| ==> frames[i].node == ms[i].value
    ensures FramesSize(frames) == MembersSize(ms)
  {
    if ms != [] {
      MembersFrames(ms[1..], frames[1..]);
    }
  }

  lemma {:induction false} ItemsFrames(items: seq<Json>, frames: seq<Frame>)
    requires |frames| == |items| && forall i :: 0 <= i < |items| ==> frames[i].node == items[i]
    ensures FramesSize(frames) == ItemsSize(items)
  {
    if items != [] {
      ItemsFrames(items[1..], frames[1..]);
    }
  }

  lemma ChildrenSmaller(f: Frame)
    ensures FramesSize(Children(f)) < Size(f.node)
  {
    match f.node
    case Object(ms) => MembersFrames(ms, Children(f));
    case Array(items) => ItemsFrames(items, Children(f));
    case _ =>
  }

  /** The bindings below a node in document order. A leaf whose path is empty binds nothing. */
  function Leaves(f: Frame): seq<Binding>
    decreases Size(f.node), 0
  {
    if Container(f.node) then
      ChildrenSmaller(f);
      LeavesOfAll(Children(f))
    else if f.prefix == "" then []
    else [Binding(f.prefix, LeafText(f.node))]
  }

  function LeavesOfAll(frames: seq<Frame>): seq<Binding>
    decreases FramesSize(frames), 1 + |frames|
  {
    if frames == [] then [] else Leaves(frames[0]) + LeavesOfAll(frames[1..])
  }

  // ----- the two orders ----------------------------------------------------------------------

  /** Of several bindings of one path, the first. */
  function FirstWins(bindings: seq<Binding>): map<string, string> {
    if bindings == [] then map[] else FirstWins(bindings[1..])[bindings[0].path := bindings[0].text]
  }

  /** Writing bindings one after another: of several of one path, the last. */
  function Written(out: map<string, string>, bindings: seq<Binding>): map<string, string>
    decreases |bindings|
  {
    if bindings == [] then out else Written(out[bindings[0].path := bindings[0].text], bindings[1..])
  }

  /** The recursion the worklist replaced: depth first, in document order, writing as it goes. */
  function Recursive(f: Frame, out: map<string, string>): map<string, string>
    decreases Size(f.node), 0
  {
    if Container(f.node) then
      ChildrenSmaller(f);
      RecursiveAll(Children(f), out)
    else if f.prefix == "" then out
    else out[f.prefix := LeafText(f.node)]
  }

  function RecursiveAll(frames: seq<Frame>, out: map<string, string>): map<string, string>
    decreases FramesSize(frames), 1 + |frames|
  {
    if frames == [] then out else RecursiveAll(frames[1..], Recursive(frames[0], out))
  }

  lemma {:induction false} WrittenConcat(out: map<string, string>, a: seq<Binding>, b: seq<Binding>)
    ensures Written(out, a + b) == Written(Written(out, a), b)
    decreases |a|
  {
    if a == [] {
      assert a + b == b;
    } else {
      assert (a + b)[0] == a[0] && (a + b)[1..] == a[1..] + b;
      WrittenConcat(out[a[0].path := a[0].text], a[1..], b);
    }
  }

  /** The recursion writes the leaves in document order. */
  lemma {:induction false} RecursiveWrites(f: Frame, out: map<string, string>)
    ensures Recursive(f, out) == Written(out, Leaves(f))
    decreases Size(f.node), 0
  {
    if Container(f.node) {
      ChildrenSmaller(f);
      RecursiveAllWrites(Children(f), out);
    } else if f.prefix != "" {
      assert Leaves(f)[1..] == [];
    }
  }

  lemma {:induction false} RecursiveAllWrites(frames: seq<Frame>, out: map<string, string>)
    ensures RecursiveAll(frames, out) == Written(out, LeavesOfAll(frames))
    decreases FramesSize(frames), 1 + |frames|
  {
    if frames != [] {
      RecursiveWrites(frames[0], out);
      RecursiveAllWrites(frames[1..], Recursive(frames[0], out));
      WrittenConcat(out, Leaves(frames[0]), LeavesOfAll(frames[1..]));
    }
  }

  // ----- the worklist ------------------------------------------------------------------------

  lemma {:induction false} LeavesConcat(a: seq<Frame>, b: seq<Frame>)
    ensures LeavesOfAll(a + b) == LeavesOfAll(a) + LeavesOfAll(b)
    ensures FramesSize(a + b) == FramesSize(a) + FramesSize(b)
    decreases |a|
  {
    hide Leaves, Size;
    if a == [] {
      assert a + b == b;
    } else {
      assert (a + b)[0] == a[0] && (a + b)[1..] == a[1..] + b;
      LeavesConcat(a[1..], b);
    }
  }

  lemma LeavesOfOne(f: Frame)
    ensures LeavesOfAll([f]) == Leaves(f) && FramesSize([f]) == Size(f.node)
  {
    assert [f][1..] == [];
  }

  /** Popping a frame and pushing its children keeps what is still to be bound. */
  lemma PopKeepsLeaves(stack: seq<Frame>, f: Frame)
    ensures LeavesOfAll(stack + [f]) == LeavesOfAll(stack) + Leaves(f)
    ensures Container(f.node) ==> LeavesOfAll(stack + Children(f)) == LeavesOfAll(stack + [f])
    ensures FramesSize(stack + Children(f)) < FramesSize(stack + [f])
    ensures FramesSize(stack) < FramesSize(stack + [f])
  {
    LeavesConcat(stack, [f]);
    LeavesConcat(stack, Children(f));
    LeavesOfOne(f);
    ChildrenSmaller(f);
  }

  /** The worklist terminates on every tree, and binds each path to its first leaf. */
  method Flatten(root: Json) returns (out: map<string, string>)
    ensures out == FirstWins(Leaves(Frame(root, "")))
  {
    hide LeavesOfAll, Leaves, FramesSize, Size, Children;
    out := map[];
    var stack := [Frame(root, "")];
    ghost var bound: seq<Binding> := [];
    LeavesOfOne(Frame(root, ""));
    while stack != []
      invariant LeavesOfAll(stack) + bound == Leaves(Frame(root, ""))
      invariant out == FirstWins(bound)
      decreases FramesSize(stack)
    {
      var frame := stack[|stack| - 1];
      ghost var was := stack;
      stack := stack[..|stack| - 1];
      assert was == stack + [frame];
      PopKeepsLeaves(stack, frame);
      if Container(frame.node) {
        stack := PushChildren(stack, frame);
      } else {
        LeafBinds(frame);
        if frame.prefix != "" {
          out := out[frame.prefix := LeafText(frame.node)];
          bound := [Binding(frame.prefix, LeafText(frame.node))] + bound;
        }
      }
    }
    NoLeaves();
    assert LeavesOfAll(stack) + bound == bound;
  }

  lemma LeafBinds(f: Frame)
    requires !Container(f.node)
    ensures Leaves(f) == if f.prefix == "" then [] else [Binding(f.prefix, LeafText(f.node))]
  {}

  lemma NoLeaves()
    ensures LeavesOfAll([]) == []
  {}

  method PushChildren(stack: seq<Frame>, frame: Frame) returns (pushed: seq<Frame>)
    requires Container(frame.node)
    ensures pushed == stack + Children(frame)
  {
    pushed := stack;
    match frame.node
    case Object(ms) =>
      for i := 0 to |ms|
        invariant pushed == stack + Children(frame)[..i]
      {
        var nextKey := if frame.prefix == "" then ms[i].key else frame.prefix + "." + ms[i].key;
        pushed := pushed + [Frame(ms[i].value, nextKey)];
      }
      assert Children(frame)[..|ms|] == Children(frame);
    case Array(items) =>
      for i := 0 to |items|
        invariant pushed == stack + Children(frame)[..i]
      {
        var nextKey := if frame.prefix == "" then Decimal(i) else frame.prefix + "." + Decimal(i);
        pushed := pushed + [Frame(items[i], nextKey)];
      }
      assert Children(frame)[..|items|] == Children(frame);
  }

  // ----- what the map says -------------------------------------------------------------------

  predicate FirstAt(bindings: seq<Binding>, i: int) {
    0 <= i < |bindings| && forall j :: 0 <= j < i ==> bindings[j].path != bindings[i].path
  }

  predicate LastAt(bindings: seq<Binding>, i: int) {
    0 <= i < |bindings| && forall j :: i < j < |bindings| ==> bindings[j].path != bindings[i].path
  }

  /** The map's keys are the leaf paths. */
  lemma {:induction false} FirstWinsKeys(bindings: seq<Binding>)
    ensures forall k :: k in FirstWins(bindings) <==> exists b <- bindings :: b.path == k
  {
    if bindings != [] {
      FirstWinsKeys(bindings[1..]);
      assert bindings == [bindings[0]] + bindings[1..];
    }
  }

  /** Each path has the text of its first leaf. */
  lemma {:induction false} FirstWinsText(bindings: seq<Binding>, i: int)
    requires FirstAt(bindings, i)
    ensures bindings[i].path in FirstWins(bindings) && FirstWins(bindings)[bindings[i].path] == bindings[i].text
  {
    if i > 0 {
      assert bindings[0].path != bindings[i].path;
      assert forall j :: 0 <= j < i ==> bindings[1..][j] == bindings[j + 1];
      FirstWinsText(bindings[1..], i - 1);
    }
  }

  lemma {:induction false} WrittenKeys(out: map<string, string>, bindings: seq<Binding>)
    ensures forall k :: k in Written(out, bindings) <==> k in out || exists b <- bindings :: b.path == k
    decreases |bindings|
  {
    if bindings != [] {
      WrittenKeys(out[bindings[0].path := bindings[0].text], bindings[1..]);
      assert bindings == [bindings[0]] + bindings[1..];
    }
  }

  lemma {:induction false} WrittenKeeps(out: map<string, string>, bindings: seq<Binding>, k: string)
    requires k in out && forall j :: 0 <= j < |bindings| ==> bindings[j].path != k
    ensures k in Written(out, bindings) && Written(out, bindings)[k] == out[k]
    decreases |bindings|
  {
    if bindings != [] {
      WrittenKeeps(out[bindings[0].path := bindings[0].text], bindings[1..], k);
    }
  }

  lemma {:induction false} WrittenText(out: map<string, string>, bindings: seq<Binding>, i: int)
    requires LastAt(bindings, i)
    ensures bindings[i].path in Written(out, bindings) && Written(out, bindings)[bindings[i].path] == bindings[i].text
    decreases |bindings|
  {
    var next := out[bindings[0].path := bindings[0].text];
    if i > 0 {
      WrittenText(next, bindings[1..], i - 1);
    } else {
      WrittenKeeps(next, bindings[1..], bindings[0].path);
    }
  }

  /** No path is bound twice to different texts by its first and its last leaf. */
  ghost predicate EndsAgree(bindings: seq<Binding>) {
    forall i, j :: FirstAt(bindings, i) && LastAt(bindings, j) && bindings[i].path == bindings[j].path ==>
      bindings[i].text == bindings[j].text
  }

  lemma {:induction false} HasFirst(bindings: seq<Binding>, j: nat) returns (i: nat)
    requires j < |bindings|
    ensures FirstAt(bindings, i) && bindings[i].path == bindings[j].path
    decreases j
  {
    if FirstAt(bindings, j) {
      i := j;
    } else {
      var k: nat :| k < j && bindings[k].path == bindings[j].path;
      i := HasFirst(bindings, k);
    }
  }

  lemma {:induction false} HasLast(bindings: seq<Binding>, j: nat) returns (i: nat)
    requires j < |bindings|
    ensures LastAt(bindings, i) && bindings[i].path == bindings[j].path
    decreases |bindings| - j
  {
    if LastAt(bindings, j) {
      i := j;
    } else {
      var k: nat :| j < k < |bindings| && bindings[k].path == bindings[j].path;
      i := HasLast(bindings, k);
    }
  }

  lemma FirstAndLast(bindings: seq<Binding>, i: int, j: int)
    requires FirstAt(bindings, i) && LastAt(bindings, j) && bindings[i].path == bindings[j].path
    ensures var (a, b, k) := (FirstWins(bindings), Written(map[], bindings), bindings[i].path);
      k in a && k in b && a[k] == bindings[i].text && b[k] == bindings[j].text
  {
    FirstWinsText(bindings, i);
    WrittenText(map[], bindings, j);
  }

  lemma BothOrders(bindings: seq<Binding>)
    ensures FirstWins(bindings) == Written(map[], bindings) <==> EndsAgree(bindings)
  {
    var a, b := FirstWins(bindings), Written(map[], bindings);
    FirstWinsKeys(bindings);
    WrittenKeys(map[], bindings);
    hide FirstWins, Written;
    if EndsAgree(bindings) {
      forall k | k in a ensures k in b && a[k] == b[k] {
        var at :| 0 <= at < |bindings| && bindings[at].path == k;
        var i := HasFirst(bindings, at);
        var j := HasLast(bindings, at);
        FirstAndLast(bindings, i, j);
      }
      assert a == b;
    } else {
      var i, j :| FirstAt(bindings, i) && LastAt(bindings, j) && bindings[i].path == bindings[j].path
        && bindings[i].text != bindings[j].text;
      FirstAndLast(bindings, i, j);
    }
  }

  /** The worklist and the recursion build the same map exactly when, for every path, the first and
      the last leaf of that path in the document have the same text. */
  lemma OrderMatters(root: Json)
    ensures var bindings := Leaves(Frame(root, ""));
      FirstWins(bindings) == Recursive(Frame(root, ""), map[]) <==> EndsAgree(bindings)
  {
    hide Leaves, Recursive, Written, FirstWins, EndsAgree;
    RecursiveWrites(Frame(root, ""), map[]);
    BothOrders(Leaves(Frame(root, "")));
  }

  predicate Apart(bindings: seq<Binding>) {
    forall i, j :: 0 <= i < j < |bindings| ==> bindings[i].path != bindings[j].path
  }

  /** In particular when no two leaves share a dotted path. */
  lemma DistinctPathsAgree(root: Json)
    requires Apart(Leaves(Frame(root, "")))
    ensures FirstWins(Leaves(Frame(root, ""))) == Recursive(Frame(root, ""), map[])
  {
    hide Leaves, Recursive, FirstWins;
    OrderMatters(root);
  }

  /** A document on which the orders differ: a nested member and a member with a dot in its key. */
  lemma OrderExample()
    ensures var root := Object([Member("a", Object([Member("b", Text("1"))])), Member("a.b", Text("2"))]);
      FirstWins(Leaves(Frame(root, ""))) == map["a.b" := "1"] && Recursive(Frame(root, ""), map[]) == map["a.b" := "2"]
  {
    var inner := Object([Member("b", Text("1"))]);
    var root := Object([Member("a", inner), Member("a.b", Text("2"))]);
    var first, second, leaf := Frame(inner, "a"), Frame(Text("2"), "a.b"), Frame(Text("1"), "a.b");
    assert Join("a", "b") == "a.b";
    assert Children(Frame(root, "")) == [first] + [second];
    assert Children(first) == [leaf];
    hide Children, Join, Size, FramesSize;
    LeavesConcat([first], [second]);
    LeavesOfOne(leaf);
    LeavesOfOne(first);
    LeavesOfOne(second);
    assert Leaves(Frame(root, "")) == [Binding("a.b", "1"), Binding("a.b", "2")];
    RecursiveWrites(Frame(root, ""), map[]);
    TwoBindings(Binding("a.b", "1"), Binding("a.b", "2"));
  }

  lemma TwoBindings(a: Binding, b: Binding)
    requires a.path == b.path
    ensures FirstWins([a, b]) == map[a.path := a.text] && Written(map[], [a, b]) == map[b.path := b.text]
  {
    assert [a, b][1..] == [b] && [b][1..] == [];
    assert FirstWins([b]) == map[b.path := b.text];
    assert Written(map[a.path := a.text], [b]) == map[b.path := b.text];
  }

  /** Nothing is ever bound to the empty path. */
  lemma {:induction false} PathsNotEmpty(f: Frame)
    ensures forall b <- Leaves(f) :: b.path != ""
    decreases Size(f.node), 0
  {
    if Container(f.node) {
      ChildrenSmaller(f);
      AllPathsNotEmpty(Children(f));
    }
  }

  lemma {:induction false} AllPathsNotEmpty(frames: seq<Frame>)
    ensures forall b <- LeavesOfAll(frames) :: b.path != ""
    decreases FramesSize(frames), 1 + |frames|
  {
    if frames != [] {
      PathsNotEmpty(frames[0]);
      AllPathsNotEmpty(frames[1..]);
    }
  }

  // ----- numbers -----------------------------------------------------------------------------

  /** The number a text of an optional minus and digits stands for. */
  function DecimalValue(s: string): int
    requires AllDigits(Unsigned(s))
  {
    Signed(s, DigitsValue(Unsigned(s)))
  }

  /** An integer leaf's text reads back as the integer exactly when it fits a signed 64-bit
      number: the signed branch takes unsigned integers too, and wraps the large ones. */
  lemma IntegerTextExact(n: Int64OrUnsigned64)
    ensures var text := LeafText(Number(n)); AllDigits(Unsigned(text)) && (DecimalValue(text) == n <==> n < TWO63)
  {
    var m := AsInt64(n);
    DigitsMean(Abs(m));
    SignStripped(m < 0, Digits(Abs(m)), "");
    assert Decimal(m) + "" == Decimal(m) && Digits(Abs(m)) + "" == Digits(Abs(m));
  }

  /** Where it fails: 2^63, an unsigned integer the parser accepts, becomes the least signed one. */
  lemma IntegerTextExample()
    ensures AllDigits(Unsigned(LeafText(Number(TWO63)))) && DecimalValue(LeafText(Number(TWO63))) == -TWO63
  {
    DigitsMean(TWO63);
    SignStripped(true, Digits(TWO63), "");
    assert Decimal(-TWO63) + "" == Decimal(-TWO63) && Digits(TWO63) + "" == Digits(TWO63);
  }
}
