/** When dotted paths cannot collide: a condition on the keys of a configuration that its author can
    check, and under which flattening does not depend on traversal order. */
module ConfigPaths {
  import opened DecimalText
  import opened ConfigFlatten

  predicate PlainSegment(s: string) {
    s != "" && forall i :: 0 <= i < |s| ==> s[i] != '.'
  }

  /** Every object's keys are distinct, not empty and free of dots, all the way down. */
  predicate PlainKeys(node: Json) {
    match node
    case Object(ms) => KeysApart(ms) && PlainMembers(ms)
    case Array(items) => PlainItems(items)
    case _ => true
  }

  predicate KeysApart(ms: seq<Member>) {
    && (forall i :: 0 <= i < |ms| ==> PlainSegment(ms[i].key))
    && (forall i, j :: 0 <= i < j < |ms| ==> ms[i].key != ms[j].key)
  }

  predicate PlainMembers(ms: seq<Member>) {
    ms == [] || (PlainKeys(ms[0].value) && PlainMembers(ms[1..]))
  }

  predicate PlainItems(items: seq<Json>) {
    items == [] || (PlainKeys(items[0]) && PlainItems(items[1..]))
  }

  lemma {:induction false} PlainMember(ms: seq<Member>, i: nat)
    requires PlainMembers(ms) && i < |ms|
    ensures PlainKeys(ms[i].value)
  {
    if i > 0 {
      PlainMember(ms[1..], i - 1);
    }
  }

  lemma {:induction false} PlainItem(items: seq<Json>, i: nat)
    requires PlainItems(items) && i < |items|
    ensures PlainKeys(items[i])
  {
    if i > 0 {
      PlainItem(items[1..], i - 1);
    }
  }

  /** The path is the base, or continues it after a dot. */
  predicate Under(path: string, base: string) {
    base <= path && (path == base || path[|base|] == '.')
  }

  /** Frames with plain subtrees whose paths extend one prefix by distinct plain segments. */
  predicate Siblings(frames: seq<Frame>, prefix: string, segments: seq<string>) {
    && |frames| == |segments|
    && (forall i :: 0 <= i < |frames| ==>
         PlainKeys(frames[i].node) && PlainSegment(segments[i]) && frames[i].prefix == Join(prefix, segments[i]))
    && (forall i, j :: 0 <= i < j < |segments| ==> segments[i] != segments[j])
  }

  lemma DecimalPlain(i: nat, j: nat)
    ensures PlainSegment(Decimal(i)) && (Decimal(i) == Decimal(j) ==> i == j)
  {
    DigitsMean(i);
    DigitsMean(j);
  }

  lemma ChildrenSiblings(f: Frame) returns (segments: seq<string>)
    requires Container(f.node) && PlainKeys(f.node)
    ensures Siblings(Children(f), f.prefix, segments)
  {
    match f.node {
      case Object(ms) =>
        segments := seq(|ms|, i requires 0 <= i < |ms| => ms[i].key);
        forall i | 0 <= i < |ms| ensures PlainKeys(ms[i].value) {
          PlainMember(ms, i);
        }
      case Array(items) =>
        segments := seq(|items|, i requires 0 <= i < |items| => Decimal(i));
        forall i | 0 <= i < |items| ensures PlainKeys(items[i]) && PlainSegment(Decimal(i)) {
          PlainItem(items, i);
          DecimalPlain(i, i);
        }
        forall i, j | 0 <= i < j < |items| ensures Decimal(i) != Decimal(j) {
          DecimalPlain(i, j);
        }
    }
  }

  /** Different plain segments start different paths. */
  lemma SegmentsSeparate(path: string, prefix: string, a: string, b: string)
    requires PlainSegment(a) && PlainSegment(b) && Under(path, Join(prefix, a)) && Under(path, Join(prefix, b))
    ensures a == b
  {
    var n := if prefix == "" then 0 else |prefix| + 1;
    assert Join(prefix, a)[n..] == a && Join(prefix, b)[n..] == b;
    SameSegment(path[n..], a, b);
  }

  lemma SameSegment(path: string, a: string, b: string)
    requires PlainSegment(a) && PlainSegment(b) && Under(path, a) && Under(path, b)
    ensures a == b
  {
    if |a| < |b| || |b| < |a| {
      assert false;
    }
  }

  lemma UnderChain(path: string, prefix: string, segment: string)
    requires prefix != "" && Under(path, Join(prefix, segment))
    ensures Under(path, prefix)
  {
    assert Join(prefix, segment)[..|prefix|] == prefix;
    assert Join(prefix, segment)[|prefix|] == '.';
  }

  predicate AllUnder(bindings: seq<Binding>, base: string) {
    forall b <- bindings :: Under(b.path, base)
  }

  /** The leaves below a plain node have distinct paths, all under the node's own. */
  lemma {:induction false} PlainLeavesApart(f: Frame)
    requires PlainKeys(f.node)
    ensures Apart(Leaves(f)) && (f.prefix != "" ==> AllUnder(Leaves(f), f.prefix))
    decreases Size(f.node), 0
  {
    if Container(f.node) {
      ChildrenSmaller(f);
      var segments := ChildrenSiblings(f);
      SiblingsApart(Children(f), f.prefix, segments);
    }
  }

  lemma {:induction false} SiblingsApart(frames: seq<Frame>, prefix: string, segments: seq<string>)
    requires Siblings(frames, prefix, segments)
    ensures Apart(LeavesOfAll(frames))
    ensures forall b <- LeavesOfAll(frames) :: exists i :: 0 <= i < |segments| && Under(b.path, Join(prefix, segments[i]))
    ensures prefix != "" ==> AllUnder(LeavesOfAll(frames), prefix)
    decreases FramesSize(frames), 1 + |frames|
  {
    hide PlainKeys, Under, Join, PlainSegment;
    if frames != [] {
      var (first, rest) := (Leaves(frames[0]), LeavesOfAll(frames[1..]));
      JoinNotEmpty(prefix, segments[0]);
      PlainLeavesApart(frames[0]);
      SiblingsApart(frames[1..], prefix, segments[1..]);
      SplitUnder(first, rest, prefix, segments);
    }
  }

  lemma JoinNotEmpty(prefix: string, segment: string)
    requires PlainSegment(segment)
    ensures Join(prefix, segment) != ""
  {}

  lemma SplitUnder(first: seq<Binding>, rest: seq<Binding>, prefix: string, segments: seq<string>)
    requires segments != [] && (forall i :: 0 <= i < |segments| ==> PlainSegment(segments[i]))
    requires forall i, j :: 0 <= i < j < |segments| ==> segments[i] != segments[j]
    requires Apart(first) && AllUnder(first, Join(prefix, segments[0])) && Apart(rest)
    requires forall b <- rest :: exists i :: 0 <= i < |segments| - 1 && Under(b.path, Join(prefix, segments[1..][i]))
    ensures Apart(first + rest)
    ensures forall b <- first + rest :: exists i :: 0 <= i < |segments| && Under(b.path, Join(prefix, segments[i]))
    ensures prefix != "" ==> AllUnder(first + rest, prefix)
  {
    hide PlainSegment, Under, Join;
    forall b | b in first + rest
      ensures exists i :: 0 <= i < |segments| && Under(b.path, Join(prefix, segments[i]))
      ensures prefix != "" ==> Under(b.path, prefix)
    {
      if b in first {
        assert Under(b.path, Join(prefix, segments[0]));
        if prefix != "" { UnderChain(b.path, prefix, segments[0]); }
      } else {
        var i :| 0 <= i < |segments| - 1 && Under(b.path, Join(prefix, segments[1..][i]));
        assert segments[1..][i] == segments[i + 1];
        if prefix != "" { UnderChain(b.path, prefix, segments[i + 1]); }
      }
    }
    forall x, y | x in first && y in rest ensures x.path != y.path {
      var i :| 0 <= i < |segments| - 1 && Under(y.path, Join(prefix, segments[1..][i]));
      assert segments[1..][i] == segments[i + 1];
      if x.path == y.path {
        SegmentsSeparate(x.path, prefix, segments[0], segments[i + 1]);
      }
    }
    ApartConcat(first, rest);
  }

  lemma ApartConcat(a: seq<Binding>, b: seq<Binding>)
    requires Apart(a) && Apart(b) && forall x, y :: x in a && y in b ==> x.path != y.path
    ensures Apart(a + b)
  {
    forall i, j | 0 <= i < j < |a + b| ensures (a + b)[i].path != (a + b)[j].path {
      if i < |a| <= j {
        assert a[i] in a && b[j - |a|] in b;
      }
    }
  }

  /** The condition a config author can check: where every object's keys are distinct, not empty and
      free of dots, traversal order indeed does not matter. */
  lemma PlainKeysAgree(root: Json)
    requires PlainKeys(root)
    ensures FirstWins(Leaves(Frame(root, ""))) == Recursive(Frame(root, ""), map[])
  {
    hide Leaves, Recursive, FirstWins, PlainKeys;
    PlainLeavesApart(Frame(root, ""));
    DistinctPathsAgree(root);
  }
}
