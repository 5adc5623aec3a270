/** What a flattened configuration says (src/config/ConfigManager.cpp:77-141): the keys and indices on the way
    to a leaf, followed through the document itself, joined by dots, and the text of the leaf there. */
module ConfigLeaves {
  import opened DecimalText
  import opened ConfigFlatten
  import opened ConfigPaths

  datatype Step = Key(name: string) | Index(i: nat)

  /** Following keys and indices from a node leads to a leaf. */
  predicate Leads(node: Json, steps: seq<Step>, leaf: Json)
    decreases |steps|
  {
    if steps == [] then node == leaf
    else
      match steps[0]
      case Key(name) =>
        node.Object? && exists j :: 0 <= j < |node.members| && node.members[j].key == name && Leads(node.members[j].value, steps[1..], leaf)
      case Index(i) => node.Array? && i < |node.items| && Leads(node.items[i], steps[1..], leaf)
  }

  function Segment(step: Step): string {
    match step
    case Key(name) => name
    case Index(i) => Decimal(i)
  }

  function Dotted(steps: seq<Step>): string
    decreases |steps|
  {
    if steps == [] then ""
    else if |steps| == 1 then Segment(steps[0])
    else Segment(steps[0]) + "." + Dotted(steps[1..])
  }

  /** A leaf's text: a string itself, a boolean's word, an integer's digits, nothing for null. */
  predicate Says(text: string, leaf: Json) {
    match leaf
    case Text(t) => text == t
    case Boolean(b) => (text == "true" <==> b) && (text == "false" <==> !b)
    case Number(n) => AllDigits(Unsigned(text)) && DecimalValue(text) == if n < TWO63 then n else n - TWO64
    case Float(dump) => text == dump
    case Null => text == ""
    case _ => false
  }

  lemma LeafSays(leaf: Json)
    requires !Container(leaf)
    ensures Says(LeafText(leaf), leaf)
  {
    if leaf.Number? {
      var m := AsInt64(leaf.n);
      DigitsMean(Abs(m));
      SignStripped(m < 0, Digits(Abs(m)), "");
      assert Decimal(m) + "" == Decimal(m) && Digits(Abs(m)) + "" == Digits(Abs(m));
    }
  }

  /** The child a step leads to: where it is among the children, and what its path is. */
  lemma ChildAt(f: Frame, steps: seq<Step>, leaf: Json) returns (j: nat)
    requires steps != [] && PlainKeys(f.node) && Leads(f.node, steps, leaf)
    ensures Container(f.node) && j < |Children(f)|
    ensures Children(f)[j].prefix == Join(f.prefix, Segment(steps[0])) && PlainSegment(Segment(steps[0]))
    ensures PlainKeys(Children(f)[j].node) && Leads(Children(f)[j].node, steps[1..], leaf)
  {
    match steps[0] {
      case Key(name) =>
        var k :| 0 <= k < |f.node.members| && f.node.members[k].key == name && Leads(f.node.members[k].value, steps[1..], leaf);
        j := k;
        PlainMember(f.node.members, k);
      case Index(i) =>
        j := i;
        PlainItem(f.node.items, i);
        DecimalPlain(i, i);
    }
  }

  lemma {:induction false} InOneInAll(frames: seq<Frame>, j: nat, b: Binding)
    requires j < |frames| && b in Leaves(frames[j])
    ensures b in LeavesOfAll(frames)
  {
    hide Leaves;
    if j > 0 {
      InOneInAll(frames[1..], j - 1, b);
    }
  }

  /** The path of a node the steps lead to from a frame. */
  function PathFrom(prefix: string, steps: seq<Step>): string {
    if steps == [] then prefix else Join(prefix, Dotted(steps))
  }

  lemma PathStep(prefix: string, steps: seq<Step>)
    requires steps != [] && PlainSegment(Segment(steps[0]))
    ensures PathFrom(Join(prefix, Segment(steps[0])), steps[1..]) == PathFrom(prefix, steps)
    ensures PathFrom(prefix, steps) != ""
  {
    var (first, rest) := (Segment(steps[0]), Dotted(steps[1..]));
    if |steps| > 1 {
      assert prefix + "." + first + "." + rest == prefix + "." + (first + "." + rest);
    }
  }

  lemma {:induction false} LeafBound(f: Frame, steps: seq<Step>, leaf: Json)
    requires PlainKeys(f.node) && Leads(f.node, steps, leaf) && !Container(leaf)
    requires f.prefix != "" || steps != []
    ensures Binding(PathFrom(f.prefix, steps), LeafText(leaf)) in Leaves(f)
    decreases |steps|
  {
    hide PlainKeys, Leads, LeafText, PathFrom, Segment, Join;
    if steps == [] {
      NowhereLeads(f, leaf);
    } else {
      var j := ChildAt(f, steps, leaf);
      var child := Children(f)[j];
      PathStep(f.prefix, steps);
      JoinNotEmpty(f.prefix, Segment(steps[0]));
      LeafBound(child, steps[1..], leaf);
      InOneInAll(Children(f), j, Binding(PathFrom(f.prefix, steps), LeafText(leaf)));
      ChildrenLeaves(f);
    }
  }

  lemma NowhereLeads(f: Frame, leaf: Json)
    requires Leads(f.node, [], leaf) && !Container(leaf) && f.prefix != ""
    ensures Binding(PathFrom(f.prefix, []), LeafText(leaf)) in Leaves(f)
  {
    LeafBinds(f);
  }

  lemma ChildrenLeaves(f: Frame)
    requires Container(f.node)
    ensures Leaves(f) == LeavesOfAll(Children(f))
  {
    hide LeavesOfAll, Children;
  }

  /** In a document whose keys are plain, the flattened map binds the dotted path of every leaf to what the
      leaf says. */
  lemma LeafFlattened(root: Json, steps: seq<Step>, leaf: Json)
    requires PlainKeys(root) && steps != [] && Leads(root, steps, leaf) && !Container(leaf)
    ensures var out := FirstWins(Leaves(Frame(root, "")));
      Dotted(steps) in out && Says(out[Dotted(steps)], leaf)
  {
    hide PlainKeys, Leads, LeafText, Leaves, Container, Says, FirstWins;
    var f := Frame(root, "");
    var bindings := Leaves(f);
    LeafBound(f, steps, leaf);
    PlainLeavesApart(f);
    var i :| 0 <= i < |bindings| && bindings[i] == Binding(PathFrom("", steps), LeafText(leaf));
    FirstWinsText(bindings, i);
    LeafSays(leaf);
  }

  // ----- nothing else ------------------------------------------------------------------------

  lemma {:induction false} FromOne(frames: seq<Frame>, b: Binding) returns (j: nat)
    requires b in LeavesOfAll(frames)
    ensures j < |frames| && b in Leaves(frames[j])
  {
    hide Leaves;
    if b in Leaves(frames[0]) {
      j := 0;
    } else {
      j := FromOne(frames[1..], b);
      j := j + 1;
    }
  }

  lemma {:induction false} FrameSmaller(frames: seq<Frame>, j: nat)
    requires j < |frames|
    ensures Size(frames[j].node) <= FramesSize(frames)
  {
    if j > 0 {
      FrameSmaller(frames[1..], j - 1);
    }
  }

  /** The step to the j-th child. */
  lemma StepTo(f: Frame, j: nat) returns (step: Step)
    requires Container(f.node) && PlainKeys(f.node) && j < |Children(f)|
    ensures Children(f)[j].prefix == Join(f.prefix, Segment(step)) && PlainSegment(Segment(step))
    ensures PlainKeys(Children(f)[j].node)
    ensures forall rest, leaf :: Leads(Children(f)[j].node, rest, leaf) ==> Leads(f.node, [step] + rest, leaf)
  {
    match f.node {
      case Object(ms) =>
        step := Key(ms[j].key);
        PlainMember(ms, j);
      case Array(items) =>
        step := Index(j);
        PlainItem(items, j);
        DecimalPlain(j, j);
    }
    forall rest, leaf | Leads(Children(f)[j].node, rest, leaf) ensures Leads(f.node, [step] + rest, leaf) {
      assert ([step] + rest)[1..] == rest;
    }
  }

  lemma {:induction false} BoundIsLeaf(f: Frame, b: Binding) returns (steps: seq<Step>, leaf: Json)
    requires PlainKeys(f.node) && b in Leaves(f)
    ensures Leads(f.node, steps, leaf) && !Container(leaf)
    ensures b.path == PathFrom(f.prefix, steps) && (f.prefix != "" || steps != [])
    decreases Size(f.node)
  {
    hide PlainKeys, Leads, LeafText, PathFrom, Segment, Join, Size, FramesSize;
    if Container(f.node) {
      ChildrenLeaves(f);
      var j := FromOne(Children(f), b);
      var step := StepTo(f, j);
      ChildrenSmaller(f);
      FrameSmaller(Children(f), j);
      var rest;
      rest, leaf := BoundIsLeaf(Children(f)[j], b);
      steps := [step] + rest;
      assert steps[1..] == rest;
      PathStep(f.prefix, steps);
    } else {
      LeafBinds(f);
      steps, leaf := [], f.node;
      NoSteps(f);
    }
  }

  lemma NoSteps(f: Frame)
    ensures Leads(f.node, [], f.node) && PathFrom(f.prefix, []) == f.prefix
  {}

  /** And it binds nothing else. */
  lemma FlattenedIsLeaf(root: Json, path: string) returns (steps: seq<Step>, leaf: Json)
    requires PlainKeys(root) && path in FirstWins(Leaves(Frame(root, "")))
    ensures steps != [] && Leads(root, steps, leaf) && !Container(leaf) && path == Dotted(steps)
  {
    hide PlainKeys, Leads, Leaves, Container, FirstWins;
    var bindings := Leaves(Frame(root, ""));
    FirstWinsKeys(bindings);
    var b :| b in bindings && b.path == path;
    steps, leaf := BoundIsLeaf(Frame(root, ""), b);
  }
}
