/** The node classes of the quadtree: the abstract `Node` with its `Space`,
    the `LeafNode` bucket and the `InternalNode` with four child slots,
    together with their `Dump(level)` traversal. `Dump` writes to the console
    in C#; here it returns the lines it would write, in order. */
module Nodes {

  import opened Wrappers
  import opened Geometry

  /** `LeafNode.MaxRectangles`. */
  const MaxRectangles: nat := 5

  /** Every node, whichever variant, carries its coverage region `space`.
      A leaf owns a list of rectangles; an internal node owns child slots,
      each empty (`null`) or holding a node. */
  datatype Node =
    | Leaf(space: Rect, rects: seq<Rect>)
    | Internal(space: Rect, children: seq<Option<Node>>)

  /** `new LeafNode(space)`. */
  function NewLeaf(space: Rect): (n: Node)
    ensures n.Leaf? && n.space == space && n.rects == [] && !IsFull(n)
  {
    Leaf(space, [])
  }

  /** `new InternalNode(space)`: the `Children` array is `new Node[4]`. */
  function NewInternal(space: Rect): (n: Node)
    ensures n.Internal? && n.space == space && |n.children| == 4
    ensures forall i :: 0 <= i < |n.children| ==> n.children[i].None?
  {
    Internal(space, [None, None, None, None])
  }

  /** `LeafNode.IsFull`: the leaf already holds five rectangles or more. An
      empty leaf is never full. */
  function IsFull(n: Node): (full: bool)
    requires n.Leaf?
    ensures full <==> |n.rects| >= 5
    ensures n.rects == [] ==> !full
  {
    |n.rects| >= MaxRectangles
  }

  /** `new string('\t', level)`. */
  function Indent(level: nat): (s: string)
    ensures |s| == level && forall i :: 0 <= i < level ==> s[i] == '\t'
  {
    if level == 0 then "" else Indent(level - 1) + "\t"
  }

  /** The line a node writes about itself. */
  function Header(n: Node, level: nat, show: real -> string): string
  {
    match n
    case Leaf(space, _) => Indent(level) + "Leaf Node: " + Text(space, show)
    case Internal(space, _) => Indent(level) + "Internal Node: " + Text(space, show)
  }

  /** `Dump(level)`: the node's own line, then for a leaf one line per
      rectangle, for an internal node the dumps of its non-empty slots. */
  function Dump(n: Node, level: nat, show: real -> string): (lines: seq<string>)
    ensures |lines| >= 1 && lines[0] == Header(n, level, show)
    ensures n.Leaf? ==> |lines| == 1 + |n.rects|
    decreases n, 1, 0
  {
    match n
    case Leaf(_, rects) => [Header(n, level, show)] + RectLines(rects, Indent(level), show)
    case Internal(_, _) => [Header(n, level, show)] + DumpSlots(n, 0, level + 1, show)
  }

  /** The `foreach` over `Rectangles` in `LeafNode.Dump`. */
  function RectLines(rects: seq<Rect>, indent: string, show: real -> string): (lines: seq<string>)
    ensures |lines| == |rects|
  {
    if rects == [] then []
    else [indent + "\tRectangle: " + Text(rects[0], show)] + RectLines(rects[1..], indent, show)
  }

  /** The `foreach` over `Children` in `InternalNode.Dump`, from slot `i` on;
      `child?.Dump(level + 1)` skips an empty slot. */
  function DumpSlots(n: Node, i: nat, level: nat, show: real -> string): seq<string>
    requires n.Internal? && i <= |n.children|
    decreases n, 0, |n.children| - i
  {
    if i == |n.children| then []
    else SlotLines(n.children[i], level, show) + DumpSlots(n, i + 1, level, show)
  }

  /** What one slot contributes to its parent's dump. */
  function SlotLines(slot: Option<Node>, level: nat, show: real -> string): seq<string>
    decreases slot, 2, 0
  {
    match slot
    case None => []
    case Some(c) => Dump(c, level, show)
  }

  /** The number of nodes of a tree. */
  function NodeCount(n: Node): nat
    decreases n, 1, 0
  {
    match n
    case Leaf(_, _) => 1
    case Internal(_, _) => 1 + NodeCountSlots(n, 0)
  }

  function NodeCountSlots(n: Node, i: nat): nat
    requires n.Internal? && i <= |n.children|
    decreases n, 0, |n.children| - i
  {
    if i == |n.children| then 0
    else
      var here := match n.children[i]
        case None => 0
        case Some(c) => NodeCount(c);
      here + NodeCountSlots(n, i + 1)
  }

  /** Every rectangle stored in a tree: leaf lists in list order, children in
      slot order 0, 1, 2, 3. */
  function Payload(n: Node): seq<Rect>
    decreases n, 1, 0
  {
    match n
    case Leaf(_, rects) => rects
    case Internal(_, _) => PayloadSlots(n, 0)
  }

  function PayloadSlots(n: Node, i: nat): seq<Rect>
    requires n.Internal? && i <= |n.children|
    decreases n, 0, |n.children| - i
  {
    if i == |n.children| then []
    else
      var here := match n.children[i]
        case None => []
        case Some(c) => Payload(c);
      here + PayloadSlots(n, i + 1)
  }

  /** The number of tabs a line starts with. */
  function LeadingTabs(s: string): nat
  {
    if |s| > 0 && s[0] == '\t' then 1 + LeadingTabs(s[1..]) else 0
  }

  /** A line without its leading tabs. */
  function Strip(s: string): string
  {
    if |s| > 0 && s[0] == '\t' then Strip(s[1..]) else s
  }

  /** The rectangle lines of a dump, without their indentation, in order. */
  function RectangleEntries(lines: seq<string>): seq<string>
  {
    if lines == [] then []
    else
      var s := Strip(lines[0]);
      var here := if |s| >= 11 && s[..11] == "Rectangle: " then [s] else [];
      here + RectangleEntries(lines[1..])
  }

  lemma {:induction false} IndentPrefix(level: nat, s: string)
    requires s == [] || s[0] != '\t'
    ensures LeadingTabs(Indent(level) + s) == level
    ensures Strip(Indent(level) + s) == s
  {
    if level > 0 {
      assert Indent(level) + s == "\t" + (Indent(level - 1) + s) by {
        assert Indent(level) == "\t" + Indent(level - 1);
      }
      IndentPrefix(level - 1, s);
    }
  }

  lemma IndentSucc(level: nat)
    ensures Indent(level + 1) == "\t" + Indent(level)
    ensures Indent(level) + "\t" == Indent(level + 1)
  {
  }

  /** The stripped rectangle line of each rectangle, in order. */
  function Entries(rects: seq<Rect>, show: real -> string): (r: seq<string>)
    ensures |r| == |rects|
  {
    if rects == [] then [] else ["Rectangle: " + Text(rects[0], show)] + Entries(rects[1..], show)
  }

  lemma {:induction false} EntriesAppend(a: seq<Rect>, b: seq<Rect>, show: real -> string)
    ensures Entries(a + b, show) == Entries(a, show) + Entries(b, show)
  {
    if a != [] {
      assert (a + b)[1..] == a[1..] + b;
      EntriesAppend(a[1..], b, show);
    } else {
      assert a + b == b;
    }
  }

  lemma {:induction false} RectangleEntriesAppend(a: seq<string>, b: seq<string>)
    ensures RectangleEntries(a + b) == RectangleEntries(a) + RectangleEntries(b)
  {
    if a != [] {
      assert (a + b)[1..] == a[1..] + b;
      RectangleEntriesAppend(a[1..], b);
    } else {
      assert a + b == b;
    }
  }

  /** A node's own line, whichever the variant, names the variant and shows
      the node's one region `space`; it has exactly `level` tabs and is not a
      rectangle line. */
  lemma HeaderShape(n: Node, level: nat, show: real -> string)
    ensures var h := Header(n, level, show); var t := Text(n.space, show);
      |h| >= |t| && h[|h| - |t|..] == t
    ensures |Strip(Header(n, level, show))| > 0 && Strip(Header(n, level, show))[0] == if n.Leaf? then 'L' else 'I'
    ensures LeadingTabs(Header(n, level, show)) == level
    ensures RectangleEntries([Header(n, level, show)]) == []
  {
    var body := if n.Leaf? then "Leaf Node: " + Text(n.space, show) else "Internal Node: " + Text(n.space, show);
    assert Header(n, level, show) == Indent(level) + body;
    IndentPrefix(level, body);
    assert body[0] != 'R';
  }

  /** The rectangle lines of a leaf at `level`: one per rectangle, in list order. */
  lemma {:induction false} RectLinesShape(rects: seq<Rect>, level: nat, show: real -> string)
    ensures |RectLines(rects, Indent(level), show)| == |rects|
    ensures forall i :: 0 <= i < |rects| ==>
      RectLines(rects, Indent(level), show)[i] == Indent(level + 1) + "Rectangle: " + Text(rects[i], show)
    ensures forall i :: 0 <= i < |rects| ==> LeadingTabs(RectLines(rects, Indent(level), show)[i]) == level + 1
    ensures RectangleEntries(RectLines(rects, Indent(level), show)) == Entries(rects, show)
  {
    if rects != [] {
      var body := "Rectangle: " + Text(rects[0], show);
      var lines := RectLines(rects, Indent(level), show);
      assert lines[0] == Indent(level + 1) + body by {
        IndentSucc(level);
      }
      IndentPrefix(level + 1, body);
      RectLinesShape(rects[1..], level, show);
      assert lines == [lines[0]] + RectLines(rects[1..], Indent(level), show);
      RectangleEntriesAppend([lines[0]], RectLines(rects[1..], Indent(level), show));
      assert body[..11] == "Rectangle: ";
    }
  }

  /** `Dump(level)` writes one line per node and one per rectangle of the
      tree; its first line is indented by exactly `level` tabs and every later
      line by more; and the rectangle lines list the tree's rectangles in
      traversal order. */
  lemma {:induction false} DumpShape(n: Node, level: nat, show: real -> string)
    ensures |Dump(n, level, show)| == NodeCount(n) + |Payload(n)|
    ensures Dump(n, level, show)[0] == Header(n, level, show)
    ensures LeadingTabs(Dump(n, level, show)[0]) == level
    ensures forall i :: 1 <= i < |Dump(n, level, show)| ==> LeadingTabs(Dump(n, level, show)[i]) > level
    ensures RectangleEntries(Dump(n, level, show)) == Entries(Payload(n), show)
    decreases n, 1, 0
  {
    HeaderShape(n, level, show);
    var d := Dump(n, level, show);
    var rest := if n.Leaf? then RectLines(n.rects, Indent(level), show) else DumpSlots(n, 0, level + 1, show);
    assert d == [Header(n, level, show)] + rest;
    if n.Leaf? {
      RectLinesShape(n.rects, level, show);
    } else {
      DumpSlotsShape(n, 0, level + 1, show);
      assert Deep(rest, level + 1);
    }
    RectangleEntriesAppend([Header(n, level, show)], rest);
    assert forall i :: 1 <= i < |d| ==> d[i] == rest[i - 1];
  }

  /** Every line has at least `level` leading tabs. */
  predicate Deep(lines: seq<string>, level: nat)
  {
    forall k :: 0 <= k < |lines| ==> LeadingTabs(lines[k]) >= level
  }

  lemma DeepAppend(a: seq<string>, b: seq<string>, level: nat)
    requires Deep(a, level) && Deep(b, level)
    ensures Deep(a + b, level)
  {
    assert forall k :: 0 <= k < |a + b| ==> (a + b)[k] == if k < |a| then a[k] else b[k - |a|];
  }

  lemma {:induction false} DumpSlotsShape(n: Node, i: nat, level: nat, show: real -> string)
    requires n.Internal? && i <= |n.children|
    ensures |DumpSlots(n, i, level, show)| == NodeCountSlots(n, i) + |PayloadSlots(n, i)|
    ensures Deep(DumpSlots(n, i, level, show), level)
    ensures RectangleEntries(DumpSlots(n, i, level, show)) == Entries(PayloadSlots(n, i), show)
    decreases n, 0, |n.children| - i
  {
    if i < |n.children| {
      DumpSlotsShape(n, i + 1, level, show);
      var tail := DumpSlots(n, i + 1, level, show);
      match n.children[i]
      case None =>
        assert DumpSlots(n, i, level, show) == tail;
        assert PayloadSlots(n, i) == PayloadSlots(n, i + 1);
      case Some(c) =>
        DumpShape(c, level, show);
        var here := Dump(c, level, show);
        assert Deep(here, level);
        assert DumpSlots(n, i, level, show) == here + tail;
        assert PayloadSlots(n, i) == Payload(c) + PayloadSlots(n, i + 1);
        DeepAppend(here, tail, level);
        RectangleEntriesAppend(here, tail);
        EntriesAppend(Payload(c), PayloadSlots(n, i + 1), show);
    }
  }

  /** A leaf's dump: its header at `level` tabs, then each rectangle, in list
      order, at `level + 1` tabs. */
  lemma LeafDump(space: Rect, rects: seq<Rect>, level: nat, show: real -> string)
    ensures |Dump(Leaf(space, rects), level, show)| == 1 + |rects|
    ensures Dump(Leaf(space, rects), level, show)[0] == Indent(level) + "Leaf Node: " + Text(space, show)
    ensures forall i :: 0 <= i < |rects| ==>
      Dump(Leaf(space, rects), level, show)[1 + i] == Indent(level + 1) + "Rectangle: " + Text(rects[i], show)
  {
    var lines := RectLines(rects, Indent(level), show);
    RectLinesShape(rects, level, show);
    assert Dump(Leaf(space, rects), level, show) == [Indent(level) + "Leaf Node: " + Text(space, show)] + lines;
  }

  lemma SlotStep(n: Node, i: nat, level: nat, show: real -> string)
    requires n.Internal? && i < |n.children|
    ensures DumpSlots(n, i, level, show) == SlotLines(n.children[i], level, show) + DumpSlots(n, i + 1, level, show)
  {
  }

  lemma Concat4<T>(d0: seq<T>, d1: seq<T>, d2: seq<T>, d3: seq<T>, s0: seq<T>, s1: seq<T>, s2: seq<T>, s3: seq<T>)
    requires d0 == s0 + d1 && d1 == s1 + d2 && d2 == s2 + d3 && d3 == s3 + []
    ensures d0 == s0 + s1 + s2 + s3
  {
    assert s3 + [] == s3;
  }

  lemma Prepend4<T>(h: seq<T>, s0: seq<T>, s1: seq<T>, s2: seq<T>, s3: seq<T>)
    ensures h + (s0 + s1 + s2 + s3) == h + s0 + s1 + s2 + s3
  {
  }

  lemma InternalStep(n: Node, level: nat, show: real -> string)
    requires n.Internal?
    ensures Dump(n, level, show) == [Indent(level) + "Internal Node: " + Text(n.space, show)] + DumpSlots(n, 0, level + 1, show)
  {
  }

  /** The four slots of an internal node, dumped in slot order. */
  lemma FourSlots(n: Node, level: nat, show: real -> string)
    requires n.Internal? && |n.children| == 4
    ensures DumpSlots(n, 0, level, show) ==
      SlotLines(n.children[0], level, show) + SlotLines(n.children[1], level, show)
      + SlotLines(n.children[2], level, show) + SlotLines(n.children[3], level, show)
  {
    SlotStep(n, 3, level, show);
    SlotStep(n, 2, level, show);
    SlotStep(n, 1, level, show);
    SlotStep(n, 0, level, show);
    assert DumpSlots(n, 4, level, show) == [];
    Concat4(DumpSlots(n, 0, level, show), DumpSlots(n, 1, level, show), DumpSlots(n, 2, level, show), DumpSlots(n, 3, level, show),
            SlotLines(n.children[0], level, show), SlotLines(n.children[1], level, show),
            SlotLines(n.children[2], level, show), SlotLines(n.children[3], level, show));
  }

  /** An internal node with its four slots writes its header first, then
      slots 0, 1, 2 and 3 in that order, each at `level + 1`; an empty slot
      writes nothing. */
  lemma InternalDump(space: Rect, children: seq<Option<Node>>, level: nat, show: real -> string)
    requires |children| == 4
    ensures Dump(Internal(space, children), level, show) ==
      [Indent(level) + "Internal Node: " + Text(space, show)]
      + SlotLines(children[0], level + 1, show) + SlotLines(children[1], level + 1, show)
      + SlotLines(children[2], level + 1, show) + SlotLines(children[3], level + 1, show)
    ensures SlotLines(None, level + 1, show) == []
  {
    var n := Internal(space, children);
    FourSlots(n, level + 1, show);
    InternalStep(n, level, show);
    Prepend4([Indent(level) + "Internal Node: " + Text(space, show)],
             SlotLines(children[0], level + 1, show), SlotLines(children[1], level + 1, show),
             SlotLines(children[2], level + 1, show), SlotLines(children[3], level + 1, show));
  }

  /** A fresh leaf covers the region it was given, holds no rectangle, is
      not full and dumps only its own line. */
  lemma FreshLeaf(space: Rect, level: nat, show: real -> string)
    ensures NewLeaf(space).space == space && |NewLeaf(space).rects| == 0
    ensures !IsFull(NewLeaf(space))
    ensures Dump(NewLeaf(space), level, show) == [Indent(level) + "Leaf Node: " + Text(space, show)]
  {
  }

  /** A fresh internal node covers the region it was given, has exactly four
      slots, all empty, and dumps only its own line. */
  lemma FreshInternal(space: Rect, level: nat, show: real -> string)
    ensures NewInternal(space).space == space && |NewInternal(space).children| == 4
    ensures forall i :: 0 <= i < 4 ==> NewInternal(space).children[i].None?
    ensures Dump(NewInternal(space), level, show) == [Indent(level) + "Internal Node: " + Text(space, show)]
  {
    InternalDump(space, [None, None, None, None], level, show);
  }

  /** A leaf is full exactly when its dump has more than `MaxRectangles` lines. */
  lemma FullLeafDump(n: Node, level: nat, show: real -> string)
    requires n.Leaf?
    ensures IsFull(n) <==> |Dump(n, level, show)| > MaxRectangles
  {
    LeafDump(n.space, n.rects, level, show);
  }
}
