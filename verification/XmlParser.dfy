/** The event handlers of mio_xml.c on linked nodes: the tree of a stanza grows at its last
    open element. */
module XmlParser {
  import opened Options
  import opened XmlNode
  import opened XmlStream

  // ------------------------------------------------------- the links of one parent

  /** The children of a node, linked in order. */
  ghost predicate Family(n: Node, kids: seq<Node>)
    reads n`firstchild, n`lastchild, (set k | k in kids)`next, (set k | k in kids)`parent
  {
    && n.firstchild == (if kids == [] then null else kids[0])
    && (kids != [] ==> n.lastchild == kids[|kids| - 1])
    && (forall j {:trigger kids[j].parent} :: 0 <= j < |kids| ==> kids[j].parent == n)
    && forall j {:trigger kids[j].next} :: 0 <= j < |kids| ==>
         kids[j].next == if j + 1 < |kids| then kids[j + 1] else null
  }

  /** _xmlnode_append_sibling. */
  method AppendSibling(lastsibling: Node, kind: NodeType, name: string) returns (result: Node)
    modifies lastsibling`next
    ensures fresh(result) && lastsibling.next == result && result.prev == lastsibling
    ensures result.kind == kind && result.name == name && result.attribs == [] && result.data == ""
    ensures result.next == result.parent == result.firstchild == null && result.repr == {result}
  {
    result := new Node(kind, name);
    result.prev := lastsibling;
    lastsibling.next := result;
  }

  /** _xmlnode_insert: the new node is the last child of its parent. */
  method Insert(parent: Node, kind: NodeType, name: string, ghost kids: seq<Node>) returns (result: Node)
    requires Family(parent, kids)
    modifies parent`firstchild, parent`lastchild, (if kids == [] then {} else {kids[|kids| - 1]})`next
    ensures fresh(result) && Family(parent, kids + [result])
    ensures result.prev == if kids == [] then null else kids[|kids| - 1]
    ensures result.kind == kind && result.name == name && result.attribs == [] && result.data == ""
    ensures result.firstchild == null && result.repr == {result}
  {
    ghost var n := |kids| - 1;
    assert kids != [] ==> kids[n].next == null;
    if parent.firstchild == null {
      result := new Node(kind, name);
      parent.firstchild := result;
    } else {
      result := AppendSibling(parent.lastchild, kind, name);
    }
    result.parent := parent;
    parent.lastchild := result;
    assert forall j {:trigger kids[j].next} :: 0 <= j < n ==> kids[j].next == kids[j + 1];
  }

  /** The node has its tree below it, apart from itself. */
  ghost predicate Complete(n: Node, t: Tree)
    reads n`firstchild, n`attribs, n`data, n.firstchild, ReprOf(n.firstchild)
  {
    && ValidOrNull(n.firstchild) && n !in ReprOf(n.firstchild)
    && (n.firstchild != null ==> n.firstchild.parent == n)
    && (n.kind.Cdata? ==> n.firstchild == null)
    && t == if n.kind.Cdata? then Text(n.data) else Elem(n.name, n.attribs, Forest(n.firstchild))
  }

  /** A complete node takes in its sibling. */
  ghost method SealOne(k: Node, t: Tree)
    requires Complete(k, t) && ValidOrNull(k.next)
    requires k.next != null ==> k.next.parent == k.parent && k !in k.next.repr && ReprOf(k.firstchild) !! k.next.repr
    modifies k`repr
    ensures k.Valid() && k.repr == {k} + ReprOf(k.firstchild) + ReprOf(k.next)
    ensures Forest(k) == [t] + old(Forest(k.next))
  {
    k.repr := {k} + ReprOf(k.firstchild) + ReprOf(k.next);
    if k.next != null {
      assert k.next.Valid() && Forest(k.next) == old(Forest(k.next));
    }
    if k.firstchild != null {
      assert k.firstchild.Valid() && Forest(k.firstchild) == old(Forest(k.firstchild));
    }
  }

  // ------------------------------------------------------- a tree that is growing

  /** An open element: its node, the closed ones among its children, and its value. */
  datatype Frame = Frame(node: Node, kids: seq<Node>, o: Open)

  /** Every node of the tree has a position: the open ones and their closed children in
      document order, and what is below a closed child that of the child. */
  type Spots = map<Node, nat>

  ghost function Within(spot: Spots, hi: nat): set<Node> {
    set m | m in spot && spot[m] < hi
  }

  ghost predicate At(spot: Spots, n: Node, a: nat)
    reads n`firstchild, n.firstchild
  {
    && n in spot && spot[n] == a && (n.firstchild != null ==> n.firstchild in ReprOf(n.firstchild))
    && forall x :: x in ReprOf(n.firstchild) ==> x != n && x in spot && spot[x] == a
  }

  ghost predicate KidAt(f: Frame, spot: Spots, hi: nat, j: nat)
    requires f.node in spot && spot[f.node] + 1 + |f.kids| == hi && j < |f.kids| == |f.o.kids|
    requires forall k :: k in f.kids ==> k in Within(spot, hi)
    reads Within(spot, hi)
  {
    var k := f.kids[j];
    && (k.firstchild != null ==> k.firstchild in Within(spot, hi))
    && At(spot, k, spot[f.node] + 1 + j) && Complete(k, f.o.kids[j])
  }

  /** The children of an open node, the open one among them included. */
  function Children(f: Frame, child: Node?): seq<Node> {
    f.kids + if child == null then [] else [child]
  }

  /** The nodes of an open element up to position hi, where its open child, if any, is. */
  ghost predicate FrameOk(f: Frame, child: Node?, spot: Spots, hi: nat)
    reads Within(spot, hi), (if child == null then {} else {child})`next, (if child == null then {} else {child})`parent
  {
    && f.node in spot && spot[f.node] + 1 + |f.kids| == hi && |f.kids| == |f.o.kids|
    && f.node.kind.Tag? && f.node.name == f.o.name && f.node.attribs == f.o.attribs
    && (forall k :: k in f.kids ==> k in Within(spot, hi))
    && Family(f.node, Children(f, child))
    && forall j {:trigger KidAt(f, spot, hi, j)} :: 0 <= j < |f.kids| ==> KidAt(f, spot, hi, j)
  }

  /** The open elements around an open node. */
  ghost predicate Outer(fs: seq<Frame>, last: Node, spot: Spots)
    requires last in spot
    reads Within(spot, spot[last]), last`next, last`parent
    decreases |fs|
  {
    if fs == [] then last.parent == null && last.next == null
    else
      var n := |fs| - 1;
      && FrameOk(fs[n], last, spot, spot[last])
      && fs[n].node in Within(spot, spot[last]) && Outer(fs[..n], fs[n].node, spot)
  }

  /** The nodes stand for the open elements. */
  ghost predicate Growing(fs: seq<Frame>, spot: Spots)
    requires fs != []
    reads spot.Keys
  {
    var f := fs[|fs| - 1];
    f.node in spot && FrameOk(f, null, spot, spot[f.node] + 1 + |f.kids|) && Outer(fs[..|fs| - 1], f.node, spot)
  }

  /** From the last to the first, the closed children become one valid list. */
  ghost method Seal(f: Frame, spot: Spots, hi: nat, j: nat)
    requires FrameOk(f, null, spot, hi) && j < |f.kids|
    modifies (set k | k in Within(spot, hi) && spot[f.node] + 1 + j <= spot[k])`repr
    ensures f.kids[j].Valid() && Forest(f.kids[j]) == f.o.kids[j..]
    ensures forall x :: x in f.kids[j].repr ==> x in spot && spot[f.node] + 1 + j <= spot[x] < hi
    decreases |f.kids| - j
  {
    var k := f.kids[j];
    assert Children(f, null) == f.kids;
    assert KidAt(f, spot, hi, j);
    if j + 1 < |f.kids| {
      Seal(f, spot, hi, j + 1);
      assert k.next == f.kids[j + 1];
      assert Complete(k, f.o.kids[j]) == old(Complete(k, f.o.kids[j]));
    }
    SealOne(k, f.o.kids[j]);
  }

  function ClosedTree(o: Open): Tree { Elem(o.name, o.attribs, o.kids) }

  /** An open node whose children are all closed is complete. */
  ghost method Finish(f: Frame, spot: Spots, hi: nat)
    requires FrameOk(f, null, spot, hi)
    modifies (set k | k in Within(spot, hi) && spot[f.node] < spot[k])`repr
    ensures Complete(f.node, ClosedTree(f.o))
    ensures f.node.firstchild != null ==> f.node.firstchild in ReprOf(f.node.firstchild)
    ensures forall x :: x in ReprOf(f.node.firstchild) ==> x in spot && spot[f.node] < spot[x] < hi
  {
    assert Children(f, null) == f.kids;
    if f.kids != [] {
      Seal(f, spot, hi, 0);
    }
  }

  /** The innermost open node gets one more child. */
  method Attach(stacknode: Node, kind: NodeType, name: string, attribs: Attribs, data: string,
                ghost f: Frame, ghost spot: Spots, ghost hi: nat) returns (x: Node)
    requires FrameOk(f, null, spot, hi) && stacknode == f.node
    modifies stacknode`firstchild, stacknode`lastchild
    modifies (if f.kids == [] then {} else {f.kids[|f.kids| - 1]})`next
    ensures fresh(x) && FrameOk(f, x, spot, hi)
    ensures x.kind == kind && x.name == name && x.attribs == attribs && x.data == data
    ensures x.firstchild == null && x.next == null && x.parent == stacknode
  {
    assert Children(f, null) == f.kids;
    KidsAreApart(f, spot, hi);
    x := Insert(stacknode, kind, name, f.kids);
    x.attribs, x.data := attribs, data;
    forall j | 0 <= j < |f.kids|
      ensures KidAt(f, spot, hi, j)
    {
      assert old(KidAt(f, spot, hi, j)) && old(IsApart(f, j));
      assert Complete(f.kids[j], f.o.kids[j]) == old(Complete(f.kids[j], f.o.kids[j]));
    }
  }

  /** What an insertion changes is not below the j-th child. */
  ghost predicate IsApart(f: Frame, j: nat)
    requires j < |f.kids|
    reads f.kids[j], f.kids[j].firstchild
  {
    && f.node != f.kids[j] && f.node !in ReprOf(f.kids[j].firstchild)
    && f.kids[|f.kids| - 1] !in ReprOf(f.kids[j].firstchild)
  }

  lemma KidsAreApart(f: Frame, spot: Spots, hi: nat)
    requires FrameOk(f, null, spot, hi)
    ensures forall j {:trigger IsApart(f, j)} :: 0 <= j < |f.kids| ==> IsApart(f, j)
  {
    forall j | 0 <= j < |f.kids|
      ensures IsApart(f, j)
    {
      assert KidAt(f, spot, hi, j) && KidAt(f, spot, hi, |f.kids| - 1);
    }
  }

  // ------------------------------------------------------- the positions change

  ghost predicate Agree(spot: Spots, spot': Spots, hi: nat) {
    forall m :: m in spot && spot[m] < hi ==> m in spot' && spot'[m] == spot[m]
  }

  lemma FrameAgrees(f: Frame, child: Node?, spot: Spots, spot': Spots, hi: nat)
    requires FrameOk(f, child, spot, hi) && Agree(spot, spot', hi)
    ensures FrameOk(f, child, spot', hi)
  {
    forall j | 0 <= j < |f.kids|
      ensures KidAt(f, spot', hi, j)
    {
      assert KidAt(f, spot, hi, j);
    }
  }

  lemma {:induction false} OuterAgrees(fs: seq<Frame>, last: Node, spot: Spots, spot': Spots)
    requires last in spot && Outer(fs, last, spot) && Agree(spot, spot', spot[last] + 1)
    ensures Outer(fs, last, spot')
    decreases |fs|
  {
    if fs != [] {
      var n := |fs| - 1;
      FrameAgrees(fs[n], last, spot, spot', spot[last]);
      OuterAgrees(fs[..n], fs[n].node, spot, spot');
    }
  }

  /** The position of the next child of the innermost open node. */
  ghost function Next(fs: seq<Frame>, spot: Spots): nat
    requires fs != [] && fs[|fs| - 1].node in spot
  {
    spot[fs[|fs| - 1].node] + 1 + |fs[|fs| - 1].kids|
  }

  /** The nodes with one more child of the innermost open one. */
  ghost predicate Extended(fs: seq<Frame>, x: Node, spot: Spots)
    requires fs != []
    reads spot.Keys, x
  {
    var f := fs[|fs| - 1];
    x !in spot && f.node in spot && FrameOk(f, x, spot, Next(fs, spot)) && Outer(fs[..|fs| - 1], f.node, spot)
  }

  /** xmlnode_insert_tag and xmlnode_insert_cdata on the innermost open node. */
  method Extend(stacknode: Node, kind: NodeType, name: string, attribs: Attribs, data: string,
                ghost fs: seq<Frame>, ghost spot: Spots) returns (x: Node)
    requires fs != [] && Growing(fs, spot) && stacknode == fs[|fs| - 1].node
    modifies spot.Keys`firstchild, spot.Keys`lastchild, spot.Keys`next
    ensures fresh(x) && Extended(fs, x, spot)
    ensures x.kind == kind && x.name == name && x.attribs == attribs && x.data == data
    ensures x.firstchild == null && x.next == null && x.parent == stacknode
  {
    ghost var f, hi, outer := fs[|fs| - 1], Next(fs, spot), fs[..|fs| - 1];
    if f.kids != [] {
      assert KidAt(f, spot, hi, |f.kids| - 1);
      assert f.kids[|f.kids| - 1] in spot.Keys;
    }
    x := Attach(stacknode, kind, name, attribs, data, f, spot, hi);
    assert Outer(outer, f.node, spot) == old(Outer(outer, f.node, spot));
  }

  /** A frame with one more closed child. */
  function WithChild(f: Frame, x: Node, t: Tree): Frame {
    Frame(f.node, f.kids + [x], f.o.(kids := f.o.kids + [t]))
  }

  /** A complete node becomes one of the closed children. */
  lemma ChildJoins(f: Frame, x: Node, t: Tree, spot: Spots, spot': Spots, hi: nat)
    requires FrameOk(f, x, spot, hi) && Agree(spot, spot', hi)
    requires x.next == null && Complete(x, t) && At(spot', x, hi)
    ensures FrameOk(WithChild(f, x, t), null, spot', hi + 1)
  {
    var f', hi' := WithChild(f, x, t), hi + 1;
    assert Children(f', null) == Children(f, x);
    forall j | 0 <= j < |f'.kids|
      ensures KidAt(f', spot', hi', j)
    {
      if j < |f.kids| {
        assert KidAt(f, spot, hi, j);
      }
    }
  }

  /** The innermost open element with one more closed child. */
  function WithLast(fs: seq<Frame>, x: Node, t: Tree): seq<Frame>
    requires fs != []
  {
    fs[..|fs| - 1] + [WithChild(fs[|fs| - 1], x, t)]
  }

  /** The new child is closed. */
  lemma Added(fs: seq<Frame>, x: Node, t: Tree, spot: Spots, spot': Spots)
    requires fs != [] && fs[|fs| - 1].node in spot
    requires var f, hi := fs[|fs| - 1], Next(fs, spot);
             && FrameOk(f, x, spot, hi) && Outer(fs[..|fs| - 1], f.node, spot)
             && Agree(spot, spot', hi) && At(spot', x, hi)
    requires x.next == null && Complete(x, t)
    ensures Growing(WithLast(fs, x, t), spot')
  {
    var f, outer := fs[|fs| - 1], fs[..|fs| - 1];
    ChildJoins(f, x, t, spot, spot', Next(fs, spot));
    OuterAgrees(outer, f.node, spot, spot');
    assert WithLast(fs, x, t)[..|fs| - 1] == outer;
  }

  lemma FirstOpened(x: Node)
    requires x.kind.Tag? && x.firstchild == null && x.parent == null && x.next == null
    ensures Growing([Frame(x, [], Open(x.name, x.attribs, []))], map[x := 0])
  {
    var f := Frame(x, [], Open(x.name, x.attribs, []));
    assert [f][..0] == [] && Children(f, null) == [];
  }

  /** The new child is open. */
  lemma Opened(fs: seq<Frame>, x: Node, spot: Spots)
    requires fs != [] && Extended(fs, x, spot) && x.kind.Tag? && x.firstchild == null
    ensures Growing(fs + [Frame(x, [], Open(x.name, x.attribs, []))], spot[x := Next(fs, spot)])
  {
    var hi, n := Next(fs, spot), |fs| - 1;
    var spot', more := spot[x := hi], fs + [Frame(x, [], Open(x.name, x.attribs, []))];
    FrameAgrees(fs[n], x, spot, spot', hi);
    OuterAgrees(fs[..n], fs[n].node, spot, spot');
    assert more[..n + 1] == fs;
    assert Outer(fs, x, spot');
  }

  // ------------------------------------------------------- the parser

  ghost function Stack(fs: seq<Frame>): (stack: seq<Open>)
    ensures |stack| == |fs|
  {
    if fs == [] then [] else Stack(fs[..|fs| - 1]) + [fs[|fs| - 1].o]
  }

  lemma StackEnd(fs: seq<Frame>, f: Frame)
    ensures Stack(fs + [f]) == Stack(fs) + [f.o]
  {
    assert (fs + [f])[..|fs|] == fs;
  }

  lemma StackWithLast(fs: seq<Frame>, x: Node, t: Tree)
    requires fs != []
    ensures Stack(WithLast(fs, x, t)) == WithKid(Stack(fs), t)
  {
    var n := |fs| - 1;
    StackEnd(fs[..n], WithChild(fs[n], x, t));
  }

  lemma TextAdded(fs: seq<Frame>, x: Node, data: string, spot: Spots)
    requires fs != [] && Extended(fs, x, spot)
    requires x.kind.Cdata? && x.data == data && x.firstchild == null && x.next == null
    ensures var fs' := WithLast(fs, x, Text(data));
            && Growing(fs', spot[x := Next(fs, spot)]) && fs' != [] && fs'[|fs'| - 1].node == fs[|fs| - 1].node
  {
    Added(fs, x, Text(data), spot, spot[x := Next(fs, spot)]);
  }

  // What the three events do to the value that the nodes stand for.

  lemma StepStarts(root: bool, fs: seq<Frame>, f: Frame)
    requires (fs != [] || root) && f.o.kids == []
    ensures Step(State(root, Stack(fs)), Start(f.o.name, f.o.attribs)) == (State(root, Stack(fs + [f])), [])
  {
    StackEnd(fs, f);
  }

  lemma StepEnds(root: bool, fs: seq<Frame>, name: string)
    requires fs != []
    ensures var n := |fs| - 1;
            var t := ClosedTree(fs[n].o);
            Step(State(root, Stack(fs)), End(name)) ==
            if n == 0 then (State(root, []), [Stanza(t)])
            else (State(root, Stack(WithLast(fs[..n], fs[n].node, t))), [])
  {
    var n := |fs| - 1;
    var stack := Stack(fs);
    assert stack[n] == fs[n].o && stack[..n] == Stack(fs[..n]);
    if n > 0 { StackWithLast(fs[..n], fs[n].node, ClosedTree(fs[n].o)); }
  }

  lemma StepAdds(root: bool, fs: seq<Frame>, x: Node, data: string)
    requires fs != []
    ensures Step(State(root, Stack(fs)), Chars(data)) == (State(root, Stack(WithLast(fs, x, Text(data)))), [])
  {
    StackWithLast(fs, x, Text(data));
  }

  /** What was below position a or at it now counts as being at it. */
  function Lowered(spot: Spots, a: nat): Spots {
    map m | m in spot :: if spot[m] > a then a else spot[m]
  }

  /** Everything below an open node whose children are closed lies behind it. */
  ghost predicate Finished(f: Frame, spot: Spots)
    requires f.node in spot
    reads f.node`firstchild, f.node`attribs, f.node`data, f.node.firstchild, ReprOf(f.node.firstchild)
  {
    var below := ReprOf(f.node.firstchild);
    && Complete(f.node, ClosedTree(f.o)) && (f.node.firstchild != null ==> f.node.firstchild in below)
    && forall x :: x in below ==> x in spot && spot[f.node] < spot[x]
  }

  ghost method FinishInner(outer: seq<Frame>, f: Frame, spot: Spots)
    requires f.node in spot && FrameOk(f, null, spot, spot[f.node] + 1 + |f.kids|) && Outer(outer, f.node, spot)
    modifies spot.Keys`repr
    ensures Finished(f, spot) && Outer(outer, f.node, spot)
  {
    Finish(f, spot, spot[f.node] + 1 + |f.kids|);
    assert Outer(outer, f.node, spot) == old(Outer(outer, f.node, spot));
  }

  /** The closed node is a child of the open one around it. */
  lemma InnerShut(outer: seq<Frame>, f: Frame, spot: Spots)
    requires outer != [] && f.node in spot && f.node.kind.Tag?
    requires Finished(f, spot) && Outer(outer, f.node, spot)
    ensures Growing(WithLast(outer, f.node, ClosedTree(f.o)), Lowered(spot, spot[f.node]))
    ensures f.node.parent == outer[|outer| - 1].node
  {
    var last := outer[|outer| - 1];
    var kids := Children(last, f.node);
    assert kids[|kids| - 1] == f.node;
    Added(outer, f.node, ClosedTree(f.o), spot, Lowered(spot, spot[f.node]));
  }

  /** The frames once the innermost one is closed. */
  function Fewer(fs: seq<Frame>): seq<Frame>
    requires fs != []
  {
    var n := |fs| - 1;
    if n == 0 then [] else WithLast(fs[..n], fs[n].node, ClosedTree(fs[n].o))
  }

  function FewerSpots(fs: seq<Frame>, spot: Spots): Spots
    requires fs != [] && fs[|fs| - 1].node in spot
  {
    if |fs| == 1 then map[] else Lowered(spot, spot[fs[|fs| - 1].node])
  }

  /** The innermost open node is closed: it is a stanza, or a complete child of its parent. */
  ghost method Shut(root: bool, fs: seq<Frame>, spot: Spots, name: string)
    requires fs != [] && Growing(fs, spot)
    modifies spot.Keys`repr
    ensures var node, fs' := fs[|fs| - 1].node, Fewer(fs);
            if fs' == [] then
              && node.parent == null && node.next == null && node.kind.Tag? && node.Valid() && node.repr <= spot.Keys
              && Step(State(root, Stack(fs)), End(name)) == (State(root, []), [Stanza(TreeOf(node))])
            else
              && Growing(fs', FewerSpots(fs, spot)) && node.parent == fs'[|fs'| - 1].node
              && Step(State(root, Stack(fs)), End(name)) == (State(root, Stack(fs')), [])
  {
    var outer, f := fs[..|fs| - 1], fs[|fs| - 1];
    StepEnds(root, fs, name);
    FinishInner(outer, f, spot);
    if outer == [] {
      SealOne(f.node, ClosedTree(f.o));
    } else {
      InnerShut(outer, f, spot);
    }
  }

  /** A call of the socket's owner, with the node that it gets. */
  datatype Call = RootCall(node: Node) | NodeCall(node: Node) | CloseCall

  /** The node of a stanza is a whole tree of its own. */
  ghost predicate Handed(call: Option<Call>)
    reads *
  {
    call.Some? && call.value.NodeCall? ==>
      var n := call.value.node; n.Valid() && n.parent == null && n.next == null && n.kind.Tag?
  }

  /** What the owner gets to see. */
  ghost function Seen(call: Option<Call>): seq<Callback>
    requires Handed(call)
    reads *
  {
    match call
    case None => []
    case Some(RootCall(n)) => [Root(n.name, n.attribs)]
    case Some(NodeCall(n)) => [Stanza(TreeOf(n))]
    case Some(CloseCall) => [Close]
  }

  /** The fields of the socket that the handlers use. */
  class Parser {
    var root: bool
    var stacknode: Node?
    ghost var frames: seq<Frame>
    ghost var spot: Spots

    ghost predicate Valid()
      reads this, spot.Keys
    {
      if frames == [] then stacknode == null
      else stacknode == frames[|frames| - 1].node && Growing(frames, spot)
    }

    /** The state of XmlStream that the nodes stand for. */
    ghost function Fields(): State
      reads this
    {
      State(root, Stack(frames))
    }

    constructor ()
      ensures Valid() && Fields() == FRESH && spot == map[]
    {
      root, stacknode, frames, spot := false, null, [], map[];
    }

    /** The part of _mio_xstream_startElement for a new packet. */
    method StartPacket(name: string, attribs: Attribs) returns (call: Option<Call>)
      requires Valid() && stacknode == null
      modifies this
      ensures Valid() && Handed(call) && Step(old(Fields()), Start(name, attribs)) == (Fields(), Seen(call))
      ensures fresh(spot.Keys - old(spot.Keys)) && !(call.Some? && call.value.NodeCall?)
    {
      call := None;
      var x := new Node(Tag, name);
      x.attribs := attribs;
      if !root {
        call := Some(RootCall(x));
        root := true;
      } else {
        ghost var f := Frame(x, [], Open(name, attribs, []));
        FirstOpened(x);
        StepStarts(root, frames, f);
        assert [] + [f] == [f];
        stacknode, frames, spot := x, [f], map[x := 0];
      }
    }

    /** The part of _mio_xstream_startElement inside a packet. */
    method StartChild(name: string, attribs: Attribs)
      requires Valid() && stacknode != null
      modifies this, spot.Keys`firstchild, spot.Keys`lastchild, spot.Keys`next
      ensures Valid() && Step(old(Fields()), Start(name, attribs)) == (Fields(), [])
      ensures fresh(spot.Keys - old(spot.Keys))
    {
      var x := Extend(stacknode, Tag, name, attribs, "", frames, spot);
      ghost var f := Frame(x, [], Open(name, attribs, []));
      Opened(frames, x, spot);
      StepStarts(root, frames, f);
      stacknode, frames, spot := x, frames + [f], spot[x := Next(frames, spot)];
    }

    /** _mio_xstream_startElement. */
    method StartElement(name: string, attribs: Attribs) returns (call: Option<Call>)
      requires Valid()
      modifies this, spot.Keys`firstchild, spot.Keys`lastchild, spot.Keys`next
      ensures Valid() && Handed(call) && Step(old(Fields()), Start(name, attribs)) == (Fields(), Seen(call))
      ensures fresh(spot.Keys - old(spot.Keys)) && !(call.Some? && call.value.NodeCall?)
    {
      if stacknode == null {
        call := StartPacket(name, attribs);
      } else {
        call := None;
        StartChild(name, attribs);
      }
    }

    /** The part of _mio_xstream_endElement inside a packet. */
    method EndChild(name: string) returns (call: Option<Call>)
      requires Valid() && stacknode != null
      modifies this, spot.Keys`repr
      ensures Valid() && Handed(call) && Step(old(Fields()), End(name)) == (Fields(), Seen(call))
      ensures spot.Keys <= old(spot.Keys)
      ensures call.Some? && call.value.NodeCall? ==> frames == [] && call.value.node.repr <= old(spot.Keys)
    {
      var parent := stacknode.parent;
      ghost var fs, at := frames, spot;
      call := if parent == null then Some(NodeCall(stacknode)) else None;
      stacknode, frames, spot := parent, Fewer(fs), FewerSpots(fs, at);
      Shut(root, fs, at, name);
    }

    /** _mio_xstream_endElement. */
    method EndElement(name: string) returns (call: Option<Call>)
      requires Valid()
      modifies this, spot.Keys`repr
      ensures Valid() && Handed(call) && Step(old(Fields()), End(name)) == (Fields(), Seen(call))
      ensures spot.Keys <= old(spot.Keys)
      ensures call.Some? && call.value.NodeCall? ==> frames == [] && call.value.node.repr <= old(spot.Keys)
    {
      if stacknode == null {
        call := Some(CloseCall);
      } else {
        call := EndChild(name);
      }
    }

    /** _mio_xstream_CDATA. */
    method CharacterData(data: string)
      requires Valid()
      modifies this, spot.Keys`firstchild, spot.Keys`lastchild, spot.Keys`next
      ensures Valid() && (Fields(), []) == Step(old(Fields()), Chars(data)) && fresh(spot.Keys - old(spot.Keys))
    {
      if stacknode != null {
        var x := Extend(stacknode, Cdata, "", [], data, frames, spot);
        TextAdded(frames, x, data, spot);
        StepAdds(root, frames, x, data);
        frames, spot := WithLast(frames, x, Text(data)), spot[x := Next(frames, spot)];
      }
    }
  }

  // ------------------------------------------------------- from events to text

  /** The stanzas, printed. */
  function Printed(cs: seq<Callback>): seq<string> {
    if cs == [] then [] else (if cs[0].Stanza? then [Print(cs[0].tree)] else []) + Printed(cs[1..])
  }

  lemma {:induction false} PrintedConcat(a: seq<Callback>, b: seq<Callback>)
    ensures Printed(a + b) == Printed(a) + Printed(b)
  {
    if a == [] {
      assert a + b == b;
    } else {
      assert (a + b)[0] == a[0] && (a + b)[1..] == a[1..] + b;
      PrintedConcat(a[1..], b);
    }
  }

  /** The elements among the trees, printed. */
  function PrintedElems(ts: seq<Tree>): seq<string> {
    if ts == [] then [] else (if ts[0].Elem? then [Print(ts[0])] else []) + PrintedElems(ts[1..])
  }

  lemma {:induction false} PrintedStanzas(ts: seq<Tree>)
    ensures Printed(Stanzas(ts)) == PrintedElems(ts)
  {
    if ts != [] {
      PrintedStanzas(ts[1..]);
      var c := if ts[0].Elem? then [Stanza(ts[0])] else [];
      PrintedConcat(c, Stanzas(ts[1..]));
      assert ts[0].Elem? ==> c[1..] == [];
    }
  }

  /** What comes out for a document: each element of its root, printed, and nothing else. */
  lemma DocumentPrinted(name: string, attribs: Attribs, items: seq<Tree>)
    ensures Printed(Feed(FRESH, Events(Elem(name, attribs, items))).1) == PrintedElems(items)
  {
    StreamDelivers(name, attribs, items);
    PrintedStanzas(items);
    var cs := Stanzas(items);
    PrintedConcat([Root(name, attribs)] + cs, [Close]);
    PrintedConcat([Root(name, attribs)], cs);
    assert [Root(name, attribs)][1..] == [] && [Close][1..] == [];
    assert [] + PrintedElems(items) + [] == PrintedElems(items);
  }

  lemma {:induction false} JoinedPrinted(cs: seq<Callback>)
    ensures Printed(JoinedCallbacks(cs)) == Printed(cs)
  {
    if cs != [] {
      JoinedPrinted(cs[1..]);
      if cs[0].Stanza? { JoinedPrint(cs[0].tree); }
    }
  }

  /** The text does not depend on the pieces that the character data came in. */
  lemma PiecesPrintAlike(es: seq<Event>, es': seq<Event>)
    requires JoinEvents(es) == JoinEvents(es')
    ensures Printed(Feed(FRESH, es).1) == Printed(Feed(FRESH, es').1)
  {
    PiecesDoNotMatter(es, es');
    JoinedPrinted(Feed(FRESH, es).1);
    JoinedPrinted(Feed(FRESH, es').1);
  }

  /** One event, and the text of the stanza that it completes. */
  method Handle(p: Parser, e: Event) returns (text: seq<string>)
    requires p.Valid()
    modifies p, p.spot.Keys
    ensures p.Valid() && fresh(p.spot.Keys - old(p.spot.Keys))
    ensures var (st, out) := Step(old(p.Fields()), e); p.Fields() == st && text == Printed(out)
  {
    text := [];
    var call := None;
    match e {
      case Start(name, attribs) => call := p.StartElement(name, attribs);
      case End(name) => call := p.EndElement(name);
      case Chars(data) => p.CharacterData(data);
    }
    if call.Some? && call.value.NodeCall? {
      var node := call.value.node;
      var t := ToText(node);
      text := [t.value];
    }
  }

  lemma FeedNext(es: seq<Event>, i: nat)
    requires i < |es|
    ensures var (st, seen) := Feed(FRESH, es[..i]);
            var (st', out) := Step(st, es[i]);
            var fed := Feed(FRESH, es[..i + 1]);
            fed.0 == st' && Printed(fed.1) == Printed(seen) + Printed(out)
  {
    var (st, seen) := Feed(FRESH, es[..i]);
    FeedConcat(FRESH, es[..i], [es[i]]);
    FeedOne(st, es[i]);
    PrintedConcat(seen, Step(st, es[i]).1);
    assert es[..i] + [es[i]] == es[..i + 1];
  }

  /** Main result: whatever a stream brings, on linked nodes every stanza is handed over as a
      whole tree, and printing it gives the reference print of its value. */
  method Relay(es: seq<Event>) returns (texts: seq<string>)
    ensures texts == Printed(Feed(FRESH, es).1)
  {
    var p := new Parser();
    texts := [];
    var i := 0;
    while i < |es|
      invariant 0 <= i <= |es| && p.Valid() && fresh(p) && fresh(p.spot.Keys)
      invariant var fed := Feed(FRESH, es[..i]); fed.0 == p.Fields() && texts == Printed(fed.1)
    {
      FeedNext(es, i);
      var text := Handle(p, es[i]);
      texts, i := texts + text, i + 1;
    }
    assert es[..i] == es;
  }
}
