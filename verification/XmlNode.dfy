/** The XML tree of lib/xmlnode.c: nodes linked by sibling, child and parent pointers, the
    merging of character data, and the printer that walks the pointers. */
module XmlNode {
  import opened Options
  import XmlText

  /** What a tree of nodes stands for. */
  datatype Tree = Elem(name: string, attribs: seq<(string, string)>, kids: seq<Tree>) | Text(data: string)

  // ----------------------------------------------- the reference printer

  function Attribs(attribs: seq<(string, string)>): string {
    if attribs == [] then ""
    else " " + attribs[0].0 + "='" + XmlText.Escape(attribs[0].1) + "'" + Attribs(attribs[1..])
  }

  /** _xmlnode_tag2str: flag 0 prints an empty tag, 1 an opening and 2 a closing one. */
  function TagText(name: string, attribs: seq<(string, string)>, flag: int): string {
    if flag == 0 then "<" + name + Attribs(attribs) + "/>"
    else if flag == 1 then "<" + name + Attribs(attribs) + ">"
    else "</" + name + ">"
  }

  function Print(t: Tree): string {
    match t
    case Text(data) => XmlText.Escape(data)
    case Elem(name, attribs, kids) =>
      if kids == [] then TagText(name, attribs, 0)
      else TagText(name, attribs, 1) + PrintAll(kids) + TagText(name, attribs, 2)
  }

  function PrintAll(ts: seq<Tree>): string {
    if ts == [] then "" else Print(ts[0]) + PrintAll(ts[1..])
  }

  /** What the walk prints when it starts at the first tree: it goes on to the siblings
      until it has printed one that has children. */
  function PrintFrom(ts: seq<Tree>): string {
    if ts == [] then ""
    else if ts[0].Elem? && ts[0].kids != [] then Print(ts[0])
    else Print(ts[0]) + PrintFrom(ts[1..])
  }

  /** The first text takes in the texts that follow it. */
  function MergeFirst(ts: seq<Tree>): seq<Tree>
    decreases |ts|
  {
    if |ts| >= 2 && ts[0].Text? && ts[1].Text? then MergeFirst([Text(ts[0].data + ts[1].data)] + ts[2..])
    else ts
  }

  lemma TextFirst(a: string, ts: seq<Tree>)
    ensures PrintAll([Text(a)] + ts) == XmlText.Escape(a) + PrintAll(ts)
    ensures PrintFrom([Text(a)] + ts) == XmlText.Escape(a) + PrintFrom(ts)
  {
    assert ([Text(a)] + ts)[1..] == ts;
  }

  lemma MergeTwoPrint(a: string, b: string, rest: seq<Tree>)
    ensures PrintAll([Text(a + b)] + rest) == PrintAll([Text(a)] + ([Text(b)] + rest))
    ensures PrintFrom([Text(a + b)] + rest) == PrintFrom([Text(a)] + ([Text(b)] + rest))
  {
    XmlText.EscapeConcat(a, b);
    TextFirst(a + b, rest);
    TextFirst(b, rest);
    TextFirst(a, [Text(b)] + rest);
    Assoc(XmlText.Escape(a), XmlText.Escape(b), PrintAll(rest));
    Assoc(XmlText.Escape(a), XmlText.Escape(b), PrintFrom(rest));
  }

  lemma Assoc(x: string, y: string, z: string)
    ensures (x + y) + z == x + (y + z)
  {
  }

  /** Merging does not change what is printed. */
  lemma {:induction false} MergeKeepsPrint(ts: seq<Tree>)
    ensures PrintAll(MergeFirst(ts)) == PrintAll(ts) && PrintFrom(MergeFirst(ts)) == PrintFrom(ts)
    ensures MergeFirst(ts) == [] <==> ts == []
    decreases |ts|
  {
    if |ts| >= 2 && ts[0].Text? && ts[1].Text? {
      MergeTwoPrint(ts[0].data, ts[1].data, ts[2..]);
      MergeKeepsPrint([Text(ts[0].data + ts[1].data)] + ts[2..]);
      assert ts == [Text(ts[0].data)] + ([Text(ts[1].data)] + ts[2..]);
    }
  }

  // -------------------------------------------------------- the nodes

  datatype NodeType = Tag | Cdata

  class Node {
    const kind: NodeType
    const name: string
    var attribs: seq<(string, string)>
    var data: string
    var next: Node?
    var prev: Node?
    var parent: Node?
    var firstchild: Node?
    var lastchild: Node?
    /** This node, its descendants, and the siblings after it with theirs. */
    ghost var repr: set<Node>

    /** _xmlnode_new, with the memory cleared. */
    constructor (kind: NodeType, name: string)
      ensures this.kind == kind && this.name == name && attribs == [] && data == "" && repr == {this}
      ensures next == prev == parent == firstchild == lastchild == null
    {
      this.kind, this.name, attribs, data := kind, name, [], "";
      next, prev, parent, firstchild, lastchild := null, null, null, null, null;
      repr := {this};
    }

    ghost predicate Valid()
      reads this, repr
      decreases repr
      ensures Valid() ==> this in repr
    {
      && this in repr
      && (kind.Cdata? ==> firstchild == null)
      && (next != null ==>
            next in repr && next.repr <= repr && this !in next.repr && next.parent == parent && next.Valid())
      && (firstchild != null ==>
            firstchild in repr && firstchild.repr <= repr && this !in firstchild.repr
            && firstchild.parent == this && firstchild.Valid())
      && (next != null && firstchild != null ==> next.repr !! firstchild.repr)
    }
  }

  ghost predicate ValidOrNull(n: Node?)
    reads n, if n == null then {} else n.repr
  {
    n != null ==> n.Valid()
  }

  /** The tree below a node. */
  ghost function TreeOf(n: Node): Tree
    requires n.Valid()
    reads n, n.repr
    decreases n.repr, 0
  {
    if n.kind.Cdata? then Text(n.data)
    else Elem(n.name, n.attribs, Forest(n.firstchild))
  }

  /** The trees of a node and of the siblings after it. */
  ghost function Forest(n: Node?): seq<Tree>
    requires ValidOrNull(n)
    reads n, if n == null then {} else n.repr
    decreases if n == null then {} else n.repr, 1
  {
    if n == null then [] else [TreeOf(n)] + Forest(n.next)
  }

  // --------------------------------------------------------- merging

  /** Changing the prev pointer of a node matters to no tree. */
  method SetPrev(n: Node, prev: Node)
    requires n.Valid()
    modifies n`prev
    ensures n.Valid() && Forest(n) == old(Forest(n)) && n.prev == prev
  {
    n.prev := prev;
    assert n.next != null ==> n.next.Valid() && Forest(n.next) == old(Forest(n.next));
    assert n.firstchild != null ==> n.firstchild.Valid() && Forest(n.firstchild) == old(Forest(n.firstchild));
  }

  /** The loops of _xmlnode_merge over the run of character data that starts at n. */
  method Gather(n: Node) returns (merge: string, cur: Node?)
    requires n.Valid() && n.kind.Cdata?
    ensures ValidOrNull(cur) && [Text(merge)] + Forest(cur) == MergeFirst(Forest(n))
    ensures cur != null ==> cur.kind.Tag? && cur.repr <= n.repr && cur.parent == n.parent && n !in cur.repr
  {
    merge, cur := "", n;
    assert ([Text("")] + Forest(n))[2..] == Forest(n)[1..] && "" + n.data == n.data;
    assert Forest(n) == [Text("" + n.data)] + Forest(n)[1..];
    while cur != null && cur.kind.Cdata?
      invariant ValidOrNull(cur)
      invariant cur != null ==> cur.repr <= n.repr && cur.parent == n.parent && (cur == n || n !in cur.repr)
      invariant MergeFirst([Text(merge)] + Forest(cur)) == MergeFirst(Forest(n))
      decreases if cur == null then {} else cur.repr
    {
      assert ([Text(merge)] + Forest(cur))[2..] == Forest(cur.next);
      merge := merge + cur.data;
      cur := cur.next;
    }
  }

  /** _xmlnode_merge: the run of character data that starts at n becomes one node. */
  method Merge(n: Node)
    requires n.Valid() && n.kind.Cdata? && n.parent != null && n.parent !in n.repr
    modifies n`next, n`data, n.repr`prev, n.parent`lastchild
    ensures n.Valid() && Forest(n) == MergeFirst(old(Forest(n)))
    ensures n.next == null ==> n.parent.lastchild == n
    ensures n.next != null ==> n.next.prev == n && n.next.kind.Tag?
  {
    var merge, cur := Gather(n);
    n.next := cur;
    if cur == null {
      n.parent.lastchild := n;
    } else {
      assert cur.Valid();
      SetPrev(cur, n);
    }
    n.data := merge;
  }

  // --------------------------------------------------- the walking printer

  ghost function ReprOf(n: Node?): set<Node>
    reads n
  {
    if n == null then {} else n.repr
  }

  /** The ancestors that the walk has still to come back to, outermost first: none lies in
      the part being printed (`busy`), and the siblings after each of them, except after
      the outermost, are intact, apart from each other, and among the nodes `todo`. */
  ghost predicate Suspended(anc: seq<Node>, busy: set<Node>, todo: set<Node>)
    reads *
  {
    && (forall k :: 0 <= k < |anc| ==> anc[k] !in busy && anc[k].kind.Tag?)
    && (forall i :: 1 <= i < |anc| ==>
          && ValidOrNull(anc[i].next) && anc[i].parent == anc[i - 1]
          && (anc[i].next != null ==> anc[i].next.parent == anc[i].parent)
          && ReprOf(anc[i].next) <= todo && ReprOf(anc[i].next) !! busy)
    && (forall i, k :: 1 <= i < |anc| && 0 <= k < |anc| ==> anc[k] !in ReprOf(anc[i].next))
    && (forall i, j :: 1 <= j < i < |anc| ==> ReprOf(anc[j].next) !! ReprOf(anc[i].next))
  }

  /** What is still to be printed once the children of each ancestor are. */
  ghost predicate Continues(anc: seq<Node>, conts: seq<string>)
    requires forall i :: 1 <= i < |anc| ==> ValidOrNull(anc[i].next)
    reads *
  {
    |conts| == |anc| && forall i :: 0 <= i < |anc| ==> ContinuesAt(anc, conts, i)
  }

  ghost predicate ContinuesAt(anc: seq<Node>, conts: seq<string>, i: nat)
    requires i < |anc| == |conts| && (i > 0 ==> ValidOrNull(anc[i].next))
    reads *
  {
    conts[i] == TagText(anc[i].name, [], 2) + if i == 0 then "" else PrintAll(Forest(anc[i].next)) + conts[i - 1]
  }

  /** What is left to print when the siblings from n on come next. */
  ghost function Remaining(n: Node?, conts: seq<string>): string
    requires ValidOrNull(n)
    reads n, if n == null then {} else n.repr
  {
    if conts == [] then PrintFrom(Forest(n)) else PrintAll(Forest(n)) + conts[|conts| - 1]
  }

  /** The walk is about to go on with the siblings from n on, below the ancestors. */
  ghost predicate Ready(n: Node?, parent: Node?, anc: seq<Node>, conts: seq<string>, todo: set<Node>)
    reads *
  {
    && ValidOrNull(n) && ReprOf(n) <= todo && Suspended(anc, ReprOf(n), todo) && Continues(anc, conts)
    && (n != null ==> n.parent == parent && (parent == null || parent !in n.repr))
    && (anc != [] ==> parent == anc[|anc| - 1])
  }

  lemma ForestCons(n: Node)
    requires n.Valid()
    ensures Forest(n) != [] && Forest(n)[0] == TreeOf(n) && Forest(n)[1..] == Forest(n.next)
  {
  }

  /** The continuation of an ancestor that the walk goes below. */
  ghost function Cont(n: Node, conts: seq<string>): string
    requires ValidOrNull(n.next)
    reads *
  {
    TagText(n.name, [], 2) + if conts == [] then "" else PrintAll(Forest(n.next)) + conts[|conts| - 1]
  }

  lemma DescendSuspended(n: Node, anc: seq<Node>, todo: set<Node>)
    requires n.Valid() && n.kind.Tag? && n.firstchild != null && Suspended(anc, n.repr, todo) && n.repr <= todo
    requires anc != [] ==> n.parent == anc[|anc| - 1]
    requires n.parent != null ==> n.parent !in n.repr
    ensures Suspended(anc + [n], n.firstchild.repr, todo - {n})
  {
    var below := anc + [n];
    forall i | 1 <= i < |below|
      ensures ReprOf(below[i].next) <= todo - {n} && ReprOf(below[i].next) !! n.firstchild.repr
    {
      if i < |anc| { assert below[i] == anc[i]; }
    }
    forall i, k | 1 <= i < |below| && 0 <= k < |below|
      ensures below[k] !in ReprOf(below[i].next)
    {
      if i < |anc| { assert below[i] == anc[i]; }
      if k < |anc| { assert below[k] == anc[k]; }
    }
    forall i, j | 1 <= j < i < |below|
      ensures ReprOf(below[j].next) !! ReprOf(below[i].next)
    {
      assert below[j] == anc[j];
      if i < |anc| { assert below[i] == anc[i]; }
    }
  }

  lemma DescendContinues(n: Node, anc: seq<Node>, conts: seq<string>)
    requires forall i :: 1 <= i < |anc| ==> ValidOrNull(anc[i].next)
    requires ValidOrNull(n.next) && Continues(anc, conts)
    ensures Continues(anc + [n], conts + [Cont(n, conts)])
  {
    var below, more := anc + [n], conts + [Cont(n, conts)];
    forall i | 0 <= i < |below|
      ensures ContinuesAt(below, more, i)
    {
      if i < |anc| { assert ContinuesAt(anc, conts, i) && below[i] == anc[i] && more[i] == conts[i]; }
    }
  }

  lemma FiveParts(a: string, b: string, c: string, d: string, e: string)
    ensures ((a + b + c) + d) + e == a + (b + (c + (d + e)))
  {
  }

  lemma DescendPrint(n: Node, conts: seq<string>)
    requires n.Valid() && n.kind.Tag? && n.firstchild != null
    ensures Remaining(n, conts) == TagText(n.name, n.attribs, 1) + Remaining(n.firstchild, conts + [Cont(n, conts)])
  {
    ForestCons(n);
    ForestCons(n.firstchild);
    var open, kids, close := TagText(n.name, n.attribs, 1), PrintAll(Forest(n.firstchild)), TagText(n.name, [], 2);
    assert Print(TreeOf(n)) == open + kids + close;
    if conts == [] {
      assert close + "" == close;
      Assoc(open, kids, close);
    } else {
      var after := PrintAll(Forest(n.next));
      var last := conts[|conts| - 1];
      assert Remaining(n, conts) == ((open + kids + close) + after) + last;
      FiveParts(open, kids, close, after, last);
    }
  }

  /** Going down to the children of n. */
  lemma Descend(n: Node, anc: seq<Node>, conts: seq<string>, todo: set<Node>)
    requires Ready(n, n.parent, anc, conts, todo) && n.kind.Tag? && n.firstchild != null
    ensures Ready(n.firstchild, n, anc + [n], conts + [Cont(n, conts)], todo - {n})
    ensures Remaining(n, conts) == TagText(n.name, n.attribs, 1) + Remaining(n.firstchild, conts + [Cont(n, conts)])
  {
    DescendSuspended(n, anc, todo);
    DescendContinues(n, anc, conts);
    DescendPrint(n, conts);
  }

  /** A node that has been printed is done with; the siblings after it come next. */
  lemma Leave(n: Node, anc: seq<Node>, conts: seq<string>, todo: set<Node>)
    requires Ready(n, n.parent, anc, conts, todo)
    ensures Ready(n.next, n.parent, anc, conts, todo - {n})
    ensures n.firstchild == null ==> Remaining(n, conts) == Print(TreeOf(n)) + Remaining(n.next, conts)
  {
    ForestCons(n);
    if n.firstchild == null && conts != [] {
      assert PrintAll(Forest(n)) + conts[|conts| - 1]
          == Print(TreeOf(n)) + (PrintAll(Forest(n.next)) + conts[|conts| - 1]);
    }
  }

  lemma AscendPrint(anc: seq<Node>, conts: seq<string>)
    requires forall i :: 1 <= i < |anc| ==> ValidOrNull(anc[i].next)
    requires anc != [] && Continues(anc, conts)
    ensures var p, k := anc[|anc| - 1], |anc| - 1;
            Remaining(null, conts) == TagText(p.name, [], 2) + (if k == 0 then "" else Remaining(p.next, conts[..k]))
  {
    var k := |anc| - 1;
    assert ContinuesAt(anc, conts, k);
    assert PrintAll(Forest(null)) == "" && "" + conts[k] == conts[k];
    if k > 0 {
      assert conts[..k][k - 1] == conts[k - 1];
    }
  }

  /** Coming back to the innermost ancestor: its closing tag, then its siblings. */
  lemma Ascend(anc: seq<Node>, conts: seq<string>, parent: Node?, todo: set<Node>)
    requires Ready(null, parent, anc, conts, todo) && |anc| > 1
    ensures var p, k := anc[|anc| - 1], |anc| - 1; Ready(p.next, p.parent, anc[..k], conts[..k], todo)
  {
    var k := |anc| - 1;
    var p, above := anc[k], anc[..k];
    assert p.parent == anc[k - 1] && p.parent !in ReprOf(p.next);
    assert forall i :: 0 <= i < k ==> above[i] == anc[i];
    assert Suspended(above, ReprOf(p.next), todo);
    forall i | 0 <= i < k
      ensures ContinuesAt(above, conts[..k], i)
    {
      assert ContinuesAt(anc, conts, i);
    }
  }

  /** Merging below suspended ancestors leaves the siblings they go on with alone. */
  method MergeBelow(n: Node, ghost anc: seq<Node>, ghost todo: set<Node>)
    requires n.Valid() && n.kind.Cdata? && n.parent != null && n.parent !in n.repr
    requires Suspended(anc, n.repr, todo) && (anc != [] ==> n.parent == anc[|anc| - 1])
    modifies n`next, n`data, n.repr`prev, n.parent`lastchild
    ensures n.Valid() && Forest(n) == MergeFirst(old(Forest(n)))
    ensures Suspended(anc, n.repr, todo)
    ensures forall i :: 1 <= i < |anc| ==> Forest(anc[i].next) == old(Forest(anc[i].next))
  {
    assert forall i :: 1 <= i < |anc| ==> ReprOf(anc[i].next) !! n.repr && n.parent !in ReprOf(anc[i].next);
    Merge(n);
  }

  /** xmlnode_get_data on character data: merges the run that starts here. What is left to
      print stays the same, and so does everything the walk comes back to. */
  method GetData(n: Node, ghost anc: seq<Node>, ghost conts: seq<string>, ghost todo: set<Node>) returns (data: string)
    requires Ready(n, n.parent, anc, conts, todo) && n.kind.Cdata? && (n.parent == null ==> n.next == null)
    modifies n`next, n`data, n.repr`prev, (if n.parent == null then {} else {n.parent})`lastchild
    ensures Ready(n, n.parent, anc, conts, todo) && data == n.data && (n.parent == null ==> n.next == null)
    ensures Remaining(n, conts) == old(Remaining(n, conts))
  {
    if n.next != null && n.next.kind.Cdata? {
      MergeKeepsPrint(Forest(n));
      MergeBelow(n, anc, todo);
      forall i | 0 <= i < |anc|
        ensures ContinuesAt(anc, conts, i)
      {
        assert old(ContinuesAt(anc, conts, i));
      }
    }
    data := n.data;
  }

  /** _xmlnode_tag2str. */
  method TagToText(n: Node, flag: int) returns (s: string)
    ensures s == TagText(n.name, if flag == 0 || flag == 1 then n.attribs else [], flag)
  {
    if flag == 0 || flag == 1 {
      s := "<" + n.name;
      ghost var start := s;
      var i := 0;
      while i < |n.attribs|
        invariant i <= |n.attribs| && s + Attribs(n.attribs[i..]) == start + Attribs(n.attribs)
      {
        assert n.attribs[i..][1..] == n.attribs[i + 1..];
        var value := XmlText.StrEscape(n.attribs[i].1);
        s := s + (" " + n.attribs[i].0 + "='" + value + "'");
        i := i + 1;
      }
      assert n.attribs[i..] == [] && s + "" == s;
      s := s + if flag == 0 then "/>" else ">";
    } else {
      s := "</" + n.name + ">";
    }
  }

  /** A node without children is printed on the spot. */
  method PrintLeaf(n: Node, ghost anc: seq<Node>, ghost conts: seq<string>, ghost todo: set<Node>) returns (t: string)
    requires Ready(n, n.parent, anc, conts, todo) && n.firstchild == null && (n.parent == null ==> n.next == null)
    modifies n`next, n`data, n.repr`prev, (if n.parent == null then {} else {n.parent})`lastchild
    ensures Ready(n.next, n.parent, anc, conts, todo - {n})
    ensures t + Remaining(n.next, conts) == old(Remaining(n, conts)) && (n.parent == null ==> n.next == null)
  {
    if n.kind.Tag? {
      Leave(n, anc, conts, todo);
      t := TagToText(n, 0);
    } else {
      var data := GetData(n, anc, conts, todo);
      Leave(n, anc, conts, todo);
      t := XmlText.StrEscape(data);
    }
  }

  /** The walk inside the tree of `root`: it is about to print `node` (dir 0), or has
      printed it (dir 1) and looks at the siblings after it. */
  ghost predicate Walking(root: Node, node: Node, dir: int, anc: seq<Node>, conts: seq<string>, todo: set<Node>)
    reads *
  {
    && node in root.repr && todo <= root.repr && (anc == [] ==> node.parent == root.parent)
    && (forall k :: 0 <= k < |anc| ==> anc[k] in root.repr)
    && (node.parent == null ==> node.next == null)
    && Ready(if dir == 0 then node else node.next, node.parent, anc, conts, todo)
  }

  ghost function Left(node: Node, dir: int, conts: seq<string>): string
    requires ValidOrNull(if dir == 0 then node else node.next)
    reads *
  {
    Remaining(if dir == 0 then node else node.next, conts)
  }

  lemma WalkDown(root: Node, node: Node, anc: seq<Node>, conts: seq<string>, todo: set<Node>)
    requires Walking(root, node, 0, anc, conts, todo) && node.kind.Tag? && node.firstchild != null
    ensures Walking(root, node.firstchild, 0, anc + [node], conts + [Cont(node, conts)], todo - {node})
    ensures Left(node, 0, conts)
            == TagText(node.name, node.attribs, 1) + Left(node.firstchild, 0, conts + [Cont(node, conts)])
    ensures node in todo
  {
    Descend(node, anc, conts, todo);
  }

  method WalkLeaf(root: Node, node: Node, ghost anc: seq<Node>, ghost conts: seq<string>, ghost todo: set<Node>)
    returns (t: string)
    requires Walking(root, node, 0, anc, conts, todo) && node.firstchild == null
    modifies root.repr`next, root.repr`data, root.repr`prev, root.repr`lastchild,
             (if root.parent == null then {} else {root.parent})`lastchild
    ensures Walking(root, node, 1, anc, conts, todo - {node}) && node in todo
    ensures t + Left(node, 1, conts) == old(Left(node, 0, conts))
  {
    assert node.repr <= root.repr;
    assert node.parent == null || node.parent == root.parent || node.parent in root.repr;
    t := PrintLeaf(node, anc, conts, todo);
  }

  lemma WalkRight(root: Node, node: Node, anc: seq<Node>, conts: seq<string>, todo: set<Node>)
    requires Walking(root, node, 1, anc, conts, todo) && node.next != null
    ensures Walking(root, node.next, 0, anc, conts, todo)
    ensures Left(node, 1, conts) == Left(node.next, 0, conts)
  {
  }

  lemma WalkUp(root: Node, node: Node, anc: seq<Node>, conts: seq<string>, todo: set<Node>)
    requires Walking(root, node, 1, anc, conts, todo) && node.next == null
    ensures anc == [] ==> Left(node, 1, conts) == ""
    ensures anc != [] ==> node.parent == anc[|anc| - 1]
    ensures |anc| == 1 ==> Left(node, 1, conts) == TagText(node.parent.name, [], 2)
    ensures |anc| > 1 ==>
              var k := |anc| - 1;
              && Walking(root, node.parent, 1, anc[..k], conts[..k], todo)
              && Left(node, 1, conts) == TagText(node.parent.name, [], 2) + Left(node.parent, 1, conts[..k])
  {
    if anc != [] { AscendPrint(anc, conts); }
    if |anc| > 1 { Ascend(anc, conts, node.parent, todo); }
  }

  /** Where the walk stands: the variables of the loop, and the proof's view of the stack. */
  datatype Walk = Walk(node: Node, level: int, dir: int)

  ghost predicate InStep(root: Node, w: Walk, anc: seq<Node>, conts: seq<string>, todo: set<Node>)
    reads *
  {
    w.level == |anc| && (w.dir == 0 || (w.dir == 1 && w.level > 0)) && Walking(root, w.node, w.dir, anc, conts, todo)
  }

  /** A node that has been printed: on to its sibling, or back up to its parent. */
  method MoveOn(root: Node, w: Walk, ghost anc: seq<Node>, ghost conts: seq<string>, ghost todo: set<Node>)
    returns (t: string, w': Option<Walk>, ghost anc': seq<Node>, ghost conts': seq<string>)
    requires w.level == |anc| && Walking(root, w.node, 1, anc, conts, todo)
    ensures w'.Some? ==> InStep(root, w'.value, anc', conts', todo)
                         && t + Left(w'.value.node, w'.value.dir, conts') == Left(w.node, 1, conts)
                         && (w'.value.dir == 0 || w'.value.level < w.level) && w'.value.level <= w.level
    ensures w'.None? ==> t == Left(w.node, 1, conts)
  {
    anc', conts' := anc, conts;
    var tmp := w.node.next;
    if tmp != null {
      WalkRight(root, w.node, anc, conts, todo);
      return "", Some(Walk(tmp, w.level, 0)), anc, conts;
    }
    WalkUp(root, w.node, anc, conts, todo);
    var level := w.level - 1;
    t := "";
    if level >= 0 {
      t := TagToText(w.node.parent, 2);
    }
    if level < 1 {
      w' := None;
    } else {
      w' := Some(Walk(w.node.parent, level, 1));
      anc', conts' := anc[..level], conts[..level];
    }
  }

  /** Down to the children, after the opening tag. */
  method GoDown(root: Node, w: Walk, ghost anc: seq<Node>, ghost conts: seq<string>, ghost todo: set<Node>)
    returns (t: string, w': Walk, ghost anc': seq<Node>, ghost conts': seq<string>)
    requires InStep(root, w, anc, conts, todo) && w.dir == 0 && w.node.kind.Tag? && w.node.firstchild != null
    ensures InStep(root, w', anc', conts', todo - {w.node}) && w.node in todo
    ensures t + Left(w'.node, w'.dir, conts') == Left(w.node, w.dir, conts)
  {
    WalkDown(root, w.node, anc, conts, todo);
    t := TagToText(w.node, 1);
    w' := Walk(w.node.firstchild, w.level + 1, 0);
    anc', conts' := anc + [w.node], conts + [Cont(w.node, conts)];
  }

  /** One turn of the loop: prints `t`, and either goes on at `w'` or has finished. */
  method Turn(root: Node, w: Walk, ghost anc: seq<Node>, ghost conts: seq<string>, ghost todo: set<Node>)
    returns (t: string, w': Option<Walk>, ghost anc': seq<Node>, ghost conts': seq<string>, ghost todo': set<Node>)
    requires InStep(root, w, anc, conts, todo)
    modifies root.repr`next, root.repr`data, root.repr`prev, root.repr`lastchild,
             (if root.parent == null then {} else {root.parent})`lastchild
    ensures w'.Some? ==> InStep(root, w'.value, anc', conts', todo')
                         && t + Left(w'.value.node, w'.value.dir, conts') == old(Left(w.node, w.dir, conts))
    ensures w'.Some? ==>
              || todo' < todo
              || (todo' == todo
                  && (w'.value.level < w.level || (w'.value.level == w.level && w'.value.dir < w.dir)))
    ensures w'.None? ==> t == old(Left(w.node, w.dir, conts))
  {
    if w.dir == 0 && w.node.kind.Tag? && w.node.firstchild != null {
      var down;
      t, down, anc', conts' := GoDown(root, w, anc, conts, todo);
      todo' := todo - {w.node};
      return t, Some(down), anc', conts', todo';
    }
    t, todo' := "", todo;
    if w.dir == 0 {
      t := WalkLeaf(root, w.node, anc, conts, todo);
      todo' := todo - {w.node};
    }
    assert t + Left(w.node, 1, conts) == old(Left(w.node, w.dir, conts));
    var u;
    u, w', anc', conts' := MoveOn(root, w, anc, conts, todo');
    if w'.Some? { Assoc(t, u, Left(w'.value.node, w'.value.dir, conts')); }
    t := t + u;
  }

  /** _xmlnode2spool and spool_print: the walk over the pointers, with its level and its
      direction, prints what the recursive printer prints; for a root that has children or
      no sibling after it, that is the root's own tree and nothing else. */
  method ToText(root: Node) returns (text: Option<string>)
    requires root.Valid()
    requires if root.parent == null then root.next == null else root.parent !in root.repr
    modifies root.repr`next, root.repr`data, root.repr`prev, root.repr`lastchild,
             (if root.parent == null then {} else {root.parent})`lastchild
    ensures text == if root.kind.Tag? then Some(PrintFrom(old(Forest(root)))) else None
    ensures root.kind.Tag? && old(root.firstchild != null || root.next == null) ==>
            text == Some(Print(old(TreeOf(root))))
  {
    if root.kind.Cdata? { return None; }
    var s := "";
    var w := Some(Walk(root, 0, 0));
    ghost var anc: seq<Node>, conts: seq<string>, todo := [], [], root.repr;
    ghost var whole := PrintFrom(Forest(root));
    if root.firstchild != null || root.next == null { RootPrint(root); }
    while w.Some?
      invariant w.Some? ==>
                InStep(root, w.value, anc, conts, todo) && s + Left(w.value.node, w.value.dir, conts) == whole
      invariant w.None? ==> s == whole
      decreases w.Some?, todo, if w.Some? then w.value.level else 0, if w.Some? then w.value.dir else 0
    {
      var t;
      t, w, anc, conts, todo := Turn(root, w.value, anc, conts, todo);
      if w.Some? { Assoc(s, t, Left(w.value.node, w.value.dir, conts)); }
      s := s + t;
    }
    return Some(s);
  }

  lemma RootPrint(root: Node)
    requires root.Valid() && root.kind.Tag? && (root.firstchild != null || root.next == null)
    ensures PrintFrom(Forest(root)) == Print(TreeOf(root))
  {
    ForestCons(root);
    if root.firstchild != null {
      ForestCons(root.firstchild);
    } else {
      assert Print(TreeOf(root)) + "" == Print(TreeOf(root));
    }
  }

  lemma PrintsNothing(t: Tree)
    ensures Print(t) == "" <==> t == Text("")
  {
    if t.Text? {
      XmlText.EscapeLength(t.data);
    }
  }

  /** Starting at a childless root, the walk prints the root alone exactly when every
      sibling after it is an empty text. */
  lemma {:induction false} PrintsTooMuch(ts: seq<Tree>)
    ensures PrintFrom(ts) == "" <==> forall t :: t in ts ==> t == Text("")
    decreases |ts|
  {
    if ts != [] {
      PrintsNothing(ts[0]);
      PrintsTooMuch(ts[1..]);
      assert ts == [ts[0]] + ts[1..];
      var head, rest := Print(ts[0]), PrintFrom(ts[1..]);
      assert head + rest == "" <==> head == "" && rest == "" by { assert |head + rest| == |head| + |rest|; }
      assert PrintFrom(ts) == if ts[0].Elem? && ts[0].kids != [] then head else head + rest;
      assert ts[0] in ts && forall t :: t in ts <==> t == ts[0] || t in ts[1..];
      assert (forall t :: t in ts ==> t == Text("")) <==>
             ts[0] == Text("") && forall t :: t in ts[1..] ==> t == Text("");
    }
  }

  /** The exact condition for the printed text to be that of the root. */
  lemma PrintsRootAlone(ts: seq<Tree>)
    requires ts != [] && ts[0].Elem?
    ensures PrintFrom(ts) == Print(ts[0]) <==> ts[0].kids != [] || forall t :: t in ts[1..] ==> t == Text("")
  {
    PrintsTooMuch(ts[1..]);
    assert Print(ts[0]) + "" == Print(ts[0]);
  }
}
