/** The memory pools of lib/pool.c, built with FAST_POOL: heaps that are cut from the front,
    single blocks for big requests, and one list of everything to do when a pool goes. */
module Pool {
  /** What a tracker calls: a registered cleaner, or free on a block of memory. */
  datatype Action = Cleaner(f: int, arg: int) | Release(block: nat)

  /** struct pfree. */
  class Tracker {
    const action: Action
    var next: Tracker?

    constructor (action: Action)
      ensures this.action == action && next == null
    {
      this.action := action;
      next := null;
    }
  }

  /** struct pheap. */
  class Heap {
    const block: nat
    const size: nat
    var used: nat

    constructor (block: nat, size: nat)
      ensures this.block == block && this.size == size && used == 0
    {
      this.block, this.size := block, size;
      used := 0;
    }
  }

  /** A piece of memory that pmalloc gave out: where it is in which block. */
  datatype Piece = Piece(block: nat, offset: nat, size: nat)

  predicate Disjoint(a: Piece, b: Piece) {
    a.block != b.block || a.offset + a.size <= b.offset || b.offset + b.size <= a.offset
  }

  predicate Inside(a: Piece, sizes: seq<nat>) {
    && a.block < |sizes| && a.offset + a.size <= sizes[a.block]
    && (a.size >= 4 ==> a.offset % 8 == 0)
  }

  lemma JoinPieces(pieces: seq<Piece>, a: Piece)
    requires forall i, j :: 0 <= i < j < |pieces| ==> Disjoint(pieces[i], pieces[j])
    requires forall p :: p in pieces ==> Disjoint(p, a)
    ensures var all := pieces + [a]; forall i, j :: 0 <= i < j < |all| ==> Disjoint(all[i], all[j])
  {
  }

  function Sum(sizes: seq<nat>): nat { if sizes == [] then 0 else Sum(sizes[..|sizes| - 1]) + sizes[|sizes| - 1] }

  lemma SumLast(sizes: seq<nat>, n: nat)
    ensures Sum(sizes + [n]) == Sum(sizes) + n
  {
    assert (sizes + [n])[..|sizes|] == sizes;
  }

  /** Cleaners, the last one first. */
  function Backwards(cleaners: seq<Action>): seq<Action> {
    if cleaners == [] then [] else [cleaners[|cleaners| - 1]] + Backwards(cleaners[..|cleaners| - 1])
  }

  /** Every block but the pool itself, in the order in which they were made. */
  function Releases(blocks: nat): (r: seq<Action>)
    ensures blocks > 0 ==> |r| == blocks - 1 && forall k :: 0 <= k < |r| ==> r[k] == Release(k + 1)
  {
    if blocks <= 1 then [] else Releases(blocks - 1) + [Release(blocks - 1)]
  }

  /** What the list of a pool holds. */
  function Plan(cleaners: seq<Action>, blocks: nat): seq<Action> { Backwards(cleaners) + Releases(blocks) }

  /** What pool_free does: the cleaners, the other blocks, and the pool with its own heap. */
  function Farewell(cleaners: seq<Action>, blocks: nat): seq<Action> {
    Plan(cleaners, blocks) + [Release(0)]
  }

  ghost predicate Linked(s: seq<Tracker>, first: Tracker?, last: Tracker?)
    reads s
  {
    && (forall i {:trigger s[i].next} :: 0 <= i < |s| ==> s[i].next == if i + 1 < |s| then s[i + 1] else null)
    && (forall i, j :: 0 <= i < j < |s| ==> s[i] != s[j])
    && if s == [] then first == null && last == null else first == s[0] && last == s[|s| - 1]
  }

  /** What the trackers of a list will call. */
  function Actions(s: seq<Tracker>): (r: seq<Action>)
    ensures |r| == |s|
  {
    if s == [] then [] else [s[0].action] + Actions(s[1..])
  }

  lemma ActionsFirst(t: Tracker, s: seq<Tracker>)
    ensures Actions([t] + s) == [t.action] + Actions(s)
  {
    assert ([t] + s)[1..] == s;
  }

  lemma {:induction false} ActionsLast(s: seq<Tracker>, t: Tracker)
    ensures Actions(s + [t]) == Actions(s) + [t.action]
  {
    if s == [] {
      assert [] + [t] == [t] && [t][1..] == [];
    } else {
      ActionsLast(s[1..], t);
      assert (s + [t])[1..] == s[1..] + [t];
    }
  }

  lemma {:induction false} ActionsAt(s: seq<Tracker>, i: nat)
    requires i < |s|
    ensures Actions(s)[i] == s[i].action
  {
    if i > 0 {
      ActionsAt(s[1..], i - 1);
    }
  }

  lemma TakeNext<T>(s: seq<T>, i: nat)
    requires i < |s|
    ensures s[..i] + [s[i]] == s[..i + 1]
  {
  }

  lemma PlanMore(cleaners: seq<Action>, c: Action, blocks: nat)
    ensures Plan(cleaners + [c], blocks) == [c] + Plan(cleaners, blocks)
    ensures blocks > 0 ==> Plan(cleaners, blocks + 1) == Plan(cleaners, blocks) + [Release(blocks)]
  {
    assert (cleaners + [c])[..|cleaners|] == cleaners;
    assert blocks > 0 ==> Releases(blocks + 1) == Releases(blocks) + [Release(blocks)];
  }

  class Pool {
    var heap: Heap?
    var size: nat
    /** How many blocks malloc has given to this pool; they are numbered in that order. */
    var blocks: nat
    var cleanup: Tracker?
    var cleanupEnd: Tracker?
    ghost var list: seq<Tracker>
    ghost var cleaners: seq<Action>
    /** The sizes of all blocks so far; block 0 is the pool with its own heap. */
    ghost var sizes: seq<nat>
    ghost var pieces: seq<Piece>

    /** No two pieces overlap, all are inside their blocks, and what was given out of the
        current heap lies below its mark. */
    ghost predicate Tidy()
      reads this, heap
    {
      && (forall a :: a in pieces ==> Inside(a, sizes))
      && (forall i, j :: 0 <= i < j < |pieces| ==> Disjoint(pieces[i], pieces[j]))
      && (heap != null ==> heap.block < |sizes| && heap.size == sizes[heap.block])
      && (heap != null ==> forall a :: a in pieces && a.block == heap.block ==> a.offset + a.size <= heap.used)
    }

    ghost predicate Tracked()
      reads this, list
    {
      && sizes != [] && size == Sum(sizes) && blocks == |sizes|
      && Linked(list, cleanup, cleanupEnd)
      && Actions(list) == Plan(cleaners, |sizes|)
      && forall c :: c in cleaners ==> c.Cleaner?
    }

    ghost predicate Valid()
      reads this, heap, list
    {
      Tidy() && Tracked()
    }

    /** _pool_new_heap. */
    constructor WithHeap(n: nat)
      ensures Valid() && size == n && pieces == [] && cleaners == [] && sizes == [n]
      ensures fresh(heap) && fresh(list)
    {
      var h := new Heap(0, n);
      heap, size, blocks, cleanup, cleanupEnd := h, n, 1, null, null;
      list, cleaners, sizes, pieces := [], [], [n], [];
      new;
      assert Sum([n]) == n by { SumLast([], n); }
    }

    /** A pool without a heap. */
    constructor Bare()
      ensures Valid() && size == 0 && heap == null && pieces == [] && cleaners == [] && sizes == [0]
      ensures fresh(list)
    {
      heap, size, blocks, cleanup, cleanupEnd := null, 0, 1, null, null;
      list, cleaners, sizes, pieces := [], [], [0], [];
      new;
      assert Sum([0]) == 0 by { SumLast([], 0); }
    }

    /** _pool_cleanup_append with a new tracker. */
    method AppendTracker(t: Tracker)
      requires Linked(list, cleanup, cleanupEnd) && t !in list && t.next == null
      modifies this`cleanup, this`cleanupEnd, this`list, (if cleanup == null then {} else {cleanupEnd})`next
      ensures list == old(list) + [t] && Linked(list, cleanup, cleanupEnd)
    {
      if cleanup == null {
        cleanup := t;
        cleanupEnd := t;
      } else {
        cleanupEnd.next := t;
        cleanupEnd := t;
      }
      list := list + [t];
    }

    /** A block of memory and the tracker that will release it. */
    method NewBlock(n: nat) returns (block: nat)
      requires Tracked()
      modifies this`size, this`blocks, this`cleanup, this`cleanupEnd, this`list, this`sizes
      modifies (if cleanup == null then {} else {cleanupEnd})`next
      ensures Tracked() && block == |old(sizes)| && sizes == old(sizes) + [n]
      ensures Grown(old(list))
    {
      block := blocks;
      blocks := blocks + 1;
      var t := new Tracker(Release(block));
      size := size + n;
      SumLast(sizes, n);
      PlanMore(cleaners, t.action, |sizes|);
      ActionsLast(list, t);
      sizes := sizes + [n];
      AppendTracker(t);
    }

    /** Only new trackers joined the list. */
    twostate predicate Grown(before: seq<Tracker>)
      reads this
    {
      forall t :: t in list ==> t in before || fresh(t)
    }

    /** The mark of the current heap moves up to a multiple of eight. */
    method Align()
      requires heap != null && Tidy()
      modifies heap`used
      ensures Tidy() && heap.used % 8 == 0
    {
      while heap.used % 8 != 0
        invariant Tidy()
        decreases (8 - heap.used % 8) % 8
      {
        heap.used := heap.used + 1;
      }
    }

    /** The next bytes of the current heap. */
    method Cut(n: nat) returns (a: Piece)
      requires heap != null && Tidy() && n <= heap.size - heap.used && (n >= 4 ==> heap.used % 8 == 0)
      modifies this`pieces, heap`used
      ensures Tidy() && pieces == old(pieces) + [a] && a.size == n
    {
      a := Piece(heap.block, heap.used, n);
      heap.used := heap.used + n;
      JoinPieces(pieces, a);
      pieces := pieces + [a];
    }

    /** A block of its own. */
    method Alone(n: nat) returns (a: Piece)
      requires Valid()
      modifies this`size, this`blocks, this`cleanup, this`cleanupEnd, this`list, this`sizes, this`pieces
      modifies (if cleanup == null then {} else {cleanupEnd})`next
      ensures Valid() && pieces == old(pieces) + [a] && a.size == n && old(sizes) <= sizes && Grown(old(list))
    {
      var block := NewBlock(n);
      a := Piece(block, 0, n);
      JoinPieces(pieces, a);
      pieces := pieces + [a];
    }

    /** The current heap is replaced by an empty one of the same size. */
    method NewHeap()
      requires Valid() && heap != null
      modifies this`heap, this`size, this`blocks, this`cleanup, this`cleanupEnd, this`list, this`sizes
      modifies (if cleanup == null then {} else {cleanupEnd})`next
      ensures Valid() && heap != null && fresh(heap) && heap.used == 0 && heap.size == old(heap.size)
      ensures old(sizes) <= sizes && Grown(old(list))
    {
      var m := heap.size;
      var block := NewBlock(m);
      heap := new Heap(block, m);
    }

    /** pmalloc: the new piece overlaps none of the earlier ones, is inside its block, and
        starts at a multiple of eight if it has at least four bytes. */
    method Malloc(n: nat) returns (a: Piece)
      requires Valid()
      modifies this, heap, (if cleanup == null then {} else {cleanupEnd})`next
      ensures Valid() && pieces == old(pieces) + [a] && a.size == n && cleaners == old(cleaners)
      ensures old(sizes) <= sizes && Grown(old(list)) && (heap == old(heap) || fresh(heap))
    {
      if heap == null || n > heap.size {
        a := Alone(n);
        return;
      }
      if n >= 4 {
        Align();
      }
      if n > heap.size - heap.used {
        NewHeap();
      }
      a := Cut(n);
    }

    /** A new tracker goes to the front of the list. */
    method InFront(clean: Tracker)
      requires Linked(list, cleanup, cleanupEnd) && clean !in list
      modifies this`cleanup, this`cleanupEnd, this`list, clean
      ensures list == [clean] + old(list) && Linked(list, cleanup, cleanupEnd)
    {
      clean.next := cleanup;
      cleanup := clean;
      if cleanupEnd == null {
        cleanupEnd := clean.next;
        if cleanupEnd == null {
          cleanupEnd := clean;
        }
      }
      list := [clean] + list;
    }

    /** pool_cleanup. */
    method Cleanup(f: int, arg: int)
      requires Valid()
      modifies this`cleanup, this`cleanupEnd, this`list, this`cleaners
      ensures Valid() && cleaners == old(cleaners) + [Cleaner(f, arg)] && Grown(old(list))
    {
      var clean := new Tracker(Cleaner(f, arg));
      PlanMore(cleaners, clean.action, |sizes|);
      ActionsFirst(clean, list);
      InFront(clean);
      cleaners := cleaners + [clean.action];
    }

    /** pool_free: every cleaner once, the last registered first, then every block once. */
    method Free() returns (done: seq<Action>)
      requires Valid()
      ensures done == Farewell(cleaners, |sizes|)
    {
      var cur := cleanup;
      ghost var i := 0;
      ghost var all := Actions(list);
      done := [];
      while cur != null
        invariant 0 <= i <= |list| && cur == (if i < |list| then list[i] else null) && done == all[..i]
        decreases |list| - i
      {
        ActionsAt(list, i);
        TakeNext(all, i);
        var stub := cur.next;
        done := done + [cur.action];
        cur := stub;
        i := i + 1;
      }
      assert all[..i] == all;
      done := done + [Release(0)];
    }
  }

  // ------------------------------------------------------------ what the order means

  lemma {:induction false} BackwardsAt(cleaners: seq<Action>, k: nat)
    requires k < |cleaners|
    ensures |Backwards(cleaners)| == |cleaners| && Backwards(cleaners)[k] == cleaners[|cleaners| - 1 - k]
  {
    if |cleaners| > 1 {
      BackwardsAt(cleaners[..|cleaners| - 1], if k == 0 then 0 else k - 1);
    }
  }

  lemma BackwardsSize(cleaners: seq<Action>)
    ensures |Backwards(cleaners)| == |cleaners|
  {
    if cleaners != [] {
      BackwardsAt(cleaners, 0);
    }
  }

  /** The k-th cleaner runs before every later release and after every later cleaner, and block
      b is released in exactly one place, the pool itself in the last. */
  lemma FarewellOrder(cleaners: seq<Action>, blocks: nat, k: nat)
    requires (forall c :: c in cleaners ==> c.Cleaner?) && blocks > 0 && k < |Farewell(cleaners, blocks)|
    ensures |Farewell(cleaners, blocks)| == |cleaners| + blocks
    ensures Farewell(cleaners, blocks)[k] ==
      if k < |cleaners| then cleaners[|cleaners| - 1 - k]
      else if k < |cleaners| + blocks - 1 then Release(k - |cleaners| + 1)
      else Release(0)
  {
    BackwardsSize(cleaners);
    if k < |cleaners| {
      BackwardsAt(cleaners, k);
    }
  }

  /** Every block of the pool is released exactly once. */
  lemma EveryBlockGoes(cleaners: seq<Action>, blocks: nat, b: nat)
    requires (forall c :: c in cleaners ==> c.Cleaner?) && b < blocks
    ensures exists k :: 0 <= k < |Farewell(cleaners, blocks)| && Farewell(cleaners, blocks)[k] == Release(b)
    ensures forall j, k :: 0 <= j < k < |Farewell(cleaners, blocks)| && Farewell(cleaners, blocks)[j] == Release(b) ==>
            Farewell(cleaners, blocks)[k] != Release(b)
  {
    var all := Farewell(cleaners, blocks);
    BackwardsSize(cleaners);
    forall k: nat | k < |all| {
      FarewellOrder(cleaners, blocks, k);
    }
    var at := |cleaners| + if b == 0 then blocks - 1 else b - 1;
    assert all[at] == Release(b);
    forall k | 0 <= k < |cleaners|
      ensures all[k] != Release(b)
    {
      assert cleaners[|cleaners| - 1 - k] in cleaners;
    }
  }
}
