/** The work queues of jabberd (jabberd/mtq.c). Senders and the worker of a queue take turns
    under its lock, so a run of a queue is a sequence of sends and takes. */
module Mtq {
  import opened Options

  /** A callback and its argument. */
  datatype Call = Call(f: int, arg: int)

  datatype Side = Working | Unused | Loose

  /** _mtqqueue. side is the list that the cell is in. */
  class Cell {
    var call: Call
    var memory: bool
    var prev: Cell?
    ghost var side: Side

    constructor (memory: bool)
      ensures prev == null && side == Loose && this.memory == memory
    {
      call, prev, side := Call(0, 0), null, Loose;
      this.memory := memory;
    }
  }

  /** A list that is emptied at last and filled behind first. On an empty list first is
      whatever cell went in last. */
  ghost predicate Listed(s: seq<Cell>, last: Cell?, first: Cell?, side: Side)
    reads (set c | c in s)`side, (set c | c in s)`prev
  {
    && (forall i {:trigger s[i].side} :: 0 <= i < |s| ==> s[i].side == side)
    && (forall i {:trigger s[i].prev} :: 0 <= i < |s| ==> s[i].prev == if i + 1 < |s| then s[i + 1] else null)
    && (forall i, j :: 0 <= i < j < |s| ==> s[i] != s[j])
    && if s == [] then last == null else last == s[0] && first == s[|s| - 1]
  }

  lemma ListedTail(s: seq<Cell>, last: Cell?, first: Cell?, side: Side)
    requires Listed(s, last, first, side) && s != []
    ensures last == s[0] && last.side == side && Listed(s[1..], last.prev, first, side) && last !in s[1..]
  {
  }

  lemma NotListed(s: seq<Cell>, last: Cell?, first: Cell?, side: Side, c: Cell)
    requires Listed(s, last, first, side) && c.side != side
    ensures c !in s
  {
  }

  /** As many different cells as there are: all of them. */
  lemma {:induction false} Different(s: seq<Cell>, all: set<Cell>)
    requires (forall i, j :: 0 <= i < j < |s| ==> s[i] != s[j]) && forall c :: c in s ==> c in all
    ensures |s| <= |all| && (|s| == |all| ==> forall c :: c in all ==> c in s)
  {
    if s != [] {
      var n := |s| - 1;
      assert s[n] in all && s[n] !in s[..n];
      Different(s[..n], all - {s[n]});
      assert forall c :: c in all && c != s[n] ==> c in all - {s[n]};
    } else {
      assert |all| == 0 ==> all == {};
    }
  }

  /** The calls in the cells of a list. */
  ghost predicate Carries(s: seq<Cell>, calls: seq<Call>)
    reads (set c | c in s)`call
  {
    |s| == |calls| && forall i {:trigger s[i].call} :: 0 <= i < |s| ==> s[i].call == calls[i]
  }

  const QUEUE_LONG: nat := 5000

  /** mtq with its list cells. */
  class Queue {
    var first: Cell?
    var last: Cell?
    var freeFirst: Cell?
    var freeLast: Cell?
    var dl: nat
    var length: nat
    ghost var work: seq<Cell>
    ghost var free: seq<Cell>
    ghost var pending: seq<Call>
    ghost var all: set<Cell>

    /** The two lists, and the calls that the work list carries. */
    ghost predicate Lists()
      reads this, work, free
    {
      && Listed(work, last, first, Working) && Listed(free, freeLast, freeFirst, Unused)
      && Carries(work, pending)
    }

    /** Both lists are well formed, and the counters say how long they are and how many cells
        there are. */
    ghost predicate Valid()
      reads this, all
    {
      && (forall c :: c in work ==> c in all) && (forall c :: c in free ==> c in all)
      && Lists() && dl == |work| && length == |work| + |free| == |all|
    }

    /** The lists share no cell, and every cell is in one of them. */
    lemma EveryCellIsListed()
      requires Valid()
      ensures forall c :: c in all ==> (c in work <==> c !in free)
    {
      assert forall i {:trigger work[i]} :: 0 <= i < |work| ==> work[i].side == Working;
      assert forall i {:trigger free[i]} :: 0 <= i < |free| ==> free[i].side == Unused;
      Different(work + free, all);
      assert forall c :: c in all ==> c in work + free;
      assert (forall c :: c in work ==> c.side == Working) && forall c :: c in free ==> c.side == Unused;
    }

    /** The cache of mtq_init. */
    constructor ()
      ensures Valid() && pending == [] && length == QUEUE_LONG && fresh(all)
    {
      first, last, freeFirst, freeLast, dl, length := null, null, null, null, 0, 0;
      work, free, pending, all := [], [], [], {};
      new;
      var k := 0;
      while k < QUEUE_LONG
        invariant 0 <= k <= QUEUE_LONG && Valid() && work == [] && length == k && fresh(all)
      {
        assert freeLast != null ==> freeFirst in all;
        AddCell();
        k := k + 1;
      }
    }

    method AddCell()
      requires Valid() && work == []
      modifies this`freeFirst, this`freeLast, this`free, this`length, this`all,
               (if freeLast == null then {} else {freeFirst})`prev
      ensures Valid() && length == old(length) + 1 && exists c :: fresh(c) && all == old(all) + {c}
    {
      var c := new Cell(false);
      all := all + {c};
      PutFree(c);
      length := length + 1;
    }

    method PutFree(c: Cell)
      requires Lists() && c.side == Loose && c.prev == null
      modifies this`freeFirst, this`freeLast, this`free, c`side, (if freeLast == null then {} else {freeFirst})`prev
      ensures Lists() && free == old(free) + [c]
    {
      NotListed(work, last, first, Working, c);
      if freeLast == null {
        freeLast := c;
      } else {
        NotListed(work, last, first, Working, freeFirst);
        freeFirst.prev := c;
      }
      freeFirst := c;
      c.side := Unused;
      free := free + [c];
    }

    method PutWork(c: Cell)
      requires Lists() && c.side == Loose && c.prev == null
      modifies this`first, this`last, this`work, this`pending, c`side, (if last == null then {} else {first})`prev
      ensures Lists() && work == old(work) + [c] && pending == old(pending) + [c.call]
    {
      NotListed(free, freeLast, freeFirst, Unused, c);
      if last == null {
        last := c;
      } else {
        NotListed(free, freeLast, freeFirst, Unused, first);
        first.prev := c;
      }
      first := c;
      c.side := Working;
      work, pending := work + [c], pending + [c.call];
    }

    /** The cell that mtq_send uses: a free one or a new one. */
    method GetCell() returns (c: Cell)
      requires Valid()
      modifies this`freeLast, this`free, this`length, this`all, all`side, all`prev
      ensures Lists() && c.side == Loose && c.prev == null && c in all && |all| == length
      ensures all == old(all) + {c} && fresh(all - old(all)) && length == |work| + |free| + 1
      ensures length == if old(free) == [] then old(length) + 1 else old(length)
      ensures forall b :: b in free ==> b in all
    {
      if freeLast == null {
        c := new Cell(true);
        length := length + 1;
        all := all + {c};
      } else {
        c := freeLast;
        ListedTail(free, freeLast, freeFirst, Unused);
        NotListed(work, last, first, Working, c);
        freeLast := freeLast.prev;
        free := free[1..];
        c.prev := null;
        c.side := Loose;
      }
    }

    /** mtq_send, from lock to unlock. */
    method Send(call: Call)
      requires Valid()
      modifies this, all
      ensures Valid() && pending == old(pending) + [call]
      ensures length == if old(length) == old(dl) then old(length) + 1 else old(length)
      ensures fresh(all - old(all))
    {
      var c := GetCell();
      Append(c, call);
    }

    /** A loose cell with the new call goes to the end of the work list. */
    method Append(c: Cell, call: Call)
      requires Lists() && c.side == Loose && c.prev == null && dl == |work|
      modifies this`first, this`last, this`work, this`dl, this`pending, c, (if last == null then {} else {first})`prev
      ensures Lists() && work == old(work) + [c] && pending == old(pending) + [call] && dl == |work|
    {
      NotListed(work, last, first, Working, c);
      c.call := call;
      assert Carries(work, pending) == old(Carries(work, pending));
      dl := dl + 1;
      PutWork(c);
    }

    /** The oldest cell of the work list leaves it. */
    method Detach() returns (mq: Cell)
      requires Valid() && last != null
      modifies this`last, this`dl, this`work, this`pending, {last}`prev, {last}`side
      ensures mq in all && mq.side == Loose && mq.prev == null
      ensures Lists() && work == old(work)[1..] && pending == old(pending)[1..] && dl == |work|
      ensures old(pending) != [] && mq.call == old(pending)[0]
    {
      mq := last;
      ListedTail(work, last, first, Working);
      NotListed(free, freeLast, freeFirst, Unused, mq);
      assert work[0].call == pending[0];
      last := last.prev;
      dl := dl - 1;
      work := work[1..];
      pending := pending[1..];
      mq.prev := null;
      mq.side := Loose;
    }

    /** mtq_main, from lock to unlock: the oldest call, unless there is none. */
    method Take() returns (call: Option<Call>)
      requires Valid()
      modifies this, all
      ensures Valid() && length == old(length) && all == old(all)
      ensures match call
              case None => old(pending) == [] == pending
              case Some(x) => old(pending) == [x] + pending
    {
      if last == null {
        return None;
      }
      var mq := Detach();
      call := Some(mq.call);
      PutFree(mq);
    }
  }

  datatype Event = Send(call: Call) | Take

  function Sent(events: seq<Event>): seq<Call> {
    if events == [] then []
    else
      var n := |events| - 1;
      match events[n]
      case Send(c) => Sent(events[..n]) + [c]
      case Take => Sent(events[..n])
  }

  /** How many takes find something. */
  function TakenCount(events: seq<Event>): (n: nat)
    ensures n <= |Sent(events)|
  {
    if events == [] then 0
    else
      var n := |events| - 1;
      match events[n]
      case Send(_) => TakenCount(events[..n])
      case Take => if TakenCount(events[..n]) < |Sent(events[..n])| then TakenCount(events[..n]) + 1
          else TakenCount(events[..n])
  }

  /** The longest backlog so far. */
  function Peak(events: seq<Event>): nat {
    if events == [] then 0
    else
      var before := Peak(events[..|events| - 1]);
      var now := |Sent(events)| - TakenCount(events);
      if before < now then now else before
  }

  lemma NextEvent(events: seq<Event>, i: nat)
    requires i < |events|
    ensures var g, h := events[..i], events[..i + 1];
            && Peak(h) == (var now := |Sent(h)| - TakenCount(h); if Peak(g) < now then now else Peak(g))
            && match events[i]
               case Send(c) => Sent(h) == Sent(g) + [c] && TakenCount(h) == TakenCount(g)
               case Take =>
                 Sent(h) == Sent(g)
                 && TakenCount(h) == if TakenCount(g) < |Sent(g)| then TakenCount(g) + 1 else TakenCount(g)
  {
    assert events[..i + 1][..i] == events[..i];
  }

  lemma Regroup<T>(a: seq<T>, b: seq<T>, c: seq<T>)
    ensures (a + b) + c == a + (b + c) && |a + b| == |a| + |b|
  {
  }

  /** Main result: however senders and worker interleave, the worker runs the calls in the
      order they were sent and none twice, the rest is pending, and cells are only made when
      the backlog is longer than ever before. */
  method Serve(events: seq<Event>) returns (taken: seq<Call>, dl: nat, length: nat)
    ensures taken == Sent(events)[..TakenCount(events)]
    ensures dl == |Sent(events)| - TakenCount(events)
    ensures length == if Peak(events) > QUEUE_LONG then Peak(events) else QUEUE_LONG
  {
    var q := new Queue();
    taken := [];
    var i := 0;
    while i < |events|
      invariant 0 <= i <= |events| && q.Valid() && fresh(q) && fresh(q.all)
      invariant taken + q.pending == Sent(events[..i]) && |taken| == TakenCount(events[..i])
      invariant q.length == if Peak(events[..i]) > QUEUE_LONG then Peak(events[..i]) else QUEUE_LONG
    {
      NextEvent(events, i);
      match events[i] {
        case Send(c) =>
          Regroup(taken, q.pending, [c]);
          q.Send(c);
        case Take =>
          var c := q.Take();
          if c.Some? {
            Regroup(taken, [c.value], q.pending);
            taken := taken + [c.value];
          }
      }
      i := i + 1;
    }
    assert events[..i] == events;
    dl, length := q.dl, q.length;
  }
}
