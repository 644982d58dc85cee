/** The write queue of a wpj client socket under short writes, and what happens to its
    messages when the socket closes (wpj_sysepoll/io.c). */
module IoQueue {
  import opened Options

  /** An element that was queued; only messages are worth keeping. */
  datatype Stanza = Stanza(id: int, message: bool)

  /** _io_wbq: the element, if it was one, and what is still to be written of it. */
  datatype Item = Item(x: Option<Stanza>, rest: string)

  /** _io_sended: a message that was written, and when. */
  datatype Sent = Sent(x: Stanza, t: int)

  /** What a write handler returns: how much it took, or why it took nothing. */
  datatype Answer = Wrote(n: nat) | Blocked | Broken

  function Next(answers: seq<Answer>): Answer { if answers == [] then Blocked else answers[0] }

  function Others(answers: seq<Answer>): seq<Answer> { if answers == [] then [] else answers[1..] }

  function Flat(q: seq<Item>): string { if q == [] then "" else q[0].rest + Flat(q[1..]) }

  /** The item is a message, and messages are kept. */
  predicate Kept(storage: bool, i: Item) { storage && i.x.Some? && i.x.value.message }

  function Messages(storage: bool, q: seq<Item>): seq<Stanza> {
    if q == [] then []
    else (if Kept(storage, q[0]) then [q[0].x.value] else []) + Messages(storage, q[1..])
  }

  function Stanzas(s: seq<Sent>): seq<Stanza> { if s == [] then [] else Stanzas(s[..|s| - 1]) + [s[|s| - 1].x] }

  /** The return value of _io_write_dump_client, the queue it leaves, what was written and the
      messages that are on their way. */
  datatype Dumped = Dumped(ret: int, queue: seq<Item>, bytes: string, gone: seq<Stanza>)

  function Dump(storage: bool, q: seq<Item>, answers: seq<Answer>): Dumped
    decreases |q|
  {
    if q == [] then Dumped(0, [], "", [])
    else
      match Next(answers)
      case Broken => Dumped(-1, q, "", [])
      case Blocked => Dumped(1, q, "", [])
      case Wrote(n) =>
        if n == 0 || q[0].rest == "" then Dumped(-1, q, "", [])
        else if n < |q[0].rest| then Dumped(1, [q[0].(rest := q[0].rest[n..])] + q[1..], q[0].rest[..n], [])
        else
          var d := Dump(storage, q[1..], Others(answers));
          Dumped(d.ret, d.queue, q[0].rest + d.bytes, (if Kept(storage, q[0]) then [q[0].x.value] else []) + d.gone)
  }

  /** What was written, followed by what is left, is what there was; and so for the messages. */
  lemma {:induction false} DumpConserves(storage: bool, q: seq<Item>, answers: seq<Answer>)
    ensures var d := Dump(storage, q, answers); d.bytes + Flat(d.queue) == Flat(q)
    ensures var d := Dump(storage, q, answers); d.gone + Messages(storage, d.queue) == Messages(storage, q)
    ensures Dump(storage, q, answers).ret in {-1, 0, 1}
            && (Dump(storage, q, answers).ret == 0 <==> Dump(storage, q, answers).queue == [])
    decreases |q|
  {
    if q != [] && Next(answers).Wrote? && Next(answers).n > 0 && q[0].rest != "" {
      var n := Next(answers).n;
      var d := Dump(storage, q, answers);
      if n < |q[0].rest| {
        assert q[0].rest[..n] + q[0].rest[n..] == q[0].rest;
        assert d.queue[1..] == q[1..];
        Associates(q[0].rest[..n], q[0].rest[n..], Flat(q[1..]));
      } else {
        var d1 := Dump(storage, q[1..], Others(answers));
        DumpConserves(storage, q[1..], Others(answers));
        Associates(q[0].rest, d1.bytes, Flat(d1.queue));
        Associates(if Kept(storage, q[0]) then [q[0].x.value] else [], d1.gone, Messages(storage, d1.queue));
      }
    }
  }

  lemma Associates<T>(a: seq<T>, b: seq<T>, c: seq<T>)
    ensures a + b + c == a + (b + c)
  {
  }

  /** A queue is written completely if the handler takes everything, except that an item with
      nothing to write looks like an error: a write of no bytes returns zero. */
  lemma {:induction false} WillingSocket(storage: bool, q: seq<Item>, answers: seq<Answer>)
    requires |q| <= |answers| && forall i :: 0 <= i < |q| ==> answers[i] == Wrote(|q[i].rest|)
    ensures Dump(storage, q, answers).ret == if forall i :: i in q ==> i.rest != "" then 0 else -1
    decreases |q|
  {
    if q != [] {
      assert q[0] in q;
      if q[0].rest != "" {
        WillingSocket(storage, q[1..], answers[1..]);
        assert forall i :: i in q <==> i == q[0] || i in q[1..];
      }
    }
  }

  lemma {:induction false} FlatAppend(q: seq<Item>, i: Item)
    ensures Flat(q + [i]) == Flat(q) + i.rest
  {
    if q == [] {
      assert [] + [i] == [i] && [i][1..] == [];
      assert i.rest + "" == i.rest;
    } else {
      FlatAppend(q[1..], i);
      assert (q + [i])[1..] == q[1..] + [i];
      Associates(q[0].rest, Flat(q[1..]), i.rest);
    }
  }

  lemma {:induction false} MessagesAppend(storage: bool, q: seq<Item>, i: Item)
    ensures Messages(storage, q + [i]) == Messages(storage, q) + if Kept(storage, i) then [i.x.value] else []
  {
    if q == [] {
      assert [] + [i] == [i] && [i][1..] == [];
    } else {
      MessagesAppend(storage, q[1..], i);
      assert (q + [i])[1..] == q[1..] + [i];
    }
  }

  lemma {:induction false} StanzasConcat(a: seq<Sent>, b: seq<Sent>)
    ensures Stanzas(a + b) == Stanzas(a) + Stanzas(b)
  {
    if b == [] {
      assert a + b == a;
    } else {
      var n := |b| - 1;
      StanzasConcat(a, b[..n]);
      assert (a + b)[..|a + b| - 1] == a + b[..n];
    }
  }

  lemma StanzasFirst(s: seq<Sent>)
    requires s != []
    ensures Stanzas(s) == [s[0].x] + Stanzas(s[1..])
  {
    assert s == [s[0]] + s[1..];
    StanzasConcat([s[0]], s[1..]);
    assert [s[0]][..0] == [] && [] + [s[0].x] == [s[0].x];
  }

  // ------------------------------------------------------- the linked queues

  /** _io_wbq. */
  class Wbq {
    var item: Item
    var next: Wbq?

    constructor (item: Item)
      ensures this.item == item && next == null
    {
      this.item, next := item, null;
    }
  }

  /** _io_sended. */
  class Sended {
    const sent: Sent
    var next: Sended?

    constructor (sent: Sent)
      ensures this.sent == sent && next == null
    {
      this.sent, next := sent, null;
    }
  }

  /** The cells of the write queue from head to tail. */
  ghost predicate Chain(cells: seq<Wbq>, head: Wbq?, tail: Wbq?, items: seq<Item>)
    reads (set c | c in cells)`item, (set c | c in cells)`next
  {
    && |cells| == |items|
    && (forall i {:trigger cells[i].item} :: 0 <= i < |cells| ==> cells[i].item == items[i])
    && (forall i {:trigger cells[i].next} :: 0 <= i < |cells| ==>
          cells[i].next == if i + 1 < |cells| then cells[i + 1] else null)
    && (forall i, j :: 0 <= i < j < |cells| ==> cells[i] != cells[j])
    && if cells == [] then head == tail == null else head == cells[0] && tail == cells[|cells| - 1]
  }

  /** The front of a queue leaves it. */
  lemma ChainRest(cells: seq<Wbq>, head: Wbq, tail: Wbq?, items: seq<Item>)
    requires Chain(cells, head, tail, items)
    ensures items != [] && cells != [] && head == cells[0] && head.item == items[0]
    ensures Chain(cells[1..], head.next, if head.next == null then null else tail, items[1..])
  {
  }

  /** The cells of the queue of written messages. */
  ghost predicate SentChain(cells: seq<Sended>, head: Sended?, tail: Sended?, sent: seq<Sent>)
    reads (set c | c in cells)`next
  {
    && |cells| == |sent|
    && (forall i {:trigger cells[i].sent} :: 0 <= i < |cells| ==> cells[i].sent == sent[i])
    && (forall i {:trigger cells[i].next} :: 0 <= i < |cells| ==>
          cells[i].next == if i + 1 < |cells| then cells[i + 1] else null)
    && (forall i, j :: 0 <= i < j < |cells| ==> cells[i] != cells[j])
    && if cells == [] then head == tail == null else head == cells[0] && tail == cells[|cells| - 1]
  }

  lemma SentRest(cells: seq<Sended>, head: Sended, tail: Sended?, sent: seq<Sent>)
    requires SentChain(cells, head, tail, sent)
    ensures sent != [] && head.sent == sent[0]
    ensures SentChain(cells[1..], head.next, if head.next == null then null else tail, sent[1..])
  {
  }

  /** The dump goes on behind an item that was taken whole. */
  lemma DumpOn(storage: bool, q: seq<Item>, answers: seq<Answer>, written: string)
    requires q != [] && q[0].rest != ""
    requires Next(answers).Wrote? && Next(answers).n > 0 && Next(answers).n >= |q[0].rest|
    ensures var d, e := Dump(storage, q, answers), Dump(storage, q[1..], Others(answers));
            d.ret == e.ret && d.queue == e.queue && (written + q[0].rest) + e.bytes == written + d.bytes
  {
    Associates(written, q[0].rest, Dump(storage, q[1..], Others(answers)).bytes);
  }

  lemma Moves<T>(a: seq<T>, b: seq<T>, c: seq<T>, d: seq<T>)
    ensures a + b + (c + d) == a + (b + c) + d
  {
  }

  // ------------------------------------------------------- the accounts

  /** What was submitted, what was written of it, and where the messages are. */
  datatype Account = Account(queued: seq<Item>, waiting: seq<Sent>, submitted: string, written: string,
                             messages: seq<Stanza>, settled: seq<Stanza>)

  /** Every byte that was submitted was written or is queued, in order; and every message to
      be kept is settled, written, or queued, in order. */
  ghost predicate Balanced(storage: bool, a: Account) {
    && a.written + Flat(a.queued) == a.submitted
    && a.settled + Stanzas(a.waiting) + Messages(storage, a.queued) == a.messages
  }

  function KeptOf(storage: bool, i: Item): seq<Stanza> { if Kept(storage, i) then [i.x.value] else [] }

  /** An item is queued. */
  function Queued(storage: bool, a: Account, i: Item): Account {
    a.(queued := a.queued + [i], submitted := a.submitted + i.rest, messages := a.messages + KeptOf(storage, i))
  }

  lemma QueuedBalances(storage: bool, a: Account, i: Item)
    requires Balanced(storage, a)
    ensures Balanced(storage, Queued(storage, a, i))
  {
    FlatAppend(a.queued, i);
    MessagesAppend(storage, a.queued, i);
    Associates(a.written, Flat(a.queued), i.rest);
    Associates(a.settled + Stanzas(a.waiting), Messages(storage, a.queued), KeptOf(storage, i));
  }

  function Awaiting(storage: bool, i: Item, now: int): seq<Sent> {
    if Kept(storage, i) then [Sent(i.x.value, now)] else []
  }

  /** The first item is written; a message to be kept waits to be confirmed. */
  function Finished(storage: bool, a: Account, now: int): Account
    requires a.queued != []
  {
    var i := a.queued[0];
    a.(queued := a.queued[1..], written := a.written + i.rest, waiting := a.waiting + Awaiting(storage, i, now))
  }

  lemma FinishedBalances(storage: bool, a: Account, now: int)
    requires Balanced(storage, a) && a.queued != []
    ensures Balanced(storage, Finished(storage, a, now))
  {
    var i, rest := a.queued[0], a.queued[1..];
    Associates(a.written, i.rest, Flat(rest));
    var more := Awaiting(storage, i, now);
    StanzasConcat(a.waiting, more);
    assert more != [] ==> more[..0] == [];
    assert Stanzas(more) == KeptOf(storage, i);
    Moves(a.settled, Stanzas(a.waiting), KeptOf(storage, i), Messages(storage, rest));
  }

  /** The first n bytes of the first item are written. */
  function Advanced(a: Account, n: nat): Account
    requires a.queued != [] && n <= |a.queued[0].rest|
  {
    var i := a.queued[0];
    a.(queued := [i.(rest := i.rest[n..])] + a.queued[1..], written := a.written + i.rest[..n])
  }

  lemma AdvancedBalances(storage: bool, a: Account, n: nat)
    requires Balanced(storage, a) && a.queued != [] && n <= |a.queued[0].rest|
    ensures Balanced(storage, Advanced(a, n))
  {
    var i, b := a.queued[0], Advanced(a, n);
    assert i.rest == i.rest[..n] + i.rest[n..];
    assert b.queued[1..] == a.queued[1..];
    assert b.written + (i.rest[n..] + Flat(a.queued[1..])) == a.written + (i.rest + Flat(a.queued[1..]));
  }

  /** The oldest written message is settled. */
  function Settled(a: Account): Account
    requires a.waiting != []
  {
    a.(waiting := a.waiting[1..], settled := a.settled + [a.waiting[0].x])
  }

  lemma SettledBalances(storage: bool, a: Account)
    requires Balanced(storage, a) && a.waiting != []
    ensures Balanced(storage, Settled(a))
  {
    StanzasFirst(a.waiting);
    Associates(a.settled, [a.waiting[0].x], Stanzas(a.waiting[1..]));
  }

  /** A client socket; the server's own connection is not one. */
  class Socket {
    /** no_message_storage is off. */
    const storage: bool
    var queue: Wbq?
    var tail: Wbq?
    var sQueue: Sended?
    var sTail: Sended?
    var queueLong: int
    var closing: bool
    ghost var cells: seq<Wbq>
    ghost var sCells: seq<Sended>
    /** All cells that the socket ever had. */
    ghost var all: set<Wbq>
    ghost var sAll: set<Sended>
    ghost var queued: seq<Item>
    ghost var waiting: seq<Sent>
    ghost var submitted: string
    ghost var written: string
    ghost var messages: seq<Stanza>
    ghost var settled: seq<Stanza>

    /** The write queue. */
    ghost predicate QueueOk()
      reads this`queue, this`tail, this`cells, this`all, this`queued, all`item, all`next
    {
      (forall c :: c in cells ==> c in all) && Chain(cells, queue, tail, queued)
    }

    /** The queue of written messages. */
    ghost predicate SentOk()
      reads this`sQueue, this`sTail, this`sCells, this`sAll, this`waiting, sAll`next
    {
      (forall c :: c in sCells ==> c in sAll) && SentChain(sCells, sQueue, sTail, waiting)
    }

    ghost function Books(): Account
      reads this`queued, this`waiting, this`submitted, this`written, this`messages, this`settled
    {
      Account(queued, waiting, submitted, written, messages, settled)
    }

    /** Both queues are linked, and the books balance. */
    ghost predicate Valid()
      reads this`queue, this`tail, this`cells, this`all, this`queued, all`item, all`next
      reads this`sQueue, this`sTail, this`sCells, this`sAll, this`waiting, sAll`next
      reads this`queueLong, this`submitted, this`written, this`messages, this`settled
    {
      QueueOk() && SentOk() && queueLong == |queued| && Balanced(storage, Books())
    }

    constructor (storage: bool)
      ensures Valid() && all == {} && sAll == {} && queued == [] && messages == [] && submitted == "" && !closing
    {
      this.storage := storage;
      queue, tail, sQueue, sTail, queueLong, closing := null, null, null, null, 0, false;
      cells, sCells, all, sAll, queued, waiting := [], [], {}, {}, [], [];
      submitted, written, messages, settled := "", "", [], [];
    }

    method PutItem(i: Item)
      requires QueueOk()
      modifies this`queue, this`tail, this`cells, this`all, this`queued, all`next
      ensures QueueOk() && queued == old(queued) + [i] && fresh(all - old(all))
    {
      var cell := new Wbq(i);
      if tail == null {
        queue := cell;
      } else {
        tail.next := cell;
      }
      tail := cell;
      cells, all, queued := cells + [cell], all + {cell}, queued + [i];
    }

    method DropItem() returns (cur: Item)
      requires QueueOk() && queue != null
      modifies this`queue, this`tail, this`cells, this`queued
      ensures QueueOk() && old(queued) != [] && cur == old(queued)[0] && queued == old(queued)[1..]
    {
      ChainRest(cells, queue, tail, queued);
      cur := queue.item;
      queue := queue.next;
      if queue == null {
        tail := null;
      }
      cells, queued := cells[1..], queued[1..];
    }

    method PutSent(x: Sent)
      requires SentOk()
      modifies this`sQueue, this`sTail, this`sCells, this`sAll, this`waiting, sAll`next
      ensures SentOk() && waiting == old(waiting) + [x] && fresh(sAll - old(sAll))
    {
      var cell := new Sended(x);
      if sTail == null {
        sQueue := cell;
      } else {
        sTail.next := cell;
      }
      sTail := cell;
      sCells, sAll, waiting := sCells + [cell], sAll + {cell}, waiting + [x];
    }

    method DropSent() returns (cur: Sent)
      requires SentOk() && sQueue != null
      modifies this`sQueue, this`sTail, this`sCells, this`waiting
      ensures SentOk() && old(waiting) != [] && cur == old(waiting)[0] && waiting == old(waiting)[1..]
    {
      SentRest(sCells, sQueue, sTail, waiting);
      cur := sQueue.sent;
      sQueue := sQueue.next;
      if sQueue == null {
        sTail := null;
      }
      sCells, waiting := sCells[1..], waiting[1..];
    }

    /** The first item leaves the queue and is counted as written. */
    method Unqueue() returns (cur: Item)
      requires QueueOk() && SentOk() && queue != null
      modifies this`queue, this`tail, this`cells, this`queued, this`queueLong, this`written
      ensures QueueOk() && SentOk() && old(queued) != [] && cur == old(queued)[0] && queued == old(queued)[1..]
      ensures queueLong == old(queueLong) - 1 && written == old(written) + cur.rest
    {
      queueLong, written := queueLong - 1, written + queue.item.rest;
      cur := DropItem();
      assert SentOk() == old(SentOk());
    }

    /** A message to be kept joins those that wait to be confirmed. */
    method Await(cur: Item, now: int)
      requires QueueOk() && SentOk()
      modifies this`sQueue, this`sTail, this`sCells, this`sAll, this`waiting, sAll`next
      ensures QueueOk() && SentOk() && fresh(sAll - old(sAll))
      ensures waiting == old(waiting) + Awaiting(storage, cur, now)
    {
      if Kept(storage, cur) {
        PutSent(Sent(cur.x.value, now));
        assert QueueOk() == old(QueueOk());
      } else {
        assert waiting + [] == waiting;
      }
    }

    /** A whole item was written; a message to be kept waits to be confirmed. */
    method Finish(now: int)
      requires Valid() && queue != null
      modifies this`queue, this`tail, this`cells, this`queued, this`queueLong, this`written
      modifies this`sQueue, this`sTail, this`sCells, this`sAll, this`waiting, sAll`next
      ensures Valid() && Books() == Finished(storage, old(Books()), now) && fresh(sAll - old(sAll))
    {
      FinishedBalances(storage, Books(), now);
      var cur := Unqueue();
      Await(cur, now);
      assert Books() == Finished(storage, old(Books()), now);
    }

    /** The first n bytes of an item were written. */
    method Advance(n: nat)
      requires Valid() && queue != null && n <= |queue.item.rest|
      modifies this`queued, this`written, {queue}`item
      ensures Valid() && old(queued) != [] && n <= |old(queued)[0].rest| && Books() == Advanced(old(Books()), n)
    {
      ChainRest(cells, queue, tail, queued);
      AdvancedBalances(storage, Books(), n);
      var cur := queue.item;
      assert queue == cells[0];
      queue.item := cur.(rest := cur.rest[n..]);
      queued, written := [queue.item] + queued[1..], written + cur.rest[..n];
    }

    /** _io_write_dump_client. */
    method DumpClient(answers: seq<Answer>, now: int) returns (ret: int)
      requires Valid()
      modifies this`queue, this`tail, this`cells, this`queued, this`queueLong, this`written
      modifies this`sQueue, this`sTail, this`sCells, this`sAll, this`waiting, all`item, sAll`next
      ensures var d := Dump(storage, old(queued), answers);
              Valid() && ret == d.ret && queued == d.queue && written == old(written) + d.bytes
      ensures fresh(sAll - old(sAll))
    {
      ghost var d := Dump(storage, queued, answers);
      var left := answers;
      while queue != null
        invariant Valid() && fresh(sAll - old(sAll))
        invariant var e := Dump(storage, queued, left);
                  d.ret == e.ret && d.queue == e.queue && written + e.bytes == old(written) + d.bytes
        decreases |queued|
      {
        ChainRest(cells, queue, tail, queued);
        assert queue == cells[0] && queue in all;
        ghost var answersLeft := left;
        var len := Next(left);
        left := Others(left);
        match len {
          case Broken => return -1;
          case Blocked => return 1;
          case Wrote(n) =>
            if n == 0 || queue.item.rest == "" {
              return -1;
            }
            if n < |queue.item.rest| {
              Advance(n);
              return 1;
            }
            DumpOn(storage, queued, answersLeft, written);
            Finish(now);
        }
      }
      ret := 0;
    }

    /** The first part of io_write: the item goes to the end of the queue. */
    method Enqueue(i: Item)
      requires Valid()
      modifies this`queue, this`tail, this`cells, this`all, this`queued, all`next
      modifies this`queueLong, this`submitted, this`messages
      ensures Valid() && Books() == Queued(storage, old(Books()), i) && fresh(all - old(all))
    {
      QueuedBalances(storage, Books(), i);
      submitted, messages, queueLong := submitted + i.rest, messages + KeptOf(storage, i), queueLong + 1;
      assert QueueOk() == old(QueueOk()) && SentOk() == old(SentOk());
      Hang(i);
      assert Books() == Queued(storage, old(Books()), i);
    }

    method Hang(i: Item)
      requires QueueOk() && SentOk()
      modifies this`queue, this`tail, this`cells, this`all, this`queued, all`next
      ensures QueueOk() && SentOk() && queued == old(queued) + [i] && fresh(all - old(all))
    {
      PutItem(i);
      assert SentOk() == old(SentOk());
    }

    /** The item is queued, and then as much as possible is written. */
    method Send(i: Item, answers: seq<Answer>, now: int) returns (ret: int)
      requires Valid()
      modifies this`queue, this`tail, this`cells, this`all, this`queued, all
      modifies this`sQueue, this`sTail, this`sCells, this`sAll, this`waiting, sAll
      modifies this`queueLong, this`submitted, this`written, this`messages
      ensures Valid() && fresh(all - old(all)) && fresh(sAll - old(sAll))
      ensures submitted == old(submitted) + i.rest && messages == old(messages) + KeptOf(storage, i)
      ensures var d := Dump(storage, old(queued) + [i], answers);
              ret == d.ret && queued == d.queue && written == old(written) + d.bytes
    {
      Enqueue(i);
      ret := DumpClient(answers, now);
    }

    /** io_write on a client: x is the element and data its text, or the buffer. */
    method Write(x: Option<Stanza>, data: string, answers: seq<Answer>, now: int)
      requires Valid()
      modifies this, all, sAll
      ensures Valid() && submitted == old(submitted) + data && fresh(all - old(all)) && fresh(sAll - old(sAll))
      ensures var i := Item(x, data);
              var d := Dump(storage, old(queued) + [i], answers);
              && messages == old(messages) + KeptOf(storage, i)
              && queued == d.queue && written == old(written) + d.bytes
              && closing == (old(closing) || d.ret == -1)
    {
      var ret := Send(Item(x, data), answers, now);
      label Dumped:
      if ret == -1 {
        closing := true;
      }
      assert Valid() == old@Dumped(Valid());
    }

    /** The oldest written message is forgotten. */
    method Settle()
      requires Valid() && sQueue != null
      modifies this`sQueue, this`sTail, this`sCells, this`waiting, this`settled
      ensures Valid() && old(waiting) != [] && Books() == Settled(old(Books()))
    {
      SentRest(sCells, sQueue, sTail, waiting);
      SettledBalances(storage, Books());
      settled := settled + [sQueue.sent.x];
      var _ := DropSent();
      assert Books() == Settled(old(Books()));
      assert QueueOk() == old(QueueOk());
    }

    /** The part of the timeout loop that forgets messages written longer ago than the limit. */
    method Expire(now: int, limit: int)
      requires Valid()
      modifies this`sQueue, this`sTail, this`sCells, this`waiting, this`settled
      ensures Valid() && old(settled) <= settled
      ensures |waiting| <= |old(waiting)| && waiting == old(waiting)[|old(waiting)| - |waiting|..]
      ensures forall k :: 0 <= k < |old(waiting)| - |waiting| ==> now > old(waiting)[k].t + limit
      ensures waiting != [] ==> now <= waiting[0].t + limit
    {
      ghost var k := 0;
      while sQueue != null && now > sQueue.sent.t + limit
        invariant Valid() && old(settled) <= settled && 0 <= k <= |old(waiting)| && waiting == old(waiting)[k..]
        invariant forall j :: 0 <= j < k ==> now > old(waiting)[j].t + limit
        decreases |waiting|
      {
        Settle();
        k := k + 1;
      }
      if sQueue != null { SentRest(sCells, sQueue, sTail, waiting); }
    }

    /** io_cleanup: what goes to the server-return path, in order. full says that the kernel
        still holds bytes for this socket. */
    method Cleanup(full: bool) returns (returned: seq<Stanza>)
      requires QueueOk() && SentOk()
      modifies this`queue, this`tail, this`cells, this`queued, this`sQueue, this`sTail, this`sCells, this`waiting
      ensures QueueOk() && SentOk() && queued == [] && waiting == []
      ensures returned == (if full then Stanzas(old(waiting)) else []) + Messages(storage, old(queued))
    {
      returned := CleanSent(full);
      ghost var first := returned;
      while queue != null
        invariant QueueOk() && SentOk() && waiting == []
        invariant returned + Messages(storage, queued) == first + Messages(storage, old(queued))
        decreases |queued|
      {
        var temp := DropItem();
        assert ([temp] + queued)[1..] == queued;
        if Kept(storage, temp) {
          Associates(returned, [temp.x.value], Messages(storage, queued));
          returned := returned + [temp.x.value];
        } else {
          assert [] + Messages(storage, queued) == Messages(storage, queued);
        }
      }
      assert returned + [] == returned;
    }

    /** The first loop of io_cleanup. */
    method CleanSent(full: bool) returns (returned: seq<Stanza>)
      requires SentOk()
      modifies this`sQueue, this`sTail, this`sCells, this`waiting
      ensures SentOk() && waiting == [] && returned == if full then Stanzas(old(waiting)) else []
    {
      returned := [];
      while sQueue != null
        invariant SentOk()
        invariant full ==> returned + Stanzas(waiting) == Stanzas(old(waiting))
        invariant !full ==> returned == []
        decreases |waiting|
      {
        StanzasFirst(waiting);
        var temp := DropSent();
        Associates(returned, [temp.x], Stanzas(waiting));
        if full {
          returned := returned + [temp.x];
        }
      }
      assert returned + [] == returned;
    }

    /** _io_close, from the last attempt to write on. Main result: when the kernel still holds
        bytes, every message that is not settled goes back to the server once, in order;
        otherwise the same holds for those of which something is still queued. */
    method Close(answers: seq<Answer>, full: bool, now: int) returns (returned: seq<Stanza>)
      requires Valid()
      modifies this, all, sAll
      ensures messages == old(messages) && settled == old(settled)
      ensures full ==> messages == settled + returned
      ensures !full ==> returned == Messages(storage, Dump(storage, old(queued), answers).queue)
      ensures old(queued) == [] && !full ==> returned == []
    {
      closing := true;
      assert Valid() == old(Valid());
      if queue != null {
        var _ := DumpClient(answers, now);
      }
      Associates(settled, Stanzas(waiting), Messages(storage, queued));
      assert [] + Messages(storage, queued) == Messages(storage, queued);
      returned := Cleanup(full);
    }
  }

  /** However the writes are cut short, what is still queued is the end of what was submitted,
      and the client got all of the rest. */
  method Session(storage: bool, buffers: seq<string>, answers: seq<seq<Answer>>, now: int)
    returns (m: Socket)
    requires |answers| == |buffers|
    ensures m.Valid() && m.written + Flat(m.queued) == Joined(buffers)
    ensures m.queue == null <==> m.queued == []
  {
    m := new Socket(storage);
    var k := 0;
    while k < |buffers|
      invariant 0 <= k <= |buffers| && m.Valid() && m.submitted == Joined(buffers[..k])
      invariant fresh(m) && fresh(m.all) && fresh(m.sAll)
    {
      JoinedNext(buffers, k);
      m.Write(None, buffers[k], answers[k], now);
      k := k + 1;
    }
    assert buffers[..k] == buffers;
  }

  lemma JoinedNext(buffers: seq<string>, k: nat)
    requires k < |buffers|
    ensures Joined(buffers[..k + 1]) == Joined(buffers[..k]) + buffers[k]
  {
    assert buffers[..k + 1][..k] == buffers[..k];
  }

  function Joined(buffers: seq<string>): string {
    if buffers == [] then "" else Joined(buffers[..|buffers| - 1]) + buffers[|buffers| - 1]
  }
}
