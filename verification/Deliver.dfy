/** The delivery of packets between the components of jabberd (jabberd/deliver.c), with the
    bounces and the log packets that it makes itself. */
module Deliver {
  import opened Options
  import opened DeliverList
  import Jid

  // ------------------------------------------------------------ packets

  /** The first letter of the element's name decides the kind. */
  datatype Kind = LogTag | XdbTag | RouteTag | OtherTag

  datatype Xml = Xml(kind: Kind, to: Option<string>, from: Option<string>, typ: Option<string>, key: Option<string>)

  datatype PType = Norm | Xdb | Log | Route

  /** _dpacket. pool is the memory that the packet lives in. */
  datatype Packet = Packet(x: Xml, ptype: PType, id: Jid.Parts, pool: nat)

  /** jid_new. Of the parser only this is needed: the host of an address is an address, and
      so is the host that log packets without a host are from. */
  type Parser = string -> Option<Jid.Parts>

  const INTERNAL := "-internal"

  ghost predicate Reparses(parse: Parser) {
    && parse(INTERNAL).Some?
    && forall s: string {:trigger HostOk(parse, s)} :: HostOk(parse, s)
  }

  ghost predicate HostOk(parse: Parser, s: string) {
    parse(s).Some? ==> parse(parse(s).value.server).Some?
  }

  function Address(parse: Parser, a: Option<string>): Option<Jid.Parts> {
    match a
    case None => None
    case Some(s) => parse(s)
  }

  lemma HostParses(p: Jid.Parts)
    requires Jid.Valid(p)
    ensures Jid.Parse(p.server).Some?
  {
    var q := Jid.Parts(None, p.server, None);
    assert Jid.Print(q) == p.server;
    Jid.ParsePrinted(q);
  }

  lemma JidReparses()
    ensures Reparses(Jid.Parse)
  {
    HostParses(Jid.Parts(None, INTERNAL, None));
    forall s: string
      ensures HostOk(Jid.Parse, s)
    {
      if Jid.Parse(s).Some? {
        Jid.ParseValid(s);
        HostParses(Jid.Parse(s).value);
      }
    }
  }

  /** The packet type of an element; an xdb answer travels as a normal packet. */
  function TypeOf(x: Xml): PType {
    match x.kind
    case LogTag => Log
    case RouteTag => Route
    case OtherTag => Norm
    case XdbTag => if x.typ.Some? && x.typ.value != "" && x.typ.value[0] in {'r', 'e'} then Norm else Xdb
  }

  function Recipient(x: Xml): Option<string> { if x.kind == LogTag then x.from else x.to }

  /** The attributes that a packet of this type cannot do without. */
  predicate Complete(x: Xml) {
    match TypeOf(x)
    case Log => x.typ.Some?
    case Xdb => x.key.Some? && x.to.Some? && x.from.Some?
    case Norm => x.to.Some? && x.from.Some?
    case Route => x.to.Some?
  }

  /** dpacket_new accepts the element. */
  predicate Sound(parse: Parser, x: Xml) { Address(parse, Recipient(x)).Some? && Complete(x) }

  /** xmlnode_put_attrib does nothing when the value is missing. */
  function Put(before: Option<string>, value: Option<string>): Option<string> {
    if value.None? then before else value
  }

  /** jutil_tofrom. */
  function Swapped(x: Xml): Xml { x.(from := Put(x.from, x.to), to := Put(x.to, x.from)) }

  /** The element as an error on its way back. */
  function Bounced(x: Xml): Xml { Swapped(x).(typ := Some("error")) }

  function LogXml(host: string, level: string): Xml { Xml(LogTag, None, Some(host), Some(level), None) }

  /** How far a packet is from being dropped. */
  function Rank(p: Packet): nat {
    match p.ptype
    case Log => 0
    case Xdb => 3
    case _ => if p.x.typ == Some("error") then 1 else 2
  }

  /** The bounces and the log packets that a packet of a rank can still cause. */
  function Bounces(rank: nat): nat { if rank <= 1 then 0 else 1 }

  function Logs(rank: nat): nat { if rank == 0 then 0 else if rank == 1 then 1 else if rank == 2 then 2 else 3 }

  lemma BouncedIsError(x: Xml)
    requires x.kind != LogTag
    ensures TypeOf(Bounced(x)) in {Norm, Route} && Bounced(x).typ == Some("error")
  {
  }

  /** A packet as dpacket_new makes it, except that its id may be that of an earlier state. */
  predicate WellFormed(parse: Parser, p: Packet) {
    Sound(parse, p.x) && TypeOf(p.x) == p.ptype && parse(p.id.server).Some?
  }

  /** deliver_fail sends the packet back. */
  predicate Bounceable(p: Packet) {
    p.ptype != Log && p.x.typ != Some("error") && (p.ptype == Norm ==> p.x.to.Some? && '@' in p.x.to.value)
  }

  /** dpacket_new on an element that it accepts. */
  function Made(parse: Parser, x: Xml, pool: nat): Packet
    requires Sound(parse, x)
  {
    Packet(x, TypeOf(x), Address(parse, Recipient(x)).value, pool)
  }

  lemma MadeIsWellFormed(parse: Parser, x: Xml, pool: nat)
    requires Reparses(parse) && Sound(parse, x)
    ensures WellFormed(parse, Made(parse, x, pool))
  {
    var s := Recipient(x).value;
    assert HostOk(parse, s);
  }

  /** The configuration's answer to a request to config@-internal. */
  function Answer(x: Xml): Xml { Swapped(x).(typ := Some("result")) }

  lemma AnswerIsWellFormed(parse: Parser, p: Packet)
    requires WellFormed(parse, p) && p.ptype == Xdb && Address(parse, p.x.from).Some?
    ensures WellFormed(parse, p.(x := Answer(p.x), ptype := Norm)) && Rank(p.(x := Answer(p.x), ptype := Norm)) == 2
  {
  }

  // ------------------------------------------------------------ the router

  /** The tables that a packet is routed by. A missing key counts as the key "*". */
  datatype Tables = Tables(norm: map<string, seq<int>>, log: map<string, seq<int>>, xdb: map<string, seq<int>>,
                           ns: map<string, seq<int>>, logtype: map<string, seq<int>>, uplink: Option<int>)

  /** deliver_hashmatch. */
  function Match(t: map<string, seq<int>>, k: Option<string>): seq<int> {
    if k.Some? && k.value in t then t[k.value] else if "*" in t then t["*"] else []
  }

  /** The two lists that deliver intersects. */
  function Lists(t: Tables, p: Packet): (seq<int>, seq<int>) {
    match p.ptype
    case Log => (Match(t.log, Some(p.id.server)), Match(t.logtype, p.x.typ))
    case Xdb => (Match(t.xdb, Some(p.id.server)), Match(t.ns, p.x.key))
    case _ => (Match(t.norm, Some(p.id.server)), [])
  }

  ghost predicate ListsOk(t: map<string, seq<int>>, instances: set<int>) {
    forall k :: k in t ==> NoDup(t[k]) && forall i :: i in t[k] ==> i in instances
  }

  ghost predicate TablesOk(t: Tables, instances: set<int>) {
    && ListsOk(t.norm, instances) && ListsOk(t.log, instances) && ListsOk(t.xdb, instances)
    && ListsOk(t.ns, instances) && ListsOk(t.logtype, instances) && (t.uplink.Some? ==> t.uplink.value in instances)
  }

  lemma ChosenIsKnown(t: Tables, p: Packet, r: Option<int>, instances: set<int>)
    requires TablesOk(t, instances) && Chosen(Lists(t, p).0, Lists(t, p).1, t.uplink, r)
    ensures r.Some? ==> r.value in instances
  {
    var (a, b) := Lists(t, p);
    assert (forall i :: i in a ==> i in instances) && forall i :: i in b ==> i in instances;
    if (a == [] || b == []) && |a + b| == 1 {
      assert (a + b)[0] in a + b;
    }
  }

  /** A request that deliver_internal answers from the configuration. */
  predicate Internal(p: Packet) { p.ptype == Xdb && p.id.server != "" && p.id.server[0] == '-' }

  class Router {
    const tables: Tables
    const parse: Parser
    const answers: Answers
    var hds: map<int, seq<Handler>>
    var calls: nat
    var pools: nat
    var bounces: nat
    var logs: nat
    var stderr: nat
    /** Pools that were freed or eaten by a handler. */
    var dead: set<nat>

    /** The pools that are gone were there once. */
    ghost predicate Pooled()
      reads this`dead, this`pools
    {
      forall d :: d in dead ==> d < pools
    }

    ghost predicate Valid()
      reads this
    {
      && (forall i :: i in hds ==> Sorted(hds[i])) && Pooled()
      && TablesOk(tables, hds.Keys) && Reparses(parse)
    }

    /** The packet's memory is there. Nothing touches a packet without this. */
    ghost predicate Usable(p: Packet)
      reads this
    {
      p.pool < pools && p.pool !in dead
    }

    constructor (tables: Tables, parse: Parser, answers: Answers, instances: set<int>)
      requires TablesOk(tables, instances) && Reparses(parse)
      ensures Valid() && hds.Keys == instances && calls == bounces == logs == stderr == 0 && dead == {}
    {
      this.tables, this.parse, this.answers := tables, parse, answers;
      hds := map i | i in instances :: [];
      calls, pools, bounces, logs, stderr, dead := 0, 0, 0, 0, 0, {};
    }

    /** register_phandler. */
    method RegisterHandler(i: int, h: Handler)
      requires Valid() && i in hds
      modifies this`hds
      ensures Valid() && i in hds
      ensures var hs := old(hds)[i];
              hds == old(hds)[i := hs[..Place(hs, h.o)] + [h] + hs[Place(hs, h.o)..]]
    {
      assert Sorted(hds[i]);
      RegisterKeepsSorted(hds[i], h);
      var r := Register(hds[i], h);
      hds := hds[i := r];
    }

    /** What every step keeps, and how many bounces and log packets it may add. */
    twostate predicate Goes(rank: nat)
      reads this
    {
      && hds.Keys == old(hds.Keys) && old(pools) <= pools && old(dead) <= dead && old(calls) <= calls
      && old(bounces) <= bounces <= old(bounces) + Bounces(rank)
      && old(logs) <= logs <= old(logs) + Logs(rank)
    }

    /** Of the memory that was there only one pool may have died. */
    twostate predicate Spares(pool: int)
      reads this
    {
      forall d :: d < old(pools) && d in dead && d != pool ==> d in old(dead)
    }

    method Free(pool: nat)
      requires Pooled() && pool < pools && pool !in dead
      modifies this`dead
      ensures Pooled() && dead == old(dead) + {pool}
    {
      dead := dead + {pool};
    }

    /** A handler gets a packet. It may eat it only by answering r_DONE. */
    method Call(h: Handler, p: Packet) returns (r: Result)
      requires Pooled() && Usable(p)
      modifies this`calls, this`dead
      ensures Pooled() && r == At(answers, old(calls)) && calls == old(calls) + 1
      ensures dead == if r == Done then old(dead) + {p.pool} else old(dead)
    {
      r := At(answers, calls);
      calls := calls + 1;
      if r == Done {
        dead := dead + {p.pool};
      }
    }

    /** dpacket_copy. */
    method Copy(p: Packet) returns (pig: Packet)
      requires Pooled() && Reparses(parse) && Usable(p) && WellFormed(parse, p)
      modifies this`pools
      ensures Pooled() && pools == old(pools) + 1 && pig.pool == old(pools)
      ensures pig.x == p.x && pig.ptype == p.ptype && WellFormed(parse, pig)
    {
      MadeIsWellFormed(parse, p.x, pools);
      pig := Made(parse, p.x, pools);
      pools := pools + 1;
    }

    /** deliver_fail and everything it leads to, seen from outside. */
    twostate predicate Failed(p: Packet)
      reads this
    {
      Goes(Rank(p)) && bounces == old(bounces) + if Bounceable(p) then 1 else 0
    }

    /** deliver_instance and everything it leads to: without an instance, and after an internal
        error, the packet fails; otherwise exactly the handlers up to the one that stops are
        called, each with the next answer, and those that asked for it are unregistered. */
    twostate predicate Handled(i: Option<int>, p: Packet)
      requires i.Some? ==> i.value in old(hds)
      reads this
    {
      if i.None? then Failed(p)
      else
        var hs := old(hds)[i.value];
        var m := Reach(hs, answers, old(calls));
        if Fails(hs, answers, old(calls)) then Failed(p) && calls >= old(calls) + m
        else
          && hds == old(hds)[i.value := Left(hs, answers, old(calls))] && calls == old(calls) + m
          && bounces == old(bounces) && logs == old(logs) && stderr == old(stderr)
    }

    /** The part of deliver_instance that calls one handler and sees to the copy. */
    method Try(h: Handler, more: bool, p: Packet) returns (r: Result, next: Packet)
      requires Pooled() && Reparses(parse) && Usable(p) && WellFormed(parse, p)
      modifies this`calls, this`dead, this`pools
      ensures Pooled() && r == At(answers, old(calls)) && calls == old(calls) + 1
      ensures old(pools) <= pools && old(dead) <= dead && Spares(p.pool) && (next == p || next.pool >= old(pools))
      ensures next.x == p.x && next.ptype == p.ptype && WellFormed(parse, next)
      ensures r == Err ==> next == p
      ensures r != Done ==> Usable(p) && next == p
      ensures more && !Stops(h, r) ==> Usable(next)
    {
      next := p;
      if h.o == Order.Deliver && more {
        var pig := Copy(p);
        r := Call(h, p);
        if r == Err {
          return;
        }
        if r == Done {
          next := pig;
        } else {
          Free(pig.pool);
        }
      } else {
        r := Call(h, p);
      }
    }

    /** The loop of deliver_instance, up to an internal error. rest is the list of handlers,
        of which the first k have been called and stay. */
    method RunHandlers(hs: seq<Handler>, p: Packet) returns (rest: seq<Handler>, q: Packet, failed: bool)
      requires Pooled() && Reparses(parse) && Usable(p) && WellFormed(parse, p)
      modifies this`calls, this`dead, this`pools
      ensures Pooled() && rest == Left(hs, answers, old(calls))
      ensures calls == old(calls) + Reach(hs, answers, old(calls)) && failed == Fails(hs, answers, old(calls))
      ensures old(pools) <= pools && old(dead) <= dead && Spares(p.pool)
      ensures q.x == p.x && q.ptype == p.ptype && WellFormed(parse, q) && (q == p || q.pool >= old(pools))
      ensures failed ==> Usable(q)
    {
      ghost var n, m, kept := calls, 0, [];
      var k := 0;
      rest, q, failed := hs, p, false;
      while k < |rest|
        invariant Pooled() && calls == n + m && old(pools) <= pools && old(dead) <= dead && Spares(p.pool)
        invariant m <= |hs| && k == |kept| && Called(hs, answers, n, m, kept, rest)
        invariant q.x == p.x && q.ptype == p.ptype && WellFormed(parse, q) && (q == p || q.pool >= old(pools))
        invariant m < |hs| ==> Usable(q)
        decreases |hs| - m
      {
        var h := rest[k];
        NextCall(hs, answers, n, m, kept, rest);
        var r, next := Try(h, k + 1 < |rest|, q);
        assert r == At(answers, n + m);
        if Stops(h, r) {
          LeftIs(hs, answers, n, m);
          failed := r == Err;
          return;
        }
        if r == Unreg {
          rest := rest[..k] + rest[k + 1..];
        } else {
          k, kept := k + 1, kept + [h];
        }
        q, m := next, m + 1;
        assert Called(hs, answers, n, m, kept, rest);
      }
      LeftIs(hs, answers, n, m);
    }

    /** deliver_instance. */
    method DeliverInstance(i: Option<int>, p: Packet)
      requires Valid() && Usable(p) && WellFormed(parse, p) && (i.Some? ==> i.value in hds)
      modifies this
      ensures Valid() && Goes(Rank(p)) && Handled(i, p) && Spares(p.pool)
      decreases Rank(p), 2
    {
      if i.None? {
        DeliverFail(p);
        return;
      }
      var at := i.value;
      assert at in hds && Sorted(hds[at]);
      LeftIsSorted(hds[at], answers, calls);
      var rest, q, failed := RunHandlers(hds[at], p);
      hds := hds[at := rest];
      if failed {
        DeliverFail(q);
      }
    }

    /** dpacket_new: what cannot be a packet is freed with a word in the log. */
    method NewPacket(x: Xml, pool: nat) returns (p: Option<Packet>)
      requires Valid() && pool < pools && pool !in dead
      modifies this
      ensures Valid() && p.Some? == Sound(parse, x)
      ensures p.Some? ==>
              && unchanged(this) && WellFormed(parse, p.value)
              && p.value.x == x && p.value.ptype == TypeOf(x) && p.value.pool == pool
      ensures p.None? ==> Goes(1) && bounces == old(bounces) && Spares(pool)
      decreases 0, if Sound(parse, x) then 0 else 6
    {
      if !Sound(parse, x) {
        Logger(INTERNAL, "warn");
        Free(pool);
        return None;
      }
      MadeIsWellFormed(parse, x, pool);
      p := Some(Made(parse, x, pool));
    }

    /** logger: a log packet of its own. */
    method Logger(host: string, level: string)
      requires Valid() && parse(host).Some?
      modifies this
      ensures Valid() && Goes(1) && bounces == old(bounces) && Spares(-1)
      decreases 0, 4
    {
      logs := logs + 1;
      pools := pools + 1;
      var p := NewPacket(LogXml(host, level), pools - 1);
      Deliver(p, None);
    }

    /** The common end of the bounce branches of deliver_fail. */
    method SendBack(p: Packet)
      requires Valid() && Usable(p) && WellFormed(parse, p) && Bounceable(p)
      modifies this
      ensures Valid() && Failed(p) && Spares(p.pool) && logs <= old(logs) + 2
      decreases Rank(p), 0
    {
      BouncedIsError(p.x);
      Logger(p.id.server, "notice");
      bounces := bounces + 1;
      var e := NewPacket(Bounced(p.x), p.pool);
      Deliver(e, None);
    }

    /** deliver_fail. */
    method DeliverFail(p: Packet)
      requires Valid() && Usable(p) && WellFormed(parse, p)
      modifies this
      ensures Valid() && Failed(p) && Spares(p.pool)
      decreases Rank(p), 1
    {
      match p.ptype {
        case Log =>
          stderr := stderr + 1;
          Free(p.pool);
        case Xdb =>
          Logger(p.id.server, "warn");
          SendBack(p);
        case Route =>
          if p.x.typ == Some("error") {
            Logger(p.id.server, "warn");
            Free(p.pool);
          } else {
            SendBack(p);
          }
        case Norm =>
          if p.x.typ == Some("error") {
            Logger(p.id.server, "warn");
            Free(p.pool);
          } else if '@' !in p.x.to.value {
            Free(p.pool);
          } else {
            SendBack(p);
          }
      }
    }

    /** deliver. */
    method Deliver(p: Option<Packet>, i: Option<int>)
      requires Valid() && (p.Some? ==> Usable(p.value) && WellFormed(parse, p.value))
      requires p.Some? && Internal(p.value) && p.value.id.user == Some("config") ==>
        i.Some? && i.value in hds && Address(parse, p.value.x.from).Some?
      modifies this
      ensures Valid() && Goes(if p.None? then 0 else Rank(p.value)) && Spares(if p.None? then -1 else p.value.pool)
      ensures p.Some? && !Internal(p.value) ==>
        var (a, b) := Lists(tables, p.value);
        exists r :: Chosen(a, b, tables.uplink, r) && (r.Some? ==> r.value in old(hds)) && Handled(r, p.value)
      decreases if p.None? then 0 else Rank(p.value), 3
    {
      if p.None? {
        return;
      }
      if Internal(p.value) {
        if p.value.id.user == Some("config") {
          AnswerIsWellFormed(parse, p.value);
          DeliverInstance(i, p.value.(x := Answer(p.value.x), ptype := Norm));
        }
        return;
      }
      var (a, b) := Lists(tables, p.value);
      var r := Intersect(a, b, tables.uplink);
      ChosenIsKnown(tables, p.value, r, hds.Keys);
      DeliverInstance(r, p.value);
    }
  }
}
