/** The originating side of server dialback (dialback_out.c): connection attempts, the
    packets that wait for them, and their fate. */
module DialbackOut {
  import opened Options
  import opened DialbackPacket
  import Jid

  /** The instance id, the secret, merlin, and the packet timeout in seconds. */
  datatype Config = Config(self: string, secret: string, merlin: Merlin, timeout: int)

  datatype Waiting = Waiting(stamp: int, x: Packet)

  /** struct dboc: `ip` is the rest of the comma-separated address list; `q` is the
      queue of packets, the newest first. */
  datatype Dboc = Dboc(key: Jid.Parts, ip: Option<string>, verifies: seq<Packet>, q: seq<Waiting>, m: Option<Sock>)

  /** out_connecting and out_ok_db, both under the key to/from. */
  datatype State = State(connecting: map<string, Dboc>, okDb: map<string, Sock>)

  const EMPTY := State(map[], map[])

  datatype Event =
    /** dialback_out_packet; `ip` is what dialback_ip_get finds for it. */
    | Submit(x: Packet, ip: Option<string>, now: int)
    /** MIO_XML_ROOT while connecting: the namespace is right, the id names one of our own
        inbound streams. */
    | Root(key: string, m: Sock, namespaceOk: bool, mirror: bool, id: string)
    /** MIO_XML_NODE while connecting. */
    | Node(key: string, m: Sock, x: Packet)
    /** MIO_CLOSED while connecting. */
    | Lost(key: string)
    /** The timeout beat looks at one connecting entry. */
    | Beat(key: string, now: int)
    /** MIO_XML_NODE and MIO_CLOSED once the connection is trusted. */
    | OkNode(key: string, m: Sock, x: Packet)
    | OkLost(key: string)

  datatype Output =
    | Connect(ip: string)                 // mio_connect
    | Sent(m: Sock, x: Packet)            // a packet leaves on a connection
    | Failed(x: Packet)                   // deliver_fail
    | Dropped(x: Packet)
    | Bounced(x: Packet)                  // a verify request goes back to dialback_in_verify
    | Request(m: Sock, x: Packet)         // our own db:result
    | Hang(m: Sock)                       // a stream error, and the socket is closed
    | Verdict(x: Packet)                  // dialback_in_verify with an answer

  // ----------------------------------------------------- address lists

  function Chop(ip: string): (r: (string, Option<string>)) {
    var comma := Jid.IndexOf(ip, ',');
    if comma == |ip| then (ip, None) else (ip[..comma], Some(ip[comma + 1..]))
  }

  /** The number of comma-separated addresses. */
  function Addresses(ip: string): (n: nat)
    ensures n > 0
  {
    if ip == "" then 1 else (if ip[0] == ',' then 1 else 0) + Addresses(ip[1..])
  }

  function Left(ip: Option<string>): nat { if ip.None? then 0 else Addresses(ip.value) }

  /** dialback_out_connect: takes the next address, if there is one. */
  function TryNext(c: Dboc): (Dboc, seq<Output>) {
    if c.ip.None? then (c, [])
    else (c.(ip := Chop(c.ip.value).1), [Connect(Chop(c.ip.value).0)])
  }

  // ----------------------------------------------------- the handlers

  /** The packet as it goes on its way: a verify request, which carries our own name, gets
      its real sender back. None when an address does not parse. */
  function Readdressed(cfg: Config, x: Packet): Option<Packet> {
    if Address(x.to).None? || Address(x.from).None? then None
    else if Address(x.from).value.server != cfg.self then Some(x)
    else
      var y := x.(from := Put(x.from, x.ofrom), ofrom := None);
      if Address(y.from).None? then None else Some(y)
  }

  predicate IsVerify(cfg: Config, x: Packet) {
    Address(x.from).Some? && Address(x.from).value.server == cfg.self
  }

  function KeyOf(x: Packet): Jid.Parts
    requires Address(x.to).Some? && Address(x.from).Some?
  {
    OutKey(Address(x.to).value, Address(x.from).value)
  }

  /** The entry a packet is queued on: the one that is connecting already, or a new one. */
  function EntryFor(st: State, key: string, hosts: Jid.Parts, ip: string): (Dboc, seq<Output>) {
    if key in st.connecting then (st.connecting[key], [])
    else TryNext(Dboc(hosts, Some(ip), [], [], None))
  }

  /** What happens to a packet y for the pair `hosts`, whose key is `key`. */
  function Dispatch(st: State, verify: bool, key: string, hosts: Jid.Parts, y: Packet, ip: Option<string>, now: int)
    : (State, seq<Output>)
  {
    if key in st.okDb then (st, [Sent(st.okDb[key], y)])
    else if ip.None? then (st, [if verify then Bounced(y) else Dropped(y)])
    else
      var (c, out) := EntryFor(st, key, hosts, ip.value);
      if !verify then (st.(connecting := st.connecting[key := c.(q := [Waiting(now, y)] + c.q)]), out)
      else if c.m.Some? then (st.(connecting := st.connecting[key := c]), out + [Sent(c.m.value, y)])
      else (st.(connecting := st.connecting[key := c.(verifies := c.verifies + [y])]), out)
  }

  function OnSubmit(cfg: Config, st: State, x: Packet, ip: Option<string>, now: int): (State, seq<Output>) {
    match Readdressed(cfg, x)
    case None => (st, [Dropped(x)])
    case Some(y) => Dispatch(st, IsVerify(cfg, x), Jid.Print(KeyOf(y)), KeyOf(y), y, ip, now)
  }

  function SendAll(m: Sock, xs: seq<Packet>): seq<Output> {
    if xs == [] then [] else [Sent(m, xs[0])] + SendAll(m, xs[1..])
  }

  function BounceAll(xs: seq<Packet>): seq<Output> {
    if xs == [] then [] else [Bounced(xs[0])] + BounceAll(xs[1..])
  }

  /** dialback_out_qflush. */
  function FlushAll(m: Sock, q: seq<Waiting>): seq<Output> {
    if q == [] then [] else [Sent(m, q[0].x)] + FlushAll(m, q[1..])
  }

  function FailAll(q: seq<Waiting>): seq<Output> {
    if q == [] then [] else [Failed(q[0].x)] + FailAll(q[1..])
  }

  /** dialback_out_connection_cleanup. */
  function Cleanup(st: State, key: string, c: Dboc): (State, seq<Output>) {
    (st.(connecting := st.connecting - {key}), FailAll(c.q) + BounceAll(c.verifies))
  }

  /** The db:result that starts dialback. */
  function RequestFor(cfg: Config, key: Jid.Parts, id: string): Packet {
    Packet("db:result", Some(key.server), key.resource, None, None, None,
           Some(cfg.merlin(cfg.secret, key.server, id)))
  }

  function OnRoot(cfg: Config, st: State, key: string, m: Sock, namespaceOk: bool, mirror: bool, id: string)
    : (State, seq<Output>)
    requires key in st.connecting
  {
    var c := st.connecting[key];
    if !namespaceOk || mirror then (st, [Hang(m)])
    else
      (st.(connecting := st.connecting[key := c.(m := Some(m), verifies := [])]),
       [Request(m, RequestFor(cfg, c.key, id))] + SendAll(m, c.verifies))
  }

  function OnNode(st: State, key: string, m: Sock, x: Packet): (State, seq<Output>)
    requires key in st.connecting
  {
    var c := st.connecting[key];
    if x.name == "db:result" then
      if x.from != Some(c.key.server) || c.key.resource.None? || x.to != c.key.resource then (st, [Hang(m)])
      else if x.kind == Some("valid") then
        var st1 := st.(okDb := st.okDb[key := m]);
        var (st2, out) := Cleanup(st1, key, c.(q := []));
        (st2, FlushAll(m, c.q) + out)
      else (st, [Hang(m)])
    else if x.name == "db:verify" then (st, [Verdict(x)])
    else (st, [Hang(m)])
  }

  function OnLost(st: State, key: string): (State, seq<Output>)
    requires key in st.connecting
  {
    var c := st.connecting[key].(m := None);
    if c.ip.None? then Cleanup(st, key, c)
    else
      var (c', out) := TryNext(c);
      (st.(connecting := st.connecting[key := c']), out)
  }

  predicate Fresh(cfg: Config, now: int, w: Waiting) { now - w.stamp <= cfg.timeout }

  function Keep(cfg: Config, now: int, q: seq<Waiting>): seq<Waiting> {
    if q == [] then [] else if Fresh(cfg, now, q[0]) then [q[0]] + Keep(cfg, now, q[1..]) else Keep(cfg, now, q[1..])
  }

  function Stale(cfg: Config, now: int, q: seq<Waiting>): seq<Waiting> {
    if q == [] then [] else if Fresh(cfg, now, q[0]) then Stale(cfg, now, q[1..]) else [q[0]] + Stale(cfg, now, q[1..])
  }

  /** _dialback_out_beat_packets. */
  function OnBeat(cfg: Config, st: State, key: string, now: int): (State, seq<Output>)
    requires key in st.connecting
  {
    var c := st.connecting[key];
    (st.(connecting := st.connecting[key := c.(q := Keep(cfg, now, c.q))]), FailAll(Stale(cfg, now, c.q)))
  }

  /** dialback_out_read_db. */
  function OnOkNode(st: State, m: Sock, x: Packet): (State, seq<Output>) {
    if x.name == "db:verify" then (st, [Verdict(x)]) else (st, [Hang(m)])
  }

  function Step(cfg: Config, st: State, e: Event): (State, seq<Output>) {
    match e
    case Submit(x, ip, now) => OnSubmit(cfg, st, x, ip, now)
    case Root(key, m, namespaceOk, mirror, id) =>
      if key in st.connecting then OnRoot(cfg, st, key, m, namespaceOk, mirror, id) else (st, [])
    case Node(key, m, x) => if key in st.connecting then OnNode(st, key, m, x) else (st, [])
    case Lost(key) => if key in st.connecting then OnLost(st, key) else (st, [])
    case Beat(key, now) => if key in st.connecting then OnBeat(cfg, st, key, now) else (st, [])
    case OkNode(key, m, x) => OnOkNode(st, m, x)
    case OkLost(key) => (st.(okDb := st.okDb - {key}), [])
  }

  function After(cfg: Config, h: seq<Event>): State {
    if h == [] then EMPTY else Step(cfg, After(cfg, h[..|h| - 1]), h[|h| - 1]).0
  }

  // ------------------------------------------------------- conservation

  /** The event submits a packet for this key. */
  predicate SubmitsOn(cfg: Config, e: Event, key: string) {
    e.Submit? && Readdressed(cfg, e.x).Some? && Jid.Print(KeyOf(Readdressed(cfg, e.x).value)) == key
  }

  /** The key an event is about. A submission that does not parse is about none. */
  predicate About(cfg: Config, e: Event, key: string) {
    if e.Submit? then SubmitsOn(cfg, e, key) else e.key == key
  }

  /** How often an event submits the packet p, in the form in which it is passed on. */
  function Submits(cfg: Config, e: Event, key: string, p: Packet): nat {
    if SubmitsOn(cfg, e, key) && Readdressed(cfg, e.x).value == p then 1 else 0
  }

  /** How often an output disposes of p. */
  function Disposes(o: Output, p: Packet): nat {
    if (o.Sent? || o.Failed? || o.Dropped? || o.Bounced?) && o.x == p then 1 else 0
  }

  function Disposed(out: seq<Output>, p: Packet): nat {
    if out == [] then 0 else Disposes(out[0], p) + Disposed(out[1..], p)
  }

  function InQueue(q: seq<Waiting>, p: Packet): nat {
    if q == [] then 0 else (if q[0].x == p then 1 else 0) + InQueue(q[1..], p)
  }

  function Held(c: Dboc, p: Packet): nat { InQueue(c.q, p) + multiset(c.verifies)[p] }

  function HeldOn(st: State, key: string, p: Packet): nat {
    if key in st.connecting then Held(st.connecting[key], p) else 0
  }

  /** Over a history: how often p was submitted for the key, and how often it left. */
  function Submitted(cfg: Config, h: seq<Event>, key: string, p: Packet): nat {
    if h == [] then 0 else Submitted(cfg, h[..|h| - 1], key, p) + Submits(cfg, h[|h| - 1], key, p)
  }

  function Gone(cfg: Config, h: seq<Event>, key: string, p: Packet): nat {
    if h == [] then 0
    else
      var g, e := h[..|h| - 1], h[|h| - 1];
      Gone(cfg, g, key, p) + if About(cfg, e, key) then Disposed(Step(cfg, After(cfg, g), e).1, p) else 0
  }

  lemma {:induction false} DisposedConcat(a: seq<Output>, b: seq<Output>, p: Packet)
    ensures Disposed(a + b, p) == Disposed(a, p) + Disposed(b, p)
  {
    if a == [] {
      assert a + b == b;
    } else {
      assert (a + b)[1..] == a[1..] + b;
      DisposedConcat(a[1..], b, p);
    }
  }

  lemma {:induction false} DisposedFailAll(q: seq<Waiting>, p: Packet)
    ensures Disposed(FailAll(q), p) == InQueue(q, p)
  {
    if q != [] { DisposedFailAll(q[1..], p); }
  }

  lemma {:induction false} DisposedFlushAll(m: Sock, q: seq<Waiting>, p: Packet)
    ensures Disposed(FlushAll(m, q), p) == InQueue(q, p)
  {
    if q != [] { DisposedFlushAll(m, q[1..], p); }
  }

  lemma {:induction false} DisposedBounceAll(xs: seq<Packet>, p: Packet)
    ensures Disposed(BounceAll(xs), p) == multiset(xs)[p]
  {
    if xs != [] {
      DisposedBounceAll(xs[1..], p);
      assert xs == [xs[0]] + xs[1..];
    }
  }

  lemma {:induction false} DisposedSendAll(m: Sock, xs: seq<Packet>, p: Packet)
    ensures Disposed(SendAll(m, xs), p) == multiset(xs)[p]
  {
    if xs != [] {
      DisposedSendAll(m, xs[1..], p);
      assert xs == [xs[0]] + xs[1..];
    }
  }

  /** The beat splits the queue: nothing is lost, nothing is doubled. */
  lemma {:induction false} BeatSplits(cfg: Config, now: int, q: seq<Waiting>, p: Packet)
    ensures InQueue(Keep(cfg, now, q), p) + InQueue(Stale(cfg, now, q), p) == InQueue(q, p)
  {
    if q != [] {
      BeatSplits(cfg, now, q[1..], p);
      var w := q[0];
      if Fresh(cfg, now, w) {
        assert Keep(cfg, now, q)[1..] == Keep(cfg, now, q[1..]);
      } else {
        assert Stale(cfg, now, q)[1..] == Stale(cfg, now, q[1..]);
      }
    }
  }

  lemma EntryKeeps(st: State, key: string, hosts: Jid.Parts, ip: string, p: Packet)
    ensures var (c, out) := EntryFor(st, key, hosts, ip);
            Held(c, p) == HeldOn(st, key, p) && Disposed(out, p) == 0
  {
  }

  lemma QueueGrows(c: Dboc, now: int, y: Packet, p: Packet)
    ensures Held(c.(q := [Waiting(now, y)] + c.q), p) == Held(c, p) + if y == p then 1 else 0
    ensures Held(c.(verifies := c.verifies + [y]), p) == Held(c, p) + if y == p then 1 else 0
  {
    assert ([Waiting(now, y)] + c.q)[1..] == c.q;
  }

  lemma DispatchConserves(st: State, verify: bool, key: string, hosts: Jid.Parts, y: Packet, ip: Option<string>,
                          now: int, p: Packet)
    ensures var (st', out) := Dispatch(st, verify, key, hosts, y, ip, now);
            HeldOn(st', key, p) + Disposed(out, p) == HeldOn(st, key, p) + if y == p then 1 else 0
  {
    if key !in st.okDb && ip.Some? {
      var (c, out) := EntryFor(st, key, hosts, ip.value);
      EntryKeeps(st, key, hosts, ip.value, p);
      QueueGrows(c, now, y, p);
      if c.m.Some? {
        DisposedConcat(out, [Sent(c.m.value, y)], p);
      }
    }
  }

  lemma DispatchElsewhere(st: State, verify: bool, key: string, hosts: Jid.Parts, y: Packet, ip: Option<string>,
                          now: int, other: string)
    requires key != other
    ensures var st' := Dispatch(st, verify, key, hosts, y, ip, now).0;
            && (other in st'.connecting <==> other in st.connecting)
            && (other in st.connecting ==> st'.connecting[other] == st.connecting[other])
  {
  }

  lemma NodeConserves(st: State, key: string, m: Sock, x: Packet, p: Packet)
    requires key in st.connecting
    ensures var (st', out) := OnNode(st, key, m, x); HeldOn(st', key, p) + Disposed(out, p) == HeldOn(st, key, p)
  {
    var c := st.connecting[key];
    DisposedFlushAll(m, c.q, p);
    DisposedBounceAll(c.verifies, p);
    DisposedConcat(FlushAll(m, c.q), FailAll([]) + BounceAll(c.verifies), p);
    assert FailAll([]) + BounceAll(c.verifies) == BounceAll(c.verifies);
  }

  lemma RootConserves(cfg: Config, st: State, key: string, m: Sock, namespaceOk: bool, mirror: bool, id: string,
                      p: Packet)
    requires key in st.connecting
    ensures var (st', out) := OnRoot(cfg, st, key, m, namespaceOk, mirror, id);
            HeldOn(st', key, p) + Disposed(out, p) == HeldOn(st, key, p)
  {
    var c := st.connecting[key];
    DisposedSendAll(m, c.verifies, p);
    DisposedConcat([Request(m, RequestFor(cfg, c.key, id))], SendAll(m, c.verifies), p);
  }

  lemma LostConserves(st: State, key: string, p: Packet)
    requires key in st.connecting
    ensures var (st', out) := OnLost(st, key); HeldOn(st', key, p) + Disposed(out, p) == HeldOn(st, key, p)
  {
    var c := st.connecting[key];
    DisposedFailAll(c.q, p);
    DisposedBounceAll(c.verifies, p);
    DisposedConcat(FailAll(c.q), BounceAll(c.verifies), p);
  }

  lemma BeatConserves(cfg: Config, st: State, key: string, now: int, p: Packet)
    requires key in st.connecting
    ensures var (st', out) := OnBeat(cfg, st, key, now); HeldOn(st', key, p) + Disposed(out, p) == HeldOn(st, key, p)
  {
    var c := st.connecting[key];
    BeatSplits(cfg, now, c.q, p);
    DisposedFailAll(Stale(cfg, now, c.q), p);
  }

  lemma ElsewhereNothing(cfg: Config, st: State, e: Event, key: string)
    requires !About(cfg, e, key)
    ensures key in Step(cfg, st, e).0.connecting <==> key in st.connecting
    ensures key in st.connecting ==> Step(cfg, st, e).0.connecting[key] == st.connecting[key]
  {
    if e.Submit? && Readdressed(cfg, e.x).Some? {
      var y := Readdressed(cfg, e.x).value;
      DispatchElsewhere(st, IsVerify(cfg, e.x), Jid.Print(KeyOf(y)), KeyOf(y), y, e.ip, e.now, key);
    }
  }

  lemma StepConserves(cfg: Config, st: State, e: Event, key: string, p: Packet)
    ensures HeldOn(Step(cfg, st, e).0, key, p) + (if About(cfg, e, key) then Disposed(Step(cfg, st, e).1, p) else 0)
         == HeldOn(st, key, p) + Submits(cfg, e, key, p)
  {
    if !About(cfg, e, key) {
      ElsewhereNothing(cfg, st, e, key);
    } else if e.Submit? {
      var y := Readdressed(cfg, e.x).value;
      DispatchConserves(st, IsVerify(cfg, e.x), key, KeyOf(y), y, e.ip, e.now, p);
    } else if key in st.connecting {
      match e
      case Root(_, m, namespaceOk, mirror, id) => RootConserves(cfg, st, key, m, namespaceOk, mirror, id, p);
      case Node(_, m, x) => NodeConserves(st, key, m, x, p);
      case Lost(_) => LostConserves(st, key, p);
      case Beat(_, now) => BeatConserves(cfg, st, key, now, p);
      case OkNode(_, m, x) =>
      case OkLost(_) =>
    }
  }

  /** Each packet handed to the component leaves it exactly once: at any time a packet has
      been submitted for a pair of hosts as often as it was written, failed, dropped or
      bounced so far, or is still waiting. */
  lemma {:induction false} PacketsAreConserved(cfg: Config, h: seq<Event>, key: string, p: Packet)
    ensures Submitted(cfg, h, key, p) == Gone(cfg, h, key, p) + HeldOn(After(cfg, h), key, p)
  {
    if h != [] {
      PacketsAreConserved(cfg, h[..|h| - 1], key, p);
      StepConserves(cfg, After(cfg, h[..|h| - 1]), h[|h| - 1], key, p);
    }
  }

  // ------------------------------------------------- connection attempts

  lemma {:induction false} ChopCounts(ip: string)
    ensures 1 + Left(Chop(ip).1) == Addresses(ip)
  {
    if ip != "" && ip[0] != ',' {
      ChopCounts(ip[1..]);
      if Jid.IndexOf(ip, ',') < |ip| {
        assert ip[Jid.IndexOf(ip, ',') + 1..] == ip[1..][Jid.IndexOf(ip[1..], ',') + 1..];
      }
    }
  }

  function Attempts(out: seq<Output>): nat {
    if out == [] then 0 else (if out[0].Connect? then 1 else 0) + Attempts(out[1..])
  }

  lemma {:induction false} AttemptsConcat(a: seq<Output>, b: seq<Output>)
    ensures Attempts(a + b) == Attempts(a) + Attempts(b)
  {
    if a == [] {
      assert a + b == b;
    } else {
      assert (a + b)[1..] == a[1..] + b;
      AttemptsConcat(a[1..], b);
    }
  }

  lemma {:induction false} QueuesMakeNoAttempts(m: Sock, q: seq<Waiting>)
    ensures Attempts(FailAll(q)) == 0 && Attempts(FlushAll(m, q)) == 0
  {
    if q != [] { QueuesMakeNoAttempts(m, q[1..]); }
  }

  lemma {:induction false} VerifiesMakeNoAttempts(m: Sock, xs: seq<Packet>)
    ensures Attempts(BounceAll(xs)) == 0 && Attempts(SendAll(m, xs)) == 0
  {
    if xs != [] { VerifiesMakeNoAttempts(m, xs[1..]); }
  }

  function LeftOn(st: State, key: string): nat {
    if key in st.connecting then Left(st.connecting[key].ip) else 0
  }

  function AttemptsAbout(cfg: Config, st: State, e: Event, key: string): nat {
    if About(cfg, e, key) then Attempts(Step(cfg, st, e).1) else 0
  }

  lemma DispatchUsesAddresses(st: State, verify: bool, key: string, hosts: Jid.Parts, y: Packet, ip: Option<string>,
                              now: int)
    ensures var (st', out) := Dispatch(st, verify, key, hosts, y, ip, now);
            Attempts(out) + LeftOn(st', key)
            == (if key in st.connecting then LeftOn(st, key)
                else if key in st'.connecting then Addresses(ip.value) else 0)
  {
    if key !in st.okDb && ip.Some? {
      ChopCounts(ip.value);
      var (c, out) := EntryFor(st, key, hosts, ip.value);
      if c.m.Some? {
        AttemptsConcat(out, [Sent(c.m.value, y)]);
      }
    }
  }

  lemma RootMakesNoAttempt(cfg: Config, st: State, key: string, m: Sock, namespaceOk: bool, mirror: bool, id: string)
    requires key in st.connecting
    ensures var (st', out) := OnRoot(cfg, st, key, m, namespaceOk, mirror, id);
            Attempts(out) == 0 && LeftOn(st', key) == LeftOn(st, key)
  {
    var c := st.connecting[key];
    VerifiesMakeNoAttempts(m, c.verifies);
    AttemptsConcat([Request(m, RequestFor(cfg, c.key, id))], SendAll(m, c.verifies));
  }

  lemma NodeMakesNoAttempt(st: State, key: string, m: Sock, x: Packet)
    requires key in st.connecting
    ensures var (st', out) := OnNode(st, key, m, x);
            Attempts(out) == 0 && LeftOn(st', key) <= LeftOn(st, key)
  {
    var c := st.connecting[key];
    QueuesMakeNoAttempts(m, c.q);
    VerifiesMakeNoAttempts(m, c.verifies);
    AttemptsConcat(FlushAll(m, c.q), FailAll([]) + BounceAll(c.verifies));
    assert FailAll([]) + BounceAll(c.verifies) == BounceAll(c.verifies);
  }

  lemma LostUsesOne(st: State, key: string)
    requires key in st.connecting
    ensures var (st', out) := OnLost(st, key);
            Attempts(out) + LeftOn(st', key) == LeftOn(st, key)
  {
    var c := st.connecting[key];
    QueuesMakeNoAttempts(0, c.q);
    VerifiesMakeNoAttempts(0, c.verifies);
    AttemptsConcat(FailAll(c.q), BounceAll(c.verifies));
    if c.ip.Some? { ChopCounts(c.ip.value); }
  }

  lemma OkNodeMakesNoAttempt(st: State, m: Sock, x: Packet)
    ensures Attempts(OnOkNode(st, m, x).1) == 0
  {
    assert Attempts([Verdict(x)]) == 0;
    assert Attempts([Hang(m)]) == 0;
  }

  /** An entry that is connecting uses up one address with every attempt. */
  lemma StepUsesAddresses(cfg: Config, st: State, e: Event, key: string)
    requires key in st.connecting
    ensures AttemptsAbout(cfg, st, e, key) + LeftOn(Step(cfg, st, e).0, key) <= LeftOn(st, key)
  {
    if !About(cfg, e, key) {
      ElsewhereNothing(cfg, st, e, key);
    } else {
      match e
      case Submit(x, ip, now) =>
        var y := Readdressed(cfg, x).value;
        DispatchUsesAddresses(st, IsVerify(cfg, x), key, KeyOf(y), y, ip, now);
      case Root(_, m, namespaceOk, mirror, id) => RootMakesNoAttempt(cfg, st, key, m, namespaceOk, mirror, id);
      case Node(_, m, x) => NodeMakesNoAttempt(st, key, m, x);
      case Lost(_) => LostUsesOne(st, key);
      case Beat(_, now) => QueuesMakeNoAttempts(0, Stale(cfg, now, st.connecting[key].q));
      case OkNode(_, m, x) => OkNodeMakesNoAttempt(st, m, x);
      case OkLost(_) =>
    }
  }

  /** The attempts that a stretch of events makes for a key. */
  function AttemptsOn(cfg: Config, st: State, h: seq<Event>, key: string): nat
    decreases |h|
  {
    if h == [] then 0
    else AttemptsAbout(cfg, st, h[0], key) + AttemptsOn(cfg, Step(cfg, st, h[0]).0, h[1..], key)
  }

  /** The entry for the key is there before every event of the stretch. */
  predicate Connecting(cfg: Config, st: State, h: seq<Event>, key: string)
    decreases |h|
  {
    h == [] || (key in st.connecting && Connecting(cfg, Step(cfg, st, h[0]).0, h[1..], key))
  }

  lemma {:induction false} StretchUsesAddresses(cfg: Config, st: State, h: seq<Event>, key: string)
    requires Connecting(cfg, st, h, key)
    ensures AttemptsOn(cfg, st, h, key) <= LeftOn(st, key)
    decreases |h|
  {
    if h != [] {
      StepUsesAddresses(cfg, st, h[0], key);
      StretchUsesAddresses(cfg, Step(cfg, st, h[0]).0, h[1..], key);
    }
  }

  /** In the whole life of a connecting entry, from the packet that creates it, there are
      at most as many connection attempts as the address list had addresses. */
  lemma AttemptsAreBounded(cfg: Config, st: State, first: Event, h: seq<Event>, key: string)
    requires SubmitsOn(cfg, first, key) && key !in st.connecting && first.ip.Some?
    requires Connecting(cfg, Step(cfg, st, first).0, h, key)
    ensures AttemptsOn(cfg, st, [first] + h, key) <= Addresses(first.ip.value)
  {
    var y := Readdressed(cfg, first.x).value;
    DispatchUsesAddresses(st, IsVerify(cfg, first.x), key, KeyOf(y), y, first.ip, first.now);
    StretchUsesAddresses(cfg, Step(cfg, st, first).0, h, key);
    assert ([first] + h)[1..] == h;
  }

  /** When the last address has failed, everything that waited is failed and the entry is gone. */
  lemma LastAddressFails(cfg: Config, st: State, key: string, p: Packet)
    requires key in st.connecting && st.connecting[key].ip == None
    ensures var (st', out) := Step(cfg, st, Lost(key));
            key !in st'.connecting && Disposed(out, p) == HeldOn(st, key, p)
            && forall o :: o in FailAll(st.connecting[key].q) ==> o.Failed?
  {
    LostConserves(st, key, p);
    FailAllFails(st.connecting[key].q);
  }

  lemma {:induction false} FailAllFails(q: seq<Waiting>)
    ensures forall o :: o in FailAll(q) ==> o.Failed?
  {
    if q != [] { FailAllFails(q[1..]); }
  }

  // ------------------------------------------------- what a run keeps

  /** A pair of hosts is connecting or trusted, not both; verify requests wait only while
      there is no connection to write them to. */
  predicate Tidy(st: State) {
    && st.connecting.Keys !! st.okDb.Keys
    && forall key :: key in st.connecting ==>
         Jid.Print(st.connecting[key].key) == key && (st.connecting[key].m.Some? ==> st.connecting[key].verifies == [])
  }

  lemma StepTidy(cfg: Config, st: State, e: Event)
    requires Tidy(st)
    ensures Tidy(Step(cfg, st, e).0)
  {
    if e.Submit? && Readdressed(cfg, e.x).Some? {
      var y := Readdressed(cfg, e.x).value;
      DispatchTidy(st, IsVerify(cfg, e.x), Jid.Print(KeyOf(y)), KeyOf(y), y, e.ip, e.now);
    }
  }

  lemma DispatchTidy(st: State, verify: bool, key: string, hosts: Jid.Parts, y: Packet, ip: Option<string>, now: int)
    requires Tidy(st) && Jid.Print(hosts) == key
    ensures Tidy(Dispatch(st, verify, key, hosts, y, ip, now).0)
  {
  }

  lemma {:induction false} RunsAreTidy(cfg: Config, h: seq<Event>)
    ensures Tidy(After(cfg, h))
  {
    if h != [] {
      RunsAreTidy(cfg, h[..|h| - 1]);
      StepTidy(cfg, After(cfg, h[..|h| - 1]), h[|h| - 1]);
    }
  }

  // ------------------------------------------- the queue, node by node

  /** struct dboq. */
  class QueueNode {
    const stamp: int
    const x: Packet
    var next: QueueNode?

    constructor (stamp: int, x: Packet, next: QueueNode?)
      ensures this.stamp == stamp && this.x == x && this.next == next
    {
      this.stamp, this.x, this.next := stamp, x, next;
    }
  }

  function Contents(nodes: seq<QueueNode>): (q: seq<Waiting>)
    ensures |q| == |nodes| && forall i :: 0 <= i < |nodes| ==> q[i] == Waiting(nodes[i].stamp, nodes[i].x)
  {
    if nodes == [] then [] else [Waiting(nodes[0].stamp, nodes[0].x)] + Contents(nodes[1..])
  }

  /** The nodes are linked in this order, and the last one ends the list. */
  predicate Linked(nodes: seq<QueueNode>)
    reads nodes
  {
    && (forall i {:trigger nodes[i].next} :: 0 <= i < |nodes| - 1 ==> nodes[i].next == nodes[i + 1])
    && (nodes != [] ==> nodes[|nodes| - 1].next == null)
    && (forall i, j :: 0 <= i < j < |nodes| ==> nodes[i] != nodes[j])
  }

  function HeadOf(nodes: seq<QueueNode>): QueueNode? { if nodes == [] then null else nodes[0] }

  function PacketsOf(q: seq<Waiting>): seq<Packet> { if q == [] then [] else [q[0].x] + PacketsOf(q[1..]) }

  /** The queue of a connecting entry, c->q. */
  class PacketQueue {
    var head: QueueNode?
    ghost var nodes: seq<QueueNode>
    ghost var repr: set<QueueNode>

    ghost predicate Valid()
      reads this, repr
    {
      (forall i :: 0 <= i < |nodes| ==> nodes[i] in repr) && Linked(nodes) && head == HeadOf(nodes)
    }

    constructor ()
      ensures Valid() && nodes == [] && repr == {}
    {
      head, nodes, repr := null, [], {};
    }

    /** The packet goes to the front. */
    method Push(now: int, x: Packet)
      requires Valid()
      modifies this
      ensures Valid() && Contents(nodes) == [Waiting(now, x)] + old(Contents(nodes))
      ensures fresh(repr - old(repr))
    {
      var q := new QueueNode(now, x, head);
      head := q;
      nodes := [q] + nodes;
      repr := repr + {q};
      assert nodes[1..] == old(nodes);
    }

    /** The walk stands at node j, with `last` the node in front of it. */
    ghost predicate At(j: nat, cur: QueueNode?, last: QueueNode?)
      reads this, repr
    {
      && Valid() && j <= |nodes|
      && cur == (if j < |nodes| then nodes[j] else null)
      && last == (if j == 0 then null else nodes[j - 1])
    }

    /** Takes node j out of the list. */
    method Unlink(ghost j: nat, cur: QueueNode, last: QueueNode?) returns (next: QueueNode?)
      requires At(j, cur, last)
      modifies this, if last == null then {} else {last}
      ensures At(j, next, last) && repr == old(repr)
      ensures nodes == old(nodes)[..j] + old(nodes)[j + 1..]
    {
      next := cur.next;
      if head == cur {
        head := next;
      } else {
        last.next := next;
      }
      nodes := nodes[..j] + nodes[j + 1..];
    }

    /** _dialback_out_beat_packets: unlinks the stale nodes while walking the list. */
    method Beat(cfg: Config, now: int) returns (failed: seq<Packet>)
      requires Valid()
      modifies this, repr
      ensures Valid() && repr == old(repr)
      ensures Contents(nodes) == Keep(cfg, now, old(Contents(nodes)))
      ensures failed == PacketsOf(Stale(cfg, now, old(Contents(nodes))))
    {
      failed := [];
      var last: QueueNode? := null;
      var cur := head;
      ghost var j: nat := 0;
      while cur != null
        invariant At(j, cur, last) && repr == old(repr)
        invariant nodes[..j] + KeepNodes(nodes[j..], cfg.timeout, now) == KeepNodes(old(nodes), cfg.timeout, now)
        invariant failed + FailNodes(nodes[j..], cfg.timeout, now) == FailNodes(old(nodes), cfg.timeout, now)
        decreases |nodes| - j
      {
        TurnOf(nodes, j, cfg.timeout, now);
        if now - cur.stamp <= cfg.timeout {
          last := cur;
          cur := cur.next;
          j := j + 1;
        } else {
          failed := failed + [cur.x];
          cur := Unlink(j, cur, last);
        }
      }
      assert nodes[..j] == nodes;
      NodesContents(cfg, now, old(nodes));
    }
  }

  /** What one turn of the walk does to the nodes kept, failed and still to be seen. */
  lemma TurnOf(nodes: seq<QueueNode>, j: nat, timeout: int, now: int)
    requires j < |nodes|
    ensures now - nodes[j].stamp <= timeout ==>
              nodes[..j + 1] + KeepNodes(nodes[j + 1..], timeout, now)
                  == nodes[..j] + KeepNodes(nodes[j..], timeout, now)
              && FailNodes(nodes[j..], timeout, now) == FailNodes(nodes[j + 1..], timeout, now)
    ensures now - nodes[j].stamp > timeout ==>
              KeepNodes(nodes[j..], timeout, now) == KeepNodes(nodes[j + 1..], timeout, now)
              && FailNodes(nodes[j..], timeout, now) == [nodes[j].x] + FailNodes(nodes[j + 1..], timeout, now)
    ensures (nodes[..j] + nodes[j + 1..])[..j] == nodes[..j]
    ensures (nodes[..j] + nodes[j + 1..])[j..] == nodes[j + 1..]
  {
    assert nodes[j..][1..] == nodes[j + 1..];
    assert nodes[..j + 1] == nodes[..j] + [nodes[j]];
  }

  function KeepNodes(nodes: seq<QueueNode>, timeout: int, now: int): seq<QueueNode> {
    if nodes == [] then []
    else if now - nodes[0].stamp <= timeout then [nodes[0]] + KeepNodes(nodes[1..], timeout, now)
    else KeepNodes(nodes[1..], timeout, now)
  }

  function FailNodes(nodes: seq<QueueNode>, timeout: int, now: int): seq<Packet> {
    if nodes == [] then []
    else if now - nodes[0].stamp <= timeout then FailNodes(nodes[1..], timeout, now)
    else [nodes[0].x] + FailNodes(nodes[1..], timeout, now)
  }

  lemma {:induction false} NodesContents(cfg: Config, now: int, nodes: seq<QueueNode>)
    ensures Contents(KeepNodes(nodes, cfg.timeout, now)) == Keep(cfg, now, Contents(nodes))
    ensures FailNodes(nodes, cfg.timeout, now) == PacketsOf(Stale(cfg, now, Contents(nodes)))
  {
    if nodes != [] {
      NodesContents(cfg, now, nodes[1..]);
      assert Contents(nodes)[1..] == Contents(nodes[1..]);
      assert KeepNodes(nodes, cfg.timeout, now) != [] ==>
             Contents(KeepNodes(nodes, cfg.timeout, now))[1..] == Contents(KeepNodes(nodes, cfg.timeout, now)[1..]);
      if !Fresh(cfg, now, Contents(nodes)[0]) {
        assert Stale(cfg, now, Contents(nodes))[1..] == Stale(cfg, now, Contents(nodes[1..]));
      }
    }
  }

  // --------------------------------------------------- the mutable server

  /** The originating half of the db structure, and its callbacks. */
  class Outgoing {
    const cfg: Config
    var connecting: map<string, Dboc>
    var okDb: map<string, Sock>

    constructor (cfg: Config)
      ensures this.cfg == cfg && Tables() == EMPTY
    {
      this.cfg := cfg;
      connecting, okDb := map[], map[];
    }

    function Tables(): State
      reads this
    {
      State(connecting, okDb)
    }

    /** dialback_out_packet. */
    method Submit(x: Packet, ip: Option<string>, now: int) returns (out: seq<Output>)
      modifies this
      ensures (Tables(), out) == OnSubmit(cfg, old(Tables()), x, ip, now)
    {
      var to, from := Address(x.to), Address(x.from);
      if to.None? || from.None? { return [Dropped(x)]; }
      var y, verify := x, false;
      if from.value.server == cfg.self {
        verify := true;
        y := y.(from := Put(y.from, y.ofrom));
        y := y.(ofrom := None);
        from := Address(y.from);
        if from.None? { return [Dropped(x)]; }
      }
      var hosts := OutKey(to.value, from.value);
      var key := Jid.Print(hosts);
      assert Readdressed(cfg, x) == Some(y) && KeyOf(y) == hosts && IsVerify(cfg, x) == verify;
      if key in okDb { return [Sent(okDb[key], y)]; }
      if ip.None? {
        out := [if verify then Bounced(y) else Dropped(y)];
        return;
      }
      var c;
      if key in connecting {
        c, out := connecting[key], [];
      } else {
        c := Dboc(hosts, ip, [], [], None);
        var chopped := Chop(ip.value);
        c, out := c.(ip := chopped.1), [Connect(chopped.0)];
      }
      if !verify {
        c := c.(q := [Waiting(now, y)] + c.q);
      } else if c.m.Some? {
        out := out + [Sent(c.m.value, y)];
      } else {
        c := c.(verifies := c.verifies + [y]);
      }
      connecting := connecting[key := c];
    }

    /** dialback_out_read, MIO_XML_ROOT. */
    method ReadRoot(key: string, m: Sock, namespaceOk: bool, mirror: bool, id: string) returns (out: seq<Output>)
      requires key in connecting
      modifies this
      ensures (Tables(), out) == OnRoot(cfg, old(Tables()), key, m, namespaceOk, mirror, id)
    {
      if !namespaceOk { return [Hang(m)]; }
      if mirror { return [Hang(m)]; }
      var c := connecting[key];
      out := [Request(m, Packet("db:result", Some(c.key.server), c.key.resource, None, None, None,
                                Some(cfg.merlin(cfg.secret, c.key.server, id))))];
      c := c.(m := Some(m));
      var i := 0;
      while i < |c.verifies|
        invariant i <= |c.verifies|
        invariant out + SendAll(m, c.verifies[i..]) == [Request(m, RequestFor(cfg, c.key, id))] + SendAll(m, c.verifies)
      {
        assert c.verifies[i..][1..] == c.verifies[i + 1..];
        out := out + [Sent(m, c.verifies[i])];
        i := i + 1;
      }
      assert c.verifies[i..] == [] && out + [] == out;
      connecting := connecting[key := c.(verifies := [])];
    }

    /** dialback_out_read, MIO_XML_NODE. */
    method ReadNode(key: string, m: Sock, x: Packet) returns (out: seq<Output>)
      requires key in connecting
      modifies this
      ensures (Tables(), out) == OnNode(old(Tables()), key, m, x)
    {
      var c := connecting[key];
      if x.name == "db:result" {
        if x.from != Some(c.key.server) || c.key.resource.None? || x.to != c.key.resource { return [Hang(m)]; }
        if x.kind != Some("valid") { return [Hang(m)]; }
        okDb := okDb[key := m];
        out := [];
        var i := 0;
        while i < |c.q|
          invariant i <= |c.q| && connecting == old(connecting) && okDb == old(okDb)[key := m]
          invariant out + FlushAll(m, c.q[i..]) == FlushAll(m, c.q)
        {
          assert c.q[i..][1..] == c.q[i + 1..];
          out := out + [Sent(m, c.q[i].x)];
          i := i + 1;
        }
        assert c.q[i..] == [] && out + [] == out;
        c := c.(q := []);
        var rest := Clean(key, c);
        out := out + rest;
      } else if x.name == "db:verify" {
        out := [Verdict(x)];
      } else {
        out := [Hang(m)];
      }
    }

    /** dialback_out_connection_cleanup. */
    method Clean(key: string, c: Dboc) returns (out: seq<Output>)
      modifies this`connecting
      ensures (Tables(), out) == Cleanup(old(Tables()), key, c)
    {
      connecting := connecting - {key};
      out := [];
      var i := 0;
      while i < |c.q|
        invariant i <= |c.q|
        invariant out + FailAll(c.q[i..]) == FailAll(c.q)
      {
        assert c.q[i..][1..] == c.q[i + 1..];
        out := out + [Failed(c.q[i].x)];
        i := i + 1;
      }
      assert c.q[i..] == [] && out + [] == out;
      var k := 0;
      while k < |c.verifies|
        invariant k <= |c.verifies|
        invariant out + BounceAll(c.verifies[k..]) == FailAll(c.q) + BounceAll(c.verifies)
      {
        assert c.verifies[k..][1..] == c.verifies[k + 1..];
        out := out + [Bounced(c.verifies[k])];
        k := k + 1;
      }
      assert c.verifies[k..] == [] && out + [] == out;
    }

    /** dialback_out_read, MIO_CLOSED. */
    method Lose(key: string) returns (out: seq<Output>)
      requires key in connecting
      modifies this
      ensures (Tables(), out) == OnLost(old(Tables()), key)
    {
      var c := connecting[key].(m := None);
      if c.ip.None? {
        out := Clean(key, c);
      } else {
        var chopped := Chop(c.ip.value);
        connecting := connecting[key := c.(ip := chopped.1)];
        out := [Connect(chopped.0)];
      }
    }
  }
}
