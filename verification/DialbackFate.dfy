/** When and where the packets of the originating side leave: on the socket of their pair, or
    failed, dropped or bounced, each for its own reason. */
module DialbackFate {
  import opened Options
  import opened DialbackPacket
  import opened DialbackOut
  import Jid

  // ------------------------------------------------- what is written, and on which socket

  function RunFrom(cfg: Config, st: State, h: seq<Event>): State
    decreases |h|
  {
    if h == [] then st else RunFrom(cfg, Step(cfg, st, h[0]).0, h[1..])
  }

  /** The packets written on a socket. */
  function Writes(out: seq<Output>, m: Sock): seq<Packet> {
    if out == [] then []
    else (if out[0].Sent? && out[0].m == m then [out[0].x] else []) + Writes(out[1..], m)
  }

  /** The packets of a pair that a stretch of events writes on a socket, in order. */
  function SentOn(cfg: Config, st: State, h: seq<Event>, key: string, m: Sock): seq<Packet>
    decreases |h|
  {
    if h == [] then []
    else
      (if About(cfg, h[0], key) then Writes(Step(cfg, st, h[0]).1, m) else [])
      + SentOn(cfg, Step(cfg, st, h[0]).0, h[1..], key, m)
  }

  /** The packets submitted for a pair, in order, as they go on. */
  function SubmittedOn(cfg: Config, h: seq<Event>, key: string): seq<Packet> {
    if h == [] then []
    else (if SubmitsOn(cfg, h[0], key) then [Readdressed(cfg, h[0].x).value] else []) + SubmittedOn(cfg, h[1..], key)
  }

  /** The verify requests among them for which an address is known. */
  function VerifiesOn(cfg: Config, h: seq<Event>, key: string): seq<Packet> {
    if h == [] then []
    else
      (if SubmitsOn(cfg, h[0], key) && IsVerify(cfg, h[0].x) && h[0].ip.Some?
       then [Readdressed(cfg, h[0].x).value] else [])
      + VerifiesOn(cfg, h[1..], key)
  }

  lemma {:induction false} WritesConcat(a: seq<Output>, b: seq<Output>, m: Sock)
    ensures Writes(a + b, m) == Writes(a, m) + Writes(b, m)
  {
    if a == [] {
      assert a + b == b;
    } else {
      assert (a + b)[0] == a[0] && (a + b)[1..] == a[1..] + b;
      WritesConcat(a[1..], b, m);
    }
  }

  lemma {:induction false} FlushWrites(m: Sock, q: seq<Waiting>)
    ensures Writes(FlushAll(m, q), m) == PacketsOf(q)
  {
    if q != [] { FlushWrites(m, q[1..]); }
  }

  lemma {:induction false} SendWrites(m: Sock, xs: seq<Packet>)
    ensures Writes(SendAll(m, xs), m) == xs
  {
    if xs != [] { SendWrites(m, xs[1..]); }
  }

  lemma {:induction false} OthersWriteNothing(q: seq<Waiting>, xs: seq<Packet>, m: Sock)
    ensures Writes(FailAll(q), m) == [] && Writes(BounceAll(xs), m) == []
    decreases |q| + |xs|
  {
    if q != [] { OthersWriteNothing(q[1..], xs, m); }
    if xs != [] { OthersWriteNothing(q, xs[1..], m); }
  }

  /** The valid result for a pair that is connecting: from its server, to its host. */
  predicate Validates(st: State, e: Event, key: string) {
    && e.Node? && e.key == key && key in st.connecting
    && e.x.name == "db:result" && e.x.kind == Some("valid")
    && st.connecting[key].key.resource.Some?
    && e.x.from == Some(st.connecting[key].key.server) && e.x.to == st.connecting[key].key.resource
  }

  /** No OkLost for the key. */
  predicate StaysTrusted(h: seq<Event>, key: string) {
    h == [] || (h[0] != OkLost(key) && StaysTrusted(h[1..], key))
  }

  /** A submission leaves the table of trusted pairs alone, and goes out on a trusted pair. */
  lemma SubmitTrusts(cfg: Config, st: State, e: Event, key: string)
    requires e.Submit?
    ensures var (st', out) := Step(cfg, st, e);
            && st'.okDb == st.okDb
            && (key in st.okDb && SubmitsOn(cfg, e, key) ==>
                  out == [Sent(st.okDb[key], Readdressed(cfg, e.x).value)])
  {
    if Readdressed(cfg, e.x).Some? {
      var y := Readdressed(cfg, e.x).value;
      DispatchTrusts(st, IsVerify(cfg, e.x), Jid.Print(KeyOf(y)), KeyOf(y), y, e.ip, e.now);
    }
  }

  lemma DispatchTrusts(st: State, verify: bool, key: string, hosts: Jid.Parts, y: Packet, ip: Option<string>, now: int)
    ensures var (st', out) := Dispatch(st, verify, key, hosts, y, ip, now);
            st'.okDb == st.okDb && (key in st.okDb ==> out == [Sent(st.okDb[key], y)])
  {
  }

  lemma TrustChanges(cfg: Config, st: State, e: Event, key: string)
    requires Tidy(st)
    ensures var st' := Step(cfg, st, e).0;
            && (key in st'.okDb <==> Validates(st, e, key) || (key in st.okDb && e != OkLost(key)))
            && (key in st'.okDb ==> st'.okDb[key] == if Validates(st, e, key) then e.m else st.okDb[key])
  {
    if e.Submit? {
      SubmitTrusts(cfg, st, e, key);
    } else if e.Node? {
      if e.key in st.connecting { NodeTrusts(st, e, key); }
    } else if e.Root? {
    } else if e.Lost? {
    } else {
    }
  }

  lemma NodeTrusts(st: State, e: Event, key: string)
    requires e.Node? && e.key in st.connecting
    ensures OnNode(st, e.key, e.m, e.x).0.okDb == if Validates(st, e, e.key) then st.okDb[e.key := e.m] else st.okDb
  {
  }

  lemma TrustedStep(cfg: Config, st: State, e: Event, key: string)
    requires Tidy(st) && key in st.okDb && e != OkLost(key)
    ensures var (st', out) := Step(cfg, st, e);
            && key in st'.okDb && st'.okDb[key] == st.okDb[key]
            && (if About(cfg, e, key) then Writes(out, st.okDb[key]) else []) == SubmittedOn(cfg, [e], key)
  {
    TrustChanges(cfg, st, e, key);
    if e.Submit? {
      SubmitTrusts(cfg, st, e, key);
    }
    if SubmitsOn(cfg, e, key) {
      var y := Readdressed(cfg, e.x).value;
      assert [Sent(st.okDb[key], y)][1..] == [];
    }
  }

  lemma SubmittedSplits(cfg: Config, h: seq<Event>, key: string)
    requires h != []
    ensures SubmittedOn(cfg, h, key) == SubmittedOn(cfg, [h[0]], key) + SubmittedOn(cfg, h[1..], key)
  {
    assert [h[0]][1..] == [];
  }

  /** While a pair is trusted, everything submitted for it is written on its socket, at once and
      in order, and nothing else is. */
  lemma {:induction false} TrustedWritesAll(cfg: Config, st: State, h: seq<Event>, key: string)
    requires Tidy(st) && key in st.okDb && StaysTrusted(h, key)
    ensures SentOn(cfg, st, h, key, st.okDb[key]) == SubmittedOn(cfg, h, key)
    ensures var st' := RunFrom(cfg, st, h); key in st'.okDb && st'.okDb[key] == st.okDb[key]
    decreases |h|
  {
    if h != [] {
      var (st1, out) := Step(cfg, st, h[0]);
      StepTidy(cfg, st, h[0]);
      TrustedStep(cfg, st, h[0], key);
      SubmittedSplits(cfg, h, key);
      TrustedWritesAll(cfg, st1, h[1..], key);
    }
  }

  /** Main result: from the valid result on, until the connection is lost, what is written on the
      socket of the pair is what had been queued for it, and then what is submitted for it, in
      order; nothing else, and nothing anywhere else. */
  lemma ValidResultWrites(cfg: Config, st: State, e: Event, h: seq<Event>, key: string)
    requires Tidy(st) && Validates(st, e, key) && StaysTrusted(h, key)
    ensures SentOn(cfg, st, [e] + h, key, e.m) == PacketsOf(st.connecting[key].q) + SubmittedOn(cfg, h, key)
    ensures var st' := RunFrom(cfg, st, [e] + h); key in st'.okDb && st'.okDb[key] == e.m
  {
    var (st1, out) := Step(cfg, st, e);
    var c := st.connecting[key];
    StepTidy(cfg, st, e);
    FlushWrites(e.m, c.q);
    OthersWriteNothing([], c.verifies, e.m);
    assert FailAll([]) + BounceAll(c.verifies) == BounceAll(c.verifies);
    WritesConcat(FlushAll(e.m, c.q), BounceAll(c.verifies), e.m);
    assert PacketsOf(c.q) + [] == PacketsOf(c.q);
    TrustedWritesAll(cfg, st1, h, key);
    assert ([e] + h)[0] == e && ([e] + h)[1..] == h;
  }

  /** The pair is trusted on m: its last valid result came on m, and that connection is not lost. */
  predicate TrustedBy(cfg: Config, h: seq<Event>, key: string, m: Sock) {
    h != [] &&
    var g, e := h[..|h| - 1], h[|h| - 1];
    (Validates(After(cfg, g), e, key) && e.m == m) || (TrustedBy(cfg, g, key, m) && e != OkLost(key))
  }

  /** Over every history: a pair is trusted exactly on the socket of its valid result, until that
      connection is lost. */
  lemma {:induction false} TrustIsEarned(cfg: Config, h: seq<Event>, key: string, m: Sock)
    ensures key in After(cfg, h).okDb && After(cfg, h).okDb[key] == m <==> TrustedBy(cfg, h, key, m)
  {
    if h != [] {
      var g, e := h[..|h| - 1], h[|h| - 1];
      RunsAreTidy(cfg, g);
      TrustIsEarned(cfg, g, key, m);
      TrustChanges(cfg, After(cfg, g), e, key);
      assert Validates(After(cfg, g), e, key) ==> key !in After(cfg, g).okDb;
    }
  }

  // ---- verify requests

  /** The connection that carries verify requests stays as it is. */
  predicate StaysConnected(cfg: Config, st: State, h: seq<Event>, key: string)
    decreases |h|
  {
    h == []
    || (!(h[0].Lost? && h[0].key == key) && !(h[0].Root? && h[0].key == key) && !Validates(st, h[0], key)
        && StaysConnected(cfg, Step(cfg, st, h[0]).0, h[1..], key))
  }

  /** A submission for a pair with a connection: a stanza waits, a verify request goes out. */
  lemma SubmitConnected(cfg: Config, st: State, e: Event, key: string)
    requires key in st.connecting && st.connecting[key].m.Some? && key !in st.okDb && SubmitsOn(cfg, e, key)
    ensures var (st', out) := Step(cfg, st, e);
            && key in st'.connecting && st'.connecting[key].m == st.connecting[key].m
            && out == if IsVerify(cfg, e.x) && e.ip.Some?
                      then [Sent(st.connecting[key].m.value, Readdressed(cfg, e.x).value)]
                      else if e.ip.Some? then []
                      else [if IsVerify(cfg, e.x) then Bounced(Readdressed(cfg, e.x).value)
                            else Dropped(Readdressed(cfg, e.x).value)]
  {
    var y := Readdressed(cfg, e.x).value;
    DispatchConnected(st, IsVerify(cfg, e.x), key, KeyOf(y), y, e.ip, e.now);
  }

  lemma DispatchConnected(st: State, verify: bool, key: string, hosts: Jid.Parts, y: Packet, ip: Option<string>,
                          now: int)
    requires key in st.connecting && st.connecting[key].m.Some? && key !in st.okDb
    ensures var (st', out) := Dispatch(st, verify, key, hosts, y, ip, now);
            && key in st'.connecting && st'.connecting[key].m == st.connecting[key].m
            && out == if verify && ip.Some? then [Sent(st.connecting[key].m.value, y)]
                      else if ip.Some? then [] else [if verify then Bounced(y) else Dropped(y)]
  {
  }

  lemma NodeConnected(st: State, e: Event, key: string)
    requires e.Node? && e.key == key && key in st.connecting && st.connecting[key].m.Some? && !Validates(st, e, key)
    ensures var (st', out) := OnNode(st, key, e.m, e.x);
            st' == st && Writes(out, st.connecting[key].m.value) == []
  {
  }

  lemma ConnectedStep(cfg: Config, st: State, e: Event, key: string)
    requires Tidy(st) && key in st.connecting && st.connecting[key].m.Some?
    requires !(e.Lost? && e.key == key) && !(e.Root? && e.key == key) && !Validates(st, e, key)
    ensures var (st', out) := Step(cfg, st, e);
            && key in st'.connecting && st'.connecting[key].m == st.connecting[key].m
            && (if About(cfg, e, key) then Writes(out, st.connecting[key].m.value) else [])
               == VerifiesOn(cfg, [e], key)
  {
    var m := st.connecting[key].m.value;
    assert [e][1..] == [];
    if !About(cfg, e, key) {
      ElsewhereNothing(cfg, st, e, key);
    } else if e.Submit? {
      SubmitConnected(cfg, st, e, key);
      assert Step(cfg, st, e).1 != [] ==> Step(cfg, st, e).1[1..] == [];
    } else if e.Beat? {
      OthersWriteNothing(Stale(cfg, e.now, st.connecting[key].q), [], m);
    } else if e.Node? {
      NodeConnected(st, e, key);
    }
  }

  lemma VerifiesSplit(cfg: Config, h: seq<Event>, key: string)
    requires h != []
    ensures VerifiesOn(cfg, h, key) == VerifiesOn(cfg, [h[0]], key) + VerifiesOn(cfg, h[1..], key)
  {
    assert [h[0]][1..] == [];
  }

  /** Between the stream header and the result, what is written on the socket of the connecting
      pair is exactly its verify requests, in order. */
  lemma {:induction false} VerifiesAreWritten(cfg: Config, st: State, h: seq<Event>, key: string)
    requires Tidy(st) && key in st.connecting && st.connecting[key].m.Some? && StaysConnected(cfg, st, h, key)
    ensures SentOn(cfg, st, h, key, st.connecting[key].m.value) == VerifiesOn(cfg, h, key)
    decreases |h|
  {
    if h != [] {
      StepTidy(cfg, st, h[0]);
      ConnectedStep(cfg, st, h[0], key);
      VerifiesSplit(cfg, h, key);
      VerifiesAreWritten(cfg, Step(cfg, st, h[0]).0, h[1..], key);
    }
  }

  /** The stream header writes the requests that waited. */
  lemma HeaderWrites(cfg: Config, st: State, key: string, m: Sock, id: string)
    requires key in st.connecting
    ensures var (st', out) := Step(cfg, st, Root(key, m, true, false, id));
            && Writes(out, m) == st.connecting[key].verifies
            && key in st'.connecting && st'.connecting[key].m == Some(m) && st'.connecting[key].verifies == []
            && st'.connecting[key].q == st.connecting[key].q
  {
    var xs := st.connecting[key].verifies;
    SendWrites(m, xs);
    WritesConcat([Request(m, RequestFor(cfg, st.connecting[key].key, id))], SendAll(m, xs), m);
  }

  // ---------------------------------------------------------- why a packet leaves

  /** A stanza, not a verify request, was submitted for the pair with this stamp. */
  predicate Queued(cfg: Config, h: seq<Event>, key: string, w: Waiting) {
    h != [] &&
    var e := h[|h| - 1];
    || Queued(cfg, h[..|h| - 1], key, w)
    || (SubmitsOn(cfg, e, key) && !IsVerify(cfg, e.x) && w == Waiting(e.now, Readdressed(cfg, e.x).value))
  }

  /** A verify request was submitted for the pair. */
  predicate Asked(cfg: Config, h: seq<Event>, key: string, y: Packet) {
    h != [] &&
    var e := h[|h| - 1];
    || Asked(cfg, h[..|h| - 1], key, y)
    || (SubmitsOn(cfg, e, key) && IsVerify(cfg, e.x) && y == Readdressed(cfg, e.x).value)
  }

  predicate AllQueued(cfg: Config, h: seq<Event>, key: string, q: seq<Waiting>) {
    forall w :: w in q ==> Queued(cfg, h, key, w)
  }

  predicate AllAsked(cfg: Config, h: seq<Event>, key: string, ys: seq<Packet>) {
    forall y :: y in ys ==> Asked(cfg, h, key, y)
  }

  /** What waits for a pair has been submitted for it: stanzas in the queue, verify requests
      apart. */
  predicate Rightful(cfg: Config, h: seq<Event>, key: string) {
    var st := After(cfg, h);
    key in st.connecting ==>
      AllQueued(cfg, h, key, st.connecting[key].q) && AllAsked(cfg, h, key, st.connecting[key].verifies)
  }

  lemma StepIsRightful(cfg: Config, h: seq<Event>, key: string)
    requires h != [] && Rightful(cfg, h[..|h| - 1], key)
    ensures Rightful(cfg, h, key)
  {
    var g, e := h[..|h| - 1], h[|h| - 1];
    var st := After(cfg, g);
    if !About(cfg, e, key) {
      ElsewhereNothing(cfg, st, e, key);
    } else if e.Submit? {
      SubmitIsRightful(cfg, g, e, key);
    } else if key in st.connecting {
      match e {
        case Beat(_, now) => KeptWaited(cfg, now, st.connecting[key].q);
        case Root(_, _, _, _, _) =>
        case Node(_, _, _) =>
        case Lost(_) =>
        case OkNode(_, _, _) =>
        case OkLost(_) =>
      }
    }
  }

  lemma SubmitIsRightful(cfg: Config, g: seq<Event>, e: Event, key: string)
    requires Rightful(cfg, g, key) && SubmitsOn(cfg, e, key)
    ensures Rightful(cfg, g + [e], key)
  {
    var h := g + [e];
    assert h[..|h| - 1] == g && h[|h| - 1] == e;
    var y := Readdressed(cfg, e.x).value;
    var st, st' := After(cfg, g), After(cfg, h);
    assert st' == Dispatch(st, IsVerify(cfg, e.x), key, KeyOf(y), y, e.ip, e.now).0;
    forall w | key in st'.connecting && w in st'.connecting[key].q ensures Queued(cfg, h, key, w) {
      DispatchAdds(st, IsVerify(cfg, e.x), key, KeyOf(y), y, e.ip, e.now, w, y);
    }
    forall x | key in st'.connecting && x in st'.connecting[key].verifies ensures Asked(cfg, h, key, x) {
      DispatchAdds(st, IsVerify(cfg, e.x), key, KeyOf(y), y, e.ip, e.now, Waiting(e.now, y), x);
    }
  }

  /** What waits for the pair after a submission waited before, or is the packet submitted. */
  lemma DispatchAdds(st: State, verify: bool, key: string, hosts: Jid.Parts, y: Packet, ip: Option<string>, now: int,
                     w: Waiting, x: Packet)
    requires key in Dispatch(st, verify, key, hosts, y, ip, now).0.connecting
    ensures var c := Dispatch(st, verify, key, hosts, y, ip, now).0.connecting[key];
            && (w in c.q ==> (key in st.connecting && w in st.connecting[key].q) || (!verify && w == Waiting(now, y)))
            && (x in c.verifies ==> (key in st.connecting && x in st.connecting[key].verifies) || (verify && x == y))
  {
  }

  lemma {:induction false} KeptWaited(cfg: Config, now: int, q: seq<Waiting>)
    ensures forall w :: w in Keep(cfg, now, q) <==> w in q && now - w.stamp <= cfg.timeout
    ensures forall w :: w in Stale(cfg, now, q) <==> w in q && now - w.stamp > cfg.timeout
  {
    if q != [] {
      KeptWaited(cfg, now, q[1..]);
      assert q == [q[0]] + q[1..];
    }
  }

  lemma {:induction false} RunsAreRightful(cfg: Config, h: seq<Event>, key: string)
    ensures Rightful(cfg, h, key)
  {
    if h != [] {
      RunsAreRightful(cfg, h[..|h| - 1], key);
      StepIsRightful(cfg, h, key);
    }
  }

  // ---- what the lists of outputs hold

  lemma {:induction false} InFailAll(q: seq<Waiting>, o: Output)
    ensures o in FailAll(q) <==> o.Failed? && exists w :: w in q && w.x == o.x
  {
    if q != [] {
      InFailAll(q[1..], o);
      assert q == [q[0]] + q[1..];
    }
  }

  lemma {:induction false} InFlushAll(m: Sock, q: seq<Waiting>, o: Output)
    ensures o in FlushAll(m, q) <==> o.Sent? && o.m == m && exists w :: w in q && w.x == o.x
  {
    if q != [] {
      InFlushAll(m, q[1..], o);
      assert q == [q[0]] + q[1..];
    }
  }

  lemma {:induction false} InSendAll(m: Sock, xs: seq<Packet>, o: Output)
    ensures o in SendAll(m, xs) <==> o.Sent? && o.m == m && o.x in xs
  {
    if xs != [] {
      InSendAll(m, xs[1..], o);
      assert xs == [xs[0]] + xs[1..];
    }
  }

  lemma {:induction false} InBounceAll(xs: seq<Packet>, o: Output)
    ensures o in BounceAll(xs) <==> o.Bounced? && o.x in xs
  {
    if xs != [] {
      InBounceAll(xs[1..], o);
      assert xs == [xs[0]] + xs[1..];
    }
  }

  // ---- the reasons

  /** The connection to the last address of the pair is lost. */
  predicate GivesUp(st: State, e: Event) {
    e.Lost? && e.key in st.connecting && st.connecting[e.key].ip.None?
  }

  /** The packet of a Submit, ready to go. */
  predicate Carries(cfg: Config, e: Event, y: Packet) {
    e.Submit? && Readdressed(cfg, e.x) == Some(y)
  }

  function PairOf(y: Packet): string
    requires Address(y.to).Some? && Address(y.from).Some?
  {
    Jid.Print(KeyOf(y))
  }

  /** A stanza is failed only by the beat after its timeout, or when the last address is lost. */
  ghost predicate FailsFor(cfg: Config, h: seq<Event>, e: Event, y: Packet) {
    || (e.Beat? && exists t :: Queued(cfg, h, e.key, Waiting(t, y)) && e.now - t > cfg.timeout)
    || (GivesUp(After(cfg, h), e) && exists t :: Queued(cfg, h, e.key, Waiting(t, y)))
  }

  /** Something is dropped only when its addresses do not parse, or, a stanza, when no address
      of the host is known and the pair is not trusted. */
  predicate DropsFor(cfg: Config, h: seq<Event>, e: Event, y: Packet) {
    e.Submit? &&
    if Readdressed(cfg, e.x).None? then y == e.x
    else Carries(cfg, e, y) && !IsVerify(cfg, e.x) && e.ip.None? && PairOf(y) !in After(cfg, h).okDb
  }

  /** A verify request is bounced only when no address is known and the pair is not trusted,
      when the last address is lost, or when the pair is validated with the request still
      waiting. */
  predicate BouncesFor(cfg: Config, h: seq<Event>, e: Event, y: Packet) {
    || (Carries(cfg, e, y) && IsVerify(cfg, e.x) && e.ip.None? && PairOf(y) !in After(cfg, h).okDb)
    || (GivesUp(After(cfg, h), e) && Asked(cfg, h, e.key, y))
    || (e.Node? && Validates(After(cfg, h), e, e.key) && Asked(cfg, h, e.key, y))
  }

  /** A packet is written at once on the socket of its trusted pair, or, a verify request, on
      the one that is connecting; what waited is written on the socket whose stream header
      arrives, if it is a verify request, or whose valid result arrives, if it is a stanza. */
  ghost predicate SendsFor(cfg: Config, h: seq<Event>, e: Event, m: Sock, y: Packet) {
    var st := After(cfg, h);
    || (Carries(cfg, e, y) && PairOf(y) in st.okDb && m == st.okDb[PairOf(y)])
    || (Carries(cfg, e, y) && IsVerify(cfg, e.x) && PairOf(y) in st.connecting
        && st.connecting[PairOf(y)].m == Some(m))
    || (e.Root? && m == e.m && e.namespaceOk && !e.mirror && Asked(cfg, h, e.key, y))
    || (e.Node? && m == e.m && Validates(st, e, e.key) && exists t :: Queued(cfg, h, e.key, Waiting(t, y)))
  }

  ghost predicate Reason(cfg: Config, h: seq<Event>, e: Event, o: Output) {
    match o
    case Failed(y) => FailsFor(cfg, h, e, y)
    case Dropped(y) => DropsFor(cfg, h, e, y)
    case Bounced(y) => BouncesFor(cfg, h, e, y)
    case Sent(m, y) => SendsFor(cfg, h, e, m, y)
    case _ => true
  }

  lemma SubmitReasons(cfg: Config, h: seq<Event>, e: Event, o: Output)
    requires e.Submit? && o in Step(cfg, After(cfg, h), e).1
    ensures Reason(cfg, h, e, o)
  {
    if Readdressed(cfg, e.x).Some? {
      var st, y := After(cfg, h), Readdressed(cfg, e.x).value;
      DispatchReasons(st, IsVerify(cfg, e.x), PairOf(y), KeyOf(y), y, e.ip, e.now, o);
    }
  }

  lemma DispatchReasons(st: State, verify: bool, key: string, hosts: Jid.Parts, y: Packet, ip: Option<string>,
                        now: int, o: Output)
    requires o in Dispatch(st, verify, key, hosts, y, ip, now).1
    ensures o.Connect? || (o.Sent? && o.x == y) || (o.Bounced? && o.x == y) || (o.Dropped? && o.x == y)
    ensures o.Sent? ==> (key in st.okDb && o.m == st.okDb[key])
                        || (verify && key in st.connecting && st.connecting[key].m == Some(o.m))
    ensures o.Bounced? ==> verify && ip.None? && key !in st.okDb
    ensures o.Dropped? ==> !verify && ip.None? && key !in st.okDb
  {
  }

  lemma NodeReasons(cfg: Config, h: seq<Event>, e: Event, o: Output)
    requires e.Node? && o in Step(cfg, After(cfg, h), e).1 && Rightful(cfg, h, e.key)
    ensures Reason(cfg, h, e, o)
  {
    var st := After(cfg, h);
    if e.key in st.connecting && Validates(st, e, e.key) {
      var c := st.connecting[e.key];
      InFlushAll(e.m, c.q, o);
      InBounceAll(c.verifies, o);
      assert FailAll([]) + BounceAll(c.verifies) == BounceAll(c.verifies);
      if o in FlushAll(e.m, c.q) {
        var w :| w in c.q && w.x == o.x;
        assert Queued(cfg, h, e.key, Waiting(w.stamp, o.x));
      }
    }
  }

  lemma LostReasons(cfg: Config, h: seq<Event>, e: Event, o: Output)
    requires e.Lost? && o in Step(cfg, After(cfg, h), e).1 && Rightful(cfg, h, e.key)
    ensures Reason(cfg, h, e, o)
  {
    var st := After(cfg, h);
    if GivesUp(st, e) {
      var c := st.connecting[e.key];
      InFailAll(c.q, o);
      InBounceAll(c.verifies, o);
      if o in FailAll(c.q) {
        var w :| w in c.q && w.x == o.x;
        assert Queued(cfg, h, e.key, Waiting(w.stamp, o.x));
      }
    }
  }

  lemma BeatReasons(cfg: Config, h: seq<Event>, e: Event, o: Output)
    requires e.Beat? && o in Step(cfg, After(cfg, h), e).1 && Rightful(cfg, h, e.key)
    ensures Reason(cfg, h, e, o)
  {
    var st := After(cfg, h);
    if e.key in st.connecting {
      var q := st.connecting[e.key].q;
      InFailAll(Stale(cfg, e.now, q), o);
      KeptWaited(cfg, e.now, q);
      var w :| w in Stale(cfg, e.now, q) && w.x == o.x;
      assert Queued(cfg, h, e.key, Waiting(w.stamp, o.x));
    }
  }

  lemma RootReasons(cfg: Config, h: seq<Event>, e: Event, o: Output)
    requires e.Root? && o in Step(cfg, After(cfg, h), e).1 && Rightful(cfg, h, e.key)
    ensures Reason(cfg, h, e, o)
  {
    var st := After(cfg, h);
    if e.key in st.connecting && e.namespaceOk && !e.mirror {
      InSendAll(e.m, st.connecting[e.key].verifies, o);
    }
  }

  /** Main result: over every history, whatever is written, failed, dropped or bounced has its
      reason. */
  lemma ExitsHaveReasons(cfg: Config, h: seq<Event>, e: Event, o: Output)
    requires o in Step(cfg, After(cfg, h), e).1
    ensures Reason(cfg, h, e, o)
  {
    if !e.Submit? {
      RunsAreRightful(cfg, h, e.key);
    }
    match e {
      case Submit(_, _, _) => SubmitReasons(cfg, h, e, o);
      case Root(_, _, _, _, _) => RootReasons(cfg, h, e, o);
      case Node(_, _, _) => NodeReasons(cfg, h, e, o);
      case Lost(_) => LostReasons(cfg, h, e, o);
      case Beat(_, _) => BeatReasons(cfg, h, e, o);
      case OkNode(_, _, _) =>
      case OkLost(_) =>
    }
  }

  /** After the beat, whatever still waits for the pair is within its timeout. */
  lemma BeatLeavesNoStale(cfg: Config, st: State, key: string, now: int, w: Waiting)
    requires key in st.connecting && w in Step(cfg, st, Beat(key, now)).0.connecting[key].q
    ensures w in st.connecting[key].q && now - w.stamp <= cfg.timeout
  {
    KeptWaited(cfg, now, st.connecting[key].q);
  }

  // ------------------------------------------------------- addresses, in order

  /** The comma-separated parts of an address list. */
  function Split(ip: string): (parts: seq<string>)
    ensures parts != []
  {
    if ip == "" then [""]
    else
      var rest := Split(ip[1..]);
      if ip[0] == ',' then [""] + rest else [[ip[0]] + rest[0]] + rest[1..]
  }

  function SplitRest(ip: Option<string>): seq<string> { if ip.None? then [] else Split(ip.value) }

  function RestOn(st: State, key: string): seq<string> {
    if key in st.connecting then SplitRest(st.connecting[key].ip) else []
  }

  /** The addresses that outputs connect to. */
  function Tried(out: seq<Output>): seq<string> {
    if out == [] then [] else (if out[0].Connect? then [out[0].ip] else []) + Tried(out[1..])
  }

  function TriedAbout(cfg: Config, st: State, e: Event, key: string): seq<string> {
    if About(cfg, e, key) then Tried(Step(cfg, st, e).1) else []
  }

  function TriedOn(cfg: Config, st: State, h: seq<Event>, key: string): seq<string>
    decreases |h|
  {
    if h == [] then [] else TriedAbout(cfg, st, h[0], key) + TriedOn(cfg, Step(cfg, st, h[0]).0, h[1..], key)
  }

  lemma {:induction false} ChopSplits(ip: string)
    ensures Split(ip) == [Chop(ip).0] + SplitRest(Chop(ip).1)
  {
    if ip != "" {
      ChopSplits(ip[1..]);
      var comma := Jid.IndexOf(ip, ',');
      if ip[0] != ',' {
        assert Jid.IndexOf(ip[1..], ',') == comma - 1 && ip == [ip[0]] + ip[1..];
        assert ip[..comma] == [ip[0]] + ip[1..][..comma - 1];
        if comma < |ip| { assert ip[comma + 1..] == ip[1..][comma..]; }
      }
    }
  }

  lemma {:induction false} TriedConcat(a: seq<Output>, b: seq<Output>)
    ensures Tried(a + b) == Tried(a) + Tried(b)
  {
    if a == [] {
      assert a + b == b;
    } else {
      assert (a + b)[0] == a[0] && (a + b)[1..] == a[1..] + b;
      TriedConcat(a[1..], b);
    }
  }

  /** Only an attempt counts as one. */
  lemma {:induction false} NothingTried(out: seq<Output>)
    requires Attempts(out) == 0
    ensures Tried(out) == []
  {
    if out != [] { NothingTried(out[1..]); }
  }

  lemma EntryTries(st: State, key: string, hosts: Jid.Parts, ip: string)
    ensures var (c, out) := EntryFor(st, key, hosts, ip);
            Tried(out) + SplitRest(c.ip) == if key in st.connecting then RestOn(st, key) else Split(ip)
  {
    ChopSplits(ip);
    var out := EntryFor(st, key, hosts, ip).1;
    assert out == [] || out == [Connect(Chop(ip).0)];
    assert [Connect(Chop(ip).0)][1..] == [];
  }

  lemma DispatchTries(st: State, verify: bool, key: string, hosts: Jid.Parts, y: Packet, ip: string, now: int)
    requires key !in st.okDb
    ensures var (st', out) := Dispatch(st, verify, key, hosts, y, Some(ip), now);
            && key in st'.connecting && st'.connecting[key].ip == EntryFor(st, key, hosts, ip).0.ip
            && Tried(out) == Tried(EntryFor(st, key, hosts, ip).1)
  {
    var (c, out) := EntryFor(st, key, hosts, ip);
    if c.m.Some? {
      TriedConcat(out, [Sent(c.m.value, y)]);
      assert Tried([Sent(c.m.value, y)]) == [];
    }
  }

  lemma SubmitTries(cfg: Config, st: State, e: Event, key: string)
    requires SubmitsOn(cfg, e, key) && key !in st.okDb
    ensures var st' := Step(cfg, st, e).0;
            && (key in st'.connecting <==> key in st.connecting || e.ip.Some?)
            && TriedAbout(cfg, st, e, key) + RestOn(st', key)
               == if key in st.connecting then RestOn(st, key) else SplitRest(e.ip)
  {
    var y := Readdressed(cfg, e.x).value;
    if e.ip.Some? {
      DispatchTries(st, IsVerify(cfg, e.x), key, KeyOf(y), y, e.ip.value, e.now);
      EntryTries(st, key, KeyOf(y), e.ip.value);
    } else {
      var out := Step(cfg, st, e).1;
      assert Attempts(out) == 0;
      NothingTried(out);
    }
  }

  lemma LostTries(cfg: Config, st: State, key: string)
    requires key in st.connecting
    ensures var (st', out) := OnLost(st, key);
            Tried(out) + RestOn(st', key) == RestOn(st, key)
  {
    LostUsesOne(st, key);
    var ip := st.connecting[key].ip;
    if ip.Some? {
      ChopSplits(ip.value);
      assert OnLost(st, key).1[1..] == [];
    } else {
      NothingTried(OnLost(st, key).1);
    }
  }

  /** An entry tries its next address, or leaves the list alone. */
  lemma StepTries(cfg: Config, st: State, e: Event, key: string)
    requires Tidy(st) && key in st.connecting
    ensures var st' := Step(cfg, st, e).0;
            if key in st'.connecting then TriedAbout(cfg, st, e, key) + RestOn(st', key) == RestOn(st, key)
            else TriedAbout(cfg, st, e, key) == []
  {
    if !About(cfg, e, key) {
      ElsewhereNothing(cfg, st, e, key);
    } else if e.Submit? {
      SubmitTries(cfg, st, e, key);
    } else if e.Lost? {
      LostTries(cfg, st, key);
    } else {
      OthersTryNothing(cfg, st, e, key);
    }
  }

  lemma OthersTryNothing(cfg: Config, st: State, e: Event, key: string)
    requires key in st.connecting && !e.Submit? && !e.Lost? && e.key == key
    ensures Tried(Step(cfg, st, e).1) == []
    ensures key in Step(cfg, st, e).0.connecting ==> Step(cfg, st, e).0.connecting[key].ip == st.connecting[key].ip
  {
    match e {
      case Root(_, m, namespaceOk, mirror, id) => RootMakesNoAttempt(cfg, st, key, m, namespaceOk, mirror, id);
      case Node(_, m, x) => NodeMakesNoAttempt(st, key, m, x);
      case Beat(_, now) => QueuesMakeNoAttempts(0, Stale(cfg, now, st.connecting[key].q));
      case OkNode(_, m, x) => OkNodeMakesNoAttempt(st, m, x);
      case OkLost(_) =>
    }
    NothingTried(Step(cfg, st, e).1);
  }

  lemma {:induction false} StretchTries(cfg: Config, st: State, h: seq<Event>, key: string)
    requires Tidy(st) && Connecting(cfg, st, h, key)
    ensures TriedOn(cfg, st, h, key) <= RestOn(st, key)
    ensures var st' := RunFrom(cfg, st, h);
            key in st'.connecting ==> TriedOn(cfg, st, h, key) + RestOn(st', key) == RestOn(st, key)
    decreases |h|
  {
    if h != [] {
      var st1 := Step(cfg, st, h[0]).0;
      StepTidy(cfg, st, h[0]);
      StepTries(cfg, st, h[0], key);
      if key in st1.connecting {
        StretchTries(cfg, st1, h[1..], key);
        Associated(TriedAbout(cfg, st, h[0], key), TriedOn(cfg, st1, h[1..], key), RestOn(RunFrom(cfg, st, h), key));
      } else {
        assert h[1..] == [];
      }
    }
  }

  lemma Associated(a: seq<string>, b: seq<string>, c: seq<string>)
    ensures (a + b) + c == a + (b + c)
  {
  }

  /** Main result: in the whole life of a connecting entry, the addresses tried are the parts of
      the address list that its first packet brought, each once and in order; while the entry
      is there, those not tried yet are the rest of them. */
  lemma AddressesAreTriedInOrder(cfg: Config, st: State, first: Event, h: seq<Event>, key: string)
    requires Tidy(st) && SubmitsOn(cfg, first, key) && key !in st.connecting && key !in st.okDb && first.ip.Some?
    requires Connecting(cfg, Step(cfg, st, first).0, h, key)
    ensures TriedOn(cfg, st, [first] + h, key) <= Split(first.ip.value)
    ensures var st' := RunFrom(cfg, st, [first] + h);
            key in st'.connecting ==>
              TriedOn(cfg, st, [first] + h, key) + RestOn(st', key) == Split(first.ip.value)
  {
    var st1 := Step(cfg, st, first).0;
    StepTidy(cfg, st, first);
    SubmitTries(cfg, st, first, key);
    StretchTries(cfg, st1, h, key);
    assert ([first] + h)[0] == first && ([first] + h)[1..] == h;
    Associated(TriedAbout(cfg, st, first, key), TriedOn(cfg, st1, h, key), RestOn(RunFrom(cfg, st1, h), key));
  }
}
