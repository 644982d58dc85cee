/** The two halves of dialback put together: an originating server A for host a, whose own
    receiving half is also the authority for a, and a receiving server B for host b. */
module DialbackRun {
  import opened Options
  import opened DialbackPacket
  import In = DialbackIn
  import Out = DialbackOut
  import Jid

  /** A host name is an address of its own. */
  lemma HostAddress(host: string)
    requires Jid.ServerOk(host)
    ensures Address(Some(host)) == Some(Jid.Parts(None, host, None))
  {
    Jid.ParsePrinted(Jid.Parts(None, host, None));
    assert Jid.Print(Jid.Parts(None, host, None)) == host;
  }

  /** The db:result of A for the pair a, b, with the text it presents. */
  function Presented(a: string, b: string, text: string): Packet {
    Packet("db:result", Some(b), Some(a), None, None, None, Some(text))
  }

  /** The verify request as the authority gets to see it. */
  function Asked(a: string, b: string, id: string, text: string): Packet {
    Packet("db:verify", Some(a), Some(b), Some(id), None, None, Some(text))
  }

  /** The authority's answer. */
  function Answer(a: string, b: string, id: string, kind: string): Packet {
    Packet("db:verify", Some(b), Some(a), Some(id), Some(kind), None, None)
  }

  function KindFor(cfg: In.Config, b: string, id: string, text: string): string {
    if text == cfg.merlin(cfg.secret, b, id) then "valid" else "invalid"
  }

  // ---- what each station makes of the packet it gets

  /** A, on the stream header of B: the presented text is merlin's for b and the stream id. */
  lemma OriginatorPresents(cfg: Out.Config, key: Jid.Parts, a: string, b: string, id: string)
    requires key == Jid.Parts(None, b, Some(a))
    ensures Out.RequestFor(cfg, key, id) == Presented(a, b, cfg.merlin(cfg.secret, b, id))
  {
  }

  /** B's receiving half stores the pair and asks; B's sending half restores the real
      sender, so that the authority sees the request of host b. */
  lemma ReceiverAsks(cfg: In.Config, out: Out.Config, st: In.State, m: Sock, a: string, b: string, id: string,
                     text: string)
    requires Jid.ServerOk(a) && Jid.ServerOk(b) && Jid.ServerOk(cfg.self) && out.self == cfg.self
    requires m in st.conns && st.conns[m].id == id
    ensures var key := In.PairKey(id, b, a);
            var x := Presented(a, b, text);
            var (st', o) := In.OnRead(cfg, st, m, x);
            && st' == st.(conns := st.conns[m := In.Conn(id, st.conns[m].results + [key])])
            && o == [In.Forward(In.VerifyFor(cfg, id, x))]
            && Out.IsVerify(out, In.VerifyFor(cfg, id, x))
            && Out.Readdressed(out, In.VerifyFor(cfg, id, x)) == Some(Asked(a, b, id, text))
  {
    HostAddress(a);
    HostAddress(b);
    SenderRestored(cfg, out, a, b, id, text);
  }

  lemma SenderRestored(cfg: In.Config, out: Out.Config, a: string, b: string, id: string, text: string)
    requires Jid.ServerOk(a) && Jid.ServerOk(b) && Jid.ServerOk(cfg.self) && out.self == cfg.self
    ensures var y := In.VerifyFor(cfg, id, Presented(a, b, text));
            Out.IsVerify(out, y) && Out.Readdressed(out, y) == Some(Asked(a, b, id, text))
  {
    HostAddress(a);
    HostAddress(b);
    HostAddress(cfg.self);
  }

  /** The authority answers "valid" exactly for its own merlin text, and swaps the names. */
  lemma AuthorityAnswers(cfg: In.Config, a: string, b: string, id: string, text: string)
    ensures In.Judged(cfg, Asked(a, b, id, text)) == Answer(a, b, id, KindFor(cfg, b, id, text))
  {
  }

  /** B registers the pair exactly when the answer is "valid", uses up the stored result
      either way, and reports the answer to the originator. */
  lemma ReceiverDecides(st: In.State, m: Sock, a: string, b: string, id: string, kind: string)
    requires Jid.ServerOk(a) && Jid.ServerOk(b)
    requires id in st.inId && st.inId[id] == m && m in st.conns && st.conns[m].id == id
    requires In.PairKey(id, b, a) in st.conns[m].results
    ensures var key := In.PairKey(id, b, a);
            var (st', o) := In.OnVerdict(st, Answer(a, b, id, kind));
            && o == [In.Write(m, Packet("db:result", Some(a), Some(b), None, Some(kind), None, None))]
            && m in st'.conns && st'.conns[m].results == In.RemoveFirst(st.conns[m].results, key)
            && st'.conns[m].id == id
            && (kind == "valid" ==> st'.okDb == st.okDb[key := m])
            && (kind != "valid" ==> st'.okDb == st.okDb)
  {
    var x := Answer(a, b, id, kind);
    AnswerKey(a, b, id, kind);
    VerdictConsumes(st, m, x, In.PairKey(id, b, a));
    assert In.ResultFor(x) == Packet("db:result", Some(a), Some(b), None, Some(kind), None, None);
  }

  lemma AnswerKey(a: string, b: string, id: string, kind: string)
    requires Jid.ServerOk(b)
    ensures In.VerdictKey(id, Answer(a, b, id, kind)) == Some(In.PairKey(id, b, a))
  {
    HostAddress(b);
  }

  lemma VerdictConsumes(st: In.State, m: Sock, x: Packet, key: string)
    requires x.id.Some? && x.id.value in st.inId && st.inId[x.id.value] == m && m in st.conns
    requires In.VerdictKey(st.conns[m].id, x) == Some(key) && key in st.conns[m].results
    ensures var (st', o) := In.OnVerdict(st, x);
            && o == [In.Write(m, In.ResultFor(x))]
            && m in st'.conns && st'.conns[m] == In.Conn(st.conns[m].id, In.RemoveFirst(st.conns[m].results, key))
            && st'.okDb == if x.kind == Some("valid") then st.okDb[key := m] else st.okDb
  {
    assert In.Matched(st, x) == Some(m);
  }

  /** A accepts a valid result for its pair: every waiting packet goes out on the socket,
      the newest first, and the pair is trusted. Any other result hangs up. */
  lemma OriginatorDecides(st: Out.State, key: string, m: Sock, a: string, b: string, kind: string)
    requires key in st.connecting && st.connecting[key].key == Jid.Parts(None, b, Some(a))
    ensures var c := st.connecting[key];
            var (st', o) := Out.OnNode(st, key, m, Packet("db:result", Some(a), Some(b), None, Some(kind), None, None));
            && (kind == "valid" ==> key in st'.okDb && st'.okDb[key] == m && key !in st'.connecting
                                    && o == Out.FlushAll(m, c.q) + Out.BounceAll(c.verifies))
            && (kind != "valid" ==> st' == st && o == [Out.Hang(m)])
  {
    var c := st.connecting[key];
    assert Out.FailAll([]) + Out.BounceAll(c.verifies) == Out.BounceAll(c.verifies);
  }

  // ---- the whole exchange

  /** The stations: A's sending half with its entry `key` on socket mA; B's receiving half with
      that connection as mB; B's sending half, connected to the authority over mD; and the
      authority's receiving half, where that connection is mC. */
  datatype Net = Net(origin: Out.State, key: string, mA: Sock,
                     receiver: In.Config, st: In.State, mB: Sock,
                     asking: Out.Config, out: Out.State, mD: Sock,
                     authority: In.Config, judge: In.State, mC: Sock)

  datatype Outcome = Outcome(origin: Out.State, sent: seq<Out.Output>, receiver: In.State)

  /** The key of B's own connection to the authority for a. */
  function AskKey(a: string, b: string): string { Jid.Print(Jid.Parts(None, a, Some(b))) }

  /** A db:result on its way through all stations: every station gets what the one before it
      has put out. None if a station puts out something else than the packet expected of it. */
  function Exchange(n: Net, result: Packet, askKey: string, ip: string, now: int): Option<Outcome>
    requires n.key in n.origin.connecting && n.mB in n.st.conns && n.mC in n.judge.conns
  {
    var (st1, asked) := In.OnRead(n.receiver, n.st, n.mB, result);
    if |asked| != 1 || !asked[0].Forward? then None
    else
      var (out1, written) := Out.OnSubmit(n.asking, n.out, asked[0].x, Some(ip), now);
      if |written| != 1 || !written[0].Sent? || written[0].m != n.mD || askKey !in out1.connecting then None
      else
        var judged := In.OnRead(n.authority, n.judge, n.mC, written[0].x).1;
        if |judged| != 1 || !judged[0].Write? || judged[0].m != n.mC then None
        else
          var verdict := Out.OnNode(out1, askKey, n.mD, judged[0].x).1;
          if |verdict| != 1 || !verdict[0].Verdict? then None
          else
            var (st2, reported) := In.OnVerdict(st1, verdict[0].x);
            if |reported| != 1 || !reported[0].Write? || reported[0].m != n.mB then None
            else
              var (origin', sent) := Out.OnNode(n.origin, n.key, n.mA, reported[0].x);
              Some(Outcome(origin', sent, st2))
  }

  /** A waits for b's answer, B has accepted A's stream under `id`, and B is connected to the
      authority for a. Nothing is registered for the pair yet. */
  predicate Ready(n: Net, a: string, b: string, id: string) {
    && Jid.ServerOk(a) && Jid.ServerOk(b) && StreamId(id)
    && Jid.ServerOk(n.receiver.self) && n.asking.self == n.receiver.self
    && n.key in n.origin.connecting && n.origin.connecting[n.key].key == Jid.Parts(None, b, Some(a))
    && n.key !in n.origin.okDb
    && n.mB in n.st.conns && n.st.conns[n.mB].id == id && id in n.st.inId && n.st.inId[id] == n.mB
    && In.PairKey(id, b, a) !in n.st.okDb
    && AskKey(a, b) in n.out.connecting && n.out.connecting[AskKey(a, b)].m == Some(n.mD)
    && AskKey(a, b) !in n.out.okDb && n.mC in n.judge.conns
  }

  /** B's sending half writes the forwarded request, with the sender restored, to the authority. */
  lemma RequestGoesOut(asking: Out.Config, out: Out.State, mD: Sock, a: string, b: string, f: Packet, y: Packet,
                       ip: string, now: int)
    requires Jid.ServerOk(a) && Jid.ServerOk(b) && y.to == Some(a) && y.from == Some(b)
    requires Out.IsVerify(asking, f) && Out.Readdressed(asking, f) == Some(y)
    requires AskKey(a, b) in out.connecting && out.connecting[AskKey(a, b)].m == Some(mD) && AskKey(a, b) !in out.okDb
    ensures Out.OnSubmit(asking, out, f, Some(ip), now) == (out, [Out.Sent(mD, y)])
  {
    HostAddress(a);
    HostAddress(b);
    assert Out.KeyOf(y) == Jid.Parts(None, a, Some(b));
    ConnectedSends(out, AskKey(a, b), Out.KeyOf(y), y, mD, ip, now);
  }

  lemma ConnectedSends(st: Out.State, key: string, hosts: Jid.Parts, y: Packet, m: Sock, ip: string, now: int)
    requires key in st.connecting && st.connecting[key].m == Some(m) && key !in st.okDb
    ensures Out.Dispatch(st, true, key, hosts, y, Some(ip), now) == (st, [Out.Sent(m, y)])
  {
    assert st.connecting[key := st.connecting[key]] == st.connecting;
    assert [] + [Out.Sent(m, y)] == [Out.Sent(m, y)];
  }

  /** The first half of the exchange: what B stores, and what the authority gets and answers. */
  lemma ExchangeAsks(n: Net, a: string, b: string, id: string, text: string, ip: string, now: int) returns (f: Packet)
    requires Ready(n, a, b, id)
    ensures var (st1, o) := In.OnRead(n.receiver, n.st, n.mB, Presented(a, b, text));
            && o == [In.Forward(f)] && st1.inId == n.st.inId && st1.okDb == n.st.okDb
            && n.mB in st1.conns && st1.conns[n.mB].id == id && In.PairKey(id, b, a) in st1.conns[n.mB].results
    ensures Out.OnSubmit(n.asking, n.out, f, Some(ip), now) == (n.out, [Out.Sent(n.mD, Asked(a, b, id, text))])
    ensures In.OnRead(n.authority, n.judge, n.mC, Asked(a, b, id, text)).1
         == [In.Write(n.mC, Answer(a, b, id, KindFor(n.authority, b, id, text)))]
  {
    ReceiverAsks(n.receiver, n.asking, n.st, n.mB, a, b, id, text);
    Appended(n.st.conns[n.mB].results, In.PairKey(id, b, a));
    AuthorityAnswers(n.authority, a, b, id, text);
    f := In.VerifyFor(n.receiver, id, Presented(a, b, text));
    RequestGoesOut(n.asking, n.out, n.mD, a, b, f, Asked(a, b, id, text), ip, now);
  }

  /** Completeness and its limit, whatever text is presented for the pair: no station drops
      out; with the authority's own text both servers end up trusting the pair and A's queue
      leaves on the socket; with any other text neither does and A hangs up. */
  lemma ExchangeDecides(n: Net, a: string, b: string, id: string, text: string, ip: string, now: int)
    requires Ready(n, a, b, id)
    ensures var r := Exchange(n, Presented(a, b, text), AskKey(a, b), ip, now);
            var good := text == n.authority.merlin(n.authority.secret, b, id);
            && r.Some?
            && (In.PairKey(id, b, a) in r.value.receiver.okDb <==> good)
            && (good ==> r.value.receiver.okDb[In.PairKey(id, b, a)] == n.mB)
            && (n.key in r.value.origin.okDb <==> good)
            && r.value.sent == if good then Farewell(n) else [Out.Hang(n.mA)]
  {
    var f := ExchangeAsks(n, a, b, id, text, ip, now);
    var kind := KindFor(n.authority, b, id, text);
    var st1 := In.OnRead(n.receiver, n.st, n.mB, Presented(a, b, text)).0;
    ReceiverDecides(st1, n.mB, a, b, id, kind);
    OriginatorDecides(n.origin, n.key, n.mA, a, b, kind);
  }

  /** What A writes once the pair is trusted. */
  function Farewell(n: Net): seq<Out.Output>
    requires n.key in n.origin.connecting
  {
    Out.FlushAll(n.mA, n.origin.connecting[n.key].q) + Out.BounceAll(n.origin.connecting[n.key].verifies)
  }

  /** Main result: from the stream header of B on, with nothing lost and a key that A and its
      authority share, the db:result that A itself writes makes both servers trust the pair,
      and everything that waited is on the socket. */
  lemma HonestExchangeCompletes(cfg: Out.Config, n: Net, a: string, b: string, id: string, ip: string, now: int)
    requires Ready(n, a, b, id) && cfg.merlin(cfg.secret, b, id) == n.authority.merlin(n.authority.secret, b, id)
    ensures var (origin, o) := Out.OnRoot(cfg, n.origin, n.key, n.mA, true, false, id);
            && o != [] && o[0].Request? && o[0].m == n.mA && n.key in origin.connecting
            && var r := Exchange(n.(origin := origin), o[0].x, AskKey(a, b), ip, now);
               && r.Some? && In.PairKey(id, b, a) in r.value.receiver.okDb && n.key in r.value.origin.okDb
               && r.value.sent == Out.FlushAll(n.mA, n.origin.connecting[n.key].q)
  {
    var (origin, o) := Out.OnRoot(cfg, n.origin, n.key, n.mA, true, false, id);
    var text := cfg.merlin(cfg.secret, b, id);
    OriginatorPresents(cfg, Jid.Parts(None, b, Some(a)), a, b, id);
    assert o[0] == Out.Request(n.mA, Presented(a, b, text));
    var n' := n.(origin := origin);
    ExchangeDecides(n', a, b, id, text, ip, now);
    var q := n.origin.connecting[n.key].q;
    assert Farewell(n') == Out.FlushAll(n.mA, q) + [] == Out.FlushAll(n.mA, q);
  }

  /** Once the pair is registered, a stanza between users of the two hosts is passed on. */
  lemma RegisteredPasses(cfg: In.Config, st: In.State, m: Sock, a: string, b: string, id: string, x: Packet)
    requires StreamId(id) && m in st.conns && st.conns[m].id == id
    requires In.PairKey(id, b, a) in st.okDb && st.okDb[In.PairKey(id, b, a)] == m
    requires x.name != "db:verify" && x.name != "db:result" && OnHost(x.to, b) && OnHost(x.from, a)
    ensures In.OnRead(cfg, st, m, x) == (st, [In.Pass(m, x)])
  {
    In.AddressValid(x.to);
    In.PairKeyOf(id, Address(x.to).value, a);
  }

  /** What happens to a stanza on a fresh stream: accepted, announced, judged, and then sent. */
  function Story(m: Sock, a: string, b: string, id: string, text: string, kind: string, x: Packet): seq<In.Event> {
    [In.Accept(m, id), In.Read(m, Presented(a, b, text)), In.Verdict(Answer(a, b, id, kind)), In.Read(m, x)]
  }

  /** It is passed on exactly when the verdict was "valid": the soundness result is about
      histories in which stanzas do get through. */
  lemma StanzaPasses(cfg: In.Config, out: Out.Config, m: Sock, a: string, b: string, id: string, text: string,
                     kind: string, x: Packet)
    requires Jid.ServerOk(a) && Jid.ServerOk(b) && Jid.ServerOk(cfg.self) && out.self == cfg.self && StreamId(id)
    requires x.name != "db:verify" && x.name != "db:result" && OnHost(x.to, b) && OnHost(x.from, a)
    ensures In.Lawful(Story(m, a, b, id, text, kind, x))
    ensures In.Pass(m, x) in In.OutputOf(cfg, Story(m, a, b, id, text, kind, x), 3) <==> kind == "valid"
  {
    StoryIsLawful(m, a, b, id, text, kind, x);
    var h := Story(m, a, b, id, text, kind, x);
    var s1, s2 := StoryBegins(cfg, out, h[0], h[1], m, a, b, id, text);
    var s3 := StoryGoesOn(cfg, s2, h[2], h[3], m, a, b, id, kind, x);
    FourSteps(cfg, h, s1, s2, s3);
  }

  lemma StoryIsLawful(m: Sock, a: string, b: string, id: string, text: string, kind: string, x: Packet)
    requires StreamId(id)
    ensures In.Lawful(Story(m, a, b, id, text, kind, x))
  {
  }

  lemma StoryBegins(cfg: In.Config, out: Out.Config, e0: In.Event, e1: In.Event, m: Sock, a: string, b: string,
                    id: string, text: string)
    returns (s1: In.State, s2: In.State)
    requires Jid.ServerOk(a) && Jid.ServerOk(b) && Jid.ServerOk(cfg.self) && out.self == cfg.self
    requires e0 == In.Accept(m, id) && e1 == In.Read(m, Presented(a, b, text))
    ensures s1 == In.Step(cfg, In.EMPTY, e0).0 && s2 == In.Step(cfg, s1, e1).0
    ensures Announced(s2, m, id, In.PairKey(id, b, a))
  {
    s1 := In.Step(cfg, In.EMPTY, e0).0;
    StoryAnnounces(cfg, out, s1, m, a, b, id, text);
    s2 := In.Step(cfg, s1, e1).0;
  }

  lemma StoryGoesOn(cfg: In.Config, s2: In.State, e2: In.Event, e3: In.Event, m: Sock, a: string, b: string,
                    id: string, kind: string, x: Packet)
    returns (s3: In.State)
    requires Jid.ServerOk(a) && Jid.ServerOk(b) && StreamId(id) && Announced(s2, m, id, In.PairKey(id, b, a))
    requires x.name != "db:verify" && x.name != "db:result" && OnHost(x.to, b) && OnHost(x.from, a)
    requires e2 == In.Verdict(Answer(a, b, id, kind)) && e3 == In.Read(m, x)
    ensures s3 == In.Step(cfg, s2, e2).0
    ensures In.Pass(m, x) in In.Step(cfg, s3, e3).1 <==> kind == "valid"
  {
    StoryDecides(s2, m, a, b, id, kind);
    s3 := In.Step(cfg, s2, e2).0;
    StoryEnds(cfg, s3, m, a, b, id, kind == "valid", x);
  }

  /** The states after the first three events. */
  predicate Follows(cfg: In.Config, h: seq<In.Event>, s1: In.State, s2: In.State, s3: In.State)
    requires |h| == 4
  {
    s1 == In.Step(cfg, In.EMPTY, h[0]).0 && s2 == In.Step(cfg, s1, h[1]).0 && s3 == In.Step(cfg, s2, h[2]).0
  }

  /** The stream is known, announces this result, and nothing is verified yet. */
  predicate Announced(st: In.State, m: Sock, id: string, key: string) {
    && m in st.conns && st.conns[m].id == id && key in st.conns[m].results
    && id in st.inId && st.inId[id] == m && st.okDb == map[]
  }

  lemma FourSteps(cfg: In.Config, h: seq<In.Event>, s1: In.State, s2: In.State, s3: In.State)
    requires |h| == 4 && Follows(cfg, h, s1, s2, s3)
    ensures In.OutputOf(cfg, h, 3) == In.Step(cfg, s3, h[3]).1
  {
    assert h[..3][..2] == h[..2] && h[..2][..1] == h[..1] && h[..1][..0] == [];
    assert In.After(cfg, h[..1]) == In.Step(cfg, In.EMPTY, h[0]).0;
    assert In.After(cfg, h[..2]) == In.Step(cfg, In.After(cfg, h[..1]), h[1]).0;
  }

  lemma StoryAnnounces(cfg: In.Config, out: Out.Config, s1: In.State, m: Sock, a: string, b: string, id: string,
                       text: string)
    requires Jid.ServerOk(a) && Jid.ServerOk(b) && Jid.ServerOk(cfg.self) && out.self == cfg.self
    requires m in s1.conns && s1.conns[m].id == id && id in s1.inId && s1.inId[id] == m && s1.okDb == map[]
    ensures Announced(In.OnRead(cfg, s1, m, Presented(a, b, text)).0, m, id, In.PairKey(id, b, a))
  {
    var key := In.PairKey(id, b, a);
    ReceiverAsks(cfg, out, s1, m, a, b, id, text);
    Appended(s1.conns[m].results, key);
  }

  lemma Appended(s: seq<string>, k: string)
    ensures k in s + [k]
  {
    assert (s + [k])[|s|] == k;
  }

  lemma StoryDecides(s2: In.State, m: Sock, a: string, b: string, id: string, kind: string)
    requires Jid.ServerOk(a) && Jid.ServerOk(b) && Announced(s2, m, id, In.PairKey(id, b, a))
    ensures var s3 := In.OnVerdict(s2, Answer(a, b, id, kind)).0;
            && m in s3.conns && s3.conns[m].id == id
            && s3.okDb == if kind == "valid" then map[In.PairKey(id, b, a) := m] else map[]
  {
    ReceiverDecides(s2, m, a, b, id, kind);
  }

  lemma StoryEnds(cfg: In.Config, st: In.State, m: Sock, a: string, b: string, id: string, good: bool, x: Packet)
    requires StreamId(id) && m in st.conns && st.conns[m].id == id
    requires st.okDb == if good then map[In.PairKey(id, b, a) := m] else map[]
    requires x.name != "db:verify" && x.name != "db:result" && OnHost(x.to, b) && OnHost(x.from, a)
    ensures In.Pass(m, x) in In.OnRead(cfg, st, m, x).1 <==> good
  {
    if good {
      RegisteredPasses(cfg, st, m, a, b, id, x);
    }
  }

  /** A verify request of B is written at once when there is a connection to write it to,
      and otherwise as soon as the stream header of the authority arrives. */
  lemma RequestIsWritten(cfg: Out.Config, st: Out.State, x: Packet, y: Packet, ip: string, now: int, m: Sock,
                         id: string)
    requires Out.IsVerify(cfg, x) && Out.Readdressed(cfg, x) == Some(y) && Out.Tidy(st)
    ensures var key := Jid.Print(Out.KeyOf(y));
            var (st1, o1) := Out.OnSubmit(cfg, st, x, Some(ip), now);
            (exists s :: Out.Sent(s, y) in o1)
            || (key in st1.connecting && Out.Sent(m, y) in Out.OnRoot(cfg, st1, key, m, true, false, id).1)
  {
    var key := Jid.Print(Out.KeyOf(y));
    var (st1, o1) := Out.OnSubmit(cfg, st, x, Some(ip), now);
    if key in st.okDb {
      assert Out.Sent(st.okDb[key], y) in o1;
    } else {
      var (c, o) := Out.EntryFor(st, key, Out.KeyOf(y), ip);
      if c.m.Some? {
        assert o1[|o1| - 1] == Out.Sent(c.m.value, y);
      } else {
        var c1 := st1.connecting[key];
        assert c1.verifies[|c1.verifies| - 1] == y;
        SendAllSends(m, c1.verifies, |c1.verifies| - 1);
      }
    }
  }

  lemma {:induction false} SendAllSends(m: Sock, xs: seq<Packet>, i: nat)
    requires i < |xs|
    ensures Out.Sent(m, xs[i]) in Out.SendAll(m, xs)
  {
    if i > 0 { SendAllSends(m, xs[1..], i - 1); }
  }
}
