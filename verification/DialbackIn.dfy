/** The receiving side of server dialback (dialback_in.c): inbound connections, the
    results they announce, and the verdicts that make them trusted for one address pair. */
module DialbackIn {
  import opened Options
  import opened DialbackPacket
  import Jid

  /** The instance id (d->i->id), the secret, and merlin. */
  datatype Config = Config(self: string, secret: string, merlin: Merlin)

  /** struct dbic_struct: the stream id and the keys of the results still to be verified. */
  datatype Conn = Conn(id: string, results: seq<string>)

  /** `inId` and `okDb` are the two hash tables; `cleanups` lists the keys that
      miod_in_cleanup removes when the memory of a socket is released. */
  datatype State = State(conns: map<Sock, Conn>, inId: map<string, Sock>, okDb: map<string, Sock>,
                         cleanups: map<Sock, seq<string>>)

  const EMPTY := State(map[], map[], map[], map[])

  datatype Event =
    | Accept(m: Sock, id: string)     // a stream header with the right namespace
    | Read(m: Sock, x: Packet)        // a packet on an inbound socket
    | Verdict(x: Packet)              // dialback_in_verify
    | Closed(m: Sock)
    | Freed(m: Sock)                  // the memory of the socket is released

  datatype Output =
    | Write(m: Sock, x: Packet)
    | Reject(m: Sock)                 // a stream error, and the socket is closed
    | Forward(x: Packet)              // deliver: the db:verify for the authoritative server
    | Pass(m: Sock, x: Packet)        // dialback_miod_read: the stanza is accepted
    | Discard(x: Packet)              // a verdict nobody waits for

  function CleanupsOf(st: State, m: Sock): seq<string> {
    if m in st.cleanups then st.cleanups[m] else []
  }

  /** The answer of an authoritative server to a db:verify. */
  function Judged(cfg: Config, x: Packet): Packet {
    var good := x.text == Some(cfg.merlin(cfg.secret, x.from.GetOr(""), x.id.GetOr("")));
    Swapped(x.(kind := Some(if good then "valid" else "invalid"))).(text := None)
  }

  /** The db:verify sent out for a db:result. */
  function VerifyFor(cfg: Config, id: string, x: Packet): Packet {
    Packet("db:verify", x.from, Some(cfg.self), Some(id), None, x.to, x.text)
  }

  /** The db:result written back once the verdict is known. */
  function ResultFor(x: Packet): Packet {
    Packet("db:result", x.from, x.to, None, x.kind, None, None)
  }

  function RemoveFirst(s: seq<string>, k: string): seq<string> {
    if s == [] then [] else if s[0] == k then s[1..] else [s[0]] + RemoveFirst(s[1..], k)
  }

  /** dialback_in_read_db, MIO_XML_NODE. */
  function OnRead(cfg: Config, st: State, m: Sock, x: Packet): (State, seq<Output>)
    requires m in st.conns
  {
    var c := st.conns[m];
    if x.name == "db:verify" then (st, [Write(m, Judged(cfg, x))])
    else if Address(x.from).None? || Address(x.to).None? then (st, [Reject(m)])
    else
      var key := InKey(c.id, Address(x.to).value, Address(x.from).value.server);
      if x.name == "db:result" then
        (st.(conns := st.conns[m := c.(results := c.results + [key])]), [Forward(VerifyFor(cfg, c.id, x))])
      else if key in st.okDb && st.okDb[key] == m then (st, [Pass(m, x)])
      else (st, [Reject(m)])
  }

  /** The key that a verdict asks for; None when its address does not parse. */
  function VerdictKey(id: string, x: Packet): Option<string> {
    if Address(x.to).None? then None
    else Some(InKey(id, Address(x.to).value, x.from.GetOr("")))
  }

  /** The connection whose stored result a verdict consumes. */
  function Matched(st: State, x: Packet): Option<Sock> {
    if x.id.None? || x.id.value !in st.inId then None
    else
      var m := st.inId[x.id.value];
      if m !in st.conns then None
      else
        var key := VerdictKey(st.conns[m].id, x);
        if key.Some? && key.value in st.conns[m].results then Some(m) else None
  }

  /** dialback_in_verify. */
  function OnVerdict(st: State, x: Packet): (State, seq<Output>) {
    match Matched(st, x)
    case None => (st, [Discard(x)])
    case Some(m) =>
      var c := st.conns[m];
      var key := VerdictKey(c.id, x).value;
      var st1 := st.(conns := st.conns[m := c.(results := RemoveFirst(c.results, key))]);
      var st2 :=
        if x.kind == Some("valid") then
          st1.(okDb := st1.okDb[key := m], cleanups := st1.cleanups[m := CleanupsOf(st1, m) + [key]])
        else st1;
      (st2, [Write(m, ResultFor(x))])
  }

  function Step(cfg: Config, st: State, e: Event): (State, seq<Output>) {
    match e
    case Accept(m, id) =>
      (st.(conns := st.conns[m := Conn(id, [])], inId := st.inId[id := m]), [])
    case Read(m, x) => if m in st.conns then OnRead(cfg, st, m, x) else (st, [])
    case Verdict(x) => OnVerdict(st, x)
    case Closed(m) =>
      if m in st.conns then (st.(conns := st.conns - {m}, inId := st.inId - {st.conns[m].id}), []) else (st, [])
    case Freed(m) =>
      (st.(okDb := st.okDb - (set k | k in CleanupsOf(st, m)), cleanups := st.cleanups - {m}), [])
  }

  /** The state after a history of events. */
  function After(cfg: Config, h: seq<Event>): State {
    if h == [] then EMPTY else Step(cfg, After(cfg, h[..|h| - 1]), h[|h| - 1]).0
  }

  /** What event k of a history makes the server do. */
  function OutputOf(cfg: Config, h: seq<Event>, k: nat): seq<Output>
    requires k < |h|
  {
    Step(cfg, After(cfg, h[..k]), h[k]).1
  }

  /** Stream ids are unique, and a socket is accepted once. */
  predicate Lawful(h: seq<Event>) {
    && (forall a :: 0 <= a < |h| && h[a].Accept? ==> StreamId(h[a].id))
    && (forall a, b :: 0 <= a < b < |h| && h[a].Accept? && h[b].Accept? ==>
          h[a].id != h[b].id && h[a].m != h[b].m)
  }

  // -------------------------------------------------------- soundness

  /** A db:result that names this pair of hosts arrives on socket m. */
  predicate Announces(e: Event, m: Sock, to: string, from: string) {
    e.Read? && e.m == m && e.x.name == "db:result" && OnHost(e.x.to, to) && OnHost(e.x.from, from)
  }

  /** A verdict "valid" for this stream id and pair is processed. */
  predicate Confirms(e: Event, id: string, to: string, from: string) {
    e.Verdict? && e.x.id == Some(id) && e.x.kind == Some("valid") && OnHost(e.x.to, to) && e.x.from == Some(from)
  }

  /** h contains Accept(m, id). */
  predicate Accepted(h: seq<Event>, m: Sock, id: string) {
    h != [] && (Accepted(h[..|h| - 1], m, id) || h[|h| - 1] == Accept(m, id))
  }

  /** h contains Accept(m, id) and, later, a db:result on m for the pair. */
  predicate Announced(h: seq<Event>, m: Sock, id: string, to: string, from: string) {
    h != [] && (Announced(h[..|h| - 1], m, id, to, from)
                || (Announces(h[|h| - 1], m, to, from) && Accepted(h[..|h| - 1], m, id)))
  }

  /** h contains Accept(m, id), later a db:result on m for the pair, and later still a
      verdict "valid" for id and the pair. */
  predicate Confirmed(h: seq<Event>, m: Sock, id: string, to: string, from: string) {
    h != [] && (Confirmed(h[..|h| - 1], m, id, to, from)
                || (Confirms(h[|h| - 1], id, to, from) && Announced(h[..|h| - 1], m, id, to, from)))
  }

  /** The key of a stream and a pair of hosts. */
  function PairKey(id: string, to: string, from: string): string {
    InKey(id, Jid.Parts(None, to, None), from)
  }

  ghost predicate KeyAnnounced(h: seq<Event>, m: Sock, id: string, key: string) {
    exists to, from :: Jid.ServerOk(to) && Jid.ServerOk(from) && key == PairKey(id, to, from)
                       && Announced(h, m, id, to, from)
  }

  ghost predicate KeyConfirmed(h: seq<Event>, m: Sock, key: string) {
    exists id, to, from :: StreamId(id) && Jid.ServerOk(to) && Jid.ServerOk(from)
                           && key == PairKey(id, to, from) && Confirmed(h, m, id, to, from)
  }

  lemma PairKeyOf(id: string, to: Jid.Parts, from: string)
    requires StreamId(id) && Jid.Valid(to)
    ensures InKey(id, to, from) == PairKey(id, to.server, from)
  {
    InKeyParts(id, to, from);
    InKeyParts(id, Jid.Parts(None, to.server, None), from);
  }

  lemma PairKeyInjective(id: string, to: string, from: string, id': string, to': string, from': string)
    requires StreamId(id) && StreamId(id') && Jid.ServerOk(to) && Jid.ServerOk(to')
    requires PairKey(id, to, from) == PairKey(id', to', from')
    ensures id == id' && to == to' && from == from'
  {
    InKeyInjective(id, Jid.Parts(None, to, None), from, id', Jid.Parts(None, to', None), from');
  }

  lemma AddressValid(attrib: Option<string>)
    ensures Address(attrib).Some? ==> Jid.Valid(Address(attrib).value) && Jid.ServerOk(Address(attrib).value.server)
  {
    if attrib.Some? { Jid.ParseValid(attrib.value); }
  }

  // ---- one event

  lemma Last(h: seq<Event>, e: Event)
    ensures (h + [e])[..|h|] == h && (h + [e])[|h|] == e
  {
  }

  lemma AnnouncedExtends(h: seq<Event>, e: Event, m: Sock, id: string, key: string)
    requires KeyAnnounced(h, m, id, key)
    ensures KeyAnnounced(h + [e], m, id, key)
  {
    Last(h, e);
    var to, from :| Jid.ServerOk(to) && Jid.ServerOk(from) && key == PairKey(id, to, from)
        && Announced(h, m, id, to, from);
    assert Announced(h + [e], m, id, to, from);
  }

  lemma ConfirmedExtends(h: seq<Event>, e: Event, m: Sock, key: string)
    requires KeyConfirmed(h, m, key)
    ensures KeyConfirmed(h + [e], m, key)
  {
    Last(h, e);
    var id, to, from :| StreamId(id) && Jid.ServerOk(to) && Jid.ServerOk(from)
                        && key == PairKey(id, to, from) && Confirmed(h, m, id, to, from);
    assert Confirmed(h + [e], m, id, to, from);
  }

  lemma {:induction false} RemoveFirstSubset(s: seq<string>, k: string)
    ensures forall x :: x in RemoveFirst(s, k) ==> x in s
  {
    if s != [] && s[0] != k {
      RemoveFirstSubset(s[1..], k);
    }
  }

  /** A stored result is evidence that its pair was announced on its connection. */
  lemma ResultJustified(h: seq<Event>, m: Sock, id: string, x: Packet)
    requires StreamId(id) && Accepted(h, m, id) && x.name == "db:result"
    requires Address(x.to).Some? && Address(x.from).Some?
    ensures KeyAnnounced(h + [Read(m, x)], m, id, InKey(id, Address(x.to).value, Address(x.from).value.server))
  {
    var to, from := Address(x.to).value, Address(x.from).value;
    AddressValid(x.to);
    AddressValid(x.from);
    PairKeyOf(id, to, from.server);
    Last(h, Read(m, x));
    assert Announced(h + [Read(m, x)], m, id, to.server, from.server);
  }

  /** A verdict that finds its stored result and says "valid" confirms that pair. */
  lemma VerdictJustified(h: seq<Event>, m: Sock, id: string, x: Packet)
    requires StreamId(id) && x.id == Some(id) && x.kind == Some("valid") && Address(x.to).Some?
    requires KeyAnnounced(h, m, id, InKey(id, Address(x.to).value, x.from.GetOr("")))
    ensures KeyConfirmed(h + [Verdict(x)], m, InKey(id, Address(x.to).value, x.from.GetOr("")))
  {
    var key := InKey(id, Address(x.to).value, x.from.GetOr(""));
    var to, from :| Jid.ServerOk(to) && Jid.ServerOk(from) && key == PairKey(id, to, from)
        && Announced(h, m, id, to, from);
    AddressValid(x.to);
    PairKeyOf(id, Address(x.to).value, x.from.GetOr(""));
    PairKeyInjective(id, to, from, id, Address(x.to).value.server, x.from.GetOr(""));
    Last(h, Verdict(x));
    assert Confirms(Verdict(x), id, to, from);
    assert Confirmed(h + [Verdict(x)], m, id, to, from);
  }

  ghost predicate ConnsJustified(h: seq<Event>, st: State) {
    forall m :: m in st.conns ==> StreamId(st.conns[m].id) && Accepted(h, m, st.conns[m].id)
  }

  ghost predicate IdsJustified(st: State) {
    forall id :: id in st.inId ==> st.inId[id] in st.conns && st.conns[st.inId[id]].id == id
  }

  ghost predicate ResultsJustified(h: seq<Event>, st: State) {
    forall m, key :: m in st.conns && key in st.conns[m].results ==> KeyAnnounced(h, m, st.conns[m].id, key)
  }

  ghost predicate OkJustified(h: seq<Event>, st: State) {
    forall key :: key in st.okDb ==> KeyConfirmed(h, st.okDb[key], key)
  }

  /** An event brings in connections by accepting them only. */
  lemma WhereConnsComeFrom(cfg: Config, st: State, e: Event, m: Sock)
    requires m in Step(cfg, st, e).0.conns
    ensures var id := Step(cfg, st, e).0.conns[m].id;
            e == Accept(m, id) || (m in st.conns && st.conns[m].id == id)
  {
    match e
    case Read(n, x) => if n in st.conns { ReadConns(cfg, st, n, x, m); }
    case Verdict(x) => VerdictConns(st, x, m);
    case _ =>
  }

  /** The connections after a packet was read: at most one of them has one more result. */
  function ConnsRead(conns: map<Sock, Conn>, s: Sock, k: Option<string>): map<Sock, Conn>
    requires s in conns
  {
    match k
    case None => conns
    case Some(key) => conns[s := conns[s].(results := conns[s].results + [key])]
  }

  function ResultRead(st: State, s: Sock, x: Packet): Option<string>
    requires s in st.conns
  {
    if x.name == "db:result" && Address(x.from).Some? && Address(x.to).Some? then
      Some(InKey(st.conns[s].id, Address(x.to).value, Address(x.from).value.server))
    else None
  }

  lemma ReadIs(cfg: Config, st: State, s: Sock, x: Packet)
    requires s in st.conns
    ensures OnRead(cfg, st, s, x).0.conns == ConnsRead(st.conns, s, ResultRead(st, s, x))
  {
  }

  lemma ConnsReadResults(conns: map<Sock, Conn>, s: Sock, k: Option<string>, m: Sock, key: string)
    requires s in conns && m in ConnsRead(conns, s, k)
    ensures m in conns && conns[m].id == ConnsRead(conns, s, k)[m].id
    ensures key in ConnsRead(conns, s, k)[m].results ==> key in conns[m].results || (s == m && k == Some(key))
  {
  }

  lemma ReadConns(cfg: Config, st: State, n: Sock, x: Packet, m: Sock)
    requires n in st.conns && m in OnRead(cfg, st, n, x).0.conns
    ensures m in st.conns && st.conns[m].id == OnRead(cfg, st, n, x).0.conns[m].id
  {
    ReadIs(cfg, st, n, x);
    ConnsReadResults(st.conns, n, ResultRead(st, n, x), m, "");
  }

  lemma VerdictConns(st: State, x: Packet, m: Sock)
    requires m in OnVerdict(st, x).0.conns
    ensures m in st.conns && st.conns[m].id == OnVerdict(st, x).0.conns[m].id
  {
  }

  lemma VerdictResults(st: State, x: Packet, m: Sock, key: string)
    requires m in OnVerdict(st, x).0.conns && key in OnVerdict(st, x).0.conns[m].results
    ensures m in st.conns && st.conns[m].id == OnVerdict(st, x).0.conns[m].id && key in st.conns[m].results
  {
    if Matched(st, x) == Some(m) {
      var c := st.conns[m];
      RemoveFirstSubset(c.results, VerdictKey(c.id, x).value);
    }
  }

  lemma ReadResults(cfg: Config, st: State, s: Sock, x: Packet, m: Sock, key: string)
    requires s in st.conns
    requires m in OnRead(cfg, st, s, x).0.conns && key in OnRead(cfg, st, s, x).0.conns[m].results
    ensures m in st.conns && st.conns[m].id == OnRead(cfg, st, s, x).0.conns[m].id
    ensures key in st.conns[m].results
         || (s == m && x.name == "db:result" && Address(x.to).Some? && Address(x.from).Some?
             && key == InKey(st.conns[m].id, Address(x.to).value, Address(x.from).value.server))
  {
    ReadIs(cfg, st, s, x);
    ConnsReadResults(st.conns, s, ResultRead(st, s, x), m, key);
  }

  /** An event brings in results by reading a db:result only. */
  lemma WhereResultsComeFrom(cfg: Config, st: State, e: Event, m: Sock, key: string)
    requires var st' := Step(cfg, st, e).0; m in st'.conns && key in st'.conns[m].results
    ensures m in st.conns && st.conns[m].id == Step(cfg, st, e).0.conns[m].id
    ensures key in st.conns[m].results
         || (e.Read? && e.m == m && e.x.name == "db:result" && Address(e.x.to).Some? && Address(e.x.from).Some?
             && key == InKey(st.conns[m].id, Address(e.x.to).value, Address(e.x.from).value.server))
  {
    match e
    case Accept(_, _) =>
    case Closed(_) =>
    case Freed(_) =>
    case Verdict(x) => VerdictResults(st, x, m, key);
    case Read(s, x) => if s in st.conns { ReadResults(cfg, st, s, x, m, key); }
  }

  lemma ConnsStep(cfg: Config, h: seq<Event>, st: State, e: Event)
    requires ConnsJustified(h, st) && (e.Accept? ==> StreamId(e.id))
    ensures ConnsJustified(h + [e], Step(cfg, st, e).0)
  {
    Last(h, e);
    var st' := Step(cfg, st, e).0;
    forall m | m in st'.conns
      ensures StreamId(st'.conns[m].id) && Accepted(h + [e], m, st'.conns[m].id)
    {
      WhereConnsComeFrom(cfg, st, e, m);
    }
  }

  lemma {:induction false} AcceptedOccurs(h: seq<Event>, m: Sock, id: string)
    requires Accepted(h, m, id)
    ensures Accept(m, id) in h
  {
    if h[|h| - 1] != Accept(m, id) {
      AcceptedOccurs(h[..|h| - 1], m, id);
    }
  }

  lemma IdsAccept(cfg: Config, h: seq<Event>, st: State, m: Sock, id: string)
    requires ConnsJustified(h, st) && IdsJustified(st)
    requires forall f :: f in h && f.Accept? ==> f.m != m && f.id != id
    ensures IdsJustified(Step(cfg, st, Accept(m, id)).0)
  {
    forall other | other in st.inId
      ensures st.inId[other] != m
    {
      AcceptedOccurs(h, st.inId[other], other);
      var f := Accept(st.inId[other], other);
      assert f in h;
    }
  }

  /** Unique ids keep the id table and the connections in step. */
  lemma IdsStep(cfg: Config, h: seq<Event>, st: State, e: Event)
    requires ConnsJustified(h, st) && IdsJustified(st)
    requires e.Accept? ==> forall f :: f in h && f.Accept? ==> f.m != e.m && f.id != e.id
    ensures IdsJustified(Step(cfg, st, e).0)
  {
    if e.Accept? {
      IdsAccept(cfg, h, st, e.m, e.id);
    } else {
      var st' := Step(cfg, st, e).0;
      forall id | id in st'.inId
        ensures st'.inId[id] in st'.conns && st'.conns[st'.inId[id]].id == id
      {
        IdsStay(cfg, st, e, id);
        ConnsStay(cfg, st, e, st.inId[id]);
      }
    }
  }

  lemma IdsStay(cfg: Config, st: State, e: Event, id: string)
    requires !e.Accept? && id in Step(cfg, st, e).0.inId
    ensures id in st.inId && st.inId[id] == Step(cfg, st, e).0.inId[id]
    ensures e.Closed? && e.m in st.conns ==> id != st.conns[e.m].id
  {
  }

  lemma ConnsStay(cfg: Config, st: State, e: Event, m: Sock)
    requires !e.Accept? && m in st.conns && e != Closed(m)
    ensures m in Step(cfg, st, e).0.conns && Step(cfg, st, e).0.conns[m].id == st.conns[m].id
  {
    match e
    case Read(s, x) => if s in st.conns { ReadIs(cfg, st, s, x); }
    case _ =>
  }

  lemma ResultsStep(cfg: Config, h: seq<Event>, st: State, e: Event)
    requires ConnsJustified(h, st) && ResultsJustified(h, st)
    ensures ResultsJustified(h + [e], Step(cfg, st, e).0)
  {
    var st' := Step(cfg, st, e).0;
    forall m, key | m in st'.conns && key in st'.conns[m].results
      ensures KeyAnnounced(h + [e], m, st'.conns[m].id, key)
    {
      WhereResultsComeFrom(cfg, st, e, m, key);
      if key in st.conns[m].results {
        AnnouncedExtends(h, e, m, st.conns[m].id, key);
      } else {
        ResultJustified(h, m, st.conns[m].id, e.x);
      }
    }
  }

  lemma OkStep(cfg: Config, h: seq<Event>, st: State, e: Event)
    requires ConnsJustified(h, st) && IdsJustified(st) && ResultsJustified(h, st) && OkJustified(h, st)
    ensures OkJustified(h + [e], Step(cfg, st, e).0)
  {
    var st' := Step(cfg, st, e).0;
    forall key | key in st'.okDb
      ensures KeyConfirmed(h + [e], st'.okDb[key], key)
    {
      WhereOkComesFrom(cfg, st, e, key);
      if key in st.okDb && st.okDb[key] == st'.okDb[key] {
        ConfirmedExtends(h, e, st.okDb[key], key);
      } else {
        var m := st'.okDb[key];
        MatchedResult(st, e.x, m);
        VerdictJustified(h, m, st.conns[m].id, e.x);
      }
    }
  }

  /** An event registers a pair by a "valid" verdict that finds its result only. */
  lemma WhereOkComesFrom(cfg: Config, st: State, e: Event, key: string)
    requires key in Step(cfg, st, e).0.okDb
    ensures var m := Step(cfg, st, e).0.okDb[key];
            || (key in st.okDb && st.okDb[key] == m)
            || (e.Verdict? && e.x.kind == Some("valid") && Matched(st, e.x) == Some(m) && m in st.conns
                && VerdictKey(st.conns[m].id, e.x) == Some(key))
  {
    match e
    case Read(s, x) => if s in st.conns { ReadOk(cfg, st, s, x); }
    case _ =>
  }

  lemma ReadOk(cfg: Config, st: State, s: Sock, x: Packet)
    requires s in st.conns
    ensures OnRead(cfg, st, s, x).0.okDb == st.okDb
  {
  }

  lemma MatchedResult(st: State, x: Packet, m: Sock)
    requires Matched(st, x) == Some(m) && IdsJustified(st)
    ensures m in st.conns && x.id == Some(st.conns[m].id) && Address(x.to).Some?
    ensures InKey(st.conns[m].id, Address(x.to).value, x.from.GetOr("")) in st.conns[m].results
  {
  }

  /** Every entry of the tables goes back to the events that justify it. */
  ghost predicate Justified(h: seq<Event>, st: State) {
    ConnsJustified(h, st) && IdsJustified(st) && ResultsJustified(h, st) && OkJustified(h, st)
  }

  lemma LawfulPrefix(h: seq<Event>, k: nat)
    requires Lawful(h) && k <= |h|
    ensures Lawful(h[..k])
  {
  }

  lemma {:induction false} AllJustified(cfg: Config, h: seq<Event>)
    requires Lawful(h)
    ensures Justified(h, After(cfg, h))
  {
    if h != [] {
      var g, e := h[..|h| - 1], h[|h| - 1];
      LawfulPrefix(h, |h| - 1);
      AllJustified(cfg, g);
      assert h == g + [e];
      var st := After(cfg, g);
      ConnsStep(cfg, g, st, e);
      IdsStep(cfg, g, st, e);
      ResultsStep(cfg, g, st, e);
      OkStep(cfg, g, st, e);
    }
  }

  // ---- the theorem

  /** The recursive forms above, spelled out as positions in the history. */
  lemma {:induction false} ConfirmedPositions(h: seq<Event>, m: Sock, id: string, to: string, from: string)
    returns (a: nat, i: nat, j: nat)
    requires Confirmed(h, m, id, to, from)
    ensures a < i < j < |h| && h[a] == Accept(m, id) && Announces(h[i], m, to, from) && Confirms(h[j], id, to, from)
  {
    var n := |h| - 1;
    if Confirmed(h[..n], m, id, to, from) {
      a, i, j := ConfirmedPositions(h[..n], m, id, to, from);
    } else {
      a, i := AnnouncedPositions(h[..n], m, id, to, from);
      j := n;
    }
  }

  lemma {:induction false} AnnouncedPositions(h: seq<Event>, m: Sock, id: string, to: string, from: string)
    returns (a: nat, i: nat)
    requires Announced(h, m, id, to, from)
    ensures a < i < |h| && h[a] == Accept(m, id) && Announces(h[i], m, to, from)
  {
    var n := |h| - 1;
    if Announced(h[..n], m, id, to, from) {
      a, i := AnnouncedPositions(h[..n], m, id, to, from);
    } else {
      AcceptedOccurs(h[..n], m, id);
      a :| 0 <= a < n && h[..n][a] == Accept(m, id);
      i := n;
    }
  }

  /** A stanza is passed on from an inbound socket only if, on that very connection, a
      db:result announced the stanza's pair of hosts, and later a verdict "valid" for the
      connection's stream id and that pair was processed. */
  lemma PassedStanzasAreVerified(cfg: Config, h: seq<Event>, k: nat, m: Sock, x: Packet)
    returns (a: nat, i: nat, j: nat, id: string, to: string, from: string)
    requires Lawful(h) && k < |h| && h[k] == Read(m, x) && Pass(m, x) in OutputOf(cfg, h, k)
    ensures OnHost(x.to, to) && OnHost(x.from, from)
    ensures a < i < j < k && h[a] == Accept(m, id) && Announces(h[i], m, to, from) && Confirms(h[j], id, to, from)
  {
    LawfulPrefix(h, k);
    AllJustified(cfg, h[..k]);
    var st := After(cfg, h[..k]);
    var c := st.conns[m];
    to, from := Address(x.to).value.server, Address(x.from).value.server;
    AddressValid(x.to);
    AddressValid(x.from);
    PairKeyOf(c.id, Address(x.to).value, from);
    id := OwnerOf(h[..k], m, c.id, to, from);
    a, i, j := ConfirmedPositions(h[..k], m, id, to, from);
  }

  /** The pair that a confirmed key stands for. */
  lemma OwnerOf(h: seq<Event>, m: Sock, id: string, to: string, from: string) returns (id': string)
    requires KeyConfirmed(h, m, PairKey(id, to, from)) && StreamId(id) && Jid.ServerOk(to)
    ensures id' == id && Confirmed(h, m, id', to, from)
  {
    var t, f;
    id', t, f :| StreamId(id') && Jid.ServerOk(t) && Jid.ServerOk(f)
                 && PairKey(id, to, from) == PairKey(id', t, f) && Confirmed(h, m, id', t, f);
    PairKeyInjective(id, to, from, id', t, f);
  }

  // -------------------------------------------- a result is used up once

  /** The event stores a result under `key` on connection m. */
  predicate Stores(st: State, e: Event, m: Sock, key: string) {
    e.Read? && e.m == m && m in st.conns && e.x.name == "db:result"
    && Address(e.x.to).Some? && Address(e.x.from).Some?
    && InKey(st.conns[m].id, Address(e.x.to).value, Address(e.x.from).value.server) == key
  }

  /** The event is a verdict that uses up a result stored under `key` on connection m. */
  predicate Consumes(st: State, e: Event, m: Sock, key: string) {
    e.Verdict? && Matched(st, e.x) == Some(m) && VerdictKey(st.conns[m].id, e.x) == Some(key)
  }

  function Stored(cfg: Config, h: seq<Event>, m: Sock, key: string): nat {
    if h == [] then 0
    else
      var g := h[..|h| - 1];
      Stored(cfg, g, m, key) + if Stores(After(cfg, g), h[|h| - 1], m, key) then 1 else 0
  }

  function Consumed(cfg: Config, h: seq<Event>, m: Sock, key: string): nat {
    if h == [] then 0
    else
      var g := h[..|h| - 1];
      Consumed(cfg, g, m, key) + if Consumes(After(cfg, g), h[|h| - 1], m, key) then 1 else 0
  }

  function Count(s: seq<string>, k: string): nat {
    if s == [] then 0 else (if s[0] == k then 1 else 0) + Count(s[1..], k)
  }

  lemma {:induction false} CountAppend(s: seq<string>, t: string, k: string)
    ensures Count(s + [t], k) == Count(s, k) + if t == k then 1 else 0
  {
    if s == [] {
      assert s + [t] == [t];
    } else {
      assert (s + [t])[1..] == s[1..] + [t];
      CountAppend(s[1..], t, k);
    }
  }

  lemma {:induction false} CountRemove(s: seq<string>, t: string, k: string)
    requires t in s
    ensures Count(RemoveFirst(s, t), k) == Count(s, k) - if t == k then 1 else 0
  {
    if s[0] != t {
      CountRemove(s[1..], t, k);
      var r := RemoveFirst(s, t);
      assert r[1..] == RemoveFirst(s[1..], t);
    }
  }

  lemma {:induction false} NeverAccepted(cfg: Config, h: seq<Event>, m: Sock, key: string)
    requires forall e :: e in h && e.Accept? ==> e.m != m
    ensures m !in After(cfg, h).conns && Stored(cfg, h, m, key) == 0 && Consumed(cfg, h, m, key) == 0
  {
    if h != [] {
      var g, e := h[..|h| - 1], h[|h| - 1];
      NeverAccepted(cfg, g, m, key);
      if m in After(cfg, h).conns {
        WhereConnsComeFrom(cfg, After(cfg, g), e, m);
      }
    }
  }

  /** How one event moves the number of results waiting under a key. */
  lemma WaitingStep(cfg: Config, st: State, e: Event, m: Sock, key: string)
    requires m in st.conns && m in Step(cfg, st, e).0.conns && !(e.Accept? && e.m == m)
    ensures Count(Step(cfg, st, e).0.conns[m].results, key) + (if Consumes(st, e, m, key) then 1 else 0)
         == Count(st.conns[m].results, key) + (if Stores(st, e, m, key) then 1 else 0)
  {
    match e
    case Read(s, x) => if s in st.conns { WaitingRead(cfg, st, s, x, m, key); }
    case Verdict(x) => WaitingVerdict(st, x, m, key);
    case _ =>
  }

  lemma WaitingRead(cfg: Config, st: State, s: Sock, x: Packet, m: Sock, key: string)
    requires m in st.conns && s in st.conns && m in OnRead(cfg, st, s, x).0.conns
    ensures Count(OnRead(cfg, st, s, x).0.conns[m].results, key)
         == Count(st.conns[m].results, key) + (if Stores(st, Read(s, x), m, key) then 1 else 0)
  {
    ReadIs(cfg, st, s, x);
    var k := ResultRead(st, s, x);
    if s == m && k.Some? {
      CountAppend(st.conns[m].results, k.value, key);
    }
  }

  lemma WaitingVerdict(st: State, x: Packet, m: Sock, key: string)
    requires m in st.conns && m in OnVerdict(st, x).0.conns
    ensures Count(OnVerdict(st, x).0.conns[m].results, key) + (if Consumes(st, Verdict(x), m, key) then 1 else 0)
         == Count(st.conns[m].results, key)
  {
    if Matched(st, x) == Some(m) {
      CountRemove(st.conns[m].results, VerdictKey(st.conns[m].id, x).value, key);
    }
  }

  /** On an open connection, results stored = results consumed + results waiting; so at no
      time more verdicts have been accepted for a key than results were announced for it. */
  lemma {:induction false} ResultsConsumedOnce(cfg: Config, h: seq<Event>, m: Sock, key: string)
    requires Lawful(h)
    ensures Consumed(cfg, h, m, key) <= Stored(cfg, h, m, key)
    ensures m in After(cfg, h).conns ==>
              Consumed(cfg, h, m, key) + Count(After(cfg, h).conns[m].results, key) == Stored(cfg, h, m, key)
  {
    if h != [] {
      var g, e := h[..|h| - 1], h[|h| - 1];
      LawfulPrefix(h, |h| - 1);
      ResultsConsumedOnce(cfg, g, m, key);
      if e.Accept? && e.m == m {
        NeverAccepted(cfg, g, m, key);
      } else if m in After(cfg, g).conns {
        ConsumesNeedsOne(After(cfg, g), e, m, key);
        if m in After(cfg, h).conns {
          WaitingStep(cfg, After(cfg, g), e, m, key);
        }
      } else if m in After(cfg, h).conns {
        WhereConnsComeFrom(cfg, After(cfg, g), e, m);
      }
    }
  }

  lemma ConsumesNeedsOne(st: State, e: Event, m: Sock, key: string)
    ensures Consumes(st, e, m, key) ==> m in st.conns && Count(st.conns[m].results, key) > 0
  {
    if Consumes(st, e, m, key) {
      CountPositive(st.conns[m].results, key);
    }
  }

  lemma {:induction false} CountPositive(s: seq<string>, k: string)
    requires k in s
    ensures Count(s, k) > 0
  {
    if s[0] != k {
      CountPositive(s[1..], k);
    }
  }

  // ------------------------------------------- how long a pair stays registered

  /** A verdict "valid" that finds its result registers the pair on m. */
  predicate Registers(st: State, e: Event, m: Sock, key: string) {
    Consumes(st, e, m, key) && e.x.kind == Some("valid")
  }

  /** The pair was registered on m, and the memory of m has not been released since. */
  predicate Registered(cfg: Config, h: seq<Event>, m: Sock, key: string) {
    h != [] &&
    var g, e := h[..|h| - 1], h[|h| - 1];
    Registers(After(cfg, g), e, m, key) || (Registered(cfg, g, m, key) && e != Freed(m))
  }

  lemma StepTables(cfg: Config, st: State, e: Event, m: Sock, key: string)
    ensures var st' := Step(cfg, st, e).0;
            && (key in CleanupsOf(st', m) <==> Registers(st, e, m, key) || (key in CleanupsOf(st, m) && e != Freed(m)))
            && (Registers(st, e, m, key) ==> key in st'.okDb && st'.okDb[key] == m)
            && (key in st'.okDb && st'.okDb[key] == m ==>
                  Registers(st, e, m, key) || (key in st.okDb && st.okDb[key] == m))
  {
    match e
    case Read(s, x) =>
      if s in st.conns {
        ReadOk(cfg, st, s, x);
        ReadCleanups(cfg, st, s, x);
      }
    case Verdict(x) => VerdictTables(st, x, m, key);
    case _ =>
  }

  lemma VerdictTables(st: State, x: Packet, m: Sock, key: string)
    ensures var st' := OnVerdict(st, x).0;
            if Registers(st, Verdict(x), m, key) then
              key in CleanupsOf(st', m) && key in st'.okDb && st'.okDb[key] == m
            else
              (key in CleanupsOf(st', m) <==> key in CleanupsOf(st, m))
              && (key in st'.okDb && st'.okDb[key] == m ==> key in st.okDb && st.okDb[key] == m)
  {
  }

  lemma ReadCleanups(cfg: Config, st: State, s: Sock, x: Packet)
    requires s in st.conns
    ensures OnRead(cfg, st, s, x).0.cleanups == st.cleanups
  {
  }

  /** An entry that goes away was overwritten, or was on the list of a socket that is freed. */
  lemma StepKeepsOk(cfg: Config, st: State, e: Event, m: Sock, key: string)
    requires key in st.okDb && st.okDb[key] == m
    ensures var st' := Step(cfg, st, e).0;
            || (key in st'.okDb && st'.okDb[key] == m)
            || (e.Verdict? && exists n :: n != m && Registers(st, e, n, key))
            || (e.Freed? && key in CleanupsOf(st, e.m))
  {
    match e
    case Read(s, x) => if s in st.conns { ReadOk(cfg, st, s, x); }
    case Verdict(x) => VerdictKeepsOk(st, x, m, key);
    case _ =>
  }

  lemma VerdictKeepsOk(st: State, x: Packet, m: Sock, key: string)
    requires key in st.okDb && st.okDb[key] == m
    ensures var st' := OnVerdict(st, x).0;
            (key in st'.okDb && st'.okDb[key] == m) || exists n :: n != m && Registers(st, Verdict(x), n, key)
  {
    if Matched(st, x).Some? {
      var n := Matched(st, x).value;
      if n != m && VerdictKey(st.conns[n].id, x) == Some(key) && x.kind == Some("valid") {
        assert Registers(st, Verdict(x), n, key);
      }
    }
  }

  lemma {:induction false} CleanupsAre(cfg: Config, h: seq<Event>, m: Sock, key: string)
    ensures key in CleanupsOf(After(cfg, h), m) <==> Registered(cfg, h, m, key)
  {
    if h != [] {
      CleanupsAre(cfg, h[..|h| - 1], m, key);
      StepTables(cfg, After(cfg, h[..|h| - 1]), h[|h| - 1], m, key);
    }
  }

  lemma RegisteringConfirms(cfg: Config, h: seq<Event>, m: Sock, key: string)
    requires Lawful(h) && h != [] && Registers(After(cfg, h[..|h| - 1]), h[|h| - 1], m, key)
    ensures KeyConfirmed(h, m, key)
  {
    VerdictTables(After(cfg, h[..|h| - 1]), h[|h| - 1].x, m, key);
    AllJustified(cfg, h);
  }

  lemma {:induction false} RegisteredIsConfirmed(cfg: Config, h: seq<Event>, m: Sock, key: string)
    requires Lawful(h) && Registered(cfg, h, m, key)
    ensures KeyConfirmed(h, m, key)
  {
    var g, e := h[..|h| - 1], h[|h| - 1];
    assert h == g + [e];
    LawfulPrefix(h, |h| - 1);
    if Registers(After(cfg, g), e, m, key) {
      RegisteringConfirms(cfg, h, m, key);
    } else {
      RegisteredIsConfirmed(cfg, g, m, key);
      ConfirmedExtends(g, e, m, key);
    }
  }

  /** A pair of one stream is confirmed on one socket only. */
  lemma OneOwner(h: seq<Event>, m: Sock, n: Sock, key: string)
    requires Lawful(h) && KeyConfirmed(h, m, key) && KeyConfirmed(h, n, key)
    ensures m == n
  {
    var id, to, from :| StreamId(id) && Jid.ServerOk(to) && Jid.ServerOk(from)
                        && key == PairKey(id, to, from) && Confirmed(h, m, id, to, from);
    var id' := OwnerOf(h, n, id, to, from);
    var a, i, j := ConfirmedPositions(h, m, id, to, from);
    var a', i', j' := ConfirmedPositions(h, n, id, to, from);
    AcceptedOnce(h, a, a');
  }

  lemma AcceptedOnce(h: seq<Event>, a: nat, b: nat)
    requires Lawful(h) && a < |h| && b < |h| && h[a].Accept? && h[b].Accept? && h[a].id == h[b].id
    ensures h[a].m == h[b].m
  {
  }

  /** Main result: over every history, a pair is trusted on a socket exactly from the verdict
      that registers it until the memory of that socket is released. So no entry outlives its
      socket, and releasing one takes no entry of another. */
  lemma {:induction false} TrustLastsAsLongAsTheSocket(cfg: Config, h: seq<Event>, m: Sock, key: string)
    requires Lawful(h)
    ensures key in After(cfg, h).okDb && After(cfg, h).okDb[key] == m <==> Registered(cfg, h, m, key)
  {
    if h != [] {
      var g, e := h[..|h| - 1], h[|h| - 1];
      var st := After(cfg, g);
      LawfulPrefix(h, |h| - 1);
      TrustLastsAsLongAsTheSocket(cfg, g, m, key);
      StepTables(cfg, st, e, m, key);
      CleanupsAre(cfg, g, m, key);
      if Registered(cfg, h, m, key) && !Registers(st, e, m, key) {
        StepKeepsOk(cfg, st, e, m, key);
        if e.Freed? && key in CleanupsOf(st, e.m) {
          CleanupsAre(cfg, g, e.m, key);
          RegisteredOnce(cfg, g, m, e.m, key);
        } else if e.Verdict? && exists n :: n != m && Registers(st, e, n, key) {
          var n :| n != m && Registers(st, e, n, key);
          RegisteredOnce(cfg, h, m, n, key);
        }
      }
    }
  }

  lemma RegisteredOnce(cfg: Config, h: seq<Event>, m: Sock, n: Sock, key: string)
    requires Lawful(h) && Registered(cfg, h, m, key) && Registered(cfg, h, n, key)
    ensures m == n
  {
    RegisteredIsConfirmed(cfg, h, m, key);
    RegisteredIsConfirmed(cfg, h, n, key);
    OneOwner(h, m, n, key);
  }

  // --------------------------------------------------- the mutable server

  /** The receiving half of the db structure, and its callbacks. */
  class Incoming {
    const cfg: Config
    var conns: map<Sock, Conn>
    var inId: map<string, Sock>
    var okDb: map<string, Sock>
    var cleanups: map<Sock, seq<string>>

    constructor (cfg: Config)
      ensures this.cfg == cfg && Tables() == EMPTY
    {
      this.cfg := cfg;
      conns, inId, okDb, cleanups := map[], map[], map[], map[];
    }

    function Tables(): State
      reads this
    {
      State(conns, inId, okDb, cleanups)
    }

    /** dialback_in_dbic_new. */
    method AcceptStream(m: Sock, id: string)
      modifies this
      ensures Tables() == Step(cfg, old(Tables()), Accept(m, id)).0
    {
      conns := conns[m := Conn(id, [])];
      inId := inId[id := m];
    }

    /** dialback_in_read_db, MIO_XML_NODE. */
    method ReadPacket(m: Sock, x: Packet) returns (out: seq<Output>)
      modifies this
      ensures (Tables(), out) == Step(cfg, old(Tables()), Read(m, x))
    {
      if m !in conns { return []; }
      var c := conns[m];
      if x.name == "db:verify" {
        return [Write(m, Judged(cfg, x))];
      }
      var from, key := Address(x.from), Address(x.to);
      if from.None? || key.None? {
        return [Reject(m)];
      }
      key := Some(WithResource(key.value, from.value.server));
      key := Some(WithUser(key.value, c.id));
      var full := Jid.Print(key.value);
      if x.name == "db:result" {
        conns := conns[m := c.(results := c.results + [full])];
        return [Forward(VerifyFor(cfg, c.id, x))];
      }
      if full !in okDb || okDb[full] != m {
        return [Reject(m)];
      }
      return [Pass(m, x)];
    }

    /** dialback_in_verify. */
    method Verify(x: Packet) returns (out: seq<Output>)
      modifies this
      ensures (Tables(), out) == Step(cfg, old(Tables()), Verdict(x))
    {
      if x.id.None? || x.id.value !in inId { return [Discard(x)]; }
      var m := inId[x.id.value];
      if m !in conns { return [Discard(x)]; }
      var c := conns[m];
      var to := Address(x.to);
      if to.None? { return [Discard(x)]; }
      var key := Jid.Print(WithUser(WithResource(to.value, x.from.GetOr("")), c.id));
      assert VerdictKey(c.id, x) == Some(key);
      if key !in c.results { return [Discard(x)]; }
      assert Matched(Tables(), x) == Some(m);
      conns := conns[m := c.(results := RemoveFirst(c.results, key))];
      if x.kind == Some("valid") {
        cleanups := cleanups[m := (if m in cleanups then cleanups[m] else []) + [key]];
        okDb := okDb[key := m];
      }
      return [Write(m, Packet("db:result", x.from, x.to, None, x.kind, None, None))];
    }

    /** dialback_in_read_db, MIO_CLOSED. */
    method Close(m: Sock)
      modifies this
      ensures Tables() == Step(cfg, old(Tables()), Closed(m)).0
    {
      if m in conns {
        inId := inId - {conns[m].id};
        conns := conns - {m};
      }
    }

    /** pool_free of the socket: miod_in_cleanup for every key registered on it. */
    method Release(m: Sock)
      modifies this
      ensures Tables() == Step(cfg, old(Tables()), Freed(m)).0
    {
      if m in cleanups {
        var keys, i := cleanups[m], 0;
        while i < |keys|
          invariant i <= |keys| && conns == old(conns) && inId == old(inId) && cleanups == old(cleanups)
          invariant okDb == old(okDb) - (set k | k in keys[..i])
        {
          okDb := okDb - {keys[i]};
          assert keys[..i + 1] == keys[..i] + [keys[i]];
          i := i + 1;
        }
        assert keys[..i] == keys;
        cleanups := cleanups - {m};
      } else {
        assert CleanupsOf(old(Tables()), m) == [];
        assert cleanups - {m} == cleanups;
        assert okDb - (set k | k in CleanupsOf(old(Tables()), m)) == okDb;
      }
    }
  }
}
