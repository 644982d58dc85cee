/** The presence tracker of one session (mod_presence.c): the lists A and I of those who
    believe the session available or invisible, and who is told when it goes away. */
module Presence {
  import opened Options

  /** A full address in canonical form: equality stands for jid_cmp. */
  type Jid = string

  datatype Kind = Available | Unavailable | Invisible | Probe | Error

  /** A presence packet of the session; `to` is None for an undirected one, which includes
      one sent to the session's own bare address. */
  datatype Packet = Packet(to: Option<Jid>, kind: Kind, priority: Option<int>)

  /** One roster entry as js_trust_populate_presence sees it. */
  datatype Contact = Contact(jid: Jid, subTo: bool, subFrom: bool)

  /** The session, with its own queue (js_session_from); `stored` is the presence that a
      probe is answered with. */
  datatype State = State(a: seq<Jid>, i: seq<Jid>, invisible: bool, priority: int,
                         stored: Option<Kind>, queue: seq<Packet>)

  /** What leaves the session, and the bounces that come back. */
  datatype Trace = Tell(to: Jid, kind: Kind) | TellBcc(kind: Kind) | Bounced(from: Jid)

  function NewSession(uid: Jid): State { State([uid], [], false, -129, Some(Unavailable), []) }

  // ------------------------------------------------------------ the lists

  function Whack(id: Jid, ids: seq<Jid>): seq<Jid> {
    if ids == [] then [] else if ids[0] == id then ids[1..] else [ids[0]] + Whack(id, ids[1..])
  }

  /** jid_append. */
  function Append(ids: seq<Jid>, id: Jid): seq<Jid> { if id in ids then ids else ids + [id] }

  /** What is left of A when its first element is made the last. */
  function Head(ids: seq<Jid>): seq<Jid> { if ids == [] then [] else [ids[0]] }

  /** The contacts that are told, added to A in roster order. */
  function Populate(ids: seq<Jid>, roster: seq<Contact>): seq<Jid>
    decreases |roster|
  {
    if roster == [] then ids
    else Populate(if roster[0].subFrom then Append(ids, roster[0].jid) else ids, roster[1..])
  }

  /** The probes for those the user is subscribed to. */
  function Probes(roster: seq<Contact>): seq<Packet> {
    if roster == [] then []
    else (if roster[0].subTo then [Packet(Some(roster[0].jid), Probe, None)] else []) + Probes(roster[1..])
  }

  function TellAll(ids: seq<Jid>, kind: Kind): seq<Trace> {
    if ids == [] then [] else [Tell(ids[0], kind)] + TellAll(ids[1..], kind)
  }

  function TellTrusted(ids: seq<Jid>, trusted: set<Jid>, kind: Kind): seq<Trace> {
    if ids == [] then []
    else (if ids[0] in trusted then [Tell(ids[0], kind)] else []) + TellTrusted(ids[1..], trusted, kind)
  }

  // ---------------------------------------------------------- the handlers

  /** mod_presence_avails, and the packet goes on its way. */
  function OnDirected(st: State, j: Jid, kind: Kind): (State, seq<Trace>) {
    var st' :=
      match kind
      case Invisible => st.(i := if st.i == [] then [j] else Append(st.i, j), a := Whack(j, st.a))
      case Available => st.(i := Whack(j, st.i), a := Append(st.a, j))
      case Unavailable => st.(i := Whack(j, st.i), a := Whack(j, st.a))
      case _ => st.(i := Whack(j, st.i));
    (st', [Tell(j, kind)])
  }

  function Priority(p: Packet): int { p.priority.GetOr(0) }

  predicate InRange(p: Packet) { -128 <= Priority(p) <= 127 }

  /** mod_presence_out on an undirected packet. */
  function OnUndirected(st: State, p: Packet, roster: seq<Contact>, trusted: set<Jid>): (State, seq<Trace>)
  {
    if p.kind.Probe? || p.kind.Error? || !InRange(p) then (st, [])
    else if p.kind.Invisible? then
      if st.priority >= -128 then
        (st.(queue := st.queue + [Packet(None, Unavailable, None), p]), [])
      else (st.(invisible := true, priority := Priority(p), queue := st.queue + Probes(roster)), [])
    else if p.kind.Unavailable? then
      (st.(stored := Some(Unavailable), priority := -129, invisible := false, a := Head(st.a), i := []),
       (if st.invisible then [] else [TellBcc(Unavailable)]) + TellAll(st.a, Unavailable) + TellAll(st.i, Unavailable))
    else
      var st1 := st.(stored := Some(Available), priority := Priority(p));
      if st.priority >= -128 && !st.invisible then (st1, TellTrusted(st.a, trusted, Available))
      else
        var a := Populate(st.a, roster);
        (st1.(invisible := false, a := a, queue := st.queue + Probes(roster)),
         [TellBcc(Available)] + TellAll(a, Available))
  }

  datatype Event =
    | Send(p: Packet)                                            // the client, or mod_roster_pforce
    | Take(roster: seq<Contact>, trusted: set<Jid>)              // the session thread takes a packet
    | Bounce(from: Jid)                                          // mod_presence_in, type error
    | ProbeBy(from: Jid, trusts: bool)                           // mod_presence_in, type probe
    | End                                                        // mod_presence_avails_end

  /** mod_presence_in on a probe: the answer is queued. */
  function OnProbe(st: State, from: Jid, trusts: bool): State {
    if st.stored.None? || !trusts then st
    else if !st.invisible && from !in st.i then
      st.(queue := st.queue + [Packet(Some(from), st.stored.value, None)])
    else if st.invisible && from in st.a then
      st.(queue := st.queue + [Packet(Some(from), Available, None)])
    else st

  }

  /** The end of the session: the queue is dropped, the priority reset by js_session_end. */
  function OnEnd(st: State): (State, seq<Trace>) {
    (st.(stored := None, priority := -129, queue := []),
     [TellBcc(Unavailable)] + TellAll(st.a, Unavailable) + TellAll(st.i, Unavailable))
  }

  function Step(st: State, e: Event): (State, seq<Trace>) {
    match e
    case Send(p) => (st.(queue := st.queue + [p]), [])
    case Take(roster, trusted) =>
      if st.queue == [] then (st, [])
      else
        var p, st1 := st.queue[0], st.(queue := st.queue[1..]);
        if p.to.Some? then OnDirected(st1, p.to.value, p.kind) else OnUndirected(st1, p, roster, trusted)
    case Bounce(from) => (st.(a := Whack(from, st.a)), [Bounced(from)])
    case ProbeBy(from, trusts) => (OnProbe(st, from, trusts), [])
    case End => OnEnd(st)
  }

  /** The whole history: the state reached and everything that was told on the way. */
  function After(uid: Jid, h: seq<Event>): (State, seq<Trace>) {
    if h == [] then (NewSession(uid), [])
    else
      var (st, told) := After(uid, h[..|h| - 1]);
      var (st', more) := Step(st, h[|h| - 1]);
      (st', told + more)
  }

  // ------------------------------------------- what the others believe

  /** Those last told available or invisible, and neither told otherwise nor bounced since. */
  function Believers(told: seq<Trace>): set<Jid> {
    if told == [] then {}
    else
      var before := Believers(told[..|told| - 1]);
      match told[|told| - 1]
      case Tell(to, kind) =>
        if kind.Available? || kind.Invisible? then before + {to}
        else if kind.Unavailable? then before - {to} else before
      case TellBcc(_) => before
      case Bounced(from) => before - {from}
  }

  /** What the blind-copy recipients were told last. */
  function BccBelief(told: seq<Trace>): bool {
    told != [] &&
    match told[|told| - 1]
    case TellBcc(kind) => kind.Available?
    case _ => BccBelief(told[..|told| - 1])
  }

  predicate Unique(ids: seq<Jid>) { forall x, y :: 0 <= x < y < |ids| ==> ids[x] != ids[y] }

  /** Everyone who believes the session online is in A or in I. */
  predicate Covered(st: State, told: seq<Trace>) {
    forall j :: j in Believers(told) ==> j in st.a || j in st.i
  }

  /** The step that can lose somebody: a directed probe or error, which takes its addressee
      off I although it tells it nothing, while the addressee is not on A either. */
  predicate Slips(st: State, e: Event) {
    e.Take? && st.queue != [] && st.queue[0].to.Some?
    && (st.queue[0].kind.Probe? || st.queue[0].kind.Error?)
    && st.queue[0].to.value in st.i && st.queue[0].to.value !in st.a
  }

  // ---- list lemmas

  lemma {:induction false} WhackMembers(id: Jid, ids: seq<Jid>)
    requires Unique(ids)
    ensures forall x :: x in Whack(id, ids) <==> x in ids && x != id
    ensures Unique(Whack(id, ids))
  {
    if ids != [] {
      var rest := ids[1..];
      WhackMembers(id, rest);
      assert ids == [ids[0]] + rest;
      assert forall y :: 0 <= y < |rest| ==> rest[y] == ids[y + 1];
      assert ids[0] !in rest;
      var w := Whack(id, ids);
      if ids[0] != id {
        assert forall y :: 1 <= y < |w| ==> w[y] == Whack(id, rest)[y - 1] && w[y] in rest;
      }
    }
  }

  lemma AppendMembers(ids: seq<Jid>, id: Jid)
    requires Unique(ids)
    ensures forall x :: x in Append(ids, id) <==> x in ids || x == id
    ensures Unique(Append(ids, id))
    ensures ids <= Append(ids, id)
  {
  }

  lemma {:induction false} PopulateMembers(ids: seq<Jid>, roster: seq<Contact>)
    requires Unique(ids)
    ensures Unique(Populate(ids, roster)) && ids <= Populate(ids, roster)
    ensures forall x :: x in Populate(ids, roster) <==> x in ids || exists c :: c in roster && c.subFrom && c.jid == x
    decreases |roster|
  {
    if roster != [] {
      var ids1 := if roster[0].subFrom then Append(ids, roster[0].jid) else ids;
      if roster[0].subFrom { AppendMembers(ids, roster[0].jid); }
      PopulateMembers(ids1, roster[1..]);
      assert roster == [roster[0]] + roster[1..];
    }
  }

  // ---- belief lemmas

  /** Telling a list: they all believe, or none of them does. */
  lemma {:induction false} TellAllBelief(told: seq<Trace>, ids: seq<Jid>, kind: Kind)
    ensures var b := Believers(told + TellAll(ids, kind));
            && (kind.Available? || kind.Invisible? ==> forall x :: x in b <==> x in Believers(told) || x in ids)
            && (kind.Unavailable? ==> forall x :: x in b <==> x in Believers(told) && x !in ids)
    decreases |ids|
  {
    if ids == [] {
      assert told + TellAll(ids, kind) == told;
    } else {
      var told1 := told + [Tell(ids[0], kind)];
      assert told1[..|told|] == told;
      assert told + TellAll(ids, kind) == told1 + TellAll(ids[1..], kind);
      assert ids == [ids[0]] + ids[1..];
      TellAllBelief(told1, ids[1..], kind);
    }
  }

  lemma {:induction false} TellTrustedBelief(told: seq<Trace>, ids: seq<Jid>, trusted: set<Jid>)
    ensures forall x :: x in Believers(told + TellTrusted(ids, trusted, Available)) ==> x in Believers(told) || x in ids
    decreases |ids|
  {
    if ids == [] {
      assert told + TellTrusted(ids, trusted, Available) == told;
    } else {
      var told1 := if ids[0] in trusted then told + [Tell(ids[0], Available)] else told;
      assert ids[0] in trusted ==> told1[..|told|] == told;
      assert told + TellTrusted(ids, trusted, Available) == told1 + TellTrusted(ids[1..], trusted, Available);
      assert ids == [ids[0]] + ids[1..];
      TellTrustedBelief(told1, ids[1..], trusted);
    }
  }

  lemma BccTold(told: seq<Trace>, kind: Kind)
    ensures Believers(told + [TellBcc(kind)]) == Believers(told)
    ensures BccBelief(told + [TellBcc(kind)]) == kind.Available?
  {
    assert (told + [TellBcc(kind)])[..|told|] == told;
  }

  // ------------------------------------------------- what every run keeps

  /** The environment never names the session's own bare address: its packets to itself
      are undirected, its roster does not hold it, and its own presence does not bounce. */
  predicate Proper(uid: Jid, e: Event) {
    match e
    case Send(p) => p.to != Some(uid)
    case Take(roster, _) => forall c :: c in roster ==> c.jid != uid
    case Bounce(from) => from != uid
    case ProbeBy(from, _) => from != uid
    case End => true
  }

  predicate AllProper(uid: Jid, h: seq<Event>) { forall e :: e in h ==> Proper(uid, e) }

  /** Both lists are free of duplicates and A starts with the session's own address. */
  predicate Sound(uid: Jid, st: State) {
    && Unique(st.a) && Unique(st.i) && st.a != [] && st.a[0] == uid
    && forall p :: p in st.queue ==> p.to != Some(uid)
  }

  lemma {:induction false} ProbesElsewhere(uid: Jid, roster: seq<Contact>)
    requires forall c :: c in roster ==> c.jid != uid
    ensures forall p :: p in Probes(roster) ==> p.to != Some(uid)
  {
    if roster != [] {
      ProbesElsewhere(uid, roster[1..]);
    }
  }

  lemma DirectedKeepsSound(uid: Jid, st: State, j: Jid, kind: Kind)
    requires Sound(uid, st) && j != uid
    ensures Sound(uid, OnDirected(st, j, kind).0)
  {
    WhackMembers(j, st.a);
    WhackMembers(j, st.i);
    AppendMembers(st.a, j);
    AppendMembers(st.i, j);
  }

  lemma UndirectedKeepsSound(uid: Jid, st: State, p: Packet, roster: seq<Contact>, trusted: set<Jid>)
    requires Sound(uid, st) && p.to == None && forall c :: c in roster ==> c.jid != uid
    ensures Sound(uid, OnUndirected(st, p, roster, trusted).0)
  {
    ProbesElsewhere(uid, roster);
    PopulateMembers(st.a, roster);
  }

  lemma StepKeepsSound(uid: Jid, st: State, e: Event)
    requires Sound(uid, st) && Proper(uid, e)
    ensures Sound(uid, Step(st, e).0)
  {
    match e
    case Take(roster, trusted) =>
      if st.queue != [] {
        var p, st1 := st.queue[0], st.(queue := st.queue[1..]);
        assert p in st.queue;
        if p.to.Some? {
          DirectedKeepsSound(uid, st1, p.to.value, p.kind);
        } else {
          UndirectedKeepsSound(uid, st1, p, roster, trusted);
        }
      }
    case Bounce(from) => WhackMembers(from, st.a);
    case _ =>
  }

  lemma Told(told: seq<Trace>, t: Trace)
    ensures (told + [t])[..|told|] == told && (told + [t])[|told|] == t
  {
  }

  lemma DirectedKeepsCovered(st: State, told: seq<Trace>, j: Jid, kind: Kind)
    requires Unique(st.a) && Unique(st.i) && Covered(st, told)
    requires (kind.Probe? || kind.Error?) && j in st.i ==> j in st.a
    ensures Covered(OnDirected(st, j, kind).0, told + OnDirected(st, j, kind).1)
  {
    Told(told, Tell(j, kind));
    WhackMembers(j, st.a);
    WhackMembers(j, st.i);
    AppendMembers(st.a, j);
    AppendMembers(st.i, j);
  }

  /** Going away tells exactly the people on the two lists. */
  lemma FarewellTellsAll(told: seq<Trace>, bcc: seq<Trace>, a: seq<Jid>, i: seq<Jid>)
    requires bcc == [] || bcc == [TellBcc(Unavailable)]
    ensures forall x :: x in Believers(told + (bcc + TellAll(a, Unavailable) + TellAll(i, Unavailable)))
                        <==> x in Believers(told) && x !in a && x !in i
  {
    var told1 := told + bcc;
    BccTold(told, Unavailable);
    assert bcc == [] ==> told1 == told;
    TellAllBelief(told1, a, Unavailable);
    TellAllBelief(told1 + TellAll(a, Unavailable), i, Unavailable);
    assert told + (bcc + TellAll(a, Unavailable) + TellAll(i, Unavailable))
        == (told1 + TellAll(a, Unavailable)) + TellAll(i, Unavailable);
  }

  lemma UndirectedKeepsCovered(st: State, told: seq<Trace>, p: Packet, roster: seq<Contact>, trusted: set<Jid>)
    requires Unique(st.a) && Covered(st, told)
    ensures var (st', more) := OnUndirected(st, p, roster, trusted); Covered(st', told + more)
  {
    var (st', more) := OnUndirected(st, p, roster, trusted);
    assert told + [] == told;
    if p.kind.Unavailable? && InRange(p) {
      FarewellTellsAll(told, if st.invisible then [] else [TellBcc(Unavailable)], st.a, st.i);
    } else if p.kind.Available? && InRange(p) {
      if st.priority >= -128 && !st.invisible {
        TellTrustedBelief(told, st.a, trusted);
      } else {
        var a := Populate(st.a, roster);
        PopulateMembers(st.a, roster);
        BccTold(told, Available);
        TellAllBelief(told + [TellBcc(Available)], a, Available);
        assert told + ([TellBcc(Available)] + TellAll(a, Available))
            == (told + [TellBcc(Available)]) + TellAll(a, Available);
      }
    }
  }

  lemma StepKeepsCovered(st: State, told: seq<Trace>, e: Event)
    requires Unique(st.a) && Unique(st.i) && Covered(st, told) && !Slips(st, e)
    ensures Covered(Step(st, e).0, told + Step(st, e).1)
  {
    assert told + [] == told;
    match e
    case Take(roster, trusted) =>
      if st.queue != [] {
        var p, st1 := st.queue[0], st.(queue := st.queue[1..]);
        if p.to.Some? {
          DirectedKeepsCovered(st1, told, p.to.value, p.kind);
        } else {
          UndirectedKeepsCovered(st1, told, p, roster, trusted);
        }
      }
    case Bounce(from) =>
      Told(told, Bounced(from));
      WhackMembers(from, st.a);
    case End => FarewellTellsAll(told, [TellBcc(Unavailable)], st.a, st.i);
    case _ =>
  }

  predicate NoSlip(uid: Jid, h: seq<Event>) {
    h == [] || (NoSlip(uid, h[..|h| - 1]) && !Slips(After(uid, h[..|h| - 1]).0, h[|h| - 1]))
  }

  lemma {:induction false} RunsAreSound(uid: Jid, h: seq<Event>)
    requires AllProper(uid, h)
    ensures Sound(uid, After(uid, h).0)
  {
    if h != [] {
      RunsAreSound(uid, h[..|h| - 1]);
      StepKeepsSound(uid, After(uid, h[..|h| - 1]).0, h[|h| - 1]);
    }
  }

  /** In every run without a slip, everyone who believes the session online is on A or I. */
  lemma {:induction false} RunsAreCovered(uid: Jid, h: seq<Event>)
    requires AllProper(uid, h) && NoSlip(uid, h)
    ensures Covered(After(uid, h).0, After(uid, h).1)
  {
    if h != [] {
      var (st, told) := After(uid, h[..|h| - 1]);
      RunsAreCovered(uid, h[..|h| - 1]);
      RunsAreSound(uid, h[..|h| - 1]);
      StepKeepsCovered(st, told, h[|h| - 1]);
    }
  }

  /** The session says goodbye: an undirected unavailable is taken, or the session ends. */
  predicate Farewell(st: State, e: Event) {
    || e.End?
    || (e.Take? && st.queue != [] && st.queue[0].to == None && st.queue[0].kind.Unavailable? && InRange(st.queue[0]))
  }

  /** After a goodbye exactly those still believe who were on neither list; so nobody does
      if and only if everybody was covered. */
  lemma FarewellReaches(st: State, told: seq<Trace>, e: Event)
    requires Farewell(st, e)
    ensures forall j :: j in Believers(told + Step(st, e).1) <==> j in Believers(told) && j !in st.a && j !in st.i
    ensures Believers(told + Step(st, e).1) == {} <==> Covered(st, told)
  {
    FarewellTellsAll(told, if e.Take? && st.invisible then [] else [TellBcc(Unavailable)], st.a, st.i);
    var left := Believers(told + Step(st, e).1);
    if Covered(st, told) {
      assert forall j :: j !in left;
    }
  }

  /** So after a goodbye in a run without a slip nobody believes the session online. */
  lemma NobodyIsForgotten(uid: Jid, h: seq<Event>, e: Event)
    requires AllProper(uid, h) && NoSlip(uid, h) && Farewell(After(uid, h).0, e)
    ensures Believers(After(uid, h + [e]).1) == {}
  {
    var (st, told) := After(uid, h);
    RunsAreCovered(uid, h);
    FarewellReaches(st, told, e);
    assert (h + [e])[..|h|] == h;
  }

  /** A slip breaks the cover exactly when its addressee believes the session online. */
  lemma SlipForgets(st: State, told: seq<Trace>, e: Event)
    requires Unique(st.a) && Unique(st.i) && Covered(st, told) && Slips(st, e)
    ensures Covered(Step(st, e).0, told + Step(st, e).1) <==> st.queue[0].to.value !in Believers(told)
  {
    var j := st.queue[0].to.value;
    Told(told, Tell(j, st.queue[0].kind));
    WhackMembers(j, st.i);
  }

  /** A session hides from x and comes online with x on its roster; the probe it sends to x
      then takes x off I. */
  function Forgetting(x: Jid, trusted: set<Jid>): seq<Event> {
    [Send(Packet(Some(x), Invisible, None)), Take([], trusted),
     Send(Packet(None, Available, None)), Take([Contact(x, true, false)], trusted), Take([], trusted)]
  }

  function ForgottenTrace(uid: Jid, x: Jid): seq<Trace> {
    [Tell(x, Invisible)] + [TellBcc(Available), Tell(uid, Available)] + [Tell(x, Probe)]
  }

  lemma ForgettingRun(uid: Jid, x: Jid, trusted: set<Jid>)
    requires x != uid
    ensures After(uid, Forgetting(x, trusted))
            == (State([uid], [], false, 0, Some(Available), []), ForgottenTrace(uid, x))
  {
    var take := Take([], trusted);
    var veil, show := Packet(Some(x), Invisible, None), Packet(None, Available, None);
    var s0, s2 := NewSession(uid), State([uid], [x], false, -129, Some(Unavailable), []);
    var s4 := State([uid], [x], false, 0, Some(Available), [Packet(Some(x), Probe, None)]);
    SendStep(s0, veil);
    SendStep(s2, show);
    VeilStep(uid, x, trusted);
    ShowStep(uid, x, trusted);
    SlipStep(uid, x, trusted);
    var t2, t4, t5 := [Tell(x, Invisible)], [TellBcc(Available), Tell(uid, Available)], [Tell(x, Probe)];
    var h: seq<Event> := [];
    h := Extend(uid, h, s0, [], Send(veil), s0.(queue := [veil]), []);
    h := Extend(uid, h, s0.(queue := [veil]), [], take, s2, t2);
    h := Extend(uid, h, s2, t2, Send(show), s2.(queue := [show]), []);
    h := Extend(uid, h, s2.(queue := [show]), t2, Take([Contact(x, true, false)], trusted), s4, t4);
    h := Extend(uid, h, s4, t2 + t4, take, State([uid], [], false, 0, Some(Available), []), t5);
    assert h == Forgetting(x, trusted);
  }

  /** The server slips on its own: whoever is told "invisible" by a new session, is on the
      roster with a subscription in the one direction only, and is probed when the session
      then comes online, is never told that it went away. */
  lemma ServerProbeForgets(uid: Jid, x: Jid, trusted: set<Jid>)
    requires x != uid
    ensures var h := Forgetting(x, trusted) + [Send(Packet(None, Unavailable, None)), Take([], trusted)];
            AllProper(uid, h) && Believers(After(uid, h).1) == {x} && After(uid, h).0.priority == -129
  {
    ForgettingRun(uid, x, trusted);
    var gone := Packet(None, Unavailable, None);
    var s5 := State([uid], [], false, 0, Some(Available), []);
    var h, t := Forgetting(x, trusted), ForgottenTrace(uid, x);
    SendStep(s5, gone);
    h := Extend(uid, h, s5, t, Send(gone), s5.(queue := [gone]), []);
    ProbedBelief(uid, x);
    FarewellReaches(s5.(queue := [gone]), t, Take([], trusted));
    AfterOne(uid, h, Take([], trusted));
    assert h + [Take([], trusted)] == Forgetting(x, trusted) + [Send(gone), Take([], trusted)];
  }

  lemma VeilStep(uid: Jid, x: Jid, trusted: set<Jid>)
    requires x != uid
    ensures Step(NewSession(uid).(queue := [Packet(Some(x), Invisible, None)]), Take([], trusted))
         == (State([uid], [x], false, -129, Some(Unavailable), []), [Tell(x, Invisible)])
  {
    assert [Packet(Some(x), Invisible, None)][1..] == [];
    assert Whack(x, [uid]) == [uid];
  }

  lemma ShowStep(uid: Jid, x: Jid, trusted: set<Jid>)
    ensures Step(State([uid], [x], false, -129, Some(Unavailable), [Packet(None, Available, None)]),
                 Take([Contact(x, true, false)], trusted))
         == (State([uid], [x], false, 0, Some(Available), [Packet(Some(x), Probe, None)]),
             [TellBcc(Available), Tell(uid, Available)])
  {
    assert [Packet(None, Available, None)][1..] == [];
    var roster := [Contact(x, true, false)];
    assert roster[1..] == [];
    assert Populate([uid], roster) == [uid];
    assert [] + Probes(roster) == [Packet(Some(x), Probe, None)];
    assert TellAll([uid], Available) == [Tell(uid, Available)];
    assert [TellBcc(Available)] + [Tell(uid, Available)] == [TellBcc(Available), Tell(uid, Available)];
  }

  lemma SlipStep(uid: Jid, x: Jid, trusted: set<Jid>)
    ensures Step(State([uid], [x], false, 0, Some(Available), [Packet(Some(x), Probe, None)]), Take([], trusted))
         == (State([uid], [], false, 0, Some(Available), []), [Tell(x, Probe)])
  {
    assert [Packet(Some(x), Probe, None)][1..] == [];
    assert Whack(x, [x]) == [];
  }

  lemma SendStep(st: State, p: Packet)
    requires st.queue == []
    ensures Step(st, Send(p)) == (st.(queue := [p]), [])
  {
    assert st.queue + [p] == [p];
  }

  lemma Extend(uid: Jid, h: seq<Event>, st: State, told: seq<Trace>, e: Event, st': State, more: seq<Trace>)
    returns (h': seq<Event>)
    requires After(uid, h) == (st, told) && Step(st, e) == (st', more)
    ensures h' == h + [e] && After(uid, h') == (st', told + more)
    ensures more == [] ==> After(uid, h') == (st', told)
    ensures told == [] ==> After(uid, h') == (st', more)
  {
    h' := h + [e];
    AfterOne(uid, h, e);
    assert told + [] == told && [] + more == more;
  }

  lemma AfterOne(uid: Jid, h: seq<Event>, e: Event)
    ensures After(uid, h + [e]) == (Step(After(uid, h).0, e).0, After(uid, h).1 + Step(After(uid, h).0, e).1)
  {
    assert (h + [e])[..|h|] == h;
  }

  lemma ProbedBelief(uid: Jid, x: Jid)
    ensures Believers(ForgottenTrace(uid, x)) == {x, uid}
  {
    Told([], Tell(x, Invisible));
    Told([Tell(x, Invisible)], TellBcc(Available));
    Told([Tell(x, Invisible)] + [TellBcc(Available)], Tell(uid, Available));
    assert [Tell(x, Invisible)] + [TellBcc(Available), Tell(uid, Available)]
        == ([Tell(x, Invisible)] + [TellBcc(Available)]) + [Tell(uid, Available)];
    assert [] + [Tell(x, Invisible)] == [Tell(x, Invisible)];
    assert Believers([Tell(x, Invisible)]) == {x};
    assert Believers([Tell(x, Invisible)] + [TellBcc(Available)]) == {x};
    Told([Tell(x, Invisible)] + [TellBcc(Available), Tell(uid, Available)], Tell(x, Probe));
  }

  // ---------------------------------------------- blind copies

  lemma {:induction false} TellAllNoBcc(told: seq<Trace>, ids: seq<Jid>, kind: Kind)
    ensures BccBelief(told + TellAll(ids, kind)) == BccBelief(told)
    decreases |ids|
  {
    if ids == [] {
      assert told + TellAll(ids, kind) == told;
    } else {
      Told(told, Tell(ids[0], kind));
      assert told + TellAll(ids, kind) == (told + [Tell(ids[0], kind)]) + TellAll(ids[1..], kind);
      TellAllNoBcc(told + [Tell(ids[0], kind)], ids[1..], kind);
    }
  }

  lemma {:induction false} TellTrustedNoBcc(told: seq<Trace>, ids: seq<Jid>, trusted: set<Jid>)
    ensures BccBelief(told + TellTrusted(ids, trusted, Available)) == BccBelief(told)
    decreases |ids|
  {
    if ids == [] {
      assert told + TellTrusted(ids, trusted, Available) == told;
    } else {
      var told1 := if ids[0] in trusted then told + [Tell(ids[0], Available)] else told;
      Told(told, Tell(ids[0], Available));
      assert told + TellTrusted(ids, trusted, Available) == told1 + TellTrusted(ids[1..], trusted, Available);
      TellTrustedNoBcc(told1, ids[1..], trusted);
    }
  }

  lemma FarewellBcc(told: seq<Trace>, bcc: seq<Trace>, a: seq<Jid>, i: seq<Jid>)
    requires bcc == [] || bcc == [TellBcc(Unavailable)]
    ensures BccBelief(told + (bcc + TellAll(a, Unavailable) + TellAll(i, Unavailable)))
            == (bcc == [] && BccBelief(told))
  {
    var told1 := told + bcc;
    BccTold(told, Unavailable);
    assert bcc == [] ==> told1 == told;
    TellAllNoBcc(told1, a, Unavailable);
    TellAllNoBcc(told1 + TellAll(a, Unavailable), i, Unavailable);
    assert told + (bcc + TellAll(a, Unavailable) + TellAll(i, Unavailable))
        == (told1 + TellAll(a, Unavailable)) + TellAll(i, Unavailable);
  }

  predicate Online(st: State) { st.priority >= -128 && !st.invisible }

  lemma UndirectedBcc(st: State, told: seq<Trace>, p: Packet, roster: seq<Contact>, trusted: set<Jid>)
    requires BccBelief(told) == Online(st)
    ensures var (st', more) := OnUndirected(st, p, roster, trusted); BccBelief(told + more) == Online(st')
  {
    assert told + [] == told;
    if p.kind.Unavailable? && InRange(p) {
      FarewellBcc(told, if st.invisible then [] else [TellBcc(Unavailable)], st.a, st.i);
    } else if p.kind.Available? && InRange(p) {
      if Online(st) {
        TellTrustedNoBcc(told, st.a, trusted);
      } else {
        var a := Populate(st.a, roster);
        BccTold(told, Available);
        TellAllNoBcc(told + [TellBcc(Available)], a, Available);
        assert told + ([TellBcc(Available)] + TellAll(a, Available))
            == (told + [TellBcc(Available)]) + TellAll(a, Available);
      }
    }
  }

  lemma StepBcc(st: State, told: seq<Trace>, e: Event)
    requires BccBelief(told) == Online(st)
    ensures BccBelief(told + Step(st, e).1) == Online(Step(st, e).0)
  {
    assert told + [] == told;
    match e
    case Take(roster, trusted) =>
      if st.queue != [] {
        var p, st1 := st.queue[0], st.(queue := st.queue[1..]);
        if p.to.Some? {
          Told(told, Tell(p.to.value, p.kind));
        } else {
          UndirectedBcc(st1, told, p, roster, trusted);
        }
      }
    case Bounce(from) => Told(told, Bounced(from));
    case End => FarewellBcc(told, [TellBcc(Unavailable)], st.a, st.i);
    case _ =>
  }

  /** In every run, at every time, the blind-copy recipients believe the session available
      exactly when its priority is at least -128 and it is not invisible. */
  lemma {:induction false} BccIsRight(uid: Jid, h: seq<Event>)
    ensures BccBelief(After(uid, h).1) <==> Online(After(uid, h).0)
  {
    if h != [] {
      var (st, told) := After(uid, h[..|h| - 1]);
      BccIsRight(uid, h[..|h| - 1]);
      StepBcc(st, told, h[|h| - 1]);
    }
  }

  // ------------------------------------------- the queue comes to rest

  /** The packet leaves the session offline. */
  predicate GoesOffline(p: Packet) { p.to.None? && p.kind.Unavailable? && InRange(p) }

  /** How many turns of the session thread a queued packet can cause, itself included, with
      rosters of at most r contacts; `off` says that the session is offline by then. */
  function Turns(p: Packet, off: bool, r: nat): nat {
    if p.to.Some? then 1
    else if p.kind.Invisible? then if off then 1 + r else 3 + r
    else if p.kind.Available? then 1 + r else 1
  }

  function QueueTurns(q: seq<Packet>, off: bool, r: nat): nat {
    if q == [] then 0 else Turns(q[0], off, r) + QueueTurns(q[1..], GoesOffline(q[0]), r)
  }

  lemma {:induction false} QueueTurnsConcat(q: seq<Packet>, more: seq<Packet>, off: bool, r: nat)
    requires forall a, b :: QueueTurns(more, a, r) == QueueTurns(more, b, r)
    ensures QueueTurns(q + more, off, r) == QueueTurns(q, off, r) + QueueTurns(more, true, r)
  {
    if q == [] {
      assert q + more == more;
    } else {
      assert (q + more)[1..] == q[1..] + more;
      QueueTurnsConcat(q[1..], more, GoesOffline(q[0]), r);
    }
  }

  lemma OfflineIsCheaper(q: seq<Packet>, r: nat)
    ensures QueueTurns(q, true, r) <= QueueTurns(q, false, r)
  {
  }

  lemma {:induction false} ProbesTurns(roster: seq<Contact>, off: bool, r: nat)
    ensures QueueTurns(Probes(roster), off, r) == |Probes(roster)| <= |roster|
  {
    if roster != [] {
      ProbesTurns(roster[1..], false, r);
      if roster[0].subTo {
        assert Probes(roster)[1..] == Probes(roster[1..]);
      } else {
        assert Probes(roster) == Probes(roster[1..]);
        ProbesTurns(roster[1..], off, r);
      }
    }
  }

  function StateTurns(st: State, r: nat): nat { QueueTurns(st.queue, st.priority < -128, r) }

  /** A turn uses up at least one of the turns that were still possible: an invisible
      packet that is put back comes behind its own unavailable and is not put back again. */
  lemma TakeUsesTurns(st: State, roster: seq<Contact>, trusted: set<Jid>, r: nat)
    requires st.queue != [] && |roster| <= r
    ensures StateTurns(Step(st, Take(roster, trusted)).0, r) < StateTurns(st, r)
  {
    var p, rest := st.queue[0], st.queue[1..];
    var st' := Step(st, Take(roster, trusted)).0;
    OfflineIsCheaper(rest, r);
    assert rest + [] == rest;
    if p.to.None? && InRange(p) {
      if p.kind.Invisible? && st.priority >= -128 {
        var back := [Packet(None, Unavailable, None), p];
        assert back[1..] == [p] && [p][1..] == [];
        assert QueueTurns([p], true, r) == 1 + r && GoesOffline(back[0]);
        assert forall off :: QueueTurns(back, off, r) == 1 + (1 + r);
        QueueTurnsConcat(rest, back, st'.priority < -128, r);
      } else if p.kind.Invisible? || p.kind.Available? {
        forall off
          ensures QueueTurns(Probes(roster), off, r) == |Probes(roster)| <= |roster|
        {
          ProbesTurns(roster, off, r);
        }
        QueueTurnsConcat(rest, Probes(roster), st'.priority < -128, r);
      }
    }
  }

  predicate OnlyTakes(st: State, h: seq<Event>, r: nat)
    decreases |h|
  {
    h == [] || (h[0].Take? && st.queue != [] && |h[0].roster| <= r && OnlyTakes(Step(st, h[0]).0, h[1..], r))
  }

  function Rest(st: State, h: seq<Event>): State
    decreases |h|
  {
    if h == [] then st else Rest(Step(st, h[0]).0, h[1..])
  }

  /** Without new input the session thread makes a bounded number of turns. */
  lemma {:induction false} QueueComesToRest(st: State, h: seq<Event>, r: nat)
    requires OnlyTakes(st, h, r)
    ensures |h| + StateTurns(Rest(st, h), r) <= StateTurns(st, r)
    decreases |h|
  {
    if h != [] {
      TakeUsesTurns(st, h[0].roster, h[0].trusted, r);
      QueueComesToRest(Step(st, h[0]).0, h[1..], r);
    }
  }

  // ------------------------------------------------- the mutable session

  /** struct modpres, together with the fields of the session that it reads and writes. */
  class Session {
    const uid: Jid
    var a: seq<Jid>
    var i: seq<Jid>
    var invisible: bool
    var priority: int
    var stored: Option<Kind>
    var queue: seq<Packet>

    constructor (uid: Jid)
      ensures this.uid == uid && Fields() == NewSession(uid)
    {
      this.uid := uid;
      a, i, invisible, priority, stored, queue := [uid], [], false, -129, Some(Unavailable), [];
    }

    function Fields(): State
      reads this
    {
      State(a, i, invisible, priority, stored, queue)
    }

    /** _mod_presence_search. */
    method Search(id: Jid, ids: seq<Jid>) returns (found: bool)
      ensures found <==> id in ids
    {
      var k := 0;
      while k < |ids|
        invariant k <= |ids| && id !in ids[..k]
      {
        if ids[k] == id { return true; }
        k := k + 1;
      }
      return false;
    }

    /** _mod_presence_whack. */
    method WhackList(id: Jid, ids: seq<Jid>) returns (r: seq<Jid>)
      ensures r == Whack(id, ids)
    {
      var k := 0;
      while k < |ids| && ids[k] != id
        invariant k <= |ids| && ids[..k] + Whack(id, ids[k..]) == Whack(id, ids)
      {
        assert ids[k..][1..] == ids[k + 1..] && ids[..k + 1] == ids[..k] + [ids[k]];
        k := k + 1;
      }
      if k < |ids| {
        assert ids[k..][1..] == ids[k + 1..];
        r := ids[..k] + ids[k + 1..];
      } else {
        assert ids[..k] == ids && ids[k..] == [];
        r := ids;
      }
    }

    /** _mod_presence_broadcast without an intersection. */
    method Broadcast(notify: seq<Jid>, kind: Kind) returns (told: seq<Trace>)
      ensures told == TellAll(notify, kind)
    {
      told := [];
      var k := 0;
      while k < |notify|
        invariant k <= |notify| && told + TellAll(notify[k..], kind) == TellAll(notify, kind)
      {
        assert notify[k..][1..] == notify[k + 1..];
        told := told + [Tell(notify[k], kind)];
        k := k + 1;
      }
      assert notify[k..] == [] && told + [] == told;
    }

    /** _mod_presence_broadcast_trusted. */
    method BroadcastTrusted(notify: seq<Jid>, trusted: set<Jid>, kind: Kind) returns (told: seq<Trace>)
      ensures told == TellTrusted(notify, trusted, kind)
    {
      told := [];
      var k := 0;
      while k < |notify|
        invariant k <= |notify| && told + TellTrusted(notify[k..], trusted, kind) == TellTrusted(notify, trusted, kind)
      {
        assert notify[k..][1..] == notify[k + 1..];
        if notify[k] in trusted { told := told + [Tell(notify[k], kind)]; }
        k := k + 1;
      }
      assert notify[k..] == [] && told + [] == told;
    }

    /** js_trust_populate_presence; A is left alone when `notify` is false. */
    method PopulateFrom(roster: seq<Contact>, notify: bool)
      modifies this`a, this`queue
      ensures a == (if notify then Populate(old(a), roster) else old(a)) && queue == old(queue) + Probes(roster)
    {
      var k := 0;
      while k < |roster|
        invariant k <= |roster|
        invariant if notify then Populate(a, roster[k..]) == Populate(old(a), roster) else a == old(a)
        invariant queue + Probes(roster[k..]) == old(queue) + Probes(roster)
      {
        assert roster[k..][1..] == roster[k + 1..];
        var c := roster[k];
        if c.subTo { queue := queue + [Packet(Some(c.jid), Probe, None)]; }
        if c.subFrom && notify { a := Append(a, c.jid); }
        k := k + 1;
      }
      assert roster[k..] == [] && queue + [] == queue;
    }

    /** mod_presence_avails. */
    method Avails(j: Jid, kind: Kind) returns (told: seq<Trace>)
      modifies this`a, this`i
      ensures (Fields(), told) == OnDirected(old(Fields()), j, kind)
    {
      told := [Tell(j, kind)];
      if kind == Invisible {
        if i == [] { i := [j]; } else { i := Append(i, j); }
        a := WhackList(j, a);
        return;
      }
      i := WhackList(j, i);
      if kind == Available { a := Append(a, j); }
      if kind == Unavailable { a := WhackList(j, a); }
    }

    /** mod_presence_out on an undirected packet. */
    method Out(p: Packet, roster: seq<Contact>, trusted: set<Jid>) returns (told: seq<Trace>)
      requires a != []
      modifies this
      ensures (Fields(), told) == OnUndirected(old(Fields()), p, roster, trusted)
    {
      told := [];
      if p.kind == Probe || p.kind == Error { return; }
      var oldpri := priority;
      var newpri := if p.priority.None? then 0 else p.priority.value;
      if newpri < -128 || newpri > 127 { return; }
      if p.kind == Invisible {
        if oldpri >= -128 {
          queue := queue + [Packet(None, Unavailable, None), p];
          return;
        }
        invisible := true;
        PopulateFrom(roster, false);
        priority := newpri;
        return;
      }
      stored := Some(p.kind);
      priority := if p.kind == Available then newpri else -129;
      if priority < -128 {
        if !invisible { told := [TellBcc(Unavailable)]; }
        var toA := Broadcast(a, Unavailable);
        var toI := Broadcast(i, Unavailable);
        told := told + toA + toI;
        invisible, a, i := false, [a[0]], [];
        return;
      }
      if oldpri >= -128 && !invisible {
        told := BroadcastTrusted(a, trusted, Available);
        return;
      }
      invisible := false;
      PopulateFrom(roster, true);
      var toA := Broadcast(a, Available);
      told := [TellBcc(Available)] + toA;
    }

    /** mod_presence_in on a probe. */
    method InProbe(from: Jid, trusts: bool)
      modifies this`queue
      ensures Fields() == OnProbe(old(Fields()), from, trusts)
    {
      if stored.None? { return; }
      var hidden := Search(from, i);
      var known := Search(from, a);
      if !invisible && trusts && !hidden {
        queue := queue + [Packet(Some(from), stored.value, None)];
      } else if invisible && trusts && known {
        queue := queue + [Packet(Some(from), Available, None)];
      }
    }

    /** mod_presence_in on an error. */
    method InError(from: Jid) returns (told: seq<Trace>)
      modifies this`a
      ensures (Fields(), told) == Step(old(Fields()), Bounce(from))
    {
      a := WhackList(from, a);
      told := [Bounced(from)];
    }

    /** mod_presence_avails_end, after the session manager has set the presence. */
    method AvailsEnd() returns (told: seq<Trace>)
      modifies this
      ensures (Fields(), told) == OnEnd(old(Fields()))
    {
      var toA := Broadcast(a, Unavailable);
      var toI := Broadcast(i, Unavailable);
      told := [TellBcc(Unavailable)] + toA + toI;
      stored, priority, queue := None, -129, [];
    }
  }
}
