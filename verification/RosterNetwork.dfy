/** Any number of users running the handlers of module Roster against each other.
    Packets wait in session queues (js_session_from) and travel over one FIFO
    channel for each ordered pair of users (js_deliver). */
module RosterNetwork {
  import opened Options
  import opened Roster

  /** What a session queue holds: a subscription packet or a roster set. */
  datatype Act = Packet(to: Jid, kind: Kind, status: Option<string>) | Update(incoming: seq<SetItem>)

  datatype Queued = Queued(user: Jid, session: nat, act: Act)

  datatype InFlight = InFlight(from: Jid, to: Jid, kind: Kind, status: Option<string>)

  /** `pending` interleaves all session queues and `flight` all channels; each queue
      and each channel is read in its own order. */
  datatype World = World(rosters: map<Jid, Items>, pending: seq<Queued>, flight: seq<InFlight>)

  datatype Step =
    | Send(user: Jid, session: nat, act: Act)   // the client of a session writes something
    | Run(i: nat)                               // a session thread takes its next packet
    | Deliver(i: nat)                           // a channel hands over its next packet
    | End(user: Jid, session: nat)              // a session ends; what it had queued is dropped

  function ItemsOf(w: World, user: Jid): Items {
    if user in w.rosters then w.rosters[user] else map[]
  }

  predicate HasTo(w: World, user: Jid, contact: Jid) { To(ItemsOf(w, user), contact) }

  predicate HasFrom(w: World, user: Jid, contact: Jid) { From(ItemsOf(w, user), contact) }

  predicate FirstOfSession(pending: seq<Queued>, i: nat) {
    i < |pending| &&
    forall j :: 0 <= j < i ==> !(pending[j].user == pending[i].user && pending[j].session == pending[i].session)
  }

  predicate FirstOfChannel(flight: seq<InFlight>, i: nat) {
    i < |flight| &&
    forall j :: 0 <= j < i ==> !(flight[j].from == flight[i].from && flight[j].to == flight[i].to)
  }

  predicate Enabled(w: World, step: Step) {
    match step
    case Send(user, session, act) => user in w.rosters
    case Run(i) => FirstOfSession(w.pending, i) && w.pending[i].user in w.rosters
    case Deliver(i) => FirstOfChannel(w.flight, i)
    case End(user, session) => true
  }

  function Without<T>(s: seq<T>, i: nat): seq<T>
    requires i < |s|
  {
    s[..i] + s[i + 1..]
  }

  /** js_session_from, once for each packet. */
  function Requeue(user: Jid, session: nat, sent: seq<(Jid, Kind)>): seq<Queued> {
    if sent == [] then []
    else [Queued(user, session, Packet(sent[0].0, sent[0].1, None))] + Requeue(user, session, sent[1..])
  }

  function DropSession(pending: seq<Queued>, user: Jid, session: nat): seq<Queued> {
    if pending == [] then []
    else
      (if pending[0].user == user && pending[0].session == session then [] else [pending[0]])
      + DropSession(pending[1..], user, session)
  }

  function RunAct(max: int, w: World, q: Queued, pending: seq<Queued>): World
    requires q.user in w.rosters
  {
    var items := w.rosters[q.user];
    match q.act
    case Packet(to, kind, status) =>
      var r := OutS10n(q.user, max, items, to, kind);
      World(w.rosters[q.user := r.items], pending,
            if r.pass then w.flight + [InFlight(q.user, to, kind, status)] else w.flight)
    case Update(incoming) =>
      World(w.rosters[q.user := SetSaved(q.user, max, items, incoming)],
            pending + Requeue(q.user, q.session, SetSent(q.user, max, items, incoming)), w.flight)
  }

  /** A packet to someone without an account here is passed over by this module. */
  function DeliverOne(w: World, f: InFlight, flight: seq<InFlight>): World {
    if f.to !in w.rosters then w.(flight := flight)
    else
      var r := InS10n(f.to, w.rosters[f.to], f.from, f.kind, f.status);
      World(w.rosters[f.to := r.items], w.pending,
            if r.reply.Some? then flight + [InFlight(f.to, f.from, r.reply.value, None)] else flight)
  }

  function Apply(max: int, w: World, step: Step): World
    requires Enabled(w, step)
  {
    match step
    case Send(user, session, act) => w.(pending := w.pending + [Queued(user, session, act)])
    case Run(i) => RunAct(max, w, w.pending[i], Without(w.pending, i))
    case Deliver(i) => DeliverOne(w, w.flight[i], Without(w.flight, i))
    case End(user, session) => w.(pending := DropSession(w.pending, user, session))
  }

  /** The steps, in order, are possible from `w`. */
  predicate Possible(max: int, w: World, steps: seq<Step>)
    decreases |steps|
  {
    steps == [] || (Enabled(w, steps[0]) && Possible(max, Apply(max, w, steps[0]), steps[1..]))
  }

  function After(max: int, w: World, steps: seq<Step>): World
    requires Possible(max, w, steps)
    decreases |steps|
  {
    if steps == [] then w else After(max, Apply(max, w, steps[0]), steps[1..])
  }

  /** Accounts with empty rosters and nothing on its way. */
  predicate Initial(w: World) {
    (forall u :: u in w.rosters ==> w.rosters[u] == map[]) && w.pending == [] && w.flight == []
  }

  predicate Quiet(w: World) { w.pending == [] && w.flight == [] }

  // -------------------------------------------- who may see whose presence

  /** The last subscribed or unsubscribed on its way from one user to another. */
  function LastVerdict(flight: seq<InFlight>, from: Jid, to: Jid): Option<Kind> {
    if flight == [] then None
    else
      var f := flight[|flight| - 1];
      if f.from == from && f.to == to && (f.kind.Subscribed? || f.kind.Unsubscribed?) then Some(f.kind)
      else LastVerdict(flight[..|flight| - 1], from, to)
  }

  predicate IsRevocation(q: Queued, user: Jid, contact: Jid) {
    q.user == user && q.act.Packet? && q.act.to == contact && q.act.kind.Unsubscribed?
  }

  /** A session of `user` still has to send an unsubscribed to `contact`. */
  predicate RevocationQueued(pending: seq<Queued>, user: Jid, contact: Jid) {
    exists q :: q in pending && IsRevocation(q, user, contact)
  }

  /** If `user` does not grant its presence to `contact`, the contact does not believe
      it is granted, or is about to be told otherwise. */
  predicate GrantSafe(w: World, user: Jid, contact: Jid) {
    || HasFrom(w, user, contact)
    || RevocationQueued(w.pending, user, contact)
    || LastVerdict(w.flight, user, contact) == Some(Unsubscribed)
    || (LastVerdict(w.flight, user, contact) == None && !HasTo(w, contact, user))
  }

  ghost predicate AllSafe(w: World) {
    forall user, contact :: user != contact ==> GrantSafe(w, user, contact)
  }

  predicate AllRostersConsistent(w: World) {
    forall u :: u in w.rosters ==> AllConsistent(w.rosters[u])
  }

  /** When session s of user ends, it takes the last notice with it that would have told the
      contact that it is no longer granted anything: the contact still believes it or is
      about to, and no other session has an unsubscribed for it. */
  predicate LosesLast(w: World, user: Jid, s: nat, contact: Jid) {
    && !HasFrom(w, user, contact)
    && LastVerdict(w.flight, user, contact) != Some(Unsubscribed)
    && (LastVerdict(w.flight, user, contact).Some? || HasTo(w, contact, user))
    && forall q :: q in w.pending && IsRevocation(q, user, contact) ==> q.session == s
  }

  /** An unsubscribed to somebody else that goes with the session. */
  predicate IsDropped(q: Queued, user: Jid, session: nat) {
    && q.user == user && q.session == session
    && q.act.Packet? && q.act.kind.Unsubscribed? && q.act.to != user
  }

  /** The one step that can break the promise, and exactly when it does: a session that
      ends with an unsubscribed in its queue that is such a last notice. */
  predicate EndsCleanly(w: World, step: Step) {
    step.End? ==>
      forall q :: q in w.pending && IsDropped(q, step.user, step.session) ==>
                    !LosesLast(w, step.user, step.session, q.act.to)
  }

  predicate CleanRun(max: int, w: World, steps: seq<Step>)
    requires Possible(max, w, steps)
    decreases |steps|
  {
    steps == [] || (EndsCleanly(w, steps[0]) && CleanRun(max, Apply(max, w, steps[0]), steps[1..]))
  }

  // ---- lemmas about the queues

  lemma {:induction false} LastVerdictConcat(a: seq<InFlight>, b: seq<InFlight>, from: Jid, to: Jid)
    ensures LastVerdict(a + b, from, to)
         == if LastVerdict(b, from, to).Some? then LastVerdict(b, from, to) else LastVerdict(a, from, to)
  {
    if b == [] {
      assert a + b == a;
    } else {
      LastVerdictConcat(a, b[..|b| - 1], from, to);
      assert (a + b)[..|a + b| - 1] == a + b[..|b| - 1];
    }
  }

  lemma {:induction false} NoVerdictBefore(s: seq<InFlight>, from: Jid, to: Jid)
    requires forall j :: 0 <= j < |s| ==> !(s[j].from == from && s[j].to == to)
    ensures LastVerdict(s, from, to) == None
  {
    if s != [] {
      NoVerdictBefore(s[..|s| - 1], from, to);
    }
  }

  lemma AppendVerdict(flight: seq<InFlight>, f: InFlight, from: Jid, to: Jid)
    ensures LastVerdict(flight + [f], from, to)
         == if f.from == from && f.to == to && (f.kind.Subscribed? || f.kind.Unsubscribed?) then Some(f.kind)
            else LastVerdict(flight, from, to)
  {
    assert (flight + [f])[..|flight|] == flight;
  }

  /** Taking the first packet off a channel changes the last verdict on that channel
      only when it was the only one, and on no other channel. */
  lemma TakeFirst(flight: seq<InFlight>, i: nat, from: Jid, to: Jid)
    requires FirstOfChannel(flight, i)
    ensures LastVerdict(Without(flight, i), from, to) == LastVerdict(flight, from, to)
         || (flight[i].from == from && flight[i].to == to
             && LastVerdict(Without(flight, i), from, to) == None
             && LastVerdict(flight, from, to) == Some(flight[i].kind))
    ensures flight[i].from == from && flight[i].to == to && (flight[i].kind.Subscribed? || flight[i].kind.Unsubscribed?)
        ==> LastVerdict(flight, from, to).Some?
  {
    var f, a, b := flight[i], flight[..i], flight[i + 1..];
    assert flight == a + [f] + b;
    LastVerdictConcat(a + [f], b, from, to);
    AppendVerdict(a, f, from, to);
    LastVerdictConcat(a, b, from, to);
    if f.from == from && f.to == to {
      NoVerdictBefore(a, from, to);
    }
  }

  lemma {:induction false} RequeueMembers(user: Jid, session: nat, sent: seq<(Jid, Kind)>)
    ensures forall p :: p in sent ==> Queued(user, session, Packet(p.0, p.1, None)) in Requeue(user, session, sent)
  {
    if sent != [] {
      RequeueMembers(user, session, sent[1..]);
      assert sent == [sent[0]] + sent[1..];
    }
  }

  lemma {:induction false} DropSessionMembers(pending: seq<Queued>, user: Jid, session: nat)
    ensures forall q :: q in DropSession(pending, user, session) <==>
                        q in pending && !(q.user == user && q.session == session)
  {
    if pending != [] {
      DropSessionMembers(pending[1..], user, session);
      assert pending == [pending[0]] + pending[1..];
    }
  }

  // ---- one handler call

  /** A roster set takes a grant away only together with an unsubscribed to that contact. */
  lemma {:induction false} SetAllRevokes(self: Jid, max: int, st: SetState, incoming: seq<SetItem>, contact: Jid)
    ensures var r := SetAll(self, max, st, incoming);
            && (forall p :: p in st.sent ==> p in r.sent)
            && (From(st.items, contact) && !From(r.items, contact) ==> (contact, Unsubscribed) in r.sent)
            && (To(r.items, contact) ==> To(st.items, contact))
            && (From(r.items, contact) ==> From(st.items, contact))
    decreases |incoming|
  {
    if incoming != [] && !st.full {
      SetAllRevokes(self, max, SetOne(self, max, st, incoming[0]), incoming[1..], contact);
    }
  }

  lemma {:induction false} SetAllConsistent(self: Jid, max: int, st: SetState, incoming: seq<SetItem>)
    requires AllConsistent(st.items)
    ensures AllConsistent(SetAll(self, max, st, incoming).items)
    decreases |incoming|
  {
    if incoming != [] && !st.full {
      SetAllConsistent(self, max, SetOne(self, max, st, incoming[0]), incoming[1..]);
    }
  }

  lemma WithoutMembers<T>(s: seq<T>, i: nat)
    requires i < |s|
    ensures forall x :: x in s && x != s[i] ==> x in Without(s, i)
  {
    forall x | x in s && x != s[i]
      ensures x in Without(s, i)
    {
      var j :| 0 <= j < |s| && s[j] == x;
      assert j < i ==> Without(s, i)[j] == x;
      assert j > i ==> Without(s, i)[j - 1] == x;
    }
  }

  /** What sending a packet does to the two directions of each item. */
  lemma OutDirections(self: Jid, max: int, items: Items, to: Jid, kind: Kind, contact: Jid)
    ensures var r := OutS10n(self, max, items, to, kind);
            && (To(r.items, contact) ==> To(items, contact))
            && (From(r.items, contact) ==
                if contact == to != self && kind.Subscribed? then true
                else if contact == to != self && kind.Unsubscribed? then false
                else From(items, contact))
            && (kind.Unsubscribed? ==> r.pass)
  {
    if contact == to {
      OutToAddressee(self, max, items, to, kind);
    } else {
      OutElsewhere(self, max, items, to, kind, contact);
    }
  }

  lemma OutToAddressee(self: Jid, max: int, items: Items, to: Jid, kind: Kind)
    ensures var r := OutS10n(self, max, items, to, kind);
            && (To(r.items, to) ==> To(items, to))
            && (From(r.items, to) ==
                if to != self && kind.Subscribed? then true
                else if to != self && kind.Unsubscribed? then false
                else From(items, to))
  {
  }

  lemma OutElsewhere(self: Jid, max: int, items: Items, to: Jid, kind: Kind, contact: Jid)
    requires contact != to
    ensures ItemOf(OutS10n(self, max, items, to, kind).items, contact) == ItemOf(items, contact)
  {
  }

  /** What receiving a packet does to the two directions of each item. */
  lemma InDirections(self: Jid, items: Items, from: Jid, kind: Kind, status: Option<string>, contact: Jid)
    ensures var r := InS10n(self, items, from, kind, status);
            && (To(r.items, contact) ==> To(items, contact) || (contact == from && kind.Subscribed?))
            && (contact == from != self && kind.Unsubscribed? ==> !To(r.items, contact))
            && (From(r.items, contact) ==
                if contact == from != self && kind.Unsubscribe? then false else From(items, contact))
            && (r.reply == Some(Unsubscribed) <==> from != self && kind.Unsubscribe?)
            && (r.reply == Some(Subscribed) <==> from != self && kind.Subscribe? && From(items, from))
            && (r.reply.Some? ==> r.reply.value.Subscribed? || r.reply.value.Unsubscribed?)
  {
  }

  lemma RevocationStays(pending: seq<Queued>, pending': seq<Queued>, user: Jid, contact: Jid)
    requires RevocationQueued(pending, user, contact)
    requires forall q :: q in pending && IsRevocation(q, user, contact) ==> q in pending'
    ensures RevocationQueued(pending', user, contact)
  {
    var q :| q in pending && IsRevocation(q, user, contact);
    assert q in pending';
  }

  lemma RunPacketKeepsSafe(max: int, w: World, i: nat, user: Jid, contact: Jid)
    requires Enabled(w, Run(i)) && w.pending[i].act.Packet?
    requires user != contact && GrantSafe(w, user, contact)
    ensures GrantSafe(Apply(max, w, Run(i)), user, contact)
  {
    var q := w.pending[i];
    var Packet(to, kind, status) := q.act;
    OutDirections(q.user, max, w.rosters[q.user], to, kind, contact);
    OutDirections(q.user, max, w.rosters[q.user], to, kind, user);
    AppendVerdict(w.flight, InFlight(q.user, to, kind, status), user, contact);
    WithoutMembers(w.pending, i);
    if RevocationQueued(w.pending, user, contact) && !IsRevocation(q, user, contact) {
      RevocationStays(w.pending, Without(w.pending, i), user, contact);
    }
  }

  lemma RunUpdateKeepsSafe(max: int, w: World, i: nat, user: Jid, contact: Jid)
    requires Enabled(w, Run(i)) && w.pending[i].act.Update?
    requires user != contact && GrantSafe(w, user, contact)
    ensures GrantSafe(Apply(max, w, Run(i)), user, contact)
  {
    var q := w.pending[i];
    var items := w.rosters[q.user];
    var incoming := q.act.incoming;
    var w' := Apply(max, w, Run(i));
    SetAllRevokes(q.user, max, SetStart(items), incoming, contact);
    SetAllRevokes(q.user, max, SetStart(items), incoming, user);
    RequeueMembers(q.user, q.session, SetSent(q.user, max, items, incoming));
    WithoutMembers(w.pending, i);
    if RevocationQueued(w.pending, user, contact) {
      RevocationStays(w.pending, w'.pending, user, contact);
    } else if HasFrom(w, user, contact) && !HasFrom(w', user, contact) {
      var r := Queued(user, q.session, Packet(contact, Unsubscribed, None));
      assert r in w'.pending && IsRevocation(r, user, contact);
    }
  }

  lemma DeliverKeepsSafe(max: int, w: World, i: nat, user: Jid, contact: Jid)
    requires Enabled(w, Deliver(i)) && user != contact && GrantSafe(w, user, contact)
    ensures GrantSafe(Apply(max, w, Deliver(i)), user, contact)
  {
    var f := w.flight[i];
    var rest := Without(w.flight, i);
    TakeFirst(w.flight, i, user, contact);
    if f.to in w.rosters {
      InDirections(f.to, w.rosters[f.to], f.from, f.kind, f.status, contact);
      InDirections(f.to, w.rosters[f.to], f.from, f.kind, f.status, user);
      var r := InS10n(f.to, w.rosters[f.to], f.from, f.kind, f.status);
      if r.reply.Some? {
        AppendVerdict(rest, InFlight(f.to, f.from, r.reply.value, None), user, contact);
      }
    }
  }

  /** What is left of the promise to one contact when a session ends. */
  lemma EndKeepsSafe(max: int, w: World, u: Jid, s: nat, user: Jid, contact: Jid)
    requires user != contact && GrantSafe(w, user, contact)
    ensures GrantSafe(Apply(max, w, End(u, s)), user, contact) <==>
            || HasFrom(w, user, contact)
            || LastVerdict(w.flight, user, contact) == Some(Unsubscribed)
            || (LastVerdict(w.flight, user, contact) == None && !HasTo(w, contact, user))
            || exists q :: q in w.pending && IsRevocation(q, user, contact) && !(q.user == u && q.session == s)
    ensures GrantSafe(Apply(max, w, End(u, s)), user, contact) || (user == u && LosesLast(w, u, s, contact))
    ensures user == u && LosesLast(w, u, s, contact) ==> !GrantSafe(Apply(max, w, End(u, s)), user, contact)
  {
    DropSessionMembers(w.pending, u, s);
  }

  lemma StepKeepsSafe(max: int, w: World, step: Step, user: Jid, contact: Jid)
    requires Enabled(w, step) && EndsCleanly(w, step)
    requires user != contact && GrantSafe(w, user, contact)
    ensures GrantSafe(Apply(max, w, step), user, contact)
  {
    match step
    case Send(u, s, act) =>
    case Run(i) =>
      if w.pending[i].act.Packet? {
        RunPacketKeepsSafe(max, w, i, user, contact);
      } else {
        RunUpdateKeepsSafe(max, w, i, user, contact);
      }
    case Deliver(i) => DeliverKeepsSafe(max, w, i, user, contact);
    case End(u, s) => CleanEndKeepsSafe(max, w, u, s, user, contact);
  }

  lemma CleanEndKeepsSafe(max: int, w: World, u: Jid, s: nat, user: Jid, contact: Jid)
    requires EndsCleanly(w, End(u, s)) && user != contact && GrantSafe(w, user, contact)
    ensures GrantSafe(Apply(max, w, End(u, s)), user, contact)
  {
    EndKeepsSafe(max, w, u, s, user, contact);
  }

  /** A step keeps every pair safe if and only if it is clean. */
  lemma CleanStepsAreExact(max: int, w: World, step: Step)
    requires AllSafe(w) && Enabled(w, step)
    ensures AllSafe(Apply(max, w, step)) <==> EndsCleanly(w, step)
  {
    if EndsCleanly(w, step) {
      forall user, contact | user != contact
        ensures GrantSafe(Apply(max, w, step), user, contact)
      {
        StepKeepsSafe(max, w, step, user, contact);
      }
    } else {
      var q :| q in w.pending && IsDropped(q, step.user, step.session)
               && LosesLast(w, step.user, step.session, q.act.to);
      EndKeepsSafe(max, w, step.user, step.session, step.user, q.act.to);
    }
  }

  // ---- whole runs

  /** Every state that the steps go through is safe. */
  ghost predicate SafeAlong(max: int, w: World, steps: seq<Step>)
    requires Possible(max, w, steps)
    decreases |steps|
  {
    AllSafe(w) && (steps == [] || SafeAlong(max, Apply(max, w, steps[0]), steps[1..]))
  }

  /** Clean runs are exactly those that are safe all the way. */
  lemma {:induction false} CleanRunsAreExact(max: int, w: World, steps: seq<Step>)
    requires AllSafe(w) && Possible(max, w, steps)
    ensures SafeAlong(max, w, steps) <==> CleanRun(max, w, steps)
    decreases |steps|
  {
    if steps != [] {
      var w' := Apply(max, w, steps[0]);
      CleanStepsAreExact(max, w, steps[0]);
      if EndsCleanly(w, steps[0]) {
        CleanRunsAreExact(max, w', steps[1..]);
      }
    }
  }

  lemma {:induction false} RunIsSafe(max: int, w: World, steps: seq<Step>)
    requires AllSafe(w) && Possible(max, w, steps) && CleanRun(max, w, steps)
    ensures AllSafe(After(max, w, steps))
    decreases |steps|
  {
    if steps != [] {
      CleanStepsAreExact(max, w, steps[0]);
      RunIsSafe(max, Apply(max, w, steps[0]), steps[1..]);
    }
  }

  lemma OutConsistent(self: Jid, max: int, items: Items, to: Jid, kind: Kind)
    requires AllConsistent(items)
    ensures AllConsistent(OutS10n(self, max, items, to, kind).items)
  {
  }

  lemma InConsistent(self: Jid, items: Items, from: Jid, kind: Kind, status: Option<string>)
    requires AllConsistent(items)
    ensures AllConsistent(InS10n(self, items, from, kind, status).items)
  {
  }

  lemma StepIsConsistent(max: int, w: World, step: Step)
    requires AllRostersConsistent(w) && Enabled(w, step)
    ensures AllRostersConsistent(Apply(max, w, step))
  {
    if step.Run? {
      var q := w.pending[step.i];
      match q.act
      case Packet(to, kind, _) => OutConsistent(q.user, max, w.rosters[q.user], to, kind);
      case Update(incoming) => SetAllConsistent(q.user, max, SetStart(w.rosters[q.user]), incoming);
    } else if step.Deliver? {
      var f := w.flight[step.i];
      if f.to in w.rosters { InConsistent(f.to, w.rosters[f.to], f.from, f.kind, f.status); }
    }
  }

  lemma {:induction false} RunIsConsistent(max: int, w: World, steps: seq<Step>)
    requires AllRostersConsistent(w) && Possible(max, w, steps)
    ensures AllRostersConsistent(After(max, w, steps))
    decreases |steps|
  {
    if steps != [] {
      StepIsConsistent(max, w, steps[0]);
      RunIsConsistent(max, Apply(max, w, steps[0]), steps[1..]);
    }
  }

  /** From empty rosters, after any run in which no session ended on a last unsent
      unsubscribed: once nothing is on its way, whoever believes to be subscribed is.
      Stated for the busy network too, through GrantSafe. */
  lemma GrantsAgree(max: int, w: World, steps: seq<Step>)
    requires Initial(w) && Possible(max, w, steps) && CleanRun(max, w, steps)
    ensures var w' := After(max, w, steps);
            && AllSafe(w') && AllRostersConsistent(w')
            && (Quiet(w') ==> forall user, contact ::
                  user != contact && HasTo(w', contact, user) ==> HasFrom(w', user, contact))
  {
    RunIsSafe(max, w, steps);
    RunIsConsistent(max, w, steps);
    var w' := After(max, w, steps);
    if Quiet(w') {
      forall user, contact | user != contact && HasTo(w', contact, user)
        ensures HasFrom(w', user, contact)
      {
        assert GrantSafe(w', user, contact);
      }
    }
  }

  // ------------------------------------------------- automatic replies drain

  function ActWeight(act: Act): nat {
    match act
    case Packet(_, _, _) => 3
    case Update(incoming) => 1 + 6 * |incoming|
  }

  function PendingWeight(s: seq<Queued>): nat {
    if s == [] then 0 else ActWeight(s[0].act) + PendingWeight(s[1..])
  }

  /** A request may be answered automatically, a verdict never is. */
  function FlightWeight(s: seq<InFlight>): nat {
    if s == [] then 0
    else (if s[0].kind.Subscribe? || s[0].kind.Unsubscribe? then 2 else 1) + FlightWeight(s[1..])
  }

  function Weight(w: World): nat { PendingWeight(w.pending) + FlightWeight(w.flight) }

  predicate Internal(step: Step) { step.Run? || step.Deliver? }

  predicate AccountsQueued(w: World) {
    forall q :: q in w.pending ==> q.user in w.rosters
  }

  lemma {:induction false} PendingConcat(a: seq<Queued>, b: seq<Queued>)
    ensures PendingWeight(a + b) == PendingWeight(a) + PendingWeight(b)
  {
    if a == [] {
      assert a + b == b;
    } else {
      PendingConcat(a[1..], b);
      assert (a + b)[1..] == a[1..] + b;
    }
  }

  lemma {:induction false} FlightConcat(a: seq<InFlight>, b: seq<InFlight>)
    ensures FlightWeight(a + b) == FlightWeight(a) + FlightWeight(b)
  {
    if a == [] {
      assert a + b == b;
    } else {
      FlightConcat(a[1..], b);
      assert (a + b)[1..] == a[1..] + b;
    }
  }

  lemma PendingWithout(s: seq<Queued>, i: nat)
    requires i < |s|
    ensures PendingWeight(Without(s, i)) == PendingWeight(s) - ActWeight(s[i].act)
  {
    assert s == s[..i] + s[i..];
    PendingConcat(s[..i], s[i..]);
    PendingConcat(s[..i], s[i + 1..]);
  }

  lemma FlightWithout(s: seq<InFlight>, i: nat)
    requires i < |s|
    ensures FlightWeight(Without(s, i)) == FlightWeight(s) - FlightWeight([s[i]])
  {
    assert s == s[..i] + s[i..];
    FlightConcat(s[..i], s[i..]);
    FlightConcat(s[..i], s[i + 1..]);
  }

  lemma {:induction false} SetAllSends(self: Jid, max: int, st: SetState, incoming: seq<SetItem>)
    ensures |SetAll(self, max, st, incoming).sent| <= |st.sent| + 2 * |incoming|
    decreases |incoming|
  {
    if incoming != [] && !st.full {
      SetAllSends(self, max, SetOne(self, max, st, incoming[0]), incoming[1..]);
    }
  }

  lemma {:induction false} RequeueWeight(user: Jid, session: nat, sent: seq<(Jid, Kind)>)
    ensures PendingWeight(Requeue(user, session, sent)) == 3 * |sent|
    ensures forall q :: q in Requeue(user, session, sent) ==> q.user == user
  {
    if sent != [] {
      RequeueWeight(user, session, sent[1..]);
    }
  }

  lemma RunWeighsLess(max: int, w: World, i: nat)
    requires Enabled(w, Run(i)) && AccountsQueued(w)
    ensures Weight(Apply(max, w, Run(i))) < Weight(w) && AccountsQueued(Apply(max, w, Run(i)))
  {
    var q := w.pending[i];
    PendingWithout(w.pending, i);
    match q.act {
      case Packet(to, kind, status) =>
        FlightConcat(w.flight, [InFlight(q.user, to, kind, status)]);
      case Update(incoming) =>
        var sent := SetSent(q.user, max, w.rosters[q.user], incoming);
        SetAllSends(q.user, max, SetStart(w.rosters[q.user]), incoming);
        RequeueWeight(q.user, q.session, sent);
        PendingConcat(Without(w.pending, i), Requeue(q.user, q.session, sent));
    }
  }

  lemma DeliverWeighsLess(max: int, w: World, i: nat)
    requires Enabled(w, Deliver(i))
    ensures Weight(Apply(max, w, Deliver(i))) < Weight(w)
  {
    var f := w.flight[i];
    FlightWithout(w.flight, i);
    if f.to in w.rosters {
      var r := InS10n(f.to, w.rosters[f.to], f.from, f.kind, f.status);
      if r.reply.Some? {
        FlightConcat(Without(w.flight, i), [InFlight(f.to, f.from, r.reply.value, None)]);
      }
    }
  }

  lemma InternalStepWeighsLess(max: int, w: World, step: Step)
    requires Enabled(w, step) && Internal(step) && AccountsQueued(w)
    ensures Weight(Apply(max, w, step)) < Weight(w)
    ensures AccountsQueued(Apply(max, w, step))
  {
    match step
    case Run(i) => RunWeighsLess(max, w, i);
    case Deliver(i) => DeliverWeighsLess(max, w, i);
  }

  /** However the network schedules itself, without new input it makes at most
      Weight(w) steps, and it only stops when everything has arrived. */
  lemma {:induction false} RepliesDrain(max: int, w: World, steps: seq<Step>)
    requires AccountsQueued(w) && Possible(max, w, steps)
    requires forall step :: step in steps ==> Internal(step)
    ensures var w' := After(max, w, steps);
            && |steps| + Weight(w') <= Weight(w)
            && ((forall i :: !Enabled(w', Run(i)) && !Enabled(w', Deliver(i))) ==> Quiet(w'))
    decreases |steps|
  {
    if steps == [] {
      if w.pending != [] {
        assert w.pending[0] in w.pending;
        assert Enabled(w, Run(0));
      } else if w.flight != [] {
        assert Enabled(w, Deliver(0));
      }
    } else {
      InternalStepWeighsLess(max, w, steps[0]);
      RepliesDrain(max, Apply(max, w, steps[0]), steps[1..]);
    }
  }

  /** Every reachable state satisfies the premise of RepliesDrain. */
  lemma {:induction false} RunQueuesAccounts(max: int, w: World, steps: seq<Step>)
    requires AccountsQueued(w) && Possible(max, w, steps)
    ensures AccountsQueued(After(max, w, steps))
    decreases |steps|
  {
    if steps != [] {
      match steps[0] {
        case End(u, s) => DropSessionMembers(w.pending, u, s);
        case Send(_, _, _) =>
        case _ => InternalStepWeighsLess(max, w, steps[0]);
      }
      RunQueuesAccounts(max, Apply(max, w, steps[0]), steps[1..]);
    }
  }

  // ------------------------------------------------------- whole exchanges

  predicate TwoUsers(w: World, user: Jid, contact: Jid) {
    user != contact && user in w.rosters && contact in w.rosters
  }

  lemma {:induction false} Extend(max: int, w: World, steps: seq<Step>, step: Step)
    requires Possible(max, w, steps) && Enabled(After(max, w, steps), step)
    ensures Possible(max, w, steps + [step])
    ensures After(max, w, steps + [step]) == Apply(max, After(max, w, steps), step)
    decreases |steps|
  {
    if steps == [] {
      assert [step][1..] == [];
      assert steps + [step] == [step];
    } else {
      Extend(max, Apply(max, w, steps[0]), steps[1..], step);
      assert (steps + [step])[1..] == steps[1..] + [step];
    }
  }

  /** The client writes a packet and the session thread takes it: on a quiet network
      this leaves the handler's roster and, if it passes, the packet on its way. */
  lemma SendOne(max: int, w: World, steps: seq<Step>, user: Jid, s: nat, to: Jid, kind: Kind, status: Option<string>)
    returns (more: seq<Step>, w': World)
    requires Possible(max, w, steps) && Quiet(After(max, w, steps)) && user in After(max, w, steps).rosters
    ensures more == steps + [Send(user, s, Packet(to, kind, status)), Run(0)]
    ensures Possible(max, w, more) && After(max, w, more) == w'
    ensures var w1 := After(max, w, steps);
            var r := OutS10n(user, max, w1.rosters[user], to, kind);
            w' == World(w1.rosters[user := r.items], [], if r.pass then [InFlight(user, to, kind, status)] else [])
  {
    var w1 := After(max, w, steps);
    var send := Send(user, s, Packet(to, kind, status));
    Extend(max, w, steps, send);
    var w2 := After(max, w, steps + [send]);
    assert w2.pending == [Queued(user, s, Packet(to, kind, status))];
    Extend(max, w, steps + [send], Run(0));
    more := steps + [send] + [Run(0)];
    w' := After(max, w, more);
    assert Without(w2.pending, 0) == [];
    assert w1.flight == [];
  }

  /** The only packet on its way arrives; at most an automatic reply replaces it. */
  lemma DeliverOnly(max: int, w: World, steps: seq<Step>, f: InFlight) returns (more: seq<Step>, w': World)
    requires Possible(max, w, steps)
    requires After(max, w, steps).flight == [f]
    requires f.to in After(max, w, steps).rosters
    ensures Possible(max, w, more) && After(max, w, more) == w'
    ensures var w1 := After(max, w, steps);
            var r := InS10n(f.to, w1.rosters[f.to], f.from, f.kind, f.status);
            w' == World(w1.rosters[f.to := r.items], w1.pending,
                        if r.reply.Some? then [InFlight(f.to, f.from, r.reply.value, None)] else [])
  {
    var w1 := After(max, w, steps);
    Extend(max, w, steps, Deliver(0));
    more := steps + [Deliver(0)];
    w' := After(max, w, more);
    assert Without(w1.flight, 0) == [];
  }

  /** A request that fits in the roster and is approved subscribes the user, whatever
      the two rosters were before; the opposite direction does not move. */
  lemma Handshake(max: int, w: World, user: Jid, contact: Jid, s: nat, t: nat, status: Option<string>)
    returns (steps: seq<Step>, w': World)
    requires Quiet(w) && TwoUsers(w, user, contact)
    requires !HasTo(w, user, contact)
    requires |ItemsOf(w, user)[contact := ItemOf(ItemsOf(w, user), contact)]| < max
    ensures Possible(max, w, steps) && After(max, w, steps) == w'
    ensures Quiet(w') && HasTo(w', user, contact) && HasFrom(w', contact, user)
    ensures (HasTo(w', contact, user) <==> HasTo(w, contact, user))
         && (HasFrom(w', user, contact) <==> HasFrom(w, user, contact))
  {
    steps, w' := SendOne(max, w, [], user, s, contact, Subscribe, status);
    steps, w' := DeliverOnly(max, w, steps, InFlight(user, contact, Subscribe, status));
    if HasFrom(w, contact, user) {
      steps, w' := DeliverOnly(max, w, steps, InFlight(contact, user, Subscribed, None));
    } else {
      steps, w' := SendOne(max, w, steps, contact, t, user, Subscribed, status);
      steps, w' := DeliverOnly(max, w, steps, InFlight(contact, user, Subscribed, status));
    }
  }

  /** A request that does not fit is swallowed: nothing changes and nothing is sent. */
  lemma RosterFullRefuses(max: int, w: World, user: Jid, contact: Jid, s: nat, status: Option<string>)
    returns (steps: seq<Step>, w': World)
    requires Quiet(w) && TwoUsers(w, user, contact)
    requires !HasTo(w, user, contact)
    requires |ItemsOf(w, user)[contact := ItemOf(ItemsOf(w, user), contact)]| >= max
    ensures steps == [Send(user, s, Packet(contact, Subscribe, status)), Run(0)]
    ensures Possible(max, w, steps) && After(max, w, steps) == w' == w
  {
    steps, w' := SendOne(max, w, [], user, s, contact, Subscribe, status);
    assert w.rosters[user := w.rosters[user]] == w.rosters;
  }

  /** Giving a subscription up works from any state that two rosters can be in (RunIsConsistent),
      and leaves the opposite direction alone. */
  lemma Unsubscription(max: int, w: World, user: Jid, contact: Jid, s: nat)
    returns (steps: seq<Step>, w': World)
    requires Quiet(w) && TwoUsers(w, user, contact) && AllRostersConsistent(w)
    ensures Possible(max, w, steps) && After(max, w, steps) == w'
    ensures Quiet(w') && !HasTo(w', user, contact) && !HasFrom(w', contact, user)
    ensures (HasTo(w', contact, user) <==> HasTo(w, contact, user))
         && (HasFrom(w', user, contact) <==> HasFrom(w, user, contact))
  {
    steps, w' := SendOne(max, w, [], user, s, contact, Unsubscribe, None);
    steps, w' := DeliverOnly(max, w, steps, InFlight(user, contact, Unsubscribe, None));
    steps, w' := DeliverOnly(max, w, steps, InFlight(contact, user, Unsubscribed, None));
  }

  /** A session takes a roster set that removes one contact from a quiet network. */
  lemma RemoveOne(max: int, w: World, user: Jid, contact: Jid, s: nat) returns (steps: seq<Step>, w': World)
    requires Quiet(w) && TwoUsers(w, user, contact)
    ensures steps == [Send(user, s, Update([SetItem(Some(contact), true)])), Run(0)]
    ensures Possible(max, w, steps) && After(max, w, steps) == w'
    ensures w'.rosters == w.rosters[user := w.rosters[user] - {contact}] && w'.flight == []
    ensures w'.pending == Requeue(user, s, Cancellations(contact, ItemOf(w.rosters[user], contact)))
  {
    var act := Update([SetItem(Some(contact), true)]);
    Extend(max, w, [], Send(user, s, act));
    assert [] + [Send(user, s, act)] == [Send(user, s, act)];
    var w1 := After(max, w, [Send(user, s, act)]);
    assert w1.pending == [Queued(user, s, act)];
    Extend(max, w, [Send(user, s, act)], Run(0));
    steps := [Send(user, s, act)] + [Run(0)];
    w' := After(max, w, steps);
    assert Without(w1.pending, 0) == [];
    var start := SetStart(w.rosters[user]);
    var st := SetOne(user, max, start, act.incoming[0]);
    assert SetAll(user, max, st, act.incoming[1..]) == st by {
      assert act.incoming[1..] == [];
    }
    var sent := Cancellations(contact, ItemOf(w.rosters[user], contact));
    assert st.sent == [] + sent == sent;
    assert w'.pending == [] + Requeue(user, s, sent) == Requeue(user, s, sent);
  }

  /** The first waiting packet is sent while nothing else is on its way. */
  lemma RunHead(max: int, w: World, steps: seq<Step>) returns (more: seq<Step>, w': World)
    requires Possible(max, w, steps) && After(max, w, steps).flight == []
    requires var w1 := After(max, w, steps);
             w1.pending != [] && w1.pending[0].user in w1.rosters && w1.pending[0].act.Packet?
    ensures Possible(max, w, more) && After(max, w, more) == w'
    ensures var w1 := After(max, w, steps);
            var q := w1.pending[0];
            var r := OutS10n(q.user, max, w1.rosters[q.user], q.act.to, q.act.kind);
            w' == World(w1.rosters[q.user := r.items], w1.pending[1..],
                        if r.pass then [InFlight(q.user, q.act.to, q.act.kind, q.act.status)] else [])
  {
    Extend(max, w, steps, Run(0));
    more := steps + [Run(0)];
    w' := After(max, w, more);
    assert Without(After(max, w, steps).pending, 0) == After(max, w, steps).pending[1..];
  }

  /** The unsubscribe of a removed contact, and the contact's answer. */
  lemma RemovalUnsubscribes(max: int, w: World, steps: seq<Step>, user: Jid, contact: Jid, s: nat)
    returns (more: seq<Step>, w': World)
    requires Possible(max, w, steps)
    requires var w1 := After(max, w, steps);
             TwoUsers(w1, user, contact) && contact !in w1.rosters[user] && w1.flight == []
             && w1.pending != [] && w1.pending[0] == Queued(user, s, Packet(contact, Unsubscribe, None))
    ensures Possible(max, w, more) && After(max, w, more) == w'
    ensures var w1 := After(max, w, steps);
            TwoUsers(w', user, contact) && w'.rosters[user] == w1.rosters[user]
            && w'.flight == [] && w'.pending == w1.pending[1..]
            && !HasFrom(w', contact, user) && (HasTo(w', contact, user) ==> HasTo(w1, contact, user))
  {
    more, w' := RunHead(max, w, steps);
    more, w' := DeliverOnly(max, w, more, InFlight(user, contact, Unsubscribe, None));
    more, w' := DeliverOnly(max, w, more, InFlight(contact, user, Unsubscribed, None));
  }

  /** The unsubscribed of a removed contact. */
  lemma RemovalRevokes(max: int, w: World, steps: seq<Step>, user: Jid, contact: Jid, s: nat)
    returns (more: seq<Step>, w': World)
    requires Possible(max, w, steps)
    requires var w1 := After(max, w, steps);
             TwoUsers(w1, user, contact) && contact !in w1.rosters[user] && w1.flight == []
             && w1.pending == [Queued(user, s, Packet(contact, Unsubscribed, None))]
    ensures Possible(max, w, more) && After(max, w, more) == w'
    ensures var w1 := After(max, w, steps);
            TwoUsers(w', user, contact) && Quiet(w') && contact !in w'.rosters[user]
            && !HasTo(w', contact, user) && (HasFrom(w', contact, user) <==> HasFrom(w1, contact, user))
  {
    more, w' := RunHead(max, w, steps);
    more, w' := DeliverOnly(max, w, more, InFlight(user, contact, Unsubscribed, None));
  }

  /** Removing a contact, with the session staying alive, takes the user's grant back on
      both sides, and the contact's grant too exactly if the user held it or had asked for it. */
  lemma Removal(max: int, w: World, user: Jid, contact: Jid, s: nat) returns (steps: seq<Step>, w': World)
    requires Quiet(w) && TwoUsers(w, user, contact) && GrantSafe(w, user, contact)
    ensures Possible(max, w, steps) && After(max, w, steps) == w'
    ensures Quiet(w') && contact !in ItemsOf(w', user) && !HasTo(w', contact, user)
    ensures HasFrom(w', contact, user) <==>
            && HasFrom(w, contact, user)
            && !(HasTo(w, user, contact) || ItemOf(ItemsOf(w, user), contact).ask == Some(AskSubscribe))
  {
    steps, w' := RemoveOne(max, w, user, contact, s);
    var item := ItemOf(w.rosters[user], contact);
    assert Requeue(user, s, []) == [];
    assert Requeue(user, s, [(contact, Unsubscribed)]) == [Queued(user, s, Packet(contact, Unsubscribed, None))];
    if item.sub.HasTo() || item.ask == Some(AskSubscribe) {
      steps, w' := RemovalUnsubscribes(max, w, steps, user, contact, s);
    }
    if item.sub.HasFrom() {
      steps, w' := RemovalRevokes(max, w, steps, user, contact, s);
    } else {
      assert LastVerdict(w.flight, user, contact) == None;
    }
  }

  // ------------------------------------------- where the promise does not hold

  /** The converse of GrantsAgree fails, and exactly when: an approval always grants, but it
      is believed only by a user who believed it before or has anything pending towards the
      approver, be it a request to subscribe or to unsubscribe. */
  lemma UnaskedApproval(max: int, w: World, user: Jid, contact: Jid, t: nat)
    returns (steps: seq<Step>, w': World)
    requires Quiet(w) && TwoUsers(w, user, contact)
    ensures Possible(max, w, steps) && After(max, w, steps) == w'
    ensures Quiet(w') && HasFrom(w', contact, user)
    ensures HasTo(w', user, contact) <==> HasTo(w, user, contact) || ItemOf(ItemsOf(w, user), contact).ask.Some?
  {
    steps, w' := SendOne(max, w, [], contact, t, user, Subscribed, None);
    steps, w' := DeliverOnly(max, w, steps, InFlight(contact, user, Subscribed, None));
  }

  /** Without the premise on ending sessions GrantsAgree fails: whenever a user removes
      a contact that it granted its presence to, and the session ends before it has sent
      the unsubscribed, the contact keeps believing for good. */
  lemma EndedSessionLosesRevocation(max: int, w: World, user: Jid, contact: Jid, s: nat)
    returns (steps: seq<Step>, w': World)
    requires Quiet(w) && TwoUsers(w, user, contact)
    requires HasFrom(w, user, contact) && HasTo(w, contact, user)
    ensures steps == [Send(user, s, Update([SetItem(Some(contact), true)])), Run(0), End(user, s)]
    ensures Possible(max, w, steps) && After(max, w, steps) == w'
    ensures Quiet(w') && !HasFrom(w', user, contact) && HasTo(w', contact, user)
    ensures !CleanRun(max, w, steps)
  {
    var before, w2 := RemoveOne(max, w, user, contact, s);
    var sent := Cancellations(contact, ItemOf(w.rosters[user], contact));
    Extend(max, w, before, End(user, s));
    steps := before + [End(user, s)];
    w' := After(max, w, steps);
    assert sent[|sent| - 1] == (contact, Unsubscribed);
    RevocationDropped(w2, user, contact, s, sent);
    if CleanRun(max, w, steps) {
      CleanLast(max, w, before, End(user, s));
    }
  }

  /** Ending the only session that has something to send empties the queue, the unsubscribed
      to a contact that still believes included. */
  lemma RevocationDropped(w: World, user: Jid, contact: Jid, s: nat, sent: seq<(Jid, Kind)>)
    requires user != contact && w.flight == [] && w.pending == Requeue(user, s, sent)
    requires (contact, Unsubscribed) in sent && !HasFrom(w, user, contact) && HasTo(w, contact, user)
    ensures DropSession(w.pending, user, s) == [] && !EndsCleanly(w, End(user, s))
  {
    RequeueOwn(user, s, sent);
    DropWholeSession(w.pending, user, s);
    RequeueMembers(user, s, sent);
    var q := Queued(user, s, Packet(contact, Unsubscribed, None));
    assert q in w.pending && IsDropped(q, user, s);
    assert LosesLast(w, user, s, contact);
  }

  lemma {:induction false} DropWholeSession(pending: seq<Queued>, user: Jid, session: nat)
    requires forall q :: q in pending ==> q.user == user && q.session == session
    ensures DropSession(pending, user, session) == []
  {
    if pending != [] {
      DropWholeSession(pending[1..], user, session);
    }
  }

  lemma {:induction false} RequeueOwn(user: Jid, session: nat, sent: seq<(Jid, Kind)>)
    ensures forall q :: q in Requeue(user, session, sent) ==> q.user == user && q.session == session
  {
    if sent != [] {
      RequeueOwn(user, session, sent[1..]);
    }
  }

  lemma {:induction false} CleanLast(max: int, w: World, steps: seq<Step>, step: Step)
    requires Possible(max, w, steps) && Enabled(After(max, w, steps), step)
    requires Possible(max, w, steps + [step]) && CleanRun(max, w, steps + [step])
    ensures EndsCleanly(After(max, w, steps), step)
    decreases |steps|
  {
    if steps != [] {
      assert (steps + [step])[1..] == steps[1..] + [step];
      CleanLast(max, Apply(max, w, steps[0]), steps[1..], step);
    }
  }
}
