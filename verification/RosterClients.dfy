/** What the clients of the users get to see: the roster that a client keeps from the result
    of its query and the pushes that follow, and the subscription packets passed on to it. */
module RosterClients {
  import opened Options
  import opened Roster
  import opened RosterNetwork

  /** An item as a client sees it: a pending request and hidden items are the server's own. */
  datatype Seen = Seen(sub: Sub, ask: Option<Ask>)

  function SeenOf(item: Item): Seen { Seen(item.sub, item.ask) }

  function Visible(items: Items): map<Jid, Seen> {
    map j | j in items && !items[j].hidden :: SeenOf(items[j])
  }

  /** The requests that wait for an answer, with their status text. */
  function Requests(items: Items): map<Jid, string> {
    map j | j in items && items[j].subscribe.Some? :: items[j].subscribe.value
  }

  datatype Stanza = Stanza(from: Jid, kind: Kind, status: Option<string>)

  /** A primary session that has asked for its roster: the roster it knows, the requests it was
      shown, and all subscription packets since. */
  datatype Client = Client(view: map<Jid, Seen>, requests: map<Jid, string>, inbox: seq<Stanza>)

  /** The clients that are there, by user. */
  datatype Net = Net(w: World, clients: map<Jid, Client>)

  datatype Event =
    | Move(step: Step)
    | Fetch(user: Jid)   // the client asks for its roster
    | Leave(user: Jid)   // no primary session with a roster any more

  /** mod_roster_push, as the client takes it. */
  function Take(view: map<Jid, Seen>, e: Effect): map<Jid, Seen> {
    match e
    case Push(jid, item) => view[jid := SeenOf(item)]
    case PushRemoval(jid) => view - {jid}
    case _ => view
  }

  function TakeAll(view: map<Jid, Seen>, es: seq<Effect>): map<Jid, Seen>
    decreases |es|
  {
    if es == [] then view else TakeAll(Take(view, es[0]), es[1..])
  }

  /** A subscription packet that is passed on. */
  function Show(c: Client, s: Stanza): Client {
    Client(c.view, if s.kind.Subscribe? then c.requests[s.from := s.status.GetOr("")] else c.requests,
           c.inbox + [s])
  }

  /** The user whose roster a step touches. */
  function Touched(w: World, step: Step): Option<Jid>
    requires Enabled(w, step)
  {
    match step
    case Run(i) => Some(w.pending[i].user)
    case Deliver(i) => if w.flight[i].to in w.rosters then Some(w.flight[i].to) else None
    case _ => None
  }

  /** What the handlers do to the clients of that user. */
  function EffectsOf(max: int, w: World, step: Step): seq<Effect>
    requires Enabled(w, step)
  {
    match step
    case Run(i) =>
      var q := w.pending[i];
      (match q.act
       case Packet(to, kind, _) => OutS10n(q.user, max, w.rosters[q.user], to, kind).effects
       case Update(incoming) => SetAll(q.user, max, SetStart(w.rosters[q.user]), incoming).effects)
    case Deliver(i) =>
      var f := w.flight[i];
      if f.to in w.rosters then InS10n(f.to, w.rosters[f.to], f.from, f.kind, f.status).effects else []
    case _ => []
  }

  /** The packet that mod_roster_s10n passes on: what it does not drop. */
  function PassedOn(w: World, step: Step): Option<Stanza>
    requires Enabled(w, step)
  {
    match step
    case Deliver(i) =>
      var f := w.flight[i];
      if f.to in w.rosters && f.from != f.to && !InS10n(f.to, w.rosters[f.to], f.from, f.kind, f.status).drop
      then Some(Stanza(f.from, f.kind, f.status)) else None
    case _ => None
  }

  function Updated(c: Client, shown: Option<Stanza>, es: seq<Effect>): Client {
    var c1 := if shown.Some? then Show(c, shown.value) else c;
    c1.(view := TakeAll(c1.view, es))
  }

  predicate Can(n: Net, e: Event) {
    match e
    case Move(step) => Enabled(n.w, step)
    case Fetch(user) => user in n.w.rosters
    case Leave(_) => true
  }

  function Next(max: int, n: Net, e: Event): Net
    requires Can(n, e)
  {
    match e
    case Move(step) =>
      var t := Touched(n.w, step);
      Net(Apply(max, n.w, step),
          if t.Some? && t.value in n.clients then
            n.clients[t.value := Updated(n.clients[t.value], PassedOn(n.w, step), EffectsOf(max, n.w, step))]
          else n.clients)
    case Fetch(user) =>
      var items := n.w.rosters[user];
      n.(clients := n.clients[user := Client(Visible(items), Requests(items), [])])
    case Leave(user) => n.(clients := n.clients - {user})
  }

  // ---------------------------------------------- what one packet leads to

  /** A request from somebody else is answered by the server or passed on, never both and
      never neither; a probe is sent for exactly the requests that are answered; what is
      passed on is stored, with its text. */
  lemma RequestIsAnsweredOrShown(self: Jid, items: Items, from: Jid, status: Option<string>)
    requires from != self
    ensures var r := InS10n(self, items, from, Subscribe, status);
            && (r.drop <==> r.reply == Some(Subscribed)) && (r.reply.Some? <==> From(items, from))
            && (r.probe <==> r.reply == Some(Subscribed))
            && (!r.drop ==> from in r.items && r.items[from].subscribe == Some(status.GetOr("")))
            && (r.drop ==> r.items == items)
            && r.effects == []
  {
  }

  /** Any other packet from somebody else is passed on exactly when it changes the item of its
      sender, it leads to no probe, and the change is pushed unless the item is hidden. */
  lemma ChangeIsShown(self: Jid, items: Items, from: Jid, kind: Kind, status: Option<string>)
    requires from != self && !kind.Subscribe? && AllConsistent(items)
    ensures var r := InS10n(self, items, from, kind, status);
            && (!r.drop <==> r.items != items)
            && (r.items != items <==> ItemOf(r.items, from) != ItemOf(items, from))
            && !r.probe
            && r.effects == if r.drop || r.items[from].hidden then [] else [Push(from, r.items[from])]
  {
    var r := InS10n(self, items, from, kind, status);
    if !r.drop {
      assert from in items;
      assert r.items[from] != items[from];
    }
  }

  // ------------------------------------------ the client's roster is the stored one

  lemma {:induction false} TakeLast(view: map<Jid, Seen>, es: seq<Effect>, e: Effect)
    ensures TakeAll(view, es + [e]) == Take(TakeAll(view, es), e)
    decreases |es|
  {
    if es == [] {
      assert [] + [e] == [e] && [e][1..] == [];
    } else {
      assert (es + [e])[0] == es[0] && (es + [e])[1..] == es[1..] + [e];
      TakeLast(Take(view, es[0]), es[1..], e);
    }
  }

  lemma TakeOne(view: map<Jid, Seen>, e: Effect)
    ensures TakeAll(view, [e]) == Take(view, e)
  {
    assert [] + [e] == [e];
    TakeLast(view, [], e);
  }

  lemma VisibleUpdate(items: Items, jid: Jid, item: Item)
    ensures Visible(items[jid := item])
         == if item.hidden then Visible(items) - {jid} else Visible(items)[jid := SeenOf(item)]
    ensures Visible(items - {jid}) == Visible(items) - {jid}
  {
  }

  lemma PushKeepsView(items: Items, jid: Jid, item: Item)
    requires item.hidden ==> jid !in Visible(items)
    ensures TakeAll(Visible(items), PushOf(jid, item)) == Visible(items[jid := item])
  {
    VisibleUpdate(items, jid, item);
    TakeOne(Visible(items), Push(jid, item));
  }

  lemma OutView(self: Jid, max: int, items: Items, to: Jid, kind: Kind)
    ensures var r := OutS10n(self, max, items, to, kind); TakeAll(Visible(items), r.effects) == Visible(r.items)
  {
    if to != self {
      KnownItem(items, to);
      match kind
      case Subscribe => OutSubscribeView(self, max, items, to);
      case Subscribed => OutSubscribedView(self, max, items, to);
      case Unsubscribe => OutUnsubscribeView(self, max, items, to);
      case Unsubscribed => OutUnsubscribedView(self, max, items, to);
    }
  }

  lemma KnownItem(items: Items, jid: Jid)
    ensures To(items, jid) || From(items, jid) ==> jid in items
    ensures jid in items ==> items[jid := ItemOf(items, jid)] == items
    ensures ItemOf(items, jid).hidden ==> jid in items && jid !in Visible(items)
  {
  }

  lemma OutSubscribeView(self: Jid, max: int, items: Items, to: Jid)
    requires to != self
    ensures var r := OutS10n(self, max, items, to, Subscribe); TakeAll(Visible(items), r.effects) == Visible(r.items)
  {
    KnownItem(items, to);
    TakeOne(Visible(items), RosterFull);
    PushKeepsView(items, to, ItemOf(items, to).(ask := Some(AskSubscribe)));
  }

  lemma OutSubscribedView(self: Jid, max: int, items: Items, to: Jid)
    requires to != self
    ensures var r := OutS10n(self, max, items, to, Subscribed); TakeAll(Visible(items), r.effects) == Visible(r.items)
  {
    KnownItem(items, to);
    var item := ItemOf(items, to);
    var i := item.(sub := SetS10n(AddFrom, item.sub), subscribe := None, hidden := false);
    TakeForced(Visible(items), ForcePresence(to, true), PushOf(to, i));
    PushKeepsView(items, to, i);
  }

  lemma OutUnsubscribeView(self: Jid, max: int, items: Items, to: Jid)
    requires to != self
    ensures var r := OutS10n(self, max, items, to, Unsubscribe); TakeAll(Visible(items), r.effects) == Visible(r.items)
  {
    KnownItem(items, to);
    PushKeepsView(items, to, ItemOf(items, to).(ask := Some(AskUnsubscribe)));
  }

  lemma OutUnsubscribedView(self: Jid, max: int, items: Items, to: Jid)
    requires to != self
    ensures var r := OutS10n(self, max, items, to, Unsubscribed); TakeAll(Visible(items), r.effects) == Visible(r.items)
  {
    KnownItem(items, to);
    var item := ItemOf(items, to);
    var i := item.(sub := SetS10n(RemFrom, item.sub));
    if item.sub.HasFrom() {
      TakeForced(Visible(items), ForcePresence(to, false), PushOf(to, i));
      PushKeepsView(items, to, i);
    } else {
      VisibleUpdate(items, to, item.(subscribe := None));
      assert Visible(items)[to := SeenOf(item)] == Visible(items) || to !in items || item.hidden;
    }
  }

  lemma TakeForced(view: map<Jid, Seen>, e: Effect, es: seq<Effect>)
    requires e.ForcePresence?
    ensures TakeAll(view, [e] + es) == TakeAll(view, es)
  {
    assert ([e] + es)[0] == e && ([e] + es)[1..] == es;
  }

  lemma InView(self: Jid, items: Items, from: Jid, kind: Kind, status: Option<string>)
    ensures var r := InS10n(self, items, from, kind, status); TakeAll(Visible(items), r.effects) == Visible(r.items)
  {
    var r := InS10n(self, items, from, kind, status);
    if from != self {
      VisibleUpdate(items, from, ItemOf(r.items, from));
      if r.effects != [] {
        PushKeepsView(items, from, r.items[from]);
      }
    }
  }

  /** What a roster set has pushed so far is what it would save. */
  lemma {:induction false} SetView(self: Jid, max: int, view: map<Jid, Seen>, st: SetState, incoming: seq<SetItem>)
    requires TakeAll(view, st.effects) == Visible(st.items)
    ensures var r := SetAll(self, max, st, incoming); TakeAll(view, r.effects) == Visible(r.items)
    decreases |incoming|
  {
    if incoming != [] && !st.full {
      SetOneView(self, max, view, st, incoming[0]);
      SetView(self, max, view, SetOne(self, max, st, incoming[0]), incoming[1..]);
    }
  }

  lemma SetOneView(self: Jid, max: int, view: map<Jid, Seen>, st: SetState, one: SetItem)
    requires TakeAll(view, st.effects) == Visible(st.items)
    ensures var r := SetOne(self, max, st, one); TakeAll(view, r.effects) == Visible(r.items)
  {
    if one.jid.Some? && one.jid.value != self {
      var jid := one.jid.value;
      var item := ItemOf(st.items, jid);
      var i := Item(item.sub, item.ask, None, false);
      TakeLast(view, st.effects, PushRemoval(jid));
      TakeLast(view, st.effects, RosterFull);
      TakeLast(view, st.effects, Push(jid, i));
      VisibleUpdate(st.items, jid, i);
    }
  }

  /** No handler but incoming Subscribe makes a request, and none changes one that stays. */
  ghost predicate NoNewRequests(items: Items, items': Items) {
    forall j :: j in items' && items'[j].subscribe.Some? ==> j in items && items[j].subscribe == items'[j].subscribe
  }

  lemma {:induction false} SetRequests(self: Jid, max: int, items: Items, st: SetState, incoming: seq<SetItem>)
    requires NoNewRequests(items, st.items)
    ensures NoNewRequests(items, SetAll(self, max, st, incoming).items)
    decreases |incoming|
  {
    if incoming != [] && !st.full {
      SetRequests(self, max, items, SetOne(self, max, st, incoming[0]), incoming[1..]);
    }
  }

  lemma OutRequests(self: Jid, max: int, items: Items, to: Jid, kind: Kind)
    ensures NoNewRequests(items, OutS10n(self, max, items, to, kind).items)
  {
  }

  // ---- one step

  /** The client knows the visible part of the stored roster, and every request that waits. */
  ghost predicate Knows(c: Client, items: Items) {
    c.view == Visible(items) && KnowsRequests(c, items)
  }

  ghost predicate KnowsRequests(c: Client, items: Items) {
    forall j :: j in items && items[j].subscribe.Some? ==> j in c.requests && c.requests[j] == items[j].subscribe.value
  }

  ghost predicate InSync(n: Net) {
    forall u :: u in n.clients ==> u in n.w.rosters && Knows(n.clients[u], n.w.rosters[u])
  }

  /** A roster set that runs into the size limit, after items that changed what clients see:
      those were pushed, and nothing is saved. */
  predicate Misleads(max: int, w: World, step: Step)
    requires Enabled(w, step)
  {
    step.Run? && w.pending[step.i].act.Update? &&
    var q := w.pending[step.i];
    var st := SetAll(q.user, max, SetStart(w.rosters[q.user]), q.act.incoming);
    st.full && Visible(st.items) != Visible(w.rosters[q.user])
  }

  lemma RunKnows(max: int, w: World, i: nat, c: Client)
    requires Enabled(w, Run(i))
    requires var u := w.pending[i].user; Knows(c, w.rosters[u])
    ensures var u := w.pending[i].user;
            var step := Run(i);
            var c' := Updated(c, None, EffectsOf(max, w, step));
            Knows(c', Apply(max, w, step).rosters[u]) <==> !Misleads(max, w, step)
  {
    var q := w.pending[i];
    var items := w.rosters[q.user];
    match q.act
    case Packet(to, kind, _) =>
      OutView(q.user, max, items, to, kind);
      OutRequests(q.user, max, items, to, kind);
    case Update(incoming) =>
      SetView(q.user, max, Visible(items), SetStart(items), incoming);
      SetRequests(q.user, max, items, SetStart(items), incoming);
  }

  lemma InRequests(self: Jid, items: Items, from: Jid, kind: Kind, status: Option<string>, j: Jid)
    requires from != self
    ensures var r := InS10n(self, items, from, kind, status);
            j in r.items && r.items[j].subscribe.Some? ==>
              || (j in items && items[j].subscribe == r.items[j].subscribe)
              || (j == from && kind.Subscribe? && !r.drop && r.items[j].subscribe == Some(status.GetOr("")))
    ensures var r := InS10n(self, items, from, kind, status);
            kind.Subscribe? && !r.drop ==> from in r.items && r.items[from].subscribe == Some(status.GetOr(""))
  {
  }

  lemma DeliverKnows(max: int, w: World, i: nat, c: Client)
    requires Enabled(w, Deliver(i)) && w.flight[i].to in w.rosters && Knows(c, w.rosters[w.flight[i].to])
    ensures var step := Deliver(i);
            Knows(Updated(c, PassedOn(w, step), EffectsOf(max, w, step)), Apply(max, w, step).rosters[w.flight[i].to])
  {
    var f := w.flight[i];
    var items := w.rosters[f.to];
    InView(f.to, items, f.from, f.kind, f.status);
    if f.from != f.to {
      var c' := Updated(c, PassedOn(w, Deliver(i)), EffectsOf(max, w, Deliver(i)));
      var items' := InS10n(f.to, items, f.from, f.kind, f.status).items;
      forall j | j in items' && items'[j].subscribe.Some?
        ensures j in c'.requests && c'.requests[j] == items'[j].subscribe.value
      {
        InRequests(f.to, items, f.from, f.kind, f.status, j);
      }
    }
  }

  /** The step of the user's own roster, for a client of that user. */
  lemma TouchedKnows(max: int, w: World, step: Step, c: Client)
    requires Enabled(w, step) && Touched(w, step).Some?
    requires var u := Touched(w, step).value; u in w.rosters && Knows(c, w.rosters[u])
    ensures var u := Touched(w, step).value;
            && u in Apply(max, w, step).rosters
            && (Knows(Updated(c, PassedOn(w, step), EffectsOf(max, w, step)), Apply(max, w, step).rosters[u])
                <==> !Misleads(max, w, step))
  {
    match step
    case Run(i) => RunKnows(max, w, i, c);
    case Deliver(i) => DeliverKnows(max, w, i, c);
  }

  lemma OthersUntouched(max: int, w: World, step: Step, u: Jid)
    requires Enabled(w, step) && u in w.rosters && Touched(w, step) != Some(u)
    ensures u in Apply(max, w, step).rosters && Apply(max, w, step).rosters[u] == w.rosters[u]
  {
  }

  /** The event makes a client's roster differ from the stored one. */
  predicate Strays(max: int, n: Net, e: Event)
    requires Can(n, e)
  {
    e.Move? && Misleads(max, n.w, e.step) && Touched(n.w, e.step).value in n.clients
  }

  /** An event keeps every client in step with the stored rosters if and only if it is not a
      roster set of a client's user that misleads. */
  lemma EventsAreExact(max: int, n: Net, e: Event)
    requires InSync(n) && Can(n, e)
    ensures InSync(Next(max, n, e)) <==> !Strays(max, n, e)
  {
    var n' := Next(max, n, e);
    match e
    case Fetch(_) =>
    case Leave(_) =>
    case Move(step) =>
      var t := Touched(n.w, step);
      forall u | u in n.clients && t != Some(u)
        ensures u in n'.w.rosters && Knows(n'.clients[u], n'.w.rosters[u])
      {
        OthersUntouched(max, n.w, step, u);
      }
      if t.Some? && t.value in n.clients {
        TouchedKnows(max, n.w, step, n.clients[t.value]);
        assert t.value in n'.clients;
      }
  }

  // ---- runs

  predicate CanRun(max: int, n: Net, es: seq<Event>)
    decreases |es|
  {
    es == [] || (Can(n, es[0]) && CanRun(max, Next(max, n, es[0]), es[1..]))
  }

  function After(max: int, n: Net, es: seq<Event>): Net
    requires CanRun(max, n, es)
    decreases |es|
  {
    if es == [] then n else After(max, Next(max, n, es[0]), es[1..])
  }

  ghost predicate InSyncAlong(max: int, n: Net, es: seq<Event>)
    requires CanRun(max, n, es)
    decreases |es|
  {
    InSync(n) && (es != [] ==> InSyncAlong(max, Next(max, n, es[0]), es[1..]))
  }

  predicate NeverStrays(max: int, n: Net, es: seq<Event>)
    requires CanRun(max, n, es)
    decreases |es|
  {
    es == [] || (!Strays(max, n, es[0]) && NeverStrays(max, Next(max, n, es[0]), es[1..]))
  }

  /** Main result: over every run of the network and of clients that come and go, what each
      client has made of the roster result and the pushes is, after every event, the visible
      part of the stored roster, and it was shown every request that waits; unless a roster
      set misleads, and exactly then. */
  lemma {:induction false} ClientsStayInSync(max: int, n: Net, es: seq<Event>)
    requires InSync(n) && CanRun(max, n, es)
    ensures InSyncAlong(max, n, es) <==> NeverStrays(max, n, es)
    decreases |es|
  {
    if es != [] {
      EventsAreExact(max, n, es[0]);
      if InSync(Next(max, n, es[0])) {
        ClientsStayInSync(max, Next(max, n, es[0]), es[1..]);
      }
    }
  }

  /** A roster set that misleads: two new contacts of which only the first one fits. */
  lemma OverflowMisleads(max: int, w: World, i: nat, a: Jid, b: Jid)
    requires Enabled(w, Run(i)) && w.pending[i].act == Update([SetItem(Some(a), false), SetItem(Some(b), false)])
    requires var u := w.pending[i].user; a != u && b != u && a != b
    requires var items := w.rosters[w.pending[i].user]; a !in items && b !in items && |items| == max - 1
    ensures Misleads(max, w, Run(i))
  {
    var q := w.pending[i];
    var items, s := w.rosters[q.user], q.act.incoming;
    var st1 := SetOne(q.user, max, SetStart(items), s[0]);
    var st2 := SetOne(q.user, max, st1, s[1]);
    assert s[1..] == [s[1]] && [s[1]][1..] == [];
    assert SetAll(q.user, max, st1, s[1..]) == SetAll(q.user, max, st2, []) == st2;
    assert a in Visible(st2.items) && a !in Visible(items);
  }

  // ------------------------------------------------- every request is settled

  predicate IsAsked(w: World, step: Step, u: Jid, v: Jid)
    requires Enabled(w, step)
  {
    step.Deliver? && var f := w.flight[step.i]; f.to == u && f.from == v && f.kind.Subscribe? && u in w.rosters
  }

  predicate IsAnswered(w: World, step: Step, u: Jid, v: Jid)
    requires Enabled(w, step)
  {
    && IsAsked(w, step, u, v)
    && InS10n(u, w.rosters[u], v, Subscribe, w.flight[step.i].status).reply == Some(Subscribed)
  }

  /** How many requests of v have reached u, and how many the server has answered itself. */
  function Asked(max: int, n: Net, es: seq<Event>, u: Jid, v: Jid): nat
    requires CanRun(max, n, es)
    decreases |es|
  {
    if es == [] then 0
    else
      (if es[0].Move? && IsAsked(n.w, es[0].step, u, v) then 1 else 0) + Asked(max, Next(max, n, es[0]), es[1..], u, v)
  }

  function Answered(max: int, n: Net, es: seq<Event>, u: Jid, v: Jid): nat
    requires CanRun(max, n, es)
    decreases |es|
  {
    if es == [] then 0
    else
      (if es[0].Move? && IsAnswered(n.w, es[0].step, u, v) then 1 else 0)
      + Answered(max, Next(max, n, es[0]), es[1..], u, v)
  }

  function Shown(inbox: seq<Stanza>, v: Jid): nat {
    if inbox == [] then 0
    else
      var s := inbox[|inbox| - 1];
      Shown(inbox[..|inbox| - 1], v) + if s.from == v && s.kind.Subscribe? then 1 else 0
  }

  /** The client of u neither asks again nor leaves. */
  predicate Stays(es: seq<Event>, u: Jid) {
    es == [] || (es[0] != Fetch(u) && es[0] != Leave(u) && Stays(es[1..], u))
  }

  lemma ShownStep(max: int, n: Net, e: Event, u: Jid, v: Jid)
    requires u != v && u in n.clients && Can(n, e) && e != Fetch(u) && e != Leave(u)
    ensures u in Next(max, n, e).clients
    ensures Shown(Next(max, n, e).clients[u].inbox, v) + (if e.Move? && IsAnswered(n.w, e.step, u, v) then 1 else 0)
         == Shown(n.clients[u].inbox, v) + (if e.Move? && IsAsked(n.w, e.step, u, v) then 1 else 0)
  {
    if e.Move? && e.step.Deliver? {
      var f, inbox := n.w.flight[e.step.i], n.clients[u].inbox;
      assert (inbox + [Stanza(f.from, f.kind, f.status)])[..|inbox|] == inbox;
    }
  }

  /** Main result: while a client is there, each request that reaches its user is answered by
      the server or shown to the client, never both and never neither. */
  lemma {:induction false} RequestsAreSettled(max: int, n: Net, es: seq<Event>, u: Jid, v: Jid)
    requires u != v && u in n.clients && CanRun(max, n, es) && Stays(es, u)
    ensures u in After(max, n, es).clients
    ensures Shown(After(max, n, es).clients[u].inbox, v) + Answered(max, n, es, u, v)
         == Shown(n.clients[u].inbox, v) + Asked(max, n, es, u, v)
    decreases |es|
  {
    if es != [] {
      ShownStep(max, n, es[0], u, v);
      RequestsAreSettled(max, Next(max, n, es[0]), es[1..], u, v);
    }
  }

  // ---- a request that nobody saw yet is not lost

  /** Whoever is granted the presence has no request open. */
  ghost predicate AllSettled(w: World) {
    forall u, v :: u in w.rosters && v in w.rosters[u] && w.rosters[u][v].sub.HasFrom() ==>
      w.rosters[u][v].subscribe.None?
  }

  predicate Waits(w: World, u: Jid, v: Jid) {
    u in w.rosters && v in w.rosters[u] && w.rosters[u][v].subscribe.Some?
  }

  /** The user itself deals with v: by an approval or a refusal, or in a roster set. */
  predicate DealsWith(w: World, step: Step, u: Jid, v: Jid)
    requires Enabled(w, step)
  {
    step.Run? && w.pending[step.i].user == u
    && match w.pending[step.i].act
       case Packet(to, kind, _) => to == v && (kind.Subscribed? || kind.Unsubscribed?)
       case Update(incoming) => exists one :: one in incoming && one.jid == Some(v)
  }

  ghost predicate Settled(items: Items) {
    forall v :: v in items && items[v].sub.HasFrom() ==> items[v].subscribe.None?
  }

  lemma OutSettled(self: Jid, max: int, items: Items, to: Jid, kind: Kind, v: Jid)
    requires Settled(items)
    ensures var r := OutS10n(self, max, items, to, kind).items;
            && Settled(r)
            && (v in items && items[v].subscribe.Some? && !(to == v && (kind.Subscribed? || kind.Unsubscribed?)) ==>
                v in r && r[v].subscribe == items[v].subscribe)
  {
  }

  lemma InSettled(self: Jid, items: Items, from: Jid, kind: Kind, status: Option<string>, v: Jid)
    requires Settled(items)
    ensures var r := InS10n(self, items, from, kind, status).items;
            && Settled(r)
            && (v in items && items[v].subscribe.Some? ==> v in r && r[v].subscribe.Some?)
  {
  }

  lemma {:induction false} SetSettled(self: Jid, max: int, st: SetState, incoming: seq<SetItem>, v: Jid)
    requires Settled(st.items)
    ensures var r := SetAll(self, max, st, incoming).items;
            && Settled(r)
            && (v in st.items && (forall one :: one in incoming ==> one.jid != Some(v)) ==>
                  v in r && r[v] == st.items[v])
    decreases |incoming|
  {
    if incoming != [] && !st.full {
      assert incoming[0] in incoming;
      SetSettled(self, max, SetOne(self, max, st, incoming[0]), incoming[1..], v);
    }
  }

  lemma StepSettled(max: int, w: World, step: Step, u: Jid, v: Jid)
    requires Enabled(w, step) && AllSettled(w)
    ensures AllSettled(Apply(max, w, step))
    ensures Waits(w, u, v) && !DealsWith(w, step, u, v) ==> Waits(Apply(max, w, step), u, v)
  {
    match step
    case Send(_, _, _) =>
    case End(_, _) =>
    case Run(i) =>
      var q := w.pending[i];
      var items := w.rosters[q.user];
      assert Settled(items);
      match q.act {
        case Packet(to, kind, _) => OutSettled(q.user, max, items, to, kind, v);
        case Update(incoming) => SetSettled(q.user, max, SetStart(items), incoming, v);
      }
    case Deliver(i) =>
      var f := w.flight[i];
      if f.to in w.rosters {
        assert Settled(w.rosters[f.to]);
        InSettled(f.to, w.rosters[f.to], f.from, f.kind, f.status, v);
      }
  }

  predicate NeverDealt(max: int, n: Net, es: seq<Event>, u: Jid, v: Jid)
    requires CanRun(max, n, es)
    decreases |es|
  {
    es == []
    || (!(es[0].Move? && DealsWith(n.w, es[0].step, u, v)) && NeverDealt(max, Next(max, n, es[0]), es[1..], u, v))
  }

  lemma {:induction false} RunSettled(max: int, n: Net, es: seq<Event>)
    requires AllSettled(n.w) && CanRun(max, n, es)
    ensures AllSettled(After(max, n, es).w)
    decreases |es|
  {
    if es != [] {
      if es[0].Move? { StepSettled(max, n.w, es[0].step, "", ""); }
      RunSettled(max, Next(max, n, es[0]), es[1..]);
    }
  }

  /** Main result: a request that is stored waits, over every run, until its user deals with
      the contact, and a client that asks for the roster in the meantime is shown it. */
  lemma {:induction false} RequestWaits(max: int, n: Net, es: seq<Event>, u: Jid, v: Jid)
    requires AllSettled(n.w) && Waits(n.w, u, v) && CanRun(max, n, es) && NeverDealt(max, n, es, u, v)
    ensures AllSettled(After(max, n, es).w) && Waits(After(max, n, es).w, u, v)
    ensures v in Next(max, After(max, n, es), Fetch(u)).clients[u].requests
    decreases |es|
  {
    if es != [] {
      if es[0].Move? { StepSettled(max, n.w, es[0].step, u, v); }
      RequestWaits(max, Next(max, n, es[0]), es[1..], u, v);
    }
  }

  // ---- what a packet of the user's own leads to

  /** The contact is sent the user's presence exactly by an approval, and a goodbye exactly when
      it loses its grant; the limit refuses exactly new requests that do not fit. */
  lemma OutTells(self: Jid, max: int, items: Items, to: Jid, kind: Kind)
    requires to != self
    ensures var r := OutS10n(self, max, items, to, kind);
            && (forall c, b :: ForcePresence(c, b) in r.effects ==> c == to && b == From(r.items, to))
            && (ForcePresence(to, true) in r.effects <==> kind.Subscribed?)
            && (ForcePresence(to, false) in r.effects <==> From(items, to) && !From(r.items, to))
            && (RosterFull in r.effects <==> !r.pass)
            && (!r.pass <==> kind.Subscribe? && !To(items, to) && |items[to := ItemOf(items, to)]| >= max)
            && (!r.pass ==> r.items == items)
  {
  }

  // ---- the size limit of a roster set

  /** A set never makes the roster longer than the limit, or keeps one that is. */
  lemma {:induction false} SetFits(self: Jid, max: int, st: SetState, incoming: seq<SetItem>)
    requires |st.items| <= st.count
    ensures var r := SetAll(self, max, st, incoming);
            |r.items| <= r.count && (r.count <= st.count || r.count <= max)
    decreases |incoming|
  {
    if incoming != [] && !st.full {
      SetOneFits(self, max, st, incoming[0]);
      SetFits(self, max, SetOne(self, max, st, incoming[0]), incoming[1..]);
    }
  }

  lemma SetOneFits(self: Jid, max: int, st: SetState, one: SetItem)
    requires |st.items| <= st.count
    ensures var r := SetOne(self, max, st, one);
            |r.items| <= r.count && (r.count == st.count || r.count == st.count + 1 <= max)
  {
    if one.jid.Some? {
      var jid := one.jid.value;
      if jid in st.items {
        assert st.items.Keys == (st.items - {jid}).Keys + {jid};
        assert forall i: Item {:trigger st.items[jid := i]} :: st.items[jid := i].Keys == st.items.Keys;
      } else {
        assert st.items - {jid} == st.items;
      }
    }
  }

  /** A set of one item is refused exactly when the item is new and the roster is full. */
  lemma OneItemSet(self: Jid, max: int, items: Items, one: SetItem)
    ensures SetAll(self, max, SetStart(items), [one]).full <==>
            one.jid.Some? && one.jid.value != self && !one.remove && one.jid.value !in items && |items| >= max
  {
    var st := SetOne(self, max, SetStart(items), one);
    assert [one][1..] == [];
    assert SetAll(self, max, st, []) == st;
  }
}
