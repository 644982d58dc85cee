/** Who learns the presence of a session, over every run: whom the session tells what, and what
    entitles them to it. */
module PresencePrivacy {
  import opened Options
  import opened Presence

  // ------------------------------------------------ the lists, from the history alone

  /** The session thread takes a packet to j. */
  predicate TakesDirected(st: State, e: Event, j: Jid, kind: Kind) {
    e.Take? && st.queue != [] && st.queue[0].to == Some(j) && st.queue[0].kind == kind
  }

  predicate TakesUndirected(st: State, e: Event, kind: Kind) {
    e.Take? && st.queue != [] && st.queue[0].to == None && st.queue[0].kind == kind && InRange(st.queue[0])
  }

  /** The session shows itself: it was offline or invisible, and becomes available. */
  predicate ComesOut(st: State, e: Event) { TakesUndirected(st, e, Available) && !Online(st) }

  /** The session is available already, and changes its presence. */
  predicate Changes(st: State, e: Event) { TakesUndirected(st, e, Available) && Online(st) }

  predicate Subscriber(roster: seq<Contact>, j: Jid) { exists c :: c in roster && c.subFrom && c.jid == j }

  /** The session has told j that it is available, itself or as a subscriber when it came out,
      and nothing has ended that since: no directed unavailable or invisible, no bounce, and no
      going offline, which only its own address survives. */
  predicate Reached(uid: Jid, h: seq<Event>, j: Jid) {
    if h == [] then j == uid
    else
      var g, e := h[..|h| - 1], h[|h| - 1];
      var st := After(uid, g).0;
      || TakesDirected(st, e, j, Available)
      || (ComesOut(st, e) && Subscriber(e.roster, j))
      || (Reached(uid, g, j)
          && !TakesDirected(st, e, j, Unavailable) && !TakesDirected(st, e, j, Invisible) && e != Bounce(j)
          && (TakesUndirected(st, e, Unavailable) ==> j == uid))
  }

  /** The last packet that the session has sent to j itself is an invisible, and it has not
      gone offline since. */
  predicate Hidden(uid: Jid, h: seq<Event>, j: Jid) {
    h != [] &&
    var g, e := h[..|h| - 1], h[|h| - 1];
    var st := After(uid, g).0;
    || TakesDirected(st, e, j, Invisible)
    || (Hidden(uid, g, j)
        && (e.Take? && st.queue != [] ==> st.queue[0].to != Some(j))
        && !TakesUndirected(st, e, Unavailable))
  }

  lemma TakesDirectedLists(uid: Jid, st: State, e: Event, j: Jid)
    requires Sound(uid, st) && e.Take? && st.queue != [] && st.queue[0].to.Some?
    ensures var st' := Step(st, e).0;
            && (j in st'.a <==> TakesDirected(st, e, j, Available)
                                || (j in st.a && !TakesDirected(st, e, j, Unavailable)
                                              && !TakesDirected(st, e, j, Invisible)))
            && (j in st'.i <==> TakesDirected(st, e, j, Invisible) || (j in st.i && st.queue[0].to != Some(j)))
  {
    var to, kind := st.queue[0].to.value, st.queue[0].kind;
    assert TakesDirected(st, e, j, Available) <==> to == j && kind == Available;
    assert TakesDirected(st, e, j, Unavailable) <==> to == j && kind == Unavailable;
    assert TakesDirected(st, e, j, Invisible) <==> to == j && kind == Invisible;
    DirectedLists(st.(queue := st.queue[1..]), to, kind, j);
  }

  lemma DirectedLists(st: State, to: Jid, kind: Kind, j: Jid)
    requires Unique(st.a) && Unique(st.i)
    ensures var st' := OnDirected(st, to, kind).0;
            && (j in st'.a <==> (to == j && kind.Available?)
                                || (j in st.a && !(to == j && (kind.Unavailable? || kind.Invisible?))))
            && (j in st'.i <==> (to == j && kind.Invisible?) || (j in st.i && to != j))
  {
    WhackMembers(to, st.a);
    WhackMembers(to, st.i);
    AppendMembers(st.a, to);
    AppendMembers(st.i, to);
  }

  lemma StepLists(uid: Jid, st: State, e: Event, j: Jid)
    requires Sound(uid, st) && Proper(uid, e)
    ensures var st' := Step(st, e).0;
            && (j in st'.a <==>
                  TakesDirected(st, e, j, Available) || (ComesOut(st, e) && Subscriber(e.roster, j))
                  || (j in st.a && !TakesDirected(st, e, j, Unavailable) && !TakesDirected(st, e, j, Invisible)
                      && e != Bounce(j) && (TakesUndirected(st, e, Unavailable) ==> j == uid)))
            && (j in st'.i <==>
                  TakesDirected(st, e, j, Invisible)
                  || (j in st.i && (e.Take? && st.queue != [] ==> st.queue[0].to != Some(j))
                      && !TakesUndirected(st, e, Unavailable)))
  {
    match e
    case Take(roster, trusted) =>
      if st.queue != [] && st.queue[0].to.Some? {
        TakesDirectedLists(uid, st, e, j);
      } else {
        PopulateMembers(st.a, roster);
      }
    case Bounce(from) => WhackMembers(from, st.a);
    case _ =>
  }

  /** Over every run, A holds exactly those whom the session has reached, and I exactly those
      from whom it hides. */
  lemma {:induction false} ListsAreHistory(uid: Jid, h: seq<Event>, j: Jid)
    requires AllProper(uid, h)
    ensures j in After(uid, h).0.a <==> Reached(uid, h, j)
    ensures j in After(uid, h).0.i <==> Hidden(uid, h, j)
  {
    if h != [] {
      var g, e := h[..|h| - 1], h[|h| - 1];
      ListsAreHistory(uid, g, j);
      RunsAreSound(uid, g);
      StepLists(uid, After(uid, g).0, e, j);
    }
  }

  /** The presence that the session has shown last: none after its end. */
  function Shown(uid: Jid, h: seq<Event>): Option<Kind> {
    if h == [] then Some(Unavailable)
    else
      var g, e := h[..|h| - 1], h[|h| - 1];
      var st := After(uid, g).0;
      if e.End? then None
      else if TakesUndirected(st, e, Available) then Some(Available)
      else if TakesUndirected(st, e, Unavailable) then Some(Unavailable)
      else Shown(uid, g)
  }

  /** The session became invisible while it was offline, and has neither come out nor gone
      offline since. */
  predicate Veiled(uid: Jid, h: seq<Event>) {
    h != [] &&
    var g, e := h[..|h| - 1], h[|h| - 1];
    var st := After(uid, g).0;
    || (TakesUndirected(st, e, Invisible) && st.priority < -128)
    || (Veiled(uid, g) && !TakesUndirected(st, e, Available) && !TakesUndirected(st, e, Unavailable))
  }

  /** The priority of the presence that the session has shown last, or under which it became
      invisible; -129 offline. */
  function Claimed(uid: Jid, h: seq<Event>): int {
    if h == [] then -129
    else
      var g, e := h[..|h| - 1], h[|h| - 1];
      var st := After(uid, g).0;
      if e.End? || TakesUndirected(st, e, Unavailable) then -129
      else if TakesUndirected(st, e, Available) || (TakesUndirected(st, e, Invisible) && Claimed(uid, g) < -128) then
        Priority(st.queue[0])
      else Claimed(uid, g)
  }

  lemma StepShows(st: State, e: Event)
    ensures var st' := Step(st, e).0;
            && st'.priority == (if e.End? || TakesUndirected(st, e, Unavailable) then -129
                                else if TakesUndirected(st, e, Available)
                                        || (TakesUndirected(st, e, Invisible) && st.priority < -128) then
                                  Priority(st.queue[0])
                                else st.priority)
            && st'.stored == (if e.End? then None
                              else if TakesUndirected(st, e, Available) then Some(Available)
                              else if TakesUndirected(st, e, Unavailable) then Some(Unavailable)
                              else st.stored)
            && st'.invisible == ((TakesUndirected(st, e, Invisible) && st.priority < -128)
                                 || (st.invisible && !TakesUndirected(st, e, Available)
                                     && !TakesUndirected(st, e, Unavailable)))
  {
    match e
    case Take(roster, trusted) =>
      if st.queue != [] && st.queue[0].to.Some? {
        var to := st.queue[0].to;
        assert to != None;
      }
    case _ =>
  }

  lemma {:induction false} PresenceIsHistory(uid: Jid, h: seq<Event>)
    ensures After(uid, h).0.stored == Shown(uid, h)
    ensures After(uid, h).0.invisible <==> Veiled(uid, h)
    ensures After(uid, h).0.priority == Claimed(uid, h)
  {
    if h != [] {
      PresenceIsHistory(uid, h[..|h| - 1]);
      StepShows(After(uid, h[..|h| - 1]).0, h[|h| - 1]);
    }
  }

  // -------------------------------------------------------------------- who is told

  /** How often j is told this. */
  function Times(more: seq<Trace>, j: Jid, kind: Kind): nat {
    if more == [] then 0 else (if more[0] == Tell(j, kind) then 1 else 0) + Times(more[1..], j, kind)
  }

  lemma {:induction false} TimesConcat(a: seq<Trace>, b: seq<Trace>, j: Jid, kind: Kind)
    ensures Times(a + b, j, kind) == Times(a, j, kind) + Times(b, j, kind)
  {
    if a == [] {
      assert a + b == b;
    } else {
      assert (a + b)[1..] == a[1..] + b;
      TimesConcat(a[1..], b, j, kind);
    }
  }

  lemma UniqueTail(ids: seq<Jid>)
    requires ids != [] && Unique(ids)
    ensures Unique(ids[1..]) && ids[0] !in ids[1..]
    ensures forall x :: x in ids <==> x == ids[0] || x in ids[1..]
  {
    assert ids == [ids[0]] + ids[1..];
    assert forall k :: 0 <= k < |ids| - 1 ==> ids[1..][k] == ids[k + 1];
  }

  lemma {:induction false} TellAllTimes(ids: seq<Jid>, told: Kind, j: Jid, kind: Kind)
    requires Unique(ids)
    ensures Times(TellAll(ids, told), j, kind) == if kind == told && j in ids then 1 else 0
  {
    if ids != [] {
      UniqueTail(ids);
      TellAllTimes(ids[1..], told, j, kind);
    }
  }

  lemma {:induction false} TellTrustedTimes(ids: seq<Jid>, trusted: set<Jid>, told: Kind, j: Jid, kind: Kind)
    requires Unique(ids)
    ensures Times(TellTrusted(ids, trusted, told), j, kind) == if kind == told && j in ids && j in trusted then 1 else 0
  {
    if ids != [] {
      UniqueTail(ids);
      TellTrustedTimes(ids[1..], trusted, told, j, kind);
      if ids[0] in trusted {
        assert TellTrusted(ids, trusted, told)[1..] == TellTrusted(ids[1..], trusted, told);
      } else {
        assert TellTrusted(ids, trusted, told) == TellTrusted(ids[1..], trusted, told);
      }
    }
  }

  /** How often this event tells j this: a directed packet is told to its addressee; a change
      is told to those reached whom the user trusts; coming out, to those reached and to the
      subscribers; going away, to those reached and to those from whom the session hides. */
  function Due(uid: Jid, h: seq<Event>, e: Event, j: Jid, kind: Kind): nat {
    var st := After(uid, h).0;
    if TakesDirected(st, e, j, kind) then 1
    else if Changes(st, e) then
      if kind == Available && Reached(uid, h, j) && j in e.trusted then 1 else 0
    else if ComesOut(st, e) then
      if kind == Available && (Reached(uid, h, j) || Subscriber(e.roster, j)) then 1 else 0
    else if e.End? || TakesUndirected(st, e, Unavailable) then
      if kind != Unavailable then 0
      else (if Reached(uid, h, j) then 1 else 0) + (if Hidden(uid, h, j) then 1 else 0)
    else 0
  }

  /** Main result: over every run, whatever happens next, everyone is told exactly what is due
      to them, and as often. */
  lemma EveryoneIsToldTheirDue(uid: Jid, h: seq<Event>, e: Event, j: Jid, kind: Kind)
    requires AllProper(uid, h) && Proper(uid, e)
    ensures Times(Step(After(uid, h).0, e).1, j, kind) == Due(uid, h, e, j, kind)
  {
    RunsAreSound(uid, h);
    ListsAreHistory(uid, h, j);
    StepTimes(uid, After(uid, h).0, e, j, kind);
  }

  lemma StepTimes(uid: Jid, st: State, e: Event, j: Jid, kind: Kind)
    requires Sound(uid, st)
    ensures Times(Step(st, e).1, j, kind)
         == if TakesDirected(st, e, j, kind) then 1
            else if TakesUndirected(st, e, Available) then
              if kind.Available? && (if Online(st) then j in st.a && j in e.trusted
                                     else j in st.a || Subscriber(e.roster, j)) then 1 else 0
            else if (e.End? || TakesUndirected(st, e, Unavailable)) && kind.Unavailable? then
              (if j in st.a then 1 else 0) + (if j in st.i then 1 else 0)
            else 0
  {
    if e.End? || TakesUndirected(st, e, Unavailable) {
      FarewellTimes(st, if e.Take? && st.invisible then [] else [TellBcc(Unavailable)], j, kind);
    } else if e.Take? && st.queue != [] && st.queue[0].to.Some? {
      assert [Tell(st.queue[0].to.value, st.queue[0].kind)][1..] == [];
    } else if TakesUndirected(st, e, Available) {
      AvailableTimes(st, e, j, kind);
    }
  }

  lemma AvailableTimes(st: State, e: Event, j: Jid, kind: Kind)
    requires Unique(st.a) && TakesUndirected(st, e, Available)
    ensures Times(Step(st, e).1, j, kind)
         == if kind.Available? && (if Online(st) then j in st.a && j in e.trusted
                                   else j in st.a || Subscriber(e.roster, j)) then 1 else 0
  {
    if Online(st) {
      TellTrustedTimes(st.a, e.trusted, Available, j, kind);
    } else {
      var a := Populate(st.a, e.roster);
      PopulateMembers(st.a, e.roster);
      TellAllTimes(a, Available, j, kind);
      assert Step(st, e).1 == [TellBcc(Available)] + TellAll(a, Available);
      assert Step(st, e).1[1..] == TellAll(a, Available);
    }
  }

  lemma FarewellTimes(st: State, bcc: seq<Trace>, j: Jid, kind: Kind)
    requires Unique(st.a) && Unique(st.i) && (bcc == [] || bcc == [TellBcc(Unavailable)])
    ensures Times(bcc + TellAll(st.a, Unavailable) + TellAll(st.i, Unavailable), j, kind)
         == if kind != Unavailable then 0 else (if j in st.a then 1 else 0) + (if j in st.i then 1 else 0)
  {
    TellAllTimes(st.a, Unavailable, j, kind);
    TellAllTimes(st.i, Unavailable, j, kind);
    TimesConcat(bcc, TellAll(st.a, Unavailable), j, kind);
    TimesConcat(bcc + TellAll(st.a, Unavailable), TellAll(st.i, Unavailable), j, kind);
    assert bcc != [] ==> bcc[1..] == [];
  }

  // ---------------------------------------------------------------- who may know

  /** What lets j know: the client tells j itself, even if only invisibly; j is a subscriber
      when the session comes out; or the user trusts j, and j asks. */
  predicate Entitles(st: State, e: Event, j: Jid) {
    match e
    case Send(p) => p.to == Some(j) && (p.kind.Available? || p.kind.Invisible?)
    case Take(roster, _) => ComesOut(st, e) && Subscriber(roster, j)
    case ProbeBy(from, trusts) => from == j && trusts && Answers(st, j)
    case _ => false
  }

  predicate Entitled(uid: Jid, h: seq<Event>, j: Jid) {
    if h == [] then j == uid
    else Entitled(uid, h[..|h| - 1], j) || Entitles(After(uid, h[..|h| - 1]).0, h[|h| - 1], j)
  }

  /** A visible session answers those from whom it does not hide; an invisible one those whom
      it has reached. */
  predicate Answers(st: State, j: Jid) { st.stored.Some? && if st.invisible then j in st.a else j !in st.i }

  /** The packet tells its addressee that the session is there. */
  predicate Reveals(p: Packet) { p.to.Some? && (p.kind.Available? || p.kind.Invisible?) }

  /** Whoever is on A, and whoever a queued packet is going to tell, is entitled to it. */
  predicate Discreet(uid: Jid, h: seq<Event>) {
    && (forall j :: j in After(uid, h).0.a ==> Entitled(uid, h, j))
    && (forall p :: p in After(uid, h).0.queue && Reveals(p) ==> Entitled(uid, h, p.to.value))
  }

  lemma {:induction false} ProbesRevealNothing(roster: seq<Contact>)
    ensures forall p :: p in Probes(roster) ==> !Reveals(p)
  {
    if roster != [] {
      ProbesRevealNothing(roster[1..]);
    }
  }

  /** What a step puts on the queue. */
  lemma QueueGrows(st: State, e: Event, p: Packet)
    requires p in Step(st, e).0.queue && p !in st.queue && Reveals(p)
    ensures Entitles(st, e, p.to.value)
  {
    match e
    case Take(roster, _) => ProbesRevealNothing(roster);
    case _ =>
  }

  lemma StepIsDiscreet(uid: Jid, g: seq<Event>, e: Event)
    requires AllProper(uid, g) && Proper(uid, e) && Discreet(uid, g)
    ensures Discreet(uid, g + [e])
  {
    var h := g + [e];
    var st := After(uid, g).0;
    assert h[..|h| - 1] == g && h[|h| - 1] == e;
    RunsAreSound(uid, g);
    forall j | j in Step(st, e).0.a ensures Entitled(uid, h, j) {
      StepLists(uid, st, e, j);
      if TakesDirected(st, e, j, Available) {
        assert st.queue[0] in st.queue && Reveals(st.queue[0]);
      }
    }
    forall p | p in Step(st, e).0.queue && Reveals(p) ensures Entitled(uid, h, p.to.value) {
      if p !in st.queue { QueueGrows(st, e, p); }
    }
  }

  lemma {:induction false} RunsAreDiscreet(uid: Jid, h: seq<Event>)
    requires AllProper(uid, h)
    ensures Discreet(uid, h)
  {
    if h != [] {
      var g, e := h[..|h| - 1], h[|h| - 1];
      RunsAreDiscreet(uid, g);
      StepIsDiscreet(uid, g, e);
      assert g + [e] == h;
    }
  }

  /** Telling changes what those believe who are told, and nobody else. */
  lemma {:induction false} BeliefIsTold(told: seq<Trace>, more: seq<Trace>, j: Jid)
    requires j in Believers(told + more) && j !in Believers(told)
    ensures Times(more, j, Available) + Times(more, j, Invisible) > 0
    decreases |more|
  {
    assert more == [] ==> told + more == told;
    if more != [] {
      Told(told, more[0]);
      assert told + more == (told + [more[0]]) + more[1..];
      if j !in Believers(told + [more[0]]) {
        BeliefIsTold(told + [more[0]], more[1..], j);
      }
    }
  }

  /** Main result: over every run, whoever believes the session there is entitled to know: the
      user, somebody the client has told itself, a subscriber of a time when the session came
      out, or somebody trusted who has asked. */
  lemma {:induction false} OnlyTheEntitledKnow(uid: Jid, h: seq<Event>, j: Jid)
    requires AllProper(uid, h) && j in Believers(After(uid, h).1)
    ensures Entitled(uid, h, j)
  {
    if h != [] {
      var g, e := h[..|h| - 1], h[|h| - 1];
      var (st, told) := After(uid, g);
      var more := Step(st, e).1;
      if j in Believers(told) {
        OnlyTheEntitledKnow(uid, g, j);
      } else {
        BeliefIsTold(told, more, j);
        EveryoneIsToldTheirDue(uid, g, e, j, Available);
        EveryoneIsToldTheirDue(uid, g, e, j, Invisible);
        DueIsEntitled(uid, g, e, j);
      }
    }
  }

  lemma DueIsEntitled(uid: Jid, g: seq<Event>, e: Event, j: Jid)
    requires AllProper(uid, g) && Proper(uid, e)
    requires Due(uid, g, e, j, Available) + Due(uid, g, e, j, Invisible) > 0
    ensures Entitled(uid, g, j) || Entitles(After(uid, g).0, e, j)
  {
    RunsAreDiscreet(uid, g);
    ListsAreHistory(uid, g, j);
    var st := After(uid, g).0;
    if TakesDirected(st, e, j, Available) || TakesDirected(st, e, j, Invisible) {
      assert st.queue[0] in st.queue && Reveals(st.queue[0]);
    }
  }

  // ------------------------------------------------------------- answers to probes

  /** What the session thread tells in a stretch of turns. */
  function ToldIn(st: State, h: seq<Event>): seq<Trace>
    decreases |h|
  {
    if h == [] then [] else Step(st, h[0]).1 + ToldIn(Step(st, h[0]).0, h[1..])
  }

  lemma TakeAdvances(st: State, e: Event)
    requires e.Take? && st.queue != []
    ensures st.queue[1..] <= Step(st, e).0.queue
    ensures st.queue[0].to.Some? ==> Times(Step(st, e).1, st.queue[0].to.value, st.queue[0].kind) == 1
  {
    if st.queue[0].to.Some? {
      assert [Tell(st.queue[0].to.value, st.queue[0].kind)][1..] == [];
    }
  }

  /** A packet that is queued is told when the thread has worked off its queue. */
  lemma {:induction false} QueuedIsTold(st: State, h: seq<Event>, r: nat, p: Packet)
    requires OnlyTakes(st, h, r) && Rest(st, h).queue == [] && p in st.queue && p.to.Some?
    ensures Times(ToldIn(st, h), p.to.value, p.kind) > 0
    decreases |h|
  {
    if h != [] {
      var (st1, more) := Step(st, h[0]);
      TimesConcat(more, ToldIn(st1, h[1..]), p.to.value, p.kind);
      TakeAdvances(st, h[0]);
      if p != st.queue[0] {
        assert p in st.queue[1..];
        var k :| 0 <= k < |st.queue| - 1 && st.queue[1..][k] == p;
        assert st1.queue[k] == p;
        QueuedIsTold(st1, h[1..], r, p);
      }
    }
  }

  /** Main result: a probe is answered if and only if the user trusts the prober and the
      session has a presence and, visible, does not hide from the prober or, invisible, has
      reached it. The answer is the presence of a visible session, plain availability of an
      invisible one, and the prober is told it when the thread has worked off its queue. */
  lemma ProbeIsAnswered(uid: Jid, g: seq<Event>, from: Jid, trusts: bool, h: seq<Event>, r: nat)
    requires AllProper(uid, g) && OnlyTakes(Step(After(uid, g).0, ProbeBy(from, trusts)).0, h, r)
    requires Rest(Step(After(uid, g).0, ProbeBy(from, trusts)).0, h).queue == []
    ensures var st := After(uid, g).0;
            var (st', told) := Step(st, ProbeBy(from, trusts));
            var visible :=
              Shown(uid, g).Some? && if Veiled(uid, g) then Reached(uid, g, from) else !Hidden(uid, g, from);
            && told == []
            && (trusts && visible ==>
                  var kind := if Veiled(uid, g) then Available else Shown(uid, g).value;
                  && st' == st.(queue := st.queue + [Packet(Some(from), kind, None)])
                  && Times(ToldIn(st', h), from, kind) > 0)
            && (!(trusts && visible) ==> st' == st)
  {
    var st := After(uid, g).0;
    var st' := Step(st, ProbeBy(from, trusts)).0;
    ListsAreHistory(uid, g, from);
    PresenceIsHistory(uid, g);
    if trusts && Answers(st, from) {
      var kind := if st.invisible then Available else st.stored.value;
      QueuedIsTold(st', h, r, Packet(Some(from), kind, None));
    }
  }

  // ---------------------------------------------------------- probes, and hiding

  lemma {:induction false} ProbesAre(roster: seq<Contact>, p: Packet)
    ensures p in Probes(roster) <==>
            exists c :: c in roster && c.subTo && p == Packet(Some(c.jid), Probe, None)
  {
    if roster != [] {
      ProbesAre(roster[1..], p);
      assert roster == [roster[0]] + roster[1..];
    }
  }

  predicate SubscribedTo(roster: seq<Contact>, j: Jid) { exists c :: c in roster && c.subTo && c.jid == j }

  /** The session becomes invisible: it was offline. */
  predicate Veils(st: State, e: Event) { TakesUndirected(st, e, Invisible) && st.priority < -128 }

  /** Main result: whoever comes online, even if only invisibly, probes those the user is
      subscribed to, as soon as the thread has worked off its queue. */
  lemma ContactsAreProbed(st: State, e: Event, h: seq<Event>, r: nat, j: Jid)
    requires (ComesOut(st, e) || Veils(st, e)) && SubscribedTo(e.roster, j)
    requires OnlyTakes(Step(st, e).0, h, r) && Rest(Step(st, e).0, h).queue == []
    ensures Times(ToldIn(Step(st, e).0, h), j, Probe) > 0
  {
    var p := Packet(Some(j), Probe, None);
    ProbesAre(e.roster, p);
    assert p in Step(st, e).0.queue;
    QueuedIsTold(Step(st, e).0, h, r, p);
  }

  predicate AllDirected(q: seq<Packet>) { q == [] || (q[0].to.Some? && AllDirected(q[1..])) }

  const GONE := Packet(None, Unavailable, None)

  /** Directed packets, and then an unavailable and this one. */
  predicate EndsWith(q: seq<Packet>, p: Packet) {
    q == [GONE, p] || (q != [] && q[0].to.Some? && EndsWith(q[1..], p))
  }

  /** The session is on its way to invisibility: online, with its unavailable and then its
      invisible at the end of the queue; then offline, with the invisible; then invisible. */
  predicate Veiling(st: State, p: Packet) {
    || (st.priority >= -128 && EndsWith(st.queue, p))
    || (st.priority < -128 && st.queue == [p])
    || (st.priority >= -128 && st.invisible && st.priority == Priority(p) && AllDirected(st.queue))
  }

  lemma DirectedVeils(st: State, e: Event, p: Packet)
    requires Veiling(st, p) && e.Take? && st.queue != [] && st.queue[0].to.Some? && p.to == None
    ensures Veiling(Step(st, e).0, p)
  {
    assert Step(st, e).0.queue == st.queue[1..] && Step(st, e).0.priority == st.priority;
  }

  lemma UndirectedVeils(st: State, e: Event, p: Packet)
    requires Veiling(st, p) && e.Take? && st.queue != [] && st.queue[0].to == None
    requires p.to == None && p.kind.Invisible? && InRange(p)
    ensures Veiling(Step(st, e).0, p)
  {
    if st.priority >= -128 {
      assert st.queue[1..] == [p];
    } else {
      assert st.queue[1..] == [];
      assert [] + Probes(e.roster) == Probes(e.roster);
      ProbesAreDirected(e.roster);
    }
  }

  lemma {:induction false} ProbesAreDirected(roster: seq<Contact>)
    ensures AllDirected(Probes(roster))
  {
    if roster != [] {
      ProbesAreDirected(roster[1..]);
      if roster[0].subTo {
        assert Probes(roster)[1..] == Probes(roster[1..]);
      } else {
        assert Probes(roster) == Probes(roster[1..]);
      }
    }
  }

  lemma {:induction false} DirectedThenGone(q: seq<Packet>, p: Packet)
    requires AllDirected(q)
    ensures EndsWith(q + [GONE, p], p)
  {
    if q == [] {
      assert q + [GONE, p] == [GONE, p];
    } else {
      assert (q + [GONE, p])[1..] == q[1..] + [GONE, p];
      DirectedThenGone(q[1..], p);
    }
  }

  lemma {:induction false} VeilingCompletes(st: State, h: seq<Event>, r: nat, p: Packet)
    requires Veiling(st, p) && OnlyTakes(st, h, r) && Rest(st, h).queue == []
    requires p.to == None && p.kind.Invisible? && InRange(p)
    ensures Rest(st, h).invisible && Rest(st, h).priority == Priority(p)
    decreases |h|
  {
    if h != [] {
      if st.queue[0].to.Some? { DirectedVeils(st, h[0], p); } else { UndirectedVeils(st, h[0], p); }
      VeilingCompletes(Step(st, h[0]).0, h[1..], r, p);
    }
  }

  /** Main result: an invisible that finds the session available is done in the end: when the
      thread has worked off its queue, the session is invisible, with the priority asked for. */
  lemma InvisibleIsDone(st: State, e: Event, h: seq<Event>, r: nat)
    requires TakesUndirected(st, e, Invisible) && st.priority >= -128 && AllDirected(st.queue[1..])
    requires OnlyTakes(Step(st, e).0, h, r) && Rest(Step(st, e).0, h).queue == []
    ensures Rest(Step(st, e).0, h).invisible && Rest(Step(st, e).0, h).priority == Priority(st.queue[0])
  {
    var p, rest := st.queue[0], st.queue[1..];
    assert Step(st, e).0.queue == rest + [GONE, p];
    DirectedThenGone(rest, p);
    VeilingCompletes(Step(st, e).0, h, r, p);
  }
}
