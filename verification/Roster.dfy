/** The roster handlers of mod_roster.c: one roster item per contact, and the
    four subscription stanzas a client sends and receives. */
module Roster {
  import opened Options

  /** A bare address, user@server. */
  type Jid = string

  datatype Sub = SubNone | SubTo | SubFrom | SubBoth {
    predicate HasTo() { SubTo? || SubBoth? }
    predicate HasFrom() { SubFrom? || SubBoth? }
  }

  datatype Ask = AskSubscribe | AskUnsubscribe

  /** The attributes of an <item/>: `subscribe` holds the status text of a
      subscription request that the user has not answered yet. */
  datatype Item = Item(sub: Sub, ask: Option<Ask>, subscribe: Option<string>, hidden: bool) {
    /** What every handler keeps true of an item. */
    predicate Consistent() {
      && (ask == Some(AskSubscribe) ==> !sub.HasTo())
      && (ask == Some(AskUnsubscribe) ==> sub.HasTo())
      && (hidden ==> subscribe.Some? && !sub.HasFrom())
    }
  }

  type Items = map<Jid, Item>

  const FRESH_ITEM := Item(SubNone, None, None, false)

  datatype Kind = Subscribe | Subscribed | Unsubscribe | Unsubscribed

  datatype Change = AddFrom | AddTo | RemFrom | RemTo

  /** mod_roster_set_s10n: each change moves one direction and leaves the other alone. */
  function SetS10n(change: Change, sub: Sub): (r: Sub)
    ensures r.HasFrom() == (if change.AddFrom? then true else if change.RemFrom? then false else sub.HasFrom())
    ensures r.HasTo() == (if change.AddTo? then true else if change.RemTo? then false else sub.HasTo())
  {
    match change
    case AddFrom => if sub.SubTo? || sub.SubBoth? then SubBoth else SubFrom
    case AddTo => if sub.SubFrom? || sub.SubBoth? then SubBoth else SubTo
    case RemFrom => if sub.SubBoth? || sub.SubTo? then SubTo else SubNone
    case RemTo => if sub.SubBoth? || sub.SubFrom? then SubFrom else SubNone
  }

  /** mod_roster_get_item: the existing item, or a fresh one with subscription none. */
  function ItemOf(items: Items, jid: Jid): Item {
    if jid in items then items[jid] else FRESH_ITEM
  }

  predicate To(items: Items, jid: Jid) { ItemOf(items, jid).sub.HasTo() }

  predicate From(items: Items, jid: Jid) { ItemOf(items, jid).sub.HasFrom() }

  predicate AllConsistent(items: Items) {
    forall jid :: jid in items ==> items[jid].Consistent()
  }

  /** What a handler does besides changing the roster. */
  datatype Effect =
    | Push(jid: Jid, item: Item)                 // roster push to every session
    | PushRemoval(jid: Jid)
    | ForcePresence(to: Jid, available: bool)    // mod_roster_pforce
    | RosterFull                                 // the error message to the user

  /** mod_roster_push sends nothing for a hidden item. */
  function PushOf(jid: Jid, item: Item): seq<Effect> {
    if item.hidden then [] else [Push(jid, item)]
  }

  // ---------------------------------------------------------------- outgoing

  datatype OutResult = OutResult(items: Items, pass: bool, effects: seq<Effect>)

  /** mod_roster_out_s10n. `pass` is false only when the packet is swallowed. */
  function OutS10n(self: Jid, max: int, items: Items, to: Jid, kind: Kind): OutResult {
    if to == self then OutResult(items, true, [])
    else
      var item := ItemOf(items, to);
      var known := items[to := item];
      match kind
      case Subscribe =>
        if item.sub.HasTo() then OutResult(known, true, [])
        else if |known| >= max then OutResult(items, false, [RosterFull])
        else
          var i := item.(ask := Some(AskSubscribe));
          OutResult(known[to := i], true, PushOf(to, i))
      case Subscribed =>
        var i := item.(sub := SetS10n(AddFrom, item.sub), subscribe := None, hidden := false);
        OutResult(known[to := i], true, [ForcePresence(to, true)] + PushOf(to, i))
      case Unsubscribe =>
        if item.sub.HasTo() then
          var i := item.(ask := Some(AskUnsubscribe));
          OutResult(known[to := i], true, PushOf(to, i))
        else OutResult(items, true, [])
      case Unsubscribed =>
        if item.sub.HasFrom() then
          var i := item.(sub := SetS10n(RemFrom, item.sub));
          OutResult(known[to := i], true, [ForcePresence(to, false)] + PushOf(to, i))
        else if to !in items || item.hidden then OutResult(items - {to}, true, [])
        else OutResult(known[to := item.(subscribe := None)], true, [])
  }

  // ---------------------------------------------------------------- incoming

  datatype InResult = InResult(items: Items, reply: Option<Kind>, probe: bool, drop: bool, effects: seq<Effect>)

  /** mod_roster_s10n for a user that has an account. */
  function InS10n(self: Jid, items: Items, from: Jid, kind: Kind, status: Option<string>): InResult {
    if from == self then InResult(items, None, false, false, [])
    else
      var item := ItemOf(items, from);
      match kind
      case Subscribe =>
        if item.sub.HasFrom() then InResult(items, Some(Subscribed), true, true, [])
        else
          var i := item.(subscribe := Some(status.GetOr("")), hidden := item.hidden || from !in items);
          InResult(items[from := i], None, false, false, [])
      case Subscribed =>
        if item.sub.HasTo() || item.ask.None? then InResult(items, None, false, true, [])
        else
          var i := item.(ask := None, sub := SetS10n(AddTo, item.sub));
          InResult(items[from := i], None, false, false, PushOf(from, i))
      case Unsubscribe =>
        if item.sub.HasFrom() then
          var i := item.(subscribe := None, sub := SetS10n(RemFrom, item.sub));
          if item.hidden then InResult(items - {from}, Some(Unsubscribed), false, false, [])
          else InResult(items[from := i], Some(Unsubscribed), false, false, [Push(from, i)])
        else InResult(items, Some(Unsubscribed), false, true, [])
      case Unsubscribed =>
        if item.sub.HasTo() || item.ask.Some? then
          var i := item.(ask := None, sub := SetS10n(RemTo, item.sub));
          InResult(items[from := i], None, false, false, PushOf(from, i))
        else InResult(items, None, false, true, [])
  }

  // ------------------------------------------------------------- roster sets

  /** One <item/> of a roster set; `jid` is None when its address does not parse. */
  datatype SetItem = SetItem(jid: Option<Jid>, remove: bool)

  /** The state of the loop in the set branch of mod_roster_out_iq. `sent` holds the
      packets handed to js_session_from; `isNew` is never reset between items. */
  datatype SetState = SetState(items: Items, count: int, isNew: bool, full: bool,
                               sent: seq<(Jid, Kind)>, effects: seq<Effect>)

  /** The packets that cancel both directions of a removed item. */
  function Cancellations(jid: Jid, item: Item): seq<(Jid, Kind)> {
    (if item.sub.HasTo() || item.ask == Some(AskSubscribe) then [(jid, Unsubscribe)] else [])
    + (if item.sub.HasFrom() then [(jid, Unsubscribed)] else [])
  }

  /** One turn of the loop. */
  function SetOne(self: Jid, max: int, st: SetState, one: SetItem): SetState {
    if one.jid.None? || one.jid.value == self then st
    else
      var jid := one.jid.value;
      var item := ItemOf(st.items, jid);
      var isNew := st.isNew || jid !in st.items;
      if one.remove then
        st.(items := st.items - {jid}, isNew := isNew, sent := st.sent + Cancellations(jid, item),
            effects := st.effects + [PushRemoval(jid)])
      else if isNew && st.count >= max then
        st.(full := true, effects := st.effects + [RosterFull])
      else
        var i := Item(item.sub, item.ask, None, false);
        st.(items := st.items[jid := i], isNew := isNew, count := if isNew then st.count + 1 else st.count,
            effects := st.effects + [Push(jid, i)])
  }

  function SetAll(self: Jid, max: int, st: SetState, set_: seq<SetItem>): SetState
    decreases |set_|
  {
    if set_ == [] || st.full then st
    else SetAll(self, max, SetOne(self, max, st, set_[0]), set_[1..])
  }

  function SetStart(items: Items): SetState { SetState(items, |items|, false, false, [], []) }

  /** The roster that is saved: a set that runs into the size limit saves nothing. */
  function SetSaved(self: Jid, max: int, items: Items, set_: seq<SetItem>): Items {
    var st := SetAll(self, max, SetStart(items), set_);
    if st.full then items else st.items
  }

  function SetSent(self: Jid, max: int, items: Items, set_: seq<SetItem>): seq<(Jid, Kind)> {
    SetAll(self, max, SetStart(items), set_).sent
  }

  // ------------------------------------------------------ the handlers proper

  /** One user's stored roster and the handlers that rewrite it. */
  class Account {
    const self: Jid
    const max: int
    var items: Items

    constructor (self: Jid, max: int)
      ensures this.self == self && this.max == max && items == map[]
    {
      this.self, this.max, items := self, max, map[];
    }

    method Outgoing(to: Jid, kind: Kind) returns (pass: bool, effects: seq<Effect>)
      modifies this
      ensures OutResult(items, pass, effects) == OutS10n(self, max, old(items), to, kind)
    {
      pass, effects := true, [];
      if to == self { return; }
      var newflag := to !in items;
      var item := if newflag then FRESH_ITEM else items[to];
      var roster := items[to := item];
      var gone := false;
      match kind {
        case Subscribe =>
          if !item.sub.HasTo() {
            if |roster| >= max {
              return false, [RosterFull];
            }
            item := item.(ask := Some(AskSubscribe));
            effects := PushOf(to, item);
          }
        case Subscribed =>
          item := item.(sub := SetS10n(AddFrom, item.sub));
          item := item.(subscribe := None);
          item := item.(hidden := false);
          effects := [ForcePresence(to, true)];
          effects := effects + PushOf(to, item);
        case Unsubscribe =>
          if item.sub.HasTo() {
            item := item.(ask := Some(AskUnsubscribe));
            effects := PushOf(to, item);
          } else if newflag {
            gone := true;
          }
        case Unsubscribed =>
          if item.sub.HasFrom() {
            item := item.(sub := SetS10n(RemFrom, item.sub));
            effects := [ForcePresence(to, false)];
            effects := effects + PushOf(to, item);
          } else if newflag {
            gone := true;
          } else if item.hidden {
            gone := true;
          } else {
            item := item.(subscribe := None);
          }
      }
      items := if gone then roster - {to} else roster[to := item];
    }

    method Incoming(from: Jid, kind: Kind, status: Option<string>)
      returns (reply: Option<Kind>, probe: bool, drop: bool, effects: seq<Effect>)
      modifies this
      ensures InResult(items, reply, probe, drop, effects) == InS10n(self, old(items), from, kind, status)
    {
      reply, probe, drop, effects := None, false, false, [];
      if from == self { return; }
      var newflag := from !in items;
      var item := if newflag then FRESH_ITEM else items[from];
      var roster := items[from := item];
      var gone, push := false, false;
      match kind {
        case Subscribe =>
          if item.sub.HasFrom() {
            reply, probe, drop := Some(Subscribed), true, true;
          } else {
            item := item.(subscribe := Some(if status.None? then "" else status.value));
            if newflag { item := item.(hidden := true); }
          }
        case Subscribed =>
          if item.sub.HasTo() || item.ask.None? {
            gone, drop := newflag, true;
          } else {
            item := item.(ask := None);
            item := item.(sub := SetS10n(AddTo, item.sub));
            push := true;
          }
        case Unsubscribe =>
          if item.sub.HasFrom() {
            item := item.(subscribe := None);
            item := item.(sub := SetS10n(RemFrom, item.sub));
            if item.hidden { gone := true; } else { push := true; }
          } else {
            gone, drop := newflag, true;
          }
          reply := Some(Unsubscribed);
        case Unsubscribed =>
          if item.sub.HasTo() || item.ask.Some? {
            item := item.(ask := None);
            item := item.(sub := SetS10n(RemTo, item.sub));
            push := true;
          } else {
            gone, drop := newflag, true;
          }
      }
      items := if gone then roster - {from} else roster[from := item];
      if push { effects := PushOf(from, item); }
    }

    /** The set branch of mod_roster_out_iq. */
    method RosterSet(incoming: seq<SetItem>) returns (sent: seq<(Jid, Kind)>, full: bool, effects: seq<Effect>)
      modifies this
      ensures items == SetSaved(self, max, old(items), incoming)
      ensures sent == SetSent(self, max, old(items), incoming)
      ensures SetAll(self, max, SetStart(old(items)), incoming).effects == effects
      ensures SetAll(self, max, SetStart(old(items)), incoming).full == full
    {
      var roster, count, newflag := items, |items|, false;
      sent, full, effects := [], false, [];
      var i := 0;
      while i < |incoming|
        invariant i <= |incoming| && !full && items == old(items)
        invariant SetAll(self, max, SetStart(old(items)), incoming)
               == SetAll(self, max, SetState(roster, count, newflag, full, sent, effects), incoming[i..])
      {
        var cur := incoming[i];
        ghost var before := SetState(roster, count, newflag, full, sent, effects);
        if cur.jid.Some? && cur.jid.value != self {
          var jid := cur.jid.value;
          var item := if jid in roster then roster[jid] else FRESH_ITEM;
          if jid !in roster { newflag := true; }
          roster := roster - {jid};
          if cur.remove {
            if item.sub.HasTo() || item.ask == Some(AskSubscribe) {
              sent := sent + [(jid, Unsubscribe)];
            }
            if item.sub.HasFrom() {
              sent := sent + [(jid, Unsubscribed)];
            }
            effects := effects + [PushRemoval(jid)];
          } else {
            if newflag {
              if count >= max {
                full, effects := true, effects + [RosterFull];
                assert SetOne(self, max, before, cur).full;
                return;
              }
              count := count + 1;
            }
            var i' := Item(item.sub, item.ask, None, false);
            roster := roster[jid := i'];
            effects := effects + [Push(jid, i')];
            assert roster == before.items[jid := i'];
          }
        }
        assert SetState(roster, count, newflag, full, sent, effects) == SetOne(self, max, before, cur);
        i := i + 1;
      }
      items := roster;
    }
  }

}
