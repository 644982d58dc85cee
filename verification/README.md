# wpjabber in Dafny

A verified model of the parts of the wpjabber XMPP server whose correctness is hard to see by
reading: the subscription protocol of the roster, server dialback, the presence tracker, the XML
tree and its stream, the addresses, and the data structures and queues underneath. `dafny verify
dfyconfig.toml` checks all of it.

Objects that the C code updates in place are classes whose methods carry the name and the control
flow of the C function; loops are loops. Every such method is proved equal to a function on values,
or to a property of the old and the new state, and the laws are lemmas about those functions over
all inputs, all steps or all runs.

## What is proved, module by module

- `Roster`, `RosterNetwork`: the handlers of `mod_roster.c`, and N users who exchange subscription
  packets over queues. In every reachable state each pair of users is safe: whoever is no longer
  granted a subscription knows it, or the revocation is on its way. With nothing on its way, `to` on
  one side implies `from` on the other. One kind of step breaks this, and exactly one: a session that
  ends with an unsent `unsubscribed` in its queue which is the last notice that the contact would have
  got. A run keeps every pair safe all along if and only if no such session end is in it. An approval
  is believed exactly by those who have something pending or believed it before. Automatic replies
  always drain.
- `RosterClients`: what the clients of those users get to see. A client's own copy of the roster is the
  visible part of the stored one after every event, unless a roster set that overflows has pushed what
  it does not save, and exactly then; each request is answered or shown, and waits until it is dealt with.
- `DialbackPacket`, `DialbackIn`, `DialbackOut`, `DialbackFate`, `DialbackRun`: soundness of the receiving
  side over all histories, and how long a pair stays trusted there; conservation on the originating side,
  what is written on which socket, why anything is failed, dropped or bounced, and which addresses are
  tried in which order; and the whole exchange of three roles, in which every station gets what the one
  before has put out: the pair is registered and the queue flushed if and only if the presented text is
  the authority's own. `dialback_merlin` is an arbitrary function of three strings.
- `Presence`, `PresencePrivacy`: who may learn that a session is online, who is told what, who is answered
  a probe, and who is told that the session is gone. Without a slip nobody is forgotten at the end of the
  session; a slip is a directed probe or error to someone who is on I only, and the probes that the server
  itself sends at login (jsm/util_roster.c) can be slips.
- `Jid`: parser and printer. Parsing what was printed gives the address back exactly when the user
  holds no `/`; `jid_append` ends and keeps the list free of duplicates because of that, and runs
  forever on the remaining addresses whose front part is a host name.
- `XmlText`, `XmlNode`, `XmlStream`, `XmlParser`: escaping, the tree with its pointers, lazy merging of
  character data, the printer that walks with a level counter and parent pointers, the stream machine
  on values, and the handlers that grow a linked tree at its last open node. Together: whatever events
  a stream brings, the linked stanzas print as their values do.
- `XmlReader`: a reader of the printed text, independent of the printer. What is printed reads back as the
  tree, and arrives at the other end of a stream stanza by stanza.
- `Sha`: the incremental hash against FIPS 180-1, whose constants are stated apart from the code.
- `RateSpec`, `RateTable`: the sliding window of the connection limiter from both sides, when exactly it
  lets an address in, the gate in front of it, and the table of chains and free list that implements it.
- `Mtq`, `Xhash`, `Pool`, `IoQueue`: work queues with recycled cells, the hash table with tombstones,
  the memory pools, and the linked write queue under short writes.
- `DeliverList`, `Deliver`: handler lists and the mutual recursion of `deliver`, `deliver_instance`,
  `deliver_fail` and the logger, which ends, bounces a packet at most once, and never touches a packet
  that a handler ate or that was freed: every use of a packet has that as a precondition.

Where the code does not do what its comments or its users would expect, the model follows the code
and says so with a lemma: `EndKeepsSafe`, `CleanRunsAreExact`, `EndedSessionLosesRevocation`,
`UnaskedApproval`, `OverflowMisleads` (a roster set that overflows pushes what it does not save),
`ServerProbeForgets`, `SlipForgets`, `AppendDiverges`, `PrintsRootAlone`, `Undetermined`,
`WindowNeedsOneConnection`, `RunsAreLimited` (a limit of n connections lets n - 1 in), `WillingSocket` (an empty buffer closes the
socket).

## Assumptions

Handlers run one at a time and read and write the roster atomically. Contacts are bare addresses, every
roster item has a subscription, and clients do not put `ask`, `hidden` or `subscribe` into a roster set.
Stream ids are unique. A session's own user is not the target of its directed presence and is not the
sender of a bounce or a probe. The clock of the rate limiter never goes back, and its products do not
overflow. `malloc` succeeds and returns a new block every time. A delivery handler eats a packet only
if it answers `r_DONE`, does not change a packet that it does not eat, and does not call back into the
router. Write results, answers of handlers, the clock and the order of events are inputs.

## Model

| member | source | states |
|---|---|---|
| `Roster.SetS10n` | jsm/modules/mod_roster.c:134-167 | each subscription change moves one direction and leaves the other as it is |
| `Roster.Account.constructor` | jsm/modules/mod_roster.c:61-76 | an account starts with an empty roster |
| `Roster.Account.Outgoing` | jsm/modules/mod_roster.c:191-302 | the handler for sent subscription packets computes the new roster, whether the packet goes on, pushes, forced presence and the roster-full error that the transition table OutS10n says |
| `Roster.Account.Incoming` | jsm/modules/mod_roster.c:520-659 | the handler for received subscription packets computes the new roster, the automatic reply, the probe, the pushes, and whether the packet is kept from the client, as InS10n says; what InS10n must do is in RosterNetwork.InDirections, RosterClients.RequestIsAnsweredOrShown and RosterClients.ChangeIsShown |
| `Roster.Account.RosterSet` | jsm/modules/mod_roster.c:361-490 | a roster set with several items, removals included, saves, pushes and cancels what the fold over its items says, and saves nothing when the roster is full |
| `RosterNetwork.SetAllRevokes` | jsm/modules/mod_roster.c:403-446 | a roster set takes a grant away only together with an unsubscribed to that contact, and never adds a direction |
| `RosterNetwork.SetAllConsistent` | jsm/modules/mod_roster.c:361-490 | a roster set keeps ask, subscription and hidden consistent in every item |
| `RosterNetwork.OutDirections` | jsm/modules/mod_roster.c:191-302 | sending moves only the from direction of the addressee: subscribed grants, unsubscribed revokes and always goes on, nothing sent ever adds to |
| `RosterNetwork.InDirections` | jsm/modules/mod_roster.c:520-659 | receiving subscribed is all that can add to, unsubscribed always removes it, unsubscribe always removes from; exactly which packets are answered and how |
| `RosterNetwork.RunPacketKeepsSafe` | jsm/modules/mod_roster.c:191-302 | handling a queued subscription packet keeps every pair of users safe |
| `RosterNetwork.RunUpdateKeepsSafe` | jsm/modules/mod_roster.c:361-490 | handling a queued roster set keeps every pair of users safe |
| `RosterNetwork.DeliverKeepsSafe` | jsm/modules/mod_roster.c:520-659 | delivering a packet, with the automatic reply, keeps every pair of users safe |
| `RosterNetwork.EndKeepsSafe` | jsm/modules/mod_roster.c:403-446 | the end of a session, which sends what is queued into oblivion (_js_session_from in jsm/sessions.c), keeps a safe pair safe if and only if the grant is still there, an unsubscribed is the last verdict under way, the contact believes nothing and nothing is under way, or another session has an unsubscribed queued |
| `RosterNetwork.StepKeepsSafe` | jsm/modules/mod_roster.c:191-302 | every possible step keeps every pair safe, unless it is the end of a session that drops the last notice of a contact |
| `RosterNetwork.CleanStepsAreExact` | jsm/modules/mod_roster.c:403-446 | from a safe network a step leads to a safe network if and only if it is clean, that is, no end of a session that drops the last notice of a contact |
| `RosterNetwork.RunIsSafe` | jsm/modules/mod_roster.c:520-659 | safety of all pairs over whole clean runs |
| `RosterNetwork.CleanRunsAreExact` | jsm/modules/mod_roster.c:403-446 | main result: a run keeps every pair safe after each of its steps if and only if all of its steps are clean |
| `RosterNetwork.RunIsConsistent` | jsm/modules/mod_roster.c:134-167 | consistency of all rosters over whole runs |
| `RosterNetwork.GrantsAgree` | jsm/modules/mod_roster.c:520-659 | main result: from empty rosters, once nothing is on its way, whoever believes to be subscribed is granted the subscription; in the busy network the last verdict in flight tells |
| `RosterNetwork.InternalStepWeighsLess` | jsm/modules/mod_roster.c:520-659 | every server step without client input makes a natural-number weight of the network smaller |
| `RosterNetwork.RepliesDrain` | jsm/modules/mod_roster.c:520-659 | main result: without client input at most that many steps happen, and when none is possible nothing is on its way: automatic replies cannot loop |
| `RosterNetwork.RunQueuesAccounts` | jsm/modules/mod_roster.c:520-659 | the premise of RepliesDrain holds in every reachable state |
| `RosterNetwork.Handshake` | jsm/modules/mod_roster.c:191-302 | a subscription request that is approved ends with to on one side and from on the other, the opposite direction unchanged |
| `RosterNetwork.RosterFullRefuses` | jsm/modules/mod_roster.c:191-302 | a request that does not fit into the roster changes nothing and sends nothing |
| `RosterNetwork.Unsubscription` | jsm/modules/mod_roster.c:191-302 | from any two consistent rosters, unsubscribe ends with neither to nor from in that direction, and the other direction is what it was |
| `RosterNetwork.RemovalUnsubscribes` | jsm/modules/mod_roster.c:403-446 | the unsubscribe of a removed contact, with the answer, takes the contact's from away |
| `RosterNetwork.RemovalRevokes` | jsm/modules/mod_roster.c:403-446 | the unsubscribed of a removed contact takes the contact's to away and leaves its from alone |
| `RosterNetwork.Removal` | jsm/modules/mod_roster.c:403-446 | removing a contact ends with the contact gone and its to given up; its from stays if and only if it was there and the user neither had to nor had asked for it |
| `RosterNetwork.UnaskedApproval` | jsm/modules/mod_roster.c:520-659 | the converse of GrantsAgree, exactly: an approval always leaves from, and to is there afterwards if and only if it was before or the user has anything pending, a request to subscribe or one to unsubscribe |
| `RosterNetwork.EndedSessionLosesRevocation` | jsm/modules/mod_roster.c:403-446 | an input for the broken promise: a contact is removed and the session ends before its queued unsubscribed is handled; from is gone, to stays for good, and the run is not clean |
| `RosterClients.RequestIsAnsweredOrShown` | jsm/modules/mod_roster.c:559-583 | a request from another user is answered by the server or passed on to the client, never both and never neither; it is answered, and a probe sent, exactly when the sender is granted already; one that is passed on is stored with its text |
| `RosterClients.ChangeIsShown` | jsm/modules/mod_roster.c:584-659 | a subscribed, unsubscribe or unsubscribed is passed on exactly when it changes the stored item of its sender, leads to no probe, and the change is pushed exactly when the item is visible |
| `RosterClients.OutView` | jsm/modules/mod_roster.c:97-130 | the pushes of a sent packet turn the visible part of the old roster into that of the new one |
| `RosterClients.InView` | jsm/modules/mod_roster.c:629-641 | so do those of a received packet |
| `RosterClients.SetView` | jsm/modules/mod_roster.c:361-490 | what a roster set has pushed so far is what it would save |
| `RosterClients.RunKnows` | jsm/modules/mod_roster.c:361-490 | a handled packet or roster set keeps the client in step if and only if it is not a set that runs into the size limit after it has pushed a change |
| `RosterClients.DeliverKnows` | jsm/modules/mod_roster.c:520-659 | a delivered packet keeps the client of its addressee in step |
| `RosterClients.EventsAreExact` | jsm/modules/mod_roster.c:304-498 | from clients in step an event keeps them in step if and only if it is not a roster set that misleads |
| `RosterClients.ClientsStayInSync` | jsm/modules/mod_roster.c:97-130 | main result: over every run, with clients that come and go, what each client has made of its roster result and the pushes is the visible part of the stored roster, and it was shown every request that waits, after every event, if and only if no roster set of its user misleads |
| `RosterClients.OverflowMisleads` | jsm/modules/mod_roster.c:394-470 | a roster set that misleads: of two new contacts only one fits, and it is pushed although nothing is saved |
| `RosterClients.RequestsAreSettled` | jsm/modules/mod_roster.c:559-659 | main result: while a client is there, requests shown to it plus requests answered by the server are the requests that have reached its user |
| `RosterClients.RunSettled` | jsm/modules/mod_roster.c:134-167 | over every run whoever is granted the presence has no request open |
| `RosterClients.RequestWaits` | jsm/modules/mod_roster.c:319-360 | main result: a stored request waits over every run until its user deals with the contact, and a client that asks for its roster in the meantime is shown it |
| `RosterClients.OutTells` | jsm/modules/mod_roster.c:170-302 | a contact is sent the presence exactly by an approval, and a goodbye exactly when it loses its grant; a request is refused exactly when it does not fit |
| `RosterClients.SetFits` | jsm/modules/mod_roster.c:394-470 | a roster set never makes the roster longer than the limit |
| `RosterClients.OneItemSet` | jsm/modules/mod_roster.c:394-470 | a set of one item is refused exactly when the item is new and the roster is full |
| `Jid.ParseValid` | lib/jid.c:70-117 | whatever the parser returns is valid and has no slash in its user |
| `Jid.ParsePrinted` | lib/jid.c:156-179 | every valid address without a slash in its user survives printing and parsing, field by field |
| `Jid.RoundTrip` | lib/jid.c:156-179 | a valid address survives printing and parsing if and only if its user has no slash |
| `Jid.PrintInjective` | lib/jid.c:156-179 | two addresses the parser can return print differently |
| `Jid.ParseShape` | lib/jid.c:70-117 | what the parser cuts out of prefix:user@host/resource, for every choice of the parts |
| `Jid.Address.constructor` | lib/jid.c:70-117 | a new address has no cached text |
| `Jid.Address.MakeSafe` | lib/jid.c:44-68 | lowers the host and cuts the user in place, and says whether the address is acceptable; what is left behind when it is not |
| `Jid.Address.SetResource` | lib/jid.c:119-154 | setting the resource keeps the cached text coherent |
| `Jid.Address.SetUser` | lib/jid.c:119-154 | an unacceptable user leaves the address as it was; the cache stays coherent |
| `Jid.Address.SetServer` | lib/jid.c:119-154 | an unacceptable host leaves the address as it was; the cache stays coherent |
| `Jid.Address.Full` | lib/jid.c:156-179 | the text returned, cached or not, is that of the present fields |
| `Jid.SlashedCopy` | lib/jid.c:263-284 | exactly when an address with a slash in its user parses after printing, and that the copy is then a different address |
| `Jid.CopyOf` | lib/jid.c:263-284 | the copy that jid_append makes is the address itself, or none |
| `Jid.Append` | lib/jid.c:263-284 | jid_append ends, adds the address exactly when it is not known, and keeps the list free of duplicates |
| `Jid.WalkAppend` | lib/jid.c:263-284 | the walk of jid_append stops at the copy it has appended itself |
| `Jid.AppendDiverges` | lib/jid.c:263-284 | for the addresses that Append excludes the walk never ends and the list grows without bound |
| `DialbackPacket.InKeyInjective` | dialback/dialback_in.c:52-70 | the key ID@to/from stands for one stream id, one recipient host and one sender |
| `DialbackIn.PairKeyInjective` | dialback/dialback_in.c:237-274 | the same for pairs of hosts |
| `DialbackIn.AllJustified` | dialback/dialback_in.c:90-141 | over every lawful history: each table entry goes back to the events that justify it |
| `DialbackIn.PassedStanzasAreVerified` | dialback/dialback_in.c:119-141 | main result: a stanza is passed on only if its socket was accepted, then a db:result for exactly that pair was read on it, then a valid verdict for that stream id and pair arrived, in that order |
| `DialbackIn.ConfirmedPositions` | dialback/dialback_in.c:216-277 | the history predicate of the main result spelled out as three positions |
| `DialbackIn.OwnerOf` | dialback/dialback_in.c:216-277 | a confirmed key belongs to one stream and one pair |
| `DialbackIn.ResultsConsumedOnce` | dialback/dialback_in.c:237-274 | main result: for every key, results stored equal results consumed plus results still stored, so none is consumed twice |
| `DialbackIn.ConsumesNeedsOne` | dialback/dialback_in.c:237-274 | a verdict is acted on only if a stored result matches it |
| `DialbackIn.CleanupsAre` | dialback/dialback_in.c:254-268 | the cleanup list of a socket holds exactly the pairs registered on it since its memory was last released |
| `DialbackIn.RegisteredIsConfirmed` | dialback/dialback_in.c:216-277 | a registered pair was announced on its socket and confirmed for its stream |
| `DialbackIn.OneOwner` | dialback/dialback_in.c:237-268 | a pair of one stream is confirmed on one socket only |
| `DialbackIn.TrustLastsAsLongAsTheSocket` | dialback/dialback_in.c:202-212 | main result: over every lawful history a pair is trusted on a socket exactly from the verdict that registers it until the memory of that socket is released, so no entry outlives its socket and releasing one takes no entry of another |
| `DialbackIn.Incoming.AcceptStream` | dialback/dialback_in.c:15-35 | a new stream is entered under its id |
| `DialbackIn.Incoming.ReadPacket` | dialback/dialback_in.c:90-141 | reading a packet stores a result and forwards a verify, answers a verify, passes a stanza, or refuses, as the step function says |
| `DialbackIn.Incoming.Verify` | dialback/dialback_in.c:216-277 | a verdict finds its stream and result, registers the pair if valid, answers, and uses the result up |
| `DialbackIn.Incoming.Close` | dialback/dialback_in.c:143-156 | a closed stream leaves the id table |
| `DialbackIn.Incoming.Release` | dialback/dialback_in.c:202-212 | freeing the socket unregisters every pair that still points to it |
| `DialbackOut.PacketsAreConserved` | dialback/dialback_out.c:127-246 | main result: over every history, packets submitted for a pair equal packets gone (written, failed or bounced) plus packets held: each leaves exactly once |
| `DialbackOut.StepConserves` | dialback/dialback_out.c:313-485 | every event conserves the packets of every pair |
| `DialbackOut.DispatchConserves` | dialback/dialback_out.c:127-246 | a submitted packet is written, failed or queued, and nothing else moves |
| `DialbackOut.BeatSplits` | dialback/dialback_out.c:494-524 | the timeout beat divides the queue into kept and failed packets |
| `DialbackOut.Addresses` | dialback/dialback_out.c:27-54 | the comma-separated addresses of an entry; there is always at least one |
| `DialbackOut.ChopCounts` | dialback/dialback_out.c:27-54 | every attempt takes one address and leaves one fewer |
| `DialbackOut.StepUsesAddresses` | dialback/dialback_out.c:470-479 | attempts of a step plus addresses left afterwards never exceed the addresses left before |
| `DialbackOut.StretchUsesAddresses` | dialback/dialback_out.c:470-479 | the same over a whole stretch of events |
| `DialbackOut.AttemptsAreBounded` | dialback/dialback_out.c:57-88 | main result: as long as an entry lives, connection attempts never exceed the number of its addresses |
| `DialbackOut.LastAddressFails` | dialback/dialback_out.c:92-123 | when the last address has failed, everything that waited is failed exactly once and the entry is gone |
| `DialbackOut.RunsAreTidy` | dialback/dialback_out.c:434-440 | a pair is never both connecting and validated, over every history |
| `DialbackOut.PacketQueue.Push` | dialback/dialback_out.c:239-246 | a packet goes to the front of the linked queue |
| `DialbackOut.PacketQueue.Unlink` | dialback/dialback_out.c:494-524 | unlinking one node leaves the others linked in order |
| `DialbackOut.PacketQueue.Beat` | dialback/dialback_out.c:494-524 | the beat unlinks exactly the stale nodes, in place, keeps the order of the rest, and fails the stale ones in order |
| `DialbackOut.Outgoing.Submit` | dialback/dialback_out.c:127-246 | submitting writes, looks up or makes the entry, connects, queues, drops or bounces, as the step function says; what that must be is in DialbackFate |
| `DialbackOut.Outgoing.ReadRoot` | dialback/dialback_out.c:336-380 | the stream header decides between dialback, plain sending and hanging up, and the request carries the right merlin text |
| `DialbackOut.Outgoing.ReadNode` | dialback/dialback_out.c:382-468 | a valid result validates the pair and flushes the queue; a verify answer is bounced back into the server; anything else hangs up |
| `DialbackOut.Outgoing.Clean` | dialback/dialback_out.c:92-123 | cleanup fails what is queued and bounces what is to be verified |
| `DialbackOut.Outgoing.Lose` | dialback/dialback_out.c:470-479 | a lost connection tries the next address or cleans up |
| `DialbackFate.TrustedWritesAll` | dialback/dialback_out.c:176-192 | while a pair is trusted, what is written on its socket is what is submitted for it, at once and in order, and nothing else |
| `DialbackFate.ValidResultWrites` | dialback/dialback_out.c:382-445 | main result: from the valid result until the connection is lost, what is written on the socket of the pair is what had been queued for it and then what is submitted for it |
| `DialbackFate.TrustIsEarned` | dialback/dialback_out.c:382-445 | over every history a pair is trusted on a socket exactly if its last valid result came there and that connection is not lost |
| `DialbackFate.VerifiesAreWritten` | dialback/dialback_out.c:206-232 | between the stream header and the result, what is written on the socket of the pair is exactly its verify requests for which an address is known, in order |
| `DialbackFate.HeaderWrites` | dialback/dialback_out.c:336-380 | the stream header writes the verify requests that waited, in order |
| `DialbackFate.RunsAreRightful` | dialback/dialback_out.c:193-246 | over every history what waits for a pair was submitted for it, stanzas and verify requests apart |
| `DialbackFate.ExitsHaveReasons` | dialback/dialback_out.c:92-246 | main result: over every history, a stanza is failed only by a beat after its timeout or by the loss of the last address; something is dropped only if its addresses do not parse or no address is known; a verify request is bounced only if no address is known or its entry is cleaned up; and whatever is written is written on the socket of its trusted or connecting pair |
| `DialbackFate.BeatLeavesNoStale` | dialback/dialback_out.c:494-524 | after the beat whatever still waits is within its timeout |
| `DialbackFate.ChopSplits` | dialback/dialback_out.c:35-40 | taking an address off the list takes the first of its comma-separated parts |
| `DialbackFate.AddressesAreTriedInOrder` | dialback/dialback_out.c:27-90 | main result: in the whole life of an entry the addresses tried are the parts of the list that its first packet brought, each once and in order, and those not tried yet are the rest |
| `DialbackRun.OriginatorPresents` | dialback/dialback_out.c:364-374 | the text presented is merlin of secret, remote host and stream id |
| `DialbackRun.ReceiverAsks` | dialback/dialback_in.c:94-117 | the receiver stores the result and its verify request reaches the authority with the names in the right order |
| `DialbackRun.AuthorityAnswers` | dialback/dialback_in.c:52-70 | the authority answers valid exactly for its own merlin text and swaps the names |
| `DialbackRun.ReceiverDecides` | dialback/dialback_in.c:216-277 | the receiver registers the pair exactly on valid, uses up the stored result either way, and reports |
| `DialbackRun.OriginatorDecides` | dialback/dialback_out.c:392-442 | the originator validates and flushes on valid, hangs up otherwise |
| `DialbackRun.RequestGoesOut` | dialback/dialback_out.c:148-172 | the receiver's sending half, connected to the authority, writes the forwarded request there, with the real sender restored |
| `DialbackRun.ExchangeAsks` | dialback/dialback_in.c:90-117 | the first half of the exchange: what the receiver stores and forwards, what is written to the authority, and what the authority answers to that |
| `DialbackRun.ExchangeDecides` | dialback/dialback_in.c:216-277 | main result: the db:result goes through all stations, each of which gets what the one before has put out, and no station drops out; both ends register the pair and the queue is flushed if and only if the text presented is the authority's own; otherwise the originator hangs up |
| `DialbackRun.HonestExchangeCompletes` | dialback/dialback_out.c:364-374 | main result: from the stream header on, the db:result that the originator itself writes, with a key that it shares with its authority, makes both ends trust the pair, and everything that waited is on the socket |
| `DialbackRun.RegisteredPasses` | dialback/dialback_in.c:119-141 | after registration a stanza between users of the two hosts is passed on |
| `DialbackRun.StanzaPasses` | dialback/dialback_in.c:90-141 | a stream that is accepted, announces a pair and is judged passes the next stanza of that pair exactly when the verdict is valid: the soundness result is not empty |
| `DialbackRun.RequestIsWritten` | dialback/dialback_out.c:148-172 | a verify request is written at once, or first thing when the stream header arrives |
| `Presence.RunsAreSound` | jsm/modules/mod_presence.c:328-488 | over every run: the lists are free of duplicates and A starts with the user's own address |
| `Presence.RunsAreCovered` | jsm/modules/mod_presence.c:506-540 | over every run without a slip: everyone last told available or invisible, and not since told unavailable or bounced, is on A or I |
| `Presence.FarewellReaches` | jsm/modules/mod_presence.c:346-487 | after an undirected unavailable or the end of the session exactly those remain who were on neither list; nobody if and only if the lists covered everyone |
| `Presence.NobodyIsForgotten` | jsm/modules/mod_presence.c:553-570 | main result: after a goodbye in a run without a slip nobody believes the session online |
| `Presence.SlipForgets` | jsm/modules/mod_presence.c:528-537 | a directed probe or error takes its addressee off I and tells it nothing: it breaks the cover exactly when the addressee, who is not on A, believes the session online |
| `Presence.ServerProbeForgets` | jsm/modules/mod_presence.c:506-540 | the claim is false with the probes that the server itself sends at login: for every user and contact a run after which that contact still believes the session online |
| `Presence.BccIsRight` | jsm/modules/mod_presence.c:346-487 | main result: over every run each bcc recipient believes the session available exactly when its priority is at least -128 and it is not invisible |
| `Presence.TakeUsesTurns` | jsm/modules/mod_presence.c:328-488 | every packet that the session thread takes uses up one of a bounded number of turns |
| `Presence.QueueComesToRest` | jsm/modules/mod_presence.c:328-488 | without new input the session thread comes to rest after a bounded number of packets |
| `Presence.Session.Search` | jsm/modules/mod_presence.c:114-121 | finds an address exactly when it is on the list |
| `Presence.Session.WhackList` | jsm/modules/mod_presence.c:130-150 | removes one occurrence and keeps the order of the rest |
| `Presence.Session.Broadcast` | jsm/modules/mod_presence.c:164-179 | tells everyone on the list, in order |
| `Presence.Session.BroadcastTrusted` | jsm/modules/mod_presence.c:181-196 | tells those on the list who are trusted, in order |
| `Presence.Session.PopulateFrom` | jsm/modules/mod_presence.c:278-286 | adds the granted contacts to A, without duplicates, and queues a probe for every subscribed one |
| `Presence.Session.Avails` | jsm/modules/mod_presence.c:506-540 | a directed presence moves its addressee between the lists and is sent, as the step function says |
| `Presence.Session.Out` | jsm/modules/mod_presence.c:328-488 | an undirected presence updates priority, invisibility and both lists, and tells those it must, as the step function says |
| `Presence.Session.InProbe` | jsm/modules/mod_presence.c:214-261 | an incoming probe is answered as the step function says; exactly who is answered what is in PresencePrivacy.ProbeIsAnswered |
| `Presence.Session.InError` | jsm/modules/mod_presence.c:253-254 | a bounce takes its sender off A |
| `Presence.Session.AvailsEnd` | jsm/modules/mod_presence.c:553-570 | the end of the session tells both lists |
| `PresencePrivacy.ListsAreHistory` | jsm/modules/mod_presence.c:506-540 | over every run A holds exactly those whom the session has reached and I exactly those from whom it hides, both told from the history alone |
| `PresencePrivacy.PresenceIsHistory` | jsm/modules/mod_presence.c:346-432 | over every run the stored presence, the invisibility and the priority are those of the last presence that counts |
| `PresencePrivacy.EveryoneIsToldTheirDue` | jsm/modules/mod_presence.c:328-488 | main result: over every run, whatever happens next, each address is told each kind of presence exactly as often as is due: a directed packet to its addressee, a change to those reached whom the user trusts, coming out to those reached and the subscribers, going away to those reached and those hidden from |
| `PresencePrivacy.RunsAreDiscreet` | jsm/modules/mod_presence.c:214-540 | over every run whoever is on A, and whoever a queued packet is going to tell, is entitled to know |
| `PresencePrivacy.OnlyTheEntitledKnow` | jsm/modules/mod_presence.c:16-36 | main result: over every run, whoever believes the session there is the user, somebody the client has told itself, a subscriber of a time when the session came out, or somebody trusted whose probe could be answered |
| `PresencePrivacy.QueuedIsTold` | jsm/modules/mod_presence.c:328-488 | a directed packet that is queued is told when the session thread has worked off its queue |
| `PresencePrivacy.ProbeIsAnswered` | jsm/modules/mod_presence.c:222-246 | main result: a probe is answered if and only if the user trusts the prober and the session has a presence and, visible, does not hide from the prober or, invisible, has reached it; the answer is the presence shown last, or plain availability, and the prober is told it |
| `PresencePrivacy.ContactsAreProbed` | jsm/modules/mod_presence.c:278-286 | main result: whoever comes online, even invisibly, probes everybody the user is subscribed to |
| `PresencePrivacy.InvisibleIsDone` | jsm/modules/mod_presence.c:369-400 | main result: an invisible that finds the session available is put back behind an unavailable, and when the thread has worked off its queue the session is invisible with the priority asked for |
| `XmlText.EscapeConcat` | lib/str.c:350-415 | escaping is a homomorphism |
| `XmlText.EscapeLength` | lib/str.c:358-382 | the length that the counting loop allocates suffices, and text without special characters is left alone |
| `XmlText.EscapedIsSafe` | lib/str.c:383-415 | an escaped text holds no <, >, ' or ", and each of its ampersands starts one of the five entities |
| `XmlText.RoundTrip` | lib/str.c:306-348 | a text is a possible result of unescaping an escaped text if and only if it is that text |
| `XmlText.Determined` | lib/str.c:306-348 | the result of unescaping is determined when every ampersand starts one of the five entities |
| `XmlText.Undetermined` | lib/str.c:306-348 | otherwise it is not: an uninitialised character ends up in it |
| `XmlText.NoEntities` | lib/str.c:306-348 | text without an ampersand is left alone |
| `XmlText.CountEscaped` | lib/str.c:358-377 | the counting loop computes the length of the escaped text |
| `XmlText.PutEscaped` | lib/str.c:387-411 | one turn of the copying loop writes the character's entity behind what is there |
| `XmlText.StrEscape` | lib/str.c:350-415 | counting, allocating and copying yield the escaped text, inside the buffer; what escaping must achieve is in EscapedIsSafe and RoundTrip |
| `XmlText.UnescapeOne` | lib/str.c:322-344 | one turn of the loop writes one character and advances over what it read |
| `XmlText.StrUnescape` | lib/str.c:306-348 | the result is a possible unescaping and fits into a buffer of the length of the input |
| `XmlNode.MergeKeepsPrint` | lib/xmlnode.c:125-157 | merging neighbouring character data does not change what is printed |
| `XmlNode.Node.constructor` | lib/xmlnode.c:45-66 | a new node has no links, no attributes and no data |
| `XmlNode.Gather` | lib/xmlnode.c:125-143 | the loops over a run of character data yield its joined text and the first node behind it |
| `XmlNode.Merge` | lib/xmlnode.c:125-157 | a run of text siblings becomes one node in place, the sibling after it and the parent's last child are relinked |
| `XmlNode.MergeBelow` | lib/xmlnode.c:125-157 | merging under ancestors that the printer will come back to leaves their later siblings alone |
| `XmlNode.GetData` | lib/xmlnode.c:593-609 | asking a text node for its data merges its run and leaves what remains to be printed the same |
| `XmlNode.TagToText` | lib/xmlnode.c:170-190 | the three forms of a tag |
| `XmlNode.PrintLeaf` | lib/xmlnode.c:206-223 | a node without children is printed on the spot and what remains is what was to be printed after it |
| `XmlNode.GoDown` | lib/xmlnode.c:206-213 | an opening tag, and then the children remain in front of everything else |
| `XmlNode.MoveOn` | lib/xmlnode.c:225-237 | on to the sibling, or up through parent pointers with closing tags; the level counter is the number of ancestors |
| `XmlNode.Turn` | lib/xmlnode.c:192-241 | every turn of the printer prints a front part of what remains and gets closer to the end |
| `XmlNode.ToText` | lib/xmlnode.c:192-241 | main result: the iterative printer ends and prints the recursive serialisation of the tree as it was, whatever it merges on the way |
| `XmlNode.PrintsTooMuch` | lib/xmlnode.c:192-241 | siblings print nothing exactly when they are empty texts |
| `XmlNode.PrintsRootAlone` | lib/xmlnode.c:192-241 | the printed text is that of the root alone if and only if the root has children or its later siblings print nothing |
| `XmlStream.FeedConcat` | jabberd/mio_xml.c:37-89 | feeding events in two parts or at once is the same |
| `XmlStream.FeedInside` | jabberd/mio_xml.c:37-89 | inside an open element a whole tree becomes its next child and nobody is called |
| `XmlStream.StreamDelivers` | jabberd/mio_xml.c:37-89 | main result: a root with items makes one root callback, one callback per element with exactly its subtree, in order, and a close |
| `XmlStream.JoinKeepsData` | lib/xmlnode.c:593-609 | joining neighbouring texts keeps what xmlnode_get_data returns |
| `XmlStream.JoinKeepsPrint` | lib/xmlnode.c:192-241 | joining neighbouring texts keeps what is printed |
| `XmlStream.PiecesDoNotMatter` | jabberd/mio_xml.c:85-89 | main result: two event streams, well formed or not, that are equal once neighbouring character data is joined make the same callbacks up to joining, and leave the parser in the same state up to joining |
| `XmlStream.StepAlike` | jabberd/mio_xml.c:37-89 | an event keeps two states that differ only in how texts are cut alike |
| `XmlStream.JoinedFeed` | jabberd/mio_xml.c:37-89 | joining the character data of a stream beforehand changes nothing up to joining |
| `XmlStream.JoinedDocuments` | jabberd/mio_xml.c:37-89 | the same for whole documents whose trees are equal up to joining |
| `XmlStream.SameJoinedSameContent` | lib/xmlnode.c:593-609 | trees that are equal up to joining answer xmlnode_get_data alike and print alike |
| `XmlReader.PlainUnescapes` | lib/str.c:306-348 | the reader replaces entities as strunescape does |
| `XmlReader.ValueReads` | lib/xmlnode.c:174-182 | a printed attribute value ends at its own quote and reads as what it was |
| `XmlReader.AttribsRead` | lib/xmlnode.c:174-182 | printed attributes read as the same names and values, in order, and end where they should |
| `XmlReader.TextReads` | lib/xmlnode.c:217-222 | a printed text cannot start a tag, and joins the text that follows |
| `XmlReader.TreesRead` | lib/xmlnode.c:192-241 | what is printed of trees in front of anything reads as their events, neighbouring texts joined and empty ones left out |
| `XmlReader.PrintedReadsBack` | lib/xmlnode.c:192-241 | main result: for names that can stand in a tag, the printed text reads as exactly the tree it was printed from, with neighbouring texts joined and empty ones left out |
| `XmlReader.PrintDetermines` | lib/xmlnode.c:192-241 | two trees with the same text are the same but for how their texts are cut |
| `XmlReader.PrintedArrives` | jabberd/mio_xml.c:37-89 | main result: a document that is printed, read, and fed to the stream handlers arrives as its root, each stanza, and a close |
| `XmlParser.AppendSibling` | lib/xmlnode.c:68-81 | a new node is linked behind the last sibling, both ways |
| `XmlParser.Insert` | lib/xmlnode.c:83-107 | the children of the parent, linked in order, are those before and the new node |
| `XmlParser.Extend` | lib/xmlnode.c:292-331 | a new child of the innermost open node leaves everything else of the growing tree as it was |
| `XmlParser.Seal` | jabberd/mio_xml.c:64-83 | the closed children of a node are one valid list of trees, which stand for the values that were fed |
| `XmlParser.Shut` | jabberd/mio_xml.c:64-83 | closing the innermost open node makes it a whole tree of its own, or a complete child of its parent, and does to the value what the end event does |
| `XmlParser.Parser.constructor` | jabberd/mio_xml.c:100-116 | a new parser has no open node |
| `XmlParser.Parser.StartElement` | jabberd/mio_xml.c:37-62 | on linked nodes: the first element is handed over as the root, later ones become the open node, under the one before if there is one |
| `XmlParser.Parser.EndElement` | jabberd/mio_xml.c:64-83 | on linked nodes: the open node is handed over as a whole tree, valid for the printer, or its parent is open again; without one the stream closes |
| `XmlParser.Parser.CharacterData` | jabberd/mio_xml.c:85-89 | on linked nodes: the text becomes the last child of the open node, or is dropped |
| `XmlParser.Handle` | jabberd/mio_xml.c:37-89 | one event, with the stanza that it completes printed by xmlnode2str |
| `XmlParser.Relay` | jabberd/mio_xml.c:37-89 | main result: for every sequence of events, parsing on linked nodes and printing each stanza with the pointer walk yields the reference print of the stanzas that the stream machine delivers |
| `XmlParser.DocumentPrinted` | jabberd/mio_xml.c:37-89 | for a document that is each element of its root, printed, in order, and nothing else |
| `XmlParser.PiecesPrintAlike` | jabberd/mio_xml.c:85-89 | the text does not depend on the pieces that character data came in |
| `Sha.HashBlocksConcat` | lib/sha.c:66-82 | hashing whole blocks can be stopped and resumed |
| `Sha.ConstantsAreRoots` | lib/sha.c:164-200 | the four constants are the integer parts of 2 to the 30 times the square roots of 2, 3, 5 and 10 |
| `Sha.InitialCounts` | lib/sha.c:47-53 | the initial words are the bytes that count the hexadecimal digits up and down |
| `Sha.CodeForms` | lib/sha.c:165-200 | the choose and majority forms of the code equal those of FIPS 180-1 |
| `Sha.FourPushes` | lib/sha.c:73-74 | after four bytes nothing is left of what a word held before |
| `Sha.PendingExtends` | lib/sha.c:73-74 | pushing a byte into its word keeps the other pending bytes |
| `Sha.PendingFull` | lib/sha.c:75-78 | after 64 bytes the first sixteen words are the block |
| `Sha.SizeCounts` | lib/sha.c:79-80 | the two counters with carry are the length in bits modulo two to the 64 |
| `Sha.SizeBytesAreLength` | lib/sha.c:98-107 | the eight bytes taken from the counters are that length, most significant first |
| `Sha.TopOfShifted` | lib/sha.c:115-118 | shifting a word left byte by byte brings out its bytes in order |
| `Sha.Context.constructor` | lib/sha.c:40-57 | a new context has hashed nothing |
| `Sha.Context.Reset` | lib/sha.c:40-57 | a context that is initialised again has hashed nothing |
| `Sha.Expand` | lib/sha.c:150-159 | the schedule loop computes the eighty words of FIPS 180-1 |
| `Sha.FirstRounds` | lib/sha.c:166-175 | rounds 0 to 19 of the standard |
| `Sha.SecondRounds` | lib/sha.c:176-185 | rounds 20 to 39 |
| `Sha.ThirdRounds` | lib/sha.c:186-195 | rounds 40 to 59 |
| `Sha.FourthRounds` | lib/sha.c:196-205 | rounds 60 to 79 |
| `Sha.Context.HashWords` | lib/sha.c:150-213 | shaHashBlock hashes the first sixteen words as one block of the standard |
| `Sha.Context.Take` | lib/sha.c:72-81 | one byte joins the message, with a block hashed at the boundary and the size counted |
| `Sha.Context.Update` | lib/sha.c:66-82 | the bytes given join the message |
| `Sha.Context.PadZeros` | lib/sha.c:108-110 | the zero loop ends after the number of zeros that the standard asks for |
| `Sha.Context.Pad` | lib/sha.c:98-111 | the padding is that of the standard and always ends on a block boundary |
| `Sha.Emit` | lib/sha.c:115-118 | the output loop yields the twenty bytes of the five words |
| `Sha.Context.Final` | lib/sha.c:91-124 | main result: the output is the SHA-1 digest of all bytes given since the start, and the context is new again |
| `Sha.Block` | lib/sha.c:133-140 | shaBlock returns the digest of its input |
| `Sha.HashPieces` | lib/sha.c:66-124 | main result: however a message is cut into updates, the digest is that of the whole |
| `RateSpec.RunsAreSound` | wpj_sysepoll/rate.c:81-175 | over every run with a clock that never goes back: the rate of a bucket is between 0 and MAX_RATE and accounts for every connection it let in |
| `RateSpec.WindowHolds` | wpj_sysepoll/rate.c:151-174 | main result: connections i to j that one bucket let in satisfy 100 (j-i+1) CONN_TIME <= MAX_RATE CONN_TIME + MAX_RATE (tj - ti) |
| `RateSpec.AdmissionIsExact` | wpj_sysepoll/rate.c:151-174 | main result: an address with room is let in exactly when its points and what they have regained since, without rounding, pay for a connection |
| `RateSpec.RunsSpend` | wpj_sysepoll/rate.c:151-174 | over every run a bucket was full just before one of its connections and has since lost no more than these cost and one point at each later one |
| `RateSpec.RefusalIsEarned` | wpj_sysepoll/rate.c:151-174 | main result, the other half of the window: over every run, an address refused for its rate would overdraw some window of its connections, up to one point for each of them |
| `RateSpec.WindowNeedsOneConnection` | wpj_sysepoll/rate.c:107-132 | with a limit of no connection the first one is let in all the same: the bound holds for it if and only if MAX_RATE is at least 100 |
| `RateSpec.RunsAreLimited` | wpj_sysepoll/rate.c:144-149 | over every run: with COUNT_CONN n an address has one connection or fewer than n, not n |
| `RateSpec.WaitingHelps` | wpj_sysepoll/rate.c:151-165 | after CONN_TIME an address is refused only because of its open connections |
| `RateSpec.BurstIsExact` | wpj_sysepoll/rate.c:107-174 | at one moment exactly MAX_RATE / 100 connections of a new address get in |
| `RateSpec.CheckCounts` | wpj_sysepoll/rate.c:81-175 | an accepted connection is counted for its address, and buckets in use plus free buckets stay constant |
| `RateSpec.RemoveCounts` | wpj_sysepoll/rate.c:182-235 | a closed connection is uncounted, and the bucket is given back with the last one |
| `RateSpec.AcceptKeeps` | wpj_sysepoll/io.c:662-675 | accepting behind the gate keeps table, open connections and slots in step |
| `RateSpec.CloseKeeps` | wpj_sysepoll/connection.c:398-406 | closing does too |
| `RateSpec.RunsAreKept` | wpj_sysepoll/io.c:662-675 | main result: over every run of accepts and closes, an address has a bucket exactly when it has open connections, ilosc is their number, and every bucket and slot is in one place |
| `RateSpec.GateSuffices` | wpj_sysepoll/wpj.c:298-299 | main result: behind the max_clients gate neither the bucket cache nor the list of client slots is ever empty |
| `RateTable.Table.constructor` | wpj_sysepoll/rate.c:33-69 | all buckets on the free list, all chains empty, the configuration converted |
| `RateTable.Table.PutFree` | wpj_sysepoll/rate.c:220-228 | a bucket goes to the end of the free list, whose tail pointer may be stale when it is empty |
| `RateTable.Table.TakeFree` | wpj_sysepoll/rate.c:108-114 | the oldest free bucket leaves the list |
| `RateTable.Table.Find` | wpj_sysepoll/rate.c:97-102 | the search finds the bucket of an address exactly when there is one, with the bucket in front of it |
| `RateTable.Table.Create` | wpj_sysepoll/rate.c:107-142 | a new address gets a bucket from the free list at the front of its chain |
| `RateTable.Table.CheckAdd` | wpj_sysepoll/rate.c:81-175 | the table of chains does what RateSpec.Check says and answers as it says; when that lets an address in is in RateSpec.AdmissionIsExact |
| `RateTable.Table.StepOver` | wpj_sysepoll/rate.c:213-217 | unlinking a bucket from the front or the middle leaves every other link |
| `RateTable.Table.Drop` | wpj_sysepoll/rate.c:210-230 | a bucket leaves its chain for the free list and is no longer counted |
| `RateTable.Table.Remove` | wpj_sysepoll/rate.c:182-235 | the table of chains does what RateSpec.Remove says and answers as it says |
| `Mtq.Queue.EveryCellIsListed` | jabberd/mtq.c:289-336 | work and free list share no cell and hold every cell between them |
| `Mtq.Queue.constructor` | jabberd/mtq.c:289-336 | all preallocated cells are free, no call is pending |
| `Mtq.Queue.GetCell` | jabberd/mtq.c:254-268 | a cell leaves the free list, or a new one is made exactly when it is empty |
| `Mtq.Queue.PutFree` | jabberd/mtq.c:145-153 | a cell goes behind the last free one, whatever the tail pointer of an empty list was |
| `Mtq.Queue.PutWork` | jabberd/mtq.c:276-282 | the same for the work list |
| `Mtq.Queue.Send` | jabberd/mtq.c:226-287 | a call joins the pending calls at the end; the number of cells grows only when all are in use |
| `Mtq.Queue.Take` | jabberd/mtq.c:129-156 | the worker gets the oldest pending call and its cell is free again; none exactly when nothing is pending |
| `Mtq.Serve` | jabberd/mtq.c:120-287 | main result: for every interleaving of sends and takes the calls taken are a prefix of those sent, dl is the rest, and the number of cells is the larger of the cache and the longest backlog |
| `Xhash.TurnsAgree` | lib/xhash.c:55-61 | one turn of the hash loop gives the same low 32 bits on 32-bit and 64-bit words, below two to the 28 |
| `Xhash.HashesAgree` | lib/xhash.c:49-64 | so does the whole hash |
| `Xhash.Hasher` | lib/xhash.c:49-64 | the loop computes that hash, and as an int it is not negative |
| `Xhash.Index` | lib/xhash.c:70-70 | the bucket index is in range |
| `Xhash.Table.constructor` | lib/xhash.c:97-110 | an empty table of the given size |
| `Xhash.Table.NodeGet` | lib/xhash.c:85-94 | finds the node of a key exactly when the map has the key |
| `Xhash.Table.AddNode` | lib/xhash.c:77-81 | a new node behind the head keeps all chains |
| `Xhash.Table.NodeNew` | lib/xhash.c:67-82 | a node without a key in the right chain, reused or new, with the map unchanged |
| `Xhash.Table.Put` | lib/xhash.c:113-138 | the map is updated at the key |
| `Xhash.Table.Get` | lib/xhash.c:141-153 | returns the value that the map has, or NULL |
| `Xhash.Table.Zap` | lib/xhash.c:156-169 | the key leaves the map, although its node stays |
| `Xhash.Table.Walk` | lib/xhash.c:179-193 | main result: the walk hands out exactly the entries with a value, each key once |
| `Pool.Pool.WithHeap` | lib/pool.c:191-235 | a pool with its own heap, of that size, with nothing given out |
| `Pool.Pool.Bare` | lib/pool.c:70-95 | an empty pool: no heap, no cleaner, nothing given out, and its own memory to release |
| `Pool.Pool.AppendTracker` | lib/pool.c:111-126 | a tracker goes to the end of the list |
| `Pool.Pool.NewBlock` | lib/pool.c:154-189 | a block is counted in the size of the pool and tracked behind all earlier ones |
| `Pool.Pool.Malloc` | lib/pool.c:237-283 | main result: the new piece overlaps no earlier one, lies inside its block, and is at a multiple of eight if it has at least four bytes; pool_size stays the sum of all blocks |
| `Pool.Pool.Cleanup` | lib/pool.c:368-382 | a cleaner goes in front of everything that is to be done |
| `Pool.Pool.Free` | lib/pool.c:331-365 | main result: all cleaners, the last one first, then every other block, then the pool |
| `Pool.FarewellOrder` | lib/pool.c:331-365 | which action is in which place |
| `Pool.EveryBlockGoes` | lib/pool.c:331-365 | every block is released in exactly one place |
| `IoQueue.DumpConserves` | wpj_sysepoll/io.c:310-444 | bytes written followed by bytes left are the bytes there were, messages too; the return value is 0 exactly when the queue is empty |
| `IoQueue.WillingSocket` | wpj_sysepoll/io.c:325-342 | a handler that takes everything empties the queue, except that an item of no bytes counts as an error |
| `IoQueue.QueuedBalances` | wpj_sysepoll/io.c:2022-2029 | queueing keeps the books: bytes written and queued are those submitted, messages settled, waiting and queued are those submitted |
| `IoQueue.FinishedBalances` | wpj_sysepoll/io.c:384-442 | so does a whole write, whether the message waits to be confirmed or is forgotten |
| `IoQueue.AdvancedBalances` | wpj_sysepoll/io.c:352-382 | and a short one |
| `IoQueue.Socket.constructor` | wpj_sysepoll/io.c:310-311 | a new socket has nothing queued |
| `IoQueue.Socket.PutItem` | wpj_sysepoll/io.c:2022-2027 | a new cell goes behind the tail, or becomes the head of an empty queue |
| `IoQueue.Socket.DropItem` | wpj_sysepoll/io.c:386-389 | the head leaves the queue, and an empty queue has no tail |
| `IoQueue.Socket.PutSent` | wpj_sysepoll/io.c:431-437 | the same for the queue of written messages |
| `IoQueue.Socket.Finish` | wpj_sysepoll/io.c:384-442 | a written cell leaves the linked queue, its tail is reset with the last one, and a message to be kept is linked behind those that wait to be confirmed |
| `IoQueue.Socket.Advance` | wpj_sysepoll/io.c:352-382 | after a short write the first cell has the rest of its text |
| `IoQueue.Socket.DumpClient` | wpj_sysepoll/io.c:310-444 | the loop writes, keeps and returns what Dump says, and keeps the conservation of bytes and messages |
| `IoQueue.Socket.Write` | wpj_sysepoll/io.c:1955-2052 | the buffer joins the end of what was submitted, as much as possible is written, and an error marks the socket for closing |
| `IoQueue.Socket.Expire` | wpj_sysepoll/io.c:1311-1355 | exactly the written messages that are too old are forgotten, from the front |
| `IoQueue.Socket.Cleanup` | wpj_sysepoll/io.c:2101-2183 | what goes back to the server: unconfirmed messages if the kernel still holds bytes, then the queued ones, each once, in order |
| `IoQueue.Socket.Close` | wpj_sysepoll/io.c:529-572 | main result: when the kernel still holds bytes, every message that is not settled goes back once and in order |
| `IoQueue.Session` | wpj_sysepoll/io.c:1955-2052 | however the writes are cut short, bytes sent followed by bytes queued are the buffers, joined, and the queue pointer is NULL exactly when all is sent |
| `DeliverList.Register` | jabberd/deliver.c:690-760 | a handler is put in the place that its order asks for |
| `DeliverList.RegisterKeepsSorted` | jabberd/deliver.c:690-760 | which keeps the list sorted by order |
| `DeliverList.ReachIs` | jabberd/deliver.c:862-907 | the number of handlers called is settled by the first that stops the loop |
| `DeliverList.LeftIsSorted` | jabberd/deliver.c:889-903 | unregistering handlers keeps the list sorted |
| `DeliverList.LeftIs` | jabberd/deliver.c:862-907 | the list afterwards: those called that did not ask to go, then those not called |
| `DeliverList.NextCall` | jabberd/deliver.c:889-903 | one more handler called: it stays in its place or is cut out, and the rest of the list is behind it |
| `DeliverList.Add` | jabberd/deliver.c:126-138 | adds an instance once |
| `DeliverList.Rem` | jabberd/deliver.c:140-157 | removes the first occurrence of an instance and keeps the order of the rest; a list without duplicates stays one |
| `DeliverList.Intersect` | jabberd/deliver.c:256-287 | the one common instance, the uplink if there is none, nothing if there are several; an empty list does not restrict |
| `DeliverList.ChosenIsUnique` | jabberd/deliver.c:256-287 | that determines the instance, whatever the order of the lists |
| `Deliver.JidReparses` | jabberd/deliver.c:940-950 | the address parser accepts the host of every address it returned, and the host of log packets without one |
| `Deliver.BouncedIsError` | jabberd/deliver.c:797-842 | a bounced packet is a normal or route packet of type error |
| `Deliver.AnswerIsWellFormed` | jabberd/deliver.c:309-315 | the answer to a configuration request is a normal packet |
| `Deliver.ChosenIsKnown` | jabberd/deliver.c:641-657 | a packet is routed to a registered instance |
| `Deliver.Router.RegisterHandler` | jabberd/deliver.c:690-760 | registration keeps all handler lists sorted |
| `Deliver.Router.Call` | jabberd/deliver.c:868-870 | a handler is only ever called with a packet that no earlier handler ate and nobody freed |
| `Deliver.Router.Copy` | jabberd/deliver.c:988-994 | a copy lives in memory of its own |
| `Deliver.Router.Try` | jabberd/deliver.c:863-887 | after a delivery handler ate the packet the next one gets the copy; a copy that is not needed is freed |
| `Deliver.Router.RunHandlers` | jabberd/deliver.c:860-907 | exactly the handlers up to the first that stops are called, and those that asked for it are unregistered |
| `Deliver.Router.DeliverInstance` | jabberd/deliver.c:847-909 | without an instance or after an internal error the packet fails, otherwise the handlers ran; ends, with at most one bounce |
| `Deliver.Router.NewPacket` | jabberd/deliver.c:911-986 | an element becomes a packet exactly when it has an address and the attributes of its type; otherwise it is freed |
| `Deliver.Router.Logger` | jabberd/log.c:32-52 | a log packet is delivered without touching any other packet, and never causes a bounce |
| `Deliver.Router.SendBack` | jabberd/deliver.c:797-842 | the packet goes back as an error, with at most two log packets |
| `Deliver.Router.DeliverFail` | jabberd/deliver.c:764-844 | a packet is bounced exactly once if it is no log packet, no error, and, as a normal packet, was for a user; otherwise it is dropped and freed |
| `Deliver.Router.Deliver` | jabberd/deliver.c:605-658 | main result: delivery ends for every packet and every answer of every handler, to the one instance that the tables choose, with at most one bounce and at most three log packets |

## Left out

- Sockets, epoll, SSL, expat, threads, DNS, SQL, configuration files, snprintf and the simple query modules (vcard, time, version, stats, browse, disco): nothing to prove without the libraries, or easy.
- mod_privacy rules, karma, the SRV list, base_accept, fast_mtq, xdb, and the server side of the wpj write queue (`_io_write_dump_server`).
- The build with FORWP: forwarding of presence is not modelled.
- The presence packets that subscription changes force are outputs of Roster and not packets of RosterNetwork.
- RosterClients.ClientsStayInSync: is for one client of each user, the primary session; a push reaches every other session that has asked for its roster in the same way.
- XmlReader.PrintedReadsBack: is for names that can stand in a tag as they are, as those from an XML parser do; the printer does not check names. Normalising white space in attribute values is the business of a real parser and not of this reader.
- Groups, names and the order of items in a roster: a roster is a map from address to subscription state.
- mod_presence.c: the store of offline presence, the JID intersection of a broadcast, and bounces or probes from the user's own address.
- The DNS cache and the port in an address of dialback_out_connect: an address is a string between commas.
- xmlnode_hide, xmlnode_put_attrib, and the prev and lastchild pointers of a finished tree: the tree invariant follows next, parent and firstchild, and attributes are a value.
- Pool ownership of tree nodes: a parsed tree is not freed.
- XmlParser.Parser.EndElement: does not say what becomes of the nodes of a packet that is never finished (`_mio_xstream_cleanup`).
- spool_add and spool_print: the texts that a printer appends are concatenated.
- Sha.Context.Update: a word has exactly 32 bits; on a machine where unsigned long is wider the code does not mask the sums of shaHashBlock.
- RateTable.Table.CheckAdd: has unbounded integers, where MAX_RATE times a long pause overflows 32 bits.
- RateSpec.RunsAreKept: the client slots are a sequence, not the linked list with its stale tail pointer; RateTable and Mtq have lists of that shape.
- Mtq.Queue.Take: says nothing about waking a waiting worker or about shutdown; choosing a queue by its number of users is not modelled.
- Xhash.Table.Walk: is for a callback that does not change the table; keys are values, so a caller that overwrites a key string it has put is not covered.
- Pool.Pool.Free: is for cleaners that do not use the pool they clean; the build without FAST_POOL and the debug counters are not modelled, and alignment is that of the offset in the block.
- IoQueue.Socket.Write: is for plain sockets; the extra bytes of a type_NUL socket, the ping accounting and the overload counters are not modelled.
- Deliver.Router.Deliver: dynamic registration of hosts by host@-internal does nothing here and the tables are constant; a copy made before an internal error is lost, and so is in the code; deliver_fail's texts are not modelled.
- Deliver.Router.RunHandlers: the handler list is a sequence that is written back once, before a failure is handled.
