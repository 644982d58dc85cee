/** The XML packets of server dialback, reduced to the attributes and the text that the
    dialback component reads and writes. */
module DialbackPacket {
  import opened Options
  import Jid

  type Sock = nat

  /** dialback_merlin: secret, host name, challenge. Nothing is assumed about it. */
  type Merlin = (string, string, string) -> string

  datatype Packet = Packet(name: string, to: Option<string>, from: Option<string>, id: Option<string>,
                           kind: Option<string>, ofrom: Option<string>, text: Option<string>)

  /** xmlnode_put_attrib does nothing when the value is NULL. */
  function Put(before: Option<string>, value: Option<string>): Option<string> {
    if value.None? then before else value
  }

  /** jutil_tofrom. */
  function Swapped(x: Packet): Packet { x.(from := Put(x.from, x.to), to := Put(x.to, x.from)) }

  /** jid_new on an attribute that may be missing. */
  function Address(attrib: Option<string>): Option<Jid.Parts> {
    if attrib.None? then None else Jid.Parse(attrib.value)
  }

  /** The attribute parses to an address on this host. */
  predicate OnHost(attrib: Option<string>, host: string) {
    Address(attrib).Some? && Address(attrib).value.server == host
  }

  /** jid_set(JID_RESOURCE) and jid_set(JID_USER) on plain values. */
  function WithResource(p: Jid.Parts, resource: string): Jid.Parts { p.(resource := Jid.NonEmpty(resource)) }

  function WithUser(p: Jid.Parts, user: string): Jid.Parts {
    Jid.Safe(p.(user := Jid.NonEmpty(user))).GetOr(p)
  }

  /** What dialback_randstr_pool makes: hexadecimal digits. Only this much is needed. */
  predicate StreamId(id: string) {
    0 < |id| <= 64 && '/' !in id && forall c :: c in id ==> Jid.UserChar(c)
  }

  /** The key ID@to/from of an incoming connection. */
  function InKey(id: string, to: Jid.Parts, from: string): string {
    Jid.Print(WithUser(WithResource(to, from), id))
  }

  lemma InKeyParts(id: string, to: Jid.Parts, from: string)
    requires StreamId(id) && Jid.Valid(to)
    ensures WithUser(WithResource(to, from), id) == Jid.Parts(Some(id), to.server, Jid.NonEmpty(from))
    ensures Jid.Valid(Jid.Parts(Some(id), to.server, Jid.NonEmpty(from)))
  {
    Jid.SafeFixed(Jid.Parts(Some(id), to.server, Jid.NonEmpty(from)));
  }

  /** An incoming key stands for one stream, one recipient host and one sender. */
  lemma InKeyInjective(id: string, to: Jid.Parts, from: string, id': string, to': Jid.Parts, from': string)
    requires StreamId(id) && StreamId(id') && Jid.Valid(to) && Jid.Valid(to')
    requires InKey(id, to, from) == InKey(id', to', from')
    ensures id == id' && to.server == to'.server && from == from'
  {
    InKeyParts(id, to, from);
    InKeyParts(id', to', from');
    Jid.PrintInjective(WithUser(WithResource(to, from), id), WithUser(WithResource(to', from'), id'));
  }

  /** The key to/from of an outgoing connection. */
  function OutKey(to: Jid.Parts, from: Jid.Parts): Jid.Parts {
    WithResource(Jid.Parts(None, to.server, None), from.server)
  }
}
