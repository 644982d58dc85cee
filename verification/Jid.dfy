/** Addresses, user@server/resource: the parser, the printer with its cached copy,
    the field setters and the duplicate-free list of lib/jid.c. */
module Jid {
  import opened Options

  datatype Parts = Parts(user: Option<string>, server: string, resource: Option<string>)

  // ------------------------------------------------------- C string helpers

  /** strstr with a one-character needle: the first position of c, or the length. */
  function IndexOf(s: string, c: char): (i: nat)
    ensures i <= |s|
    ensures i < |s| ==> s[i] == c
    ensures c !in s[..i]
  {
    if s == "" then 0 else if s[0] == c then 0
    else
      var i := IndexOf(s[1..], c);
      assert s[..1 + i] == [s[0]] + s[1..][..i];
      1 + i
  }

  /** tolower and strcasecmp in the C locale. */
  function LowerChar(c: char): char {
    if 'A' <= c <= 'Z' then c - 'A' + 'a' else c
  }

  function Lower(s: string): (r: string)
    ensures |r| == |s|
    ensures forall i :: 0 <= i < |s| ==> r[i] == LowerChar(s[i])
  {
    if s == "" then "" else [LowerChar(s[0])] + Lower(s[1..])
  }

  /** A character of a host name, already in lower case. */
  predicate ServerChar(c: char) {
    'a' <= c <= 'z' || '0' <= c <= '9' || c == '.' || c == '-' || c == '_'
  }

  predicate UserChar(c: char) {
    c > ' ' && c !in {':', '@', '<', '>', '\'', '"', '&'}
  }

  predicate ServerOk(s: string) {
    0 < |s| <= 255 && forall c :: c in s ==> ServerChar(c)
  }

  /** What jid_safe accepts, and leaves as it is. A user may hold a '/'. */
  predicate Valid(p: Parts) {
    && ServerOk(p.server)
    && (p.user.Some? ==> 0 < |p.user.value| <= 64 && forall c :: c in p.user.value ==> UserChar(c))
    && (p.resource.Some? ==> p.resource.value != "")
  }

  predicate SlashFree(p: Parts) { p.user.Some? ==> '/' !in p.user.value }

  // -------------------------------------------------------- the parser

  function Cut(user: string): string { if |user| > 64 then user[..64] else user }

  /** jid_safe: the address with its host in lower case and its user cut off at 64. */
  function Safe(p: Parts): Option<Parts> {
    var server := Lower(p.server);
    if !ServerOk(server) then None
    else if p.user.None? then Some(p.(server := server))
    else
      var user := Cut(p.user.value);
      if forall c :: c in user ==> UserChar(c) then Some(Parts(Some(user), server, p.resource)) else None
  }

  function NonEmpty(s: string): Option<string> { if s == "" then None else Some(s) }

  /** What jid_new cuts out of the part before the resource. */
  function SplitNode(body: string, resource: Option<string>): Parts {
    var at := IndexOf(body, '@');
    if at == |body| then Parts(None, body, resource)
    else Parts(NonEmpty(body[..at]), body[at + 1..], resource)
  }

  /** jid_new ignores everything up to the first ':' in front of the resource. */
  function AfterPrefix(head: string): string {
    var colon := IndexOf(head, ':');
    if colon == |head| then head else head[colon + 1..]
  }

  /** jid_new on a string. */
  function Parse(s: string): Option<Parts> {
    if s == "" then None
    else
      var slash := IndexOf(s, '/');
      var resource := if slash == |s| then None else NonEmpty(s[slash + 1..]);
      Safe(SplitNode(AfterPrefix(s[..slash]), resource))
  }

  /** jid_full without its cache. */
  function Print(p: Parts): string {
    (if p.user.Some? then p.user.value + "@" else "")
    + p.server
    + (if p.resource.Some? then "/" + p.resource.value else "")
  }

  lemma {:induction false} IndexOfConcat(a: string, b: string, c: char)
    requires c !in a
    ensures IndexOf(a + b, c) == |a| + IndexOf(b, c)
  {
    if a == "" {
      assert a + b == b;
    } else {
      assert (a + b)[1..] == a[1..] + b;
      IndexOfConcat(a[1..], b, c);
    }
  }

  lemma IndexOfAbsent(s: string, c: char)
    requires c !in s
    ensures IndexOf(s, c) == |s|
  {
    IndexOfConcat(s, "", c);
    assert s + "" == s;
  }

  lemma LowerServer(s: string)
    requires ServerOk(s)
    ensures Lower(s) == s
  {
    forall i | 0 <= i < |s|
      ensures Lower(s)[i] == s[i]
    {
      assert s[i] in s;
    }
  }

  lemma SafeFixed(p: Parts)
    requires Valid(p)
    ensures Safe(p) == Some(p)
  {
    LowerServer(p.server);
  }

  /** Whatever the parser returns is valid and has no '/' in its user. */
  lemma ParseValid(s: string)
    ensures Parse(s).Some? ==> Valid(Parse(s).value) && SlashFree(Parse(s).value)
  {
    if Parse(s).Some? {
      var p := Parse(s).value;
      var slash := IndexOf(s, '/');
      var body := AfterPrefix(s[..slash]);
      assert '/' !in body;
      if p.user.Some? {
        assert forall c :: c in p.user.value ==> c in body;
      }
    }
  }

  /** The head of a printed address: everything in front of its first '/'. */
  function Head(p: Parts): string { if p.user.Some? then p.user.value + "@" + p.server else p.server }

  lemma SplitHead(p: Parts)
    requires Valid(p)
    ensures SplitNode(Head(p), p.resource) == p
    ensures ':' !in Head(p) && (SlashFree(p) ==> '/' !in Head(p))
  {
    assert forall c :: c in p.server ==> ServerChar(c);
    if p.user.Some? {
      var u := p.user.value;
      assert Head(p) == u + ("@" + p.server);
      IndexOfConcat(u, "@" + p.server, '@');
    } else {
      IndexOfAbsent(p.server, '@');
    }
  }

  function Tail(p: Parts): string { if p.resource.Some? then "/" + p.resource.value else "" }

  /** Where the parser cuts a printed address. */
  lemma PrintedCuts(p: Parts)
    requires Valid(p) && SlashFree(p)
    ensures Print(p) == Head(p) + Tail(p) && Print(p) != ""
    ensures IndexOf(Print(p), '/') == |Head(p)|
    ensures Print(p)[..|Head(p)|] == Head(p)
    ensures p.resource.Some? ==> Print(p)[|Head(p)| + 1..] == p.resource.value
    ensures p.resource.None? ==> |Print(p)| == |Head(p)|
  {
    SplitHead(p);
    assert Print(p) == Head(p) + Tail(p);
    IndexOfConcat(Head(p), Tail(p), '/');
  }

  lemma ParsePrinted(p: Parts)
    requires Valid(p) && SlashFree(p)
    ensures Parse(Print(p)) == Some(p)
  {
    PrintedCuts(p);
    SplitHead(p);
    IndexOfAbsent(Head(p), ':');
    SafeFixed(p);
  }

  /** The round trip holds exactly when the user has no '/': then the printed address
      parses to itself. jid_set lets such a user in, so the condition matters. */
  lemma RoundTrip(p: Parts)
    requires Valid(p)
    ensures Parse(Print(p)) == Some(p) <==> SlashFree(p)
  {
    if SlashFree(p) {
      ParsePrinted(p);
    } else {
      ParseValid(Print(p));
    }
  }

  /** Two addresses that the parser can return print differently. */
  lemma PrintInjective(p: Parts, q: Parts)
    requires Valid(p) && Valid(q) && SlashFree(p) && SlashFree(q)
    requires Print(p) == Print(q)
    ensures p == q
  {
    RoundTrip(p);
    RoundTrip(q);
  }

  lemma CutResource(head: string, resource: Option<string>)
    requires head != "" && '/' !in head
    ensures Parse(head + (if resource.Some? then "/" + resource.value else ""))
         == Safe(SplitNode(AfterPrefix(head), if resource.Some? then NonEmpty(resource.value) else None))
  {
    var r := if resource.Some? then "/" + resource.value else "";
    var s := head + r;
    IndexOfConcat(head, r, '/');
    assert s[..|head|] == head;
    if resource.Some? {
      assert s[|head| + 1..] == resource.value;
    }
  }

  lemma CutPrefix(prefix: Option<string>, body: string)
    requires (prefix.Some? ==> ':' !in prefix.value) && ':' !in body
    ensures AfterPrefix((if prefix.Some? then prefix.value + ":" else "") + body) == body
  {
    if prefix.Some? {
      var head := prefix.value + ":" + body;
      assert head == prefix.value + (":" + body);
      IndexOfConcat(prefix.value, ":" + body, ':');
      assert head[|prefix.value| + 1..] == body;
    } else {
      assert "" + body == body;
      IndexOfAbsent(body, ':');
    }
  }

  lemma CutUser(user: Option<string>, host: string, resource: Option<string>)
    requires if user.Some? then '@' !in user.value else '@' !in host
    ensures SplitNode((if user.Some? then user.value + "@" else "") + host, resource)
         == Parts(if user.Some? then NonEmpty(user.value) else None, host, resource)
  {
    if user.Some? {
      var body := user.value + "@" + host;
      assert body == user.value + ("@" + host);
      IndexOfConcat(user.value, "@" + host, '@');
      assert body[..|user.value|] == user.value && body[|user.value| + 1..] == host;
    } else {
      assert "" + host == host;
      IndexOfAbsent(host, '@');
    }
  }

  /** The grammar read the other way round: an optional type prefix, user, host and
      resource, each cut exactly where its own separator stands. */
  lemma ParseShape(prefix: Option<string>, user: Option<string>, host: string, resource: Option<string>)
    requires prefix.Some? ==> ':' !in prefix.value && '/' !in prefix.value
    requires user.Some? ==> ':' !in user.value && '/' !in user.value && '@' !in user.value
    requires ':' !in host && '/' !in host && (user.None? ==> '@' !in host) && host != ""
    ensures var body := (if user.Some? then user.value + "@" else "") + host;
            Parse((if prefix.Some? then prefix.value + ":" else "") + body
                  + (if resource.Some? then "/" + resource.value else ""))
            == Safe(Parts(if user.Some? then NonEmpty(user.value) else None, host,
                          if resource.Some? then NonEmpty(resource.value) else None))
  {
    var body := (if user.Some? then user.value + "@" else "") + host;
    CutUser(user, host, if resource.Some? then NonEmpty(resource.value) else None);
    CutPrefix(prefix, body);
    CutResource((if prefix.Some? then prefix.value + ":" else "") + body, resource);
  }

  // ------------------------------------------------------- comparison

  /** jid_cmp: the user is compared without regard to case, the rest exactly. */
  predicate Same(a: Parts, b: Parts) {
    && a.resource == b.resource
    && (a.user.Some? == b.user.Some?)
    && (a.user.Some? ==> Lower(a.user.value) == Lower(b.user.value))
    && a.server == b.server
  }

  predicate Known(list: seq<Parts>, b: Parts) {
    exists i :: 0 <= i < |list| && Same(list[i], b)
  }

  predicate DuplicateFree(list: seq<Parts>) {
    forall i, j :: 0 <= i < j < |list| ==> !Same(list[i], list[j])
  }

  // ------------------------------------------------- the mutable structure

  /** struct jid_struct. `full` caches the printed form. */
  class Address {
    var user: Option<string>
    var server: string
    var resource: Option<string>
    var full: Option<string>

    function Fields(): Parts
      reads this
    {
      Parts(user, server, resource)
    }

    /** The cache is empty or current, and the fields are valid. */
    predicate Coherent()
      reads this
    {
      Valid(Fields()) && (full.Some? ==> full.value == Print(Fields()))
    }

    /** jid_new, given a string that parses. */
    constructor (s: string)
      requires Parse(s).Some?
      ensures Coherent() && Some(Fields()) == Parse(s) && full == None
    {
      ParseValid(s);
      var p := Parse(s).value;
      user, server, resource, full := p.user, p.server, p.resource, None;
    }

    /** jid_safe: lowers the host in place, then cuts and checks the user. */
    method MakeSafe() returns (ok: bool)
      modifies this`user, this`server
      ensures ok == Safe(old(Fields())).Some?
      ensures ok ==> Fields() == Safe(old(Fields())).value
      ensures !ok && ServerOk(Lower(old(server))) ==> server == Lower(old(server))
      ensures !ok && !ServerOk(Lower(old(server))) ==> user == old(user)
    {
      if |server| == 0 || |server| > 255 { return false; }
      var i := 0;
      while i < |server|
        invariant i <= |server| == |old(server)| && user == old(user)
        invariant forall j :: 0 <= j < i ==> server[j] == LowerChar(old(server)[j]) && ServerChar(server[j])
        invariant forall j :: i <= j < |server| ==> server[j] == old(server)[j]
      {
        server := server[i := LowerChar(server[i])];
        if !ServerChar(server[i]) {
          assert Lower(old(server))[i] in Lower(old(server));
          return false;
        }
        i := i + 1;
      }
      assert server == Lower(old(server)) && ServerOk(server);
      if user.Some? && |user.value| > 64 { user := Some(user.value[..64]); }
      if user.Some? {
        var k := 0;
        while k < |user.value|
          invariant k <= |user.value| && forall j :: 0 <= j < k ==> UserChar(user.value[j])
        {
          if !UserChar(user.value[k]) { return false; }
          k := k + 1;
        }
      }
      return true;
    }

    /** jid_set(JID_RESOURCE). */
    method SetResource(str: Option<string>)
      requires Coherent()
      modifies this
      ensures Coherent()
      ensures Fields() == old(Fields()).(resource := if str.Some? then NonEmpty(str.value) else None)
    {
      full := None;
      resource := if str.Some? && |str.value| != 0 then str else None;
    }

    /** jid_set(JID_USER): a user that is not acceptable leaves the address as it was. */
    method SetUser(str: Option<string>)
      requires Coherent()
      modifies this
      ensures Coherent()
      ensures var p := old(Fields()).(user := if str.Some? then NonEmpty(str.value) else None);
              Fields() == Safe(p).GetOr(old(Fields()))
    {
      full := None;
      var before := user;
      user := if str.Some? && |str.value| != 0 then str else None;
      LowerServer(server);
      var ok := MakeSafe();
      if !ok { user := before; }
    }

    /** jid_set(JID_SERVER): likewise. */
    method SetServer(str: string)
      requires Coherent()
      modifies this
      ensures Coherent()
      ensures Fields() == Safe(old(Fields()).(server := str)).GetOr(old(Fields()))
    {
      full := None;
      var before := server;
      server := str;
      var ok := MakeSafe();
      if !ok { server := before; }
    }

    /** jid_full. */
    method Full() returns (s: string)
      requires Coherent()
      modifies this`full
      ensures Coherent() && s == Print(Fields()) && full == Some(s)
    {
      if full.Some? { return full.value; }
      s := "";
      if user.Some? { s := s + user.value + "@"; }
      s := s + server;
      if resource.Some? { s := s + "/" + resource.value; }
      full := Some(s);
    }
  }

  // -------------------------------------------------------- the list

  /** The walk of jid_append cannot end: `b` is not in the list, and the copy that is
      appended for it is a different address. Its user is then of the form host/rest. */
  predicate Diverges(list: seq<Parts>, b: Parts) {
    && !Known(list, b)
    && b.user.Some? && '/' in b.user.value
    && ServerOk(Lower(b.user.value[..IndexOf(b.user.value, '/')]))
  }

  /** What jid_new makes of a printed address whose user has a '/': the part in front
      of the '/' becomes the host, or the copy is refused. */
  lemma SlashedCopy(b: Parts)
    requires Valid(b) && !SlashFree(b)
    ensures var host := b.user.value[..IndexOf(b.user.value, '/')];
            && (Parse(Print(b)).Some? <==> ServerOk(Lower(host)))
            && (Parse(Print(b)).Some? ==> !Same(Parse(Print(b)).value, b))
  {
    var u := b.user.value;
    var k := IndexOf(u, '/');
    var rest := u[k + 1..] + "@" + b.server + Tail(b);
    assert Print(b) == u[..k] + ("/" + rest);
    assert forall c :: c in u[..k] ==> c in u;
    HostAndRest(u[..k], rest);
  }

  /** A text whose part in front of the first '/' has no ':' and no '@'. */
  lemma HostAndRest(host: string, rest: string)
    requires '/' !in host && ':' !in host && '@' !in host
    ensures Parse(host + ("/" + rest)) == Safe(Parts(None, host, NonEmpty(rest)))
  {
    var s := host + ("/" + rest);
    IndexOfConcat(host, "/" + rest, '/');
    assert s[..|host|] == host && s[|host| + 1..] == rest;
    IndexOfAbsent(host, ':');
    IndexOfAbsent(host, '@');
  }

  /** What jid_append copies: the address itself, exactly when it has no '/' in its user. */
  lemma CopyOf(list: seq<Parts>, b: Parts)
    requires Valid(b) && !Diverges(list, b)
    ensures Known(list, b) || Parse(Print(b)) == (if SlashFree(b) then Some(b) else None)
  {
    RoundTrip(b);
    if !SlashFree(b) { SlashedCopy(b); }
  }

  /** jid_append: the list as the walk leaves it. The list is duplicate-free because the
      copy of `b` is found again by the next turn of the walk, which is RoundTrip. */
  method Append(list: seq<Parts>, b: Parts) returns (r: seq<Parts>)
    requires list != [] && Valid(b) && !Diverges(list, b)
    ensures r == if Known(list, b) || !SlashFree(b) then list else list + [b]
    ensures DuplicateFree(list) ==> DuplicateFree(r)
  {
    var copy := Parse(Print(b));
    CopyOf(list, b);
    r := WalkAppend(list, b, copy);
    if !Known(list, b) { AddedOnce(list, b); }
  }

  lemma AddedOnce(list: seq<Parts>, b: Parts)
    requires !Known(list, b)
    ensures DuplicateFree(list) ==> DuplicateFree(list + [b])
  {
  }

  /** The loop of jid_append, with the copy that jid_new makes. */
  method WalkAppend(list: seq<Parts>, b: Parts, copy: Option<Parts>) returns (r: seq<Parts>)
    requires list != [] && (Known(list, b) || copy == None || copy == Some(b))
    ensures r == if Known(list, b) || copy == None then list else list + [b]
  {
    r := list;
    var next := 0;
    while next < |r|
      invariant forall i :: 0 <= i < next && i < |list| ==> !Same(list[i], b)
      invariant if next < |list| then r == list else !Known(list, b) && next == |list|
      invariant next >= |list| ==> r == if copy.Some? then list + [b] else list
      decreases |list| + 1 - next
    {
      if Same(r[next], b) { break; }
      if next + 1 == |r| {
        if copy.Some? { r := r + [copy.value]; }
      }
      next := next + 1;
    }
  }

  /** One turn of the walk at position `next`, when it does not stop there. */
  function AppendTurn(list: seq<Parts>, next: nat, copy: Option<Parts>): seq<Parts>
    requires next < |list|
  {
    if next + 1 == |list| && copy.Some? then list + [copy.value] else list
  }

  /** The list after `turns` turns of the walk from its head, or None once it has stopped. */
  function AppendWalk(list: seq<Parts>, next: nat, b: Parts, copy: Option<Parts>, turns: nat): Option<seq<Parts>>
    requires next < |list|
    decreases turns
  {
    if turns == 0 then Some(list)
    else if Same(list[next], b) then None
    else
      var list' := AppendTurn(list, next, copy);
      if next + 1 < |list'| then AppendWalk(list', next + 1, b, copy, turns - 1) else None
  }

  lemma {:induction false} WalkDiverges(list: seq<Parts>, next: nat, b: Parts, copy: Parts, turns: nat)
    requires next < |list| && !Known(list, b) && !Same(copy, b)
    ensures AppendWalk(list, next, b, Some(copy), turns).Some?
    ensures |AppendWalk(list, next, b, Some(copy), turns).value| >= next + turns
    decreases turns
  {
    if turns > 0 {
      var list' := AppendTurn(list, next, Some(copy));
      assert forall i :: 0 <= i < |list'| ==> list'[i] == if i < |list| then list[i] else copy;
      WalkDiverges(list', next + 1, b, copy, turns - 1);
    }
  }

  /** For the addresses that Append excludes the walk never stops and the list grows
      without bound. */
  lemma AppendDiverges(list: seq<Parts>, next: nat, b: Parts, turns: nat)
    requires next < |list| && Valid(b) && Diverges(list, b)
    ensures AppendWalk(list, next, b, Parse(Print(b)), turns).Some?
    ensures |AppendWalk(list, next, b, Parse(Print(b)), turns).value| >= next + turns
  {
    SlashedCopy(b);
    WalkDiverges(list, next, b, Parse(Print(b)).value, turns);
  }
}
