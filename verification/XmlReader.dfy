/** A reader of the text that the printer prints: what it says of the tree. */
module XmlReader {
  import opened Options
  import opened XmlNode
  import opened XmlStream
  import XmlText
  import Jid

  // -------------------------------------------------------------------- the reader

  /** The text with its entities replaced; an ampersand that starts none stays. */
  function Plain(s: string): string {
    if s == "" then ""
    else if s[0] != '&' then [s[0]] + Plain(s[1..])
    else if "&amp;" <= s then "&" + Plain(s[5..])
    else if "&quot;" <= s then "\"" + Plain(s[6..])
    else if "&apos;" <= s then "'" + Plain(s[6..])
    else if "&lt;" <= s then "<" + Plain(s[4..])
    else if "&gt;" <= s then ">" + Plain(s[4..])
    else "&" + Plain(s[1..])
  }

  predicate EndsName(c: char) { c == ' ' || c == '/' || c == '>' }

  /** Where the name at the front of s ends. */
  function NameEnd(s: string): (k: nat)
    ensures k <= |s|
  {
    if s == "" || EndsName(s[0]) then 0 else 1 + NameEnd(s[1..])
  }

  /** The attributes at the front of s, each in single quotes, and what comes behind them. */
  function ReadAttribs(s: string): (r: Option<(Attribs, string)>)
    ensures r.Some? ==> |r.value.1| <= |s|
    decreases |s|
  {
    if s == "" || s[0] != ' ' then Some(([], s))
    else
      var e := Jid.IndexOf(s, '=');
      if e + 2 > |s| || s[e + 1] != '\'' then None
      else
        var v := s[e + 2..];
        var q := Jid.IndexOf(v, '\'');
        if q == |v| then None
        else
          var more := ReadAttribs(v[q + 1..]);
          if more.None? then None
          else Some(([(s[1..e], Plain(v[..q]))] + more.value.0, more.value.1))
  }

  /** Text joins the text that follows it, and nothing is said of an empty one. */
  function Put(data: string, es: seq<Event>): seq<Event> {
    if es != [] && es[0].Chars? then [Chars(data + es[0].data)] + es[1..]
    else if data == "" then es
    else [Chars(data)] + es
  }

  function Before(front: seq<Event>, rest: Option<seq<Event>>): Option<seq<Event>> {
    if rest.None? then None else Some(front + rest.value)
  }

  /** An opening or empty tag, of which the '<' has been read. */
  function ReadTag(s: string): (r: Option<(seq<Event>, string)>)
    ensures r.Some? ==> |r.value.1| < |s|
  {
    var k := NameEnd(s);
    var read := ReadAttribs(s[k..]);
    if read.None? then None
    else
      var (attribs, rest) := read.value;
      if rest != "" && rest[0] == '>' then Some(([Start(s[..k], attribs)], rest[1..]))
      else if "/>" <= rest then Some(([Start(s[..k], attribs), End(s[..k])], rest[2..]))
      else None
  }

  /** What an XML reader reports of a text. */
  function Read(s: string): Option<seq<Event>>
    decreases |s|
  {
    if s == "" then Some([])
    else if s[0] != '<' then
      var k := Jid.IndexOf(s, '<');
      Before([Chars(Plain(s[..k]))], Read(s[k..]))
    else if |s| > 1 && s[1] == '/' then
      var k := Jid.IndexOf(s, '>');
      if k == |s| then None else Before([End(s[2..k])], Read(s[k + 1..]))
    else
      var tag := ReadTag(s[1..]);
      if tag.None? then None else Before(tag.value.0, Read(tag.value.1))
  }

  // ---------------------------------------------------------- names and values

  /** A name that stands in a tag as it is. */
  predicate TagName(name: string) { name != "" && forall i :: 0 <= i < |name| ==> !EndsName(name[i]) }

  predicate AttribNames(attribs: Attribs) { forall i :: 0 <= i < |attribs| ==> '=' !in attribs[i].0 }

  predicate Named(t: Tree) {
    match t
    case Text(_) => true
    case Elem(name, attribs, kids) => TagName(name) && AttribNames(attribs) && AllNamed(kids)
  }

  predicate AllNamed(ts: seq<Tree>) { ts == [] || (Named(ts[0]) && AllNamed(ts[1..])) }

  lemma {:induction false} PlainUnescapes(s: string)
    ensures XmlText.Unescapes(s, Plain(s))
  {
    if s != "" {
      var k := if s[0] != '&' then 1 else if "&amp;" <= s then 5
               else if "&quot;" <= s || "&apos;" <= s then 6 else if "&lt;" <= s || "&gt;" <= s then 4 else 1;
      PlainUnescapes(s[k..]);
      assert Plain(s)[1..] == Plain(s[k..]);
    }
  }

  lemma {:induction false} PlainConcat(s: string, v: string)
    ensures Plain(XmlText.Escape(s) + v) == s + Plain(v)
  {
    if s == "" {
      assert XmlText.Escape(s) + v == v;
    } else {
      var rest := XmlText.Escape(s[1..]);
      EscapedFirst(s, v);
      PlainOne(s[0], rest + v);
      PlainConcat(s[1..], v);
      FirstOf(s, Plain(v));
    }
  }

  lemma EscapedFirst(s: string, v: string)
    requires s != ""
    ensures XmlText.Escape(s) + v == XmlText.Entity(s[0]) + (XmlText.Escape(s[1..]) + v)
  {
    Assoc(XmlText.Entity(s[0]), XmlText.Escape(s[1..]), v);
  }

  lemma FirstOf(s: string, v: string)
    requires s != ""
    ensures s + v == [s[0]] + (s[1..] + v)
  {
  }

  lemma PlainOne(c: char, rest: string)
    ensures Plain(XmlText.Entity(c) + rest) == [c] + Plain(rest)
  {
    var e := XmlText.Entity(c);
    assert (e + rest)[|e|..] == rest;
    if |e| == 1 {
      assert (e + rest)[0] == c;
    } else {
      EntityFirst(c, rest);
    }
  }

  /** Which entity a text starts with. */
  lemma EntityFirst(c: char, rest: string)
    requires |XmlText.Entity(c)| > 1
    ensures var t := XmlText.Entity(c) + rest;
            && t[0] == '&' && ("&amp;" <= t <==> c == '&') && ("&quot;" <= t <==> c == '"')
            && ("&apos;" <= t <==> c == '\'') && ("&lt;" <= t <==> c == '<') && ("&gt;" <= t <==> c == '>')
  {
    var e := XmlText.Entity(c);
    var t := e + rest;
    assert e <= t && t[1] == e[1] && t[2] == e[2];
  }

  lemma PlainEscaped(s: string)
    ensures Plain(XmlText.Escape(s)) == s
  {
    PlainConcat(s, "");
    assert XmlText.Escape(s) + "" == XmlText.Escape(s);
  }

  lemma {:induction false} NameEndsThere(name: string, rest: string)
    requires forall i :: 0 <= i < |name| ==> !EndsName(name[i])
    requires rest != "" && EndsName(rest[0])
    ensures NameEnd(name + rest) == |name|
  {
    if name == "" {
      assert name + rest == rest;
    } else {
      assert (name + rest)[0] == name[0] && (name + rest)[1..] == name[1..] + rest;
      NameEndsThere(name[1..], rest);
    }
  }

  /** A quoted value ends where it should, and reads as what it was. */
  lemma ValueReads(value: string, rest: string)
    ensures var v := XmlText.Escape(value) + ("'" + rest);
            var q := Jid.IndexOf(v, '\'');
            q == |XmlText.Escape(value)| && q < |v| && Plain(v[..q]) == value && v[q + 1..] == rest
  {
    var e := XmlText.Escape(value);
    XmlText.EscapedIsSafe(value);
    Jid.IndexOfConcat(e, "'" + rest, '\'');
    PlainEscaped(value);
    assert (e + ("'" + rest))[..|e|] == e && (e + ("'" + rest))[|e| + 1..] == rest;
  }

  /** One attribute in front of others. */
  lemma AttribReads(name: string, value: string, tail: string)
    requires '=' !in name && ReadAttribs(tail).Some?
    ensures var (more, rest) := ReadAttribs(tail).value;
            ReadAttribs((" " + name) + ("='" + (XmlText.Escape(value) + ("'" + tail))))
            == Some(([(name, value)] + more, rest))
  {
    var v := XmlText.Escape(value) + ("'" + tail);
    ValueReads(value, tail);
    NameReads(name, v);
  }

  lemma NameReads(name: string, v: string)
    requires '=' !in name
    ensures var s, e := (" " + name) + ("='" + v), |name| + 1;
            Jid.IndexOf(s, '=') == e && s[0] == ' ' && s[e + 1] == '\'' && s[1..e] == name && s[e + 2..] == v
  {
    Jid.IndexOfConcat(" " + name, "='" + v, '=');
  }

  lemma AttribsFirst(attribs: Attribs, rest: string)
    requires attribs != []
    ensures XmlNode.Attribs(attribs) + rest
         == (" " + attribs[0].0)
            + ("='" + (XmlText.Escape(attribs[0].1) + ("'" + (XmlNode.Attribs(attribs[1..]) + rest))))
  {
    SixParts(" ", attribs[0].0, "='", XmlText.Escape(attribs[0].1), "'", XmlNode.Attribs(attribs[1..]), rest);
  }

  lemma SixParts(a: string, b: string, c: string, d: string, e: string, f: string, g: string)
    ensures (a + b + c + d + e + f) + g == (a + b) + (c + (d + (e + (f + g))))
  {
  }

  lemma {:induction false} AttribsRead(attribs: Attribs, rest: string)
    requires AttribNames(attribs) && rest != "" && rest[0] != ' '
    ensures ReadAttribs(XmlNode.Attribs(attribs) + rest) == Some((attribs, rest))
  {
    if attribs == [] {
      assert XmlNode.Attribs(attribs) + rest == rest;
    } else {
      AttribsRead(attribs[1..], rest);
      AttribsFirst(attribs, rest);
      AttribReads(attribs[0].0, attribs[0].1, XmlNode.Attribs(attribs[1..]) + rest);
      assert [attribs[0]] + attribs[1..] == attribs;
    }
  }

  // -------------------------------------------------------- tags, texts, trees

  lemma TagReads(name: string, attribs: Attribs, tail: string)
    requires TagName(name) && AttribNames(attribs) && tail != "" && (tail[0] == '/' || tail[0] == '>')
    ensures var s := name + (XmlNode.Attribs(attribs) + tail);
            NameEnd(s) == |name| && s[..|name|] == name && ReadAttribs(s[|name|..]) == Some((attribs, tail))
  {
    var body := XmlNode.Attribs(attribs) + tail;
    AttribsStart(attribs, tail);
    NameEndsThere(name, body);
    AttribsRead(attribs, tail);
    assert (name + body)[..|name|] == name && (name + body)[|name|..] == body;
  }

  lemma AttribsStart(attribs: Attribs, tail: string)
    requires tail != "" && EndsName(tail[0])
    ensures var body := XmlNode.Attribs(attribs) + tail; body != "" && EndsName(body[0])
  {
  }

  lemma StartReads(name: string, attribs: Attribs, empty: bool, rest: string)
    requires TagName(name) && AttribNames(attribs)
    ensures var tail := (if empty then "/>" else ">") + rest;
            var front := if empty then [Start(name, attribs), End(name)] else [Start(name, attribs)];
            Read("<" + (name + (XmlNode.Attribs(attribs) + tail))) == Before(front, Read(rest))
  {
    var tail := (if empty then "/>" else ">") + rest;
    var s := name + (XmlNode.Attribs(attribs) + tail);
    TagReads(name, attribs, tail);
    var front := if empty then [Start(name, attribs), End(name)] else [Start(name, attribs)];
    assert tail[if empty then 2 else 1..] == rest;
    assert ReadTag(s) == Some((front, rest));
    MarkupReads(s);
  }

  lemma MarkupReads(s: string)
    requires s != "" && s[0] != '/'
    ensures Read("<" + s) == if ReadTag(s).None? then None else Before(ReadTag(s).value.0, Read(ReadTag(s).value.1))
  {
    assert ("<" + s)[1..] == s;
  }

  lemma EndReads(name: string, rest: string)
    requires TagName(name)
    ensures Read(TagText(name, [], 2) + rest) == Before([End(name)], Read(rest))
  {
    var t := TagText(name, [], 2) + rest;
    assert t == ("</" + name) + (">" + rest);
    Jid.IndexOfConcat("</" + name, ">" + rest, '>');
    assert t[2..|name| + 2] == name && t[|name| + 3..] == rest;
  }

  /** A text in front joins the text that follows. */
  lemma TextReads(data: string, rest: string)
    requires Read(rest).Some?
    ensures Read(XmlText.Escape(data) + rest) == Some(Put(data, Read(rest).value))
  {
    var e := XmlText.Escape(data);
    var k := Jid.IndexOf(rest, '<');
    if data == "" {
      assert e + rest == rest;
      CharsRead(rest, k);
      PutNothing(Read(rest).value);
    } else {
      XmlText.EscapedIsSafe(data);
      XmlText.EscapeLength(data);
      Lengthened(e, rest, k);
      PlainConcat(data, rest[..k]);
      if k == 0 {
        assert rest[..k] == "" && data + "" == data && rest[k..] == rest;
        MarkupFirst(rest);
      } else {
        CharsRead(rest, k);
        PutMore(data, Plain(rest[..k]), Read(rest[k..]).value);
      }
    }
  }

  /** Characters without markup lengthen the text that follows. */
  lemma Lengthened(e: string, rest: string, k: nat)
    requires e != "" && '<' !in e && k == Jid.IndexOf(rest, '<')
    ensures Read(e + rest) == Before([Chars(Plain(e + rest[..k]))], Read(rest[k..]))
  {
    Jid.IndexOfConcat(e, rest, '<');
    assert (e + rest)[..|e| + k] == e + rest[..k] && (e + rest)[|e| + k..] == rest[k..];
    CharsRead(e + rest, |e| + k);
  }

  lemma PutNothing(es: seq<Event>)
    ensures Put("", es) == es
  {
    if es != [] && es[0].Chars? {
      assert "" + es[0].data == es[0].data && [es[0]] + es[1..] == es;
    }
  }

  lemma PutMore(data: string, more: string, es: seq<Event>)
    ensures Put(data, [Chars(more)] + es) == [Chars(data + more)] + es
  {
    assert ([Chars(more)] + es)[1..] == es;
  }

  lemma CharsRead(s: string, k: nat)
    requires k == Jid.IndexOf(s, '<')
    ensures k > 0 ==> Read(s) == Before([Chars(Plain(s[..k]))], Read(s[k..]))
    ensures k == 0 ==> s == "" || s[0] == '<'
  {
  }

  lemma MarkupFirst(s: string)
    requires Read(s).Some? && (s == "" || s[0] == '<')
    ensures Read(s).value == [] || !Read(s).value[0].Chars?
  {
  }

  /** The events in front of what is already read: neighbouring texts joined, empty ones left
      out. */
  function Onto(front: seq<Event>, es: seq<Event>): seq<Event> {
    if front == [] then es
    else if front[0].Chars? then Put(front[0].data, Onto(front[1..], es))
    else [front[0]] + Onto(front[1..], es)
  }

  lemma {:induction false} OntoConcat(a: seq<Event>, b: seq<Event>, es: seq<Event>)
    ensures Onto(a + b, es) == Onto(a, Onto(b, es))
  {
    if a == [] {
      assert a + b == b;
    } else {
      assert (a + b)[0] == a[0] && (a + b)[1..] == a[1..] + b;
      OntoConcat(a[1..], b, es);
    }
  }

  /** What is printed of a tree reads as its events. */
  lemma {:induction false} TreeReads(t: Tree, rest: string)
    requires Named(t) && Read(rest).Some?
    ensures Read(Print(t) + rest) == Some(Onto(Events(t), Read(rest).value))
    decreases t, 0
  {
    if t.Text? {
      TextReads(t.data, rest);
      assert Events(t)[1..] == [];
    } else if t.kids == [] {
      EmptyReads(t, rest);
    } else {
      var close := TagText(t.name, [], 2) + rest;
      EndReads(t.name, rest);
      TreesRead(t.kids, close);
      FullReads(t, rest);
    }
  }

  lemma EmptyReads(t: Tree, rest: string)
    requires t.Elem? && t.kids == [] && Named(t) && Read(rest).Some?
    ensures Read(Print(t) + rest) == Some(Onto(Events(t), Read(rest).value))
  {
    EmptyEvents(t, Read(rest).value);
    EmptyText(t.name, t.attribs, rest);
    StartReads(t.name, t.attribs, true, rest);
  }

  lemma EmptyEvents(t: Tree, es: seq<Event>)
    requires t.Elem? && t.kids == []
    ensures Onto(Events(t), es) == [Start(t.name, t.attribs), End(t.name)] + es
  {
    OntoElem(t.name, t.attribs, t.kids, es);
    assert [Start(t.name, t.attribs), End(t.name)] + es == [Start(t.name, t.attribs)] + ([End(t.name)] + es);
  }

  lemma EmptyText(name: string, attribs: Attribs, rest: string)
    ensures TagText(name, attribs, 0) + rest == "<" + (name + (XmlNode.Attribs(attribs) + ("/>" + rest)))
  {
    FourParts("<", name, XmlNode.Attribs(attribs), "/>", rest);
  }

  lemma FullReads(t: Tree, rest: string)
    requires t.Elem? && t.kids != [] && Named(t) && Read(rest).Some?
    requires var kids := PrintAll(t.kids) + (TagText(t.name, [], 2) + rest);
             Read(kids) == Some(Onto(EventsAll(t.kids), [End(t.name)] + Read(rest).value))
    ensures Read(Print(t) + rest) == Some(Onto(Events(t), Read(rest).value))
  {
    var kids := PrintAll(t.kids) + (TagText(t.name, [], 2) + rest);
    OntoElem(t.name, t.attribs, t.kids, Read(rest).value);
    StartReads(t.name, t.attribs, false, kids);
    assert TagText(t.name, t.attribs, 2) == TagText(t.name, [], 2);
    Assoc(TagText(t.name, t.attribs, 1) + PrintAll(t.kids), TagText(t.name, [], 2), rest);
    Assoc(TagText(t.name, t.attribs, 1), PrintAll(t.kids), TagText(t.name, [], 2) + rest);
    FourParts("<", t.name, XmlNode.Attribs(t.attribs), ">", kids);
  }

  lemma FourParts(a: string, b: string, c: string, d: string, e: string)
    ensures (a + b + c + d) + e == a + (b + (c + (d + e)))
  {
  }

  lemma OntoElem(name: string, attribs: Attribs, kids: seq<Tree>, es: seq<Event>)
    ensures Onto(Events(Elem(name, attribs, kids)), es)
         == [Start(name, attribs)] + Onto(EventsAll(kids), [End(name)] + es)
  {
    var start, end := [Start(name, attribs)], [End(name)];
    assert Events(Elem(name, attribs, kids)) == start + (EventsAll(kids) + end);
    OntoConcat(start, EventsAll(kids) + end, es);
    OntoConcat(EventsAll(kids), end, es);
    assert start[1..] == [] && end[1..] == [];
  }

  lemma {:induction false} TreesRead(ts: seq<Tree>, rest: string)
    requires AllNamed(ts) && Read(rest).Some?
    ensures Read(PrintAll(ts) + rest) == Some(Onto(EventsAll(ts), Read(rest).value))
    decreases ts, 1
  {
    if ts == [] {
      assert PrintAll(ts) + rest == rest;
    } else {
      TreesRead(ts[1..], rest);
      TreeReads(ts[0], PrintAll(ts[1..]) + rest);
      OntoConcat(Events(ts[0]), EventsAll(ts[1..]), Read(rest).value);
      Assoc(Print(ts[0]), PrintAll(ts[1..]), rest);
    }
  }

  // -------------------------------------------------------------- the tree again

  /** The tree with neighbouring texts joined and empty ones left out, all the way down. */
  function Tidied(t: Tree): Tree {
    match t
    case Text(_) => t
    case Elem(name, attribs, kids) => Elem(name, attribs, TidyAll(kids))
  }

  function TidyAll(ts: seq<Tree>): seq<Tree> {
    if ts == [] then []
    else
      var rest := TidyAll(ts[1..]);
      if ts[0].Elem? then [Tidied(ts[0])] + rest
      else if rest != [] && rest[0].Text? then [Text(ts[0].data + rest[0].data)] + rest[1..]
      else if ts[0].data == "" then rest
      else ts[..1] + rest
  }

  lemma {:induction false} TidyEvents(ts: seq<Tree>, es: seq<Event>)
    requires es == [] || !es[0].Chars?
    ensures Onto(EventsAll(ts), es) == EventsAll(TidyAll(ts)) + es
    decreases ts, 1
  {
    if ts != [] {
      var rest := TidyAll(ts[1..]);
      TidyEvents(ts[1..], es);
      OntoConcat(Events(ts[0]), EventsAll(ts[1..]), es);
      if ts[0].Elem? {
        TidyEvent(ts[0], EventsAll(rest) + es);
        assert EventsAll([Tidied(ts[0])] + rest) == Events(Tidied(ts[0])) + EventsAll(rest) by {
          assert ([Tidied(ts[0])] + rest)[1..] == rest;
        }
      } else {
        TidyText(ts, es);
      }
    }
  }

  lemma TidyText(ts: seq<Tree>, es: seq<Event>)
    requires ts != [] && ts[0].Text? && (es == [] || !es[0].Chars?)
    ensures Onto(Events(ts[0]), EventsAll(TidyAll(ts[1..])) + es) == EventsAll(TidyAll(ts)) + es
  {
    var data, rest := ts[0].data, TidyAll(ts[1..]);
    assert Events(ts[0])[1..] == [];
    if rest != [] && rest[0].Text? {
      TextEvents(rest[0].data, rest[1..], es);
      assert rest == [Text(rest[0].data)] + rest[1..];
      TextEvents(data + rest[0].data, rest[1..], es);
      PutMore(data, rest[0].data, EventsAll(rest[1..]) + es);
    } else {
      TextEvents(data, rest, es);
      assert rest != [] ==> EventsAll(rest)[0].Start?;
    }
  }

  lemma TextEvents(data: string, rest: seq<Tree>, es: seq<Event>)
    ensures EventsAll([Text(data)] + rest) + es == [Chars(data)] + (EventsAll(rest) + es)
  {
    assert ([Text(data)] + rest)[1..] == rest;
  }

  lemma {:induction false} TidyEvent(t: Tree, es: seq<Event>)
    requires t.Elem?
    ensures Onto(Events(t), es) == Events(Tidied(t)) + es
    decreases t, 0
  {
    OntoElem(t.name, t.attribs, t.kids, es);
    TidyEvents(t.kids, [End(t.name)] + es);
  }

  /** Main result: what is printed of a tree reads as exactly that tree, with neighbouring
      texts joined and empty ones left out; names, attributes and their values, and the order
      and depth of everything are kept. */
  lemma PrintedReadsBack(t: Tree)
    requires Named(t) && t.Elem?
    ensures Read(Print(t)) == Some(Events(Tidied(t)))
  {
    TreeReads(t, "");
    TidyEvent(t, []);
    assert Print(t) + "" == Print(t) && Events(Tidied(t)) + [] == Events(Tidied(t));
  }

  /** So the text determines the tree, up to how its texts are cut. */
  lemma PrintDetermines(t: Tree, t': Tree)
    requires Named(t) && t.Elem? && Named(t') && t'.Elem? && Print(t) == Print(t')
    ensures Tidied(t) == Tidied(t')
  {
    PrintedReadsBack(t);
    PrintedReadsBack(t');
    FeedStanza(Tidied(t));
    FeedStanza(Tidied(t'));
    assert Stanzas([Tidied(t)]) == [Stanza(Tidied(t))] && Stanzas([Tidied(t')]) == [Stanza(Tidied(t'))];
  }

  /** So a document that is printed, read, and fed to the handlers of a stream arrives stanza
      by stanza. */
  lemma PrintedArrives(name: string, attribs: Attribs, items: seq<Tree>)
    requires Named(Elem(name, attribs, items))
    ensures var read := Read(Print(Elem(name, attribs, items)));
            read.Some? && Feed(FRESH, read.value).1 == [Root(name, attribs)] + Stanzas(TidyAll(items)) + [Close]
  {
    PrintedReadsBack(Elem(name, attribs, items));
    StreamDelivers(name, attribs, TidyAll(items));
  }
}
