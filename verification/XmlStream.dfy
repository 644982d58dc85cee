/** The event handlers that build one tree for each stanza of a stream (mio_xml.c). */
module XmlStream {
  import opened Options
  import opened XmlNode
  import XmlText

  type Attribs = seq<(string, string)>

  /** What the XML parser reports. Character data may come in any number of pieces. */
  datatype Event = Start(name: string, attribs: Attribs) | End(name: string) | Chars(data: string)

  /** What the owner of the socket gets to see. */
  datatype Callback = Root(name: string, attribs: Attribs) | Stanza(tree: Tree) | Close

  /** An element that has been opened and not yet closed. */
  datatype Open = Open(name: string, attribs: Attribs, kids: seq<Tree>)

  /** `stack` is m->stacknode with its chain of parents, innermost last. */
  datatype State = State(root: bool, stack: seq<Open>)

  const FRESH := State(false, [])

  function WithKid(stack: seq<Open>, t: Tree): seq<Open>
    requires stack != []
  {
    var n := |stack| - 1;
    stack[n := stack[n].(kids := stack[n].kids + [t])]
  }

  function Step(st: State, e: Event): (State, seq<Callback>) {
    match e
    case Start(name, attribs) =>
      if st.stack == [] && !st.root then (st.(root := true), [Root(name, attribs)])
      else (st.(stack := st.stack + [Open(name, attribs, [])]), [])
    case End(_) =>
      if st.stack == [] then (st, [Close])
      else
        var n := |st.stack| - 1;
        var top := st.stack[n];
        var t := Elem(top.name, top.attribs, top.kids);
        if n == 0 then (st.(stack := []), [Stanza(t)])
        else (st.(stack := WithKid(st.stack[..n], t)), [])
    case Chars(data) =>
      if st.stack == [] then (st, []) else (st.(stack := WithKid(st.stack, Text(data))), [])
  }

  function Feed(st: State, es: seq<Event>): (State, seq<Callback>)
    decreases |es|
  {
    if es == [] then (st, [])
    else
      var (st1, out) := Step(st, es[0]);
      var (st2, more) := Feed(st1, es[1..]);
      (st2, out + more)
  }

  // ------------------------------------------------ what a document reports

  /** The events of a tree. Neighbouring texts are the pieces of one run of characters. */
  function Events(t: Tree): seq<Event> {
    match t
    case Text(data) => [Chars(data)]
    case Elem(name, attribs, kids) => [Start(name, attribs)] + EventsAll(kids) + [End(name)]
  }

  function EventsAll(ts: seq<Tree>): seq<Event> {
    if ts == [] then [] else Events(ts[0]) + EventsAll(ts[1..])
  }

  /** The elements among the trees, as stanzas. */
  function Stanzas(ts: seq<Tree>): seq<Callback> {
    if ts == [] then [] else (if ts[0].Elem? then [Stanza(ts[0])] else []) + Stanzas(ts[1..])
  }

  lemma {:induction false} FeedConcat(st: State, a: seq<Event>, b: seq<Event>)
    ensures var (st1, out1) := Feed(st, a); var (st2, out2) := Feed(st1, b); Feed(st, a + b) == (st2, out1 + out2)
    decreases |a|
  {
    if a == [] {
      assert a + b == b && [] + Feed(st, b).1 == Feed(st, b).1;
    } else {
      FeedConcat(Step(st, a[0]).0, a[1..], b);
      assert (a + b)[1..] == a[1..] + b && (a + b)[0] == a[0];
      FeedFirst(st, a);
      FeedFirst(st, a + b);
      var out, sta := Step(st, a[0]).1, Feed(Step(st, a[0]).0, a[1..]);
      assert out + (sta.1 + Feed(sta.0, b).1) == (out + sta.1) + Feed(sta.0, b).1;
    }
  }

  lemma FeedFirst(st: State, es: seq<Event>)
    requires es != []
    ensures var (st1, out) := Step(st, es[0]); Feed(st, es) == (Feed(st1, es[1..]).0, out + Feed(st1, es[1..]).1)
  {
  }

  lemma FeedOne(st: State, e: Event)
    ensures Feed(st, [e]) == Step(st, e)
  {
    assert [e][1..] == [] && Step(st, e).1 + [] == Step(st, e).1;
  }

  function AddAll(stack: seq<Open>, ts: seq<Tree>): seq<Open>
    requires stack != []
  {
    var n := |stack| - 1;
    stack[n := stack[n].(kids := stack[n].kids + ts)]
  }

  /** Inside an open element a tree becomes its next child, and nobody is called. */
  lemma {:induction false} FeedInside(st: State, t: Tree)
    requires st.stack != []
    ensures Feed(st, Events(t)) == (st.(stack := WithKid(st.stack, t)), [])
    decreases t, 0
  {
    match t
    case Text(data) => FeedOne(st, Chars(data));
    case Elem(name, attribs, kids) =>
      var st1 := st.(stack := st.stack + [Open(name, attribs, [])]);
      FeedOne(st, Start(name, attribs));
      FeedAllInside(st1, kids);
      var st2 := st.(stack := st.stack + [Open(name, attribs, kids)]);
      assert AddAll(st1.stack, kids) == st2.stack by { assert [] + kids == kids; }
      FeedOne(st2, End(name));
      assert st2.stack[..|st.stack|] == st.stack;
      FeedConcat(st, [Start(name, attribs)], EventsAll(kids));
      FeedConcat(st, [Start(name, attribs)] + EventsAll(kids), [End(name)]);
  }

  lemma {:induction false} FeedAllInside(st: State, ts: seq<Tree>)
    requires st.stack != []
    ensures Feed(st, EventsAll(ts)) == (st.(stack := AddAll(st.stack, ts)), [])
    decreases ts, 1
  {
    if ts == [] {
      var kids := st.stack[|st.stack| - 1].kids;
      assert kids + [] == kids;
      assert AddAll(st.stack, ts) == st.stack;
    } else {
      FeedInside(st, ts[0]);
      var st1 := st.(stack := WithKid(st.stack, ts[0]));
      FeedAllInside(st1, ts[1..]);
      FeedConcat(st, Events(ts[0]), EventsAll(ts[1..]));
      AddOneThenAll(st.stack, ts);
    }
  }

  lemma AddOneThenAll(stack: seq<Open>, ts: seq<Tree>)
    requires stack != [] && ts != []
    ensures AddAll(WithKid(stack, ts[0]), ts[1..]) == AddAll(stack, ts)
  {
    var kids := stack[|stack| - 1].kids;
    assert (kids + [ts[0]]) + ts[1..] == kids + ts;
  }

  /** Between stanzas an element is handed over whole, and characters are dropped. */
  lemma FeedStanza(t: Tree)
    ensures Feed(State(true, []), Events(t)) == (State(true, []), Stanzas([t]))
  {
    var st := State(true, []);
    assert [t][1..] == [];
    match t
    case Text(data) => FeedOne(st, Chars(data));
    case Elem(name, attribs, kids) =>
      var st1 := State(true, [Open(name, attribs, [])]);
      FeedOne(st, Start(name, attribs));
      assert st.stack + [Open(name, attribs, [])] == st1.stack;
      FeedAllInside(st1, kids);
      var st2 := State(true, [Open(name, attribs, kids)]);
      assert AddAll(st1.stack, kids) == st2.stack by { assert [] + kids == kids; }
      FeedOne(st2, End(name));
      FeedConcat(st, [Start(name, attribs)], EventsAll(kids));
      FeedConcat(st, [Start(name, attribs)] + EventsAll(kids), [End(name)]);
      assert Stanzas([t]) == [Stanza(t)] + [] == [Stanza(t)];
      assert [] + [] + [Stanza(t)] == [Stanza(t)];
  }

  lemma {:induction false} FeedStanzas(ts: seq<Tree>)
    ensures Feed(State(true, []), EventsAll(ts)) == (State(true, []), Stanzas(ts))
  {
    if ts != [] {
      FeedStanza(ts[0]);
      FeedStanzas(ts[1..]);
      FeedConcat(State(true, []), Events(ts[0]), EventsAll(ts[1..]));
      assert [ts[0]][1..] == [];
      assert Stanzas([ts[0]]) + Stanzas(ts[1..]) == Stanzas(ts);
    }
  }

  /** The whole stream: one root, then each element of the root as one stanza with exactly
      its own subtree, then the close. Characters between the stanzas are dropped. */
  lemma StreamDelivers(name: string, attribs: Attribs, items: seq<Tree>)
    ensures Feed(FRESH, Events(Elem(name, attribs, items)))
         == (State(true, []), [Root(name, attribs)] + Stanzas(items) + [Close])
  {
    FeedOne(FRESH, Start(name, attribs));
    FeedStanzas(items);
    FeedOne(State(true, []), End(name));
    FeedConcat(FRESH, [Start(name, attribs)], EventsAll(items));
    FeedConcat(FRESH, [Start(name, attribs)] + EventsAll(items), [End(name)]);
  }

  // ----------------------------------- the pieces of a text do not matter

  /** The trees with neighbouring texts joined, all the way down. */
  function Joined(t: Tree): Tree {
    match t
    case Text(data) => t
    case Elem(name, attribs, kids) => Elem(name, attribs, JoinAll(kids))
  }

  function JoinAll(ts: seq<Tree>): seq<Tree> {
    if ts == [] then []
    else
      var rest := JoinAll(ts[1..]);
      if ts[0].Text? && rest != [] && rest[0].Text? then [Text(ts[0].data + rest[0].data)] + rest[1..]
      else [Joined(ts[0])] + rest
  }

  /** xmlnode_get_data on a tag: the first run of characters among its children. */
  function FirstData(ts: seq<Tree>): Option<string>
    decreases |ts|
  {
    if ts == [] then None
    else if ts[0].Text? then
      if |ts| > 1 && ts[1].Text? then Some(ts[0].data + FirstData(ts[1..]).value) else Some(ts[0].data)
    else FirstData(ts[1..])
  }

  /** Joining keeps what xmlnode_get_data returns: it merges a run before it answers. */
  lemma {:induction false} JoinKeepsData(ts: seq<Tree>)
    ensures FirstData(JoinAll(ts)) == FirstData(ts)
    decreases |ts|
  {
    if ts != [] {
      JoinKeepsData(ts[1..]);
      JoinedStart(ts[1..]);
      var rest := JoinAll(ts[1..]);
      if ts[0].Text? && rest != [] && rest[0].Text? {
        assert JoinAll(ts)[1..] == rest[1..];
      } else {
        assert JoinAll(ts)[1..] == rest;
      }
    }
  }

  /** The joined list starts with a text exactly when the list does, and no text follows it. */
  lemma {:induction false} JoinedStart(ts: seq<Tree>)
    ensures JoinAll(ts) == [] <==> ts == []
    ensures ts != [] ==> (JoinAll(ts)[0].Text? <==> ts[0].Text?)
    ensures |JoinAll(ts)| > 1 && JoinAll(ts)[0].Text? ==> !JoinAll(ts)[1].Text?
    decreases |ts|
  {
    if ts != [] { JoinedStart(ts[1..]); }
  }

  /** Joining keeps what the printer prints. */
  lemma {:induction false} JoinKeepsPrint(ts: seq<Tree>)
    ensures PrintAll(JoinAll(ts)) == PrintAll(ts)
    decreases ts, 1
  {
    if ts != [] {
      JoinKeepsPrint(ts[1..]);
      JoinedPrint(ts[0]);
      var rest := JoinAll(ts[1..]);
      if ts[0].Text? && rest != [] && rest[0].Text? {
        MergeTwoPrint(ts[0].data, rest[0].data, rest[1..]);
        TextFirst(ts[0].data, rest);
        assert rest == [Text(rest[0].data)] + rest[1..];
      } else {
        assert JoinAll(ts)[1..] == rest;
      }
    }
  }

  lemma {:induction false} JoinedPrint(t: Tree)
    ensures Print(Joined(t)) == Print(t)
    decreases t, 0
  {
    if t.Elem? {
      JoinKeepsPrint(t.kids);
      JoinedStart(t.kids);
    }
  }

  function JoinedCallback(c: Callback): Callback {
    match c
    case Stanza(t) => Stanza(Joined(t))
    case _ => c
  }

  function JoinedCallbacks(cs: seq<Callback>): seq<Callback> {
    if cs == [] then [] else [JoinedCallback(cs[0])] + JoinedCallbacks(cs[1..])
  }

  lemma {:induction false} JoinedStanzas(ts: seq<Tree>)
    ensures JoinedCallbacks(Stanzas(ts)) == Stanzas(JoinAll(ts))
    decreases |ts|
  {
    if ts != [] {
      JoinedStanzas(ts[1..]);
      var rest := JoinAll(ts[1..]);
      if ts[0].Text? {
        assert Stanzas(ts) == Stanzas(ts[1..]);
        if rest != [] && rest[0].Text? {
          assert JoinAll(ts)[1..] == rest[1..];
          assert Stanzas(rest) == Stanzas(rest[1..]) == Stanzas(JoinAll(ts));
        } else {
          assert JoinAll(ts)[1..] == rest;
          assert Stanzas(JoinAll(ts)) == Stanzas(rest);
        }
      } else {
        assert JoinAll(ts)[1..] == rest;
        assert Stanzas(ts)[1..] == Stanzas(ts[1..]);
      }
    }
  }

  lemma {:induction false} JoinedCallbacksConcat(a: seq<Callback>, b: seq<Callback>)
    ensures JoinedCallbacks(a + b) == JoinedCallbacks(a) + JoinedCallbacks(b)
  {
    if a == [] {
      assert a + b == b;
    } else {
      assert (a + b)[1..] == a[1..] + b;
      JoinedCallbacksConcat(a[1..], b);
    }
  }

  // ---- the same on the events themselves

  /** The events with neighbouring pieces of character data put together. */
  function JoinEvents(es: seq<Event>): seq<Event> {
    if es == [] then []
    else
      var rest := JoinEvents(es[1..]);
      if es[0].Chars? && rest != [] && rest[0].Chars? then [Chars(es[0].data + rest[0].data)] + rest[1..]
      else [es[0]] + rest
  }

  /** A joined list with one more tree. */
  function JoinedWith(js: seq<Tree>, t: Tree): seq<Tree> {
    var n := |js| - 1;
    if t.Text? && js != [] && js[n].Text? then js[..n] + [Text(js[n].data + t.data)] else js + [t]
  }

  lemma {:induction false} JoinAppend(ts: seq<Tree>, t: Tree)
    ensures JoinAll(ts + [t]) == JoinedWith(JoinAll(ts), Joined(t))
    decreases |ts|
  {
    if ts == [] {
      assert [] + [t] == [t] && [t][1..] == [];
    } else {
      JoinAppend(ts[1..], t);
      assert (ts + [t])[1..] == ts[1..] + [t];
      JoinedStart(ts[1..]);
      JoinFront(ts[0], JoinAll(ts[1..]), Joined(t));
    }
  }

  function JoinedFront(t: Tree, js: seq<Tree>): seq<Tree> {
    if t.Text? && js != [] && js[0].Text? then [Text(t.data + js[0].data)] + js[1..] else [Joined(t)] + js
  }

  /** Adding at the front and adding at the end do not disturb each other. */
  lemma JoinFront(f: Tree, js: seq<Tree>, t: Tree)
    ensures JoinedWith(JoinedFront(f, js), t) == JoinedFront(f, JoinedWith(js, t))
  {
    if js == [] {
      assert [] + [t] == [t] && [t][1..] == [] && [Joined(f)] + [] == [Joined(f)];
      assert [Joined(f)][..0] == [];
    } else if f.Text? && js[0].Text? {
      JoinTextFront(f.data, js[0].data, js[1..], t);
      assert js == [js[0]] + js[1..];
    } else {
      JoinedWithTail(Joined(f), js, t);
      assert JoinedWith(js, t)[0].Text? == js[0].Text?;
    }
  }

  lemma JoinedWithTail(f: Tree, js: seq<Tree>, t: Tree)
    requires js != []
    ensures JoinedWith([f] + js, t) == [f] + JoinedWith(js, t)
  {
    assert ([f] + js)[..|js|] == [f] + js[..|js| - 1];
  }

  lemma JoinTextFront(a: string, b: string, rest: seq<Tree>, t: Tree)
    ensures var js := JoinedWith([Text(b)] + rest, t);
            js[0].Text? && JoinedWith([Text(a + b)] + rest, t) == [Text(a + js[0].data)] + js[1..]
  {
    if rest != [] {
      JoinedWithTail(Text(a + b), rest, t);
      JoinedWithTail(Text(b), rest, t);
      assert ([Text(b)] + JoinedWith(rest, t))[1..] == JoinedWith(rest, t);
    } else {
      assert [Text(b)] + rest == [Text(b)] && [Text(a + b)] + rest == [Text(a + b)];
      JoinText(Text(b), t);
      JoinText(Text(a + b), t);
      if t.Text? { Assoc(a, b, t.data); }
    }
  }

  lemma JoinText(f: Tree, t: Tree)
    requires f.Text?
    ensures JoinedWith([f], t) == if t.Text? then [Text(f.data + t.data)] else [f, t]
  {
    assert [f][..0] == [];
  }

  ghost predicate AlikeOpen(o: Open, o': Open) {
    o.name == o'.name && o.attribs == o'.attribs && JoinAll(o.kids) == JoinAll(o'.kids)
  }

  /** The states differ at most in how texts are cut. */
  ghost predicate Alike(st: State, st': State) {
    && st.root == st'.root && |st.stack| == |st'.stack|
    && forall i :: 0 <= i < |st.stack| ==> AlikeOpen(st.stack[i], st'.stack[i])
  }

  lemma KidAlike(stack: seq<Open>, stack': seq<Open>, root: bool, t: Tree, t': Tree)
    requires stack != [] && Alike(State(root, stack), State(root, stack')) && Joined(t) == Joined(t')
    ensures Alike(State(root, WithKid(stack, t)), State(root, WithKid(stack', t')))
  {
    var n := |stack| - 1;
    assert AlikeOpen(stack[n], stack'[n]);
    JoinAppend(stack[n].kids, t);
    JoinAppend(stack'[n].kids, t');
  }

  lemma StepAlike(st: State, st': State, e: Event)
    requires Alike(st, st')
    ensures Alike(Step(st, e).0, Step(st', e).0)
    ensures JoinedCallbacks(Step(st, e).1) == JoinedCallbacks(Step(st', e).1)
  {
    if st.stack != [] {
      var n := |st.stack| - 1;
      var o, o' := st.stack[n], st'.stack[n];
      assert AlikeOpen(o, o');
      match e
      case Start(_, _) =>
      case Chars(data) => KidAlike(st.stack, st'.stack, st.root, Text(data), Text(data));
      case End(_) =>
        var t, t' := Elem(o.name, o.attribs, o.kids), Elem(o'.name, o'.attribs, o'.kids);
        if n > 0 {
          KidAlike(st.stack[..n], st'.stack[..n], st.root, t, t');
        }
    }
  }

  lemma {:induction false} FeedAlike(st: State, st': State, es: seq<Event>)
    requires Alike(st, st')
    ensures Alike(Feed(st, es).0, Feed(st', es).0)
    ensures JoinedCallbacks(Feed(st, es).1) == JoinedCallbacks(Feed(st', es).1)
    decreases |es|
  {
    if es != [] {
      StepAlike(st, st', es[0]);
      FeedAlike(Step(st, es[0]).0, Step(st', es[0]).0, es[1..]);
      JoinedCallbacksConcat(Step(st, es[0]).1, Feed(Step(st, es[0]).0, es[1..]).1);
      JoinedCallbacksConcat(Step(st', es[0]).1, Feed(Step(st', es[0]).0, es[1..]).1);
    }
  }

  /** Two pieces of character data are as good as one. */
  lemma TwoPieces(st: State, a: string, b: string)
    ensures var st2 := Step(Step(st, Chars(a)).0, Chars(b)).0;
            Alike(st2, Step(st, Chars(a + b)).0) && Step(st, Chars(a)).1 == Step(st, Chars(a + b)).1 == []
    ensures Step(Step(st, Chars(a)).0, Chars(b)).1 == []
  {
    if st.stack != [] {
      TwoKids(st.stack[|st.stack| - 1].kids, a, b);
    }
  }

  lemma TwoKids(kids: seq<Tree>, a: string, b: string)
    ensures JoinAll(kids + [Text(a)] + [Text(b)]) == JoinAll(kids + [Text(a + b)])
  {
    JoinAppend(kids, Text(a));
    JoinAppend(kids + [Text(a)], Text(b));
    JoinAppend(kids, Text(a + b));
    JoinedTwice(JoinAll(kids), a, b);
  }

  lemma JoinedTwice(js: seq<Tree>, a: string, b: string)
    ensures JoinedWith(JoinedWith(js, Text(a)), Text(b)) == JoinedWith(js, Text(a + b))
  {
    var n := |js| - 1;
    if js != [] && js[n].Text? {
      Assoc(js[n].data, a, b);
      assert (js[..n] + [Text(js[n].data + a)])[..n] == js[..n];
    } else {
      assert (js + [Text(a)])[..|js|] == js;
    }
  }

  /** One piece in front of another and what follows. */
  lemma MergedFeed(st: State, a: string, es: seq<Event>)
    requires es != [] && es[0].Chars?
    ensures var whole := [Chars(a + es[0].data)] + es[1..];
            && Alike(Feed(Step(st, Chars(a)).0, es).0, Feed(st, whole).0)
            && JoinedCallbacks(Feed(Step(st, Chars(a)).0, es).1) == JoinedCallbacks(Feed(st, whole).1)
  {
    var whole := [Chars(a + es[0].data)] + es[1..];
    assert whole[1..] == es[1..];
    var st1 := Step(st, Chars(a)).0;
    TwoPieces(st, a, es[0].data);
    FeedAlike(Step(st1, es[0]).0, Step(st, whole[0]).0, es[1..]);
    FeedFirst(st1, es);
    FeedFirst(st, whole);
    NothingInFront(Feed(Step(st1, es[0]).0, es[1..]).1);
    NothingInFront(Feed(Step(st, whole[0]).0, es[1..]).1);
  }

  lemma NothingInFront<T>(s: seq<T>)
    ensures [] + s == s
  {
  }

  lemma {:induction false} JoinedFeed(st: State, es: seq<Event>)
    ensures Alike(Feed(st, es).0, Feed(st, JoinEvents(es)).0)
    ensures JoinedCallbacks(Feed(st, es).1) == JoinedCallbacks(Feed(st, JoinEvents(es)).1)
    decreases |es|
  {
    if es != [] {
      var e, rest := es[0], JoinEvents(es[1..]);
      var (st1, out) := Step(st, e);
      JoinedFeed(st1, es[1..]);
      FeedFirst(st, es);
      JoinedCallbacksConcat(out, Feed(st1, es[1..]).1);
      JoinedCallbacksConcat(out, Feed(st1, rest).1);
      if e.Chars? && rest != [] && rest[0].Chars? {
        MergedFeed(st, e.data, rest);
        NothingInFront(Feed(st1, es[1..]).1);
        AlikeThrough(Feed(st1, es[1..]).0, Feed(st1, rest).0, Feed(st, JoinEvents(es)).0);
      } else {
        assert JoinEvents(es)[1..] == rest;
        FeedFirst(st, JoinEvents(es));
      }
    }
  }

  lemma AlikeThrough(st: State, st': State, st'': State)
    requires Alike(st, st') && Alike(st', st'')
    ensures Alike(st, st'')
  {
    forall i | 0 <= i < |st.stack|
      ensures AlikeOpen(st.stack[i], st''.stack[i])
    {
      assert AlikeOpen(st.stack[i], st'.stack[i]) && AlikeOpen(st'.stack[i], st''.stack[i]);
    }
  }

  /** Two event streams, well formed or not, that differ only in how their character data is
      cut into pieces make the same callbacks up to joining, and leave the parser in the same
      state up to joining. */
  lemma PiecesDoNotMatter(es: seq<Event>, es': seq<Event>)
    requires JoinEvents(es) == JoinEvents(es')
    ensures JoinedCallbacks(Feed(FRESH, es).1) == JoinedCallbacks(Feed(FRESH, es').1)
    ensures Alike(Feed(FRESH, es).0, Feed(FRESH, es').0)
  {
    JoinedFeed(FRESH, es);
    JoinedFeed(FRESH, es');
    var (st, st', common) := (Feed(FRESH, es).0, Feed(FRESH, es').0, Feed(FRESH, JoinEvents(es)).0);
    forall i | 0 <= i < |st.stack|
      ensures AlikeOpen(st.stack[i], st'.stack[i])
    {
      assert AlikeOpen(st.stack[i], common.stack[i]) && AlikeOpen(st'.stack[i], common.stack[i]);
    }
  }

  /** Documents whose trees are equal up to joining make the same callbacks up to joining. */
  lemma JoinedDocuments(name: string, attribs: Attribs, items: seq<Tree>, items': seq<Tree>)
    requires JoinAll(items) == JoinAll(items')
    ensures JoinedCallbacks(Feed(FRESH, Events(Elem(name, attribs, items))).1)
         == JoinedCallbacks(Feed(FRESH, Events(Elem(name, attribs, items'))).1)
  {
    StreamDelivers(name, attribs, items);
    StreamDelivers(name, attribs, items');
    JoinedStanzas(items);
    JoinedStanzas(items');
    forall ts: seq<Tree>
      ensures JoinedCallbacks([Root(name, attribs)] + Stanzas(ts) + [Close])
           == JoinedCallbacks([Root(name, attribs)]) + JoinedCallbacks(Stanzas(ts)) + JoinedCallbacks([Close])
    {
      JoinedCallbacksConcat([Root(name, attribs)] + Stanzas(ts), [Close]);
      JoinedCallbacksConcat([Root(name, attribs)], Stanzas(ts));
    }
  }

  /** Trees that join to the same tree answer xmlnode_get_data alike and print alike. */
  lemma SameJoinedSameContent(t: Tree, t': Tree)
    requires Joined(t) == Joined(t') && t.Elem?
    ensures t'.Elem? && FirstData(t.kids) == FirstData(t'.kids) && Print(t) == Print(t')
  {
    JoinKeepsData(t.kids);
    JoinKeepsData(t'.kids);
    JoinedPrint(t);
    JoinedPrint(t');
  }
}
