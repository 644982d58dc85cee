/** The lists behind jabberd/deliver.c: the handlers of an instance, kept in the order in which
    they are called, and the lists of instances that a packet is routed by. */
module DeliverList {
  import opened Options

  /** order and result, in the order of their C values. */
  datatype Order = Precond | Cond | Predeliver | Deliver
  datatype Result = Unreg | NoResult | Pass | Last | Err | Done

  datatype Handler = Handler(f: int, o: Order)

  function Level(o: Order): nat {
    match o
    case Precond => 0
    case Cond => 1
    case Predeliver => 2
    case Deliver => 3
  }

  ghost predicate Sorted(hs: seq<Handler>) {
    forall i, j :: 0 <= i < j < |hs| ==> Level(hs[i].o) <= Level(hs[j].o)
  }

  // ------------------------------------------------------------ registering

  /** How many handlers stand in front of a new one. */
  function Place(hs: seq<Handler>, o: Order): (k: nat)
    ensures k <= |hs|
  {
    match o
    case Precond => 0
    case Deliver => |hs|
    case _ => Below(hs, Level(o) + 1)
  }

  /** The length of the front part whose orders are below a level. */
  function Below(hs: seq<Handler>, level: nat): (k: nat)
    ensures k <= |hs|
    ensures forall i :: 0 <= i < k ==> Level(hs[i].o) < level
    ensures k < |hs| ==> Level(hs[k].o) >= level
  {
    if hs == [] || Level(hs[0].o) >= level then 0 else 1 + Below(hs[1..], level)
  }

  /** register_phandler: the loops that look for the place of a new handler. */
  method Register(hs: seq<Handler>, h: Handler) returns (r: seq<Handler>)
    ensures r == hs[..Place(hs, h.o)] + [h] + hs[Place(hs, h.o)..]
  {
    if hs == [] {
      return [h];
    }
    match h.o {
      case Precond =>
        r := [h] + hs;
      case Cond =>
        var k := Seek(hs, 2);
        r := hs[..k] + [h] + hs[k..];
      case Predeliver =>
        var k := Seek(hs, 3);
        r := hs[..k] + [h] + hs[k..];
      case Deliver =>
        var k := 0;
        while k + 1 < |hs|
          invariant k < |hs|
        {
          k := k + 1;
        }
        r := hs + [h];
    }
  }

  method Seek(hs: seq<Handler>, level: nat) returns (k: nat)
    ensures k == Below(hs, level)
  {
    k := 0;
    while k < |hs| && Level(hs[k].o) < level
      invariant k <= |hs| && Below(hs, level) == k + Below(hs[k..], level)
    {
      assert hs[k..][1..] == hs[k + 1..];
      k := k + 1;
    }
  }

  /** A new handler never comes before one of a lower order nor behind one of a higher one. */
  lemma RegisterKeepsSorted(hs: seq<Handler>, h: Handler)
    requires Sorted(hs)
    ensures Sorted(hs[..Place(hs, h.o)] + [h] + hs[Place(hs, h.o)..])
  {
    var k := Place(hs, h.o);
    var r := hs[..k] + [h] + hs[k..];
    forall i, j | 0 <= i < j < |r|
      ensures Level(r[i].o) <= Level(r[j].o)
    {
      if j == k {
        assert r[i] == hs[i];
      } else if i == k {
        assert r[j] == hs[j - 1] && Level(hs[k].o) <= Level(hs[j - 1].o);
      }
    }
  }

  // ------------------------------------------------------------ calling

  /** What the handlers return, call by call. A run makes finitely many calls; past the end
      of the sequence a handler returns r_NONE. */
  type Answers = seq<Result>

  function At(answers: Answers, n: nat): Result { if n < |answers| then answers[n] else NoResult }

  /** After this answer no further handler is called. */
  predicate Stops(h: Handler, r: Result) {
    r == Err || (h.o != Deliver && r == Done) || (h.o == Cond && r == Last)
  }

  /** How many handlers are called, the first of them with the n-th call. */
  function Reach(hs: seq<Handler>, answers: Answers, n: nat): (m: nat)
    ensures m <= |hs|
  {
    if hs == [] then 0 else if Stops(hs[0], At(answers, n)) then 1 else 1 + Reach(hs[1..], answers, n + 1)
  }

  /** Those of the first m handlers that did not ask to be unregistered. */
  function Kept(hs: seq<Handler>, answers: Answers, n: nat, m: nat): (r: seq<Handler>)
    requires m <= |hs|
  {
    if m == 0 then []
    else if At(answers, n + m - 1) == Unreg then Kept(hs, answers, n, m - 1)
    else Kept(hs, answers, n, m - 1) + [hs[m - 1]]
  }

  /** An instance's handlers after a packet went through them. */
  function Left(hs: seq<Handler>, answers: Answers, n: nat): seq<Handler> {
    var m := Reach(hs, answers, n);
    Kept(hs, answers, n, m) + hs[m..]
  }

  lemma Splice<T>(kept: seq<T>, hs: seq<T>, m: nat)
    requires m < |hs|
    ensures (kept + hs[m..])[|kept|] == hs[m]
    ensures (kept + hs[m..])[..|kept|] + (kept + hs[m..])[|kept| + 1..] == kept + hs[m + 1..]
    ensures kept + hs[m..] == kept + [hs[m]] + hs[m + 1..]
  {
  }

  lemma {:induction false} KeptIsSorted(hs: seq<Handler>, answers: Answers, n: nat, m: nat)
    requires Sorted(hs) && m <= |hs|
    ensures Sorted(Kept(hs, answers, n, m))
    ensures forall h :: h in Kept(hs, answers, n, m) ==> h in hs[..m]
    decreases m
  {
    if m > 0 {
      KeptIsSorted(hs, answers, n, m - 1);
      assert hs[..m] == hs[..m - 1] + [hs[m - 1]];
      forall h | h in Kept(hs, answers, n, m - 1)
        ensures Level(h.o) <= Level(hs[m - 1].o)
      {
        var k :| 0 <= k < m - 1 && hs[..m - 1][k] == h;
        assert hs[k] == h;
      }
    }
  }

  /** Unregistering keeps the order. */
  lemma LeftIsSorted(hs: seq<Handler>, answers: Answers, n: nat)
    requires Sorted(hs)
    ensures Sorted(Left(hs, answers, n))
  {
    var m := Reach(hs, answers, n);
    KeptIsSorted(hs, answers, n, m);
    var kept := Kept(hs, answers, n, m);
    forall i, j | 0 <= i < |kept| && m <= j < |hs|
      ensures Level(kept[i].o) <= Level(hs[j].o)
    {
      assert kept[i] in hs[..m];
    }
  }

  /** None of the first m handlers stops the loop. */
  ghost predicate Runs(hs: seq<Handler>, answers: Answers, n: nat, m: nat)
    requires m <= |hs|
  {
    m == 0 || (Runs(hs, answers, n, m - 1) && !Stops(hs[m - 1], At(answers, n + m - 1)))
  }

  lemma {:induction false} RunsTail(hs: seq<Handler>, answers: Answers, n: nat, m: nat)
    requires 0 < m <= |hs| && Runs(hs, answers, n, m)
    ensures !Stops(hs[0], At(answers, n)) && Runs(hs[1..], answers, n + 1, m - 1)
  {
    if m > 1 {
      RunsTail(hs, answers, n, m - 1);
      assert n + 1 + (m - 2) == n + m - 1;
    } else {
      assert Runs(hs, answers, n, 0);
      assert n + 1 - 1 == n;
    }
  }

  /** Exactly the handlers up to the first that stops are called. */
  lemma {:induction false} ReachIs(hs: seq<Handler>, answers: Answers, n: nat, m: nat)
    requires m <= |hs| && Runs(hs, answers, n, m)
    ensures m == |hs| ==> Reach(hs, answers, n) == m
    ensures m < |hs| && Stops(hs[m], At(answers, n + m)) ==> Reach(hs, answers, n) == m + 1
    decreases m
  {
    if m > 0 {
      RunsTail(hs, answers, n, m);
      ReachIs(hs[1..], answers, n + 1, m - 1);
      assert n + 1 + (m - 1) == n + m;
    } else {
      assert n + 0 == n;
    }
  }

  /** The last handler called reports an internal error. */
  predicate Fails(hs: seq<Handler>, answers: Answers, n: nat) {
    var m := Reach(hs, answers, n);
    m > 0 && At(answers, n + m - 1) == Err
  }

  lemma LeftIs(hs: seq<Handler>, answers: Answers, n: nat, m: nat)
    requires m <= |hs| && Runs(hs, answers, n, m) && (m < |hs| ==> Stops(hs[m], At(answers, n + m)))
    ensures Left(hs, answers, n) == Kept(hs, answers, n, m) + hs[m..]
    ensures Reach(hs, answers, n) == if m < |hs| then m + 1 else m
    ensures Fails(hs, answers, n) <==> m < |hs| && At(answers, n + m) == Err
  {
    ReachIs(hs, answers, n, m);
    if m < |hs| {
      assert n + (m + 1) - 1 == n + m;
      Splice(Kept(hs, answers, n, m), hs, m);
    }
  }

  /** A list without its k-th member. */
  function Cut<T>(il: seq<T>, k: nat): seq<T>
    requires k < |il|
  {
    il[..k] + il[k + 1..]
  }

  /** The first m handlers have been called, and rest is what is left of the list, with those
      of them that stay in front. */
  ghost predicate Called(hs: seq<Handler>, answers: Answers, n: nat, m: nat, kept: seq<Handler>, rest: seq<Handler>)
    requires m <= |hs|
  {
    kept == Kept(hs, answers, n, m) && Runs(hs, answers, n, m) && rest == kept + hs[m..]
  }

  lemma NextCall(hs: seq<Handler>, answers: Answers, n: nat, m: nat, kept: seq<Handler>, rest: seq<Handler>)
    requires m < |hs| && Called(hs, answers, n, m, kept, rest)
    ensures |kept| < |rest| && rest[|kept|] == hs[m] && |rest| - |kept| == |hs| - m
    ensures !Stops(hs[m], At(answers, n + m)) ==>
              if At(answers, n + m) == Unreg
              then Called(hs, answers, n, m + 1, kept, rest[..|kept|] + rest[|kept| + 1..])
              else Called(hs, answers, n, m + 1, kept + [hs[m]], rest)
  {
    Splice(kept, hs, m);
    assert n + (m + 1) - 1 == n + m;
  }

  // ------------------------------------------------------------ instance lists

  ghost predicate NoDup(l: seq<int>) { forall i, j :: 0 <= i < j < |l| ==> l[i] != l[j] }

  /** ilist_add. */
  method Add(il: seq<int>, i: int) returns (r: seq<int>)
    ensures r == if i in il then il else [i] + il
    ensures NoDup(il) ==> NoDup(r)
  {
    var k := 0;
    while k < |il|
      invariant k <= |il| && i !in il[..k]
    {
      if il[k] == i {
        return il;
      }
      assert il[..k + 1] == il[..k] + [il[k]];
      k := k + 1;
    }
    assert il[..k] == il;
    r := [i] + il;
  }

  lemma CutKeepsNoDup(il: seq<int>, k: nat)
    requires k < |il|
    ensures NoDup(il) ==> NoDup(Cut(il, k)) && il[k] !in Cut(il, k)
  {
    assert forall j :: 0 <= j < |Cut(il, k)| ==> Cut(il, k)[j] == il[if j < k then j else j + 1];
  }

  /** ilist_rem: the first occurrence is gone and the others keep their order. */
  method Rem(il: seq<int>, i: int) returns (r: seq<int>)
    ensures i !in il ==> r == il
    ensures i in il ==> exists k :: 0 <= k < |il| && il[k] == i && i !in il[..k] && r == Cut(il, k)
    ensures NoDup(il) ==> NoDup(r) && i !in r
  {
    if il == [] {
      return [];
    }
    if il[0] == i {
      assert il[1..] == Cut(il, 0);
      CutKeepsNoDup(il, 0);
      return il[1..];
    }
    var cur := 0;
    while cur + 1 < |il|
      invariant cur < |il| && i !in il[..cur + 1]
    {
      if il[cur + 1] == i {
        CutKeepsNoDup(il, cur + 1);
        return Cut(il, cur + 1);
      }
      assert il[..cur + 2] == il[..cur + 1] + [il[cur + 1]];
      cur := cur + 1;
    }
    assert il[..cur + 1] == il;
    r := il;
  }

  /** The one instance that a packet goes to: the only one of both lists, where an empty list
      does not restrict; the uplink when the lists have none in common or both are empty. */
  ghost predicate Chosen(a: seq<int>, b: seq<int>, uplink: Option<int>, r: Option<int>) {
    if a == [] && b == [] then r == uplink
    else if a == [] || b == [] then r == if |a + b| == 1 then Some((a + b)[0]) else None
    else if forall i :: i in a ==> i !in b then r == uplink
    else
      match r
      case Some(i) => i in a && i in b && forall j :: j in a && j in b ==> j == i
      case None => exists i, j :: i in a && i in b && j in a && j in b && i != j
  }

  lemma OnlyOne(a: seq<int>, b: seq<int>)
    requires |a| == |b| == 1 && forall i :: i in a ==> i in b
    ensures a == b
  {
    var x := a[0];
    assert x in a;
    assert x in b;
  }

  /** There is no choice, and the order of the lists does not matter. */
  lemma ChosenIsUnique(a: seq<int>, b: seq<int>, a': seq<int>, b': seq<int>, uplink: Option<int>, r: Option<int>,
                       r': Option<int>)
    requires Chosen(a, b, uplink, r) && Chosen(a', b', uplink, r')
    requires |a| == |a'| && forall i :: i in a <==> i in a'
    requires |b| == |b'| && forall i :: i in b <==> i in b'
    ensures r == r'
  {
    if a == [] && |b| == 1 {
      OnlyOne(b, b');
      assert a + b == b && a' + b' == b';
    } else if b == [] && |a| == 1 {
      OnlyOne(a, a');
      assert a + b == a && a' + b' == a';
    } else if a != [] && b != [] {
      assert (forall i :: i in a ==> i !in b) <==> forall i :: i in a' ==> i !in b';
    }
  }

  /** deliver_intersect. */
  method Intersect(a: seq<int>, b: seq<int>, uplink: Option<int>) returns (r: Option<int>)
    requires NoDup(a) && NoDup(b)
    ensures Chosen(a, b, uplink, r)
  {
    var cur: seq<int> := [];
    if a == [] {
      cur := b;
    }
    if b == [] {
      cur := a;
    }
    if cur != [] {
      assert a + b == cur;
      if |cur| > 1 {
        return None;
      }
      return Some(cur[0]);
    }
    var i: Option<int> := None;
    var x := 0;
    while x < |a|
      invariant x <= |a| && Common(a[..x], b, i)
    {
      var y := 0;
      while y < |b|
        invariant y <= |b|
        invariant i.None? ==> a[x] !in b[..y] && Common(a[..x], b, None)
        invariant i.Some? ==> || (i == Some(a[x]) && a[x] in b[..y] && Common(a[..x], b, None))
                              || (Common(a[..x], b, i) && a[x] !in b[..y])
      {
        assert b[..y + 1] == b[..y] + [b[y]];
        if a[x] == b[y] {
          if i != None {
            assert i.value in a && i.value in b && a[x] in a && a[x] in b && i.value != a[x];
            return None;
          }
          i := Some(a[x]);
        }
        y := y + 1;
      }
      assert b[..y] == b && a[..x + 1] == a[..x] + [a[x]];
      x := x + 1;
    }
    assert a[..x] == a;
    if i == None {
      return uplink;
    }
    r := i;
  }

  /** i is all that the two lists have in common. */
  ghost predicate Common(a: seq<int>, b: seq<int>, i: Option<int>) {
    match i
    case None => forall j :: j in a ==> j !in b
    case Some(v) => v in a && v in b && forall j :: j in a && j in b ==> j == v
  }
}
