/** The hash table of lib/xhash.c: chains that start in an array, whose removed entries stay
    as nodes without a key and are used again. */
module Xhash {
  import opened Options

  // --------------------------------------------------------------- _xhasher

  /** One turn of the loop on a machine whose unsigned long has 32 bits. */
  function Turn32(h: bv32, c: bv8): bv32 {
    var h1 := (h << 4) + (c as bv32);
    var g := h1 & 0xf000_0000;
    (h1 ^ (g >> 24)) & !g
  }

  /** The same on a machine whose unsigned long has 64 bits. */
  function Turn64(h: bv64, c: bv8): bv64 {
    var h1 := (h << 4) + (c as bv64);
    var g := h1 & 0xf000_0000;
    (h1 ^ (g >> 24)) & !g
  }

  function Hash32(s: seq<bv8>): bv32 {
    if s == [] then 0 else Turn32(Hash32(s[..|s| - 1]), s[|s| - 1])
  }

  function Hash64(s: seq<bv8>): bv64 {
    if s == [] then 0 else Turn64(Hash64(s[..|s| - 1]), s[|s| - 1])
  }

  /** The narrow word is the low half of the wide one and below two to the 28. */
  ghost predicate Agree(h: bv64, h': bv32) {
    h & 0xffff_ffff == h' as bv64 && h' < 0x1000_0000
  }

  lemma AgreeAtStart()
    ensures Agree(0, 0)
  {
  }

  lemma TurnsAgree(h: bv64, h': bv32, c: bv8)
    requires Agree(h, h')
    ensures Agree(Turn64(h, c), Turn32(h', c))
  {
  }

  /** The low 32 bits do not depend on the width of the word, although on 64 bits the sum may
      carry out of the low word and is then not folded back. */
  lemma {:induction false} HashesAgree(s: seq<bv8>)
    ensures Agree(Hash64(s), Hash32(s))
  {
    if s == [] {
      AgreeAtStart();
    } else {
      var before := s[..|s| - 1];
      HashesAgree(before);
      TurnsAgree(Hash64(before), Hash32(before), s[|s| - 1]);
    }
  }

  /** _xhasher: the sign bit of the result is never set, so as an int it is not negative. */
  method Hasher(s: seq<bv8>) returns (h: bv32)
    ensures h == Hash32(s) && h < 0x1000_0000
  {
    h := 0;
    var i := 0;
    while i < |s|
      invariant 0 <= i <= |s| && h == Hash32(s[..i])
    {
      assert s[..i + 1][..i] == s[..i];
      h := Turn32(h, s[i]);
      i := i + 1;
    }
    assert s[..i] == s;
    HashesAgree(s);
  }

  // --------------------------------------------------------------- the table

  type Key = seq<bv8>

  /** A stored pointer; None is NULL. */
  type Value = Option<int>

  function Index(key: Key, prime: nat): (i: nat)
    requires prime > 0
    ensures i < prime
  {
    (Hash32(key) as int) % prime
  }

  /** xhn. home is the chain that the node is in, or -1. */
  class Node {
    var key: Option<Key>
    var val: Value
    var next: Node?
    ghost var home: int

    constructor ()
      ensures key == None && val == None && next == null && home == -1
    {
      key, val, next, home := None, None, null, -1;
    }
  }

  ghost predicate Linked(s: seq<Node>, home: int)
    reads (set n | n in s)`next, (set n | n in s)`home
  {
    && (forall i {:trigger s[i].home} :: 0 <= i < |s| ==> s[i].home == home)
    && (forall i {:trigger s[i].next} :: 0 <= i < |s| ==> s[i].next == if i + 1 < |s| then s[i + 1] else null)
    && (forall i, j :: 0 <= i < j < |s| ==> s[i] != s[j])
  }

  /** A new node behind the head. */
  lemma LinkedBehindHead(s: seq<Node>, home: int, n: Node)
    requires s != [] && n !in s && n.home == home && s[0].next == n
    requires Linked(s[1..], home) && s[0] !in s[1..] && s[0].home == home
    requires n.next == if |s| > 1 then s[1] else null
    ensures Linked([s[0], n] + s[1..], home)
  {
  }

  lemma MembersBehindHead(s: seq<Node>, n: Node)
    requires s != []
    ensures forall x :: x in [s[0], n] + s[1..] <==> x in s || x == n
  {
    var t := [s[0], n] + s[1..];
    forall x | x in s
      ensures x in t
    {
      var k :| 0 <= k < |s| && s[k] == x;
      assert t[if k == 0 then 0 else k + 1] == x;
    }
    assert t[1] == n;
  }

  /** No key twice. */
  ghost predicate Once(visited: seq<(Key, int)>) {
    forall a, b :: 0 <= a < b < |visited| ==> visited[a].0 != visited[b].0
  }

  class Table {
    const prime: nat
    const zen: array<Node>
    ghost var chains: seq<seq<Node>>
    ghost var all: set<Node>
    ghost var where: map<Key, Node>
    ghost var view: map<Key, Value>

    /** The chains: each starts with the node of the array. */
    ghost predicate Shape()
      reads this`chains, this`all, zen, all`next, all`home
    {
      && prime > 0 && zen.Length == prime == |chains|
      && (forall i: nat, n :: i < prime && n in chains[i] ==> n in all)
      && (forall i: nat :: i < prime ==> chains[i] != [] && chains[i][0] == zen[i] && Linked(chains[i], i))
      && (forall n {:trigger n.home} :: n in all ==> 0 <= n.home < prime)
      && forall n {:trigger Placed(n)} :: n in all ==> Placed(n)
    }

    ghost predicate Placed(n: Node)
      reads this`chains, n`home
    {
      0 <= n.home < |chains| && n in chains[n.home]
    }

    /** Every key is in one node, which is in the key's chain. */
    ghost predicate Keyed()
      requires prime > 0
      reads this`all, this`where, all`key, all`home
    {
      && where.Values <= all
      && (forall n {:trigger n.key} :: n in all && n.key.Some? ==>
         n.key.value in where && where[n.key.value] == n && n.home == Index(n.key.value, prime))
      && forall k {:trigger where[k]} :: k in where ==> where[k].key == Some(k)
    }

    ghost predicate Viewed()
      requires where.Values <= all
      reads this`where, this`view, this`all, all`val
    {
      view.Keys == where.Keys && forall k {:trigger view[k]} :: k in where ==> view[k] == where[k].val
    }

    /** The table stands for the map view. */
    ghost predicate Valid()
      reads this, zen, all
    {
      Shape() && Keyed() && Viewed()
    }

    /** _xhash_node_get. */
    method NodeGet(key: Key) returns (n: Node?)
      requires Valid()
      ensures n == null <==> key !in view
      ensures n != null ==> n == where[key] && n in all
    {
      var i := Index(key, prime);
      ghost var s := chains[i];
      ghost var j: nat := 0;
      n := zen[i];
      assert key in where ==> Placed(where[key]) && where[key].key == Some(key);
      while n != null
        invariant j <= |s| && n == if j < |s| then s[j] else null
        invariant forall k {:trigger s[k].key} :: 0 <= k < j ==> s[k].key != Some(key)
        decreases |s| - j
      {
        assert n == s[j] && n in all;
        if n.key == Some(key) {
          return;
        }
        n := n.next;
        j := j + 1;
      }
    }

    /** xhash_new. */
    constructor (prime: nat)
      requires prime > 0
      ensures Valid() && view == map[] && this.prime == prime && fresh(zen) && fresh(all)
    {
      this.prime := prime;
      var spare := new Node();
      zen := new Node[prime](_ => spare);
      chains, all, where, view := [], {}, map[], map[];
      new;
      var i := 0;
      while i < prime
        invariant 0 <= i <= prime == zen.Length && |chains| == i && fresh(all) && fresh(zen)
        invariant where == map[] && view == map[]
        invariant forall h: nat :: h < i ==> zen[h] in all && chains[h] == [zen[h]] && Linked(chains[h], h)
        invariant forall n :: n in all ==> n.key == None && 0 <= n.home < i && zen[n.home] == n
      {
        AddHead(i);
        i := i + 1;
      }
      forall n | n in all
        ensures Placed(n)
      {
        assert chains[n.home][0] == n;
      }
    }

    method AddHead(i: nat)
      requires i == |chains| < zen.Length
      requires forall h: nat :: h < i ==> zen[h] in all && chains[h] == [zen[h]] && Linked(chains[h], h)
      requires forall n :: n in all ==> n.key == None && 0 <= n.home < i && zen[n.home] == n
      modifies this`chains, this`all, zen
      ensures |chains| == i + 1
      ensures forall h: nat :: h <= i ==> zen[h] in all && chains[h] == [zen[h]] && Linked(chains[h], h)
      ensures forall n :: n in all ==> n.key == None && 0 <= n.home <= i && zen[n.home] == n
      ensures fresh(all - old(all))
    {
      var n := new Node();
      n.home := i;
      zen[i] := n;
      all := all + {n};
      chains := chains + [[n]];
    }

    /** What the chains are with one more node. */
    lemma Grown(i: nat, n: Node, chains': seq<seq<Node>>)
      requires prime > 0 && zen.Length == prime == |chains| && i < prime && chains[i] != []
      requires forall h: nat, x :: h < prime && x in chains[h] ==> x in all
      requires forall x {:trigger Placed(x)} :: x in all ==> Placed(x)
      requires n.home == i && chains' == chains[i := [chains[i][0], n] + chains[i][1..]]
      ensures forall h: nat, x :: h < prime && x in chains'[h] ==> x in all || x == n
      ensures forall x {:trigger x in chains'[x.home]} :: x in all || x == n ==>
              0 <= x.home < prime && x in chains'[x.home]
    {
      MembersBehindHead(chains[i], n);
      forall x | x in all || x == n
        ensures 0 <= x.home < prime && x in chains'[x.home]
      {
        if x in all {
          assert Placed(x);
        }
      }
    }

    /** The links of a new node behind the head of a chain. */
    method LinkBehindHead(i: nat) returns (n: Node)
      requires Shape() && i < prime
      modifies {zen[i]}`next
      ensures fresh(n) && n.key == None && n.home == i
      ensures Linked([chains[i][0], n] + chains[i][1..], i)
      ensures forall h: nat :: h < prime && h != i ==> Linked(chains[h], h)
      ensures forall x {:trigger Placed(x)} :: x in all ==> Placed(x)
    {
      ghost var s := chains[i];
      n := new Node();
      n.home := i;
      n.next := zen[i].next;
      forall h: nat | h < prime && h != i
        ensures zen[i] !in chains[h]
      {
        assert s[0].home == i;
        assert forall k :: 0 <= k < |chains[h]| ==> chains[h][k].home == h;
      }
      zen[i].next := n;
      LinkedBehindHead(s, i, n);
    }

    /** The overflow case of _xhash_node_new: a new node behind the head of a chain. */
    method AddNode(i: nat) returns (n: Node)
      requires Shape() && i < prime
      modifies this`chains, this`all, {zen[i]}`next
      ensures Shape() && fresh(n) && all == old(all) + {n} && n.key == None && n.home == i
    {
      ghost var s := chains[i];
      n := LinkBehindHead(i);
      Grown(i, n, chains[i := [s[0], n] + s[1..]]);
      all := all + {n};
      chains := chains[i := [s[0], n] + s[1..]];
      forall x | x in all
        ensures Placed(x)
      {
        assert x in chains[x.home];
      }
    }

    /** _xhash_node_new: a node without a key, if there is none yet a new one. */
    method NodeNew(key: Key) returns (n: Node)
      requires Valid()
      modifies this`chains, this`all, {zen[Index(key, prime)]}`next
      ensures Valid() && n in all && n.key == None && n.home == Index(key, prime) && fresh(all - old(all))
    {
      var i := Index(key, prime);
      ghost var s := chains[i];
      ghost var j: nat := 0;
      var m: Node? := zen[i];
      while m != null
        invariant j <= |s| && m == if j < |s| then s[j] else null
        decreases |s| - j
      {
        assert m == s[j] && m in all && m.home == i;
        if m.key == None {
          return m;
        }
        m := m.next;
        j := j + 1;
      }
      n := AddNode(i);
    }

    /** The value of a key that the table has. */
    method Replace(k: Key, n: Node, val: Value)
      requires Valid() && k in where && where[k] == n
      modifies this`view, n`val
      ensures Valid() && view == old(view)[k := val]
    {
      assert forall x :: x in where && x != k ==> where[x] != n;
      n.val := val;
      view := view[k := val];
      assert Shape() == old(Shape()) && Keyed() == old(Keyed());
    }

    /** A node without a key for a key that the table does not have. */
    method Insert(k: Key, n: Node, val: Value)
      requires Valid() && k !in view && n in all && n.key == None && n.home == Index(k, prime)
      modifies this`where, this`view, n`key, n`val
      ensures Valid() && view == old(view)[k := val]
    {
      assert forall x :: x in where ==> where[x] != n;
      n.key := Some(k);
      n.val := val;
      where := where[k := n];
      view := view[k := val];
    }

    /** xhash_put. */
    method Put(key: Option<Key>, val: Value)
      requires Valid()
      modifies this, all
      ensures Valid() && view == if key == None then old(view) else old(view)[key.value := val]
      ensures fresh(all - old(all))
    {
      if key == None {
        return;
      }
      var n := NodeGet(key.value);
      if n != null {
        Replace(key.value, n, val);
        return;
      }
      var m := NodeNew(key.value);
      Insert(key.value, m, val);
    }

    /** xhash_get. */
    method Get(key: Option<Key>) returns (val: Value)
      requires Valid()
      ensures val == if key != None && key.value in view then view[key.value] else None
    {
      if key == None {
        return None;
      }
      var n := NodeGet(key.value);
      val := if n == null then None else n.val;
    }

    /** The node of a key stays in its chain without the key. */
    method Erase(k: Key, n: Node)
      requires Valid() && k in where && where[k] == n
      modifies this`where, this`view, n`key
      ensures Valid() && view == old(view) - {k}
    {
      assert forall x :: x in where && x != k ==> where[x] != n;
      n.key := None;
      where := where - {k};
      view := view - {k};
    }

    /** xhash_zap. */
    method Zap(key: Option<Key>)
      requires Valid()
      modifies this`where, this`view, all`key
      ensures Valid() && view == if key == None then old(view) else old(view) - {key.value}
    {
      if key == None {
        return;
      }
      var n := NodeGet(key.value);
      if n == null {
        assert view - {key.value} == view;
        return;
      }
      Erase(key.value, n);
    }

    /** The node comes before the j-th node of the i-th chain. */
    ghost predicate Done(n: Node, i: nat, j: nat)
      requires i < |chains| && j <= |chains[i]|
      reads this`chains, n`home
    {
      n.home < i || (n.home == i && n in chains[i][..j])
    }

    /** What a walk has handed out when it has come that far. */
    ghost predicate Walked(visited: seq<(Key, int)>, i: nat, j: nat)
      requires i < |chains| && j <= |chains[i]| && where.Values <= all
      reads this`chains, this`where, this`view, this`all, all`home
    {
      && (forall p :: p in visited ==> p.0 in view && p.0 in where && view[p.0] == Some(p.1) && Done(where[p.0], i, j))
      && (forall k :: k in view && k in where && view[k].Some? && Done(where[k], i, j) ==>
         (k, view[k].value) in visited)
      && Once(visited)
    }

    /** Exactly the keys that have a value, with it, and each once. */
    ghost predicate Complete(visited: seq<(Key, int)>)
      reads this`view
    {
      Once(visited) && forall p :: p in visited <==> p.0 in view && view[p.0] == Some(p.1)
    }

    lemma DoneNext(n: Node, i: nat, j: nat)
      requires i < |chains| && j < |chains[i]|
      ensures Done(n, i, j + 1) <==> Done(n, i, j) || (n.home == i && n == chains[i][j])
    {
      assert chains[i][..j + 1] == chains[i][..j] + [chains[i][j]];
    }

    lemma WalkedNext(visited: seq<(Key, int)>, visited': seq<(Key, int)>, i: nat, j: nat)
      requires Valid() && i < prime && j < |chains[i]| && Walked(visited, i, j)
      requires var n := chains[i][j];
               visited' == if n.key != None && n.val != None then visited + [(n.key.value, n.val.value)] else visited
      ensures Walked(visited', i, j + 1)
    {
      var n := chains[i][j];
      assert n in all && n.home == i;
      forall k | k in where {
        DoneNext(where[k], i, j);
      }
      if n.key != None && n.val != None {
        var k := n.key.value;
        assert where[k] == n && view[k] == n.val;
        assert n !in chains[i][..j];
        assert forall p :: p in visited ==> p.0 != k;
      }
    }

    lemma WalkedChain(visited: seq<(Key, int)>, i: nat)
      requires Valid() && i + 1 < prime && Walked(visited, i, |chains[i]|)
      ensures Walked(visited, i + 1, 0)
    {
      assert chains[i][..|chains[i]|] == chains[i];
      forall k | k in where
        ensures Done(where[k], i, |chains[i]|) <==> Done(where[k], i + 1, 0)
      {
        assert Placed(where[k]);
      }
    }

    lemma WalkedAll(visited: seq<(Key, int)>)
      requires Valid() && Walked(visited, prime - 1, |chains[prime - 1]|)
      ensures Complete(visited)
    {
      var i := prime - 1;
      assert chains[i][..|chains[i]|] == chains[i];
      forall k | k in where
        ensures Done(where[k], i, |chains[i]|)
      {
        assert Placed(where[k]);
      }
      forall p: (Key, int) | p.0 in view && view[p.0] == Some(p.1)
        ensures p in visited
      {
        assert (p.0, view[p.0].value) in visited;
      }
    }

    /** The inner loop of xhash_walk. */
    method WalkChain(seen: seq<(Key, int)>, i: nat) returns (visited: seq<(Key, int)>)
      requires Valid() && i < prime && Walked(seen, i, 0)
      ensures if i + 1 < prime then Walked(visited, i + 1, 0) else Complete(visited)
    {
      visited := seen;
      var n: Node? := zen[i];
      ghost var j: nat := 0;
      while n != null
        invariant j <= |chains[i]| && n == if j < |chains[i]| then chains[i][j] else null
        invariant Walked(visited, i, j)
        decreases |chains[i]| - j
      {
        assert n == chains[i][j];
        ghost var before := visited;
        if n.key != None && n.val != None {
          visited := visited + [(n.key.value, n.val.value)];
        }
        WalkedNext(before, visited, i, j);
        n := n.next;
        j := j + 1;
      }
      if i + 1 < prime {
        WalkedChain(visited, i);
      } else {
        WalkedAll(visited);
      }
    }

    /** xhash_walk, with a function that only looks: it is called once for every key that has
        a value, and for nothing else. */
    method Walk() returns (visited: seq<(Key, int)>)
      requires Valid()
      ensures Complete(visited)
    {
      visited := [];
      WalkedNothing();
      var i := 0;
      while i < prime
        invariant 0 <= i <= prime
        invariant if i < prime then Walked(visited, i, 0) else Complete(visited)
      {
        assert Valid() == old(Valid());
        visited := WalkChain(visited, i);
        i := i + 1;
      }
    }

    lemma WalkedNothing()
      requires Valid()
      ensures Walked([], 0, 0)
    {
      assert forall k :: k in where ==> where[k].home >= 0;
    }
  }
}
