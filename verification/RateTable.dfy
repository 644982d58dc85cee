/** The bucket table of wpj_sysepoll/rate.c: chains and a free list over a fixed set of
    buckets, linked through one next field. */
module RateTable {
  import opened RateSpec

  /** _rate_bucket. home is the chain a bucket is in, -1 on the free list, -2 in no list. */
  class Bucket {
    var rate: int
    var time: int
    var ip: int
    var ilosc: nat
    var next: Bucket?
    ghost var home: int

    constructor ()
      ensures next == null && home == -2
    {
      rate, time, ip, ilosc, next, home := 0, 0, 0, 0, null, -2;
    }
  }

  ghost predicate Linked(s: seq<Bucket>)
    reads (set b | b in s)`next
  {
    forall i {:trigger s[i].next} :: 0 <= i < |s| ==> s[i].next == if i + 1 < |s| then s[i + 1] else null
  }

  ghost predicate Housed(s: seq<Bucket>, home: int)
    reads (set b | b in s)`home
  {
    && (forall i :: 0 <= i < |s| ==> s[i].home == home)
    && (forall i, j :: 0 <= i < j < |s| ==> s[i] != s[j])
  }

  function Hash(ip: int): (h: nat)
    ensures h < HASH_SIZE
  {
    ip % HASH_SIZE
  }

  /** The chain of the addresses that hash to h, which starts at head. */
  ghost predicate ChainOk(h: nat, s: seq<Bucket>, head: Bucket?, live: map<int, Bucket>)
    reads (set b | b in s)`next, (set b | b in s)`home, (set b | b in s)`ip
  {
    && Housed(s, h) && Linked(s)
    && head == (if s == [] then null else s[0])
    && forall b :: b in s ==> b.ip in live && live[b.ip] == b && Hash(b.ip) == h
  }

  lemma ChainReindexed(h: nat, s: seq<Bucket>, head: Bucket?, live: map<int, Bucket>, live': map<int, Bucket>)
    requires ChainOk(h, s, head, live)
    requires forall b :: b in s ==> b.ip in live' && live'[b.ip] == b
    ensures ChainOk(h, s, head, live')
  {
  }

  lemma ChainSurvives(h: nat, s: seq<Bucket>, head: Bucket?, live: map<int, Bucket>, ip: int)
    requires ChainOk(h, s, head, live) && Hash(ip) != h
    ensures ChainOk(h, s, head, live - {ip})
  {
    ChainReindexed(h, s, head, live, live - {ip});
  }

  lemma ChainGrows(h: nat, s: seq<Bucket>, head: Bucket?, live: map<int, Bucket>, bucket: Bucket)
    requires ChainOk(h, s, head, live) && bucket !in s && bucket.home == h && bucket.next == head
    requires bucket.ip in live && live[bucket.ip] == bucket && Hash(bucket.ip) == h
    ensures ChainOk(h, [bucket] + s, bucket, live)
  {
  }

  /** What the links of a chain lead to when they step over its i-th bucket. */
  ghost predicate Skipped(s: seq<Bucket>, i: nat)
    requires i < |s|
    reads s
  {
    forall k {:trigger s[k].next} :: 0 <= k < |s| && k != i ==>
      var n := if k + 1 == i then k + 2 else k + 1;
      s[k].next == if n < |s| then s[n] else null
  }

  lemma ChainShrinks(h: nat, s: seq<Bucket>, i: nat, head: Bucket?, live: map<int, Bucket>)
    requires i < |s| && Skipped(s, i)
    requires forall j, k :: 0 <= j < k < |s| ==> s[j] != s[k]
    requires forall k :: 0 <= k < |s| && k != i ==>
      s[k].home == h && s[k].ip in live && live[s[k].ip] == s[k] && Hash(s[k].ip) == h
    requires head == if |s| == 1 then null else if i == 0 then s[1] else s[0]
    ensures ChainOk(h, Without(s, i), head, live) && s[i] !in Without(s, i)
  {
    var t := Without(s, i);
    assert forall k :: 0 <= k < |t| ==> t[k] == s[if k < i then k else k + 1];
  }

  /** The values that RateSpec knows of the buckets. */
  ghost predicate Viewed(live: map<int, Bucket>, view: map<int, Entry>)
    reads live.Values`rate, live.Values`time, live.Values`ilosc
  {
    && view.Keys == live.Keys
    && forall ip :: ip in live ==> live[ip].ilosc > 0 && view[ip] == Entry(live[ip].rate, live[ip].time, live[ip].ilosc)
  }

  lemma ViewedGrows(live: map<int, Bucket>, view: map<int, Entry>, ip: int, b: Bucket)
    requires Viewed(live, view) && b.ilosc > 0
    ensures Viewed(live[ip := b], view[ip := Entry(b.rate, b.time, b.ilosc)])
  {
  }

  lemma ViewedShrinks(live: map<int, Bucket>, view: map<int, Entry>, ip: int)
    requires Viewed(live, view)
    ensures Viewed(live - {ip}, view - {ip})
  {
  }

  lemma Sizes(live: map<int, Bucket>, ip: int, b: Bucket)
    ensures ip !in live ==> |live[ip := b]| == |live| + 1
    ensures ip in live ==> |live - {ip}| == |live| - 1
  {
    assert ip in live ==> live == (live - {ip})[ip := live[ip]];
  }

  /** _wpj_rate. */
  class Table {
    const c: Config
    const tab: array<Bucket?>
    var first: Bucket?
    var last: Bucket?
    var count: nat
    ghost var chains: seq<seq<Bucket>>
    ghost var free: seq<Bucket>
    ghost var live: map<int, Bucket>
    ghost var view: map<int, Entry>
    ghost var all: set<Bucket>

    /** Buckets are taken at last and given back behind first, which is stale when the free
        list is empty. */
    ghost predicate FreeList()
      reads this`first, this`last, this`free, this`all, all`next, all`home
    {
      && (forall b :: b in free ==> b in all)
      && Housed(free, -1) && Linked(free)
      && if free == [] then last == null else last == free[0] && first == free[|free| - 1]
    }

    /** The bucket of an address is in the address's chain. */
    ghost predicate Placed(ip: int)
      requires |chains| == HASH_SIZE && ip in live && live.Values <= all
      reads this`chains, this`live, this`all, all`ip
    {
      live[ip].ip == ip && live[ip] in chains[Hash(ip)]
    }

    ghost predicate Indexed()
      requires |chains| == HASH_SIZE
      reads this`chains, this`live, this`all, all`ip
    {
      live.Values <= all && forall ip {:trigger Placed(ip)} :: ip in live ==> Placed(ip)
    }

    ghost predicate Structure()
      reads this`first, this`last, this`free, this`chains, this`live, this`all, tab, all`next, all`home, all`ip
    {
      && tab.Length == HASH_SIZE + 1 && |chains| == HASH_SIZE
      && FreeList()
      && (forall h: nat :: h < HASH_SIZE ==>
         (forall b :: b in chains[h] ==> b in all) && ChainOk(h, chains[h], tab[h], live))
      && Indexed()
    }

    /** Chains and free list partition the buckets, and every address has one bucket, in its
        own chain. */
    ghost predicate Valid()
      reads this, tab, all
    {
      Structure() && Viewed(live, view) && c.connTime > 0 && count == |live| && |live| + |free| == HASH_SIZE
    }

    /** What the table means for RateSpec. */
    ghost function View(): State
      reads this`view, this`free
    {
      State(view, |free|)
    }

    /** A bucket that is in no list. */
    ghost predicate Loose(bucket: Bucket)
      reads this`all, bucket`home
    {
      bucket in all && bucket.home == -2
    }

    /** RateInit. */
    constructor (conn: int, time: nat, limit: nat)
      requires time > 0
      ensures Valid() && View() == EMPTY && c == Configure(conn, time, limit)
      ensures fresh(tab) && fresh(all)
    {
      c := Configure(conn, time, limit);
      tab := new Bucket?[HASH_SIZE + 1](_ => null);
      first, last, count := null, null, 0;
      chains, free, live, view, all := seq(HASH_SIZE, _ => []), [], map[], map[], {};
      new;
      var i := 0;
      while i < HASH_SIZE
        invariant 0 <= i <= HASH_SIZE && |free| == i && FreeList() && fresh(all) && fresh(tab)
        invariant live == map[] && view == map[] && count == 0 && |chains| == HASH_SIZE
        invariant forall h :: 0 <= h < HASH_SIZE ==> chains[h] == []
        invariant tab.Length == HASH_SIZE + 1 && forall h :: 0 <= h < HASH_SIZE ==> tab[h] == null
      {
        assert last != null ==> first in all;
        AddBucket();
        i := i + 1;
      }
    }

    method AddBucket()
      requires FreeList()
      modifies this`first, this`last, this`free, this`all, (if last == null then {} else {first})`next
      ensures FreeList() && |free| == |old(free)| + 1 && exists b :: fresh(b) && all == old(all) + {b}
    {
      var bucket := new Bucket();
      all := all + {bucket};
      PutFree(bucket);
    }

    /** A bucket with no next goes to the end of the free list. */
    method PutFree(bucket: Bucket)
      requires FreeList() && Loose(bucket) && bucket.next == null
      modifies this`first, this`last, this`free, bucket`home, (if last == null then {} else {first})`next
      ensures FreeList() && free == old(free) + [bucket]
    {
      if last == null {
        last := bucket;
      } else {
        first.next := bucket;
      }
      first := bucket;
      bucket.home := -1;
      free := free + [bucket];
    }

    /** The search loop of RateCheckAdd and RateRemove. */
    method Find(ip: int) returns (bucket: Bucket?, temp: Bucket?, ghost i: nat)
      requires Valid()
      ensures bucket == null <==> ip !in live
      ensures bucket != null ==>
        && bucket == live[ip] && i < |chains[Hash(ip)]| && chains[Hash(ip)][i] == bucket
        && temp == if i == 0 then null else chains[Hash(ip)][i - 1]
    {
      var h := Hash(ip);
      ghost var s := chains[h];
      assert ChainOk(h, s, tab[h], live) && (ip in live ==> Placed(ip));
      bucket, temp, i := tab[h], null, 0;
      while bucket != null && bucket.ip != ip
        invariant i <= |s| && bucket == if i < |s| then s[i] else null
        invariant temp == if i == 0 then null else s[i - 1]
        invariant forall k :: 0 <= k < i ==> s[k].ip != ip
        decreases |s| - i
      {
        assert bucket == s[i];
        temp := bucket;
        bucket := bucket.next;
        i := i + 1;
      }
    }

    /** The bucket that leaves the free list when an address needs one. */
    method TakeFree() returns (bucket: Bucket)
      requires FreeList() && free != []
      modifies this`last, this`free, {last}`home
      ensures FreeList() && free == old(free)[1..] && bucket == old(free)[0] && Loose(bucket)
    {
      bucket := last;
      assert last == free[0] && last.next == if 1 < |free| then free[1] else null;
      last := bucket.next;
      bucket.home := -2;
      free := free[1..];
    }

    lemma UnchainedIsNotLive(bucket: Bucket)
      requires Structure() && bucket in all && bucket.home < 0
      ensures bucket !in live.Values && forall g: nat :: g < HASH_SIZE ==> bucket !in chains[g]
    {
      forall g: nat | g < HASH_SIZE
        ensures bucket !in chains[g]
      {
        assert Housed(chains[g], g);
      }
      forall x | x in live
        ensures live[x] != bucket
      {
        assert Placed(x);
      }
    }

    method Acquire() returns (bucket: Bucket)
      requires Structure() && free != []
      modifies this`last, this`free, {last}`home
      ensures Structure() && free == old(free)[1..] && bucket == old(free)[0] && Loose(bucket)
    {
      UnchainedIsNotLive(free[0]);
      bucket := TakeFree();
    }

    method Release(bucket: Bucket)
      requires Structure() && Loose(bucket) && bucket.next == null
      modifies this`first, this`last, this`free, bucket`home, (if last == null then {} else {first})`next
      ensures Structure() && free == old(free) + [bucket]
    {
      UnchainedIsNotLive(bucket);
      if free != [] {
        UnchainedIsNotLive(free[|free| - 1]);
      }
      PutFree(bucket);
    }

    /** A bucket taken for a new address is filled. */
    method Fill(bucket: Bucket, ip: int, now: int)
      requires Structure() && Loose(bucket)
      modifies bucket
      ensures Structure() && Loose(bucket) && bucket !in live.Values
      ensures bucket.ip == ip && bucket.ilosc == 1 && bucket.rate == c.maxRate - COST && bucket.time == now
    {
      UnchainedIsNotLive(bucket);
      bucket.ip := ip;
      bucket.ilosc := 1;
      bucket.rate := c.maxRate - COST;
      bucket.time := now;
      forall x | x in live
        ensures Placed(x)
      {
        assert old(Placed(x));
        assert live[x] in live.Values && live[x] != bucket;
      }
    }

    /** What the chains and the index are with one more bucket. */
    lemma Fronted(bucket: Bucket, h: nat, chains': seq<seq<Bucket>>, live': map<int, Bucket>)
      requires tab.Length == HASH_SIZE + 1 && |chains| == HASH_SIZE && Indexed()
      requires forall g: nat, b :: g < HASH_SIZE && b in chains[g] ==> b in all
      requires h == Hash(bucket.ip) && bucket.ip !in live && bucket in all && bucket.home == h && tab[h] == bucket
      requires forall g: nat :: g < HASH_SIZE ==> bucket !in chains[g]
      requires forall g: nat :: g < HASH_SIZE && g != h ==> ChainOk(g, chains[g], tab[g], live)
      requires ChainOk(h, chains[h], bucket.next, live)
      requires chains' == chains[h := [bucket] + chains[h]] && live' == live[bucket.ip := bucket]
      ensures forall g: nat, b :: g < HASH_SIZE && b in chains'[g] ==> b in all
      ensures forall g: nat :: g < HASH_SIZE ==> ChainOk(g, chains'[g], tab[g], live')
      ensures forall x {:trigger live'[x] in chains'[Hash(x)]} :: x in live' ==>
              live'[x].ip == x && live'[x] in chains'[Hash(x)]
    {
      forall g: nat | g < HASH_SIZE
        ensures ChainOk(g, chains'[g], tab[g], live')
      {
        ChainReindexed(g, chains[g], if g == h then bucket.next else tab[g], live, live');
        if g == h {
          ChainGrows(h, chains[h], bucket.next, live', bucket);
        }
      }
      forall x | x in live'
        ensures live'[x].ip == x && live'[x] in chains'[Hash(x)]
      {
        if x == bucket.ip {
          assert chains'[h][0] == bucket;
        } else {
          assert Placed(x);
        }
      }
    }

    /** The links that put it in front of a chain. */
    method Link(bucket: Bucket, h: nat)
      requires Structure() && Loose(bucket) && h < HASH_SIZE
      modifies tab, bucket`next, bucket`home
      ensures FreeList() && Indexed() && bucket.home == h && tab[h] == bucket
      ensures ChainOk(h, chains[h], bucket.next, live)
      ensures forall g: nat :: g < HASH_SIZE ==> bucket !in chains[g]
      ensures forall g: nat :: g < HASH_SIZE && g != h ==> ChainOk(g, chains[g], tab[g], live)
    {
      UnchainedIsNotLive(bucket);
      assert forall g: nat :: g < HASH_SIZE ==> ChainOk(g, chains[g], tab[g], live);
      bucket.next := tab[h];
      tab[h] := bucket;
      bucket.home := h;
    }

    /** It goes to the front of its chain. */
    method ToFront(bucket: Bucket)
      requires Structure() && Loose(bucket) && bucket.ip !in live && bucket.ilosc > 0
      modifies this`chains, this`live, tab, bucket`next, bucket`home
      ensures Structure() && live == old(live)[bucket.ip := bucket]
    {
      var h := Hash(bucket.ip);
      Link(bucket, h);
      ghost var chains', live' := chains[h := [bucket] + chains[h]], live[bucket.ip := bucket];
      Fronted(bucket, h, chains', live');
      chains, live := chains', live';
      forall x | x in live
        ensures Placed(x)
      {
        assert live'[x] in chains'[Hash(x)];
      }
    }

    /** A bucket from the free list in the chain of a new address. */
    method Install(ip: int, now: int)
      requires Structure() && Viewed(live, view) && ip !in live && free != []
      modifies this`last, this`chains, this`free, this`live, tab, {last}
      ensures Structure() && |free| == |old(free)| - 1 && live == old(live)[ip := old(free)[0]]
      ensures Viewed(live, view[ip := Entry(c.maxRate - COST, now, 1)]) && unchanged(this`view, this`count)
    {
      var bucket := Acquire();
      Fill(bucket, ip, now);
      ViewedGrows(live, view, ip, bucket);
      ghost var live' := live[ip := bucket];
      ToFront(bucket);
      assert live == live';
    }

    /** The part of RateCheckAdd that makes a bucket for a new address. */
    method Create(ip: int, now: int)
      requires Valid() && ip !in live && free != []
      modifies this`last, this`count, this`chains, this`free, this`live, this`view, tab, {last}
      ensures Valid() && View() == State(old(view)[ip := Entry(c.maxRate - COST, now, 1)], |old(free)| - 1)
    {
      Sizes(live, ip, free[0]);
      Install(ip, now);
      label Installed:
      view, count := view[ip := Entry(c.maxRate - COST, now, 1)], count + 1;
      assert Structure() == old@Installed(Structure());
    }

    /** A bucket of the chains is changed in what the chains do not depend on. */
    method Update(bucket: Bucket, rate: int, time: int, ilosc: nat)
      requires Structure() && Viewed(live, view) && bucket.ip in live && live[bucket.ip] == bucket && ilosc > 0
      modifies this`view, bucket`rate, bucket`time, bucket`ilosc
      ensures Structure() && Viewed(live, view) && view == old(view)[bucket.ip := Entry(rate, time, ilosc)]
    {
      forall x | x in live && x != bucket.ip
        ensures live[x] != bucket
      {
        assert Placed(x);
      }
      bucket.rate := rate;
      bucket.time := time;
      bucket.ilosc := ilosc;
      view := view[bucket.ip := Entry(rate, time, ilosc)];
      assert Structure() == old(Structure());
    }

    /** RateCheckAdd: the table does what RateSpec.Check says, and 1 is returned to refuse. */
    method CheckAdd(ip: int, now: int) returns (r: int)
      requires Valid()
      modifies this`last, this`count, this`chains, this`free, this`live, this`view, tab, all
      ensures Valid() && (View(), r == 1) == Check(c, old(View()), ip, now) && r in {0, 1}
    {
      var bucket, _, _ := Find(ip);
      if bucket == null {
        if last == null {
          return 0;
        }
        Create(ip, now);
        return 0;
      }
      r := Admit(bucket, ip, now);
    }

    /** The part of RateCheckAdd for an address that has a bucket. */
    method Admit(bucket: Bucket, ip: int, now: int) returns (r: int)
      requires Valid() && ip in live && live[ip] == bucket
      modifies this`view, bucket`rate, bucket`time, bucket`ilosc
      ensures Valid() && (View(), r == 1) == Check(c, old(View()), ip, now) && r in {0, 1}
    {
      assert Placed(ip) && view[ip] == Entry(bucket.rate, bucket.time, bucket.ilosc);
      if c.countConn != 0 {
        if bucket.ilosc + 1 >= c.countConn {
          return 1;
        }
      }
      var rateAdd := c.maxRate * (now - bucket.time) / c.connTime;
      var newRate := Min(c.maxRate, bucket.rate + rateAdd);
      if newRate < COST {
        return 1;
      }
      Update(bucket, newRate - COST, now, bucket.ilosc + 1);
      r := 0;
    }

    /** The links around the i-th bucket of a chain; temp is the bucket in front of it. */
    method StepOver(bucket: Bucket, temp: Bucket?, h: nat, ghost i: nat)
      requires Structure() && h < HASH_SIZE && i < |chains[h]| && chains[h][i] == bucket
      requires temp == if i == 0 then null else chains[h][i - 1]
      modifies tab, bucket`next, bucket`home, (if temp == null then {} else {temp})`next
      ensures FreeList() && bucket.next == null && Loose(bucket)
      ensures Skipped(chains[h], i)
      ensures tab[h] == (var s := chains[h]; if |s| == 1 then null else if i == 0 then s[1] else s[0])
      ensures forall g: nat :: g < HASH_SIZE && g != h ==> ChainOk(g, chains[g], tab[g], live)
    {
      ghost var s := chains[h];
      assert ChainOk(h, s, tab[h], live);
      assert forall g: nat :: g < HASH_SIZE && g != h ==>
          ChainOk(g, chains[g], tab[g], live) && bucket !in chains[g] && temp !in chains[g];
      if temp != null {
        temp.next := bucket.next;
      } else {
        tab[h] := bucket.next;
      }
      bucket.next := null;
      bucket.home := -2;
    }

    /** What the chains and the index are once the links step over a bucket. */
    lemma Rechained(bucket: Bucket, h: nat, i: nat, chains': seq<seq<Bucket>>, live': map<int, Bucket>)
      requires tab.Length == HASH_SIZE + 1 && |chains| == HASH_SIZE && Indexed()
      requires forall g: nat :: g < HASH_SIZE ==> forall b :: b in chains[g] ==> b in all
      requires forall g: nat :: g < HASH_SIZE && g != h ==> ChainOk(g, chains[g], tab[g], live)
      requires h == Hash(bucket.ip) && bucket.ip in live && live[bucket.ip] == bucket
      requires i < |chains[h]| && chains' == chains[h := Without(chains[h], i)] && live' == live - {bucket.ip}
      requires chains[h][i] == bucket && ChainOk(h, Without(chains[h], i), tab[h], live')
      ensures forall g: nat :: g < HASH_SIZE ==>
              (forall b :: b in chains'[g] ==> b in all) && ChainOk(g, chains'[g], tab[g], live')
      ensures forall x {:trigger live'[x] in chains'[Hash(x)]} :: x in live' ==>
              live'[x].ip == x && live'[x] in chains'[Hash(x)]
    {
      forall g: nat | g < HASH_SIZE && g != h {
        ChainSurvives(g, chains[g], tab[g], live, bucket.ip);
      }
      forall x | x in live'
        ensures live'[x].ip == x && live'[x] in chains'[Hash(x)]
      {
        assert Placed(x);
        if Hash(x) == h {
          var k :| 0 <= k < |chains[h]| && chains[h][k] == live[x];
          assert chains'[h][if k < i then k else k - 1] == live[x];
        }
      }
    }

    /** The bucket leaves its chain. */
    method Unchain(bucket: Bucket, temp: Bucket?, ghost i: nat)
      requires Structure() && bucket.ip in live && live[bucket.ip] == bucket
      requires i < |chains[Hash(bucket.ip)]| && chains[Hash(bucket.ip)][i] == bucket
      requires temp == if i == 0 then null else chains[Hash(bucket.ip)][i - 1]
      modifies this`chains, this`live, tab, bucket`next, bucket`home, (if temp == null then {} else {temp})`next
      ensures Structure() && Loose(bucket) && bucket.next == null
      ensures live == old(live - {bucket.ip})
    {
      var h := Hash(bucket.ip);
      ghost var s := chains[h];
      assert ChainOk(h, s, tab[h], live);
      StepOver(bucket, temp, h, i);
      ghost var chains', live' := chains[h := Without(s, i)], live - {bucket.ip};
      ChainShrinks(h, s, i, tab[h], live');
      Rechained(bucket, h, i, chains', live');
      chains, live := chains', live';
      forall x | x in live
        ensures Placed(x)
      {
        assert live'[x] in chains'[Hash(x)];
      }
    }

    /** A bucket leaves its chain for the free list. */
    method Uninstall(bucket: Bucket, temp: Bucket?, ghost i: nat)
      requires Structure() && bucket.ip in live && live[bucket.ip] == bucket
      requires i < |chains[Hash(bucket.ip)]| && chains[Hash(bucket.ip)][i] == bucket
      requires temp == if i == 0 then null else chains[Hash(bucket.ip)][i - 1]
      modifies this`first, this`last, this`chains, this`free, this`live, tab, all`next, all`home
      ensures Structure() && |free| == |old(free)| + 1 && live == old(live - {bucket.ip})
      ensures unchanged(this`view, this`count)
      ensures Viewed(live, view) == old(Viewed(live - {bucket.ip}, view))
    {
      ghost var live' := live - {bucket.ip};
      Unchain(bucket, temp, i);
      assert live == live';
      Release(bucket);
    }

    /** An address is no longer counted. */
    method Discount(ip: int)
      requires Valid() && ip in live
      modifies this`view, this`count
      ensures Structure() && Viewed(live - {ip}, view) && view == old(view) - {ip}
      ensures count == |live - {ip}| && |live - {ip}| + |free| == HASH_SIZE - 1
    {
      Sizes(live, ip, live[ip]);
      ViewedShrinks(live, view, ip);
      view, count := view - {ip}, count - 1;
      assert Structure() == old(Structure());
    }

    /** The part of RateRemove that gives a bucket back. */
    method Drop(bucket: Bucket, temp: Bucket?, ghost i: nat)
      requires Valid() && bucket.ip in live && live[bucket.ip] == bucket
      requires i < |chains[Hash(bucket.ip)]| && chains[Hash(bucket.ip)][i] == bucket
      requires temp == if i == 0 then null else chains[Hash(bucket.ip)][i - 1]
      modifies this`first, this`last, this`count, this`chains, this`free, this`live, this`view, tab, all`next, all`home
      ensures Valid() && View() == State(old(view - {bucket.ip}), |old(free)| + 1)
    {
      Discount(bucket.ip);
      Uninstall(bucket, temp, i);
    }

    /** The part of RateRemove for an address with further connections. */
    method Leave(ip: int, bucket: Bucket) returns (r: int)
      requires Valid() && ip in live && live[ip] == bucket && bucket.ip == ip && bucket.ilosc > 1
      requires ip in View().live && View().live[ip] == Entry(bucket.rate, bucket.time, bucket.ilosc)
      modifies this`view, bucket`rate, bucket`time, bucket`ilosc
      ensures Valid() && (View(), r) == RateSpec.Remove(old(View()), ip)
    {
      Update(bucket, bucket.rate, bucket.time, bucket.ilosc - 1);
      r := bucket.ilosc;
    }

    /** RateRemove. */
    method Remove(ip: int) returns (r: int)
      requires Valid()
      modifies this`first, this`last, this`count, this`chains, this`free, this`live, this`view, tab, all
      ensures Valid() && (View(), r) == RateSpec.Remove(old(View()), ip)
    {
      var bucket, temp, i := Find(ip);
      ghost var v := View();
      if bucket == null {
        assert (View(), -1) == RateSpec.Remove(v, ip);
        return -1;
      }
      assert Placed(ip);
      assert v.live[ip] == Entry(bucket.rate, bucket.time, bucket.ilosc);
      if bucket.ilosc > 1 {
        r := Leave(ip, bucket);
      } else {
        Drop(bucket, temp, i);
        assert View() == RateSpec.Remove(v, ip).0;
        r := 0;
      }
    }
  }
}
