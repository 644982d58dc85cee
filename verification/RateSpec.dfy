/** The connection rate limiter of wpj (wpj_sysepoll/rate.c) as a function of its table, the
    window that it enforces, and the gate in front of it (wpj_sysepoll/io.c, connection.c). */
module RateSpec {
  /** HASH_SIZE buckets; DEF_MAX_CLIENTS client slots of which two are not used. */
  const HASH_SIZE: nat := 16229
  const SLOTS: nat := 15998
  const COST := 100

  /** MAX_RATE, CONN_TIME (hundredths of a second) and COUNT_CONN (zero for no limit). */
  datatype Config = Config(maxRate: int, connTime: nat, countConn: nat)

  /** RateInit's conversion of the configured number of connections and seconds. */
  function Configure(conn: int, time: nat, count: nat): Config { Config(100 * conn, 100 * time, count) }

  datatype Entry = Entry(rate: int, time: int, ilosc: nat)

  /** The bucket of every address that has one, and how many buckets are left. */
  datatype State = State(live: map<int, Entry>, free: nat)

  function Min(a: int, b: int): int { if a < b then a else b }

  /** The points of a bucket when the clock shows now. */
  function Refilled(c: Config, e: Entry, now: int): int
    requires c.connTime > 0
  {
    Min(c.maxRate, e.rate + c.maxRate * (now - e.time) / c.connTime)
  }

  /** RateCheckAdd: the new table and whether the connection is refused. */
  function Check(c: Config, s: State, ip: int, now: int): (State, bool)
    requires c.connTime > 0
  {
    if ip !in s.live then
      if s.free == 0 then (s, false)
      else (State(s.live[ip := Entry(c.maxRate - COST, now, 1)], s.free - 1), false)
    else
      var e := s.live[ip];
      if c.countConn != 0 && e.ilosc + 1 >= c.countConn then (s, true)
      else if Refilled(c, e, now) < COST then (s, true)
      else (s.(live := s.live[ip := Entry(Refilled(c, e, now) - COST, now, e.ilosc + 1)]), false)
  }

  /** RateRemove: the new table and the value returned. */
  function Remove(s: State, ip: int): (State, int) {
    if ip !in s.live then (s, -1)
    else
      var e := s.live[ip];
      if e.ilosc > 1 then (s.(live := s.live[ip := e.(ilosc := e.ilosc - 1)]), e.ilosc - 1)
      else (State(s.live - {ip}, s.free + 1), 0)
  }

  // ------------------------------------------------- the window of one bucket

  datatype Call = Add(ip: int, now: int) | Drop(ip: int)

  const EMPTY := State(map[], HASH_SIZE)

  function After(c: Config, calls: seq<Call>): State
    requires c.connTime > 0
  {
    if calls == [] then EMPTY
    else
      var s := After(c, calls[..|calls| - 1]);
      match calls[|calls| - 1]
      case Add(ip, now) => Check(c, s, ip, now).0
      case Drop(ip) => Remove(s, ip).0
  }

  /** When the connections of an address were accepted, since its bucket was made. */
  function Accepted(c: Config, calls: seq<Call>, ip: int): seq<int>
    requires c.connTime > 0
  {
    if calls == [] then []
    else
      var before := calls[..|calls| - 1];
      var s := After(c, before);
      var times := Accepted(c, before, ip);
      match calls[|calls| - 1]
      case Add(ip', now) =>
        if ip' != ip || Check(c, s, ip, now).1 || ip !in Check(c, s, ip, now).0.live then times
        else times + [now]
      case Drop(ip') => if ip' != ip || ip in Remove(s, ip).0.live then times else []
  }

  /** The clock never goes back. */
  ghost predicate Monotone(calls: seq<Call>, now: int) {
    calls != [] ==>
      match calls[|calls| - 1]
      case Add(_, t) => t <= now && Monotone(calls[..|calls| - 1], t)
      case Drop(_) => Monotone(calls[..|calls| - 1], now)
  }

  /** What a bucket with this rate owes to its i-th connection of n. */
  ghost predicate Covers(c: Config, rate: int, time: int, times: seq<int>, i: nat)
    requires i < |times|
  {
    c.connTime * (rate + COST * (|times| - i)) <= c.maxRate * c.connTime + c.maxRate * (time - times[i])
  }

  ghost predicate Sound(c: Config, s: State, times: seq<int>, ip: int, now: int) {
    if ip !in s.live then times == []
    else
      var e := s.live[ip];
      && times != [] && e.time == times[|times| - 1] <= now && 0 <= e.rate <= c.maxRate && 1 <= e.ilosc <= |times|
      && AllCovered(c, e.rate, e.time, times)
  }

  lemma DivisionLoses(a: int, d: int)
    requires d > 0
    ensures d * (a / d) <= a
  {
  }

  lemma CoversNext(c: Config, e: Entry, times: seq<int>, now: int, i: nat)
    requires c.connTime > 0 && c.maxRate >= 0 && i < |times| && Covers(c, e.rate, e.time, times, i)
    ensures Covers(c, Refilled(c, e, now) - COST, now, times + [now], i)
  {
    var t, m := c.connTime, c.maxRate;
    var gain := m * (now - e.time) / t;
    DivisionLoses(m * (now - e.time), t);
    var owed := COST * (|times| - i);
    var rate' := Refilled(c, e, now) - COST;
    assert rate' + COST * (|times| + 1 - i) == Refilled(c, e, now) + owed;
    var more := e.rate + owed + gain - (Refilled(c, e, now) + owed);
    assert more >= 0 && t * more >= 0;
    calc {
      t * (rate' + COST * (|times| + 1 - i));
    <=
      t * (e.rate + owed + gain);
    ==
      t * (e.rate + owed) + t * gain;
    <=
      m * t + m * (e.time - times[i]) + m * (now - e.time);
    ==
      m * t + m * (now - times[i]);
    }
    assert (times + [now])[i] == times[i];
  }

  lemma CoversFirst(c: Config, rate: int, times: seq<int>, now: int)
    requires rate <= c.maxRate - COST
    ensures Covers(c, rate, now, times + [now], |times|)
  {
    var t := c.connTime;
    assert t * (rate + COST) <= t * c.maxRate;
    assert c.maxRate * (now - now) == 0;
  }

  ghost predicate AllCovered(c: Config, rate: int, time: int, times: seq<int>) {
    forall i :: 0 <= i < |times| ==> Covers(c, rate, time, times, i)
  }

  lemma AllCoveredNext(c: Config, e: Entry, times: seq<int>, now: int)
    requires c.connTime > 0 && c.maxRate >= 0 && AllCovered(c, e.rate, e.time, times)
    ensures AllCovered(c, Refilled(c, e, now) - COST, now, times + [now])
  {
    var rate' := Refilled(c, e, now) - COST;
    forall i | 0 <= i < |times + [now]|
      ensures Covers(c, rate', now, times + [now], i)
    {
      if i < |times| {
        CoversNext(c, e, times, now, i);
      } else {
        CoversFirst(c, rate', times, now);
      }
    }
  }

  lemma RefilledInRange(c: Config, e: Entry, now: int)
    requires c.connTime > 0 && 0 <= e.rate <= c.maxRate && e.time <= now
    ensures 0 <= Refilled(c, e, now) <= c.maxRate
  {
    assert c.maxRate * (now - e.time) >= 0;
  }

  lemma CheckKeepsSound(c: Config, s: State, times: seq<int>, ip: int, now: int)
    requires c.connTime > 0 && c.maxRate >= COST && Sound(c, s, times, ip, now)
    requires !Check(c, s, ip, now).1 && ip in Check(c, s, ip, now).0.live
    ensures Sound(c, Check(c, s, ip, now).0, times + [now], ip, now)
  {
    if ip in s.live {
      RefilledInRange(c, s.live[ip], now);
      AllCoveredNext(c, s.live[ip], times, now);
    } else {
      CoversFirst(c, c.maxRate - COST, times, now);
      assert times + [now] == [now];
    }
  }

  lemma {:induction false} RunsAreSound(c: Config, calls: seq<Call>, ip: int, now: int)
    requires c.connTime > 0 && c.maxRate >= COST && Monotone(calls, now)
    ensures Sound(c, After(c, calls), Accepted(c, calls, ip), ip, now)
  {
    if calls != [] {
      var before := calls[..|calls| - 1];
      var s, times := After(c, before), Accepted(c, before, ip);
      match calls[|calls| - 1]
      case Add(ip', t) =>
        RunsAreSound(c, before, ip, t);
        if ip' == ip && !Check(c, s, ip, t).1 && ip in Check(c, s, ip, t).0.live {
          CheckKeepsSound(c, s, times, ip, t);
        }
      case Drop(ip') =>
        RunsAreSound(c, before, ip, now);
        if ip' == ip && ip in Remove(s, ip).0.live {
          assert 2 <= s.live[ip].ilosc;
        }
    }
  }

  /** Main result: among the connections that one bucket lets in, those from the i-th to the
      j-th cost no more than a full bucket and what it regains between the two. */
  lemma WindowHolds(c: Config, calls: seq<Call>, ip: int, now: int, i: nat, j: nat)
    requires c.connTime > 0 && c.maxRate >= COST && Monotone(calls, now)
    requires i <= j < |Accepted(c, calls, ip)|
    ensures var times := Accepted(c, calls, ip);
            COST * (j - i + 1) * c.connTime <= c.maxRate * c.connTime + c.maxRate * (times[j] - times[i])
    decreases |calls|
  {
    var times := Accepted(c, calls, ip);
    if j == |times| - 1 {
      RunsAreSound(c, calls, ip, now);
      var e := After(c, calls).live[ip];
      assert Covers(c, e.rate, e.time, times, i);
      var n := COST * (|times| - i);
      assert c.connTime * (e.rate + n) == c.connTime * e.rate + c.connTime * n;
      assert c.connTime * e.rate >= 0;
    } else {
      var before := calls[..|calls| - 1];
      match calls[|calls| - 1]
      case Add(_, t) => WindowHolds(c, before, ip, t, i, j);
      case Drop(_) => WindowHolds(c, before, ip, now, i, j);
    }
  }

  /** A limit below one connection does not work: the first connection of an address is let
      in without looking at the limit, so even the window of that one is broken. */
  lemma WindowNeedsOneConnection(c: Config, ip: int, now: int)
    requires c.connTime > 0
    ensures var calls := [Add(ip, now)];
            && Monotone(calls, now) && Accepted(c, calls, ip) == [now]
            && (COST * c.connTime <= c.maxRate * c.connTime <==> c.maxRate >= COST)
  {
    var calls := [Add(ip, now)];
    assert calls[..0] == [];
    assert After(c, []) == EMPTY && Accepted(c, [], ip) == [];
    if c.maxRate < COST {
      assert c.maxRate * c.connTime < COST * c.connTime;
    } else {
      assert c.maxRate * c.connTime >= COST * c.connTime;
    }
  }

  /** The limit on open connections: n stands for n - 1, and one is always let in. */
  ghost predicate Limited(c: Config, s: State) {
    c.countConn != 0 ==> forall ip :: ip in s.live ==>
        1 <= s.live[ip].ilosc && (s.live[ip].ilosc == 1 || s.live[ip].ilosc < c.countConn)
  }

  lemma {:induction false} RunsAreLimited(c: Config, calls: seq<Call>)
    requires c.connTime > 0
    ensures Limited(c, After(c, calls))
  {
    if calls != [] {
      RunsAreLimited(c, calls[..|calls| - 1]);
    }
  }

  /** A client that stays away for CONN_TIME is let in again, if open connections allow. */
  lemma WaitingHelps(c: Config, s: State, ip: int, now: int)
    requires c.connTime > 0 && c.maxRate >= COST && ip in s.live && 0 <= s.live[ip].rate <= c.maxRate
    requires s.live[ip].time + c.connTime <= now
    ensures Check(c, s, ip, now).1 <==> c.countConn != 0 && s.live[ip].ilosc + 1 >= c.countConn
  {
    var e := s.live[ip];
    assert c.maxRate * (now - e.time) >= c.maxRate * c.connTime;
    Exceeds(c.maxRate * (now - e.time), c.maxRate, c.connTime);
  }

  lemma Exceeds(a: int, m: int, d: int)
    requires d > 0 && a >= m * d
    ensures a / d >= m
  {
    var q := a / d;
    assert d * q + a % d == a;
    assert d * (m - q) < d;
    assert m - q <= 0 || d * (m - q - 1) >= 0;
  }

  /** A quotient reaches n exactly when the dividend reaches n times the divisor. */
  lemma QuotientReaches(a: int, d: int, n: int)
    requires d > 0
    ensures a / d >= n <==> a >= n * d
  {
    if a >= n * d {
      Exceeds(a, n, d);
    } else {
      var q := a / d;
      DivisionLoses(a, d);
      assert q >= n ==> d * q >= d * n;
    }
  }

  /** The table has room for one more open connection of the address. */
  predicate HasRoom(c: Config, s: State, ip: int) {
    ip in s.live && (c.countConn == 0 || s.live[ip].ilosc + 1 < c.countConn)
  }

  /** Main result: an address is let in exactly when its points and what they regain since,
      without any rounding, pay for a connection. */
  lemma AdmissionIsExact(c: Config, s: State, ip: int, now: int)
    requires c.connTime > 0 && c.maxRate >= COST && HasRoom(c, s, ip)
    ensures var e := s.live[ip];
            !Check(c, s, ip, now).1 <==> c.connTime * e.rate + c.maxRate * (now - e.time) >= COST * c.connTime
  {
    var e := s.live[ip];
    var gain := c.maxRate * (now - e.time);
    QuotientReaches(gain, c.connTime, COST - e.rate);
    assert (COST - e.rate) * c.connTime == COST * c.connTime - c.connTime * e.rate;
  }

  /** The bucket was full just before its i-th connection of n, and has since lost no more than
      those connections cost and one point at each later one. */
  ghost predicate Spent(c: Config, rate: int, time: int, times: seq<int>, i: nat)
    requires i < |times|
  {
    c.connTime * (rate + COST * (|times| - i)) + c.connTime * (|times| - 1 - i)
    >= c.maxRate * c.connTime + c.maxRate * (time - times[i])
  }

  ghost predicate SomeSpent(c: Config, rate: int, time: int, times: seq<int>) {
    exists i :: 0 <= i < |times| && Spent(c, rate, time, times, i)
  }

  lemma SpentNext(c: Config, e: Entry, times: seq<int>, now: int, i: nat)
    requires c.connTime > 0 && i < |times| && Spent(c, e.rate, e.time, times, i)
    requires Refilled(c, e, now) < c.maxRate
    ensures Spent(c, Refilled(c, e, now) - COST, now, times + [now], i)
  {
    var t, m := c.connTime, c.maxRate;
    var a := m * (now - e.time);
    var gain, owed, lost := a / t, COST * (|times| - i), |times| - 1 - i;
    assert t * gain + a % t == a;
    assert (times + [now])[i] == times[i];
    calc {
      t * (Refilled(c, e, now) - COST + COST * (|times| + 1 - i)) + t * (lost + 1);
    ==
      t * (e.rate + gain + owed) + t * (lost + 1);
    ==
      t * (e.rate + owed) + t * lost + t * gain + t;
    >=
      m * t + m * (e.time - times[i]) + a;
    ==
      m * t + m * (now - times[i]);
    }
  }

  lemma SpentFull(c: Config, times: seq<int>, now: int)
    ensures Spent(c, c.maxRate - COST, now, times + [now], |times|)
  {
    assert (times + [now])[|times|] == now;
    assert c.connTime * c.maxRate == c.maxRate * c.connTime && c.maxRate * (now - now) == 0;
  }

  lemma SomeSpentNext(c: Config, e: Entry, times: seq<int>, now: int)
    requires c.connTime > 0 && SomeSpent(c, e.rate, e.time, times)
    ensures SomeSpent(c, Refilled(c, e, now) - COST, now, times + [now])
  {
    if Refilled(c, e, now) < c.maxRate {
      var i :| 0 <= i < |times| && Spent(c, e.rate, e.time, times, i);
      SpentNext(c, e, times, now, i);
    } else {
      SpentFull(c, times, now);
    }
  }

  lemma {:induction false} RunsSpend(c: Config, calls: seq<Call>, ip: int)
    requires c.connTime > 0
    ensures var s := After(c, calls);
            ip in s.live ==> SomeSpent(c, s.live[ip].rate, s.live[ip].time, Accepted(c, calls, ip))
    ensures ip !in After(c, calls).live ==> Accepted(c, calls, ip) == []
  {
    if calls != [] {
      var before := calls[..|calls| - 1];
      var s, times := After(c, before), Accepted(c, before, ip);
      RunsSpend(c, before, ip);
      match calls[|calls| - 1] {
        case Add(ip', now) =>
          if ip' == ip && !Check(c, s, ip, now).1 && ip in Check(c, s, ip, now).0.live {
            if ip in s.live {
              SomeSpentNext(c, s.live[ip], times, now);
            } else {
              SpentFull(c, times, now);
            }
          }
        case Drop(ip') =>
      }
    }
  }

  /** The connections from the i-th on, and one more at this time, cost more than a full bucket
      and what it regains since the i-th, up to one point for each of them. */
  ghost predicate Overdrawn(c: Config, times: seq<int>, i: nat, now: int)
    requires i < |times|
  {
    COST * (|times| - i + 1) * c.connTime + (|times| - 1 - i) * c.connTime
    > c.maxRate * c.connTime + c.maxRate * (now - times[i])
  }

  ghost predicate SomeOverdrawn(c: Config, times: seq<int>, now: int) {
    exists i :: 0 <= i < |times| && Overdrawn(c, times, i, now)
  }

  /** Main result, the other half of the window: over every run, an address that is refused
      for its rate would overdraw a window of its connections. */
  lemma RefusalIsEarned(c: Config, calls: seq<Call>, ip: int, now: int)
    requires c.connTime > 0 && c.maxRate >= COST && HasRoom(c, After(c, calls), ip)
    requires Check(c, After(c, calls), ip, now).1
    ensures SomeOverdrawn(c, Accepted(c, calls, ip), now)
  {
    var s, times := After(c, calls), Accepted(c, calls, ip);
    var e := s.live[ip];
    RunsSpend(c, calls, ip);
    var i :| 0 <= i < |times| && Spent(c, e.rate, e.time, times, i);
    SpentOverdraws(c, s, ip, times, now, i);
  }

  lemma SpentOverdraws(c: Config, s: State, ip: int, times: seq<int>, now: int, i: nat)
    requires c.connTime > 0 && c.maxRate >= COST && HasRoom(c, s, ip) && Check(c, s, ip, now).1
    requires i < |times| && Spent(c, s.live[ip].rate, s.live[ip].time, times, i)
    ensures SomeOverdrawn(c, times, now)
  {
    var e := s.live[ip];
    AdmissionIsExact(c, s, ip, now);
    var t, n := c.connTime, COST * (|times| - i);
    assert t * (e.rate + n) == t * e.rate + t * n;
    assert COST * (|times| - i + 1) * t == t * n + COST * t;
    assert c.maxRate * (e.time - times[i]) + c.maxRate * (now - e.time) == c.maxRate * (now - times[i]);
    assert Overdrawn(c, times, i, now);
  }

  /** k connections at one moment. */
  function Burst(c: Config, s: State, ip: int, now: int, k: nat): State
    requires c.connTime > 0
  {
    if k == 0 then s else Check(c, Burst(c, s, ip, now, k - 1), ip, now).0
  }

  /** At one moment exactly MAX_RATE / 100 connections of a new address get in. */
  lemma {:induction false} BurstIsExact(c: Config, s: State, ip: int, now: int, k: nat)
    requires c.connTime > 0 && c.countConn == 0 && ip !in s.live && s.free > 0
    requires 1 <= k && COST * k <= c.maxRate
    ensures var s' := Burst(c, s, ip, now, k);
            && ip in s'.live && s'.live[ip] == Entry(c.maxRate - COST * k, now, k)
            && (Check(c, s', ip, now).1 <==> c.maxRate < COST * (k + 1))
  {
    if k == 1 {
      assert Burst(c, s, ip, now, 0) == s;
    } else {
      BurstIsExact(c, s, ip, now, k - 1);
    }
    var e := Entry(c.maxRate - COST * k, now, k);
    assert c.maxRate * (now - now) == 0;
  }

  // ------------------------------------------------- the gate in front of the table

  datatype Conn = Conn(ip: int, slot: int)

  /** The rate table, the open connections, the free client slots and clients_count. */
  datatype World = World(rate: State, open: seq<Conn>, slots: seq<int>, clients: int)

  datatype Event = Accept(ip: int, now: int) | Close(k: nat)

  function Without<T>(s: seq<T>, k: nat): seq<T>
    requires k < |s|
  {
    s[..k] + s[k + 1..]
  }

  /** _io_accept up to IO_NEW, and _io_close with IO_CLOSED. */
  function Step(c: Config, max: int, w: World, e: Event): World
    requires c.connTime > 0
  {
    match e
    case Accept(ip, now) =>
      if w.clients >= max then w
      else
        var (s, refused) := Check(c, w.rate, ip, now);
        if refused then w.(rate := s)
        else if w.slots == [] then w.(rate := Remove(s, ip).0)
        else World(s, w.open + [Conn(ip, w.slots[0])], w.slots[1..], w.clients + 1)
    case Close(k) =>
      if k >= |w.open| then w
      else World(Remove(w.rate, w.open[k].ip).0, Without(w.open, k), w.slots + [w.open[k].slot], w.clients - 1)
  }

  function Count(open: seq<Conn>, ip: int): nat {
    if open == [] then 0 else Count(open[..|open| - 1], ip) + if open[|open| - 1].ip == ip then 1 else 0
  }

  function Held(open: seq<Conn>): multiset<int> {
    if open == [] then multiset{} else Held(open[..|open| - 1]) + multiset{open[|open| - 1].slot}
  }

  /** The clients are numbered from two on. */
  function Numbers(n: nat): (s: seq<int>)
    ensures |s| == n
  {
    seq(n, k => k + 2)
  }

  const START := World(EMPTY, [], Numbers(SLOTS), 0)

  function Run(c: Config, max: int, events: seq<Event>): World
    requires c.connTime > 0
  {
    if events == [] then START else Step(c, max, Run(c, max, events[..|events| - 1]), events[|events| - 1])
  }

  /** A bucket for exactly the addresses with open connections, counting them; every bucket
      and every slot is in one place. */
  ghost predicate Kept(w: World) {
    && (forall ip :: ip in w.rate.live <==> Count(w.open, ip) > 0)
    && (forall ip :: ip in w.rate.live ==> w.rate.live[ip].ilosc == Count(w.open, ip))
    && |w.rate.live| + w.rate.free == HASH_SIZE
    && w.clients == |w.open|
    && Held(w.open) + multiset(w.slots) == multiset(Numbers(SLOTS))
  }

  lemma {:induction false} CountLast(open: seq<Conn>, x: Conn, ip: int)
    ensures Count(open + [x], ip) == Count(open, ip) + if x.ip == ip then 1 else 0
    ensures Held(open + [x]) == Held(open) + multiset{x.slot}
  {
    assert (open + [x])[..|open|] == open;
  }

  lemma WithoutLast<T>(s: seq<T>, k: nat)
    requires k + 1 < |s|
    ensures s[..|s| - 1][k] == s[k] && Without(s, k) == Without(s[..|s| - 1], k) + [s[|s| - 1]]
  {
    assert s[k + 1..] == s[..|s| - 1][k + 1..] + [s[|s| - 1]];
  }

  lemma {:induction false} CountWithout(open: seq<Conn>, k: nat, ip: int)
    requires k < |open|
    ensures Count(open, ip) == Count(Without(open, k), ip) + if open[k].ip == ip then 1 else 0
    ensures Held(open) == Held(Without(open, k)) + multiset{open[k].slot}
  {
    var n := |open| - 1;
    var less := open[..n];
    assert open == less + [open[n]];
    CountLast(less, open[n], ip);
    if k == n {
      assert Without(open, k) == less;
    } else {
      CountWithout(less, k, ip);
      WithoutLast(open, k);
      CountLast(Without(less, k), open[n], ip);
    }
  }

  lemma {:induction false} HeldSize(open: seq<Conn>)
    ensures |Held(open)| == |open|
  {
    if open != [] {
      HeldSize(open[..|open| - 1]);
    }
  }

  /** Addresses with open connections are no more than open connections. */
  lemma {:induction false} FewAddresses(open: seq<Conn>, ips: set<int>)
    requires forall ip :: ip in ips ==> Count(open, ip) > 0
    ensures |ips| <= |open|
  {
    if open == [] {
      forall ip
        ensures ip !in ips
      {
        assert Count(open, ip) == 0;
      }
      assert ips == {};
    } else {
      var n := |open| - 1;
      var less := open[..n];
      var others := ips - {open[n].ip};
      FewAddresses(less, others);
      if open[n].ip in ips {
        assert |others| == |ips| - 1;
      } else {
        assert others == ips;
      }
    }
  }

  lemma ClientsFit(w: World)
    requires Kept(w)
    ensures |w.open| + |w.slots| == SLOTS
    ensures |w.rate.live| <= |w.open| && HASH_SIZE - |w.open| <= w.rate.free
  {
    HeldSize(w.open);
    assert |Held(w.open) + multiset(w.slots)| == |w.open| + |w.slots|;
    FewAddresses(w.open, w.rate.live.Keys);
    assert |w.rate.live.Keys| == |w.rate.live|;
  }

  /** Main result: behind the gate neither the buckets nor the client slots run out. */
  lemma GateSuffices(w: World, max: int)
    requires Kept(w) && max <= SLOTS - 3 && w.clients < max
    ensures w.rate.free > 0 && w.slots != []
  {
    ClientsFit(w);
  }

  ghost predicate Joined(live: map<int, Entry>, live': map<int, Entry>, ip: int) {
    && live'.Keys == live.Keys + {ip}
    && live'[ip].ilosc == (if ip in live then live[ip].ilosc else 0) + 1
    && forall x :: x in live && x != ip ==> live'[x] == live[x]
  }

  lemma CheckCounts(c: Config, s: State, ip: int, now: int)
    requires c.connTime > 0 && s.free > 0 && |s.live| + s.free == HASH_SIZE
    requires forall x :: x in s.live ==> s.live[x].ilosc > 0
    ensures var (s', refused) := Check(c, s, ip, now);
            && |s'.live| + s'.free == HASH_SIZE
            && (refused ==> s' == s)
            && (!refused ==> Joined(s.live, s'.live, ip))
  {
  }

  lemma RemoveCounts(s: State, ip: int)
    requires ip in s.live && s.live[ip].ilosc > 0 && |s.live| + s.free == HASH_SIZE
    ensures var s' := Remove(s, ip).0;
            && |s'.live| + s'.free == HASH_SIZE
            && (forall x :: x in s'.live <==> x in s.live && (x == ip ==> s.live[ip].ilosc > 1))
            && (ip in s'.live ==> s'.live[ip].ilosc == s.live[ip].ilosc - 1)
            && forall x :: x in s'.live && x != ip ==> s'.live[x] == s.live[x]
  {
    if s.live[ip].ilosc <= 1 {
      assert (s.live - {ip}).Keys == s.live.Keys - {ip};
      assert |s.live.Keys - {ip}| == |s.live.Keys| - 1;
      assert |(s.live - {ip}).Keys| == |s.live - {ip}|;
      assert |s.live.Keys| == |s.live|;
    }
  }

  lemma SlotMoves(slots: seq<int>)
    requires slots != []
    ensures multiset(slots) == multiset{slots[0]} + multiset(slots[1..])
  {
    assert slots == [slots[0]] + slots[1..];
  }

  lemma JoinKeeps(w: World, s: State, ip: int)
    requires Kept(w) && Joined(w.rate.live, s.live, ip) && |s.live| + s.free == HASH_SIZE && w.slots != []
    ensures Kept(World(s, w.open + [Conn(ip, w.slots[0])], w.slots[1..], w.clients + 1))
  {
    var x := Conn(ip, w.slots[0]);
    SlotMoves(w.slots);
    forall a { CountLast(w.open, x, a); }
  }

  lemma AcceptKeeps(c: Config, max: int, w: World, ip: int, now: int)
    requires c.connTime > 0 && max <= SLOTS - 3 && Kept(w)
    ensures Kept(Step(c, max, w, Accept(ip, now)))
  {
    if w.clients < max {
      GateSuffices(w, max);
      CheckCounts(c, w.rate, ip, now);
      if !Check(c, w.rate, ip, now).1 {
        JoinKeeps(w, Check(c, w.rate, ip, now).0, ip);
      }
    }
  }

  lemma CloseKeeps(c: Config, max: int, w: World, k: nat)
    requires c.connTime > 0 && Kept(w)
    ensures Kept(Step(c, max, w, Close(k)))
  {
    if k < |w.open| {
      forall a { CountWithout(w.open, k, a); }
      RemoveCounts(w.rate, w.open[k].ip);
    }
  }

  /** Main result: under any run of accepts and closes the table counts the open connections
      of every address, and nothing is lost. */
  lemma {:induction false} RunsAreKept(c: Config, max: int, events: seq<Event>)
    requires c.connTime > 0 && max <= SLOTS - 3
    ensures Kept(Run(c, max, events))
  {
    if events == [] {
    } else {
      RunsAreKept(c, max, events[..|events| - 1]);
      match events[|events| - 1]
      case Accept(ip, now) => AcceptKeeps(c, max, Run(c, max, events[..|events| - 1]), ip, now);
      case Close(k) => CloseKeeps(c, max, Run(c, max, events[..|events| - 1]), k);
    }
  }
}
