/**
  Evicting a bucket that has not drained forgives its address: a run that shows
  it, for every table size, burst and period.
 */
module Forgiveness {
  import opened RateLimiter
  import opened BucketTable

  /** `n` requests of address 0. */
  function Spree(n: nat, now: int): seq<Request> {
    if n == 0 then [] else [Request(0, now)] + Spree(n - 1, now)
  }

  /** One request each of the addresses from `first` on, `n` of them. */
  function Crowd(first: nat, n: nat, now: int): seq<Request>
    requires first + n <= 0x1_0000_0000
    decreases n
  {
    if n == 0 then [] else [Request(first, now)] + Crowd(first + 1, n - 1, now)
  }

  function MapAfter(m: map<Ip, Level>, lim: Limits, rs: seq<Request>): map<Ip, Level>
    decreases |rs|
  {
    if rs == [] then m else MapAfter(ServeMap(m, lim, rs[0]).buckets, lim, rs[1..])
  }

  lemma {:induction false} AfterConcat(v: seq<Slot>, m: map<Ip, Level>, lim: Limits, a: seq<Request>, b: seq<Request>)
    requires |v| > 0
    ensures TableAfter(v, lim, a + b) == TableAfter(TableAfter(v, lim, a), lim, b)
    ensures MapAfter(m, lim, a + b) == MapAfter(MapAfter(m, lim, a), lim, b)
    decreases |a|
  {
    hide Serve, ServeMap;
    if a == [] {
      assert a + b == b;
    } else {
      assert (a + b)[1..] == a[1..] + b;
      AfterConcat(Serve(v, lim, a[0]).table, ServeMap(m, lim, a[0]).buckets, lim, a[1..], b);
    }
  }

  lemma {:induction false} LastVerdict(v: seq<Slot>, m: map<Ip, Level>, lim: Limits, a: seq<Request>, q: Request)
    requires |v| > 0
    ensures TableDrops(v, lim, a + [q])[|a|] == Serve(TableAfter(v, lim, a), lim, q).drop
    ensures MapDrops(m, lim, a + [q])[|a|] == ServeMap(MapAfter(m, lim, a), lim, q).drop
    decreases |a|
  {
    hide Serve, ServeMap;
    if a == [] {
      assert a + [q] == [q];
    } else {
      assert (a + [q])[1..] == a[1..] + [q];
      LastVerdict(Serve(v, lim, a[0]).table, ServeMap(m, lim, a[0]).buckets, lim, a[1..], q);
    }
  }

  // ------------------------------------------------------------------
  // The table along the run
  // ------------------------------------------------------------------

  /** Address 0 with `b` requests behind it, then `j - 1` others with one each. */
  function Filled(n: nat, b: int, j: nat, now: int): (v: seq<Slot>)
    ensures |v| == n
  {
    seq(n, i requires 0 <= i < n =>
      if i >= j || i >= 0x1_0000_0000 then Slot(false, 0, EMPTY)
      else Slot(true, i, Level(if i == 0 then b else 1, now)))
  }

  lemma FirstCall(lim: Limits, now: int)
    requires Proper(lim) && now >= lim.period
    ensures Call(EMPTY, lim.maxBurst, lim.period, now) == Outcome(Level(1, now), false)
  {
    EuclidBounds(now, lim.period);
    if now / lim.period <= 0 { MulMono(now / lim.period, 0, lim.period); }
  }

  lemma NextCall(b: int, lim: Limits, now: int)
    requires Proper(lim) && 0 < b <= lim.maxBurst
    ensures Call(Level(b, now), lim.maxBurst, lim.period, now)
            == if b < lim.maxBurst then Outcome(Level(b + 1, now), false) else Outcome(Level(b, now), true)
  {
    SmallQuotient(0, lim.period);
  }

  /** The spree fills the bucket of address 0, in the table and privately. */
  lemma {:induction false} SpreeFills(n: nat, m: map<Ip, Level>, b: nat, more: nat, lim: Limits, now: int)
    requires n > 0 && Proper(lim) && 0 < b && b + more <= lim.maxBurst && Private(m, 0) == Level(b, now)
    ensures TableAfter(Filled(n, b, 1, now), lim, Spree(more, now)) == Filled(n, b + more, 1, now)
    ensures Private(MapAfter(m, lim, Spree(more, now)), 0) == Level(b + more, now)
    decreases more
  {
    hide Call;
    if more > 0 {
      var v, r := Filled(n, b, 1, now), Request(0, now);
      NextCall(b, lim, now);
      assert Pick(v, 0) == 0;
      assert Serve(v, lim, r).table == Filled(n, b + 1, 1, now);
      assert Spree(more, now)[0] == r && Spree(more, now)[1..] == Spree(more - 1, now);
      SpreeFills(n, ServeMap(m, lim, r).buckets, b + 1, more - 1, lim, now);
    }
  }

  lemma {:induction false} SpreeFromEmpty(n: nat, lim: Limits, now: int)
    requires n > 0 && Proper(lim) && now >= lim.period
    ensures TableAfter(Unused(n), lim, Spree(lim.maxBurst, now)) == Filled(n, lim.maxBurst, 1, now)
    ensures Private(MapAfter(map[], lim, Spree(lim.maxBurst, now)), 0) == Level(lim.maxBurst, now)
  {
    hide Call;
    var v, r, rest := Unused(n), Request(0, now), Spree(lim.maxBurst - 1, now);
    FirstCall(lim, now);
    assert Pick(v, 0) == 0;
    assert Serve(v, lim, r).table == Filled(n, 1, 1, now);
    assert Spree(lim.maxBurst, now)[0] == r && Spree(lim.maxBurst, now)[1..] == rest;
    SpreeFills(n, ServeMap(map[], lim, r).buckets, 1, lim.maxBurst - 1, lim, now);
  }

  lemma NextFree(n: nat, b: int, j: nat, now: int)
    requires 0 < j < n < 0x1_0000_0000
    ensures Pick(Filled(n, b, j, now), j) == j
  {
    var v := Filled(n, b, j, now);
    PickMeaning(v, j);
    assert !v[j].used;
  }

  lemma CrowdStep(n: nat, b: int, j: nat, lim: Limits, now: int)
    requires 0 < j < n < 0x1_0000_0000 && Proper(lim) && now >= lim.period
    ensures Serve(Filled(n, b, j, now), lim, Request(j, now)).table == Filled(n, b, j + 1, now)
  {
    hide Call, PickFrom, Pick;
    NextFree(n, b, j, now);
    FirstCall(lim, now);
  }

  /** The crowd takes the free slots in order. */
  lemma {:induction false} CrowdFills(n: nat, m: map<Ip, Level>, b: nat, j: nat, lim: Limits, now: int)
    requires 0 < j <= n < 0x1_0000_0000 && Proper(lim) && now >= lim.period
    ensures TableAfter(Filled(n, b, j, now), lim, Crowd(j, n - j, now)) == Filled(n, b, n, now)
    ensures Private(MapAfter(m, lim, Crowd(j, n - j, now)), 0) == Private(m, 0)
    decreases n - j
  {
    hide Call, Serve, Filled;
    if j < n {
      var r, rest := Request(j, now), Crowd(j + 1, n - j - 1, now);
      CrowdStep(n, b, j, lim, now);
      assert Crowd(j, n - j, now)[0] == r && Crowd(j, n - j, now)[1..] == rest;
      CrowdFills(n, ServeMap(m, lim, r).buckets, b, j + 1, lim, now);
    }
  }

  /** Of equally old buckets the first is evicted. */
  lemma {:induction false} FirstIsEvicted(v: seq<Slot>, ip: Ip, i: nat, victim: int)
    requires i <= |v| && -1 <= victim <= 0 && victim < i && |v| > 0 && (i > 0 ==> victim == 0)
    requires forall j | 0 <= j < |v| :: v[j].used && v[j].ipi != ip && v[j].level.last == v[0].level.last
    ensures PickFrom(v, ip, i, victim) == 0
    decreases |v| - i
  {
    if i < |v| {
      FirstIsEvicted(v, ip, i + 1, if victim < 0 then i else victim);
    }
  }

  /** A newcomer to a full table takes the first slot, and is served. */
  lemma NewcomerServed(v: seq<Slot>, ip: Ip, lim: Limits, now: int)
    requires |v| > 0 && Proper(lim) && now >= lim.period
    requires forall j | 0 <= j < |v| :: v[j].used && v[j].ipi != ip && v[j].level.last == now
    ensures Serve(v, lim, Request(ip, now)) == TableOutcome(v[0 := Slot(true, ip, Level(1, now))], false)
  {
    hide Call;
    FirstIsEvicted(v, ip, 0, -1);
    FirstCall(lim, now);
  }

  // ------------------------------------------------------------------
  // The run
  // ------------------------------------------------------------------

  /** Address 0 uses up its burst, as many others as there are slots ask once. */
  function Before(n: nat, lim: Limits, now: int): seq<Request>
    requires lim.maxBurst >= 0 && n < 0x1_0000_0000
  {
    Spree(lim.maxBurst, now) + Crowd(1, n, now)
  }

  lemma {:induction false} CrowdLast(first: nat, n: nat, now: int)
    requires first + n + 1 <= 0x1_0000_0000
    ensures Crowd(first, n + 1, now) == Crowd(first, n, now) + [Request(first + n, now)]
    decreases n
  {
    if n > 0 {
      CrowdLast(first + 1, n - 1, now);
    }
  }

  /** Whatever the size of the table, the burst and the period: if an address uses
      up its burst and as many others as the table has slots ask in the same
      millisecond, the table serves the address again.  A private bucket would not. */
  lemma {:induction false} EvictionForgives(n: nat, lim: Limits, now: int)
    requires 0 < n < 0x1_0000_0000 && Proper(lim) && now >= lim.period
    ensures var before := Before(n, lim, now);
            && !TableDrops(Unused(n), lim, before + [Request(0, now)])[|before|]
            && MapDrops(map[], lim, before + [Request(0, now)])[|before|]
  {
    hide Call, Filled, Serve, TableAfter, MapAfter, Crowd, Spree;
    var q, newcomer := Request(0, now), Request(n, now);
    var spree, crowd := Spree(lim.maxBurst, now), Crowd(1, n - 1, now);
    var m := MapAfter(map[], lim, spree);
    SpreeFromEmpty(n, lim, now);
    CrowdFills(n, m, lim.maxBurst, 1, lim, now);
    CrowdLast(1, n - 1, now);
    AfterConcat(Unused(n), map[], lim, spree, crowd + [newcomer]);
    AfterConcat(Filled(n, lim.maxBurst, 1, now), m, lim, crowd, [newcomer]);
    FullTable(n, MapAfter(m, lim, crowd), lim, now);
    LastVerdict(Unused(n), map[], lim, Before(n, lim, now), q);
  }

  lemma {:induction false} FullTable(n: nat, m: map<Ip, Level>, lim: Limits, now: int)
    requires 0 < n < 0x1_0000_0000 && Proper(lim) && now >= lim.period
    requires Private(m, 0) == Level(lim.maxBurst, now)
    ensures var v := TableAfter(Filled(n, lim.maxBurst, n, now), lim, [Request(n, now)]);
            !Serve(v, lim, Request(0, now)).drop
    ensures ServeMap(MapAfter(m, lim, [Request(n, now)]), lim, Request(0, now)).drop
  {
    hide Call, Serve;
    var v0 := Filled(n, lim.maxBurst, n, now);
    NewcomerServed(v0, n, lim, now);
    var v1 := v0[0 := Slot(true, n, Level(1, now))];
    assert [Request(n, now)][1..] == [];
    assert TableAfter(v0, lim, [Request(n, now)]) == v1;
    NewcomerServed(v1, 0, lim, now);
    assert MapAfter(m, lim, [Request(n, now)]) == ServeMap(m, lim, Request(n, now)).buckets;
    NextCall(lim.maxBurst, lim, now);
  }
}
