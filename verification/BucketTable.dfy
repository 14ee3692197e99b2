/**
  The fixed-size table of per-address buckets (`BucketFor`), updated in place: what
  every request keeps, who is evicted, and what one address can count on.  The
  unbounded table it stands in for is specified here and compared in `Evictions`.
 */
module BucketTable {
  import opened RateLimiter

  /** An IPv4 address, as the 32-bit word the engine stores. */
  type Ip = x: int | 0 <= x < 0x1_0000_0000

  /** The value of one `oob_bucket_t`. */
  datatype Slot = Slot(used: bool, ipi: Ip, level: Level)

  const EMPTY: Level := Level(0, 0)

  class Bucket {
    var ipi: Ip
    var lastTime: int
    var burst: int
    var used: bool

    /** Static storage and `memset` both start a bucket at zero. */
    constructor ()
      ensures View() == Slot(false, 0, EMPTY)
    {
      ipi, lastTime, burst, used := 0, 0, 0, false;
    }

    function View(): Slot
      reads this
    {
      Slot(used, ipi, Level(burst, lastTime))
    }

    method Clear()
      modifies this
      ensures View() == Slot(false, 0, EMPTY)
    {
      ipi, lastTime, burst, used := 0, 0, 0, false;
    }
  }

  /** `OOB_RateLimit`; the result true means over the limit. */
  method RateLimit(b: Bucket?, maxBurst: int, period: int, now: int) returns (drop: bool)
    modifies b
    ensures b == null ==> !drop
    ensures b != null ==>
              var o := Call(old(b.View()).level, maxBurst, period, now);
              b.View() == old(b.View()).(level := o.level) && drop == o.drop
  {
    if b == null || period <= 0 || maxBurst <= 0 {
      return false;
    }
    var interval := now - b.lastTime;
    var expired := TruncDiv(interval, period);
    var expiredRemainder := TruncMod(interval, period);
    if expired > b.burst || interval < 0 {
      b.burst := 0;
      b.lastTime := now;
    } else {
      b.burst := b.burst - expired;
      b.lastTime := now - expiredRemainder;
    }
    if b.burst < maxBurst {
      b.burst := b.burst + 1;
      return false;
    }
    return true;
  }

  // ------------------------------------------------------------------
  // Choosing a bucket
  // ------------------------------------------------------------------

  function Views(t: seq<Bucket>): (v: seq<Slot>)
    reads t
    ensures |v| == |t|
    ensures forall i | 0 <= i < |t| :: v[i] == t[i].View()
  {
    seq(|t|, i requires 0 <= i < |t| reads t => t[i].View())
  }

  /** The array cells are separate structs. */
  ghost predicate Separate(t: seq<Bucket>) {
    forall i, j | 0 <= i < j < |t| :: t[i] != t[j]
  }

  predicate Holds(s: Slot, ip: Ip) {
    s.used && s.ipi == ip
  }

  /** A table nobody has used yet. */
  function Unused(n: nat): (v: seq<Slot>)
    ensures |v| == n && forall k | 0 <= k < n :: v[k] == Slot(false, 0, EMPTY)
  {
    seq(n, i => Slot(false, 0, EMPTY))
  }

  /** The scan from cell `i`, with the oldest cell seen so far (or -1). */
  function PickFrom(v: seq<Slot>, ip: Ip, i: nat, victim: int): (k: nat)
    requires i <= |v| && -1 <= victim < i && |v| > 0
    ensures k < |v|
    decreases |v| - i
  {
    if i == |v| then (if victim < 0 then 0 else victim)
    else if !v[i].used || v[i].ipi == ip then i
    else PickFrom(v, ip, i + 1, if victim < 0 || v[i].level.last < v[victim].level.last then i else victim)
  }

  function Pick(v: seq<Slot>, ip: Ip): (k: nat)
    requires |v| > 0
    ensures k < |v|
  {
    PickFrom(v, ip, 0, -1)
  }

  /** The table after `BucketFor`. */
  function Claim(v: seq<Slot>, ip: Ip): (r: seq<Slot>)
    requires |v| > 0
    ensures |r| == |v| && Holds(r[Pick(v, ip)], ip)
  {
    var k := Pick(v, ip);
    if Holds(v[k], ip) then v else v[k := Slot(true, ip, EMPTY)]
  }

  method BucketFor(t: array<Bucket>, ipi: Ip) returns (b: Bucket, ghost k: nat)
    requires t.Length > 0 && Separate(t[..])
    modifies t[..]
    ensures k == Pick(old(Views(t[..])), ipi) && b == t[k]
    ensures Views(t[..]) == Claim(old(Views(t[..])), ipi)
  {
    ghost var v := Views(t[..]);
    var i, victim := 0, -1;
    while i < t.Length
      invariant 0 <= i <= t.Length && -1 <= victim < i
      invariant Pick(v, ipi) == PickFrom(v, ipi, i, victim)
      invariant Views(t[..]) == v
      invariant forall j | 0 <= j < i :: v[j].used && v[j].ipi != ipi
    {
      if t[i].used {
        if t[i].ipi == ipi {
          return t[i], i;
        }
        if victim < 0 || t[i].lastTime < t[victim].lastTime {
          victim := i;
        }
      } else {
        victim := i; // nobody is evicted while a slot is free
        break;
      }
      i := i + 1;
    }
    if victim < 0 {
      victim := 0;
    }
    assert victim == Pick(v, ipi) && !Holds(v[victim], ipi);
    k := victim;
    b := t[victim];
    b.Clear();
    b.ipi := ipi;
    b.used := true;
    assert forall j | 0 <= j < t.Length && j != victim :: t[j].View() == v[j];
  }

  // ------------------------------------------------------------------
  // What the scan finds
  // ------------------------------------------------------------------

  predicate Known(v: seq<Slot>, ip: Ip) {
    exists k | 0 <= k < |v| :: Holds(v[k], ip)
  }

  predicate Full(v: seq<Slot>) {
    forall k | 0 <= k < |v| :: v[k].used
  }

  /** Slots fill from the front and no address has two of them. */
  predicate WellFormed(v: seq<Slot>) {
    && (forall i, j | 0 <= i < j < |v| :: v[j].used ==> v[i].used)
    && (forall i, j | 0 <= i < j < |v| && v[i].used && v[j].used :: v[i].ipi != v[j].ipi)
  }

  lemma {:induction false} PickFromMeaning(v: seq<Slot>, ip: Ip, i: nat, victim: int)
    requires i <= |v| && -1 <= victim < i && |v| > 0
    requires forall j | 0 <= j < i :: v[j].used && v[j].ipi != ip
    requires i > 0 ==> victim >= 0
    requires forall j | 0 <= j < i :: v[victim].level.last <= v[j].level.last
    ensures var k := PickFrom(v, ip, i, victim);
            && (Holds(v[k], ip) || !v[k].used || (!Known(v, ip) && Full(v)))
            && (forall j | 0 <= j < k && (Holds(v[k], ip) || !v[k].used) :: v[j].used && v[j].ipi != ip)
            && (!Holds(v[k], ip) && v[k].used ==>
                  forall j | 0 <= j < |v| :: v[k].level.last <= v[j].level.last)
    decreases |v| - i
  {
    if i < |v| && v[i].used && v[i].ipi != ip {
      PickFromMeaning(v, ip, i + 1, if victim < 0 || v[i].level.last < v[victim].level.last then i else victim);
    }
  }

  /** In a well-formed table the scan returns the address's own bucket if it has
      one, else the first free slot, else a bucket whose stamp is the oldest. */
  lemma PickMeaning(v: seq<Slot>, ip: Ip)
    requires |v| > 0 && WellFormed(v)
    ensures var k := Pick(v, ip);
            && (Known(v, ip) <==> Holds(v[k], ip))
            && (!Known(v, ip) && !Full(v) ==> !v[k].used && forall j | 0 <= j < k :: v[j].used)
            && (!Known(v, ip) && Full(v) ==> forall j | 0 <= j < |v| :: v[k].level.last <= v[j].level.last)
  {
    PickFromMeaning(v, ip, 0, -1);
  }

  // ------------------------------------------------------------------
  // Requests
  // ------------------------------------------------------------------

  datatype Request = Request(ip: Ip, now: int)

  datatype Limits = Limits(maxBurst: int, period: int)

  predicate Proper(lim: Limits) { lim.maxBurst > 0 && lim.period > 0 }

  datatype TableOutcome = TableOutcome(table: seq<Slot>, drop: bool)

  /** `BucketFor` followed by `OOB_RateLimit` on the bucket it returns. */
  function Serve(v: seq<Slot>, lim: Limits, r: Request): (o: TableOutcome)
    requires |v| > 0
    ensures |o.table| == |v|
  {
    var k := Pick(v, r.ip);
    var s := Claim(v, r.ip)[k];
    var c := Call(s.level, lim.maxBurst, lim.period, r.now);
    TableOutcome(Claim(v, r.ip)[k := s.(level := c.level)], c.drop)
  }

  /** The same request against one private bucket per address. */
  function Private(m: map<Ip, Level>, ip: Ip): Level {
    if ip in m then m[ip] else EMPTY
  }

  datatype MapOutcome = MapOutcome(buckets: map<Ip, Level>, drop: bool)

  function ServeMap(m: map<Ip, Level>, lim: Limits, r: Request): MapOutcome {
    var c := Call(Private(m, r.ip), lim.maxBurst, lim.period, r.now);
    MapOutcome(m[r.ip := c.level], c.drop)
  }

  function TableAfter(v: seq<Slot>, lim: Limits, rs: seq<Request>): (r: seq<Slot>)
    requires |v| > 0
    ensures |r| == |v|
    decreases |rs|
  {
    if rs == [] then v else TableAfter(Serve(v, lim, rs[0]).table, lim, rs[1..])
  }

  function TableDrops(v: seq<Slot>, lim: Limits, rs: seq<Request>): (r: seq<bool>)
    requires |v| > 0
    ensures |r| == |rs|
    decreases |rs|
  {
    if rs == [] then []
    else
      var o := Serve(v, lim, rs[0]);
      [o.drop] + TableDrops(o.table, lim, rs[1..])
  }

  function MapDrops(m: map<Ip, Level>, lim: Limits, rs: seq<Request>): (r: seq<bool>)
    ensures |r| == |rs|
    decreases |rs|
  {
    if rs == [] then []
    else
      var o := ServeMap(m, lim, rs[0]);
      [o.drop] + MapDrops(o.buckets, lim, rs[1..])
  }

  predicate InOrder(rs: seq<Request>, since: int) {
    && (rs != [] ==> since <= rs[0].now)
    && (forall i, j | 0 <= i < j < |rs| :: rs[i].now <= rs[j].now)
  }

  lemma ServeShape(v: seq<Slot>, lim: Limits, r: Request)
    requires |v| > 0 && WellFormed(v)
    ensures var o := Serve(v, lim, r); var k := Pick(v, r.ip);
            && WellFormed(o.table)
            && Holds(o.table[k], r.ip)
            && (forall j | 0 <= j < |v| && j != k :: o.table[j] == v[j])
            && (forall j | 0 <= j < |v| && Holds(o.table[j], r.ip) :: j == k)
  {
    PickMeaning(v, r.ip);
  }

  /** Every reachable table is well-formed: a run of requests keeps it so, and
      each request changes at most the slot the scan returned. */
  lemma {:induction false} TableStaysWellFormed(v: seq<Slot>, lim: Limits, rs: seq<Request>)
    requires |v| > 0 && WellFormed(v)
    ensures WellFormed(TableAfter(v, lim, rs))
    decreases |rs|
  {
    if rs != [] {
      ServeShape(v, lim, rs[0]);
      TableStaysWellFormed(Serve(v, lim, rs[0]).table, lim, rs[1..]);
    }
  }

  /** Claiming a slot for `ip` would throw out another address. */
  predicate Evicts(v: seq<Slot>, ip: Ip)
    requires |v| > 0
  {
    var k := Pick(v, ip);
    v[k].used && v[k].ipi != ip
  }

  // ------------------------------------------------------------------
  // One address at a time
  // ------------------------------------------------------------------

  /** When `ip` asked. */
  function Times(rs: seq<Request>, ip: Ip): seq<int> {
    if rs == [] then []
    else (if rs[0].ip == ip then [rs[0].now] else []) + Times(rs[1..], ip)
  }

  /** What `ip` was told. */
  function Told(rs: seq<Request>, drops: seq<bool>, ip: Ip): seq<bool>
    requires |rs| == |drops|
  {
    if rs == [] then []
    else (if rs[0].ip == ip then [drops[0]] else []) + Told(rs[1..], drops[1..], ip)
  }

  /** Increasing times between two moments. */
  predicate Between(ts: seq<int>, since: int, until: int) {
    Sorted(ts) && forall i | 0 <= i < |ts| :: since <= ts[i] <= until
  }

  lemma BetweenCons(t: int, ts: seq<int>, since: int, until: int)
    requires since <= t <= until && Between(ts, t, until)
    ensures Between([t] + ts, since, until) && Between(ts, since, until)
  {
    var all := [t] + ts;
    forall i, j | 0 <= i < j < |all| ensures all[i] <= all[j] {
      if i > 0 { assert ts[i - 1] <= ts[j - 1]; }
    }
  }

  lemma {:induction false} TimesInOrder(rs: seq<Request>, ip: Ip, since: int, until: int)
    requires InOrder(rs, since) && forall i | 0 <= i < |rs| :: rs[i].now <= until
    ensures Between(Times(rs, ip), since, until)
  {
    if rs != [] {
      TimesInOrder(rs[1..], ip, rs[0].now, until);
      BetweenCons(rs[0].now, Times(rs[1..], ip), since, until);
      assert Times(rs, ip) == if rs[0].ip == ip then [rs[0].now] + Times(rs[1..], ip) else Times(rs[1..], ip);
    }
  }

  /** With private buckets, an address's verdicts depend on its own requests only. */
  lemma {:induction false} PrivateBucketsAreIndependent(m: map<Ip, Level>, lim: Limits, rs: seq<Request>, ip: Ip)
    ensures Told(rs, MapDrops(m, lim, rs), ip)
            == Drops(Private(m, ip), lim.maxBurst, lim.period, Times(rs, ip))
    decreases |rs|
  {
    if rs != [] {
      var o := ServeMap(m, lim, rs[0]);
      var drops := MapDrops(m, lim, rs);
      assert drops[0] == o.drop && drops[1..] == MapDrops(o.buckets, lim, rs[1..]);
      PrivateBucketsAreIndependent(o.buckets, lim, rs[1..], ip);
      if rs[0].ip == ip {
        DropsStep(Private(m, ip), lim, rs[0].now, Times(rs[1..], ip));
      } else {
        assert Private(o.buckets, ip) == Private(m, ip);
        assert Times(rs, ip) == Times(rs[1..], ip);
        assert Told(rs, drops, ip) == Told(rs[1..], drops[1..], ip);
      }
    }
  }

  /** The run never throws out the bucket of `ip`. */
  predicate Keeps(v: seq<Slot>, lim: Limits, rs: seq<Request>, ip: Ip)
    requires |v| > 0
    decreases |rs|
  {
    rs != [] ==>
    && !(Evicts(v, rs[0].ip) && v[Pick(v, rs[0].ip)].ipi == ip)
    && Keeps(Serve(v, lim, rs[0]).table, lim, rs[1..], ip)
  }

  /** The bucket of `ip`, or the empty one it would be given. */
  function LevelOf(v: seq<Slot>, ip: Ip): Level
    requires |v| > 0
  {
    var k := Pick(v, ip);
    if Holds(v[k], ip) then v[k].level else EMPTY
  }

  /** Peeling the first call off a private run. */
  lemma {:induction false} DropsStep(l: Level, lim: Limits, t: int, rest: seq<int>)
    ensures var o := Call(l, lim.maxBurst, lim.period, t);
            Drops(l, lim.maxBurst, lim.period, [t] + rest)
              == [o.drop] + Drops(o.level, lim.maxBurst, lim.period, rest)
  {
    assert ([t] + rest)[1..] == rest;
  }

  lemma ServeOthers(v: seq<Slot>, lim: Limits, r: Request, ip: Ip)
    requires |v| > 0 && WellFormed(v) && r.ip != ip
    requires !(Evicts(v, r.ip) && v[Pick(v, r.ip)].ipi == ip)
    ensures LevelOf(Serve(v, lim, r).table, ip) == LevelOf(v, ip)
  {
    var w := Serve(v, lim, r).table;
    ServeShape(v, lim, r);
    PickMeaning(v, r.ip);
    PickMeaning(v, ip);
    PickMeaning(w, ip);
    if Known(v, ip) {
      var j := Pick(v, ip);
      assert Holds(v[j], ip) && j != Pick(v, r.ip);
      assert Holds(w[j], ip);
    }
  }

  lemma ServeOwn(v: seq<Slot>, lim: Limits, r: Request)
    requires |v| > 0 && WellFormed(v)
    ensures var o := Serve(v, lim, r); var c := Call(LevelOf(v, r.ip), lim.maxBurst, lim.period, r.now);
            o.drop == c.drop && LevelOf(o.table, r.ip) == c.level
  {
    ServeShape(v, lim, r);
    PickMeaning(v, r.ip);
    PickMeaning(Serve(v, lim, r).table, r.ip);
  }

  /** The same holds in the bounded table for an address that is not evicted:
      nothing other addresses do changes what it is told. */
  lemma {:induction false} KeptBucketIsIndependent(v: seq<Slot>, lim: Limits, rs: seq<Request>, ip: Ip)
    requires |v| > 0 && WellFormed(v) && Keeps(v, lim, rs, ip)
    ensures Told(rs, TableDrops(v, lim, rs), ip)
            == Drops(LevelOf(v, ip), lim.maxBurst, lim.period, Times(rs, ip))
    decreases |rs|
  {
    if rs != [] {
      var o := Serve(v, lim, rs[0]);
      var drops := TableDrops(v, lim, rs);
      assert drops[0] == o.drop && drops[1..] == TableDrops(o.table, lim, rs[1..]);
      ServeShape(v, lim, rs[0]);
      KeptBucketIsIndependent(o.table, lim, rs[1..], ip);
      if rs[0].ip == ip {
        ServeOwn(v, lim, rs[0]);
        DropsStep(LevelOf(v, ip), lim, rs[0].now, Times(rs[1..], ip));
      } else {
        ServeOthers(v, lim, rs[0], ip);
        assert Times(rs, ip) == Times(rs[1..], ip);
        assert Told(rs, drops, ip) == Told(rs[1..], drops[1..], ip);
      }
    }
  }

  /** So one address gets at most its burst plus one request a period. */
  lemma {:induction false} AddressBound(v: seq<Slot>, lim: Limits, rs: seq<Request>, ip: Ip, since: int, span: nat)
    requires |v| > 0 && WellFormed(v) && Proper(lim) && Keeps(v, lim, rs, ip)
    requires InOrder(rs, since) && (rs != [] ==> rs[|rs| - 1].now - since <= span)
    ensures Accepted(Told(rs, TableDrops(v, lim, rs), ip)) <= lim.maxBurst + CeilDiv(span, lim.period)
  {
    KeptBucketIsIndependent(v, lim, rs, ip);
    TimesInOrder(rs, ip, since, since + span);
    SpanBound(LevelOf(v, ip), lim.maxBurst, lim.period, Times(rs, ip), span);
  }

  // ------------------------------------------------------------------
  // No eviction while the addresses fit
  // ------------------------------------------------------------------

  function Owners(v: seq<Slot>): set<Ip> {
    set k | 0 <= k < |v| && v[k].used :: v[k].ipi
  }

  lemma {:induction false} FullTableOwners(v: seq<Slot>)
    requires WellFormed(v) && Full(v)
    ensures |Owners(v)| == |v|
  {
    if v != [] {
      var n := |v| - 1;
      FullTableOwners(v[..n]);
      assert Owners(v) == Owners(v[..n]) + {v[n].ipi};
      assert v[n].ipi !in Owners(v[..n]);
    }
  }

  lemma SubsetSize<T>(a: set<T>, b: set<T>)
    requires a <= b
    ensures |a| <= |b|
    ensures a != b ==> |a| < |b|
  {
    assert b == a + (b - a);
  }

  /** A table with room for every address in play evicts nobody. */
  lemma {:induction false} FewAddressesNeverEvict(v: seq<Slot>, lim: Limits, rs: seq<Request>, ips: set<Ip>)
    requires |v| > 0 && WellFormed(v) && |ips| <= |v| && Owners(v) <= ips
    requires forall i | 0 <= i < |rs| :: rs[i].ip in ips
    ensures forall ip :: Keeps(v, lim, rs, ip)
    decreases |rs|
  {
    if rs != [] {
      PickMeaning(v, rs[0].ip);
      if Evicts(v, rs[0].ip) {
        FullTableOwners(v);
        assert rs[0].ip !in Owners(v);
        SubsetSize(Owners(v), ips);
      }
      ServeShape(v, lim, rs[0]);
      FewAddressesNeverEvict(Serve(v, lim, rs[0]).table, lim, rs[1..], ips);
    }
  }

  // ------------------------------------------------------------------
  // Nobody is starved
  // ------------------------------------------------------------------

  /** No bucket is over its burst. */
  predicate WithinBurst(v: seq<Slot>, maxBurst: int) {
    forall k | 0 <= k < |v| && v[k].used :: v[k].level.burst <= maxBurst
  }

  lemma CallWithinBurst(l: Level, lim: Limits, now: int)
    requires Proper(lim) && l.burst <= lim.maxBurst
    ensures Call(l, lim.maxBurst, lim.period, now).level.burst <= lim.maxBurst
  {
    if l.last <= now { EuclidBounds(now - l.last, lim.period); }
  }

  lemma ServeWithinBurst(v: seq<Slot>, lim: Limits, r: Request)
    requires |v| > 0 && Proper(lim) && WithinBurst(v, lim.maxBurst)
    ensures WithinBurst(Serve(v, lim, r).table, lim.maxBurst)
  {
    CallWithinBurst(Claim(v, r.ip)[Pick(v, r.ip)].level, lim, r.now);
  }

  lemma {:induction false} RunWithinBurst(v: seq<Slot>, lim: Limits, rs: seq<Request>)
    requires |v| > 0 && Proper(lim) && WithinBurst(v, lim.maxBurst)
    ensures WithinBurst(TableAfter(v, lim, rs), lim.maxBurst)
    decreases |rs|
  {
    hide Serve;
    if rs != [] {
      ServeWithinBurst(v, lim, rs[0]);
      RunWithinBurst(Serve(v, lim, rs[0]).table, lim, rs[1..]);
    }
  }

  /** Every bucket in use has been asked for, is not over its burst and carries a
      stamp from the past. */
  predicate BusyInRange(v: seq<Slot>, lim: Limits, now: int) {
    forall k | 0 <= k < |v| && v[k].used ::
      0 < v[k].level.burst && InRange(v[k].level, lim.maxBurst, now)
  }

  lemma CallIsBusy(l: Level, lim: Limits, now: int)
    requires Proper(lim) && InRange(l, lim.maxBurst, now)
    ensures var l' := Call(l, lim.maxBurst, lim.period, now).level;
            0 < l'.burst && InRange(l', lim.maxBurst, now)
  {
    EuclidBounds(now - l.last, lim.period);
  }

  lemma ServeInRange(v: seq<Slot>, lim: Limits, r: Request, since: int)
    requires |v| > 0 && Proper(lim) && 0 <= since <= r.now && BusyInRange(v, lim, since)
    ensures BusyInRange(Serve(v, lim, r).table, lim, r.now)
  {
    CallIsBusy(Claim(v, r.ip)[Pick(v, r.ip)].level, lim, r.now);
  }

  /** In every reachable table every bucket in use is in range and not empty. */
  lemma {:induction false} TableStaysInRange(v: seq<Slot>, lim: Limits, rs: seq<Request>, since: int, until: int)
    requires |v| > 0 && Proper(lim) && 0 <= since <= until && BusyInRange(v, lim, since)
    requires InOrder(rs, since) && forall i | 0 <= i < |rs| :: rs[i].now <= until
    ensures BusyInRange(TableAfter(v, lim, rs), lim, until)
    decreases |rs|
  {
    hide Serve;
    if rs != [] {
      ServeInRange(v, lim, rs[0], since);
      TableStaysInRange(Serve(v, lim, rs[0]).table, lim, rs[1..], rs[0].now, until);
    }
  }

  /** Requests of others leave an address its bucket, or cost it the bucket. */
  lemma {:induction false} OthersKeepOrEvict(v: seq<Slot>, lim: Limits, rs: seq<Request>, ip: Ip)
    requires |v| > 0 && WellFormed(v) && forall i | 0 <= i < |rs| :: rs[i].ip != ip
    ensures var w := TableAfter(v, lim, rs);
            WellFormed(w) && (LevelOf(w, ip) == LevelOf(v, ip) || LevelOf(w, ip) == EMPTY)
    decreases |rs|
  {
    if rs != [] {
      var w := Serve(v, lim, rs[0]).table;
      ServeShape(v, lim, rs[0]);
      if Evicts(v, rs[0].ip) && v[Pick(v, rs[0].ip)].ipi == ip {
        EvictedIsGone(v, lim, rs[0], ip);
      } else {
        ServeOthers(v, lim, rs[0], ip);
      }
      OthersKeepOrEvict(w, lim, rs[1..], ip);
    }
  }

  lemma EvictedIsGone(v: seq<Slot>, lim: Limits, r: Request, ip: Ip)
    requires |v| > 0 && WellFormed(v) && r.ip != ip
    requires Evicts(v, r.ip) && v[Pick(v, r.ip)].ipi == ip
    ensures LevelOf(Serve(v, lim, r).table, ip) == EMPTY
  {
    ServeShape(v, lim, r);
    PickMeaning(Serve(v, lim, r).table, ip);
  }

  /** An address that stays silent for one period is served the next time it asks,
      whatever became of its last request and whatever others did meanwhile. */
  lemma {:induction false} SilenceIsRewarded(v: seq<Slot>, lim: Limits, r: Request, others: seq<Request>, now: int)
    requires |v| > 0 && Proper(lim) && WellFormed(v) && WithinBurst(v, lim.maxBurst)
    requires forall i | 0 <= i < |others| :: others[i].ip != r.ip
    requires now - r.now >= lim.period
    ensures !Serve(TableAfter(Serve(v, lim, r).table, lim, others), lim, Request(r.ip, now)).drop
  {
    var v1 := Serve(v, lim, r).table;
    ServeShape(v, lim, r);
    ServeOwn(v, lim, r);
    OthersKeepOrEvict(v1, lim, others, r.ip);
    ServeOwn(TableAfter(v1, lim, others), lim, Request(r.ip, now));
    PickMeaning(v, r.ip);
    PatienceIsAccepted(LevelOf(v, r.ip), lim.maxBurst, lim.period, r.now, now);
    EmptyAccepts(lim, now);
  }

  /** In particular at any point of any run from start-up. */
  lemma {:induction false} SilenceIsRewardedInRuns(v: seq<Slot>, lim: Limits, before: seq<Request>, r: Request,
                                                   others: seq<Request>, now: int)
    requires |v| > 0 && Proper(lim) && forall k | 0 <= k < |v| :: !v[k].used
    requires forall i | 0 <= i < |others| :: others[i].ip != r.ip
    requires now - r.now >= lim.period
    ensures var w := TableAfter(v, lim, before);
            !Serve(TableAfter(Serve(w, lim, r).table, lim, others), lim, Request(r.ip, now)).drop
  {
    hide Serve, TableAfter;
    RunWithinBurst(v, lim, before);
    TableStaysWellFormed(v, lim, before);
    SilenceIsRewarded(TableAfter(v, lim, before), lim, r, others, now);
  }

  lemma EmptyAccepts(lim: Limits, now: int)
    requires Proper(lim)
    ensures !Call(EMPTY, lim.maxBurst, lim.period, now).drop
  {
    if now >= 0 { EuclidBounds(now, lim.period); }
  }

  // ------------------------------------------------------------------
  // Who is evicted
  // ------------------------------------------------------------------

  /** When each address last asked. */
  function Asked(asked: map<Ip, int>, rs: seq<Request>): map<Ip, int>
    decreases |rs|
  {
    if rs == [] then asked else Asked(asked[rs[0].ip := rs[0].now], rs[1..])
  }

  /** The stamp of a bucket is less than one period behind its last request. */
  ghost predicate Tracks(v: seq<Slot>, asked: map<Ip, int>, period: int) {
    forall k | 0 <= k < |v| && v[k].used ::
      v[k].ipi in asked && v[k].level.last <= asked[v[k].ipi] < v[k].level.last + period
  }

  lemma {:induction false} StampsTrackRequests(v: seq<Slot>, asked: map<Ip, int>, lim: Limits, rs: seq<Request>)
    requires |v| > 0 && WellFormed(v) && Proper(lim) && Tracks(v, asked, lim.period)
    ensures WellFormed(TableAfter(v, lim, rs))
    ensures Tracks(TableAfter(v, lim, rs), Asked(asked, rs), lim.period)
    decreases |rs|
  {
    if rs != [] {
      var r := rs[0];
      ServeShape(v, lim, r);
      CallLast(Claim(v, r.ip)[Pick(v, r.ip)].level, lim.maxBurst, lim.period, r.now);
      StampsTrackRequests(Serve(v, lim, r).table, asked[r.ip := r.now], lim, rs[1..]);
    }
  }

  /** Eviction is least-recently-used to within one period: whoever is thrown out
      last asked earlier than every other address's last request plus a period. */
  lemma {:induction false} EvictionIsNearlyLru(v: seq<Slot>, lim: Limits, rs: seq<Request>, ip: Ip)
    requires |v| > 0 && Proper(lim) && forall k | 0 <= k < |v| :: !v[k].used
    ensures var w := TableAfter(v, lim, rs); var asked := Asked(map[], rs);
            Evicts(w, ip) ==>
              forall j | 0 <= j < |w| ::
                && w[j].used && w[j].ipi in asked && w[Pick(w, ip)].ipi in asked
                && asked[w[Pick(w, ip)].ipi] < asked[w[j].ipi] + lim.period
  {
    StampsTrackRequests(v, map[], lim, rs);
    PickMeaning(TableAfter(v, lim, rs), ip);
  }
}
