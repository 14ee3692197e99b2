/**
  When the bounded table decides as the unbounded one it stands in for, which
  gives every address a private bucket and forgets nothing: exactly when every
  bucket it throws out was, at that moment, as good as a new one.
 */
module Evictions {
  import opened RateLimiter
  import opened BucketTable

  // ------------------------------------------------------------------
  // Buckets no request can tell apart
  // ------------------------------------------------------------------

  predicate LevelOk(l: Level, now: int) {
    l.burst >= 0 && 0 <= l.last <= now
  }

  /** The deadline a call at `now` works with. */
  function CaughtUp(d: int, period: int, now: int): int {
    if now >= d + period then now else d
  }

  predicate SameFrom(a: int, b: int, period: int, now: int) {
    && CaughtUp(a, period, now) == CaughtUp(b, period, now)
    && CaughtUp(a, period, now + 1) == CaughtUp(b, period, now + 1)
  }

  /** From `now` on no call can tell the two buckets apart (proved below). */
  predicate Alike(a: Level, b: Level, period: int, now: int) {
    SameFrom(Deadline(a, period), Deadline(b, period), period, now)
  }

  lemma LevelStaysOk(l: Level, lim: Limits, now: int)
    requires Proper(lim) && LevelOk(l, now)
    ensures LevelOk(Call(l, lim.maxBurst, lim.period, now).level, now)
  {
    EuclidBounds(now - l.last, lim.period);
  }

  lemma SameLater(a: int, b: int, period: int, since: int, now: int)
    requires period > 0 && since <= now && SameFrom(a, b, period, since)
    ensures SameFrom(a, b, period, now)
  {
  }

  lemma {:induction false} SameDecideSame(a: int, b: int, lim: Limits, now: int, ts: seq<int>)
    requires Proper(lim) && SameFrom(a, b, lim.period, now)
    requires ts != [] ==> now <= ts[0]
    ensures DeadlineDrops(a, lim.maxBurst, lim.period, ts) == DeadlineDrops(b, lim.maxBurst, lim.period, ts)
  {
    if ts != [] {
      SameLater(a, b, lim.period, now, ts[0]);
      assert DeadlineCall(a, lim.maxBurst, lim.period, ts[0]) == DeadlineCall(b, lim.maxBurst, lim.period, ts[0]);
    }
  }

  /** How far the nearer deadline is from being refused. */
  function Headroom(d: int, lim: Limits, now: int): nat
    requires lim.period > 0
  {
    var room := now + (lim.maxBurst - 1) * lim.period - d;
    if room < 0 then 0 else room + 1
  }

  /** Calls that tell deadline `a` from the later `b`: keep asking at `now` until
      one is refused; if both are, ask when the nearer one lets calls in again. */
  function Probe(a: int, b: int, lim: Limits, now: int): (ts: seq<int>)
    requires Proper(lim) && a < b
    ensures ts != [] && ts[0] == now
    decreases Headroom(a, lim, now)
  {
    var top := (lim.maxBurst - 1) * lim.period;
    if a - now > top then [now, a - top]
    else if b - now > top then [now]
    else [now] + Probe(a + lim.period, b + lim.period, lim, now)
  }

  lemma {:induction false} ProbeTellsApart(a: int, b: int, lim: Limits, now: int)
    requires Proper(lim) && now - lim.period < a < b
    ensures var ts := Probe(a, b, lim, now);
            && Sorted(ts)
            && DeadlineDrops(a, lim.maxBurst, lim.period, ts) != DeadlineDrops(b, lim.maxBurst, lim.period, ts)
    decreases Headroom(a, lim, now)
  {
    var top := (lim.maxBurst - 1) * lim.period;
    var ts := Probe(a, b, lim, now);
    MulMono(0, lim.maxBurst - 1, lim.period);
    var da := DeadlineDrops(a, lim.maxBurst, lim.period, ts);
    var db := DeadlineDrops(b, lim.maxBurst, lim.period, ts);
    if a - now > top {
      assert da[1..] == DeadlineDrops(a, lim.maxBurst, lim.period, ts[1..]);
      assert db[1..] == DeadlineDrops(b, lim.maxBurst, lim.period, ts[1..]);
      assert !da[1..][0] && db[1..][0];
    } else if b - now > top {
      assert !da[0] && db[0];
    } else {
      var rest := Probe(a + lim.period, b + lim.period, lim, now);
      ProbeTellsApart(a + lim.period, b + lim.period, lim, now);
      assert ts == [now] + rest && ts[1..] == rest;
      assert da[1..] == DeadlineDrops(a + lim.period, lim.maxBurst, lim.period, rest);
      assert db[1..] == DeadlineDrops(b + lim.period, lim.maxBurst, lim.period, rest);
      forall i, j | 0 <= i < j < |ts| ensures ts[i] <= ts[j] {
        assert rest[0] <= rest[j - 1];
        if i > 0 { assert rest[i - 1] <= rest[j - 1]; }
      }
    }
  }

  lemma {:induction false} CatchUpFirst(d: int, lim: Limits, ts: seq<int>)
    requires Proper(lim) && ts != []
    ensures DeadlineDrops(d, lim.maxBurst, lim.period, ts)
            == DeadlineDrops(CaughtUp(d, lim.period, ts[0]), lim.maxBurst, lim.period, ts)
  {
  }

  /** Two deadlines that are not the same from `now` on can be told apart. */
  lemma CanTellApart(a: int, b: int, lim: Limits, now: int) returns (ts: seq<int>)
    requires Proper(lim) && !SameFrom(a, b, lim.period, now)
    ensures Sorted(ts) && ts != [] && now <= ts[0]
    ensures DeadlineDrops(a, lim.maxBurst, lim.period, ts) != DeadlineDrops(b, lim.maxBurst, lim.period, ts)
  {
    var t := if CaughtUp(a, lim.period, now) != CaughtUp(b, lim.period, now) then now else now + 1;
    var da, db := CaughtUp(a, lim.period, t), CaughtUp(b, lim.period, t);
    if da < db {
      ts := Probe(da, db, lim, t);
      ProbeTellsApart(da, db, lim, t);
    } else {
      ts := Probe(db, da, lim, t);
      ProbeTellsApart(db, da, lim, t);
    }
    CatchUpFirst(a, lim, ts);
    CatchUpFirst(b, lim, ts);
  }

  lemma {:induction false} AlikeDecideAlike(a: Level, b: Level, lim: Limits, now: int, ts: seq<int>)
    requires Proper(lim) && LevelOk(a, now) && LevelOk(b, now) && Alike(a, b, lim.period, now)
    requires Sorted(ts) && (ts != [] ==> now <= ts[0])
    ensures Drops(a, lim.maxBurst, lim.period, ts) == Drops(b, lim.maxBurst, lim.period, ts)
  {
    RunRefinesDeadline(a, lim.maxBurst, lim.period, ts);
    RunRefinesDeadline(b, lim.maxBurst, lim.period, ts);
    SameDecideSame(Deadline(a, lim.period), Deadline(b, lim.period), lim, now, ts);
  }

  lemma UnlikeTellApart(a: Level, b: Level, lim: Limits, now: int) returns (ts: seq<int>)
    requires Proper(lim) && LevelOk(a, now) && LevelOk(b, now) && !Alike(a, b, lim.period, now)
    ensures Sorted(ts) && ts != [] && now <= ts[0]
    ensures Drops(a, lim.maxBurst, lim.period, ts) != Drops(b, lim.maxBurst, lim.period, ts)
  {
    ts := CanTellApart(Deadline(a, lim.period), Deadline(b, lim.period), lim, now);
    RunRefinesDeadline(a, lim.maxBurst, lim.period, ts);
    RunRefinesDeadline(b, lim.maxBurst, lim.period, ts);
  }

  /** Two buckets get the same verdicts in every run of calls from `now` on if and
      only if their deadlines, caught up, are equal now and one millisecond on. */
  lemma {:induction false} AlikeIffIndistinguishable(a: Level, b: Level, lim: Limits, now: int)
    requires Proper(lim) && LevelOk(a, now) && LevelOk(b, now)
    ensures Alike(a, b, lim.period, now) <==>
            forall ts: seq<int> | Sorted(ts) && (ts != [] ==> now <= ts[0]) ::
              Drops(a, lim.maxBurst, lim.period, ts) == Drops(b, lim.maxBurst, lim.period, ts)
  {
    if Alike(a, b, lim.period, now) {
      forall ts: seq<int> | Sorted(ts) && (ts != [] ==> now <= ts[0])
        ensures Drops(a, lim.maxBurst, lim.period, ts) == Drops(b, lim.maxBurst, lim.period, ts)
      {
        AlikeDecideAlike(a, b, lim, now, ts);
      }
    } else {
      var ts := UnlikeTellApart(a, b, lim, now);
      assert Drops(a, lim.maxBurst, lim.period, ts) != Drops(b, lim.maxBurst, lim.period, ts);
    }
  }

  /** A call leaves alike buckets alike and gives them the same verdict. */
  lemma CallKeepsAlike(a: Level, b: Level, lim: Limits, since: int, now: int)
    requires Proper(lim) && since <= now && Alike(a, b, lim.period, since)
    requires LevelOk(a, since) && LevelOk(b, since)
    ensures var p := Call(a, lim.maxBurst, lim.period, now); var q := Call(b, lim.maxBurst, lim.period, now);
            p.drop == q.drop && Alike(p.level, q.level, lim.period, now)
  {
    CallRefinesDeadline(a, lim.maxBurst, lim.period, now);
    CallRefinesDeadline(b, lim.maxBurst, lim.period, now);
    SameLater(Deadline(a, lim.period), Deadline(b, lim.period), lim.period, since, now);
  }

  // ------------------------------------------------------------------
  // Evictions that cannot matter
  // ------------------------------------------------------------------

  /** Throwing the bucket out at `now` forgets nothing. */
  predicate Harmless(l: Level, period: int, now: int) {
    Alike(l, EMPTY, period, now)
  }

  /** The bucket has run empty, a whole period ago; with a period of 1 ms it need
      only have run empty. */
  predicate Drained(l: Level, period: int, now: int) {
    now >= l.last + (l.burst + 1) * period || (period == 1 && now == l.last + l.burst)
  }

  /** A bucket somebody has used can be thrown out without harm once it has
      drained, and not before. */
  lemma HarmlessMeaning(l: Level, period: int, now: int)
    requires period > 0 && LevelOk(l, now) && l.burst > 0
    ensures Harmless(l, period, now) <==> Drained(l, period, now)
  {
    hide SameFrom, Deadline, Drained;
    DrainedMeaning(l, period, now);
    UsedDeadline(l, period);
    SameAsZero(Deadline(l, period), period, now);
  }

  lemma UsedDeadline(l: Level, period: int)
    requires period > 0 && l.last >= 0 && l.burst > 0
    ensures Deadline(l, period) >= period
    ensures Deadline(EMPTY, period) == 0
  {
    MulMono(1, l.burst, period);
  }

  lemma DrainedMeaning(l: Level, period: int, now: int)
    ensures Drained(l, period, now) <==>
            now >= Deadline(l, period) + period || (period == 1 && now == Deadline(l, period))
  {
    assert (l.burst + 1) * period == l.burst * period + period;
  }

  lemma SameAsZero(d: int, period: int, now: int)
    requires period > 0 && d >= period && now >= 0
    ensures SameFrom(d, 0, period, now) <==> now >= d + period || (period == 1 && now == d)
  {
  }

  lemma DrainedIsHarmless(l: Level, period: int, now: int)
    requires period > 0 && LevelOk(l, now) && Drained(l, period, now)
    ensures Harmless(l, period, now)
  {
    DrainedMeaning(l, period, now);
    MulMono(0, l.burst, period);
  }

  /** The bucket the request throws out, if it throws one out. */
  predicate EvictsHarmlessly(v: seq<Slot>, lim: Limits, r: Request)
    requires |v| > 0
  {
    Evicts(v, r.ip) ==> Harmless(v[Pick(v, r.ip)].level, lim.period, r.now)
  }

  /** Every bucket the run throws out is as good as new by then. */
  predicate OnlyHarmless(v: seq<Slot>, lim: Limits, rs: seq<Request>)
    requires |v| > 0
    decreases |rs|
  {
    rs != [] ==> EvictsHarmlessly(v, lim, rs[0]) && OnlyHarmless(Serve(v, lim, rs[0]).table, lim, rs[1..])
  }

  /** Every bucket the run throws out has drained by then. */
  predicate OnlyDrained(v: seq<Slot>, lim: Limits, rs: seq<Request>)
    requires |v| > 0
    decreases |rs|
  {
    rs != [] ==>
    && (Evicts(v, rs[0].ip) ==> Drained(v[Pick(v, rs[0].ip)].level, lim.period, rs[0].now))
    && OnlyDrained(Serve(v, lim, rs[0]).table, lim, rs[1..])
  }

  // ------------------------------------------------------------------
  // The table remembers what matters
  // ------------------------------------------------------------------

  /** What the table knows of `ip` is as good as its private bucket. */
  predicate AgreesOn(v: seq<Slot>, m: map<Ip, Level>, period: int, now: int, ip: Ip)
    requires |v| > 0
  {
    && LevelOk(LevelOf(v, ip), now) && LevelOk(Private(m, ip), now)
    && Alike(LevelOf(v, ip), Private(m, ip), period, now)
  }

  ghost predicate Agrees(v: seq<Slot>, m: map<Ip, Level>, period: int, now: int) {
    |v| > 0 && WellFormed(v) && forall ip: Ip :: AgreesOn(v, m, period, now, ip)
  }

  /** At start-up nobody has asked. */
  lemma StartAgrees(v: seq<Slot>, period: int, now: int)
    requires |v| > 0 && now >= 0 && forall k | 0 <= k < |v| :: !v[k].used
    ensures Agrees(v, map[], period, now)
  {
  }

  lemma OwnerLevel(v: seq<Slot>, k: nat)
    requires k < |v| && WellFormed(v) && v[k].used
    ensures LevelOf(v, v[k].ipi) == v[k].level
  {
    PickMeaning(v, v[k].ipi);
    assert Holds(v[k], v[k].ipi);
  }

  lemma ServeAgrees(v: seq<Slot>, m: map<Ip, Level>, lim: Limits, r: Request, since: int)
    requires Proper(lim) && Agrees(v, m, lim.period, since) && since <= r.now
    requires EvictsHarmlessly(v, lim, r)
    ensures var o := Serve(v, lim, r); var p := ServeMap(m, lim, r);
            o.drop == p.drop && Agrees(o.table, p.buckets, lim.period, r.now)
  {
    var k := Pick(v, r.ip);
    var o, p := Serve(v, lim, r), ServeMap(m, lim, r);
    assert AgreesOn(v, m, lim.period, since, r.ip);
    ServeShape(v, lim, r);
    ServeOwn(v, lim, r);
    CallKeepsAlike(LevelOf(v, r.ip), Private(m, r.ip), lim, since, r.now);
    LevelStaysOk(LevelOf(v, r.ip), lim, r.now);
    LevelStaysOk(Private(m, r.ip), lim, r.now);
    forall ip: Ip ensures AgreesOn(o.table, p.buckets, lim.period, r.now, ip) {
      assert AgreesOn(v, m, lim.period, since, ip);
      if ip != r.ip {
        SameLater(Deadline(LevelOf(v, ip), lim.period), Deadline(Private(m, ip), lim.period), lim.period, since, r.now);
        if Evicts(v, r.ip) && v[k].ipi == ip {
          OwnerLevel(v, k);
          EvictedIsGone(v, lim, r, ip);
        } else {
          ServeOthers(v, lim, r, ip);
        }
      }
    }
  }

  /** The bounded table decides every request of every run as one private bucket
      per address would, as long as it only evicts harmlessly; and it is then
      still in agreement with the private buckets. */
  lemma {:induction false} HarmlessTableIsPrivate(v: seq<Slot>, m: map<Ip, Level>, lim: Limits,
                                                  rs: seq<Request>, since: int)
    requires Proper(lim) && 0 <= since && InOrder(rs, since)
    requires Agrees(v, m, lim.period, since) && OnlyHarmless(v, lim, rs)
    ensures TableDrops(v, lim, rs) == MapDrops(m, lim, rs)
    decreases |rs|
  {
    if rs != [] {
      ServeAgrees(v, m, lim, rs[0], since);
      HarmlessTableIsPrivate(Serve(v, lim, rs[0]).table, ServeMap(m, lim, rs[0]).buckets, lim, rs[1..], rs[0].now);
    }
  }

  lemma {:induction false} DrainedEvictionsAreHarmless(v: seq<Slot>, m: map<Ip, Level>, lim: Limits,
                                                       rs: seq<Request>, since: int)
    requires Proper(lim) && InOrder(rs, since)
    requires Agrees(v, m, lim.period, since) && OnlyDrained(v, lim, rs)
    ensures OnlyHarmless(v, lim, rs)
    decreases |rs|
  {
    if rs != [] {
      var k := Pick(v, rs[0].ip);
      if Evicts(v, rs[0].ip) {
        OwnerLevel(v, k);
        assert AgreesOn(v, m, lim.period, since, v[k].ipi);
        DrainedIsHarmless(v[k].level, lim.period, rs[0].now);
      }
      ServeAgrees(v, m, lim, rs[0], since);
      DrainedEvictionsAreHarmless(Serve(v, lim, rs[0]).table, ServeMap(m, lim, rs[0]).buckets, lim, rs[1..], rs[0].now);
    }
  }

  /** In particular when every evicted bucket has drained. */
  lemma {:induction false} BoundedTableIsPrivate(v: seq<Slot>, lim: Limits, rs: seq<Request>)
    requires |v| > 0 && Proper(lim) && InOrder(rs, 0)
    requires forall k | 0 <= k < |v| :: !v[k].used
    requires OnlyDrained(v, lim, rs)
    ensures TableDrops(v, lim, rs) == MapDrops(map[], lim, rs)
  {
    StartAgrees(v, lim.period, 0);
    DrainedEvictionsAreHarmless(v, map[], lim, rs, 0);
    HarmlessTableIsPrivate(v, map[], lim, rs, 0);
  }

  lemma {:induction false} NoEvictionIsHarmless(v: seq<Slot>, lim: Limits, rs: seq<Request>)
    requires |v| > 0 && forall ip: Ip :: Keeps(v, lim, rs, ip)
    ensures OnlyHarmless(v, lim, rs)
    decreases |rs|
  {
    if rs != [] {
      assert Keeps(v, lim, rs, v[Pick(v, rs[0].ip)].ipi);
      forall ip: Ip ensures Keeps(Serve(v, lim, rs[0]).table, lim, rs[1..], ip) {
        assert Keeps(v, lim, rs, ip);
      }
      NoEvictionIsHarmless(Serve(v, lim, rs[0]).table, lim, rs[1..]);
    }
  }

  /** And in particular while at most as many addresses ask as there are slots. */
  lemma {:induction false} FewAddressesArePrivate(v: seq<Slot>, lim: Limits, rs: seq<Request>, ips: set<Ip>)
    requires |v| > 0 && Proper(lim) && InOrder(rs, 0)
    requires forall k | 0 <= k < |v| :: !v[k].used
    requires |ips| <= |v| && forall i | 0 <= i < |rs| :: rs[i].ip in ips
    ensures TableDrops(v, lim, rs) == MapDrops(map[], lim, rs)
  {
    StartAgrees(v, lim.period, 0);
    FewAddressesNeverEvict(v, lim, rs, ips);
    NoEvictionIsHarmless(v, lim, rs);
    HarmlessTableIsPrivate(v, map[], lim, rs, 0);
  }

  // ------------------------------------------------------------------
  // Evictions that do matter
  // ------------------------------------------------------------------

  /** One address asking at the given times. */
  function By(ip: Ip, ts: seq<int>): (r: seq<Request>)
    ensures |r| == |ts|
  {
    seq(|ts|, i requires 0 <= i < |ts| => Request(ip, ts[i]))
  }

  lemma {:induction false} ByTimes(ip: Ip, ts: seq<int>, drops: seq<bool>)
    requires |ts| == |drops|
    ensures Times(By(ip, ts), ip) == ts && Told(By(ip, ts), drops, ip) == drops
  {
    if ts != [] {
      assert By(ip, ts)[1..] == By(ip, ts[1..]);
      ByTimes(ip, ts[1..], drops[1..]);
    }
  }

  lemma {:induction false} AloneKeeps(v: seq<Slot>, lim: Limits, ip: Ip, ts: seq<int>)
    requires |v| > 0 && WellFormed(v)
    ensures Keeps(v, lim, By(ip, ts), ip)
    decreases |ts|
  {
    if ts != [] {
      assert By(ip, ts)[1..] == By(ip, ts[1..]);
      ServeShape(v, lim, By(ip, ts)[0]);
      AloneKeeps(Serve(v, lim, By(ip, ts)[0]).table, lim, ip, ts[1..]);
    }
  }

  /** While one address asks alone, each side decides from its one bucket. */
  lemma {:induction false} AloneDecides(v: seq<Slot>, m: map<Ip, Level>, lim: Limits, ip: Ip, ts: seq<int>)
    requires |v| > 0 && WellFormed(v)
    ensures TableDrops(v, lim, By(ip, ts)) == Drops(LevelOf(v, ip), lim.maxBurst, lim.period, ts)
    ensures MapDrops(m, lim, By(ip, ts)) == Drops(Private(m, ip), lim.maxBurst, lim.period, ts)
  {
    var rs := By(ip, ts);
    AloneKeeps(v, lim, ip, ts);
    KeptBucketIsIndependent(v, lim, rs, ip);
    PrivateBucketsAreIndependent(m, lim, rs, ip);
    ByTimes(ip, ts, TableDrops(v, lim, rs));
    ByTimes(ip, ts, MapDrops(m, lim, rs));
  }

  /** The run, cut short after `k` requests, and `ip` asking alone from there on. */
  function Continued(rs: seq<Request>, k: nat, ip: Ip, ts: seq<int>): seq<Request>
    requires k <= |rs|
  {
    rs[..k] + By(ip, ts)
  }

  /** Table and private buckets give the same verdicts throughout `rs`, and would
      give the same had the run, at any point of it, gone on with one address
      asking alone instead. */
  ghost predicate NeverTold(v: seq<Slot>, m: map<Ip, Level>, lim: Limits, rs: seq<Request>, since: int)
    requires |v| > 0
  {
    forall k: nat, ip: Ip, ts: seq<int> | k <= |rs| && InOrder(Continued(rs, k, ip, ts), since) ::
      TableDrops(v, lim, Continued(rs, k, ip, ts)) == MapDrops(m, lim, Continued(rs, k, ip, ts))
  }

  lemma ContinuedStep(rs: seq<Request>, k: nat, ip: Ip, ts: seq<int>)
    requires 0 < k <= |rs|
    ensures Continued(rs, k, ip, ts) != [] && Continued(rs, k, ip, ts)[0] == rs[0]
    ensures Continued(rs, k, ip, ts)[1..] == Continued(rs[1..], k - 1, ip, ts)
  {
  }

  lemma OrderTail(rs: seq<Request>, since: int)
    requires rs != []
    ensures InOrder(rs, since) <==> since <= rs[0].now && InOrder(rs[1..], rs[0].now)
  {
    if InOrder(rs[1..], rs[0].now) {
      forall a, b | 0 <= a < b < |rs| ensures rs[a].now <= rs[b].now {
        if a > 0 { assert rs[1..][a - 1].now <= rs[1..][b - 1].now; }
        else { assert rs[1..][0].now <= rs[1..][b - 1].now; }
      }
    }
  }

  lemma ByInOrder(ip: Ip, ts: seq<int>, since: int)
    ensures InOrder(By(ip, ts), since) <==> Sorted(ts) && (ts != [] ==> since <= ts[0])
  {
    var rs := By(ip, ts);
    assert forall i | 0 <= i < |ts| :: rs[i].now == ts[i];
  }

  lemma {:induction false} AloneAgrees(v: seq<Slot>, m: map<Ip, Level>, lim: Limits, since: int, ip: Ip, ts: seq<int>)
    requires Proper(lim) && Agrees(v, m, lim.period, since) && InOrder(By(ip, ts), since)
    ensures TableDrops(v, lim, By(ip, ts)) == MapDrops(m, lim, By(ip, ts))
  {
    AloneDecides(v, m, lim, ip, ts);
    assert AgreesOn(v, m, lim.period, since, ip);
    ByInOrder(ip, ts, since);
    AlikeDecideAlike(LevelOf(v, ip), Private(m, ip), lim, since, ts);
  }

  lemma {:induction false} HarmlessIsNeverTold(v: seq<Slot>, m: map<Ip, Level>, lim: Limits, rs: seq<Request>,
                                               since: int, k: nat, ip: Ip, ts: seq<int>)
    requires Proper(lim) && Agrees(v, m, lim.period, since) && OnlyHarmless(v, lim, rs)
    requires k <= |rs| && InOrder(Continued(rs, k, ip, ts), since)
    ensures TableDrops(v, lim, Continued(rs, k, ip, ts)) == MapDrops(m, lim, Continued(rs, k, ip, ts))
    decreases k
  {
    hide Serve, ServeMap, InOrder, EvictsHarmlessly;
    if k == 0 {
      assert Continued(rs, 0, ip, ts) == By(ip, ts);
      AloneAgrees(v, m, lim, since, ip, ts);
    } else {
      ContinuedStep(rs, k, ip, ts);
      OrderTail(Continued(rs, k, ip, ts), since);
      ServeAgrees(v, m, lim, rs[0], since);
      HarmlessIsNeverTold(Serve(v, lim, rs[0]).table, ServeMap(m, lim, rs[0]).buckets, lim, rs[1..],
                          rs[0].now, k - 1, ip, ts);
    }
  }

  /** The address that lost a bucket in use can tell by asking. */
  lemma VictimCanTell(v: seq<Slot>, m: map<Ip, Level>, lim: Limits, r: Request, since: int)
    returns (ts: seq<int>)
    requires Proper(lim) && Agrees(v, m, lim.period, since) && since <= r.now
    requires !EvictsHarmlessly(v, lim, r)
    ensures Sorted(ts) && ts != [] && r.now <= ts[0]
    ensures var ip := v[Pick(v, r.ip)].ipi;
            TableDrops(Serve(v, lim, r).table, lim, By(ip, ts))
              != MapDrops(ServeMap(m, lim, r).buckets, lim, By(ip, ts))
  {
    var k := Pick(v, r.ip);
    var ip := v[k].ipi;
    var w, n := Serve(v, lim, r).table, ServeMap(m, lim, r).buckets;
    OwnerLevel(v, k);
    EvictedIsGone(v, lim, r, ip);
    assert AgreesOn(v, m, lim.period, since, ip) && Private(n, ip) == Private(m, ip);
    SameLater(Deadline(v[k].level, lim.period), Deadline(Private(m, ip), lim.period), lim.period, since, r.now);
    assert AgreesOn(v, m, lim.period, since, r.ip);
    ts := UnlikeTellApart(EMPTY, Private(m, ip), lim, r.now);
    ServeShape(v, lim, r);
    AloneDecides(w, n, lim, ip, ts);
  }

  lemma {:induction false} HarmfulIsTold(v: seq<Slot>, m: map<Ip, Level>, lim: Limits, rs: seq<Request>, since: int)
    returns (k: nat, ip: Ip, ts: seq<int>)
    requires Proper(lim) && 0 <= since && Agrees(v, m, lim.period, since) && !OnlyHarmless(v, lim, rs)
    requires InOrder(rs, since)
    ensures k <= |rs| && InOrder(Continued(rs, k, ip, ts), since)
    ensures TableDrops(v, lim, Continued(rs, k, ip, ts)) != MapDrops(m, lim, Continued(rs, k, ip, ts))
    decreases |rs|
  {
    hide Serve, ServeMap, InOrder, EvictsHarmlessly;
    var w, n := Serve(v, lim, rs[0]).table, ServeMap(m, lim, rs[0]).buckets;
    var j: nat;
    OrderTail(rs, since);
    if EvictsHarmlessly(v, lim, rs[0]) {
      ServeAgrees(v, m, lim, rs[0], since);
      j, ip, ts := HarmfulIsTold(w, n, lim, rs[1..], rs[0].now);
    } else {
      j, ip := 0, v[Pick(v, rs[0].ip)].ipi;
      ts := VictimCanTell(v, m, lim, rs[0], since);
      assert Continued(rs[1..], 0, ip, ts) == By(ip, ts);
      ByInOrder(ip, ts, rs[0].now);
    }
    k := j + 1;
    ContinuedStep(rs, k, ip, ts);
    var all := Continued(rs, k, ip, ts);
    OrderTail(all, since);
    assert TableDrops(v, lim, all)[1..] == TableDrops(w, lim, all[1..]);
    assert MapDrops(m, lim, all)[1..] == MapDrops(n, lim, all[1..]);
  }

  /** Exactly the harmless runs are those in which the bounded table cannot be told
      from private buckets, at whatever point an address tries. */
  lemma {:induction false} HarmlessIffNeverTold(v: seq<Slot>, m: map<Ip, Level>, lim: Limits,
                                                rs: seq<Request>, since: int)
    requires Proper(lim) && 0 <= since && Agrees(v, m, lim.period, since) && InOrder(rs, since)
    ensures OnlyHarmless(v, lim, rs) <==> NeverTold(v, m, lim, rs, since)
  {
    if OnlyHarmless(v, lim, rs) {
      forall k: nat, ip: Ip, ts: seq<int> | k <= |rs| && InOrder(Continued(rs, k, ip, ts), since)
        ensures TableDrops(v, lim, Continued(rs, k, ip, ts)) == MapDrops(m, lim, Continued(rs, k, ip, ts))
      {
        HarmlessIsNeverTold(v, m, lim, rs, since, k, ip, ts);
      }
    } else {
      var k, ip, ts := HarmfulIsTold(v, m, lim, rs, since);
      assert !NeverTold(v, m, lim, rs, since);
    }
  }

  // ------------------------------------------------------------------
  // In reachable tables: exactly the drained ones
  // ------------------------------------------------------------------

  lemma {:induction false} HarmlessIsDrained(v: seq<Slot>, lim: Limits, rs: seq<Request>, since: int)
    requires |v| > 0 && Proper(lim) && 0 <= since && InOrder(rs, since) && BusyInRange(v, lim, since)
    ensures OnlyHarmless(v, lim, rs) <==> OnlyDrained(v, lim, rs)
    decreases |rs|
  {
    hide Serve, InOrder, Harmless, Drained;
    if rs != [] {
      OrderTail(rs, since);
      ServeInRange(v, lim, rs[0], since);
      HarmlessIsDrained(Serve(v, lim, rs[0]).table, lim, rs[1..], rs[0].now);
      if Evicts(v, rs[0].ip) {
        HarmlessMeaning(v[Pick(v, rs[0].ip)].level, lim.period, rs[0].now);
      }
    }
  }

  /** From start-up: the runs in which the bounded table cannot be told from
      private buckets are exactly those that evict only drained ones. */
  lemma {:induction false} DrainedIffNeverTold(v: seq<Slot>, lim: Limits, rs: seq<Request>)
    requires |v| > 0 && Proper(lim) && InOrder(rs, 0)
    requires forall k | 0 <= k < |v| :: !v[k].used
    ensures OnlyDrained(v, lim, rs) <==> NeverTold(v, map[], lim, rs, 0)
  {
    hide OnlyHarmless, OnlyDrained, NeverTold;
    StartAgrees(v, lim.period, 0);
    HarmlessIsDrained(v, lim, rs, 0);
    HarmlessIffNeverTold(v, map[], lim, rs, 0);
  }
}
