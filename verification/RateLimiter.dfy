/**
  The leaky bucket of `OOB_RateLimit`: two integers updated on every call.

  `Call` is the specification of one call on values.  The rest of the module is
  about whole runs of calls: the pair refines a single deadline, the number of
  accepted calls in any time window is bounded, the bound is attained, and
  dropped calls leave no trace.
 */
module RateLimiter {

  /** The two integers the C code reaches through `burst` and `lastTime`. */
  datatype Level = Level(burst: int, last: int)

  /** The outcome of one call. */
  datatype Outcome = Outcome(level: Level, drop: bool)

  const INT_MAX: int := 0x7fff_ffff
  const INT_MIN: int := -0x8000_0000

  /** Division of C: the quotient is truncated toward zero. */
  function TruncDiv(a: int, b: int): int
    requires b > 0
  {
    if a < 0 then -((-a) / b) else a / b
  }

  /** Remainder of C: it has the sign of the dividend. */
  function TruncMod(a: int, b: int): int
    requires b > 0
  {
    a - TruncDiv(a, b) * b
  }

  /** First half of a call: let the elapsed whole periods leak out. */
  function Leak(s: Level, period: int, now: int): Level
    requires period > 0
  {
    var interval := now - s.last;
    var expired := TruncDiv(interval, period);
    if expired > s.burst || interval < 0 then
      Level(0, now)
    else
      Level(s.burst - expired, now - TruncMod(interval, period))
  }

  /** One call of `OOB_RateLimit`. */
  function Call(s: Level, maxBurst: int, period: int, now: int): Outcome {
    if period <= 0 || maxBurst <= 0 then
      Outcome(s, false)
    else
      var s1 := Leak(s, period, now);
      if s1.burst < maxBurst then
        Outcome(Level(s1.burst + 1, s1.last), false)
      else
        Outcome(s1, true)
  }

  // ------------------------------------------------------------------
  // Machine integers
  // ------------------------------------------------------------------

  predicate Int32(x: int) { INT_MIN <= x <= INT_MAX }

  /** What the bucket looks like between calls, the last of them at `now`. */
  predicate InRange(s: Level, maxBurst: int, now: int) {
    0 <= s.burst <= maxBurst && 0 <= s.last <= now
  }

  /** A call keeps the bucket in range, and every value the C code computes on
      the way fits in 32 bits, so unbounded integers lose nothing. */
  lemma CallStaysInRange(s: Level, maxBurst: int, period: int, before: int, now: int)
    requires 0 < maxBurst <= INT_MAX && 0 < period <= INT_MAX
    requires InRange(s, maxBurst, before) && before <= now <= INT_MAX
    ensures InRange(Call(s, maxBurst, period, now).level, maxBurst, now)
    ensures Int32(now - s.last)
    ensures Int32(TruncDiv(now - s.last, period)) && Int32(TruncMod(now - s.last, period))
    ensures Int32(s.burst - TruncDiv(now - s.last, period))
    ensures 0 <= now - TruncMod(now - s.last, period)
  {
    EuclidBounds(now - s.last, period);
  }

  /** A clock that has gone back empties the bucket. */
  lemma ClockGoneBackResets(s: Level, maxBurst: int, period: int, now: int)
    requires period > 0 && maxBurst > 0 && now < s.last
    ensures Call(s, maxBurst, period, now) == Outcome(Level(1, now), false)
  {
  }

  /** Limits that make no sense limit nothing. */
  lemma NoLimitNoDrop(s: Level, maxBurst: int, period: int, now: int)
    requires period <= 0 || maxBurst <= 0
    ensures Call(s, maxBurst, period, now) == Outcome(s, false)
  {
  }

  lemma EuclidBounds(a: int, b: int)
    requires a >= 0 && b > 0
    ensures TruncDiv(a, b) == a / b && TruncMod(a, b) == a % b
    ensures 0 <= a / b <= a && 0 <= a % b < b && a == a / b * b + a % b
    ensures a % b <= a
  {
    if a / b > a {
      MulMono(a + 1, a / b, b);
      assert (a + 1) * b >= a + 1 by { MulMono(1, b, a + 1); }
    }
    if a / b < 0 { MulMono(a / b, -1, b); }
    assert a / b * b >= 0 by { MulMono(0, a / b, b); }
  }

  lemma MulMono(x: int, y: int, k: int)
    requires x <= y && k >= 0
    ensures x * k <= y * k
  {
    assert (y - x) * k >= 0;
  }

  lemma MulCancel(x: int, y: int, k: int)
    requires k > 0 && x * k < y * k
    ensures x < y
  {
    if y <= x { MulMono(y, x, k); }
  }

  // ------------------------------------------------------------------
  // The pair refines one deadline
  // ------------------------------------------------------------------

  function Deadline(s: Level, period: int): int {
    s.last + s.burst * period
  }

  datatype DeadlineOutcome = DeadlineOutcome(deadline: int, drop: bool)

  /** The division-free limiter: one integer, no remainder to carry. */
  function DeadlineCall(d: int, maxBurst: int, period: int, now: int): DeadlineOutcome {
    var d1 := if now >= d + period then now else d;
    if d1 - now <= (maxBurst - 1) * period then
      DeadlineOutcome(d1 + period, false)
    else
      DeadlineOutcome(d1, true)
  }

  lemma LeakKeepsDeadline(s: Level, period: int, now: int)
    requires period > 0 && s.last <= now
    ensures var s1 := Leak(s, period, now);
            && now - period < s1.last <= now
            && s1.burst >= 0
            && Deadline(s1, period) == (if now >= Deadline(s, period) + period then now else Deadline(s, period))
  {
    var interval := now - s.last;
    var q, r := interval / period, interval % period;
    EuclidBounds(interval, period);
    if q > s.burst {
      MulMono(s.burst + 1, q, period);
      assert (s.burst + 1) * period == s.burst * period + period;
    } else {
      MulMono(q, s.burst, period);
      assert (s.burst - q) * period == s.burst * period - q * period;
    }
  }

  /** One call on the pair is one call on the deadline. */
  lemma CallRefinesDeadline(s: Level, maxBurst: int, period: int, now: int)
    requires period > 0 && maxBurst > 0 && s.last <= now
    ensures var o := Call(s, maxBurst, period, now);
            DeadlineOutcome(Deadline(o.level, period), o.drop)
              == DeadlineCall(Deadline(s, period), maxBurst, period, now)
  {
    LeakKeepsDeadline(s, period, now);
    var s1 := Leak(s, period, now);
    var d1 := Deadline(s1, period);
    if s1.burst < maxBurst {
      MulMono(s1.burst, maxBurst - 1, period);
      assert (s1.burst + 1) * period == s1.burst * period + period;
    } else {
      MulMono(maxBurst, s1.burst, period);
      assert (maxBurst - 1) * period == maxBurst * period - period;
    }
  }

  // ------------------------------------------------------------------
  // Runs
  // ------------------------------------------------------------------

  predicate Sorted(ts: seq<int>) {
    forall i, j | 0 <= i < j < |ts| :: ts[i] <= ts[j]
  }

  /** The state after calls at the given times. */
  function After(s: Level, maxBurst: int, period: int, ts: seq<int>): Level
    decreases |ts|
  {
    if ts == [] then s
    else After(Call(s, maxBurst, period, ts[0]).level, maxBurst, period, ts[1..])
  }

  /** The verdict of every call of a run: true means dropped. */
  function Drops(s: Level, maxBurst: int, period: int, ts: seq<int>): (r: seq<bool>)
    ensures |r| == |ts|
    decreases |ts|
  {
    if ts == [] then []
    else
      var o := Call(s, maxBurst, period, ts[0]);
      [o.drop] + Drops(o.level, maxBurst, period, ts[1..])
  }

  function DeadlineDrops(d: int, maxBurst: int, period: int, ts: seq<int>): (r: seq<bool>)
    ensures |r| == |ts|
    decreases |ts|
  {
    if ts == [] then []
    else
      var o := DeadlineCall(d, maxBurst, period, ts[0]);
      [o.drop] + DeadlineDrops(o.deadline, maxBurst, period, ts[1..])
  }

  function Accepted(drops: seq<bool>): nat {
    if drops == [] then 0 else (if drops[0] then 0 else 1) + Accepted(drops[1..])
  }

  lemma CallLast(s: Level, maxBurst: int, period: int, now: int)
    requires period > 0 && maxBurst > 0
    ensures now - period < Call(s, maxBurst, period, now).level.last <= now
    ensures Call(s, maxBurst, period, now).level.burst >= 0
  {
    if s.last <= now { LeakKeepsDeadline(s, period, now); }
  }

  /** Over a whole run the two-integer bucket and the deadline agree. */
  lemma {:induction false} RunRefinesDeadline(s: Level, maxBurst: int, period: int, ts: seq<int>)
    requires period > 0 && maxBurst > 0 && Sorted(ts)
    requires ts != [] ==> s.last <= ts[0]
    ensures Drops(s, maxBurst, period, ts) == DeadlineDrops(Deadline(s, period), maxBurst, period, ts)
    decreases |ts|
  {
    if ts != [] {
      CallRefinesDeadline(s, maxBurst, period, ts[0]);
      CallLast(s, maxBurst, period, ts[0]);
      RunRefinesDeadline(Call(s, maxBurst, period, ts[0]).level, maxBurst, period, ts[1..]);
    }
  }

  lemma {:induction false} RunSplits(s: Level, maxBurst: int, period: int, ts: seq<int>, k: nat)
    requires k <= |ts|
    ensures Drops(s, maxBurst, period, ts)[k..]
            == Drops(After(s, maxBurst, period, ts[..k]), maxBurst, period, ts[k..])
    ensures Drops(s, maxBurst, period, ts)[..k] == Drops(s, maxBurst, period, ts[..k])
    decreases k
  {
    if k > 0 {
      var s1 := Call(s, maxBurst, period, ts[0]).level;
      RunSplits(s1, maxBurst, period, ts[1..], k - 1);
      assert ts[..k][1..] == ts[1..][..k - 1];
      assert ts[k..] == ts[1..][k - 1..];
    }
  }

  // ------------------------------------------------------------------
  // How many calls get through in a window
  // ------------------------------------------------------------------

  function CeilDiv(a: int, b: int): int
    requires b > 0
  {
    (a + b - 1) / b
  }

  /** Every acceptance costs one period of deadline, and the deadline never runs
      more than `maxBurst` periods ahead of the clock. */
  lemma {:induction false} DeadlinePotential(d: int, maxBurst: int, period: int, ts: seq<int>, start: int)
    requires period > 0 && maxBurst > 0 && Sorted(ts) && ts != []
    requires d > start - period
    ensures var n := Accepted(DeadlineDrops(d, maxBurst, period, ts));
            n > 0 ==> d + (n - 1) * period - ts[|ts| - 1] <= (maxBurst - 1) * period
    decreases |ts|
  {
    var o := DeadlineCall(d, maxBurst, period, ts[0]);
    var rest := DeadlineDrops(o.deadline, maxBurst, period, ts[1..]);
    var all := DeadlineDrops(d, maxBurst, period, ts);
    assert all[1..] == rest;
    if |ts| > 1 {
      DeadlinePotential(o.deadline, maxBurst, period, ts[1..], start);
      assert ts[1..][|ts[1..]| - 1] == ts[|ts| - 1];
    }
    if !o.drop && Accepted(rest) > 0 {
      var m := Accepted(rest);
      assert (m - 1) * period + period == m * period;
    }
  }

  /** The whole-run bound from any state: calls at times spanning at most `span`
      milliseconds have at most maxBurst + ceil(span / period) acceptances. */
  lemma {:induction false} SpanBound(s: Level, maxBurst: int, period: int, ts: seq<int>, span: nat)
    requires period > 0 && maxBurst > 0 && Sorted(ts)
    requires ts != [] ==> ts[|ts| - 1] - ts[0] <= span
    ensures Accepted(Drops(s, maxBurst, period, ts)) <= maxBurst + CeilDiv(span, period)
  {
    EuclidBounds(span + period - 1, period);
    if ts != [] {
      // The first call brings the clock of the bucket within one period.
      var s0 := Leak(s, period, ts[0]);
      if s.last <= ts[0] { LeakKeepsDeadline(s, period, ts[0]); }
      var d := Deadline(s0, period);
      assert Leak(s0, period, ts[0]) == s0 by {
        EuclidBounds(ts[0] - s0.last, period);
        assert (ts[0] - s0.last) / period == 0 by { SmallQuotient(ts[0] - s0.last, period); }
      }
      assert Call(s0, maxBurst, period, ts[0]) == Call(s, maxBurst, period, ts[0]);
      assert Drops(s0, maxBurst, period, ts) == Drops(s, maxBurst, period, ts);
      RunRefinesDeadline(s0, maxBurst, period, ts);
      MulMono(0, s0.burst, period);
      DeadlinePotential(d, maxBurst, period, ts, ts[0]);
      var n := Accepted(Drops(s, maxBurst, period, ts));
      if n > 0 {
        CountFromPotential(n, maxBurst, period, span, d, ts[0], ts[|ts| - 1]);
      }
    }
  }

  lemma SmallQuotient(a: int, b: int)
    requires 0 <= a < b
    ensures a / b == 0
  {
  }

  lemma CountFromPotential(n: int, maxBurst: int, period: int, span: int, d: int, first: int, last: int)
    requires period > 0 && span >= 0 && last - first <= span && d > first - period
    requires d + (n - 1) * period - last <= (maxBurst - 1) * period
    ensures n <= maxBurst + CeilDiv(span, period)
  {
    var q := CeilDiv(span, period);
    EuclidBounds(span + period - 1, period);
    assert q * period >= span;
    // (n - maxBurst - 1) * period < span <= q * period
    assert (n - 1) * period == (n - maxBurst) * period + (maxBurst - 1) * period;
    assert (n - maxBurst - 1) * period == (n - maxBurst) * period - period;
    MulCancel(n - maxBurst - 1, q, period);
  }

  lemma SliceTwice<T>(s: seq<T>, lo: nat, hi: nat)
    requires lo <= hi <= |s|
    ensures s[lo..][..hi - lo] == s[lo..hi]
  {
  }

  lemma SortedSlice(ts: seq<int>, lo: nat, hi: nat)
    requires Sorted(ts) && lo <= hi <= |ts|
    ensures Sorted(ts[lo..hi])
    ensures lo < hi ==> ts[lo..hi][0] == ts[lo] && ts[lo..hi][hi - lo - 1] == ts[hi - 1]
  {
  }

  /** The verdicts of a stretch of a run are those of a run of its own. */
  lemma {:induction false} StretchOfRun(s: Level, maxBurst: int, period: int, ts: seq<int>, lo: nat, hi: nat)
    requires lo <= hi <= |ts|
    ensures Drops(s, maxBurst, period, ts)[lo..hi]
            == Drops(After(s, maxBurst, period, ts[..lo]), maxBurst, period, ts[lo..hi])
  {
    RunSplits(s, maxBurst, period, ts, lo);
    RunSplits(After(s, maxBurst, period, ts[..lo]), maxBurst, period, ts[lo..], hi - lo);
    SliceTwice(ts, lo, hi);
    SliceTwice(Drops(s, maxBurst, period, ts), lo, hi);
  }

  /** The window form: any stretch of any run. */
  lemma {:induction false} WindowBound(s: Level, maxBurst: int, period: int, ts: seq<int>, lo: nat, hi: nat, span: nat)
    requires period > 0 && maxBurst > 0 && Sorted(ts) && lo <= hi <= |ts|
    requires lo < hi ==> ts[hi - 1] - ts[lo] <= span
    ensures Accepted(Drops(s, maxBurst, period, ts)[lo..hi]) <= maxBurst + CeilDiv(span, period)
  {
    StretchOfRun(s, maxBurst, period, ts, lo, hi);
    SortedSlice(ts, lo, hi);
    SpanBound(After(s, maxBurst, period, ts[..lo]), maxBurst, period, ts[lo..hi], span);
  }

  // ------------------------------------------------------------------
  // The bound is attained
  // ------------------------------------------------------------------

  /** The fastest schedule: `maxBurst` calls at `start`, then one call a period,
      from one millisecond later. */
  function Greedy(maxBurst: nat, period: nat, start: int, extra: nat): (r: seq<int>)
    ensures |r| == maxBurst + extra
  {
    seq(maxBurst + extra, i => if i < maxBurst then start else start + 1 + (i - maxBurst) * period)
  }

  lemma GreedySorted(maxBurst: nat, period: nat, start: int, extra: nat)
    ensures Sorted(Greedy(maxBurst, period, start, extra))
  {
    var ts := Greedy(maxBurst, period, start, extra);
    forall i, j | 0 <= i < j < |ts| ensures ts[i] <= ts[j] {
      if j >= maxBurst {
        MulMono(0, j - maxBurst, period);
        if i >= maxBurst { MulMono(i - maxBurst, j - maxBurst, period); }
      }
    }
  }

  lemma {:induction false} GreedyAllAccepted(d: int, maxBurst: nat, period: nat, start: int, extra: nat, done: nat)
    requires period > 0 && maxBurst > 0 && done <= maxBurst + extra
    requires d == start + 1 - period + done * period
    ensures Accepted(DeadlineDrops(d, maxBurst, period, Greedy(maxBurst, period, start, extra)[done..]))
            == maxBurst + extra - done
    decreases maxBurst + extra - done
  {
    var ts := Greedy(maxBurst, period, start, extra);
    if done < maxBurst + extra {
      var now := ts[done];
      var d1 := d + period;
      assert ts[done..][0] == now && ts[done..][1..] == ts[done + 1..];
      MulMono(0, done, period);
      if done < maxBurst {
        MulMono(done, maxBurst - 1, period);
        assert (maxBurst - 1) * period == maxBurst * period - period;
      } else {
        assert (done - maxBurst) * period == done * period - maxBurst * period;
        assert (maxBurst - 1) * period == maxBurst * period - period;
        MulMono(1, maxBurst, period);
      }
      assert (done + 1) * period == done * period + period;
      assert DeadlineCall(d, maxBurst, period, now) == DeadlineOutcome(d1, false);
      GreedyAllAccepted(d1, maxBurst, period, start, extra, done + 1);
    }
  }

  /** No smaller bound holds: for every burst, period and span some run has
      exactly maxBurst + ceil(span / period) acceptances within the span. */
  lemma BoundIsAttained(maxBurst: nat, period: nat, span: nat)
    returns (s: Level, ts: seq<int>)
    requires maxBurst > 0 && period > 0
    ensures ts != [] && InRange(s, maxBurst, ts[0]) && Sorted(ts)
    ensures ts[|ts| - 1] - ts[0] <= span
    ensures Accepted(Drops(s, maxBurst, period, ts)) == maxBurst + CeilDiv(span, period)
  {
    var extra := CeilDiv(span, period);
    EuclidBounds(span + period - 1, period);
    var start := period;
    s := Level(0, 1);
    ts := Greedy(maxBurst, period, start, extra);
    GreedySorted(maxBurst, period, start, extra);
    assert ts[0] == start;
    if extra > 0 {
      assert (extra - 1) * period == extra * period - period;
    }
    RunRefinesDeadline(s, maxBurst, period, ts);
    GreedyAllAccepted(1, maxBurst, period, start, extra, 0);
    assert ts[0..] == ts;
  }

  // ------------------------------------------------------------------
  // Dropped calls leave no trace; patience is rewarded
  // ------------------------------------------------------------------

  /** The calls of a run that were accepted. */
  function AcceptedTimes(ts: seq<int>, drops: seq<bool>): seq<int>
    requires |ts| == |drops|
  {
    if ts == [] then []
    else (if drops[0] then [] else [ts[0]]) + AcceptedTimes(ts[1..], drops[1..])
  }

  lemma {:induction false} DeadlineForgetsDrops(d: int, maxBurst: int, period: int, ts: seq<int>)
    requires period > 0 && maxBurst > 0
    ensures var kept := AcceptedTimes(ts, DeadlineDrops(d, maxBurst, period, ts));
            && |kept| == Accepted(DeadlineDrops(d, maxBurst, period, ts))
            && Accepted(DeadlineDrops(d, maxBurst, period, kept)) == |kept|
    decreases |ts|
  {
    if ts != [] {
      var o := DeadlineCall(d, maxBurst, period, ts[0]);
      var drops := DeadlineDrops(d, maxBurst, period, ts);
      assert drops[1..] == DeadlineDrops(o.deadline, maxBurst, period, ts[1..]);
      DeadlineForgetsDrops(o.deadline, maxBurst, period, ts[1..]);
      var kept := AcceptedTimes(ts, drops);
      var rest := AcceptedTimes(ts[1..], drops[1..]);
      if o.drop {
        MulMono(0, maxBurst - 1, period);
        assert o.deadline == d;   // a dropped call cannot have reset the deadline
        assert kept == rest;
      } else {
        assert kept == [ts[0]] + rest && kept[1..] == rest;
      }
    }
  }

  lemma {:induction false} AcceptedTimesSorted(ts: seq<int>, drops: seq<bool>, low: int)
    requires |ts| == |drops| && Sorted(ts)
    requires ts != [] ==> low <= ts[0]
    ensures Sorted(AcceptedTimes(ts, drops))
    ensures AcceptedTimes(ts, drops) != [] ==> low <= AcceptedTimes(ts, drops)[0]
  {
    if ts != [] {
      AcceptedTimesSorted(ts[1..], drops[1..], ts[0]);
      var rest := AcceptedTimes(ts[1..], drops[1..]);
      forall i | 0 <= i < |rest| ensures ts[0] <= rest[i] {
        assert rest[0] <= rest[i];
      }
    }
  }

  /** Erasing every dropped call from a run changes no verdict of the others:
      hammering the limiter neither helps nor delays the caller. */
  lemma {:induction false} DroppedCallsLeaveNoTrace(s: Level, maxBurst: int, period: int, ts: seq<int>)
    requires period > 0 && maxBurst > 0 && Sorted(ts)
    requires ts != [] ==> s.last <= ts[0]
    ensures var kept := AcceptedTimes(ts, Drops(s, maxBurst, period, ts));
            && |kept| == Accepted(Drops(s, maxBurst, period, ts))
            && Drops(s, maxBurst, period, kept) == seq(|kept|, i => false)
  {
    var d := Deadline(s, period);
    RunRefinesDeadline(s, maxBurst, period, ts);
    var drops := Drops(s, maxBurst, period, ts);
    var kept := AcceptedTimes(ts, drops);
    AcceptedTimesSorted(ts, drops, s.last);
    RunRefinesDeadline(s, maxBurst, period, kept);
    DeadlineForgetsDrops(d, maxBurst, period, ts);
    AllAccepted(Drops(s, maxBurst, period, kept));
  }

  lemma {:induction false} AllAccepted(drops: seq<bool>)
    ensures Accepted(drops) <= |drops|
    ensures Accepted(drops) == |drops| ==> drops == seq(|drops|, i => false)
  {
    if drops != [] {
      AllAccepted(drops[1..]);
      if Accepted(drops) == |drops| {
        assert forall i | 0 < i < |drops| :: drops[i] == drops[1..][i - 1] == false;
      }
    }
  }

  /** A call at least one period after the previous call, whatever became of
      that one, is accepted. */
  lemma PatienceIsAccepted(s: Level, maxBurst: int, period: int, before: int, now: int)
    requires period > 0 && maxBurst > 0 && s.burst <= maxBurst && now - before >= period
    ensures !Call(Call(s, maxBurst, period, before).level, maxBurst, period, now).drop
  {
    CallLast(s, maxBurst, period, before);
    var s1 := Call(s, maxBurst, period, before).level;
    if s.last <= before { EuclidBounds(before - s.last, period); }
    assert s1.burst <= maxBurst;
    EuclidBounds(now - s1.last, period);
    if (now - s1.last) / period < 1 {
      MulMono((now - s1.last) / period, 0, period);
    }
  }
}
