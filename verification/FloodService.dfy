/**
  What the flood guard lets through: bursts and steady streams pass in exactly the
  configured numbers, downloads follow their cvar, log lines come when they are due.
  Together with the upper bounds of `FloodRuns` this fixes the limits.
 */
module FloodService {
  import opened RateLimiter
  import opened BucketTable
  import opened FloodGuard
  import opened FloodRuns

  // ------------------------------------------------------------------
  // The configured rates
  // ------------------------------------------------------------------

  /** The address 127.0.0.1 as the engine stores it, low byte first. */
  function Localhost(): Ip { 127 + 1 * 0x100_0000 }

  /** The rate a cvar asks for: absent or nonpositive means the default. */
  function Asked1000(cvar: int, byDefault: int): int {
    if cvar <= 0 then byDefault else if cvar < 1000 then cvar else 1000
  }

  /** The rates in use are those of the cvars, one packet and a thousand a second by
      default, and give a burst of ten seconds' worth per address. */
  lemma RatesAre(vIp: int, vAll: int)
    ensures var r, all := Asked1000(vIp, 1), Asked1000(vAll, 1000);
            && 1 <= r <= 1000 && 1 <= all <= 1000
            && IpLimits(Rates(vIp, vAll)) == Limits(10 * r, 1000 / r)
            && AllLimits(Rates(vIp, vAll)) == Limits(all, 1000 / all)
  {
  }

  /** A remote packet is judged by rates that were read from the cvars less than
      5000 ms ago, or are read now. */
  lemma RatesAreRecent(s: State, p: Packet, again: int)
    requires StateOk(s) && p.ip != Localhost()
    ensures var c := Connless(s, p, again).state.cfg;
            if s.cfg.time != 0 && p.now < s.cfg.time + 5000 then c == s.cfg
            else c.ip == Asked1000(p.vIp, 1) && c.all == Asked1000(p.vAll, 1000) && c.time == p.now
  {
    hide Serve, Call;
  }

  // ------------------------------------------------------------------
  // Bursts
  // ------------------------------------------------------------------

  /** A bucket that has taken `b` calls at the moment `now`. */
  predicate Holding(l: Level, b: int, period: int, now: int) {
    l.burst == b && (l == EMPTY || now - period < l.last <= now)
  }

  /** At one moment a bucket takes its burst and then nothing. */
  lemma CallAtOnce(l: Level, b: int, lim: Limits, now: int)
    requires Proper(lim) && 0 <= b <= lim.maxBurst && now >= 0 && Holding(l, b, lim.period, now)
    ensures var c := Call(l, lim.maxBurst, lim.period, now);
            && (c.drop <==> b == lim.maxBurst)
            && Holding(c.level, if c.drop then b else b + 1, lim.period, now)
  {
    EuclidBounds(now - l.last, lim.period);
    if l == EMPTY {
      if now < lim.period { SmallQuotient(now, lim.period); }
      else if now / lim.period < 1 { MulMono(now / lim.period, 0, lim.period); }
    } else {
      SmallQuotient(now - l.last, lim.period);
    }
  }

  /** The event of address `ip`, one of many at the same moment. */
  function Knock(ip: Ip, now: int, vIp: int, vAll: int): Event {
    Oob(Packet(ip, now, vIp, vAll), now)
  }

  function Salvo(e: Event, n: nat): seq<Event> {
    if n == 0 then [] else [e] + Salvo(e, n - 1)
  }

  function Least(a: int, b: int): int { if a <= b then a else b }

  /** The guard after `b` packets of `ip` and `g` remote ones were let in at `now`. */
  predicate Ready(s: State, ip: Ip, vIp: int, vAll: int, b: int, g: int, now: int) {
    && StateOk(s) && WellFormed(s.oob) && Settled(s.cfg, vIp, vAll)
    && Holding(LevelOf(s.oob, ip), b, 1000 / Asked1000(vIp, 1), now)
    && Holding(s.global, g, 1000 / Asked1000(vAll, 1000), now)
  }

  lemma KnockStep(s: State, ip: Ip, vIp: int, vAll: int, b: int, g: int, now: int)
    requires Ready(s, ip, vIp, vAll, b, g, now) && ip != Localhost() && now >= 0
    requires 0 <= b <= 10 * Asked1000(vIp, 1) && 0 <= g <= Asked1000(vAll, 1000)
    ensures var r := Do(s, Knock(ip, now, vIp, vAll));
            var pass := b < 10 * Asked1000(vIp, 1);
            && (r.effect == Forward <==> pass && g < Asked1000(vAll, 1000))
            && Ready(r.state, ip, vIp, vAll, if pass then b + 1 else b, if r.effect == Forward then g + 1 else g, now)
  {
    hide Serve, Call, Do, Holding, Settled, WellFormed;
    var e := Knock(ip, now, vIp, vAll);
    var ipLim, allLim := IpLimits(Rates(vIp, vAll)), AllLimits(Rates(vIp, vAll));
    RatesAre(vIp, vAll);
    LimitsAreProper(vIp, vAll);
    StepSettled(s, e, vIp, vAll);
    StepTables(s, e, vIp, vAll);
    StepGlobal(s, e, vIp, vAll);
    StepReaches(s, e, vIp, vAll);
    ServeShape(s.oob, ipLim, Asking(e));
    ServeOwn(s.oob, ipLim, Asking(e));
    CallAtOnce(LevelOf(s.oob, ip), b, ipLim, now);
    CallAtOnce(s.global, g, allLim, now);
  }

  /** A packet reaches the aggregate bucket when its address's bucket takes it. */
  lemma StepReaches(s: State, e: Event, vIp: int, vAll: int)
    requires StateOk(s) && CvarsAre([e], vIp, vAll) && Settled(s.cfg, vIp, vAll) && Remote(e)
    ensures Reaches(s, e) <==> !Serve(s.oob, IpLimits(Rates(vIp, vAll)), Asking(e)).drop
  {
    hide Serve, Call;
    assert [e][0] == e;
    if s.cfg.time != 0 && e.packet.now - s.cfg.time < 5000 {
      assert s.cfg.ip == Rates(vIp, vAll).ip;
    }
  }

  lemma {:induction false} SalvoPasses(s: State, ip: Ip, vIp: int, vAll: int, b: int, g: int, now: int, n: nat)
    requires StateOk(s) && Ready(s, ip, vIp, vAll, b, g, now) && ip != Localhost() && now >= 0
    requires 0 <= b <= 10 * Asked1000(vIp, 1) && 0 <= g <= Asked1000(vAll, 1000)
    ensures Passed(s, Salvo(Knock(ip, now, vIp, vAll), n), From(ip))
            == Least(n, Least(10 * Asked1000(vIp, 1) - b, Asked1000(vAll, 1000) - g))
    decreases n
  {
    hide Do, Ready;
    if n > 0 {
      var e := Knock(ip, now, vIp, vAll);
      KnockStep(s, ip, vIp, vAll, b, g, now);
      var r := Do(s, e);
      assert Salvo(e, n)[1..] == Salvo(e, n - 1);
      SalvoPasses(r.state, ip, vIp, vAll, if b < 10 * Asked1000(vIp, 1) then b + 1 else b,
                  if r.effect == Forward then g + 1 else g, now, n - 1);
    }
  }

  lemma StartIsReady(ip: Ip, vIp: int, vAll: int, now: int)
    ensures Ready(Start(), ip, vIp, vAll, 0, 0, now)
  {
    PickMeaning(Start().oob, ip);
  }

  /** From start-up, of any number of packets one remote address sends at once exactly
      10 * rate get through, or as many as the aggregate allows. */
  lemma {:induction false} BurstIsServed(ip: Ip, vIp: int, vAll: int, now: int, n: nat)
    requires ip != Localhost() && now >= 0
    ensures Passed(Start(), Salvo(Knock(ip, now, vIp, vAll), n), From(ip))
            == Least(n, Least(10 * Asked1000(vIp, 1), Asked1000(vAll, 1000)))
  {
    StartIsReady(ip, vIp, vAll, now);
    SalvoPasses(Start(), ip, vIp, vAll, 0, 0, now, n);
  }

  // ------------------------------------------------------------------
  // Many addresses
  // ------------------------------------------------------------------

  /** One packet each from the addresses `first`, `first` + 1 and so on. */
  function Throng(first: nat, n: nat, now: int, vIp: int, vAll: int): seq<Event>
    requires first + n <= Localhost()
    decreases n
  {
    if n == 0 then [] else [Knock(first, now, vIp, vAll)] + Throng(first + 1, n - 1, now, vIp, vAll)
  }

  /** The guard when nobody from `first` on has asked. */
  predicate Unmet(s: State, first: nat, vIp: int, vAll: int, g: int, now: int) {
    && StateOk(s) && WellFormed(s.oob) && Settled(s.cfg, vIp, vAll)
    && (forall k | 0 <= k < |s.oob| && s.oob[k].used :: s.oob[k].ipi < first)
    && Holding(s.global, g, 1000 / Asked1000(vAll, 1000), now)
  }

  lemma ThrongStep(s: State, first: nat, vIp: int, vAll: int, g: int, now: int)
    requires first < Localhost() && now >= 0 && Unmet(s, first, vIp, vAll, g, now)
    requires 0 <= g <= Asked1000(vAll, 1000)
    ensures var r := Do(s, Knock(first, now, vIp, vAll));
            && (r.effect == Forward <==> g < Asked1000(vAll, 1000))
            && Unmet(r.state, first + 1, vIp, vAll, if r.effect == Forward then g + 1 else g, now)
  {
    hide Serve, Call, Do, Settled;
    var e, ipLim := Knock(first, now, vIp, vAll), IpLimits(Rates(vIp, vAll));
    PickMeaning(s.oob, first);
    assert LevelOf(s.oob, first) == EMPTY;
    RatesAre(vIp, vAll);
    KnockStep(s, first, vIp, vAll, 0, g, now);
    StepTables(s, e, vIp, vAll);
    ServeShape(s.oob, ipLim, Asking(e));
  }

  lemma {:induction false} ThrongPasses(s: State, first: nat, n: nat, vIp: int, vAll: int, g: int, now: int)
    requires first + n <= Localhost() && now >= 0 && StateOk(s) && Unmet(s, first, vIp, vAll, g, now)
    requires 0 <= g <= Asked1000(vAll, 1000)
    ensures Passed(s, Throng(first, n, now, vIp, vAll), AnyRemote) == Least(n, Asked1000(vAll, 1000) - g)
    decreases n
  {
    hide Do, Unmet;
    if n > 0 {
      var e, rest := Knock(first, now, vIp, vAll), Throng(first + 1, n - 1, now, vIp, vAll);
      ThrongStep(s, first, vIp, vAll, g, now);
      var r := Do(s, e);
      assert Throng(first, n, now, vIp, vAll)[1..] == rest;
      ThrongPasses(r.state, first + 1, n - 1, vIp, vAll, if r.effect == Forward then g + 1 else g, now);
    }
  }

  /** From start-up, of packets that many addresses send at once exactly the aggregate
      rate gets through: the bound of `AggregateBound` is attained. */
  lemma {:induction false} AggregateIsServed(n: nat, vIp: int, vAll: int, now: int)
    requires n <= Localhost() && now >= 0
    ensures Passed(Start(), Throng(0, n, now, vIp, vAll), AnyRemote) == Least(n, Asked1000(vAll, 1000))
  {
    ThrongPasses(Start(), 0, n, vIp, vAll, 0, now);
  }

  // ------------------------------------------------------------------
  // Steady streams
  // ------------------------------------------------------------------

  /** Events of one address, each at least `gap` after the one before. */
  predicate Spaced(es: seq<Event>, ip: Ip, vIp: int, vAll: int, last: int, gap: int)
    decreases |es|
  {
    es != [] ==>
    && es[0].Oob? && es[0].packet == Packet(ip, Clock(es[0]), vIp, vAll) && Clock(es[0]) >= last + gap
    && Spaced(es[1..], ip, vIp, vAll, Clock(es[0]), gap)
  }

  /** A bucket that will take a call `period` after `last`. */
  predicate Rested(l: Level, lim: Limits, last: int) {
    l.burst <= lim.maxBurst && (l == EMPTY || last - lim.period < l.last <= last)
  }

  lemma RestedAccepts(l: Level, lim: Limits, last: int, now: int)
    requires Proper(lim) && Rested(l, lim, last) && now >= last + lim.period && now >= 0
    ensures var c := Call(l, lim.maxBurst, lim.period, now);
            !c.drop && Rested(c.level, lim, now)
  {
    CallLast(l, lim.maxBurst, lim.period, now);
    EuclidBounds(now - l.last, lim.period);
    if l != EMPTY && (now - l.last) / lim.period < 1 {
      MulMono((now - l.last) / lim.period, 0, lim.period);
    }
  }

  predicate Steady(s: State, ip: Ip, vIp: int, vAll: int, last: int) {
    && StateOk(s) && WellFormed(s.oob) && Settled(s.cfg, vIp, vAll)
    && Rested(LevelOf(s.oob, ip), IpLimits(Rates(vIp, vAll)), last)
    && Rested(s.global, AllLimits(Rates(vIp, vAll)), last)
  }

  lemma SteadyStep(s: State, e: Event, ip: Ip, vIp: int, vAll: int, last: int)
    requires Steady(s, ip, vIp, vAll, last) && ip != Localhost() && e.Oob?
    requires e.packet == Packet(ip, Clock(e), vIp, vAll) && Clock(e) >= 0
    requires Clock(e) >= last + 1000 / Asked1000(vIp, 1) && Clock(e) >= last + 1000 / Asked1000(vAll, 1000)
    ensures var r := Do(s, e);
            r.effect == Forward && Steady(r.state, ip, vIp, vAll, Clock(e))
  {
    hide Serve, Call, Do, Rested, Settled, WellFormed;
    var ipLim, allLim := IpLimits(Rates(vIp, vAll)), AllLimits(Rates(vIp, vAll));
    RatesAre(vIp, vAll);
    LimitsAreProper(vIp, vAll);
    StepSettled(s, e, vIp, vAll);
    StepTables(s, e, vIp, vAll);
    StepGlobal(s, e, vIp, vAll);
    StepReaches(s, e, vIp, vAll);
    ServeShape(s.oob, ipLim, Asking(e));
    ServeOwn(s.oob, ipLim, Asking(e));
    RestedAccepts(LevelOf(s.oob, ip), ipLim, last, Clock(e));
    RestedAccepts(s.global, allLim, last, Clock(e));
  }

  lemma {:induction false} SteadyPasses(s: State, es: seq<Event>, ip: Ip, vIp: int, vAll: int, last: int, gap: int)
    requires StateOk(s) && Steady(s, ip, vIp, vAll, last) && ip != Localhost() && last + gap >= 0 && gap >= 0
    requires gap >= 1000 / Asked1000(vIp, 1) && gap >= 1000 / Asked1000(vAll, 1000)
    requires Spaced(es, ip, vIp, vAll, last, gap)
    ensures Passed(s, es, From(ip)) == |es|
    decreases |es|
  {
    hide Do, Steady;
    if es != [] {
      SteadyStep(s, es[0], ip, vIp, vAll, last);
      SteadyPasses(Do(s, es[0]).state, es[1..], ip, vIp, vAll, Clock(es[0]), gap);
    }
  }

  /** From start-up a remote address that sends alone and keeps to the configured
      periods loses nothing, however long it goes on. */
  lemma {:induction false} StreamIsServed(es: seq<Event>, ip: Ip, vIp: int, vAll: int, gap: int)
    requires ip != Localhost()
    requires gap >= 1000 / Asked1000(vIp, 1) && gap >= 1000 / Asked1000(vAll, 1000)
    requires Spaced(es, ip, vIp, vAll, -gap, gap)
    ensures Passed(Start(), es, From(ip)) == |es|
  {
    RatesAre(vIp, vAll);
    PeriodRounding(Asked1000(vIp, 1));
    PickMeaning(Start().oob, ip);
    SteadyPasses(Start(), es, ip, vIp, vAll, -gap, gap);
  }

  // ------------------------------------------------------------------
  // Rcon
  // ------------------------------------------------------------------

  lemma {:induction false} RconSalvo(s: State, ip: Ip, b: int, now: int, n: nat)
    requires StateOk(s) && WellFormed(s.rcon) && ip != Localhost() && now >= 0
    requires 0 <= b <= 5 && Holding(LevelOf(s.rcon, ip), b, 2000, now)
    ensures Passed(s, Salvo(RconTry(ip, now), n), RconFrom(ip)) == Least(n, 5 - b)
    decreases n
  {
    hide Serve, Call, Do, Holding;
    if n > 0 {
      var e, lim := RconTry(ip, now), Limits(5, 2000);
      StepRcon(s, e);
      ServeShape(s.rcon, lim, Asking(e));
      ServeOwn(s.rcon, lim, Asking(e));
      CallAtOnce(LevelOf(s.rcon, ip), b, lim, now);
      assert Salvo(e, n)[1..] == Salvo(e, n - 1);
      RconSalvo(Do(s, e).state, ip, if b < 5 then b + 1 else b, now, n - 1);
    }
  }

  /** Of rcon attempts one remote address makes at once exactly five get through. */
  lemma {:induction false} RconBurstIsServed(ip: Ip, now: int, n: nat)
    requires ip != Localhost() && now >= 0
    ensures Passed(Start(), Salvo(RconTry(ip, now), n), RconFrom(ip)) == Least(n, 5)
  {
    PickMeaning(Start().rcon, ip);
    RconSalvo(Start(), ip, 0, now, n);
  }

  /** Attempts, each at least 2000 ms after the one before. */
  predicate SpacedTries(es: seq<Event>, ip: Ip, last: int)
    decreases |es|
  {
    es != [] ==>
    && es[0] == RconTry(ip, Clock(es[0])) && Clock(es[0]) >= last + 2000 && SpacedTries(es[1..], ip, Clock(es[0]))
  }

  lemma {:induction false} RconSteady(s: State, es: seq<Event>, ip: Ip, last: int)
    requires StateOk(s) && WellFormed(s.rcon) && ip != Localhost() && last + 2000 >= 0
    requires Rested(LevelOf(s.rcon, ip), Limits(5, 2000), last) && SpacedTries(es, ip, last)
    ensures Passed(s, es, RconFrom(ip)) == |es|
    decreases |es|
  {
    hide Serve, Call, Do, Rested;
    if es != [] {
      var lim := Limits(5, 2000);
      StepRcon(s, es[0]);
      ServeShape(s.rcon, lim, Asking(es[0]));
      ServeOwn(s.rcon, lim, Asking(es[0]));
      RestedAccepts(LevelOf(s.rcon, ip), lim, last, Clock(es[0]));
      RconSteady(Do(s, es[0]).state, es[1..], ip, Clock(es[0]));
    }
  }

  /** An administrator who tries once in two seconds is never throttled. */
  lemma {:induction false} RconStreamIsServed(es: seq<Event>, ip: Ip)
    requires ip != Localhost() && SpacedTries(es, ip, -2000)
    ensures Passed(Start(), es, RconFrom(ip)) == |es|
  {
    PickMeaning(Start().rcon, ip);
    RconSteady(Start(), es, ip, -2000);
  }

  // ------------------------------------------------------------------
  // Downloads
  // ------------------------------------------------------------------

  /** Download requests that find downloads switched off. */
  function Refusable(es: seq<Event>): nat {
    if es == [] then 0 else (if es[0].DoneDl? && es[0].allow == 0 then 1 else 0) + Refusable(es[1..])
  }

  /** In any interleaving exactly the download requests that find `sv_allowdownload`
      zero are stopped. */
  lemma {:induction false} DownloadsFollowTheirCvar(s: State, es: seq<Event>)
    requires StateOk(s)
    ensures Stopped(s, es, DlKind) == Refusable(es)
    decreases |es|
  {
    hide Serve, Call;
    if es != [] {
      DownloadStep(s, es[0]);
      DownloadsFollowTheirCvar(Do(s, es[0]).state, es[1..]);
    }
  }

  lemma DownloadStep(s: State, e: Event)
    requires StateOk(s)
    ensures e.DoneDl? && e.allow != 0 ==> Do(s, e) == Step(s, Forward)
    ensures e.DoneDl? && e.allow == 0 ==> Do(s, e).effect != Forward
  {
  }

  /** The allowed ones leave no trace. */
  function WithoutAllowed(es: seq<Event>): seq<Event> {
    if es == [] then []
    else (if es[0].DoneDl? && es[0].allow != 0 then [] else [es[0]]) + WithoutAllowed(es[1..])
  }

  lemma {:induction false} AllowedDownloadsAreInvisible(s: State, es: seq<Event>)
    requires StateOk(s)
    ensures RunState(s, WithoutAllowed(es)) == RunState(s, es)
    decreases |es|
  {
    hide Do;
    if es != [] {
      var rest := WithoutAllowed(es[1..]);
      DownloadStep(s, es[0]);
      AllowedDownloadsAreInvisible(Do(s, es[0]).state, es[1..]);
      if es[0].DoneDl? && es[0].allow != 0 {
        assert WithoutAllowed(es) == rest;
      } else {
        assert WithoutAllowed(es) == [es[0]] + rest && WithoutAllowed(es)[1..] == rest;
      }
    }
  }

  // ------------------------------------------------------------------
  // Log lines
  // ------------------------------------------------------------------

  /** When the last line of a kind was printed; 0 before the first. */
  function LastLine(s: State, es: seq<Event>, k: Kind, last: int): int
    requires StateOk(s)
    decreases |es|
  {
    if es == [] then last
    else
      var r := Do(s, es[0]);
      LastLine(r.state, es[1..], k, if KindOf(es[0]) == k && r.effect.Report? then LogClock(es[0]) else last)
  }

  lemma {:induction false} TallyKnowsLastLine(s: State, es: seq<Event>, k: Kind)
    requires StateOk(s)
    ensures TallyOf(RunState(s, es), k).lastMsg == LastLine(s, es, k, TallyOf(s, k).lastMsg)
    decreases |es|
  {
    hide Serve, Call;
    if es != [] {
      LineStep(s, es[0], k);
      TallyKnowsLastLine(Do(s, es[0]).state, es[1..], k);
    }
  }

  lemma LineStep(s: State, e: Event, k: Kind)
    requires StateOk(s)
    ensures var r := Do(s, e);
            TallyOf(r.state, k).lastMsg
              == if KindOf(e) == k && r.effect.Report? then LogClock(e) else TallyOf(s, k).lastMsg
  {
    hide Serve, Call;
  }

  lemma ReportIff(s: State, e: Event)
    requires StateOk(s)
    ensures var r := Do(s, e);
            r.effect != Forward ==> (r.effect.Report? <==> LogClock(e) > TallyOf(s, KindOf(e)).lastMsg + 5000)
  {
    hide Serve, Call;
  }

  /** After any run from start-up, a drop is printed exactly when more than 5000 ms
      have passed since the last line of its kind. */
  lemma {:induction false} DropsAreLoggedWhenDue(es: seq<Event>, e: Event)
    ensures var s := RunState(Start(), es); var r := Do(s, e);
            r.effect != Forward ==>
              (r.effect.Report? <==> LogClock(e) > LastLine(Start(), es, KindOf(e), 0) + 5000)
  {
    hide RunState, LastLine, Serve, Call;
    TallyKnowsLastLine(Start(), es, KindOf(e));
    ReportIff(RunState(Start(), es), e);
  }

  /** From start-up the counts printed and the count pending add up to the drops. */
  lemma {:induction false} LogAccountsFromStart(es: seq<Event>, k: Kind)
    ensures Printed(Start(), es, k) + TallyOf(RunState(Start(), es), k).dropped == Stopped(Start(), es, k)
  {
    hide RunState, Printed, Stopped;
    LogAccountsForDrops(Start(), es, k);
  }
}
