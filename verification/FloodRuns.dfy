/**
  Whole runs of the three detours, in any interleaving: what gets through in a
  time window, and what the log lines add up to.
 */
module FloodRuns {
  import opened RateLimiter
  import opened BucketTable
  import opened FloodGuard
  import opened Forgiveness

  datatype Event =
    | Oob(packet: Packet, again: int)
    | RconTry(ip: Ip, now: int)
    | DoneDl(allow: int, now: int)

  function Do(s: State, e: Event): (r: Step)
    requires StateOk(s)
    ensures StateOk(r.state)
  {
    match e
    case Oob(p, again) => Connless(s, p, again)
    case RconTry(ip, now) => Rcon(s, ip, now)
    case DoneDl(allow, now) => DoneDownload(s, allow, now)
  }

  function RunState(s: State, es: seq<Event>): (r: State)
    requires StateOk(s)
    ensures StateOk(r)
    decreases |es|
  {
    if es == [] then s else RunState(Do(s, es[0]).state, es[1..])
  }

  /** Which events a count is about. */
  datatype Who = AnyRemote | From(ip: Ip) | RconFrom(ip: Ip)

  predicate Matches(w: Who, e: Event) {
    match w
    case AnyRemote => e.Oob? && e.packet.ip != LOOPBACK
    case From(ip) => e.Oob? && e.packet.ip == ip
    case RconFrom(ip) => e.RconTry? && e.ip == ip
  }

  /** How many matching events reach the original handler. */
  function Passed(s: State, es: seq<Event>, w: Who): nat
    requires StateOk(s)
    decreases |es|
  {
    if es == [] then 0
    else
      var r := Do(s, es[0]);
      (if Matches(w, es[0]) && r.effect == Forward then 1 else 0) + Passed(r.state, es[1..], w)
  }

  /** The clock the limiter reads for an event. */
  function Clock(e: Event): int {
    match e
    case Oob(p, _) => p.now
    case RconTry(_, now) => now
    case DoneDl(_, now) => now
  }

  predicate Ticking(es: seq<Event>, since: int, until: int) {
    && (forall i | 0 <= i < |es| :: since <= Clock(es[i]) <= until)
    && (forall i, j | 0 <= i < j < |es| :: Clock(es[i]) <= Clock(es[j]))
  }

  lemma TickingTail(es: seq<Event>, since: int, until: int)
    requires Ticking(es, since, until) && es != []
    ensures since <= Clock(es[0]) <= until && Ticking(es[1..], Clock(es[0]), until)
  {
  }

  // ------------------------------------------------------------------
  // Fixed configuration
  // ------------------------------------------------------------------

  /** The server's cvars do not change during the run. */
  predicate CvarsAre(es: seq<Event>, vIp: int, vAll: int) {
    forall i | 0 <= i < |es| && es[i].Oob? :: es[i].packet.vIp == vIp && es[i].packet.vAll == vAll
  }

  predicate Settled(c: Config, vIp: int, vAll: int) {
    c.time != 0 ==> c.ip == Pick1000(vIp, 1) && c.all == Pick1000(vAll, 1000)
  }

  function Rates(vIp: int, vAll: int): (c: Config)
    ensures Usable(c)
  {
    Config(Pick1000(vIp, 1), Pick1000(vAll, 1000), 0)
  }

  /** The rounding of 1000 / rate never makes a period zero, and never more than
      doubles the configured rate. */
  lemma PeriodRounding(rate: int)
    requires 1 <= rate <= 1000
    ensures 1 <= 1000 / rate <= 1000
    ensures 1000 < 2 * rate * (1000 / rate)
    ensures rate * (1000 / rate) <= 1000
  {
    var q := 1000 / rate;
    EuclidBounds(1000, rate);
    if q < 1 { MulMono(q, 0, rate); }
    MulMono(1, q, rate);
    assert 2 * rate * q == rate * q + rate * q;
    assert rate * q == q * rate;
  }

  lemma LimitsAreProper(vIp: int, vAll: int)
    ensures Proper(IpLimits(Rates(vIp, vAll))) && Proper(AllLimits(Rates(vIp, vAll)))
  {
    PeriodRounding(Rates(vIp, vAll).ip);
    PeriodRounding(Rates(vIp, vAll).all);
  }

  // ------------------------------------------------------------------
  // One event
  // ------------------------------------------------------------------

  predicate Remote(e: Event) { e.Oob? && e.packet.ip != LOOPBACK }

  predicate RemoteRcon(e: Event) { e.RconTry? && e.ip != LOOPBACK }

  function Asking(e: Event): Request {
    Request(match e case Oob(p, _) => p.ip case RconTry(ip, _) => ip case DoneDl(_, _) => 0, Clock(e))
  }

  /** The per-address half of `OOB_ShouldDrop`. */
  predicate IpDrop(s: State, p: Packet)
    requires StateOk(s)
  {
    var c := Refresh(s.cfg, p.now, p.vIp, p.vAll);
    RefreshIsUsable(s.cfg, p.now, p.vIp, p.vAll);
    Serve(s.oob, IpLimits(c), Request(p.ip, p.now)).drop
  }

  /** Does this event reach the aggregate bucket? */
  predicate Reaches(s: State, e: Event)
    requires StateOk(s)
  {
    e.Oob? && e.packet.ip != LOOPBACK && !IpDrop(s, e.packet)
  }

  lemma StepSettled(s: State, e: Event, vIp: int, vAll: int)
    requires StateOk(s) && CvarsAre([e], vIp, vAll) && Settled(s.cfg, vIp, vAll)
    ensures Settled(Do(s, e).state.cfg, vIp, vAll)
  {
    assert [e][0] == e;
  }

  lemma StepGlobal(s: State, e: Event, vIp: int, vAll: int)
    requires StateOk(s) && CvarsAre([e], vIp, vAll) && Settled(s.cfg, vIp, vAll)
    ensures var r := Do(s, e); var lim := AllLimits(Rates(vIp, vAll));
            if Reaches(s, e) then
              var c := Call(s.global, lim.maxBurst, lim.period, Clock(e));
              r.state.global == c.level && (r.effect == Forward <==> !c.drop)
            else
              r.state.global == s.global && !(Matches(AnyRemote, e) && r.effect == Forward)
  {
    assert [e][0] == e;
    if e.Oob? {
      assert AllLimits(Refresh(s.cfg, e.packet.now, vIp, vAll)) == AllLimits(Rates(vIp, vAll)) by {
        if s.cfg.time != 0 && e.packet.now - s.cfg.time < 5000 {
          assert s.cfg.all == Rates(vIp, vAll).all;
        }
      }
    }
  }

  lemma StepTables(s: State, e: Event, vIp: int, vAll: int)
    requires StateOk(s) && CvarsAre([e], vIp, vAll) && Settled(s.cfg, vIp, vAll)
    ensures var r := Do(s, e); var lim := IpLimits(Rates(vIp, vAll));
            if Remote(e) then
              var o := Serve(s.oob, lim, Asking(e));
              r.state.oob == o.table && (o.drop ==> r.effect != Forward)
            else r.state.oob == s.oob
  {
    assert [e][0] == e;
    if e.Oob? {
      assert IpLimits(Refresh(s.cfg, e.packet.now, vIp, vAll)) == IpLimits(Rates(vIp, vAll)) by {
        if s.cfg.time != 0 && e.packet.now - s.cfg.time < 5000 {
          assert s.cfg.ip == Rates(vIp, vAll).ip;
        }
      }
    }
  }

  lemma StepRcon(s: State, e: Event)
    requires StateOk(s)
    ensures var r := Do(s, e);
            if RemoteRcon(e) then
              var o := Serve(s.rcon, Limits(RCON_BURST, RCON_PERIOD), Asking(e));
              r.state.rcon == o.table && (o.drop <==> r.effect != Forward)
            else r.state.rcon == s.rcon
  {
  }

  // ------------------------------------------------------------------
  // Reachable states
  // ------------------------------------------------------------------

  /** What every state of a run satisfies at `now`: well-formed tables, a usable
      configuration, and every bucket in the range in which no machine integer
      can overflow. */
  ghost predicate Sound(s: State, vIp: int, vAll: int, now: int) {
    && StateOk(s) && WellFormed(s.oob) && WellFormed(s.rcon) && Settled(s.cfg, vIp, vAll)
    && BusyInRange(s.oob, IpLimits(Rates(vIp, vAll)), now)
    && BusyInRange(s.rcon, Limits(RCON_BURST, RCON_PERIOD), now)
    && InRange(s.global, AllLimits(Rates(vIp, vAll)).maxBurst, now)
  }

  lemma StartIsSound(vIp: int, vAll: int, now: int)
    requires now >= 0
    ensures Sound(Start(), vIp, vAll, now)
  {
  }

  lemma BusyLater(v: seq<Slot>, lim: Limits, since: int, now: int)
    requires since <= now && BusyInRange(v, lim, since)
    ensures BusyInRange(v, lim, now)
  {
  }

  lemma StepIsSound(s: State, e: Event, vIp: int, vAll: int, since: int)
    requires Sound(s, vIp, vAll, since) && CvarsAre([e], vIp, vAll) && 0 <= since <= Clock(e)
    ensures Sound(Do(s, e).state, vIp, vAll, Clock(e))
  {
    hide Serve, Do, BusyInRange, WellFormed, Call, CvarsAre, Settled;
    var c := Rates(vIp, vAll);
    StepSettled(s, e, vIp, vAll);
    StepTables(s, e, vIp, vAll);
    StepRcon(s, e);
    StepGlobal(s, e, vIp, vAll);
    LimitsAreProper(vIp, vAll);
    ServeShape(s.oob, IpLimits(c), Asking(e));
    ServeShape(s.rcon, Limits(RCON_BURST, RCON_PERIOD), Asking(e));
    BusyLater(s.oob, IpLimits(c), since, Clock(e));
    BusyLater(s.rcon, Limits(RCON_BURST, RCON_PERIOD), since, Clock(e));
    ServeInRange(s.oob, IpLimits(c), Asking(e), since);
    ServeInRange(s.rcon, Limits(RCON_BURST, RCON_PERIOD), Asking(e), since);
    CallIsBusy(s.global, AllLimits(c), Clock(e));
  }

  lemma {:induction false} RunIsSound(s: State, es: seq<Event>, vIp: int, vAll: int, since: int, until: int)
    requires Sound(s, vIp, vAll, since) && CvarsAre(es, vIp, vAll) && 0 <= since <= until && Ticking(es, since, until)
    ensures Sound(RunState(s, es), vIp, vAll, until)
    decreases |es|
  {
    hide Do, WellFormed, BusyInRange, Settled, InRange;
    if es != [] {
      TickingTail(es, since, until);
      StepIsSound(s, es[0], vIp, vAll, since);
      RunIsSound(Do(s, es[0]).state, es[1..], vIp, vAll, Clock(es[0]), until);
    } else {
      SoundLater(s, vIp, vAll, since, until);
    }
  }

  lemma SoundLater(s: State, vIp: int, vAll: int, since: int, now: int)
    requires Sound(s, vIp, vAll, since) && since <= now
    ensures Sound(s, vIp, vAll, now)
  {
  }

  /** From start-up on, every state of every run is sound. */
  lemma {:induction false} RunsAreSound(es: seq<Event>, vIp: int, vAll: int, until: int)
    requires CvarsAre(es, vIp, vAll) && 0 <= until && Ticking(es, 0, until)
    ensures Sound(RunState(Start(), es), vIp, vAll, until)
  {
    hide Sound;
    StartIsSound(vIp, vAll, 0);
    RunIsSound(Start(), es, vIp, vAll, 0, until);
  }

  /** Both tables, as they are at start-up, can be made to forgive: see
      `Forgiveness`. */
  lemma {:induction false} StartTablesForgive(vIp: int, vAll: int, now: int)
    requires now >= 2000
    ensures var ip := IpLimits(Rates(vIp, vAll)); var rcon := Limits(RCON_BURST, RCON_PERIOD);
            var a := Before(256, ip, now); var b := Before(64, rcon, now);
            && !TableDrops(Start().oob, ip, a + [Request(0, now)])[|a|]
            && MapDrops(map[], ip, a + [Request(0, now)])[|a|]
            && !TableDrops(Start().rcon, rcon, b + [Request(0, now)])[|b|]
            && MapDrops(map[], rcon, b + [Request(0, now)])[|b|]
  {
    hide TableDrops, MapDrops, Before, Unused;
    LimitsAreProper(vIp, vAll);
    PeriodRounding(Rates(vIp, vAll).ip);
    EvictionForgives(256, IpLimits(Rates(vIp, vAll)), now);
    EvictionForgives(64, Limits(RCON_BURST, RCON_PERIOD), now);
  }

  // ------------------------------------------------------------------
  // Loopback
  // ------------------------------------------------------------------

  predicate Loopback(e: Event) {
    (e.Oob? && e.packet.ip == LOOPBACK) || (e.RconTry? && e.ip == LOOPBACK)
  }

  function NoLoopback(es: seq<Event>): seq<Event> {
    if es == [] then [] else (if Loopback(es[0]) then [] else [es[0]]) + NoLoopback(es[1..])
  }

  function Occurs(es: seq<Event>, w: Who): nat {
    if es == [] then 0 else (if Matches(w, es[0]) then 1 else 0) + Occurs(es[1..], w)
  }

  /** Loopback traffic is never dropped and leaves no trace: without it the run ends
      in the same state, having let the same events of everyone else through. */
  lemma {:induction false} LoopbackIsInvisible(s: State, es: seq<Event>, w: Who)
    requires StateOk(s)
    ensures RunState(s, NoLoopback(es)) == RunState(s, es)
    ensures if w == From(LOOPBACK) || w == RconFrom(LOOPBACK) then Passed(s, es, w) == Occurs(es, w)
            else Passed(s, es, w) == Passed(s, NoLoopback(es), w)
    decreases |es|
  {
    hide Connless, Rcon, DoneDownload;
    if es != [] {
      var s1, rest := Do(s, es[0]).state, NoLoopback(es[1..]);
      LoopbackIsInvisible(s1, es[1..], w);
      if Loopback(es[0]) {
        LoopbackStep(s, es[0]);
        assert NoLoopback(es) == rest;
      } else {
        assert NoLoopback(es) == [es[0]] + rest && NoLoopback(es)[1..] == rest;
      }
    }
  }

  lemma LoopbackStep(s: State, e: Event)
    requires StateOk(s) && Loopback(e)
    ensures Do(s, e) == Step(s, Forward)
  {
  }

  // ------------------------------------------------------------------
  // The aggregate backstop
  // ------------------------------------------------------------------

  /** When packets reach the aggregate bucket. */
  function GlobalTimes(s: State, es: seq<Event>): seq<int>
    requires StateOk(s)
    decreases |es|
  {
    if es == [] then []
    else
      (if Reaches(s, es[0]) then [Clock(es[0])] else [])
      + GlobalTimes(Do(s, es[0]).state, es[1..])
  }

  lemma {:induction false} AcceptedStep(l: Level, lim: Limits, t: int, rest: seq<int>)
    ensures var o := Call(l, lim.maxBurst, lim.period, t);
            Accepted(Drops(l, lim.maxBurst, lim.period, [t] + rest))
              == (if o.drop then 0 else 1) + Accepted(Drops(o.level, lim.maxBurst, lim.period, rest))
  {
    DropsStep(l, lim, t, rest);
  }

  lemma {:induction false} AggregateIsOneBucket(s: State, es: seq<Event>, vIp: int, vAll: int)
    requires StateOk(s) && CvarsAre(es, vIp, vAll) && Settled(s.cfg, vIp, vAll)
    ensures var lim := AllLimits(Rates(vIp, vAll)); var ts := GlobalTimes(s, es);
            Passed(s, es, AnyRemote) == Accepted(Drops(s.global, lim.maxBurst, lim.period, ts))
    decreases |es|
  {
    if es != [] {
      StepSettled(s, es[0], vIp, vAll);
      StepGlobal(s, es[0], vIp, vAll);
      var s1 := Do(s, es[0]).state;
      var lim := AllLimits(Rates(vIp, vAll));
      var rest := GlobalTimes(s1, es[1..]);
      AggregateIsOneBucket(s1, es[1..], vIp, vAll);
      if Reaches(s, es[0]) {
        AcceptedStep(s.global, lim, Clock(es[0]), rest);
        assert GlobalTimes(s, es) == [Clock(es[0])] + rest;
      } else {
        assert GlobalTimes(s, es) == rest;
      }
    }
  }

  lemma {:induction false} GlobalTimesInOrder(s: State, es: seq<Event>, since: int, until: int)
    requires StateOk(s) && Ticking(es, since, until)
    ensures Between(GlobalTimes(s, es), since, until)
    decreases |es|
  {
    if es != [] {
      var rest := GlobalTimes(Do(s, es[0]).state, es[1..]);
      TickingTail(es, since, until);
      GlobalTimesInOrder(Do(s, es[0]).state, es[1..], Clock(es[0]), until);
      BetweenCons(Clock(es[0]), rest, since, until);
      assert GlobalTimes(s, es) == if Reaches(s, es[0]) then [Clock(es[0])] + rest else rest;
    }
  }

  /** Whatever the addresses, the evictions and the other detours do, the engine's
      handler sees at most rate + ceil(T / period) remote packets in T ms. */
  lemma {:induction false} AggregateBound(s: State, es: seq<Event>, vIp: int, vAll: int, since: int, span: nat)
    requires StateOk(s) && CvarsAre(es, vIp, vAll) && Settled(s.cfg, vIp, vAll)
    requires Ticking(es, since, since + span)
    ensures var all := Rates(vIp, vAll).all;
            Passed(s, es, AnyRemote) <= all + CeilDiv(span, 1000 / all)
  {
    var lim := AllLimits(Rates(vIp, vAll));
    LimitsAreProper(vIp, vAll);
    AggregateIsOneBucket(s, es, vIp, vAll);
    GlobalTimesInOrder(s, es, since, since + span);
    SpanBound(s.global, lim.maxBurst, lim.period, GlobalTimes(s, es), span);
  }

  // ------------------------------------------------------------------
  // One address
  // ------------------------------------------------------------------

  /** The requests the per-address table sees. */
  function OobRequests(es: seq<Event>): seq<Request> {
    if es == [] then []
    else (if Remote(es[0]) then [Asking(es[0])] else []) + OobRequests(es[1..])
  }

  /** The requests the rcon table sees. */
  function RconRequests(es: seq<Event>): seq<Request> {
    if es == [] then []
    else (if RemoteRcon(es[0]) then [Asking(es[0])] else []) + RconRequests(es[1..])
  }

  /** How many requests of `ip` a table accepts. */
  function Admitted(v: seq<Slot>, lim: Limits, rs: seq<Request>, ip: Ip): nat
    requires |v| > 0
  {
    Accepted(Told(rs, TableDrops(v, lim, rs), ip))
  }

  /** Peeling the first request off what one address is let through. */
  lemma AdmittedStep(v: seq<Slot>, lim: Limits, r: Request, rest: seq<Request>, ip: Ip)
    requires |v| > 0
    ensures var o := Serve(v, lim, r);
            Admitted(v, lim, [r] + rest, ip)
              == (if r.ip == ip && !o.drop then 1 else 0) + Admitted(o.table, lim, rest, ip)
  {
    var o := Serve(v, lim, r);
    var drops := TableDrops(o.table, lim, rest);
    assert ([r] + rest)[1..] == rest;
    assert TableDrops(v, lim, [r] + rest) == [o.drop] + drops;
    assert ([o.drop] + drops)[1..] == drops;
    assert Told([r] + rest, [o.drop] + drops, ip) == (if r.ip == ip then [o.drop] else []) + Told(rest, drops, ip);
    if r.ip == ip {
      assert ([o.drop] + Told(rest, drops, ip))[1..] == Told(rest, drops, ip);
    } else {
      assert Told([r] + rest, [o.drop] + drops, ip) == Told(rest, drops, ip);
    }
  }

  lemma {:induction false} OobTableIsARun(s: State, es: seq<Event>, vIp: int, vAll: int, ip: Ip)
    requires StateOk(s) && CvarsAre(es, vIp, vAll) && Settled(s.cfg, vIp, vAll) && ip != LOOPBACK
    ensures Passed(s, es, From(ip)) <= Admitted(s.oob, IpLimits(Rates(vIp, vAll)), OobRequests(es), ip)
    decreases |es|
  {
    if es != [] {
      var s1 := Do(s, es[0]).state;
      StepSettled(s, es[0], vIp, vAll);
      StepTables(s, es[0], vIp, vAll);
      OobTableIsARun(s1, es[1..], vIp, vAll, ip);
      var rest := OobRequests(es[1..]);
      if Remote(es[0]) {
        AdmittedStep(s.oob, IpLimits(Rates(vIp, vAll)), Asking(es[0]), rest, ip);
      } else {
        assert OobRequests(es) == rest;
      }
    }
  }

  lemma {:induction false} RconTableIsARun(s: State, es: seq<Event>, ip: Ip)
    requires StateOk(s) && ip != LOOPBACK
    ensures Passed(s, es, RconFrom(ip))
            == Admitted(s.rcon, Limits(RCON_BURST, RCON_PERIOD), RconRequests(es), ip)
    decreases |es|
  {
    if es != [] {
      var s1 := Do(s, es[0]).state;
      StepRcon(s, es[0]);
      RconTableIsARun(s1, es[1..], ip);
      var rest := RconRequests(es[1..]);
      if RemoteRcon(es[0]) {
        AdmittedStep(s.rcon, Limits(RCON_BURST, RCON_PERIOD), Asking(es[0]), rest, ip);
      } else {
        assert RconRequests(es) == rest;
      }
    }
  }

  /** Requests drawn from a run keep its order and its time span. */
  predicate Within(rs: seq<Request>, since: int, until: int) {
    InOrder(rs, since) && forall i | 0 <= i < |rs| :: since <= rs[i].now <= until
  }

  lemma WithinCons(rs: seq<Request>, r: Request, since: int, until: int)
    requires since <= r.now <= until && Within(rs, r.now, until)
    ensures Within([r] + rs, since, until) && Within(rs, since, until)
  {
    var all := [r] + rs;
    forall i, j | 0 <= i < j < |all| ensures all[i].now <= all[j].now {
      if i > 0 { assert rs[i - 1].now <= rs[j - 1].now; }
    }
  }

  lemma {:induction false} RequestsInOrder(es: seq<Event>, since: int, until: int)
    requires Ticking(es, since, until)
    ensures Within(OobRequests(es), since, until) && Within(RconRequests(es), since, until)
  {
    if es != [] {
      var oob, rcon := OobRequests(es[1..]), RconRequests(es[1..]);
      TickingTail(es, since, until);
      RequestsInOrder(es[1..], Clock(es[0]), until);
      WithinCons(oob, Asking(es[0]), since, until);
      WithinCons(rcon, Asking(es[0]), since, until);
      assert OobRequests(es) == if Remote(es[0]) then [Asking(es[0])] + oob else oob;
      assert RconRequests(es) == if RemoteRcon(es[0]) then [Asking(es[0])] + rcon else rcon;
    }
  }

  /** An address that keeps its bucket gets fewer than 10*rate + 2*rate*T/1000 + 1
      packets through in T ms. */
  lemma {:induction false} AddressShare(s: State, es: seq<Event>, vIp: int, vAll: int, ip: Ip, since: int, span: nat)
    requires StateOk(s) && WellFormed(s.oob) && ip != LOOPBACK
    requires CvarsAre(es, vIp, vAll) && Settled(s.cfg, vIp, vAll)
    requires Ticking(es, since, since + span)
    requires Keeps(s.oob, IpLimits(Rates(vIp, vAll)), OobRequests(es), ip)
    ensures var rate := Rates(vIp, vAll).ip;
            1000 * Passed(s, es, From(ip)) < 10000 * rate + 2 * rate * span + 1000
  {
    var rate := Rates(vIp, vAll).ip;
    var lim := IpLimits(Rates(vIp, vAll));
    LimitsAreProper(vIp, vAll);
    OobTableIsARun(s, es, vIp, vAll, ip);
    RequestsInOrder(es, since, since + span);
    AddressBound(s.oob, lim, OobRequests(es), ip, since, span);
    PeriodRounding(rate);
    RateArithmetic(rate, lim.period, span);
  }

  /** ceil(T / period) < 2*rate*T/1000 + 1. */
  lemma RateArithmetic(rate: int, period: int, span: nat)
    requires rate >= 1 && period >= 1 && 1000 < 2 * rate * period
    ensures 1000 * CeilDiv(span, period) < 2 * rate * span + 1000
  {
    var q := CeilDiv(span, period) - 1;
    EuclidBounds(span + period - 1, period);
    assert q * period == (q + 1) * period - period;
    assert q * period <= span - 1;
    ScaleUp(q, period, 2 * rate, span);
  }

  lemma ScaleUp(q: int, period: int, double: int, span: nat)
    requires q >= -1 && q * period <= span - 1 && 1000 < double * period && double >= 2
    ensures 1000 * q < double * span
  {
    if q >= 0 {
      MulMono(1000, double * period, q);
      assert (double * period) * q == (q * period) * double;
      MulMono(q * period, span - 1, double);
      assert (span - 1) * double == double * span - double;
    } else {
      MulMono(0, span, double);
    }
  }

  /** Password guesses: a burst of five, then one every two seconds. */
  lemma {:induction false} RconShare(s: State, es: seq<Event>, ip: Ip, since: int, span: nat)
    requires StateOk(s) && WellFormed(s.rcon) && ip != LOOPBACK
    requires Ticking(es, since, since + span)
    requires Keeps(s.rcon, Limits(RCON_BURST, RCON_PERIOD), RconRequests(es), ip)
    ensures Passed(s, es, RconFrom(ip)) <= 5 + CeilDiv(span, 2000)
  {
    RconTableIsARun(s, es, ip);
    RequestsInOrder(es, since, since + span);
    AddressBound(s.rcon, Limits(RCON_BURST, RCON_PERIOD), RconRequests(es), ip, since, span);
  }

  /** While the addresses in play fit the table, that holds without further ado. */
  lemma {:induction false} RconShareWithRoom(s: State, es: seq<Event>, ip: Ip, ips: set<Ip>, since: int, span: nat)
    requires StateOk(s) && WellFormed(s.rcon) && ip != LOOPBACK
    requires Ticking(es, since, since + span)
    requires |ips| <= 64 && Owners(s.rcon) <= ips
    requires forall i | 0 <= i < |RconRequests(es)| :: RconRequests(es)[i].ip in ips
    ensures Passed(s, es, RconFrom(ip)) <= 5 + CeilDiv(span, 2000)
  {
    FewAddressesNeverEvict(s.rcon, Limits(RCON_BURST, RCON_PERIOD), RconRequests(es), ips);
    RconShare(s, es, ip, since, span);
  }

  // ------------------------------------------------------------------
  // The log lines account for every drop
  // ------------------------------------------------------------------

  datatype Kind = OobKind | RconKind | DlKind

  function KindOf(e: Event): Kind {
    match e
    case Oob(_, _) => OobKind
    case RconTry(_, _) => RconKind
    case DoneDl(_, _) => DlKind
  }

  function TallyOf(s: State, k: Kind): Tally {
    match k
    case OobKind => s.oobTally
    case RconKind => s.rconTally
    case DlKind => s.dlTally
  }

  /** The clock the log throttle reads for an event. */
  function LogClock(e: Event): int {
    if e.Oob? then e.again else Clock(e)
  }

  /** Events of a kind that did not reach the original handler. */
  function Stopped(s: State, es: seq<Event>, k: Kind): nat
    requires StateOk(s)
    decreases |es|
  {
    if es == [] then 0
    else
      var r := Do(s, es[0]);
      (if KindOf(es[0]) == k && r.effect != Forward then 1 else 0) + Stopped(r.state, es[1..], k)
  }

  /** The sum of the counts printed. */
  function Printed(s: State, es: seq<Event>, k: Kind): int
    requires StateOk(s)
    decreases |es|
  {
    if es == [] then 0
    else
      var r := Do(s, es[0]);
      (if KindOf(es[0]) == k && r.effect.Report? then r.effect.count else 0) + Printed(r.state, es[1..], k)
  }

  /** How many lines were printed. */
  function Lines(s: State, es: seq<Event>, k: Kind): nat
    requires StateOk(s)
    decreases |es|
  {
    if es == [] then 0
    else
      var r := Do(s, es[0]);
      (if KindOf(es[0]) == k && r.effect.Report? then 1 else 0) + Lines(r.state, es[1..], k)
  }

  /** Every drop is printed exactly once or still pending, for each of the three
      counters, however the detours interleave. */
  lemma {:induction false} LogAccountsForDrops(s: State, es: seq<Event>, k: Kind)
    requires StateOk(s)
    ensures Printed(s, es, k) + TallyOf(RunState(s, es), k).dropped
            == TallyOf(s, k).dropped + Stopped(s, es, k)
    decreases |es|
  {
    if es != [] {
      LogAccountsForDrops(Do(s, es[0]).state, es[1..], k);
    }
  }

  /** Every line comes at least 5001 ms after the one before it. */
  lemma {:induction false} LinesAfterLast(s: State, es: seq<Event>, k: Kind, until: int)
    requires StateOk(s)
    requires forall i | 0 <= i < |es| && KindOf(es[i]) == k :: LogClock(es[i]) <= until
    ensures var n := Lines(s, es, k);
            n > 0 ==> TallyOf(s, k).lastMsg + 5001 * n <= until
    decreases |es|
  {
    if es != [] {
      LinesAfterLast(Do(s, es[0]).state, es[1..], k, until);
    }
  }

  lemma {:induction false} LinesInWindow(s: State, es: seq<Event>, k: Kind, since: int, until: int)
    requires StateOk(s)
    requires forall i | 0 <= i < |es| && KindOf(es[i]) == k :: since <= LogClock(es[i]) <= until
    ensures var n := Lines(s, es, k); n > 0 ==> since + 5001 * (n - 1) <= until
    decreases |es|
  {
    if es != [] {
      var r := Do(s, es[0]);
      LinesInWindow(r.state, es[1..], k, since, until);
      LinesAfterLast(r.state, es[1..], k, until);
      NoteMarks(s, es[0], k);
    }
  }

  lemma NoteMarks(s: State, e: Event, k: Kind)
    requires StateOk(s)
    ensures var r := Do(s, e);
            KindOf(e) == k && r.effect.Report? ==> TallyOf(r.state, k).lastMsg == LogClock(e)
  {
    hide Serve, Call;
  }

  /** The log cannot be flooded: in any T ms, however they follow what came before,
      a counter prints at most 1 + T / 5001 lines. */
  lemma {:induction false} LogIsThrottled(s: State, es: seq<Event>, k: Kind, since: int, span: nat)
    requires StateOk(s)
    requires forall i | 0 <= i < |es| && KindOf(es[i]) == k :: since <= LogClock(es[i]) <= since + span
    ensures Lines(s, es, k) <= 1 + span / 5001
  {
    hide Lines;
    LinesInWindow(s, es, k, since, since + span);
  }
}
