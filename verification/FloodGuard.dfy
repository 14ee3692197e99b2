/**
  The packet detours built on the limiter: the connectionless-packet guard with
  its per-address and aggregate buckets, the rcon throttle and the download
  guard, each with its throttled log line.

  Clock readings and cvar values are parameters: `now` is what `OOB_NowMs`
  returned, `vIp` and `vAll` what `Proxy_CvarInt` returned.
 */
module FloodGuard {
  import opened RateLimiter
  import opened BucketTable

  const LOOPBACK: Ip := 0x0100007F
  const OOB_BUCKETS: nat := 256
  const RCON_BUCKETS: nat := 64
  const RCON_BURST: int := 5
  const RCON_PERIOD: int := 2000
  const QUIET: int := 5000

  /** What a detour does to the outside world. */
  datatype Effect = Forward | Swallow | Report(count: int)

  /** A drop counter with the time of its last log line. */
  datatype Tally = Tally(dropped: int, lastMsg: int)

  datatype TallyOutcome = TallyOutcome(tally: Tally, effect: Effect)

  /** Count one drop; log the count when the last line is old enough. */
  function Note(t: Tally, now: int): TallyOutcome {
    if t.lastMsg + QUIET < now then TallyOutcome(Tally(0, now), Report(t.dropped + 1))
    else TallyOutcome(Tally(t.dropped + 1, t.lastMsg), Swallow)
  }

  /** The cached configuration: `oob_cfg_ip`, `oob_cfg_all`, `oob_cfg_time`. */
  datatype Config = Config(ip: int, all: int, time: int)

  function Pick1000(v: int, absent: int): int {
    if v > 0 then (if v > 1000 then 1000 else v) else absent
  }

  function Refresh(c: Config, now: int, vIp: int, vAll: int): Config {
    if c.time != 0 && now - c.time < 5000 then c
    else Config(Pick1000(vIp, 1), Pick1000(vAll, 1000), now)
  }

  /** Zero time means never read; otherwise both rates are usable divisors. */
  predicate ConfigOk(c: Config) {
    c.time != 0 ==> 1 <= c.ip <= 1000 && 1 <= c.all <= 1000
  }

  predicate Usable(c: Config) { 1 <= c.ip <= 1000 && 1 <= c.all <= 1000 }

  lemma RefreshIsUsable(c: Config, now: int, vIp: int, vAll: int)
    requires ConfigOk(c)
    ensures Usable(Refresh(c, now, vIp, vAll)) && ConfigOk(Refresh(c, now, vIp, vAll))
  {
  }

  function IpLimits(c: Config): Limits
    requires Usable(c)
  {
    Limits(10 * c.ip, 1000 / c.ip)
  }

  function AllLimits(c: Config): Limits
    requires Usable(c)
  {
    Limits(c.all, 1000 / c.all)
  }

  /** The whole static state of the guard. */
  datatype State = State(oob: seq<Slot>, global: Level, cfg: Config, oobTally: Tally,
                         rcon: seq<Slot>, rconTally: Tally, dlTally: Tally)

  predicate StateOk(s: State) {
    |s.oob| == OOB_BUCKETS && |s.rcon| == RCON_BUCKETS && ConfigOk(s.cfg)
  }

  /** The statics before the first packet. */
  function Start(): (s: State)
    ensures StateOk(s)
  {
    State(Unused(OOB_BUCKETS), EMPTY, Config(-1, -1, 0), Tally(0, 0), Unused(RCON_BUCKETS), Tally(0, 0), Tally(0, 0))
  }

  datatype Packet = Packet(ip: Ip, now: int, vIp: int, vAll: int)

  datatype Verdict = Verdict(state: State, drop: bool)

  /** `OOB_ShouldDrop`. */
  function ShouldDrop(s: State, p: Packet): (v: Verdict)
    requires StateOk(s)
    ensures StateOk(v.state)
  {
    if p.ip == LOOPBACK then Verdict(s, false)
    else
      var c := Refresh(s.cfg, p.now, p.vIp, p.vAll);
      RefreshIsUsable(s.cfg, p.now, p.vIp, p.vAll);
      var o := Serve(s.oob, IpLimits(c), Request(p.ip, p.now));
      var s1 := s.(cfg := c, oob := o.table);
      if o.drop then Verdict(s1, true)
      else
        var a := Call(s.global, AllLimits(c).maxBurst, AllLimits(c).period, p.now);
        Verdict(s1.(global := a.level), a.drop)
  }

  datatype Step = Step(state: State, effect: Effect)

  /** `Detour_Connless`; the clock is read a second time when the packet drops. */
  function Connless(s: State, p: Packet, again: int): (r: Step)
    requires StateOk(s)
    ensures StateOk(r.state)
  {
    var v := ShouldDrop(s, p);
    if v.drop then
      var n := Note(v.state.oobTally, again);
      Step(v.state.(oobTally := n.tally), n.effect)
    else Step(v.state, Forward)
  }

  /** `Detour_Rcon`. */
  function Rcon(s: State, ip: Ip, now: int): (r: Step)
    requires StateOk(s)
    ensures StateOk(r.state)
  {
    if ip == LOOPBACK then Step(s, Forward)
    else
      var o := Serve(s.rcon, Limits(RCON_BURST, RCON_PERIOD), Request(ip, now));
      var s1 := s.(rcon := o.table);
      if o.drop then
        var n := Note(s.rconTally, now);
        Step(s1.(rconTally := n.tally), n.effect)
      else Step(s1, Forward)
  }

  /** `Detour_DoneDownload`. */
  function DoneDownload(s: State, allow: int, now: int): (r: Step)
    requires StateOk(s)
    ensures StateOk(r.state)
  {
    if allow != 0 then Step(s, Forward)
    else
      var n := Note(s.dlTally, now);
      Step(s.(dlTally := n.tally), n.effect)
  }

  // ------------------------------------------------------------------
  // The static variables and the functions that update them
  // ------------------------------------------------------------------

  method NewTable(n: nat) returns (t: array<Bucket>)
    ensures fresh(t) && t.Length == n && Separate(t[..])
    ensures forall i | 0 <= i < n :: fresh(t[i]) && t[i].View() == Slot(false, 0, EMPTY)
  {
    if n == 0 {
      t := new Bucket[0];
      return;
    }
    var first := new Bucket();
    t := new Bucket[n](_ => first);
    for i := 1 to n
      invariant fresh(first) && first.View() == Slot(false, 0, EMPTY)
      invariant forall j | 0 <= j < n :: fresh(t[j]) && t[j].View() == Slot(false, 0, EMPTY)
      invariant t[0] == first && forall j | i <= j < n :: t[j] == first
      invariant forall j, k | 0 <= j < k < i :: t[j] != t[k]
      invariant fresh(t)
    {
      var b := new Bucket();
      t[i] := b;
    }
  }

  /** Find the bucket, then charge the request to it. */
  method Charge(t: array<Bucket>, ipi: Ip, maxBurst: int, period: int, now: int) returns (drop: bool)
    requires t.Length > 0 && Separate(t[..])
    modifies t[..]
    ensures TableOutcome(Views(t[..]), drop)
            == Serve(old(Views(t[..])), Limits(maxBurst, period), Request(ipi, now))
  {
    var b, k := BucketFor(t, ipi);
    ghost var claimed := Views(t[..]);
    drop := RateLimit(b, maxBurst, period, now);
    assert forall j | 0 <= j < t.Length && j != k :: t[..][j] != b && t[j].View() == claimed[j];
    assert Views(t[..]) == claimed[k := b.View()];
  }

  twostate lemma Untouched(t: seq<Bucket>)
    requires forall i | 0 <= i < |t| :: unchanged(t[i])
    ensures Views(t) == old(Views(t))
  {
  }

  class Guard {
    const oobTable: array<Bucket>
    const rconTable: array<Bucket>
    const oobGlobal: Bucket
    var oobDropped: int
    var oobLastMsg: int
    var cfgIp: int
    var cfgAll: int
    var cfgTime: int
    var rconDropped: int
    var rconLastMsg: int
    var dlDropped: int
    var dlLastMsg: int

    ghost predicate Valid()
      reads this, oobTable, rconTable
    {
      && oobTable != rconTable
      && oobTable.Length == OOB_BUCKETS && rconTable.Length == RCON_BUCKETS
      && Separate(oobTable[..]) && Separate(rconTable[..])
      && (forall i | 0 <= i < OOB_BUCKETS :: oobTable[i] != oobGlobal)
      && (forall j | 0 <= j < RCON_BUCKETS :: rconTable[j] != oobGlobal)
      && (forall i, j | 0 <= i < OOB_BUCKETS && 0 <= j < RCON_BUCKETS :: oobTable[i] != rconTable[j])
      && ConfigOk(Config(cfgIp, cfgAll, cfgTime))
    }

    ghost function Value(): (s: State)
      reads this, oobTable, rconTable, oobTable[..], rconTable[..], oobGlobal
      requires Valid()
      ensures StateOk(s)
    {
      State(Views(oobTable[..]), oobGlobal.View().level, Config(cfgIp, cfgAll, cfgTime),
            Tally(oobDropped, oobLastMsg), Views(rconTable[..]), Tally(rconDropped, rconLastMsg),
            Tally(dlDropped, dlLastMsg))
    }

    /** Zero-initialised statics, except `oob_cfg_ip` and `oob_cfg_all`. */
    constructor ()
      ensures Valid()
      ensures Value() == Start()
    {
      var o := NewTable(OOB_BUCKETS);
      var r := NewTable(RCON_BUCKETS);
      var g := new Bucket();
      oobTable, rconTable, oobGlobal := o, r, g;
      oobDropped, oobLastMsg, rconDropped, rconLastMsg, dlDropped, dlLastMsg := 0, 0, 0, 0, 0, 0;
      cfgIp, cfgAll, cfgTime := -1, -1, 0;
    }

    method RefreshCfg(now: int, vIp: int, vAll: int)
      requires Valid()
      modifies `cfgIp, `cfgAll, `cfgTime
      ensures Valid() && Usable(Config(cfgIp, cfgAll, cfgTime))
      ensures Value() == old(Value()).(cfg := Refresh(old(Value()).cfg, now, vIp, vAll))
    {
      if cfgTime != 0 && now - cfgTime < 5000 {
        return;
      }
      cfgTime := now;
      var v := vIp;
      cfgIp := if v > 0 then (if v > 1000 then 1000 else v) else 1;
      v := vAll;
      cfgAll := if v > 0 then (if v > 1000 then 1000 else v) else 1000;
    }

    method OobShouldDrop(p: Packet) returns (drop: bool)
      requires Valid()
      modifies `cfgIp, `cfgAll, `cfgTime, oobTable[..], oobGlobal
      ensures Valid()
      ensures Verdict(Value(), drop) == ShouldDrop(old(Value()), p)
    {
      hide Serve, Call;
      if p.ip == LOOPBACK {
        return false;
      }
      RefreshCfg(p.now, p.vIp, p.vAll);
      var period := 1000 / cfgIp;
      drop := Charge(oobTable, p.ip, 10 * cfgIp, period, p.now);
      Untouched(rconTable[..]);
      if drop {
        return;
      }
      period := 1000 / cfgAll;
      label L:
      drop := RateLimit(oobGlobal, cfgAll, period, p.now);
      Untouched@L(oobTable[..]);
      Untouched@L(rconTable[..]);
    }

    method DetourConnless(p: Packet, again: int) returns (e: Effect)
      requires Valid()
      modifies this, oobTable[..], oobGlobal
      ensures Valid()
      ensures Step(Value(), e) == Connless(old(Value()), p, again)
    {
      hide ShouldDrop;
      var drop := OobShouldDrop(p);
      if drop {
        oobDropped := oobDropped + 1;
        if oobLastMsg + 5000 < again {
          e := Report(oobDropped);
          oobLastMsg := again;
          oobDropped := 0;
        } else {
          e := Swallow;
        }
        return;
      }
      e := Forward;
    }

    method DetourRcon(ip: Ip, now: int) returns (e: Effect)
      requires Valid()
      modifies `rconDropped, `rconLastMsg, rconTable[..]
      ensures Valid()
      ensures Step(Value(), e) == Rcon(old(Value()), ip, now)
    {
      hide Serve;
      if ip != LOOPBACK {
        var drop := Charge(rconTable, ip, RCON_BURST, RCON_PERIOD, now);
        Untouched(oobTable[..]);
        if drop {
          rconDropped := rconDropped + 1;
          if rconLastMsg + 5000 < now {
            e := Report(rconDropped);
            rconLastMsg := now;
            rconDropped := 0;
          } else {
            e := Swallow;
          }
          return;
        }
      }
      e := Forward;
    }

    method DetourDoneDownload(allow: int, now: int) returns (e: Effect)
      requires Valid()
      modifies `dlDropped, `dlLastMsg
      ensures Valid()
      ensures Step(Value(), e) == DoneDownload(old(Value()), allow, now)
    {
      if allow != 0 {
        return Forward;
      }
      dlDropped := dlDropped + 1;
      if dlLastMsg + 5000 < now {
        e := Report(dlDropped);
        dlLastMsg := now;
        dlDropped := 0;
      } else {
        e := Swallow;
      }
    }
  }
}
