/**
 The faucet's rate limiter (faucet/limiter.go): two sliding windows keyed by address
 and by IP, a UTC-day budget, and a token bucket over the total outflow.
 The functions say what one locked call does to the limiter's state; class Limiter is
 the object that does it field by field and loop by loop.
 */
module RateLimiter {
  import opened Prelude
  import opened HitWindow

  const NANOS_PER_DAY: int := 86_400_000_000_000
  const NANOS_PER_HOUR: int := 3_600_000_000_000

  datatype Config = Config(
    addrWindow: int, addrMax: int,
    ipWindow: int, ipMax: int,
    dailyCap: int, grant: int,
    dripBurst: int, dripRate: int)

  /** A zero window means the default; every other zero is kept and fails closed. */
  function WithDefaults(cfg: Config): Config {
    cfg.(addrWindow := if cfg.addrWindow == 0 then 24 * NANOS_PER_HOUR else cfg.addrWindow,
         ipWindow := if cfg.ipWindow == 0 then NANOS_PER_HOUR else cfg.ipWindow)
  }

  /** Which of the two windows is meant. */
  datatype Axis = ByAddr | ByIp

  function WindowOf(cfg: Config, x: Axis): int { if x.ByAddr? then cfg.addrWindow else cfg.ipWindow }

  function MaxOf(cfg: Config, x: Axis): int { if x.ByAddr? then cfg.addrMax else cfg.ipMax }

  type HitMap = map<string, Hits>

  function Lookup(m: HitMap, key: string): Hits { if key in m then m[key] else [] }

  datatype Drip = Drip(tokens: real, last: Option<Time>)

  datatype State = State(addrHits: HitMap, ipHits: HitMap, daySpent: int, dayStart: Option<Time>, drip: Drip)

  function HitsOf(s: State, x: Axis): HitMap { if x.ByAddr? then s.addrHits else s.ipHits }

  function Initial(cfg: Config): State {
    State(map[], map[], 0, None, Drip(cfg.dripBurst as real, None))
  }

  /** The UTC calendar day, as a count of days. */
  function Day(t: Time): int { t / NANOS_PER_DAY }

  predicate SameDay(t: Time, start: Option<Time>) { start.Some? && Day(t) == Day(start.value) }

  function Swept(m: HitMap, cutoff: Time): HitMap {
    map k | k in m && Pruned(m[k], cutoff) != [] :: Pruned(m[k], cutoff)
  }

  /** The day rollover at the head of Allow. */
  function Rolled(cfg: Config, s: State, now: Time): State {
    if SameDay(now, s.dayStart) then s
    else State(Swept(s.addrHits, now - cfg.addrWindow), Swept(s.ipHits, now - cfg.ipWindow), 0, Some(now), s.drip)
  }

  /** What the bucket gains over a span of time, before the cap. */
  function Accrued(cfg: Config, span: int): real {
    (span as real / 1_000_000_000.0) * cfg.dripRate as real
  }

  function Capped(cfg: Config, tokens: real): real {
    if tokens > cfg.dripBurst as real then cfg.dripBurst as real else tokens
  }

  function Refilled(cfg: Config, d: Drip, now: Time): Drip {
    if d.last.None? then d.(last := Some(now))
    else if now <= d.last.value then d
    else Drip(Capped(cfg, d.tokens + Accrued(cfg, now - d.last.value)), Some(now))
  }

  datatype Verdict = Granted | Cooldown | RateLimited | DailyCapReached | DripLimited

  function Recorded(cfg: Config, s: State, addr: string, ip: string, now: Time, drip: Drip): State {
    State(s.addrHits[addr := Pruned(Lookup(s.addrHits, addr), now - cfg.addrWindow) + [now]],
          s.ipHits[ip := Pruned(Lookup(s.ipHits, ip), now - cfg.ipWindow) + [now]],
          s.daySpent + cfg.grant, s.dayStart, drip)
  }

  /** The checks, in the order address, IP, daily cap, drip. */
  function Judged(cfg: Config, s: State, addr: string, ip: string, now: Time): Verdict {
    if CountFrom(Lookup(s.addrHits, addr), now - cfg.addrWindow) >= cfg.addrMax then Cooldown
    else if CountFrom(Lookup(s.ipHits, ip), now - cfg.ipWindow) >= cfg.ipMax then RateLimited
    else if s.daySpent > cfg.dailyCap - cfg.grant then DailyCapReached
    else if cfg.dripBurst > 0 && Refilled(cfg, s.drip, now).tokens < cfg.grant as real then DripLimited
    else Granted
  }

  /** What a verdict leaves behind: a refusal records no hit, though the drip check has refilled the bucket. */
  function Acted(cfg: Config, s: State, v: Verdict, addr: string, ip: string, now: Time): State {
    match v
    case Granted => Recorded(cfg, s, addr, ip, now, Drawn(cfg, s.drip, now))
    case DripLimited => s.(drip := Refilled(cfg, s.drip, now))
    case _ => s
  }

  function Drawn(cfg: Config, d0: Drip, now: Time): Drip {
    if cfg.dripBurst <= 0 then d0
    else
      var d := Refilled(cfg, d0, now);
      d.(tokens := d.tokens - cfg.grant as real)
  }

  /** Allow: one locked call, rollover first. */
  function AllowStep(cfg: Config, s: State, addr: string, ip: string, now: Time): (State, Verdict) {
    var rolled := Rolled(cfg, s, now);
    var v := Judged(cfg, rolled, addr, ip, now);
    (Acted(cfg, rolled, v, addr, ip, now), v)
  }

  function Credited(cfg: Config, d0: Drip, now: Time): Drip {
    if cfg.dripBurst <= 0 then d0
    else
      var d := Refilled(cfg, d0, now);
      d.(tokens := Capped(cfg, d.tokens + cfg.grant as real))
  }

  function Uncharged(cfg: Config, s: State, grantedAt: Time): int {
    if SameDay(grantedAt, s.dayStart) then Max(0, s.daySpent - cfg.grant) else s.daySpent
  }

  /** Refund: drops the newest hit of both keys and credits the day and the bucket. */
  function RefundStep(cfg: Config, s: State, addr: string, ip: string, grantedAt: Time, now: Time): State {
    State(s.addrHits[addr := DropLast(Lookup(s.addrHits, addr))],
          s.ipHits[ip := DropLast(Lookup(s.ipHits, ip))],
          Uncharged(cfg, s, grantedAt), s.dayStart, Credited(cfg, s.drip, now))
  }

  datatype Snap = Snap(dripEnabled: bool, dripTokens: real, dripBurst: int, dailyCap: int, daySpent: int)

  /** The tokens the bucket would hold at an instant. */
  function Projected(cfg: Config, d: Drip, now: Time): real {
    if d.last.None? || now <= d.last.value then d.tokens
    else Capped(cfg, d.tokens + Accrued(cfg, now - d.last.value))
  }

  function SnapshotAt(cfg: Config, s: State, now: Time): Snap {
    Snap(cfg.dripBurst > 0,
         if cfg.dripBurst > 0 then Projected(cfg, s.drip, now) else 0.0,
         cfg.dripBurst, cfg.dailyCap,
         if SameDay(now, s.dayStart) then s.daySpent else 0)
  }

  class Limiter {
    const cfg: Config
    var addrHits: HitMap
    var ipHits: HitMap
    var daySpent: int
    var dayStart: Option<Time>
    var dripTokens: real
    var dripLast: Option<Time>

    ghost function View(): State
      reads this
    {
      State(addrHits, ipHits, daySpent, dayStart, Drip(dripTokens, dripLast))
    }

    constructor (c: Config)
      ensures cfg == WithDefaults(c) && View() == Initial(cfg)
    {
      cfg := WithDefaults(c);
      addrHits, ipHits := map[], map[];
      daySpent, dayStart := 0, None;
      dripTokens, dripLast := c.dripBurst as real, None;
    }

    /** Resets the daily counter on a new UTC day and sweeps the keys whose hits all aged out. */
    method RollOver(now: Time)
      modifies this
      ensures View() == Rolled(cfg, old(View()), now)
    {
      if !SameDay(now, dayStart) {
        daySpent := 0;
        dayStart := Some(now);
        addrHits := SweepStale(addrHits, now, cfg.addrWindow);
        ipHits := SweepStale(ipHits, now, cfg.ipWindow);
      }
    }

    method Allow(addr: string, ip: string, now: Time) returns (verdict: Verdict)
      modifies this
      ensures (View(), verdict) == AllowStep(cfg, old(View()), addr, ip, now)
    {
      RollOver(now);
      var count := CountWithin(Lookup(addrHits, addr), now, cfg.addrWindow);
      if count >= cfg.addrMax {
        return Cooldown;
      }
      count := CountWithin(Lookup(ipHits, ip), now, cfg.ipWindow);
      if count >= cfg.ipMax {
        return RateLimited;
      }
      if daySpent > cfg.dailyCap - cfg.grant {
        return DailyCapReached;
      }
      if cfg.dripBurst > 0 {
        RefillDrip(now);
        if dripTokens < cfg.grant as real {
          return DripLimited;
        }
        dripTokens := dripTokens - cfg.grant as real;
      }
      addrHits := addrHits[addr := Pruned(Lookup(addrHits, addr), now - cfg.addrWindow) + [now]];
      ipHits := ipHits[ip := Pruned(Lookup(ipHits, ip), now - cfg.ipWindow) + [now]];
      daySpent := daySpent + cfg.grant;
      return Granted;
    }

    method Refund(addr: string, ip: string, grantedAt: Time, now: Time)
      modifies this
      ensures View() == RefundStep(cfg, old(View()), addr, ip, grantedAt, now)
    {
      addrHits := addrHits[addr := DropLast(Lookup(addrHits, addr))];
      ipHits := ipHits[ip := DropLast(Lookup(ipHits, ip))];
      if SameDay(grantedAt, dayStart) {
        daySpent := daySpent - cfg.grant;
        if daySpent < 0 {
          daySpent := 0;
        }
      }
      if cfg.dripBurst > 0 {
        RefillDrip(now);
        dripTokens := dripTokens + cfg.grant as real;
        if dripTokens > cfg.dripBurst as real {
          dripTokens := cfg.dripBurst as real;
        }
      }
    }

    /** Reads without writing: no modifies clause, so taking a snapshot changes no later decision. */
    method Snapshot(now: Time) returns (snap: Snap)
      ensures snap == SnapshotAt(cfg, View(), now)
    {
      var spent := daySpent;
      if !SameDay(now, dayStart) {
        spent := 0;
      }
      var tokens := 0.0;
      if cfg.dripBurst > 0 {
        tokens := dripTokens;
        if dripLast.Some? {
          var elapsed := now - dripLast.value;
          if elapsed > 0 {
            tokens := tokens + Accrued(cfg, elapsed);
            if tokens > cfg.dripBurst as real {
              tokens := cfg.dripBurst as real;
            }
          }
        }
      }
      return Snap(cfg.dripBurst > 0, tokens, cfg.dripBurst, cfg.dailyCap, spent);
    }

    method RefillDrip(now: Time)
      modifies this`dripTokens, this`dripLast
      ensures Drip(dripTokens, dripLast) == Refilled(cfg, old(Drip(dripTokens, dripLast)), now)
    {
      if dripLast.None? {
        dripLast := Some(now);
        return;
      }
      var elapsed := now - dripLast.value;
      if elapsed <= 0 {
        return;
      }
      dripTokens := dripTokens + Accrued(cfg, elapsed);
      if dripTokens > cfg.dripBurst as real {
        dripTokens := cfg.dripBurst as real;
      }
      dripLast := Some(now);
    }
  }

  /** Visits every key once, in no particular order. */
  method SweepStale(hits: HitMap, now: Time, window: int) returns (out: HitMap)
    ensures out == Swept(hits, now - window)
  {
    var cutoff := now - window;
    out := hits;
    var todo := hits.Keys;
    while todo != {}
      invariant todo <= hits.Keys && out == SweptBut(hits, todo, cutoff)
      decreases |todo|
    {
      var k :| k in todo;
      var kept := Pruned(hits[k], cutoff);
      SweepStep(hits, todo, k, cutoff, kept);
      todo := todo - {k};
      if kept == [] {
        out := out - {k};
      } else {
        out := out[k := kept];
      }
    }
  }

  /** The map with only the keys outside todo swept. */
  function SweptBut(hits: HitMap, todo: set<string>, cutoff: Time): HitMap {
    map k | k in hits && (k in todo || Pruned(hits[k], cutoff) != []) :: if k in todo then hits[k] else Pruned(hits[k], cutoff)
  }

  lemma SweepStep(hits: HitMap, todo: set<string>, k: string, cutoff: Time, kept: Hits)
    requires k in todo && k in hits && kept == Pruned(hits[k], cutoff)
    ensures SweptBut(hits, todo - {k}, cutoff) ==
            if kept == [] then SweptBut(hits, todo, cutoff) - {k} else SweptBut(hits, todo, cutoff)[k := kept]
  {
  }
}
