/**
 The limiter in plain terms: seconds, days, hits and amounts as a caller would count them,
 with none of the model's own measures (faucet/limiter.go:72-95, 103-228, 245-259).
 */
module LimiterLaws {
  import opened Prelude
  import opened HitWindow
  import opened RateLimiter
  import opened DripBucket
  import opened FullHistory

  /** 24 hours and one hour, in nanoseconds; nothing else has a default. */
  lemma DefaultsAre(c: Config)
    ensures var d := WithDefaults(c);
            && d.addrWindow == (if c.addrWindow == 0 then 86_400_000_000_000 else c.addrWindow)
            && d.ipWindow == (if c.ipWindow == 0 then 3_600_000_000_000 else c.ipWindow)
            && d.addrMax == c.addrMax && d.ipMax == c.ipMax && d.dailyCap == c.dailyCap && d.grant == c.grant
            && d.dripBurst == c.dripBurst && d.dripRate == c.dripRate
  {
  }

  // ---- The drip, in seconds

  lemma AccruedInSeconds(cfg: Config, span: int)
    ensures Accrued(cfg, span) == (cfg.dripRate * span) as real / 1_000_000_000.0
    ensures Accrued(cfg, span) * 1_000_000_000.0 == (cfg.dripRate * span) as real
  {
    var (x, y) := (span as real, cfg.dripRate as real);
    assert (cfg.dripRate * span) as real == y * x;
    assert (x / 1_000_000_000.0) * y == y * x / 1_000_000_000.0;
  }

  lemma ScaledBound(net: real, burst: int, accrued: real, whole: int, netWhole: int)
    requires net == netWhole as real && accrued * 1_000_000_000.0 == whole as real
    requires net <= burst as real + accrued
    ensures (netWhole - burst) * 1_000_000_000 <= whole
  {
    assert (net - burst as real) * 1_000_000_000.0 <= accrued * 1_000_000_000.0;
    assert ((netWhole - burst) * 1_000_000_000) as real == (net - burst as real) * 1_000_000_000.0;
  }

  function Where(p: nat -> bool, n: nat): set<nat> { set i: nat | i < n && p(i) }

  lemma WhereGrows(p: nat -> bool, n: nat)
    ensures |Where(p, n + 1)| == |Where(p, n)| + if p(n) then 1 else 0
  {
    assert Where(p, n + 1) == Where(p, n) + if p(n) then {n} else {};
  }

  /** The first of n + 1 places, and the others counted from it. */
  lemma {:induction false} WhereShifts(p: nat -> bool, q: nat -> bool, n: nat)
    requires forall i: nat | i < n :: q(i) == p(i + 1)
    ensures |Where(p, n + 1)| == (if p(0) then 1 else 0) + |Where(q, n)|
  {
    WhereGrows(p, n);
    if n == 0 {
      assert Where(p, 0) == {} && Where(q, 0) == {};
    } else {
      WhereShifts(p, q, n - 1);
      WhereGrows(q, n - 1);
    }
  }

  function GrantedAt(answers: seq<Option<Verdict>>): nat -> bool { (i: nat) => i < |answers| && answers[i] == Some(Granted) }

  function RefundAt(ops: seq<Op>): nat -> bool { (i: nat) => i < |ops| && ops[i].RefundOp? }

  lemma FirstAnswer(cfg: Config, s: State, ops: seq<Op>, answers: seq<Option<Verdict>>)
    requires answers == Verdicts(cfg, s, ops) && ops != []
    ensures answers != [] && answers[1..] == Verdicts(cfg, Apply(cfg, s, ops[0]), ops[1..])
    ensures NetGrants(cfg, s, ops) == NetGrants(cfg, Apply(cfg, s, ops[0]), ops[1..])
                                      + if answers[0] == Some(Granted) then 1 else if ops[0].RefundOp? then -1 else 0
    ensures answers[0] == Some(Granted) ==> ops[0].AllowOp?
  {
    assert answers[0] == VerdictOf(cfg, s, ops[0]);
  }

  lemma CountedStep(ops: seq<Op>, answers: seq<Option<Verdict>>, rest: seq<Op>, others: seq<Option<Verdict>>)
    requires |answers| == |ops| > 0 && rest == ops[1..] && others == answers[1..]
    ensures |Where(GrantedAt(answers), |ops|)| == (if answers[0] == Some(Granted) then 1 else 0) + |Where(GrantedAt(others), |rest|)|
    ensures |Where(RefundAt(ops), |ops|)| == (if ops[0].RefundOp? then 1 else 0) + |Where(RefundAt(rest), |rest|)|
  {
    WhereShifts(GrantedAt(answers), GrantedAt(others), |rest|);
    WhereShifts(RefundAt(ops), RefundAt(rest), |rest|);
  }

  /** Calls answered "granted", less refunds. */
  lemma {:induction false} NetGrantsAreCounted(cfg: Config, s: State, ops: seq<Op>, answers: seq<Option<Verdict>>)
    requires answers == Verdicts(cfg, s, ops)
    ensures |answers| == |ops|
    ensures NetGrants(cfg, s, ops) == |Where(GrantedAt(answers), |ops|)| - |Where(RefundAt(ops), |ops|)|
    decreases |ops|
  {
    if ops == [] {
      assert Where(GrantedAt(answers), 0) == {} && Where(RefundAt(ops), 0) == {};
    } else {
      var (s', rest, others) := (Apply(cfg, s, ops[0]), ops[1..], answers[1..]);
      FirstAnswer(cfg, s, ops, answers);
      NetGrantsAreCounted(cfg, s', rest, others);
      CountedStep(ops, answers, rest, others);
    }
  }

  /** The calls answered "granted". */
  function GrantedIn(answers: seq<Option<Verdict>>): set<nat> { set i: nat | i < |answers| && answers[i] == Some(Granted) }

  function RefundsIn(ops: seq<Op>): set<nat> { set i: nat | i < |ops| && ops[i].RefundOp? }

  lemma NetGrantsCounted(cfg: Config, s: State, ops: seq<Op>, answers: seq<Option<Verdict>>, net: int)
    requires answers == Verdicts(cfg, s, ops) && net == NetGrants(cfg, s, ops)
    ensures |answers| == |ops| && net == |GrantedIn(answers)| - |RefundsIn(ops)|
  {
    NetGrantsAreCounted(cfg, s, ops, answers);
    assert Where(GrantedAt(answers), |ops|) == GrantedIn(answers);
    assert Where(RefundAt(ops), |ops|) == RefundsIn(ops);
  }

  /**
   In every interval of every run from startup, the calls answered "granted" less the
   refunds come to at most one burst and the rate for every whole 1,000,000,000 nanoseconds.
   */
  lemma OutflowInWholeUnits(cfg: Config, before: seq<Op>, s: State, within: seq<Op>, start: Time, lo: Time, hi: Time, answers: seq<Option<Verdict>>)
    requires Sane(cfg) && cfg.dripBurst > 0 && Chronological(before, start, lo) && Chronological(within, lo, hi)
    requires s == Run(cfg, Initial(cfg), before) && answers == Verdicts(cfg, s, within)
    ensures |answers| == |within|
    ensures ((|GrantedIn(answers)| - |RefundsIn(within)|) * cfg.grant - cfg.dripBurst) * 1_000_000_000 <= cfg.dripRate * (hi - lo)
  {
    var net := NetGrants(cfg, s, within);
    OutflowInAnyInterval(cfg, before, within, start, lo, hi);
    NetInWholeUnits(cfg, net, lo, hi);
    NetGrantsCounted(cfg, s, within, answers, net);
  }

  lemma NetInWholeUnits(cfg: Config, net: int, lo: Time, hi: Time)
    requires (net * cfg.grant) as real <= cfg.dripBurst as real + Accrued(cfg, hi - lo)
    ensures (net * cfg.grant - cfg.dripBurst) * 1_000_000_000 <= cfg.dripRate * (hi - lo)
  {
    AccruedInSeconds(cfg, hi - lo);
    ScaledBound((net * cfg.grant) as real, cfg.dripBurst, Accrued(cfg, hi - lo), cfg.dripRate * (hi - lo), net * cfg.grant);
  }

  /** n seconds after it was last touched a bucket shows its tokens and n times the rate, up to the burst. */
  lemma BucketAfterSeconds(cfg: Config, s: State, t: Time, n: nat)
    requires cfg.dripBurst > 0 && s.drip.last == Some(t) && s.drip.tokens <= cfg.dripBurst as real
    ensures var sum := s.drip.tokens + (n * cfg.dripRate) as real;
            SnapshotAt(cfg, s, t + n * 1_000_000_000).dripTokens == if sum > cfg.dripBurst as real then cfg.dripBurst as real else sum
  {
    AccruedInSeconds(cfg, n * 1_000_000_000);
    assert cfg.dripRate * (n * 1_000_000_000) == (n * cfg.dripRate) * 1_000_000_000;
    assert ((n * cfg.dripRate) * 1_000_000_000) as real / 1_000_000_000.0 == (n * cfg.dripRate) as real;
  }

  /** A bucket never touched is full, and stays so. */
  lemma UntouchedBucketIsFull(cfg: Config, now: Time)
    requires cfg.dripBurst > 0
    ensures SnapshotAt(cfg, Initial(cfg), now).dripTokens == cfg.dripBurst as real
    ensures cfg.addrMax > 0 && cfg.ipMax > 0 && 0 <= cfg.grant <= cfg.dailyCap ==>
              forall addr, ip :: AllowStep(cfg, Initial(cfg), addr, ip, now).1 == if cfg.grant <= cfg.dripBurst then Granted else DripLimited
  {
  }

  // ---- One call

  /** What the bucket holds at an instant. */
  function Available(cfg: Config, s: State, now: Time): real {
    if s.drip.last.None? || now <= s.drip.last.value then s.drip.tokens
    else
      var sum := s.drip.tokens + (cfg.dripRate * (now - s.drip.last.value)) as real / 1_000_000_000.0;
      if sum > cfg.dripBurst as real then cfg.dripBurst as real else sum
  }

  lemma WindowIs(hits: Hits, now: Time, window: int)
    ensures CountFrom(hits, now - window) == |set i | 0 <= i < |hits| && now - window <= hits[i]|
  {
    CountFromIsCardinality(hits, now - window);
    assert FreshIndices(hits, now - window) == set i | 0 <= i < |hits| && now - window <= hits[i];
  }

  /** Sweeping does not change what is counted. */
  lemma SweptCounts(m: HitMap, key: string, cutoff: Time)
    ensures CountFrom(Lookup(Swept(m, cutoff), key), cutoff) == CountFrom(Lookup(m, key), cutoff)
  {
    if key in m {
      CountOfPruned(m[key], cutoff, cutoff);
    }
  }

  lemma RolledCounts(m: HitMap, rolled: HitMap, key: string, cutoff: Time, rolls: bool)
    requires rolled == if rolls then Swept(m, cutoff) else m
    ensures CountFrom(Lookup(rolled, key), cutoff) == CountFrom(Lookup(m, key), cutoff)
  {
    SweptCounts(m, key, cutoff);
  }

  lemma AfterRollover(cfg: Config, s: State, r: State, now: Time, rolls: bool)
    requires r == Rolled(cfg, s, now)
    requires rolls <==> !(s.dayStart.Some? && s.dayStart.value / 86_400_000_000_000 == now / 86_400_000_000_000)
    ensures r.addrHits == if rolls then Swept(s.addrHits, now - cfg.addrWindow) else s.addrHits
    ensures r.ipHits == if rolls then Swept(s.ipHits, now - cfg.ipWindow) else s.ipHits
    ensures r.daySpent == (if rolls then 0 else s.daySpent) && r.drip == s.drip
  {
  }

  lemma RefilledIs(cfg: Config, s: State, now: Time)
    ensures Refilled(cfg, s.drip, now).tokens == Available(cfg, s, now)
  {
    if s.drip.last.Some? {
      AccruedInSeconds(cfg, now - s.drip.last.value);
    }
  }

  lemma JudgedBy(cfg: Config, r: State, addr: string, ip: string, now: Time, hits: nat, ipHits: nat, tokens: real)
    requires hits == CountFrom(Lookup(r.addrHits, addr), now - cfg.addrWindow) && ipHits == CountFrom(Lookup(r.ipHits, ip), now - cfg.ipWindow)
    requires tokens == Refilled(cfg, r.drip, now).tokens
    ensures var v := Judged(cfg, r, addr, ip, now);
            && (v.Cooldown? <==> hits >= cfg.addrMax)
            && (v.RateLimited? <==> hits < cfg.addrMax && ipHits >= cfg.ipMax)
            && (v.DailyCapReached? <==> hits < cfg.addrMax && ipHits < cfg.ipMax && r.daySpent + cfg.grant > cfg.dailyCap)
            && (v.DripLimited? <==> hits < cfg.addrMax && ipHits < cfg.ipMax && r.daySpent + cfg.grant <= cfg.dailyCap
                                    && cfg.dripBurst > 0 && tokens < cfg.grant as real)
  {
  }

  /** Every verdict, exactly when: hits counted one by one, days of 86,400 seconds, the cap, the tokens. */
  lemma VerdictIs(cfg: Config, s: State, addr: string, ip: string, now: Time)
    ensures var v := AllowStep(cfg, s, addr, ip, now).1;
            var (a, b) := (if addr in s.addrHits then s.addrHits[addr] else [], if ip in s.ipHits then s.ipHits[ip] else []);
            var tooMany := |set i | 0 <= i < |a| && now - cfg.addrWindow <= a[i]| >= cfg.addrMax;
            var tooManyIp := |set i | 0 <= i < |b| && now - cfg.ipWindow <= b[i]| >= cfg.ipMax;
            var sameDay := s.dayStart.Some? && s.dayStart.value / 86_400_000_000_000 == now / 86_400_000_000_000;
            var overCap := (if sameDay then s.daySpent else 0) + cfg.grant > cfg.dailyCap;
            && (v.Cooldown? <==> tooMany)
            && (v.RateLimited? <==> !tooMany && tooManyIp)
            && (v.DailyCapReached? <==> !tooMany && !tooManyIp && overCap)
            && (v.DripLimited? <==> !tooMany && !tooManyIp && !overCap && cfg.dripBurst > 0 && Available(cfg, s, now) < cfg.grant as real)
  {
    var (a, b, r) := (Lookup(s.addrHits, addr), Lookup(s.ipHits, ip), Rolled(cfg, s, now));
    WindowIs(a, now, cfg.addrWindow);
    WindowIs(b, now, cfg.ipWindow);
    var rolls := !(s.dayStart.Some? && s.dayStart.value / 86_400_000_000_000 == now / 86_400_000_000_000);
    AfterRollover(cfg, s, r, now, rolls);
    RolledCounts(s.addrHits, r.addrHits, addr, now - cfg.addrWindow, rolls);
    RolledCounts(s.ipHits, r.ipHits, ip, now - cfg.ipWindow, rolls);
    RefilledIs(cfg, s, now);
    JudgedBy(cfg, r, addr, ip, now, CountFrom(a, now - cfg.addrWindow), CountFrom(b, now - cfg.ipWindow), Available(cfg, s, now));
  }

  /** What a call leaves of the day's count and of the bucket. */
  lemma BudgetAfterAllow(cfg: Config, s: State, addr: string, ip: string, now: Time)
    ensures var (s', v) := AllowStep(cfg, s, addr, ip, now);
            var sameDay := s.dayStart.Some? && s.dayStart.value / 86_400_000_000_000 == now / 86_400_000_000_000;
            var charge := if v.Granted? then cfg.grant else 0;
            && s'.dayStart == (if sameDay then s.dayStart else Some(now))
            && s'.daySpent == (if sameDay then s.daySpent else 0) + charge
            && (cfg.dripBurst > 0 && (v.Granted? || v.DripLimited?) ==> s'.drip.tokens == Available(cfg, s, now) - charge as real)
            && (cfg.dripBurst <= 0 || !(v.Granted? || v.DripLimited?) ==> s'.drip == s.drip)
  {
    RefilledIs(cfg, s, now);
  }

  /** Recording adds one to what a window of any length counts, behind hits that are all still fresh. */
  lemma RecordedCounts(hits: Hits, now: Time, window: int, recorded: Hits)
    requires recorded == Pruned(hits, now - window) + [now]
    ensures CountFrom(recorded, now - window) == CountFrom(hits, now - window) + if window >= 0 then 1 else 0
    ensures forall t | t in recorded :: t >= now - window || t == now
  {
    CountAppended(Pruned(hits, now - window), now, now - window);
    CountOfPruned(hits, now - window, now - window);
    PrunedAreFresh(hits, now - window);
  }

  lemma {:induction false} PrunedAreFresh(hits: Hits, cutoff: Time)
    ensures forall t | t in Pruned(hits, cutoff) :: t >= cutoff
  {
    if hits != [] {
      PrunedAreFresh(hits[..|hits| - 1], cutoff);
    }
  }

  lemma GrantRecords(cfg: Config, s: State, r: State, s': State, addr: string, ip: string, now: Time)
    requires r == Rolled(cfg, s, now) && Judged(cfg, r, addr, ip, now).Granted? && s' == AllowStep(cfg, s, addr, ip, now).0
    ensures s'.addrHits == r.addrHits[addr := Pruned(Lookup(r.addrHits, addr), now - cfg.addrWindow) + [now]]
    ensures s'.ipHits == r.ipHits[ip := Pruned(Lookup(r.ipHits, ip), now - cfg.ipWindow) + [now]]
  {
  }

  /** The list under own ends with this instant, behind hits that are all still fresh, and counts once more; no other list counts differently. */
  ghost predicate CountsOneMore(was: HitMap, after: HitMap, own: string, now: Time, window: int) {
    && own in after && after[own] != [] && after[own][|after[own]| - 1] == now
    && (forall t | t in after[own] :: t >= now - window || t == now)
    && forall key ::
         CountFrom(Lookup(after, key), now - window) == CountFrom(Lookup(was, key), now - window) + if key == own && window >= 0 then 1 else 0
  }

  predicate CountsAlike(was: HitMap, after: HitMap, key: string, cutoff: Time) {
    CountFrom(Lookup(after, key), cutoff) == CountFrom(Lookup(was, key), cutoff)
  }

  lemma RolledCountAlike(was: HitMap, rolled: HitMap, cutoff: Time, rolls: bool)
    requires rolled == if rolls then Swept(was, cutoff) else was
    ensures forall key :: CountsAlike(was, rolled, key, cutoff)
  {
    forall key ensures CountsAlike(was, rolled, key, cutoff) {
      RolledCounts(was, rolled, key, cutoff, rolls);
    }
  }

  lemma RecordingCounts(was: HitMap, rolled: HitMap, after: HitMap, own: string, now: Time, window: int, from: Time, list: Hits)
    requires from == now - window && forall key :: CountsAlike(was, rolled, key, from)
    requires list == Pruned(Lookup(rolled, own), from) + [now] && after == rolled[own := list]
    ensures CountsOneMore(was, after, own, now, window)
  {
    RecordedCounts(Lookup(rolled, own), now, window, list);
    forall key
      ensures CountFrom(Lookup(after, key), now - window) == CountFrom(Lookup(was, key), now - window) + if key == own && window >= 0 then 1 else 0
    {
      assert CountsAlike(was, rolled, key, from);
      assert Lookup(after, key) == if key == own then list else Lookup(rolled, key);
    }
  }

  /** A grant counts once more for its address and its IP address, and for no other. */
  lemma HitsAfterGrant(cfg: Config, s: State, s': State, addr: string, ip: string, now: Time)
    requires AllowStep(cfg, s, addr, ip, now) == (s', Granted)
    ensures CountsOneMore(s.addrHits, s'.addrHits, addr, now, cfg.addrWindow)
    ensures CountsOneMore(s.ipHits, s'.ipHits, ip, now, cfg.ipWindow)
  {
    var r := Rolled(cfg, s, now);
    var rolls := !(s.dayStart.Some? && s.dayStart.value / 86_400_000_000_000 == now / 86_400_000_000_000);
    AfterRollover(cfg, s, r, now, rolls);
    GrantRecords(cfg, s, r, s', addr, ip, now);
    var (a, b) := (now - cfg.addrWindow, now - cfg.ipWindow);
    RolledCountAlike(s.addrHits, r.addrHits, a, rolls);
    RolledCountAlike(s.ipHits, r.ipHits, b, rolls);
    RecordingCounts(s.addrHits, r.addrHits, s'.addrHits, addr, now, cfg.addrWindow, a, s'.addrHits[addr]);
    RecordingCounts(s.ipHits, r.ipHits, s'.ipHits, ip, now, cfg.ipWindow, b, s'.ipHits[ip]);
  }

  /** What a refund leaves: both lists one shorter at the end, the day credited on its own day, the bucket at most full. */
  lemma AfterRefund(cfg: Config, s: State, addr: string, ip: string, at: Time, now: Time)
    ensures var s' := RefundStep(cfg, s, addr, ip, at, now);
            var (a, b) := (if addr in s.addrHits then s.addrHits[addr] else [], if ip in s.ipHits then s.ipHits[ip] else []);
            var sameDay := s.dayStart.Some? && s.dayStart.value / 86_400_000_000_000 == at / 86_400_000_000_000;
            var tokens := Available(cfg, s, now) + cfg.grant as real;
            && s'.addrHits == s.addrHits[addr := if a == [] then [] else a[..|a| - 1]]
            && s'.ipHits == s.ipHits[ip := if b == [] then [] else b[..|b| - 1]]
            && s'.dayStart == s.dayStart
            && s'.daySpent == (if !sameDay then s.daySpent else if s.daySpent < cfg.grant then 0 else s.daySpent - cfg.grant)
            && (cfg.dripBurst <= 0 ==> s'.drip == s.drip)
            && (cfg.dripBurst > 0 ==> s'.drip.tokens == if tokens > cfg.dripBurst as real then cfg.dripBurst as real else tokens)
  {
    RefilledIs(cfg, s, now);
  }

  /** What a snapshot shows. */
  lemma SnapshotIs(cfg: Config, s: State, now: Time)
    ensures var snap := SnapshotAt(cfg, s, now);
            var sameDay := s.dayStart.Some? && s.dayStart.value / 86_400_000_000_000 == now / 86_400_000_000_000;
            && snap.dripEnabled == (cfg.dripBurst > 0) && snap.dripBurst == cfg.dripBurst && snap.dailyCap == cfg.dailyCap
            && snap.daySpent == (if sameDay then s.daySpent else 0)
            && snap.dripTokens == (if cfg.dripBurst > 0 then Available(cfg, s, now) else 0.0)
  {
    RefilledIs(cfg, s, now);
    if s.drip.last.Some? {
      AccruedInSeconds(cfg, now - s.drip.last.value);
    }
  }
}
