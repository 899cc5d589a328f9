/**
 The token bucket over whole runs of the limiter: how much can flow out of it in an
 interval, and what a refund gives back (faucet/limiter.go:134-141, 171-182, 245-259).
 */
module DripBucket {
  import opened Prelude
  import opened HitWindow
  import opened RateLimiter

  /** What the operator's configuration is assumed to satisfy. */
  predicate Sane(cfg: Config) { cfg.grant >= 0 && cfg.dripRate >= 0 && cfg.dailyCap >= 0 }

  datatype Op =
    | AllowOp(addr: string, ip: string, now: Time)
    | RefundOp(addr: string, ip: string, grantedAt: Time, now: Time)

  function Apply(cfg: Config, s: State, op: Op): State {
    match op
    case AllowOp(addr, ip, now) => AllowStep(cfg, s, addr, ip, now).0
    case RefundOp(addr, ip, at, now) => RefundStep(cfg, s, addr, ip, at, now)
  }

  predicate Grants(cfg: Config, s: State, op: Op) {
    op.AllowOp? && AllowStep(cfg, s, op.addr, op.ip, op.now).1.Granted?
  }

  /** A run, oldest operation first. */
  function Run(cfg: Config, s: State, ops: seq<Op>): State
    decreases |ops|
  {
    if ops == [] then s else Run(cfg, Apply(cfg, s, ops[0]), ops[1..])
  }

  /** The clock readings never go back, and stay within [lo, hi]. */
  predicate Chronological(ops: seq<Op>, lo: Time, hi: Time) {
    if ops == [] then lo <= hi else lo <= ops[0].now && Chronological(ops[1..], ops[0].now, hi)
  }

  function NetOf(cfg: Config, s: State, op: Op): int {
    if Grants(cfg, s, op) then 1 else if op.RefundOp? then -1 else 0
  }

  /** Grants minus refunds. */
  function NetGrants(cfg: Config, s: State, ops: seq<Op>): int
    decreases |ops|
  {
    if ops == [] then 0
    else
      NetOf(cfg, s, ops[0]) + NetGrants(cfg, Apply(cfg, s, ops[0]), ops[1..])
  }

  /** The bucket's invariant: within [0, burst], and full while it has never been touched. */
  predicate DripOk(cfg: Config, d: Drip, clock: Time) {
    && 0.0 <= d.tokens <= cfg.dripBurst as real
    && (d.last.None? ==> d.tokens == cfg.dripBurst as real)
    && (d.last.Some? ==> d.last.value <= clock)
  }

  lemma AccruedAdds(cfg: Config, a: int, b: int)
    ensures Accrued(cfg, a) + Accrued(cfg, b) == Accrued(cfg, a + b)
  {
  }

  lemma AccruedNonnegative(cfg: Config, span: int)
    requires Sane(cfg) && span >= 0
    ensures Accrued(cfg, span) >= 0.0
  {
    var x, y := span as real / 1_000_000_000.0, cfg.dripRate as real;
    assert x >= 0.0 && y >= 0.0;
    assert x * y >= 0.0;
  }

  /** Saturating refill composes: refilling in two steps is refilling in one. */
  lemma RefillComposes(cfg: Config, d: Drip, s: Time, t: Time)
    requires Sane(cfg) && DripOk(cfg, d, s) && s <= t
    ensures Projected(cfg, d, t) == Capped(cfg, Projected(cfg, d, s) + Accrued(cfg, t - s))
    ensures Refilled(cfg, d, s) == Drip(Projected(cfg, d, s), Some(s))
    ensures 0.0 <= Projected(cfg, d, s) <= cfg.dripBurst as real
  {
    AccruedNonnegative(cfg, t - s);
    if d.last.Some? {
      AccruedNonnegative(cfg, s - d.last.value);
      AccruedAdds(cfg, s - d.last.value, t - s);
    }
  }

  /** What one operation does to the bucket. */
  lemma ApplyOnDrip(cfg: Config, s: State, op: Op)
    requires Sane(cfg) && cfg.dripBurst > 0 && DripOk(cfg, s.drip, op.now)
    ensures DripOk(cfg, Apply(cfg, s, op).drip, op.now)
    ensures Grants(cfg, s, op) ==>
              && Projected(cfg, s.drip, op.now) >= cfg.grant as real
              && Apply(cfg, s, op).drip == Drip(Projected(cfg, s.drip, op.now) - cfg.grant as real, Some(op.now))
    ensures op.RefundOp? ==>
              Apply(cfg, s, op).drip == Drip(Capped(cfg, Projected(cfg, s.drip, op.now) + cfg.grant as real), Some(op.now))
    ensures op.AllowOp? && !Grants(cfg, s, op) ==>
              Apply(cfg, s, op).drip == s.drip || Apply(cfg, s, op).drip == Drip(Projected(cfg, s.drip, op.now), Some(op.now))
  {
    RefillComposes(cfg, s.drip, op.now, op.now);
  }

  /** A refusal moves nothing: whatever the bucket would hold later, it still will. */
  lemma RefusalKeepsProjection(cfg: Config, s: State, op: Op, t: Time)
    requires Sane(cfg) && cfg.dripBurst > 0 && DripOk(cfg, s.drip, op.now) && op.now <= t
    requires op.AllowOp? && !Grants(cfg, s, op)
    ensures Projected(cfg, Apply(cfg, s, op).drip, t) == Projected(cfg, s.drip, t)
  {
    ApplyOnDrip(cfg, s, op);
    RefillComposes(cfg, s.drip, op.now, t);
    RefillComposes(cfg, Drip(Projected(cfg, s.drip, op.now), Some(op.now)), op.now, t);
  }

  lemma OperationSpendsFromBucket(cfg: Config, s: State, op: Op, net: int)
    requires Sane(cfg) && cfg.dripBurst > 0 && DripOk(cfg, s.drip, op.now)
    requires net == NetOf(cfg, s, op)
    ensures (net * cfg.grant) as real + Projected(cfg, Apply(cfg, s, op).drip, op.now) <= Projected(cfg, s.drip, op.now)
  {
    ApplyOnDrip(cfg, s, op);
    if op.AllowOp? && !Grants(cfg, s, op) {
      RefusalKeepsProjection(cfg, s, op, op.now);
    } else if Grants(cfg, s, op) {
      assert net * cfg.grant == cfg.grant;
    } else {
      assert net * cfg.grant == -cfg.grant;
    }
  }

  lemma ChainOutflow(step: int, rest: int, grant: int, p0: real, p1: real, p2: real, p3: real, a: real, b: real)
    requires (step * grant) as real + p2 <= p1 && p1 <= p0 + a
    requires (rest * grant) as real + p3 <= p2 + b
    ensures ((step + rest) * grant) as real + p3 <= p0 + (a + b)
  {
    assert (step + rest) * grant == step * grant + rest * grant;
  }

  /** One operation in front of a run whose outflow is bounded from its own instant on. */
  lemma OutflowStep(cfg: Config, s: State, op: Op, step: int, rest: int, left: real, lo: Time, hi: Time)
    requires Sane(cfg) && cfg.dripBurst > 0 && DripOk(cfg, s.drip, lo) && lo <= op.now <= hi && step == NetOf(cfg, s, op)
    requires (rest * cfg.grant) as real + left <= Projected(cfg, Apply(cfg, s, op).drip, op.now) + Accrued(cfg, hi - op.now)
    ensures DripOk(cfg, Apply(cfg, s, op).drip, op.now)
    ensures ((step + rest) * cfg.grant) as real + left <= Projected(cfg, s.drip, lo) + Accrued(cfg, hi - lo)
  {
    ApplyOnDrip(cfg, s, op);
    RefillComposes(cfg, s.drip, lo, op.now);
    AccruedAdds(cfg, op.now - lo, hi - op.now);
    OperationSpendsFromBucket(cfg, s, op, step);
    ChainOutflow(step, rest, cfg.grant, Projected(cfg, s.drip, lo), Projected(cfg, s.drip, op.now),
                 Projected(cfg, Apply(cfg, s, op).drip, op.now), left, Accrued(cfg, op.now - lo), Accrued(cfg, hi - op.now));
  }

  lemma ApplyKeepsDrip(cfg: Config, s: State, op: Op, lo: Time)
    requires Sane(cfg) && cfg.dripBurst > 0 && DripOk(cfg, s.drip, lo) && lo <= op.now
    ensures DripOk(cfg, Apply(cfg, s, op).drip, op.now)
  {
    ApplyOnDrip(cfg, s, op);
  }

  /** Every operation spends what it grants from the projected bucket, and no refill beats the rate. */
  lemma {:induction false} OutflowPlusBucketBounded(cfg: Config, s: State, ops: seq<Op>, lo: Time, hi: Time)
    requires Sane(cfg) && cfg.dripBurst > 0
    requires DripOk(cfg, s.drip, lo) && Chronological(ops, lo, hi)
    ensures lo <= hi && DripOk(cfg, Run(cfg, s, ops).drip, hi)
    ensures (NetGrants(cfg, s, ops) * cfg.grant) as real + Projected(cfg, Run(cfg, s, ops).drip, hi)
            <= Projected(cfg, s.drip, lo) + Accrued(cfg, hi - lo)
    decreases |ops|
  {
    if ops == [] {
      RefillComposes(cfg, s.drip, lo, hi);
    } else {
      var (op, s') := (ops[0], Apply(cfg, s, ops[0]));
      ApplyKeepsDrip(cfg, s, op, lo);
      OutflowPlusBucketBounded(cfg, s', ops[1..], op.now, hi);
      OutflowStep(cfg, s, op, NetOf(cfg, s, op), NetGrants(cfg, s', ops[1..]), Projected(cfg, Run(cfg, s', ops[1..]).drip, hi), lo, hi);
    }
  }

  lemma {:induction false} RunAppends(cfg: Config, s: State, before: seq<Op>, after: seq<Op>)
    ensures Run(cfg, s, before + after) == Run(cfg, Run(cfg, s, before), after)
    decreases |before|
  {
    if before == [] {
      assert before + after == after;
    } else {
      assert (before + after)[0] == before[0] && (before + after)[1..] == before[1..] + after;
      RunAppends(cfg, Apply(cfg, s, before[0]), before[1..], after);
    }
  }

  /**
   In every run from startup and every interval [lo, hi] of it, what flows out net of
   refunds is at most one burst plus the rate times the interval, and the bucket never
   leaves [0, burst].
   */
  lemma OutflowInAnyInterval(cfg: Config, before: seq<Op>, within: seq<Op>, start: Time, lo: Time, hi: Time)
    requires Sane(cfg) && cfg.dripBurst > 0
    requires Chronological(before, start, lo) && Chronological(within, lo, hi)
    ensures (NetGrants(cfg, Run(cfg, Initial(cfg), before), within) * cfg.grant) as real
            <= cfg.dripBurst as real + Accrued(cfg, hi - lo)
    ensures 0.0 <= Run(cfg, Initial(cfg), before + within).drip.tokens <= cfg.dripBurst as real
  {
    var s := Run(cfg, Initial(cfg), before);
    OutflowPlusBucketBounded(cfg, Initial(cfg), before, start, lo);
    OutflowPlusBucketBounded(cfg, s, within, lo, hi);
    RefillComposes(cfg, s.drip, lo, lo);
    RefillComposes(cfg, Run(cfg, s, within).drip, hi, hi);
    RunAppends(cfg, Initial(cfg), before, within);
  }

  /** The part of the state a snapshot depends on. */
  predicate StateOk(cfg: Config, s: State, clock: Time) {
    && s.daySpent >= 0
    && (s.dayStart.Some? ==> s.dayStart.value <= clock)
    && (s.dayStart.None? ==> s.daySpent == 0)
    && (cfg.dripBurst > 0 ==> DripOk(cfg, s.drip, clock))
  }

  lemma DayIsMonotone(s: Time, t: Time)
    requires s <= t
    ensures Day(s) <= Day(t)
  {
  }

  lemma ApplyStaysOk(cfg: Config, s: State, op: Op)
    requires Sane(cfg) && StateOk(cfg, s, op.now)
    ensures StateOk(cfg, Apply(cfg, s, op), op.now)
  {
    if cfg.dripBurst > 0 {
      ApplyOnDrip(cfg, s, op);
    }
  }

  lemma {:induction false} StateStaysOk(cfg: Config, s: State, ops: seq<Op>, lo: Time, hi: Time)
    requires Sane(cfg) && StateOk(cfg, s, lo) && Chronological(ops, lo, hi)
    ensures StateOk(cfg, Run(cfg, s, ops), hi)
    decreases |ops|
  {
    if ops != [] {
      ApplyStaysOk(cfg, s, ops[0]);
      StateStaysOk(cfg, Apply(cfg, s, ops[0]), ops[1..], ops[0].now, hi);
    }
  }

  /** Every operation of the run is an Allow that was refused. */
  predicate AllRefused(cfg: Config, s: State, ops: seq<Op>)
    decreases |ops|
  {
    ops == [] || (ops[0].AllowOp? && !Grants(cfg, s, ops[0]) && AllRefused(cfg, Apply(cfg, s, ops[0]), ops[1..]))
  }

  /** now is charged behind now0: the bucket lacks exactly the one grant that was spent at t0. */
  predicate OwesOneGrant(cfg: Config, now0: State, now: State, t0: Time, t: Time) {
    && (cfg.dripBurst > 0 ==>
          Projected(cfg, now0.drip, t) == Capped(cfg, Projected(cfg, now.drip, t) + cfg.grant as real))
    && now.dayStart.Some? && t0 <= t && Day(t0) <= Day(now.dayStart.value)
    && (now0.dayStart.Some? ==> Day(now0.dayStart.value) <= Day(t0))
    && now.daySpent == (if Day(t0) != Day(now.dayStart.value) then 0
                        else cfg.grant + (if SameDay(t0, now0.dayStart) then now0.daySpent else 0))
  }

  lemma GrantLeavesOneOwed(cfg: Config, s: State, op: Op, t: Time)
    requires Sane(cfg) && StateOk(cfg, s, op.now) && Grants(cfg, s, op) && op.now <= t
    ensures OwesOneGrant(cfg, s, Apply(cfg, s, op), op.now, t)
  {
    var s' := Apply(cfg, s, op);
    if cfg.dripBurst > 0 {
      ApplyOnDrip(cfg, s, op);
      RefillComposes(cfg, s.drip, op.now, t);
      RefillComposes(cfg, s'.drip, op.now, t);
    }
  }

  lemma RefusalKeepsOneOwed(cfg: Config, s0: State, s: State, op: Op, t0: Time, t: Time)
    requires Sane(cfg) && StateOk(cfg, s, op.now) && t0 <= op.now <= t
    requires op.AllowOp? && !Grants(cfg, s, op)
    requires OwesOneGrant(cfg, s0, s, t0, t)
    ensures OwesOneGrant(cfg, s0, Apply(cfg, s, op), t0, t)
  {
    if cfg.dripBurst > 0 {
      RefusalKeepsProjection(cfg, s, op, t);
    }
    DayIsMonotone(s.dayStart.value, op.now);
  }

  lemma {:induction false} RefusalsKeepOneOwed(cfg: Config, s0: State, s: State, ops: seq<Op>, t0: Time, lo: Time, t: Time)
    requires Sane(cfg) && StateOk(cfg, s, lo) && t0 <= lo
    requires Chronological(ops, lo, t) && AllRefused(cfg, s, ops)
    requires OwesOneGrant(cfg, s0, s, t0, t)
    ensures OwesOneGrant(cfg, s0, Run(cfg, s, ops), t0, t)
    decreases |ops|
  {
    if ops != [] {
      var op := ops[0];
      var s' := Apply(cfg, s, op);
      ChronologicalBound(ops[1..], op.now, t);
      ApplyStaysOk(cfg, s, op);
      RefusalKeepsOneOwed(cfg, s0, s, op, t0, t);
      RefusalsKeepOneOwed(cfg, s0, s', ops[1..], t0, op.now, t);
    }
  }

  lemma {:induction false} ChronologicalBound(ops: seq<Op>, lo: Time, hi: Time)
    requires Chronological(ops, lo, hi)
    ensures lo <= hi
  {
    if ops != [] {
      ChronologicalBound(ops[1..], ops[0].now, hi);
    }
  }

  /** Paying the owed grant back makes the two states look alike from then on. */
  lemma RefundPaysTheOwedGrant(cfg: Config, s0: State, s: State, addr: string, ip: string, t0: Time, t1: Time, t: Time)
    requires Sane(cfg) && StateOk(cfg, s0, t0) && StateOk(cfg, s, t1) && t1 <= t
    requires OwesOneGrant(cfg, s0, s, t0, t1)
    ensures SnapshotAt(cfg, RefundStep(cfg, s, addr, ip, t0, t1), t) == SnapshotAt(cfg, s0, t)
  {
    var s' := RefundStep(cfg, s, addr, ip, t0, t1);
    DayIsMonotone(s.dayStart.value, t);
    if cfg.dripBurst > 0 {
      RefillComposes(cfg, s.drip, t1, t1);
      RefillComposes(cfg, s0.drip, t1, t);
      RefillComposes(cfg, s'.drip, t1, t);
    }
  }

  /**
   A grant that is refunded with no other grant or refund in between is invisible: at
   every later instant the snapshot is the one that would be taken had the grant never
   been asked for, however many refusals, refills and day rollovers fell in between.
   */
  lemma RefundedGrantIsInvisible(cfg: Config, s: State, addr: string, ip: string, t0: Time,
                                 between: seq<Op>, t1: Time, t: Time)
    requires Sane(cfg) && StateOk(cfg, s, t0)
    requires AllowStep(cfg, s, addr, ip, t0).1.Granted?
    requires Chronological(between, t0, t1) && t1 <= t
    requires AllRefused(cfg, AllowStep(cfg, s, addr, ip, t0).0, between)
    ensures var end := Run(cfg, AllowStep(cfg, s, addr, ip, t0).0, between);
            SnapshotAt(cfg, RefundStep(cfg, end, addr, ip, t0, t1), t) == SnapshotAt(cfg, s, t)
  {
    var op := AllowOp(addr, ip, t0);
    var granted := Apply(cfg, s, op);
    ChronologicalBound(between, t0, t1);
    ApplyStaysOk(cfg, s, op);
    GrantLeavesOneOwed(cfg, s, op, t1);
    RefusalsKeepOneOwed(cfg, s, granted, between, t0, t0, t1);
    StateStaysOk(cfg, granted, between, t0, t1);
    RefundPaysTheOwedGrant(cfg, s, Run(cfg, granted, between), addr, ip, t0, t1, t);
  }

  /** A snapshot shows exactly the budget an Allow at that instant is tested against. */
  lemma SnapshotShowsWhatAllowTests(cfg: Config, s: State, addr: string, ip: string, now: Time)
    requires Sane(cfg) && StateOk(cfg, s, now)
    ensures var (snap, verdict) := (SnapshotAt(cfg, s, now), AllowStep(cfg, s, addr, ip, now).1);
            var passed := !verdict.Cooldown? && !verdict.RateLimited?;
            && (passed ==> (verdict.DailyCapReached? <==> snap.daySpent > snap.dailyCap - cfg.grant))
            && (passed && !verdict.DailyCapReached? ==>
                  (verdict.DripLimited? <==> snap.dripEnabled && snap.dripTokens < cfg.grant as real))
  {
    if cfg.dripBurst > 0 {
      RefillComposes(cfg, s.drip, now, now);
    }
  }
}
