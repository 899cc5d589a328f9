/**
 The limiter against a reference that never forgets a hit: pruning on grant, the sweep
 on rollover and the in-place shortening are optimisations no caller can observe
 (faucet/limiter.go:117-145, 163-164, 263-278, 289-324).
 */
module FullHistory {
  import opened Prelude
  import opened HitWindow
  import opened RateLimiter
  import opened DripBucket

  function ReferenceRolled(r: State, now: Time): State {
    if SameDay(now, r.dayStart) then r else r.(daySpent := 0, dayStart := Some(now))
  }

  /**
   The reference's checks. Its hit maps hold every hit ever recorded and not taken back; a
   window is checked by counting positions in them.
   */
  function ReferenceJudged(cfg: Config, r: State, addr: string, ip: string, now: Time): Verdict {
    if |FreshIndices(Lookup(r.addrHits, addr), now - cfg.addrWindow)| >= cfg.addrMax then Cooldown
    else if |FreshIndices(Lookup(r.ipHits, ip), now - cfg.ipWindow)| >= cfg.ipMax then RateLimited
    else if r.daySpent + cfg.grant > cfg.dailyCap then DailyCapReached
    else if cfg.dripBurst > 0 && Refilled(cfg, r.drip, now).tokens < cfg.grant as real then DripLimited
    else Granted
  }

  function ReferenceActed(cfg: Config, r: State, v: Verdict, addr: string, ip: string, now: Time): State {
    match v
    case Granted =>
      State(r.addrHits[addr := Lookup(r.addrHits, addr) + [now]], r.ipHits[ip := Lookup(r.ipHits, ip) + [now]],
            r.daySpent + cfg.grant, r.dayStart, Drawn(cfg, r.drip, now))
    case DripLimited => r.(drip := Refilled(cfg, r.drip, now))
    case _ => r
  }

  /** One call on the reference. */
  function ReferenceStep(cfg: Config, r: State, op: Op): (State, Option<Verdict>) {
    match op
    case AllowOp(addr, ip, now) =>
      var rolled := ReferenceRolled(r, now);
      var v := ReferenceJudged(cfg, rolled, addr, ip, now);
      (ReferenceActed(cfg, rolled, v, addr, ip, now), Some(v))
    case RefundOp(addr, ip, at, now) =>
      (RefundStep(cfg, r, addr, ip, at, now), None)
  }

  function VerdictOf(cfg: Config, s: State, op: Op): Option<Verdict> {
    match op
    case AllowOp(addr, ip, now) => Some(AllowStep(cfg, s, addr, ip, now).1)
    case RefundOp(_, _, _, _) => None
  }

  function Verdicts(cfg: Config, s: State, ops: seq<Op>): seq<Option<Verdict>>
    decreases |ops|
  {
    if ops == [] then [] else [VerdictOf(cfg, s, ops[0])] + Verdicts(cfg, Apply(cfg, s, ops[0]), ops[1..])
  }

  function ReferenceVerdicts(cfg: Config, r: State, ops: seq<Op>): seq<Option<Verdict>>
    decreases |ops|
  {
    if ops == [] then []
    else
      var (r', v) := ReferenceStep(cfg, r, ops[0]);
      [v] + ReferenceVerdicts(cfg, r', ops[1..])
  }

  /** kept is the limiter's list for a key whose complete list is full. */
  predicate KeyRefines(full: Hits, kept: Hits, window: int, clock: Time) {
    && Sorted(full)
    && (forall i | 0 <= i < |full| :: full[i] <= clock)
    && Remains(full, kept, clock - window)
  }

  predicate RefinesAt(full: HitMap, kept: HitMap, window: int, clock: Time, key: string) {
    KeyRefines(Lookup(full, key), Lookup(kept, key), window, clock)
  }

  ghost predicate HitsRefine(full: HitMap, kept: HitMap, window: int, clock: Time) {
    forall k: string :: RefinesAt(full, kept, window, clock, k)
  }

  ghost predicate Refines(cfg: Config, r: State, s: State, clock: Time) {
    && HitsRefine(r.addrHits, s.addrHits, cfg.addrWindow, clock)
    && HitsRefine(r.ipHits, s.ipHits, cfg.ipWindow, clock)
    && r.daySpent == s.daySpent && r.dayStart == s.dayStart && r.drip == s.drip
  }

  lemma KeyRefinesLater(full: Hits, kept: Hits, window: int, clock: Time, now: Time)
    requires KeyRefines(full, kept, window, clock) && clock <= now
    ensures KeyRefines(full, kept, window, now)
    ensures CountFrom(kept, now - window) == |FreshIndices(full, now - window)|
  {
    RemainsCountsAlike(full, kept, clock - window, now - window);
    CountFromIsCardinality(full, now - window);
  }

  lemma KeyRefinesPruned(full: Hits, kept: Hits, window: int, now: Time)
    requires KeyRefines(full, kept, window, now)
    ensures KeyRefines(full, Pruned(kept, now - window), window, now)
    ensures KeyRefines(full + [now], Pruned(kept, now - window) + [now], window, now)
  {
    RemainsAfterPrune(full, kept, now - window, now - window);
    RemainsAfterAppend(full, Pruned(kept, now - window), now - window, now);
  }

  lemma KeyRefinesDropped(full: Hits, kept: Hits, window: int, clock: Time)
    requires KeyRefines(full, kept, window, clock)
    ensures KeyRefines(DropLast(full), DropLast(kept), window, clock)
  {
    RemainsAfterDropLast(full, kept, clock - window);
  }

  lemma HitsRefineLater(full: HitMap, kept: HitMap, window: int, clock: Time, now: Time)
    requires HitsRefine(full, kept, window, clock) && clock <= now
    ensures HitsRefine(full, kept, window, now)
  {
    forall k: string ensures RefinesAt(full, kept, window, now, k) {
      assert RefinesAt(full, kept, window, clock, k);
      KeyRefinesLater(Lookup(full, k), Lookup(kept, k), window, clock, now);
    }
  }

  lemma HitsRefineSwept(full: HitMap, kept: HitMap, window: int, now: Time)
    requires HitsRefine(full, kept, window, now)
    ensures HitsRefine(full, Swept(kept, now - window), window, now)
  {
    var swept := Swept(kept, now - window);
    forall k: string ensures RefinesAt(full, swept, window, now, k) {
      assert RefinesAt(full, kept, window, now, k);
      KeyRefinesPruned(Lookup(full, k), Lookup(kept, k), window, now);
      assert Lookup(swept, k) == Pruned(Lookup(kept, k), now - window);
    }
  }

  /** Both sides replace one key's list. */
  lemma HitsRefineUpdated(full: HitMap, kept: HitMap, window: int, now: Time, key: string, f: Hits, h: Hits)
    requires HitsRefine(full, kept, window, now) && KeyRefines(f, h, window, now)
    ensures HitsRefine(full[key := f], kept[key := h], window, now)
  {
    var full', kept' := full[key := f], kept[key := h];
    forall k: string ensures RefinesAt(full', kept', window, now, k) {
      if k == key {
        assert Lookup(full', k) == f && Lookup(kept', k) == h;
      } else {
        assert RefinesAt(full, kept, window, now, k);
        assert Lookup(full', k) == Lookup(full, k) && Lookup(kept', k) == Lookup(kept, k);
      }
    }
  }

  lemma HitsRefineRecorded(full: HitMap, kept: HitMap, window: int, now: Time, key: string)
    requires HitsRefine(full, kept, window, now)
    ensures HitsRefine(full[key := Lookup(full, key) + [now]],
                       kept[key := Pruned(Lookup(kept, key), now - window) + [now]], window, now)
  {
    assert RefinesAt(full, kept, window, now, key);
    KeyRefinesPruned(Lookup(full, key), Lookup(kept, key), window, now);
    HitsRefineUpdated(full, kept, window, now, key,
                      Lookup(full, key) + [now], Pruned(Lookup(kept, key), now - window) + [now]);
  }

  lemma HitsRefineDropped(full: HitMap, kept: HitMap, window: int, clock: Time, key: string)
    requires HitsRefine(full, kept, window, clock)
    ensures HitsRefine(full[key := DropLast(Lookup(full, key))], kept[key := DropLast(Lookup(kept, key))], window, clock)
  {
    assert RefinesAt(full, kept, window, clock, key);
    KeyRefinesDropped(Lookup(full, key), Lookup(kept, key), window, clock);
    HitsRefineUpdated(full, kept, window, clock, key, DropLast(Lookup(full, key)), DropLast(Lookup(kept, key)));
  }

  lemma AxisRolledRefines(full: HitMap, kept: HitMap, window: int, clock: Time, now: Time, rolls: bool)
    requires HitsRefine(full, kept, window, clock) && clock <= now
    ensures HitsRefine(full, if rolls then Swept(kept, now - window) else kept, window, now)
  {
    HitsRefineLater(full, kept, window, clock, now);
    if rolls {
      HitsRefineSwept(full, kept, window, now);
    }
  }

  /** After the rollover both sides still agree. */
  lemma RolledRefines(cfg: Config, r: State, s: State, clock: Time, now: Time)
    requires Refines(cfg, r, s, clock) && clock <= now
    ensures Refines(cfg, ReferenceRolled(r, now), Rolled(cfg, s, now), now)
  {
    var rolls := !SameDay(now, s.dayStart);
    AxisRolledRefines(r.addrHits, s.addrHits, cfg.addrWindow, clock, now, rolls);
    AxisRolledRefines(r.ipHits, s.ipHits, cfg.ipWindow, clock, now, rolls);
    assert ReferenceRolled(r, now).addrHits == r.addrHits && ReferenceRolled(r, now).ipHits == r.ipHits;
    assert Rolled(cfg, s, now).addrHits == if rolls then Swept(s.addrHits, now - cfg.addrWindow) else s.addrHits;
    assert Rolled(cfg, s, now).ipHits == if rolls then Swept(s.ipHits, now - cfg.ipWindow) else s.ipHits;
  }

  lemma CountsAlike(full: HitMap, kept: HitMap, window: int, now: Time, key: string)
    requires HitsRefine(full, kept, window, now)
    ensures CountFrom(Lookup(kept, key), now - window) == |FreshIndices(Lookup(full, key), now - window)|
  {
    assert RefinesAt(full, kept, window, now, key);
    KeyRefinesLater(Lookup(full, key), Lookup(kept, key), window, now, now);
  }

  lemma JudgedAlike(cfg: Config, r: State, s: State, addr: string, ip: string, now: Time)
    requires Refines(cfg, r, s, now)
    ensures ReferenceJudged(cfg, r, addr, ip, now) == Judged(cfg, s, addr, ip, now)
  {
    CountsAlike(r.addrHits, s.addrHits, cfg.addrWindow, now, addr);
    CountsAlike(r.ipHits, s.ipHits, cfg.ipWindow, now, ip);
  }

  lemma ActedRefines(cfg: Config, r: State, s: State, v: Verdict, addr: string, ip: string, now: Time)
    requires Refines(cfg, r, s, now)
    ensures Refines(cfg, ReferenceActed(cfg, r, v, addr, ip, now), Acted(cfg, s, v, addr, ip, now), now)
  {
    if v.Granted? {
      HitsRefineRecorded(r.addrHits, s.addrHits, cfg.addrWindow, now, addr);
      HitsRefineRecorded(r.ipHits, s.ipHits, cfg.ipWindow, now, ip);
    }
  }

  lemma RefundRefines(cfg: Config, r: State, s: State, addr: string, ip: string, at: Time, now: Time, clock: Time)
    requires Refines(cfg, r, s, clock) && clock <= now
    ensures Refines(cfg, RefundStep(cfg, r, addr, ip, at, now), RefundStep(cfg, s, addr, ip, at, now), now)
  {
    HitsRefineLater(r.addrHits, s.addrHits, cfg.addrWindow, clock, now);
    HitsRefineLater(r.ipHits, s.ipHits, cfg.ipWindow, clock, now);
    HitsRefineDropped(r.addrHits, s.addrHits, cfg.addrWindow, now, addr);
    HitsRefineDropped(r.ipHits, s.ipHits, cfg.ipWindow, now, ip);
  }

  lemma StepRefines(cfg: Config, r: State, s: State, op: Op, clock: Time)
    requires Refines(cfg, r, s, clock) && clock <= op.now
    ensures ReferenceStep(cfg, r, op).1 == VerdictOf(cfg, s, op)
    ensures Refines(cfg, ReferenceStep(cfg, r, op).0, Apply(cfg, s, op), op.now)
  {
    match op
    case AllowOp(addr, ip, now) =>
      var (r1, s1) := (ReferenceRolled(r, now), Rolled(cfg, s, now));
      RolledRefines(cfg, r, s, clock, now);
      JudgedAlike(cfg, r1, s1, addr, ip, now);
      ActedRefines(cfg, r1, s1, Judged(cfg, s1, addr, ip, now), addr, ip, now);
    case RefundOp(addr, ip, at, now) =>
      RefundRefines(cfg, r, s, addr, ip, at, now, clock);
  }

  lemma {:induction false} RunRefines(cfg: Config, r: State, s: State, ops: seq<Op>, lo: Time, hi: Time)
    requires Refines(cfg, r, s, lo) && Chronological(ops, lo, hi)
    ensures Verdicts(cfg, s, ops) == ReferenceVerdicts(cfg, r, ops)
    decreases |ops|
  {
    if ops != [] {
      StepRefines(cfg, r, s, ops[0], lo);
      RunRefines(cfg, ReferenceStep(cfg, r, ops[0]).0, Apply(cfg, s, ops[0]), ops[1..], ops[0].now, hi);
    }
  }

  /**
   From startup, any sequence of Allow and Refund calls on a clock that does not go back
   gets from the limiter exactly the answers the reference gives.
   */
  lemma ForgettingStaleHitsIsUnobservable(cfg: Config, ops: seq<Op>, lo: Time, hi: Time)
    requires Chronological(ops, lo, hi)
    ensures Verdicts(cfg, Initial(cfg), ops) == ReferenceVerdicts(cfg, Initial(cfg), ops)
  {
    RunRefines(cfg, Initial(cfg), Initial(cfg), ops, lo, hi);
  }
}
