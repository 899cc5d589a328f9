/**
 Fund as a protocol among any number of concurrent requests (faucet/faucet.go:143-154):
 Allow is one atomic step, the transfer runs with no lock held and has three outcomes,
 and Refund is another atomic step that may come much later, or never.
 */
module FundProtocol {
  import opened Prelude
  import opened HitWindow
  import opened RateLimiter
  import opened DripBucket
  import opened FullHistory

  /** NotGranted: the transfer provably did not land and its Refund is still to come. */
  datatype Phase = Sending | Landed | NotGranted | Unknown | Refunded

  datatype Grant = Grant(addr: string, ip: string, at: Time, phase: Phase)

  /** grants holds every grant ever allowed, in order; it is history, not limiter state. */
  datatype World = World(lim: State, clock: Time, grants: seq<Grant>)

  datatype Outcome = DidLand | DidNotLand | MayHaveLanded

  datatype Step =
    | Ask(addr: string, ip: string, now: Time)
    | SendReturns(i: nat, outcome: Outcome)
    | GiveBack(i: nat, now: Time)

  function Start(cfg: Config, clock: Time): World { World(Initial(cfg), clock, []) }

  predicate Enabled(w: World, step: Step) {
    match step
    case Ask(_, _, now) => w.clock <= now
    case SendReturns(i, _) => i < |w.grants| && w.grants[i].phase.Sending?
    case GiveBack(i, now) => i < |w.grants| && w.grants[i].phase.NotGranted? && w.clock <= now
  }

  function Settled(outcome: Outcome): Phase {
    match outcome
    case DidLand => Landed
    case DidNotLand => NotGranted
    case MayHaveLanded => Unknown
  }

  function Next(cfg: Config, w: World, step: Step): World
    requires Enabled(w, step)
  {
    match step
    case Ask(addr, ip, now) =>
      var (lim, verdict) := AllowStep(cfg, w.lim, addr, ip, now);
      World(lim, now, if verdict.Granted? then w.grants + [Grant(addr, ip, now, Sending)] else w.grants)
    case SendReturns(i, outcome) =>
      w.(grants := w.grants[i := w.grants[i].(phase := Settled(outcome))])
    case GiveBack(i, now) =>
      var g := w.grants[i];
      World(RefundStep(cfg, w.lim, g.addr, g.ip, g.at, now), now, w.grants[i := g.(phase := Refunded)])
  }

  predicate Legal(cfg: Config, w: World, steps: seq<Step>)
    decreases |steps|
  {
    steps == [] || (Enabled(w, steps[0]) && Legal(cfg, Next(cfg, w, steps[0]), steps[1..]))
  }

  function After(cfg: Config, w: World, steps: seq<Step>): World
    requires Legal(cfg, w, steps)
    decreases |steps|
  {
    if steps == [] then w else After(cfg, Next(cfg, w, steps[0]), steps[1..])
  }

  /** One more step in front of a run. */
  lemma StepThenRun(cfg: Config, w: World, step: Step, rest: seq<Step>, w': World, steps: seq<Step>)
    requires Enabled(w, step) && w' == Next(cfg, w, step) && Legal(cfg, w', rest) && steps == [step] + rest
    ensures Legal(cfg, w, steps) && After(cfg, w, steps) == After(cfg, w', rest)
  {
    assert steps[0] == step && steps[1..] == rest;
  }

  // ---- The daily ledger

  /** How many grants not given back were allowed on a UTC day. */
  function ChargedOn(grants: seq<Grant>, day: int): nat {
    if grants == [] then 0
    else
      var n := |grants| - 1;
      ChargedOn(grants[..n], day) + Charge(grants[n], day)
  }

  function Charge(g: Grant, day: int): nat { if !g.phase.Refunded? && Day(g.at) == day then 1 else 0 }

  /** The grants of a UTC day whose transfer landed, or may have. */
  function LandedOn(grants: seq<Grant>, day: int): set<int> {
    set i | 0 <= i < |grants| && (grants[i].phase.Landed? || grants[i].phase.Unknown?) && Day(grants[i].at) == day
  }

  lemma {:induction false} ChargedAfterUpdate(grants: seq<Grant>, i: nat, g: Grant, day: int)
    requires i < |grants|
    ensures ChargedOn(grants[i := g], day) == ChargedOn(grants, day) - Charge(grants[i], day) + Charge(g, day)
  {
    var n := |grants| - 1;
    if i < n {
      assert grants[i := g][..n] == grants[..n][i := g];
      ChargedAfterUpdate(grants[..n], i, g, day);
    } else {
      assert grants[i := g][..n] == grants[..n];
    }
  }

  lemma {:induction false} NothingChargedAhead(grants: seq<Grant>, day: int)
    requires forall i | 0 <= i < |grants| :: Day(grants[i].at) < day
    ensures ChargedOn(grants, day) == 0
  {
    if grants != [] {
      NothingChargedAhead(grants[..|grants| - 1], day);
    }
  }

  lemma {:induction false} LandedAreCharged(grants: seq<Grant>, day: int)
    ensures |LandedOn(grants, day)| <= ChargedOn(grants, day)
  {
    if grants == [] {
      assert LandedOn(grants, day) == {};
    } else {
      var n := |grants| - 1;
      LandedAreCharged(grants[..n], day);
      assert LandedOn(grants, day) ==
             LandedOn(grants[..n], day)
             + (if (grants[n].phase.Landed? || grants[n].phase.Unknown?) && Day(grants[n].at) == day then {n} else {});
    }
  }

  /** daySpent is exactly what the grants charged to dayStart's UTC day add up to. */
  ghost predicate LedgerExact(cfg: Config, w: World) { LedgerOf(cfg, w.lim.daySpent, w.lim.dayStart, w.clock, w.grants) }

  ghost predicate LedgerOf(cfg: Config, spent: int, start: Option<Time>, clock: Time, grants: seq<Grant>) {
    && (start.None? ==> grants == [] && spent == 0)
    && (start.Some? ==>
          && start.value <= clock
          && (forall i | 0 <= i < |grants| :: Day(grants[i].at) <= Day(start.value))
          && spent == cfg.grant * ChargedOn(grants, Day(start.value)))
    && AllWithinCap(cfg, grants)
  }

  ghost predicate AllWithinCap(cfg: Config, grants: seq<Grant>) { forall day: int :: WithinCap(cfg, grants, day) }

  predicate WithinCap(cfg: Config, grants: seq<Grant>, day: int) {
    cfg.grant * ChargedOn(grants, day) <= cfg.dailyCap
  }

  lemma AllowOnDay(cfg: Config, s: State, addr: string, ip: string, now: Time)
    ensures var (s', v) := AllowStep(cfg, s, addr, ip, now);
            && s'.dayStart == (if SameDay(now, s.dayStart) then s.dayStart else Some(now))
            && (var spent := if SameDay(now, s.dayStart) then s.daySpent else 0;
                && s'.daySpent == (if v.Granted? then spent + cfg.grant else spent)
                && (v.Granted? ==> spent <= cfg.dailyCap - cfg.grant))
  {
  }

  lemma MoreGrantsCostMore(grant: int, a: int, b: int)
    requires 0 <= grant && 0 <= a <= b
    ensures 0 <= grant * a <= grant * b && grant * (a + 1) == grant * a + grant
  {
  }

  lemma OneMoreChargeOn(cfg: Config, grants: seq<Grant>, g: Grant, day: int)
    requires !g.phase.Refunded? && WithinCap(cfg, grants, day)
    requires cfg.grant * ChargedOn(grants, Day(g.at)) + cfg.grant <= cfg.dailyCap
    ensures WithinCap(cfg, grants + [g], day)
    ensures day == Day(g.at) ==> cfg.grant * ChargedOn(grants + [g], day) == cfg.grant * ChargedOn(grants, day) + cfg.grant
  {
    assert (grants + [g])[..|grants|] == grants;
    assert ChargedOn(grants + [g], day) == ChargedOn(grants, day) + Charge(g, day);
  }

  lemma OneMoreCharge(cfg: Config, grants: seq<Grant>, g: Grant, grants': seq<Grant>, spent: int)
    requires !g.phase.Refunded? && spent == cfg.grant * ChargedOn(grants, Day(g.at)) && spent + cfg.grant <= cfg.dailyCap
    requires AllWithinCap(cfg, grants) && grants' == grants + [g]
    ensures spent + cfg.grant == cfg.grant * ChargedOn(grants', Day(g.at)) && AllWithinCap(cfg, grants')
  {
    forall day: int ensures WithinCap(cfg, grants', day) {
      assert WithinCap(cfg, grants, day);
      OneMoreChargeOn(cfg, grants, g, day);
    }
    assert WithinCap(cfg, grants, Day(g.at));
    OneMoreChargeOn(cfg, grants, g, Day(g.at));
  }

  lemma OneChargeSettledOn(cfg: Config, grants: seq<Grant>, i: nat, g: Grant, day: int)
    requires cfg.grant >= 0 && i < |grants| && g.at == grants[i].at && !grants[i].phase.Refunded?
    requires WithinCap(cfg, grants, day)
    ensures WithinCap(cfg, grants[i := g], day)
    ensures cfg.grant * ChargedOn(grants[i := g], day) ==
            cfg.grant * ChargedOn(grants, day) - (if g.phase.Refunded? && Day(g.at) == day then cfg.grant else 0)
    ensures cfg.grant * ChargedOn(grants[i := g], day) >= 0
  {
    ChargedAfterUpdate(grants, i, g, day);
    var n := ChargedOn(grants[i := g], day);
    MoreGrantsCostMore(cfg.grant, n, n);
  }

  lemma OneChargeSettled(cfg: Config, grants: seq<Grant>, i: nat, g: Grant, grants': seq<Grant>)
    requires cfg.grant >= 0 && i < |grants| && g.at == grants[i].at && !grants[i].phase.Refunded?
    requires grants' == grants[i := g]
    requires AllWithinCap(cfg, grants)
    ensures AllWithinCap(cfg, grants')
  {
    forall day: int ensures WithinCap(cfg, grants', day) {
      assert WithinCap(cfg, grants, day);
      OneChargeSettledOn(cfg, grants, i, g, day);
    }
  }

  /** After the rollover the counter is exact for the day of the request. */
  lemma SpentToday(cfg: Config, w: World, now: Time)
    requires LedgerExact(cfg, w) && w.clock <= now
    ensures (if SameDay(now, w.lim.dayStart) then w.lim.daySpent else 0) == cfg.grant * ChargedOn(w.grants, Day(now))
    ensures forall i | 0 <= i < |w.grants| :: Day(w.grants[i].at) <= Day(now)
  {
    if w.lim.dayStart.Some? {
      DayIsMonotone(w.lim.dayStart.value, now);
    }
    if !SameDay(now, w.lim.dayStart) {
      NothingChargedAhead(w.grants, Day(now));
    }
  }

  lemma LedgerAfterAsk(cfg: Config, spent: int, start: Time, now: Time, granted: bool, grants: seq<Grant>, g: Grant, grants': seq<Grant>)
    requires start <= now && Day(start) == Day(now) && (forall i | 0 <= i < |grants| :: Day(grants[i].at) <= Day(now))
    requires spent == cfg.grant * ChargedOn(grants, Day(now)) && AllWithinCap(cfg, grants)
    requires g.at == now && !g.phase.Refunded? && grants' == (if granted then grants + [g] else grants)
    requires granted ==> spent <= cfg.dailyCap - cfg.grant
    ensures LedgerOf(cfg, if granted then spent + cfg.grant else spent, Some(start), now, grants')
  {
    if granted {
      OneMoreCharge(cfg, grants, g, grants', spent);
    }
  }

  lemma AskKeepsLedger(cfg: Config, w: World, step: Step)
    requires Sane(cfg) && LedgerExact(cfg, w) && Enabled(w, step) && step.Ask?
    ensures LedgerExact(cfg, Next(cfg, w, step))
  {
    var (same, now) := (SameDay(step.now, w.lim.dayStart), step.now);
    SpentToday(cfg, w, now);
    AllowOnDay(cfg, w.lim, step.addr, step.ip, now);
    LedgerAfterAsk(cfg, if same then w.lim.daySpent else 0, if same then w.lim.dayStart.value else now, now,
                   AllowStep(cfg, w.lim, step.addr, step.ip, now).1.Granted?, w.grants, Grant(step.addr, step.ip, now, Sending),
                   Next(cfg, w, step).grants);
  }

  lemma SettlingKeepsLedger(cfg: Config, w: World, step: Step)
    requires Sane(cfg) && LedgerExact(cfg, w) && Enabled(w, step) && !step.Ask?
    ensures LedgerExact(cfg, Next(cfg, w, step))
    ensures step.GiveBack? && SameDay(w.grants[step.i].at, w.lim.dayStart) ==> w.lim.daySpent - cfg.grant >= 0
  {
    var w' := Next(cfg, w, step);
    OneChargeSettled(cfg, w.grants, step.i, w'.grants[step.i], w'.grants);
    if w.lim.dayStart.Some? {
      assert WithinCap(cfg, w.grants, Day(w.lim.dayStart.value));
      OneChargeSettledOn(cfg, w.grants, step.i, w'.grants[step.i], Day(w.lim.dayStart.value));
    }
  }

  lemma {:induction false} RunKeepsLedger(cfg: Config, w: World, steps: seq<Step>)
    requires Sane(cfg) && LedgerExact(cfg, w) && Legal(cfg, w, steps)
    ensures LedgerExact(cfg, After(cfg, w, steps))
    decreases |steps|
  {
    if steps != [] {
      if steps[0].Ask? {
        AskKeepsLedger(cfg, w, steps[0]);
      } else {
        SettlingKeepsLedger(cfg, w, steps[0]);
      }
      RunKeepsLedger(cfg, Next(cfg, w, steps[0]), steps[1..]);
    }
  }

  /**
   In every interleaving of any number of requests, over any number of day rollovers:
   the counter is exact and within the cap, and so is, for any one UTC day, the total of
   all grants not given back, and with it of all that landed, answered or not.
   */
  lemma DailyCapHolds(cfg: Config, clock: Time, steps: seq<Step>, day: int)
    requires Sane(cfg) && Legal(cfg, Start(cfg, clock), steps)
    ensures var w := After(cfg, Start(cfg, clock), steps);
            && 0 <= w.lim.daySpent <= cfg.dailyCap
            && (w.lim.dayStart.Some? ==> w.lim.daySpent == cfg.grant * ChargedOn(w.grants, Day(w.lim.dayStart.value)))
            && cfg.grant * |LandedOn(w.grants, day)| <= cfg.grant * ChargedOn(w.grants, day) <= cfg.dailyCap
  {
    var w := After(cfg, Start(cfg, clock), steps);
    RunKeepsLedger(cfg, Start(cfg, clock), steps);
    assert WithinCap(cfg, w.grants, day);
    LandedAreCharged(w.grants, day);
    MoreGrantsCostMore(cfg.grant, |LandedOn(w.grants, day)|, ChargedOn(w.grants, day));
    if w.lim.dayStart.Some? {
      var today := Day(w.lim.dayStart.value);
      assert WithinCap(cfg, w.grants, today);
      MoreGrantsCostMore(cfg.grant, 0, ChargedOn(w.grants, today));
    }
  }

  /** A refund in flight always finds its own charge on the counter, so the clamp at zero never fires. */
  lemma RefundClampNeverFires(cfg: Config, clock: Time, steps: seq<Step>, i: nat, now: Time)
    requires Sane(cfg) && Legal(cfg, Start(cfg, clock), steps)
    requires Enabled(After(cfg, Start(cfg, clock), steps), GiveBack(i, now))
    ensures var w := After(cfg, Start(cfg, clock), steps);
            Uncharged(cfg, w.lim, w.grants[i].at) ==
            (if SameDay(w.grants[i].at, w.lim.dayStart) then w.lim.daySpent - cfg.grant else w.lim.daySpent)
  {
    RunKeepsLedger(cfg, Start(cfg, clock), steps);
    SettlingKeepsLedger(cfg, After(cfg, Start(cfg, clock), steps), GiveBack(i, now));
  }
}
