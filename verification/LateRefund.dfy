/**
 A late refund, spelled out: two grants to one address, the first given back while the
 second is still inside the window (faucet/limiter.go:151-164).
 */
module LateRefund {
  import opened Prelude
  import opened HitWindow
  import opened RateLimiter
  import opened FundProtocol
  import opened GrantWindows

  /** Two grants per address in a window of ten; the other three controls do not bind. */
  predicate TwoPerWindow(cfg: Config) {
    && cfg.addrWindow == 10 && cfg.addrMax == 2 && cfg.ipWindow == 10 && cfg.ipMax == 100
    && cfg.dailyCap == 100 && cfg.grant == 1 && cfg.dripBurst == 0 && cfg.dripRate == 0
  }

  /** The first of two grants is refunded late: its refund forgets the second one instead. */
  function LateSteps(a: string, p: string): seq<Step> {
    [Ask(a, p, 0), Ask(a, p, 8), SendReturns(0, DidNotLand), GiveBack(0, 9), Ask(a, p, 11), Ask(a, p, 12)]
  }

  /** The world as far as the example needs it: grants, and what both lists hold. */
  predicate Holds(w: World, a: string, p: string, clock: Time, spent: int, kept: Hits) {
    && w.clock == clock && w.lim.dayStart == Some(0) && w.lim.daySpent == spent
    && Lookup(w.lim.addrHits, a) == kept && Lookup(w.lim.ipHits, p) == kept
  }

  lemma AskGranted(cfg: Config, w: World, a: string, p: string, clock: Time, spent: int, kept: Hits, now: Time, kept': Hits)
    requires TwoPerWindow(cfg) && Holds(w, a, p, clock, spent, kept) && clock <= now < 20 && 0 <= now && spent <= 9
    requires CountFrom(kept, now - 10) < 2 && Pruned(kept, now - 10) + [now] == kept'
    ensures Holds(Next(cfg, w, Ask(a, p, now)), a, p, now, spent + 1, kept')
    ensures Next(cfg, w, Ask(a, p, now)).grants == w.grants + [Grant(a, p, now, Sending)]
  {
  }

  lemma FirstAskGranted(cfg: Config, w0: World, a: string, p: string)
    requires TwoPerWindow(cfg) && w0 == Start(cfg, 0)
    ensures Holds(Next(cfg, w0, Ask(a, p, 0)), a, p, 0, 1, [0])
    ensures Next(cfg, w0, Ask(a, p, 0)).grants == [Grant(a, p, 0, Sending)]
  {
  }

  lemma LateGiveBack(cfg: Config, w: World, a: string, p: string)
    requires TwoPerWindow(cfg) && Holds(w, a, p, 8, 2, [0, 8])
    requires w.grants == [Grant(a, p, 0, NotGranted), Grant(a, p, 8, Sending)]
    ensures Holds(Next(cfg, w, GiveBack(0, 9)), a, p, 9, 1, [0])
    ensures Next(cfg, w, GiveBack(0, 9)).grants == [Grant(a, p, 0, Refunded), Grant(a, p, 8, Sending)]
  {
    assert DropLast([0, 8]) == [0];
  }

  lemma FirstSendFails(cfg: Config, w: World, a: string, p: string)
    requires TwoPerWindow(cfg) && Holds(w, a, p, 8, 2, [0, 8])
    requires w.grants == [Grant(a, p, 0, Sending), Grant(a, p, 8, Sending)]
    ensures var w' := Next(cfg, w, SendReturns(0, DidNotLand));
            && Holds(w', a, p, 8, 2, [0, 8])
            && w'.grants == [Grant(a, p, 0, NotGranted), Grant(a, p, 8, Sending)]
            && !InOrder(cfg, w', 0, 9, ByAddr)
  {
    var w' := Next(cfg, w, SendReturns(0, DidNotLand));
    assert Counts(w'.grants[1], ByAddr, a) && w'.grants[1].at > w'.grants[0].at;
  }

  /** One more step in front of a run. */
  lemma Prepended(cfg: Config, w: World, step: Step, rest: seq<Step>, w': World, steps: seq<Step>, key: string)
    requires Enabled(w, step) && w' == Next(cfg, w, step) && Legal(cfg, w', rest) && steps == [step] + rest
    ensures Legal(cfg, w, steps) && After(cfg, w, steps) == After(cfg, w', rest)
    ensures !RefundsInOrder(cfg, w', rest, ByAddr, key) ==> !RefundsInOrder(cfg, w, steps, ByAddr, key)
    ensures step.GiveBack? && w.grants[step.i].addr == key && !InOrder(cfg, w, step.i, step.now, ByAddr) ==>
              !RefundsInOrder(cfg, w, steps, ByAddr, key)
  {
    StepThenRun(cfg, w, step, rest, w', steps);
    assert steps[0] == step && steps[1..] == rest;
  }

  lemma LastAsk(cfg: Config, w: World, a: string, p: string, steps: seq<Step>, kept: Hits)
    requires TwoPerWindow(cfg) && kept == [11] && Holds(w, a, p, 11, 2, kept) && steps == [Ask(a, p, 12)]
    ensures Legal(cfg, w, steps) && After(cfg, w, steps).grants == w.grants + [Grant(a, p, 12, Sending)]
  {
    var (step, none) := (steps[0], steps[1..]);
    assert kept[..0] == [];
    AskGranted(cfg, w, a, p, 11, 2, kept, 12, kept + [12]);
    Prepended(cfg, w, step, none, Next(cfg, w, step), steps, a);
  }

  lemma LastTwoAsks(cfg: Config, w: World, a: string, p: string, steps: seq<Step>, kept: Hits)
    requires TwoPerWindow(cfg) && kept == [0] && Holds(w, a, p, 9, 1, kept) && steps == [Ask(a, p, 11), Ask(a, p, 12)]
    ensures Legal(cfg, w, steps) && After(cfg, w, steps).grants == w.grants + [Grant(a, p, 11, Sending)] + [Grant(a, p, 12, Sending)]
  {
    var (step, rest) := (steps[0], steps[1..]);
    assert kept[..0] == [];
    AskGranted(cfg, w, a, p, 9, 1, kept, 11, [11]);
    LastAsk(cfg, Next(cfg, w, step), a, p, rest, [11]);
    Prepended(cfg, w, step, rest, Next(cfg, w, step), steps, a);
  }

  lemma FromTheRefundOn(cfg: Config, w: World, w': World, a: string, p: string, steps: seq<Step>, kept: Hits)
    requires TwoPerWindow(cfg) && Enabled(w, GiveBack(0, 9)) && w' == Next(cfg, w, GiveBack(0, 9))
    requires w.grants[0].addr == a && !InOrder(cfg, w, 0, 9, ByAddr)
    requires kept == [0] && Holds(w', a, p, 9, 1, kept) && steps == [GiveBack(0, 9), Ask(a, p, 11), Ask(a, p, 12)]
    ensures Legal(cfg, w, steps) && !RefundsInOrder(cfg, w, steps, ByAddr, a)
    ensures After(cfg, w, steps).grants == w'.grants + [Grant(a, p, 11, Sending)] + [Grant(a, p, 12, Sending)]
  {
    var (step, rest) := (steps[0], steps[1..]);
    LastTwoAsks(cfg, w', a, p, rest, kept);
    Prepended(cfg, w, step, rest, w', steps, a);
  }

  lemma FromTheFailureOn(cfg: Config, w: World, a: string, p: string, steps: seq<Step>)
    requires TwoPerWindow(cfg) && Holds(w, a, p, 8, 2, [0, 8])
    requires w.grants == [Grant(a, p, 0, Sending), Grant(a, p, 8, Sending)]
    requires steps == LateSteps(a, p)[2..]
    ensures Legal(cfg, w, steps) && !RefundsInOrder(cfg, w, steps, ByAddr, a)
    ensures After(cfg, w, steps).grants ==
            [Grant(a, p, 0, Refunded), Grant(a, p, 8, Sending)] + [Grant(a, p, 11, Sending)] + [Grant(a, p, 12, Sending)]
  {
    var (step, rest) := (steps[0], steps[1..]);
    var w' := Next(cfg, w, step);
    FirstSendFails(cfg, w, a, p);
    LateGiveBack(cfg, w', a, p);
    FromTheRefundOn(cfg, w', Next(cfg, w', GiveBack(0, 9)), a, p, rest, [0]);
    Prepended(cfg, w, step, rest, w', steps, a);
  }

  lemma FromTheSecondAskOn(cfg: Config, w: World, a: string, p: string, steps: seq<Step>, kept: Hits)
    requires TwoPerWindow(cfg) && kept == [0] && Holds(w, a, p, 0, 1, kept) && w.grants == [Grant(a, p, 0, Sending)]
    requires steps == LateSteps(a, p)[1..]
    ensures Legal(cfg, w, steps) && !RefundsInOrder(cfg, w, steps, ByAddr, a)
    ensures After(cfg, w, steps).grants ==
            [Grant(a, p, 0, Refunded), Grant(a, p, 8, Sending)] + [Grant(a, p, 11, Sending)] + [Grant(a, p, 12, Sending)]
  {
    var (step, rest) := (steps[0], steps[1..]);
    assert kept[..0] == [];
    AskGranted(cfg, w, a, p, 0, 1, kept, 8, [0, 8]);
    FromTheFailureOn(cfg, Next(cfg, w, step), a, p, rest);
    Prepended(cfg, w, step, rest, Next(cfg, w, step), steps, a);
  }

  lemma FromTheFirstAskOn(cfg: Config, w: World, a: string, p: string, steps: seq<Step>)
    requires TwoPerWindow(cfg) && w == Start(cfg, 0) && steps == LateSteps(a, p)
    ensures Legal(cfg, w, steps) && !RefundsInOrder(cfg, w, steps, ByAddr, a)
    ensures After(cfg, w, steps).grants ==
            [Grant(a, p, 0, Refunded), Grant(a, p, 8, Sending)] + [Grant(a, p, 11, Sending)] + [Grant(a, p, 12, Sending)]
  {
    var (step, rest) := (steps[0], steps[1..]);
    FirstAskGranted(cfg, w, a, p);
    FromTheSecondAskOn(cfg, Next(cfg, w, step), a, p, rest, [0]);
    Prepended(cfg, w, step, rest, Next(cfg, w, step), steps, a);
  }

  lemma ThreeLive(grants: seq<Grant>, a: string, p: string)
    requires grants == [Grant(a, p, 0, Refunded), Grant(a, p, 8, Sending)] + [Grant(a, p, 11, Sending)] + [Grant(a, p, 12, Sending)]
    ensures |LiveBetween(grants, ByAddr, a, 8, 18)| == 3
  {
    assert LiveBetween(grants, ByAddr, a, 8, 18) == {1, 2, 3};
  }

  /**
   A run on a limiter of two grants per window that keeps three grants inside one window
   of length ten: the order condition cannot be dropped.
   */
  lemma OutOfOrderRefundBreaksTheWindow(cfg: Config, a: string, p: string, w: World, steps: seq<Step>)
    requires TwoPerWindow(cfg) && w == Start(cfg, 0) && steps == LateSteps(a, p)
    ensures Legal(cfg, w, steps) && !RefundsInOrder(cfg, w, steps, ByAddr, a)
    ensures |LiveBetween(After(cfg, w, steps).grants, ByAddr, a, 8, 18)| == MaxOf(cfg, ByAddr) + 1
  {
    FromTheFirstAskOn(cfg, w, a, p, steps);
    ThreeLive(After(cfg, w, steps).grants, a, p);
  }
}
