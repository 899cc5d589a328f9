/**
 When the window bound survives. After refunds out of order the limiter may count fewer
 hits than grants were kept; the bound then holds in every continuation exactly when the
 hits it lost can no longer matter (faucet/limiter.go:118-126, 144-145, 163-164).
 */
module WindowExactness {
  import opened Prelude
  import opened HitWindow
  import opened RateLimiter
  import opened DripBucket
  import opened FundProtocol
  import opened GrantWindows

  function Other(x: Axis): Axis { if x.ByAddr? then ByIp else ByAddr }

  /** A request that counts against key on one axis and other on the other. */
  function AskFor(x: Axis, key: string, other: string, now: Time): Step {
    if x.ByAddr? then Ask(key, other, now) else Ask(other, key, now)
  }

  /** The other window, the daily cap and the drip leave room for n more grants. */
  predicate Room(cfg: Config, s: State, x: Axis, other: string, n: nat) {
    && Sane(cfg)
    && |Lookup(HitsOf(s, Other(x)), other)| + n <= MaxOf(cfg, Other(x))
    && 0 <= s.daySpent && s.daySpent + cfg.grant * n <= cfg.dailyCap
    && (cfg.dripBurst > 0 ==> (cfg.grant * n) as real <= s.drip.tokens <= cfg.dripBurst as real)
  }

  lemma {:induction false} PrunedIsShorter(hits: Hits, a: Time)
    ensures |Pruned(hits, a)| <= |hits|
  {
    if hits != [] {
      PrunedIsShorter(hits[..|hits| - 1], a);
    }
  }

  lemma RoomAfterRollover(cfg: Config, s: State, x: Axis, other: string, n: nat, now: Time)
    requires Room(cfg, s, x, other, n)
    ensures Room(cfg, Rolled(cfg, s, now), x, other, n)
  {
    RolloverOnKey(cfg, s, now, Other(x), other);
    PrunedIsShorter(Lookup(HitsOf(s, Other(x)), other), now - WindowOf(cfg, Other(x)));
  }

  lemma RefillKeepsRoom(cfg: Config, d: Drip, room: real, now: Time)
    requires Sane(cfg) && room <= d.tokens <= cfg.dripBurst as real
    ensures room <= Refilled(cfg, d, now).tokens <= cfg.dripBurst as real
  {
    if d.last.Some? && now > d.last.value {
      AccruedNonnegative(cfg, now - d.last.value);
    }
  }

  lemma GrantSplits(grant: int, n: nat)
    requires grant >= 0 && n >= 1
    ensures grant * n == grant * (n - 1) + grant && grant * n >= grant >= 0
  {
    MoreGrantsCostMore(grant, 1, n);
  }

  /** With room, a request is refused by its own window or not at all, and takes one grant of the room. */
  lemma RoomGrants(cfg: Config, r: State, x: Axis, key: string, other: string, n: nat, now: Time, addr: string, ip: string)
    requires Room(cfg, r, x, other, n) && n >= 1 && AskFor(x, key, other, now) == Ask(addr, ip, now)
    requires CountFrom(Lookup(HitsOf(r, x), key), now - WindowOf(cfg, x)) < MaxOf(cfg, x)
    ensures Judged(cfg, r, addr, ip, now).Granted?
    ensures Room(cfg, Acted(cfg, r, Granted, addr, ip, now), x, other, n - 1)
  {
    GrantSplits(cfg.grant, n);
    if cfg.dripBurst > 0 {
      RefillKeepsRoom(cfg, r.drip, (cfg.grant * n) as real, now);
    }
    PrunedIsShorter(Lookup(HitsOf(r, Other(x)), other), now - WindowOf(cfg, Other(x)));
  }

  function Repeated<T>(t: T, n: nat): (s: seq<T>)
    ensures |s| == n && forall i | 0 <= i < n :: s[i] == t
  {
    if n == 0 then [] else [t] + Repeated(t, n - 1)
  }

  /** A request made with room, where the limiter's own count leaves some, is granted. */
  lemma RoomyAsk(cfg: Config, w: World, x: Axis, key: string, other: string, n: nat, now: Time, step: Step)
    requires w.clock <= now && Room(cfg, w.lim, x, other, n) && n >= 1 && step == AskFor(x, key, other, now)
    requires CountFrom(KeptOf(w, x, key), now - WindowOf(cfg, x)) < MaxOf(cfg, x)
    ensures Asked(cfg, w, step, x, key) && Room(cfg, Next(cfg, w, step).lim, x, other, n - 1)
  {
    var from := now - WindowOf(cfg, x);
    RoomAfterRollover(cfg, w.lim, x, other, n, now);
    RolloverOnKey(cfg, w.lim, now, x, key);
    CountOfPruned(KeptOf(w, x, key), from, from);
    RoomGrants(cfg, Rolled(cfg, w.lim, now), x, key, other, n, now, step.addr, step.ip);
  }

  lemma AskedOnCounts(cfg: Config, x: Axis, live: Hits, kept: Hits, live': Hits, kept': Hits, now: Time, rolls: bool)
    requires WindowOf(cfg, x) >= 0 && AsksOn(cfg, x, live, kept, live', kept', now, rolls, true)
    ensures live' == live + [now]
    ensures CountFrom(kept', now - WindowOf(cfg, x)) == CountFrom(kept, now - WindowOf(cfg, x)) + 1
  {
    var from := now - WindowOf(cfg, x);
    var rolled := if rolls then Pruned(kept, from) else kept;
    CountOfPruned(kept, from, from);
    CountOfPruned(rolled, from, from);
    CountAppended(Pruned(rolled, from), now, from);
  }

  /** Room for n requests for the key, in its own window and in the other controls. */
  predicate Ready(cfg: Config, x: Axis, key: string, other: string, now: Time, w: World, n: nat) {
    && w.clock <= now && WindowOf(cfg, x) >= 0 && Room(cfg, w.lim, x, other, n)
    && CountFrom(KeptOf(w, x, key), now - WindowOf(cfg, x)) + n <= MaxOf(cfg, x)
  }

  /** One granted request of a burst. */
  lemma BurstStep(cfg: Config, w: World, x: Axis, key: string, other: string, n: nat, now: Time, step: Step)
    requires Ready(cfg, x, key, other, now, w, n) && n >= 1 && step == AskFor(x, key, other, now)
    ensures Ready(cfg, x, key, other, now, Next(cfg, w, step), n - 1)
    ensures LiveOf(Next(cfg, w, step), x, key) == LiveOf(w, x, key) + [now]
  {
    var live', kept' := LiveOf(Next(cfg, w, step), x, key), KeptOf(Next(cfg, w, step), x, key);
    RoomyAsk(cfg, w, x, key, other, n, now, step);
    AskOnLists(cfg, w, step, x, key, live', kept', true);
    AskedOnCounts(cfg, x, LiveOf(w, x, key), KeptOf(w, x, key), live', kept', now, !SameDay(now, w.lim.dayStart));
  }

  function Iterate(next: World -> World, w: World, n: nat): World
    decreases n
  {
    if n == 0 then w else Iterate(next, next(w), n - 1)
  }

  /** A step that appends one hit while there is room appends as many as there is room for. */
  lemma {:induction false} IterateAppends(next: World -> World, ready: (World, nat) -> bool, hits: World -> Hits, w: World, n: nat, now: Time)
    requires ready(w, n)
    requires forall u: World, k: nat | ready(u, k) && k > 0 :: ready(next(u), k - 1) && hits(next(u)) == hits(u) + [now]
    ensures hits(Iterate(next, w, n)) == hits(w) + Repeated(now, n)
    decreases n
  {
    if n == 0 {
      assert hits(w) + [] == hits(w);
    } else {
      IterateAppends(next, ready, hits, next(w), n - 1, now);
      assert hits(w) + [now] + Repeated(now, n - 1) == hits(w) + ([now] + Repeated(now, n - 1));
    }
  }

  function AskNext(cfg: Config, step: Step): World -> World {
    (w: World) => if step.Ask? && w.clock <= step.now then Next(cfg, w, step) else w
  }

  /** As many requests at one instant as the limiter's count leaves room for are all granted. */
  lemma BurstIsGranted(cfg: Config, w: World, x: Axis, key: string, other: string, n: nat, now: Time, step: Step, next: World -> World)
    requires Ready(cfg, x, key, other, now, w, n) && step == AskFor(x, key, other, now) && next == AskNext(cfg, step)
    ensures LiveOf(Iterate(next, w, n), x, key) == LiveOf(w, x, key) + Repeated(now, n)
  {
    forall u: World, k: nat | Ready(cfg, x, key, other, now, u, k) && k > 0
      ensures Ready(cfg, x, key, other, now, next(u), k - 1) && LiveOf(next(u), x, key) == LiveOf(u, x, key) + [now]
    {
      BurstStep(cfg, u, x, key, other, k, now, step);
    }
    IterateAppends(next, (u: World, k: nat) => Ready(cfg, x, key, other, now, u, k), (u: World) => LiveOf(u, x, key), w, n, now);
  }

  lemma {:induction false} IterateIsARun(cfg: Config, w: World, step: Step, n: nat, steps: seq<Step>)
    requires step.Ask? && w.clock <= step.now && steps == Repeated(step, n)
    ensures Legal(cfg, w, steps) && After(cfg, w, steps) == Iterate(AskNext(cfg, step), w, n)
    decreases n
  {
    if n > 0 {
      IterateIsARun(cfg, Next(cfg, w, step), step, n - 1, Repeated(step, n - 1));
      StepThenRun(cfg, w, step, Repeated(step, n - 1), Next(cfg, w, step), steps);
    }
  }

  lemma {:induction false} CountBetweenIsCountFrom(hits: Hits, lo: Time, hi: Time)
    requires UpTo(hits, hi)
    ensures CountBetween(hits, lo, hi) == CountFrom(hits, lo)
  {
    if hits != [] {
      var n := |hits| - 1;
      assert UpTo(hits[..n], hi) by {
        assert forall i | 0 <= i < n :: hits[..n][i] == hits[i];
      }
      CountBetweenIsCountFrom(hits[..n], lo, hi);
    }
  }

  lemma {:induction false} CountBetweenRepeated(t: Time, n: nat, lo: Time, hi: Time)
    requires lo <= t <= hi
    ensures CountBetween(Repeated(t, n), lo, hi) == n
  {
    if n > 0 {
      CountBetweenRepeated(t, n - 1, lo, hi);
      CountBetweenConcat([t], Repeated(t, n - 1), lo, hi);
    }
  }

  lemma BurstOverflows(cfg: Config, grants: seq<Grant>, x: Axis, key: string, live: Hits, c: Time, n: nat)
    requires WindowOf(cfg, x) >= 0 && UpTo(live, c + WindowOf(cfg, x))
    requires Live(grants, x, key) == live + Repeated(c + WindowOf(cfg, x), n) && CountFrom(live, c) + n > Max(0, MaxOf(cfg, x))
    ensures !WithinMax(cfg, grants, x, key, c)
  {
    var hi := c + WindowOf(cfg, x);
    LiveBetweenIsCounted(grants, x, key, c, hi);
    CountBetweenConcat(live, Repeated(hi, n), c, hi);
    CountBetweenIsCountFrom(live, c, hi);
    CountBetweenRepeated(hi, n, c, hi);
  }

  lemma CountedHitsAreInside(live: Hits, clock: Time, c: Time, window: int)
    requires UpTo(live, clock) && c >= clock - window && CountFrom(live, c) > 0
    ensures window >= 0 && UpTo(live, c + window)
  {
    if window < 0 {
      StaleHitsPruneToNothing(live, c);
      assert false;
    }
  }

  lemma RoomForFewer(cfg: Config, s: State, x: Axis, other: string, n: nat, m: nat)
    requires Room(cfg, s, x, other, m) && n <= m
    ensures Room(cfg, s, x, other, n)
  {
    MoreGrantsCostMore(cfg.grant, n, m);
  }

  /** What a lost hit comes to in numbers: more kept grants than counted, and room for one too many. */
  lemma LostHitCounts(cfg: Config, grants: seq<Grant>, x: Axis, key: string, live: Hits, count: nat, clock: Time, c: Time)
    requires live == Live(grants, x, key) && count < CountFrom(live, c) && UpTo(live, clock)
    requires c >= clock - WindowOf(cfg, x) && WithinMax(cfg, grants, x, key, c)
    ensures WindowOf(cfg, x) >= 0 && UpTo(live, c + WindowOf(cfg, x))
    ensures count < MaxOf(cfg, x) && CountFrom(live, c) + (MaxOf(cfg, x) - count) > Max(0, MaxOf(cfg, x))
  {
    var hi := c + WindowOf(cfg, x);
    CountedHitsAreInside(live, clock, c, WindowOf(cfg, x));
    LiveBetweenIsCounted(grants, x, key, c, hi);
    CountBetweenIsCountFrom(live, c, hi);
  }

  // ---- Exactly when the bound survives

  predicate OnlyAsks(steps: seq<Step>) { forall i | 0 <= i < |steps| :: steps[i].Ask? }

  ghost predicate BoundAfter(cfg: Config, w: World, steps: seq<Step>, x: Axis, key: string) {
    Legal(cfg, w, steps) ==> BoundHolds(cfg, After(cfg, w, steps), x, key)
  }

  ghost predicate BoundUnderAsks(cfg: Config, w: World, x: Axis, key: string) {
    forall steps | OnlyAsks(steps) :: BoundAfter(cfg, w, steps, x, key)
  }

  lemma {:induction false} AsksAreInOrder(cfg: Config, w: World, steps: seq<Step>, x: Axis, key: string)
    requires Legal(cfg, w, steps) && OnlyAsks(steps)
    ensures RefundsInOrder(cfg, w, steps, x, key)
    decreases |steps|
  {
    if steps != [] {
      AsksAreInOrder(cfg, Next(cfg, w, steps[0]), steps[1..], x, key);
    }
  }

  lemma CountingKeepsTheBound(cfg: Config, w: World, x: Axis, key: string)
    requires Tracked(w, x, key) && BoundHolds(cfg, w, x, key) && CountsEveryGrant(cfg, w, x, key)
    ensures BoundUnderAsks(cfg, w, x, key)
  {
    forall steps | OnlyAsks(steps) ensures BoundAfter(cfg, w, steps, x, key) {
      if Legal(cfg, w, steps) {
        BoundIsSpaced(cfg, w, x, key);
        AsksAreInOrder(cfg, w, steps, x, key);
        RunKeepsBound(cfg, w, steps, x, key);
        BoundIsSpaced(cfg, After(cfg, w, steps), x, key);
      }
    }
  }

  /** A hit the limiter lost makes room for one grant too many. */
  lemma LostHitOverflows(cfg: Config, w: World, x: Axis, key: string, other: string, c: Time, n: nat, hi: Time, step: Step, live: Hits,
                         next: World -> World, w': World)
    requires Ready(cfg, x, key, other, hi, w, n) && hi == c + WindowOf(cfg, x) && step == AskFor(x, key, other, hi)
    requires live == LiveOf(w, x, key) && UpTo(live, hi) && CountFrom(live, c) + n > Max(0, MaxOf(cfg, x))
    requires next == AskNext(cfg, step) && w' == Iterate(next, w, n)
    ensures !WithinMax(cfg, w'.grants, x, key, c)
  {
    BurstIsGranted(cfg, w, x, key, other, n, hi, step, next);
    BurstOverflows(cfg, w'.grants, x, key, live, c, n);
  }

  lemma OverflowRefutes(cfg: Config, w: World, step: Step, n: nat, steps: seq<Step>, x: Axis, key: string, c: Time)
    requires step.Ask? && w.clock <= step.now && steps == Repeated(step, n)
    requires !WithinMax(cfg, Iterate(AskNext(cfg, step), w, n).grants, x, key, c)
    ensures OnlyAsks(steps) && !BoundAfter(cfg, w, steps, x, key)
  {
    IterateIsARun(cfg, w, step, n, steps);
  }

  lemma LostHitReady(cfg: Config, w: World, x: Axis, key: string, other: string, c: Time, live: Hits, count: nat) returns (n: nat)
    requires live == LiveOf(w, x, key) && count == CountFrom(KeptOf(w, x, key), c) < CountFrom(live, c)
    requires UpTo(live, w.clock) && c >= w.clock - WindowOf(cfg, x) && WithinMax(cfg, w.grants, x, key, c)
    requires Room(cfg, w.lim, x, other, Max(0, MaxOf(cfg, x)))
    ensures Ready(cfg, x, key, other, c + WindowOf(cfg, x), w, n)
    ensures UpTo(live, c + WindowOf(cfg, x)) && CountFrom(live, c) + n > Max(0, MaxOf(cfg, x))
  {
    LostHitCounts(cfg, w.grants, x, key, live, count, w.clock, c);
    n := MaxOf(cfg, x) - count;
    RoomForFewer(cfg, w.lim, x, other, n, MaxOf(cfg, x));
  }

  /** As many requests as the limiter's count leaves room for, at the last instant the lost hit matters, show it. */
  lemma LostHitRefutes(cfg: Config, w: World, x: Axis, key: string, other: string, c: Time, n: nat, hi: Time, live: Hits) returns (steps: seq<Step>)
    requires Ready(cfg, x, key, other, hi, w, n) && hi == c + WindowOf(cfg, x)
    requires live == LiveOf(w, x, key) && UpTo(live, hi) && CountFrom(live, c) + n > Max(0, MaxOf(cfg, x))
    ensures OnlyAsks(steps) && !BoundAfter(cfg, w, steps, x, key)
  {
    var step := AskFor(x, key, other, hi);
    LostHitOverflows(cfg, w, x, key, other, c, n, hi, step, live, AskNext(cfg, step), Iterate(AskNext(cfg, step), w, n));
    steps := Repeated(step, n);
    OverflowRefutes(cfg, w, step, n, steps, x, key, c);
  }

  lemma TheBoundNeedsCounting(cfg: Config, w: World, x: Axis, key: string, other: string, c: Time, live: Hits)
    requires live == LiveOf(w, x, key) && UpTo(live, w.clock) && Room(cfg, w.lim, x, other, Max(0, MaxOf(cfg, x)))
    requires WithinMax(cfg, w.grants, x, key, c) && c >= w.clock - WindowOf(cfg, x) && BoundUnderAsks(cfg, w, x, key)
    ensures NoMore(live, KeptOf(w, x, key), c)
  {
    if CountFrom(KeptOf(w, x, key), c) < CountFrom(live, c) {
      var n := LostHitReady(cfg, w, x, key, other, c, live, CountFrom(KeptOf(w, x, key), c));
      var steps := LostHitRefutes(cfg, w, x, key, other, c, n, c + WindowOf(cfg, x), live);
      assert false;
    }
  }

  /**
   Where the other controls leave room: the window bound holds now and after every
   further run of requests exactly when it holds now and the limiter's list counts every
   grant kept at every cutoff a later request can use.
   */
  lemma BoundUnderAsksIff(cfg: Config, w: World, x: Axis, key: string, other: string)
    requires Tracked(w, x, key) && Room(cfg, w.lim, x, other, Max(0, MaxOf(cfg, x)))
    ensures BoundUnderAsks(cfg, w, x, key) <==> BoundHolds(cfg, w, x, key) && CountsEveryGrant(cfg, w, x, key)
  {
    if BoundHolds(cfg, w, x, key) && CountsEveryGrant(cfg, w, x, key) {
      CountingKeepsTheBound(cfg, w, x, key);
    }
    if BoundUnderAsks(cfg, w, x, key) {
      assert BoundAfter(cfg, w, [], x, key);
      forall c: Time | c >= w.clock - WindowOf(cfg, x) ensures NoMore(LiveOf(w, x, key), KeptOf(w, x, key), c) {
        assert WithinMax(cfg, w.grants, x, key, c);
        TheBoundNeedsCounting(cfg, w, x, key, other, c, LiveOf(w, x, key));
      }
    }
  }

  /** The same after any run from startup, whatever the order of its refunds. */
  lemma BoundAfterAnyRunIff(cfg: Config, clock: Time, steps: seq<Step>, x: Axis, key: string, other: string)
    requires Legal(cfg, Start(cfg, clock), steps)
    requires Room(cfg, After(cfg, Start(cfg, clock), steps).lim, x, other, Max(0, MaxOf(cfg, x)))
    ensures var w := After(cfg, Start(cfg, clock), steps);
            BoundUnderAsks(cfg, w, x, key) <==> BoundHolds(cfg, w, x, key) && CountsEveryGrant(cfg, w, x, key)
  {
    StartCountsEverything(cfg, clock, x, key);
    RunKeepsTrack(cfg, Start(cfg, clock), steps, x, key);
    BoundUnderAsksIff(cfg, After(cfg, Start(cfg, clock), steps), x, key, other);
  }
}
