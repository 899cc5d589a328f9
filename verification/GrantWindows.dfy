/**
 The per-address and per-IP windows over whole runs of the protocol: which hit a refund
 removes, when the window bound on the grants kept survives it, and what the bound is
 worth when it does not (faucet/limiter.go:119-126, 144-145, 159-164).
 */
module GrantWindows {
  import opened Prelude
  import opened HitWindow
  import opened RateLimiter
  import opened DripBucket
  import opened FundProtocol

  function KeyOf(g: Grant, x: Axis): string { if x.ByAddr? then g.addr else g.ip }

  predicate Counts(g: Grant, x: Axis, key: string) { !g.phase.Refunded? && KeyOf(g, x) == key }

  /** The instants of the grants to a key that were not given back, in order. */
  function Live(grants: seq<Grant>, x: Axis, key: string): Hits {
    if grants == [] then []
    else
      var n := |grants| - 1;
      Live(grants[..n], x, key) + (if Counts(grants[n], x, key) then [grants[n].at] else [])
  }

  function CountBetween(hits: Hits, lo: Time, hi: Time): nat {
    if hits == [] then 0
    else
      var n := |hits| - 1;
      CountBetween(hits[..n], lo, hi) + (if lo <= hits[n] <= hi then 1 else 0)
  }

  lemma CountBetweenAppended(hits: Hits, t: Time, lo: Time, hi: Time)
    ensures CountBetween(hits + [t], lo, hi) == CountBetween(hits, lo, hi) + (if lo <= t <= hi then 1 else 0)
  {
    assert (hits + [t])[..|hits|] == hits;
  }

  /** The grants to a key that were not given back and fall in a closed interval. */
  function LiveBetween(grants: seq<Grant>, x: Axis, key: string, lo: Time, hi: Time): set<int> {
    set i | 0 <= i < |grants| && Counts(grants[i], x, key) && lo <= grants[i].at <= hi
  }

  lemma LiveBetweenGrows(grants: seq<Grant>, n: nat, x: Axis, key: string, lo: Time, hi: Time)
    requires |grants| == n + 1
    ensures LiveBetween(grants, x, key, lo, hi) ==
            LiveBetween(grants[..n], x, key, lo, hi)
            + (if Counts(grants[n], x, key) && lo <= grants[n].at <= hi then {n} else {})
  {
    assert grants == grants[..n] + [grants[n]];
  }

  lemma {:induction false} LiveBetweenIsCounted(grants: seq<Grant>, x: Axis, key: string, lo: Time, hi: Time)
    ensures |LiveBetween(grants, x, key, lo, hi)| == CountBetween(Live(grants, x, key), lo, hi)
  {
    if grants == [] {
      assert LiveBetween(grants, x, key, lo, hi) == {};
    } else {
      var n := |grants| - 1;
      LiveBetweenIsCounted(grants[..n], x, key, lo, hi);
      LiveBetweenGrows(grants, n, x, key, lo, hi);
      var before := Live(grants[..n], x, key);
      CountBetweenAppended(before, grants[n].at, lo, hi);
      assert before + [] == before;
    }
  }

  lemma {:induction false} CountBetweenAtMostCountFrom(hits: Hits, lo: Time, hi: Time, cutoff: Time)
    requires cutoff <= lo
    ensures CountBetween(hits, lo, hi) <= CountFrom(hits, cutoff)
  {
    if hits != [] {
      CountBetweenAtMostCountFrom(hits[..|hits| - 1], lo, hi, cutoff);
    }
  }

  // ---- How the live grants change

  /** Settling a send changes no live grant. */
  lemma {:induction false} LiveAfterSettling(grants: seq<Grant>, i: nat, g: Grant, x: Axis, key: string)
    requires i < |grants| && g.at == grants[i].at
    requires Counts(g, x, key) == Counts(grants[i], x, key)
    ensures Live(grants[i := g], x, key) == Live(grants, x, key)
  {
    var n := |grants| - 1;
    if i < n {
      assert grants[i := g][..n] == grants[..n][i := g];
      LiveAfterSettling(grants[..n], i, g, x, key);
    } else {
      assert grants[i := g][..n] == grants[..n];
    }
  }

  function WithoutAt(hits: Hits, p: nat): Hits
    requires p < |hits|
  {
    hits[..p] + hits[p + 1..]
  }

  lemma WithoutAtAppend(hits: Hits, p: nat, more: Hits)
    requires p < |hits|
    ensures WithoutAt(hits + more, p) == WithoutAt(hits, p) + more
  {
  }

  lemma LiveOfLonger(grants: seq<Grant>, n: nat, x: Axis, key: string)
    requires |grants| == n + 1
    ensures Live(grants, x, key) == Live(grants[..n], x, key) + if Counts(grants[n], x, key) then [grants[n].at] else []
  {
  }

  /** Giving a grant back removes its own instant from the live ones. */
  lemma {:induction false} LiveAfterGiveBack(grants: seq<Grant>, i: nat, x: Axis, key: string)
    requires i < |grants| && Counts(grants[i], x, key)
    ensures var (live, p) := (Live(grants, x, key), |Live(grants[..i], x, key)|);
            && p < |live| && live[p] == grants[i].at
            && Live(grants[i := grants[i].(phase := Refunded)], x, key) == WithoutAt(live, p)
  {
    var n := |grants| - 1;
    var g := grants[i].(phase := Refunded);
    var after := grants[i := g];
    LiveOfLonger(grants, n, x, key);
    LiveOfLonger(after, n, x, key);
    if i < n {
      assert after[..n] == grants[..n][i := g] && grants[..n][..i] == grants[..i];
      LiveAfterGiveBack(grants[..n], i, x, key);
      var p := |Live(grants[..i], x, key)|;
      WithoutAtAppend(Live(grants[..n], x, key), p, if Counts(grants[n], x, key) then [grants[n].at] else []);
    } else {
      assert after[..n] == grants[..n] && grants[..i] == grants[..n];
    }
  }

  /** No grant to the same key that is still kept is later than grant i. */
  predicate IsNewest(grants: seq<Grant>, i: nat, x: Axis)
    requires i < |grants|
  {
    forall j | 0 <= j < |grants| && Counts(grants[j], x, KeyOf(grants[i], x)) :: grants[j].at <= grants[i].at
  }

  lemma {:induction false} LiveMembers(grants: seq<Grant>, x: Axis, key: string, t: Time)
    ensures t in Live(grants, x, key) <==> exists j :: 0 <= j < |grants| && Counts(grants[j], x, key) && grants[j].at == t
  {
    if grants != [] {
      var n := |grants| - 1;
      LiveMembers(grants[..n], x, key, t);
      if j :| 0 <= j < |grants| && Counts(grants[j], x, key) && grants[j].at == t {
        assert j < n ==> grants[..n][j] == grants[j];
      }
    }
  }

  /** On a sorted list, removing a hit is dropping the last exactly when the two are the same instant. */
  lemma RemovingIsDroppingLast(hits: Hits, p: nat)
    requires Sorted(hits) && p < |hits|
    ensures WithoutAt(hits, p) == DropLast(hits) <==> hits[p] == hits[|hits| - 1]
  {
    var n := |hits| - 1;
    var without, dropped := WithoutAt(hits, p), DropLast(hits);
    if hits[p] == hits[n] {
      forall k | 0 <= k < n ensures without[k] == dropped[k] {
        if k >= p {
          assert without[k] == hits[k + 1];
        }
      }
    } else {
      assert p < n;
      if without == dropped {
        // shifting would then repeat hits[p] all the way to the end
        AllEqualFrom(hits, p, n);
      }
    }
  }

  lemma {:induction false} AllEqualFrom(hits: Hits, p: nat, k: nat)
    requires p <= k < |hits| && WithoutAt(hits, p) == DropLast(hits)
    ensures hits[k] == hits[p]
  {
    if k > p {
      AllEqualFrom(hits, p, k - 1);
      assert WithoutAt(hits, p)[k - 1] == hits[k] && DropLast(hits)[k - 1] == hits[k - 1];
    }
  }

  /**
   Refund drops the key's newest hit. That is the refunded grant's own hit exactly
   when no grant to the key that is still kept is later.
   */
  lemma RefundDropsOwnHitIff(grants: seq<Grant>, i: nat, x: Axis)
    requires i < |grants| && !grants[i].phase.Refunded? && Sorted(Live(grants, x, KeyOf(grants[i], x)))
    ensures var key := KeyOf(grants[i], x);
            Live(grants[i := grants[i].(phase := Refunded)], x, key) == DropLast(Live(grants, x, key))
            <==> IsNewest(grants, i, x)
  {
    var key := KeyOf(grants[i], x);
    var live, p := Live(grants, x, key), |Live(grants[..i], x, key)|;
    LiveAfterGiveBack(grants, i, x, key);
    RemovingIsDroppingLast(live, p);
    var last := live[|live| - 1];
    LiveMembers(grants, x, key, last);
    forall j | 0 <= j < |grants| && Counts(grants[j], x, key) ensures grants[j].at <= last {
      LiveMembers(grants, x, key, grants[j].at);
    }
  }

  // ---- The window bound

  /** The bound: at most the maximum of kept grants in the closed interval of one window from lo on. */
  predicate WithinMax(cfg: Config, grants: seq<Grant>, x: Axis, key: string, lo: Time) {
    |LiveBetween(grants, x, key, lo, lo + WindowOf(cfg, x))| <= Max(0, MaxOf(cfg, x))
  }

  ghost predicate BoundHolds(cfg: Config, w: World, x: Axis, key: string) {
    forall lo: Time :: WithinMax(cfg, w.grants, x, key, lo)
  }

  ghost predicate Spaced(cfg: Config, x: Axis, hits: Hits) {
    forall lo: Time :: SpacedFrom(cfg, x, hits, lo)
  }

  predicate SpacedFrom(cfg: Config, x: Axis, hits: Hits, lo: Time) {
    CountBetween(hits, lo, lo + WindowOf(cfg, x)) <= Max(0, MaxOf(cfg, x))
  }

  function LiveOf(w: World, x: Axis, key: string): Hits { Live(w.grants, x, key) }

  /** The limiter's list for the key. */
  function KeptOf(w: World, x: Axis, key: string): Hits { Lookup(HitsOf(w.lim, x), key) }

  lemma BoundIsSpaced(cfg: Config, w: World, x: Axis, key: string)
    ensures BoundHolds(cfg, w, x, key) <==> Spaced(cfg, x, LiveOf(w, x, key))
  {
    forall lo: Time ensures WithinMax(cfg, w.grants, x, key, lo) <==> SpacedFrom(cfg, x, LiveOf(w, x, key), lo) {
      LiveBetweenIsCounted(w.grants, x, key, lo, lo + WindowOf(cfg, x));
    }
  }

  lemma SpacedAfterGrant(cfg: Config, x: Axis, hits: Hits, now: Time)
    requires Spaced(cfg, x, hits) && CountFrom(hits, now - WindowOf(cfg, x)) < MaxOf(cfg, x)
    ensures Spaced(cfg, x, hits + [now])
  {
    var window, hits' := WindowOf(cfg, x), hits + [now];
    forall lo: Time ensures SpacedFrom(cfg, x, hits', lo) {
      assert SpacedFrom(cfg, x, hits, lo) && hits'[..|hits|] == hits;
      if lo <= now <= lo + window {
        CountBetweenAtMostCountFrom(hits, lo, lo + window, now - window);
      }
    }
  }

  lemma {:induction false} CountBetweenConcat(a: Hits, b: Hits, lo: Time, hi: Time)
    ensures CountBetween(a + b, lo, hi) == CountBetween(a, lo, hi) + CountBetween(b, lo, hi)
  {
    if b == [] {
      assert a + b == a;
    } else {
      var n := |b| - 1;
      assert (a + b)[..|a + b| - 1] == a + b[..n];
      CountBetweenConcat(a, b[..n], lo, hi);
    }
  }

  lemma CountBetweenWithout(hits: Hits, p: nat, lo: Time, hi: Time)
    requires p < |hits|
    ensures CountBetween(WithoutAt(hits, p), lo, hi) <= CountBetween(hits, lo, hi)
  {
    var (a, b, c) := (hits[..p], [hits[p]], hits[p + 1..]);
    assert hits == a + (b + c);
    CountBetweenConcat(a, b + c, lo, hi);
    CountBetweenConcat(b, c, lo, hi);
    CountBetweenConcat(a, c, lo, hi);
  }

  lemma SpacedWithout(cfg: Config, x: Axis, hits: Hits, p: nat)
    requires Spaced(cfg, x, hits) && p < |hits|
    ensures Spaced(cfg, x, WithoutAt(hits, p))
  {
    var without := WithoutAt(hits, p);
    forall lo: Time ensures SpacedFrom(cfg, x, without, lo) {
      assert SpacedFrom(cfg, x, hits, lo);
      CountBetweenWithout(hits, p, lo, lo + WindowOf(cfg, x));
    }
  }

  // ---- What the limiter's list counts, against the grants kept

  predicate UpTo(hits: Hits, clock: Time) { forall i | 0 <= i < |hits| :: hits[i] <= clock }

  predicate NoMore(a: Hits, b: Hits, c: Time) { CountFrom(a, c) <= CountFrom(b, c) }

  /** The limiter's list never counts more than there is, whatever the order of refunds. */
  ghost predicate Tracks(live: Hits, kept: Hits, clock: Time) {
    && Sorted(live) && Sorted(kept) && UpTo(live, clock) && UpTo(kept, clock)
    && forall c: Time :: NoMore(kept, live, c)
  }

  /** From an instant on it counts no less either. */
  ghost predicate Enough(live: Hits, kept: Hits, from: Time) {
    forall c: Time | c >= from :: NoMore(live, kept, c)
  }

  ghost predicate Tracked(w: World, x: Axis, key: string) { Tracks(LiveOf(w, x, key), KeptOf(w, x, key), w.clock) }

  /** At every cutoff a later request can use, the limiter's list counts every grant kept. */
  ghost predicate CountsEveryGrant(cfg: Config, w: World, x: Axis, key: string) {
    Enough(LiveOf(w, x, key), KeptOf(w, x, key), w.clock - WindowOf(cfg, x))
  }

  lemma {:induction false} CountConcat(a: Hits, b: Hits, c: Time)
    ensures CountFrom(a + b, c) == CountFrom(a, c) + CountFrom(b, c)
  {
    if b == [] {
      assert a + b == a;
    } else {
      var n := |b| - 1;
      assert (a + b)[..|a + b| - 1] == a + b[..n];
      CountConcat(a, b[..n], c);
    }
  }

  lemma CountWithout(hits: Hits, p: nat, c: Time)
    requires p < |hits|
    ensures CountFrom(WithoutAt(hits, p), c) == CountFrom(hits, c) - if hits[p] < c then 0 else 1
  {
    assert hits == hits[..p] + [hits[p]] + hits[p + 1..];
    CountConcat(hits[..p] + [hits[p]], hits[p + 1..], c);
    CountAppended(hits[..p], hits[p], c);
    CountConcat(hits[..p], hits[p + 1..], c);
  }

  /** On a sorted list a hit is counted exactly when the last one is fresh. */
  lemma SomeCountedIff(hits: Hits, c: Time)
    requires Sorted(hits)
    ensures CountFrom(hits, c) > 0 <==> hits != [] && hits[|hits| - 1] >= c
  {
    if hits != [] && hits[|hits| - 1] < c {
      StaleHitsPruneToNothing(hits, c);
    }
  }

  lemma {:induction false} FreshHitIsCounted(hits: Hits, i: nat, c: Time)
    requires i < |hits| && hits[i] >= c
    ensures CountFrom(hits, c) > 0
  {
    if i < |hits| - 1 {
      FreshHitIsCounted(hits[..|hits| - 1], i, c);
    }
  }

  lemma TracksLater(live: Hits, kept: Hits, clock: Time, now: Time)
    requires Tracks(live, kept, clock) && clock <= now
    ensures Tracks(live, kept, now)
  {
  }

  lemma TracksPruned(live: Hits, kept: Hits, clock: Time, a: Time)
    requires Tracks(live, kept, clock)
    ensures Tracks(live, Pruned(kept, a), clock)
    ensures Enough(live, kept, a) ==> Enough(live, Pruned(kept, a), a)
  {
    RemainsAfterPrune(kept, kept, a, a);
    var kept' := Pruned(kept, a);
    var cut := |kept| - |kept'|;
    assert kept[cut..] == kept';
    forall c: Time
      ensures NoMore(kept', live, c)
      ensures c >= a && Enough(live, kept, a) ==> NoMore(live, kept', c)
    {
      assert NoMore(kept, live, c) && (c >= a && Enough(live, kept, a) ==> NoMore(live, kept, c));
      CountOfPruned(kept, a, c);
    }
  }

  lemma TracksAppended(live: Hits, kept: Hits, clock: Time, now: Time, from: Time)
    requires Tracks(live, kept, clock) && clock <= now
    ensures Tracks(live + [now], kept + [now], now)
    ensures Enough(live, kept, from) ==> Enough(live + [now], kept + [now], from)
  {
    var live', kept' := live + [now], kept + [now];
    forall c: Time
      ensures NoMore(kept', live', c)
      ensures c >= from && Enough(live, kept, from) ==> NoMore(live', kept', c)
    {
      assert NoMore(kept, live, c) && (c >= from && Enough(live, kept, from) ==> NoMore(live, kept, c));
      CountAppended(kept, now, c);
      CountAppended(live, now, c);
    }
  }

  /** No other hit of the list is both later than t and from the instant on. */
  predicate NoneFreshLater(live: Hits, t: Time, from: Time) {
    forall i | 0 <= i < |live| :: live[i] <= t || live[i] < from
  }

  lemma TracksGivenBack(live: Hits, kept: Hits, clock: Time, p: nat)
    requires Tracks(live, kept, clock) && p < |live|
    ensures Tracks(WithoutAt(live, p), DropLast(kept), clock)
  {
    var live', kept' := WithoutAt(live, p), DropLast(kept);
    forall c: Time ensures NoMore(kept', live', c) {
      assert NoMore(kept, live, c);
      CountWithout(live, p, c);
      SomeCountedIff(kept, c);
      if live[p] >= c {
        FreshHitIsCounted(live, p, c);
      }
    }
  }

  /** Dropping the newest hit in place of one's own goes unnoticed exactly when no later one is still fresh. */
  lemma EnoughGivenBackIff(live: Hits, kept: Hits, clock: Time, p: nat, from: Time)
    requires Tracks(live, kept, clock) && p < |live| && Enough(live, kept, from)
    ensures Enough(WithoutAt(live, p), DropLast(kept), from) <==> NoneFreshLater(live, live[p], from)
  {
    var live', kept' := WithoutAt(live, p), DropLast(kept);
    if NoneFreshLater(live, live[p], from) {
      forall c: Time | c >= from ensures NoMore(live', kept', c) {
        assert NoMore(kept, live, c) && NoMore(live, kept, c);
        CountWithout(live, p, c);
        SomeCountedIff(kept, c);
        SomeCountedIff(live, c);
      }
    }
    if Enough(live', kept', from) {
      forall i | 0 <= i < |live| ensures live[i] <= live[p] || live[i] < from {
        var c := live[i];
        if c > live[p] && c >= from {
          assert NoMore(kept, live, c) && NoMore(live, kept, c) && NoMore(live', kept', c);
          FreshHitIsCounted(live, i, c);
          CountWithout(live, p, c);
          SomeCountedIff(kept, c);
          assert false;
        }
      }
    }
  }

  /** The list of one key after the rollover. */
  function RolledKey(cfg: Config, s: State, now: Time, x: Axis, key: string): Hits {
    var before := Lookup(HitsOf(s, x), key);
    if SameDay(now, s.dayStart) then before else Pruned(before, now - WindowOf(cfg, x))
  }

  lemma RolloverOnKey(cfg: Config, s: State, now: Time, x: Axis, key: string)
    ensures Lookup(HitsOf(Rolled(cfg, s, now), x), key) == RolledKey(cfg, s, now, x, key)
  {
    if !SameDay(now, s.dayStart) {
      var m, cutoff := HitsOf(s, x), now - WindowOf(cfg, x);
      assert HitsOf(Rolled(cfg, s, now), x) == Swept(m, cutoff);
      assert Lookup(Swept(m, cutoff), key) == Pruned(Lookup(m, key), cutoff);
    }
  }

  /** The key whose window a request counts against. */
  function AskedKey(addr: string, ip: string, x: Axis): string { if x.ByAddr? then addr else ip }

  lemma ActedOnKey(cfg: Config, s: State, v: Verdict, addr: string, ip: string, now: Time, x: Axis, key: string)
    ensures var before := Lookup(HitsOf(s, x), key);
            Lookup(HitsOf(Acted(cfg, s, v, addr, ip, now), x), key) ==
            if v.Granted? && key == AskedKey(addr, ip, x) then Pruned(before, now - WindowOf(cfg, x)) + [now] else before
  {
  }

  lemma JudgedOnKey(cfg: Config, s: State, addr: string, ip: string, now: Time, x: Axis)
    requires Judged(cfg, s, addr, ip, now).Granted?
    ensures CountFrom(Lookup(HitsOf(s, x), AskedKey(addr, ip, x)), now - WindowOf(cfg, x)) < MaxOf(cfg, x)
  {
  }

  /** What Allow does to the list of one key, rollover included; rolled is the list in between. */
  lemma AllowOnKey(cfg: Config, s: State, r: State, v: Verdict, addr: string, ip: string, now: Time, x: Axis, key: string,
                   rolled: Hits, kept': Hits, asked: bool)
    requires r == Rolled(cfg, s, now) && v == Judged(cfg, r, addr, ip, now)
    requires rolled == RolledKey(cfg, s, now, x, key) && kept' == Lookup(HitsOf(Acted(cfg, r, v, addr, ip, now), x), key)
    requires asked == (v.Granted? && key == AskedKey(addr, ip, x))
    ensures kept' == (if asked then Pruned(rolled, now - WindowOf(cfg, x)) + [now] else rolled)
    ensures asked ==> CountFrom(rolled, now - WindowOf(cfg, x)) < MaxOf(cfg, x)
  {
    RolloverOnKey(cfg, s, now, x, key);
    ActedOnKey(cfg, r, v, addr, ip, now, x, key);
    if v.Granted? {
      JudgedOnKey(cfg, r, addr, ip, now, x);
    }
  }

  /** The request was granted and counts against this key. */
  predicate Asked(cfg: Config, w: World, step: Step, x: Axis, key: string)
    requires step.Ask?
  {
    AllowStep(cfg, w.lim, step.addr, step.ip, step.now).1.Granted? && key == AskedKey(step.addr, step.ip, x)
  }

  /** How a request takes one key's lists, live and kept, to live' and kept'. */
  predicate AsksOn(cfg: Config, x: Axis, live: Hits, kept: Hits, live': Hits, kept': Hits, now: Time, rolls: bool, asked: bool) {
    var from := now - WindowOf(cfg, x);
    var rolled := if rolls then Pruned(kept, from) else kept;
    if asked then CountFrom(rolled, from) < MaxOf(cfg, x) && kept' == Pruned(rolled, from) + [now] && live' == live + [now]
    else kept' == rolled && live' == live
  }

  lemma LiveAfterAsk(cfg: Config, w: World, step: Step, x: Axis, key: string)
    requires Enabled(w, step) && step.Ask?
    ensures LiveOf(Next(cfg, w, step), x, key) ==
            (if Asked(cfg, w, step, x, key) then LiveOf(w, x, key) + [step.now] else LiveOf(w, x, key))
  {
    if AllowStep(cfg, w.lim, step.addr, step.ip, step.now).1.Granted? {
      assert Next(cfg, w, step).grants[..|w.grants|] == w.grants;
    }
  }

  lemma LimiterAfterAsk(cfg: Config, w: World, step: Step, x: Axis, key: string, r: State, v: Verdict, asked: bool, lim: State)
    requires Enabled(w, step) && step.Ask? && r == Rolled(cfg, w.lim, step.now) && v == Judged(cfg, r, step.addr, step.ip, step.now)
    requires asked == Asked(cfg, w, step, x, key) && lim == Next(cfg, w, step).lim
    ensures lim == Acted(cfg, r, v, step.addr, step.ip, step.now)
    ensures asked == (v.Granted? && key == AskedKey(step.addr, step.ip, x))
  {
  }

  lemma KeptAfterAsk(cfg: Config, w: World, step: Step, x: Axis, key: string, rolled: Hits, lim: State, kept': Hits, asked: bool)
    requires Enabled(w, step) && step.Ask? && asked == Asked(cfg, w, step, x, key) && lim == Next(cfg, w, step).lim
    requires kept' == Lookup(HitsOf(lim, x), key) && rolled == RolledKey(cfg, w.lim, step.now, x, key)
    ensures kept' == (if asked then Pruned(rolled, step.now - WindowOf(cfg, x)) + [step.now] else rolled)
    ensures asked ==> CountFrom(rolled, step.now - WindowOf(cfg, x)) < MaxOf(cfg, x)
  {
    var r := Rolled(cfg, w.lim, step.now);
    var v := Judged(cfg, r, step.addr, step.ip, step.now);
    LimiterAfterAsk(cfg, w, step, x, key, r, v, asked, lim);
    AllowOnKey(cfg, w.lim, r, v, step.addr, step.ip, step.now, x, key, rolled, kept', asked);
  }

  lemma AskOnLists(cfg: Config, w: World, step: Step, x: Axis, key: string, live': Hits, kept': Hits, asked: bool)
    requires Enabled(w, step) && step.Ask? && asked == Asked(cfg, w, step, x, key)
    requires live' == LiveOf(Next(cfg, w, step), x, key) && kept' == KeptOf(Next(cfg, w, step), x, key)
    ensures AsksOn(cfg, x, LiveOf(w, x, key), KeptOf(w, x, key), live', kept', step.now, !SameDay(step.now, w.lim.dayStart), asked)
  {
    LiveAfterAsk(cfg, w, step, x, key);
    KeptAfterAsk(cfg, w, step, x, key, RolledKey(cfg, w.lim, step.now, x, key), Next(cfg, w, step).lim, kept', asked);
  }

  lemma AskTracks(cfg: Config, x: Axis, live: Hits, kept: Hits, live': Hits, kept': Hits, clock: Time, now: Time, rolls: bool, asked: bool)
    requires Tracks(live, kept, clock) && clock <= now && AsksOn(cfg, x, live, kept, live', kept', now, rolls, asked)
    ensures Tracks(live', kept', now)
    ensures Enough(live, kept, clock - WindowOf(cfg, x)) ==> Enough(live', kept', now - WindowOf(cfg, x))
  {
    var from := now - WindowOf(cfg, x);
    var rolled := if rolls then Pruned(kept, from) else kept;
    TracksLater(live, kept, clock, now);
    TracksPruned(live, kept, now, from);
    TracksPruned(live, rolled, now, from);
    TracksAppended(live, Pruned(rolled, from), now, now, from);
  }

  /** A request is granted only where the bound leaves room, if the limiter counts every grant kept. */
  lemma AskSpaces(cfg: Config, x: Axis, live: Hits, kept: Hits, live': Hits, kept': Hits, clock: Time, now: Time, rolls: bool, asked: bool)
    requires Tracks(live, kept, clock) && clock <= now && AsksOn(cfg, x, live, kept, live', kept', now, rolls, asked)
    requires Enough(live, kept, clock - WindowOf(cfg, x)) && Spaced(cfg, x, live)
    ensures Spaced(cfg, x, live')
  {
    var from := now - WindowOf(cfg, x);
    if asked {
      CountOfPruned(kept, from, from);
      assert NoMore(live, kept, from);
      SpacedAfterGrant(cfg, x, live, now);
    }
  }

  lemma AskKeepsAll(cfg: Config, w: World, step: Step, x: Axis, key: string)
    requires Enabled(w, step) && step.Ask? && Tracked(w, x, key)
    ensures Tracked(Next(cfg, w, step), x, key)
    ensures CountsEveryGrant(cfg, w, x, key) ==> CountsEveryGrant(cfg, Next(cfg, w, step), x, key)
    ensures CountsEveryGrant(cfg, w, x, key) && Spaced(cfg, x, LiveOf(w, x, key)) ==> Spaced(cfg, x, LiveOf(Next(cfg, w, step), x, key))
  {
    var (live, kept, asked, rolls) := (LiveOf(w, x, key), KeptOf(w, x, key), Asked(cfg, w, step, x, key), !SameDay(step.now, w.lim.dayStart));
    var live', kept' := LiveOf(Next(cfg, w, step), x, key), KeptOf(Next(cfg, w, step), x, key);
    AskOnLists(cfg, w, step, x, key, live', kept', asked);
    AskTracks(cfg, x, live, kept, live', kept', w.clock, step.now, rolls, asked);
    if CountsEveryGrant(cfg, w, x, key) && Spaced(cfg, x, live) {
      AskSpaces(cfg, x, live, kept, live', kept', w.clock, step.now, rolls, asked);
    }
  }

  /** No later grant to the refunded grant's key that is still kept is inside the window. */
  predicate InOrder(cfg: Config, w: World, i: nat, now: Time, x: Axis)
    requires i < |w.grants|
  {
    forall j | 0 <= j < |w.grants| && Counts(w.grants[j], x, KeyOf(w.grants[i], x)) ::
      w.grants[j].at <= w.grants[i].at || w.grants[j].at < now - WindowOf(cfg, x)
  }

  lemma InOrderOnHits(cfg: Config, w: World, i: nat, now: Time, x: Axis)
    requires i < |w.grants|
    ensures InOrder(cfg, w, i, now, x) <==>
            NoneFreshLater(LiveOf(w, x, KeyOf(w.grants[i], x)), w.grants[i].at, now - WindowOf(cfg, x))
  {
    var (key, from) := (KeyOf(w.grants[i], x), now - WindowOf(cfg, x));
    var live := LiveOf(w, x, key);
    if InOrder(cfg, w, i, now, x) {
      forall k | 0 <= k < |live| ensures live[k] <= w.grants[i].at || live[k] < from {
        LiveMembers(w.grants, x, key, live[k]);
      }
    }
    if NoneFreshLater(live, w.grants[i].at, from) {
      forall j | 0 <= j < |w.grants| && Counts(w.grants[j], x, key)
        ensures w.grants[j].at <= w.grants[i].at || w.grants[j].at < from
      {
        LiveMembers(w.grants, x, key, w.grants[j].at);
      }
    }
  }

  /** What the refund of a grant does to its own key. */
  lemma ListsGivenBack(cfg: Config, w: World, i: nat, now: Time, x: Axis)
    requires Enabled(w, GiveBack(i, now))
    ensures var (key, w') := (KeyOf(w.grants[i], x), Next(cfg, w, GiveBack(i, now)));
            var p := |Live(w.grants[..i], x, key)|;
            && p < |LiveOf(w, x, key)| && LiveOf(w, x, key)[p] == w.grants[i].at
            && LiveOf(w', x, key) == WithoutAt(LiveOf(w, x, key), p) && KeptOf(w', x, key) == DropLast(KeptOf(w, x, key))
  {
    LiveAfterGiveBack(w.grants, i, x, KeyOf(w.grants[i], x));
  }

  /** Any step but a request leaves another key's lists alone. */
  lemma ListsUntouched(cfg: Config, w: World, step: Step, x: Axis, key: string)
    requires Enabled(w, step) && !step.Ask? && (step.GiveBack? ==> KeyOf(w.grants[step.i], x) != key)
    ensures LiveOf(Next(cfg, w, step), x, key) == LiveOf(w, x, key) && KeptOf(Next(cfg, w, step), x, key) == KeptOf(w, x, key)
  {
    LiveAfterSettling(w.grants, step.i, Next(cfg, w, step).grants[step.i], x, key);
  }

  predicate Concerns(w: World, step: Step, x: Axis, key: string)
    requires Enabled(w, step)
  {
    step.GiveBack? && KeyOf(w.grants[step.i], x) == key
  }

  lemma SettlingKeepsTrack(cfg: Config, w: World, step: Step, x: Axis, key: string)
    requires Enabled(w, step) && !step.Ask? && Tracked(w, x, key)
    ensures Tracked(Next(cfg, w, step), x, key)
    ensures !Concerns(w, step, x, key) && CountsEveryGrant(cfg, w, x, key) ==> CountsEveryGrant(cfg, Next(cfg, w, step), x, key)
    ensures Spaced(cfg, x, LiveOf(w, x, key)) ==> Spaced(cfg, x, LiveOf(Next(cfg, w, step), x, key))
  {
    var (live, kept) := (LiveOf(w, x, key), KeptOf(w, x, key));
    TracksLater(live, kept, w.clock, Next(cfg, w, step).clock);
    if Concerns(w, step, x, key) {
      var p := |Live(w.grants[..step.i], x, key)|;
      ListsGivenBack(cfg, w, step.i, step.now, x);
      TracksGivenBack(live, kept, step.now, p);
      if Spaced(cfg, x, live) {
        SpacedWithout(cfg, x, live, p);
      }
    } else {
      ListsUntouched(cfg, w, step, x, key);
    }
  }

  /**
   A refund leaves the limiter counting every grant kept exactly when no later grant to
   the key that is still kept is inside the window.
   */
  lemma RefundKeepsCountsIff(cfg: Config, w: World, i: nat, now: Time, x: Axis)
    requires Enabled(w, GiveBack(i, now)) && Tracked(w, x, KeyOf(w.grants[i], x))
    requires CountsEveryGrant(cfg, w, x, KeyOf(w.grants[i], x))
    ensures CountsEveryGrant(cfg, Next(cfg, w, GiveBack(i, now)), x, KeyOf(w.grants[i], x)) <==> InOrder(cfg, w, i, now, x)
  {
    var key := KeyOf(w.grants[i], x);
    ListsGivenBack(cfg, w, i, now, x);
    InOrderOnHits(cfg, w, i, now, x);
    EnoughGivenBackIff(LiveOf(w, x, key), KeptOf(w, x, key), w.clock, |Live(w.grants[..i], x, key)|, now - WindowOf(cfg, x));
  }

  // ---- Whole runs

  /** Every refund to the key comes in order, when it comes. */
  predicate RefundsInOrder(cfg: Config, w: World, steps: seq<Step>, x: Axis, key: string)
    requires Legal(cfg, w, steps)
    decreases |steps|
  {
    steps != [] ==>
      && (Concerns(w, steps[0], x, key) ==> InOrder(cfg, w, steps[0].i, steps[0].now, x))
      && RefundsInOrder(cfg, Next(cfg, w, steps[0]), steps[1..], x, key)
  }

  lemma StepKeepsTrack(cfg: Config, w: World, step: Step, x: Axis, key: string)
    requires Enabled(w, step) && Tracked(w, x, key)
    ensures Tracked(Next(cfg, w, step), x, key)
  {
    if step.Ask? {
      AskKeepsAll(cfg, w, step, x, key);
    } else {
      SettlingKeepsTrack(cfg, w, step, x, key);
    }
  }

  lemma {:induction false} RunKeepsTrack(cfg: Config, w: World, steps: seq<Step>, x: Axis, key: string)
    requires Legal(cfg, w, steps) && Tracked(w, x, key)
    ensures Tracked(After(cfg, w, steps), x, key)
    decreases |steps|
  {
    if steps != [] {
      StepKeepsTrack(cfg, w, steps[0], x, key);
      RunKeepsTrack(cfg, Next(cfg, w, steps[0]), steps[1..], x, key);
    }
  }

  lemma StepKeepsBound(cfg: Config, w: World, step: Step, x: Axis, key: string)
    requires Enabled(w, step) && Tracked(w, x, key) && CountsEveryGrant(cfg, w, x, key) && Spaced(cfg, x, LiveOf(w, x, key))
    requires Concerns(w, step, x, key) ==> InOrder(cfg, w, step.i, step.now, x)
    ensures CountsEveryGrant(cfg, Next(cfg, w, step), x, key) && Spaced(cfg, x, LiveOf(Next(cfg, w, step), x, key))
  {
    if step.Ask? {
      AskKeepsAll(cfg, w, step, x, key);
    } else {
      SettlingKeepsTrack(cfg, w, step, x, key);
      if Concerns(w, step, x, key) {
        RefundKeepsCountsIff(cfg, w, step.i, step.now, x);
      }
    }
  }

  lemma {:induction false} RunKeepsBound(cfg: Config, w: World, steps: seq<Step>, x: Axis, key: string)
    requires Legal(cfg, w, steps) && Tracked(w, x, key) && CountsEveryGrant(cfg, w, x, key) && Spaced(cfg, x, LiveOf(w, x, key))
    requires RefundsInOrder(cfg, w, steps, x, key)
    ensures CountsEveryGrant(cfg, After(cfg, w, steps), x, key) && Spaced(cfg, x, LiveOf(After(cfg, w, steps), x, key))
    decreases |steps|
  {
    if steps != [] {
      StepKeepsTrack(cfg, w, steps[0], x, key);
      StepKeepsBound(cfg, w, steps[0], x, key);
      RunKeepsBound(cfg, Next(cfg, w, steps[0]), steps[1..], x, key);
    }
  }

  lemma StartCountsEverything(cfg: Config, clock: Time, x: Axis, key: string)
    ensures Tracked(Start(cfg, clock), x, key) && CountsEveryGrant(cfg, Start(cfg, clock), x, key)
    ensures Spaced(cfg, x, LiveOf(Start(cfg, clock), x, key))
  {
  }

  lemma RunHoldsBound(cfg: Config, w: World, steps: seq<Step>, x: Axis, key: string, w': World)
    requires Legal(cfg, w, steps) && Tracked(w, x, key) && CountsEveryGrant(cfg, w, x, key) && Spaced(cfg, x, LiveOf(w, x, key))
    requires RefundsInOrder(cfg, w, steps, x, key) && w' == After(cfg, w, steps)
    ensures BoundHolds(cfg, w', x, key)
  {
    RunKeepsBound(cfg, w, steps, x, key);
    BoundIsSpaced(cfg, w', x, key);
  }

  /**
   In every interleaving whose refunds to a key come in order, every closed interval of
   one window's length holds at most the configured number of grants to that key that
   were not given back, across rollovers and sweeps.
   */
  lemma AtMostMaxGrantsInAnyWindow(cfg: Config, clock: Time, steps: seq<Step>, x: Axis, key: string)
    requires Legal(cfg, Start(cfg, clock), steps) && RefundsInOrder(cfg, Start(cfg, clock), steps, x, key)
    ensures BoundHolds(cfg, After(cfg, Start(cfg, clock), steps), x, key)
  {
    StartCountsEverything(cfg, clock, x, key);
    RunHoldsBound(cfg, Start(cfg, clock), steps, x, key, After(cfg, Start(cfg, clock), steps));
  }
}
