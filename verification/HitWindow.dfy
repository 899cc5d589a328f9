/**
 A sliding window over the recorded hits of one key (faucet/limiter.go, helpers at
 the end of the file). Instants are nanoseconds on one nondecreasing clock.
 */
module HitWindow {
  type Time = int

  type Hits = seq<Time>

  /** The hits that are not before the cutoff, counted. */
  function CountFrom(hits: Hits, cutoff: Time): (count: nat)
    ensures count <= |hits|
  {
    if hits == [] then 0
    else
      var n := |hits| - 1;
      CountFrom(hits[..n], cutoff) + (if hits[n] < cutoff then 0 else 1)
  }

  /** The hits that are not before the cutoff, in order. */
  function Pruned(hits: Hits, cutoff: Time): Hits
  {
    if hits == [] then []
    else
      var n := |hits| - 1;
      Pruned(hits[..n], cutoff) + (if hits[n] < cutoff then [] else [hits[n]])
  }

  function DropLast(hits: Hits): Hits {
    if hits == [] then hits else hits[..|hits| - 1]
  }

  method CountWithin(hits: Hits, now: Time, window: int) returns (count: nat)
    ensures count == CountFrom(hits, now - window)
  {
    var cutoff := now - window;
    count := 0;
    for i := 0 to |hits|
      invariant count == CountFrom(hits[..i], cutoff)
    {
      assert hits[..i + 1][..i] == hits[..i];
      if !(hits[i] < cutoff) {
        count := count + 1;
      }
    }
    assert hits[..|hits|] == hits;
  }

  /**
   Compacts the first len elements of a backing array in place: the write index
   never overtakes the read index, so no hit is overwritten before it is read.
   */
  method PruneInPlace(a: array<Time>, len: nat, now: Time, window: int) returns (n: nat)
    requires len <= a.Length
    modifies a
    ensures n <= len
    ensures a[..n] == Pruned(old(a[..len]), now - window)
    ensures a[n..] == old(a[n..])
  {
    var cutoff := now - window;
    n := 0;
    for i := 0 to len
      invariant n <= i
      invariant a[..n] == Pruned(old(a[..i]), cutoff)
      invariant forall j | n <= j < a.Length :: a[j] == old(a[j])
    {
      assert old(a[..i + 1][..i]) == old(a[..i]);
      if !(a[i] < cutoff) {
        var h := a[i];
        a[n] := h;
        n := n + 1;
        assert a[..n] == a[..n - 1] + [h];
      }
    }
  }

  predicate Sorted(hits: Hits) {
    forall i, j | 0 <= i <= j < |hits| :: hits[i] <= hits[j]
  }

  function FreshIndices(hits: Hits, cutoff: Time): set<int> {
    set i | 0 <= i < |hits| && hits[i] >= cutoff
  }

  lemma FreshIndicesGrow(hits: Hits, n: nat, cutoff: Time)
    requires |hits| == n + 1
    ensures FreshIndices(hits, cutoff) == FreshIndices(hits[..n], cutoff) + (if hits[n] < cutoff then {} else {n})
    ensures n !in FreshIndices(hits[..n], cutoff)
  {
    assert hits == hits[..n] + [hits[n]];
  }

  /** CountFrom counts positions: the reading of "hits in the window" a caller has in mind. */
  lemma {:induction false} CountFromIsCardinality(hits: Hits, cutoff: Time)
    ensures CountFrom(hits, cutoff) == |FreshIndices(hits, cutoff)|
  {
    if hits == [] {
      assert FreshIndices(hits, cutoff) == {};
    } else {
      var n := |hits| - 1;
      CountFromIsCardinality(hits[..n], cutoff);
      FreshIndicesGrow(hits, n, cutoff);
    }
  }

  /** Pruning keeps exactly the fresh hits, in the multiplicity they had: nothing fresh is lost, nothing stale stays. */
  lemma {:induction false} PrunedKeepsTheFreshHits(hits: Hits, cutoff: Time, x: Time)
    ensures multiset(Pruned(hits, cutoff))[x] == if x >= cutoff then multiset(hits)[x] else 0
    ensures |Pruned(hits, cutoff)| == CountFrom(hits, cutoff)
  {
    if hits != [] {
      var n := |hits| - 1;
      PrunedKeepsTheFreshHits(hits[..n], cutoff, x);
      assert hits == hits[..n] + [hits[n]];
    }
  }

  lemma CountAppended(hits: Hits, t: Time, c: Time)
    ensures CountFrom(hits + [t], c) == CountFrom(hits, c) + if t < c then 0 else 1
  {
    assert (hits + [t])[..|hits|] == hits;
  }

  lemma {:induction false} CountOfPruned(hits: Hits, a: Time, c: Time)
    ensures CountFrom(Pruned(hits, a), c) <= CountFrom(hits, c)
    ensures a <= c ==> CountFrom(Pruned(hits, a), c) == CountFrom(hits, c)
  {
    if hits != [] {
      var n := |hits| - 1;
      CountOfPruned(hits[..n], a, c);
      CountAppended(Pruned(hits[..n], a), hits[n], c);
      assert Pruned(hits[..n], a) + [] == Pruned(hits[..n], a);
    }
  }

  /**
   kept is what remains of the full list of hits after pruning: a suffix, and every
   hit that was thrown away is before the cutoff.
   */
  predicate Remains(full: Hits, kept: Hits, cutoff: Time) {
    && |kept| <= |full|
    && full[|full| - |kept|..] == kept
    && forall i | 0 <= i < |full| - |kept| :: full[i] < cutoff
  }

  lemma {:induction false} StaleHitsPruneToNothing(hits: Hits, cutoff: Time)
    requires forall i | 0 <= i < |hits| :: hits[i] < cutoff
    ensures Pruned(hits, cutoff) == [] && CountFrom(hits, cutoff) == 0
  {
    if hits != [] {
      StaleHitsPruneToNothing(hits[..|hits| - 1], cutoff);
    }
  }

  /** A shortened list answers every later count as the full list would. */
  lemma {:induction false} RemainsCountsAlike(full: Hits, kept: Hits, earlier: Time, cutoff: Time)
    requires Remains(full, kept, earlier) && earlier <= cutoff
    ensures CountFrom(kept, cutoff) == CountFrom(full, cutoff)
  {
    if kept == [] {
      StaleHitsPruneToNothing(full, cutoff);
    } else {
      var n, m := |full| - 1, |kept| - 1;
      assert kept[m] == full[n];
      assert full[..n][n - m..] == kept[..m];
      RemainsCountsAlike(full[..n], kept[..m], earlier, cutoff);
    }
  }

  lemma RemainsGrows(full: Hits, n: nat, rest: Hits, cutoff: Time)
    requires n + 1 == |full| && Remains(full[..n], rest, cutoff)
    ensures Remains(full, rest + [full[n]], cutoff)
  {
    assert full == full[..n] + [full[n]];
    assert forall i | 0 <= i < n - |rest| :: full[..n][i] == full[i];
  }

  lemma SortedUpTo(full: Hits, cutoff: Time)
    requires Sorted(full) && full != [] && full[|full| - 1] < cutoff
    ensures Remains(full, [], cutoff)
  {
    assert forall i | 0 <= i < |full| - 1 :: full[i] <= full[|full| - 1];
  }

  lemma {:induction false} RemainsAfterPrune(full: Hits, kept: Hits, earlier: Time, cutoff: Time)
    requires Sorted(full) && Remains(full, kept, earlier) && earlier <= cutoff
    ensures Remains(full, Pruned(kept, cutoff), cutoff)
  {
    if kept != [] {
      var n, m := |full| - 1, |kept| - 1;
      assert kept[m] == full[n];
      if kept[m] < cutoff {
        SortedUpTo(full, cutoff);
        StaleHitsPruneToNothing(kept, cutoff);
      } else {
        assert full[..n][n - m..] == kept[..m];
        RemainsAfterPrune(full[..n], kept[..m], earlier, cutoff);
        RemainsGrows(full, n, Pruned(kept[..m], cutoff), cutoff);
      }
    }
  }

  lemma RemainsAfterAppend(full: Hits, kept: Hits, cutoff: Time, now: Time)
    requires Remains(full, kept, cutoff)
    ensures Remains(full + [now], kept + [now], cutoff)
  {
    assert (full + [now])[|full| - |kept|..] == full[|full| - |kept|..] + [now];
  }

  /** Dropping the last hit also works when pruning already threw it away. */
  lemma RemainsAfterDropLast(full: Hits, kept: Hits, cutoff: Time)
    requires Remains(full, kept, cutoff)
    ensures Remains(DropLast(full), DropLast(kept), cutoff)
  {
    if kept != [] {
      var n, m := |full| - 1, |kept| - 1;
      assert full[..n][n - m..] == kept[..m];
    }
  }
}
