/**
 Whole runs of the session manager's memory, in any interleaving: each action is one
 locked section of internal/session/manager.go, so the picker's promotions and its
 selection may have other operations, or other pickers, between them.
 */
module SessionRuns {
  import opened Prelude
  import opened Coins
  import opened SessionManager

  datatype Action =
    | Adds(p: string, req: NewSession)
    | Loads(p: string, meta: Meta, answer: Check)
    | Promotes(p: string, a: string, answer: Check)
    | Selects(p: string, now: int)
    | Activates(p: string, a: string, status: Status)
    | Deactivates(p: string, a: string, state: string)
    | Debits(p: string, a: string, fee: int64)
    | Reprices(p: string, a: string, remaining: string)

  /** One session after an operation that only changes a session it finds. */
  function Touched(e: Entry, act: Action): Entry {
    match act
    case Activates(_, _, st) => Entry(ACTIVE, ApplyStatus(e.meta, st))
    case Deactivates(_, _, state) => Entry(state, e.meta.(state := state))
    case Reprices(_, _, left) => e.(meta := e.meta.(spendRemaining := left))
    case _ => e
  }

  function Step(ss: Sessions, act: Action): Sessions {
    match act
    case Adds(p, req) => Put(ss, p, req.addr, Entry(PENDING, NewMeta(req)))
    case Loads(p, m, c) => LoadOne(ss, p, m, c)
    case Promotes(p, a, c) => Promoted(ss, p, a, c)
    case Selects(p, now) => Expired(ss, p, now)
    case Debits(p, a, fee) => if Charged(ss, p, a, fee).Ok? then Put(ss, p, a, Charged(ss, p, a, fee).value) else ss
    case _ => if Find(ss, act.p, act.a).Some? then Put(ss, act.p, act.a, Touched(Find(ss, act.p, act.a).value, act)) else ss
  }

  /** Every action is what the manager's own method does to its memory, whether or not the write after it lands. */
  method Perform(m: Manager, act: Action, writes: bool)
    requires m.Valid()
    modifies m
    ensures m.Valid()
    ensures m.sessions == if act.Adds? && !writes then old(m.sessions) else Step(old(m.sessions), act)
  {
    match act
    case Adds(p, req) => var _ := m.AddPending(p, req, writes);
    case Loads(p, meta, c) => m.HydrateOne(p, meta, c, writes);
    case Promotes(p, a, c) => m.Promote(p, a, c, writes);
    case Selects(p, now) => var _ := m.Select(p, ForRun, now);
    case Activates(p, a, st) => var _ := m.MarkActive(p, a, st, writes);
    case Deactivates(p, a, state) => var _ := m.MarkInactive(p, a, state, writes);
    case Debits(p, a, fee) => var _ := m.UpdateSpend(p, a, fee, writes);
    case Reprices(p, a, left) => var _ := m.SetSpendRemaining(p, a, left, writes);
  }

  function Run(ss: Sessions, acts: seq<Action>): Sessions
    decreases |acts|
  {
    if acts == [] then ss else Step(Run(ss, acts[..|acts| - 1]), acts[|acts| - 1])
  }

  /** The sessions an action can touch: its own, or a whole profile's when it selects. */
  predicate Touches(act: Action, p: string, a: string) {
    match act
    case Adds(q, req) => q == p && req.addr == a
    case Loads(q, m, _) => q == p && m.addr == a
    case Selects(q, _) => q == p
    case _ => act.p == p && act.a == a
  }

  lemma UntouchedIsUnchanged(ss: Sessions, act: Action, p: string, a: string)
    requires !Touches(act, p, a)
    ensures Find(Step(ss, act), p, a) == Find(ss, p, a)
  {
  }

  predicate ByPicker(act: Action) { act.Promotes? || act.Selects? }

  /**
   The picker changes a session in two ways only: pending to active, with the scope the
   chain answered, or active to expired, past its expiry, with nothing else touched.
   */
  lemma PickerOnlyPromotesOrExpires(ss: Sessions, act: Action, p: string, a: string)
    requires ByPicker(act)
    ensures Find(ss, p, a).None? <==> Find(Step(ss, act), p, a).None?
    ensures Find(ss, p, a).Some? ==>
              var (was, after) := (Find(ss, p, a).value, Find(Step(ss, act), p, a).value);
              || after == was
              || (was.state == PENDING && act.Promotes? && act.answer.Active? && after == Entry(ACTIVE, ApplyStatus(was.meta, act.answer.status)))
              || (was.state == ACTIVE && act.Selects? && PastExpiry(was, act.now) && after == Entry(EXPIRED, was.meta))
  {
    if Touches(act, p, a) && Find(ss, p, a).Some? && act.Selects? {
      assert Find(Step(ss, act), p, a) == Some(ExpireIfDue(ss[p][a], act.now));
    }
  }

  // ---- No session is revived

  /** Someone other than the picker says this session is usable again. */
  predicate Revives(act: Action, p: string, a: string) {
    Touches(act, p, a) && (act.Adds? || act.Loads? || act.Activates? || (act.Deactivates? && act.state in {PENDING, ACTIVE}))
  }

  predicate Over(ss: Sessions, p: string, a: string) {
    Find(ss, p, a).Some? && Find(ss, p, a).value.state != PENDING && Find(ss, p, a).value.state != ACTIVE
  }

  lemma OverStaysOver(ss: Sessions, act: Action, p: string, a: string)
    requires Over(ss, p, a) && !Revives(act, p, a)
    ensures Over(Step(ss, act), p, a)
  {
    if ByPicker(act) {
      PickerOnlyPromotesOrExpires(ss, act, p, a);
    } else if !Touches(act, p, a) {
      UntouchedIsUnchanged(ss, act, p, a);
    }
  }

  /** However many pickers run, a revoked or expired session stays so until it is added, loaded or activated anew. */
  lemma {:induction false} PickersNeverRevive(ss: Sessions, acts: seq<Action>, p: string, a: string)
    requires Over(ss, p, a) && forall i | 0 <= i < |acts| :: !Revives(acts[i], p, a)
    ensures Over(Run(ss, acts), p, a)
    decreases |acts|
  {
    if acts != [] {
      var n := |acts| - 1;
      PickersNeverRevive(ss, acts[..n], p, a);
      OverStaysOver(Run(ss, acts[..n]), acts[n], p, a);
    }
  }

  // ---- An active session's scope has been vouched for

  datatype Grant = Grant(allowPaths: seq<string>, allowRun: bool, spendLimit: string, expiresAt: int)

  function Granted(m: Meta): Grant { Grant(m.allowPaths, m.allowRun, m.spendLimit, m.expiresAt) }

  function Reported(st: Status): Grant { Grant(st.allowPaths, st.allowRun, st.spendLimit, st.expiresAt) }

  /** The chain, or an active session's stored record, says the session has this scope. */
  predicate Vouches(act: Action, p: string, a: string, g: Grant) {
    Touches(act, p, a)
    && match act
       case Loads(_, m, c) => if c.Active? then Reported(c.status) == g else !c.Inactive? && m.state == ACTIVE && Granted(m) == g
       case Promotes(_, _, c) => c.Active? && Reported(c.status) == g
       case Activates(_, _, st) => Reported(st) == g
       case _ => false
  }

  /** A new request, or the word that the session is over. */
  predicate Overturns(act: Action, p: string, a: string) {
    Touches(act, p, a) && (act.Adds? || act.Deactivates?)
  }

  predicate Orderly(act: Action) { act.Deactivates? ==> act.state == EXPIRED || act.state == REVOKED }

  ghost predicate VouchedFor(acts: seq<Action>, p: string, a: string, g: Grant) {
    exists i | 0 <= i < |acts| :: Vouches(acts[i], p, a, g) && forall j | i < j < |acts| :: !Overturns(acts[j], p, a)
  }

  lemma VouchedLater(acts: seq<Action>, act: Action, p: string, a: string, g: Grant)
    requires VouchedFor(acts, p, a, g) && !Overturns(act, p, a)
    ensures VouchedFor(acts + [act], p, a, g)
  {
    var i :| 0 <= i < |acts| && Vouches(acts[i], p, a, g) && forall j | i < j < |acts| :: !Overturns(acts[j], p, a);
    assert Vouches((acts + [act])[i], p, a, g);
  }

  lemma VouchedNow(acts: seq<Action>, act: Action, p: string, a: string, g: Grant)
    requires Vouches(act, p, a, g)
    ensures VouchedFor(acts + [act], p, a, g)
  {
    assert (acts + [act])[|acts|] == act;
  }

  predicate IsActive(ss: Sessions, p: string, a: string) { Find(ss, p, a).Some? && Find(ss, p, a).value.state == ACTIVE }

  /** One action either vouches for the active session it leaves, or found it active with that scope. */
  lemma ActiveComesFrom(ss: Sessions, act: Action, p: string, a: string)
    requires Orderly(act) && IsActive(Step(ss, act), p, a)
    ensures var g := Granted(Find(Step(ss, act), p, a).value.meta);
            || Vouches(act, p, a, g)
            || (!Overturns(act, p, a) && IsActive(ss, p, a) && Granted(Find(ss, p, a).value.meta) == g)
  {
    if !Touches(act, p, a) {
      UntouchedIsUnchanged(ss, act, p, a);
    } else if ByPicker(act) {
      PickerOnlyPromotesOrExpires(ss, act, p, a);
    }
  }

  /**
   In every run from startup, a session is active only with a scope that the chain, or its
   own stored active record, vouched for, and nobody has since re-requested it or ended it.
   */
  lemma {:induction false} ActiveMeansVouchedFor(acts: seq<Action>, p: string, a: string)
    requires forall i | 0 <= i < |acts| :: Orderly(acts[i])
    requires IsActive(Run(map[], acts), p, a)
    ensures VouchedFor(acts, p, a, Granted(Find(Run(map[], acts), p, a).value.meta))
    decreases |acts|
  {
    if acts != [] {
      var n := |acts| - 1;
      var (before, g) := (Run(map[], acts[..n]), Granted(Find(Run(map[], acts), p, a).value.meta));
      assert acts == acts[..n] + [acts[n]];
      ActiveComesFrom(before, acts[n], p, a);
      if Vouches(acts[n], p, a, g) {
        VouchedNow(acts[..n], acts[n], p, a, g);
      } else {
        ActiveMeansVouchedFor(acts[..n], p, a);
        VouchedLater(acts[..n], acts[n], p, a, g);
      }
    }
  }

  // ---- Budgets

  /** Nothing but local settlements speaks about this session's budget. */
  predicate LocalOnly(act: Action, p: string, a: string) {
    Touches(act, p, a) ==> act.Promotes? || act.Selects? || act.Debits?
  }

  function Due(act: Action, p: string, a: string): seq<int64> {
    if act.Debits? && Touches(act, p, a) then [act.fee] else []
  }

  function Fees(acts: seq<Action>, p: string, a: string): seq<int64>
    decreases |acts|
  {
    if acts == [] then []
    else
      var n := |acts| - 1;
      Fees(acts[..n], p, a) + Due(acts[n], p, a)
  }

  lemma {:induction false} OneMoreSettlement(coin: string, fees: seq<int64>, fee: int64)
    requires SpendAfterAll(coin, fees).Ok?
    ensures SpendAfterAll(coin, fees + [fee]) == SpendAfter(SpendAfterAll(coin, fees).value, fee)
    decreases |fees|
  {
    if fees == [] {
      assert fees + [fee] == [fee];
    } else {
      assert (fees + [fee])[1..] == fees[1..] + [fee];
      OneMoreSettlement(SpendAfter(coin, fees[0]).value, fees[1..], fee);
    }
  }

  predicate Decided(ss: Sessions, p: string, a: string) {
    Find(ss, p, a).Some? && Find(ss, p, a).value.state != PENDING
  }

  lemma LocalStep(ss: Sessions, act: Action, p: string, a: string)
    requires LocalOnly(act, p, a) && Decided(ss, p, a)
    ensures Decided(Step(ss, act), p, a)
    ensures IsActive(Step(ss, act), p, a) ==> IsActive(ss, p, a)
    ensures IsActive(Step(ss, act), p, a) ==>
              var (c, left) := (Find(ss, p, a).value.meta.spendRemaining, Find(Step(ss, act), p, a).value.meta.spendRemaining);
              left == if Due(act, p, a) != [] && SpendAfter(c, act.fee).Ok? then SpendAfter(c, act.fee).value else c
  {
    if !Touches(act, p, a) {
      UntouchedIsUnchanged(ss, act, p, a);
    } else if ByPicker(act) {
      PickerOnlyPromotesOrExpires(ss, act, p, a);
    }
  }

  predicate LocalFees(acts: seq<Action>, p: string, a: string) {
    forall i | 0 <= i < |acts| :: LocalOnly(acts[i], p, a) && (acts[i].Debits? ==> acts[i].fee >= 0)
  }

  lemma {:induction false} FeesNonnegative(acts: seq<Action>, p: string, a: string)
    requires LocalFees(acts, p, a)
    ensures forall i | 0 <= i < |Fees(acts, p, a)| :: Fees(acts, p, a)[i] >= 0
    decreases |acts|
  {
    if acts != [] {
      FeesNonnegative(acts[..|acts| - 1], p, a);
    }
  }

  lemma BudgetStaysReadable(coin: string, fees: seq<int64>)
    requires ParseCoins(coin).Ok? && forall i | 0 <= i < |fees| :: fees[i] >= 0
    ensures SpendAfterAll(coin, fees).Ok?
  {
    BudgetAfterSettlements(coin, fees);
  }

  lemma SettlementStep(coin: string, fees: seq<int64>, fee: int64, was: string, left: string)
    requires SpendAfterAll(coin, fees) == Ok(was) && SpendAfterAll(coin, fees + [fee]).Ok?
    requires left == if SpendAfter(was, fee).Ok? then SpendAfter(was, fee).value else was
    ensures SpendAfterAll(coin, fees + [fee]) == Ok(left)
  {
    OneMoreSettlement(coin, fees, fee);
  }

  lemma BudgetStep(coin: string, fees: seq<int64>, due: seq<int64>, was: string, left: string)
    requires ParseCoins(coin).Ok? && SpendAfterAll(coin, fees) == Ok(was) && |due| <= 1
    requires forall i | 0 <= i < |fees + due| :: (fees + due)[i] >= 0
    requires left == if due != [] && SpendAfter(was, due[0]).Ok? then SpendAfter(was, due[0]).value else was
    ensures SpendAfterAll(coin, fees + due) == Ok(left)
  {
    if due == [] {
      assert fees + due == fees;
    } else {
      BudgetStaysReadable(coin, fees + due);
      assert due == [due[0]];
      SettlementStep(coin, fees, due[0], was, left);
    }
  }

  ghost predicate Tracks(ss: Sessions, p: string, a: string, coin: string, fees: seq<int64>) {
    IsActive(ss, p, a) ==> SpendAfterAll(coin, fees) == Ok(Find(ss, p, a).value.meta.spendRemaining)
  }

  lemma TracksStep(before: Sessions, after: Sessions, act: Action, p: string, a: string, coin: string, fees: seq<int64>, all: seq<int64>)
    requires after == Step(before, act) && all == fees + Due(act, p, a)
    requires LocalOnly(act, p, a) && Decided(before, p, a) && Tracks(before, p, a, coin, fees)
    requires ParseCoins(coin).Ok? && forall i | 0 <= i < |all| :: all[i] >= 0
    ensures Decided(after, p, a) && Tracks(after, p, a, coin, all)
  {
    LocalStep(before, act, p, a);
    if IsActive(after, p, a) {
      BudgetStep(coin, fees, Due(act, p, a), Find(before, p, a).value.meta.spendRemaining, Find(after, p, a).value.meta.spendRemaining);
    }
  }

  /** While the session stays active its budget is the fees settled one after another. */
  lemma {:induction false} BudgetFollowsFees(ss: Sessions, acts: seq<Action>, p: string, a: string, coin: string)
    requires Decided(ss, p, a) && Find(ss, p, a).value.meta.spendRemaining == coin && ParseCoins(coin).Ok?
    requires LocalFees(acts, p, a)
    ensures Decided(Run(ss, acts), p, a) && Tracks(Run(ss, acts), p, a, coin, Fees(acts, p, a))
    decreases |acts|
  {
    if acts != [] {
      var n := |acts| - 1;
      BudgetFollowsFees(ss, acts[..n], p, a, coin);
      FeesNonnegative(acts, p, a);
      TracksStep(Run(ss, acts[..n]), Run(ss, acts), acts[n], p, a, coin, Fees(acts[..n], p, a), Fees(acts, p, a));
    }
  }

  /**
   Whatever else the manager does meanwhile, a session that settles its own fees locally is
   only ever picked while the fees it settled fall short of the budget it started with.
   */
  lemma NeverPickedOnceSpent(ss: Sessions, acts: seq<Action>, p: string, want: Want, now: int, r: Pick)
    requires Keyed(ss) && r.Picked? && Decided(ss, p, r.addr)
    requires ParseCoins(Find(ss, p, r.addr).value.meta.spendRemaining).Ok?
    requires LocalFees(acts, p, r.addr)
    requires RightPick(SessionsOf(Run(ss, acts), p), want, now, r)
    ensures Total(Fees(acts, p, r.addr)) < ParseCoins(Find(ss, p, r.addr).value.meta.spendRemaining).value.mag
  {
    var coin := Find(ss, p, r.addr).value.meta.spendRemaining;
    FeesNonnegative(acts, p, r.addr);
    BudgetFollowsFees(ss, acts, p, r.addr, coin);
    BudgetAfterSettlements(coin, Fees(acts, p, r.addr));
  }

  /**
   After any interleaving from startup, a session the picker returns is usable and matches,
   is the most recent that is, and has a scope that was vouched for and not overturned since.
   */
  lemma PickedIsUsableAndVouchedFor(acts: seq<Action>, p: string, want: Want, now: int, r: Pick)
    requires forall i | 0 <= i < |acts| :: Orderly(acts[i])
    requires RightPick(SessionsOf(Run(map[], acts), p), want, now, r) && r.Picked?
    ensures var e := Find(Run(map[], acts), p, r.addr);
            && e.Some? && Usable(e.value, now) && Matches(e.value, want)
            && r.privkey == e.value.meta.privkey && r.master == e.value.meta.master
            && VouchedFor(acts, p, r.addr, Granted(e.value.meta))
            && forall b | Eligible(SessionsOf(Run(map[], acts), p), b, want, now) ::
                 SessionsOf(Run(map[], acts), p)[b].meta.createdAt <= e.value.meta.createdAt
  {
    ActiveMeansVouchedFor(acts, p, r.addr);
  }

  // ---- A session reported as spent

  /** The chain, or a settlement's answer, puts this budget on record for a session that is there. */
  predicate Records(ss: Sessions, act: Action, p: string, a: string, left: string) {
    Touches(act, p, a)
    && match act
       case Loads(_, _, c) => c.Active? && c.status.spendRemaining == left
       case Promotes(_, _, c) => c.Active? && c.status.spendRemaining == left && Find(ss, p, a).Some? && Find(ss, p, a).value.state == "pending"
       case Activates(_, _, st) => st.spendRemaining == left && Find(ss, p, a).Some?
       case Reprices(_, _, remaining) => remaining == left && Find(ss, p, a).Some? && Find(ss, p, a).value.state == "active"
       case _ => false
  }

  lemma RecordedIs(ss: Sessions, act: Action, p: string, a: string, left: string)
    requires Records(ss, act, p, a, left)
    ensures Decided(Step(ss, act), p, a) && Find(Step(ss, act), p, a).value.meta.spendRemaining == left
  {
  }

  /**
   Once a budget of zero is on record for a session, no picker returns it, whatever else
   happens, until it is added, loaded, activated or repriced anew.
   */
  lemma ReportedSpentIsNotPicked(ss: Sessions, act: Action, acts: seq<Action>, p: string, a: string, left: string, want: Want, now: int, r: Pick)
    requires Keyed(Step(ss, act)) && Records(ss, act, p, a, left) && ParseCoins(left).Ok? && ParseCoins(left).value.mag == 0
    requires LocalFees(acts, p, a) && RightPick(SessionsOf(Run(Step(ss, act), acts), p), want, now, r)
    ensures r.Picked? ==> r.addr != a
  {
    RecordedIs(ss, act, p, a, left);
    FeesNonnegative(acts, p, a);
    TotalNonnegative(Fees(acts, p, a));
    if r.Picked? && r.addr == a {
      NeverPickedOnceSpent(Step(ss, act), acts, p, want, now, r);
    }
  }
}
