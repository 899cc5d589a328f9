/**
 The session manager (internal/session/manager.go, chain_check.go). Functions on the
 session map say what each locked section does to it; class Manager does it, together
 with the store writes that follow. A store write may fail, and then memory is already
 changed. Entries are values: no two parts of the manager share one.
 */
module SessionManager {
  import opened Prelude
  import opened Coins
  import opened AllowPaths
  import SessionScope

  const PENDING := "pending"
  const ACTIVE := "active"
  const EXPIRED := "expired"
  const REVOKED := "revoked"

  datatype Meta = Meta(
    addr: string, master: string, privkey: seq<int>,
    allowPaths: seq<string>, allowRun: bool, spendLimit: string, spendRemaining: string,
    expiresAt: int, createdAt: int, state: string)

  datatype Entry = Entry(state: string, meta: Meta)

  type Sessions = map<string, map<string, Entry>>

  type Disk = map<string, map<string, Meta>>

  /** What the chain reports of a session. */
  datatype Status = Status(active: bool, allowPaths: seq<string>, allowRun: bool, spendLimit: string, spendRemaining: string, expiresAt: int)

  datatype Reply = Reports(status: Status) | QueryUnsupported | OtherError

  datatype Check = NoClient | Unsupported | Inactive | Active(status: Status)

  /** The answer the lifecycle code branches on: only "inactive" lets anything be deleted. */
  function QueryChain(hasClient: bool, master: string, reply: Reply): Check {
    if !hasClient then NoClient
    else if master == "" then Unsupported
    else
      match reply
      case QueryUnsupported => Unsupported
      case OtherError => Inactive
      case Reports(st) => if st.active then Active(st) else Inactive
  }

  function ApplyStatus(m: Meta, st: Status): Meta {
    m.(allowPaths := st.allowPaths, allowRun := st.allowRun, spendLimit := st.spendLimit,
       spendRemaining := st.spendRemaining, expiresAt := st.expiresAt, state := ACTIVE)
  }

  /** What AddPending is given: the fresh keypair, the resolved scope, the master, and the clock in nanoseconds. */
  datatype NewSession = NewSession(addr: string, privkey: seq<int>, scope: SessionScope.Scope, master: string, now: int)

  /** The whole scope is granted and nothing is spent; times are in whole seconds. */
  function NewMeta(req: NewSession): Meta {
    Meta(req.addr, req.master, req.privkey, req.scope.allowPaths, req.scope.allowRun, req.scope.spendLimit, req.scope.spendLimit,
         (req.now + req.scope.expiresIn) / 1_000_000_000, req.now / 1_000_000_000, PENDING)
  }

  function Find(ss: Sessions, p: string, a: string): Option<Entry> {
    if p in ss && a in ss[p] then Some(ss[p][a]) else None
  }

  function OnDisk(d: Disk, p: string, a: string): Option<Meta> {
    if p in d && a in d[p] then Some(d[p][a]) else None
  }

  /** insertStateLocked. */
  function Put(ss: Sessions, p: string, a: string, e: Entry): Sessions {
    ss[p := (if p in ss then ss[p] else map[])[a := e]]
  }

  function Stored(d: Disk, p: string, m: Meta): Disk {
    d[p := (if p in d then d[p] else map[])[m.addr := m]]
  }

  function Erased(d: Disk, p: string, a: string): Disk {
    if p in d then d[p := d[p] - {a}] else d
  }

  /** Every entry is filed under its own session address. */
  ghost predicate Keyed(ss: Sessions) {
    forall p, a :: p in ss && a in ss[p] ==> ss[p][a].meta.addr == a
  }

  ghost predicate DiskKeyed(d: Disk) {
    forall p, a :: p in d && a in d[p] ==> d[p][a].addr == a
  }

  // ---- Picking

  datatype Want = ForRealm(realm: string) | ForRun

  predicate Matches(e: Entry, want: Want) {
    match want
    case ForRealm(realm) => realm == "" || CoversRealm(e.meta.allowPaths, realm)
    case ForRun => e.meta.allowRun
  }

  predicate PastExpiry(e: Entry, now: int) { e.meta.expiresAt > 0 && now > e.meta.expiresAt }

  /** Active, unexpired, and not spent out. */
  predicate Usable(e: Entry, now: int) {
    e.state == ACTIVE && !PastExpiry(e, now) && !IsZeroSpend(e.meta.spendRemaining)
  }

  function ExpireIfDue(e: Entry, now: int): Entry {
    if e.state == ACTIVE && PastExpiry(e, now) then e.(state := EXPIRED) else e
  }

  function Expired(ss: Sessions, p: string, now: int): Sessions {
    if p in ss then ss[p := map a | a in ss[p] :: ExpireIfDue(ss[p][a], now)] else ss
  }

  /** The re-check under the lock: only a session that is still pending is promoted. */
  function Promoted(ss: Sessions, p: string, a: string, check: Check): Sessions {
    if check.Active? && Find(ss, p, a).Some? && Find(ss, p, a).value.state == PENDING
    then Put(ss, p, a, Entry(ACTIVE, ApplyStatus(Find(ss, p, a).value.meta, check.status)))
    else ss
  }

  datatype Pick =
    | Picked(addr: string, privkey: seq<int>, master: string)
    | NoActiveSession
    | ScopeMismatch(availablePaths: seq<string>)

  predicate Eligible(ss: map<string, Entry>, a: string, want: Want, now: int) {
    a in ss && Usable(ss[a], now) && Matches(ss[a], want)
  }

  predicate NoneEligible(ss: map<string, Entry>, want: Want, now: int) {
    forall a | a in ss :: !Eligible(ss, a, want, now)
  }

  predicate Lists(e: Entry, path: string, now: int) { Usable(e, now) && path in e.meta.allowPaths }

  predicate Offers(ss: map<string, Entry>, path: string, now: int) {
    exists a | a in ss :: Lists(ss[a], path, now)
  }

  predicate Distinct(paths: seq<string>) { forall i, j | 0 <= i < j < |paths| :: paths[i] != paths[j] }

  /**
   The right answer for the sessions of one profile. The order the map is walked in is
   not fixed, so among equally recent sessions, and in the order of paths, it is free.
   */
  ghost predicate RightPick(ss: map<string, Entry>, want: Want, now: int, r: Pick) {
    match r
    case Picked(addr, privkey, master) =>
      && Eligible(ss, addr, want, now) && ss[addr].meta.privkey == privkey && ss[addr].meta.master == master
      && forall b | b in ss && Eligible(ss, b, want, now) :: ss[b].meta.createdAt <= ss[addr].meta.createdAt
    case NoActiveSession =>
      NoneEligible(ss, want, now) && forall path :: !Offers(ss, path, now)
    case ScopeMismatch(paths) =>
      && NoneEligible(ss, want, now) && paths != [] && Distinct(paths)
      && forall path :: path in paths <==> Offers(ss, path, now)
  }

  /** Keeps the first occurrence of every string. */
  method Dedup(input: seq<string>) returns (out: seq<string>)
    ensures Distinct(out) && (forall s :: s in out <==> s in input)
    ensures input != [] ==> out != []
  {
    var seen: set<string> := {};
    out := [];
    for i := 0 to |input|
      invariant Distinct(out) && seen == (set s | s in out)
      invariant forall s :: s in out <==> s in input[..i]
    {
      assert input[..i + 1] == input[..i] + [input[i]];
      if input[i] !in seen {
        seen := seen + {input[i]};
        out := out + [input[i]];
      }
    }
    assert input[..|input|] == input;
    if input != [] {
      assert input[0] in out;
    }
  }

  datatype SpendError = NotFound | NotActive | BadBudget | PersistFailed

  /** UpdateSpend on memory: the new entry, or why there is none. */
  function Charged(ss: Sessions, p: string, a: string, fee: int64): Result<Entry, SpendError> {
    match Find(ss, p, a)
    case None => Err(NotFound)
    case Some(e) =>
      if e.state != ACTIVE then Err(NotActive)
      else
        match SpendAfter(e.meta.spendRemaining, fee)
        case Err(_) => Err(BadBudget)
        case Ok(left) => Ok(e.(meta := e.meta.(spendRemaining := left)))
  }

  predicate ReportsBudget(reply: Reply) { reply.Reports? && reply.status.active && reply.status.spendRemaining != "" }

  /** SettleSpend on memory: the chain's figure where it has one, else the fee off the local one. */
  function Settled(ss: Sessions, p: string, a: string, fee: int64, reply: Reply): Result<Entry, SpendError> {
    var e := Find(ss, p, a);
    if e.Some? && e.value.meta.master != "" && ReportsBudget(reply)
    then Ok(e.value.(meta := e.value.meta.(spendRemaining := reply.status.spendRemaining)))
    else Charged(ss, p, a, fee)
  }

  // ---- The promotion pass

  /** What the promotion pass makes of one session. */
  function AfterPromotion(p: string, e: Entry, check: (string, Meta) -> Check): Entry {
    if e.state == PENDING && check(p, e.meta).Active? then Entry(ACTIVE, ApplyStatus(e.meta, check(p, e.meta).status)) else e
  }

  /** One profile's sessions with all but those in todo past the promotion pass. */
  function PromotedBut(mine: map<string, Entry>, todo: set<string>, p: string, check: (string, Meta) -> Check): map<string, Entry> {
    map a | a in mine :: if a in todo then mine[a] else AfterPromotion(p, mine[a], check)
  }

  function SessionsOf(ss: Sessions, p: string): map<string, Entry> { if p in ss then ss[p] else map[] }

  function WithSessionsOf(ss: Sessions, p: string, mine: map<string, Entry>): Sessions { if p in ss then ss[p := mine] else ss }

  lemma PromotionStep(before: Sessions, ss: Sessions, todo: set<string>, p: string, a: string, check: (string, Meta) -> Check)
    requires p in before && a in before[p] && a in todo && before[p][a].state == PENDING
    requires ss == before[p := PromotedBut(before[p], todo, p, check)]
    ensures Promoted(ss, p, a, check(p, before[p][a].meta)) == before[p := PromotedBut(before[p], todo - {a}, p, check)]
  {
    var mine := before[p];
    var c, next := check(p, mine[a].meta), PromotedBut(mine, todo - {a}, p, check);
    assert Find(ss, p, a) == Some(mine[a]);
    if c.Active? {
      assert ss[p][a := AfterPromotion(p, mine[a], check)] == next;
    } else {
      assert ss[p] == next;
    }
  }

  /** The disk at one session: a promoted one is written back, unless writing fails. */
  ghost predicate PersistedAt(d: Disk, now: Disk, mine: map<string, Entry>, todo: set<string>, p: string, check: (string, Meta) -> Check,
                              writes: bool, q: string, a: string) {
    OnDisk(now, q, a) == if writes && q == p && a in mine && a !in todo && AfterPromotion(p, mine[a], check) != mine[a]
                         then Some(AfterPromotion(p, mine[a], check).meta)
                         else OnDisk(d, q, a)
  }

  lemma PersistStep(d: Disk, was: Disk, now: Disk, mine: map<string, Entry>, todo: set<string>, p: string, a: string,
                    check: (string, Meta) -> Check, writes: bool)
    requires a in mine && a in todo && mine[a].state == PENDING && mine[a].meta.addr == a
    requires forall q, b :: PersistedAt(d, was, mine, todo, p, check, writes, q, b)
    requires now == if check(p, mine[a].meta).Active? && writes then Stored(was, p, AfterPromotion(p, mine[a], check).meta) else was
    ensures forall q, b :: PersistedAt(d, now, mine, todo - {a}, p, check, writes, q, b)
  {
    forall q, b ensures PersistedAt(d, now, mine, todo - {a}, p, check, writes, q, b) {
      assert PersistedAt(d, was, mine, todo, p, check, writes, q, b);
    }
  }

  // ---- Startup

  /** What startup makes of one stored session; prev is what memory held before. */
  function Loaded(prev: Option<Entry>, stored: Option<Meta>, p: string, check: (string, Meta) -> Check): Option<Entry> {
    if stored.None? then prev
    else
      match check(p, stored.value)
      case Active(st) => Some(Entry(ACTIVE, ApplyStatus(stored.value, st)))
      case Inactive => prev
      case _ => Some(Entry(stored.value.state, stored.value))
  }

  predicate Doomed(stored: Option<Meta>, p: string, a: string, check: (string, Meta) -> Check, undeletable: set<(string, string)>) {
    stored.Some? && check(p, stored.value).Inactive? && (p, a) !in undeletable
  }

  /** Memory and disk at one session, once the sessions in done have been looked at. */
  ghost predicate LoadedAt(before: Sessions, d: Disk, now: Sessions, done: set<(string, string)>, p: string, a: string,
                           check: (string, Meta) -> Check) {
    Find(now, p, a) == if (p, a) in done then Loaded(Find(before, p, a), OnDisk(d, p, a), p, check) else Find(before, p, a)
  }

  ghost predicate KeptAt(d: Disk, now: Disk, done: set<(string, string)>, p: string, a: string,
                         check: (string, Meta) -> Check, undeletable: set<(string, string)>) {
    OnDisk(now, p, a) == if (p, a) in done && Doomed(OnDisk(d, p, a), p, a, check, undeletable) then None else OnDisk(d, p, a)
  }

  /** Startup's treatment of one stored session. */
  function LoadOne(ss: Sessions, p: string, m: Meta, c: Check): Sessions {
    match c
    case Active(st) => Put(ss, p, m.addr, Entry(ACTIVE, ApplyStatus(m, st)))
    case Inactive => ss
    case _ => Put(ss, p, m.addr, Entry(m.state, m))
  }

  function EraseOne(d: Disk, p: string, m: Meta, c: Check, deletable: bool): Disk {
    if c.Inactive? && deletable then Erased(d, p, m.addr) else d
  }

  lemma LoadStep(before: Sessions, d: Disk, now: Sessions, next: Sessions, done: set<(string, string)>, p: string, m: Meta,
                 check: (string, Meta) -> Check)
    requires OnDisk(d, p, m.addr) == Some(m) && (p, m.addr) !in done
    requires next == LoadOne(now, p, m, check(p, m))
    requires forall q, b :: LoadedAt(before, d, now, done, q, b, check)
    ensures forall q, b :: LoadedAt(before, d, next, done + {(p, m.addr)}, q, b, check)
  {
    forall q, b ensures LoadedAt(before, d, next, done + {(p, m.addr)}, q, b, check) {
      assert LoadedAt(before, d, now, done, q, b, check);
    }
  }

  lemma EraseStep(d: Disk, now: Disk, next: Disk, done: set<(string, string)>, p: string, m: Meta,
                  check: (string, Meta) -> Check, undeletable: set<(string, string)>)
    requires OnDisk(d, p, m.addr) == Some(m) && (p, m.addr) !in done
    requires next == EraseOne(now, p, m, check(p, m), (p, m.addr) !in undeletable)
    requires forall q, b :: KeptAt(d, now, done, q, b, check, undeletable)
    ensures forall q, b :: KeptAt(d, next, done + {(p, m.addr)}, q, b, check, undeletable)
  {
    forall q, b ensures KeptAt(d, next, done + {(p, m.addr)}, q, b, check, undeletable) {
      assert KeptAt(d, now, done, q, b, check, undeletable);
    }
  }

  lemma LoadOneStaysKeyed(ss: Sessions, d: Disk, p: string, m: Meta, c: Check, deletable: bool)
    requires Keyed(ss) && DiskKeyed(d)
    ensures Keyed(LoadOne(ss, p, m, c)) && DiskKeyed(EraseOne(d, p, m, c, deletable))
  {
  }

  ghost predicate AllLoaded(before: Sessions, d: Disk, now: Sessions, check: (string, Meta) -> Check) {
    forall p, a :: Find(now, p, a) == Loaded(Find(before, p, a), OnDisk(d, p, a), p, check)
  }

  lemma DoneMeansLoaded(before: Sessions, d: Disk, now: Sessions, done: set<(string, string)>, check: (string, Meta) -> Check)
    requires forall q, b :: LoadedAt(before, d, now, done, q, b, check)
    requires forall q, b | OnDisk(d, q, b).Some? :: (q, b) in done
    ensures AllLoaded(before, d, now, check)
  {
    forall p, a ensures Find(now, p, a) == Loaded(Find(before, p, a), OnDisk(d, p, a), p, check) {
      assert LoadedAt(before, d, now, done, p, a, check);
    }
  }

  /** Where startup stopped early: a session is loaded as its answer demands, or as it was. */
  ghost predicate OnlyLoaded(before: Sessions, d: Disk, now: Sessions, check: (string, Meta) -> Check) {
    forall p, a :: Find(now, p, a) == Find(before, p, a) || Find(now, p, a) == Loaded(Find(before, p, a), OnDisk(d, p, a), p, check)
  }

  lemma StoppedMeansOnlyLoaded(before: Sessions, d: Disk, now: Sessions, done: set<(string, string)>, check: (string, Meta) -> Check)
    requires forall q, b :: LoadedAt(before, d, now, done, q, b, check)
    ensures OnlyLoaded(before, d, now, check)
  {
    forall p, a
      ensures Find(now, p, a) == Find(before, p, a) || Find(now, p, a) == Loaded(Find(before, p, a), OnDisk(d, p, a), p, check)
    {
      assert LoadedAt(before, d, now, done, p, a, check);
    }
  }

  ghost predicate OnlyDoomedErased(d: Disk, now: Disk, all: bool, check: (string, Meta) -> Check, undeletable: set<(string, string)>) {
    forall p, a ::
      if Doomed(OnDisk(d, p, a), p, a, check, undeletable)
      then OnDisk(now, p, a).None? || (!all && OnDisk(now, p, a) == OnDisk(d, p, a))
      else OnDisk(now, p, a) == OnDisk(d, p, a)
  }

  lemma DoneMeansErased(d: Disk, now: Disk, done: set<(string, string)>, all: bool,
                        check: (string, Meta) -> Check, undeletable: set<(string, string)>)
    requires forall q, b :: KeptAt(d, now, done, q, b, check, undeletable)
    requires all ==> forall q, b | OnDisk(d, q, b).Some? :: (q, b) in done
    ensures OnlyDoomedErased(d, now, all, check, undeletable)
  {
    forall p, a
      ensures if Doomed(OnDisk(d, p, a), p, a, check, undeletable)
              then OnDisk(now, p, a).None? || (!all && OnDisk(now, p, a) == OnDisk(d, p, a))
              else OnDisk(now, p, a) == OnDisk(d, p, a)
    {
      assert KeptAt(d, now, done, p, a, check, undeletable);
    }
  }

  /** The picker's pass: who is eligible, and every path a usable session lists. */
  method Collect(mine: map<string, Entry>, want: Want, now: int) returns (candidates: set<string>, available: seq<string>)
    ensures forall a :: a in candidates <==> Eligible(mine, a, want, now)
    ensures forall path :: path in available <==> Offers(mine, path, now)
  {
    var todo := mine.Keys;
    candidates, available := {}, [];
    while todo != {}
      invariant todo <= mine.Keys
      invariant forall a :: a in candidates <==> a !in todo && Eligible(mine, a, want, now)
      invariant forall path :: path in available <==> exists a | a in mine && a !in todo :: Lists(mine[a], path, now)
      decreases |todo|
    {
      var a :| a in todo;
      if Usable(mine[a], now) {
        available := available + mine[a].meta.allowPaths;
        if Matches(mine[a], want) {
          candidates := candidates + {a};
        }
      }
      ghost var was := todo;
      todo := todo - {a};
      assert forall path :: path in mine[a].meta.allowPaths && Usable(mine[a], now) <==> Lists(mine[a], path, now);
      assert forall b | b in mine && b !in todo :: b !in was || b == a;
    }
  }

  lemma NothingCollected(mine: map<string, Entry>, want: Want, now: int, available: seq<string>)
    requires forall a :: !Eligible(mine, a, want, now)
    requires available == [] && forall path :: path in available <==> Offers(mine, path, now)
    ensures RightPick(mine, want, now, NoActiveSession)
  {
    forall path ensures !Offers(mine, path, now) {
      assert path !in available;
    }
  }

  lemma NothingPromotedYet(mine: map<string, Entry>, todo: set<string>, p: string, check: (string, Meta) -> Check)
    requires forall a | a in mine && a !in todo :: mine[a].state != PENDING
    ensures PromotedBut(mine, todo, p, check) == mine
    ensures forall a | a in mine && a !in todo :: AfterPromotion(p, mine[a], check) == mine[a]
  {
  }

  method MostRecent(ss: map<string, Entry>, candidates: set<string>) returns (best: string)
    requires candidates != {} && candidates <= ss.Keys
    ensures best in candidates && forall a | a in candidates :: ss[a].meta.createdAt <= ss[best].meta.createdAt
  {
    best :| best in candidates;
    var todo := candidates - {best};
    while todo != {}
      invariant todo <= candidates && best in candidates
      invariant forall a | a in candidates && a !in todo :: ss[a].meta.createdAt <= ss[best].meta.createdAt
      decreases |todo|
    {
      var a :| a in todo;
      todo := todo - {a};
      if ss[a].meta.createdAt > ss[best].meta.createdAt {
        best := a;
      }
    }
  }

  class Manager {
    var sessions: Sessions
    var disk: Disk

    ghost predicate Valid()
      reads this
    {
      Keyed(sessions) && DiskKeyed(disk)
    }

    constructor (onDisk: Disk)
      requires DiskKeyed(onDisk)
      ensures Valid() && sessions == map[] && disk == onDisk
    {
      sessions, disk := map[], onDisk;
    }

    /** Hydrate's loop body. */
    method HydrateOne(p: string, m: Meta, c: Check, deletable: bool)
      requires Valid()
      modifies this
      ensures Valid()
      ensures sessions == LoadOne(old(sessions), p, m, c)
      ensures disk == EraseOne(old(disk), p, m, c, deletable)
    {
      LoadOneStaysKeyed(sessions, disk, p, m, c, deletable);
      match c {
        case Active(st) =>
          sessions := Put(sessions, p, m.addr, Entry(ACTIVE, ApplyStatus(m, st)));
        case Inactive =>
          if deletable {
            disk := Erased(disk, p, m.addr);
          }
        case _ =>
          sessions := Put(sessions, p, m.addr, Entry(m.state, m));
      }
    }

    /**
     check is what QueryChain answers for a stored session; a profile in unlisted cannot
     be listed, a session in undeletable cannot be removed from disk.
     */
    method Hydrate(check: (string, Meta) -> Check, unlisted: set<string>, undeletable: set<(string, string)>) returns (ok: bool)
      requires Valid()
      modifies this
      ensures Valid()
      ensures ok <==> unlisted !! old(disk).Keys
      ensures if ok then AllLoaded(old(sessions), old(disk), sessions, check) else OnlyLoaded(old(sessions), old(disk), sessions, check)
      ensures OnlyDoomedErased(old(disk), disk, ok, check, undeletable)
    {
      ghost var (before: Sessions, d: Disk) := (sessions, disk);
      ghost var done: set<(string, string)> := {};
      var stored := disk;
      var todo := stored.Keys;
      while todo != {}
        invariant todo <= stored.Keys && Valid()
        invariant unlisted !! (stored.Keys - todo)
        invariant forall q, b :: (q, b) in done <==> q in d && b in d[q] && q !in todo
        invariant forall q, b :: LoadedAt(before, d, sessions, done, q, b, check)
        invariant forall q, b :: KeptAt(d, disk, done, q, b, check, undeletable)
        decreases |todo|
      {
        var p :| p in todo;
        if p in unlisted {
          StoppedMeansOnlyLoaded(before, d, sessions, done, check);
          DoneMeansErased(d, disk, done, false, check, undeletable);
          return false;
        }
        var metas := stored[p];
        var left := metas.Keys;
        while left != {}
          invariant left <= metas.Keys && Valid()
          invariant forall q, b :: (q, b) in done <==> q in d && b in d[q] && (q !in todo || (q == p && b !in left))
          invariant forall q, b :: LoadedAt(before, d, sessions, done, q, b, check)
          invariant forall q, b :: KeptAt(d, disk, done, q, b, check, undeletable)
          decreases |left|
        {
          var a :| a in left;
          var m := metas[a];
          assert m.addr == a && OnDisk(d, p, a) == Some(m);
          ghost var (was: Sessions, wasOnDisk: Disk) := (sessions, disk);
          HydrateOne(p, m, check(p, m), (p, a) !in undeletable);
          LoadStep(before, d, was, sessions, done, p, m, check);
          EraseStep(d, wasOnDisk, disk, done, p, m, check, undeletable);
          done := done + {(p, a)};
          left := left - {a};
        }
        todo := todo - {p};
      }
      DoneMeansLoaded(before, d, sessions, done, check);
      DoneMeansErased(d, disk, done, true, check, undeletable);
      return true;
    }

    /** A new session is persisted, then registered as pending. */
    method AddPending(p: string, req: NewSession, writes: bool) returns (ok: bool)
      requires Valid()
      modifies this
      ensures Valid() && ok == writes
      ensures sessions == if ok then Put(old(sessions), p, req.addr, Entry(PENDING, NewMeta(req))) else old(sessions)
      ensures disk == if ok then Stored(old(disk), p, NewMeta(req)) else old(disk)
    {
      var meta := NewMeta(req);
      if !writes {
        return false;
      }
      disk := Stored(disk, p, meta);
      sessions := Put(sessions, p, meta.addr, Entry(PENDING, meta));
      return true;
    }

    /** The locked section of the picker's step 2 for one snapshotted session, and the write after it. */
    method Promote(p: string, a: string, check: Check, writes: bool)
      requires Valid()
      modifies this
      ensures Valid()
      ensures sessions == Promoted(old(sessions), p, a, check)
      ensures disk == if sessions != old(sessions) && writes then Stored(old(disk), p, sessions[p][a].meta) else old(disk)
      ensures sessions != old(sessions) ==> Find(sessions, p, a).Some?
    {
      if !check.Active? {
        return;
      }
      var found := Find(sessions, p, a);
      if found.None? || found.value.state != PENDING {
        return;
      }
      var meta := ApplyStatus(found.value.meta, check.status);
      ghost var before: Sessions := sessions;
      sessions := Put(sessions, p, a, Entry(ACTIVE, meta));
      assert before[p][a].state != sessions[p][a].state;
      if writes {
        disk := Stored(disk, p, meta);
      }
    }

    /** The picker's step 3: purely in memory, one pass over the profile's sessions in any order. */
    method Select(p: string, want: Want, now: int) returns (r: Pick)
      requires Valid()
      modifies this`sessions
      ensures Valid()
      ensures sessions == Expired(old(sessions), p, now)
      ensures RightPick(SessionsOf(old(sessions), p), want, now, r)
    {
      if p !in sessions || sessions[p] == map[] {
        return NoActiveSession;
      }
      var mine := sessions[p];
      var candidates, available := Collect(mine, want, now);
      sessions := Expired(sessions, p, now);
      if candidates == {} && available == [] {
        NothingCollected(mine, want, now, available);
        return NoActiveSession;
      }
      if candidates == {} {
        var paths := Dedup(available);
        return ScopeMismatch(paths);
      }
      var best := MostRecent(mine, candidates);
      return Picked(mine[best].meta.addr, mine[best].meta.privkey, mine[best].meta.master);
    }

    /** The picker's steps 1 and 2: snapshot the pending sessions, ask the chain about each, promote. */
    method PromotePending(p: string, check: (string, Meta) -> Check, writes: bool)
      requires Valid()
      modifies this
      ensures Valid()
      ensures sessions == WithSessionsOf(old(sessions), p, PromotedBut(SessionsOf(old(sessions), p), {}, p, check))
      ensures forall q, a :: PersistedAt(old(disk), disk, SessionsOf(old(sessions), p), {}, p, check, writes, q, a)
    {
      ghost var (before: Sessions, d: Disk) := (sessions, disk);
      var mine := SessionsOf(sessions, p);
      var todo := set a | a in mine && mine[a].state == PENDING;
      NothingPromotedYet(mine, todo, p, check);
      while todo != {}
        invariant todo <= mine.Keys && (forall a | a in todo :: mine[a].state == PENDING) && Valid()
        invariant sessions == WithSessionsOf(before, p, PromotedBut(mine, todo, p, check))
        invariant forall q, a :: PersistedAt(d, disk, mine, todo, p, check, writes, q, a)
        decreases |todo|
      {
        var a :| a in todo;
        ghost var (was: Sessions, wasOnDisk: Disk) := (sessions, disk);
        Promote(p, a, check(p, mine[a].meta), writes);
        PromotionStep(before, was, todo, p, a, check);
        PersistStep(d, wasOnDisk, disk, mine, todo, p, a, check, writes);
        todo := todo - {a};
      }
    }

    /** The whole pick with nothing in between. */
    method PickSession(p: string, want: Want, check: (string, Meta) -> Check, writes: bool, now: int) returns (r: Pick)
      requires Valid()
      modifies this
      ensures Valid()
      ensures var promoted := PromotedBut(SessionsOf(old(sessions), p), {}, p, check);
              && sessions == Expired(WithSessionsOf(old(sessions), p, promoted), p, now)
              && RightPick(promoted, want, now, r)
      ensures forall q, a :: PersistedAt(old(disk), disk, SessionsOf(old(sessions), p), {}, p, check, writes, q, a)
    {
      PromotePending(p, check, writes);
      r := Select(p, want, now);
    }

    /** Subtracts a fee; memory keeps the new budget even when persisting it fails. */
    method UpdateSpend(p: string, a: string, fee: int64, writes: bool) returns (err: Option<SpendError>)
      requires Valid()
      modifies this
      ensures Valid()
      ensures var c := Charged(old(sessions), p, a, fee);
              && sessions == (if c.Ok? then Put(old(sessions), p, a, c.value) else old(sessions))
              && disk == (if c.Ok? && writes then Stored(old(disk), p, c.value.meta) else old(disk))
              && err == (if c.Err? then Some(c.error) else if writes then None else Some(PersistFailed))
    {
      var found := Find(sessions, p, a);
      if found.None? {
        return Some(NotFound);
      }
      if found.value.state != ACTIVE {
        return Some(NotActive);
      }
      var left := Debit(found.value.meta.spendRemaining, fee);
      if left.Err? {
        return Some(BadBudget);
      }
      var meta := found.value.meta.(spendRemaining := left.value);
      sessions := Put(sessions, p, a, found.value.(meta := meta));
      if !writes {
        return Some(PersistFailed);
      }
      disk := Stored(disk, p, meta);
      return None;
    }

    method SetSpendRemaining(p: string, a: string, remaining: string, writes: bool) returns (err: Option<SpendError>)
      requires Valid()
      modifies this
      ensures Valid()
      ensures var e := Find(old(sessions), p, a);
              if e.None? then sessions == old(sessions) && disk == old(disk) && err == Some(NotFound)
              else
                var billed := e.value.(meta := e.value.meta.(spendRemaining := remaining));
                && sessions == Put(old(sessions), p, a, billed)
                && disk == (if writes then Stored(old(disk), p, billed.meta) else old(disk))
                && err == (if writes then None else Some(PersistFailed))
    {
      var found := Find(sessions, p, a);
      if found.None? {
        return Some(NotFound);
      }
      var meta := found.value.meta.(spendRemaining := remaining);
      sessions := Put(sessions, p, a, found.value.(meta := meta));
      if !writes {
        return Some(PersistFailed);
      }
      disk := Stored(disk, p, meta);
      return None;
    }

    /** The chain's record is the budget left; without one the fee is subtracted locally. */
    method SettleSpend(p: string, a: string, fee: int64, reply: Reply, writes: bool) returns (err: Option<SpendError>)
      requires Valid()
      modifies this
      ensures Valid()
      ensures var c := Settled(old(sessions), p, a, fee, reply);
              && sessions == (if c.Ok? then Put(old(sessions), p, a, c.value) else old(sessions))
              && disk == (if c.Ok? && writes then Stored(old(disk), p, c.value.meta) else old(disk))
              && err == (if c.Err? then Some(c.error) else if writes then None else Some(PersistFailed))
    {
      var found := Find(sessions, p, a);
      if found.Some? && found.value.meta.master != "" && ReportsBudget(reply) {
        err := SetSpendRemaining(p, a, reply.status.spendRemaining, writes);
        return;
      }
      err := UpdateSpend(p, a, fee, writes);
    }

    method MarkActive(p: string, a: string, status: Status, writes: bool) returns (err: Option<SpendError>)
      requires Valid()
      modifies this
      ensures Valid()
      ensures var e := Find(old(sessions), p, a);
              if e.None? then sessions == old(sessions) && disk == old(disk) && err == Some(NotFound)
              else
                var marked := Entry(ACTIVE, ApplyStatus(e.value.meta, status));
                && sessions == Put(old(sessions), p, a, marked)
                && disk == (if writes then Stored(old(disk), p, marked.meta) else old(disk))
                && err == (if writes then None else Some(PersistFailed))
    {
      var found := Find(sessions, p, a);
      if found.None? {
        return Some(NotFound);
      }
      var meta := ApplyStatus(found.value.meta, status);
      sessions := Put(sessions, p, a, Entry(ACTIVE, meta));
      if !writes {
        return Some(PersistFailed);
      }
      disk := Stored(disk, p, meta);
      return None;
    }

    method MarkInactive(p: string, a: string, state: string, writes: bool) returns (err: Option<SpendError>)
      requires Valid()
      modifies this
      ensures Valid()
      ensures var e := Find(old(sessions), p, a);
              if e.None? then sessions == old(sessions) && disk == old(disk) && err == Some(NotFound)
              else
                var marked := Entry(state, e.value.meta.(state := state));
                && sessions == Put(old(sessions), p, a, marked)
                && disk == (if writes then Stored(old(disk), p, marked.meta) else old(disk))
                && err == (if writes then None else Some(PersistFailed))
    {
      var found := Find(sessions, p, a);
      if found.None? {
        return Some(NotFound);
      }
      var meta := found.value.meta.(state := state);
      sessions := Put(sessions, p, a, Entry(state, meta));
      if !writes {
        return Some(PersistFailed);
      }
      disk := Stored(disk, p, meta);
      return None;
    }
  }

  /**
   Startup from an empty memory is exact: memory holds precisely the stored sessions the
   chain did not answer "inactive" for, with the chain's scope where it answered "active"
   and as stored where it could not be asked. Only an answered query loses a session.
   */
  lemma StartupIsExact(d: Disk, now: Sessions, diskNow: Disk, hasClient: string -> bool, reply: (string, Meta) -> Reply,
                       check: (string, Meta) -> Check, undeletable: set<(string, string)>, p: string, a: string)
    requires forall q, m :: check(q, m) == QueryChain(hasClient(q), m.master, reply(q, m))
    requires AllLoaded(map[], d, now, check) && OnlyDoomedErased(d, diskNow, true, check, undeletable)
    ensures OnDisk(d, p, a).None? ==> Find(now, p, a).None? && OnDisk(diskNow, p, a).None?
    ensures OnDisk(d, p, a).Some? ==>
              var m := OnDisk(d, p, a).value;
              var answered := hasClient(p) && m.master != "" && !reply(p, m).QueryUnsupported?;
              var active := answered && reply(p, m).Reports? && reply(p, m).status.active;
              && (Find(now, p, a).None? <==> answered && !active)
              && (Find(now, p, a).Some? ==>
                    Find(now, p, a).value == if active then Entry(ACTIVE, ApplyStatus(m, reply(p, m).status)) else Entry(m.state, m))
              && (OnDisk(diskNow, p, a).None? <==> answered && !active && (p, a) !in undeletable)
              && (OnDisk(diskNow, p, a).Some? ==> OnDisk(diskNow, p, a) == Some(m))
  {
    assert Find(now, p, a) == Loaded(None, OnDisk(d, p, a), p, check);
    assert OnDisk(diskNow, p, a) == if Doomed(OnDisk(d, p, a), p, a, check, undeletable) then None else OnDisk(d, p, a);
  }

  /** The answer's kind is decided by the sessions alone, each error by its own condition. */
  lemma PickKindIsExact(ss: map<string, Entry>, want: Want, now: int, r: Pick)
    requires RightPick(ss, want, now, r)
    ensures r.Picked? <==> exists a :: Eligible(ss, a, want, now)
    ensures r.ScopeMismatch? <==> NoneEligible(ss, want, now) && exists path :: Offers(ss, path, now)
    ensures r.NoActiveSession? <==> NoneEligible(ss, want, now) && !exists path :: Offers(ss, path, now)
  {
    if r.ScopeMismatch? {
      assert r.availablePaths[0] in r.availablePaths;
      assert Offers(ss, r.availablePaths[0], now);
    }
  }

  /**
   The comment on the picker promises NoActiveSession only when no session is usable. The
   code gives it in one more case: usable sessions exist, none matches, and not one of
   them lists a path.
   */
  lemma DocumentedNoActiveSessionIff(ss: map<string, Entry>, want: Want, now: int, r: Pick)
    requires RightPick(ss, want, now, r)
    ensures (r.NoActiveSession? <==> !exists a | a in ss :: Usable(ss[a], now))
            <==> !(NoneEligible(ss, want, now) && (exists a | a in ss :: Usable(ss[a], now))
                   && forall a | a in ss && Usable(ss[a], now) :: ss[a].meta.allowPaths == [])
  {
    PickKindIsExact(ss, want, now, r);
    forall a | a in ss && Usable(ss[a], now) && ss[a].meta.allowPaths != []
      ensures exists path :: Offers(ss, path, now)
    {
      assert ss[a].meta.allowPaths[0] in ss[a].meta.allowPaths;
      assert Offers(ss, ss[a].meta.allowPaths[0], now);
    }
  }

  /** That case is real: one usable session that may only run code, asked for a realm. */
  lemma RunOnlySessionReadsAsNone()
    ensures var e := Entry(ACTIVE, Meta("g1run", "g1master", [], [], true, "", "", 0, 1, ACTIVE));
            var ss := map["g1run" := e];
            && Usable(e, 0) && RightPick(ss, ForRealm("gno.land/r/x"), 0, NoActiveSession)
            && RightPick(ss, ForRun, 0, Picked("g1run", [], "g1master"))
  {
  }
}
