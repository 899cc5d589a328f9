/**
 The session manager in plain terms: fields, states and times as they are stored, with
 none of the model's own readings of them (internal/session/manager.go).
 */
module SessionLaws {
  import opened Prelude
  import opened Coins
  import opened AllowPaths
  import opened SessionManager
  import opened SessionRuns

  /** A session made active on a report: the report's five fields, and its own address, master, key and creation time. */
  predicate TakesReport(e: Option<Entry>, m: Meta, st: Status) {
    && e.Some? && e.value.state == "active" && e.value.meta.state == "active"
    && e.value.meta.allowPaths == st.allowPaths && e.value.meta.allowRun == st.allowRun
    && e.value.meta.spendLimit == st.spendLimit && e.value.meta.spendRemaining == st.spendRemaining
    && e.value.meta.expiresAt == st.expiresAt
    && e.value.meta.addr == m.addr && e.value.meta.master == m.master
    && e.value.meta.privkey == m.privkey && e.value.meta.createdAt == m.createdAt
  }

  /** What the lifecycle code makes of the chain's word: any error of a query that was made, but "unsupported", is "inactive". */
  lemma AnswerIs(hasClient: bool, master: string, reply: Reply)
    ensures var c := QueryChain(hasClient, master, reply);
            var asked := hasClient && master != "";
            && (c == NoClient <==> !hasClient)
            && (c == Unsupported <==> hasClient && (master == "" || reply == QueryUnsupported))
            && (c == Inactive <==> asked && (reply == OtherError || (reply.Reports? && !reply.status.active)))
            && (c.Active? <==> asked && reply.Reports? && reply.status.active)
            && (c.Active? ==> c.status == reply.status)
  {
  }

  /** Whether loaded at startup, promoted by the picker, or marked active. */
  lemma ReportIsTaken(ss: Sessions, p: string, a: string, m: Meta, st: Status)
    ensures TakesReport(Find(Step(ss, Loads(p, m, Active(st))), p, m.addr), m, st)
    ensures Find(ss, p, a).Some? ==> TakesReport(Find(Step(ss, Activates(p, a, st)), p, a), Find(ss, p, a).value.meta, st)
    ensures Find(ss, p, a).Some? && Find(ss, p, a).value.state == "pending" ==>
              TakesReport(Find(Step(ss, Promotes(p, a, Active(st))), p, a), Find(ss, p, a).value.meta, st)
  {
  }

  /** A report that is not active, or none, promotes nothing; a session not pending is not promoted. */
  lemma NothingElseIsPromoted(ss: Sessions, p: string, a: string, c: Check)
    requires !c.Active? || Find(ss, p, a).None? || Find(ss, p, a).value.state != "pending"
    ensures Step(ss, Promotes(p, a, c)) == ss
  {
  }

  /** One step makes an ended session usable again only by adding, loading or marking it. */
  lemma OnlyTheseRevive(ss: Sessions, act: Action, p: string, a: string)
    requires Find(ss, p, a).Some? && Find(ss, p, a).value.state != "pending" && Find(ss, p, a).value.state != "active"
    ensures var e := Find(Step(ss, act), p, a);
            && e.Some?
            && (e.value.state == "pending" || e.value.state == "active" ==>
                  || (act.Adds? && act.p == p && act.req.addr == a)
                  || (act.Loads? && act.p == p && act.meta.addr == a)
                  || (act.Activates? && act.p == p && act.a == a)
                  || (act.Deactivates? && act.p == p && act.a == a && (act.state == "pending" || act.state == "active")))
  {
    if !Revives(act, p, a) {
      OverStaysOver(ss, act, p, a);
    }
  }

  /** One step makes a session active only on the chain's word, on a stored active record, or by marking it so. */
  lemma OnlyTheseActivate(ss: Sessions, act: Action, p: string, a: string)
    requires Find(ss, p, a).None? || Find(ss, p, a).value.state != "active"
    ensures var e := Find(Step(ss, act), p, a);
            e.Some? && e.value.state == "active" ==>
              || (act.Loads? && act.p == p && act.meta.addr == a && (act.answer.Active? || act.meta.state == "active"))
              || (act.Promotes? && act.p == p && act.a == a && act.answer.Active? && Find(ss, p, a).value.state == "pending")
              || (act.Activates? && act.p == p && act.a == a)
              || (act.Deactivates? && act.p == p && act.a == a && act.state == "active")
  {
    if !Touches(act, p, a) {
      UntouchedIsUnchanged(ss, act, p, a);
    } else if ByPicker(act) {
      PickerOnlyPromotesOrExpires(ss, act, p, a);
    }
  }

  /** A new session waits for the chain with its whole budget, its key and its scope, to expire when it was asked to. */
  lemma NewSessionIs(ss: Sessions, p: string, req: NewSession)
    ensures var e := Find(Step(ss, Adds(p, req)), p, req.addr);
            && e.Some? && e.value.state == "pending" && e.value.meta.state == "pending"
            && e.value.meta.addr == req.addr && e.value.meta.privkey == req.privkey && e.value.meta.master == req.master
            && e.value.meta.allowPaths == req.scope.allowPaths && e.value.meta.allowRun == req.scope.allowRun
            && e.value.meta.spendLimit == req.scope.spendLimit == e.value.meta.spendRemaining
            && e.value.meta.createdAt * 1_000_000_000 <= req.now < (e.value.meta.createdAt + 1) * 1_000_000_000
            && e.value.meta.expiresAt * 1_000_000_000 <= req.now + req.scope.expiresIn < (e.value.meta.expiresAt + 1) * 1_000_000_000
  {
  }

  /** An active session expires when it is picked over, exactly past its expiry; nothing of its record changes. */
  lemma ExpiresExactlyPast(ss: Sessions, p: string, a: string, now: int)
    requires Find(ss, p, a).Some?
    ensures var (was, after) := (Find(ss, p, a).value, Find(Step(ss, Selects(p, now)), p, a));
            && after.Some? && after.value.meta == was.meta
            && after.value.state == if was.state == "active" && 0 < was.meta.expiresAt < now then "expired" else was.state
  {
    assert p in ss && a in ss[p];
  }

  /** The path itself, or something below it. */
  predicate Under(path: string, realm: string) {
    path == realm || (|path| < |realm| && realm[..|path|] == path && realm[|path|] == '/')
  }

  /** The session could sign for what is wanted. */
  predicate CanSign(e: Entry, want: Want, now: int) {
    && e.state == "active" && (e.meta.expiresAt <= 0 || now <= e.meta.expiresAt) && !IsZeroSpend(e.meta.spendRemaining)
    && match want
       case ForRun => e.meta.allowRun
       case ForRealm(realm) => realm == "" || exists i :: 0 <= i < |e.meta.allowPaths| && Under(e.meta.allowPaths[i], realm)
  }

  lemma CanSignIsEligible(ss: map<string, Entry>, a: string, want: Want, now: int)
    requires a in ss
    ensures CanSign(ss[a], want, now) <==> Eligible(ss, a, want, now)
  {
    var e := ss[a];
    forall i | 0 <= i < |e.meta.allowPaths| && want.ForRealm?
      ensures Under(e.meta.allowPaths[i], want.realm) <==> Covers(e.meta.allowPaths[i], want.realm)
    {
      CoversIff(e.meta.allowPaths[i], want.realm);
    }
  }

  /**
   The picked session can sign, with its own key and master; any session that can is no
   more recent, and never answered with an error; the paths offered are those of the
   active, unexpired sessions with budget left.
   */
  lemma PickIs(ss: map<string, Entry>, want: Want, now: int, r: Pick)
    requires RightPick(ss, want, now, r)
    ensures r.Picked? ==> r.addr in ss && CanSign(ss[r.addr], want, now)
                          && r.privkey == ss[r.addr].meta.privkey && r.master == ss[r.addr].meta.master
    ensures forall a | a in ss && CanSign(ss[a], want, now) :: r.Picked? && ss[a].meta.createdAt <= ss[r.addr].meta.createdAt
    ensures r.ScopeMismatch? ==>
              forall path :: path in r.availablePaths <==>
                             exists a :: a in ss && CanSign(ss[a], ForRealm(""), now) && path in ss[a].meta.allowPaths
  {
    if r.Picked? {
      CanSignIsEligible(ss, r.addr, want, now);
    }
    forall a | a in ss && CanSign(ss[a], want, now) ensures r.Picked? && ss[a].meta.createdAt <= ss[r.addr].meta.createdAt {
      CanSignIsEligible(ss, a, want, now);
    }
    if r.ScopeMismatch? {
      forall path ensures path in r.availablePaths <==> exists a :: a in ss && CanSign(ss[a], ForRealm(""), now) && path in ss[a].meta.allowPaths {
        OffersIs(ss, path, now);
      }
    }
  }

  lemma OffersIs(ss: map<string, Entry>, path: string, now: int)
    ensures Offers(ss, path, now) <==> exists a :: a in ss && CanSign(ss[a], ForRealm(""), now) && path in ss[a].meta.allowPaths
  {
    forall a | a in ss ensures Lists(ss[a], path, now) <==> CanSign(ss[a], ForRealm(""), now) && path in ss[a].meta.allowPaths {
    }
    if Offers(ss, path, now) {
      var a :| a in ss && Lists(ss[a], path, now);
      assert a in ss && CanSign(ss[a], ForRealm(""), now) && path in ss[a].meta.allowPaths;
    }
  }

  /** A local settlement touches the budget of an active session only, and nothing else of it. */
  lemma ChargeIs(ss: Sessions, p: string, a: string, fee: int64)
    ensures var (e, c) := (Find(ss, p, a), Charged(ss, p, a, fee));
            && (c == Err(NotFound) <==> e.None?)
            && (c == Err(NotActive) <==> e.Some? && e.value.state != "active")
            && (c == Err(BadBudget) <==> e.Some? && e.value.state == "active" && ParseCoins(e.value.meta.spendRemaining).Err?)
            && (c.Ok? ==> SpendAfter(e.value.meta.spendRemaining, fee) == Ok(c.value.meta.spendRemaining)
                          && c.value == e.value.(meta := e.value.meta.(spendRemaining := c.value.meta.spendRemaining)))
  {
  }

  /** The chain's figure is taken exactly when it reports the known session active with one, under a known master. */
  lemma SettledIs(ss: Sessions, p: string, a: string, fee: int64, reply: Reply)
    ensures var (e, s) := (Find(ss, p, a), Settled(ss, p, a, fee, reply));
            var taken := e.Some? && e.value.meta.master != "" && reply.Reports? && reply.status.active && reply.status.spendRemaining != "";
            && (taken ==> s == Ok(e.value.(meta := e.value.meta.(spendRemaining := reply.status.spendRemaining))))
            && (!taken ==> s == Charged(ss, p, a, fee))
  {
  }
}
