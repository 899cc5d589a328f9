/**
 The scope policy of a proposed session (internal/session/scope.go:49-248): agent value,
 profile default, fee-derived default, hard limits, and the one-write gate. Durations are
 nanoseconds; parsing a duration string and the chain's own realm-path predicate are inputs.
 */
module SessionScope {
  import opened Prelude
  import opened Coins

  const HOUR: int := 3_600_000_000_000
  const UGNOT: string := "ugnot"

  datatype Expiry = Omitted | Malformed | Lasting(nanos: int)

  datatype Profile = Profile(defaultSpendLimit: string, defaultExpiresIn: Expiry, bypassHardLimits: bool, isLocal: bool)

  datatype Args = Args(spendLimit: string, expiresIn: Expiry, allowPaths: seq<string>, allowRun: bool)

  datatype Scope = Scope(spendLimit: string, spendPeriod: int, expiresIn: int, allowPaths: seq<string>, allowRun: bool)

  /** The built-in default and the clamp ceilings; "" and 0 mean unlimited. */
  datatype Limits = Limits(defaultSpendLimit: string, maxSpendLimit: string, maxExpiresIn: int, maxAllowPaths: nat)

  datatype Warning =
    | SpendClamped(limit: string, maxLimit: string)
    | ExpiryClamped(expiry: int, maxExpiry: int)
    | PathsClamped(count: nat, maxCount: nat)

  datatype ScopeError =
    | NothingRequested | BadAllowPath | BadProfileDefaults | BadSpendLimit | BadExpiresIn | CannotClamp | CannotPayOneWrite

  datatype Resolved = Resolved(scope: Scope, warnings: seq<Warning>)

  /** The limits a profile resolves under (internal/profiles/limits.go:16-65). */
  function LimitsOf(p: Profile): Limits {
    if p.bypassHardLimits then Limits("100000000ugnot", "", 0, 0)
    else if p.isLocal then Limits("100000000ugnot", "100000000ugnot", 30 * 24 * HOUR, 20)
    else Limits("100000000ugnot", "100000000ugnot", 7 * 24 * HOUR, 10)
  }

  predicate CleanChar(c: char) { 'a' <= c <= 'z' || IsDigit(c) || c in "./_-" }

  predicate ValidAllowPath(p: string, isRealm: string -> bool) {
    p != "" && (forall i | 0 <= i < |p| :: CleanChar(p[i])) && isRealm(p)
  }

  predicate AllPathsValid(paths: seq<string>, isRealm: string -> bool) {
    forall i | 0 <= i < |paths| :: ValidAllowPath(paths[i], isRealm)
  }

  /** One or more digits, then one or more lowercase letters. */
  predicate SpendLimitValid(s: string) {
    0 < DigitRun(s) < |s| && forall i | DigitRun(s) <= i < |s| :: 'a' <= s[i] <= 'z'
  }

  /** Ten writes at the current fee, wrapping as int64 does, silently capped at the hard limit. */
  function DerivedSpendLimit(fee: int64, p: Profile, lim: Limits): string {
    var mag := Wrap64(fee as int * 10) as int;
    var cap := ParseCoins(lim.maxSpendLimit);
    FormatInt(if !p.bypassHardLimits && cap.Ok? && cap.value.denom == UGNOT && mag > cap.value.mag then cap.value.mag else mag)
    + UGNOT
  }

  function EffectiveSpendLimit(args: Args, p: Profile, lim: Limits, fee: int64): string {
    if args.spendLimit != "" then args.spendLimit
    else if p.defaultSpendLimit != "" then p.defaultSpendLimit
    else if fee > 0 then DerivedSpendLimit(fee, p, lim)
    else lim.defaultSpendLimit
  }

  function EffectiveExpiry(args: Args, p: Profile): int {
    if args.expiresIn.Lasting? then args.expiresIn.nanos
    else if p.defaultExpiresIn.Lasting? then p.defaultExpiresIn.nanos
    else HOUR
  }

  /** The smaller of two amounts of one denomination; None across denominations or on a bad string. */
  function ClampCoin(a: string, cap: string): Option<(string, bool)> {
    var (x, y) := (ParseCoins(a), ParseCoins(cap));
    if x.Err? || y.Err? || x.value.denom != y.value.denom then None
    else if x.value.mag > y.value.mag then Some((cap, true)) else Some((a, false))
  }

  /** Whether a limit pays at least one write; an unknown fee turns the gate off. */
  predicate CoversFee(spendLimit: string, fee: int64) {
    fee <= 0 || (ParseCoins(spendLimit).Ok? && ParseCoins(spendLimit).value.denom == UGNOT && ParseCoins(spendLimit).value.mag >= fee as int)
  }

  /** How many writes a limit pays for; None where the question has no answer. */
  function WritesAtFee(spendLimit: string, fee: int64): Option<int> {
    if fee <= 0 then None
    else
      var c := ParseCoins(spendLimit);
      if c.Err? || c.value.denom != UGNOT then None else Some(c.value.mag / fee as int)
  }

  /** The request as it stands before the hard limits. */
  function Requested(args: Args, p: Profile, lim: Limits, fee: int64): Scope {
    Scope(EffectiveSpendLimit(args, p, lim, fee), EffectiveExpiry(args, p), EffectiveExpiry(args, p), args.allowPaths, args.allowRun)
  }

  predicate TooLong(want: Scope, lim: Limits) { want.expiresIn > lim.maxExpiresIn }

  predicate TooMany(want: Scope, lim: Limits) { |want.allowPaths| > lim.maxAllowPaths }

  function Clamped(want: Scope, lim: Limits, spend: string): Scope {
    var expiry := if TooLong(want, lim) then lim.maxExpiresIn else want.expiresIn;
    Scope(spend, expiry, expiry, if TooMany(want, lim) then want.allowPaths[..lim.maxAllowPaths] else want.allowPaths, want.allowRun)
  }

  /** One warning a clamp, in the order the clamps are applied. */
  function Warnings(want: Scope, lim: Limits, clamped: bool): seq<Warning> {
    var w1 := if clamped then [SpendClamped(want.spendLimit, lim.maxSpendLimit)] else [];
    var w2 := if TooLong(want, lim) then w1 + [ExpiryClamped(want.expiresIn, lim.maxExpiresIn)] else w1;
    if TooMany(want, lim) then w2 + [PathsClamped(|want.allowPaths|, lim.maxAllowPaths)] else w2
  }

  function Resolve(args: Args, p: Profile, lim: Limits, fee: int64, isRealm: string -> bool): Result<Resolved, ScopeError> {
    var want := Requested(args, p, lim, fee);
    if args.allowPaths == [] && !args.allowRun then Err(NothingRequested)
    else if !AllPathsValid(args.allowPaths, isRealm) then Err(BadAllowPath)
    else if p.defaultExpiresIn.Malformed? then Err(BadProfileDefaults)
    else if !SpendLimitValid(want.spendLimit) then Err(BadSpendLimit)
    else if args.expiresIn.Malformed? then Err(BadExpiresIn)
    else if p.bypassHardLimits then
      if CoversFee(want.spendLimit, fee) then Ok(Resolved(want, [])) else Err(CannotPayOneWrite)
    else
      match ClampCoin(want.spendLimit, lim.maxSpendLimit)
      case None => Err(CannotClamp)
      case Some((spend, clamped)) =>
        if !CoversFee(spend, fee) then Err(CannotPayOneWrite)
        else Ok(Resolved(Clamped(want, lim, spend), Warnings(want, lim, clamped)))
  }

  /** A real clamp: a positive cap in ugnot that is itself a valid limit. */
  predicate Clamps(lim: Limits, cap: int) {
    && ParseCoins(lim.maxSpendLimit) == Ok(Coin(cap, UGNOT)) && SpendLimitValid(lim.maxSpendLimit)
    && 0 < cap && lim.maxExpiresIn > 0 && lim.maxAllowPaths > 0
  }

  lemma DecimalOfTheCap()
    ensures Decimal(100_000_000) == "100000000"
  {
    assert Decimal(1) == "1";
    assert Decimal(10) == "10";
    assert Decimal(100) == "100";
    assert Decimal(1000) == "1000";
    assert Decimal(10000) == "10000";
    assert Decimal(100000) == "100000";
    assert Decimal(1000000) == "1000000";
    assert Decimal(10000000) == "10000000";
  }

  lemma PrintedLimitIsValid(n: nat, denom: string, s: string)
    requires s == Decimal(n) + denom && n <= MAX_INT64 as int && denom != "" && forall i | 0 <= i < |denom| :: 'a' <= denom[i] <= 'z'
    ensures ParseCoins(s) == Ok(Coin(n, denom)) && SpendLimitValid(s)
  {
    var d := Decimal(n);
    PrintedCoinReadsBackIff(n, denom);
    DecimalReadsBack(n);
    assert s[..|d|] == d && s[|d|] == denom[0];
    DigitRunIs(s, |d|);
    assert forall i | |d| <= i < |s| :: s[i] == denom[i - |d|];
  }

  lemma PrintedUgnotIsValid(n: nat, s: string)
    requires s == Decimal(n) + UGNOT && n <= MAX_INT64 as int
    ensures ParseCoins(s) == Ok(Coin(n, UGNOT)) && SpendLimitValid(s) && s != ""
  {
    var denom := UGNOT;
    PrintedLimitIsValid(n, denom, s);
  }

  /** The limits in force without bypass are real clamps at 100,000,000 ugnot. */
  lemma HardLimitsClamp(p: Profile, lim: Limits)
    requires !p.bypassHardLimits && lim == LimitsOf(p)
    ensures Clamps(lim, 100_000_000) && lim.defaultSpendLimit == lim.maxSpendLimit
  {
    var n: nat, d := 100_000_000, Decimal(100_000_000);
    DecimalOfTheCap();
    assert d + UGNOT == "100000000ugnot";
    PrintedUgnotIsValid(n, lim.maxSpendLimit);
  }

  /** The spend limit before it is validated: profile default, fee-derived default, agent value. */
  method ChooseSpendLimit(args: Args, p: Profile, lim: Limits, fee: int64) returns (spendLimit: string)
    ensures spendLimit == EffectiveSpendLimit(args, p, lim, fee)
  {
    spendLimit := if p.defaultSpendLimit == "" then lim.defaultSpendLimit else p.defaultSpendLimit;
    if p.defaultSpendLimit == "" && fee > 0 {
      spendLimit := DerivedSpendLimit(fee, p, lim);
    }
    if args.spendLimit != "" {
      spendLimit := args.spendLimit;
    }
  }

  method CheckAllowPaths(paths: seq<string>, isRealm: string -> bool) returns (ok: bool)
    ensures ok == AllPathsValid(paths, isRealm)
  {
    for i := 0 to |paths|
      invariant forall j | 0 <= j < i :: ValidAllowPath(paths[j], isRealm)
    {
      if !ValidAllowPath(paths[i], isRealm) {
        return false;
      }
    }
    return true;
  }

  method ResolveScope(args: Args, p: Profile, fee: int64, isRealm: string -> bool) returns (r: Result<Resolved, ScopeError>)
    ensures r == Resolve(args, p, LimitsOf(p), fee, isRealm)
  {
    r := ResolveUnder(args, p, LimitsOf(p), fee, isRealm);
  }

  /** The three clamps, one warning each. */
  method ClampToLimits(want: Scope, lim: Limits) returns (r: Option<Resolved>)
    requires lim.maxSpendLimit != "" && lim.maxExpiresIn > 0 && lim.maxAllowPaths > 0 && want.expiresIn == want.spendPeriod
    ensures var c := ClampCoin(want.spendLimit, lim.maxSpendLimit);
            r == if c.None? then None else Some(Resolved(Clamped(want, lim, c.value.0), Warnings(want, lim, c.value.1)))
  {
    var scope := want;
    var warnings := [];
    if lim.maxSpendLimit != "" {
      var clamp := ClampCoin(scope.spendLimit, lim.maxSpendLimit);
      if clamp.None? {
        return None;
      }
      if clamp.value.1 {
        warnings := warnings + [SpendClamped(scope.spendLimit, lim.maxSpendLimit)];
        assert warnings == [SpendClamped(scope.spendLimit, lim.maxSpendLimit)];
        scope := scope.(spendLimit := clamp.value.0);
      }
    }
    if lim.maxExpiresIn > 0 && scope.expiresIn > lim.maxExpiresIn {
      warnings := warnings + [ExpiryClamped(scope.expiresIn, lim.maxExpiresIn)];
      scope := scope.(expiresIn := lim.maxExpiresIn, spendPeriod := lim.maxExpiresIn);
    }
    if lim.maxAllowPaths > 0 && |scope.allowPaths| > lim.maxAllowPaths {
      warnings := warnings + [PathsClamped(|scope.allowPaths|, lim.maxAllowPaths)];
      scope := scope.(allowPaths := scope.allowPaths[..lim.maxAllowPaths]);
    }
    return Some(Resolved(scope, warnings));
  }

  /** Layer by layer, rewriting one scope and appending one warning at a time. */
  method ResolveUnder(args: Args, p: Profile, lim: Limits, fee: int64, isRealm: string -> bool) returns (r: Result<Resolved, ScopeError>)
    requires !p.bypassHardLimits ==> lim.maxSpendLimit != "" && lim.maxExpiresIn > 0 && lim.maxAllowPaths > 0
    ensures r == Resolve(args, p, lim, fee, isRealm)
  {
    if |args.allowPaths| == 0 && !args.allowRun {
      return Err(NothingRequested);
    }
    var pathsValid := CheckAllowPaths(args.allowPaths, isRealm);
    if !pathsValid {
      return Err(BadAllowPath);
    }
    if p.defaultExpiresIn.Malformed? {
      return Err(BadProfileDefaults);
    }
    var spendLimit := ChooseSpendLimit(args, p, lim, fee);
    if !SpendLimitValid(spendLimit) {
      return Err(BadSpendLimit);
    }
    var expiresIn := if p.defaultExpiresIn.Lasting? then p.defaultExpiresIn.nanos else HOUR;
    if !args.expiresIn.Omitted? {
      if args.expiresIn.Malformed? {
        return Err(BadExpiresIn);
      }
      expiresIn := args.expiresIn.nanos;
    }
    var scope := Scope(spendLimit, expiresIn, expiresIn, args.allowPaths, args.allowRun);
    if p.bypassHardLimits {
      return if CoversFee(scope.spendLimit, fee) then Ok(Resolved(scope, [])) else Err(CannotPayOneWrite);
    }
    var clamped := ClampToLimits(scope, lim);
    if clamped.None? {
      return Err(CannotClamp);
    }
    if !CoversFee(clamped.value.scope.spendLimit, fee) {
      return Err(CannotPayOneWrite);
    }
    return Ok(clamped.value);
  }

  lemma QuotientAtLeast(m: int, f: int, k: int)
    requires m >= 0 && f > 0
    ensures m / f >= k <==> m >= f * k
  {
    var q := m / f;
    assert m == f * q + m % f;
    if q >= k {
      assert f * q >= f * k;
    } else {
      assert f * (q + 1) <= f * k && f * (q + 1) == f * q + f;
    }
  }

  /** A limit the gate lets through pays for a write, and only such a limit does. */
  lemma CoversFeeMeansOneWrite(spendLimit: string, fee: int64)
    requires fee > 0
    ensures CoversFee(spendLimit, fee) <==> WritesAtFee(spendLimit, fee).Some? && WritesAtFee(spendLimit, fee).value >= 1
  {
    var c := ParseCoins(spendLimit);
    if c.Ok? {
      ParsedCoinIsSane(spendLimit);
      QuotientAtLeast(c.value.mag, fee as int, 1);
    }
  }

  /** No resolved session is dead on arrival, whatever the source of its limit and with or without bypass. */
  lemma ResolvedScopePaysForAWrite(args: Args, p: Profile, lim: Limits, fee: int64, isRealm: string -> bool)
    requires fee > 0 && Resolve(args, p, lim, fee, isRealm).Ok?
    ensures var n := WritesAtFee(Resolve(args, p, lim, fee, isRealm).value.scope.spendLimit, fee);
            n.Some? && n.value >= 1
  {
    CoversFeeMeansOneWrite(Resolve(args, p, lim, fee, isRealm).value.scope.spendLimit, fee);
  }

  /** Under clamps a resolved scope is inside all three and asks for no more than was asked. */
  lemma ResolvedScopeWithinLimits(args: Args, p: Profile, lim: Limits, cap: int, fee: int64, isRealm: string -> bool)
    requires !p.bypassHardLimits && Clamps(lim, cap)
    ensures Resolve(args, p, lim, fee, isRealm).Ok? ==>
            var s := Resolve(args, p, lim, fee, isRealm).value.scope;
            && ParseCoins(s.spendLimit).Ok? && ParseCoins(s.spendLimit).value.denom == UGNOT
            && ParseCoins(s.spendLimit).value.mag <= cap
            && s.expiresIn == s.spendPeriod <= lim.maxExpiresIn
            && |s.allowPaths| <= lim.maxAllowPaths && s.allowPaths <= args.allowPaths
            && s.allowRun == args.allowRun
  {
  }

  /** The scope differs from the request exactly when a warning says so. */
  lemma ClampingIsNeverSilent(args: Args, p: Profile, lim: Limits, fee: int64, isRealm: string -> bool)
    requires Resolve(args, p, lim, fee, isRealm).Ok?
    ensures var r := Resolve(args, p, lim, fee, isRealm).value;
            r.warnings == [] <==> r.scope == Requested(args, p, lim, fee)
  {
  }

  /** The arguments that ask for a resolved scope again. */
  function AskAgain(s: Scope): Args { Args(s.spendLimit, Lasting(s.expiresIn), s.allowPaths, s.allowRun) }

  lemma PrefixStaysValid(paths: seq<string>, all: seq<string>, isRealm: string -> bool)
    requires paths <= all && AllPathsValid(all, isRealm)
    ensures AllPathsValid(paths, isRealm)
  {
    forall i | 0 <= i < |paths| ensures ValidAllowPath(paths[i], isRealm) {
      assert paths[i] == all[i];
    }
  }

  /** Nothing about this scope is left for the policy to change or refuse. */
  predicate Settled(s: Scope, p: Profile, lim: Limits, fee: int64, isRealm: string -> bool) {
    && (s.allowPaths != [] || s.allowRun) && AllPathsValid(s.allowPaths, isRealm)
    && !p.defaultExpiresIn.Malformed? && s.expiresIn == s.spendPeriod
    && SpendLimitValid(s.spendLimit) && CoversFee(s.spendLimit, fee)
    && (!p.bypassHardLimits ==>
          !TooLong(s, lim) && !TooMany(s, lim) && ClampCoin(s.spendLimit, lim.maxSpendLimit) == Some((s.spendLimit, false)))
  }

  lemma ClampCoinTwice(a: string, lim: Limits, cap: int, b: string)
    requires Clamps(lim, cap) && ClampCoin(a, lim.maxSpendLimit).Some? && b == ClampCoin(a, lim.maxSpendLimit).value.0
    ensures ClampCoin(b, lim.maxSpendLimit) == Some((b, false))
    ensures SpendLimitValid(a) ==> SpendLimitValid(b)
  {
  }

  lemma ResolvedIsSettled(args: Args, p: Profile, lim: Limits, cap: int, fee: int64, isRealm: string -> bool)
    requires !p.bypassHardLimits ==> Clamps(lim, cap)
    requires Resolve(args, p, lim, fee, isRealm).Ok?
    ensures Settled(Resolve(args, p, lim, fee, isRealm).value.scope, p, lim, fee, isRealm)
  {
    var want, s := Requested(args, p, lim, fee), Resolve(args, p, lim, fee, isRealm).value.scope;
    PrefixStaysValid(s.allowPaths, args.allowPaths, isRealm);
    if !p.bypassHardLimits {
      ClampCoinTwice(want.spendLimit, lim, cap, s.spendLimit);
      assert s == Clamped(want, lim, s.spendLimit);
    }
  }

  lemma SettledResolvesToItself(s: Scope, p: Profile, lim: Limits, fee: int64, isRealm: string -> bool)
    requires Settled(s, p, lim, fee, isRealm)
    ensures Resolve(AskAgain(s), p, lim, fee, isRealm) == Ok(Resolved(s, []))
  {
    assert s.spendLimit != "";
    assert Requested(AskAgain(s), p, lim, fee) == s;
  }

  /** Resolving a resolved scope changes nothing and warns of nothing. */
  lemma ResolveIsIdempotent(args: Args, p: Profile, lim: Limits, cap: int, fee: int64, isRealm: string -> bool)
    requires !p.bypassHardLimits ==> Clamps(lim, cap)
    requires Resolve(args, p, lim, fee, isRealm).Ok?
    ensures var s := Resolve(args, p, lim, fee, isRealm).value.scope;
            Resolve(AskAgain(s), p, lim, fee, isRealm) == Ok(Resolved(s, []))
  {
    ResolvedIsSettled(args, p, lim, cap, fee, isRealm);
    SettledResolvesToItself(Resolve(args, p, lim, fee, isRealm).value.scope, p, lim, fee, isRealm);
  }

  // ---- The fee-derived default

  /** The amount of the default before it is printed: ten fees, wrapped, and capped unless bypassed. */
  function DerivedAmount(fee: int64, p: Profile): int {
    var mag := Wrap64(fee as int * 10) as int;
    if p.bypassHardLimits then mag else Min(mag, 100_000_000)
  }

  lemma DerivedPrints(fee: int64, p: Profile, lim: Limits)
    requires lim == LimitsOf(p)
    ensures DerivedSpendLimit(fee, p, lim) == FormatInt(DerivedAmount(fee, p)) + UGNOT
  {
    if !p.bypassHardLimits {
      HardLimitsClamp(p, lim);
    }
  }

  /** A wrapped default prints with a minus sign, and is refused for it. */
  lemma NegativeDefaultIsInvalid(x: int, s: string)
    requires x < 0 && s == FormatInt(x) + UGNOT
    ensures !SpendLimitValid(s)
  {
    assert s[0] == '-';
  }

  /** Nothing but the spend limit stands in the way of this request. */
  predicate AsksForTheDefault(args: Args, p: Profile, fee: int64, isRealm: string -> bool) {
    && fee > 0 && args.spendLimit == "" && p.defaultSpendLimit == ""
    && (args.allowPaths != [] || args.allowRun) && AllPathsValid(args.allowPaths, isRealm)
    && !p.defaultExpiresIn.Malformed? && !args.expiresIn.Malformed?
  }

  lemma LimitDecides(args: Args, p: Profile, lim: Limits, fee: int64, isRealm: string -> bool, limit: string)
    requires AsksForTheDefault(args, p, fee, isRealm) && limit == Requested(args, p, lim, fee).spendLimit
    requires SpendLimitValid(limit) && (!p.bypassHardLimits ==> ClampCoin(limit, lim.maxSpendLimit) == Some((limit, false)))
    ensures var r := Resolve(args, p, lim, fee, isRealm);
            (r.Ok? <==> CoversFee(limit, fee)) && (r.Ok? ==> r.value.scope.spendLimit == limit)
  {
  }

  lemma InvalidLimitDecides(args: Args, p: Profile, lim: Limits, fee: int64, isRealm: string -> bool, limit: string)
    requires AsksForTheDefault(args, p, fee, isRealm) && limit == Requested(args, p, lim, fee).spendLimit && !SpendLimitValid(limit)
    ensures Resolve(args, p, lim, fee, isRealm).Err?
  {
  }

  /** With the default, the answer depends on its amount alone. */
  lemma AmountDecides(args: Args, p: Profile, lim: Limits, cap: int, fee: int64, isRealm: string -> bool, derived: string, mag: int)
    requires AsksForTheDefault(args, p, fee, isRealm) && derived == Requested(args, p, lim, fee).spendLimit
    requires derived == FormatInt(mag) + UGNOT && mag <= MAX_INT64 as int
    requires !p.bypassHardLimits ==> Clamps(lim, cap) && mag <= cap
    ensures var r := Resolve(args, p, lim, fee, isRealm);
            && (r.Ok? <==> mag >= fee as int)
            && (r.Ok? ==> r.value.scope.spendLimit == derived && ParseCoins(derived) == Ok(Coin(mag, UGNOT)))
  {
    if mag < 0 {
      NegativeDefaultIsInvalid(mag, derived);
      InvalidLimitDecides(args, p, lim, fee, isRealm, derived);
    } else {
      PrintedUgnotIsValid(mag, derived);
      LimitDecides(args, p, lim, fee, isRealm, derived);
    }
  }

  lemma DefaultResolves(args: Args, p: Profile, lim: Limits, fee: int64, isRealm: string -> bool, derived: string, mag: int)
    requires lim == LimitsOf(p) && AsksForTheDefault(args, p, fee, isRealm)
    requires derived == DerivedSpendLimit(fee, p, lim) && mag == DerivedAmount(fee, p)
    ensures var r := Resolve(args, p, lim, fee, isRealm);
            && (r.Ok? <==> mag >= fee as int)
            && (r.Ok? ==> r.value.scope.spendLimit == derived && ParseCoins(derived) == Ok(Coin(mag, UGNOT)))
  {
    DerivedPrints(fee, p, lim);
    if !p.bypassHardLimits {
      HardLimitsClamp(p, lim);
    }
    AmountDecides(args, p, lim, 100_000_000, fee, isRealm, derived, mag);
  }

  /** Under the cap ten times a fee does not wrap, and what wraps is past the cap. */
  lemma TenfoldWrap(fee: int64, cap: int)
    requires 0 < fee && 0 < cap <= 100_000_000
    ensures fee as int <= cap ==> Wrap64(fee as int * 10) as int == fee as int * 10
  {
  }

  /**
   The fee-derived default yields a session exactly when, clamped, one write costs at most
   the cap, and, with bypass, ten fees wrapped to int64 still cover one.
   */
  lemma DerivedDefaultAcceptedIff(args: Args, p: Profile, lim: Limits, fee: int64, isRealm: string -> bool)
    requires lim == LimitsOf(p) && AsksForTheDefault(args, p, fee, isRealm)
    ensures Resolve(args, p, lim, fee, isRealm).Ok? <==>
            if p.bypassHardLimits then Wrap64(fee as int * 10) >= fee else fee as int <= 100_000_000
  {
    DefaultResolves(args, p, lim, fee, isRealm, DerivedSpendLimit(fee, p, lim), DerivedAmount(fee, p));
    TenfoldWrap(fee, 100_000_000);
  }

  /**
   An accepted default pays the ten writes it is meant for exactly when ten fees fit: the
   cap, or int64 where the cap is bypassed.
   */
  lemma DerivedDefaultPaysTenIff(args: Args, p: Profile, lim: Limits, fee: int64, isRealm: string -> bool)
    requires lim == LimitsOf(p) && AsksForTheDefault(args, p, fee, isRealm)
    ensures Resolve(args, p, lim, fee, isRealm).Ok? ==>
            var n := WritesAtFee(Resolve(args, p, lim, fee, isRealm).value.scope.spendLimit, fee);
            && n.Some? && 1 <= n.value <= 10
            && (n.value == 10 <==> fee as int * 10 <= if p.bypassHardLimits then MAX_INT64 as int else 100_000_000)
  {
    var mag := DerivedAmount(fee, p);
    DefaultResolves(args, p, lim, fee, isRealm, DerivedSpendLimit(fee, p, lim), DerivedAmount(fee, p));
    if Resolve(args, p, lim, fee, isRealm).Ok? {
      WrapNeverExceeds(fee);
      QuotientAtLeast(mag, fee as int, 1);
      QuotientAtLeast(mag, fee as int, 10);
      QuotientAtLeast(mag, fee as int, 11);
    }
  }

  lemma WrapNeverExceeds(fee: int64)
    requires fee > 0
    ensures Wrap64(fee as int * 10) as int <= fee as int * 10
    ensures Wrap64(fee as int * 10) as int == fee as int * 10 <==> fee as int * 10 <= MAX_INT64 as int
  {
  }

  /** With bypass the wrap can let a session through that pays one write in place of ten. */
  lemma WrappedDefaultPaysOneWrite(args: Args, p: Profile, isRealm: string -> bool, fee: int64)
    requires fee == 2_200_000_000_000_000_000 && p.bypassHardLimits && AsksForTheDefault(args, p, fee, isRealm)
    ensures var r := Resolve(args, p, LimitsOf(p), fee, isRealm);
            && r.Ok? && ParseCoins(r.value.scope.spendLimit) == Ok(Coin(3_553_255_926_290_448_384, UGNOT))
            && WritesAtFee(r.value.scope.spendLimit, fee) == Some(1)
  {
    var mag := DerivedAmount(fee, p);
    assert mag == 3_553_255_926_290_448_384;
    DefaultResolves(args, p, LimitsOf(p), fee, isRealm, DerivedSpendLimit(fee, p, LimitsOf(p)), mag);
    QuotientAtLeast(mag, fee as int, 1);
    QuotientAtLeast(mag, fee as int, 2);
  }
}
