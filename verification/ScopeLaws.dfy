/**
 The scope policy in plain terms: which value wins, which ceiling applies, which error
 comes first (internal/session/scope.go:49-228, internal/profiles/limits.go:16-65).
 */
module ScopeLaws {
  import opened Prelude
  import opened Coins
  import opened SessionScope

  /** 100,000,000 ugnot everywhere; 30 days and 20 paths on a local node, 7 days and 10 paths elsewhere; none with bypass. */
  lemma LimitsAre(p: Profile)
    ensures var lim := LimitsOf(p);
            && lim.defaultSpendLimit == "100000000ugnot"
            && lim.maxSpendLimit == (if p.bypassHardLimits then "" else "100000000ugnot")
            && lim.maxExpiresIn == (if p.bypassHardLimits then 0 else if p.isLocal then 2_592_000_000_000_000 else 604_800_000_000_000)
            && lim.maxAllowPaths == (if p.bypassHardLimits then 0 else if p.isLocal then 20 else 10)
  {
  }

  /** Digits up to k, then lowercase letters, at least one of each. */
  predicate DigitsThenLetters(s: string, k: nat) {
    && 0 < k < |s| && (forall i | 0 <= i < k :: '0' <= s[i] <= '9') && forall i | k <= i < |s| :: 'a' <= s[i] <= 'z'
  }

  lemma SpendLimitValidIff(s: string)
    ensures SpendLimitValid(s) <==> exists k: nat :: DigitsThenLetters(s, k)
  {
    if SpendLimitValid(s) {
      var k := DigitRun(s);
      assert forall i | 0 <= i < k :: s[i] == s[..k][i];
      assert DigitsThenLetters(s, k);
    }
    if k: nat :| DigitsThenLetters(s, k) {
      assert AllDigits(s[..k]);
      assert 'a' <= s[k] <= 'z';
      DigitRunIs(s, k);
    }
  }

  /** A realm path, in the characters the shell leaves alone. */
  lemma ValidAllowPathIff(path: string, isRealm: string -> bool)
    ensures ValidAllowPath(path, isRealm) <==>
            path != "" && isRealm(path)
            && forall i | 0 <= i < |path| :: 'a' <= path[i] <= 'z' || '0' <= path[i] <= '9' || path[i] == '.' || path[i] == '/'
                                             || path[i] == '_' || path[i] == '-'
  {
  }

  /** The agent's value, else the profile's, else ten fees at a known price, else the built-in default. */
  lemma SpendLimitWins(args: Args, p: Profile, lim: Limits, fee: int64)
    ensures Requested(args, p, lim, fee).spendLimit ==
            if args.spendLimit != "" then args.spendLimit
            else if p.defaultSpendLimit != "" then p.defaultSpendLimit
            else if fee > 0 then DerivedSpendLimit(fee, p, lim)
            else lim.defaultSpendLimit
  {
  }

  /** Ten fees in ugnot, no more than the cap unless it is bypassed; past int64 see DerivedDefaultAcceptedIff. */
  lemma TenFeesAre(fee: int64, p: Profile, lim: Limits, ten: int)
    requires lim == LimitsOf(p) && fee > 0 && ten == fee as int * 10 <= 0x7fff_ffff_ffff_ffff
    ensures DerivedSpendLimit(fee, p, lim) == FormatInt(if !p.bypassHardLimits && ten > 100_000_000 then 100_000_000 else ten) + "ugnot"
  {
    DerivedPrints(fee, p, lim);
  }

  /** The time a session is asked for: the agent's, else the profile's, else one hour. */
  function WantedTime(args: Args, p: Profile): int {
    match args.expiresIn
    case Lasting(nanos) => nanos
    case _ =>
      match p.defaultExpiresIn
      case Lasting(nanos) => nanos
      case _ => 3_600_000_000_000
  }

  /** What the policy lets through: everything as wanted, or at the ceiling where it is above it. */
  lemma ResolvedIs(args: Args, p: Profile, lim: Limits, fee: int64, isRealm: string -> bool)
    ensures Resolve(args, p, lim, fee, isRealm).Ok? ==>
              var s := Resolve(args, p, lim, fee, isRealm).value.scope;
              var (maxTime, maxPaths, wanted) := (lim.maxExpiresIn, lim.maxAllowPaths, WantedTime(args, p));
              && s.allowRun == args.allowRun
              && s.expiresIn == s.spendPeriod == (if !p.bypassHardLimits && wanted > maxTime then maxTime else wanted)
              && s.allowPaths == (if !p.bypassHardLimits && |args.allowPaths| > maxPaths then args.allowPaths[..maxPaths] else args.allowPaths)
  {
  }

  /** The spend limit let through: as wanted, or the cap where it is above it in the same denomination. */
  lemma ResolvedSpendLimitIs(args: Args, p: Profile, lim: Limits, cap: int, fee: int64, isRealm: string -> bool, limit: string)
    requires !p.bypassHardLimits ==> Clamps(lim, cap)
    requires limit == Requested(args, p, lim, fee).spendLimit
    ensures Resolve(args, p, lim, fee, isRealm).Ok? ==>
              var got := Resolve(args, p, lim, fee, isRealm).value.scope.spendLimit;
              if p.bypassHardLimits then got == limit
              else
                && ParseCoins(limit).Ok? && ParseCoins(limit).value.denom == "ugnot"
                && got == if ParseCoins(limit).value.mag > cap then lim.maxSpendLimit else limit
  {
  }

  /** One warning for each ceiling that was met, saying what was asked and what was given. */
  lemma WarningsAre(args: Args, p: Profile, lim: Limits, fee: int64, isRealm: string -> bool)
    requires Resolve(args, p, lim, fee, isRealm).Ok?
    ensures var (s, ws) := (Resolve(args, p, lim, fee, isRealm).value.scope, Resolve(args, p, lim, fee, isRealm).value.warnings);
            var limit := Requested(args, p, lim, fee).spendLimit;
            var spend: seq<Warning> := if s.spendLimit != limit then [SpendClamped(limit, s.spendLimit)] else [];
            var time: seq<Warning> := if s.expiresIn != WantedTime(args, p) then [ExpiryClamped(WantedTime(args, p), s.expiresIn)] else [];
            var paths: seq<Warning> := if s.allowPaths != args.allowPaths then [PathsClamped(|args.allowPaths|, |s.allowPaths|)] else [];
            ws == spend + time + paths
  {
    if !p.bypassHardLimits {
      var want := Requested(args, p, lim, fee);
      ClampChanges(want.spendLimit, lim.maxSpendLimit);
    }
  }

  /** A clamp is a change: no string above the cap is the cap. */
  lemma ClampChanges(a: string, cap: string)
    ensures ClampCoin(a, cap).Some? ==> (ClampCoin(a, cap).value.1 <==> ClampCoin(a, cap).value.0 != a)
  {
  }

  /** Which error comes back, in the order the checks are made. */
  lemma ErrorsAre(args: Args, p: Profile, lim: Limits, fee: int64, isRealm: string -> bool)
    ensures var r := Resolve(args, p, lim, fee, isRealm);
            var limit := Requested(args, p, lim, fee).spendLimit;
            var nothing := args.allowPaths == [] && !args.allowRun;
            var badPath := exists i :: 0 <= i < |args.allowPaths| && !ValidAllowPath(args.allowPaths[i], isRealm);
            && (r == Err(NothingRequested) <==> nothing)
            && (r == Err(BadAllowPath) <==> !nothing && badPath)
            && (r == Err(BadProfileDefaults) <==> !nothing && !badPath && p.defaultExpiresIn.Malformed?)
            && (r == Err(BadSpendLimit) <==> !nothing && !badPath && !p.defaultExpiresIn.Malformed? && !SpendLimitValid(limit))
            && (r == Err(BadExpiresIn) <==>
                  !nothing && !badPath && !p.defaultExpiresIn.Malformed? && SpendLimitValid(limit) && args.expiresIn.Malformed?)
            && (r == Err(CannotClamp) <==> !nothing && !badPath && !p.defaultExpiresIn.Malformed? && SpendLimitValid(limit)
                                           && !args.expiresIn.Malformed? && !p.bypassHardLimits && ClampCoin(limit, lim.maxSpendLimit).None?)
            && (r == Err(CannotPayOneWrite) <==>
                  && !nothing && !badPath && !p.defaultExpiresIn.Malformed? && SpendLimitValid(limit) && !args.expiresIn.Malformed?
                  && if p.bypassHardLimits then !CoversFee(limit, fee)
                     else ClampCoin(limit, lim.maxSpendLimit).Some? && !CoversFee(ClampCoin(limit, lim.maxSpendLimit).value.0, fee))
  {
  }

  /** Amounts compare in one denomination; the smaller of the two is the outcome, the request where they are equal. */
  lemma ClampCoinIs(a: string, cap: string)
    ensures var (x, y, r) := (ParseCoins(a), ParseCoins(cap), ClampCoin(a, cap));
            && (r.None? <==> x.Err? || y.Err? || x.value.denom != y.value.denom)
            && (r.Some? ==> r.value == if y.value.mag < x.value.mag then (cap, true) else (a, false))
  {
  }

  /** The gate and the writes it promises, on the amount itself. */
  lemma GateIs(limit: string, fee: int64)
    ensures var c := ParseCoins(limit);
            && (CoversFee(limit, fee) <==> fee <= 0 || (c.Ok? && c.value.denom == "ugnot" && c.value.mag >= fee as int))
            && (WritesAtFee(limit, fee).None? <==> fee <= 0 || c.Err? || c.value.denom != "ugnot")
            && (WritesAtFee(limit, fee).Some? ==>
                  var n := WritesAtFee(limit, fee).value;
                  n * fee as int <= c.value.mag < (n + 1) * fee as int)
  {
    var c := ParseCoins(limit);
    if c.Ok? && fee > 0 {
      ParsedCoinIsSane(limit);
      var n := c.value.mag / fee as int;
      assert c.value.mag == fee as int * n + c.value.mag % fee as int;
      assert (n + 1) * fee as int == n * fee as int + fee as int;
    }
  }
}
