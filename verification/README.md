# gno-mcp in Dafny

A model, with proofs, of the parts of gno-mcp that guard money and permissions: the testnet
faucet's rate limiter and the Fund protocol around it, the session manager with its scope and
spend policy, the transaction-fee arithmetic, the sweep that precedes deleting an agent key, the
envelope around chain-derived text, and the profile listing in the server instructions.

`dafny verify dfyconfig.toml` checks the whole project.

## Modules

| module | models |
|---|---|
| `HitWindow`, `RateLimiter` | the limiter: sliding windows over hit lists, UTC-day budget, token bucket; class `Limiter` |
| `FullHistory` | a reference limiter that never forgets a hit, and the refinement to it |
| `DripBucket`, `LimiterLaws` | the token bucket over whole runs; the limiter in seconds, days, hits and amounts |
| `FundProtocol`, `FaucetService` | Fund as a transition system of concurrent requests, and one request end to end; class `Faucet` |
| `GrantWindows`, `WindowExactness`, `LateRefund` | the window bound on kept grants: when it survives refunds, exactly, and a run that breaks it |
| `Coins` | coin strings, the budget kept in one, the budget the chain reports |
| `SessionManager`, `SessionRuns`, `SessionLaws` | class `Manager` over memory and disk; any interleaving of its locked sections; the same on the stored fields |
| `SessionScope`, `ScopeLaws`, `AllowPaths`, `GnokeyCommand` | the scope policy, and in plain terms; allow paths; the command that authorizes a session, read back as words and flags |
| `GasPrice` | the offered fee and the gas limit |
| `KeyDelete` | classes `Keystore` and `Chain`; sweep, then delete |
| `Untrusted` | the envelope neutralizer |
| `Instructions` | the budgeted profile listing |

Each state-changing method is proved equal to a function of the old state. The theorems are about
those functions, over every input and every run. The definitions themselves are pinned by laws that use
none of them: the limiter in whole seconds and single hits, sessions by their stored fields, coins
by their digits, texts by their words.

## Hypotheses

- The clock read under the limiter's lock does not go back. Instants are integers in nanoseconds.
- Grant, daily cap and drip rate are nonnegative, and the faucet's grant is the limiter's grant.
- Each allowed grant is refunded at most once, and only when its send was reported as not granted.
- A node that answers "refused" or "reverted" is truthful: the transfer did not land. This is the
  node's contract, not derived here; `Send` is wrong exactly when it fails (`NodeIsTruthful`).
- Float64 tokens are modelled as `real`; a Go zero time as `None`.
- Stored sessions are filed under their own session address.
- In the sweep results the two keys have different addresses, as freshly generated keys do.
- `KeyDelete` and the results on it are about one call with no other removal in between. The handler
  holds no lock there; `TargetStaysIff` and `CrossedSweepsStrand` say what another call can do.

## What the proofs found

- `Refund` drops the newest hit of a key, not the hit of the grant it refunds. The two are the
  same exactly when no kept grant to the key is later (`RefundDropsOwnHitIff`). What the window
  bound needs is less: the limiter still counts every kept grant after a refund exactly when no
  later kept grant to the key is inside the window (`RefundKeepsCountsIff`), and where the other
  controls leave room the bound holds in every continuation by requests exactly when it holds now
  and every kept grant is counted (`BoundAfterAnyRunIff`). A refund out of that order can let one
  address hold more than its maximum (`OutOfOrderRefundBreaksTheWindow`). The daily ledger, the
  bucket bound and the refinement to full history need no such condition.
- The comment on the session picker promises the no-session error only when nothing is usable.
  A pick that finds only usable sessions without allow paths, none matching, gives it too
  (`DocumentedNoActiveSessionIff`, `RunOnlySessionReadsAsNone`). The model follows the code.
- `Compute` is documented as guarding each multiply. The multiplies never overflow, but the sum in
  the ceiling can be one past the largest int64; the subtraction that follows undoes it, and the
  fee is exact (`CeilingSumCanOverflow`, `CeilingSumWrapsBack`).
- When an overflow fallback is taken the floor may undercut the chain's minimum, and raising the
  gas may lower the fee. The exact conditions are proved (`FeeMeetsChainMinimumIff`, `FeeMonotoneIff`)
  with a price for each (`FallbackCanUnderpay`, `MoreGasCanCostLess`).
- Ten times the fee may wrap int64 in the derived spend limit. Under the hard limits no session is
  let through by it. With bypass one is, exactly when the wrapped value still covers one fee
  (`DerivedDefaultAcceptedIff`); it pays the intended ten writes exactly when ten fees do not wrap
  (`DerivedDefaultPaysTenIff`), and at a fee of 2,200,000,000,000,000,000 it pays one
  (`WrappedDefaultPaysOneWrite`).
- The profile listing can leave out short profiles although the complete listing would have fit,
  because the notice it keeps room for is longer. That is the only way it is not the longest
  listing that fits (`ListingIsLongestIff`, `ShortProfilesAreLeftOut`).
- A chain error other than "unsupported" counts as "inactive", so startup deletes the session.
  The model follows the code (`StartupIsExact`).
- A sweep leaves the old address empty exactly when the fee charged is the fee reserved plus what
  arrived in between (`SweptKeyIsEmptyIff`); a cheaper price at broadcast strands the difference.
- Two calls that each sweep into the other's key, both past their checks before either removes,
  both succeed and strand what they moved (`CrossedSweepsStrand`). One after the other, the second
  is refused, its target being gone.

## Model

| member | source | states |
|---|---|---|
| `HitWindow.CountWithin` | faucet/limiter.go:287-298 | the loop counts the hits not before the cutoff |
| `HitWindow.CountFromIsCardinality` | faucet/limiter.go:287-298 | that count is the number of positions in the list that hold a fresh hit |
| `HitWindow.PruneInPlace` | faucet/limiter.go:300-311 | compaction inside the backing array leaves exactly the fresh hits, in order, in front, and nothing beyond them changed |
| `HitWindow.PrunedKeepsTheFreshHits` | faucet/limiter.go:300-311 | pruning keeps every fresh hit in its multiplicity and no stale one |
| `HitWindow.RemainsCountsAlike` | faucet/limiter.go:289-311 | a list pruned at an earlier instant answers every later count as the full list would |
| `HitWindow.RemainsAfterDropLast` | faucet/limiter.go:318-324 | dropping the last hit of a pruned list is dropping the last of the full one, even when pruning already took it |
| `RateLimiter.Limiter.constructor` | faucet/limiter.go:72-95 | zero windows get their defaults, the bucket starts full and unseeded, no hit is recorded |
| `RateLimiter.Limiter.Allow` | faucet/limiter.go:103-149 | the whole new state and the verdict: rollover and sweep first, then address, IP, daily cap and drip in that order |
| `RateLimiter.Limiter.Refund` | faucet/limiter.go:159-183 | the whole new state: both newest hits dropped, the day credited only on its own day, the bucket refilled, credited and capped |
| `RateLimiter.Limiter.Snapshot` | faucet/limiter.go:199-228 | the projected budget, with nothing modified |
| `RateLimiter.Limiter.RefillDrip` | faucet/limiter.go:245-259 | seeds on the first call, accrues by elapsed time, saturates at the burst |
| `RateLimiter.SweepStale` | faucet/limiter.go:263-278 | the map loop keeps exactly the keys with a fresh hit, pruned, in whatever order it visits them |
| `LimiterLaws.DefaultsAre` | faucet/limiter.go:72-95 | 24 hours for addresses, one hour for IPs, and no other default |
| `LimiterLaws.VerdictIs` | faucet/limiter.go:103-149 | each verdict exactly when: hits in the window counted one by one, days of 86,400 seconds, the cap, the tokens, in that order |
| `LimiterLaws.BudgetAfterAllow` | faucet/limiter.go:103-149 | what a call leaves of the day's count and of the bucket, for every verdict |
| `LimiterLaws.HitsAfterGrant` | faucet/limiter.go:144-145 | a grant counts once more for its address and its IP, behind hits that are all fresh, and for no other key |
| `LimiterLaws.AfterRefund` | faucet/limiter.go:159-183 | both lists one shorter at the end, the day credited on its own day, the bucket credited and capped |
| `LimiterLaws.SnapshotIs` | faucet/limiter.go:199-228 | what a snapshot shows, in seconds and amounts |
| `FullHistory.StepRefines` | faucet/limiter.go:103-183 | one call on the pruned lists and on the full history give the same answer and stay related |
| `FullHistory.ForgettingStaleHitsIsUnobservable` | faucet/limiter.go:112-146 | over every sequence of Allow and Refund, pruning, sweeping and shortening change no decision |
| `DripBucket.RefillComposes` | faucet/limiter.go:245-259 | saturating refill in two steps is refill in one |
| `DripBucket.OutflowPlusBucketBounded` | faucet/limiter.go:134-141 | over any run, net grants plus what the bucket holds at the end is at most what it held plus the rate times the time |
| `DripBucket.OutflowInAnyInterval` | faucet/limiter.go:134-182 | in any interval of any run from startup the net outflow is at most burst plus rate times length, and the tokens stay in [0, burst] |
| `LimiterLaws.OutflowInWholeUnits` | faucet/limiter.go:134-182 | the same in integers: calls answered "granted" less refunds, beyond one burst, come to at most the rate for every whole 1,000,000,000 nanoseconds |
| `LimiterLaws.BucketAfterSeconds` | faucet/limiter.go:245-259 | n whole seconds later a bucket shows min(burst, tokens + n * rate) |
| `LimiterLaws.UntouchedBucketIsFull` | faucet/limiter.go:72-95 | a new limiter holds a full burst and grants the first request whose grant the limits admit |
| `DripBucket.RefundedGrantIsInvisible` | faucet/limiter.go:151-183 | a grant refunded after any refusals, refills and rollovers leaves, at every later instant, the budget that would exist had it never happened |
| `DripBucket.SnapshotShowsWhatAllowTests` | faucet/limiter.go:195-228 | a snapshot shows exactly the day spend and tokens an Allow at that instant is tested against |
| `FundProtocol.DailyCapHolds` | faucet/faucet.go:143-154 | in every interleaving the counter is exact and within the cap, and for any UTC day all grants not given back, with them all that landed or may have, total at most the cap |
| `FundProtocol.RefundClampNeverFires` | faucet/limiter.go:165-170 | a refund in flight always finds its own charge on the counter, so the clamp at zero is never used |
| `GrantWindows.RefundDropsOwnHitIff` | faucet/limiter.go:163-164 | the hit dropped is the refunded grant's own exactly when no kept grant to the key is later |
| `GrantWindows.RefundKeepsCountsIff` | faucet/limiter.go:159-164 | a refund leaves the limiter counting every kept grant at every later cutoff exactly when no later kept grant to the key is inside the window |
| `GrantWindows.AtMostMaxGrantsInAnyWindow` | faucet/limiter.go:118-126 | when every refund to a key comes in that order, no closed interval of one window's length ever holds more kept grants than its maximum, across rollovers and sweeps, for addresses and IPs |
| `WindowExactness.BoundUnderAsksIff` | faucet/limiter.go:118-126 | where the other controls leave room, the bound holds now and after every run of requests exactly when it holds now and the limiter's list counts every kept grant |
| `WindowExactness.BoundAfterAnyRunIff` | faucet/limiter.go:118-164 | the same in the state after any run from startup, whatever the order of its refunds |
| `LateRefund.OutOfOrderRefundBreaksTheWindow` | faucet/limiter.go:151-164 | a legal run with one late refund that keeps three grants in a window of two |
| `FaucetService.Send` | faucet/dispense.go:75-117 | "not granted" for a transfer that landed exactly when the node's refusal was untrue, "unknown" exactly when the node never answered |
| `FaucetService.Faucet.Fund` | faucet/faucet.go:120-155 | each refusal exactly under its own condition and in order; the limiter is asked exactly when chain id, address and a checked balance pass; its new state in every case, with a refund only after a provable failure |
| `FaucetService.FundIsARunOfTheProtocol` | faucet/faucet.go:143-154 | one undisturbed request is a run of the protocol and, with a truthful node, a grant whose funds moved is never given back |
| `Coins.PrintedCoinReadsBackIff` | internal/session/scope.go:250-269 | parsing undoes printing exactly when the number fits int64 and the denomination does not start with a digit |
| `Coins.ParsesIff` | internal/session/scope.go:250-269 | which strings parse, to what, and which error the others get |
| `Coins.DecimalIsBaseTen` | internal/session/manager.go:321 | printing is base ten in the ten digits of ASCII |
| `Coins.ValueIsBaseTen` | internal/session/scope.go:250-269 | reading digits is base ten, with leading zeros or without |
| `Coins.SpentIff` | internal/session/manager.go:505-514 | a string reads as spent exactly when it is zeros and then a denomination |
| `Coins.SpendAfterIs` | internal/session/manager.go:313-321 | one fee off a budget for every int64: the difference, or zero where it is negative or wraps |
| `Coins.Debit` | internal/session/manager.go:313-321 | the new coin string after one fee, with int64 wrap-around and the clamp at zero |
| `Coins.BudgetAfterSettlements` | internal/session/manager.go:301-327 | after any run of fees the budget prints as max(0, start - total) in its denomination, and reads as spent exactly when the total has reached the start |
| `Coins.SpendRemaining` | internal/chain/real.go:755-769 | the loop lists the positive leftovers, or a zero of the first denomination |
| `Coins.LeftoverIs` | internal/chain/real.go:755-769 | over distinct denominations a coin is listed exactly when its use is below its limit, and coin plus use is the limit |
| `Coins.OneDenominationLeft` | internal/chain/real.go:755-769 | a limit of one denomination reports the limit less the use, or zero once it is used up |
| `Coins.ListedReadsBack` | internal/chain/real.go:755-769 | the reported string lists every coin left in order, each as its amount and denomination, between commas |
| `Coins.ReportedBudgetIsSpentIff` | internal/chain/real.go:755-769 | the reported string reads as spent exactly when a limit exists and every denomination of it is used up |
| `SessionManager.Manager.HydrateOne` | internal/session/manager.go:118-139 | what startup does with one stored session, for each of the chain's answers |
| `SessionManager.Manager.Hydrate` | internal/session/manager.go:108-142 | for every store and all answers, memory holds each stored session as its answer demands, or as before where an unlistable profile stopped the walk, and only sessions answered inactive lose their file |
| `SessionManager.StartupIsExact` | internal/session/chain_check.go:27-48 | from an empty memory: which sessions are loaded, with which scope, and that only an answered query deletes one |
| `SessionLaws.AnswerIs` | internal/session/chain_check.go:27-48 | each of the four answers exactly under its condition |
| `SessionLaws.ReportIsTaken` | internal/session/manager.go:31-38 | loaded, promoted or marked active, a session has the report's five fields and keeps address, master, key and creation time |
| `SessionLaws.NothingElseIsPromoted` | internal/session/manager.go:217-233 | without an active report, or for a session not pending, a promotion changes nothing |
| `SessionManager.Manager.AddPending` | internal/session/manager.go:146-172 | the record is made from key, scope, master and clock, persisted first, registered as pending only if that worked |
| `SessionLaws.NewSessionIs` | internal/session/manager.go:146-172 | a new session is pending with its whole limit unspent, created now and expiring when asked to, in whole seconds |
| `SessionManager.Manager.Promote` | internal/session/manager.go:228-243 | the re-check under the lock: only a still-pending session is promoted, with the answered scope |
| `SessionManager.Manager.PromotePending` | internal/session/manager.go:208-244 | all pending sessions the chain answers active for are promoted and written back, no other session changes |
| `SessionManager.Manager.Select` | internal/session/manager.go:246-293 | the right answer for the sessions as they are, and only due sessions become expired |
| `SessionManager.Manager.PickSession` | internal/session/manager.go:207-294 | a picked session is active, unexpired, not spent out, matching and most recent, with its own key and master; each error under its exact condition |
| `SessionLaws.PickIs` | internal/session/manager.go:246-293 | on stored fields: the picked session is active, not past its expiry, with budget left, allowed and most recent; one that could sign is never answered with an error; the paths offered |
| `SessionLaws.ExpiresExactlyPast` | internal/session/manager.go:263-266 | an active session becomes expired exactly when 0 < expiresAt < now, and nothing else of it changes |
| `SessionManager.PickKindIsExact` | internal/session/manager.go:277-288 | which of the three answers is given is decided by the sessions alone, each if and only if its condition holds |
| `SessionManager.DocumentedNoActiveSessionIff` | internal/session/manager.go:176-185 | exactly when the code's no-session error agrees with its documentation |
| `SessionManager.RunOnlySessionReadsAsNone` | internal/session/manager.go:277-282 | the disagreement happens: one usable run-only session, asked for a realm |
| `SessionManager.Dedup` | internal/session/manager.go:490-502 | the same set of strings, each once |
| `SessionManager.Manager.UpdateSpend` | internal/session/manager.go:301-327 | memory, disk and error in every case; memory keeps the new budget when the write fails |
| `SessionManager.Manager.SetSpendRemaining` | internal/session/manager.go:349-363 | memory, disk and error in every case |
| `SessionManager.Manager.SettleSpend` | internal/session/manager.go:333-347 | the chain's figure where it reports an active session with one, else the local subtraction |
| `SessionLaws.SettledIs` | internal/session/manager.go:333-347 | the chain's figure is taken exactly when it reports the known session active with one, under a known master |
| `SessionLaws.ChargeIs` | internal/session/manager.go:301-327 | which error a local settlement gives and when; else only the budget changes |
| `SessionManager.Manager.MarkActive` | internal/session/manager.go:407-422 | the reported scope and the active state in memory, then on disk |
| `SessionManager.Manager.MarkInactive` | internal/session/manager.go:430-445 | the terminal state in memory and meta, then on disk |
| `SessionRuns.Perform` | internal/session/manager.go:151-445 | every action of a run is what the manager's own method does to its memory |
| `SessionRuns.PickerOnlyPromotesOrExpires` | internal/session/manager.go:228-266 | the picker changes a session only from pending to active with the answered scope, or from active to expired past its expiry |
| `SessionRuns.PickersNeverRevive` | internal/session/manager.go:228-233 | in any interleaving a session that is over stays over until it is added, loaded or activated anew |
| `SessionLaws.OnlyTheseRevive` | internal/session/manager.go:151-445 | which single actions make an ended session usable again |
| `SessionLaws.OnlyTheseActivate` | internal/session/manager.go:108-445 | which single actions make a session active |
| `SessionRuns.ActiveMeansVouchedFor` | internal/session/manager.go:27-38 | in every run from startup an active session's scope was reported by the chain, or stored as active, and not overturned since |
| `SessionRuns.BudgetFollowsFees` | internal/session/manager.go:301-327 | amid any other actions, an active session's budget is its settled fees taken off one after another |
| `SessionRuns.NeverPickedOnceSpent` | internal/session/manager.go:267-269 | a session is picked only while the fees it settled fall short of the budget it started with |
| `SessionRuns.ReportedSpentIsNotPicked` | internal/session/manager.go:267-269 | once a zero budget is on record for a session, by report or settlement, no picker returns it until it is added, loaded, marked active or repriced anew |
| `SessionRuns.PickedIsUsableAndVouchedFor` | internal/session/manager.go:207-294 | after any interleaving from startup a picked session is usable, matching and most recent, and its scope was vouched for and not overturned since |
| `SessionScope.ResolveScope` | internal/session/scope.go:49-145 | layer by layer the loop-and-rewrite code computes the policy, with its errors in order |
| `ScopeLaws.ErrorsAre` | internal/session/scope.go:49-145 | every error exactly under its condition, earlier checks first |
| `ScopeLaws.SpendLimitWins` | internal/session/scope.go:69-76 | the agent's limit, else the profile's, else ten fees at a known price, else the built-in one |
| `ScopeLaws.TenFeesAre` | internal/session/scope.go:166-176 | the derived limit is ten fees, capped at 100,000,000 without bypass, wherever they fit int64 |
| `ScopeLaws.ResolvedIs` | internal/session/scope.go:84-138 | time and paths let through: as wanted, or at the ceiling where above it |
| `ScopeLaws.ResolvedSpendLimitIs` | internal/session/scope.go:106-119 | the limit let through: as wanted, or the cap where above it |
| `ScopeLaws.ClampCoinIs` | internal/session/scope.go:230-248 | amounts compare in one denomination only, and the smaller is the outcome |
| `ScopeLaws.WarningsAre` | internal/session/scope.go:109-138 | one warning for each ceiling met, with what was asked and what was given |
| `ScopeLaws.LimitsAre` | internal/profiles/limits.go:49-65 | the ceilings of local, other and bypassing profiles, in ugnot, nanoseconds and paths |
| `ScopeLaws.SpendLimitValidIff` | internal/session/scope.go:77-82 | a limit is valid exactly when it is digits and then lowercase letters, at least one of each |
| `ScopeLaws.ValidAllowPathIff` | internal/session/scope.go:211-228 | a path is accepted exactly when it is a realm path in the characters the shell leaves alone |
| `ScopeLaws.GateIs` | internal/session/scope.go:151-205 | the gate and the number of writes, on the amount itself |
| `SessionScope.HardLimitsClamp` | internal/profiles/limits.go:49-65 | without bypass the limits in force are real clamps |
| `SessionScope.CoversFeeMeansOneWrite` | internal/session/scope.go:184-205 | the gate passes a limit exactly when it pays for at least one write |
| `SessionScope.ResolvedScopePaysForAWrite` | internal/session/scope.go:140-160 | every resolved scope affords at least one write at a known fee, with or without bypass |
| `SessionScope.ResolvedScopeWithinLimits` | internal/session/scope.go:106-138 | without bypass: within all three limits, and the paths a prefix of those requested |
| `SessionScope.ClampingIsNeverSilent` | internal/session/scope.go:109-138 | the scope differs from the request exactly when there is a warning |
| `SessionScope.ResolveIsIdempotent` | internal/session/scope.go:49-145 | resolving a resolved scope returns it unchanged with no warning |
| `SessionScope.DerivedDefaultAcceptedIff` | internal/session/scope.go:166-176 | the fee-derived default is accepted exactly when, clamped, one write costs at most the cap, and with bypass the wrapped value covers one |
| `SessionScope.DerivedDefaultPaysTenIff` | internal/session/scope.go:40-42 | an accepted default pays its ten writes exactly when ten fees fit the cap, or int64 with bypass; else at least one |
| `SessionScope.WrappedDefaultPaysOneWrite` | internal/session/scope.go:166-176 | a fee at which the wrapped default is let through and pays one |
| `AllowPaths.CheckCoversRealm` | internal/session/manager.go:481-488 | the loop decides whether some path equals the realm or is followed by a slash in it |
| `AllowPaths.CoversIff` | internal/session/manager.go:478-488 | a path covers itself and its text followed by a slash, and nothing else |
| `AllowPaths.CoversRealmIffSegmentPrefix` | internal/session/manager.go:478-488 | coverage is exactly: some path's segment list is a prefix of the realm's |
| `AllowPaths.SplitAllowPaths` | internal/chain/real.go:360-372 | the loop collects the realm paths in order and whether running is allowed |
| `AllowPaths.SplitUndoesTokens` | internal/session/gnokey.go:26-31 | splitting undoes the tokens, for every list of paths and either flag |
| `AllowPaths.RealmPathsAre` | internal/chain/real.go:356-372 | of any tokens the paths split off are exactly those a "vm/exec:" token names |
| `AllowPaths.TokensAre` | internal/session/gnokey.go:26-31 | "vm/exec:" before each path in order, and "vm/run" last where runs are allowed |
| `GnokeyCommand.FormatCreateCommand` | internal/session/gnokey.go:22-46 | the builder's text, piece by piece, is the text of its settings |
| `GnokeyCommand.SettingsReadBack` | internal/session/gnokey.go:22-46 | read as shell words, every flag has exactly the values the settings give it |
| `GnokeyCommand.EachFlagCarriesItsValue` | internal/session/gnokey.go:22-46 | by name, each of the eight flags reads back as the request's own value; the gas fee is the floor where none is known |
| `GnokeyCommand.CommandIsACreate` | internal/session/gnokey.go:22-46 | the first words are the create command and the last the broadcast flag and the key's place |
| `GnokeyCommand.LayoutIs` | internal/session/gnokey.go:22-46 | one setting to an indented line, joined to the next by a backslash and a newline |
| `GnokeyCommand.ScopeReadsBack` | internal/session/gnokey.go:24-32 | read back and split, the command asks for exactly the paths, run permission and spend limit of the scope |
| `GasPrice.GuardIsExact` | gasprice/gasprice.go:79-81 | the first guard fires exactly when the ceiling sum, less one, leaves int64 |
| `GasPrice.CeilingSumWrapsBack` | gasprice/gasprice.go:82 | the one step that can wrap is undone by the next, and when it wraps |
| `GasPrice.CeilingSumCanOverflow` | gasprice/gasprice.go:77-82 | a price at which that step does leave int64, with an exact fee |
| `GasPrice.Compute` | gasprice/gasprice.go:64-91 | every error condition, never below the floor, the floor in both fallbacks, else the margined ceiling, with no other step leaving int64 |
| `GasPrice.OfferIs` | gasprice/gasprice.go:64-91 | with m the least fee at the price: m with its margin, no less than the floor, exactly where every step fits int64, else the floor; no price is a nonpositive gas or amount |
| `GasPrice.ComputeErrorsAre` | gasprice/gasprice.go:64-76 | which error, exactly when |
| `GasPrice.MinFeeIsLeast` | gasprice/gasprice.go:51-55 | the unmargined fee is the least integer the chain's check accepts |
| `GasPrice.FeeMeetsChainMinimumIff` | gasprice/gasprice.go:51-62 | the offered fee passes the chain's check exactly when no fallback was taken or the floor covers it |
| `GasPrice.FallbackCanUnderpay` | gasprice/gasprice.go:57-60 | a price at which the fallback floor is below the chain's minimum |
| `GasPrice.FeeMonotoneIff` | gasprice/gasprice.go:64-91 | more gas costs no less, except exactly where the larger limit alone falls back to a floor below the smaller one's fee |
| `GasPrice.MoreGasCanCostLess` | gasprice/gasprice.go:83-85 | a price at which one more unit of gas does that |
| `GasPrice.GasWantedFor` | internal/chain/gasfee.go:43-55 | within [default, ceiling] for every int64, and at least the measurement for every real one |
| `GasPrice.GasWantedIs` | internal/chain/gasfee.go:46-55 | half as much again as was measured, between ten million and a billion |
| `GasPrice.CurrentGasFeeIs` | internal/chain/gasfee.go:63-69 | a doubled margin and a floor of 10,000 ugnot |
| `GasPrice.FeeForMeasuredGas` | internal/chain/gasfee.go:57-69 | outside the fallbacks the fee for a measured transaction passes the chain's check and never falls as the measurement grows |
| `KeyDelete.Keystore.Generate` | internal/keystore/keystore.go:241-296 | additive: no name overwritten, the cap never exceeded |
| `KeyDelete.Keystore.CountKeys` | internal/keystore/keystore.go:382-398 | the counting loop gives the number of keys |
| `KeyDelete.Keystore.Delete` | internal/keystore/keystore.go:302-336 | the key goes exactly on success; a missing or unreadable key is refused |
| `KeyDelete.AddressIs` | internal/keystore/keystore.go:302-336 | a missing key, an unreadable one, or its address, each exactly when |
| `KeyDelete.SweepTarget` | internal/tools/write/keydelete.go:231-248 | the default key if it is another, else the first other, nothing exactly when there is none |
| `KeyDelete.SweepBeforeDelete` | internal/tools/write/keydelete.go:137-176 | the amount or the error, and the ledger afterwards, for every answer |
| `KeyDelete.KeyDelete` | internal/tools/write/keydelete.go:43-130 | report, keys and ledger afterwards, with the refusals in order |
| `KeyDelete.RefusalsAre` | internal/tools/write/keydelete.go:50-152 | ten refusals, each exactly under its condition, in the order of the checks |
| `KeyDelete.WithoutSweepIs` | internal/tools/write/keydelete.go:112-129 | without a target the key goes exactly when it holds nothing or force is given, and what is abandoned is reported |
| `KeyDelete.SweepOutcomesAre` | internal/tools/write/keydelete.go:153-176 | how a sweep ends: no fee, nothing to move, no signer, failed, or moved, each exactly when |
| `KeyDelete.FeeAtIs` | internal/chain/gasfee.go:71-77 | the fee reserved is the offer for ten million gas |
| `KeyDelete.TransferConserves` | internal/chain/real.go:670-699 | a transfer that succeeds, fails after the fee or before it creates and destroys nothing |
| `KeyDelete.KeyGoesOnlyWithConsent` | internal/tools/write/keydelete.go:98-129 | in an undisturbed call a failure leaves every key; a key with a balance goes only with a target or force, and the target stays |
| `KeyDelete.TargetStaysIff` | internal/tools/write/keydelete.go:104-123 | with other removals in between, the target's key stays exactly when none of them is its own and succeeds |
| `KeyDelete.CrossedSweepsStrand` | internal/tools/write/keydelete.go:104-123 | two calls crossing so leave no key, and the swept balance at an address no key holds |
| `KeyDelete.SweptOrDust` | internal/tools/write/keydelete.go:160-175 | a key deleted with sweep_to moved exactly balance minus fee to the target or held at most the fee; what stays behind; no other account changes |
| `KeyDelete.SweptKeyIsEmptyIff` | internal/chain/gasfee.go:71-77 | nothing stays behind exactly when the fee charged is the fee reserved plus arrivals, so at an unchanged price with no arrivals |
| `KeyDelete.PriceRiseKeepsTheKey` | internal/tools/write/keydelete.go:155-159 | a price risen past the reserve fails the sweep and keeps the key; at most the fee is lost |
| `KeyDelete.FundsAreConserved` | internal/tools/write/keydelete.go:43-176 | over every answer of the chain a call creates and destroys no funds; arrivals are added exactly when the balance was read |
| `Untrusted.GreedyFindsTheMatch` | internal/untrusted/untrusted.go:19 | the greedy match is the only match the pattern has |
| `Untrusted.TagIs` | internal/untrusted/untrusted.go:19 | a tag is the name in any letter case, after an optional slash, with any of five space characters around it |
| `Untrusted.ReplacedIsEscaped` | internal/untrusted/untrusted.go:25-27 | leftmost non-overlapping replacement escapes exactly every '<' that starts a tag |
| `Untrusted.NeutralizeLeavesNoTag` | internal/untrusted/untrusted.go:21-27 | no position of the output starts a tag; text without a tag, and only such text, is unchanged; twice is once |
| `Untrusted.NeutralizeStep` | internal/untrusted/untrusted.go:25-27 | a tag's first character becomes "&lt;", any other stays, and the rest is treated as if it stood alone |
| `Untrusted.EnvelopeHoldsExactlyItsTagsIff` | internal/untrusted/untrusted.go:29-34 | for every body the envelope holds exactly its own opening and closing tag, exactly when the quoted kind and source hold none |
| `Untrusted.EnvelopeCannotBeForged` | internal/untrusted/untrusted.go:29-34 | in particular when kind and source contain no '<' |
| `Untrusted.WrapIs` | internal/untrusted/untrusted.go:32-34 | the envelope's text around the neutralized body |
| `Untrusted.QuotedReadsBack` | internal/untrusted/untrusted.go:33 | no printable kind or source ends its quotes early, and it reads back as itself |
| `Instructions.SortedKeysAreUnique` | cmd/gnomcp/main.go:69-77 | one profile set has one order, so the text is the same at every start |
| `Instructions.BeforeMeans` | cmd/gnomcp/main.go:77 | the order is that of the first difference, a text before its continuations |
| `Instructions.PlainLineIs` | cmd/gnomcp/main.go:93-108 | name, chain id, URL and kind, each where it belongs: local, read-only or testnet |
| `Instructions.StatusIs` | cmd/gnomcp/main.go:93-100 | what a line says of writing, by case |
| `Instructions.ExtrasAre` | cmd/gnomcp/main.go:101-106 | what a master address and a gnoweb URL add |
| `Instructions.NoticeIs` | cmd/gnomcp/main.go:110-112 | the notice's words |
| `Instructions.ListLines` | cmd/gnomcp/main.go:77-90 | the loop lists lines up to the first that does not fit with its notice, then says how many are left |
| `Instructions.LineFitsIff` | cmd/gnomcp/main.go:79-85 | a line fits exactly when the listing that ends after it, with its notice, is within the limit |
| `Instructions.BuildServerInstructions` | cmd/gnomcp/main.go:72-91 | that listing, its one determined number of lines, for the sorted profiles within 2048 characters |
| `Instructions.TextFitsIff` | cmd/gnomcp/main.go:80-86 | the text is within the limit exactly when the static text fits with the notice for all, or with the first line and its notice |
| `Instructions.ListingIsLongestIff` | cmd/gnomcp/main.go:80-88 | the listing is the longest that fits exactly when every line fits with its notice or the complete listing does not fit |
| `Instructions.MoreGrowsSlowly` | cmd/gnomcp/main.go:110-112 | the notice for more profiles is longer by at most one character each, which is what the previous row needs of it |
| `Instructions.ShortProfilesAreLeftOut` | cmd/gnomcp/main.go:80-88 | fourteen local profiles with the fixed text: all would fit, the last two are left out |

## Left out

- RateLimiter.Limiter.Allow: the class keeps hit lists as values and prunes them by a function; that compaction inside a shared backing array computes that function is proved on an array of its own.
- RateLimiter.Limiter.Allow: saturation of Go durations and int64 overflow of day sums far outside any configured cap.
- SessionRuns.Perform: the write after a promotion happens outside the lock; runs follow memory only, and nothing is claimed of disk against memory in an interleaving.
- SessionManager.Manager: entries are values, so two callers holding one meta is not captured; public key, version and at-rest encryption are not in the meta.
- SessionManager.Manager.Hydrate: a session file that cannot be read makes its profile unlistable; how files are decoded is not modelled.
- SessionScope.ResolveScope: duration parsing and the chain's realm-path predicate are inputs.
- GnokeyCommand.ScopeReadsBack: shell quoting and expansion are not modelled; public key, remote and chain id must be plain words. The revoke command is not modelled: it carries no scope that could get lost.
- GnokeyCommand.EachFlagCarriesItsValue: likewise for plain words only, and an expiry that is not negative.
- Untrusted.QuotedReadsBack: characters that are not printable are spelled in hex, which this reading does not undo.
- Untrusted.Neutralize: the regular-expression engine, and bytes that are not valid UTF-8.
- Untrusted.Wrap: which characters are printable, and how others are spelled in hex, are parameters.
- KeyDelete.Chain.Send: the chain charges the fee before it runs a transfer; gas refunds and other denominations are not modelled.
- Coins.SpendRemaining: subtraction is per denomination of the limit; a denomination used without a limit is dropped, as the positive filter drops it.
- The wording of warnings, errors and results, argument extraction, tool registration and schemas.
- RPC, HTTP, amino and JSON decoding, TOML loading: their answers are parameters.
- Keys, signatures, bech32 and encryption: addresses and keys are opaque values.
- The time-to-live cache in front of the funding balance (faucet/dispense.go:125-146): Fund only compares the figure with a floor, so a stale one is another value of the balance parameter.
- The faucet's HTTP server, logging and metrics: they call Fund and Snapshot and change no state modelled here.
- Polling loops (waiting for a package to go live, for funds to arrive), the output budget and the tool registry: they read the chain or shape text, and no permission or balance depends on them.
- Package-source analysis in internal/gnosrc: it depends on Go's parser and printer.
- The order in which two operations wait for a lock, and file-system atomicity.
