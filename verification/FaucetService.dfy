/**
 One Fund request end to end (faucet/faucet.go:120-155) and the dispenser it drives
 (faucet/dispense.go:75-117). Address parsing, the balance query and the chain are
 inputs: what they answer is a parameter of the request.
 */
module FaucetService {
  import opened Prelude
  import opened HitWindow
  import opened RateLimiter
  import opened DripBucket
  import opened FundProtocol

  /** What the node answered to a signed transfer, and whether the transfer took effect. */
  datatype NodeAnswer = Committed(hash: string) | RefusedOrReverted(landed: bool) | Silence(landed: bool)

  /** How far a send got. */
  datatype Attempt =
    | BadRecipient | PriceQueryFailed | PriceRejected | BuildFailed | SignFailed
    | Broadcast(answer: NodeAnswer)

  datatype SendResult = Sent(hash: string) | NotGrantedError | OutcomeUnknownError

  predicate FundsMoved(a: Attempt) {
    a.Broadcast? && (a.answer.Committed? || a.answer.landed)
  }

  /** The node's own contract, which the code trusts: a transfer it answers as refused or reverted did not land. */
  predicate NodeIsTruthful(a: Attempt) { a.Broadcast? && a.answer.RefusedOrReverted? ==> !a.answer.landed }

  /** The dispenser's contract: "not granted" is wrong exactly when the node was. */
  function Send(a: Attempt): (r: SendResult)
    ensures r.NotGrantedError? && FundsMoved(a) <==> !NodeIsTruthful(a)
    ensures r.Sent? <==> a.Broadcast? && a.answer.Committed?
    ensures r.Sent? ==> r.hash == a.answer.hash && FundsMoved(a)
    ensures r.OutcomeUnknownError? <==> a.Broadcast? && a.answer.Silence?
  {
    match a
    case Broadcast(Committed(hash)) => Sent(hash)
    case Broadcast(Silence(_)) => OutcomeUnknownError
    case _ => NotGrantedError
  }

  datatype FundError =
    | ChainMismatch | BadAddress | BalanceUnavailable | FundingLow
    | Blocked(verdict: Verdict) | DispenseFailed(mayHaveLanded: bool)

  /** The limiter after a request that passed the checks in front of it. */
  function LimiterAfter(cfg: Config, s: State, addr: string, ip: string, now: Time, a: Attempt, later: Time): State {
    var (s1, verdict) := AllowStep(cfg, s, addr, ip, now);
    if verdict.Granted? && Send(a).NotGrantedError? then RefundStep(cfg, s1, addr, ip, now, later) else s1
  }

  class Faucet {
    const chainId: string
    const limiter: Limiter
    const minFunding: int
    const checksBalance: bool

    constructor (chainId: string, limiter: Limiter, minFunding: int, checksBalance: bool)
      ensures this.chainId == chainId && this.limiter == limiter
      ensures this.minFunding == minFunding && this.checksBalance == checksBalance
    {
      this.chainId, this.limiter := chainId, limiter;
      this.minFunding, this.checksBalance := minFunding, checksBalance;
    }

    /**
     canonical is the parsed recipient, balance the funding wallet's answer; now and
     later are the clock readings of Allow and of a possible Refund. The limiter is asked
     exactly when the chain id is this faucet's, the address parsed, and the balance, where
     it is checked, was answered and is no less than the floor.
     */
    method Fund(canonical: Option<string>, ip: string, reqChainId: string, balance: Option<int>,
                now: Time, attempt: Attempt, later: Time)
      returns (r: Result<string, FundError>)
      modifies limiter
      ensures r == Err(ChainMismatch) <==> reqChainId != chainId
      ensures r == Err(BadAddress) <==> reqChainId == chainId && canonical.None?
      ensures r == Err(BalanceUnavailable) <==>
              reqChainId == chainId && canonical.Some? && checksBalance && minFunding > 0 && balance.None?
      ensures r == Err(FundingLow) <==>
              reqChainId == chainId && canonical.Some? && checksBalance && minFunding > 0 && balance.Some? && balance.value < minFunding
      ensures if reqChainId == chainId && canonical.Some? && (checksBalance && minFunding > 0 ==> balance.Some? && balance.value >= minFunding)
              then
                var verdict := AllowStep(limiter.cfg, old(limiter.View()), canonical.value, ip, now).1;
                var allowed := AllowStep(limiter.cfg, old(limiter.View()), canonical.value, ip, now).0;
                && limiter.View() == (if verdict.Granted? && (!attempt.Broadcast? || attempt.answer.RefusedOrReverted?)
                                      then RefundStep(limiter.cfg, allowed, canonical.value, ip, now, later) else allowed)
                && (r.Ok? <==> verdict.Granted? && attempt.Broadcast? && attempt.answer.Committed?)
                && (r.Ok? ==> attempt.answer.hash == r.value)
                && (!verdict.Granted? ==> r == Err(Blocked(verdict)))
                && (verdict.Granted? && r.Err? ==>
                      r.error.DispenseFailed? && (NodeIsTruthful(attempt) && FundsMoved(attempt) ==> r.error.mayHaveLanded))
                && (verdict.Granted? && r.Err? ==> (r.error.mayHaveLanded <==> attempt.Broadcast? && attempt.answer.Silence?))
              else limiter.View() == old(limiter.View())
    {
      if reqChainId != chainId {
        return Err(ChainMismatch);
      }
      if canonical.None? {
        return Err(BadAddress);
      }
      var addr := canonical.value;
      if checksBalance && minFunding > 0 {
        if balance.None? {
          return Err(BalanceUnavailable);
        }
        if balance.value < minFunding {
          return Err(FundingLow);
        }
      }
      var verdict := limiter.Allow(addr, ip, now);
      if !verdict.Granted? {
        return Err(Blocked(verdict));
      }
      var sent := Send(attempt);
      if !sent.Sent? {
        if sent.NotGrantedError? {
          limiter.Refund(addr, ip, now, later);
        }
        return Err(DispenseFailed(sent.OutcomeUnknownError?));
      }
      return Ok(sent.hash);
    }
  }

  function OutcomeOf(a: Attempt): Outcome {
    match Send(a)
    case Sent(_) => DidLand
    case NotGrantedError => DidNotLand
    case OutcomeUnknownError => MayHaveLanded
  }

  /** The protocol steps one request takes when nothing comes in between. */
  function FundSteps(cfg: Config, w: World, addr: string, ip: string, now: Time, a: Attempt, later: Time): seq<Step> {
    var n := |w.grants|;
    if !AllowStep(cfg, w.lim, addr, ip, now).1.Granted? then [Ask(addr, ip, now)]
    else if Send(a).NotGrantedError? then [Ask(addr, ip, now), SendReturns(n, OutcomeOf(a)), GiveBack(n, later)]
    else [Ask(addr, ip, now), SendReturns(n, OutcomeOf(a))]
  }

  lemma SendSteps(cfg: Config, w: World, n: nat, a: Attempt, later: Time, steps: seq<Step>)
    requires n < |w.grants| && w.grants[n].phase.Sending? && w.clock <= later
    requires steps == [SendReturns(n, OutcomeOf(a))] + if Send(a).NotGrantedError? then [GiveBack(n, later)] else []
    ensures Legal(cfg, w, steps)
    ensures var (w', g) := (After(cfg, w, steps), w.grants[n]);
            && w'.lim == (if Send(a).NotGrantedError? then RefundStep(cfg, w.lim, g.addr, g.ip, g.at, later) else w.lim)
            && |w'.grants| == |w.grants| && w'.grants[..n] == w.grants[..n]
            && (NodeIsTruthful(a) && FundsMoved(a) ==> !w'.grants[n].phase.Refunded?)
  {
    var w1 := Next(cfg, w, SendReturns(n, OutcomeOf(a)));
    assert Legal(cfg, w1, []);
    if Send(a).NotGrantedError? {
      var w2 := Next(cfg, w1, GiveBack(n, later));
      assert Legal(cfg, w2, []);
      StepThenRun(cfg, w1, GiveBack(n, later), [], w2, [GiveBack(n, later)]);
      StepThenRun(cfg, w, SendReturns(n, OutcomeOf(a)), [GiveBack(n, later)], w1, steps);
    } else {
      StepThenRun(cfg, w, SendReturns(n, OutcomeOf(a)), [], w1, steps);
    }
  }

  /**
   A request that runs undisturbed is one run of the protocol: it ends in the limiter
   state Fund leaves, and with a truthful node a grant whose funds moved is never given back.
   */
  lemma FundIsARunOfTheProtocol(cfg: Config, w: World, addr: string, ip: string, now: Time, a: Attempt, later: Time)
    requires w.clock <= now <= later
    ensures var steps := FundSteps(cfg, w, addr, ip, now, a, later);
            && Legal(cfg, w, steps)
            && (var w' := After(cfg, w, steps);
                && w'.lim == LimiterAfter(cfg, w.lim, addr, ip, now, a, later)
                && w.grants <= w'.grants && |w'.grants| <= |w.grants| + 1
                && (|w'.grants| > |w.grants| && NodeIsTruthful(a) && FundsMoved(a) ==> !w'.grants[|w.grants|].phase.Refunded?))
  {
    var (steps, ask) := (FundSteps(cfg, w, addr, ip, now, a, later), Ask(addr, ip, now));
    var (w1, rest) := (Next(cfg, w, ask), steps[1..]);
    if AllowStep(cfg, w.lim, addr, ip, now).1.Granted? {
      SendSteps(cfg, w1, |w.grants|, a, later, rest);
    } else {
      assert Legal(cfg, w1, rest);
    }
    StepThenRun(cfg, w, ask, rest, w1, steps);
  }
}
