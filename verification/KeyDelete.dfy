/**
 Deleting an agent key, with its balance swept first (internal/tools/write/keydelete.go,
 internal/keystore/keystore.go:241-336, internal/chain/real.go:669-699). The keystore is
 one profile's key files; the chain is a ledger of ugnot and whatever it answers.
 */
module KeyDelete {
  import opened Prelude
  import opened GasPrice

  const DEFAULT_KEY_NAME := "default"

  // ---- The ledger

  /** Balances, and the fees the chain has collected. */
  datatype Ledger = Ledger(balances: map<string, nat>, collected: nat)

  function Balance(l: Ledger, addr: string): nat { if addr in l.balances then l.balances[addr] else 0 }

  function WithBalance(l: Ledger, addr: string, amount: nat): Ledger { l.(balances := l.balances[addr := amount]) }

  /** A transfer as the chain executes it: the fee is taken even when the transfer then fails. */
  function Transfer(l: Ledger, from: string, to: string, amount: nat, fee: nat): (Ledger, bool) {
    if Balance(l, from) < fee then (l, false)
    else
      var paid := WithBalance(l, from, Balance(l, from) - fee).(collected := l.collected + fee);
      if Balance(paid, from) < amount then (paid, false)
      else
        var debited := WithBalance(paid, from, Balance(paid, from) - amount);
        (WithBalance(debited, to, Balance(debited, to) + amount), true)
  }

  function Deposited(l: Ledger, addr: string, amount: nat): Ledger { WithBalance(l, addr, Balance(l, addr) + amount) }

  ghost function Sum(m: map<string, nat>): nat
    decreases |m|
  {
    if m == map[] then 0
    else
      var a :| a in m;
      m[a] + Sum(m - {a})
  }

  lemma {:induction false} SumTakesAny(m: map<string, nat>, a: string)
    requires a in m
    ensures Sum(m) == m[a] + Sum(m - {a})
    decreases |m|
  {
    var b :| b in m && Sum(m) == m[b] + Sum(m - {b});
    if a != b {
      SumTakesAny(m - {b}, a);
      SumTakesAny(m - {a}, b);
      assert m - {b} - {a} == m - {a} - {b};
    }
  }

  /** All the ugnot there is. */
  ghost function Supply(l: Ledger): nat { Sum(l.balances) + l.collected }

  lemma SupplyWithBalance(l: Ledger, addr: string, amount: nat)
    ensures Supply(WithBalance(l, addr, amount)) == Supply(l) - Balance(l, addr) + amount
  {
    var m := l.balances[addr := amount];
    SumTakesAny(m, addr);
    assert m - {addr} == l.balances - {addr};
    if addr in l.balances {
      SumTakesAny(l.balances, addr);
    } else {
      assert l.balances - {addr} == l.balances;
    }
  }

  /** Whether it succeeds, fails after the fee or before it, a transfer creates and destroys nothing. */
  lemma TransferConserves(l: Ledger, from: string, to: string, amount: nat, fee: nat)
    ensures Supply(Transfer(l, from, to, amount, fee).0) == Supply(l)
  {
    if Balance(l, from) >= fee {
      SupplyWithBalance(l, from, Balance(l, from) - fee);
      var paid := WithBalance(l, from, Balance(l, from) - fee).(collected := l.collected + fee);
      if Balance(paid, from) >= amount {
        SupplyWithBalance(paid, from, Balance(paid, from) - amount);
        var debited := WithBalance(paid, from, Balance(paid, from) - amount);
        SupplyWithBalance(debited, to, Balance(debited, to) + amount);
      }
    }
  }

  // ---- The keystore

  /** A key file's address, or None when it cannot be read or decrypted. */
  type Keys = map<string, Option<string>>

  datatype Error =
    | KeyRequired | NotTestnet | NoSuchKey | Unreadable | NoClient | BalanceUnknown | KeyHasFunds
    | SweepToSelf | NoSuchTarget | UnreadableTarget | FeeUnknown | CannotSign | SendFailed | RemoveFailed
    | KeyExists | CapReached

  function AddressOf(keys: Keys, name: string): Result<string, Error> {
    if name !in keys then Err(NoSuchKey) else if keys[name].None? then Err(Unreadable) else Ok(keys[name].value)
  }

  class Keystore {
    const maxKeys: int
    var keys: Keys

    constructor (cap: int)
      ensures maxKeys == cap && keys == map[]
    {
      maxKeys, keys := cap, map[];
    }

    ghost predicate WithinCap()
      reads this
    {
      maxKeys > 0 ==> |keys| <= maxKeys
    }

    /** Additive: never overwrites a name, never exceeds the cap. addr is the fresh key's address. */
    method Generate(name: string, addr: string, writes: bool) returns (r: Result<string, Error>)
      requires WithinCap()
      modifies this
      ensures WithinCap()
      ensures r == (if name in old(keys) then Err(KeyExists) else if 0 < maxKeys <= |old(keys)| then Err(CapReached)
                    else if !writes then Err(Unreadable) else Ok(addr))
      ensures keys == if r.Ok? then old(keys)[name := Some(addr)] else old(keys)
    {
      if name in keys {
        return Err(KeyExists);
      }
      var count := CountKeys();
      if maxKeys > 0 && count >= maxKeys {
        return Err(CapReached);
      }
      if !writes {
        return Err(Unreadable);
      }
      keys := keys[name := Some(addr)];
      return Ok(addr);
    }

    method CountKeys() returns (n: nat)
      ensures n == |keys|
    {
      var left := keys.Keys;
      n := 0;
      while left != {}
        invariant n + |left| == |keys.Keys|
        decreases |left|
      {
        var name :| name in left;
        left := left - {name};
        n := n + 1;
      }
    }

    method Delete(name: string, removes: bool) returns (r: Result<string, Error>)
      modifies this
      ensures r == (if AddressOf(old(keys), name).Err? then AddressOf(old(keys), name)
                    else if !removes then Err(RemoveFailed) else AddressOf(old(keys), name))
      ensures keys == if r.Ok? then old(keys) - {name} else old(keys)
    {
      r := AddressOf(keys, name);
      if r.Err? {
        return;
      }
      if !removes {
        return Err(RemoveFailed);
      }
      keys := keys - {name};
    }
  }

  /** The key to suggest: the default one if it is another, else the first other, "" if there is none. */
  method SweepTarget(names: seq<string>, keyName: string) returns (target: string)
    requires forall i | 0 <= i < |names| :: names[i] != ""
    ensures target == "" <==> forall i | 0 <= i < |names| :: names[i] == keyName
    ensures target != "" ==> target in names && target != keyName
    ensures "default" in names && keyName != "default" ==> target == "default"
    ensures target != "" && target != "default" ==>
              exists i | 0 <= i < |names| :: names[i] == target && forall j | 0 <= j < i :: names[j] == keyName
  {
    var first := "";
    for i := 0 to |names|
      invariant forall j | 0 <= j < i :: names[j] == keyName || names[j] != DEFAULT_KEY_NAME
      invariant first == "" <==> forall j | 0 <= j < i :: names[j] == keyName
      invariant first != "" ==> first != keyName
                                && exists k | 0 <= k < i :: names[k] == first && forall j | 0 <= j < k :: names[j] == keyName
    {
      if names[i] == keyName {
        continue;
      }
      if names[i] == DEFAULT_KEY_NAME {
        return names[i];
      }
      if first == "" {
        first := names[i];
      }
    }
    return first;
  }

  // ---- Delete, with sweep

  /** What the world answers during one call. */
  datatype World = World(
    hasClient: bool, balanceKnown: bool, price: Option<Price>, signs: bool,
    sendPrice: Option<Price>, reachesChain: bool, reported: bool, removes: bool,
    /** What reaches the key's address once its balance has been read; the key names as listed. */
    arrivals: nat, names: seq<string>)

  datatype Request = Request(key: string, force: bool, sweepTo: string, isTestnet: bool)

  datatype Report = Report(address: string, swept: int, abandoned: int)

  /** The fee the chain's price comes to for a transfer. */
  function FeeAt(price: Option<Price>): Option<nat> {
    if price.None? then None
    else
      var fee := CurrentGasFee(price.value, DEFAULT_GAS_WANTED);
      if fee.Ok? then Some(fee.value as nat) else None
  }

  /** Send: a new price query, then the broadcast. */
  function Sent(l: Ledger, from: string, to: string, amount: nat, w: World): (Ledger, bool) {
    if FeeAt(w.sendPrice).None? || !w.reachesChain then (l, false)
    else
      var (after, ok) := Transfer(l, from, to, amount, FeeAt(w.sendPrice).value);
      (after, ok && w.reported)
  }

  class Chain {
    var ledger: Ledger

    constructor (l: Ledger)
      ensures ledger == l
    {
      ledger := l;
    }

    /** Someone else's transfer into an account. */
    method Arrive(addr: string, amount: nat)
      modifies this
      ensures ledger == Deposited(old(ledger), addr, amount)
    {
      ledger := Deposited(ledger, addr, amount);
    }

    method Send(from: string, to: string, amount: int, w: World) returns (ok: bool)
      requires amount > 0
      modifies this
      ensures (ledger, ok) == Sent(old(ledger), from, to, amount, w)
    {
      var fee := FeeAt(w.sendPrice);
      if fee.None? || !w.reachesChain {
        return false;
      }
      var (after, done) := Transfer(ledger, from, to, amount, fee.value);
      ledger := after;
      return done && w.reported;
    }
  }

  /** Moves the balance minus the fee to another key; 0 when the fee leaves nothing to move. */
  method SweepBeforeDelete(ks: Keystore, c: Chain, req: Request, from: string, bal: nat, w: World) returns (r: Result<int, Error>)
    modifies c
    ensures (r, c.ledger) == Swept(ks.keys, old(c.ledger), req, from, bal, w)
  {
    if req.sweepTo == req.key {
      return Err(SweepToSelf);
    }
    var to := AddressOf(ks.keys, req.sweepTo);
    if to.Err? {
      return Err(if to.error == NoSuchKey then NoSuchTarget else UnreadableTarget);
    }
    var fee := FeeAt(w.price);
    if fee.None? {
      return Err(FeeUnknown);
    }
    if bal <= fee.value {
      return Ok(0);
    }
    if !w.signs {
      return Err(CannotSign);
    }
    var amount := bal - fee.value;
    var ok := c.Send(from, to.value, amount, w);
    if !ok {
      return Err(SendFailed);
    }
    return Ok(amount);
  }

  function Swept(keys: Keys, l: Ledger, req: Request, from: string, bal: nat, w: World): (Result<int, Error>, Ledger) {
    var (to, fee) := (AddressOf(keys, req.sweepTo), FeeAt(w.price));
    if req.sweepTo == req.key then (Err(SweepToSelf), l)
    else if to.Err? then (Err(if to.error == NoSuchKey then NoSuchTarget else UnreadableTarget), l)
    else if fee.None? then (Err(FeeUnknown), l)
    else if bal <= fee.value then (Ok(0), l)
    else if !w.signs then (Err(CannotSign), l)
    else
      var (after, ok) := Sent(l, from, to.value, bal - fee.value, w);
      (if ok then Ok(bal - fee.value) else Err(SendFailed), after)
  }

  method KeyDelete(ks: Keystore, c: Chain, req: Request, w: World) returns (r: Result<Report, Error>, target: string)
    requires forall i | 0 <= i < |w.names| :: w.names[i] != ""
    modifies ks, c
    ensures (r, ks.keys, c.ledger) == Deleted(old(ks.keys), old(c.ledger), req, w)
    ensures r == Err(KeyHasFunds) ==> (target == "" <==> forall i | 0 <= i < |w.names| :: w.names[i] == req.key)
    ensures target != "" ==> r == Err(KeyHasFunds) && target in w.names && target != req.key
  {
    target := "";
    if req.key == "" {
      return Err(KeyRequired), target;
    }
    if !req.isTestnet {
      return Err(NotTestnet), target;
    }
    var addr := AddressOf(ks.keys, req.key);
    if addr.Err? {
      return Err(addr.error), target;
    }
    if !w.hasClient {
      return Err(NoClient), target;
    }
    if !w.balanceKnown {
      return Err(BalanceUnknown), target;
    }
    var bal := Balance(c.ledger, addr.value);
    c.Arrive(addr.value, w.arrivals);
    var report := Report(addr.value, 0, 0);
    if req.sweepTo != "" {
      var swept := SweepBeforeDelete(ks, c, req, addr.value, bal, w);
      if swept.Err? {
        return Err(swept.error), target;
      }
      if swept.value > 0 {
        report := report.(swept := swept.value);
      } else if bal > 0 {
        report := report.(abandoned := bal);
      }
    } else if bal > 0 && !req.force {
      target := SweepTarget(w.names, req.key);
      return Err(KeyHasFunds), target;
    } else if bal > 0 {
      report := report.(abandoned := bal);
    }
    var gone := ks.Delete(req.key, w.removes);
    if gone.Err? {
      return Err(gone.error), target;
    }
    return Ok(report), target;
  }

  /** A call up to the removal, in the order it is decided: the report it would make, and the ledger. */
  function Checked(keys: Keys, l: Ledger, req: Request, w: World): (Result<Report, Error>, Ledger) {
    var addr := AddressOf(keys, req.key);
    if req.key == "" then (Err(KeyRequired), l)
    else if !req.isTestnet then (Err(NotTestnet), l)
    else if addr.Err? then (Err(addr.error), l)
    else if !w.hasClient then (Err(NoClient), l)
    else if !w.balanceKnown then (Err(BalanceUnknown), l)
    else
      var (bal, live) := (Balance(l, addr.value), Deposited(l, addr.value, w.arrivals));
      var (swept, after) := if req.sweepTo != "" then Swept(keys, live, req, addr.value, bal, w) else (Ok(0), live);
      if swept.Err? then (Err(swept.error), after)
      else if req.sweepTo == "" && bal > 0 && !req.force then (Err(KeyHasFunds), after)
      else (Ok(Report(addr.value, swept.value, if swept.value == 0 then bal else 0)), after)
  }

  function Removed(keys: Keys, name: string, removes: bool): Keys {
    if AddressOf(keys, name).Ok? && removes then keys - {name} else keys
  }

  /** Everything an undisturbed call does. */
  function Deleted(keys: Keys, l: Ledger, req: Request, w: World): (Result<Report, Error>, Keys, Ledger) {
    var (r, after) := Checked(keys, l, req, w);
    if r.Err? then (r, keys, after)
    else if !w.removes then (Err(RemoveFailed), keys, after)
    else (r, Removed(keys, req.key, w.removes), after)
  }

  // ---- What a call may cost

  /**
   A key goes only on success, and then only that key; the sweep target stays. A key with a
   balance never goes unless the caller named a target for it or said to abandon it.
   */
  lemma KeyGoesOnlyWithConsent(keys: Keys, l: Ledger, req: Request, w: World)
    ensures var (r, after, _) := Deleted(keys, l, req, w);
            if r.Err? then after == keys
            else
              && req.key in keys && after == keys - {req.key}
              && (req.sweepTo != "" ==> req.sweepTo in after)
              && (Balance(l, AddressOf(keys, req.key).value) > 0 ==> req.sweepTo != "" || req.force)
  {
  }

  lemma WithBalanceReads(l: Ledger, addr: string, amount: nat, a: string)
    ensures Balance(WithBalance(l, addr, amount), a) == if a == addr then amount else Balance(l, a)
  {
  }

  /** What a transfer between two accounts does to every balance. */
  lemma TransferMoves(l: Ledger, from: string, to: string, amount: nat, fee: nat, a: string)
    requires from != to
    ensures var (after, ok) := Transfer(l, from, to, amount, fee);
            && (ok <==> Balance(l, from) >= fee + amount)
            && (ok ==> Balance(after, from) == Balance(l, from) - fee - amount && Balance(after, to) == Balance(l, to) + amount)
            && (!ok ==> Balance(after, to) == Balance(l, to)
                        && Balance(after, from) == Balance(l, from) - if Balance(l, from) >= fee then fee else 0)
            && (a != from && a != to ==> Balance(after, a) == Balance(l, a))
  {
  }

  /** The key was deleted with a sweep target at another address. */
  predicate DeletedWithSweep(keys: Keys, l: Ledger, req: Request, w: World) {
    req.sweepTo != "" && Deleted(keys, l, req, w).0.Ok? && AddressOf(keys, req.key) != AddressOf(keys, req.sweepTo)
  }

  /**
   A key deleted with sweep_to has moved exactly its balance minus the reserved fee to the
   target, or held no more than the fee. What stays behind is then the fee reserved and
   what arrived meanwhile, less the fee charged; no other account changes.
   */
  lemma SweptOrDust(keys: Keys, l: Ledger, req: Request, w: World, a: string)
    ensures DeletedWithSweep(keys, l, req, w) ==> AddressOf(keys, req.sweepTo).Ok? && FeeAt(w.price).Some?
    ensures DeletedWithSweep(keys, l, req, w) ==>
              var (rep, after) := (Deleted(keys, l, req, w).0.value, Deleted(keys, l, req, w).2);
              var (from, to, fee) := (AddressOf(keys, req.key).value, AddressOf(keys, req.sweepTo).value, FeeAt(w.price).value);
              var bal := Balance(l, from);
              && (a != from && a != to ==> Balance(after, a) == Balance(l, a))
              && (if bal <= fee then
                    rep.swept == 0 && rep.abandoned == bal && after == Deposited(l, from, w.arrivals)
                  else
                    && rep.swept == bal - fee && rep.abandoned == 0 && FeeAt(w.sendPrice).Some?
                    && Balance(after, to) == Balance(l, to) + (bal - fee)
                    && Balance(after, from) == fee + w.arrivals - FeeAt(w.sendPrice).value)
  {
    if DeletedWithSweep(keys, l, req, w) {
      var (from, to) := (AddressOf(keys, req.key).value, AddressOf(keys, req.sweepTo).value);
      var (bal, live) := (Balance(l, from), Deposited(l, from, w.arrivals));
      WithBalanceReads(l, from, bal + w.arrivals, from);
      WithBalanceReads(l, from, bal + w.arrivals, to);
      WithBalanceReads(l, from, bal + w.arrivals, a);
      if bal > FeeAt(w.price).value {
        TransferMoves(live, from, to, bal - FeeAt(w.price).value, FeeAt(w.sendPrice).value, a);
      }
    }
  }

  /**
   A swept key leaves nothing behind exactly when the fee charged is the fee reserved and
   whatever arrived in between: so at an unchanged price with no arrivals.
   */
  lemma SweptKeyIsEmptyIff(keys: Keys, l: Ledger, req: Request, w: World)
    ensures DeletedWithSweep(keys, l, req, w) && Deleted(keys, l, req, w).0.value.swept > 0 ==>
              && FeeAt(w.price).Some? && FeeAt(w.sendPrice).Some?
              && (var left := Balance(Deleted(keys, l, req, w).2, AddressOf(keys, req.key).value);
                  && (left == 0 <==> FeeAt(w.sendPrice).value == FeeAt(w.price).value + w.arrivals)
                  && (w.sendPrice == w.price ==> left == w.arrivals))
  {
    SweptOrDust(keys, l, req, w, "");
  }

  /** The price at the broadcast is past what was reserved and what arrived. */
  predicate PriceRose(keys: Keys, l: Ledger, req: Request, w: World) {
    && AddressOf(keys, req.key).Ok? && FeeAt(w.price).Some? && FeeAt(w.sendPrice).Some?
    && Balance(l, AddressOf(keys, req.key).value) > FeeAt(w.price).value
    && FeeAt(w.sendPrice).value > FeeAt(w.price).value + w.arrivals
  }

  /**
   A price that rose that far makes the sweep fail, and the key stays; the chain may still
   have taken the fee, but nothing more.
   */
  lemma PriceRiseKeepsTheKey(keys: Keys, l: Ledger, req: Request, w: World)
    ensures req.sweepTo != "" && PriceRose(keys, l, req, w) && AddressOf(keys, req.key) != AddressOf(keys, req.sweepTo) ==>
              var ((r, kept, after), from) := (Deleted(keys, l, req, w), AddressOf(keys, req.key).value);
              && r.Err? && kept == keys
              && (Balance(after, from) == Balance(l, from)
                  || Balance(after, from) == Balance(l, from) + w.arrivals
                  || Balance(after, from) == Balance(l, from) + w.arrivals - FeeAt(w.sendPrice).value)
              && (AddressOf(keys, req.sweepTo).Ok? ==>
                    Balance(after, AddressOf(keys, req.sweepTo).value) == Balance(l, AddressOf(keys, req.sweepTo).value))
  {
    if PriceRose(keys, l, req, w) && AddressOf(keys, req.key) != AddressOf(keys, req.sweepTo) {
      var (from, to) := (AddressOf(keys, req.key).value, AddressOf(keys, req.sweepTo));
      var bal := Balance(l, from);
      WithBalanceReads(l, from, bal + w.arrivals, from);
      if to.Ok? {
        WithBalanceReads(l, from, bal + w.arrivals, to.value);
        TransferMoves(Deposited(l, from, w.arrivals), from, to.value, bal - FeeAt(w.price).value, FeeAt(w.sendPrice).value, "");
      }
    }
  }

  lemma SweepConserves(keys: Keys, l: Ledger, req: Request, from: string, bal: nat, w: World)
    ensures Supply(Swept(keys, l, req, from, bal, w).1) == Supply(l)
  {
    var (to, fee, charged) := (AddressOf(keys, req.sweepTo), FeeAt(w.price), FeeAt(w.sendPrice));
    if to.Ok? && fee.Some? && bal > fee.value && charged.Some? {
      TransferConserves(l, from, to.value, bal - fee.value, charged.value);
    }
  }

  /** The call got as far as reading the balance. */
  predicate ReadsBalance(keys: Keys, req: Request, w: World) {
    req.key != "" && req.isTestnet && AddressOf(keys, req.key).Ok? && w.hasClient && w.balanceKnown
  }

  /** No call creates or destroys funds, over every answer of the chain: only what arrived once the balance was read is added. */
  lemma FundsAreConserved(keys: Keys, l: Ledger, req: Request, w: World)
    ensures Supply(Deleted(keys, l, req, w).2) == Supply(l) + if ReadsBalance(keys, req, w) then w.arrivals else 0
  {
    if ReadsBalance(keys, req, w) {
      var addr := AddressOf(keys, req.key).value;
      var (bal, live) := (Balance(l, addr), Deposited(l, addr, w.arrivals));
      SupplyWithBalance(l, addr, bal + w.arrivals);
      SweepConserves(keys, live, req, addr, bal, w);
    }
  }

  /** The address a key stands for, a missing key, or one that cannot be read. */
  lemma AddressIs(keys: Keys, name: string)
    ensures var r := AddressOf(keys, name);
            && (r == Err(NoSuchKey) <==> name !in keys)
            && (r == Err(Unreadable) <==> name in keys && keys[name] == None)
            && (r.Ok? <==> name in keys && keys[name].Some?)
            && (r.Ok? ==> keys[name] == Some(r.value))
  {
  }

  /** Every answer of an undisturbed call that moves nothing, exactly when, in the order of the checks. */
  lemma RefusalsAre(keys: Keys, l: Ledger, req: Request, w: World)
    ensures var (r, addr) := (Deleted(keys, l, req, w).0, AddressOf(keys, req.key));
            var named := req.key != "" && req.isTestnet;
            var known := named && addr.Ok? && w.hasClient && w.balanceKnown;
            && (r == Err(KeyRequired) <==> req.key == "")
            && (r == Err(NotTestnet) <==> req.key != "" && !req.isTestnet)
            && (r == Err(NoSuchKey) <==> named && addr == Err(NoSuchKey))
            && (r == Err(Unreadable) <==> named && addr == Err(Unreadable))
            && (r == Err(NoClient) <==> named && addr.Ok? && !w.hasClient)
            && (r == Err(BalanceUnknown) <==> named && addr.Ok? && w.hasClient && !w.balanceKnown)
            && (r == Err(KeyHasFunds) <==> known && req.sweepTo == "" && !req.force && Balance(l, addr.value) > 0)
            && (r == Err(SweepToSelf) <==> known && req.sweepTo != "" && req.sweepTo == req.key)
            && (r == Err(NoSuchTarget) <==> known && req.sweepTo != "" && req.sweepTo != req.key && AddressOf(keys, req.sweepTo) == Err(NoSuchKey))
            && (r == Err(UnreadableTarget) <==>
                  known && req.sweepTo != "" && req.sweepTo != req.key && AddressOf(keys, req.sweepTo) == Err(Unreadable))
  {
  }

  /** Without a target: deleted exactly when it holds nothing or the caller forces it, and what is abandoned is reported. */
  lemma WithoutSweepIs(keys: Keys, l: Ledger, req: Request, w: World)
    requires req.key != "" && req.isTestnet && AddressOf(keys, req.key).Ok? && w.hasClient && w.balanceKnown && req.sweepTo == ""
    ensures var (r, after, l') := Deleted(keys, l, req, w);
            var (addr, bal) := (AddressOf(keys, req.key).value, Balance(l, AddressOf(keys, req.key).value));
            && (r.Ok? <==> (bal == 0 || req.force) && w.removes)
            && (r.Ok? ==> r.value == Report(addr, 0, bal) && after == keys - {req.key})
            && (r == Err(RemoveFailed) <==> (bal == 0 || req.force) && !w.removes)
            && l' == Deposited(l, addr, w.arrivals)
  {
  }

  /** How a sweep with a balance above the fee ends: refused, failed or moved. */
  lemma SweepOutcomesAre(keys: Keys, l: Ledger, req: Request, from: string, bal: nat, w: World)
    requires req.sweepTo != req.key && AddressOf(keys, req.sweepTo).Ok?
    ensures var r := Swept(keys, l, req, from, bal, w).0;
            && (r == Err(FeeUnknown) <==> FeeAt(w.price).None?)
            && (r == Ok(0) <==> FeeAt(w.price).Some? && bal <= FeeAt(w.price).value)
            && (r == Err(CannotSign) <==> FeeAt(w.price).Some? && bal > FeeAt(w.price).value && !w.signs)
            && (FeeAt(w.price).Some? && bal > FeeAt(w.price).value && w.signs ==>
                  (r.Ok? <==> FeeAt(w.sendPrice).Some? && w.reachesChain && w.reported
                              && Balance(l, from) >= FeeAt(w.sendPrice).value + (bal - FeeAt(w.price).value))
                  && (r.Ok? ==> r.value == bal - FeeAt(w.price).value) && (r.Err? ==> r.error == SendFailed))
  {
  }

  /** The fee of a transfer: the offer for ten million gas. */
  lemma FeeAtIs(price: Option<Price>)
    ensures FeeAt(price).Some? <==> price.Some? && CurrentGasFee(price.value, 10_000_000).Ok?
    ensures FeeAt(price).Some? ==> FeeAt(price).value == CurrentGasFee(price.value, 10_000_000).value as int
  {
  }

  // ---- Two calls at once

  /** The handler holds no lock from its checks to the removal, so removals by other calls may fall in between. */
  function AfterRemovals(keys: Keys, removals: seq<(string, bool)>): Keys
    decreases |removals|
  {
    if removals == [] then keys else AfterRemovals(Removed(keys, removals[0].0, removals[0].1), removals[1..])
  }

  /** A sweep target keeps its key exactly when no removal that falls in between is its own and succeeds. */
  lemma {:induction false} TargetStaysIff(keys: Keys, removals: seq<(string, bool)>, target: string)
    requires AddressOf(keys, target).Ok?
    ensures AddressOf(AfterRemovals(keys, removals), target) ==
            if (target, true) in removals then Err(NoSuchKey) else AddressOf(keys, target)
    decreases |removals|
  {
    if removals != [] {
      var (next, rest) := (Removed(keys, removals[0].0, removals[0].1), removals[1..]);
      assert (target, true) in removals <==> removals[0] == (target, true) || (target, true) in rest;
      if removals[0] == (target, true) {
        GoneStaysGone(next, rest, target);
      } else {
        TargetStaysIff(next, rest, target);
      }
    }
  }

  lemma {:induction false} GoneStaysGone(keys: Keys, removals: seq<(string, bool)>, target: string)
    requires target !in keys
    ensures target !in AfterRemovals(keys, removals)
    decreases |removals|
  {
    if removals != [] {
      GoneStaysGone(Removed(keys, removals[0].0, removals[0].1), removals[1..], target);
    }
  }

  /** Every answer is a good one, at one fee, with nothing arriving. */
  predicate AllGoesWell(w: World, fee: nat) {
    && w.hasClient && w.balanceKnown && w.signs && w.reachesChain && w.reported && w.removes && w.arrivals == 0
    && FeeAt(w.price) == Some(fee) && FeeAt(w.sendPrice) == Some(fee)
  }

  lemma GoodSweep(keys: Keys, l: Ledger, req: Request, w: World, fee: nat, from: string, to: string)
    requires req.key != "" && req.sweepTo != "" && req.key != req.sweepTo && req.isTestnet
    requires AddressOf(keys, req.key) == Ok(from) && AddressOf(keys, req.sweepTo) == Ok(to) && from != to
    requires Balance(l, from) > fee
    ensures AllGoesWell(w, fee) ==>
            var (r, after) := Checked(keys, l, req, w);
            && r == Ok(Report(from, Balance(l, from) - fee, 0))
            && Balance(after, from) == 0 && Balance(after, to) == Balance(l, to) + Balance(l, from) - fee
  {
    if AllGoesWell(w, fee) {
      var live := Deposited(l, from, w.arrivals);
      WithBalanceReads(l, from, Balance(l, from), from);
      WithBalanceReads(l, from, Balance(l, from), to);
      TransferMoves(live, from, to, Balance(l, from) - fee, fee, "");
    }
  }

  /**
   Two calls that sweep into each other's key, both past their checks before either removes:
   both succeed, no key is left, and what was swept back and forth is out of reach. Had the
   first removed in time, the second would have been refused.
   */
  lemma CrossedSweepsStrand(keys: Keys, l: Ledger, r1: Request, r2: Request, w: World, fee: nat, a: string, b: string)
    requires r1.isTestnet && r2.isTestnet && r1.key != "" && r2.key != "" && a != b
    requires r1.sweepTo == r2.key && r2.sweepTo == r1.key && r1.key != r2.key
    requires keys == map[r1.key := Some(a), r2.key := Some(b)]
    requires Balance(l, a) > fee && Balance(l, a) + Balance(l, b) > 2 * fee
    ensures AllGoesWell(w, fee) ==>
            var (rep1, l1) := Checked(keys, l, r1, w);
            var (rep2, l2) := Checked(keys, l1, r2, w);
            && rep1.Ok? && rep2.Ok?
            && Removed(Removed(keys, r1.key, w.removes), r2.key, w.removes) == map[]
            && Balance(l2, a) == Balance(l, a) + Balance(l, b) - 2 * fee > 0
            && Checked(Removed(keys, r1.key, w.removes), l1, r2, w).0 == Err(NoSuchTarget)
  {
    if AllGoesWell(w, fee) {
      var l1 := Checked(keys, l, r1, w).1;
      GoodSweep(keys, l, r1, w, fee, a, b);
      GoodSweep(keys, l1, r2, w, fee, b, a);
    }
  }
}
