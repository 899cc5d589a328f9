/**
 Coin strings such as "1000000ugnot" and the budget kept in them
 (internal/session/scope.go:250-269, manager.go:301-327 and 505-514,
 internal/chain/real.go:755-769).
 */
module Coins {
  import opened Prelude

  predicate IsDigit(c: char) { '0' <= c <= '9' }

  predicate AllDigits(s: string) { forall i | 0 <= i < |s| :: IsDigit(s[i]) }

  function DigitChar(d: nat): (c: char)
    requires d < 10
    ensures IsDigit(c) && DigitValue(c) == d
  {
    '0' + d as char
  }

  function DigitValue(c: char): nat
    requires IsDigit(c)
  {
    (c - '0') as nat
  }

  /** Decimal notation, most significant digit first. */
  function Decimal(n: nat): string {
    if n < 10 then [DigitChar(n)] else Decimal(n / 10) + [DigitChar(n % 10)]
  }

  function FormatInt(x: int): string { if x < 0 then "-" + Decimal(-x) else Decimal(x) }

  function Value(digits: string): nat
    requires AllDigits(digits)
  {
    if digits == "" then 0
    else
      var n := |digits| - 1;
      Value(digits[..n]) * 10 + DigitValue(digits[n])
  }

  /** How many digits the string starts with. */
  function DigitRun(s: string): (n: nat)
    ensures n <= |s| && AllDigits(s[..n]) && (n < |s| ==> !IsDigit(s[n]))
  {
    if s == "" || !IsDigit(s[0]) then 0
    else
      var rest := DigitRun(s[1..]);
      assert s[..rest + 1] == [s[0]] + s[1..][..rest];
      rest + 1
  }

  datatype Coin = Coin(mag: int, denom: string)

  datatype CoinError = EmptyCoin | MissingDenomination | MagnitudeOutOfRange

  function ParseCoins(s: string): Result<Coin, CoinError> {
    var split := DigitRun(s);
    if s == "" then Err(EmptyCoin)
    else if split == 0 || split == |s| then Err(MissingDenomination)
    else if Value(s[..split]) > MAX_INT64 as int then Err(MagnitudeOutOfRange)
    else Ok(Coin(Value(s[..split]), s[split..]))
  }

  /** A denomination that cannot be mistaken for more digits. */
  predicate Denominates(denom: string) { denom != "" && !IsDigit(denom[0]) }

  lemma {:induction false} DecimalReadsBack(n: nat)
    ensures Decimal(n) != "" && AllDigits(Decimal(n)) && Value(Decimal(n)) == n
  {
    if n >= 10 {
      DecimalReadsBack(n / 10);
      assert Decimal(n)[..|Decimal(n)| - 1] == Decimal(n / 10);
    } else {
      assert Decimal(n)[..0] == "";
    }
  }

  lemma {:induction false} DigitRunIs(s: string, k: nat)
    requires k <= |s| && AllDigits(s[..k]) && (k < |s| ==> !IsDigit(s[k]))
    ensures DigitRun(s) == k
  {
    if k > 0 {
      assert s[..k][0] == s[0];
      assert s[1..][..k - 1] == s[..k][1..];
      DigitRunIs(s[1..], k - 1);
    }
  }

  /** Parsing undoes printing exactly when the number fits int64 and the denomination is one. */
  lemma PrintedCoinReadsBackIff(n: nat, denom: string)
    ensures ParseCoins(Decimal(n) + denom) == Ok(Coin(n, denom)) <==> n <= MAX_INT64 as int && Denominates(denom)
  {
    DecimalReadsBack(n);
    var d, s := Decimal(n), Decimal(n) + denom;
    assert s[..|d|] == d && s[|d|..] == denom;
    if denom == "" || Denominates(denom) {
      DigitRunIs(s, |d|);
    } else {
      assert s[|d|] == denom[0];
    }
  }

  lemma ParsedCoinIsSane(s: string)
    requires ParseCoins(s).Ok?
    ensures 0 <= ParseCoins(s).value.mag <= MAX_INT64 as int && Denominates(ParseCoins(s).value.denom)
  {
    assert s[DigitRun(s)..][0] == s[DigitRun(s)];
  }

  predicate IsZeroSpend(coin: string) {
    coin != "" && ParseCoins(coin).Ok? && ParseCoins(coin).value.mag == 0
  }

  // ---- Settling fees against a budget

  /** What one local settlement leaves of a budget. */
  function SpendAfter(coin: string, fee: int64): Result<string, CoinError> {
    match ParseCoins(coin)
    case Err(e) => Err(e)
    case Ok(Coin(mag, denom)) =>
      var remaining := Wrap64(mag - fee as int);
      Ok(FormatInt(if remaining < 0 then 0 else remaining as int) + denom)
  }

  method Debit(coin: string, fee: int64) returns (r: Result<string, CoinError>)
    ensures r == SpendAfter(coin, fee)
  {
    var c := ParseCoins(coin);
    if c.Err? {
      return Err(c.error);
    }
    var remaining := Wrap64(c.value.mag - fee as int);
    if remaining < 0 {
      remaining := 0;
    }
    return Ok(FormatInt(remaining as int) + c.value.denom);
  }

  function Total(fees: seq<int64>): int {
    if fees == [] then 0 else fees[0] as int + Total(fees[1..])
  }

  function SpendAfterAll(coin: string, fees: seq<int64>): Result<string, CoinError>
    decreases |fees|
  {
    if fees == [] then Ok(coin)
    else
      match SpendAfter(coin, fees[0])
      case Err(e) => Err(e)
      case Ok(next) => SpendAfterAll(next, fees[1..])
  }

  lemma SettledOnce(coin: string, mag: int, denom: string, fee: int64)
    requires ParseCoins(coin) == Ok(Coin(mag, denom)) && fee >= 0
    ensures mag >= 0
    ensures var next := Decimal(Max(0, mag - fee as int)) + denom;
            SpendAfter(coin, fee) == Ok(next) && ParseCoins(next) == Ok(Coin(Max(0, mag - fee as int), denom))
  {
    ParsedCoinIsSane(coin);
    PrintedCoinReadsBackIff(Max(0, mag - fee as int), denom);
  }

  lemma {:induction false} TotalNonnegative(fees: seq<int64>)
    requires forall i | 0 <= i < |fees| :: fees[i] >= 0
    ensures Total(fees) >= 0
  {
    if fees != [] {
      TotalNonnegative(fees[1..]);
    }
  }

  lemma {:induction false} SettledRepeatedly(coin: string, mag: int, denom: string, fees: seq<int64>)
    requires ParseCoins(coin) == Ok(Coin(mag, denom)) && forall i | 0 <= i < |fees| :: fees[i] >= 0
    requires fees != []
    ensures SpendAfterAll(coin, fees) == Ok(Decimal(Max(0, mag - Total(fees))) + denom)
    decreases |fees|
  {
    SettledOnce(coin, mag, denom, fees[0]);
    var left := Max(0, mag - fees[0] as int);
    var next := Decimal(left) + denom;
    assert SpendAfterAll(coin, fees) == SpendAfterAll(next, fees[1..]);
    if fees[1..] != [] {
      SettledRepeatedly(next, left, denom, fees[1..]);
      TotalNonnegative(fees[1..]);
    }
  }

  /**
   After any number of settlements the budget reads max(0, start - total fees) in its own
   denomination, and it reads as spent exactly when the fees have reached the start.
   */
  lemma BudgetAfterSettlements(coin: string, fees: seq<int64>)
    requires ParseCoins(coin).Ok? && forall i | 0 <= i < |fees| :: fees[i] >= 0
    ensures var Coin(start, denom) := ParseCoins(coin).value;
            var (r, left) := (SpendAfterAll(coin, fees), Max(0, start - Total(fees)));
            && r.Ok? && left >= 0
            && (fees != [] ==> r.value == Decimal(left) + denom)
            && (IsZeroSpend(r.value) <==> Total(fees) >= start)
  {
    var Coin(start, denom) := ParseCoins(coin).value;
    ParsedCoinIsSane(coin);
    TotalNonnegative(fees);
    if fees != [] {
      var left := Max(0, start - Total(fees));
      SettledRepeatedly(coin, start, denom, fees);
      PrintedCoinReadsBackIff(left, denom);
      assert ParseCoins(Decimal(left) + denom) == Ok(Coin(left, denom));
    }
  }

  // ---- The budget the chain reports

  /** One denomination of a coin list. */
  datatype Amount = Amount(denom: string, amount: int)

  function AmountOf(coins: seq<Amount>, denom: string): int {
    if coins == [] then 0 else if coins[0].denom == denom then coins[0].amount else AmountOf(coins[1..], denom)
  }

  /** The coins left of a limit, with spent-out denominations dropped. */
  function Leftover(limit: seq<Amount>, used: seq<Amount>): seq<Amount> {
    if limit == [] then []
    else
      var n := |limit| - 1;
      var left := limit[n].amount - AmountOf(used, limit[n].denom);
      Leftover(limit[..n], used) + (if left > 0 then [Amount(limit[n].denom, left)] else [])
  }

  function Listed(coins: seq<Amount>): string {
    if coins == [] then ""
    else if |coins| == 1 then FormatInt(coins[0].amount) + coins[0].denom
    else FormatInt(coins[0].amount) + (coins[0].denom + "," + Listed(coins[1..]))
  }

  function Remaining(limit: seq<Amount>, used: seq<Amount>): string {
    var out := Leftover(limit, used);
    if out == [] && limit != [] then "0" + limit[0].denom else Listed(out)
  }

  method SpendRemaining(limit: seq<Amount>, used: seq<Amount>) returns (r: string)
    ensures r == Remaining(limit, used)
  {
    var out := [];
    for i := 0 to |limit|
      invariant out == Leftover(limit[..i], used)
    {
      assert limit[..i + 1][..i] == limit[..i];
      var left := limit[i].amount - AmountOf(used, limit[i].denom);
      if left > 0 {
        out := out + [Amount(limit[i].denom, left)];
      }
    }
    assert limit[..|limit|] == limit;
    if |out| == 0 && |limit| > 0 {
      return "0" + limit[0].denom;
    }
    return Listed(out);
  }

  predicate UsedUp(limit: seq<Amount>, used: seq<Amount>) {
    forall i | 0 <= i < |limit| :: AmountOf(used, limit[i].denom) >= limit[i].amount
  }

  predicate WellFormed(limit: seq<Amount>, used: seq<Amount>) {
    && (forall i | 0 <= i < |limit| :: Denominates(limit[i].denom) && 0 <= limit[i].amount <= MAX_INT64 as int)
    && (forall i | 0 <= i < |used| :: used[i].amount >= 0)
  }

  lemma {:induction false} AmountOfNonnegative(coins: seq<Amount>, denom: string)
    requires forall i | 0 <= i < |coins| :: coins[i].amount >= 0
    ensures AmountOf(coins, denom) >= 0
  {
    if coins != [] {
      AmountOfNonnegative(coins[1..], denom);
    }
  }

  lemma {:induction false} LeftoverIsPositive(limit: seq<Amount>, used: seq<Amount>)
    requires WellFormed(limit, used)
    ensures Leftover(limit, used) == [] <==> UsedUp(limit, used)
    ensures forall c | c in Leftover(limit, used) :: 0 < c.amount <= MAX_INT64 as int && Denominates(c.denom)
  {
    if limit != [] {
      var n := |limit| - 1;
      LeftoverIsPositive(limit[..n], used);
      AmountOfNonnegative(used, limit[n].denom);
      if UsedUp(limit[..n], used) && AmountOf(used, limit[n].denom) >= limit[n].amount {
        forall i | 0 <= i < |limit| ensures AmountOf(used, limit[i].denom) >= limit[i].amount {
          assert i < n ==> limit[..n][i] == limit[i];
        }
      }
      if UsedUp(limit, used) {
        forall i | 0 <= i < n ensures AmountOf(used, limit[..n][i].denom) >= limit[..n][i].amount {
          assert limit[..n][i] == limit[i];
        }
      }
    }
  }

  /**
   The string a session is given reads as spent exactly when a limit exists and every
   denomination of it is used up; a session with no limit never reads as spent.
   */
  lemma ReportedBudgetIsSpentIff(limit: seq<Amount>, used: seq<Amount>)
    requires WellFormed(limit, used)
    ensures IsZeroSpend(Remaining(limit, used)) <==> limit != [] && UsedUp(limit, used)
  {
    LeftoverIsPositive(limit, used);
    var out := Leftover(limit, used);
    if out != [] {
      assert out[0] in out;
      var tail := if |out| == 1 then out[0].denom else out[0].denom + "," + Listed(out[1..]);
      assert Listed(out) == Decimal(out[0].amount) + tail;
      PrintedCoinReadsBackIff(out[0].amount, tail);
    } else if limit != [] {
      assert Decimal(0) == "0";
      PrintedCoinReadsBackIff(0, limit[0].denom);
    }
  }

  // ---- In plain terms

  /** What parses: digits, then something that is not one; the digits at most the largest int64. */
  lemma ParsesIff(s: string, k: nat)
    requires k <= |s| && (forall i | 0 <= i < k :: '0' <= s[i] <= '9') && (k < |s| ==> !('0' <= s[k] <= '9'))
    ensures var r := ParseCoins(s);
            && (r == Err(EmptyCoin) <==> s == "")
            && (r == Err(MissingDenomination) <==> s != "" && (k == 0 || k == |s|))
            && (r == Err(MagnitudeOutOfRange) <==> 0 < k < |s| && Value(s[..k]) > 0x7fff_ffff_ffff_ffff)
            && (r.Ok? ==> r.value == Coin(Value(s[..k]), s[k..]))
  {
    assert AllDigits(s[..k]);
    DigitRunIs(s, k);
  }

  /** Ten to a digit, and the digits are the ten of ASCII. */
  lemma DecimalIsBaseTen(n: nat, d: nat)
    requires d < 10
    ensures n > 0 ==> Decimal(10 * n + d) == Decimal(n) + Decimal(d)
    ensures Decimal(d) == ["0123456789"[d]]
  {
  }

  /** A digit more is ten times the value and the digit, leading zeros or not. */
  lemma ValueIsBaseTen(digits: string, d: nat)
    requires AllDigits(digits) && d < 10
    ensures AllDigits(digits + ["0123456789"[d]])
    ensures Value(digits + ["0123456789"[d]]) == 10 * Value(digits) + d && Value("") == 0
  {
    var more := digits + ["0123456789"[d]];
    assert more[..|digits|] == digits;
  }

  /** A coin string reads as spent exactly when it is zeros and then a denomination. */
  lemma SpentIff(s: string)
    ensures IsZeroSpend(s) <==> exists k :: 0 < k < |s| && !('0' <= s[k] <= '9') && forall i | 0 <= i < k :: s[i] == '0'
  {
    if IsZeroSpend(s) {
      var k := DigitRun(s);
      ZeroIsZeros(s[..k]);
      assert forall i | 0 <= i < k :: s[i] == s[..k][i];
    }
    if k :| 0 < k < |s| && !('0' <= s[k] <= '9') && forall i | 0 <= i < k :: s[i] == '0' {
      assert AllDigits(s[..k]);
      DigitRunIs(s, k);
      ZeroIsZeros(s[..k]);
    }
  }

  lemma {:induction false} ZeroIsZeros(digits: string)
    requires AllDigits(digits)
    ensures Value(digits) == 0 <==> forall i | 0 <= i < |digits| :: digits[i] == '0'
  {
    if digits != "" {
      var n := |digits| - 1;
      ZeroIsZeros(digits[..n]);
      assert DigitValue(digits[n]) == 0 <==> digits[n] == '0';
      assert forall i | 0 <= i < n :: digits[i] == digits[..n][i];
    }
  }

  /** One fee off a budget, for every int64: the difference, or zero where it is negative or leaves int64. */
  lemma SpendAfterIs(coin: string, mag: int, denom: string, fee: int64)
    requires ParseCoins(coin) == Ok(Coin(mag, denom))
    ensures var left := mag - fee as int;
            SpendAfter(coin, fee) == Ok(Decimal(if 0 <= left <= 0x7fff_ffff_ffff_ffff then left else 0) + denom)
  {
    ParsedCoinIsSane(coin);
  }

  /** What a list of coins says of one denomination. */
  ghost predicate Uses(coins: seq<Amount>, denom: string, amount: int) {
    if exists j :: 0 <= j < |coins| && coins[j].denom == denom then exists j :: 0 <= j < |coins| && coins[j] == Amount(denom, amount)
    else amount == 0
  }

  predicate DistinctDenoms(coins: seq<Amount>) { forall i, j | 0 <= i < j < |coins| :: coins[i].denom != coins[j].denom }

  lemma {:induction false} UsesIsAmountOf(coins: seq<Amount>, denom: string, amount: int)
    requires DistinctDenoms(coins) && Uses(coins, denom, amount)
    ensures AmountOf(coins, denom) == amount
  {
    if coins != [] {
      if coins[0].denom == denom {
        assert coins[0] == Amount(denom, amount);
      } else {
        var rest := coins[1..];
        assert forall j | 0 <= j < |rest| :: rest[j] == coins[j + 1];
        if j :| 0 <= j < |coins| && coins[j].denom == denom {
          assert rest[j - 1].denom == denom;
          var l :| 0 <= l < |coins| && coins[l] == Amount(denom, amount);
          assert rest[l - 1] == Amount(denom, amount);
        }
        UsesIsAmountOf(rest, denom, amount);
      }
    }
  }

  predicate LeavesOf(limit: Amount, used: seq<Amount>, c: Amount) {
    limit.denom == c.denom && c.amount == limit.amount - AmountOf(used, c.denom) && c.amount > 0
  }

  lemma {:induction false} LeftoverMembers(limit: seq<Amount>, used: seq<Amount>, c: Amount)
    ensures c in Leftover(limit, used) <==> exists i :: 0 <= i < |limit| && LeavesOf(limit[i], used, c)
  {
    if limit != [] {
      var n := |limit| - 1;
      LeftoverMembers(limit[..n], used, c);
      assert forall i | 0 <= i < n :: limit[..n][i] == limit[i];
      assert c in Leftover(limit, used) <==> c in Leftover(limit[..n], used) || LeavesOf(limit[n], used, c);
    }
  }

  /**
   Every coin left plus its use is its limit, and a denomination is left exactly when its
   use is below its limit.
   */
  lemma LeftoverIs(limit: seq<Amount>, used: seq<Amount>, i: nat, u: int)
    requires DistinctDenoms(limit) && DistinctDenoms(used) && i < |limit| && Uses(used, limit[i].denom, u)
    ensures forall left :: Amount(limit[i].denom, left) in Leftover(limit, used) <==> left + u == limit[i].amount && u < limit[i].amount
  {
    var d := limit[i].denom;
    UsesIsAmountOf(used, d, u);
    forall left ensures Amount(d, left) in Leftover(limit, used) <==> left + u == limit[i].amount && u < limit[i].amount {
      LeftoverMembers(limit, used, Amount(d, left));
    }
  }

  /** With one denomination the string reads as limit minus use, or as zero once the use has reached the limit. */
  lemma OneDenominationLeft(limit: Amount, used: seq<Amount>, u: int)
    requires Denominates(limit.denom) && 0 <= limit.amount <= MAX_INT64 as int && u >= 0
    requires DistinctDenoms(used) && Uses(used, limit.denom, u)
    ensures ParseCoins(Remaining([limit], used)) == Ok(Coin(if u < limit.amount then limit.amount - u else 0, limit.denom))
  {
    UsesIsAmountOf(used, limit.denom, u);
    assert [limit][..0] == [];
    var left := limit.amount - u;
    assert Leftover([limit], used) == if left > 0 then [Amount(limit.denom, left)] else [];
    if left > 0 {
      PrintedCoinReadsBackIff(left, limit.denom);
    } else {
      assert Decimal(0) == "0";
      PrintedCoinReadsBackIff(0, limit.denom);
    }
  }

  /** The text between commas. */
  function Fields(s: string): (fields: seq<string>)
    ensures |fields| >= 1
  {
    if s == "" then [""]
    else
      var rest := Fields(s[1..]);
      if s[0] == ',' then [""] + rest else [[s[0]] + rest[0]] + rest[1..]
  }

  lemma {:induction false} FieldsOf(a: string, s: string)
    requires ',' !in a
    ensures Fields(a) == [a] && Fields(a + "," + s) == [a] + Fields(s)
  {
    if a == "" {
      assert a + "," + s == "," + s && ("," + s)[1..] == s;
    } else {
      FieldsOf(a[1..], s);
      assert (a + "," + s)[1..] == a[1..] + "," + s;
      assert [a[0]] + a[1..] == a;
    }
  }

  lemma Regrouped(a: string, b: string, c: string, d: string)
    ensures a + (b + c + d) == a + b + c + d
  {
    Associates(a, b + c, d);
    Associates(a, b, c);
  }

  lemma ListedUnfolds(coins: seq<Amount>, digits: string, denom: string, rest: string)
    requires coins != [] && coins[0].amount >= 0 && digits == Decimal(coins[0].amount) && denom == coins[0].denom
    requires rest == if |coins| == 1 then "" else Listed(coins[1..])
    ensures Listed(coins) == if |coins| == 1 then digits + denom else digits + denom + "," + rest
  {
    Regrouped(digits, denom, ",", rest);
  }

  lemma DigitsHoldNoComma(n: nat)
    ensures ',' !in Decimal(n)
  {
    DecimalReadsBack(n);
  }

  lemma FieldsOfListed(coins: seq<Amount>, text: string, more: seq<string>)
    requires coins != [] && coins[0].amount >= 0 && text == Decimal(coins[0].amount) + coins[0].denom && ',' !in text
    requires more == if |coins| == 1 then [] else Fields(Listed(coins[1..]))
    ensures Fields(Listed(coins)) == [text] + more
  {
    ListedUnfolds(coins, Decimal(coins[0].amount), coins[0].denom, if |coins| == 1 then "" else Listed(coins[1..]));
    if |coins| == 1 {
      FieldsOf(text, "");
    } else {
      FieldsOf(text, Listed(coins[1..]));
    }
  }

  predicate Printable(c: Amount) { 0 <= c.amount <= MAX_INT64 as int && Denominates(c.denom) && ',' !in c.denom }

  predicate ReadsAs(fields: seq<string>, coins: seq<Amount>) {
    |fields| == |coins| && forall i | 0 <= i < |coins| :: ParseCoins(fields[i]) == Ok(Coin(coins[i].amount, coins[i].denom))
  }

  lemma ReadsAsOneMore(field: string, fields: seq<string>, coins: seq<Amount>)
    requires coins != [] && ParseCoins(field) == Ok(Coin(coins[0].amount, coins[0].denom)) && ReadsAs(fields, coins[1..])
    ensures ReadsAs([field] + fields, coins)
  {
    forall i | 0 <= i < |coins| ensures ParseCoins(([field] + fields)[i]) == Ok(Coin(coins[i].amount, coins[i].denom)) {
      if i > 0 {
        assert coins[i] == coins[1..][i - 1];
      }
    }
  }

  /** The coins left are listed one to a field, each printed so that it parses back. */
  lemma {:induction false} ListedReadsBack(coins: seq<Amount>)
    requires coins != [] && forall i | 0 <= i < |coins| :: Printable(coins[i])
    ensures ReadsAs(Fields(Listed(coins)), coins)
  {
    var c := coins[0];
    var text := Decimal(c.amount) + c.denom;
    PrintedCoinReadsBackIff(c.amount, c.denom);
    DigitsHoldNoComma(c.amount);
    FieldsOfListed(coins, text, if |coins| == 1 then [] else Fields(Listed(coins[1..])));
    if |coins| > 1 {
      ListedReadsBack(coins[1..]);
      ReadsAsOneMore(text, Fields(Listed(coins[1..])), coins);
    }
  }
}
