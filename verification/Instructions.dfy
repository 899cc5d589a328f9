/**
 The server instructions' profile listing (cmd/gnomcp/main.go:67-112): as many profiles as
 fit in 2048 characters, then how many were left out. The static guidance is an input.
 */
module Instructions {
  import opened Prelude
  import opened Coins

  const MAX_TEXT_LEN: nat := 2048

  /** A chain the server may target; whether its chain id is writable is an input. */
  datatype Profile = Profile(chainId: string, rpcUrl: string, readOnly: bool, sunset: bool, masterAddress: string, gnowebUrl: string)

  function Kind(p: Profile): string {
    if p.chainId == "dev" then "local" else if p.readOnly then "read-only" else "testnet"
  }

  function Remark(p: Profile): string {
    if p.readOnly then " (read tools only)" else if p.sunset then " (sunset: still fully writable, prefer the current testnet)" else ""
  }

  function Extras(p: Profile): string {
    (if p.masterAddress != "" then ", write-as-user" else "") + (if p.gnowebUrl != "" then ", gnoweb " + p.gnowebUrl else "")
  }

  function ProfileLine(name: string, p: Profile): string {
    "- " + name + ": " + p.chainId + " at " + p.rpcUrl + ", " + (Kind(p) + Remark(p)) + Extras(p) + "\n"
  }

  const MORE_TEXT := " more: gno_profile_list lists every profile.\n"

  function MoreProfilesLine(n: nat): string { "- " + Decimal(n) + MORE_TEXT }

  /** What a line says of writing, by case. */
  lemma StatusIs(p: Profile, status: string)
    requires status == Kind(p) + Remark(p)
    ensures p.chainId == "dev" && !p.readOnly && !p.sunset ==> status == "local"
    ensures p.chainId != "dev" && !p.readOnly && !p.sunset ==> status == "testnet"
    ensures p.chainId != "dev" && p.readOnly ==> status == "read-only (read tools only)"
    ensures p.chainId == "dev" && p.readOnly ==> status == "local (read tools only)"
    ensures !p.readOnly && p.sunset ==> status == (if p.chainId == "dev" then "local" else "testnet") + SUNSET_REMARK
  {
  }

  const SUNSET_REMARK := " (sunset: still fully writable, prefer the current testnet)"

  lemma ExtrasAre(p: Profile)
    ensures p.masterAddress == "" && p.gnowebUrl == "" ==> Extras(p) == ""
    ensures p.masterAddress != "" && p.gnowebUrl == "" ==> Extras(p) == ", write-as-user"
    ensures p.masterAddress == "" && p.gnowebUrl != "" ==> Extras(p) == ", gnoweb " + p.gnowebUrl
    ensures p.masterAddress != "" && p.gnowebUrl != "" ==> Extras(p) == ", write-as-user, gnoweb " + p.gnowebUrl
  {
    if p.masterAddress != "" {
      assert ", write-as-user" + ", gnoweb " == ", write-as-user, gnoweb ";
      Associates(", write-as-user", ", gnoweb ", p.gnowebUrl);
    }
  }

  /** A plain profile's line: its name, its chain id, its URL and what can be done there, each where it belongs. */
  lemma PlainLineIs(name: string, p: Profile, status: string)
    requires p.masterAddress == "" && p.gnowebUrl == ""
    requires !p.sunset && !(p.chainId == "dev" && p.readOnly)
    requires status == if p.chainId == "dev" then "local" else if p.readOnly then "read-only (read tools only)" else "testnet"
    ensures ProfileLine(name, p) == "- " + name + ": " + p.chainId + " at " + p.rpcUrl + ", " + status + "\n"
  {
    StatusIs(p, Kind(p) + Remark(p));
    ExtrasAre(p);
    assert status + "" == status;
  }

  // ---- Sorted names

  /** Code point order, which for UTF-8 is byte order. */
  predicate Before(a: string, b: string) {
    b != "" && (a == "" || a[0] < b[0] || (a[0] == b[0] && Before(a[1..], b[1..])))
  }

  /** Alike up to i, and smaller there. */
  predicate SmallerAt(a: string, b: string, i: nat) { i < |a| && i < |b| && a[..i] == b[..i] && a[i] < b[i] }

  lemma SmallerLater(a: string, b: string, i: nat)
    requires a != "" && b != ""
    ensures SmallerAt(a, b, 0) <==> a[0] < b[0]
    ensures SmallerAt(a, b, i + 1) <==> a[0] == b[0] && SmallerAt(a[1..], b[1..], i)
  {
    if i + 1 < |a| && i + 1 < |b| {
      assert a[..i + 1] == [a[0]] + a[1..][..i] && b[..i + 1] == [b[0]] + b[1..][..i];
      assert a[..i + 1][1..] == a[1..][..i] && b[..i + 1][1..] == b[1..][..i];
    }
  }

  /** A text stands before its continuations, and else where the first difference says. */
  lemma {:induction false} BeforeMeans(a: string, b: string)
    ensures Before(a, b) <==> (a <= b && |a| < |b|) || exists i: nat :: SmallerAt(a, b, i)
  {
    if a != "" && b != "" {
      var (s, t) := (a[1..], b[1..]);
      BeforeMeans(s, t);
      assert a == [a[0]] + s && b == [b[0]] + t;
      SmallerLater(a, b, 0);
      if i: nat :| SmallerAt(s, t, i) {
        SmallerLater(a, b, i);
      }
      if i: nat :| SmallerAt(a, b, i) && i > 0 {
        SmallerLater(a, b, i - 1);
      }
    }
  }

  lemma {:induction false} BeforeIsTotal(a: string, b: string)
    ensures a == b || Before(a, b) || Before(b, a)
    ensures !(Before(a, b) && Before(b, a)) && !Before(a, a)
  {
    if a != "" {
      BeforeIsTotal(a[1..], a[1..]);
      if b != "" {
        BeforeIsTotal(a[1..], b[1..]);
        assert a == [a[0]] + a[1..] && b == [b[0]] + b[1..];
      }
    }
  }

  /** What slices.Sorted makes of a map's keys. */
  ghost predicate SortedKeys(names: seq<string>, keys: set<string>) {
    && (forall i, j | 0 <= i < j < |names| :: Before(names[i], names[j]))
    && (forall name :: name in keys <==> name in names)
  }

  lemma SortedTail(names: seq<string>, keys: set<string>)
    requires SortedKeys(names, keys) && names != []
    ensures SortedKeys(names[1..], keys - {names[0]})
  {
    BeforeIsTotal(names[0], names[0]);
    forall name ensures name in keys - {names[0]} <==> name in names[1..] {
      if name in names[1..] {
        var i :| 0 <= i < |names[1..]| && names[1..][i] == name;
        assert Before(names[0], names[i + 1]);
      }
    }
  }

  lemma NoKeysNoNames(names: seq<string>, keys: set<string>)
    requires SortedKeys(names, keys)
    ensures names == [] <==> keys == {}
  {
    if names != [] {
      assert names[0] in keys;
    }
    if keys != {} {
      var name :| name in keys;
      assert name in names;
    }
  }

  lemma FirstIsLeast(names: seq<string>, keys: set<string>, name: string)
    requires SortedKeys(names, keys) && name in keys
    ensures names != [] && (names[0] == name || Before(names[0], name))
  {
    var i :| 0 <= i < |names| && names[i] == name;
  }

  /** One profile set has one order, so the text is the same at every start. */
  lemma {:induction false} SortedKeysAreUnique(a: seq<string>, b: seq<string>, keys: set<string>)
    requires SortedKeys(a, keys) && SortedKeys(b, keys)
    ensures a == b
    decreases |a|
  {
    NoKeysNoNames(a, keys);
    NoKeysNoNames(b, keys);
    if a != [] {
      assert a[0] in keys && b[0] in keys;
      FirstIsLeast(a, keys, b[0]);
      FirstIsLeast(b, keys, a[0]);
      BeforeIsTotal(a[0], b[0]);
      SortedTail(a, keys);
      SortedTail(b, keys);
      SortedKeysAreUnique(a[1..], b[1..], keys - {a[0]});
      assert a == [a[0]] + a[1..] && b == [b[0]] + b[1..];
    }
  }

  // ---- The budgeted listing

  function Joined(lines: seq<string>): string {
    if lines == [] then "" else Joined(lines[..|lines| - 1]) + lines[|lines| - 1]
  }

  /** Texts one after another. */
  lemma {:induction false} JoinedConcat(a: seq<string>, b: seq<string>, line: string)
    ensures Joined(a + b) == Joined(a) + Joined(b) && Joined([line]) == line
  {
    if b == [] {
      assert a + b == a;
    } else {
      var n := |b| - 1;
      assert (a + b)[..|a + b| - 1] == a + b[..n];
      JoinedConcat(a, b[..n], line);
      Associates(Joined(a), Joined(b[..n]), b[n]);
    }
    assert [line][..0] == [];
  }

  /** The room kept for the line that says how many are left out. */
  function Reserve(more: nat -> string, rest: nat): nat { if rest > 0 then |more(rest)| else 0 }

  /** The text with the first k lines listed. */
  function Listing(more: nat -> string, base: string, lines: seq<string>, k: nat): string
    requires k <= |lines|
  {
    if k < |lines| then base + Joined(lines[..k]) + more(|lines| - k) else base + Joined(lines[..k])
  }

  function LengthTo(base: string, lines: seq<string>, i: nat): nat
    requires i <= |lines|
  {
    |base| + |Joined(lines[..i])|
  }

  /** Line i and the notice after it fit. */
  predicate Fits(more: nat -> string, limit: nat, base: string, lines: seq<string>, i: nat)
    requires i < |lines|
  {
    LengthTo(base, lines, i) + |lines[i]| + Reserve(more, |lines| - i - 1) <= limit
  }

  /** How many lines are listed: up to the first that does not fit. */
  predicate Cut(more: nat -> string, limit: nat, base: string, lines: seq<string>, k: nat) {
    && k <= |lines| && (forall i | 0 <= i < k :: Fits(more, limit, base, lines, i))
    && (k < |lines| ==> !Fits(more, limit, base, lines, k))
  }

  function LinesOf(names: seq<string>, profs: map<string, Profile>): seq<string>
    requires forall name | name in names :: name in profs
  {
    seq(|names|, i requires 0 <= i < |names| => ProfileLine(names[i], profs[names[i]]))
  }

  lemma LengthGrows(base: string, lines: seq<string>, i: nat)
    requires i < |lines|
    ensures LengthTo(base, lines, i + 1) == LengthTo(base, lines, i) + |lines[i]|
    ensures Joined(lines[..i + 1]) == Joined(lines[..i]) + lines[i]
  {
    assert lines[..i + 1][..i] == lines[..i];
  }

  /** The loop, over lines already rendered. */
  method ListLines(more: nat -> string, limit: nat, base: string, lines: seq<string>) returns (text: string, k: nat)
    ensures Cut(more, limit, base, lines, k) && text == Listing(more, base, lines, k)
  {
    text, k := base, 0;
    while k < |lines|
      invariant k <= |lines| && text == base + Joined(lines[..k])
      invariant forall i | 0 <= i < k :: Fits(more, limit, base, lines, i)
    {
      var reserve := 0;
      var rest := |lines| - k - 1;
      if rest > 0 {
        reserve := |more(rest)|;
      }
      if |text| + |lines[k]| + reserve > limit {
        text := text + more(|lines| - k);
        break;
      }
      LengthGrows(base, lines, k);
      text := text + lines[k];
      k := k + 1;
    }
  }

  lemma CutIsUnique(more: nat -> string, limit: nat, base: string, lines: seq<string>, k: nat, m: nat)
    requires Cut(more, limit, base, lines, k) && Cut(more, limit, base, lines, m)
    ensures k == m
  {
  }

  /** How many lines from i on are listed, counted from the start. */
  function Listed(more: nat -> string, limit: nat, base: string, lines: seq<string>, i: nat): (k: nat)
    requires i <= |lines| && forall j | 0 <= j < i :: Fits(more, limit, base, lines, j)
    ensures Cut(more, limit, base, lines, k)
    decreases |lines| - i
  {
    if i == |lines| || !Fits(more, limit, base, lines, i) then i else Listed(more, limit, base, lines, i + 1)
  }

  method BuildServerInstructions(base: string, profs: map<string, Profile>, names: seq<string>) returns (text: string)
    requires SortedKeys(names, profs.Keys)
    ensures var lines := LinesOf(names, profs);
            text == Listing(MoreProfilesLine, base, lines, Listed(MoreProfilesLine, MAX_TEXT_LEN, base, lines, 0))
  {
    var lines := LinesOf(names, profs);
    var k;
    text, k := ListLines(MoreProfilesLine, MAX_TEXT_LEN, base, lines);
    CutIsUnique(MoreProfilesLine, MAX_TEXT_LEN, base, lines, k, Listed(MoreProfilesLine, MAX_TEXT_LEN, base, lines, 0));
  }

  lemma ListingLength(more: nat -> string, base: string, lines: seq<string>, k: nat)
    requires k <= |lines|
    ensures |Listing(more, base, lines, k)| == LengthTo(base, lines, k) + Reserve(more, |lines| - k)
  {
  }

  /** A line fits when the listing that ends after it, with its notice, is within the limit. */
  lemma LineFitsIff(more: nat -> string, limit: nat, base: string, lines: seq<string>, i: nat)
    requires i < |lines|
    ensures Fits(more, limit, base, lines, i) <==> |Listing(more, base, lines, i + 1)| <= limit
  {
    LengthGrows(base, lines, i);
    ListingLength(more, base, lines, i + 1);
  }

  lemma NoticeIs(n: nat, notice: string)
    requires notice == " more: gno_profile_list lists every profile.\n"
    ensures MoreProfilesLine(n) == "- " + Decimal(n) + notice
  {
  }

  /**
   The text stays within the limit exactly when the static text does with the notice that
   every profile is left out, or with the first profile's line and the notice after it.
   The room kept for the next notice is what makes every later step fit.
   */
  lemma TextFitsIff(more: nat -> string, limit: nat, base: string, lines: seq<string>, k: nat)
    requires Cut(more, limit, base, lines, k)
    ensures |Listing(more, base, lines, k)| <= limit
            <==> |base| + Reserve(more, |lines|) <= limit || (lines != [] && Fits(more, limit, base, lines, 0))
  {
    ListingLength(more, base, lines, k);
    assert lines[..0] == [];
    if k > 0 {
      LengthGrows(base, lines, k - 1);
      assert Fits(more, limit, base, lines, k - 1);
      assert Fits(more, limit, base, lines, 0);
    }
  }

  /** A notice about more profiles is at most that many digits longer. */
  ghost predicate GrowsSlowly(more: nat -> string) {
    forall m: nat, n: nat | 0 < n <= m :: |more(m)| - |more(n)| <= m - n
  }

  lemma {:induction false} OneMoreDigit(n: nat)
    ensures |Decimal(n + 1)| <= |Decimal(n)| + 1
  {
    if n + 1 >= 10 {
      if n >= 10 && (n + 1) / 10 != n / 10 {
        OneMoreDigit(n / 10);
        assert (n + 1) / 10 == n / 10 + 1;
      }
    }
  }

  lemma {:induction false} DecimalGrowsSlowly(m: nat, n: nat)
    requires n <= m
    ensures |Decimal(m)| - |Decimal(n)| <= m - n
    decreases m - n
  {
    if n < m {
      DecimalGrowsSlowly(m - 1, n);
      OneMoreDigit(m - 1);
    }
  }

  lemma MoreGrowsSlowly()
    ensures GrowsSlowly(MoreProfilesLine)
  {
    forall m: nat, n: nat | 0 < n <= m ensures |MoreProfilesLine(m)| - |MoreProfilesLine(n)| <= m - n {
      DecimalGrowsSlowly(m, n);
    }
  }

  lemma {:induction false} LengthSpread(base: string, lines: seq<string>, i: nat, j: nat)
    requires i <= j <= |lines| && forall l | 0 <= l < |lines| :: |lines[l]| >= 1
    ensures LengthTo(base, lines, j) >= LengthTo(base, lines, i) + (j - i)
    decreases j - i
  {
    if i < j {
      LengthSpread(base, lines, i, j - 1);
      LengthGrows(base, lines, j - 1);
    }
  }

  lemma NoLongerFits(more: nat -> string, limit: nat, base: string, lines: seq<string>, k: nat, j: nat)
    requires k < j < |lines| && !Fits(more, limit, base, lines, k) && GrowsSlowly(more)
    requires forall l | 0 <= l < |lines| :: |lines[l]| >= 1
    ensures |Listing(more, base, lines, j)| > limit
  {
    ListingLength(more, base, lines, j);
    LengthGrows(base, lines, k);
    LengthSpread(base, lines, k + 1, j);
    var m: nat := |lines| - k - 1;
    var n: nat := |lines| - j;
    assert |more(m)| - |more(n)| <= m - n;
  }

  /**
   No longer listing would have fit, except the complete one: the reserve kept for a notice
   can be longer than all the lines it stands for. So the listing is the longest that fits
   exactly when every line fits with its notice or the complete listing does not fit.
   */
  lemma ListingIsLongestIff(more: nat -> string, limit: nat, base: string, lines: seq<string>, k: nat)
    requires Cut(more, limit, base, lines, k) && GrowsSlowly(more)
    requires forall l | 0 <= l < |lines| :: |lines[l]| >= 1
    ensures (forall j | k < j <= |lines| :: |Listing(more, base, lines, j)| > limit)
            <==> (forall i | 0 <= i < |lines| :: Fits(more, limit, base, lines, i)) || LengthTo(base, lines, |lines|) > limit
  {
    ListingLength(more, base, lines, |lines|);
    forall j | k < j < |lines| ensures |Listing(more, base, lines, j)| > limit {
      NoLongerFits(more, limit, base, lines, k, j);
    }
  }

  // ---- The exception is real

  /** A local node, and fourteen of them under one-letter names. */
  const LOCAL_NODE := Profile("dev", "http://h", false, false, "", "")

  function Letters(n: nat): seq<string>
    requires n <= 26
  {
    seq(n, i requires 0 <= i < n => ['a' + i as char])
  }

  function SameProfiles(names: seq<string>, p: Profile): map<string, Profile> { map name | name in names :: p }

  lemma LettersAreSorted(n: nat, p: Profile)
    requires n <= 26
    ensures SortedKeys(Letters(n), SameProfiles(Letters(n), p).Keys)
  {
  }

  lemma {:induction false} EqualLines(base: string, lines: seq<string>, each: nat, i: nat)
    requires i <= |lines| && forall l | 0 <= l < |lines| :: |lines[l]| == each
    ensures LengthTo(base, lines, i) == |base| + each * i
  {
    if i > 0 {
      EqualLines(base, lines, each, i - 1);
      LengthGrows(base, lines, i - 1);
      assert each * i == each * (i - 1) + each;
    }
  }

  lemma LocalLineLength(name: string, p: Profile)
    requires |name| == 1 && p == LOCAL_NODE
    ensures |ProfileLine(name, p)| == 28
  {
  }

  lemma NoticeLength(n: nat)
    requires 0 < n <= 13
    ensures |MoreProfilesLine(n)| == if n < 10 then 48 else 49
  {
    assert n >= 10 ==> |Decimal(n / 10)| == 1;
  }

  lemma TwelveOfFourteen(more: nat -> string, base: string, lines: seq<string>)
    requires |base| == 1651 && |lines| == 14 && forall l | 0 <= l < 14 :: |lines[l]| == 28
    requires forall n: nat | 0 < n <= 13 :: |more(n)| == if n < 10 then 48 else 49
    ensures Cut(more, 2048, base, lines, 12) && |Listing(more, base, lines, 14)| <= 2048
  {
    forall i: nat | i < 12 ensures Fits(more, 2048, base, lines, i) {
      EqualLines(base, lines, 28, i);
    }
    EqualLines(base, lines, 28, 12);
    EqualLines(base, lines, 28, 14);
    ListingLength(more, base, lines, 14);
  }

  /**
   Fourteen local profiles fit, yet the last two are left out for the sake of a longer
   notice. 1651 characters is what the fixed guidance and heading come to.
   */
  lemma ShortProfilesAreLeftOut(base: string, names: seq<string>, profs: map<string, Profile>, lines: seq<string>)
    requires |base| == 1651 && names == Letters(14) && profs == SameProfiles(names, LOCAL_NODE) && lines == LinesOf(names, profs)
    ensures SortedKeys(names, profs.Keys)
    ensures Listed(MoreProfilesLine, MAX_TEXT_LEN, base, lines, 0) == 12
    ensures |Listing(MoreProfilesLine, base, lines, 14)| <= MAX_TEXT_LEN
  {
    LettersAreSorted(14, LOCAL_NODE);
    forall l | 0 <= l < 14 ensures |lines[l]| == 28 {
      LocalLineLength(names[l], profs[names[l]]);
    }
    forall n: nat | 0 < n <= 13 ensures |MoreProfilesLine(n)| == if n < 10 then 48 else 49 {
      NoticeLength(n);
    }
    TwelveOfFourteen(MoreProfilesLine, base, lines);
    CutIsUnique(MoreProfilesLine, MAX_TEXT_LEN, base, lines, 12, Listed(MoreProfilesLine, MAX_TEXT_LEN, base, lines, 0));
  }
}
