/**
 The shell command that authorizes a session (internal/session/gnokey.go:22-46), read back
 the way a shell and gnokey's flag parser read it: a backslash-newline joins lines, blanks
 separate words, and a flag's value is the word after it. Shell quoting is not modelled,
 so the values put in must be plain words.
 */
module GnokeyCommand {
  import opened Prelude
  import opened Coins
  import opened GasPrice
  import opened AllowPaths
  import opened SessionScope

  predicate Blank(c: char) { c == ' ' || c == '\t' }

  /** A word of its own for the shell. */
  predicate Plain(w: string) { w != "" && forall i | 0 <= i < |w| :: !Blank(w[i]) && w[i] != '\n' && w[i] != '\\' }

  predicate IsFlag(w: string) { w != "" && w[0] == '-' }

  predicate PlainFlag(w: string) { Plain(w) && IsFlag(w) }

  predicate PlainValue(w: string) { Plain(w) && !IsFlag(w) }

  /** cur is the word being read; a newline that joins no lines ends the command. */
  function Words(s: string, cur: string): seq<string>
    decreases |s|
  {
    var done := if cur == "" then [] else [cur];
    if s == "" || s[0] == '\n' then done
    else if s[0] == '\\' && |s| > 1 && s[1] == '\n' then Words(s[2..], cur)
    else if Blank(s[0]) then done + Words(s[1..], "")
    else Words(s[1..], cur + [s[0]])
  }

  /** The values a flag is given, in order. */
  function Values(words: seq<string>, flag: string): seq<string>
    decreases |words|
  {
    if |words| < 2 then []
    else if words[0] == flag then [words[1]] + Values(words[2..], flag)
    else Values(words[1..], flag)
  }

  // ---- The command's text

  const JOIN := "\\\n"

  /** Words, each followed by a space. */
  function Spaced(words: seq<string>, rest: string): string {
    if words == [] then rest else words[0] + (" " + Spaced(words[1..], rest))
  }

  datatype Line = Line(flag: string, value: string)

  function Text(line: Line): string { "  " + Spaced([line.flag, line.value], JOIN) }

  /** Line after line, in some layout. */
  function Texts(text: Line -> string, lines: seq<Line>): string {
    if lines == [] then "" else Texts(text, lines[..|lines| - 1]) + text(lines[|lines| - 1])
  }

  function PathLines(flag: string, tokens: seq<string>): seq<Line> {
    if tokens == [] then [] else PathLines(flag, tokens[..|tokens| - 1]) + [Line(flag, tokens[|tokens| - 1])]
  }

  /** The fixed words of the command. */
  datatype Syntax = Syntax(
    head: seq<string>, pubkey: string, allowPaths: string, spendLimit: string, expiresAt: string, gasFee: string,
    gasWanted: string, remote: string, chainId: string, broadcast: string, key: string)

  const GNOKEY := Syntax(
    ["gnokey", "maketx", "session", "create"], "--pubkey", "--allow-paths", "--spend-limit", "--expires-at", "--gas-fee",
    "--gas-wanted", "--remote", "--chainid", "--broadcast", "<your-master-key-name>")

  datatype Request = Request(pubkey: string, scope: Scope, expiresAt: int, feeUgnot: int64, remote: string, chainId: string)

  function GasFee(feeUgnot: int64): string {
    FormatInt(if feeUgnot > 0 then feeUgnot as int else DEFAULT_GAS_FEE_UGNOT as int) + UGNOT
  }

  /** The words a request fills in. */
  datatype Filled = Filled(pubkey: string, spendLimit: string, expiresAt: string, gasFee: string, gasWanted: string, remote: string, chainId: string)

  function Fill(r: Request): Filled {
    Filled(r.pubkey, r.scope.spendLimit, FormatInt(r.expiresAt), GasFee(r.feeUgnot), FormatInt(DEFAULT_GAS_WANTED as int), r.remote, r.chainId)
  }

  function First(x: Syntax, w: Filled): seq<Line> { [Line(x.pubkey, w.pubkey)] }

  function Rest(x: Syntax, w: Filled): seq<Line> {
    [Line(x.spendLimit, w.spendLimit), Line(x.expiresAt, w.expiresAt), Line(x.gasFee, w.gasFee),
     Line(x.gasWanted, w.gasWanted), Line(x.remote, w.remote), Line(x.chainId, w.chainId)]
  }

  /** The settings the command carries, in order. */
  function Lines(x: Syntax, w: Filled, tokens: seq<string>): seq<Line> {
    First(x, w) + PathLines(x.allowPaths, tokens) + Rest(x, w)
  }

  function Head(x: Syntax): string { Spaced(x.head, JOIN) }

  function Tail(x: Syntax): string { "  " + Spaced([x.broadcast], JOIN) + ("  " + x.key) }

  function Command(x: Syntax, lines: seq<Line>): string { Head(x) + Texts(Text, lines) + Tail(x) }

  lemma AnotherPathLine(text: Line -> string, flag: string, tokens: seq<string>, token: string)
    ensures Texts(text, PathLines(flag, tokens + [token])) == Texts(text, PathLines(flag, tokens)) + text(Line(flag, token))
  {
    var lines := PathLines(flag, tokens);
    assert (tokens + [token])[..|tokens|] == tokens;
    assert (lines + [Line(flag, token)])[..|lines|] == lines;
  }

  lemma {:induction false} TextsConcat(text: Line -> string, a: seq<Line>, b: seq<Line>)
    ensures Texts(text, a + b) == Texts(text, a) + Texts(text, b)
  {
    if b == [] {
      assert a + b == a;
    } else {
      var n := |b| - 1;
      assert (a + b)[..|a + b| - 1] == a + b[..n];
      TextsConcat(text, a, b[..n]);
      Associates(Texts(text, a), Texts(text, b[..n]), text(b[n]));
    }
  }

  /** One flag a path, then one for code runs. */
  method AppendPaths(text: Line -> string, before: string, flag: string, exec: string, run: string, paths: seq<string>, allowRun: bool)
    returns (s: string)
    ensures s == before + Texts(text, PathLines(flag, Prefixed(exec, paths) + if allowRun then [run] else []))
  {
    s := before;
    for i := 0 to |paths|
      invariant s == before + Texts(text, PathLines(flag, Prefixed(exec, paths[..i])))
    {
      s := s + text(Line(flag, exec + paths[i]));
      AnotherPathLine(text, flag, Prefixed(exec, paths[..i]), exec + paths[i]);
      Associates(before, Texts(text, PathLines(flag, Prefixed(exec, paths[..i]))), text(Line(flag, exec + paths[i])));
      assert paths[..i + 1][..i] == paths[..i];
    }
    assert paths[..|paths|] == paths;
    if allowRun {
      s := s + text(Line(flag, run));
      AnotherPathLine(text, flag, Prefixed(exec, paths), run);
      Associates(before, Texts(text, PathLines(flag, Prefixed(exec, paths))), text(Line(flag, run)));
    } else {
      assert Prefixed(exec, paths) + [] == Prefixed(exec, paths);
    }
  }

  method Assemble(text: Line -> string, head: string, first: seq<Line>, flag: string, exec: string, run: string, scope: Scope,
                  rest: seq<Line>, tail: string) returns (s: string)
    ensures s == head + Texts(text, first + PathLines(flag, Prefixed(exec, scope.allowPaths) + if scope.allowRun then [run] else []) + rest) + tail
  {
    ghost var middle := PathLines(flag, Prefixed(exec, scope.allowPaths) + if scope.allowRun then [run] else []);
    s := head + Texts(text, first);
    s := AppendPaths(text, s, flag, exec, run, scope.allowPaths, scope.allowRun);
    Associates(head, Texts(text, first), Texts(text, middle));
    TextsConcat(text, first, middle);
    s := s + Texts(text, rest);
    Associates(head, Texts(text, first + middle), Texts(text, rest));
    TextsConcat(text, first + middle, rest);
    s := s + tail;
  }

  method FormatCreateCommand(r: Request) returns (s: string)
    ensures s == Command(GNOKEY, Lines(GNOKEY, Fill(r), Tokens(r.scope.allowPaths, r.scope.allowRun)))
  {
    var (x, w) := (GNOKEY, Fill(r));
    s := Assemble(Text, Head(x), First(x, w), x.allowPaths, EXEC, RUN, r.scope, Rest(x, w), Tail(x));
    assert Tokens(r.scope.allowPaths, r.scope.allowRun) == Prefixed(EXEC, r.scope.allowPaths) + if r.scope.allowRun then [RUN] else [];
  }

  // ---- Reading it back

  lemma {:induction false} WordRead(w: string, rest: string, cur: string)
    requires w == "" || Plain(w)
    ensures Words(w + rest, cur) == Words(rest, cur + w)
    decreases |w|
  {
    if w == "" {
      assert w + rest == rest && cur + w == cur;
    } else {
      assert (w + rest)[1..] == w[1..] + rest;
      assert (w + rest)[0] == w[0] && !Blank(w[0]) && w[0] != '\n' && w[0] != '\\';
      WordRead(w[1..], rest, cur + [w[0]]);
      assert cur + [w[0]] + w[1..] == cur + w;
    }
  }

  lemma BlankRead(rest: string, cur: string)
    ensures Words(" " + rest, cur) == (if cur == "" then [] else [cur]) + Words(rest, "")
  {
    assert (" " + rest)[1..] == rest;
  }

  lemma JoinRead(rest: string)
    ensures Words(JOIN + rest, "") == Words(rest, "")
  {
    assert (JOIN + rest)[2..] == rest;
  }

  predicate AllPlain(words: seq<string>) { forall i | 0 <= i < |words| :: Plain(words[i]) }

  lemma {:induction false} SpacedRead(words: seq<string>, rest: string)
    requires AllPlain(words)
    ensures Words(Spaced(words, rest), "") == words + Words(rest, "")
  {
    if words == [] {
      assert words + Words(rest, "") == Words(rest, "");
    } else {
      var (w, more) := (words[0], Spaced(words[1..], rest));
      WordRead(w, " " + more, "");
      assert "" + w == w;
      BlankRead(more, w);
      SpacedRead(words[1..], rest);
      assert words == [w] + words[1..];
    }
  }

  lemma {:induction false} SpacedThen(words: seq<string>, a: string, b: string)
    ensures Spaced(words, a) + b == Spaced(words, a + b)
  {
    if words != [] {
      var more := Spaced(words[1..], a);
      SpacedThen(words[1..], a, b);
      Associates(words[0], " " + more, b);
      Associates(" ", more, b);
    }
  }

  /** A joined row reads as its words and leaves no word half read. */
  lemma RowRead(words: seq<string>, rest: string)
    requires AllPlain(words)
    ensures Words(Spaced(words, JOIN) + rest, "") == words + Words(rest, "")
  {
    SpacedThen(words, JOIN, rest);
    SpacedRead(words, JOIN + rest);
    JoinRead(rest);
  }

  lemma IndentRead(row: string, rest: string)
    ensures Words("  " + row + rest, "") == Words(row + rest, "")
  {
    assert "  " + row + rest == " " + (" " + (row + rest));
    BlankRead(" " + (row + rest), "");
    BlankRead(row + rest, "");
  }

  lemma TailRead(x: Syntax)
    requires Plain(x.broadcast) && Plain(x.key)
    ensures Words(Tail(x), "") == [x.broadcast, x.key]
  {
    IndentRead(Spaced([x.broadcast], JOIN), "  " + x.key);
    RowRead([x.broadcast], "  " + x.key);
    IndentRead(x.key, "");
    assert "  " + x.key + "" == "  " + x.key;
    WordRead(x.key, "", "");
    assert "" + x.key == x.key;
  }

  predicate PlainLine(line: Line) { PlainFlag(line.flag) && PlainValue(line.value) }

  predicate PlainLines(lines: seq<Line>) { forall i | 0 <= i < |lines| :: PlainLine(lines[i]) }

  lemma LineRead(line: Line, rest: string)
    requires PlainLine(line)
    ensures Words(Text(line) + rest, "") == [line.flag, line.value] + Words(rest, "")
  {
    IndentRead(Spaced([line.flag, line.value], JOIN), rest);
    RowRead([line.flag, line.value], rest);
  }

  function Flat(lines: seq<Line>): seq<string> {
    if lines == [] then [] else Flat(lines[..|lines| - 1]) + [lines[|lines| - 1].flag, lines[|lines| - 1].value]
  }

  lemma {:induction false} LinesRead(lines: seq<Line>, rest: string)
    requires PlainLines(lines)
    ensures Words(Texts(Text, lines) + rest, "") == Flat(lines) + Words(rest, "")
  {
    if lines == [] {
      assert Texts(Text, lines) + rest == rest;
    } else {
      var n := |lines| - 1;
      var last := lines[n];
      assert PlainLine(last);
      Associates(Texts(Text, lines[..n]), Text(last), rest);
      LinesRead(lines[..n], Text(last) + rest);
      LineRead(last, rest);
      assert Flat(lines[..n]) + ([last.flag, last.value] + Words(rest, "")) == Flat(lines) + Words(rest, "");
    }
  }

  /** What the settings say of one flag. */
  function Given(lines: seq<Line>, flag: string): seq<string> {
    if lines == [] then []
    else
      var n := |lines| - 1;
      Given(lines[..n], flag) + if lines[n].flag == flag then [lines[n].value] else []
  }

  lemma OneSetting(f: string, v: string, tail: seq<string>, flag: string)
    requires IsFlag(flag) && !IsFlag(v)
    ensures Values([f, v] + tail, flag) == (if f == flag then [v] else []) + Values(tail, flag)
  {
    assert ([f, v] + tail)[2..] == tail;
    assert ([f, v] + tail)[1..] == [v] + tail;
    assert ([v] + tail)[1..] == tail;
  }

  lemma {:induction false} ValuesOfSettings(lines: seq<Line>, tail: seq<string>, flag: string)
    requires PlainLines(lines) && IsFlag(flag)
    ensures Values(Flat(lines) + tail, flag) == Given(lines, flag) + Values(tail, flag)
  {
    if lines == [] {
      assert Flat(lines) + tail == tail;
    } else {
      var n := |lines| - 1;
      var (f, v) := (lines[n].flag, lines[n].value);
      assert PlainLine(lines[n]);
      assert Flat(lines) + tail == Flat(lines[..n]) + ([f, v] + tail);
      ValuesOfSettings(lines[..n], [f, v] + tail, flag);
      OneSetting(f, v, tail, flag);
    }
  }

  predicate NoFlags(words: seq<string>) { forall i | 0 <= i < |words| :: !IsFlag(words[i]) }

  lemma {:induction false} ValuesSkip(words: seq<string>, rest: seq<string>, flag: string)
    requires NoFlags(words) && IsFlag(flag)
    ensures Values(words + rest, flag) == Values(rest, flag)
  {
    if words == [] {
      assert words + rest == rest;
    } else {
      assert (words + rest)[1..] == words[1..] + rest;
      assert !IsFlag(words[0]);
      ValuesSkip(words[1..], rest, flag);
    }
  }

  predicate PlainSyntax(x: Syntax) {
    && AllPlain(x.head) && NoFlags(x.head) && PlainFlag(x.broadcast) && Plain(x.key)
    && PlainFlag(x.pubkey) && PlainFlag(x.allowPaths) && PlainFlag(x.spendLimit) && PlainFlag(x.expiresAt)
    && PlainFlag(x.gasFee) && PlainFlag(x.gasWanted) && PlainFlag(x.remote) && PlainFlag(x.chainId)
  }

  /** The setting flags, in the order of their lines. */
  function Flags(x: Syntax): (flags: seq<string>)
    ensures |flags| == 8
  {
    [x.pubkey, x.allowPaths, x.spendLimit, x.expiresAt, x.gasFee, x.gasWanted, x.remote, x.chainId]
  }

  predicate DistinctFlags(x: Syntax) {
    x.broadcast !in Flags(x) && forall i, j | 0 <= i < j < 8 :: Flags(x)[i] != Flags(x)[j]
  }

  /** The command's words: the fixed ones around the settings, each a flag and then its value. */
  lemma CommandReads(x: Syntax, lines: seq<Line>)
    requires PlainSyntax(x) && PlainLines(lines)
    ensures Words(Command(x, lines), "") == x.head + (Flat(lines) + [x.broadcast, x.key])
  {
    Associates(Head(x), Texts(Text, lines), Tail(x));
    RowRead(x.head, Texts(Text, lines) + Tail(x));
    LinesRead(lines, Tail(x));
    TailRead(x);
  }

  /** Every flag but --broadcast reads back as exactly the values the settings give it. */
  lemma SettingsReadBack(x: Syntax, lines: seq<Line>, flag: string)
    requires PlainSyntax(x) && PlainLines(lines) && IsFlag(flag) && flag != x.broadcast
    ensures Values(Words(Command(x, lines), ""), flag) == Given(lines, flag)
  {
    var tail := [x.broadcast, x.key];
    CommandReads(x, lines);
    ValuesSkip(x.head, Flat(lines) + tail, flag);
    ValuesOfSettings(lines, tail, flag);
    assert tail[1..] == [x.key];
  }

  // ---- The settings of a session request

  lemma {:induction false} GivenConcat(a: seq<Line>, b: seq<Line>, flag: string)
    ensures Given(a + b, flag) == Given(a, flag) + Given(b, flag)
  {
    if b == [] {
      assert a + b == a;
    } else {
      var n := |b| - 1;
      assert (a + b)[..|a + b| - 1] == a + b[..n];
      GivenConcat(a, b[..n], flag);
    }
  }

  lemma {:induction false} NotGiven(lines: seq<Line>, flag: string)
    requires forall i | 0 <= i < |lines| :: lines[i].flag != flag
    ensures Given(lines, flag) == []
  {
    if lines != [] {
      NotGiven(lines[..|lines| - 1], flag);
    }
  }

  lemma {:induction false} PathLinesAre(f: string, tokens: seq<string>)
    ensures |PathLines(f, tokens)| == |tokens|
    ensures forall i | 0 <= i < |tokens| :: PathLines(f, tokens)[i] == Line(f, tokens[i])
  {
    if tokens != [] {
      PathLinesAre(f, tokens[..|tokens| - 1]);
    }
  }

  lemma GivenOneMore(lines: seq<Line>, line: Line, flag: string)
    ensures Given(lines + [line], flag) == Given(lines, flag) + if line.flag == flag then [line.value] else []
  {
    assert (lines + [line])[..|lines|] == lines;
  }

  lemma {:induction false} PathsGiven(f: string, tokens: seq<string>, flag: string)
    ensures Given(PathLines(f, tokens), flag) == if f == flag then tokens else []
  {
    if tokens != [] {
      var n := |tokens| - 1;
      PathsGiven(f, tokens[..n], flag);
      GivenOneMore(PathLines(f, tokens[..n]), Line(f, tokens[n]), flag);
      assert tokens == tokens[..n] + [tokens[n]];
    }
  }

  lemma GivenAround(a: seq<Line>, b: seq<Line>, c: seq<Line>, flag: string)
    ensures Given(a + b + c, flag) == Given(a, flag) + Given(b, flag) + Given(c, flag)
  {
    GivenConcat(a + b, c, flag);
    GivenConcat(a, b, flag);
  }

  lemma {:induction false} GivenOnce(lines: seq<Line>, i: nat, flag: string)
    requires i < |lines| && flag == lines[i].flag
    requires forall j | 0 <= j < |lines| && j != i :: lines[j].flag != flag
    ensures Given(lines, flag) == [lines[i].value]
  {
    var n := |lines| - 1;
    if i < n {
      GivenOnce(lines[..n], i, flag);
    } else {
      NotGiven(lines[..n], flag);
    }
  }

  lemma RestGiven(x: Syntax, w: Filled, i: nat)
    requires DistinctFlags(x) && i < 6
    ensures Rest(x, w)[i].flag == Flags(x)[i + 2] && Given(Rest(x, w), Flags(x)[i + 2]) == [Rest(x, w)[i].value]
    ensures forall k | 0 <= k < 2 :: Rest(x, w)[i].flag != Flags(x)[k]
  {
    var rest := Rest(x, w);
    assert forall k | 0 <= k < 6 :: rest[k].flag == Flags(x)[k + 2];
    GivenOnce(rest, i, rest[i].flag);
  }

  lemma RestFlags(x: Syntax, w: Filled)
    requires DistinctFlags(x)
    ensures forall i | 0 <= i < 6 :: Rest(x, w)[i].flag != x.pubkey && Rest(x, w)[i].flag != x.allowPaths
  {
    forall i: nat | i < 6 ensures Rest(x, w)[i].flag != x.pubkey && Rest(x, w)[i].flag != x.allowPaths {
      RestGiven(x, w, i);
      assert Flags(x)[0] == x.pubkey && Flags(x)[1] == x.allowPaths;
    }
  }

  lemma RestInRequest(x: Syntax, w: Filled, tokens: seq<string>, i: nat, flag: string)
    requires DistinctFlags(x) && i < 6 && flag == Flags(x)[i + 2]
    ensures Given(Lines(x, w, tokens), flag) == [Rest(x, w)[i].value]
  {
    RestGiven(x, w, i);
    assert x.pubkey == Flags(x)[0] && x.allowPaths == Flags(x)[1];
    NotGiven(First(x, w), flag);
    PathsGiven(x.allowPaths, tokens, flag);
    GivenAround(First(x, w), PathLines(x.allowPaths, tokens), Rest(x, w), flag);
  }

  lemma GivenInRequest(x: Syntax, w: Filled, tokens: seq<string>)
    requires DistinctFlags(x)
    ensures Given(Lines(x, w, tokens), x.allowPaths) == tokens
    ensures Given(Lines(x, w, tokens), x.pubkey) == [w.pubkey]
  {
    var (first, rest) := (First(x, w), Rest(x, w));
    var paths := PathLines(x.allowPaths, tokens);
    assert x.pubkey == Flags(x)[0] && x.allowPaths == Flags(x)[1];
    RestFlags(x, w);
    NotGiven(rest, x.pubkey);
    NotGiven(rest, x.allowPaths);
    GivenOnce(first, 0, x.pubkey);
    NotGiven(first, x.allowPaths);
    PathsGiven(x.allowPaths, tokens, x.allowPaths);
    PathsGiven(x.allowPaths, tokens, x.pubkey);
    GivenAround(first, paths, rest, x.allowPaths);
    GivenAround(first, paths, rest, x.pubkey);
  }

  lemma DigitsArePlain(n: nat, w: string, denom: string)
    requires w == Decimal(n) + denom && (denom == "" || denom == UGNOT)
    ensures PlainValue(w)
  {
    DecimalReadsBack(n);
  }

  lemma SpendLimitIsPlain(s: string)
    requires SpendLimitValid(s)
    ensures PlainValue(s)
  {
    forall i | 0 <= i < |s| ensures !Blank(s[i]) && s[i] != '\n' && s[i] != '\\' {
      assert i < DigitRun(s) ==> s[i] == s[..DigitRun(s)][i];
    }
    assert s[0] == s[..DigitRun(s)][0];
  }

  lemma {:induction false} PrefixedArePlain(prefix: string, paths: seq<string>, isRealm: string -> bool)
    requires PlainValue(prefix) && AllPathsValid(paths, isRealm)
    ensures forall i | 0 <= i < |Prefixed(prefix, paths)| :: PlainValue(Prefixed(prefix, paths)[i])
  {
    if paths != [] {
      var n := |paths| - 1;
      assert ValidAllowPath(paths[n], isRealm);
      PrefixStaysValid(paths[..n], paths, isRealm);
      PrefixedArePlain(prefix, paths[..n], isRealm);
    }
  }

  predicate PlainValues(ws: seq<string>) { forall i | 0 <= i < |ws| :: PlainValue(ws[i]) }

  lemma TokensArePlain(paths: seq<string>, allowRun: bool, isRealm: string -> bool)
    requires AllPathsValid(paths, isRealm)
    ensures PlainValues(Tokens(paths, allowRun))
  {
    PrefixedArePlain(EXEC, paths, isRealm);
  }

  /** A request the tools can make: a scope the policy lets through, and ordinary names. */
  predicate Orderly(r: Request, isRealm: string -> bool) {
    && PlainValue(r.pubkey) && PlainValue(r.remote) && PlainValue(r.chainId) && r.expiresAt >= 0
    && AllPathsValid(r.scope.allowPaths, isRealm) && SpendLimitValid(r.scope.spendLimit)
  }

  predicate PlainFill(w: Filled) {
    && PlainValue(w.pubkey) && PlainValue(w.spendLimit) && PlainValue(w.expiresAt) && PlainValue(w.gasFee)
    && PlainValue(w.gasWanted) && PlainValue(w.remote) && PlainValue(w.chainId)
  }

  lemma OrderlyIsPlain(r: Request, isRealm: string -> bool)
    requires Orderly(r, isRealm)
    ensures PlainFill(Fill(r))
  {
    var (fee, wanted) := (if r.feeUgnot > 0 then r.feeUgnot as int else DEFAULT_GAS_FEE_UGNOT as int, DEFAULT_GAS_WANTED as int);
    SpendLimitIsPlain(r.scope.spendLimit);
    DigitsArePlain(r.expiresAt, FormatInt(r.expiresAt), "");
    DigitsArePlain(wanted, FormatInt(wanted), "");
    DigitsArePlain(fee, GasFee(r.feeUgnot), UGNOT);
  }

  lemma SixPlain(a: Line, b: Line, c: Line, d: Line, e: Line, f: Line)
    requires PlainLine(a) && PlainLine(b) && PlainLine(c) && PlainLine(d) && PlainLine(e) && PlainLine(f)
    ensures PlainLines([a, b, c, d, e, f])
  {
  }

  lemma RequestIsPlain(x: Syntax, w: Filled, tokens: seq<string>)
    requires PlainSyntax(x) && PlainFill(w) && PlainValues(tokens)
    ensures PlainLines(Lines(x, w, tokens))
  {
    var (first, paths, rest) := (First(x, w), PathLines(x.allowPaths, tokens), Rest(x, w));
    PathLinesAre(x.allowPaths, tokens);
    SixPlain(rest[0], rest[1], rest[2], rest[3], rest[4], rest[5]);
    assert PlainLine(first[0]);
    assert PlainLines(paths);
  }

  /** The third letter tells the flags apart, but for the two gas flags, which differ in length. */
  lemma GnokeyFlagsAreDistinct()
    ensures DistinctFlags(GNOKEY)
  {
    var (x, flags) := (GNOKEY, Flags(GNOKEY));
    var letters := ['p', 'a', 's', 'e', 'g', 'g', 'r', 'c'];
    assert forall i | 0 <= i < 8 :: |flags[i]| > 2 && flags[i][2] == letters[i];
    assert |flags[4]| == 9 && |flags[5]| == 12;
    assert x.broadcast[2] == 'b';
  }

  lemma GnokeyHeadIsPlain()
    ensures AllPlain(GNOKEY.head) && NoFlags(GNOKEY.head) && Plain(GNOKEY.key)
  {
  }

  lemma GnokeyPathFlagsArePlain()
    ensures PlainFlag(GNOKEY.broadcast) && PlainFlag(GNOKEY.pubkey) && PlainFlag(GNOKEY.allowPaths) && PlainFlag(GNOKEY.spendLimit)
  {
  }

  lemma GnokeyIsPlain()
    ensures PlainSyntax(GNOKEY)
  {
    GnokeyHeadIsPlain();
    GnokeyPathFlagsArePlain();
  }

  lemma RestReadsBack(x: Syntax, w: Filled, tokens: seq<string>, words: seq<string>, i: nat, flag: string)
    requires PlainSyntax(x) && DistinctFlags(x) && PlainFill(w) && PlainValues(tokens) && i < 6
    requires words == Words(Command(x, Lines(x, w, tokens)), "") && flag == Flags(x)[i + 2]
    ensures Values(words, flag) == [Rest(x, w)[i].value]
  {
    RequestIsPlain(x, w, tokens);
    RestInRequest(x, w, tokens, i, flag);
    SettingsReadBack(x, Lines(x, w, tokens), flag);
  }

  lemma ScopeFlagsReadBack(x: Syntax, w: Filled, tokens: seq<string>, words: seq<string>)
    requires PlainSyntax(x) && DistinctFlags(x) && PlainFill(w) && PlainValues(tokens)
    requires words == Words(Command(x, Lines(x, w, tokens)), "")
    ensures Values(words, x.pubkey) == [w.pubkey] && Values(words, x.allowPaths) == tokens
  {
    RequestIsPlain(x, w, tokens);
    GivenInRequest(x, w, tokens);
    assert x.pubkey == Flags(x)[0] && x.allowPaths == Flags(x)[1];
    SettingsReadBack(x, Lines(x, w, tokens), x.pubkey);
    SettingsReadBack(x, Lines(x, w, tokens), x.allowPaths);
  }

  lemma FieldsReadBack(x: Syntax, w: Filled, tokens: seq<string>, words: seq<string>)
    requires PlainSyntax(x) && DistinctFlags(x) && PlainFill(w) && PlainValues(tokens)
    requires words == Words(Command(x, Lines(x, w, tokens)), "")
    ensures Values(words, x.pubkey) == [w.pubkey] && Values(words, x.allowPaths) == tokens
    ensures Values(words, x.spendLimit) == [w.spendLimit] && Values(words, x.expiresAt) == [w.expiresAt]
    ensures Values(words, x.gasFee) == [w.gasFee] && Values(words, x.gasWanted) == [w.gasWanted]
    ensures Values(words, x.remote) == [w.remote] && Values(words, x.chainId) == [w.chainId]
  {
    ScopeFlagsReadBack(x, w, tokens, words);
    RestReadsBack(x, w, tokens, words, 0, x.spendLimit);
    RestReadsBack(x, w, tokens, words, 1, x.expiresAt);
    RestReadsBack(x, w, tokens, words, 2, x.gasFee);
    RestReadsBack(x, w, tokens, words, 3, x.gasWanted);
    RestReadsBack(x, w, tokens, words, 4, x.remote);
    RestReadsBack(x, w, tokens, words, 5, x.chainId);
  }

  /** What the request fills in: a fee that is not positive becomes the floor, the gas is fixed. */
  lemma FillIs(r: Request, w: Filled)
    requires r.expiresAt >= 0 && w == Fill(r)
    ensures w.pubkey == r.pubkey && w.spendLimit == r.scope.spendLimit && w.remote == r.remote && w.chainId == r.chainId
    ensures w.expiresAt == Decimal(r.expiresAt)
    ensures w.gasFee == Decimal(if r.feeUgnot > 0 then r.feeUgnot as int else 10_000) + "ugnot"
    ensures w.gasWanted == Decimal(10_000_000)
  {
  }

  /** Each flag of the command, by name, carries the request's own value. */
  lemma EachFlagCarriesItsValue(r: Request, isRealm: string -> bool, w: Filled, x: Syntax, text: string, words: seq<string>)
    requires Orderly(r, isRealm) && x == GNOKEY && w == Fill(r) && words == Words(text, "")
    requires text == Command(x, Lines(x, w, Tokens(r.scope.allowPaths, r.scope.allowRun)))
    ensures Values(words, "--pubkey") == [r.pubkey]
    ensures Values(words, "--allow-paths") == Tokens(r.scope.allowPaths, r.scope.allowRun)
    ensures Values(words, "--spend-limit") == [r.scope.spendLimit]
    ensures Values(words, "--expires-at") == [Decimal(r.expiresAt)]
    ensures Values(words, "--gas-fee") == [Decimal(if r.feeUgnot > 0 then r.feeUgnot as int else 10_000) + "ugnot"]
    ensures Values(words, "--gas-wanted") == [Decimal(10_000_000)]
    ensures Values(words, "--remote") == [r.remote]
    ensures Values(words, "--chainid") == [r.chainId]
  {
    GnokeyIsPlain();
    GnokeyFlagsAreDistinct();
    TokensArePlain(r.scope.allowPaths, r.scope.allowRun, isRealm);
    OrderlyIsPlain(r, isRealm);
    FillIs(r, w);
    FieldsReadBack(x, w, Tokens(r.scope.allowPaths, r.scope.allowRun), words);
  }

  /** Each setting has a line of its own, indented and joined to the next by a backslash and a newline; so has --broadcast. */
  lemma LayoutIs(x: Syntax, line: Line, join: string)
    requires join == " " + JOIN
    ensures Text(line) == "  " + (line.flag + " " + line.value + join)
    ensures Tail(x) == "  " + (x.broadcast + join) + ("  " + x.key)
    ensures JOIN == ['\\', '\n']
  {
    SpacedTwo(line.flag, line.value, JOIN, join);
    SpacedTwo(x.broadcast, x.broadcast, JOIN, join);
  }

  lemma SpacedTwo(a: string, b: string, last: string, join: string)
    requires join == " " + last
    ensures Spaced([b], last) == b + join
    ensures Spaced([a, b], last) == a + " " + b + join
  {
    assert [a, b][1..] == [b] && [b][1..] == [];
    assert Spaced([], last) == last;
    Associates(a, " ", b + join);
    Associates(a + " ", b, join);
  }

  /** It starts with the words of the create command and ends with the broadcast flag and the key's place. */
  lemma CommandIsACreate(r: Request, isRealm: string -> bool, text: string, words: seq<string>)
    requires Orderly(r, isRealm) && words == Words(text, "")
    requires text == Command(GNOKEY, Lines(GNOKEY, Fill(r), Tokens(r.scope.allowPaths, r.scope.allowRun)))
    ensures |words| >= 6 && words[..4] == ["gnokey", "maketx", "session", "create"]
    ensures words[|words| - 2..] == ["--broadcast", "<your-master-key-name>"]
  {
    var lines := Lines(GNOKEY, Fill(r), Tokens(r.scope.allowPaths, r.scope.allowRun));
    GnokeyIsPlain();
    TokensArePlain(r.scope.allowPaths, r.scope.allowRun, isRealm);
    OrderlyIsPlain(r, isRealm);
    RequestIsPlain(GNOKEY, Fill(r), Tokens(r.scope.allowPaths, r.scope.allowRun));
    CommandReads(GNOKEY, lines);
  }

  /**
   The command a user is handed asks for exactly the scope the policy let through: read
   back as words and flags, and split as the chain's record is, it gives the same paths in
   the same order, the same run permission and the same spend limit.
   */
  lemma ScopeReadsBack(r: Request, isRealm: string -> bool, x: Syntax, text: string)
    requires Orderly(r, isRealm) && x == GNOKEY
    requires text == Command(x, Lines(x, Fill(r), Tokens(r.scope.allowPaths, r.scope.allowRun)))
    ensures var tokens := Values(Words(text, ""), "--allow-paths");
            RealmPaths(tokens) == r.scope.allowPaths && (RUN in tokens <==> r.scope.allowRun)
    ensures Values(Words(text, ""), "--spend-limit") == [r.scope.spendLimit]
  {
    EachFlagCarriesItsValue(r, isRealm, Fill(r), x, text, Words(text, ""));
    SplitUndoesTokens(r.scope.allowPaths, r.scope.allowRun);
  }
}
