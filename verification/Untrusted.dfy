// The envelope around chain-derived text (internal/untrusted/untrusted.go). Text is a sequence
// of Unicode characters; the pattern (?i)<(\s*/?\s*untrusted_content) is spelled out as a
// predicate on the text after a '<'.
module Untrusted {
  import opened Prelude

  const NAME := "untrusted_content"
  const CLOSE_TAG := "<" + ("/" + (NAME + ">"))

  predicate IsSpace(c: char) { c == ' ' || c == '\t' || c == '\n' || c == '\r' || c == '\U{000C}' }

  /** Case-insensitive equality with a character of NAME: s also folds to the long s, U+017F. */
  predicate Folds(c: char, n: char) {
    c == n || ('a' <= n <= 'z' && c as int == n as int - 32) || (n == 's' && c == '\U{017F}')
  }

  predicate NameAt(u: string, i: nat) {
    i + |NAME| <= |u| && forall k | 0 <= k < |NAME| :: Folds(u[i + k], NAME[k])
  }

  predicate Spaces(u: string, i: nat, j: nat) { i <= j <= |u| && forall k | i <= k < j :: IsSpace(u[k]) }

  /** What the pattern says of a match of length n after the '<', whatever the regex engine does. */
  ghost predicate Matches(u: string, n: nat) {
    exists a: nat, b: nat, c: nat ::
      && Spaces(u, 0, a) && (b == a || (b == a + 1 && a < |u| && u[a] == '/'))
      && Spaces(u, b, c) && NameAt(u, c) && n == c + |NAME|
  }

  /** The first position from i on that holds no space. */
  function SpaceRun(u: string, i: nat): (j: nat)
    requires i <= |u|
    ensures Spaces(u, i, j) && (j < |u| ==> !IsSpace(u[j]))
    decreases |u| - i
  {
    if i < |u| && IsSpace(u[i]) then SpaceRun(u, i + 1) else i
  }

  /** The length of the match after a '<', found greedily. */
  function TagLength(u: string): (n: Option<nat>)
    ensures n.Some? ==> n.value <= |u|
  {
    var a := SpaceRun(u, 0);
    var b := if a < |u| && u[a] == '/' then a + 1 else a;
    var c := SpaceRun(u, b);
    if NameAt(u, c) then Some(c + |NAME|) else None
  }

  /** An envelope tag, opening or closing, starts this text. */
  predicate TagStarts(t: string) { t != "" && t[0] == '<' && TagLength(t[1..]).Some? }

  predicate NoTag(t: string) { forall j | 0 <= j <= |t| :: !TagStarts(t[j..]) }

  lemma NameIsLetters()
    ensures |NAME| == 17 && NAME[0] == 'u' && NAME[16] == 't'
    ensures forall k | 0 <= k < |NAME| :: 'a' <= NAME[k] <= 'z' || NAME[k] == '_'
  {
  }

  lemma {:induction false} SpaceRunIs(u: string, i: nat, j: nat)
    requires Spaces(u, i, j) && (j < |u| ==> !IsSpace(u[j]))
    ensures SpaceRun(u, i) == j
    decreases j - i
  {
    if i < j {
      SpaceRunIs(u, i + 1, j);
    }
  }

  /** The greedy match is the only one there is. */
  lemma GreedyFindsTheMatch(u: string, n: nat)
    ensures TagLength(u) == Some(n) <==> Matches(u, n)
  {
    NameIsLetters();
    if Matches(u, n) {
      var a: nat, b: nat, c: nat :|
        && Spaces(u, 0, a) && (b == a || (b == a + 1 && a < |u| && u[a] == '/'))
        && Spaces(u, b, c) && NameAt(u, c) && n == c + |NAME|;
      assert Folds(u[c + 0], NAME[0]);
      if b == a {
        SpaceRunIs(u, 0, c);
        SpaceRunIs(u, c, c);
      } else {
        SpaceRunIs(u, 0, a);
        SpaceRunIs(u, b, c);
      }
    }
    if TagLength(u) == Some(n) {
      var a := SpaceRun(u, 0);
      var b := if a < |u| && u[a] == '/' then a + 1 else a;
      assert Spaces(u, 0, a) && Spaces(u, b, SpaceRun(u, b)) && NameAt(u, SpaceRun(u, b));
    }
  }

  /** Letter case set aside, and with it the long s. */
  function Lower(c: char): char {
    if 'A' <= c <= 'Z' then c - 'A' + 'a' else if c == '\U{017F}' then 's' else c
  }

  /** Spaces up to a, perhaps a slash, spaces from b to c, and there the name in any case. */
  ghost predicate ReadsAsTag(u: string, name: string, a: nat, b: nat, c: nat) {
    && a <= b <= c && c + |name| <= |u|
    && (forall k | 0 <= k < c && (k < a || b <= k) :: u[k] in " \t\n\r\U{000C}")
    && (b == a || (b == a + 1 && u[a] == '/'))
    && (forall k | 0 <= k < |name| :: Lower(u[c + k]) == name[k])
  }

  lemma LowerIsName(u: string, c: nat)
    requires c + |NAME| <= |u|
    ensures NameAt(u, c) <==> forall k | 0 <= k < |NAME| :: Lower(u[c + k]) == NAME[k]
  {
    NameIsLetters();
    forall k | 0 <= k < |NAME| ensures Folds(u[c + k], NAME[k]) <==> Lower(u[c + k]) == NAME[k] {
    }
    if NameAt(u, c) {
      forall k | 0 <= k < |NAME| ensures Lower(u[c + k]) == NAME[k] {
        assert Folds(u[c + k], NAME[k]);
      }
    }
  }

  lemma ReadingMatches(u: string, a: nat, b: nat, c: nat)
    requires ReadsAsTag(u, NAME, a, b, c)
    ensures Matches(u, c + |NAME|)
  {
    LowerIsName(u, c);
    assert Spaces(u, 0, a) && Spaces(u, b, c) && NameAt(u, c);
  }

  lemma MatchReads(u: string, n: nat)
    requires Matches(u, n)
    ensures exists a: nat, b: nat, c: nat :: ReadsAsTag(u, NAME, a, b, c) && n == c + |NAME|
  {
    var a: nat, b: nat, c: nat :|
      && Spaces(u, 0, a) && (b == a || (b == a + 1 && a < |u| && u[a] == '/'))
      && Spaces(u, b, c) && NameAt(u, c) && n == c + |NAME|;
    LowerIsName(u, c);
    assert ReadsAsTag(u, NAME, a, b, c);
  }

  /** A tag is what reads as one: any letter case, and any of the five spaces around the slash. */
  lemma TagIs(u: string, name: string, n: nat)
    requires name == "untrusted_content"
    ensures TagLength(u) == Some(n) <==> exists a: nat, b: nat, c: nat :: ReadsAsTag(u, name, a, b, c) && n == c + 17
  {
    GreedyFindsTheMatch(u, n);
    assert name == NAME && |name| == 17;
    if Matches(u, n) {
      MatchReads(u, n);
    }
    if a: nat, b: nat, c: nat :| ReadsAsTag(u, name, a, b, c) && n == c + 17 {
      ReadingMatches(u, a, b, c);
    }
  }

  /** A character no match can contain. */
  predicate Barrier(c: char) { c == '<' || c == '>' || c == '&' || c == '"' }

  lemma NameHoldsNoBarrier(u: string, c: nat)
    requires NameAt(u, c)
    ensures forall k | c <= k < c + |NAME| :: !Barrier(u[k]) && !IsSpace(u[k])
  {
    NameIsLetters();
    forall k | c <= k < c + |NAME| ensures !Barrier(u[k]) && !IsSpace(u[k]) {
      assert Folds(u[c + (k - c)], NAME[k - c]);
    }
  }

  lemma MatchHoldsNoBarrier(u: string, n: nat)
    requires Matches(u, n)
    ensures 0 < n <= |u| && (forall k | 0 <= k < n :: !Barrier(u[k])) && !IsSpace(u[n - 1])
  {
    var a: nat, b: nat, c: nat :|
      && Spaces(u, 0, a) && (b == a || (b == a + 1 && a < |u| && u[a] == '/'))
      && Spaces(u, b, c) && NameAt(u, c) && n == c + |NAME|;
    NameHoldsNoBarrier(u, c);
  }

  /** A match depends on nothing after it. */
  lemma MatchIsLocal(u: string, v: string, n: nat)
    requires Matches(u, n) && n <= |u| && n <= |v| && u[..n] == v[..n]
    ensures Matches(v, n)
  {
    var a: nat, b: nat, c: nat :|
      && Spaces(u, 0, a) && (b == a || (b == a + 1 && a < |u| && u[a] == '/'))
      && Spaces(u, b, c) && NameAt(u, c) && n == c + |NAME|;
    assert forall k | 0 <= k < n :: u[k] == u[..n][k] && v[k] == v[..n][k];
    assert Spaces(v, 0, a) && Spaces(v, b, c) && NameAt(v, c);
  }

  // ---- Neutralizing

  /** Leftmost, non-overlapping replacement: the search goes on after a match, which keeps all but its first character. */
  function Replaced(esc: string, s: string): string
    decreases |s|
  {
    if s == "" then ""
    else if TagStarts(s) then
      var end := 1 + TagLength(s[1..]).value;
      esc + s[1..end] + Replaced(esc, s[end..])
    else [s[0]] + Replaced(esc, s[1..])
  }

  const ESCAPE := "&lt;"

  function Neutralize(s: string): string { Replaced(ESCAPE, s) }

  function Tag(): string -> bool { s => TagStarts(s) }

  /** Every position where the rest of the text satisfies tag gets esc for its character. */
  function EscapedBy(tag: string -> bool, esc: string, s: string): string {
    if s == "" then "" else (if tag(s) then esc else [s[0]]) + EscapedBy(tag, esc, s[1..])
  }

  /** What neutralizing should come to: every '<' that starts a tag, and nothing else, is escaped where it stands. */
  function Escaped(s: string): string { EscapedBy(Tag(), ESCAPE, s) }

  lemma {:induction false} EscapedCopies(tag: string -> bool, esc: string, s: string, n: nat)
    requires n <= |s| && forall k | 0 <= k < n :: !tag(s[k..])
    ensures EscapedBy(tag, esc, s) == s[..n] + EscapedBy(tag, esc, s[n..])
    decreases n
  {
    if n == 0 {
      assert s[0..] == s;
    } else {
      assert s[0..] == s;
      forall k | 0 <= k < n - 1 ensures !tag(s[1..][k..]) {
        assert s[1..][k..] == s[k + 1..];
      }
      EscapedCopies(tag, esc, s[1..], n - 1);
      assert s[1..][n - 1..] == s[n..];
      assert s[..n] == [s[0]] + s[1..][..n - 1];
    }
  }

  /** Nothing inside a match is escaped. */
  lemma MatchIsCopied(esc: string, u: string, n: nat)
    requires TagLength(u) == Some(n)
    ensures EscapedBy(Tag(), esc, u) == u[..n] + EscapedBy(Tag(), esc, u[n..])
  {
    GreedyFindsTheMatch(u, n);
    MatchHoldsNoBarrier(u, n);
    forall k | 0 <= k < n ensures !TagStarts(u[k..]) {
      assert u[k..][0] == u[k];
    }
    EscapedCopies(Tag(), esc, u, n);
  }

  lemma EscapedStep(s: string)
    requires s != ""
    ensures Escaped(s) == (if TagStarts(s) then ESCAPE else [s[0]]) + Escaped(s[1..])
  {
  }

  /** The one-pass scan escapes every tag, though it never looks again inside a match. */
  lemma {:induction false} ReplacedIsEscaped(esc: string, s: string)
    ensures Replaced(esc, s) == EscapedBy(Tag(), esc, s)
    decreases |s|
  {
    if s != "" {
      if TagStarts(s) {
        var u := s[1..];
        var n := TagLength(u).value;
        MatchIsCopied(esc, u, n);
        assert s[1..1 + n] == u[..n] && s[1 + n..] == u[n..];
        ReplacedIsEscaped(esc, u[n..]);
        Associates(esc, u[..n], EscapedBy(Tag(), esc, u[n..]));
      } else {
        ReplacedIsEscaped(esc, s[1..]);
      }
    }
  }

  /** Up to its first '&' the output is the input. */
  lemma {:induction false} OutputIsInput(tag: string -> bool, esc: string, s: string, n: nat)
    requires esc != "" && esc[0] == '&'
    requires n <= |EscapedBy(tag, esc, s)| && forall k | 0 <= k < n :: EscapedBy(tag, esc, s)[k] != '&'
    ensures n <= |s| && s[..n] == EscapedBy(tag, esc, s)[..n]
    decreases n
  {
    if n > 0 {
      var (all, out) := (EscapedBy(tag, esc, s), EscapedBy(tag, esc, s[1..]));
      assert all[0] != '&';
      assert all[1..] == out;
      forall k | 0 <= k < n - 1 ensures out[k] != '&' {
        assert out[k] == all[k + 1];
      }
      OutputIsInput(tag, esc, s[1..], n - 1);
      assert s[..n] == [s[0]] + s[1..][..n - 1];
    }
  }

  /** A '<' that was no tag has not become one by what was escaped after it. */
  lemma NothingIsExposed(s: string)
    requires s != "" && s[0] == '<' && !TagStarts(s)
    ensures !TagStarts(Escaped(s))
  {
    var out := Escaped(s[1..]);
    EscapedStep(s);
    assert Escaped(s)[1..] == out;
    if TagStarts(Escaped(s)) {
      var n := TagLength(out).value;
      GreedyFindsTheMatch(out, n);
      MatchHoldsNoBarrier(out, n);
      OutputIsInput(Tag(), ESCAPE, s[1..], n);
      MatchIsLocal(out, s[1..], n);
      GreedyFindsTheMatch(s[1..], n);
    }
  }

  lemma NoTagAfter(c: string, t: string)
    requires NoTag(t) && forall k | 0 <= k < |c| :: !TagStarts((c + t)[k..])
    ensures NoTag(c + t)
  {
    forall j | 0 <= j <= |c + t| ensures !TagStarts((c + t)[j..]) {
      if j >= |c| {
        assert (c + t)[j..] == t[j - |c|..];
      }
    }
  }

  lemma {:induction false} EscapedHasNoTag(s: string)
    ensures NoTag(Escaped(s))
  {
    if s != "" {
      EscapedHasNoTag(s[1..]);
      EscapedStep(s);
      var head := if TagStarts(s) then ESCAPE else [s[0]];
      if s[0] == '<' && !TagStarts(s) {
        NothingIsExposed(s);
        assert (head + Escaped(s[1..]))[0..] == Escaped(s);
      }
      NoTagAfter(head, Escaped(s[1..]));
    }
  }

  lemma NoTagTail(s: string)
    requires NoTag(s) && s != ""
    ensures NoTag(s[1..]) && !TagStarts(s)
  {
    assert s[0..] == s;
    forall j | 0 <= j <= |s| - 1 ensures !TagStarts(s[1..][j..]) {
      assert s[1..][j..] == s[j + 1..];
    }
  }

  lemma {:induction false} EscapedIsTheSameIff(s: string)
    ensures |Escaped(s)| >= |s|
    ensures Escaped(s) == s <==> NoTag(s)
  {
    if s != "" {
      EscapedIsTheSameIff(s[1..]);
      EscapedStep(s);
      var head := if TagStarts(s) then ESCAPE else [s[0]];
      if NoTag(s) {
        NoTagTail(s);
      }
      if Escaped(s) == s {
        assert |head| == 1;
        assert Escaped(s)[1..] == Escaped(s[1..]);
        NoTagAfter([s[0]], s[1..]) by {
          assert [s[0]] + s[1..] == s && s[0..] == s;
        }
      }
    }
  }

  /** No tag is left anywhere, whatever the text; text without one is left alone; twice is once. */
  lemma NeutralizeLeavesNoTag(s: string)
    ensures NoTag(Neutralize(s))
    ensures Neutralize(s) == s <==> NoTag(s)
    ensures Neutralize(Neutralize(s)) == Neutralize(s)
  {
    ReplacedIsEscaped(ESCAPE, s);
    EscapedHasNoTag(s);
    EscapedIsTheSameIff(s);
    ReplacedIsEscaped(ESCAPE, Neutralize(s));
    EscapedIsTheSameIff(Neutralize(s));
  }

  /** Only a tag's first character changes; what follows is treated as if it stood alone. */
  lemma NeutralizeStep(s: string)
    requires s != ""
    ensures Neutralize(s) == (if TagStarts(s) then "&lt;" else [s[0]]) + Neutralize(s[1..])
    ensures Neutralize("") == ""
  {
    ReplacedIsEscaped(ESCAPE, s);
    ReplacedIsEscaped(ESCAPE, s[1..]);
    EscapedStep(s);
  }

  // ---- The envelope

  /** How %q prints one character; hex is its escape when it is neither printable nor special. */
  function QuotedChar(c: char, isPrint: char -> bool, hex: char -> string): string {
    if c == '"' then ['\\', '"'] else if c == '\\' then ['\\', '\\'] else if isPrint(c) then [c] else ['\\'] + hex(c)
  }

  function QuotedChars(s: string, isPrint: char -> bool, hex: char -> string): string {
    if s == "" then "" else QuotedChar(s[0], isPrint, hex) + QuotedChars(s[1..], isPrint, hex)
  }

  function Quote(s: string, isPrint: char -> bool, hex: char -> string): string { "\"" + QuotedChars(s, isPrint, hex) + "\"" }

  const OPEN := "<" + (NAME + " kind=")
  const MIDDLE := " source="

  /** The envelope, from the quoted kind and source. */
  function Enveloped(open: string, kind: string, middle: string, source: string, body: string, close: string): string {
    open + (kind + middle + source + Ending(body, close))
  }

  function Ending(body: string, close: string): string { ">\n" + Neutralize(body) + "\n" + close }

  function Wrap(body: string, kind: string, source: string, isPrint: char -> bool, hex: char -> string): string {
    Enveloped(OPEN, Quote(kind, isPrint, hex), MIDDLE, Quote(source, isPrint, hex), body, CLOSE_TAG)
  }

  /** A quoted text read back: up to the first '"' that no backslash precedes, and what follows it. */
  function Unquoted(t: string): (string, string) {
    if t == "" || t[0] == '"' then ("", if t == "" then "" else t[1..])
    else if t[0] == '\\' && |t| > 1 then
      var (read, rest) := Unquoted(t[2..]);
      ([t[1]] + read, rest)
    else
      var (read, rest) := Unquoted(t[1..]);
      ([t[0]] + read, rest)
  }

  /** No printable kind or source ends its quotes early, and it reads back as itself. */
  lemma {:induction false} QuotedReadsBack(s: string, isPrint: char -> bool, hex: char -> string, rest: string)
    requires forall i | 0 <= i < |s| :: isPrint(s[i])
    ensures Unquoted(QuotedChars(s, isPrint, hex) + (['"'] + rest)) == (s, rest)
    ensures Quote(s, isPrint, hex) == "\"" + QuotedChars(s, isPrint, hex) + "\""
  {
    if s == "" {
      assert [] + (['"'] + rest) == ['"'] + rest;
      assert (['"'] + rest)[1..] == rest;
    } else {
      var (q, more) := (QuotedChar(s[0], isPrint, hex), QuotedChars(s[1..], isPrint, hex) + (['"'] + rest));
      QuotedReadsBack(s[1..], isPrint, hex, rest);
      Associates(q, QuotedChars(s[1..], isPrint, hex), ['"'] + rest);
      assert (q + more)[|q|..] == more;
      assert [s[0]] + s[1..] == s;
    }
  }

  lemma TagTexts()
    ensures OPEN == "<untrusted_content kind="
    ensures CLOSE_TAG == "</untrusted_content>"
  {
  }

  /** The envelope's text, around the neutralized body. */
  lemma WrapIs(body: string, kind: string, source: string, isPrint: char -> bool, hex: char -> string, open: string, close: string)
    requires open == "<untrusted_content kind=" && close == "</untrusted_content>"
    ensures Wrap(body, kind, source, isPrint, hex)
            == open + Quote(kind, isPrint, hex) + " source=" + Quote(source, isPrint, hex) + ">\n" + Neutralize(body) + ("\n" + close)
  {
    TagTexts();
    EnvelopeText(open, Quote(kind, isPrint, hex), MIDDLE, Quote(source, isPrint, hex), ">\n", Neutralize(body), "\n", close);
  }

  lemma EnvelopeText(open: string, k: string, middle: string, q: string, gap: string, body: string, last: string, close: string)
    ensures open + (k + middle + q + (gap + body + last + close)) == open + k + middle + q + gap + body + (last + close)
  {
  }

  /** A tag never reaches across a barrier. */
  lemma TagStopsAtBarrier(t: string, m: nat)
    requires 0 < m < |t| && Barrier(t[m])
    ensures TagStarts(t) <==> TagStarts(t[..m])
  {
    var (long, short) := (t[1..], t[..m][1..]);
    assert short == long[..m - 1];
    if TagStarts(t) {
      var n := TagLength(long).value;
      GreedyFindsTheMatch(long, n);
      MatchHoldsNoBarrier(long, n);
      assert long[m - 1] == t[m];
      MatchIsLocal(long, short, n);
      GreedyFindsTheMatch(short, n);
    }
    if TagStarts(t[..m]) {
      var n := TagLength(short).value;
      GreedyFindsTheMatch(short, n);
      MatchHoldsNoBarrier(short, n);
      MatchIsLocal(short, long, n);
      GreedyFindsTheMatch(long, n);
    }
  }

  // Where a property of the text that follows holds.

  predicate Nowhere(tag: string -> bool, t: string) { forall j | 0 <= j <= |t| :: !tag(t[j..]) }

  predicate OnlyAt(tag: string -> bool, t: string, p: nat) { forall j | 0 <= j <= |t| :: tag(t[j..]) <==> j == p }

  /** At the start and at one more place. */
  predicate TwiceAt(tag: string -> bool, t: string, p: nat) { forall j | 0 <= j <= |t| :: tag(t[j..]) <==> j == 0 || j == p }

  /** No reader looks across the place where the second text begins. */
  predicate Apart(tag: string -> bool, a: string, b: string) {
    forall j | 0 <= j <= |a + b| :: tag((a + b)[j..]) <==> if j < |a| then tag(a[j..]) else tag(b[j - |a|..])
  }

  lemma ApartNowhere(tag: string -> bool, a: string, b: string)
    requires Apart(tag, a, b) && !tag("")
    ensures Nowhere(tag, a + b) <==> Nowhere(tag, a) && Nowhere(tag, b)
  {
    var t := a + b;
    assert a[|a|..] == "";
    if Nowhere(tag, a) && Nowhere(tag, b) {
      forall j | 0 <= j <= |t| ensures !tag(t[j..]) {
      }
    }
    if Nowhere(tag, t) {
      forall j | 0 <= j < |a| ensures !tag(a[j..]) {
        assert !tag(t[j..]);
      }
      forall j | 0 <= j <= |b| ensures !tag(b[j..]) {
        var k := j + |a|;
        assert !tag(t[k..]);
      }
    }
  }

  lemma ApartOnlyAt(tag: string -> bool, a: string, b: string, p: nat)
    requires Apart(tag, a, b) && !tag("") && OnlyAt(tag, b, p) && p < |b|
    ensures OnlyAt(tag, a + b, |a| + p) <==> Nowhere(tag, a)
  {
    var t := a + b;
    assert a[|a|..] == "";
    if Nowhere(tag, a) {
      forall j | 0 <= j <= |t| ensures tag(t[j..]) <==> j == |a| + p {
      }
    }
    if OnlyAt(tag, t, |a| + p) {
      forall j | 0 <= j < |a| ensures !tag(a[j..]) {
        assert !tag(t[j..]);
      }
    }
  }

  lemma ApartTwice(tag: string -> bool, a: string, b: string, p: nat)
    requires Apart(tag, a, b) && OnlyAt(tag, a, 0) && a != ""
    ensures TwiceAt(tag, a + b, |a| + p) <==> OnlyAt(tag, b, p)
  {
    var t := a + b;
    if OnlyAt(tag, b, p) {
      forall j | 0 <= j <= |t| ensures tag(t[j..]) <==> j == 0 || j == |a| + p {
      }
    }
    if TwiceAt(tag, t, |a| + p) {
      forall j | 0 <= j <= |b| ensures tag(b[j..]) <==> j == p {
        var k := j + |a|;
        assert tag(t[k..]) <==> k == 0 || k == |a| + p;
      }
    }
  }

  lemma SuffixOfBoth(a: string, b: string, j: nat)
    requires j <= |a + b|
    ensures j < |a| ==> (a + b)[j..][..|a| - j] == a[j..]
    ensures j < |a| && b != "" ==> (a + b)[j..][|a| - j] == b[0]
    ensures j >= |a| ==> (a + b)[j..] == b[j - |a|..]
  {
  }

  /** Where a barrier begins the second text, no tag reaches across. */
  lemma TagsApart(a: string, b: string)
    requires b != "" && Barrier(b[0])
    ensures Apart(Tag(), a, b)
  {
    forall j | 0 <= j <= |a + b| ensures Tag()((a + b)[j..]) <==> if j < |a| then Tag()(a[j..]) else Tag()(b[j - |a|..]) {
      SuffixOfBoth(a, b, j);
      if j < |a| {
        TagStopsAtBarrier((a + b)[j..], |a| - j);
      }
    }
  }

  /** A trailing space completes no tag. */
  lemma TrailingSpace(t: string, c: char)
    requires IsSpace(c) && t != "" && TagStarts(t + [c])
    ensures TagStarts(t)
  {
    var (long, short) := ((t + [c])[1..], t[1..]);
    var n := TagLength(long).value;
    GreedyFindsTheMatch(long, n);
    MatchHoldsNoBarrier(long, n);
    assert long == short + [c];
    MatchIsLocal(long, short, n);
    GreedyFindsTheMatch(short, n);
  }

  lemma NoTagThenSpace(a: string, c: char)
    requires IsSpace(c) && NoTag(a)
    ensures NoTag(a + [c])
  {
    forall j | 0 <= j <= |a| + 1 ensures !TagStarts((a + [c])[j..]) {
      if j < |a| {
        assert (a + [c])[j..] == a[j..] + [c];
        if TagStarts(a[j..] + [c]) {
          TrailingSpace(a[j..], c);
        }
      } else {
        assert (a + [c])[j..] == [c][j - |a|..];
      }
    }
  }

  lemma NoTagAfterText(c: string, t: string)
    requires NoTag(t) && '<' !in c
    ensures NoTag(c + t)
  {
    forall k | 0 <= k < |c| ensures !TagStarts((c + t)[k..]) {
      assert (c + t)[k..][0] == c[k];
    }
    NoTagAfter(c, t);
  }

  /** A text that starts with a tag and has no other '<' holds one tag. */
  lemma OneLessThan(t: string)
    requires TagStarts(t) && '<' !in t[1..]
    ensures OnlyAt(Tag(), t, 0)
  {
    assert t[0..] == t;
    forall j | 0 < j <= |t| ensures !TagStarts(t[j..]) {
      assert j < |t| ==> t[j..][0] == t[1..][j - 1];
    }
  }

  /** A tag's text: perhaps a slash, the name, and whatever follows. */
  lemma NamedTag(slash: string, rest: string)
    requires (slash == "" || slash == "/") && '<' !in rest
    ensures OnlyAt(Tag(), "<" + (slash + (NAME + rest)), 0)
  {
    var u := slash + (NAME + rest);
    var t := "<" + u;
    assert t[1..] == u;
    var c := |slash|;
    NameIsLetters();
    NameStands(slash, rest, u);
    assert Spaces(u, 0, 0) && Spaces(u, c, c) && NameAt(u, c);
    assert Matches(u, c + |NAME|);
    GreedyFindsTheMatch(u, c + |NAME|);
    OneLessThan(t);
  }

  lemma NameStands(slash: string, rest: string, u: string)
    requires (slash == "" || slash == "/") && '<' !in rest && u == slash + (NAME + rest)
    ensures NameAt(u, |slash|) && '<' !in u
  {
    NameIsLetters();
    var c := |slash|;
    forall k | 0 <= k < |NAME| ensures Folds(u[c + k], NAME[k]) {
      assert u[c + k] == NAME[k];
    }
  }

  /** What stands between a quoted kind and source holds no tag. */
  lemma QuotedNowhere(k: string, b: string, c: string)
    requires b != "" && Barrier(b[0]) && c != "" && Barrier(c[0]) && '<' !in b && '<' !in c
    ensures Nowhere(Tag(), k + b) <==> Nowhere(Tag(), k + c)
  {
    TagsApart(k, b);
    TagsApart(k, c);
    NoLessThan(b);
    NoLessThan(c);
    ApartNowhere(Tag(), k, b);
    ApartNowhere(Tag(), k, c);
  }

  lemma NoLessThan(t: string)
    requires '<' !in t
    ensures Nowhere(Tag(), t)
  {
    forall j | 0 <= j <= |t| ensures !TagStarts(t[j..]) {
      assert j < |t| ==> t[j..][0] == t[j];
    }
  }

  /** From the source on, the only tag is the closing one, whatever the body. */
  lemma BodyHoldsNoTag(body: string, close: string)
    requires OnlyAt(Tag(), close, 0) && close != "" && close[0] == '<'
    ensures OnlyAt(Tag(), Ending(body, close), |Ending(body, close)| - |close|)
  {
    var inner := ">\n" + (Neutralize(body) + "\n");
    NeutralizeLeavesNoTag(body);
    NoTagThenSpace(Neutralize(body), '\n');
    NoTagAfterText(">\n", Neutralize(body) + "\n");
    assert Nowhere(Tag(), inner);
    TagsApart(inner, close);
    ApartOnlyAt(Tag(), inner, close, 0);
    assert Ending(body, close) == inner + close;
  }

  predicate Quoted(q: string) { |q| >= 2 && q[0] == '"' && q[|q| - 1] == '"' }

  lemma TagsOfEnvelope(open: string, kind: string, middle: string, source: string, body: string, close: string)
    requires OnlyAt(Tag(), open, 0) && OnlyAt(Tag(), close, 0) && open != "" && close != "" && close[0] == '<'
    requires Quoted(kind) && Quoted(source) && '<' !in middle
    ensures var out := Enveloped(open, kind, middle, source, body, close);
            TwiceAt(Tag(), out, |out| - |close|) <==> Nowhere(Tag(), kind) && Nowhere(Tag(), source)
  {
    var (head, end) := (kind + middle, Ending(body, close));
    var p := |end| - |close|;
    BodyHoldsNoTag(body, close);
    var (k, q) := (kind[..|kind| - 1], kind[|kind| - 1..]);
    assert kind == k + q && head == k + (q + middle);
    QuotedNowhere(k, q, q + middle);
    TagsApart(head, source);
    ApartNowhere(Tag(), head, source);
    TagsApart(head + source, end);
    ApartOnlyAt(Tag(), head + source, end, p);
    TagsApart(open, head + source + end);
    ApartTwice(Tag(), open, head + source + end, |head + source| + p);
    assert Enveloped(open, kind, middle, source, body, close) == open + (head + source + end);
  }

  lemma {:induction false} QuotingAddsNoLessThan(s: string, isPrint: char -> bool, hex: char -> string)
    requires '<' !in s && forall c :: '<' !in hex(c)
    ensures '<' !in QuotedChars(s, isPrint, hex)
  {
    if s != "" {
      QuotingAddsNoLessThan(s[1..], isPrint, hex);
    }
  }

  /**
   The envelope holds exactly two tags, its own opening at the start and its own closing at
   the end, for every body, exactly when the quoted kind and source hold none.
   */
  lemma EnvelopeHoldsExactlyItsTagsIff(body: string, kind: string, source: string, isPrint: char -> bool, hex: char -> string)
    ensures var out := Wrap(body, kind, source, isPrint, hex);
            TwiceAt(Tag(), out, |out| - |CLOSE_TAG|) <==> NoTag(Quote(kind, isPrint, hex)) && NoTag(Quote(source, isPrint, hex))
  {
    NamedTag("", " kind=");
    NamedTag("/", ">");
    assert OPEN == "<" + ("" + (NAME + " kind="));
    TagsOfEnvelope(OPEN, Quote(kind, isPrint, hex), MIDDLE, Quote(source, isPrint, hex), body, CLOSE_TAG);
  }

  /** In particular whenever neither the kind nor the source contains a '<'. */
  lemma EnvelopeCannotBeForged(body: string, kind: string, source: string, isPrint: char -> bool, hex: char -> string)
    requires '<' !in kind && '<' !in source && forall c :: '<' !in hex(c)
    ensures var out := Wrap(body, kind, source, isPrint, hex);
            TwiceAt(Tag(), out, |out| - |CLOSE_TAG|)
  {
    QuotingAddsNoLessThan(kind, isPrint, hex);
    QuotingAddsNoLessThan(source, isPrint, hex);
    NoLessThan(Quote(kind, isPrint, hex));
    NoLessThan(Quote(source, isPrint, hex));
    EnvelopeHoldsExactlyItsTagsIff(body, kind, source, isPrint, hex);
  }
}
