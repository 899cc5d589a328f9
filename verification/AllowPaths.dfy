/**
 Allow-path prefixes (internal/session/manager.go:478-488) and their chain tokens
 (internal/session/gnokey.go:26-31, internal/chain/real.go:356-372).
 */
module AllowPaths {
  predicate HasPrefix(s: string, prefix: string) { prefix <= s }

  predicate Covers(path: string, realm: string) { path == realm || HasPrefix(realm, path + "/") }

  predicate CoversRealm(paths: seq<string>, realm: string) {
    exists i | 0 <= i < |paths| :: Covers(paths[i], realm)
  }

  /** The path itself, or its text and then a slash. */
  lemma CoversIff(path: string, realm: string)
    ensures Covers(path, realm) <==> path == realm || (|path| < |realm| && realm[..|path|] == path && realm[|path|] == '/')
  {
    if Covers(path, realm) && path != realm {
      var start := realm[..|path| + 1];
      assert start == path + "/";
      assert realm[..|path|] == start[..|path|] && realm[|path|] == start[|path|];
    }
    if |path| < |realm| && realm[..|path|] == path && realm[|path|] == '/' {
      assert realm[..|path| + 1] == path + "/";
    }
  }

  method CheckCoversRealm(paths: seq<string>, realm: string) returns (r: bool)
    ensures r == CoversRealm(paths, realm)
  {
    for i := 0 to |paths|
      invariant forall j | 0 <= j < i :: !Covers(paths[j], realm)
    {
      if paths[i] == realm || HasPrefix(realm, paths[i] + "/") {
        return true;
      }
    }
    return false;
  }

  /** The segments between slashes: always at least one, possibly empty. */
  function Segments(s: string): (segs: seq<string>)
    ensures |segs| >= 1
  {
    if s == "" then [""]
    else
      var rest := Segments(s[1..]);
      if s[0] == '/' then [""] + rest else [[s[0]] + rest[0]] + rest[1..]
  }

  lemma SegmentsStart(s: string)
    requires s != ""
    ensures Segments(s) != [""]
    ensures Segments(s)[0] == "" <==> s[0] == '/'
    ensures s[0] != '/' ==> Segments(s)[0][0] == s[0]
  {
    assert s[0] == '/' ==> |Segments(s)| >= 2;
  }

  lemma PrefixWithHead(c: char, ps: seq<string>, rs: seq<string>)
    requires |ps| >= 1 && |rs| >= 1
    ensures [[c] + ps[0]] + ps[1..] <= [[c] + rs[0]] + rs[1..] <==> ps <= rs
    ensures [""] + ps <= [""] + rs <==> ps <= rs
  {
    var cps, crs := [[c] + ps[0]] + ps[1..], [[c] + rs[0]] + rs[1..];
    assert ([c] + ps[0])[1..] == ps[0] && ([c] + rs[0])[1..] == rs[0];
    assert cps[1..] == ps[1..] && crs[1..] == rs[1..];
    assert ps == [ps[0]] + ps[1..] && rs == [rs[0]] + rs[1..];
    assert ([""] + ps)[1..] == ps && ([""] + rs)[1..] == rs;
    if ps <= rs {
      assert ps[0] == rs[0] && ps[1..] <= rs[1..];
    }
    if cps <= crs {
      assert cps[0] == crs[0] && cps[1..] <= crs[1..];
    }
    if [""] + ps <= [""] + rs {
      assert ([""] + ps)[1..] <= ([""] + rs)[1..];
    }
  }

  lemma CoversWithHead(path: string, realm: string)
    requires path != "" && realm != ""
    ensures Covers(path, realm) <==> path[0] == realm[0] && Covers(path[1..], realm[1..])
  {
    assert path == [path[0]] + path[1..] && realm == [realm[0]] + realm[1..];
    assert path + "/" == [path[0]] + (path[1..] + "/");
    if HasPrefix(realm, path + "/") {
      assert realm[1..] == realm[1..][..|path|] + realm[1..][|path|..];
      assert (path + "/")[1..] <= realm[1..];
    }
  }

  /** Path prefix by text is prefix by segments: a sibling that merely starts alike is not covered. */
  lemma {:induction false} CoversIsSegmentPrefix(path: string, realm: string)
    ensures Covers(path, realm) <==> Segments(path) <= Segments(realm)
  {
    if path != "" {
      SegmentsStart(path);
    }
    if realm != "" {
      SegmentsStart(realm);
    }
    if path == "" {
      assert Covers(path, realm) <==> realm == "" || realm[0] == '/';
    } else if realm != "" {
      CoversWithHead(path, realm);
      CoversIsSegmentPrefix(path[1..], realm[1..]);
      PrefixWithHead(path[0], Segments(path[1..]), Segments(realm[1..]));
    }
  }

  lemma CoversRealmIffSegmentPrefix(paths: seq<string>, realm: string)
    ensures CoversRealm(paths, realm) <==> exists i | 0 <= i < |paths| :: Segments(paths[i]) <= Segments(realm)
  {
    forall i | 0 <= i < |paths| ensures Covers(paths[i], realm) <==> Segments(paths[i]) <= Segments(realm) {
      CoversIsSegmentPrefix(paths[i], realm);
    }
  }

  // ---- Chain permission tokens

  const EXEC := "vm/exec:"
  const RUN := "vm/run"

  function Prefixed(prefix: string, paths: seq<string>): seq<string> {
    if paths == [] then [] else Prefixed(prefix, paths[..|paths| - 1]) + [prefix + paths[|paths| - 1]]
  }

  /** What authorizes these paths, and code runs, on the chain. */
  function Tokens(paths: seq<string>, allowRun: bool): seq<string> {
    if allowRun then Prefixed(EXEC, paths) + [RUN] else Prefixed(EXEC, paths)
  }

  /** The realm paths among the tokens, in order; anything else is dropped. */
  function RealmPaths(tokens: seq<string>): seq<string> {
    if tokens == [] then []
    else
      var n := |tokens| - 1;
      RealmPaths(tokens[..n]) + if HasPrefix(tokens[n], EXEC) then [tokens[n][|EXEC|..]] else []
  }

  method SplitAllowPaths(chainPaths: seq<string>) returns (realmPaths: seq<string>, allowRun: bool)
    ensures realmPaths == RealmPaths(chainPaths)
    ensures allowRun <==> RUN in chainPaths
  {
    realmPaths, allowRun := [], false;
    for i := 0 to |chainPaths|
      invariant realmPaths == RealmPaths(chainPaths[..i])
      invariant allowRun <==> RUN in chainPaths[..i]
    {
      var p := chainPaths[i];
      assert chainPaths[..i + 1] == chainPaths[..i] + [p] && chainPaths[..i + 1][..i] == chainPaths[..i];
      if HasPrefix(p, EXEC) {
        assert p[3] == 'e' && RUN[3] == 'r';
        realmPaths := realmPaths + [p[|EXEC|..]];
        continue;
      }
      if p == RUN {
        allowRun := true;
        continue;
      }
    }
    assert chainPaths[..|chainPaths|] == chainPaths;
  }

  lemma ExecIsNotRun(path: string, token: string)
    requires token == EXEC + path
    ensures token != RUN && HasPrefix(token, EXEC) && token[|EXEC|..] == path && !HasPrefix(RUN, EXEC)
  {
    assert token[3] == 'e' && RUN[3] == 'r';
  }

  lemma {:induction false} SplitUndoesExec(paths: seq<string>)
    ensures RealmPaths(Prefixed(EXEC, paths)) == paths && RUN !in Prefixed(EXEC, paths)
  {
    if paths != [] {
      var n := |paths| - 1;
      SplitUndoesExec(paths[..n]);
      ExecIsNotRun(paths[n], EXEC + paths[n]);
      assert Prefixed(EXEC, paths)[..|Prefixed(EXEC, paths)| - 1] == Prefixed(EXEC, paths[..n]);
      assert paths == paths[..n] + [paths[n]];
    }
  }

  /** Splitting undoes the tokens, for every list of paths and either flag. */
  lemma SplitUndoesTokens(paths: seq<string>, allowRun: bool)
    ensures RealmPaths(Tokens(paths, allowRun)) == paths
    ensures RUN in Tokens(paths, allowRun) <==> allowRun
  {
    SplitUndoesExec(paths);
    if allowRun {
      ExecIsNotRun("", EXEC + "");
      assert Tokens(paths, allowRun)[..|Prefixed(EXEC, paths)|] == Prefixed(EXEC, paths);
      assert Tokens(paths, allowRun)[|Prefixed(EXEC, paths)|] == RUN;
    }
  }

  /** Splitting any list of tokens gives exactly the paths that some token authorizes calls to. */
  lemma {:induction false} RealmPathsAre(tokens: seq<string>, path: string)
    ensures path in RealmPaths(tokens) <==> "vm/exec:" + path in tokens
  {
    if tokens != [] {
      var (n, token) := (|tokens| - 1, EXEC + path);
      RealmPathsAre(tokens[..n], path);
      assert tokens == tokens[..n] + [tokens[n]];
      assert token[|EXEC|..] == path;
      assert HasPrefix(tokens[n], EXEC) ==> tokens[n] == EXEC + tokens[n][|EXEC|..];
    }
  }

  /** The tokens, in the chain's words. */
  lemma TokensAre(paths: seq<string>, allowRun: bool, i: nat)
    requires i < |Tokens(paths, allowRun)|
    ensures |Tokens(paths, allowRun)| == |paths| + if allowRun then 1 else 0
    ensures Tokens(paths, allowRun)[i] == if i < |paths| then "vm/exec:" + paths[i] else "vm/run"
  {
    PrefixedAre(EXEC, paths);
  }

  lemma {:induction false} PrefixedAre(prefix: string, paths: seq<string>)
    ensures |Prefixed(prefix, paths)| == |paths| && forall i | 0 <= i < |paths| :: Prefixed(prefix, paths)[i] == prefix + paths[i]
  {
    if paths != [] {
      PrefixedAre(prefix, paths[..|paths| - 1]);
    }
  }
}
