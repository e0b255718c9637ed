/** Subscription patterns and the namespaces that may hold them (webhook/glob.go,
    webhook/caller_token.go). */
module Globs {
  import opened Prelude
  import opened Paths

  // ---- parts ----

  function TrimLeft(p: string): string {
    if p != "" && p[0] == '/' then TrimLeft(p[1..]) else p
  }

  function TrimRight(p: string): string {
    if p != "" && p[|p| - 1] == '/' then TrimRight(p[..|p| - 1]) else p
  }

  /** `splitPath`: outer slashes do not count. */
  function SplitPath(p: string): seq<string> {
    var q := TrimRight(TrimLeft(p));
    if q == "" then [] else Split(q)
  }

  /** `strings.ReplaceAll(s, code, "*")`. */
  function ReplaceAll(s: string, code: string): string
    requires code != ""
    decreases |s|
  {
    if s == "" then ""
    else if code <= s then "*" + ReplaceAll(s[|code|..], code)
    else [s[0]] + ReplaceAll(s[1..], code)
  }

  /** A literal part, with an escaped star read as a star. */
  function Decode(part: string): string {
    ReplaceAll(ReplaceAll(part, "%2A"), "%2a")
  }

  predicate IsWild(part: string) { part == "*" || part == "**" }

  // ---- what a pattern means ----

  /** Which parts of a path one part of a pattern can stand for. */
  ghost predicate StandsFor(part: string, block: seq<string>) {
    if part == "**" then true
    else if part == "*" then |block| == 1
    else block == [Decode(part)]
  }

  ghost function Concat(blocks: seq<seq<string>>): seq<string> {
    if blocks == [] then [] else blocks[0] + Concat(blocks[1..])
  }

  /** The path falls into blocks, one for each part of the pattern. */
  ghost predicate IsMatch(pattern: seq<string>, path: seq<string>, blocks: seq<seq<string>>) {
    && |blocks| == |pattern| && Concat(blocks) == path
    && (forall k :: 0 <= k < |pattern| ==> StandsFor(pattern[k], blocks[k]))
  }

  ghost predicate Matches(pattern: seq<string>, path: seq<string>) {
    exists blocks :: IsMatch(pattern, path, blocks)
  }

  lemma MatchesNothing(path: seq<string>)
    ensures Matches([], path) <==> path == []
  {
    assert path == [] ==> IsMatch([], path, []);
  }

  /** The first part takes some front of the path, the rest matches what is left. */
  lemma MatchesFirst(pattern: seq<string>, path: seq<string>)
    requires pattern != []
    ensures Matches(pattern, path) <==>
            exists i :: 0 <= i <= |path| && StandsFor(pattern[0], path[..i]) && Matches(pattern[1..], path[i..])
  {
    if Matches(pattern, path) {
      var blocks :| IsMatch(pattern, path, blocks);
      var i := |blocks[0]|;
      assert path == blocks[0] + Concat(blocks[1..]);
      assert path[..i] == blocks[0] && path[i..] == Concat(blocks[1..]);
      assert IsMatch(pattern[1..], path[i..], blocks[1..]);
    }
    if i :| 0 <= i <= |path| && StandsFor(pattern[0], path[..i]) && Matches(pattern[1..], path[i..]) {
      var rest :| IsMatch(pattern[1..], path[i..], rest);
      var blocks := [path[..i]] + rest;
      assert blocks[1..] == rest && path[..i] + path[i..] == path;
      forall k | 0 <= k < |pattern| ensures StandsFor(pattern[k], blocks[k]) {
        if k > 0 {
          assert pattern[1..][k - 1] == pattern[k] && rest[k - 1] == blocks[k];
        }
      }
      assert IsMatch(pattern, path, blocks);
    }
  }

  /** A part that is not `**` takes exactly one part of the path. */
  lemma MatchesOne(pattern: seq<string>, path: seq<string>)
    requires pattern != [] && pattern[0] != "**"
    ensures Matches(pattern, path) <==>
            path != [] && (pattern[0] == "*" || Decode(pattern[0]) == path[0]) && Matches(pattern[1..], path[1..])
  {
    MatchesFirst(pattern, path);
    hide Matches;
    if path != [] {
      assert path[..1] == [path[0]];
    }
    forall i | 0 <= i <= |path| && StandsFor(pattern[0], path[..i]) ensures i == 1 {
      assert |path[..i]| == i;
    }
  }

  /** Trailing `**` match an empty rest. */
  lemma {:induction false} MatchesEmpty(pattern: seq<string>)
    ensures Matches(pattern, []) <==> forall k :: 0 <= k < |pattern| ==> pattern[k] == "**"
  {
    hide Matches;
    if pattern == [] {
      MatchesNothing([]);
    } else if pattern[0] == "**" {
      MatchesFirst(pattern, []);
      MatchesEmpty(pattern[1..]);
      var none: seq<string> := [];
      assert none[..0] == none && none[0..] == none;
      assert forall k :: 0 < k < |pattern| ==> pattern[k] == pattern[1..][k - 1];
    } else {
      MatchesOne(pattern, []);
    }
  }

  // ---- the matcher ----

  /** `matchParts`. */
  method MatchParts(pattern: seq<string>, pi0: nat, path: seq<string>, si0: nat) returns (matched: bool)
    requires pi0 <= |pattern| && si0 <= |path|
    ensures matched <==> Matches(pattern[pi0..], path[si0..])
    decreases |pattern| - pi0
  {
    hide Matches;
    var pi, si := pi0, si0;
    while pi < |pattern| && si < |path|
      invariant pi0 <= pi <= |pattern| && si0 <= si <= |path|
      invariant Matches(pattern[pi..], path[si..]) <==> Matches(pattern[pi0..], path[si0..])
    {
      var part := pattern[pi];
      assert pattern[pi..][0] == part && pattern[pi..][1..] == pattern[pi + 1..];
      if part == "**" {
        matched := MatchAnyRest(pattern, pi, path, si);
        return;
      }
      MatchesOne(pattern[pi..], path[si..]);
      assert path[si..][0] == path[si] && path[si..][1..] == path[si + 1..];
      if part != "*" && Decode(part) != path[si] {
        return false;
      }
      pi := pi + 1;
      si := si + 1;
    }
    ghost var rest := pattern[pi..];
    if si == |path| {
      assert path[si..] == [];
      MatchesEmpty(rest);
    } else {
      MatchesNothing(path[si..]);
    }
    while pi < |pattern| && pattern[pi] == "**"
      invariant pi0 <= pi <= |pattern| && |pattern| - |rest| <= pi
      invariant forall k :: |pattern| - |rest| <= k < pi ==> pattern[k] == "**"
    {
      pi := pi + 1;
    }
    matched := pi == |pattern| && si == |path|;
    assert forall k :: 0 <= k < |rest| ==> rest[k] == pattern[|pattern| - |rest| + k];
  }

  /** The branch for `**`: some rest of the path matches the rest of the pattern. */
  method MatchAnyRest(pattern: seq<string>, pi: nat, path: seq<string>, si: nat) returns (matched: bool)
    requires pi < |pattern| && si <= |path| && pattern[pi] == "**"
    ensures matched <==> Matches(pattern[pi..], path[si..])
    decreases |pattern| - pi, 0
  {
    hide Matches;
    MatchesFirst(pattern[pi..], path[si..]);
    assert pattern[pi..][1..] == pattern[pi + 1..];
    for i := si to |path| + 1
      invariant forall k :: si <= k < i ==> !Matches(pattern[pi + 1..], path[k..])
    {
      matched := MatchParts(pattern, pi + 1, path, i);
      if matched {
        assert path[si..][i - si..] == path[i..];
        return;
      }
    }
    forall i | 0 <= i <= |path[si..]| ensures !Matches(pattern[pi + 1..], path[si..][i..]) {
      assert path[si..][i..] == path[si + i..];
    }
    return false;
  }

  method GlobMatch(pattern: string, path: string) returns (matched: bool)
    ensures matched <==> Matches(SplitPath(pattern), SplitPath(path))
  {
    var patternParts, pathParts := SplitPath(pattern), SplitPath(path);
    assert patternParts[0..] == patternParts && pathParts[0..] == pathParts;
    matched := MatchParts(patternParts, 0, pathParts, 0);
  }

  // ---- the literal prefix ----

  /** The decoded parts before the first wildcard. */
  function Literals(parts: seq<string>): seq<string> {
    if parts == [] || IsWild(parts[0]) then [] else [Decode(parts[0])] + Literals(parts[1..])
  }

  /** `GlobLiteralPrefix`. */
  method LiteralPrefix(pattern: string) returns (prefix: string, ok: bool)
    ensures ok <==> Literals(SplitPath(pattern)) != []
    ensures ok ==> prefix == Join(Literals(SplitPath(pattern)))
  {
    var parts := SplitPath(pattern);
    var literals: seq<string> := [];
    var i := 0;
    assert parts[0..] == parts;
    while i < |parts| && !IsWild(parts[i])
      invariant 0 <= i <= |parts| && literals + Literals(parts[i..]) == Literals(parts)
    {
      assert parts[i..][1..] == parts[i + 1..];
      literals := literals + [Decode(parts[i])];
      i := i + 1;
    }
    assert literals + [] == literals == Literals(parts);
    if |literals| == 0 {
      return "", false;
    }
    return Join(literals), true;
  }

  /** Every path that a pattern matches begins with the pattern's literal parts. */
  lemma {:induction false} LiteralsBound(pattern: seq<string>, path: seq<string>)
    requires Matches(pattern, path)
    ensures Literals(pattern) <= path
  {
    if pattern != [] && !IsWild(pattern[0]) {
      MatchesOne(pattern, path);
      hide Matches;
      LiteralsBound(pattern[1..], path[1..]);
    }
  }

  // ---- namespaces ----

  /** `MayLink`, for a caller granted `namespaces`. */
  predicate MayLink(namespaces: seq<string>, path: string) {
    WithinPrefixes(path, namespaces)
  }

  /** `MayLinkPattern`. */
  predicate MayLinkPattern(namespaces: seq<string>, pattern: string) {
    var literals := Literals(SplitPath(pattern));
    literals != [] && Normalize(Join(literals)).Some? && MayLink(namespaces, Normalize(Join(literals)).value)
  }

  lemma {:induction false} TrimRightKeeps(p: string)
    requires p != "" && p[|p| - 1] != '/'
    ensures TrimRight(p) == p
  {
  }

  lemma {:induction false} SplitEnds(p: string)
    requires p != ""
    ensures p[0] == '/' ==> Split(p)[0] == ""
    ensures p[|p| - 1] == '/' ==> Split(p)[|Split(p)| - 1] == ""
  {
    if |p| > 1 {
      SplitEnds(p[1..]);
      assert p[1..][|p| - 2] == p[|p| - 1];
    } else {
      assert p[1..] == "";
    }
  }

  /** The outer slashes that matching ignores are not there in a stream path. */
  lemma StreamPathParts(p: string)
    requires IsStreamPath(p)
    ensures SplitPath(p) == Split(p)
  {
    assert p != "" by {
      assert p == "" ==> !IsLegal(Split(p)[0]);
    }
    SplitEnds(p);
    assert IsLegal(Split(p)[0]) && IsLegal(Split(p)[|Split(p)| - 1]);
    TrimRightKeeps(p);
  }

  lemma {:induction false} ReplaceAllPlain(s: string, code: string)
    requires code != "" && '/' !in s
    ensures '/' !in ReplaceAll(s, code)
    decreases |s|
  {
    if s != "" {
      if code <= s {
        ReplaceAllPlain(s[|code|..], code);
      } else {
        ReplaceAllPlain(s[1..], code);
      }
    }
  }

  lemma {:induction false} LiteralsHaveNoSlash(parts: seq<string>)
    requires forall k :: 0 <= k < |parts| ==> '/' !in parts[k]
    ensures forall k :: 0 <= k < |Literals(parts)| ==> '/' !in Literals(parts)[k]
  {
    if parts != [] && !IsWild(parts[0]) {
      ReplaceAllPlain(parts[0], "%2A");
      ReplaceAllPlain(ReplaceAll(parts[0], "%2A"), "%2a");
      LiteralsHaveNoSlash(parts[1..]);
    }
  }

  lemma SplitPathHasNoSlash(p: string)
    ensures forall k :: 0 <= k < |SplitPath(p)| ==> '/' !in SplitPath(p)[k]
  {
  }

  lemma {:induction false} TrimLeftFirst(p: string)
    ensures TrimLeft(p) == "" || TrimLeft(p)[0] != '/'
  {
    if p != "" && p[0] == '/' {
      TrimLeftFirst(p[1..]);
    }
  }

  lemma {:induction false} TrimRightPrefix(p: string)
    ensures TrimRight(p) <= p
  {
    if p != "" && p[|p| - 1] == '/' {
      TrimRightPrefix(p[..|p| - 1]);
    }
  }

  /** The first part of a pattern is not empty, whatever slashes it begins with. */
  lemma FirstPartIsFilled(p: string)
    requires SplitPath(p) != []
    ensures SplitPath(p)[0] != ""
  {
    TrimLeftFirst(p);
    TrimRightPrefix(TrimLeft(p));
  }

  lemma DecodeIsFilled(part: string)
    requires part != ""
    ensures Decode(part) != ""
  {
    assert ReplaceAll(part, "%2A") != "";
  }

  /** The literal prefix splits back into its parts, and normalizes to itself or not at all. */
  lemma PrefixParts(pattern: string)
    requires Literals(SplitPath(pattern)) != []
    ensures var literals := Literals(SplitPath(pattern));
            && Split(Join(literals)) == literals
            && Normalize(Join(literals)) == if IsStreamPath(Join(literals)) then Some(Join(literals)) else None
  {
    var parts := SplitPath(pattern);
    var literals := Literals(parts);
    SplitPathHasNoSlash(pattern);
    LiteralsHaveNoSlash(parts);
    SplitJoin(literals);
    FirstPartIsFilled(pattern);
    DecodeIsFilled(parts[0]);
    assert literals[0] == Decode(parts[0]);
    hide SplitPath, Literals, Decode;
    PlainStart(literals);
  }

  lemma PlainStart(parts: seq<string>)
    requires parts != [] && parts[0] != "" && '/' !in parts[0]
    ensures Join(parts) != "" && Join(parts)[0] != '/'
  {
    assert parts[0] <= Join(parts);
    assert parts[0][0] in parts[0];
  }

  /** A pattern that a caller may link matches only paths that the caller may link. */
  lemma PatternStaysInNamespace(namespaces: seq<string>, pattern: string, path: string)
    requires MayLinkPattern(namespaces, pattern) && IsStreamPath(path)
    requires Matches(SplitPath(pattern), SplitPath(path))
    ensures MayLink(namespaces, path)
  {
    var literals := Literals(SplitPath(pattern));
    LiteralsBound(SplitPath(pattern), SplitPath(path));
    StreamPathParts(path);
    PrefixParts(pattern);
    hide Matches, Normalize, Split, Join;
    var k :| 0 <= k < |namespaces| && Within(Join(literals), namespaces[k]);
    WithinMeansParts(Join(literals), namespaces[k]);
    WithinMeansParts(path, namespaces[k]);
    assert Split(namespaces[k]) <= Split(path);
  }

  // ---- refusing is no broader than it has to be ----

  /** A path that the pattern matches, with `filler` wherever the pattern is wild. */
  function Witness(parts: seq<string>, filler: string): (r: seq<string>)
    ensures |r| == |parts|
  {
    if parts == [] then []
    else [if IsWild(parts[0]) then filler else Decode(parts[0])] + Witness(parts[1..], filler)
  }

  lemma {:induction false} WitnessMatches(parts: seq<string>, filler: string)
    ensures Matches(parts, Witness(parts, filler))
  {
    hide Matches;
    if parts == [] {
      MatchesNothing([]);
    } else {
      var path := Witness(parts, filler);
      WitnessMatches(parts[1..], filler);
      assert path[1..] == Witness(parts[1..], filler);
      if parts[0] == "**" {
        MatchesFirst(parts, path);
        assert StandsFor(parts[0], path[..1]);
      } else {
        MatchesOne(parts, path);
      }
    }
  }

  /** Up to the first wildcard the witness is the literal prefix; there comes `filler`. */
  lemma {:induction false} WitnessFront(parts: seq<string>, filler: string)
    ensures var n := |Literals(parts)|;
            && n <= |parts| && Witness(parts, filler)[..n] == Literals(parts)
            && (n < |parts| ==> Witness(parts, filler)[n] == filler)
  {
    if parts != [] && !IsWild(parts[0]) {
      WitnessFront(parts[1..], filler);
      var n := |Literals(parts[1..])|;
      var rest := Witness(parts[1..], filler);
      assert Witness(parts, filler)[..n + 1] == [Decode(parts[0])] + rest[..n];
    }
  }

  function Filler(n: nat): (r: string)
    ensures |r| == n && forall i :: 0 <= i < n ==> r[i] == 'x'
  {
    seq(n, _ => 'x')
  }

  /** A string longer than every namespace. */
  function Longest(namespaces: seq<string>): (n: nat)
    ensures forall k :: 0 <= k < |namespaces| ==> |namespaces[k]| <= n
  {
    if namespaces == [] then 0
    else
      var n := Longest(namespaces[..|namespaces| - 1]);
      if |namespaces[|namespaces| - 1]| > n then |namespaces[|namespaces| - 1]| else n
  }

  lemma {:induction false} PartIsShorter(s: string, k: nat)
    requires k < |Split(s)|
    ensures |Split(s)[k]| <= |s|
  {
    if s != "" {
      if s[0] == '/' {
        if k > 0 { PartIsShorter(s[1..], k - 1); }
      } else {
        PartIsShorter(s[1..], k);
      }
    }
  }

  /** Literal parts that may stand in a stream path. */
  ghost predicate LegalPattern(parts: seq<string>) {
    parts != [] && forall k :: 0 <= k < |parts| ==> IsWild(parts[k]) || IsLegal(Decode(parts[k]))
  }

  lemma {:induction false} WitnessAt(parts: seq<string>, filler: string, k: nat)
    requires k < |parts|
    ensures Witness(parts, filler)[k] == if IsWild(parts[k]) then filler else Decode(parts[k])
  {
    if k > 0 {
      WitnessAt(parts[1..], filler, k - 1);
    }
  }

  lemma WitnessIsStreamPath(parts: seq<string>, filler: string)
    requires LegalPattern(parts) && IsLegal(filler) && '/' !in filler
    requires forall k :: 0 <= k < |parts| ==> '/' !in parts[k]
    ensures Split(Join(Witness(parts, filler))) == Witness(parts, filler)
    ensures IsStreamPath(Join(Witness(parts, filler)))
  {
    var path := Witness(parts, filler);
    forall k | 0 <= k < |path| ensures '/' !in path[k] && IsLegal(path[k]) {
      WitnessAt(parts, filler, k);
      ReplaceAllPlain(parts[k], "%2A");
      ReplaceAllPlain(ReplaceAll(parts[k], "%2A"), "%2a");
    }
    SplitJoin(path);
  }

  /** No namespace covers the witness: it would have to cover the literal prefix. */
  lemma WitnessEscapes(namespaces: seq<string>, parts: seq<string>, filler: string, k: nat)
    requires k < |namespaces| && Longest(namespaces) < |filler|
    requires Split(namespaces[k]) <= Witness(parts, filler)
    ensures Literals(parts) != [] && Split(namespaces[k]) <= Literals(parts)
  {
    var covered, path, n := Split(namespaces[k]), Witness(parts, filler), |Literals(parts)|;
    WitnessFront(parts, filler);
    assert |covered| <= n by {
      if n < |covered| {
        assert covered[n] == filler;
        PartIsShorter(namespaces[k], n);
      }
    }
    assert covered <= path[..n];
  }

  /** A pattern with legal parts that is refused does match a path the caller may not link. */
  lemma RefusedPatternEscapes(namespaces: seq<string>, pattern: string)
    requires LegalPattern(SplitPath(pattern)) && !MayLinkPattern(namespaces, pattern)
    ensures exists path ::
              IsStreamPath(path) && Matches(SplitPath(pattern), SplitPath(path)) && !MayLink(namespaces, path)
  {
    var parts := SplitPath(pattern);
    var filler := Filler(Longest(namespaces) + 3);
    var path := Join(Witness(parts, filler));
    SplitPathHasNoSlash(pattern);
    WitnessMatches(parts, filler);
    WitnessIsStreamPath(parts, filler);
    StreamPathParts(path);
    hide Matches;
    if MayLink(namespaces, path) {
      var k :| 0 <= k < |namespaces| && Within(path, namespaces[k]);
      WithinMeansParts(path, namespaces[k]);
      WitnessEscapes(namespaces, parts, filler, k);
      LegalPrefix(parts);
      PrefixParts(pattern);
      WithinMeansParts(Join(Literals(parts)), namespaces[k]);
      assert false;
    }
  }

  lemma {:induction false} LiteralsAt(parts: seq<string>, k: nat)
    requires k < |Literals(parts)|
    ensures k < |parts| && !IsWild(parts[k]) && Literals(parts)[k] == Decode(parts[k])
  {
    if k > 0 {
      LiteralsAt(parts[1..], k - 1);
    }
  }

  lemma LegalPrefix(parts: seq<string>)
    requires LegalPattern(parts)
    ensures forall k :: 0 <= k < |Literals(parts)| ==> IsLegal(Literals(parts)[k])
  {
    forall k | 0 <= k < |Literals(parts)| ensures IsLegal(Literals(parts)[k]) {
      LiteralsAt(parts, k);
    }
  }
}
