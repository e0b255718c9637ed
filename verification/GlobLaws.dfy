/** Subscription patterns by their laws: what one part matches, how patterns compose, what an
    escaped star stands for, and that outer slashes do not count (webhook/glob.go). */
module GlobLaws {
  import opened Globs

  // ---- composition ----

  /** What a pattern of one part matches. */
  lemma MatchesAlone(part: string, path: seq<string>)
    ensures Matches([part], path) <==>
            if part == "**" then true else if part == "*" then |path| == 1 else path == [Decode(part)]
  {
    MatchesFirst([part], path);
    assert [part][1..] == [];
    forall i | 0 <= i <= |path| ensures Matches([part][1..], path[i..]) <==> i == |path| {
      MatchesNothing(path[i..]);
    }
    hide Matches;
    assert path[..|path|] == path;
  }

  /** The path falls in two at `i`, one piece for each pattern. */
  ghost predicate MatchesAt(a: seq<string>, b: seq<string>, path: seq<string>, i: nat) {
    i <= |path| && Matches(a, path[..i]) && Matches(b, path[i..])
  }

  /** A pattern in two pieces matches what falls into two pieces, one for each. */
  lemma MatchesConcat(a: seq<string>, b: seq<string>, path: seq<string>)
    ensures Matches(a + b, path) <==> exists i: nat :: MatchesAt(a, b, path, i)
  {
    hide Matches;
    if Matches(a + b, path) {
      var i := FallsInTwo(a, b, path);
    }
    if i: nat :| MatchesAt(a, b, path, i) {
      MatchesTogether(a, b, path, i);
    }
  }

  lemma {:induction false} FallsInTwo(a: seq<string>, b: seq<string>, path: seq<string>) returns (i: nat)
    requires Matches(a + b, path)
    ensures MatchesAt(a, b, path, i)
    decreases |a|
  {
    hide Matches;
    if a == [] {
      i := 0;
      assert a + b == b && path[0..] == path && path[..0] == [];
      MatchesNothing([]);
    } else {
      var j := FirstTakes(a + b, path);
      assert (a + b)[1..] == a[1..] + b;
      var k := FallsInTwo(a[1..], b, path[j..]);
      i := j + k;
      assert path[j..][k..] == path[i..] && path[j..][..k] == path[j..i];
      TakesFirst(a, path[..i], j);
    }
  }

  lemma {:induction false} MatchesTogether(a: seq<string>, b: seq<string>, path: seq<string>, i: nat)
    requires MatchesAt(a, b, path, i)
    ensures Matches(a + b, path)
    decreases |a|
  {
    hide Matches;
    if a == [] {
      MatchesNothing(path[..i]);
      assert a + b == b && path[i..] == path;
    } else {
      var j := FirstTakes(a, path[..i]);
      assert path[..i][j..] == path[j..][..i - j] && path[j..][i - j..] == path[i..] && path[..i][..j] == path[..j];
      MatchesTogether(a[1..], b, path[j..], i - j);
      assert (a + b)[1..] == a[1..] + b;
      TakesFirst(a + b, path, j);
    }
  }

  lemma FirstTakes(pattern: seq<string>, path: seq<string>) returns (j: nat)
    requires pattern != [] && Matches(pattern, path)
    ensures j <= |path| && StandsFor(pattern[0], path[..j]) && Matches(pattern[1..], path[j..])
  {
    MatchesFirst(pattern, path);
    hide Matches;
    j :| 0 <= j <= |path| && StandsFor(pattern[0], path[..j]) && Matches(pattern[1..], path[j..]);
  }

  lemma TakesFirst(pattern: seq<string>, path: seq<string>, j: nat)
    requires pattern != [] && j <= |path| && StandsFor(pattern[0], path[..j]) && Matches(pattern[1..], path[j..])
    ensures Matches(pattern, path)
  {
    MatchesFirst(pattern, path);
    hide Matches;
  }

  // ---- escaped stars ----

  /** No occurrence that begins in the first piece goes on into the second. */
  lemma NoneCrosses(a: string, b: string, code: string)
    requires a != "" && code != "" && (b != "" ==> b[0] !in code[1..])
    ensures code <= a + b <==> code <= a
  {
    if |a| < |code| {
      assert code[|a|] == code[1..][|a| - 1];
    }
  }

  lemma {:induction false} ReplaceConcat(a: string, b: string, code: string)
    requires code != "" && (b != "" ==> b[0] !in code[1..])
    ensures ReplaceAll(a + b, code) == ReplaceAll(a, code) + ReplaceAll(b, code)
    decreases |a|
  {
    if a == "" {
      assert a + b == b;
    } else {
      NoneCrosses(a, b, code);
      var n := if code <= a then |code| else 1;
      assert (a + b)[n..] == a[n..] + b;
      ReplaceConcat(a[n..], b, code);
    }
  }

  lemma ReplaceFirst(c: char, b: string, code: string)
    requires code != "" && c != code[0]
    ensures ReplaceAll([c] + b, code) == [c] + ReplaceAll(b, code)
  {
    assert ([c] + b)[1..] == b;
  }

  lemma ReplaceCode(b: string, code: string)
    requires code != ""
    ensures ReplaceAll(code + b, code) == "*" + ReplaceAll(b, code)
  {
    assert (code + b)[|code|..] == b;
  }

  /** The other spelling of the code is passed over. */
  lemma ReplaceOther(b: string)
    ensures ReplaceAll("%2a" + b, "%2A") == "%2a" + ReplaceAll(b, "%2A")
  {
    var text, rest := "%2a" + b, "2a" + b;
    assert text[2] == 'a' && !("%2A" <= text) && text[1..] == rest;
    assert rest == ['2'] + ("a" + b) && "a" + b == ['a'] + b;
    ReplaceFirst('2', "a" + b, "%2A");
    ReplaceFirst('a', b, "%2A");
    assert ["%"[0]] + (['2'] + (['a'] + ReplaceAll(b, "%2A"))) == "%2a" + ReplaceAll(b, "%2A");
  }

  /** Either spelling of an escaped star, anywhere in a part, stands for a star, and splits the
      part in two that are decoded on their own. */
  lemma DecodeSplits(a: string, b: string)
    ensures Decode(a + "%2A" + b) == Decode(a) + "*" + Decode(b)
    ensures Decode(a + "%2a" + b) == Decode(a) + "*" + Decode(b)
  {
    hide ReplaceAll;
    var x, y := ReplaceAll(a, "%2A"), ReplaceAll(b, "%2A");
    assert a + "%2A" + b == a + ("%2A" + b) && a + "%2a" + b == a + ("%2a" + b);
    ReplaceConcat(a, "%2A" + b, "%2A");
    ReplaceCode(b, "%2A");
    ReplaceConcat(x, "*" + y, "%2a");
    ReplaceFirst('*', y, "%2a");
    ReplaceConcat(a, "%2a" + b, "%2A");
    ReplaceOther(b);
    ReplaceConcat(x, "%2a" + y, "%2a");
    ReplaceCode(y, "%2a");
    assert x + ("*" + y) == x + "*" + y;
  }

  /** A part without an escaped star stands for itself. */
  lemma DecodePlain(part: string)
    requires forall i :: 0 <= i <= |part| ==> !("%2A" <= part[i..]) && !("%2a" <= part[i..])
    ensures Decode(part) == part
  {
    NothingToReplace(part, "%2A");
    NothingToReplace(part, "%2a");
  }

  lemma {:induction false} NothingToReplace(s: string, code: string)
    requires code != "" && forall i :: 0 <= i <= |s| ==> !(code <= s[i..])
    ensures ReplaceAll(s, code) == s
    decreases |s|
  {
    if s != "" {
      assert s[0..] == s;
      forall i | 0 <= i <= |s[1..]| ensures !(code <= s[1..][i..]) {
        assert s[1..][i..] == s[i + 1..];
      }
      NothingToReplace(s[1..], code);
    }
  }

  // ---- outer slashes ----

  lemma OuterSlashes(p: string)
    ensures SplitPath("/" + p) == SplitPath(p)
    ensures SplitPath(p + "/") == SplitPath(p)
  {
    assert ("/" + p)[1..] == p;
    TrimBoth(p);
  }

  lemma {:induction false} TrimBoth(p: string)
    ensures TrimRight(TrimLeft(p + "/")) == TrimRight(TrimLeft(p))
  {
    if p == "" {
      assert p + "/" == "/" && "/"[1..] == "";
    } else if p[0] == '/' {
      assert (p + "/")[1..] == p[1..] + "/";
      TrimBoth(p[1..]);
    } else {
      assert (p + "/")[..|p|] == p;
    }
  }
}
