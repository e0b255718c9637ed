/** Stream paths and namespace prefixes (auth/path.go). */
module Paths {
  import opened Prelude

  /** The parts between slashes. */
  function Split(s: string): (r: seq<string>)
    ensures r != []
    ensures forall k :: 0 <= k < |r| ==> '/' !in r[k]
  {
    if s == "" then [""]
    else if s[0] == '/' then [""] + Split(s[1..])
    else (var rest := Split(s[1..]); [[s[0]] + rest[0]] + rest[1..])
  }

  function Join(parts: seq<string>): string
    requires parts != []
  {
    if |parts| == 1 then parts[0] else parts[0] + "/" + Join(parts[1..])
  }

  lemma {:induction false} JoinSplit(s: string)
    ensures Join(Split(s)) == s
  {
    if s != "" {
      JoinSplit(s[1..]);
      var rest := Split(s[1..]);
      if s[0] == '/' {
        assert ([""] + rest)[1..] == rest;
      } else {
        assert ([[s[0]] + rest[0]] + rest[1..])[1..] == rest[1..];
        assert s == [s[0]] + s[1..];
      }
    }
  }

  /** A slash separates what is before it from what is after it. */
  lemma {:induction false} SplitConcat(a: string, b: string)
    ensures Split(a + "/" + b) == Split(a) + Split(b)
  {
    var s := a + "/" + b;
    if a == "" {
      assert s[1..] == b;
    } else {
      assert s[1..] == a[1..] + "/" + b;
      SplitConcat(a[1..], b);
    }
  }

  lemma {:induction false} SplitPlain(s: string)
    requires '/' !in s
    ensures Split(s) == [s]
  {
    if s != "" {
      SplitPlain(s[1..]);
      assert s == [s[0]] + s[1..];
    }
  }

  lemma {:induction false} SplitJoin(parts: seq<string>)
    requires parts != [] && forall k :: 0 <= k < |parts| ==> '/' !in parts[k]
    ensures Split(Join(parts)) == parts
  {
    SplitPlain(parts[0]);
    if |parts| > 1 {
      SplitJoin(parts[1..]);
      SplitConcat(parts[0], Join(parts[1..]));
      assert [parts[0]] + parts[1..] == parts;
    } else {
      assert parts == [parts[0]];
    }
  }

  lemma {:induction false} JoinConcat(a: seq<string>, b: seq<string>)
    requires a != [] && b != []
    ensures Join(a + b) == Join(a) + "/" + Join(b)
  {
    if |a| == 1 {
      assert (a + b)[1..] == b;
    } else {
      assert (a + b)[1..] == a[1..] + b;
      JoinConcat(a[1..], b);
      assert a[0] + "/" + (Join(a[1..]) + "/" + Join(b)) == (a[0] + "/" + Join(a[1..])) + "/" + Join(b);
    }
  }

  predicate IsLegal(part: string) {
    part != "" && part != "." && part != ".."
  }

  /** A normalized stream path: no empty, `.` or `..` part. */
  predicate IsStreamPath(p: string) {
    forall k :: 0 <= k < |Split(p)| ==> IsLegal(Split(p)[k])
  }

  /** `NormalizeStreamPath`: at most one leading slash is dropped. */
  function Normalize(raw: string): (r: Option<string>)
    ensures r.Some? ==> IsStreamPath(r.value) && (raw == r.value || raw == "/" + r.value)
    ensures r.None? ==> !IsStreamPath(raw) && forall p :: raw == "/" + p ==> !IsStreamPath(p)
  {
    var p := if raw != "" && raw[0] == '/' then raw[1..] else raw;
    assert raw == "" || raw[0] == '/' ==> Split(raw)[0] == "";
    if p != "" && IsStreamPath(p) then Some(p) else None
  }

  /** A path is taken exactly if no part of it, after one leading slash, is empty, `.` or `..`. */
  lemma NormalizeAccepts(raw: string)
    ensures var p := if raw != "" && raw[0] == '/' then raw[1..] else raw;
            Normalize(raw) ==
            if forall k :: 0 <= k < |Split(p)| ==> Split(p)[k] !in {"", ".", ".."} then Some(p) else None
  {
    var p := if raw != "" && raw[0] == '/' then raw[1..] else raw;
    assert forall k :: 0 <= k < |Split(p)| ==> (IsLegal(Split(p)[k]) <==> Split(p)[k] !in {"", ".", ".."});
    if p == "" {
      assert Split(p)[0] == "";
    }
  }

  /** `PathWithinPrefixes`. */
  predicate WithinPrefixes(path: string, prefixes: seq<string>) {
    exists k :: 0 <= k < |prefixes| && Within(path, prefixes[k])
  }

  /** One prefix covers the path. */
  predicate Within(path: string, prefix: string) {
    path == prefix || prefix + "/" <= path
  }

  /** A prefix covers whole parts: `events` covers `events/a` and itself, never `eventsx`. */
  lemma WithinMeansParts(path: string, prefix: string)
    ensures Within(path, prefix) <==> Split(prefix) <= Split(path)
  {
    if prefix + "/" <= path {
      var rest := path[|prefix| + 1..];
      assert path == prefix + "/" + rest;
      SplitConcat(prefix, rest);
    }
    if Split(prefix) <= Split(path) {
      var n, rest := |Split(prefix)|, Split(path)[|Split(prefix)|..];
      assert Split(path) == Split(prefix) + rest;
      JoinSplit(path);
      JoinSplit(prefix);
      if rest != [] {
        JoinConcat(Split(prefix), rest);
      } else {
        assert Split(path) == Split(prefix);
      }
    }
  }
}
