/** Whom an X-Forwarded-Client-Cert header authenticates, in terms of its text (auth/service.go). */
module XfccVerdicts {
  import opened Prelude
  import opened Xfcc
  import opened XfccTexts

  /** The pair names a trusted subject. */
  ghost predicate Says(p: Pair, trusted: seq<string>) {
    NamesUri(p.key) && p.value != "" && p.value in trusted
  }

  /** Pair `k` is the first of the element that does. */
  ghost predicate Speaks(element: Element, trusted: seq<string>, k: nat) {
    k < |element| && Says(element[k], trusted) && forall j :: 0 <= j < k ==> !Says(element[j], trusted)
  }

  lemma {:induction false} FirstTrustedConcat(a: seq<string>, b: seq<string>, trusted: seq<string>)
    ensures FirstTrusted(a + b, trusted) ==
            if FirstTrusted(a, trusted).Some? then FirstTrusted(a, trusted) else FirstTrusted(b, trusted)
  {
    hide IsFirst;
    if a == [] {
      assert a + b == b;
    } else {
      assert (a + b)[1..] == a[1..] + b;
      FirstTrustedConcat(a[1..], b, trusted);
    }
  }

  lemma OneTrusted(u: string, trusted: seq<string>)
    ensures FirstTrusted([u], trusted) == if u in trusted then Some(u) else None
  {
    hide IsFirst;
    assert [u][1..] == [];
  }

  /** The first trusted URI of an element is the value of the first pair that names one. */
  lemma {:induction false} FirstToSpeak(element: Element, trusted: seq<string>)
    ensures var r := FirstTrusted(UrisOf(element), trusted);
            && (r.None? <==> forall k :: 0 <= k < |element| ==> !Says(element[k], trusted))
            && (r.Some? ==> exists k: nat :: Speaks(element, trusted, k) && r.value == element[k].value)
  {
    if element != [] {
      var n := |element| - 1;
      var p, front := element[n], element[..n];
      FirstToSpeak(front, trusted);
      UriKeys(p.key);
      OneTrusted(p.value, trusted);
      hide FirstTrusted, IsFirst, IsUriKey, NamesUri;
      FirstTrustedConcat(UrisOf(front), if IsUriKey(p.key) && p.value != "" then [p.value] else [], trusted);
      NobodyIsTrusted("", trusted);
      assert forall k :: 0 <= k < n ==> front[k] == element[k];
      if FirstTrusted(UrisOf(front), trusted).Some? {
        var k: nat :| Speaks(front, trusted, k) && FirstTrusted(UrisOf(front), trusted).value == front[k].value;
        assert Speaks(element, trusted, k);
      } else if Says(p, trusted) {
        assert Speaks(element, trusted, n);
      }
    }
  }

  lemma OnlyOneSpeaks(element: Element, trusted: seq<string>, k: nat, j: nat)
    requires Speaks(element, trusted, k) && Speaks(element, trusted, j)
    ensures k == j
  {
  }

  /** Whom a header authenticates.  It is accepted, and the first pair of its last element whose key
      is `uri` in any case and whose value is a trusted, non-empty subject names that subject. */
  lemma VerdictNamesFirst(header: string, trusted: seq<string>, u: string)
    ensures Verdict(header, trusted) == Some(u) <==>
            && Parse(header).Ok? && Parse(header).value != []
            && var last := Parse(header).value[|Parse(header).value| - 1];
               exists k: nat :: Speaks(last, trusted, k) && last[k].value == u
  {
    NobodyIsTrusted(header, trusted);
    EmptyHeader();
    hide Parse, UrisOf, FirstTrusted, IsFirst;
    if Parse(header).Ok? && Parse(header).value != [] {
      var last := Parse(header).value[|Parse(header).value| - 1];
      FirstToSpeak(last, trusted);
      var r := FirstTrusted(UrisOf(last), trusted);
      if r.Some? {
        var k: nat :| Speaks(last, trusted, k) && r.value == last[k].value;
        forall j: nat | Speaks(last, trusted, j) ensures last[j].value == r.value {
          OnlyOneSpeaks(last, trusted, k, j);
        }
      }
    }
  }

  /** A value with a backslash before each quote and each backslash. */
  function Escaped(v: string): seq<Item> {
    seq(|v|, i requires 0 <= i < |v| => Item(v[i] == '"' || v[i] == '\\', v[i]))
  }

  ghost predicate Trimmed(s: string) {
    s != "" ==> !White(s[0]) && !White(s[|s| - 1])
  }

  lemma TrimStays(s: string)
    requires Trimmed(s)
    ensures TrimSpace(s) == s
  {
  }

  lemma OnePair(p: Spelling, e: Element)
    requires Legal(p) && Meaning(p) == e
    ensures Parse(Text(p)) == Ok([e])
  {
    hide Legal, Meaning, Text;
    assert HeaderText([[p]]) == Text(p);
    assert ElementMeaning([p]) == [] + Meaning(p) == e;
    assert HeaderMeaning([[p]]) == [e];
    hide *;
    GrammarOfOne(p);
  }

  lemma GrammarOfOne(p: Spelling)
    requires Legal(p)
    ensures Parse(HeaderText([[p]])) == Ok(HeaderMeaning([[p]]))
  {
    GrammarIsAccepted([[p]]);
  }

  /** Any value can be sent: quoted, with its quotes and backslashes escaped, it arrives as it is;
      so does a trimmed value without special characters that is not quoted. */
  lemma ValueArrives(key: string, v: string)
    requires KeyText(key) && Trimmed(key)
    ensures Parse(key + "=" + "\"" + ItemsText(Escaped(v)) + "\"") == Ok([[Pair(key, v)]])
    ensures ValueText(v) && Trimmed(v) ==> Parse(key + "=" + v) == Ok([[Pair(key, v)]])
  {
    TrimStays(key);
    hide Parse, ItemsText, TrimSpace;
    var quoted := Quoted(key, "", Escaped(v), "");
    assert ItemsValue(Escaped(v)) == v;
    assert Text(quoted) == key + "=" + "\"" + ItemsText(Escaped(v)) + "\"";
    OnePair(quoted, [Pair(key, v)]);
    if ValueText(v) && Trimmed(v) {
      TrimStays(v);
      OnePair(Plain(key, v), [Pair(key, v)]);
    }
  }

  /** A header of one pair authenticates its value exactly if the key is `uri` and the value is a
      trusted, non-empty subject, and otherwise nobody. */
  lemma OnePairVerdict(key: string, v: string, trusted: seq<string>)
    requires KeyText(key) && Trimmed(key)
    ensures Verdict(key + "=" + "\"" + ItemsText(Escaped(v)) + "\"", trusted) ==
            if NamesUri(key) && v != "" && v in trusted then Some(v) else None
    ensures ValueText(v) && Trimmed(v) ==>
              Verdict(key + "=" + v, trusted) == if NamesUri(key) && v != "" && v in trusted then Some(v) else None
  {
    ValueArrives(key, v);
    hide Parse, ItemsText;
    PairVerdict(key + "=" + "\"" + ItemsText(Escaped(v)) + "\"", Pair(key, v), trusted);
    if ValueText(v) && Trimmed(v) {
      PairVerdict(key + "=" + v, Pair(key, v), trusted);
    }
  }

  lemma PairVerdict(header: string, p: Pair, trusted: seq<string>)
    requires Parse(header) == Ok([[p]])
    ensures Verdict(header, trusted) == if Says(p, trusted) then Some(p.value) else None
  {
    hide Parse, Says;
    if Verdict(header, trusted).Some? {
      VerdictNamesFirst(header, trusted, Verdict(header, trusted).value);
    }
    if Says(p, trusted) {
      var last := Parse(header).value[0];
      assert Speaks(last, trusted, 0) && last[0].value == p.value;
      VerdictNamesFirst(header, trusted, p.value);
    }
  }
}
