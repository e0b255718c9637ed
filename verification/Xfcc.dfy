/** The X-Forwarded-Client-Cert header and who it authenticates (auth/service.go). */
module Xfcc {
  import opened Prelude

  datatype Pair = Pair(key: string, value: string)

  /** The pairs that one hop added. */
  type Element = seq<Pair>

  datatype Refusal = UnterminatedQuote | MisplacedQuote | TrailingAfterQuote

  // ---- the grammar, one character at a time ----

  /** Where in a pair the reader is, with what it has collected there. */
  datatype Mode =
    | InKey(text: string)
    | BeforeValue(key: string)
    | InPlain(key: string, text: string)
    | InQuoted(key: string, text: string)
    | InEscape(key: string, text: string)
    | AfterQuoted(key: string, text: string)

  datatype Reader = Reader(elements: seq<Element>, element: Element, mode: Mode)

  const START := Reader([], [], InKey(""))

  predicate IsBlank(c: char) { c == ' ' || c == '\t' }

  predicate IsSpace(c: char) { c == ' ' || '\t' <= c <= '\r' }

  predicate IsSeparator(c: char) { c == ';' || c == ',' }

  function TrimLeft(s: string): string {
    if s != "" && IsSpace(s[0]) then TrimLeft(s[1..]) else s
  }

  function TrimRight(s: string): string {
    if s != "" && IsSpace(s[|s| - 1]) then TrimRight(s[..|s| - 1]) else s
  }

  function TrimSpace(s: string): string {
    TrimRight(TrimLeft(s))
  }

  /** A space, a tab, a line feed, a vertical tab, a form feed or a carriage return. */
  ghost predicate White(c: char) {
    c as int in {32, 9, 10, 11, 12, 13}
  }

  ghost predicate AllSpace(s: string) {
    forall i :: 0 <= i < |s| ==> White(s[i])
  }

  lemma {:induction false} TrimLeftCuts(s: string) returns (front: string)
    ensures s == front + TrimLeft(s) && AllSpace(front) && (TrimLeft(s) != "" ==> !White(TrimLeft(s)[0]))
  {
    front := "";
    if s != "" && IsSpace(s[0]) {
      var rest := TrimLeftCuts(s[1..]);
      front := [s[0]] + rest;
    }
  }

  lemma {:induction false} TrimRightCuts(s: string) returns (back: string)
    ensures s == TrimRight(s) + back && AllSpace(back) &&
        (TrimRight(s) != "" ==> !White(TrimRight(s)[|TrimRight(s)| - 1]))
  {
    back := "";
    if s != "" && IsSpace(s[|s| - 1]) {
      var rest := TrimRightCuts(s[..|s| - 1]);
      back := rest + [s[|s| - 1]];
    }
  }

  /** Trimming cuts blanks off both ends, and all of them. */
  lemma TrimSpaceCuts(s: string) returns (front: string, back: string)
    ensures var r := TrimSpace(s);
            && s == front + r + back && AllSpace(front) && AllSpace(back)
            && (r != "" ==> !White(r[0]) && !White(r[|r| - 1]))
  {
    front := TrimLeftCuts(s);
    back := TrimRightCuts(TrimLeft(s));
    var r := TrimSpace(s);
    assert front + (r + back) == front + r + back;
    assert r != "" ==> r[0] == TrimLeft(s)[0];
  }

  /** The pair that ends here, if there is one; inside quotes none can end. */
  function EndPair(m: Mode): Result<Element, Refusal> {
    match m
    case InKey(_) => Ok([])
    case BeforeValue(key) => Ok([Pair(TrimSpace(key), "")])
    case InPlain(key, text) => Ok([Pair(TrimSpace(key), TrimSpace(text))])
    case AfterQuoted(key, text) => Ok([Pair(TrimSpace(key), text)])
    case InQuoted(_, _) => Err(UnterminatedQuote)
    case InEscape(_, _) => Err(UnterminatedQuote)
  }

  predicate Inside(m: Mode) { m.InQuoted? || m.InEscape? }

  /** A character that does not end a pair. */
  function Within(m: Mode, c: char): Result<Mode, Refusal> {
    match m
    case InKey(text) =>
      if c == '"' then Err(MisplacedQuote) else if c == '=' then Ok(BeforeValue(text)) else Ok(InKey(text + [c]))
    case BeforeValue(key) =>
      if IsBlank(c) then Ok(m) else if c == '"' then Ok(InQuoted(key, "")) else Ok(InPlain(key, [c]))
    case InPlain(key, text) => if c == '"' then Err(MisplacedQuote) else Ok(InPlain(key, text + [c]))
    case InQuoted(key, text) =>
      if c == '\\' then Ok(InEscape(key, text))
      else if c == '"' then Ok(AfterQuoted(key, text))
      else Ok(InQuoted(key, text + [c]))
    case InEscape(key, text) => Ok(InQuoted(key, text + [c]))
    case AfterQuoted(_, _) => if IsBlank(c) then Ok(m) else Err(TrailingAfterQuote)
  }

  function Read(r: Reader, c: char): Result<Reader, Refusal> {
    if IsSeparator(c) && !Inside(r.mode) then
      var element := r.element + EndPair(r.mode).value;
      Ok(if c == ',' then Reader(r.elements + [element], [], InKey("")) else Reader(r.elements, element, InKey("")))
    else
      match Within(r.mode, c)
      case Err(e) => Err(e)
      case Ok(mode) => Ok(r.(mode := mode))
  }

  function ReadAll(r: Reader, s: string): Result<seq<Element>, Refusal>
    decreases |s|
  {
    if s == "" then
      match EndPair(r.mode)
      case Err(e) => Err(e)
      case Ok(last) => Ok(r.elements + [r.element + last])
    else
      match Read(r, s[0])
      case Err(e) => Err(e)
      case Ok(r') => ReadAll(r', s[1..])
  }

  // ---- compositionality ----

  /** The reader after all of `s`. */
  function After(r: Reader, s: string): Result<Reader, Refusal>
    decreases |s|
  {
    if s == "" then Ok(r)
    else match Read(r, s[0])
      case Err(e) => Err(e)
      case Ok(r') => After(r', s[1..])
  }

  lemma {:induction false} ReadAllConcat(r: Reader, a: string, b: string)
    ensures ReadAll(r, a + b) ==
            match After(r, a)
            case Err(e) => Err(e)
            case Ok(r') => ReadAll(r', b)
    decreases |a|
  {
    if a == "" {
      assert a + b == b;
    } else {
      assert (a + b)[1..] == a[1..] + b;
      if Read(r, a[0]).Ok? {
        ReadAllConcat(Read(r, a[0]).value, a[1..], b);
      }
    }
  }

  /** Elements already finished stay in front. */
  lemma {:induction false} FinishedStay(done: seq<Element>, r: Reader, s: string)
    ensures ReadAll(r.(elements := done + r.elements), s) ==
            match ReadAll(r, s)
            case Err(e) => Err(e)
            case Ok(elements) => Ok(done + elements)
    decreases |s|
  {
    var r0 := r.(elements := done + r.elements);
    if s == "" {
      if EndPair(r.mode).Ok? {
        var last := r.element + EndPair(r.mode).value;
        assert done + r.elements + [last] == done + (r.elements + [last]);
      }
    } else if Read(r, s[0]).Ok? {
      var r' := Read(r, s[0]).value;
      FinishedStay(done, r', s[1..]);
      if s[0] == ',' && !Inside(r.mode) {
        var last := r.element + EndPair(r.mode).value;
        assert done + r.elements + [last] == done + (r.elements + [last]);
      }
    }
  }

  /** The modes of one text read from the start, and read from inside a quoted value: while
      the first is outside quotes the second is inside, and the other way round. */
  ghost predicate Opposite(alone: Mode, carried: Mode) {
    if Inside(alone) then
      !Inside(carried) && (alone.InEscape? ==> carried.InKey? || carried.InPlain?)
    else
      Inside(carried) && (carried.InEscape? ==> alone.InKey? || alone.InPlain?)
  }

  lemma OppositeStep(alone: Reader, carried: Reader, c: char)
    requires Opposite(alone.mode, carried.mode) && Read(alone, c).Ok?
    ensures Read(carried, c).Err? || Opposite(Read(alone, c).value.mode, Read(carried, c).value.mode)
  {
  }

  lemma {:induction false} OppositeIsRefused(alone: Reader, carried: Reader, s: string)
    requires Opposite(alone.mode, carried.mode) && ReadAll(alone, s).Ok?
    ensures ReadAll(carried, s).Err?
    decreases |s|
  {
    if s != "" {
      OppositeStep(alone, carried, s[0]);
      if Read(carried, s[0]).Ok? {
        OppositeIsRefused(Read(alone, s[0]).value, Read(carried, s[0]).value, s[1..]);
      }
    }
  }

  function Parse(s: string): Result<seq<Element>, Refusal> {
    ReadAll(START, s)
  }

  lemma ReaderAfter(p: string)
    ensures Parse(p) == match After(START, p) case Err(e) => Err(e) case Ok(r) => ReadAll(r, "")
  {
    ReadAllConcat(START, p, "");
    assert p + "" == p;
  }

  /** Whatever precedes the comma, a suffix that parses alone contributes exactly its own
      elements, or the whole header is refused. */
  lemma ParseComposes(p: string, q: string)
    requires Parse(q).Ok?
    ensures var whole := Parse(p + "," + q);
            whole.Err? || (Parse(p).Ok? && whole == Ok(Parse(p).value + Parse(q).value))
  {
    assert p + "," + q == p + ("," + q);
    ReadAllConcat(START, p, "," + q);
    ReaderAfter(p);
    if After(START, p).Ok? {
      var r := After(START, p).value;
      assert ("," + q)[1..] == q;
      if Inside(r.mode) {
        OppositeIsRefused(START, Read(r, ',').value, q);
      } else {
        var done := r.elements + [r.element + EndPair(r.mode).value];
        FinishedStay(done, START, q);
        assert done + [] == done;
      }
    }
  }

  lemma ReadNext(r: Reader, s: string, i: nat)
    requires i < |s|
    ensures ReadAll(r, s[i..]) ==
            match Read(r, s[i])
            case Err(e) => Err(e)
            case Ok(r') => ReadAll(r', s[i + 1..])
  {
    assert s[i..][1..] == s[i + 1..];
  }

  lemma HeaderEnds(r: Reader, element: Element)
    requires !Inside(r.mode) && element == r.element + EndPair(r.mode).value
    ensures ReadAll(r, "") == Ok(r.elements + [element])
  {
  }

  lemma QuoteAlone()
    ensures Parse("\"") == Err(MisplacedQuote)
  {
  }

  /** A suffix that does not parse alone can be swallowed by the prefix's open quote. */
  lemma OpenSuffixIsSwallowed()
    ensures Parse("\"").Err?
    ensures Parse("=\"" + "," + "\"") == Ok([[Pair("", ",")]])
  {
    QuoteAlone();
    hide ReadAll, EndPair;
    var s := "=\",\"";
    assert "=\"" + "," + "\"" == s && s[0..] == s && s[4..] == "" && "" + [','] == ",";
    ReadNext(START, s, 0);
    ReadNext(Reader([], [], BeforeValue("")), s, 1);
    ReadNext(Reader([], [], InQuoted("", "")), s, 2);
    ReadNext(Reader([], [], InQuoted("", ",")), s, 3);
    TrimNothing();
    QuotedEnds("", ",");
    var last: Element := [Pair("", ",")];
    assert [] + last == last && [] + [last] == [last];
    HeaderEnds(Reader([], [], AfterQuoted("", ",")), last);
  }

  lemma QuotedEnds(key: string, text: string)
    ensures EndPair(AfterQuoted(key, text)) == Ok([Pair(TrimSpace(key), text)])
  {
  }

  // ---- the parser ----

  method SkipBlanks(s: string, start: nat) returns (i: nat)
    requires start <= |s|
    ensures start <= i <= |s| && (i < |s| ==> !IsBlank(s[i]))
    ensures forall k :: start <= k < i ==> IsBlank(s[k])
  {
    i := start;
    while i < |s| && IsBlank(s[i])
      invariant start <= i <= |s| && forall k :: start <= k < i ==> IsBlank(s[k])
    {
      i := i + 1;
    }
  }

  /** Blanks around a quoted value, or before any value, are passed over. */
  lemma {:induction false} BlanksPass(r: Reader, s: string, i: nat, j: nat)
    requires r.mode.BeforeValue? || r.mode.AfterQuoted?
    requires i <= j <= |s| && forall k :: i <= k < j ==> IsBlank(s[k])
    ensures ReadAll(r, s[i..]) == ReadAll(r, s[j..])
    decreases j - i
  {
    if i < j {
      assert s[i..][1..] == s[i + 1..];
      assert Read(r, s[i]) == Ok(r);
      BlanksPass(r, s, i + 1, j);
    }
  }

  /** Reads a key up to `=`, a separator or the end. */
  method ScanKey(s: string, start: nat, ghost r: Reader) returns (i: nat, ok: bool)
    requires start <= |s| && r.mode == InKey("")
    ensures ok ==>
              && start <= i <= |s| && (i < |s| ==> s[i] == '=' || IsSeparator(s[i]))
              && ReadAll(r, s[start..]) == ReadAll(r.(mode := InKey(s[start..i])), s[i..])
    ensures !ok ==> ReadAll(r, s[start..]) == Err(MisplacedQuote)
  {
    i := start;
    assert s[start..start] == "";
    while i < |s| && s[i] != '=' && !IsSeparator(s[i])
      invariant start <= i <= |s|
      invariant ReadAll(r, s[start..]) == ReadAll(r.(mode := InKey(s[start..i])), s[i..])
    {
      hide ReadAll;
      ReadNext(r.(mode := InKey(s[start..i])), s, i);
      if s[i] == '"' {
        return i, false;
      }
      assert s[start..i + 1] == s[start..i] + [s[i]];
      i := i + 1;
    }
    ok := true;
  }

  /** Reads an unquoted value up to a separator or the end. */
  method ScanPlain(s: string, start: nat, ghost r: Reader, ghost key: string) returns (i: nat, ok: bool)
    requires start <= |s| && r.mode == BeforeValue(key)
    requires start < |s| ==> !IsBlank(s[start]) && s[start] != '"'
    ensures ok ==>
              && start <= i <= |s| && (i < |s| ==> IsSeparator(s[i]))
              && ReadAll(r, s[start..]) ==
                 ReadAll(r.(mode := if i == start then BeforeValue(key) else InPlain(key, s[start..i])), s[i..])
    ensures !ok ==> ReadAll(r, s[start..]) == Err(MisplacedQuote)
  {
    i := start;
    ghost var mode := BeforeValue(key);
    while i < |s| && !IsSeparator(s[i])
      invariant start <= i <= |s|
      invariant mode == PlainMode(key, s, start, i)
      invariant ReadAll(r, s[start..]) == ReadAll(r.(mode := mode), s[i..])
    {
      hide ReadAll, PlainMode;
      PlainStep(r, key, s, start, i);
      if s[i] == '"' {
        return i, false;
      }
      i := i + 1;
      mode := PlainMode(key, s, start, i);
    }
    ok := true;
  }

  ghost function PlainMode(key: string, s: string, start: nat, i: nat): Mode
    requires start <= i <= |s|
  {
    if i == start then BeforeValue(key) else InPlain(key, s[start..i])
  }

  lemma PlainStep(r: Reader, key: string, s: string, start: nat, i: nat)
    requires start <= i < |s| && !IsSeparator(s[i])
    requires i == start ==> !IsBlank(s[i]) && s[i] != '"'
    ensures ReadAll(r.(mode := PlainMode(key, s, start, i)), s[i..]) ==
            if s[i] == '"' then Err(MisplacedQuote)
            else ReadAll(r.(mode := PlainMode(key, s, start, i + 1)), s[i + 1..])
  {
    hide ReadAll;
    ReadNext(r.(mode := PlainMode(key, s, start, i)), s, i);
    assert s[start..i + 1] == s[start..i] + [s[i]] && (i == start ==> s[start..i + 1] == [s[i]]);
  }

  /** Reads a quoted value to its closing quote; `start` is after the opening one. */
  method ScanQuoted(s: string, start: nat, ghost r: Reader, ghost key: string) returns (i: nat, text: string, ok: bool)
    requires start <= |s| && r.mode == InQuoted(key, "")
    ensures ok ==>
              && start <= i <= |s|
              && ReadAll(r, s[start..]) == ReadAll(r.(mode := AfterQuoted(key, text)), s[i..])
    ensures !ok ==> ReadAll(r, s[start..]) == Err(UnterminatedQuote)
  {
    i, text := start, "";
    while i < |s|
      invariant start <= i <= |s|
      invariant ReadAll(r, s[start..]) == ReadAll(r.(mode := InQuoted(key, text)), s[i..])
    {
      hide ReadAll;
      ReadNext(r.(mode := InQuoted(key, text)), s, i);
      var c := s[i];
      if c == '\\' {
        if i + 1 >= |s| {
          EndsInside(r.(mode := InEscape(key, text)));
          return i, text, false;
        }
        ReadNext(r.(mode := InEscape(key, text)), s, i + 1);
        text := text + [s[i + 1]];
        i := i + 2;
        continue;
      }
      i := i + 1;
      if c == '"' {
        return i, text, true;
      }
      text := text + [c];
    }
    EndsInside(r.(mode := InQuoted(key, text)));
    return i, text, false;
  }

  lemma EndsInside(r: Reader)
    requires Inside(r.mode)
    ensures ReadAll(r, "") == Err(UnterminatedQuote)
  {
  }

  /** Reads the value after `=`; on success the reader is at a separator or the end. */
  method ScanValue(s: string, start: nat, ghost r: Reader, key: string)
    returns (i: nat, value: string, refused: Option<Refusal>, ghost mode: Mode)
    requires start <= |s| && r.mode == BeforeValue(key)
    ensures refused.None? ==>
              && start <= i <= |s| && (i < |s| ==> IsSeparator(s[i]))
              && !Inside(mode) && EndPair(mode) == Ok([Pair(TrimSpace(key), value)])
              && ReadAll(r, s[start..]) == ReadAll(r.(mode := mode), s[i..])
    ensures refused.Some? ==> ReadAll(r, s[start..]) == Err(refused.value)
  {
    hide ReadAll;
    i := SkipBlanks(s, start);
    BlanksPass(r, s, start, i);
    mode := BeforeValue(key);
    if i < |s| && s[i] == '"' {
      ReadNext(r, s, i);
      var ok;
      i, value, ok := ScanQuoted(s, i + 1, r.(mode := InQuoted(key, "")), key);
      if !ok {
        return i, value, Some(UnterminatedQuote), mode;
      }
      mode := AfterQuoted(key, value);
      var j := SkipBlanks(s, i);
      BlanksPass(r.(mode := mode), s, i, j);
      i := j;
      if i < |s| && !IsSeparator(s[i]) {
        ReadNext(r.(mode := mode), s, i);
        return i, value, Some(TrailingAfterQuote), mode;
      }
      return i, value, None, mode;
    }
    var from := i;
    var ok;
    i, ok := ScanPlain(s, from, r, key);
    if !ok {
      return i, "", Some(MisplacedQuote), mode;
    }
    mode := if i == from then BeforeValue(key) else InPlain(key, s[from..i]);
    TrimNothing();
    return i, TrimSpace(s[from..i]), None, mode;
  }

  lemma TrimNothing()
    ensures TrimSpace("") == ""
  {
  }

  /** Reads a key and, after `=`, its value; on success the reader is at a separator or the end. */
  method ScanPair(s: string, start: nat, element: Element, ghost r: Reader)
    returns (i: nat, element': Element, refused: Option<Refusal>, ghost mode: Mode)
    requires start <= |s| && r.mode == InKey("") && element == r.element
    ensures refused.None? ==>
              && start <= i <= |s| && (i < |s| ==> IsSeparator(s[i]))
              && !Inside(mode) && element' == r.element + EndPair(mode).value
              && ReadAll(r, s[start..]) == ReadAll(r.(mode := mode), s[i..])
    ensures refused.Some? ==> ReadAll(r, s[start..]) == Err(refused.value)
  {
    hide ReadAll, TrimSpace;
    element' := element;
    var ok;
    i, ok := ScanKey(s, start, r);
    if !ok {
      return i, element, Some(MisplacedQuote), InKey("");
    }
    var key := s[start..i];
    mode := InKey(key);
    refused := None;
    if i < |s| && s[i] == '=' {
      ReadNext(r.(mode := mode), s, i);
      var value;
      i, value, refused, mode := ScanValue(s, i + 1, r.(mode := BeforeValue(key)), key);
      element' := element + [Pair(TrimSpace(key), value)];
    }
  }

  /** `parseXFCC`. */
  method ParseHeader(s: string) returns (result: Result<seq<Element>, Refusal>)
    ensures result == Parse(s)
  {
    var elements: seq<Element>, element: Element := [], [];
    var i := 0;
    assert s[0..] == s;
    hide ReadAll, EndPair, Within;
    while true
      invariant 0 <= i <= |s| && ReadAll(Reader(elements, element, InKey("")), s[i..]) == Parse(s)
      decreases |s| - i
    {
      ghost var r := Reader(elements, element, InKey(""));
      var refused;
      ghost var mode;
      i, element, refused, mode := ScanPair(s, i, element, r);
      if refused.Some? {
        return Err(refused.value);
      }
      if i >= |s| {
        HeaderEnds(r.(mode := mode), element);
        return Ok(elements + [element]);
      }
      ReadNext(r.(mode := mode), s, i);
      if s[i] == ',' {
        elements := elements + [element];
        element := [];
      }
      i := i + 1;
    }
  }

  // ---- who the header authenticates ----

  function LowerAscii(c: char): char {
    if 'A' <= c <= 'Z' then c - 'A' + 'a' else c
  }

  predicate IsUriKey(key: string) {
    |key| == 3 && LowerAscii(key[0]) == 'u' && LowerAscii(key[1]) == 'r' && LowerAscii(key[2]) == 'i'
  }

  /** The URIs that an element asserts, in order. */
  function UrisOf(element: Element): seq<string> {
    if element == [] then []
    else
      var p := element[|element| - 1];
      UrisOf(element[..|element| - 1]) + if IsUriKey(p.key) && p.value != "" then [p.value] else []
  }

  method Uris(element: Element) returns (uris: seq<string>)
    ensures uris == UrisOf(element)
  {
    uris := [];
    for k := 0 to |element|
      invariant uris == UrisOf(element[..k])
    {
      var p := element[k];
      assert element[..k + 1][..k] == element[..k];
      if IsUriKey(p.key) && p.value != "" {
        uris := uris + [p.value];
      }
    }
    assert element[..|element|] == element;
  }

  /** The key is `uri`, in any case. */
  ghost predicate NamesUri(key: string) {
    |key| == 3 && key[0] in {'u', 'U'} && key[1] in {'r', 'R'} && key[2] in {'i', 'I'}
  }

  lemma UriKeys(key: string)
    ensures IsUriKey(key) <==> NamesUri(key)
  {
  }

  /** An element asserts exactly the non-empty values of its URI keys. */
  lemma {:induction false} UrisAreAsserted(element: Element, u: string)
    ensures u in UrisOf(element) <==>
            u != "" && exists k :: 0 <= k < |element| && NamesUri(element[k].key) && element[k].value == u
  {
    if element != [] {
      var n := |element| - 1;
      UrisAreAsserted(element[..n], u);
      UriKeys(element[n].key);
      hide IsUriKey, NamesUri;
      if k :| 0 <= k < |element| && NamesUri(element[k].key) && element[k].value == u {
        assert k < n ==> element[..n][k] == element[k];
      }
    }
  }

  /** The URI at `i` is trusted, and none before it is. */
  ghost predicate IsFirst(uris: seq<string>, trusted: seq<string>, i: nat) {
    i < |uris| && uris[i] in trusted && forall j :: 0 <= j < i ==> uris[j] !in trusted
  }

  lemma FirstOfRest(uris: seq<string>, trusted: seq<string>, i: nat)
    requires uris != [] && uris[0] !in trusted && IsFirst(uris[1..], trusted, i)
    ensures IsFirst(uris, trusted, i + 1) && uris[i + 1] == uris[1..][i]
  {
    assert forall j :: 1 <= j <= i ==> uris[j] == uris[1..][j - 1];
  }

  /** The first of `uris` that is trusted. */
  function FirstTrusted(uris: seq<string>, trusted: seq<string>): (r: Option<string>)
    ensures r.None? <==> forall u :: u in uris ==> u !in trusted
    ensures r.Some? ==> exists i: nat :: IsFirst(uris, trusted, i) && r.value == uris[i]
  {
    if uris == [] then None
    else if uris[0] in trusted then assert IsFirst(uris, trusted, 0); Some(uris[0])
    else
      assert forall i: nat :: IsFirst(uris[1..], trusted, i) ==>
               IsFirst(uris, trusted, i + 1) && uris[i + 1] == uris[1..][i] by {
        forall i: nat | IsFirst(uris[1..], trusted, i)
          ensures IsFirst(uris, trusted, i + 1) && uris[i + 1] == uris[1..][i]
        {
          FirstOfRest(uris, trusted, i);
        }
      }
      FirstTrusted(uris[1..], trusted)
  }

  /** Whom a header authenticates: only its last element has a say. */
  function Verdict(header: string, trusted: seq<string>): Option<string> {
    if header == "" || Parse(header).Err? || Parse(header).value == [] then None
    else FirstTrusted(UrisOf(Parse(header).value[|Parse(header).value| - 1]), trusted)
  }

  lemma {:induction false} ParseIsNotEmpty(r: Reader, s: string)
    ensures ReadAll(r, s).Ok? ==> ReadAll(r, s).value != []
    decreases |s|
  {
    if s != "" && Read(r, s[0]).Ok? {
      ParseIsNotEmpty(Read(r, s[0]).value, s[1..]);
    }
  }

  /** `verifyXFCC`. */
  method Verify(header: string, trusted: seq<string>) returns (subject: Option<string>, refused: bool)
    ensures subject == Verdict(header, trusted)
    ensures refused <==> header != "" && trusted != [] && Parse(header).Err?
  {
    hide *;
    NobodyIsTrusted(header, trusted);
    if header == "" || |trusted| == 0 {
      return None, false;
    }
    var parsed := ParseHeader(header);
    if parsed.Err? {
      return None, true;
    }
    LastHopDecides(header, trusted);
    var elements := parsed.value;
    var uris := Uris(elements[|elements| - 1]);
    assert uris[0..] == uris;
    for i := 0 to |uris|
      invariant FirstTrusted(uris, trusted) == FirstTrusted(uris[i..], trusted)
    {
      TrustedFrom(uris, i, trusted);
      for j := 0 to |trusted|
        invariant uris[i] !in trusted[..j]
      {
        if uris[i] == trusted[j] {
          return Some(uris[i]), false;
        }
      }
      assert trusted[..|trusted|] == trusted;
    }
    assert uris[|uris|..] == [];
    return None, false;
  }

  lemma NobodyIsTrusted(header: string, trusted: seq<string>)
    ensures header == "" || trusted == [] || Parse(header).Err? ==> Verdict(header, trusted) == None
    ensures FirstTrusted([], trusted) == None
  {
  }

  lemma LastHopDecides(header: string, trusted: seq<string>)
    requires header != "" && Parse(header).Ok?
    ensures var elements := Parse(header).value;
            && elements != []
            && Verdict(header, trusted) == FirstTrusted(UrisOf(elements[|elements| - 1]), trusted)
  {
    ParseIsNotEmpty(START, header);
  }

  lemma TrustedFrom(uris: seq<string>, i: nat, trusted: seq<string>)
    requires i < |uris|
    ensures FirstTrusted(uris[i..], trusted) ==
            if uris[i] in trusted then Some(uris[i]) else FirstTrusted(uris[i + 1..], trusted)
  {
    hide IsFirst;
    assert uris[i..][1..] == uris[i + 1..];
  }

  lemma EmptyHeader()
    ensures Parse("") == Ok([[]])
  {
    var none: Element := [];
    var elements: seq<Element> := [];
    assert none + none == none && elements + [none] == [none];
  }

  /** Prepending anything to a header that parses makes it authenticate the same subject, or
      nobody: nobody only if the whole is refused. */
  lemma OnlyTheLastHopCounts(p: string, q: string, trusted: seq<string>)
    requires Parse(q).Ok?
    ensures Verdict(p + "," + q, trusted) == if Parse(p + "," + q).Err? then None else Verdict(q, trusted)
  {
    ParseComposes(p, q);
    ParseIsNotEmpty(START, q);
    EmptyHeader();
    hide ReadAll;
    if Parse(p + "," + q).Ok? {
      var whole, last := Parse(p + "," + q).value, Parse(q).value;
      assert whole[|whole| - 1] == last[|last| - 1];
      if q == "" {
        assert UrisOf(last[|last| - 1]) == [];
      }
    }
  }
}
