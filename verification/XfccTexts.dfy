/** The grammar of the X-Forwarded-Client-Cert header as text: which headers are accepted, what they
    mean, and why the others are refused (auth/service.go). */
module XfccTexts {
  import opened Prelude
  import opened Xfcc

  // ---- the texts ----

  /** A character of a quoted value, with or without a backslash before it. */
  datatype Item = Item(escaped: bool, c: char)

  /** How one pair is written.  A bare key adds no pair; blanks may stand around a quoted value. */
  datatype Spelling =
    | Bare(key: string)
    | Plain(key: string, value: string)
    | Quoted(key: string, lead: string, items: seq<Item>, trail: string)

  ghost predicate Blanks(s: string) {
    forall i :: 0 <= i < |s| ==> s[i] == ' ' || s[i] == '\t'
  }

  ghost predicate KeyText(s: string) {
    '"' !in s && '=' !in s && ';' !in s && ',' !in s
  }

  ghost predicate ValueText(s: string) {
    '"' !in s && ';' !in s && ',' !in s
  }

  /** A quote or a backslash inside quotes needs a backslash. */
  ghost predicate LegalItems(items: seq<Item>) {
    forall i :: 0 <= i < |items| && !items[i].escaped ==> items[i].c != '"' && items[i].c != '\\'
  }

  ghost predicate Legal(p: Spelling) {
    && KeyText(p.key)
    && (p.Plain? ==> ValueText(p.value))
    && (p.Quoted? ==> Blanks(p.lead) && LegalItems(p.items) && Blanks(p.trail))
  }

  function ItemsText(items: seq<Item>): string {
    if items == [] then ""
    else
      var n := |items| - 1;
      ItemsText(items[..n]) + (if items[n].escaped then ['\\', items[n].c] else [items[n].c])
  }

  function ItemsValue(items: seq<Item>): string {
    seq(|items|, i requires 0 <= i < |items| => items[i].c)
  }

  function Text(p: Spelling): string {
    match p
    case Bare(key) => key
    case Plain(key, value) => key + "=" + value
    case Quoted(key, lead, items, trail) => key + "=" + lead + "\"" + ItemsText(items) + "\"" + trail
  }

  function Meaning(p: Spelling): Element {
    match p
    case Bare(_) => []
    case Plain(key, value) => [Pair(TrimSpace(key), TrimSpace(value))]
    case Quoted(key, _, items, _) => [Pair(TrimSpace(key), ItemsValue(items))]
  }

  /** Pairs are joined by semicolons. */
  function ElementText(ps: seq<Spelling>): string
    requires ps != []
  {
    var n := |ps| - 1;
    if n == 0 then Text(ps[0]) else ElementText(ps[..n]) + ";" + Text(ps[n])
  }

  function ElementMeaning(ps: seq<Spelling>): Element {
    if ps == [] then [] else ElementMeaning(ps[..|ps| - 1]) + Meaning(ps[|ps| - 1])
  }

  ghost predicate LegalElement(ps: seq<Spelling>) {
    ps != [] && forall i :: 0 <= i < |ps| ==> Legal(ps[i])
  }

  ghost predicate IsHeader(els: seq<seq<Spelling>>) {
    els != [] && forall i :: 0 <= i < |els| ==> LegalElement(els[i])
  }

  /** Elements are joined by commas. */
  function HeaderText(els: seq<seq<Spelling>>): string
    requires els != [] && forall i :: 0 <= i < |els| ==> els[i] != []
  {
    var n := |els| - 1;
    if n == 0 then ElementText(els[0]) else HeaderText(els[..n]) + "," + ElementText(els[n])
  }

  function HeaderMeaning(els: seq<seq<Spelling>>): seq<Element> {
    seq(|els|, i requires 0 <= i < |els| => ElementMeaning(els[i]))
  }

  // ---- every such text is read as it is meant ----

  lemma {:induction false} AfterConcat(r: Reader, a: string, b: string)
    ensures After(r, a + b) == match After(r, a) case Err(e) => Err(e) case Ok(r') => After(r', b)
    decreases |a|
  {
    if a == "" {
      assert a + b == b;
    } else {
      assert (a + b)[1..] == a[1..] + b;
      if Read(r, a[0]).Ok? {
        AfterConcat(Read(r, a[0]).value, a[1..], b);
      }
    }
  }

  lemma AfterOne(r: Reader, c: char)
    ensures After(r, [c]) == Read(r, c)
  {
    assert [c][1..] == "";
    if Read(r, c).Ok? {
      assert After(Read(r, c).value, "") == Read(r, c);
    }
  }

  lemma {:induction false} KeyReads(r: Reader, key: string)
    requires r.mode == InKey("") && KeyText(key)
    ensures After(r, key) == Ok(r.(mode := InKey(key)))
  {
    if key != "" {
      var n := |key| - 1;
      var c := key[n];
      KeyReads(r, key[..n]);
      AfterConcat(r, key[..n], [c]);
      AfterOne(r.(mode := InKey(key[..n])), c);
      assert key == key[..n] + [c];
    }
  }

  lemma {:induction false} BlanksRead(r: Reader, s: string)
    requires (r.mode.BeforeValue? || r.mode.AfterQuoted?) && Blanks(s)
    ensures After(r, s) == Ok(r)
    decreases |s|
  {
    if s != "" {
      BlanksRead(r, s[1..]);
    }
  }

  lemma {:induction false} ItemsRead(r: Reader, key: string, items: seq<Item>)
    requires r.mode == InQuoted(key, "") && LegalItems(items)
    ensures After(r, ItemsText(items)) == Ok(r.(mode := InQuoted(key, ItemsValue(items))))
  {
    if items != [] {
      var n := |items| - 1;
      var it := items[n];
      ItemsRead(r, key, items[..n]);
      var r' := r.(mode := InQuoted(key, ItemsValue(items[..n])));
      assert ItemsValue(items) == ItemsValue(items[..n]) + [it.c];
      var last := if it.escaped then ['\\', it.c] else [it.c];
      AfterConcat(r, ItemsText(items[..n]), last);
      if it.escaped {
        assert last == ['\\'] + [it.c];
        AfterConcat(r', ['\\'], [it.c]);
        AfterOne(r', '\\');
        AfterOne(r'.(mode := InEscape(key, ItemsValue(items[..n]))), it.c);
      } else {
        AfterOne(r', it.c);
      }
    }
  }

  /** A value without its leading blanks. */
  function SkipLead(s: string): string {
    if s != "" && IsBlank(s[0]) then SkipLead(s[1..]) else s
  }

  lemma {:induction false} SkipLeadSnoc(s: string, c: char)
    ensures SkipLead(s + [c]) == if SkipLead(s) == "" && IsBlank(c) then "" else SkipLead(s) + [c]
  {
    if s != "" && IsBlank(s[0]) {
      assert (s + [c])[1..] == s[1..] + [c];
      SkipLeadSnoc(s[1..], c);
    } else if s == "" {
      assert s + [c] == [c] && [c][1..] == "";
    }
  }

  lemma {:induction false} TrimAfterSkip(s: string)
    ensures TrimSpace(SkipLead(s)) == TrimSpace(s)
  {
    if s != "" && IsBlank(s[0]) {
      TrimAfterSkip(s[1..]);
    }
  }

  /** Where the reader is after the text of a plain value, without its leading blanks. */
  function PlainAt(key: string, text: string): Mode {
    if text == "" then BeforeValue(key) else InPlain(key, text)
  }

  lemma PlainChar(r: Reader, key: string, text: string, c: char)
    requires c !in {'"', ';', ','}
    ensures Read(r.(mode := PlainAt(key, text)), c) ==
            Ok(r.(mode := PlainAt(key, if text == "" && IsBlank(c) then "" else text + [c])))
  {
    assert "" + [c] == [c];
  }

  lemma {:induction false} PlainReads(r: Reader, key: string, value: string)
    requires r.mode == BeforeValue(key) && ValueText(value)
    ensures After(r, value) == Ok(r.(mode := PlainAt(key, SkipLead(value))))
  {
    if value != "" {
      var n := |value| - 1;
      var c := value[n];
      assert value == value[..n] + [c] && c in value;
      PlainReads(r, key, value[..n]);
      hide After, SkipLead, PlainAt;
      SkipLeadSnoc(value[..n], c);
      AfterConcat(r, value[..n], [c]);
      PlainChar(r, key, SkipLead(value[..n]), c);
      AfterOne(r.(mode := PlainAt(key, SkipLead(value[..n]))), c);
    }
  }

  /** The reader stands where a pair with this meaning can end. */
  ghost predicate Completes(m: Mode, e: Element) {
    !Inside(m) && EndPair(m) == Ok(e)
  }

  lemma QuotedReads(r: Reader, key: string, lead: string, items: seq<Item>, trail: string)
    requires r.mode == BeforeValue(key) && Blanks(lead) && LegalItems(items) && Blanks(trail)
    ensures After(r, lead + "\"" + ItemsText(items) + "\"" + trail) ==
            Ok(r.(mode := AfterQuoted(key, ItemsValue(items))))
  {
    hide After, LegalItems, Blanks, ItemsText;
    var text, r1, r2, r3 := ItemsText(items), r.(mode := InQuoted(key, "")),
      r.(mode := InQuoted(key, ItemsValue(items))), r.(mode := AfterQuoted(key, ItemsValue(items)));
    BlanksRead(r, lead);
    AfterConcat(r, lead, "\"");
    AfterOne(r, '"');
    ItemsRead(r1, key, items);
    AfterConcat(r, lead + "\"", text);
    AfterOne(r2, '"');
    AfterConcat(r, lead + "\"" + text, "\"");
    BlanksRead(r3, trail);
    AfterConcat(r, lead + "\"" + text + "\"", trail);
  }

  /** One pair. */
  lemma PairReads(r: Reader, p: Spelling) returns (m: Mode)
    requires r.mode == InKey("") && Legal(p)
    ensures After(r, Text(p)) == Ok(r.(mode := m)) && Completes(m, Meaning(p))
  {
    hide After, ItemsText, TrimSpace;
    KeyReads(r, p.key);
    m := InKey(p.key);
    if !p.Bare? {
      AfterConcat(r, p.key, "=");
      AfterOne(r.(mode := m), '=');
      m := BeforeValue(p.key);
      var r' := r.(mode := m);
      if p.Plain? {
        PlainReads(r', p.key, p.value);
        AfterConcat(r, p.key + "=", p.value);
        TrimAfterSkip(p.value);
        TrimNothing();
        var text := SkipLead(p.value);
        m := if text == "" then BeforeValue(p.key) else InPlain(p.key, text);
      } else {
        QuotedReads(r', p.key, p.lead, p.items, p.trail);
        var rest := p.lead + "\"" + ItemsText(p.items) + "\"" + p.trail;
        AfterConcat(r, p.key + "=", rest);
        assert Text(p) == p.key + "=" + rest;
        m := AfterQuoted(p.key, ItemsValue(p.items));
      }
    }
  }

  lemma {:induction false} ElementReads(done: seq<Element>, ps: seq<Spelling>) returns (r: Reader)
    requires LegalElement(ps)
    ensures After(Reader(done, [], InKey("")), ElementText(ps)) == Ok(r) && r.elements == done
    ensures !Inside(r.mode) && r.element + EndPair(r.mode).value == ElementMeaning(ps)
  {
    hide After, Text, Meaning, EndPair;
    var start, n := Reader(done, [], InKey("")), |ps| - 1;
    if n == 0 {
      var m := PairReads(start, ps[0]);
      r := start.(mode := m);
    } else {
      var r0 := ElementReads(done, ps[..n]);
      var r1 := Reader(done, ElementMeaning(ps[..n]), InKey(""));
      AfterConcat(start, ElementText(ps[..n]), ";");
      AfterOne(r0, ';');
      var m := PairReads(r1, ps[n]);
      AfterConcat(start, ElementText(ps[..n]) + ";", Text(ps[n]));
      r := r1.(mode := m);
    }
  }

  lemma {:induction false} HeaderReads(els: seq<seq<Spelling>>) returns (r: Reader)
    requires IsHeader(els)
    ensures After(START, HeaderText(els)) == Ok(r)
    ensures !Inside(r.mode) && r.elements + [r.element + EndPair(r.mode).value] == HeaderMeaning(els)
  {
    hide After, ElementText, ElementMeaning, EndPair;
    var n := |els| - 1;
    if n == 0 {
      r := ElementReads([], els[0]);
    } else {
      var done := HeaderMeaning(els[..n]);
      var r0 := HeaderReads(els[..n]);
      AfterConcat(START, HeaderText(els[..n]), ",");
      AfterOne(r0, ',');
      r := ElementReads(done, els[n]);
      AfterConcat(START, HeaderText(els[..n]) + ",", ElementText(els[n]));
    }
  }

  /** Every text of the grammar is accepted, and read as it is meant. */
  lemma GrammarIsAccepted(els: seq<seq<Spelling>>)
    requires IsHeader(els)
    ensures Parse(HeaderText(els)) == Ok(HeaderMeaning(els))
  {
    hide After, HeaderText, HeaderMeaning;
    var r := HeaderReads(els);
    ReaderAfter(HeaderText(els));
    HeaderEnds(r, r.element + EndPair(r.mode).value);
  }

  // ---- nothing else is accepted ----

  /** The beginning of a pair. */
  datatype Begun =
    | Key(key: string)
    | Value(key: string, value: string)
    | Quote(key: string, lead: string, items: seq<Item>)
    | Escape(key: string, lead: string, items: seq<Item>)
    | Closed(key: string, lead: string, items: seq<Item>, trail: string)

  function BegunText(b: Begun): string {
    match b
    case Key(key) => key
    case Value(key, value) => key + "=" + value
    case Quote(key, lead, items) => key + "=" + lead + "\"" + ItemsText(items)
    case Escape(key, lead, items) => key + "=" + lead + "\"" + ItemsText(items) + "\\"
    case Closed(key, lead, items, trail) => key + "=" + lead + "\"" + ItemsText(items) + "\"" + trail
  }

  ghost predicate LegalBegun(b: Begun) {
    && KeyText(b.key)
    && (b.Value? ==> ValueText(b.value))
    && (b.Quote? || b.Escape? || b.Closed? ==> Blanks(b.lead) && LegalItems(b.items))
    && (b.Closed? ==> Blanks(b.trail))
  }

  /** What was begun is legal so far, and leaves the reader in this mode. */
  ghost predicate Fits(m: Mode, b: Begun) {
    && LegalBegun(b)
    && match b
       case Key(_) => m.InKey?
       case Value(_, value) => if Blanks(value) then m.BeforeValue? else m.InPlain?
       case Quote(_, _, _) => m.InQuoted?
       case Escape(_, _, _) => m.InEscape?
       case Closed(_, _, _, _) => m.AfterQuoted?
  }

  /** A character within a pair. */
  lemma BegunGoesOn(m: Mode, b: Begun, c: char) returns (b': Begun)
    requires Fits(m, b) && Within(m, c).Ok? && (IsSeparator(c) ==> Inside(m))
    ensures Fits(Within(m, c).value, b') && BegunText(b') == BegunText(b) + [c]
  {
    hide ItemsText;
    match b
    case Key(key) => b' := if c == '=' then Value(key, "") else Key(key + [c]);
    case Value(key, value) =>
      if c == '"' {
        b' := Quote(key, value, []);
        NoItems();
      } else {
        b' := Value(key, value + [c]);
        BlanksSnoc(value, c);
      }
    case Quote(key, lead, items) =>
      if c == '"' {
        b' := Closed(key, lead, items, "");
      } else if c == '\\' {
        b' := Escape(key, lead, items);
      } else {
        b' := Quote(key, lead, items + [Item(false, c)]);
        OneMoreItem(items, Item(false, c));
      }
    case Escape(key, lead, items) =>
      b' := Quote(key, lead, items + [Item(true, c)]);
      OneMoreItem(items, Item(true, c));
    case Closed(key, lead, items, trail) => b' := Closed(key, lead, items, trail + [c]);
  }

  lemma BlanksSnoc(s: string, c: char)
    ensures Blanks(s + [c]) <==> Blanks(s) && IsBlank(c)
  {
    if Blanks(s + [c]) {
      forall i | 0 <= i < |s| ensures s[i] == ' ' || s[i] == '\t' {
        assert (s + [c])[i] == s[i];
      }
      assert (s + [c])[|s|] == c;
    }
  }

  lemma NoItems()
    ensures ItemsText([]) == ""
  {
  }

  lemma OneMoreItem(items: seq<Item>, it: Item)
    ensures ItemsText(items + [it]) == ItemsText(items) + (if it.escaped then ['\\', it.c] else [it.c])
  {
    assert (items + [it])[..|items|] == items;
  }

  /** A pair that can end has been written whole. */
  lemma BegunEnds(m: Mode, b: Begun) returns (p: Spelling)
    requires Fits(m, b) && !Inside(m)
    ensures Legal(p) && Text(p) == BegunText(b)
  {
    p := match b
      case Key(key) => Bare(key)
      case Value(key, value) => Plain(key, value)
      case Closed(key, lead, items, trail) => Quoted(key, lead, items, trail)
      case _ => Bare("");
  }

  /** A header read so far: elements, the pairs of the element begun, and the pair begun. */
  datatype Draft = Draft(done: seq<seq<Spelling>>, cur: seq<Spelling>, begun: Begun)

  ghost predicate LegalDraft(d: Draft) {
    (d.done != [] ==> IsHeader(d.done)) && (d.cur != [] ==> LegalElement(d.cur))
  }

  function DraftText(d: Draft): string
    requires forall i :: 0 <= i < |d.done| ==> d.done[i] != []
  {
    (if d.done == [] then "" else HeaderText(d.done) + ",") + (if d.cur == [] then "" else ElementText(d.cur) + ";") +
    BegunText(d.begun)
  }

  lemma OneMorePair(cur: seq<Spelling>, p: Spelling)
    requires cur != [] ==> LegalElement(cur)
    requires Legal(p)
    ensures LegalElement(cur + [p])
    ensures ElementText(cur + [p]) == (if cur == [] then "" else ElementText(cur) + ";") + Text(p)
  {
    hide Legal;
    assert (cur + [p])[..|cur|] == cur;
  }

  lemma OneMoreElement(done: seq<seq<Spelling>>, ps: seq<Spelling>)
    requires (done != [] ==> IsHeader(done)) && LegalElement(ps)
    ensures IsHeader(done + [ps])
    ensures HeaderText(done + [ps]) == (if done == [] then "" else HeaderText(done) + ",") + ElementText(ps)
  {
    hide LegalElement, ElementText;
    assert (done + [ps])[..|done|] == done;
  }

  lemma DraftGoesOn(d: Draft, r: Reader, c: char) returns (d': Draft)
    requires LegalDraft(d) && Fits(r.mode, d.begun) && Read(r, c).Ok?
    ensures LegalDraft(d') && Fits(Read(r, c).value.mode, d'.begun) && DraftText(d') == DraftText(d) + [c]
  {
    hide ElementText, HeaderText, Legal, LegalElement, IsHeader, EndPair, Within, BegunText;
    if IsSeparator(c) && !Inside(r.mode) {
      var p := BegunEnds(r.mode, d.begun);
      OneMorePair(d.cur, p);
      BegunNothing();
      if c == ';' {
        d' := Draft(d.done, d.cur + [p], Key(""));
      } else {
        OneMoreElement(d.done, d.cur + [p]);
        d' := Draft(d.done + [d.cur + [p]], [], Key(""));
      }
    } else {
      var b := BegunGoesOn(r.mode, d.begun, c);
      d' := d.(begun := b);
    }
  }

  lemma BegunNothing()
    ensures BegunText(Key("")) == "" && Fits(InKey(""), Key(""))
  {
  }

  lemma {:induction false} DraftOf(s: string) returns (d: Draft)
    requires After(START, s).Ok?
    ensures LegalDraft(d) && Fits(After(START, s).value.mode, d.begun) && DraftText(d) == s
  {
    if s == "" {
      d := Draft([], [], Key(""));
    } else {
      var n := |s| - 1;
      assert s == s[..n] + [s[n]];
      AfterConcat(START, s[..n], [s[n]]);
      var d0 := DraftOf(s[..n]);
      AfterOne(After(START, s[..n]).value, s[n]);
      hide *;
      d := DraftGoesOn(d0, After(START, s[..n]).value, s[n]);
    }
  }

  lemma DraftEnds(d: Draft, m: Mode) returns (els: seq<seq<Spelling>>)
    requires LegalDraft(d) && Fits(m, d.begun) && !Inside(m)
    ensures IsHeader(els) && HeaderText(els) == DraftText(d)
  {
    hide ElementText, HeaderText, Legal, LegalElement, IsHeader, BegunText;
    var p := BegunEnds(m, d.begun);
    OneMorePair(d.cur, p);
    OneMoreElement(d.done, d.cur + [p]);
    els := d.done + [d.cur + [p]];
  }

  lemma NotInside(s: string)
    requires Parse(s).Ok?
    ensures After(START, s).Ok? && !Inside(After(START, s).value.mode)
  {
    ReaderAfter(s);
  }

  /** A header is accepted exactly if it is a text of the grammar. */
  lemma AcceptedIffGrammar(s: string)
    ensures Parse(s).Ok? <==> exists els :: IsHeader(els) && HeaderText(els) == s
  {
    if Parse(s).Ok? {
      NotInside(s);
      hide *;
      var d := DraftOf(s);
      var els := DraftEnds(d, After(START, s).value.mode);
      assert IsHeader(els) && HeaderText(els) == s;
    } else {
      hide *;
      forall els | IsHeader(els) ensures HeaderText(els) != s {
        GrammarIsAccepted(els);
      }
    }
  }

  // ---- why a header is refused ----

  lemma {:induction false} SkipsBlanksOnly(s: string)
    ensures SkipLead(s) == "" <==> Blanks(s)
  {
    if s != "" {
      SkipsBlanksOnly(s[1..]);
      if IsBlank(s[0]) && Blanks(s[1..]) {
        forall i | 0 <= i < |s| ensures s[i] == ' ' || s[i] == '\t' {
          assert i > 0 ==> s[i] == s[1..][i - 1];
        }
      }
    }
  }

  lemma BegunQuoteReads(r: Reader, b: Begun)
    requires (b.Quote? || b.Escape?) && r.mode == BeforeValue(b.key) && LegalBegun(b)
    ensures var m := if b.Quote? then InQuoted(b.key, ItemsValue(b.items)) else InEscape(b.key, ItemsValue(b.items));
            After(r, b.lead + "\"" + ItemsText(b.items) + (if b.Quote? then "" else "\\")) == Ok(r.(mode := m))
  {
    hide After, LegalItems, Blanks, ItemsText;
    var text, r1, r2 := ItemsText(b.items), r.(mode := InQuoted(b.key, "")),
      r.(mode := InQuoted(b.key, ItemsValue(b.items)));
    BlanksRead(r, b.lead);
    AfterConcat(r, b.lead, "\"");
    AfterOne(r, '"');
    ItemsRead(r1, b.key, b.items);
    AfterConcat(r, b.lead + "\"", text);
    if b.Quote? {
      assert b.lead + "\"" + text + "" == b.lead + "\"" + text;
    } else {
      AfterConcat(r, b.lead + "\"" + text, "\\");
      AfterOne(r2, '\\');
    }
  }

  lemma BegunReads(r: Reader, b: Begun) returns (m: Mode)
    requires r.mode == InKey("") && LegalBegun(b)
    ensures After(r, BegunText(b)) == Ok(r.(mode := m)) && Fits(m, b)
  {
    hide After, ItemsText, Blanks, LegalItems;
    KeyReads(r, b.key);
    m := InKey(b.key);
    if !b.Key? {
      AfterConcat(r, b.key, "=");
      AfterOne(r.(mode := m), '=');
      m := BeforeValue(b.key);
      var r', rest := r.(mode := m), "";
      if b.Value? {
        rest := b.value;
        PlainReads(r', b.key, b.value);
        SkipsBlanksOnly(b.value);
        var text := SkipLead(b.value);
        m := if text == "" then BeforeValue(b.key) else InPlain(b.key, text);
      } else if b.Closed? {
        rest := b.lead + "\"" + ItemsText(b.items) + "\"" + b.trail;
        QuotedReads(r', b.key, b.lead, b.items, b.trail);
        m := AfterQuoted(b.key, ItemsValue(b.items));
      } else {
        rest := b.lead + "\"" + ItemsText(b.items) + (if b.Quote? then "" else "\\");
        BegunQuoteReads(r', b);
        m := if b.Quote? then InQuoted(b.key, ItemsValue(b.items)) else InEscape(b.key, ItemsValue(b.items));
      }
      AfterConcat(r, b.key + "=", rest);
      assert BegunText(b) == b.key + "=" + rest;
    }
  }

  lemma DoneReads(done: seq<seq<Spelling>>)
    requires done != [] ==> IsHeader(done)
    ensures After(START, if done == [] then "" else HeaderText(done) + ",") ==
            Ok(Reader(HeaderMeaning(done), [], InKey("")))
  {
    if done != [] {
      var r := HeaderReads(done);
      hide After, HeaderText, HeaderMeaning, EndPair, Within;
      AfterConcat(START, HeaderText(done), ",");
      AfterOne(r, ',');
      assert Read(r, ',') == Ok(Reader(HeaderMeaning(done), [], InKey("")));
    } else {
      assert HeaderMeaning(done) == [];
    }
  }

  lemma CurReads(done: seq<Element>, cur: seq<Spelling>)
    requires cur != [] ==> LegalElement(cur)
    ensures After(Reader(done, [], InKey("")), if cur == [] then "" else ElementText(cur) + ";") ==
            Ok(Reader(done, ElementMeaning(cur), InKey("")))
  {
    if cur != [] {
      var r := ElementReads(done, cur);
      hide After, ElementText, ElementMeaning;
      AfterConcat(Reader(done, [], InKey("")), ElementText(cur), ";");
      AfterOne(r, ';');
    }
  }

  lemma DraftReads(d: Draft) returns (r: Reader)
    requires LegalDraft(d) && LegalBegun(d.begun)
    ensures After(START, DraftText(d)) == Ok(r) && Fits(r.mode, d.begun)
  {
    hide After, HeaderText, ElementText, BegunText, HeaderMeaning, ElementMeaning, Fits;
    var a := if d.done == [] then "" else HeaderText(d.done) + ",";
    var b := if d.cur == [] then "" else ElementText(d.cur) + ";";
    var r1 := Reader(HeaderMeaning(d.done), [], InKey(""));
    var r2 := Reader(HeaderMeaning(d.done), ElementMeaning(d.cur), InKey(""));
    DoneReads(d.done);
    CurReads(HeaderMeaning(d.done), d.cur);
    var m := BegunReads(r2, d.begun);
    AfterConcat(START, a, b);
    AfterConcat(START, a + b, BegunText(d.begun));
    r := r2.(mode := m);
  }

  /** The header begins with this draft, and is spoiled there: it ends inside quotes, or a quote
      stands in a key or in a value that is not quoted, or something follows a quoted value. */
  ghost predicate Spoils(d: Draft, s: string, e: Refusal) {
    && LegalDraft(d) && LegalBegun(d.begun)
    && match e
       case UnterminatedQuote => s == DraftText(d) && (d.begun.Quote? || d.begun.Escape?)
       case MisplacedQuote =>
         && DraftText(d) < s && s[|DraftText(d)|] == '"'
         && (d.begun.Key? || (d.begun.Value? && !Blanks(d.begun.value)))
       case TrailingAfterQuote =>
         DraftText(d) < s && s[|DraftText(d)|] !in {' ', '\t', ';', ','} && d.begun.Closed?
  }

  lemma FaultIsRefused(r: Reader, b: Begun, c: char)
    requires Fits(r.mode, b)
    ensures c == '"' && (b.Key? || (b.Value? && !Blanks(b.value))) ==> Read(r, c) == Err(MisplacedQuote)
    ensures c !in {' ', '\t', ';', ','} && b.Closed? ==> Read(r, c) == Err(TrailingAfterQuote)
    ensures b.Quote? || b.Escape? <==> Inside(r.mode)
  {
    hide Blanks, LegalItems, KeyText, ValueText;
  }

  lemma SpoiledIsRefused(d: Draft, s: string, e: Refusal)
    requires Spoils(d, s, e)
    ensures Parse(s) == Err(e)
  {
    var r := DraftReads(d);
    var t := DraftText(d);
    if e.UnterminatedQuote? {
      FaultIsRefused(r, d.begun, ' ');
      hide After, ReadAll, Fits, LegalDraft, LegalBegun, DraftText;
      ReaderAfter(s);
      EndsInside(r);
    } else {
      FaultIsRefused(r, d.begun, s[|t|]);
      hide After, ReadAll, Fits, LegalDraft, LegalBegun, DraftText, Read, Blanks;
      assert s == t + s[|t|..];
      ReadAllConcat(START, t, s[|t|..]);
      ReadNext(r, s, |t|);
    }
  }

  /** How far a refused header can be read. */
  lemma {:induction false} FirstFault(r: Reader, s: string) returns (k: nat, r': Reader)
    requires ReadAll(r, s).Err?
    ensures k <= |s| && After(r, s[..k]) == Ok(r')
    ensures if k == |s| then Inside(r'.mode) && ReadAll(r, s) == Err(UnterminatedQuote)
            else Read(r', s[k]) == Err(ReadAll(r, s).error)
    decreases |s|
  {
    if s == "" {
      k, r' := 0, r;
    } else if Read(r, s[0]).Err? {
      k, r' := 0, r;
      assert s[..0] == "";
    } else {
      k, r' := FirstFault(Read(r, s[0]).value, s[1..]);
      k := k + 1;
      assert s[..k] == [s[0]] + s[1..][..k - 1];
      AfterConcat(r, [s[0]], s[1..][..k - 1]);
      AfterOne(r, s[0]);
    }
  }

  /** The reader refuses a character for one of two reasons. */
  lemma FaultsAreTwo(r: Reader, b: Begun, c: char)
    requires Fits(r.mode, b) && Read(r, c).Err?
    ensures var e := Read(r, c).error;
            || (e == MisplacedQuote && c == '"' && (b.Key? || (b.Value? && !Blanks(b.value))))
            || (e == TrailingAfterQuote && c !in {' ', '\t', ';', ','} && b.Closed?)
  {
  }

  /** A header is refused, with this reason, exactly if it is spoiled in the corresponding way. */
  lemma RefusedIffSpoiled(s: string, e: Refusal)
    ensures Parse(s) == Err(e) <==> exists d :: Spoils(d, s, e)
  {
    if Parse(s) == Err(e) {
      var k, r := FirstFault(START, s);
      var d := DraftOf(s[..k]);
      assert s[..k] <= s && (k == |s| ==> s[..k] == s);
      if k < |s| {
        FaultsAreTwo(r, d.begun, s[k]);
      }
      hide After, ReadAll, Read, LegalDraft, DraftText, Blanks, LegalItems, KeyText, ValueText;
      assert Spoils(d, s, e);
    } else {
      hide *;
      forall d ensures !Spoils(d, s, e) {
        if Spoils(d, s, e) {
          SpoiledIsRefused(d, s, e);
        }
      }
    }
  }
}
