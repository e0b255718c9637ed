/** The printed form of offsets (store/offset.go). */
module OffsetText {
  import opened Prelude
  import opened Offsets
  import opened Texts

  // ---- decimal numbers ----

  predicate IsDigit(c: char) { '0' <= c <= '9' }

  predicate AllDigits(s: string) {
    forall i :: 0 <= i < |s| ==> IsDigit(s[i])
  }

  function DigitOf(d: nat): (c: char)
    requires d < 10
    ensures IsDigit(c)
  {
    '0' + d as char
  }

  /** The number that a string of digits denotes. */
  function Value(s: string): nat
    requires AllDigits(s)
  {
    if s == "" then 0 else Value(s[..|s| - 1]) * 10 + (s[|s| - 1] as int - '0' as int)
  }

  /** At least `width` digits: `%0<width>d`. */
  function Padded(n: nat, width: nat): (s: string)
    ensures |s| >= width && AllDigits(s)
    decreases n, width
  {
    if n == 0 && width == 0 then ""
    else Padded(n / 10, if width == 0 then 0 else width - 1) + [DigitOf(n % 10)]
  }

  lemma {:induction false} ValueOfPadded(n: nat, width: nat)
    ensures Value(Padded(n, width)) == n
    decreases n, width
  {
    if n != 0 || width != 0 {
      var w := if width == 0 then 0 else width - 1;
      ValueOfPadded(n / 10, w);
      var s := Padded(n, width);
      assert s[..|s| - 1] == Padded(n / 10, w);
    }
  }

  function Pow10(k: nat): (r: nat)
    ensures r > 0
  {
    if k == 0 then 1 else 10 * Pow10(k - 1)
  }

  /** A number with few digits is printed in exactly the width. */
  lemma {:induction false} PaddedWidth(n: nat, width: nat)
    requires n < Pow10(width)
    ensures |Padded(n, width)| == width
    decreases width
  {
    if width > 0 {
      PaddedWidth(n / 10, width - 1);
    }
  }

  // ---- printing and parsing ----

  const SPECIAL_START := "-1"
  const SPECIAL_NOW := "now"

  /** `Offset.String`. */
  function Text(o: Offset): string {
    Padded(o.readSeq, 16) + "_" + Padded(o.byteOffset, 16)
  }

  /** `p` is the one place that separates two runs of digits. */
  ghost predicate SplitsAt(s: string, p: nat) {
    0 < p < |s| - 1 && s[p] == '_' && forall i :: 0 <= i < |s| && i != p ==> IsDigit(s[i])
  }

  /** `isValidOffsetFormat`; on success, also where the underscore is. */
  method CheckFormat(s: string) returns (valid: bool, position: int)
    ensures valid ==> position >= 0 && SplitsAt(s, position)
    ensures !valid ==> forall p: nat :: !SplitsAt(s, p)
  {
    if |s| < 3 {
      return false, -1;
    }
    var count := 0;
    position := -1;
    for i := 0 to |s|
      invariant count == 0 || (count == 1 && 0 <= position < i && s[position] == '_')
      invariant forall k :: 0 <= k < i ==> IsDigit(s[k]) || (count == 1 && k == position)
    {
      if s[i] == '_' {
        count := count + 1;
        if count > 1 {
          return false, -1;
        }
        position := i;
      } else if s[i] < '0' || s[i] > '9' {
        return false, -1;
      }
    }
    valid := count == 1 && 0 < position < |s| - 1;
  }

  /** `strconv.ParseUint(s, 10, 64)` on digits. */
  function ParseUint(s: string): Option<nat>
    requires AllDigits(s)
  {
    if Value(s) < UINT64_LIMIT then Some(Value(s)) else None
  }

  /** What a text denotes: the three special forms, or two 64-bit numbers around an underscore. */
  ghost predicate Denotes(s: string, o: Offset) {
    || ((s == "" || s == SPECIAL_START) && o == ZERO_OFFSET)
    || (s == SPECIAL_NOW && o == NOW_OFFSET)
    || (exists p: nat :: SplitsAt(s, p) && o == Offset(Value(s[..p]), Value(s[p + 1..])) &&
          o.readSeq < UINT64_LIMIT && o.byteOffset < UINT64_LIMIT)
  }

  /** `ParseOffset`. */
  method ParseOffset(s: string) returns (r: Option<Offset>)
    ensures r.Some? ==> Denotes(s, r.value)
    ensures r.None? ==> forall o :: !Denotes(s, o)
  {
    if s == "" || s == SPECIAL_START {
      return Some(ZERO_OFFSET);
    }
    if s == SPECIAL_NOW {
      return Some(NOW_OFFSET);
    }
    var valid, p := CheckFormat(s);
    if !valid {
      return None;
    }
    var readSeq, byteOffset := ParseUint(s[..p]), ParseUint(s[p + 1..]);
    forall o | Denotes(s, o) ensures o == Offset(Value(s[..p]), Value(s[p + 1..])) {
      OnlyOnePlace(s, p);
    }
    if readSeq.None? || byteOffset.None? {
      return None;
    }
    return Some(Offset(readSeq.value, byteOffset.value));
  }

  lemma OnlyOnePlace(s: string, p: nat)
    requires SplitsAt(s, p)
    ensures forall q: nat :: SplitsAt(s, q) ==> q == p
    ensures s != "" && s != SPECIAL_START && s != SPECIAL_NOW
  {
  }

  /** A text denotes at most one offset. */
  lemma DenotesOne(s: string, a: Offset, b: Offset)
    requires Denotes(s, a) && Denotes(s, b)
    ensures a == b
  {
    if p: nat :| SplitsAt(s, p) {
      OnlyOnePlace(s, p);
    }
  }

  lemma TextSplits(o: Offset)
    ensures var s, p := Text(o), |Padded(o.readSeq, 16)|;
            SplitsAt(s, p) && s[..p] == Padded(o.readSeq, 16) && s[p + 1..] == Padded(o.byteOffset, 16)
  {
  }

  /** Printing and parsing give back every 64-bit offset, and only that one. */
  lemma RoundTrip(o: Offset, r: Offset)
    requires o.readSeq < UINT64_LIMIT && o.byteOffset < UINT64_LIMIT
    ensures Denotes(Text(o), r) <==> r == o
  {
    TextSplits(o);
    ValueOfPadded(o.readSeq, 16);
    ValueOfPadded(o.byteOffset, 16);
    hide Text, Padded;
    assert Denotes(Text(o), o);
    if Denotes(Text(o), r) {
      DenotesOne(Text(o), r, o);
    }
  }

  // ---- order ----

  lemma {:induction false} BeforeConcat(a: string, b: string, x: string, y: string)
    requires |a| == |b|
    ensures Before(a + x, b + y) <==> Before(a, b) || (a == b && Before(x, y))
  {
    if a == "" {
      assert a + x == x && b + y == y;
    } else {
      assert (a + x)[1..] == a[1..] + x && (b + y)[1..] == b[1..] + y;
      BeforeConcat(a[1..], b[1..], x, y);
    }
  }

  lemma TenthBelow(n: nat, width: nat)
    requires width > 0 && n < Pow10(width)
    ensures n / 10 < Pow10(width - 1)
  {
  }

  lemma OneDigitOrder(c: nat, d: nat)
    requires c < 10 && d < 10
    ensures Before([DigitOf(c)], [DigitOf(d)]) <==> c < d
    ensures DigitOf(c) == DigitOf(d) <==> c == d
  {
  }

  lemma TenthOrder(m: nat, n: nat)
    ensures m < n <==> m / 10 < n / 10 || (m / 10 == n / 10 && m % 10 < n % 10)
    ensures m == n <==> m / 10 == n / 10 && m % 10 == n % 10
  {
  }

  lemma PaddedStep(n: nat, width: nat)
    requires width > 0
    ensures Padded(n, width) == Padded(n / 10, width - 1) + [DigitOf(n % 10)]
  {
  }

  lemma SameSnoc<T>(a: seq<T>, b: seq<T>, x: T, y: T)
    ensures a + [x] == b + [y] <==> a == b && x == y
  {
    if a + [x] == b + [y] {
      assert a == (a + [x])[..|a|] == (b + [y])[..|b|] == b;
      assert x == (a + [x])[|a|] == (b + [y])[|b|];
    }
  }

  /** Texts of one width sort as their numbers. */
  lemma {:induction false} PaddedOrder(m: nat, n: nat, width: nat)
    requires m < Pow10(width) && n < Pow10(width)
    ensures Before(Padded(m, width), Padded(n, width)) <==> m < n
    ensures Padded(m, width) == Padded(n, width) <==> m == n
    decreases width
  {
    if width == 0 {
      NotBeforeItself(Padded(m, width));
    } else {
      hide *;
      TenthBelow(m, width);
      TenthBelow(n, width);
      PaddedOrder(m / 10, n / 10, width - 1);
      PaddedStep(m, width);
      PaddedStep(n, width);
      OneDigitOrder(m % 10, n % 10);
      TenthOrder(m, n);
      SameSnoc(Padded(m / 10, width - 1), Padded(n / 10, width - 1), DigitOf(m % 10), DigitOf(n % 10));
      PaddedWidth(m / 10, width - 1);
      PaddedWidth(n / 10, width - 1);
      BeforeConcat(Padded(m / 10, width - 1), Padded(n / 10, width - 1), [DigitOf(m % 10)], [DigitOf(n % 10)]);
    }
  }

  ghost predicate Below(o: Offset, bound: nat) {
    o.readSeq < bound && o.byteOffset < bound
  }

  lemma TextOrder(a: Offset, b: Offset)
    requires Below(a, Pow10(16)) && Below(b, Pow10(16))
    ensures Before(Text(a), Text(b)) <==> a.LessThan(b)
  {
    hide Pow10, Before, Padded;
    PaddedWidth(a.readSeq, 16);
    PaddedWidth(b.readSeq, 16);
    PaddedOrder(a.readSeq, b.readSeq, 16);
    PaddedOrder(a.byteOffset, b.byteOffset, 16);
    var x, y := Padded(a.byteOffset, 16), Padded(b.byteOffset, 16);
    BeforeConcat(Padded(a.readSeq, 16) + "_", Padded(b.readSeq, 16) + "_", x, y);
    BeforeConcat(Padded(a.readSeq, 16), Padded(b.readSeq, 16), "_", "_");
    assert (Padded(a.readSeq, 16) + "_")[..16] == Padded(a.readSeq, 16);
    assert (Padded(b.readSeq, 16) + "_")[..16] == Padded(b.readSeq, 16);
    NotBeforeItself("_");
  }

  // ---- where the order breaks ----

  lemma {:induction false} PaddedNines(width: nat)
    ensures width > 0 ==> Padded(Pow10(width) - 1, width)[0] == '9'
    decreases width
  {
    if width > 0 {
      var n := Pow10(width) - 1;
      assert n / 10 == Pow10(width - 1) - 1 && n % 10 == 9;
      PaddedNines(width - 1);
    }
  }

  lemma {:induction false} PaddedPower(width: nat)
    ensures Padded(Pow10(width), width)[0] == '1'
    decreases width
  {
    if width > 0 {
      PaddedPower(width - 1);
    } else {
      assert Padded(1, 0) == Padded(0, 0) + ['1'];
    }
  }

  lemma FewerNinesSortLater(width: nat)
    requires width > 0
    ensures !Before(Padded(Pow10(width) - 1, width), Padded(Pow10(width), width))
  {
    hide Pow10, Padded;
    PaddedNines(width);
    PaddedPower(width);
  }

  /** Past sixteen digits a greater offset can print as a smaller text. */
  lemma OrderBreaks()
    ensures var a, b := Offset(0, Pow10(16) - 1), Offset(0, Pow10(16));
            a.LessThan(b) && !Before(Text(a), Text(b))
  {
    hide Pow10, Padded, Before;
    FewerNinesSortLater(16);
    var x, y := Padded(Pow10(16) - 1, 16), Padded(Pow10(16), 16);
    var front := Padded(0, 16) + "_";
    BeforeConcat(front, front, x, y);
    NotBeforeItself(front);
  }

  /** The order of the texts is the order of the offsets exactly below ten to the sixteenth. */
  lemma SortableIff(bound: nat)
    ensures (forall a, b :: Below(a, bound) && Below(b, bound) ==> (Before(Text(a), Text(b)) <==> a.LessThan(b))) <==>
            bound <= Pow10(16)
  {
    hide Before, Text, Padded, Pow10;
    if bound <= Pow10(16) {
      forall a, b | Below(a, bound) && Below(b, bound) ensures Before(Text(a), Text(b)) <==> a.LessThan(b) {
        TextOrder(a, b);
      }
    } else {
      OrderBreaks();
      var a, b := Offset(0, Pow10(16) - 1), Offset(0, Pow10(16));
      assert Below(a, bound) && Below(b, bound);
    }
  }
}
