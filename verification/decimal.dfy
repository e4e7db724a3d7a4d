/** Reference definitions for decimal text: the plain decimal that Go's
    `strconv.Itoa` and `big.Int.String` produce, and the thousands grouping the
    logfmt number formatter applies. Both buffer algorithms in `Format` are
    proved to compute these. */
module Decimal {

  predicate IsDigit(c: char) {
    '0' <= c <= '9'
  }

  predicate AllDigits(s: string) {
    forall i :: 0 <= i < |s| ==> IsDigit(s[i])
  }

  function DigitChar(d: nat): (c: char)
    requires d < 10
    ensures IsDigit(c)
  {
    ('0' as int + d) as char
  }

  function DigitValue(c: char): nat
    requires IsDigit(c)
  {
    c as int - '0' as int
  }

  function Pow10(k: nat): (p: nat)
    ensures p >= 1
  {
    if k == 0 then 1 else 10 * Pow10(k - 1)
  }

  /** The decimal digits of `n`, most significant first, with no leading zero. */
  function NatToDecimal(n: nat): (s: string)
    ensures 1 <= |s| && AllDigits(s)
    ensures s[0] == '0' ==> n == 0
    decreases n
  {
    if n < 10 then [DigitChar(n)] else NatToDecimal(n / 10) + [DigitChar(n % 10)]
  }

  /** Go's decimal rendering of a signed integer. */
  function IntToDecimal(x: int): string {
    if x < 0 then "-" + NatToDecimal(-x) else NatToDecimal(x)
  }

  /** The number a string of digits denotes. */
  function DigitsValue(s: string): nat
    requires AllDigits(s)
  {
    if s == [] then 0 else 10 * DigitsValue(s[..|s| - 1]) + DigitValue(s[|s| - 1])
  }

  /** Printing and reading back a natural number are inverse. */
  lemma {:induction false} DecimalRoundTrip(n: nat)
    ensures DigitsValue(NatToDecimal(n)) == n
    decreases n
  {
    var s := NatToDecimal(n);
    if n >= 10 {
      DecimalRoundTrip(n / 10);
      assert s[..|s| - 1] == NatToDecimal(n / 10);
    }
  }

  /** Every uint64 has at most 20 decimal digits, and every magnitude up to
      2^63 at most 19. */
  lemma {:induction false} Uint64DecimalLength(n: nat)
    ensures n <= 0xFFFF_FFFF_FFFF_FFFF ==> |NatToDecimal(n)| <= 20
    ensures n <= 0x8000_0000_0000_0000 ==> |NatToDecimal(n)| <= 19
  {
    assert Pow10(10) == 10_000_000_000;
    assert Pow10(19) == 10_000_000_000_000_000_000;
    assert Pow10(20) == 100_000_000_000_000_000_000;
    if n <= 0xFFFF_FFFF_FFFF_FFFF {
      DecimalLength(n, 20);
    }
    if n <= 0x8000_0000_0000_0000 {
      DecimalLength(n, 19);
    }
  }

  /** A number below 10^k has at most k digits. */
  lemma {:induction false} DecimalLength(n: nat, k: nat)
    requires 1 <= k && n < Pow10(k)
    ensures |NatToDecimal(n)| <= k
    decreases n
  {
    if n >= 10 {
      assert k >= 2;
      DecimalLength(n / 10, k - 1);
    }
  }

  /** Thousands grouping of a digit string: a comma before every block of
      three digits counted from the right. */
  function Group(d: string): string {
    GroupFrom(d, 0)
  }

  /** The grouping of the digits of `d` from index `k` on, stated from the
      front the way the right-to-left buffer fills build it: a digit, then a
      comma when the digits after it are a non-empty whole number of blocks,
      then the grouping of the rest. */
  function GroupFrom(d: string, k: nat): string
    requires k <= |d|
    decreases |d| - k
  {
    if k == |d| then [] else [d[k]] + Separator(|d| - k - 1) + GroupFrom(d, k + 1)
  }

  /** One step of GroupFrom where no comma follows the digit. */
  lemma GroupFromPlain(d: string, k: nat)
    requires k < |d| && Separator(|d| - k - 1) == ""
    ensures GroupFrom(d, k) == [d[k]] + GroupFrom(d, k + 1)
  {
    assert [d[k]] + Separator(|d| - k - 1) == [d[k]];
  }

  /** One step of GroupFrom where a comma follows the digit. */
  lemma GroupFromComma(d: string, k: nat)
    requires k < |d| && Separator(|d| - k - 1) == ","
    ensures GroupFrom(d, k) == [d[k]] + [','] + GroupFrom(d, k + 1)
  {
  }

  /** The comma written before a run of `rest` digits. */
  function Separator(rest: int): string {
    if rest > 0 && rest % 3 == 0 then "," else ""
  }

  /** The string with every comma deleted. */
  function RemoveCommas(s: string): string {
    if s == [] then [] else (if s[0] == ',' then "" else [s[0]]) + RemoveCommas(s[1..])
  }

  /** The grouping layout stated position by position: a comma exactly where
      the distance to the end is a multiple of four, digits elsewhere, so the
      first group has one to three digits and every later group three. */
  predicate GroupedShape(s: string) {
    && |s| > 0
    && |s| % 4 != 0
    && forall i :: 0 <= i < |s| ==> GroupedAt(s, i)
  }

  predicate GroupedAt(s: string, i: int)
    requires 0 <= i < |s|
  {
    (s[i] == ',' <==> (|s| - i) % 4 == 0) && (s[i] != ',' ==> IsDigit(s[i]))
  }

  /** The logfmt rendering of a magnitude: plain below 100000, grouped from there on. */
  function Thousands(n: nat): string {
    if n < 100000 then NatToDecimal(n) else Group(NatToDecimal(n))
  }

  lemma {:induction false} RemoveCommasAppend(a: string, b: string)
    ensures RemoveCommas(a + b) == RemoveCommas(a) + RemoveCommas(b)
    decreases |a|
  {
    if a == [] {
      assert a + b == b;
    } else {
      assert (a + b)[0] == a[0];
      assert (a + b)[1..] == a[1..] + b;
      RemoveCommasAppend(a[1..], b);
    }
  }

  lemma {:induction false} RemoveCommasOfDigits(d: string)
    requires AllDigits(d)
    ensures RemoveCommas(d) == d
    decreases |d|
  {
    if d != [] {
      RemoveCommasOfDigits(d[1..]);
    }
  }

  /** Deleting the commas from a grouping gives back the digits. */
  lemma GroupRemoveCommas(d: string)
    requires AllDigits(d)
    ensures RemoveCommas(Group(d)) == d
  {
    GroupFromRemoveCommas(d, 0);
  }

  lemma {:induction false} GroupFromRemoveCommas(d: string, k: nat)
    requires k <= |d| && AllDigits(d)
    ensures RemoveCommas(GroupFrom(d, k)) == d[k..]
    decreases |d| - k
  {
    if k < |d| {
      GroupFromRemoveCommas(d, k + 1);
      RemoveCommasStep(d, k);
    }
  }

  lemma {:induction false} RemoveCommasStep(d: string, k: nat)
    requires k < |d| && IsDigit(d[k])
    requires RemoveCommas(GroupFrom(d, k + 1)) == d[k + 1..]
    ensures RemoveCommas(GroupFrom(d, k)) == d[k..]
  {
    var a, g := [d[k]] + Separator(|d| - k - 1), GroupFrom(d, k + 1);
    RemoveCommasAppend(a, g);
    RemoveCommasHead(d[k], Separator(|d| - k - 1));
    assert d[k..] == [d[k]] + d[k + 1..];
  }

  /** A digit followed by an optional separator loses only the separator. */
  lemma RemoveCommasHead(c: char, sep: string)
    requires IsDigit(c) && (sep == "" || sep == ",")
    ensures RemoveCommas([c] + sep) == [c]
  {
    assert ([c] + sep)[1..] == sep;
    if sep != "" {
      assert sep[1..] == [];
    }
    assert RemoveCommas(sep) == [];
    assert RemoveCommas([c] + sep) == [c] + RemoveCommas(sep);
  }

  /** A grouping of a non-empty digit string has the grouped layout. */
  lemma GroupShape(d: string)
    requires |d| > 0 && AllDigits(d)
    ensures GroupedShape(Group(d))
  {
    var s := Group(d);
    GroupLengthMod4(d);
    forall i | 0 <= i < |s|
      ensures GroupedAt(s, i)
    {
      GroupAt(d, 0, i);
    }
  }

  /** The grouped layout at one position of a grouping. */
  lemma {:induction false} GroupAt(d: string, k: nat, i: int)
    requires k < |d| && AllDigits(d) && 0 <= i < |GroupFrom(d, k)|
    ensures GroupedAt(GroupFrom(d, k), i)
    decreases |d| - k
  {
    var a := [d[k]] + Separator(|d| - k - 1);
    if i >= |a| {
      GroupAt(d, k + 1, i - |a|);
      GroupedAtShift(a, GroupFrom(d, k + 1), i);
    } else if i == 0 {
      GroupLengthMod4From(d, k);
    } else {
      SeparatorPosition(d, k);
    }
  }

  /** Prepending text keeps the layout of every position of the old text. */
  lemma GroupedAtShift(a: string, g: string, i: int)
    requires |a| <= i < |a| + |g| && GroupedAt(g, i - |a|)
    ensures GroupedAt(a + g, i)
  {
    assert (a + g)[i] == g[i - |a|];
  }

  /** A separator after the first digit sits a multiple of four from the end. */
  lemma SeparatorPosition(d: string, k: nat)
    requires k + 1 < |d| && (|d| - k - 1) % 3 == 0
    ensures (|GroupFrom(d, k)| - 1) % 4 == 0
  {
    GroupLength(d, k);
    var q := (|d| - k - 1) / 3;
    assert |GroupFrom(d, k)| - 1 == 4 * q;
  }

  /** A grouping never has a length that is a multiple of four. */
  lemma GroupLengthMod4(d: string)
    requires |d| > 0
    ensures |Group(d)| % 4 != 0
  {
    GroupLengthMod4From(d, 0);
  }

  lemma GroupLengthMod4From(d: string, k: nat)
    requires k < |d|
    ensures |GroupFrom(d, k)| % 4 != 0
  {
    GroupLength(d, k);
    var q, r := (|d| - k - 1) / 3, (|d| - k - 1) % 3;
    assert |GroupFrom(d, k)| == 4 * q + r + 1;
    FourBlocks(q, r + 1);
  }

  lemma FourBlocks(q: int, r: int)
    requires 0 <= r < 4
    ensures (4 * q + r) % 4 == r
  {
  }

  /** One separator for every complete block of three after the first digit. */
  lemma {:induction false} GroupLength(d: string, k: nat)
    requires k < |d|
    ensures |GroupFrom(d, k)| == |d| - k + (|d| - k - 1) / 3
    decreases |d| - k
  {
    if k + 1 < |d| {
      GroupLength(d, k + 1);
    }
  }

  /** Thousands keeps every digit of the number and only adds separators. */
  lemma ThousandsRemoveCommas(n: nat)
    ensures RemoveCommas(Thousands(n)) == NatToDecimal(n)
  {
    if n < 100000 {
      RemoveCommasOfDigits(NatToDecimal(n));
    } else {
      GroupRemoveCommas(NatToDecimal(n));
    }
  }

  /** Below 100000 there is no separator; from 100000 on the layout is grouped. */
  lemma ThousandsLayout(n: nat)
    ensures n < 100000 ==> ',' !in Thousands(n) && Thousands(n) == NatToDecimal(n)
    ensures n >= 100000 ==> GroupedShape(Thousands(n))
  {
    if n < 100000 {
      var d := NatToDecimal(n);
      assert forall i :: 0 <= i < |d| ==> d[i] != ',' by {
        assert AllDigits(d);
      }
    } else {
      GroupShape(NatToDecimal(n));
    }
  }

  lemma Assoc(a: string, b: string, c: string)
    ensures a + (b + c) == a + b + c
  {
  }
}
