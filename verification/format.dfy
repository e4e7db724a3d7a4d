/** The value formatter of the log package (log/format.go): logfmt numbers
    with thousands separators, the quoting decision for strings, and the
    type-directed `Stringify`. Go's dynamic type switch becomes the closed
    `Value` datatype; the recover of a nil-pointer panic becomes an explicit
    `nilPointer` flag on the two method-carrying variants. */
module Format {
  import opened Wrappers
  import opened GoInts
  import opened Decimal
  import Utf8

  /** The logfmt rendering of any integer: its sign, then the grouped magnitude. */
  function LogfmtInt(x: int): string {
    (if x < 0 then "-" else "") + Thousands(if x < 0 then -x else x)
  }

  /** The buffer fill of formatLogfmtUint64: digits are written right to left
      into a 26-byte buffer, a comma before every fourth digit, then the sign. */
  method FormatUint64Signed(n: uint64, neg: bool) returns (r: string)
    requires neg ==> n <= 0x8000_0000_0000_0000
    ensures r == (if neg && n > 0 then "-" else "") + Thousands(n)
  {
    if n < 100000 {
      if neg {
        r := IntToDecimal(-(n as int));
      } else {
        r := IntToDecimal(n);
      }
      return;
    }
    var out, i := FillDigits(n);
    if neg {
      SignFits(n);
      WriteBefore(out, i, '-');
      out := out[i := '-'];
      i := i - 1;
    }
    r := out[i + 1..];
  }

  /** A magnitude of at most 2^63 has at most 19 digits, so its grouping
      leaves room for the sign in the 26-byte buffer. */
  lemma SignFits(n: nat)
    requires 0 < n <= 0x8000_0000_0000_0000
    ensures |Group(NatToDecimal(n))| <= 25
  {
    Uint64DecimalLength(n);
    GroupLength(NatToDecimal(n), 0);
  }

  /** What the buffer holds once the digits of `D` from index `j` on have been
      written: their grouping, preceded by the comma of the next group when
      the loop has already written it. */
  function Filled(D: string, j: nat, pendingComma: bool): string
    requires j <= |D|
  {
    (if pendingComma then "," else "") + GroupFrom(D, j)
  }

  /** The state of formatLogfmtUint64's loop: `k` digits of `D` and the commas
      between them are written after index `i`, `m` holds the digits still to
      write, and `comma` counts the digits written since the last comma. */
  predicate FillState(D: string, out: string, i: int, m: nat, k: int, comma: int, groups: int) {
    && |D| <= 20 && |out| == 26 && -1 <= i <= 25
    && 0 <= k <= |D|
    && (m > 0 ==> NatToDecimal(m) == D[..|D| - k])
    && (m == 0 ==> k == |D|)
    && 0 <= comma <= 3 && 0 <= groups && k == 3 * groups + comma
    && (comma == 0 ==> m > 0)
    && out[i + 1..] == Filled(D, |D| - k, comma == 0 && k > 0)
  }

  /** The loop of formatLogfmtUint64: `out[i+1..]` ends up holding the
      grouped digits of `n`, and the index never leaves the 26-byte buffer. */
  method FillDigits(n: uint64) returns (out: string, i: int)
    requires n > 0
    ensures |out| == 26 && -1 <= i <= 25
    ensures out[i + 1..] == Group(NatToDecimal(n))
  {
    ghost var D := NatToDecimal(n);
    Uint64DecimalLength(n);
    out := seq(26, _ => '\0');
    i := 25;
    var comma := 0;
    var m: uint64 := n;
    ghost var k := 0;
    ghost var groups := 0;
    while m > 0
      invariant FillState(D, out, i, m, k, comma, groups)
      decreases m, comma
    {
      out, i, m, k, comma, groups := FillStep(D, out, i, m, k, comma, groups);
    }
    FillDone(D, out, i, k, comma, groups);
  }

  /** One iteration of formatLogfmtUint64's loop: either the comma that
      closes a group or the next digit, taken from the end of `m`. */
  method FillStep(ghost D: string, out: string, i: int, m: uint64, ghost k: int, comma: int, ghost groups: int)
    returns (out': string, i': int, m': uint64, ghost k': int, comma': int, ghost groups': int)
    requires m > 0 && FillState(D, out, i, m, k, comma, groups)
    ensures FillState(D, out', i', m', k', comma', groups')
    ensures m' < m || (m' == m && comma' < comma)
  {
    if comma == 3 {
      FillComma(D, out, i, m, k, groups);
      out', i', m', k', comma', groups' := out[i := ','], i - 1, m, k, 0, groups + 1;
    } else {
      FillDigit(D, out, i, m, k, comma, groups);
      out', i', m', k', comma', groups' := out[i := DigitChar(m % 10)], i - 1, m / 10, k + 1, comma + 1, groups;
    }
  }

  /** The `comma == 3` step of the loop: a comma goes before the last group. */
  lemma FillComma(D: string, out: string, i: int, m: nat, k: int, groups: int)
    requires m > 0 && FillState(D, out, i, m, k, 3, groups)
    ensures 0 <= i && FillState(D, out[i := ','], i - 1, m, k, 0, groups + 1)
  {
    var j := |D| - k;
    assert 0 < |NatToDecimal(m)| == j;
    GroupFits(D, j);
    PrependComma(out, i, D, j);
    assert out[i := ','][i - 1 + 1..] == Filled(D, j, true);
  }

  /** The digit step of the loop: the last digit of `m` goes before what is written. */
  lemma FillDigit(D: string, out: string, i: int, m: nat, k: int, comma: int, groups: int)
    requires m > 0 && comma < 3 && FillState(D, out, i, m, k, comma, groups)
    ensures 0 <= i
    ensures FillState(D, out[i := DigitChar(m % 10)], i - 1, m / 10, k + 1, comma + 1, groups)
  {
    DigitStep(D, k, m);
    PendingSeparator(k, groups, comma);
    var j := |D| - k - 1;
    GroupFits(D, j);
    assert out[i + 1..] == Filled(D, j + 1, comma == 0 && k > 0);
    PrependDigit(out, i, D, j, comma == 0 && k > 0);
    assert DigitChar(m % 10) == D[j];
    assert |D| - (k + 1) == j && i - 1 + 1 == i;
  }

  /** Once `m` is exhausted every digit is written, with no comma pending. */
  lemma FillDone(D: string, out: string, i: int, k: int, comma: int, groups: int)
    requires FillState(D, out, i, 0, k, comma, groups)
    ensures |out| == 26 && -1 <= i <= 25 && out[i + 1..] == Group(D)
  {
  }

  /** The grouping of at most 20 digits fits the 26-byte buffer, with room
      for one comma before it when the first digit is still to come. */
  lemma GroupFits(D: string, j: nat)
    requires j <= |D| <= 20
    ensures |GroupFrom(D, j)| <= 26
    ensures 0 < j ==> 1 + |GroupFrom(D, j)| <= 26
  {
    if j < |D| {
      GroupLength(D, j);
    }
  }

  /** After `k = 3 * groups + comma` digits, the next digit is followed by a
      separator exactly when the loop has just completed a group. */
  lemma PendingSeparator(k: nat, groups: nat, comma: nat)
    requires comma < 3 && k == 3 * groups + comma
    ensures (comma == 0 && k > 0) <==> Separator(k) == ","
  {
    ModThree(groups, comma);
  }

  /** Writing a comma before a suffix holding a whole number of groups. */
  lemma PrependComma(out: string, i: int, D: string, j: nat)
    requires j <= |D| && -1 <= i < |out| && 1 + |GroupFrom(D, j)| <= |out|
    requires out[i + 1..] == Filled(D, j, false)
    ensures 0 <= i && out[i := ','][i..] == Filled(D, j, true)
  {
    WriteBefore(out, i, ',');
  }

  /** Writing digit `D[j]` before the grouping of the digits after it, which
      is preceded by a comma exactly when they are a whole number of groups. */
  lemma PrependDigit(out: string, i: int, D: string, j: nat, pendingComma: bool)
    requires j < |D| && -1 <= i < |out| && |GroupFrom(D, j)| <= |out|
    requires out[i + 1..] == Filled(D, j + 1, pendingComma)
    requires pendingComma <==> Separator(|D| - j - 1) == ","
    ensures 0 <= i && out[i := D[j]][i..] == Filled(D, j, false)
  {
    var sep := Separator(|D| - j - 1);
    assert Filled(D, j + 1, pendingComma) == sep + GroupFrom(D, j + 1);
    Assoc([D[j]], sep, GroupFrom(D, j + 1));
    WriteBefore(out, i, D[j]);
  }

  /** formatLogfmtBigInt's buffer of `n + n/3` bytes holds the grouping of
      any tail of at most `n` digits. */
  lemma GroupFitsText(d: string, k: nat, n: int)
    requires k < |d| <= n
    ensures |GroupFrom(d, k)| <= n + n / 3
    ensures |d| - k < n ==> 1 + |GroupFrom(d, k)| <= n + n / 3
  {
    GroupLength(d, k);
    DivThreeMono(|d| - k - 1, n);
  }

  lemma DivThreeMono(a: int, b: int)
    requires 0 <= a <= b
    ensures a / 3 <= b / 3
  {
  }

  lemma ModThree(g: nat, c: nat)
    requires c < 3
    ensures (3 * g + c) % 3 == c
  {
  }

  /** Filling the slot just before the written suffix extends that suffix. */
  lemma WriteBefore(out: string, i: int, c: char)
    requires 0 <= i < |out|
    ensures out[i := c][i..] == [c] + out[i + 1..]
  {
  }

  /** Filling the two slots just before the written suffix, the nearer one first. */
  lemma WriteTwo(out: string, i: int, a: char, b: char)
    requires 1 <= i < |out|
    ensures out[i := a][i - 1 := b][i - 1..] == [b] + [a] + out[i + 1..]
  {
  }

  /** One digit step of the right-to-left fill: the last digit of `m` is the
      next digit of the full decimal `D`, and `m / 10` holds the rest. */
  lemma DigitStep(D: string, k: nat, m: nat)
    requires k <= |D| && m > 0 && NatToDecimal(m) == D[..|D| - k]
    ensures k < |D| && D[|D| - k - 1] == DigitChar(m % 10)
    ensures m / 10 > 0 ==> NatToDecimal(m / 10) == D[..|D| - k - 1]
    ensures m / 10 == 0 ==> k + 1 == |D|
  {
    assert D[|D| - k - 1] == NatToDecimal(m)[|D| - k - 1];
  }

  /** FormatLogfmtUint64: grouping of an unsigned 64-bit value. */
  method FormatLogfmtUint64(n: uint64) returns (r: string)
    ensures r == LogfmtInt(n)
    ensures RemoveCommas(r) == IntToDecimal(n)
  {
    r := FormatUint64Signed(n, false);
    LogfmtIntRemoveCommas(n);
  }

  /** FormatLogfmtInt64: a negative value is `-` followed by the grouping of
      `uint64(-n)`, which is its magnitude even for MinInt64. */
  method FormatLogfmtInt64(n: int64) returns (r: string)
    ensures r == LogfmtInt(n)
    ensures RemoveCommas(r) == IntToDecimal(n)
  {
    if n < 0 {
      NegatedMagnitude(n);
      r := FormatUint64Signed(AsUint64(Negate64(n)), true);
    } else {
      r := FormatUint64Signed(n, false);
    }
    LogfmtIntRemoveCommas(n);
  }

  /** formatLogfmtBigInt: values that fit 64 bits take the 64-bit paths;
      any other value is grouped from its decimal text. */
  method FormatLogfmtBigInt(n: int) returns (r: string)
    ensures r == LogfmtInt(n)
    ensures RemoveCommas(r) == IntToDecimal(n)
  {
    LogfmtIntRemoveCommas(n);
    if 0 <= n <= MaxUint64 {
      r := FormatLogfmtUint64(n);
      return;
    }
    if MinInt64 <= n <= MaxInt64 {
      r := FormatLogfmtInt64(n);
      return;
    }
    var text := IntToDecimal(n);
    ghost var D := NatToDecimal(if n < 0 then -n else n);
    var buf, i := GroupText(text, if n < 0 then "-" else "", D);
    r := buf[i + 1..];
  }

  /** The loop of formatLogfmtBigInt: the decimal text (`digits`, possibly
      after a minus sign) is copied right to left into a buffer of
      `len(text) + len(text)/3` bytes, a comma written before a digit once
      three digits have been copied since the last one; the sign is copied as is. */
  method GroupText(text: string, ghost sign: string, ghost digits: string) returns (buf: string, i: int)
    requires (sign == "" || sign == "-") && |digits| > 0 && AllDigits(digits)
    requires text == sign + digits
    ensures -1 <= i < |buf|
    ensures buf[i + 1..] == sign + Group(digits)
  {
    buf := seq(|text| + |text| / 3, _ => '\0');
    var comma := 0;
    i := |buf| - 1;
    var j := |text| - 1;
    while j >= 0
      invariant TextState(text, sign, digits, buf, i, j, comma)
      decreases j
    {
      buf, i, j, comma := TextStep(text, sign, digits, buf, i, j, comma);
    }
    assert TextSuffix(sign, digits, 0) == sign + Group(digits);
  }

  /** What formatLogfmtBigInt's buffer holds once the text from byte `t` on
      has been copied: the grouped digits after `t`, and the sign before
      them once the sign itself has been copied. */
  function TextSuffix(sign: string, digits: string, t: int): string
    requires 0 <= t <= |sign| + |digits|
  {
    if t < |sign| then sign + GroupFrom(digits, 0) else GroupFrom(digits, t - |sign|)
  }

  /** The state of formatLogfmtBigInt's loop with `j` the next byte of the
      text to copy: the copied bytes sit at the end of the buffer, and
      `comma` counts the digits copied since the last separator. */
  predicate TextState(text: string, sign: string, digits: string, buf: string, i: int, j: int, comma: int) {
    && text == sign + digits && -1 <= j < |text|
    && |buf| == |text| + |text| / 3 && -1 <= i < |buf|
    && buf[i + 1..] == TextSuffix(sign, digits, j + 1)
    && comma == CommaCounter(if j + 1 < |sign| then |digits| else |text| - (j + 1))
  }

  /** One iteration of formatLogfmtBigInt's loop: the byte `text[j]` is
      copied, the sign as is and a digit through PutDigit. */
  method TextStep(text: string, ghost sign: string, ghost digits: string, buf: string, i: int, j: int, comma: int)
    returns (buf': string, i': int, j': int, comma': int)
    requires (sign == "" || sign == "-") && |digits| > 0 && AllDigits(digits)
    requires 0 <= j && TextState(text, sign, digits, buf, i, j, comma)
    ensures j' == j - 1 && TextState(text, sign, digits, buf', i', j', comma')
  {
    var c := text[j];
    if c == '-' {
      SignState(text, sign, digits, j, buf, i, comma);
      buf', i', comma' := buf[i := '-'], i - 1, comma;
    } else {
      buf', i', comma' := PutDigit(text, sign, digits, j, buf, i, comma);
    }
    j' := j - 1;
  }

  /** How many digits formatLogfmtBigInt's loop has copied since the last
      separator after copying `n` digits: 1, 2, 3, 1, 2, 3, … */
  function CommaCounter(n: nat): (c: nat)
    ensures c <= 3 && (c == 0 <==> n == 0)
  {
    if n == 0 then 0 else (n - 1) % 3 + 1
  }

  /** A separator follows the next digit exactly when the digits after it
      have completed a group. */
  lemma SeparatorCounter(n: nat)
    ensures Separator(n) == (if CommaCounter(n) == 3 then "," else "")
    ensures CommaCounter(n + 1) == (if CommaCounter(n) == 3 then 1 else CommaCounter(n) + 1)
  {
  }

  /** The digits from index `k` on sit grouped at the end of the buffer,
      and `comma` counts the digits copied since the last separator. */
  predicate Copied(digits: string, k: int, buf: string, i: int, comma: int) {
    && 0 <= k <= |digits|
    && -1 <= i < |buf|
    && buf[i + 1..] == GroupFrom(digits, k)
    && comma == CommaCounter(|digits| - k)
  }

  /** The sign step of formatLogfmtBigInt's loop: `-` can only be the first
      byte of the text, and copying it completes the result. */
  lemma SignState(text: string, sign: string, digits: string, j: int, buf: string, i: int, comma: int)
    requires (sign == "" || sign == "-") && |digits| > 0 && AllDigits(digits)
    requires 0 <= j && TextState(text, sign, digits, buf, i, j, comma) && text[j] == '-'
    ensures 0 <= i && TextState(text, sign, digits, buf[i := '-'], i - 1, j - 1, comma)
  {
    SignFirst(text, sign, digits, j);
    GroupFitsText(digits, 0, |text|);
    Prepend(buf, i, '-', GroupFrom(digits, 0));
  }

  /** The sign, when there is one, is a `-`. */
  lemma SignedPrefix(text: string, sign: string, digits: string)
    requires (sign == "" || sign == "-") && text == sign + digits
    ensures forall t :: 0 <= t < |sign| ==> text[t] == '-'
  {
  }

  /** A minus sign can only be the first byte of the decimal text. */
  lemma SignFirst(text: string, sign: string, digits: string, j: int)
    requires (sign == "" || sign == "-") && AllDigits(digits) && text == sign + digits
    requires 0 <= j < |text| && text[j] == '-'
    ensures j == 0 && sign == "-"
  {
    forall t | |sign| <= t < |text|
      ensures text[t] != '-'
    {
      assert text[t] == digits[t - |sign|];
    }
  }

  /** The `comma == 3` and default cases of formatLogfmtBigInt's loop: a
      digit is copied, preceded by a separator when three digits have been
      copied since the last one. */
  method PutDigit(text: string, ghost sign: string, ghost digits: string, j: int, buf: string, i: int, comma: int)
    returns (buf': string, i': int, comma': int)
    requires (sign == "" || sign == "-") && AllDigits(digits)
    requires 0 <= j && TextState(text, sign, digits, buf, i, j, comma) && text[j] != '-'
    ensures TextState(text, sign, digits, buf', i', j - 1, comma')
  {
    buf', i', comma' := buf, i, comma;
    if comma == 3 {
      CopyCommaState(text, sign, digits, j, buf, i);
    } else {
      CopyPlainState(text, sign, digits, j, buf, i, comma);
    }
    if comma == 3 {
      buf' := buf'[i' := ','];
      i' := i' - 1;
      comma' := 0;
    }
    buf' := buf'[i' := text[j]];
    comma' := comma' + 1;
    i' := i' - 1;
  }

  /** The `comma == 3` case: a separator, then the digit. */
  lemma {:induction false} CopyCommaState(text: string, sign: string, digits: string, j: int, buf: string, i: int)
    requires sign == "" || sign == "-"
    requires 0 <= j && TextState(text, sign, digits, buf, i, j, 3) && text[j] != '-'
    ensures 1 <= i && TextState(text, sign, digits, buf[i := ','][i - 1 := text[j]], i - 2, j - 1, 1)
  {
    var k := DigitIndex(text, sign, digits, j);
    assert Copied(digits, k + 1, buf, i, 3) by {
      CopiedIsState(text, sign, digits, buf, i, j, k + 1, 3);
    }
    CopyAfterComma(digits, k, text[j], buf, i);
    var buf' := buf[i := ','][i - 1 := text[j]];
    assert TextState(text, sign, digits, buf', i - 2, j - 1, 1) by {
      StateOfCopied(text, sign, digits, buf', i - 2, j - 1, k, 1);
    }
  }

  /** The default case: the digit alone. */
  lemma {:induction false} CopyPlainState(text: string, sign: string, digits: string, j: int, buf: string, i: int, comma: int)
    requires sign == "" || sign == "-"
    requires 0 <= j && TextState(text, sign, digits, buf, i, j, comma) && text[j] != '-' && comma < 3
    ensures 0 <= i && TextState(text, sign, digits, buf[i := text[j]], i - 1, j - 1, comma + 1)
  {
    var k := DigitIndex(text, sign, digits, j);
    CopiedIsState(text, sign, digits, buf, i, j, k + 1, comma);
    PlainCopied(text, sign, digits, buf, i, j, k, comma);
  }

  /** CopyPlainState in terms of the digit index `k`. */
  lemma {:induction false} PlainCopied(text: string, sign: string, digits: string, buf: string, i: int, j: int, k: nat, comma: int)
    requires text == sign + digits && |buf| == |text| + |text| / 3
    requires k == j - |sign| && k < |digits| && 0 <= j < |text| && text[j] == digits[k]
    requires |GroupFrom(digits, k)| <= |buf| && comma < 3
    requires Copied(digits, k + 1, buf, i, comma)
    ensures 0 <= i && TextState(text, sign, digits, buf[i := text[j]], i - 1, j - 1, comma + 1)
  {
    CopyPlain(digits, k, text[j], buf, i, comma);
    StateOfCopied(text, sign, digits, buf[i := text[j]], i - 1, j - 1, k, comma + 1);
  }

  /** The converse of CopiedIsState. */
  lemma StateOfCopied(text: string, sign: string, digits: string, buf: string, i: int, j: int, k: int, comma: int)
    requires text == sign + digits && |buf| == |text| + |text| / 3
    requires k == j + 1 - |sign| && 0 <= k <= |digits|
    requires Copied(digits, k, buf, i, comma)
    ensures TextState(text, sign, digits, buf, i, j, comma)
  {
  }

  /** A byte other than `-` is the digit `digits[k]`, and its grouping fits the buffer. */
  lemma DigitIndex(text: string, sign: string, digits: string, j: int) returns (k: nat)
    requires (sign == "" || sign == "-") && text == sign + digits
    requires 0 <= j < |text| && text[j] != '-'
    ensures k == j - |sign| && k < |digits| && text[j] == digits[k]
    ensures |GroupFrom(digits, k)| <= |text| + |text| / 3
  {
    SignedPrefix(text, sign, digits);
    k := j - |sign|;
    GroupFitsText(digits, k, |text|);
  }

  /** While copying digits, the loop state is the Copied state of the digits
      from `k`, the index in `digits` of the byte after `j`, and back. */
  lemma CopiedIsState(text: string, sign: string, digits: string, buf: string, i: int, j: int, k: int, comma: int)
    requires k == j + 1 - |sign| && 0 <= k <= |digits|
    requires TextState(text, sign, digits, buf, i, j, comma)
    ensures Copied(digits, k, buf, i, comma)
  {
  }

  lemma CopyAfterComma(digits: string, k: nat, c: char, buf: string, i: int)
    requires k < |digits| && c == digits[k] && |GroupFrom(digits, k)| <= |buf|
    requires Copied(digits, k + 1, buf, i, 3)
    ensures 1 <= i && Copied(digits, k, buf[i := ','][i - 1 := c], i - 2, 1)
  {
    CommaStep(digits, k);
    PrependTwo(buf, i, ',', c, GroupFrom(digits, k + 1));
  }

  /** After a whole group, the next digit is copied with a separator after it. */
  lemma CommaStep(digits: string, k: nat)
    requires k < |digits| && CommaCounter(|digits| - (k + 1)) == 3
    ensures GroupFrom(digits, k) == [digits[k]] + [','] + GroupFrom(digits, k + 1)
    ensures CommaCounter(|digits| - k) == 1
  {
    SeparatorCounter(|digits| - (k + 1));
    GroupFromComma(digits, k);
  }

  /** Filling the two slots before a written suffix, when the buffer has room for them. */
  lemma PrependTwo(buf: string, i: int, a: char, b: char, suffix: string)
    requires -1 <= i < |buf| && buf[i + 1..] == suffix && 2 + |suffix| <= |buf|
    ensures 1 <= i && buf[i := a][i - 1 := b][i - 2 + 1..] == [b] + [a] + suffix
  {
    WriteTwo(buf, i, a, b);
  }

  lemma CopyPlain(digits: string, k: nat, c: char, buf: string, i: int, comma: int)
    requires k < |digits| && c == digits[k] && |GroupFrom(digits, k)| <= |buf| && comma < 3
    requires Copied(digits, k + 1, buf, i, comma)
    ensures 0 <= i && Copied(digits, k, buf[i := c], i - 1, comma + 1)
  {
    PlainStep(digits, k);
    Prepend(buf, i, c, GroupFrom(digits, k + 1));
  }

  /** Inside a group, the next digit is copied without a separator. */
  lemma PlainStep(digits: string, k: nat)
    requires k < |digits| && CommaCounter(|digits| - (k + 1)) < 3
    ensures GroupFrom(digits, k) == [digits[k]] + GroupFrom(digits, k + 1)
    ensures CommaCounter(|digits| - k) == CommaCounter(|digits| - (k + 1)) + 1
  {
    SeparatorCounter(|digits| - (k + 1));
    GroupFromPlain(digits, k);
  }

  /** Filling the slot before a written suffix, when the buffer has room for it. */
  lemma Prepend(buf: string, i: int, c: char, suffix: string)
    requires -1 <= i < |buf| && buf[i + 1..] == suffix && 1 + |suffix| <= |buf|
    ensures 0 <= i && buf[i := c][i - 1 + 1..] == [c] + suffix
  {
    WriteBefore(buf, i, c);
  }

  /** The separators are the only characters LogfmtInt adds to the decimal text. */
  lemma LogfmtIntRemoveCommas(x: int)
    ensures RemoveCommas(LogfmtInt(x)) == IntToDecimal(x)
  {
    var m := if x < 0 then -x else x;
    ThousandsRemoveCommas(m);
    RemoveCommasAppend(if x < 0 then "-" else "", Thousands(m));
  }

  /** The layout of a logfmt integer: a minus sign only for negative values,
      never followed by a separator, and plain digits below 100000 in magnitude. */
  lemma LogfmtIntLayout(x: int)
    ensures var s := LogfmtInt(x);
      && (x < 0 <==> s[0] == '-')
      && (x < 0 ==> IsDigit(s[1]))
      && (-100000 < x < 100000 ==> ',' !in s)
      && (x <= -100000 || 100000 <= x ==> GroupedShape(s[if x < 0 then 1 else 0..]))
  {
    var m := if x < 0 then -x else x;
    ThousandsLayout(m);
    if m >= 100000 {
      assert Thousands(m)[0] != ',';
    }
  }

  // ---------------------------------------------------------------------------
  // escapeString

  /** The quoting test of escapeString, applied to a rune: everything up to
      and including `"`, everything above `~`, and `=`. */
  predicate NeedsQuoting(r: int) {
    r <= 0x22 || r > 0x7E || r == 0x3D
  }

  /** Every byte of `s` lies in `#`..`~` and is not `=`. */
  predicate AllPlain(s: string) {
    forall k :: 0 <= k < |s| ==> !NeedsQuoting(s[k] as int)
  }

  /** What escapeString returns: `s` itself when no byte needs quoting,
      otherwise `quote(s)` (strconv.Quote, not modelled). */
  function Escape(s: string, quote: string -> string): string {
    if AllPlain(s) then s else quote(s)
  }

  /** escapeString's rune scan from byte `i` on: does some rune need quoting? */
  function RunesNeedQuoting(s: string, i: nat): bool
    requires i <= |s|
    decreases |s| - i
  {
    if i == |s| then false
    else
      var d := Utf8.DecodeRune(s, i);
      NeedsQuoting(d.0) || RunesNeedQuoting(s, i + d.1)
  }

  /** Scanning runes and scanning bytes reach the same decision: an ASCII
      byte is its own rune, and a multi-byte or invalid sequence decodes to a
      rune above `~` while its first byte is above `~` as well. */
  lemma {:induction false} RunesNeedQuotingBytes(s: string, i: nat)
    requires i <= |s|
    ensures RunesNeedQuoting(s, i) <==> !AllPlain(s[i..])
    decreases |s| - i
  {
    if i < |s| {
      var d := Utf8.DecodeRune(s, i);
      RunesNeedQuotingBytes(s, i + d.1);
      RuneScanStep(s, i, d.1, RunesNeedQuoting(s, i + d.1));
    }
  }

  /** One rune of the scan, given the decision for the rest. */
  lemma RuneScanStep(s: string, i: nat, w: nat, rest: bool)
    requires i < |s| && Utf8.DecodeRune(s, i).1 == w
    requires rest <==> !AllPlain(s[i + w..])
    ensures (NeedsQuoting(Utf8.DecodeRune(s, i).0) || rest) <==> !AllPlain(s[i..])
  {
    var t := s[i..];
    assert t[0] == s[i];
    if s[i] as int < 0x80 {
      assert s[i + w..] == t[1..];
      if !AllPlain(t) {
        var k :| 0 <= k < |t| && NeedsQuoting(t[k] as int);
        if k > 0 {
          assert t[1..][k - 1] == t[k];
        }
      }
    }
  }

  /** escapeString: the rune loop stops at the first rune that needs quoting.
      Its decision is the byte-level one Escape states. */
  method EscapeString(s: string, quote: string -> string) returns (r: string)
    ensures AllPlain(s) ==> r == s
    ensures !AllPlain(s) ==> r == quote(s)
  {
    var needsQuoting := false;
    var i := 0;
    while i < |s| && !needsQuoting
      invariant 0 <= i <= |s|
      invariant RunesNeedQuoting(s, 0) == (needsQuoting || RunesNeedQuoting(s, i))
      decreases |s| - i
    {
      var d := Utf8.DecodeRune(s, i);
      if NeedsQuoting(d.0) {
        needsQuoting := true;
      }
      i := i + d.1;
    }
    RunesNeedQuotingBytes(s, 0);
    assert s[0..] == s;
    if !needsQuoting {
      return s;
    }
    r := quote(s);
  }

  // ---------------------------------------------------------------------------
  // Stringify

  /** The values Stringify distinguishes, standing for Go's dynamic types.
      `Time` carries the text of `v.Format(TimeFormat)`; `BigInt` is a
      `*big.Int`, None being the nil pointer; `Error` and `Stringer` carry
      whether the receiver is a nil pointer and what their method does;
      `Other` carries the `%+v` rendering of any other value. */
  datatype Value =
    | Nil
    | Time(text: string)
    | BigInt(ptr: Option<int>)
    | Bool(b: bool)
    | Int8(i8: int8)
    | Uint8(u8: uint8)
    | Int16(i16: int16)
    | Uint16(u16: uint16)
    | Int(i: int64)
    | Int32(i32: int32)
    | Int64(i64: int64)
    | Uint(u: uint64)
    | Uint32(u32: uint32)
    | Uint64(u64: uint64)
    | Str(s: string)
    | Error(errNil: bool, message: MayPanic<string>)
    | Stringer(strNil: bool, str: MayPanic<string>)
    | Other(sprint: string)

  /** formatShared on a value with an Error or String method: the method's
      text, or, when it panics, "nil" if the receiver is a nil pointer and the
      same panic otherwise. */
  function FormatShared(nilPointer: bool, call: MayPanic<string>): (r: MayPanic<string>)
    ensures r.Panics? <==> call.Panics? && !nilPointer
    ensures call.Returns? ==> r == call
    ensures call.Panics? && nilPointer ==> r == Returns("nil")
  {
    match call
    case Returns(t) => Returns(t)
    case Panics => if nilPointer then Returns("nil") else Panics
  }

  function BoolText(b: bool): string {
    if b then "true" else "false"
  }

  /** Stringify: the type switch of log/format.go. Integers of 8 and 16 bits
      render as plain decimals, wider integers with thousands separators, and
      text goes through escapeString. */
  function Stringify(v: Value, quote: string -> string): (r: MayPanic<string>)
    ensures r.Panics? ==> v.Error? || v.Stringer?
    ensures IntegerOf(v).Some? ==> r.Returns? && r.value != []
  {
    match v
    case Nil => Returns("nil")
    case Time(t) => Returns(t)
    case BigInt(p) => Returns(if p.None? then "<nil>" else LogfmtInt(p.value))
    case Error(np, call) =>
      var r := FormatShared(np, call);
      if r.Panics? then Panics else Returns(Escape(r.value, quote))
    case Stringer(np, call) =>
      var r := FormatShared(np, call);
      if r.Panics? then Panics else Returns(Escape(r.value, quote))
    case Bool(b) => Returns(BoolText(b))
    case Int8(x) => Returns(IntToDecimal(x))
    case Uint8(x) => Returns(IntToDecimal(x))
    case Int16(x) => Returns(IntToDecimal(x))
    case Uint16(x) => Returns(IntToDecimal(x))
    case Int(x) => Returns(LogfmtInt(x))
    case Int32(x) => Returns(LogfmtInt(x))
    case Int64(x) => Returns(LogfmtInt(x))
    case Uint(x) => Returns(LogfmtInt(x))
    case Uint32(x) => Returns(LogfmtInt(x))
    case Uint64(x) => Returns(LogfmtInt(x))
    case Str(s) => Returns(Escape(s, quote))
    case Other(t) => Returns(Escape(t, quote))
  }

  /** The integer a numeric value carries, if it is one. */
  function IntegerOf(v: Value): Option<int> {
    match v
    case Int8(x) => Some(x)
    case Uint8(x) => Some(x)
    case Int16(x) => Some(x)
    case Uint16(x) => Some(x)
    case Int(x) => Some(x)
    case Int32(x) => Some(x)
    case Int64(x) => Some(x)
    case Uint(x) => Some(x)
    case Uint32(x) => Some(x)
    case Uint64(x) => Some(x)
    case BigInt(Some(x)) => Some(x)
    case _ => None
  }

  /** Stringify the way log/format.go computes it, through the buffer
      algorithms and the rune scan; it agrees with the Stringify reference. */
  method StringifyValue(v: Value, quote: string -> string) returns (r: MayPanic<string>)
    ensures r == Stringify(v, quote)
  {
    match v {
      case Int(x) =>
        var t := FormatLogfmtInt64(x);
        return Returns(t);
      case Int32(x) =>
        var t := FormatLogfmtInt64(x);
        return Returns(t);
      case Int64(x) =>
        var t := FormatLogfmtInt64(x);
        return Returns(t);
      case Uint(x) =>
        var t := FormatLogfmtUint64(x);
        return Returns(t);
      case Uint32(x) =>
        var t := FormatLogfmtUint64(x);
        return Returns(t);
      case Uint64(x) =>
        var t := FormatLogfmtUint64(x);
        return Returns(t);
      case BigInt(Some(x)) =>
        var t := FormatLogfmtBigInt(x);
        return Returns(t);
      case Str(s) =>
        var t := EscapeString(s, quote);
        return Returns(t);
      case Other(s) =>
        var t := EscapeString(s, quote);
        return Returns(t);
      case Error(np, call) =>
        var shared := FormatShared(np, call);
        if shared.Panics? {
          return Panics;
        }
        var t := EscapeString(shared.value, quote);
        return Returns(t);
      case Stringer(np, call) =>
        var shared := FormatShared(np, call);
        if shared.Panics? {
          return Panics;
        }
        var t := EscapeString(shared.value, quote);
        return Returns(t);
      case _ =>
        return Stringify(v, quote);
    }
  }

  /** Stringify panics exactly when an Error or String method panics on a
      receiver that is not a nil pointer; a nil receiver renders as "nil". */
  lemma {:induction false} StringifyPanics(v: Value, quote: string -> string)
    ensures Stringify(v, quote).Panics? <==>
      (v.Error? && v.message.Panics? && !v.errNil) || (v.Stringer? && v.str.Panics? && !v.strNil)
    ensures (v.Error? && v.message.Panics? && v.errNil) || (v.Stringer? && v.str.Panics? && v.strNil)
      ==> Stringify(v, quote) == Returns("nil")
  {
    assert AllPlain("nil");
  }

  /** The fixed renderings: nil, the nil big integer, and booleans. */
  lemma StringifyConstants(b: bool, quote: string -> string)
    ensures Stringify(Nil, quote) == Returns("nil")
    ensures Stringify(BigInt(None), quote) == Returns("<nil>")
    ensures Stringify(Bool(b), quote) == Returns(if b then "true" else "false")
  {
  }

  /** Integers render without panicking; deleting the separators gives the
      plain decimal, and 8- and 16-bit integers have no separators at all. */
  lemma StringifyIntegers(v: Value, quote: string -> string)
    requires IntegerOf(v).Some?
    ensures Stringify(v, quote).Returns?
    ensures RemoveCommas(Stringify(v, quote).value) == IntToDecimal(IntegerOf(v).value)
    ensures v.Int8? || v.Uint8? || v.Int16? || v.Uint16? ==>
      Stringify(v, quote).value == IntToDecimal(IntegerOf(v).value) && ',' !in Stringify(v, quote).value
  {
    var x := IntegerOf(v).value;
    LogfmtIntRemoveCommas(x);
    if v.Int8? || v.Uint8? || v.Int16? || v.Uint16? {
      SmallDecimal(x);
    }
  }

  /** A decimal of magnitude below 100000 carries no separator and is its own
      logfmt rendering. */
  lemma SmallDecimal(x: int)
    requires -100000 < x < 100000
    ensures ',' !in IntToDecimal(x) && RemoveCommas(IntToDecimal(x)) == IntToDecimal(x)
  {
    LogfmtIntLayout(x);
    LogfmtIntRemoveCommas(x);
    ThousandsLayout(if x < 0 then -x else x);
  }

  /** Text (strings, error messages, String results and `%+v` renderings) is
      passed through unchanged when every byte is plain and quoted otherwise. */
  lemma {:induction false} StringifyText(v: Value, quote: string -> string)
    requires v.Str? || v.Other? || (v.Error? && v.message.Returns?) || (v.Stringer? && v.str.Returns?)
    ensures var t := if v.Str? then v.s else if v.Other? then v.sprint
                     else if v.Error? then v.message.value else v.str.value;
      Stringify(v, quote) == Returns(if AllPlain(t) then t else quote(t))
  {
  }
}
