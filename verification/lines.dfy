/** The text of a log line as log/log.go assembles it: the key/value tail of
    `Format`, the line `Logger.write` hands to the writer, the line of
    `Println`, and the stack-trace cut of `GetStackInfo`. Argument values
    are rendered by `FormatValue` (bound to `SimpleFormat`, whose source is
    not part of this model), passed in as the function `fv`; `fmt.Sprintf`
    with only `%s` verbs is string concatenation. */
module Lines {
  import Values = Format
  import Utf8
  import Decimal

  /** Go's `interface{}` argument. */
  type Arg = Values.Value

  /** One `\t key=value` segment, the format "%s\t%s=%s" minus the message. */
  function Segment(fv: Arg -> string, key: Arg, value: Arg): string {
    "\t" + fv(key) + "=" + fv(value)
  }

  /** The first `j` key/value segments of `args`, in argument order. */
  function Segments(fv: Arg -> string, args: seq<Arg>, j: nat): string
    requires 2 * j <= |args|
  {
    if j == 0 then "" else Segments(fv, args, j - 1) + Segment(fv, args[2 * j - 2], args[2 * j - 1])
  }

  /** The key left without a value by an odd argument count, as `\t key=`. */
  function Dangling(fv: Arg -> string, args: seq<Arg>): string {
    if |args| % 2 == 1 then "\t" + fv(args[|args| - 1]) + "=" else ""
  }

  /** What `Format(msg, args...)` returns: the message, one segment per
      key/value pair, and the dangling key of an odd count. */
  function KeyValueText(fv: Arg -> string, msg: string, args: seq<Arg>): (r: string)
    ensures msg <= r
    ensures |args| == 0 ==> r == msg
  {
    msg + Segments(fv, args, |args| / 2) + Dangling(fv, args)
  }

  /** The pair loop shared by `Format` and `Logger.write`: `i` runs over the
      odd indices, appending the segment of `args[i-1]` and `args[i]`. */
  method AppendPairs(fv: Arg -> string, msg: string, args: seq<Arg>) returns (r: string)
    ensures r == msg + Segments(fv, args, |args| / 2)
  {
    r := msg;
    var i := 1;
    ghost var j: nat := 0;
    while i < |args|
      invariant i == 2 * j + 1 && 2 * j <= |args|
      invariant r == msg + Segments(fv, args, j)
    {
      Decimal.Assoc(msg, Segments(fv, args, j), Segment(fv, args[i - 1], args[i]));
      r := r + Segment(fv, args[i - 1], args[i]);
      i := i + 2;
      j := j + 1;
    }
  }

  /** `Format`: the pair loop, then the dangling key when `count&1 == 1`
      (for a length, the same as `count % 2 == 1`). */
  method FormatKeyValues(fv: Arg -> string, msg: string, args: seq<Arg>) returns (r: string)
    ensures r == KeyValueText(fv, msg, args)
  {
    r := AppendPairs(fv, msg, args);
    if |args| % 2 == 1 {
      r := r + ("\t" + fv(args[|args| - 1]) + "=");
    }
  }

  /** `%-5s`: the name left-justified in a field of five, padded with
      spaces. Go counts the width in runes; the labels are ASCII, so runes
      and bytes agree. */
  function Pad5(s: string): (r: string)
    ensures |r| == if |s| < 5 then 5 else |s|
    ensures s <= r && forall i :: |s| <= i < |r| ==> r[i] == ' '
  {
    if |s| < 5 then s + seq(5 - |s|, _ => ' ') else s
  }

  /** The line `Logger.write` produces, for odd and even argument counts
      alike: padded name, bracketed time stamp, the formatted message, and a
      newline. */
  function LineText(fv: Arg -> string, name: string, ts: string, msg: string, args: seq<Arg>): string {
    Pad5(name) + "[" + ts + "] " + KeyValueText(fv, msg, args) + "\n"
  }

  /** `Logger.write` up to the writer call: the pair loop, then one of two
      `Sprintf` formats depending on the parity of the argument count. */
  method WriteLine(fv: Arg -> string, name: string, ts: string, msg: string, args: seq<Arg>) returns (line: string)
    ensures line == LineText(fv, name, ts, msg, args)
    ensures Pad5(name) <= line && line[|line| - 1] == '\n'
  {
    var body := AppendPairs(fv, msg, args);
    var head := Pad5(name) + "[" + ts + "] ";
    if |args| % 2 == 1 {
      var key := fv(args[|args| - 1]);
      line := head + body + "\t" + key + "=\n";
      assert line == head + (body + ("\t" + key + "=")) + "\n";
    } else {
      line := head + body + "\n";
    }
    assert Pad5(name) <= head;
  }

  /** The tab-separated rendering of every argument of `Println`. */
  function ArgsText(fv: Arg -> string, args: seq<Arg>): string {
    if args == [] then "" else ArgsText(fv, args[..|args| - 1]) + "\t" + fv(args[|args| - 1])
  }

  /** `Println`'s text before the newline: padded name and bracketed time
      stamp, then each argument after a tab, in order. */
  method PrintlnLine(fv: Arg -> string, name: string, ts: string, args: seq<Arg>) returns (msg: string)
    ensures msg == Pad5(name) + "[" + ts + "]" + ArgsText(fv, args)
  {
    var head := Pad5(name) + "[" + ts + "]";
    msg := head;
    var i := 0;
    while i < |args|
      invariant 0 <= i <= |args|
      invariant msg == head + ArgsText(fv, args[..i])
    {
      assert args[..i + 1][..i] == args[..i];
      Decimal.Assoc(head, ArgsText(fv, args[..i]), "\t" + fv(args[i]));
      msg := msg + ("\t" + fv(args[i]));
      i := i + 1;
    }
    assert args[..|args|] == args;
  }

  /** The number of newline bytes in `s`. */
  function Newlines(s: string): nat {
    if s == [] then 0 else Newlines(s[..|s| - 1]) + (if s[|s| - 1] == '\n' then 1 else 0)
  }

  /** Byte `p` of `s` is its `k`-th newline, counting from one. */
  predicate KthNewline(s: string, k: int, p: int) {
    0 <= p < |s| && s[p] == '\n' && Newlines(s[..p + 1]) == k
  }

  lemma NewlinesStep(s: string, m: nat)
    requires m < |s|
    ensures Newlines(s[..m + 1]) == Newlines(s[..m]) + (if s[m] == '\n' then 1 else 0)
  {
    assert s[..m + 1][..m] == s[..m];
  }

  /** A stretch without newlines adds nothing to the count. */
  lemma {:induction false} NewlinesSkip(s: string, a: nat, b: nat)
    requires a <= b <= |s|
    requires forall j :: a <= j < b ==> s[j] != '\n'
    ensures Newlines(s[..b]) == Newlines(s[..a])
  {
    if a < b {
      NewlinesSkip(s, a, b - 1);
      NewlinesStep(s, b - 1);
    }
  }

  lemma {:induction false} NewlinesMono(s: string, a: nat, b: nat)
    requires a <= b <= |s|
    ensures Newlines(s[..a]) <= Newlines(s[..b])
  {
    if a < b {
      NewlinesMono(s, a, b - 1);
      NewlinesStep(s, b - 1);
    }
  }

  /** Each newline is the `k`-th for exactly one `k`. */
  lemma KthNewlineUnique(s: string, k: int, p: int, q: int)
    requires KthNewline(s, k, p) && KthNewline(s, k, q)
    ensures p == q
  {
    if p < q {
      NewlinesMono(s, p + 1, q);
      NewlinesStep(s, q);
    } else if q < p {
      NewlinesMono(s, q + 1, p);
      NewlinesStep(s, p);
    }
  }

  /** Decoding one rune at `i` meets a newline exactly when byte `i` is one,
      and the rune's other bytes hold none. */
  lemma RuneNewline(s: string, i: nat)
    requires i < |s|
    ensures var (token, w) := Utf8.DecodeRune(s, i);
      && (token == 0x0A <==> s[i] == '\n')
      && Newlines(s[..i + w]) == Newlines(s[..i]) + (if s[i] == '\n' then 1 else 0)
  {
    var (token, w) := Utf8.DecodeRune(s, i);
    NewlinesStep(s, i);
    NewlinesSkip(s, i + 1, i + w);
  }

  /** `GetStackInfo` on the stack text `info`: a rune loop that counts
      newlines and cuts after the `omitCalls`-th. The result is the text after
      that newline, or all of `info` when there is no such newline or it is
      the last byte. */
  method GetStackInfo(omitCalls: int, info: string) returns (r: string)
    ensures forall p :: KthNewline(info, omitCalls, p) ==>
      r == if p + 1 < |info| then info[p + 1..] else info
    ensures (forall p :: !KthNewline(info, omitCalls, p)) ==> r == info
  {
    var start := 0;
    var count := 0;
    var i := 0;
    while i < |info|
      invariant 0 <= i <= |info|
      invariant count == Newlines(info[..i])
      invariant 0 < omitCalls ==> count < omitCalls
      invariant start == 0
    {
      var (token, w) := Utf8.DecodeRune(info, i);
      RuneNewline(info, i);
      if token == 0x0A {
        count := count + 1;
        if count == omitCalls {
          NewlinesStep(info, i);
          start := i + 1;
          assert KthNewline(info, omitCalls, i);
          forall p | KthNewline(info, omitCalls, p) ensures p == i {
            KthNewlineUnique(info, omitCalls, p, i);
          }
          break;
        }
      }
      i := i + w;
    }
    if start == 0 {
      assert info[..i] == info;
      forall p | 0 <= p < |info| && info[p] == '\n' ensures !KthNewline(info, omitCalls, p) {
        NewlinesMono(info, p + 1, |info|);
        NewlinesStep(info, p);
      }
    }
    if start < |info| {
      r := info[start..];
      assert start == 0 ==> r == info;
    } else {
      r := info;
    }
  }
}
