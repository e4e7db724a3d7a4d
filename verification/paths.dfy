/** The path handling of log/rotate.go: `strings.TrimSpace` and
    `strings.HasSuffix` in `FileWriter.Init`, `filepath.Base` in the
    retention sweep, and the shape of the RFC 3339 time stamp (section 5.6
    of RFC 3339) appended to a rotated file's name. Paths are Unix paths
    with `/` as the only separator. */
module Paths {
  import opened Wrappers
  import Decimal

  /** The ASCII white space `strings.TrimSpace` removes: tab, newline,
      vertical tab, form feed, carriage return and space. */
  predicate IsSpace(c: char) {
    c == ' ' || 0x09 <= c as int <= 0x0D
  }

  /** The number of leading white-space bytes. */
  function Leading(s: string): (n: nat)
    ensures n <= |s|
    ensures forall i :: 0 <= i < n ==> IsSpace(s[i])
    ensures n < |s| ==> !IsSpace(s[n])
  {
    if s != [] && IsSpace(s[0]) then 1 + Leading(s[1..]) else 0
  }

  /** The length of `s` without its trailing white space. */
  function Trailing(s: string): (n: nat)
    ensures n <= |s|
    ensures forall i :: n <= i < |s| ==> IsSpace(s[i])
    ensures 0 < n ==> !IsSpace(s[n - 1])
  {
    if s != [] && IsSpace(s[|s| - 1]) then Trailing(s[..|s| - 1]) else |s|
  }

  /** `strings.TrimSpace` on ASCII white space: the longest infix that
      neither starts nor ends with white space, everything cut off being
      white space. */
  function TrimSpace(s: string): (r: string)
    ensures r == [] <==> forall i :: 0 <= i < |s| ==> IsSpace(s[i])
    ensures r != [] ==> Leading(s) + |r| == Trailing(s) && r == s[Leading(s)..Trailing(s)]
    ensures r != [] ==> !IsSpace(r[0]) && !IsSpace(r[|r| - 1])
  {
    var a, b := Leading(s), Trailing(s);
    if a < b then s[a..b] else []
  }

  /** A string that neither starts nor ends with white space is its own
      trimmed form; in particular trimming is idempotent. */
  lemma TrimSpaceFixed(s: string)
    requires s != [] ==> !IsSpace(s[0]) && !IsSpace(s[|s| - 1])
    ensures TrimSpace(s) == s
    ensures TrimSpace(TrimSpace(s)) == TrimSpace(s)
  {
  }

  predicate HasSuffix(s: string, suffix: string) {
    |suffix| <= |s| && s[|s| - |suffix|..] == suffix
  }

  /** The first step of `FileWriter.Init`: trim the path, refuse an empty
      one, and append ".log" unless the path already ends with it. */
  function NormalizePath(path: string): (r: Option<string>)
    ensures r.None? <==> TrimSpace(path) == []
    ensures r.Some? ==> HasSuffix(r.value, ".log") && TrimSpace(path) <= r.value
    ensures r.Some? && HasSuffix(TrimSpace(path), ".log") ==> r.value == TrimSpace(path)
    ensures r.Some? && !HasSuffix(TrimSpace(path), ".log") ==> r.value == TrimSpace(path) + ".log"
  {
    var p := TrimSpace(path);
    if p == [] then None
    else if HasSuffix(p, ".log") then Some(p)
    else Some(p + ".log")
  }

  /** Normalizing a normalized path changes nothing. */
  lemma NormalizeIdempotent(path: string)
    requires NormalizePath(path).Some?
    ensures NormalizePath(NormalizePath(path).value) == NormalizePath(path)
  {
    var p := NormalizePath(path).value;
    assert p[|p| - 1] == ".log"[3];
    assert p[0] == TrimSpace(path)[0];
    TrimSpaceFixed(p);
  }

  /** The index of the last `/` in `s`, or -1 when there is none. */
  function LastSlash(s: string): (k: int)
    ensures -1 <= k < |s|
    ensures k >= 0 ==> s[k] == '/'
    ensures forall i :: k < i < |s| ==> s[i] != '/'
  {
    if s == [] then -1 else if s[|s| - 1] == '/' then |s| - 1 else LastSlash(s[..|s| - 1])
  }

  /** `filepath.Base`: the last element of the path after trailing slashes
      are removed; "." for the empty path and "/" for a path of slashes. */
  function Base(path: string): (b: string)
    ensures b != []
  {
    if path == [] then "."
    else if path[|path| - 1] == '/' then
      var stripped := path[..SlashesStripped(path)];
      if stripped == [] then "/" else stripped[LastSlash(stripped) + 1..]
    else path[LastSlash(path) + 1..]
  }

  /** The length of `s` without its trailing slashes. */
  function SlashesStripped(s: string): (n: nat)
    ensures n <= |s|
    ensures forall i :: n <= i < |s| ==> s[i] == '/'
    ensures 0 < n ==> s[n - 1] != '/'
  {
    if s != [] && s[|s| - 1] == '/' then SlashesStripped(s[..|s| - 1]) else |s|
  }

  /** The layout `time.RFC3339` produces: a full date, `T`, a full time
      without fractional seconds, then `Z` or a numeric offset. */
  predicate IsRfc3339(t: string) {
    && (|t| == 20 || |t| == 25)
    && (forall i :: 0 <= i < 19 && i != 4 && i != 7 && i != 10 && i != 13 && i != 16 ==> Decimal.IsDigit(t[i]))
    && t[4] == '-' && t[7] == '-' && t[10] == 'T' && t[13] == ':' && t[16] == ':'
    && (|t| == 20 ==> t[19] == 'Z')
    && (|t| == 25 ==> (t[19] == '+' || t[19] == '-') && Decimal.IsDigit(t[20]) && Decimal.IsDigit(t[21])
                      && t[22] == ':' && Decimal.IsDigit(t[23]) && Decimal.IsDigit(t[24]))
  }

  /** Appending a slash-free text to a path that ends in ".log" keeps the
      directory and extends the last element, so the rotated file lies next
      to the live one and its name starts with the live file's name. */
  lemma RotatedName(path: string, now: string)
    requires HasSuffix(path, ".log") && IsRfc3339(now)
    ensures LastSlash(path + now) == LastSlash(path)
    ensures Base(path + now) == Base(path) + now
    ensures Base(path) <= Base(path + now)
  {
    var p := path + now;
    Rfc3339SlashFree(now);
    SlashFree(path, now);
    assert path[|path| - 1] == 'g' by { assert path[|path| - 1] == ".log"[3]; }
    assert p[|p| - 1] != '/';
    var k := LastSlash(path) + 1;
    assert p[k..] == path[k..] + now;
  }

  lemma Rfc3339SlashFree(t: string)
    requires IsRfc3339(t)
    ensures forall i :: 0 <= i < |t| ==> t[i] != '/'
  {
    forall i | 0 <= i < |t| ensures t[i] != '/' {
      if i < 19 && i != 4 && i != 7 && i != 10 && i != 13 && i != 16 {
        assert Decimal.IsDigit(t[i]);
      }
    }
  }

  /** The last slash of `path + t` is that of `path` when `t` holds none. */
  lemma {:induction false} SlashFree(path: string, t: string)
    requires forall i :: 0 <= i < |t| ==> t[i] != '/'
    ensures LastSlash(path + t) == LastSlash(path)
  {
    if t != [] {
      assert (path + t)[..|path + t| - 1] == path + t[..|t| - 1];
      SlashFree(path, t[..|t| - 1]);
    } else {
      assert path + t == path;
    }
  }
}
