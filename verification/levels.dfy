/** The six log levels of log/log.go, their names, and the parsing of a level
    name such as the value of the LOG_LEVEL environment variable. A `Level`
    is Go's `type Level int`: any integer, of which only 0..5 are named. */
module Levels {
  import opened Wrappers

  const TRACE: int := 0
  const DEBUG: int := 1
  const VERBOSE: int := 2
  const INFO: int := 3
  const WARN: int := 4
  const ERROR: int := 5

  /** The `Levels` array: the label printed for each level. VERBOSE prints as "VERBO". */
  const Names: seq<string> := ["TRACE", "DEBUG", "VERBO", "INFO", "WARN", "ERROR"]

  predicate IsLevel(l: int) {
    0 <= l < |Names|
  }

  /** `stringifyLevel` indexes the array, so a level outside 0..5 panics with
      an index out of range. */
  function StringifyLevel(l: int): (r: MayPanic<string>)
    ensures r.Returns? <==> IsLevel(l)
    ensures r.Returns? ==> 4 <= |r.value| <= 5
  {
    if IsLevel(l) then Returns(Names[l]) else Panics
  }

  /** ASCII upper-casing of one byte; Go's Unicode case mapping is not modelled. */
  function Upper(c: char): (u: char)
    ensures IsLower(c) ==> u as int == c as int - 32
    ensures !IsLower(c) ==> u == c
    ensures !IsLower(u)
  {
    if IsLower(c) then (c as int - 32) as char else c
  }

  predicate IsLower(c: char) {
    'a' <= c <= 'z'
  }

  /** `strings.ToUpper` restricted to ASCII: each lower-case letter becomes
      its upper-case form, 32 code points lower, and every other byte is kept. */
  function ToUpper(s: string): (r: string)
    ensures |r| == |s|
    ensures forall i :: 0 <= i < |r| ==> !IsLower(r[i])
    ensures forall i :: 0 <= i < |s| && !IsLower(s[i]) ==> r[i] == s[i]
    ensures forall i :: 0 <= i < |s| && IsLower(s[i]) ==> r[i] as int == s[i] as int - 32
  {
    seq(|s|, i requires 0 <= i < |s| => Upper(s[i]))
  }

  /** A string without lower-case letters is its own upper-case form; in
      particular upper-casing twice is upper-casing once. */
  lemma UpperFixed(s: string)
    requires forall i :: 0 <= i < |s| ==> !IsLower(s[i])
    ensures ToUpper(s) == s
    ensures ToUpper(ToUpper(s)) == ToUpper(s)
  {
  }

  /** The range loop over `Levels` returns the first level whose name equals
      the upper-cased target, and INFO when none does. */
  function ParseLevel(target: string): (l: int)
    ensures IsLevel(l)
    ensures ToUpper(target) in Names ==> Names[l] == ToUpper(target)
    ensures ToUpper(target) !in Names ==> l == INFO
  {
    var t := ToUpper(target);
    if t == Names[TRACE] then TRACE
    else if t == Names[DEBUG] then DEBUG
    else if t == Names[VERBOSE] then VERBOSE
    else if t == Names[INFO] then INFO
    else if t == Names[WARN] then WARN
    else if t == Names[ERROR] then ERROR
    else INFO
  }

  /** No two levels share a name, so a name determines its level. */
  lemma NamesDistinct(i: int, j: int)
    requires IsLevel(i) && IsLevel(j) && Names[i] == Names[j]
    ensures i == j
  {
    assert Names[i][0] == Names[j][0];
    assert Names[i][|Names[i]| - 1] == Names[j][|Names[j]| - 1];
  }

  /** Parsing the printed name of a level gives the level back, and the
      parser ignores the case of ASCII letters. */
  lemma ParseStringifyRoundTrip(l: int, spelled: string)
    requires IsLevel(l) && ToUpper(spelled) == Names[l]
    ensures ParseLevel(StringifyLevel(l).value) == l
    ensures ParseLevel(spelled) == l
  {
    assert ToUpper(Names[l]) == Names[l] by { UpperFixed(ToUpper(spelled)); }
    NamesDistinct(ParseLevel(Names[l]), l);
    NamesDistinct(ParseLevel(spelled), l);
  }

  /** A name of no level, in any case, parses as INFO; "VERBOSE" is one such
      name, since the printed name of VERBOSE is "VERBO". */
  lemma ParseUnknown(target: string)
    requires forall l :: IsLevel(l) ==> ToUpper(target) != Names[l]
    ensures ParseLevel(target) == INFO
    ensures ParseLevel("VERBOSE") == INFO
  {
    assert ToUpper("VERBOSE") !in Names by {
      forall l | IsLevel(l) ensures Names[l] != ToUpper("VERBOSE") { assert |Names[l]| <= 5; }
    }
  }
}
