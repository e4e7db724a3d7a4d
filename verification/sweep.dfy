/** The selection made by one pass of `FileWriter.removeLogs`: which entries
    of a directory listing it removes. The listing is taken in the order
    `os.ReadDir` returns it (sorted by name) and scanned from the end, so the
    names that sort last come first. For rotated files these are usually
    the newest; the stamps are local RFC 3339 times, so after the UTC
    offset changes (a daylight-saving switch) an older stamp can sort after
    a newer one. `base` is the name of the live log file; the rotated files are
    named `base` followed by a time stamp. */
module Sweep {

  /** A directory entry: its name and whether it is a regular file. */
  datatype Entry = Entry(name: string, regular: bool)

  /** The entries the sweep counts: regular files whose name starts with `base`. */
  predicate Matches(e: Entry, base: string) {
    e.regular && base <= e.name
  }

  /** The number of counted entries at index `idx` and after it, that is,
      the value of the scan's counter once it has passed `idx`. */
  function MatchesFrom(listing: seq<Entry>, base: string, idx: nat): nat
    requires idx <= |listing|
    decreases |listing| - idx
  {
    if idx == |listing| then 0
    else MatchesFrom(listing, base, idx + 1) + (if Matches(listing[idx], base) then 1 else 0)
  }

  /** Entry `idx` is removed: it is counted, more than `maxFiles` counted
      entries lie at or after it, and it is not the live file itself. */
  predicate Removed(listing: seq<Entry>, base: string, maxFiles: nat, idx: nat)
    requires idx < |listing|
  {
    Matches(listing[idx], base) && MatchesFrom(listing, base, idx) > maxFiles && listing[idx].name != base
  }

  /** The reverse scan of `removeLogs`, returning the indices it removes in
      the order of the `os.Remove` calls. */
  method SelectRemovals(listing: seq<Entry>, base: string, maxFiles: nat) returns (removed: seq<nat>)
    ensures forall k :: 0 <= k < |removed| ==> removed[k] < |listing| && Removed(listing, base, maxFiles, removed[k])
    ensures forall idx :: 0 <= idx < |listing| && Removed(listing, base, maxFiles, idx) ==> idx in removed
    ensures forall k, m :: 0 <= k < m < |removed| ==> removed[k] > removed[m]
  {
    removed := [];
    var count := 0;
    var idx := |listing| - 1;
    while idx >= 0
      invariant -1 <= idx < |listing|
      invariant count == MatchesFrom(listing, base, idx + 1)
      invariant forall k :: 0 <= k < |removed| ==>
        idx < removed[k] < |listing| && Removed(listing, base, maxFiles, removed[k])
      invariant forall j :: idx < j < |listing| && Removed(listing, base, maxFiles, j) ==> j in removed
      invariant forall k, m :: 0 <= k < m < |removed| ==> removed[k] > removed[m]
    {
      var name := listing[idx].name;
      if listing[idx].regular && base <= name {
        count := count + 1;
        if count > maxFiles && name != base {
          removed := removed + [idx];
        }
      }
      idx := idx - 1;
    }
  }

  /** The counted entries at or after `idx` that the sweep leaves in place. */
  function Survivors(listing: seq<Entry>, base: string, maxFiles: nat, idx: nat): nat
    requires idx <= |listing|
    decreases |listing| - idx
  {
    if idx == |listing| then 0
    else
      var here := if Matches(listing[idx], base) && !Removed(listing, base, maxFiles, idx) then 1 else 0;
      Survivors(listing, base, maxFiles, idx + 1) + here
  }

  /** The counted entries at or after `idx` that survive only because they
      carry the live file's name. */
  function SparedLive(listing: seq<Entry>, base: string, maxFiles: nat, idx: nat): nat
    requires idx <= |listing|
    decreases |listing| - idx
  {
    if idx == |listing| then 0
    else
      var e := listing[idx];
      var here := if Matches(e, base) && e.name == base && MatchesFrom(listing, base, idx) > maxFiles then 1 else 0;
      SparedLive(listing, base, maxFiles, idx + 1) + here
  }

  function Min(a: nat, b: nat): nat {
    if a <= b then a else b
  }

  /** The sweep keeps exactly the first `maxFiles` counted entries of the
      scan, plus the live file when it comes later: with the live file and
      more than `maxFiles` rotated files present, `maxFiles + 1` counted
      files remain. */
  lemma {:induction false} SurvivorCount(listing: seq<Entry>, base: string, maxFiles: nat, idx: nat)
    requires idx <= |listing|
    ensures Survivors(listing, base, maxFiles, idx)
      == Min(MatchesFrom(listing, base, idx), maxFiles) + SparedLive(listing, base, maxFiles, idx)
    decreases |listing| - idx
  {
    if idx < |listing| {
      SurvivorCount(listing, base, maxFiles, idx + 1);
    }
  }

  /** Entries that are not regular files or do not start with `base` are
      never removed, and neither is the live file; the first `maxFiles`
      counted entries of the scan are kept. */
  lemma NeverRemoved(listing: seq<Entry>, base: string, maxFiles: nat, idx: nat)
    requires idx < |listing|
    ensures !Matches(listing[idx], base) ==> !Removed(listing, base, maxFiles, idx)
    ensures listing[idx].name == base ==> !Removed(listing, base, maxFiles, idx)
    ensures MatchesFrom(listing, base, idx) <= maxFiles ==> !Removed(listing, base, maxFiles, idx)
  {
  }
}
