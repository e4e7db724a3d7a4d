/** The rotating file writer of log/rotate.go as a state machine. The file
    system is not modelled: each call takes an `Fs` record saying how the
    file-system operations it makes turn out, and the state keeps only what
    the writer itself knows. The sweep goroutine's channel, a buffer of one
    `bool`, is the count `queued` of signals waiting in it. */
module Rotate {
  import opened Wrappers
  import opened GoInts
  import Paths
  import Sweep

  /** `LogConfig`. `MaxSize` is in megabytes, `MaxFiles` the number of
      rotated files the sweep keeps. */
  datatype LogConfig = LogConfig(level: int, maxSize: uint64, maxFiles: uint64, path: string)

  /** The errors the writer returns. */
  datatype Error =
    | InvalidPath     // "invalid log file path"
    | InvalidMaxSize  // "invalid max log file size"
    | OpenFailed      // the error of os.OpenFile
    | WriteFailed     // the error of (*os.File).Write
    | FileClosed      // os.ErrClosed, from a file already closed
    | NilFile         // os.ErrInvalid, from a nil *os.File
    | CloseFailed     // the error of (*os.File).Close on an open file

  /** The `file` field: nil, an open file with the bytes this writer has
      written to it, or a file that has been closed but not cleared. */
  datatype File = NoFile | Open(written: string) | Closed

  /** `FileWriter`: the normalized path, the limits, the size counter, the
      file, whether the sweep channel exists, and the signals queued in it. */
  datatype FileWriter = FileWriter(
    path: string, maxFiles: uint64, maxSize: int64, size: int,
    file: File, sweeper: bool, queued: nat)

  /** How the file-system calls of one operation turn out: whether
      `os.OpenFile` succeeds, the size `Stat` reports (None when `Stat`
      fails), whether `(*os.File).Write` succeeds, and the current time as
      `time.RFC3339` formats it. */
  datatype Fs = Fs(openOk: bool, statSize: Option<nat>, writeOk: bool, now: string)

  /** What every reachable writer satisfies: the path ends in ".log", the
      size counter is not negative, and the one-slot channel holds at most
      one signal, none when there is no channel. */
  predicate Valid(w: FileWriter) {
    Paths.HasSuffix(w.path, ".log") && w.size >= 0 && w.queued <= 1 && (!w.sweeper ==> w.queued == 0)
  }

  const MB: int := 0x10_0000
  const TwoTo43: int := 0x800_0000_0000
  const TwoTo44: int := 0x1000_0000_0000

  /** `uint << 20`: the low 64 bits of the product. */
  function ShiftLeft20(m: uint64): uint64 {
    (m * MB) % TwoTo64
  }

  /** `int(u)`: the same 64 bits read as a signed integer. */
  function ToInt(u: uint64): int64 {
    if u > MaxInt64 then u - TwoTo64 else u
  }

  /** `s >> 20` on a signed integer: an arithmetic shift, which rounds
      toward minus infinity like Dafny's division by a positive constant. */
  function ShiftRight20(s: int64): int64 {
    s / MB
  }

  /** The size step of `Init`: for a positive `MaxSize`, the byte limit
      `int(MaxSize << 20)`, refused when shifting it back does not give
      `MaxSize`; for zero, no limit. */
  function MaxSizeBytes(m: uint64): (r: Result<int64, Error>)
    ensures m == 0 ==> r == Success(0)
    ensures r.Failure? ==> m > 0 && r.error == InvalidMaxSize
    ensures r.Success? && m > 0 ==> AsUint64(ShiftRight20(r.value)) == m
  {
    if m == 0 then Success(0)
    else
      var bytes := ToInt(ShiftLeft20(m));
      if AsUint64(ShiftRight20(bytes)) != m then Failure(InvalidMaxSize) else Success(bytes)
  }

  /** The shift check accepts exactly the sizes below 2^43 megabytes and the
      top 2^43 values of `uint`. Below, the limit is the size in bytes; in
      the top range the limit is negative, which turns rotation off. */
  lemma SizeCheck(m: uint64)
    ensures MaxSizeBytes(m).Success? <==> m < TwoTo43 || m >= TwoTo64 - TwoTo43
    ensures m < TwoTo43 ==> MaxSizeBytes(m) == Success(m * MB)
    ensures m >= TwoTo64 - TwoTo43 ==> MaxSizeBytes(m).value < 0
  {
    if m > 0 {
      var q, r := m / TwoTo44, m % TwoTo44;
      assert m == q * TwoTo44 + r && 0 <= q < MB;
      assert ShiftLeft20(m) == r * MB by {
        assert m * MB == q * TwoTo64 + r * MB;
        ModMultiple(q, r * MB);
      }
      if r < TwoTo43 {
        assert ShiftRight20(ToInt(r * MB)) == r;
      } else {
        var s := (r - TwoTo44) * MB;
        assert ToInt(r * MB) == s;
        assert ShiftRight20(s) == r - TwoTo44;
        assert AsUint64(r - TwoTo44) == r - TwoTo44 + TwoTo64;
        assert m == r - TwoTo44 + TwoTo64 <==> q == MB - 1;
      }
    }
  }

  /** Adding a multiple of 2^64 does not change the low 64 bits. */
  lemma ModMultiple(q: nat, x: nat)
    requires x < TwoTo64
    ensures (q * TwoTo64 + x) % TwoTo64 == x
  {
  }

  /** `FileWriter.Init` on a configuration: normalize the path, check the
      size, open the file, and with `MaxFiles > 0` create the channel with
      one sweep signal already queued. The size counter starts at 0 even
      when the file already holds data. */
  function Init(c: LogConfig, fs: Fs): (r: Result<FileWriter, Error>)
    ensures r.Failure? <==> Paths.NormalizePath(c.path).None? || MaxSizeBytes(c.maxSize).Failure? || !fs.openOk
    ensures r.Failure? && Paths.NormalizePath(c.path).None? ==> r.error == InvalidPath
    ensures r.Success? ==> Valid(r.value) && r.value.size == 0 && r.value.file == Open([])
    ensures r.Success? ==> r.value.path == Paths.NormalizePath(c.path).value
    ensures r.Success? ==> (r.value.queued == 1 <==> c.maxFiles > 0) && (r.value.sweeper <==> c.maxFiles > 0)
    ensures r.Success? ==> r.value.maxSize == MaxSizeBytes(c.maxSize).value && r.value.maxFiles == c.maxFiles
    ensures Paths.NormalizePath(c.path).Some? && MaxSizeBytes(c.maxSize).Failure? ==> r == Failure(InvalidMaxSize)
    ensures Paths.NormalizePath(c.path).Some? && MaxSizeBytes(c.maxSize).Success? && !fs.openOk ==> r == Failure(OpenFailed)
  {
    match Paths.NormalizePath(c.path)
    case None => Failure(InvalidPath)
    case Some(path) =>
      match MaxSizeBytes(c.maxSize)
      case Failure(e) => Failure(e)
      case Success(maxSize) =>
        if !fs.openOk then Failure(OpenFailed)
        else
          var sweeper := c.maxFiles > 0;
          Success(FileWriter(path, c.maxFiles, maxSize, 0, Open([]), sweeper, if sweeper then 1 else 0))
  }

  /** Where `LogConfig.Writer` sends the log: a file writer, or standard
      error for a missing configuration, an empty path, or a writer that
      fails to initialize (whose error is printed). */
  datatype Sink = Stderr | ToFile(w: FileWriter)

  function Writer(c: Option<LogConfig>, fs: Fs): (r: (Sink, Option<Error>))
    ensures r.0.Stderr? <==> c.None? || c.value.path == [] || Init(c.value, fs).Failure?
    ensures r.1.Some? <==> c.Some? && c.value.path != [] && Init(c.value, fs).Failure?
    ensures r.0.ToFile? ==> Valid(r.0.w) && Init(c.value, fs) == Success(r.0.w)
    ensures r.1.Some? ==> Init(c.value, fs) == Failure(r.1.value)
  {
    if c.None? || c.value.path == [] then (Stderr, None)
    else
      match Init(c.value, fs)
      case Failure(e) => (Stderr, Some(e))
      case Success(w) => (ToFile(w), None)
  }

  /** A non-blocking send into the one-slot channel: dropped when full. */
  function Signal(queued: nat): (q: nat)
    ensures q >= 1 && (queued <= 1 ==> q == 1) && q >= queued
  {
    if queued < 1 then queued + 1 else queued
  }

  /** `rotate`: when there is a file, close it, rename it to the path
      followed by the time stamp, and signal the sweep; then reopen the path
      and take the size from `Stat` (0 when `Stat` fails). Returns the new
      state, the rename target, and whether reopening failed. */
  function Rotate(w: FileWriter, fs: Fs): (r: (FileWriter, Option<string>, bool))
    ensures r.1.Some? <==> w.file != NoFile
    ensures r.1.Some? ==> r.1.value == w.path + fs.now
    ensures r.2 <==> !fs.openOk
    ensures r.2 ==> r.0.file == NoFile && r.0.size == w.size
    ensures !r.2 ==> r.0.file == Open([]) && r.0.size == fs.statSize.GetOr(0)
    ensures w.file != NoFile && w.sweeper ==> r.0.queued >= 1 && (w.queued <= 1 ==> r.0.queued == 1)
    ensures w.file == NoFile || !w.sweeper ==> r.0.queued == w.queued
    ensures r.0.(file := w.file, size := w.size, queued := w.queued) == w
    ensures Valid(w) ==> Valid(r.0)
  {
    var closed :=
      if w.file != NoFile then w.(file := Closed, queued := if w.sweeper then Signal(w.queued) else w.queued)
      else w;
    var renamed := if w.file != NoFile then Some(w.path + fs.now) else None;
    if fs.openOk then (closed.(file := Open([]), size := fs.statSize.GetOr(0)), renamed, false)
    else (closed.(file := NoFile), renamed, true)
  }

  /** The outcome of `FileWriter.Write`: the new state, the `(n, err)` pair,
      whether a rotation was attempted, and the rename target if any. */
  datatype WriteResult = WriteResult(w: FileWriter, n: nat, err: Option<Error>, rotated: bool, renamed: Option<string>)

  /** The write proper, `w.file.Write(p)`, and the size accounting after it:
      it succeeds exactly on an open file whose write succeeds, and then
      appends all of `p` and changes nothing but the file and the counter;
      a failure writes nothing and changes nothing. */
  function WriteToFile(w: FileWriter, p: string, fs: Fs): (r: (FileWriter, nat, Option<Error>))
    ensures r.2.None? <==> w.file.Open? && fs.writeOk
    ensures r.2.Some? ==> r.0 == w && r.1 == 0
    ensures w.file == NoFile ==> r.2 == Some(NilFile)
    ensures w.file == Closed ==> r.2 == Some(FileClosed)
    ensures w.file.Open? && !fs.writeOk ==> r.2 == Some(WriteFailed)
    ensures r.2.None? ==>
      && r.1 == |p| && r.0.file == Open(w.file.written + p)
      && r.0.size == w.size + (if w.maxSize > 0 then |p| else 0)
      && r.0.(file := w.file, size := w.size) == w
  {
    match w.file
    case NoFile => (w, 0, Some(NilFile))
    case Closed => (w, 0, Some(FileClosed))
    case Open(data) =>
      if !fs.writeOk then (w, 0, Some(WriteFailed))
      else (w.(file := Open(data + p), size := if w.maxSize > 0 then w.size + |p| else w.size), |p|, None)
  }

  /** `FileWriter.Write`: rotate first when a limit is set and the bytes
      would take the file past it; give up with `n = 0` if the rotation
      cannot reopen the file; otherwise write, counting the bytes only when
      a limit is set. */
  function Write(w: FileWriter, p: string, fs: Fs): (r: WriteResult)
    ensures r.rotated <==> w.maxSize > 0 && w.size + |p| > w.maxSize
    ensures r.rotated && !fs.openOk ==>
      r.n == 0 && r.err == Some(OpenFailed) && r.w.size == w.size && r.w.file == NoFile
    ensures r.err.None? ==>
      && r.n == |p| && r.w.file.Open? && |r.w.file.written| >= |p|
      && r.w.file.written[|r.w.file.written| - |p|..] == p
    ensures r.err.None? && !r.rotated ==> r.w.size == w.size + (if w.maxSize > 0 then |p| else 0)
    ensures r.err.None? && r.rotated ==> r.w.size == fs.statSize.GetOr(0) + |p| && r.w.file == Open(p)
    ensures r.renamed.Some? ==> r.rotated && r.renamed.value == w.path + fs.now
    ensures r.err.None? <==> if r.rotated then fs.openOk && fs.writeOk else w.file.Open? && fs.writeOk
    ensures r.err.Some? ==> r.n == 0
    ensures !r.rotated && r.err.Some? ==> r.w == w
    ensures !r.rotated && w.file == NoFile ==> r.err == Some(NilFile)
    ensures !r.rotated && w.file == Closed ==> r.err == Some(FileClosed)
    ensures !fs.writeOk && (r.rotated ==> fs.openOk) && (!r.rotated ==> w.file.Open?) ==> r.err == Some(WriteFailed)
    ensures r.err.None? && !r.rotated ==> r.w.file == Open(w.file.written + p)
    ensures r.w.(file := w.file, size := w.size, queued := w.queued) == w
    ensures !r.rotated ==> r.w.queued == w.queued
    ensures r.rotated ==> r.w.queued == Rotate(w, fs).0.queued
    ensures r.renamed == (if r.rotated && w.file != NoFile then Some(w.path + fs.now) else None)
    ensures r.rotated && fs.openOk && r.err.Some? ==> r.w == Rotate(w, fs).0 && r.err == Some(WriteFailed)
    ensures Valid(w) ==> Valid(r.w)
  {
    if w.maxSize > 0 && w.size + |p| > w.maxSize then
      var (rw, renamed, failed) := Rotate(w, fs);
      if failed then WriteResult(rw, 0, Some(OpenFailed), true, renamed)
      else
        var (w', n, err) := WriteToFile(rw, p, fs);
        assert [] + p == p;
        WriteResult(w', n, err, true, renamed)
    else
      var (w', n, err) := WriteToFile(w, p, fs);
      WriteResult(w', n, err, false, None)
  }

  /** Writes no longer than the limit keep the size counter within the limit
      when a freshly rotated file starts empty. */
  lemma SizeBound(w: FileWriter, p: string, fs: Fs)
    requires Valid(w) && w.maxSize > 0 && w.size <= w.maxSize && |p| <= w.maxSize
    requires fs.statSize.GetOr(0) == 0
    ensures Write(w, p, fs).w.size <= w.maxSize
  {
  }

  /** A single write longer than the whole limit is not split: it rotates and
      lands whole in the fresh file, which then exceeds the limit. */
  lemma OversizedWriteLandsWhole(w: FileWriter, p: string, fs: Fs)
    requires Valid(w) && w.maxSize > 0 && |p| > w.maxSize
    requires fs.openOk && fs.writeOk
    ensures Write(w, p, fs).rotated && Write(w, p, fs).w.file == Open(p)
    ensures Write(w, p, fs).n == |p| && Write(w, p, fs).w.size > w.maxSize
  {
  }

  /** With a 100-byte limit and an empty fresh file, two 60-byte writes
      rotate once, on the second write, and leave the counter at 60. */
  lemma TwoWritesRotateOnce(w: FileWriter, p1: string, p2: string, fs: Fs)
    requires Valid(w) && w.maxSize == 100 && w.size == 0 && w.file.Open?
    requires |p1| == 60 && |p2| == 60
    requires fs.openOk && fs.writeOk && fs.statSize == Some(0)
    ensures !Write(w, p1, fs).rotated
    ensures Write(Write(w, p1, fs).w, p2, fs).rotated
    ensures Write(Write(w, p1, fs).w, p2, fs).w.size == 60
  {
  }

  /** `Logger.Write(b, true)` writes the line and its newline in two calls.
      When the line fills the file exactly to its limit, the line goes to the
      old file and the newline starts the new one. */
  lemma NewlineAfterRotation(w: FileWriter, line: string, fs: Fs)
    requires Valid(w) && w.maxSize > 0 && w.size + |line| == w.maxSize && w.file.Open?
    requires fs.openOk && fs.writeOk
    ensures !Write(w, line, fs).rotated
    ensures Write(Write(w, line, fs).w, "\n", fs).rotated
    ensures Write(Write(w, line, fs).w, "\n", fs).w.file == Open("\n")
    ensures Write(Write(w, line, fs).w, "\n", fs).renamed == Some(w.path + fs.now)
  {
  }

  /** `Close`: returns the error of `f.Close()` when there is a file, nil
      otherwise. `closeOk` says whether closing an open file succeeds; the
      file counts as closed either way, and the field is left set, so
      closing again reports that the file is already closed. */
  function Close(w: FileWriter, closeOk: bool): (r: (FileWriter, Option<Error>))
    ensures r.1.None? <==> w.file == NoFile || (w.file.Open? && closeOk)
    ensures w.file == NoFile ==> r.0 == w
    ensures w.file != NoFile ==> r.0.file == Closed && r.0.(file := w.file) == w
    ensures w.file == Closed ==> r.1 == Some(FileClosed)
    ensures w.file.Open? && !closeOk ==> r.1 == Some(CloseFailed)
  {
    match w.file
    case NoFile => (w, None)
    case Open(_) => (w.(file := Closed), if closeOk then None else Some(CloseFailed))
    case Closed => (w, Some(FileClosed))
  }

  /** `Close` is not idempotent: on an open writer a successful first call
      returns nil and any second call fails. */
  lemma CloseTwice(w: FileWriter, first: bool, second: bool)
    requires w.file.Open?
    ensures first ==> Close(w, first).1 == None
    ensures Close(Close(w, first).0, second).1 == Some(FileClosed)
  {
  }

  /** One turn of the sweep goroutine: it waits for a queued signal, reads
      the directory (None when `os.ReadDir` fails) and removes the selected
      entries. Returns None while no signal is queued. */
  method SweepOnce(w: FileWriter, listing: Option<seq<Sweep.Entry>>) returns (r: Option<(FileWriter, seq<nat>)>)
    ensures r.None? <==> w.queued == 0
    ensures r.Some? ==> r.value.0 == w.(queued := w.queued - 1)
    ensures r.Some? && listing.None? ==> r.value.1 == []
    ensures r.Some? && listing.Some? ==> forall k :: 0 <= k < |r.value.1| ==>
      r.value.1[k] < |listing.value| && Sweep.Removed(listing.value, Paths.Base(w.path), w.maxFiles, r.value.1[k])
    ensures r.Some? && listing.Some? ==> forall i ::
      (0 <= i < |listing.value| && Sweep.Removed(listing.value, Paths.Base(w.path), w.maxFiles, i)) ==> i in r.value.1
  {
    if w.queued == 0 {
      return None;
    }
    var removed := [];
    if listing.Some? {
      removed := Sweep.SelectRemovals(listing.value, Paths.Base(w.path), w.maxFiles);
    }
    r := Some((w.(queued := w.queued - 1), removed));
  }

  /** A rotated file's name starts with the live file's name, so later
      sweeps count it. */
  lemma RotatedFileCounted(w: FileWriter, p: string, fs: Fs)
    requires Valid(w) && Paths.IsRfc3339(fs.now)
    requires Write(w, p, fs).renamed.Some?
    ensures Paths.Base(w.path) <= Paths.Base(Write(w, p, fs).renamed.value)
    ensures Sweep.Matches(Sweep.Entry(Paths.Base(Write(w, p, fs).renamed.value), true), Paths.Base(w.path))
  {
    Paths.RotatedName(w.path, fs.now);
  }
}
