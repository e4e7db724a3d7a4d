# A Dafny model of the Go `log` package

The `log` package (log/format.go, log/log.go, log/rotate.go) is a small
leveled logger. It has three parts:

- **Value and line formatting.** `Stringify` renders argument values. Wide
  integers get thousands separators, built by two buffer-filling loops: one
  for `uint64` and one for `big.Int` text. Strings are quoted by
  `escapeString` when they hold a byte outside `#`..`~` or an `=`. `Format`
  and `Logger.write` assemble `key=value` log lines, and `GetStackInfo` cuts a
  stack trace after its n-th newline.
- **The level state machine.** A `Logger` has a level and two tables of
  per-level handles. `SetLevel` clamps an invalid level to INFO and rebuilds
  the tables. Every emitting method (`Output`, `Outputf`, `Log`, `Println`,
  `Logf`, `Json`, `Dump`) is gated by `level < l.level`.
- **The rotating file writer.** `FileWriter` normalizes its path and converts
  `MaxSize` from megabytes to bytes with an overflow check. It rotates the
  file before a write that would pass the limit, naming the old file after
  the path and an RFC 3339 time stamp. A sweep goroutine keeps only
  `MaxFiles` rotated files.

Modules follow that split:

- `GoInts` holds Go's fixed-width integers.
- `Decimal` holds decimal text and the reference grouping `Thousands`.
- `Utf8` decodes one rune the way `for range` over a string does.
- `Format` models log/format.go.
- `Levels`, `Lines` and `Logger` model log/log.go.
- `Paths`, `Sweep` and `Rotate` model log/rotate.go.

Other conventions:

- Go strings are `string`, each character standing for one byte.
- `int` and `uint` are 64 bits wide.
- Anything from outside the package is a function parameter:
  - `FormatValue`;
  - the formatted time;
  - `fmt.Sprintf` templating;
  - `json.Marshal` and `json.MarshalIndent`;
  - `strconv.Quote`;
  - the outcome of each file-system call.

## Model

| member | source | states |
|---|---|---|
| GoInts.NegatedMagnitude | log/format.go:69-72 | `uint64(-n)` of a negative `int64` is its magnitude, at most 2^63, including for the minimum value whose negation wraps |
| Decimal.DecimalRoundTrip | log/format.go:83-89 | the decimal text of `n` (strconv.Itoa) reads back as `n` |
| Decimal.Uint64DecimalLength | log/format.go:91 | a `uint64` has at most 20 decimal digits and a magnitude up to 2^63 at most 19 |
| Decimal.ThousandsRemoveCommas | log/format.go:81-113 | deleting the commas from the grouped text gives the plain decimal of `n` |
| Decimal.ThousandsLayout | log/format.go:83-112 | below 100000 there is no comma and the text is the plain decimal; from 100000 on, a comma stands exactly where the distance to the end is a multiple of four, so the first group has 1-3 digits, later groups 3, and there is no leading comma |
| Decimal.GroupRemoveCommas | log/format.go:98-107 | grouping any digit string and deleting the commas gives the digits back |
| Format.SignFits | log/format.go:91-111 | the grouped magnitude of a number up to 2^63 takes at most 25 bytes, leaving room for the sign in the 26-byte buffer |
| Format.FillDigits | log/format.go:93-107 | the right-to-left fill leaves exactly the grouped digits of `n` after index `i`, and `i` stays within the buffer |
| Format.FormatUint64Signed | log/format.go:81-113 | `formatLogfmtUint64(n, neg)` is the sign (for `neg` and `n > 0`) followed by the reference grouping of `n` |
| Format.FormatLogfmtUint64 | log/format.go:76-79 | the result agrees with the reference grouping, and deleting its commas gives the decimal of `n` |
| Format.FormatLogfmtInt64 | log/format.go:68-74 | a negative `n`, including `MinInt64`, renders as `-` then the grouping of its magnitude; deleting commas gives the decimal of `n` |
| Format.FormatLogfmtBigInt | log/format.go:115-147 | in range it delegates to the 64-bit paths, outside it groups `n.String()`; either way the same reference text, whose commas deleted give the decimal of `n` |
| Format.GroupText | log/format.go:124-146 | the string pass over `sign + digits` leaves exactly `sign + Group(digits)` in the buffer tail, with every index in bounds |
| Format.LogfmtIntLayout | log/format.go:81-147 | the text starts with `-` iff the number is negative, a `-` is followed by a digit rather than a comma, and the grouping layout holds |
| Format.LogfmtIntRemoveCommas | log/format.go:68-147 | deleting commas from the grouped text of any integer gives its decimal |
| Format.RunesNeedQuotingBytes | log/format.go:153-159 | scanning runes and scanning bytes reach the same quoting decision |
| Format.EscapeString | log/format.go:149-164 | the result is `s` when no byte is `<= '"'`, `> '~'` or `=`, and `Quote(s)` otherwise |
| Format.FormatShared | log/format.go:166-190 | a panicking `Error`/`String` yields "nil" when the receiver is a nil pointer and re-panics otherwise; a returning call passes its text through |
| Format.Stringify | log/format.go:11-66 | the reference type switch: only an `Error` or `Stringer` value can panic, and every integer kind renders to non-empty text; `StringifyPanics`, `StringifyIntegers` and `StringifyText` state its cases |
| Format.StringifyValue | log/format.go:11-66 | the type switch, computed through the buffer loops and the rune scan, agrees with the `Stringify` reference for every value |
| Format.StringifyPanics | log/format.go:166-175 | `Stringify` panics exactly when an `Error`/`String` method panics on a receiver that is not a nil pointer; on a nil pointer it gives "nil" |
| Format.StringifyConstants | log/format.go:13-35 | nil gives "nil", a nil `*big.Int` gives "<nil>", a bool gives "true"/"false" |
| Format.StringifyIntegers | log/format.go:40-60 | every integer kind renders so that deleting commas gives its decimal; 8- and 16-bit kinds render as the plain decimal, with no comma |
| Format.StringifyText | log/format.go:61-64 | strings, `%+v` text and the text of errors and Stringers pass through `escapeString` |
| Utf8.DecodeRune | log/log.go:139 | a rune decoded at `i` has width 1-4 within the string; an ASCII byte decodes to itself with width 1; other bytes give runes of at least 0x80 |
| Levels.StringifyLevel | log/log.go:31-34 | `Levels[level]` returns iff the level is 0..5 (otherwise the index panics), and each name has 4-5 letters |
| Levels.ToUpper | log/log.go:38 | upper-casing keeps the length, turns each lower-case letter into its upper-case form (32 code points lower), and keeps every other character |
| Levels.ParseLevel | log/log.go:36-45 | the result is a valid level; it is the level whose name equals the upper-cased target, or INFO when none does |
| Levels.ParseStringifyRoundTrip | log/log.go:26-45 | parsing the name of any level, or any spelling that upper-cases to it, gives the level back |
| Levels.ParseUnknown | log/log.go:36-45 | an unrecognised name, "VERBOSE" among them, parses as INFO |
| Lines.KeyValueText | log/log.go:122-132 | `Format` keeps the message as a prefix, and with no arguments returns it unchanged |
| Lines.AppendPairs | log/log.go:124-127 | the pair loop appends the `\t key=value` segments of all complete pairs, in argument order |
| Lines.FormatKeyValues | log/log.go:122-132 | `Format` is the message, one segment per pair, and a dangling `\t key=` for an odd count |
| Lines.Pad5 | log/log.go:228 | `%-5s` keeps the name as a prefix and pads it with spaces to at least five characters |
| Lines.WriteLine | log/log.go:221-231 | both `Sprintf` branches of `Logger.write` produce padded name, `[ts] `, the `Format` text and a newline |
| Lines.PrintlnLine | log/log.go:272-275 | `Println` builds padded name, `[ts]`, then each argument after a tab, in order |
| Lines.KthNewlineUnique | log/log.go:139-146 | each newline has exactly one ordinal |
| Lines.RuneNewline | log/log.go:139-140 | a decoded rune is a newline iff its first byte is, and the rest of the rune holds none |
| Lines.GetStackInfo | log/log.go:134-153 | the result is the text after the `omitCalls`-th newline; when that newline is the last byte, or there is no such newline, it is the whole text |
| Logger.WriteCalls | log/log.go:321-329 | `Write(b, nl)` writes `b`, then one "\n" iff `nl` |
| Logger.Emit | log/log.go:243-319 | every emitting method writes nothing iff the call's level is below the logger's; it panics iff `Log`/`Println`/`Logf` get a level outside 0..5; `Log` writes one call, the others end with "\n" |
| Logger.EncodingErrorWritten | log/log.go:297-319 | a failing JSON encoder makes `Json`/`Dump` write the error text and a newline instead |
| Logger.CallHandle | log/log.go:331-334 | a handle writes at most one call, exactly when it is `wrap(name)`, and that call is the `Logger.write` line for the level's name |
| Logger.CallHandleIf | log/log.go:336-339 | a HandleIf writes at most one call, exactly when `ok` holds and it is `wrapIf(name)`, and that call is the `Logger.write` line |
| Logger.HandlesAgreeWithLog | log/log.go:331-339 | with tables that agree with the level, a level's handle writes what `Log` at that level writes; its HandleIf does so when `ok` and writes nothing otherwise |
| Logger.BuildTable | log/log.go:348-363 | the rebuilt table has six entries, the entry for level `i` active iff `i >= target` |
| Logger.SetLevel | log/log.go:341-364 | a valid target becomes the level silently; an invalid one becomes INFO after one ERROR diagnostic, gated by the previous level; the tables agree with the new level |
| Logger.NewLogger | log/log.go:200-211 | a new logger is at INFO, with tables that agree |
| Logger.Init | log/log.go:79-89 | the level is the configured one when there is a configuration (INFO plus a diagnostic if invalid), else the level parsed from the environment |
| Logger.Assert | log/log.go:288-295 | a holding check does nothing; a failing one writes the stack text at ERROR and exits |
| Paths.TrimSpace | log/rotate.go:54 | the result is empty iff the path is all white space; otherwise it is the infix between the leading and trailing white space, with non-space ends |
| Paths.NormalizePath | log/rotate.go:54-60 | the path is refused iff it trims to empty; otherwise the trimmed path, with ".log" appended only if missing, so it always ends in ".log" |
| Paths.NormalizeIdempotent | log/rotate.go:54-60 | normalizing a normalized path changes nothing |
| Paths.RotatedName | log/rotate.go:96-120 | appending an RFC 3339 stamp to a ".log" path keeps its directory, and the base of the rotated name starts with the base of the path |
| Sweep.SelectRemovals | log/rotate.go:95-113 | the reverse scan removes exactly the counted entries that have more than `MaxFiles` counted entries at or after them and are not the live file, in descending index order |
| Sweep.SurvivorCount | log/rotate.go:102-110 | the counted entries left are `min(matches, MaxFiles)` plus the live file when it comes after the first `MaxFiles` |
| Sweep.NeverRemoved | log/rotate.go:104-107 | non-regular or non-prefixed entries, the live file, and the first `MaxFiles` counted entries are never removed |
| Rotate.MaxSizeBytes | log/rotate.go:62-67 | a zero `MaxSize` gives no limit; a positive one is accepted only when shifting the limit back right gives `MaxSize`, and refused with the size error otherwise; `SizeCheck` says which sizes pass |
| Rotate.SizeCheck | log/rotate.go:62-67 | the shift check accepts iff `MaxSize < 2^43` or `MaxSize >= 2^64 - 2^43`; below, the limit is `MaxSize * 2^20` (0 stays 0); in the top range it is negative |
| Rotate.Init | log/rotate.go:52-76 | `Init` fails iff the path trims to empty, the size check fails, or the open fails, and the errors are checked in that order: `InvalidPath`, then `InvalidMaxSize`, then `OpenFailed`; on success the path ends in ".log", the byte limit is `MaxSizeBytes(MaxSize)`, `MaxFiles` is kept, the size counter is 0, and one sweep signal is queued iff `MaxFiles > 0` |
| Rotate.Writer | log/rotate.go:24-35 | standard error is used for a missing configuration, an empty path, or a failing `Init`, and the error reported is `Init`'s own; otherwise it is exactly the file writer `Init` built |
| Rotate.Signal | log/rotate.go:121-126 | the non-blocking send leaves at most one signal queued |
| Rotate.Rotate | log/rotate.go:115-137 | an existing file is renamed to path + time stamp, and one sweep signal is queued when the sweep channel exists (a full slot drops the signal); without a file or a channel the queue is untouched; a failed reopen leaves no file and the size unchanged; a successful one takes the size from `Stat` (0 if it fails); the path, limits and channel are unchanged |
| Rotate.WriteToFile | log/rotate.go:87-90 | the file write succeeds iff the file is open and the write succeeds; it then appends all of `p`, counts it only when a limit is set, and changes nothing else; a nil file gives the invalid-file error, a closed file the closed error, and any failure returns 0 and changes nothing |
| Rotate.Write | log/rotate.go:78-92 | rotation happens iff a limit is set and the bytes would pass it; the call succeeds iff the reopen (when rotating) and the file write succeed; a failed rotation returns 0 and the open error with nothing written; a failed plain write returns 0 and leaves the writer unchanged; a successful plain write appends `p` to what the file already holds, and one after rotation leaves exactly `p` in the fresh file; a rotation that reopens but whose write then fails keeps the reopened file and its `Stat` size and returns the write error; the existing file is reported renamed to path + time stamp exactly when the write rotates and there was a file; the bytes are counted only when a limit is set; the path, limits and channel are unchanged, and the queue changes only as the rotation queues its signal |
| Rotate.SizeBound | log/rotate.go:79-92 | writes no longer than the limit keep the counter within it when a fresh file starts empty |
| Rotate.OversizedWriteLandsWhole | log/rotate.go:80-87 | a write longer than the limit rotates and lands whole in the fresh file, which then exceeds the limit |
| Rotate.TwoWritesRotateOnce | log/rotate.go:79-90 | with a 100-byte limit, two 60-byte writes rotate once, on the second, leaving the counter at 60 |
| Rotate.NewlineAfterRotation | log/rotate.go:79-92 | when a line fills the file exactly, the line stays in the old file and its separately written newline opens the new one |
| Rotate.Close | log/rotate.go:139-146 | no file gives nil; an open file is closed but stays set, returning the error of `f.Close()` if it fails; a closed file reports that it is closed; nothing else changes |
| Rotate.CloseTwice | log/rotate.go:139-146 | after any first `Close` of an open file (nil when it succeeds) a second one fails, so `Close` is not idempotent |
| Rotate.SweepOnce | log/rotate.go:95-113 | one sweep turn consumes a queued signal and removes exactly the entries `Sweep.Removed` selects, or nothing when the directory cannot be read |
| Rotate.RotatedFileCounted | log/rotate.go:116-126 | the rotated file's name starts with the live file's base name, so later sweeps count it |

## Left out

- Floating-point values (`FormatFloat` for `float32`/`float64`) are not in the `Value` datatype.
- `time.Time` values, the current time, `TimeFormat` and RFC 3339 rendering are not modelled. Each is the already formatted text, passed in.
- `strconv.Quote`, `fmt.Sprintf("%+v")`, printf templating in `Outputf`/`Logf`, and `json.Marshal`/`MarshalIndent` are uninterpreted function parameters.
- `FormatValue` is bound to `SimpleFormat`, which is not part of this model. It is a function parameter.
- Reflection and `recover` are not modelled. A panicking `Error`/`String` method is an explicit `Panics` outcome with a nil-pointer flag.
- `strings.ToUpper` and `strings.TrimSpace` work on ASCII only. Unicode case mapping and Unicode white space are not modelled.
- The mutex, the sweep goroutine and the channel are left out. The model is sequential, and the channel's buffer is a count of queued signals.
- File-system effects are parameters: the outcome of each call (`OpenFile`, `Stat`, `Write`, `ReadDir`) is an input. Partial writes are not modelled: a write either succeeds whole or fails with 0 bytes. `Close` takes whether closing succeeds as an input. The results of `Sync`, `Rename` and `Remove`, and of the `Close` inside `rotate`, are ignored, as the writer ignores them.
- The diagnostics printed to standard output (a rotation failure, a `Writer` fallback) are not part of the write trace.
- `debug.Stack`, `os.Exit`, `Fatal` and `StackInfo` are left out. `Assert` takes the stack text as a parameter and reports whether the process exits.
- `os.Getenv` is not modelled: `Init` takes the environment variable's value.
- The global handle rebinding `applyGlobalHanldes` is plumbing and is left out.
- `JsonIf`/`DumpIf` are left out: each is `Json`/`Dump` behind an `if ok`.
- `Rotate.Write`: the comparison `size + len(p) > maxSize` is on unbounded integers. The model leaves out the `int` overflow that no real file size reaches.
- `Lines.KeyValueText`: states the message prefix and the empty case in its contract. The full segment layout is stated by `Lines.FormatKeyValues` against the reference definition.

Where the code and its documentation disagree, the model follows the code:

- The sweep keeps `MaxFiles` rotated files plus the live file, so up to `MaxFiles + 1` prefixed files remain.
- `Close` leaves the file set, so a second `Close` fails.
- The channel is never closed, so the sweep goroutine never ends.
- `Init` starts the size counter at 0 even when the file already holds data, so the first file can grow past the limit by its old size.
