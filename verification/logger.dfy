/** The `Logger` of log/log.go as an immutable record, and each of its
    operations as the list of `writer.Write` calls it makes. A call either
    returns that list or panics (an out-of-range level reaching
    `stringifyLevel`). Everything the logger takes from outside the package
    is a field of `Env`. */
module Logger {
  import opened Wrappers
  import opened Levels
  import Lines

  /** The logger's outside world: `FormatValue`, the current time formatted
      with `TimeFormat`, `fmt.Sprintf` templating, and `json.Marshal` /
      `json.MarshalIndent` (the encoded bytes, or the error's text). */
  datatype Env = Env(
    formatValue: Lines.Arg -> string,
    timestamp: string,
    sprintf: (string, seq<Lines.Arg>) -> string,
    marshal: Lines.Arg -> Result<string, string>,
    marshalIndent: Lines.Arg -> Result<string, string>)

  /** The current level and the two handle tables: `handles[i]` holds when
      the handle for level `i` (`Trace` … `Error`) is `wrap(name)` and is
      false when it is `discard`; `handleIfs` likewise for `TraceIf` …
      `ErrorIf`. */
  datatype Logger = Logger(level: int, handles: seq<bool>, handleIfs: seq<bool>)

  /** Both tables agree with the level: the handle of level `i` is active
      exactly when `i >= level`. */
  predicate Valid(l: Logger) {
    && IsLevel(l.level)
    && |l.handles| == |Names| && |l.handleIfs| == |Names|
    && (forall i :: 0 <= i < |Names| ==> (l.handles[i] <==> i >= l.level))
    && (forall i :: 0 <= i < |Names| ==> (l.handleIfs[i] <==> i >= l.level))
  }

  /** The emitting methods of `Logger`, with their arguments. */
  datatype Call =
    | Output(level: int, msg: string)
    | Outputf(level: int, msg: string, args: seq<Lines.Arg>)
    | Log(level: int, msg: string, args: seq<Lines.Arg>)
    | Println(level: int, args: seq<Lines.Arg>)
    | Logf(level: int, msg: string, args: seq<Lines.Arg>)
    | Json(level: int, arg: Lines.Arg)
    | Dump(level: int, arg: Lines.Arg)

  /** `Write(bytes, newline)`: the writer calls it makes, in order. */
  function WriteCalls(bytes: string, newline: bool): (w: seq<string>)
    ensures |w| == (if newline then 2 else 1) && w[0] == bytes
    ensures newline ==> w[1] == "\n"
  {
    [bytes] + (if newline then ["\n"] else [])
  }

  /** The text `Json` and `Dump` write: the encoding, or the error's text
      when encoding fails. */
  function Encoded(r: Result<string, string>): string {
    match r
    case Success(bytes) => bytes
    case Failure(message) => message
  }

  /** The writer calls of one emitting method. Every method first compares
      the call's level with the logger's and returns at once when it is
      lower; the ones that print a level name panic on a level outside
      0..5. */
  function Emit(env: Env, l: Logger, c: Call): (r: MayPanic<seq<string>>)
    ensures r == Returns([]) <==> c.level < l.level
    ensures r.Panics? <==> (c.Log? || c.Println? || c.Logf?) && c.level >= l.level && !IsLevel(c.level)
    ensures r.Returns? && c.level >= l.level && c.Log? ==> |r.value| == 1
    ensures r.Returns? && c.level >= l.level && !c.Log? ==> |r.value| == 2 && r.value[1] == "\n"
  {
    if c.level < l.level then Returns([])
    else
      match c
      case Output(_, msg) => Returns(WriteCalls(msg, true))
      case Outputf(_, msg, args) => Returns(WriteCalls(env.sprintf(msg, args), true))
      case Log(level, msg, args) =>
        (match StringifyLevel(level)
         case Panics => Panics
         case Returns(name) => Returns([Lines.LineText(env.formatValue, name, env.timestamp, msg, args)]))
      case Println(level, args) =>
        (match StringifyLevel(level)
         case Panics => Panics
         case Returns(name) =>
           Returns(WriteCalls(Lines.Pad5(name) + "[" + env.timestamp + "]" + Lines.ArgsText(env.formatValue, args), true)))
      case Logf(level, msg, args) =>
        (match StringifyLevel(level)
         case Panics => Panics
         case Returns(name) =>
           Returns(WriteCalls(env.sprintf(Lines.Pad5(name) + "[" + env.timestamp + "] " + msg, args), true)))
      case Json(_, arg) => Returns(WriteCalls(Encoded(env.marshal(arg)), true))
      case Dump(_, arg) => Returns(WriteCalls(Encoded(env.marshalIndent(arg)), true))
  }

  /** A failing JSON encoder does not make `Json` or `Dump` fail: the error's
      text is written in place of the encoding, followed by the newline. */
  lemma EncodingErrorWritten(env: Env, l: Logger, c: Call)
    requires c.Json? || c.Dump?
    requires c.level >= l.level
    ensures c.Json? && env.marshal(c.arg).Failure? ==>
      Emit(env, l, c) == Returns([env.marshal(c.arg).error, "\n"])
    ensures c.Dump? && env.marshalIndent(c.arg).Failure? ==>
      Emit(env, l, c) == Returns([env.marshalIndent(c.arg).error, "\n"])
  {
    var r := if c.Json? then env.marshal(c.arg) else env.marshalIndent(c.arg);
    if r.Failure? {
      assert WriteCalls(Encoded(r), true) == [r.error, "\n"];
    }
  }

  /** A call of the handle for level `i`: `wrap(name)` writes the line of
      `Logger.write` in one writer call, `discard` writes nothing. */
  function CallHandle(env: Env, l: Logger, i: int, msg: string, args: seq<Lines.Arg>): (r: seq<string>)
    requires IsLevel(i) && |l.handles| == |Names|
    ensures |r| <= 1 && (r != [] <==> l.handles[i])
    ensures r != [] ==> r[0] == Lines.LineText(env.formatValue, Names[i], env.timestamp, msg, args)
  {
    if l.handles[i] then [Lines.LineText(env.formatValue, Names[i], env.timestamp, msg, args)] else []
  }

  /** A call of the HandleIf for level `i`: writes only when `ok` and active. */
  function CallHandleIf(env: Env, l: Logger, i: int, ok: bool, msg: string, args: seq<Lines.Arg>): (r: seq<string>)
    requires IsLevel(i) && |l.handleIfs| == |Names|
    ensures |r| <= 1 && (r != [] <==> ok && l.handleIfs[i])
    ensures r != [] ==> r[0] == Lines.LineText(env.formatValue, Names[i], env.timestamp, msg, args)
  {
    if ok && l.handleIfs[i] then [Lines.LineText(env.formatValue, Names[i], env.timestamp, msg, args)] else []
  }

  /** In a logger whose tables agree with its level, calling the handle of a
      level writes exactly what `Log` at that level writes, and a HandleIf
      does the same when its condition holds and nothing otherwise. */
  lemma HandlesAgreeWithLog(env: Env, l: Logger, i: int, ok: bool, msg: string, args: seq<Lines.Arg>)
    requires Valid(l) && IsLevel(i)
    ensures Emit(env, l, Log(i, msg, args)) == Returns(CallHandle(env, l, i, msg, args))
    ensures CallHandleIf(env, l, i, ok, msg, args) == if ok then CallHandle(env, l, i, msg, args) else []
  {
  }

  const InvalidLevelMessage: string := "Invalid log level, will use INFO by default."

  /** The handle table `SetLevel` rebuilds: one entry per level, active from
      `target` upwards. */
  method BuildTable(target: int) returns (table: seq<bool>)
    ensures |table| == |Names|
    ensures forall i :: 0 <= i < |Names| ==> (table[i] <==> i >= target)
  {
    table := [];
    var i := 0;
    while i < |Names|
      invariant 0 <= i <= |Names| && |table| == i
      invariant forall k :: 0 <= k < i ==> (table[k] <==> k >= target)
    {
      table := table + [i >= target];
      i := i + 1;
    }
  }

  /** `SetLevel(target)`: a level outside 0..5 becomes INFO, after an ERROR
      diagnostic that is subject to the level in force before the call; then
      both handle tables are rebuilt for the new level. */
  method SetLevel(env: Env, l: Logger, target: int) returns (l': Logger, w: seq<string>)
    ensures Valid(l')
    ensures IsLevel(target) ==> l'.level == target && w == []
    ensures !IsLevel(target) ==> l'.level == INFO
    ensures !IsLevel(target) && l.level <= ERROR ==> w == [InvalidLevelMessage, "\n"]
    ensures !IsLevel(target) && l.level > ERROR ==> w == []
  {
    var t := target;
    w := [];
    if t < 0 || t > 5 {
      t := INFO;
      w := Emit(env, l, Output(ERROR, InvalidLevelMessage)).value;
    }
    var handles := BuildTable(t);
    var handleIfs := BuildTable(t);
    l' := Logger(t, handles, handleIfs);
  }

  /** `NewLogger`: the zero logger (level TRACE, no handles) set to INFO. */
  method NewLogger(env: Env) returns (l: Logger, w: seq<string>)
    ensures Valid(l) && l.level == INFO && w == []
  {
    l, w := SetLevel(env, Logger(TRACE, [], []), INFO);
  }

  /** `Init`: a new logger, then the configured level when there is a
      configuration, else the level named by the environment variable. */
  method Init(env: Env, configLevel: Option<int>, envLevel: string) returns (l: Logger, w: seq<string>)
    ensures Valid(l)
    ensures configLevel.None? ==> l.level == ParseLevel(envLevel) && w == []
    ensures configLevel.Some? && IsLevel(configLevel.value) ==> l.level == configLevel.value && w == []
    ensures configLevel.Some? && !IsLevel(configLevel.value) ==>
      l.level == INFO && w == [InvalidLevelMessage, "\n"]
  {
    var l0, w0 := NewLogger(env);
    var level := ParseLevel(envLevel);
    if configLevel.Some? {
      level := configLevel.value;
    }
    var w1;
    l, w1 := SetLevel(env, l0, level);
    w := w0 + w1;
  }

  /** `Assert(check, ...)`: nothing when the check holds; otherwise the
      stack-info text goes out at ERROR and the process exits. The text is
      a parameter. Returns the writer calls and whether the process exits. */
  function Assert(env: Env, l: Logger, check: bool, text: string): (r: (seq<string>, bool))
    ensures check ==> r == ([], false)
    ensures !check ==> r.1 && (l.level <= ERROR ==> r.0 == [text, "\n"])
  {
    if check then ([], false) else (Emit(env, l, Output(ERROR, text)).value, true)
  }
}
