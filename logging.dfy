/**
 * The output-capture session of `nilrt_snac/_logging.py`: the tee stream
 * that copies console output into a log file, the log file's name, header
 * and footer, and the `logging_context` manager that installs the tees
 * around a body and takes them down again on every exit path.
 *
 * Streams are objects whose accepted text grows; what a write does depends on
 * the stream's medium, which may be broken (every write and flush raises the
 * same error) or have limited room (a write that does not fit raises
 * `No space left on device` and stores nothing).
 */
module SnacLogging {
  import opened Wrappers
  import opened Text
  import opened SnacErrors
  import opened Host

  const LogDir := "/var/log/nilrt-snac"
  const LogPermissions := 0x1A0   // 0o640: owner rw, group r
  const DirPermissions := 0x1E8   // 0o750: owner rwx, group rx
  const LogGroup := "adm"
  /** The 80-character separator of the header and footer. */
  const Rule := RuleTen + RuleTen + RuleTen + RuleTen + RuleTen + RuleTen + RuleTen + RuleTen
  const RuleTen := "=========="
  const ClosedFile := "I/O operation on closed file."
  const NoSpace := OsError(OtherOs, "No space left on device")
  const WarningPrefix := "\n[WARNING] " + "Failed to write to log file: "
  const SavedLabel := "Log saved to: "

  // ---------------------------------------------------------------------------
  // Streams
  // ---------------------------------------------------------------------------

  /** What lies behind a stream: a fault every operation raises, and the room left. */
  datatype Medium = Medium(fault: Option<Failure>, room: Option<nat>)

  /** A stream's state as a value: its medium, whether it is closed, the text it accepted. */
  datatype Port = Port(medium: Medium, closed: bool, text: string)

  /** What `write(data)` raises, if anything. */
  function Accepts(p: Port, data: string): (r: Result<(), Failure>)
    ensures r.Ok? <==> !p.closed && p.medium.fault.None? &&
                       (p.medium.room.None? || |p.text| + |data| <= p.medium.room.value)
    ensures p.closed ==> r == Err(ValueError(ClosedFile))
  {
    if p.closed then Err(ValueError(ClosedFile))
    else if p.medium.fault.Some? then Err(p.medium.fault.value)
    else if p.medium.room.Some? && |p.text| + |data| > p.medium.room.value then Err(NoSpace)
    else Ok(())
  }

  /** The port after `write(data)`: the data is stored whole or not at all. */
  function Written(p: Port, data: string): Port {
    if Accepts(p, data).Ok? then p.(text := p.text + data) else p
  }

  /** What `flush()` raises, if anything: a closed or broken stream. */
  function FlushOutcome(p: Port): (r: Result<(), Failure>)
    ensures r.Ok? <==> !p.closed && p.medium.fault.None?
  {
    if p.closed then Err(ValueError(ClosedFile))
    else if p.medium.fault.Some? then Err(p.medium.fault.value)
    else Ok(())
  }

  class Stream {
    var text: string
    var closed: bool
    const medium: Medium

    constructor(medium: Medium)
      ensures text == "" && !closed && this.medium == medium
    {
      text := "";
      closed := false;
      this.medium := medium;
    }

    function Now(): Port
      reads this
    {
      Port(medium, closed, text)
    }

    /** `write(data)`: the number of characters, or the exception raised. */
    method Write(data: string) returns (r: Result<nat, Failure>)
      modifies this
      ensures Now() == Written(old(Now()), data)
      ensures r == (if Accepts(old(Now()), data).Ok? then Ok(|data|) else Err(Accepts(old(Now()), data).error))
    {
      var a := Accepts(Now(), data);
      if a.Err? {
        return Err(a.error);
      }
      text := text + data;
      return Ok(|data|);
    }

    method Flush() returns (r: Result<(), Failure>)
      ensures r == FlushOutcome(Now())
    {
      r := FlushOutcome(Now());
    }

    /** `close()`: flushes first, and is closed afterwards even if that raised; closing twice does nothing. */
    method Close() returns (r: Result<(), Failure>)
      modifies this
      ensures Now() == old(Now()).(closed := true)
      ensures r == (if old(closed) then Ok(()) else FlushOutcome(old(Now())))
    {
      if closed {
        return Ok(());
      }
      r := FlushOutcome(Now());
      closed := true;
    }
  }

  // ---------------------------------------------------------------------------
  // The tee
  // ---------------------------------------------------------------------------

  /** The warning the tee prints on the console when the log file refuses a write. */
  function Warning(e: Failure): string {
    WarningPrefix + e.Text() + "\n"
  }

  datatype TeeResult = TeeResult(console: Port, log: Port, result: Result<nat, Failure>)

  /** What `_TeeStream.write(data)` does to its console and its log file. */
  function TeeWrite(console: Port, log: Port, data: string): TeeResult {
    match Accepts(console, data)
    case Err(e) => TeeResult(console, log, Err(e))
    case Ok(_) =>
      var c := Written(console, data);
      match Accepts(log, data)
      case Ok(_) => TeeResult(c, Written(log, data), Ok(|data|))
      case Err(e) =>
        var w := Warning(e);
        match Accepts(c, w)
        case Err(e2) => TeeResult(c, log, Err(e2))
        case Ok(_) => TeeResult(Written(c, w), log, Ok(|data|))
  }

  /** A console that refuses the data makes the tee raise, and neither stream changes. */
  lemma TeeConsoleFailurePropagates(console: Port, log: Port, data: string)
    requires Accepts(console, data).Err?
    ensures TeeWrite(console, log, data) == TeeResult(console, log, Err(Accepts(console, data).error))
  {
  }

  /**
   * A log file that refuses the data never makes the tee raise as long as the
   * console takes the data and the warning; the console then shows the data
   * followed by the warning, and the log is unchanged.
   */
  lemma TeeLogFailureSwallowed(console: Port, log: Port, data: string)
    requires Accepts(log, data).Err?
    requires Accepts(console, data + Warning(Accepts(log, data).error)).Ok?
    ensures var t := TeeWrite(console, log, data);
      t.result == Ok(|data|) && t.log == log &&
      t.console == console.(text := console.text + (data + Warning(Accepts(log, data).error)))
  {
    var w := Warning(Accepts(log, data).error);
    assert console.text + data + w == console.text + (data + w);
  }

  /** When both accept, the console and the log gain exactly the data, and the count is the console's. */
  lemma TeeCopiesData(console: Port, log: Port, data: string)
    requires Accepts(console, data).Ok? && Accepts(log, data).Ok?
    ensures var t := TeeWrite(console, log, data);
      t == TeeResult(console.(text := console.text + data), log.(text := log.text + data), Ok(|data|))
  {
  }

  class TeeStream {
    const original: Stream
    const log: Stream

    constructor(original: Stream, log: Stream)
      ensures this.original == original && this.log == log
    {
      this.original := original;
      this.log := log;
    }

    /**
     * `write(data)`: the console first, then its flush; then the log file and
     * its flush, where any exception becomes a warning on the console.
     */
    method Write(data: string) returns (r: Result<nat, Failure>)
      requires original != log
      modifies original, log
      ensures var t := TeeWrite(old(original.Now()), old(log.Now()), data);
        original.Now() == t.console && log.Now() == t.log && r == t.result
    {
      var written := original.Write(data);
      if written.Err? {
        return Err(written.error);
      }
      var _ := original.Flush();
      var logged := log.Write(data);
      if logged.Err? {
        var warned := original.Write(Warning(logged.error));
        if warned.Err? {
          return Err(warned.error);
        }
      } else {
        // a log file that took the write is open and unbroken, so its flush succeeds
        var _ := log.Flush();
      }
      r := written;
    }

    /** `flush()`: a console failure raises, a log failure is ignored. */
    method Flush() returns (r: Result<(), Failure>)
      ensures r == FlushOutcome(original.Now())
    {
      r := original.Flush();
      var _ := log.Flush();
    }
  }

  // ---------------------------------------------------------------------------
  // What the wrapped body prints
  // ---------------------------------------------------------------------------

  /** How the body writes: `print`, `sys.stderr.write`, or a record of a logging `StreamHandler`. */
  datatype Writer = Stdout | Stderr | Logger

  /**
   * One write the body makes. The stream handlers are pointed at `sys.stderr`,
   * so a logger record reaches the same console as a `sys.stderr` write.
   */
  datatype Chunk = Chunk(via: Writer, data: string) {
    const toStderr: bool := via != Stdout
  }

  /** The console ports and, while the tees are installed, the log file's port. */
  datatype Screens = Screens(out: Port, err: Port, log: Option<Port>)

  /** The screens after some writes, and the exception that cut them short, if any. */
  datatype Replayed = Replayed(screens: Screens, error: Option<Failure>)

  /**
   * One chunk written through `sys.stdout`/`sys.stderr`: the plain console, or
   * its tee. An exception from that write ends the body, except for a logger
   * record: `StreamHandler.emit` catches it and hands it to `handleError`.
   */
  function Emit(s: Screens, c: Chunk): Replayed {
    var console := if c.toStderr then s.err else s.out;
    var t := if s.log.None? then
               TeeResult(Written(console, c.data), console,
                         if Accepts(console, c.data).Ok? then Ok(|c.data|) else Err(Accepts(console, c.data).error))
             else TeeWrite(console, s.log.value, c.data);
    var log := if s.log.None? then None else Some(t.log);
    var screens := if c.toStderr then Screens(s.out, t.console, log) else Screens(t.console, s.err, log);
    Replayed(screens, if t.result.Err? && c.via != Logger then Some(t.result.error) else None)
  }

  /** The body's writes in order, up to the first that raises. */
  function Replay(s: Screens, chunks: seq<Chunk>): (r: Replayed)
    ensures r.screens.log.Some? <==> s.log.Some?
    decreases |chunks|
  {
    if |chunks| == 0 then Replayed(s, None)
    else
      var before := Replay(s, chunks[..|chunks| - 1]);
      if before.error.Some? then before else Emit(before.screens, chunks[|chunks| - 1])
  }

  /** The text of the chunks sent to one console, each followed by `after`. */
  function Echo(chunks: seq<Chunk>, toStderr: bool, after: string): string
    decreases |chunks|
  {
    if |chunks| == 0 then ""
    else
      var last := chunks[|chunks| - 1];
      Echo(chunks[..|chunks| - 1], toStderr, after) + (if last.toStderr == toStderr then last.data + after else "")
  }

  /** All the chunks' text, in the order written. */
  function Captured(chunks: seq<Chunk>): string
    decreases |chunks|
  {
    if |chunks| == 0 then "" else Captured(chunks[..|chunks| - 1]) + chunks[|chunks| - 1].data
  }

  /** Open, unbroken and unlimited. */
  predicate Roomy(p: Port) {
    !p.closed && p.medium == Medium(None, None)
  }

  /** One chunk through the tees when every stream has room. */
  lemma EmitRoomy(s: Screens, c: Chunk)
    requires Roomy(s.out) && Roomy(s.err) && s.log.Some? && Roomy(s.log.value)
    ensures Emit(s, c) == Replayed(Screens(
      if c.toStderr then s.out else s.out.(text := s.out.text + c.data),
      if c.toStderr then s.err.(text := s.err.text + c.data) else s.err,
      Some(s.log.value.(text := s.log.value.text + c.data))), None)
  {
    var console := if c.toStderr then s.err else s.out;
    TeeCopiesData(console, s.log.value, c.data);
  }

  /** One chunk through the tees when the log file refuses it with `e`. */
  lemma EmitRefused(s: Screens, c: Chunk, e: Failure)
    requires Roomy(s.out) && Roomy(s.err) && s.log.Some?
    requires Accepts(s.log.value, c.data) == Err(e)
    ensures Emit(s, c) == Replayed(Screens(
      if c.toStderr then s.out else s.out.(text := s.out.text + (c.data + Warning(e))),
      if c.toStderr then s.err.(text := s.err.text + (c.data + Warning(e))) else s.err,
      s.log), None)
  {
    var console := if c.toStderr then s.err else s.out;
    TeeLogFailureSwallowed(console, s.log.value, c.data);
    var t := TeeWrite(console, s.log.value, c.data);
    assert t.console == console.(text := console.text + (c.data + Warning(e)));
    assert t.log == s.log.value && t.result.Ok?;
  }

  /**
   * With every stream open, unbroken and unlimited, each console shows
   * exactly its own chunks and the log file holds all of them in the order
   * written: stdout and stderr interleaved.
   */
  lemma {:induction false} ReplayCapturesAll(s: Screens, chunks: seq<Chunk>)
    requires Roomy(s.out) && Roomy(s.err) && s.log.Some? && Roomy(s.log.value)
    ensures var r := Replay(s, chunks);
      r.error == None &&
      r.screens.out == s.out.(text := s.out.text + Echo(chunks, false, "")) &&
      r.screens.err == s.err.(text := s.err.text + Echo(chunks, true, "")) &&
      r.screens.log == Some(s.log.value.(text := s.log.value.text + Captured(chunks)))
    decreases |chunks|
  {
    if |chunks| > 0 {
      var init := chunks[..|chunks| - 1];
      ReplayCapturesAll(s, init);
      var c := chunks[|chunks| - 1];
      EmitRoomy(Replay(s, init).screens, c);
      assert s.out.text + Echo(init, false, "") + c.data == s.out.text + (Echo(init, false, "") + c.data);
      assert s.err.text + Echo(init, true, "") + c.data == s.err.text + (Echo(init, true, "") + c.data);
      assert s.log.value.text + Captured(init) + c.data == s.log.value.text + (Captured(init) + c.data);
    } else {
      assert s.out.text + "" == s.out.text && s.err.text + "" == s.err.text && s.log.value.text + "" == s.log.value.text;
    }
  }

  /**
   * While the log file refuses every chunk with the same error (it is broken,
   * or full and every chunk is non-empty), each chunk is followed on its
   * console by the warning: a failing log write is reported each time, not
   * once, and the run goes on.
   */
  lemma {:induction false} RefusingLogWarnsEveryTime(s: Screens, chunks: seq<Chunk>, e: Failure)
    requires Roomy(s.out) && Roomy(s.err) && s.log.Some?
    requires forall k :: 0 <= k < |chunks| ==> Accepts(s.log.value, chunks[k].data) == Err(e)
    ensures var r := Replay(s, chunks);
      r.error == None && r.screens.log == s.log &&
      r.screens.out == s.out.(text := s.out.text + Echo(chunks, false, Warning(e))) &&
      r.screens.err == s.err.(text := s.err.text + Echo(chunks, true, Warning(e)))
    decreases |chunks|
  {
    if |chunks| > 0 {
      var init := chunks[..|chunks| - 1];
      assert forall k :: 0 <= k < |init| ==> init[k] == chunks[k];
      RefusingLogWarnsEveryTime(s, init, e);
      WarnStep(s, chunks, e);
    } else {
      assert s.out.text + "" == s.out.text && s.err.text + "" == s.err.text;
    }
  }

  /** The inductive step of `RefusingLogWarnsEveryTime`: one more refused chunk. */
  lemma WarnStep(s: Screens, chunks: seq<Chunk>, e: Failure)
    requires Roomy(s.out) && Roomy(s.err) && s.log.Some? && |chunks| > 0
    requires Accepts(s.log.value, chunks[|chunks| - 1].data) == Err(e)
    requires var r := Replay(s, chunks[..|chunks| - 1]);
      r.error == None && r.screens.log == s.log &&
      r.screens.out == s.out.(text := s.out.text + Echo(chunks[..|chunks| - 1], false, Warning(e))) &&
      r.screens.err == s.err.(text := s.err.text + Echo(chunks[..|chunks| - 1], true, Warning(e)))
    ensures var r := Replay(s, chunks);
      r.error == None && r.screens.log == s.log &&
      r.screens.out == s.out.(text := s.out.text + Echo(chunks, false, Warning(e))) &&
      r.screens.err == s.err.(text := s.err.text + Echo(chunks, true, Warning(e)))
  {
    var init := chunks[..|chunks| - 1];
    var c := chunks[|chunks| - 1];
    var w := Warning(e);
    var r0 := Replay(s, init).screens;
    EmitRefused(r0, c, e);
    assert Replay(s, chunks) == Emit(r0, c);
    EchoStep(s.out.text, chunks, false, w);
    EchoStep(s.err.text, chunks, true, w);
  }

  /** One more chunk adds its text and `after` to the echo of its own console only. */
  lemma EchoStep(prefix: string, chunks: seq<Chunk>, toStderr: bool, after: string)
    requires |chunks| > 0
    ensures var c := chunks[|chunks| - 1];
      prefix + Echo(chunks, toStderr, after) ==
      if c.toStderr == toStderr then prefix + Echo(chunks[..|chunks| - 1], toStderr, after) + (c.data + after)
      else prefix + Echo(chunks[..|chunks| - 1], toStderr, after)
  {
    var c := chunks[|chunks| - 1];
    var e0 := Echo(chunks[..|chunks| - 1], toStderr, after);
    if c.toStderr == toStderr {
      assert prefix + e0 + (c.data + after) == prefix + (e0 + (c.data + after));
    } else {
      assert e0 + "" == e0;
    }
  }

  /** A full log file refuses every non-empty chunk with `No space left on device`. */
  lemma FullLogRefuses(l: Port, chunks: seq<Chunk>)
    requires !l.closed && l.medium.fault.None? && l.medium.room == Some(|l.text|)
    requires forall k :: 0 <= k < |chunks| ==> chunks[k].data != ""
    ensures forall k :: 0 <= k < |chunks| ==> Accepts(l, chunks[k].data) == Err(NoSpace)
  {
  }

  /**
   * A console that refuses a chunk changes no stream; the write raises, unless
   * the chunk is a logger record, whose handler swallows the exception.
   */
  lemma EmitConsoleFails(s: Screens, c: Chunk)
    requires Accepts(if c.toStderr then s.err else s.out, c.data).Err?
    ensures c.via != Logger ==> Emit(s, c) == Replayed(s, Some(Accepts(if c.toStderr then s.err else s.out, c.data).error))
    ensures c.via == Logger ==> Emit(s, c) == Replayed(s, None)
  {
    var console := if c.toStderr then s.err else s.out;
    if s.log.Some? {
      TeeConsoleFailurePropagates(console, s.log.value, c.data);
    }
  }

  /** Once a write has raised, later chunks are never written. */
  lemma {:induction false} ReplayKeepsError(s: Screens, done: seq<Chunk>, later: seq<Chunk>)
    requires Replay(s, done).error.Some?
    ensures Replay(s, done + later) == Replay(s, done)
    decreases |later|
  {
    if |later| == 0 {
      assert done + later == done;
    } else {
      var init := later[..|later| - 1];
      assert (done + later)[..|done + later| - 1] == done + init;
      ReplayKeepsError(s, done, init);
    }
  }

  /**
   * A console that refuses a `print` or `sys.stderr.write` chunk stops the body
   * at once: nothing of that chunk or later ones is written. A logger record it
   * refuses is dropped instead, and the body goes on as if it had not been made.
   */
  lemma ConsoleFailureStops(s: Screens, done: seq<Chunk>, c: Chunk, later: seq<Chunk>)
    requires Replay(s, done).error.None?
    requires var r := Replay(s, done).screens; Accepts(if c.toStderr then r.err else r.out, c.data).Err?
    ensures c.via != Logger ==> Replay(s, done + [c] + later) == Replayed(Replay(s, done).screens, Some(
      var r := Replay(s, done).screens; Accepts(if c.toStderr then r.err else r.out, c.data).error))
    ensures c.via == Logger ==> Replay(s, done + [c] + later) == Replay(s, done + later)
  {
    EmitConsoleFails(Replay(s, done).screens, c);
    assert (done + [c])[..|done + [c]| - 1] == done;
    if c.via == Logger {
      ReplaySameFrom(s, done + [c], done, later);
    } else {
      ReplayKeepsError(s, done + [c], later);
    }
  }

  /** Two write histories that leave the same screens go on alike. */
  lemma {:induction false} ReplaySameFrom(s: Screens, a: seq<Chunk>, b: seq<Chunk>, later: seq<Chunk>)
    requires Replay(s, a) == Replay(s, b)
    ensures Replay(s, a + later) == Replay(s, b + later)
    decreases |later|
  {
    if |later| == 0 {
      assert a + later == a && b + later == b;
    } else {
      var init := later[..|later| - 1];
      assert (a + later)[..|a + later| - 1] == a + init;
      assert (b + later)[..|b + later| - 1] == b + init;
      assert (a + later)[|a + later| - 1] == (b + later)[|b + later| - 1];
      ReplaySameFrom(s, a, b, init);
    }
  }

  // ---------------------------------------------------------------------------
  // File name, header, footer and the closing notice
  // ---------------------------------------------------------------------------

  /** A local time as `datetime.now()` gives it. */
  datatype DateTime = DateTime(year: nat, month: nat, day: nat, hour: nat, minute: nat, second: nat)

  predicate ValidTime(t: DateTime) {
    1000 <= t.year <= 9999 && 1 <= t.month <= 12 && 1 <= t.day <= 31 &&
    t.hour < 24 && t.minute < 60 && t.second < 60
  }

  /** `strftime("%Y%m%d-%H%M%S")`. */
  function Stamp(t: DateTime): string {
    ZeroPad(t.year, 4) + ZeroPad(t.month, 2) + ZeroPad(t.day, 2) + "-" +
    ZeroPad(t.hour, 2) + ZeroPad(t.minute, 2) + ZeroPad(t.second, 2)
  }

  /** `_generate_log_filename(command)`. */
  function Filename(command: string, t: DateTime): string {
    command + "-" + Stamp(t) + ".log"
  }

  /** Where the session's log file goes. */
  function LogPath(command: string, t: DateTime): string {
    LogDir + "/" + Filename(command, t)
  }

  function Pow10(n: nat): nat {
    if n == 0 then 1 else 10 * Pow10(n - 1)
  }

  lemma {:induction false} NatToStringShort(n: nat, width: nat)
    requires 1 <= width && n < Pow10(width)
    ensures |NatToString(n)| <= width
  {
    if n >= 10 {
      NatToStringShort(n / 10, width - 1);
    }
  }

  /** A number below `10^width` is padded to exactly `width` digits. */
  lemma ZeroPadWidth(n: nat, width: nat)
    requires 1 <= width && n < Pow10(width)
    ensures |ZeroPad(n, width)| == width
  {
    NatToStringShort(n, width);
  }

  /** The stamp is eight digits, a dash and six digits. */
  lemma StampShape(t: DateTime)
    requires ValidTime(t)
    ensures |Stamp(t)| == 15 && Stamp(t)[8] == '-'
    ensures forall k :: 0 <= k < 15 && k != 8 ==> IsDigit(Stamp(t)[k])
  {
    ZeroPadWidth(t.year, 4);
    ZeroPadWidth(t.month, 2);
    ZeroPadWidth(t.day, 2);
    ZeroPadWidth(t.hour, 2);
    ZeroPadWidth(t.minute, 2);
    ZeroPadWidth(t.second, 2);
  }

  /**
   * Two sessions of the same command started in different seconds get
   * different file names, so `O_EXCL` only refuses a second start within the
   * same second.
   */
  lemma FilenameInjective(command: string, t1: DateTime, t2: DateTime)
    requires ValidTime(t1) && ValidTime(t2)
    requires Filename(command, t1) == Filename(command, t2)
    ensures t1 == t2
  {
    StampShape(t1);
    StampShape(t2);
    var n := |command| + 1;
    assert Filename(command, t1) == (command + "-") + Stamp(t1) + ".log";
    assert Filename(command, t1)[n..n + 15] == Stamp(t1);
    assert Filename(command, t2)[n..n + 15] == Stamp(t2);
    StampInjective(t1, t2);
  }

  /** Different valid times give different stamps. */
  lemma StampInjective(t1: DateTime, t2: DateTime)
    requires ValidTime(t1) && ValidTime(t2) && Stamp(t1) == Stamp(t2)
    ensures t1 == t2
  {
    ZeroPadWidth(t1.year, 4); ZeroPadWidth(t2.year, 4);
    ZeroPadWidth(t1.month, 2); ZeroPadWidth(t2.month, 2);
    ZeroPadWidth(t1.day, 2); ZeroPadWidth(t2.day, 2);
    ZeroPadWidth(t1.hour, 2); ZeroPadWidth(t2.hour, 2);
    ZeroPadWidth(t1.minute, 2); ZeroPadWidth(t2.minute, 2);
    ZeroPadWidth(t1.second, 2); ZeroPadWidth(t2.second, 2);
    var d1 := ZeroPad(t1.year, 4) + ZeroPad(t1.month, 2) + ZeroPad(t1.day, 2) + "-";
    var d2 := ZeroPad(t2.year, 4) + ZeroPad(t2.month, 2) + ZeroPad(t2.day, 2) + "-";
    SuffixCancel(d1 + ZeroPad(t1.hour, 2) + ZeroPad(t1.minute, 2), ZeroPad(t1.second, 2),
                 d2 + ZeroPad(t2.hour, 2) + ZeroPad(t2.minute, 2), ZeroPad(t2.second, 2));
    SuffixCancel(d1 + ZeroPad(t1.hour, 2), ZeroPad(t1.minute, 2), d2 + ZeroPad(t2.hour, 2), ZeroPad(t2.minute, 2));
    SuffixCancel(d1, ZeroPad(t1.hour, 2), d2, ZeroPad(t2.hour, 2));
    SuffixCancel(ZeroPad(t1.year, 4) + ZeroPad(t1.month, 2) + ZeroPad(t1.day, 2), "-",
                 ZeroPad(t2.year, 4) + ZeroPad(t2.month, 2) + ZeroPad(t2.day, 2), "-");
    SuffixCancel(ZeroPad(t1.year, 4) + ZeroPad(t1.month, 2), ZeroPad(t1.day, 2),
                 ZeroPad(t2.year, 4) + ZeroPad(t2.month, 2), ZeroPad(t2.day, 2));
    SuffixCancel(ZeroPad(t1.year, 4), ZeroPad(t1.month, 2), ZeroPad(t2.year, 4), ZeroPad(t2.month, 2));
    ZeroPadInjective(t1.year, t2.year, 4);
    ZeroPadInjective(t1.month, t2.month, 2);
    ZeroPadInjective(t1.day, t2.day, 2);
    ZeroPadInjective(t1.hour, t2.hour, 2);
    ZeroPadInjective(t1.minute, t2.minute, 2);
    ZeroPadInjective(t1.second, t2.second, 2);
  }

  /** Equal concatenations with equally long tails have equal heads and tails. */
  lemma SuffixCancel(a1: string, b1: string, a2: string, b2: string)
    requires a1 + b1 == a2 + b2 && |b1| == |b2|
    ensures a1 == a2 && b1 == b2
  {
    assert a1 == (a1 + b1)[..|a1|];
    assert a2 == (a2 + b2)[..|a2|];
    assert b1 == (a1 + b1)[|a1|..];
    assert b2 == (a2 + b2)[|a2|..];
  }

  /** What the header reports about the run; `user` is `$USER`, which may be unset. */
  datatype HeaderFacts = HeaderFacts(startedAt: string, user: Option<string>, uid: int, hostname: string,
                                     python: string, platform: string)

  function HeaderLines(command: string, args: seq<string>, f: HeaderFacts): seq<string> {
    [Rule,
     "NILRT SNAC " + Upper(command) + " LOG",
     Rule,
     "Timestamp: " + f.startedAt,
     "Command: nilrt-snac " + Join(args, " "),
     "User: " + (if f.user.Some? then f.user.value else "unknown") + " (UID: " + IntToString(f.uid) + ")",
     "Hostname: " + f.hostname,
     "Python: " + f.python,
     "Platform: " + f.platform,
     Rule,
     ""]
  }

  /** `_write_log_header`: the lines joined by newlines. */
  function Header(command: string, args: seq<string>, f: HeaderFacts): string {
    Join(HeaderLines(command, args, f), "\n")
  }

  function FooterLines(finishedAt: string, code: int): seq<string> {
    ["", Rule, "Execution completed at: " + finishedAt, "Exit code: " + IntToString(code), Rule]
  }

  /** `_write_log_footer`. */
  function Footer(finishedAt: string, code: int): string {
    Join(FooterLines(finishedAt, code), "\n")
  }

  lemma {:induction false} JoinLacks(parts: seq<string>, sep: string, c: char)
    requires c !in sep && forall k :: 0 <= k < |parts| ==> c !in parts[k]
    ensures c !in Join(parts, sep)
    decreases |parts|
  {
    if |parts| > 1 {
      JoinLacks(parts[1..], sep, c);
    }
  }

  lemma RuleShape()
    ensures |Rule| == 80 && '\n' !in Rule
  {
  }

  lemma IntToStringLacksNewline(i: int)
    ensures '\n' !in IntToString(i)
  {
    var d := NatToString(if i < 0 then -i else i);
    assert forall k :: 0 <= k < |d| ==> d[k] != '\n';
  }

  lemma UpperKeepsNewlines(s: string)
    requires '\n' !in s
    ensures '\n' !in Upper(s)
  {
    var u := Upper(s);
    assert forall k :: 0 <= k < |u| ==> u[k] != '\n';
  }

  /**
   * Read back line by line, the header is the 80-character rule, the title
   * naming the command in capitals, the rule, the six facts, the rule, and
   * an empty last line: the header ends with a newline.
   */
  lemma HeaderLayout(command: string, args: seq<string>, f: HeaderFacts)
    requires '\n' !in command && forall k :: 0 <= k < |args| ==> '\n' !in args[k]
    requires '\n' !in f.startedAt && '\n' !in f.hostname && '\n' !in f.python && '\n' !in f.platform
    requires f.user.Some? ==> '\n' !in f.user.value
    ensures var lines := Lines(Header(command, args, f));
      lines == HeaderLines(command, args, f) && |lines| == 11 &&
      lines[0] == lines[2] == lines[9] == Rule && |Rule| == 80 &&
      lines[1] == "NILRT SNAC " + Upper(command) + " LOG" && lines[10] == ""
  {
    HeaderLinesLack(command, args, f);
    LinesOfJoin(HeaderLines(command, args, f));
    RuleShape();
  }

  /** No header line holds a newline of its own. */
  lemma HeaderLinesLack(command: string, args: seq<string>, f: HeaderFacts)
    requires '\n' !in command && forall k :: 0 <= k < |args| ==> '\n' !in args[k]
    requires '\n' !in f.startedAt && '\n' !in f.hostname && '\n' !in f.python && '\n' !in f.platform
    requires f.user.Some? ==> '\n' !in f.user.value
    ensures forall k :: 0 <= k < |HeaderLines(command, args, f)| ==> '\n' !in HeaderLines(command, args, f)[k]
  {
    var ls := HeaderLines(command, args, f);
    UpperKeepsNewlines(command);
    JoinLacks(args, " ", '\n');
    IntToStringLacksNewline(f.uid);
    RuleShape();
    assert '\n' !in ls[1];
    assert '\n' !in ls[3];
    assert '\n' !in ls[4];
    assert '\n' !in ls[5];
    assert '\n' !in ls[6] && '\n' !in ls[7] && '\n' !in ls[8];
  }

  /** Lines without newlines, joined by newlines, read back as themselves. */
  lemma LinesOfJoin(ls: seq<string>)
    requires |ls| >= 1 && forall k :: 0 <= k < |ls| ==> '\n' !in ls[k]
    ensures Lines(Join(ls, "\n")) == ls
  {
    SplitJoin(ls, '\n');
  }

  /**
   * Read back line by line, the footer is an empty line (so it starts on a
   * line of its own), the rule, the completion time, the exit code and the
   * rule.
   */
  lemma FooterLayout(finishedAt: string, code: int)
    requires '\n' !in finishedAt
    ensures var lines := Lines(Footer(finishedAt, code));
      lines == FooterLines(finishedAt, code) && |lines| == 5 && lines[0] == "" &&
      lines[1] == lines[4] == Rule && lines[3] == "Exit code: " + IntToString(code)
  {
    var ls := FooterLines(finishedAt, code);
    IntToStringLacksNewline(code);
    RuleShape();
    assert '\n' !in ls[2] && '\n' !in ls[3];
    LinesOfJoin(ls);
  }

  /** `print_log_location(path)`: nothing without a path, else a blank line and the notice. */
  function SavedNotice(path: Option<string>): (out: string)
    ensures out == "" <==> path.None?
  {
    if path.None? then "" else "\n" + SavedLabel + path.value + "\n"
  }

  lemma SavedNoticeLines(path: string)
    requires '\n' !in path
    ensures Lines(SavedNotice(Some(path))) == ["", SavedLabel + path, ""]
  {
    var line := SavedLabel + path;
    assert '\n' !in line;
    JoinThree("", line, "");
    assert "" + "\n" + line + "\n" + "" == "\n" + line + "\n";
    assert SavedNotice(Some(path)) == Join(["", line, ""], "\n");
    LinesOfJoin(["", line, ""]);
  }

  /** Three lines joined by newlines. */
  lemma JoinThree(a: string, b: string, c: string)
    ensures Join([a, b, c], "\n") == a + "\n" + b + "\n" + c
  {
    var ls := [a, b, c];
    assert ls[1..][1..] == [c];
    assert Join(ls[1..], "\n") == b + "\n" + c;
  }

  // ---------------------------------------------------------------------------
  // Routing the body's output
  // ---------------------------------------------------------------------------

  /** What `sys.stdout`, `sys.stderr` or a handler's `stream` refers to: a console, or a tee in front of it. */
  datatype Sink = Plain(stream: Stream) | Teed(tee: TeeStream)

  /** The console behind a sink. */
  function Console(k: Sink): Stream {
    match k
    case Plain(s) => s
    case Teed(t) => t.original
  }

  /** The streams a write through the sink may change. */
  function Footprint(k: Sink): set<object> {
    match k
    case Plain(s) => {s}
    case Teed(t) => {t.original, t.log}
  }

  /**
   * Two distinct consoles, both plain or both teed into one log file that is
   * neither of them.
   */
  predicate Wired(stdout: Sink, stderr: Sink) {
    Console(stdout) != Console(stderr) &&
    ((stdout.Plain? && stderr.Plain?) ||
     (stdout.Teed? && stderr.Teed? && stdout.tee.log == stderr.tee.log &&
      stdout.tee.log != Console(stdout) && stdout.tee.log != Console(stderr)))
  }

  /** The state of the consoles and of the log file behind the sinks. */
  function ScreensOf(stdout: Sink, stderr: Sink): Screens
    reads Footprint(stdout), Footprint(stderr)
  {
    Screens(Console(stdout).Now(), Console(stderr).Now(), if stdout.Teed? then Some(stdout.tee.log.Now()) else None)
  }

  /** One `print`/`sys.stderr.write`/logger record of the body. */
  method Deliver(stdout: Sink, stderr: Sink, c: Chunk) returns (error: Option<Failure>)
    requires Wired(stdout, stderr)
    modifies Footprint(stdout), Footprint(stderr)
    ensures Emit(old(ScreensOf(stdout, stderr)), c) == Replayed(ScreensOf(stdout, stderr), error)
  {
    var sink := if c.toStderr then stderr else stdout;
    var r: Result<nat, Failure>;
    match sink {
      case Plain(s) => r := s.Write(c.data);
      case Teed(t) => r := t.Write(c.data);
    }
    // `StreamHandler.emit` hands a logger record's exception to `handleError`
    error := if r.Err? && c.via != Logger then Some(r.error) else None;
  }

  /** The wrapped body's writes, in order, until one raises. */
  method RunBody(stdout: Sink, stderr: Sink, chunks: seq<Chunk>) returns (error: Option<Failure>)
    requires Wired(stdout, stderr)
    modifies Footprint(stdout), Footprint(stderr)
    ensures Replay(old(ScreensOf(stdout, stderr)), chunks) == Replayed(ScreensOf(stdout, stderr), error)
  {
    ghost var s0 := ScreensOf(stdout, stderr);
    error := None;
    var i := 0;
    while i < |chunks|
      invariant 0 <= i <= |chunks|
      invariant Replay(s0, chunks[..i]) == Replayed(ScreensOf(stdout, stderr), None) && error == None
    {
      assert chunks[..i + 1][..i] == chunks[..i];
      assert chunks[..i + 1][i] == chunks[i];
      error := Deliver(stdout, stderr, chunks[i]);
      assert Replay(s0, chunks[..i + 1]) == Replayed(ScreensOf(stdout, stderr), error);
      if error.Some? {
        ReplayKeepsError(s0, chunks[..i + 1], chunks[i + 1..]);
        assert chunks[..i + 1] + chunks[i + 1..] == chunks;
        return;
      }
      i := i + 1;
    }
    assert chunks[..i] == chunks;
  }

  // ---------------------------------------------------------------------------
  // Logging handlers
  // ---------------------------------------------------------------------------

  /** An entry of `logging.root.handlers`; only a `StreamHandler` has a stream to redirect. */
  class Handler {
    const isStreamHandler: bool
    var stream: Sink

    constructor(isStreamHandler: bool, stream: Sink)
      ensures this.isStreamHandler == isStreamHandler && this.stream == stream
    {
      this.isStreamHandler := isStreamHandler;
      this.stream := stream;
    }
  }

  predicate Distinct(hs: seq<Handler>) {
    forall i, j :: 0 <= i < j < |hs| ==> hs[i] != hs[j]
  }

  /** The `StreamHandler`s among the handlers, in order. */
  function StreamHandlers(hs: seq<Handler>): (r: seq<Handler>)
    ensures forall k :: 0 <= k < |r| ==> r[k] in hs && r[k].isStreamHandler
    ensures forall k :: 0 <= k < |hs| && hs[k].isStreamHandler ==> hs[k] in r
  {
    if |hs| == 0 then []
    else StreamHandlers(hs[..|hs| - 1]) + (if hs[|hs| - 1].isStreamHandler then [hs[|hs| - 1]] else [])
  }

  /**
   * The redirect loop: every `StreamHandler` at entry, and no other handler,
   * is pointed at `target`; the handlers and their former streams are saved
   * pairwise, in order.
   */
  method Redirect(hs: seq<Handler>, target: Sink) returns (saved: seq<Handler>, streams: seq<Sink>)
    requires Distinct(hs)
    modifies hs
    ensures saved == StreamHandlers(hs) && Distinct(saved) && |streams| == |saved|
    ensures forall i :: 0 <= i < |saved| ==> streams[i] == old(saved[i].stream)
    ensures forall h :: h in hs ==> h.stream == if h.isStreamHandler then target else old(h.stream)
  {
    saved := [];
    streams := [];
    var i := 0;
    while i < |hs|
      invariant 0 <= i <= |hs|
      invariant saved == StreamHandlers(hs[..i]) && Distinct(saved) && |streams| == |saved|
      invariant forall k :: 0 <= k < |saved| ==> streams[k] == old(saved[k].stream)
      invariant forall k :: 0 <= k < |hs| ==>
        hs[k].stream == if k < i && hs[k].isStreamHandler then target else old(hs[k].stream)
    {
      var h := hs[i];
      assert hs[..i + 1][..i] == hs[..i];
      assert h !in hs[..i];
      if h.isStreamHandler {
        saved := saved + [h];
        streams := streams + [h.stream];
        h.stream := target;
      }
      i := i + 1;
    }
    assert hs[..i] == hs;
  }

  /** The restore loop of the `finally` block: each saved handler gets its saved stream back. */
  method Restore(saved: seq<Handler>, streams: seq<Sink>)
    requires Distinct(saved) && |streams| == |saved|
    modifies saved
    ensures forall i :: 0 <= i < |saved| ==> saved[i].stream == streams[i]
  {
    var i := 0;
    while i < |saved|
      invariant 0 <= i <= |saved|
      invariant forall k :: 0 <= k < i ==> saved[k].stream == streams[k]
    {
      saved[i].stream := streams[i];
      i := i + 1;
    }
  }

  // ---------------------------------------------------------------------------
  // The session: `logging_context`
  // ---------------------------------------------------------------------------

  /** `st_mode` of the log file: `os.open(..., 0o640)` under root's umask 0o022. */
  const LogFileMode := RegularFileType + LogPermissions

  /** The log directory's permission bits and group after `_create_log_directory`. */
  datatype Directory = Directory(mode: int, gid: int)

  /**
   * What the session meets in the world: whether creating the directory
   * raises (`mkdir`, `chmod` or `chown`, each an `OSError`), the directory's
   * group when `adm` is missing, `grp.getgrnam("adm")` (`None` for a
   * `KeyError`), the clock for the file name, what `os.open` raises besides
   * `FileExistsError`, what `os.fchown` raises, the medium the log file is
   * written to, the header's facts and the footer's completion time.
   */
  datatype LogEnv = LogEnv(dirError: Option<OsKind>, dirGid: int, admGid: Option<int>, now: DateTime,
                           openError: Option<OsKind>, fchownError: Option<OsKind>, logMedium: Medium,
                           facts: HeaderFacts, finishedAt: string)

  /** `_create_log_directory` when it succeeds: mode 0o750, group `adm` when it exists. */
  function DirectoryAfter(env: LogEnv): (d: Directory)
    ensures d.mode == DirPermissions
    ensures env.admGid.Some? ==> d.gid == env.admGid.value
  {
    Directory(DirPermissions, if env.admGid.Some? then env.admGid.value else env.dirGid)
  }

  /** `os.open(path, O_WRONLY | O_CREAT | O_EXCL, 0o640)`: a new empty root-owned file, or the `OSError`. */
  function Opened(files: map<string, FileEntry>, path: string, env: LogEnv): (r: Result<FileEntry, Failure>)
    ensures path in files ==> r == Err(OsError(FileExists, path))
    ensures r.Ok? <==> path !in files && env.openError.None?
    ensures r.Ok? ==> r.value == FileEntry("", LogFileMode, 0, 0)
  {
    if path in files then Err(OsError(FileExists, path))
    else if env.openError.Some? then Err(OsError(env.openError.value, path))
    else Ok(FileEntry("", LogFileMode, 0, 0))
  }

  /** The group fix-up after opening: the file's group, and what `os.fchown` raised. */
  function Regrouped(entry: FileEntry, env: LogEnv): (FileEntry, Option<Failure>) {
    if env.admGid.None? then (entry, None)
    else if env.fchownError.Some? then (entry, Some(OsError(env.fchownError.value, "")))
    else (entry.(gid := env.admGid.value), None)
  }

  /**
   * The `except` clauses around the file set-up and the body: an existing
   * file becomes `EX_ERROR`, any other `OSError` `EX_BAD_ENVIRONMENT`, and
   * anything else passes through.
   */
  function Converted(e: Failure): (r: Failure)
    ensures e.OsError? ==> r == SnacError(if e.kind == FileExists then ExError else ExBadEnvironment)
    ensures !e.OsError? ==> r == e
  {
    match e
    case OsError(kind, _) => SnacError(if kind == FileExists then ExError else ExBadEnvironment)
    case _ => e
  }

  /** The exception the body leaves with: that of a write that raised, or the one it ends by raising. */
  function Raised(written: Option<Failure>, end: Option<Failure>): (r: Option<Failure>)
    ensures written.Some? ==> r == written
    ensures written.None? ==> r == end
  {
    if written.Some? then written else end
  }

  /** `_write_log_footer` followed by `close()` inside one `try`: the first exception ends the attempt. */
  function FooterAttempt(l: Port, footer: string): Port {
    if Accepts(l, footer).Err? then l else Written(l, footer).(closed := true)
  }

  /** One footer attempt of the `finally` block; whatever it raises is swallowed. */
  method WriteFooter(l: Stream, footer: string)
    modifies l
    ensures l.Now() == FooterAttempt(old(l.Now()), footer)
  {
    var written := l.Write(footer);
    if written.Err? {
      return;
    }
    // a file that took the write is open and unbroken, so neither its flush nor its close raises
    var _ := l.Flush();
    var _ := l.Close();
  }

  /** How a session ends: what the `with` yielded and raised, the consoles, the log file and the directory. */
  datatype SessionEnd = SessionEnd(yielded: Option<string>, result: Result<(), Failure>, out: Port, err: Port,
                                   log: Option<Port>, files: map<string, FileEntry>, directory: Option<Directory>)

  /** The `finally` block once the log file is open: the streams are back, and the footer is tried twice. */
  function Closing(yielded: Option<string>, failure: Option<Failure>, out: Port, err: Port, l: Port,
                   files: map<string, FileEntry>, path: string, entry: FileEntry, footer: string,
                   directory: Directory): SessionEnd
  {
    var closed := FooterAttempt(FooterAttempt(l, footer), footer);
    SessionEnd(yielded, if failure.Some? then Err(Converted(failure.value)) else Ok(()), out, err, Some(closed),
               files[path := entry.(content := closed.text)], Some(directory))
  }

  /** How the part of the session inside the tees went. */
  datatype BodyRun = BodyRun(started: bool, failure: Option<Failure>, out: Port, err: Port, log: Port)

  /**
   * From the header on: the header is written to the fresh log file; if that
   * raises, the body never starts; otherwise the body's chunks go through the
   * tees.
   */
  function Body(out: Port, err: Port, l: Port, header: string, chunks: seq<Chunk>, end: Option<Failure>): (b: BodyRun)
    ensures !b.started <==> Accepts(l, header).Err?
  {
    match Accepts(l, header)
    case Err(e) => BodyRun(false, Some(e), out, err, l)
    case Ok(_) =>
      var run := Replay(Screens(out, err, Some(Written(l, header))), chunks);
      BodyRun(true, Raised(run.error, end), run.screens.out, run.screens.err, run.screens.log.value)
  }

  /**
   * An enabled session from the directory on, for the log file `path` and
   * the given header and footer text.
   */
  function Logged(out: Port, err: Port, files: map<string, FileEntry>, path: string, header: string,
                  footer: string, env: LogEnv, chunks: seq<Chunk>, end: Option<Failure>): SessionEnd
  {
    if env.dirError.Some? then
      SessionEnd(None, Err(SnacError(ExBadEnvironment)), out, err, None, files, None)
    else
      var directory := DirectoryAfter(env);
      match Opened(files, path, env)
      case Err(e) => SessionEnd(None, Err(Converted(e)), out, err, None, files, Some(directory))
      case Ok(created) =>
        var blank := Port(env.logMedium, false, "");
        var (entry, chownError) := Regrouped(created, env);
        if chownError.Some? then Closing(None, chownError, out, err, blank, files, path, entry, footer, directory)
        else
          var b := Body(out, err, blank, header, chunks, end);
          Closing(if b.started then Some(path) else None, b.failure, b.out, b.err, b.log, files, path, entry, footer,
                  directory)
  }

  /**
   * The whole `with logging_context(command, args, enabled):` around a body
   * that writes `chunks` and then raises `end`, if anything.
   */
  function Session(out: Port, err: Port, files: map<string, FileEntry>, command: string, args: seq<string>,
                   enabled: bool, env: LogEnv, chunks: seq<Chunk>, end: Option<Failure>): SessionEnd
  {
    if !enabled then
      var run := Replay(Screens(out, err, None), chunks);
      var raised := Raised(run.error, end);
      SessionEnd(None, if raised.Some? then Err(raised.value) else Ok(()), run.screens.out, run.screens.err,
                 None, files, None)
    else
      Logged(out, err, files, LogPath(command, env.now), Header(command, args, env.facts), Footer(env.finishedAt, 0),
             env, chunks, end)
  }

  /** The interpreter state the session swaps: `sys.stdout`, `sys.stderr` and `logging.root.handlers`. */
  class Process {
    var stdout: Sink
    var stderr: Sink
    const handlers: seq<Handler>

    constructor(stdout: Sink, stderr: Sink, handlers: seq<Handler>)
      ensures this.stdout == stdout && this.stderr == stderr && this.handlers == handlers
    {
      this.stdout := stdout;
      this.stderr := stderr;
      this.handlers := handlers;
    }
  }

  /**
   * Installing the tees: `sys.stdout` and `sys.stderr` become tees of the
   * consoles into the log file, and every `StreamHandler` is pointed at the
   * stderr tee, its handler and former stream saved pairwise.
   */
  method Install(p: Process, out: Stream, err: Stream, l: Stream) returns (saved: seq<Handler>, streams: seq<Sink>)
    requires p.stdout == Plain(out) && p.stderr == Plain(err) && out != err && l != out && l != err
    requires Distinct(p.handlers)
    modifies p, p.handlers
    ensures p.stdout.Teed? && p.stdout.tee.original == out && p.stdout.tee.log == l
    ensures p.stderr.Teed? && p.stderr.tee.original == err && p.stderr.tee.log == l
    ensures saved == StreamHandlers(p.handlers) && Distinct(saved) && |streams| == |saved|
    ensures forall i :: 0 <= i < |saved| ==> streams[i] == old(saved[i].stream)
    ensures forall h :: h in p.handlers ==> h.stream == if h.isStreamHandler then p.stderr else old(h.stream)
  {
    var outTee := new TeeStream(out, l);
    var errTee := new TeeStream(err, l);
    p.stdout, p.stderr := Teed(outTee), Teed(errTee);
    saved, streams := Redirect(p.handlers, p.stderr);
  }

  /**
   * The `finally` block's first steps: each saved handler gets its saved
   * stream back, and then `sys.stdout` and `sys.stderr` their consoles.
   */
  method Uninstall(p: Process, out: Stream, err: Stream, saved: seq<Handler>, streams: seq<Sink>)
    requires Distinct(saved) && |streams| == |saved|
    requires forall i :: 0 <= i < |saved| ==> saved[i] in p.handlers
    modifies p, p.handlers
    ensures p.stdout == Plain(out) && p.stderr == Plain(err)
    ensures forall i :: 0 <= i < |saved| ==> saved[i].stream == streams[i]
    ensures forall h :: h in p.handlers && h !in saved ==> h.stream == old(h.stream)
  {
    Restore(saved, streams);
    p.stdout, p.stderr := Plain(out), Plain(err);
  }

  /**
   * The `try` block from the header on, and the restoring steps of the
   * `finally` block: write the header; install the tees; run the body; put
   * the handlers' and then the consoles' streams back.
   */
  method Capture(p: Process, out: Stream, err: Stream, l: Stream, header: string, chunks: seq<Chunk>,
                 end: Option<Failure>)
    returns (started: bool, failure: Option<Failure>)
    requires p.stdout == Plain(out) && p.stderr == Plain(err) && out != err && l != out && l != err
    requires Distinct(p.handlers)
    modifies p, out, err, l, p.handlers
    ensures p.stdout == Plain(out) && p.stderr == Plain(err)
    ensures forall h :: h in p.handlers ==> h.stream == old(h.stream)
    ensures BodyRun(started, failure, out.Now(), err.Now(), l.Now()) ==
            Body(old(out.Now()), old(err.Now()), old(l.Now()), header, chunks, end)
  {
    var written := l.Write(header);
    if written.Err? {
      return false, Some(written.error);
    }
    var _ := l.Flush();
    var saved, streams := Install(p, out, err, l);
    started := true;
    ghost var teed := ScreensOf(p.stdout, p.stderr);
    var error := RunBody(p.stdout, p.stderr, chunks);
    failure := Raised(error, end);
    assert Replay(teed, chunks) == Replayed(Screens(out.Now(), err.Now(), Some(l.Now())), error);
    Uninstall(p, out, err, saved, streams);
    forall h | h in p.handlers && h.isStreamHandler
      ensures h.stream == old(h.stream)
    {
      var i :| 0 <= i < |saved| && saved[i] == h;
    }
  }

  /** An enabled session from `_create_log_directory()` on: `Logged` as a method. */
  method LogSession(p: Process, fs: FileSystem, path: string, header: string, footer: string, env: LogEnv,
                    chunks: seq<Chunk>, end: Option<Failure>)
    returns (yielded: Option<string>, r: Result<(), Failure>, log: Option<Stream>, directory: Option<Directory>)
    requires p.stdout.Plain? && p.stderr.Plain? && p.stdout.stream != p.stderr.stream
    requires Distinct(p.handlers)
    modifies p, p.stdout.stream, p.stderr.stream, fs, p.handlers
    ensures p.stdout == old(p.stdout) && p.stderr == old(p.stderr)
    ensures forall h :: h in p.handlers ==> h.stream == old(h.stream)
    ensures log.Some? ==> fresh(log.value)
    ensures SessionEnd(yielded, r, p.stdout.stream.Now(), p.stderr.stream.Now(),
                       if log.Some? then Some(log.value.Now()) else None, fs.files, directory) ==
            Logged(old(p.stdout.stream.Now()), old(p.stderr.stream.Now()), old(fs.files), path, header, footer,
                   env, chunks, end)
  {
    var out := p.stdout.stream;
    var err := p.stderr.stream;
    yielded, log, directory := None, None, None;
    if env.dirError.Some? {
      r := Err(SnacError(ExBadEnvironment));
      return;
    }
    directory := Some(DirectoryAfter(env));
    var created := Opened(fs.files, path, env);
    if created.Err? {
      r := Err(Converted(created.error));
      return;
    }
    var l := new Stream(env.logMedium);
    log := Some(l);
    var regrouped := Regrouped(created.value, env);
    var entry := regrouped.0;
    var failure := regrouped.1;
    ghost var files := fs.files;
    ghost var b := BodyRun(false, failure, out.Now(), err.Now(), l.Now());
    if failure.None? {
      var started;
      started, failure := Capture(p, out, err, l, header, chunks, end);
      b := BodyRun(started, failure, out.Now(), err.Now(), l.Now());
      if started {
        yielded := Some(path);
      }
    }
    // the `finally` block restores the consoles, tries the footer, and does both once more
    p.stdout, p.stderr := Plain(out), Plain(err);
    WriteFooter(l, footer);
    p.stdout, p.stderr := Plain(out), Plain(err);
    WriteFooter(l, footer);
    r := if failure.Some? then Err(Converted(failure.value)) else Ok(());
    fs.files := fs.files[path := entry.(content := l.text)];
    assert SessionEnd(yielded, r, out.Now(), err.Now(), Some(l.Now()), fs.files, directory) ==
           Closing(yielded, b.failure, b.out, b.err, b.log, files, path, entry, footer, directory.value);
  }

  /**
   * `with logging_context(command, args, enabled):` around a body that writes
   * `chunks` through `sys.stdout`, `sys.stderr` and the logger, and then
   * raises `end` if that is set. Returns what the `with` yielded, what it
   * raised, the log file's stream and the directory. On every path the
   * consoles and the handlers' streams are as they were at entry, and the
   * consoles, the log file and the file system end as `Session` says.
   */
  method LoggingContext(p: Process, fs: FileSystem, command: string, args: seq<string>, enabled: bool,
                        env: LogEnv, chunks: seq<Chunk>, end: Option<Failure>)
    returns (yielded: Option<string>, r: Result<(), Failure>, log: Option<Stream>, directory: Option<Directory>)
    requires p.stdout.Plain? && p.stderr.Plain? && p.stdout.stream != p.stderr.stream
    requires Distinct(p.handlers)
    modifies p, p.stdout.stream, p.stderr.stream, fs, p.handlers
    ensures p.stdout == old(p.stdout) && p.stderr == old(p.stderr)
    ensures forall h :: h in p.handlers ==> h.stream == old(h.stream)
    ensures log.Some? ==> fresh(log.value)
    ensures SessionEnd(yielded, r, p.stdout.stream.Now(), p.stderr.stream.Now(),
                       if log.Some? then Some(log.value.Now()) else None, fs.files, directory) ==
            Session(old(p.stdout.stream.Now()), old(p.stderr.stream.Now()), old(fs.files), command, args,
                    enabled, env, chunks, end)
  {
    if !enabled {
      yielded, log, directory := None, None, None;
      var error := RunBody(p.stdout, p.stderr, chunks);
      var raised := Raised(error, end);
      r := if raised.Some? then Err(raised.value) else Ok(());
      return;
    }
    yielded, r, log, directory := LogSession(p, fs, LogPath(command, env.now), Header(command, args, env.facts),
                                             Footer(env.finishedAt, 0), env, chunks, end);
  }

  // ---------------------------------------------------------------------------
  // What a session guarantees
  // ---------------------------------------------------------------------------

  /** With logging disabled nothing is created, nothing is yielded, and the body's exception passes unchanged. */
  lemma DisabledSessionCreatesNothing(out: Port, err: Port, files: map<string, FileEntry>, command: string,
                                      args: seq<string>, env: LogEnv, chunks: seq<Chunk>, end: Option<Failure>)
    ensures var e := Session(out, err, files, command, args, false, env, chunks, end);
      var run := Replay(Screens(out, err, None), chunks);
      e.yielded == None && e.log == None && e.files == files && e.directory == None &&
      e.out == run.screens.out && e.err == run.screens.err &&
      (run.error.Some? ==> e.result == Err(run.error.value)) &&
      (run.error.None? ==> e.result == if end.Some? then Err(end.value) else Ok(()))
  {
  }

  /**
   * Set-up failures end the session before any stream is touched: a
   * directory that cannot be made exits with `EX_BAD_ENVIRONMENT`, a log file
   * that already exists with `EX_ERROR`, and any other failure to open it
   * with `EX_BAD_ENVIRONMENT`; nothing is yielded and no file is created.
   */
  lemma SetupFailureCodes(out: Port, err: Port, files: map<string, FileEntry>, command: string, args: seq<string>,
                          env: LogEnv, chunks: seq<Chunk>, end: Option<Failure>)
    requires env.dirError.Some? || LogPath(command, env.now) in files || env.openError.Some?
    requires env.openError != Some(FileExists)
    ensures var e := Session(out, err, files, command, args, true, env, chunks, end);
      e.yielded == None && e.log == None && e.files == files && e.out == out && e.err == err &&
      e.result == Err(SnacError(
        if env.dirError.None? && LogPath(command, env.now) in files then ExError else ExBadEnvironment))
  {
  }

  /** Only the session's own log file is created; every other file is left as it was. */
  lemma SessionTouchesOnlyItsLog(out: Port, err: Port, files: map<string, FileEntry>, command: string,
                                 args: seq<string>, enabled: bool, env: LogEnv, chunks: seq<Chunk>,
                                 end: Option<Failure>, q: string)
    requires q != LogPath(command, env.now)
    ensures var e := Session(out, err, files, command, args, enabled, env, chunks, end);
      (q in e.files <==> q in files) && (q in files ==> e.files[q] == files[q])
  {
  }

  /**
   * A created log file is new, has mode 0o640, belongs to group `adm` when
   * that group exists and `fchown` succeeds, and holds exactly what the log
   * stream accepted.
   */
  lemma LogFileAttributes(out: Port, err: Port, files: map<string, FileEntry>, command: string, args: seq<string>,
                          env: LogEnv, chunks: seq<Chunk>, end: Option<Failure>)
    ensures var e := Session(out, err, files, command, args, true, env, chunks, end);
      var path := LogPath(command, env.now);
      e.log.Some? ==>
        path !in files && path in e.files && e.files[path].content == e.log.value.text &&
        e.files[path].mode == LogFileMode && e.files[path].uid == 0 &&
        e.files[path].gid == (if env.admGid.Some? && env.fchownError.None? then env.admGid.value else 0) &&
        e.directory == Some(DirectoryAfter(env))
  {
  }

  /**
   * The second footer attempt of the `finally` block changes nothing: either
   * the first one closed the file, so writing raises and is swallowed, or the
   * first write was refused and the second is refused alike. A file that takes
   * the footer gains it and is closed.
   */
  lemma FooterOnce(l: Port, footer: string)
    ensures FooterAttempt(FooterAttempt(l, footer), footer) == FooterAttempt(l, footer)
    ensures Accepts(l, footer).Ok? ==> FooterAttempt(l, footer) == l.(text := l.text + footer, closed := true)
  {
  }

  /** Through the tees the log file only ever gains text. */
  lemma {:induction false} ReplayLogGrows(s: Screens, chunks: seq<Chunk>)
    requires s.log.Some?
    ensures s.log.value.text <= Replay(s, chunks).screens.log.value.text
    decreases |chunks|
  {
    if |chunks| > 0 {
      var before := Replay(s, chunks[..|chunks| - 1]);
      ReplayLogGrows(s, chunks[..|chunks| - 1]);
      if before.error.None? {
        var c := chunks[|chunks| - 1];
        var console := if c.toStderr then before.screens.err else before.screens.out;
        var t := TeeWrite(console, before.screens.log.value, c.data);
        assert before.screens.log.value.text <= t.log.text;
      }
    }
  }

  /**
   * Whatever the body does, when the session yields the log file starts with
   * the header: the header is written before the tees are installed.
   */
  lemma HeaderFirst(out: Port, err: Port, files: map<string, FileEntry>, command: string, args: seq<string>,
                    env: LogEnv, chunks: seq<Chunk>, end: Option<Failure>)
    ensures var e := Session(out, err, files, command, args, true, env, chunks, end);
      e.yielded.Some? ==>
        e.yielded == Some(LogPath(command, env.now)) && e.log.Some? &&
        Header(command, args, env.facts) <= e.log.value.text
  {
    var e := Session(out, err, files, command, args, true, env, chunks, end);
    if e.yielded.Some? {
      var header := Header(command, args, env.facts);
      var footer := Footer(env.finishedAt, 0);
      var blank := Port(env.logMedium, false, "");
      var s := Screens(out, err, Some(Written(blank, header)));
      ReplayLogGrows(s, chunks);
      var l := Replay(s, chunks).screens.log.value;
      assert header <= l.text;
      assert l.text <= FooterAttempt(l, footer).text;
      assert FooterAttempt(l, footer).text <= FooterAttempt(FooterAttempt(l, footer), footer).text;
    }
  }

  /**
   * A session where every stream has room and nothing fails: it yields the
   * log path, the consoles show exactly their own chunks, the log file holds
   * the header, every chunk in the order written and the footer with exit
   * code 0, and is closed; the session raises what the body raised, converted.
   */
  lemma HealthySession(out: Port, err: Port, files: map<string, FileEntry>, command: string, args: seq<string>,
                       env: LogEnv, chunks: seq<Chunk>, end: Option<Failure>)
    requires Roomy(out) && Roomy(err) && env.logMedium == Medium(None, None)
    requires env.dirError.None? && env.openError.None? && LogPath(command, env.now) !in files
    requires env.admGid.Some? ==> env.fchownError.None?
    ensures var e := Session(out, err, files, command, args, true, env, chunks, end);
      e.yielded == Some(LogPath(command, env.now)) &&
      e.out == out.(text := out.text + Echo(chunks, false, "")) &&
      e.err == err.(text := err.text + Echo(chunks, true, "")) &&
      e.log == Some(Port(env.logMedium, true,
                         Header(command, args, env.facts) + Captured(chunks) + Footer(env.finishedAt, 0))) &&
      e.result == (if end.Some? then Err(Converted(end.value)) else Ok(()))
  {
    var header := Header(command, args, env.facts);
    var footer := Footer(env.finishedAt, 0);
    var blank := Port(env.logMedium, false, "");
    assert Written(blank, header) == Port(env.logMedium, false, header);
    var s := Screens(out, err, Some(Written(blank, header)));
    ReplayCapturesAll(s, chunks);
    var l := Replay(s, chunks).screens.log.value;
    FooterOnce(l, footer);
  }
}
