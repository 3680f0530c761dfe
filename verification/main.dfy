/**
 * The wrapper of src/main.rs with its OS calls turned into inputs: whether the
 * wrapper's stdout is a terminal, the environment, and what the child does
 * (whether it can be started, the bytes it writes on each stream, how it ends).
 */
module Main {
  import opened Prim
  import Wrappers
  import opened Utf8
  import opened LineReader
  import opened Logger

  // ---------------------------------------------------------------- redirection

  /** The `--stdout` / `--stderr` mode. */
  datatype Mode = Capture | Proxy | CaptureFormachines

  /** subprocess's `Redirection`, as far as it is used: `None` inherits the wrapper's stream. */
  datatype Redirection = None | Pipe

  /**
   * `pipe`: the redirection for a stream given its mode. The terminal test is
   * always on the wrapper's stdout, whichever stream is being resolved.
   */
  function RedirectionFor(mode: Mode, stdoutIsTty: bool): (r: Redirection)
    ensures r == Pipe <==> mode == Capture || (mode == CaptureFormachines && !stdoutIsTty)
    ensures mode == Proxy ==> r == None
  {
    match mode
    case Proxy => None
    case Capture => Pipe
    case CaptureFormachines => if stdoutIsTty then None else Pipe
  }

  /** Off a terminal `CaptureFormachines` is `Capture`; on one it is `Proxy`. */
  lemma CaptureFormachinesFollowsTerminal(stdoutIsTty: bool)
    ensures RedirectionFor(CaptureFormachines, stdoutIsTty) ==
      RedirectionFor(if stdoutIsTty then Proxy else Capture, stdoutIsTty)
  {
  }

  // ---------------------------------------------------------------------- gates

  /** The process environment; only the presence of a name matters here. */
  type Env = map<string, string>

  /** What a gate decides: go on, or end the wrapper with `exit(code)`. */
  datatype Gate = Resume | EndExecution(code: i32)

  /** `process_skip_if_env`: end with code 0 when the named variable is set. */
  function ProcessSkipIfEnv(skipIfEnv: Wrappers.Option<string>, env: Env): (g: Gate)
    ensures g == Resume || g == EndExecution(0)
    ensures g.EndExecution? <==> skipIfEnv.Some? && skipIfEnv.value in env
  {
    match skipIfEnv
    case Some(name) => if name in env then EndExecution(0) else Resume
    case None => Resume
  }

  /** `process_resume_if_env`: end with code 0 when the named variable is not set. */
  function ProcessResumeIfEnv(resumeIfEnv: Wrappers.Option<string>, env: Env): (g: Gate)
    ensures g == Resume || g == EndExecution(0)
    ensures g.EndExecution? <==> resumeIfEnv.Some? && resumeIfEnv.value !in env
  {
    match resumeIfEnv
    case Some(name) => if name !in env then EndExecution(0) else Resume
    case None => Resume
  }

  /** The two gates in the order `main` runs them: skip first, then resume. */
  function ProcessGates(skipIfEnv: Wrappers.Option<string>, resumeIfEnv: Wrappers.Option<string>, env: Env): (g: Gate)
    ensures g == Resume || g == EndExecution(0)
    ensures g == Resume <==>
      (skipIfEnv.None? || skipIfEnv.value !in env) && (resumeIfEnv.None? || resumeIfEnv.value in env)
    ensures ProcessSkipIfEnv(skipIfEnv, env).EndExecution? ==> g == ProcessSkipIfEnv(skipIfEnv, env)
  {
    var skip := ProcessSkipIfEnv(skipIfEnv, env);
    if skip.EndExecution? then skip else ProcessResumeIfEnv(resumeIfEnv, env)
  }

  // -------------------------------------------------------------------- capture

  /** Which of the child's streams a drainer reads. */
  datatype CaptureDataType = Stdout | Stderr

  /** The level `capture` logs a line at. */
  function LevelFor(kind: CaptureDataType): (l: Level)
    ensures l == Info <==> kind == Stdout
    ensures l == Error <==> kind == Stderr
  {
    match kind
    case Stdout => Info
    case Stderr => Error
  }

  /** How a drainer ends: at end of stream, or by the panic of `line.unwrap()`. */
  datatype Drain = ReachedEof | Panicked

  /** The number of leading lines that are valid UTF-8. */
  function ValidPrefixLength(lines: seq<seq<u8>>): (n: nat)
    ensures n <= |lines|
    ensures forall k :: 0 <= k < n ==> ValidUtf8(lines[k])
    ensures n < |lines| ==> !ValidUtf8(lines[n])
  {
    if lines == [] || !ValidUtf8(lines[0]) then 0 else 1 + ValidPrefixLength(lines[1..])
  }

  function Tagged(lines: seq<seq<u8>>, level: Level): seq<Record> {
    seq(|lines|, k requires 0 <= k < |lines| => Record(level, lines[k]))
  }

  /** Every line of the stream is valid UTF-8, so its drainer reaches end of stream. */
  predicate AllValidUtf8(stream: seq<u8>) {
    forall k :: 0 <= k < |Lines(stream)| ==> ValidUtf8(Lines(stream)[k])
  }

  /**
   * The records `capture` logs for a stream: one per line, in stream order, the
   * line's text at the stream's level, up to the first line that is not UTF-8.
   */
  function Captured(stream: seq<u8>, kind: CaptureDataType): (records: seq<Record>)
    ensures |records| <= |Lines(stream)|
    ensures forall k :: 0 <= k < |records| ==>
      records[k] == Record(LevelFor(kind), Lines(stream)[k]) && ValidUtf8(Lines(stream)[k])
    ensures |records| < |Lines(stream)| ==> !ValidUtf8(Lines(stream)[|records|])
    ensures |records| == |Lines(stream)| <==> AllValidUtf8(stream)
  {
    var lines := Lines(stream);
    Tagged(lines[..ValidPrefixLength(lines)], LevelFor(kind))
  }

  /** One `read_line` on what is left of the stream returns its next segment. */
  lemma NextSegment(stream: seq<u8>, rest: seq<u8>, i: nat)
    requires rest != [] && i <= |Segments(stream)| && Segments(rest) == Segments(stream)[i..]
    ensures i < |Segments(stream)|
    ensures Segments(stream)[i] == rest[..SegmentLength(rest)]
    ensures Segments(rest[SegmentLength(rest)..]) == Segments(stream)[i + 1..]
  {
    var n := SegmentLength(rest);
    assert Segments(rest) == [rest[..n]] + Segments(rest[n..]);
  }

  /**
   * Once the first invalid segment, or the end, is found at `i`, the records
   * logged so far are the capture, and the stream was all valid iff the end
   * was reached.
   */
  lemma CapturedUpTo(stream: seq<u8>, kind: CaptureDataType, records: seq<Record>, i: nat)
    requires i <= |Segments(stream)|
    requires forall k :: 0 <= k < i ==> ValidUtf8(Segments(stream)[k])
    requires i < |Segments(stream)| ==> !ValidUtf8(Segments(stream)[i])
    requires |records| == i
    requires forall k :: 0 <= k < i ==> records[k] == Record(LevelFor(kind), StripTerminator(Segments(stream)[k]))
    ensures records == Captured(stream, kind)
    ensures AllValidUtf8(stream) <==> i == |Segments(stream)|
  {
    var segs := Segments(stream);
    var lines := Lines(stream);
    forall k | 0 <= k < |segs|
      ensures lines[k] == StripTerminator(segs[k])
      ensures ValidUtf8(segs[k]) <==> ValidUtf8(lines[k])
    {
      ValidSegmentIffValidLine(segs[k]);
    }
    assert ValidPrefixLength(lines) == i;
    assert records == Tagged(lines[..i], LevelFor(kind));
  }

  /**
   * `capture`: read the stream line by line and log each line, until end of
   * stream or until a line fails to decode, which panics the drainer.
   */
  method CaptureStream(stream: seq<u8>, kind: CaptureDataType) returns (records: seq<Record>, drain: Drain)
    ensures records == Captured(stream, kind)
    ensures drain == ReachedEof <==> AllValidUtf8(stream)
  {
    ghost var segments := Segments(stream);
    var level := LevelFor(kind);
    var rest := stream;
    records := [];
    ghost var i := 0;
    while rest != []
      invariant i <= |segments|
      invariant Segments(rest) == segments[i..]
      invariant forall k :: 0 <= k < i ==> ValidUtf8(segments[k])
      invariant |records| == i
      invariant forall k :: 0 <= k < i ==> records[k] == Record(level, StripTerminator(segments[k]))
      decreases |rest|
    {
      var n := SegmentLength(rest);
      var segment := rest[..n];
      NextSegment(stream, rest, i);
      if !ValidUtf8(segment) {
        CapturedUpTo(stream, kind, records, i);
        drain := Panicked;
        return;
      }
      records := records + [Record(level, StripTerminator(segment))];
      rest := rest[n..];
      i := i + 1;
    }
    CapturedUpTo(stream, kind, records, i);
    drain := ReachedEof;
  }

  /** What reaches the log from a captured stream, after the level filter. */
  function Emitted(stream: seq<u8>, kind: CaptureDataType, verbosity: u64): seq<Record> {
    FilterLevel(Captured(stream, kind), MinLogLevel(verbosity))
  }

  /**
   * A child that writes the lines `ls`, each followed by "\n", then `tail`, all
   * valid UTF-8: with at least one `-v` exactly those lines are logged, in order,
   * at the stream's level; without `-v` none is.
   */
  lemma DrainCompleteness(ls: seq<seq<u8>>, tail: seq<u8>, kind: CaptureDataType, verbosity: u64)
    requires forall k :: 0 <= k < |ls| ==> NL !in ls[k] && (ls[k] == [] || ls[k][|ls[k]| - 1] != CR)
    requires NL !in tail
    requires forall k :: 0 <= k < |ls| ==> ValidUtf8(ls[k])
    requires ValidUtf8(tail)
    ensures verbosity >= 1 ==>
      Emitted(Text(ls, tail), kind, verbosity) == Tagged(ls + (if tail == [] then [] else [tail]), LevelFor(kind))
    ensures verbosity == 0 ==> Emitted(Text(ls, tail), kind, verbosity) == []
  {
    var stream := Text(ls, tail);
    var want := ls + (if tail == [] then [] else [tail]);
    LinesOfText(ls, tail);
    assert forall k :: 0 <= k < |want| ==> ValidUtf8(want[k]);
    var records := Captured(stream, kind);
    assert |records| == |want|;
    assert records == Tagged(want, LevelFor(kind));
    CapturedLevelsAtVerbosity(records, verbosity);
  }

  // ---------------------------------------------------------------- exit status

  /** subprocess's `ExitStatus`. */
  datatype ExitStatus = Exited(code: u32) | Signaled(signal: u8) | Other(raw: i32) | Undetermined

  /** Rust's `a as i32` on a `u32`: the same 32 bits read as two's complement. */
  function AsI32(a: u32): (r: i32)
    ensures (r as int) % 0x1_0000_0000 == a as int
    ensures a < 0x8000_0000 ==> r as int == a as int
  {
    if a < 0x8000_0000 then a as int as i32 else (a as int - 0x1_0000_0000) as i32
  }

  /** Why the wrapper's main thread panics. */
  datatype Fault = SpawnFailed | AbnormalStatus

  /**
   * How the wrapper ends: `exit(code)`, a panic, or waiting forever at the
   * barrier. A panic of the main thread ends the process with status 101.
   */
  datatype Outcome = ProcessExit(code: i32) | Panic(fault: Fault) | BlockedAtBarrier

  /** The final `match p.exit_status().unwrap()`: the child's own code, or a panic. */
  function ExitCodeOf(status: ExitStatus): (o: Outcome)
    ensures o.ProcessExit? <==> status.Exited?
    ensures status.Exited? ==> (o.code as int) % 0x1_0000_0000 == status.code as int
    ensures status.Exited? && status.code < 0x8000_0000 ==> o.code as int == status.code as int
    ensures !status.Exited? ==> o == Panic(AbnormalStatus)
  {
    match status
    case Exited(a) => ProcessExit(AsI32(a))
    case _ => Panic(AbnormalStatus)
  }

  // ----------------------------------------------------------------------- main

  /** The parsed command line. */
  datatype Cli = Cli(
    stdout: Mode,
    stderr: Mode,
    skipIfEnv: Wrappers.Option<string>,
    resumeIfEnv: Wrappers.Option<string>,
    verbose: u64,
    command: seq<string>)

  /**
   * The child as the wrapper observes it. `starts` says whether the executable
   * can be found and started; an empty command never starts.
   */
  datatype Child = Child(starts: bool, stdoutBytes: seq<u8>, stderrBytes: seq<u8>, status: ExitStatus)

  /**
   * What one run of `main` does: the redirections it handed to `Popen` (`None`
   * when a gate ended the run first), whether the child was spawned, which
   * drainers it started, what each drainer got through the level filter, and
   * how it ended.
   */
  datatype Report = Report(
    outcome: Outcome,
    stdoutRedirection: Redirection,
    stderrRedirection: Redirection,
    spawned: bool,
    stdoutDrainer: bool,
    stderrDrainer: bool,
    stdoutLog: seq<Record>,
    stderrLog: seq<Record>)

  /** The thread pool size; the barrier waits for this many workers plus `main`. */
  const N_WORKERS: nat := 2

  /**
   * `main`, step by step: gates, spawn, one drainer per piped stream, wait for
   * the child, wait at the barrier, exit with the child's code. Only a drainer
   * that reaches end of stream arrives at the barrier.
   */
  method Run(args: Cli, env: Env, stdoutIsTty: bool, child: Child) returns (report: Report)
    ensures ProcessGates(args.skipIfEnv, args.resumeIfEnv, env).EndExecution? ==>
      report == Report(ProcessExit(0), None, None, false, false, false, [], [])
    ensures ProcessGates(args.skipIfEnv, args.resumeIfEnv, env).Resume? ==>
      report.stdoutRedirection == RedirectionFor(args.stdout, stdoutIsTty) &&
      report.stderrRedirection == RedirectionFor(args.stderr, stdoutIsTty)
    ensures report.spawned <==>
      ProcessGates(args.skipIfEnv, args.resumeIfEnv, env).Resume? && args.command != [] && child.starts
    ensures ProcessGates(args.skipIfEnv, args.resumeIfEnv, env).Resume? && !report.spawned ==>
      report.outcome == Panic(SpawnFailed)
    ensures report.stdoutDrainer <==> report.spawned && report.stdoutRedirection == Pipe
    ensures report.stderrDrainer <==> report.spawned && report.stderrRedirection == Pipe
    ensures report.stdoutLog == if report.stdoutDrainer then Emitted(child.stdoutBytes, Stdout, args.verbose) else []
    ensures report.stderrLog == if report.stderrDrainer then Emitted(child.stderrBytes, Stderr, args.verbose) else []
    ensures report.spawned ==>
      report.outcome == (
        if report.stdoutDrainer && report.stderrDrainer
           && AllValidUtf8(child.stdoutBytes) && AllValidUtf8(child.stderrBytes)
        then ExitCodeOf(child.status)
        else BlockedAtBarrier)
  {
    var threshold := MinLogLevel(args.verbose);

    var gate := ProcessSkipIfEnv(args.skipIfEnv, env);
    if gate.EndExecution? {
      return Report(ProcessExit(gate.code), None, None, false, false, false, [], []);
    }
    gate := ProcessResumeIfEnv(args.resumeIfEnv, env);
    if gate.EndExecution? {
      return Report(ProcessExit(gate.code), None, None, false, false, false, [], []);
    }

    var stdoutRedirection := RedirectionFor(args.stdout, stdoutIsTty);
    var stderrRedirection := RedirectionFor(args.stderr, stdoutIsTty);
    if args.command == [] || !child.starts {
      return Report(Panic(SpawnFailed), stdoutRedirection, stderrRedirection, false, false, false, [], []);
    }

    var arrivals := 1;
    var stdoutLog: seq<Record> := [];
    var stderrLog: seq<Record> := [];
    if stdoutRedirection == Pipe {
      var records, drain := CaptureStream(child.stdoutBytes, Stdout);
      stdoutLog := FilterLevel(records, threshold);
      if drain == ReachedEof {
        arrivals := arrivals + 1;
      }
    }
    if stderrRedirection == Pipe {
      var records, drain := CaptureStream(child.stderrBytes, Stderr);
      stderrLog := FilterLevel(records, threshold);
      if drain == ReachedEof {
        arrivals := arrivals + 1;
      }
    }

    var outcome := if arrivals >= N_WORKERS + 1 then ExitCodeOf(child.status) else BlockedAtBarrier;
    report := Report(outcome, stdoutRedirection, stderrRedirection, true, stdoutRedirection == Pipe, stderrRedirection == Pipe, stdoutLog, stderrLog);
  }
}
