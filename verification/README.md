# bin-wrapper, modelled in Dafny

bin-wrapper runs a command as a child process. It can pass the child's stdout
and stderr straight through, or capture them and re-emit every line through
its logger: stdout lines at `info`, stderr lines at `error`. It can also refuse
to run, with exit code 0, depending on whether an environment variable is set.
When the child finishes, the wrapper exits with the child's exit code.

This project models the decision and transformation rules of `src/main.rs` and
`src/logger.rs`, with the operating system turned into inputs:

- whether the wrapper's stdout is a terminal (`atty::is(Stream::Stdout)`) is a `bool`;
- the environment is a `map<string, string>`;
- the child is a `Child` value: whether it can be started, the bytes it writes
  on stdout and on stderr, and its final `ExitStatus`.

Files:

- `prim.dfy` (module `Prim`): Rust's `u8`, `u32`, `i32` and `u64` as newtypes.
- `wrappers.dfy` (module `Wrappers`): `Option`.
- `utf8.dfy` (module `Utf8`): well-formed UTF-8 as Rust's `str::from_utf8`
  accepts it (Table 3-7 of the Unicode Standard). Only validity is modelled.
- `line_reader.dfy` (module `LineReader`): how `BufRead::lines` cuts a byte
  stream into lines.
- `logger.dfy` (module `Logger`): the verbosity-to-threshold `match` and the
  `filter_level` predicate of slog.
- `main.dfy` (module `Main`): `Mode` and `pipe`, the two environment gates,
  `capture` (a method with a loop that appends one record per line), the
  exit-status mapping, and `main` as the method `Run`.

How `main` ends (`Main.Run`): the barrier is built for `n_workers + 1 = 3`
parties (src/main.rs:152). Only a drainer that reads its stream to the end
reaches `barrier.wait()`. A drainer whose `line.unwrap()` panics kills only its
pool thread. So `main` gets past `barrier.wait()` (src/main.rs:187) only when
both streams are piped and both contain nothing but UTF-8. In every other
spawned case the model's outcome is `BlockedAtBarrier`; this includes the
default `--stdout Proxy --stderr Proxy`. A panic of the main thread (`Panic`)
ends the process with status 101, which a child could also have returned. The
comments at src/main.rs:151 and src/main.rs:186 say the barrier waits for the
jobs in the pool, which suggests that with no drainers the wrapper would only
wait for the child; the model follows the code and blocks. Any child status
other than `Exited` reaches the `panic!()` at src/main.rs:203
(`Panic(AbnormalStatus)`, status 101).

## Model

| member | source | states |
|---|---|---|
| `Main.RedirectionFor` | src/main.rs:93-105 | A stream is piped exactly when its mode is `Capture`, or `CaptureFormachines` while stdout is not a terminal; `Proxy` always inherits |
| `Main.CaptureFormachinesFollowsTerminal` | src/main.rs:97-103 | `CaptureFormachines` resolves like `Capture` off a terminal and like `Proxy` on one |
| `Main.ProcessSkipIfEnv` | src/main.rs:64-76 | Ends with code 0 exactly when a name is given and that variable is present; otherwise execution resumes |
| `Main.ProcessResumeIfEnv` | src/main.rs:78-90 | Ends with code 0 exactly when a name is given and that variable is absent; otherwise execution resumes |
| `Main.ProcessGates` | src/main.rs:129-130 | Skip then resume: execution resumes iff neither gate fires, the only other result is exit 0, and when the skip gate fires its result is final |
| `Main.LevelFor` | src/main.rs:116-119 | Stdout lines are logged at `Info`, stderr lines at `Error`, and no other level is used |
| `Main.Captured` | src/main.rs:112-120 | The records of a capture: one per line, in stream order, carrying the line's text and the stream's level, stopping before the first line that is not UTF-8; all lines are logged iff all are valid |
| `Main.CaptureStream` | src/main.rs:112-120 | The line-by-line loop produces exactly `Captured`, and the drainer panics iff some line is not valid UTF-8 |
| `Main.DrainCompleteness` | src/main.rs:116-119 | A child writing N valid UTF-8 lines, each followed by `\n`, none holding `\n` and none ending in `\r`, optionally followed by an unterminated valid tail without `\n`, gets exactly those lines (and the tail when non-empty) logged, in order and unchanged, when there is at least one `-v`, and none without `-v` |
| `Main.AsI32` | src/main.rs:202 | `a as i32` keeps the 32 bits: the result is congruent to `a` modulo 2^32 and equals `a` below 2^31 |
| `Main.ExitCodeOf` | src/main.rs:201-204 | `Exited(a)` gives exit code `a` (as `i32`); every other status panics, and never becomes a substituted code |
| `Main.Run` | src/main.rs:122-205 | Gates run first, and a firing gate exits 0 with nothing spawned or logged; otherwise each stream's redirection handed to `Popen` is `pipe` of its mode with stdout's terminal flag; an empty command or a child that cannot start panics with nothing spawned; a drainer runs exactly for each stream redirected to `Pipe`; each log is that stream's filtered capture; the child's exit code is reached only if both drainers ran to end of stream, else `main` blocks at the barrier |
| `Logger.MinLogLevel` | src/logger.rs:8-12 | Verbosity 0 lets only `Critical` through, 1 everything but `Trace`, 2 or more everything |
| `Logger.MinLogLevelMonotone` | src/logger.rs:8-12 | More verbosity never makes the threshold stricter |
| `Logger.FilterLevel` | src/logger.rs:18 | Keeps only records at least as severe as the threshold, keeps every such record that occurs, never lengthens the input, and returns all of it when all pass |
| `Logger.FilterLevelCounts` | src/logger.rs:18 | Each passing record is kept as many times as it occurs in the input, and each other record not at all |
| `Logger.FilterLevelConcat` | src/logger.rs:18 | The filter works record by record: filtering a concatenation is the concatenation of the filtered parts, so input order is kept |
| `Logger.CapturedLevelsAtVerbosity` | src/logger.rs:8-18 | `Info`/`Error` records are all suppressed at verbosity 0 and all pass at verbosity 1 or more |
| `LineReader.SegmentLength` | src/main.rs:114-116 | One `read_line` takes the bytes up to and including the first newline, or everything left |
| `LineReader.SegmentsConcat` | src/main.rs:114-116 | The raw segments the successive `read_line` calls return, put back together, are the whole stream |
| `LineReader.SegmentsAreLines` | src/main.rs:114-116 | Every raw segment is non-empty, holds no newline before its last byte, and all but the last end in a newline |
| `LineReader.StripTerminatorRemovesTerminator` | src/main.rs:116 | A line is its segment minus exactly one trailing `\n` or `\r\n`; a segment without a final `\n` is kept whole, `\r` included |
| `LineReader.LinesHaveNoNewline` | src/main.rs:116 | No yielded line contains a newline byte |
| `LineReader.LinesCount` | src/main.rs:114-116 | A stream yields one line per newline byte, plus one when it is non-empty and its last byte is not a newline |
| `LineReader.LinesOfText` | src/main.rs:116 | Round trip: lines written each with `\n`, followed by an unterminated tail, read back as exactly those lines plus the tail when it is non-empty |
| `LineReader.ValidSegmentIffValidLine` | src/main.rs:116-118 | A raw segment is valid UTF-8 iff its stripped line is, so the check `read_line` makes is the check on the logged text |
| `Utf8.ValidWithAsciiSuffix` | src/main.rs:117-118 | Appending ASCII bytes to a byte string neither makes nor breaks its UTF-8 validity |

## Left out

- Process creation with `Popen` (src/main.rs:138-146) is an input flag, `Child.starts`; an empty command is treated as a child that cannot start, since `Popen` rejects an empty argument list and the `unwrap` at src/main.rs:146 then panics. Stdin inheritance and argument passing are not modelled. Of `Cli.command` only whether it is empty is used.
- The thread pool and the barrier as concurrency (src/main.rs:148-187): `Run` runs the two drainers one after the other. It keeps a separate log per stream, because the order of lines between stdout and stderr depends on timing. Only the count of parties that reach the barrier is modelled.
- `Instant` timings and the duration values (src/main.rs:123, 136, 184, 190): these are wall-clock values.
- `args.command.join(" ")` (src/main.rs:132) and the `trace!`/`debug!` messages of `main` and of the gates: log text only.
- Argument parsing with structopt (src/main.rs:23-62), including case-insensitive mode names: `Cli` is the already-parsed value.
- The construction of the slog terminal and async drains (src/logger.rs:15-17) and record formatting. Only the level threshold and the filter are modelled. The async drain's buffering and overflow behaviour are not: "logged" in the `Main.Captured`, `Main.DrainCompleteness` and `Main.Run` rows means handed to the async drain, not printed. `std::process::exit` at src/main.rs:201 runs no destructors, so records still queued in the drain are lost, and the drain's overflow strategy can drop records as well.
- `Main.Run`: a stream redirected to `None` (inherited, under `Proxy`) sends the child's bytes straight to the wrapper's own stdout or stderr; the report records the redirection but not those bytes.
- `Main.ProcessSkipIfEnv`, `Main.ProcessResumeIfEnv`: `env::var` also fails for a variable whose value is not valid Unicode. With the environment as `map<string, string>`, every present variable counts as set.
- `Main.CaptureStream`: read errors on the pipe other than invalid UTF-8 are not modelled. They would also end in the `unwrap` panic.
- `Main.ExitCodeOf`: the operating system's truncation of the value passed to `exit` (to its low 8 bits on Unix) is not modelled. A failing `p.wait()` is not modelled either.
- UTF-8 decoding into characters: a logged line keeps its bytes, which are the UTF-8 text the original would log.
