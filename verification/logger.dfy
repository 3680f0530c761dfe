/**
 * The logging threshold of src/logger.rs: the number of `-v` flags picks a
 * minimum level, and the root drain passes on only the records at least that
 * severe (slog's `filter_level`). Levels carry slog's numbering, where a
 * smaller number is more severe.
 */
module Logger {
  import opened Prim

  datatype Level = Critical | Error | Warning | Info | Debug | Trace

  /** slog's `Level::as_usize`. */
  function AsUsize(l: Level): nat {
    match l
    case Critical => 1
    case Error => 2
    case Warning => 3
    case Info => 4
    case Debug => 5
    case Trace => 6
  }

  /** slog's `Level::is_at_least`: `l` is at least as severe as `threshold`. */
  predicate IsAtLeast(l: Level, threshold: Level) {
    AsUsize(l) <= AsUsize(threshold)
  }

  /** One log record: its level and the bytes of its message. */
  datatype Record = Record(level: Level, text: seq<u8>)

  /**
   * The `min_log_level` chosen for a verbosity count: without `-v` only
   * critical records pass, with one `-v` everything but trace records pass,
   * with two or more every record passes.
   */
  function MinLogLevel(verbosity: u64): (threshold: Level)
    ensures forall l :: IsAtLeast(l, threshold) <==>
      l == Critical || verbosity >= 2 || (verbosity == 1 && l != Trace)
  {
    match verbosity
    case 0 => Critical
    case 1 => Debug
    case _ => Trace
  }

  /** More `-v` flags never make the threshold stricter. */
  lemma MinLogLevelMonotone(v: u64, w: u64)
    requires v <= w
    ensures forall l :: IsAtLeast(l, MinLogLevel(v)) ==> IsAtLeast(l, MinLogLevel(w))
  {
  }

  /** The records that `drain.filter_level(threshold)` lets through, in order. */
  function FilterLevel(records: seq<Record>, threshold: Level): (kept: seq<Record>)
    ensures |kept| <= |records|
    ensures forall k :: 0 <= k < |kept| ==> IsAtLeast(kept[k].level, threshold)
    ensures forall r :: r in kept <==> r in records && IsAtLeast(r.level, threshold)
    ensures (forall k :: 0 <= k < |records| ==> IsAtLeast(records[k].level, threshold)) ==> kept == records
  {
    if records == [] then []
    else if IsAtLeast(records[0].level, threshold) then [records[0]] + FilterLevel(records[1..], threshold)
    else FilterLevel(records[1..], threshold)
  }

  /**
   * Each record that passes is kept as many times as it occurs, and every other
   * record is dropped.
   */
  lemma {:induction false} FilterLevelCounts(records: seq<Record>, threshold: Level, r: Record)
    ensures multiset(FilterLevel(records, threshold))[r] ==
      if IsAtLeast(r.level, threshold) then multiset(records)[r] else 0
  {
    if records != [] {
      var head, tail := records[0], records[1..];
      assert records == [head] + tail;
      assert multiset(records) == multiset{head} + multiset(tail);
      FilterLevelCounts(tail, threshold, r);
      if IsAtLeast(head.level, threshold) {
        assert FilterLevel(records, threshold) == [head] + FilterLevel(tail, threshold);
        assert multiset(FilterLevel(records, threshold)) == multiset{head} + multiset(FilterLevel(tail, threshold));
      } else {
        assert FilterLevel(records, threshold) == FilterLevel(tail, threshold);
      }
    }
  }

  /** Filtering works record by record: it commutes with concatenation. */
  lemma {:induction false} FilterLevelConcat(a: seq<Record>, b: seq<Record>, threshold: Level)
    ensures FilterLevel(a + b, threshold) == FilterLevel(a, threshold) + FilterLevel(b, threshold)
  {
    if a == [] {
      assert a + b == b;
    } else {
      assert (a + b)[1..] == a[1..] + b;
      FilterLevelConcat(a[1..], b, threshold);
    }
  }

  /**
   * Captured output is logged at `Info` (stdout) or `Error` (stderr): all of it
   * is suppressed without `-v` and all of it passes with one or more.
   */
  lemma CapturedLevelsAtVerbosity(records: seq<Record>, verbosity: u64)
    requires forall k :: 0 <= k < |records| ==> records[k].level in {Info, Error}
    ensures verbosity == 0 ==> FilterLevel(records, MinLogLevel(verbosity)) == []
    ensures verbosity >= 1 ==> FilterLevel(records, MinLogLevel(verbosity)) == records
  {
  }
}
