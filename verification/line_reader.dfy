/**
 * How Rust's `BufRead::lines` cuts a byte stream into lines: each `read_line`
 * call takes the bytes up to and including the next "\n" (or everything that is
 * left); the iterator ends when a read returns no bytes; a line that ended in
 * "\n" loses it, and then also a "\r" right before it. A final segment without
 * "\n" is yielded unchanged, so a trailing "\r" stays there.
 */
module LineReader {
  import opened Prim
  import opened Utf8

  const NL: u8 := 0x0A
  const CR: u8 := 0x0D

  /** The number of bytes one `read_line` consumes from a non-empty stream. */
  function SegmentLength(s: seq<u8>): (n: nat)
    requires s != []
    ensures 1 <= n <= |s|
    ensures s[n - 1] == NL || n == |s|
    ensures NL !in s[..n - 1]
  {
    if s[0] == NL || |s| == 1 then 1
    else
      var m := SegmentLength(s[1..]);
      assert s[..m] == [s[0]] + s[1..][..m - 1];
      1 + m
  }

  function Concat(segs: seq<seq<u8>>): seq<u8> {
    if segs == [] then [] else segs[0] + Concat(segs[1..])
  }

  /** The raw segments, terminators included, that successive `read_line` calls return. */
  function Segments(s: seq<u8>): (segs: seq<seq<u8>>)
    decreases |s|
  {
    if s == [] then [] else [s[..SegmentLength(s)]] + Segments(s[SegmentLength(s)..])
  }

  /** One `read_line` call, then the calls on what it left. */
  lemma SegmentsCons(s: seq<u8>)
    requires s != []
    ensures Segments(s) == [s[..SegmentLength(s)]] + Segments(s[SegmentLength(s)..])
  {
  }

  lemma ConcatCons(seg: seq<u8>, segs: seq<seq<u8>>)
    ensures Concat([seg] + segs) == seg + Concat(segs)
  {
    assert ([seg] + segs)[1..] == segs;
  }

  /** The segments, put back together, are the whole stream. */
  lemma {:induction false} SegmentsConcat(s: seq<u8>)
    ensures Concat(Segments(s)) == s
    decreases |s|
  {
    if s != [] {
      var n := SegmentLength(s);
      SegmentsCons(s);
      SegmentsConcat(s[n..]);
      ConcatCons(s[..n], Segments(s[n..]));
      assert s == s[..n] + s[n..];
    }
  }

  /**
   * Each segment is one line: non-empty, without a newline before its last byte,
   * and every segment but the last ends in a newline.
   */
  lemma {:induction false} SegmentsAreLines(s: seq<u8>, k: nat)
    requires k < |Segments(s)|
    ensures SegmentIsLine(Segments(s)[k])
    ensures k < |Segments(s)| - 1 ==> Segments(s)[k][|Segments(s)[k]| - 1] == NL
    decreases |s|
  {
    var n := SegmentLength(s);
    assert Segments(s) == [s[..n]] + Segments(s[n..]);
    if k > 0 {
      SegmentsAreLines(s[n..], k - 1);
    } else if 1 < |Segments(s)| {
      assert s[n..] != [];
    }
  }

  /** A segment is non-empty and holds no newline before its last byte. */
  predicate SegmentIsLine(seg: seq<u8>) {
    seg != [] && NL !in seg[..|seg| - 1]
  }

  /** A raw segment with its "\n" or "\r\n" terminator removed. */
  function StripTerminator(seg: seq<u8>): seq<u8> {
    if seg != [] && seg[|seg| - 1] == NL then
      var t := seg[..|seg| - 1];
      if t != [] && t[|t| - 1] == CR then t[..|t| - 1] else t
    else seg
  }

  /**
   * Stripping removes exactly one "\n" or "\r\n" at the end of a segment, and
   * nothing from a segment that does not end in "\n".
   */
  lemma StripTerminatorRemovesTerminator(seg: seq<u8>)
    ensures var line := StripTerminator(seg);
      |line| <= |seg| && line == seg[..|line|] &&
      (seg[|line|..] == [] || seg[|line|..] == [NL] || seg[|line|..] == [CR, NL]) &&
      (seg[|line|..] == [] <==> (seg == [] || seg[|seg| - 1] != NL)) &&
      (seg[|line|..] == [CR, NL] <==> (|seg| >= 2 && seg[|seg| - 2..] == [CR, NL]))
  {
  }

  /** The lines `BufRead::lines` yields for stream `s`. */
  function Lines(s: seq<u8>): seq<seq<u8>> {
    var segs := Segments(s);
    seq(|segs|, k requires 0 <= k < |segs| => StripTerminator(segs[k]))
  }

  /** A segment holds one newline when it ends in one, and none otherwise. */
  lemma NewlinesInSegment(seg: seq<u8>)
    requires SegmentIsLine(seg)
    ensures multiset(seg)[NL] == if seg[|seg| - 1] == NL then 1 else 0
  {
    var body := seg[..|seg| - 1];
    assert seg == body + [seg[|seg| - 1]];
    assert multiset(body)[NL] == 0;
  }

  /** The newlines of a stream: those of its first segment, then those of the rest. */
  lemma NewlinesSplit(s: seq<u8>)
    requires s != []
    ensures multiset(s)[NL] ==
      (if s[SegmentLength(s) - 1] == NL then 1 else 0) + multiset(s[SegmentLength(s)..])[NL]
  {
    var n := SegmentLength(s);
    assert s == s[..n] + s[n..];
    NewlinesInSegment(s[..n]);
  }

  lemma {:induction false} SegmentsCount(s: seq<u8>)
    ensures |Segments(s)| == multiset(s)[NL] + (if s != [] && s[|s| - 1] != NL then 1 else 0)
    decreases |s|
  {
    if s != [] {
      var n := SegmentLength(s);
      SegmentsCons(s);
      SegmentsCount(s[n..]);
      NewlinesSplit(s);
      if n < |s| {
        assert s[|s| - 1] == s[n..][|s| - n - 1];
      }
    }
  }

  /**
   * A stream yields one line per newline byte, plus one for a non-empty final
   * segment that has no newline.
   */
  lemma LinesCount(s: seq<u8>)
    ensures |Lines(s)| == multiset(s)[NL] + (if s != [] && s[|s| - 1] != NL then 1 else 0)
  {
    SegmentsCount(s);
  }

  /** No yielded line contains a newline byte. */
  lemma LinesHaveNoNewline(s: seq<u8>, k: nat)
    requires k < |Lines(s)|
    ensures NL !in Lines(s)[k]
  {
    SegmentsAreLines(s, k);
    var seg := Segments(s)[k];
    var line := Lines(s)[k];
    StripTerminatorRemovesTerminator(seg);
    if |line| < |seg| {
      assert line == seg[..|seg| - 1][..|line|];
    } else {
      assert line == seg[..|seg| - 1] + [seg[|seg| - 1]];
    }
  }

  /** A line was valid UTF-8 exactly when the raw segment `read_line` checked was. */
  lemma ValidSegmentIffValidLine(seg: seq<u8>)
    ensures ValidUtf8(seg) <==> ValidUtf8(StripTerminator(seg))
  {
    var line := StripTerminator(seg);
    StripTerminatorRemovesTerminator(seg);
    var t := seg[|line|..];
    assert seg == line + t;
    assert IsAscii(t) by {
      if t == [NL] {
      } else if t == [CR, NL] {
      } else {
        assert t == [];
      }
    }
    ValidWithAsciiSuffix(line, t);
  }

  /** The stream a writer produces by emitting each of `ls` followed by "\n", then `tail`. */
  function Text(ls: seq<seq<u8>>, tail: seq<u8>): seq<u8> {
    if ls == [] then tail else ls[0] + [NL] + Text(ls[1..], tail)
  }

  lemma {:induction false} SegmentLengthOfLine(l: seq<u8>, rest: seq<u8>)
    requires NL !in l
    ensures SegmentLength(l + [NL] + rest) == |l| + 1
    decreases |l|
  {
    var s := l + [NL] + rest;
    if l != [] {
      assert s[1..] == l[1..] + [NL] + rest;
      SegmentLengthOfLine(l[1..], rest);
    }
  }

  /** Each line of `ls` with the "\n" its writer put after it. */
  function Terminated(ls: seq<seq<u8>>): seq<seq<u8>> {
    seq(|ls|, k requires 0 <= k < |ls| => ls[k] + [NL])
  }

  lemma TerminatedCons(ls: seq<seq<u8>>)
    requires ls != []
    ensures Terminated(ls) == [ls[0] + [NL]] + Terminated(ls[1..])
  {
  }

  lemma {:induction false} SegmentsOfText(ls: seq<seq<u8>>, tail: seq<u8>)
    requires forall k :: 0 <= k < |ls| ==> NL !in ls[k]
    requires NL !in tail
    ensures Segments(Text(ls, tail)) == Terminated(ls) + (if tail == [] then [] else [tail])
  {
    if ls == [] {
      if tail != [] {
        assert SegmentLength(tail) == |tail|;
        assert tail[..|tail|] == tail && tail[|tail|..] == [];
      }
    } else {
      var s := Text(ls, tail);
      var rest := Text(ls[1..], tail);
      assert s == ls[0] + [NL] + rest;
      var n := |ls[0]| + 1;
      SegmentLengthOfLine(ls[0], rest);
      assert s[..n] == ls[0] + [NL];
      assert s[n..] == rest;
      SegmentsCons(s);
      SegmentsOfText(ls[1..], tail);
      TerminatedCons(ls);
      var t: seq<seq<u8>> := if tail == [] then [] else [tail];
      assert [s[..n]] + (Terminated(ls[1..]) + t) == ([ls[0] + [NL]] + Terminated(ls[1..])) + t;
    }
  }

  lemma StripTerminated(l: seq<u8>)
    requires l == [] || l[|l| - 1] != CR
    ensures StripTerminator(l + [NL]) == l
  {
    assert (l + [NL])[..|l|] == l;
  }

  /** The `k`-th line read back from a written stream is the `k`-th line written. */
  lemma LineOfText(ls: seq<seq<u8>>, tail: seq<u8>, k: nat)
    requires forall j :: 0 <= j < |ls| ==> NL !in ls[j]
    requires NL !in tail
    requires Segments(Text(ls, tail)) == Terminated(ls) + (if tail == [] then [] else [tail])
    requires k < |ls| ==> ls[k] == [] || ls[k][|ls[k]| - 1] != CR
    requires k < |Lines(Text(ls, tail))|
    ensures Lines(Text(ls, tail))[k] == (ls + (if tail == [] then [] else [tail]))[k]
  {
    if k < |ls| {
      StripTerminated(ls[k]);
    }
  }

  /**
   * Round trip: a stream written as lines (none holding "\n", none ending in "\r")
   * followed by an unterminated tail without "\n" reads back as exactly those
   * lines, plus the tail, unchanged, when it is non-empty.
   */
  lemma LinesOfText(ls: seq<seq<u8>>, tail: seq<u8>)
    requires forall k :: 0 <= k < |ls| ==> NL !in ls[k] && (ls[k] == [] || ls[k][|ls[k]| - 1] != CR)
    requires NL !in tail
    ensures Lines(Text(ls, tail)) == ls + (if tail == [] then [] else [tail])
  {
    SegmentsOfText(ls, tail);
    var lines := Lines(Text(ls, tail));
    var want := ls + (if tail == [] then [] else [tail]);
    assert |lines| == |want|;
    forall k | 0 <= k < |lines|
      ensures lines[k] == want[k]
    {
      LineOfText(ls, tail, k);
    }
  }
}
