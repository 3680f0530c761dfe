/**
 * Well-formed UTF-8, as Rust's `str::from_utf8` accepts it (the byte ranges of
 * Table 3-7 of the Unicode Standard: no overlong forms, no surrogates, nothing
 * above U+10FFFF). Only validity is modelled, not decoding: a captured line keeps
 * its bytes, which are the UTF-8 encoding of the text Rust would have produced.
 */
module Utf8 {
  import opened Prim

  predicate IsContinuation(b: u8) {
    0x80 <= b <= 0xBF
  }

  predicate IsAscii(s: seq<u8>) {
    forall i :: 0 <= i < |s| ==> s[i] < 0x80
  }

  /** The length of the well-formed character at the head of `s`, or 0 if there is none. */
  function CharWidth(s: seq<u8>): (w: nat)
    requires s != []
    ensures w <= 4 && w <= |s|
    ensures w == 1 <==> s[0] < 0x80
    ensures forall i :: 1 <= i < w ==> 0x80 <= s[i] <= 0xBF
  {
    var b0 := s[0];
    if b0 < 0x80 then 1
    else if 0xC2 <= b0 <= 0xDF then
      if 2 <= |s| && IsContinuation(s[1]) then 2 else 0
    else if b0 == 0xE0 then
      if 3 <= |s| && 0xA0 <= s[1] <= 0xBF && IsContinuation(s[2]) then 3 else 0
    else if 0xE1 <= b0 <= 0xEC || 0xEE <= b0 <= 0xEF then
      if 3 <= |s| && IsContinuation(s[1]) && IsContinuation(s[2]) then 3 else 0
    else if b0 == 0xED then
      if 3 <= |s| && 0x80 <= s[1] <= 0x9F && IsContinuation(s[2]) then 3 else 0
    else if b0 == 0xF0 then
      if 4 <= |s| && 0x90 <= s[1] <= 0xBF && IsContinuation(s[2]) && IsContinuation(s[3]) then 4 else 0
    else if 0xF1 <= b0 <= 0xF3 then
      if 4 <= |s| && IsContinuation(s[1]) && IsContinuation(s[2]) && IsContinuation(s[3]) then 4 else 0
    else if b0 == 0xF4 then
      if 4 <= |s| && 0x80 <= s[1] <= 0x8F && IsContinuation(s[2]) && IsContinuation(s[3]) then 4 else 0
    else 0
  }

  /** `s` is a sequence of well-formed UTF-8 characters. */
  predicate ValidUtf8(s: seq<u8>)
    decreases |s|
  {
    s == [] || (CharWidth(s) > 0 && ValidUtf8(s[CharWidth(s)..]))
  }

  /** Appending ASCII bytes cannot change the width of the leading character. */
  lemma CharWidthAsciiSuffix(a: seq<u8>, t: seq<u8>)
    requires a != [] && IsAscii(t)
    ensures CharWidth(a + t) == CharWidth(a)
  {
    var s := a + t;
    assert forall i :: 0 <= i < |a| ==> s[i] == a[i];
    if |a| < 4 && |t| > 0 {
      assert s[|a|] == t[0] && t[0] < 0x80;
    }
  }

  /** Every ASCII byte string is valid UTF-8. */
  lemma {:induction false} AsciiIsValid(t: seq<u8>)
    requires IsAscii(t)
    ensures ValidUtf8(t)
  {
    if t != [] {
      assert CharWidth(t) == 1;
      AsciiIsValid(t[1..]);
    }
  }

  /**
   * Validity of a line with an ASCII terminator appended is validity of the line
   * itself: an ASCII byte never completes a multi-byte character.
   */
  lemma {:induction false} ValidWithAsciiSuffix(a: seq<u8>, t: seq<u8>)
    requires IsAscii(t)
    ensures ValidUtf8(a + t) <==> ValidUtf8(a)
    decreases |a|
  {
    if a == [] {
      assert a + t == t;
      AsciiIsValid(t);
    } else {
      CharWidthAsciiSuffix(a, t);
      var w := CharWidth(a);
      if w > 0 {
        assert (a + t)[w..] == a[w..] + t;
        ValidWithAsciiSuffix(a[w..], t);
      }
    }
  }
}
