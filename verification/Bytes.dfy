/** Bytes, 32-bit words and splicing: the raw material of memory frames, swap blocks and messages.
    A word is stored with its least significant byte first, on every host of the system alike. */
module Bytes {
  type Byte = x: int | 0 <= x < 256
  type Word = x: int | 0 <= x < 0x1_0000_0000
  type Int32 = x: int | -0x8000_0000 <= x < 0x8000_0000

  datatype Option<+T> = None | Some(value: T)

  /** The four bytes of a uint32_t. */
  function WordBytes(w: Word): (b: seq<Byte>)
    ensures |b| == 4
  {
    [w % 256, (w / 256) % 256, (w / 65536) % 256, w / 16777216]
  }

  function WordOf(b: seq<Byte>): Word
    requires |b| == 4
  {
    var b0: int, b1: int, b2: int, b3: int := b[0], b[1], b[2], b[3];
    b0 + 256 * b1 + 65536 * b2 + 16777216 * b3
  }

  lemma WordRoundTrip(w: Word)
    ensures WordOf(WordBytes(w)) == w
  {
    var a, b := w / 256, w / 65536;
    assert a / 256 == b;
    assert b / 256 == w / 16777216;
  }

  /** Two's complement: the int and the uint32_t that share the same four bytes. */
  function ToWord(i: Int32): Word {
    if i < 0 then i + 0x1_0000_0000 else i
  }

  function ToInt(w: Word): Int32 {
    if w >= 0x8000_0000 then w - 0x1_0000_0000 else w
  }

  /** memcpy of d into b at offset off, one element at a time. */
  function Splice<T>(b: seq<T>, off: nat, d: seq<T>): (r: seq<T>)
    requires off + |d| <= |b|
    ensures |r| == |b|
    decreases |d|
  {
    if d == [] then b else Splice(b[off := d[0]], off + 1, d[1..])
  }

  lemma {:induction false} SpliceElements<T>(b: seq<T>, off: nat, d: seq<T>)
    requires off + |d| <= |b|
    ensures forall i :: 0 <= i < |b| ==> Splice(b, off, d)[i] == if off <= i < off + |d| then d[i - off] else b[i]
    decreases |d|
  {
    if d != [] {
      SpliceElements(b[off := d[0]], off + 1, d[1..]);
    }
  }

  /** A copy leaves every slice that it does not touch as it was. */
  lemma SpliceOutside<T>(b: seq<T>, off: nat, d: seq<T>, lo: nat, hi: nat)
    requires off + |d| <= |b| && lo <= hi <= |b|
    requires hi <= off || off + |d| <= lo
    ensures Splice(b, off, d)[lo..hi] == b[lo..hi]
  {
    SpliceElements(b, off, d);
  }

  /** A copy inside a slice is the same copy on that slice alone. */
  lemma SpliceInside<T>(b: seq<T>, off: nat, d: seq<T>, lo: nat, hi: nat)
    requires lo <= off && off + |d| <= hi <= |b|
    ensures Splice(b, off, d)[lo..hi] == Splice(b[lo..hi], off - lo, d)
  {
    SpliceElements(b, off, d);
    SpliceElements(b[lo..hi], off - lo, d);
    var left, right := Splice(b, off, d)[lo..hi], Splice(b[lo..hi], off - lo, d);
    assert |left| == |right| && forall i :: 0 <= i < |left| ==> left[i] == right[i];
  }

  /** A copy of the whole length replaces everything. */
  lemma SpliceWhole<T>(b: seq<T>, d: seq<T>)
    requires |d| == |b|
    ensures Splice(b, 0, d) == d
  {
    SpliceElements(b, 0, d);
  }

  /** Two copies side by side are one. */
  lemma SpliceInTwo<T>(b: seq<T>, off: nat, w: seq<T>, k: nat)
    requires off + |w| <= |b| && k <= |w|
    ensures Splice(b, off, w) == Splice(Splice(b, off, w[..k]), off + k, w[k..])
  {
    SpliceElements(b, off, w);
    SpliceElements(b, off, w[..k]);
    SpliceElements(Splice(b, off, w[..k]), off + k, w[k..]);
  }

  lemma SliceOfSlice<T>(s: seq<T>, a: nat, n: nat, d: nat, m: nat)
    requires a + n <= |s| && d + m <= n
    ensures s[a..a + n][d..d + m] == s[a + d..a + d + m]
  {
    var l, r := s[a..a + n][d..d + m], s[a + d..a + d + m];
    assert |l| == |r| && forall i :: 0 <= i < m ==> l[i] == r[i];
  }
}
