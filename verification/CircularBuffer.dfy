/** Positions in a circular buffer: the n-th element of a stream, counted from the first
    ever written, lives in slot Slot(n, length). */
module CircularBuffer {

  type byte = b: int | 0 <= b < 256

  function Slot(i: nat, length: nat): (r: nat)
    requires length > 0
    ensures r < length
  {
    if i < length then i else Slot(i - length, length)
  }

  /** Advancing an index as the code does it: add, and subtract the length once. */
  function Advance(index: nat, n: nat, length: nat): nat {
    if index + n >= length then index + n - length else index + n
  }

  lemma {:induction false} SlotAdvance(i: nat, n: nat, length: nat)
    requires 0 < length && n <= length
    ensures Slot(i + n, length) == Advance(Slot(i, length), n, length)
    decreases i
  {
    if i >= length {
      SlotAdvance(i - length, n, length);
    }
  }

  /** Positions less than a buffer length apart never share a slot. */
  lemma {:induction false} SlotsDiffer(i: nat, j: nat, length: nat)
    requires 0 < length && i < j < i + length
    ensures Slot(i, length) != Slot(j, length)
  {
    SlotAdvance(i, j - i, length);
  }

  /** The distance from one index to another, computed without division. */
  function Distance(ahead: nat, behind: nat, length: nat): int {
    var d := length + ahead - behind;
    if d >= length then d - length else d
  }

  /** prvBytesInBuffer is exact for positions less than a buffer length apart. */
  lemma {:induction false} DistanceIsExact(w: nat, r: nat, length: nat)
    requires 0 < length && r <= w < r + length
    ensures Distance(Slot(w, length), Slot(r, length), length) == w - r
  {
    SlotAdvance(r, w - r, length);
  }

  /** xStreamBufferSpacesAvailable from one reading of each index. */
  function Space(tail: nat, head: nat, length: nat): int {
    var d := length + tail - head - 1;
    if d >= length then d - length else d
  }

  lemma {:induction false} SpaceIsExact(w: nat, r: nat, length: nat)
    requires 0 < length && r <= w < r + length
    ensures Space(Slot(r, length), Slot(w, length), length) == length - 1 - (w - r)
  {
    SlotAdvance(r, w - r, length);
  }

  /** `n` elements starting at slot `at`. */
  ghost function Around<T>(b: seq<T>, at: nat, n: nat): (s: seq<T>)
    requires at < |b| && n <= |b|
    ensures |s| == n
    ensures forall i :: 0 <= i < n ==> s[i] == b[Advance(at, i, |b|)]
  {
    if n == 0 then [] else Around(b, at, n - 1) + [b[Advance(at, n - 1, |b|)]]
  }
}
