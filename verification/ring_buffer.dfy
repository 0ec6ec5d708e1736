/** The FIFO of buffer.c. Pointers are offsets from `buf`; `wrap` is the offset `size`. */
module RingBuffer {
  import opened Bytes

  // ---------------------------------------------------------------- the bytes between two offsets

  function Used(size: nat, readp: nat, writep: nat): int {
    if writep >= readp then writep - readp else size - (readp - writep)
  }

  /** The bytes held, oldest first: from readp on, continuing at the start after the end. */
  function Held(d: seq<byte>, size: nat, readp: nat, writep: nat): (r: seq<byte>)
    requires readp <= size <= |d| && writep <= size
    ensures |r| == Used(size, readp, writep)
  {
    if writep >= readp then d[readp..writep] else d[readp..size] + d[..writep]
  }

  /** memcpy and memmove */
  function Moved(d: seq<byte>, dst: nat, src: nat, n: nat): (r: seq<byte>)
    requires dst + n <= |d| && src + n <= |d|
    ensures |r| == |d|
    ensures forall i | 0 <= i < |d| :: r[i] == if dst <= i < dst + n then d[src + i - dst] else d[i]
  {
    d[..dst] + d[src..src + n] + d[dst + n..]
  }

  /** An unwrapped buffer is moved up in one piece. */
  lemma MoveUnwrapped(d: seq<byte>, size: nat, readp: nat, writep: nat, gap: nat)
    requires gap <= readp <= writep <= size <= |d|
    ensures Held(Moved(d, readp - gap, readp, writep - readp), size, readp - gap, writep - gap)
        == Held(d, size, readp, writep)
  {}

  lemma MovedInside(d: seq<byte>, dst: nat, src: nat, n: nat)
    requires dst + n <= |d| && src + n <= |d|
    ensures |Moved(d, dst, src, n)| == |d| && Moved(d, dst, src, n)[dst..dst + n] == d[src..src + n]
  {}

  lemma MovedBelow(d: seq<byte>, dst: nat, src: nat, n: nat, lo: nat, hi: nat)
    requires dst + n <= |d| && src + n <= |d| && lo <= hi <= dst
    ensures |Moved(d, dst, src, n)| == |d| && Moved(d, dst, src, n)[lo..hi] == d[lo..hi]
  {
    var r := Moved(d, dst, src, n);
    forall i | lo <= i < hi ensures r[i] == d[i] {}
  }

  lemma MovedAbove(d: seq<byte>, dst: nat, src: nat, n: nat, lo: nat, hi: nat)
    requires dst + n <= |d| && src + n <= |d| && dst + n <= lo <= hi <= |d|
    ensures |Moved(d, dst, src, n)| == |d| && Moved(d, dst, src, n)[lo..hi] == d[lo..hi]
  {
    var r := Moved(d, dst, src, n);
    forall i | lo <= i < hi ensures r[i] == d[i] {}
  }

  lemma HeldWrapped(d: seq<byte>, size: nat, readp: nat, writep: nat)
    requires readp <= size <= |d| && writep <= size
    ensures writep < readp ==> Held(d, size, readp, writep) == d[readp..size] + d[..writep]
    ensures writep >= readp ==> Held(d, size, readp, writep) == d[readp..writep]
  {}

  lemma Join(d: seq<byte>, a: nat, b: nat, c: nat)
    requires a <= b <= c <= |d|
    ensures d[a..b] + d[b..c] == d[a..c]
  {}

  lemma Assoc(a: seq<byte>, b: seq<byte>, c: seq<byte>)
    ensures (a + b) + c == a + (b + c)
  {}

  lemma JoinMoved(d: seq<byte>, r: seq<byte>, size: nat, readp: nat, len: nat, gap: nat)
    requires gap <= len <= readp <= size <= |d| == |r|
    requires r[readp - gap..size - gap] == d[readp..size] && r[size - gap..size] == d[0..gap]
    requires r[0..len - gap] == d[gap..len]
    ensures r[readp - gap..size] + r[0..len - gap] == d[readp..size] + d[0..len]
  {
    Join(r, readp - gap, size - gap, size);
    Join(d, 0, gap, len);
    Assoc(d[readp..size], d[0..gap], d[gap..len]);
  }

  /** A buffer that is still wrapped after the move holds what it held. */
  lemma StillWrapped(d: seq<byte>, r: seq<byte>, size: nat, readp: nat, len: nat, gap: nat)
    requires gap <= len < readp < size <= |d| == |r|
    requires r[readp - gap..size - gap] == d[readp..size] && r[size - gap..size] == d[0..gap]
    requires r[0..len - gap] == d[gap..len]
    ensures Held(r, size, readp - gap, len - gap) == Held(d, size, readp, len)
  {
    hide *;
    JoinMoved(d, r, size, readp, len, gap);
    HeldWrapped(d, size, readp, len); HeldWrapped(r, size, readp - gap, len - gap);
    assert r[..len - gap] == r[0..len - gap] && d[..len] == d[0..len];
  }

  /** A wrapped buffer with room between writep and readp: the head moves up and the tail follows it. */
  lemma MoveWrapped(d: seq<byte>, size: nat, readp: nat, len: nat, gap: nat)
    requires len + gap <= readp < size <= |d| && 0 < gap < len
    ensures
      var d1 := Moved(d, readp - gap, readp, size - readp);
      var d2 := Moved(d1, size - gap, 0, gap);
      Held(Moved(d2, 0, gap, len - gap), size, readp - gap, len - gap) == Held(d, size, readp, len)
  {
    hide *;
    var d1 := Moved(d, readp - gap, readp, size - readp);
    MovedInside(d, readp - gap, readp, size - readp);
    MovedBelow(d, readp - gap, readp, size - readp, 0, gap);
    MovedBelow(d, readp - gap, readp, size - readp, gap, len);
    var d2 := Moved(d1, size - gap, 0, gap);
    MovedInside(d1, size - gap, 0, gap);
    MovedBelow(d1, size - gap, 0, gap, readp - gap, size - gap);
    MovedBelow(d1, size - gap, 0, gap, gap, len);
    var d3 := Moved(d2, 0, gap, len - gap);
    MovedInside(d2, 0, gap, len - gap);
    MovedAbove(d2, 0, gap, len - gap, readp - gap, size - gap);
    MovedAbove(d2, 0, gap, len - gap, size - gap, size);
    StillWrapped(d, d3, size, readp, len, gap);
  }

  /** ... and when the whole tail fits behind the head, the buffer ends up unwrapped. */
  lemma MoveWhole(d: seq<byte>, size: nat, readp: nat, len: nat, gap: nat)
    requires len + gap <= readp < size <= |d| && len <= gap && 0 < gap
    ensures
      var d1 := Moved(d, readp - gap, readp, size - readp);
      Held(Moved(d1, size - gap, 0, len), size, readp - gap, len + size - gap) == Held(d, size, readp, len)
  {
    hide *;
    var d1 := Moved(d, readp - gap, readp, size - readp);
    MovedInside(d, readp - gap, readp, size - readp);
    MovedBelow(d, readp - gap, readp, size - readp, 0, len);
    var d2 := Moved(d1, size - gap, 0, len);
    MovedInside(d1, size - gap, 0, len);
    MovedBelow(d1, size - gap, 0, len, readp - gap, size - gap);
    assert d2[readp - gap..size - gap] == d[readp..size];
    assert d2[size - gap..size - gap + len] == d[0..len];
    Join(d2, readp - gap, size - gap, len + size - gap);
    HeldWrapped(d, size, readp, len); HeldWrapped(d2, size, readp - gap, len + size - gap);
    assert Held(d, size, readp, len) == d[readp..size] + d[0..len];
  }

  /** The four copies of the scratch branch; the last `overlap` bytes before writep wait in the scratch zone. */
  function ThroughScratch(d: seq<byte>, size: nat, readp: nat, len: nat, gap: nat, overlap: nat): (r: seq<byte>)
    requires len < readp < size <= |d| && overlap == len + gap - readp > 0 && 2 * gap <= readp
    ensures |r| == |d|
  {
    var d1 := Moved(d, readp - gap, readp, size - readp);
    var d2 := Moved(d1, size - gap, 0, gap);
    var d3 := Moved(d2, 0, gap, len - gap - overlap);
    Restored(d3, len - gap - overlap, d[len - overlap..len])
  }

  /** The first three copies, and what the scratch zone still has to restore. */
  lemma ScratchSlices(d: seq<byte>, size: nat, readp: nat, len: nat, gap: nat, keep: nat)
    requires len < readp < size <= |d| && keep == readp - gap < len && 2 * gap <= readp
    ensures
      var d1 := Moved(d, readp - gap, readp, size - readp);
      var d2 := Moved(d1, size - gap, 0, gap);
      var d3 := Moved(d2, 0, gap, keep - gap);
      && |d3| == |d|
      && d3[readp - gap..size - gap] == d[readp..size] && d3[size - gap..size] == d[0..gap]
      && d3[0..keep - gap] == d[gap..keep]
  {
    hide *;
    var d1 := Moved(d, readp - gap, readp, size - readp);
    MovedInside(d, readp - gap, readp, size - readp);
    MovedBelow(d, readp - gap, readp, size - readp, 0, gap);
    MovedBelow(d, readp - gap, readp, size - readp, gap, keep);
    var d2 := Moved(d1, size - gap, 0, gap);
    MovedInside(d1, size - gap, 0, gap);
    MovedBelow(d1, size - gap, 0, gap, readp - gap, size - gap);
    MovedBelow(d1, size - gap, 0, gap, gap, keep);
    MovedInside(d2, 0, gap, keep - gap);
    MovedAbove(d2, 0, gap, keep - gap, readp - gap, size - gap);
    MovedAbove(d2, 0, gap, keep - gap, size - gap, size);
  }

  /** Where everything is after the last copy. */
  lemma AllSlices(d: seq<byte>, size: nat, readp: nat, len: nat, gap: nat, overlap: nat)
    requires len < readp < size <= |d| && overlap == len + gap - readp > 0 && 2 * gap <= readp
    ensures
      var r, keep := ThroughScratch(d, size, readp, len, gap, overlap), len - overlap;
      && |r| == |d|
      && r[readp - gap..size - gap] == d[readp..size] && r[size - gap..size] == d[0..gap]
      && r[0..keep - gap] == d[gap..keep] && r[keep - gap..len - gap] == d[keep..len]
  {
    hide Restored;
    var keep := len - overlap;
    var d1 := Moved(d, readp - gap, readp, size - readp);
    var d2 := Moved(d1, size - gap, 0, gap);
    var d3 := Moved(d2, 0, gap, keep - gap);
    assert ThroughScratch(d, size, readp, len, gap, overlap) == Restored(d3, keep - gap, d[keep..len]);
    hide *;
    ScratchSlices(d, size, readp, len, gap, keep);
    RestoredSlices(d3, keep - gap, d[keep..len], readp - gap, size - gap);
    RestoredSlices(d3, keep - gap, d[keep..len], size - gap, size);
    RestoredSlices(d3, keep - gap, d[keep..len], 0, keep - gap);
  }

  /** A wrapped buffer without that room. */
  lemma MoveWithScratch(d: seq<byte>, size: nat, readp: nat, len: nat, gap: nat, overlap: nat)
    requires len < readp < size <= |d| && overlap == len + gap - readp > 0 && 2 * gap <= readp && 0 < gap
    ensures |ThroughScratch(d, size, readp, len, gap, overlap)| == |d|
    ensures Held(ThroughScratch(d, size, readp, len, gap, overlap), size, readp - gap, len - gap)
        == Held(d, size, readp, len)
  {
    hide *;
    var r, keep := ThroughScratch(d, size, readp, len, gap, overlap), len - overlap;
    AllSlices(d, size, readp, len, gap, overlap);
    Join(r, 0, keep - gap, len - gap);
    Join(d, gap, keep, len);
    StillWrapped(d, r, size, readp, len, gap);
  }

  /** The scratch zone copied back to offset `at`. */
  function Restored(d: seq<byte>, at: nat, scratch: seq<byte>): (r: seq<byte>)
    requires at + |scratch| <= |d|
    ensures |r| == |d|
  {
    d[..at] + scratch + d[at + |scratch|..]
  }

  lemma RestoredSlices(d: seq<byte>, at: nat, scratch: seq<byte>, lo: nat, hi: nat)
    requires at + |scratch| <= |d| && lo <= hi <= |d|
    ensures |Restored(d, at, scratch)| == |d|
    ensures Restored(d, at, scratch)[at..at + |scratch|] == scratch
    ensures hi <= at || at + |scratch| <= lo ==> Restored(d, at, scratch)[lo..hi] == d[lo..hi]
  {}
}
