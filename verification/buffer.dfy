/** `struct buffer` with its operations, as a bounded FIFO of bytes. */
module Buffer {
  import opened Bytes
  import opened RingBuffer

  class Buffer {
    const data: array<byte>          // buf, base_size bytes
    var size: nat
    var readp: nat
    var writep: nat

    /** writep may stand at the wrap itself, which only `_buf_unwrap` can bring about. */
    ghost predicate Valid()
      reads this
    {
      0 < size <= data.Length && readp < size && writep <= size
    }

    /** The pointers the other operations expect. */
    predicate Normal()
      reads this
    {
      writep < size
    }

    ghost function Contents(): seq<byte>
      requires Valid()
      reads this, data
    {
      Held(data[..], size, readp, writep)
    }

    /** `buf_init`: a size below 2 gives a buffer of no size. */
    constructor (size: nat)
      ensures fresh(data) && readp == writep == 0
      ensures size < 2 ==> this.size == 0 == data.Length
      ensures size >= 2 ==> Valid() && Normal() && Contents() == [] && this.size == size == data.Length
    {
      data := new byte[if size < 2 then 0 else size](_ => 0);
      this.size, readp, writep := if size < 2 then 0 else size, 0, 0;
    }

    function BufUsed(): (n: int)
      requires Valid()
      reads this, data
      ensures n == |Contents()|
    {
      Used(size, readp, writep)
    }

    /** One byte of the buffer is never used, so that a full one can be told from an empty one. */
    function BufSpace(): (n: int)
      requires Valid()
      reads this, data
      ensures |Contents()| + n == size - 1
    {
      size - BufUsed() - 1
    }

    /** What can be read in one piece is a prefix of the contents: all of it, or all up to the wrap. */
    function BufContRead(): (n: nat)
      requires Valid()
      reads this, data
      ensures n <= |Contents()| && readp + n <= data.Length && data[readp..readp + n] == Contents()[..n]
      ensures n == |Contents()| || readp + n == size
    {
      if writep >= readp then writep - readp else size - readp
    }

    /** What can be written in one piece ends at the wrap, or at the bytes still to be read. */
    function BufContWrite(): (n: nat)
      requires Valid()
      reads this
      ensures writep + n == if writep < readp then readp else size
    {
      if writep >= readp then size - writep else readp - writep
    }

    lemma WrapsOnce(p: nat, n: nat)
      requires p <= size && n < size
      ensures (p + n % size) % size == if p + n < size then p + n else if p + n == 2 * size then 0 else p + n - size
    {
      SmallModulo(n, size);
      if p + n >= size {
        OverModulo(p + n - size, size);
      } else {
        SmallModulo(p + n, size);
      }
    }

    static lemma SmallModulo(a: nat, n: nat)
      requires a < n
      ensures a % n == a
    {}

    static lemma OverModulo(a: nat, n: nat)
      requires a < n
      ensures (a + n) % n == a
    {}

    /**
     * `_buf_inc_readp`. It goes round a buffer by any count, and does nothing to one of no size. Of bytes that are
     * there, those read leave the front of the FIFO, with one exception: reading everything while writep stands at the
     * wrap makes the empty buffer look completely full.
     */
    method IncReadp(count: nat)
      requires size > 0 ==> Valid()
      modifies `readp
      ensures size == 0 ==> readp == old(readp)
      ensures size > 0 ==> Valid() && readp == (old(readp) + count % size) % size
      ensures size > 0 && count < size ==>
        readp == if old(readp) + count < size then old(readp) + count else old(readp) + count - size
      ensures size > 0 && count <= old(BufUsed()) && count < size && (old(writep) < size || count < old(BufUsed())) ==>
        Contents() == old(Contents())[count..]
      ensures size > 0 && count < size && old(writep) == size && count == old(BufUsed()) ==>
          readp == 0 && BufUsed() == size
    {
      if size == 0 {
        return;
      }
      if count < size {
        WrapsOnce(readp, count);
      }
      Remainder(readp + count % size, size);
      readp := (readp + count % size) % size;
    }

    static lemma Remainder(a: nat, n: nat)
      requires n > 0
      ensures a % n < n
    {}

    /** A producer copies to writep and calls `_buf_inc_writep`, never more than fits in one piece. */
    method Append(bytes: seq<byte>)
      requires Valid() && Normal() && |bytes| <= BufContWrite() && |bytes| <= BufSpace()
      modifies this`writep, data
      ensures Valid() && Normal()
      ensures Contents() == old(Contents()) + bytes
      ensures writep == if old(writep) + |bytes| < size then old(writep) + |bytes| else 0
    {
      hide Held, Restored;
      Appended(data[..], size, readp, writep, bytes);
      Write(writep, bytes);
      WrapsOnce(writep, |bytes|);
      writep := (writep + |bytes| % size) % size;
    }

    /** Bytes stored from offset `at` on. */
    method Write(at: nat, bytes: seq<byte>)
      requires at + |bytes| <= data.Length
      modifies data
      ensures data[..] == Restored(old(data[..]), at, bytes)
    {
      ghost var before := data[..];
      var i := 0;
      while i < |bytes|
        invariant 0 <= i <= |bytes|
        invariant forall k | 0 <= k < data.Length :: data[k] == if at <= k < at + i then bytes[k - at] else before[k]
      {
        data[at + i] := bytes[i];
        i := i + 1;
      }
      RestoredIs(before, at, bytes, data[..]);
    }

    static lemma RestoredIs(d: seq<byte>, at: nat, bytes: seq<byte>, r: seq<byte>)
      requires at + |bytes| <= |d| == |r|
      requires forall k | 0 <= k < |r| :: r[k] == if at <= k < at + |bytes| then bytes[k - at] else d[k]
      ensures r == Restored(d, at, bytes)
    {}

    /** Bytes written behind the contents join their end, before the wrap, up to it, or below readp. */
    static lemma Appended(d: seq<byte>, size: nat, readp: nat, writep: nat, bytes: seq<byte>)
      requires readp < size <= |d| && writep < size && |bytes| < size - Used(size, readp, writep)
      requires |bytes| <= if writep >= readp then size - writep else readp - writep
      ensures
        var r := Restored(d, writep, bytes);
        var w := if writep + |bytes| < size then writep + |bytes| else 0;
        Held(r, size, readp, w) == Held(d, size, readp, writep) + bytes
    {
      hide Held, Restored;
      var r, end := Restored(d, writep, bytes), writep + |bytes|;
      var w := if end < size then end else 0;
      RestoredSlices(d, writep, bytes, 0, writep);
      HeldWrapped(d, size, readp, writep);
      HeldWrapped(r, size, readp, w);
      if writep >= readp {
        RestoredSlices(d, writep, bytes, readp, writep);
        Join(r, readp, writep, end);
        assert r[..0] == [];
      } else {
        RestoredSlices(d, writep, bytes, readp, size);
        Join(r, 0, writep, end);
        Assoc(d[readp..size], d[..writep], bytes);
      }
    }

    /** `buf_flush` */
    method Flush()
      requires Valid()
      modifies `readp, `writep
      ensures Valid() && Normal() && Contents() == []
    {
      readp, writep := 0, 0;
    }

    /** `memmove` and `memcpy` inside the buffer. */
    method Move(dst: nat, src: nat, n: nat)
      requires dst + n <= data.Length && src + n <= data.Length
      modifies data
      ensures data[..] == Moved(old(data[..]), dst, src, n)
    {
      MovedIs(data[..], dst, src, n);
      Write(dst, data[src..src + n]);
    }

    static lemma MovedIs(d: seq<byte>, dst: nat, src: nat, n: nat)
      requires dst + n <= |d| && src + n <= |d|
      ensures Moved(d, dst, src, n) == Restored(d, dst, d[src..src + n])
    {}

    /** How far the head has to move for `cont` bytes to lie before the wrap. */
    function Gap(cont: nat): int
      requires Valid()
      reads this
    {
      cont - (size - readp)
    }

    /**
     * `_buf_unwrap`: keeps every byte in order and leaves `cont` of them, if there are as many, in one piece. It cannot
     * do so just where the head of a wrapped buffer would overlap the tail and the length of the last copy be negative,
     * which takes less than twice the gap before readp.
     */
    method Unwrap(cont: nat) returns (ok: bool)
      requires Valid() && Normal()
      modifies this`readp, this`writep, data
      ensures 2 * old(Gap(cont)) <= old(readp) ==> ok
      ensures !ok <==>
        old(cont < size && writep < readp && Gap(cont) > readp - writep
            && writep - Gap(cont) - (Gap(cont) - (readp - writep)) < 0)
      ensures ok ==> Valid() && Contents() == old(Contents())
      ensures !ok ==> readp == old(readp) && writep == old(writep)
      ensures ok && cont < size ==> BufContRead() >= cont || BufContRead() == BufUsed()
      ensures ok && (cont >= size || old(Gap(cont)) <= 0) ==> readp == old(readp) && writep == old(writep)
      ensures ok && cont < size && 0 < old(Gap(cont)) ==>
        readp == size - cont
        && (Normal() <==> old(writep >= readp || BufUsed() != cont))
    {
      hide Held, Moved;
      var gap := cont - (size - readp);
      if gap <= 0 || cont >= size {
        return true;
      }
      if writep >= readp {
        MoveUp(gap);
        return true;
      }
      var overlap := gap - (readp - writep);
      if overlap <= 0 {
        MoveDirectly(gap);
        return true;
      }
      if writep - gap - overlap < 0 {
        return false;
      }
      MoveByScratch(gap, overlap);
      return true;
    }

    /** The branch for a buffer that is not wrapped. */
    method MoveUp(gap: nat)
      requires Valid() && gap <= readp <= writep
      modifies this`readp, this`writep, data
      ensures Valid() && Contents() == old(Contents())
      ensures readp == old(readp) - gap && writep == old(writep) - gap
    {
      hide Moved, Held;
      MoveUnwrapped(data[..], size, readp, writep, gap);
      Move(readp - gap, readp, writep - readp);
      readp, writep := readp - gap, writep - gap;
    }

    /** The branch with enough free space. */
    method MoveDirectly(gap: nat)
      requires Valid() && 0 < gap && writep + gap <= readp
      modifies this`readp, this`writep, data
      ensures Valid() && Contents() == old(Contents())
      ensures readp == old(readp) - gap
      ensures writep == if old(writep) > gap then old(writep) - gap else old(writep) + size - gap
    {
      hide Moved, Held;
      ghost var d := data[..];
      var len := writep;
      Move(readp - gap, readp, size - readp);
      readp := readp - gap;
      if len > gap {
        MoveWrapped(d, size, readp + gap, len, gap);
        Move(size - gap, 0, gap);
        Move(0, gap, len - gap);
        writep := writep - gap;
      } else {
        MoveWhole(d, size, readp + gap, len, gap);
        Move(size - gap, 0, len);
        writep := writep + size - gap;
      }
    }

    /** The branch that needs the scratch zone. */
    method MoveByScratch(gap: nat, overlap: nat)
      requires Valid() && writep < readp && 0 < gap && overlap == writep + gap - readp > 0 && 2 * gap <= readp
      modifies this`readp, this`writep, data
      ensures Valid() && Contents() == old(Contents())
      ensures readp == old(readp) - gap && writep == old(writep) - gap
    {
      hide Moved, Restored, Held;
      ghost var d := data[..];
      var len := writep;
      MoveWithScratch(d, size, readp, len, gap, overlap);
      var scratch := data[len - overlap..len];
      Move(readp - gap, readp, size - readp);
      Move(size - gap, 0, gap);
      Move(0, gap, len - gap - overlap);
      Write(len - gap - overlap, scratch);
      assert data[..] == ThroughScratch(d, size, readp, len, gap, overlap);
      readp, writep := readp - gap, writep - gap;
    }

    // ---------------------------------------------------------------- alignment

    /** `buf_adjust`; a size smaller than one unit is kept as it is. */
    method Adjust(mod: nat)
      requires data.Length > 0 ==> Valid()
      modifies `size, `readp, `writep
      ensures mod == 0 || data.Length == 0 ==> size == old(size) && readp == old(readp) && writep == old(writep)
      ensures mod > 0 && data.Length > 0 ==> Valid() && Normal() && Contents() == []
      ensures mod > 0 && data.Length > 0 ==>
        size == if data.Length >= mod then (data.Length / mod) * mod else data.Length
      ensures 0 < mod <= data.Length ==> Aligned(mod)
    {
      if mod == 0 || data.Length == 0 {
        return;
      }
      size := (data.Length / mod) * mod;
      if size == 0 {
        size := data.Length;
      }
      readp, writep := 0, 0;
      WholeUnits(data.Length, mod);
    }

    static lemma WholeUnits(n: nat, mod: nat)
      requires mod > 0
      ensures (n / mod) * mod <= n < (n / mod) * mod + mod && Units((n / mod) * mod, mod)
      ensures mod <= n ==> (n / mod) * mod > 0
      ensures n < mod ==> (n / mod) * mod == 0
    {
      assert n == (n / mod) * mod + n % mod;
      UnitsOf(n / mod, mod);
    }

    static lemma {:induction false} UnitsOf(q: nat, mod: nat)
      requires mod > 0
      ensures Units(q * mod, mod)
    {
      if q > 0 {
        UnitsOf(q - 1, mod);
        assert q * mod == (q - 1) * mod + mod;
      }
    }

    /** n is a whole number of units. */
    static predicate Units(n: nat, mod: nat)
      requires mod > 0
    {
      if n < mod then n == 0 else Units(n - mod, mod)
    }

    static lemma {:induction false} UnitsAdd(a: nat, b: nat, mod: nat)
      requires mod > 0 && Units(a, mod) && Units(b, mod)
      ensures Units(a + b, mod)
    {
      if a >= mod {
        UnitsAdd(a - mod, b, mod);
      }
    }

    static lemma {:induction false} UnitsSub(a: nat, b: nat, mod: nat)
      requires mod > 0 && Units(a, mod) && Units(b, mod) && b <= a
      ensures Units(a - b, mod)
    {
      if b >= mod {
        UnitsSub(a - mod, b - mod, mod);
      }
    }

    /** The reader stands on a unit boundary of a buffer that is a whole number of units. */
    predicate Aligned(mod: nat)
      requires mod > 0
      reads this
    {
      readp <= size && Units(size, mod) && Units(readp, mod)
    }

    /** Reading whole units keeps the reader aligned ... */
    method IncReadpUnits(count: nat, mod: nat)
      requires mod > 0 && Aligned(mod) && Units(count, mod)
      requires Valid() && count <= BufUsed() && count < size
      modifies `readp
      ensures Aligned(mod)
    {
      UnitsAdd(readp, count, mod);
      if readp + count >= size {
        UnitsSub(readp + count, size, mod);
      }
      IncReadp(count);
    }

    /** ... and an aligned reader never meets a unit that straddles the wrap. */
    lemma NoUnitStraddles(mod: nat)
      requires Valid() && mod > 0 && Aligned(mod) && BufUsed() >= mod
      ensures BufContRead() >= mod
    {
      if writep < readp {
        UnitsSub(size, readp, mod);
      }
    }
  }

  /** A run in which five bytes are held, all five are read, and the size-8 buffer then reports eight held. */
  method DrainedLooksFull() returns (b: Buffer, held: int)
    ensures b.Valid() && b.size == 8
    ensures held == 5 && b.BufUsed() == 8
  {
    hide Held, Restored;
    b := new Buffer(8);
    b.Append([1, 2, 3, 4, 5, 6]);
    b.IncReadp(5);
    b.Append([7, 8]);
    b.Append([9, 10]);
    var ok := b.Unwrap(5);
    held := b.BufUsed();
    b.IncReadp(5);
  }

  /** A run in which the move cannot be done: the last copy of the scratch branch would have a negative length. */
  method UnwrapRefused() returns (b: Buffer, ok: bool)
    ensures b.Valid() && b.size == 8 && b.readp == 3 && b.writep == 2
    ensures !ok
  {
    hide Held, Restored;
    b := new Buffer(8);
    b.Append([1, 2, 3, 4, 5, 6]);
    b.IncReadp(3);
    b.Append([7, 8]);
    b.Append([9, 10]);
    ok := b.Unwrap(7);
  }

  /** A run through the scratch branch: seven bytes are held, three of them before the wrap, and then five. */
  method UnwrapByScratch() returns (b: Buffer, ok: bool)
    ensures b.Valid() && b.size == 8 && b.readp == 3
    ensures ok && b.Contents() == [6, 7, 8, 9, 10, 11, 12] && b.BufContRead() == 5
  {
    hide Held, Restored;
    b := new Buffer(8);
    b.Append([1, 2, 3, 4, 5, 6]);
    assert b.Contents() == [1, 2, 3, 4, 5, 6];
    b.IncReadp(5);
    assert b.Contents() == [6];
    b.Append([7, 8]);
    assert b.Contents() == [6, 7, 8];
    b.Append([9, 10, 11, 12]);
    ok := b.Unwrap(5);
  }
}
