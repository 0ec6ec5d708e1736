/** 32-bit words and their bytes. */
module Words {
  import opened Samples

  /** Byte j of a word, byte 0 being the least significant. */
  function ByteOf(w: bv32, j: nat): bv8
    requires j < 4
  {
    if j == 0 then (w & 0xff) as bv8
    else if j == 1 then ((w >> 8) & 0xff) as bv8
    else if j == 2 then ((w >> 16) & 0xff) as bv8
    else (w >> 24) as bv8
  }

  function BytesOf(w: bv32): seq<bv8> {
    [ByteOf(w, 0), ByteOf(w, 1), ByteOf(w, 2), ByteOf(w, 3)]
  }

  /** The word of four bytes, the least significant first. */
  function Joined(b0: bv8, b1: bv8, b2: bv8, b3: bv8): bv32 {
    (b0 as bv32) | ((b1 as bv32) << 8) | ((b2 as bv32) << 16) | ((b3 as bv32) << 24)
  }

  lemma BytesAre(w: bv32)
    ensures ByteOf(w, 0) == (w & 0xff) as bv8 && ByteOf(w, 1) == ((w >> 8) & 0xff) as bv8
    ensures ByteOf(w, 2) == ((w >> 16) & 0xff) as bv8 && ByteOf(w, 3) == (w >> 24) as bv8
  {}

  lemma WholeWord(w: bv32)
    ensures Joined((w & 0xff) as bv8, ((w >> 8) & 0xff) as bv8, ((w >> 16) & 0xff) as bv8, (w >> 24) as bv8) == w
  {}

  lemma UpperBytes(w: bv32)
    ensures Joined(0, ((w >> 8) & 0xff) as bv8, ((w >> 16) & 0xff) as bv8, (w >> 24) as bv8) == w & 0xffff_ff00
  {}

  lemma UpperHalf(w: bv32)
    ensures Joined(0, 0, ((w >> 16) & 0xff) as bv8, (w >> 24) as bv8) == w & 0xffff_0000
  {}

  lemma ShiftedNegative(w: bv32)
    requires w & 0x8000_0000 != 0
    ensures (w >> 24) as bv8 & 0x80 != 0
    ensures Joined(((w >> 8) & 0xff) as bv8, ((w >> 16) & 0xff) as bv8, (w >> 24) as bv8, 0xff)
         == (w >> 8) | 0xff00_0000
  {}

  lemma ShiftedPositive(w: bv32)
    requires w & 0x8000_0000 == 0
    ensures (w >> 24) as bv8 & 0x80 == 0
    ensures Joined(((w >> 8) & 0xff) as bv8, ((w >> 16) & 0xff) as bv8, (w >> 24) as bv8, 0) == (w >> 8) | 0
  {}

  /** Bytes put together again give the word, or its upper part where the lower bytes are left out. */
  lemma JoinedBytes(w: bv32)
    ensures Joined(ByteOf(w, 0), ByteOf(w, 1), ByteOf(w, 2), ByteOf(w, 3)) == w
    ensures Joined(0, ByteOf(w, 1), ByteOf(w, 2), ByteOf(w, 3)) == w & 0xffff_ff00
    ensures Joined(0, 0, ByteOf(w, 2), ByteOf(w, 3)) == w & 0xffff_0000
  {
    hide Joined, ByteOf;
    BytesAre(w);
    WholeWord(w);
    UpperBytes(w);
    UpperHalf(w);
  }

  /** The upper three bytes with the sign below them spread give the word shifted down. */
  lemma JoinedShifted(w: bv32)
    ensures Joined(ByteOf(w, 1), ByteOf(w, 2), ByteOf(w, 3), if ByteOf(w, 3) & 0x80 != 0 then 0xff else 0)
         == ShiftRight8(w)
  {
    hide Joined, ByteOf;
    BytesAre(w);
    if w & 0x8000_0000 != 0 {
      ShiftedNegative(w);
    } else {
      ShiftedPositive(w);
    }
  }

  /** A signed 32-bit value shifted right, its sign bit spreading. */
  function ShiftRight8(w: bv32): bv32 {
    (w >> 8) | (if w & 0x8000_0000 != 0 then 0xff00_0000 else 0)
  }

  function ShiftRight16(w: bv32): bv32 {
    (w >> 16) | (if w & 0x8000_0000 != 0 then 0xffff_0000 else 0)
  }

  /** The two's complement word of a sample. */
  function Word(x: S32): bv32 {
    if x < 0 then (x + 0x1_0000_0000) as bv32 else x as bv32
  }

  // The words written for two frames hold bytes 1 to 3 of each of the four samples, in order.

  lemma FirstWord(l1: bv32, r1: bv32)
    ensures BytesOf(((l1 & 0xffff_ff00) >> 8) | ((r1 & 0x0000_ff00) << 16))
      == [ByteOf(l1, 1), ByteOf(l1, 2), ByteOf(l1, 3), ByteOf(r1, 1)]
  {}

  lemma SecondWord(r1: bv32, l2: bv32)
    ensures BytesOf(((r1 & 0xffff_0000) >> 16) | ((l2 & 0x00ff_ff00) << 8))
      == [ByteOf(r1, 2), ByteOf(r1, 3), ByteOf(l2, 1), ByteOf(l2, 2)]
  {}

  lemma ThirdWord(l2: bv32, r2: bv32)
    ensures BytesOf(((l2 & 0xff00_0000) >> 24) | (r2 & 0xffff_ff00))
      == [ByteOf(l2, 3), ByteOf(r2, 1), ByteOf(r2, 2), ByteOf(r2, 3)]
  {}

  lemma ByteByByte(w: bv32)
    ensures ((w & 0x0000_ff00) >> 8) <= 0xff && ((w & 0x00ff_0000) >> 16) <= 0xff && ((w & 0xff00_0000) >> 24) <= 0xff
    ensures ((w & 0x0000_ff00) >> 8) as bv8 == ByteOf(w, 1)
    ensures ((w & 0x00ff_0000) >> 16) as bv8 == ByteOf(w, 2)
    ensures ((w & 0xff00_0000) >> 24) as bv8 == ByteOf(w, 3)
  {}

  lemma HalfWords(l: bv32, r: bv32)
    ensures BytesOf((ShiftRight16(l) & 0x0000_ffff) | (r & 0xffff_0000))
      == [ByteOf(l, 2), ByteOf(l, 3), ByteOf(r, 2), ByteOf(r, 3)]
  {
    hide BytesOf, ShiftRight16;
    ShiftedHalf(l);
    LowHalf(l, r);
  }

  lemma ShiftedHalf(l: bv32)
    ensures ShiftRight16(l) & 0x0000_ffff == l >> 16
  {
    SignDropped(l, if l & 0x8000_0000 != 0 then 0xffff_0000 else 0);
  }

  lemma SignDropped(l: bv32, sign: bv32)
    requires sign == 0xffff_0000 || sign == 0
    ensures ((l >> 16) | sign) & 0x0000_ffff == l >> 16
  {}

  lemma LowHalf(l: bv32, r: bv32)
    ensures BytesOf((l >> 16) | (r & 0xffff_0000)) == [ByteOf(l, 2), ByteOf(l, 3), ByteOf(r, 2), ByteOf(r, 3)]
  {}

  lemma SpreadSign(w: bv32)
    ensures BytesOf(ShiftRight8(w))
      == [ByteOf(w, 1), ByteOf(w, 2), ByteOf(w, 3), if ByteOf(w, 3) & 0x80 != 0 then 0xff else 0]
  {}
}
