/** How `alac_decode` walks the blocks of an MP4 file: chunk by chunk, skipping between chunks at once or later. */
module AlacBlocks {
  import opened ChunkTable
  import opened Machine

  /**
   * pos is the place in the file of the stream buffer's read pointer, sample the number of the next block counted
   * from 1 (up to the last chunk), consume the bytes of a skip still to be thrown away.
   */
  datatype State = State(pos: nat, sample: nat, nextchunk: nat, blockIndex: nat, consume: nat)

  datatype Status = Running | Complete | Error

  datatype Block = NoBlock | Block(index: nat, pos: nat)

  datatype Outcome = Outcome(st: State, status: Status, block: Block)

  /** Bytes ready in the stream buffer, whether the stream has ended, and what the decoder makes of a block. */
  datatype Turn = Turn(used: nat, ended: bool, decodes: bool, frames: nat)

  /** `alac_decode` while there is something to skip. */
  function Consume(st: State, t: Turn): Outcome {
    var n := if st.consume < t.used then st.consume else t.used;
    var s := st.(pos := st.pos + n, consume := st.consume - n);
    Outcome(s, if s.consume > 0 && t.ended && t.used - n == 0 then Complete else Running, NoBlock)
  }

  /** The bookkeeping after a decoded block. */
  function Advance(table: seq<Chunk>, st: State, size: nat, t: Turn): Outcome
    requires st.nextchunk < |table|
  {
    var b := Block(st.blockIndex, st.pos);
    var next := table[st.nextchunk];
    var s := st.(blockIndex := st.blockIndex + 1, sample := if next.offset > 0 then st.sample + 1 else st.sample);
    if next.offset > 0 && st.sample == next.sample then
      if next.offset > st.pos then
        var skip := next.offset - st.pos;
        Outcome(
          if t.used >= skip then s.(pos := st.pos + skip, nextchunk := st.nextchunk + 1)
          else s.(consume := skip, nextchunk := st.nextchunk + 1),
          Running, b)
      else Outcome(s, Error, b)
    else if t.frames > 0 then Outcome(s.(pos := st.pos + size), Running, b)
    else Outcome(s, Error, b)
  }

  /** The part of `alac_decode` that takes the next block. */
  function TakeBlock(table: seq<Chunk>, sizes: seq<nat>, st: State, t: Turn): Outcome
    requires st.nextchunk < |table|
  {
    if st.blockIndex >= |sizes| then Outcome(st, Complete, NoBlock)
    else
      var size := sizes[st.blockIndex];
      if t.ended && (t.used == 0 || size == 0) then Outcome(st, Complete, NoBlock)
      else if t.used < size then Outcome(st, if t.ended then Complete else Running, NoBlock)
      else if !t.decodes then Outcome(st.(blockIndex := st.blockIndex + 1), Error, Block(st.blockIndex, st.pos))
      else Advance(table, st, size, t)
  }

  /** `alac_decode` once the header has been read. */
  function Decode(table: seq<Chunk>, sizes: seq<nat>, st: State, t: Turn): Outcome
    requires st.nextchunk < |table|
  {
    if st.consume > 0 then Consume(st, t) else TakeBlock(table, sizes, st, t)
  }

  // ---------------------------------------------------------------- the file

  /** Total size of blocks a to b - 1. */
  function Bytes(sizes: seq<nat>, a: nat, b: nat): nat
    requires a <= b <= |sizes|
  {
    if a == b then 0 else Bytes(sizes, a, b - 1) + sizes[b - 1]
  }

  function Chunks(table: seq<Chunk>): int {
    |table| - 1
  }

  /** Where the blocks of chunk c end. */
  function EndOf(table: seq<Chunk>, sizes: seq<nat>, c: nat): nat
    requires c < Chunks(table)
  {
    if c + 1 < Chunks(table) then table[c + 1].sample else |sizes|
  }

  /** Chunks of one block or more, in ascending order of place, that do not overlap, and blocks of one byte or more. */
  ghost predicate WellFormed(table: seq<Chunk>, sizes: seq<nat>) {
    Chunks(table) > 0 && table[Chunks(table)].offset == 0 && table[0].sample == 0
    && (forall b: nat | b < |sizes| :: sizes[b] > 0)
    && (forall c: nat | c < Chunks(table) :: table[c].offset > 0 && table[c].sample < EndOf(table, sizes, c) <= |sizes|)
    && (forall c: nat | c + 1 < Chunks(table) ::
          table[c].offset + Bytes(sizes, table[c].sample, EndOf(table, sizes, c)) <= table[c + 1].offset)
  }

  /** The chunk block b lies in, looking at the first n chunks. */
  function ChunkOf(table: seq<Chunk>, n: nat, b: nat): (c: nat)
    requires 0 < n <= |table|
    ensures c < n && (c > 0 ==> table[c].sample <= b)
  {
    if n == 1 || table[n - 1].sample <= b then n - 1 else ChunkOf(table, n - 1, b)
  }

  /** A block's place in the file: its chunk's offset plus the sizes of the earlier blocks of the chunk. */
  ghost function PlaceOf(table: seq<Chunk>, sizes: seq<nat>, b: nat): nat
    requires WellFormed(table, sizes) && b < |sizes|
  {
    var c := ChunkOf(table, Chunks(table), b);
    table[c].offset + Bytes(sizes, table[c].sample, b)
  }

  lemma {:induction false} SamplesAscend(table: seq<Chunk>, sizes: seq<nat>, c: nat, d: nat)
    requires WellFormed(table, sizes) && c < d < Chunks(table)
    ensures table[c].sample < table[d].sample
  {
    assert table[d - 1].sample < EndOf(table, sizes, d - 1);
    if c < d - 1 {
      SamplesAscend(table, sizes, c, d - 1);
    }
  }

  lemma {:induction false} ChunkOfBlock(table: seq<Chunk>, sizes: seq<nat>, n: nat, c: nat, b: nat)
    requires WellFormed(table, sizes) && c < n <= Chunks(table)
    requires table[c].sample <= b < EndOf(table, sizes, c)
    ensures ChunkOf(table, n, b) == c
  {
    hide WellFormed;
    TableFacts(table, sizes, c);
    if c < n - 1 {
      if c + 1 < n - 1 {
        SamplesAscend(table, sizes, c + 1, n - 1);
      }
      ChunkOfBlock(table, sizes, n - 1, c, b);
    }
  }

  /** Up to the skip still owed, the read pointer stands on the next block. */
  ghost predicate OnCourse(table: seq<Chunk>, sizes: seq<nat>, st: State)
    requires WellFormed(table, sizes)
  {
    1 <= st.nextchunk <= Chunks(table)
    && table[st.nextchunk - 1].sample <= st.blockIndex <= EndOf(table, sizes, st.nextchunk - 1)
    && (st.nextchunk < Chunks(table) ==> st.blockIndex < table[st.nextchunk].sample && st.sample == st.blockIndex + 1)
    && st.pos + st.consume == table[st.nextchunk - 1].offset
        + Bytes(sizes, table[st.nextchunk - 1].sample, st.blockIndex)
    && (st.blockIndex == |sizes| ==> st.consume == 0)
  }

  /** What a turn on course may do. */
  ghost predicate Delivers(table: seq<Chunk>, sizes: seq<nat>, st: State, t: Turn, o: Outcome)
    requires WellFormed(table, sizes)
  {
    (o.block.Block? ==>
       st.blockIndex < |sizes| && o.block == Block(st.blockIndex, PlaceOf(table, sizes, st.blockIndex)))
    && (o.block.NoBlock? ==> o.st.blockIndex == st.blockIndex)
    && (o.status == Error ==> o.block.Block? && (!t.decodes || t.frames == 0))
    && (o.status != Error ==> OnCourse(table, sizes, o.st) && (o.block.Block? ==> o.st.blockIndex == st.blockIndex + 1))
  }

  lemma PlaceIs(table: seq<Chunk>, sizes: seq<nat>, st: State)
    requires WellFormed(table, sizes) && OnCourse(table, sizes, st) && st.consume == 0 && st.blockIndex < |sizes|
    ensures st.pos == PlaceOf(table, sizes, st.blockIndex)
  {
    ChunkOfBlock(table, sizes, Chunks(table), st.nextchunk - 1, st.blockIndex);
  }

  /** Bytes left in the chunk cover the block. */
  lemma BlockFits(table: seq<Chunk>, sizes: seq<nat>, c: nat, b: nat)
    requires WellFormed(table, sizes) && c + 1 < Chunks(table)
    requires table[c].sample <= b && b + 1 == table[c + 1].sample
    ensures table[c].offset + Bytes(sizes, table[c].sample, b) < table[c + 1].offset
  {
    hide WellFormed;
    ChunkFacts(table, sizes, c);
    var a := table[c].sample;
    assert EndOf(table, sizes, c) == b + 1;
    assert Bytes(sizes, a, b + 1) == Bytes(sizes, a, b) + sizes[b];
  }

  lemma AdvanceKeepsCourse(table: seq<Chunk>, sizes: seq<nat>, st: State, t: Turn)
    requires WellFormed(table, sizes) && OnCourse(table, sizes, st) && st.consume == 0 && st.blockIndex < |sizes|
    ensures Delivers(table, sizes, st, t, Advance(table, st, sizes[st.blockIndex], t))
  {
    hide WellFormed;
    PlaceIs(table, sizes, st);
    var c, b := st.nextchunk - 1, st.blockIndex;
    TableFacts(table, sizes, c);
    if c + 1 < Chunks(table) && b + 1 == table[c + 1].sample {
      BlockFits(table, sizes, c, b);
    }
  }

  lemma TableFacts(table: seq<Chunk>, sizes: seq<nat>, c: nat)
    requires WellFormed(table, sizes) && c < Chunks(table)
    ensures table[Chunks(table)].offset == 0
    ensures table[c].sample < EndOf(table, sizes, c) <= |sizes|
    ensures c + 1 < Chunks(table) ==>
      table[c + 1].offset > 0 && table[c + 1].sample < EndOf(table, sizes, c + 1) <= |sizes|
  {}

  lemma ChunkFacts(table: seq<Chunk>, sizes: seq<nat>, c: nat)
    requires WellFormed(table, sizes) && c + 1 < Chunks(table)
    ensures table[c].sample <= EndOf(table, sizes, c) == table[c + 1].sample <= |sizes|
    ensures forall b: nat | b < |sizes| :: sizes[b] > 0
    ensures table[c].offset + Bytes(sizes, table[c].sample, EndOf(table, sizes, c)) <= table[c + 1].offset
  {}

  /** Every turn of `alac_decode` keeps the course, and a block it decodes comes from its place in the file. */
  lemma DecodeKeepsCourse(table: seq<Chunk>, sizes: seq<nat>, st: State, t: Turn)
    requires WellFormed(table, sizes) && OnCourse(table, sizes, st)
    ensures Delivers(table, sizes, st, t, Decode(table, sizes, st, t))
  {
    hide WellFormed, Advance, Bytes;
    TableFacts(table, sizes, st.nextchunk - 1);
    if st.consume == 0 && st.blockIndex < |sizes| {
      PlaceIs(table, sizes, st);
      AdvanceKeepsCourse(table, sizes, st, t);
    }
  }

  // ---------------------------------------------------------------- runs

  /** The decode thread stops calling once the codec reports anything but running. */
  function Blocks(table: seq<Chunk>, sizes: seq<nat>, st: State, turns: seq<Turn>): seq<Block>
    requires st.nextchunk < |table|
    decreases |turns|
  {
    if turns == [] then []
    else
      var o := Decode(table, sizes, st, turns[0]);
      var first := if o.block.Block? then [o.block] else [];
      if o.status == Running && o.st.nextchunk < |table| then first + Blocks(table, sizes, o.st, turns[1..]) else first
  }

  /** However the data arrives, the blocks reach the decoder one after another, each from its own place. */
  lemma {:induction false} EveryBlockFromItsPlace(table: seq<Chunk>, sizes: seq<nat>, st: State, turns: seq<Turn>)
    requires WellFormed(table, sizes) && OnCourse(table, sizes, st)
    decreases |turns|
    ensures
      var blocks := Blocks(table, sizes, st, turns);
      st.blockIndex + |blocks| <= |sizes|
      && forall k: nat | k < |blocks| :: blocks[k] == Block(st.blockIndex + k, PlaceOf(table, sizes, st.blockIndex + k))
  {
    hide WellFormed, Decode, PlaceOf;
    TableFacts(table, sizes, st.nextchunk - 1);
    if turns != [] {
      DecodeKeepsCourse(table, sizes, st, turns[0]);
      var o := Decode(table, sizes, st, turns[0]);
      if o.status == Running {
        EveryBlockFromItsPlace(table, sizes, o.st, turns[1..]);
      }
    }
  }

  // ---------------------------------------------------------------- what a turn waits for

  /** The bytes a turn can do nothing without: all of the skip it owes, or all of the next block. */
  function Needed(sizes: seq<nat>, st: State): nat {
    if st.consume > 0 then st.consume else if st.blockIndex < |sizes| then sizes[st.blockIndex] else 0
  }

  /** The block is the last of its chunk, and there is a next chunk. */
  ghost predicate EndsChunk(table: seq<Chunk>, st: State) {
    st.nextchunk < Chunks(table) && st.blockIndex + 1 == table[st.nextchunk].sample
  }

  /**
   * A block is decoded just when nothing is to be skipped and all of it is there; the track is complete just when all
   * blocks are out, or the stream has ended short of what is needed; decoding fails just when the decoder does; and
   * what is there of a skip is thrown away.
   */
  lemma StatusIff(table: seq<Chunk>, sizes: seq<nat>, st: State, t: Turn)
    requires WellFormed(table, sizes) && OnCourse(table, sizes, st)
    ensures
      var o := Decode(table, sizes, st, t);
      && (o.block.Block? <==> st.consume == 0 && st.blockIndex < |sizes| && t.used >= sizes[st.blockIndex])
      && (o.status == Complete <==> st.blockIndex == |sizes| || (t.ended && t.used < Needed(sizes, st)))
      && (o.status == Error <==> o.block.Block? && (!t.decodes || (t.frames == 0 && !EndsChunk(table, st))))
      && (st.consume > 0 ==> o.st.consume == if t.used < st.consume then st.consume - t.used else 0)
      && o.st.pos <= st.pos + t.used && o.st.blockIndex == st.blockIndex + (if o.block.Block? then 1 else 0)
  {
    hide WellFormed, Bytes;
    TableFacts(table, sizes, st.nextchunk - 1);
    if st.blockIndex < |sizes| {
      SizesFacts(table, sizes);
      assert sizes[st.blockIndex] > 0;
      if EndsChunk(table, st) {
        BlockFits(table, sizes, st.nextchunk - 1, st.blockIndex);
      }
    }
  }

  /** After the last block of a chunk the skip to the next one is put off just when not all of it is there. */
  lemma SkipPutOffIff(table: seq<Chunk>, sizes: seq<nat>, st: State, t: Turn)
    requires WellFormed(table, sizes) && OnCourse(table, sizes, st)
    requires st.consume == 0 && st.blockIndex < |sizes| && t.used >= sizes[st.blockIndex] && t.decodes
    requires EndsChunk(table, st)
    ensures
      var s, skip := Decode(table, sizes, st, t).st, table[st.nextchunk].offset - st.pos;
      && skip > 0 && s.nextchunk == st.nextchunk + 1
      && (t.used < skip ==> s.consume == skip && s.pos == st.pos)
      && (t.used >= skip ==> s.consume == 0 && s.pos == table[st.nextchunk].offset)
  {
    hide WellFormed, Bytes;
    TableFacts(table, sizes, st.nextchunk - 1);
    SizesFacts(table, sizes);
    assert sizes[st.blockIndex] > 0;
    BlockFits(table, sizes, st.nextchunk - 1, st.blockIndex);
  }

  lemma SizesFacts(table: seq<Chunk>, sizes: seq<nat>)
    requires WellFormed(table, sizes)
    ensures forall b: nat | b < |sizes| :: sizes[b] > 0
  {}

  /** Every turn finds what it needs, and the decoder can decode it. */
  ghost predicate Fed(table: seq<Chunk>, sizes: seq<nat>, st: State, turns: seq<Turn>)
    requires st.nextchunk < |table|
    decreases |turns|
  {
    turns != [] ==>
      var o := Decode(table, sizes, st, turns[0]);
      && turns[0].used >= Needed(sizes, st) && turns[0].decodes && turns[0].frames > 0
      && (o.st.nextchunk < |table| ==> Fed(table, sizes, o.st, turns[1..]))
  }

  /** Turns still needed at most: one for each block, and one for each skip that is put off. */
  function TurnsLeft(sizes: seq<nat>, st: State): int {
    2 * (|sizes| - st.blockIndex) + if st.consume > 0 then 1 else 0
  }

  lemma FedTurn(table: seq<Chunk>, sizes: seq<nat>, st: State, t: Turn)
    requires WellFormed(table, sizes) && OnCourse(table, sizes, st) && st.blockIndex < |sizes|
    requires t.used >= Needed(sizes, st) && t.decodes && t.frames > 0
    ensures
      var o := Decode(table, sizes, st, t);
      && o.status == Running && OnCourse(table, sizes, o.st) && o.st.nextchunk < |table|
      && TurnsLeft(sizes, o.st) < TurnsLeft(sizes, st)
      && o.st.blockIndex == st.blockIndex + if o.block.Block? then 1 else 0
  {
    hide WellFormed, Decode, EndsChunk;
    DecodeKeepsCourse(table, sizes, st, t);
    StatusIff(table, sizes, st, t);
    TableFacts(table, sizes, 0);
  }

  /** When every turn finds what it needs, all the blocks come out. */
  lemma {:induction false} AllBlocksDecoded(table: seq<Chunk>, sizes: seq<nat>, st: State, turns: seq<Turn>)
    requires WellFormed(table, sizes) && OnCourse(table, sizes, st) && st.nextchunk < |table|
    requires Fed(table, sizes, st, turns) && |turns| >= TurnsLeft(sizes, st)
    decreases |turns|
    ensures |Blocks(table, sizes, st, turns)| == |sizes| - st.blockIndex
  {
    hide WellFormed, OnCourse, Decode, Needed;
    Remaining(table, sizes, st);
    if st.blockIndex < |sizes| {
      FedTurn(table, sizes, st, turns[0]);
      AllBlocksDecoded(table, sizes, Decode(table, sizes, st, turns[0]).st, turns[1..]);
    } else if turns != [] {
      NothingLeft(table, sizes, st, turns[0]);
    }
  }

  lemma Remaining(table: seq<Chunk>, sizes: seq<nat>, st: State)
    requires WellFormed(table, sizes) && OnCourse(table, sizes, st)
    ensures st.blockIndex <= |sizes|
  {
    TableFacts(table, sizes, st.nextchunk - 1);
  }

  lemma NothingLeft(table: seq<Chunk>, sizes: seq<nat>, st: State, t: Turn)
    requires WellFormed(table, sizes) && OnCourse(table, sizes, st) && st.nextchunk < |table|
    requires st.blockIndex == |sizes|
    ensures Decode(table, sizes, st, t).status == Complete && Decode(table, sizes, st, t).block.NoBlock?
  {}

  // ---------------------------------------------------------------- from the tables of the file

  lemma {:induction false} RunsNotEmpty(runs: seq<Run>, n: nat, c: nat, chunks: nat)
    requires 0 < n <= |runs| && ValidRuns(runs, |runs|, chunks) && runs[0].first == 1
    ensures SamplesIn(runs[..n], c) > 0
  {
    assert ValidRun(runs, n - 1, chunks);
    assert runs[..n][..n - 1] == runs[..n - 1];
    if n > 1 {
      RunsNotEmpty(runs, n - 1, c, chunks);
    }
  }

  lemma {:induction false} BeforeAscends(runs: seq<Run>, c: nat, d: nat)
    requires c <= d
    ensures SamplesBefore(runs, c) <= SamplesBefore(runs, d)
  {
    hide SamplesIn;
    if c < d {
      BeforeAscends(runs, c, d - 1);
    }
  }

  /** The blocks of the file fill its chunks, and the chunks follow one another without overlap. */
  ghost predicate Laid(offsets: seq<nat>, runs: seq<Run>, sizes: seq<nat>) {
    |offsets| > 0 && |sizes| == SamplesBefore(runs, |offsets|) && |sizes| < 0x1_0000_0000
    && (forall b: nat | b < |sizes| :: sizes[b] > 0)
    && (forall c: nat | c < |offsets| :: offsets[c] > 0)
    && (forall c: nat | c + 1 < |offsets| :: Follows(offsets, runs, sizes, c))
  }

  ghost predicate Follows(offsets: seq<nat>, runs: seq<Run>, sizes: seq<nat>, c: nat)
    requires c + 1 < |offsets|
  {
    SamplesBefore(runs, c) <= SamplesBefore(runs, c + 1) <= |sizes|
    && offsets[c] + Bytes(sizes, SamplesBefore(runs, c), SamplesBefore(runs, c + 1)) <= offsets[c + 1]
  }

  /** The expanded table of a valid sample-to-chunk table that starts at chunk 1 is one the decoder can follow. */
  lemma ExpandedTable(table: seq<Chunk>, offsets: seq<nat>, runs: seq<Run>, sizes: seq<nat>)
    requires Laid(offsets, runs, sizes)
    requires ValidRuns(runs, |runs|, |offsets|) && |runs| > 0 && runs[0].first == 1
    requires Tabled(table, runs, |offsets|) && Placed(table, offsets)
    ensures WellFormed(table, sizes)
  {
    hide SamplesIn, U32, ValidRuns;
    var n := |offsets|;
    assert runs[..|runs|] == runs;
    forall c: nat | c < n
      ensures table[c].sample == SamplesBefore(runs, c)
    {
      BeforeAscends(runs, c, n);
      SmallU32(SamplesBefore(runs, c));
    }
    forall c: nat | c < n
      ensures EndOf(table, sizes, c) == SamplesBefore(runs, c + 1)
      ensures table[c].sample < EndOf(table, sizes, c) <= |sizes|
    {
      RunsNotEmpty(runs, |runs|, c, n);
      BeforeAscends(runs, c + 1, n);
    }
    forall c: nat | c + 1 < n
      ensures table[c].offset + Bytes(sizes, table[c].sample, EndOf(table, sizes, c)) <= table[c + 1].offset
    {
      assert Follows(offsets, runs, sizes, c);
    }
  }

  // ---------------------------------------------------------------- the first block

  /**
   * At the media data, `cont` bytes lie ready in one piece; the skip to the first chunk is done only if they
   * cover it.
   */
  function StartOfData(table: seq<Chunk>, pos: nat, cont: nat): State
    requires |table| > 0
  {
    var skip := if table[0].offset > pos then table[0].offset - pos else 0;
    if skip <= cont then State(pos + skip, 1, 1, 0, 0) else State(pos, 1, 1, 0, skip)
  }

  lemma StartsOnCourse(table: seq<Chunk>, sizes: seq<nat>, pos: nat, cont: nat)
    requires WellFormed(table, sizes)
    ensures OnCourse(table, sizes, StartOfData(table, pos, cont)) <==> pos <= table[0].offset
  {
    TableFacts(table, sizes, 0);
  }

  /**
   * The call that reads the header goes straight on to a block. A block it takes comes from its place just when the
   * skip to the first chunk was not put off.
   */
  lemma FirstBlock(table: seq<Chunk>, sizes: seq<nat>, pos: nat, cont: nat, t: Turn)
    requires WellFormed(table, sizes) && pos <= table[0].offset && |sizes| > 0
    ensures
      var o := TakeBlock(table, sizes, StartOfData(table, pos, cont), t);
      (o.block.Block? <==> t.used >= sizes[0])
      && (o.block.Block? ==>
            o.block.index == 0 && (o.block.pos == PlaceOf(table, sizes, 0) <==> table[0].offset - pos <= cont))
  {
    hide WellFormed;
    FirstFacts(table, sizes);
    ChunkOfBlock(table, sizes, Chunks(table), 0, 0);
  }

  lemma FirstFacts(table: seq<Chunk>, sizes: seq<nat>)
    requires WellFormed(table, sizes)
    ensures Chunks(table) > 0 && table[0].sample == 0 && 0 < EndOf(table, sizes, 0)
    ensures forall b: nat | b < |sizes| :: sizes[b] > 0
  {
    TableFacts(table, sizes, 0);
  }

  /** A chunk at 100, the media data found at 8 with 50 bytes ready: the first block of ten bytes is taken from 8. */
  lemma FirstBlockMisread()
    ensures
      var table, sizes := [Chunk(0, 100), Chunk(0, 0)], [10];
      WellFormed(table, sizes)
      && TakeBlock(table, sizes, StartOfData(table, 8, 50), Turn(50, false, true, 1)).block == Block(0, 8)
      && PlaceOf(table, sizes, 0) == 100
  {}
}
