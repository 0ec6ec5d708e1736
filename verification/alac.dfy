/** `struct alac` and the stepping part of `alac_decode`. */
module Alac {
  import opened AlacBlocks
  import opened ChunkTable

  class Track {
    const table: array<Chunk>
    const sizes: seq<nat>
    var pos: nat
    var sample: nat
    var nextchunk: nat
    var blockIndex: nat
    var consume: nat

    function View(): State
      reads this
    {
      State(pos, sample, nextchunk, blockIndex, consume)
    }

    ghost predicate Valid()
      reads this, table
    {
      WellFormed(table[..], sizes) && OnCourse(table[..], sizes, View())
    }

    /** The header has been read up to the media data, at `pos`, with `cont` bytes ready in one piece. */
    constructor (table: array<Chunk>, sizes: seq<nat>, pos: nat, cont: nat)
      requires WellFormed(table[..], sizes) && pos <= table[0].offset
      ensures Valid() && this.table == table && this.sizes == sizes
      ensures View() == StartOfData(table[..], pos, cont)
    {
      hide WellFormed, OnCourse;
      NotEmpty(table[..], sizes);
      this.table, this.sizes := table, sizes;
      this.pos, sample, nextchunk, blockIndex, consume := pos, 1, 1, 0, 0;
      new;
      if table[0].offset > pos {
        var skip := table[0].offset - pos;
        if skip <= cont {
          this.pos := this.pos + skip;
        } else {
          consume := skip;
        }
      }
      StartsOnCourse(table[..], sizes, pos, cont);
    }

    /** One call, after the one that read the header. */
    method DecodeStep(t: Turn) returns (status: Status, block: Block)
      requires Valid()
      modifies this
      ensures old(Decode(table[..], sizes, View(), t)) == Outcome(View(), status, block)
      ensures old(Delivers(table[..], sizes, View(), t, Decode(table[..], sizes, View(), t)))
      ensures status != Error ==> Valid()
    {
      hide WellFormed, OnCourse, Delivers;
      DecodeKeepsCourse(table[..], sizes, View(), t);
      InTable(table[..], sizes, View());
      ghost var o := Decode(table[..], sizes, View(), t);
      OnCourseAfter(table[..], sizes, View(), t, o);
      if consume > 0 {
        var n := if consume < t.used then consume else t.used;
        pos := pos + n;
        consume := consume - n;
        return if consume > 0 && t.ended && t.used - n == 0 then Complete else Running, NoBlock;
      }
      if blockIndex >= |sizes| {
        return Complete, NoBlock;
      }
      var blockSize := sizes[blockIndex];
      if t.ended && (t.used == 0 || blockSize == 0) {
        return Complete, NoBlock;
      }
      if t.used < blockSize {
        return if t.ended then Complete else Running, NoBlock;
      }
      block := Block(blockIndex, pos);
      blockIndex := blockIndex + 1;
      if !t.decodes {
        return Error, block;
      }
      status := Step(blockSize, t);
    }

    /** After a decoded block: to the next chunk, or past the block. */
    method Step(blockSize: nat, t: Turn) returns (status: Status)
      requires nextchunk < table.Length && blockIndex > 0
      modifies this
      ensures
        old(Advance(table[..], View().(blockIndex := blockIndex - 1), blockSize, t))
        == Outcome(View(), status, Block(old(blockIndex) - 1, old(pos)))
    {
      if table[nextchunk].offset > 0 {
        sample := sample + 1;
        if sample - 1 == table[nextchunk].sample {
          if table[nextchunk].offset > pos {
            var skip := table[nextchunk].offset - pos;
            if t.used >= skip {
              pos := pos + skip;
            } else {
              consume := skip;
            }
            nextchunk := nextchunk + 1;
            return Running;
          }
          return Error;
        }
      }
      if t.frames > 0 {
        pos := pos + blockSize;
        return Running;
      }
      return Error;
    }
  }

  lemma NotEmpty(table: seq<Chunk>, sizes: seq<nat>)
    requires WellFormed(table, sizes)
    ensures |table| > 1
  {}

  lemma InTable(table: seq<Chunk>, sizes: seq<nat>, st: State)
    requires WellFormed(table, sizes) && OnCourse(table, sizes, st)
    ensures st.nextchunk < |table|
  {}

  lemma OnCourseAfter(table: seq<Chunk>, sizes: seq<nat>, st: State, t: Turn, o: Outcome)
    requires WellFormed(table, sizes) && Delivers(table, sizes, st, t, o)
    ensures o.status != Error ==> OnCourse(table, sizes, o.st)
  {}
}
