/** The chunk table `read_mp4_header` (alac.c) expands from a track's chunk offsets and its run-length sample table. */
module ChunkTable {
  import opened Machine

  /** One entry of the sample-to-chunk table: from chunk `first` (counted from 1) on, each chunk holds `samples`. */
  datatype Run = Run(first: nat, samples: nat)

  /** `struct chunk_table`: the number of samples in earlier chunks, and the place of the chunk in the file. */
  datatype Chunk = Chunk(sample: nat, offset: nat)

  predicate ValidRun(runs: seq<Run>, j: nat, chunks: nat)
    requires j < |runs|
  {
    1 <= runs[j].first <= chunks && runs[j].samples > 0 && (j > 0 ==> runs[j - 1].first < runs[j].first)
  }

  ghost predicate ValidRuns(runs: seq<Run>, n: nat, chunks: nat)
    requires n <= |runs|
  {
    forall j: nat | j < n :: ValidRun(runs, j, chunks)
  }

  /** Every run has samples, and the first chunks of the runs lie in the track and ascend. */
  lemma ValidRunsIff(runs: seq<Run>, chunks: nat)
    ensures ValidRuns(runs, |runs|, chunks)
       <==> (forall j: nat | j < |runs| :: runs[j].samples >= 1 && 0 < runs[j].first < chunks + 1)
            && (forall i: nat, j: nat | i < j < |runs| :: runs[i].first < runs[j].first)
  {
    if ValidRuns(runs, |runs|, chunks) {
      forall j: nat | j < |runs| ensures runs[j].samples >= 1 && 0 < runs[j].first < chunks + 1 {
        assert ValidRun(runs, j, chunks);
      }
      forall i: nat, j: nat | i < j < |runs| ensures runs[i].first < runs[j].first {
        RunsAscend(runs, chunks, i, j);
      }
    }
  }

  /** Samples in chunk c (counted from 0): those of the last run that starts at or before it. */
  function SamplesIn(runs: seq<Run>, c: nat): nat {
    if runs == [] then 0
    else
      var last := runs[|runs| - 1];
      if last.first <= c + 1 then last.samples else SamplesIn(runs[..|runs| - 1], c)
  }

  /** Each chunk from a run's first up to the next run's has the samples of the run, and those before all runs none. */
  lemma {:induction false} SamplesOfRun(runs: seq<Run>, chunks: nat, j: nat, c: nat)
    requires j < |runs| && ValidRuns(runs, |runs|, chunks)
    ensures runs[j].first <= c + 1 && (j + 1 < |runs| ==> c + 1 < runs[j + 1].first) ==>
      SamplesIn(runs, c) == runs[j].samples
    ensures c + 1 < runs[0].first ==> SamplesIn(runs, c) == 0
  {
    var n := |runs| - 1;
    assert ValidRun(runs, n, chunks) && ValidRun(runs, 0, chunks);
    if n > 0 {
      forall k: nat | k < n ensures ValidRun(runs[..n], k, chunks) {
        assert ValidRun(runs, k, chunks);
      }
      SamplesOfRun(runs[..n], chunks, if j < n then j else 0, c);
      RunsAscend(runs, chunks, 0, n);
      if j + 1 < n {
        RunsAscend(runs, chunks, j + 1, n);
      }
    }
  }

  lemma {:induction false} RunsAscend(runs: seq<Run>, chunks: nat, i: nat, j: nat)
    requires i < j < |runs| && ValidRuns(runs, |runs|, chunks)
    ensures runs[i].first < runs[j].first
  {
    assert ValidRun(runs, j, chunks);
    if i < j - 1 {
      RunsAscend(runs, chunks, i, j - 1);
    }
  }

  /** Samples in all chunks before c. */
  function SamplesBefore(runs: seq<Run>, c: nat): nat {
    if c == 0 then 0 else SamplesBefore(runs, c - 1) + SamplesIn(runs, c - 1)
  }

  /** A further run changes nothing before its first chunk. */
  lemma {:induction false} MoreRuns(runs: seq<Run>, r: Run, c: nat)
    requires c < r.first
    ensures SamplesBefore(runs + [r], c) == SamplesBefore(runs, c)
  {
    if c > 0 {
      MoreRuns(runs, r, c - 1);
      assert (runs + [r])[..|runs|] == runs;
    }
  }

  lemma {:induction false} NoRuns(c: nat)
    ensures SamplesBefore([], c) == 0
  {
    if c > 0 {
      NoRuns(c - 1);
    }
  }

  ghost predicate Tabled(table: seq<Chunk>, runs: seq<Run>, upto: nat) {
    upto <= |table| && forall c: nat | c < upto :: table[c].sample == U32(SamplesBefore(runs, c))
  }

  ghost predicate Untouched(table: seq<Chunk>, from: nat) {
    forall c: nat | from <= c < |table| :: table[c].sample == 0
  }

  ghost predicate Placed(table: seq<Chunk>, offsets: seq<nat>) {
    |table| == |offsets| + 1 && table[|offsets|].offset == 0
    && (forall c: nat | c < |offsets| :: table[c].offset == offsets[c])
  }

  /** Runs on: chunks from..upto all hold `samples`. */
  method Fill(
      table: array<Chunk>, from: nat, upto: nat, start: nat, samples: nat,
      ghost runs: seq<Run>, ghost offsets: seq<nat>)
    returns (sample: nat)
    requires from <= upto < table.Length && Tabled(table[..], runs, from) && Untouched(table[..], from)
    requires Placed(table[..], offsets)
    requires start == U32(SamplesBefore(runs, from))
    requires forall c: nat | from <= c < upto :: SamplesIn(runs, c) == samples
    modifies table
    ensures Tabled(table[..], runs, upto) && Untouched(table[..], upto) && Placed(table[..], offsets)
    ensures sample == U32(SamplesBefore(runs, upto))
  {
    sample := start;
    var i := from;
    while i < upto
      invariant from <= i <= upto && sample == U32(SamplesBefore(runs, i))
      invariant Tabled(table[..], runs, i) && Untouched(table[..], i) && Placed(table[..], offsets)
    {
      hide U32, SamplesIn;
      table[i] := table[i].(sample := sample);
      AddU32(SamplesBefore(runs, i), samples);
      sample := U32(sample + samples);
      i := i + 1;
    }
  }

  /** The chunks of the run before this one, if there is one. */
  method UpToRun(
      table: array<Chunk>, start: nat, last: nat, lastSamples: nat, first: nat,
      ghost runs: seq<Run>, ghost r: Run, ghost offsets: seq<nat>)
    returns (sample: nat)
    requires last < first == r.first < table.Length
    requires last > 0 ==> |runs| > 0 && runs[|runs| - 1] == Run(last, lastSamples)
    requires last == 0 ==> runs == []
    requires start == U32(SamplesBefore(runs, if last > 0 then last - 1 else 0))
    requires Tabled(table[..], runs, if last > 0 then last - 1 else 0)
    requires Untouched(table[..], if last > 0 then last - 1 else 0) && Placed(table[..], offsets)
    modifies table
    ensures sample == U32(SamplesBefore(runs + [r], first - 1))
    ensures Tabled(table[..], runs + [r], first - 1) && Untouched(table[..], first - 1) && Placed(table[..], offsets)
  {
    hide U32, SamplesIn, SamplesBefore, Placed, Untouched, Tabled;
    sample := start;
    if last > 0 {
      LastRun(runs);
      sample := Fill(table, last - 1, first - 1, sample, lastSamples, runs, offsets);
    } else {
      NothingTabled(table[..], first - 1);
      NothingTabled(table[..], 0);
    }
    StillTabled(table[..], runs, r);
  }

  /** Accepts just the valid tables, and gives each chunk the number of samples in all chunks before it. */
  method BuildTable(offsets: seq<nat>, runs: seq<Run>) returns (ok: bool, table: array<Chunk>)
    requires |offsets| > 0
    ensures fresh(table)
    ensures ok <==> ValidRuns(runs, |runs|, |offsets|)
    ensures ok ==> Tabled(table[..], runs, |offsets|)
    ensures ok ==> Placed(table[..], offsets) && table[|offsets|].sample == 0
  {
    var entries := |offsets|;
    table := new Chunk[entries + 1](i => Chunk(0, if 0 <= i < entries then offsets[i] else 0));
    var sample, last, lastSamples := 0, 0, 0;
    var j := 0;
    ghost var done: nat := 0;
    assert runs[..0] == [];
    while j < |runs|
      invariant 0 <= j <= |runs| && ValidRuns(runs, j, entries)
      invariant last == if j == 0 then 0 else runs[j - 1].first
      invariant j > 0 ==> lastSamples == runs[j - 1].samples
      invariant done == if j == 0 then 0 else if j == |runs| then entries else last - 1
      invariant done <= entries && last <= entries && (last > 0 <==> j > 0)
      invariant sample == U32(SamplesBefore(runs[..j], done))
      invariant Tabled(table[..], runs[..j], done) && Untouched(table[..], done) && Placed(table[..], offsets)
    {
      hide U32, SamplesIn, SamplesBefore, Placed, Untouched, Tabled;
      var first, samples := runs[j].first, runs[j].samples;
      if first == 0 || first > entries || samples == 0 || (last > 0 && first <= last) {
        assert !ValidRun(runs, j, entries);
        return false, table;
      }
      assert ValidRun(runs, j, entries);
      assert runs[..j + 1] == runs[..j] + [runs[j]];
      sample := UpToRun(table, sample, last, lastSamples, runs[j].first, runs[..j], runs[j], offsets);
      done := first - 1;
      if j + 1 == |runs| {
        LastRun(runs[..j + 1]);
        sample := Fill(table, first - 1, entries, sample, samples, runs[..j + 1], offsets);
        done := entries;
      }
      last, lastSamples, j := first, samples, j + 1;
    }
    assert runs[..j] == runs;
    if runs == [] {
      NothingTabled(table[..], entries);
    }
    return true, table;
  }

  lemma LastRun(runs: seq<Run>)
    requires |runs| > 0
    ensures forall c: nat | runs[|runs| - 1].first <= c + 1 :: SamplesIn(runs, c) == runs[|runs| - 1].samples
  {}

  lemma NothingTabled(table: seq<Chunk>, upto: nat)
    requires Untouched(table, 0) && upto <= |table|
    ensures Tabled(table, [], upto) && Untouched(table, upto) && U32(SamplesBefore([], upto)) == 0
  {
    forall c: nat | c <= upto
      ensures SamplesBefore([], c) == 0
    {
      NoRuns(c);
    }
  }

  lemma StillTabled(table: seq<Chunk>, runs: seq<Run>, r: Run)
    requires r.first > 0 && Tabled(table, runs, r.first - 1)
    ensures Tabled(table, runs + [r], r.first - 1)
    ensures SamplesBefore(runs + [r], r.first - 1) == SamplesBefore(runs, r.first - 1)
  {
    forall c: nat | c < r.first
      ensures SamplesBefore(runs + [r], c) == SamplesBefore(runs, c)
    {
      MoreRuns(runs, r, c);
    }
  }
}
