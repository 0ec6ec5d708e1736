/** The engine in use: samples of both channels, the advance after each frame, whole streams, and the flush. */
module FirStream {
  import opened ComplexNumbers
  import opened Bits
  import opened Fft
  import opened Convolution
  import opened FirEngine

  class Engine {
    const left: Lane
    const right: Lane
    const work: array<Complex>       // fir_work, shared by the channels
    var head: nat                    // fir_spectrum_head
    var fill: nat                    // fir_block_fill
    var position: nat                // fir_output_position

    /** Both lanes agree with the shared ring position, and nothing is shared between them but the work array. */
    ghost predicate Lanes()
      reads this, left.Arrays(), right.Arrays()
    {
      && left.Valid(head) && right.Valid(head)
      && left.P == right.P && left.count == right.count
      && left.Arrays() !! right.Arrays()
      && work.Length == 2 * left.P && work !in left.Arrays() && work !in right.Arrays()
      && this !in left.Arrays() && this !in right.Arrays()
    }

    ghost predicate Valid()
      reads this, left.Arrays(), right.Arrays()
    {
      Lanes() && fill < left.P && position == fill
    }

    ghost function Footprint(): set<object>
      reads this, left, right
    {
      {this, work} + left.Arrays() + right.Arrays()
    }

    /** Every sample the lane has been given and advanced past. */
    ghost function History(lane: Lane): seq<real>
      requires fill <= lane.input.Length
      reads this, lane, lane.input
    {
      lane.done + lane.input[..fill]
    }

    /** `_prepare_fir` for both channels; their tap counts are equal. */
    constructor (leftTaps: seq<real>, rightTaps: seq<real>, P: nat, root: Twiddle, ghost bits: nat)
      requires P > 0 && 2 * P == Pow2(bits) && IsTwiddle(root)
      requires |leftTaps| == |rightTaps| > 0
      ensures Valid() && fresh(Footprint())
      ensures left.taps == leftTaps && right.taps == rightTaps && left.P == P
      ensures History(left) == [] && History(right) == []
    {
      hide Lane.Valid, Lane.Shape, Lane.RingHolds, Lane.OutputHolds, Lane.OverlapHolds;
      left := new Lane(leftTaps, P, root, bits);
      right := new Lane(rightTaps, P, root, bits);
      work := new Complex[2 * P](_ => ZERO);
      head, fill, position := 0, 0, 0;
    }

    /** `_fir_sample`: one sample goes in, the sample P frames older comes out. */
    method Sample(lane: Lane, x: real) returns (y: real)
      requires Valid() && (lane == left || lane == right)
      modifies lane.input
      ensures Valid() && lane.input[fill] == x
      ensures History(left) == old(History(left)) && History(right) == old(History(right))
      ensures unchanged(left) && unchanged(right)
      ensures lane != left ==> unchanged(left.input)
      ensures lane != right ==> unchanged(right.input)
      ensures y == Delayed(History(lane), lane.taps, lane.P, |History(lane)|)
    {
      hide Conv, Delayed, Block, BlockSum;
      lane.input[fill] := x;
      y := lane.output[position];
      LengthOfHistory(lane.done, lane.input[..fill], lane.taps, lane.P, lane.blocks);
    }

    static lemma LengthOfHistory(done: seq<real>, more: seq<real>, h: seq<real>, P: nat, n: nat)
      requires |done| == n * P && |more| < P
      ensures Delayed(done, h, P, n * P + |more|) == Delayed(done + more, h, P, |done + more|)
    {
      DelayedCausal(done, more, h, P, n * P + |more|);
    }

    /** `_fir_advance`: counts the frame, and turns the ring over when the block is full. */
    method Advance()
      requires Valid()
      modifies Footprint()
      ensures Valid()
      ensures History(left) == old(left.done + left.input[..fill + 1])
      ensures History(right) == old(right.done + right.input[..fill + 1])
    {
      fill, position := fill + 1, position + 1;
      if fill >= left.P {
        assert left.input[..fill] == left.input[..] && right.input[..fill] == right.input[..];
        BlockFull();
      }
    }

    method BlockFull()
      requires Lanes()
      modifies Footprint()
      ensures Valid() && fill == 0
      ensures left.done == old(left.done + left.input[..])
      ensures right.done == old(right.done + right.input[..])
    {
      hide Lane.Valid, Lane.Shape, Lane.RingHolds, Lane.OutputHolds, Lane.OverlapHolds;
      left.ProcessBlock(head, work);
      assert right.Valid(head);
      right.ProcessBlock(head, work);
      assert left.Valid((head + 1) % left.count) && right.Valid((head + 1) % left.count);
      head := (head + 1) % left.count;
      fill, position := 0, 0;
    }

    /** The part of `_frame` that uses the engine: a sample into each channel, then the advance. */
    method Frame(l: real, r: real) returns (outL: real, outR: real)
      requires Valid()
      modifies Footprint()
      ensures Valid()
      ensures History(left) == old(History(left)) + [l] && History(right) == old(History(right)) + [r]
      ensures outL == Delayed(old(History(left)), left.taps, left.P, |old(History(left))|)
      ensures outR == Delayed(old(History(right)), right.taps, right.P, |old(History(right))|)
    {
      hide Lane.Valid, Lane.Shape, Lane.RingHolds, Lane.OutputHolds, Lane.OverlapHolds, Delayed;
      outL := Sample(left, l);
      outR := Sample(right, r);
      assert left.input[..fill + 1] == left.input[..fill] + [l];
      assert right.input[..fill + 1] == right.input[..fill] + [r];
      Advance();
    }

    /** A whole stream of stereo frames through a fresh or flushed engine. */
    method Run(ls: seq<real>, rs: seq<real>) returns (outL: seq<real>, outR: seq<real>)
      requires Valid() && |ls| == |rs|
      requires History(left) == [] && History(right) == []
      modifies Footprint()
      ensures Valid() && History(left) == ls && History(right) == rs
      ensures |outL| == |ls| && |outR| == |rs|
      ensures forall n | 0 <= n < |ls| :: outL[n] == if n < left.P then 0.0 else Conv(ls, left.taps, n - left.P)
      ensures forall n | 0 <= n < |rs| :: outR[n] == if n < right.P then 0.0 else Conv(rs, right.taps, n - right.P)
    {
      hide Conv, Delayed, Lane.Valid, Lane.Shape, Lane.RingHolds, Lane.OutputHolds, Lane.OverlapHolds;
      outL, outR := [], [];
      var i := 0;
      while i < |ls|
        invariant 0 <= i <= |ls| && |outL| == |outR| == i
        invariant Valid() && History(left) == ls[..i] && History(right) == rs[..i]
        invariant forall n | 0 <= n < i :: outL[n] == Delayed(ls, left.taps, left.P, n)
        invariant forall n | 0 <= n < i :: outR[n] == Delayed(rs, right.taps, right.P, n)
      {
        var l, r := Frame(ls[i], rs[i]);
        OneMore(ls, i, left.taps, left.P);
        OneMore(rs, i, right.taps, right.P);
        outL, outR := outL + [l], outR + [r];
        i := i + 1;
      }
      assert ls[..i] == ls && rs[..i] == rs;
      DelayedIs(ls, left.taps, left.P);
      DelayedIs(rs, right.taps, right.P);
    }

    static lemma OneMore(x: seq<real>, i: nat, h: seq<real>, P: nat)
      requires i < |x| && P > 0
      ensures x[..i + 1] == x[..i] + [x[i]] && Delayed(x[..i], h, P, i) == Delayed(x, h, P, i)
    {
      assert x == x[..i] + x[i..];
      DelayedCausal(x[..i], x[i..], h, P, i);
    }

    static lemma DelayedIs(x: seq<real>, h: seq<real>, P: nat)
      ensures forall n | 0 <= n < |x| :: Delayed(x, h, P, n) == if n < P then 0.0 else Conv(x, h, n - P)
    {}

    /** `dsp_flush` on a current chain: the engine forgets every sample. */
    method Flush()
      requires Valid()
      modifies Footprint()
      ensures Valid() && History(left) == [] && History(right) == []
    {
      hide Lane.Valid, Lane.Shape, Lane.RingHolds, Lane.OutputHolds, Lane.OverlapHolds;
      left.Flush(head);
      assert right.Valid(head);
      right.Flush(head);
      assert left.Valid(0) && right.Valid(0);
      head, fill, position := 0, 0, 0;
    }
  }

  /** With the partitions the program works with. */
  method Prepare(leftTaps: seq<real>, rightTaps: seq<real>, root: Twiddle) returns (engine: Engine)
    requires IsTwiddle(root) && |leftTaps| == |rightTaps| > 0
    ensures fresh(engine) && engine.Valid() && fresh(engine.Footprint())
    ensures engine.left.taps == leftTaps && engine.right.taps == rightTaps && engine.left.P == FIR_PARTITION_FRAMES
    ensures engine.History(engine.left) == [] && engine.History(engine.right) == []
  {
    hide Lane.Valid, Lane.Shape, Lane.RingHolds, Lane.OutputHolds, Lane.OverlapHolds;
    PartitionSizeIsUsable();
    engine := new Engine(leftTaps, rightTaps, FIR_PARTITION_FRAMES, root, 10);
  }
}
