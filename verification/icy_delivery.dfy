/** What the controller gets of the metadata blocks, its passes falling anywhere between the bytes of the stream. */
module IcyDelivery {
  import opened Bytes
  import opened Icy

  /** A byte of the stream is handled, or the controller takes the slot if the flag is up. */
  datatype Action = Arrive(b: byte) | Take

  function Act(s: State, a: Action): (t: State)
    requires Good(s)
    ensures Good(t) && t.interval == s.interval
  {
    match a
    case Arrive(b) => Feed(s, b)
    case Take => s.(send := false)
  }

  function After(s: State, acts: seq<Action>): (t: State)
    requires Good(s)
    decreases |acts|
    ensures Good(t) && t.interval == s.interval
  {
    if acts == [] then s else After(Act(s, acts[0]), acts[1..])
  }

  /** Everything the controller takes, in order. */
  function Taken(s: State, acts: seq<Action>): seq<seq<byte>>
    requires Good(s)
    decreases |acts|
  {
    if acts == [] then []
    else (if acts[0].Take? && s.send then [s.header] else []) + Taken(Act(s, acts[0]), acts[1..])
  }

  function BytesOf(acts: seq<Action>): seq<byte> {
    if acts == [] then []
    else (if acts[0].Arrive? then [acts[0].b] else []) + BytesOf(acts[1..])
  }

  predicate HasTake(acts: seq<Action>) {
    exists k :: 0 <= k < |acts| && acts[k].Take?
  }

  lemma {:induction false} InTwo(s: State, a: seq<Action>, b: seq<Action>)
    requires Good(s)
    decreases |a|
    ensures After(s, a + b) == After(After(s, a), b)
    ensures Taken(s, a + b) == Taken(s, a) + Taken(After(s, a), b)
  {
    hide Act;
    if a == [] {
      assert a + b == b;
    } else {
      assert (a + b)[1..] == a[1..] + b;
      InTwo(Act(s, a[0]), a[1..], b);
    }
  }

  /** A run without the controller is the splitter's own. */
  lemma {:induction false} AfterIsFeedAll(s: State, acts: seq<Action>)
    requires Good(s) && !HasTake(acts)
    decreases |acts|
    ensures After(s, acts) == FeedAll(s, BytesOf(acts)) && Taken(s, acts) == []
  {
    hide Feed;
    if acts != [] {
      assert !acts[0].Take?;
      forall k | 0 <= k < |acts[1..]|
        ensures !acts[1..][k].Take?
      {
        assert !acts[k + 1].Take?;
      }
      assert BytesOf(acts)[1..] == BytesOf(acts[1..]);
      AfterIsFeedAll(Act(s, acts[0]), acts[1..]);
    }
  }

  /** From one length byte up to the next: the block as it comes in, and the interval of audio after it. */
  datatype Cycle = Cycle(block: seq<byte>, during: seq<Action>, after: seq<Action>)

  predicate Wellformed(c: Cycle, interval: nat) {
    |c.block| % 16 == 0 && |c.block| / 16 < 256
    && BytesOf(c.during) == [|c.block| / 16] + c.block
    && c.during[0].Arrive? && c.during[|c.during| - 1].Arrive?
    && |BytesOf(c.after)| == interval
  }

  predicate AtLength(s: State) {
    Good(s) && s.next == 0 && s.left == 0
  }

  function ActsOf(c: Cycle): seq<Action> {
    c.during + c.after
  }

  /** Part of a block, and not all of it. */
  predicate Fragment(e: seq<byte>, block: seq<byte>) {
    e < block
  }

  lemma HasTakeStep(acts: seq<Action>)
    ensures HasTake(acts) <==> acts != [] && (acts[0].Take? || HasTake(acts[1..]))
  {
    if acts != [] && HasTake(acts[1..]) {
      var k :| 0 <= k < |acts[1..]| && acts[1..][k].Take?;
      assert acts[k + 1].Take?;
    }
  }

  /** While the block comes in, the slot holds what has arrived of it, and no more can be taken. */
  lemma {:induction false} InBlock(s: State, acts: seq<Action>, block: seq<byte>, k: nat)
    requires Good(s) && s.next == 0 && k < |block| && s.header == block[..k] && s.left == |block| - k
    requires BytesOf(acts) == block[k..] && acts != [] && acts[|acts| - 1].Arrive?
    decreases |acts|
    ensures var t := After(s, acts); t.next == t.interval && t.left == 0 && t.header == block && t.send
    ensures forall e | e in Taken(s, acts) :: Fragment(e, block)
  {
    var rest := acts[1..];
    if acts[0].Take? {
      assert |acts| > 1 && rest[|rest| - 1] == acts[|acts| - 1];
      InBlock(Act(s, Take), rest, block, k);
    } else {
      var t := Act(s, acts[0]);
      assert acts[0].b == block[k] && BytesOf(rest) == block[k..][1..] == block[k + 1..];
      assert s.header + [acts[0].b] == block[..k + 1];
      if k + 1 < |block| {
        assert |acts| > 1 && rest[|rest| - 1] == acts[|acts| - 1];
        InBlock(t, rest, block, k + 1);
      } else {
        OnlyTakes(rest);
        assert rest == [];
      }
    }
  }

  /** Actions without a byte do not end with one. */
  lemma {:induction false} OnlyTakes(acts: seq<Action>)
    requires BytesOf(acts) == []
    ensures acts != [] ==> acts[|acts| - 1].Take?
  {
    if |acts| > 1 {
      OnlyTakes(acts[1..]);
    }
  }

  /** While audio comes in the slot stays as it is, and the first take empties the flag. */
  lemma {:induction false} InAudio(s: State, acts: seq<Action>)
    requires Good(s) && s.left == 0 && |BytesOf(acts)| <= s.next
    decreases |acts|
    ensures
      var t := After(s, acts);
      t.next == s.next - |BytesOf(acts)| && t.left == 0 && t.header == s.header
      && (t.send <==> s.send && !HasTake(acts))
    ensures Taken(s, acts) == if s.send && HasTake(acts) then [s.header] else []
  {
    HasTakeStep(acts);
    hide HasTake;
    if acts != [] {
      InAudio(Act(s, acts[0]), acts[1..]);
    }
  }

  /** After the length byte the slot is empty, whatever it held. */
  lemma AfterLength(s: State, length: byte)
    requires AtLength(s)
    ensures
      var t := Act(s, Arrive(length));
      t.header == [] && t.left == 16 * length && t.send == s.send && t.next == if length == 0 then t.interval else 0
  {}

  /** What is taken during one cycle: fragments of the block while it comes in, and the whole block once after that. */
  lemma InCycle(s: State, c: Cycle)
    requires AtLength(s) && Wellformed(c, s.interval)
    ensures AtLength(After(s, ActsOf(c)))
    ensures c.block != [] ==>
      (forall e | e in Taken(s, c.during) :: Fragment(e, c.block))
      && Taken(s, ActsOf(c)) == Taken(s, c.during) + if HasTake(c.after) then [c.block] else []
  {
    hide Act, HasTake;
    var first, rest := c.during[0], c.during[1..];
    AfterLength(s, first.b);
    InTwo(s, c.during, c.after);
    var t := Act(s, first);
    assert BytesOf(rest) == BytesOf(c.during)[1..] == c.block;
    if c.block == [] {
      InAudio(t, rest);
    } else {
      assert rest[|rest| - 1] == c.during[|c.during| - 1];
      assert c.block[..0] == [] && c.block[0..] == c.block;
      InBlock(t, rest, c.block, 0);
      FirstTakesNothing(s, c.during);
    }
    InAudio(After(s, c.during), c.after);
  }

  lemma FirstTakesNothing(s: State, acts: seq<Action>)
    requires Good(s) && acts != [] && acts[0].Arrive?
    ensures Taken(s, acts) == Taken(Act(s, acts[0]), acts[1..])
  {}

  /** A block is taken whole exactly when a take falls between its last byte and the next length byte. */
  lemma TakenWholeIff(s: State, c: Cycle)
    requires AtLength(s) && Wellformed(c, s.interval) && c.block != []
    ensures c.block in Taken(s, ActsOf(c)) <==> HasTake(c.after)
  {
    hide Taken, HasTake, After, Wellformed;
    InCycle(s, c);
    assert !Fragment(c.block, c.block);
  }

  // ---------------------------------------------------------------- whole streams

  /** What is taken during cycle k of a stream. */
  function TakenIn(s: State, cycles: seq<Cycle>, k: nat): seq<seq<byte>>
    requires Good(s) && k < |cycles|
    decreases k
  {
    if k == 0 then Taken(s, ActsOf(cycles[0])) else TakenIn(After(s, ActsOf(cycles[0])), cycles[1..], k - 1)
  }

  function Stream(cycles: seq<Cycle>): seq<Action> {
    if cycles == [] then [] else ActsOf(cycles[0]) + Stream(cycles[1..])
  }

  /** The blocks that a take follows in time. */
  function Caught(cycles: seq<Cycle>): seq<seq<byte>> {
    if cycles == [] then [] else (if HasTake(cycles[0].after) then [cycles[0].block] else []) + Caught(cycles[1..])
  }

  /** Of any stream, with takes anywhere, a block is taken whole in its cycle exactly when one falls in its window. */
  lemma {:induction false} EveryBlockTakenIff(s: State, cycles: seq<Cycle>, k: nat)
    requires AtLength(s) && (forall c | c in cycles :: Wellformed(c, s.interval))
    requires k < |cycles| && cycles[k].block != []
    decreases k
    ensures cycles[k].block in TakenIn(s, cycles, k) <==> HasTake(cycles[k].after)
  {
    hide Taken, HasTake, After, Wellformed, AtLength;
    LengthIsGood(s);
    assert cycles[0] in cycles;
    if k == 0 {
      TakenWholeIff(s, cycles[0]);
    } else {
      InCycle(s, cycles[0]);
      SameInterval(s, ActsOf(cycles[0]));
      EveryBlockTakenIff(After(s, ActsOf(cycles[0])), cycles[1..], k - 1);
    }
  }

  lemma LengthIsGood(s: State)
    requires AtLength(s)
    ensures Good(s)
  {}

  lemma SameInterval(s: State, acts: seq<Action>)
    requires Good(s)
    ensures After(s, acts).interval == s.interval
  {}

  /** A controller that only takes between blocks gets exactly the blocks it is in time for, in order. */
  lemma {:induction false} BlocksCaught(s: State, cycles: seq<Cycle>)
    requires AtLength(s) && Good(s)
    requires forall c | c in cycles :: Wellformed(c, s.interval) && c.block != [] && !HasTake(c.during)
    decreases |cycles|
    ensures Taken(s, Stream(cycles)) == Caught(cycles)
  {
    hide Taken, HasTake, After, Wellformed, AtLength, BytesOf;
    if cycles == [] {
      TakenNothing(s);
    } else {
      var c := cycles[0];
      assert c in cycles;
      InCycle(s, c);
      AfterIsFeedAll(s, c.during);
      SameInterval(s, ActsOf(c));
      LengthIsGood(After(s, ActsOf(c)));
      BlocksCaught(After(s, ActsOf(c)), cycles[1..]);
      InTwo(s, ActsOf(c), Stream(cycles[1..]));
    }
  }

  lemma TakenNothing(s: State)
    requires Good(s)
    ensures Taken(s, []) == []
  {}

  // ---------------------------------------------------------------- a lost block

  function Sixteen(x: byte): seq<byte> {
    [x, x, x, x, x, x, x, x, x, x, x, x, x, x, x, x]
  }

  function Arriving(bs: seq<byte>): (acts: seq<Action>)
    ensures |acts| == |bs| && forall k | 0 <= k < |bs| :: acts[k] == Arrive(bs[k])
  {
    seq(|bs|, k requires 0 <= k < |bs| => Arrive(bs[k]))
  }

  lemma {:induction false} BytesArriving(bs: seq<byte>)
    ensures BytesOf(Arriving(bs)) == bs
  {
    if bs != [] {
      assert Arriving(bs)[1..] == Arriving(bs[1..]);
      BytesArriving(bs[1..]);
    }
  }

  /** A block of sixteen bytes x that comes in with no take between its bytes. */
  function Plain(x: byte, after: seq<Action>): Cycle {
    Cycle(Sixteen(x), Arriving([1] + Sixteen(x)), after)
  }

  lemma PlainIsWellformed(x: byte, after: seq<Action>)
    requires |BytesOf(after)| == 1
    ensures Wellformed(Plain(x, after), 1) && Plain(x, after).block != [] && !HasTake(Plain(x, after).during)
  {
    BytesArriving([1] + Sixteen(x));
  }

  /** Two blocks with a byte of audio after each, and a take only at the end: the first block is never taken. */
  lemma BlockLost(s: State)
    requires AtLength(s) && s.interval == 1
    ensures Taken(s, Stream([Plain(1, [Arrive(0)]), Plain(2, [Arrive(0), Take])])) == [Sixteen(2)]
  {
    var one, two := Plain(1, [Arrive(0)]), Plain(2, [Arrive(0), Take]);
    PlainIsWellformed(1, one.after);
    PlainIsWellformed(2, two.after);
    assert two.after[1].Take?;
    assert HasTake(two.after) && !HasTake(one.after) && one.block == Sixteen(1) && two.block == Sixteen(2);
    LengthIsGood(s);
    hide Taken, HasTake, After, AtLength, Plain, Wellformed, Sixteen;
    assert [one, two][1..] == [two] && [two][1..] == [];
    assert Caught([two]) == [two.block] + Caught([]);
    BlocksCaught(s, [one, two]);
  }
}
