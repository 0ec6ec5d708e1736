/** The ICY branch of `stream_thread`: audio bytes and metadata blocks separated as they arrive. */
module Icy {
  import opened Bytes
  import opened Options
  import opened Sockets

  /**
   * The meta fields of `struct streamstate`, header up to header_len being the one slot for a metadata block and send
   * the flag meta_send; the audio appended to the stream buffer; and a record of the blocks that were completed.
   */
  datatype State = State(
    interval: nat, next: nat, left: nat, header: seq<byte>, send: bool, audio: seq<byte>, completed: seq<seq<byte>>)

  predicate Good(s: State) {
    s.interval > 0 && s.next <= s.interval && (s.next > 0 ==> s.left == 0)
  }

  /** One byte of the interleaved stream. */
  function Feed(s: State, b: byte): (r: State)
    requires Good(s)
    ensures Good(r) && r.interval == s.interval
  {
    if s.next > 0 then s.(audio := s.audio + [b], next := s.next - 1)
    else if s.left == 0 then Block(s.(left := 16 * b, header := []))
    else Block(s.(left := s.left - 1, header := s.header + [b]))
  }

  /** When a block is complete the flag is raised, unless the block is empty, and audio follows. */
  function Block(s: State): State {
    if s.left > 0 then s
    else if s.header == [] then s.(next := s.interval)
    else s.(next := s.interval, send := true, completed := s.completed + [s.header])
  }

  function FeedAll(s: State, bs: seq<byte>): (r: State)
    requires Good(s)
    ensures Good(r) && r.interval == s.interval
    decreases |bs|
  {
    if bs == [] then s else FeedAll(Feed(s, bs[0]), bs[1..])
  }

  lemma {:induction false} FeedInChunks(s: State, a: seq<byte>, b: seq<byte>)
    requires Good(s)
    ensures FeedAll(s, a + b) == FeedAll(FeedAll(s, a), b)
    decreases |a|
  {
    hide Feed;
    if a == [] {
      assert a + b == b;
    } else {
      assert (a + b)[1..] == a[1..] + b;
      FeedInChunks(Feed(s, a[0]), a[1..], b);
    }
  }

  lemma {:induction false} FeedAudio(s: State, bs: seq<byte>)
    requires Good(s) && |bs| <= s.next
    ensures FeedAll(s, bs) == s.(audio := s.audio + bs, next := s.next - |bs|)
    decreases |bs|
  {
    if bs == [] {
      assert s.audio + bs == s.audio;
    } else {
      FeedAudio(Feed(s, bs[0]), bs[1..]);
      assert s.audio + [bs[0]] + bs[1..] == s.audio + bs;
    }
  }

  lemma {:induction false} FeedMeta(s: State, bs: seq<byte>)
    requires Good(s) && s.next == 0 && 0 < |bs| <= s.left
    ensures FeedAll(s, bs) == Block(s.(left := s.left - |bs|, header := s.header + bs))
    decreases |bs|
  {
    assert s.header + [bs[0]] + bs[1..] == s.header + bs;
    if |bs| == 1 {
      assert bs == [bs[0]] && bs[1..] == [];
    } else {
      FeedMeta(Feed(s, bs[0]), bs[1..]);
    }
  }

  // ---------------------------------------------------------------- the thread's pass

  class Splitter {
    var interval: nat
    var next: nat
    var left: nat
    var header: seq<byte>
    var send: bool
    var audio: seq<byte>
    ghost var completed: seq<seq<byte>>

    ghost function Now(): State
      reads this
    {
      State(interval, next, left, header, send, audio, completed)
    }

    /** As `process_cont` sets the fields. */
    constructor (metaint: nat)
      requires metaint > 0
      ensures Now() == State(metaint, metaint, 0, [], false, [], []) && Good(Now())
    {
      interval, next, left, header, send, audio := metaint, metaint, 0, [], false, [];
      completed := [];
    }

    /** One pass of the loop with input waiting; `space` is what the stream buffer can take in one piece. */
    method Pass(socket: Socket, space: nat) returns (consumed: nat)
      requires Good(Now()) && socket.Valid()
      modifies this, socket
      ensures Good(Now()) && socket.Valid()
      ensures consumed <= |old(socket.unread)| && socket.unread == old(socket.unread)[consumed..]
      ensures Now() == FeedAll(old(Now()), old(socket.unread)[..consumed])
    {
      consumed := 0;
      ghost var net := socket.unread;
      if next == 0 {
        if left == 0 {
          var n, c := socket.Recv(1);
          if n <= 0 {
            return;
          }
          var length: nat := c[0];
          left, header := 16 * length, [];
          consumed := 1;
          assert net[..1] == [net[0]] && net[..1][1..] == [];
        }
        if left > 0 {
          consumed := MetaPass(socket, net, consumed, old(Now()));
        } else {
          EndBlock();
        }
      } else {
        consumed := BodyPass(socket, space);
      }
    }

    /** The block is read as far as it has arrived. */
    method MetaPass(socket: Socket, ghost net: seq<byte>, seen: nat, ghost s0: State) returns (consumed: nat)
      requires socket.Valid() && seen <= |net| && socket.unread == net[seen..]
      requires Good(Now()) && Good(s0) && next == 0 && left > 0 && Now() == FeedAll(s0, net[..seen])
      modifies this, socket
      ensures Good(Now()) && socket.Valid()
      ensures consumed <= |net| && socket.unread == net[consumed..]
      ensures Now() == FeedAll(s0, net[..consumed])
    {
      hide FeedAll;
      ghost var s := Now();
      var n, got := socket.Recv(left);
      if n <= 0 {
        return seen;
      }
      left, header := left - n, header + got;
      FeedMeta(s, got);
      FeedInChunks(s0, net[..seen], got);
      assert net[..seen + n] == net[..seen] + got;
      if left == 0 {
        EndBlock();
      }
      consumed := seen + n;
      assert net[seen..][n..] == net[consumed..];
    }

    method EndBlock()
      requires left == 0
      modifies this
      ensures Now() == Block(old(Now()))
    {
      if header != [] {
        send := true;
        completed := completed + [header];
      }
      next := interval;
    }

    /** The controller's side, in a pass of its own: what the slot holds is copied if the flag is up. */
    method Take() returns (taken: Option<seq<byte>>)
      modifies `send
      ensures Now() == old(Now()).(send := false)
      ensures taken == if old(send) then Some(header) else None
    {
      taken := if send then Some(header) else None;
      send := false;
    }

    /** Audio is read up to the next metadata block. */
    method BodyPass(socket: Socket, space: nat) returns (consumed: nat)
      requires Good(Now()) && socket.Valid() && next > 0
      modifies this, socket
      ensures Good(Now()) && socket.Valid()
      ensures consumed <= |old(socket.unread)| && socket.unread == old(socket.unread)[consumed..]
      ensures Now() == FeedAll(old(Now()), old(socket.unread)[..consumed])
    {
      var n, got := socket.Recv(if space < next then space else next);
      if n <= 0 {
        return 0;
      }
      FeedAudio(Now(), got);
      audio, next := audio + got, next - n;
      consumed := n;
    }
  }

  // ---------------------------------------------------------------- the interleaved stream

  /** One interval of audio and the block that follows it. */
  datatype Segment = Segment(audio: seq<byte>, meta: seq<byte>)

  predicate Fits(g: Segment, interval: nat) {
    |g.audio| == interval && |g.meta| % 16 == 0 && |g.meta| / 16 < 256
  }

  function Encode(g: Segment): seq<byte>
    requires |g.meta| / 16 < 256
  {
    var length: byte := |g.meta| / 16;
    g.audio + [length] + g.meta
  }

  function Mux(segments: seq<Segment>, interval: nat): seq<byte>
    requires forall g | g in segments :: Fits(g, interval)
  {
    if segments == [] then []
    else
      assert Fits(segments[0], interval);
      Encode(segments[0]) + Mux(segments[1..], interval)
  }

  function AudioOf(segments: seq<Segment>): seq<byte> {
    if segments == [] then [] else segments[0].audio + AudioOf(segments[1..])
  }

  /** The metadata blocks that are not empty. */
  function MetaOf(segments: seq<Segment>): seq<seq<byte>> {
    if segments == [] then []
    else (if segments[0].meta == [] then [] else [segments[0].meta]) + MetaOf(segments[1..])
  }

  /** At the start of an interval. */
  predicate AtStart(s: State) {
    s.next == s.interval > 0 && s.left == 0
  }

  /** From the start of one interval to the start of another, with this audio appended and these blocks completed. */
  predicate Moved(s: State, t: State, audio: seq<byte>, blocks: seq<seq<byte>>) {
    AtStart(t) && t.interval == s.interval && t.audio == s.audio + audio && t.completed == s.completed + blocks
  }

  lemma MovedTwice(s: State, t: State, u: State, a: seq<byte>, b: seq<byte>, m: seq<seq<byte>>, n: seq<seq<byte>>)
    requires Moved(s, t, a, m) && Moved(t, u, b, n)
    ensures Moved(s, u, a + b, m + n)
  {
    assert s.audio + a + b == s.audio + (a + b) && s.completed + m + n == s.completed + (m + n);
  }

  /** After the length byte the whole block is still to come. */
  function BlockAhead(s: State, g: Segment): State {
    s.(audio := s.audio + g.audio, next := 0, left := |g.meta|, header := [])
  }

  lemma FeedToBlock(s: State, g: Segment, length: byte)
    requires AtStart(s) && Fits(g, s.interval) && 16 * length == |g.meta|
    ensures FeedAll(s, g.audio + [length]) == Block(BlockAhead(s, g))
  {
    var a := s.(audio := s.audio + g.audio, next := 0);
    assert [length][1..] == [];
    assert FeedAll(a, [length]) == Block(BlockAhead(s, g));
    hide FeedAll;
    FeedAudio(s, g.audio);
    FeedInChunks(s, g.audio, [length]);
  }

  lemma SegmentIsSplit(s: State, g: Segment)
    requires AtStart(s) && Fits(g, s.interval)
    ensures Moved(s, FeedAll(s, Encode(g)), g.audio, if g.meta == [] then [] else [g.meta])
  {
    hide FeedAll;
    var length: byte := |g.meta| / 16;
    assert 16 * length == |g.meta|;
    FeedToBlock(s, g, length);
    FeedInChunks(s, g.audio + [length], g.meta);
    if g.meta == [] {
      assert Encode(g) == g.audio + [length];
    } else {
      FeedMeta(BlockAhead(s, g), g.meta);
      assert [] + g.meta == g.meta;
    }
  }

  /** The splitter undoes the interleaving: all audio in order, and every non-empty block completed once, in order. */
  lemma {:induction false} SplitUndoesMux(s: State, segments: seq<Segment>)
    requires AtStart(s) && forall g | g in segments :: Fits(g, s.interval)
    ensures Moved(s, FeedAll(s, Mux(segments, s.interval)), AudioOf(segments), MetaOf(segments))
    decreases |segments|
  {
    hide FeedAll, Encode, Moved;
    if segments == [] {
      FeedAllNothing(s);
    } else {
      var first, rest := segments[0], segments[1..];
      assert Fits(first, s.interval);
      var t := FeedAll(s, Encode(first));
      SegmentIsSplit(s, first);
      MovedStart(s, t, first.audio, if first.meta == [] then [] else [first.meta]);
      FeedInChunks(s, Encode(first), Mux(rest, s.interval));
      SplitUndoesMux(t, rest);
      MovedTwice(s, t, FeedAll(t, Mux(rest, s.interval)), first.audio, AudioOf(rest),
                 if first.meta == [] then [] else [first.meta], MetaOf(rest));
    }
  }

  lemma MovedStart(s: State, t: State, a: seq<byte>, m: seq<seq<byte>>)
    requires Moved(s, t, a, m)
    ensures AtStart(t) && t.interval == s.interval
  {}

  lemma FeedAllNothing(s: State)
    requires AtStart(s)
    ensures FeedAll(s, []) == s && Moved(s, s, [], [])
  {}

  /** meta_next and meta_left locate the position after any k bytes of a segment. */
  lemma PositionIsKnown(s: State, g: Segment, k: nat)
    requires AtStart(s) && Fits(g, s.interval) && k < |Encode(g)|
    ensures
      var t := FeedAll(s, Encode(g)[..k]);
      && t.next == (if k <= s.interval then s.interval - k else 0)
      && t.left == (if k <= s.interval then 0 else |g.meta| - (k - s.interval - 1))
  {
    hide FeedAll;
    var length: byte := |g.meta| / 16;
    if k <= s.interval {
      assert Encode(g)[..k] == g.audio[..k];
      FeedAudio(s, g.audio[..k]);
    } else {
      var part := g.meta[..k - s.interval - 1];
      assert 16 * length == |g.meta|;
      assert Encode(g)[..k] == (g.audio + [length]) + part;
      FeedToBlock(s, g, length);
      FeedInChunks(s, g.audio + [length], part);
      if part == [] {
        FeedNothing(Block(BlockAhead(s, g)));
      } else {
        FeedMeta(BlockAhead(s, g), part);
      }
    }
  }

  lemma FeedNothing(s: State)
    requires Good(s)
    ensures FeedAll(s, []) == s
  {}
}
