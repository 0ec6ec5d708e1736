/** The packet framing of `slimproto_run`: a two-byte length, then that many bytes, over arbitrary reads. */
module Framing {
  import opened Bytes
  import opened Sockets

  const MAXBUF: nat := 4096

  /**
   * The bytes still to come, those in the buffer, the packets handed to `process`, and whether the loop has ended;
   * `lookup` is what looking up the address of the network server comes to, which decides of one kind of packet.
   */
  datatype State = State(needed: nat, buffer: seq<byte>, dispatched: seq<seq<byte>>, dead: bool, lookup: bool)

  function BigEndian(hi: byte, lo: byte): nat {
    var h: nat := hi;
    h * 256 + lo
  }

  function Idle(lookup: bool): State {
    State(0, [], [], false, lookup)
  }

  const SERV: seq<byte> := [0x73, 0x65, 0x72, 0x76]

  /** A packet 'serv' of sufficient length that names another server; 0.0.0.1 stands for the network server. */
  predicate Switches(p: seq<byte>, lookup: bool) {
    |p| >= 8 && p[..4] == SERV && if p[4..8] == [0, 0, 0, 1] then lookup else p[4..8] != [0, 0, 0, 0]
  }

  predicate Good(s: State) {
    !s.dead ==> |s.buffer| + s.needed <= MAXBUF && (s.needed == 0 ==> |s.buffer| < 2)
  }

  /** Told by the address a 'serv' packet carries: every address but 0.0.0.0 and, if it cannot be looked up, 0.0.0.1. */
  lemma ServerNamed(ip: seq<byte>, rest: seq<byte>, lookup: bool)
    requires |ip| == 4
    ensures Switches(SERV + ip + rest, lookup) <==> ip != [0, 0, 0, 0] && (ip == [0, 0, 0, 1] ==> lookup)
  {
    var p := SERV + ip + rest;
    assert p[..4] == SERV && p[4..8] == ip;
  }

  function Feed(s: State, b: byte): (r: State)
    requires Good(s)
    ensures Good(r)
  {
    if s.dead then s
    else if s.needed > 0 then Body(s.(needed := s.needed - 1, buffer := s.buffer + [b]))
    else Length(s.(buffer := s.buffer + [b]))
  }

  function Body(s: State): State {
    if s.needed > 0 then s
    else s.(buffer := [], dispatched := s.dispatched + [s.buffer], dead := Switches(s.buffer, s.lookup))
  }

  function Length(s: State): State
    requires |s.buffer| <= 2
  {
    if |s.buffer| < 2 then s
    else
      var needed := BigEndian(s.buffer[0], s.buffer[1]);
      s.(needed := needed, buffer := [], dead := needed < 4 || needed > MAXBUF)
  }

  function FeedAll(s: State, bs: seq<byte>): (r: State)
    requires Good(s)
    ensures Good(r)
    decreases |bs|
  {
    if bs == [] then s else FeedAll(Feed(s, bs[0]), bs[1..])
  }

  lemma {:induction false} FeedInChunks(s: State, a: seq<byte>, b: seq<byte>)
    requires Good(s)
    ensures FeedAll(s, a + b) == FeedAll(FeedAll(s, a), b)
    decreases |a|
  {
    hide Feed;
    if a == [] {
      assert a + b == b;
    } else {
      assert (a + b)[1..] == a[1..] + b;
      FeedInChunks(Feed(s, a[0]), a[1..], b);
    }
  }

  lemma {:induction false} FeedBody(s: State, bs: seq<byte>)
    requires Good(s) && !s.dead && 0 < |bs| <= s.needed
    ensures FeedAll(s, bs) == Body(s.(needed := s.needed - |bs|, buffer := s.buffer + bs))
    decreases |bs|
  {
    assert s.buffer + [bs[0]] + bs[1..] == s.buffer + bs;
    if |bs| == 1 {
      assert bs == [bs[0]] && bs[1..] == [];
    } else {
      FeedBody(Feed(s, bs[0]), bs[1..]);
    }
  }

  lemma {:induction false} FeedLength(s: State, bs: seq<byte>)
    requires Good(s) && !s.dead && s.needed == 0 && 0 < |bs| <= 2 - |s.buffer|
    ensures FeedAll(s, bs) == Length(s.(buffer := s.buffer + bs))
    decreases |bs|
  {
    assert s.buffer + [bs[0]] + bs[1..] == s.buffer + bs;
    if |bs| == 1 {
      assert bs == [bs[0]] && bs[1..] == [];
    } else {
      FeedLength(Feed(s, bs[0]), bs[1..]);
    }
  }

  /** The reader half of the controller loop, with its fixed buffer. */
  class Reader {
    const buffer: array<byte>
    const lookup: bool
    var needed: nat
    var got: nat
    var dispatched: seq<seq<byte>>
    var dead: bool

    ghost predicate Valid()
      reads this, buffer
    {
      buffer.Length == MAXBUF && got <= MAXBUF && Good(Now())
    }

    ghost function Now(): State
      requires buffer.Length == MAXBUF && got <= MAXBUF
      reads this, buffer
    {
      State(needed, buffer[..got], dispatched, dead, lookup)
    }

    constructor (lookup: bool)
      ensures Valid() && Now() == Idle(lookup) && fresh(buffer)
    {
      this.lookup := lookup;
      buffer := new byte[MAXBUF](_ => 0);
      needed, got, dispatched, dead := 0, 0, [], false;
    }

    /** One EVENT_READ. */
    method OnRead(socket: Socket) returns (consumed: nat)
      requires Valid() && socket.Valid() && !dead
      modifies this, buffer, socket
      ensures Valid() && socket.Valid()
      ensures consumed <= |old(socket.unread)| && socket.unread == old(socket.unread)[consumed..]
      ensures Now() == FeedAll(old(Now()), old(socket.unread)[..consumed])
    {
      hide FeedAll;
      FeedNothing(Now());
      ghost var s := Now();
      var n, bytes := socket.Recv(if needed > 0 then needed else 2 - got);
      if n <= 0 {
        return 0;
      }
      consumed := n;
      if needed > 0 {
        FeedBody(s, bytes);
        Store(bytes);
        needed := needed - n;
        if needed == 0 {
          dispatched := dispatched + [buffer[..got]];
          dead := Switches(buffer[..got], lookup);
          got := 0;
        }
      } else {
        FeedLength(s, bytes);
        Store(bytes);
        if got == 2 {
          needed := BigEndian(buffer[0], buffer[1]);
          got := 0;
          dead := needed < 4 || needed > MAXBUF;
        }
      }
    }

    lemma FeedNothing(s: State)
      requires Good(s)
      ensures FeedAll(s, []) == s
    {}

    /** What recv leaves in buffer + got; there is always room. */
    method Store(bytes: seq<byte>)
      requires buffer.Length == MAXBUF && got + |bytes| <= MAXBUF
      modifies `got, buffer
      ensures got == old(got) + |bytes| && buffer[..got] == old(buffer[..got]) + bytes
    {
      var i := 0;
      while i < |bytes|
        invariant 0 <= i <= |bytes| && got == old(got) + i
        invariant buffer[..got] == old(buffer[..got]) + bytes[..i]
      {
        buffer[got] := bytes[i];
        got := got + 1;
        i := i + 1;
      }
    }
  }

  // ---------------------------------------------------------------- packets

  predicate Sendable(p: seq<byte>) {
    4 <= |p| <= MAXBUF
  }

  function Encode(p: seq<byte>): seq<byte>
    requires Sendable(p)
  {
    var hi: byte, lo: byte := |p| / 256, |p| % 256;
    [hi, lo] + p
  }

  function EncodeAll(ps: seq<seq<byte>>): seq<byte>
    requires forall p | p in ps :: Sendable(p)
  {
    if ps == [] then [] else Encode(ps[0]) + EncodeAll(ps[1..])
  }

  lemma PacketIsFramed(s: State, p: seq<byte>)
    requires !s.dead && s.needed == 0 && s.buffer == [] && 4 <= |p| <= 4096
    ensures FeedAll(s, Encode(p)) == s.(dispatched := s.dispatched + [p], dead := Switches(p, s.lookup))
  {
    var hi: byte, lo: byte := |p| / 256, |p| % 256;
    var head := [hi, lo];
    assert [] + head == head && [] + p == p;
    assert BigEndian(hi, lo) == |p|;
    var t := Length(s.(buffer := head));
    assert t == s.(needed := |p|);
    hide FeedAll, Length, Switches;
    FeedLength(s, head);
    FeedInChunks(s, head, p);
    FeedBody(t, p);
  }

  lemma {:induction false} DeadStaysDead(s: State, bs: seq<byte>)
    requires s.dead
    ensures FeedAll(s, bs) == s
  {
    if bs != [] {
      DeadStaysDead(s, bs[1..]);
    }
  }

  /** Up to and with the first packet that names another server: the loop ends there. */
  function Served(ps: seq<seq<byte>>, lookup: bool): seq<seq<byte>> {
    if ps == [] then []
    else if Switches(ps[0], lookup) then [ps[0]]
    else [ps[0]] + Served(ps[1..], lookup)
  }

  lemma {:induction false} ServedIff(ps: seq<seq<byte>>, lookup: bool)
    ensures Served(ps, lookup) <= ps
    ensures Served(ps, lookup) == ps <==> forall k | 0 <= k < |ps| - 1 :: !Switches(ps[k], lookup)
  {
    hide Switches;
    if ps != [] {
      ServedIff(ps[1..], lookup);
      assert ps == [ps[0]] + ps[1..];
      assert forall k | 0 < k < |ps| - 1 :: ps[k] == ps[1..][k - 1];
      assert forall k | 0 <= k < |ps| - 2 :: ps[1..][k] == ps[k + 1];
    }
  }

  /** One of the packets names another server. */
  predicate Switched(ps: seq<seq<byte>>, lookup: bool) {
    ps != [] && (Switches(ps[0], lookup) || Switched(ps[1..], lookup))
  }

  lemma ServedStep(ps: seq<seq<byte>>, lookup: bool, before: seq<seq<byte>>)
    requires ps != []
    ensures Switched(ps, lookup) <==> Switches(ps[0], lookup) || Switched(ps[1..], lookup)
    ensures Switches(ps[0], lookup) ==> before + Served(ps, lookup) == before + [ps[0]]
    ensures !Switches(ps[0], lookup) ==> before + Served(ps, lookup) == before + [ps[0]] + Served(ps[1..], lookup)
  {
    hide Switches;
    Assoc(before, [ps[0]], Served(ps[1..], lookup));
  }

  lemma Assoc<T>(a: seq<T>, b: seq<T>, c: seq<T>)
    ensures a + (b + c) == a + b + c
  {}

  lemma NothingServed(lookup: bool, before: seq<seq<byte>>)
    ensures before + Served([], lookup) == before && !Switched([], lookup)
  {}

  /** Exactly the packets that were sent are dispatched, in order, until one of them names another server. */
  lemma {:induction false} PacketsAreFramed(s: State, ps: seq<seq<byte>>)
    requires !s.dead && s.needed == 0 && s.buffer == [] && forall p | p in ps :: Sendable(p)
    ensures FeedAll(s, EncodeAll(ps))
         == s.(dispatched := s.dispatched + Served(ps, s.lookup), dead := Switched(ps, s.lookup))
    decreases |ps|
  {
    hide Switches, Switched, Served;
    if ps == [] {
      NothingServed(s.lookup, s.dispatched);
    } else {
      hide FeedAll, Encode;
      assert Sendable(ps[0]);
      PacketIsFramed(s, ps[0]);
      ServedStep(ps, s.lookup, s.dispatched);
      var t := s.(dispatched := s.dispatched + [ps[0]], dead := Switches(ps[0], s.lookup));
      FeedInChunks(s, Encode(ps[0]), EncodeAll(ps[1..]));
      if t.dead {
        DeadStaysDead(t, EncodeAll(ps[1..]));
      } else {
        PacketsAreFramed(t, ps[1..]);
      }
    }
  }

  /** From the beginning of a connection, and over whatever reads the packets come. */
  lemma ConnectionIsServed(ps: seq<seq<byte>>, lookup: bool)
    requires forall p | p in ps :: 4 <= |p| <= 4096
    ensures forall p | p in ps :: Sendable(p)
    ensures FeedAll(Idle(lookup), EncodeAll(ps)).dispatched == Served(ps, lookup)
  {
    hide FeedAll, EncodeAll, Served;
    PacketsAreFramed(Idle(lookup), ps);
    assert [] + Served(ps, lookup) == Served(ps, lookup);
  }

  /** A length outside 4..4096 ends the connection: nothing sent after it is dispatched. */
  lemma BadLength(s: State, hi: byte, lo: byte, rest: seq<byte>)
    requires !s.dead && s.needed == 0 && s.buffer == []
    requires BigEndian(hi, lo) < 4 || BigEndian(hi, lo) > MAXBUF
    ensures FeedAll(s, [hi, lo] + rest).dispatched == s.dispatched && FeedAll(s, [hi, lo] + rest).dead
  {
    assert [] + [hi, lo] == [hi, lo];
    var t := Length(s.(buffer := [hi, lo]));
    hide FeedAll, BigEndian;
    FeedLength(s, [hi, lo]);
    FeedInChunks(s, [hi, lo], rest);
    DeadStaysDead(t, rest);
  }
}
