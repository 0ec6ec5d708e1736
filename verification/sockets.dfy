/** Non-blocking reads that return any number of bytes. */
module Sockets {
  import opened Bytes

  /** A socket that answers each request with any number of the bytes still to come, or with nothing yet. */
  class Socket {
    ghost var unread: seq<byte>
    var arriving: seq<byte>
    var answers: seq<int>

    ghost predicate Valid()
      reads this
    {
      unread == arriving
    }

    /** n > 0 bytes, at most `want`; 0 or less when there is nothing to read now or ever again. */
    method Recv(want: nat) returns (n: int, bytes: seq<byte>)
      requires Valid()
      modifies this
      ensures Valid() && n <= want && n <= |old(unread)|
      ensures n > 0 ==> bytes == old(unread)[..n] && unread == old(unread)[n..]
      ensures n <= 0 ==> bytes == [] && unread == old(unread)
    {
      n, bytes := 0, [];
      if answers != [] {
        n := answers[0];
        answers := answers[1..];
      }
      if n > want {
        n := want;
      }
      if n > |arriving| {
        n := |arriving|;
      }
      if n > 0 {
        bytes := arriving[..n];
        arriving := arriving[n..];
        unread := arriving;
      }
    }
  }
}
