/** Unsigned 32-bit arithmetic, made explicit. */
module Machine {
  function U32(x: int): nat {
    x % 0x1_0000_0000
  }

  lemma SmallU32(x: nat)
    requires x < 0x1_0000_0000
    ensures U32(x) == x
  {}

  lemma AddU32(a: nat, b: nat)
    ensures U32(U32(a) + b) == U32(a + b)
  {
    var q := a / 0x1_0000_0000;
    assert a + b == U32(a) + b + 0x1_0000_0000 * q;
    WholeTurns(U32(a) + b, q);
  }

  lemma {:induction false} WholeTurns(x: nat, q: nat)
    ensures U32(x + 0x1_0000_0000 * q) == U32(x)
  {
    if q > 0 {
      WholeTurns(x, q - 1);
      var y := x + 0x1_0000_0000 * (q - 1);
      assert U32(y + 0x1_0000_0000) == U32(y);
    }
  }
}
