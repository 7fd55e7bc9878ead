/** Unsigned machine words as Go computes with them: sums wrap. */
module Words {
  const U16: nat := 0x1_0000
  const U32: nat := 0x1_0000_0000
  const U64: nat := 0x1_0000_0000_0000_0000

  type u16 = n: nat | n < U16
  type u32 = n: nat | n < U32
  type u64 = n: nat | n < U64

  type Byte = n: nat | n < 256

  /** b to the power k. */
  function Pow(b: nat, k: nat): (p: nat)
    ensures b > 0 ==> p > 0
  {
    if k == 0 then 1 else b * Pow(b, k - 1)
  }

  function Add64(a: u64, b: u64): u64 { (a + b) % U64 }

  /** Congruence modulo 2^64: what survives of an unbounded count. */
  predicate Same64(a: int, b: int) { a % U64 == b % U64 }

  lemma AddMod(a: int, b: int)
    ensures (a % U64 + b) % U64 == (a + b) % U64
  {
    var q := a / U64;
    assert a + b == (a % U64 + b) + q * U64;
    ModPlus(a % U64 + b, q);
  }

  lemma {:induction false} ModPlus(a: int, q: int)
    ensures (a + q * U64) % U64 == a % U64
    decreases if q < 0 then -q else q
  {
    if q < 0 {
      ModPlus(a, q + 1);
      assert (a + q * U64) % U64 == (a + q * U64 + U64) % U64;
    } else if q > 0 {
      ModPlus(a, q - 1);
      assert (a + q * U64) % U64 == (a + q * U64 - U64) % U64;
    }
  }

  lemma SameAdd(a: int, b: int, x: int, y: int)
    requires Same64(a, b) && Same64(x, y)
    ensures Same64(a + x, b + y)
  {
    AddMod(a, x);
    AddMod(b, x);
    AddMod(x, b);
    AddMod(y, b);
  }

  lemma WrapSame(a: int)
    ensures Same64(a % U64, a)
  {
    AddMod(a, 0);
  }
}
