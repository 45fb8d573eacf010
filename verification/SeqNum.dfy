/** 32-bit sequence-number arithmetic: `uint32_t` addition and subtraction wrap modulo 2^32. */
module SeqNum {

  type u32 = x: nat | x < 0x1_0000_0000

  function Add(a: u32, n: nat): (r: u32) {
    (a + n) % 0x1_0000_0000
  }

  function Sub(a: u32, b: u32): (r: u32) {
    (a - b) % 0x1_0000_0000
  }

  /** A relative sequence number does not see a shift of both operands. */
  lemma SubShift(a: u32, b: u32, c: u32)
    ensures Sub(Add(a, c), Add(b, c)) == Sub(a, b)
  {
  }

  /** Going `n` past a base and taking the base away again gives `n` back. */
  lemma SubAdd(b: u32, n: u32)
    ensures Sub(Add(b, n), b) == n
  {
  }

  /** Different bases give different relative numbers. */
  lemma SubApart(n: u32, a: u32, b: u32)
    requires a != b
    ensures Sub(n, a) != Sub(n, b)
  {
  }

  /** Going on and taking a base away commute. */
  lemma AddAfterSub(n: u32, b: u32, len: u32)
    ensures Add(Sub(n, b), len) == Sub(Add(n, len), b)
  {
  }

  lemma AddTwice(b: u32, n: nat, m: nat)
    ensures Add(Add(b, n), m) == Add(b, n + m)
  {
  }
}
