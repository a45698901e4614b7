/** IP prefixes, and the order in which a prefix table walks them.

    An address is given by its leading bits: `leading[n]` is its first n bits read as a
    number, so a w-bit address has w + 1 of them (w is 32 for IPv4, 128 for IPv6). A prefix is
    an address split at its length into network and host bits; masking forgets the host bits.
    A prefix table is a map keyed by masked prefixes; the prefixes of it that cover an address
    are met from longest to shortest by asking for `NetOf(a, n)` with n falling from the width.
 */
module Prefixes {

  datatype RawAddr = Addr(leading: seq<int>)

  type Addr = a: RawAddr | |a.leading| > 0 witness Addr([0])

  function Width(a: Addr): int {
    |a.leading| - 1
  }

  /** The bits of v that remain when the lowest `drop` of them are shifted out. */
  function ShiftOut(v: nat, drop: nat): nat {
    if drop == 0 then v else ShiftOut(v / 2, drop - 1)
  }

  function AddrOf(value: nat, width: nat): Addr {
    Addr(seq(width + 1, n requires 0 <= n <= width => ShiftOut(value, width - n)))
  }

  datatype Net = Net(bits: int, len: int, width: int)

  datatype Prefix = Prefix(net: Net, host: int)

  function Masked(p: Prefix): Net {
    p.net
  }

  predicate Covers(n: Net, a: Addr) {
    n.width == Width(a) && 0 <= n.len <= Width(a) && n.bits == a.leading[n.len]
  }

  /** The masked prefix of length n that covers a. */
  function NetOf(a: Addr, n: nat): (p: Net)
    requires n <= Width(a)
    ensures Covers(p, a)
  {
    Net(a.leading[n], n, Width(a))
  }

  // ---------------------------------------------------------------- prefixes as ranges of numbers

  function Pow2(n: nat): (p: nat)
    ensures p > 0
  {
    if n == 0 then 1 else 2 * Pow2(n - 1)
  }

  /** Shifting out d bits leaves b exactly for the 2^d numbers that begin with b. */
  lemma {:induction false} ShiftOutIff(v: nat, d: nat, b: int)
    ensures ShiftOut(v, d) == b <==> b * Pow2(d) <= v && v < (b + 1) * Pow2(d)
  {
    if d > 0 {
      ShiftOutIff(v / 2, d - 1, b);
      HalfBetween(v, b * Pow2(d - 1), (b + 1) * Pow2(d - 1));
      Doubled(b, Pow2(d - 1));
      Doubled(b + 1, Pow2(d - 1));
    }
  }

  lemma Doubled(b: int, p: int)
    ensures b * (2 * p) == 2 * (b * p)
  {
  }

  lemma HalfBetween(v: nat, lo: int, hi: int)
    ensures lo <= v / 2 && v / 2 < hi <==> 2 * lo <= v && v < 2 * hi
  {
  }

  /** A prefix covers the numbers from its network address up to the last one with the same
      leading bits. */
  lemma CoversIff(n: Net, value: nat, width: nat)
    ensures Covers(n, AddrOf(value, width)) <==>
            n.width == width && 0 <= n.len <= width
            && n.bits * Pow2(width - n.len) <= value && value < (n.bits + 1) * Pow2(width - n.len)
  {
    if n.width == width && 0 <= n.len <= width {
      ShiftOutIff(value, width - n.len, n.bits);
    }
  }
}
