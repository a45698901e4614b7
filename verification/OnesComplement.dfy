/** The 16-bit one's-complement sum that protects IPv4, TCP and UDP headers (RFC 1071).

    `Checksum` adds words one at a time with an end-around carry, the way the packet code
    uses it; `Fold` is the closed form of RFC 1071 over the plain integer sum of the words.
    `ChecksumIsFold` connects the two, and everything else here is about where words sit.
 */
module OnesComplement {
  import opened Common

  type word = w: int | 0 <= w < 0x1_0000

  const ALL_ONES: word := 0xFFFF

  function Word(hi: byte, lo: byte): (w: word) {
    hi * 0x100 + lo
  }

  function Complement(w: word): (c: word) {
    ALL_ONES - w
  }

  /** One's-complement addition: the carry out of bit 15 is added back in. */
  function AddWithCarry(a: word, b: word): (c: word) {
    if a + b > ALL_ONES then a + b - ALL_ONES else a + b
  }

  /** Running sum over big-endian words; an odd last byte is the high byte of a zero-padded word. */
  function Checksum(s: seq<byte>, initial: word): (sum: word) {
    if |s| == 0 then initial
    else if |s| == 1 then AddWithCarry(initial, Word(s[0], 0))
    else Checksum(s[2..], AddWithCarry(initial, Word(s[0], s[1])))
  }

  /** The same words added as integers. */
  function WordSum(s: seq<byte>): (sum: nat) {
    if |s| == 0 then 0
    else if |s| == 1 then Word(s[0], 0)
    else Word(s[0], s[1]) + WordSum(s[2..])
  }

  /** The one's-complement representative of a sum: zero only for zero, otherwise in 1..0xFFFF. */
  function Fold(n: nat): (w: word) {
    if n == 0 then 0 else (n - 1) % 0xFFFF + 1
  }

  lemma {:induction false} ChecksumIsFold(s: seq<byte>, initial: word)
    ensures Checksum(s, initial) == Fold(initial + WordSum(s))
    decreases |s|
  {
    if |s| == 0 {
      FoldOfWord(initial);
    } else if |s| == 1 {
      FoldAbsorbsCarry(initial, Word(s[0], 0), 0);
    } else {
      var w := Word(s[0], s[1]);
      ChecksumIsFold(s[2..], AddWithCarry(initial, w));
      FoldAbsorbsCarry(initial, w, WordSum(s[2..]));
    }
  }

  lemma FoldOfWord(w: word)
    ensures Fold(w) == w
  {
  }

  lemma FoldAbsorbsCarry(a: word, b: word, rest: nat)
    ensures Fold(AddWithCarry(a, b) + rest) == Fold(a + b + rest)
    ensures rest == 0 ==> Fold(a + b) == AddWithCarry(a, b)
  {
    if a + b > ALL_ONES {
      var n := a + b - ALL_ONES + rest;
      assert (n - 1 + 0xFFFF) % 0xFFFF == (n - 1) % 0xFFFF;
    }
  }

  /** The identity behind checksumming: a sum and the complement of its fold add up to all ones. */
  lemma ComplementCancels(n: nat)
    ensures Fold(n + Complement(Fold(n))) == ALL_ONES
  {
    if n > 0 {
      var q, r := (n - 1) / 0xFFFF, (n - 1) % 0xFFFF;
      assert n + Complement(Fold(n)) - 1 == 0xFFFF * q + 0xFFFE;
      DivMod(q, 0xFFFE);
    }
  }

  /** The field value that makes a sum fold to all ones is unique up to the two zeros. */
  lemma CancellingWord(n: nat, c: word)
    requires n > 0
    ensures Fold(n + c) == ALL_ONES && c != ALL_ONES <==> c == Complement(Fold(n))
  {
    ComplementCancels(n);
    var q, r := (n - 1) / 0xFFFF, (n - 1) % 0xFFFF;
    assert n == 0xFFFF * q + r + 1;
    assert Complement(Fold(n)) == 0xFFFE - r;
    if Fold(n + c) == ALL_ONES && c != ALL_ONES {
      if r + c < 0xFFFF {
        DivMod(q, r + c);
      } else {
        DivMod(q + 1, r + c - 0xFFFF);
      }
    }
  }

  lemma DivMod(q: nat, r: nat)
    requires r < 0xFFFF
    ensures (0xFFFF * q + r) % 0xFFFF == r
  {
  }

  /** Stores a word big-endian at offset k. */
  function SetWord(s: seq<byte>, k: nat, w: word): (t: seq<byte>)
    requires k + 2 <= |s|
    ensures |t| == |s|
    ensures t[k] == w / 0x100 && t[k + 1] == w % 0x100
    ensures forall i :: 0 <= i < |s| && i != k && i != k + 1 ==> t[i] == s[i]
  {
    s[k := w / 0x100][k + 1 := w % 0x100]
  }

  lemma {:induction false} WordSumSet(s: seq<byte>, k: nat, w: word)
    requires k % 2 == 0 && k + 2 <= |s|
    ensures WordSum(SetWord(s, k, w)) + Word(s[k], s[k + 1]) == WordSum(s) + w
    decreases |s|
  {
    var t := SetWord(s, k, w);
    if k == 0 {
      assert t[2..] == s[2..];
    } else {
      WordSumSet(s[2..], k - 2, w);
      assert t[2..] == SetWord(s[2..], k - 2, w);
    }
  }

  /** Writing the complement of the sum taken over a zeroed field makes the whole sum all ones. */
  lemma FilledFieldVerifies(s: seq<byte>, k: nat, initial: word)
    requires k % 2 == 0 && k + 2 <= |s|
    ensures var z := SetWord(s, k, 0);
            Checksum(SetWord(z, k, Complement(Checksum(z, initial))), initial) == ALL_ONES
  {
    var z := SetWord(s, k, 0);
    var c := Complement(Checksum(z, initial));
    var t := SetWord(z, k, c);
    ChecksumIsFold(z, initial);
    ChecksumIsFold(t, initial);
    WordSumSet(z, k, c);
    assert Word(z[k], z[k + 1]) == 0;
    ComplementCancels(initial + WordSum(z));
  }

  lemma SetSame(s: seq<byte>, k: nat, v: word)
    requires k + 2 <= |s|
    ensures SetWord(SetWord(s, k, 0), k, v) == s <==> v == Word(s[k], s[k + 1])
  {
    var t := SetWord(SetWord(s, k, 0), k, v);
    if v == Word(s[k], s[k + 1]) {
      assert t == s;
    }
    assert t[k] == v / 0x100 && t[k + 1] == v % 0x100;
  }

  /** A field already holds that value exactly when the sum verifies and the field is not the
      other zero, 0xFFFF. */
  lemma FilledFieldIsUnique(s: seq<byte>, k: nat, initial: word)
    requires k % 2 == 0 && k + 2 <= |s|
    requires initial + WordSum(SetWord(s, k, 0)) > 0
    ensures var z := SetWord(s, k, 0);
            SetWord(z, k, Complement(Checksum(z, initial))) == s
            <==> Checksum(s, initial) == ALL_ONES && Word(s[k], s[k + 1]) != ALL_ONES
  {
    var z := SetWord(s, k, 0);
    var c := Word(s[k], s[k + 1]);
    var v := Complement(Checksum(z, initial));
    ChecksumIsFold(z, initial);
    ChecksumIsFold(s, initial);
    WordSumSet(s, k, 0);
    CancellingWord(initial + WordSum(z), c);
    SetSame(s, k, v);
  }
}
