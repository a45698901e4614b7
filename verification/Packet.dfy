/** IPv4 packets as bytes, and the two address rewrites of the proxy: set an address, then
    recompute the IPv4 header checksum and the TCP or UDP checksum.

    `Rewritten` is what the rewrite does to a byte sequence. The lemmas say what that means
    against RFC 791, RFC 9293 and RFC 768: the result verifies, nothing else changes, and
    exactly which packets a rewrite back restores.
 */
module Packet {
  import opened Common
  import opened OnesComplement

  const IPV4_MINIMUM_SIZE := 20
  const TCP_MINIMUM_SIZE := 20
  const UDP_MINIMUM_SIZE := 8

  type Addr4 = a: seq<byte> | |a| == 4 witness [0, 0, 0, 0]

  datatype AddrField = Source | Destination {
    function Offset(): (k: nat) {
      if Source? then 12 else 16
    }
  }

  function HeaderLen(p: seq<byte>): (n: nat)
    requires |p| >= 1
  {
    p[0] % 16 * 4
  }

  /** What the rewrite may be called on without a slice going out of range. */
  predicate Sliceable(p: seq<byte>) {
    |p| >= IPV4_MINIMUM_SIZE && HeaderLen(p) <= |p|
  }

  /** An IPv4 packet in the sense of section 3.1 of RFC 791 that fills its buffer exactly. */
  predicate WellFormed(p: seq<byte>) {
    && Sliceable(p)
    && p[0] / 16 == 4
    && HeaderLen(p) >= IPV4_MINIMUM_SIZE
    && Word(p[2], p[3]) == |p|
  }

  function Proto(p: seq<byte>): byte
    requires |p| >= IPV4_MINIMUM_SIZE
  {
    p[9]
  }

  function AddrAt(p: seq<byte>, f: AddrField): (a: Addr4)
    requires |p| >= IPV4_MINIMUM_SIZE
  {
    p[f.Offset()..f.Offset() + 4]
  }

  function SourceOf(p: seq<byte>): Addr4
    requires |p| >= IPV4_MINIMUM_SIZE
  {
    AddrAt(p, Source)
  }

  function DestinationOf(p: seq<byte>): Addr4
    requires |p| >= IPV4_MINIMUM_SIZE
  {
    AddrAt(p, Destination)
  }

  function PutAddr(p: seq<byte>, f: AddrField, a: Addr4): (q: seq<byte>)
    requires |p| >= IPV4_MINIMUM_SIZE
    ensures |q| == |p| && AddrAt(q, f) == a
    ensures forall i :: 0 <= i < |p| && !(f.Offset() <= i < f.Offset() + 4) ==> q[i] == p[i]
  {
    p[..f.Offset()] + a + p[f.Offset() + 4..]
  }

  predicate CarriesTcp(p: seq<byte>)
    requires |p| >= IPV4_MINIMUM_SIZE
  {
    Proto(p) == TCP && |p| >= HeaderLen(p) + TCP_MINIMUM_SIZE
  }

  predicate CarriesUdp(p: seq<byte>)
    requires |p| >= IPV4_MINIMUM_SIZE
  {
    Proto(p) == UDP && |p| >= HeaderLen(p) + UDP_MINIMUM_SIZE
  }

  predicate CarriesTransport(p: seq<byte>)
    requires |p| >= IPV4_MINIMUM_SIZE
  {
    CarriesTcp(p) || CarriesUdp(p)
  }

  /** Ports as the handlers read them; packets without a complete TCP or UDP header have none. */
  function SourcePort(p: seq<byte>): (port: word)
    requires |p| >= IPV4_MINIMUM_SIZE
  {
    if CarriesTransport(p) then Word(p[HeaderLen(p)], p[HeaderLen(p) + 1]) else 0
  }

  function DestinationPort(p: seq<byte>): (port: word)
    requires |p| >= IPV4_MINIMUM_SIZE
  {
    if CarriesTransport(p) then Word(p[HeaderLen(p) + 2], p[HeaderLen(p) + 3]) else 0
  }

  /** Where the transport checksum sits: 16 bytes into a TCP header, 6 into a UDP header. */
  function TransportField(p: seq<byte>): (k: nat)
    requires |p| >= IPV4_MINIMUM_SIZE && CarriesTransport(p)
    ensures HeaderLen(p) <= k && k + 2 <= |p| && k % 2 == 0
  {
    HeaderLen(p) + (if CarriesTcp(p) then 16 else 6)
  }

  function PseudoHeaderChecksum(proto: byte, src: Addr4, dst: Addr4, length: word): (sum: word) {
    var addresses := Checksum(dst, Checksum(src, 0));
    Checksum([0, proto], Checksum([length / 0x100, length % 0x100], addresses))
  }

  function WithHeaderChecksum(p: seq<byte>): (q: seq<byte>)
    requires Sliceable(p)
    ensures |q| == |p|
    ensures forall i :: 0 <= i < |p| && i != 10 && i != 11 ==> q[i] == p[i]
  {
    var z := SetWord(p, 10, 0);
    SetWord(z, 10, Complement(Checksum(z[..HeaderLen(p)], 0)))
  }

  function SegmentInitial(p: seq<byte>): (sum: word)
    requires Sliceable(p)
  {
    PseudoHeaderChecksum(Proto(p), SourceOf(p), DestinationOf(p), (|p| - HeaderLen(p)) % 0x1_0000)
  }

  function WithTransportChecksum(p: seq<byte>): (q: seq<byte>)
    requires Sliceable(p)
    ensures |q| == |p|
    ensures forall i :: 0 <= i < |p| && (CarriesTransport(p) ==> i != TransportField(p) && i != TransportField(p) + 1)
                        ==> q[i] == p[i]
  {
    if CarriesTransport(p) then
      var z := SetWord(p, TransportField(p), 0);
      SetWord(z, TransportField(p), Complement(Checksum(z[HeaderLen(p)..], SegmentInitial(p))))
    else
      p
  }

  /** The whole rewrite: the address, then the header checksum, then the transport checksum. */
  function Rewritten(p: seq<byte>, f: AddrField, a: Addr4): (q: seq<byte>)
    requires Sliceable(p)
    ensures |q| == |p|
  {
    WithTransportChecksum(WithHeaderChecksum(PutAddr(p, f, a)))
  }

  // ---------------------------------------------------------------- the imperative rewrite

  method PutWord(pkt: array<byte>, k: nat, w: word)
    requires k + 2 <= pkt.Length
    modifies pkt
    ensures pkt[..] == SetWord(old(pkt[..]), k, w)
  {
    pkt[k] := w / 0x100;
    pkt[k + 1] := w % 0x100;
  }

  method FillHeaderChecksum(pkt: array<byte>, headerLen: nat)
    requires Sliceable(pkt[..]) && headerLen == HeaderLen(pkt[..])
    modifies pkt
    ensures pkt[..] == WithHeaderChecksum(old(pkt[..]))
  {
    PutWord(pkt, 10, 0);
    assert pkt[..headerLen] == pkt[..][..headerLen];
    PutWord(pkt, 10, Complement(Checksum(pkt[..headerLen], 0)));
  }

  method FillTransportChecksum(pkt: array<byte>, headerLen: nat)
    requires Sliceable(pkt[..]) && headerLen == HeaderLen(pkt[..])
    modifies pkt
    ensures pkt[..] == WithTransportChecksum(old(pkt[..]))
  {
    var field;
    if pkt[9] == TCP && pkt.Length >= headerLen + TCP_MINIMUM_SIZE {
      field := headerLen + 16;
    } else if pkt[9] == UDP && pkt.Length >= headerLen + UDP_MINIMUM_SIZE {
      field := headerLen + 6;
    } else {
      return;
    }
    var xsum := PseudoHeaderChecksum(pkt[9], pkt[12..16], pkt[16..20], (pkt.Length - headerLen) % 0x1_0000);
    assert pkt[12..16] == pkt[..][12..16] && pkt[16..20] == pkt[..][16..20];
    PutWord(pkt, field, 0);
    assert pkt[headerLen..] == pkt[..][headerLen..];
    PutWord(pkt, field, Complement(Checksum(pkt[headerLen..], xsum)));
  }

  /** Copies the packet and rewrites the copy in place; null for a packet too short to hold a
      header. The caller's buffer is left alone. */
  method RewriteAddress(packet: array<byte>, f: AddrField, a: Addr4) returns (pkt: array?<byte>)
    requires packet.Length >= IPV4_MINIMUM_SIZE ==> Sliceable(packet[..])
    ensures pkt == null <==> packet.Length < IPV4_MINIMUM_SIZE
    ensures pkt != null ==> fresh(pkt) && pkt[..] == Rewritten(packet[..], f, a)
  {
    if packet.Length < IPV4_MINIMUM_SIZE {
      return null;
    }
    pkt := new byte[packet.Length](i requires 0 <= i < packet.Length reads packet => packet[i]);
    assert pkt[..] == packet[..];
    var headerLen := pkt[0] % 16 * 4;
    var at := f.Offset();
    pkt[at], pkt[at + 1], pkt[at + 2], pkt[at + 3] := a[0], a[1], a[2], a[3];
    assert pkt[..] == PutAddr(packet[..], f, a);
    FillHeaderChecksum(pkt, headerLen);
    FillTransportChecksum(pkt, headerLen);
  }

  method RewriteDestination(packet: array<byte>, newDst: Addr4) returns (pkt: array?<byte>)
    requires packet.Length >= IPV4_MINIMUM_SIZE ==> Sliceable(packet[..])
    ensures pkt == null <==> packet.Length < IPV4_MINIMUM_SIZE
    ensures pkt != null ==> fresh(pkt) && pkt[..] == Rewritten(packet[..], Destination, newDst)
  {
    pkt := RewriteAddress(packet, Destination, newDst);
  }

  method RewriteSource(packet: array<byte>, newSrc: Addr4) returns (pkt: array?<byte>)
    requires packet.Length >= IPV4_MINIMUM_SIZE ==> Sliceable(packet[..])
    ensures pkt == null <==> packet.Length < IPV4_MINIMUM_SIZE
    ensures pkt != null ==> fresh(pkt) && pkt[..] == Rewritten(packet[..], Source, newSrc)
  {
    pkt := RewriteAddress(packet, Source, newSrc);
  }

  // ---------------------------------------------------------------- what verifying means

  /** Section 3.1 of RFC 791: the header's words, checksum included, fold to all ones. */
  predicate HeaderVerifies(p: seq<byte>)
    requires Sliceable(p)
  {
    Fold(WordSum(p[..HeaderLen(p)])) == ALL_ONES
  }

  /** The pseudo-header of section 3.1 of RFC 9293 and of RFC 768, as the bytes it stands for. */
  function PseudoHeader(p: seq<byte>): (h: seq<byte>)
    requires WellFormed(p)
    ensures |h| == 12
  {
    var length := Word(p[2], p[3]) - HeaderLen(p);
    SourceOf(p) + DestinationOf(p) + [0, Proto(p), length / 0x100, length % 0x100]
  }

  predicate TransportVerifies(p: seq<byte>)
    requires WellFormed(p)
  {
    Fold(WordSum(PseudoHeader(p) + p[HeaderLen(p)..])) == ALL_ONES
  }

  lemma {:induction false} WordSumConcat(a: seq<byte>, b: seq<byte>)
    requires |a| % 2 == 0
    ensures WordSum(a + b) == WordSum(a) + WordSum(b)
    decreases |a|
  {
    if a == [] {
      assert a + b == b;
    } else {
      assert (a + b)[2..] == a[2..] + b;
      WordSumConcat(a[2..], b);
    }
  }

  lemma ContinueFold(b: seq<byte>, n: nat)
    ensures Checksum(b, Fold(n)) == Fold(n + WordSum(b))
  {
    ChecksumIsFold(b, Fold(n));
    FoldTwice(n, WordSum(b));
  }

  lemma PseudoHeaderFold(proto: byte, src: Addr4, dst: Addr4, length: word)
    ensures PseudoHeaderChecksum(proto, src, dst, length) == Fold(WordSum(src) + WordSum(dst) + length + proto)
  {
    var len: seq<byte> := [length / 0x100, length % 0x100];
    ContinueFold(src, 0);
    ContinueFold(dst, WordSum(src));
    ContinueFold(len, WordSum(src) + WordSum(dst));
    ContinueFold([0, proto], WordSum(src) + WordSum(dst) + WordSum(len));
    TwoByteWord(length / 0x100, length % 0x100);
    TwoByteWord(0, proto);
  }

  lemma TwoByteWord(hi: byte, lo: byte)
    ensures WordSum([hi, lo]) == Word(hi, lo)
  {
  }

  lemma PseudoHeaderWords(p: seq<byte>)
    requires WellFormed(p)
    ensures WordSum(PseudoHeader(p))
            == WordSum(SourceOf(p)) + WordSum(DestinationOf(p)) + (|p| - HeaderLen(p)) + Proto(p)
  {
    var src, dst := SourceOf(p), DestinationOf(p);
    var length: word := |p| - HeaderLen(p);
    var tail: seq<byte> := [0, Proto(p), length / 0x100, length % 0x100];
    assert PseudoHeader(p) == src + (dst + tail);
    WordSumConcat(src, dst + tail);
    WordSumConcat(dst, tail);
    var len: seq<byte> := [length / 0x100, length % 0x100];
    assert tail == [0, Proto(p)] + len;
    WordSumConcat([0, Proto(p)], len);
    assert WordSum([0, Proto(p)]) == Proto(p) && WordSum(len) == length;
  }

  lemma SegmentInitialFold(p: seq<byte>)
    requires WellFormed(p)
    ensures SegmentInitial(p) == Fold(WordSum(PseudoHeader(p)))
  {
    PseudoHeaderWords(p);
    var length: word := |p| - HeaderLen(p);
    assert length % 0x1_0000 == length;
    PseudoHeaderFold(Proto(p), SourceOf(p), DestinationOf(p), length);
  }

  /** Starting from the pseudo-header sum gives the RFC's sum over pseudo-header and segment. */
  lemma SegmentChecksum(p: seq<byte>, seg: seq<byte>)
    requires WellFormed(p)
    ensures Checksum(seg, SegmentInitial(p)) == Fold(WordSum(PseudoHeader(p) + seg))
  {
    SegmentInitialFold(p);
    ContinueFold(seg, WordSum(PseudoHeader(p)));
    WordSumConcat(PseudoHeader(p), seg);
  }

  lemma SegmentInitialPositive(p: seq<byte>)
    requires WellFormed(p) && Proto(p) != 0
    ensures SegmentInitial(p) > 0
  {
    SegmentInitialFold(p);
    PseudoHeaderWords(p);
    FoldTwice(0, WordSum(PseudoHeader(p)));
  }

  lemma FoldTwice(m: nat, n: nat)
    ensures Fold(Fold(m) + n) == Fold(m + n)
    ensures m + n > 0 ==> Fold(m + n) > 0
  {
    if m > 0 {
      var q, r := (m - 1) / 0xFFFF, (m - 1) % 0xFFFF;
      assert m + n - 1 == (r + n) + 0xFFFF * q;
      ModShift(r + n, q);
    }
  }

  lemma {:induction false} ModShift(a: nat, q: nat)
    ensures (a + 0xFFFF * q) % 0xFFFF == a % 0xFFFF
    decreases q
  {
    if q > 0 {
      ModShift(a, q - 1);
      assert (a + 0xFFFF * (q - 1) + 0xFFFF) % 0xFFFF == (a + 0xFFFF * (q - 1)) % 0xFFFF;
    }
  }

  // ---------------------------------------------------------------- the rewrite is correct

  lemma HeaderChecksumVerifies(p: seq<byte>)
    requires Sliceable(p) && HeaderLen(p) >= IPV4_MINIMUM_SIZE
    ensures Sliceable(WithHeaderChecksum(p)) && HeaderVerifies(WithHeaderChecksum(p))
  {
    var n := HeaderLen(p);
    var z := SetWord(p, 10, 0);
    var q := WithHeaderChecksum(p);
    FilledFieldVerifies(p[..n], 10, 0);
    assert SetWord(p[..n], 10, 0) == z[..n];
    assert q[..n] == SetWord(z[..n], 10, Complement(Checksum(z[..n], 0)));
    ChecksumIsFold(q[..n], 0);
  }

  lemma TransportChecksumVerifies(p: seq<byte>)
    requires WellFormed(p) && CarriesTransport(p)
    ensures WellFormed(WithTransportChecksum(p)) && TransportVerifies(WithTransportChecksum(p))
  {
    var n := HeaderLen(p);
    var k := TransportField(p);
    var z := SetWord(p, k, 0);
    var q := WithTransportChecksum(p);
    var init := SegmentInitial(p);
    FilledFieldVerifies(p[n..], k - n, init);
    assert SetWord(p[n..], k - n, 0) == z[n..];
    assert q[n..] == SetWord(z[n..], k - n, Complement(Checksum(z[n..], init)));
    SameHeader(p, q);
    SegmentChecksum(q, q[n..]);
  }

  /** Packets that agree on the header agree on everything read from it. */
  lemma SameHeader(p: seq<byte>, q: seq<byte>)
    requires WellFormed(p) && |q| == |p|
    requires forall i :: 0 <= i < HeaderLen(p) && i != 10 && i != 11 ==> q[i] == p[i]
    ensures WellFormed(q) && HeaderLen(q) == HeaderLen(p)
    ensures Proto(q) == Proto(p) && SourceOf(q) == SourceOf(p) && DestinationOf(q) == DestinationOf(p)
    ensures SegmentInitial(q) == SegmentInitial(p) && PseudoHeader(q) == PseudoHeader(p)
    ensures CarriesTcp(q) == CarriesTcp(p) && CarriesUdp(q) == CarriesUdp(p)
  {
  }

  /** A rewrite yields a well-formed packet with the new address whose header and transport
      checksums both verify. */
  lemma RewriteVerifies(p: seq<byte>, f: AddrField, a: Addr4)
    requires WellFormed(p)
    ensures var q := Rewritten(p, f, a);
            && WellFormed(q)
            && AddrAt(q, f) == a
            && HeaderVerifies(q)
            && (CarriesTransport(q) ==> TransportVerifies(q))
  {
    var r := PutAddr(p, f, a);
    var h := WithHeaderChecksum(r);
    var q := WithTransportChecksum(h);
    HeaderChecksumVerifies(r);
    SameHeader(h, q);
    assert q[..HeaderLen(h)] == h[..HeaderLen(h)];
    if CarriesTransport(h) {
      TransportChecksumVerifies(h);
    }
  }

  /** Which bytes a rewrite may change. */
  predicate IsRewrittenByte(p: seq<byte>, f: AddrField, i: nat)
    requires |p| >= IPV4_MINIMUM_SIZE
  {
    || f.Offset() <= i < f.Offset() + 4
    || i == 10 || i == 11
    || (CarriesTransport(p) && (i == TransportField(p) || i == TransportField(p) + 1))
  }

  lemma RewriteBytes(p: seq<byte>, f: AddrField, a: Addr4)
    requires WellFormed(p)
    ensures var q := Rewritten(p, f, a);
            forall i :: 0 <= i < |p| && !IsRewrittenByte(p, f, i) ==> q[i] == p[i]
  {
    var r := PutAddr(p, f, a);
    var h := WithHeaderChecksum(r);
    assert HeaderLen(h) == HeaderLen(p) && CarriesTcp(h) == CarriesTcp(p) && CarriesUdp(h) == CarriesUdp(p);
  }

  /** Every other byte is kept, hence the other address, the ports and the payload. */
  lemma RewriteKeepsTheRest(p: seq<byte>, f: AddrField, a: Addr4)
    requires WellFormed(p)
    ensures var q := Rewritten(p, f, a);
            var other := if f.Source? then Destination else Source;
            && (forall i :: 0 <= i < |p| && !IsRewrittenByte(p, f, i) ==> q[i] == p[i])
            && HeaderLen(q) == HeaderLen(p) && Proto(q) == Proto(p)
            && AddrAt(q, other) == AddrAt(p, other)
            && CarriesTcp(q) == CarriesTcp(p) && CarriesUdp(q) == CarriesUdp(p)
            && SourcePort(q) == SourcePort(p) && DestinationPort(q) == DestinationPort(p)
  {
    RewriteBytes(p, f, a);
    KeptFacts(p, f, Rewritten(p, f, a));
  }

  lemma KeptFacts(p: seq<byte>, f: AddrField, q: seq<byte>)
    requires WellFormed(p) && |q| == |p|
    requires forall i :: 0 <= i < |p| && !IsRewrittenByte(p, f, i) ==> q[i] == p[i]
    ensures HeaderLen(q) == HeaderLen(p) && Proto(q) == Proto(p)
    ensures var other := if f.Source? then Destination else Source; AddrAt(q, other) == AddrAt(p, other)
    ensures CarriesTcp(q) == CarriesTcp(p) && CarriesUdp(q) == CarriesUdp(p)
    ensures SourcePort(q) == SourcePort(p) && DestinationPort(q) == DestinationPort(p)
  {
    var other := if f.Source? then Destination else Source;
    var at := other.Offset();
    assert forall i :: at <= i < at + 4 ==> !IsRewrittenByte(p, f, i);
    assert q[at..at + 4] == p[at..at + 4];
  }

  lemma HeaderChecksumIgnoresField(p: seq<byte>, q: seq<byte>)
    requires WellFormed(p) && |q| == |p|
    requires forall i :: 0 <= i < HeaderLen(p) && i != 10 && i != 11 ==> q[i] == p[i]
    ensures WellFormed(q) && WithHeaderChecksum(q)[..HeaderLen(p)] == WithHeaderChecksum(p)[..HeaderLen(p)]
  {
    assert SetWord(q, 10, 0)[..HeaderLen(p)] == SetWord(p, 10, 0)[..HeaderLen(p)];
  }

  lemma TransportChecksumIgnoresField(p: seq<byte>, q: seq<byte>)
    requires WellFormed(p) && |q| == |p|
    requires q[..HeaderLen(p)] == p[..HeaderLen(p)]
    requires forall i :: HeaderLen(p) <= i < |p| && (CarriesTransport(p) ==> i != TransportField(p) && i != TransportField(p) + 1)
                         ==> q[i] == p[i]
    ensures WellFormed(q) && WithTransportChecksum(q) == WithTransportChecksum(p)
  {
    assert forall i :: 0 <= i < HeaderLen(p) ==> q[i] == q[..HeaderLen(p)][i] == p[i];
    SameHeader(p, q);
    if CarriesTransport(p) {
      assert SetWord(q, TransportField(p), 0) == SetWord(p, TransportField(p), 0);
    } else {
      assert q == p;
    }
  }

  /** Only the last of several rewrites of one field counts. */
  lemma RewriteOverwrites(p: seq<byte>, f: AddrField, a: Addr4, b: Addr4)
    requires WellFormed(p)
    ensures WellFormed(Rewritten(p, f, a))
    ensures Rewritten(Rewritten(p, f, a), f, b) == Rewritten(p, f, b)
  {
    RewriteVerifies(p, f, a);
    RewriteBytes(p, f, a);
    RewriteDependsOnRest(p, Rewritten(p, f, a), f, b);
  }

  lemma RewriteDependsOnRest(p: seq<byte>, q: seq<byte>, f: AddrField, b: Addr4)
    requires WellFormed(p) && |q| == |p| && WellFormed(q)
    requires forall i :: 0 <= i < |p| && !IsRewrittenByte(p, f, i) ==> q[i] == p[i]
    ensures Rewritten(q, f, b) == Rewritten(p, f, b)
  {
    PutAddrAgrees(p, q, f, b);
    var pb, qb := PutAddr(p, f, b), PutAddr(q, f, b);
    HeaderChecksumIgnoresField(pb, qb);
    TransportChecksumIgnoresField(WithHeaderChecksum(pb), WithHeaderChecksum(qb));
  }

  lemma PutAddrAgrees(p: seq<byte>, q: seq<byte>, f: AddrField, b: Addr4)
    requires WellFormed(p) && |q| == |p| && WellFormed(q)
    requires forall i :: 0 <= i < |p| && !IsRewrittenByte(p, f, i) ==> q[i] == p[i]
    ensures var pb, qb := PutAddr(p, f, b), PutAddr(q, f, b);
            && WellFormed(pb) && HeaderLen(pb) == HeaderLen(p)
            && CarriesTcp(pb) == CarriesTcp(p) && CarriesUdp(pb) == CarriesUdp(p)
            && (forall i :: 0 <= i < HeaderLen(p) && i != 10 && i != 11 ==> qb[i] == pb[i])
            && (forall i :: HeaderLen(p) <= i < |p| && (CarriesTransport(p) ==> i != TransportField(p) && i != TransportField(p) + 1)
                            ==> qb[i] == pb[i])
  {
    var pb, qb := PutAddr(p, f, b), PutAddr(q, f, b);
    forall i | f.Offset() <= i < f.Offset() + 4
      ensures qb[i] == pb[i]
    {
      assert qb[i] == AddrAt(qb, f)[i - f.Offset()] && pb[i] == AddrAt(pb, f)[i - f.Offset()];
    }
  }

  /** The checksums of p are the ones the rewrite itself would write, in RFC terms: both verify
      and neither is the negative zero 0xFFFF. */
  predicate CanonicalChecksums(p: seq<byte>)
    requires WellFormed(p)
  {
    && HeaderVerifies(p) && Word(p[10], p[11]) != ALL_ONES
    && (CarriesTransport(p) ==>
          && TransportVerifies(p)
          && Word(p[TransportField(p)], p[TransportField(p) + 1]) != ALL_ONES)
  }

  lemma HeaderAlreadyFilled(p: seq<byte>)
    requires WellFormed(p)
    ensures WithHeaderChecksum(p) == p <==> HeaderVerifies(p) && Word(p[10], p[11]) != ALL_ONES
  {
    var n := HeaderLen(p);
    var z := SetWord(p, 10, 0);
    var zh := SetWord(p[..n], 10, 0);
    assert zh == z[..n];
    assert WordSum(zh) == Word(zh[0], zh[1]) + WordSum(zh[2..]);
    FilledFieldIsUnique(p[..n], 10, 0);
    ChecksumIsFold(p[..n], 0);
    var filled := SetWord(zh, 10, Complement(Checksum(zh, 0)));
    assert WithHeaderChecksum(p)[..n] == filled;
    assert WithHeaderChecksum(p) == filled + p[n..];
    assert p == p[..n] + p[n..];
    if filled == p[..n] {
      assert WithHeaderChecksum(p) == p;
    }
  }

  lemma TransportAlreadyFilled(p: seq<byte>)
    requires WellFormed(p) && CarriesTransport(p)
    ensures WithTransportChecksum(p) == p <==>
            TransportVerifies(p) && Word(p[TransportField(p)], p[TransportField(p) + 1]) != ALL_ONES
  {
    var n := HeaderLen(p);
    var k := TransportField(p);
    var zt := SetWord(p[n..], k - n, 0);
    assert zt == SetWord(p, k, 0)[n..];
    SegmentChecksum(p, p[n..]);
    SegmentInitialPositive(p);
    FilledFieldIsUnique(p[n..], k - n, SegmentInitial(p));
    var filled := SetWord(zt, k - n, Complement(Checksum(zt, SegmentInitial(p))));
    assert WithTransportChecksum(p)[n..] == filled;
    assert WithTransportChecksum(p) == p[..n] + filled;
    assert p == p[..n] + p[n..];
    if filled == p[n..] {
      assert WithTransportChecksum(p) == p;
    }
  }

  /** Rewriting an address and rewriting it back restores the packet byte for byte if and only
      if its checksums were canonical to begin with. */
  lemma RewriteBackRestores(p: seq<byte>, f: AddrField, a: Addr4)
    requires WellFormed(p)
    ensures WellFormed(Rewritten(p, f, a))
    ensures Rewritten(Rewritten(p, f, a), f, AddrAt(p, f)) == p <==> CanonicalChecksums(p)
  {
    RewriteOverwrites(p, f, a, AddrAt(p, f));
    PutSameAddr(p, f);
    RefillRestores(p);
  }

  lemma PutSameAddr(p: seq<byte>, f: AddrField)
    requires |p| >= IPV4_MINIMUM_SIZE
    ensures PutAddr(p, f, AddrAt(p, f)) == p
  {
  }

  lemma RefillRestores(p: seq<byte>)
    requires WellFormed(p)
    ensures WithTransportChecksum(WithHeaderChecksum(p)) == p <==> CanonicalChecksums(p)
  {
    var n := HeaderLen(p);
    var h := WithHeaderChecksum(p);
    HeaderAlreadyFilled(p);
    SameHeader(p, h);
    if CarriesTransport(p) {
      TransportAlreadyFilled(p);
      var q := WithTransportChecksum(h);
      if q == p {
        assert forall i :: 0 <= i < |p| ==> h[i] == p[i];
        assert h == p;
      }
    }
  }

  // ---------------------------------------------------------------- where UDP differs

  /** RFC 768 transmits a computed checksum of zero as all ones, because a zero field means that
      no checksum was taken. The rewrite stores zero instead, exactly when the pseudo-header and
      the segment without its checksum already fold to all ones. */
  lemma UdpZeroChecksum(p: seq<byte>, f: AddrField, a: Addr4)
    requires WellFormed(p) && CarriesUdp(p)
    ensures var q := Rewritten(p, f, a);
            var k := TransportField(p);
            && WellFormed(q)
            && (Word(q[k], q[k + 1]) == 0 <==>
                Fold(WordSum(PseudoHeader(PutAddr(p, f, a)) + SetWord(p, k, 0)[HeaderLen(p)..])) == ALL_ONES)
  {
    var r := PutAddr(p, f, a);
    AddressOnly(p, r, f, a);
    UdpZeroRefilled(r);
  }

  /** Setting an address changes nothing from the transport header on. */
  lemma AddressOnly(p: seq<byte>, r: seq<byte>, f: AddrField, a: Addr4)
    requires WellFormed(p) && CarriesUdp(p) && r == PutAddr(p, f, a)
    ensures WellFormed(r) && CarriesUdp(r) && HeaderLen(r) == HeaderLen(p) && TransportField(r) == TransportField(p)
    ensures SetWord(r, TransportField(p), 0)[HeaderLen(p)..] == SetWord(p, TransportField(p), 0)[HeaderLen(p)..]
  {
    assert forall i :: HeaderLen(p) <= i < |p| ==> r[i] == p[i];
  }

  lemma UdpZeroRefilled(r: seq<byte>)
    requires WellFormed(r) && CarriesUdp(r)
    ensures var q := WithTransportChecksum(WithHeaderChecksum(r));
            var k := TransportField(r);
            && WellFormed(q)
            && (Word(q[k], q[k + 1]) == 0 <==>
                Fold(WordSum(PseudoHeader(r) + SetWord(r, k, 0)[HeaderLen(r)..])) == ALL_ONES)
  {
    var n, k, h := HeaderLen(r), TransportField(r), WithHeaderChecksum(r);
    SameHeader(r, h);
    UdpZeroField(h, n, k);
    SameHeader(h, WithTransportChecksum(h));
    assert SetWord(h, k, 0)[n..] == SetWord(r, k, 0)[n..];
  }

  lemma UdpZeroField(h: seq<byte>, n: nat, k: nat)
    requires WellFormed(h) && CarriesUdp(h) && n == HeaderLen(h) && k == TransportField(h)
    ensures var q := WithTransportChecksum(h);
            Word(q[k], q[k + 1]) == 0 <==> Fold(WordSum(PseudoHeader(h) + SetWord(h, k, 0)[n..])) == ALL_ONES
  {
    SegmentChecksum(h, SetWord(h, k, 0)[n..]);
    var c := Complement(Checksum(SetWord(h, k, 0)[n..], SegmentInitial(h)));
    assert Word(c / 0x100, c % 0x100) == c;
  }

  /** An eight-byte datagram for which that happens. */
  lemma UdpZeroChecksumHappens() returns (p: seq<byte>, a: Addr4)
    ensures WellFormed(p) && CarriesUdp(p)
    ensures var q := Rewritten(p, Destination, a); Word(q[TransportField(p)], q[TransportField(p) + 1]) == 0
  {
    p := [0x45, 0, 0, 28, 0, 0, 0, 0, 64, 17, 0, 0, 0, 0, 0, 0, 0, 0, 0, 0, 0, 0, 0, 0, 0, 8, 0, 0];
    a := [0xFF, 0xDE, 0, 0];
    assert HeaderLen(p) == 20 && WellFormed(p) && CarriesUdp(p);
    assert p[20..] == [0, 0, 0, 0, 0, 8, 0, 0] && SourceOf(p) == [0, 0, 0, 0];
    ExampleFieldIsZero(p);
  }

  lemma ExampleFieldIsZero(p: seq<byte>)
    requires WellFormed(p) && CarriesUdp(p) && HeaderLen(p) == 20 && |p| == 28
    requires SourceOf(p) == [0, 0, 0, 0] && p[20..] == [0, 0, 0, 0, 0, 8, 0, 0]
    ensures var q := Rewritten(p, Destination, [0xFF, 0xDE, 0, 0]); Word(q[26], q[27]) == 0
  {
    var a: Addr4 := [0xFF, 0xDE, 0, 0];
    UdpZeroChecksum(p, Destination, a);
    var r := PutAddr(p, Destination, a);
    assert SourceOf(r) == SourceOf(p);
    assert WellFormed(r) && HeaderLen(r) == 20 && Proto(r) == UDP;
    var seg := SetWord(p, 26, 0)[20..];
    assert seg == p[20..];
    ExampleWords(r, seg);
  }

  lemma ExampleWords(r: seq<byte>, seg: seq<byte>)
    requires WellFormed(r) && HeaderLen(r) == 20 && |r| == 28 && Proto(r) == UDP
    requires SourceOf(r) == [0, 0, 0, 0] && DestinationOf(r) == [0xFF, 0xDE, 0, 0]
    requires seg == [0, 0, 0, 0, 0, 8, 0, 0]
    ensures WordSum(PseudoHeader(r) + seg) == ALL_ONES
  {
    PseudoHeaderWords(r);
    WordSumConcat(PseudoHeader(r), seg);
    FourBytes(SourceOf(r));
    FourBytes(DestinationOf(r));
    ExampleSegmentWords(seg);
  }

  lemma FourBytes(s: seq<byte>)
    requires |s| == 4
    ensures WordSum(s) == Word(s[0], s[1]) + Word(s[2], s[3])
  {
    var t := s[2..];
    assert WordSum(t) == Word(t[0], t[1]) + WordSum(t[2..]);
  }

  lemma ExampleSegmentWords(seg: seq<byte>)
    requires seg == [0, 0, 0, 0, 0, 8, 0, 0]
    ensures WordSum(seg) == 8
  {
    assert seg == seg[..4] + seg[4..];
    WordSumConcat(seg[..4], seg[4..]);
    FourBytes(seg[..4]);
    FourBytes(seg[4..]);
  }
}
