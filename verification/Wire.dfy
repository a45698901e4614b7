/** IPv4 packets written out field by field, after section 3.1 of RFC 791, section 3.1 of RFC 9293
    and RFC 768. What the packet code reads from a packet is what was written into it, and
    rewriting a packet is writing it again with another address and other checksums. */
module Wire {
  import opened Common
  import opened OnesComplement
  import opened Packet
  import Nat

  datatype Header = Header(tos: byte, id: word, fragment: word, ttl: byte, proto: byte, checksum: word,
                           src: Addr4, dst: Addr4, options: seq<byte>)

  /** `numbers` are sequence and acknowledgment number, offset, flags and window of a TCP header;
      `rest` is the urgent pointer, the options and the data. */
  datatype Segment =
    | TcpSegment(srcPort: word, dstPort: word, numbers: seq<byte>, checksum: word, rest: seq<byte>)
    | UdpSegment(srcPort: word, dstPort: word, length: word, checksum: word, data: seq<byte>)
    | OtherSegment(bytes: seq<byte>)

  function Two(w: word): (b: seq<byte>)
    ensures |b| == 2
  {
    [w / 0x100, w % 0x100]
  }

  function WriteSegment(s: Segment): seq<byte> {
    match s
    case TcpSegment(sp, dp, numbers, c, rest) => Two(sp) + Two(dp) + numbers + Two(c) + rest
    case UdpSegment(sp, dp, length, c, data) => Two(sp) + Two(dp) + Two(length) + Two(c) + data
    case OtherSegment(bytes) => bytes
  }

  predicate Fits(h: Header, s: Segment) {
    && |h.options| % 4 == 0 && |h.options| <= 40 && 20 + |h.options| + |WriteSegment(s)| <= 0xFFFF
    && (match s
        case TcpSegment(_, _, numbers, _, rest) => h.proto == 6 && |numbers| == 12 && |rest| >= 2
        case UdpSegment(_, _, _, _, _) => h.proto == 17
        case OtherSegment(_) => h.proto != 6 && h.proto != 17)
  }

  /** The words of the fixed header before the addresses. */
  function WriteStart(h: Header, total: word): (b: seq<byte>)
    requires |h.options| <= 40
    ensures |b| == 12
  {
    [0x45 + |h.options| / 4, h.tos] + Two(total) + Two(h.id) + Two(h.fragment) + [h.ttl, h.proto] + Two(h.checksum)
  }

  function Write(h: Header, s: Segment): (p: seq<byte>)
    requires Fits(h, s)
    ensures |p| == 20 + |h.options| + |WriteSegment(s)|
  {
    WriteStart(h, 20 + |h.options| + |WriteSegment(s)|) + h.src + h.dst + h.options + WriteSegment(s)
  }

  lemma TwoIsWord(w: word)
    ensures Word(Two(w)[0], Two(w)[1]) == w
  {
  }

  /** Where the parts of a packet are. */
  predicate IsWritten(p: seq<byte>, h: Header, s: Segment) {
    && Fits(h, s) && |p| == 20 + |h.options| + |WriteSegment(s)|
    && p[..12] == WriteStart(h, |p|) && p[12..16] == h.src && p[16..20] == h.dst
    && p[20..20 + |h.options|] == h.options && p[20 + |h.options|..] == WriteSegment(s)
  }

  lemma Layout(h: Header, s: Segment)
    requires Fits(h, s)
    ensures IsWritten(Write(h, s), h, s)
  {
  }

  lemma Assembled(p: seq<byte>, h: Header, s: Segment)
    requires IsWritten(p, h, s)
    ensures p == Write(h, s)
  {
    var n := 20 + |h.options|;
    assert p == p[..12] + p[12..16] + p[16..20] + p[20..n] + p[n..];
  }

  lemma StartBytes(h: Header, total: word)
    requires |h.options| <= 40
    ensures var b := WriteStart(h, total);
            && b[0] == 0x45 + |h.options| / 4 && Word(b[2], b[3]) == total && b[9] == h.proto && Word(b[10], b[11]) == h.checksum
  {
    TwoIsWord(total);
    TwoIsWord(h.checksum);
  }

  lemma HeaderIsRead(h: Header, s: Segment)
    requires Fits(h, s)
    ensures var p := Write(h, s);
            && WellFormed(p) && HeaderLen(p) == 20 + |h.options| && Proto(p) == h.proto
            && SourceOf(p) == h.src && DestinationOf(p) == h.dst && Word(p[10], p[11]) == h.checksum
  {
    var p := Write(h, s);
    Layout(h, s);
    StartBytes(h, |p|);
    assert forall i :: 0 <= i < 12 ==> p[i] == p[..12][i];
  }

  lemma SegmentIsRead(s: Segment)
    requires s.TcpSegment? ==> |s.numbers| == 12
    requires !s.OtherSegment?
    ensures var b := WriteSegment(s);
            var k := if s.TcpSegment? then 16 else 6;
            && |b| >= k + 2
            && Word(b[0], b[1]) == s.srcPort && Word(b[2], b[3]) == s.dstPort && Word(b[k], b[k + 1]) == s.checksum
  {
    TwoIsWord(s.srcPort);
    TwoIsWord(s.dstPort);
    TwoIsWord(s.checksum);
  }

  /** Reading gives back what was written: the connection, and where the checksums are. */
  lemma WrittenIsRead(h: Header, s: Segment)
    requires Fits(h, s)
    ensures var p := Write(h, s);
            && WellFormed(p) && Nat.Eligible(p) && HeaderLen(p) == 20 + |h.options|
            && Nat.ConnOf(p) == Nat.ConnKey(h.src, if s.OtherSegment? then 0 else s.srcPort,
                                            h.dst, if s.OtherSegment? then 0 else s.dstPort, h.proto)
            && CarriesTcp(p) == s.TcpSegment? && CarriesUdp(p) == s.UdpSegment?
            && Word(p[10], p[11]) == h.checksum
            && (!s.OtherSegment? ==> Word(p[TransportField(p)], p[TransportField(p) + 1]) == s.checksum)
  {
    var p, n := Write(h, s), 20 + |h.options|;
    HeaderIsRead(h, s);
    Layout(h, s);
    if !s.OtherSegment? {
      SegmentIsRead(s);
      assert forall i :: 0 <= i < |WriteSegment(s)| ==> p[n + i] == p[n..][i];
    }
  }

  // ---------------------------------------------------------------- rewriting is writing again

  function WithAddress(h: Header, f: AddrField, a: Addr4): Header {
    if f.Source? then h.(src := a) else h.(dst := a)
  }

  function WithChecksum(s: Segment, c: word): Segment {
    match s
    case TcpSegment(sp, dp, numbers, _, rest) => TcpSegment(sp, dp, numbers, c, rest)
    case UdpSegment(sp, dp, length, _, data) => UdpSegment(sp, dp, length, c, data)
    case OtherSegment(_) => s
  }

  lemma AddressWritten(h: Header, s: Segment, f: AddrField, a: Addr4)
    requires Fits(h, s)
    ensures PutAddr(Write(h, s), f, a) == Write(WithAddress(h, f, a), s)
  {
    Layout(h, s);
    AddressKept(Write(h, s), h, s, f, a);
    Assembled(PutAddr(Write(h, s), f, a), WithAddress(h, f, a), s);
  }

  lemma AddressKept(p: seq<byte>, h: Header, s: Segment, f: AddrField, a: Addr4)
    requires IsWritten(p, h, s)
    ensures IsWritten(PutAddr(p, f, a), WithAddress(h, f, a), s)
  {
    AddressParts(p, f, a, 20 + |h.options|);
  }

  lemma AddressParts(p: seq<byte>, f: AddrField, a: Addr4, n: nat)
    requires 20 <= n <= |p|
    ensures var q := PutAddr(p, f, a);
            && q[..12] == p[..12] && q[20..n] == p[20..n] && q[n..] == p[n..]
            && q[12..16] == (if f.Source? then a else p[12..16]) && q[16..20] == (if f.Source? then p[16..20] else a)
  {
  }

  lemma StartChecksum(h: Header, total: word, c: word)
    requires |h.options| <= 40
    ensures SetWord(WriteStart(h, total), 10, c) == WriteStart(h.(checksum := c), total)
  {
  }

  /** Setting a word in a part of a sequence is setting it in the sequence. */
  lemma SetInPart(p: seq<byte>, a: nat, b: nat, k: nat, w: word)
    requires a <= b <= |p| && a + k + 2 <= b
    ensures SetWord(p, a + k, w)[a..b] == SetWord(p[a..b], k, w)
    ensures SetWord(p, a + k, w)[..a] == p[..a] && SetWord(p, a + k, w)[b..] == p[b..]
  {
  }

  lemma SameStart(p: seq<byte>, q: seq<byte>, n: nat)
    requires 20 <= n <= |p| && n <= |q| && p[..n] == q[..n]
    ensures q[..12] == p[..12] && q[12..16] == p[12..16] && q[16..20] == p[16..20] && q[20..n] == p[20..n]
  {
    assert p[..12] == p[..n][..12] && q[..12] == q[..n][..12];
    assert p[12..16] == p[..n][12..16] && q[12..16] == q[..n][12..16];
    assert p[16..20] == p[..n][16..20] && q[16..20] == q[..n][16..20];
    assert p[20..n] == p[..n][20..] && q[20..n] == q[..n][20..];
  }

  lemma HeaderChecksumWritten(h: Header, s: Segment, c: word)
    requires Fits(h, s)
    ensures SetWord(Write(h, s), 10, c) == Write(h.(checksum := c), s)
  {
    Layout(h, s);
    HeaderChecksumKept(Write(h, s), h, s, c);
    Assembled(SetWord(Write(h, s), 10, c), h.(checksum := c), s);
  }

  lemma HeaderChecksumKept(p: seq<byte>, h: Header, s: Segment, c: word)
    requires IsWritten(p, h, s)
    ensures IsWritten(SetWord(p, 10, c), h.(checksum := c), s)
  {
    var q, n := SetWord(p, 10, c), 20 + |h.options|;
    SetInPart(p, 0, 12, 10, c);
    StartChecksum(h, |p|, c);
    assert q[0..12] == q[..12] && p[0..12] == p[..12];
    assert q[12..16] == p[12..16] && q[16..20] == p[16..20] && q[20..n] == p[20..n] && q[n..] == p[n..];
  }

  function ChecksumAt(s: Segment): nat {
    if s.TcpSegment? then 16 else 6
  }

  lemma SegmentChecksumSet(s: Segment, c: word)
    requires !s.OtherSegment? && (s.TcpSegment? ==> |s.numbers| == 12)
    ensures |WriteSegment(s)| >= ChecksumAt(s) + 2
    ensures SetWord(WriteSegment(s), ChecksumAt(s), c) == WriteSegment(WithChecksum(s, c))
  {
  }

  lemma TransportChecksumWritten(h: Header, s: Segment, c: word)
    requires Fits(h, s) && !s.OtherSegment?
    ensures |Write(h, s)| >= 20 + |h.options| + ChecksumAt(s) + 2 && Fits(h, WithChecksum(s, c))
    ensures SetWord(Write(h, s), 20 + |h.options| + ChecksumAt(s), c) == Write(h, WithChecksum(s, c))
  {
    SegmentChecksumSet(s, c);
    Layout(h, s);
    TransportChecksumKept(Write(h, s), h, s, c);
    Assembled(SetWord(Write(h, s), 20 + |h.options| + ChecksumAt(s), c), h, WithChecksum(s, c));
  }

  lemma TransportChecksumKept(p: seq<byte>, h: Header, s: Segment, c: word)
    requires IsWritten(p, h, s) && !s.OtherSegment?
    ensures |p| >= 20 + |h.options| + ChecksumAt(s) + 2
    ensures IsWritten(SetWord(p, 20 + |h.options| + ChecksumAt(s), c), h, WithChecksum(s, c))
  {
    SegmentChecksumSet(s, c);
    var n := 20 + |h.options|;
    var q := SetWord(p, n + ChecksumAt(s), c);
    SetInPart(p, n, |p|, ChecksumAt(s), c);
    assert q[n..|p|] == q[n..] && p[n..|p|] == p[n..];
    SameStart(p, q, n);
  }

  /** A rewritten packet is the packet written again with the new address and with checksums that
      verify; everything else that was written stays. */
  lemma RewritingIsWriting(h: Header, s: Segment, f: AddrField, a: Addr4) returns (c: word, t: word)
    requires Fits(h, s)
    ensures var h', s' := WithAddress(h, f, a).(checksum := c), WithChecksum(s, t);
            && Fits(h', s') && WellFormed(Write(h, s)) && WellFormed(Write(h', s'))
            && Rewritten(Write(h, s), f, a) == Write(h', s')
            && HeaderVerifies(Write(h', s')) && (!s.OtherSegment? ==> TransportVerifies(Write(h', s')))
  {
    var p := Write(h, s);
    WrittenIsRead(h, s);
    RewriteVerifies(p, f, a);
    AddressWritten(h, s, f, a);
    c, t := Refilled(WithAddress(h, f, a), s);
    WrittenIsRead(WithAddress(h, f, a).(checksum := c), WithChecksum(s, t));
  }

  /** In the words of RFC 1071: the words of the header, and of pseudo-header and segment, add up to
      a positive multiple of 0xFFFF. */
  lemma VerifiedMeans(h: Header, s: Segment)
    requires Fits(h, s) && WellFormed(Write(h, s))
    ensures var sum := WordSum(WriteStart(h, |Write(h, s)|) + h.src + h.dst + h.options);
            HeaderVerifies(Write(h, s)) <==> sum > 0 && sum % 0xFFFF == 0
    ensures var sum := WordSum(h.src + h.dst + [0, h.proto] + Two(|WriteSegment(s)|) + WriteSegment(s));
            TransportVerifies(Write(h, s)) <==> sum > 0 && sum % 0xFFFF == 0
  {
    var p, n := Write(h, s), 20 + |h.options|;
    WrittenIsRead(h, s);
    Layout(h, s);
    assert p[..n] == WriteStart(h, |p|) + h.src + h.dst + h.options;
    assert PseudoHeader(p) == h.src + h.dst + [0, h.proto] + Two(|WriteSegment(s)|);
    FoldIsAllOnes(WordSum(p[..n]));
    FoldIsAllOnes(WordSum(PseudoHeader(p) + p[n..]));
  }

  lemma FoldIsAllOnes(n: nat)
    ensures Fold(n) == 0xFFFF <==> n > 0 && n % 0xFFFF == 0
  {
  }

  /** What is injected for a packet that is redirected: itself for a loopback address (127.0.0.0/8),
      otherwise the packet written again with that destination. */
  lemma RedirectedIsWritten(h: Header, s: Segment, to: Addr4) returns (c: word, t: word)
    requires Fits(h, s)
    ensures WellFormed(Write(h, s)) && Fits(h.(dst := to, checksum := c), WithChecksum(s, t))
    ensures Nat.Redirected(Write(h, s), to) == if to[0] == 127 then Write(h, s) else Write(h.(dst := to, checksum := c), WithChecksum(s, t))
  {
    c, t := RewritingIsWriting(h, s, Destination, to);
  }

  lemma Refilled(h: Header, s: Segment) returns (c: word, t: word)
    requires Fits(h, s)
    ensures Fits(h.(checksum := c), WithChecksum(s, t)) && Sliceable(Write(h, s))
    ensures WithTransportChecksum(WithHeaderChecksum(Write(h, s))) == Write(h.(checksum := c), WithChecksum(s, t))
  {
    WrittenIsRead(h, s);
    HeaderChecksumWritten(h, s, 0);
    c, t := Complement(Checksum(Write(h.(checksum := 0), s)[..20 + |h.options|], 0)), 0;
    HeaderChecksumWritten(h.(checksum := 0), s, c);
    assert WithHeaderChecksum(Write(h, s)) == Write(h.(checksum := c), s);
    t := TransportRefilled(h.(checksum := c), s);
  }

  lemma TransportRefilled(h: Header, s: Segment) returns (t: word)
    requires Fits(h, s)
    ensures Fits(h, WithChecksum(s, t)) && Sliceable(Write(h, s))
    ensures WithTransportChecksum(Write(h, s)) == Write(h, WithChecksum(s, t))
  {
    t := 0;
    WrittenIsRead(h, s);
    if !s.OtherSegment? {
      TransportChecksumWritten(h, s, 0);
      var z := WithChecksum(s, 0);
      t := Complement(Checksum(Write(h, z)[20 + |h.options|..], SegmentInitial(Write(h, s))));
      TransportChecksumWritten(h, z, t);
    }
  }
}
