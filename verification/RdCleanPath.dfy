/** Framing of the RDP handshake: finding the end of the RDCleanPath PDU, a DER SEQUENCE, in a
    stream that arrives in arbitrary pieces, and reading one TPKT-framed X.224 PDU. */
module RdCleanPath {
  import opened Common
  import opened OnesComplement

  const SEQUENCE: byte := 0x30
  const TPKT_VERSION: byte := 0x03

  datatype Length = Known(total: nat) | TooShort | Invalid

  /** The number written with the bytes, most significant first. */
  function Number(b: seq<byte>): nat {
    if |b| == 0 then 0 else Number(b[..|b| - 1]) * 256 + b[|b| - 1]
  }

  /** Total length of the PDU at the start of the buffer, as far as the buffer tells. */
  function Detected(buf: seq<byte>): Length {
    if |buf| < 2 then TooShort
    else if buf[0] != SEQUENCE then Invalid
    else if buf[1] < 0x80 then Known(2 + buf[1])
    else
      var n := buf[1] - 0x80;
      if n == 0 || n > 4 then Invalid
      else if |buf| < 2 + n then TooShort
      else Known(2 + n + Number(buf[2..2 + n]))
  }

  method DetectLength(buf: seq<byte>) returns (total: int)
    ensures total == match Detected(buf) case Known(t) => t case TooShort => -1 case Invalid => -2
  {
    if |buf| < 2 {
      return -1;
    }
    if buf[0] != SEQUENCE {
      return -2;
    }
    var l := buf[1];
    if l < 0x80 {
      return 2 + l;
    }
    var n := l - 0x80;
    if n == 0 || n > 4 {
      return -2;
    }
    if |buf| < 2 + n {
      return -1;
    }
    var value: nat := 0;
    for i := 0 to n
      invariant value == Number(buf[2..2 + i])
    {
      assert buf[2..2 + (i + 1)][..i] == buf[2..2 + i];
      value := value * 256 + buf[2 + i];
    }
    return 2 + n + value;
  }

  /** Once the length is known, or known to be invalid, more bytes do not change it. */
  lemma DetectedIsStable(buf: seq<byte>, more: seq<byte>)
    requires Detected(buf) != TooShort
    ensures Detected(buf + more) == Detected(buf)
  {
    if buf[0] == SEQUENCE && buf[1] >= 0x80 && 0 < buf[1] - 0x80 <= 4 {
      var n := buf[1] - 0x80;
      assert (buf + more)[2..2 + n] == buf[2..2 + n];
    }
  }

  // ---------------------------------------------------------------- section 8.1.3 of X.690

  /** Length octets for n, definite form: short up to 127, otherwise long with the given octets. */
  predicate IsLength(octets: seq<byte>, n: nat) {
    || (|octets| == 1 && octets[0] < 0x80 && n == octets[0])
    || (2 <= |octets| <= 5 && octets[0] == 0x80 + (|octets| - 1) && n == Number(octets[1..]))
  }

  /** A DER SEQUENCE: identifier, length octets, contents of that length. */
  predicate IsSequence(p: seq<byte>, octets: seq<byte>, contents: seq<byte>) {
    p == [SEQUENCE] + octets + contents && IsLength(octets, |contents|)
  }

  /** Whatever follows a SEQUENCE, the detected length is its length. */
  lemma DetectsSequence(p: seq<byte>, octets: seq<byte>, contents: seq<byte>, rest: seq<byte>)
    requires IsSequence(p, octets, contents)
    ensures Detected(p + rest) == Known(|p|)
  {
    var buf, n := p + rest, |octets| - 1;
    assert buf[0] == SEQUENCE && buf[1] == octets[0];
    if n > 0 {
      assert buf[2..2 + n] == octets[1..];
    }
  }

  /** Conversely, a prefix of the detected length is a SEQUENCE. */
  lemma DetectedIsSequence(buf: seq<byte>) returns (octets: seq<byte>, contents: seq<byte>)
    requires Detected(buf).Known? && Detected(buf).total <= |buf|
    ensures IsSequence(buf[..Detected(buf).total], octets, contents)
  {
    var total := Detected(buf).total;
    var n := if buf[1] < 0x80 then 0 else buf[1] - 0x80;
    octets, contents := buf[1..2 + n], buf[2 + n..total];
    if n > 0 {
      assert buf[2..2 + n] == octets[1..];
    }
    assert buf[..total] == [SEQUENCE] + octets + contents;
  }

  /** The fewest octets that write n. */
  function Octets(n: nat): (octets: seq<byte>)
    ensures |octets| > 0 && Number(octets) == n
  {
    if n < 256 then
      assert [n][..0] == [];
      [n]
    else
      var high := Octets(n / 256);
      assert (high + [(n % 256)])[..|high|] == high;
      high + [(n % 256)]
  }

  lemma FourOctetsSuffice(n: nat)
    requires n < 0x1_0000_0000
    ensures |Octets(n)| <= 4
  {
    var a, b, c := n / 256, n / 256 / 256, n / 256 / 256 / 256;
    assert a < 0x100_0000 && b < 0x1_0000 && c < 0x100;
    assert |Octets(c)| == 1;
    assert |Octets(b)| <= 2;
    assert |Octets(a)| <= 3;
  }

  /** The length octets that DER prescribes, for lengths that fit in four octets. */
  function EncodeLength(n: nat): (octets: seq<byte>)
    requires n < 0x1_0000_0000
    ensures IsLength(octets, n)
  {
    if n < 0x80 then [n]
    else
      FourOctetsSuffice(n);
      var octets := [(0x80 + |Octets(n)|)] + Octets(n);
      assert octets[1..] == Octets(n);
      octets
  }

  /** So every encoded PDU is found again, exactly. */
  lemma EncodedIsDetected(contents: seq<byte>, rest: seq<byte>)
    requires |contents| < 0x1_0000_0000
    ensures var p := [SEQUENCE] + EncodeLength(|contents|) + contents;
            Detected(p + rest) == Known(|p|) && (p + rest)[..|p|] == p
  {
    var p := [SEQUENCE] + EncodeLength(|contents|) + contents;
    DetectsSequence(p, EncodeLength(|contents|), contents, rest);
  }

  // ---------------------------------------------------------------- reading from a stream

  /** A stream that delivers its bytes in pieces of any size, possibly empty, and reports its end
      without data. */
  class Reader {
    var rest: seq<byte>
    var pieces: seq<nat>   // sizes of the coming pieces; then as much as is asked for

    constructor (data: seq<byte>, sizes: seq<nat>)
      ensures rest == data && pieces == sizes
    {
      rest, pieces := data, sizes;
    }

    method Read(max: nat) returns (got: seq<byte>, failed: bool)
      requires max > 0
      modifies this
      ensures got + rest == old(rest) && |got| <= max
      ensures failed <==> old(rest) == []
      ensures |rest| + |pieces| < |old(rest)| + |old(pieces)| || failed
    {
      var n := max;
      if pieces != [] {
        n := if pieces[0] < max then pieces[0] else max;
        pieces := pieces[1..];
      }
      if n > |rest| {
        n := |rest|;
      }
      failed := rest == [];
      got, rest := rest[..n], rest[n..];
    }
  }

  datatype Outcome = Pdu(bytes: seq<byte>) | InvalidPdu | ReadError

  /** What reading a PDU from the data gives, however the data arrives. */
  function Expected(data: seq<byte>): Outcome {
    match Detected(data)
    case Known(t) => if t <= |data| then Pdu(data[..t]) else ReadError
    case Invalid => InvalidPdu
    case TooShort => ReadError
  }

  /** It is the DER SEQUENCE at the start of the data, if the data begins with a whole one. */
  lemma SequenceIsExpected(data: seq<byte>, p: seq<byte>, octets: seq<byte>, contents: seq<byte>)
    requires IsSequence(p, octets, contents) && p <= data
    ensures Expected(data) == Pdu(p)
  {
    DetectsSequence(p, octets, contents, data[|p|..]);
    assert data == p + data[|p|..];
  }

  lemma ExpectedIsSequence(data: seq<byte>) returns (octets: seq<byte>, contents: seq<byte>)
    requires Expected(data).Pdu?
    ensures IsSequence(Expected(data).bytes, octets, contents) && Expected(data).bytes <= data
  {
    octets, contents := DetectedIsSequence(data);
  }

  lemma ExpectedIsStable(buf: seq<byte>, more: seq<byte>)
    requires Expected(buf) != ReadError
    ensures Expected(buf + more) == Expected(buf)
  {
    DetectedIsStable(buf, more);
  }

  const BUFFER := 1024

  /** A buffer that holds the whole PDU is not the first to hold it unless its last byte did. */
  lemma EarlierBuffer(buf: seq<byte>, k: nat)
    requires k <= |buf| && Expected(buf).Pdu? && |Expected(buf).bytes| <= k
    ensures Expected(buf[..k]) == Expected(buf)
  {
    var n := if buf[1] < 0x80 then 0 else buf[1] - 0x80;
    SliceOfStart(buf, k, 2, 2 + n);
    SliceOfStart(buf, k, 0, |Expected(buf).bytes|);
  }

  lemma SliceOfStart(s: seq<byte>, k: nat, a: nat, b: nat)
    requires a <= b <= k <= |s|
    ensures s[..k][a..b] == s[a..b] && s[..k][..b] == s[..b]
  {
  }

  /** The result does not depend on how the stream is cut into pieces. What has been read beyond
      the PDU is dropped; it is less than one buffer. */
  method ReadCleanPath(r: Reader) returns (result: Outcome, ghost lost: seq<byte>)
    modifies r
    ensures result == Expected(old(r.rest))
    ensures result.Pdu? ==> result.bytes + lost + r.rest == old(r.rest) && |lost| < BUFFER
  {
    var buf: seq<byte> := [];
    ghost var data, before: nat := r.rest, 0;
    lost := [];
    while true
      invariant buf + r.rest == data
      invariant before <= |buf| <= before + BUFFER && Expected(buf[..before]) == ReadError
      decreases |r.rest| + |r.pieces|
    {
      var total := DetectLength(buf);
      if total == -2 {
        ExpectedIsStable(buf, r.rest);
        return InvalidPdu, lost;
      }
      if total > 0 && |buf| >= total {
        ExpectedIsStable(buf, r.rest);
        if total <= before {
          EarlierBuffer(buf, before);
        }
        return Pdu(buf[..total]), buf[total..];
      }
      assert Expected(buf) == ReadError;
      assert r.rest == [] ==> buf == data;
      var piece, failed := r.Read(BUFFER);
      assert (buf + piece)[..|buf|] == buf;
      assert failed ==> buf == data;
      before := |buf|;
      buf := buf + piece;
      if failed {
        return ReadError, lost;
      }
    }
  }

  // ---------------------------------------------------------------- TPKT

  /** The first TPKT-framed PDU of the data. */
  function ExpectedX224(data: seq<byte>): Outcome {
    if |data| < 4 then ReadError
    else
      var total := Word(data[2], data[3]);
      if data[0] != TPKT_VERSION || total < 4 || total > 4096 then InvalidPdu
      else if |data| < total then ReadError
      else Pdu(data[..total])
  }

  /** A PDU in TPKT framing, section 6 of RFC 1006: version 3, a reserved byte, and the length of the
      whole in two bytes, the high one first. */
  function Framed(reserved: byte, payload: seq<byte>): (p: seq<byte>)
    requires 4 + |payload| <= 0xFFFF
  {
    [3, reserved, (4 + |payload|) / 256, (4 + |payload|) % 256] + payload
  }

  /** Framed PDUs of up to 4096 bytes are read as they were written, whatever follows... */
  lemma FramedIsRead(reserved: byte, payload: seq<byte>, rest: seq<byte>)
    requires 4 + |payload| <= 4096
    ensures ExpectedX224(Framed(reserved, payload) + rest) == Pdu(Framed(reserved, payload))
  {
    var p := Framed(reserved, payload);
    assert (p + rest)[..|p|] == p;
  }

  /** ...nothing else is read as a PDU... */
  lemma ReadIsFramed(data: seq<byte>) returns (reserved: byte, payload: seq<byte>)
    requires ExpectedX224(data).Pdu?
    ensures 4 + |payload| <= 4096 && ExpectedX224(data).bytes == Framed(reserved, payload) && Framed(reserved, payload) <= data
  {
    var total := Word(data[2], data[3]);
    reserved, payload := data[1], data[4..total];
    assert data[..total] == Framed(reserved, payload);
  }

  /** ...and what is refused as invalid has another version, or a length below 4 or above 4096. */
  lemma RefusedIff(data: seq<byte>)
    ensures ExpectedX224(data) == InvalidPdu <==>
            |data| >= 4 && (data[0] != 3 || Number(data[2..4]) < 4 || Number(data[2..4]) > 4096)
  {
    if |data| >= 4 {
      var len := data[2..4];
      assert Number(len[..1][..0]) == 0 && Number(len[..1]) == data[2];
      assert Number(len) == Number(len[..1]) * 256 + data[3];
    }
  }

  /** Reads exactly n bytes, or everything if there are fewer. */
  method ReadFull(r: Reader, n: nat) returns (got: seq<byte>, failed: bool)
    modifies r
    ensures got + r.rest == old(r.rest)
    ensures failed <==> |old(r.rest)| < n
    ensures !failed ==> |got| == n
  {
    got, failed := [], false;
    while |got| < n && !failed
      invariant got + r.rest == old(r.rest) && |got| <= n
      invariant failed ==> |old(r.rest)| < n
      decreases if failed then 0 else 1, |r.rest| + |r.pieces|
    {
      var piece;
      piece, failed := r.Read(n - |got|);
      got := got + piece;
    }
  }

  /** Reads one framed PDU and nothing beyond it. */
  method ReadX224(r: Reader) returns (result: Outcome)
    modifies r
    ensures result == ExpectedX224(old(r.rest))
    ensures result.Pdu? ==> result.bytes + r.rest == old(r.rest)
  {
    var hdr, failed := ReadFull(r, 4);
    if failed {
      return ReadError;
    }
    if hdr[0] != TPKT_VERSION {
      return InvalidPdu;
    }
    var total := Word(hdr[2], hdr[3]);
    if total < 4 || total > 4096 {
      return InvalidPdu;
    }
    var body;
    body, failed := ReadFull(r, total - 4);
    if failed {
      return ReadError;
    }
    assert hdr + body + r.rest == old(r.rest);
    return Pdu(hdr + body);
  }
}
