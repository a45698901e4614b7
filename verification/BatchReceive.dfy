/** Batched receive on the shared socket: a batch of messages read into buffers is compacted in
    place, dropping empty messages and the connectivity-test packets that the bind answers
    itself. */
module BatchReceive {
  import opened Common
  import opened OnesComplement

  // ---------------------------------------------------------------- addresses

  datatype Ip = V4(bits: nat) | V6(bits: nat) | V4In6(bits: nat)

  datatype AddrPort = AddrPort(ip: Ip, port: nat)

  /** An IPv4 address that arrived in IPv6 form becomes plain IPv4 again. */
  function Unmap(a: AddrPort): (u: AddrPort)
    ensures !u.ip.V4In6? && u.port == a.port && u.ip.bits == a.ip.bits
    ensures !a.ip.V4In6? ==> u == a
  {
    if a.ip.V4In6? then AddrPort(V4(a.ip.bits), a.port) else a
  }

  /** Two forms of an address come out the same if and only if they are the same, or one is the
      IPv6 form of the other. */
  lemma UnmapIsCanonical(a: AddrPort, b: AddrPort)
    ensures Unmap(a) == Unmap(b) <==>
            a.port == b.port && (a.ip == b.ip || (!a.ip.V6? && !b.ip.V6? && a.ip.bits == b.ip.bits))
    ensures forall bits: nat, port: nat :: Unmap(AddrPort(V4In6(bits), port)) == AddrPort(V4(bits), port) == Unmap(AddrPort(V4(bits), port))
    ensures forall bits: nat, port: nat :: Unmap(AddrPort(V6(bits), port)) == AddrPort(V6(bits), port)
  {
  }

  /** The sender of a message: absent, a UDP address, or an address of another kind. */
  datatype Sender = NoAddr | Udp(at: AddrPort) | Other

  // ---------------------------------------------------------------- test packets

  const REQUEST: seq<byte> := [80, 65, 78, 71, 79, 76, 73, 78, 95, 84, 69, 83, 84, 95, 82, 69, 81]
  const RESPONSE: seq<byte> := [80, 65, 78, 71, 79, 76, 73, 78, 95, 84, 69, 83, 84, 95, 82, 83, 80]
  const DATA_LEN := 8
  const PACKET_LEN := 17 + DATA_LEN

  predicate IsRequest(data: seq<byte>) {
    |data| >= PACKET_LEN && data[..17] == REQUEST
  }

  predicate IsResponse(data: seq<byte>) {
    |data| >= PACKET_LEN && data[..17] == RESPONSE
  }

  predicate IsMagic(data: seq<byte>) {
    IsRequest(data) || IsResponse(data)
  }

  function Text(data: seq<byte>): string {
    seq(|data|, i requires 0 <= i < |data| => data[i] as char)
  }

  /** Test packets are told by their first 17 characters, and have eight bytes of data. */
  lemma MagicIff(data: seq<byte>)
    ensures IsRequest(data) <==> |data| >= 25 && Text(data[..17]) == "PANGOLIN_TEST_REQ"
    ensures IsResponse(data) <==> |data| >= 25 && Text(data[..17]) == "PANGOLIN_TEST_RSP"
  {
    assert Text(REQUEST) == "PANGOLIN_TEST_REQ" && Text(RESPONSE) == "PANGOLIN_TEST_RSP";
    if |data| >= 25 {
      SameText(data[..17], REQUEST);
      SameText(data[..17], RESPONSE);
    }
  }

  lemma SameText(a: seq<byte>, b: seq<byte>)
    ensures Text(a) == Text(b) <==> a == b
  {
    if Text(a) == Text(b) {
      assert |a| == |Text(a)| == |b|;
      forall i | 0 <= i < |a|
        ensures a[i] == b[i]
      {
        assert Text(a)[i] == Text(b)[i];
      }
    }
  }

  /** What the bind does about a test packet: answer it, or report the echoed bytes. */
  datatype Effect = Answer(to: AddrPort, payload: seq<byte>) | Report(from: AddrPort, echo: seq<byte>)

  function EffectOf(data: seq<byte>, from: AddrPort): Effect
    requires IsMagic(data)
  {
    if IsRequest(data) then Answer(from, RESPONSE + data[17..17 + DATA_LEN])
    else Report(Unmap(from), data[17..17 + DATA_LEN])
  }

  /** The echo test closes: what answers a request is recognised as a response by the peer and
      reports exactly the request's random bytes, and no packet is both. */
  lemma EchoRoundTrip(data: seq<byte>, from: AddrPort, peer: AddrPort)
    requires IsRequest(data)
    ensures EffectOf(data, from).Answer? && EffectOf(data, from).to == from
    ensures !IsResponse(data)
    ensures var reply := EffectOf(data, from).payload;
            && |reply| == PACKET_LEN && IsResponse(reply) && !IsRequest(reply)
            && EffectOf(reply, peer) == Report(Unmap(peer), data[17..17 + DATA_LEN])
  {
    var reply := RESPONSE + data[17..17 + DATA_LEN];
    assert reply[..17] == RESPONSE && reply[17..17 + DATA_LEN] == data[17..17 + DATA_LEN];
    assert REQUEST[15] != RESPONSE[15];
  }

  // ---------------------------------------------------------------- the batch

  /** A message as received, and whether the bind has a socket and a callback when it gets to it. */
  datatype Msg = Msg(n: nat, sender: Sender, hasSocket: bool, hasCallback: bool)

  /** The message is handed on: not empty, and not a test packet from a UDP address. */
  predicate IsPassed(m: Msg, data: seq<byte>) {
    m.n != 0 && !(m.sender.Udp? && IsMagic(data))
  }

  /** A request can be answered with a socket only, a response reported with a callback only. */
  predicate CanAct(data: seq<byte>, hasSocket: bool, hasCallback: bool) {
    if IsRequest(data) then hasSocket else IsResponse(data) && hasCallback
  }

  /** What is done about the message; nothing unless it is a test packet and the means are there. */
  function EffectsOf(m: Msg, data: seq<byte>): seq<Effect> {
    if m.n != 0 && m.sender.Udp? && CanAct(data, m.hasSocket, m.hasCallback) then [EffectOf(data, m.sender.at)] else []
  }

  predicate Fits(msgs: seq<Msg>, data: seq<seq<byte>>) {
    |msgs| <= |data| && forall i :: 0 <= i < |msgs| ==> msgs[i].n <= |data[i]|
  }

  predicate Passed(msgs: seq<Msg>, data: seq<seq<byte>>, i: nat)
    requires i < |msgs| && Fits(msgs, data)
  {
    IsPassed(msgs[i], data[i][..msgs[i].n])
  }

  /** The messages passed on among the first k, in arrival order. */
  function PassedUpTo(msgs: seq<Msg>, data: seq<seq<byte>>, k: nat): (kept: seq<nat>)
    requires k <= |msgs| && Fits(msgs, data)
    ensures |kept| <= k
    ensures forall j :: 0 <= j < |kept| ==> kept[j] < k
  {
    if k == 0 then []
    else if Passed(msgs, data, k - 1) then PassedUpTo(msgs, data, k - 1) + [k - 1]
    else PassedUpTo(msgs, data, k - 1)
  }

  /** It is the increasing list of exactly those messages. */
  lemma {:induction false} PassedUpToIsExact(msgs: seq<Msg>, data: seq<seq<byte>>, k: nat, kept: seq<nat>)
    requires k <= |msgs| && Fits(msgs, data) && kept == PassedUpTo(msgs, data, k)
    ensures forall i, j :: 0 <= i < j < |kept| ==> kept[i] < kept[j]
    ensures forall i :: i in kept <==> 0 <= i < k && Passed(msgs, data, i)
  {
    if k > 0 {
      PassedUpToIsExact(msgs, data, k - 1, PassedUpTo(msgs, data, k - 1));
    }
  }

  /** What the first k messages call for, in arrival order. */
  function EffectsUpTo(msgs: seq<Msg>, data: seq<seq<byte>>, k: nat): (effects: seq<Effect>)
    requires k <= |msgs| && Fits(msgs, data)
  {
    if k == 0 then []
    else EffectsUpTo(msgs, data, k - 1) + EffectsOf(msgs[k - 1], data[k - 1][..msgs[k - 1].n])
  }

  /** What each message calls for. */
  function CalledFor(msgs: seq<Msg>, data: seq<seq<byte>>): (calls: seq<seq<Effect>>)
    requires Fits(msgs, data)
    ensures |calls| == |msgs| && forall i :: 0 <= i < |msgs| ==> calls[i] == EffectsOf(msgs[i], data[i][..msgs[i].n])
  {
    seq(|msgs|, i requires 0 <= i < |msgs| => EffectsOf(msgs[i], data[i][..msgs[i].n]))
  }

  function Flat(calls: seq<seq<Effect>>, k: nat): seq<Effect>
    requires k <= |calls|
  {
    if k == 0 then [] else Flat(calls, k - 1) + calls[k - 1]
  }

  predicate AtMostOne(calls: seq<seq<Effect>>) {
    forall i :: 0 <= i < |calls| ==> |calls[i]| <= 1
  }

  /** The messages among the first k that call for something, in arrival order. */
  function Acting(calls: seq<seq<Effect>>, k: nat): (at: seq<nat>)
    requires k <= |calls|
    ensures |at| <= k && forall j :: 0 <= j < |at| ==> at[j] < k
  {
    if k == 0 then [] else if calls[k - 1] != [] then Acting(calls, k - 1) + [k - 1] else Acting(calls, k - 1)
  }

  lemma {:induction false} ActingIsExact(calls: seq<seq<Effect>>, k: nat, at: seq<nat>)
    requires k <= |calls| && at == Acting(calls, k)
    ensures forall i, j :: 0 <= i < j < |at| ==> at[i] < at[j]
    ensures forall i :: i in at <==> 0 <= i < k && calls[i] != []
  {
    if k > 0 {
      ActingIsExact(calls, k - 1, Acting(calls, k - 1));
    }
  }

  lemma {:induction false} FlatLength(calls: seq<seq<Effect>>, k: nat)
    requires k <= |calls| && AtMostOne(calls)
    ensures |Flat(calls, k)| == |Acting(calls, k)|
  {
    if k > 0 {
      FlatLength(calls, k - 1);
    }
  }

  lemma {:induction false} FlatAt(calls: seq<seq<Effect>>, k: nat, j: nat)
    requires k <= |calls| && AtMostOne(calls) && |Flat(calls, k)| == |Acting(calls, k)| && j < |Acting(calls, k)|
    ensures calls[Acting(calls, k)[j]] == [Flat(calls, k)[j]]
    decreases k
  {
    FlatLength(calls, k - 1);
    if j < |Acting(calls, k - 1)| {
      FlatAt(calls, k - 1, j);
    }
  }

  /** The effects are those of the messages that call for one, in arrival order. */
  lemma EffectsInOrder(msgs: seq<Msg>, data: seq<seq<byte>>)
    requires Fits(msgs, data)
    ensures var effects, calls := EffectsUpTo(msgs, data, |msgs|), CalledFor(msgs, data);
            && |effects| == |Acting(calls, |msgs|)|
            && forall j :: 0 <= j < |effects| ==> calls[Acting(calls, |msgs|)[j]] == [effects[j]]
  {
    var calls := CalledFor(msgs, data);
    EffectsAreFlat(msgs, data, |msgs|);
    FlatLength(calls, |msgs|);
    forall j | 0 <= j < |Acting(calls, |msgs|)|
      ensures calls[Acting(calls, |msgs|)[j]] == [Flat(calls, |msgs|)[j]]
    {
      FlatAt(calls, |msgs|, j);
    }
  }

  lemma {:induction false} EffectsAreFlat(msgs: seq<Msg>, data: seq<seq<byte>>, k: nat)
    requires k <= |msgs| && Fits(msgs, data)
    ensures EffectsUpTo(msgs, data, k) == Flat(CalledFor(msgs, data), k)
  {
    if k > 0 {
      EffectsAreFlat(msgs, data, k - 1);
    }
  }

  /** The endpoint of a message from this sender; none is set if it is not a UDP address. */
  predicate IsEndpoint(ep: Option<AddrPort>, sender: Sender) {
    match sender
    case Udp(AddrPort(V4(bits), port)) => ep == Some(AddrPort(V4(bits), port))
    case Udp(AddrPort(V4In6(bits), port)) => ep == Some(AddrPort(V4(bits), port))
    case Udp(AddrPort(V6(bits), port)) => ep == Some(AddrPort(V6(bits), port))
    case _ => true
  }

  /** Slot w holds message i, its size and, where there is one, its unmapped UDP sender. */
  predicate SlotHolds(slot: seq<byte>, size: int, ep: Option<AddrPort>, was: Option<AddrPort>, m: Msg, data: seq<byte>)
    requires m.n <= |data|
  {
    && m.n <= |slot| && slot[..m.n] == data[..m.n]
    && size == m.n
    && ep == (if m.sender.Udp? then Some(Unmap(m.sender.at)) else was)
  }

  /** A test packet is handled whether or not anything can be done about it. */
  method HandleMagicPacket(data: seq<byte>, from: AddrPort, hasSocket: bool, hasCallback: bool)
    returns (handled: bool, effects: seq<Effect>)
    ensures handled <==> IsMagic(data)
    ensures effects == (if CanAct(data, hasSocket, hasCallback) then [EffectOf(data, from)] else [])
    ensures IsRequest(data) && hasSocket ==> effects == [Answer(from, RESPONSE + data[17..25])]
    ensures IsResponse(data) && hasCallback ==> |effects| == 1 && effects[0].Report? && effects[0].echo == data[17..25]
    ensures !(IsRequest(data) && hasSocket) && !(IsResponse(data) && hasCallback) ==> effects == []
  {
    effects := [];
    assert REQUEST[15] != RESPONSE[15];
    if |data| >= PACKET_LEN && data[..17] == REQUEST {
      if hasSocket {
        effects := [Answer(from, RESPONSE + data[17..17 + DATA_LEN])];
      }
      return true, effects;
    }
    if |data| >= PACKET_LEN && data[..17] == RESPONSE {
      if hasCallback {
        effects := [Report(Unmap(from), data[17..17 + DATA_LEN])];
      }
      return true, effects;
    }
    return false, effects;
  }

  method CopyInto(dst: array<byte>, src: array<byte>, n: nat)
    requires dst != src && n <= dst.Length && n <= src.Length
    modifies dst
    ensures dst[..n] == src[..n] && dst[n..] == old(dst[n..])
  {
    forall i | 0 <= i < n {
      dst[i] := src[i];
    }
  }

  ghost function Contents(bufs: seq<array<byte>>): (data: seq<seq<byte>>)
    reads bufs
    ensures |data| == |bufs| && forall i :: 0 <= i < |bufs| ==> data[i] == bufs[i][..]
  {
    seq(|bufs|, i requires 0 <= i < |bufs| reads bufs => bufs[i][..])
  }

  predicate DistinctBuffers(bufs: seq<array<byte>>) {
    forall i, j :: 0 <= i < j < |bufs| ==> bufs[i] != bufs[j] && bufs[i].Length == bufs[j].Length
  }

  /** What the arrays held when the batch arrived. */
  datatype Snapshot = Snapshot(data: seq<seq<byte>>, sizes: seq<int>, eps: seq<Option<AddrPort>>)

  /** The first slots hold the kept messages, one after the other; all later slots, and so every
      message not read yet, are as they were. */
  ghost predicate Compacted(bufs: seq<array<byte>>, sizes: array<int>, eps: array<Option<AddrPort>>,
                            was: Snapshot, msgs: seq<Msg>, kept: seq<nat>)
    requires Fits(msgs, was.data) && forall j :: 0 <= j < |kept| ==> kept[j] < |msgs|
    reads bufs, sizes, eps
  {
    && |was.data| == |bufs| && |was.sizes| == sizes.Length && |was.eps| == eps.Length
    && |kept| <= |bufs| && |kept| <= sizes.Length && |kept| <= eps.Length
    && (forall j :: 0 <= j < |kept| ==>
          SlotHolds(bufs[j][..], sizes[j], eps[j], was.eps[j], msgs[kept[j]], was.data[kept[j]]))
    && (forall j :: |kept| <= j < |bufs| ==> bufs[j][..] == was.data[j])
    && (forall j :: |kept| <= j < sizes.Length ==> sizes[j] == was.sizes[j])
    && (forall j :: |kept| <= j < eps.Length ==> eps[j] == was.eps[j])
  }

  /** Moves message i into slot w, which is i itself or an earlier one. */
  method PlaceMessage(bufs: seq<array<byte>>, sizes: array<int>, eps: array<Option<AddrPort>>, w: nat, i: nat, m: Msg)
    requires DistinctBuffers(bufs) && w <= i < |bufs| && m.n <= bufs[i].Length
    requires w < sizes.Length && w < eps.Length
    modifies bufs[w], sizes, eps
    ensures SlotHolds(bufs[w][..], sizes[w], eps[w], old(eps[w]), m, old(bufs[i][..]))
    ensures forall j :: 0 <= j < |bufs| && j != w ==> bufs[j][..] == old(bufs[j][..])
    ensures forall j :: 0 <= j < sizes.Length && j != w ==> sizes[j] == old(sizes[j])
    ensures forall j :: 0 <= j < eps.Length && j != w ==> eps[j] == old(eps[j])
  {
    if w != i {
      CopyInto(bufs[w], bufs[i], m.n);
    }
    sizes[w] := m.n;
    if m.sender.Udp? {
      eps[w] := Some(Unmap(m.sender.at));
    }
  }

  /** Looks at one message: is it to be passed on, and what does it call for? */
  method Screen(m: Msg, data: seq<byte>) returns (keep: bool, effects: seq<Effect>)
    requires m.n == |data|
    ensures keep <==> IsPassed(m, data)
    ensures effects == EffectsOf(m, data)
  {
    keep, effects := m.n != 0, [];
    if m.n != 0 && m.sender.Udp? {
      var handled;
      handled, effects := HandleMagicPacket(data, m.sender.at, m.hasSocket, m.hasCallback);
      keep := !handled;
    }
  }

  /** Compacts the batch in place: the first n slots hold exactly the passed messages in arrival
      order, everything from slot n on is untouched, and the test packets are dealt with. */
  method CompactBatch(bufs: seq<array<byte>>, msgs: seq<Msg>, sizes: array<int>, eps: array<Option<AddrPort>>)
    returns (n: nat, effects: seq<Effect>)
    requires DistinctBuffers(bufs) && Fits(msgs, Contents(bufs))
    requires sizes.Length >= |msgs| && eps.Length >= |msgs|
    modifies bufs, sizes, eps
    ensures n == |PassedUpTo(msgs, old(Contents(bufs)), |msgs|)|
    ensures Compacted(bufs, sizes, eps, Snapshot(old(Contents(bufs)), old(sizes[..]), old(eps[..])), msgs,
                      PassedUpTo(msgs, old(Contents(bufs)), |msgs|))
    ensures effects == EffectsUpTo(msgs, old(Contents(bufs)), |msgs|)
    ensures forall j :: 0 <= j < n ==> IsEndpoint(eps[j], msgs[PassedUpTo(msgs, old(Contents(bufs)), |msgs|)[j]].sender)
  {
    ghost var was := Snapshot(Contents(bufs), sizes[..], eps[..]);
    n, effects := 0, [];
    for i := 0 to |msgs|
      invariant n == |PassedUpTo(msgs, was.data, i)|
      invariant Compacted(bufs, sizes, eps, was, msgs, PassedUpTo(msgs, was.data, i))
      invariant effects == EffectsUpTo(msgs, was.data, i)
    {
      var more;
      n, more := TakeMessage(bufs, sizes, eps, msgs, n, i, was);
      effects := effects + more;
    }
    ghost var kept := PassedUpTo(msgs, was.data, |msgs|);
    forall j | 0 <= j < n
      ensures IsEndpoint(eps[j], msgs[kept[j]].sender)
    {
      assert SlotHolds(bufs[j][..], sizes[j], eps[j], was.eps[j], msgs[kept[j]], was.data[kept[j]]);
    }
  }

  /** One turn of the loop. */
  method TakeMessage(bufs: seq<array<byte>>, sizes: array<int>, eps: array<Option<AddrPort>>, msgs: seq<Msg>,
                     n: nat, i: nat, ghost was: Snapshot)
    returns (n': nat, effects: seq<Effect>)
    requires DistinctBuffers(bufs) && Fits(msgs, was.data) && i < |msgs|
    requires n == |PassedUpTo(msgs, was.data, i)| && |msgs| <= sizes.Length && |msgs| <= eps.Length
    requires Compacted(bufs, sizes, eps, was, msgs, PassedUpTo(msgs, was.data, i))
    modifies bufs, sizes, eps
    ensures n' == |PassedUpTo(msgs, was.data, i + 1)|
    ensures Compacted(bufs, sizes, eps, was, msgs, PassedUpTo(msgs, was.data, i + 1))
    ensures effects == EffectsOf(msgs[i], was.data[i][..msgs[i].n])
  {
    assert bufs[i][..msgs[i].n] == bufs[i][..][..msgs[i].n];
    var keep;
    keep, effects := Screen(msgs[i], bufs[i][..msgs[i].n]);
    n' := n;
    if keep {
      PlaceMessage(bufs, sizes, eps, n, i, msgs[i]);
      n' := n + 1;
    }
  }
}
