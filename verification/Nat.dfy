/** Connection tracking for destination rewriting, as a machine over packets and releases.

    A step is either an incoming packet together with whatever rule matched it and whatever
    name resolution answered, or the release of a connection. Rules and resolver answers are
    free at every step, so the lemmas about runs hold however either changes.
 */
module Nat {
  import opened Common
  import opened OnesComplement
  import opened Packet
  import opened SubnetRules

  datatype ConnKey = ConnKey(src: Addr4, srcPort: word, dst: Addr4, dstPort: word, proto: byte)

  /** Identifies a connection by what its replies show: the original destination is missing. */
  datatype ReverseKey = ReverseKey(
    rewrittenTo: Addr4, originalSrc: Addr4, originalSrcPort: word, originalDstPort: word, proto: byte)

  datatype DestKey = DestKey(src: Addr4, dst: Addr4, dstPort: word, proto: byte)

  datatype NatState = NatState(originalDst: Addr4, rewrittenTo: Addr4)

  datatype Tables = Tables(
    conns: map<ConnKey, NatState>,
    reverse: map<ReverseKey, NatState>,
    destRewrite: map<DestKey, Addr4>,
    resource: map<DestKey, int>)

  const EMPTY := Tables(map[], map[], map[], map[])

  function ReverseOf(k: ConnKey, to: Addr4): ReverseKey {
    ReverseKey(to, k.src, k.srcPort, k.dstPort, k.proto)
  }

  predicate IsLoopback(a: Addr4) {
    a[0] == 127
  }

  // ---------------------------------------------------------------- incoming packets

  /** The packet is IPv4 and, if TCP or UDP, holds a complete transport header. */
  predicate Eligible(p: seq<byte>) {
    && |p| >= IPV4_MINIMUM_SIZE && p[0] / 16 == 4
    && (Proto(p) == TCP ==> CarriesTcp(p))
    && (Proto(p) == UDP ==> CarriesUdp(p))
  }

  function ConnOf(p: seq<byte>): ConnKey
    requires |p| >= IPV4_MINIMUM_SIZE
  {
    ConnKey(SourceOf(p), SourcePort(p), DestinationOf(p), DestinationPort(p), Proto(p))
  }

  function DestOf(k: ConnKey): DestKey {
    DestKey(k.src, k.dst, k.dstPort, k.proto)
  }

  /** Remembers which resource a destination belongs to, if the rule names one. */
  function NoteResource(t: Tables, d: DestKey, id: int): Tables {
    if id != 0 then t.(resource := t.resource[d := id]) else t
  }

  /** Stores a new connection in every table. */
  function Track(t: Tables, k: ConnKey, to: Addr4, id: int): Tables {
    var e := NatState(k.dst, to);
    var stored := t.(conns := t.conns[k := e],
                     reverse := t.reverse[ReverseOf(k, to) := e],
                     destRewrite := t.destRewrite[DestOf(k) := to]);
    NoteResource(stored, DestKey(k.src, to, k.dstPort, k.proto), id)
  }

  /** The tables after an incoming packet, given the rule that matched and the address that the
      rule's target resolved to. */
  function Incoming(t: Tables, p: seq<byte>, rule: Option<SubnetRule>, resolved: Option<Addr4>): Tables {
    if !Eligible(p) || rule.None? then t
    else
      var k := ConnOf(p);
      var noted := NoteResource(t, DestOf(k), rule.value.resourceId);
      if rule.value.rewriteTo == "" || k in t.conns || resolved.None? then noted
      else Track(noted, k, resolved.value, rule.value.resourceId)
  }

  /** The address an incoming packet is to be redirected to. */
  function Target(t: Tables, p: seq<byte>, rule: Option<SubnetRule>, resolved: Option<Addr4>): Option<Addr4> {
    if !Eligible(p) || rule.None? || rule.value.rewriteTo == "" then None
    else if ConnOf(p) in t.conns then Some(t.conns[ConnOf(p)].rewrittenTo)
    else resolved
  }

  /** The packet will be rewritten, so its header length has to lie within the buffer. */
  predicate IsRewritten(t: Tables, p: seq<byte>, rule: Option<SubnetRule>, resolved: Option<Addr4>) {
    Target(t, p, rule, resolved).Some? && !IsLoopback(Target(t, p, rule, resolved).value)
  }

  /** What goes into the proxy stack once the target address is known. */
  function Redirected(p: seq<byte>, to: Addr4): seq<byte>
    requires !IsLoopback(to) ==> Sliceable(p)
  {
    if IsLoopback(to) then p else Rewritten(p, Destination, to)
  }

  /** The packet handed to the proxy stack; none if the packet is not taken. */
  function Injected(t: Tables, p: seq<byte>, rule: Option<SubnetRule>, resolved: Option<Addr4>): Option<seq<byte>>
    requires IsRewritten(t, p, rule, resolved) ==> Sliceable(p)
  {
    if !Eligible(p) || rule.None? then None
    else if Target(t, p, rule, resolved).None? then Some(p)
    else Some(Redirected(p, Target(t, p, rule, resolved).value))
  }

  // ---------------------------------------------------------------- replies and releases

  function ReplyKey(p: seq<byte>): ReverseKey
    requires |p| >= IPV4_MINIMUM_SIZE
  {
    ReverseKey(SourceOf(p), DestinationOf(p), DestinationPort(p), SourcePort(p), Proto(p))
  }

  predicate IsRestored(t: Tables, p: seq<byte>) {
    |p| >= IPV4_MINIMUM_SIZE && p[0] / 16 == 4 && Proto(p) != ICMP_V4 && ReplyKey(p) in t.reverse
  }

  function Outgoing(t: Tables, p: seq<byte>): (out: seq<byte>)
    requires IsRestored(t, p) ==> Sliceable(p)
  {
    if IsRestored(t, p) then Rewritten(p, Source, t.reverse[ReplyKey(p)].originalDst) else p
  }

  function Release(t: Tables, k: ConnKey): Tables {
    if k !in t.conns then t
    else t.(conns := t.conns - {k}, reverse := t.reverse - {ReverseOf(k, t.conns[k].rewrittenTo)})
  }

  // ---------------------------------------------------------------- runs

  datatype Event =
    | Arrive(packet: seq<byte>, rule: Option<SubnetRule>, resolved: Option<Addr4>)
    | Close(key: ConnKey)

  function Step(t: Tables, e: Event): Tables {
    match e
    case Arrive(p, rule, resolved) => Incoming(t, p, rule, resolved)
    case Close(k) => Release(t, k)
  }

  function Run(es: seq<Event>, n: nat): Tables
    requires n <= |es|
  {
    if n == 0 then EMPTY else Step(Run(es, n - 1), es[n - 1])
  }

  datatype Opening = Opening(key: ConnKey, to: Addr4)

  /** The connection a step opens, if it opens one. */
  function Opened(t: Tables, e: Event): Option<Opening> {
    if && e.Arrive? && Eligible(e.packet) && e.rule.Some? && e.rule.value.rewriteTo != ""
       && ConnOf(e.packet) !in t.conns && e.resolved.Some?
    then Some(Opening(ConnOf(e.packet), e.resolved.value))
    else None
  }

  /** All a step can do to the forward and reverse tables: open one connection or close one. */
  lemma StepEffect(t: Tables, e: Event)
    ensures Opened(t, e).Some? ==>
              var o := Opened(t, e).value;
              var entry := NatState(o.key.dst, o.to);
              && Step(t, e).conns == t.conns[o.key := entry]
              && Step(t, e).reverse == t.reverse[ReverseOf(o.key, o.to) := entry]
    ensures e.Close? && e.key in t.conns ==>
              && Step(t, e).conns == t.conns - {e.key}
              && Step(t, e).reverse == t.reverse - {ReverseOf(e.key, t.conns[e.key].rewrittenTo)}
    ensures Opened(t, e).None? && !(e.Close? && e.key in t.conns) ==>
              Step(t, e).conns == t.conns && Step(t, e).reverse == t.reverse
  {
    if e.Arrive? {
      ArriveEffect(t, e);
    }
  }

  lemma ArriveEffect(t: Tables, e: Event)
    requires e.Arrive?
    ensures Opened(t, e).Some? ==>
              var o := Opened(t, e).value;
              var entry := NatState(o.key.dst, o.to);
              && Step(t, e).conns == t.conns[o.key := entry]
              && Step(t, e).reverse == t.reverse[ReverseOf(o.key, o.to) := entry]
    ensures Opened(t, e).None? ==> Step(t, e).conns == t.conns && Step(t, e).reverse == t.reverse
  {
  }

  /** The reverse entry rk belongs to a live connection, with the same rewrite address. */
  predicate Backed(t: Tables, rk: ReverseKey)
    requires rk in t.reverse
  {
    var e := t.reverse[rk];
    var k := ConnKey(rk.originalSrc, rk.originalSrcPort, e.originalDst, rk.originalDstPort, rk.proto);
    k in t.conns && t.conns[k] == e && rk == ReverseOf(k, e.rewrittenTo)
  }

  predicate Consistent(t: Tables) {
    && (forall k :: k in t.conns ==> t.conns[k].originalDst == k.dst)
    && (forall rk :: rk in t.reverse ==> Backed(t, rk))
  }

  lemma StepConsistent(t: Tables, e: Event)
    requires Consistent(t)
    ensures Consistent(Step(t, e))
  {
    StepEffect(t, e);
    var t' := Step(t, e);
    forall rk | rk in t'.reverse
      ensures Backed(t', rk)
    {
      if rk in t.reverse {
        assert Backed(t, rk);
      }
    }
  }

  /** In every reachable state each forward entry records its own destination and each reverse
      entry is backed by a live forward entry for the same connection and address. */
  lemma {:induction false} RunConsistent(es: seq<Event>, n: nat)
    requires n <= |es|
    ensures Consistent(Run(es, n))
  {
    if n > 0 {
      RunConsistent(es, n - 1);
      StepConsistent(Run(es, n - 1), es[n - 1]);
    }
  }

  predicate NeverClosed(es: seq<Event>, k: ConnKey, i: nat, n: nat) {
    i <= n <= |es| && forall j :: i <= j < n ==> es[j] != Close(k)
  }

  /** A tracked connection keeps its first address until it is released, whatever the rules and
      the resolver do in between. */
  lemma {:induction false} KeepsAddress(es: seq<Event>, k: ConnKey, i: nat, n: nat)
    requires NeverClosed(es, k, i, n) && k in Run(es, i).conns
    ensures k in Run(es, n).conns && Run(es, n).conns[k] == Run(es, i).conns[k]
    decreases n - i
  {
    if i < n {
      KeepsAddress(es, k, i, n - 1);
      StepEffect(Run(es, n - 1), es[n - 1]);
    }
  }

  /** So every later packet that still matches a rewriting rule is sent to that address. */
  lemma SameTarget(es: seq<Event>, k: ConnKey, i: nat, n: nat)
    requires NeverClosed(es, k, i, n) && n < |es| && k in Run(es, i).conns
    requires es[n].Arrive? && Eligible(es[n].packet) && ConnOf(es[n].packet) == k
    requires es[n].rule.Some? && es[n].rule.value.rewriteTo != "" && Sliceable(es[n].packet)
    ensures Injected(Run(es, n), es[n].packet, es[n].rule, es[n].resolved)
            == Some(Redirected(es[n].packet, Run(es, i).conns[k].rewrittenTo))
  {
    KeepsAddress(es, k, i, n);
  }

  // ---------------------------------------------------------------- when replies find their way back

  /** The reverse table leads replies on k to k's own entry. */
  predicate Answers(t: Tables, k: ConnKey) {
    && k in t.conns
    && ReverseOf(k, t.conns[k].rewrittenTo) in t.reverse
    && t.reverse[ReverseOf(k, t.conns[k].rewrittenTo)] == t.conns[k]
  }

  /** The step opens or closes another connection with the reverse key rk. */
  predicate Disturbs(t: Tables, e: Event, k: ConnKey, rk: ReverseKey) {
    || (Opened(t, e).Some? && Opened(t, e).value.key != k && ReverseOf(Opened(t, e).value.key, Opened(t, e).value.to) == rk)
    || (e.Close? && e.key != k && e.key in t.conns && ReverseOf(e.key, t.conns[e.key].rewrittenTo) == rk)
  }

  /** One step: replies stay answered exactly when the step does not disturb the key, and once
      lost they stay lost. */
  lemma AnswersStep(t: Tables, e: Event, k: ConnKey)
    requires Consistent(t) && k in t.conns && e != Close(k)
    ensures k in Step(t, e).conns && Step(t, e).conns[k] == t.conns[k]
    ensures Answers(Step(t, e), k) <==> Answers(t, k) && !Disturbs(t, e, k, ReverseOf(k, t.conns[k].rewrittenTo))
  {
    StepEffect(t, e);
    StepConsistent(t, e);
  }

  /** Step i opens k for the address `to`. */
  predicate OpensAt(es: seq<Event>, i: nat, k: ConnKey, to: Addr4) {
    i < |es| && Opened(Run(es, i), es[i]) == Some(Opening(k, to))
  }

  predicate Undisturbed(es: seq<Event>, k: ConnKey, to: Addr4, i: nat, n: nat) {
    i <= n <= |es| && forall j :: i <= j < n ==> !Disturbs(Run(es, j), es[j], k, ReverseOf(k, to))
  }

  /** A live connection's replies find its entry if and only if, since it was opened, no other
      connection with the same reverse key was opened or closed. */
  lemma {:induction false} AnsweredIffUndisturbed(es: seq<Event>, k: ConnKey, to: Addr4, i: nat, n: nat)
    requires OpensAt(es, i, k, to) && i < n && NeverClosed(es, k, i + 1, n)
    ensures k in Run(es, n).conns && Run(es, n).conns[k] == NatState(k.dst, to)
    ensures Answers(Run(es, n), k) <==> Undisturbed(es, k, to, i + 1, n)
    decreases n
  {
    if n == i + 1 {
      OpenedAnswers(Run(es, i), es[i], k, to);
    } else {
      AnsweredIffUndisturbed(es, k, to, i, n - 1);
      AnsweredNext(es, k, to, n - 1);
      UndisturbedStep(es, k, to, i + 1, n);
    }
  }

  lemma AnsweredNext(es: seq<Event>, k: ConnKey, to: Addr4, n: nat)
    requires n < |es| && es[n] != Close(k) && k in Run(es, n).conns && Run(es, n).conns[k] == NatState(k.dst, to)
    ensures k in Run(es, n + 1).conns && Run(es, n + 1).conns[k] == NatState(k.dst, to)
    ensures Answers(Run(es, n + 1), k) <==> Answers(Run(es, n), k) && !Disturbs(Run(es, n), es[n], k, ReverseOf(k, to))
  {
    RunConsistent(es, n);
    AnswersStep(Run(es, n), es[n], k);
  }

  lemma OpenedAnswers(t: Tables, e: Event, k: ConnKey, to: Addr4)
    requires Opened(t, e) == Some(Opening(k, to))
    ensures k in Step(t, e).conns && Step(t, e).conns[k] == NatState(k.dst, to) && Answers(Step(t, e), k)
  {
    StepEffect(t, e);
  }

  /** Which connections share a reverse key: those with the same rewritten address, source, ports
      and protocol. */
  lemma SharesIff(a: ConnKey, to: Addr4, b: ConnKey, bTo: Addr4)
    ensures ReverseOf(a, to) == ReverseOf(b, bTo) <==>
            to == bTo && a.src == b.src && a.srcPort == b.srcPort && a.dstPort == b.dstPort && a.proto == b.proto
  {
  }

  lemma UndisturbedStep(es: seq<Event>, k: ConnKey, to: Addr4, i: nat, n: nat)
    requires i < n <= |es|
    ensures Undisturbed(es, k, to, i, n) <==>
            Undisturbed(es, k, to, i, n - 1) && !Disturbs(Run(es, n - 1), es[n - 1], k, ReverseOf(k, to))
  {
  }

  /** r answers q: addresses and ports exchanged, same protocol, and not ICMP. */
  predicate RepliesTo(r: seq<byte>, q: seq<byte>)
    requires WellFormed(r) && WellFormed(q)
  {
    && SourceOf(r) == DestinationOf(q) && DestinationOf(r) == SourceOf(q)
    && SourcePort(r) == DestinationPort(q) && DestinationPort(r) == SourcePort(q)
    && Proto(r) == Proto(q) && Proto(r) != ICMP_V4
  }

  /** The DNAT round trip on the wire. For a packet redirected to a non-loopback address, every
      reply to what was injected leaves as a valid packet from the original destination to the
      original source, with its ports kept, when the connection is answered. When it is not,
      and the address really changed, the reply does not come from the original destination. */
  lemma ReplyRestored(t: Tables, p: seq<byte>, to: Addr4, r: seq<byte>)
    requires Consistent(t) && WellFormed(p) && Eligible(p) && !IsLoopback(to)
    requires ConnOf(p) in t.conns && t.conns[ConnOf(p)] == NatState(DestinationOf(p), to)
    requires WellFormed(Redirected(p, to)) && WellFormed(r) && RepliesTo(r, Redirected(p, to))
    ensures Answers(t, ConnOf(p)) ==>
              var u := Outgoing(t, r);
              && WellFormed(u) && HeaderVerifies(u) && (CarriesTransport(u) ==> TransportVerifies(u))
              && SourceOf(u) == DestinationOf(p) && DestinationOf(u) == SourceOf(p)
              && SourcePort(u) == DestinationPort(p) && DestinationPort(u) == SourcePort(p)
    ensures !Answers(t, ConnOf(p)) && to != DestinationOf(p) ==> SourceOf(Outgoing(t, r)) != DestinationOf(p)
  {
    var k := ConnOf(p);
    var rk := ReplyKey(r);
    RewriteVerifies(p, Destination, to);
    RewriteKeepsTheRest(p, Destination, to);
    assert rk == ReverseOf(k, to);
    if rk in t.reverse {
      var back := t.reverse[rk].originalDst;
      assert Backed(t, rk);
      RewriteVerifies(r, Source, back);
      RewriteKeepsTheRest(r, Source, back);
    }
  }

  /** The whole story over a run: open at i, redirect at m, reply at n. */
  lemma RoundTrip(es: seq<Event>, k: ConnKey, to: Addr4, i: nat, m: nat, n: nat, r: seq<byte>)
    requires OpensAt(es, i, k, to) && i <= m < n && NeverClosed(es, k, i + 1, n) && !IsLoopback(to)
    requires es[m].Arrive? && Eligible(es[m].packet) && WellFormed(es[m].packet) && ConnOf(es[m].packet) == k
    requires es[m].rule.Some? && es[m].rule.value.rewriteTo != ""
    requires WellFormed(r) && WellFormed(Redirected(es[m].packet, to)) && RepliesTo(r, Redirected(es[m].packet, to))
    ensures Injected(Run(es, m), es[m].packet, es[m].rule, es[m].resolved) == Some(Redirected(es[m].packet, to))
    ensures Undisturbed(es, k, to, i + 1, n) ==>
              var u := Outgoing(Run(es, n), r);
              && WellFormed(u) && HeaderVerifies(u) && (CarriesTransport(u) ==> TransportVerifies(u))
              && SourceOf(u) == DestinationOf(es[m].packet) && DestinationOf(u) == SourceOf(es[m].packet)
    ensures !Undisturbed(es, k, to, i + 1, n) && to != k.dst ==> SourceOf(Outgoing(Run(es, n), r)) != k.dst
  {
    if i < m {
      AnsweredIffUndisturbed(es, k, to, i, m);
    }
    AnsweredIffUndisturbed(es, k, to, i, n);
    RunConsistent(es, n);
    ReplyRestored(Run(es, n), es[m].packet, to, r);
  }

  /** If no two live connections ever share a reverse key, nothing is disturbed, so every live
      connection is answered. */
  predicate NoSharedKeys(t: Tables) {
    forall a, b :: a in t.conns && b in t.conns && a != b ==>
                     ReverseOf(a, t.conns[a].rewrittenTo) != ReverseOf(b, t.conns[b].rewrittenTo)
  }

  lemma NoSharingUndisturbed(t: Tables, e: Event, k: ConnKey)
    requires NoSharedKeys(t) && NoSharedKeys(Step(t, e)) && k in t.conns && e != Close(k)
    ensures !Disturbs(t, e, k, ReverseOf(k, t.conns[k].rewrittenTo))
  {
    StepEffect(t, e);
    if Opened(t, e).Some? {
      var o := Opened(t, e).value;
      assert Step(t, e).conns[o.key].rewrittenTo == o.to;
      assert o.key in Step(t, e).conns && k in Step(t, e).conns;
    }
  }

  lemma NoSharingStep(t: Tables, e: Event, k: ConnKey)
    requires Consistent(t) && NoSharedKeys(t) && NoSharedKeys(Step(t, e)) && k in Step(t, e).conns
    requires k in t.conns ==> Answers(t, k)
    ensures Answers(Step(t, e), k)
  {
    StepEffect(t, e);
    if k in t.conns {
      AnswersStep(t, e, k);
      NoSharingUndisturbed(t, e, k);
    }
  }

  lemma {:induction false} NoSharingAnswersAll(es: seq<Event>, n: nat, k: ConnKey)
    requires n <= |es| && k in Run(es, n).conns
    requires forall j :: 0 <= j <= n ==> NoSharedKeys(Run(es, j))
    ensures Answers(Run(es, n), k)
  {
    if n > 0 {
      RunConsistent(es, n - 1);
      if k in Run(es, n - 1).conns {
        NoSharingAnswersAll(es, n - 1, k);
      }
      NoSharingStep(Run(es, n - 1), es[n - 1], k);
    }
  }

  /** Being alone on the key at the time of the reply is not enough: two packets open connections
      that share it, the first is released, and the second, still live, is no longer answered. */
  lemma SurvivorLosesReplies(p: seq<byte>, q: seq<byte>, rule: SubnetRule, to: Addr4)
    requires Eligible(p) && Eligible(q) && ConnOf(p) != ConnOf(q) && ReverseOf(ConnOf(p), to) == ReverseOf(ConnOf(q), to)
    requires rule.rewriteTo != ""
    ensures var es := [Arrive(p, Some(rule), Some(to)), Arrive(q, Some(rule), Some(to)), Close(ConnOf(p))];
            && Answers(Run(es, 2), ConnOf(q))
            && ConnOf(q) in Run(es, 3).conns && Run(es, 3).conns.Keys == {ConnOf(q)}
            && !Answers(Run(es, 3), ConnOf(q))
  {
    var es := [Arrive(p, Some(rule), Some(to)), Arrive(q, Some(rule), Some(to)), Close(ConnOf(p))];
    var a, b := ConnOf(p), ConnOf(q);
    StepEffect(Run(es, 0), es[0]);
    assert Run(es, 1).conns == map[a := NatState(a.dst, to)];
    assert Run(es, 1).reverse == map[ReverseOf(a, to) := NatState(a.dst, to)];
    StepEffect(Run(es, 1), es[1]);
    assert Run(es, 2).conns == map[a := NatState(a.dst, to), b := NatState(b.dst, to)];
    assert Run(es, 2).reverse == map[ReverseOf(b, to) := NatState(b.dst, to)];
    StepEffect(Run(es, 2), es[2]);
    assert Run(es, 3).conns == map[b := NatState(b.dst, to)];
  }

  /** Two datagrams for which it happens: from one source to two destinations, the first of which
      is the target itself. The proxy stack sees the first as it was sent, so closing it releases
      its own connection; closing the second does not. */
  lemma SharingHappens() returns (p: seq<byte>, q: seq<byte>, to: Addr4)
    ensures WellFormed(p) && WellFormed(q) && Eligible(p) && Eligible(q) && CarriesUdp(p) && CarriesUdp(q)
    ensures ConnOf(p) != ConnOf(q) && ReverseOf(ConnOf(p), to) == ReverseOf(ConnOf(q), to)
    ensures !IsLoopback(to) && DestinationOf(p) == to && SeenConn(p, to) == ConnOf(p)
    ensures DestinationOf(q) != to && SeenConn(q, to) != ConnOf(q)
  {
    p, q, to := TwoDatagrams();
    SeenConnIs(p, to);
    SeenConnIs(q, to);
  }

  lemma TwoDatagrams() returns (p: seq<byte>, q: seq<byte>, to: Addr4)
    ensures WellFormed(p) && WellFormed(q) && CarriesUdp(p) && CarriesUdp(q)
    ensures !IsLoopback(to) && DestinationOf(p) == to != DestinationOf(q)
    ensures SourceOf(p) == SourceOf(q) && SourcePort(p) == SourcePort(q) && DestinationPort(p) == DestinationPort(q)
  {
    p := [0x45, 0, 0, 28, 0, 0, 0, 0, 64, 17, 0, 0, 10, 0, 0, 1, 10, 0, 0, 9, 0, 53, 0, 54, 0, 8, 0, 0];
    q := p[19 := 3];
    to := [10, 0, 0, 9];
    assert DestinationOf(q)[3] == 3;
  }

  // ---------------------------------------------------------------- what the handlers release

  /** The connection as the proxy stack sees it. The TCP and UDP handlers release this one. */
  function SeenConn(p: seq<byte>, to: Addr4): ConnKey
    requires WellFormed(p)
  {
    ConnOf(Redirected(p, to))
  }

  lemma SeenConnIs(p: seq<byte>, to: Addr4)
    requires WellFormed(p)
    ensures SeenConn(p, to) == if IsLoopback(to) then ConnOf(p) else ConnOf(p).(dst := to)
  {
    RewriteVerifies(p, Destination, to);
    RewriteKeepsTheRest(p, Destination, to);
  }

  /** A connection's state is meant to be dropped when the connection closes. It is kept if and
      only if the destination was really rewritten. */
  lemma KeptOnCloseIff(t: Tables, p: seq<byte>, to: Addr4)
    requires WellFormed(p) && ConnOf(p) in t.conns && t.conns[ConnOf(p)].rewrittenTo == to
    ensures ConnOf(p) in Release(t, SeenConn(p, to)).conns <==> !IsLoopback(to) && to != DestinationOf(p)
  {
    SeenConnIs(p, to);
  }

  /** So a changed rule, or a new answer of the resolver, takes effect for the next connection of
      the same source, ports and destination if and only if it was not. */
  lemma ChangeTakesEffectIff(t: Tables, p: seq<byte>, to: Addr4, rule: SubnetRule, newTo: Addr4)
    requires WellFormed(p) && Eligible(p) && ConnOf(p) in t.conns && t.conns[ConnOf(p)].rewrittenTo == to
    requires rule.rewriteTo != "" && newTo != to
    ensures Target(Release(t, SeenConn(p, to)), p, Some(rule), Some(newTo)) == Some(newTo) <==>
            IsLoopback(to) || to == DestinationOf(p)
  {
    KeptOnCloseIff(t, p, to);
    SeenConnIs(p, to);
  }

  // ---------------------------------------------------------------- what the handlers look up

  /** The address that a step stores for handlers of (source, destination, port, protocol). */
  function Redirects(t: Tables, e: Event, d: DestKey): Option<Addr4> {
    var o := Opened(t, e);
    if o.Some? && o.value.key.src == d.src && o.value.key.dst == d.dst && o.value.key.dstPort == d.dstPort && o.value.key.proto == d.proto
    then Some(o.value.to)
    else None
  }

  /** The resource that a step notes for them: that of the rule, under the packet's destination and,
      for a new connection, also under the rewritten one. */
  function Notes(t: Tables, e: Event, d: DestKey): Option<int> {
    if e.Arrive? && Eligible(e.packet) && e.rule.Some? && e.rule.value.resourceId != 0
       && d.src == SourceOf(e.packet) && d.dstPort == DestinationPort(e.packet) && d.proto == Proto(e.packet)
       && (d.dst == DestinationOf(e.packet) || (Opened(t, e).Some? && d.dst == Opened(t, e).value.to))
    then Some(e.rule.value.resourceId)
    else None
  }

  /** The map has v under d, or for no v what it had before. */
  predicate Stored<V(==)>(now: map<DestKey, V>, was: map<DestKey, V>, d: DestKey, v: Option<V>) {
    if v.Some? then d in now && now[d] == v.value
    else (d in now <==> d in was) && (d in was ==> now[d] == was[d])
  }

  lemma StepRedirects(t: Tables, e: Event, d: DestKey)
    ensures Stored(Step(t, e).destRewrite, t.destRewrite, d, Redirects(t, e, d))
  {
    if e.Arrive? && Opened(t, e).Some? {
      assert Step(t, e).destRewrite == t.destRewrite[DestOf(ConnOf(e.packet)) := e.resolved.value];
    } else {
      assert Step(t, e).destRewrite == t.destRewrite;
    }
  }

  /** The resource table after a packet: noted under its destination, and under the new one. */
  lemma ArriveNotes(t: Tables, e: Event)
    requires e.Arrive? && Eligible(e.packet) && e.rule.Some? && e.rule.value.resourceId != 0
    ensures var k, id := ConnOf(e.packet), e.rule.value.resourceId;
            var noted := t.resource[DestOf(k) := id];
            Step(t, e).resource ==
            if Opened(t, e).Some? then noted[DestKey(k.src, Opened(t, e).value.to, k.dstPort, k.proto) := id] else noted
  {
  }

  lemma NothingNoted(t: Tables, e: Event)
    requires !(e.Arrive? && Eligible(e.packet) && e.rule.Some? && e.rule.value.resourceId != 0)
    ensures Step(t, e).resource == t.resource
  {
  }

  lemma StepNotes(t: Tables, e: Event, d: DestKey)
    ensures Stored(Step(t, e).resource, t.resource, d, Notes(t, e, d))
  {
    if e.Arrive? && Eligible(e.packet) && e.rule.Some? && e.rule.value.resourceId != 0 {
      ArriveNotes(t, e);
    } else {
      NothingNoted(t, e);
    }
  }

  /** Of the steps before n, step i is the last to store something for d. */
  predicate LastRedirect(es: seq<Event>, d: DestKey, i: nat, n: nat) {
    && i < n <= |es| && Redirects(Run(es, i), es[i], d).Some?
    && forall j :: i < j < n ==> Redirects(Run(es, j), es[j], d).None?
  }

  predicate LastNote(es: seq<Event>, d: DestKey, i: nat, n: nat) {
    && i < n <= |es| && Notes(Run(es, i), es[i], d).Some?
    && forall j :: i < j < n ==> Notes(Run(es, j), es[j], d).None?
  }

  /** In every run a handler finds the address stored last; nothing is ever removed. */
  lemma {:induction false} RedirectIsLast(es: seq<Event>, d: DestKey, i: nat, n: nat)
    requires LastRedirect(es, d, i, n)
    ensures d in Run(es, n).destRewrite && Some(Run(es, n).destRewrite[d]) == Redirects(Run(es, i), es[i], d)
    decreases n
  {
    if i < n - 1 {
      RedirectIsLast(es, d, i, n - 1);
    }
    StepRedirects(Run(es, n - 1), es[n - 1], d);
  }

  lemma {:induction false} RedirectWasStored(es: seq<Event>, d: DestKey, n: nat) returns (i: nat)
    requires n <= |es| && d in Run(es, n).destRewrite
    ensures LastRedirect(es, d, i, n)
  {
    StepRedirects(Run(es, n - 1), es[n - 1], d);
    if Redirects(Run(es, n - 1), es[n - 1], d).Some? {
      i := n - 1;
    } else {
      i := RedirectWasStored(es, d, n - 1);
    }
  }

  lemma {:induction false} ResourceIsLast(es: seq<Event>, d: DestKey, i: nat, n: nat)
    requires LastNote(es, d, i, n)
    ensures d in Run(es, n).resource && Some(Run(es, n).resource[d]) == Notes(Run(es, i), es[i], d)
    decreases n
  {
    if i < n - 1 {
      ResourceIsLast(es, d, i, n - 1);
    }
    StepNotes(Run(es, n - 1), es[n - 1], d);
  }

  lemma {:induction false} ResourceWasNoted(es: seq<Event>, d: DestKey, n: nat) returns (i: nat)
    requires n <= |es| && d in Run(es, n).resource
    ensures LastNote(es, d, i, n)
  {
    StepNotes(Run(es, n - 1), es[n - 1], d);
    if Notes(Run(es, n - 1), es[n - 1], d).Some? {
      i := n - 1;
    } else {
      i := ResourceWasNoted(es, d, n - 1);
    }
  }

  /** A packet redirected to a loopback address keeps its destination, and the handler has to look
      the address up. It finds the connection's own if and only if the last connection opened from
      the same source to the same destination and port was given that address. */
  lemma LoopbackFoundIff(es: seq<Event>, p: seq<byte>, to: Addr4, i: nat, last: nat, n: nat)
    requires WellFormed(p) && IsLoopback(to) && OpensAt(es, i, ConnOf(p), to)
    requires i <= last && LastRedirect(es, DestOf(SeenConn(p, to)), last, n)
    ensures DestOf(SeenConn(p, to)) in Run(es, n).destRewrite
    ensures Run(es, n).destRewrite[DestOf(SeenConn(p, to))] == to <==> Opened(Run(es, last), es[last]).value.to == to
  {
    RedirectIsLast(es, DestOf(SeenConn(p, to)), last, n);
  }

  lemma OpeningIsRedirect(es: seq<Event>, p: seq<byte>, to: Addr4, i: nat)
    requires WellFormed(p) && IsLoopback(to) && OpensAt(es, i, ConnOf(p), to)
    ensures LastRedirect(es, DestOf(SeenConn(p, to)), i, i + 1)
  {
  }

  /** The handler of a redirected packet finds the resource of the packet's rule if and only if the
      packet opened its connection, its destination is unchanged, or the resource was noted there
      before: a rule that changes its resource is not noticed by a connection to another address. */
  lemma ResourceFoundIff(t: Tables, p: seq<byte>, rule: SubnetRule, resolved: Option<Addr4>, to: Addr4)
    requires WellFormed(p) && Eligible(p) && rule.resourceId != 0 && Target(t, p, Some(rule), resolved) == Some(to)
    ensures var found, d := Incoming(t, p, Some(rule), resolved).resource, DestOf(SeenConn(p, to));
            (d in found && found[d] == rule.resourceId) <==>
            ConnOf(p) !in t.conns || IsLoopback(to) || to == DestinationOf(p) || (d in t.resource && t.resource[d] == rule.resourceId)
  {
    SeenConnIs(p, to);
    StepNotes(t, Arrive(p, Some(rule), resolved), DestOf(SeenConn(p, to)));
  }
}
