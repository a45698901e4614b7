/** The proxy handler itself: the four tables as mutable fields, the rule index it consults, and
    the packets it passes on. Each method is the step of the machine in `Nat` that its name
    says, and the invariant is that the tables are what some run of that machine leaves. */
module Proxying {
  import opened Common
  import opened OnesComplement
  import opened Packet
  import opened Prefixes
  import opened SubnetRules
  import Nat

  /** An IPv4 address as the rule index sees it. */
  function IndexAddr(a: Addr4): Addr {
    AddrOf(Word(a[0], a[1]) * 0x1_0000 + Word(a[2], a[3]), 32)
  }

  /** The rule the table gives for a packet, if the packet is one the handler looks at. */
  ghost function RuleFor(t: Table, p: seq<byte>): Option<SubnetRule> {
    if Nat.Eligible(p)
    then FlatMatch(t, IndexAddr(SourceOf(p)), IndexAddr(DestinationOf(p)), DestinationPort(p), Proto(p))
    else None
  }

  // ---------------------------------------------------------------- which rule a packet gets

  /** The address as the number its four bytes write, most significant first. */
  function Value(a: Addr4): nat {
    var b0: nat, b1: nat, b2: nat, b3: nat := a[0], a[1], a[2], a[3];
    ((b0 * 256 + b1) * 256 + b2) * 256 + b3
  }

  /** The address begins with the network's bits. */
  predicate InNet(n: Net, a: Addr4) {
    && n.width == 32 && 0 <= n.len <= 32
    && n.bits * Pow2(32 - n.len) <= Value(a) && Value(a) < (n.bits + 1) * Pow2(32 - n.len)
  }

  lemma IndexAddrIff(n: Net, a: Addr4)
    ensures Covers(n, IndexAddr(a)) <==> InNet(n, a)
  {
    CoversIff(n, Value(a), 32);
  }

  /** The packet lies in the rule's networks, and the rule lets it in unless it is ICMP. */
  predicate Takes(r: SubnetRule, p: seq<byte>)
    requires |p| >= IPV4_MINIMUM_SIZE
  {
    && InNet(r.sourcePrefix.net, SourceOf(p)) && InNet(r.destPrefix.net, DestinationOf(p))
    && (Proto(p) == 1 || Proto(p) == 58 || Admits(r, DestinationPort(p), Proto(p)))
  }

  /** The longer source network goes first, then the longer destination network. */
  predicate Nearer(a: SubnetRule, b: SubnetRule) {
    || a.sourcePrefix.net.len > b.sourcePrefix.net.len
    || (a.sourcePrefix.net.len == b.sourcePrefix.net.len && a.destPrefix.net.len > b.destPrefix.net.len)
  }

  /** Of the rules that take the packet, r is the nearest; and it does not turn ICMP away. */
  ghost predicate IsRuleOf(t: Table, r: SubnetRule, p: seq<byte>)
    requires |p| >= IPV4_MINIMUM_SIZE
  {
    && r in t.Values && Takes(r, p) && !((Proto(p) == 1 || Proto(p) == 58) && r.disableIcmp)
    && (forall o :: o in t.Values && o != r && Takes(o, p) ==> Nearer(r, o))
  }

  lemma CoversIsIn(k: Key, p: seq<byte>)
    requires |p| >= IPV4_MINIMUM_SIZE
    ensures CoversBoth(k, IndexAddr(SourceOf(p)), IndexAddr(DestinationOf(p))) <==>
            InNet(k.source, SourceOf(p)) && InNet(k.dest, DestinationOf(p))
  {
    IndexAddrIff(k.source, SourceOf(p));
    IndexAddrIff(k.dest, DestinationOf(p));
  }

  /** The key whose rule applies to the packet is that of a rule that takes it. */
  lemma RuleForIff(t: Table, p: seq<byte>, r: SubnetRule)
    requires forall k :: k in t ==> KeyOf(t[k]) == k
    ensures RuleFor(t, p) == Some(r) <==> Nat.Eligible(p) && IsRuleOf(t, r, p)
  {
    if Nat.Eligible(p) {
      var src, dst := IndexAddr(SourceOf(p)), IndexAddr(DestinationOf(p));
      MatchIsApplied(t, src, dst, DestinationPort(p), Proto(p));
      if RuleFor(t, p) == Some(r) {
        AppliedIsRule(t, p, r);
      }
      if IsRuleOf(t, r, p) {
        RuleIsApplied(t, p, r);
      }
    }
  }

  lemma RuleForAll(t: Table, p: seq<byte>)
    requires forall k :: k in t ==> KeyOf(t[k]) == k
    ensures forall r :: RuleFor(t, p) == Some(r) <==> Nat.Eligible(p) && IsRuleOf(t, r, p)
    ensures RuleFor(t, p).Some? <==> Nat.Eligible(p) && exists r :: IsRuleOf(t, r, p)
  {
    forall r
      ensures RuleFor(t, p) == Some(r) <==> Nat.Eligible(p) && IsRuleOf(t, r, p)
    {
      RuleForIff(t, p, r);
    }
    if RuleFor(t, p).Some? {
      assert IsRuleOf(t, RuleFor(t, p).value, p);
    }
  }

  /** A packet with a rule is passed on, and as it is if there is no address to redirect it to. */
  lemma InjectedIs(t: Nat.Tables, p: seq<byte>, rule: Option<SubnetRule>, resolved: Option<Addr4>)
    requires rule.Some? ==> Nat.Eligible(p)
    requires Nat.IsRewritten(t, p, rule, resolved) ==> Sliceable(p)
    ensures Nat.Injected(t, p, rule, resolved).Some? <==> rule.Some?
    ensures rule.Some? && (rule.value.rewriteTo == "" || (resolved.None? && Nat.ConnOf(p) !in t.conns)) ==>
              Nat.Injected(t, p, rule, resolved) == Some(p)
  {
  }

  lemma TakenKey(t: Table, p: seq<byte>, k: Key)
    requires k in t && KeyOf(t[k]) == k && |p| >= IPV4_MINIMUM_SIZE
    ensures Takes(t[k], p) <==>
            && CoversBoth(k, IndexAddr(SourceOf(p)), IndexAddr(DestinationOf(p)))
            && (Proto(p) == 1 || Proto(p) == 58 || Admits(t[k], DestinationPort(p), Proto(p)))
  {
    CoversIsIn(k, p);
  }

  lemma AppliedIsRule(t: Table, p: seq<byte>, r: SubnetRule)
    requires (forall k :: k in t ==> KeyOf(t[k]) == k) && |p| >= IPV4_MINIMUM_SIZE
    requires Applies(t, r, IndexAddr(SourceOf(p)), IndexAddr(DestinationOf(p)), DestinationPort(p), Proto(p))
    ensures IsRuleOf(t, r, p)
  {
    assert KeyOf(r) in t && t[KeyOf(r)] == r;
    TakenKey(t, p, KeyOf(r));
    forall o | o in t.Values && o != r && Takes(o, p)
      ensures Nearer(r, o)
    {
      assert KeyOf(o) in t && t[KeyOf(o)] == o;
      TakenKey(t, p, KeyOf(o));
    }
  }

  lemma RuleIsApplied(t: Table, p: seq<byte>, r: SubnetRule)
    requires (forall k :: k in t ==> KeyOf(t[k]) == k) && |p| >= IPV4_MINIMUM_SIZE && IsRuleOf(t, r, p)
    ensures Applies(t, r, IndexAddr(SourceOf(p)), IndexAddr(DestinationOf(p)), DestinationPort(p), Proto(p))
  {
    var src, dst, k := IndexAddr(SourceOf(p)), IndexAddr(DestinationOf(p)), KeyOf(r);
    assert k in t && t[k] == r;
    TakenKey(t, p, k);
    forall o | o in t && o != k && CoversBoth(o, src, dst) && (Proto(p) == 1 || Proto(p) == 58 || Admits(t[o], DestinationPort(p), Proto(p)))
      ensures k.source.len > o.source.len || (k.source.len == o.source.len && k.dest.len > o.dest.len)
    {
      TakenKey(t, p, o);
      assert t[o] in t.Values && t[o] != r;
    }
    if Proto(p) == 1 || Proto(p) == 58 {
      assert Nearest(t, k, src, dst);
    } else {
      assert NearestAdmitting(t, k, src, dst, DestinationPort(p), Proto(p));
    }
  }

  lemma {:induction false} RunExtends(es: seq<Nat.Event>, e: Nat.Event, n: nat)
    requires n <= |es|
    ensures Nat.Run(es + [e], n) == Nat.Run(es, n)
  {
    if n > 0 {
      RunExtends(es, e, n - 1);
    }
  }

  class ProxyHandler {
    const subnetLookup: SubnetLookup
    var natTable: map<Nat.ConnKey, Nat.NatState>
    var reverseNatTable: map<Nat.ReverseKey, Nat.NatState>
    var destRewriteTable: map<Nat.DestKey, Addr4>
    var resourceTable: map<Nat.DestKey, int>
    var injected: seq<seq<byte>>
    ghost var events: seq<Nat.Event>

    ghost function State(): Nat.Tables
      reads this
    {
      Nat.Tables(natTable, reverseNatTable, destRewriteTable, resourceTable)
    }

    ghost predicate Valid()
      reads this
    {
      State() == Nat.Run(events, |events|)
    }

    constructor (lookup: SubnetLookup)
      ensures Valid() && events == [] && subnetLookup == lookup && injected == []
    {
      subnetLookup := lookup;
      natTable, reverseNatTable, destRewriteTable, resourceTable := map[], map[], map[], map[];
      injected, events := [], [];
    }

    /** Reads the connection off the headers, refusing packets that do not hold them. */
    static method ParseHeaders(packet: array<byte>) returns (conn: Option<Nat.ConnKey>)
      ensures conn.Some? <==> Nat.Eligible(packet[..])
      ensures conn.Some? ==> conn.value == Nat.ConnOf(packet[..])
      ensures conn.Some? <==>
              && packet.Length >= 20 && 0x40 <= packet[0] < 0x50
              && (packet[9] == 6 ==> packet.Length >= packet[0] % 16 * 4 + 20)
              && (packet[9] == 17 ==> packet.Length >= packet[0] % 16 * 4 + 8)
    {
      if packet.Length < IPV4_MINIMUM_SIZE || packet[0] / 16 != 4 {
        return None;
      }
      var headerLen := packet[0] % 16 * 4;
      var src, dst, proto := packet[12..16], packet[16..20], packet[9];
      assert src == SourceOf(packet[..]) && dst == DestinationOf(packet[..]);
      if proto == TCP {
        if packet.Length < headerLen + TCP_MINIMUM_SIZE {
          return None;
        }
      } else if proto == UDP {
        if packet.Length < headerLen + UDP_MINIMUM_SIZE {
          return None;
        }
      } else {
        return Some(Nat.ConnKey(src, 0, dst, 0, proto));
      }
      return Some(Nat.ConnKey(src, Word(packet[headerLen], packet[headerLen + 1]),
                              dst, Word(packet[headerLen + 2], packet[headerLen + 3]), proto));
    }

    /** Takes one packet from the tunnel. `resolved` is what resolving the matched rule's target
        yields, should it be asked for. */
    method HandleIncomingPacket(packet: array<byte>, resolved: Option<Addr4>) returns (handled: bool)
      requires Valid() && subnetLookup.Valid()
      requires Nat.IsRewritten(State(), packet[..], RuleFor(subnetLookup.Table(), packet[..]), resolved) ==> Sliceable(packet[..])
      modifies this
      ensures Valid()
      ensures events == old(events) + [Nat.Arrive(packet[..], RuleFor(old(subnetLookup.Table()), packet[..]), resolved)]
      ensures var sent := Nat.Injected(old(State()), packet[..], RuleFor(old(subnetLookup.Table()), packet[..]), resolved);
              && handled == sent.Some?
              && (handled ==> injected == old(injected) + [sent.value])
              && (!handled ==> injected == old(injected))
      ensures forall r :: RuleFor(old(subnetLookup.Table()), packet[..]) == Some(r) <==>
                            Nat.Eligible(packet[..]) && IsRuleOf(old(subnetLookup.Table()), r, packet[..])
      ensures handled <==> Nat.Eligible(packet[..]) && exists r :: IsRuleOf(old(subnetLookup.Table()), r, packet[..])
      ensures handled && resolved.None? && Nat.ConnOf(packet[..]) !in old(natTable) ==> injected == old(injected) + [packet[..]]
      ensures handled && (forall r :: IsRuleOf(old(subnetLookup.Table()), r, packet[..]) ==> r.rewriteTo == "") ==>
                injected == old(injected) + [packet[..]]
    {
      RunIsKeyed(subnetLookup.history, |subnetLookup.history|);
      RuleForAll(subnetLookup.Table(), packet[..]);
      InjectedIs(State(), packet[..], RuleFor(subnetLookup.Table(), packet[..]), resolved);
      var rule := FindRule(packet);
      handled := TakePacket(packet, rule, resolved);
    }

    /** One step of the machine, with the rule already chosen. */
    method TakePacket(packet: array<byte>, rule: Option<SubnetRule>, resolved: Option<Addr4>) returns (handled: bool)
      requires Valid()
      requires Nat.IsRewritten(State(), packet[..], rule, resolved) ==> Sliceable(packet[..])
      requires rule.Some? ==> Nat.Eligible(packet[..])
      modifies this
      ensures Valid() && events == old(events) + [Nat.Arrive(packet[..], rule, resolved)]
      ensures handled == Nat.Injected(old(State()), packet[..], rule, resolved).Some?
      ensures handled ==> injected == old(injected) + [Nat.Injected(old(State()), packet[..], rule, resolved).value]
      ensures !handled ==> injected == old(injected)
    {
      ghost var event: Nat.Event := Nat.Arrive(packet[..], rule, resolved);
      events := events + [event];
      RunExtends(old(events), event, |old(events)|);
      if rule.None? {
        return false;
      }
      handled := Dispatch(packet, rule.value, resolved);
    }

    /** The rule for a packet: none if its headers are incomplete or nothing matches. */
    method FindRule(packet: array<byte>) returns (rule: Option<SubnetRule>)
      requires subnetLookup.Valid()
      ensures rule == RuleFor(subnetLookup.Table(), packet[..])
    {
      var conn := ParseHeaders(packet);
      if conn.None? {
        return None;
      }
      var k := conn.value;
      rule := subnetLookup.Match(IndexAddr(k.src), IndexAddr(k.dst), k.dstPort, k.proto);
    }

    /** The part of the handler after a rule has matched. */
    method Dispatch(packet: array<byte>, rule: SubnetRule, resolved: Option<Addr4>) returns (handled: bool)
      requires Nat.Eligible(packet[..])
      requires Nat.IsRewritten(State(), packet[..], Some(rule), resolved) ==> Sliceable(packet[..])
      modifies this`natTable, this`reverseNatTable, this`destRewriteTable, this`resourceTable, this`injected
      ensures handled
      ensures State() == Nat.Incoming(old(State()), packet[..], Some(rule), resolved)
      ensures injected == old(injected) + [Nat.Injected(old(State()), packet[..], Some(rule), resolved).value]
    {
      handled := true;
      var conn := ParseHeaders(packet);
      var k := conn.value;
      var d := Nat.DestOf(k);
      if rule.resourceId != 0 {
        resourceTable := resourceTable[d := rule.resourceId];
      }
      if rule.rewriteTo == "" {
        injected := injected + [packet[..]];
        return;
      }
      var newDst: Addr4;
      if k in natTable {
        newDst := natTable[k].rewrittenTo;
      } else {
        if resolved.None? {
          injected := injected + [packet[..]];
          return;
        }
        newDst := resolved.value;
        var entry := Nat.NatState(k.dst, newDst);
        natTable := natTable[k := entry];
        reverseNatTable := reverseNatTable[Nat.ReverseOf(k, newDst) := entry];
        destRewriteTable := destRewriteTable[d := newDst];
        if rule.resourceId != 0 {
          resourceTable := resourceTable[Nat.DestKey(k.src, newDst, k.dstPort, k.proto) := rule.resourceId];
        }
      }
      if Nat.IsLoopback(newDst) {
        injected := injected + [packet[..]];
      } else {
        var pkt := RewriteDestination(packet, newDst);
        injected := injected + [pkt[..]];
      }
    }

    /** Passes a packet from the proxy stack back to the tunnel, undoing the rewrite if there is
        one to undo. */
    method ReadOutgoingPacket(packet: array<byte>) returns (out: array<byte>)
      requires Nat.IsRestored(State(), packet[..]) ==> Sliceable(packet[..])
      ensures out[..] == Nat.Outgoing(State(), packet[..])
      ensures packet.Length < 20 || !(0x40 <= packet[0] < 0x50) || packet[9] == 1 ==> out == packet
    {
      out := packet;
      ghost var p := packet[..];
      if packet.Length < IPV4_MINIMUM_SIZE || packet[0] / 16 != 4 {
        return;
      }
      var headerLen := packet[0] % 16 * 4;
      var src, dst, proto := packet[12..16], packet[16..20], packet[9];
      assert src == SourceOf(p) && dst == DestinationOf(p);
      var srcPort, dstPort: word := 0, 0;
      if (proto == TCP && packet.Length >= headerLen + TCP_MINIMUM_SIZE)
         || (proto == UDP && packet.Length >= headerLen + UDP_MINIMUM_SIZE) {
        srcPort, dstPort := Word(packet[headerLen], packet[headerLen + 1]), Word(packet[headerLen + 2], packet[headerLen + 3]);
      }
      if proto == ICMP_V4 {
        return;
      }
      var rk := Nat.ReverseKey(src, dst, dstPort, srcPort, proto);
      assert rk == Nat.ReplyKey(p);
      if rk in reverseNatTable {
        out := RewriteSource(packet, reverseNatTable[rk].originalDst);
      }
    }

    method ReleaseConnectionState(k: Nat.ConnKey)
      requires Valid()
      modifies this
      ensures Valid() && events == old(events) + [Nat.Close(k)] && injected == old(injected)
      ensures State() == Nat.Release(old(State()), k)
    {
      ghost var event: Nat.Event := Nat.Close(k);
      events := events + [event];
      RunExtends(old(events), event, |old(events)|);
      if k !in natTable {
        return;
      }
      var entry := natTable[k];
      natTable := natTable - {k};
      reverseNatTable := reverseNatTable - {Nat.ReverseOf(k, entry.rewrittenTo)};
    }
  }
}
