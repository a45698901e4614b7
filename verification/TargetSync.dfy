/** Reconciling the proxy's targets with the targets the server wants. */
module TargetSync {
  import opened Common
  import opened TargetStrings

  /** Targets by listening address and port. */
  type Targets = map<string, map<int, string>>

  datatype Proto = Tcp | Udp

  function At(ts: Targets, ip: string, port: int): Option<string> {
    if ip in ts && port in ts[ip] then Some(ts[ip][port]) else None
  }

  /** The targets on one address. */
  function On(ts: Targets, ip: string): map<int, string> {
    if ip in ts then ts[ip] else map[]
  }

  /** Only the targets on this address may differ. */
  ghost predicate SameElsewhere(ts: Targets, us: Targets, ip: string) {
    forall q :: q != ip ==> (q in ts <==> q in us) && (q in ts ==> ts[q] == us[q])
  }

  // ---------------------------------------------------------------- targets as strings

  /** How targets are written and read. The reasoning about syncs holds for any such pair that is
      faithful; REAL is the one the program uses. */
  datatype Codec = Codec(parse: string -> Option<Entry>, format: (int, string) -> string)

  const REAL := Codec(Parse, Format)

  function Reparsed(c: Codec, port: int, target: string): Option<Entry> {
    c.parse(c.format(port, target))
  }

  /** The port stays what it was on its way through a string, and what has been parsed stays what
      it is. */
  ghost predicate Faithful(c: Codec) {
    && (forall port, target {:trigger Reparsed(c, port, target)} ::
          Reparsed(c, port, target).Some? ==> Reparsed(c, port, target).value.port == port)
    && (forall s {:trigger c.parse(s)} ::
          c.parse(s).Some? ==> Reparsed(c, c.parse(s).value.port, c.parse(s).value.target) == c.parse(s))
  }

  /** Every target is what it would be parsed to, so it can be removed again. */
  ghost predicate Canonical(c: Codec, ts: Targets) {
    forall ip, port {:trigger At(ts, ip, port)} :: At(ts, ip, port).Some? ==>
      Reparsed(c, port, At(ts, ip, port).value) == Some(Entry(port, At(ts, ip, port).value))
  }

  lemma RealIsFaithful()
    ensures Faithful(REAL)
  {
    forall port, target | Reparsed(REAL, port, target).Some?
      ensures Reparsed(REAL, port, target).value.port == port
    {
      ReparseIs(port, target);
    }
    forall s | REAL.parse(s).Some?
      ensures Reparsed(REAL, REAL.parse(s).value.port, REAL.parse(s).value.target) == REAL.parse(s)
    {
      ParsedIsCanonical(s);
    }
  }

  /** The target that the first n strings name last for a port. */
  function Named(c: Codec, list: seq<string>, n: nat, port: int): Option<string>
    requires n <= |list|
  {
    if n == 0 then None
    else
      var e := c.parse(list[n - 1]);
      if e.Some? && e.value.port == port then Some(e.value.target) else Named(c, list, n - 1, port)
  }

  lemma NamedIsParsed(c: Codec, list: seq<string>, n: nat, port: int)
    requires n <= |list| && Faithful(c) && Named(c, list, n, port).Some?
    ensures Reparsed(c, port, Named(c, list, n, port).value) == Some(Entry(port, Named(c, list, n, port).value))
  {
    var e := c.parse(list[n - 1]);
    if e.Some? && e.value.port == port {
      assert e == Some(Entry(port, e.value.target));
    } else {
      NamedIsParsed(c, list, n - 1, port);
    }
  }

  // ---------------------------------------------------------------- the proxy manager

  class ProxyManager {
    var tcpTargets: Targets
    var udpTargets: Targets
    var changes: nat           // targets added or removed so far

    /** Every target can be removed by its string. */
    ghost predicate Valid()
      reads this
    {
      Canonical(REAL, tcpTargets) && Canonical(REAL, udpTargets)
    }

    constructor ()
      ensures Valid() && tcpTargets == map[] && udpTargets == map[] && changes == 0
    {
      tcpTargets, udpTargets, changes := map[], map[], 0;
    }

    function Get(proto: Proto): Targets
      reads this
    {
      if proto.Tcp? then tcpTargets else udpTargets
    }

    method AddTarget(proto: Proto, ip: string, port: int, target: string)
      modifies this
      ensures SameElsewhere(Get(proto), old(Get(proto)), ip) && ip in Get(proto)
      ensures forall q :: At(Get(proto), ip, q) == if q == port then Some(target) else At(old(Get(proto)), ip, q)
      ensures forall other :: other != proto ==> Get(other) == old(Get(other))
      ensures changes == old(changes) + 1
    {
      if proto.Tcp? {
        if ip !in tcpTargets {
          tcpTargets := tcpTargets[ip := map[]];
        }
        tcpTargets := tcpTargets[ip := tcpTargets[ip][port := target]];
      } else {
        if ip !in udpTargets {
          udpTargets := udpTargets[ip := map[]];
        }
        udpTargets := udpTargets[ip := udpTargets[ip][port := target]];
      }
      changes := changes + 1;
    }

    method RemoveTarget(proto: Proto, ip: string, port: int) returns (found: bool)
      modifies this
      ensures found <==> ip in old(Get(proto))
      ensures SameElsewhere(Get(proto), old(Get(proto)), ip) && (ip in Get(proto) <==> found)
      ensures forall q :: At(Get(proto), ip, q) == if q == port then None else At(old(Get(proto)), ip, q)
      ensures forall other :: other != proto ==> Get(other) == old(Get(other))
      ensures changes == old(changes) + (if found then 1 else 0)
      ensures !found ==> Get(proto) == old(Get(proto))
    {
      found := ip in Get(proto);
      if found {
        if proto.Tcp? {
          tcpTargets := tcpTargets[ip := tcpTargets[ip] - {port}];
        } else {
          udpTargets := udpTargets[ip := udpTargets[ip] - {port}];
        }
        changes := changes + 1;
      }
    }
  }

  // ---------------------------------------------------------------- add and remove messages

  datatype Action = Add | Remove

  /** What a port has after the first n strings of a message. */
  function Updated(c: Codec, action: Action, was: Option<string>, list: seq<string>, n: nat, port: int): Option<string>
    requires n <= |list|
  {
    if Named(c, list, n, port).None? then was
    else if action.Add? then Named(c, list, n, port)
    else None
  }

  predicate NothingParsed(c: Codec, list: seq<string>, n: nat)
    requires n <= |list|
  {
    forall i :: 0 <= i < n ==> c.parse(list[i]).None?
  }

  lemma CanonicalAfter(c: Codec, action: Action, ts: Targets, was: Targets, ip: string, list: seq<string>, n: nat)
    requires n <= |list| && Faithful(c) && Canonical(c, was) && SameElsewhere(ts, was, ip)
    requires forall port :: At(ts, ip, port) == Updated(c, action, At(was, ip, port), list, n, port)
    ensures Canonical(c, ts)
  {
    forall q, port | At(ts, q, port).Some?
      ensures Reparsed(c, port, At(ts, q, port).value) == Some(Entry(port, At(ts, q, port).value))
    {
      if q == ip && Named(c, list, n, port).Some? {
        NamedIsParsed(c, list, n, port);
      } else {
        assert At(ts, q, port) == At(was, q, port);
      }
    }
  }

  /** The targets after the first n strings. */
  ghost predicate UpdatedTo(c: Codec, action: Action, ts: Targets, was: Targets, ip: string, list: seq<string>, n: nat)
    requires n <= |list|
  {
    && SameElsewhere(ts, was, ip) && (action.Remove? ==> (ip in ts <==> ip in was))
    && (forall port :: At(ts, ip, port) == Updated(c, action, At(was, ip, port), list, n, port))
  }

  /** What one entry does to the targets. */
  ghost predicate EntryDone(action: Action, ts: Targets, was: Targets, ip: string, e: Entry) {
    && SameElsewhere(ts, was, ip) && (ip in ts <==> action.Add? || ip in was)
    && (forall q :: At(ts, ip, q) ==
          if q != e.port then At(was, ip, q) else if action.Add? then Some(e.target) else None)
  }

  lemma OneMore(c: Codec, action: Action, ts: Targets, mid: Targets, was: Targets, ip: string, list: seq<string>, n: nat)
    requires n < |list| && UpdatedTo(c, action, mid, was, ip, list, n)
    requires var e := c.parse(list[n]); if e.Some? then EntryDone(action, ts, mid, ip, e.value) else ts == mid
    ensures UpdatedTo(c, action, ts, was, ip, list, n + 1)
  {
  }

  method UpdateOne(pm: ProxyManager, action: Action, ip: string, proto: Proto, e: Entry) returns (ok: bool)
    modifies pm
    ensures EntryDone(action, pm.Get(proto), old(pm.Get(proto)), ip, e)
    ensures forall other :: other != proto ==> pm.Get(other) == old(pm.Get(other))
    ensures ok <==> action.Add? || ip in old(pm.Get(proto))
    ensures if ok then pm.changes > old(pm.changes) else pm.changes == old(pm.changes) && pm.Get(proto) == old(pm.Get(proto))
  {
    ok := pm.RemoveTarget(proto, ip, e.port);
    if action.Add? {
      pm.AddTarget(proto, ip, e.port, e.target);
      ok := true;
    }
  }

  /** Adds or removes the targets that the strings name; strings that do not parse are skipped.
      Removing from an address without targets fails at the first string that parses. */
  method UpdateTargets(pm: ProxyManager, c: Codec, action: Action, ip: string, proto: Proto, list: seq<string>) returns (ok: bool)
    requires Faithful(c) && Canonical(c, pm.Get(proto))
    modifies pm
    ensures Canonical(c, pm.Get(proto)) && SameElsewhere(pm.Get(proto), old(pm.Get(proto)), ip)
    ensures forall port :: At(pm.Get(proto), ip, port) == Updated(c, action, At(old(pm.Get(proto)), ip, port), list, |list|, port)
    ensures forall other :: other != proto ==> pm.Get(other) == old(pm.Get(other))
    ensures ok <==> action.Add? || ip in old(pm.Get(proto)) || NothingParsed(c, list, |list|)
    ensures pm.changes >= old(pm.changes)
    ensures pm.changes == old(pm.changes) <==> NothingParsed(c, list, |list|) || !ok
    ensures pm.changes == old(pm.changes) ==> pm.Get(proto) == old(pm.Get(proto))
  {
    ghost var was := pm.Get(proto);
    ok := true;
    for i := 0 to |list|
      invariant UpdatedTo(c, action, pm.Get(proto), was, ip, list, i)
      invariant forall other :: other != proto ==> pm.Get(other) == old(pm.Get(other))
      invariant action.Add? || ip in was || NothingParsed(c, list, i)
      invariant pm.changes >= old(pm.changes)
      invariant pm.changes == old(pm.changes) <==> NothingParsed(c, list, i)
      invariant pm.changes == old(pm.changes) ==> pm.Get(proto) == was
    {
      ghost var mid := pm.Get(proto);
      var e := c.parse(list[i]);
      if e.Some? {
        ok := UpdateOne(pm, action, ip, proto, e.value);
        if !ok {
          NeverThere(c, action, was, ip, list);
          break;
        }
      }
      OneMore(c, action, pm.Get(proto), mid, was, ip, list, i);
    }
    CanonicalAfter(c, action, pm.Get(proto), was, ip, list, |list|);
  }

  /** Removing from an address without targets leaves it without targets. */
  lemma NeverThere(c: Codec, action: Action, was: Targets, ip: string, list: seq<string>)
    requires action.Remove? && ip !in was
    ensures UpdatedTo(c, action, was, was, ip, list, |list|)
  {
  }

  // ---------------------------------------------------------------- one sync

  /** What a port should have after a sync: the desired target as it comes out of its string. */
  function Goal(c: Codec, desired: map<int, string>, port: int): Option<string> {
    if port !in desired then None
    else
      match Reparsed(c, port, desired[port])
      case None => None
      case Some(e) => Some(e.target)
  }

  /** Nothing is left to do: no other ports, and exactly what can be added is there, as desired. */
  ghost predicate InSync(c: Codec, ts: Targets, ip: string, desired: map<int, string>) {
    && (forall port :: At(ts, ip, port).Some? ==> port in desired)
    && (forall port :: port in desired ==> Settled(c, ts, ip, desired, port))
  }

  predicate Settled(c: Codec, ts: Targets, ip: string, desired: map<int, string>, port: int)
    requires port in desired
  {
    At(ts, ip, port) == if Reparsed(c, port, desired[port]).Some? then Some(desired[port]) else None
  }

  /** The unwanted ports outside `left` are gone; the rest is as before. */
  ghost predicate Pruned(ts: Targets, was: Targets, ip: string, desired: map<int, string>, left: set<int>) {
    && SameElsewhere(ts, was, ip)
    && (forall port :: At(ts, ip, port) == if port in desired || port in left then At(was, ip, port) else None)
  }

  /** The wanted ports outside `left` are as they should be; those in `left` are as before. */
  ghost predicate Filled(c: Codec, ts: Targets, was: Targets, ip: string, desired: map<int, string>, left: set<int>) {
    && SameElsewhere(ts, was, ip)
    && (forall port :: At(ts, ip, port) == if port in left then At(was, ip, port) else Goal(c, desired, port))
  }

  lemma NonEmpty(s: set<int>)
    requires s != {}
    ensures exists x :: x in s
  {
    assert (forall x :: x !in s) ==> s == {};
  }

  method RemoveOne(pm: ProxyManager, c: Codec, proto: Proto, ip: string, port: int, target: string)
    requires Faithful(c) && Canonical(c, pm.Get(proto)) && At(pm.Get(proto), ip, port) == Some(target)
    modifies pm
    ensures Canonical(c, pm.Get(proto)) && SameElsewhere(pm.Get(proto), old(pm.Get(proto)), ip)
    ensures forall q :: At(pm.Get(proto), ip, q) == if q == port then None else At(old(pm.Get(proto)), ip, q)
    ensures forall other :: other != proto ==> pm.Get(other) == old(pm.Get(other))
    ensures pm.changes > old(pm.changes)
  {
    var s := c.format(port, target);
    assert c.parse(s) == Reparsed(c, port, target) == Some(Entry(port, target));
    assert forall q :: Named(c, [s], 1, q) == if q == port then Some(target) else None;
    assert !NothingParsed(c, [s], 1) by { assert c.parse([s][0]).Some?; }
    var ok := UpdateTargets(pm, c, Remove, ip, proto, [s]);
  }

  method AddOne(pm: ProxyManager, c: Codec, proto: Proto, ip: string, port: int, target: string)
    requires Faithful(c) && Canonical(c, pm.Get(proto))
    modifies pm
    ensures Canonical(c, pm.Get(proto)) && SameElsewhere(pm.Get(proto), old(pm.Get(proto)), ip)
    ensures forall q :: At(pm.Get(proto), ip, q) ==
              if q == port && Reparsed(c, port, target).Some? then Some(Reparsed(c, port, target).value.target)
              else At(old(pm.Get(proto)), ip, q)
    ensures forall other :: other != proto ==> pm.Get(other) == old(pm.Get(other))
    ensures pm.changes >= old(pm.changes)
    ensures pm.changes == old(pm.changes) <==> Reparsed(c, port, target).None?
    ensures pm.changes == old(pm.changes) ==> pm.Get(proto) == old(pm.Get(proto))
  {
    var s := c.format(port, target);
    assert c.parse(s) == Reparsed(c, port, target);
    assert forall q :: Named(c, [s], 1, q) ==
             if c.parse(s).Some? && q == port then Some(c.parse(s).value.target) else None;
    assert NothingParsed(c, [s], 1) <==> c.parse(s).None? by { assert [s][0] == s; }
    var ok := UpdateTargets(pm, c, Add, ip, proto, [s]);
  }

  /** Removes the ports that are not wanted, if there are any. */
  method Prune(pm: ProxyManager, c: Codec, proto: Proto, ip: string, current: map<int, string>, desired: map<int, string>)
    requires Faithful(c) && Canonical(c, pm.Get(proto)) && current == On(pm.Get(proto), ip)
    modifies pm
    ensures Canonical(c, pm.Get(proto)) && Pruned(pm.Get(proto), old(pm.Get(proto)), ip, desired, {})
    ensures forall other :: other != proto ==> pm.Get(other) == old(pm.Get(other))
    ensures pm.changes >= old(pm.changes)
    ensures pm.changes == old(pm.changes) <==> forall port :: port in current ==> port in desired
    ensures pm.changes == old(pm.changes) ==> pm.Get(proto) == old(pm.Get(proto))
  {
    ghost var was := pm.Get(proto);
    var left: set<int> := current.Keys;
    while left != {}
      invariant left <= current.Keys
      invariant Canonical(c, pm.Get(proto)) && Pruned(pm.Get(proto), was, ip, desired, left)
      invariant forall other :: other != proto ==> pm.Get(other) == old(pm.Get(other))
      invariant pm.changes >= old(pm.changes)
      invariant pm.changes == old(pm.changes) <==> forall port :: port in current && port !in left ==> port in desired
      invariant pm.changes == old(pm.changes) ==> pm.Get(proto) == was
      decreases |left|
    {
      NonEmpty(left);
      var port :| port in left;
      assert At(was, ip, port) == Some(current[port]);
      if port !in desired {
        RemoveOne(pm, c, proto, ip, port, current[port]);
      }
      left := left - {port};
    }
  }

  /** Brings one wanted port up to date, if it is not. */
  method FillOne(pm: ProxyManager, c: Codec, proto: Proto, ip: string, current: map<int, string>, desired: map<int, string>, port: int)
    requires Faithful(c) && Canonical(c, pm.Get(proto)) && port in desired
    requires At(pm.Get(proto), ip, port) == if port in current then Some(current[port]) else None
    modifies pm
    ensures Canonical(c, pm.Get(proto)) && SameElsewhere(pm.Get(proto), old(pm.Get(proto)), ip)
    ensures forall q :: At(pm.Get(proto), ip, q) ==
              if q == port then Goal(c, desired, port) else At(old(pm.Get(proto)), ip, q)
    ensures forall other :: other != proto ==> pm.Get(other) == old(pm.Get(other))
    ensures pm.changes >= old(pm.changes)
    ensures pm.changes == old(pm.changes) <==> Settled(c, old(pm.Get(proto)), ip, desired, port)
    ensures pm.changes == old(pm.changes) ==> pm.Get(proto) == old(pm.Get(proto))
  {
    if port in current && current[port] == desired[port] {
      return;
    }
    if port in current {
      RemoveOne(pm, c, proto, ip, port, current[port]);
    }
    AddOne(pm, c, proto, ip, port, desired[port]);
  }

  /** Brings all wanted ports up to date. */
  method Fill(pm: ProxyManager, c: Codec, proto: Proto, ip: string, current: map<int, string>, desired: map<int, string>)
    requires Faithful(c) && Canonical(c, pm.Get(proto))
    requires forall port :: At(pm.Get(proto), ip, port) == if port in current && port in desired then Some(current[port]) else None
    modifies pm
    ensures Canonical(c, pm.Get(proto)) && Filled(c, pm.Get(proto), old(pm.Get(proto)), ip, desired, {})
    ensures forall other :: other != proto ==> pm.Get(other) == old(pm.Get(other))
    ensures pm.changes >= old(pm.changes)
    ensures pm.changes == old(pm.changes) <==>
            forall port :: port in desired ==> Settled(c, old(pm.Get(proto)), ip, desired, port)
    ensures pm.changes == old(pm.changes) ==> pm.Get(proto) == old(pm.Get(proto))
  {
    ghost var was := pm.Get(proto);
    var left: set<int> := desired.Keys;
    while left != {}
      invariant left <= desired.Keys
      invariant Canonical(c, pm.Get(proto)) && Filled(c, pm.Get(proto), was, ip, desired, left)
      invariant forall other :: other != proto ==> pm.Get(other) == old(pm.Get(other))
      invariant pm.changes >= old(pm.changes)
      invariant pm.changes == old(pm.changes) <==>
                forall port :: port in desired && port !in left ==> Settled(c, was, ip, desired, port)
      invariant pm.changes == old(pm.changes) ==> pm.Get(proto) == was
      decreases |left|
    {
      NonEmpty(left);
      var port :| port in left;
      assert At(pm.Get(proto), ip, port) == At(was, ip, port);
      assert Settled(c, pm.Get(proto), ip, desired, port) <==> Settled(c, was, ip, desired, port);
      FillOne(pm, c, proto, ip, current, desired, port);
      left := left - {port};
    }
  }

  /** One protocol: afterwards the targets on this address are exactly those desired, as far as
      they can be added, and targets on other addresses are untouched. Targets are added or
      removed if and only if something was left to do. */
  method SyncProto(pm: ProxyManager, c: Codec, proto: Proto, ip: string, desired: map<int, string>)
    requires Faithful(c) && Canonical(c, pm.Get(proto))
    modifies pm
    ensures Canonical(c, pm.Get(proto)) && SameElsewhere(pm.Get(proto), old(pm.Get(proto)), ip)
    ensures forall port :: At(pm.Get(proto), ip, port) == Goal(c, desired, port)
    ensures forall other :: other != proto ==> pm.Get(other) == old(pm.Get(other))
    ensures pm.changes >= old(pm.changes)
    ensures pm.changes == old(pm.changes) <==> InSync(c, old(pm.Get(proto)), ip, desired)
    ensures pm.changes == old(pm.changes) ==> pm.Get(proto) == old(pm.Get(proto))
  {
    ghost var was := pm.Get(proto);
    var current := On(pm.Get(proto), ip);
    Prune(pm, c, proto, ip, current, desired);
    assert forall port :: port in desired ==>
             (Settled(c, pm.Get(proto), ip, desired, port) <==> Settled(c, was, ip, desired, port));
    assert forall port :: port in current <==> At(was, ip, port).Some?;
    Fill(pm, c, proto, ip, current, desired);
  }

  // ---------------------------------------------------------------- the strings of a sync message

  /** What the strings ask for; those that are not understood ask for nothing. */
  function Asked(want: string -> Option<Entry>, list: seq<string>): (wants: seq<Option<Entry>>)
    ensures |wants| == |list| && forall i :: 0 <= i < |list| ==> wants[i] == want(list[i])
  {
    seq(|list|, i requires 0 <= i < |list| => want(list[i]))
  }

  function Wants(list: seq<string>): (wants: seq<Option<Entry>>)
    ensures |wants| == |list| && forall i :: 0 <= i < |list| ==> wants[i] == Wanted(list[i])
  {
    Asked(Wanted, list)
  }

  /** The last entry for a port decides. */
  function Desired(wants: seq<Option<Entry>>, n: nat): map<int, string>
    requires n <= |wants|
  {
    if n == 0 then map[]
    else
      match wants[n - 1]
      case None => Desired(wants, n - 1)
      case Some(e) => Desired(wants, n - 1)[e.port := e.target]
  }

  function DesiredOf(list: seq<string>): map<int, string> {
    Desired(Wants(list), |list|)
  }

  method BuildDesired(want: string -> Option<Entry>, list: seq<string>) returns (desired: map<int, string>)
    ensures desired == Desired(Asked(want, list), |list|)
  {
    ghost var wants := Asked(want, list);
    desired := map[];
    for i := 0 to |list|
      invariant desired == Desired(wants, i)
    {
      var e := want(list[i]);
      assert e == wants[i];
      if e.Some? {
        desired := desired[e.value.port := e.value.target];
      }
    }
  }

  /** Entry i names a port that no later entry names. */
  predicate Decides(wants: seq<Option<Entry>>, i: nat, n: nat)
    requires i < n <= |wants|
  {
    wants[i].Some? && forall j :: i < j < n && wants[j].Some? ==> wants[j].value.port != wants[i].value.port
  }

  /** Each desired target comes from the last entry for its port... */
  lemma {:induction false} DesiredIsDecided(wants: seq<Option<Entry>>, n: nat, port: int) returns (i: nat)
    requires n <= |wants| && port in Desired(wants, n)
    ensures i < n && Decides(wants, i, n) && wants[i] == Some(Entry(port, Desired(wants, n)[port]))
  {
    var e := wants[n - 1];
    if e.Some? && e.value.port == port {
      i := n - 1;
    } else {
      i := DesiredIsDecided(wants, n - 1, port);
    }
  }

  /** ...and each such entry is desired. */
  lemma {:induction false} DecidedIsDesired(wants: seq<Option<Entry>>, i: nat, n: nat)
    requires i < n <= |wants| && Decides(wants, i, n)
    ensures var e := wants[i].value; e.port in Desired(wants, n) && Desired(wants, n)[e.port] == e.target
  {
    if i < n - 1 {
      DecidedIsDesired(wants, i, n - 1);
    }
  }

  /** The string names a port from 1 to 65535, a host and a target port, without brackets. */
  ghost predicate AddableString(s: string) {
    Wanted(s).Some? && Addable(Wanted(s).value.port, ThreeParts(s).host, ThreeParts(s).targetPort)
  }

  /** The same but for brackets around the host. */
  ghost predicate BracketedString(s: string) {
    Wanted(s).Some? && Bracketed(Wanted(s).value.port, ThreeParts(s).host, ThreeParts(s).targetPort)
  }

  /** What becomes of the target of a string that decides. */
  lemma Fate(list: seq<string>, i: nat)
    requires i < |list| && Decides(Wants(list), i, |list|)
    ensures var e := Wanted(list[i]).value;
            && e.port in DesiredOf(list) && DesiredOf(list)[e.port] == e.target
            && (AddableString(list[i]) <==> Goal(REAL, DesiredOf(list), e.port) == Some(e.target))
            && (BracketedString(list[i]) <==>
                Goal(REAL, DesiredOf(list), e.port).Some? && Goal(REAL, DesiredOf(list), e.port) != Some(e.target))
  {
    var e := Wanted(list[i]).value;
    var p := ThreeParts(list[i]);
    DecidedIsDesired(Wants(list), i, |list|);
    assert Goal(REAL, DesiredOf(list), e.port) ==
           var r := Reparse(e.port, e.target); if r.None? then None else Some(r.value.target);
    WantedBecomes(list[i], e.port);
    if Bracketed(e.port, p.host, p.targetPort) {
      BracketsShow(e.port, p.host, p.targetPort);
    }
  }

  /** Every string that decides a port can be added as it stands. */
  ghost predicate AllAddable(list: seq<string>) {
    forall i :: 0 <= i < |list| && Decides(Wants(list), i, |list|) ==> AddableString(list[i])
  }

  ghost predicate NoneBracketed(list: seq<string>) {
    forall i :: 0 <= i < |list| && Decides(Wants(list), i, |list|) ==> !BracketedString(list[i])
  }

  lemma AddableIff(list: seq<string>)
    ensures AllAddable(list) <==>
            forall port :: port in DesiredOf(list) ==> Goal(REAL, DesiredOf(list), port) == Some(DesiredOf(list)[port])
  {
    var desired := DesiredOf(list);
    if AllAddable(list) {
      forall port | port in desired
        ensures Goal(REAL, desired, port) == Some(desired[port])
      {
        var i := DesiredIsDecided(Wants(list), |list|, port);
        Fate(list, i);
      }
    }
    if forall port :: port in desired ==> Goal(REAL, desired, port) == Some(desired[port]) {
      forall i | 0 <= i < |list| && Decides(Wants(list), i, |list|)
        ensures AddableString(list[i])
      {
        Fate(list, i);
      }
    }
  }

  lemma BracketedIff(list: seq<string>)
    ensures NoneBracketed(list) <==>
            forall port :: port in DesiredOf(list) && Goal(REAL, DesiredOf(list), port).Some? ==>
              Goal(REAL, DesiredOf(list), port) == Some(DesiredOf(list)[port])
  {
    var desired := DesiredOf(list);
    if NoneBracketed(list) {
      forall port | port in desired && Goal(REAL, desired, port).Some?
        ensures Goal(REAL, desired, port) == Some(desired[port])
      {
        var i := DesiredIsDecided(Wants(list), |list|, port);
        Fate(list, i);
      }
    }
    if forall port :: port in desired && Goal(REAL, desired, port).Some? ==> Goal(REAL, desired, port) == Some(desired[port]) {
      forall i | 0 <= i < |list| && Decides(Wants(list), i, |list|)
        ensures !BracketedString(list[i])
      {
        Fate(list, i);
      }
    }
  }

  /** After a sync the targets are those desired if and only if every deciding string is addable... */
  lemma EqualsDesiredIff(ts: Targets, ip: string, list: seq<string>)
    requires forall port :: At(ts, ip, port) == Goal(REAL, DesiredOf(list), port)
    ensures On(ts, ip) == DesiredOf(list) <==> AllAddable(list)
  {
    AddableIff(list);
    SameOn(REAL, ts, ip, DesiredOf(list));
  }

  lemma SameOn(c: Codec, ts: Targets, ip: string, desired: map<int, string>)
    requires forall port :: At(ts, ip, port) == Goal(c, desired, port)
    ensures On(ts, ip) == desired <==> forall port :: port in desired ==> Goal(c, desired, port) == Some(desired[port])
  {
    var m := On(ts, ip);
    assert forall port :: At(ts, ip, port) == if port in m then Some(m[port]) else None;
    if forall port :: port in desired ==> Goal(c, desired, port) == Some(desired[port]) {
      forall port
        ensures (port in m <==> port in desired) && (port in m ==> m[port] == desired[port])
      {
        assert At(ts, ip, port) == Goal(c, desired, port);
      }
      assert m.Keys == desired.Keys;
    }
  }

  /** ...and nothing is left to do if and only if none is bracketed. */
  lemma SettledIff(ts: Targets, ip: string, list: seq<string>)
    requires forall port :: At(ts, ip, port) == Goal(REAL, DesiredOf(list), port)
    ensures InSync(REAL, ts, ip, DesiredOf(list)) <==> NoneBracketed(list)
  {
    BracketedIff(list);
    SettledGoal(REAL, ts, ip, DesiredOf(list));
  }

  lemma SettledGoal(c: Codec, ts: Targets, ip: string, desired: map<int, string>)
    requires forall port :: At(ts, ip, port) == Goal(c, desired, port)
    ensures InSync(c, ts, ip, desired) <==>
            forall port :: port in desired && Goal(c, desired, port).Some? ==> Goal(c, desired, port) == Some(desired[port])
  {
    forall port | port in desired
      ensures Settled(c, ts, ip, desired, port) <==> Goal(c, desired, port).None? || Goal(c, desired, port) == Some(desired[port])
    {
      assert At(ts, ip, port) == Goal(c, desired, port);
    }
  }

  /** A list for which it is: every sync with it removes and adds the target again. */
  lemma BracketedListExample()
    ensures !NoneBracketed(["8:[a]:9"])
  {
    var list := ["8:[a]:9"];
    BracketedExample();
    assert list[0] == "8:[a]:9" && Wants(list)[0] == Wanted(list[0]);
    assert Decides(Wants(list), 0, 1) && BracketedString(list[0]);
  }

  // ---------------------------------------------------------------- messages

  /** An add or remove message. */
  method HandleUpdate(pm: ProxyManager, action: Action, ip: string, proto: Proto, list: seq<string>) returns (ok: bool)
    requires pm.Valid()
    modifies pm
    ensures pm.Valid() && SameElsewhere(pm.Get(proto), old(pm.Get(proto)), ip)
    ensures forall port :: At(pm.Get(proto), ip, port) == Updated(REAL, action, At(old(pm.Get(proto)), ip, port), list, |list|, port)
    ensures forall other :: other != proto ==> pm.Get(other) == old(pm.Get(other))
  {
    RealIsFaithful();
    assert Canonical(REAL, pm.Get(Tcp)) && Canonical(REAL, pm.Get(Udp));
    ok := UpdateTargets(pm, REAL, action, ip, proto, list);
    assert Canonical(REAL, pm.Get(Tcp)) && Canonical(REAL, pm.Get(Udp));
  }

  method SyncList(pm: ProxyManager, ip: string, proto: Proto, list: seq<string>)
    requires pm.Valid()
    modifies pm
    ensures pm.Valid() && SameElsewhere(pm.Get(proto), old(pm.Get(proto)), ip)
    ensures forall port :: At(pm.Get(proto), ip, port) == Goal(REAL, DesiredOf(list), port)
    ensures forall other :: other != proto ==> pm.Get(other) == old(pm.Get(other))
    ensures pm.changes >= old(pm.changes)
    ensures pm.changes == old(pm.changes) <==> InSync(REAL, old(pm.Get(proto)), ip, DesiredOf(list))
  {
    RealIsFaithful();
    assert Canonical(REAL, pm.Get(Tcp)) && Canonical(REAL, pm.Get(Udp));
    var desired := BuildDesired(Wanted, list);
    SyncProto(pm, REAL, proto, ip, desired);
    assert Canonical(REAL, pm.Get(Tcp)) && Canonical(REAL, pm.Get(Udp));
  }

  /** A sync message. The targets on the tunnel address are those desired if and only if every
      string that decides a port is addable; targets on other addresses are untouched; and targets
      are added or removed if and only if something was left to do. */
  method HandleSync(pm: ProxyManager, ip: string, tcp: seq<string>, udp: seq<string>)
    requires pm.Valid()
    modifies pm
    ensures pm.Valid()
    ensures SameElsewhere(pm.tcpTargets, old(pm.tcpTargets), ip) && SameElsewhere(pm.udpTargets, old(pm.udpTargets), ip)
    ensures On(pm.tcpTargets, ip) == DesiredOf(tcp) <==> AllAddable(tcp)
    ensures On(pm.udpTargets, ip) == DesiredOf(udp) <==> AllAddable(udp)
    ensures forall port :: At(pm.tcpTargets, ip, port) == Goal(REAL, DesiredOf(tcp), port)
    ensures forall port :: At(pm.udpTargets, ip, port) == Goal(REAL, DesiredOf(udp), port)
    ensures pm.changes == old(pm.changes) <==>
            InSync(REAL, old(pm.tcpTargets), ip, DesiredOf(tcp)) && InSync(REAL, old(pm.udpTargets), ip, DesiredOf(udp))
  {
    assert pm.Get(Tcp) == pm.tcpTargets && pm.Get(Udp) == pm.udpTargets;
    SyncList(pm, ip, Tcp, tcp);
    assert pm.Get(Tcp) == pm.tcpTargets && pm.Get(Udp) == pm.udpTargets;
    SyncList(pm, ip, Udp, udp);
    assert pm.Get(Tcp) == pm.tcpTargets && pm.Get(Udp) == pm.udpTargets;
    EqualsDesiredIff(pm.tcpTargets, ip, tcp);
    EqualsDesiredIff(pm.udpTargets, ip, udp);
  }

  /** A second identical sync makes no change if and only if no string that decides a port is
      bracketed. */
  method SyncTwice(pm: ProxyManager, ip: string, tcp: seq<string>, udp: seq<string>) returns (quiet: bool)
    requires pm.Valid()
    modifies pm
    ensures pm.Valid() && (quiet <==> NoneBracketed(tcp) && NoneBracketed(udp))
  {
    HandleSync(pm, ip, tcp, udp);
    var changes := pm.changes;
    SettledIff(pm.tcpTargets, ip, tcp);
    SettledIff(pm.udpTargets, ip, udp);
    HandleSync(pm, ip, tcp, udp);
    quiet := pm.changes == changes;
  }

  datatype Message =
    | Update(action: Action, ip: string, proto: Proto, list: seq<string>)
    | Sync(ip: string, tcp: seq<string>, udp: seq<string>)

  /** What a message makes of a port. */
  function Handled(m: Message, was: Option<string>, proto: Proto, ip: string, port: int): Option<string> {
    if m.ip != ip then was
    else
      match m
      case Update(action, _, p, list) => if p == proto then Updated(REAL, action, was, list, |list|, port) else was
      case Sync(_, tcp, udp) => Goal(REAL, DesiredOf(if proto.Tcp? then tcp else udp), port)
  }

  method Handle(pm: ProxyManager, m: Message)
    requires pm.Valid()
    modifies pm
    ensures pm.Valid()
    ensures forall proto, ip, port :: At(pm.Get(proto), ip, port) == Handled(m, At(old(pm.Get(proto)), ip, port), proto, ip, port)
  {
    match m
    case Update(action, ip, proto, list) => var _ := HandleUpdate(pm, action, ip, proto, list);
    case Sync(ip, tcp, udp) => HandleSync(pm, ip, tcp, udp);
  }

  /** What a port has after the first n messages. */
  function After(messages: seq<Message>, n: nat, proto: Proto, ip: string, port: int): Option<string>
    requires n <= |messages|
  {
    if n == 0 then None
    else Handled(messages[n - 1], After(messages, n - 1, proto, ip, port), proto, ip, port)
  }

  /** After any history of messages each port has what the history says, and every target can be
      removed by its string, so the next message of any kind is handled as stated above. */
  method HandleAll(messages: seq<Message>) returns (pm: ProxyManager)
    ensures fresh(pm) && pm.Valid()
    ensures forall proto, ip, port :: At(pm.Get(proto), ip, port) == After(messages, |messages|, proto, ip, port)
  {
    pm := new ProxyManager();
    for i := 0 to |messages|
      invariant fresh(pm) && pm.Valid()
      invariant forall proto, ip, port :: At(pm.Get(proto), ip, port) == After(messages, i, proto, ip, port)
    {
      Handle(pm, messages[i]);
    }
  }
}
