/** The access log under every interleaving of its critical sections, with any number of flushes
    under way at the same time. A flush is several steps: it takes the buffer, consolidates what
    it took, and later delivers it, gives it up or puts it back. */
module LogRuns {
  import opened Consolidation
  import opened AccessLog

  /** A batch that has left the buffer, with the sessions its entries report; ready to be sent once
      it has been consolidated. */
  datatype Flight = Flight(entries: seq<Session>, ids: seq<set<string>>, ready: bool)

  /** `ended` remembers every session as it was when it ended, `order` the order in which they did. */
  datatype State = State(logs: Logs, ledger: Ledger, flights: map<nat, Flight>, ended: map<string, Session>, order: seq<string>)

  const INIT := State(Logs(map[], map[], [], []), Ledger({}, {}, {}, {}), map[], map[], [])

  datatype Act =
    | StartTcp(session: Session)
    | TrackUdp(session: Session)
    | EndTcp(id: string, now: int)
    | EndUdp(id: string, now: int)
    | Reap(key: UdpKey, now: int)
    | ClearIndex
    | Take(flight: nat)
    | Consolidate(flight: nat, ip: Strip, out: seq<Session>, tags: seq<Tag>)
    | Deliver(flight: nat)
    | Discard(flight: nat)
    | PutBack(flight: nat)

  predicate IsNew(s: State, x: Session, protocol: string) {
    x.id !in s.ledger.issued && x.started > ZERO_TIME && x.ended == ZERO_TIME && x.protocol == protocol
  }

  ghost predicate Enabled(s: State, a: Act) {
    match a
    case StartTcp(x) => IsNew(s, x, "tcp")
    case TrackUdp(x) => IsNew(s, x, "udp")
    case EndTcp(id, now) => id in s.logs.sessions ==> now >= s.logs.sessions[id].started
    case EndUdp(id, now) => id in s.logs.sessions ==> now >= s.logs.sessions[id].started
    case Reap(_, now) => forall id :: id in s.logs.sessions ==> now >= s.logs.sessions[id].started
    case ClearIndex => s.logs.sessions == map[]
    case Take(f) => f !in s.flights
    case Consolidate(f, ip, out, tags) =>
      && f in s.flights && |s.flights[f].ids| == |s.flights[f].entries| && !s.flights[f].ready
      && Consolidated(ip, out, tags, s.flights[f].entries) && NamesRuns(ip, out, tags, s.flights[f].entries)
    case Deliver(f) => f in s.flights && s.flights[f].ready
    case Discard(f) => f in s.flights
    case PutBack(f) => f in s.flights && s.flights[f].ready
  }

  function Started(s: State, x: Session, l: Logs): State {
    s.(logs := l, ledger := s.ledger.(issued := s.ledger.issued + {x.id}))
  }

  /** The session has ended and the logs are now these. */
  function EndRecorded(s: State, id: string, now: int, l: Logs): State {
    if id in s.logs.sessions
    then s.(logs := l, ended := s.ended[id := s.logs.sessions[id].(ended := now)], order := s.order + [id])
    else s
  }

  ghost function Step(s: State, a: Act): State
    requires Enabled(s, a)
  {
    var l, g := s.logs, s.ledger;
    match a
    case StartTcp(x) => Started(s, x, l.(sessions := l.sessions[x.id := x]))
    case TrackUdp(x) =>
      if UdpKeyOf(x) in l.udp then s
      else Started(s, x, l.(sessions := l.sessions[x.id := x], udp := l.udp[UdpKeyOf(x) := x.id]))
    case EndTcp(id, now) => EndRecorded(s, id, now, Finished(l, id, now))
    case EndUdp(id, now) => EndRecorded(s, id, now, UdpFinished(l, id, now))
    case Reap(k, now) => if k in StaleKeys(l.sessions, l.udp, now) then EndRecorded(s, l.udp[k], now, Reaped(l, k, now)) else s
    case ClearIndex => s.(logs := l.(udp := map[]))
    case Take(f) =>
      State(l.(completed := [], ids := []), g.(flying := g.flying + Union(l.ids)),
            s.flights[f := Flight(l.completed, l.ids, false)], s.ended, s.order)
    case Consolidate(f, ip, out, tags) =>
      s.(flights := s.flights[f := Flight(out, FoldedAll(ip, s.flights[f].entries, s.flights[f].ids, tags), true)])
    case Deliver(f) =>
      var done := Union(s.flights[f].ids);
      State(l, g.(flying := g.flying - done, sent := g.sent + done), s.flights - {f}, s.ended, s.order)
    case Discard(f) =>
      var done := Union(s.flights[f].ids);
      State(l, g.(flying := g.flying - done, lost := g.lost + done), s.flights - {f}, s.ended, s.order)
    case PutBack(f) =>
      var b := s.flights[f];
      State(Requeue(l, b.entries, b.ids),
            g.(flying := g.flying - Union(b.ids), lost := g.lost + Union(Overflow(b.ids + l.ids))),
            s.flights - {f}, s.ended, s.order)
  }

  // ---------------------------------------------------------------- the invariant

  ghost predicate FlightOk(s: State, f: nat)
    requires f in s.flights
  {
    Batch(s.flights[f].entries, s.flights[f].ids) && Union(s.flights[f].ids) <= s.ledger.flying
  }

  /** Sessions being sent are in one flight each. */
  ghost predicate FlightsOk(s: State) {
    && (forall f :: f in s.flights ==> FlightOk(s, f))
    && (forall f, h :: f in s.flights && h in s.flights && f != h ==> Union(s.flights[f].ids) !! Union(s.flights[h].ids))
    && (forall x :: x in s.ledger.flying ==> exists f :: f in s.flights && x in Union(s.flights[f].ids))
  }

  ghost predicate Inv(s: State) {
    Legal(s.logs, s.ledger) && FlightsOk(s)
  }

  lemma TakeKeepsInv(s: State, f: nat)
    requires Inv(s) && f !in s.flights
    ensures Inv(Step(s, Take(f)))
  {
    TakeLegal(s.logs, s.ledger);
    var t := Step(s, Take(f));
    forall x | x in t.ledger.flying
      ensures exists h :: h in t.flights && x in Union(t.flights[h].ids)
    {
      if x in s.ledger.flying {
        var h :| h in s.flights && x in Union(s.flights[h].ids);
        assert h in t.flights && t.flights[h] == s.flights[h];
      } else {
        assert x in Union(t.flights[f].ids);
      }
    }
  }

  lemma ConsolidateKeepsInv(s: State, a: Act)
    requires Inv(s) && a.Consolidate? && Enabled(s, a)
    ensures Inv(Step(s, a))
  {
    var f, b := a.flight, s.flights[a.flight];
    assert FlightOk(s, f);
    FoldAccounts(a.ip, a.out, a.tags, b.entries, b.ids);
    OutputsWellTimed(a.ip, a.out, a.tags, b.entries);
    var t := Step(s, a);
    assert Union(t.flights[f].ids) == Union(b.ids);
    SameFlying(s, t, f);
  }

  /** Replacing a flight by one that reports the same sessions keeps the flights in order. */
  lemma SameFlying(s: State, t: State, f: nat)
    requires FlightsOk(s) && f in s.flights && t.ledger.flying == s.ledger.flying
    requires t.flights.Keys == s.flights.Keys && forall h :: h in s.flights && h != f ==> t.flights[h] == s.flights[h]
    requires Batch(t.flights[f].entries, t.flights[f].ids) && Union(t.flights[f].ids) == Union(s.flights[f].ids)
    ensures FlightsOk(t)
  {
    forall h | h in t.flights
      ensures FlightOk(t, h)
    {
      assert FlightOk(s, h);
    }
    forall x | x in t.ledger.flying
      ensures exists h :: h in t.flights && x in Union(t.flights[h].ids)
    {
      var h :| h in s.flights && x in Union(s.flights[h].ids);
      assert h in t.flights;
    }
  }

  /** A flight that ends leaves the others as they were. */
  lemma FlightEnds(s: State, t: State, f: nat)
    requires FlightsOk(s) && f in s.flights
    requires t.flights == s.flights - {f} && t.ledger.flying == s.ledger.flying - Union(s.flights[f].ids)
    ensures FlightsOk(t)
  {
    forall h | h in t.flights
      ensures FlightOk(t, h)
    {
      assert FlightOk(s, h);
    }
    forall x | x in t.ledger.flying
      ensures exists h :: h in t.flights && x in Union(t.flights[h].ids)
    {
      var h :| h in s.flights && x in Union(s.flights[h].ids);
      assert h in t.flights;
    }
  }

  lemma FlightKeepsInv(s: State, a: Act)
    requires Inv(s) && Enabled(s, a) && (a.Deliver? || a.Discard? || a.PutBack?)
    ensures Inv(Step(s, a))
  {
    var b := s.flights[a.flight];
    assert FlightOk(s, a.flight);
    if a.PutBack? {
      RequeueLegal(s.logs, s.ledger, b.entries, b.ids);
    } else {
      SettleLegal(s.logs, s.ledger, Union(b.ids));
    }
    FlightEnds(s, Step(s, a), a.flight);
  }

  lemma SessionKeepsInv(s: State, a: Act)
    requires Inv(s) && Enabled(s, a)
    requires a.StartTcp? || a.TrackUdp? || a.EndTcp? || a.EndUdp? || a.Reap? || a.ClearIndex?
    ensures Legal(Step(s, a).logs, Step(s, a).ledger)
  {
    var l, g := s.logs, s.ledger;
    match a
    case StartTcp(x) => StartLegal(l, g, x);
    case TrackUdp(x) =>
      if UdpKeyOf(x) !in l.udp {
        TrackLegal(l, g, x);
      }
    case EndTcp(id, now) => FinishedLegal(l, g, id, now);
    case EndUdp(id, now) =>
      if id in l.sessions {
        UnindexedLegal(l, g, UdpKeyOf(l.sessions[id]));
        FinishedLegal(Unindexed(l, UdpKeyOf(l.sessions[id])), g, id, now);
      }
    case Reap(k, now) => ReapedLegal(l, g, k, now);
    case ClearIndex =>
  }

  lemma StepKeepsInv(s: State, a: Act)
    requires Inv(s) && Enabled(s, a)
    ensures Inv(Step(s, a))
  {
    if a.Take? {
      TakeKeepsInv(s, a.flight);
    } else if a.Consolidate? {
      ConsolidateKeepsInv(s, a);
    } else if a.Deliver? || a.Discard? || a.PutBack? {
      FlightKeepsInv(s, a);
    } else {
      SessionKeepsInv(s, a);
      SameFlights(s, Step(s, a));
    }
  }

  lemma SameFlights(s: State, t: State)
    requires FlightsOk(s) && t.flights == s.flights && t.ledger.flying == s.ledger.flying
    ensures FlightsOk(t)
  {
    forall h | h in t.flights
      ensures FlightOk(t, h)
    {
      assert FlightOk(s, h);
    }
  }

  // ---------------------------------------------------------------- runs

  /** Steps that are not possible do nothing, so every sequence of steps is a run. */
  ghost function Next(s: State, a: Act): State {
    if Enabled(s, a) then Step(s, a) else s
  }

  ghost function Run(acts: seq<Act>, n: nat): State
    requires n <= |acts|
  {
    if n == 0 then INIT else Next(Run(acts, n - 1), acts[n - 1])
  }

  lemma {:induction false} RunKeepsInv(acts: seq<Act>, n: nat)
    requires n <= |acts|
    ensures Inv(Run(acts, n))
  {
    if n > 0 {
      RunKeepsInv(acts, n - 1);
      if Enabled(Run(acts, n - 1), acts[n - 1]) {
        StepKeepsInv(Run(acts, n - 1), acts[n - 1]);
      }
    }
  }

  function One(b: bool): nat {
    if b then 1 else 0
  }

  /** In every run each session is in exactly one place: live, in one entry of the buffer, in one
      entry of one flight, sent, or lost. */
  lemma InOnePlace(acts: seq<Act>, n: nat, x: string)
    requires n <= |acts| && x in Run(acts, n).ledger.issued
    ensures var s := Run(acts, n);
            && One(x in s.logs.sessions) + One(x in Union(s.logs.ids)) + One(x in s.ledger.flying)
               + One(x in s.ledger.sent) + One(x in s.ledger.lost) == 1
            && (forall i, j :: 0 <= i < |s.logs.ids| && 0 <= j < |s.logs.ids| && x in s.logs.ids[i] && x in s.logs.ids[j] ==> i == j)
            && (x in s.ledger.flying <==> exists f :: f in s.flights && x in Union(s.flights[f].ids))
            && (forall f, h :: (f in s.flights && h in s.flights
                                && x in Union(s.flights[f].ids) && x in Union(s.flights[h].ids)) ==> f == h)
  {
    RunKeepsInv(acts, n);
    var s := Run(acts, n);
    forall f | f in s.flights && x in Union(s.flights[f].ids)
      ensures x in s.ledger.flying
    {
      assert FlightOk(s, f);
    }
  }

  lemma Forever(s: State, a: Act)
    ensures s.ledger.sent <= Next(s, a).ledger.sent && s.ledger.lost <= Next(s, a).ledger.lost
    ensures s.ledger.issued <= Next(s, a).ledger.issued
  {
  }

  /** What has been sent or lost stays so. */
  lemma {:induction false} SettledForever(acts: seq<Act>, m: nat, n: nat)
    requires m <= n <= |acts|
    ensures Run(acts, m).ledger.sent <= Run(acts, n).ledger.sent && Run(acts, m).ledger.lost <= Run(acts, n).ledger.lost
  {
    if m < n {
      SettledForever(acts, m, n - 1);
      Forever(Run(acts, n - 1), acts[n - 1]);
    }
  }

  /** No session is delivered twice. */
  lemma DeliveredOnce(acts: seq<Act>, i: nat, j: nat)
    requires i < j < |acts| && acts[i].Deliver? && acts[j].Deliver?
    requires Enabled(Run(acts, i), acts[i]) && Enabled(Run(acts, j), acts[j])
    ensures Union(Run(acts, i).flights[acts[i].flight].ids) !! Union(Run(acts, j).flights[acts[j].flight].ids)
  {
    var sent := Union(Run(acts, i).flights[acts[i].flight].ids);
    assert sent <= Run(acts, i + 1).ledger.sent;
    SettledForever(acts, i + 1, j);
    RunKeepsInv(acts, j);
    assert FlightOk(Run(acts, j), acts[j].flight);
  }

  /** Sessions are lost only by being discarded, or when a batch put back exceeds the limit. */
  lemma LostOnlyIf(s: State, a: Act)
    requires !a.Discard?
    requires a.PutBack? && a.flight in s.flights ==> |s.flights[a.flight].ids + s.logs.ids| <= MAX_REQUEUED
    ensures Next(s, a).ledger.lost == s.ledger.lost
  {
    assert Union([]) == {};
  }

  /** Sessions are ended with the operation of their own protocol. */
  ghost predicate EndsOwnKind(s: State, a: Act) {
    && (a.EndTcp? && a.id in s.logs.sessions ==> s.logs.sessions[a.id].protocol != "udp")
    && (a.EndUdp? && a.id in s.logs.sessions ==> s.logs.sessions[a.id].protocol == "udp")
  }

  ghost predicate OwnKind(acts: seq<Act>, n: nat)
    requires n <= |acts|
  {
    n == 0 || (OwnKind(acts, n - 1) && EndsOwnKind(Run(acts, n - 1), acts[n - 1]))
  }

  lemma StepKeepsIndex(s: State, a: Act)
    requires Inv(s) && Exact(s.logs) && Enabled(s, a) && EndsOwnKind(s, a)
    ensures Exact(Step(s, a).logs)
  {
    var l, g := s.logs, s.ledger;
    match a
    case StartTcp(x) => StartLegal(l, g, x);
    case TrackUdp(x) =>
      if UdpKeyOf(x) !in l.udp {
        TrackLegal(l, g, x);
      }
    case EndTcp(id, now) => TcpEndKeepsIndex(l, g, id, now);
    case EndUdp(id, now) => UdpEndKeepsIndex(l, g, id, now);
    case Reap(k, now) => ReapedLegal(l, g, k, now);
    case _ =>
  }

  /** Then, in every run, the UDP index is exactly the live UDP sessions by pair of addresses. */
  lemma {:induction false} IndexStaysExact(acts: seq<Act>, n: nat)
    requires n <= |acts| && OwnKind(acts, n)
    ensures Exact(Run(acts, n).logs)
  {
    if n > 0 {
      IndexStaysExact(acts, n - 1);
      RunKeepsInv(acts, n - 1);
      if Enabled(Run(acts, n - 1), acts[n - 1]) {
        StepKeepsIndex(Run(acts, n - 1), acts[n - 1]);
      }
    }
  }

  /** The index breaks in both ways: ending a UDP session with the TCP operation leaves its entry
      behind, and ending a TCP session with the UDP operation removes the entry of the UDP session
      with the same addresses. */
  lemma IndexBreaks(u: Session, t: Session, now: int)
    requires u.id != t.id && UdpKeyOf(u) == UdpKeyOf(t) && u.protocol == "udp" && t.protocol == "tcp"
    requires ZERO_TIME < u.started <= now && ZERO_TIME < t.started <= now && u.ended == t.ended == ZERO_TIME
    ensures !Exact(Run([TrackUdp(u), EndTcp(u.id, now)], 2).logs)
    ensures !Exact(Run([TrackUdp(u), StartTcp(t), EndUdp(t.id, now)], 3).logs)
  {
    var k := UdpKeyOf(u);
    var one := [TrackUdp(u), EndTcp(u.id, now)];
    assert Run(one, 1).logs == Logs(map[u.id := u], map[k := u.id], [], []);
    assert Run(one, 2).logs.sessions == map[] && Run(one, 2).logs.udp == map[k := u.id];
    assert k in Run(one, 2).logs.udp;
    var two := [TrackUdp(u), StartTcp(t), EndUdp(t.id, now)];
    assert Run(two, 1) == Run(one, 1) && Run(one, 1).ledger.issued == {u.id};
    assert Run(two, 2).logs == Logs(map[u.id := u, t.id := t], map[k := u.id], [], []);
    assert Run(two, 3).logs.sessions == map[u.id := u] && Run(two, 3).logs.udp == map[];
    assert u.id in Run(two, 3).logs.sessions;
  }
}
