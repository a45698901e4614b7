/** In every run of the access log, what is delivered consolidates the raw sessions it accounts for. */
module DeliveryRuns {
  import opened Consolidation
  import opened AccessLog
  import opened LogRuns
  import opened LogDelivery
  import Consolidator
  import Interchange

  /** Entries that stand for their raw sessions and can be consolidated again. */
  ghost predicate Standing(ip: Strip, entries: seq<Session>, ids: seq<set<string>>, ended: Ended) {
    StandAll(ip, entries, ids, ended) && AllStable(ip, entries)
  }

  /** The payload consolidates the raw sessions with these ids. */
  ghost predicate Presents(ip: Strip, payload: seq<Session>, ids: set<string>, ended: Ended) {
    exists raws :: RawsOf(raws, ids, ended) && IsConsolidation(ip, payload, raws)
  }

  ghost predicate FlightStands(ip: Strip, f: Flight, ended: Ended) {
    Standing(ip, f.entries, f.ids, ended) && (f.ready ==> Presents(ip, f.entries, Union(f.ids), ended))
  }

  ghost predicate Truthful(ip: Strip, s: State) {
    && (forall id :: id in s.logs.sessions ==> Stable(ip, s.logs.sessions[id]))
    && (forall id :: id in s.ended ==> id in s.ledger.issued && id !in s.logs.sessions)
    && Standing(ip, s.logs.completed, s.logs.ids, s.ended)
    && (forall f :: f in s.flights ==> FlightStands(ip, s.flights[f], s.ended))
  }

  /** Flushes strip ports in one way, and that way is stable on the addresses of new sessions. */
  ghost predicate Proper(ip: Strip, a: Act) {
    && (a.Consolidate? ==> a.ip == ip)
    && (a.StartTcp? || a.TrackUdp? ==> Stable(ip, a.session))
  }

  // ---------------------------------------------------------------- time passes

  ghost predicate Extends(later: Ended, ended: Ended) {
    forall x :: x in ended ==> x in later && later[x] == ended[x]
  }

  lemma FlightStandsLonger(ip: Strip, f: Flight, ended: Ended, later: Ended)
    requires FlightStands(ip, f, ended) && Extends(later, ended)
    ensures FlightStands(ip, f, later)
  {
    StandLonger(ip, f.entries, f.ids, ended, later);
    if f.ready {
      var raws :| RawsOf(raws, Union(f.ids), ended) && IsConsolidation(ip, f.entries, raws);
      assert RawsOf(raws, Union(f.ids), later);
    }
  }

  lemma StandsForItself(ip: Strip, x: Session, ended: Ended)
    requires x.id in ended && ended[x.id] == x
    ensures Stands(ip, x, {x.id}, ended)
  {
    assert [x][0] == x && Occurs([x], x.id);
    assert RawsOf([x], {x.id}, ended) && Interchange.Interchangeable(ip, [x], [x]);
  }

  lemma StandAppended(ip: Strip, entries: seq<Session>, ids: seq<set<string>>, ended: Ended, x: Session, xs: set<string>)
    requires Standing(ip, entries, ids, ended) && Stands(ip, x, xs, ended) && Stable(ip, x)
    ensures Standing(ip, entries + [x], ids + [xs], ended)
  {
  }

  // ---------------------------------------------------------------- the steps

  lemma EndKeepsTruth(ip: Strip, s: State, id: string, now: int, udp: map<UdpKey, string>)
    requires Inv(s) && Truthful(ip, s) && id in s.logs.sessions
    ensures Truthful(ip, EndRecorded(s, id, now, Finished(s.logs, id, now).(udp := udp)))
  {
    var x := s.logs.sessions[id].(ended := now);
    var later := s.ended[id := x];
    assert Extends(later, s.ended);
    StandLonger(ip, s.logs.completed, s.logs.ids, s.ended, later);
    StandsForItself(ip, x, later);
    StandAppended(ip, s.logs.completed, s.logs.ids, later, x, {id});
    forall f | f in s.flights
      ensures FlightStands(ip, s.flights[f], later)
    {
      FlightStandsLonger(ip, s.flights[f], s.ended, later);
    }
    assert id in s.ledger.issued;
  }

  lemma ConsolidateKeepsTruth(ip: Strip, s: State, a: Act)
    requires Inv(s) && Truthful(ip, s) && a.Consolidate? && a.ip == ip && Enabled(s, a)
    ensures Truthful(ip, Step(s, a))
  {
    var b := s.flights[a.flight];
    assert FlightOk(s, a.flight) && FlightStands(ip, b, s.ended);
    FoldAccounts(ip, a.out, a.tags, b.entries, b.ids);
    OutputsStand(ip, a.out, a.tags, b.entries, b.ids, s.ended);
    Interchange.OutputsStable(ip, a.out, a.tags, b.entries);
    var raws := OutputsConsolidateRaws(ip, a.out, a.tags, b.entries, b.ids, s.ended);
    assert IsConsolidation(ip, a.out, raws);
  }

  lemma StandJoined(ip: Strip, es1: seq<Session>, ids1: seq<set<string>>, es2: seq<Session>, ids2: seq<set<string>>,
                    ended: Ended)
    requires Standing(ip, es1, ids1, ended) && Standing(ip, es2, ids2, ended)
    ensures Standing(ip, es1 + es2, ids1 + ids2, ended)
  {
    var es, ids := es1 + es2, ids1 + ids2;
    forall i | 0 <= i < |es|
      ensures Stands(ip, es[i], ids[i], ended) && Stable(ip, es[i])
    {
      var first := i < |es1|;
      assert first ==> es[i] == es1[i] && ids[i] == ids1[i];
      assert !first ==> es[i] == es2[i - |es1|] && ids[i] == ids2[i - |es1|];
    }
  }

  lemma CapStands(ip: Strip, entries: seq<Session>, ids: seq<set<string>>, ended: Ended)
    requires Standing(ip, entries, ids, ended)
    ensures Standing(ip, Cap(entries), Cap(ids), ended)
  {
  }

  lemma PutBackKeepsTruth(ip: Strip, s: State, f: nat)
    requires Truthful(ip, s) && Enabled(s, PutBack(f))
    ensures Truthful(ip, Step(s, PutBack(f)))
  {
    var b, l, t := s.flights[f], s.logs, Step(s, PutBack(f));
    assert Standing(ip, t.logs.completed, t.logs.ids, t.ended) by {
      assert FlightStands(ip, b, s.ended);
      StandJoined(ip, b.entries, b.ids, l.completed, l.ids, s.ended);
      CapStands(ip, b.entries + l.completed, b.ids + l.ids, s.ended);
    }
    assert t.ended == s.ended && t.logs.sessions == l.sessions && t.ledger.issued == s.ledger.issued;
    assert forall g :: g in t.flights ==> g in s.flights && t.flights[g] == s.flights[g];
  }

  lemma StepKeepsTruth(ip: Strip, s: State, a: Act)
    requires Inv(s) && Truthful(ip, s) && Enabled(s, a) && Proper(ip, a)
    ensures Truthful(ip, Step(s, a))
  {
    var l := s.logs;
    match a
    case EndTcp(id, now) =>
      if id in l.sessions {
        EndKeepsTruth(ip, s, id, now, l.udp);
      }
    case EndUdp(id, now) =>
      if id in l.sessions {
        EndKeepsTruth(ip, s, id, now, l.udp - {UdpKeyOf(l.sessions[id])});
      }
    case Reap(k, now) =>
      if k in StaleKeys(l.sessions, l.udp, now) {
        var id := l.udp[k];
        EndKeepsTruth(ip, s, id, now, l.udp - {UdpKeyOf(l.sessions[id])});
      }
    case Consolidate(_, _, _, _) => ConsolidateKeepsTruth(ip, s, a);
    case PutBack(f) => PutBackKeepsTruth(ip, s, f);
    case _ =>
  }

  lemma {:induction false} RunKeepsTruth(ip: Strip, acts: seq<Act>, n: nat)
    requires n <= |acts| && forall i :: 0 <= i < |acts| ==> Proper(ip, acts[i])
    ensures Truthful(ip, Run(acts, n))
  {
    if n > 0 {
      RunKeepsTruth(ip, acts, n - 1);
      RunKeepsInv(acts, n - 1);
      if Enabled(Run(acts, n - 1), acts[n - 1]) {
        StepKeepsTruth(ip, Run(acts, n - 1), acts[n - 1]);
      }
    }
  }

  /** In every run, with any number of failed sends, concurrent flushes and entries cut off, what a
      flush delivers is a consolidation of the raw sessions it accounts for, as they ended. */
  lemma DeliveredIsRaw(ip: Strip, acts: seq<Act>, n: nat) returns (raws: seq<Session>)
    requires n < |acts| && forall i :: 0 <= i < |acts| ==> Proper(ip, acts[i])
    requires acts[n].Deliver? && Enabled(Run(acts, n), acts[n])
    ensures var s := Run(acts, n);
            var f := s.flights[acts[n].flight];
            && RawsOf(raws, Union(f.ids), s.ended) && IsConsolidation(ip, f.entries, raws)
            && Run(acts, n + 1).ledger.sent == s.ledger.sent + Union(f.ids)
  {
    RunKeepsTruth(ip, acts, n);
    var s := Run(acts, n);
    var f := s.flights[acts[n].flight];
    assert FlightStands(ip, f, s.ended);
    raws :| RawsOf(raws, Union(f.ids), s.ended) && IsConsolidation(ip, f.entries, raws);
  }

  // ---------------------------------------------------------------- back to where sessions were started

  /** The act starts this session; only its end is added later. */
  ghost predicate IsStart(a: Act, x: Session) {
    (a.StartTcp? || a.TrackUdp?) && x == a.session.(ended := x.ended)
  }

  ghost predicate StartedBefore(acts: seq<Act>, n: nat, x: Session)
    requires n <= |acts|
  {
    exists j :: 0 <= j < n && IsStart(acts[j], x)
  }

  /** Live and ended sessions go by their own ids and are as they were started. */
  ghost predicate Recorded(acts: seq<Act>, n: nat, s: State)
    requires n <= |acts|
  {
    && (forall id :: id in s.logs.sessions ==> s.logs.sessions[id].id == id && StartedBefore(acts, n, s.logs.sessions[id]))
    && (forall id :: id in s.ended ==> s.ended[id].id == id && WellTimed(s.ended[id]) && StartedBefore(acts, n, s.ended[id]))
  }

  lemma StartedLater(acts: seq<Act>, n: nat, x: Session, y: Session)
    requires n < |acts| && StartedBefore(acts, n, x) && y == x.(ended := y.ended)
    ensures StartedBefore(acts, n + 1, y)
  {
    var j :| 0 <= j < n && IsStart(acts[j], x);
    assert IsStart(acts[j], y);
  }

  /** What a step can do to the sessions of state s: start one, and end some. */
  ghost predicate Follows(s: State, a: Act, t: State) {
    && (forall id :: id in t.logs.sessions ==>
          || (id in s.logs.sessions && t.logs.sessions[id] == s.logs.sessions[id])
          || (t.logs.sessions[id].id == id && IsStart(a, t.logs.sessions[id])))
    && (forall id :: id in t.ended ==>
          || (id in s.ended && t.ended[id] == s.ended[id])
          || (id in s.logs.sessions && WellTimed(t.ended[id]) && t.ended[id] == s.logs.sessions[id].(ended := t.ended[id].ended)))
  }

  lemma NextFollows(s: State, a: Act)
    requires Inv(s)
    ensures Follows(s, a, Next(s, a))
  {
  }

  lemma RecordedOn(acts: seq<Act>, n: nat, s: State, t: State)
    requires n < |acts| && Recorded(acts, n, s) && Follows(s, acts[n], t)
    ensures Recorded(acts, n + 1, t)
  {
    forall id | id in t.logs.sessions
      ensures t.logs.sessions[id].id == id && StartedBefore(acts, n + 1, t.logs.sessions[id])
    {
      if id in s.logs.sessions && t.logs.sessions[id] == s.logs.sessions[id] {
        StartedLater(acts, n, s.logs.sessions[id], s.logs.sessions[id]);
      }
    }
    forall id | id in t.ended
      ensures t.ended[id].id == id && WellTimed(t.ended[id]) && StartedBefore(acts, n + 1, t.ended[id])
    {
      if id in s.ended && t.ended[id] == s.ended[id] {
        StartedLater(acts, n, s.ended[id], s.ended[id]);
      } else {
        StartedLater(acts, n, s.logs.sessions[id], t.ended[id]);
      }
    }
  }

  lemma NextRecorded(acts: seq<Act>, n: nat)
    requires n < |acts| && Recorded(acts, n, Run(acts, n))
    ensures Recorded(acts, n + 1, Run(acts, n + 1))
  {
    RunKeepsInv(acts, n);
    NextFollows(Run(acts, n), acts[n]);
    RecordedOn(acts, n, Run(acts, n), Run(acts, n + 1));
  }

  lemma {:induction false} RunRecorded(acts: seq<Act>, n: nat)
    requires n <= |acts|
    ensures Recorded(acts, n, Run(acts, n))
  {
    if n > 0 {
      RunRecorded(acts, n - 1);
      NextRecorded(acts, n - 1);
    }
  }

  /** An entry agrees with the sessions it stands for in source IP, destination, protocol and
      resource, and starts no later than any of them. */
  lemma StandsForKey(ip: Strip, e: Session, raws: seq<Session>, x: Session)
    requires Interchange.Interchangeable(ip, [e], raws) && WellTimed(e) && AllWellTimed(raws) && x in raws
    ensures KeyOf(ip, x) == KeyOf(ip, e) && e.started <= x.started
  {
    var tags := Consolidator.SmallBatch(ip, [e]);
    assert [e] + [] == [e] && raws + [] == raws;
    assert Consolidated(ip, [e], tags, raws + []);
    assert IsMember(ip, raws, KeyOf(ip, x), x);
    var r := HasHead(ip, raws, KeyOf(ip, x), x);
    assert Tag(KeyOf(ip, x), r) in tags;
    assert Head(ip, [e], tags[0].key, tags[0].start);
  }

  /** In every run, whatever session a delivered entry accounts for was started before, with the
      entry's resource, destination and protocol, from the entry's source IP, and no earlier. */
  lemma DeliveredAsStarted(ip: Strip, acts: seq<Act>, n: nat, i: nat, x: string) returns (j: nat)
    requires n < |acts| && forall k :: 0 <= k < |acts| ==> Proper(ip, acts[k])
    requires acts[n].Deliver? && Enabled(Run(acts, n), acts[n])
    requires var f := Run(acts, n).flights[acts[n].flight]; i < |f.entries| == |f.ids| && x in f.ids[i]
    ensures j < n && (acts[j].StartTcp? || acts[j].TrackUdp?)
    ensures var e, y := Run(acts, n).flights[acts[n].flight].entries[i], acts[j].session;
            && y.id == x && y.resourceId == e.resourceId && y.destAddr == e.destAddr && y.protocol == e.protocol
            && ip(y.sourceAddr) == ip(e.sourceAddr) && e.started <= y.started
  {
    RunKeepsTruth(ip, acts, n);
    RunKeepsInv(acts, n);
    RunRecorded(acts, n);
    var s := Run(acts, n);
    var f := s.flights[acts[n].flight];
    assert FlightOk(s, acts[n].flight) && FlightStands(ip, f, s.ended);
    assert Stands(ip, f.entries[i], f.ids[i], s.ended);
    var raws: seq<Session> :| RawsOf(raws, f.ids[i], s.ended) && Interchange.Interchangeable(ip, [f.entries[i]], raws);
    assert Occurs(raws, x);
    var r :| 0 <= r < |raws| && raws[r].id == x;
    StandsForKey(ip, f.entries[i], raws, raws[r]);
    assert StartedBefore(acts, n, raws[r]);
    j :| 0 <= j < n && IsStart(acts[j], raws[r]);
  }

  // ---------------------------------------------------------------- ids of entries

  /** Every entry goes by the id of a session it accounts for. */
  ghost predicate NamedEntries(entries: seq<Session>, ids: seq<set<string>>) {
    |entries| == |ids| && forall i :: 0 <= i < |entries| ==> entries[i].id in ids[i]
  }

  ghost predicate Named(s: State) {
    && NamedEntries(s.logs.completed, s.logs.ids)
    && (forall f :: f in s.flights ==> NamedEntries(s.flights[f].entries, s.flights[f].ids))
  }

  lemma OutputsNamed(ip: Strip, out: seq<Session>, tags: seq<Tag>, all: seq<Session>, ids: seq<set<string>>)
    requires NamedEntries(all, ids) && Consolidated(ip, out, tags, all) && NamesRuns(ip, out, tags, all)
    ensures NamedEntries(out, FoldedAll(ip, all, ids, tags))
  {
    forall j | 0 <= j < |out|
      ensures out[j].id in Folded(ip, all, ids, tags[j])
    {
      assert NamesRun(ip, all, tags[j].key, out[j]);
      var x :| IsMember(ip, all, tags[j].key, x) && x.started == out[j].started && x.id == out[j].id;
      var i :| 0 <= i < |all| && all[i] == x;
      assert InRun(ip, all, tags[j], all[i]);
    }
  }

  lemma NamedPutBack(b: Flight, l: Logs)
    requires NamedEntries(b.entries, b.ids) && NamedEntries(l.completed, l.ids)
    ensures NamedEntries(Cap(b.entries + l.completed), Cap(b.ids + l.ids))
  {
  }

  lemma NextNamed(s: State, a: Act)
    requires Inv(s) && Named(s)
    ensures Named(Next(s, a))
  {
    if Enabled(s, a) {
      if a.Consolidate? {
        OutputsNamed(a.ip, a.out, a.tags, s.flights[a.flight].entries, s.flights[a.flight].ids);
      } else if a.PutBack? {
        NamedPutBack(s.flights[a.flight], s.logs);
      }
    }
  }

  /** In every run an entry, delivered or not, has the id of one of the sessions it accounts for. */
  lemma {:induction false} RunNamed(acts: seq<Act>, n: nat)
    requires n <= |acts|
    ensures Named(Run(acts, n))
  {
    if n > 0 {
      RunNamed(acts, n - 1);
      RunKeepsInv(acts, n - 1);
      NextNamed(Run(acts, n - 1), acts[n - 1]);
    }
  }
}
