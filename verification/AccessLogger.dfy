/** The life of access sessions: started, ended, buffered, flushed, and put back when sending
    fails. Each method is one region under the logger's lock. Every session ever started is in
    exactly one place, also while a flush is under way. */
module AccessLog {
  import opened Consolidation
  import Consolidator

  const MAX_BUFFERED := 100
  const MAX_REQUEUED := 500
  const STALE_AFTER := 300_000_000_000   // nanoseconds

  datatype UdpKey = UdpKey(srcAddr: string, dstAddr: string)

  function UdpKeyOf(s: Session): UdpKey {
    UdpKey(s.sourceAddr, s.destAddr)
  }

  function NewSession(id: string, resourceId: int, src: string, dst: string, protocol: string, now: int): Session {
    Session(id, resourceId, src, dst, protocol, now, ZERO_TIME, 0, 0, 0)
  }

  /** The session has just been started with these particulars. */
  predicate IsStarted(s: Session, id: string, resourceId: int, src: string, dst: string, protocol: string, now: int) {
    && s.id == id && s.resourceId == resourceId && s.sourceAddr == src && s.destAddr == dst && s.protocol == protocol
    && s.started == now && s.ended == ZERO_TIME && s.tx == 0 && s.rx == 0 && s.count == 0
  }

  // ---------------------------------------------------------------- accounting

  predicate Disjoint(ids: seq<set<string>>) {
    forall i, j :: 0 <= i < j < |ids| ==> ids[i] !! ids[j]
  }

  function Union(ids: seq<set<string>>): set<string> {
    set i, x | 0 <= i < |ids| && x in ids[i] :: x
  }

  /** Every issued session is live, buffered, being sent, sent or lost, and in one place only.
      Entry i of the buffer reports the sessions ids[i]. */
  predicate Accounted(live: set<string>, ids: seq<set<string>>, flying: set<string>,
                      sent: set<string>, lost: set<string>, issued: set<string>) {
    && Disjoint(ids)
    && live !! Union(ids) !! flying !! sent !! lost
    && issued == live + Union(ids) + flying + sent + lost
  }

  lemma UnionConcat(a: seq<set<string>>, b: seq<set<string>>)
    ensures Union(a + b) == Union(a) + Union(b)
  {
    forall x | x in Union(a) + Union(b)
      ensures x in Union(a + b)
    {
      if x in Union(a) {
        var i :| 0 <= i < |a| && x in a[i];
        assert x in (a + b)[i];
      } else {
        var i :| 0 <= i < |b| && x in b[i];
        assert x in (a + b)[|a| + i];
      }
    }
  }

  lemma DisjointConcat(a: seq<set<string>>, b: seq<set<string>>)
    requires Disjoint(a) && Disjoint(b) && Union(a) !! Union(b)
    ensures Disjoint(a + b)
  {
    forall i, j | 0 <= i < j < |a + b|
      ensures (a + b)[i] !! (a + b)[j]
    {
      if i < |a| <= j {
        assert (a + b)[i] <= Union(a) && (a + b)[j] <= Union(b);
      }
    }
  }

  lemma DisjointSplit(a: seq<set<string>>, b: seq<set<string>>)
    requires Disjoint(a + b)
    ensures Disjoint(a) && Disjoint(b) && Union(a) !! Union(b)
  {
    assert forall i :: 0 <= i < |a| ==> (a + b)[i] == a[i];
    assert forall j :: 0 <= j < |b| ==> (a + b)[|a| + j] == b[j];
  }

  lemma OneUnion(s: set<string>)
    ensures Union([s]) == s && Disjoint([s])
  {
    assert [s][0] == s;
  }

  lemma Ended(live: set<string>, ids: seq<set<string>>, flying: set<string>, sent: set<string>, lost: set<string>,
              issued: set<string>, x: string)
    requires Accounted(live, ids, flying, sent, lost, issued) && x in live
    ensures Accounted(live - {x}, ids + [{x}], flying, sent, lost, issued)
  {
    OneUnion({x});
    UnionConcat(ids, [{x}]);
    DisjointConcat(ids, [{x}]);
  }

  lemma Requeued(live: set<string>, ids: seq<set<string>>, flying: set<string>, sent: set<string>, lost: set<string>,
                 issued: set<string>, back: seq<set<string>>)
    requires Accounted(live, ids, flying, sent, lost, issued) && Disjoint(back) && Union(back) <= flying
    ensures Accounted(live, back + ids, flying - Union(back), sent, lost, issued)
  {
    UnionConcat(back, ids);
    DisjointConcat(back, ids);
  }

  lemma Capped(live: set<string>, ids: seq<set<string>>, flying: set<string>, sent: set<string>, lost: set<string>,
               issued: set<string>, n: nat)
    requires Accounted(live, ids, flying, sent, lost, issued) && n <= |ids|
    ensures Accounted(live, ids[..n], flying, sent, lost + Union(ids[n..]), issued)
  {
    assert ids == ids[..n] + ids[n..];
    UnionConcat(ids[..n], ids[n..]);
    DisjointSplit(ids[..n], ids[n..]);
  }

  // ---------------------------------------------------------------- accounting across consolidation

  /** The sessions reported by the output for a run: all that its members report. */
  ghost function Folded(ip: Strip, all: seq<Session>, ids: seq<set<string>>, tag: Tag): set<string>
    requires |ids| == |all|
  {
    set i, x | 0 <= i < |all| && InRun(ip, all, tag, all[i]) && x in ids[i] :: x
  }

  ghost function FoldedAll(ip: Strip, all: seq<Session>, ids: seq<set<string>>, tags: seq<Tag>): (r: seq<set<string>>)
    requires |ids| == |all|
    ensures |r| == |tags|
  {
    seq(|tags|, j requires 0 <= j < |tags| => Folded(ip, all, ids, tags[j]))
  }

  /** Consolidation keeps every session, and keeps it in one place. */
  lemma FoldAccounts(ip: Strip, out: seq<Session>, tags: seq<Tag>, all: seq<Session>, ids: seq<set<string>>)
    requires Consolidated(ip, out, tags, all) && AllWellTimed(all) && |ids| == |all| && Disjoint(ids)
    ensures Disjoint(FoldedAll(ip, all, ids, tags))
    ensures Union(FoldedAll(ip, all, ids, tags)) == Union(ids)
  {
    var folded := FoldedAll(ip, all, ids, tags);
    forall i, j | 0 <= i < j < |folded|
      ensures folded[i] !! folded[j]
    {
      FoldsApart(ip, out, tags, all, ids, i, j);
    }
    forall x | x in Union(ids)
      ensures x in Union(folded)
    {
      var i :| 0 <= i < |ids| && x in ids[i];
      var j := RunIndex(ip, out, tags, all, i);
      assert x in folded[j];
    }
  }

  lemma InOneRun(ip: Strip, out: seq<Session>, tags: seq<Tag>, all: seq<Session>, i: nat, j: nat, a: nat)
    requires Consolidated(ip, out, tags, all) && i < j < |tags| && a < |all|
    ensures !(InRun(ip, all, tags[i], all[a]) && InRun(ip, all, tags[j], all[a]))
  {
    assert tags[i] != tags[j];
    if tags[i].key == tags[j].key {
      RunsDisjoint(ip, all, tags[i].key, tags[i].start, tags[j].start, all[a].started);
    }
  }

  lemma FoldsApart(ip: Strip, out: seq<Session>, tags: seq<Tag>, all: seq<Session>, ids: seq<set<string>>, i: nat, j: nat)
    requires Consolidated(ip, out, tags, all) && |ids| == |all| && Disjoint(ids) && i < j < |tags|
    ensures Folded(ip, all, ids, tags[i]) !! Folded(ip, all, ids, tags[j])
  {
    forall x | x in Folded(ip, all, ids, tags[i])
      ensures x !in Folded(ip, all, ids, tags[j])
    {
      var a :| 0 <= a < |all| && InRun(ip, all, tags[i], all[a]) && x in ids[a];
      InOneRun(ip, out, tags, all, i, j, a);
      assert forall b :: 0 <= b < |all| && x in ids[b] ==> b == a;
    }
  }

  lemma RunIndex(ip: Strip, out: seq<Session>, tags: seq<Tag>, all: seq<Session>, i: nat) returns (j: nat)
    requires Consolidated(ip, out, tags, all) && AllWellTimed(all) && i < |all|
    ensures j < |tags| && InRun(ip, all, tags[j], all[i])
  {
    var k := KeyOf(ip, all[i]);
    assert IsMember(ip, all, k, all[i]);
    var r := HasHead(ip, all, k, all[i]);
    assert Tag(k, r) in tags;
    j :| 0 <= j < |tags| && tags[j] == Tag(k, r);
  }

  // ---------------------------------------------------------------- the logger

  datatype Logs = Logs(sessions: map<string, Session>, udp: map<UdpKey, string>,
                       completed: seq<Session>, ids: seq<set<string>>)

  /** Sessions that have left the buffer, and all there ever were. */
  datatype Ledger = Ledger(flying: set<string>, sent: set<string>, lost: set<string>, issued: set<string>)

  /** Live sessions have not ended, and the UDP index never points to a wrong session. */
  ghost predicate Sound(l: Logs, issued: set<string>) {
    && (forall id :: id in l.sessions ==>
          l.sessions[id].id == id && l.sessions[id].started > ZERO_TIME && l.sessions[id].ended == ZERO_TIME)
    && (forall k :: k in l.udp && l.udp[k] in l.sessions ==>
          l.sessions[l.udp[k]].protocol == "udp" && UdpKeyOf(l.sessions[l.udp[k]]) == k)
    && (forall k :: k in l.udp ==> l.udp[k] in issued)
  }

  ghost predicate Legal(l: Logs, g: Ledger) {
    && Sound(l, g.issued)
    && AllWellTimed(l.completed)
    && |l.ids| == |l.completed|
    && Accounted(l.sessions.Keys, l.ids, g.flying, g.sent, g.lost, g.issued)
  }

  /** The index holds exactly the live UDP sessions: one per pair of addresses. */
  ghost predicate Exact(l: Logs) {
    && (forall k :: k in l.udp ==> l.udp[k] in l.sessions)
    && (forall id :: id in l.sessions && l.sessions[id].protocol == "udp" ==>
          UdpKeyOf(l.sessions[id]) in l.udp && l.udp[UdpKeyOf(l.sessions[id])] == id)
  }

  /** A live session moves to the end of the buffer; an unknown one changes nothing. */
  function Finished(l: Logs, id: string, now: int): Logs {
    if id in l.sessions
    then l.(sessions := l.sessions - {id}, completed := l.completed + [l.sessions[id].(ended := now)], ids := l.ids + [{id}])
    else l
  }

  lemma FinishedLegal(l: Logs, g: Ledger, id: string, now: int)
    requires Legal(l, g) && (id in l.sessions ==> now >= l.sessions[id].started)
    ensures Legal(Finished(l, id, now), g)
  {
    if id in l.sessions {
      Ended(l.sessions.Keys, l.ids, g.flying, g.sent, g.lost, g.issued, id);
      assert (l.sessions - {id}).Keys == l.sessions.Keys - {id};
    }
  }

  function Unindexed(l: Logs, k: UdpKey): Logs {
    l.(udp := l.udp - {k})
  }

  lemma StartLegal(l: Logs, g: Ledger, s: Session)
    requires Legal(l, g) && s.id !in g.issued && s.started > ZERO_TIME && s.ended == ZERO_TIME && s.protocol == "tcp"
    ensures Legal(l.(sessions := l.sessions[s.id := s]), g.(issued := g.issued + {s.id}))
    ensures Exact(l) ==> Exact(l.(sessions := l.sessions[s.id := s]))
  {
    assert l.sessions[s.id := s].Keys == l.sessions.Keys + {s.id};
  }

  lemma TrackLegal(l: Logs, g: Ledger, s: Session)
    requires Legal(l, g) && s.id !in g.issued && s.started > ZERO_TIME && s.ended == ZERO_TIME && s.protocol == "udp"
    requires UdpKeyOf(s) !in l.udp
    ensures Legal(l.(sessions := l.sessions[s.id := s], udp := l.udp[UdpKeyOf(s) := s.id]), g.(issued := g.issued + {s.id}))
    ensures Exact(l) ==> Exact(l.(sessions := l.sessions[s.id := s], udp := l.udp[UdpKeyOf(s) := s.id]))
  {
    assert l.sessions[s.id := s].Keys == l.sessions.Keys + {s.id};
  }

  lemma UnindexedLegal(l: Logs, g: Ledger, k: UdpKey)
    requires Legal(l, g)
    ensures Legal(Unindexed(l, k), g)
  {
  }

  /** Ending with the TCP operation keeps the index exact just when the session is not UDP. */
  lemma TcpEndKeepsIndex(l: Logs, g: Ledger, id: string, now: int)
    requires Legal(l, g) && Exact(l)
    ensures Exact(Finished(l, id, now)) <==> !(id in l.sessions && l.sessions[id].protocol == "udp")
  {
    if id in l.sessions && l.sessions[id].protocol == "udp" {
      assert l.udp[UdpKeyOf(l.sessions[id])] == id;
    }
  }

  function UdpFinished(l: Logs, id: string, now: int): Logs {
    if id in l.sessions then Finished(Unindexed(l, UdpKeyOf(l.sessions[id])), id, now) else l
  }

  /** Ending with the UDP operation keeps the index exact just when the session is UDP or no
      UDP session has its addresses. */
  lemma UdpEndKeepsIndex(l: Logs, g: Ledger, id: string, now: int)
    requires Legal(l, g) && Exact(l)
    ensures Exact(UdpFinished(l, id, now)) <==>
            !(id in l.sessions && l.sessions[id].protocol != "udp" && UdpKeyOf(l.sessions[id]) in l.udp)
  {
    if id in l.sessions && l.sessions[id].protocol != "udp" && UdpKeyOf(l.sessions[id]) in l.udp {
      var other := l.udp[UdpKeyOf(l.sessions[id])];
      assert other in UdpFinished(l, id, now).sessions;
    }
  }

  /** The index entries whose session is live and older than the limit. */
  function StaleKeys(sessions: map<string, Session>, udp: map<UdpKey, string>, now: int): set<UdpKey> {
    set k | k in udp && udp[k] in sessions && sessions[udp[k]].started < now - STALE_AFTER
  }

  function IdsOf(udp: map<UdpKey, string>, keys: set<UdpKey>): set<string> {
    set k | k in keys && k in udp :: udp[k]
  }

  /** The buffer has grown by ended sessions of the given ids, each reporting itself. */
  ghost predicate Grown(before: map<string, Session>, buffer: seq<Session>, bufferIds: seq<set<string>>,
                        completed: seq<Session>, ids: seq<set<string>>, gone: set<string>, now: int) {
    && |buffer| == |bufferIds| <= |completed| == |ids|
    && completed[..|buffer|] == buffer && ids[..|buffer|] == bufferIds
    && (forall i :: |buffer| <= i < |completed| ==>
          exists id :: id in gone && id in before && ids[i] == {id} && completed[i] == before[id].(ended := now))
  }

  /** One step of the sweep, on the maps. */
  lemma SweepStep(live: map<string, Session>, udp: map<UdpKey, string>, now: int, left: set<UdpKey>, k: UdpKey, stale: set<UdpKey>)
    requires forall q :: q in udp && udp[q] in live ==> UdpKeyOf(live[udp[q]]) == q
    requires k in udp && k in left && stale == StaleKeys(live, udp, now)
    ensures k in StaleKeys(live - IdsOf(udp, stale - left), udp - (stale - left), now) <==> k in stale
    ensures k in stale ==> udp[k] !in IdsOf(udp, stale - left)
    ensures k in stale ==> stale - (left - {k}) == (stale - left) + {k}
    ensures k in stale ==> IdsOf(udp, stale - (left - {k})) == IdsOf(udp, stale - left) + {udp[k]}
    ensures k !in stale ==> stale - (left - {k}) == stale - left
  {
    assert udp[k] in live ==> udp[k] !in IdsOf(udp, stale - left);
    if k in stale {
      assert IdsOf(udp, stale - left + {k}) == IdsOf(udp, stale - left) + {udp[k]};
    }
  }

  lemma GrownMore(before: map<string, Session>, buffer: seq<Session>, bufferIds: seq<set<string>>,
                  completed: seq<Session>, ids: seq<set<string>>, gone: set<string>, now: int, id: string)
    requires Grown(before, buffer, bufferIds, completed, ids, gone, now) && id in before
    ensures Grown(before, buffer, bufferIds, completed + [before[id].(ended := now)], ids + [{id}], gone + {id}, now)
  {
    var completed', ids' := completed + [before[id].(ended := now)], ids + [{id}];
    assert completed'[..|buffer|] == completed[..|buffer|] && ids'[..|buffer|] == ids[..|buffer|];
    forall i | |buffer| <= i < |completed'|
      ensures exists x :: x in gone + {id} && x in before && ids'[i] == {x} && completed'[i] == before[x].(ended := now)
    {
      if i < |completed| {
        var x :| x in gone && x in before && ids[i] == {x} && completed[i] == before[x].(ended := now);
        assert ids'[i] == {x};
      } else {
        assert ids'[i] == {id};
      }
    }
  }

  /** What the sweep does with one index entry. */
  function Reaped(l: Logs, k: UdpKey, now: int): Logs {
    if k in StaleKeys(l.sessions, l.udp, now) then UdpFinished(l, l.udp[k], now) else l
  }

  /** The sweep of `was` has dealt with all index entries but those in `left`. */
  ghost predicate Swept(was: Logs, cur: Logs, left: set<UdpKey>, now: int) {
    && (forall q :: q in was.udp && was.udp[q] in was.sessions ==> UdpKeyOf(was.sessions[was.udp[q]]) == q)
    && (forall id :: id in was.sessions ==> now >= was.sessions[id].started)
    && left <= was.udp.Keys
    && var stale := StaleKeys(was.sessions, was.udp, now);
    && cur.udp == was.udp - (stale - left)
    && cur.sessions == was.sessions - IdsOf(was.udp, stale - left)
    && Grown(was.sessions, was.completed, was.ids, cur.completed, cur.ids, IdsOf(was.udp, stale - left), now)
  }

  ghost predicate Sweeping(was: Logs, cur: Logs, g: Ledger, left: set<UdpKey>, now: int) {
    Swept(was, cur, left, now) && Legal(cur, g) && (Exact(was) ==> Exact(cur)) && left <= cur.udp.Keys
  }

  lemma SweptMore(was: Logs, cur: Logs, left: set<UdpKey>, now: int, k: UdpKey)
    requires Swept(was, cur, left, now) && k in left
    ensures Swept(was, Reaped(cur, k, now), left - {k}, now)
  {
    var stale := StaleKeys(was.sessions, was.udp, now);
    SweepStep(was.sessions, was.udp, now, left, k, stale);
    if k in stale {
      var id := was.udp[k];
      GrownMore(was.sessions, was.completed, was.ids, cur.completed, cur.ids, IdsOf(was.udp, stale - left), now, id);
      assert cur.udp - {k} == was.udp - (stale - left + {k});
      assert cur.sessions - {id} == was.sessions - (IdsOf(was.udp, stale - left) + {id});
    }
  }

  /** After the sweep: of the sessions in the index exactly those are gone that started more than
      five minutes before. */
  lemma SweptMeans(was: Logs, cur: Logs, now: int, id: string)
    requires Swept(was, cur, {}, now) && id in was.sessions
    ensures id !in cur.sessions <==>
            now - was.sessions[id].started > 300_000_000_000 && exists k :: k in was.udp && was.udp[k] == id
    ensures id in cur.sessions ==> cur.sessions[id] == was.sessions[id]
  {
    var stale := StaleKeys(was.sessions, was.udp, now);
    assert stale - {} == stale;
    if k :| k in was.udp && was.udp[k] == id {
      assert id in IdsOf(was.udp, stale) <==> k in stale;
    }
  }

  lemma ReapedLegal(l: Logs, g: Ledger, k: UdpKey, now: int)
    requires Legal(l, g) && forall id :: id in l.sessions ==> now >= l.sessions[id].started
    ensures Legal(Reaped(l, k, now), g) && (Exact(l) ==> Exact(Reaped(l, k, now)))
  {
    if k in StaleKeys(l.sessions, l.udp, now) {
      UnindexedLegal(l, g, k);
      FinishedLegal(Unindexed(l, k), g, l.udp[k], now);
      if Exact(l) {
        UdpEndKeepsIndex(l, g, l.udp[k], now);
      }
    }
  }

  lemma SweepsOn(was: Logs, cur: Logs, g: Ledger, left: set<UdpKey>, now: int, k: UdpKey)
    requires Sweeping(was, cur, g, left, now) && k in left
    ensures Sweeping(was, Reaped(cur, k, now), g, left - {k}, now)
    ensures k in cur.udp && (cur.udp[k] in cur.sessions ==> UdpKeyOf(cur.sessions[cur.udp[k]]) == k)
  {
    SweptMore(was, cur, left, now, k);
    ReapedLegal(cur, g, k, now);
    if k in StaleKeys(cur.sessions, cur.udp, now) {
      assert UdpKeyOf(cur.sessions[cur.udp[k]]) == k;
    }
  }

  lemma SweepBegins(l: Logs, g: Ledger, now: int)
    requires Legal(l, g) && forall id :: id in l.sessions ==> now >= l.sessions[id].started
    ensures Sweeping(l, l, g, l.udp.Keys, now)
  {
    var stale := StaleKeys(l.sessions, l.udp, now);
    assert stale - l.udp.Keys == {};
  }

  // ---------------------------------------------------------------- shutting down

  /** The sessions of `was` outside `left` have moved to the buffer of `cur`. */
  ghost predicate Ending(was: Logs, cur: Logs, g: Ledger, left: set<string>, now: int) {
    && Legal(cur, g)
    && left <= was.sessions.Keys
    && cur.sessions.Keys == left
    && (forall id :: id in left ==> cur.sessions[id] == was.sessions[id])
    && (forall id :: id in was.sessions ==> now >= was.sessions[id].started)
    && Grown(was.sessions, was.completed, was.ids, cur.completed, cur.ids, was.sessions.Keys - left, now)
  }

  lemma EndBegins(l: Logs, g: Ledger, now: int)
    requires Legal(l, g) && forall id :: id in l.sessions ==> now >= l.sessions[id].started
    ensures Ending(l, l, g, l.sessions.Keys, now)
  {
  }

  lemma EndsOn(was: Logs, cur: Logs, g: Ledger, left: set<string>, now: int, id: string)
    requires Ending(was, cur, g, left, now) && id in left
    ensures Ending(was, Finished(cur, id, now), g, left - {id}, now)
  {
    FinishedLegal(cur, g, id, now);
    GrownMore(was.sessions, was.completed, was.ids, cur.completed, cur.ids, was.sessions.Keys - left, now, id);
    assert was.sessions.Keys - (left - {id}) == was.sessions.Keys - left + {id};
  }

  lemma EndedAll(was: Logs, cur: Logs, g: Ledger, now: int)
    requires Ending(was, cur, g, {}, now)
    ensures Legal(Logs(map[], map[], cur.completed, cur.ids), g)
    ensures Grown(was.sessions, was.completed, was.ids, cur.completed, cur.ids, was.sessions.Keys, now)
  {
    assert was.sessions.Keys - {} == was.sessions.Keys;
  }

  /** Appends every live session to the buffer, ended. */
  method EndEach(live: map<string, Session>, buffer: seq<Session>, ghost was: Logs, ghost g: Ledger, now: int)
    returns (completed: seq<Session>, ghost cur: Logs)
    requires Legal(was, g) && live == was.sessions && buffer == was.completed
    requires forall id :: id in live ==> now >= live[id].started
    ensures Ending(was, cur, g, {}, now) && completed == cur.completed
  {
    completed, cur := buffer, was;
    var left := live.Keys;
    EndBegins(was, g, now);
    while left != {}
      invariant completed == cur.completed && Ending(was, cur, g, left, now)
      decreases |left|
    {
      var id :| id in left;
      EndsOn(was, cur, g, left, now, id);
      completed, cur := completed + [live[id].(ended := now)], Finished(cur, id, now);
      left := left - {id};
    }
  }

  // ---------------------------------------------------------------- flushing

  /** Entries taken out of the buffer, with the sessions they report. */
  ghost predicate Batch(entries: seq<Session>, ids: seq<set<string>>) {
    |ids| == |entries| && Disjoint(ids) && AllWellTimed(entries)
  }

  lemma TakeLegal(l: Logs, g: Ledger)
    requires Legal(l, g)
    ensures Legal(l.(completed := [], ids := []), g.(flying := g.flying + Union(l.ids)))
    ensures Batch(l.completed, l.ids)
  {
  }

  /** The first entries up to the limit: what was put back last is what is dropped first. */
  function Cap<T>(s: seq<T>): seq<T> {
    if |s| > MAX_REQUEUED then s[..MAX_REQUEUED] else s
  }

  function Overflow<T>(s: seq<T>): seq<T> {
    if |s| > MAX_REQUEUED then s[MAX_REQUEUED..] else []
  }

  /** What the limit cuts off is an end of the buffer as it stands if and only if the batch itself is
      within the limit. Otherwise it is the whole buffer and, before that, a part of the batch. */
  lemma CutOffIff<T>(batch: seq<T>, buffer: seq<T>)
    ensures (exists i :: 0 <= i <= |buffer| && Overflow(batch + buffer) == buffer[i..]) <==> |batch| <= MAX_REQUEUED
    ensures |batch| > MAX_REQUEUED ==> Overflow(batch + buffer) == batch[MAX_REQUEUED..] + buffer
    ensures Cap(batch + buffer) + Overflow(batch + buffer) == batch + buffer
  {
    var all := batch + buffer;
    if |batch| > MAX_REQUEUED {
      assert all[MAX_REQUEUED..] == batch[MAX_REQUEUED..] + buffer;
    } else if |all| > MAX_REQUEUED {
      assert all[MAX_REQUEUED..] == buffer[MAX_REQUEUED - |batch|..];
    } else {
      assert Overflow(all) == buffer[|buffer|..];
    }
  }

  function Requeue(l: Logs, entries: seq<Session>, ids: seq<set<string>>): Logs {
    l.(completed := Cap(entries + l.completed), ids := Cap(ids + l.ids))
  }

  lemma RequeueLegal(l: Logs, g: Ledger, entries: seq<Session>, ids: seq<set<string>>)
    requires Legal(l, g) && Batch(entries, ids) && Union(ids) <= g.flying
    ensures Legal(Requeue(l, entries, ids),
                  g.(flying := g.flying - Union(ids), lost := g.lost + Union(Overflow(ids + l.ids))))
  {
    Requeued(l.sessions.Keys, l.ids, g.flying, g.sent, g.lost, g.issued, ids);
    if |ids + l.ids| > MAX_REQUEUED {
      Capped(l.sessions.Keys, ids + l.ids, g.flying - Union(ids), g.sent, g.lost, g.issued, MAX_REQUEUED);
    }
  }

  lemma SettleLegal(l: Logs, g: Ledger, done: set<string>)
    requires Legal(l, g) && done <= g.flying
    ensures Legal(l, g.(flying := g.flying - done, sent := g.sent + done))
    ensures Legal(l, g.(flying := g.flying - done, lost := g.lost + done))
  {
  }

  datatype Outcome = NoSender | CompressFailed | SendFailed | Delivered

  class AccessLogger {
    var sessions: map<string, Session>       // live sessions by id
    var udpSessions: map<UdpKey, string>     // id of the session for a pair of addresses
    var completed: seq<Session>              // the buffer
    ghost var ids: seq<set<string>>          // the sessions each buffer entry reports
    ghost var ledger: Ledger

    ghost function State(): Logs
      reads this
    {
      Logs(sessions, udpSessions, completed, ids)
    }

    ghost predicate Valid()
      reads this
    {
      Legal(State(), ledger)
    }

    constructor ()
      ensures Valid() && Exact(State()) && ledger.issued == {}
    {
      sessions, udpSessions, completed, ids := map[], map[], [], [];
      ledger := Ledger({}, {}, {}, {});
    }

    method StartTcp(id: string, resourceId: int, src: string, dst: string, now: int)
      requires Valid() && id !in ledger.issued && now > ZERO_TIME
      modifies `sessions, `ledger
      ensures Valid() && (old(Exact(State())) ==> Exact(State()))
      ensures sessions == old(sessions)[id := NewSession(id, resourceId, src, dst, "tcp", now)]
      ensures ledger == old(ledger).(issued := old(ledger).issued + {id})
      ensures IsStarted(sessions[id], id, resourceId, src, dst, "tcp", now)
    {
      StartLegal(State(), ledger, NewSession(id, resourceId, src, dst, "tcp", now));
      sessions := sessions[id := NewSession(id, resourceId, src, dst, "tcp", now)];
      ledger := ledger.(issued := ledger.issued + {id});
    }

    method EndTcp(id: string, now: int) returns (shouldFlush: bool)
      requires Valid() && (id in sessions ==> now >= sessions[id].started)
      modifies `sessions, `completed, `ids
      ensures Valid() && State() == Finished(old(State()), id, now)
      ensures shouldFlush <==> |completed| >= 100
      ensures id in old(sessions) ==> id !in sessions && completed == old(completed) + [old(sessions)[id].(ended := now)]
      ensures id !in old(sessions) ==> sessions == old(sessions) && completed == old(completed)
    {
      FinishedLegal(State(), ledger, id, now);
      if id in sessions {
        completed, ids := completed + [sessions[id].(ended := now)], ids + [{id}];
        sessions := sessions - {id};
      }
      shouldFlush := |completed| >= MAX_BUFFERED;
    }

    /** A pair of addresses has at most one session at a time. */
    method TrackUdp(newId: string, resourceId: int, src: string, dst: string, now: int) returns (id: string)
      requires Valid() && newId !in ledger.issued && now > ZERO_TIME
      modifies `sessions, `udpSessions, `ledger
      ensures Valid() && (old(Exact(State())) ==> Exact(State()))
      ensures UdpKey(src, dst) in udpSessions && udpSessions[UdpKey(src, dst)] == id
      ensures UdpKey(src, dst) in old(udpSessions) ==> unchanged(this)
      ensures UdpKey(src, dst) !in old(udpSessions) ==>
                && id == newId && ledger == old(ledger).(issued := old(ledger).issued + {newId})
                && udpSessions == old(udpSessions)[UdpKey(src, dst) := newId]
                && sessions == old(sessions)[newId := NewSession(newId, resourceId, src, dst, "udp", now)]
                && IsStarted(sessions[newId], newId, resourceId, src, dst, "udp", now)
    {
      var k := UdpKey(src, dst);
      if k in udpSessions {
        return udpSessions[k];
      }
      TrackLegal(State(), ledger, NewSession(newId, resourceId, src, dst, "udp", now));
      sessions := sessions[newId := NewSession(newId, resourceId, src, dst, "udp", now)];
      udpSessions := udpSessions[k := newId];
      ledger := ledger.(issued := ledger.issued + {newId});
      id := newId;
    }

    method EndUdp(id: string, now: int) returns (shouldFlush: bool)
      requires Valid() && (id in sessions ==> now >= sessions[id].started)
      modifies `sessions, `udpSessions, `completed, `ids
      ensures Valid() && State() == UdpFinished(old(State()), id, now)
      ensures shouldFlush <==> |completed| >= 100
    {
      if id in sessions {
        UnindexedLegal(State(), ledger, UdpKeyOf(sessions[id]));
        udpSessions := udpSessions - {UdpKeyOf(sessions[id])};
      }
      shouldFlush := EndTcp(id, now);
    }

    /** The sweep ends exactly the indexed sessions older than five minutes. */
    method ReapStale(now: int)
      requires Valid() && forall id :: id in sessions ==> now >= sessions[id].started
      modifies `sessions, `udpSessions, `completed, `ids
      ensures Valid() && (old(Exact(State())) ==> Exact(State()))
      ensures Swept(old(State()), State(), {}, now)
      ensures forall id :: id in old(sessions) ==>
                (id !in sessions <==> now - old(sessions)[id].started > 300_000_000_000 && id in old(udpSessions).Values)
    {
      ghost var was := State();
      SweepBegins(was, ledger, now);
      ReapEach(was, now);
      forall id | id in was.sessions
        ensures id !in sessions <==> now - was.sessions[id].started > 300_000_000_000 && id in was.udp.Values
      {
        SweptMeans(was, State(), now, id);
      }
    }

    method ReapEach(ghost was: Logs, now: int)
      requires Sweeping(was, State(), ledger, udpSessions.Keys, now)
      modifies `sessions, `udpSessions, `completed, `ids
      ensures Sweeping(was, State(), ledger, {}, now)
    {
      var left := udpSessions.Keys;
      while left != {}
        invariant Sweeping(was, State(), ledger, left, now)
        decreases |left|
      {
        var k :| k in left;
        ReapOne(was, left, k, now);
        left := left - {k};
      }
    }

    method ReapOne(ghost was: Logs, ghost left: set<UdpKey>, k: UdpKey, now: int)
      requires Sweeping(was, State(), ledger, left, now) && k in left
      modifies `sessions, `udpSessions, `completed, `ids
      ensures Sweeping(was, State(), ledger, left - {k}, now)
    {
      SweepsOn(was, State(), ledger, left, now, k);
      var id := udpSessions[k];
      if id in sessions && sessions[id].started < now - STALE_AFTER {
        completed, ids := completed + [sessions[id].(ended := now)], ids + [{id}];
        sessions := sessions - {id};
        udpSessions := udpSessions - {k};
      }
    }

    method TakeBatch() returns (batch: seq<Session>, ghost taken: seq<set<string>>)
      requires Valid()
      modifies `completed, `ids, `ledger
      ensures Valid() && completed == [] && ids == []
      ensures batch == old(completed) && taken == old(ids) && Batch(batch, taken)
      ensures ledger == old(ledger).(flying := old(ledger).flying + Union(taken))
    {
      TakeLegal(State(), ledger);
      batch, taken := completed, ids;
      completed, ids := [], [];
      ledger := ledger.(flying := ledger.flying + Union(taken));
    }

    /** Puts a batch that could not be sent in front of the buffer, up to the limit. */
    method PutBack(entries: seq<Session>, ghost entryIds: seq<set<string>>)
      requires Valid() && Batch(entries, entryIds) && Union(entryIds) <= ledger.flying
      modifies `completed, `ids, `ledger
      ensures Valid() && State() == Requeue(old(State()), entries, entryIds)
      ensures |completed| <= 500 && completed <= entries + old(completed)
      ensures |completed| < 500 ==> completed == entries + old(completed)
      ensures ledger == old(ledger).(flying := old(ledger).flying - Union(entryIds),
                                     lost := old(ledger).lost + Union(Overflow(entryIds + old(ids))))
    {
      RequeueLegal(State(), ledger, entries, entryIds);
      ledger := ledger.(flying := ledger.flying - Union(entryIds), lost := ledger.lost + Union(Overflow(entryIds + ids)));
      ids := Cap(entryIds + ids);
      completed := entries + completed;
      if |completed| > MAX_REQUEUED {
        completed := completed[..MAX_REQUEUED];
      }
    }

    /** One flush: delivered sessions are sent, undeliverable ones are lost, and after a failed
        send every session of the batch is in the buffer again unless the limit cut it off. */
    method Flush(outcome: Outcome) returns (batch: seq<Session>, payload: seq<Session>)
      requires Valid()
      modifies `completed, `ids, `ledger
      ensures Valid() && ledger.flying == old(ledger).flying && ledger.issued == old(ledger).issued
      ensures batch == old(completed)
      ensures !outcome.NoSender? ==> IsCountedConsolidation(Consolidator.ExtractIp, payload, batch)
      ensures outcome.Delivered? ==> completed == [] && ledger.sent == old(ledger).sent + Union(old(ids)) && ledger.lost == old(ledger).lost
      ensures outcome.SendFailed? ==> completed == Cap(payload) && ledger.sent == old(ledger).sent
      ensures outcome.SendFailed? && |payload| <= MAX_REQUEUED ==> Union(ids) == Union(old(ids)) && ledger.lost == old(ledger).lost
      ensures outcome.NoSender? || outcome.CompressFailed? ==>
                completed == [] && ledger.lost == old(ledger).lost + Union(old(ids)) && ledger.sent == old(ledger).sent
    {
      payload := [];
      ghost var taken;
      batch, taken := TakeBatch();
      if batch == [] {
        ghost var none := Consolidator.SmallBatch(Consolidator.ExtractIp, []);
        return;
      }
      assert old(ledger).flying !! Union(taken);
      if outcome.NoSender? {
        SettleLegal(State(), ledger, Union(taken));
        ledger := ledger.(flying := ledger.flying - Union(taken), lost := ledger.lost + Union(taken));
        assert ledger.flying == old(ledger).flying;
        return;
      }
      payload := Consolidator.Consolidate(Consolidator.ExtractIp, batch);
      ghost var tags :| Consolidated(Consolidator.ExtractIp, payload, tags, batch);
      FoldAccounts(Consolidator.ExtractIp, payload, tags, batch, taken);
      OutputsWellTimed(Consolidator.ExtractIp, payload, tags, batch);
      ghost var folded := FoldedAll(Consolidator.ExtractIp, batch, taken, tags);
      if outcome.SendFailed? {
        PutBack(payload, folded);
      } else {
        SettleLegal(State(), ledger, Union(folded));
        ledger := if outcome.Delivered?
                  then ledger.(flying := ledger.flying - Union(folded), sent := ledger.sent + Union(folded))
                  else ledger.(flying := ledger.flying - Union(folded), lost := ledger.lost + Union(folded));
      }
    }

    /** Shutting down ends every live session and buffers it for the last flush. */
    method EndAll(now: int)
      requires Valid() && forall id :: id in sessions ==> now >= sessions[id].started
      modifies `sessions, `udpSessions, `completed, `ids
      ensures Valid() && sessions == map[] && udpSessions == map[]
      ensures Grown(old(sessions), old(completed), old(ids), completed, ids, old(sessions).Keys, now)
    {
      ghost var was := State();
      ghost var cur;
      completed, cur := EndEach(sessions, completed, was, ledger, now);
      EndedAll(was, cur, ledger, now);
      ids := cur.ids;
      sessions, udpSessions := map[], map[];
    }

    /** If the last flush gets through, every session not already lost has been sent, except
        those of other flushes still under way. */
    method Close(now: int, outcome: Outcome) returns (batch: seq<Session>, payload: seq<Session>)
      requires Valid() && forall id :: id in sessions ==> now >= sessions[id].started
      modifies this
      ensures Valid() && sessions == map[] && ledger.flying == old(ledger).flying
      ensures outcome.Delivered? ==> ledger.issued == ledger.flying + ledger.sent + ledger.lost && ledger.lost == old(ledger).lost
    {
      EndAll(now);
      batch, payload := Flush(outcome);
    }
  }
}
