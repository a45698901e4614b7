/** The consolidation algorithm: group by key, sort each group by start time, and merge in one
    pass. It is proved to report exactly the runs of module Consolidation. */
module Consolidator {
  import opened Consolidation
  import HostPorts

  const MIN_CONNECTIONS := 2

  /** The address without its port, or the address itself if it has none. */
  function ExtractIp(addr: string): string {
    var hp := HostPorts.Split(addr);
    if hp.Malformed? then addr else hp.host
  }

  /** What an IP address looks like: no colon at all, or two at least. */
  ghost predicate LooksLikeIp(host: string) {
    || !HostPorts.Contains(host, ':')
    || (exists i, j :: 0 <= i < j < |host| && host[i] == ':' && host[j] == ':')
  }

  /** So taking the port off the address of a connection a second time changes nothing. */
  lemma EndpointsAreStable(s: Session, host: string, port: string)
    requires HostPorts.Plain(host, port) && LooksLikeIp(host)
    requires s.sourceAddr == HostPorts.Join(host, port) || s.sourceAddr == host
    ensures ExtractIp(s.sourceAddr) == host && Stable(ExtractIp, s)
  {
    HostPorts.SplitJoin(host, port);
    BareIp(host);
  }

  lemma BareIp(host: string)
    requires LooksLikeIp(host) && !HostPorts.Contains(host, '[')
    ensures ExtractIp(host) == host
  {
    var last := HostPorts.LastIndex(host, ':', |host|);
    if HostPorts.Contains(host, ':') {
      var i, j :| 0 <= i < j < |host| && host[i] == ':' && host[j] == ':';
      assert i < last;
      assert host[..last][i] == ':';
    }
  }

  // ---------------------------------------------------------------- merging one sorted group

  predicate Sorted(g: seq<Session>) {
    forall i, j :: 0 <= i < j < |g| ==> g[i].started <= g[j].started
  }

  /** Sessions of one key, in order of their start times. */
  predicate IsGroup(ip: Strip, g: seq<Session>, k: Key) {
    Sorted(g) && AllWellTimed(g) && forall i :: 0 <= i < |g| ==> KeyOf(ip, g[i]) == k
  }

  function First(s: Session): Session {
    s.(count := 1)
  }

  function Absorb(cur: Session, s: Session): Session {
    cur.(count := cur.count + 1, tx := cur.tx + s.tx, rx := cur.rx + s.rx,
         ended := if EndOf(s) > cur.ended then EndOf(s) else cur.ended)
  }

  function Finish(cur: Session, sourceIp: string, addrs: set<string>): Session {
    if |addrs| > 1 then cur.(sourceAddr := sourceIp) else cur
  }

  /** After looking at g[..i], `cur` summarises g[first..i], the current run so far. */
  ghost predicate Current(ip: Strip, g: seq<Session>, k: Key, first: nat, i: nat, cur: Session) {
    && first < i <= |g|
    && cur.started == g[first].started
    && Cut(ip, g, k, cur.started)
    && (forall j {:trigger g[j]} :: 0 <= j < first ==> g[j].started < cur.started)
    && (forall j {:trigger g[j]} :: first <= j < i ==> Unbroken(ip, g, k, cur.started, g[j].started))
  }

  ghost predicate Summed(ip: Strip, g: seq<Session>, k: Key, i: nat, cur: Session)
    requires i <= |g|
  {
    && cur.tx == Sum(ip, g, Tx, k, RunTimes(ip, g, k, cur.started), i)
    && cur.rx == Sum(ip, g, Rx, k, RunTimes(ip, g, k, cur.started), i)
    && cur.count == Sum(ip, g, Each, k, RunTimes(ip, g, k, cur.started), i)
  }

  ghost predicate Ends(g: seq<Session>, first: nat, i: nat, cur: Session)
    requires first < i <= |g|
  {
    && (exists m :: first <= m < i && EndOf(g[m]) == EndOf(cur))
    && (forall j :: first <= j < i ==> EndOf(g[j]) <= EndOf(cur))
  }

  ghost predicate Addresses(g: seq<Session>, first: nat, i: nat, cur: Session, addrs: set<string>)
    requires first < i <= |g|
  {
    && cur.sourceAddr == g[first].sourceAddr
    && (forall j :: first <= j < i ==> g[j].sourceAddr in addrs)
    && (forall a :: a in addrs ==> exists j :: first <= j < i && g[j].sourceAddr == a)
  }

  lemma CutAtNext(ip: Strip, g: seq<Session>, k: Key, first: nat, i: nat, cur: Session)
    requires IsGroup(ip, g, k) && Current(ip, g, k, first, i, cur) && Ends(g, first, i, cur)
    requires i < |g| && g[i].started - EndOf(cur) > GAP
    ensures Cut(ip, g, k, g[i].started) && g[i].started > cur.started
    ensures forall j :: i <= j < |g| ==> g[j].started !in RunTimes(ip, g, k, cur.started)
  {
    assert WellTimed(g[first]) && EndOf(g[first]) <= EndOf(cur);
    forall x | IsMember(ip, g, k, x) && x.started < g[i].started
      ensures EndOf(x) + GAP < g[i].started
    {
      var j :| 0 <= j < |g| && g[j] == x;
      if j < first {
        assert g[j].started < cur.started;
      }
    }
    assert Cut(ip, g, k, g[i].started) && cur.started < g[i].started;
  }

  lemma NoCutWithin(ip: Strip, g: seq<Session>, k: Key, first: nat, i: nat, cur: Session)
    requires IsGroup(ip, g, k) && Current(ip, g, k, first, i, cur) && Ends(g, first, i, cur)
    requires i < |g| && g[i].started - EndOf(cur) <= GAP
    ensures Unbroken(ip, g, k, cur.started, g[i].started)
  {
    var m :| first <= m < i && EndOf(g[m]) == EndOf(cur);
    assert g[m].started <= g[i - 1].started <= g[i].started;
    assert Unbroken(ip, g, k, cur.started, g[i - 1].started);
    forall c | cur.started < c <= g[i].started
      ensures !Cut(ip, g, k, c)
    {
      if g[i - 1].started < c {
        assert IsMember(ip, g, k, g[m]);
      }
    }
  }

  predicate Labelled(cur: Session, k: Key) {
    cur.destAddr == k.destAddr && cur.protocol == k.protocol && cur.resourceId == k.resourceId
  }

  /** Nothing from position i on belongs to the current run. */
  ghost predicate Complete(ip: Strip, g: seq<Session>, k: Key, i: nat, cur: Session) {
    forall j :: i <= j < |g| ==> g[j].started !in RunTimes(ip, g, k, cur.started)
  }

  lemma {:induction false} SumComplete(ip: Strip, g: seq<Session>, f: Field, k: Key, times: iset<int>, i: nat, n: nat)
    requires i <= n <= |g| && forall j :: i <= j < |g| ==> g[j].started !in times
    ensures Sum(ip, g, f, k, times, n) == Sum(ip, g, f, k, times, i)
  {
    if i < n {
      SumComplete(ip, g, f, k, times, i, n - 1);
    }
  }

  /** When the run is complete its members are g[first..i]. */
  lemma RunMembers(ip: Strip, g: seq<Session>, k: Key, first: nat, i: nat, cur: Session, x: Session)
    requires IsGroup(ip, g, k) && Current(ip, g, k, first, i, cur) && Complete(ip, g, k, i, cur)
    ensures Selected(ip, g, k, RunTimes(ip, g, k, cur.started), x) <==> exists j :: first <= j < i && g[j] == x
  {
    if Selected(ip, g, k, RunTimes(ip, g, k, cur.started), x) {
      var j :| 0 <= j < |g| && g[j] == x;
      assert first <= j < i;
    }
  }

  lemma LatestAtClose(ip: Strip, g: seq<Session>, k: Key, first: nat, i: nat, cur: Session)
    requires IsGroup(ip, g, k) && Current(ip, g, k, first, i, cur) && Complete(ip, g, k, i, cur)
    requires Ends(g, first, i, cur)
    ensures Latest(ip, g, k, RunTimes(ip, g, k, cur.started), EndOf(cur))
  {
    var times := RunTimes(ip, g, k, cur.started);
    forall x | Selected(ip, g, k, times, x)
      ensures EndOf(x) <= EndOf(cur)
    {
      RunMembers(ip, g, k, first, i, cur, x);
    }
    var m :| first <= m < i && EndOf(g[m]) == EndOf(cur);
    RunMembers(ip, g, k, first, i, cur, g[m]);
  }

  lemma AtMostOne(addrs: set<string>, a: string)
    requires a in addrs
    ensures |addrs| > 1 <==> exists b :: b in addrs && b != a
  {
    if forall b :: b in addrs ==> b == a {
      assert addrs == {a};
    } else {
      var b :| b in addrs && b != a;
      assert |{a, b}| == 2;
      assert {a, b} <= addrs;
      assert |addrs - {a, b}| == |addrs| - 2;
    }
  }

  lemma SourceAtClose(ip: Strip, g: seq<Session>, k: Key, first: nat, i: nat, cur: Session, addrs: set<string>)
    requires IsGroup(ip, g, k) && Current(ip, g, k, first, i, cur) && Complete(ip, g, k, i, cur)
    requires Addresses(g, first, i, cur, addrs)
    ensures SourceOk(ip, g, k, RunTimes(ip, g, k, cur.started), Finish(cur, k.sourceIp, addrs).sourceAddr)
  {
    var times, a := RunTimes(ip, g, k, cur.started), cur.sourceAddr;
    assert g[first].sourceAddr in addrs;
    AtMostOne(addrs, a);
    RunMembers(ip, g, k, first, i, cur, g[first]);
    if |addrs| > 1 {
      var b :| b in addrs && b != a;
      var j :| first <= j < i && g[j].sourceAddr == b;
      RunMembers(ip, g, k, first, i, cur, g[j]);
    } else {
      forall x | Selected(ip, g, k, times, x)
        ensures x.sourceAddr == a
      {
        RunMembers(ip, g, k, first, i, cur, x);
      }
    }
  }

  /** A complete run is reported correctly. */
  lemma Closed(ip: Strip, g: seq<Session>, k: Key, first: nat, i: nat, cur: Session, addrs: set<string>)
    requires IsGroup(ip, g, k) && Complete(ip, g, k, i, cur)
    requires Known(ip, g, k, first, i, cur, addrs)
    ensures Head(ip, g, k, cur.started) && IsRunOf(ip, g, k, cur.started, Finish(cur, k.sourceIp, addrs))
    ensures CountsRun(ip, g, k, Finish(cur, k.sourceIp, addrs))
  {
    var times := RunTimes(ip, g, k, cur.started);
    assert IsMember(ip, g, k, g[first]);
    SumComplete(ip, g, Tx, k, times, i, |g|);
    SumComplete(ip, g, Rx, k, times, i, |g|);
    SumComplete(ip, g, Each, k, times, i, |g|);
    LatestAtClose(ip, g, k, first, i, cur);
    SourceAtClose(ip, g, k, first, i, cur, addrs);
    assert EndOf(Finish(cur, k.sourceIp, addrs)) == EndOf(cur);
  }

  lemma CurrentAbsorbed(ip: Strip, g: seq<Session>, k: Key, first: nat, i: nat, cur: Session)
    requires Current(ip, g, k, first, i, cur) && i < |g| && Unbroken(ip, g, k, cur.started, g[i].started)
    ensures Current(ip, g, k, first, i + 1, Absorb(cur, g[i]))
  {
  }

  lemma SummedAbsorbed(ip: Strip, g: seq<Session>, k: Key, i: nat, cur: Session)
    requires i < |g| && KeyOf(ip, g[i]) == k && Unbroken(ip, g, k, cur.started, g[i].started)
    requires Summed(ip, g, k, i, cur)
    ensures Summed(ip, g, k, i + 1, Absorb(cur, g[i]))
  {
  }

  lemma AddressesAbsorbed(g: seq<Session>, first: nat, i: nat, cur: Session, addrs: set<string>)
    requires first < i < |g| && Addresses(g, first, i, cur, addrs)
    ensures Addresses(g, first, i + 1, Absorb(cur, g[i]), addrs + {g[i].sourceAddr})
  {
    forall a | a in addrs + {g[i].sourceAddr}
      ensures exists j :: first <= j < i + 1 && g[j].sourceAddr == a
    {
      if a in addrs {
        var j :| first <= j < i && g[j].sourceAddr == a;
      }
    }
  }

  lemma EndsAbsorbed(g: seq<Session>, first: nat, i: nat, cur: Session)
    requires first < i < |g| && Sorted(g) && AllWellTimed(g) && cur.started == g[first].started && Ends(g, first, i, cur)
    ensures Ends(g, first, i + 1, Absorb(cur, g[i]))
  {
    var m :| first <= m < i && EndOf(g[m]) == EndOf(cur);
    assert WellTimed(g[i]) && WellTimed(g[first]);
    assert EndOf(g[first]) <= EndOf(cur);
    assert EndOf(Absorb(cur, g[i])) == if EndOf(g[i]) > EndOf(cur) then EndOf(g[i]) else EndOf(cur);
  }

  /** What the pass knows after looking at g[..i]. */
  ghost predicate Known(ip: Strip, g: seq<Session>, k: Key, first: nat, i: nat, cur: Session, addrs: set<string>) {
    && Current(ip, g, k, first, i, cur)
    && Labelled(cur, k) && Summed(ip, g, k, i, cur)
    && Ends(g, first, i, cur)
    && Addresses(g, first, i, cur, addrs)
  }

  /** A session that starts soon enough extends the current run. */
  lemma Absorbed(ip: Strip, g: seq<Session>, k: Key, first: nat, i: nat, cur: Session, addrs: set<string>)
    requires IsGroup(ip, g, k) && Known(ip, g, k, first, i, cur, addrs) && i < |g| && g[i].started - EndOf(cur) <= GAP
    ensures Unbroken(ip, g, k, cur.started, g[i].started)
    ensures Known(ip, g, k, first, i + 1, Absorb(cur, g[i]), addrs + {g[i].sourceAddr})
  {
    NoCutWithin(ip, g, k, first, i, cur);
    CurrentAbsorbed(ip, g, k, first, i, cur);
    SummedAbsorbed(ip, g, k, i, cur);
    EndsAbsorbed(g, first, i, cur);
    AddressesAbsorbed(g, first, i, cur, addrs);
  }

  /** A session that starts at a cut begins the next run. */
  lemma Begun(ip: Strip, g: seq<Session>, k: Key, i: nat)
    requires IsGroup(ip, g, k) && i < |g| && Cut(ip, g, k, g[i].started)
    requires forall j :: 0 <= j < i ==> g[j].started < g[i].started
    ensures Known(ip, g, k, i, i + 1, First(g[i]), {g[i].sourceAddr})
  {
    var times := RunTimes(ip, g, k, g[i].started);
    SumBefore(ip, g, Tx, k, times, i);
    SumBefore(ip, g, Rx, k, times, i);
    SumBefore(ip, g, Each, k, times, i);
    assert EndOf(g[i]) == EndOf(First(g[i]));
  }

  lemma {:induction false} SumBefore(ip: Strip, g: seq<Session>, f: Field, k: Key, times: iset<int>, i: nat)
    requires i <= |g| && forall j :: 0 <= j < i ==> g[j].started !in times
    ensures Sum(ip, g, f, k, times, i) == 0
  {
    if i > 0 {
      SumBefore(ip, g, f, k, times, i - 1);
    }
  }

  /** The sessions `merged` report the runs of the group, in order. */
  ghost predicate GroupRuns(ip: Strip, g: seq<Session>, k: Key, merged: seq<Session>) {
    && RunsSoFar(ip, g, k, merged)
    && (forall r {:trigger Head(ip, g, k, r)} :: Head(ip, g, k, r) ==> StartsAt(merged, r))
  }

  ghost predicate RunsSoFar(ip: Strip, g: seq<Session>, k: Key, merged: seq<Session>) {
    && (forall j {:trigger merged[j]} :: 0 <= j < |merged| ==>
          Head(ip, g, k, merged[j].started) && IsRunOf(ip, g, k, merged[j].started, merged[j]))
    && (forall i, j :: 0 <= i < j < |merged| ==> merged[i].started < merged[j].started)
  }

  ghost predicate CountsAll(ip: Strip, g: seq<Session>, k: Key, merged: seq<Session>) {
    forall j {:trigger merged[j]} :: 0 <= j < |merged| ==> CountsRun(ip, g, k, merged[j])
  }

  predicate StartsAt(merged: seq<Session>, r: int) {
    exists j :: 0 <= j < |merged| && merged[j].started == r
  }

  /** Every cut among the start times of g[..i] begins a run that is reported or current. */
  ghost predicate CutsFound(ip: Strip, g: seq<Session>, k: Key, i: nat, merged: seq<Session>, cur: Session)
    requires i <= |g|
  {
    forall j {:trigger g[j]} :: 0 <= j < i && Cut(ip, g, k, g[j].started) ==>
      g[j].started == cur.started || StartsAt(merged, g[j].started)
  }

  function Connections(merged: seq<Session>, n: nat): int
    requires n <= |merged|
  {
    if n == 0 then 0 else Connections(merged, n - 1) + merged[n - 1].count
  }

  lemma {:induction false} ConnectionsPrefix(merged: seq<Session>, more: seq<Session>, n: nat)
    requires n <= |merged|
    ensures Connections(merged + more, n) == Connections(merged, n)
  {
    if n > 0 {
      ConnectionsPrefix(merged, more, n - 1);
    }
  }

  lemma FirstIsCut(ip: Strip, g: seq<Session>, k: Key)
    requires IsGroup(ip, g, k) && |g| > 0
    ensures Cut(ip, g, k, g[0].started)
  {
  }

  lemma RunsAppended(ip: Strip, g: seq<Session>, k: Key, merged: seq<Session>, done: Session)
    requires RunsSoFar(ip, g, k, merged)
    requires Head(ip, g, k, done.started) && IsRunOf(ip, g, k, done.started, done)
    requires forall j :: 0 <= j < |merged| ==> merged[j].started < done.started
    ensures RunsSoFar(ip, g, k, merged + [done])
  {
  }

  lemma StartsAppended(merged: seq<Session>, done: Session, r: int)
    ensures StartsAt(merged + [done], r) <==> StartsAt(merged, r) || r == done.started
  {
    assert (merged + [done])[|merged|] == done;
    if StartsAt(merged, r) {
      var j :| 0 <= j < |merged| && merged[j].started == r;
      assert (merged + [done])[j].started == r;
    }
  }

  lemma ConnectionsAppended(merged: seq<Session>, done: Session)
    ensures Connections(merged + [done], |merged + [done]|) == Connections(merged, |merged|) + done.count
  {
    ConnectionsPrefix(merged, [done], |merged|);
  }

  /** What the pass has reported after looking at g[..i]. */
  ghost predicate Progress(ip: Strip, g: seq<Session>, k: Key, i: nat, merged: seq<Session>, cur: Session) {
    && i <= |g|
    && RunsSoFar(ip, g, k, merged)
    && (forall j {:trigger merged[j]} :: 0 <= j < |merged| ==> merged[j].started < cur.started)
    && CutsFound(ip, g, k, i, merged, cur)
  }

  lemma ProgressAbsorbed(ip: Strip, g: seq<Session>, k: Key, i: nat, merged: seq<Session>, cur: Session)
    requires Progress(ip, g, k, i, merged, cur) && i < |g| && Unbroken(ip, g, k, cur.started, g[i].started)
    ensures Progress(ip, g, k, i + 1, merged, Absorb(cur, g[i]))
  {
  }

  lemma ProgressAppended(ip: Strip, g: seq<Session>, k: Key, i: nat, merged: seq<Session>, cur: Session, done: Session)
    requires Progress(ip, g, k, i, merged, cur) && done.started == cur.started
    requires Head(ip, g, k, done.started) && IsRunOf(ip, g, k, done.started, done)
    ensures RunsSoFar(ip, g, k, merged + [done])
    ensures forall j {:trigger g[j]} :: 0 <= j < i && Cut(ip, g, k, g[j].started) ==> StartsAt(merged + [done], g[j].started)
  {
    RunsAppended(ip, g, k, merged, done);
    forall j {:trigger g[j]} | 0 <= j < i && Cut(ip, g, k, g[j].started)
      ensures StartsAt(merged + [done], g[j].started)
    {
      StartsAppended(merged, done, g[j].started);
    }
  }

  lemma ProgressBegun(ip: Strip, g: seq<Session>, k: Key, i: nat, merged: seq<Session>, cur: Session, done: Session)
    requires Progress(ip, g, k, i, merged, cur) && done.started == cur.started
    requires Head(ip, g, k, done.started) && IsRunOf(ip, g, k, done.started, done)
    requires i < |g| && g[i].started > cur.started
    ensures Progress(ip, g, k, i + 1, merged + [done], First(g[i]))
  {
    ProgressAppended(ip, g, k, i, merged, cur, done);
  }

  lemma ProgressEnded(ip: Strip, g: seq<Session>, k: Key, merged: seq<Session>, cur: Session, done: Session)
    requires Progress(ip, g, k, |g|, merged, cur) && done.started == cur.started
    requires Head(ip, g, k, done.started) && IsRunOf(ip, g, k, done.started, done)
    ensures GroupRuns(ip, g, k, merged + [done])
  {
    ProgressAppended(ip, g, k, |g|, merged, cur, done);
    forall r | Head(ip, g, k, r)
      ensures StartsAt(merged + [done], r)
    {
      var x :| IsMember(ip, g, k, x) && x.started == r;
      var j :| 0 <= j < |g| && g[j] == x;
    }
  }

  /** The invariant of the pass. */
  ghost predicate Pass(ip: Strip, g: seq<Session>, k: Key, first: nat, i: nat,
                       cur: Session, addrs: set<string>, merged: seq<Session>) {
    Known(ip, g, k, first, i, cur, addrs) && Progress(ip, g, k, i, merged, cur)
  }

  /** What it says about counts. */
  ghost predicate Tallied(ip: Strip, g: seq<Session>, k: Key, i: nat, cur: Session, merged: seq<Session>) {
    CountsAll(ip, g, k, merged) && Connections(merged, |merged|) + cur.count == i
  }

  lemma PassBegins(ip: Strip, g: seq<Session>, k: Key)
    requires IsGroup(ip, g, k) && |g| > 0
    ensures Pass(ip, g, k, 0, 1, First(g[0]), {g[0].sourceAddr}, [])
  {
    FirstIsCut(ip, g, k);
    Begun(ip, g, k, 0);
  }

  lemma PassAbsorbs(ip: Strip, g: seq<Session>, k: Key, first: nat, i: nat,
                    cur: Session, addrs: set<string>, merged: seq<Session>)
    requires IsGroup(ip, g, k) && Pass(ip, g, k, first, i, cur, addrs, merged)
    requires i < |g| && g[i].started - EndOf(cur) <= GAP
    ensures Pass(ip, g, k, first, i + 1, Absorb(cur, g[i]), addrs + {g[i].sourceAddr}, merged)
  {
    Absorbed(ip, g, k, first, i, cur, addrs);
    ProgressAbsorbed(ip, g, k, i, merged, cur);
  }

  lemma PassCloses(ip: Strip, g: seq<Session>, k: Key, first: nat, i: nat,
                   cur: Session, addrs: set<string>, merged: seq<Session>)
    requires IsGroup(ip, g, k) && Pass(ip, g, k, first, i, cur, addrs, merged)
    requires i < |g| && g[i].started - EndOf(cur) > GAP
    ensures Pass(ip, g, k, i, i + 1, First(g[i]), {g[i].sourceAddr}, merged + [Finish(cur, k.sourceIp, addrs)])
    ensures CountsRun(ip, g, k, Finish(cur, k.sourceIp, addrs))
  {
    CutAtNext(ip, g, k, first, i, cur);
    Closed(ip, g, k, first, i, cur, addrs);
    ProgressBegun(ip, g, k, i, merged, cur, Finish(cur, k.sourceIp, addrs));
    assert forall j :: 0 <= j < i ==> g[j].started < g[i].started;
    Begun(ip, g, k, i);
  }

  lemma PassEnds(ip: Strip, g: seq<Session>, k: Key, first: nat,
                 cur: Session, addrs: set<string>, merged: seq<Session>)
    requires IsGroup(ip, g, k) && Pass(ip, g, k, first, |g|, cur, addrs, merged)
    ensures GroupRuns(ip, g, k, merged + [Finish(cur, k.sourceIp, addrs)])
    ensures CountsRun(ip, g, k, Finish(cur, k.sourceIp, addrs))
  {
    var done := Finish(cur, k.sourceIp, addrs);
    Closed(ip, g, k, first, |g|, cur, addrs);
    ProgressEnded(ip, g, k, merged, cur, done);
  }

  lemma TallyCloses(ip: Strip, g: seq<Session>, k: Key, i: nat, cur: Session, merged: seq<Session>, done: Session)
    requires Tallied(ip, g, k, i, cur, merged) && CountsRun(ip, g, k, done) && done.count == cur.count
    ensures CountsAll(ip, g, k, merged + [done])
    ensures Connections(merged + [done], |merged + [done]|) == i
  {
    ConnectionsAppended(merged, done);
  }

  ghost predicate NamesAll(ip: Strip, g: seq<Session>, k: Key, merged: seq<Session>) {
    forall j {:trigger merged[j]} :: 0 <= j < |merged| ==> NamesRun(ip, g, k, merged[j])
  }

  lemma NamesOneMore(ip: Strip, g: seq<Session>, k: Key, merged: seq<Session>, first: nat, done: Session)
    requires NamesAll(ip, g, k, merged) && first < |g| && KeyOf(ip, g[first]) == k
    requires done.started == g[first].started && done.id == g[first].id
    ensures NamesAll(ip, g, k, merged + [done])
  {
    assert IsMember(ip, g, k, g[first]);
  }

  /** What the pass knows about ids. */
  ghost predicate Naming(ip: Strip, g: seq<Session>, k: Key, first: nat, cur: Session, merged: seq<Session>) {
    NamesAll(ip, g, k, merged) && first < |g| && cur.id == g[first].id
  }

  lemma NamesClose(ip: Strip, g: seq<Session>, k: Key, first: nat, i: nat, cur: Session, addrs: set<string>, merged: seq<Session>)
    requires IsGroup(ip, g, k) && Known(ip, g, k, first, i, cur, addrs) && Naming(ip, g, k, first, cur, merged)
    ensures NamesAll(ip, g, k, merged + [Finish(cur, k.sourceIp, addrs)])
  {
    NamesOneMore(ip, g, k, merged, first, Finish(cur, k.sourceIp, addrs));
  }

  ghost predicate Merging(ip: Strip, g: seq<Session>, k: Key, first: nat, i: nat,
                          cur: Session, addrs: set<string>, merged: seq<Session>) {
    && Pass(ip, g, k, first, i, cur, addrs, merged) && Tallied(ip, g, k, i, cur, merged)
    && Naming(ip, g, k, first, cur, merged)
  }

  lemma MergingBegins(ip: Strip, g: seq<Session>, k: Key)
    requires IsGroup(ip, g, k) && |g| > 0
    ensures Merging(ip, g, k, 0, 1, First(g[0]), {g[0].sourceAddr}, [])
  {
    PassBegins(ip, g, k);
  }

  lemma MergingAbsorbs(ip: Strip, g: seq<Session>, k: Key, first: nat, i: nat,
                       cur: Session, addrs: set<string>, merged: seq<Session>)
    requires IsGroup(ip, g, k) && Merging(ip, g, k, first, i, cur, addrs, merged)
    requires i < |g| && g[i].started - EndOf(cur) <= GAP
    ensures Merging(ip, g, k, first, i + 1, Absorb(cur, g[i]), addrs + {g[i].sourceAddr}, merged)
  {
    PassAbsorbs(ip, g, k, first, i, cur, addrs, merged);
  }

  lemma MergingCloses(ip: Strip, g: seq<Session>, k: Key, first: nat, i: nat,
                      cur: Session, addrs: set<string>, merged: seq<Session>)
    requires IsGroup(ip, g, k) && Merging(ip, g, k, first, i, cur, addrs, merged)
    requires i < |g| && g[i].started - EndOf(cur) > GAP
    ensures Merging(ip, g, k, i, i + 1, First(g[i]), {g[i].sourceAddr}, merged + [Finish(cur, k.sourceIp, addrs)])
  {
    PassCloses(ip, g, k, first, i, cur, addrs, merged);
    TallyCloses(ip, g, k, i, cur, merged, Finish(cur, k.sourceIp, addrs));
    NamesClose(ip, g, k, first, i, cur, addrs, merged);
  }

  lemma MergingEnds(ip: Strip, g: seq<Session>, k: Key, first: nat,
                    cur: Session, addrs: set<string>, merged: seq<Session>)
    requires IsGroup(ip, g, k) && Merging(ip, g, k, first, |g|, cur, addrs, merged)
    ensures var all := merged + [Finish(cur, k.sourceIp, addrs)];
            GroupRuns(ip, g, k, all) && CountsAll(ip, g, k, all) && Connections(all, |all|) == |g| && NamesAll(ip, g, k, all)
  {
    var done := Finish(cur, k.sourceIp, addrs);
    NamesClose(ip, g, k, first, |g|, cur, addrs, merged);
    PassEnds(ip, g, k, first, cur, addrs, merged);
    TallyCloses(ip, g, k, |g|, cur, merged, done);
  }

  /** One pass over a sorted group. Each output counts the sessions of its run and has the id of the
      first of them. */
  method Merge(ip: Strip, k: Key, g: seq<Session>) returns (merged: seq<Session>)
    requires IsGroup(ip, g, k) && |g| > 0
    ensures GroupRuns(ip, g, k, merged) && CountsAll(ip, g, k, merged) && NamesAll(ip, g, k, merged)
    ensures Connections(merged, |merged|) == |g|
  {
    var cur, addrs, i := First(g[0]), {g[0].sourceAddr}, 1;
    ghost var first := 0;
    merged := [];
    MergingBegins(ip, g, k);
    while i < |g|
      invariant first < i <= |g|
      invariant Merging(ip, g, k, first, i, cur, addrs, merged)
    {
      var s := g[i];
      if s.started - EndOf(cur) <= GAP {
        MergingAbsorbs(ip, g, k, first, i, cur, addrs, merged);
        cur, addrs := Absorb(cur, s), addrs + {s.sourceAddr};
      } else {
        MergingCloses(ip, g, k, first, i, cur, addrs, merged);
        merged := merged + [Finish(cur, k.sourceIp, addrs)];
        cur, addrs, first := First(s), {s.sourceAddr}, i;
      }
      i := i + 1;
    }
    MergingEnds(ip, g, k, first, cur, addrs, merged);
    merged := merged + [Finish(cur, k.sourceIp, addrs)];
  }

  // ---------------------------------------------------------------- grouping and sorting

  /** The members of key k among the first n sessions, in order. */
  function Members(ip: Strip, all: seq<Session>, k: Key, n: nat): seq<Session>
    requires n <= |all|
  {
    if n == 0 then []
    else if KeyOf(ip, all[n - 1]) == k then Members(ip, all, k, n - 1) + [all[n - 1]]
    else Members(ip, all, k, n - 1)
  }

  lemma {:induction false} MembersAre(ip: Strip, all: seq<Session>, k: Key, n: nat)
    requires n <= |all|
    ensures forall x :: x in Members(ip, all, k, n) <==> x in all[..n] && KeyOf(ip, x) == k
  {
    if n > 0 {
      MembersAre(ip, all, k, n - 1);
      assert all[..n] == all[..n - 1] + [all[n - 1]];
    }
  }

  lemma {:induction false} MembersSum(ip: Strip, all: seq<Session>, f: Field, k: Key, times: iset<int>, n: nat)
    requires n <= |all|
    ensures Sum(ip, Members(ip, all, k, n), f, k, times, |Members(ip, all, k, n)|) == Sum(ip, all, f, k, times, n)
  {
    if n > 0 {
      MembersSum(ip, all, f, k, times, n - 1);
      SumPrefix(ip, Members(ip, all, k, n - 1), [all[n - 1]], f, k, times, |Members(ip, all, k, n - 1)|);
    }
  }

  lemma Position(h: seq<Session>, x: Session) returns (p: nat)
    requires x in multiset(h)
    ensures p < |h| && h[p] == x
  {
    p :| 0 <= p < |h| && h[p] == x;
  }

  function Share(ip: Strip, x: Session, f: Field, k: Key, times: iset<int>): int {
    if KeyOf(ip, x) == k && x.started in times then Weight(x, f) else 0
  }

  lemma SumRemoved(ip: Strip, h: seq<Session>, p: nat, f: Field, k: Key, times: iset<int>) returns (rest: seq<Session>)
    requires p < |h|
    ensures |rest| == |h| - 1 && multiset(rest) == multiset(h) - multiset{h[p]}
    ensures Sum(ip, h, f, k, times, |h|) == Sum(ip, rest, f, k, times, |rest|) + Share(ip, h[p], f, k, times)
  {
    rest := h[..p] + h[p + 1..];
    assert h == h[..p] + [h[p]] + h[p + 1..];
    SumSplit(ip, h[..p], h[p], h[p + 1..], f, k, times);
  }

  lemma SumLast(ip: Strip, a: seq<Session>, x: Session, f: Field, k: Key, times: iset<int>)
    ensures Sum(ip, a + [x], f, k, times, |a + [x]|) == Sum(ip, a, f, k, times, |a|) + Share(ip, x, f, k, times)
  {
    SumPrefix(ip, a, [x], f, k, times, |a|);
  }

  lemma SumSplit(ip: Strip, a: seq<Session>, x: Session, b: seq<Session>, f: Field, k: Key, times: iset<int>)
    ensures Sum(ip, a + [x] + b, f, k, times, |a + [x] + b|) ==
            Sum(ip, a + b, f, k, times, |a + b|) + Share(ip, x, f, k, times)
  {
    SumJoined(ip, a + [x], b, f, k, times);
    SumLast(ip, a, x, f, k, times);
    SumJoined(ip, a, b, f, k, times);
  }

  lemma SumJoined(ip: Strip, a: seq<Session>, b: seq<Session>, f: Field, k: Key, times: iset<int>)
    ensures Sum(ip, a + b, f, k, times, |a + b|) == Sum(ip, a, f, k, times, |a|) + Sum(ip, b, f, k, times, |b|)
  {
    SumConcat(ip, a, b, f, k, times, |b|);
  }

  lemma {:induction false} SumPermuted(ip: Strip, g: seq<Session>, h: seq<Session>, f: Field, k: Key, times: iset<int>)
    requires multiset(g) == multiset(h)
    ensures Sum(ip, g, f, k, times, |g|) == Sum(ip, h, f, k, times, |h|)
    decreases |g|
  {
    SameLength(g, h);
    if |g| > 0 {
      var p := Position(h, g[0]);
      var restG := SumRemoved(ip, g, 0, f, k, times);
      var restH := SumRemoved(ip, h, p, f, k, times);
      SumPermuted(ip, restG, restH, f, k, times);
    }
  }

  lemma SameLength(g: seq<Session>, h: seq<Session>)
    requires multiset(g) == multiset(h)
    ensures |g| == |h| && (|g| > 0 ==> g[0] in multiset(h))
  {
    assert |g| == |multiset(g)| == |multiset(h)| == |h|;
  }

  lemma SameMembers(ip: Strip, all: seq<Session>, k: Key, g: seq<Session>, x: Session)
    requires multiset(g) == multiset(Members(ip, all, k, |all|))
    ensures IsMember(ip, g, k, x) <==> IsMember(ip, all, k, x)
  {
    MembersAre(ip, all, k, |all|);
    assert all[..|all|] == all;
    assert x in g <==> x in multiset(g);
  }

  lemma SameCuts(ip: Strip, all: seq<Session>, k: Key, g: seq<Session>, c: int)
    requires multiset(g) == multiset(Members(ip, all, k, |all|))
    ensures Cut(ip, g, k, c) <==> Cut(ip, all, k, c)
  {
    forall x
      ensures IsMember(ip, g, k, x) <==> IsMember(ip, all, k, x)
    {
      SameMembers(ip, all, k, g, x);
    }
  }

  /** A permutation of the members of a key has the runs of that key. */
  lemma SameRuns(ip: Strip, all: seq<Session>, k: Key, g: seq<Session>, r: int)
    requires multiset(g) == multiset(Members(ip, all, k, |all|))
    ensures Head(ip, g, k, r) <==> Head(ip, all, k, r)
    ensures RunTimes(ip, g, k, r) == RunTimes(ip, all, k, r)
  {
    forall c
      ensures Cut(ip, g, k, c) <==> Cut(ip, all, k, c)
    {
      SameCuts(ip, all, k, g, c);
    }
    forall x
      ensures IsMember(ip, g, k, x) <==> IsMember(ip, all, k, x)
    {
      SameMembers(ip, all, k, g, x);
    }
    assert forall t :: Unbroken(ip, g, k, r, t) <==> Unbroken(ip, all, k, r, t);
  }

  lemma SameSums(ip: Strip, all: seq<Session>, k: Key, g: seq<Session>, f: Field, times: iset<int>)
    requires multiset(g) == multiset(Members(ip, all, k, |all|))
    ensures Sum(ip, g, f, k, times, |g|) == Sum(ip, all, f, k, times, |all|)
  {
    SumPermuted(ip, g, Members(ip, all, k, |all|), f, k, times);
    MembersSum(ip, all, f, k, times, |all|);
  }

  lemma SameSelection(ip: Strip, a: seq<Session>, b: seq<Session>, k: Key, times: iset<int>, o: Session)
    requires forall x :: Selected(ip, a, k, times, x) <==> Selected(ip, b, k, times, x)
    requires forall f :: Sum(ip, a, f, k, times, |a|) == Sum(ip, b, f, k, times, |b|)
    requires Reports(ip, a, k, times, o)
    ensures Reports(ip, b, k, times, o)
  {
    forall s
      ensures Uniform(ip, a, k, times, s) <==> Uniform(ip, b, k, times, s)
    {
    }
  }

  lemma SameReports(ip: Strip, all: seq<Session>, k: Key, g: seq<Session>, r: int, o: Session)
    requires multiset(g) == multiset(Members(ip, all, k, |all|))
    requires IsRunOf(ip, g, k, r, o)
    ensures IsRunOf(ip, all, k, r, o)
  {
    SameRuns(ip, all, k, g, r);
    var times := RunTimes(ip, g, k, r);
    forall f
      ensures Sum(ip, g, f, k, times, |g|) == Sum(ip, all, f, k, times, |all|)
    {
      SameSums(ip, all, k, g, f, times);
    }
    forall x
      ensures Selected(ip, g, k, times, x) <==> Selected(ip, all, k, times, x)
    {
      SameMembers(ip, all, k, g, x);
    }
    SameSelection(ip, g, all, k, times, o);
  }

  function InsertAt(g: seq<Session>, p: nat, x: Session): seq<Session>
    requires p <= |g|
  {
    g[..p] + [x] + g[p..]
  }

  lemma InsertSorted(g: seq<Session>, p: nat, x: Session)
    requires Sorted(g) && p <= |g|
    requires p > 0 ==> g[p - 1].started <= x.started
    requires p < |g| ==> x.started <= g[p].started
    ensures Sorted(InsertAt(g, p, x))
  {
    var h := InsertAt(g, p, x);
    forall i, j | 0 <= i < j < |h|
      ensures h[i].started <= h[j].started
    {
      assert h[i] == if i < p then g[i] else if i == p then x else g[i - 1];
      assert h[j] == if j < p then g[j] else if j == p then x else g[j - 1];
    }
  }

  lemma InsertKeeps(g: seq<Session>, p: nat, x: Session)
    requires p <= |g|
    ensures multiset(InsertAt(g, p, x)) == multiset(g) + multiset{x}
  {
    assert g == g[..p] + g[p..];
  }

  method Insert(g: seq<Session>, x: Session) returns (h: seq<Session>)
    requires Sorted(g)
    ensures Sorted(h) && multiset(h) == multiset(g) + multiset{x}
  {
    var p := |g|;
    while p > 0 && g[p - 1].started > x.started
      invariant 0 <= p <= |g|
      invariant p < |g| ==> g[p].started > x.started
    {
      p := p - 1;
    }
    InsertSorted(g, p, x);
    InsertKeeps(g, p, x);
    h := InsertAt(g, p, x);
  }

  /** Sorting by start time; sessions that start together come in any order. */
  method SortByStart(s: seq<Session>) returns (g: seq<Session>)
    ensures Sorted(g) && multiset(g) == multiset(s)
  {
    g := [];
    for i := 0 to |s|
      invariant Sorted(g) && multiset(g) == multiset(s[..i])
    {
      assert s[..i + 1] == s[..i] + [s[i]];
      g := Insert(g, s[i]);
    }
    assert s[..|s|] == s;
  }

  // ---------------------------------------------------------------- the whole batch

  method Group(ip: Strip, all: seq<Session>) returns (groups: map<Key, seq<Session>>)
    ensures forall k :: k in groups ==> groups[k] == Members(ip, all, k, |all|) && |groups[k]| > 0
    ensures forall i :: 0 <= i < |all| ==> KeyOf(ip, all[i]) in groups
  {
    groups := map[];
    for i := 0 to |all|
      invariant forall k :: k in groups ==> groups[k] == Members(ip, all, k, i) && |groups[k]| > 0
      invariant forall k :: k !in groups ==> Members(ip, all, k, i) == []
      invariant forall j :: 0 <= j < i ==> KeyOf(ip, all[j]) in groups
    {
      var k := KeyOf(ip, all[i]);
      var group := if k in groups then groups[k] else [];
      groups := groups[k := group + [all[i]]];
    }
  }

  /** A group reports its runs, whatever its size: a single session is its own run. */
  method MergeGroup(ip: Strip, k: Key, group: seq<Session>) returns (out: seq<Session>, ghost g: seq<Session>)
    requires |group| > 0 && AllWellTimed(group) && forall i :: 0 <= i < |group| ==> KeyOf(ip, group[i]) == k
    ensures multiset(g) == multiset(group) && GroupRuns(ip, g, k, out) && NamesAll(ip, g, k, out)
    ensures |group| >= MIN_CONNECTIONS ==> CountsAll(ip, g, k, out) && Connections(out, |out|) == |group|
    ensures |group| < MIN_CONNECTIONS ==> out == g == group
    ensures |g| == |group|
  {
    if |group| < MIN_CONNECTIONS {
      SingleRun(ip, k, group);
      out, g := group, group;
      SelfNamed(ip, k, group);
    } else {
      var sorted := SortByStart(group);
      GroupSorted(ip, k, group, sorted);
      out := Merge(ip, k, sorted);
      g := sorted;
    }
  }

  lemma SelfNamed(ip: Strip, k: Key, group: seq<Session>)
    requires forall i :: 0 <= i < |group| ==> KeyOf(ip, group[i]) == k
    ensures NamesAll(ip, group, k, group)
  {
    forall j {:trigger group[j]} | 0 <= j < |group|
      ensures NamesRun(ip, group, k, group[j])
    {
      assert IsMember(ip, group, k, group[j]);
    }
  }

  lemma SingleRun(ip: Strip, k: Key, group: seq<Session>)
    requires |group| == 1 && AllWellTimed(group) && KeyOf(ip, group[0]) == k
    ensures GroupRuns(ip, group, k, group)
  {
    var x := group[0];
    FirstIsCut(ip, group, k);
    Begun(ip, group, k, 0);
    Closed(ip, group, k, 0, 1, First(x), {x.sourceAddr});
    assert IsRunOf(ip, group, k, x.started, First(x));
    assert EndOf(First(x)) == EndOf(x);
    forall r | Head(ip, group, k, r)
      ensures StartsAt(group, r)
    {
      assert group[0].started == r;
    }
  }

  lemma GroupSorted(ip: Strip, k: Key, group: seq<Session>, g: seq<Session>)
    requires AllWellTimed(group) && forall i :: 0 <= i < |group| ==> KeyOf(ip, group[i]) == k
    requires Sorted(g) && multiset(g) == multiset(group)
    ensures IsGroup(ip, g, k) && |g| == |group|
  {
    assert |g| == |multiset(g)| == |multiset(group)| == |group|;
    forall i | 0 <= i < |g|
      ensures WellTimed(g[i]) && KeyOf(ip, g[i]) == k
    {
      assert g[i] in multiset(group);
      var p := Position(group, g[i]);
    }
  }

  lemma {:induction false} MembersSize(ip: Strip, all: seq<Session>, k: Key, n: nat)
    requires n <= |all|
    ensures |Members(ip, all, k, n)| == GroupSize(ip, all, k, n)
  {
    if n > 0 {
      MembersSize(ip, all, k, n - 1);
    }
  }

  /** The outputs so far report exactly the runs of the keys in `done`. */
  ghost predicate Finished(ip: Strip, all: seq<Session>, out: seq<Session>, tags: seq<Tag>, done: set<Key>) {
    && |out| == |tags|
    && (forall i, j :: 0 <= i < j < |tags| ==> tags[i] != tags[j])
    && (forall i {:trigger tags[i]} :: 0 <= i < |tags| ==>
          && tags[i].key in done
          && Head(ip, all, tags[i].key, tags[i].start) && IsRunOf(ip, all, tags[i].key, tags[i].start, out[i]))
    && (forall k, r {:trigger Head(ip, all, k, r)} :: k in done && Head(ip, all, k, r) ==> Tag(k, r) in tags)
  }

  function TagsOf(k: Key, merged: seq<Session>): (tags: seq<Tag>)
    ensures |tags| == |merged|
  {
    seq(|merged|, i requires 0 <= i < |merged| => Tag(k, merged[i].started))
  }

  lemma TagsAreRuns(ip: Strip, all: seq<Session>, k: Key, g: seq<Session>, merged: seq<Session>, i: nat)
    requires multiset(g) == multiset(Members(ip, all, k, |all|)) && GroupRuns(ip, g, k, merged) && i < |merged|
    ensures Head(ip, all, k, merged[i].started) && IsRunOf(ip, all, k, merged[i].started, merged[i])
  {
    SameRuns(ip, all, k, g, merged[i].started);
    SameReports(ip, all, k, g, merged[i].started, merged[i]);
  }

  lemma TagsAreAll(ip: Strip, all: seq<Session>, k: Key, g: seq<Session>, merged: seq<Session>, r: int)
    requires multiset(g) == multiset(Members(ip, all, k, |all|)) && GroupRuns(ip, g, k, merged)
    requires Head(ip, all, k, r)
    ensures Tag(k, r) in TagsOf(k, merged)
  {
    SameRuns(ip, all, k, g, r);
    var j :| 0 <= j < |merged| && merged[j].started == r;
    assert TagsOf(k, merged)[j] == Tag(k, r);
  }

  lemma GroupFinished(ip: Strip, all: seq<Session>, k: Key, g: seq<Session>, merged: seq<Session>)
    requires multiset(g) == multiset(Members(ip, all, k, |all|)) && GroupRuns(ip, g, k, merged)
    ensures Finished(ip, all, merged, TagsOf(k, merged), {k})
  {
    var tags := TagsOf(k, merged);
    forall i | 0 <= i < |merged|
      ensures tags[i] == Tag(k, merged[i].started)
      ensures Head(ip, all, k, merged[i].started) && IsRunOf(ip, all, k, merged[i].started, merged[i])
    {
      TagsAreRuns(ip, all, k, g, merged, i);
    }
    forall r | Head(ip, all, k, r)
      ensures Tag(k, r) in tags
    {
      TagsAreAll(ip, all, k, g, merged, r);
    }
  }

  /** Counts of a group's outputs are counts for the whole batch. */
  lemma GroupCounts(ip: Strip, all: seq<Session>, k: Key, g: seq<Session>, merged: seq<Session>)
    requires multiset(g) == multiset(Members(ip, all, k, |all|))
    requires |g| >= MIN_CONNECTIONS ==> CountsAll(ip, g, k, merged)
    requires |g| < MIN_CONNECTIONS ==> merged == g
    ensures CountsRuns(ip, merged, TagsOf(k, merged), all)
  {
    var tags := TagsOf(k, merged);
    forall i {:trigger tags[i]} | 0 <= i < |tags|
      ensures if GroupSize(ip, all, tags[i].key, |all|) >= 2
              then CountsRun(ip, all, tags[i].key, merged[i]) else merged[i] in all
    {
      GroupCount(ip, all, k, g, merged[i]);
    }
  }

  lemma GroupCount(ip: Strip, all: seq<Session>, k: Key, g: seq<Session>, o: Session)
    requires multiset(g) == multiset(Members(ip, all, k, |all|))
    requires if |g| >= MIN_CONNECTIONS then CountsRun(ip, g, k, o) else o in g
    ensures if GroupSize(ip, all, k, |all|) >= 2 then CountsRun(ip, all, k, o) else o in all
  {
    SameLength(g, Members(ip, all, k, |all|));
    MembersSize(ip, all, k, |all|);
    if |g| >= MIN_CONNECTIONS {
      CountsInBatch(ip, all, k, g, o);
    } else {
      PassedThrough(ip, all, k, g, o);
    }
  }

  lemma CountsInBatch(ip: Strip, all: seq<Session>, k: Key, g: seq<Session>, o: Session)
    requires multiset(g) == multiset(Members(ip, all, k, |all|)) && CountsRun(ip, g, k, o)
    ensures CountsRun(ip, all, k, o)
  {
    SameRuns(ip, all, k, g, o.started);
    SameSums(ip, all, k, g, Each, RunTimes(ip, g, k, o.started));
  }

  lemma PassedThrough(ip: Strip, all: seq<Session>, k: Key, g: seq<Session>, o: Session)
    requires multiset(g) == multiset(Members(ip, all, k, |all|)) && o in g
    ensures o in all
  {
    MembersAre(ip, all, k, |all|);
    assert o in multiset(g);
    assert all[..|all|] == all;
  }

  lemma GroupNames(ip: Strip, all: seq<Session>, k: Key, g: seq<Session>, merged: seq<Session>)
    requires multiset(g) == multiset(Members(ip, all, k, |all|)) && NamesAll(ip, g, k, merged)
    ensures NamesRuns(ip, merged, TagsOf(k, merged), all)
  {
    var tags := TagsOf(k, merged);
    forall i | 0 <= i < |merged|
      ensures tags[i].key == k && NamesRun(ip, all, k, merged[i])
    {
      assert NamesRun(ip, g, k, merged[i]);
      var x :| IsMember(ip, g, k, x) && x.started == merged[i].started && x.id == merged[i].id;
      SameMembers(ip, all, k, g, x);
    }
  }

  lemma NamesTogether(ip: Strip, all: seq<Session>, out1: seq<Session>, tags1: seq<Tag>, out2: seq<Session>, tags2: seq<Tag>)
    requires NamesRuns(ip, out1, tags1, all) && NamesRuns(ip, out2, tags2, all)
    ensures NamesRuns(ip, out1 + out2, tags1 + tags2, all)
  {
    var out, tags := out1 + out2, tags1 + tags2;
    forall i {:trigger tags[i]} | 0 <= i < |tags|
      ensures NamesRun(ip, all, tags[i].key, out[i])
    {
      assert tags[i] == if i < |tags1| then tags1[i] else tags2[i - |tags1|];
    }
  }

  lemma CountsTogether(ip: Strip, all: seq<Session>, out1: seq<Session>, tags1: seq<Tag>, out2: seq<Session>, tags2: seq<Tag>)
    requires CountsRuns(ip, out1, tags1, all) && CountsRuns(ip, out2, tags2, all)
    ensures CountsRuns(ip, out1 + out2, tags1 + tags2, all)
  {
    var out, tags := out1 + out2, tags1 + tags2;
    forall i {:trigger tags[i]} | 0 <= i < |tags|
      ensures if GroupSize(ip, all, tags[i].key, |all|) >= 2 then CountsRun(ip, all, tags[i].key, out[i]) else out[i] in all
    {
      assert tags[i] == if i < |tags1| then tags1[i] else tags2[i - |tags1|];
    }
  }

  lemma FinishedTogether(ip: Strip, all: seq<Session>, out1: seq<Session>, tags1: seq<Tag>, done1: set<Key>,
                         out2: seq<Session>, tags2: seq<Tag>, done2: set<Key>)
    requires Finished(ip, all, out1, tags1, done1) && Finished(ip, all, out2, tags2, done2) && done1 !! done2
    ensures Finished(ip, all, out1 + out2, tags1 + tags2, done1 + done2)
  {
    var out, tags := out1 + out2, tags1 + tags2;
    forall i, j | 0 <= i < j < |tags|
      ensures tags[i] != tags[j]
    {
      assert tags[i] == if i < |tags1| then tags1[i] else tags2[i - |tags1|];
      assert tags[j] == if j < |tags1| then tags1[j] else tags2[j - |tags1|];
    }
    forall i {:trigger tags[i]} | 0 <= i < |tags|
      ensures tags[i].key in done1 + done2
      ensures Head(ip, all, tags[i].key, tags[i].start) && IsRunOf(ip, all, tags[i].key, tags[i].start, out[i])
    {
      assert tags[i] == if i < |tags1| then tags1[i] else tags2[i - |tags1|];
    }
  }

  lemma AllFinished(ip: Strip, all: seq<Session>, out: seq<Session>, tags: seq<Tag>, done: set<Key>)
    requires Finished(ip, all, out, tags, done)
    requires forall i :: 0 <= i < |all| ==> KeyOf(ip, all[i]) in done
    ensures Consolidated(ip, out, tags, all)
  {
    forall k, r | Head(ip, all, k, r)
      ensures Tag(k, r) in tags
    {
      var x :| IsMember(ip, all, k, x) && x.started == r;
      var i :| 0 <= i < |all| && all[i] == x;
    }
  }

  lemma GroupMembers(ip: Strip, all: seq<Session>, k: Key)
    requires AllWellTimed(all)
    ensures AllWellTimed(Members(ip, all, k, |all|))
    ensures forall i :: 0 <= i < |Members(ip, all, k, |all|)| ==> KeyOf(ip, Members(ip, all, k, |all|)[i]) == k
  {
    var group := Members(ip, all, k, |all|);
    MembersAre(ip, all, k, |all|);
    forall i | 0 <= i < |group|
      ensures WellTimed(group[i]) && KeyOf(ip, group[i]) == k
    {
      assert group[i] in group;
    }
  }

  /** No session, or one, needs no consolidation. */
  lemma SmallBatch(ip: Strip, sessions: seq<Session>) returns (tags: seq<Tag>)
    requires AllWellTimed(sessions) && |sessions| <= 1
    ensures Consolidated(ip, sessions, tags, sessions) && CountsRuns(ip, sessions, tags, sessions)
    ensures NamesRuns(ip, sessions, tags, sessions)
  {
    if sessions == [] {
      tags := [];
      assert forall k, x :: !IsMember(ip, sessions, k, x);
    } else {
      var k := KeyOf(ip, sessions[0]);
      tags := TagsOf(k, sessions);
      assert Members(ip, sessions, k, 1) == Members(ip, sessions, k, 0) + [sessions[0]] == sessions;
      assert Finished(ip, sessions, sessions, tags, {k}) by {
        SingleRun(ip, k, sessions);
        GroupFinished(ip, sessions, k, sessions, sessions);
      }
      GroupCounts(ip, sessions, k, sessions, sessions);
      SelfNamed(ip, k, sessions);
      GroupNames(ip, sessions, k, sessions, sessions);
      AllFinished(ip, sessions, sessions, tags, {k});
    }
  }

  /** The batch is replaced by one session per run, which has the id of a first session of its run
      and counts its sessions, unless it is alone in its group. */
  method Consolidate(ip: Strip, sessions: seq<Session>) returns (out: seq<Session>)
    requires AllWellTimed(sessions)
    ensures IsCountedConsolidation(ip, out, sessions)
  {
    if |sessions| <= 1 {
      out := sessions;
      ghost var tags := SmallBatch(ip, sessions);
      return;
    }
    var groups := Group(ip, sessions);
    out := [];
    ghost var tags: seq<Tag> := [];
    var left := groups.Keys;
    while left != {}
      invariant left <= groups.Keys
      invariant Finished(ip, sessions, out, tags, groups.Keys - left)
      invariant CountsRuns(ip, out, tags, sessions) && NamesRuns(ip, out, tags, sessions)
      decreases |left|
    {
      var k :| k in left;
      GroupMembers(ip, sessions, k);
      var merged, g := MergeGroup(ip, k, groups[k]);
      GroupFinished(ip, sessions, k, g, merged);
      GroupCounts(ip, sessions, k, g, merged);
      CountsTogether(ip, sessions, out, tags, merged, TagsOf(k, merged));
      GroupNames(ip, sessions, k, g, merged);
      NamesTogether(ip, sessions, out, tags, merged, TagsOf(k, merged));
      FinishedTogether(ip, sessions, out, tags, groups.Keys - left, merged, TagsOf(k, merged), {k});
      assert groups.Keys - (left - {k}) == (groups.Keys - left) + {k};
      out, left := out + merged, left - {k};
      tags := tags + TagsOf(k, merged);
    }
    AllFinished(ip, sessions, out, tags, groups.Keys);
  }

  // ---------------------------------------------------------------- counts after a failed send

  lemma MergedOutput(ip: Strip, out: seq<Session>, all: seq<Session>, k: Key)
    requires IsCountedConsolidation(ip, out, all) && Chained(ip, all, k) && |all| >= 2
    ensures |out| == 1 && out[0].count == |all| && IsRunOf(ip, all, k, all[0].started, out[0])
  {
    var tags: seq<Tag> :| Consolidated(ip, out, tags, all) && CountsRuns(ip, out, tags, all);
    ChainIsOneRun(ip, out, tags, all, k);
    ChainSum(ip, all, k, |all|);
    WholeGroup(ip, all, k, |all|);
    assert tags[0].key == k;
  }

  lemma {:induction false} WholeGroup(ip: Strip, all: seq<Session>, k: Key, n: nat)
    requires n <= |all| && forall i :: 0 <= i < |all| ==> KeyOf(ip, all[i]) == k
    ensures GroupSize(ip, all, k, n) == n
  {
    if n > 0 {
      WholeGroup(ip, all, k, n - 1);
    }
  }

  /** The output of a run from one address has that address, and ends where one of them ends. */
  lemma RunLooksLike(ip: Strip, all: seq<Session>, k: Key, a: string, o: Session)
    requires Chained(ip, all, k) && IsRunOf(ip, all, k, all[0].started, o)
    requires forall i :: 0 <= i < |all| ==> all[i].sourceAddr == a
    ensures o.started == all[0].started && o.sourceAddr == a && KeyOf(ip, o) == k && EndOf(o) >= EndOf(all[0])
  {
    var times := RunTimes(ip, all, k, all[0].started);
    assert Selected(ip, all, k, times, all[0]);
    assert Uniform(ip, all, k, times, a);
  }

  /** Two sessions are merged, the merged one is put back and merged with a third: it counts two,
      where the three together count three. */
  method RetryMiscountsHappens() returns (x: Session, y: Session, z: Session, o: seq<Session>, p: seq<Session>, q: seq<Session>)
    ensures IsCountedConsolidation(ExtractIp, o, [x, y]) && |o| == 1 && o[0].count == 2
    ensures IsCountedConsolidation(ExtractIp, p, o + [z]) && |p| == 1 && p[0].count == 2
    ensures IsCountedConsolidation(ExtractIp, q, [x, y, z]) && |q| == 1 && q[0].count == 3
  {
    x := Session("a", 0, "s", "d", "tcp", 1, 2, 0, 0, 0);
    y := x.(id := "b", started := 2, ended := 3);
    z := x.(id := "c", started := 3, ended := 4);
    o, p, q := MergeTwice(ExtractIp, x, y, z);
  }

  method MergeTwice(ip: Strip, x: Session, y: Session, z: Session) returns (o: seq<Session>, p: seq<Session>, q: seq<Session>)
    requires KeyOf(ip, y) == KeyOf(ip, z) == KeyOf(ip, x) && x.sourceAddr == y.sourceAddr == z.sourceAddr
    requires WellTimed(x) && WellTimed(y) && WellTimed(z) && x.started <= y.started <= z.started <= EndOf(x) + GAP
    ensures IsCountedConsolidation(ip, o, [x, y]) && |o| == 1 && o[0].count == 2
    ensures IsCountedConsolidation(ip, p, o + [z]) && |p| == 1 && p[0].count == 2
    ensures IsCountedConsolidation(ip, q, [x, y, z]) && |q| == 1 && q[0].count == 3
  {
    ghost var k := KeyOf(ip, x);
    PairChained(ip, x, y);
    o := Consolidate(ip, [x, y]);
    MergedOutput(ip, o, [x, y], k);
    RunLooksLike(ip, [x, y], k, x.sourceAddr, o[0]);
    assert o + [z] == [o[0], z];
    PairChained(ip, o[0], z);
    p := Consolidate(ip, o + [z]);
    MergedOutput(ip, p, o + [z], k);
    TripleChained(ip, x, y, z);
    q := Consolidate(ip, [x, y, z]);
    MergedOutput(ip, q, [x, y, z], k);
  }

  lemma PairChained(ip: Strip, x: Session, y: Session)
    requires KeyOf(ip, y) == KeyOf(ip, x) && x.started <= y.started <= EndOf(x) + GAP
    ensures Chained(ip, [x, y], KeyOf(ip, x))
  {
    var all := [x, y];
    assert all[1].started <= EndOf(all[0]) + GAP;
  }

  lemma TripleChained(ip: Strip, x: Session, y: Session, z: Session)
    requires KeyOf(ip, y) == KeyOf(ip, z) == KeyOf(ip, x) && x.started <= y.started <= z.started <= EndOf(x) + GAP
    ensures Chained(ip, [x, y, z], KeyOf(ip, x))
  {
    var all := [x, y, z];
    assert all[1].started <= EndOf(all[0]) + GAP && all[2].started <= EndOf(all[0]) + GAP;
  }
}
