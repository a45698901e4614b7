/** Two runs of the access log in which what is cut off is not the newest: one in which another
    flight was put back meanwhile, one in which the batch alone exceeds the limit. */
module CutOffExamples {
  import opened Consolidation
  import Consolidator
  import opened AccessLog
  import opened LogRuns
  import opened CutOff

  const IP: Strip := (a: string) => a

  // ---------------------------------------------------------------- sessions that are never merged

  /** Ids are as long as their number. */
  function Id(i: nat): (id: string)
    ensures |id| == i
  {
    seq(i, _ => 'a')
  }

  function Live(i: nat): Session {
    Session(Id(i), i, "s", "d", "tcp", 1, ZERO_TIME, 0, 0, 0)
  }

  function Done(i: nat): Session {
    Live(i).(ended := 2)
  }

  function DoneKey(i: nat): Key {
    Key("s", "d", "tcp", i)
  }

  function Dones(n: nat): (s: seq<Session>)
    ensures |s| == n && forall i :: 0 <= i < n ==> s[i] == Done(i)
  {
    seq(n, i requires 0 <= i => Done(i))
  }

  function Singles(n: nat): (s: seq<set<string>>)
    ensures |s| == n && forall i :: 0 <= i < n ==> s[i] == {Id(i)}
  {
    seq(n, i requires 0 <= i => {Id(i)})
  }

  function Ids(n: nat): (s: seq<string>)
    ensures |s| == n && forall i :: 0 <= i < n ==> s[i] == Id(i)
  {
    seq(n, i requires 0 <= i => Id(i))
  }

  function Backwards<T>(s: seq<T>): (r: seq<T>)
    ensures |r| == |s| && forall i :: 0 <= i < |s| ==> r[i] == s[|s| - 1 - i]
  {
    seq(|s|, i requires 0 <= i < |s| => s[|s| - 1 - i])
  }

  function Tags(n: nat): (s: seq<Tag>)
    ensures |s| == n && forall i :: 0 <= i < n ==> s[i] == Tag(DoneKey(i), 1)
  {
    seq(n, i requires 0 <= i => Tag(DoneKey(i), 1))
  }

  lemma OnlyMember(n: nat, k: Key, x: Session)
    requires IsMember(IP, Dones(n), k, x)
    ensures 0 <= k.resourceId < n && k == DoneKey(k.resourceId) && x == Done(k.resourceId)
  {
    var i :| 0 <= i < n && Dones(n)[i] == x;
  }

  lemma {:induction false} NoBytes(n: nat, f: Field, k: Key, times: iset<int>, m: nat)
    requires m <= n && IsBytes(f)
    ensures Sum(IP, Dones(n), f, k, times, m) == 0
  {
    if m > 0 {
      NoBytes(n, f, k, times, m - 1);
    }
  }

  lemma RunOfOne(n: nat, i: nat)
    requires i < n
    ensures Head(IP, Dones(n), DoneKey(i), 1) && IsRunOf(IP, Dones(n), DoneKey(i), 1, Done(i))
  {
    var all, k := Dones(n), DoneKey(i);
    var times := RunTimes(IP, all, k, 1);
    forall x | IsMember(IP, all, k, x)
      ensures x == Done(i)
    {
      OnlyMember(n, k, x);
    }
    assert all[i] == Done(i);
    assert IsMember(IP, all, k, Done(i)) && Selected(IP, all, k, times, Done(i));
    NoBytes(n, Tx, k, times, n);
    NoBytes(n, Rx, k, times, n);
    assert Uniform(IP, all, k, times, "s");
  }

  /** A flush may emit them in any order, here from the latest to the first. */
  lemma EmittedBackwards(n: nat)
    ensures Consolidated(IP, Backwards(Dones(n)), Backwards(Tags(n)), Dones(n))
  {
    var all, out, tags := Dones(n), Backwards(Dones(n)), Backwards(Tags(n));
    forall i {:trigger tags[i]} | 0 <= i < |tags|
      ensures Head(IP, all, tags[i].key, tags[i].start) && IsRunOf(IP, all, tags[i].key, tags[i].start, out[i])
    {
      RunOfOne(n, n - 1 - i);
    }
    forall k, r | Head(IP, all, k, r)
      ensures Tag(k, r) in tags
    {
      var x :| IsMember(IP, all, k, x) && x.started == r;
      OnlyMember(n, k, x);
      assert tags[n - 1 - k.resourceId] == Tag(k, r);
    }
  }

  lemma NamedBackwards(n: nat)
    ensures NamesRuns(IP, Backwards(Dones(n)), Backwards(Tags(n)), Dones(n))
  {
    var all, out, tags := Dones(n), Backwards(Dones(n)), Backwards(Tags(n));
    forall i {:trigger tags[i]} | 0 <= i < |tags|
      ensures NamesRun(IP, all, tags[i].key, out[i])
    {
      assert all[n - 1 - i] == out[i];
      assert IsMember(IP, all, tags[i].key, out[i]);
    }
  }

  lemma FoldedBackwards(n: nat)
    ensures FoldedAll(IP, Dones(n), Singles(n), Backwards(Tags(n))) == Backwards(Singles(n))
  {
    forall j | 0 <= j < n
      ensures Folded(IP, Dones(n), Singles(n), Backwards(Tags(n))[j]) == {Id(n - 1 - j)}
    {
      FoldedOne(n, n - 1 - j);
    }
  }

  lemma FoldedOne(n: nat, i: nat)
    requires i < n
    ensures Folded(IP, Dones(n), Singles(n), Tag(DoneKey(i), 1)) == {Id(i)}
  {
    var tag := Tag(DoneKey(i), 1);
    assert InRun(IP, Dones(n), tag, Dones(n)[i]) && Id(i) in Singles(n)[i];
    assert forall j :: 0 <= j < n && InRun(IP, Dones(n), tag, Dones(n)[j]) ==> j == i;
  }

  // ---------------------------------------------------------------- traces

  /** A run with all its states. */
  datatype Trace = Trace(acts: seq<Act>, states: seq<State>)

  ghost predicate Joined(t: Trace, j: nat)
    requires j < |t.acts| && |t.states| == |t.acts| + 1
  {
    t.states[j + 1] == Next(t.states[j], t.acts[j])
  }

  ghost predicate IsTrace(t: Trace) {
    && |t.states| == |t.acts| + 1 && t.states[0] == INIT
    && (forall j :: 0 <= j < |t.acts| ==> Joined(t, j))
  }

  lemma {:induction false} TraceIsRun(t: Trace, n: nat)
    requires IsTrace(t) && n <= |t.acts|
    ensures Run(t.acts, n) == t.states[n]
  {
    if n > 0 {
      TraceIsRun(t, n - 1);
      assert Joined(t, n - 1);
    }
  }

  function Last(t: Trace): State
    requires |t.states| == |t.acts| + 1
  {
    t.states[|t.acts|]
  }

  /** The second trace is one step longer. */
  ghost predicate Longer(t: Trace, u: Trace, a: Act) {
    && |t.states| == |t.acts| + 1 && u.acts == t.acts + [a]
    && |u.states| == |t.states| + 1 && u.states[..|t.states|] == t.states
  }

  lemma Extend(t: Trace, a: Act, s: State) returns (u: Trace)
    requires IsTrace(t) && s == Next(Last(t), a)
    ensures IsTrace(u) && Longer(t, u, a) && Last(u) == s
  {
    u := Trace(t.acts + [a], t.states + [s]);
    assert u.states[..|t.states|] == t.states;
    forall j | 0 <= j < |u.acts|
      ensures Joined(u, j)
    {
      if j < |t.acts| {
        assert Joined(t, j);
      }
    }
  }

  /** Flight f has been under way since step i. */
  ghost predicate Flies(t: Trace, f: nat, i: nat) {
    && i < |t.acts| && |t.states| == |t.acts| + 1 && t.acts[i] == Take(f) && f !in t.states[i].flights
    && (forall j :: i < j < |t.states| ==> f in t.states[j].flights)
  }

  lemma StillFlies(t: Trace, u: Trace, a: Act, f: nat, i: nat)
    requires Flies(t, f, i) && Longer(t, u, a) && f in Last(u).flights
    ensures Flies(u, f, i)
  {
    forall j | i < j < |u.states|
      ensures f in u.states[j].flights
    {
      if j < |t.states| {
        assert u.states[..|t.states|][j] == t.states[j];
      }
    }
    assert u.states[..|t.states|][i] == t.states[i];
  }

  // ---------------------------------------------------------------- steps

  /** No session is live; the rest is as given. */
  ghost predicate Looks(s: State, completed: seq<Session>, ids: seq<set<string>>, order: seq<string>, flights: map<nat, Flight>) {
    && s.logs.sessions == map[] && s.logs.completed == completed && s.logs.ids == ids
    && s.order == order && s.flights == flights
    && (forall x :: x in s.ledger.issued ==> x in order)
  }

  /** Starting and ending session i. */
  lemma LivedStep(s: State, i: nat, completed: seq<Session>, ids: seq<set<string>>, order: seq<string>, flights: map<nat, Flight>)
    requires Looks(s, completed, ids, order, flights) && Id(i) !in order
    ensures Looks(Next(Next(s, StartTcp(Live(i))), EndTcp(Id(i), 2)),
                  completed + [Done(i)], ids + [{Id(i)}], order + [Id(i)], flights)
  {
    var t := Next(s, StartTcp(Live(i)));
    assert t.logs.sessions == map[Id(i) := Live(i)];
    assert t.logs.sessions - {Id(i)} == map[];
  }

  lemma Lived(t: Trace, i: nat, completed: seq<Session>, ids: seq<set<string>>, order: seq<string>, flights: map<nat, Flight>)
    returns (u: Trace)
    requires IsTrace(t) && Looks(Last(t), completed, ids, order, flights) && Id(i) !in order
    ensures IsTrace(u) && Looks(Last(u), completed + [Done(i)], ids + [{Id(i)}], order + [Id(i)], flights)
  {
    LivedStep(Last(t), i, completed, ids, order, flights);
    var s := Next(Last(t), StartTcp(Live(i)));
    u := Extend(t, StartTcp(Live(i)), s);
    u := Extend(u, EndTcp(Id(i), 2), Next(s, EndTcp(Id(i), 2)));
  }

  lemma {:induction false} AllLived(n: nat) returns (t: Trace)
    ensures IsTrace(t) && Looks(Last(t), Dones(n), Singles(n), Ids(n), map[])
  {
    if n == 0 {
      t := Trace([], [INIT]);
    } else {
      t := AllLived(n - 1);
      t := Lived(t, n - 1, Dones(n - 1), Singles(n - 1), Ids(n - 1), map[]);
      assert Dones(n - 1) + [Done(n - 1)] == Dones(n) && Singles(n - 1) + [{Id(n - 1)}] == Singles(n);
      assert Ids(n - 1) + [Id(n - 1)] == Ids(n);
    }
  }

  lemma TakenStep(s: State, f: nat, completed: seq<Session>, ids: seq<set<string>>, order: seq<string>, flights: map<nat, Flight>)
    requires Looks(s, completed, ids, order, flights) && f !in flights
    ensures Looks(Next(s, Take(f)), [], [], order, flights[f := Flight(completed, ids, false)])
  {
  }

  lemma Taken(t: Trace, f: nat, completed: seq<Session>, ids: seq<set<string>>, order: seq<string>, flights: map<nat, Flight>)
    returns (u: Trace)
    requires IsTrace(t) && Looks(Last(t), completed, ids, order, flights) && f !in flights
    ensures IsTrace(u) && Longer(t, u, Take(f)) && Flies(u, f, |t.acts|)
    ensures Looks(Last(u), [], [], order, flights[f := Flight(completed, ids, false)])
  {
    TakenStep(Last(t), f, completed, ids, order, flights);
    u := Extend(t, Take(f), Next(Last(t), Take(f)));
    assert u.states[..|t.states|][|t.acts|] == Last(t);
  }

  lemma MergedStep(s: State, a: Act, order: seq<string>, flights: map<nat, Flight>, merged: Flight)
    requires a.Consolidate? && Looks(s, [], [], order, flights) && a.flight in flights && !flights[a.flight].ready
    requires var b := flights[a.flight];
             && |b.ids| == |b.entries|
             && Consolidated(a.ip, a.out, a.tags, b.entries) && NamesRuns(a.ip, a.out, a.tags, b.entries)
             && merged == Flight(a.out, FoldedAll(a.ip, b.entries, b.ids, a.tags), true)
    ensures Looks(Next(s, a), [], [], order, flights[a.flight := merged])
  {
  }

  lemma ReturnedStep(s: State, f: nat, order: seq<string>, flights: map<nat, Flight>)
    requires Looks(s, [], [], order, flights) && f in flights && flights[f].ready
    requires |flights[f].entries| <= MAX_REQUEUED && |flights[f].ids| <= MAX_REQUEUED
    ensures Looks(Next(s, PutBack(f)), flights[f].entries, flights[f].ids, order, flights - {f})
  {
    assert flights[f].entries + [] == flights[f].entries && flights[f].ids + [] == flights[f].ids;
  }

  // ---------------------------------------------------------------- the runs

  /** What becomes of many sessions in a flight that emits them backwards. */
  function First(n: nat): Flight {
    Flight(Backwards(Dones(n)), Backwards(Singles(n)), true)
  }

  lemma FirstMerged(n: nat) returns (t: Trace, i: nat)
    ensures IsTrace(t) && Flies(t, 1, i) && |t.acts| == i + 2 && !t.acts[i + 1].PutBack?
    ensures Looks(Last(t), [], [], Ids(n), map[1 := First(n)])
  {
    var lived := AllLived(n);
    i := |lived.acts|;
    var taken := Taken(lived, 1, Dones(n), Singles(n), Ids(n), map[]);
    var flights := map[1 := Flight(Dones(n), Singles(n), false)];
    assert map[][1 := Flight(Dones(n), Singles(n), false)] == flights;
    var a := Consolidate(1, IP, Backwards(Dones(n)), Backwards(Tags(n)));
    EmittedBackwards(n);
    NamedBackwards(n);
    FoldedBackwards(n);
    MergedStep(Last(taken), a, Ids(n), flights, First(n));
    assert flights[1 := First(n)] == map[1 := First(n)];
    t := Extend(taken, a, Next(Last(taken), a));
    StillFlies(taken, t, a, 1, i);
  }

  lemma NotBefore(n: nat, i: nat, j: nat)
    requires j < i < n
    ensures !Before(Ids(n), Id(i), Id(j))
  {
    assert forall p, q :: 0 <= p < n && Ids(n)[p] == Id(q) ==> p == q;
  }

  lemma OldestIsCut(n: nat, ids: seq<set<string>>, x: nat)
    requires |ids| == MAX_REQUEUED + 1 && ids[0] == {Id(x)} && ids[MAX_REQUEUED] == {Id(0)} && 0 < x < n
    ensures !CutsNewest(Ids(n), ids)
  {
    assert Cap(ids)[0] == {Id(x)} && Overflow(ids)[0] == {Id(0)};
    assert Id(x) in Union(Cap(ids)) && Id(0) in Union(Overflow(ids));
    NotBefore(n, x, 0);
  }

  /** Flight f is put back and something is cut off that is not the newest. */
  ghost predicate CutsOld(acts: seq<Act>, f: nat, i: nat, n: nat) {
    && n < |acts| && UnderWay(acts, f, i, n) && acts[n] == PutBack(f) && Enabled(Run(acts, n), acts[n])
    && var s := Run(acts, n); !CutsNewest(s.order, s.flights[f].ids + s.logs.ids)
  }

  lemma Returning(t: Trace, f: nat, i: nat) returns (acts: seq<Act>)
    requires IsTrace(t) && Flies(t, f, i) && Last(t).flights[f].ready
    requires !CutsNewest(Last(t).order, Last(t).flights[f].ids + Last(t).logs.ids)
    ensures acts == t.acts + [PutBack(f)] && CutsOld(acts, f, i, |t.acts|) && Run(acts, |t.acts|) == Last(t)
  {
    var u := Extend(t, PutBack(f), Next(Last(t), PutBack(f)));
    acts := u.acts;
    forall j | 0 <= j <= |t.acts|
      ensures Run(acts, j) == t.states[j]
    {
      TraceIsRun(u, j);
      assert u.states[..|t.states|][j] == t.states[j];
    }
  }

  /** A batch of one more than the limit: the first session to end is the one cut off. */
  lemma LargeBatchCutsOldest() returns (acts: seq<Act>, i: nat, n: nat)
    ensures CutsOld(acts, 1, i, n) && NoneBack(acts, i, n)
  {
    acts, i, n := LargeBatch(MAX_REQUEUED + 1);
  }

  lemma LargeBatch(m: nat) returns (acts: seq<Act>, i: nat, n: nat)
    requires m == MAX_REQUEUED + 1
    ensures CutsOld(acts, 1, i, n) && NoneBack(acts, i, n)
  {
    var t: Trace;
    t, i := FirstMerged(m);
    assert First(m).ids + [] == First(m).ids;
    OldestIsCut(m, First(m).ids, m - 1);
    acts := Returning(t, 1, i);
    n := |t.acts|;
    OneBetween(acts, i);
  }

  lemma OneBetween(acts: seq<Act>, i: nat)
    requires i + 2 <= |acts| && !acts[i + 1].PutBack?
    ensures NoneBack(acts, i, i + 2)
  {
  }

  /** One more session, taken by flight 2. */
  function Second(n: nat): Flight {
    Flight([Done(n)], [{Id(n)}], true)
  }

  lemma Alone(n: nat) returns (tags: seq<Tag>)
    ensures Consolidated(IP, [Done(n)], tags, [Done(n)]) && NamesRuns(IP, [Done(n)], tags, [Done(n)])
    ensures FoldedAll(IP, [Done(n)], [{Id(n)}], tags) == [{Id(n)}]
  {
    tags := Consolidator.SmallBatch(IP, [Done(n)]);
    var folded := FoldedAll(IP, [Done(n)], [{Id(n)}], tags);
    OneUnion({Id(n)});
    FoldAccounts(IP, [Done(n)], tags, [Done(n)], [{Id(n)}]);
    assert folded == [folded[0]];
    OneUnion(folded[0]);
  }

  lemma SecondTaken(n: nat) returns (t: Trace, i: nat)
    ensures IsTrace(t) && Flies(t, 2, i)
    ensures Looks(Last(t), [], [], Ids(n + 1), map[1 := First(n), 2 := Second(n).(ready := false)])
  {
    var first, _ := FirstMerged(n);
    var lived := Lived(first, n, [], [], Ids(n), map[1 := First(n)]);
    assert [] + [Done(n)] == [Done(n)] && [] + [{Id(n)}] == [{Id(n)}] && Ids(n) + [Id(n)] == Ids(n + 1);
    i := |lived.acts|;
    t := Taken(lived, 2, [Done(n)], [{Id(n)}], Ids(n + 1), map[1 := First(n)]);
    assert map[1 := First(n)][2 := Second(n).(ready := false)] == map[1 := First(n), 2 := Second(n).(ready := false)];
  }

  lemma SecondMerged(n: nat) returns (t: Trace, i: nat)
    ensures IsTrace(t) && Flies(t, 2, i)
    ensures Looks(Last(t), [], [], Ids(n + 1), map[1 := First(n), 2 := Second(n)])
  {
    var taken;
    taken, i := SecondTaken(n);
    var tags := Alone(n);
    var a, flights := Consolidate(2, IP, [Done(n)], tags), map[1 := First(n), 2 := Second(n).(ready := false)];
    MergedStep(Last(taken), a, Ids(n + 1), flights, Second(n));
    assert flights[2 := Second(n)] == map[1 := First(n), 2 := Second(n)];
    t := Extend(taken, a, Next(Last(taken), a));
    StillFlies(taken, t, a, 2, i);
  }

  lemma FirstReturned(n: nat) returns (t: Trace, i: nat)
    requires n <= MAX_REQUEUED
    ensures IsTrace(t) && Flies(t, 2, i)
    ensures Looks(Last(t), First(n).entries, First(n).ids, Ids(n + 1), map[2 := Second(n)])
  {
    var merged;
    merged, i := SecondMerged(n);
    var flights := map[1 := First(n), 2 := Second(n)];
    ReturnedStep(Last(merged), 1, Ids(n + 1), flights);
    assert flights - {1} == map[2 := Second(n)];
    t := Extend(merged, PutBack(1), Next(Last(merged), PutBack(1)));
    StillFlies(merged, t, PutBack(1), 2, i);
  }

  /** Flight 1 is put back while flight 2 is under way. When flight 2, a single session, is put back
      too, it is kept and the first session to end is cut off. */
  lemma OtherFlightCutsOldest() returns (acts: seq<Act>, i: nat, n: nat)
    ensures CutsOld(acts, 2, i, n) && |Run(acts, n).flights[2].ids| <= MAX_REQUEUED
  {
    acts, i, n := OtherFlight(MAX_REQUEUED);
  }

  lemma OtherFlight(m: nat) returns (acts: seq<Act>, i: nat, n: nat)
    requires m == MAX_REQUEUED
    ensures CutsOld(acts, 2, i, n) && |Run(acts, n).flights[2].ids| <= MAX_REQUEUED
  {
    var t: Trace;
    t, i := FirstReturned(m);
    OldestIsCut(m + 1, Second(m).ids + First(m).ids, m);
    acts := Returning(t, 2, i);
    n := |t.acts|;
  }
}
