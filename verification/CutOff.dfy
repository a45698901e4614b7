/** Which sessions the access log gives up when a batch that could not be sent no longer fits: in
    which runs they are the newest ones. */
module CutOff {
  import opened Consolidation
  import Consolidator
  import opened AccessLog
  import opened LogRuns

  /** Session x ended before session y. */
  predicate Before(order: seq<string>, x: string, y: string) {
    exists i, j :: 0 <= i < j < |order| && order[i] == x && order[j] == y
  }

  /** Of these entries, the sessions beyond the limit all ended after those within. */
  ghost predicate CutsNewest(order: seq<string>, ids: seq<set<string>>) {
    forall x, y :: x in Union(Cap(ids)) && y in Union(Overflow(ids)) ==> Before(order, x, y)
  }

  // ---------------------------------------------------------------- the order of endings

  /** Every session that is no longer live has ended, once. */
  ghost predicate InOrder(s: State) {
    && (forall i, j :: 0 <= i < j < |s.order| ==> s.order[i] != s.order[j])
    && (forall x :: x in s.order <==> x in s.ledger.issued && x !in s.logs.sessions)
  }

  lemma StepKeepsOrder(s: State, a: Act)
    requires Inv(s) && InOrder(s) && Enabled(s, a)
    ensures InOrder(Step(s, a))
  {
  }

  lemma {:induction false} RunKeepsOrder(acts: seq<Act>, n: nat)
    requires n <= |acts|
    ensures InOrder(Run(acts, n))
  {
    if n > 0 {
      RunKeepsInv(acts, n - 1);
      RunKeepsOrder(acts, n - 1);
      if Enabled(Run(acts, n - 1), acts[n - 1]) {
        StepKeepsOrder(Run(acts, n - 1), acts[n - 1]);
      }
    }
  }

  // ---------------------------------------------------------------- while a flush is under way

  /** The sessions of the flight are among the first `base` to end, and the buffer holds the latest
      ones, all of them later, in order. */
  ghost predicate Since(s: State, f: nat, base: nat) {
    && f in s.flights && base + |s.logs.ids| <= |s.order|
    && (forall x :: x in Union(s.flights[f].ids) ==> x in s.order[..base])
    && (forall i :: 0 <= i < |s.logs.ids| ==> s.logs.ids[i] == {s.order[|s.order| - |s.logs.ids| + i]})
  }

  lemma TakeBegins(s: State, f: nat)
    requires Inv(s) && InOrder(s) && Enabled(s, Take(f))
    ensures Since(Step(s, Take(f)), f, |s.order|)
  {
    assert s.order[..|s.order|] == s.order;
  }

  lemma EndKeepsSince(s: State, f: nat, base: nat, id: string, now: int, l: Logs)
    requires Since(s, f, base) && id in s.logs.sessions && l.ids == s.logs.ids + [{id}]
    ensures Since(EndRecorded(s, id, now, l), f, base)
  {
    assert (s.order + [id])[..base] == s.order[..base];
  }

  lemma ConsolidateKeepsSince(s: State, a: Act, f: nat, base: nat)
    requires Inv(s) && Since(s, f, base) && a.Consolidate? && Enabled(s, a)
    ensures Since(Step(s, a), f, base)
  {
    if a.flight == f {
      var b := s.flights[f];
      assert FlightOk(s, f);
      FoldAccounts(a.ip, a.out, a.tags, b.entries, b.ids);
    }
  }

  lemma EndingKeepsSince(s: State, a: Act, f: nat, base: nat)
    requires Since(s, f, base) && Enabled(s, a) && (a.EndTcp? || a.EndUdp? || a.Reap?)
    ensures Since(Step(s, a), f, base)
  {
    var l := s.logs;
    if a.Reap? {
      if a.key in StaleKeys(l.sessions, l.udp, a.now) {
        EndKeepsSince(s, f, base, l.udp[a.key], a.now, Reaped(l, a.key, a.now));
      }
    } else if a.id in l.sessions {
      EndKeepsSince(s, f, base, a.id, a.now, if a.EndTcp? then Finished(l, a.id, a.now) else UdpFinished(l, a.id, a.now));
    }
  }

  lemma NextKeepsSince(s: State, a: Act, f: nat, base: nat)
    requires Inv(s) && Since(s, f, base) && f in Next(s, a).flights && (a.PutBack? ==> !Enabled(s, a))
    ensures Since(Next(s, a), f, base)
  {
    if Enabled(s, a) {
      if a.EndTcp? || a.EndUdp? || a.Reap? {
        EndingKeepsSince(s, a, f, base);
      } else if a.Consolidate? {
        ConsolidateKeepsSince(s, a, f, base);
      }
    }
  }

  /** Flight f begins at step i and is still under way before step n. */
  ghost predicate UnderWay(acts: seq<Act>, f: nat, i: nat, n: nat) {
    && i < n <= |acts| && acts[i] == Take(f) && Enabled(Run(acts, i), acts[i])
    && (forall j :: i < j <= n ==> f in Run(acts, j).flights)
  }

  /** No flight is put back between the two steps. */
  ghost predicate NoneBack(acts: seq<Act>, i: nat, n: nat)
    requires n <= |acts|
  {
    forall j :: i < j < n && acts[j].PutBack? ==> !Enabled(Run(acts, j), acts[j])
  }

  /** Step j neither ends flight f nor puts a flight back. */
  ghost predicate Steady(acts: seq<Act>, f: nat, j: nat)
    requires j < |acts|
  {
    f in Run(acts, j + 1).flights && (acts[j].PutBack? ==> !Enabled(Run(acts, j), acts[j]))
  }

  lemma {:induction false} RunKeepsSince(acts: seq<Act>, f: nat, m: nat, n: nat, base: nat)
    requires m <= n <= |acts| && Since(Run(acts, m), f, base)
    requires forall j :: m <= j < n ==> Steady(acts, f, j)
    ensures Since(Run(acts, n), f, base)
  {
    if m < n {
      RunKeepsSince(acts, f, m, n - 1, base);
      assert Steady(acts, f, n - 1);
      SinceNext(acts, f, n - 1, base);
    }
  }

  lemma SinceTaken(acts: seq<Act>, f: nat, i: nat)
    requires i < |acts| && acts[i] == Take(f) && Enabled(Run(acts, i), acts[i])
    ensures Since(Run(acts, i + 1), f, |Run(acts, i).order|)
  {
    RunKeepsInv(acts, i);
    RunKeepsOrder(acts, i);
    TakeBegins(Run(acts, i), f);
  }

  lemma SinceNext(acts: seq<Act>, f: nat, n: nat, base: nat)
    requires n < |acts| && Since(Run(acts, n), f, base) && Steady(acts, f, n)
    ensures Since(Run(acts, n + 1), f, base)
  {
    RunKeepsInv(acts, n);
    NextKeepsSince(Run(acts, n), acts[n], f, base);
  }

  lemma SinceTake(acts: seq<Act>, f: nat, i: nat, n: nat)
    requires UnderWay(acts, f, i, n) && NoneBack(acts, i, n)
    ensures Since(Run(acts, n), f, |Run(acts, i).order|)
  {
    SinceTaken(acts, f, i);
    forall j | i + 1 <= j < n
      ensures Steady(acts, f, j)
    {
    }
    RunKeepsSince(acts, f, i + 1, n, |Run(acts, i).order|);
  }

  // ---------------------------------------------------------------- what is cut off

  lemma FlightFirst(s: State, f: nat, base: nat, x: string, j: nat)
    requires Since(s, f, base) && x in Union(s.flights[f].ids) && j < |s.logs.ids|
    ensures Before(s.order, x, s.order[|s.order| - |s.logs.ids| + j])
  {
    var i :| 0 <= i < base && s.order[..base][i] == x;
    assert s.order[i] == x;
  }

  lemma BufferInOrder(s: State, f: nat, base: nat, i: nat, j: nat)
    requires Since(s, f, base) && i < j < |s.logs.ids|
    ensures Before(s.order, s.order[|s.order| - |s.logs.ids| + i], s.order[|s.order| - |s.logs.ids| + j])
  {
  }

  /** An entry of the buffer is later than anything in front of it. */
  lemma LaterEntry(s: State, f: nat, base: nat, i: nat, j: nat, x: string, y: string)
    requires Since(s, f, base)
    requires var ids := s.flights[f].ids + s.logs.ids;
             i < j < |ids| && |s.flights[f].ids| <= j && x in ids[i] && y in ids[j]
    ensures Before(s.order, x, y)
  {
    var batch, n := s.flights[f].ids, |s.flights[f].ids|;
    assert s.logs.ids[j - n] == {y};
    if i < n {
      assert x in batch[i];
      FlightFirst(s, f, base, x, j - n);
    } else {
      BufferInOrder(s, f, base, i - n, j - n);
    }
  }

  lemma NewestWithBuffer(s: State, f: nat, base: nat)
    requires Since(s, f, base) && CutsNewest(s.order, s.flights[f].ids)
    ensures CutsNewest(s.order, s.flights[f].ids + s.logs.ids)
  {
    var batch := s.flights[f].ids;
    var ids := batch + s.logs.ids;
    forall x, y | x in Union(Cap(ids)) && y in Union(Overflow(ids))
      ensures Before(s.order, x, y)
    {
      var i :| 0 <= i < |Cap(ids)| && x in Cap(ids)[i];
      var j :| 0 <= j < |Overflow(ids)| && y in Overflow(ids)[j];
      if |batch| <= MAX_REQUEUED + j {
        LaterEntry(s, f, base, i, MAX_REQUEUED + j, x, y);
      } else {
        assert x in Cap(batch)[i] && y in Overflow(batch)[j];
      }
    }
  }

  lemma NewestAlone(order: seq<string>, batch: seq<set<string>>, buffer: seq<set<string>>)
    requires CutsNewest(order, batch + buffer)
    ensures CutsNewest(order, batch)
  {
    var ids := batch + buffer;
    if |batch| > MAX_REQUEUED {
      assert Cap(ids) == Cap(batch);
      forall y | y in Union(Overflow(batch))
        ensures y in Union(Overflow(ids))
      {
        var j :| 0 <= j < |Overflow(batch)| && y in Overflow(batch)[j];
        assert y in Overflow(ids)[j];
      }
    }
  }

  /** If no other flight is put back while a flight is under way, then what is cut off when it is put
      back ended after everything that is kept, if and only if that is so within the batch. It is,
      if the batch is within the limit. */
  lemma CutOffIsNewestIff(acts: seq<Act>, f: nat, i: nat, n: nat)
    requires n < |acts| && UnderWay(acts, f, i, n) && NoneBack(acts, i, n)
    requires acts[n] == PutBack(f) && Enabled(Run(acts, n), acts[n])
    ensures var s := Run(acts, n);
            var batch := s.flights[f].ids;
            && Run(acts, n + 1).logs.ids == Cap(batch + s.logs.ids)
            && Run(acts, n + 1).ledger.lost == s.ledger.lost + Union(Overflow(batch + s.logs.ids))
            && (CutsNewest(s.order, batch + s.logs.ids) <==> CutsNewest(s.order, batch))
            && (|batch| <= MAX_REQUEUED ==> CutsNewest(s.order, batch + s.logs.ids))
  {
    var s := Run(acts, n);
    var batch := s.flights[f].ids;
    SinceTake(acts, f, i, n);
    assert |batch| <= MAX_REQUEUED ==> CutsNewest(s.order, batch);
    if CutsNewest(s.order, batch) {
      NewestWithBuffer(s, f, |Run(acts, i).order|);
    }
    if CutsNewest(s.order, batch + s.logs.ids) {
      NewestAlone(s.order, batch, s.logs.ids);
    }
  }
}
