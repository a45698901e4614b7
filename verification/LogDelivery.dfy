/** What is delivered: however often sending fails, however many flushes run at the same time and
    whatever the limit cuts off, a delivered payload consolidates exactly the raw sessions it
    accounts for. */
module LogDelivery {
  import opened Consolidation
  import opened AccessLog
  import Interchange

  /** The sessions as they were when they ended, by id. */
  type Ended = map<string, Session>

  /** The raw sessions with these ids, each once. */
  ghost predicate RawsOf(raws: seq<Session>, ids: set<string>, ended: Ended) {
    && (forall i :: 0 <= i < |raws| ==> raws[i].id in ids && raws[i].id in ended && ended[raws[i].id] == raws[i])
    && (forall i, j :: 0 <= i < j < |raws| ==> raws[i].id != raws[j].id)
    && (forall x :: x in ids ==> Occurs(raws, x))
  }

  predicate Occurs(raws: seq<Session>, x: string) {
    exists i :: 0 <= i < |raws| && raws[i].id == x
  }

  /** The entry can stand in for the raw sessions with these ids. */
  ghost predicate Stands(ip: Strip, e: Session, ids: set<string>, ended: Ended) {
    exists raws :: RawsOf(raws, ids, ended) && Interchange.Interchangeable(ip, [e], raws)
  }

  ghost predicate StandAll(ip: Strip, entries: seq<Session>, ids: seq<set<string>>, ended: Ended) {
    |entries| == |ids| && forall i :: 0 <= i < |entries| ==> Stands(ip, entries[i], ids[i], ended)
  }

  lemma OccursTogether(r1: seq<Session>, r2: seq<Session>, x: string)
    requires Occurs(r1, x) || Occurs(r2, x)
    ensures Occurs(r1 + r2, x)
  {
    var raws := r1 + r2;
    if i :| 0 <= i < |r1| && r1[i].id == x {
      assert raws[i].id == x;
    } else {
      var i :| 0 <= i < |r2| && r2[i].id == x;
      assert raws[|r1| + i].id == x;
    }
  }

  lemma RawsTogether(r1: seq<Session>, s1: set<string>, r2: seq<Session>, s2: set<string>, ended: Ended)
    requires RawsOf(r1, s1, ended) && RawsOf(r2, s2, ended) && s1 !! s2
    ensures RawsOf(r1 + r2, s1 + s2, ended)
  {
    var raws := r1 + r2;
    forall x | x in s1 + s2
      ensures Occurs(raws, x)
    {
      OccursTogether(r1, r2, x);
    }
    forall i, j | 0 <= i < j < |raws|
      ensures raws[i].id != raws[j].id
    {
      if i < |r1| <= j {
        assert raws[i].id in s1 && raws[j].id in s2;
      } else if i >= |r1| {
        assert raws[i] == r2[i - |r1|] && raws[j] == r2[j - |r1|];
      }
    }
  }

  /** Entries together can stand in for all their raw sessions. */
  lemma {:induction false} StandTogether(ip: Strip, entries: seq<Session>, ids: seq<set<string>>, ended: Ended, n: nat)
    returns (raws: seq<Session>)
    requires StandAll(ip, entries, ids, ended) && Disjoint(ids) && n <= |entries|
    ensures RawsOf(raws, Union(ids[..n]), ended) && Interchange.Interchangeable(ip, entries[..n], raws)
  {
    if n == 0 {
      raws := [];
      assert Union(ids[..0]) == {};
    } else {
      var before := StandTogether(ip, entries, ids, ended, n - 1);
      var last :| RawsOf(last, ids[n - 1], ended) && Interchange.Interchangeable(ip, [entries[n - 1]], last);
      LastUnion(ids, n);
      RawsTogether(before, Union(ids[..n - 1]), last, ids[n - 1], ended);
      Interchange.Together(ip, entries[..n - 1], before, [entries[n - 1]], last);
      assert entries[..n] == entries[..n - 1] + [entries[n - 1]];
      raws := before + last;
    }
  }

  lemma StandWhole(ip: Strip, entries: seq<Session>, ids: seq<set<string>>, ended: Ended) returns (raws: seq<Session>)
    requires StandAll(ip, entries, ids, ended) && Disjoint(ids)
    ensures RawsOf(raws, Union(ids), ended) && Interchange.Interchangeable(ip, entries, raws)
  {
    raws := StandTogether(ip, entries, ids, ended, |entries|);
    assert entries[..|entries|] == entries && ids[..|entries|] == ids;
  }

  lemma LastUnion(ids: seq<set<string>>, n: nat)
    requires 0 < n <= |ids| && Disjoint(ids)
    ensures Union(ids[..n]) == Union(ids[..n - 1]) + ids[n - 1] && Union(ids[..n - 1]) !! ids[n - 1]
  {
    assert ids[..n] == ids[..n - 1] + [ids[n - 1]];
    UnionConcat(ids[..n - 1], [ids[n - 1]]);
    OneUnion(ids[n - 1]);
  }

  lemma StandLonger(ip: Strip, entries: seq<Session>, ids: seq<set<string>>, ended: Ended, later: Ended)
    requires StandAll(ip, entries, ids, ended) && forall x :: x in ended ==> x in later && later[x] == ended[x]
    ensures StandAll(ip, entries, ids, later)
  {
    forall i | 0 <= i < |entries|
      ensures Stands(ip, entries[i], ids[i], later)
    {
      var raws :| RawsOf(raws, ids[i], ended) && Interchange.Interchangeable(ip, [entries[i]], raws);
      assert RawsOf(raws, ids[i], later);
    }
  }

  // ---------------------------------------------------------------- across consolidation

  /** The ids of the entries of one run among the first n, in the order of Interchange.RunEntries. */
  ghost function RunIds(ip: Strip, all: seq<Session>, ids: seq<set<string>>, tag: Tag, n: nat): (r: seq<set<string>>)
    requires n <= |all| == |ids|
    ensures |r| == |Interchange.RunEntries(ip, all, tag, n)|
  {
    if n == 0 then []
    else if InRun(ip, all, tag, all[n - 1]) then RunIds(ip, all, ids, tag, n - 1) + [ids[n - 1]]
    else RunIds(ip, all, ids, tag, n - 1)
  }

  /** Entry i belongs to the run and reports the session x. */
  ghost predicate RunHas(ip: Strip, all: seq<Session>, ids: seq<set<string>>, tag: Tag, x: string, i: nat)
    requires i < |all| == |ids|
  {
    InRun(ip, all, tag, all[i]) && x in ids[i]
  }

  lemma {:induction false} RunIdsUnion(ip: Strip, all: seq<Session>, ids: seq<set<string>>, tag: Tag, n: nat, x: string)
    requires n <= |all| == |ids|
    ensures x in Union(RunIds(ip, all, ids, tag, n)) <==> exists i :: 0 <= i < n && RunHas(ip, all, ids, tag, x, i)
  {
    if n > 0 {
      RunIdsUnion(ip, all, ids, tag, n - 1, x);
      var before, last := RunIds(ip, all, ids, tag, n - 1), ids[n - 1];
      UnionMore(before, last, x);
      assert x in Union(RunIds(ip, all, ids, tag, n)) <==> x in Union(before) || RunHas(ip, all, ids, tag, x, n - 1);
    }
  }

  lemma UnionMore(ids: seq<set<string>>, last: set<string>, x: string)
    ensures x in Union(ids + [last]) <==> x in Union(ids) || x in last
  {
    UnionConcat(ids, [last]);
    OneUnion(last);
  }

  lemma {:induction false} RunStands(ip: Strip, all: seq<Session>, ids: seq<set<string>>, ended: Ended, tag: Tag, n: nat)
    requires n <= |all| && StandAll(ip, all, ids, ended) && Disjoint(ids)
    ensures StandAll(ip, Interchange.RunEntries(ip, all, tag, n), RunIds(ip, all, ids, tag, n), ended)
    ensures Disjoint(RunIds(ip, all, ids, tag, n))
  {
    if n > 0 {
      RunStands(ip, all, ids, ended, tag, n - 1);
      if InRun(ip, all, tag, all[n - 1]) {
        LastApart(ip, all, ids, tag, n);
        StandMore(ip, Interchange.RunEntries(ip, all, tag, n - 1), RunIds(ip, all, ids, tag, n - 1), all[n - 1], ids[n - 1], ended);
      }
    }
  }

  lemma StandMore(ip: Strip, entries: seq<Session>, ids: seq<set<string>>, x: Session, xs: set<string>, ended: Ended)
    requires StandAll(ip, entries, ids, ended) && Disjoint(ids) && Stands(ip, x, xs, ended) && Union(ids) !! xs
    ensures StandAll(ip, entries + [x], ids + [xs], ended) && Disjoint(ids + [xs])
  {
    OneUnion(xs);
    DisjointConcat(ids, [xs]);
  }

  lemma LastApart(ip: Strip, all: seq<Session>, ids: seq<set<string>>, tag: Tag, n: nat)
    requires 0 < n <= |all| == |ids| && Disjoint(ids)
    ensures Union(RunIds(ip, all, ids, tag, n - 1)) !! ids[n - 1]
  {
    var union := Union(RunIds(ip, all, ids, tag, n - 1));
    forall x | x in union
      ensures x !in ids[n - 1]
    {
      RunIdsUnion(ip, all, ids, tag, n - 1, x);
      var i :| 0 <= i < n - 1 && RunHas(ip, all, ids, tag, x, i);
      assert ids[i] !! ids[n - 1];
    }
  }

  lemma RunIdsAreFolded(ip: Strip, all: seq<Session>, ids: seq<set<string>>, tag: Tag)
    requires |ids| == |all|
    ensures Union(RunIds(ip, all, ids, tag, |all|)) == Folded(ip, all, ids, tag)
  {
    var union, folded := Union(RunIds(ip, all, ids, tag, |all|)), Folded(ip, all, ids, tag);
    forall x
      ensures x in union <==> x in folded
    {
      RunIdsUnion(ip, all, ids, tag, |all|, x);
      if x in folded {
        var i :| 0 <= i < |all| && InRun(ip, all, tag, all[i]) && x in ids[i];
        assert RunHas(ip, all, ids, tag, x, i);
      }
    }
  }

  /** Outputs can stand in for the raw sessions behind the entries of their runs. */
  lemma OutputsStand(ip: Strip, out: seq<Session>, tags: seq<Tag>, all: seq<Session>, ids: seq<set<string>>, ended: Ended)
    requires Consolidates(ip, out, tags, all) && StandAll(ip, all, ids, ended) && Disjoint(ids)
    ensures StandAll(ip, out, FoldedAll(ip, all, ids, tags), ended)
  {
    forall j | 0 <= j < |out|
      ensures Stands(ip, out[j], Folded(ip, all, ids, tags[j]), ended)
    {
      OutputStands(ip, out, tags, all, ids, ended, j);
    }
  }

  lemma OutputStands(ip: Strip, out: seq<Session>, tags: seq<Tag>, all: seq<Session>, ids: seq<set<string>>, ended: Ended, j: nat)
    requires Consolidates(ip, out, tags, all) && StandAll(ip, all, ids, ended) && Disjoint(ids) && j < |out|
    ensures Stands(ip, out[j], Folded(ip, all, ids, tags[j]), ended)
  {
    var run, runIds := Interchange.WholeRun(ip, all, tags[j]), RunIds(ip, all, ids, tags[j], |all|);
    RunStands(ip, all, ids, ended, tags[j], |all|);
    var raws := StandWhole(ip, run, runIds, ended);
    RunIdsAreFolded(ip, all, ids, tags[j]);
    Interchange.OutputStandsIn(ip, out, tags, all, j);
    Interchange.Transitive(ip, [out[j]], run, raws);
  }

  /** And they consolidate all the raw sessions behind the entries. */
  lemma OutputsConsolidateRaws(ip: Strip, out: seq<Session>, tags: seq<Tag>, all: seq<Session>, ids: seq<set<string>>, ended: Ended)
    returns (raws: seq<Session>)
    requires Consolidated(ip, out, tags, all) && StandAll(ip, all, ids, ended) && Disjoint(ids)
    ensures RawsOf(raws, Union(ids), ended) && Consolidated(ip, out, tags, raws)
  {
    raws := StandWhole(ip, all, ids, ended);
    assert all + [] == all && raws + [] == raws;
    assert Consolidated(ip, out, tags, all + []) <==> Consolidated(ip, out, tags, raws + []);
  }
}
