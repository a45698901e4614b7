/** When one set of sessions can stand in for another: consolidating either together with anything
    else gives the same result. A merged entry can stand in for the raw sessions behind it. */
module Interchange {
  import opened Consolidation
  import Consolidator

  ghost predicate Interchangeable(ip: Strip, a: seq<Session>, b: seq<Session>) {
    forall c, out, tags {:trigger Consolidated(ip, out, tags, a + c)} {:trigger Consolidated(ip, out, tags, b + c)} ::
      Consolidated(ip, out, tags, a + c) <==> Consolidated(ip, out, tags, b + c)
  }

  // ---------------------------------------------------------------- order does not matter

  lemma PermutedMember(ip: Strip, a: seq<Session>, b: seq<Session>, k: Key, x: Session)
    requires multiset(a) == multiset(b)
    ensures IsMember(ip, a, k, x) <==> IsMember(ip, b, k, x)
  {
    assert x in a <==> x in multiset(a);
    assert x in b <==> x in multiset(b);
  }

  lemma PermutedRuns(ip: Strip, a: seq<Session>, b: seq<Session>, k: Key, r: int)
    requires multiset(a) == multiset(b)
    ensures Head(ip, a, k, r) <==> Head(ip, b, k, r)
    ensures RunTimes(ip, a, k, r) == RunTimes(ip, b, k, r)
  {
    forall x
      ensures IsMember(ip, a, k, x) <==> IsMember(ip, b, k, x)
    {
      PermutedMember(ip, a, b, k, x);
    }
    assert forall c :: Cut(ip, a, k, c) <==> Cut(ip, b, k, c);
    assert forall t :: Unbroken(ip, a, k, r, t) <==> Unbroken(ip, b, k, r, t);
  }

  lemma PermutedReport(ip: Strip, a: seq<Session>, b: seq<Session>, k: Key, r: int, o: Session)
    requires multiset(a) == multiset(b) && IsRunOf(ip, a, k, r, o)
    ensures IsRunOf(ip, b, k, r, o)
  {
    PermutedRuns(ip, a, b, k, r);
    var times := RunTimes(ip, a, k, r);
    forall f
      ensures Sum(ip, a, f, k, times, |a|) == Sum(ip, b, f, k, times, |b|)
    {
      Consolidator.SumPermuted(ip, a, b, f, k, times);
    }
    forall x
      ensures Selected(ip, a, k, times, x) <==> Selected(ip, b, k, times, x)
    {
      PermutedMember(ip, a, b, k, x);
    }
    Consolidator.SameSelection(ip, a, b, k, times, o);
  }

  lemma PermutedOneWay(ip: Strip, a: seq<Session>, b: seq<Session>, out: seq<Session>, tags: seq<Tag>)
    requires multiset(a) == multiset(b) && Consolidated(ip, out, tags, a)
    ensures Consolidated(ip, out, tags, b)
  {
    forall i {:trigger tags[i]} | 0 <= i < |tags|
      ensures Head(ip, b, tags[i].key, tags[i].start) && IsRunOf(ip, b, tags[i].key, tags[i].start, out[i])
    {
      PermutedRuns(ip, a, b, tags[i].key, tags[i].start);
      PermutedReport(ip, a, b, tags[i].key, tags[i].start, out[i]);
    }
    forall k, r | Head(ip, b, k, r)
      ensures Tag(k, r) in tags
    {
      PermutedRuns(ip, a, b, k, r);
    }
  }

  /** Consolidation does not depend on the order of the sessions. */
  lemma Permuted(ip: Strip, a: seq<Session>, b: seq<Session>, out: seq<Session>, tags: seq<Tag>)
    requires multiset(a) == multiset(b)
    ensures Consolidated(ip, out, tags, a) <==> Consolidated(ip, out, tags, b)
  {
    if Consolidated(ip, out, tags, a) {
      PermutedOneWay(ip, a, b, out, tags);
    }
    if Consolidated(ip, out, tags, b) {
      PermutedOneWay(ip, b, a, out, tags);
    }
  }

  // ---------------------------------------------------------------- standing in

  lemma Transitive(ip: Strip, a: seq<Session>, b: seq<Session>, c: seq<Session>)
    requires Interchangeable(ip, a, b) && Interchangeable(ip, b, c)
    ensures Interchangeable(ip, a, c)
  {
    forall d, out, tags
      ensures Consolidated(ip, out, tags, a + d) <==> Consolidated(ip, out, tags, c + d)
    {
      assert Consolidated(ip, out, tags, a + d) <==> Consolidated(ip, out, tags, b + d);
    }
  }

  /** Parts can be replaced one by one. */
  lemma Together(ip: Strip, a1: seq<Session>, b1: seq<Session>, a2: seq<Session>, b2: seq<Session>)
    requires Interchangeable(ip, a1, b1) && Interchangeable(ip, a2, b2)
    ensures Interchangeable(ip, a1 + a2, b1 + b2)
  {
    forall c, out, tags
      ensures Consolidated(ip, out, tags, a1 + a2 + c) <==> Consolidated(ip, out, tags, b1 + b2 + c)
    {
      ReplaceBoth(ip, a1, b1, a2, b2, c, out, tags);
    }
  }

  lemma ReplaceBoth(ip: Strip, a1: seq<Session>, b1: seq<Session>, a2: seq<Session>, b2: seq<Session>,
                    c: seq<Session>, out: seq<Session>, tags: seq<Tag>)
    requires Interchangeable(ip, a1, b1) && Interchangeable(ip, a2, b2)
    ensures Consolidated(ip, out, tags, a1 + a2 + c) <==> Consolidated(ip, out, tags, b1 + b2 + c)
  {
    assert a1 + a2 + c == a1 + (a2 + c);
    assert Consolidated(ip, out, tags, a1 + (a2 + c)) <==> Consolidated(ip, out, tags, b1 + (a2 + c));
    Permuted(ip, b1 + (a2 + c), a2 + (b1 + c), out, tags);
    assert Consolidated(ip, out, tags, a2 + (b1 + c)) <==> Consolidated(ip, out, tags, b2 + (b1 + c));
    Permuted(ip, b2 + (b1 + c), b1 + b2 + c, out, tags);
  }

  /** Outputs can stand in for what they consolidate. */
  lemma OutputsStandIn(ip: Strip, out: seq<Session>, tags: seq<Tag>, all: seq<Session>)
    requires Consolidates(ip, out, tags, all)
    ensures Interchangeable(ip, out, all)
  {
    forall c, later, laterTags
      ensures Consolidated(ip, later, laterTags, out + c) <==> Consolidated(ip, later, laterTags, all + c)
    {
      RetryIsHarmless(ip, out, tags, all, c, later, laterTags);
    }
  }

  // ---------------------------------------------------------------- one output

  /** The sessions of one run among the first n, in order. */
  ghost function RunEntries(ip: Strip, all: seq<Session>, tag: Tag, n: nat): (run: seq<Session>)
    requires n <= |all|
  {
    if n == 0 then []
    else if InRun(ip, all, tag, all[n - 1]) then RunEntries(ip, all, tag, n - 1) + [all[n - 1]]
    else RunEntries(ip, all, tag, n - 1)
  }

  lemma {:induction false} RunEntriesAre(ip: Strip, all: seq<Session>, tag: Tag, n: nat, x: Session)
    requires n <= |all|
    ensures x in RunEntries(ip, all, tag, n) <==> x in all[..n] && InRun(ip, all, tag, x)
  {
    if n > 0 {
      RunEntriesAre(ip, all, tag, n - 1, x);
      assert all[..n] == all[..n - 1] + [all[n - 1]];
    }
  }

  lemma {:induction false} RunEntriesSum(ip: Strip, all: seq<Session>, tag: Tag, f: Field, times: iset<int>, n: nat)
    requires n <= |all|
    requires forall x :: InRun(ip, all, tag, x) ==> x.started in times
    ensures var run := RunEntries(ip, all, tag, n);
            Sum(ip, run, f, tag.key, times, |run|) == Sum(ip, all, f, tag.key, RunTimes(ip, all, tag.key, tag.start), n)
  {
    if n > 0 {
      RunEntriesSum(ip, all, tag, f, times, n - 1);
      if InRun(ip, all, tag, all[n - 1]) {
        Consolidator.SumLast(ip, RunEntries(ip, all, tag, n - 1), all[n - 1], f, tag.key, times);
      }
    }
  }

  ghost function WholeRun(ip: Strip, all: seq<Session>, tag: Tag): (run: seq<Session>)
    ensures forall x :: x in run <==> x in all && InRun(ip, all, tag, x)
  {
    WholeRunIs(ip, all, tag);
    RunEntries(ip, all, tag, |all|)
  }

  lemma WholeRunIs(ip: Strip, all: seq<Session>, tag: Tag)
    ensures forall x :: x in RunEntries(ip, all, tag, |all|) <==> x in all && InRun(ip, all, tag, x)
  {
    var run := RunEntries(ip, all, tag, |all|);
    assert all[..|all|] == all;
    forall x
      ensures x in run <==> x in all && InRun(ip, all, tag, x)
    {
      RunEntriesAre(ip, all, tag, |all|, x);
    }
  }

  /** On its own a run is as unbroken as among all sessions. */
  lemma NoCutAlone(ip: Strip, all: seq<Session>, tag: Tag, t: int, c: int)
    requires Cut(ip, all, tag.key, tag.start) && Unbroken(ip, all, tag.key, tag.start, t) && tag.start < c <= t
    ensures !Cut(ip, WholeRun(ip, all, tag), tag.key, c)
  {
    var run := WholeRun(ip, all, tag);
    assert !Cut(ip, all, tag.key, c);
    var y :| IsMember(ip, all, tag.key, y) && y.started < c && EndOf(y) + GAP >= c;
    assert tag.start <= y.started;
    assert Unbroken(ip, all, tag.key, tag.start, y.started);
    assert IsMember(ip, run, tag.key, y);
  }

  lemma AloneTimes(ip: Strip, all: seq<Session>, tag: Tag, x: Session)
    requires Cut(ip, all, tag.key, tag.start) && InRun(ip, all, tag, x)
    ensures Unbroken(ip, WholeRun(ip, all, tag), tag.key, tag.start, x.started)
  {
    forall c | tag.start < c <= x.started
      ensures !Cut(ip, WholeRun(ip, all, tag), tag.key, c)
    {
      NoCutAlone(ip, all, tag, x.started, c);
    }
  }

  lemma AloneSelected(ip: Strip, all: seq<Session>, tag: Tag, x: Session)
    requires Cut(ip, all, tag.key, tag.start)
    ensures Selected(ip, WholeRun(ip, all, tag), tag.key, RunTimes(ip, WholeRun(ip, all, tag), tag.key, tag.start), x) <==>
            Selected(ip, all, tag.key, RunTimes(ip, all, tag.key, tag.start), x)
  {
    if InRun(ip, all, tag, x) {
      AloneTimes(ip, all, tag, x);
    }
  }

  lemma AloneSum(ip: Strip, all: seq<Session>, tag: Tag, f: Field)
    requires Cut(ip, all, tag.key, tag.start)
    ensures var run := WholeRun(ip, all, tag);
            Sum(ip, all, f, tag.key, RunTimes(ip, all, tag.key, tag.start), |all|) ==
            Sum(ip, run, f, tag.key, RunTimes(ip, run, tag.key, tag.start), |run|)
  {
    var times := RunTimes(ip, WholeRun(ip, all, tag), tag.key, tag.start);
    forall x | InRun(ip, all, tag, x)
      ensures x.started in times
    {
      AloneTimes(ip, all, tag, x);
    }
    RunEntriesSum(ip, all, tag, f, times, |all|);
  }

  /** On its own a run is reported as it is among all sessions. */
  lemma AloneReport(ip: Strip, all: seq<Session>, tag: Tag, o: Session)
    requires Cut(ip, all, tag.key, tag.start) && IsRunOf(ip, all, tag.key, tag.start, o)
    ensures IsRunOf(ip, WholeRun(ip, all, tag), tag.key, tag.start, o)
  {
    var run, k := WholeRun(ip, all, tag), tag.key;
    var times, alone := RunTimes(ip, all, k, tag.start), RunTimes(ip, run, k, tag.start);
    AloneSum(ip, all, tag, Tx);
    AloneSum(ip, all, tag, Rx);
    forall x
      ensures Selected(ip, run, k, alone, x) <==> Selected(ip, all, k, times, x)
    {
      AloneSelected(ip, all, tag, x);
    }
    assert forall a :: Uniform(ip, run, k, alone, a) <==> Uniform(ip, all, k, times, a);
    assert Latest(ip, run, k, alone, EndOf(o));
  }

  lemma AloneHead(ip: Strip, all: seq<Session>, tag: Tag)
    requires Head(ip, all, tag.key, tag.start)
    ensures Head(ip, WholeRun(ip, all, tag), tag.key, tag.start)
    ensures forall k, r :: Head(ip, WholeRun(ip, all, tag), k, r) ==> Tag(k, r) == tag
  {
    var run := WholeRun(ip, all, tag);
    var x :| IsMember(ip, all, tag.key, x) && x.started == tag.start;
    assert IsMember(ip, run, tag.key, x);
    forall k, r | Head(ip, run, k, r)
      ensures Tag(k, r) == tag
    {
      var y :| IsMember(ip, run, k, y) && y.started == r;
      if tag.start < r {
        NoCutAlone(ip, all, tag, r, r);
      }
    }
  }

  /** So an output can stand in for the sessions of its run. */
  lemma OutputStandsIn(ip: Strip, out: seq<Session>, tags: seq<Tag>, all: seq<Session>, j: nat)
    requires Consolidates(ip, out, tags, all) && j < |out|
    ensures Interchangeable(ip, [out[j]], WholeRun(ip, all, tags[j]))
  {
    var run := WholeRun(ip, all, tags[j]);
    AloneHead(ip, all, tags[j]);
    AloneReport(ip, all, tags[j], out[j]);
    assert [tags[j]][0] == tags[j];
    assert Consolidated(ip, [out[j]], [tags[j]], run);
    forall i | 0 <= i < |run|
      ensures WellTimed(run[i]) && Stable(ip, run[i])
    {
      assert run[i] in all;
    }
    OutputsStandIn(ip, [out[j]], [tags[j]], run);
  }

  /** Outputs of stable addresses have stable addresses. */
  lemma OutputsStable(ip: Strip, out: seq<Session>, tags: seq<Tag>, all: seq<Session>)
    requires Consolidates(ip, out, tags, all)
    ensures AllStable(ip, out)
  {
    forall i | 0 <= i < |out|
      ensures Stable(ip, out[i])
    {
      var k, r := tags[i].key, tags[i].start;
      var x :| IsMember(ip, all, k, x) && x.started == r;
      assert Selected(ip, all, k, RunTimes(ip, all, k, r), x);
      assert Stable(ip, x);
    }
  }
}
