/** What consolidating access sessions means, without any sorting or merging.

    Sessions with the same key (source address without port, destination, protocol, resource)
    belong together. A time c is a cut when every session that started before c had ended more
    than the gap threshold before c. A run begins at a start time that is a cut and extends to
    the next cut; consolidation reports one session per run. The central result is that a
    failed send is harmless: consolidating consolidated sessions again, together with new ones,
    gives the runs of the raw sessions.
 */
module Consolidation {
  const ZERO_TIME := 0
  const GAP := 5_000_000_000   // nanoseconds

  datatype Session = Session(
    id: string, resourceId: int, sourceAddr: string, destAddr: string, protocol: string,
    started: int, ended: int, tx: int, rx: int, count: int)

  datatype Key = Key(sourceIp: string, destAddr: string, protocol: string, resourceId: int)

  /** A way of taking the port off an address. */
  type Strip = string -> string

  function KeyOf(ip: Strip, s: Session): Key {
    Key(ip(s.sourceAddr), s.destAddr, s.protocol, s.resourceId)
  }

  /** The end of a session; one that has not ended counts as ending when it started. */
  function EndOf(s: Session): int {
    if s.ended == ZERO_TIME then s.started else s.ended
  }

  /** Clock readings are later than the zero time and do not run backwards. */
  predicate WellTimed(s: Session) {
    s.started > ZERO_TIME && EndOf(s) >= s.started
  }

  lemma WellTimedIff(s: Session)
    ensures WellTimed(s) <==> s.started > 0 && (s.ended == 0 || s.ended >= s.started)
  {
  }

  predicate AllWellTimed(all: seq<Session>) {
    forall i :: 0 <= i < |all| ==> WellTimed(all[i])
  }

  // ---------------------------------------------------------------- cuts and runs

  predicate IsMember(ip: Strip, all: seq<Session>, k: Key, x: Session) {
    x in all && KeyOf(ip, x) == k
  }

  /** Everything of this key that started before c was over long before c. */
  ghost predicate Cut(ip: Strip, all: seq<Session>, k: Key, c: int) {
    forall x {:trigger IsMember(ip, all, k, x)} :: IsMember(ip, all, k, x) && x.started < c ==> EndOf(x) + GAP < c
  }

  /** There is no cut after r and up to t. */
  ghost predicate Unbroken(ip: Strip, all: seq<Session>, k: Key, r: int, t: int) {
    r <= t && forall c :: r < c <= t ==> !Cut(ip, all, k, c)
  }

  /** The times that belong to the run beginning at r: from r up to the next cut. */
  ghost function RunTimes(ip: Strip, all: seq<Session>, k: Key, r: int): (times: iset<int>) {
    iset t | Unbroken(ip, all, k, r, t)
  }

  /** A run begins at r. */
  ghost predicate Head(ip: Strip, all: seq<Session>, k: Key, r: int) {
    Cut(ip, all, k, r) && exists x {:trigger IsMember(ip, all, k, x)} :: IsMember(ip, all, k, x) && x.started == r
  }

  /** The key's sessions that started at one of the given times. */
  predicate Selected(ip: Strip, all: seq<Session>, k: Key, times: iset<int>, x: Session) {
    IsMember(ip, all, k, x) && x.started in times
  }

  /** What can be added up over sessions: bytes, the sessions themselves, or the connections behind
      them (a count of 0 or 1 stands for a single one). */
  datatype Field = Tx | Rx | Each | Raw

  function Weight(s: Session, f: Field): int {
    match f
    case Tx => s.tx
    case Rx => s.rx
    case Each => 1
    case Raw => if s.count > 1 then s.count else 1
  }

  predicate IsBytes(f: Field) {
    f.Tx? || f.Rx?
  }

  /** Total over the selected ones among the first n. */
  function Sum(ip: Strip, all: seq<Session>, f: Field, k: Key, times: iset<int>, n: nat): int
    requires n <= |all|
  {
    if n == 0 then 0
    else Sum(ip, all, f, k, times, n - 1)
         + (if KeyOf(ip, all[n - 1]) == k && all[n - 1].started in times then Weight(all[n - 1], f) else 0)
  }

  ghost predicate Latest(ip: Strip, all: seq<Session>, k: Key, times: iset<int>, e: int) {
    && (exists x {:trigger Selected(ip, all, k, times, x)} :: Selected(ip, all, k, times, x) && EndOf(x) == e)
    && (forall x {:trigger Selected(ip, all, k, times, x)} :: Selected(ip, all, k, times, x) ==> EndOf(x) <= e)
  }

  /** All of them came from the address a. */
  ghost predicate Uniform(ip: Strip, all: seq<Session>, k: Key, times: iset<int>, a: string) {
    forall x {:trigger Selected(ip, all, k, times, x)} :: Selected(ip, all, k, times, x) ==> x.sourceAddr == a
  }

  /** Their common address if they have one, otherwise just the IP. */
  ghost predicate SourceOk(ip: Strip, all: seq<Session>, k: Key, times: iset<int>, a: string) {
    Uniform(ip, all, k, times, a) || (a == k.sourceIp && forall b :: !Uniform(ip, all, k, times, b))
  }

  /** The session o reports exactly the sessions of key k that started at the given times. */
  ghost predicate Reports(ip: Strip, all: seq<Session>, k: Key, times: iset<int>, o: Session) {
    && o.destAddr == k.destAddr && o.protocol == k.protocol && o.resourceId == k.resourceId
    && Latest(ip, all, k, times, EndOf(o))
    && o.tx == Sum(ip, all, Tx, k, times, |all|)
    && o.rx == Sum(ip, all, Rx, k, times, |all|)
    && SourceOk(ip, all, k, times, o.sourceAddr)
  }

  /** The session o reports the run of key k that begins at r. */
  ghost predicate IsRunOf(ip: Strip, all: seq<Session>, k: Key, r: int, o: Session) {
    o.started == r && Reports(ip, all, k, RunTimes(ip, all, k, r), o)
  }

  datatype Tag = Tag(key: Key, start: int)

  /** One output per run and no other; `tags` says which output is which run. */
  ghost predicate Consolidated(ip: Strip, out: seq<Session>, tags: seq<Tag>, all: seq<Session>) {
    && |out| == |tags|
    && (forall i, j :: 0 <= i < j < |tags| ==> tags[i] != tags[j])
    && (forall i {:trigger tags[i]} :: 0 <= i < |tags| ==>
          Head(ip, all, tags[i].key, tags[i].start) && IsRunOf(ip, all, tags[i].key, tags[i].start, out[i]))
    && (forall k, r {:trigger Head(ip, all, k, r)} :: Head(ip, all, k, r) ==> Tag(k, r) in tags)
  }

  /** The outputs report the runs of the sessions, one each. */
  ghost predicate IsConsolidation(ip: Strip, out: seq<Session>, all: seq<Session>) {
    exists tags :: Consolidated(ip, out, tags, all)
  }

  function GroupSize(ip: Strip, all: seq<Session>, k: Key, n: nat): nat
    requires n <= |all|
  {
    if n == 0 then 0 else GroupSize(ip, all, k, n - 1) + (if KeyOf(ip, all[n - 1]) == k then 1 else 0)
  }

  /** The session belongs to the run named by the tag. */
  ghost predicate InRun(ip: Strip, all: seq<Session>, tag: Tag, x: Session) {
    KeyOf(ip, x) == tag.key && Unbroken(ip, all, tag.key, tag.start, x.started)
  }

  /** The output counts the sessions of its run. */
  ghost predicate CountsRun(ip: Strip, all: seq<Session>, k: Key, o: Session) {
    o.count == Sum(ip, all, Each, k, RunTimes(ip, all, k, o.started), |all|)
  }

  /** Every output does, except that a session alone in its group is passed through. */
  ghost predicate CountsRuns(ip: Strip, out: seq<Session>, tags: seq<Tag>, all: seq<Session>) {
    && |out| == |tags|
    && (forall i {:trigger tags[i]} :: 0 <= i < |tags| ==>
          if GroupSize(ip, all, tags[i].key, |all|) >= 2 then CountsRun(ip, all, tags[i].key, out[i]) else out[i] in all)
  }

  /** The output has the id of a session with which its run begins. */
  ghost predicate NamesRun(ip: Strip, all: seq<Session>, k: Key, o: Session) {
    exists x {:trigger IsMember(ip, all, k, x)} :: IsMember(ip, all, k, x) && x.started == o.started && x.id == o.id
  }

  ghost predicate NamesRuns(ip: Strip, out: seq<Session>, tags: seq<Tag>, all: seq<Session>) {
    |out| == |tags| && forall i {:trigger tags[i]} :: 0 <= i < |tags| ==> NamesRun(ip, all, tags[i].key, out[i])
  }

  /** As above, with counts and ids. */
  ghost predicate IsCountedConsolidation(ip: Strip, out: seq<Session>, all: seq<Session>) {
    exists tags :: Consolidated(ip, out, tags, all) && CountsRuns(ip, out, tags, all) && NamesRuns(ip, out, tags, all)
  }

  // ---------------------------------------------------------------- runs partition the sessions

  /** Every session lies in the run of some head. */
  lemma {:induction false} HasHead(ip: Strip, all: seq<Session>, k: Key, x: Session) returns (r: int)
    requires AllWellTimed(all) && IsMember(ip, all, k, x)
    ensures Head(ip, all, k, r) && r <= x.started && x.started in RunTimes(ip, all, k, r)
    decreases x.started
  {
    assert WellTimed(x);
    if Cut(ip, all, k, x.started) {
      r := x.started;
    } else {
      var y :| IsMember(ip, all, k, y) && y.started < x.started && EndOf(y) + GAP >= x.started;
      assert WellTimed(y);
      r := HasHead(ip, all, k, y);
      forall c | r < c <= x.started
        ensures !Cut(ip, all, k, c)
      {
        if c > y.started {
          assert IsMember(ip, all, k, y) && y.started < c;
        }
      }
    }
  }

  /** And in no other. */
  lemma RunsDisjoint(ip: Strip, all: seq<Session>, k: Key, r1: int, r2: int, t: int)
    requires Cut(ip, all, k, r1) && Cut(ip, all, k, r2) && r1 != r2
    ensures !(Unbroken(ip, all, k, r1, t) && Unbroken(ip, all, k, r2, t))
  {
  }

  /** Two runs of a key are further apart than the threshold: they could not be merged. */
  lemma RunsApart(ip: Strip, all: seq<Session>, k: Key, r1: int, o1: Session, r2: int)
    requires IsRunOf(ip, all, k, r1, o1) && Cut(ip, all, k, r2) && r1 < r2
    ensures EndOf(o1) + GAP < r2
  {
    var x :| Selected(ip, all, k, RunTimes(ip, all, k, r1), x) && EndOf(x) == EndOf(o1);
    assert x.started < r2;
  }

  /** Within a run there is no such gap: whatever starts after its head starts within the
      threshold of the end of an earlier member of the same run. */
  lemma RunsConnected(ip: Strip, all: seq<Session>, k: Key, r: int, x: Session) returns (y: Session)
    requires Selected(ip, all, k, RunTimes(ip, all, k, r), x) && Head(ip, all, k, r) && r < x.started
    ensures Selected(ip, all, k, RunTimes(ip, all, k, r), y) && y.started < x.started <= EndOf(y) + GAP
  {
    assert !Cut(ip, all, k, x.started);
    y :| IsMember(ip, all, k, y) && y.started < x.started && EndOf(y) + GAP >= x.started;
    assert y.started < r ==> EndOf(y) + GAP < r;
  }

  // ---------------------------------------------------------------- sums

  lemma {:induction false} SumPrefix(ip: Strip, a: seq<Session>, b: seq<Session>, f: Field, k: Key, times: iset<int>, n: nat)
    requires n <= |a|
    ensures Sum(ip, a + b, f, k, times, n) == Sum(ip, a, f, k, times, n)
  {
    if n > 0 {
      SumPrefix(ip, a, b, f, k, times, n - 1);
    }
  }

  lemma {:induction false} SumConcat(ip: Strip, a: seq<Session>, b: seq<Session>, f: Field, k: Key, times: iset<int>, m: nat)
    requires m <= |b|
    ensures Sum(ip, a + b, f, k, times, |a| + m) == Sum(ip, a, f, k, times, |a|) + Sum(ip, b, f, k, times, m)
  {
    if m == 0 {
      SumPrefix(ip, a, b, f, k, times, |a|);
    } else {
      SumConcat(ip, a, b, f, k, times, m - 1);
      assert (a + b)[|a| + m - 1] == b[m - 1];
    }
  }

  /** Disjoint sets of times add up. */
  lemma {:induction false} SumUnion(ip: Strip, all: seq<Session>, f: Field, k: Key, t1: iset<int>, t2: iset<int>, n: nat)
    requires n <= |all| && t1 !! t2
    ensures Sum(ip, all, f, k, t1 + t2, n) == Sum(ip, all, f, k, t1, n) + Sum(ip, all, f, k, t2, n)
  {
    if n > 0 {
      SumUnion(ip, all, f, k, t1, t2, n - 1);
    }
  }

  /** Only the times at which members of the key start matter. */
  lemma {:induction false} SumSame(ip: Strip, all: seq<Session>, f: Field, k: Key, t1: iset<int>, t2: iset<int>, n: nat)
    requires n <= |all|
    requires forall x :: IsMember(ip, all, k, x) ==> (x.started in t1 <==> x.started in t2)
    ensures Sum(ip, all, f, k, t1, n) == Sum(ip, all, f, k, t2, n)
  {
    if n > 0 {
      SumSame(ip, all, f, k, t1, t2, n - 1);
      assert KeyOf(ip, all[n - 1]) == k ==> IsMember(ip, all, k, all[n - 1]);
    }
  }

  // ---------------------------------------------------------------- consolidating twice

  /** Stripping the port of an address that has none changes nothing. */
  predicate Stable(ip: Strip, s: Session) {
    ip(ip(s.sourceAddr)) == ip(s.sourceAddr)
  }

  predicate AllStable(ip: Strip, all: seq<Session>) {
    forall i :: 0 <= i < |all| ==> Stable(ip, all[i])
  }

  /** The outputs of consolidating sessions whose addresses can be stripped only once. */
  ghost predicate Consolidates(ip: Strip, out: seq<Session>, tags: seq<Tag>, all: seq<Session>) {
    && Consolidated(ip, out, tags, all)
    && AllWellTimed(all)
    && AllStable(ip, all)
  }

  /** Consolidation keeps the key. */
  lemma OutputKey(ip: Strip, all: seq<Session>, k: Key, r: int, o: Session)
    requires AllStable(ip, all)
    requires Head(ip, all, k, r) && IsRunOf(ip, all, k, r, o)
    ensures KeyOf(ip, o) == k
  {
    var x :| IsMember(ip, all, k, x) && x.started == r;
    assert Selected(ip, all, k, RunTimes(ip, all, k, r), x);
    assert Stable(ip, x);
  }

  lemma OutputIsRun(ip: Strip, out: seq<Session>, tags: seq<Tag>, all: seq<Session>, k: Key, i: nat)
    requires Consolidates(ip, out, tags, all) && i < |out| && KeyOf(ip, out[i]) == k
    ensures tags[i] == Tag(k, out[i].started)
    ensures Head(ip, all, k, out[i].started) && IsRunOf(ip, all, k, out[i].started, out[i])
  {
    OutputKey(ip, all, tags[i].key, tags[i].start, out[i]);
  }

  lemma HeadHasOutput(ip: Strip, out: seq<Session>, tags: seq<Tag>, all: seq<Session>, k: Key, r: int) returns (i: nat)
    requires Consolidates(ip, out, tags, all) && Head(ip, all, k, r)
    ensures i < |out| && KeyOf(ip, out[i]) == k && out[i].started == r && IsRunOf(ip, all, k, r, out[i])
  {
    assert Tag(k, r) in tags;
    i :| 0 <= i < |tags| && tags[i] == Tag(k, r);
    OutputKey(ip, all, k, r, out[i]);
  }

  /** The output that reports a given session. */
  lemma OutputOf(ip: Strip, out: seq<Session>, tags: seq<Tag>, all: seq<Session>, k: Key, x: Session) returns (o: Session)
    requires Consolidates(ip, out, tags, all) && IsMember(ip, all, k, x)
    ensures IsMember(ip, out, k, o) && o.started <= x.started && IsRunOf(ip, all, k, o.started, o)
    ensures x.started in RunTimes(ip, all, k, o.started)
    ensures EndOf(x) <= EndOf(o)
  {
    var r := HasHead(ip, all, k, x);
    var i := HeadHasOutput(ip, out, tags, all, k, r);
    o := out[i];
    assert Selected(ip, all, k, RunTimes(ip, all, k, r), x);
  }

  /** Outputs leave the cuts where they were. */
  lemma CutsKept(ip: Strip, out: seq<Session>, tags: seq<Tag>, all: seq<Session>, k: Key, c: int)
    requires Consolidates(ip, out, tags, all)
    ensures Cut(ip, out, k, c) <==> Cut(ip, all, k, c)
  {
    if Cut(ip, out, k, c) {
      forall x | IsMember(ip, all, k, x) && x.started < c
        ensures EndOf(x) + GAP < c
      {
        var o := OutputOf(ip, out, tags, all, k, x);
      }
    }
    if Cut(ip, all, k, c) {
      forall o | IsMember(ip, out, k, o) && o.started < c
        ensures EndOf(o) + GAP < c
      {
        var i :| 0 <= i < |out| && out[i] == o;
        OutputIsRun(ip, out, tags, all, k, i);
        RunsApart(ip, all, k, o.started, o, c);
      }
    }
  }

  lemma CutConcat(ip: Strip, a: seq<Session>, b: seq<Session>, k: Key, c: int)
    ensures Cut(ip, a + b, k, c) <==> Cut(ip, a, k, c) && Cut(ip, b, k, c)
  {
    assert forall x :: IsMember(ip, a + b, k, x) <==> IsMember(ip, a, k, x) || IsMember(ip, b, k, x);
  }

  /** A set of times that contains a run of the key entirely or not at all. */
  ghost predicate Respects(ip: Strip, all: seq<Session>, k: Key, times: iset<int>) {
    forall r, t :: Head(ip, all, k, r) && Unbroken(ip, all, k, r, t) ==> (t in times <==> r in times)
  }

  /** Adding sessions can only join runs, never split them. */
  lemma LargerRunsRespect(ip: Strip, a: seq<Session>, b: seq<Session>, k: Key, r: int)
    requires Cut(ip, a + b, k, r)
    ensures Respects(ip, a, k, RunTimes(ip, a + b, k, r))
  {
    forall q, t | Head(ip, a, k, q) && Unbroken(ip, a, k, q, t)
      ensures t in RunTimes(ip, a + b, k, r) <==> q in RunTimes(ip, a + b, k, r)
    {
      CutConcat(ip, a, b, k, r);
      if Unbroken(ip, a + b, k, r, q) {
        forall c | r < c <= t
          ensures !Cut(ip, a + b, k, c)
        {
          CutConcat(ip, a, b, k, c);
        }
      }
    }
  }

  // ------------------------------------------------ what a set of runs reports, before and after

  /** The output that reports a selected session is selected. */
  lemma SelectedOutput(ip: Strip, out: seq<Session>, tags: seq<Tag>, all: seq<Session>, k: Key, times: iset<int>, x: Session)
    returns (o: Session)
    requires Consolidates(ip, out, tags, all) && Respects(ip, all, k, times) && Selected(ip, all, k, times, x)
    ensures Selected(ip, out, k, times, o) && EndOf(x) <= EndOf(o)
    ensures o.sourceAddr == x.sourceAddr || o.sourceAddr == k.sourceIp
  {
    o := OutputOf(ip, out, tags, all, k, x);
    assert Selected(ip, all, k, RunTimes(ip, all, k, o.started), x);
    var i :| 0 <= i < |out| && out[i] == o;
    OutputIsRun(ip, out, tags, all, k, i);
  }

  /** A session that ends when the output reporting it does. */
  lemma LatestMember(ip: Strip, out: seq<Session>, tags: seq<Tag>, all: seq<Session>, k: Key, times: iset<int>, o: Session)
    returns (x: Session)
    requires Consolidates(ip, out, tags, all) && Respects(ip, all, k, times) && Selected(ip, out, k, times, o)
    ensures Selected(ip, all, k, times, x) && EndOf(x) == EndOf(o)
  {
    var i :| 0 <= i < |out| && out[i] == o;
    OutputIsRun(ip, out, tags, all, k, i);
    x :| Selected(ip, all, k, RunTimes(ip, all, k, o.started), x) && EndOf(x) == EndOf(o);
  }

  lemma LatestForward(ip: Strip, out: seq<Session>, tags: seq<Tag>, all: seq<Session>, b: seq<Session>, k: Key, times: iset<int>, e: int)
    requires Consolidates(ip, out, tags, all) && Respects(ip, all, k, times)
    requires Latest(ip, all + b, k, times, e)
    ensures Latest(ip, out + b, k, times, e)
  {
    forall y | Selected(ip, out + b, k, times, y)
      ensures EndOf(y) <= e
    {
      if y in b {
        assert Selected(ip, all + b, k, times, y);
      } else {
        var x := LatestMember(ip, out, tags, all, k, times, y);
        assert Selected(ip, all + b, k, times, x);
      }
    }
    var x :| Selected(ip, all + b, k, times, x) && EndOf(x) == e;
    if x in b {
      assert Selected(ip, out + b, k, times, x);
    } else {
      var o := SelectedOutput(ip, out, tags, all, k, times, x);
      assert Selected(ip, out + b, k, times, o);
    }
  }

  lemma LatestBackward(ip: Strip, out: seq<Session>, tags: seq<Tag>, all: seq<Session>, b: seq<Session>, k: Key, times: iset<int>, e: int)
    requires Consolidates(ip, out, tags, all) && Respects(ip, all, k, times)
    requires Latest(ip, out + b, k, times, e)
    ensures Latest(ip, all + b, k, times, e)
  {
    forall x | Selected(ip, all + b, k, times, x)
      ensures EndOf(x) <= e
    {
      if x in b {
        assert Selected(ip, out + b, k, times, x);
      } else {
        var o := SelectedOutput(ip, out, tags, all, k, times, x);
        assert Selected(ip, out + b, k, times, o);
      }
    }
    var y :| Selected(ip, out + b, k, times, y) && EndOf(y) == e;
    if y in b {
      assert Selected(ip, all + b, k, times, y);
    } else {
      var x := LatestMember(ip, out, tags, all, k, times, y);
      assert Selected(ip, all + b, k, times, x);
    }
  }

  lemma UniformOutput(ip: Strip, out: seq<Session>, tags: seq<Tag>, all: seq<Session>, k: Key, times: iset<int>, a: string, o: Session)
    requires Consolidates(ip, out, tags, all) && Respects(ip, all, k, times) && Selected(ip, out, k, times, o)
    requires Uniform(ip, all, k, times, a)
    ensures o.sourceAddr == a
  {
    var i :| 0 <= i < |out| && out[i] == o;
    OutputIsRun(ip, out, tags, all, k, i);
    var run := RunTimes(ip, all, k, o.started);
    var x :| IsMember(ip, all, k, x) && x.started == o.started;
    assert Selected(ip, all, k, run, x);
    assert Uniform(ip, all, k, run, a) by {
      assert forall z :: Selected(ip, all, k, run, z) ==> Selected(ip, all, k, times, z);
    }
  }

  /** If the sessions share an address, so do the outputs. */
  lemma UniformForward(ip: Strip, out: seq<Session>, tags: seq<Tag>, all: seq<Session>, b: seq<Session>, k: Key, times: iset<int>, a: string)
    requires Consolidates(ip, out, tags, all) && Respects(ip, all, k, times)
    requires Uniform(ip, all + b, k, times, a)
    ensures Uniform(ip, out + b, k, times, a)
  {
    assert Uniform(ip, all, k, times, a) by {
      assert forall x :: Selected(ip, all, k, times, x) ==> Selected(ip, all + b, k, times, x);
    }
    forall y | Selected(ip, out + b, k, times, y)
      ensures y.sourceAddr == a
    {
      if y in b {
        assert Selected(ip, all + b, k, times, y);
      } else {
        UniformOutput(ip, out, tags, all, k, times, a, y);
      }
    }
  }

  /** If the outputs share an address with a port, so do the sessions. */
  lemma UniformBackward(ip: Strip, out: seq<Session>, tags: seq<Tag>, all: seq<Session>, b: seq<Session>, k: Key, times: iset<int>, a: string)
    requires Consolidates(ip, out, tags, all) && Respects(ip, all, k, times)
    requires Uniform(ip, out + b, k, times, a) && a != k.sourceIp
    ensures Uniform(ip, all + b, k, times, a)
  {
    forall x | Selected(ip, all + b, k, times, x)
      ensures x.sourceAddr == a
    {
      if x in b {
        assert Selected(ip, out + b, k, times, x);
      } else {
        var o := SelectedOutput(ip, out, tags, all, k, times, x);
        assert Selected(ip, out + b, k, times, o);
      }
    }
  }

  lemma SourceKept(ip: Strip, out: seq<Session>, tags: seq<Tag>, all: seq<Session>, b: seq<Session>, k: Key, times: iset<int>, a: string)
    requires Consolidates(ip, out, tags, all) && Respects(ip, all, k, times)
    requires exists y :: Selected(ip, out + b, k, times, y)
    ensures SourceOk(ip, out + b, k, times, a) <==> SourceOk(ip, all + b, k, times, a)
  {
    var y :| Selected(ip, out + b, k, times, y);
    forall c | Uniform(ip, all + b, k, times, c)
      ensures Uniform(ip, out + b, k, times, c) && c == y.sourceAddr
    {
      UniformForward(ip, out, tags, all, b, k, times, c);
    }
    forall c | Uniform(ip, out + b, k, times, c) && c != k.sourceIp
      ensures Uniform(ip, all + b, k, times, c)
    {
      UniformBackward(ip, out, tags, all, b, k, times, c);
    }
  }

  /** The times of the runs that the first n outputs report and that begin at one of the given times. */
  ghost function Reported(ip: Strip, out: seq<Session>, all: seq<Session>, k: Key, times: iset<int>, n: nat): iset<int>
    requires n <= |out|
  {
    if n == 0 then iset{}
    else if KeyOf(ip, out[n - 1]) == k && out[n - 1].started in times
    then Reported(ip, out, all, k, times, n - 1) + RunTimes(ip, all, k, out[n - 1].started)
    else Reported(ip, out, all, k, times, n - 1)
  }

  lemma {:induction false} ReportedIn(ip: Strip, out: seq<Session>, all: seq<Session>, k: Key, times: iset<int>, n: nat, t: int)
    returns (i: nat)
    requires n <= |out| && t in Reported(ip, out, all, k, times, n)
    ensures i < n && KeyOf(ip, out[i]) == k && out[i].started in times && Unbroken(ip, all, k, out[i].started, t)
  {
    if KeyOf(ip, out[n - 1]) == k && out[n - 1].started in times && Unbroken(ip, all, k, out[n - 1].started, t) {
      i := n - 1;
    } else {
      i := ReportedIn(ip, out, all, k, times, n - 1, t);
    }
  }

  lemma {:induction false} ReportsRun(ip: Strip, out: seq<Session>, all: seq<Session>, k: Key, times: iset<int>, n: nat, i: nat, t: int)
    requires i < n <= |out| && KeyOf(ip, out[i]) == k && out[i].started in times && Unbroken(ip, all, k, out[i].started, t)
    ensures t in Reported(ip, out, all, k, times, n)
  {
    if i < n - 1 {
      ReportsRun(ip, out, all, k, times, n - 1, i, t);
    }
  }

  /** Different outputs report different runs. */
  lemma OutputsApart(ip: Strip, out: seq<Session>, tags: seq<Tag>, all: seq<Session>, k: Key, i: nat, j: nat, t: int)
    requires Consolidates(ip, out, tags, all) && i < j < |out| && KeyOf(ip, out[i]) == k && KeyOf(ip, out[j]) == k
    ensures !(Unbroken(ip, all, k, out[i].started, t) && Unbroken(ip, all, k, out[j].started, t))
  {
    OutputIsRun(ip, out, tags, all, k, i);
    OutputIsRun(ip, out, tags, all, k, j);
    RunsDisjoint(ip, all, k, out[i].started, out[j].started, t);
  }

  lemma ReportedApart(ip: Strip, out: seq<Session>, tags: seq<Tag>, all: seq<Session>, k: Key, times: iset<int>, n: nat)
    requires Consolidates(ip, out, tags, all) && 0 < n <= |out| && KeyOf(ip, out[n - 1]) == k
    ensures Reported(ip, out, all, k, times, n - 1) !! RunTimes(ip, all, k, out[n - 1].started)
  {
    var before := Reported(ip, out, all, k, times, n - 1);
    forall t | t in before
      ensures !Unbroken(ip, all, k, out[n - 1].started, t)
    {
      var i := ReportedIn(ip, out, all, k, times, n - 1, t);
      OutputsApart(ip, out, tags, all, k, i, n - 1, t);
    }
  }

  lemma {:induction false} SumNone(ip: Strip, all: seq<Session>, f: Field, k: Key, n: nat)
    requires n <= |all|
    ensures Sum(ip, all, f, k, iset{}, n) == 0
  {
    if n > 0 {
      SumNone(ip, all, f, k, n - 1);
    }
  }

  lemma OutputSum(ip: Strip, out: seq<Session>, tags: seq<Tag>, all: seq<Session>, f: Field, k: Key, i: nat)
    requires Consolidates(ip, out, tags, all) && i < |out| && KeyOf(ip, out[i]) == k && IsBytes(f)
    ensures Weight(out[i], f) == Sum(ip, all, f, k, RunTimes(ip, all, k, out[i].started), |all|)
  {
    OutputIsRun(ip, out, tags, all, k, i);
  }

  /** Totals of outputs are totals of the sessions they report. */
  lemma {:induction false} SumReported(ip: Strip, out: seq<Session>, tags: seq<Tag>, all: seq<Session>, f: Field, k: Key, times: iset<int>, n: nat)
    requires Consolidates(ip, out, tags, all) && n <= |out| && IsBytes(f)
    ensures Sum(ip, out, f, k, times, n) == Sum(ip, all, f, k, Reported(ip, out, all, k, times, n), |all|)
  {
    if n == 0 {
      SumNone(ip, all, f, k, |all|);
    } else {
      SumReported(ip, out, tags, all, f, k, times, n - 1);
      if KeyOf(ip, out[n - 1]) == k && out[n - 1].started in times {
        OutputSum(ip, out, tags, all, f, k, n - 1);
        ReportedApart(ip, out, tags, all, k, times, n);
        SumUnion(ip, all, f, k, Reported(ip, out, all, k, times, n - 1), RunTimes(ip, all, k, out[n - 1].started), |all|);
      }
    }
  }

  /** The outputs that begin at the given times report exactly the sessions at the given times. */
  lemma ReportedExactly(ip: Strip, out: seq<Session>, tags: seq<Tag>, all: seq<Session>, k: Key, times: iset<int>, x: Session)
    requires Consolidates(ip, out, tags, all) && Respects(ip, all, k, times) && IsMember(ip, all, k, x)
    ensures x.started in Reported(ip, out, all, k, times, |out|) <==> x.started in times
  {
    if x.started in Reported(ip, out, all, k, times, |out|) {
      var j := ReportedIn(ip, out, all, k, times, |out|, x.started);
      OutputIsRun(ip, out, tags, all, k, j);
    }
    if x.started in times {
      var r := HasHead(ip, all, k, x);
      var i := HeadHasOutput(ip, out, tags, all, k, r);
      ReportsRun(ip, out, all, k, times, |out|, i, x.started);
    }
  }

  lemma OutputsAddUp(ip: Strip, out: seq<Session>, tags: seq<Tag>, all: seq<Session>, f: Field, k: Key, times: iset<int>)
    requires Consolidates(ip, out, tags, all) && Respects(ip, all, k, times) && IsBytes(f)
    ensures Sum(ip, out, f, k, times, |out|) == Sum(ip, all, f, k, times, |all|)
  {
    var reported := Reported(ip, out, all, k, times, |out|);
    SumReported(ip, out, tags, all, f, k, times, |out|);
    forall x | IsMember(ip, all, k, x)
      ensures x.started in reported <==> x.started in times
    {
      ReportedExactly(ip, out, tags, all, k, times, x);
    }
    SumSame(ip, all, f, k, reported, times, |all|);
  }

  /** Consolidation conserves bytes: per key, everything sent and received is still there. */
  lemma BytesConserved(ip: Strip, out: seq<Session>, tags: seq<Tag>, all: seq<Session>, f: Field, k: Key, always: iset<int>)
    requires Consolidates(ip, out, tags, all) && IsBytes(f)
    requires forall t :: t in always
    ensures Sum(ip, out, f, k, always, |out|) == Sum(ip, all, f, k, always, |all|)
  {
    OutputsAddUp(ip, out, tags, all, f, k, always);
  }

  lemma SumKept(ip: Strip, out: seq<Session>, tags: seq<Tag>, all: seq<Session>, b: seq<Session>, f: Field, k: Key, times: iset<int>)
    requires Consolidates(ip, out, tags, all) && Respects(ip, all, k, times) && IsBytes(f)
    ensures Sum(ip, out + b, f, k, times, |out + b|) == Sum(ip, all + b, f, k, times, |all + b|)
  {
    SumConcat(ip, out, b, f, k, times, |b|);
    SumConcat(ip, all, b, f, k, times, |b|);
    OutputsAddUp(ip, out, tags, all, f, k, times);
  }

  // ---------------------------------------------------------------- the retry theorem

  /** Replacing sessions by the outputs that report them changes no run... */
  lemma RunsKept(ip: Strip, out: seq<Session>, tags: seq<Tag>, all: seq<Session>, b: seq<Session>, k: Key, r: int)
    requires Consolidates(ip, out, tags, all)
    ensures Cut(ip, out + b, k, r) <==> Cut(ip, all + b, k, r)
    ensures RunTimes(ip, out + b, k, r) == RunTimes(ip, all + b, k, r)
  {
    forall c
      ensures Cut(ip, out + b, k, c) <==> Cut(ip, all + b, k, c)
    {
      CutConcat(ip, out, b, k, c);
      CutConcat(ip, all, b, k, c);
      CutsKept(ip, out, tags, all, k, c);
    }
  }

  lemma HeadsKept(ip: Strip, out: seq<Session>, tags: seq<Tag>, all: seq<Session>, b: seq<Session>, k: Key, r: int)
    requires Consolidates(ip, out, tags, all)
    ensures Head(ip, out + b, k, r) <==> Head(ip, all + b, k, r)
  {
    RunsKept(ip, out, tags, all, b, k, r);
    if Head(ip, all + b, k, r) {
      var x :| IsMember(ip, all + b, k, x) && x.started == r;
      CutConcat(ip, all, b, k, r);
      if x in all {
        assert IsMember(ip, all, k, x);
        var i := HeadHasOutput(ip, out, tags, all, k, r);
        assert IsMember(ip, out + b, k, out[i]);
      } else {
        assert IsMember(ip, out + b, k, x);
      }
    }
    if Head(ip, out + b, k, r) {
      var y :| IsMember(ip, out + b, k, y) && y.started == r;
      if y in b {
        assert IsMember(ip, all + b, k, y);
      } else {
        var i :| 0 <= i < |out| && out[i] == y;
        OutputIsRun(ip, out, tags, all, k, i);
        var x :| IsMember(ip, all, k, x) && x.started == r;
        assert IsMember(ip, all + b, k, x);
      }
    }
  }

  /** ...nor what is to be reported about it. */
  lemma ReportKept(ip: Strip, out: seq<Session>, tags: seq<Tag>, all: seq<Session>, b: seq<Session>, k: Key, r: int, o: Session)
    requires Consolidates(ip, out, tags, all) && Head(ip, all + b, k, r)
    ensures IsRunOf(ip, out + b, k, r, o) <==> IsRunOf(ip, all + b, k, r, o)
  {
    RunsKept(ip, out, tags, all, b, k, r);
    HeadsKept(ip, out, tags, all, b, k, r);
    LargerRunsRespect(ip, all, b, k, r);
    var times := RunTimes(ip, all + b, k, r);
    var y :| IsMember(ip, out + b, k, y) && y.started == r;
    assert Selected(ip, out + b, k, times, y);
    if Latest(ip, all + b, k, times, EndOf(o)) {
      LatestForward(ip, out, tags, all, b, k, times, EndOf(o));
    }
    if Latest(ip, out + b, k, times, EndOf(o)) {
      LatestBackward(ip, out, tags, all, b, k, times, EndOf(o));
    }
    SumKept(ip, out, tags, all, b, Tx, k, times);
    SumKept(ip, out, tags, all, b, Rx, k, times);
    SourceKept(ip, out, tags, all, b, k, times, o.sourceAddr);
  }

  /** A failed send is harmless: consolidating what a failed flush put back, together with
      sessions that completed meanwhile, is consolidating the raw sessions. */
  lemma RetryIsHarmless(ip: Strip, out: seq<Session>, tags: seq<Tag>, all: seq<Session>, b: seq<Session>,
                        later: seq<Session>, laterTags: seq<Tag>)
    requires Consolidates(ip, out, tags, all)
    ensures Consolidated(ip, later, laterTags, out + b) <==> Consolidated(ip, later, laterTags, all + b)
  {
    forall k, r
      ensures Head(ip, out + b, k, r) <==> Head(ip, all + b, k, r)
    {
      HeadsKept(ip, out, tags, all, b, k, r);
    }
    forall k, r, o | Head(ip, all + b, k, r)
      ensures IsRunOf(ip, out + b, k, r, o) <==> IsRunOf(ip, all + b, k, r, o)
    {
      ReportKept(ip, out, tags, all, b, k, r, o);
    }
  }

  /** The same without naming the runs. */
  lemma RetryConsolidatesRaw(ip: Strip, out: seq<Session>, all: seq<Session>, b: seq<Session>, later: seq<Session>)
    requires IsConsolidation(ip, out, all) && AllWellTimed(all) && AllStable(ip, all)
    ensures IsConsolidation(ip, later, out + b) <==> IsConsolidation(ip, later, all + b)
  {
    var tags :| Consolidated(ip, out, tags, all);
    forall laterTags
      ensures Consolidated(ip, later, laterTags, out + b) <==> Consolidated(ip, later, laterTags, all + b)
    {
      RetryIsHarmless(ip, out, tags, all, b, later, laterTags);
    }
  }

  /** Equal in key, start, end, bytes and source address; ids and counts may differ. */
  predicate SameReport(o: Session, p: Session) {
    && o.destAddr == p.destAddr && o.protocol == p.protocol && o.resourceId == p.resourceId
    && o.started == p.started && EndOf(o) == EndOf(p)
    && o.tx == p.tx && o.rx == p.rx && o.sourceAddr == p.sourceAddr
  }

  /** A run can be reported in one way only. */
  lemma ReportIsUnique(ip: Strip, all: seq<Session>, k: Key, r: int, o: Session, p: Session)
    requires Head(ip, all, k, r) && IsRunOf(ip, all, k, r, o) && IsRunOf(ip, all, k, r, p)
    ensures SameReport(o, p)
  {
    var times := RunTimes(ip, all, k, r);
    var x :| IsMember(ip, all, k, x) && x.started == r;
    assert Selected(ip, all, k, times, x);
    assert forall a :: Uniform(ip, all, k, times, a) ==> a == x.sourceAddr;
  }

  /** So consolidating after a failed send, and consolidating the raw sessions, give the same runs
      with the same reports. */
  lemma RetryGivesTheSame(ip: Strip, out: seq<Session>, tags: seq<Tag>, all: seq<Session>, b: seq<Session>,
                          later: seq<Session>, laterTags: seq<Tag>, raw: seq<Session>, rawTags: seq<Tag>)
    requires Consolidates(ip, out, tags, all)
    requires Consolidated(ip, later, laterTags, out + b) && Consolidated(ip, raw, rawTags, all + b)
    ensures forall t :: t in laterTags <==> t in rawTags
    ensures forall i, j :: 0 <= i < |later| && 0 <= j < |raw| && laterTags[i] == rawTags[j] ==> SameReport(later[i], raw[j])
  {
    RetryIsHarmless(ip, out, tags, all, b, later, laterTags);
    SameTags(ip, all + b, later, laterTags, raw, rawTags);
    forall i, j | 0 <= i < |later| && 0 <= j < |raw| && laterTags[i] == rawTags[j]
      ensures SameReport(later[i], raw[j])
    {
      ReportIsUnique(ip, all + b, rawTags[j].key, rawTags[j].start, later[i], raw[j]);
    }
  }

  lemma SameTags(ip: Strip, all: seq<Session>, o1: seq<Session>, t1: seq<Tag>, o2: seq<Session>, t2: seq<Tag>)
    requires Consolidated(ip, o1, t1, all) && Consolidated(ip, o2, t2, all)
    ensures forall t :: t in t1 <==> t in t2
  {
    forall t | t in t1
      ensures t in t2
    {
      var i :| 0 <= i < |t1| && t1[i] == t;
      assert Head(ip, all, t.key, t.start);
    }
    forall t | t in t2
      ensures t in t1
    {
      var i :| 0 <= i < |t2| && t2[i] == t;
      assert Head(ip, all, t.key, t.start);
    }
  }

  /** The sessions of the first n batches. */
  function Concat(batches: seq<seq<Session>>, n: nat): seq<Session>
    requires n <= |batches|
  {
    if n == 0 then [] else Concat(batches, n - 1) + batches[n - 1]
  }

  /** Each flush consolidates what the last one failed to send together with a new batch. */
  ghost predicate Retried(ip: Strip, batches: seq<seq<Session>>, outs: seq<seq<Session>>, tags: seq<seq<Tag>>, n: nat)
    requires n < |batches| == |outs| == |tags|
  {
    if n == 0 then Consolidated(ip, outs[0], tags[0], batches[0])
    else Retried(ip, batches, outs, tags, n - 1) && Consolidated(ip, outs[n], tags[n], outs[n - 1] + batches[n])
  }

  lemma FirstPart(ip: Strip, a: seq<Session>, b: seq<Session>)
    requires AllWellTimed(a + b) && AllStable(ip, a + b)
    ensures AllWellTimed(a) && AllStable(ip, a)
  {
    assert forall i :: 0 <= i < |a| ==> a[i] == (a + b)[i];
  }

  /** However often sending fails, the first flush that gets through reports the runs of all
      the raw sessions since the last success, as if they had been consolidated at once. */
  lemma {:induction false} RetriesAreHarmless(ip: Strip, batches: seq<seq<Session>>, outs: seq<seq<Session>>,
                                              tags: seq<seq<Tag>>, n: nat)
    requires n < |batches| == |outs| == |tags|
    requires AllWellTimed(Concat(batches, n + 1)) && AllStable(ip, Concat(batches, n + 1))
    requires Retried(ip, batches, outs, tags, n)
    ensures Consolidated(ip, outs[n], tags[n], Concat(batches, n + 1))
  {
    if n == 0 {
      assert Concat(batches, 1) == Concat(batches, 0) + batches[0] == batches[0];
    } else {
      var raw := Concat(batches, n);
      assert Concat(batches, n + 1) == raw + batches[n];
      FirstPart(ip, raw, batches[n]);
      RetriesAreHarmless(ip, batches, outs, tags, n - 1);
      RetryIsHarmless(ip, outs[n - 1], tags[n - 1], raw, batches[n], outs[n], tags[n]);
    }
  }

  /** Outputs can be consolidated again: their times are in order. */
  lemma OutputsWellTimed(ip: Strip, out: seq<Session>, tags: seq<Tag>, all: seq<Session>)
    requires Consolidated(ip, out, tags, all) && AllWellTimed(all)
    ensures AllWellTimed(out)
  {
    forall i | 0 <= i < |out|
      ensures WellTimed(out[i])
    {
      var k, r := tags[i].key, tags[i].start;
      var x :| IsMember(ip, all, k, x) && x.started == r;
      assert WellTimed(x);
      assert Selected(ip, all, k, RunTimes(ip, all, k, r), x);
    }
  }

  // ---------------------------------------------------------------- connection counts

  /** There are at least as many connections as sessions, and as many exactly if none of the
      sessions stands for more than one. */
  lemma {:induction false} RawAtLeastEach(ip: Strip, all: seq<Session>, k: Key, times: iset<int>, n: nat)
    requires n <= |all|
    ensures Sum(ip, all, Raw, k, times, n) >= Sum(ip, all, Each, k, times, n)
    ensures Sum(ip, all, Raw, k, times, n) == Sum(ip, all, Each, k, times, n) <==>
            forall i :: 0 <= i < n && KeyOf(ip, all[i]) == k && all[i].started in times ==> all[i].count <= 1
  {
    if n > 0 {
      RawAtLeastEach(ip, all, k, times, n - 1);
    }
  }

  /** An output that counts the sessions of its run counts the connections behind it if and only
      if no session of the run is itself a merged one. */
  lemma CountIsRawIff(ip: Strip, all: seq<Session>, k: Key, o: Session)
    requires CountsRun(ip, all, k, o)
    ensures o.count == Sum(ip, all, Raw, k, RunTimes(ip, all, k, o.started), |all|) <==>
            forall x :: Selected(ip, all, k, RunTimes(ip, all, k, o.started), x) ==> x.count <= 1
  {
    var times := RunTimes(ip, all, k, o.started);
    RawAtLeastEach(ip, all, k, times, |all|);
    if forall i :: 0 <= i < |all| && KeyOf(ip, all[i]) == k && all[i].started in times ==> all[i].count <= 1 {
      forall x | Selected(ip, all, k, times, x)
        ensures x.count <= 1
      {
        var i :| 0 <= i < |all| && all[i] == x;
      }
    }
    if forall x :: Selected(ip, all, k, times, x) ==> x.count <= 1 {
      forall i | 0 <= i < |all| && KeyOf(ip, all[i]) == k && all[i].started in times
        ensures all[i].count <= 1
      {
        assert Selected(ip, all, k, times, all[i]);
      }
    }
  }

  /** Sessions of one key by start time, none of them starting too late for an earlier one. */
  ghost predicate Chained(ip: Strip, all: seq<Session>, k: Key) {
    && |all| > 0
    && (forall i :: 0 <= i < |all| ==> KeyOf(ip, all[i]) == k)
    && (forall i :: 0 < i < |all| ==> Linked(all, i))
  }

  ghost predicate Linked(all: seq<Session>, i: nat)
    requires 0 < i < |all|
  {
    all[i - 1].started <= all[i].started && exists j :: 0 <= j < i && all[i].started <= EndOf(all[j]) + GAP
  }

  lemma {:induction false} ChainOrdered(ip: Strip, all: seq<Session>, k: Key, j: nat, i: nat)
    requires Chained(ip, all, k) && j <= i < |all|
    ensures all[j].started <= all[i].started
  {
    if j < i {
      ChainOrdered(ip, all, k, j, i - 1);
      assert Linked(all, i);
    }
  }

  /** Such sessions are one run. */
  lemma {:induction false} ChainUnbroken(ip: Strip, all: seq<Session>, k: Key, i: nat)
    requires Chained(ip, all, k) && i < |all|
    ensures Unbroken(ip, all, k, all[0].started, all[i].started)
  {
    if i > 0 {
      ChainUnbroken(ip, all, k, i - 1);
      assert Linked(all, i);
      var j :| 0 <= j < i && all[i].started <= EndOf(all[j]) + GAP;
      ChainOrdered(ip, all, k, j, i - 1);
      assert IsMember(ip, all, k, all[j]);
    }
  }

  lemma {:induction false} ChainSum(ip: Strip, all: seq<Session>, k: Key, n: nat)
    requires Chained(ip, all, k) && n <= |all|
    ensures Sum(ip, all, Each, k, RunTimes(ip, all, k, all[0].started), n) == n
  {
    if n > 0 {
      ChainSum(ip, all, k, n - 1);
      ChainUnbroken(ip, all, k, n - 1);
    }
  }

  /** So they are reported by one output, which counts them all. */
  lemma ChainIsOneRun(ip: Strip, out: seq<Session>, tags: seq<Tag>, all: seq<Session>, k: Key)
    requires Chained(ip, all, k) && Consolidated(ip, out, tags, all)
    ensures |out| == 1 && tags == [Tag(k, all[0].started)] && IsRunOf(ip, all, k, all[0].started, out[0])
  {
    ChainHead(ip, all, k);
    assert Tag(k, all[0].started) in tags;
    assert |tags| > 1 ==> tags[0] != tags[1];
    forall i | 0 <= i < |tags|
      ensures tags[i] == Tag(k, all[0].started)
    {
      OnlyHead(ip, all, k, tags[i].key, tags[i].start);
    }
  }

  lemma ChainHead(ip: Strip, all: seq<Session>, k: Key)
    requires Chained(ip, all, k)
    ensures Head(ip, all, k, all[0].started)
  {
    forall x | IsMember(ip, all, k, x)
      ensures x.started >= all[0].started
    {
      var i :| 0 <= i < |all| && all[i] == x;
      ChainOrdered(ip, all, k, 0, i);
    }
    assert IsMember(ip, all, k, all[0]);
  }

  lemma OnlyHead(ip: Strip, all: seq<Session>, k: Key, k': Key, r: int)
    requires Chained(ip, all, k) && Head(ip, all, k', r)
    ensures k' == k && r == all[0].started
  {
    var x :| IsMember(ip, all, k', x) && x.started == r;
    var i :| 0 <= i < |all| && all[i] == x;
    ChainUnbroken(ip, all, k, i);
  }

  /** Two sessions are merged if and only if they agree in source IP, destination, protocol and
      resource and the second starts at most five seconds after the first has ended. */
  lemma PairMergedIff(ip: Strip, x: Session, y: Session, out: seq<Session>, tags: seq<Tag>)
    requires WellTimed(x) && WellTimed(y) && x.started <= y.started && Consolidated(ip, out, tags, [x, y])
    ensures |out| == 1 <==>
            && ip(x.sourceAddr) == ip(y.sourceAddr) && x.destAddr == y.destAddr && x.protocol == y.protocol
            && x.resourceId == y.resourceId
            && y.started - (if x.ended == ZERO_TIME then x.started else x.ended) <= 5_000_000_000
  {
    var all, k := [x, y], KeyOf(ip, x);
    assert all[0] == x && all[1] == y;
    if KeyOf(ip, y) == k && y.started <= EndOf(x) + GAP {
      assert Linked(all, 1);
      ChainIsOneRun(ip, out, tags, all, k);
    } else {
      assert IsMember(ip, all, k, x) && IsMember(ip, all, KeyOf(ip, y), y);
      assert Head(ip, all, k, x.started) && Head(ip, all, KeyOf(ip, y), y.started);
      TwoTags(tags, Tag(k, x.started), Tag(KeyOf(ip, y), y.started));
    }
  }

  lemma TwoTags(tags: seq<Tag>, a: Tag, b: Tag)
    requires a in tags && b in tags && a != b
    ensures |tags| >= 2
  {
    var i :| 0 <= i < |tags| && tags[i] == a;
    var j :| 0 <= j < |tags| && tags[j] == b;
  }

  /** After a failed send the count falls short: the sessions of `a` were merged into o, which was
      put back and is now merged with those of `b` into p. Without the failure all of them would
      have been merged into q. */
  lemma RetryMiscounts(ip: Strip, a: seq<Session>, b: seq<Session>, k: Key, o: Session, p: Session, q: Session)
    requires Chained(ip, [o] + b, k) && p.started == o.started && CountsRun(ip, [o] + b, k, p)
    requires Chained(ip, a + b, k) && q.started == (a + b)[0].started && CountsRun(ip, a + b, k, q)
    ensures p.count == 1 + |b| && q.count == |a| + |b|
  {
    ChainSum(ip, [o] + b, k, |[o] + b|);
    ChainSum(ip, a + b, k, |a + b|);
  }
}
