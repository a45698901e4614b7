/** Traffic reports: differences between successive counter readings of the device's peers. */
module Bandwidth {
  import opened Common

  /** A line of the device's dump; counters that do not parse read as zero. */
  datatype Line = PublicKey(key: string) | RxBytes(n: nat) | TxBytes(n: nat) | Other

  datatype Peer = Peer(key: string, rx: nat, tx: nat)

  datatype Reading = Reading(rx: nat, tx: nat, time: int)

  datatype Report = Report(key: string, bytesIn: nat, bytesOut: nat)

  type Readings = map<string, Reading>

  // ---------------------------------------------------------------- reading the dump

  datatype Scan = Scan(done: seq<Peer>, current: Peer)

  function Complete(s: Scan): seq<Peer> {
    if s.current.key == "" then s.done else s.done + [s.current]
  }

  /** The peers of the first n lines: those complete, and the one being read. */
  function ScanTo(lines: seq<Line>, n: nat): Scan
    requires n <= |lines|
  {
    if n == 0 then Scan([], Peer("", 0, 0))
    else
      var s := ScanTo(lines, n - 1);
      match lines[n - 1]
      case PublicKey(key) => Scan(Complete(s), Peer(key, 0, 0))
      case RxBytes(k) => s.(current := s.current.(rx := k))
      case TxBytes(k) => s.(current := s.current.(tx := k))
      case Other => s
  }

  function PeersOf(lines: seq<Line>): seq<Peer> {
    Complete(ScanTo(lines, |lines|))
  }

  /** A dump of the peers: three lines each. */
  function Dump(peers: seq<Peer>): seq<Line> {
    if |peers| == 0 then []
    else
      var p := peers[|peers| - 1];
      Dump(peers[..|peers| - 1]) + [PublicKey(p.key), RxBytes(p.rx), TxBytes(p.tx)]
  }

  lemma {:induction false} ScanPrefix(a: seq<Line>, b: seq<Line>, n: nat)
    requires n <= |a|
    ensures ScanTo(a + b, n) == ScanTo(a, n)
  {
    if n > 0 {
      ScanPrefix(a, b, n - 1);
    }
  }

  /** Reading a dump gives back the peers. */
  lemma {:induction false} DumpIsRead(peers: seq<Peer>)
    requires forall i :: 0 <= i < |peers| ==> peers[i].key != ""
    ensures PeersOf(Dump(peers)) == peers
  {
    if |peers| > 0 {
      var init, p := peers[..|peers| - 1], peers[|peers| - 1];
      var a, b := Dump(init), [PublicKey(p.key), RxBytes(p.rx), TxBytes(p.tx)];
      DumpIsRead(init);
      ScanPrefix(a, b, |a|);
      var lines := a + b;
      assert ScanTo(lines, |a|) == ScanTo(a, |a|);
      assert ScanTo(lines, |a| + 1) == Scan(init, Peer(p.key, 0, 0));
      assert ScanTo(lines, |a| + 2) == Scan(init, Peer(p.key, p.rx, 0));
      assert ScanTo(lines, |a| + 3) == Scan(init, p);
    }
  }

  // ---------------------------------------------------------------- one poll

  /** What a counter has grown by; a counter that has fallen started again from zero. */
  function Growth(before: nat, after: nat): nat {
    if after < before then after else after - before
  }

  function ReportFor(readings: Readings, p: Peer, now: int): Option<Report> {
    if p.key in readings && now > readings[p.key].time then
      var r := Report(p.key, Growth(readings[p.key].rx, p.rx), Growth(readings[p.key].tx, p.tx));
      if r.bytesIn > 0 || r.bytesOut > 0 then Some(r) else None
    else None
  }

  function Recorded(readings: Readings, p: Peer, now: int): Readings {
    readings[p.key := Reading(p.rx, p.tx, now)]
  }

  /** Readings and reports after the first n peers. */
  function ReadingsAfter(readings: Readings, peers: seq<Peer>, now: int, n: nat): Readings
    requires n <= |peers|
  {
    if n == 0 then readings else Recorded(ReadingsAfter(readings, peers, now, n - 1), peers[n - 1], now)
  }

  function ReportsAfter(readings: Readings, peers: seq<Peer>, now: int, n: nat): seq<Report>
    requires n <= |peers|
  {
    if n == 0 then []
    else
      var r := ReportFor(ReadingsAfter(readings, peers, now, n - 1), peers[n - 1], now);
      ReportsAfter(readings, peers, now, n - 1) + (if r.Some? then [r.value] else [])
  }

  function Keys(peers: seq<Peer>): set<string> {
    set i | 0 <= i < |peers| :: peers[i].key
  }

  function DevicePeers(lines: seq<Line>, n: nat): set<string>
    requires n <= |lines|
  {
    set i | 0 <= i < n && lines[i].PublicKey? :: lines[i].key
  }

  lemma {:induction false} AfterPrefix(readings: Readings, peers: seq<Peer>, more: seq<Peer>, now: int, n: nat)
    requires n <= |peers|
    ensures ReadingsAfter(readings, peers + more, now, n) == ReadingsAfter(readings, peers, now, n)
    ensures ReportsAfter(readings, peers + more, now, n) == ReportsAfter(readings, peers, now, n)
  {
    if n > 0 {
      AfterPrefix(readings, peers, more, now, n - 1);
    }
  }

  lemma {:induction false} KeysAreListed(lines: seq<Line>, n: nat)
    requires n <= |lines|
    ensures Keys(Complete(ScanTo(lines, n))) == DevicePeers(lines, n) - {""}
  {
    if n > 0 {
      KeysAreListed(lines, n - 1);
      var s, t := ScanTo(lines, n - 1), ScanTo(lines, n);
      if lines[n - 1].PublicKey? {
        assert DevicePeers(lines, n) == DevicePeers(lines, n - 1) + {lines[n - 1].key};
        KeysAppended(Complete(s), t.current);
      } else {
        assert DevicePeers(lines, n) == DevicePeers(lines, n - 1);
        KeysAppended(s.done, s.current);
        KeysAppended(t.done, t.current);
      }
    }
  }

  lemma KeysAppended(peers: seq<Peer>, p: Peer)
    ensures Keys(peers + [p]) == Keys(peers) + {p.key}
  {
    assert (peers + [p])[|peers|] == p;
    assert forall i :: 0 <= i < |peers| ==> (peers + [p])[i] == peers[i];
  }

  /** What is left after forgetting all other peers does not depend on what was there before. */
  lemma {:induction false} OthersAreForgotten(readings: Readings, peers: seq<Peer>, now: int, n: nat)
    requires n <= |peers|
    ensures ReadingsAfter(readings, peers, now, n) == readings + ReadingsAfter(map[], peers, now, n)
  {
    if n > 0 {
      OthersAreForgotten(readings, peers, now, n - 1);
    }
  }

  lemma {:induction false} ReadFromPeers(peers: seq<Peer>, now: int, n: nat)
    requires n <= |peers|
    ensures ReadingsAfter(map[], peers, now, n).Keys == Keys(peers[..n])
    ensures forall k :: k in ReadingsAfter(map[], peers, now, n) ==> ReadingsAfter(map[], peers, now, n)[k].time == now
  {
    if n > 0 {
      ReadFromPeers(peers, now, n - 1);
      assert peers[..n] == peers[..n - 1] + [peers[n - 1]];
      KeysAppended(peers[..n - 1], peers[n - 1]);
    }
  }

  class Meter {
    var lastReadings: Readings

    /** Readings are stored under keys that a dump can contain. */
    ghost predicate Valid()
      reads this
    {
      "" !in lastReadings
    }

    constructor ()
      ensures Valid() && lastReadings == map[]
    {
      lastReadings := map[];
    }

    method ProcessPeer(p: Peer, now: int) returns (report: Option<Report>)
      modifies this
      ensures lastReadings == Recorded(old(lastReadings), p, now)
      ensures report == ReportFor(old(lastReadings), p, now)
      ensures report.Some? <==>
              && p.key in old(lastReadings) && now > old(lastReadings)[p.key].time
              && ((p.rx != 0 && p.rx != old(lastReadings)[p.key].rx) || (p.tx != 0 && p.tx != old(lastReadings)[p.key].tx))
    {
      report := None;
      if p.key in lastReadings && now - lastReadings[p.key].time > 0 {
        var last := lastReadings[p.key];
        var bytesIn: int, bytesOut: int := p.rx - last.rx, p.tx - last.tx;
        if bytesIn < 0 {
          bytesIn := p.rx;
        }
        if bytesOut < 0 {
          bytesOut := p.tx;
        }
        if bytesIn > 0 || bytesOut > 0 {
          report := Some(Report(p.key, bytesIn, bytesOut));
        }
      }
      lastReadings := lastReadings[p.key := Reading(p.rx, p.tx, now)];
    }

    /** Processes the peers of a dump as its lines are read. */
    method ProcessDump(lines: seq<Line>, now: int) returns (reports: seq<Report>)
      modifies this
      ensures var peers := PeersOf(lines);
              && lastReadings == ReadingsAfter(old(lastReadings), peers, now, |peers|)
              && reports == ReportsAfter(old(lastReadings), peers, now, |peers|)
    {
      reports := [];
      var currentPubKey, rxBytes: nat, txBytes: nat := "", 0, 0;
      ghost var was, done := lastReadings, [];
      for i := 0 to |lines|
        invariant ScanTo(lines, i) == Scan(done, Peer(currentPubKey, rxBytes, txBytes))
        invariant lastReadings == ReadingsAfter(was, done, now, |done|)
        invariant reports == ReportsAfter(was, done, now, |done|)
      {
        match lines[i]
        case PublicKey(key) =>
          if currentPubKey != "" {
            reports := ProcessNext(was, done, Peer(currentPubKey, rxBytes, txBytes), now, reports);
            done := done + [Peer(currentPubKey, rxBytes, txBytes)];
          }
          currentPubKey, rxBytes, txBytes := key, 0, 0;
        case RxBytes(n) => rxBytes := n;
        case TxBytes(n) => txBytes := n;
        case Other =>
      }
      if currentPubKey != "" {
        reports := ProcessNext(was, done, Peer(currentPubKey, rxBytes, txBytes), now, reports);
      }
    }

    method ProcessNext(ghost was: Readings, ghost done: seq<Peer>, p: Peer, now: int, sofar: seq<Report>)
      returns (reports: seq<Report>)
      requires lastReadings == ReadingsAfter(was, done, now, |done|) && sofar == ReportsAfter(was, done, now, |done|)
      modifies this
      ensures lastReadings == ReadingsAfter(was, done + [p], now, |done + [p]|)
      ensures reports == ReportsAfter(was, done + [p], now, |done + [p]|)
    {
      AfterPrefix(was, done, [p], now, |done|);
      var report := ProcessPeer(p, now);
      reports := if report.Some? then sofar + [report.value] else sofar;
    }

    /** Afterwards the stored readings are exactly those of the peers in the dump. */
    method CalculatePeerBandwidth(lines: seq<Line>, now: int) returns (reports: seq<Report>)
      requires Valid()
      modifies this
      ensures Valid() && lastReadings.Keys == Keys(PeersOf(lines))
      ensures lastReadings == ReadingsAfter(map[], PeersOf(lines), now, |PeersOf(lines)|)
      ensures reports == ReportsAfter(old(lastReadings), PeersOf(lines), now, |PeersOf(lines)|)
    {
      ghost var was, peers := lastReadings, PeersOf(lines);
      reports := ProcessDump(lines, now);
      OthersAreForgotten(was, peers, now, |peers|);
      ReadFromPeers(peers, now, |peers|);
      KeysAreListed(lines, |lines|);
      assert peers[..|peers|] == peers;
      var devicePeers := DevicePeers(lines, |lines|);
      lastReadings := map k | k in lastReadings && k in devicePeers :: lastReadings[k];
    }
  }

  // ---------------------------------------------------------------- a run of polls

  datatype Poll = Poll(peers: seq<Peer>, time: int)

  predicate Distinct(peers: seq<Peer>) {
    forall i, j :: 0 <= i < j < |peers| ==> peers[i].key != peers[j].key
  }

  /** Each poll has distinct peers and is later than the one before. */
  predicate WellFormed(polls: seq<Poll>) {
    && (forall i :: 0 <= i < |polls| ==> Distinct(polls[i].peers))
    && (forall i, j :: 0 <= i < j < |polls| ==> polls[i].time < polls[j].time)
  }

  function Stored(polls: seq<Poll>, n: nat): Readings
    requires n <= |polls|
  {
    if n == 0 then map[]
    else ReadingsAfter(map[], polls[n - 1].peers, polls[n - 1].time, |polls[n - 1].peers|)
  }

  datatype Direction = In | Out

  function Amount(r: Report, d: Direction): nat {
    if d.In? then r.bytesIn else r.bytesOut
  }

  function Counter(p: Peer, d: Direction): nat {
    if d.In? then p.rx else p.tx
  }

  function Last(r: Reading, d: Direction): nat {
    if d.In? then r.rx else r.tx
  }

  /** Bytes that the first n reports attribute to the peer. */
  function Total(reports: seq<Report>, k: string, d: Direction, n: nat): nat
    requires n <= |reports|
  {
    if n == 0 then 0
    else Total(reports, k, d, n - 1) + (if reports[n - 1].key == k then Amount(reports[n - 1], d) else 0)
  }

  lemma {:induction false} TotalPrefix(reports: seq<Report>, more: seq<Report>, k: string, d: Direction, n: nat)
    requires n <= |reports|
    ensures Total(reports + more, k, d, n) == Total(reports, k, d, n)
  {
    if n > 0 {
      TotalPrefix(reports, more, k, d, n - 1);
    }
  }

  lemma TotalNext(before: seq<Report>, r: Option<Report>, k: string, d: Direction)
    ensures var reports := before + (if r.Some? then [r.value] else []);
            Total(reports, k, d, |reports|) ==
            Total(before, k, d, |before|) + (if r.Some? && r.value.key == k then Amount(r.value, d) else 0)
  {
    if r.Some? {
      TotalPrefix(before, [r.value], k, d, |before|);
    } else {
      assert before + [] == before;
    }
  }

  lemma {:induction false} ReadingUntouched(readings: Readings, peers: seq<Peer>, now: int, n: nat, k: string)
    requires n <= |peers| && forall i :: 0 <= i < n ==> peers[i].key != k
    ensures k in ReadingsAfter(readings, peers, now, n) <==> k in readings
    ensures k in readings ==> ReadingsAfter(readings, peers, now, n)[k] == readings[k]
  {
    if n > 0 {
      ReadingUntouched(readings, peers, now, n - 1, k);
    }
  }

  /** What one poll reports for a peer. */
  function Due(readings: Readings, p: Peer, d: Direction, now: int): nat {
    if p.key in readings && now > readings[p.key].time then Growth(Last(readings[p.key], d), Counter(p, d)) else 0
  }

  lemma {:induction false} PollReports(readings: Readings, peers: seq<Peer>, now: int, n: nat, i: nat, d: Direction)
    requires n <= |peers| && i < |peers| && Distinct(peers)
    ensures var reports := ReportsAfter(readings, peers, now, n);
            Total(reports, peers[i].key, d, |reports|) == if i < n then Due(readings, peers[i], d, now) else 0
  {
    if n > 0 {
      PollReports(readings, peers, now, n - 1, i, d);
      var r := ReportFor(ReadingsAfter(readings, peers, now, n - 1), peers[n - 1], now);
      TotalNext(ReportsAfter(readings, peers, now, n - 1), r, peers[i].key, d);
      if i == n - 1 {
        ReadingUntouched(readings, peers, now, n - 1, peers[i].key);
      }
    }
  }

  lemma {:induction false} ReadingIsLast(peers: seq<Peer>, now: int, n: nat, i: nat)
    requires i < n <= |peers| && Distinct(peers)
    ensures peers[i].key in ReadingsAfter(map[], peers, now, n)
    ensures ReadingsAfter(map[], peers, now, n)[peers[i].key] == Reading(peers[i].rx, peers[i].tx, now)
  {
    if i < n - 1 {
      ReadingIsLast(peers, now, n - 1, i);
    }
  }

  /** Bytes that one poll reports for the peer. */
  function PollTotal(stored: Readings, p: Poll, k: string, d: Direction): nat {
    var reports := ReportsAfter(stored, p.peers, p.time, |p.peers|);
    Total(reports, k, d, |reports|)
  }

  /** Bytes that the polls from m + 1 to n - 1 report for the peer. */
  function Reported(polls: seq<Poll>, k: string, d: Direction, m: nat, n: nat): nat
    requires m < n <= |polls|
  {
    if n == m + 1 then 0
    else
      Reported(polls, k, d, m, n - 1) + PollTotal(Stored(polls, n - 1), polls[n - 1], k, d)
  }

  /** The peer is in every poll from m to n - 1, at the positions given. */
  predicate Stays(polls: seq<Poll>, k: string, at: seq<nat>, m: nat, n: nat)
    requires m < n <= |polls|
  {
    |at| == |polls| && forall i :: m <= i < n ==> at[i] < |polls[i].peers| && polls[i].peers[at[i]].key == k
  }

  /** The sum of its counter's growth from poll to poll. */
  function GrowthSum(polls: seq<Poll>, k: string, at: seq<nat>, d: Direction, m: nat, n: nat): nat
    requires m < n <= |polls| && Stays(polls, k, at, m, n)
  {
    if n == m + 1 then 0
    else
      GrowthSum(polls, k, at, d, m, n - 1)
      + Growth(Counter(polls[n - 2].peers[at[n - 2]], d), Counter(polls[n - 1].peers[at[n - 1]], d))
  }

  lemma NextPoll(before: Poll, p: Poll, i: nat, j: nat, d: Direction)
    requires Distinct(before.peers) && Distinct(p.peers) && before.time < p.time
    requires i < |before.peers| && j < |p.peers| && before.peers[i].key == p.peers[j].key
    ensures var stored := ReadingsAfter(map[], before.peers, before.time, |before.peers|);
            PollTotal(stored, p, p.peers[j].key, d) == Growth(Counter(before.peers[i], d), Counter(p.peers[j], d))
  {
    var stored := ReadingsAfter(map[], before.peers, before.time, |before.peers|);
    PollReports(stored, p.peers, p.time, |p.peers|, j, d);
    ReadingIsLast(before.peers, before.time, |before.peers|, i);
  }

  /** While a peer stays on the device, the reports add up to its counter's growth. */
  lemma {:induction false} ReportsAddUp(polls: seq<Poll>, k: string, at: seq<nat>, d: Direction, m: nat, n: nat)
    requires WellFormed(polls) && m < n <= |polls| && Stays(polls, k, at, m, n)
    ensures Reported(polls, k, d, m, n) == GrowthSum(polls, k, at, d, m, n)
  {
    if n > m + 1 {
      ReportsAddUp(polls, k, at, d, m, n - 1);
      NextPoll(polls[n - 2], polls[n - 1], at[n - 2], at[n - 1], d);
      assert Stored(polls, n - 1) == ReadingsAfter(map[], polls[n - 2].peers, polls[n - 2].time, |polls[n - 2].peers|);
    }
  }

  /** If the counter never falls, that is the difference between last and first. */
  lemma {:induction false} GrowthTelescopes(polls: seq<Poll>, k: string, at: seq<nat>, d: Direction, m: nat, n: nat)
    requires m < n <= |polls| && Stays(polls, k, at, m, n)
    requires forall i :: m < i < n ==> Counter(polls[i - 1].peers[at[i - 1]], d) <= Counter(polls[i].peers[at[i]], d)
    ensures GrowthSum(polls, k, at, d, m, n) == Counter(polls[n - 1].peers[at[n - 1]], d) - Counter(polls[m].peers[at[m]], d)
    ensures Counter(polls[m].peers[at[m]], d) <= Counter(polls[n - 1].peers[at[n - 1]], d)
  {
    if n > m + 1 {
      GrowthTelescopes(polls, k, at, d, m, n - 1);
    }
  }

  /** The counter values that were lost when the counter started again from zero. */
  function LostAtResets(polls: seq<Poll>, k: string, at: seq<nat>, d: Direction, m: nat, n: nat): nat
    requires m < n <= |polls| && Stays(polls, k, at, m, n)
  {
    if n == m + 1 then 0
    else
      var before, after := Counter(polls[n - 2].peers[at[n - 2]], d), Counter(polls[n - 1].peers[at[n - 1]], d);
      LostAtResets(polls, k, at, d, m, n - 1) + (if after < before then before else 0)
  }

  lemma {:induction false} GrowthOverResets(polls: seq<Poll>, k: string, at: seq<nat>, d: Direction, m: nat, n: nat)
    requires m < n <= |polls| && Stays(polls, k, at, m, n)
    ensures GrowthSum(polls, k, at, d, m, n) + Counter(polls[m].peers[at[m]], d) ==
            Counter(polls[n - 1].peers[at[n - 1]], d) + LostAtResets(polls, k, at, d, m, n)
  {
    if n > m + 1 {
      GrowthOverResets(polls, k, at, d, m, n - 1);
    }
  }

  /** While a peer stays on the device, however often its counter starts again, what is reported for
      it is the last reading less the first, plus every reading that was lost at a reset. */
  lemma ReportsOverResets(polls: seq<Poll>, k: string, at: seq<nat>, d: Direction, m: nat, n: nat)
    requires WellFormed(polls) && m < n <= |polls| && Stays(polls, k, at, m, n)
    ensures Reported(polls, k, d, m, n) ==
            Counter(polls[n - 1].peers[at[n - 1]], d) - Counter(polls[m].peers[at[m]], d) + LostAtResets(polls, k, at, d, m, n)
  {
    ReportsAddUp(polls, k, at, d, m, n);
    GrowthOverResets(polls, k, at, d, m, n);
  }
}
