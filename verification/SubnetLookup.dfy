/** The two-level rule index: source prefix, then destination prefix, then the rule.

    The flat meaning of an index is a table, a map from masked prefix pairs to rules. `Run`
    gives the table that a history of adds, removes and replacements should leave, with no
    trie in sight; the class keeps the history as a ghost field and its invariant says that
    the tries hold exactly that table. `Match` is then specified on the table alone.
 */
module SubnetRules {
  import opened Common
  import opened Prefixes

  datatype PortRange = PortRange(min: nat, max: nat, protocol: string)

  datatype SubnetRule = SubnetRule(
    sourcePrefix: Prefix,
    destPrefix: Prefix,
    disableIcmp: bool,
    rewriteTo: string,
    portRanges: seq<PortRange>,
    resourceId: int)

  /** What identifies a rule: its prefixes with host bits cleared. */
  datatype Key = Key(source: Net, dest: Net)

  function KeyOf(r: SubnetRule): Key {
    Key(Masked(r.sourcePrefix), Masked(r.destPrefix))
  }

  type Table = map<Key, SubnetRule>

  // ---------------------------------------------------------------- histories

  datatype Op = Add(rule: SubnetRule) | Remove(source: Prefix, dest: Prefix) | ReplaceAll(rules: seq<SubnetRule>)

  /** The table after adding the first n rules to an empty one. */
  function AddAll(rules: seq<SubnetRule>, n: nat): Table
    requires n <= |rules|
  {
    if n == 0 then map[] else AddAll(rules, n - 1)[KeyOf(rules[n - 1]) := rules[n - 1]]
  }

  function Apply(t: Table, op: Op): Table {
    match op
    case Add(r) => t[KeyOf(r) := r]
    case Remove(s, d) => t - {Key(Masked(s), Masked(d))}
    case ReplaceAll(rules) => AddAll(rules, |rules|)
  }

  /** The table after the first n operations. */
  function Run(ops: seq<Op>, n: nat): Table
    requires n <= |ops|
  {
    if n == 0 then map[] else Apply(Run(ops, n - 1), ops[n - 1])
  }

  lemma {:induction false} RunOfPrefix(ops: seq<Op>, op: Op, n: nat)
    requires n <= |ops|
    ensures Run(ops + [op], n) == Run(ops, n)
  {
    if n > 0 {
      RunOfPrefix(ops, op, n - 1);
    }
  }

  /** The operation can change what is stored under k. */
  predicate Touches(op: Op, k: Key) {
    match op
    case Add(r) => KeyOf(r) == k
    case Remove(s, d) => Key(Masked(s), Masked(d)) == k
    case ReplaceAll(_) => true
  }

  /** Among the first n rules, rule m is the last one with key k. */
  predicate LastWithKey(rules: seq<SubnetRule>, n: nat, m: nat, k: Key) {
    m < n <= |rules| && KeyOf(rules[m]) == k && forall j :: m < j < n ==> KeyOf(rules[j]) != k
  }

  /** The operation leaves rule r under k. */
  ghost predicate Leaves(op: Op, k: Key, r: SubnetRule) {
    match op
    case Add(r') => r' == r && KeyOf(r) == k
    case Remove(_, _) => false
    case ReplaceAll(rules) => exists m: nat :: LastWithKey(rules, |rules|, m, k) && rules[m] == r
  }

  /** Among the first n operations, operation i left r under k and none since has touched k. */
  ghost predicate LastWrite(ops: seq<Op>, n: nat, i: nat, k: Key, r: SubnetRule) {
    i < n <= |ops| && Leaves(ops[i], k, r) && forall j :: i < j < n ==> !Touches(ops[j], k)
  }

  lemma {:induction false} AddAllHas(rules: seq<SubnetRule>, n: nat, k: Key) returns (m: nat)
    requires n <= |rules| && k in AddAll(rules, n)
    ensures LastWithKey(rules, n, m, k) && AddAll(rules, n)[k] == rules[m]
  {
    if KeyOf(rules[n - 1]) == k {
      m := n - 1;
    } else {
      m := AddAllHas(rules, n - 1, k);
    }
  }

  lemma {:induction false} AddAllKeeps(rules: seq<SubnetRule>, n: nat, m: nat, k: Key)
    requires LastWithKey(rules, n, m, k)
    ensures k in AddAll(rules, n) && AddAll(rules, n)[k] == rules[m]
  {
    if m < n - 1 {
      AddAllKeeps(rules, n - 1, m, k);
    }
  }

  lemma {:induction false} RunHas(ops: seq<Op>, n: nat, k: Key) returns (i: nat)
    requires n <= |ops| && k in Run(ops, n)
    ensures LastWrite(ops, n, i, k, Run(ops, n)[k])
  {
    var last := ops[n - 1];
    if Touches(last, k) {
      i := n - 1;
      if last.ReplaceAll? {
        var m := AddAllHas(last.rules, |last.rules|, k);
      }
    } else {
      i := RunHas(ops, n - 1, k);
    }
  }

  lemma {:induction false} RunKeeps(ops: seq<Op>, n: nat, i: nat, k: Key, r: SubnetRule)
    requires LastWrite(ops, n, i, k, r)
    ensures k in Run(ops, n) && Run(ops, n)[k] == r
  {
    var last := ops[n - 1];
    if i < n - 1 {
      RunKeeps(ops, n - 1, i, k, r);
    } else if last.ReplaceAll? {
      var m: nat :| LastWithKey(last.rules, |last.rules|, m, k) && last.rules[m] == r;
      AddAllKeeps(last.rules, |last.rules|, m, k);
    }
  }

  /** After any history, a rule is stored under a key if and only if it is the last one written
      there and neither removed nor replaced since. */
  lemma RunIsLastWrite(ops: seq<Op>, n: nat, k: Key, r: SubnetRule)
    requires n <= |ops|
    ensures k in Run(ops, n) && Run(ops, n)[k] == r <==> exists i: nat :: LastWrite(ops, n, i, k, r)
  {
    if k in Run(ops, n) {
      var i := RunHas(ops, n, k);
    }
    if i: nat :| LastWrite(ops, n, i, k, r) {
      RunKeeps(ops, n, i, k, r);
    }
  }

  /** Every stored rule sits under its own key. */
  lemma RunIsKeyed(ops: seq<Op>, n: nat)
    requires n <= |ops|
    ensures forall k :: k in Run(ops, n) ==> KeyOf(Run(ops, n)[k]) == k
  {
    forall k | k in Run(ops, n)
      ensures KeyOf(Run(ops, n)[k]) == k
    {
      var i := RunHas(ops, n, k);
      assert Leaves(ops[i], k, Run(ops, n)[k]);
    }
  }

  /** Two rules are for the same pair of networks. */
  predicate SamePair(a: SubnetRule, b: SubnetRule) {
    a.sourcePrefix.net == b.sourcePrefix.net && a.destPrefix.net == b.destPrefix.net
  }

  /** The operation brings in rule r. */
  ghost predicate Brings(op: Op, r: SubnetRule) {
    match op
    case Add(a) => a == r
    case Remove(_, _) => false
    case ReplaceAll(rules) =>
      exists m :: 0 <= m < |rules| && rules[m] == r && forall j :: m < j < |rules| ==> !SamePair(rules[j], r)
  }

  /** The operation takes out whatever rule is for the pair of r, or puts another in its place. */
  predicate Ousts(op: Op, r: SubnetRule) {
    match op
    case Add(a) => SamePair(a, r)
    case Remove(source, dest) => source.net == r.sourcePrefix.net && dest.net == r.destPrefix.net
    case ReplaceAll(_) => true
  }

  /** So a rule is in the index if and only if some operation brought it in and none since has ousted
      it. */
  lemma InTableIff(ops: seq<Op>, n: nat, r: SubnetRule)
    requires n <= |ops|
    ensures r in Run(ops, n).Values <==>
            exists i :: 0 <= i < n && Brings(ops[i], r) && forall j :: i < j < n ==> !Ousts(ops[j], r)
  {
    var k := KeyOf(r);
    forall a: SubnetRule
      ensures SamePair(a, r) <==> KeyOf(a) == k
    {
    }
    RunIsKeyed(ops, n);
    if r in Run(ops, n).Values {
      assert k in Run(ops, n) && Run(ops, n)[k] == r;
      var i := RunHas(ops, n, k);
      assert Brings(ops[i], r) && forall j :: i < j < n ==> !Ousts(ops[j], r);
    }
    if i :| 0 <= i < n && Brings(ops[i], r) && forall j :: i < j < n ==> !Ousts(ops[j], r) {
      BroughtIsLeft(ops[i], r);
      assert LastWrite(ops, n, i, k, r);
      RunKeeps(ops, n, i, k, r);
    }
  }

  lemma BroughtIsLeft(op: Op, r: SubnetRule)
    requires Brings(op, r)
    ensures Leaves(op, KeyOf(r), r)
  {
    if op.ReplaceAll? {
      var m: nat :| m < |op.rules| && op.rules[m] == r && forall j :: m < j < |op.rules| ==> !SamePair(op.rules[j], r);
      assert LastWithKey(op.rules, |op.rules|, m, KeyOf(r));
    }
  }

  /** A full replacement leaves what adding the rules one by one to a new index would. */
  lemma {:induction false} ReplaceIsAddingToEmpty(rules: seq<SubnetRule>, adds: seq<Op>, n: nat)
    requires |adds| == |rules| && (forall i :: 0 <= i < |rules| ==> adds[i] == Op.Add(rules[i])) && n <= |rules|
    ensures Run(adds, n) == AddAll(rules, n)
    ensures n == |rules| ==> forall t :: Apply(t, Op.ReplaceAll(rules)) == Run(adds, n)
  {
    if n > 0 {
      ReplaceIsAddingToEmpty(rules, adds, n - 1);
    }
  }

  // ---------------------------------------------------------------- matching on the table

  predicate IsIcmp(proto: nat) {
    proto == ICMP_V4 || proto == ICMP_V6
  }

  predicate RangeAllows(pr: PortRange, port: nat, proto: nat) {
    && pr.min <= port <= pr.max
    && (pr.protocol == "" || (pr.protocol == "tcp" && proto == TCP) || (pr.protocol == "udp" && proto == UDP))
  }

  /** The rule settles the packet: always for ICMP, otherwise when its port ranges let it in. */
  predicate Settles(r: SubnetRule, port: nat, proto: nat) {
    || IsIcmp(proto)
    || r.portRanges == []
    || exists i :: 0 <= i < |r.portRanges| && RangeAllows(r.portRanges[i], port, proto)
  }

  function Verdict(r: SubnetRule, proto: nat): (v: Option<SubnetRule>) {
    if IsIcmp(proto) && r.disableIcmp then None else Some(r)
  }

  /** The pair under k covers the packet and its rule settles it. */
  predicate Candidate(t: Table, k: Key, src: Addr, dst: Addr, port: nat, proto: nat) {
    k in t && Covers(k.source, src) && Covers(k.dest, dst) && Settles(t[k], port, proto)
  }

  /** Longer source prefix first, then longer destination prefix. */
  predicate MoreSpecific(a: Key, b: Key) {
    || a.source.len > b.source.len
    || (a.source.len == b.source.len && a.dest.len > b.dest.len)
  }

  ghost predicate Decisive(t: Table, k: Key, src: Addr, dst: Addr, port: nat, proto: nat) {
    && Candidate(t, k, src, dst, port, proto)
    && forall o :: o != k && Candidate(t, o, src, dst, port, proto) ==> MoreSpecific(k, o)
  }

  /** With a candidate there is a decisive pair, and never two. */
  lemma {:induction false} CandidateYieldsDecisive(t: Table, c: Key, src: Addr, dst: Addr, port: nat, proto: nat)
    returns (best: Key)
    requires Candidate(t, c, src, dst, port, proto)
    ensures Decisive(t, best, src, dst, port, proto)
    ensures forall o :: Decisive(t, o, src, dst, port, proto) ==> o == best
    decreases Width(src) - c.source.len, Width(dst) - c.dest.len
  {
    if o :| o != c && Candidate(t, o, src, dst, port, proto) && !MoreSpecific(c, o) {
      best := CandidateYieldsDecisive(t, o, src, dst, port, proto);
    } else {
      best := c;
    }
  }

  /** What the table says about a packet. */
  ghost function FlatMatch(t: Table, src: Addr, dst: Addr, port: nat, proto: nat): (r: Option<SubnetRule>) {
    if k :| Decisive(t, k, src, dst, port, proto) then Verdict(t[k], proto) else None
  }

  // ---------------------------------------------------------------- the same, spelled out

  predicate CoversBoth(k: Key, src: Addr, dst: Addr) {
    Covers(k.source, src) && Covers(k.dest, dst)
  }

  /** The most specific pair of the table that covers the packet. */
  ghost predicate Nearest(t: Table, k: Key, src: Addr, dst: Addr) {
    && k in t && CoversBoth(k, src, dst)
    && (forall o :: o in t && o != k && CoversBoth(o, src, dst) ==>
          k.source.len > o.source.len || (k.source.len == o.source.len && k.dest.len > o.dest.len))
  }

  /** The rule lets the packet in: it has no port ranges, or one for the port and the protocol. */
  predicate Admits(r: SubnetRule, port: nat, proto: nat) {
    r.portRanges == [] || exists i :: 0 <= i < |r.portRanges| && LetsIn(r.portRanges[i], port, proto)
  }

  predicate LetsIn(pr: PortRange, port: nat, proto: nat) {
    && pr.min <= port && port <= pr.max
    && (if pr.protocol == "tcp" then proto == 6 else if pr.protocol == "udp" then proto == 17 else pr.protocol == "")
  }

  /** The most specific pair that covers the packet and whose rule lets it in. */
  ghost predicate NearestAdmitting(t: Table, k: Key, src: Addr, dst: Addr, port: nat, proto: nat) {
    && k in t && CoversBoth(k, src, dst) && Admits(t[k], port, proto)
    && (forall o :: o in t && o != k && CoversBoth(o, src, dst) && Admits(t[o], port, proto) ==>
          k.source.len > o.source.len || (k.source.len == o.source.len && k.dest.len > o.dest.len))
  }

  /** For ICMP the most specific pair alone decides, and its rule may turn the packet away. */
  lemma IcmpMatchIff(t: Table, src: Addr, dst: Addr, port: nat, proto: nat, r: SubnetRule)
    requires proto == 1 || proto == 58
    ensures FlatMatch(t, src, dst, port, proto) == Some(r) <==> exists k :: Nearest(t, k, src, dst) && t[k] == r && !r.disableIcmp
    ensures FlatMatch(t, src, dst, port, proto) == None <==>
            (forall k :: k in t ==> !CoversBoth(k, src, dst)) || exists k :: Nearest(t, k, src, dst) && t[k].disableIcmp
  {
    assert forall k :: Candidate(t, k, src, dst, port, proto) <==> k in t && CoversBoth(k, src, dst);
    assert forall k :: Decisive(t, k, src, dst, port, proto) <==> Nearest(t, k, src, dst);
    if c :| Candidate(t, c, src, dst, port, proto) {
      var best := CandidateYieldsDecisive(t, c, src, dst, port, proto);
      assert Nearest(t, best, src, dst);
    }
  }

  lemma AdmitsIsSettles(r: SubnetRule, port: nat, proto: nat)
    requires proto != 1 && proto != 58
    ensures Admits(r, port, proto) <==> Settles(r, port, proto)
  {
    forall i | 0 <= i < |r.portRanges|
      ensures RangeAllows(r.portRanges[i], port, proto) <==> LetsIn(r.portRanges[i], port, proto)
    {
    }
  }

  /** For everything else a rule that does not let the packet in is passed over. */
  lemma PortMatchIff(t: Table, src: Addr, dst: Addr, port: nat, proto: nat, r: SubnetRule)
    requires proto != 1 && proto != 58
    ensures FlatMatch(t, src, dst, port, proto) == Some(r) <==> exists k :: NearestAdmitting(t, k, src, dst, port, proto) && t[k] == r
    ensures FlatMatch(t, src, dst, port, proto) == None <==>
            forall k :: k in t && CoversBoth(k, src, dst) ==> !Admits(t[k], port, proto)
  {
    forall k | k in t
      ensures Admits(t[k], port, proto) <==> Settles(t[k], port, proto)
    {
      AdmitsIsSettles(t[k], port, proto);
    }
    assert forall k :: Candidate(t, k, src, dst, port, proto) <==> k in t && CoversBoth(k, src, dst) && Admits(t[k], port, proto);
    assert forall k :: Decisive(t, k, src, dst, port, proto) <==> NearestAdmitting(t, k, src, dst, port, proto);
    if c :| Candidate(t, c, src, dst, port, proto) {
      var best := CandidateYieldsDecisive(t, c, src, dst, port, proto);
      assert NearestAdmitting(t, best, src, dst, port, proto);
    }
  }

  /** The rule that is to be applied to a packet. */
  ghost predicate Applies(t: Table, r: SubnetRule, src: Addr, dst: Addr, port: nat, proto: nat) {
    if proto == 1 || proto == 58
    then exists k :: Nearest(t, k, src, dst) && t[k] == r && !r.disableIcmp
    else exists k :: NearestAdmitting(t, k, src, dst, port, proto) && t[k] == r
  }

  lemma MatchIsApplied(t: Table, src: Addr, dst: Addr, port: nat, proto: nat)
    ensures forall r :: FlatMatch(t, src, dst, port, proto) == Some(r) <==> Applies(t, r, src, dst, port, proto)
  {
    forall r
      ensures FlatMatch(t, src, dst, port, proto) == Some(r) <==> Applies(t, r, src, dst, port, proto)
    {
      if proto == 1 || proto == 58 {
        IcmpMatchIff(t, src, dst, port, proto, r);
      } else {
        PortMatchIff(t, src, dst, port, proto, r);
      }
    }
  }

  // ---------------------------------------------------------------- the index

  /** The rules below one source prefix: by destination prefix, and as a list. */
  datatype DestTrie = DestTrie(trie: map<Net, SubnetRule>, rules: seq<SubnetRule>)

  predicate DistinctKeys(rules: seq<SubnetRule>) {
    forall i, j :: 0 <= i < j < |rules| ==> KeyOf(rules[i]) != KeyOf(rules[j])
  }

  /** The trie holds r under its own destination. */
  predicate IsAt(trie: map<Net, SubnetRule>, s: Net, r: SubnetRule) {
    KeyOf(r).source == s && KeyOf(r).dest in trie && trie[KeyOf(r).dest] == r
  }

  /** The trie and the side list hold the same rules, one per pair. */
  predicate Agree(s: Net, dt: DestTrie) {
    && (forall d :: d in dt.trie ==> KeyOf(dt.trie[d]) == Key(s, d) && dt.trie[d] in dt.rules)
    && (forall i :: 0 <= i < |dt.rules| ==> IsAt(dt.trie, s, dt.rules[i]))
    && DistinctKeys(dt.rules)
  }

  /** Every destination trie agrees with its list and none is empty. */
  predicate WellKept(st: map<Net, DestTrie>) {
    forall s :: s in st ==> Agree(s, st[s]) && st[s].trie != map[]
  }

  /** The tries hold exactly the pairs of the table. */
  ghost predicate Holds(st: map<Net, DestTrie>, t: Table) {
    && (forall k :: k in t ==> k.source in st && k.dest in st[k.source].trie && t[k] == st[k.source].trie[k.dest])
    && (forall s, d :: s in st && d in st[s].trie ==> Key(s, d) in t)
  }

  /** Drops the rules with key k; what is left keeps its order and stays distinct. */
  method DropRule(rules: seq<SubnetRule>, k: Key) returns (kept: seq<SubnetRule>)
    ensures forall r :: r in kept <==> r in rules && KeyOf(r) != k
    ensures DistinctKeys(rules) ==> DistinctKeys(kept)
  {
    kept := [];
    for i := 0 to |rules|
      invariant forall r :: r in kept <==> r in rules[..i] && KeyOf(r) != k
      invariant DistinctKeys(rules) ==> DistinctKeys(kept)
    {
      assert rules[..i + 1] == rules[..i] + [rules[i]];
      if KeyOf(rules[i]) != k {
        if DistinctKeys(rules) {
          forall j | 0 <= j < |kept|
            ensures KeyOf(kept[j]) != KeyOf(rules[i])
          {
            assert kept[j] in rules[..i];
          }
        }
        kept := kept + [rules[i]];
      }
    }
    assert rules[..|rules|] == rules;
  }

  /** Puts a rule in place of any older one with the same destination, in trie and list. */
  method Insert(s: Net, dt: DestTrie, rule: SubnetRule) returns (dt': DestTrie)
    requires Agree(s, dt) && KeyOf(rule).source == s
    ensures Agree(s, dt') && dt'.trie == dt.trie[KeyOf(rule).dest := rule]
  {
    var k := KeyOf(rule);
    var kept := DropRule(dt.rules, k);
    dt' := DestTrie(dt.trie[k.dest := rule], kept + [rule]);
    forall i | 0 <= i < |kept|
      ensures IsAt(dt'.trie, s, kept[i]) && KeyOf(kept[i]) != k
    {
      assert kept[i] in kept;
    }
    forall d | d in dt'.trie
      ensures dt'.trie[d] in dt'.rules
    {
      if d == k.dest {
        assert dt'.rules[|kept|] == rule;
      } else {
        assert dt.trie[d] in kept;
      }
    }
  }

  /** Takes the rule for one destination out of trie and list. */
  method Delete(s: Net, dt: DestTrie, d: Net) returns (dt': DestTrie)
    requires Agree(s, dt)
    ensures Agree(s, dt') && dt'.trie == dt.trie - {d}
  {
    var kept := DropRule(dt.rules, Key(s, d));
    dt' := DestTrie(dt.trie - {d}, kept);
    forall i | 0 <= i < |kept|
      ensures IsAt(dt'.trie, s, kept[i])
    {
      assert kept[i] in kept;
    }
  }

  lemma UpdateKept(st: map<Net, DestTrie>, s: Net, dt: DestTrie)
    requires WellKept(st) && Agree(s, dt) && dt.trie != map[]
    ensures WellKept(st[s := dt])
  {
  }

  lemma DropKept(st: map<Net, DestTrie>, s: Net)
    requires WellKept(st)
    ensures WellKept(st - {s})
  {
  }

  /** What the side list below one source contributes: that source's part of the table. */
  lemma SideList(st: map<Net, DestTrie>, t: Table, s: Net, more: seq<SubnetRule>)
    requires WellKept(st) && Holds(st, t) && s in st && more == st[s].rules
    ensures DistinctKeys(more)
    ensures forall i :: 0 <= i < |more| ==>
                          KeyOf(more[i]).source == s && KeyOf(more[i]) in t && t[KeyOf(more[i])] == more[i]
    ensures forall k :: k in t && k.source == s ==> t[k] in more
  {
    forall i | 0 <= i < |more|
      ensures KeyOf(more[i]).source == s && KeyOf(more[i]) in t && t[KeyOf(more[i])] == more[i]
    {
      assert IsAt(st[s].trie, s, more[i]);
      assert Key(s, KeyOf(more[i]).dest) in t;
    }
  }

  lemma StoreHolds(st: map<Net, DestTrie>, t: Table, dt: DestTrie, k: Key, rule: SubnetRule)
    requires Holds(st, t)
    requires dt.trie == (if k.source in st then st[k.source].trie else map[])[k.dest := rule]
    ensures Holds(st[k.source := dt], t[k := rule])
  {
    var st', t' := st[k.source := dt], t[k := rule];
    forall j | j in t'
      ensures j.source in st' && j.dest in st'[j.source].trie && t'[j] == st'[j.source].trie[j.dest]
    {
      assert j == k || j in t;
    }
    forall s, d | s in st' && d in st'[s].trie
      ensures Key(s, d) in t'
    {
      if Key(s, d) != k {
        assert s in st && d in st[s].trie;
      }
    }
  }

  lemma TakeHolds(st: map<Net, DestTrie>, t: Table, s: Net, d: Net, dt: DestTrie)
    requires Holds(st, t) && s in st && dt.trie == st[s].trie - {d}
    ensures Holds(st[s := dt], t - {Key(s, d)})
  {
  }

  lemma AbsentHolds(st: map<Net, DestTrie>, t: Table, s: Net, d: Net)
    requires Holds(st, t) && s !in st
    ensures Holds(st, t - {Key(s, d)})
  {
  }

  lemma TakeLastHolds(st: map<Net, DestTrie>, t: Table, s: Net, d: Net)
    requires Holds(st, t) && s in st && st[s].trie - {d} == map[]
    ensures Holds(st - {s}, t - {Key(s, d)})
  {
    assert forall e :: e in st[s].trie ==> e == d || e in st[s].trie - {d};
  }

  /** The list holds the table's rules for the sources no longer in `left`, each once. */
  ghost predicate Lists(rules: seq<SubnetRule>, t: Table, left: set<Net>) {
    && DistinctKeys(rules)
    && (forall i :: 0 <= i < |rules| ==>
          KeyOf(rules[i]).source !in left && KeyOf(rules[i]) in t && t[KeyOf(rules[i])] == rules[i])
    && (forall k :: k in t && k.source !in left ==> t[k] in rules)
  }

  lemma ListStep(rules: seq<SubnetRule>, more: seq<SubnetRule>, t: Table, left: set<Net>, s: Net)
    requires Lists(rules, t, left) && s in left && DistinctKeys(more)
    requires forall i :: 0 <= i < |more| ==>
                           KeyOf(more[i]).source == s && KeyOf(more[i]) in t && t[KeyOf(more[i])] == more[i]
    requires forall k :: k in t && k.source == s ==> t[k] in more
    ensures Lists(rules + more, t, left - {s})
  {
    var all := rules + more;
    forall i, j | 0 <= i < j < |all|
      ensures KeyOf(all[i]) != KeyOf(all[j])
    {
      if i < |rules| <= j {
        assert KeyOf(rules[i]).source != KeyOf(more[j - |rules|]).source;
      }
    }
  }

  class SubnetLookup {
    var sourceTrie: map<Net, DestTrie>
    ghost var history: seq<Op>

    ghost predicate Valid()
      reads this
    {
      WellKept(sourceTrie) && Holds(sourceTrie, Table())
    }

    /** The table the history calls for. */
    ghost function Table(): Table
      reads this
    {
      Run(history, |history|)
    }

    constructor ()
      ensures Valid() && history == []
    {
      sourceTrie, history := map[], [];
    }

    method AddLocked(rule: SubnetRule, ghost t: Table)
      requires WellKept(sourceTrie) && Holds(sourceTrie, t)
      modifies this`sourceTrie
      ensures WellKept(sourceTrie) && Holds(sourceTrie, t[KeyOf(rule) := rule])
    {
      var k := KeyOf(rule);
      var dt := DestTrie(map[], []);
      if k.source in sourceTrie {
        dt := sourceTrie[k.source];
      }
      var dt' := Insert(k.source, dt, rule);
      StoreHolds(sourceTrie, t, dt', k, rule);
      assert k.dest in dt'.trie;
      UpdateKept(sourceTrie, k.source, dt');
      sourceTrie := sourceTrie[k.source := dt'];
    }

    method Add(rule: SubnetRule)
      requires Valid()
      modifies this
      ensures Valid() && history == old(history) + [Op.Add(rule)]
    {
      AddLocked(rule, Table());
      history := history + [Op.Add(rule)];
      RunOfPrefix(old(history), Op.Add(rule), |old(history)|);
    }

    method ReplaceAll(rules: seq<SubnetRule>)
      requires Valid()
      modifies this
      ensures Valid() && history == old(history) + [Op.ReplaceAll(rules)]
    {
      sourceTrie := map[];
      for i := 0 to |rules|
        invariant WellKept(sourceTrie) && Holds(sourceTrie, AddAll(rules, i))
        invariant history == old(history)
      {
        AddLocked(rules[i], AddAll(rules, i));
      }
      history := history + [Op.ReplaceAll(rules)];
    }

    method Remove(source: Prefix, dest: Prefix)
      requires Valid()
      modifies this
      ensures Valid() && history == old(history) + [Op.Remove(source, dest)]
    {
      RemoveLocked(Masked(source), Masked(dest), Table());
      history := history + [Op.Remove(source, dest)];
      RunOfPrefix(old(history), Op.Remove(source, dest), |old(history)|);
    }

    method RemoveLocked(s: Net, d: Net, ghost t: Table)
      requires WellKept(sourceTrie) && Holds(sourceTrie, t)
      modifies this`sourceTrie
      ensures WellKept(sourceTrie) && Holds(sourceTrie, t - {Key(s, d)})
    {
      if s !in sourceTrie {
        AbsentHolds(sourceTrie, t, s, d);
        return;
      }
      var dt' := Delete(s, sourceTrie[s], d);
      if |dt'.trie| == 0 {
        TakeLastHolds(sourceTrie, t, s, d);
        DropKept(sourceTrie, s);
        sourceTrie := sourceTrie - {s};
      } else {
        TakeHolds(sourceTrie, t, s, d, dt');
        UpdateKept(sourceTrie, s, dt');
        sourceTrie := sourceTrie[s := dt'];
      }
    }

    static method PortAllowed(r: SubnetRule, port: nat, proto: nat) returns (ok: bool)
      requires !IsIcmp(proto)
      ensures ok <==> Settles(r, port, proto)
    {
      if |r.portRanges| == 0 {
        return true;
      }
      for i := 0 to |r.portRanges|
        invariant forall j :: 0 <= j < i ==> !RangeAllows(r.portRanges[j], port, proto)
      {
        var pr := r.portRanges[i];
        if port >= pr.min && port <= pr.max {
          if pr.protocol == "" {
            return true;
          }
          if (pr.protocol == "tcp" && proto == TCP) || (pr.protocol == "udp" && proto == UDP) {
            return true;
          }
        }
      }
      return false;
    }

    /** The inner walk: the longest covering destination whose rule settles the packet. */
    static method MatchDest(trie: map<Net, SubnetRule>, dst: Addr, port: nat, proto: nat) returns (found: Option<Net>)
      ensures found.None? ==> forall d :: d in trie && Covers(d, dst) ==> !Settles(trie[d], port, proto)
      ensures found.Some? ==> found.value in trie && Covers(found.value, dst) && Settles(trie[found.value], port, proto)
      ensures found.Some? ==>
                forall e :: e in trie && Covers(e, dst) && Settles(trie[e], port, proto)
                            ==> e == found.value || e.len < found.value.len
    {
      for n := Width(dst) + 1 downto 0
        invariant forall d :: d in trie && Covers(d, dst) && d.len >= n ==> !Settles(trie[d], port, proto)
      {
        var d := NetOf(dst, n);
        if d in trie {
          var settled := true;
          if !IsIcmp(proto) {
            settled := PortAllowed(trie[d], port, proto);
          }
          if settled {
            return Some(d);
          }
        }
      }
      return None;
    }

    /** The most specific covering pair whose rule settles the packet decides it: the rule, or
        nothing when that rule turns ICMP away. Without such a pair there is no match. */
    method Match(src: Addr, dst: Addr, port: nat, proto: nat) returns (result: Option<SubnetRule>)
      requires Valid()
      ensures forall k :: Decisive(Table(), k, src, dst, port, proto) ==> result == Verdict(Table()[k], proto)
      ensures result.Some? ==> Decisive(Table(), KeyOf(result.value), src, dst, port, proto)
      ensures !IsIcmp(proto) ==> (result.None? <==> forall k :: !Candidate(Table(), k, src, dst, port, proto))
      ensures result == FlatMatch(Table(), src, dst, port, proto)
      ensures forall r :: result == Some(r) <==> Applies(Table(), r, src, dst, port, proto)
    {
      RunIsKeyed(history, |history|);
      result := MatchTries(sourceTrie, Table(), src, dst, port, proto);
      MatchIsApplied(Table(), src, dst, port, proto);
    }

    static method MatchTries(st: map<Net, DestTrie>, ghost t: Table, src: Addr, dst: Addr, port: nat, proto: nat)
      returns (result: Option<SubnetRule>)
      requires Holds(st, t)
      requires forall k :: k in t ==> KeyOf(t[k]) == k
      ensures forall k :: Decisive(t, k, src, dst, port, proto) ==> result == Verdict(t[k], proto)
      ensures result.Some? ==> Decisive(t, KeyOf(result.value), src, dst, port, proto)
      ensures !IsIcmp(proto) ==> (result.None? <==> forall k :: !Candidate(t, k, src, dst, port, proto))
      ensures (forall k :: !Decisive(t, k, src, dst, port, proto)) ==> result.None?
    {
      for n := Width(src) + 1 downto 0
        invariant forall k :: Candidate(t, k, src, dst, port, proto) ==> k.source.len < n
      {
        var s := NetOf(src, n);
        if s in st {
          var trie := st[s].trie;
          var found := MatchDest(trie, dst, port, proto);
          if found.Some? {
            var rule := trie[found.value];
            ghost var k := Key(s, found.value);
            assert k in t;
            assert Decisive(t, k, src, dst, port, proto);
            if IsIcmp(proto) && rule.disableIcmp {
              return None;
            }
            return Some(rule);
          }
        }
      }
      return None;
    }

    /** Lists every stored rule exactly once. */
    method GetAllRules() returns (rules: seq<SubnetRule>)
      requires Valid()
      ensures DistinctKeys(rules)
      ensures forall i :: 0 <= i < |rules| ==> KeyOf(rules[i]) in Table() && Table()[KeyOf(rules[i])] == rules[i]
      ensures forall k :: k in Table() ==> Table()[k] in rules
    {
      rules := ListRules(sourceTrie, Table());
    }

    static method ListRules(st: map<Net, DestTrie>, ghost t: Table) returns (rules: seq<SubnetRule>)
      requires WellKept(st) && Holds(st, t)
      ensures Lists(rules, t, {})
    {
      rules := [];
      var left := st.Keys;
      while left != {}
        invariant left <= st.Keys && Lists(rules, t, left)
      {
        var s :| s in left;
        SideList(st, t, s, st[s].rules);
        ListStep(rules, st[s].rules, t, left, s);
        left := left - {s};
        rules := rules + st[s].rules;
      }
    }
  }
}
