/** Joining and splitting "host:port" strings by the rules of Go's net package, which both the
    access log and the target strings rely on. */
module HostPorts {

  datatype HostPort = HostPort(host: string, port: string) | Malformed

  /** Position of the last c before n, or -1. */
  function LastIndex(s: string, c: char, n: nat): (i: int)
    requires n <= |s|
    ensures -1 <= i < n
    ensures i >= 0 ==> s[i] == c
    ensures forall j :: i < j < n ==> s[j] != c
  {
    if n == 0 then -1 else if s[n - 1] == c then n - 1 else LastIndex(s, c, n - 1)
  }

  /** Position of the first c from n on, or -1. */
  function FirstIndex(s: string, c: char, n: nat): (i: int)
    requires n <= |s|
    ensures i == -1 || n <= i < |s|
    ensures i >= 0 ==> s[i] == c && forall j :: n <= j < i ==> s[j] != c
    ensures i == -1 ==> forall j :: n <= j < |s| ==> s[j] != c
    decreases |s| - n
  {
    if n == |s| then -1 else if s[n] == c then n else FirstIndex(s, c, n + 1)
  }

  predicate Contains(s: string, c: char) {
    exists i :: 0 <= i < |s| && s[i] == c
  }

  function Split(s: string): (hp: HostPort) {
    var i := LastIndex(s, ':', |s|);
    if i < 0 then Malformed
    else if s[0] == '[' then
      var end := FirstIndex(s, ']', 0);
      if end < 0 || end + 1 != i then Malformed
      else if Contains(s[1..], '[') || Contains(s[i..], ']') then Malformed
      else HostPort(s[1..end], s[i + 1..])
    else if Contains(s[..i], ':') || Contains(s, '[') || Contains(s, ']') then Malformed
    else HostPort(s[..i], s[i + 1..])
  }

  function Join(host: string, port: string): string {
    if Contains(host, ':') then "[" + host + "]:" + port else host + ":" + port
  }

  /** Neither part of a split contains brackets, and the port contains no colon. */
  predicate Plain(host: string, port: string) {
    && !Contains(host, '[') && !Contains(host, ']')
    && !Contains(port, '[') && !Contains(port, ']') && !Contains(port, ':')
  }

  /** A part of a string without c has no c. */
  lemma PartLacks(s: string, c: char, a: nat, b: nat)
    requires a <= b <= |s| && forall i :: a <= i < b ==> s[i] != c
    ensures !Contains(s[a..b], c)
  {
  }

  lemma LacksFrom(s: string, c: char, a: nat)
    requires a <= |s| && !Contains(s[a..], c)
    ensures forall i :: a <= i < |s| ==> s[i] != c
  {
    forall i | a <= i < |s|
      ensures s[i] != c
    {
      assert s[a..][i - a] == s[i];
    }
  }

  lemma PartIsPlain(s: string, a: nat, b: nat, i: nat)
    requires a <= b <= |s| && i < |s|
    requires forall j :: a <= j < b || i < j < |s| ==> s[j] != '[' && s[j] != ']'
    requires forall j :: i < j < |s| ==> s[j] != ':'
    ensures Plain(s[a..b], s[i + 1..])
  {
    PartLacks(s, '[', a, b);
    PartLacks(s, ']', a, b);
    assert s[i + 1..] == s[i + 1..|s|];
    PartLacks(s, '[', i + 1, |s|);
    PartLacks(s, ']', i + 1, |s|);
    PartLacks(s, ':', i + 1, |s|);
  }

  lemma SplitIsPlain(s: string)
    requires Split(s).HostPort?
    ensures Plain(Split(s).host, Split(s).port)
  {
    var i := LastIndex(s, ':', |s|);
    if s[0] == '[' {
      var end := FirstIndex(s, ']', 0);
      LacksFrom(s, '[', 1);
      LacksFrom(s, ']', i);
      PartIsPlain(s, 1, end, i);
    } else {
      assert s[0..i] == s[..i] && s[0..] == s;
      LacksFrom(s, '[', 0);
      LacksFrom(s, ']', 0);
      PartIsPlain(s, 0, i, i);
    }
  }

  lemma SplitAtColon(s: string, host: string, port: string)
    requires Plain(host, port) && !Contains(host, ':') && s == host + ":" + port
    ensures Split(s) == HostPort(host, port)
  {
    var i := LastIndex(s, ':', |s|);
    assert s[|host|] == ':';
    assert forall j :: |host| < j < |s| ==> s[j] == port[j - |host| - 1];
    assert i == |host|;
    assert forall j :: 0 <= j < |host| ==> s[j] == host[j];
    assert s[..i] == host && s[i + 1..] == port;
  }

  lemma SplitAtBracket(s: string, host: string, port: string)
    requires Plain(host, port) && s == "[" + host + "]:" + port
    ensures Split(s) == HostPort(host, port)
  {
    var n := |host|;
    BracketPositions(s, host, port);
    assert s[1..] == host + "]:" + port && s[n + 2..] == ":" + port;
    assert s[1..n + 1] == host && s[n + 3..] == port;
  }

  lemma BracketPositions(s: string, host: string, port: string)
    requires Plain(host, port) && s == "[" + host + "]:" + port
    ensures s[0] == '[' && LastIndex(s, ':', |s|) == |host| + 2 && FirstIndex(s, ']', 0) == |host| + 1
  {
    var n := |host|;
    assert s[n + 1] == ']' && s[n + 2] == ':';
    assert forall j :: n + 2 < j < |s| ==> s[j] == port[j - n - 3];
    assert forall j :: 1 <= j < n + 1 ==> s[j] == host[j - 1];
  }

  /** Joining undoes splitting, whatever the host looks like. */
  lemma SplitJoin(host: string, port: string)
    requires Plain(host, port)
    ensures Split(Join(host, port)) == HostPort(host, port)
  {
    if Contains(host, ':') {
      SplitAtBracket(Join(host, port), host, port);
    } else {
      SplitAtColon(Join(host, port), host, port);
    }
  }

  /** What is split, and into what: a host in brackets, or one without a colon, then a colon and the
      port, with no other brackets anywhere and no colon in the port. */
  lemma SplitIff(s: string, host: string, port: string)
    ensures Split(s) == HostPort(host, port) <==>
            Plain(host, port) && (s == "[" + host + "]:" + port || (!Contains(host, ':') && s == host + ":" + port))
  {
    if Split(s) == HostPort(host, port) {
      SplitIsPlain(s);
      SplitParts(s);
    }
    if Plain(host, port) && s == "[" + host + "]:" + port {
      SplitAtBracket(s, host, port);
    }
    if Plain(host, port) && !Contains(host, ':') && s == host + ":" + port {
      SplitAtColon(s, host, port);
    }
  }

  lemma SplitParts(s: string)
    requires Split(s).HostPort?
    ensures var hp := Split(s); s == "[" + hp.host + "]:" + hp.port || (!Contains(hp.host, ':') && s == hp.host + ":" + hp.port)
  {
    var i, hp := LastIndex(s, ':', |s|), Split(s);
    if s[0] == '[' {
      CutAtBracket(s, i);
    } else {
      CutAt(s, i, ':');
    }
  }

  lemma CutAt(s: string, i: nat, c: char)
    requires i < |s| && s[i] == c
    ensures s == s[..i] + [c] + s[i + 1..]
  {
  }

  lemma CutAtBracket(s: string, i: nat)
    requires 2 <= i < |s| && s[0] == '[' && s[i - 1] == ']' && s[i] == ':'
    ensures s == "[" + s[1..i - 1] + "]:" + s[i + 1..]
  {
  }
}
