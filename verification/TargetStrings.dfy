/** Target strings: "listenPort:host:targetPort". */
module TargetStrings {
  import opened Common
  import opened HostPorts

  datatype Entry = Entry(port: int, target: string)

  const MAX_PORT := 65535
  const MAX_INT := 0x7fff_ffff_ffff_ffff

  // ---------------------------------------------------------------- decimal numbers

  predicate IsDigit(c: char) {
    '0' <= c <= '9'
  }

  function Digit(d: nat): (c: char)
    requires d < 10
    ensures IsDigit(c) && DigitValue(c) == d
  {
    ('0' as int + d) as char
  }

  function DigitValue(c: char): nat
    requires IsDigit(c)
  {
    c as int - '0' as int
  }

  function Digits(n: nat): (s: string)
    ensures |s| > 0 && forall i :: 0 <= i < |s| ==> IsDigit(s[i])
  {
    if n < 10 then [Digit(n)] else Digits(n / 10) + [Digit(n % 10)]
  }

  function Decimal(n: int): string {
    if n < 0 then "-" + Digits(-n) else Digits(n)
  }

  /** How many of the characters from i on are digits, up to the first that is not. */
  function DigitsEnd(s: string, i: nat): (e: nat)
    requires i <= |s|
    ensures i <= e <= |s| && forall j :: i <= j < e ==> IsDigit(s[j])
    decreases |s| - i
  {
    if i < |s| && IsDigit(s[i]) then DigitsEnd(s, i + 1) else i
  }

  function Value(s: string): nat
    requires forall i :: 0 <= i < |s| ==> IsDigit(s[i])
  {
    if |s| == 0 then 0 else Value(s[..|s| - 1]) * 10 + DigitValue(s[|s| - 1])
  }

  function SkipBlanks(s: string, i: nat): (e: nat)
    requires i <= |s|
    ensures i <= e <= |s|
    decreases |s| - i
  {
    if i < |s| && (s[i] == ' ' || s[i] == '\t') then SkipBlanks(s, i + 1) else i
  }

  /** Scanning a decimal number: blanks, a sign and digits; whatever follows is ignored. */
  function Scan(s: string): Option<int> {
    var i := SkipBlanks(s, 0);
    var signed := i < |s| && (s[i] == '-' || s[i] == '+');
    var b := if signed then i + 1 else i;
    var e := DigitsEnd(s, b);
    if e == b then None
    else
      var magnitude: int := Value(s[b..e]);
      var v := if signed && s[i] == '-' then -magnitude else magnitude;
      if -MAX_INT - 1 <= v <= MAX_INT then Some(v) else None
  }

  lemma {:induction false} ValueOfDigits(n: nat)
    ensures Value(Digits(n)) == n
  {
    if n < 10 {
      assert Digits(n)[..0] == "";
    } else {
      ValueOfDigits(n / 10);
      assert Digits(n)[..|Digits(n)| - 1] == Digits(n / 10);
    }
  }

  lemma {:induction false} AllDigits(s: string, i: nat)
    requires i <= |s| && forall j :: i <= j < |s| ==> IsDigit(s[j])
    ensures DigitsEnd(s, i) == |s|
    decreases |s| - i
  {
    if i < |s| {
      AllDigits(s, i + 1);
    }
  }

  /** A text with the sign and the digits of a number scans to that number. */
  lemma ScanText(s: string, negative: bool, digits: string)
    requires |digits| > 0 && forall i :: 0 <= i < |digits| ==> IsDigit(digits[i])
    requires s == if negative then "-" + digits else digits
    ensures var v := if negative then -(Value(digits) as int) else Value(digits);
            Scan(s) == if -MAX_INT - 1 <= v <= MAX_INT then Some(v) else None
  {
    var b := if negative then 1 else 0;
    TextParts(s, b, digits);
    AllDigits(s, b);
    NoBlanks(s);
  }

  lemma NoBlanks(s: string)
    requires |s| > 0 && s[0] != ' ' && s[0] != '\t'
    ensures SkipBlanks(s, 0) == 0
  {
  }

  lemma TextParts(s: string, b: nat, digits: string)
    requires s == (if b == 1 then "-" else "") + digits && b <= 1
    requires forall i :: 0 <= i < |digits| ==> IsDigit(digits[i])
    ensures |s| == b + |digits| && s[b..|s|] == digits && (b == 1 ==> s[0] == '-')
    ensures forall j :: b <= j < |s| ==> IsDigit(s[j])
  {
    assert forall j :: b <= j < |s| ==> s[j] == digits[j - b];
  }

  lemma ScanDecimal(n: int)
    ensures Scan(Decimal(n)) == if -MAX_INT - 1 <= n <= MAX_INT then Some(n) else None
  {
    var digits := Digits(if n < 0 then -n else n);
    ValueOfDigits(if n < 0 then -n else n);
    ScanText(Decimal(n), n < 0, digits);
  }

  predicate IsBlank(s: string) {
    forall i :: 0 <= i < |s| ==> s[i] == ' ' || s[i] == '\t'
  }

  predicate IsNumber(digits: string) {
    |digits| > 0 && forall i :: 0 <= i < |digits| ==> IsDigit(digits[i])
  }

  /** A text begins with a number: blanks, perhaps a sign, digits, and whatever follows them. */
  predicate Begins(s: string, blanks: string, sign: string, digits: string, rest: string) {
    && s == blanks + sign + digits + rest
    && IsBlank(blanks) && (sign == "" || sign == "+" || sign == "-") && IsNumber(digits)
    && (rest == "" || !IsDigit(rest[0]))
  }

  lemma {:induction false} BlanksSkipped(s: string, i: nat, n: nat)
    requires i <= n <= |s| && IsBlank(s[i..n]) && (n == |s| || (s[n] != ' ' && s[n] != '\t'))
    ensures SkipBlanks(s, i) == n
    decreases n - i
  {
    if i < n {
      assert s[i..n][0] == s[i];
      assert s[i + 1..n] == s[i..n][1..];
      BlanksSkipped(s, i + 1, n);
    }
  }

  lemma {:induction false} DigitsEndAt(s: string, i: nat, n: nat)
    requires i <= n <= |s| && (forall j :: i <= j < n ==> IsDigit(s[j])) && (n == |s| || !IsDigit(s[n]))
    ensures DigitsEnd(s, i) == n
    decreases n - i
  {
    if i < n {
      DigitsEndAt(s, i + 1, n);
    }
  }

  lemma PartsOf(s: string, blanks: string, sign: string, digits: string, rest: string)
    requires Begins(s, blanks, sign, digits, rest)
    ensures var i, b := |blanks|, |blanks| + |sign|;
            var e := b + |digits|;
            && e <= |s| && s[0..i] == blanks && s[b..e] == digits && (sign != "" ==> s[i] == sign[0])
            && (forall j :: b <= j < e ==> IsDigit(s[j])) && (e == |s| || !IsDigit(s[e]))
  {
    var b := |blanks| + |sign|;
    assert forall j :: b <= j < b + |digits| ==> s[j] == digits[j - b];
  }

  /** It scans to that number if the number fits 64 bits... */
  lemma ScanReads(s: string, blanks: string, sign: string, digits: string, rest: string)
    requires Begins(s, blanks, sign, digits, rest)
    ensures var v := if sign == "-" then -(Value(digits) as int) else Value(digits);
            Scan(s) == if -9223372036854775808 <= v <= 9223372036854775807 then Some(v) else None
  {
    var i, b := |blanks|, |blanks| + |sign|;
    PartsOf(s, blanks, sign, digits, rest);
    BlanksSkipped(s, 0, i);
    DigitsEndAt(s, b, b + |digits|);
  }

  lemma {:induction false} BlanksUpTo(s: string, i: nat)
    requires i <= |s|
    ensures IsBlank(s[i..SkipBlanks(s, i)])
    decreases |s| - i
  {
    if i < |s| && (s[i] == ' ' || s[i] == '\t') {
      BlanksUpTo(s, i + 1);
      var n := SkipBlanks(s, i);
      assert s[i..n] == [s[i]] + s[i + 1..n];
    }
  }

  lemma {:induction false} NoDigitAtEnd(s: string, i: nat)
    requires i <= |s|
    ensures DigitsEnd(s, i) == |s| || !IsDigit(s[DigitsEnd(s, i)])
    decreases |s| - i
  {
    if i < |s| && IsDigit(s[i]) {
      NoDigitAtEnd(s, i + 1);
    }
  }

  /** ...and nothing else scans. */
  lemma ScannedBegins(s: string) returns (blanks: string, sign: string, digits: string, rest: string)
    requires Scan(s).Some?
    ensures Begins(s, blanks, sign, digits, rest)
  {
    var i := SkipBlanks(s, 0);
    var b := if i < |s| && (s[i] == '-' || s[i] == '+') then i + 1 else i;
    var e := DigitsEnd(s, b);
    BlanksUpTo(s, 0);
    NoDigitAtEnd(s, b);
    blanks, sign, digits, rest := s[0..i], s[i..b], s[b..e], s[e..];
    CutsBegin(s, i, b, e);
  }

  lemma CutsBegin(s: string, i: nat, b: nat, e: nat)
    requires i <= b < e <= |s| && IsBlank(s[0..i]) && (b == i || (b == i + 1 && (s[i] == '-' || s[i] == '+')))
    requires (forall j :: b <= j < e ==> IsDigit(s[j])) && (e == |s| || !IsDigit(s[e]))
    ensures Begins(s, s[0..i], s[i..b], s[b..e], s[e..])
  {
    FourCuts(s, i, b, e);
  }

  lemma FourCuts(s: string, i: nat, b: nat, e: nat)
    requires i <= b <= e <= |s| && b <= i + 1
    ensures s == s[0..i] + s[i..b] + s[b..e] + s[e..] && (e < |s| ==> s[e..][0] == s[e])
    ensures b == i ==> s[i..b] == ""
    ensures b == i + 1 ==> s[i..b] == [s[i]]
    ensures forall j :: 0 <= j < e - b ==> s[b..e][j] == s[b + j]
  {
  }

  // ---------------------------------------------------------------- parsing a target

  function Parse(s: string): Option<Entry> {
    var colon := FirstIndex(s, ':', 0);
    if colon < 0 then None
    else
      match Scan(s[..colon])
      case None => None
      case Some(port) =>
        if port <= 0 || port > MAX_PORT then None
        else
          var hp := Split(s[colon + 1..]);
          if hp.Malformed? || hp.host == "" || hp.port == "" then None
          else Some(Entry(port, Join(hp.host, hp.port)))
  }

  function Format(port: int, target: string): string {
    Decimal(port) + ":" + target
  }

  /** What a formatted target is parsed to. */
  function Reparse(port: int, target: string): Option<Entry> {
    Parse(Format(port, target))
  }

  lemma DecimalHasNoColon(n: int, rest: string)
    ensures FirstIndex(Decimal(n) + ":" + rest, ':', 0) == |Decimal(n)|
  {
    var s := Decimal(n) + ":" + rest;
    assert s[|Decimal(n)|] == ':';
    assert forall i :: 0 <= i < |Decimal(n)| ==> s[i] == Decimal(n)[i] && s[i] != ':';
  }

  /** Formatting and parsing agree on the port and parse the rest as host and port. */
  lemma ReparseIs(port: int, target: string)
    ensures var hp := Split(target);
            Reparse(port, target) ==
            if 1 <= port <= MAX_PORT && hp.HostPort? && hp.host != "" && hp.port != ""
            then Some(Entry(port, Join(hp.host, hp.port))) else None
  {
    var s := Format(port, target);
    DecimalHasNoColon(port, target);
    ScanDecimal(port);
    assert s[..|Decimal(port)|] == Decimal(port) && s[|Decimal(port)| + 1..] == target;
  }

  /** A parsed target formats and parses to itself: what has been added can be removed. */
  lemma ParsedIsCanonical(s: string)
    requires Parse(s).Some?
    ensures var e := Parse(s).value; Reparse(e.port, e.target) == Some(e)
  {
    var e := Parse(s).value;
    var hp := Split(s[FirstIndex(s, ':', 0) + 1..]);
    SplitIsPlain(s[FirstIndex(s, ':', 0) + 1..]);
    SplitJoin(hp.host, hp.port);
    ReparseIs(e.port, e.target);
  }

  /** A string of these parts: a port up to the first colon, then host and port of the target. */
  predicate IsWrittenAs(s: string, e: Entry, text: string, rest: string, host: string, targetPort: string) {
    && s == text + ":" + rest && !Contains(text, ':') && Scan(text) == Some(e.port) && 1 <= e.port <= 65535
    && Split(rest) == HostPort(host, targetPort) && host != "" && targetPort != "" && e.target == Join(host, targetPort)
  }

  lemma FirstColon(s: string, text: string, rest: string)
    requires s == text + ":" + rest && !Contains(text, ':')
    ensures FirstIndex(s, ':', 0) == |text| && s[..|text|] == text && s[|text| + 1..] == rest
  {
    assert s[|text|] == ':';
    assert forall i :: 0 <= i < |text| ==> s[i] == text[i];
  }

  lemma ParsedIsWritten(s: string, e: Entry) returns (text: string, rest: string, host: string, targetPort: string)
    requires Parse(s) == Some(e)
    ensures IsWrittenAs(s, e, text, rest, host, targetPort)
  {
    var colon := FirstIndex(s, ':', 0);
    text, rest := s[..colon], s[colon + 1..];
    var hp := Split(rest);
    host, targetPort := hp.host, hp.port;
    CutAt(s, colon, ':');
    PartLacks(s, ':', 0, colon);
    assert s[0..colon] == text;
  }

  lemma WrittenIsParsed(s: string, e: Entry, text: string, rest: string, host: string, targetPort: string)
    requires IsWrittenAs(s, e, text, rest, host, targetPort)
    ensures Parse(s) == Some(e)
  {
    FirstColon(s, text, rest);
  }

  /** Exactly such strings are parsed. */
  lemma ParseIff(s: string, e: Entry)
    ensures Parse(s) == Some(e) <==> exists text, rest, host, targetPort :: IsWrittenAs(s, e, text, rest, host, targetPort)
  {
    if Parse(s) == Some(e) {
      var text, rest, host, targetPort := ParsedIsWritten(s, e);
    }
    if text, rest, host, targetPort :| IsWrittenAs(s, e, text, rest, host, targetPort) {
      WrittenIsParsed(s, e, text, rest, host, targetPort);
    }
  }

  // ---------------------------------------------------------------- the targets of a sync

  datatype Parts = Parts(port: string, host: string, targetPort: string) | NotThree

  /** Cutting at every colon, if that gives three parts. */
  function ThreeParts(s: string): Parts {
    var i := FirstIndex(s, ':', 0);
    if i < 0 then NotThree
    else
      var j := FirstIndex(s, ':', i + 1);
      if j < 0 || FirstIndex(s, ':', j + 1) >= 0 then NotThree
      else Parts(s[..i], s[i + 1..j], s[j + 1..])
  }

  /** The target asked for, if the string has three parts and its port is a number. */
  function Wanted(s: string): Option<Entry> {
    match ThreeParts(s)
    case NotThree => None
    case Parts(p, host, targetPort) =>
      match Scan(p)
      case None => None
      case Some(port) => Some(Entry(port, host + ":" + targetPort))
  }

  /** Exactly the strings with two colons have three parts. */
  lemma ThreePartsIff(s: string, port: string, host: string, targetPort: string)
    ensures ThreeParts(s) == Parts(port, host, targetPort) <==>
            && s == port + ":" + host + ":" + targetPort
            && !Contains(port, ':') && !Contains(host, ':') && !Contains(targetPort, ':')
  {
    if ThreeParts(s) == Parts(port, host, targetPort) {
      var i := FirstIndex(s, ':', 0);
      var j := FirstIndex(s, ':', i + 1);
      assert s == s[..i] + ":" + s[i + 1..j] + ":" + s[j + 1..];
      assert forall k :: 0 <= k < |port| ==> port[k] == s[k];
      PartsHaveNoColon(s);
    }
    if s == port + ":" + host + ":" + targetPort && !Contains(port, ':') && !Contains(host, ':') && !Contains(targetPort, ':') {
      TwoColons(s, port, host, targetPort);
    }
  }

  lemma TwoColons(s: string, port: string, host: string, targetPort: string)
    requires s == port + ":" + host + ":" + targetPort
    requires !Contains(port, ':') && !Contains(host, ':') && !Contains(targetPort, ':')
    ensures ThreeParts(s) == Parts(port, host, targetPort)
  {
    var i, j := |port|, |port| + 1 + |host|;
    PartsOfThree(s, port, host, targetPort);
    FirstIndexIs(s, 0, i);
    FirstIndexIs(s, i + 1, j);
    assert FirstIndex(s, ':', j + 1) == -1;
  }

  lemma FirstIndexIs(s: string, n: nat, i: nat)
    requires n <= i < |s| && s[i] == ':' && forall k :: n <= k < i ==> s[k] != ':'
    ensures FirstIndex(s, ':', n) == i
  {
  }

  lemma PartsOfThree(s: string, port: string, host: string, targetPort: string)
    requires s == port + ":" + host + ":" + targetPort
    requires !Contains(port, ':') && !Contains(host, ':') && !Contains(targetPort, ':')
    ensures var i, j := |port|, |port| + 1 + |host|;
            && j < |s| && s[i] == ':' && s[j] == ':'
            && (forall k :: 0 <= k < |s| && k != i && k != j ==> s[k] != ':')
            && s[..i] == port && s[i + 1..j] == host && s[j + 1..] == targetPort
  {
    var i, j := |port|, |port| + 1 + |host|;
    assert forall k :: 0 <= k < i ==> s[k] == port[k];
    assert forall k :: i < k < j ==> s[k] == host[k - i - 1];
    assert forall k :: j < k < |s| ==> s[k] == targetPort[k - j - 1];
  }

  /** A port and a target that can be added: in range, nothing missing, no brackets. */
  ghost predicate Addable(port: int, host: string, targetPort: string) {
    1 <= port <= MAX_PORT && host != "" && targetPort != "" && Plain(host, targetPort)
  }

  lemma PartsHaveNoColon(s: string)
    requires ThreeParts(s).Parts?
    ensures !Contains(ThreeParts(s).host, ':') && !Contains(ThreeParts(s).targetPort, ':')
  {
    var i := FirstIndex(s, ':', 0);
    var j := FirstIndex(s, ':', i + 1);
    var p := ThreeParts(s);
    assert forall k :: 0 <= k < |p.host| ==> p.host[k] == s[i + 1 + k];
    assert forall k :: 0 <= k < |p.targetPort| ==> p.targetPort[k] == s[j + 1 + k];
  }

  lemma SplitTwoParts(s: string, host: string, port: string)
    requires !Contains(host, ':') && !Contains(port, ':') && s == host + ":" + port
    ensures LastIndex(s, ':', |s|) == |host| && s[..|host|] == host && s[|host| + 1..] == port
    ensures forall i :: 0 <= i < |s| && s[i] == ':' ==> i == |host|
  {
    assert s[|host|] == ':';
    assert forall j :: |host| < j < |s| ==> s[j] == port[j - |host| - 1];
    assert forall j :: 0 <= j < |host| ==> s[j] == host[j];
  }

  /** A host in brackets that could be added without them. */
  ghost predicate Bracketed(port: int, host: string, targetPort: string) {
    && |host| > 2 && host[0] == '[' && host[|host| - 1] == ']'
    && Addable(port, host[1..|host| - 1], targetPort)
  }

  /** Of two parts a split takes the brackets off the first, if there are any. */
  lemma SplitCases(s: string, host: string, port: string)
    requires !Contains(host, ':') && !Contains(port, ':') && s == host + ":" + port && Split(s).HostPort?
    ensures s[0] != '[' ==> Split(s) == HostPort(host, port)
    ensures s[0] == '[' ==>
              |host| > 1 && host[0] == '[' && host[|host| - 1] == ']' && Split(s) == HostPort(host[1..|host| - 1], port)
  {
    SplitTwoParts(s, host, port);
    if s[0] == '[' {
      assert s[1..|host| - 1] == host[1..|host| - 1];
    }
  }

  lemma BracketsSplit(t: string, host: string, bare: string, targetPort: string)
    requires |host| > 2 && host[0] == '[' && host[|host| - 1] == ']' && bare == host[1..|host| - 1]
    requires Plain(bare, targetPort) && !Contains(host, ':') && t == host + ":" + targetPort
    ensures Split(t) == HostPort(bare, targetPort) && !Contains(bare, ':')
  {
    assert host == "[" + bare + "]";
    assert t == "[" + bare + "]:" + targetPort;
    SplitAtBracket(t, bare, targetPort);
    PartLacks(host, ':', 1, |host| - 1);
  }

  /** A bracketed host without a colon is wanted in one form and kept in another. */
  lemma BracketsAreDropped(port: int, host: string, targetPort: string)
    requires Bracketed(port, host, targetPort) && !Contains(host, ':')
    ensures Reparse(port, host + ":" + targetPort) == Some(Entry(port, host[1..|host| - 1] + ":" + targetPort))
  {
    var t, bare := host + ":" + targetPort, host[1..|host| - 1];
    BracketsSplit(t, host, bare, targetPort);
    ReparseIs(port, t);
  }

  /** What becomes of a wanted target: it is kept as it is, kept without its brackets, or refused. */
  lemma WantedBecomes(s: string, port: int)
    requires ThreeParts(s).Parts?
    ensures var p := ThreeParts(s);
            Reparse(port, p.host + ":" + p.targetPort) ==
            if Addable(port, p.host, p.targetPort) then Some(Entry(port, p.host + ":" + p.targetPort))
            else if Bracketed(port, p.host, p.targetPort)
            then Some(Entry(port, p.host[1..|p.host| - 1] + ":" + p.targetPort))
            else None
  {
    var p := ThreeParts(s);
    PartsHaveNoColon(s);
    TwoPartsBecome(p.host + ":" + p.targetPort, port, p.host, p.targetPort);
  }

  lemma TwoPartsBecome(t: string, port: int, host: string, targetPort: string)
    requires !Contains(host, ':') && !Contains(targetPort, ':') && t == host + ":" + targetPort
    ensures Reparse(port, t) ==
            if Addable(port, host, targetPort) then Some(Entry(port, t))
            else if Bracketed(port, host, targetPort) then Some(Entry(port, host[1..|host| - 1] + ":" + targetPort))
            else None
  {
    ReparseIs(port, t);
    if Addable(port, host, targetPort) {
      SplitAtColon(t, host, targetPort);
    } else if Bracketed(port, host, targetPort) {
      BracketsAreDropped(port, host, targetPort);
    } else if Split(t).HostPort? {
      SplitIsPlain(t);
      SplitCases(t, host, targetPort);
    }
  }

  /** The two forms differ in length. */
  lemma BracketsShow(port: int, host: string, targetPort: string)
    requires Bracketed(port, host, targetPort)
    ensures !Addable(port, host, targetPort)
    ensures host[1..|host| - 1] + ":" + targetPort != host + ":" + targetPort
  {
    assert Contains(host, '[');
    assert |host[1..|host| - 1] + ":" + targetPort| == |host + ":" + targetPort| - 2;
  }

  /** A string for which the two forms differ. */
  lemma BracketedExample()
    ensures ThreeParts("8:[a]:9") == Parts("8", "[a]", "9")
    ensures Wanted("8:[a]:9") == Some(Entry(8, "[a]:9")) && Bracketed(8, "[a]", "9")
  {
    var s := "8:[a]:9";
    assert s[1] == ':' && s[5] == ':';
    assert FirstIndex(s, ':', 0) == 1 && FirstIndex(s, ':', 2) == 5 && FirstIndex(s, ':', 6) == -1;
    assert s[..1] == "8" && s[2..5] == "[a]" && s[6..] == "9";
    ExamplePort();
    assert "[a]" + ":" + "9" == "[a]:9";
    assert "[a]"[1..2] == "a";
  }

  lemma ExamplePort()
    ensures Scan("8") == Some(8)
  {
    assert "8" == [Digit(8)] == Digits(8);
    ScanDecimal(8);
  }
}
