/** feature/forward_address.go: network addresses, with net.SplitHostPort and net.JoinHostPort
    written out. Strings are sequences of bytes; only ASCII matters to any branch. */
module NetworkAddress {
  import opened Decimal

  /** A uint16. */
  type Port = n: nat | n < 0x1_0000

  datatype Address = Address(hostname: string, port: Port)

  /** NetworkPort(n), the conversion that drops the high bits. */
  function ToPort(n: nat): Port { n % 0x1_0000 }

  /** It drops a multiple of 65536, so that it is the only port which differs by one. */
  lemma PortIsWhatRemains(n: nat, port: Port)
    ensures ToPort(n) == port <==> exists q: nat :: n == port + 0x1_0000 * q
  {
    assert n == ToPort(n) + 0x1_0000 * (n / 0x1_0000);
    forall q: nat | n == port + 0x1_0000 * q
      ensures ToPort(n) == port
    {
      assert n / 0x1_0000 == q;
    }
  }

  // ----- bytealg

  /** The first index of c in s, or -1. */
  function IndexOf(s: string, c: char): (i: int)
    ensures -1 <= i < |s|
    ensures i == -1 <==> c !in s
    ensures i >= 0 ==> s[i] == c && forall j :: 0 <= j < i ==> s[j] != c
  {
    if s == "" then -1
    else if s[0] == c then 0
    else
      var i := IndexOf(s[1..], c);
      assert forall j :: 0 < j < |s| ==> s[j] == s[1..][j - 1];
      if i < 0 then -1 else i + 1
  }

  /** The last index of c in s, or -1. */
  function LastIndexOf(s: string, c: char): (i: int)
    ensures -1 <= i < |s|
    ensures i == -1 <==> c !in s
    ensures i >= 0 ==> s[i] == c && forall j :: i < j < |s| ==> s[j] != c
  {
    if s == "" then -1
    else if s[|s| - 1] == c then |s| - 1
    else
      var i := LastIndexOf(s[..|s| - 1], c);
      assert s == s[..|s| - 1] + [s[|s| - 1]];
      i
  }

  // ----- net.SplitHostPort

  datatype Why = MissingPort | TooManyColons | MissingBracket | UnexpectedOpen | UnexpectedClose

  datatype Split = Split(host: string, port: string) | NoSplit(why: Why)

  /** The stray brackets are looked for from j and from k on. */
  function NoStrayBrackets(hostport: string, j: nat, k: nat, host: string, port: string): Split
    requires j <= |hostport| && k <= |hostport|
  {
    if IndexOf(hostport[j..], '[') >= 0 then NoSplit(UnexpectedOpen)
    else if IndexOf(hostport[k..], ']') >= 0 then NoSplit(UnexpectedClose)
    else Split(host, port)
  }

  function SplitHostPort(hostport: string): Split {
    var i := LastIndexOf(hostport, ':');
    if i < 0 then NoSplit(MissingPort)
    else if hostport[0] == '[' then
      var end := IndexOf(hostport, ']');
      if end < 0 then NoSplit(MissingBracket)
      else if end + 1 == |hostport| then NoSplit(MissingPort)
      else if end + 1 != i then NoSplit(if hostport[end + 1] == ':' then TooManyColons else MissingPort)
      else NoStrayBrackets(hostport, 1, end + 1, hostport[1..end], hostport[i + 1..])
    else
      var host := hostport[..i];
      if IndexOf(host, ':') >= 0 then NoSplit(TooManyColons)
      else NoStrayBrackets(hostport, 0, 0, host, hostport[i + 1..])
  }

  function JoinHostPort(host: string, port: string): string {
    if IndexOf(host, ':') >= 0 then "[" + host + "]:" + port else host + ":" + port
  }

  predicate NoBrackets(s: string) { '[' !in s && ']' !in s }

  predicate NoColon(s: string) { ':' !in s }

  /** The two written forms of a host and a port; the second is the bracketed form of section 3.2.2
      of RFC 3986. */
  predicate Plain(hostport: string, host: string, port: string) {
    hostport == host + ":" + port && NoColon(host)
  }

  predicate Bracketed(hostport: string, host: string, port: string) {
    hostport == "[" + host + "]:" + port
  }

  predicate Written(hostport: string, host: string, port: string) {
    && NoBrackets(host) && NoBrackets(port) && NoColon(port)
    && (Plain(hostport, host, port) || Bracketed(hostport, host, port))
  }

  lemma PlainSplits(hostport: string, host: string, port: string)
    requires Written(hostport, host, port) && Plain(hostport, host, port)
    ensures SplitHostPort(hostport) == Split(host, port)
  {
    var i := |host|;
    assert hostport[i] == ':' && hostport[i + 1..] == port && hostport[..i] == host;
    assert LastIndexOf(hostport, ':') == i;
    assert hostport[0..] == hostport;
  }

  lemma BracketedSplits(hostport: string, host: string, port: string)
    requires Written(hostport, host, port) && Bracketed(hostport, host, port)
    ensures SplitHostPort(hostport) == Split(host, port)
  {
    var end := |host| + 1;
    BracketedIndices(hostport, host, port);
    SplitAtBracket(hostport, end);
  }

  lemma BracketedIndices(s: string, host: string, port: string)
    requires Bracketed(s, host, port)
    ensures var end := |host| + 1;
            && end + 1 < |s| && s[0] == '[' && s[end] == ']' && s[end + 1] == ':'
            && s[1..end] == host && s[end + 2..] == port
            && s[1..] == host + "]:" + port && s[end + 1..] == ":" + port
            && (forall j :: 0 < j < end ==> s[j] == host[j - 1])
            && (forall j :: end + 1 < j < |s| ==> s[j] == port[j - end - 2])
  {
  }

  lemma SplitAtBracket(s: string, end: nat)
    requires 0 < end && end + 1 < |s| && s[0] == '[' && s[end] == ']' && s[end + 1] == ':'
    requires forall j :: 0 < j < end ==> s[j] != ']'
    requires forall j :: end + 1 < j < |s| ==> s[j] != ':'
    requires '[' !in s[1..] && ']' !in s[end + 1..]
    ensures SplitHostPort(s) == Split(s[1..end], s[end + 2..])
  {
    assert LastIndexOf(s, ':') == end + 1;
    assert IndexOf(s, ']') == end;
  }

  /** What SplitHostPort accepts, as a grammar: exactly the two written forms, without stray
      brackets, and the port after the last colon. */
  lemma SplitsExactly(hostport: string, host: string, port: string)
    ensures SplitHostPort(hostport) == Split(host, port) <==> Written(hostport, host, port)
  {
    if Written(hostport, host, port) {
      if Plain(hostport, host, port) {
        PlainSplits(hostport, host, port);
      } else {
        BracketedSplits(hostport, host, port);
      }
    }
    if SplitHostPort(hostport) == Split(host, port) {
      SplitIsWritten(hostport, host, port);
    }
  }

  lemma SplitIsWritten(hostport: string, host: string, port: string)
    requires SplitHostPort(hostport) == Split(host, port)
    ensures Written(hostport, host, port)
  {
    var i := LastIndexOf(hostport, ':');
    if hostport[0] == '[' {
      var end := IndexOf(hostport, ']');
      assert host == hostport[1..end] && port == hostport[i + 1..] && i == end + 1;
      BracketedParts(hostport, end);
    } else {
      assert host == hostport[..i] && port == hostport[i + 1..];
      assert hostport[0..] == hostport;
      PlainParts(hostport, i);
    }
  }

  lemma BracketedParts(s: string, end: nat)
    requires 0 < end && end + 1 < |s| && s[0] == '[' && s[end] == ']' && s[end + 1] == ':'
    requires forall j :: 0 <= j < end ==> s[j] != ']'
    requires forall j :: end + 1 < j < |s| ==> s[j] != ':'
    requires '[' !in s[1..] && ']' !in s[end + 1..]
    ensures Written(s, s[1..end], s[end + 2..])
  {
    var host, port := s[1..end], s[end + 2..];
    assert s == "[" + host + "]:" + port;
    assert forall j :: 0 <= j < |host| ==> host[j] == s[1..][j] == s[j + 1];
    assert forall j :: 0 <= j < |port| ==> port[j] == s[1..][j + end + 1] == s[end + 1..][j + 1] == s[j + end + 2];
  }

  lemma PlainParts(s: string, i: nat)
    requires i < |s| && s[i] == ':' && NoBrackets(s) && NoColon(s[..i])
    requires forall j :: i < j < |s| ==> s[j] != ':'
    ensures Written(s, s[..i], s[i + 1..])
  {
    var host, port := s[..i], s[i + 1..];
    assert s == host + ":" + port;
    assert forall j :: 0 <= j < |host| ==> host[j] == s[j];
    assert forall j :: 0 <= j < |port| ==> port[j] == s[j + i + 1];
  }

  /** The errors, in the order in which they are found. Without a colon, or with nothing but the closing
      bracket or something else than a colon after a bracketed host, a port is missing; an opening bracket
      needs a closing one; before the last colon there is none outside of brackets; and brackets are in no
      other place. */
  lemma SplitFailsBecause(s: string, last: nat)
    requires IsLast(s, ':', last)
    ensures s[0] == '[' && ']' !in s ==> SplitHostPort(s) == NoSplit(MissingBracket)
    ensures s[0] != '[' ==>
              SplitHostPort(s) ==
                if ':' in s[..last] then NoSplit(TooManyColons)
                else if '[' in s then NoSplit(UnexpectedOpen)
                else if ']' in s then NoSplit(UnexpectedClose)
                else Split(s[..last], s[last + 1..])
  {
    assert s[0..] == s;
    assert LastIndexOf(s, ':') == last;
  }

  lemma BracketedFailsBecause(s: string, last: nat, end: nat)
    requires IsLast(s, ':', last) && s[0] == '[' && IsFirst(s, ']', end)
    ensures SplitHostPort(s) ==
              if end + 1 == |s| || s[end + 1] != ':' then NoSplit(MissingPort)
              else if end + 1 != last then NoSplit(TooManyColons)
              else if '[' in s[1..] then NoSplit(UnexpectedOpen)
              else if ']' in s[end + 1..] then NoSplit(UnexpectedClose)
              else Split(s[1..end], s[last + 1..])
  {
    assert LastIndexOf(s, ':') == last;
    assert IndexOf(s, ']') == end;
  }

  lemma NoColonFails(s: string)
    ensures ':' !in s <==> LastIndexOf(s, ':') == -1
    ensures ':' !in s ==> SplitHostPort(s) == NoSplit(MissingPort)
  {
  }

  predicate IsLast(s: string, c: char, i: nat) { i < |s| && s[i] == c && forall j :: i < j < |s| ==> s[j] != c }

  predicate IsFirst(s: string, c: char, i: nat) { i < |s| && s[i] == c && forall j :: 0 <= j < i ==> s[j] != c }

  // ----- ParseNetworkAddress and String

  /** Where parsing stopped: the split or the port. */
  datatype Result = Parsed(address: Address) | BadAddress(why: Why) | BadPort(syntax: bool)

  function ParseNetworkAddress(s: string): Result {
    match SplitHostPort(s)
    case NoSplit(why) => BadAddress(why)
    case Split(host, pp) =>
      match ParsedUint(pp)
      case Number(port) => Parsed(Address(host, ToPort(port)))
      case SyntaxError => BadPort(true)
      case RangeError => BadPort(false)
  }

  function ToString(a: Address): string { JoinHostPort(a.hostname, Numeral(a.port)) }

  /** A port as text: digits for a number below 2^32, of which the low 16 bits count. */
  predicate PortText(text: string, port: Port) {
    text != "" && AllDigits(text) && Value(text) <= MaxUint32 && port == ToPort(Value(text))
  }

  lemma DigitsOnly(text: string)
    requires AllDigits(text)
    ensures NoBrackets(text) && NoColon(text)
  {
  }

  /** The language that is accepted, with its meaning. */
  lemma ParsesExactly(s: string, a: Address)
    ensures ParseNetworkAddress(s) == Parsed(a)
            <==> exists text :: Written(s, a.hostname, text) && PortText(text, a.port)
  {
    forall text | Written(s, a.hostname, text) && PortText(text, a.port)
      ensures ParseNetworkAddress(s) == Parsed(a)
    {
      SplitsExactly(s, a.hostname, text);
      ValueBounds(text);
    }
    if ParseNetworkAddress(s) == Parsed(a) {
      var text := SplitHostPort(s).port;
      SplitsExactly(s, a.hostname, text);
      if AllDigits(text) { ValueBounds(text); }
      assert Written(s, a.hostname, text) && PortText(text, a.port);
    }
  }

  /** The round trip, and exactly when it works: printing is undone by parsing for the hostnames
      without brackets, and for no others. */
  lemma RoundTrip(a: Address)
    ensures ParseNetworkAddress(ToString(a)) == Parsed(a) <==> NoBrackets(a.hostname)
  {
    var text := Numeral(a.port);
    ValueOfNumeral(a.port);
    DigitsOnly(text);
    if NoBrackets(a.hostname) {
      assert Written(ToString(a), a.hostname, text) && PortText(text, a.port);
      ParsesExactly(ToString(a), a);
    } else {
      ParsesExactly(ToString(a), a);
    }
  }

  /** A colon-free name within one pair of brackets. */
  predicate Unwraps(hostname: string, inner: string) {
    hostname == "[" + inner + "]" && NoBrackets(inner) && NoColon(inner)
  }

  /** The comment on String promises that its result can always be parsed. It can exactly if the
      hostname has no brackets, or is a colon-free name within one pair of brackets; in the second
      case parsing takes the brackets away. */
  lemma PrintedParses(a: Address)
    ensures ParseNetworkAddress(ToString(a)).Parsed?
            <==> NoBrackets(a.hostname) || exists inner :: Unwraps(a.hostname, inner)
  {
    RoundTrip(a);
    forall inner | Unwraps(a.hostname, inner)
      ensures ParseNetworkAddress(ToString(a)).Parsed?
    {
      UnwrappedByParsing(a, inner);
    }
    if ParseNetworkAddress(ToString(a)).Parsed? && !NoBrackets(a.hostname) {
      ParsedMeansUnwrapped(a);
    }
  }

  lemma UnwrappedByParsing(a: Address, inner: string)
    requires Unwraps(a.hostname, inner)
    ensures ParseNetworkAddress(ToString(a)) == Parsed(Address(inner, a.port))
  {
    var s, text := ToString(a), Numeral(a.port);
    ValueOfNumeral(a.port);
    DigitsOnly(text);
    assert NoColon(a.hostname);
    assert s == "[" + inner + "]" + ":" + text;
    assert Bracketed(s, inner, text);
    assert Written(s, inner, text) && PortText(text, a.port);
    ParsesExactly(s, Address(inner, a.port));
  }

  lemma ParsedMeansUnwrapped(a: Address)
    requires ParseNetworkAddress(ToString(a)).Parsed? && !NoBrackets(a.hostname)
    ensures Unwraps(a.hostname, ParseNetworkAddress(ToString(a)).address.hostname)
  {
    var s, text := ToString(a), Numeral(a.port);
    var b := ParseNetworkAddress(s).address;
    DigitsOnly(text);
    ParsesExactly(s, b);
    var text' :| Written(s, b.hostname, text') && PortText(text', b.port);
    JoinedBody(a.hostname, text);
    SameBody(s, Body(a.hostname), text, b.hostname, text');
    Unwrapping(a.hostname, b.hostname, Body(a.hostname));
  }

  /** An open bracket alone as hostname is printed as something that cannot be parsed; a name within
      brackets comes back without them. */
  lemma BracketsAreNotPrinted(port: Port)
    ensures !ParseNetworkAddress(ToString(Address("[", port))).Parsed?
    ensures ParseNetworkAddress(ToString(Address("[a]", port))) == Parsed(Address("a", port))
  {
    PrintedParses(Address("[", port));
    assert "["[0] == '[';
    assert forall inner :: |"[" + inner + "]"| > |"["|;
    UnwrappedByParsing(Address("[a]", port), "a");
  }

  /** The host as JoinHostPort writes it. */
  function Body(host: string): string { if NoColon(host) then host else "[" + host + "]" }

  lemma JoinedBody(host: string, text: string)
    ensures JoinHostPort(host, text) == Body(host) + ":" + text
  {
    assert "[" + host + "]:" + text == "[" + host + "]" + ":" + text;
  }

  lemma SameBody(s: string, body: string, text: string, inner: string, text': string)
    requires s == body + ":" + text && NoColon(text) && Written(s, inner, text')
    ensures (body == inner && NoColon(inner)) || body == "[" + inner + "]"
  {
    LastColon(s, body, text);
    if Plain(s, inner, text') {
      LastColon(s, inner, text');
    } else {
      assert "[" + inner + "]:" + text' == "[" + inner + "]" + ":" + text';
      LastColon(s, "[" + inner + "]", text');
    }
  }

  lemma LastColon(s: string, front: string, text: string)
    requires s == front + ":" + text && NoColon(text)
    ensures LastIndexOf(s, ':') == |front| && s[..|front|] == front
  {
    assert s[|front|] == ':';
    assert forall j :: |front| < j < |s| ==> s[j] == text[j - |front| - 1];
  }

  lemma Unwrapping(host: string, inner: string, body: string)
    requires !NoBrackets(host) && NoBrackets(inner)
    requires body == Body(host)
    requires (body == inner && NoColon(inner)) || body == "[" + inner + "]"
    ensures Unwraps(host, inner)
  {
    assert ("[" + host + "]")[1..|host| + 1] == host;
    assert ("[" + inner + "]")[1..|inner| + 1] == inner;
    assert ("[" + host + "]")[0] == '[';
    assert forall j :: 0 <= j < |inner| ==> ("[" + inner + "]")[j + 1] == inner[j];
  }

  /** Whatever was accepted has a clean hostname, so it survives being printed and parsed again;
      a port above 65535 comes back as its low 16 bits. */
  lemma ParsedSurvivesPrinting(s: string)
    requires ParseNetworkAddress(s).Parsed?
    ensures var a := ParseNetworkAddress(s).address;
            NoBrackets(a.hostname) && ParseNetworkAddress(ToString(a)) == Parsed(a)
  {
    var a := ParseNetworkAddress(s).address;
    ParsesExactly(s, a);
    RoundTrip(a);
  }

  /** So two addresses that were parsed are printed alike only if they are the same. */
  lemma PrintingIsInjective(s: string, t: string)
    requires ParseNetworkAddress(s).Parsed? && ParseNetworkAddress(t).Parsed?
    requires ToString(ParseNetworkAddress(s).address) == ToString(ParseNetworkAddress(t).address)
    ensures ParseNetworkAddress(s) == ParseNetworkAddress(t)
  {
    ParsedSurvivesPrinting(s);
    ParsedSurvivesPrinting(t);
  }
}
