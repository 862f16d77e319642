// Addresses: `host:port` text and the target parsers of the HTTP paths.
module Address {
  import opened Wrappers
  import opened Text

  datatype Endpoint = Endpoint(host: string, port: U16)

  function HostPort(host: string, port: U16): string {
    host + ":" + Decimal(port)
  }

  function SplitHostPort(authority: string, defaultPort: U16): Result<Endpoint, ProxyError> {
    var k := LastIndexOf(authority, ':');
    if k < 0 then Ok(Endpoint(authority, defaultPort))
    else
      match ParseU16(authority[k + 1..])
      case Some(port) => Ok(Endpoint(authority[..k], port))
      case None => Err(ProxyError.Protocol)
  }

  function ParseAddress(addr: string): Result<Endpoint, ProxyError> {
    var k := LastIndexOf(addr, ':');
    if k < 0 then Err(ProxyError.Protocol)
    else
      match ParseU16(addr[k + 1..])
      case None => Err(ProxyError.Protocol)
      case Some(port) => Ok(Endpoint(addr[..k], port))
  }

  /** The single-hop translators cut the target at its first colons. */
  function ColonTarget(target: string, defaultPort: U16): Endpoint {
    var parts := Split(target, ':');
    var port := if |parts| > 1 then ParseU16(parts[1]) else Some(defaultPort);
    Endpoint(parts[0], if port.Some? then port.value else defaultPort)
  }

  lemma LastColon(host: string, port: U16)
    ensures LastIndexOf(HostPort(host, port), ':') == |host|
    ensures HostPort(host, port)[..|host|] == host
    ensures HostPort(host, port)[|host| + 1..] == Decimal(port)
  {
    var s := HostPort(host, port);
    assert s[|host|] == ':';
    assert forall i :: |host| < i < |s| ==> s[i] == Decimal(port)[i - |host| - 1];
    assert forall i :: 0 <= i < |Decimal(port)| ==> Decimal(port)[i] in Decimal(port);
  }

  /** Both parsers invert `host:port`, even when the host itself contains colons. */
  lemma AddressRoundTrip(host: string, port: U16, defaultPort: U16)
    ensures ParseAddress(HostPort(host, port)) == Ok(Endpoint(host, port))
    ensures SplitHostPort(HostPort(host, port), defaultPort) == Ok(Endpoint(host, port))
  {
    LastColon(host, port);
    ParseDecimal(port);
  }

  /** `s` is the host, a colon, and a text that writes the port. */
  ghost predicate SpellsOut(s: string, e: Endpoint) {
    exists digits :: Writes(digits, e.port) && s == e.host + ":" + digits
  }

  lemma WritesNoColon(digits: string, n: U16)
    requires Writes(digits, n)
    ensures ':' !in digits
  {
    var plus: bool, k: nat :| digits == Numeral(plus, k, n);
    forall c | c in digits
      ensures c != ':'
    {
      assert c == '+' || c in Zeros(k) || c in Decimal(n);
    }
  }

  lemma LastColonAt(host: string, digits: string)
    requires ':' !in digits
    ensures var s := host + ":" + digits;
            LastIndexOf(s, ':') == |host| && s[..|host|] == host && s[|host| + 1..] == digits
  {
    var s := host + ":" + digits;
    assert s[|host|] == ':';
    assert forall i :: |host| < i < |s| ==> s[i] == digits[i - |host| - 1];
  }

  /** The chain's parser reads an address exactly when the text spells it out. */
  lemma ParseAddressMeaning(s: string, e: Endpoint)
    ensures ParseAddress(s) == Ok(e) <==> SpellsOut(s, e)
  {
    hide ParseU16, Writes;
    var k := LastIndexOf(s, ':');
    if ParseAddress(s) == Ok(e) {
      ParseU16Meaning(s[k + 1..], e.port);
      assert s == e.host + ":" + s[k + 1..];
    }
    if digits :| Writes(digits, e.port) && s == e.host + ":" + digits {
      WritesNoColon(digits, e.port);
      LastColonAt(e.host, digits);
      ParseU16Meaning(digits, e.port);
    }
  }

  /** The target parser also takes a bare host, at the default port. */
  lemma SplitHostPortMeaning(s: string, defaultPort: U16, e: Endpoint)
    ensures SplitHostPort(s, defaultPort) == Ok(e) <==>
              SpellsOut(s, e) || (':' !in s && e == Endpoint(s, defaultPort))
  {
    hide ParseU16, SpellsOut;
    ParseAddressMeaning(s, e);
    var k := LastIndexOf(s, ':');
    if k >= 0 {
      assert s[k] in s;
    }
  }

  /** The first-colon reader takes the host before the first colon and the port between it and the next. */
  lemma ColonTargetMeaning(host: string, port: string, tail: string, defaultPort: U16)
    requires ':' !in host && ':' !in port
    ensures ColonTarget(host, defaultPort) == Endpoint(host, defaultPort)
    ensures var e := Endpoint(host, match ParseU16(port)
                                    case Some(n) => n
                                    case None => defaultPort);
            ColonTarget(host + ":" + port, defaultPort) == e && ColonTarget(host + ":" + port + ":" + tail, defaultPort) == e
  {
    hide ParseU16, Split;
    SplitWhole(host, ':');
    SplitWhole(port, ':');
    assert host + ":" + port == host + [':'] + port;
    SplitHead(host, port, ':');
    assert host + ":" + port + ":" + tail == host + [':'] + (port + [':'] + tail);
    SplitHead(host, port + [':'] + tail, ':');
    SplitHead(port, tail, ':');
  }

  function Colons(s: string): nat {
    if s == "" then 0 else (if s[0] == ':' then 1 else 0) + Colons(s[1..])
  }

  lemma {:induction false} ColonsSplit(s: string)
    ensures |Split(s, ':')| == Colons(s) + 1
    decreases |s|
  {
    var k := IndexOf(s, ':');
    ColonsFrom(s, k);
    if k < |s| {
      ColonsSplit(s[k + 1..]);
    }
  }

  lemma {:induction false} ColonsFrom(s: string, k: nat)
    requires k <= |s| && forall i :: 0 <= i < k ==> s[i] != ':'
    ensures k == |s| ==> Colons(s) == 0
    ensures k < |s| && s[k] == ':' ==> Colons(s) == 1 + Colons(s[k + 1..])
  {
    if k > 0 {
      ColonsFrom(s[1..], k - 1);
      assert k < |s| ==> s[1..][k..] == s[k + 1..];
    }
  }

  function AfterColon(s: string): string {
    var k := IndexOf(s, ':');
    if k == |s| then "" else s[k + 1..]
  }

  /**
   * The first-colon and the last-colon parsers agree on a target exactly when it
   * has no colon, or one colon followed by a valid port.
   */
  lemma ColonTargetAgrees(target: string, defaultPort: U16)
    ensures SplitHostPort(target, defaultPort) == Ok(ColonTarget(target, defaultPort)) <==>
              || Colons(target) == 0
              || (Colons(target) == 1 && ParseU16(AfterColon(target)).Some?)
  {
    hide Colons, ParseU16;
    var first := IndexOf(target, ':');
    ColonsFrom(target, first);
    if first < |target| {
      assert target[first] == ':';
      if Colons(target) == 1 {
        OneColon(target);
      } else {
        ManyColons(target);
      }
    }
  }

  /** A target with two colons leads two ways. */
  lemma ColonTargetsDiffer()
    ensures SplitHostPort("a:1:2", 443) == Ok(Endpoint("a:1", 2))
    ensures ColonTarget("a:1:2", 443).host == "a"
  {
    var target := "a:1:2";
    assert target == HostPort("a:1", 2) by {
      assert Decimal(2) == "2";
    }
    AddressRoundTrip("a:1", 2, 443);
    assert target == "a" + [':'] + "1:2";
    SplitHead("a", "1:2", ':');
  }

  lemma OneColon(target: string)
    requires Colons(target) == 1
    ensures var k := IndexOf(target, ':');
            && k < |target|
            && LastIndexOf(target, ':') == k
            && Split(target, ':') == [target[..k], target[k + 1..]]
  {
    var k := IndexOf(target, ':');
    ColonsFrom(target, k);
    var rest := target[k + 1..];
    ColonsSplit(rest);
    assert IndexOf(rest, ':') == |rest|;
    assert forall i :: k < i < |target| ==> target[i] == rest[i - k - 1];
    assert target[k] == ':';
  }

  lemma ManyColons(target: string)
    requires Colons(target) > 1
    ensures IndexOf(target, ':') < LastIndexOf(target, ':')
    ensures Split(target, ':')[0] == target[..IndexOf(target, ':')]
  {
    var k := IndexOf(target, ':');
    ColonsFrom(target, k);
    var rest := target[k + 1..];
    ColonsFrom(rest, IndexOf(rest, ':'));
    assert IndexOf(rest, ':') < |rest|;
    assert target[k + 1 + IndexOf(rest, ':')] == ':';
  }

  // ---- CONNECT ----

  function ParseConnectTarget(request: string): Result<Endpoint, ProxyError> {
    var lines := Lines(request);
    if |lines| == 0 then Err(ProxyError.Protocol)
    else
      var words := Words(lines[0]);
      if |words| < 2 then Err(ProxyError.Protocol) else SplitHostPort(words[1], 443)
  }

  function ConnectLine(target: string): string {
    RequestLine("CONNECT", target, "HTTP/1.1")
  }

  lemma ConnectWords(target: string)
    requires NoSpace(target) && target != ""
    ensures Words(ConnectLine(target)) == ["CONNECT", target, "HTTP/1.1"]
  {
    assert NoSpace("CONNECT") && NoSpace("HTTP/1.1");
    ThreeWords("CONNECT", target, "HTTP/1.1");
  }

  lemma HostPortNoSpace(host: string, port: U16)
    requires NoSpace(host)
    ensures NoSpace(HostPort(host, port))
  {
    forall c | c in HostPort(host, port)
      ensures !IsSpace(c)
    {
      assert c in host || c == ':' || c in Decimal(port);
    }
  }

  /** The CONNECT line sent for a target without white space is read back by the CONNECT parser. */
  lemma ConnectReads(target: string, tail: string)
    requires NoSpace(target) && target != ""
    ensures ParseConnectTarget(ConnectLine(target) + "\r\n" + tail) == SplitHostPort(target, 443)
  {
    hide SplitHostPort;
    ConnectWords(target);
    assert '\n' !in ConnectLine(target) by {
      assert '\n' !in "CONNECT" && '\n' !in "HTTP/1.1" && '\n' !in target && '\n' !in " ";
    }
    LinesHead(ConnectLine(target), tail);
  }

  /** For a host without white space, the parser recovers the host and the port of the line. */
  lemma ConnectRoundTrip(host: string, port: U16, tail: string)
    requires NoSpace(host)
    ensures ParseConnectTarget(ConnectLine(HostPort(host, port)) + "\r\n" + tail) == Ok(Endpoint(host, port))
  {
    HostPortNoSpace(host, port);
    ConnectReads(HostPort(host, port), tail);
    AddressRoundTrip(host, port, 443);
  }
}
