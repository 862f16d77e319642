// Single-hop handling: an inbound SOCKS4, CONNECT or plain HTTP request is
// translated to whatever the one upstream speaks.
module Translate {
  import opened Wrappers
  import opened Text
  import opened Address
  import opened Wire
  import opened HttpText
  import opened HttpRewrite
  import opened Exits
  import opened Tunnel

  const GRANTED := [NUL, B(0x5A), NUL, NUL, NUL, NUL, NUL, NUL]
  const CONNECTED := "HTTP/1.1 " + ESTABLISHED + "\r\n\r\n"

  /** The upstream, if it can be addressed, is a conforming proxy of its kind. */
  ghost predicate ConformingExit(net: Network, p: ProxyConfig) {
    && Faithful(net.codec)
    && (AddressOf(p).Some? ==>
          var e := AddressOf(p).value;
          e in net.proxies && Conforming(net.proxies[e]) && Speaks(net.proxies[e], p))
  }

  /** The upstream can be addressed, admits us and reaches the target. */
  ghost predicate Reaches(net: Network, p: ProxyConfig, target: Endpoint) {
    Passes(net, [p], target, 0)
  }

  /** A tunnel through the upstream to the target, with nothing unread. */
  ghost function Through(net: Network, p: ProxyConfig, target: Endpoint): Pipe
    requires AddressOf(p).Some?
  {
    Pipe([AddressOf(p).value, target], Start(net, target, ""), "")
  }

  method OpenUpstream(net: Network, p: ProxyConfig) returns (r: Result<Stream, ProxyError>)
    ensures r.Ok? <==> AddressOf(p).Some?
    ensures r.Ok? ==>
              && fresh(r.value) && r.value.net == net
              && r.value.pipe == Pipe([AddressOf(p).value], Start(net, AddressOf(p).value, ""), "")
  {
    hide ParseAddress, UpstreamAddr;
    var e := AddressOf(p);
    if e.None? {
      return Err(Io);
    }
    var stream := new Stream(net, e.value);
    r := Ok(stream);
  }

  // ---- SOCKS4 ----

  predicate SaysGranted(reply: string) {
    |reply| == 8 && reply[1] == B(0x5A)
  }

  /**
   * Where a SOCKS4 request leads, and what it brings along: a SOCKS4 upstream reads
   * the request itself and passes on what follows it, the others are told our own
   * reading of it.
   */
  function Socks4Exit(p: ProxyConfig, request: string): Option<(Endpoint, string)> {
    match Socks4Direct(request)
    case Err(_) => None
    case Ok(target) =>
      if p.proxyType == Socks4 then
        match Socks4Decoded(request)
        case Got(e, rest) => Some((e, rest))
        case _ => None
      else Some((target, ""))
  }

  /** A SOCKS4 upstream is asked for the target we read exactly when the two parsers agree on the request. */
  lemma SameSocks4Target(p: ProxyConfig, request: string)
    requires p.proxyType == Socks4 && Socks4Exit(p, request).Some?
    ensures Socks4Exit(p, request).value.0 == Socks4Direct(request).value <==>
              || !InZeroNet(request)
              || (Octet(request[7]) == 1 && Domain(request) != "")
              || (Octet(request[7]) != 1 && Domain(request) == Socks4Ip(request))
  {
    hide Socks4Target, Dotted;
    FrameTarget(request);
    Socks4ParsersAgree(request);
  }

  /**
   * The client is told "granted" exactly when its stream leads through the
   * upstream to where its request leads, with what followed the request sent on.
   */
  method HandleSocks4(net: Network, p: ProxyConfig, request: string)
    returns (r: Result<Stream, ProxyError>, reply: string)
    requires ConformingExit(net, p)
    requires AddressOf(p).Some? && p.proxyType != Socks4 && Socks4Direct(request).Ok? ==>
               Expressible(p, Socks4Direct(request).value.host)
    ensures r.Ok? <==> Socks4Exit(p, request).Some? && Reaches(net, p, Socks4Exit(p, request).value.0)
    ensures r.Ok? ==>
              var (target, rest) := Socks4Exit(p, request).value;
              && fresh(r.value) && r.value.net == net
              && r.value.pipe == Written(net, Through(net, p, target), rest)
              && (rest == "" ==> r.value.pipe == Through(net, p, target))
    ensures r.Ok? <==> SaysGranted(reply)
  {
    hide Socks4Direct, Socks4Decoded, Expressible, Conforming, Admits, ParseAddress, UpstreamAddr, Written;
    reply := "";
    var target := ParseSocks4Direct(request);
    if target.Err? {
      return Err(target.error), "";
    }
    r := OpenUpstream(net, p);
    if r.Err? {
      return;
    }
    var stream := r.value;
    ghost var hop := net.proxies[AddressOf(p).value];
    var step;
    if p.proxyType == Socks4 {
      step, reply := ForwardSocks4(stream, p, request, hop);
    } else {
      step := ConnectThroughProxy(stream, p, target.value.host, target.value.port, hop);
      if step.Ok? {
        reply := GRANTED;
      }
    }
    if step.Err? {
      r := Err(step.error);
    } else {
      ghost var e := Socks4Exit(p, request).value.0;
      assert Extended(net, Pipe([AddressOf(p).value], stream.pipe.link, ""), e) == Through(net, p, e);
      WroteNothing(net, Through(net, p, e));
    }
  }

  lemma WroteNothing(net: Network, p: Pipe)
    requires p.link.got == ""
    ensures Written(net, p, "") == p
  {
    hide Settled;
    assert "" + "" == "";
    Idle(net, p);
  }

  /** Forward the request as it is, and the answer with it. */
  method ForwardSocks4(stream: Stream, p: ProxyConfig, request: string, ghost hop: Hop)
    returns (r: Result<(), ProxyError>, reply: string)
    requires Fresh(stream, hop) && hop.kind == Socks4 && p.proxyType == Socks4 && Conforming(hop)
    modifies stream
    ensures match Socks4Decoded(request)
            case Got(e, rest) =>
              && (r.Ok? <==> Admits(hop, p) && e !in hop.refuses)
              && (r.Ok? ==> stream.pipe == Written(stream.net, Extended(stream.net, old(stream.pipe), e), rest))
            case _ => r.Err?
    ensures r.Ok? <==> SaysGranted(reply)
  {
    hide Written, Settled, React, Socks4Decoded;
    WroteSocks4(stream.net, stream.pipe, hop, request);
    stream.WriteAll(request);
    var response := stream.ReadExact(8);
    if response.None? {
      return Err(Io), "";
    }
    reply := response.value;
    if response.value[1] != B(0x5A) {
      return Err(ProxyError.Protocol), reply;
    }
    r := Ok(());
  }

  // ---- CONNECT ----

  /** The second word of the first line. */
  function ConnectWord(request: string): (r: Option<string>)
    ensures r.Some? ==> NoSpace(r.value) && r.value != ""
  {
    var lines := Lines(request);
    if lines == [] then None
    else
      var words := Words(lines[0]);
      if |words| < 2 then None else Some(words[1])
  }

  predicate IsHttp(p: ProxyConfig) {
    p.proxyType == Http || p.proxyType == Https
  }

  /** Where the upstream is asked to connect: it reads the target itself when it speaks HTTP. */
  function ConnectTargetOf(p: ProxyConfig, request: string): Option<Endpoint> {
    match ConnectWord(request)
    case None => None
    case Some(word) =>
      if IsHttp(p) then
        match SplitHostPort(word, 443)
        case Ok(e) => Some(e)
        case Err(_) => None
      else Some(ColonTarget(word, 443))
  }

  /**
   * The single-hop path asks for the same target as the multi-hop path for every
   * HTTP upstream, and for a SOCKS upstream exactly when the target has no colon,
   * or one colon followed by a valid port.
   */
  lemma SameConnectTarget(p: ProxyConfig, request: string)
    requires ConnectWord(request).Some?
    ensures ParseConnectTarget(request) == SplitHostPort(ConnectWord(request).value, 443)
    ensures IsHttp(p) ==>
              (ConnectTargetOf(p, request).Some? <==> ParseConnectTarget(request).Ok?)
              && (ParseConnectTarget(request).Ok? ==>
                    ConnectTargetOf(p, request) == Some(ParseConnectTarget(request).value))
    ensures !IsHttp(p) ==>
              var word := ConnectWord(request).value;
              ConnectTargetOf(p, request).Some?
              && (ParseConnectTarget(request) == Ok(ConnectTargetOf(p, request).value) <==>
                    || Colons(word) == 0
                    || (Colons(word) == 1 && ParseU16(AfterColon(word)).Some?))
  {
    hide Lines, Colons, ColonTarget, ParseU16;
    ColonTargetAgrees(ConnectWord(request).value, 443);
  }

  /**
   * The client is told "200 Connection Established" exactly when its stream leads
   * through the upstream to the target.
   */
  method HandleHttps(net: Network, p: ProxyConfig, request: string)
    returns (r: Result<Stream, ProxyError>, reply: string)
    requires ConformingExit(net, p)
    requires AddressOf(p).Some? && !IsHttp(p) && ConnectTargetOf(p, request).Some? ==>
               Expressible(p, ConnectTargetOf(p, request).value.host)
    ensures r.Ok? <==> ConnectTargetOf(p, request).Some? && Reaches(net, p, ConnectTargetOf(p, request).value)
    ensures r.Ok? ==>
              && fresh(r.value) && r.value.net == net
              && r.value.pipe == Through(net, p, ConnectTargetOf(p, request).value)
    ensures r.Ok? <==> Contains(reply, ESTABLISHED)
  {
    hide Lines, Expressible, Conforming, Admits, ParseAddress, UpstreamAddr, Contains, SplitHostPort, ColonTarget;
    NothingEstablished();
    reply := "";
    if Lines(request) == [] {
      return Err(ProxyError.Protocol), "";
    }
    r := OpenUpstream(net, p);
    if r.Err? {
      return;
    }
    var stream := r.value;
    ghost var hop := net.proxies[AddressOf(p).value];
    var words := Words(Lines(request)[0]);
    if |words| < 2 {
      return Err(ProxyError.Protocol), "";
    }
    var step;
    if IsHttp(p) {
      step, reply := HttpTunnel(stream, p, words[1], hop);
    } else {
      var target := ColonTarget(words[1], 443);
      step := ConnectThroughProxy(stream, p, target.host, target.port, hop);
      if step.Ok? {
        ConnectedSays();
        reply := CONNECTED;
      }
    }
    if step.Err? {
      r := Err(step.error);
    }
  }

  lemma ConnectedSays()
    ensures Contains(CONNECTED, ESTABLISHED)
  {
    assert |"HTTP/1.1 "| == 9;
    assert PartAt(CONNECTED, ESTABLISHED, 9);
  }

  // ---- Plain HTTP ----

  const HOST := "host: "

  /** The first line starting with `host: ` in any case. */
  function HostLine(lines: seq<string>): (r: Option<string>)
    ensures r.Some? ==> |r.value| >= |HOST|
  {
    if lines == [] then None
    else if StartsWith(Lower(lines[0]), HOST) then Some(lines[0])
    else HostLine(lines[1..])
  }

  /** The line is a Host header, in any case, with one space after the colon. */
  predicate NamesHost(line: string) {
    |line| >= 6 && SameText(line[..6], "host: ")
  }

  lemma NamesHostMeaning(line: string)
    ensures NamesHost(line) <==> StartsWith(Lower(line), HOST)
  {
    hide SameText;
    assert |HOST| == 6;
    assert Lower(HOST) == HOST;
    LowerStart(line, HOST);
  }

  lemma {:induction false} HostLineAt(lines: seq<string>, i: nat)
    requires i < |lines| && NamesHost(lines[i]) && forall j :: 0 <= j < i ==> !NamesHost(lines[j])
    ensures HostLine(lines) == Some(lines[i])
  {
    hide Lower, StartsWith, NamesHost;
    NamesHostMeaning(lines[0]);
    if i > 0 {
      HostLineAt(lines[1..], i - 1);
    }
  }

  lemma {:induction false} NoHostLineIn(lines: seq<string>)
    requires forall l :: l in lines ==> !NamesHost(l)
    ensures HostLine(lines).None?
  {
    hide Lower, StartsWith, NamesHost;
    if lines != [] {
      NamesHostMeaning(lines[0]);
      assert lines[0] in lines && forall l :: l in lines[1..] ==> l in lines;
      NoHostLineIn(lines[1..]);
    }
  }

  /** The first Host header names the host; with white space around it, a port, or port 80 without one. */
  lemma HostTargetMeaning(request: string, i: nat, pad: string, host: string, port: U16, after: string)
    requires i < |Lines(request)| && forall j :: 0 <= j < i ==> !NamesHost(Lines(request)[j])
    requires AllSpace(pad) && AllSpace(after) && NoSpace(host) && ':' !in host && host != ""
    requires NamesHost(Lines(request)[i])
    ensures Lines(request)[i][6..] == pad + HostPort(host, port) + after ==>
              HostTarget(request) == Some(Endpoint(host, port))
    ensures Lines(request)[i][6..] == pad + host + after ==> HostTarget(request) == Some(Endpoint(host, 80))
  {
    hide Lines, NamesHost, HostLine, Trim, ColonTarget, ParseU16, Decimal;
    var line := Lines(request)[i];
    HostLineAt(Lines(request), i);
    assert |HOST| == 6;
    HostPortNoSpace(host, port);
    HostPortText(host, port);
    TrimPad(pad, HostPort(host, port), after);
    TrimPad(pad, host, after);
    ParseDecimal(port);
    assert ':' !in Decimal(port) by {
      assert AllDigits(Decimal(port));
    }
    ColonTargetMeaning(host, Decimal(port), "", 80);
  }

  function HostTarget(request: string): Option<Endpoint> {
    match HostLine(Lines(request))
    case None => None
    case Some(line) => Some(ColonTarget(Trim(line[|HOST|..]), 80))
  }

  /** The first line mentions CONNECT anywhere, be it in the path. */
  predicate MentionsConnect(request: string) {
    Lines(request) != [] && Contains(Lines(request)[0], "CONNECT")
  }

  /** What is written into the tunnel of a plain HTTP request before its relay. */
  function SentByHttp(request: string): string {
    if MentionsConnect(request) then "" else request
  }

  /**
   * An HTTP upstream receives exactly the rewritten request, unless it is a CONNECT
   * and handled elsewhere. A SOCKS upstream is asked for the host of the Host
   * header; an origin there receives exactly the request, unless its first line
   * mentions CONNECT: then it receives nothing and the client is told that it is
   * connected.
   */
  method HandleHttp(net: Network, p: ProxyConfig, request: string)
    returns (r: Result<Stream, ProxyError>, reply: string)
    requires ConformingExit(net, p)
    requires AddressOf(p).Some? && !IsHttp(p) && HostTarget(request).Some? ==>
               Expressible(p, HostTarget(request).value.host)
    ensures IsHttp(p) ==> (r.Ok? <==> Lines(request) != [] && AddressOf(p).Some?)
    ensures IsHttp(p) && r.Ok? && !StartsWith(Lines(request)[0], "CONNECT") ==>
              var e := AddressOf(p).value;
              r.value.pipe == Pipe([e], Proxy(net.proxies[e], Hello,
                                              HeaderBlock(WithAuth(net.codec, CredentialsOf(p), Lines(request)))), "")
    ensures !IsHttp(p) ==>
              (r.Ok? <==> HostTarget(request).Some? && Reaches(net, p, HostTarget(request).value))
    ensures !IsHttp(p) && r.Ok? ==>
              var target := HostTarget(request).value;
              && r.value.pipe == Written(net, Through(net, p, target), SentByHttp(request))
              && (target !in net.proxies ==>
                    r.value.pipe == Through(net, p, target).(link := Origin(SentByHttp(request))))
    ensures reply == if r.Ok? && !IsHttp(p) && MentionsConnect(request) then CONNECTED else ""
    ensures r.Ok? ==> fresh(r.value) && r.value.net == net
  {
    hide Lines, Expressible, Conforming, Admits, ParseAddress, UpstreamAddr, Contains, Written, HeaderBlock, WithAuth;
    hide HostLine, ColonTarget, Trim, StartsWith;
    reply := "";
    if Lines(request) == [] {
      NoHostLine();
      return Err(ProxyError.Protocol), "";
    }
    r := OpenUpstream(net, p);
    if r.Err? {
      return;
    }
    var stream := r.value;
    ghost var hop := net.proxies[AddressOf(p).value];
    if IsHttp(p) {
      var modified := RewriteForUpstream(net.codec, CredentialsOf(p), request);
      if !StartsWith(Lines(request)[0], "CONNECT") {
        RewrittenStart(net.codec, CredentialsOf(p), Lines(request));
        WroteOther(net, stream.pipe, hop, modified.value);
      }
      stream.WriteAll(modified.value);
      return;
    }
    var target := HostTarget(request);
    if target.None? {
      return Err(ProxyError.Protocol), "";
    }
    var step := ConnectThroughProxy(stream, p, target.value.host, target.value.port, hop);
    if step.Err? {
      return Err(step.error), "";
    }
    assert stream.pipe == Through(net, p, target.value);
    WroteNothing(net, stream.pipe);
    if target.value !in net.proxies {
      WroteToOrigin(net, stream.pipe, SentByHttp(request));
    }
    if Contains(Lines(request)[0], "CONNECT") {
      reply := CONNECTED;
    } else {
      stream.WriteAll(request);
    }
  }

  lemma NoHostLine()
    ensures HostLine([]).None?
  {
  }

  lemma WroteToOrigin(net: Network, p: Pipe, bytes: string)
    requires p.link == Origin("")
    ensures Written(net, p, bytes) == p.(link := Origin(bytes))
  {
    assert "" + bytes == bytes;
  }

  /** Over a SOCKS upstream, an origin receives the request exactly when its first line does not mention CONNECT. */
  lemma DroppedIff(net: Network, p: ProxyConfig, target: Endpoint, request: string)
    requires AddressOf(p).Some? && target !in net.proxies && request != ""
    ensures var tunnel := Through(net, p, target);
            (Written(net, tunnel, SentByHttp(request)) == Written(net, tunnel, request)) <==> !MentionsConnect(request)
  {
    hide MentionsConnect, Written;
    WroteToOrigin(net, Through(net, p, target), SentByHttp(request));
    WroteToOrigin(net, Through(net, p, target), request);
  }

  /** The rewrite keeps the beginning of the first line. */
  lemma RewrittenStart(codec: Codec, creds: Option<Credentials>, lines: seq<string>)
    requires lines != [] && !StartsWith(lines[0], "CONNECT")
    ensures !StartsWith(HeaderBlock(WithAuth(codec, creds, lines)), "CONNECT")
  {
    hide AuthLine;
    var out, first := HeaderBlock(WithAuth(codec, creds, lines)), lines[0];
    var rest := HeaderBlock(WithAuth(codec, creds, lines)[1..]);
    assert out == first + ("\r\n" + rest);
    if |first| < 7 {
      assert out[|first|] == '\r';
      assert forall k :: 0 <= k < 7 ==> "CONNECT"[k] != '\r';
    } else {
      assert out[..7] == first[..7];
    }
  }
}
