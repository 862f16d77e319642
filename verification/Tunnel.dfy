// Multi-hop tunnelling: the client side of SOCKS5, SOCKS4a and HTTP CONNECT
// against proxies that decode what was written and open what they decoded.
module Tunnel {
  import opened Wrappers
  import opened Text
  import opened Address
  import opened Wire
  import opened HttpText
  import opened Exits

  // ---- Proxies along a path ----

  datatype Policy = Open | Only(credentials: Credentials)

  /** A proxy: what it speaks, whom it admits, what it refuses to reach, what it answers. */
  datatype Hop = Hop(kind: ProxyKind, policy: Policy, refuses: set<Endpoint>, grant: string, deny: string)

  datatype Phase = Hello | Auth | Request | Refused

  /** What written bytes reach: a proxy that has not tunnelled yet, or an origin. */
  datatype Link = Proxy(hop: Hop, phase: Phase, got: string) | Origin(got: string)

  /** A stream: the addresses it passes through, its far end, and the bytes not read yet. */
  datatype Pipe = Pipe(path: seq<Endpoint>, link: Link, unread: string)

  datatype Network = Network(proxies: map<Endpoint, Hop>, codec: Codec)

  function Start(net: Network, e: Endpoint, got: string): Link {
    if e in net.proxies then Proxy(net.proxies[e], Hello, got) else Origin(got)
  }

  /** What a proxy does with the bytes it has: wait for more, answer, or open an address. */
  datatype Reaction =
    | Wait
    | Answer(text: string, next: Phase, rest: string)
    | Reach(target: Endpoint, text: string, rest: string)

  function Attempt(hop: Hop, admitted: bool, e: Endpoint, rest: string): Reaction {
    if admitted && e !in hop.refuses then Reach(e, hop.grant, rest) else Answer(hop.deny, Refused, rest)
  }

  function ReactSocks5(hop: Hop, phase: Phase, got: string): (r: Reaction)
    ensures !r.Wait? ==> |r.rest| < |got|
  {
    match phase
    case Refused => Wait
    case Hello =>
      (match GreetingDecoded(got)
       case Got(methods, rest) =>
         if hop.policy.Open? && B(0) in methods then Answer([B(5), B(0)], Request, rest)
         else if hop.policy.Only? && B(2) in methods then Answer([B(5), B(2)], Auth, rest)
         else Answer([B(5), B(0xFF)], Refused, rest)
       case _ => Wait)
    case Auth =>
      (match AuthFrame(got)
       case Got(c, rest) =>
         if hop.policy == Only(c) then Answer([B(1), B(0)], Request, rest)
         else Answer([B(1), B(1)], Refused, rest)
       case _ => Wait)
    case Request =>
      match Socks5Decoded(got)
      case Got(e, rest) => Attempt(hop, true, e, rest)
      case _ => Wait
  }

  function ReactSocks4(hop: Hop, got: string): (r: Reaction)
    ensures !r.Wait? ==> |r.rest| < |got|
  {
    match Socks4Decoded(got)
    case Got(e, rest) => Attempt(hop, hop.policy.Open?, e, rest)
    case _ => Wait
  }

  function ReactHttp(codec: Codec, hop: Hop, got: string): (r: Reaction)
    ensures !r.Wait? ==> |r.rest| < |got|
  {
    match ConnectDecoded(codec, got)
    case Got(head, rest) =>
      Attempt(hop, hop.policy.Open? || head.userpass == Some(Userpass(hop.policy.credentials)), head.target, rest)
    case _ => Wait
  }

  function React(codec: Codec, hop: Hop, phase: Phase, got: string): (r: Reaction)
    ensures !r.Wait? ==> |r.rest| < |got|
  {
    if phase == Refused then Wait
    else
      match hop.kind
      case Socks5 => ReactSocks5(hop, phase, got)
      case Socks4 => ReactSocks4(hop, got)
      case _ => ReactHttp(codec, hop, got)
  }

  /** The far end works through the bytes it has received. */
  function Settled(net: Network, p: Pipe): Pipe
    decreases |p.link.got|
  {
    match p.link
    case Origin(_) => p
    case Proxy(hop, phase, got) =>
      match React(net.codec, hop, phase, got)
      case Wait => p
      case Answer(text, next, rest) => Settled(net, Pipe(p.path, Proxy(hop, next, rest), p.unread + text))
      case Reach(e, text, rest) => Settled(net, Pipe(p.path + [e], Start(net, e, rest), p.unread + text))
  }

  function Written(net: Network, p: Pipe, bytes: string): Pipe {
    Settled(net, p.(link := p.link.(got := p.link.got + bytes)))
  }

  // ---- The client's stream ----

  class Stream {
    const net: Network
    var pipe: Pipe

    constructor (net: Network, e: Endpoint)
      ensures this.net == net && pipe == Pipe([e], Start(net, e, ""), "")
    {
      this.net := net;
      this.pipe := Pipe([e], Start(net, e, ""), "");
    }

    method WriteAll(bytes: string)
      modifies this
      ensures pipe == Written(net, old(pipe), bytes)
    {
      pipe := Written(net, pipe, bytes);
    }

    /** Exactly `n` bytes, or an error when they never come. */
    method ReadExact(n: nat) returns (r: Option<string>)
      modifies this
      ensures n <= |old(pipe.unread)| ==>
                r == Some(old(pipe.unread)[..n]) && pipe == old(pipe).(unread := old(pipe.unread)[n..])
      ensures n > |old(pipe.unread)| ==> r.None? && pipe == old(pipe)
    {
      if |pipe.unread| < n {
        return None;
      }
      r := Some(pipe.unread[..n]);
      pipe := pipe.(unread := pipe.unread[n..]);
    }

    /** One read: what has arrived, up to `max` bytes. */
    method Read(max: nat) returns (r: string)
      modifies this
      ensures var n := if |old(pipe.unread)| < max then |old(pipe.unread)| else max;
              r == old(pipe.unread)[..n] && pipe == old(pipe).(unread := old(pipe.unread)[n..])
    {
      var n := if |pipe.unread| < max then |pipe.unread| else max;
      r := pipe.unread[..n];
      pipe := pipe.(unread := pipe.unread[n..]);
    }
  }

  // ---- Conforming proxies ----

  const ESTABLISHED := "200 Connection Established"

  /** Address type, address and port, as they follow a SOCKS5 reply's first three bytes. */
  predicate BoundAddress(s: string) {
    && |s| > 0
    && (|| (s[0] == B(1) && |s| == 7)
        || (s[0] == B(3) && |s| > 1 && |s| == 4 + Octet(s[1]))
        || (s[0] == B(4) && |s| == 19))
  }

  predicate Conforming(hop: Hop) {
    match hop.kind
    case Socks5 =>
      && |hop.grant| > 3 && hop.grant[1] == B(0) && BoundAddress(hop.grant[3..])
      && |hop.deny| > 3 && hop.deny[1] != B(0)
    case Socks4 =>
      && |hop.grant| == 8 && hop.grant[1] == B(0x5A)
      && |hop.deny| == 8 && hop.deny[1] != B(0x5A)
    case _ =>
      && |hop.grant| <= 1024 && Contains(hop.grant, ESTABLISHED)
      && |hop.deny| <= 1024 && !Contains(hop.deny, ESTABLISHED)
  }

  function CredentialsOf(p: ProxyConfig): Option<Credentials> {
    if p.username.Some? && p.password.Some? then Some(Credentials(p.username.value, p.password.value)) else None
  }

  /** Whether a hop lets this configuration in. */
  predicate Admits(hop: Hop, p: ProxyConfig) {
    hop.policy.Open? ||
    match (hop.kind, CredentialsOf(p))
    case (_, None) => false
    case (Socks5, Some(c)) => c == hop.policy.credentials
    case (Socks4, Some(_)) => false
    case (_, Some(c)) => Userpass(c) == Userpass(hop.policy.credentials)
  }

  /** The names and credentials a protocol can carry. */
  predicate Expressible(p: ProxyConfig, host: string) {
    match p.proxyType
    case Socks5 =>
      |host| <= 255 &&
      (CredentialsOf(p).Some? ==> |p.username.value| <= 255 && |p.password.value| <= 255)
    case Socks4 => NUL !in host
    case _ => NoSpace(host)
  }

  /** A stream whose far end is a proxy that has heard nothing yet. */
  ghost predicate Fresh(s: Stream, hop: Hop)
    reads s
  {
    s.pipe.link == Proxy(hop, Hello, "") && s.pipe.unread == ""
  }

  /** The stream now ends at `e`, with nothing left unread. */
  function Extended(net: Network, p: Pipe, e: Endpoint): Pipe {
    Pipe(p.path + [e], Start(net, e, ""), "")
  }

  // ---- How a conforming proxy reacts to each message ----

  lemma Idle(net: Network, p: Pipe)
    requires p.link.got == ""
    ensures Settled(net, p) == p
  {
    hide React;
    if p.link.Proxy? {
      var reaction := React(net.codec, p.link.hop, p.link.phase, "");
    }
  }

  lemma WroteGreeting(net: Network, p: Pipe, hop: Hop, withPassword: bool)
    requires hop.kind == Socks5 && p.link == Proxy(hop, Hello, "")
    ensures var (reply, next) := if hop.policy.Open? then ([B(5), B(0)], Request)
                               else if withPassword then ([B(5), B(2)], Auth)
                               else ([B(5), B(0xFF)], Refused);
            Written(net, p, Greeting(withPassword)) == Pipe(p.path, Proxy(hop, next, ""), p.unread + reply)
  {
    hide GreetingDecoded, Greeting;
    GreetingRoundTrip(withPassword);
    assert "" + Greeting(withPassword) == Greeting(withPassword);
    var (reply, next) := if hop.policy.Open? then ([B(5), B(0)], Request)
                         else if withPassword then ([B(5), B(2)], Auth)
                         else ([B(5), B(0xFF)], Refused);
    Idle(net, Pipe(p.path, Proxy(hop, next, ""), p.unread + reply));
  }

  lemma WroteAuth(net: Network, p: Pipe, hop: Hop, c: Credentials)
    requires hop.kind == Socks5 && p.link == Proxy(hop, Auth, "")
    requires |c.username| <= 255 && |c.password| <= 255
    ensures Written(net, p, AuthRequest(c)) ==
            if hop.policy == Only(c) then Pipe(p.path, Proxy(hop, Request, ""), p.unread + [B(1), B(0)])
            else Pipe(p.path, Proxy(hop, Refused, ""), p.unread + [B(1), B(1)])
  {
    hide AuthFrame, AuthRequest;
    AuthFrameRoundTrip(c);
    assert "" + AuthRequest(c) == AuthRequest(c);
    Idle(net, if hop.policy == Only(c) then Pipe(p.path, Proxy(hop, Request, ""), p.unread + [B(1), B(0)])
              else Pipe(p.path, Proxy(hop, Refused, ""), p.unread + [B(1), B(1)]));
  }

  function Attempted(net: Network, p: Pipe, hop: Hop, admitted: bool, e: Endpoint): Pipe {
    if admitted && e !in hop.refuses
    then Pipe(p.path + [e], Start(net, e, ""), p.unread + hop.grant)
    else Pipe(p.path, Proxy(hop, Refused, ""), p.unread + hop.deny)
  }

  lemma WroteSocks5(net: Network, p: Pipe, hop: Hop, host: string, port: U16)
    requires hop.kind == Socks5 && p.link == Proxy(hop, Request, "") && |host| <= 255
    ensures Written(net, p, Socks5Request(host, port)) == Attempted(net, p, hop, true, Endpoint(host, port))
  {
    hide Socks5Decoded, Socks5Request;
    Socks5RoundTrip(host, port);
    assert "" + Socks5Request(host, port) == Socks5Request(host, port);
    Idle(net, Attempted(net, p, hop, true, Endpoint(host, port)));
  }

  /** What is unread already does not change how the far end goes on. */
  lemma {:induction false} SettledUnread(net: Network, path: seq<Endpoint>, link: Link, a: string, b: string)
    ensures var q := Settled(net, Pipe(path, link, b));
            Settled(net, Pipe(path, link, a + b)) == q.(unread := a + q.unread)
    decreases |link.got|
  {
    hide React;
    match link
    case Origin(_) =>
    case Proxy(hop, phase, got) =>
      match React(net.codec, hop, phase, got)
      case Wait =>
      case Answer(text, next, rest) =>
        assert a + b + text == a + (b + text);
        SettledUnread(net, path, Proxy(hop, next, rest), a, b + text);
      case Reach(e, text, rest) =>
        assert a + b + text == a + (b + text);
        SettledUnread(net, path + [e], Start(net, e, rest), a, b + text);
  }

  /** A SOCKS4 request, and what follows it, as they are. */
  lemma WroteSocks4(net: Network, p: Pipe, hop: Hop, request: string)
    requires hop.kind == Socks4 && p.link == Proxy(hop, Hello, "") && p.unread == ""
    ensures Written(net, p, request) ==
            match Socks4Decoded(request)
            case Got(e, rest) =>
              if hop.policy.Open? && e !in hop.refuses
              then
                var q := Written(net, Extended(net, p, e), rest);
                q.(unread := hop.grant + q.unread)
              else Pipe(p.path, Proxy(hop, Refused, rest), hop.deny)
            case _ => p.(link := Proxy(hop, Hello, request))
  {
    hide Socks4Decoded;
    assert "" + request == request;
    match Socks4Decoded(request)
    case Got(e, rest) =>
      var before := p.(link := Proxy(hop, Hello, request));
      assert React(net.codec, hop, Hello, request) == Attempt(hop, hop.policy.Open?, e, rest);
      if hop.policy.Open? && e !in hop.refuses {
        var q := Extended(net, p, e);
        assert "" + rest == rest && "" + hop.grant == hop.grant + "";
        assert q.(link := q.link.(got := "" + rest)) == Pipe(p.path + [e], Start(net, e, rest), "");
        assert Settled(net, before) == Settled(net, Pipe(p.path + [e], Start(net, e, rest), hop.grant + ""));
        SettledUnread(net, p.path + [e], Start(net, e, rest), hop.grant, "");
      } else {
        var refused := Pipe(p.path, Proxy(hop, Refused, rest), hop.deny);
        assert "" + hop.deny == hop.deny;
        assert Settled(net, before) == Settled(net, refused);
        assert Settled(net, refused) == refused;
      }
    case _ =>
  }

  /** Any one whole SOCKS4 request. */
  lemma WroteSocks4Frame(net: Network, p: Pipe, hop: Hop, request: string, e: Endpoint)
    requires hop.kind == Socks4 && p.link == Proxy(hop, Hello, "") && Socks4Decoded(request) == Got(e, "")
    ensures Written(net, p, request) == Attempted(net, p, hop, hop.policy.Open?, e)
  {
    hide Socks4Decoded;
    assert "" + request == request;
    Idle(net, Attempted(net, p, hop, hop.policy.Open?, e));
  }

  /** An HTTP proxy that is not asked for a tunnel keeps what it was sent. */
  lemma WroteOther(net: Network, p: Pipe, hop: Hop, request: string)
    requires hop.kind in {Http, Https} && p.link == Proxy(hop, Hello, "") && !StartsWith(request, "CONNECT")
    ensures Written(net, p, request) == p.(link := Proxy(hop, Hello, request))
  {
    assert "" + request == request;
  }

  lemma WroteConnect(net: Network, pipe: Pipe, hop: Hop, p: ProxyConfig, target: string)
    requires hop.kind in {Http, Https} && pipe.link == Proxy(hop, Hello, "")
    requires NoSpace(target) && target != "" && Faithful(net.codec)
    ensures var request := HeaderBlock(ConnectLines(net.codec, CredentialsOf(p), target));
            Written(net, pipe, request)
            == match SplitHostPort(target, 443)
               case Err(_) => pipe.(link := Proxy(hop, Hello, request))
               case Ok(e) => Attempted(net, pipe, hop, Admits(hop, p), e)
  {
    hide ConnectDecoded, ConnectLines, HeaderBlock, Userpass, SplitHostPort;
    var c := CredentialsOf(p);
    ConnectRequestRoundTrip(net.codec, c, target);
    var s := HeaderBlock(ConnectLines(net.codec, c, target));
    assert "" + s == s;
    match SplitHostPort(target, 443)
    case Err(_) =>
    case Ok(e) => Idle(net, Attempted(net, pipe, hop, Admits(hop, p), e));
  }

  // ---- The client side ----

  /** A handshake succeeds exactly when the hop admits us and reaches the target. */
  ghost predicate Outcome(
    net: Network, before: Pipe, after: Pipe, hop: Hop, p: ProxyConfig, e: Endpoint, r: Result<(), ProxyError>)
  {
    && (r.Ok? <==> Admits(hop, p) && e !in hop.refuses)
    && (r.Ok? ==> after == Extended(net, before, e))
    && (r.Err? ==> after.path == before.path)
  }

  method Socks5Connect(stream: Stream, p: ProxyConfig, host: string, port: U16, ghost hop: Hop)
    returns (r: Result<(), ProxyError>)
    requires Fresh(stream, hop) && hop.kind == Socks5 && p.proxyType == Socks5
    requires Conforming(hop) && Expressible(p, host)
    modifies stream
    ensures Outcome(stream.net, old(stream.pipe), stream.pipe, hop, p, Endpoint(host, port), r)
  {
    hide Written, Settled, React;
    var authed := Socks5Login(stream, p, hop);
    if authed.Err? {
      return Err(authed.error);
    }
    WroteSocks5(stream.net, stream.pipe, hop, host, port);
    stream.WriteAll(Socks5Request(host, port));
    var response := stream.ReadExact(4);
    if response.None? {
      return Err(Io);
    }
    if response.value[1] != B(0) {
      return Err(ProxyError.Protocol);
    }
    r := SkipAddress(stream, response.value[3]);
  }

  /** Greeting and, when the proxy asks for it, username and password. */
  method Socks5Login(stream: Stream, p: ProxyConfig, ghost hop: Hop) returns (r: Result<(), ProxyError>)
    requires Fresh(stream, hop) && hop.kind == Socks5 && p.proxyType == Socks5 && Expressible(p, "")
    modifies stream
    ensures r.Ok? <==> Admits(hop, p)
    ensures stream.pipe.path == old(stream.pipe.path)
    ensures r.Ok? ==> stream.pipe == Pipe(old(stream.pipe.path), Proxy(hop, Request, ""), "")
  {
    hide Written, Settled, React;
    var handshake := Greeting(p.username.Some? && p.password.Some?);
    WroteGreeting(stream.net, stream.pipe, hop, p.username.Some? && p.password.Some?);
    stream.WriteAll(handshake);
    var response := stream.ReadExact(2);
    if response.None? {
      return Err(Io);
    }
    if response.value[1] == B(2) {
      if p.username.Some? && p.password.Some? {
        var c := Credentials(p.username.value, p.password.value);
        WroteAuth(stream.net, stream.pipe, hop, c);
        stream.WriteAll(AuthRequest(c));
        var authResponse := stream.ReadExact(2);
        if authResponse.None? {
          return Err(Io);
        }
        if authResponse.value[1] != B(0) {
          return Err(ProxyError.Protocol);
        }
      } else {
        return Err(ProxyError.Protocol);
      }
    } else if response.value[1] != B(0) {
      return Err(ProxyError.Protocol);
    }
    r := Ok(());
  }

  /** How many bytes the address of a reply takes after its type; None for an unknown type. */
  function AddressSize(atyp: char, rest: string): Option<nat> {
    if atyp == B(1) then Some(6)
    else if atyp == B(3) then Some(if rest == "" then 3 else 3 + Octet(rest[0]))
    else if atyp == B(4) then Some(18)
    else None
  }

  /** Skip the bound address of a SOCKS5 reply: all of it, and nothing after it. */
  method SkipAddress(stream: Stream, atyp: char) returns (r: Result<(), ProxyError>)
    modifies stream
    ensures var size := AddressSize(atyp, old(stream.pipe.unread));
            && (r.Ok? <==> size.Some? && size.value <= |old(stream.pipe.unread)|)
            && (r.Ok? ==> stream.pipe == old(stream.pipe).(unread := old(stream.pipe.unread)[size.value..]))
    ensures stream.pipe == old(stream.pipe).(unread := stream.pipe.unread)
  {
    if atyp == B(1) {
      var addr := stream.ReadExact(6);
      r := if addr.Some? then Ok(()) else Err(Io);
    } else if atyp == B(3) {
      var len := stream.ReadExact(1);
      if len.None? {
        return Err(Io);
      }
      var domain := stream.ReadExact(Octet(len.value[0]) + 2);
      r := if domain.Some? then Ok(()) else Err(Io);
    } else if atyp == B(4) {
      var addr := stream.ReadExact(18);
      r := if addr.Some? then Ok(()) else Err(Io);
    } else {
      r := Err(ProxyError.Protocol);
    }
  }

  method Socks4Connect(stream: Stream, p: ProxyConfig, host: string, port: U16, ghost hop: Hop)
    returns (r: Result<(), ProxyError>)
    requires Fresh(stream, hop) && hop.kind == Socks4 && p.proxyType == Socks4
    requires Conforming(hop) && Expressible(p, host)
    modifies stream
    ensures Outcome(stream.net, old(stream.pipe), stream.pipe, hop, p, Endpoint(host, port), r)
  {
    hide Written, Settled, React, Socks4Decoded, Socks4Request;
    Socks4FrameRoundTrip(host, port);
    WroteSocks4Frame(stream.net, stream.pipe, hop, Socks4Request(host, port), Endpoint(host, port));
    stream.WriteAll(Socks4Request(host, port));
    var response := stream.ReadExact(8);
    if response.None? {
      return Err(Io);
    }
    if response.value[1] != B(0x5A) {
      return Err(ProxyError.Protocol);
    }
    r := Ok(());
  }

  method HttpConnect(stream: Stream, p: ProxyConfig, host: string, port: U16, ghost hop: Hop)
    returns (r: Result<(), ProxyError>)
    requires Fresh(stream, hop) && hop.kind in {Http, Https} && p.proxyType in {Http, Https}
    requires Conforming(hop) && Expressible(p, host) && Faithful(stream.net.codec)
    modifies stream
    ensures Outcome(stream.net, old(stream.pipe), stream.pipe, hop, p, Endpoint(host, port), r)
  {
    hide Conforming, HostPort;
    HostPortNoSpace(host, port);
    AddressRoundTrip(host, port, 443);
    HostPortNonEmpty(host, port);
    var response;
    r, response := HttpTunnel(stream, p, HostPort(host, port), hop);
  }

  lemma HostPortNonEmpty(host: string, port: U16)
    ensures HostPort(host, port) != ""
  {
    assert HostPort(host, port)[|host|] == ':';
  }

  /** CONNECT to a target; `response` is what one read of the answer gave. */
  method HttpTunnel(stream: Stream, p: ProxyConfig, target: string, ghost hop: Hop)
    returns (r: Result<(), ProxyError>, response: string)
    requires Fresh(stream, hop) && hop.kind in {Http, Https} && Conforming(hop)
    requires NoSpace(target) && target != "" && Faithful(stream.net.codec)
    modifies stream
    ensures r.Ok? <==> Contains(response, ESTABLISHED)
    ensures match SplitHostPort(target, 443)
            case Err(_) => r.Err? && stream.pipe.path == old(stream.pipe.path)
            case Ok(e) => Outcome(stream.net, old(stream.pipe), stream.pipe, hop, p, e, r)
  {
    hide Written, Settled, React, Userpass, Contains, HeaderBlock, AuthLine, ConnectLine, SplitHostPort;
    var lines := [ConnectLine(target), "Host: " + target];
    if p.username.Some? && p.password.Some? {
      lines := lines + [AuthLine(stream.net.codec, Credentials(p.username.value, p.password.value))];
    }
    assert lines == ConnectLines(stream.net.codec, CredentialsOf(p), target);
    WroteConnect(stream.net, stream.pipe, hop, p, target);
    stream.WriteAll(HeaderBlock(lines));
    ghost var answer := stream.pipe.unread;
    NothingEstablished();
    assert answer == hop.grant || answer == hop.deny || answer == "";
    response := stream.Read(1024);
    assert response == answer;
    if !Contains(response, ESTABLISHED) {
      return Err(ProxyError.Protocol), response;
    }
    r := Ok(());
  }

  lemma NothingEstablished()
    ensures !Contains("", ESTABLISHED)
  {
    assert |ESTABLISHED| > 0;
  }

  method ConnectThroughProxy(stream: Stream, p: ProxyConfig, host: string, port: U16, ghost hop: Hop)
    returns (r: Result<(), ProxyError>)
    requires Fresh(stream, hop) && Speaks(hop, p)
    requires Conforming(hop) && Expressible(p, host) && Faithful(stream.net.codec)
    modifies stream
    ensures Outcome(stream.net, old(stream.pipe), stream.pipe, hop, p, Endpoint(host, port), r)
  {
    match p.proxyType {
      case Socks5 => r := Socks5Connect(stream, p, host, port, hop);
      case Socks4 => r := Socks4Connect(stream, p, host, port, hop);
      case Http => r := HttpConnect(stream, p, host, port, hop);
      case Https => r := HttpConnect(stream, p, host, port, hop);
    }
  }

  /** The hop speaks the configured protocol; both HTTP kinds are the same on the wire. */
  predicate Speaks(hop: Hop, p: ProxyConfig) {
    hop.kind == p.proxyType || (hop.kind in {Http, Https} && p.proxyType in {Http, Https})
  }

  function UpstreamAddr(p: ProxyConfig): string {
    match p.port
    case Some(port) => HostPort(p.address, port)
    case None => p.address
  }

  /** The addresses of a chain's hops; None where one cannot be parsed. */
  function AddressOf(p: ProxyConfig): Option<Endpoint> {
    match ParseAddress(UpstreamAddr(p))
    case Ok(e) => Some(e)
    case Err(_) => None
  }

  /** The configured address: host and port, or a bare address that spells both out. */
  ghost predicate ConfiguredAt(p: ProxyConfig, e: Endpoint) {
    if p.port.Some? then e == Endpoint(p.address, p.port.value) else SpellsOut(p.address, e)
  }

  /** A hop is addressed where it is configured, and cannot be addressed exactly when it is configured nowhere. */
  lemma AddressMeaning(p: ProxyConfig)
    ensures forall e :: AddressOf(p) == Some(e) <==> ConfiguredAt(p, e)
    ensures forall h, n :: p.port.None? && p.address == HostPort(h, n) ==> AddressOf(p) == Some(Endpoint(h, n))
    ensures p.port.None? && ':' !in p.address ==> AddressOf(p).None?
  {
    NoColon(p);
    hide ParseAddress, HostPort, SpellsOut;
    forall e
      ensures AddressOf(p) == Some(e) <==> ConfiguredAt(p, e)
    {
      if p.port.Some? {
        AddressRoundTrip(p.address, p.port.value, 0);
      } else {
        ParseAddressMeaning(p.address, e);
      }
    }
    forall h, n | p.port.None? && p.address == HostPort(h, n)
      ensures AddressOf(p) == Some(Endpoint(h, n))
    {
      AddressRoundTrip(h, n, 0);
    }
  }

  lemma NoColon(p: ProxyConfig)
    ensures p.port.None? && ':' !in p.address ==> AddressOf(p).None?
  {
    var k := LastIndexOf(p.address, ':');
    assert k >= 0 ==> p.address[k] in p.address;
  }

  /** The path of a tunnel is where its hops are configured, in order. */
  lemma PathConfigured(path: seq<Endpoint>, chain: seq<ProxyConfig>)
    requires PathIs(path, chain, |chain|)
    ensures forall i :: 0 <= i < |chain| ==> ConfiguredAt(chain[i], path[i])
  {
    hide AddressOf, ConfiguredAt;
    forall i | 0 <= i < |chain|
      ensures ConfiguredAt(chain[i], path[i])
    {
      AddressMeaning(chain[i]);
      assert AddressOf(chain[i]) == Some(path[i]);
    }
  }

  /** Where hop `i` must connect to. */
  function NextOf(chain: seq<ProxyConfig>, target: Endpoint, i: nat): Option<Endpoint>
    requires i < |chain|
  {
    if i + 1 == |chain| then Some(target) else AddressOf(chain[i + 1])
  }

  /** Every hop that can be addressed is a conforming proxy, and can be told the next name. */
  ghost predicate ConformingChain(net: Network, chain: seq<ProxyConfig>, target: Endpoint) {
    && Faithful(net.codec)
    && forall i :: 0 <= i < |chain| && AddressOf(chain[i]).Some? ==>
         var e := AddressOf(chain[i]).value;
         && e in net.proxies && Conforming(net.proxies[e]) && Speaks(net.proxies[e], chain[i])
         && (NextOf(chain, target, i).Some? ==> Expressible(chain[i], NextOf(chain, target, i).value.host))
  }

  /** Hop `i` admits us and reaches the next name. */
  ghost predicate Passes(net: Network, chain: seq<ProxyConfig>, target: Endpoint, i: nat)
    requires i < |chain|
  {
    && AddressOf(chain[i]).Some? && AddressOf(chain[i]).value in net.proxies
    && NextOf(chain, target, i).Some?
    && Admits(net.proxies[AddressOf(chain[i]).value], chain[i])
    && NextOf(chain, target, i).value !in net.proxies[AddressOf(chain[i]).value].refuses
  }

  /** Hop addresses, in order. */
  ghost predicate PathIs(path: seq<Endpoint>, chain: seq<ProxyConfig>, n: nat) {
    |path| == n <= |chain| && forall i :: 0 <= i < n ==> AddressOf(chain[i]) == Some(path[i])
  }

  function HopAddresses(chain: seq<ProxyConfig>): seq<Endpoint> {
    if chain == [] then []
    else
      HopAddresses(chain[..|chain| - 1])
      + (match AddressOf(chain[|chain| - 1])
         case Some(e) => [e]
         case None => [])
  }

  lemma {:induction false} PathIsHops(path: seq<Endpoint>, chain: seq<ProxyConfig>)
    requires PathIs(path, chain, |chain|)
    ensures path == HopAddresses(chain)
  {
    hide AddressOf;
    if chain != [] {
      var n := |chain| - 1;
      PathIsHops(path[..n], chain[..n]);
      assert path == path[..n] + [path[n]];
    }
  }

  /** A tunnel through every hop of a chain to the target, with nothing unread. */
  function TunnelTo(net: Network, chain: seq<ProxyConfig>, target: Endpoint): Pipe {
    Pipe(HopAddresses(chain) + [target], Start(net, target, ""), "")
  }

  lemma WholePath(net: Network, chain: seq<ProxyConfig>, target: Endpoint, p: Pipe)
    requires |p.path| == |chain| + 1 && p.unread == "" && p.link == Start(net, target, "")
    requires forall j :: 0 <= j < |chain| ==> AddressOf(chain[j]) == Some(p.path[j])
    requires p.path[|chain|] == target
    ensures p == TunnelTo(net, chain, target)
    ensures PathIs(p.path[..|chain|], chain, |chain|)
  {
    hide AddressOf, Start;
    PathIsHops(p.path[..|chain|], chain);
    assert p.path == p.path[..|chain|] + [p.path[|chain|]];
  }

  /**
   * Through a non-empty chain of conforming proxies, the tunnel passes hop 0, hop
   * 1, and so on to the target, with nothing unread before the payload; it is
   * made exactly when every hop passes, and otherwise there is no tunnel.
   */
  method ConnectChain(net: Network, chain: seq<ProxyConfig>, host: string, port: U16)
    returns (r: Result<Stream, ProxyError>)
    requires ConformingChain(net, chain, Endpoint(host, port))
    ensures r.Ok? <==> chain != [] && forall i :: 0 <= i < |chain| ==> Passes(net, chain, Endpoint(host, port), i)
    ensures r.Ok? ==>
              && fresh(r.value)
              && |r.value.pipe.path| == |chain| + 1
              && PathIs(r.value.pipe.path[..|chain|], chain, |chain|)
              && (forall i :: 0 <= i < |chain| ==> ConfiguredAt(chain[i], r.value.pipe.path[i]))
              && r.value.pipe.path[|chain|] == Endpoint(host, port)
              && r.value.pipe.unread == ""
              && r.value.pipe.link == Start(net, Endpoint(host, port), "")
    ensures r.Ok? ==> r.value.net == net && r.value.pipe == TunnelTo(net, chain, Endpoint(host, port))
  {
    hide Expressible, Conforming, Admits, AddressOf, Speaks, TunnelTo, PathIs, ConfiguredAt;
    if |chain| == 0 {
      return Err(ProxyError.Protocol);
    }
    ghost var target := Endpoint(host, port);
    var first := AddressOf(chain[0]);
    if first.None? {
      assert !Passes(net, chain, target, 0);
      return Err(Io);
    }
    var stream := new Stream(net, first.value);
    for i := 0 to |chain|
      invariant fresh(stream) && stream.net == net
      invariant forall j :: 0 <= j < i ==> Passes(net, chain, target, j)
      invariant |stream.pipe.path| == i + 1 && stream.pipe.unread == ""
      invariant forall j :: 0 <= j <= i && j < |chain| ==> AddressOf(chain[j]) == Some(stream.pipe.path[j])
      invariant i == |chain| ==> stream.pipe.path[i] == target
      invariant stream.pipe.link == Start(net, stream.pipe.path[i], "")
    {
      var isLastHop := i == |chain| - 1;
      var next := Endpoint(host, port);
      if !isLastHop {
        var parsed := AddressOf(chain[i + 1]);
        if parsed.None? {
          assert !Passes(net, chain, target, i);
          return Err(ProxyError.Protocol);
        }
        next := parsed.value;
      }
      ghost var e := AddressOf(chain[i]).value;
      assert e in net.proxies;
      var step := ConnectThroughProxy(stream, chain[i], next.host, next.port, net.proxies[e]);
      if step.Err? {
        assert !Passes(net, chain, target, i);
        return Err(step.error);
      }
    }
    WholePath(net, chain, target, stream.pipe);
    PathConfigured(stream.pipe.path[..|chain|], chain);
    r := Ok(stream);
  }
}
