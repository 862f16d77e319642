// From an accepted connection to its relay: detection, routing and
// authentication on the seven handler paths.
module Gate {
  import opened Wrappers
  import opened Text
  import opened Address
  import opened Wire
  import opened HttpText
  import opened HttpRewrite
  import opened Routing
  import opened Exits
  import opened Metering
  import opened Tunnel
  import opened Translate

  // ---- What a request says ----

  function Detected(request: string): Result<ProxyKind, ProxyError> {
    if request == "" then Err(ProxyError.Protocol)
    else if request[0] == B(5) then Ok(Socks5)
    else if request[0] == B(4) then Ok(Socks4)
    else
      var lines := Lines(if |request| < 20 then request else request[..20]);
      if lines == [] then Err(ProxyError.Protocol)
      else if StartsWith(lines[0], "CONNECT") then Ok(Https)
      else if exists m :: m in HTTP_METHODS && StartsWith(lines[0], m) then Ok(Http)
      else Err(UnsupportedProtocol)
  }

  const HTTP_METHODS := ["GET", "POST", "HEAD", "PUT", "DELETE", "OPTIONS", "TRACE", "PATCH"]

  /** A word in the first line of what detection looks at is a word the request starts with. */
  lemma HeadStarts(request: string, w: string)
    requires request != "" && w != "" && |w| <= 20 && '\n' !in w && '\r' !in w
    ensures var head := if |request| < 20 then request else request[..20];
            Lines(head) != [] && (StartsWith(Lines(head)[0], w) <==> w <= request)
  {
    var head := if |request| < 20 then request else request[..20];
    var k := IndexOf(head, '\n');
    var line := Lines(head)[0];
    assert line <= head && line <= request;
    if w <= request {
      assert head[..|w|] == w;
      assert forall i :: 0 <= i < |w| ==> head[i] == w[i] && w[i] in w;
      assert k >= |w|;
      assert line == head[..|line|];
    }
  }

  /** The request starts with one of the methods of plain HTTP. */
  predicate StartsPlain(request: string) {
    || "GET" <= request || "POST" <= request || "HEAD" <= request || "PUT" <= request
    || "DELETE" <= request || "OPTIONS" <= request || "TRACE" <= request || "PATCH" <= request
  }

  lemma MethodStarts(request: string)
    requires request != ""
    ensures var head := if |request| < 20 then request else request[..20];
            Lines(head) != []
            && ((exists m :: m in HTTP_METHODS && StartsWith(Lines(head)[0], m)) <==> StartsPlain(request))
  {
    hide Lines, StartsWith;
    var head := if |request| < 20 then request else request[..20];
    forall m | m in HTTP_METHODS
      ensures Lines(head) != [] && (StartsWith(Lines(head)[0], m) <==> m <= request)
    {
      MethodIsPlain(m);
      HeadStarts(request, m);
    }
    MethodsAre();
    assert "GET" in HTTP_METHODS;
    if StartsPlain(request) {
      var m := if "GET" <= request then "GET" else if "POST" <= request then "POST"
               else if "HEAD" <= request then "HEAD" else if "PUT" <= request then "PUT"
               else if "DELETE" <= request then "DELETE" else if "OPTIONS" <= request then "OPTIONS"
               else if "TRACE" <= request then "TRACE" else "PATCH";
      assert m in HTTP_METHODS && m <= request;
      assert StartsWith(Lines(head)[0], m);
    }
    if m :| m in HTTP_METHODS && StartsWith(Lines(head)[0], m) {
      assert m <= request;
    }
  }

  /** The first byte tells SOCKS apart; a request starting with CONNECT is a tunnel, with another method plain HTTP. */
  lemma DetectedMeaning(request: string)
    ensures Detected(request) ==
            if request == "" then Err(ProxyError.Protocol)
            else if request[0] == B(5) then Ok(Socks5)
            else if request[0] == B(4) then Ok(Socks4)
            else if "CONNECT" <= request then Ok(Https)
            else if StartsPlain(request) then Ok(Http)
            else Err(UnsupportedProtocol)
  {
    hide Lines, StartsWith, StartsPlain;
    if request != "" {
      ConnectIsPlain();
      HeadStarts(request, "CONNECT");
      MethodStarts(request);
    }
  }

  lemma ConnectIsPlain()
    ensures var w := "CONNECT"; w != "" && |w| <= 20 && '\n' !in w && '\r' !in w
  {
  }

  lemma MethodIsPlain(w: string)
    requires w in HTTP_METHODS
    ensures w != "" && |w| <= 20 && '\n' !in w && '\r' !in w
  {
  }

  lemma MethodsAre()
    ensures forall m :: m in HTTP_METHODS <==>
                          || m == "GET" || m == "POST" || m == "HEAD" || m == "PUT"
                          || m == "DELETE" || m == "OPTIONS" || m == "TRACE" || m == "PATCH"
  {
    var ms := HTTP_METHODS;
    assert |ms| == 8 && ms[0] == "GET" && ms[1] == "POST" && ms[2] == "HEAD" && ms[3] == "PUT";
    assert ms[4] == "DELETE" && ms[5] == "OPTIONS" && ms[6] == "TRACE" && ms[7] == "PATCH";
  }

  /** The decoded credentials text of an HTTP request, if it has a credentials line. */
  function RequestText(codec: Codec, request: string): Option<Option<string>> {
    var line := BasicLine(Lines(request));
    if line.None? then None else Some(BasicText(codec, line.value))
  }

  /** The username routing reads from an HTTP request. */
  function HttpProxyUsername(codec: Codec, request: string): Option<string> {
    var line := BasicLine(Lines(request));
    if line.None? then None
    else
      match BasicText(codec, line.value)
      case None => None
      case Some(text) => Some(Split(text, ':')[0])
  }

  function Socks4UserId(request: string): Option<string> {
    if |request| < 9 || request[0] != B(4) then None
    else
      var end := NulFrom(request, 8);
      if end == |request| || end == 8 then None else Some(request[8..end])
  }

  /** The username of a request is what its first credentials line decodes to, up to the first colon. */
  lemma HttpUsernameMeaning(codec: Codec, request: string, i: nat, username: string, rest: string)
    requires i < |Lines(request)| && IsBasic(Lines(request)[i])
    requires forall j :: 0 <= j < i ==> !IsBasic(Lines(request)[j])
    requires |Lines(request)[i]| >= 27 && codec.decode(Trim(Lines(request)[i][27..])) == Some(username + ":" + rest)
    requires ':' !in username
    ensures HttpProxyUsername(codec, request) == Some(username)
    ensures RequestText(codec, request) == Some(Some(username + ":" + rest))
  {
    hide Lines, IsBasic, Trim;
    FirstBasic(Lines(request), i);
    assert |BASIC| == 27;
    assert username + ":" + rest == username + [':'] + rest;
    SplitHead(username, rest, ':');
  }

  /** A SOCKS4 request's user id is what stands before its NUL; an empty one is none. */
  lemma Socks4UserIdMeaning(a: nat, b: nat, c: nat, d: nat, port: U16, user: string, tail: string)
    requires a < 256 && b < 256 && c < 256 && d < 256 && NUL !in user
    ensures Socks4UserId(Socks4Bytes(a, b, c, d, port, user, tail)) == if user == "" then None else Some(user)
  {
    hide Socks4Bytes, NulFrom;
    Socks4BytesLayout(a, b, c, d, port, user, tail);
  }

  function RoutingUsername(codec: Codec, kind: ProxyKind, request: string): Option<string> {
    match kind
    case Http => HttpProxyUsername(codec, request)
    case Https => HttpProxyUsername(codec, request)
    case Socks4 => Socks4UserId(request)
    case Socks5 => None
  }

  function TokensOf(username: Option<string>): Selection {
    match username
    case None => NO_SELECTION
    case Some(u) =>
      match Parsed(u)
      case Ok(parsed) => parsed.selection
      case Err(_) => NO_SELECTION
  }

  /** The stored default selection of the account a peer address belongs to. */
  function DefaultSelection(backend: StaticAuthBackend, peer: Peer): Option<Selection> {
    match backend.FirstAllowed(0, peer)
    case None => None
    case Some(i) =>
      match backend.users[i].defaultSelection
      case None => None
      case Some(def) =>
        match Parsed(def)
        case Ok(parsed) => Some(parsed.selection)
        case Err(_) => None
  }

  /** Tokens first, then the stored default, then no selection. */
  function Selected(backend: StaticAuthBackend, peer: Peer, tokens: Selection): Selection {
    if !tokens.IsEmpty() then tokens
    else
      match DefaultSelection(backend, peer)
      case Some(sel) => sel
      case None => tokens
  }

  // ---- Who may pass ----

  /** The id is the one the backend gives user `i`, whose allowance is not used up. */
  ghost predicate Cleared(backend: StaticAuthBackend, id: Option<I64>, i: nat)
    requires backend.Valid() && i < |backend.users|
    reads backend.users
  {
    && id == Some(backend.IdOf(i))
    && (backend.users[i].remaining.Some? ==> backend.users[i].remaining.value > 0)
  }

  /** The id of the first user with the base of `username` and the password. */
  ghost predicate ByPassword(backend: StaticAuthBackend, id: Option<I64>, username: string, password: string)
    requires backend.Valid()
    reads backend.users
  {
    && Parsed(username).Ok?
    && var i := backend.FirstKnown(0, Parsed(username).value.base, password);
       i.Some? && Cleared(backend, id, i.value)
  }

  /** The id of the first user whose networks contain the peer. */
  ghost predicate ByAddress(backend: StaticAuthBackend, id: Option<I64>, peer: Peer)
    requires backend.Valid()
    reads backend.users
  {
    var i := backend.FirstAllowed(0, peer);
    i.Some? && Cleared(backend, id, i.value)
  }

  /** Credentials decide when the request has them, otherwise the source address. */
  ghost predicate RequestCleared(backend: StaticAuthBackend, codec: Codec, id: Option<I64>, request: string, peer: Peer)
    requires backend.Valid()
    reads backend.users
  {
    match RequestText(codec, request)
    case None => ByAddress(backend, id, peer)
    case Some(text) =>
      text.Some? && SplitUserpass(text.value).Some?
      && var c := SplitUserpass(text.value).value;
         ByPassword(backend, id, c.username, c.password)
  }

  // ---- Handling a connection ----

  datatype HandlerPath = Socks5Path | Socks4Chain | HttpsChain | HttpChain | Socks4Single | HttpSingle | HttpsSingle

  /** What a client sends, in order: its first message, its SOCKS5 login, its SOCKS5 request. */
  datatype Inbound = Inbound(request: string, authMessage: string, later: string, peer: Peer)

  function KindOf(path: HandlerPath): ProxyKind {
    match path
    case Socks5Path => Socks5
    case Socks4Chain => Socks4
    case Socks4Single => Socks4
    case HttpsChain => Https
    case HttpsSingle => Https
    case HttpChain => Http
    case HttpSingle => Http
  }

  /** The handler of a request, by its kind and whether its chain has several hops. */
  function PathFor(kind: ProxyKind, multiHop: bool): HandlerPath {
    match kind
    case Socks5 => Socks5Path
    case Socks4 => if multiHop then Socks4Chain else Socks4Single
    case Https => if multiHop then HttpsChain else HttpsSingle
    case Http => if multiHop then HttpChain else HttpSingle
  }

  /** A connection at its relay: `stream` is the upstream side, `reply` what the client was told last. */
  datatype Relayed = Relayed(
    path: HandlerPath, account: Option<I64>, selection: Selection, chain: seq<ProxyConfig>, stream: Stream, reply: string)

  /** The target a request names, as the handler of its path reads it; `p` is the first hop. */
  function NamedTarget(path: HandlerPath, c: Inbound, p: ProxyConfig): Option<Endpoint> {
    match path
    case Socks5Path => if Socks5Decoded(c.later).Got? then Some(Socks5Decoded(c.later).value) else None
    case Socks4Chain => Socks4Target(c.request).ToOption()
    case HttpsChain => ParseConnectTarget(c.request).ToOption()
    case HttpChain => ParseHttpTarget(c.request).ToOption()
    case Socks4Single => if Socks4Exit(p, c.request).Some? then Some(Socks4Exit(p, c.request).value.0) else None
    case HttpsSingle => ConnectTargetOf(p, c.request)
    case HttpSingle => if IsHttp(p) then None else HostTarget(c.request)
  }

  /** What goes into the tunnel before the relay. */
  function SentAhead(path: HandlerPath, c: Inbound, p: ProxyConfig): string {
    match path
    case HttpChain => OriginForm(c.request)
    case HttpSingle => SentByHttp(c.request)
    case Socks4Single => if Socks4Exit(p, c.request).Some? then Socks4Exit(p, c.request).value.1 else ""
    case _ => ""
  }

  const SOCKS5_GRANTED := [B(5), B(0), B(0), B(1), B(0), B(0), B(0), B(0), B(0), B(0)]

  /** The client is told of success in its own protocol; a plain HTTP client is told nothing yet. */
  predicate SuccessTold(path: HandlerPath, c: Inbound, p: ProxyConfig, reply: string) {
    match path
    case Socks5Path => reply == SOCKS5_GRANTED
    case Socks4Chain => SaysGranted(reply)
    case Socks4Single => SaysGranted(reply)
    case HttpsChain => Contains(reply, ESTABLISHED)
    case HttpsSingle => Contains(reply, ESTABLISHED)
    case HttpChain => reply == ""
    case HttpSingle => reply == if !IsHttp(p) && MentionsConnect(c.request) then CONNECTED else ""
  }

  /** The one path without a tunnel: plain HTTP over an HTTP upstream. */
  predicate Untunnelled(path: HandlerPath, chain: seq<ProxyConfig>)
    requires chain != []
  {
    path == HttpSingle && IsHttp(chain[0])
  }

  /**
   * The stream at the relay is a tunnel through the addresses of the chain, in
   * order, to the target the request names, holding what was sent ahead, which an
   * origin receives as it is. An HTTP upstream of a plain HTTP request has
   * received the rewritten request instead.
   */
  ghost predicate Arrived(net: Network, c: Inbound, x: Relayed)
    reads x.stream
  {
    && x.chain != []
    && SuccessTold(x.path, c, x.chain[0], x.reply)
    && (if Untunnelled(x.path, x.chain) then
          && AddressOf(x.chain[0]).Some? && AddressOf(x.chain[0]).value in net.proxies
          && Lines(c.request) != []
          && var e := AddressOf(x.chain[0]).value;
             x.stream.pipe == Pipe([e], Proxy(net.proxies[e], Hello,
                                              HeaderBlock(WithAuth(net.codec, CredentialsOf(x.chain[0]), Lines(c.request)))), "")
        else
          var target := NamedTarget(x.path, c, x.chain[0]);
          && target.Some?
          && ArrivedAt(net, x.stream.pipe, x.chain, target.value, SentAhead(x.path, c, x.chain[0])))
  }

  ghost predicate ArrivedAt(net: Network, pipe: Pipe, chain: seq<ProxyConfig>, target: Endpoint, sent: string) {
    && pipe == Written(net, TunnelTo(net, chain, target), sent)
    && (target !in net.proxies ==> pipe == Pipe(HopAddresses(chain) + [target], Origin(sent), ""))
  }

  lemma Arrival(net: Network, pipe: Pipe, chain: seq<ProxyConfig>, target: Endpoint, sent: string)
    requires pipe == Written(net, TunnelTo(net, chain, target), sent)
    ensures ArrivedAt(net, pipe, chain, target, sent)
  {
    if target !in net.proxies {
      WroteToOrigin(net, TunnelTo(net, chain, target), sent);
    }
  }

  /** With nothing sent ahead, the tunnel is as it was made. */
  lemma ArrivalEmpty(net: Network, chain: seq<ProxyConfig>, target: Endpoint)
    ensures ArrivedAt(net, TunnelTo(net, chain, target), chain, target, "")
  {
    WroteNothing(net, TunnelTo(net, chain, target));
    Arrival(net, TunnelTo(net, chain, target), chain, target, "");
  }

  lemma OneHop(net: Network, p: ProxyConfig, target: Endpoint)
    requires AddressOf(p).Some?
    ensures Through(net, p, target) == TunnelTo(net, [p], target)
  {
    hide AddressOf;
    assert [p][..0] == [] && HopAddresses([p]) == [] + [AddressOf(p).value];
  }

  // ---- What the outside world must be like ----

  /** Every upstream that can be addressed is a conforming proxy of its kind. */
  ghost predicate ConformingUpstreams(net: Network, proxies: seq<ProxyConfig>) {
    && Faithful(net.codec)
    && forall p :: p in proxies ==> ConformingExit(net, p)
  }

  /** Each hop a selection may use can be told the target, and the address of any other hop. */
  ghost predicate CanName(proxies: seq<ProxyConfig>, sel: Selection, target: Endpoint) {
    forall hop :: FromSnapshot(proxies, hop, sel) ==>
                    && Expressible(hop, target.host)
                    && forall p :: p in proxies && AddressOf(p).Some? ==> Expressible(hop, AddressOf(p).value.host)
  }

  lemma SnapshotHop(net: Network, proxies: seq<ProxyConfig>, hop: ProxyConfig, sel: Selection)
    requires ConformingUpstreams(net, proxies) && FromSnapshot(proxies, hop, sel)
    ensures ConformingExit(net, hop)
    ensures exists p :: p in proxies && AddressOf(hop) == AddressOf(p)
  {
    hide Conforming, ParseAddress, Prints;
    var p :| p in proxies && Outfitted(p, hop, sel);
    if p.usernamePrefixes.Some? {
      var picks: seq<nat> :| OutfittedBy(p, hop, sel, picks);
    }
    assert UpstreamAddr(hop) == UpstreamAddr(p);
  }

  lemma SnapshotChain(net: Network, proxies: seq<ProxyConfig>, chain: seq<ProxyConfig>, sel: Selection, target: Endpoint)
    requires ConformingUpstreams(net, proxies) && CanName(proxies, sel, target)
    requires forall hop :: hop in chain ==> FromSnapshot(proxies, hop, sel)
    ensures ConformingChain(net, chain, target)
  {
    hide Conforming, AddressOf, Expressible, FromSnapshot, Speaks;
    forall i | 0 <= i < |chain| && AddressOf(chain[i]).Some?
      ensures ConformingExit(net, chain[i])
      ensures NextOf(chain, target, i).Some? ==> Expressible(chain[i], NextOf(chain, target, i).value.host)
    {
      assert chain[i] in chain;
      SnapshotHop(net, proxies, chain[i], sel);
      if i + 1 < |chain| {
        assert chain[i + 1] in chain;
        SnapshotHop(net, proxies, chain[i + 1], sel);
      }
    }
  }

  /** The chain conforms for whatever target its first hop makes of the request. */
  ghost predicate Ready(net: Network, path: HandlerPath, c: Inbound, chain: seq<ProxyConfig>) {
    && chain != [] && ConformingExit(net, chain[0])
    && (NamedTarget(path, c, chain[0]).Some? ==> ConformingChain(net, chain, NamedTarget(path, c, chain[0]).value))
  }

  /** Every hop admits us and reaches the next, up to the target the request names. */
  ghost predicate Reached(net: Network, path: HandlerPath, c: Inbound, chain: seq<ProxyConfig>)
    requires chain != []
  {
    if Untunnelled(path, chain) then Lines(c.request) != [] && AddressOf(chain[0]).Some?
    else
      var target := NamedTarget(path, c, chain[0]);
      target.Some? && forall i :: 0 <= i < |chain| ==> Passes(net, chain, target.value, i)
  }

  lemma ReachedOne(net: Network, path: HandlerPath, c: Inbound, p: ProxyConfig)
    requires !Untunnelled(path, [p])
    ensures Reached(net, path, c, [p]) <==>
              NamedTarget(path, c, p).Some? && Reaches(net, p, NamedTarget(path, c, p).value)
    ensures Reached(net, path, c, [p]) ==> AddressOf(p).Some?
  {
    hide NamedTarget, AddressOf;
    assert [p][0] == p;
  }

  // ---- SOCKS5 logins ----

  /** The greeting offers the method. */
  predicate Offers(request: string, way: char) {
    |request| >= 3 && GreetingDecoded(request).Got? && way in GreetingDecoded(request).value
  }

  ghost predicate LoginCleared(backend: StaticAuthBackend, c: Inbound, id: Option<I64>)
    requires backend.Valid()
    reads backend.users
  {
    && AuthDecoded(c.authMessage).Ok?
    && var login := AuthDecoded(c.authMessage).value;
       ByPassword(backend, id, login.username, login.password)
  }

  function LoginTokens(c: Inbound): Selection {
    match AuthDecoded(c.authMessage)
    case Ok(login) => TokensOf(Some(login.username))
    case Err(_) => NO_SELECTION
  }

  class Router {
    const auth: Option<bool>
    const backend: StaticAuthBackend
    const server: ProxyServer
    const net: Network

    constructor (auth: Option<bool>, backend: StaticAuthBackend, server: ProxyServer, net: Network)
      ensures this.auth == auth && this.backend == backend && this.server == server && this.net == net
    {
      this.auth, this.backend, this.server, this.net := auth, backend, server, net;
    }

    predicate AuthEnabled() {
      auth == Some(true)
    }

    /** The account check every password or address must pass. */
    method CheckBandwidth(limit: Option<I64>) returns (r: Result<(), ProxyError>)
      ensures r.Ok? <==> (limit.Some? ==> limit.value > 0)
      ensures r.Err? ==> r.error == BandwidthExceeded
    {
      if limit.Some? {
        if limit.value <= 0 {
          return Err(BandwidthExceeded);
        }
      }
      r := Ok(());
    }

    method PasswordLogin(username: string, password: string) returns (r: Result<(I64, Selection), ProxyError>)
      requires backend.Valid()
      ensures r.Ok? <==> exists id :: ByPassword(backend, id, username, password)
      ensures r.Ok? ==>
                && ByPassword(backend, Some(r.value.0), username, password)
                && Parsed(username).Ok? && r.value.1 == Parsed(username).value.selection
      ensures r.Err? ==>
                r.error == if Parsed(username).Ok? && backend.FirstKnown(0, Parsed(username).value.base, password).Some?
                           then BandwidthExceeded else AuthFailed
    {
      var parsed := ParseUsername(username);
      if parsed.Err? {
        return Err(AuthFailed);
      }
      var account := backend.Authenticate(parsed.value.base, password);
      if account.None? {
        return Err(AuthFailed);
      }
      ghost var i := backend.FirstKnown(0, parsed.value.base, password).value;
      var checked := CheckBandwidth(account.value.bandwidthLimit);
      if checked.Err? {
        return Err(checked.error);
      }
      assert Cleared(backend, Some(account.value.id), i);
      assert ByPassword(backend, Some(account.value.id), username, password);
      r := Ok((account.value.id, parsed.value.selection));
    }

    /** The account of a non-SOCKS5 request: by its credentials, or by address without any. */
    method AuthenticateUser(request: string, peer: Peer) returns (r: Result<Option<I64>, ProxyError>)
      requires backend.Valid()
      ensures !AuthEnabled() ==> r == Ok(None)
      ensures AuthEnabled() ==> (r.Ok? <==> exists id :: RequestCleared(backend, net.codec, id, request, peer))
      ensures AuthEnabled() && r.Ok? ==> RequestCleared(backend, net.codec, r.value, request, peer)
    {
      hide Lines, BasicLine, BasicText, SplitUserpass;
      if auth.Some? {
        if auth.value {
          var header := BasicLine(Lines(request));
          if header.None? {
            var account := backend.AuthenticateByIp(peer);
            if account.None? {
              return Err(AuthFailed);
            }
            var checked := CheckBandwidth(account.value.bandwidthLimit);
            if checked.Err? {
              return Err(checked.error);
            }
            assert RequestCleared(backend, net.codec, Some(account.value.id), request, peer);
            return Ok(Some(account.value.id));
          }
          var text := BasicText(net.codec, header.value);
          if text.None? {
            return Err(AuthFailed);
          }
          var c := SplitUserpass(text.value);
          if c.None? {
            return Err(AuthFailed);
          }
          var login := PasswordLogin(c.value.username, c.value.password);
          if login.Err? {
            return Err(login.error);
          }
          assert RequestCleared(backend, net.codec, Some(login.value.0), request, peer);
          return Ok(Some(login.value.0));
        }
      }
      r := Ok(None);
    }

    method SelectionFor(kind: ProxyKind, request: string, peer: Peer) returns (sel: Selection)
      requires backend.Valid()
      ensures sel == Selected(backend, peer, TokensOf(RoutingUsername(net.codec, kind, request)))
    {
      hide HttpProxyUsername, Socks4UserId, Parsed;
      var username := RoutingUsername(net.codec, kind, request);
      sel := TokensOf(username);
      if !sel.IsEmpty() {
        return;
      }
      sel := WithDefault(peer, sel);
    }

    /** Replace an empty selection by the stored default of the peer's account. */
    method WithDefault(peer: Peer, tokens: Selection) returns (sel: Selection)
      requires backend.Valid() && tokens.IsEmpty()
      ensures sel == Selected(backend, peer, tokens)
    {
      hide Parsed;
      sel := tokens;
      var account := backend.AuthenticateByIp(peer);
      if account.Some? && account.value.defaultSelection.Some? {
        var parsed := ParseUsername(account.value.defaultSelection.value);
        if parsed.Ok? {
          sel := parsed.value.selection;
        }
      }
    }

    /** The account a connection is let in on: by its login, or by its request. */
    ghost predicate AdmittedOn(path: HandlerPath, c: Inbound, id: Option<I64>)
      requires backend.Valid()
      reads backend.users
    {
      if !AuthEnabled() then id == None
      else if path == Socks5Path then LoginCleared(backend, c, id)
      else RequestCleared(backend, net.codec, id, c.request, c.peer)
    }

    ghost predicate Authorised(path: HandlerPath, c: Inbound)
      requires backend.Valid()
      reads backend.users
    {
      exists id :: AdmittedOn(path, c, id)
    }

    /** Authenticating the buffered request is what the six paths other than SOCKS5 need. */
    lemma ByRequest(path: HandlerPath, c: Inbound, r: Result<Option<I64>, ProxyError>)
      requires backend.Valid() && path != Socks5Path
      requires !AuthEnabled() ==> r == Ok(None)
      requires AuthEnabled() ==> (r.Ok? <==> exists id :: RequestCleared(backend, net.codec, id, c.request, c.peer))
      requires AuthEnabled() && r.Ok? ==> RequestCleared(backend, net.codec, r.value, c.request, c.peer)
      ensures r.Ok? <==> Authorised(path, c)
      ensures r.Ok? ==> AdmittedOn(path, c, r.value)
    {
      hide RequestCleared;
      if r.Ok? {
        assert AdmittedOn(path, c, r.value);
      }
    }

    /** The selection of a connection, from the username it presents. */
    function SelectionOn(path: HandlerPath, c: Inbound): Selection {
      Selected(backend, c.peer,
               if path == Socks5Path then if AuthEnabled() then LoginTokens(c) else NO_SELECTION
               else TokensOf(RoutingUsername(net.codec, KindOf(path), c.request)))
    }

    /** What a handler returns: let in, routed as asked, arrived where asked. */
    ghost predicate Handled(path: HandlerPath, c: Inbound, sel: Selection, chain: seq<ProxyConfig>, x: Relayed)
      requires backend.Valid()
      reads backend.users, x.stream
    {
      && x.path == path && x.selection == sel && x.chain == chain
      && AdmittedOn(path, c, x.account)
      && Arrived(net, c, x)
    }

    // ---- The multi-hop handlers ----

    method HandleSocks4Chain(c: Inbound, sel: Selection, chain: seq<ProxyConfig>) returns (r: Result<Relayed, ProxyError>)
      requires backend.Valid() && Ready(net, Socks4Chain, c, chain)
      ensures r.Ok? <==> Authorised(Socks4Chain, c) && Reached(net, Socks4Chain, c, chain)
      ensures r.Ok? ==> fresh(r.value.stream) && Handled(Socks4Chain, c, sel, chain, r.value)
    {
      hide Authorised, AdmittedOn, RequestCleared, Socks4Target, ConformingChain, Passes, PathIs, ArrivedAt, TunnelTo, HopAddresses, ConformingExit;
      var account := AuthenticateUser(c.request, c.peer);
      ByRequest(Socks4Chain, c, account);
      if account.Err? {
        return Err(account.error);
      }
      var target := ParseSocks4Target(c.request);
      if target.Err? {
        return Err(target.error);
      }
      var upstream := ConnectChain(net, chain, target.value.host, target.value.port);
      if upstream.Err? {
        return Err(upstream.error);
      }
      ArrivalEmpty(net, chain, target.value);
      r := Ok(Relayed(Socks4Chain, account.value, sel, chain, upstream.value, GRANTED));
    }

    method HandleHttpsChain(c: Inbound, sel: Selection, chain: seq<ProxyConfig>) returns (r: Result<Relayed, ProxyError>)
      requires backend.Valid() && Ready(net, HttpsChain, c, chain)
      ensures r.Ok? <==> Authorised(HttpsChain, c) && Reached(net, HttpsChain, c, chain)
      ensures r.Ok? ==> fresh(r.value.stream) && Handled(HttpsChain, c, sel, chain, r.value)
    {
      hide Authorised, AdmittedOn, RequestCleared, ParseConnectTarget, ConformingChain, Passes, PathIs, ArrivedAt, TunnelTo, HopAddresses;
      hide ConformingExit, Contains;
      var account := AuthenticateUser(c.request, c.peer);
      ByRequest(HttpsChain, c, account);
      if account.Err? {
        return Err(account.error);
      }
      var target := ParseConnectTarget(c.request);
      if target.Err? {
        return Err(target.error);
      }
      var upstream := ConnectChain(net, chain, target.value.host, target.value.port);
      if upstream.Err? {
        return Err(upstream.error);
      }
      ArrivalEmpty(net, chain, target.value);
      ConnectedSays();
      r := Ok(Relayed(HttpsChain, account.value, sel, chain, upstream.value, CONNECTED));
    }

    /** The origin receives the request in origin form. */
    method HandleHttpChain(c: Inbound, sel: Selection, chain: seq<ProxyConfig>) returns (r: Result<Relayed, ProxyError>)
      requires backend.Valid() && Ready(net, HttpChain, c, chain)
      ensures r.Ok? <==> Authorised(HttpChain, c) && Reached(net, HttpChain, c, chain)
      ensures r.Ok? ==> fresh(r.value.stream) && Handled(HttpChain, c, sel, chain, r.value)
    {
      hide Authorised, AdmittedOn, RequestCleared, ParseHttpTarget, OriginForm, ConformingChain, Passes, PathIs, ArrivedAt, TunnelTo, HopAddresses;
      hide ConformingExit, Written;
      var account := AuthenticateUser(c.request, c.peer);
      ByRequest(HttpChain, c, account);
      if account.Err? {
        return Err(account.error);
      }
      var target := ParseHttpTarget(c.request);
      if target.Err? {
        return Err(target.error);
      }
      var upstream := ConnectChain(net, chain, target.value.host, target.value.port);
      if upstream.Err? {
        return Err(upstream.error);
      }
      upstream.value.WriteAll(OriginForm(c.request));
      Arrival(net, upstream.value.pipe, chain, target.value, OriginForm(c.request));
      r := Ok(Relayed(HttpChain, account.value, sel, chain, upstream.value, ""));
    }

    // ---- The single-hop handlers ----

    method HandleSocks4Single(c: Inbound, sel: Selection, p: ProxyConfig) returns (r: Result<Relayed, ProxyError>)
      requires backend.Valid() && Ready(net, Socks4Single, c, [p])
      ensures r.Ok? <==> Authorised(Socks4Single, c) && Reached(net, Socks4Single, c, [p])
      ensures r.Ok? ==> fresh(r.value.stream) && Handled(Socks4Single, c, sel, [p], r.value)
    {
      hide Authorised, AdmittedOn, RequestCleared, Socks4Direct, Socks4Decoded, Passes, Written, ArrivedAt, TunnelTo, AddressOf, Expressible;
      hide Conforming, Speaks, Reached;
      var account := AuthenticateUser(c.request, c.peer);
      ByRequest(Socks4Single, c, account);
      if account.Err? {
        return Err(account.error);
      }
      ReachedOne(net, Socks4Single, c, p);
      assert [p][0] == p;
      var upstream, reply := Translate.HandleSocks4(net, p, c.request);
      if upstream.Err? {
        return Err(upstream.error);
      }
      ghost var (target, rest) := Socks4Exit(p, c.request).value;
      OneHop(net, p, target);
      Arrival(net, upstream.value.pipe, [p], target, rest);
      r := Ok(Relayed(Socks4Single, account.value, sel, [p], upstream.value, reply));
    }

    method HandleHttpsSingle(c: Inbound, sel: Selection, p: ProxyConfig) returns (r: Result<Relayed, ProxyError>)
      requires backend.Valid() && Ready(net, HttpsSingle, c, [p])
      ensures r.Ok? <==> Authorised(HttpsSingle, c) && Reached(net, HttpsSingle, c, [p])
      ensures r.Ok? ==> fresh(r.value.stream) && Handled(HttpsSingle, c, sel, [p], r.value)
    {
      hide Authorised, AdmittedOn, RequestCleared, ConnectTargetOf, Passes, Written, ArrivedAt, TunnelTo, AddressOf, Expressible, Contains;
      hide Conforming, Speaks, Reached;
      var account := AuthenticateUser(c.request, c.peer);
      ByRequest(HttpsSingle, c, account);
      if account.Err? {
        return Err(account.error);
      }
      ReachedOne(net, HttpsSingle, c, p);
      assert [p][0] == p;
      var upstream, reply := HandleHttps(net, p, c.request);
      if upstream.Err? {
        return Err(upstream.error);
      }
      ghost var target := ConnectTargetOf(p, c.request).value;
      OneHop(net, p, target);
      ArrivalEmpty(net, [p], target);
      r := Ok(Relayed(HttpsSingle, account.value, sel, [p], upstream.value, reply));
    }

    method HandleHttpSingle(c: Inbound, sel: Selection, p: ProxyConfig) returns (r: Result<Relayed, ProxyError>)
      requires backend.Valid() && Ready(net, HttpSingle, c, [p]) && Detected(c.request) == Ok(Http)
      ensures r.Ok? <==> Authorised(HttpSingle, c) && Reached(net, HttpSingle, c, [p])
      ensures r.Ok? ==> fresh(r.value.stream) && Handled(HttpSingle, c, sel, [p], r.value)
    {
      hide Authorised, AdmittedOn, RequestCleared, HostTarget, Passes, Written, ArrivedAt, TunnelTo, AddressOf, Expressible, MentionsConnect, Lines;
      hide Conforming, Speaks, Reached, Detected, HeaderBlock, WithAuth, StartsWith;
      var account := AuthenticateUser(c.request, c.peer);
      ByRequest(HttpSingle, c, account);
      if account.Err? {
        return Err(account.error);
      }
      DetectedHttp(c.request);
      assert [p][0] == p;
      if IsHttp(p) {
        assert Reached(net, HttpSingle, c, [p]) <==> Lines(c.request) != [] && AddressOf(p).Some? by {
          ReachedUntunnelled(net, c, p);
        }
      } else {
        ReachedOne(net, HttpSingle, c, p);
      }
      var upstream, reply := HandleHttp(net, p, c.request);
      if upstream.Err? {
        return Err(upstream.error);
      }
      if !IsHttp(p) {
        ghost var target := HostTarget(c.request).value;
        OneHop(net, p, target);
        Arrival(net, upstream.value.pipe, [p], target, SentByHttp(c.request));
      }
      r := Ok(Relayed(HttpSingle, account.value, sel, [p], upstream.value, reply));
    }

    // ---- SOCKS5 ----

    /** The greeting offers the method in force, the login is good, and the request can be read. */
    ghost predicate HandshakePasses(c: Inbound)
      requires backend.Valid()
      reads backend.users
    {
      && Offers(c.request, if AuthEnabled() then B(2) else B(0))
      && Authorised(Socks5Path, c)
      && Socks5Decoded(c.later).Got?
    }

    /** Greeting, login and request of a SOCKS5 client. */
    method Socks5Handshake(c: Inbound) returns (r: Result<(Option<I64>, Selection, Endpoint), ProxyError>)
      requires backend.Valid()
      ensures r.Ok? <==> HandshakePasses(c)
      ensures r.Ok? ==> Socks5Decoded(c.later).Got?
      ensures r.Ok? ==>
                && AdmittedOn(Socks5Path, c, r.value.0)
                && r.value.1 == (if AuthEnabled() then LoginTokens(c) else NO_SELECTION)
                && r.value.2 == Socks5Decoded(c.later).value
    {
      hide Parsed, Socks5Decoded, AuthDecoded, ByPassword;
      if |c.request| < 3 || c.request[0] != B(5) || |c.request| < 2 + Octet(c.request[1]) {
        return Err(ProxyError.Protocol);
      }
      var methods := c.request[2..2 + Octet(c.request[1])];
      var selection := NO_SELECTION;
      var account: Option<I64> := None;
      if AuthEnabled() {
        if B(2) !in methods {
          return Err(AuthFailed);
        }
        var login := AuthDecoded(c.authMessage);
        if login.Err? {
          return Err(login.error);
        }
        var passed := PasswordLogin(login.value.username, login.value.password);
        if passed.Err? {
          return Err(passed.error);
        }
        selection := passed.value.1;
        account := Some(passed.value.0);
      } else if B(0) !in methods {
        return Err(ProxyError.Protocol);
      }
      assert AdmittedOn(Socks5Path, c, account);
      var target := Socks5Decoded(c.later);
      if !target.Got? {
        return Err(ProxyError.Protocol);
      }
      r := Ok((account, selection, target.value));
    }

    /**
     * A SOCKS5 connection reaches its relay exactly when its handshake passes, its
     * own selection resolves to a chain, and that chain reaches the target.
     */
    method HandleSocks5(c: Inbound)
      returns (r: Result<Relayed, ProxyError>, ghost resolved: Result<seq<ProxyConfig>, ProxyError>)
      requires backend.Valid() && ConformingUpstreams(net, server.proxy)
      requires Socks5Decoded(c.later).Got? ==>
                 CanName(server.proxy, SelectionOn(Socks5Path, c), Socks5Decoded(c.later).value)
      ensures HandshakePasses(c) ==>
                Resolves(server.proxy, server.chains, server.globalChain, SelectionOn(Socks5Path, c), resolved)
      ensures r.Ok? <==>
                && HandshakePasses(c)
                && resolved.Ok? && resolved.value != [] && Reached(net, Socks5Path, c, resolved.value)
      ensures r.Ok? ==>
                fresh(r.value.stream) && Handled(Socks5Path, c, SelectionOn(Socks5Path, c), resolved.value, r.value)
    {
      hide Authorised, Parsed, Socks5Decoded, AdmittedOn, Resolves, LoginTokens, HandshakePasses, FromSnapshot, CanName, ConformingUpstreams;
      hide ConformingChain, Passes, PathIs, ArrivedAt, TunnelTo, HopAddresses;
      resolved := Err(ProxyError.Protocol);
      var passed := Socks5Handshake(c);
      if passed.Err? {
        return Err(passed.error), resolved;
      }
      var selection := passed.value.1;
      if selection.IsEmpty() {
        selection := WithDefault(c.peer, selection);
      }
      assert selection == SelectionOn(Socks5Path, c);
      var chain := server.ResolveProxyChain(selection);
      resolved := chain;
      if chain.Err? {
        return Err(chain.error), resolved;
      }
      var target := passed.value.2;
      if chain.value == [] {
        return Err(ProxyError.Protocol), resolved;
      }
      SnapshotChain(net, server.proxy, chain.value, selection, target);
      var upstream := ConnectChain(net, chain.value, target.host, target.port);
      if upstream.Err? {
        return Err(upstream.error), resolved;
      }
      ArrivalEmpty(net, chain.value, target);
      r := Ok(Relayed(Socks5Path, passed.value.0, selection, chain.value, upstream.value, SOCKS5_GRANTED));
    }

    // ---- Every connection ----

    /** Whatever target the request may name on its path, the hops its selection may use can be told it. */
    ghost predicate Nameable(c: Inbound)
      reads server
    {
      forall path, p, target ::
        Detected(c.request) == Ok(KindOf(path)) && NamedTarget(path, c, p) == Some(target) ==>
          CanName(server.proxy, SelectionOn(path, c), target)
    }

    /** The selection by which the first chain of a connection is resolved; a SOCKS5 client has no username yet. */
    function OpeningSelection(c: Inbound, kind: ProxyKind): Selection {
      Selected(backend, c.peer, TokensOf(RoutingUsername(net.codec, kind, c.request)))
    }

    ghost predicate ResolvesTo(sel: Selection, r: Result<seq<ProxyConfig>, ProxyError>)
      reads server
    {
      Resolves(server.proxy, server.chains, server.globalChain, sel, r)
    }

    /**
     * A connection is served: its handler lets it in and its chain reaches the
     * target it names. For SOCKS5 the chain is the one resolved after the handshake.
     */
    ghost predicate Serves(
      c: Inbound, kind: ProxyKind, first: seq<ProxyConfig>, again: Result<seq<ProxyConfig>, ProxyError>)
      requires backend.Valid() && first != []
      reads backend.users
    {
      if kind == Socks5 then
        HandshakePasses(c) && again.Ok? && again.value != [] && Reached(net, Socks5Path, c, again.value)
      else
        var path := PathFor(kind, |first| > 1);
        Authorised(path, c) && Reached(net, path, c, first)
    }

    /**
     * A connection reaches its relay exactly when its protocol is detected, its
     * first selection resolves to a chain, and it is served. Whatever reaches its
     * relay, on any of the seven paths: it carries the id of a user whose allowance
     * passed the check (none with auth off), its selection comes from the username
     * it presented, its chain is what that selection resolves to, and its stream
     * leads through that chain to the target its request names. On the HTTP and
     * CONNECT paths with credentials, the tokens that routed it are those of the
     * username that was authenticated.
     */
    method HandleConnection(c: Inbound)
      returns (r: Result<Relayed, ProxyError>,
               ghost first: Result<seq<ProxyConfig>, ProxyError>, ghost again: Result<seq<ProxyConfig>, ProxyError>)
      requires backend.Valid() && ConformingUpstreams(net, server.proxy) && Nameable(c)
      ensures Detected(c.request).Ok? ==> ResolvesTo(OpeningSelection(c, Detected(c.request).value), first)
      ensures Detected(c.request) == Ok(Socks5) && first.Ok? && first.value != [] && HandshakePasses(c) ==>
                ResolvesTo(SelectionOn(Socks5Path, c), again)
      ensures r.Ok? <==>
                && Detected(c.request).Ok?
                && first.Ok? && first.value != []
                && Serves(c, Detected(c.request).value, first.value, again)
      ensures r.Ok? ==>
                && fresh(r.value.stream)
                && r.value.path == PathFor(Detected(c.request).value, |first.value| > 1)
                && r.value.chain == (if r.value.path == Socks5Path then again.value else first.value)
                && Handled(r.value.path, c, SelectionOn(r.value.path, c), r.value.chain, r.value)
                && ResolvesTo(r.value.selection, Ok(r.value.chain))
      ensures r.Ok? && AuthEnabled() ==>
                exists i :: 0 <= i < |backend.users| && Cleared(backend, r.value.account, i)
      ensures r.Ok? && AuthEnabled() && KindOf(r.value.path) in {Http, Https}
              && RequestText(net.codec, c.request).Some? ==>
                exists username, password ::
                  && ByPassword(backend, r.value.account, username, password)
                  && r.value.selection == Selected(backend, c.peer, Parsed(username).value.selection)
    {
      hide Detected, RoutingUsername, TokensOf, Selected, Parsed, RequestText, AdmittedOn, Authorised, ByPassword, Cleared;
      hide NamedTarget, Resolves, FromSnapshot, CanName, ConformingUpstreams, Arrived, Reached, HandshakePasses, LoginTokens;
      first, again := Err(ProxyError.Protocol), Err(ProxyError.Protocol);
      var protocol := Detected(c.request);
      if protocol.Err? {
        return Err(protocol.error), first, again;
      }
      var kind := protocol.value;
      var selection := SelectionFor(kind, c.request, c.peer);
      var resolved := server.ResolveProxyChain(selection);
      first := resolved;
      if resolved.Err? {
        return Err(resolved.error), first, again;
      }
      var chain := resolved.value;
      if chain == [] {
        return Err(ProxyError.Protocol), first, again;
      }
      if kind == Socks5 {
        NamedLater(c);
        r, again := HandleSocks5(c);
      } else {
        r := Dispatch(kind, c, selection, chain);
      }
      if r.Ok? && AuthEnabled() {
        SomeUser(this, r.value, c);
        if KindOf(r.value.path) == Http || KindOf(r.value.path) == Https {
          SameUsername(this, r.value, c);
        }
      }
    }

    /** The handler of a buffered request, by its kind and the length of its chain. */
    method Dispatch(kind: ProxyKind, c: Inbound, selection: Selection, chain: seq<ProxyConfig>)
      returns (r: Result<Relayed, ProxyError>)
      requires backend.Valid() && ConformingUpstreams(net, server.proxy) && Nameable(c)
      requires Detected(c.request) == Ok(kind) && kind != Socks5 && chain != []
      requires selection == OpeningSelection(c, kind)
      requires forall hop :: hop in chain ==> FromSnapshot(server.proxy, hop, selection)
      ensures var path := PathFor(kind, |chain| > 1);
              && (r.Ok? <==> Authorised(path, c) && Reached(net, path, c, chain))
              && (r.Ok? ==> fresh(r.value.stream) && Handled(path, c, SelectionOn(path, c), chain, r.value))
    {
      hide Detected, RoutingUsername, TokensOf, Selected, AdmittedOn, Authorised, Arrived, Reached, NamedTarget, FromSnapshot;
      hide CanName, ConformingUpstreams, Ready;
      var multiHop := |chain| > 1;
      if !multiHop {
        assert chain == [chain[0]];
      }
      ReadyFor(this, PathFor(kind, multiHop), c, chain);
      if multiHop {
        match kind {
          case Socks4 => r := HandleSocks4Chain(c, selection, chain);
          case Https => r := HandleHttpsChain(c, selection, chain);
          case Http => r := HandleHttpChain(c, selection, chain);
        }
      } else {
        match kind {
          case Socks4 => r := HandleSocks4Single(c, selection, chain[0]);
          case Https => r := HandleHttpsSingle(c, selection, chain[0]);
          case Http => r := HandleHttpSingle(c, selection, chain[0]);
        }
      }
    }

    lemma NamedLater(c: Inbound)
      requires Nameable(c) && Detected(c.request) == Ok(Socks5)
      ensures Socks5Decoded(c.later).Got? ==>
                CanName(server.proxy, SelectionOn(Socks5Path, c), Socks5Decoded(c.later).value)
    {
      hide Detected, CanName, Socks5Decoded;
      var p: ProxyConfig :| true;
      assert NamedTarget(Socks5Path, c, p)
          == if Socks5Decoded(c.later).Got? then Some(Socks5Decoded(c.later).value) else None;
      assert KindOf(Socks5Path) == Socks5;
    }
  }

  /** A chain resolved for the selection of its path conforms for the target its request names. */
  lemma ReadyFor(router: Router, path: HandlerPath, c: Inbound, chain: seq<ProxyConfig>)
    requires router.backend.Valid() && chain != []
    requires ConformingUpstreams(router.net, router.server.proxy) && router.Nameable(c)
    requires Detected(c.request) == Ok(KindOf(path))
    requires forall hop :: hop in chain ==> FromSnapshot(router.server.proxy, hop, router.SelectionOn(path, c))
    ensures Ready(router.net, path, c, chain)
  {
    hide Detected, NamedTarget, FromSnapshot, CanName, ConformingUpstreams, ConformingChain, ConformingExit;
    assert chain[0] in chain;
    SnapshotHop(router.net, router.server.proxy, chain[0], router.SelectionOn(path, c));
    var target := NamedTarget(path, c, chain[0]);
    if target.Some? {
      SnapshotChain(router.net, router.server.proxy, chain, router.SelectionOn(path, c), target.value);
    }
  }

  lemma ReachedUntunnelled(net: Network, c: Inbound, p: ProxyConfig)
    requires IsHttp(p)
    ensures Reached(net, HttpSingle, c, [p]) <==> Lines(c.request) != [] && AddressOf(p).Some?
  {
    hide Lines, AddressOf, NamedTarget;
    assert [p][0] == p;
  }

  lemma FirstChar(s: string)
    requires s != ""
    ensures Lines(s) != [] && (Lines(s)[0] != "" ==> Lines(s)[0][0] == s[0])
  {
  }

  /** A request detected as plain HTTP does not start with CONNECT. */
  lemma DetectedHttp(request: string)
    requires Detected(request) == Ok(Http)
    ensures Lines(request) != [] && !StartsWith(Lines(request)[0], "CONNECT")
  {
    hide Lines;
    var head := if |request| < 20 then request else request[..20];
    FirstChar(head);
    FirstChar(request);
    var m :| m in HTTP_METHODS && StartsWith(Lines(head)[0], m);
    MethodStart(m);
    assert Lines(head)[0][0] == m[0];
    assert "CONNECT"[0] == 'C' && |"CONNECT"| == 7;
  }

  lemma MethodStart(m: string)
    requires m in HTTP_METHODS
    ensures m != "" && m[0] != 'C'
  {
  }

  // ---- A request that is dropped ----

  lemma Detect(line: string, tail: string)
    requires |line| >= 20 && '\n' !in line && StartsWith(line[..20], "GET")
    ensures Detected(line + tail) == Ok(Http)
  {
    var head := line[..20];
    assert (line + tail)[..20] == head;
    assert forall c :: c in head ==> c in line;
    OneLine(head);
    assert "GET"[0] == 'G' && "CONNECT"[0] == 'C';
    assert head[..3] == "GET";
    assert HTTP_METHODS[0] == "GET" && "GET" in HTTP_METHODS;
  }

  lemma OneLine(s: string)
    requires s != "" && '\n' !in s
    ensures Lines(s) == [s]
  {
    assert IndexOf(s, '\n') == |s|;
  }

  const IN_PATH := RequestLine("GET", "/CONNECT", "HTTP/1.1")

  lemma InPath()
    ensures |IN_PATH| == 21 && '\n' !in IN_PATH && StartsWith(IN_PATH[..20], "GET")
    ensures Contains(IN_PATH, "CONNECT")
  {
    assert '\n' !in "GET" && '\n' !in "/CONNECT" && '\n' !in "HTTP/1.1" && '\n' !in " ";
    assert |"GET"| == 3 && |"/CONNECT"| == 8 && |"HTTP/1.1"| == 8;
    assert "/CONNECT"[1..] == "CONNECT";
    assert IN_PATH[4..12] == "/CONNECT";
    assert IN_PATH[5..12] == "CONNECT";
    assert PartAt(IN_PATH, "CONNECT", 5);
    assert IN_PATH[..20][..3] == "GET";
  }

  /** A plain HTTP request for a path called CONNECT: an origin behind a SOCKS upstream never receives it. */
  lemma ConnectInPathDropped(net: Network, p: ProxyConfig, target: Endpoint)
    requires AddressOf(p).Some? && target !in net.proxies
    ensures var request := IN_PATH + "\r\n" + "Host: a";
            && Detected(request) == Ok(Http)
            && MentionsConnect(request)
            && Written(net, Through(net, p, target), SentByHttp(request)) != Written(net, Through(net, p, target), request)
  {
    hide Detected, Contains, Written;
    var request := IN_PATH + "\r\n" + "Host: a";
    InPath();
    assert request == IN_PATH + ("\r\n" + "Host: a");
    Detect(IN_PATH, "\r\n" + "Host: a");
    LinesHead(IN_PATH, "Host: a");
    DroppedIff(net, p, target, request);
  }

  /** A cleared login is some user's. */
  lemma SomeUser(router: Router, x: Relayed, c: Inbound)
    requires router.backend.Valid() && router.AuthEnabled() && router.AdmittedOn(x.path, c, x.account)
    ensures exists i :: 0 <= i < |router.backend.users| && Cleared(router.backend, x.account, i)
  {
    hide RequestText, SplitUserpass, Parsed, AuthDecoded;
  }

  /** Routing and authentication read the same username from an HTTP request. */
  lemma SameUsername(router: Router, x: Relayed, c: Inbound)
    requires router.backend.Valid() && router.AuthEnabled() && router.AdmittedOn(x.path, c, x.account)
    requires KindOf(x.path) in {Http, Https}
    ensures RequestText(router.net.codec, c.request).Some? ==>
              exists username, password ::
                && ByPassword(router.backend, x.account, username, password)
                && router.SelectionOn(x.path, c) == Selected(router.backend, c.peer, Parsed(username).value.selection)
  {
    hide Lines, BasicLine, BasicText, Parsed, Selected;
    if RequestText(router.net.codec, c.request).Some? {
      var login := SplitUserpass(RequestText(router.net.codec, c.request).value.value).value;
      assert RoutingUsername(router.net.codec, KindOf(x.path), c.request) == Some(login.username);
      assert ByPassword(router.backend, x.account, login.username, login.password);
    }
  }
}
