// SOCKS4, SOCKS4a, SOCKS5 and username/password messages: the encoders of the
// client side and the decoders of the server side.
module Wire {
  import opened Wrappers
  import opened Text
  import opened Address

  const NUL: char := '\0'

  function B(n: nat): char
    requires n < 256
  {
    n as char
  }

  function Octet(c: char): (n: nat)
    ensures n < 256
  {
    c as int % 256
  }

  /** A length cast to one byte: it wraps above 255. */
  function Len8(s: string): char {
    B(|s| % 256)
  }

  function PortBytes(port: U16): string {
    [B(port / 256), B(port % 256)]
  }

  function PortOf(high: char, low: char): U16 {
    Octet(high) * 256 + Octet(low)
  }

  /** Every character is a byte. */
  predicate Bytes(s: string) {
    forall c :: c in s ==> c as int < 256
  }

  // ---- Username/password sub-negotiation (RFC 1929, section 2) ----

  datatype Credentials = Credentials(username: string, password: string)

  function AuthRequest(c: Credentials): string {
    [B(1), Len8(c.username)] + c.username + [Len8(c.password)] + c.password
  }

  function AuthDecoded(s: string): Result<Credentials, ProxyError> {
    if |s| < 3 || s[0] != B(1) then Err(ProxyError.Protocol)
    else
      var ulen := Octet(s[1]);
      if |s| < 2 + ulen + 1 then Err(ProxyError.Protocol)
      else
        var plen := Octet(s[2 + ulen]);
        if |s| < 2 + ulen + 1 + plen then Err(ProxyError.Protocol)
        else Ok(Credentials(s[2..2 + ulen], s[2 + ulen + 1..2 + ulen + 1 + plen]))
  }

  const AUTH_BUFFER := 513

  /** Decode what one read put into the fixed buffer. Every index stays inside it. */
  method DecodeAuth(buffer: array<char>, authLen: nat) returns (r: Result<Credentials, ProxyError>)
    requires buffer.Length == AUTH_BUFFER && authLen <= AUTH_BUFFER
    ensures r == AuthDecoded(buffer[..authLen])
  {
    if authLen < 3 || buffer[0] != B(1) {
      return Err(ProxyError.Protocol);
    }
    var ulen := Octet(buffer[1]);
    if authLen < 2 + ulen + 1 {
      return Err(ProxyError.Protocol);
    }
    var username := buffer[2..2 + ulen];
    var plen := Octet(buffer[2 + ulen]);
    if authLen < 2 + ulen + 1 + plen {
      return Err(ProxyError.Protocol);
    }
    var password := buffer[2 + ulen + 1..2 + ulen + 1 + plen];
    assert buffer[..authLen][2..2 + ulen] == username;
    assert buffer[..authLen][2 + ulen + 1..2 + ulen + 1 + plen] == password;
    r := Ok(Credentials(username, password));
  }

  lemma AuthLayout(c: Credentials)
    ensures var s := AuthRequest(c);
            && |s| == 3 + |c.username| + |c.password|
            && s[0] == B(1) && Octet(s[1]) == |c.username| % 256
            && s[2..2 + |c.username|] == c.username
            && Octet(s[2 + |c.username|]) == |c.password| % 256
            && s[3 + |c.username|..] == c.password
  {
  }

  /** The decoder recovers the credentials exactly when both lengths fit one byte. */
  lemma AuthRoundTrip(c: Credentials)
    ensures AuthDecoded(AuthRequest(c)) == Ok(c) <==> |c.username| <= 255 && |c.password| <= 255
    ensures |c.username| <= 255 && |c.password| <= 255 ==> |AuthRequest(c)| <= AUTH_BUFFER
  {
    AuthLayout(c);
    var s := AuthRequest(c);
    if |c.username| <= 255 && |c.password| <= 255 {
      assert s[3 + |c.username|..3 + |c.username| + |c.password|] == c.password;
    }
  }

  /** No proper prefix of an encoding is accepted. */
  lemma AuthPrefixRejected(c: Credentials, k: nat)
    requires |c.username| <= 255 && |c.password| <= 255
    requires k < |AuthRequest(c)|
    ensures AuthDecoded(AuthRequest(c)[..k]).Err?
  {
    AuthLayout(c);
  }

  /** The decoder accepts exactly what begins with an encoding, and reads what was encoded. */
  lemma AuthDecodedMeaning(s: string, c: Credentials)
    requires Bytes(s)
    ensures AuthDecoded(s) == Ok(c) <==> |c.username| <= 255 && |c.password| <= 255 && AuthRequest(c) <= s
  {
    AuthLayout(c);
    var r := AuthRequest(c);
    if AuthDecoded(s) == Ok(c) {
      var ulen := Octet(s[1]);
      assert s[1] in s && s[2 + ulen] in s;
      assert s[1] == Len8(c.username) && s[2 + ulen] == Len8(c.password);
      assert s[..|r|] == r;
    }
    if |c.username| <= 255 && |c.password| <= 255 && r <= s {
      assert s[..|r|] == r;
      assert s[1] == r[1] && s[2 + |c.username|] == r[2 + |c.username|];
      assert s[2..2 + |c.username|] == r[2..2 + |c.username|];
      assert s[3 + |c.username|..|r|] == r[3 + |c.username|..|r|];
    }
  }

  /** The 513-byte buffer is filled to its last byte, and that byte matters. */
  lemma AuthBufferTight(c: Credentials)
    requires |c.username| == 255 && |c.password| == 255
    ensures |AuthRequest(c)| == AUTH_BUFFER
    ensures AuthDecoded(AuthRequest(c)) == Ok(c)
    ensures AuthDecoded(AuthRequest(c)[..AUTH_BUFFER - 1]).Err?
  {
    AuthRoundTrip(c);
    AuthPrefixRejected(c, AUTH_BUFFER - 1);
  }

  // ---- SOCKS5 (RFC 1928, sections 3 to 6) ----

  function Greeting(withPassword: bool): string {
    if withPassword then [B(5), B(2), B(0), B(2)] else [B(5), B(1), B(0)]
  }

  function Socks5Request(host: string, port: U16): string {
    [B(5), B(1), B(0), B(3), Len8(host)] + host + PortBytes(port)
  }

  /** The outcome of decoding the front of a stream. */
  datatype Decoded<+T> = More | Bad | Got(value: T, rest: string)

  /** The offered methods of a greeting. */
  function GreetingDecoded(s: string): (r: Decoded<string>)
    ensures r.Got? ==> |r.rest| < |s|
  {
    if |s| < 2 then More
    else if s[0] != B(5) then Bad
    else
      var n := Octet(s[1]);
      if |s| < 2 + n then More else Got(s[2..2 + n], s[2 + n..])
  }

  function AuthFrame(s: string): (r: Decoded<Credentials>)
    ensures r.Got? ==> |r.rest| < |s|
  {
    if |s| < 2 then More
    else
      var ulen := Octet(s[1]);
      if |s| < 2 + ulen + 1 then More
      else
        var end := 2 + ulen + 1 + Octet(s[2 + ulen]);
        if |s| < end then More
        else
          match AuthDecoded(s[..end])
          case Ok(c) => Got(c, s[end..])
          case Err(_) => Bad
  }

  function HexDigit(n: nat): char
    requires n < 16
  {
    if n < 10 then (48 + n) as char else (87 + n) as char
  }

  function Hex(n: nat): string {
    if n < 16 then [HexDigit(n)] else Hex(n / 16) + [HexDigit(n % 16)]
  }

  function HexGroups(s: string, n: nat): seq<string>
    requires 2 * n <= |s|
  {
    if n == 0 then [] else HexGroups(s, n - 1) + [Hex(PortOf(s[2 * n - 2], s[2 * n - 1]))]
  }

  /** The target of a SOCKS5 request, by address type. */
  function Socks5Decoded(s: string): (r: Decoded<Endpoint>)
    ensures r.Got? ==> |r.rest| < |s|
  {
    if |s| < 4 then More
    else if s[0] != B(5) then Bad
    else if s[3] == B(1) then
      if |s| < 10 then More
      else Got(Endpoint(Dotted(Octet(s[4]), Octet(s[5]), Octet(s[6]), Octet(s[7])), PortOf(s[8], s[9])), s[10..])
    else if s[3] == B(3) then
      if |s| < 5 then More
      else
        var n := Octet(s[4]);
        if |s| < 5 + n + 2 then More
        else Got(Endpoint(s[5..5 + n], PortOf(s[5 + n], s[6 + n])), s[7 + n..])
    else if s[3] == B(4) then
      if |s| < 22 then More
      else Got(Endpoint(Join(HexGroups(s[4..20], 8), ':'), PortOf(s[20], s[21])), s[22..])
    else Bad
  }

  lemma PortRoundTrip(port: U16)
    ensures PortOf(PortBytes(port)[0], PortBytes(port)[1]) == port
  {
  }

  /** A greeting lists its methods; another version is none. */
  lemma GreetingMeaning(methods: string, tail: string)
    requires |methods| <= 255
    ensures GreetingDecoded([B(5), B(|methods|)] + methods + tail) == Got(methods, tail)
  {
    var s := [B(5), B(|methods|)] + methods + tail;
    assert s[2..2 + |methods|] == methods && s[2 + |methods|..] == tail;
  }

  lemma Socks5Ipv4At(s: string)
    requires |s| >= 10 && s[0] == B(5) && s[3] == B(1)
    ensures Socks5Decoded(s) ==
            Got(Endpoint(Dotted(Octet(s[4]), Octet(s[5]), Octet(s[6]), Octet(s[7])), PortOf(s[8], s[9])), s[10..])
  {
    hide Dotted, Octet;
  }

  lemma TenBytes(head: string, ip: string, port: string, tail: string)
    requires |head| == 4 && |ip| == 4 && |port| == 2
    ensures var s := head + ip + port + tail;
            && s[0] == head[0] && s[3] == head[3]
            && s[4] == ip[0] && s[5] == ip[1] && s[6] == ip[2] && s[7] == ip[3]
            && s[8] == port[0] && s[9] == port[1] && s[10..] == tail
  {
    assert (head + ip + port + tail)[10..] == tail;
  }

  function IpBytes(a: nat, b: nat, c: nat, d: nat): (s: string)
    requires a < 256 && b < 256 && c < 256 && d < 256
    ensures |s| == 4 && Octet(s[0]) == a && Octet(s[1]) == b && Octet(s[2]) == c && Octet(s[3]) == d
  {
    [B(a), B(b), B(c), B(d)]
  }

  /** An IPv4 request names its four octets in order, whatever its command and reserved bytes. */
  lemma Socks5Ipv4(x: char, y: char, a: nat, b: nat, c: nat, d: nat, port: U16, tail: string)
    requires a < 256 && b < 256 && c < 256 && d < 256
    ensures Socks5Decoded([B(5), x, y, B(1)] + IpBytes(a, b, c, d) + PortBytes(port) + tail)
            == Got(Endpoint(Decimal(a) + "." + Decimal(b) + "." + Decimal(c) + "." + Decimal(d), port), tail)
  {
    hide Decimal, Dotted, Socks5Decoded, PortOf, IpBytes, Octet;
    TenBytes([B(5), x, y, B(1)], IpBytes(a, b, c, d), PortBytes(port), tail);
    PortRoundTrip(port);
    DottedText(a, b, c, d);
    Socks5Ipv4At([B(5), x, y, B(1)] + IpBytes(a, b, c, d) + PortBytes(port) + tail);
  }

  lemma DottedText(a: nat, b: nat, c: nat, d: nat)
    ensures Dotted(a, b, c, d) == Decimal(a) + "." + Decimal(b) + "." + Decimal(c) + "." + Decimal(d)
  {
    hide Decimal;
    JoinFour(Decimal(a), Decimal(b), Decimal(c), Decimal(d));
  }

  lemma Socks5DomainAt(s: string, n: nat)
    requires |s| >= 7 + n && s[0] == B(5) && s[3] == B(3) && Octet(s[4]) == n
    ensures Socks5Decoded(s) == Got(Endpoint(s[5..5 + n], PortOf(s[5 + n], s[6 + n])), s[7 + n..])
  {
    hide Octet;
  }

  /** A domain request names its host. */
  lemma Socks5Domain(x: char, y: char, host: string, port: U16, tail: string)
    requires |host| <= 255
    ensures Socks5Decoded([B(5), x, y, B(3), B(|host|)] + host + PortBytes(port) + tail) == Got(Endpoint(host, port), tail)
  {
    hide Socks5Decoded, PortOf;
    var head := [B(5), x, y, B(3), B(|host|)];
    var s := head + host + PortBytes(port) + tail;
    assert |head| == 5 && s[0] == head[0] && s[3] == head[3] && s[4] == head[4];
    assert s[5..5 + |host|] == host;
    assert s[5 + |host|] == PortBytes(port)[0] && s[6 + |host|] == PortBytes(port)[1];
    assert s[7 + |host|..] == tail;
    PortRoundTrip(port);
    Socks5DomainAt(s, |host|);
  }

  // ---- IPv6 text ----

  predicate IsHex(c: char) {
    '0' <= c <= '9' || 'a' <= c <= 'f'
  }

  function HexDigitValue(c: char): nat
    requires IsHex(c)
  {
    if c <= '9' then c as int - 48 else c as int - 87
  }

  predicate AllHex(t: string) {
    forall c :: c in t ==> IsHex(c)
  }

  function HexValue(t: string): nat
    requires AllHex(t)
  {
    if t == "" then 0
    else
      assert t[|t| - 1] in t && forall c :: c in t[..|t| - 1] ==> c in t;
      HexValue(t[..|t| - 1]) * 16 + HexDigitValue(t[|t| - 1])
  }

  /** Lower-case hexadecimal digits of `n`, without a leading zero. */
  ghost predicate WritesHex(t: string, n: nat) {
    AllHex(t) && t != "" && HexValue(t) == n && (t[0] == '0' ==> t == "0")
  }

  lemma {:induction false} HexMeaning(n: nat)
    ensures WritesHex(Hex(n), n)
  {
    if n < 16 {
      var t := Hex(n);
      assert t == [HexDigit(n)] && t[..0] == "";
      assert HexValue("") == 0;
    } else {
      var t := Hex(n);
      HexMeaning(n / 16);
      assert t[..|t| - 1] == Hex(n / 16) && t[0] == Hex(n / 16)[0];
      assert forall c :: c in t ==> c in Hex(n / 16) || c == HexDigit(n % 16);
      assert Hex(n / 16) == "0" ==> HexValue("0") == 0 by {
        ZeroHex();
      }
    }
  }

  lemma ZeroHex()
    ensures AllHex("0") && HexValue("0") == 0
  {
    assert "0"[..0] == "" && HexValue("") == 0;
  }

  /** The groups of an address as they are sent. */
  function GroupBytes(groups: seq<U16>): (s: string)
    ensures |s| == 2 * |groups|
  {
    if groups == [] then "" else GroupBytes(groups[..|groups| - 1]) + PortBytes(groups[|groups| - 1])
  }

  lemma {:induction false} GroupsRead(groups: seq<U16>, rest: string)
    ensures |HexGroups(GroupBytes(groups) + rest, |groups|)| == |groups|
    ensures forall i :: 0 <= i < |groups| ==> HexGroups(GroupBytes(groups) + rest, |groups|)[i] == Hex(groups[i])
  {
    if groups != [] {
      hide Hex;
      var n := |groups| - 1;
      var init, last := groups[..n], groups[n];
      var s := GroupBytes(groups) + rest;
      assert s == GroupBytes(init) + (PortBytes(last) + rest);
      GroupsRead(init, PortBytes(last) + rest);
      assert s[2 * n] == PortBytes(last)[0] && s[2 * n + 1] == PortBytes(last)[1];
      PortRoundTrip(last);
    }
  }

  lemma {:induction false} HexGroupsOf(s: string, t: string, n: nat)
    requires 2 * n <= |s| && s <= t
    ensures HexGroups(s, n) == HexGroups(t, n)
  {
    if n > 0 {
      HexGroupsOf(s, t, n - 1);
    }
  }

  lemma HexNoColon(n: nat)
    ensures ':' !in Hex(n)
  {
    HexMeaning(n);
    assert forall c :: c in Hex(n) ==> IsHex(c);
  }

  /** An IPv6 request names eight groups in order, between colons, each in lower-case hexadecimal. */
  lemma Socks5Ipv6(x: char, y: char, groups: seq<U16>, port: U16, tail: string)
    requires |groups| == 8
    ensures var r := Socks5Decoded([B(5), x, y, B(4)] + GroupBytes(groups) + PortBytes(port) + tail);
            && r.Got? && r.value.port == port && r.rest == tail
            && var texts := Split(r.value.host, ':');
               |texts| == 8 && forall i :: 0 <= i < 8 ==> WritesHex(texts[i], groups[i])
  {
    hide Hex, HexGroups, GroupBytes, WritesHex, Split, Join;
    var s := [B(5), x, y, B(4)] + GroupBytes(groups) + PortBytes(port) + tail;
    assert s[4..20] == GroupBytes(groups);
    assert s[20] == PortBytes(port)[0] && s[21] == PortBytes(port)[1] && s[22..] == tail;
    PortRoundTrip(port);
    GroupsRead(groups, "");
    assert GroupBytes(groups) + "" == GroupBytes(groups);
    var texts := HexGroups(s[4..20], 8);
    forall i | 0 <= i < 8
      ensures WritesHex(texts[i], groups[i]) && ':' !in texts[i]
    {
      HexMeaning(groups[i]);
      HexNoColon(groups[i]);
    }
    SplitJoin(texts, ':');
  }

  /** Another version or address type is refused. */
  lemma Socks5Refused(s: string)
    requires |s| >= 4 && (s[0] != B(5) || s[3] !in [B(1), B(3), B(4)])
    ensures Socks5Decoded(s) == Bad
  {
    assert [B(1), B(3), B(4)][0] == B(1) && [B(1), B(3), B(4)][1] == B(3) && [B(1), B(3), B(4)][2] == B(4);
  }

  /** The request decoder inverts the encoder exactly for hosts of at most 255 bytes. */
  lemma Socks5RoundTrip(host: string, port: U16)
    ensures Socks5Decoded(Socks5Request(host, port)) == Got(Endpoint(host, port), "") <==> |host| <= 255
  {
    var s := Socks5Request(host, port);
    assert s[3] == B(3) && Octet(s[4]) == |host| % 256;
    if |host| <= 255 {
      assert s[5..5 + |host|] == host;
      assert s[5 + |host|] == PortBytes(port)[0] && s[6 + |host|] == PortBytes(port)[1];
      PortRoundTrip(port);
      assert s[7 + |host|..] == "";
    }
  }

  lemma GreetingRoundTrip(withPassword: bool)
    ensures GreetingDecoded(Greeting(withPassword)) == Got(if withPassword then [B(0), B(2)] else [B(0)], "")
  {
    var s := Greeting(withPassword);
    assert s[2..] == if withPassword then [B(0), B(2)] else [B(0)];
    assert s[|s|..] == "";
    assert s[2..|s|] == s[2..];
  }

  lemma AuthFrameRoundTrip(c: Credentials)
    requires |c.username| <= 255 && |c.password| <= 255
    ensures AuthFrame(AuthRequest(c)) == Got(c, "")
  {
    AuthLayout(c);
    AuthRoundTrip(c);
    var s := AuthRequest(c);
    assert s[..|s|] == s && s[|s|..] == "";
  }

  // ---- SOCKS4 and SOCKS4a ----

  function Socks4Request(host: string, port: U16): string {
    [B(4), B(1)] + PortBytes(port) + [B(0), B(0), B(0), B(1)] + [NUL] + (host + [NUL])
  }

  /** First NUL of `s` at or after `i`, or |s|. */
  function NulFrom(s: string, i: nat): (k: nat)
    requires i <= |s|
    ensures i <= k <= |s|
    ensures forall j :: i <= j < k ==> s[j] != NUL
    ensures k < |s| ==> s[k] == NUL
  {
    i + IndexOf(s[i..], NUL)
  }

  lemma NulAt(s: string, i: nat, k: nat)
    requires i <= k <= |s|
    requires forall j :: i <= j < k ==> s[j] != NUL
    requires k < |s| ==> s[k] == NUL
    ensures NulFrom(s, i) == k
  {
  }

  function Socks4Ip(r: string): string
    requires |r| >= 8
  {
    Dotted(Octet(r[4]), Octet(r[5]), Octet(r[6]), Octet(r[7]))
  }

  /** The address of a request lies in 0.0.0.0/24. */
  predicate InZeroNet(r: string)
    requires |r| >= 8
  {
    Octet(r[4]) == 0 && Octet(r[5]) == 0 && Octet(r[6]) == 0
  }

  /** The target as the multi-hop path reads it. */
  function Socks4Target(r: string): Result<Endpoint, ProxyError> {
    if |r| < 9 || r[0] != B(4) then Err(ProxyError.Protocol)
    else
      var userEnd := NulFrom(r, 8);
      if userEnd == |r| then Err(ProxyError.Protocol)
      else if InZeroNet(r) && Octet(r[7]) != 0
      then Ok(Endpoint(r[userEnd + 1..NulFrom(r, userEnd + 1)], PortOf(r[2], r[3])))
      else Ok(Endpoint(Socks4Ip(r), PortOf(r[2], r[3])))
  }

  method ParseSocks4Target(request: string) returns (r: Result<Endpoint, ProxyError>)
    ensures r == Socks4Target(request)
  {
    if |request| < 9 || request[0] != B(4) {
      return Err(ProxyError.Protocol);
    }
    var port := PortOf(request[2], request[3]);
    var is4a := Octet(request[4]) == 0 && Octet(request[5]) == 0 && Octet(request[6]) == 0 && Octet(request[7]) != 0;
    var idx := 8;
    while idx < |request| && request[idx] != NUL
      invariant 8 <= idx <= NulFrom(request, 8)
    {
      idx := idx + 1;
    }
    if idx >= |request| {
      return Err(ProxyError.Protocol);
    }
    idx := idx + 1;
    if is4a {
      var start := idx;
      while idx < |request| && request[idx] != NUL
        invariant start <= idx <= NulFrom(request, start)
      {
        idx := idx + 1;
      }
      r := Ok(Endpoint(request[start..idx], port));
    } else {
      r := Ok(Endpoint(Socks4Ip(request), port));
    }
  }

  /**
   * The target as the single-hop path reads it. Indexing a request of fewer than
   * eight bytes panics in its task, which the caller sees as a protocol error.
   */
  function Socks4Direct(r: string): Result<Endpoint, ProxyError> {
    if |r| < 8 || r[0] != B(4) || r[1] != B(1) then Err(ProxyError.Protocol)
    else
      var userEnd := NulFrom(r, 8);
      var ip := Socks4Ip(r);
      if ip == "0.0.0.1" || ip == "0.0.0.0" then
        if userEnd == |r| || NulFrom(r, userEnd + 1) == userEnd + 1 then Err(ProxyError.Protocol)
        else Ok(Endpoint(r[userEnd + 1..NulFrom(r, userEnd + 1)], PortOf(r[2], r[3])))
      else Ok(Endpoint(ip, PortOf(r[2], r[3])))
  }

  method ParseSocks4Direct(request: string) returns (r: Result<Endpoint, ProxyError>)
    ensures r == Socks4Direct(request)
  {
    if |request| < 8 || request[0] != B(4) {
      return Err(ProxyError.Protocol);
    }
    if request[1] != B(1) {
      return Err(ProxyError.Protocol);
    }
    var port := PortOf(request[2], request[3]);
    var ip := Socks4Ip(request);
    var userIdEnd := 8;
    while userIdEnd < |request| && request[userIdEnd] != NUL
      invariant 8 <= userIdEnd <= NulFrom(request, 8)
    {
      userIdEnd := userIdEnd + 1;
    }
    if ip == "0.0.0.1" || ip == "0.0.0.0" {
      var domainEnd := userIdEnd + 1;
      while domainEnd < |request| && request[domainEnd] != NUL
        invariant userIdEnd + 1 <= domainEnd
        invariant userIdEnd < |request| ==> domainEnd <= NulFrom(request, userIdEnd + 1)
        invariant userIdEnd == |request| ==> domainEnd == userIdEnd + 1
      {
        domainEnd := domainEnd + 1;
      }
      if domainEnd <= userIdEnd + 1 {
        return Err(ProxyError.Protocol);
      }
      r := Ok(Endpoint(request[userIdEnd + 1..domainEnd], port));
    } else {
      r := Ok(Endpoint(ip, port));
    }
  }

  lemma ZeroIps(r: string)
    requires |r| >= 8
    ensures Socks4Ip(r) == "0.0.0.0" <==> InZeroNet(r) && Octet(r[7]) == 0
    ensures Socks4Ip(r) == "0.0.0.1" <==> InZeroNet(r) && Octet(r[7]) == 1
  {
    var a, b, c, d := Octet(r[4]), Octet(r[5]), Octet(r[6]), Octet(r[7]);
    ZeroText();
    if Socks4Ip(r) == "0.0.0.0" {
      DottedInjective(a, b, c, d, 0, 0, 0, 0);
    }
    if Socks4Ip(r) == "0.0.0.1" {
      DottedInjective(a, b, c, d, 0, 0, 0, 1);
    }
  }

  lemma ZeroText()
    ensures Dotted(0, 0, 0, 0) == "0.0.0.0"
    ensures Dotted(0, 0, 0, 1) == "0.0.0.1"
  {
    JoinFour("0", "0", "0", "0");
    JoinFour("0", "0", "0", "1");
  }

  lemma JoinFour(a: string, b: string, c: string, d: string)
    ensures Join([a, b, c, d], '.') == a + "." + (b + "." + (c + "." + d))
  {
    var p := [a, b, c, d];
    assert p[1..] == [b, c, d];
    assert p[1..][1..] == [c, d];
    assert p[1..][1..][1..] == [d];
    assert Join([d], '.') == d && Join([c, d], '.') == c + "." + d;
  }

  /** A request with the given address, user id and what follows it. */
  function Socks4Bytes(a: nat, b: nat, c: nat, d: nat, port: U16, user: string, tail: string): string
    requires a < 256 && b < 256 && c < 256 && d < 256
  {
    [B(4), B(1)] + PortBytes(port) + IpBytes(a, b, c, d) + (user + [NUL] + tail)
  }

  lemma Socks4BytesLayout(a: nat, b: nat, c: nat, d: nat, port: U16, user: string, tail: string)
    requires a < 256 && b < 256 && c < 256 && d < 256 && NUL !in user
    ensures var r := Socks4Bytes(a, b, c, d, port, user, tail);
            && |r| == 9 + |user| + |tail| && r[0] == B(4) && r[1] == B(1) && PortOf(r[2], r[3]) == port
            && Octet(r[4]) == a && Octet(r[5]) == b && Octet(r[6]) == c && Octet(r[7]) == d
            && NulFrom(r, 8) == 8 + |user| && r[8..8 + |user|] == user && r[9 + |user|..] == tail
  {
    var r := Socks4Bytes(a, b, c, d, port, user, tail);
    PortRoundTrip(port);
    assert r[2] == PortBytes(port)[0] && r[3] == PortBytes(port)[1];
    var body := user + [NUL] + tail;
    assert r[8..] == body;
    assert forall j :: 8 <= j < 8 + |user| ==> r[j] == user[j - 8] && user[j - 8] in user;
    assert r[8 + |user|] == NUL;
    NulAt(r, 8, 8 + |user|);
    assert r[8..8 + |user|] == user && r[9 + |user|..] == tail;
  }

  /** Outside 0.0.0.x both parsers read the four octets in order, past any user id and whatever follows. */
  lemma Socks4Plain(a: nat, b: nat, c: nat, d: nat, port: U16, user: string, tail: string)
    requires a < 256 && b < 256 && c < 256 && d < 256 && (a > 0 || b > 0 || c > 0) && NUL !in user
    ensures var r, e := Socks4Bytes(a, b, c, d, port, user, tail),
                        Endpoint(Decimal(a) + "." + Decimal(b) + "." + Decimal(c) + "." + Decimal(d), port);
            Socks4Target(r) == Ok(e) && Socks4Direct(r) == Ok(e)
  {
    hide Decimal, Dotted, NulFrom;
    var r := Socks4Bytes(a, b, c, d, port, user, tail);
    Socks4BytesLayout(a, b, c, d, port, user, tail);
    DottedText(a, b, c, d);
    ZeroIps(r);
  }

  lemma NulAfter(s: string, k: nat, host: string, tail: string)
    requires k <= |s| && s[k..] == host + [NUL] + tail && NUL !in host
    ensures NulFrom(s, k) == k + |host| && k + |host| < |s| && s[k..k + |host|] == host
  {
    var rest := host + [NUL] + tail;
    assert forall j :: k <= j < k + |host| ==> s[j] == s[k..][j - k] == rest[j - k] == host[j - k] && host[j - k] in host;
    assert s[k + |host|] == s[k..][|host|] == rest[|host|] == NUL;
    NulAt(s, k, k + |host|);
    assert s[k..k + |host|] == s[k..][..|host|] == rest[..|host|] == host;
  }

  /** At 0.0.0.1 both parsers read the name after the user id, up to its NUL. */
  lemma Socks4Named(port: U16, user: string, host: string, tail: string)
    requires NUL !in user && NUL !in host && host != ""
    ensures var r := Socks4Bytes(0, 0, 0, 1, port, user, host + [NUL] + tail);
            Socks4Target(r) == Ok(Endpoint(host, port)) && Socks4Direct(r) == Ok(Endpoint(host, port))
  {
    hide Dotted, NulFrom, Socks4Bytes, PortOf;
    var rest := host + [NUL] + tail;
    var r := Socks4Bytes(0, 0, 0, 1, port, user, rest);
    Socks4BytesLayout(0, 0, 0, 1, port, user, rest);
    ZeroIps(r);
    NulAfter(r, 9 + |user|, host, tail);
  }

  /** Another version is refused, by the single-hop parser another command too, by the multi-hop one an open user id. */
  lemma Socks4Refused(r: string)
    ensures |r| < 9 || r[0] != B(4) || NulFrom(r, 8) == |r| ==> Socks4Target(r).Err?
    ensures |r| < 8 || r[0] != B(4) || r[1] != B(1) ==> Socks4Direct(r).Err?
  {
  }

  /** The text between the user id and the next NUL. */
  function Domain(r: string): string
    requires |r| >= 9 && NulFrom(r, 8) < |r|
  {
    r[NulFrom(r, 8) + 1..NulFrom(r, NulFrom(r, 8) + 1)]
  }

  /**
   * On a CONNECT request with a terminated user id, the two SOCKS4 parsers agree
   * exactly when the address is outside 0.0.0.x, or is 0.0.0.1 with a domain, or
   * is another 0.0.0.x whose domain spells that very address.
   */
  lemma Socks4ParsersAgree(r: string)
    requires |r| >= 9 && r[0] == B(4) && r[1] == B(1) && NulFrom(r, 8) < |r|
    ensures Socks4Target(r) == Socks4Direct(r) <==>
              || !InZeroNet(r)
              || (Octet(r[7]) == 1 && Domain(r) != "")
              || (Octet(r[7]) != 1 && Domain(r) == Socks4Ip(r))
  {
    hide Dotted;
    ZeroIps(r);
  }

  /** A request to 0.0.0.`last` with the domain "x" is read as two different targets, unless `last` is 1. */
  lemma Socks4ParsersDiffer(last: nat)
    requires last < 256 && last != 1
    ensures var r := [B(4), B(1), B(0), B(80), B(0), B(0), B(0), B(last), NUL, 'x', NUL];
            Socks4Target(r) != Socks4Direct(r)
  {
    hide Socks4Target, Socks4Direct, Dotted, Join;
    var r := [B(4), B(1), B(0), B(80), B(0), B(0), B(0), B(last), NUL, 'x', NUL];
    NulAt(r, 8, 8);
    NulAt(r, 9, 10);
    assert Domain(r) == ['x'];
    DottedLong(0, 0, 0, last);
    Socks4ParsersAgree(r);
  }

  lemma DottedLong(a: nat, b: nat, c: nat, d: nat)
    ensures |Dotted(a, b, c, d)| > 1
  {
    JoinFour(Decimal(a), Decimal(b), Decimal(c), Decimal(d));
  }

  /** The decoder inverts the SOCKS4a encoder exactly for hosts without a NUL. */
  lemma Socks4RoundTrip(host: string, port: U16)
    ensures Socks4Target(Socks4Request(host, port)) == Ok(Endpoint(host, port)) <==> NUL !in host
    ensures Socks4Direct(Socks4Request(host, port)) == Ok(Endpoint(host, port)) <==> NUL !in host && host != ""
  {
    hide Dotted;
    var r := Socks4Request(host, port);
    Socks4Layout(host, port);
    ZeroIps(r);
    var k := IndexOf(host, NUL);
    assert forall j :: 9 <= j < 9 + |host| ==> r[j] == host[j - 9];
    NulAt(r, 8, 8);
    NulAt(r, 9, 9 + k);
    assert r[9..9 + k] == host[..k];
    if k < |host| {
      assert host[k] in host;
    } else {
      assert host[..k] == host;
      assert forall c :: c in host ==> c != NUL;
    }
  }

  lemma Socks4Layout(host: string, port: U16)
    ensures var r := Socks4Request(host, port);
            && |r| == 10 + |host| && r[0] == B(4) && r[1] == B(1)
            && PortOf(r[2], r[3]) == port
            && InZeroNet(r) && Octet(r[7]) == 1 && r[8] == NUL
            && r[9..9 + |host|] == host && r[9 + |host|] == NUL
  {
    PortRoundTrip(port);
    var r := Socks4Request(host, port);
    assert r[2] == PortBytes(port)[0] && r[3] == PortBytes(port)[1];
    assert r[9..9 + |host|] == host;
  }

  /** One whole SOCKS4 request at the front of a stream. */
  function Socks4Decoded(s: string): (r: Decoded<Endpoint>)
    ensures r.Got? ==> |r.rest| < |s|
  {
    if |s| < 9 then More
    else if s[0] != B(4) then Bad
    else
      var userEnd := NulFrom(s, 8);
      if userEnd == |s| then More
      else
        var end := if InZeroNet(s) && Octet(s[7]) != 0 then NulFrom(s, userEnd + 1) else userEnd;
        if end == |s| then More
        else
          match Socks4Target(s[..end + 1])
          case Ok(e) => Got(e, s[end + 1..])
          case Err(_) => Bad
  }

  lemma Socks4FrameRoundTrip(host: string, port: U16)
    requires NUL !in host
    ensures Socks4Decoded(Socks4Request(host, port)) == Got(Endpoint(host, port), "")
  {
    var r := Socks4Request(host, port);
    Socks4Layout(host, port);
    Socks4RoundTrip(host, port);
    assert forall j :: 9 <= j < 9 + |host| ==> r[j] == host[j - 9] && host[j - 9] in host;
    NulAt(r, 8, 8);
    NulAt(r, 9, 9 + |host|);
    assert r[..|r|] == r && r[|r|..] == "";
  }

  /** A whole request at the front of a stream has the target the multi-hop path reads. */
  lemma FrameTarget(s: string)
    requires Socks4Decoded(s).Got?
    ensures Socks4Target(s) == Ok(Socks4Decoded(s).value)
  {
    hide Dotted, PortOf, IndexOf, NulFrom, Octet;
    var userEnd := NulFrom(s, 8);
    var end := if InZeroNet(s) && Octet(s[7]) != 0 then NulFrom(s, userEnd + 1) else userEnd;
    var frame := s[..end + 1];
    NulAt(frame, 8, userEnd);
    if InZeroNet(s) && Octet(s[7]) != 0 {
      NulAt(frame, userEnd + 1, end);
      assert frame[userEnd + 1..end] == s[userEnd + 1..end];
    }
  }
}
