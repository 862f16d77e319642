// Plain HTTP: the origin target, the origin-form rewrite and the header rewrite.
module HttpRewrite {
  import opened Wrappers
  import opened Text
  import opened Address
  import opened Wire
  import opened HttpText

  // ---- The origin target ----

  function StripScheme(uri: string): Option<string> {
    if StartsWith(uri, "http://") then Some(uri[7..])
    else if StartsWith(uri, "https://") then Some(uri[8..])
    else None
  }

  function HostValue(line: string): Option<string> {
    if StartsWith(line, "Host:") || StartsWith(line, "host:") then Some(line[5..]) else None
  }

  function FirstHost(lines: seq<string>): Option<string> {
    if lines == [] then None
    else if HostValue(lines[0]).Some? then HostValue(lines[0])
    else FirstHost(lines[1..])
  }

  function UriAuthority(line: string): Option<string> {
    var words := Words(line);
    if |words| < 2 then None
    else
      match StripScheme(words[1])
      case None => None
      case Some(rest) =>
        var authority := rest[..IndexOf(rest, '/')];
        if authority == "" then None else Some(authority)
  }

  function ParseHttpTarget(request: string): Result<Endpoint, ProxyError> {
    var lines := Lines(request);
    if lines == [] then Err(ProxyError.Protocol)
    else
      match UriAuthority(lines[0])
      case Some(authority) => SplitHostPort(authority, 80)
      case None => HeaderTarget(lines)
  }

  /** The target of the first Host header. */
  function HeaderTarget(lines: seq<string>): Result<Endpoint, ProxyError> {
    match FirstHost(lines)
    case Some(value) => SplitHostPort(Trim(value), 80)
    case None => Err(ProxyError.Protocol)
  }

  // ---- Origin form ----

  predicate CrlfAt(s: string, i: nat) {
    i + 1 < |s| && s[i] == '\r' && s[i + 1] == '\n'
  }

  /** The first CR LF of `s`, or |s|. */
  function FindCrlf(s: string): (k: nat)
    ensures k <= |s|
    ensures k < |s| ==> CrlfAt(s, k)
    ensures forall i: nat :: i < k ==> !CrlfAt(s, i)
  {
    if s == "" || CrlfAt(s, 0) then 0
    else
      var k := FindCrlf(s[1..]);
      assert forall i: nat :: i > 0 ==> CrlfAt(s, i) == CrlfAt(s[1..], i - 1);
      1 + k
  }

  function OriginPath(rest: string): string {
    var k := IndexOf(rest, '/');
    if k < |rest| then rest[k..] else "/"
  }

  datatype LineParts = LineParts(verb: string, uri: string, version: string)

  /** Cut a request line at its first two spaces. */
  function CutLine(line: string): (r: Option<LineParts>)
    ensures r.Some? ==>
              && line == RequestLine(r.value.verb, r.value.uri, r.value.version)
              && ' ' !in r.value.verb && ' ' !in r.value.uri
  {
    match Cut(line, ' ')
    case None => None
    case Some((verb, rest)) =>
      match Cut(rest, ' ')
      case None => None
      case Some((uri, version)) => Some(LineParts(verb, uri, version))
  }

  /** The request line in origin form. */
  function OriginLine(line: string): string {
    match CutLine(line)
    case None => line
    case Some(p) =>
      match StripScheme(p.uri)
      case None => line
      case Some(rest) => RequestLine(p.verb, OriginPath(rest), p.version)
  }

  /** Absolute-form request lines become origin-form; everything else is kept. */
  function OriginForm(request: string): string {
    var k := FindCrlf(request);
    if k == |request| then request else OriginLine(request[..k]) + request[k..]
  }

  ghost predicate NoCrlf(s: string) {
    forall i: nat :: !CrlfAt(s, i)
  }

  lemma NoCrlfConcat(a: string, b: string)
    requires NoCrlf(a) && NoCrlf(b)
    requires a == "" || a[|a| - 1] != '\r' || b == "" || b[0] != '\n'
    ensures NoCrlf(a + b)
  {
    forall i: nat
      ensures !CrlfAt(a + b, i)
    {
      if i + 1 < |a| {
        assert !CrlfAt(a, i);
      } else if |a| <= i {
        assert !CrlfAt(b, i - |a|);
      }
    }
  }

  lemma NoCrlfCut(s: string, k: nat)
    requires NoCrlf(s) && k <= |s|
    ensures NoCrlf(s[..k]) && NoCrlf(s[k..])
  {
    forall i: nat
      ensures !CrlfAt(s[..k], i) && !CrlfAt(s[k..], i)
    {
      assert !CrlfAt(s, i) && !CrlfAt(s, k + i);
    }
  }

  lemma CutRequestLine(m: string, u: string, v: string)
    requires ' ' !in m && ' ' !in u
    ensures CutLine(RequestLine(m, u, v)) == Some(LineParts(m, u, v))
  {
    hide Cut;
    CutConcat(m, u + " " + v, ' ');
    CutConcat(u, v, ' ');
    assert RequestLine(m, u, v) == m + " " + (u + " " + v);
  }

  /** A path never looks like an absolute URI. */
  lemma PathIsOrigin(stripped: string)
    ensures OriginPath(stripped) != "" && OriginPath(stripped)[0] == '/'
    ensures StripScheme(OriginPath(stripped)) == None
  {
    assert "http://"[0] == 'h' && "https://"[0] == 'h';
  }

  lemma OriginLineStable(line: string)
    ensures OriginLine(OriginLine(line)) == OriginLine(line)
  {
    hide StripScheme, CutLine, OriginPath, RequestLine;
    match CutLine(line)
    case None =>
    case Some(p) =>
      if StripScheme(p.uri).Some? {
        var rest := StripScheme(p.uri).value;
        SchemeTail(p.uri);
        PathIsOrigin(rest);
        PathChars(rest);
        CutRequestLine(p.verb, OriginPath(rest), p.version);
      }
  }

  lemma PathChars(rest: string)
    ensures ' ' !in rest ==> ' ' !in OriginPath(rest)
  {
  }

  /** What is left of a URI is its tail. */
  lemma SchemeTail(uri: string)
    requires StripScheme(uri).Some?
    ensures exists k :: 0 <= k <= |uri| && StripScheme(uri).value == uri[k..]
    ensures forall c :: c in StripScheme(uri).value ==> c in uri
  {
    var k := if StartsWith(uri, "http://") then 7 else 8;
    assert StripScheme(uri).value == uri[k..];
  }

  lemma OriginLineNoCrlf(line: string)
    requires NoCrlf(line)
    ensures NoCrlf(OriginLine(line))
  {
    hide StripScheme, NoCrlf, CutLine, OriginPath, RequestLine;
    match CutLine(line)
    case None =>
    case Some(p) =>
      if StripScheme(p.uri).Some? {
        var rest := StripScheme(p.uri).value;
        RequestLineParts(p.verb, p.uri, p.version);
        SchemeTail(p.uri);
        var k :| 0 <= k <= |p.uri| && rest == p.uri[k..];
        NoCrlfCut(p.uri, k);
        PathNoCrlf(rest);
        RequestLineNoCrlf(p.verb, OriginPath(rest), p.version);
      }
  }

  lemma RequestLineParts(m: string, u: string, v: string)
    requires NoCrlf(RequestLine(m, u, v))
    ensures NoCrlf(m) && NoCrlf(u) && NoCrlf(v)
  {
    hide NoCrlf;
    var line := RequestLine(m, u, v);
    NoCrlfCut(line, |m|);
    NoCrlfCut(line, |m| + 1);
    assert line[..|m|] == m && line[|m| + 1..] == u + " " + v;
    NoCrlfCut(u + " " + v, |u|);
    NoCrlfCut(u + " " + v, |u| + 1);
    assert (u + " " + v)[..|u|] == u && (u + " " + v)[|u| + 1..] == v;
  }

  lemma PathNoCrlf(stripped: string)
    requires NoCrlf(stripped)
    ensures NoCrlf(OriginPath(stripped))
  {
    var k := IndexOf(stripped, '/');
    if k < |stripped| {
      NoCrlfCut(stripped, k);
    }
  }

  lemma RequestLineNoCrlf(m: string, u: string, v: string)
    requires NoCrlf(m) && NoCrlf(u) && NoCrlf(v)
    ensures NoCrlf(RequestLine(m, u, v))
  {
    NoCrlfConcat(" ", v);
    NoCrlfConcat(u, " " + v);
    assert u + " " + v == u + (" " + v);
    NoCrlfConcat(" ", u + " " + v);
    NoCrlfConcat(m, " " + (u + " " + v));
    assert RequestLine(m, u, v) == m + (" " + (u + " " + v));
  }

  /** The end of the first line is where it is found again. */
  lemma LineEnd(line: string, tail: string)
    requires NoCrlf(line) && CrlfAt(tail, 0)
    ensures FindCrlf(line + tail) == |line|
    ensures (line + tail)[..|line|] == line && (line + tail)[|line|..] == tail
  {
    var s := line + tail;
    assert CrlfAt(s, |line|);
    forall i: nat | i < |line|
      ensures !CrlfAt(s, i)
    {
      if i + 1 < |line| {
        assert !CrlfAt(line, i);
      }
    }
  }

  lemma FirstLineClean(request: string)
    ensures NoCrlf(request[..FindCrlf(request)])
  {
    var k := FindCrlf(request);
    forall i: nat
      ensures !CrlfAt(request[..k], i)
    {
      assert i < k ==> !CrlfAt(request, i);
    }
  }

  /** From the first CR LF on, the rewritten request is the original. */
  lemma OriginKeepsTail(request: string)
    ensures OriginForm(request)[FindCrlf(OriginForm(request))..] == request[FindCrlf(request)..]
    ensures OriginForm(request)[..FindCrlf(OriginForm(request))] ==
            if FindCrlf(request) == |request| then request else OriginLine(request[..FindCrlf(request)])
  {
    hide OriginLine;
    var k := FindCrlf(request);
    if k < |request| {
      FirstLineClean(request);
      OriginLineNoCrlf(request[..k]);
      assert CrlfAt(request[k..], 0);
      LineEnd(OriginLine(request[..k]), request[k..]);
    }
  }

  lemma OriginFormIdempotent(request: string)
    ensures OriginForm(OriginForm(request)) == OriginForm(request)
  {
    hide OriginLine;
    var k := FindCrlf(request);
    if k < |request| {
      OriginKeepsTail(request);
      OriginLineStable(request[..k]);
      FirstLineClean(request);
      OriginLineNoCrlf(request[..k]);
      assert CrlfAt(request[k..], 0);
      LineEnd(OriginLine(request[..k]), request[k..]);
    }
  }

  // ---- The rewrite keeps the target ----

  /** An absolute-form URI: scheme, authority, and a path that is empty or starts with a slash. */
  predicate AbsoluteParts(scheme: string, authority: string, path: string) {
    && (scheme == "http://" || scheme == "https://")
    && authority != "" && '/' !in authority
    && (path == "" || path[0] == '/')
    && NoSpace(authority) && NoSpace(path)
  }

  lemma AbsoluteUri(scheme: string, authority: string, path: string)
    requires AbsoluteParts(scheme, authority, path)
    ensures var uri := scheme + authority + path;
            && NoSpace(uri) && uri != ""
            && StripScheme(uri) == Some(authority + path)
            && (authority + path)[..IndexOf(authority + path, '/')] == authority
            && NoSpace(OriginPath(authority + path))
  {
    var uri, rest := scheme + authority + path, authority + path;
    hide StripScheme;
    assert NoSpace("http://") && NoSpace("https://");
    assert uri == scheme + rest;
    SchemesDiffer(rest);
    assert forall i :: 0 <= i < |authority| ==> rest[i] == authority[i] && authority[i] in authority;
    assert path != "" ==> rest[|authority|] == '/';
    assert IndexOf(rest, '/') == |authority|;
    assert rest[|authority|..] == path;
  }

  lemma SchemesDiffer(rest: string)
    ensures StripScheme("http://" + rest) == Some(rest)
    ensures StripScheme("https://" + rest) == Some(rest)
  {
    assert ("http://" + rest)[7..] == rest;
    assert ("https://" + rest)[8..] == rest;
    assert ("https://" + rest)[4] == 's' && "http://"[4] == ':';
  }

  /**
   * The rewrite drops the authority of an absolute-form request and leaves the
   * Host header to say where it goes: the target is kept exactly when that header
   * leads to the authority's endpoint, and always when it names the authority.
   */
  lemma RewriteKeepsTarget(m: string, scheme: string, authority: string, path: string, v: string, headers: string)
    requires AbsoluteParts(scheme, authority, path)
    requires NoSpace(m) && m != "" && NoSpace(v) && v != "" && ':' !in m
    ensures var request := RequestLine(m, scheme + authority + path, v) + "\r\n" + headers;
            && ParseHttpTarget(request) == SplitHostPort(authority, 80)
            && (ParseHttpTarget(OriginForm(request)) == ParseHttpTarget(request) <==>
                HeaderTarget(Lines(headers)) == SplitHostPort(authority, 80))
            && (FirstHost(Lines(headers)).Some? && Trim(FirstHost(Lines(headers)).value) == authority ==>
                  ParseHttpTarget(OriginForm(request)) == ParseHttpTarget(request))
  {
    hide ParseHttpTarget, OriginForm, SplitHostPort, StripScheme, OriginPath, FirstHost, Trim, Lines;
    var uri := scheme + authority + path;
    AbsoluteUri(scheme, authority, path);
    AbsoluteTarget(m, uri, authority, path, v, headers);
    OriginOf(m, uri, v, headers);
    PathIsOrigin(authority + path);
    OriginTarget(m, OriginPath(authority + path), v, headers);
  }

  lemma PathOf(authority: string, path: string)
    requires '/' !in authority && (path == "" || path[0] == '/')
    ensures OriginPath(authority + path) == if path == "" then "/" else path
  {
    var rest := authority + path;
    assert forall i :: 0 <= i < |authority| ==> rest[i] == authority[i] && authority[i] in authority;
    assert path != "" ==> rest[|authority|] == '/';
    assert IndexOf(rest, '/') == |authority|;
    assert rest[|authority|..] == path;
  }

  /** An absolute-form request keeps its method, path, version and all that follows; an empty path becomes a slash. */
  lemma OriginFormMeaning(m: string, scheme: string, authority: string, path: string, v: string, headers: string)
    requires AbsoluteParts(scheme, authority, path) && NoSpace(m) && NoSpace(v)
    ensures OriginForm(RequestLine(m, scheme + authority + path, v) + "\r\n" + headers)
            == RequestLine(m, if path == "" then "/" else path, v) + "\r\n" + headers
  {
    hide OriginForm, StripScheme, OriginPath, RequestLine;
    AbsoluteUri(scheme, authority, path);
    OriginOf(m, scheme + authority + path, v, headers);
    PathOf(authority, path);
  }

  lemma NoScheme(u: string)
    requires !StartsWith(u, "http://") && !StartsWith(u, "https://")
    ensures StripScheme(u).None?
  {
  }

  /** A request whose second word starts with neither scheme is kept as it is. */
  lemma OriginFormKeeps(m: string, u: string, v: string, headers: string)
    requires NoSpace(m) && NoSpace(u) && NoSpace(v)
    requires !StartsWith(u, "http://") && !StartsWith(u, "https://")
    ensures OriginForm(RequestLine(m, u, v) + "\r\n" + headers) == RequestLine(m, u, v) + "\r\n" + headers
  {
    hide StripScheme, CutLine, StartsWith;
    var line, tail := RequestLine(m, u, v), "\r\n" + headers;
    NoScheme(u);
    assert ' ' !in m && ' ' !in u;
    SpacelessNoCrlf(m); SpacelessNoCrlf(u); SpacelessNoCrlf(v);
    RequestLineNoCrlf(m, u, v);
    assert CrlfAt(tail, 0);
    LineEnd(line, tail);
    assert line + "\r\n" + headers == line + tail;
    CutRequestLine(m, u, v);
  }

  /** So is one whose first line has fewer than two spaces, or does not end. */
  lemma OriginFormKeepsRest(first: string, second: string, headers: string)
    requires NoCrlf(first) && ' ' !in first && NoCrlf(second) && ' ' !in second
    ensures OriginForm(first) == first
    ensures OriginForm(first + "\r\n" + headers) == first + "\r\n" + headers
    ensures NoCrlf(first + " " + second) ==>
              OriginForm(first + " " + second + "\r\n" + headers) == first + " " + second + "\r\n" + headers
  {
    var tail := "\r\n" + headers;
    assert CrlfAt(tail, 0);
    LineEnd(first, tail);
    assert first + "\r\n" + headers == first + tail;
    if NoCrlf(first + " " + second) {
      LineEnd(first + " " + second, tail);
      assert first + " " + second + "\r\n" + headers == (first + " " + second) + tail;
      CutConcat(first, second, ' ');
      assert first + [' '] + second == first + " " + second;
    }
  }

  /** The first line that starts with `Host:` or `host:` is the one read; the host and port are what it spells out. */
  lemma HostHeaderTarget(lines: seq<string>, i: nat, pad: string, host: string, port: U16, after: string)
    requires i < |lines| && AllSpace(pad) && AllSpace(after) && NoSpace(host)
    requires var value := pad + HostPort(host, port) + after; lines[i] == "Host:" + value || lines[i] == "host:" + value
    requires forall j :: 0 <= j < i ==> !StartsWith(lines[j], "Host:") && !StartsWith(lines[j], "host:")
    ensures HeaderTarget(lines) == Ok(Endpoint(host, port))
  {
    hide HostPort, Trim, SplitHostPort, FirstHost, HostValue;
    var text := HostPort(host, port);
    var value := pad + text + after;
    HostValueIs(value);
    FirstHostAt(lines, i);
    HostPortNoSpace(host, port);
    HostPortText(host, port);
    TrimPad(pad, text, after);
    AddressRoundTrip(host, port, 80);
  }

  lemma HostPortText(host: string, port: U16)
    ensures HostPort(host, port) != ""
  {
    assert HostPort(host, port)[|host|] == ':';
  }

  lemma HostValueIs(value: string)
    ensures HostValue("Host:" + value) == Some(value) && HostValue("host:" + value) == Some(value)
  {
    assert ("Host:" + value)[5..] == value && ("host:" + value)[5..] == value;
  }

  lemma {:induction false} FirstHostAt(lines: seq<string>, i: nat)
    requires i < |lines| && HostValue(lines[i]).Some?
    requires forall j :: 0 <= j < i ==> !StartsWith(lines[j], "Host:") && !StartsWith(lines[j], "host:")
    ensures FirstHost(lines) == HostValue(lines[i])
  {
    if i > 0 {
      FirstHostAt(lines[1..], i - 1);
    }
  }

  lemma AbsoluteTarget(m: string, uri: string, authority: string, path: string, v: string, headers: string)
    requires NoSpace(m) && NoSpace(uri) && NoSpace(v) && m != "" && uri != "" && v != ""
    requires StripScheme(uri) == Some(authority + path) && authority != ""
    requires (authority + path)[..IndexOf(authority + path, '/')] == authority
    ensures ParseHttpTarget(RequestLine(m, uri, v) + "\r\n" + headers) == SplitHostPort(authority, 80)
  {
    hide Words, Lines, SplitHostPort, StripScheme, RequestLine;
    RequestLineTarget(m, uri, v, headers);
    ThreeWords(m, uri, v);
  }

  lemma OriginTarget(m: string, path: string, v: string, headers: string)
    requires NoSpace(m) && NoSpace(path) && NoSpace(v) && m != "" && v != "" && ':' !in m
    requires path != "" && path[0] == '/' && StripScheme(path).None?
    ensures ParseHttpTarget(RequestLine(m, path, v) + "\r\n" + headers) == HeaderTarget(Lines(headers))
  {
    hide Words, Lines, SplitHostPort, StripScheme, RequestLine, HostValue, Trim;
    RequestLineTarget(m, path, v, headers);
    ThreeWords(m, path, v);
    NotHost(m, path, v);
    assert ([RequestLine(m, path, v)] + Lines(headers))[1..] == Lines(headers);
  }

  lemma RequestLineTarget(m: string, u: string, v: string, headers: string)
    requires NoSpace(m) && NoSpace(u) && NoSpace(v)
    ensures Lines(RequestLine(m, u, v) + "\r\n" + headers) == [RequestLine(m, u, v)] + Lines(headers)
  {
    assert '\n' !in RequestLine(m, u, v) by {
      assert '\n' !in m && '\n' !in u && '\n' !in v && '\n' !in " ";
    }
    LinesHead(RequestLine(m, u, v), headers);
  }

  lemma OriginOf(m: string, uri: string, v: string, headers: string)
    requires NoSpace(m) && NoSpace(uri) && NoSpace(v) && StripScheme(uri).Some?
    ensures OriginForm(RequestLine(m, uri, v) + "\r\n" + headers)
            == RequestLine(m, OriginPath(StripScheme(uri).value), v) + "\r\n" + headers
  {
    hide StripScheme, OriginPath, CutLine;
    var line, tail := RequestLine(m, uri, v), "\r\n" + headers;
    assert ' ' !in m && ' ' !in uri;
    SpacelessNoCrlf(m); SpacelessNoCrlf(uri); SpacelessNoCrlf(v);
    RequestLineNoCrlf(m, uri, v);
    assert CrlfAt(tail, 0);
    LineEnd(line, tail);
    assert line + "\r\n" + headers == line + tail;
    CutRequestLine(m, uri, v);
    var out := RequestLine(m, OriginPath(StripScheme(uri).value), v);
    assert out + "\r\n" + headers == out + tail;
  }

  lemma SpacelessNoCrlf(s: string)
    requires NoSpace(s)
    ensures NoCrlf(s)
  {
    forall i: nat
      ensures !CrlfAt(s, i)
    {
      assert i < |s| ==> s[i] in s;
    }
  }

  lemma NotHost(m: string, u: string, v: string)
    requires ':' !in m && m != "" && u != "" && u[0] == '/'
    ensures HostValue(RequestLine(m, u, v)).None?
  {
    var line := RequestLine(m, u, v);
    if |m| < 5 {
      assert line[|m|] == ' ';
    } else {
      assert line[4] == m[4] && m[4] in m;
    }
    assert "Host:"[4] == ':' && "host:"[4] == ':';
    assert forall i :: 0 <= i < 5 ==> "Host:"[i] != ' ' && "host:"[i] != ' ';
  }

  // ---- Forwarding to an HTTP upstream ----

  function WithAuth(codec: Codec, creds: Option<Credentials>, lines: seq<string>): seq<string>
    requires lines != []
  {
    [lines[0]] + (if creds.Some? then [AuthLine(codec, creds.value)] else []) + lines[1..]
  }

  /** Insert the upstream's credentials after the request line; keep every other line. */
  method RewriteForUpstream(codec: Codec, creds: Option<Credentials>, request: string)
    returns (r: Result<string, ProxyError>)
    ensures Lines(request) == [] ==> r == Err(ProxyError.Protocol)
    ensures Lines(request) != [] ==> r == Ok(HeaderBlock(WithAuth(codec, creds, Lines(request))))
  {
    hide Lines, AuthLine;
    var lines := Lines(request);
    if lines == [] {
      return Err(ProxyError.Protocol);
    }
    ghost var all := WithAuth(codec, creds, lines);
    var out := lines[0];
    out := out + "\r\n";
    ghost var done := 1;
    assert out + HeaderBlock(all[1..]) == HeaderBlock(all);
    if creds.Some? {
      assert all[1] == AuthLine(codec, creds.value);
      BlockStep(out, all, 1);
      out := out + AuthLine(codec, creds.value);
      out := out + "\r\n";
      done := 2;
    }
    var headers := lines[1..];
    assert all[done..] == headers;
    for i := 0 to |headers|
      invariant out + HeaderBlock(headers[i..]) == HeaderBlock(all)
    {
      BlockStep(out, headers, i);
      out := out + headers[i];
      out := out + "\r\n";
    }
    assert headers[|headers|..] == [];
    r := Ok(out + "\r\n");
  }

  lemma BlockStep(out: string, lines: seq<string>, i: nat)
    requires i < |lines|
    ensures out + HeaderBlock(lines[i..]) == (out + lines[i] + "\r\n") + HeaderBlock(lines[i + 1..])
  {
    assert lines[i..][1..] == lines[i + 1..];
  }

  /**
   * Read back, the rewritten request is the original first line, the upstream's
   * credentials if it has any, all other lines in order, and one more blank line;
   * the upstream's credentials are the ones found, whatever the client sent.
   */
  lemma RewriteMeaning(codec: Codec, creds: Option<Credentials>, request: string)
    requires Faithful(codec) && Lines(request) != []
    ensures var lines, out := Lines(request), Lines(HeaderBlock(WithAuth(codec, creds, Lines(request))));
            && (creds.None? ==> out == lines + [""])
            && (creds.Some? ==>
                  && |out| == |lines| + 2
                  && out[0] == lines[0]
                  && out[1] == "Proxy-Authorization: Basic " + codec.encode(creds.value.username + ":" + creds.value.password)
                  && out[2..] == lines[1..] + [""])
            && (creds.Some? && !IsBasic(lines[0]) ==>
                  && BasicLine(out) == Some(out[1])
                  && BasicText(codec, out[1]) == Some(creds.value.username + ":" + creds.value.password))
  {
    hide Lines, IsBasic;
    var lines := Lines(request);
    LinesNoBreaks(request);
    var all := WithAuth(codec, creds, lines);
    if creds.Some? {
      AuthLineIsBasic(codec, creds.value);
      assert (all + [""])[1..][0] == AuthLine(codec, creds.value);
      assert (all + [""])[2..] == lines[1..] + [""];
    } else {
      assert [lines[0]] + [] + lines[1..] == lines;
    }
    assert NoBreaks(all) by {
      forall l | l in all
        ensures '\n' !in l
      {
        assert l in lines || (creds.Some? && l == AuthLine(codec, creds.value));
      }
    }
    HeaderBlockLines(all);
  }

  lemma {:induction false} LinesNoBreaks(s: string)
    ensures NoBreaks(Lines(s))
    decreases |s|
  {
    if s != "" {
      var k := IndexOf(s, '\n');
      if k < |s| {
        LinesNoBreaks(s[k + 1..]);
        assert forall c :: c in StripCr(s[..k]) ==> c in s[..k];
      }
    }
  }
}
