// HTTP request text: headers, Basic credentials, CONNECT requests, the origin
// target and the rewriting of requests.
module HttpText {
  import opened Wrappers
  import opened Text
  import opened Address
  import opened Wire

  // ---- Basic credentials ----

  /** The base64 codec of a library the router uses. */
  datatype Codec = Codec(encode: string -> string, decode: string -> Option<string>)

  /** Decoding undoes encoding, and encoded text has no white space. */
  ghost predicate Faithful(codec: Codec) {
    forall s :: codec.decode(codec.encode(s)) == Some(s) && NoSpace(codec.encode(s))
  }

  const BASIC := "proxy-authorization: basic "

  predicate IsBasic(line: string) {
    StartsWith(Lower(line), BASIC)
  }

  /** The first line carrying Basic proxy credentials. */
  function BasicLine(lines: seq<string>): (r: Option<string>)
    ensures r.Some? ==> r.value in lines && IsBasic(r.value)
    ensures r.None? <==> forall l :: l in lines ==> !IsBasic(l)
  {
    if lines == [] then None
    else if IsBasic(lines[0]) then Some(lines[0])
    else BasicLine(lines[1..])
  }

  /** A credentials line starts with the header's name and scheme, in any case. */
  lemma BasicMeaning(line: string)
    ensures IsBasic(line) <==> |line| >= 27 && SameText(line[..27], "Proxy-Authorization: Basic ")
  {
    assert |BASIC| == 27 && |"Proxy-Authorization: Basic "| == 27;
    LowerBasic();
    if |line| >= 27 {
      LowerMeaning(line[..27], "Proxy-Authorization: Basic ");
      assert Lower(line)[..27] == Lower(line[..27]);
    }
  }

  /** The first credentials line is the one read. */
  lemma {:induction false} FirstBasic(lines: seq<string>, i: nat)
    requires i < |lines| && IsBasic(lines[i]) && forall j :: 0 <= j < i ==> !IsBasic(lines[j])
    ensures BasicLine(lines) == Some(lines[i])
  {
    hide IsBasic;
    if i > 0 {
      FirstBasic(lines[1..], i - 1);
    }
  }

  /** The decoded text of a credentials line. */
  function BasicText(codec: Codec, line: string): Option<string> {
    if |line| < |BASIC| then None else codec.decode(Trim(line[|BASIC|..]))
  }

  function Userpass(c: Credentials): string {
    c.username + ":" + c.password
  }

  function EncodeAuth(codec: Codec, c: Credentials): string {
    codec.encode(Userpass(c))
  }

  function AuthLine(codec: Codec, c: Credentials): string {
    "Proxy-Authorization: Basic " + EncodeAuth(codec, c)
  }

  /** The credentials the router reads from decoded text: the first two pieces between colons. */
  function SplitUserpass(text: string): Option<Credentials> {
    var parts := Split(text, ':');
    if |parts| < 2 then None else Some(Credentials(parts[0], parts[1]))
  }

  /** Credentials survive the trip exactly when neither part has a colon. */
  lemma UserpassRoundTrip(c: Credentials)
    ensures SplitUserpass(Userpass(c)) == Some(c) <==> ':' !in c.username && ':' !in c.password
  {
    var parts := Split(Userpass(c), ':');
    if ':' !in c.username {
      SplitHead(c.username, c.password, ':');
      assert Userpass(c) == c.username + [':'] + c.password;
      if ':' !in c.password {
        SplitWhole(c.password, ':');
      }
    }
    assert forall p :: p in parts ==> ':' !in p;
    assert |parts| >= 2 ==> parts[0] in parts && parts[1] in parts;
  }

  /** A password with a colon is cut at it. */
  lemma PasswordCut(username: string, head: string, tail: string)
    requires ':' !in username && ':' !in head
    ensures SplitUserpass(Userpass(Credentials(username, head + ":" + tail))) == Some(Credentials(username, head))
  {
    var password := head + ":" + tail;
    assert username + ":" + password == username + [':'] + password;
    SplitHead(username, password, ':');
    assert password == head + [':'] + tail;
    SplitHead(head, tail, ':');
  }

  lemma AuthLineIsBasic(codec: Codec, c: Credentials)
    requires Faithful(codec)
    ensures IsBasic(AuthLine(codec, c))
    ensures BasicText(codec, AuthLine(codec, c)) == Some(Userpass(c))
    ensures '\n' !in AuthLine(codec, c)
  {
    var line, encoded := AuthLine(codec, c), EncodeAuth(codec, c);
    LowerBasic();
    assert |BASIC| == 27 && |"Proxy-Authorization: Basic "| == 27;
    assert forall i :: 0 <= i < 27 ==> Lower(line)[i] == Lower("Proxy-Authorization: Basic ")[i];
    assert line[27..] == encoded;
    TrimNoSpace(encoded);
    assert '\n' !in "Proxy-Authorization: Basic " && '\n' !in encoded;
  }

  lemma LowerBasic()
    ensures Lower("Proxy-Authorization: Basic ") == BASIC
  {
  }

  // ---- CONNECT requests ----

  function HeaderBlock(lines: seq<string>): string {
    if lines == [] then "\r\n" else lines[0] + "\r\n" + HeaderBlock(lines[1..])
  }

  function ConnectLines(codec: Codec, creds: Option<Credentials>, target: string): seq<string> {
    [ConnectLine(target), "Host: " + target]
    + (if creds.Some? then [AuthLine(codec, creds.value)] else [])
  }

  /** Where the blank line ending a head is over; 0 when it has not come yet. */
  function HeadEnd(s: string): (n: nat)
    ensures n <= |s|
    decreases |s|
  {
    var k := IndexOf(s, '\n');
    if k == |s| then 0
    else if StripCr(s[..k]) == "" then k + 1
    else
      var n := HeadEnd(s[k + 1..]);
      if n == 0 then 0 else k + 1 + n
  }

  datatype ConnectHead = ConnectHead(target: Endpoint, userpass: Option<string>)

  /** One whole CONNECT head at the front of a stream. */
  function ConnectDecoded(codec: Codec, s: string): (r: Decoded<ConnectHead>)
    ensures r.Got? ==> |r.rest| < |s|
  {
    var n := HeadEnd(s);
    if n == 0 then More
    else if !StartsWith(s, "CONNECT") then Bad
    else
      match ParseConnectTarget(s[..n])
      case Err(_) => Bad
      case Ok(target) =>
        var line := BasicLine(Lines(s[..n]));
        Got(ConnectHead(target, if line.None? then None else BasicText(codec, line.value)), s[n..])
  }

  predicate CleanLines(lines: seq<string>) {
    forall l :: l in lines ==> l != "" && '\n' !in l
  }

  lemma BlankLine()
    ensures Lines("\r\n") == [""] && HeadEnd("\r\n") == 2
  {
    var s := "\r\n";
    assert s == "" + "\r\n" + "";
    LinesHead("", "");
    assert IndexOf(s, '\n') == 1;
    assert StripCr(s[..1]) == "";
  }

  predicate NoBreaks(lines: seq<string>) {
    forall l :: l in lines ==> '\n' !in l
  }

  lemma {:induction false} HeaderBlockLines(lines: seq<string>)
    requires NoBreaks(lines)
    ensures Lines(HeaderBlock(lines)) == lines + [""]
  {
    hide Lines;
    if lines == [] {
      BlankLine();
    } else {
      assert lines[0] in lines && forall l :: l in lines[1..] ==> l in lines;
      HeaderBlockLines(lines[1..]);
      LinesHead(lines[0], HeaderBlock(lines[1..]));
      assert lines == [lines[0]] + lines[1..];
    }
  }

  lemma {:induction false} HeaderBlockEnd(lines: seq<string>)
    requires CleanLines(lines)
    ensures HeadEnd(HeaderBlock(lines)) == |HeaderBlock(lines)|
  {
    hide HeadEnd;
    if lines == [] {
      BlankLine();
    } else {
      assert lines[0] in lines && forall l :: l in lines[1..] ==> l in lines;
      HeaderBlockEnd(lines[1..]);
      HeadSkip(lines[0], HeaderBlock(lines[1..]));
    }
  }

  lemma HeadSkip(a: string, rest: string)
    requires a != "" && '\n' !in a && HeadEnd(rest) > 0
    ensures HeadEnd(a + "\r\n" + rest) == |a| + 2 + HeadEnd(rest)
  {
    LineBreak(a, rest);
  }

  lemma ConnectLinesClean(codec: Codec, creds: Option<Credentials>, target: string)
    requires NoSpace(target) && Faithful(codec)
    ensures CleanLines(ConnectLines(codec, creds, target))
    ensures !IsBasic(ConnectLine(target)) && !IsBasic("Host: " + target)
  {
    assert '\n' !in "CONNECT" && '\n' !in " " && '\n' !in "HTTP/1.1" && '\n' !in "Host: " && '\n' !in target;
    if creds.Some? {
      AuthLineIsBasic(codec, creds.value);
    }
    NotBasic(ConnectLine(target));
    NotBasic("Host: " + target);
  }

  lemma NotBasic(line: string)
    requires |line| > 0 && LowerChar(line[0]) != 'p'
    ensures !IsBasic(line)
  {
    assert BASIC[0] == 'p';
  }

  lemma StartsWithConnect(codec: Codec, creds: Option<Credentials>, target: string)
    ensures StartsWith(HeaderBlock(ConnectLines(codec, creds, target)), "CONNECT")
  {
    hide AuthLine;
    var line := ConnectLine(target);
    assert line[..7] == "CONNECT";
    assert HeaderBlock(ConnectLines(codec, creds, target))[..7] == line[..7];
  }

  lemma BlockCons(head: string, tail: seq<string>)
    ensures HeaderBlock([head] + tail) == head + "\r\n" + HeaderBlock(tail)
    ensures HeaderBlock([]) == "\r\n"
  {
    assert ([head] + tail)[1..] == tail;
  }

  /** The bytes of a CONNECT request. */
  lemma ConnectBytes(codec: Codec, creds: Option<Credentials>, target: string)
    ensures HeaderBlock(ConnectLines(codec, creds, target))
            == "CONNECT " + target + " HTTP/1.1" + "\r\n"
               + ("Host: " + target + "\r\n"
                  + ((if creds.Some?
                      then "Proxy-Authorization: Basic " + codec.encode(creds.value.username + ":" + creds.value.password) + "\r\n"
                      else "")
                     + "\r\n"))
  {
    hide HeaderBlock, AuthLine, EncodeAuth, Userpass, ConnectLine;
    ConnectLineText(target);
    var first, second := ConnectLine(target), "Host: " + target;
    var lines := ConnectLines(codec, creds, target);
    BlockCons(first, lines[1..]);
    BlockCons(second, lines[2..]);
    assert lines == [first] + lines[1..] && lines[1..] == [second] + lines[2..];
    if creds.Some? {
      AuthLineText(codec, creds.value);
      BlockCons(AuthLine(codec, creds.value), []);
      assert lines[2..] == [AuthLine(codec, creds.value)] + [];
    } else {
      assert lines[2..] == [];
      assert "" + "\r\n" == "\r\n";
    }
  }

  lemma ConnectLineText(target: string)
    ensures ConnectLine(target) == "CONNECT " + target + " HTTP/1.1"
  {
  }

  lemma AuthLineText(codec: Codec, c: Credentials)
    ensures AuthLine(codec, c) == "Proxy-Authorization: Basic " + codec.encode(c.username + ":" + c.password)
  {
  }

  /** A CONNECT request is read back: its target, and its credentials if it carries any. */
  lemma ConnectRequestRoundTrip(codec: Codec, creds: Option<Credentials>, target: string)
    requires NoSpace(target) && target != "" && Faithful(codec)
    ensures ConnectDecoded(codec, HeaderBlock(ConnectLines(codec, creds, target)))
            == match SplitHostPort(target, 443)
               case Err(_) => Bad
               case Ok(e) => Got(ConnectHead(e, if creds.Some? then Some(Userpass(creds.value)) else None), "")
  {
    hide SplitHostPort, Userpass, StartsWith;
    var lines := ConnectLines(codec, creds, target);
    var s := HeaderBlock(lines);
    ConnectLinesClean(codec, creds, target);
    HeaderBlockLines(lines);
    HeaderBlockEnd(lines);
    ConnectReads(target, HeaderBlock(lines[1..]));
    assert s[..|s|] == s && s[|s|..] == "";
    BasicOfConnect(codec, creds, target);
    StartsWithConnect(codec, creds, target);
  }

  lemma BasicOfConnect(codec: Codec, creds: Option<Credentials>, target: string)
    requires NoSpace(target) && Faithful(codec)
    ensures BasicLine(ConnectLines(codec, creds, target) + [""])
            == if creds.Some? then Some(AuthLine(codec, creds.value)) else None
    ensures creds.Some? ==> BasicText(codec, AuthLine(codec, creds.value)) == Some(Userpass(creds.value))
  {
    hide Lower, AuthLine, ConnectLine;
    ConnectLinesClean(codec, creds, target);
    var first, second := ConnectLine(target), "Host: " + target;
    var lines := ConnectLines(codec, creds, target) + [""];
    EmptyNotBasic();
    if creds.Some? {
      AuthLineIsBasic(codec, creds.value);
      assert lines == [first, second, AuthLine(codec, creds.value), ""];
      assert lines[1..] == [second, AuthLine(codec, creds.value), ""];
      assert lines[1..][1..] == [AuthLine(codec, creds.value), ""];
    } else {
      assert lines == [first, second, ""];
    }
  }

  lemma EmptyNotBasic()
    ensures !IsBasic("")
  {
    assert |BASIC| == 27;
  }
}
