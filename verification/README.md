# A verified model of purroute

purroute accepts SOCKS4, SOCKS5, HTTP and HTTP CONNECT clients on one port,
authenticates them, picks upstream proxies from the tokens in their usernames,
tunnels through one or more upstreams and meters what it relays. This project
models that logic and proves what it keeps.

| file | what it models |
|---|---|
| `Wrappers.dfy`, `Text.dfy` | results, errors, and the library text functions the parsers use |
| `Address.dfy` | `host:port` text and the CONNECT line |
| `Wire.dfy` | SOCKS4, SOCKS5 and username/password messages: encoders and decoders |
| `HttpText.dfy`, `HttpRewrite.dfy` | Basic credentials, CONNECT heads, the origin target, both request rewrites |
| `Hashing.dfy`, `Routing.dfy`, `Exits.dfy` | FNV-1a, the username grammar with its printer, exit selection |
| `Tunnel.dfy`, `Translate.dfy` | multi-hop tunnels, and the three single-hop translators |
| `Metering.dfy`, `Relay.dfy`, `Pump.dfy` | debits, every interleaving of the relay, and the relay loop as sequential code |
| `Gate.dfy` | from an accepted connection to its relay, on all seven handler paths |
| `Stats.dfy` | connection life cycle and byte counters |

`dafny verify dfyconfig.toml` checks everything.

## How things are represented

- Text and wire bytes are both sequences of characters below 256. All text is
  ASCII, so lossy UTF-8 conversion is the identity.
- `cost_per_byte` is a real number, and rounding is half away from zero.
- A stream is the list of addresses it passes through, what its far end has
  received, and the bytes not read yet. A peer proxy is a decoder that answers,
  waits, or opens the address it decoded. A read of an HTTP reply returns all
  the bytes that have arrived, up to 1024: replies come alone, in one read.
- `select!` over the two relay directions: the first to end decides the result
  and drops the other wherever it is, even in mid-write. The two oneshot
  channels are signalled in the poll in which their direction returns, so they
  never decide.
- A report to the in-memory backend has no await point, so the two directions of
  one connection never overlap inside it; other connections do, and the weak
  compare-and-swap may fail at will.
- A panic inside a connection task reaches the caller as a protocol error
  (src/protocols/proxy.rs:776-778). This covers the empty chain
  (src/protocols/proxy.rs:596), the empty random chain without a count
  (src/protocols/proxy.rs:180) and the short SOCKS4 request
  (src/protocols/socks4.rs:41-50).
- Base64 is a pair of functions `Codec`; `Faithful` says that decoding undoes
  encoding and that encoded text has no white space. A CIDR network is any
  predicate on peers. Random choice is any value in range.
- Counters are unbounded integers; allowances and account ids are 64-bit.

## Where the repository disagrees with itself

The model follows the code in each case.

- wiki/Routing-tokens.md:22-23 says an unknown key becomes part of the base.
  src/routing.rs:126-128 makes it an error (`Routing.ErrorIff`; inputs in
  `Routing.UnknownKeyRefused`).
- wiki/Auth-backends.md:11 gives `report_usage` no cost parameter;
  src/auth.rs:64-70 has one.
- src/protocols/proxy.rs:552-553 and 1032 both lower the active counter when a
  relay ends in an error, so the counter falls below the live connections and
  can reach -1 (`Stats.ActiveAccounting`, `Stats.CounterGoesNegative`).
- A password with a colon can be sent to an upstream but not received from a
  client: src/protocols/proxy.rs:881-883 keeps only what lies between the first two
  colons (`HttpText.UserpassRoundTrip`; inputs in `HttpText.PasswordCut`).
- A plain HTTP request whose first line contains `CONNECT` anywhere, for instance
  in its path, is answered with "200 Connection Established" and never forwarded
  over a SOCKS upstream (src/protocols/http.rs:104-113; `Translate.DroppedIff`,
  input in `Gate.ConnectInPathDropped`).
- Two SOCKS4 parsers disagree on 0.0.0.2 to 0.0.0.255 and on 0.0.0.0
  (`Wire.Socks4ParsersAgree`; inputs in `Wire.Socks4ParsersDiffer`); two CONNECT
  target parsers disagree on targets with several colons or a bad port
  (`Address.ColonTargetAgrees`; input in `Address.ColonTargetsDiffer`).
- The total debited depends on how bytes are split into chunks, unless the cost is
  very near an integer (`Metering.ChunkingIrrelevantIff`; input in
  `Metering.ChunkingMattersAtHalf`).

## Model

| member | source | states |
|---|---|---|
| `Relay.StreamIntegrity` | src/protocols/proxy.rs:921-1029 | In every reachable state of any number of connections, cancellation in mid-write included, each direction has delivered a prefix of what it read, at most 8192 bytes behind, and on an authenticated connection only reported bytes |
| `Relay.ForwardedBelowLimit` | src/protocols/proxy.rs:929-941 | In every interleaving, the debits of all chunks ever forwarded on a limited account, over all its connections and both directions, sum to strictly less than the initial allowance |
| `Relay.NothingAfterZero` | src/protocols/proxy.rs:980-992 | Once a report has left an allowance at zero, no chunk whose report takes effect at or after it is ever forwarded |
| `Relay.CutOffOnlyAtZero` | src/protocols/proxy.rs:935-941 | In every run, a direction is cut off for its allowance only after a report of its own that left nothing, and that chunk was not forwarded |
| `Relay.DeliveredBelowLimit` | src/protocols/proxy.rs:921-1021 | At one unit per byte or more, all connections of an account together deliver fewer bytes than its allowance |
| `Relay.AllowanceIsLimitLessDebits` | src/auth.rs:391-400 | With other callers and spurious failures interleaved at will, the stored allowance is the limit less the sum of completed debits, floored at zero |
| `Relay.RunLinear` | src/auth.rs:391-400 | Every completed swap installed what the single SQL statement would have returned at that place in the order |
| `Relay.EachChunkOnce` | src/auth.rs:374-404 | In every run, the debits of a limited direction are, in order, one for each chunk it read, each at the amount that chunk's own size costs, to the account of its connection; only the chunk whose report is still in progress is not among them |
| `Relay.DirectionErrorBound` | src/auth.rs:384-390 | In every run, what a limited direction was debited differs from cost times the bytes it reported by at most half a unit for each chunk |
| `Relay.ChunkThrough` | src/protocols/proxy.rs:921-948 | A chunk of a limited direction, left alone, is debited once; if that leaves something it goes on to be written, otherwise the direction ends for its allowance and takes the other one with it |
| `Relay.ChunkFree` | src/protocols/proxy.rs:929-942 | Without a limit or an account nothing is debited and the chunk goes on to be written |
| `Relay.ChunkWritten` | src/protocols/proxy.rs:942-957 | A chunk written at once or in two pieces is delivered whole and in order, and the direction reads on |
| `Relay.NothingStuck` | src/protocols/proxy.rs:1023-1029 | In every reachable state, a direction that has not ended can take its next step, unless the other one is inside a report, which can |
| `Metering.StaticAuthBackend.ReportUsage` | src/auth.rs:374-404 | Against any schedule of other callers and spurious failures, the swap loop acts as one execution of the debit statement after the attempts that landed first, returns the value it installed, touches no other user, and never leaves 64 bits |
| `Metering.StaticAuthBackend.IdsInvert` | src/auth.rs:317-323 | Account ids and user indices are inverse, so a debit lands on the user who was authenticated |
| `Metering.StaticAuthBackend.Authenticate` | src/auth.rs:352-363 | Returns the account of the first user with that name and password, and none exactly when there is no such user |
| `Metering.StaticAuthBackend.AuthenticateByIp` | src/auth.rs:365-372 | Returns the account of the first user one of whose networks contains the peer |
| `Metering.AllowsMeaning` | src/auth.rs:365-372 | A peer is allowed if and only if some network of the user contains it |
| `Metering.SqlRunIsSum` | src/auth.rs:264-267 | Any sequence of executions of the debit statement leaves max(0, balance less the sum of debits) |
| `Metering.OrderIrrelevant` | src/auth.rs:264-267 | Any order of the same debits leaves the same balance |
| `Metering.MeteringErrorBound` | src/auth.rs:384-390 | Over n reports below saturation, the total debit differs from cost times bytes by at most n/2 |
| `Metering.IntegerCostExact` | src/auth.rs:384-390 | At an integer cost the total debit is exactly cost times bytes |
| `Metering.ChunkingIrrelevantIff` | src/auth.rs:384-390 | At a non-negative cost, all pairs of unsaturated report lists with the same bytes have the same total debit if and only if every admissible count of bytes rounds to that many rounded unit costs, and if and only if the distance of the cost from its rounding, times the most bytes one report can hold, is at least -1/2 and below 1/2 |
| `Metering.ChunkingMattersAtHalf` | src/auth.rs:238-247 | An input where it shows: cost one half fails that condition, and two single bytes are debited more than one pair |
| `Metering.DebitCoversBytes` | src/auth.rs:384-390 | At cost one or more a debit is at least the bytes |
| `Metering.DebitClamped` | src/auth.rs:185-187 | Counts beyond 64 bits are debited as the largest count, either direction costs the same, and a cost of zero or less costs nothing |
| `Pump.AccountRow.ReportUsage` | src/auth.rs:231-273 | One statement debits a limited account and returns its new balance; an unlimited one is left alone |
| `Pump.Charge` | src/protocols/proxy.rs:930-941 | A chunk is reported in its own direction, and cut off exactly when the account is limited and nothing is left |
| `Pump.RelayDirection` | src/protocols/proxy.rs:921-967 | The read, report, write loop delivers exactly the chunks whose debits stay below the allowance, in order; it ends with EOF if that is all of them, otherwise it charges one more and reports that the bandwidth is exceeded |
| `Pump.CutUnique` | src/protocols/proxy.rs:937-941 | Where the stream is cut is determined by the allowance and the debits alone |
| `Stats.ActiveAccounting` | src/protocols/proxy.rs:526-557 | At every step of every run the counter is the connections not decremented yet less the relay errors closed so far, hence right if and only if no relay has failed; a finished connection has been decremented once, or twice if its relay failed; with no decrement outstanding the connections counted are the live ones |
| `Stats.CounterGoesNegative` | src/protocols/proxy.rs:1031-1035 | A run with one connection whose relay fails leaves the counter at -1 |
| `Stats.BytesConserved` | src/stats/global.rs:103-147 | At every step of every interleaving, drained plus current bytes are all bytes ever added, and exceed the gain of the total by exactly the adds caught between their two increments |
| `Stats.Listener.Accepted` | src/protocols/proxy.rs:535-537 | Accepting keeps the counters in use equal to the modelled ones of the life cycle |
| `Stats.Listener.RelayStarted` | src/protocols/proxy.rs:389-394 | Reporting success is the life-cycle step that starts the relay |
| `Stats.Listener.RelayEnded` | src/protocols/proxy.rs:1023-1035 | The end of a relay, with an I/O error recorded or not, is the two life-cycle steps that end and decrement it |
| `Stats.Listener.Finished` | src/protocols/proxy.rs:545-555 | A task's result is the life-cycle step that closes the connection: an error is recorded and decremented again |
| `Stats.Listener.CounterIsOff` | src/protocols/proxy.rs:552-553 | The counter in use is the connections not decremented yet less the relay errors |
| `Stats.GlobalStats.AddBytesIn` | src/stats/global.rs:103-109 | An uninterrupted add to the incoming counters is the two increments of the interleaved model, and touches nothing outgoing |
| `Stats.GlobalStats.AddBytesOut` | src/stats/global.rs:111-117 | An uninterrupted add to the outgoing counters is the two increments of the interleaved model, and touches nothing incoming |
| `Stats.GlobalStats.GetStats` | src/stats/global.rs:119-147 | The snapshot shows every counter as it was; current bytes are taken only after more than a second without activity; the conservation law is kept |
| `Stats.GlobalStats.LoadFromDb` | src/stats/global.rs:149-166 | Stored totals replace the counted ones; current bytes, the active count and the conservation law are kept |
| `Tunnel.ConnectChain` | src/protocols/chain.rs:25-60 | Through a non-empty chain of conforming SOCKS5, SOCKS4a and HTTP proxies the tunnel passes the configured address of hop 0, of hop 1, ..., and then the target, in that order, with nothing unread; it is made if and only if every hop can be addressed, admits the configured credentials and reaches the next name |
| `Tunnel.AddressMeaning` | src/config.rs:134-139 | A hop is addressed at its configured address and port; without a port, at the host and port its bare address spells out, and nowhere if it spells out none, for instance without a colon |
| `Tunnel.ConnectThroughProxy` | src/protocols/chain.rs:63-82 | A handshake succeeds exactly when the hop admits us and reaches the target; it then extends the path by that target with nothing left unread, and otherwise extends nothing |
| `Tunnel.Socks5Connect` | src/protocols/chain.rs:85-192 | A SOCKS5 handshake succeeds exactly when the hop admits us and reaches the target, whatever address type its reply carries; it then leaves nothing unread |
| `Tunnel.Socks5Login` | src/protocols/chain.rs:92-134 | Greeting and login succeed exactly when the proxy is open or holds these credentials |
| `Tunnel.SkipAddress` | src/protocols/chain.rs:167-189 | Exactly the bound address of a SOCKS5 reply is skipped, and nothing after it; it fails if and only if the address type is unknown or bytes are missing |
| `Tunnel.Socks4Connect` | src/protocols/chain.rs:195-227 | A SOCKS4a handshake succeeds exactly when the hop is open and reaches the target; it then leaves nothing unread |
| `Tunnel.HttpConnect` | src/protocols/chain.rs:230-268 | An HTTP CONNECT handshake succeeds exactly when the hop admits the credentials sent, if any, and reaches the target; it then leaves nothing unread |
| `Translate.HandleSocks4` | src/protocols/socks4.rs:23-241 | For every upstream kind, the client is told "granted" if and only if its stream leads through the upstream to where its request leads: our reading of it, or the upstream's own when it speaks SOCKS4 and gets the request verbatim, with what follows the request sent on |
| `Translate.SameSocks4Target` | src/protocols/socks4.rs:129-147 | A SOCKS4 upstream's own reading is ours if and only if the address is outside 0.0.0.x, or is 0.0.0.1 with a domain, or the domain spells the address |
| `Translate.HandleHttps` | src/protocols/https.rs:17-222 | For every upstream kind, the client is told "200 Connection Established" if and only if its stream leads through the upstream to the target |
| `Translate.SameConnectTarget` | src/protocols/https.rs:83-89 | Single-hop and multi-hop CONNECT ask for the same target for HTTP upstreams; for SOCKS upstreams if and only if the target has no colon, or one colon and a valid port |
| `Translate.HandleHttp` | src/protocols/http.rs:18-216 | An HTTP upstream receives exactly the rewritten request; through a SOCKS upstream the host of the Host header receives exactly the request, or nothing when the first line mentions CONNECT |
| `Translate.HostTargetMeaning` | src/protocols/http.rs:75-83 | The first line starting with `host: ` in any case names the host, with its port, or port 80 without one |
| `Translate.DroppedIff` | src/protocols/http.rs:104-113 | Over a SOCKS upstream, an origin receives a request if and only if its first line does not mention CONNECT |
| `Gate.ConnectInPathDropped` | src/protocols/http.rs:104-113 | An input that is dropped: `GET /CONNECT HTTP/1.1` is detected as plain HTTP and never reaches its origin |
| `Gate.Router.HandleConnection` | src/protocols/proxy.rs:559-779 | Among conforming proxies, a connection reaches its relay if and only if its protocol is detected, its first selection resolves to a non-empty chain, and it is served: authorised, with every hop up to its target passing, on the path fixed by its protocol and the length of its chain (for SOCKS5: its handshake passes and its own selection resolves and passes). Whatever reaches its relay carries, with auth enabled, the id of a user whose allowance passed the check; its selection comes from the username it presented, on the HTTP and CONNECT paths the very one that was authenticated; its chain is what that selection resolves to, pin included; its stream is a tunnel through the addresses of that chain, in order, to the target its own request names, and the client was told so |
| `Gate.Router.HandleSocks5` | src/protocols/proxy.rs:362-401 | Reaches the relay if and only if the handshake passes, the selection of the login resolves to a non-empty chain, and every hop of that chain passes up to the requested target; the stream is then the tunnel to that target |
| `Gate.Router.Socks5Handshake` | src/protocols/proxy.rs:208-360 | Passes if and only if the greeting offers the method in force, the login belongs to a user with allowance left, and the request can be decoded; yields that user's id, the login's tokens and the decoded target |
| `Gate.Router.HandleSocks4Chain` | src/protocols/proxy.rs:405-441 | Reaches the relay if and only if the request is authorised, names a target, and every hop passes; the stream is then the tunnel through the chain to that target and the client is told "granted" |
| `Gate.Router.HandleHttpsChain` | src/protocols/proxy.rs:445-481 | Reaches the relay if and only if the request is authorised, names a CONNECT target, and every hop passes; the stream is then the tunnel through the chain to that target and the client is told "200 Connection Established" |
| `Gate.Router.HandleHttpChain` | src/protocols/proxy.rs:485-524 | Reaches the relay if and only if the request is authorised, names a target in its URI or Host header, and every hop passes; the stream is then the tunnel to that target, where an origin has received exactly the request in origin form |
| `Gate.Router.HandleSocks4Single` | src/protocols/proxy.rs:666-699 | Reaches the relay if and only if the request is authorised and the one upstream reaches where the request leads; the stream is then the tunnel to it |
| `Gate.Router.HandleHttpSingle` | src/protocols/proxy.rs:700-733 | Over a SOCKS upstream, reaches the relay if and only if the request is authorised and the host of its Host header is reached, which receives the request; over an HTTP upstream, if and only if it is authorised and the upstream can be addressed, which receives the rewritten request |
| `Gate.Router.HandleHttpsSingle` | src/protocols/proxy.rs:734-768 | Reaches the relay if and only if the request is authorised and the one upstream reaches the CONNECT target; the stream is then the tunnel to it |
| `Gate.SnapshotChain` | src/protocols/proxy.rs:78-90 | Any chain resolved from a snapshot of conforming upstreams conforms, whatever usernames were built for it |
| `Gate.DetectedHttp` | src/protocols/proxy.rs:815-849 | A request detected as plain HTTP has a first line, which does not start with CONNECT |
| `Gate.DetectedMeaning` | src/protocols/proxy.rs:815-849 | Byte 5 is SOCKS5, byte 4 SOCKS4, a request starting with CONNECT a tunnel, one starting with one of eight methods plain HTTP, and any other is unsupported |
| `Gate.HttpUsernameMeaning` | src/protocols/proxy.rs:1125-1136 | The username of a request is what its first credentials line decodes to, up to the first colon |
| `Gate.Socks4UserIdMeaning` | src/protocols/proxy.rs:1139-1145 | The user id of a SOCKS4 request is what stands between its address and the next NUL; an empty one is none |
| `Gate.Router.AuthenticateUser` | src/protocols/proxy.rs:851-903 | Succeeds if and only if the request's credentials, or without any its source address, belong to a user with allowance left, and returns that user's id |
| `Gate.Router.PasswordLogin` | src/protocols/proxy.rs:268-283 | Succeeds if and only if the base of the username and the password are a user's, with allowance left; the error tells a used-up allowance from a failed login |
| `Gate.Router.SelectionFor` | src/protocols/proxy.rs:786-813 | Tokens of the username if they select anything, else the stored default of the peer's account, else nothing |
| `Gate.Router.CheckBandwidth` | src/protocols/proxy.rs:1051-1066 | Passes if and only if there is no limit or something is left |
| `Gate.SameUsername` | src/protocols/proxy.rs:1125-1136 | Routing and authentication read the same username from an HTTP request |
| `Exits.ProxyServer.ResolveProxyChain` | src/protocols/proxy.rs:78-90 | A tag selection yields one upstream of the snapshot, the pinned one with a session, which honours every wanted dimension by tag or by outgoing username, and fails with NoMatchingUpstream if and only if none matches; a named chain yields its hops; every hop is an upstream of the snapshot with its built username |
| `Exits.ProxyServer.ResolveChainInner` | src/protocols/proxy.rs:97-119 | Precedence of chain, tags and global default; the pick is a matching upstream, the pinned one with a session |
| `Exits.ProxyServer.ResolveRef` | src/protocols/proxy.rs:140-192 | A label names one proxy before a chain id names its hops: all in order, or the wanted number of them without repetition; it fails if and only if a name is missing |
| `Exits.ProxyServer.ResolveGlobalChain` | src/protocols/proxy.rs:123-135 | The configured chain, else the first upstream |
| `Exits.ProxyServer.ReplaceUpstreams` | src/protocols/proxy.rs:69-73 | The snapshot becomes the static upstreams followed by the dynamic ones |
| `Exits.Shuffle` | src/protocols/proxy.rs:176-179 | Whatever the draws, a permutation |
| `Exits.MatchHonours` | src/routing.rs:80-102 | A matching upstream with its built username honours every wanted dimension; `type` only by its tag |
| `Exits.Candidates` | src/protocols/proxy.rs:109-115 | Exactly the matching upstreams of the snapshot |
| `Exits.MatchesMeaning` | src/routing.rs:80-102 | An upstream matches if and only if every wanted dimension has a tag that is one of the wanted values, character by character but for the case of ASCII letters, or (never for `type`) a prefix in its username |
| `Exits.CandidatesOne` | src/protocols/proxy.rs:109-115 | One upstream is its own only candidate if it matches, and otherwise there is none |
| `Exits.CandidatesConcat` | src/protocols/proxy.rs:109-115 | Candidates of two lists are the candidates of the first, then those of the second |
| `Exits.FirstByLabel` | src/protocols/proxy.rs:141-145 | The first upstream with a label is the one found |
| `Exits.FirstById` | src/protocols/proxy.rs:148-149 | The first chain with an id is the one found |
| `Exits.StickySurvivesRefreshes` | src/protocols/proxy.rs:69-73 | Over any run of refreshes that keeps the subsequence of matching upstreams, a session keeps its exit, built username included |
| `Hashing.Fnv1a` | src/routing.rs:208-215 | The loop computes the wrapping 64-bit FNV-1a fold |
| `Hashing.PickIndex` | src/routing.rs:194-205 | Always in range, none exactly when there is nothing to pick, pinned by the session |
| `Hashing.OneByteApart` | src/routing.rs:208-215 | Two sessions that differ in one byte have different hashes |
| `Hashing.KnownAnswers` | src/routing.rs:208-215 | The published FNV-1a values of the empty text and of the letter a |
| `Routing.ParseUsername` | src/routing.rs:109-155 | The two loops compute the grammar, and the unreachable arm is never reached |
| `Routing.KeyOfMeaning` | src/routing.rs:128-131 | The keys are seven words and no others |
| `Routing.CommaSetMeaning` | src/routing.rs:138-142 | A comma-separated list is its values in order, without empty ones |
| `Routing.GreedyChain` | src/routing.rs:132-136 | `chain` takes all that follows it as one name, dashes included |
| `Routing.EmptinessMeaning` | src/routing.rs:42-62 | A selection is empty if and only if nothing at all is selected, and only a session if and only if no dimension is wanted |
| `Routing.ErrorIff` | src/routing.rs:125-128 | Parsing fails if and only if a component at an even offset from the first key, before the first `chain` at such an offset, is not a key; the error names the first one |
| `Routing.UnknownKeyRefused` | src/routing.rs:126-128 | Any username with a plain base, a country token and then a word that is no key is refused, naming that word |
| `Routing.Meaning` | src/routing.rs:129-153 | Each dimension holds the comma-separated values of its last token, `session` its value, `chain` all that follows; an absent key changes nothing |
| `Routing.Lossless` | src/routing.rs:109-121 | Base components and token components, joined again, are the username |
| `Routing.BaseReparses` | src/routing.rs:112-121 | The base parses to itself with an empty selection |
| `Routing.BuildUsername` | src/routing.rs:162-190 | The base, then for each dimension with a prefix one chosen value, then the session; the choice is pinned by the session |
| `Routing.RoundTrip` | src/routing.rs:162-190 | Parsing a printed username gives back the base, the session, and in each printed dimension nothing or the one chosen value |
| `Routing.RoundTripIff` | src/routing.rs:112-121 | When anything is printed, the base comes back if and only if none of its components is a key |
| `Address.AddressRoundTrip` | src/config.rs:134-139 | Both last-colon parsers invert `host:port` for every host, colons included, and every port |
| `Address.ParseAddressMeaning` | src/protocols/chain.rs:270-280 | A text is read as an address if and only if it is the host, a colon, and a text writing the port |
| `Address.SplitHostPortMeaning` | src/protocols/proxy.rs:1112-1122 | The target parser also takes a text without a colon, as the host at the default port, and nothing else |
| `Address.ColonTargetMeaning` | src/protocols/https.rs:83-89 | The first-colon reader takes the host before the first colon, and the port between it and the next if it is valid, else the default |
| `Text.ParseU16Meaning` | src/protocols/proxy.rs:1112-1122 | A port is parsed if and only if the text is an optional plus, any zeros, and the decimal digits of a number below 65536 |
| `Address.ColonTargetAgrees` | src/protocols/https.rs:83-89 | First-colon and last-colon parsers agree on a target if and only if it has no colon, or one colon and a valid port |
| `Address.ColonTargetsDiffer` | src/protocols/https.rs:83-89 | A target where they differ: `a:1:2` |
| `Address.ConnectRoundTrip` | src/protocols/proxy.rs:1148-1159 | The CONNECT line emitted for a host without white space is read back as that host and port |
| `Wire.AuthRoundTrip` | src/protocols/chain.rs:109-114 | The inbound login decoder recovers what the client encoder wrote if and only if both parts fit 255 bytes |
| `Wire.DecodeAuth` | src/protocols/proxy.rs:247-274 | Decoding the fixed 513-byte buffer is decoding the bytes read, and no index passes the buffer |
| `Wire.AuthPrefixRejected` | src/protocols/proxy.rs:252-270 | Every proper prefix of an encoding is rejected |
| `Wire.AuthDecodedMeaning` | src/protocols/proxy.rs:252-274 | For every byte string, a login is accepted if and only if the string begins with its encoding and both parts fit 255 bytes |
| `Wire.AuthBufferTight` | src/protocols/proxy.rs:247-249 | 513 bytes are needed: the longest login fills them, and one byte less loses it |
| `Wire.Socks5RoundTrip` | src/protocols/proxy.rs:306-360 | The inbound request decoder inverts the client encoder if and only if the host fits 255 bytes |
| `Wire.Socks5Ipv4` | src/protocols/proxy.rs:318-326 | An IPv4 request names its four octets in order, in decimal between dots, and its port, whatever follows |
| `Wire.Socks5Domain` | src/protocols/proxy.rs:327-338 | A domain request names its host and port, whatever follows |
| `Wire.Socks5Ipv6` | src/protocols/proxy.rs:339-357 | An IPv6 request names its eight groups in order, in lower-case hexadecimal without leading zeros, between colons |
| `Wire.Socks5Refused` | src/protocols/proxy.rs:311-359 | Another version or address type is refused |
| `Wire.GreetingMeaning` | src/protocols/proxy.rs:212-234 | A greeting lists exactly the methods it counts |
| `Wire.Socks4ParsersAgree` | src/protocols/socks4.rs:52-86 | On a CONNECT request with a terminated user id the two parsers agree if and only if the address is outside 0.0.0.x, or is 0.0.0.1 with a domain, or the domain spells the address |
| `Wire.Socks4ParsersDiffer` | src/protocols/proxy.rs:1196-1226 | For every last octet but 1, a request to that 0.0.0.x address with the domain x is read as two different targets |
| `Wire.FrameTarget` | src/protocols/proxy.rs:1196-1226 | A whole request at the front of a stream has the target the multi-hop parser reads from all of it |
| `Wire.Socks4RoundTrip` | src/protocols/chain.rs:204-212 | Each SOCKS4 parser inverts the SOCKS4a encoder if and only if the host has no NUL, and for the single-hop one is not empty |
| `Wire.Socks4Plain` | src/protocols/proxy.rs:1196-1226 | Outside 0.0.0.x both parsers read the four octets in order, past any user id |
| `Wire.Socks4Named` | src/protocols/socks4.rs:66-82 | At 0.0.0.1 both parsers read the name after the user id, up to its NUL |
| `Wire.Socks4Refused` | src/protocols/socks4.rs:35-49 | Another version is refused, by the single-hop parser another command too, by the multi-hop one an unterminated user id |
| `Wire.ParseSocks4Target` | src/protocols/proxy.rs:1196-1226 | The index loops find the target of the multi-hop grammar |
| `Wire.ParseSocks4Direct` | src/protocols/socks4.rs:35-86 | The index loops find the target of the single-hop grammar, and stay in bounds |
| `HttpText.UserpassRoundTrip` | src/protocols/proxy.rs:881-883 | Credentials survive `username:password` if and only if neither part has a colon |
| `HttpText.PasswordCut` | src/protocols/proxy.rs:881-883 | Every password with a colon is cut at its first one |
| `HttpText.AuthLineIsBasic` | src/protocols/proxy.rs:859-876 | The credentials line sent to upstreams is recognised and decoded by the inbound side |
| `HttpText.BasicMeaning` | src/protocols/proxy.rs:859-862 | A credentials line is one whose first 27 characters are the header name and scheme, in any case |
| `HttpText.FirstBasic` | src/protocols/proxy.rs:859-862 | The first credentials line is the one read |
| `HttpText.ConnectRequestRoundTrip` | src/protocols/chain.rs:238-255 | The whole CONNECT head is read back: target and credentials, with nothing left over |
| `HttpText.ConnectBytes` | src/protocols/chain.rs:237-255 | The bytes of a CONNECT request: request line, Host line, credentials if configured, blank line |
| `HttpRewrite.OriginFormIdempotent` | src/protocols/proxy.rs:1074-1108 | Rewriting to origin form twice is rewriting once, for all byte strings |
| `HttpRewrite.OriginFormMeaning` | src/protocols/proxy.rs:1092-1107 | An absolute-form request keeps its method, path, version and all that follows; scheme and authority go, and an empty path becomes a slash |
| `HttpRewrite.OriginFormKeeps` | src/protocols/proxy.rs:1092-1097 | A request whose second word starts with neither scheme is returned unchanged |
| `HttpRewrite.OriginFormKeepsRest` | src/protocols/proxy.rs:1077-1090 | So is one without a line end, or with fewer than three words in its first line |
| `HttpRewrite.HostHeaderTarget` | src/protocols/proxy.rs:1182-1189 | The first line starting with `Host:` or `host:` is the one read, and its value, trimmed, is the host and port it spells out |
| `HttpRewrite.OriginKeepsTail` | src/protocols/proxy.rs:1105-1107 | Everything from the first CR LF on is kept |
| `HttpRewrite.RewriteKeepsTarget` | src/protocols/proxy.rs:1163-1193 | For an absolute-form request, the target is the same before and after the rewrite if and only if the first Host header leads to the endpoint of the URI authority, in particular when it names that authority |
| `HttpRewrite.RewriteForUpstream` | src/protocols/http.rs:42-71 | The header loop writes the first line, the upstream's credentials if it has any, and every other line |
| `HttpRewrite.RewriteMeaning` | src/protocols/http.rs:46-69 | Read back, the rewritten request is the original first line, the upstream's own credentials line if it has credentials, all other lines in order, and one more blank line; those credentials are the ones found, whatever the client sent |

## Left out

- TCP, tasks, timeouts, Nagle settings and DNS: streams are byte sequences, and connecting fails exactly when an address cannot be parsed or a hop refuses.
- PostgreSQL access, schema creation and the rows of src/upstreams.rs: only the debit statement is kept, as specification.
- src/main.rs, TOML parsing, the terminal display, log filtering, the log channel and the Prometheus endpoint: plumbing around the logic.
- `constant_time_eq` (src/auth.rs:338-348) is equality; its timing is not modelled.
- IEEE rounding of `bytes as f64 * cost`, non-finite or negative costs in the error bound, invalid UTF-8 and Unicode case folding.
- The per-user statistics map, `Selection::matches` (not called in production) and the string forms of protocols: easy members.
- Error texts: errors are their variants.
- Byte counts taken inside handshakes.
- HTTP CONNECT replies split over several reads, or followed at once by payload: the code makes one read, and the model states that replies come alone.
- Saturation of `i64` counters, and subtraction from a negative stored limit, which may leave 64 bits for limits near the minimum.
- `Metering.StaticAuthBackend.ReportUsage`: requires non-negative allowances for the same reason; the schedule lets the loop alone after finitely many attempts, so termination under eternal interference is not claimed.
- `Relay.ForwardedBelowLimit`: speaks of the in-memory backend; a database report has an await point, where the two directions of one connection may overlap.
- `Pump.RelayDirection`: one direction alone with reads and writes that succeed; failing and concurrent ones are in `Relay`.
- `Gate.Router.HandleConnection`: requires every upstream to conform to its protocol and to be able to carry the names it may be told (`ConformingUpstreams`, `Nameable`); what a misbehaving upstream does is not stated. The snapshot of upstreams does not change during the call.
- `Gate.Router.Socks5Handshake`: the greeting, login and request arrive in one piece each, and the replies between them are not kept; only the last reply of a handler is.
- `Tunnel.ConnectChain`: a hop that does not conform, or a name its protocol cannot carry, is outside the statement; such names are longer than 255 bytes for SOCKS5, hold a NUL for SOCKS4 or white space for HTTP.
- `Translate.HandleSocks4`: payload sent along with a request is followed to a SOCKS4 upstream only, because the code drops it for the others.
- `Metering.MeteringErrorBound`: requires a non-negative cost and no clamp in effect.
- `Stats.Listener.Finished`: this and the other methods of `Listener` run one at a time; their steps in every order are `Stats.ActiveAccounting`.
