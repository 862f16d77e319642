// Exit selection: matching upstreams against a selection and resolving a chain.
module Exits {
  import opened Wrappers
  import opened Text
  import opened Routing
  import opened Hashing

  datatype ProxyKind = Socks5 | Socks4 | Http | Https

  datatype Tags = Tags(
    country: Option<string>,
    state: Option<string>,
    city: Option<string>,
    isp: Option<string>,
    kind: Option<string>)
  {
    function Tag(key: Key): Option<string> {
      match key
      case Country => country
      case State => state
      case City => city
      case Isp => isp
      case Kind => kind
      case _ => None
    }
  }

  /** An upstream; `name` is its label. */
  datatype ProxyConfig = ProxyConfig(
    name: Option<string>,
    proxyType: ProxyKind,
    address: string,
    port: Option<U16>,
    username: Option<string>,
    password: Option<string>,
    tags: Tags,
    costPerByte: real,
    usernamePrefixes: Option<Prefixes>)

  datatype ChainMode = Strict | Random

  datatype ChainConfig = ChainConfig(chainId: string, proxies: seq<string>, mode: ChainMode, count: Option<nat>)

  predicate EqIgnoreAsciiCase(a: string, b: string) {
    Lower(a) == Lower(b)
  }

  predicate DimOk(wanted: seq<string>, tag: Option<string>) {
    wanted == [] || (tag.Some? && exists w :: w in wanted && EqIgnoreAsciiCase(w, tag.value))
  }

  predicate Templated(prefixes: Option<Prefixes>, key: Key) {
    prefixes.Some? && Name(key) in prefixes.value
  }

  predicate MatchesUpstream(sel: Selection, tags: Tags, prefixes: Option<Prefixes>) {
    && (Templated(prefixes, Country) || DimOk(sel.country, tags.country))
    && (Templated(prefixes, State) || DimOk(sel.state, tags.state))
    && (Templated(prefixes, City) || DimOk(sel.city, tags.city))
    && (Templated(prefixes, Isp) || DimOk(sel.isp, tags.isp))
    && DimOk(sel.kind, tags.kind)
  }

  predicate Matches(sel: Selection, p: ProxyConfig) {
    MatchesUpstream(sel, p.tags, p.usernamePrefixes)
  }

  /** The upstreams of a snapshot that match, in order. */
  function Candidates(sel: Selection, proxies: seq<ProxyConfig>): (r: seq<ProxyConfig>)
    ensures forall p :: p in r <==> p in proxies && Matches(sel, p)
  {
    if proxies == [] then []
    else (if Matches(sel, proxies[0]) then [proxies[0]] else []) + Candidates(sel, proxies[1..])
  }

  // ---- The exit serves what was asked ----

  /** The tag is one of the wanted values, but for the case of ASCII letters. */
  ghost predicate ServedByTag(tag: Option<string>, wanted: seq<string>) {
    tag.Some? && exists w :: w in wanted && SameText(w, tag.value)
  }

  lemma DimOkMeaning(wanted: seq<string>, tag: Option<string>)
    ensures DimOk(wanted, tag) <==> wanted == [] || ServedByTag(tag, wanted)
  {
    hide Lower, SameText;
    if tag.Some? {
      forall w | w in wanted
        ensures EqIgnoreAsciiCase(w, tag.value) <==> SameText(w, tag.value)
      {
        LowerMeaning(w, tag.value);
      }
    }
  }

  /**
   * An upstream matches exactly when each wanted dimension is served by its tag,
   * or has a prefix in its username, which `type` never has.
   */
  lemma MatchesMeaning(sel: Selection, p: ProxyConfig)
    ensures Matches(sel, p) <==>
              forall key :: key in [Country, State, City, Isp, Kind] && sel.Wanted(key) != [] ==>
                              || ServedByTag(p.tags.Tag(key), sel.Wanted(key))
                              || (key != Kind && p.usernamePrefixes.Some? && Name(key) in p.usernamePrefixes.value)
    ensures p.usernamePrefixes.None? ==>
              (Matches(sel, p) <==>
               forall key :: key in [Country, State, City, Isp, Kind] && sel.Wanted(key) != [] ==>
                               ServedByTag(p.tags.Tag(key), sel.Wanted(key)))
  {
    hide DimOk, ServedByTag, Name;
    forall key | key in [Country, State, City, Isp, Kind]
      ensures DimOk(sel.Wanted(key), p.tags.Tag(key)) <==>
                sel.Wanted(key) == [] || ServedByTag(p.tags.Tag(key), sel.Wanted(key))
    {
      DimOkMeaning(sel.Wanted(key), p.tags.Tag(key));
    }
    var keys := [Country, State, City, Isp, Kind];
    assert keys[0] in keys && keys[1] in keys && keys[2] in keys && keys[3] in keys && keys[4] in keys;
    assert DimOk(sel.country, p.tags.country) == DimOk(sel.Wanted(Country), p.tags.Tag(Country));
    assert DimOk(sel.state, p.tags.state) == DimOk(sel.Wanted(State), p.tags.Tag(State));
    assert DimOk(sel.city, p.tags.city) == DimOk(sel.Wanted(City), p.tags.Tag(City));
    assert DimOk(sel.isp, p.tags.isp) == DimOk(sel.Wanted(Isp), p.tags.Tag(Isp));
    assert DimOk(sel.kind, p.tags.kind) == DimOk(sel.Wanted(Kind), p.tags.Tag(Kind));
  }

  /** One upstream is its own candidate exactly when it matches. */
  lemma CandidatesOne(sel: Selection, p: ProxyConfig)
    ensures Candidates(sel, [p]) == if Matches(sel, p) then [p] else []
  {
    assert [p][1..] == [];
  }

  /**
   * The exit honours one dimension: its tag is a requested value (ignoring ASCII
   * case), or its outgoing username carries that dimension's prefix followed by
   * a requested value.
   */
  ghost predicate Honours(exit: ProxyConfig, sel: Selection, key: Key) {
    sel.Wanted(key) != [] ==>
      || ServedByTag(exit.tags.Tag(key), sel.Wanted(key))
      || (key != Kind && exit.username.Some?
          && exit.usernamePrefixes.Some? && Name(key) in exit.usernamePrefixes.value
          && exists w :: w in sel.Wanted(key)
                         && Contains(exit.username.value, exit.usernamePrefixes.value[Name(key)] + w))
  }

  ghost predicate HonoursAll(exit: ProxyConfig, sel: Selection) {
    forall key :: key in [Country, State, City, Isp, Kind] ==> Honours(exit, sel, key)
  }

  lemma ContainsExtend(s: string, part: string, before: string, after: string)
    requires Contains(s, part)
    ensures Contains(before + s + after, part)
  {
    var i: nat :| i <= |s| && PartAt(s, part, i);
    assert PartAt(before + s + after, part, |before| + i);
  }

  lemma EndsContain(before: string, part: string)
    ensures Contains(before + part, part)
  {
    assert PartAt(before + part, part, |before|);
  }

  lemma PrintedLast(base: string, prefixes: Prefixes, pairs: seq<Pair>)
    requires pairs != []
    ensures var init, last := pairs[..|pairs| - 1], pairs[|pairs| - 1];
            Printed(base, prefixes, pairs) == Printed(base, prefixes, init) + Piece(prefixes, last.0, last.1)
  {
  }

  lemma {:induction false} PrintedContains(base: string, prefixes: Prefixes, pairs: seq<Pair>, j: nat)
    requires j < |pairs| && Name(pairs[j].0) in prefixes
    ensures Contains(Printed(base, prefixes, pairs), prefixes[Name(pairs[j].0)] + pairs[j].1)
  {
    hide Name, Contains, Printed;
    var init, last := pairs[..|pairs| - 1], pairs[|pairs| - 1];
    var part := prefixes[Name(pairs[j].0)] + pairs[j].1;
    var before := Printed(base, prefixes, init);
    var after := Piece(prefixes, last.0, last.1);
    PrintedLast(base, prefixes, pairs);
    if j == |pairs| - 1 {
      EndsContain(before, part);
    } else {
      assert init[j] == pairs[j];
      PrintedContains(base, prefixes, init, j);
      ContainsExtend(before, part, "", after);
      assert "" + before + after == before + after;
    }
  }

  /** A wanted dimension is among the printed pairs. */
  lemma {:induction false} WantedIsChosen(sel: Selection, picks: seq<nat>, n: nat, d: nat) returns (j: nat)
    requires ValidPicks(sel, picks, n) && d < n && sel.Wanted(DIMS[d]) != []
    ensures picks[d] < |sel.Wanted(DIMS[d])|
    ensures j < |ChosenPairs(sel, picks, n)|
    ensures ChosenPairs(sel, picks, n)[j] == (DIMS[d], sel.Wanted(DIMS[d])[picks[d]])
  {
    hide Name;
    assert InRange(sel.Wanted(DIMS[d]), picks[d]);
    if d < n - 1 {
      j := WantedIsChosen(sel, picks, n - 1, d);
      assert ChosenPairs(sel, picks, n - 1) <= ChosenPairs(sel, picks, n);
    } else {
      j := |ChosenPairs(sel, picks, n)| - 1;
    }
  }

  lemma TemplatedHonours(exit: ProxyConfig, base: string, sel: Selection, picks: seq<nat>, d: nat)
    requires d < 4 && ValidPicks(sel, picks, 4)
    requires Templated(exit.usernamePrefixes, DIMS[d])
    requires exit.username == Some(Printed(base, exit.usernamePrefixes.value, AllPairs(sel, picks)))
    ensures Honours(exit, sel, DIMS[d])
  {
    hide Name, Printed, Contains;
    var key := DIMS[d];
    if sel.Wanted(key) != [] {
      var j := WantedIsChosen(sel, picks, 4, d);
      var some := ChosenPairs(sel, picks, 4);
      var w := sel.Wanted(key)[picks[d]];
      assert AllPairs(sel, picks)[j] == some[j];
      PrintedContains(base, exit.usernamePrefixes.value, AllPairs(sel, picks), j);
      assert w in sel.Wanted(key);
    }
  }

  /** `p` with the username the printer builds for it, if it has prefixes. */
  ghost predicate Outfitted(p: ProxyConfig, exit: ProxyConfig, sel: Selection) {
    if p.usernamePrefixes.None? then exit == p
    else
      exists picks: seq<nat> :: OutfittedBy(p, exit, sel, picks)
  }

  ghost predicate OutfittedBy(p: ProxyConfig, exit: ProxyConfig, sel: Selection, picks: seq<nat>)
    requires p.usernamePrefixes.Some?
  {
    && exit.username.Some? && exit == p.(username := exit.username)
    && Prints(BaseName(p), p.usernamePrefixes.value, sel, picks, exit.username.value)
  }

  function BaseName(p: ProxyConfig): (base: string)
    ensures p.username == Some(base) || (p.username.None? && base == "")
  {
    if p.username.Some? then p.username.value else ""
  }

  lemma MatchHonours(p: ProxyConfig, exit: ProxyConfig, sel: Selection)
    requires Matches(sel, p) && Outfitted(p, exit, sel)
    ensures HonoursAll(exit, sel)
  {
    hide Name, Printed, AllPairs, Contains, EqIgnoreAsciiCase, ServedByTag;
    forall key | key in [Country, State, City, Isp, Kind]
      ensures Honours(exit, sel, key)
    {
      if key != Kind && Templated(p.usernamePrefixes, key) {
        var picks: seq<nat> :| OutfittedBy(p, exit, sel, picks);
        var d := if key == Country then 0 else if key == State then 1 else if key == City then 2 else 3;
        assert key == DIMS[d];
        TemplatedHonours(exit, BaseName(p), sel, picks, d);
      } else {
        assert DimOk(sel.Wanted(key), p.tags.Tag(key));
        DimOkMeaning(sel.Wanted(key), p.tags.Tag(key));
      }
    }
  }

  /** The hop is an upstream of the snapshot with the username built for the selection. */
  ghost predicate FromSnapshot(proxies: seq<ProxyConfig>, hop: ProxyConfig, sel: Selection) {
    exists p :: p in proxies && Outfitted(p, hop, sel)
  }

  /**
   * What a selection resolves to. Tags yield exactly one upstream of the snapshot,
   * which honours every wanted dimension and is the pinned one with a session, and
   * fail exactly when no upstream matches; a name yields its hops; otherwise the
   * global default does.
   */
  ghost predicate Resolves(
    proxies: seq<ProxyConfig>, chains: Option<seq<ChainConfig>>, globalChain: Option<string>,
    sel: Selection, r: Result<seq<ProxyConfig>, ProxyError>)
  {
    if sel.chain.Some? then
      exists inner :: RefResolved(proxies, chains, sel.chain.value, inner) && AllOutfitted(inner, r, sel)
    else if !sel.OnlySession() then
      && (r.Err? <==> forall p :: p in proxies ==> !Matches(sel, p))
      && (r.Err? ==> r.error == NoMatchingUpstream)
      && (r.Ok? ==>
            && |r.value| == 1
            && HonoursAll(r.value[0], sel)
            && exists p :: p in proxies && Matches(sel, p) && Outfitted(p, r.value[0], sel))
      && (r.Ok? && sel.session.Some? ==> Some(r.value[0]) == StickyExit(sel, proxies))
    else if globalChain.Some? then
      exists inner :: RefResolved(proxies, chains, globalChain.value, inner) && AllOutfitted(inner, r, sel)
    else
      AllOutfitted(if proxies == [] then Err(ProxyError.Protocol) else Ok([proxies[0]]), r, sel)
  }

  lemma RefHops(
    proxies: seq<ProxyConfig>, chains: Option<seq<ChainConfig>>, name: string, r: Result<seq<ProxyConfig>, ProxyError>)
    requires RefResolved(proxies, chains, name, r) && r.Ok?
    ensures forall hop :: hop in r.value ==> hop in proxies
  {
    if ByLabel(proxies, name).None? {
      var chain := ById(if chains.Some? then chains.value else [], name).value;
      var hops := ByLabels(proxies, chain.proxies).value;
      forall hop | hop in r.value
        ensures hop in hops
      {
        assert multiset(r.value)[hop] <= multiset(hops)[hop];
      }
    }
  }

  // ---- The server ----

  /** `r` is what a label or chain id may resolve to. */
  ghost predicate RefResolved(
    proxies: seq<ProxyConfig>, chains: Option<seq<ChainConfig>>, name: string, r: Result<seq<ProxyConfig>, ProxyError>)
  {
    match ByLabel(proxies, name)
    case Some(p) => r == Ok([p])
    case None =>
      match ById(if chains.Some? then chains.value else [], name)
      case None => r == Err(ProxyError.Protocol)
      case Some(chain) =>
        match ByLabels(proxies, chain.proxies)
        case None => r == Err(ProxyError.Protocol)
        case Some(hops) =>
          if chain.mode == Strict then r == Ok(hops) else RandomHops(hops, chain.count, r)
  }

  /**
   * A random chain takes `count` of its hops, or one without a count. An empty
   * chain without a count panics in its task, which the caller sees as a protocol error.
   */
  ghost predicate RandomHops(hops: seq<ProxyConfig>, count: Option<nat>, r: Result<seq<ProxyConfig>, ProxyError>) {
    if count.None? && hops == [] then r == Err(ProxyError.Protocol)
    else
      && r.Ok?
      && |r.value| == (if count.None? then 1 else if count.value < |hops| then count.value else |hops|)
      && multiset(r.value) <= multiset(hops)
  }

  function ByLabel(proxies: seq<ProxyConfig>, name: string): (r: Option<ProxyConfig>)
    ensures r.None? <==> forall p :: p in proxies ==> p.name != Some(name)
    ensures r.Some? ==> r.value in proxies && r.value.name == Some(name)
  {
    if proxies == [] then None
    else if proxies[0].name == Some(name) then Some(proxies[0])
    else ByLabel(proxies[1..], name)
  }

  function ById(chains: seq<ChainConfig>, name: string): (r: Option<ChainConfig>)
    ensures r.None? <==> forall c :: c in chains ==> c.chainId != name
    ensures r.Some? ==> r.value in chains && r.value.chainId == name
  {
    if chains == [] then None
    else if chains[0].chainId == name then Some(chains[0])
    else ById(chains[1..], name)
  }

  /** The first upstream with a label, and the first chain with an id, are the ones found. */
  lemma {:induction false} FirstByLabel(proxies: seq<ProxyConfig>, i: nat, name: string)
    requires i < |proxies| && proxies[i].name == Some(name)
    requires forall j :: 0 <= j < i ==> proxies[j].name != Some(name)
    ensures ByLabel(proxies, name) == Some(proxies[i])
  {
    if i > 0 {
      FirstByLabel(proxies[1..], i - 1, name);
    }
  }

  lemma {:induction false} FirstById(chains: seq<ChainConfig>, i: nat, name: string)
    requires i < |chains| && chains[i].chainId == name
    requires forall j :: 0 <= j < i ==> chains[j].chainId != name
    ensures ById(chains, name) == Some(chains[i])
  {
    if i > 0 {
      FirstById(chains[1..], i - 1, name);
    }
  }

  /** The proxies of a chain by label; None when one is missing. */
  function ByLabels(proxies: seq<ProxyConfig>, labels: seq<string>): (r: Option<seq<ProxyConfig>>)
    ensures r.Some? ==> |r.value| == |labels|
    ensures r.None? <==> exists j :: 0 <= j < |labels| && ByLabel(proxies, labels[j]).None?
    ensures r.Some? ==> forall j :: 0 <= j < |labels| ==> Some(r.value[j]) == ByLabel(proxies, labels[j])
  {
    if labels == [] then Some([])
    else
      var last := ByLabel(proxies, labels[|labels| - 1]);
      var init := ByLabels(proxies, labels[..|labels| - 1]);
      if last.Some? && init.Some? then Some(init.value + [last.value]) else None
  }

  class ProxyServer {
    var proxy: seq<ProxyConfig>
    const chains: Option<seq<ChainConfig>>
    const globalChain: Option<string>

    constructor (proxies: seq<ProxyConfig>, chains: Option<seq<ChainConfig>>, globalChain: Option<string>)
      ensures proxy == proxies && this.chains == chains && this.globalChain == globalChain
    {
      this.proxy, this.chains, this.globalChain := proxies, chains, globalChain;
    }

    method ReplaceUpstreams(staticUpstreams: seq<ProxyConfig>, dynamic: seq<ProxyConfig>)
      modifies this`proxy
      ensures proxy == staticUpstreams + dynamic
    {
      var merged := staticUpstreams;
      merged := merged + dynamic;
      proxy := merged;
    }

    /** The chain of a connection, every hop of it from the snapshot. */
    method ResolveProxyChain(sel: Selection) returns (r: Result<seq<ProxyConfig>, ProxyError>)
      ensures Resolves(proxy, chains, globalChain, sel, r)
      ensures r.Ok? ==> forall hop :: hop in r.value ==> FromSnapshot(proxy, hop, sel)
    {
      hide RefResolved, RandomHops, Honours, HonoursAll, Outfitted, Matches;
      var inner := ResolveChainInner(sel);
      if inner.Err? {
        return inner;
      }
      var chain := FillUsernames(inner.value, sel);
      r := Ok(chain);
      if sel.chain.None? && !sel.OnlySession() {
        MatchHonours(inner.value[0], chain[0], sel);
      } else if sel.chain.Some? {
        RefHops(proxy, chains, sel.chain.value, inner);
      } else if globalChain.Some? {
        RefHops(proxy, chains, globalChain.value, inner);
      }
      forall hop | hop in chain
        ensures FromSnapshot(proxy, hop, sel)
      {
        var j :| 0 <= j < |chain| && chain[j] == hop;
        assert inner.value[j] in proxy && Outfitted(inner.value[j], hop, sel);
      }
    }

    /** The resolution before usernames are filled in. */
    method ResolveChainInner(sel: Selection) returns (r: Result<seq<ProxyConfig>, ProxyError>)
      ensures sel.chain.Some? ==> RefResolved(proxy, chains, sel.chain.value, r)
      ensures sel.chain.None? && !sel.OnlySession() ==>
                var all := Candidates(sel, proxy);
                if all == [] then r == Err(NoMatchingUpstream)
                else
                  && r.Ok? && |r.value| == 1 && r.value[0] in all
                  && (sel.session.Some? ==> r.value[0] == all[StickyIndex(sel.session.value, |all|)])
      ensures sel.chain.None? && sel.OnlySession() ==>
                if globalChain.Some? then RefResolved(proxy, chains, globalChain.value, r)
                else r == if proxy == [] then Err(ProxyError.Protocol) else Ok([proxy[0]])
    {
      if sel.chain.Some? {
        r := ResolveRef(sel.chain.value);
        return;
      }
      if !sel.OnlySession() {
        var candidates := Candidates(sel, proxy);
        var idx := PickIndex(|candidates|, sel.session);
        if idx.None? {
          return Err(NoMatchingUpstream);
        }
        return Ok([candidates[idx.value]]);
      }
      r := ResolveGlobalChain();
    }

    method ResolveGlobalChain() returns (r: Result<seq<ProxyConfig>, ProxyError>)
      ensures if globalChain.Some? then RefResolved(proxy, chains, globalChain.value, r)
              else r == if proxy == [] then Err(ProxyError.Protocol) else Ok([proxy[0]])
    {
      if globalChain.Some? {
        r := ResolveRef(globalChain.value);
        return;
      }
      r := if proxy == [] then Err(ProxyError.Protocol) else Ok([proxy[0]]);
    }

    /** A label names one proxy; a chain id names its hops, in order or a random few. */
    method ResolveRef(name: string) returns (r: Result<seq<ProxyConfig>, ProxyError>)
      ensures RefResolved(proxy, chains, name, r)
    {
      var single := ByLabel(proxy, name);
      if single.Some? {
        return Ok([single.value]);
      }
      var chain := ById(if chains.Some? then chains.value else [], name);
      if chain.None? {
        return Err(ProxyError.Protocol);
      }
      var labels := chain.value.proxies;
      var hops: seq<ProxyConfig> := [];
      for i := 0 to |labels|
        invariant ByLabels(proxy, labels[..i]) == Some(hops)
      {
        var p := ByLabel(proxy, labels[i]);
        assert labels[..i + 1][..i] == labels[..i];
        if p.None? {
          return Err(ProxyError.Protocol);
        }
        hops := hops + [p.value];
      }
      assert labels[..|labels|] == labels;
      if chain.value.mode == Strict {
        return Ok(hops);
      }
      r := PickHops(hops, chain.value.count);
    }
  }

  /** Some permutation of `s`. */
  method Shuffle(s: seq<ProxyConfig>) returns (r: seq<ProxyConfig>)
    ensures |r| == |s| && multiset(r) == multiset(s)
  {
    r := s;
    var i := |s|;
    while i > 1
      invariant |r| == |s| && multiset(r) == multiset(s)
    {
      i := i - 1;
      var j: nat :| j <= i;
      r := r[i := r[j]][j := r[i]];
    }
  }

  method PickHops(hops: seq<ProxyConfig>, count: Option<nat>) returns (r: Result<seq<ProxyConfig>, ProxyError>)
    ensures RandomHops(hops, count, r)
  {
    var shuffled := Shuffle(hops);
    match count {
      case Some(n) =>
        var keep := if n < |hops| then n else |hops|;
        assert shuffled == shuffled[..keep] + shuffled[keep..];
        r := Ok(shuffled[..keep]);
      case None =>
        if shuffled == [] {
          return Err(ProxyError.Protocol);
        }
        assert shuffled == [shuffled[0]] + shuffled[1..];
        r := Ok([shuffled[0]]);
    }
  }

  /** Fill in the per-connection usernames. */
  method FillUsernames(hops: seq<ProxyConfig>, sel: Selection) returns (chain: seq<ProxyConfig>)
    ensures |chain| == |hops|
    ensures forall j :: 0 <= j < |hops| ==> Outfitted(hops[j], chain[j], sel)
    ensures forall j :: 0 <= j < |hops| && sel.session.Some? ==> chain[j] == Fitted(hops[j], sel)
  {
    hide Printed, AllPairs, StickyPicks;
    chain := hops;
    for i := 0 to |chain|
      invariant |chain| == |hops|
      invariant forall j :: 0 <= j < i ==> Outfitted(hops[j], chain[j], sel)
      invariant forall j :: 0 <= j < i && sel.session.Some? ==> chain[j] == Fitted(hops[j], sel)
      invariant forall j :: i <= j < |chain| ==> chain[j] == hops[j]
    {
      var p := chain[i];
      match p.usernamePrefixes {
        case Some(prefixes) =>
          var out := BuildUsername(BaseName(p), prefixes, sel);
          ghost var picks: seq<nat> :| Prints(BaseName(p), prefixes, sel, picks, out);
          chain := chain[i := p.(username := Some(out))];
          assert OutfittedBy(p, chain[i], sel, picks);
          StickyPicksAgree(sel, picks);
        case None =>
      }
    }
  }

  ghost predicate AllOutfitted(
    inner: Result<seq<ProxyConfig>, ProxyError>, r: Result<seq<ProxyConfig>, ProxyError>, sel: Selection)
  {
    match inner
    case Err(e) => r == Err(e)
    case Ok(hops) =>
      r.Ok? && |r.value| == |hops| && forall j :: 0 <= j < |hops| ==> Outfitted(hops[j], r.value[j], sel)
  }

  // ---- Sticky sessions ----

  function StickyPicks(sel: Selection, session: string): (picks: seq<nat>)
    ensures ValidPicks(sel, picks, 4)
  {
    [StickyPick(session, sel.country), StickyPick(session, sel.state),
     StickyPick(session, sel.city), StickyPick(session, sel.isp)]
  }

  /** The upstream as a session sees it. */
  function Fitted(p: ProxyConfig, sel: Selection): ProxyConfig
    requires sel.session.Some?
  {
    if p.usernamePrefixes.None? then p
    else
      p.(username := Some(Printed(BaseName(p), p.usernamePrefixes.value,
                                  AllPairs(sel, StickyPicks(sel, sel.session.value)))))
  }

  lemma StickyPicksAgree(sel: Selection, picks: seq<nat>)
    requires ValidPicks(sel, picks, 4) && Sticky(sel, picks, 4)
    ensures sel.session.Some? ==>
              AllPairs(sel, picks) == AllPairs(sel, StickyPicks(sel, sel.session.value))
  {
    if sel.session.Some? {
      assert picks[0] == StickyPick(sel.session.value, sel.Wanted(DIMS[0]));
      assert picks[1] == StickyPick(sel.session.value, sel.Wanted(DIMS[1]));
      assert picks[2] == StickyPick(sel.session.value, sel.Wanted(DIMS[2]));
      assert picks[3] == StickyPick(sel.session.value, sel.Wanted(DIMS[3]));
      SamePairs(sel, StickyPicks(sel, sel.session.value), picks, 4);
    }
  }

  /** The exit a session is pinned to in a snapshot. */
  function StickyExit(sel: Selection, proxies: seq<ProxyConfig>): (r: Option<ProxyConfig>)
    requires sel.session.Some?
  {
    var all := Candidates(sel, proxies);
    if all == [] then None
    else Some(Fitted(all[StickyIndex(sel.session.value, |all|)], sel))
  }

  lemma {:induction false} CandidatesConcat(sel: Selection, a: seq<ProxyConfig>, b: seq<ProxyConfig>)
    ensures Candidates(sel, a + b) == Candidates(sel, a) + Candidates(sel, b)
  {
    if a == [] {
      assert a + b == b;
    } else {
      assert (a + b)[1..] == a[1..] + b;
      CandidatesConcat(sel, a[1..], b);
    }
  }

  /**
   * Over any run of refreshes that leaves the matching dynamic upstreams as they
   * were, a session keeps its exit, whatever else is added, removed or reordered
   * around them.
   */
  lemma StickySurvivesRefreshes(sel: Selection, statics: seq<ProxyConfig>, refreshes: seq<seq<ProxyConfig>>)
    requires sel.session.Some? && refreshes != []
    requires forall i :: 0 < i < |refreshes| ==>
                           Candidates(sel, refreshes[i]) == Candidates(sel, refreshes[i - 1])
    ensures forall i :: 0 <= i < |refreshes| ==>
                          StickyExit(sel, statics + refreshes[i]) == StickyExit(sel, statics + refreshes[0])
  {
    forall i | 0 <= i < |refreshes|
      ensures StickyExit(sel, statics + refreshes[i]) == StickyExit(sel, statics + refreshes[0])
    {
      SameAsFirst(sel, refreshes, i);
      CandidatesConcat(sel, statics, refreshes[i]);
      CandidatesConcat(sel, statics, refreshes[0]);
    }
  }

  lemma {:induction false} SameAsFirst(sel: Selection, refreshes: seq<seq<ProxyConfig>>, i: nat)
    requires i < |refreshes|
    requires forall i :: 0 < i < |refreshes| ==>
                           Candidates(sel, refreshes[i]) == Candidates(sel, refreshes[i - 1])
    ensures Candidates(sel, refreshes[i]) == Candidates(sel, refreshes[0])
  {
    if i > 0 {
      SameAsFirst(sel, refreshes, i - 1);
    }
  }
}
