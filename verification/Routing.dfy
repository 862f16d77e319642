// The username-token grammar: parser and printer of routing selections.
module Routing {
  import opened Wrappers
  import opened Text
  import opened Hashing

  /** The recognised routing keys. */
  datatype Key = Country | State | City | Isp | Kind | Session | Chain

  function Name(key: Key): string {
    match key
    case Country => "country"
    case State => "state"
    case City => "city"
    case Isp => "isp"
    case Kind => "type"
    case Session => "session"
    case Chain => "chain"
  }

  function KeyOf(s: string): Option<Key> {
    if s == "country" then Some(Country)
    else if s == "state" then Some(State)
    else if s == "city" then Some(City)
    else if s == "isp" then Some(Isp)
    else if s == "type" then Some(Kind)
    else if s == "session" then Some(Session)
    else if s == "chain" then Some(Chain)
    else None
  }

  lemma KeyNames(key: Key)
    ensures KeyOf(Name(key)) == Some(key)
    ensures '-' !in Name(key) && Name(key) != ""
  {
    assert |"country"| == 7 && |"state"| == 5 && |"city"| == 4 && |"isp"| == 3;
    assert |"type"| == 4 && |"session"| == 7 && |"chain"| == 5;
    assert "city"[0] == 'c' && "type"[0] == 't' && "country"[0] == 'c';
    assert "session"[0] == 's' && "state"[0] == 's' && "chain"[0] == 'c';
  }

  /** The keys are these words, and no others. */
  lemma KeyOfMeaning(s: string)
    ensures KeyOf(s).Some? <==> s in ["country", "state", "city", "isp", "type", "session", "chain"]
    ensures forall key :: KeyOf(s) == Some(key) <==> s == Name(key)
  {
    var words := ["country", "state", "city", "isp", "type", "session", "chain"];
    assert words[0] == "country" && words[1] == "state" && words[2] == "city" && words[3] == "isp";
    assert words[4] == "type" && words[5] == "session" && words[6] == "chain";
    hide KeyOf, Name;
    KeyOfNames(s);
    forall key
      ensures KeyOf(s) == Some(key) <==> s == Name(key)
    {
      KeyNames(key);
      if KeyOf(s).Some? {
        NameOfKey(s);
      }
    }
  }

  lemma NameOfKey(s: string)
    requires KeyOf(s).Some?
    ensures Name(KeyOf(s).value) == s
  {
  }

  lemma KeyOfNames(s: string)
    ensures KeyOf(s).Some? <==>
              || s == "country" || s == "state" || s == "city" || s == "isp"
              || s == "type" || s == "session" || s == "chain"
  {
  }

  /** The sets of wanted values; an empty set leaves its dimension unconstrained. */
  datatype Selection = Selection(
    country: seq<string>,
    state: seq<string>,
    city: seq<string>,
    isp: seq<string>,
    kind: seq<string>,
    session: Option<string>,
    chain: Option<string>)
  {
    predicate OnlySession() {
      country == [] && state == [] && city == [] && isp == [] && kind == []
    }

    predicate IsEmpty() {
      OnlySession() && session.None? && chain.None?
    }

    /** The values wanted in a tag dimension. */
    function Wanted(key: Key): seq<string> {
      match key
      case Country => country
      case State => state
      case City => city
      case Isp => isp
      case Kind => kind
      case Session => []
      case Chain => []
    }
  }

  const NO_SELECTION := Selection([], [], [], [], [], None, None)

  datatype RoutingError = UnknownKey(key: string)

  datatype Username = Username(base: string, selection: Selection)

  function NonEmpty(values: seq<string>): (r: seq<string>)
    ensures forall v :: v in r <==> v in values && v != ""
  {
    if values == [] then []
    else (if values[0] == "" then [] else [values[0]]) + NonEmpty(values[1..])
  }

  function CommaSet(value: string): seq<string> {
    NonEmpty(Split(value, ','))
  }

  function Filled(value: string): (r: Option<string>)
    ensures r == None <==> value == ""
    ensures r.Some? ==> r.value == value
  {
    if value == "" then None else Some(value)
  }

  function Assigned(sel: Selection, key: Key, value: string): Selection {
    match key
    case Country => sel.(country := CommaSet(value))
    case State => sel.(state := CommaSet(value))
    case City => sel.(city := CommaSet(value))
    case Isp => sel.(isp := CommaSet(value))
    case Kind => sel.(kind := CommaSet(value))
    case Session => sel.(session := Filled(value))
    case Chain => sel
  }

  /** Where the base ends: the first key, from `i` on, that has a component after it. */
  function KeyStart(parts: seq<string>, i: nat): (k: nat)
    requires i <= |parts|
    ensures i <= k <= |parts|
    ensures forall j :: i <= j < k && j + 1 < |parts| ==> KeyOf(parts[j]).None?
    ensures k < |parts| ==> KeyOf(parts[k]).Some? && k + 1 < |parts|
    decreases |parts| - i
  {
    if i == |parts| then i
    else if KeyOf(parts[i]).Some? && i + 1 < |parts| then i
    else KeyStart(parts, i + 1)
  }

  function ValueAt(parts: seq<string>, i: nat): (value: string)
    ensures i + 1 < |parts| ==> value == parts[i + 1]
    ensures i + 1 >= |parts| ==> value == ""
  {
    if i + 1 < |parts| then parts[i + 1] else ""
  }

  function Tokens(parts: seq<string>, i: nat, sel: Selection): Result<Selection, RoutingError>
    decreases |parts| - i
  {
    if i >= |parts| then Ok(sel)
    else
      match KeyOf(parts[i])
      case None => Err(UnknownKey(parts[i]))
      case Some(Chain) => Ok(sel.(chain := Filled(Join(parts[i + 1..], '-'))))
      case Some(key) => Tokens(parts, i + 2, Assigned(sel, key, ValueAt(parts, i)))
  }

  function Parsed(username: string): Result<Username, RoutingError> {
    var parts := Split(username, '-');
    var k := KeyStart(parts, 0);
    match Tokens(parts, k, NO_SELECTION)
    case Err(e) => Err(e)
    case Ok(sel) => Ok(Username(Join(parts[..k], '-'), sel))
  }

  method ParseUsername(username: string) returns (r: Result<Username, RoutingError>)
    ensures r == Parsed(username)
  {
    hide KeyOf, Split, Join, CommaSet, Filled;
    var parts := Split(username, '-');
    var keyStart := |parts|;
    for i := 0 to |parts|
      invariant keyStart == |parts|
      invariant KeyStart(parts, 0) == KeyStart(parts, i)
    {
      if KeyOf(parts[i]).Some? && i + 1 < |parts| {
        keyStart := i;
        break;
      }
    }
    var base := Join(parts[..keyStart], '-');
    var sel := NO_SELECTION;
    var i := keyStart;
    while i < |parts|
      invariant keyStart <= i
      invariant Tokens(parts, keyStart, NO_SELECTION) == Tokens(parts, i, sel)
    {
      var key := KeyOf(parts[i]);
      if key.None? {
        return Err(UnknownKey(parts[i]));
      }
      if key.value == Chain {
        sel := sel.(chain := Filled(Join(parts[i + 1..], '-')));
        return Ok(Username(base, sel));
      }
      var value := ValueAt(parts, i);
      match key.value {
        case Country => sel := sel.(country := CommaSet(value));
        case State => sel := sel.(state := CommaSet(value));
        case City => sel := sel.(city := CommaSet(value));
        case Isp => sel := sel.(isp := CommaSet(value));
        case Kind => sel := sel.(kind := CommaSet(value));
        case Session => sel := sel.(session := Filled(value));
        case Chain => assert false;
      }
      i := i + 2;
    }
    r := Ok(Username(base, sel));
  }

  /** A selection is empty when nothing is selected, and only a session when no dimension is wanted. */
  lemma EmptinessMeaning(sel: Selection)
    ensures sel.IsEmpty() <==> sel == NO_SELECTION
    ensures sel.OnlySession() <==> forall key :: sel.Wanted(key) == []
  {
    if forall key :: sel.Wanted(key) == [] {
      assert sel.Wanted(Country) == [] && sel.Wanted(State) == [] && sel.Wanted(City) == [];
      assert sel.Wanted(Isp) == [] && sel.Wanted(Kind) == [];
    }
  }

  lemma {:induction false} NonEmptyKeeps(values: seq<string>)
    requires forall v :: v in values ==> v != ""
    ensures NonEmpty(values) == values
  {
    if values != [] {
      assert values[0] in values && forall v :: v in values[1..] ==> v in values;
      NonEmptyKeeps(values[1..]);
      assert values == [values[0]] + values[1..];
    }
  }

  lemma {:induction false} NonEmptyConcat(a: seq<string>, b: seq<string>)
    ensures NonEmpty(a + b) == NonEmpty(a) + NonEmpty(b)
    ensures NonEmpty([""]) == []
  {
    assert [""][1..] == [];
    if a == [] {
      assert a + b == b;
    } else {
      assert (a + b)[1..] == a[1..] + b;
      NonEmptyConcat(a[1..], b);
    }
  }

  /** A comma-separated list is its values, in order, without the empty ones. */
  lemma CommaSetMeaning(values: seq<string>)
    requires forall v :: v in values ==> v != "" && ',' !in v
    ensures values != [] ==> CommaSet(Join(values, ',')) == values
    ensures CommaSet("") == []
    ensures values != [] ==> CommaSet(Join([""] + values + [""], ',')) == values
  {
    hide NonEmpty, Split, Join;
    NonEmptyKeeps(values);
    NonEmptyConcat([""], values);
    NonEmptyConcat([""] + values, [""]);
    SplitWhole("", ',');
    if values != [] {
      SplitJoin(values, ',');
      var padded := [""] + values + [""];
      assert forall v :: v in padded ==> v == "" || v in values;
      SplitJoin(padded, ',');
      assert [] + values + [] == values;
    }
  }

  lemma SplitConcat(a: string, b: string)
    ensures Split(a + "-" + b, '-') == Split(a, '-') + Split(b, '-')
  {
    hide Split, Join;
    var x, y := Split(a, '-'), Split(b, '-');
    JoinSplit(a, '-');
    JoinSplit(b, '-');
    JoinConcat(x, y, '-');
    assert a + ['-'] + b == a + "-" + b;
    SplitJoin(x + y, '-');
  }

  /** `chain` takes all that follows it as one name, dashes included. */
  lemma GreedyChain(base: string, name: string)
    requires forall p :: p in Split(base, '-') ==> KeyOf(p).None?
    requires name != ""
    ensures Parsed(base + "-" + ("chain" + "-" + name)) == Ok(Username(base, NO_SELECTION.(chain := Some(name))))
  {
    hide KeyOf, Split, Join, Name;
    KeyNames(Chain);
    ChainWord();
    var front, rest := Split(base, '-'), Split(name, '-');
    SplitConcat(base, "chain" + "-" + name);
    SplitConcat("chain", name);
    SplitWhole("chain", '-');
    var parts := front + (["chain"] + rest);
    assert forall j :: 0 <= j < |front| ==> parts[j] == front[j] && front[j] in front;
    assert parts[|front|] == "chain" && KeyOf(parts[|front|]) == Some(Chain);
    KeyStartIs(parts, |front|);
    assert parts[..|front|] == front && parts[|front| + 1..] == rest;
    JoinSplit(base, '-');
    JoinSplit(name, '-');
    assert Split(base + "-" + ("chain" + "-" + name), '-') == parts;
    assert Tokens(parts, |front|, NO_SELECTION) == Ok(NO_SELECTION.(chain := Filled(Join(rest, '-'))));
  }

  lemma ChainWord()
    ensures Name(Chain) == "chain"
  {
  }

  // ---- What the tokens mean ----

  /** Position `j` holds a key: an even offset from the first one, no `chain` before it. */
  ghost predicate Live(parts: seq<string>, i: nat, j: nat) {
    && i <= j < |parts|
    && (j - i) % 2 == 0
    && forall m :: i <= m < j && (m - i) % 2 == 0 ==> KeyOf(parts[m]) != Some(Chain)
  }

  ghost predicate LastOf(parts: seq<string>, i: nat, j: nat, key: Key) {
    && Live(parts, i, j)
    && KeyOf(parts[j]) == Some(key)
    && forall m: nat :: j < m && Live(parts, i, m) ==> KeyOf(parts[m]) != Some(key)
  }

  ghost predicate LiveAfter(parts: seq<string>, i: nat, j: nat) {
    i < |parts| && KeyOf(parts[i]) != Some(Chain) && i + 2 <= j && Live(parts, i + 2, j)
  }

  lemma LiveStep(parts: seq<string>, i: nat, j: nat)
    requires i < j
    ensures Live(parts, i, j) <==> LiveAfter(parts, i, j)
  {
    if LiveAfter(parts, i, j) {
      forall m | i <= m < j && (m - i) % 2 == 0
        ensures KeyOf(parts[m]) != Some(Chain)
      {
        if m > i {
          assert m >= i + 2 && (m - (i + 2)) % 2 == 0;
        }
      }
    }
  }

  /** Parsing fails exactly when a key position does not hold a key, and names the first such. */
  lemma {:induction false} ErrorIff(parts: seq<string>, i: nat, sel: Selection)
    requires i <= |parts|
    ensures Tokens(parts, i, sel).Err? <==> exists j: nat :: Live(parts, i, j) && KeyOf(parts[j]).None?
    ensures forall j: nat :: Live(parts, i, j) && KeyOf(parts[j]).None?
                        && (forall m: nat :: m < j && Live(parts, i, m) ==> KeyOf(parts[m]).Some?)
                        ==> Tokens(parts, i, sel) == Err(UnknownKey(parts[j]))
    decreases |parts| - i
  {
    hide KeyOf, Assigned, Join;
    forall j: nat | i < j
      ensures Live(parts, i, j) <==> LiveAfter(parts, i, j)
    {
      LiveStep(parts, i, j);
    }
    if i < |parts| {
      assert Live(parts, i, i);
      if KeyOf(parts[i]).Some? && KeyOf(parts[i]) != Some(Chain) && i + 2 <= |parts| {
        ErrorIff(parts, i + 2, Assigned(sel, KeyOf(parts[i]).value, ValueAt(parts, i)));
      }
    }
  }

  /** A word after a token that is not a key does not join the base: the username is refused. */
  lemma UnknownKeyRefused(base: string, value: string, word: string)
    requires '-' !in base && '-' !in value && '-' !in word
    requires KeyOf(base).None? && KeyOf(word).None?
    ensures Parsed(base + "-" + Name(Country) + "-" + value + "-" + word) == Err(UnknownKey(word))
  {
    hide KeyOf, Assigned, Name;
    KeyNames(Country);
    var parts := [base, Name(Country), value, word];
    assert parts[1..] == [Name(Country), value, word];
    assert parts[1..][1..] == [value, word] && parts[1..][1..][1..] == [word];
    assert Join([value, word], '-') == value + "-" + word;
    assert Join(parts, '-') == base + "-" + (Name(Country) + "-" + (value + "-" + word));
    assert base + "-" + Name(Country) + "-" + value + "-" + word == Join(parts, '-');
    SplitJoin(parts, '-');
    KeyStartIs(parts, 1);
    assert parts[..1] == [base];
    var next := Assigned(NO_SELECTION, Country, value);
    assert Tokens(parts, 1, NO_SELECTION) == Tokens(parts, 3, next);
  }

  /** A dimension holds the comma-separated values of its last token. */
  lemma {:induction false} Meaning(parts: seq<string>, i: nat, sel: Selection, key: Key)
    requires i <= |parts|
    requires Tokens(parts, i, sel).Ok?
    ensures var r := Tokens(parts, i, sel).value;
            && (forall j: nat :: LastOf(parts, i, j, key) ==>
                  match key
                  case Session => r.session == Filled(ValueAt(parts, j))
                  case Chain => r.chain == Filled(Join(parts[j + 1..], '-'))
                  case _ => r.Wanted(key) == CommaSet(ValueAt(parts, j)))
            && ((forall j: nat :: Live(parts, i, j) ==> KeyOf(parts[j]) != Some(key)) ==>
                  match key
                  case Session => r.session == sel.session
                  case Chain => r.chain == sel.chain
                  case _ => r.Wanted(key) == sel.Wanted(key))
    decreases |parts| - i
  {
    hide KeyOf, CommaSet, Filled, Join;
    forall j: nat | i < j
      ensures Live(parts, i, j) <==> LiveAfter(parts, i, j)
    {
      LiveStep(parts, i, j);
    }
    if i < |parts| {
      assert Live(parts, i, i);
      if KeyOf(parts[i]) != Some(Chain) {
        var next := Assigned(sel, KeyOf(parts[i]).value, ValueAt(parts, i));
        if i + 2 <= |parts| {
          Meaning(parts, i + 2, next, key);
          forall j: nat | LastOf(parts, i, j, key) && i < j
            ensures LastOf(parts, i + 2, j, key)
          {
          }
        }
      }
    }
  }

  /** Nothing is lost: base and tokens, joined again, are the username. */
  lemma Lossless(username: string)
    ensures var parts := Split(username, '-');
            var k := KeyStart(parts, 0);
            var base := Join(parts[..k], '-');
            username == if k == |parts| then base
                        else if k == 0 then Join(parts, '-')
                        else base + "-" + Join(parts[k..], '-')
  {
    var parts := Split(username, '-');
    var k := KeyStart(parts, 0);
    JoinSplit(username, '-');
    assert parts[..k] + parts[k..] == parts;
    if 0 < k < |parts| {
      JoinConcat(parts[..k], parts[k..], '-');
    } else if k == |parts| {
      assert parts[..k] == parts;
    }
  }

  lemma EmptyIsNoKey()
    ensures KeyOf("").None?
  {
  }

  /** The base carries no tokens of its own. */
  lemma BaseReparses(username: string)
    requires Parsed(username).Ok?
    ensures var base := Parsed(username).value.base;
            Parsed(base) == Ok(Username(base, NO_SELECTION))
  {
    hide KeyOf, Tokens;
    var parts := Split(username, '-');
    var k := KeyStart(parts, 0);
    var base := Join(parts[..k], '-');
    if k == 0 {
      SplitWhole("", '-');
      assert Split(base, '-') == [""];
      EmptyIsNoKey();
      NoTokens(base);
    } else {
      assert forall p :: p in parts[..k] ==> p in parts;
      SplitJoin(parts[..k], '-');
      NoTokens(base);
    }
  }

  lemma KeyStartIs(parts: seq<string>, k: nat)
    requires k <= |parts|
    requires forall j :: 0 <= j < k && j + 1 < |parts| ==> KeyOf(parts[j]).None?
    requires k < |parts| ==> k + 1 < |parts| && KeyOf(parts[k]).Some?
    ensures KeyStart(parts, 0) == k
  {
    var s := KeyStart(parts, 0);
    if s < k {
      assert false;
    }
  }

  lemma NoTokens(base: string)
    requires forall j :: 0 <= j && j + 1 < |Split(base, '-')| ==> KeyOf(Split(base, '-')[j]).None?
    ensures Parsed(base) == Ok(Username(base, NO_SELECTION))
  {
    var parts := Split(base, '-');
    KeyStartIs(parts, |parts|);
    assert parts[..|parts|] == parts;
    JoinSplit(base, '-');
  }

  // ---- The printer ----

  type Prefixes = map<string, string>

  /** The dimensions the printer appends, in order. */
  const DIMS := [Country, State, City, Isp]

  type Pair = (Key, string)

  predicate InRange(values: seq<string>, pick: nat) {
    values != [] ==> pick < |values|
  }

  /** `picks[d]` chooses the value printed for `DIMS[d]`. */
  predicate ValidPicks(sel: Selection, picks: seq<nat>, n: nat) {
    n <= 4 && n <= |picks| && forall d :: 0 <= d < n ==> InRange(sel.Wanted(DIMS[d]), picks[d])
  }

  function StickyPick(session: string, values: seq<string>): nat {
    if values == [] then 0 else StickyIndex(session, |values|)
  }

  predicate Sticky(sel: Selection, picks: seq<nat>, n: nat)
    requires n <= 4 && n <= |picks|
  {
    sel.session.Some? ==>
      forall d :: 0 <= d < n ==> picks[d] == StickyPick(sel.session.value, sel.Wanted(DIMS[d]))
  }

  /** The chosen value of a dimension, as a list of at most one. */
  function Chosen(values: seq<string>, pick: nat): (r: seq<string>)
    requires InRange(values, pick)
  {
    if values == [] then [] else [values[pick]]
  }

  function ChosenPairs(sel: Selection, picks: seq<nat>, n: nat): seq<Pair>
    requires ValidPicks(sel, picks, n)
  {
    if n == 0 then []
    else
      var values := sel.Wanted(DIMS[n - 1]);
      ChosenPairs(sel, picks, n - 1)
      + (if values == [] then [] else [(DIMS[n - 1], values[picks[n - 1]])])
  }

  function AllPairs(sel: Selection, picks: seq<nat>): seq<Pair>
    requires ValidPicks(sel, picks, 4)
  {
    ChosenPairs(sel, picks, 4) + (if sel.session.Some? then [(Session, sel.session.value)] else [])
  }

  /** `base` followed by the pairs that have a configured prefix. */
  function Printed(base: string, prefixes: Prefixes, pairs: seq<Pair>): string {
    if pairs == [] then base
    else
      var (key, value) := pairs[|pairs| - 1];
      Printed(base, prefixes, pairs[..|pairs| - 1])
      + Piece(prefixes, key, value)
  }

  function Piece(prefixes: Prefixes, key: Key, value: string): string {
    if Name(key) in prefixes then prefixes[Name(key)] + value else ""
  }

  lemma PrintedSnoc(base: string, prefixes: Prefixes, pairs: seq<Pair>, key: Key, value: string)
    ensures Printed(base, prefixes, pairs + [(key, value)])
            == Printed(base, prefixes, pairs) + Piece(prefixes, key, value)
  {
    assert (pairs + [(key, value)])[..|pairs|] == pairs;
  }

  lemma PrintedNothing(base: string, prefixes: Prefixes)
    ensures Printed(base, prefixes, []) == base
  {
  }

  /** `out` prints one valid choice of values, the pinned one with a session. */
  ghost predicate Prints(base: string, prefixes: Prefixes, sel: Selection, picks: seq<nat>, out: string) {
    && ValidPicks(sel, picks, 4) && Sticky(sel, picks, 4)
    && out == Printed(base, prefixes, AllPairs(sel, picks))
  }

  method BuildUsername(base: string, prefixes: Prefixes, sel: Selection) returns (out: string)
    ensures exists picks: seq<nat> :: Prints(base, prefixes, sel, picks, out)
  {
    hide Name, KeyOf, Piece, Printed, FnvFrom;
    PrintedNothing(base, prefixes);
    out := base;
    ghost var picks: seq<nat> := [];
    for d := 0 to 4
      invariant |picks| == d
      invariant ValidPicks(sel, picks, d) && Sticky(sel, picks, d)
      invariant out == Printed(base, prefixes, ChosenPairs(sel, picks, d))
    {
      var values := sel.Wanted(DIMS[d]);
      var i := PickIndex(|values|, sel.session);
      ghost var before := picks;
      picks := picks + [if i.Some? then i.value else 0];
      SamePairs(sel, before, picks, d);
      PrintedNext(base, prefixes, sel, picks, d);
      if i.Some? {
        out := PushPiece(out, prefixes, DIMS[d], values[i.value]);
      }
    }
    if sel.session.Some? {
      PrintedSnoc(base, prefixes, ChosenPairs(sel, picks, 4), Session, sel.session.value);
      out := PushPiece(out, prefixes, Session, sel.session.value);
    }
    assert ChosenPairs(sel, picks, 4) + [] == ChosenPairs(sel, picks, 4);
    assert Prints(base, prefixes, sel, picks, out);
  }

  method PushPiece(out: string, prefixes: Prefixes, key: Key, value: string) returns (r: string)
    ensures r == out + Piece(prefixes, key, value)
  {
    r := out;
    if Name(key) in prefixes {
      r := r + prefixes[Name(key)];
      r := r + value;
    }
  }

  lemma PrintedNext(base: string, prefixes: Prefixes, sel: Selection, picks: seq<nat>, d: nat)
    requires d < 4 && ValidPicks(sel, picks, d + 1)
    ensures var before, values := Printed(base, prefixes, ChosenPairs(sel, picks, d)), sel.Wanted(DIMS[d]);
            Printed(base, prefixes, ChosenPairs(sel, picks, d + 1))
            == if values == [] then before
               else before + Piece(prefixes, DIMS[d], values[picks[d]])
  {
    var values, pairs := sel.Wanted(DIMS[d]), ChosenPairs(sel, picks, d);
    if values == [] {
      assert pairs + [] == pairs;
    } else {
      assert InRange(values, picks[d]);
      PrintedSnoc(base, prefixes, pairs, DIMS[d], values[picks[d]]);
    }
  }

  lemma {:induction false} SamePairs(sel: Selection, p: seq<nat>, q: seq<nat>, n: nat)
    requires p <= q && ValidPicks(sel, p, n)
    ensures ValidPicks(sel, q, n) && ChosenPairs(sel, q, n) == ChosenPairs(sel, p, n)
  {
    if n > 0 {
      SamePairs(sel, p, q, n - 1);
    }
  }

  // ---- Printer and parser undo each other ----

  /** Prefixes `-key-`, as the parser expects them. */
  predicate KeyPrefixes(prefixes: Prefixes) {
    forall key :: key in [Country, State, City, Isp, Session] ==>
                    Name(key) in prefixes && prefixes[Name(key)] == "-" + Name(key) + "-"
  }

  /** `base` has no component that is a key. */
  predicate NoKeys(base: string) {
    forall p :: p in Split(base, '-') ==> KeyOf(p).None?
  }

  predicate Plain(value: string) {
    value != "" && ',' !in value && '-' !in value
  }

  predicate WellFormed(sel: Selection) {
    && (forall key, v :: v in sel.Wanted(key) ==> Plain(v))
    && (sel.session.Some? ==> sel.session.value != "" && '-' !in sel.session.value)
  }

  function Flatten(pairs: seq<Pair>): (r: seq<string>)
    ensures |r| == 2 * |pairs|
  {
    if pairs == [] then []
    else
      var (key, value) := pairs[|pairs| - 1];
      Flatten(pairs[..|pairs| - 1]) + [Name(key), value]
  }

  function Folded(pairs: seq<Pair>): Selection {
    if pairs == [] then NO_SELECTION
    else
      var (key, value) := pairs[|pairs| - 1];
      Assigned(Folded(pairs[..|pairs| - 1]), key, value)
  }

  /** Pairs the printer can emit: keys with a prefix, values without a dash. */
  predicate Printable(pairs: seq<Pair>) {
    forall j :: 0 <= j < |pairs| ==>
                  pairs[j].0 in [Country, State, City, Isp, Session] && '-' !in pairs[j].1
  }

  lemma JoinPair(front: seq<string>, name: string, value: string)
    requires front != []
    ensures Join(front + [name, value], '-') == Join(front, '-') + ("-" + name + "-" + value)
  {
    JoinConcat(front, [name, value], '-');
    assert [name, value][1..] == [value];
    assert Join([name, value], '-') == name + "-" + value;
    assert Join(front, '-') + "-" + (name + "-" + value) == Join(front, '-') + ("-" + name + "-" + value);
  }

  lemma {:induction false} PrintedIsJoin(base: string, prefixes: Prefixes, pairs: seq<Pair>)
    requires KeyPrefixes(prefixes) && Printable(pairs)
    ensures Printed(base, prefixes, pairs) == Join(Split(base, '-') + Flatten(pairs), '-')
  {
    hide Name, KeyOf, Split, Join;
    if pairs == [] {
      JoinSplit(base, '-');
      assert Split(base, '-') + Flatten(pairs) == Split(base, '-');
    } else {
      var init := pairs[..|pairs| - 1];
      var (key, value) := pairs[|pairs| - 1];
      PrintedIsJoin(base, prefixes, init);
      var front := Split(base, '-') + Flatten(init);
      JoinPair(front, Name(key), value);
      assert Split(base, '-') + Flatten(pairs) == front + [Name(key), value];
      assert Piece(prefixes, key, value) == "-" + Name(key) + "-" + value;
    }
  }

  lemma {:induction false} FlattenPieces(pairs: seq<Pair>)
    requires Printable(pairs)
    ensures forall p :: p in Flatten(pairs) ==> '-' !in p
    ensures forall j :: 0 <= j < |pairs| ==> Flatten(pairs)[2 * j] == Name(pairs[j].0)
  {
    hide KeyOf, Name;
    if pairs != [] {
      var init := pairs[..|pairs| - 1];
      FlattenPieces(init);
      KeyNames(pairs[|pairs| - 1].0);
      forall j | 0 <= j < |pairs|
        ensures Flatten(pairs)[2 * j] == Name(pairs[j].0)
      {
        if j < |init| {
          assert Flatten(init)[2 * j] == Name(init[j].0);
        }
      }
    }
  }

  lemma {:induction false} TokensSnoc(q: seq<string>, i: nat, sel: Selection, key: Key, value: string)
    requires i <= |q| && (|q| - i) % 2 == 0
    requires forall j :: i <= j < |q| && (j - i) % 2 == 0 ==> KeyOf(q[j]).Some? && KeyOf(q[j]) != Some(Chain)
    requires key != Chain
    requires Tokens(q, i, sel).Ok?
    ensures Tokens(q + [Name(key), value], i, sel) == Ok(Assigned(Tokens(q, i, sel).value, key, value))
    decreases |q| - i
  {
    hide Name, KeyOf, CommaSet, Filled, Join, Assigned;
    var p := q + [Name(key), value];
    if i == |q| {
      KeyNames(key);
      assert p[i] == Name(key) && p[i + 1] == value;
    } else {
      assert p[i] == q[i] && p[i + 1] == q[i + 1];
      TokensSnoc(q, i + 2, Assigned(sel, KeyOf(q[i]).value, ValueAt(q, i)), key, value);
    }
  }

  lemma PairKeys(front: seq<string>, pairs: seq<Pair>)
    requires Printable(pairs)
    ensures var q := front + Flatten(pairs);
            forall j :: |front| <= j < |q| && (j - |front|) % 2 == 0 ==>
                          KeyOf(q[j]).Some? && KeyOf(q[j]) != Some(Chain)
  {
    var q := front + Flatten(pairs);
    FlattenPieces(pairs);
    forall j | |front| <= j < |q| && (j - |front|) % 2 == 0
      ensures KeyOf(q[j]).Some? && KeyOf(q[j]) != Some(Chain)
    {
      var h := (j - |front|) / 2;
      assert q[j] == Flatten(pairs)[2 * h];
      KeyNames(pairs[h].0);
    }
  }

  lemma LastPair(pairs: seq<Pair>)
    requires pairs != []
    ensures var init, (key, value) := pairs[..|pairs| - 1], pairs[|pairs| - 1];
            && Flatten(pairs) == Flatten(init) + [Name(key), value]
            && Folded(pairs) == Assigned(Folded(init), key, value)
  {
    hide Name, Assigned;
  }

  lemma TokensPair(front: seq<string>, init: seq<Pair>, key: Key, value: string)
    requires Printable(init) && key != Chain
    requires Tokens(front + Flatten(init), |front|, NO_SELECTION) == Ok(Folded(init))
    ensures Tokens(front + Flatten(init) + [Name(key), value], |front|, NO_SELECTION)
            == Ok(Assigned(Folded(init), key, value))
  {
    hide Name, KeyOf, Assigned, Tokens, Folded, Flatten, Printable;
    var q := front + Flatten(init);
    assert |q| - |front| == 2 * |init|;
    PairKeys(front, init);
    TokensSnoc(q, |front|, NO_SELECTION, key, value);
  }

  lemma {:induction false} TokensOfPairs(front: seq<string>, pairs: seq<Pair>)
    requires Printable(pairs)
    ensures Tokens(front + Flatten(pairs), |front|, NO_SELECTION) == Ok(Folded(pairs))
  {
    if pairs == [] {
      assert |front + Flatten(pairs)| == |front|;
    } else {
      hide Name, Assigned, Tokens, Folded, Flatten;
      var init := pairs[..|pairs| - 1];
      var (key, value) := pairs[|pairs| - 1];
      TokensOfPairs(front, init);
      TokensPair(front, init, key, value);
      LastPair(pairs);
      assert front + Flatten(pairs) == front + Flatten(init) + [Name(key), value];
    }
  }

  /** A printed username whose base has no keys parses to that base and the printed pairs. */
  lemma ParsePrinted(base: string, prefixes: Prefixes, pairs: seq<Pair>)
    requires KeyPrefixes(prefixes) && Printable(pairs) && NoKeys(base)
    ensures Parsed(Printed(base, prefixes, pairs)) == Ok(Username(base, Folded(pairs)))
  {
    var front := Split(base, '-');
    var parts := front + Flatten(pairs);
    PrintedIsJoin(base, prefixes, pairs);
    FlattenPieces(pairs);
    SplitJoin(parts, '-');
    assert forall j :: 0 <= j < |front| ==> parts[j] == front[j] && front[j] in front;
    if pairs != [] {
      assert parts[|front|] == Flatten(pairs)[2 * 0];
      KeyNames(pairs[0].0);
    }
    KeyStartIs(parts, |front|);
    assert parts[..|front|] == front;
    JoinSplit(base, '-');
    TokensOfPairs(front, pairs);
  }

  /** A key component inside the base ends the base early. */
  lemma KeyInBase(base: string, prefixes: Prefixes, pairs: seq<Pair>)
    requires KeyPrefixes(prefixes) && Printable(pairs) && pairs != [] && !NoKeys(base)
    ensures Parsed(Printed(base, prefixes, pairs)).Ok? ==>
              Parsed(Printed(base, prefixes, pairs)).value.base != base
  {
    hide Name, Assigned, Tokens;
    var front := Split(base, '-');
    var parts := front + Flatten(pairs);
    PrintedIsJoin(base, prefixes, pairs);
    FlattenPieces(pairs);
    SplitJoin(parts, '-');
    var p :| p in front && KeyOf(p).Some?;
    var j :| 0 <= j < |front| && front[j] == p;
    var k := KeyStart(parts, 0);
    assert parts[j] == p;
    assert k <= j;
    if k == 0 {
      assert parts[..0] == [];
      JoinSplit(base, '-');
      SplitWhole("", '-');
      assert front[0] == parts[0] && KeyOf("").None?;
      if base == "" {
        assert false;
      }
    } else {
      assert forall x :: x in parts[..k] ==> x in parts;
      SplitJoin(parts[..k], '-');
    }
  }

  lemma CommaSetPlain(value: string)
    requires Plain(value)
    ensures CommaSet(value) == [value]
  {
    SplitWhole(value, ',');
    assert [value][1..] == [] && NonEmpty([]) == [];
    assert [value] + [] == [value];
  }

  function Put(sel: Selection, key: Key, values: seq<string>): Selection {
    match key
    case Country => sel.(country := values)
    case State => sel.(state := values)
    case City => sel.(city := values)
    case Isp => sel.(isp := values)
    case _ => sel
  }

  lemma FoldedStep(sel: Selection, picks: seq<nat>, n: nat)
    requires WellFormed(sel) && ValidPicks(sel, picks, n) && n > 0
    requires Printable(ChosenPairs(sel, picks, n - 1))
    ensures Printable(ChosenPairs(sel, picks, n))
    ensures var values, before := sel.Wanted(DIMS[n - 1]), Folded(ChosenPairs(sel, picks, n - 1));
            Folded(ChosenPairs(sel, picks, n))
            == if values == [] then before else Put(before, DIMS[n - 1], [values[picks[n - 1]]])
  {
    var init, key := ChosenPairs(sel, picks, n - 1), DIMS[n - 1];
    var values := sel.Wanted(key);
    if values == [] {
      assert init + [] == init;
    } else {
      assert InRange(values, picks[n - 1]);
      var v := values[picks[n - 1]];
      assert v in sel.Wanted(key);
      CommaSetPlain(v);
      assert (init + [(key, v)])[..|init|] == init;
    }
  }

  lemma FoldedChosen(sel: Selection, picks: seq<nat>)
    requires WellFormed(sel) && ValidPicks(sel, picks, 4)
    ensures Printable(ChosenPairs(sel, picks, 4))
    ensures Folded(ChosenPairs(sel, picks, 4)) == Narrowed(sel, picks)
  {
    FoldedStep(sel, picks, 1);
    FoldedStep(sel, picks, 2);
    FoldedStep(sel, picks, 3);
    FoldedStep(sel, picks, 4);
  }

  /** Of the four printed dimensions, at most the one chosen value each. */
  function Narrowed(sel: Selection, picks: seq<nat>): Selection
    requires ValidPicks(sel, picks, 4)
  {
    Selection(Chosen(sel.country, picks[0]), Chosen(sel.state, picks[1]),
              Chosen(sel.city, picks[2]), Chosen(sel.isp, picks[3]), [], None, None)
  }

  lemma FoldedAll(sel: Selection, picks: seq<nat>)
    requires WellFormed(sel) && ValidPicks(sel, picks, 4)
    ensures Printable(AllPairs(sel, picks))
    ensures Folded(AllPairs(sel, picks)) == Narrowed(sel, picks).(session := sel.session)
  {
    hide Plain, Chosen, ChosenPairs, CommaSet, KeyOf, Name;
    FoldedChosen(sel, picks);
    var init := ChosenPairs(sel, picks, 4);
    if sel.session.Some? {
      assert (init + [(Session, sel.session.value)])[..|init|] == init;
    } else {
      assert init + [] == init;
    }
  }

  /**
   * Parsing a printed username gives back the base, the session, and for each
   * printed dimension nothing or the one chosen value.
   */
  lemma RoundTrip(username: string, base: string, prefixes: Prefixes, picks: seq<nat>)
    requires Parsed(username).Ok? && KeyPrefixes(prefixes) && NoKeys(base)
    requires ValidPicks(Parsed(username).value.selection, picks, 4)
    ensures var sel := Parsed(username).value.selection;
            Parsed(Printed(base, prefixes, AllPairs(sel, picks)))
            == Ok(Username(base, Narrowed(sel, picks).(session := sel.session)))
  {
    var sel := Parsed(username).value.selection;
    ParsedWellFormed(username);
    FoldedAll(sel, picks);
    ParsePrinted(base, prefixes, AllPairs(sel, picks));
  }

  /** When anything is printed, the base survives exactly when it has no key component. */
  lemma RoundTripIff(username: string, base: string, prefixes: Prefixes, picks: seq<nat>)
    requires Parsed(username).Ok? && KeyPrefixes(prefixes)
    requires ValidPicks(Parsed(username).value.selection, picks, 4)
    requires AllPairs(Parsed(username).value.selection, picks) != []
    ensures var r := Parsed(Printed(base, prefixes, AllPairs(Parsed(username).value.selection, picks)));
            (r.Ok? && r.value.base == base) <==> NoKeys(base)
  {
    var sel := Parsed(username).value.selection;
    ParsedWellFormed(username);
    FoldedAll(sel, picks);
    if NoKeys(base) {
      RoundTrip(username, base, prefixes, picks);
    } else {
      KeyInBase(base, prefixes, AllPairs(sel, picks));
    }
  }

  lemma CommaSetIsPlain(value: string)
    requires '-' !in value
    ensures forall v :: v in CommaSet(value) ==> Plain(v)
  {
    forall v | v in CommaSet(value)
      ensures Plain(v)
    {
      var parts := Split(value, ',');
      var j :| 0 <= j < |parts| && parts[j] == v;
      PieceChars(value, ',', j);
    }
  }

  /** The characters of a piece come from the whole. */
  lemma {:induction false} PieceChars(s: string, c: char, j: nat)
    requires j < |Split(s, c)|
    ensures forall x :: x in Split(s, c)[j] ==> x in s
    decreases |s|
  {
    var k := IndexOf(s, c);
    if k < |s| && j > 0 {
      PieceChars(s[k + 1..], c, j - 1);
    }
  }

  lemma AssignedWellFormed(sel: Selection, key: Key, value: string)
    requires WellFormed(sel) && '-' !in value
    ensures WellFormed(Assigned(sel, key, value))
  {
    CommaSetIsPlain(value);
    forall k, v | v in Assigned(sel, key, value).Wanted(k)
      ensures Plain(v)
    {
      assert v in sel.Wanted(k) || v in CommaSet(value);
    }
  }

  lemma {:induction false} TokensWellFormed(parts: seq<string>, i: nat, sel: Selection)
    requires forall p :: p in parts ==> '-' !in p
    requires WellFormed(sel) && Tokens(parts, i, sel).Ok?
    ensures WellFormed(Tokens(parts, i, sel).value)
    decreases |parts| - i
  {
    if i < |parts| && KeyOf(parts[i]) == Some(Chain) {
      var r := Tokens(parts, i, sel).value;
      assert forall key :: r.Wanted(key) == sel.Wanted(key);
    } else if i < |parts| {
      AssignedWellFormed(sel, KeyOf(parts[i]).value, ValueAt(parts, i));
      TokensWellFormed(parts, i + 2, Assigned(sel, KeyOf(parts[i]).value, ValueAt(parts, i)));
    }
  }

  lemma ParsedWellFormed(username: string)
    requires Parsed(username).Ok?
    ensures WellFormed(Parsed(username).value.selection)
  {
    var parts := Split(username, '-');
    TokensWellFormed(parts, KeyStart(parts, 0), NO_SELECTION);
  }
}
