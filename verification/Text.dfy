// Text primitives of the router: splitting, joining, lines, words and decimal
// numbers. Text and wire bytes are both `string`; a byte is a character below 256.
module Text {
  import opened Wrappers

  /** Index of the first `c` in `s`, or |s|. */
  function IndexOf(s: string, c: char): (k: nat)
    ensures k <= |s|
    ensures forall i :: 0 <= i < k ==> s[i] != c
    ensures k < |s| ==> s[k] == c
  {
    if s == "" || s[0] == c then 0 else 1 + IndexOf(s[1..], c)
  }

  /** Index of the last `c` in `s`, or -1. */
  function LastIndexOf(s: string, c: char): (k: int)
    ensures -1 <= k < |s|
    ensures forall i :: k < i < |s| ==> s[i] != c
    ensures k >= 0 ==> s[k] == c
  {
    if s == "" then -1
    else if s[|s| - 1] == c then |s| - 1
    else LastIndexOf(s[..|s| - 1], c)
  }

  /** What comes before and after the first `c`. */
  function Cut(s: string, c: char): (r: Option<(string, string)>)
    ensures r.Some? ==> s == r.value.0 + [c] + r.value.1 && c !in r.value.0
    ensures r.None? ==> c !in s
  {
    var k := IndexOf(s, c);
    if k == |s| then None else Some((s[..k], s[k + 1..]))
  }

  lemma CutConcat(a: string, b: string, c: char)
    requires c !in a
    ensures Cut(a + [c] + b, c) == Some((a, b))
  {
    var s := a + [c] + b;
    assert s[|a|] == c;
    assert forall i :: 0 <= i < |a| ==> s[i] == a[i] && a[i] in a;
    assert IndexOf(s, c) == |a|;
    assert s[..|a|] == a && s[|a| + 1..] == b;
  }

  /** The pieces of `s` between occurrences of `c`. */
  function Split(s: string, c: char): (parts: seq<string>)
    ensures |parts| >= 1
    ensures forall p :: p in parts ==> c !in p
    decreases |s|
  {
    var k := IndexOf(s, c);
    if k == |s| then [s] else [s[..k]] + Split(s[k + 1..], c)
  }

  function Join(parts: seq<string>, c: char): string {
    if |parts| == 0 then ""
    else if |parts| == 1 then parts[0]
    else parts[0] + [c] + Join(parts[1..], c)
  }

  lemma JoinCons(head: string, tail: seq<string>, c: char)
    requires tail != []
    ensures Join([head] + tail, c) == head + [c] + Join(tail, c)
  {
    assert ([head] + tail)[1..] == tail;
  }

  lemma {:induction false} JoinSplit(s: string, c: char)
    ensures Join(Split(s, c), c) == s
    decreases |s|
  {
    hide Join;
    var k := IndexOf(s, c);
    if k < |s| {
      var rest := Split(s[k + 1..], c);
      JoinSplit(s[k + 1..], c);
      JoinCons(s[..k], rest, c);
      assert s == s[..k] + [c] + s[k + 1..];
    } else {
      JoinOne(s, c);
    }
  }

  lemma JoinOne(s: string, c: char)
    ensures Join([s], c) == s
  {
  }

  /** A separator-free head is the first piece. */
  lemma SplitHead(a: string, b: string, c: char)
    requires c !in a
    ensures Split(a + [c] + b, c) == [a] + Split(b, c)
  {
    var s := a + [c] + b;
    assert s[|a|] == c;
    assert forall i :: 0 <= i < |a| ==> s[i] == a[i] && a[i] in a;
    assert IndexOf(s, c) == |a|;
    assert s[..|a|] == a && s[|a| + 1..] == b;
  }

  lemma SplitWhole(a: string, c: char)
    requires c !in a
    ensures Split(a, c) == [a]
  {
    assert forall i :: 0 <= i < |a| ==> a[i] in a;
  }

  lemma {:induction false} SplitJoin(parts: seq<string>, c: char)
    requires |parts| >= 1
    requires forall p :: p in parts ==> c !in p
    ensures Split(Join(parts, c), c) == parts
  {
    if |parts| == 1 {
      SplitWhole(parts[0], c);
    } else {
      SplitJoin(parts[1..], c);
      SplitHead(parts[0], Join(parts[1..], c), c);
      assert parts == [parts[0]] + parts[1..];
    }
  }

  lemma {:induction false} JoinConcat(a: seq<string>, b: seq<string>, c: char)
    requires |a| >= 1 && |b| >= 1
    ensures Join(a + b, c) == Join(a, c) + [c] + Join(b, c)
  {
    if |a| == 1 {
      assert (a + b)[1..] == b;
    } else {
      assert (a + b)[1..] == a[1..] + b;
      JoinConcat(a[1..], b, c);
      calc {
        Join(a + b, c);
        a[0] + [c] + Join(a[1..] + b, c);
        a[0] + [c] + (Join(a[1..], c) + [c] + Join(b, c));
        (a[0] + [c] + Join(a[1..], c)) + [c] + Join(b, c);
      }
    }
  }

  // ---- Case ----

  function LowerChar(c: char): char {
    if 'A' <= c <= 'Z' then c + 32 as char else c
  }

  function Lower(s: string): (r: string)
    ensures |r| == |s|
    ensures forall i :: 0 <= i < |s| ==> r[i] == LowerChar(s[i])
  {
    seq(|s|, i requires 0 <= i < |s| => LowerChar(s[i]))
  }

  /** One character, or the upper- and lower-case form of one ASCII letter. */
  predicate SameLetter(x: char, y: char) {
    || x == y
    || ('A' <= x <= 'Z' && y as int == x as int + 32)
    || ('A' <= y <= 'Z' && x as int == y as int + 32)
  }

  /** The same text, character by character, but for the case of ASCII letters. */
  predicate SameText(a: string, b: string) {
    |a| == |b| && forall i :: 0 <= i < |a| ==> SameLetter(a[i], b[i])
  }

  lemma LowerMeaning(a: string, b: string)
    ensures Lower(a) == Lower(b) <==> SameText(a, b)
  {
    if Lower(a) == Lower(b) {
      assert |Lower(a)| == |Lower(b)|;
      forall i | 0 <= i < |a|
        ensures SameLetter(a[i], b[i])
      {
        assert LowerChar(a[i]) == Lower(a)[i] == Lower(b)[i] == LowerChar(b[i]);
      }
    }
    if SameText(a, b) {
      assert forall i :: 0 <= i < |a| ==> SameLetter(a[i], b[i]);
      assert Lower(a) == Lower(b);
    }
  }

  predicate StartsWith(s: string, prefix: string) {
    prefix <= s
  }

  /** A prefix in lower case, found but for the case of ASCII letters. */
  lemma LowerStart(s: string, prefix: string)
    requires Lower(prefix) == prefix
    ensures StartsWith(Lower(s), prefix) <==> |s| >= |prefix| && SameText(s[..|prefix|], prefix)
  {
    if |s| >= |prefix| {
      LowerMeaning(s[..|prefix|], prefix);
      assert Lower(s)[..|prefix|] == Lower(s[..|prefix|]);
    }
  }

  predicate PartAt(s: string, part: string, i: nat) {
    i + |part| <= |s| && s[i..i + |part|] == part
  }

  predicate Contains(s: string, part: string) {
    exists i: nat :: i <= |s| && PartAt(s, part, i)
  }

  lemma ContainsMeaning(s: string, part: string)
    ensures Contains(s, part) <==> exists a, b :: s == a + part + b
  {
    if Contains(s, part) {
      var i: nat :| i <= |s| && PartAt(s, part, i);
      assert s == s[..i] + part + s[i + |part|..];
    }
    if a, b :| s == a + part + b {
      assert PartAt(s, part, |a|);
    }
  }

  // ---- White space, words and lines ----

  predicate IsSpace(c: char) {
    c == ' ' || 9 <= c as int <= 13
  }

  /** White space is blank, tab, line feed, vertical tab, form feed and carriage return. */
  lemma IsSpaceMeaning(c: char)
    ensures IsSpace(c) <==> c as int in [9, 10, 11, 12, 13, 32]
  {
    assert [9, 10, 11, 12, 13, 32] == [9] + [10, 11, 12, 13, 32];
  }

  predicate NoSpace(s: string) {
    forall c :: c in s ==> !IsSpace(c)
  }

  function TrimStart(s: string): (r: string)
    ensures |r| <= |s|
    ensures r != "" ==> !IsSpace(r[0])
  {
    if s == "" then "" else if IsSpace(s[0]) then TrimStart(s[1..]) else s
  }

  function TrimEnd(s: string): (r: string)
    ensures |r| <= |s|
  {
    if s == "" then "" else if IsSpace(s[|s| - 1]) then TrimEnd(s[..|s| - 1]) else s
  }

  function Trim(s: string): string {
    TrimEnd(TrimStart(s))
  }

  lemma TrimNoSpace(s: string)
    requires NoSpace(s)
    ensures Trim(s) == s
  {
    if s != "" {
      assert s[0] in s && s[|s| - 1] in s;
    }
  }

  predicate AllSpace(s: string) {
    forall c :: c in s ==> IsSpace(c)
  }

  lemma {:induction false} TrimStartMeaning(s: string) returns (a: string)
    ensures s == a + TrimStart(s) && AllSpace(a)
  {
    a := "";
    if s != "" && IsSpace(s[0]) {
      var rest := TrimStartMeaning(s[1..]);
      a := [s[0]] + rest;
    }
  }

  lemma {:induction false} TrimEndMeaning(s: string) returns (b: string)
    ensures s == TrimEnd(s) + b && AllSpace(b)
    ensures TrimEnd(s) != "" ==> !IsSpace(TrimEnd(s)[|TrimEnd(s)| - 1])
  {
    b := "";
    if s != "" && IsSpace(s[|s| - 1]) {
      var rest := TrimEndMeaning(s[..|s| - 1]);
      b := rest + [s[|s| - 1]];
    }
  }

  /** Trimming removes white space at both ends, all of it and nothing else. */
  lemma TrimMeaning(s: string) returns (a: string, b: string)
    ensures s == a + Trim(s) + b && AllSpace(a) && AllSpace(b)
    ensures Trim(s) != "" ==> !IsSpace(Trim(s)[0]) && !IsSpace(Trim(s)[|Trim(s)| - 1])
  {
    a := TrimStartMeaning(s);
    b := TrimEndMeaning(TrimStart(s));
    assert s == a + (Trim(s) + b);
    assert Trim(s) != "" ==> Trim(s)[0] == TrimStart(s)[0];
  }

  lemma {:induction false} TrimStartPad(a: string, w: string)
    requires AllSpace(a) && w != "" && !IsSpace(w[0])
    ensures TrimStart(a + w) == w
  {
    if a == "" {
      assert a + w == w;
    } else {
      assert (a + w)[1..] == a[1..] + w && a[0] in a;
      TrimStartPad(a[1..], w);
    }
  }

  lemma {:induction false} TrimEndPad(w: string, b: string)
    requires AllSpace(b) && w != "" && !IsSpace(w[|w| - 1])
    ensures TrimEnd(w + b) == w
  {
    if b == "" {
      assert w + b == w;
    } else {
      var n := |b| - 1;
      assert (w + b)[..|w| + n] == w + b[..n] && b[n] in b;
      TrimEndPad(w, b[..n]);
    }
  }

  /** A word is what is left of it with white space on both sides. */
  lemma TrimPad(a: string, w: string, b: string)
    requires AllSpace(a) && AllSpace(b) && NoSpace(w) && w != ""
    ensures Trim(a + w + b) == w
  {
    assert w[0] in w && w[|w| - 1] in w;
    assert a + w + b == a + (w + b) && (w + b)[0] == w[0];
    TrimStartPad(a, w + b);
    TrimEndPad(w, b);
  }

  /** Index of the first white space in `s`, or |s|. */
  function IndexOfSpace(s: string): (k: nat)
    ensures k <= |s|
    ensures forall i :: 0 <= i < k ==> !IsSpace(s[i])
    ensures k < |s| ==> IsSpace(s[k])
  {
    if s == "" || IsSpace(s[0]) then 0 else 1 + IndexOfSpace(s[1..])
  }

  /** The maximal runs of non-space characters. */
  function Words(s: string): (ws: seq<string>)
    ensures forall w :: w in ws ==> NoSpace(w) && w != ""
    decreases |s|
  {
    var t := TrimStart(s);
    if t == "" then []
    else
      var k := IndexOfSpace(t);
      [t[..k]] + Words(t[k..])
  }

  lemma WordsHead(w: string, rest: string)
    requires NoSpace(w) && w != ""
    requires rest == "" || IsSpace(rest[0])
    ensures Words(w + rest) == [w] + Words(rest)
  {
    var s := w + rest;
    assert s[0] == w[0] && w[0] in w;
    assert TrimStart(s) == s;
    assert forall i :: 0 <= i < |w| ==> s[i] == w[i] && w[i] in w;
    assert rest != "" ==> s[|w|] == rest[0];
    assert IndexOfSpace(s) == |w|;
    assert s[..|w|] == w && s[|w|..] == rest;
  }

  lemma WordsSkip(c: char, rest: string)
    requires IsSpace(c)
    ensures Words([c] + rest) == Words(rest)
  {
    assert ([c] + rest)[1..] == rest;
  }

  lemma WordsCons(w: string, rest: string)
    requires NoSpace(w) && w != ""
    ensures Words(w + " " + rest) == [w] + Words(rest)
  {
    WordsHead(w, " " + rest);
    WordsSkip(' ', rest);
    assert w + " " + rest == w + (" " + rest);
  }

  function RequestLine(a: string, b: string, c: string): string {
    a + " " + (b + " " + c)
  }

  /** A request line: three words with single spaces between them. */
  lemma ThreeWords(a: string, b: string, c: string)
    requires NoSpace(a) && NoSpace(b) && NoSpace(c) && a != "" && b != "" && c != ""
    ensures Words(RequestLine(a, b, c)) == [a, b, c]
  {
    WordsCons(a, b + " " + c);
    WordsCons(b, c);
    assert c + "" == c;
    WordsHead(c, "");
  }

  function StripCr(s: string): string {
    if s != "" && s[|s| - 1] == '\r' then s[..|s| - 1] else s
  }

  /** The lines of a text: terminated by LF or CR LF, the last terminator optional. */
  function Lines(s: string): seq<string>
    decreases |s|
  {
    if s == "" then []
    else
      var k := IndexOf(s, '\n');
      if k == |s| then [s] else [StripCr(s[..k])] + Lines(s[k + 1..])
  }

  lemma LineBreak(a: string, rest: string)
    requires '\n' !in a
    ensures var s := a + "\r\n" + rest;
            && IndexOf(s, '\n') == |a| + 1
            && StripCr(s[..|a| + 1]) == a
            && s[|a| + 2..] == rest
  {
    var s := a + "\r\n" + rest;
    assert s[|a|] == '\r' && s[|a| + 1] == '\n';
    assert forall i :: 0 <= i < |a| ==> s[i] == a[i] && a[i] in a;
    assert s[..|a| + 1] == a + "\r";
    assert (a + "\r")[..|a|] == a;
  }

  lemma LinesHead(a: string, rest: string)
    requires '\n' !in a
    ensures Lines(a + "\r\n" + rest) == [a] + Lines(rest)
  {
    LineBreak(a, rest);
  }

  /** A line ended by LF alone, and a last line without an end. */
  lemma LinesLf(a: string, rest: string)
    requires '\n' !in a && (a == "" || a[|a| - 1] != '\r')
    ensures Lines(a + "\n" + rest) == [a] + Lines(rest)
    ensures a != "" ==> Lines(a) == [a]
  {
    var s := a + "\n" + rest;
    assert s[|a|] == '\n';
    assert forall i :: 0 <= i < |a| ==> s[i] == a[i] && a[i] in a;
    assert IndexOf(s, '\n') == |a| && IndexOf(a, '\n') == |a|;
    assert s[..|a|] == a && s[|a| + 1..] == rest;
  }

  // ---- Decimal numbers ----

  predicate IsDigit(c: char) {
    '0' <= c <= '9'
  }

  predicate AllDigits(s: string) {
    forall c :: c in s ==> IsDigit(c)
  }

  function Decimal(n: nat): (s: string)
    ensures s != "" && AllDigits(s)
  {
    if n < 10 then [(48 + n) as char] else Decimal(n / 10) + [(48 + n % 10) as char]
  }

  function DecimalValue(s: string): nat
    requires AllDigits(s)
  {
    if s == "" then 0
    else
      assert s[|s| - 1] in s && forall c :: c in s[..|s| - 1] ==> c in s;
      DecimalValue(s[..|s| - 1]) * 10 + (s[|s| - 1] as int - 48)
  }

  lemma {:induction false} DecimalRoundTrip(n: nat)
    ensures DecimalValue(Decimal(n)) == n
  {
    if n >= 10 {
      var s := Decimal(n);
      assert s[..|s| - 1] == Decimal(n / 10);
      DecimalRoundTrip(n / 10);
    } else {
      var s := Decimal(n);
      assert s[..|s| - 1] == "";
    }
  }

  /** Decimal text has no leading zero. */
  lemma {:induction false} DecimalCanonical(n: nat)
    ensures n > 0 ==> Decimal(n)[0] != '0'
    ensures Decimal(0) == "0"
  {
    if n >= 10 {
      DecimalCanonical(n / 10);
      assert Decimal(n)[0] == Decimal(n / 10)[0];
    }
  }

  function Zeros(k: nat): (s: string)
    ensures |s| == k && forall c :: c in s ==> c == '0'
  {
    seq(k, _ => '0')
  }

  lemma ValueSnoc(init: string, c: char)
    requires AllDigits(init) && IsDigit(c)
    ensures AllDigits(init + [c]) && DecimalValue(init + [c]) == DecimalValue(init) * 10 + (c as int - 48)
  {
    assert (init + [c])[..|init|] == init;
  }

  lemma DecimalSnoc(n: nat, c: char)
    requires IsDigit(c)
    ensures Decimal(n * 10 + (c as int - 48)) == if n == 0 then [c] else Decimal(n) + [c]
  {
  }

  lemma {:induction false} LeadingZeros(s: string) returns (k: nat)
    requires s != "" && AllDigits(s)
    ensures s == Zeros(k) + Decimal(DecimalValue(s))
  {
    hide Decimal, DecimalValue;
    var init, c := s[..|s| - 1], s[|s| - 1];
    assert c in s && forall x :: x in init ==> x in s;
    assert s == init + [c];
    ValueSnoc(init, c);
    DecimalSnoc(DecimalValue(init), c);
    k := 0;
    if init == "" {
      NoValue();
    } else {
      k := LeadingZeros(init);
      if DecimalValue(init) == 0 {
        DecimalCanonical(0);
        assert Zeros(k + 1) == Zeros(k) + "0";
        k := k + 1;
      }
    }
  }

  lemma NoValue()
    ensures DecimalValue("") == 0
  {
  }

  lemma {:induction false} ZerosValue(k: nat, n: nat)
    ensures AllDigits(Zeros(k) + Decimal(n)) && DecimalValue(Zeros(k) + Decimal(n)) == n
  {
    var s := Zeros(k) + Decimal(n);
    assert forall c :: c in s ==> c in Zeros(k) || c in Decimal(n);
    if n < 10 {
      assert s[..|s| - 1] == Zeros(k);
      ZerosAre(k);
    } else {
      assert s[..|s| - 1] == Zeros(k) + Decimal(n / 10);
      ZerosValue(k, n / 10);
    }
  }

  lemma {:induction false} ZerosAre(k: nat)
    ensures AllDigits(Zeros(k)) && DecimalValue(Zeros(k)) == 0
  {
    if k > 0 {
      assert Zeros(k)[..k - 1] == Zeros(k - 1);
      ZerosAre(k - 1);
    }
  }

  /** Unsigned 16-bit parsing: an optional '+', then digits, at most 65535. */
  function ParseU16(s: string): Option<U16> {
    var digits := if s != "" && s[0] == '+' then s[1..] else s;
    if digits != "" && AllDigits(digits) && DecimalValue(digits) < 0x1_0000
    then Some(DecimalValue(digits))
    else None
  }

  lemma ParseDecimal(n: U16)
    ensures ParseU16(Decimal(n)) == Some(n)
  {
    DecimalRoundTrip(n);
    var s := Decimal(n);
    assert s[0] in s;
  }

  /** `s` writes `n`: an optional plus, any leading zeros, then its decimal digits. */
  ghost predicate Writes(s: string, n: nat) {
    exists plus: bool, k: nat :: s == Numeral(plus, k, n)
  }

  function Numeral(plus: bool, k: nat, n: nat): string {
    (if plus then "+" else "") + (Zeros(k) + Decimal(n))
  }

  lemma ParsesDigits(plus: bool, k: nat, n: U16)
    ensures ParseU16(Numeral(plus, k, n)) == Some(n)
  {
    hide Decimal, DecimalValue, Zeros;
    var s, digits := Numeral(plus, k, n), Zeros(k) + Decimal(n);
    ZerosValue(k, n);
    if plus {
      assert s[0] == '+' && s[1..] == digits;
    } else {
      assert s == digits && digits[0] in digits;
    }
  }

  /** A text parses to a port exactly when it writes that port. */
  lemma ParseU16Meaning(s: string, n: U16)
    ensures ParseU16(s) == Some(n) <==> Writes(s, n)
  {
    hide Decimal, DecimalValue, Zeros;
    if ParseU16(s) == Some(n) {
      var plus := s[0] == '+';
      var digits := if plus then s[1..] else s;
      var k := LeadingZeros(digits);
      assert s == Numeral(plus, k, n);
    }
    if Writes(s, n) {
      hide ParseU16, Numeral;
      var plus: bool, k: nat :| s == Numeral(plus, k, n);
      ParsesDigits(plus, k, n);
    }
  }

  function Dotted(a: nat, b: nat, c: nat, d: nat): string {
    Join([Decimal(a), Decimal(b), Decimal(c), Decimal(d)], '.')
  }

  /** Different addresses are written differently. */
  lemma DottedInjective(a: nat, b: nat, c: nat, d: nat, a': nat, b': nat, c': nat, d': nat)
    requires Dotted(a, b, c, d) == Dotted(a', b', c', d')
    ensures a == a' && b == b' && c == c' && d == d'
  {
    var p := [Decimal(a), Decimal(b), Decimal(c), Decimal(d)];
    var q := [Decimal(a'), Decimal(b'), Decimal(c'), Decimal(d')];
    SplitJoin(p, '.');
    SplitJoin(q, '.');
    assert p == q;
    assert p[0] == q[0] && p[1] == q[1] && p[2] == q[2] && p[3] == q[3];
    DecimalRoundTrip(a); DecimalRoundTrip(b); DecimalRoundTrip(c); DecimalRoundTrip(d);
    DecimalRoundTrip(a'); DecimalRoundTrip(b'); DecimalRoundTrip(c'); DecimalRoundTrip(d');
  }
}
