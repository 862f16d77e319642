// FNV-1a, 64 bit, and the choice of one candidate.
module Hashing {
  import opened Wrappers

  const U64_SIZE := 0x1_0000_0000_0000_0000
  const FNV_OFFSET: U64 := 0xcbf2_9ce4_8422_2325
  const FNV_PRIME := 0x0000_0100_0000_01b3

  type U64 = n: int | 0 <= n < 0x1_0000_0000_0000_0000

  function Two(bits: nat): (n: nat)
    ensures n > 0
  {
    if bits == 0 then 1 else 2 * Two(bits - 1)
  }

  /** Exclusive or of the low bits: one where they differ. */
  function Xor(a: nat, b: nat, bits: nat): (r: nat)
    ensures r < Two(bits)
  {
    if bits == 0 then 0 else 2 * Xor(a / 2, b / 2, bits - 1) + (if a % 2 == b % 2 then 0 else 1)
  }

  lemma ByteSize()
    ensures Two(8) == 256
  {
    assert Two(4) == 16 && Two(8) == 2 * (2 * (2 * (2 * Two(4))));
  }

  /** Exclusive or with one byte: it changes the low eight bits only. */
  function XorByte(hash: U64, b: char): U64 {
    ByteSize();
    hash - hash % 256 + Xor(hash % 256, b as int % 256, 8)
  }

  function WrappingMul(a: U64, b: nat): U64 {
    a * b % U64_SIZE
  }

  function FnvFrom(hash: U64, s: string): U64
    decreases |s|
  {
    if s == "" then hash else FnvFrom(WrappingMul(XorByte(hash, s[0]), FNV_PRIME), s[1..])
  }

  // ---- Different sessions ----

  lemma {:induction false} XorUndo(a: nat, b: nat, bits: nat)
    requires a < Two(bits)
    ensures Xor(Xor(a, b, bits), b, bits) == a
  {
    if bits > 0 {
      XorUndo(a / 2, b / 2, bits - 1);
      var r := Xor(a, b, bits);
      assert r / 2 == Xor(a / 2, b / 2, bits - 1);
    }
  }

  lemma {:induction false} XorDiffers(h: nat, a: nat, b: nat, bits: nat)
    requires a < Two(bits) && b < Two(bits) && Xor(h, a, bits) == Xor(h, b, bits)
    ensures a == b
  {
    if bits > 0 {
      var x, y := Xor(h / 2, a / 2, bits - 1), Xor(h / 2, b / 2, bits - 1);
      assert Xor(h, a, bits) / 2 == x && Xor(h, b, bits) / 2 == y;
      XorDiffers(h / 2, a / 2, b / 2, bits - 1);
    }
  }

  lemma XorParts(hash: U64, b: char)
    ensures XorByte(hash, b) / 256 == hash / 256
    ensures XorByte(hash, b) % 256 == Xor(hash % 256, b as int % 256, 8)
  {
    hide Xor;
    ByteSize();
    var low := Xor(hash % 256, b as int % 256, 8);
    assert XorByte(hash, b) == 256 * (hash / 256) + low;
  }

  /** Exclusive or undoes itself and keeps the high bits. */
  lemma XorMeaning(hash: U64, b: char)
    ensures XorByte(XorByte(hash, b), b) == hash
    ensures XorByte(hash, b) / 256 == hash / 256
  {
    hide Xor;
    ByteSize();
    XorParts(hash, b);
    XorParts(XorByte(hash, b), b);
    XorUndo(hash % 256, b as int % 256, 8);
  }

  lemma XorInjective(g: U64, h: U64, b: char)
    requires XorByte(g, b) == XorByte(h, b)
    ensures g == h
  {
    hide XorByte;
    XorMeaning(g, b);
    XorMeaning(h, b);
  }

  lemma XorApart(hash: U64, a: char, b: char)
    requires XorByte(hash, a) == XorByte(hash, b)
    ensures a as int % 256 == b as int % 256
  {
    hide Xor;
    ByteSize();
    XorParts(hash, a);
    XorParts(hash, b);
    XorDiffers(hash % 256, a as int % 256, b as int % 256, 8);
  }

  /** The inverse of the prime modulo 2^64. */
  const FNV_INVERSE := 0xce96_5057_aff6_957b

  lemma Multiple(q: int, size: int)
    requires size > 0 && -size < q * size < size
    ensures q == 0
  {
  }

  lemma Cancel(d: int, m: int, k: int, inverse: int, size: int)
    requires d * (1 + k * size) == m * inverse * size && -size < d < size
    ensures d == 0
  {
    var q := m * inverse - d * k;
    assert d == q * size;
    Multiple(q, size);
  }

  /** Multiplying by the prime loses nothing. */
  lemma MulInjective(a: U64, b: U64)
    requires WrappingMul(a, FNV_PRIME) == WrappingMul(b, FNV_PRIME)
    ensures a == b
  {
    var p, inv, size := FNV_PRIME, FNV_INVERSE, U64_SIZE;
    var k := p * inv / size;
    assert p * inv == 1 + k * size;
    var m := a * p / size - b * p / size;
    assert (a - b) * p == m * size;
    assert (a - b) * (p * inv) == m * inv * size;
    Cancel(a - b, m, k, inv, size);
  }

  lemma {:induction false} FnvInjective(g: U64, h: U64, s: string)
    requires FnvFrom(g, s) == FnvFrom(h, s)
    ensures g == h
    decreases |s|
  {
    if s != "" {
      FnvInjective(WrappingMul(XorByte(g, s[0]), FNV_PRIME), WrappingMul(XorByte(h, s[0]), FNV_PRIME), s[1..]);
      MulInjective(XorByte(g, s[0]), XorByte(h, s[0]));
      XorInjective(g, h, s[0]);
    }
  }

  lemma {:induction false} FnvConcat(hash: U64, a: string, b: string)
    ensures FnvFrom(hash, a + b) == FnvFrom(FnvFrom(hash, a), b)
    decreases |a|
  {
    if a == "" {
      assert a + b == b;
    } else {
      assert (a + b)[1..] == a[1..] + b;
      FnvConcat(WrappingMul(XorByte(hash, a[0]), FNV_PRIME), a[1..], b);
    }
  }

  /** Two sessions that differ in one byte have different hashes. */
  lemma OneByteApart(before: string, a: char, b: char, after: string)
    requires a as int % 256 != b as int % 256
    ensures FnvFrom(FNV_OFFSET, before + [a] + after) != FnvFrom(FNV_OFFSET, before + [b] + after)
  {
    var hash := FnvFrom(FNV_OFFSET, before);
    FnvConcat(FNV_OFFSET, before + [a], after);
    FnvConcat(FNV_OFFSET, before + [b], after);
    FnvConcat(FNV_OFFSET, before, [a]);
    FnvConcat(FNV_OFFSET, before, [b]);
    if FnvFrom(FNV_OFFSET, before + [a] + after) == FnvFrom(FNV_OFFSET, before + [b] + after) {
      FnvInjective(FnvFrom(hash, [a]), FnvFrom(hash, [b]), after);
      OneByte(hash, a);
      OneByte(hash, b);
      MulInjective(XorByte(hash, a), XorByte(hash, b));
      XorApart(hash, a, b);
    }
  }

  lemma OneByte(hash: U64, a: char)
    ensures FnvFrom(hash, [a]) == WrappingMul(XorByte(hash, a), FNV_PRIME)
  {
    assert [a][1..] == "";
  }

  lemma XorStep(a: nat, b: nat, bits: nat, half: nat)
    requires bits > 0 && Xor(a / 2, b / 2, bits - 1) == half
    ensures Xor(a, b, bits) == 2 * half + (if a % 2 == b % 2 then 0 else 1)
  {
  }

  lemma XorOfVector()
    ensures Xor(0x25, 0x61, 8) == 0x44
  {
    assert Xor(0, 0, 0) == 0;
    hide Xor;
    XorStep(0, 0, 1, 0);
    XorStep(0, 1, 2, 0);
    XorStep(1, 3, 3, 1);
    XorStep(2, 6, 4, 2);
    XorStep(4, 12, 5, 4);
    XorStep(9, 24, 6, 8);
    XorStep(18, 48, 7, 17);
    XorStep(37, 97, 8, 34);
  }

  lemma VectorXor()
    ensures XorByte(FNV_OFFSET, 'a') == 0xcbf2_9ce4_8422_2344
  {
    hide Xor;
    assert FNV_OFFSET % 256 == 0x25 && 'a' as int % 256 == 0x61;
    XorOfVector();
  }

  lemma VectorMul()
    ensures WrappingMul(0xcbf2_9ce4_8422_2344, FNV_PRIME) == 0xaf63_dc4c_8601_ec8c
  {
  }

  /** The published test vectors for the empty text and for "a". */
  lemma KnownAnswers()
    ensures FnvFrom(FNV_OFFSET, "") == 0xcbf2_9ce4_8422_2325
    ensures FnvFrom(FNV_OFFSET, "a") == 0xaf63_dc4c_8601_ec8c
  {
    hide XorByte, WrappingMul;
    OneByte(FNV_OFFSET, 'a');
    VectorXor();
    VectorMul();
    assert "a" == ['a'];
  }

  method Fnv1a(s: string) returns (hash: U64)
    ensures hash == FnvFrom(FNV_OFFSET, s)
  {
    hash := FNV_OFFSET;
    for i := 0 to |s|
      invariant FnvFrom(hash, s[i..]) == FnvFrom(FNV_OFFSET, s)
    {
      assert s[i..][1..] == s[i + 1..];
      hash := XorByte(hash, s[i]);
      hash := WrappingMul(hash, FNV_PRIME);
    }
    assert s[|s|..] == "";
  }

  /** The index a session id is pinned to among `len` candidates. */
  function StickyIndex(session: string, len: nat): (i: nat)
    requires len > 0
    ensures i < len
  {
    FnvFrom(FNV_OFFSET, session) % len
  }

  /** Sticky with a session, any candidate without one. */
  method PickIndex(len: nat, session: Option<string>) returns (r: Option<nat>)
    ensures r.None? <==> len == 0
    ensures r.Some? ==> r.value < len
    ensures r.Some? && session.Some? ==> r.value == StickyIndex(session.value, len)
  {
    if len == 0 {
      return None;
    }
    match session {
      case Some(s) =>
        var hash := Fnv1a(s);
        r := Some(hash % len);
      case None =>
        var i: nat :| i < len;
        r := Some(i);
    }
  }
}
