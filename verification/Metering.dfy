// Metering: the value debited for relayed bytes, the single-statement debit that
// serves as specification, and the in-memory backend that refines it.
module Metering {
  import opened Wrappers

  const I64_MAX := 0x7fff_ffff_ffff_ffff

  type I64 = n: int | -0x8000_0000_0000_0000 <= n <= 0x7fff_ffff_ffff_ffff

  // ---- Debit arithmetic ----

  function Min(a: int, b: int): int {
    if a < b then a else b
  }

  /** Rounding half away from zero. */
  function Round(x: real): int {
    if x >= 0.0 then (x + 0.5).Floor else -((-x + 0.5).Floor)
  }

  /** Bytes of one report: each count clamped to i64, added with saturation. */
  function ReportedBytes(bytesIn: nat, bytesOut: nat): nat {
    Min(Min(bytesIn, I64_MAX) + Min(bytesOut, I64_MAX), I64_MAX)
  }

  function Debit(bytesIn: nat, bytesOut: nat, cost: real): (d: nat)
    ensures d <= I64_MAX
  {
    var debit := Round(ReportedBytes(bytesIn, bytesOut) as real * cost);
    if debit > 0 then Min(debit, I64_MAX) else 0
  }

  /** Counts beyond 64 bits, alone or together, are debited as the largest count. */
  lemma DebitClamped(bytesIn: nat, bytesOut: nat, cost: real)
    ensures bytesIn + bytesOut >= I64_MAX ==> Debit(bytesIn, bytesOut, cost) == Debit(I64_MAX, 0, cost)
    ensures Debit(bytesIn, bytesOut, cost) == Debit(bytesOut, bytesIn, cost)
    ensures cost <= 0.0 ==> Debit(bytesIn, bytesOut, cost) == 0
  {
    assert ReportedBytes(bytesIn, bytesOut) == if bytesIn + bytesOut >= I64_MAX then I64_MAX else bytesIn + bytesOut;
    if cost <= 0.0 {
      NotPositive(ReportedBytes(bytesIn, bytesOut) as real, cost);
    }
  }

  lemma NotPositive(a: real, b: real)
    requires a >= 0.0 && b <= 0.0
    ensures Round(a * b) <= 0
  {
    hide Round;
    ProductNonNegative(a, -b);
    assert a * b == -(a * -b);
    RoundBelow(a * b);
  }

  lemma RoundBelow(x: real)
    requires x <= 0.0
    ensures Round(x) <= 0
  {
    if x < 0.0 {
      var f := (-x + 0.5).Floor;
      assert -x + 0.5 < f as real + 1.0;
    } else {
      assert (x + 0.5).Floor == 0;
    }
  }

  datatype Report = Report(bytesIn: nat, bytesOut: nat)

  function TotalBytes(reports: seq<Report>): nat {
    if reports == [] then 0
    else
      var r := reports[|reports| - 1];
      TotalBytes(reports[..|reports| - 1]) + r.bytesIn + r.bytesOut
  }

  function TotalDebit(reports: seq<Report>, cost: real): nat {
    if reports == [] then 0
    else
      var r := reports[|reports| - 1];
      TotalDebit(reports[..|reports| - 1], cost) + Debit(r.bytesIn, r.bytesOut, cost)
  }

  /** No clamp takes effect. */
  ghost predicate BelowSaturation(reports: seq<Report>, cost: real) {
    forall r :: r in reports ==>
                  && r.bytesIn + r.bytesOut <= I64_MAX
                  && (r.bytesIn + r.bytesOut) as real * cost <= I64_MAX as real
  }

  lemma ProductNonNegative(a: real, b: real)
    requires a >= 0.0 && b >= 0.0
    ensures a * b >= 0.0
  {
  }

  lemma RoundNear(x: real, max: nat)
    requires 0.0 <= x <= max as real
    ensures 0 <= Round(x) <= max
    ensures -0.5 <= Round(x) as real - x <= 0.5
  {
    var f := (x + 0.5).Floor;
    assert f as real <= x + 0.5 < f as real + 1.0;
    assert f < max + 1;
  }

  lemma BilledNear(n: nat, cost: real)
    requires cost >= 0.0 && Admissible(n, cost)
    ensures -0.5 <= Billed(n, cost) as real - n as real * cost <= 0.5
  {
    ProductNonNegative(n as real, cost);
    RoundNear(n as real * cost, I64_MAX);
  }

  lemma DebitError(r: Report, cost: real)
    requires cost >= 0.0 && BelowSaturation([r], cost)
    ensures var exact := (r.bytesIn + r.bytesOut) as real * cost;
            -0.5 <= Debit(r.bytesIn, r.bytesOut, cost) as real - exact <= 0.5
  {
    hide Debit, Billed, Admissible, BelowSaturation;
    DebitIsBilled(r, cost);
    BilledNear(r.bytesIn + r.bytesOut, cost);
  }

  lemma RoundAbove(x: real, n: nat)
    requires n as real <= x
    ensures n <= Round(x)
  {
    var f := (x + 0.5).Floor;
    assert x + 0.5 < f as real + 1.0;
    assert n < f + 1;
  }

  lemma Larger(a: real, c: real)
    requires a >= 0.0 && c >= 1.0
    ensures a * c >= a
  {
    assert a * c - a == a * (c - 1.0);
    ProductNonNegative(a, c - 1.0);
  }

  /** At one unit per byte or more, a debit is at least the bytes. */
  lemma DebitCoversBytes(bytesIn: nat, bytesOut: nat, cost: real)
    requires cost >= 1.0 && bytesIn + bytesOut <= I64_MAX
    ensures Debit(bytesIn, bytesOut, cost) >= bytesIn + bytesOut
  {
    hide Round;
    assert ReportedBytes(bytesIn, bytesOut) == bytesIn + bytesOut;
    Larger(ReportedBytes(bytesIn, bytesOut) as real, cost);
    RoundAbove(ReportedBytes(bytesIn, bytesOut) as real * cost, ReportedBytes(bytesIn, bytesOut));
  }

  /** How far an amount is from the exact cost. */
  function Gap(debited: int, bytes: int, cost: real): real {
    debited as real - bytes as real * cost
  }

  /** How far the debits are from the exact cost. */
  function Drift(reports: seq<Report>, cost: real): real {
    Gap(TotalDebit(reports, cost), TotalBytes(reports), cost)
  }

  lemma DriftSnoc(init: seq<Report>, r: Report, cost: real)
    ensures Drift(init + [r], cost)
            == Drift(init, cost)
               + (Debit(r.bytesIn, r.bytesOut, cost) as real - (r.bytesIn + r.bytesOut) as real * cost)
  {
    hide Debit;
    assert (init + [r])[..|init|] == init;
    Distribute(TotalBytes(init) as real, (r.bytesIn + r.bytesOut) as real, cost);
  }

  /** Over `n` reports the debits drift from the exact cost by at most `n / 2`. */
  lemma {:induction false} MeteringErrorBound(reports: seq<Report>, cost: real)
    requires cost >= 0.0 && BelowSaturation(reports, cost)
    ensures -(|reports| as real) <= 2.0 * Drift(reports, cost) <= |reports| as real
  {
    if reports == [] {
      assert TotalDebit(reports, cost) == 0 && TotalBytes(reports) == 0;
    } else {
      hide Debit, Drift;
      var init, r := reports[..|reports| - 1], reports[|reports| - 1];
      assert forall q :: q in init ==> q in reports;
      MeteringErrorBound(init, cost);
      assert r in reports;
      DebitError(r, cost);
      DriftSnoc(init, r, cost);
      assert reports == init + [r];
    }
  }

  lemma Distribute(a: real, b: real, c: real)
    ensures (a + b) * c == a * c + b * c
  {
  }

  lemma RoundInt(n: nat)
    ensures Round(n as real) == n
  {
    var f := (n as real + 0.5).Floor;
    assert f as real <= n as real + 0.5 < f as real + 1.0;
  }

  /** At an integer cost nothing drifts: the total depends on the bytes only, not on the chunks. */
  lemma {:induction false} IntegerCostExact(reports: seq<Report>, cost: nat)
    requires BelowSaturation(reports, cost as real)
    ensures TotalDebit(reports, cost as real) == cost * TotalBytes(reports)
  {
    if reports != [] {
      var init, r := reports[..|reports| - 1], reports[|reports| - 1];
      assert forall q :: q in init ==> q in reports;
      IntegerCostExact(init, cost);
      assert r in reports;
      var bytes := r.bytesIn + r.bytesOut;
      assert bytes as real * cost as real == (bytes * cost) as real;
      RoundInt(bytes * cost);
      assert cost * (TotalBytes(init) + bytes) == cost * TotalBytes(init) + bytes * cost;
    }
  }

  // ---- When the chunking does not show ----

  /** The same bytes cost the same however they were split into reports. */
  ghost predicate ChunkingFree(cost: real) {
    forall a, b :: BelowSaturation(a, cost) && BelowSaturation(b, cost) && TotalBytes(a) == TotalBytes(b) ==>
                     TotalDebit(a, cost) == TotalDebit(b, cost)
  }

  /** `n` bytes can be reported at once without a clamp. */
  predicate Admissible(n: nat, cost: real) {
    n <= I64_MAX && n as real * cost <= I64_MAX as real
  }

  /** The debit of `n` bytes reported at once, no clamp in effect. */
  function Billed(n: nat, cost: real): int {
    Round(n as real * cost)
  }

  ghost predicate RoundsEvenly(cost: real) {
    forall n: nat :: Admissible(n, cost) ==> Billed(n, cost) == n * Round(cost)
  }

  /** The most bytes one report can hold without a clamp. */
  function MaxReport(cost: real): nat
    requires cost >= 0.0
  {
    if cost <= 1.0 then I64_MAX else QuotientFloor(cost)
  }

  function QuotientFloor(cost: real): (n: nat)
    requires cost > 1.0
    ensures n as real <= I64_MAX as real / cost < n as real + 1.0
  {
    (I64_MAX as real / cost).Floor
  }

  function Times(a: real, b: real): real {
    a * b
  }

  /** How far `n` bytes at the exact cost are from `n` rounded unit costs. */
  function Stray(n: nat, cost: real): real {
    Times(n as real, cost - Round(cost) as real)
  }

  /** The largest report strays by less than a half, or by minus a half. */
  predicate NearInteger(cost: real)
    requires cost >= 0.0
  {
    -0.5 <= Stray(MaxReport(cost), cost) < 0.5
  }

  lemma Scale(a: real, b: real, c: real)
    requires a <= b && c >= 0.0
    ensures a * c <= b * c && c * a <= c * b
  {
  }

  lemma ScaleBelow(a: real, b: real, c: real, max: real)
    requires a <= b && c >= 0.0 && b * c <= max
    ensures a * c <= max
  {
    Scale(a, b, c);
  }

  /** Exactly the sizes up to the largest are admissible. */
  lemma AdmissibleUpToMax(n: nat, cost: real)
    requires cost >= 0.0
    ensures Admissible(n, cost) <==> n <= MaxReport(cost)
  {
    if cost <= 1.0 {
      Scale(cost, 1.0, n as real);
      assert n as real * cost <= n as real;
      assert n <= I64_MAX ==> n as real <= I64_MAX as real;
    } else {
      var q := I64_MAX as real / cost;
      assert q * cost == I64_MAX as real;
      if n as real <= q {
        Scale(n as real, q, cost);
        Scale(1.0, cost, n as real);
      } else {
        assert n as real * cost > q * cost by { Strictly(q, n as real, cost); }
      }
    }
  }

  lemma Strictly(a: real, b: real, c: real)
    requires a < b && c > 0.0
    ensures a * c < b * c
  {
  }

  lemma BilledOffset(n: nat, cost: real, m: int, d: real)
    requires 0.0 <= n as real * cost == m as real + d
    ensures Billed(n, cost) == m <==> -0.5 <= d < 0.5
  {
    var x := n as real * cost;
    var f := (x + 0.5).Floor;
    assert f as real <= x + 0.5 < f as real + 1.0;
  }

  lemma SplitProduct(n: nat, cost: real, r: int)
    ensures n as real * cost == (n * r) as real + Times(n as real, cost - r as real)
  {
    assert n as real * r as real == (n * r) as real;
  }

  /** `n` bytes round to `n` times the unit cost exactly when they stray within a half. */
  lemma BilledMultiple(n: nat, cost: real)
    requires cost >= 0.0
    ensures Billed(n, cost) == n * Round(cost) <==> -0.5 <= Stray(n, cost) < 0.5
  {
    hide Round, Times, Billed;
    ProductNonNegative(n as real, cost);
    SplitProduct(n, cost, Round(cost));
    BilledOffset(n, cost, n * Round(cost), Stray(n, cost));
  }

  lemma StrayGrows(n: nat, max: nat, cost: real)
    requires n <= max && -0.5 <= Stray(max, cost) < 0.5
    ensures -0.5 <= Stray(n, cost) < 0.5
  {
    hide Round, Times;
    Between(n as real, max as real, cost - Round(cost) as real);
  }

  lemma Between(n: real, max: real, d: real)
    requires 0.0 <= n <= max
    ensures d >= 0.0 ==> 0.0 <= Times(n, d) <= Times(max, d)
    ensures d <= 0.0 ==> Times(max, d) <= Times(n, d) <= 0.0
  {
  }

  /** The largest report decides for all. */
  lemma EvenlyIsNear(cost: real)
    requires cost >= 0.0
    ensures RoundsEvenly(cost) <==> NearInteger(cost)
  {
    hide Round, Stray, Billed, MaxReport, Admissible;
    var max := MaxReport(cost);
    AdmissibleUpToMax(max, cost);
    BilledMultiple(max, cost);
    if NearInteger(cost) {
      forall n: nat | Admissible(n, cost)
        ensures Billed(n, cost) == n * Round(cost)
      {
        AdmissibleUpToMax(n, cost);
        StrayGrows(n, max, cost);
        BilledMultiple(n, cost);
      }
    }
  }

  lemma DebitIsBilled(r: Report, cost: real)
    requires cost >= 0.0 && BelowSaturation([r], cost)
    ensures Debit(r.bytesIn, r.bytesOut, cost) == Billed(r.bytesIn + r.bytesOut, cost)
    ensures Admissible(r.bytesIn + r.bytesOut, cost)
  {
    assert r in [r];
    var bytes := r.bytesIn + r.bytesOut;
    ProductNonNegative(bytes as real, cost);
    RoundNear(bytes as real * cost, I64_MAX);
  }

  lemma DistributeInt(a: int, b: int, c: int)
    ensures (a + b) * c == a * c + b * c
  {
  }

  lemma {:induction false} EvenTotal(reports: seq<Report>, cost: real)
    requires cost >= 0.0 && BelowSaturation(reports, cost) && RoundsEvenly(cost)
    ensures TotalDebit(reports, cost) == TotalBytes(reports) * Round(cost)
  {
    if reports != [] {
      hide Round, Debit, Billed, Admissible;
      var init, r := reports[..|reports| - 1], reports[|reports| - 1];
      assert forall q :: q in init ==> q in reports;
      EvenTotal(init, cost);
      assert r in reports;
      DebitIsBilled(r, cost);
      DistributeInt(TotalBytes(init), r.bytesIn + r.bytesOut, Round(cost));
    }
  }

  /** `n` reports of one byte. */
  function Singles(n: nat): (r: seq<Report>)
    ensures |r| == n && forall q :: q in r ==> q == Report(1, 0)
  {
    seq(n, _ => Report(1, 0))
  }

  lemma {:induction false} SinglesTotal(n: nat, cost: real)
    ensures TotalBytes(Singles(n)) == n && TotalDebit(Singles(n), cost) == n * Debit(1, 0, cost)
  {
    hide Debit;
    if n > 0 {
      SinglesTotal(n - 1, cost);
      assert Singles(n)[..n - 1] == Singles(n - 1);
    }
  }

  lemma OneReport(n: nat, cost: real)
    ensures TotalBytes([Report(n, 0)]) == n && TotalDebit([Report(n, 0)], cost) == Debit(n, 0, cost)
  {
    hide Debit;
    assert [Report(n, 0)][..0] == [];
  }

  /** Splitting `n` bytes into single ones must not show. */
  lemma FreeRoundsEvenly(n: nat, cost: real)
    requires cost >= 0.0 && ChunkingFree(cost) && Admissible(n, cost)
    ensures Billed(n, cost) == n * Round(cost)
  {
    hide Debit, Round, Billed, ChunkingFree, TotalBytes, TotalDebit;
    if n == 0 {
      BilledMultiple(0, cost);
    } else {
      AdmissibleOne(n, cost);
      SinglesTotal(n, cost);
      OneReport(n, cost);
      DebitIsBilled(Report(n, 0), cost);
      DebitIsBilled(Report(1, 0), cost);
      FreeUse(Singles(n), [Report(n, 0)], cost);
      BilledOne(cost);
    }
  }

  lemma FreeUse(a: seq<Report>, b: seq<Report>, cost: real)
    requires ChunkingFree(cost)
    requires BelowSaturation(a, cost) && BelowSaturation(b, cost) && TotalBytes(a) == TotalBytes(b)
    ensures TotalDebit(a, cost) == TotalDebit(b, cost)
  {
  }

  lemma BilledOne(cost: real)
    ensures Billed(1, cost) == Round(cost)
  {
  }

  lemma AdmissibleOne(n: nat, cost: real)
    requires cost >= 0.0 && Admissible(n, cost) && n >= 1
    ensures BelowSaturation([Report(n, 0)], cost) && BelowSaturation(Singles(n), cost)
    ensures BelowSaturation([Report(1, 0)], cost)
  {
    Scale(1.0, n as real, cost);
  }

  /** The total depends on the bytes only, not on the chunks, exactly at costs this near an integer. */
  lemma ChunkingIrrelevantIff(cost: real)
    requires cost >= 0.0
    ensures ChunkingFree(cost) <==> RoundsEvenly(cost)
    ensures ChunkingFree(cost) <==> NearInteger(cost)
  {
    hide Round, Billed, NearInteger, Admissible, BelowSaturation, TotalBytes, TotalDebit;
    EvenlyIsNear(cost);
    if RoundsEvenly(cost) {
      forall a, b | BelowSaturation(a, cost) && BelowSaturation(b, cost) && TotalBytes(a) == TotalBytes(b)
        ensures TotalDebit(a, cost) == TotalDebit(b, cost)
      {
        EvenTotal(a, cost);
        EvenTotal(b, cost);
      }
    }
    if ChunkingFree(cost) {
      forall n: nat | Admissible(n, cost)
        ensures Billed(n, cost) == n * Round(cost)
      {
        FreeRoundsEvenly(n, cost);
      }
    }
  }

  /** Every integer cost qualifies. */
  lemma ChunkingIrrelevant(a: seq<Report>, b: seq<Report>, cost: nat)
    requires BelowSaturation(a, cost as real) && BelowSaturation(b, cost as real)
    requires TotalBytes(a) == TotalBytes(b)
    ensures TotalDebit(a, cost as real) == TotalDebit(b, cost as real)
    ensures NearInteger(cost as real)
  {
    IntegerCostExact(a, cost);
    IntegerCostExact(b, cost);
    RoundInt(cost);
  }

  /** At a fractional cost the chunking shows: two single bytes cost more than one pair. */
  lemma ChunkingMattersAtHalf()
    ensures var one, two := Report(1, 0), Report(2, 0);
            && TotalBytes([one, one]) == TotalBytes([two])
            && TotalDebit([one, one], 0.5) == 2 && TotalDebit([two], 0.5) == 1
    ensures !NearInteger(0.5)
  {
    var one, two := Report(1, 0), Report(2, 0);
    assert [one, one][..1] == [one] && [one][..0] == [] && [two][..0] == [];
    assert Debit(1, 0, 0.5) == 1 && Debit(2, 0, 0.5) == 1;
    assert TotalDebit([one], 0.5) == 1;
    assert Round(0.5) == 1 && MaxReport(0.5) == I64_MAX;
  }

  // ---- The debit as one statement ----

  /** GREATEST(balance - debit, 0). */
  function Debited(balance: int, debit: nat): int {
    if balance - debit > 0 then balance - debit else 0
  }

  /** The statement executed once for each debit. */
  function SqlRun(balance: int, debits: seq<nat>): int {
    if debits == [] then balance
    else Debited(SqlRun(balance, debits[..|debits| - 1]), debits[|debits| - 1])
  }

  lemma SqlRunSnoc(balance: int, debits: seq<nat>, debit: nat)
    ensures SqlRun(balance, debits + [debit]) == Debited(SqlRun(balance, debits), debit)
  {
    assert (debits + [debit])[..|debits|] == debits;
  }

  function Sum(debits: seq<nat>): nat {
    if debits == [] then 0 else Sum(debits[..|debits| - 1]) + debits[|debits| - 1]
  }

  /** Whatever the order, the balance is the limit less the sum, floored at zero. */
  lemma {:induction false} SqlRunIsSum(balance: int, debits: seq<nat>)
    requires balance >= 0
    ensures SqlRun(balance, debits) == if balance > Sum(debits) then balance - Sum(debits) else 0
  {
    if debits != [] {
      SqlRunIsSum(balance, debits[..|debits| - 1]);
    }
  }

  lemma {:induction false} SumSplit(a: seq<nat>, b: seq<nat>)
    ensures Sum(a + b) == Sum(a) + Sum(b)
  {
    if b == [] {
      assert a + b == a;
    } else {
      assert (a + b)[..|a + b| - 1] == a + b[..|b| - 1];
      SumSplit(a, b[..|b| - 1]);
    }
  }

  function Without(s: seq<nat>, k: nat): seq<nat>
    requires k < |s|
  {
    s[..k] + s[k + 1..]
  }

  lemma SumThree(p: seq<nat>, x: nat, q: seq<nat>)
    ensures Sum(p + [x] + q) == Sum(p + q) + x
  {
    SumSplit(p, q);
    SumSplit(p + [x], q);
    assert (p + [x])[..|p|] == p;
  }

  lemma BagThree(p: seq<nat>, x: nat, q: seq<nat>)
    ensures multiset(p + q) == multiset(p + [x] + q) - multiset{x}
  {
    assert multiset(p + [x] + q) == multiset(p) + multiset{x} + multiset(q);
  }

  lemma SumWithout(s: seq<nat>, k: nat)
    requires k < |s|
    ensures Sum(s) == Sum(Without(s, k)) + s[k]
  {
    hide Sum;
    var p, q := s[..k], s[k + 1..];
    assert s == p + [s[k]] + q && Without(s, k) == p + q;
    SumThree(p, s[k], q);
  }

  lemma BagWithout(s: seq<nat>, k: nat)
    requires k < |s|
    ensures multiset(Without(s, k)) == multiset(s) - multiset{s[k]}
  {
    var p, q := s[..k], s[k + 1..];
    assert s == p + [s[k]] + q && Without(s, k) == p + q;
    BagThree(p, s[k], q);
  }

  lemma {:induction false} SumPermuted(a: seq<nat>, b: seq<nat>)
    requires multiset(a) == multiset(b)
    ensures Sum(a) == Sum(b)
    decreases |a|
  {
    assert |a| == |multiset(a)| == |multiset(b)| == |b|;
    if a != [] {
      assert a[0] in multiset(b);
      var k :| 0 <= k < |b| && b[k] == a[0];
      SumWithout(a, 0);
      SumWithout(b, k);
      BagWithout(a, 0);
      BagWithout(b, k);
      SumPermuted(Without(a, 0), Without(b, k));
    }
  }

  /** Any order of the same debits leaves the same balance. */
  lemma OrderIrrelevant(balance: int, a: seq<nat>, b: seq<nat>)
    requires balance >= 0 && multiset(a) == multiset(b)
    ensures SqlRun(balance, a) == SqlRun(balance, b)
  {
    SumPermuted(a, b);
    SqlRunIsSum(balance, a);
    SqlRunIsSum(balance, b);
  }

  lemma {:induction false} SqlRunConcat(balance: int, a: seq<nat>, b: seq<nat>)
    ensures SqlRun(balance, a + b) == SqlRun(SqlRun(balance, a), b)
  {
    if b == [] {
      assert a + b == a;
    } else {
      assert (a + b)[..|a + b| - 1] == a + b[..|b| - 1];
      SqlRunConcat(balance, a, b[..|b| - 1]);
    }
  }

  // ---- The in-memory backend ----

  type Peer = string

  datatype Account = Account(id: I64, bandwidthLimit: Option<I64>, defaultSelection: Option<string>)

  class StaticUser {
    const username: string
    const password: string
    var remaining: Option<I64>
    const allowedNets: seq<Peer -> bool>
    const defaultSelection: Option<string>

    constructor (username: string, password: string, limit: Option<I64>, nets: seq<Peer -> bool>, selection: Option<string>)
      ensures this.username == username && this.password == password && remaining == limit
      ensures allowedNets == nets && defaultSelection == selection
    {
      this.username, this.password, this.remaining := username, password, limit;
      this.allowedNets, this.defaultSelection := nets, selection;
    }

    predicate Allows(peer: Peer) {
      exists j :: 0 <= j < |allowedNets| && allowedNets[j](peer)
    }
  }

  /** A peer is allowed exactly when some network of the user contains it. */
  lemma AllowsMeaning(user: StaticUser, peer: Peer)
    ensures forall j :: 0 <= j < |user.allowedNets| && user.allowedNets[j](peer) ==> user.Allows(peer)
    ensures user.Allows(peer) ==> |user.allowedNets| > 0
    ensures user.Allows(peer) ==> !(forall j :: 0 <= j < |user.allowedNets| ==> !user.allowedNets[j](peer))
  {
  }

  /** What happens around one attempt of the swap: other callers' debits, a spurious failure. */
  datatype Attempt = Attempt(others: seq<nat>, spurious: bool)

  /** The debits of other callers before attempt `n` has ended. */
  function OthersUpTo(schedule: seq<Attempt>, n: nat): seq<nat>
    requires n <= |schedule|
  {
    if n == 0 then [] else OthersUpTo(schedule, n - 1) + schedule[n - 1].others
  }

  class StaticAuthBackend {
    const users: seq<StaticUser>

    constructor (users: seq<StaticUser>)
      ensures this.users == users
    {
      this.users := users;
    }

    /** Distinct users, as many as an index can count. */
    ghost predicate Valid() {
      && |users| < I64_MAX
      && forall i, j :: 0 <= i < j < |users| ==> users[i] != users[j]
    }

    function IdOf(index: nat): (id: I64)
      requires index < |users| && Valid()
      ensures id == index + 1
    {
      Min(index, I64_MAX) + 1
    }

    /** The user an account id stands for. */
    function UserOf(id: I64): Option<nat> {
      if 0 <= id - 1 < |users| then Some(id - 1) else None
    }

    /** Ids and indices are inverse, so a debit never lands on another user. */
    lemma IdsInvert(id: I64, index: nat)
      requires Valid() && index < |users|
      ensures UserOf(IdOf(index)) == Some(index)
      ensures UserOf(id) == Some(index) <==> id == IdOf(index)
    {
    }

    function AccountFor(index: nat): Account
      requires index < |users| && Valid()
      reads users[index]
    {
      Account(IdOf(index), users[index].remaining, users[index].defaultSelection)
    }

    predicate Knows(i: nat, username: string, secret: string)
      requires i < |users|
    {
      users[i].username == username && users[i].password == secret
    }

    /** The first user from `i` on with these credentials. */
    function FirstKnown(i: nat, username: string, secret: string): (r: Option<nat>)
      requires i <= |users|
      ensures r.None? <==> forall j :: i <= j < |users| ==> !Knows(j, username, secret)
      ensures r.Some? ==>
                && i <= r.value < |users| && Knows(r.value, username, secret)
                && forall j :: i <= j < r.value ==> !Knows(j, username, secret)
      decreases |users| - i
    {
      if i == |users| then None
      else if Knows(i, username, secret) then Some(i)
      else FirstKnown(i + 1, username, secret)
    }

    /** The first user from `i` on whose networks contain the peer. */
    function FirstAllowed(i: nat, peer: Peer): (r: Option<nat>)
      requires i <= |users|
      ensures r.None? <==> forall j :: i <= j < |users| ==> !users[j].Allows(peer)
      ensures r.Some? ==>
                && i <= r.value < |users| && users[r.value].Allows(peer)
                && forall j :: i <= j < r.value ==> !users[j].Allows(peer)
      decreases |users| - i
    {
      if i == |users| then None
      else if users[i].Allows(peer) then Some(i)
      else FirstAllowed(i + 1, peer)
    }

    method Authenticate(username: string, secret: string) returns (r: Option<Account>)
      requires Valid()
      ensures var first := FirstKnown(0, username, secret);
              r == if first.None? then None else Some(AccountFor(first.value))
    {
      for i := 0 to |users|
        invariant FirstKnown(0, username, secret) == FirstKnown(i, username, secret)
      {
        if users[i].username == username && users[i].password == secret {
          return Some(AccountFor(i));
        }
      }
      r := None;
    }

    method AuthenticateByIp(peer: Peer) returns (r: Option<Account>)
      requires Valid()
      ensures var first := FirstAllowed(0, peer);
              r == if first.None? then None else Some(AccountFor(first.value))
    {
      for i := 0 to |users|
        invariant FirstAllowed(0, peer) == FirstAllowed(i, peer)
      {
        if users[i].Allows(peer) {
          return Some(AccountFor(i));
        }
      }
      r := None;
    }

    /**
     * Record relayed bytes. `schedule` says what other callers and the hardware do
     * during the swap loop, until they leave it alone. The call takes effect as
     * one execution of the statement, after the first `landed` attempts.
     */
    method ReportUsage(id: I64, bytesIn: nat, bytesOut: nat, cost: real, schedule: seq<Attempt>)
      returns (r: Option<I64>, ghost landed: nat)
      requires Valid()
      requires forall i :: 0 <= i < |users| && users[i].remaining.Some? ==> users[i].remaining.value >= 0
      modifies users
      ensures landed <= |schedule|
      ensures r.Some? <==> UserOf(id).Some? && old(users[UserOf(id).value].remaining).Some?
      ensures r.Some? ==>
                var user := users[UserOf(id).value];
                && user.remaining == r
                && r.value == Debited(SqlRun(old(user.remaining).value, OthersUpTo(schedule, landed)),
                                      Debit(bytesIn, bytesOut, cost))
      ensures forall j :: 0 <= j < |users| && (r.None? || Some(j) != UserOf(id)) ==>
                            users[j].remaining == old(users[j].remaining)
    {
      hide Debit, Sum;
      landed := 0;
      var idx := UserOf(id);
      if idx.Some? {
        var user := users[idx.value];
        if user.remaining.Some? {
          var debit := Debit(bytesIn, bytesOut, cost);
          var cur: I64 := user.remaining.value;
          var attempt := 0;
          while true
            invariant attempt <= |schedule| && user.remaining == Some(cur) && cur >= 0
            invariant cur == SqlRun(old(user.remaining).value, OthersUpTo(schedule, attempt))
            invariant forall j :: 0 <= j < |users| && j != idx.value ==> users[j].remaining == old(users[j].remaining)
            decreases |schedule| - attempt
          {
            var difference: I64 := cur - debit;
            var next: I64 := if difference > 0 then difference else 0;
            var spurious := false;
            landed := attempt;
            if attempt < |schedule| {
              var others := schedule[attempt].others;
              SqlRunConcat(old(user.remaining).value, OthersUpTo(schedule, attempt), others);
              SqlRunIsSum(cur, others);
              user.remaining := Some(SqlRun(cur, others));
              spurious := schedule[attempt].spurious;
              landed := attempt + 1;
            }
            if user.remaining == Some(cur) && !spurious {
              user.remaining := Some(next);
              return Some(next), landed;
            }
            cur := user.remaining.value;
            attempt := attempt + 1;
          }
        }
      }
      r := None;
    }
  }
}
