// One direction of the relay as sequential code: the read, report, write loop
// over a reused buffer, against an account debited one statement at a time.
module Pump {
  import opened Wrappers
  import opened Metering
  import opened Relay

  function Joined(chunks: seq<string>): string {
    if chunks == [] then "" else Joined(chunks[..|chunks| - 1]) + chunks[|chunks| - 1]
  }

  lemma JoinedSnoc(chunks: seq<string>, m: nat)
    requires m < |chunks|
    ensures Joined(chunks[..m + 1]) == Joined(chunks[..m]) + chunks[m]
  {
    assert chunks[..m + 1][..m] == chunks[..m];
  }

  /** Debits of the chunks of direction `way` (0 is client to upstream). */
  function ChunkDebits(chunks: seq<string>, way: nat, cost: real): seq<nat> {
    seq(|chunks|, k requires 0 <= k < |chunks| => ChunkDebit(way, |chunks[k]|, cost))
  }

  /** `m` chunks go through: as long as the debits so far stay below the allowance. */
  ghost predicate CutAt(left: int, debits: seq<nat>, m: nat) {
    && m <= |debits|
    && (m > 0 ==> Sum(debits[..m]) < left)
    && (m < |debits| ==> Sum(debits[..m + 1]) >= left)
  }

  /** The cut is determined by the allowance and the debits alone. */
  lemma CutUnique(left: int, debits: seq<nat>, m: nat, n: nat)
    requires CutAt(left, debits, m) && CutAt(left, debits, n)
    ensures m == n
  {
    if m < n {
      SumMonotone(debits, m + 1, n);
    } else if n < m {
      SumMonotone(debits, n + 1, m);
    }
  }

  lemma SumMonotone(debits: seq<nat>, a: nat, b: nat)
    requires a <= b <= |debits|
    ensures Sum(debits[..a]) <= Sum(debits[..b])
  {
    SumSplit(debits[..a], debits[a..b]);
    assert debits[..b] == debits[..a] + debits[a..b];
  }

  predicate Chunks(chunks: seq<string>) {
    forall c :: c in chunks ==> 1 <= |c| <= BUFFER
  }

  lemma NextDebit(left: int, debits: seq<nat>, m: nat)
    requires left >= 0 && m < |debits|
    ensures SqlRun(left, debits[..m + 1]) == Debited(SqlRun(left, debits[..m]), debits[m])
    ensures SqlRun(left, debits[..m + 1]) > 0 <==> Sum(debits[..m + 1]) < left
  {
    assert debits[..m + 1] == debits[..m] + [debits[m]];
    SqlRunSnoc(left, debits[..m], debits[m]);
    SqlRunIsSum(left, debits[..m + 1]);
  }

  /** An account as its backend debits it: one statement for each report, nothing for an unlimited one. */
  class AccountRow {
    var bandwidthLimit: Option<int>

    method ReportUsage(bytesIn: nat, bytesOut: nat, cost: real) returns (r: Option<int>)
      modifies this
      ensures r == bandwidthLimit
      ensures bandwidthLimit ==
              if old(bandwidthLimit).None? then None
              else Some(Debited(old(bandwidthLimit).value, Debit(bytesIn, bytesOut, cost)))
    {
      if bandwidthLimit.Some? {
        bandwidthLimit := Some(Debited(bandwidthLimit.value, Debit(bytesIn, bytesOut, cost)));
      }
      r := bandwidthLimit;
    }
  }

  /** Report one chunk; true when it may not be forwarded. */
  method Charge(row: AccountRow, cost: real, way: nat, n: nat) returns (exceeded: bool)
    modifies row
    ensures row.bandwidthLimit ==
            if old(row.bandwidthLimit).None? then None
            else Some(Debited(old(row.bandwidthLimit).value, ChunkDebit(way, n, cost)))
    ensures exceeded <==> row.bandwidthLimit.Some? && row.bandwidthLimit.value <= 0
  {
    hide Debit;
    var remaining: Option<int>;
    if way % 2 == 0 {
      remaining := row.ReportUsage(0, n, cost);
    } else {
      remaining := row.ReportUsage(n, 0, cost);
    }
    exceeded := remaining.Some? && remaining.value <= 0;
  }

  method Fill(buf: array<char>, chunk: string)
    requires |chunk| <= buf.Length
    modifies buf
    ensures buf[..|chunk|] == chunk
  {
    forall k | 0 <= k < |chunk| {
      buf[k] := chunk[k];
    }
  }

  /** The balance after the first `i` debits of `limit`. */
  ghost predicate BalanceAt(limit: Option<int>, debits: seq<nat>, i: nat, now: Option<int>) {
    if limit.None? then now.None?
    else
      && i <= |debits| && now == Some(SqlRun(limit.value, debits[..i]))
      && (i > 0 ==> Sum(debits[..i]) < limit.value)
  }

  /**
   * The loop delivers exactly the chunks whose debits, summed from the start,
   * stay below the allowance, and charges the one that crosses it too.
   */
  method RelayDirection(row: AccountRow, cost: real, way: nat, chunks: seq<string>)
    returns (delivered: string, outcome: Outcome, ghost m: nat)
    requires Chunks(chunks)
    requires row.bandwidthLimit.Some? ==> row.bandwidthLimit.value >= 0
    modifies row
    ensures m <= |chunks| && delivered == Joined(chunks[..m])
    ensures outcome == if m == |chunks| then Eof else Exceeded
    ensures old(row.bandwidthLimit).None? ==> m == |chunks| && row.bandwidthLimit.None?
    ensures old(row.bandwidthLimit).Some? ==>
              var left, debits := old(row.bandwidthLimit).value, ChunkDebits(chunks, way, cost);
              && CutAt(left, debits, m)
              && row.bandwidthLimit == Some(SqlRun(left, debits[..if m < |chunks| then m + 1 else m]))
  {
    hide Debit, ChunkDebit, Debited, BalanceAt, SqlRun, Sum;
    var buf := new char[BUFFER];
    delivered := "";
    m := 0;
    ghost var limit := row.bandwidthLimit;
    ghost var debits := ChunkDebits(chunks, way, cost);
    BalanceStart(limit, debits);
    for i := 0 to |chunks|
      invariant m == i && delivered == Joined(chunks[..i])
      invariant BalanceAt(limit, debits, i, row.bandwidthLimit)
    {
      var chunk := chunks[i];
      assert chunk in chunks;
      var n := |chunk|;
      Fill(buf, chunk);
      ghost var before := row.bandwidthLimit;
      var exceeded := Charge(row, cost, way, n);
      BalanceNext(limit, debits, i, before, row.bandwidthLimit);
      if exceeded {
        return delivered, Exceeded, m;
      }
      JoinedSnoc(chunks, i);
      delivered := delivered + buf[..n];
      m := m + 1;
    }
    BalanceEnd(limit, debits, |chunks|, row.bandwidthLimit);
    outcome := Eof;
  }

  lemma BalanceStart(limit: Option<int>, debits: seq<nat>)
    ensures BalanceAt(limit, debits, 0, limit)
  {
    assert debits[..0] == [];
  }

  lemma BalanceEnd(limit: Option<int>, debits: seq<nat>, i: nat, now: Option<int>)
    requires BalanceAt(limit, debits, i, now) && i == |debits|
    ensures limit.None? ==> now.None?
    ensures limit.Some? ==> CutAt(limit.value, debits, i) && now == Some(SqlRun(limit.value, debits[..i]))
  {
  }

  lemma BalanceNext(limit: Option<int>, debits: seq<nat>, i: nat, before: Option<int>, now: Option<int>)
    requires BalanceAt(limit, debits, i, before) && i < |debits|
    requires limit.Some? ==> limit.value >= 0
    requires now == if before.None? then None else Some(Debited(before.value, debits[i]))
    ensures now.None? || now.value > 0 ==> BalanceAt(limit, debits, i + 1, now)
    ensures now.Some? && now.value <= 0 ==>
              && limit.Some? && CutAt(limit.value, debits, i)
              && now == Some(SqlRun(limit.value, debits[..i + 1]))
  {
    if limit.Some? {
      NextDebit(limit.value, debits, i);
    }
  }
}
