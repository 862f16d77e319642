// The metered relay: every interleaving of any number of connections, each with
// two directions, over the allowances of the in-memory backend.
module Relay {
  import opened Wrappers
  import opened Metering

  const BUFFER := 8192

  datatype Outcome = Eof | IoFailed | Exceeded | Cancelled

  /** Where one direction stands in its read, report, write loop. */
  datatype Phase =
    | Reading
    | Reporting(chunk: string)
    | Swapping(chunk: string, cur: int)
    | Deciding(chunk: string, entry: Option<nat>)
    | Writing(chunk: string, written: nat)
    | Ended(outcome: Outcome)
  {
    predicate InCall() {
      Reporting? || Swapping? || Deciding?
    }

    /** Read but not yet delivered. */
    function Rest(): string {
      match this
      case Reading => ""
      case Writing(chunk, written) => if written <= |chunk| then chunk[written..] else ""
      case Ended(_) => ""
      case _ => chunk
    }
  }

  /** One direction: everything it has read, how much of it was reported, and what it delivered. */
  datatype Flow = Flow(
    account: Option<nat>, cost: real, phase: Phase, source: string, reported: nat, delivered: string)

  /** A completed report of a limited account; `left` is the allowance it installed. */
  datatype Entry = Entry(user: nat, flow: nat, bytes: nat, debit: nat, left: int)

  /**
   * Flows `2j` and `2j + 1` are the two directions of connection `j`. `log` lists
   * the completed debits in the order they took effect; `forwarded` holds the
   * indices of those whose chunk went on to be written.
   */
  datatype State = State(allowance: seq<Option<int>>, flows: seq<Flow>, log: seq<Entry>, forwarded: set<nat>)

  datatype Step =
    | Open(account: Option<nat>, cost: real)
    | Read(flow: nat, chunk: string)
    | Stop(flow: nat, outcome: Outcome)
    | Unmetered(flow: nat)
    | Load(flow: nat)
    | Swap(flow: nat)
    | SwapFails(flow: nat)
    | Decide(flow: nat)
    | Write(flow: nat, count: nat)

  function Partner(i: nat): (p: nat)
    ensures p != i && p / 2 == i / 2
  {
    if i % 2 == 0 then i + 1 else i - 1
  }

  /** The debit of a chunk: client to upstream counts as out, the other way as in. */
  function ChunkDebit(i: nat, bytes: nat, cost: real): nat {
    if i % 2 == 0 then Debit(0, bytes, cost) else Debit(bytes, 0, cost)
  }

  predicate Limited(s: State, account: Option<nat>) {
    account.Some? && account.value < |s.allowance| && s.allowance[account.value].Some?
  }

  /** One task runs both directions of a connection, and a report has no await point in it. */
  predicate MayRun(s: State, i: nat) {
    && i < |s.flows|
    && (Partner(i) < |s.flows| ==> !s.flows[Partner(i)].phase.InCall())
  }

  predicate Enabled(s: State, step: Step) {
    match step
    case Open(_, _) => true
    case Read(i, chunk) => MayRun(s, i) && s.flows[i].phase.Reading? && 1 <= |chunk| <= BUFFER
    case Stop(i, outcome) =>
      && MayRun(s, i)
      && (|| (outcome == Eof && s.flows[i].phase.Reading?)
          || (outcome == IoFailed && (s.flows[i].phase.Reading? || s.flows[i].phase.Writing?)))
    case Unmetered(i) => MayRun(s, i) && s.flows[i].phase.Reporting? && !Limited(s, s.flows[i].account)
    case Load(i) => MayRun(s, i) && s.flows[i].phase.Reporting? && Limited(s, s.flows[i].account)
    case Swap(i) =>
      && MayRun(s, i) && s.flows[i].phase.Swapping? && Limited(s, s.flows[i].account)
      && s.allowance[s.flows[i].account.value].value == s.flows[i].phase.cur
    case SwapFails(i) => MayRun(s, i) && s.flows[i].phase.Swapping? && Limited(s, s.flows[i].account)
    case Decide(i) =>
      && MayRun(s, i) && s.flows[i].phase.Deciding?
      && (s.flows[i].phase.entry.Some? ==> s.flows[i].phase.entry.value < |s.log|)
    case Write(i, count) =>
      && MayRun(s, i) && s.flows[i].phase.Writing?
      && 1 <= count && s.flows[i].phase.written + count <= |s.flows[i].phase.chunk|
  }

  /** A direction that ends drops the other one, wherever it is. */
  function Finished(flows: seq<Flow>, i: nat, outcome: Outcome): (r: seq<Flow>)
    requires i < |flows|
    ensures |r| == |flows|
  {
    var one := flows[i := flows[i].(phase := Ended(outcome))];
    var p := Partner(i);
    if p < |one| && !one[p].phase.Ended? then one[p := one[p].(phase := Ended(Cancelled))] else one
  }

  function Moved(s: State, i: nat, f: Flow): State
    requires i < |s.flows|
  {
    s.(flows := s.flows[i := f])
  }

  function Next(s: State, step: Step): State
    requires Enabled(s, step)
  {
    match step
    case Open(account, cost) =>
      var start := Flow(account, cost, Reading, "", 0, "");
      s.(flows := s.flows + [start, start])
    case Read(i, chunk) =>
      var f := s.flows[i];
      var phase := if f.account.Some? then Reporting(chunk) else Writing(chunk, 0);
      Moved(s, i, f.(phase := phase, source := f.source + chunk))
    case Stop(i, outcome) => s.(flows := Finished(s.flows, i, outcome))
    case Unmetered(i) =>
      var f := s.flows[i];
      Moved(s, i, f.(phase := Deciding(f.phase.chunk, None), reported := |f.source|))
    case Load(i) =>
      var f := s.flows[i];
      Moved(s, i, f.(phase := Swapping(f.phase.chunk, s.allowance[f.account.value].value)))
    case Swap(i) =>
      var f := s.flows[i];
      var u := f.account.value;
      var debit := ChunkDebit(i, |f.phase.chunk|, f.cost);
      var left := Debited(f.phase.cur, debit);
      State(s.allowance[u := Some(left)],
            s.flows[i := f.(phase := Deciding(f.phase.chunk, Some(|s.log|)), reported := |f.source|)],
            s.log + [Entry(u, i, |f.phase.chunk|, debit, left)],
            s.forwarded)
    case SwapFails(i) =>
      var f := s.flows[i];
      Moved(s, i, f.(phase := Swapping(f.phase.chunk, s.allowance[f.account.value].value)))
    case Decide(i) =>
      var f := s.flows[i];
      if f.phase.entry.Some? && s.log[f.phase.entry.value].left <= 0
      then s.(flows := Finished(s.flows, i, Exceeded))
      else
        Moved(s, i, f.(phase := Writing(f.phase.chunk, 0)))
        .(forwarded := s.forwarded + if f.phase.entry.Some? then {f.phase.entry.value} else {})
    case Write(i, count) =>
      var f := s.flows[i];
      var end := f.phase.written + count;
      Moved(s, i, f.(
        phase := if end == |f.phase.chunk| then Reading else Writing(f.phase.chunk, end),
        delivered := f.delivered + f.phase.chunk[f.phase.written..end]))
  }

  function Initial(limits: seq<Option<int>>): State {
    State(limits, [], [], {})
  }

  /** The state after a run; None when some step was not enabled. */
  function Run(limits: seq<Option<int>>, steps: seq<Step>): Option<State> {
    if steps == [] then Some(Initial(limits))
    else
      match Run(limits, steps[..|steps| - 1])
      case None => None
      case Some(s) =>
        var step := steps[|steps| - 1];
        if Enabled(s, step) then Some(Next(s, step)) else None
  }

  // ---- Each direction ----

  /**
   * Delivered bytes are a prefix of the bytes read, at most one buffer behind;
   * with an account, nothing is delivered that was not reported.
   */
  ghost predicate FlowOk(f: Flow) {
    && f.delivered <= f.source
    && |f.source| - |f.delivered| <= BUFFER
    && f.reported <= |f.source|
    && (!f.phase.Ended? ==> f.source == f.delivered + f.phase.Rest())
    && (f.phase.Writing? ==> f.phase.written <= |f.phase.chunk|)
    && (f.account.Some? ==>
          && |f.delivered| <= f.reported
          && (f.phase.Writing? || f.phase.Deciding? || f.phase.Reading? ==> f.reported == |f.source|)
          && (f.phase.Reporting? || f.phase.Swapping? ==> f.reported + |f.phase.chunk| == |f.source|))
    && (f.account.None? ==> !f.phase.InCall())
  }

  ghost predicate FlowsOk(s: State) {
    forall i :: 0 <= i < |s.flows| ==> FlowOk(s.flows[i])
  }

  lemma FinishedOk(flows: seq<Flow>, i: nat, outcome: Outcome)
    requires i < |flows| && forall j :: 0 <= j < |flows| ==> FlowOk(flows[j])
    ensures forall j :: 0 <= j < |flows| ==> FlowOk(Finished(flows, i, outcome)[j])
  {
  }

  lemma ReadOk(s: State, i: nat, chunk: string)
    requires FlowsOk(s) && Enabled(s, Read(i, chunk))
    ensures FlowsOk(Next(s, Read(i, chunk)))
  {
    assert FlowOk(s.flows[i]);
    assert (s.flows[i].source + chunk)[..|s.flows[i].source|] == s.flows[i].source;
  }

  lemma CallOk(s: State, step: Step)
    requires FlowsOk(s) && Enabled(s, step)
    requires step.Unmetered? || step.Load? || step.Swap? || step.SwapFails?
    ensures FlowsOk(Next(s, step))
  {
    hide ChunkDebit, Debited;
    assert FlowOk(s.flows[step.flow]);
  }

  lemma DecideOk(s: State, i: nat)
    requires FlowsOk(s) && Enabled(s, Decide(i))
    ensures FlowsOk(Next(s, Decide(i)))
  {
    assert FlowOk(s.flows[i]);
    FinishedOk(s.flows, i, Exceeded);
  }

  lemma FlowStep(s: State, step: Step)
    requires FlowsOk(s) && Enabled(s, step)
    ensures FlowsOk(Next(s, step))
  {
    hide FlowOk, ChunkDebit, Debited;
    match step
    case Open(account, cost) => FreshOk(account, cost);
    case Read(i, chunk) => ReadOk(s, i, chunk);
    case Stop(i, outcome) => FinishedOk(s.flows, i, outcome);
    case Decide(i) => DecideOk(s, i);
    case Write(i, count) => WriteOk(s, i, count);
    case _ => CallOk(s, step);
  }

  lemma FreshOk(account: Option<nat>, cost: real)
    ensures FlowOk(Flow(account, cost, Reading, "", 0, ""))
  {
  }

  lemma WriteOk(s: State, i: nat, count: nat)
    requires FlowsOk(s) && Enabled(s, Write(i, count))
    ensures FlowsOk(Next(s, Write(i, count)))
  {
    hide FlowOk;
    var t := Next(s, Write(i, count));
    WrittenOk(s.flows[i], t.flows[i], count);
    assert forall j :: 0 <= j < |s.flows| && j != i ==> t.flows[j] == s.flows[j];
  }

  lemma WrittenOk(f: Flow, g: Flow, count: nat)
    requires FlowOk(f) && f.phase.Writing? && 1 <= count && f.phase.written + count <= |f.phase.chunk|
    requires var end := f.phase.written + count;
             g == f.(phase := if end == |f.phase.chunk| then Reading else Writing(f.phase.chunk, end),
                     delivered := f.delivered + f.phase.chunk[f.phase.written..end])
    ensures FlowOk(g)
  {
    var end := f.phase.written + count;
    assert f.phase.chunk[f.phase.written..] == f.phase.chunk[f.phase.written..end] + f.phase.chunk[end..];
    assert f.source == (f.delivered + f.phase.chunk[f.phase.written..end]) + f.phase.chunk[end..];
    assert g.delivered <= g.source;
  }

  /** In every reachable state, cancellation in mid-write included. */
  lemma {:induction false} StreamIntegrity(limits: seq<Option<int>>, steps: seq<Step>)
    requires Run(limits, steps).Some?
    ensures FlowsOk(Run(limits, steps).value)
  {
    if steps != [] {
      var init := steps[..|steps| - 1];
      StreamIntegrity(limits, init);
      FlowStep(Run(limits, init).value, steps[|steps| - 1]);
    }
  }

  // ---- The shared allowance ----

  /** The debits of one user, in the order they took effect. */
  function DebitsOf(log: seq<Entry>, u: nat): seq<nat> {
    if log == [] then []
    else
      var e := log[|log| - 1];
      DebitsOf(log[..|log| - 1], u) + (if e.user == u then [e.debit] else [])
  }

  /** Every entry installed what the single statement would have returned. */
  ghost predicate LogOk(limits: seq<Option<int>>, log: seq<Entry>) {
    forall k :: 0 <= k < |log| ==>
                  && log[k].user < |limits| && limits[log[k].user].Some?
                  && log[k].left == SqlRun(limits[log[k].user].value, DebitsOf(log[..k + 1], log[k].user))
  }

  ghost predicate Linear(limits: seq<Option<int>>, s: State) {
    && |s.allowance| == |limits|
    && (forall u :: 0 <= u < |limits| ==>
          s.allowance[u] ==
          if limits[u].None? then None else Some(SqlRun(limits[u].value, DebitsOf(s.log, u))))
    && LogOk(limits, s.log)
  }

  lemma DebitsSnoc(log: seq<Entry>, e: Entry, u: nat)
    ensures DebitsOf(log + [e], u) == DebitsOf(log, u) + (if e.user == u then [e.debit] else [])
  {
    assert (log + [e])[..|log|] == log;
  }

  lemma LinearSwap(limits: seq<Option<int>>, s: State, i: nat)
    requires Linear(limits, s) && Enabled(s, Swap(i))
    ensures Linear(limits, Next(s, Swap(i)))
  {
    hide ChunkDebit, SqlRun, LogOk;
    var t := Next(s, Swap(i));
    var e := t.log[|s.log|];
    forall u | 0 <= u < |limits|
      ensures t.allowance[u] ==
              if limits[u].None? then None else Some(SqlRun(limits[u].value, DebitsOf(t.log, u)))
    {
      DebitsSnoc(s.log, e, u);
      assert DebitsOf(s.log, u) + [] == DebitsOf(s.log, u);
      if limits[u].Some? {
        SqlRunSnoc(limits[u].value, DebitsOf(s.log, u), e.debit);
      }
    }
    LogSnoc(limits, s.log, e);
  }

  lemma LogSnoc(limits: seq<Option<int>>, log: seq<Entry>, e: Entry)
    requires LogOk(limits, log) && e.user < |limits| && limits[e.user].Some?
    requires e.left == SqlRun(limits[e.user].value, DebitsOf(log + [e], e.user))
    ensures LogOk(limits, log + [e])
  {
    var after := log + [e];
    forall k | 0 <= k < |after|
      ensures after[k].user < |limits| && limits[after[k].user].Some?
      ensures after[k].left == SqlRun(limits[after[k].user].value, DebitsOf(after[..k + 1], after[k].user))
    {
      if k < |log| {
        assert after[..k + 1] == log[..k + 1];
      } else {
        assert after[..k + 1] == after;
      }
    }
  }

  lemma LinearStep(limits: seq<Option<int>>, s: State, step: Step)
    requires Linear(limits, s) && Enabled(s, step)
    ensures Linear(limits, Next(s, step))
  {
    if step.Swap? {
      LinearSwap(limits, s, step.flow);
    } else {
      assert Next(s, step).log == s.log && Next(s, step).allowance == s.allowance;
    }
  }

  lemma {:induction false} RunLinear(limits: seq<Option<int>>, steps: seq<Step>)
    requires Run(limits, steps).Some?
    ensures Linear(limits, Run(limits, steps).value)
  {
    if steps != [] {
      var init := steps[..|steps| - 1];
      RunLinear(limits, init);
      LinearStep(limits, Run(limits, init).value, steps[|steps| - 1]);
    }
  }

  /**
   * In any interleaving with spurious failures, the stored allowance of a user is
   * the limit less all completed debits of that user, floored at zero.
   */
  lemma AllowanceIsLimitLessDebits(limits: seq<Option<int>>, steps: seq<Step>, u: nat)
    requires Run(limits, steps).Some? && u < |limits| && limits[u].Some? && limits[u].value >= 0
    ensures var s := Run(limits, steps).value;
            var spent := Sum(DebitsOf(s.log, u));
            && u < |s.allowance|
            && s.allowance[u] == Some(if limits[u].value > spent then limits[u].value - spent else 0)
  {
    hide Run, SqlRun, LogOk, DebitsOf;
    RunLinear(limits, steps);
    SqlRunIsSum(limits[u].value, DebitsOf(Run(limits, steps).value.log, u));
  }

  // ---- What was forwarded ----

  /** Forwarded entries left something; a direction about to decide holds its own entry. */
  ghost predicate ForwardOk(s: State) {
    && (forall k :: k in s.forwarded ==> k < |s.log| && s.log[k].left > 0)
    && (forall i :: 0 <= i < |s.flows| && s.flows[i].phase.Deciding? && s.flows[i].phase.entry.Some? ==>
          s.flows[i].phase.entry.value < |s.log|)
  }

  lemma ForwardStep(s: State, step: Step)
    requires ForwardOk(s) && Enabled(s, step)
    ensures ForwardOk(Next(s, step))
  {
  }

  lemma {:induction false} RunForward(limits: seq<Option<int>>, steps: seq<Step>)
    requires Run(limits, steps).Some?
    ensures ForwardOk(Run(limits, steps).value)
  {
    if steps != [] {
      var init := steps[..|steps| - 1];
      RunForward(limits, init);
      ForwardStep(Run(limits, init).value, steps[|steps| - 1]);
    }
  }

  /** The debits of a user's entries whose index is in `chosen`. */
  function SumOver(log: seq<Entry>, chosen: set<nat>, u: nat): nat {
    if log == [] then 0
    else
      var k := |log| - 1;
      SumOver(log[..k], chosen, u) + (if k in chosen && log[k].user == u then log[k].debit else 0)
  }

  lemma LogPrefix(limits: seq<Option<int>>, log: seq<Entry>, n: nat)
    requires LogOk(limits, log) && n <= |log|
    ensures LogOk(limits, log[..n])
  {
    var init := log[..n];
    forall j | 0 <= j < n
      ensures init[j].user < |limits| && limits[init[j].user].Some?
      ensures init[j].left == SqlRun(limits[init[j].user].value, DebitsOf(init[..j + 1], init[j].user))
    {
      assert init[..j + 1] == log[..j + 1];
    }
  }

  lemma {:induction false} ForwardedBelow(limits: seq<Option<int>>, log: seq<Entry>, chosen: set<nat>, u: nat)
    requires LogOk(limits, log) && u < |limits| && limits[u].Some? && limits[u].value > 0
    requires forall k :: k in chosen && k < |log| ==> log[k].left > 0
    ensures SumOver(log, chosen, u) < limits[u].value
    ensures SqlRun(limits[u].value, DebitsOf(log, u)) > 0 ==>
              SumOver(log, chosen, u) + SqlRun(limits[u].value, DebitsOf(log, u)) <= limits[u].value
  {
    if log != [] {
      var k := |log| - 1;
      var init, e := log[..k], log[k];
      LogPrefix(limits, log, k);
      ForwardedBelow(limits, init, chosen, u);
      assert log[..k + 1] == log;
      var before := DebitsOf(init, u);
      if e.user == u {
        assert (before + [e.debit])[..|before|] == before;
      } else {
        assert before + [] == before;
      }
    }
  }

  /**
   * In every interleaving, the debits of all chunks ever forwarded on a limited
   * account sum to strictly less than its initial allowance.
   */
  lemma ForwardedBelowLimit(limits: seq<Option<int>>, steps: seq<Step>, u: nat)
    requires Run(limits, steps).Some? && u < |limits| && limits[u].Some? && limits[u].value > 0
    ensures SumOver(Run(limits, steps).value.log, Run(limits, steps).value.forwarded, u) < limits[u].value
  {
    RunLinear(limits, steps);
    RunForward(limits, steps);
    ForwardedBelow(limits, Run(limits, steps).value.log, Run(limits, steps).value.forwarded, u);
  }

  /** Allowances never grow back along the log. */
  lemma {:induction false} LeftShrinks(limits: seq<Option<int>>, log: seq<Entry>, j: nat, k: nat)
    requires LogOk(limits, log) && j <= k < |log| && log[j].user == log[k].user
    requires limits[log[k].user].value >= 0
    ensures log[k].left <= log[j].left
  {
    var u := log[k].user;
    var first := DebitsOf(log[..j + 1], u);
    DebitsPrefix(log, j + 1, k + 1, u);
    var more: seq<nat> :| DebitsOf(log[..k + 1], u) == first + more;
    SqlRunConcat(limits[u].value, first, more);
    SqlRunIsSum(limits[u].value, first);
    SqlRunIsSum(log[j].left, more);
  }

  lemma {:induction false} DebitsPrefix(log: seq<Entry>, j: nat, k: nat, u: nat)
    requires j <= k <= |log|
    ensures DebitsOf(log[..j], u) <= DebitsOf(log[..k], u)
    ensures exists more: seq<nat> :: DebitsOf(log[..k], u) == DebitsOf(log[..j], u) + more
    decreases k
  {
    if j < k {
      DebitsPrefix(log, j, k - 1, u);
      assert log[..k][..k - 1] == log[..k - 1];
    }
    var a, b := DebitsOf(log[..j], u), DebitsOf(log[..k], u);
    assert b == a + b[|a|..];
  }

  /** Once a report has left nothing, no chunk reported at or after it is ever forwarded. */
  lemma NothingAfterZero(limits: seq<Option<int>>, steps: seq<Step>, j: nat, k: nat)
    requires Run(limits, steps).Some?
    requires var log := Run(limits, steps).value.log;
             && j <= k < |log| && log[j].user == log[k].user && log[j].left <= 0
             && (log[k].user < |limits| && limits[log[k].user].Some? ==> limits[log[k].user].value >= 0)
    ensures k !in Run(limits, steps).value.forwarded
  {
    RunLinear(limits, steps);
    RunForward(limits, steps);
    LeftShrinks(limits, Run(limits, steps).value.log, j, k);
  }

  // ---- Every report debits exactly once ----

  /** The bytes one direction had debited. */
  function BytesOf(log: seq<Entry>, i: nat): nat {
    if log == [] then 0
    else BytesOf(log[..|log| - 1], i) + (if log[|log| - 1].flow == i then log[|log| - 1].bytes else 0)
  }

  /** A limited direction's debits cover exactly the bytes it reported, each with the right amount. */
  ghost predicate Once(s: State) {
    && (forall i :: 0 <= i < |s.flows| ==>
          BytesOf(s.log, i) == if Limited(s, s.flows[i].account) then s.flows[i].reported else 0)
    && (forall k :: 0 <= k < |s.log| ==>
          && s.log[k].flow < |s.flows|
          && s.flows[s.log[k].flow].account == Some(s.log[k].user)
          && s.log[k].debit == ChunkDebit(s.log[k].flow, s.log[k].bytes, s.flows[s.log[k].flow].cost))
  }

  lemma BytesSnoc(log: seq<Entry>, e: Entry, i: nat)
    ensures BytesOf(log + [e], i) == BytesOf(log, i) + (if e.flow == i then e.bytes else 0)
  {
    assert (log + [e])[..|log|] == log;
  }

  lemma {:induction false} BytesOfNew(log: seq<Entry>, n: nat)
    requires forall k :: 0 <= k < |log| ==> log[k].flow < n
    ensures forall i :: i >= n ==> BytesOf(log, i) == 0
  {
    if log != [] {
      BytesOfNew(log[..|log| - 1], n);
    }
  }

  lemma OnceSwap(s: State, i: nat)
    requires Once(s) && FlowsOk(s) && Enabled(s, Swap(i))
    ensures Once(Next(s, Swap(i)))
  {
    hide ChunkDebit;
    var t := Next(s, Swap(i));
    var e := t.log[|s.log|];
    assert FlowOk(s.flows[i]);
    forall j | 0 <= j < |t.flows|
      ensures BytesOf(t.log, j) == if Limited(t, t.flows[j].account) then t.flows[j].reported else 0
    {
      BytesSnoc(s.log, e, j);
      assert Limited(t, t.flows[j].account) == Limited(s, s.flows[j].account);
    }
    forall k | 0 <= k < |t.log|
      ensures t.log[k].flow < |t.flows|
      ensures t.flows[t.log[k].flow].account == Some(t.log[k].user)
      ensures t.log[k].debit == ChunkDebit(t.log[k].flow, t.log[k].bytes, t.flows[t.log[k].flow].cost)
    {
      assert k < |s.log| ==> t.log[k] == s.log[k];
    }
  }

  /** Steps other than a swap leave the allowances, the log and the metering of each flow alone. */
  lemma Frame(s: State, step: Step)
    requires Enabled(s, step) && !step.Swap?
    ensures var t := Next(s, step);
            && t.log == s.log && t.allowance == s.allowance && |t.flows| >= |s.flows|
            && (forall i :: 0 <= i < |s.flows| ==>
                  && t.flows[i].account == s.flows[i].account && t.flows[i].cost == s.flows[i].cost
                  && (Limited(s, s.flows[i].account) ==> t.flows[i].reported == s.flows[i].reported))
            && (forall i :: |s.flows| <= i < |t.flows| ==> t.flows[i].reported == 0)
  {
  }

  lemma OnceStep(s: State, step: Step)
    requires Once(s) && FlowsOk(s) && Enabled(s, step)
    ensures Once(Next(s, step))
  {
    hide ChunkDebit, Next, Enabled, FlowOk;
    if step.Swap? {
      OnceSwap(s, step.flow);
    } else {
      Frame(s, step);
      BytesOfNew(s.log, |s.flows|);
    }
  }

  lemma {:induction false} RunOnce(limits: seq<Option<int>>, steps: seq<Step>)
    requires Run(limits, steps).Some?
    ensures Once(Run(limits, steps).value)
  {
    if steps != [] {
      var init := steps[..|steps| - 1];
      RunOnce(limits, init);
      StreamIntegrity(limits, init);
      OnceStep(Run(limits, init).value, steps[|steps| - 1]);
    }
  }

  // ---- One debit for each chunk ----

  /** The sizes of the chunks direction `i` read, in order. */
  function ReadSizes(steps: seq<Step>, i: nat): seq<nat> {
    if steps == [] then []
    else
      var step := steps[|steps| - 1];
      ReadSizes(steps[..|steps| - 1], i) + (if step.Read? && step.flow == i then [|step.chunk|] else [])
  }

  /** The sizes direction `i` had debited, in the order the debits took effect. */
  function DebitedSizes(log: seq<Entry>, i: nat): seq<nat> {
    if log == [] then []
    else
      var e := log[|log| - 1];
      DebitedSizes(log[..|log| - 1], i) + (if e.flow == i then [e.bytes] else [])
  }

  /** The chunk whose report has not taken effect yet. */
  function Unsettled(f: Flow): seq<nat> {
    if f.phase.Reporting? || f.phase.Swapping? then [|f.phase.chunk|] else []
  }

  lemma DebitedSnoc(log: seq<Entry>, e: Entry, i: nat)
    ensures DebitedSizes(log + [e], i) == DebitedSizes(log, i) + (if e.flow == i then [e.bytes] else [])
  {
    assert (log + [e])[..|log|] == log;
  }

  /** Chunks read are the chunks debited, one for one and in order, then the one still being reported. */
  ghost predicate Matched(steps: seq<Step>, s: State) {
    && (forall i :: 0 <= i < |s.flows| && Limited(s, s.flows[i].account) ==>
          ReadSizes(steps, i) == DebitedSizes(s.log, i) + Unsettled(s.flows[i]))
    && (forall i: nat :: i >= |s.flows| ==> ReadSizes(steps, i) == [])
    && (forall k :: 0 <= k < |s.log| ==> s.log[k].flow < |s.flows|)
  }

  lemma ReadSnoc(steps: seq<Step>, step: Step, i: nat)
    ensures ReadSizes(steps + [step], i)
            == ReadSizes(steps, i) + (if step.Read? && step.flow == i then [|step.chunk|] else [])
  {
    assert (steps + [step])[..|steps|] == steps;
  }

  /** Other steps than a swap: a read is unsettled, nothing else changes; a drop never hits a call. */
  lemma UnsettledQuiet(s: State, step: Step, i: nat)
    requires i < |s.flows| && FlowOk(s.flows[i])
    requires Enabled(s, step) && !step.Swap? && Limited(s, s.flows[i].account)
    ensures i < |Next(s, step).flows|
    ensures Unsettled(Next(s, step).flows[i])
            == if step.Read? && step.flow == i then [|step.chunk|] else Unsettled(s.flows[i])
    ensures step.Read? && step.flow == i ==> Unsettled(s.flows[i]) == []
  {
  }

  lemma UnsettledSwap(s: State, i: nat, j: nat)
    requires Enabled(s, Swap(i)) && j < |s.flows|
    ensures var t := Next(s, Swap(i));
            && |t.log| == |s.log| + 1 && t.log[..|s.log|] == s.log
            && t.log[|s.log|].flow == i && [t.log[|s.log|].bytes] == Unsettled(s.flows[i])
            && Unsettled(t.flows[j]) == if i == j then [] else Unsettled(s.flows[j])
  {
    hide ChunkDebit, Debited;
  }

  /** How one step changes what was debited and what is unsettled. */
  lemma UnsettledStep(s: State, step: Step, i: nat)
    requires i < |s.flows| && FlowOk(s.flows[i]) && Enabled(s, step) && Limited(s, s.flows[i].account)
    ensures i < |Next(s, step).flows|
    ensures DebitedSizes(Next(s, step).log, i) + Unsettled(Next(s, step).flows[i])
            == DebitedSizes(s.log, i) + Unsettled(s.flows[i])
               + (if step.Read? && step.flow == i then [|step.chunk|] else [])
  {
    hide ChunkDebit, Debited, DebitedSizes, FlowOk, Limited, Unsettled, Enabled, Next;
    SameAccount(s, step, i);
    var before := DebitedSizes(s.log, i);
    assert before + Unsettled(s.flows[i]) + [] == before + Unsettled(s.flows[i]);
    if step.Swap? {
      UnsettledSwap(s, step.flow, i);
      var t := Next(s, step);
      assert t.log == s.log + [t.log[|s.log|]];
      DebitedSnoc(s.log, t.log[|s.log|], i);
      assert before + [] == before;
      assert step.flow == i ==> DebitedSizes(t.log, i) + [] == before + Unsettled(s.flows[i]);
    } else {
      Frame(s, step);
      UnsettledQuiet(s, step, i);
      assert before + [] == before;
    }
  }

  lemma {:induction false} NothingDebited(log: seq<Entry>, i: nat)
    requires forall k :: 0 <= k < |log| ==> log[k].flow < i
    ensures DebitedSizes(log, i) == []
  {
    if log != [] {
      NothingDebited(log[..|log| - 1], i);
    }
  }

  lemma NewFlows(s: State, step: Step, i: nat)
    requires Enabled(s, step) && |s.flows| <= i < |Next(s, step).flows|
    ensures Next(s, step).log == s.log && Unsettled(Next(s, step).flows[i]) == [] && step.Open?
  {
    hide ChunkDebit, Debited;
  }

  lemma LogFlows(s: State, step: Step)
    requires Enabled(s, step) && forall k :: 0 <= k < |s.log| ==> s.log[k].flow < |s.flows|
    ensures |Next(s, step).flows| >= |s.flows|
    ensures forall k :: 0 <= k < |Next(s, step).log| ==> Next(s, step).log[k].flow < |Next(s, step).flows|
    ensures step.Read? ==> step.flow < |s.flows|
  {
    hide ChunkDebit, Debited;
  }

  /** A new account's limit is an old one. */
  lemma LimitedStep(s: State, step: Step, account: Option<nat>)
    requires Enabled(s, step)
    ensures Limited(Next(s, step), account) <==> Limited(s, account)
  {
    hide ChunkDebit, Debited;
  }

  lemma MatchedStep(steps: seq<Step>, s: State, step: Step)
    requires Matched(steps, s) && FlowsOk(s) && Enabled(s, step)
    ensures Matched(steps + [step], Next(s, step))
  {
    hide FlowOk, Next, Enabled, Limited, DebitedSizes, ReadSizes, Unsettled;
    var t := Next(s, step);
    LogFlows(s, step);
    forall i: nat
      ensures i < |t.flows| && Limited(t, t.flows[i].account) ==>
                ReadSizes(steps + [step], i) == DebitedSizes(t.log, i) + Unsettled(t.flows[i])
      ensures i >= |t.flows| ==> ReadSizes(steps + [step], i) == []
    {
      ReadSnoc(steps, step, i);
      if i < |s.flows| {
        SameAccount(s, step, i);
        LimitedStep(s, step, s.flows[i].account);
        if Limited(s, s.flows[i].account) {
          UnsettledStep(s, step, i);
        }
      } else if i < |t.flows| {
        NewFlows(s, step, i);
        NothingDebited(s.log, i);
      }
    }
  }

  lemma SameAccount(s: State, step: Step, i: nat)
    requires Enabled(s, step) && i < |s.flows|
    ensures i < |Next(s, step).flows| && Next(s, step).flows[i].account == s.flows[i].account
  {
    hide ChunkDebit, Debited;
  }

  lemma {:induction false} RunMatched(limits: seq<Option<int>>, steps: seq<Step>)
    requires Run(limits, steps).Some?
    ensures Matched(steps, Run(limits, steps).value)
  {
    if steps != [] {
      var init, step := steps[..|steps| - 1], steps[|steps| - 1];
      RunMatched(limits, init);
      StreamIntegrity(limits, init);
      MatchedStep(init, Run(limits, init).value, step);
      assert steps == init + [step];
    }
  }

  /** The debits of direction `i`, in the order they took effect. */
  function DebitsIn(log: seq<Entry>, i: nat): seq<nat> {
    if log == [] then []
    else
      var e := log[|log| - 1];
      DebitsIn(log[..|log| - 1], i) + (if e.flow == i then [e.debit] else [])
  }

  function Debits(i: nat, sizes: seq<nat>, cost: real): seq<nat> {
    seq(|sizes|, k requires 0 <= k < |sizes| => ChunkDebit(i, sizes[k], cost))
  }

  lemma {:induction false} DebitsAre(s: State, log: seq<Entry>, i: nat)
    requires i < |s.flows| && log <= s.log && Once(s)
    ensures DebitsIn(log, i) == Debits(i, DebitedSizes(log, i), s.flows[i].cost)
  {
    if log != [] {
      hide ChunkDebit;
      var n := |log| - 1;
      assert log[n] == s.log[n] && log[..n] <= s.log;
      DebitsAre(s, log[..n], i);
    }
  }

  /**
   * Every chunk a limited direction read was debited once, in order, at the
   * amount its own size costs; only the chunk still being reported is not debited yet.
   */
  lemma EachChunkOnce(limits: seq<Option<int>>, steps: seq<Step>, i: nat)
    requires Run(limits, steps).Some?
    requires var s := Run(limits, steps).value; i < |s.flows| && Limited(s, s.flows[i].account)
    ensures var s := Run(limits, steps).value;
            var f, read := s.flows[i], ReadSizes(steps, i);
            && |Unsettled(f)| <= |read|
            && DebitsIn(s.log, i) == Debits(i, read[..|read| - |Unsettled(f)|], f.cost)
            && (forall k :: 0 <= k < |s.log| && s.log[k].flow == i ==> f.account == Some(s.log[k].user))
  {
    hide ChunkDebit, Run, ReadSizes, DebitedSizes, DebitsIn;
    var s := Run(limits, steps).value;
    RunMatched(limits, steps);
    RunOnce(limits, steps);
    DebitsAre(s, s.log, i);
    var read := ReadSizes(steps, i);
    assert read[..|read| - |Unsettled(s.flows[i])|] == DebitedSizes(s.log, i);
  }

  /** The reports of a direction's chunks: out for client to upstream, in for the other way. */
  function ReportsOf(i: nat, sizes: seq<nat>): seq<Report> {
    if sizes == [] then []
    else
      var n := sizes[|sizes| - 1];
      ReportsOf(i, sizes[..|sizes| - 1]) + [if i % 2 == 0 then Report(0, n) else Report(n, 0)]
  }

  lemma {:induction false} ReportsTotal(i: nat, sizes: seq<nat>, cost: real)
    ensures |ReportsOf(i, sizes)| == |sizes|
    ensures TotalBytes(ReportsOf(i, sizes)) == Sum(sizes)
    ensures TotalDebit(ReportsOf(i, sizes), cost) == Sum(Debits(i, sizes, cost))
    ensures forall r :: r in ReportsOf(i, sizes) ==> r.bytesIn + r.bytesOut in sizes
  {
    if sizes != [] {
      hide Debit;
      var init := sizes[..|sizes| - 1];
      ReportsTotal(i, init, cost);
      assert ReportsOf(i, sizes)[..|init|] == ReportsOf(i, init);
      assert Debits(i, sizes, cost)[..|init|] == Debits(i, init, cost);
    }
  }

  lemma {:induction false} ReadsAreSmall(limits: seq<Option<int>>, steps: seq<Step>, i: nat)
    requires Run(limits, steps).Some?
    ensures forall n :: n in ReadSizes(steps, i) ==> 1 <= n <= BUFFER
  {
    if steps != [] {
      ReadsAreSmall(limits, steps[..|steps| - 1], i);
    }
  }

  lemma SizesErrorBound(i: nat, sizes: seq<nat>, cost: real)
    requires cost >= 0.0 && BUFFER as real * cost <= I64_MAX as real
    requires forall n :: n in sizes ==> n <= BUFFER
    ensures -(|sizes| as real) <= 2.0 * Gap(Sum(Debits(i, sizes, cost)), Sum(sizes), cost) <= |sizes| as real
  {
    hide ChunkDebit, Sum, TotalBytes, TotalDebit, Gap, Debits, ReportsOf, BelowSaturation;
    ReportsTotal(i, sizes, cost);
    SmallReports(ReportsOf(i, sizes), cost);
    MeteringErrorBound(ReportsOf(i, sizes), cost);
  }

  /** What a direction was debited differs from the cost of its bytes by at most half a unit for each chunk. */
  lemma DirectionErrorBound(limits: seq<Option<int>>, steps: seq<Step>, i: nat)
    requires Run(limits, steps).Some?
    requires var s := Run(limits, steps).value;
             && i < |s.flows| && Limited(s, s.flows[i].account)
             && s.flows[i].cost >= 0.0 && BUFFER as real * s.flows[i].cost <= I64_MAX as real
    ensures var s := Run(limits, steps).value;
            var n := |DebitsIn(s.log, i)| as real;
            -n <= 2.0 * Gap(Sum(DebitsIn(s.log, i)), s.flows[i].reported, s.flows[i].cost) <= n
  {
    hide ChunkDebit, Run, ReadSizes, DebitsIn, Sum, DebitedSizes, Gap;
    var s := Run(limits, steps).value;
    RunOnce(limits, steps);
    RunMatched(limits, steps);
    ReadsAreSmall(limits, steps, i);
    DebitsAre(s, s.log, i);
    SizesAreBytes(s.log, i);
    var sizes := DebitedSizes(s.log, i);
    assert forall n :: n in sizes ==> n in ReadSizes(steps, i);
    SizesErrorBound(i, sizes, s.flows[i].cost);
  }

  lemma {:induction false} SizesAreBytes(log: seq<Entry>, i: nat)
    ensures Sum(DebitedSizes(log, i)) == BytesOf(log, i)
  {
    if log != [] {
      var init := DebitedSizes(log[..|log| - 1], i);
      SizesAreBytes(log[..|log| - 1], i);
      assert init + [] == init && (init + [log[|log| - 1].bytes])[..|init|] == init;
    }
  }

  lemma SmallProduct(n: nat, cost: real)
    requires n <= BUFFER && cost >= 0.0 && BUFFER as real * cost <= I64_MAX as real
    ensures n as real * cost <= I64_MAX as real
  {
    ScaleBelow(n as real, BUFFER as real, cost, I64_MAX as real);
  }

  lemma SmallReports(reports: seq<Report>, cost: real)
    requires cost >= 0.0 && BUFFER as real * cost <= I64_MAX as real
    requires forall r :: r in reports ==> r.bytesIn + r.bytesOut <= BUFFER
    ensures BelowSaturation(reports, cost)
  {
    forall r | r in reports
      ensures r.bytesIn + r.bytesOut <= I64_MAX
      ensures (r.bytesIn + r.bytesOut) as real * cost <= I64_MAX as real
    {
      SmallProduct(r.bytesIn + r.bytesOut, cost);
    }
  }

  // ---- What an allowance buys ----

  /** The bytes of one direction's entries whose index is in `chosen`. */
  function ChosenBytes(log: seq<Entry>, chosen: set<nat>, i: nat): nat {
    if log == [] then 0
    else
      var k := |log| - 1;
      ChosenBytes(log[..k], chosen, i) + (if k in chosen && log[k].flow == i then log[k].bytes else 0)
  }

  /** A direction about to decide holds its own entry, not forwarded yet. */
  ghost predicate HoldsOwn(log: seq<Entry>, forwarded: set<nat>, i: nat, f: Flow) {
    f.phase.Deciding? && f.phase.entry.Some? ==>
      var k := f.phase.entry.value;
      k < |log| && k !in forwarded && log[k].flow == i && log[k].bytes == |f.phase.chunk|
  }

  /** A metered direction delivers, or is about to write, only what was forwarded. */
  ghost predicate FlowBacked(log: seq<Entry>, forwarded: set<nat>, i: nat, f: Flow) {
    && |f.delivered| + (if f.phase.Writing? then |f.phase.Rest()| else 0) <= ChosenBytes(log, forwarded, i)
    && (f.phase.Deciding? ==> f.phase.entry.Some?)
  }

  ghost predicate Backed(s: State) {
    && (forall k :: k in s.forwarded ==> k < |s.log|)
    && (forall k :: 0 <= k < |s.log| ==> s.log[k].bytes <= BUFFER)
    && (forall i :: 0 <= i < |s.flows| ==> HoldsOwn(s.log, s.forwarded, i, s.flows[i]))
    && (forall i :: 0 <= i < |s.flows| && Limited(s, s.flows[i].account) ==>
          FlowBacked(s.log, s.forwarded, i, s.flows[i]))
  }

  lemma {:induction false} ChosenSame(log: seq<Entry>, a: set<nat>, b: set<nat>, i: nat)
    requires forall k :: 0 <= k < |log| ==> (k in a <==> k in b)
    ensures ChosenBytes(log, a, i) == ChosenBytes(log, b, i)
  {
    if log != [] {
      ChosenSame(log[..|log| - 1], a, b, i);
    }
  }

  lemma {:induction false} ChosenMore(log: seq<Entry>, chosen: set<nat>, k: nat, i: nat)
    requires k < |log| && k !in chosen
    ensures ChosenBytes(log, chosen + {k}, i)
            == ChosenBytes(log, chosen, i) + (if log[k].flow == i then log[k].bytes else 0)
  {
    var n := |log| - 1;
    if k < n {
      ChosenMore(log[..n], chosen, k, i);
    } else {
      ChosenSame(log[..n], chosen + {k}, chosen, i);
    }
  }

  lemma ChosenSnoc(log: seq<Entry>, e: Entry, chosen: set<nat>, i: nat)
    requires |log| !in chosen
    ensures ChosenBytes(log + [e], chosen, i) == ChosenBytes(log, chosen, i)
  {
    assert (log + [e])[..|log|] == log;
  }

  lemma BackedSwap(s: State, i: nat)
    requires Backed(s) && FlowsOk(s) && Enabled(s, Swap(i))
    ensures Backed(Next(s, Swap(i)))
  {
    hide ChunkDebit, Debited;
    var t := Next(s, Swap(i));
    assert FlowOk(s.flows[i]);
    forall j | 0 <= j < |s.flows|
      ensures Limited(t, t.flows[j].account) == Limited(s, s.flows[j].account)
      ensures ChosenBytes(t.log, t.forwarded, j) == ChosenBytes(s.log, s.forwarded, j)
    {
      ChosenSnoc(s.log, t.log[|s.log|], s.forwarded, j);
    }
  }

  lemma BackedDecide(s: State, i: nat)
    requires Backed(s) && Enabled(s, Decide(i))
    ensures Backed(Next(s, Decide(i)))
  {
    hide ChosenBytes, FlowOk;
    var t := Next(s, Decide(i));
    var entry := s.flows[i].phase.entry;
    if entry.Some? && s.log[entry.value].left > 0 && entry.value !in s.forwarded {
      forall j | 0 <= j < |s.flows|
        ensures ChosenBytes(t.log, t.forwarded, j)
                == ChosenBytes(s.log, s.forwarded, j)
                   + (if s.log[entry.value].flow == j then s.log[entry.value].bytes else 0)
      {
        ChosenMore(s.log, s.forwarded, entry.value, j);
      }
    } else {
      assert t.forwarded == s.forwarded;
    }
  }

  /** A read, a stop or a call in progress puts nothing on the way to delivery. */
  lemma BackedQuiet(s: State, step: Step, i: nat)
    requires Backed(s) && Enabled(s, step)
    requires step.Read? || step.Stop? || step.Unmetered? || step.Load? || step.SwapFails?
    requires i < |s.flows|
    ensures HoldsOwn(s.log, s.forwarded, i, Next(s, step).flows[i])
    ensures Limited(s, s.flows[i].account) ==> FlowBacked(s.log, s.forwarded, i, Next(s, step).flows[i])
  {
    hide ChosenBytes;
    assert HoldsOwn(s.log, s.forwarded, i, s.flows[i]);
    assert Limited(s, s.flows[i].account) ==> FlowBacked(s.log, s.forwarded, i, s.flows[i]);
  }

  lemma BackedWrite(s: State, w: nat, count: nat, i: nat)
    requires Backed(s) && Enabled(s, Write(w, count)) && i < |s.flows|
    ensures HoldsOwn(s.log, s.forwarded, i, Next(s, Write(w, count)).flows[i])
    ensures Limited(s, s.flows[i].account) ==>
              FlowBacked(s.log, s.forwarded, i, Next(s, Write(w, count)).flows[i])
  {
    hide ChosenBytes;
    assert HoldsOwn(s.log, s.forwarded, i, s.flows[i]);
    assert Limited(s, s.flows[i].account) ==> FlowBacked(s.log, s.forwarded, i, s.flows[i]);
  }

  lemma BackedStep(s: State, step: Step)
    requires Backed(s) && FlowsOk(s) && Enabled(s, step)
    ensures Backed(Next(s, step))
  {
    if step.Swap? {
      BackedSwap(s, step.flow);
    } else if step.Decide? {
      BackedDecide(s, step.flow);
    } else if step.Open? {
      BackedOpen(s, step.account, step.cost);
    } else {
      BackedRest(s, step);
    }
  }

  lemma BackedRest(s: State, step: Step)
    requires Backed(s) && Enabled(s, step) && !step.Swap? && !step.Decide? && !step.Open?
    ensures Backed(Next(s, step))
  {
    hide FlowBacked, HoldsOwn, Next, Enabled;
    Frame(s, step);
    SameFlows(s, step);
    forall i | 0 <= i < |s.flows|
      ensures HoldsOwn(s.log, s.forwarded, i, Next(s, step).flows[i])
      ensures Limited(s, s.flows[i].account) ==> FlowBacked(s.log, s.forwarded, i, Next(s, step).flows[i])
    {
      if step.Write? {
        BackedWrite(s, step.flow, step.count, i);
      } else {
        BackedQuiet(s, step, i);
      }
    }
  }

  lemma SameFlows(s: State, step: Step)
    requires Enabled(s, step) && !step.Swap? && !step.Decide? && !step.Open?
    ensures |Next(s, step).flows| == |s.flows| && Next(s, step).forwarded == s.forwarded
  {
  }

  lemma BackedOpen(s: State, account: Option<nat>, cost: real)
    requires Backed(s)
    ensures Backed(Next(s, Open(account, cost)))
  {
    hide ChosenBytes;
  }

  lemma {:induction false} RunBacked(limits: seq<Option<int>>, steps: seq<Step>)
    requires Run(limits, steps).Some?
    ensures Backed(Run(limits, steps).value)
  {
    if steps != [] {
      var init := steps[..|steps| - 1];
      RunBacked(limits, init);
      StreamIntegrity(limits, init);
      BackedStep(Run(limits, init).value, steps[|steps| - 1]);
    }
  }

  // ---- When a direction is cut off ----

  /** A direction cut off for its allowance has a report of its own that left nothing, and was not forwarded. */
  ghost predicate CutOk(s: State) {
    forall i :: 0 <= i < |s.flows| && s.flows[i].phase == Ended(Exceeded) ==> EmptyHanded(s.log, s.forwarded, i)
  }

  ghost predicate EmptyHanded(log: seq<Entry>, forwarded: set<nat>, i: nat) {
    exists k :: 0 <= k < |log| && log[k].flow == i && log[k].left <= 0 && k !in forwarded
  }

  lemma CutQuiet(s: State, step: Step)
    requires CutOk(s) && Enabled(s, step) && !step.Swap? && !step.Decide?
    ensures CutOk(Next(s, step))
  {
    hide EmptyHanded;
  }

  lemma CutSwap(s: State, i: nat)
    requires CutOk(s) && Backed(s) && Enabled(s, Swap(i))
    ensures CutOk(Next(s, Swap(i)))
  {
    hide ChunkDebit, Debited, ChosenBytes;
    var t := Next(s, Swap(i));
    forall j | 0 <= j < |t.flows| && t.flows[j].phase == Ended(Exceeded)
      ensures EmptyHanded(t.log, t.forwarded, j)
    {
      var k :| 0 <= k < |s.log| && s.log[k].flow == j && s.log[k].left <= 0 && k !in s.forwarded;
      assert t.log[k] == s.log[k];
    }
  }

  lemma CutDecide(s: State, i: nat)
    requires CutOk(s) && Backed(s) && Enabled(s, Decide(i))
    ensures CutOk(Next(s, Decide(i)))
  {
    hide ChosenBytes, FlowBacked;
    var t := Next(s, Decide(i));
    assert HoldsOwn(s.log, s.forwarded, i, s.flows[i]);
    var entry := s.flows[i].phase.entry;
    forall j | 0 <= j < |t.flows| && t.flows[j].phase == Ended(Exceeded)
      ensures EmptyHanded(t.log, t.forwarded, j)
    {
      if s.flows[j].phase == Ended(Exceeded) {
        var k :| 0 <= k < |s.log| && s.log[k].flow == j && s.log[k].left <= 0 && k !in s.forwarded;
        assert t.log[k].flow == j && t.log[k].left <= 0 && k !in t.forwarded;
      } else {
        assert j == i && entry.Some? && s.log[entry.value].flow == i;
      }
    }
  }

  lemma CutStep(s: State, step: Step)
    requires CutOk(s) && Backed(s) && Enabled(s, step)
    ensures CutOk(Next(s, step))
  {
    hide CutOk, Backed, Next, Enabled;
    if step.Swap? {
      CutSwap(s, step.flow);
    } else if step.Decide? {
      CutDecide(s, step.flow);
    } else {
      CutQuiet(s, step);
    }
  }

  /** In every run, a direction is cut off only after a report of its own that left nothing. */
  lemma {:induction false} CutOffOnlyAtZero(limits: seq<Option<int>>, steps: seq<Step>)
    requires Run(limits, steps).Some?
    ensures CutOk(Run(limits, steps).value)
  {
    if steps != [] {
      var init := steps[..|steps| - 1];
      CutOffOnlyAtZero(limits, init);
      RunBacked(limits, init);
      CutStep(Run(limits, init).value, steps[|steps| - 1]);
    }
  }

  // ---- A chunk on its way ----

  /** One step, if it can be taken. */
  function Took(s: Option<State>, step: Step): Option<State> {
    match s
    case None => None
    case Some(st) => if Enabled(st, step) then Some(Next(st, step)) else None
  }

  /** The other direction is dropped when this one ends. */
  ghost predicate Dropped(s: State, t: State, i: nat) {
    var p := Partner(i);
    p < |s.flows| && !s.flows[p].phase.Ended? ==> p < |t.flows| && t.flows[p].phase == Ended(Cancelled)
  }

  /**
   * A chunk of a limited direction, left alone on its way, is debited once; if that
   * leaves something the chunk is written whole and the direction reads on,
   * otherwise it ends for its allowance and takes the other direction with it.
   */
  lemma ChunkThrough(s: State, i: nat, chunk: string)
    requires MayRun(s, i) && s.flows[i].phase == Reading && Limited(s, s.flows[i].account)
    requires 1 <= |chunk| <= BUFFER
    ensures var f := s.flows[i];
            var left := Debited(s.allowance[f.account.value].value, ChunkDebit(i, |chunk|, f.cost));
            var r := Took(Took(Took(Took(Some(s), Read(i, chunk)), Load(i)), Swap(i)), Decide(i));
            && r.Some? && |r.value.flows| == |s.flows|
            && r.value.allowance == s.allowance[f.account.value := Some(left)]
            && r.value.log == s.log + [Entry(f.account.value, i, |chunk|, ChunkDebit(i, |chunk|, f.cost), left)]
            && (left <= 0 ==> r.value.flows[i].phase == Ended(Exceeded) && Dropped(s, r.value, i))
            && (left > 0 ==>
                  r.value.flows == s.flows[i := f.(phase := Writing(chunk, 0), source := f.source + chunk,
                                                   reported := |f.source| + |chunk|)])
  {
    hide ChunkDebit, Debited;
    var f := s.flows[i];
    var s1 := Next(s, Read(i, chunk));
    assert Enabled(s1, Load(i));
    var s2 := Next(s1, Load(i));
    assert Enabled(s2, Swap(i));
    var s3 := Next(s2, Swap(i));
    assert Enabled(s3, Decide(i));
    var s4 := Next(s3, Decide(i));
    assert s3.allowance == s.allowance[f.account.value := s3.allowance[f.account.value]];
    var left := s3.log[|s.log|].left;
    if left > 0 {
      assert s4.flows == s.flows[i := s4.flows[i]];
    }
  }

  /** Without a limit, or without an account, nothing is debited and the chunk goes on to be written. */
  lemma ChunkFree(s: State, i: nat, chunk: string)
    requires MayRun(s, i) && s.flows[i].phase == Reading && !Limited(s, s.flows[i].account)
    requires 1 <= |chunk| <= BUFFER
    ensures var f, read := s.flows[i], Took(Some(s), Read(i, chunk));
            var r := if f.account.None? then read else Took(Took(read, Unmetered(i)), Decide(i));
            && r.Some? && r.value.allowance == s.allowance && r.value.log == s.log && |r.value.flows| == |s.flows|
            && r.value.flows[i].phase == Writing(chunk, 0) && r.value.flows[i].source == f.source + chunk
  {
    var s1 := Next(s, Read(i, chunk));
    if s.flows[i].account.Some? {
      assert Enabled(s1, Unmetered(i));
      var s2 := Next(s1, Unmetered(i));
      assert Enabled(s2, Decide(i));
    }
  }

  /** Writing the chunk, at once or in pieces, delivers it in order and reads on at its end. */
  lemma ChunkWritten(s: State, i: nat, chunk: string, n: nat)
    requires MayRun(s, i) && s.flows[i].phase == Writing(chunk, 0) && 1 <= n < |chunk|
    ensures var once := Took(Some(s), Write(i, |chunk|));
            var twice := Took(Took(Some(s), Write(i, n)), Write(i, |chunk| - n));
            && once.Some? && once == twice
            && |once.value.flows| == |s.flows|
            && once.value.flows[i].phase == Reading
            && once.value.flows[i].delivered == s.flows[i].delivered + chunk
  {
    var f := s.flows[i];
    var a, b := Next(s, Write(i, |chunk|)), Next(s, Write(i, n));
    assert Enabled(b, Write(i, |chunk| - n));
    var c := Next(b, Write(i, |chunk| - n));
    assert chunk[0..|chunk|] == chunk && chunk[0..n] + chunk[n..|chunk|] == chunk;
    assert f.delivered + chunk[0..n] + chunk[n..|chunk|] == f.delivered + chunk;
    assert a.flows == c.flows;
  }

  // ---- Nothing gets stuck ----

  /** Where a direction may go on from. */
  ghost predicate GoesOn(s: State, i: nat)
    requires i < |s.flows|
  {
    var f := s.flows[i];
    && (f.phase.Swapping? ==> Limited(s, f.account))
    && (f.phase.Deciding? && f.phase.entry.Some? ==> f.phase.entry.value < |s.log|)
    && (f.phase.Writing? ==> f.phase.written < |f.phase.chunk|)
    && (f.phase.InCall() ==> f.phase.chunk != "")
    && (f.phase.InCall() && Partner(i) < |s.flows| ==> !s.flows[Partner(i)].phase.InCall())
  }

  ghost predicate AllGoOn(s: State) {
    |s.flows| % 2 == 0 && forall i :: 0 <= i < |s.flows| ==> GoesOn(s, i)
  }

  lemma GoesOnOpen(s: State, account: Option<nat>, cost: real, i: nat)
    requires AllGoOn(s) && i < |s.flows| + 2
    ensures GoesOn(Next(s, Open(account, cost)), i)
  {
    if i < |s.flows| {
      assert GoesOn(s, i);
    }
  }

  lemma GoesOnSwap(s: State, j: nat, i: nat)
    requires AllGoOn(s) && Enabled(s, Swap(j)) && i < |s.flows|
    ensures GoesOn(Next(s, Swap(j)), i)
  {
    hide ChunkDebit, Debited;
    assert GoesOn(s, i) && GoesOn(s, j) && Partner(Partner(i)) == i;
  }

  lemma GoesOnStop(s: State, j: nat, outcome: Outcome, i: nat)
    requires AllGoOn(s) && Enabled(s, Stop(j, outcome)) && i < |s.flows|
    ensures GoesOn(Next(s, Stop(j, outcome)), i)
  {
    assert GoesOn(s, i);
  }

  lemma GoesOnDecide(s: State, j: nat, i: nat)
    requires AllGoOn(s) && Enabled(s, Decide(j)) && i < |s.flows|
    ensures GoesOn(Next(s, Decide(j)), i)
  {
    assert GoesOn(s, i) && GoesOn(s, j) && Partner(Partner(i)) == i;
  }

  lemma GoesOnMoved(s: State, step: Step, i: nat)
    requires AllGoOn(s) && Enabled(s, step) && i < |s.flows|
    requires step.Read? || step.Unmetered? || step.Load? || step.SwapFails? || step.Write?
    ensures GoesOn(Next(s, step), i)
  {
    assert GoesOn(s, i) && GoesOn(s, step.flow) && Partner(Partner(i)) == i;
  }

  lemma GoesOnStep(s: State, step: Step, i: nat)
    requires AllGoOn(s) && Enabled(s, step) && i < |Next(s, step).flows|
    ensures GoesOn(Next(s, step), i)
  {
    hide ChunkDebit, Debited, GoesOn, AllGoOn;
    match step
    case Open(account, cost) => GoesOnOpen(s, account, cost, i);
    case Swap(j) => GoesOnSwap(s, j, i);
    case Stop(j, outcome) => GoesOnStop(s, j, outcome, i);
    case Decide(j) => GoesOnDecide(s, j, i);
    case _ => GoesOnMoved(s, step, i);
  }

  lemma EvenFlows(s: State, step: Step)
    requires Enabled(s, step) && |s.flows| % 2 == 0
    ensures |Next(s, step).flows| % 2 == 0
  {
    hide ChunkDebit, Debited;
  }

  lemma {:induction false} RunGoesOn(limits: seq<Option<int>>, steps: seq<Step>)
    requires Run(limits, steps).Some?
    ensures AllGoOn(Run(limits, steps).value)
  {
    if steps != [] {
      var init, step := steps[..|steps| - 1], steps[|steps| - 1];
      RunGoesOn(limits, init);
      var s := Run(limits, init).value;
      EvenFlows(s, step);
      forall i | 0 <= i < |Next(s, step).flows|
        ensures GoesOn(Next(s, step), i)
      {
        GoesOnStep(s, step, i);
      }
    }
  }

  /** The step a direction takes next; a report in progress may always be completed. */
  function Onward(s: State, i: nat): Step
    requires i < |s.flows|
  {
    var f := s.flows[i];
    match f.phase
    case Reading => Read(i, "x")
    case Reporting(_) => if Limited(s, f.account) then Load(i) else Unmetered(i)
    case Swapping(_, cur) =>
      if Limited(s, f.account) && s.allowance[f.account.value].value == cur then Swap(i) else SwapFails(i)
    case Deciding(_, _) => Decide(i)
    case Writing(_, _) => Write(i, 1)
    case Ended(_) => Stop(i, Eof)
  }

  /** In every reachable state, a direction that has not ended can take its next step, unless the other one is in a call, which can. */
  lemma NothingStuck(limits: seq<Option<int>>, steps: seq<Step>, i: nat)
    requires Run(limits, steps).Some?
    requires var s := Run(limits, steps).value; i < |s.flows| && !s.flows[i].phase.Ended?
    ensures var s := Run(limits, steps).value;
            || Enabled(s, Onward(s, i))
            || (Partner(i) < |s.flows| && s.flows[Partner(i)].phase.InCall() && Enabled(s, Onward(s, Partner(i))))
  {
    hide Run;
    RunGoesOn(limits, steps);
    var s := Run(limits, steps).value;
    assert GoesOn(s, i);
    if Partner(i) < |s.flows| {
      assert GoesOn(s, Partner(i)) && Partner(Partner(i)) == i;
    }
  }

  /** All bytes delivered by the first `n` directions on one account. */
  function DeliveredBy(flows: seq<Flow>, u: nat, n: nat): nat
    requires n <= |flows|
  {
    if n == 0 then 0
    else DeliveredBy(flows, u, n - 1) + (if flows[n - 1].account == Some(u) then |flows[n - 1].delivered| else 0)
  }

  function ChosenBy(s: State, log: seq<Entry>, u: nat, n: nat): nat
    requires n <= |s.flows|
  {
    if n == 0 then 0
    else
      ChosenBy(s, log, u, n - 1)
      + (if s.flows[n - 1].account == Some(u) then ChosenBytes(log, s.forwarded, n - 1) else 0)
  }

  lemma {:induction false} DeliveredIsChosen(s: State, u: nat, n: nat)
    requires Backed(s) && n <= |s.flows| && Limited(s, Some(u))
    ensures DeliveredBy(s.flows, u, n) <= ChosenBy(s, s.log, u, n)
  {
    if n > 0 {
      DeliveredIsChosen(s, u, n - 1);
    }
  }

  lemma {:induction false} ChosenBySnoc(s: State, log: seq<Entry>, e: Entry, u: nat, n: nat)
    requires n <= |s.flows|
    ensures ChosenBy(s, log + [e], u, n) <=
            ChosenBy(s, log, u, n)
            + (if |log| in s.forwarded && e.flow < n && s.flows[e.flow].account == Some(u) then e.bytes else 0)
  {
    assert (log + [e])[..|log|] == log;
    if n > 0 {
      ChosenBySnoc(s, log, e, u, n - 1);
    }
  }

  lemma {:induction false} NothingChosen(s: State, u: nat, n: nat)
    requires n <= |s.flows|
    ensures ChosenBy(s, [], u, n) == 0
  {
    if n > 0 {
      NothingChosen(s, u, n - 1);
    }
  }

  /** Summed by direction or by entry, forwarded bytes cost at least one unit each. */
  lemma {:induction false} ChosenIsPaid(s: State, u: nat, m: nat)
    requires Once(s) && Backed(s) && m <= |s.log|
    requires forall i :: 0 <= i < |s.flows| && s.flows[i].account == Some(u) ==> s.flows[i].cost >= 1.0
    ensures ChosenBy(s, s.log[..m], u, |s.flows|) <= SumOver(s.log[..m], s.forwarded, u)
  {
    hide Debit;
    if m == 0 {
      NothingChosen(s, u, |s.flows|);
    } else {
      var e := s.log[m - 1];
      ChosenIsPaid(s, u, m - 1);
      assert s.log[..m] == s.log[..m - 1] + [e];
      assert s.log[..m][..m - 1] == s.log[..m - 1];
      ChosenBySnoc(s, s.log[..m - 1], e, u, |s.flows|);
      if s.flows[e.flow].account == Some(u) {
        if e.flow % 2 == 0 {
          DebitCoversBytes(0, e.bytes, s.flows[e.flow].cost);
        } else {
          DebitCoversBytes(e.bytes, 0, s.flows[e.flow].cost);
        }
      }
    }
  }

  /**
   * When no connection of an account is cheaper than one unit per byte, all of
   * them together, in both directions and in any interleaving, deliver fewer
   * bytes than the account's initial allowance.
   */
  lemma DeliveredBelowLimit(limits: seq<Option<int>>, steps: seq<Step>, u: nat)
    requires Run(limits, steps).Some? && u < |limits| && limits[u].Some? && limits[u].value > 0
    requires var s := Run(limits, steps).value;
             forall i :: 0 <= i < |s.flows| && s.flows[i].account == Some(u) ==> s.flows[i].cost >= 1.0
    ensures var s := Run(limits, steps).value;
            DeliveredBy(s.flows, u, |s.flows|) < limits[u].value
  {
    hide Run, SqlRun, LogOk, DebitsOf;
    var s := Run(limits, steps).value;
    RunLinear(limits, steps);
    RunOnce(limits, steps);
    RunBacked(limits, steps);
    ForwardedBelowLimit(limits, steps, u);
    DeliveredIsChosen(s, u, |s.flows|);
    ChosenIsPaid(s, u, |s.log|);
    assert s.log[..|s.log|] == s.log;
  }
}
