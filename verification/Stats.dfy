// Connection accounting and byte counters under every interleaving.
module Stats {
  import opened Wrappers
  import opened Metering

  // ---- Active connections ----

  /** Where a connection stands; `ok` is its result, `relayed` whether it got to the relay. */
  datatype Stage =
    | Handshake
    | InRelay
    | RelayOver(ok: bool)
    | Returned(ok: bool, relayed: bool)
    | Closed(ok: bool, relayed: bool)

  /** `decrements` counts how often this connection lowered the active counter. */
  datatype Connection = Connection(stage: Stage, decrements: nat)

  datatype Server = Server(conns: seq<Connection>, active: int, total: int, succeeded: int, failed: int)

  datatype Event =
    | Accept
    | FailEarly(i: nat)
    | StartRelay(i: nat)
    | EndRelay(i: nat, ok: bool, recorded: bool)
    | CountRelay(i: nat)
    | Finish(i: nat)

  predicate Possible(s: Server, e: Event) {
    match e
    case Accept => true
    case FailEarly(i) => i < |s.conns| && s.conns[i].stage.Handshake?
    case StartRelay(i) => i < |s.conns| && s.conns[i].stage.Handshake?
    case EndRelay(i, ok, recorded) => i < |s.conns| && s.conns[i].stage.InRelay? && (recorded ==> !ok)
    case CountRelay(i) => i < |s.conns| && s.conns[i].stage.RelayOver?
    case Finish(i) => i < |s.conns| && s.conns[i].stage.Returned?
  }

  function Put(s: Server, i: nat, c: Connection): Server
    requires i < |s.conns|
  {
    s.(conns := s.conns[i := c])
  }

  function After(s: Server, e: Event): Server
    requires Possible(s, e)
  {
    match e
    case Accept =>
      s.(conns := s.conns + [Connection(Handshake, 0)], active := s.active + 1, total := s.total + 1)
    case FailEarly(i) => Put(s, i, s.conns[i].(stage := Returned(false, false)))
    case StartRelay(i) => Put(s, i, s.conns[i].(stage := InRelay)).(succeeded := s.succeeded + 1)
    case EndRelay(i, ok, recorded) =>
      Put(s, i, s.conns[i].(stage := RelayOver(ok))).(failed := s.failed + if recorded then 1 else 0)
    case CountRelay(i) =>
      Put(s, i, Connection(Returned(s.conns[i].stage.ok, true), s.conns[i].decrements + 1)).(active := s.active - 1)
    case Finish(i) =>
      var c := s.conns[i];
      var closed := Closed(c.stage.ok, c.stage.relayed);
      if c.stage.ok then Put(s, i, c.(stage := closed))
      else Put(s, i, Connection(closed, c.decrements + 1)).(active := s.active - 1, failed := s.failed + 1)
  }

  function Serve(events: seq<Event>): Option<Server> {
    if events == [] then Some(Server([], 0, 0, 0, 0))
    else
      match Serve(events[..|events| - 1])
      case None => None
      case Some(s) =>
        var e := events[|events| - 1];
        if Possible(s, e) then Some(After(s, e)) else None
  }

  function Decrements(conns: seq<Connection>): nat {
    if conns == [] then 0 else Decrements(conns[..|conns| - 1]) + conns[|conns| - 1].decrements
  }

  lemma {:induction false} DecrementsPut(conns: seq<Connection>, i: nat, c: Connection)
    requires i < |conns|
    ensures Decrements(conns[i := c]) == Decrements(conns) - conns[i].decrements + c.decrements
  {
    var n := |conns| - 1;
    if i < n {
      DecrementsPut(conns[..n], i, c);
      assert conns[i := c][..n] == conns[..n][i := c];
    } else {
      assert conns[i := c][..n] == conns[..n];
    }
  }

  /** How often a connection at this stage has been decremented. */
  ghost predicate CountedOnce(c: Connection) {
    match c.stage
    case Handshake => c.decrements == 0
    case InRelay => c.decrements == 0
    case RelayOver(_) => c.decrements == 0
    case Returned(ok, relayed) => c.decrements == (if relayed then 1 else 0) && (ok ==> relayed)
    case Closed(ok, relayed) => c.decrements == (if relayed && !ok then 2 else 1) && (ok ==> relayed)
  }

  ghost predicate Consistent(s: Server) {
    && s.active == |s.conns| - Decrements(s.conns)
    && s.total == |s.conns|
    && forall i :: 0 <= i < |s.conns| ==> CountedOnce(s.conns[i])
  }

  lemma EventKeeps(s: Server, e: Event)
    requires Consistent(s) && Possible(s, e)
    ensures Consistent(After(s, e))
  {
    if e.Accept? {
      assert (s.conns + [Connection(Handshake, 0)])[..|s.conns|] == s.conns;
    } else {
      assert CountedOnce(s.conns[e.i]);
      DecrementsPut(s.conns, e.i, After(s, e).conns[e.i]);
    }
  }

  lemma {:induction false} ServeConsistent(events: seq<Event>)
    requires Serve(events).Some?
    ensures Consistent(Serve(events).value)
  {
    if events != [] {
      ServeConsistent(events[..|events| - 1]);
      EventKeeps(Serve(events[..|events| - 1]).value, events[|events| - 1]);
    }
  }

  /** Not decremented yet. */
  predicate Counted(c: Connection) {
    match c.stage
    case Returned(_, relayed) => !relayed
    case Closed(_, _) => false
    case _ => true
  }

  predicate Live(c: Connection) {
    c.stage.Handshake? || c.stage.InRelay?
  }

  predicate RelayError(c: Connection) {
    c.stage == Closed(false, true)
  }

  function Count(conns: seq<Connection>, p: Connection -> bool): nat {
    if conns == [] then 0
    else Count(conns[..|conns| - 1], p) + (if p(conns[|conns| - 1]) then 1 else 0)
  }

  /** No decrement is outstanding. */
  ghost predicate Settled(conns: seq<Connection>) {
    forall i :: 0 <= i < |conns| ==> Live(conns[i]) || conns[i].stage.Closed?
  }

  lemma {:induction false} DecrementsAre(conns: seq<Connection>)
    requires forall i :: 0 <= i < |conns| ==> CountedOnce(conns[i])
    ensures Decrements(conns) == |conns| - Count(conns, Counted) + Count(conns, RelayError)
  {
    if conns != [] {
      var c := conns[|conns| - 1];
      DecrementsAre(conns[..|conns| - 1]);
      assert CountedOnce(c);
    }
  }

  lemma {:induction false} CountSame(conns: seq<Connection>, p: Connection -> bool, q: Connection -> bool)
    requires forall i :: 0 <= i < |conns| ==> p(conns[i]) == q(conns[i])
    ensures Count(conns, p) == Count(conns, q)
  {
    if conns != [] {
      CountSame(conns[..|conns| - 1], p, q);
    }
  }

  lemma {:induction false} CountZero(conns: seq<Connection>)
    ensures Count(conns, RelayError) == 0 <==> forall i :: 0 <= i < |conns| ==> !RelayError(conns[i])
  {
    if conns != [] {
      CountZero(conns[..|conns| - 1]);
    }
  }

  /**
   * At every step of every run, the counter is the number of connections not
   * decremented yet less the relay errors closed so far, so it is right exactly
   * when no relay has failed. A connection that ends Ok or before its relay is
   * decremented once, one whose relay ends in an error twice. With no decrement
   * outstanding, the connections counted are the live ones.
   */
  lemma ActiveAccounting(events: seq<Event>)
    requires Serve(events).Some?
    ensures var s := Serve(events).value;
            && s.total == |s.conns|
            && s.active == Count(s.conns, Counted) - Count(s.conns, RelayError)
            && (s.active == Count(s.conns, Counted) <==> forall i :: 0 <= i < |s.conns| ==> !RelayError(s.conns[i]))
            && (forall i :: 0 <= i < |s.conns| && s.conns[i].stage.Closed? ==>
                  s.conns[i].decrements == if RelayError(s.conns[i]) then 2 else 1)
            && (Settled(s.conns) ==> Count(s.conns, Counted) == Count(s.conns, Live))
  {
    hide Serve;
    var s := Serve(events).value;
    ServeConsistent(events);
    assert forall i :: 0 <= i < |s.conns| ==> CountedOnce(s.conns[i]);
    DecrementsAre(s.conns);
    CountZero(s.conns);
    if Settled(s.conns) {
      CountSame(s.conns, Counted, Live);
    }
  }

  /** One connection whose relay fails leaves the counter at minus one. */
  lemma CounterGoesNegative()
    ensures exists events: seq<Event> ::
              && Serve(events).Some?
              && Settled(Serve(events).value.conns)
              && Serve(events).value.active == -1
  {
    var r0: seq<Event> := [];
    var r1, r2 := r0 + [Accept], r0 + [Accept] + [StartRelay(0)];
    var r3 := r2 + [EndRelay(0, false, false)];
    var r4 := r3 + [CountRelay(0)];
    var r5 := r4 + [Finish(0)];
    ServeSnoc(r0, Accept);
    assert Serve(r1).value.conns == [Connection(Handshake, 0)];
    ServeSnoc(r1, StartRelay(0));
    assert Serve(r2).value.conns == [Connection(InRelay, 0)];
    ServeSnoc(r2, EndRelay(0, false, false));
    assert Serve(r3).value.conns == [Connection(RelayOver(false), 0)];
    ServeSnoc(r3, CountRelay(0));
    assert Serve(r4).value.conns == [Connection(Returned(false, true), 1)];
    ServeSnoc(r4, Finish(0));
    assert Serve(r5).value.conns == [Connection(Closed(false, true), 2)];
  }

  lemma ServeSnoc(events: seq<Event>, e: Event)
    requires Serve(events).Some? && Possible(Serve(events).value, e)
    ensures Serve(events + [e]) == Some(After(Serve(events).value, e))
  {
    assert (events + [e])[..|events|] == events;
  }

  // ---- Byte counters ----

  /**
   * One direction's counters. `pending` holds the adds caught between their two
   * increments, `drained` what readers took, `base` what `total` would be had
   * nothing been gained since the start or the last load.
   */
  datatype Counters = Counters(current: int, total: int, pending: seq<nat>, drained: int, base: int)

  datatype Op =
    | AddCurrent(bytes: nat)
    | AddTotal(add: nat)
    | Drain
    | Peek
    | LoadTotal(stored: int)

  predicate Runnable(c: Counters, op: Op) {
    op.AddTotal? ==> op.add < |c.pending|
  }

  function Done(c: Counters, op: Op): Counters
    requires Runnable(c, op)
  {
    match op
    case AddCurrent(bytes) => c.(current := c.current + bytes, pending := c.pending + [bytes])
    case AddTotal(add) => c.(total := c.total + c.pending[add], pending := Without(c.pending, add))
    case Drain => c.(drained := c.drained + c.current, current := 0)
    case Peek => c
    case LoadTotal(stored) => c.(total := stored, base := c.base + stored - c.total)
  }

  function Executed(ops: seq<Op>): Option<Counters> {
    if ops == [] then Some(Counters(0, 0, [], 0, 0))
    else
      match Executed(ops[..|ops| - 1])
      case None => None
      case Some(c) =>
        var op := ops[|ops| - 1];
        if Runnable(c, op) then Some(Done(c, op)) else None
  }

  /** What was drained and is current exceeds what the total gained by the adds in progress. */
  ghost predicate Balanced(c: Counters) {
    c.drained + c.current == (c.total - c.base) + Sum(c.pending)
  }

  lemma OpKeeps(c: Counters, op: Op)
    requires Balanced(c) && Runnable(c, op)
    ensures Balanced(Done(c, op))
  {
    match op
    case AddCurrent(bytes) => assert (c.pending + [bytes])[..|c.pending|] == c.pending;
    case AddTotal(add) => SumWithout(c.pending, add);
    case _ =>
  }

  /** Bytes added so far, read off the operations. */
  function Added(ops: seq<Op>): nat {
    if ops == [] then 0
    else Added(ops[..|ops| - 1]) + (if ops[|ops| - 1].AddCurrent? then ops[|ops| - 1].bytes else 0)
  }

  /**
   * At every step, what readers drained plus what is current is every byte ever
   * added, and exceeds what the total gained by exactly the adds in progress.
   */
  lemma {:induction false} BytesConserved(ops: seq<Op>)
    requires Executed(ops).Some?
    ensures var c := Executed(ops).value;
            && c.drained + c.current == Added(ops)
            && Balanced(c)
            && (c.pending == [] ==> c.drained + c.current == c.total - c.base)
  {
    if ops != [] {
      var init, op := ops[..|ops| - 1], ops[|ops| - 1];
      BytesConserved(init);
      OpKeeps(Executed(init).value, op);
    }
  }

  // ---- The counters as they are kept ----

  datatype Snapshot = Snapshot(
    currentIn: int, currentOut: int, totalIn: int, totalOut: int,
    active: int, total: int, failed: int, succeeded: int)

  /** Seconds without activity after which a reader takes the current bytes. */
  const IDLE := 1.0

  class GlobalStats {
    var currentBytesIn: int
    var currentBytesOut: int
    var totalBytesIn: int
    var totalBytesOut: int
    var activeConnections: int
    var totalConnections: int
    var failedConnections: int
    var succeededConnections: int
    var lastActivity: real
    ghost var drainedIn: int
    ghost var drainedOut: int
    ghost var baseIn: int
    ghost var baseOut: int

    ghost function In(): Counters
      reads this
    {
      Counters(currentBytesIn, totalBytesIn, [], drainedIn, baseIn)
    }

    ghost function Out(): Counters
      reads this
    {
      Counters(currentBytesOut, totalBytesOut, [], drainedOut, baseOut)
    }

    /** Active, total, failed and succeeded. */
    ghost function Connections(): (int, int, int, int)
      reads this
    {
      (activeConnections, totalConnections, failedConnections, succeededConnections)
    }

    ghost predicate Valid()
      reads this
    {
      Balanced(In()) && Balanced(Out())
    }

    constructor (now: real)
      ensures Valid() && In() == Counters(0, 0, [], 0, 0) == Out() && Connections() == (0, 0, 0, 0)
      ensures lastActivity == now
    {
      currentBytesIn, currentBytesOut, totalBytesIn, totalBytesOut := 0, 0, 0, 0;
      activeConnections, totalConnections, failedConnections, succeededConnections := 0, 0, 0, 0;
      drainedIn, drainedOut, baseIn, baseOut := 0, 0, 0, 0;
      lastActivity := now;
    }

    method IncrementActiveConnections()
      modifies `activeConnections, `totalConnections
      ensures activeConnections == old(activeConnections) + 1 && totalConnections == old(totalConnections) + 1
    {
      activeConnections := activeConnections + 1;
      totalConnections := totalConnections + 1;
    }

    method DecrementActiveConnections()
      modifies `activeConnections
      ensures activeConnections == old(activeConnections) - 1
    {
      activeConnections := activeConnections - 1;
    }

    method RecordConnectionResult(success: bool)
      modifies `succeededConnections, `failedConnections
      ensures succeededConnections == old(succeededConnections) + if success then 1 else 0
      ensures failedConnections == old(failedConnections) + if success then 0 else 1
    {
      if success {
        succeededConnections := succeededConnections + 1;
      } else {
        failedConnections := failedConnections + 1;
      }
    }

    /** An add that nothing interrupts is its two increments. */
    method AddBytesIn(bytes: nat, now: real)
      requires Valid()
      modifies `lastActivity, `currentBytesIn, `totalBytesIn
      ensures Valid() && lastActivity == now
      ensures In() == Done(Done(old(In()), AddCurrent(bytes)), AddTotal(0))
    {
      lastActivity := now;
      currentBytesIn := currentBytesIn + bytes;
      totalBytesIn := totalBytesIn + bytes;
    }

    method AddBytesOut(bytes: nat, now: real)
      requires Valid()
      modifies `lastActivity, `currentBytesOut, `totalBytesOut
      ensures Valid() && lastActivity == now
      ensures Out() == Done(Done(old(Out()), AddCurrent(bytes)), AddTotal(0))
    {
      lastActivity := now;
      currentBytesOut := currentBytesOut + bytes;
      totalBytesOut := totalBytesOut + bytes;
    }

    /** The snapshot shows every counter as it was; after an idle second the current bytes are taken. */
    method GetStats(now: real) returns (s: Snapshot)
      requires Valid()
      modifies `currentBytesIn, `currentBytesOut, `drainedIn, `drainedOut
      ensures Valid()
      ensures s == old(Snapshot(currentBytesIn, currentBytesOut, totalBytesIn, totalBytesOut,
                                activeConnections, totalConnections, failedConnections, succeededConnections))
      ensures var op := if now - lastActivity > IDLE then Drain else Peek;
              In() == Done(old(In()), op) && Out() == Done(old(Out()), op)
    {
      var currentIn, currentOut := currentBytesIn, currentBytesOut;
      if now - lastActivity > IDLE {
        drainedIn, drainedOut := drainedIn + currentBytesIn, drainedOut + currentBytesOut;
        currentBytesIn, currentBytesOut := 0, 0;
      }
      s := Snapshot(currentIn, currentOut, totalBytesIn, totalBytesOut,
                    activeConnections, totalConnections, failedConnections, succeededConnections);
    }

    /** Replace the totals by stored ones. */
    method LoadFromDb(connections: int, succeeded: int, failed: int, bytesIn: int, bytesOut: int)
      requires Valid()
      modifies `totalConnections, `succeededConnections, `failedConnections
      modifies `totalBytesIn, `totalBytesOut, `baseIn, `baseOut
      ensures Valid()
      ensures Connections() == (activeConnections, connections, failed, succeeded)
      ensures In() == Done(old(In()), LoadTotal(bytesIn)) && Out() == Done(old(Out()), LoadTotal(bytesOut))
    {
      totalConnections, succeededConnections, failedConnections := connections, succeeded, failed;
      baseIn, baseOut := baseIn + bytesIn - totalBytesIn, baseOut + bytesOut - totalBytesOut;
      totalBytesIn, totalBytesOut := bytesIn, bytesOut;
    }
  }

  // ---- The accept loop on these counters ----

  /** The server as its tasks drive it: `server` is the life-cycle model of what has happened. */
  class Listener {
    const stats: GlobalStats
    ghost var server: Server

    /** The counters are the modelled ones. */
    ghost predicate Valid()
      reads this, stats
    {
      && Consistent(server)
      && stats.Connections() == (server.active, server.total, server.failed, server.succeeded)
    }

    constructor (stats: GlobalStats)
      requires stats.Connections() == (0, 0, 0, 0)
      ensures Valid() && this.stats == stats && server == Server([], 0, 0, 0, 0)
    {
      this.stats := stats;
      this.server := Server([], 0, 0, 0, 0);
    }

    method Accepted()
      requires Valid()
      modifies this, stats
      ensures Valid() && server == After(old(server), Accept)
    {
      EventKeeps(server, Accept);
      stats.IncrementActiveConnections();
      server := After(server, Accept);
    }

    /** The handler of connection `i` gives up before its relay; no counter moves yet. */
    ghost method FailedEarly(i: nat)
      requires Valid() && Possible(server, FailEarly(i))
      modifies this
      ensures Valid() && server == After(old(server), FailEarly(i))
    {
      EventKeeps(server, FailEarly(i));
      server := After(server, FailEarly(i));
    }

    /** The handler of connection `i` reports success and starts its relay. */
    method RelayStarted(ghost i: nat)
      requires Valid() && Possible(server, StartRelay(i))
      modifies this, stats
      ensures Valid() && server == After(old(server), StartRelay(i))
    {
      EventKeeps(server, StartRelay(i));
      stats.RecordConnectionResult(true);
      server := After(server, StartRelay(i));
    }

    /** A direction of the relay has ended; only I/O errors are recorded. */
    method RelayEnded(ghost i: nat, ok: bool, recorded: bool)
      requires Valid() && Possible(server, EndRelay(i, ok, recorded))
      modifies this, stats
      ensures Valid() && server == After(After(old(server), EndRelay(i, ok, recorded)), CountRelay(i))
    {
      EventKeeps(server, EndRelay(i, ok, recorded));
      if recorded {
        stats.RecordConnectionResult(false);
      }
      server := After(server, EndRelay(i, ok, recorded));
      EventKeeps(server, CountRelay(i));
      stats.DecrementActiveConnections();
      server := After(server, CountRelay(i));
    }

    /** The task of connection `i` has its result: an error is recorded, and decremented again. */
    method Finished(ghost i: nat, ok: bool)
      requires Valid() && Possible(server, Finish(i)) && ok == server.conns[i].stage.ok
      modifies this, stats
      ensures Valid() && server == After(old(server), Finish(i))
    {
      EventKeeps(server, Finish(i));
      if !ok {
        stats.RecordConnectionResult(false);
        stats.DecrementActiveConnections();
      }
      server := After(server, Finish(i));
    }

    /** The counter in use is off by the relay errors. */
    lemma CounterIsOff()
      requires Valid()
      ensures stats.activeConnections == Count(server.conns, Counted) - Count(server.conns, RelayError)
    {
      DecrementsAre(server.conns);
    }
  }
}
