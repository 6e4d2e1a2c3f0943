/** The drain protocol of the broker: close the door, cancel and join every admitted request,
    then close the request table and report it.  Each critical section, wait and database
    transaction is one step, and any number of handlers interleave with one stop at a time. */
module BrokerDrain {
  import opened Cardinality
  import opened Results

  // ---------------------------------------------------------------------------------
  // The request table
  // ---------------------------------------------------------------------------------

  datatype RowState = Reserved | Dispatched | Settled | Unknown

  /** One request: the handler that recorded it, its reservation, and its cost once settled. */
  datatype Row = Row(owner: nat, reserved: nat, state: RowState, cost: nat)

  /** What the sums over the table add up: settled costs, open reservations, the reservations
      of unknown requests, and the unknown requests themselves. */
  datatype Column = Costs | Open | Lost | Unknowns

  function Weight(r: Row, c: Column): nat {
    match c
    case Costs => if r.state == Settled then r.cost else 0
    case Open => if r.state == Reserved || r.state == Dispatched then r.reserved else 0
    case Lost => if r.state == Unknown then r.reserved else 0
    case Unknowns => if r.state == Unknown then 1 else 0
  }

  function Sum(rows: seq<Row>, c: Column): nat
    decreases |rows|
  {
    if rows == [] then 0 else Sum(rows[..|rows| - 1], c) + Weight(rows[|rows| - 1], c)
  }

  /** Money that is spent or may still have to be paid. */
  function Exposure(rows: seq<Row>): nat { Sum(rows, Costs) + Sum(rows, Open) + Sum(rows, Lost) }

  lemma SumSnoc(rows: seq<Row>, r: Row, c: Column)
    ensures Sum(rows + [r], c) == Sum(rows, c) + Weight(r, c)
  {
    assert (rows + [r])[..|rows|] == rows;
  }

  lemma {:induction false} SumUpdate(rows: seq<Row>, i: nat, r: Row, c: Column)
    requires i < |rows|
    ensures Sum(rows[i := r], c) == Sum(rows, c) - Weight(rows[i], c) + Weight(r, c)
    decreases |rows|
  {
    var n := |rows| - 1;
    if i < n {
      SumUpdate(rows[..n], i, r, c);
      assert rows[i := r][..n] == rows[..n][i := r];
    } else {
      assert rows[i := r][..n] == rows[..n];
    }
  }

  lemma ExposureUpdate(rows: seq<Row>, i: nat, r: Row)
    requires i < |rows|
    requires Weight(r, Costs) + Weight(r, Open) + Weight(r, Lost)
             <= Weight(rows[i], Costs) + Weight(rows[i], Open) + Weight(rows[i], Lost)
    ensures Exposure(rows[i := r]) <= Exposure(rows)
  {
    SumUpdate(rows, i, r, Costs);
    SumUpdate(rows, i, r, Open);
    SumUpdate(rows, i, r, Lost);
  }

  function CloseRow(r: Row): Row { if r.state == Settled then r else r.(state := Unknown) }

  /** Whatever is still reserved or dispatched becomes unknown. */
  function Closed(rows: seq<Row>): seq<Row> { seq(|rows|, i requires 0 <= i < |rows| => CloseRow(rows[i])) }

  /** Closing the table loses no row and no money: open reservations become lost ones. */
  lemma {:induction false} ClosingConserves(rows: seq<Row>)
    ensures |Closed(rows)| == |rows| && Sum(Closed(rows), Open) == 0
    ensures Sum(Closed(rows), Costs) == Sum(rows, Costs)
    ensures Sum(Closed(rows), Lost) == Sum(rows, Lost) + Sum(rows, Open)
    decreases |rows|
  {
    if rows != [] {
      var front := rows[..|rows| - 1];
      ClosingConserves(front);
      assert Closed(rows)[..|rows| - 1] == Closed(front);
    }
  }

  // ---------------------------------------------------------------------------------
  // The protocol
  // ---------------------------------------------------------------------------------

  datatype Handler = Working | Leaving

  datatype Usage = Usage(settled: nat, open: nat, lost: nat, paused: bool)

  datatype Receipt = Receipt(usage: Usage, requests: nat, unknowns: nat, reconcile: bool)

  /** Where the one stop that holds the drain lock has got to. */
  datatype Stopper =
    | Idle
    | Pausing
    | Waiting(pause: bool)
    | Joined(pause: bool)
    | Committed(pause: bool, rows: seq<Row>)
    | Flushed(pause: bool, rows: seq<Row>)
    | Measured(pause: bool, rows: seq<Row>, usage: Usage)

  /** A receipt that was handed out, whether the run was to stay paused, and the table its
      transaction committed. */
  datatype Report = Report(receipt: Receipt, pause: bool, rows: seq<Row>)

  datatype State = State(draining: bool, next: nat, pending: set<nat>, cancelled: set<nat>, outstanding: int,
                         handlers: map<nat, Handler>, rows: seq<Row>, paused: bool, stopper: Stopper,
                         reports: seq<Report>)

  datatype Event =
    | Admit
    | Reserve(handler: nat, amount: nat)
    | Dispatch(handler: nat, row: nat)
    | Settle(handler: nat, row: nat, cost: nat)
    | Forget(handler: nat, row: nat)
    | Unlink(handler: nat)
    | Leave(handler: nat)
    | Close(pause: bool)
    | Pause(ok: bool)
    | Timeout
    | Join
    | Commit(ok: bool)
    | Flush(ok: bool)
    | Measure(ok: bool)
    | Count(ok: bool)

  const INITIAL := State(false, 0, {}, {}, 0, map[], [], false, Idle, [])

  function Admitted(s: State): State {
    if s.draining then s
    else
      var id := s.next + 1;
      s.(next := id, pending := s.pending + {id}, outstanding := s.outstanding + 1,
          handlers := s.handlers[id := Working])
  }

  predicate Owns(s: State, handler: nat, row: nat) {
    handler in s.handlers && s.handlers[handler] == Working && row < |s.rows| && s.rows[row].owner == handler
  }

  /** The table steps of a handler that has not left yet. */
  function Accounted(allocation: nat, s: State, e: Event): State
    requires e.Reserve? || e.Dispatch? || e.Settle? || e.Forget?
  {
    match e
    case Reserve(h, amount) =>
      if h in s.handlers && s.handlers[h] == Working && !s.paused && amount + Exposure(s.rows) <= allocation
      then s.(rows := s.rows + [Row(h, amount, Reserved, 0)]) else s
    case Dispatch(h, i) =>
      if Owns(s, h, i) && s.rows[i].state == Reserved
      then s.(rows := s.rows[i := s.rows[i].(state := Dispatched)]) else s
    case Settle(h, i, cost) =>
      if !Owns(s, h, i) || s.rows[i].state == Settled then s
      else if cost > s.rows[i].reserved then s.(paused := true)
      else s.(rows := s.rows[i := s.rows[i].(state := Settled, cost := cost)])
    case Forget(h, i) =>
      if Owns(s, h, i) && s.rows[i].state != Settled then s.(rows := s.rows[i := s.rows[i].(state := Unknown)]) else s
  }

  function UsageOf(rows: seq<Row>, paused: bool): Usage {
    Usage(Sum(rows, Costs), Sum(rows, Open), Sum(rows, Lost), paused)
  }

  function ReceiptOf(rows: seq<Row>, paused: bool): Receipt {
    Receipt(UsageOf(rows, paused), |rows|, Sum(rows, Unknowns), Sum(rows, Unknowns) != 0)
  }

  function Stopped(s: State, e: Event): State {
    match e
    case Close(pause) =>
      if s.stopper != Idle then s
      else s.(draining := true, cancelled := s.cancelled + s.pending,
              stopper := if pause then Pausing else Waiting(false))
    case Pause(ok) =>
      if s.stopper != Pausing then s
      else if ok then s.(paused := true, stopper := Waiting(true)) else s.(stopper := Idle)
    case Timeout => if s.stopper.Waiting? then s.(stopper := Idle) else s
    case Join => if s.stopper.Waiting? && s.outstanding == 0 then s.(stopper := Joined(s.stopper.pause)) else s
    case Commit(ok) =>
      if !s.stopper.Joined? then s
      else if !ok then s.(stopper := Idle)
      else s.(paused := s.paused || s.stopper.pause, rows := Closed(s.rows),
              stopper := Committed(s.stopper.pause, Closed(s.rows)))
    case Flush(ok) =>
      if !s.stopper.Committed? then s
      else s.(stopper := if ok then Flushed(s.stopper.pause, s.stopper.rows) else Idle)
    case Measure(ok) =>
      if !s.stopper.Flushed? then s
      else s.(stopper := if ok then Measured(s.stopper.pause, s.stopper.rows, UsageOf(s.rows, s.paused)) else Idle)
    case Count(ok) =>
      if !s.stopper.Measured? then s
      else if !ok then s.(stopper := Idle)
      else
        var unknowns := Sum(s.rows, Unknowns);
        var receipt := Receipt(s.stopper.usage, |s.rows|, unknowns, unknowns != 0);
        s.(stopper := Idle, reports := s.reports + [Report(receipt, s.stopper.pause, s.stopper.rows)])
    case _ => s
  }

  function Step(allocation: nat, s: State, e: Event): State {
    match e
    case Admit => Admitted(s)
    case Reserve(_, _) => Accounted(allocation, s, e)
    case Dispatch(_, _) => Accounted(allocation, s, e)
    case Settle(_, _, _) => Accounted(allocation, s, e)
    case Forget(_, _) => Accounted(allocation, s, e)
    case Unlink(h) =>
      if h in s.handlers && s.handlers[h] == Working
      then s.(pending := s.pending - {h}, handlers := s.handlers[h := Leaving]) else s
    case Leave(h) =>
      if h in s.handlers && s.handlers[h] == Leaving
      then s.(outstanding := s.outstanding - 1, handlers := s.handlers - {h}) else s
    case _ => Stopped(s, e)
  }

  function Run(allocation: nat, s: State, events: seq<Event>): State
    decreases |events|
  {
    if events == [] then s else Run(allocation, Step(allocation, s, events[0]), events[1..])
  }

  // ---------------------------------------------------------------------------------
  // What every interleaving keeps
  // ---------------------------------------------------------------------------------

  /** The counter counts the handlers that have not left; the pending ones are still working. */
  ghost predicate Counted(s: State) {
    && s.outstanding == |s.handlers|
    && (forall h :: h in s.pending <==> h in s.handlers && s.handlers[h] == Working)
    && (forall h | h in s.handlers :: h <= s.next)
  }

  predicate Joining(p: Stopper) { p.Joined? || p.Committed? || p.Flushed? || p.Measured? }

  predicate Closing(p: Stopper) { p.Committed? || p.Flushed? || p.Measured? }

  /** Once joined nothing is outstanding, and once closed the table stays as committed. */
  ghost predicate Ordered(s: State) {
    && (s.stopper != Idle ==> s.draining)
    && (Joining(s.stopper) ==> s.handlers == map[])
    && ((s.stopper.Waiting? || Joining(s.stopper)) && s.stopper.pause ==> s.paused)
    && (Closing(s.stopper) ==> s.rows == s.stopper.rows && Sum(s.rows, Open) == 0)
    && (s.stopper.Measured? ==> s.stopper.usage == UsageOf(s.rows, s.stopper.usage.paused)
                                && (s.stopper.pause ==> s.stopper.usage.paused))
  }

  /** What a receipt says is what its transaction committed: nothing is left open, every row
      is counted, and a drain left the run paused. */
  ghost predicate Truthful(r: Report) {
    && r.receipt.usage == UsageOf(r.rows, r.receipt.usage.paused) && r.receipt.usage.open == 0
    && r.receipt.requests == |r.rows| && r.receipt.unknowns == Sum(r.rows, Unknowns)
    && (r.receipt.reconcile <==> r.receipt.unknowns > 0)
    && (r.pause ==> r.receipt.usage.paused)
  }

  ghost predicate Inv(allocation: nat, s: State) {
    && Counted(s) && Ordered(s) && Exposure(s.rows) <= allocation
    && (forall r | r in s.reports :: Truthful(r))
  }

  lemma PendingFitsCounter(s: State)
    requires Counted(s)
    ensures |s.pending| <= s.outstanding
  {
    assert forall h | h in s.pending :: h in s.handlers.Keys;
    SubsetSize(s.pending, s.handlers.Keys);
    assert |s.handlers.Keys| == |s.handlers|;
  }

  lemma AdmitCounts(s: State)
    requires Counted(s)
    ensures Counted(Admitted(s))
  {
    var id := s.next + 1;
    assert id !in s.handlers;
    assert |s.handlers[id := Working]| == |s.handlers| + 1;
  }

  lemma UnlinkCounts(allocation: nat, s: State, h: nat)
    requires Counted(s)
    ensures Counted(Step(allocation, s, Unlink(h)))
  {
    if h in s.handlers {
      assert s.handlers[h := Leaving].Keys == s.handlers.Keys;
      assert |s.handlers[h := Leaving].Keys| == |s.handlers[h := Leaving]|;
    }
  }

  lemma LeaveCounts(allocation: nat, s: State, h: nat)
    requires Counted(s)
    ensures Counted(Step(allocation, s, Leave(h)))
  {
    if h in s.handlers {
      assert (s.handlers - {h}).Keys == s.handlers.Keys - {h};
      assert |(s.handlers - {h}).Keys| == |s.handlers - {h}|;
    }
  }

  /** A handler that still works rules out a stop that has joined. */
  lemma WorkKeepsOrder(s: State, n: State, h: nat)
    requires Ordered(s) && h in s.handlers
    requires n == s.(rows := n.rows, paused := n.paused) && (s.paused ==> n.paused)
    ensures Ordered(n)
  {
    assert s.handlers != map[];
  }

  lemma ReserveKeeps(allocation: nat, s: State, h: nat, amount: nat)
    requires Exposure(s.rows) <= allocation
    ensures Exposure(Accounted(allocation, s, Reserve(h, amount)).rows) <= allocation
  {
    var r := Row(h, amount, Reserved, 0);
    SumSnoc(s.rows, r, Costs);
    SumSnoc(s.rows, r, Open);
    SumSnoc(s.rows, r, Lost);
  }

  lemma UpdateKeeps(allocation: nat, s: State, e: Event)
    requires Exposure(s.rows) <= allocation && (e.Dispatch? || e.Settle? || e.Forget?)
    ensures Exposure(Accounted(allocation, s, e).rows) <= allocation
  {
    var n := Accounted(allocation, s, e);
    if n.rows != s.rows {
      ExposureUpdate(s.rows, e.row, n.rows[e.row]);
    }
  }

  lemma AccountedKeeps(allocation: nat, s: State, e: Event)
    requires Inv(allocation, s) && (e.Reserve? || e.Dispatch? || e.Settle? || e.Forget?)
    ensures Inv(allocation, Accounted(allocation, s, e))
  {
    var n := Accounted(allocation, s, e);
    if e.Reserve? {
      ReserveKeeps(allocation, s, e.handler, e.amount);
    } else {
      UpdateKeeps(allocation, s, e);
    }
    if n != s {
      WorkKeepsOrder(s, n, e.handler);
    }
  }

  lemma StopKeepsCount(s: State, e: Event)
    requires Counted(s)
    ensures Counted(Stopped(s, e))
  {
    var n := Stopped(s, e);
    assert n.pending == s.pending && n.handlers == s.handlers && n.outstanding == s.outstanding && n.next == s.next;
  }

  lemma StopKeepsOrder(s: State, e: Event)
    requires Counted(s) && Ordered(s) && !e.Commit?
    ensures Ordered(Stopped(s, e)) && Stopped(s, e).rows == s.rows
  {
  }

  lemma CommitKeepsOrder(s: State, ok: bool)
    requires Ordered(s)
    ensures Ordered(Stopped(s, Commit(ok))) && Exposure(Stopped(s, Commit(ok)).rows) == Exposure(s.rows)
  {
    ClosingConserves(s.rows);
  }

  lemma StopReportsTruth(s: State, e: Event)
    requires Ordered(s) && forall r | r in s.reports :: Truthful(r)
    ensures forall r | r in Stopped(s, e).reports :: Truthful(r)
  {
  }

  lemma StoppedKeeps(allocation: nat, s: State, e: Event)
    requires Inv(allocation, s)
    ensures Inv(allocation, Stopped(s, e))
  {
    StopKeepsCount(s, e);
    if e.Commit? {
      CommitKeepsOrder(s, e.ok);
    } else {
      StopKeepsOrder(s, e);
    }
    StopReportsTruth(s, e);
  }

  lemma StepKeeps(allocation: nat, s: State, e: Event)
    requires Inv(allocation, s)
    ensures Inv(allocation, Step(allocation, s, e))
  {
    if e.Admit? {
      AdmitCounts(s);
    } else if e.Unlink? {
      UnlinkCounts(allocation, s, e.handler);
    } else if e.Leave? {
      LeaveCounts(allocation, s, e.handler);
    } else if e.Reserve? || e.Dispatch? || e.Settle? || e.Forget? {
      AccountedKeeps(allocation, s, e);
    } else {
      StoppedKeeps(allocation, s, e);
    }
  }

  /** Over every interleaving of handlers and stops: the counter covers the pending map, a
      stop commits only after every admitted request has left, the exposure never exceeds the
      allocation, and every receipt is the table its transaction committed. */
  lemma {:induction false} RunKeeps(allocation: nat, s: State, events: seq<Event>)
    requires Inv(allocation, s)
    ensures Inv(allocation, Run(allocation, s, events))
    decreases |events|
  {
    if events != [] {
      StepKeeps(allocation, s, events[0]);
      RunKeeps(allocation, Step(allocation, s, events[0]), events[1..]);
    }
  }

  /** From the join to the receipt nobody is inside: every admitted request has left. */
  lemma CommitsAfterAllLeft(allocation: nat, events: seq<Event>)
    requires Joining(Run(allocation, INITIAL, events).stopper)
    ensures var s := Run(allocation, INITIAL, events);
            s.draining && s.handlers == map[] && s.outstanding == 0 && s.pending == {}
  {
    RunKeeps(allocation, INITIAL, events);
    var s := Run(allocation, INITIAL, events);
    assert |s.handlers| == 0;
    assert forall h :: h !in s.pending;
  }

  lemma ReceiptsAreTrue(allocation: nat, events: seq<Event>, r: Report)
    requires r in Run(allocation, INITIAL, events).reports
    ensures r.receipt.requests == |r.rows| && r.receipt.unknowns == Sum(r.rows, Unknowns)
    ensures Sum(r.rows, Open) == 0 && (r.pause ==> r.receipt.usage.paused)
  {
    RunKeeps(allocation, INITIAL, events);
  }

  // ---------------------------------------------------------------------------------
  // After the door is closed
  // ---------------------------------------------------------------------------------

  /** Nobody is admitted, the counter only falls, and a pause is for ever. */
  ghost predicate Shut(s: State, n: State) {
    && n.draining && n.next == s.next && n.handlers.Keys <= s.handlers.Keys && n.outstanding <= s.outstanding
    && (s.paused ==> n.paused)
  }

  lemma {:induction false} DoorStaysShut(allocation: nat, s: State, events: seq<Event>)
    requires s.draining
    ensures Shut(s, Run(allocation, s, events))
    decreases |events|
  {
    if events != [] {
      var n := Step(allocation, s, events[0]);
      assert Shut(s, n);
      DoorStaysShut(allocation, n, events[1..]);
    }
  }

  /** A pause is never undone, in particular not by the checkpoint of an ordinary shutdown. */
  lemma {:induction false} PauseIsDurable(allocation: nat, s: State, events: seq<Event>)
    requires s.paused
    ensures Run(allocation, s, events).paused
    decreases |events|
  {
    if events != [] {
      PauseIsDurable(allocation, Step(allocation, s, events[0]), events[1..]);
    }
  }

  predicate StopStep(e: Event) {
    e.Close? || e.Pause? || e.Timeout? || e.Join? || e.Commit? || e.Flush? || e.Measure? || e.Count?
  }

  /** An ordinary shutdown never changes the admission state: from its start to its end, no
      step of the stop touches it. */
  lemma {:induction false} ShutdownKeepsAdmission(allocation: nat, s: State, events: seq<Event>)
    requires s.stopper.Idle? || (!s.stopper.Pausing? && !s.stopper.pause)
    requires forall e | e in events :: StopStep(e) && e != Close(true)
    ensures Run(allocation, s, events).paused == s.paused
    decreases |events|
  {
    if events != [] {
      assert events[0] in events;
      ShutdownKeepsAdmission(allocation, Step(allocation, s, events[0]), events[1..]);
    }
  }

  // ---------------------------------------------------------------------------------
  // The server
  // ---------------------------------------------------------------------------------

  class Server {
    const allocation: nat
    var draining: bool
    var next: nat
    var pending: set<nat>
    var cancelled: set<nat>
    var outstanding: int   // the wait group
    var rows: seq<Row>
    var paused: bool
    ghost var handlers: map<nat, Handler>
    ghost var stopper: Stopper
    ghost var reports: seq<Report>

    constructor (allocation: nat)
      ensures this.allocation == allocation && Value() == INITIAL
    {
      this.allocation := allocation;
      draining, next, pending, cancelled, outstanding, rows, paused := false, 0, {}, {}, 0, [], false;
      handlers, stopper, reports := map[], Idle, [];
    }

    ghost function Value(): State
      reads this
    {
      State(draining, next, pending, cancelled, outstanding, handlers, rows, paused, stopper, reports)
    }

    method AdmitRequest() returns (id: Option<nat>)
      modifies this
      ensures Value() == Step(allocation, old(Value()), Admit)
      ensures id == if old(draining) then None else Some(next)
    {
      if draining {
        return None;
      }
      next := next + 1;
      pending := pending + {next};
      outstanding := outstanding + 1;
      handlers := handlers[next := Working];
      return Some(next);
    }

    /** The critical section of finished. */
    method UnlinkRequest(id: nat)
      requires id in handlers && handlers[id] == Working
      modifies this
      ensures Value() == Step(allocation, old(Value()), Unlink(id))
    {
      pending := pending - {id};
      handlers := handlers[id := Leaving];
    }

    /** The rest of finished. */
    method LeaveServer(id: nat)
      requires id in handlers && handlers[id] == Leaving
      modifies this
      ensures Value() == Step(allocation, old(Value()), Leave(id))
    {
      outstanding := outstanding - 1;
      handlers := handlers - {id};
    }

    method CancelAll()
      modifies `cancelled
      ensures cancelled == old(cancelled) + pending
    {
      var todo := pending;
      while todo != {}
        invariant todo <= pending && cancelled == old(cancelled) + (pending - todo)
        decreases |todo|
      {
        var id :| id in todo;
        cancelled, todo := cancelled + {id}, todo - {id};
      }
    }

    /** The first critical section of stop: close the door and cancel whoever is inside. */
    method CloseDoor(pause: bool)
      requires stopper == Idle
      modifies this
      ensures Value() == Step(allocation, old(Value()), Close(pause))
    {
      draining := true;
      CancelAll();
      stopper := if pause then Pausing else Waiting(false);
    }

    /** The pause that a drain makes durable before it waits. */
    method PauseRun(ok: bool)
      requires stopper == Pausing
      modifies this
      ensures Value() == Step(allocation, old(Value()), Pause(ok))
    {
      if ok {
        paused := true;
      }
      stopper := if ok then Waiting(true) else Idle;
    }

    /** The wait, which ends when all have left or the caller's time is up. */
    method AwaitHandlers(expired: bool) returns (joined: Option<bool>)
      requires stopper.Waiting?
      modifies this
      ensures joined == Some(true) ==> outstanding == 0 && Value() == Step(allocation, old(Value()), Join)
      ensures joined == Some(false) ==> Value() == Step(allocation, old(Value()), Timeout)
      ensures joined == None <==> !expired && outstanding != 0
      ensures joined == None ==> Value() == old(Value())
    {
      if expired {
        stopper := Idle;
        return Some(false);
      }
      if outstanding != 0 {
        return None;
      }
      stopper := Joined(stopper.pause);
      return Some(true);
    }

    /** The transaction of checkpoint. */
    method CommitTable(pause: bool)
      requires stopper == Joined(pause)
      modifies `rows, `paused, `stopper
      ensures rows == Closed(old(rows)) && paused == (old(paused) || pause) && stopper == Committed(pause, rows)
      ensures Value() == Stopped(old(Value()), Commit(true))
    {
      if pause {
        paused := true;
      }
      rows := Closed(rows);
      stopper := Committed(pause, rows);
    }

    /** The two queries behind the receipt. */
    method ReportTable(measure: bool, count: bool) returns (r: Option<Receipt>)
      requires stopper.Flushed?
      modifies `stopper, `reports
      ensures Value() == Stopped(Stopped(old(Value()), Measure(measure)), Count(count))
      ensures stopper == Idle && (r.Some? <==> measure && count)
      ensures r.Some? ==> r.value == ReceiptOf(rows, paused)
      ensures reports == old(reports)
                         + (if r.Some? then [Report(r.value, old(stopper).pause, old(stopper).rows)] else [])
    {
      ghost var pause, snapshot := stopper.pause, stopper.rows;
      stopper := Idle;
      if !measure {
        return None;
      }
      var usage := Usage(Sum(rows, Costs), Sum(rows, Open), Sum(rows, Lost), paused);
      if !count {
        return None;
      }
      var unknowns := Sum(rows, Unknowns);
      var receipt := Receipt(usage, |rows|, unknowns, unknowns != 0);
      reports := reports + [Report(receipt, pause, snapshot)];
      return Some(receipt);
    }

    /** The write-ahead log moves into the table file, or nothing is reported. */
    method FlushLog(ok: bool)
      requires stopper.Committed?
      modifies `stopper
      ensures Value() == Stopped(old(Value()), Flush(ok))
    {
      stopper := if ok then Flushed(stopper.pause, stopper.rows) else Idle;
    }

    /** checkpoint: the flags say which of its queries succeed; without a receipt the stop
        has failed. */
    method Checkpoint(pause: bool, committed: bool, flushed: bool, measured: bool, counted: bool)
      returns (r: Option<Receipt>)
      requires stopper == Joined(pause)
      modifies `rows, `paused, `stopper, `reports
      ensures stopper == Idle && rows == (if committed then Closed(old(rows)) else old(rows))
      ensures paused == (old(paused) || (committed && pause))
      ensures r.Some? <==> committed && flushed && measured && counted
      ensures r.Some? ==> r.value == ReceiptOf(rows, paused)
      ensures reports == old(reports) + (if r.Some? then [Report(r.value, pause, rows)] else [])
    {
      if !committed {
        stopper := Idle;
        return None;
      }
      CommitTable(pause);
      FlushLog(flushed);
      if !flushed {
        return None;
      }
      r := ReportTable(measured, counted);
    }
  }
}
