/** Delivery of research events: a producer numbers events and offers them to a bounded
    channel, a worker retries each until it is acknowledged, and a counter and a latched flag
    are all that the producer sees of it.  Every atomic operation is one step. */
module EventCapture {
  const CAPACITY: nat := 32

  /** Where the producer stands in emitting one event. */
  datatype Emission = Quiet | Numbered | Counted | Refused | Uncounted

  /** Where the worker stands with the event it took from the channel. */
  datatype Worker = Waiting | Holding(event: nat) | Acknowledged(gap: bool) | Flagged

  /** A worker that is no longer alive has left its channel disconnected: what is in it or in
      the worker's hands stays there. */
  datatype State = State(sequence: nat, emission: Emission, queue: seq<nat>, worker: Worker, alive: bool,
                         pending: int, lost: bool, acked: seq<nat>)

  datatype Event =
    | Number | Count | Offer | Uncount | Lose | Spoil
    | Receive | Fail | Succeed(gap: bool) | Flag | Release | Vanish

  predicate OfWorker(e: Event) { e.Receive? || e.Fail? || e.Succeed? || e.Flag? || e.Release? || e.Vanish? }

  const INITIAL := State(0, Quiet, [], Waiting, true, 0, false, [])

  /** Whether try_send succeeds: the channel has room and its receiver still exists. */
  predicate Accepting(s: State) { s.alive && |s.queue| < CAPACITY }

  /** A step that is not due changes nothing.  A failed submission leaves the event held. */
  function Step(s: State, e: Event): State {
    match e
    case Number => if s.emission.Quiet? then s.(sequence := s.sequence + 1, emission := Numbered) else s
    case Count => if s.emission.Numbered? then s.(pending := s.pending + 1, emission := Counted) else s
    case Offer =>
      if !s.emission.Counted? then s
      else if Accepting(s) then s.(queue := s.queue + [s.sequence], emission := Quiet)
      else s.(emission := Refused)
    case Uncount => if s.emission.Refused? then s.(pending := s.pending - 1, emission := Uncounted) else s
    case Lose => if s.emission.Uncounted? then s.(lost := true, emission := Quiet) else s
    case Spoil => s.(lost := true)
    case Receive =>
      if s.alive && s.worker.Waiting? && s.queue != []
      then s.(worker := Holding(s.queue[0]), queue := s.queue[1..]) else s
    case Fail => s
    case Succeed(gap) =>
      if s.alive && s.worker.Holding? then s.(acked := s.acked + [s.worker.event], worker := Acknowledged(gap)) else s
    case Flag => if s.alive && s.worker.Acknowledged? then s.(lost := s.lost || s.worker.gap, worker := Flagged) else s
    case Release => if s.alive && s.worker.Flagged? then s.(pending := s.pending - 1, worker := Waiting) else s
    case Vanish => s.(alive := false)
  }

  function Run(s: State, events: seq<Event>): State
    decreases |events|
  {
    if events == [] then s else Run(Step(s, events[0]), events[1..])
  }

  // ---------------------------------------------------------------------------------
  // What every interleaving keeps
  // ---------------------------------------------------------------------------------

  /** All events in the order in which they were numbered: acknowledged, held, queued, and
      the one being offered. */
  function Flow(s: State): seq<nat> {
    s.acked + (if s.worker.Holding? then [s.worker.event] else []) + s.queue
    + (if s.emission.Numbered? || s.emission.Counted? then [s.sequence] else [])
  }

  function Upto(k: nat): seq<nat> { if k == 0 then [] else Upto(k - 1) + [k] }

  ghost predicate Ascending(xs: seq<nat>) { forall i, j | 0 <= i < j < |xs| :: xs[i] < xs[j] }

  predicate Refusing(s: State) { s.emission.Refused? || s.emission.Uncounted? }

  /** The counter is exactly the events being offered, queued, or held by the worker. */
  predicate Counts(s: State) {
    s.pending == (if s.emission.Counted? || s.emission.Refused? then 1 else 0) + |s.queue|
                 + (if s.worker.Waiting? then 0 else 1)
  }

  /** How many events the flow carries while nothing is lost: a refused one is not in it. */
  function Carried(s: State): nat { if Refusing(s) && s.sequence > 0 then s.sequence - 1 else s.sequence }

  ghost predicate Inv(s: State) {
    && Counts(s) && |s.queue| <= CAPACITY && (!s.emission.Quiet? ==> s.sequence > 0)
    && Ascending(Flow(s)) && (forall x | x in Flow(s) :: x <= s.sequence)
    && (Refusing(s) ==> forall x | x in Flow(s) :: x < s.sequence)
    && (!s.lost ==> Flow(s) == Upto(Carried(s)))
  }

  lemma AscendingSnoc(xs: seq<nat>, x: nat)
    requires Ascending(xs) && forall y | y in xs :: y < x
    ensures Ascending(xs + [x])
  {
    forall i, j | 0 <= i < j < |xs + [x]| ensures (xs + [x])[i] < (xs + [x])[j] {
      if j == |xs| {
        assert xs[i] in xs;
      }
    }
  }

  lemma AscendingFront(xs: seq<nat>, x: nat)
    requires Ascending(xs + [x])
    ensures Ascending(xs) && forall y | y in xs :: y < x
  {
    var all := xs + [x];
    forall i, j | 0 <= i < j < |xs| ensures xs[i] < xs[j] {
      assert all[i] == xs[i] && all[j] == xs[j];
    }
    forall y | y in xs ensures y < x {
      var i :| 0 <= i < |xs| && xs[i] == y;
      assert all[i] == y && all[|xs|] == x;
    }
  }

  /** Most steps only move an event along, from offered to queued to held to acknowledged. */
  lemma FlowMoves(s: State, e: Event)
    requires !e.Number? && !(e.Offer? && !Accepting(s))
    ensures Flow(Step(s, e)) == Flow(s)
  {
    if e.Receive? && s.queue != [] {
      assert s.queue == [s.queue[0]] + s.queue[1..];
    }
  }

  lemma MoveKeeps(s: State, e: Event)
    requires Inv(s) && !e.Number? && !(e.Offer? && !Accepting(s))
    ensures Inv(Step(s, e))
  {
    FlowMoves(s, e);
  }

  lemma NumberKeeps(s: State)
    requires Inv(s)
    ensures Inv(Step(s, Number))
  {
    var n := Step(s, Number);
    if s.emission.Quiet? {
      assert Flow(n) == Flow(s) + [n.sequence];
      AscendingSnoc(Flow(s), n.sequence);
    }
  }

  lemma RefusalKeeps(s: State)
    requires Inv(s) && !Accepting(s)
    ensures Inv(Step(s, Offer))
  {
    var n := Step(s, Offer);
    if s.emission.Counted? {
      assert Flow(s) == Flow(n) + [s.sequence];
      AscendingFront(Flow(n), s.sequence);
      if !s.lost {
        assert Flow(n) == Flow(s)[..|Flow(s)| - 1];
        assert Upto(s.sequence)[..|Upto(s.sequence)| - 1] == Upto(s.sequence - 1);
      }
    }
  }

  /** The delivery invariant over every interleaving of producer, worker and failing submits. */
  lemma {:induction false} RunKeeps(s: State, events: seq<Event>)
    requires Inv(s)
    ensures Inv(Run(s, events))
    decreases |events|
  {
    if events != [] {
      if events[0].Number? {
        NumberKeeps(s);
      } else if events[0].Offer? && !Accepting(s) {
        RefusalKeeps(s);
      } else {
        MoveKeeps(s, events[0]);
      }
      RunKeeps(Step(s, events[0]), events[1..]);
    }
  }

  /** A loss is latched. */
  lemma {:induction false} LostIsLatched(s: State, events: seq<Event>)
    requires s.lost
    ensures Run(s, events).lost
    decreases |events|
  {
    if events != [] {
      LostIsLatched(Step(s, events[0]), events[1..]);
    }
  }

  lemma {:induction false} UptoPrefix(k: nat, i: nat)
    requires i <= k
    ensures |Upto(k)| == k && Upto(k)[..i] == Upto(i)
    decreases k
  {
    if k > 0 {
      UptoPrefix(k - 1, if i < k then i else k - 1);
      if i < k {
        assert Upto(k)[..i] == Upto(k - 1)[..i];
      } else {
        assert Upto(k)[..i] == Upto(k);
      }
    }
  }

  /** Acknowledged numbers rise strictly.  Until a loss they are exactly the first so many,
      and what is not acknowledged yet is exactly the remaining suffix. */
  lemma AcknowledgedPrefix(events: seq<Event>)
    ensures var s := Run(INITIAL, events);
            && Ascending(s.acked)
            && (!s.lost ==>
                  && |s.acked| <= Carried(s) == |Upto(Carried(s))| && s.acked == Upto(|s.acked|)
                  && Flow(s)[|s.acked|..] == Upto(Carried(s))[|s.acked|..])
  {
    RunKeeps(INITIAL, events);
    var s := Run(INITIAL, events);
    assert s.acked == Flow(s)[..|s.acked|];
    assert forall i | 0 <= i < |s.acked| :: s.acked[i] == Flow(s)[i];
    UptoPrefix(Carried(s), 0);
    if !s.lost {
      UptoPrefix(Carried(s), |s.acked|);
    }
  }

  /** An empty counter and no loss, read one after the other while the worker runs on, mean
      that every emitted event was acknowledged. */
  lemma EmptyMeansDelivered(s: State, events: seq<Event>)
    requires Inv(s) && s.emission.Quiet? && s.pending == 0 && !Run(s, events).lost
    ensures s.acked == Upto(s.sequence)
  {
    if s.lost {
      LostIsLatched(s, events);
    }
    assert Flow(s) == s.acked;
  }

  // ---------------------------------------------------------------------------------
  // The producer's view
  // ---------------------------------------------------------------------------------

  class Capture {
    var sequence: nat
    var queue: seq<nat>    // the bounded channel
    var pending: int
    var lost: bool
    var worker: Worker
    var alive: bool
    ghost var emission: Emission
    ghost var acked: seq<nat>

    constructor ()
      ensures Value() == INITIAL
    {
      sequence, queue, pending, lost, worker, alive, emission, acked := 0, [], 0, false, Waiting, true, Quiet, [];
    }

    ghost function Value(): State
      reads this
    {
      State(sequence, emission, queue, worker, alive, pending, lost, acked)
    }

    /** One atomic operation of the worker's loop. */
    method Work(e: Event)
      requires OfWorker(e)
      modifies this
      ensures Value() == Step(old(Value()), e)
    {
      match e
      case Receive =>
        if alive && worker.Waiting? && queue != [] {
          worker, queue := Holding(queue[0]), queue[1..];
        }
      case Succeed(gap) =>
        if alive && worker.Holding? {
          acked := acked + [worker.event];
          worker := Acknowledged(gap);
        }
      case Flag =>
        if alive && worker.Acknowledged? {
          if worker.gap {
            lost := true;
          }
          worker := Flagged;
        }
      case Release =>
        if alive && worker.Flagged? {
          pending := pending - 1;
          worker := Waiting;
        }
      case Fail =>
      case Vanish => alive := false;
    }

    /** Whatever the worker does while the producer is between two operations. */
    method Interleave(events: seq<Event>)
      requires forall e | e in events :: OfWorker(e)
      modifies this
      ensures Value() == Run(old(Value()), events)
      ensures sequence == old(sequence) && emission == old(emission)
      ensures old(Inv(Value())) ==> Inv(Value())
    {
      ghost var before := Value();
      var rest := events;
      while rest != []
        invariant forall e | e in rest :: OfWorker(e)
        invariant Run(Value(), rest) == Run(before, events)
        invariant sequence == old(sequence) && emission == old(emission)
        decreases |rest|
      {
        assert rest[0] in rest;
        Work(rest[0]);
        rest := rest[1..];
      }
      if Inv(before) {
        RunKeeps(before, events);
      }
    }

    method NumberEvent()
      requires Inv(Value()) && emission.Quiet?
      modifies `sequence, `emission
      ensures Value() == Step(old(Value()), Number) && Inv(Value())
      ensures sequence == old(sequence) + 1 && emission.Numbered?
    {
      NumberKeeps(Value());
      sequence, emission := sequence + 1, Numbered;
    }

    method CountEvent()
      requires Inv(Value()) && emission.Numbered?
      modifies `pending, `emission
      ensures Value() == Step(old(Value()), Count) && Inv(Value()) && emission.Counted?
    {
      MoveKeeps(Value(), Count);
      pending, emission := pending + 1, Counted;
    }

    method OfferEvent() returns (sent: bool)
      requires Inv(Value()) && emission.Counted?
      modifies `queue, `emission
      ensures Value() == Step(old(Value()), Offer) && Inv(Value())
      ensures if sent then emission.Quiet? && sequence in queue else emission.Refused?
    {
      sent := alive && |queue| < CAPACITY;
      if sent {
        MoveKeeps(Value(), Offer);
        queue, emission := queue + [sequence], Quiet;
      } else {
        RefusalKeeps(Value());
        emission := Refused;
      }
    }

    method UncountEvent()
      requires Inv(Value()) && emission.Refused?
      modifies `pending, `emission
      ensures Value() == Step(old(Value()), Uncount) && Inv(Value()) && emission.Uncounted?
    {
      MoveKeeps(Value(), Uncount);
      pending, emission := pending - 1, Uncounted;
    }

    method LoseEvent()
      requires Inv(Value()) && emission.Uncounted?
      modifies `lost, `emission
      ensures Value() == Step(old(Value()), Lose) && Inv(Value()) && lost && emission.Quiet?
    {
      MoveKeeps(Value(), Lose);
      lost, emission := true, Quiet;
    }

    /** emit, with the worker running between its operations: the event joins the queue, or it
        is counted out again and the loss is latched. */
    method Emit(first: seq<Event>, second: seq<Event>, third: seq<Event>)
      requires Inv(Value()) && emission.Quiet?
      requires (forall e | e in first :: OfWorker(e)) && (forall e | e in second :: OfWorker(e))
      requires forall e | e in third :: OfWorker(e)
      modifies this
      ensures Inv(Value()) && emission.Quiet? && sequence == old(sequence) + 1
      ensures sequence in queue || lost
    {
      NumberEvent();
      Interleave(first);
      CountEvent();
      Interleave(second);
      var sent := OfferEvent();
      if !sent {
        UncountEvent();
        Interleave(third);
        LoseEvent();
      }
    }

    /** finish: each nap lets the worker run, and the two last reads are apart as well. */
    method Finish(naps: seq<seq<Event>>, last: seq<Event>) returns (done: bool)
      requires Inv(Value()) && emission.Quiet?
      requires (forall nap, e | nap in naps && e in nap :: OfWorker(e)) && forall e | e in last :: OfWorker(e)
      modifies this
      ensures Inv(Value()) && sequence == old(sequence)
      ensures done ==> Upto(sequence) <= acked
    {
      var elapsed := 0;
      while pending > 0 && elapsed < |naps|
        invariant elapsed <= |naps| && Inv(Value()) && emission.Quiet? && sequence == old(sequence)
        decreases |naps| - elapsed
      {
        assert naps[elapsed] in naps;
        Interleave(naps[elapsed]);
        elapsed := elapsed + 1;
      }
      var empty := pending == 0;
      ghost var s := Value();
      Interleave(last);
      done := empty && !lost;
      if done {
        EmptyMeansDelivered(s, last);
        AckedGrows(s, last);
      }
    }
  }

  lemma {:induction false} AckedGrows(s: State, events: seq<Event>)
    ensures s.acked <= Run(s, events).acked
    decreases |events|
  {
    if events != [] {
      AckedGrows(Step(s, events[0]), events[1..]);
    }
  }
}
