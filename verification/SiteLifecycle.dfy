/** The lifecycle commands of a site as they run, statement by statement.  Every call outside
    takes its outcome from a script: it may work, raise, or kill the process, and a save may
    do so before or after the record is durable.  Each command is proved to produce only
    legal logs, so everything proved about logs holds of it. */
module SiteLifecycle {
  import opened Results
  import opened ArchiveLineage
  import opened SiteRecord

  datatype Command =
    | StartSite
    | StopSite(resume: Option<string>)
    | CopyArchive
    | PrepareTeardown(revocation: Revocation)
    | Reconcile(evidence: Evidence)
    | PrepareNextRun

  datatype Status = Going | Raised | Died

  /** The outcome of one outside call, and whatever it answers. */
  datatype Reply = Reply(fate: Status, stored: bool, accepted: bool, closed: bool, id: string,
                         receipt: Receipt, ledger: Ledger,
                         proof: Proof, copy: CopyReceipt, amount: int)

  /** The states a log goes through, as the evidence that it is legal. */
  ghost predicate Witnessed(config: Config, origin: Record, log: seq<Entry>, states: seq<Sys>, now: Sys) {
    && origin == Fresh(origin.ledger, origin.copy)
    && |states| == |log| + 1 && states[0] == Initially(origin) && states[|log|] == now
    && (forall i {:trigger log[i]} | 0 <= i < |log| ::
          Allowed(config, states[i], log[i]) && states[i + 1] == Apply(states[i], log[i]))
  }

  lemma WitnessedSnoc(config: Config, origin: Record, log: seq<Entry>, states: seq<Sys>, now: Sys, e: Entry)
    requires Witnessed(config, origin, log, states, now) && Allowed(config, now, e)
    ensures Witnessed(config, origin, log + [e], states + [Apply(now, e)], Apply(now, e))
  {
    var l, t := log + [e], states + [Apply(now, e)];
    forall i {:trigger l[i]} | 0 <= i < |l| ensures Allowed(config, t[i], l[i]) && t[i + 1] == Apply(t[i], l[i]) {
      if i < |log| {
        assert l[i] == log[i];
      }
    }
  }

  lemma {:induction false} WitnessedAfter(config: Config, origin: Record, log: seq<Entry>, states: seq<Sys>,
                                         now: Sys, k: nat)
    requires Witnessed(config, origin, log, states, now) && k <= |log|
    ensures Legal(config, Initially(origin), log[..k]) && After(Initially(origin), log[..k]) == states[k]
    decreases k
  {
    if k > 0 {
      WitnessedAfter(config, origin, log, states, now, k - 1);
      assert log[..k][..k - 1] == log[..k - 1] && log[..k][k - 1] == log[k - 1];
    }
  }

  /** A witnessed log is legal and ends where it says. */
  lemma WitnessedIsLegal(config: Config, origin: Record, log: seq<Entry>, states: seq<Sys>, now: Sys)
    requires Witnessed(config, origin, log, states, now)
    ensures Legal(config, Initially(origin), log) && After(Initially(origin), log) == now && Consistent(config, now)
  {
    WitnessedAfter(config, origin, log, states, now, |log|);
    assert log[..|log|] == log;
    FreshIsConsistent(config, origin.ledger, origin.copy);
    LogKeeps(config, Initially(origin), log);
  }

  class Lifecycle {
    const config: Config
    var durable: Record    // the record in the vault
    var state: Record      // this process's copy
    var resuming: bool
    var current: bool      // this process still knows the vault's revision
    var script: seq<Reply>
    ghost const origin: Record
    ghost var tried: set<Step>
    ghost var armed: Option<Step>
    ghost var acted: Option<Step>
    ghost var candidate: Option<Record>
    ghost var log: seq<Entry>
    ghost var states: seq<Sys>

    constructor (config: Config, ledger: Option<Ledger>, copy: Option<CopyReceipt>, script: seq<Reply>)
      ensures Valid() && log == [] && durable == state == origin == Fresh(ledger, copy)
    {
      this.config, this.script := config, script;
      durable, state, origin := Fresh(ledger, copy), Fresh(ledger, copy), Fresh(ledger, copy);
      resuming, current := false, true;
      tried, armed, acted, candidate, log := {}, None, None, None, [];
      states := [Initially(Fresh(ledger, copy))];
    }

    ghost function Now(): Sys
      reads `state, `durable, `resuming, `tried, `armed, `acted, `candidate
    {
      Sys(state, durable, resuming, tried, armed, acted, candidate)
    }

    ghost predicate Valid()
      reads `state, `durable, `resuming, `tried, `armed, `acted, `candidate, `log, `states
    {
      Witnessed(config, origin, log, states, Now())
    }

    /** What every log keeps, for this one. */
    ghost method Know()
      requires Valid()
      ensures Legal(config, Initially(origin), log) && Consistent(config, Now())
    {
      WitnessedIsLegal(config, origin, log, states, Now());
    }

    ghost method Note(e: Entry, was: Sys)
      requires Witnessed(config, origin, log, states, was) && Allowed(config, was, e)
      requires var n := Apply(was, e); n.memory == state && n.durable == durable && n.resumed == resuming
      modifies `log, `states, `tried, `armed, `acted, `candidate
      ensures Valid() && log == old(log) + [e] && Now() == Apply(was, e)
    {
      var n := Apply(was, e);
      WitnessedSnoc(config, origin, log, states, was, e);
      log, states := log + [e], states + [n];
      tried, armed, acted, candidate := n.tried, n.armed, n.acted, n.candidate;
    }

    method Remote() returns (st: Status, reply: Reply)
      modifies `script
      ensures st.Going? ==> reply.accepted
    {
      reply := Reply(Died, false, false, false, "", Receipt(OtherProtocol, OtherProvenance, config, false, 0, 0),
                     Ledger([], [], []), Proof(""), CopyReceipt("", "", ""), 0);
      if script == [] {
        return Died, reply;
      }
      reply, script := script[0], script[1..];
      st := if reply.fate.Going? && !reply.accepted then Raised else reply.fate;
    }

    /** A new operation identity. */
    method FreshIdentity() returns (id: string)
      modifies `script
    {
      if script == [] {
        return "";
      }
      id, script := script[0].id, script[1..];
    }

    /** The save closure: a sealed vault write that may fail on either side of being durable. */
    method Persist() returns (st: Status)
      requires Valid()
      modifies `durable, `current, `script, `log, `states, `tried, `armed, `acted, `candidate
      ensures Valid() && old(log) <= log <= old(log) + [Save]
      ensures tried == old(tried) && armed == old(armed) && acted == old(acted)
      ensures st.Going? ==> durable == state && current == old(current) && log == old(log) + [Save]
      ensures !old(current) ==> !st.Going? && durable == old(durable) && !current
      ensures durable == state || durable == old(durable)
    {
      if script == [] {
        return Died;
      }
      var reply := script[0];
      script := script[1..];
      if !current {
        return if reply.fate.Died? then Died else Raised;
      }
      if reply.fate.Going? || reply.stored {
        ghost var was := Now();
        durable := state;
        Note(Save, was);
      }
      if !reply.fate.Going? {
        current := !reply.stored;
      }
      return reply.fate;
    }

    /** A new process: whatever the last one held in memory is gone. */
    method OpenRecord()
      requires Valid()
      modifies this
      ensures Valid() && log == old(log) + [Open] && durable == old(durable)
      ensures state == durable && !resuming && current && tried == {}
    {
      ghost var was := Now();
      state, resuming, current := durable, false, true;
      Note(Open, was);
    }

    /** A fresh intent, durable before the act it announces. */
    method IntendStep(s: Step) returns (st: Status)
      requires Valid() && s !in tried && (s in state.steps ==> state.steps[s] == Begun && resuming)
      requires state.operation == Some(s.operation) && s.rank < Length(s.operation)
      requires state.phase == (if s.operation == Start then Starting else Stopping)
      requires DoneBelow(state.steps, s.operation, s.rank)
      modifies this
      ensures Valid() && old(log) <= log && tried == old(tried) + {s}
      ensures state == old(state).(steps := old(state).steps[s := Begun])
      ensures st.Going? ==> acted == Some(s) && log == old(log) + [Edit(Intend(s)), Save, Act(s)]
    {
      ghost var was := Now();
      state := state.(steps := state.steps[s := Begun]);
      Note(Edit(Intend(s)), was);
      st := Persist();
      if st.Going? {
        Note(Act(s), Now());
      }
    }

    method FinishStep(s: Step, result: Option<Receipt>) returns (st: Status)
      requires Valid() && acted == Some(s) && s in state.steps
      requires s == DRAIN ==> result.Some? && ValidDrain(config, result.value)
      modifies this
      ensures Valid() && old(log) <= log && tried == old(tried)
      ensures state == old(state).(steps := old(state).steps[s := Completed(result)])
      ensures st.Going? ==> log == old(log) + [Edit(Finish(s, result)), Save] && durable == state
    {
      ghost var was := Now();
      state := state.(steps := state.steps[s := Completed(result)]);
      Note(Edit(Finish(s, result)), was);
      st := Persist();
    }

    method PerformStep(s: Step) returns (st: Status, result: Option<Receipt>)
      requires Valid() && s !in tried
      requires state.operation == Some(s.operation) && s.rank < Length(s.operation)
      requires state.phase == (if s.operation == Start then Starting else Stopping)
      requires DoneBelow(state.steps, s.operation, s.rank)
      modifies this
      ensures Valid() && old(log) <= log && tried <= old(tried) + {s}
      ensures state == old(state).(steps := state.steps)
      ensures st.Going? ==> DoneBelow(state.steps, s.operation, s.rank + 1) && state.steps[s] == Completed(result)
      ensures old(Done(state.steps, s)) ==> st.Going? && state == old(state) && log == old(log)
      ensures old(s in state.steps && state.steps[s] == Begun && !resuming) ==> st.Raised? && log == old(log)
      ensures st.Going? && !old(Done(state.steps, s)) ==>
                && durable == state
                && log == old(log) + [Edit(Intend(s)), Save, Act(s), Edit(Finish(s, result)), Save]
    {
      result := None;
      if s in state.steps && state.steps[s].Completed? {
        return Going, state.steps[s].result;
      }
      if s in state.steps && !resuming {
        return Raised, None;
      }
      st := IntendStep(s);
      if !st.Going? {
        return st, None;
      }
      var reply: Reply;
      st, reply := Remote();
      if !st.Going? {
        return st, None;
      }
      if s == DRAIN {
        if !ValidDrain(config, reply.receipt) {
          return Raised, None;
        }
        result := Some(reply.receipt);
      }
      st := FinishStep(s, result);
    }

    method ResumeOperation(id: string) returns (st: Status)
      requires Valid() && tried == {} && state.operation == Some(Stop) && id == state.id
      requires state.phase == Stopping || state.phase == NeedsReview
      modifies this
      ensures Valid() && old(log) <= log && tried == {} && resuming
      ensures state == old(state).(desired := Stopped, phase := Stopping) && (st.Going? ==> durable == state)
    {
      ghost var was := Now();
      resuming := true;
      state := state.(desired := Stopped, phase := Stopping);
      Note(Edit(Resume(id)), was);
      st := Persist();
    }

    method BeginAnew(action: Operation, id: string) returns (st: Status)
      requires Valid() && tried == {} && Permitted(config, Now(), Begin(action, id))
      modifies this
      ensures Valid() && old(log) <= log && tried == {}
      ensures state == Changed(old(state), Begin(action, id)) && (st.Going? ==> durable == state)
      ensures resuming == old(resuming)
    {
      ghost var was := Now();
      state := state.(operation := Some(action), id := id, steps := map[], receipts := NO_RECEIPTS);
      state := state.(desired := if action == Start then Running else Stopped,
                      phase := if action == Start then Starting else Stopping);
      Note(Edit(Begin(action, id)), was);
      st := Persist();
    }

    method BeginOperation(action: Operation, resume: Option<string>) returns (st: Status)
      requires Valid() && tried == {}
      requires action == Start ==> state.phase == Ready && state.desired == Stopped && state.operation.None?
      requires action == Stop ==> !Settled(state)
      requires !resuming
      modifies this
      ensures Valid() && old(log) <= log && tried == {}
      ensures st.Going? ==>
                state.operation == Some(action) && state.phase == (if action == Start then Starting else Stopping)
      ensures st.Going? ==> durable == state && (resuming <==> resume.Some? && resume.value != "")
      ensures st.Going? && resuming ==>
                && action == Stop && old(state.operation) == Some(Stop) && resume.value == old(state.id)
                && state == old(state).(desired := Stopped, phase := Stopping)
      ensures st.Going? && !resuming ==>
                && state.steps == map[] && state.receipts == NO_RECEIPTS
                && !(old(state.operation) == Some(Stop)
                     && (old(state.phase) == Stopping || old(state.phase) == NeedsReview))
    {
      if resume.Some? && resume.value != "" {
        if !(action == Stop && state.operation == Some(Stop) && resume.value == state.id
             && (state.phase == Stopping || state.phase == NeedsReview)) {
          return Raised;
        }
        st := ResumeOperation(resume.value);
      } else {
        if state.operation == Some(Stop) && (state.phase == Stopping || state.phase == NeedsReview) {
          return Raised;
        }
        var id := FreshIdentity();
        st := BeginAnew(action, id);
      }
    }

    method StoreLedger(ledger: Ledger)
      requires Valid() && Grows(state.ledger, Some(ledger))
      modifies this
      ensures Valid() && old(log) <= log && durable == old(durable) && state == old(state).(ledger := Some(ledger))
    {
      ghost var was := Now();
      state := state.(ledger := Some(ledger));
      Note(Edit(KeepLedger(ledger)), was);
    }

    method StoreArchive(proof: Proof)
      requires Valid() && state.operation == Some(Stop) && state.receipts.teardown.None?
      modifies this
      ensures Valid() && old(log) <= log && durable == old(durable)
      ensures state == old(state).(receipts := old(state).receipts.(archive := Some(proof)))
    {
      ghost var was := Now();
      state := state.(receipts := state.receipts.(archive := Some(proof)));
      Note(Edit(KeepArchive(proof)), was);
    }

    /** What a settled record is known to hold. */
    ghost method KnowSettled()
      requires Valid() && Settled(state)
      ensures state.operation == Some(Stop) && state.receipts.broker.Some?
      ensures ValidDrain(config, state.receipts.broker.value)
    {
      Know();
      assert StopProved(state) && PhaseFits(state) && DrainChecked(config, state);
    }

    ghost method KnowUnsettled()
      requires Valid() && !Settled(state)
      ensures state.receipts.teardown.None? && (state.phase == Ready ==> state.operation.None?)
    {
      Know();
      assert TeardownBound(state) && PhaseFits(state);
    }

    /** The handlers of start and stop: flag the record for review. */
    method FlagForReview() returns (st: Status)
      requires Valid() && state.operation.Some? && state.phase != TeardownPrepared
      modifies this
      ensures Valid() && old(log) <= log && !st.Going?
    {
      ghost var was := Now();
      state := state.(phase := NeedsReview);
      Note(Edit(Flag), was);
      st := Persist();
      return if st.Died? then Died else Raised;
    }

    method FetchLedger() returns (st: Status, ledger: Ledger)
      modifies `script
      ensures st.Going? ==> Grows(state.ledger, Some(ledger))
    {
      var reply: Reply;
      st, reply := Remote();
      ledger := reply.ledger;
      if st.Going? {
        var ok := CheckLineage(state.ledger, ledger);
        st := if ok then Going else Raised;
      }
    }

    /** Checks that change nothing: so many outside calls, all of which must be accepted. */
    method Observe(calls: nat) returns (st: Status)
      modifies `script
    {
      st := Going;
      for i := 0 to calls {
        if st.Going? {
          var reply: Reply;
          st, reply := Remote();
        }
      }
    }

    method StartRun() returns (st: Status)
      requires Valid() && tried == {} && !resuming
      modifies this
      ensures Valid() && old(log) <= log
      ensures old(state.phase) != Ready ==> st.Raised? && log == old(log)
      ensures st.Going? ==> durable.phase == Started && DoneBelow(durable.steps, Start, Length(Start))
    {
      if !(state.phase == Ready && state.desired == Stopped) {
        return Raised;
      }
      st := Observe(2);
      if st.Going? && state.ledger.Some? {
        var ledger: Ledger;
        st, ledger := FetchLedger();
      }
      if st.Going? {
        st := Observe(1);
      }
      if !st.Going? {
        return;
      }
      KnowUnsettled();
      st := BeginOperation(Start, None);
      if !st.Going? {
        return;
      }
      st := StartSteps();
      if st.Raised? {
        st := FlagForReview();
      }
    }

    method StartServices() returns (st: Status)
      requires Valid() && state.operation == Some(Start) && state.phase == Starting && DoneBelow(state.steps, Start, 1)
      requires forall s | s in tried :: s.rank < 1
      modifies this
      ensures Valid() && old(log) <= log && state.operation == Some(Start) && state.phase == Starting
      ensures forall s | s in tried :: s.rank < 7
      ensures st.Going? ==> DoneBelow(state.steps, Start, 7)
    {
      var service := 1;
      st := Going;
      while st.Going? && service < 7
        invariant Valid() && old(log) <= log && 1 <= service <= 7
        invariant state.operation == Some(Start) && state.phase == Starting
        invariant forall s | s in tried :: s.rank < service
        invariant st.Going? ==> DoneBelow(state.steps, Start, service)
        decreases 7 - service, st.Going?
      {
        var ignored: Option<Receipt>;
        st, ignored := PerformStep(Step(Start, service));
        service := service + 1;
      }
    }

    /** The route opens only after the broker is ready, and health checks only after it. */
    method ActivateRoute() returns (st: Status)
      requires Valid() && state.operation == Some(Start) && state.phase == Starting && DoneBelow(state.steps, Start, 7)
      requires forall s | s in tried :: s.rank < 7
      modifies this
      ensures Valid() && old(log) <= log && state.operation == Some(Start) && state.phase == Starting
      ensures st.Going? ==> DoneBelow(state.steps, Start, 9)
    {
      var ignored: Option<Receipt>;
      st := Observe(1);
      if st.Going? {
        st, ignored := PerformStep(ACTIVATE);
      }
      if st.Going? {
        st := Observe(1);
      }
      if st.Going? {
        st, ignored := PerformStep(HEALTH_TIMER);
      }
    }

    method RecordStarted() returns (st: Status)
      requires Valid() && Permitted(config, Now(), MarkStarted)
      modifies this
      ensures Valid() && old(log) <= log && state == old(state).(phase := Started)
      ensures st.Going? ==> durable == state
    {
      ghost var was := Now();
      state := state.(phase := Started);
      Note(Edit(MarkStarted), was);
      st := Persist();
    }

    method StartSteps() returns (st: Status)
      requires Valid() && tried == {} && state.operation == Some(Start) && state.phase == Starting
      modifies this
      ensures Valid() && old(log) <= log && state.operation == Some(Start) && state.phase != TeardownPrepared
      ensures st.Going? ==> durable.phase == Started && DoneBelow(durable.steps, Start, Length(Start))
    {
      var ignored: Option<Receipt>;
      st, ignored := PerformStep(ENABLE_SERVICES);
      if st.Going? {
        st := StartServices();
      }
      if st.Going? {
        st := ActivateRoute();
      }
      if st.Going? {
        st := RecordStarted();
      }
    }

    method StopRun(resume: Option<string>) returns (st: Status)
      requires Valid() && tried == {} && !resuming
      modifies this
      ensures Valid() && old(log) <= log
      ensures old(Settled(state)) ==> st.Raised? && log == old(log)
      ensures st.Going? ==> durable.phase == StoppedVerified
    {
      if Settled(state) {
        return Raised;
      }
      st := BeginOperation(Stop, resume);
      if !st.Going? {
        return;
      }
      st := DrainSteps();
      if st.Going? {
        st := ArchiveSteps();
      }
      if st.Raised? {
        st := FlagForReview();
      }
    }

    /** Before the drain: the stop intent on the host, and no health timer. */
    method DeclareStop() returns (st: Status)
      requires Valid() && tried == {} && state.operation == Some(Stop) && state.phase == Stopping
      modifies this
      ensures Valid() && old(log) <= log && (forall s | s in tried :: s.rank < 2)
      ensures state.operation == Some(Stop) && state.phase == Stopping
      ensures st.Going? ==> DoneBelow(state.steps, Stop, 2)
    {
      var ignored: Option<Receipt>;
      st := Observe(2);
      if !st.Going? {
        return;
      }
      st, ignored := PerformStep(STOP_INTENT);
      if st.Going? {
        st := Observe(1);
      }
      if st.Going? {
        st, ignored := PerformStep(DISABLE_HEALTH);
      }
    }

    method StoreBroker(receipt: Option<Receipt>) returns (st: Status)
      requires Valid() && Done(state.steps, DRAIN) && state.steps[DRAIN] == Completed(receipt)
      modifies this
      ensures Valid() && old(log) <= log && tried == old(tried)
      ensures state == old(state).(receipts := old(state).receipts.(broker := receipt)) && receipt.Some?
    {
      Know();
      ghost var was := Now();
      state := state.(receipts := state.receipts.(broker := receipt));
      Note(Edit(KeepBroker), was);
      st := Persist();
    }

    /** The first half of stop: up to the durable broker receipt. */
    method DrainSteps() returns (st: Status)
      requires Valid() && tried == {} && state.operation == Some(Stop) && state.phase == Stopping
      modifies this
      ensures Valid() && old(log) <= log && (forall s | s in tried :: s.rank < 3)
      ensures state.operation == Some(Stop) && state.phase == Stopping
      ensures st.Going? ==> DoneBelow(state.steps, Stop, 3) && state.receipts.broker.Some?
    {
      var receipt: Option<Receipt>;
      st := DeclareStop();
      if st.Going? {
        st, receipt := PerformStep(DRAIN);
        if st.Going? {
          st := StoreBroker(receipt);
        }
      }
    }

    /** The second half: stop the writers, then prove the archive. */
    method ArchiveSteps() returns (st: Status)
      requires Valid() && state.operation == Some(Stop) && state.phase == Stopping
      requires DoneBelow(state.steps, Stop, 3) && state.receipts.broker.Some? && forall s | s in tried :: s.rank < 3
      modifies this
      ensures Valid() && old(log) <= log
      ensures state.operation == Some(Stop) && state.phase != TeardownPrepared
      ensures st.Going? ==> durable.phase == StoppedVerified
    {
      var ignored: Option<Receipt>;
      var rank := 3;
      st := Going;
      while st.Going? && rank < 8
        invariant Valid() && old(log) <= log && 3 <= rank <= 8
        invariant state.operation == Some(Stop) && state.phase == Stopping && state.receipts.broker.Some?
        invariant forall s | s in tried :: s.rank < rank
        invariant st.Going? ==> DoneBelow(state.steps, Stop, rank)
        decreases 8 - rank, st.Going?
      {
        if Step(Stop, rank) == STOP_WRITERS {
          st := Observe(1);   // no container of this site may still run
        }
        if st.Going? {
          st, ignored := PerformStep(Step(Stop, rank));
        }
        rank := rank + 1;
      }
      if st.Going? {
        st := ProveArchive();
      }
    }

    method ProveArchive() returns (st: Status)
      requires Valid() && state.operation == Some(Stop) && state.phase == Stopping
      requires DoneBelow(state.steps, Stop, 8) && state.receipts.broker.Some?
      modifies this
      ensures Valid() && old(log) <= log
      ensures state.operation == Some(Stop) && state.phase != TeardownPrepared
      ensures st.Going? ==> durable.phase == StoppedVerified
    {
      var reply: Reply;
      st, reply := Remote();
      if !st.Going? {
        return;
      }
      KnowUnsettled();
      StoreArchive(reply.proof);
      var ledger: Ledger;
      st, ledger := FetchLedger();
      if !st.Going? {
        return;
      }
      StoreLedger(ledger);
      st := RecordStopped();
    }

    method RecordStopped() returns (st: Status)
      requires Valid() && Permitted(config, Now(), MarkStopped)
      modifies this
      ensures Valid() && old(log) <= log && state == old(state).(phase := StoppedVerified)
      ensures st.Going? ==> durable == state
    {
      ghost var was := Now();
      state := state.(phase := StoppedVerified);
      Note(Edit(MarkStopped), was);
      st := Persist();
    }

    /** An older preparation is durably withdrawn before anything is checked afresh. */
    method WithdrawPreparation() returns (st: Status)
      requires Valid() && Settled(state)
      modifies this
      ensures Valid() && old(log) <= log
      ensures state == Changed(old(state), Reopen)
      ensures st.Going? ==> durable == state
      ensures durable == state || durable == old(durable)
    {
      ghost var was := Now();
      state := state.(phase := StoppedVerified, receipts := state.receipts.(teardown := None));
      Note(Edit(Reopen), was);
      st := Persist();
    }

    /** Whenever this fails after its first save, no older preparation is left in the record. */
    method PrepareTeardown(revocation: Revocation) returns (st: Status)
      requires Valid()
      modifies this
      ensures Valid() && old(log) <= log
      ensures durable == old(durable) || durable.receipts.teardown.None?
              || durable.receipts.revocation == Some(revocation)
      ensures st.Going? ==> durable.phase == TeardownPrepared && durable.receipts.revocation == Some(revocation)
    {
      if !(Settled(state) && state.desired == Stopped) {
        return Raised;
      }
      st := WithdrawPreparation();
      if st.Going? {
        st := PrepareFreshly(revocation);
      }
    }

    method PrepareFreshly(revocation: Revocation) returns (st: Status)
      requires Valid() && state.phase == StoppedVerified && state == durable && state.receipts.teardown.None?
      modifies this
      ensures Valid() && old(log) <= log
      ensures durable == old(durable) || durable.receipts.revocation == Some(revocation)
      ensures st.Going? ==> durable.phase == TeardownPrepared && durable.receipts.revocation == Some(revocation)
    {
      if !(revocation.binding == config && revocation.complete) {
        return Raised;
      }
      st := Observe(3);
      if !st.Going? {
        return;
      }
      KnowSettled();
      if !ValidDrain(config, state.receipts.broker.value) {
        return Raised;
      }
      var archive: Reply;
      st, archive := Remote();
      if !st.Going? {
        return;
      }
      var ledger: Ledger;
      st, ledger := FetchLedger();
      if !st.Going? {
        return;
      }
      StoreLedger(ledger);
      if state.copy.None? {
        return Raised;
      }
      var copy: Reply;
      st, copy := Remote();
      if !st.Going? {
        return;
      }
      if !(copy.copy == state.copy.value && copy.copy.deployment == config.deployment) {
        return Raised;
      }
      st := Observe(1);
      if !st.Going? {
        return;
      }
      StoreArchive(archive.proof);
      st := BindTeardown(archive.proof, revocation, copy.copy);
    }

    method BindTeardown(archive: Proof, revocation: Revocation, copy: CopyReceipt) returns (st: Status)
      requires Valid() && state.phase == StoppedVerified
      requires state.copy == Some(copy) && state.receipts.archive == Some(archive)
      requires state.receipts.broker.Some? && ValidDrain(config, state.receipts.broker.value)
      modifies this
      ensures Valid() && old(log) <= log
      ensures st.Going? ==> durable.phase == TeardownPrepared && durable.receipts.revocation == Some(revocation)
      ensures durable == old(durable) || durable.receipts.revocation == Some(revocation)
    {
      ghost var was := Now();
      var teardown := Teardown(OfReceipt(state.receipts.broker.value), OfProof(archive), OfCopy(copy),
                               OfRevocation(revocation));
      state := state.(receipts := state.receipts.(revocation := Some(revocation)));
      state := state.(receipts := state.receipts.(teardown := Some(teardown)));
      state := state.(phase := TeardownPrepared);
      Note(Edit(Prepare(revocation)), was);
      st := Persist();
    }

    method CopyArchive() returns (st: Status)
      requires Valid()
      modifies this
      ensures Valid() && old(log) <= log
      ensures st.Going? ==> durable.phase == StoppedVerified && durable.copy.Some?
      ensures durable == old(durable) || durable.receipts.teardown.None?
    {
      if !(Settled(state) && state.desired == Stopped) {
        return Raised;
      }
      st := WithdrawPreparation();
      if st.Going? {
        st := Observe(3);
      }
      if !st.Going? {
        return;
      }
      var archive: Reply;
      st, archive := Remote();
      if !st.Going? {
        return;
      }
      var ledger: Ledger;
      st, ledger := FetchLedger();
      if !st.Going? {
        return;
      }
      var copy: Reply;
      st, copy := Remote();
      if st.Going? {
        st := Observe(1);
      }
      if !st.Going? {
        return;
      }
      st := StoreCopy(copy.copy, ledger, archive.proof);
    }

    method StoreCopy(copy: CopyReceipt, ledger: Ledger, archive: Proof) returns (st: Status)
      requires Valid() && state.phase == StoppedVerified && state.receipts.teardown.None?
      requires Grows(state.ledger, Some(ledger))
      modifies this
      ensures Valid() && old(log) <= log
      ensures st.Going? ==> durable.phase == StoppedVerified && durable.copy == Some(copy)
                            && durable.ledger == Some(ledger) && durable.receipts.archive == Some(archive)
      ensures durable == old(durable) || durable.receipts.teardown.None?
    {
      KnowSettled();
      ghost var was := Now();
      state := state.(copy := Some(copy));
      Note(Edit(KeepCopy(copy)), was);
      StoreLedger(ledger);
      StoreArchive(archive);
      st := WithdrawPreparation();
    }

    /** The evidence is durable before the project ledger is charged, and the charge is made
        before the closure is recorded. */
    method Reconcile(evidence: Evidence) returns (st: Status)
      requires Valid()
      modifies this
      ensures Valid() && old(log) <= log
      ensures st.Going? ==> durable.receipts.review == Some(evidence) && durable.receipts.closure == Some(evidence.cost)
      ensures st.Going? ==>
                || log == old(log) + [Edit(KeepReview(evidence)), Save, Charge(evidence),
                                     Edit(KeepClosure(evidence.cost)), Save]
                || log == old(log) + [Edit(KeepReview(evidence)), Save, Edit(KeepClosure(evidence.cost)), Save]
    {
      if !Settled(state) {
        return Raised;
      }
      KnowSettled();
      if evidence.broker != OfReceipt(state.receipts.broker.value) || evidence.cost < 0 {
        return Raised;
      }
      var run: Reply;
      st, run := Remote();
      if !st.Going? {
        return;
      }
      if !(state.receipts.broker.value.settled <= evidence.cost <= run.amount) {
        return Raised;
      }
      st := StoreReview(evidence);
      if st.Going? {
        st := CloseBudget(evidence, run.closed);
      }
    }

    method CloseBudget(evidence: Evidence, closed: bool) returns (st: Status)
      requires Valid() && durable == state && Settled(state) && state.receipts.review == Some(evidence)
      modifies this
      ensures Valid() && old(log) <= log
      ensures st.Going? ==> durable == old(state).(receipts := old(state).receipts.(closure := Some(evidence.cost)))
      ensures st.Going? ==> log == old(log) + (if closed then [] else [Charge(evidence)])
                                   + [Edit(KeepClosure(evidence.cost)), Save]
    {
      st := Going;
      if !closed {
        st := ChargeLedger(evidence);
      }
      if st.Going? {
        st := Observe(1);
      }
      if st.Going? {
        st := StoreClosure(evidence.cost);
      }
    }

    /** The idempotent call that reconciles the project ledger. */
    method ChargeLedger(evidence: Evidence) returns (st: Status)
      requires Valid() && durable == state && state.receipts.review == Some(evidence)
      modifies `script, `log, `states, `tried, `armed, `acted, `candidate
      ensures Valid() && log == old(log) + [Charge(evidence)]
    {
      Note(Charge(evidence), Now());
      var reply: Reply;
      st, reply := Remote();
    }

    method StoreReview(evidence: Evidence) returns (st: Status)
      requires Valid() && Permitted(config, Now(), KeepReview(evidence))
      modifies this
      ensures Valid() && old(log) <= log
      ensures state == old(state).(receipts := old(state).receipts.(review := Some(evidence)))
      ensures st.Going? ==> durable == state && log == old(log) + [Edit(KeepReview(evidence)), Save]
    {
      ghost var was := Now();
      state := state.(receipts := state.receipts.(review := Some(evidence)));
      Note(Edit(KeepReview(evidence)), was);
      st := Persist();
    }

    method StoreClosure(cost: int) returns (st: Status)
      requires Valid() && Permitted(config, Now(), KeepClosure(cost))
      modifies this
      ensures Valid() && old(log) <= log
      ensures state == old(state).(receipts := old(state).receipts.(closure := Some(cost)))
      ensures st.Going? ==> durable == state && log == old(log) + [Edit(KeepClosure(cost)), Save]
    {
      ghost var was := Now();
      state := state.(receipts := state.receipts.(closure := Some(cost)));
      Note(Edit(KeepClosure(cost)), was);
      st := Persist();
    }

    /** The record of a prepared next run, once its ledger passed the lineage check: nothing of
        this run's record changes. */
    method PrepareNextRun() returns (st: Status, next: Option<Record>)
      requires Valid() && state == durable
      modifies `script, `log, `states, `tried, `armed, `acted, `candidate
      ensures Valid() && old(log) <= log
      ensures next.None? ==> log == old(log)
      ensures next.Some? ==> Settled(durable) && next.value.ledger.Some? && Grows(durable.ledger, next.value.ledger)
                             && next.value == Fresh(next.value.ledger, durable.copy) && candidate == next
                             && log == old(log) + [Draft(next.value.ledger.value)]
    {
      if !(Settled(state) && state.desired == Stopped) {
        return Raised, None;
      }
      st := Observe(2);
      if !st.Going? {
        return st, None;
      }
      var baseline: Ledger;
      st, baseline := FetchLedger();
      if st.Going? {
        st := Observe(4);
      }
      if !st.Going? {
        return st, None;
      }
      Note(Draft(baseline), Now());
      return Going, Some(Fresh(Some(baseline), state.copy));
    }

    /** One process from its start to its end, however it ends. */
    method RunCommand(command: Command) returns (st: Status, next: Option<Record>)
      requires Valid()
      modifies this
      ensures Valid() && old(log) + [Open] <= log
      ensures next.Some? ==> durable == old(durable) && Grows(durable.ledger, next.value.ledger)
    {
      OpenRecord();
      next := None;
      match command
      case StartSite => st := StartRun();
      case StopSite(resume) => st := StopRun(resume);
      case CopyArchive => st := CopyArchive();
      case PrepareTeardown(revocation) => st := PrepareTeardown(revocation);
      case Reconcile(evidence) => st := Reconcile(evidence);
      case PrepareNextRun => st, next := PrepareNextRun();
    }
  }
}
