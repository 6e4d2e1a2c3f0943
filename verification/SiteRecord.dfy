/** The durable record of a site and everything a lifecycle process may do to it.  A process
    edits its copy in memory, saves the whole copy, and acts on the host; a crash or an error
    loses the copy.  The runs of all processes over one record are its logs. */
module SiteRecord {
  import opened Results
  import opened ArchiveLineage

  datatype Operation = Start | Stop

  datatype Desired = Running | Stopped

  datatype Phase = Ready | Starting | Started | Stopping | NeedsReview | StoppedVerified | TeardownPrepared

  /** A step by its place in its operation's fixed order. */
  datatype Step = Step(operation: Operation, rank: nat)

  function Length(operation: Operation): nat { if operation == Start then 9 else 8 }

  const ENABLE_SERVICES := Step(Start, 0)
  const ACTIVATE := Step(Start, 7)
  const HEALTH_TIMER := Step(Start, 8)
  const STOP_INTENT := Step(Stop, 0)
  const DISABLE_HEALTH := Step(Stop, 1)
  const DRAIN := Step(Stop, 2)
  const RETAIN_ALLOCATION := Step(Stop, 3)
  const WORKSPACES_STOPPED := Step(Stop, 4)
  const STOP_WRITERS := Step(Stop, 5)
  const STOP_COLLECTOR := Step(Stop, 6)
  const FLUSH_ARCHIVE := Step(Stop, 7)

  datatype Protocol = BrokerDrain | OtherProtocol

  datatype Provenance = BrokerObserved | OtherProvenance

  datatype Config = Config(allocation: string, allocationSha: string, deployment: string, generation: int)

  datatype Receipt = Receipt(protocol: Protocol, provenance: Provenance, binding: Config, paused: bool,
                             reserved: int, settled: int)

  datatype Proof = Proof(sha: string)

  datatype Revocation = Revocation(binding: Config, complete: bool, evidence: string)

  datatype CopyReceipt = CopyReceipt(deployment: string, archive: string, ledger: string)

  /** Digests of receipts, which collide only for equal receipts. */
  datatype Digest =
    | OfReceipt(receipt: Receipt)
    | OfProof(proof: Proof)
    | OfCopy(copy: CopyReceipt)
    | OfRevocation(revocation: Revocation)

  datatype Teardown = Teardown(broker: Digest, archive: Digest, copy: Digest, revocation: Digest)

  datatype Evidence = Evidence(broker: Digest, cost: int)

  datatype Mark = Begun | Completed(result: Option<Receipt>)

  datatype Receipts = Receipts(broker: Option<Receipt>, archive: Option<Proof>, revocation: Option<Revocation>,
                               teardown: Option<Teardown>, review: Option<Evidence>, closure: Option<int>)

  const NO_RECEIPTS := Receipts(None, None, None, None, None, None)

  datatype Record = Record(desired: Desired, phase: Phase, operation: Option<Operation>, id: string,
                           steps: map<Step, Mark>, receipts: Receipts, ledger: Option<Ledger>,
                           copy: Option<CopyReceipt>)

  /** validate_drain. */
  predicate ValidDrain(c: Config, r: Receipt) {
    r.protocol == BrokerDrain && r.provenance == BrokerObserved && r.binding == c && r.paused && r.reserved == 0
  }

  predicate Done(steps: map<Step, Mark>, s: Step) { s in steps && steps[s].Completed? }

  /** Every step of the operation before this one is completed. */
  ghost predicate DoneBelow(steps: map<Step, Mark>, operation: Operation, rank: nat) {
    forall k: nat | k < rank :: Done(steps, Step(operation, k))
  }

  // ---------------------------------------------------------------------------------
  // Logs
  // ---------------------------------------------------------------------------------

  datatype Change =
    | Begin(operation: Operation, id: string)
    | Resume(id: string)
    | Intend(step: Step)
    | Finish(step: Step, result: Option<Receipt>)
    | KeepBroker
    | KeepArchive(proof: Proof)
    | KeepLedger(ledger: Ledger)
    | KeepCopy(copy: CopyReceipt)
    | MarkStarted
    | MarkStopped
    | Flag
    | Reopen
    | Prepare(revocation: Revocation)
    | KeepReview(evidence: Evidence)
    | KeepClosure(cost: int)

  /** A new process reads the record; it edits its copy, saves it, acts on the host, drafts the
      record of a next run, or charges a reviewed cost to the project ledger. */
  datatype Entry =
    | Open
    | Edit(change: Change)
    | Save
    | Act(step: Step)
    | Draft(ledger: Ledger)
    | Charge(evidence: Evidence)

  /** The copy in memory, the record itself, whether this process was given the exact
      operation to resume, the steps whose intent it recorded, the step it may act on and the one
      it acted on, and a drafted record that can still be sealed over this very revision. */
  datatype Sys = Sys(memory: Record, durable: Record, resumed: bool, tried: set<Step>,
                     armed: Option<Step>, acted: Option<Step>, candidate: Option<Record>)

  function DrainResult(r: Record): Option<Receipt> {
    if Done(r.steps, DRAIN) then r.steps[DRAIN].result else None
  }

  function Binding(r: Record, revocation: Revocation): Teardown
    requires r.receipts.broker.Some? && r.receipts.archive.Some? && r.copy.Some?
  {
    Teardown(OfReceipt(r.receipts.broker.value), OfProof(r.receipts.archive.value), OfCopy(r.copy.value),
             OfRevocation(revocation))
  }

  function Changed(r: Record, c: Change): Record {
    match c
    case Begin(operation, id) =>
      r.(operation := Some(operation), id := id, steps := map[], receipts := NO_RECEIPTS,
         desired := if operation == Start then Running else Stopped,
         phase := if operation == Start then Starting else Stopping)
    case Resume(_) => r.(desired := Stopped, phase := Stopping)
    case Intend(s) => r.(steps := r.steps[s := Begun])
    case Finish(s, result) => r.(steps := r.steps[s := Completed(result)])
    case KeepBroker => r.(receipts := r.receipts.(broker := DrainResult(r)))
    case KeepArchive(proof) => r.(receipts := r.receipts.(archive := Some(proof)))
    case KeepLedger(ledger) => r.(ledger := Some(ledger))
    case KeepCopy(copy) => r.(copy := Some(copy))
    case MarkStarted => r.(phase := Started)
    case MarkStopped => r.(phase := StoppedVerified)
    case Flag => r.(phase := NeedsReview)
    case Reopen => r.(phase := StoppedVerified, receipts := r.receipts.(teardown := None))
    case Prepare(revocation) =>
      if r.receipts.broker.Some? && r.receipts.archive.Some? && r.copy.Some? then
        r.(phase := TeardownPrepared,
           receipts := r.receipts.(revocation := Some(revocation), teardown := Some(Binding(r, revocation))))
      else r
    case KeepReview(evidence) => r.(receipts := r.receipts.(review := Some(evidence)))
    case KeepClosure(cost) => r.(receipts := r.receipts.(closure := Some(cost)))
  }

  predicate Settled(r: Record) { r.phase == StoppedVerified || r.phase == TeardownPrepared }

  /** What the code has checked before each edit. */
  ghost predicate Permitted(config: Config, s: Sys, c: Change) {
    var r := s.memory;
    match c
    case Begin(operation, _) =>
      if operation == Start then r.phase == Ready && r.desired == Stopped && r.operation.None?
      else !Settled(r) && (r.operation == Some(Stop) ==> r.phase != Stopping && r.phase != NeedsReview)
    case Resume(id) => r.operation == Some(Stop) && id == r.id && (r.phase == Stopping || r.phase == NeedsReview)
    case Intend(step) =>
      && r.operation == Some(step.operation) && step.rank < Length(step.operation)
      && r.phase == (if step.operation == Start then Starting else Stopping)
      && DoneBelow(r.steps, step.operation, step.rank)
      && (step in r.steps ==> r.steps[step] == Begun && s.resumed) && step !in s.tried
    case Finish(step, result) =>
      s.acted == Some(step) && step in r.steps && (step == DRAIN ==> result.Some? && ValidDrain(config, result.value))
    case KeepBroker => Done(r.steps, DRAIN)
    case KeepArchive(_) => r.operation == Some(Stop) && r.receipts.teardown.None?
    case KeepLedger(ledger) => Grows(r.ledger, Some(ledger))
    case KeepCopy(_) => r.receipts.teardown.None?
    case MarkStarted => r.phase == Starting && DoneBelow(r.steps, Start, Length(Start))
    case MarkStopped =>
      && r.phase == Stopping && DoneBelow(r.steps, Stop, Length(Stop))
      && r.receipts.broker.Some? && r.receipts.archive.Some? && r.ledger.Some?
    case Flag => r.operation.Some? && r.phase != TeardownPrepared
    case Reopen => Settled(r)
    case Prepare(_) =>
      && r.phase == StoppedVerified && r.receipts.archive.Some? && r.copy.Some?
      && r.receipts.broker.Some? && ValidDrain(config, r.receipts.broker.value)
    case KeepReview(evidence) =>
      && Settled(r) && r.receipts.broker.Some? && evidence.broker == OfReceipt(r.receipts.broker.value)
      && r.receipts.broker.value.settled <= evidence.cost
    case KeepClosure(cost) => Settled(r) && r.receipts.review.Some? && r.receipts.review.value.cost == cost
  }

  ghost predicate Allowed(config: Config, s: Sys, e: Entry) {
    match e
    case Open => true
    case Edit(c) => Permitted(config, s, c)
    case Save => true
    case Act(step) => s.armed == Some(step) && s.memory == s.durable
    case Draft(ledger) => Settled(s.memory) && s.memory == s.durable && Grows(s.memory.ledger, Some(ledger))
    case Charge(evidence) => s.memory == s.durable && s.memory.receipts.review == Some(evidence)
  }

  function Apply(s: Sys, e: Entry): Sys {
    match e
    case Open => Sys(s.durable, s.durable, false, {}, None, None, s.candidate)
    case Edit(c) =>
      s.(memory := Changed(s.memory, c), resumed := s.resumed || c.Resume?,
         tried := if c.Intend? then s.tried + {c.step} else s.tried,
         armed := if c.Intend? then Some(c.step) else None,
         acted := None)
    case Save => s.(durable := s.memory, candidate := None)
    case Act(step) => s.(armed := None, acted := Some(step))
    case Draft(ledger) => s.(candidate := Some(Fresh(Some(ledger), s.memory.copy)))
    case Charge(_) => s
  }

  /** A site that was never started, or a prepared next run. */
  function Fresh(ledger: Option<Ledger>, copy: Option<CopyReceipt>): Record {
    Record(Stopped, Ready, None, "", map[], NO_RECEIPTS, ledger, copy)
  }

  function Initially(r: Record): Sys { Sys(r, r, false, {}, None, None, None) }

  function After(s: Sys, log: seq<Entry>): Sys
    decreases |log|
  {
    if log == [] then s else Apply(After(s, log[..|log| - 1]), log[|log| - 1])
  }

  ghost predicate Legal(config: Config, s: Sys, log: seq<Entry>)
    decreases |log|
  {
    log == [] ||
    (Legal(config, s, log[..|log| - 1]) && Allowed(config, After(s, log[..|log| - 1]), log[|log| - 1]))
  }

  // ---------------------------------------------------------------------------------
  // What every record keeps
  // ---------------------------------------------------------------------------------

  /** The recorded steps are those of the current operation: a completed prefix of its fixed
      order and at most one more that has begun. */
  ghost predicate Ordered(r: Record) {
    forall s | s in r.steps ::
      r.operation == Some(s.operation) && s.rank < Length(s.operation) && DoneBelow(r.steps, s.operation, s.rank)
  }

  /** A completed drain holds a receipt that passed validate_drain, and a stored broker
      receipt is that one. */
  ghost predicate DrainChecked(config: Config, r: Record) {
    && (Done(r.steps, DRAIN) ==> DrainResult(r).Some? && ValidDrain(config, DrainResult(r).value))
    && (r.receipts.broker.Some? ==> r.receipts.broker == DrainResult(r))
  }

  ghost predicate PhaseFits(r: Record) {
    match r.operation
    case None => r.phase == Ready
    case Some(Start) => r.phase == Starting || r.phase == Started || r.phase == NeedsReview
    case Some(Stop) => r.desired == Stopped && (r.phase == Stopping || r.phase == NeedsReview || Settled(r))
  }

  /** A verified stop has completed every stop step and holds the receipts that show it. */
  ghost predicate StopProved(r: Record) {
    Settled(r) ==> DoneBelow(r.steps, Stop, Length(Stop)) && r.receipts.broker.Some? && r.receipts.archive.Some?
                   && r.ledger.Some?
  }

  /** A prepared teardown is bound to the very receipts stored beside it. */
  ghost predicate TeardownBound(r: Record) {
    && (r.phase == TeardownPrepared <==> r.receipts.teardown.Some?)
    && (r.phase == TeardownPrepared ==>
          && r.receipts.broker.Some? && r.receipts.archive.Some? && r.copy.Some? && r.receipts.revocation.Some?
          && r.receipts.teardown == Some(Binding(r, r.receipts.revocation.value)))
  }

  /** Reviewed provider cost is bound to the stored broker receipt. */
  ghost predicate ReviewBound(r: Record) {
    && (r.receipts.review.Some? ==>
          && r.receipts.broker.Some? && r.receipts.review.value.broker == OfReceipt(r.receipts.broker.value)
          && r.receipts.broker.value.settled <= r.receipts.review.value.cost)
    && (r.receipts.closure.Some? ==> r.receipts.review.Some?)
  }

  ghost predicate Sound(config: Config, r: Record) {
    && Ordered(r) && DrainChecked(config, r) && PhaseFits(r) && StopProved(r) && TeardownBound(r) && ReviewBound(r)
  }

  /** Operations only move on: nothing, then at most one start, then the stop. */
  function Progress(r: Record): nat {
    match r.operation
    case None => 0
    case Some(Start) => 1
    case Some(Stop) => 2
  }

  /** Completed steps and the identity of the operation stay. */
  ghost predicate Continues(a: Record, b: Record) {
    && b.id == a.id && a.steps.Keys <= b.steps.Keys
    && (forall s | s in a.steps && a.steps[s].Completed? :: b.steps[s] == a.steps[s])
  }

  /** How a record may differ from an earlier one: a stop is for ever, one operation keeps
      its identity and its completed steps, and the archive ledger only grows. */
  ghost predicate Later(a: Record, b: Record) {
    && Progress(a) <= Progress(b)
    && (Progress(a) == Progress(b) > 0 ==> Continues(a, b))
    && Grows(a.ledger, b.ledger)
  }

  lemma LaterTransitive(a: Record, b: Record, c: Record)
    requires Later(a, b) && Later(b, c)
    ensures Later(a, c)
  {
  }

  /** What holds between the copy in memory and the record. */
  ghost predicate Consistent(config: Config, s: Sys) {
    && Sound(config, s.memory) && Sound(config, s.durable) && Later(s.durable, s.memory)
    && (s.armed.Some? ==> s.armed.value in s.memory.steps && s.memory.steps[s.armed.value] == Begun)
    && (s.acted.Some? ==> s.acted.value in s.memory.steps && s.memory.steps[s.acted.value] == Begun)
    && (s.candidate.Some? ==> Settled(s.durable) && Grows(s.durable.ledger, s.candidate.value.ledger))
  }

  predicate OfSteps(c: Change) { c.Begin? || c.Intend? || c.Finish? }

  lemma StepOrderKept(config: Config, s: Sys, c: Change)
    requires Ordered(s.memory) && Permitted(config, s, c) && OfSteps(c)
    ensures Ordered(Changed(s.memory, c))
  {
    var r, n := s.memory, Changed(s.memory, c);
    forall x | x in n.steps
      ensures n.operation == Some(x.operation) && x.rank < Length(x.operation)
      ensures DoneBelow(n.steps, x.operation, x.rank)
    {
      if x in r.steps {
        assert DoneBelow(r.steps, x.operation, x.rank);
      }
    }
  }

  lemma OrderKept(config: Config, s: Sys, c: Change)
    requires Ordered(s.memory) && Permitted(config, s, c)
    ensures Ordered(Changed(s.memory, c))
  {
    if OfSteps(c) {
      StepOrderKept(config, s, c);
    } else {
      assert Changed(s.memory, c).steps == s.memory.steps && Changed(s.memory, c).operation == s.memory.operation;
    }
  }

  lemma DrainKept(config: Config, s: Sys, c: Change)
    requires DrainChecked(config, s.memory) && Permitted(config, s, c)
    requires s.acted.Some? ==> s.acted.value in s.memory.steps && s.memory.steps[s.acted.value] == Begun
    ensures DrainChecked(config, Changed(s.memory, c))
  {
  }

  lemma PhaseKept(config: Config, s: Sys, c: Change)
    requires PhaseFits(s.memory) && Permitted(config, s, c)
    ensures PhaseFits(Changed(s.memory, c))
  {
  }

  lemma LaterKept(config: Config, s: Sys, c: Change)
    requires PhaseFits(s.memory) && Permitted(config, s, c)
    requires s.acted.Some? ==> s.acted.value in s.memory.steps && s.memory.steps[s.acted.value] == Begun
    ensures Later(s.memory, Changed(s.memory, c))
  {
  }

  lemma StopKept(config: Config, s: Sys, c: Change)
    requires StopProved(s.memory) && DrainChecked(config, s.memory) && Permitted(config, s, c)
    requires s.acted.Some? ==> s.acted.value in s.memory.steps && s.memory.steps[s.acted.value] == Begun
    ensures StopProved(Changed(s.memory, c))
  {
  }

  lemma BindingsKept(config: Config, s: Sys, c: Change)
    requires DrainChecked(config, s.memory) && TeardownBound(s.memory) && ReviewBound(s.memory)
    requires Permitted(config, s, c)
    requires s.acted.Some? ==> s.acted.value in s.memory.steps && s.memory.steps[s.acted.value] == Begun
    ensures TeardownBound(Changed(s.memory, c)) && ReviewBound(Changed(s.memory, c))
  {
  }

  lemma EditKeeps(config: Config, s: Sys, c: Change)
    requires Consistent(config, s) && Permitted(config, s, c)
    ensures Consistent(config, Apply(s, Edit(c)))
  {
    var n := Changed(s.memory, c);
    OrderKept(config, s, c);
    DrainKept(config, s, c);
    PhaseKept(config, s, c);
    StopKept(config, s, c);
    BindingsKept(config, s, c);
    LaterKept(config, s, c);
    LaterTransitive(s.durable, s.memory, n);
    assert Sound(config, n);
  }

  lemma EntryKeeps(config: Config, s: Sys, e: Entry)
    requires Consistent(config, s) && Allowed(config, s, e)
    ensures Consistent(config, Apply(s, e)) && Later(s.durable, Apply(s, e).durable)
  {
    if e.Edit? {
      EditKeeps(config, s, e.change);
    }
  }

  lemma FreshIsConsistent(config: Config, ledger: Option<Ledger>, copy: Option<CopyReceipt>)
    ensures Consistent(config, Initially(Fresh(ledger, copy)))
  {
  }

  lemma {:induction false} LogKeeps(config: Config, s: Sys, log: seq<Entry>)
    requires Consistent(config, s) && Legal(config, s, log)
    ensures Consistent(config, After(s, log))
    decreases |log|
  {
    if log != [] {
      LogKeeps(config, s, log[..|log| - 1]);
      EntryKeeps(config, After(s, log[..|log| - 1]), log[|log| - 1]);
    }
  }

  lemma {:induction false} LegalPrefix(config: Config, s: Sys, log: seq<Entry>, i: nat)
    requires Legal(config, s, log) && i <= |log|
    ensures Legal(config, s, log[..i])
    ensures i < |log| ==> Allowed(config, After(s, log[..i]), log[i])
                          && After(s, log[..i + 1]) == Apply(After(s, log[..i]), log[i])
    decreases |log|
  {
    if i < |log| {
      var front := log[..|log| - 1];
      if i < |front| {
        LegalPrefix(config, s, front, i);
        assert front[..i] == log[..i] && front[..i + 1] == log[..i + 1];
      } else {
        assert log[..i] == front && log[..i + 1] == log;
      }
    } else {
      assert log[..i] == log;
    }
  }

  /** The durable record after so many entries of a log. */
  function At(s: Sys, log: seq<Entry>, i: nat): Record
    requires i <= |log|
  {
    After(s, log[..i]).durable
  }

  /** Durable records only move forward, whatever happens to the processes. */
  lemma {:induction false} RecordsMoveForward(config: Config, s: Sys, log: seq<Entry>, i: nat, j: nat)
    requires Consistent(config, s) && Legal(config, s, log) && i <= j <= |log|
    ensures Later(At(s, log, i), At(s, log, j))
    decreases j
  {
    if i < j {
      RecordsMoveForward(config, s, log, i, j - 1);
      LegalPrefix(config, s, log, j - 1);
      LogKeeps(config, s, log[..j - 1]);
      EntryKeeps(config, After(s, log[..j - 1]), log[j - 1]);
      LaterTransitive(At(s, log, i), At(s, log, j - 1), At(s, log, j));
    }
  }

  // ---------------------------------------------------------------------------------
  // Safety over whole runs
  // ---------------------------------------------------------------------------------

  /** In every durable state of every run with crashes the steps are a completed prefix plus
      at most one begun step, a verified stop is proved, and a prepared teardown is bound to
      the receipts beside it. */
  lemma EveryRecordSound(config: Config, ledger: Option<Ledger>, copy: Option<CopyReceipt>, log: seq<Entry>, i: nat)
    requires Legal(config, Initially(Fresh(ledger, copy)), log) && i <= |log|
    ensures Sound(config, At(Initially(Fresh(ledger, copy)), log, i))
  {
    FreshIsConsistent(config, ledger, copy);
    LegalPrefix(config, Initially(Fresh(ledger, copy)), log, i);
    LogKeeps(config, Initially(Fresh(ledger, copy)), log[..i]);
  }

  /** No step acts before its intent, and the completion of every earlier step, is durable. */
  lemma IntentIsDurable(config: Config, s: Sys, log: seq<Entry>, j: nat)
    requires Consistent(config, s) && Legal(config, s, log) && j < |log| && log[j].Act?
    ensures var d := At(s, log, j); var n := log[j].step;
            n in d.steps && d.steps[n] == Begun && d.operation == Some(n.operation)
            && DoneBelow(d.steps, n.operation, n.rank)
  {
    LegalPrefix(config, s, log, j);
    LogKeeps(config, s, log[..j]);
  }

  /** Once its completion is durable a step never acts again in that operation; a stop is
      never begun twice, so no completed stop step acts again at all. */
  lemma CompletedNeverActs(config: Config, s: Sys, log: seq<Entry>, i: nat, j: nat)
    requires Consistent(config, s) && Legal(config, s, log) && i <= j < |log| && log[j].Act?
    requires Done(At(s, log, i).steps, log[j].step)
    ensures Progress(At(s, log, i)) < Progress(At(s, log, j))
    ensures At(s, log, i).operation != Some(Stop)
  {
    RecordsMoveForward(config, s, log, i, j);
    IntentIsDurable(config, s, log, j);
    LegalPrefix(config, s, log, i);
    LogKeeps(config, s, log[..i]);
  }

  /** After a stop has begun the site is wanted stopped in every later state of the record,
      the operation keeps its identity, and no start can begin. */
  lemma StopIsForEver(config: Config, s: Sys, log: seq<Entry>, i: nat, j: nat)
    requires Consistent(config, s) && Legal(config, s, log) && i <= j <= |log|
    requires At(s, log, i).operation == Some(Stop)
    ensures var d := At(s, log, j);
            d.operation == Some(Stop) && d.desired == Stopped && d.phase != Ready && d.id == At(s, log, i).id
  {
    RecordsMoveForward(config, s, log, i, j);
    LegalPrefix(config, s, log, j);
    LogKeeps(config, s, log[..j]);
  }

  /** A reviewed cost is charged only once its evidence is durable, bound to the broker receipt
      in the same record and no less than what the broker settled. */
  lemma EvidenceIsDurable(config: Config, s: Sys, log: seq<Entry>, j: nat)
    requires Consistent(config, s) && Legal(config, s, log) && j < |log| && log[j].Charge?
    ensures var r := At(s, log, j).receipts;
            && r.review == Some(log[j].evidence) && r.broker.Some? && ValidDrain(config, r.broker.value)
            && log[j].evidence.broker == OfReceipt(r.broker.value) && r.broker.value.settled <= log[j].evidence.cost
  {
    LegalPrefix(config, s, log, j);
    LogKeeps(config, s, log[..j]);
    assert DrainChecked(config, At(s, log, j)) && ReviewBound(At(s, log, j));
  }

  function Acts(log: seq<Entry>, n: Step): nat
    decreases |log|
  {
    if log == [] then 0 else Acts(log[..|log| - 1], n) + (if log[|log| - 1] == Act(n) then 1 else 0)
  }

  function Resumptions(log: seq<Entry>): nat
    decreases |log|
  {
    if log == [] then 0
    else Resumptions(log[..|log| - 1]) + (if log[|log| - 1].Edit? && log[|log| - 1].change.Resume? then 1 else 0)
  }

  function Order(operation: Operation): nat { if operation == Start then 1 else 2 }

  /** The acts on a step so far, against the processes that were given the operation. */
  ghost predicate Tally(s: Sys, n: Step, acts: nat, resumptions: nat) {
    && (s.resumed ==> s.memory.operation == Some(Stop))
    && acts + (if s.armed == Some(n) then 1 else 0)
       + (if n.operation == Stop && s.resumed && n !in s.tried then 1 else 0)
       <= 1 + (if n.operation == Start then 0 else resumptions)
    && (acts > 0 ==> Progress(s.durable) > Order(n.operation)
                     || (s.durable.operation == Some(n.operation) && n in s.durable.steps))
  }

  lemma TallyIntend(config: Config, s: Sys, step: Step, n: Step, acts: nat, resumptions: nat)
    requires Consistent(config, s) && Permitted(config, s, Intend(step)) && Tally(s, n, acts, resumptions)
    ensures Tally(Apply(s, Edit(Intend(step))), n, acts, resumptions)
  {
    if step == n && !s.resumed {
      assert n !in s.memory.steps && Later(s.durable, s.memory);
      assert acts == 0;
    }
  }

  lemma TallyEdit(config: Config, s: Sys, c: Change, n: Step, acts: nat, resumptions: nat)
    requires PhaseFits(s.memory) && Permitted(config, s, c) && !c.Intend? && Tally(s, n, acts, resumptions)
    ensures Tally(Apply(s, Edit(c)), n, acts, resumptions + (if c.Resume? then 1 else 0))
  {
  }

  lemma TallyEntry(config: Config, s: Sys, e: Entry, n: Step, acts: nat, resumptions: nat)
    requires Consistent(config, s) && Allowed(config, s, e) && Tally(s, n, acts, resumptions)
    ensures Tally(Apply(s, e), n, acts + (if e == Act(n) then 1 else 0),
                  resumptions + (if e.Edit? && e.change.Resume? then 1 else 0))
  {
    if e.Edit? && e.change.Intend? {
      TallyIntend(config, s, e.change.step, n, acts, resumptions);
    } else if e.Edit? {
      TallyEdit(config, s, e.change, n, acts, resumptions);
    } else if e.Save? {
      assert Later(s.durable, s.memory) && Sound(config, s.durable);
    }
  }

  lemma {:induction false} TallyLog(config: Config, s: Sys, log: seq<Entry>, n: Step)
    requires Consistent(config, s) && Legal(config, s, log) && Tally(s, n, 0, 0)
    ensures Tally(After(s, log), n, Acts(log, n), Resumptions(log))
    decreases |log|
  {
    if log != [] {
      var front := log[..|log| - 1];
      TallyLog(config, s, front, n);
      LogKeeps(config, s, front);
      TallyEntry(config, After(s, front), log[|log| - 1], n, Acts(front, n), Resumptions(front));
    }
  }

  /** Over all processes and crashes of one record, a start step acts at most once, and a stop
      step at most once more than there were processes given the exact stop to resume. */
  lemma ActsAreBounded(config: Config, ledger: Option<Ledger>, copy: Option<CopyReceipt>, log: seq<Entry>, n: Step)
    requires Legal(config, Initially(Fresh(ledger, copy)), log)
    ensures Acts(log, n) <= 1 + (if n.operation == Start then 0 else Resumptions(log))
  {
    FreshIsConsistent(config, ledger, copy);
    TallyLog(config, Initially(Fresh(ledger, copy)), log, n);
  }

  /** One process: it never opens the record a second time. */
  predicate OneProcess(log: seq<Entry>) { Open !in log }

  predicate Given(log: seq<Entry>, id: string) { Edit(Resume(id)) in log }

  ghost predicate Guarded(d: Record, n: Step, s: Sys, given: bool) {
    && Later(d, s.memory) && (s.armed.Some? ==> s.armed.value in s.tried)
    && (Progress(s.memory) == Progress(d) && !given ==> !s.resumed && n !in s.tried)
  }

  lemma GuardedEntry(config: Config, d: Record, n: Step, s: Sys, e: Entry, given: bool)
    requires Sound(config, d) && n in d.steps && Consistent(config, s) && Allowed(config, s, e) && !e.Open?
    requires Guarded(d, n, s, given)
    ensures Guarded(d, n, Apply(s, e), given || e == Edit(Resume(d.id)))
  {
    assert Progress(d) > 0;
    if e.Edit? {
      LaterKept(config, s, e.change);
      LaterTransitive(d, s.memory, Changed(s.memory, e.change));
    }
  }

  lemma {:induction false} GuardedLog(config: Config, d: Record, n: Step, log: seq<Entry>)
    requires Sound(config, d) && n in d.steps && Legal(config, Initially(d), log) && OneProcess(log)
    ensures Guarded(d, n, After(Initially(d), log), Given(log, d.id))
    decreases |log|
  {
    if log != [] {
      var front := log[..|log| - 1];
      assert log == front + [log[|log| - 1]];
      GuardedLog(config, d, n, front);
      LogKeeps(config, Initially(d), front);
      GuardedEntry(config, d, n, After(Initially(d), front), log[|log| - 1], Given(front, d.id));
    }
  }

  /** A process that finds a step already begun acts on it in that operation only if it was
      given that very operation to resume. */
  lemma UncertainNeedsIdentity(config: Config, d: Record, n: Step, log: seq<Entry>)
    requires Sound(config, d) && n in d.steps && Legal(config, Initially(d), log + [Act(n)]) && OneProcess(log)
    requires Progress(After(Initially(d), log).durable) == Progress(d)
    ensures Given(log, d.id)
  {
    assert (log + [Act(n)])[..|log|] == log;
    LegalPrefix(config, Initially(d), log + [Act(n)], |log|);
    GuardedLog(config, d, n, log);
  }

  // ---------------------------------------------------------------------------------
  // Archive lineage, also across runs
  // ---------------------------------------------------------------------------------

  /** All processes over one run's record, from a prepared record to the last state. */
  datatype SiteRun = SiteRun(config: Config, ledger: Option<Ledger>, copy: Option<CopyReceipt>, log: seq<Entry>)

  function Records(run: SiteRun, i: nat): Record
    requires i <= |run.log|
  {
    At(Initially(Fresh(run.ledger, run.copy)), run.log, i)
  }

  ghost predicate LegalRun(run: SiteRun) { Legal(run.config, Initially(Fresh(run.ledger, run.copy)), run.log) }

  function LastOf(run: SiteRun): Sys { After(Initially(Fresh(run.ledger, run.copy)), run.log) }

  /** The next run starts from the record that was drafted in this one, sealed over the very
      revision it was drafted from: no save came in between. */
  ghost predicate HandsOver(run: SiteRun, next: SiteRun) {
    LastOf(run).candidate == Some(Fresh(next.ledger, next.copy))
  }

  /** A draft extends the ledger of the record it replaces. */
  lemma HandOverGrows(run: SiteRun, next: SiteRun)
    requires LegalRun(run) && HandsOver(run, next)
    ensures Settled(Records(run, |run.log|)) && Grows(Records(run, |run.log|).ledger, next.ledger)
  {
    FreshIsConsistent(run.config, run.ledger, run.copy);
    LogKeeps(run.config, Initially(Fresh(run.ledger, run.copy)), run.log);
    assert run.log[..|run.log|] == run.log;
  }

  ghost predicate Succession(runs: seq<SiteRun>) {
    && (forall k | 0 <= k < |runs| :: LegalRun(runs[k]))
    && (forall k | 0 < k < |runs| :: HandsOver(runs[k - 1], runs[k]))
  }

  lemma LineageInRun(run: SiteRun, i: nat, j: nat)
    requires LegalRun(run) && i <= j <= |run.log|
    ensures Grows(Records(run, i).ledger, Records(run, j).ledger)
    ensures Records(run, 0) == Fresh(run.ledger, run.copy)
  {
    FreshIsConsistent(run.config, run.ledger, run.copy);
    RecordsMoveForward(run.config, Initially(Fresh(run.ledger, run.copy)), run.log, i, j);
  }

  /** Every object, withdrawal and split ever recorded is in every later record, within a run
      and through any number of hand-overs. */
  lemma {:induction false} LineageNeverShrinks(runs: seq<SiteRun>, a: nat, i: nat, b: nat, j: nat)
    requires Succession(runs) && a <= b < |runs| && i <= |runs[a].log| && j <= |runs[b].log|
    requires a == b ==> i <= j
    ensures Grows(Records(runs[a], i).ledger, Records(runs[b], j).ledger)
    decreases b - a
  {
    if a == b {
      LineageInRun(runs[a], i, j);
    } else {
      LineageInRun(runs[a], i, |runs[a].log|);
      LineageInRun(runs[a + 1], 0, 0);
      assert HandsOver(runs[a + 1 - 1], runs[a + 1]);
      HandOverGrows(runs[a], runs[a + 1]);
      LineageNeverShrinks(runs, a + 1, 0, b, j);
    }
  }
}
