/** The bounded agent loop over one conversation, and the executor of its tool calls. */
module AgentHarness {
  import opened Results
  import opened AgentHistory

  datatype Kind = Publication | Staging | Withdrawal

  /** What a tool call came to. */
  datatype Execution = Read | DraftPatch | Clarification | Rejected | AwaitingReview(operation: string)

  /** What a tool that opens no review answers, as the catalogue and the drafts decide. */
  datatype Reading = Answers | Refuses | Patches | Clarifies

  // ---------------------------------------------------------------------------------
  // The executor
  // ---------------------------------------------------------------------------------

  function Reviewed(name: string): Option<Kind> {
    if name == "publication.publish" then Some(Publication)
    else if name == "product.stage" then Some(Staging)
    else if name == "product.withdraw" then Some(Withdrawal)
    else None
  }

  predicate Accepts(callIds: set<string>, call: Call) {
    |callIds| < 256 && |call.id| <= 256 && |call.arguments| <= 65536 && call.id !in callIds
  }

  /** review_existing: only a prepared operation of the tool's own kind comes to review. */
  function ReviewExisting(prepared: map<string, Kind>, kind: Kind, handle: Option<string>): Execution {
    if handle.None? || handle.value !in prepared || prepared[handle.value] != kind then Rejected
    else AwaitingReview(handle.value)
  }

  function Executed(prepared: map<string, Kind>, callIds: set<string>, call: Call, reading: Reading): Execution {
    if !Accepts(callIds, call) then Rejected
    else if Reviewed(call.name).Some? then ReviewExisting(prepared, Reviewed(call.name).value, call.handle)
    else
      match reading
      case Answers => Read
      case Refuses => Rejected
      case Patches => DraftPatch
      case Clarifies => Clarification
  }

  class ToolExecutor {
    var prepared: map<string, Kind>
    var callIds: set<string>

    constructor ()
      ensures prepared == map[] && callIds == {}
    {
      prepared, callIds := map[], {};
    }

    method Execute(call: Call, reading: Reading) returns (x: Execution)
      modifies `callIds
      ensures x == Executed(prepared, old(callIds), call, reading)
      ensures callIds == old(callIds) + (if Accepts(old(callIds), call) then {call.id} else {})
      ensures x.AwaitingReview? ==> x.operation in prepared
    {
      if |callIds| >= 256 {
        return Rejected;
      }
      if |call.id| > 256 || |call.arguments| > 65536 {
        return Rejected;
      }
      if call.id in callIds {
        return Rejected;
      }
      callIds := callIds + {call.id};
      var kind := Reviewed(call.name);
      if kind.Some? {
        return ReviewExisting(prepared, kind.value, call.handle);
      }
      match reading
      case Answers => return Read;
      case Refuses => return Rejected;
      case Patches => return DraftPatch;
      case Clarifies => return Clarification;
    }

    /** Local preparation for review, which keeps whatever else is prepared. */
    method PrepareForReview(operation: string, kind: Kind)
      modifies `prepared
      ensures prepared == old(prepared)[operation := kind]
    {
      prepared := prepared[operation := kind];
    }

    /** register_operation: beyond sixteen operations all earlier ones are forgotten. */
    method RegisterOperation(operation: string, kind: Kind)
      modifies `prepared
      ensures prepared == (if |old(prepared)| >= 16 then map[] else old(prepared))[operation := kind]
    {
      if |prepared| >= 16 {
        prepared := map[];
      }
      prepared := prepared[operation := kind];
    }

    method TakePreparedOperation(operation: string) returns (r: Option<Kind>)
      modifies `prepared
      ensures r == (if operation in old(prepared) then Some(old(prepared)[operation]) else None)
      ensures prepared == old(prepared) - {operation}
    {
      r := if operation in prepared then Some(prepared[operation]) else None;
      prepared := prepared - {operation};
    }

    method InvalidateHandles()
      modifies `prepared
      ensures prepared == map[]
    {
      prepared := map[];
    }
  }

  // ---------------------------------------------------------------------------------
  // The harness
  // ---------------------------------------------------------------------------------

  datatype Profile = Profile(allowUserText: bool, maxContext: nat, maxToolCalls: nat, maxCost: Option<real>,
                             inputPrice: Option<real>, outputPrice: Option<real>, maxOutputTokens: nat)

  predicate ValidProfile(p: Profile) { 1 <= p.maxToolCalls <= 8 }

  datatype Fault = NoFault | Cancelled | Faulty | TooLong | TooLate

  /** What one dispatched request brings: its text, all proposed calls, the charge if usage
      came and was priced, and how it went wrong, if it did. */
  datatype Response = Response(text: string, calls: seq<Call>, usage: Option<Option<real>>, fault: Fault)

  datatype State =
    | Finished
    | AwaitingLocalReview(operation: string)
    | AwaitingClarification
    | Stopped
    | Failed(kind: string)

  datatype Run = Run(state: State, tools: seq<Execution>, pendingOperation: Option<Kind>)

  /** The outcome of one batch of calls: how the run ends, if it does, and the rejections. */
  datatype Batch = Batch(state: Option<State>, tools: seq<Execution>, pendingOperation: Option<Kind>, rejected: nat)

  /** A batch under way: the outcome so far, whether a local decision is outstanding, the
      operation and the index of a due review, and how many calls reached the executor. */
  datatype Progress = Progress(batch: Batch, awaiting: bool, operation: string, due: Option<nat>, executed: nat)

  /** A run under way: the calls it has made, their keys, the rejections, the executions, and
      the keys of those that reached the executor. */
  datatype Tally = Tally(made: nat, repeated: set<string>, rejections: nat, tools: seq<Execution>, keys: seq<string>)

  function Key(c: Call): string { c.name + ":" + c.arguments }

  function Keys(calls: seq<Call>): seq<string>
    decreases |calls|
  {
    if calls == [] then [] else Keys(calls[..|calls| - 1]) + [Key(calls[|calls| - 1])]
  }

  lemma {:induction false} KeysPrefix(calls: seq<Call>, e: nat)
    requires e <= |calls|
    ensures |Keys(calls)| == |calls| && Keys(calls[..e]) == Keys(calls)[..e]
    decreases |calls|
  {
    if calls != [] {
      var n := |calls| - 1;
      KeysPrefix(calls[..n], if e <= n then e else n);
      if e <= n {
        assert calls[..n][..e] == calls[..e];
      } else {
        assert calls[..e] == calls;
      }
    }
  }

  /** Calls that passed the check for repetition keep a run's executed calls distinct. */
  lemma DistinctGrows(made: seq<string>, calls: seq<Call>, e: nat, repeated: set<string>)
    requires e <= |calls| && Distinct(made) && Distinct(Keys(calls))
    requires (forall key | key in made :: key in repeated) && forall key | key in Keys(calls) :: key !in repeated
    ensures Distinct(made + Keys(calls[..e])) && |Keys(calls[..e])| == e
    ensures forall key | key in Keys(calls[..e]) :: key in Keys(calls)
  {
    KeysPrefix(calls, e);
    var added := Keys(calls[..e]);
    forall i, j | 0 <= i < j < |made + added| ensures (made + added)[i] != (made + added)[j] {
      if i < |made| <= j {
        assert made[i] in made && Keys(calls)[j - |made|] in Keys(calls);
      }
    }
  }

  /** The executed calls of a run are distinct, known, and no more than were made. */
  ghost predicate Sparing(t: Tally) {
    |t.keys| <= t.made && Distinct(t.keys) && forall key | key in t.keys :: key in t.repeated
  }

  ghost predicate Distinct(keys: seq<string>) { forall i, j | 0 <= i < j < |keys| :: keys[i] != keys[j] }

  /** The worst case of one request, when both prices are known. */
  function Reservation(p: Profile, bytes: nat): Option<real> {
    if p.inputPrice.None? || p.outputPrice.None? then None
    else
      var input, output := bytes as real * p.inputPrice.value, p.maxOutputTokens as real * p.outputPrice.value;
      Some(input / 1000000.0 + output / 1000000.0)
  }

  /** The batch as admitCalls lets it pass: no repetition within it or of earlier calls. */
  ghost predicate Novel(calls: seq<Call>, repeated: set<string>, known: set<string>) {
    && Distinct(Keys(calls)) && repeated <= known
    && forall key | key in Keys(calls) :: key !in repeated && key in known
  }

  lemma SparingGrows(t: Tally, calls: seq<Call>, e: nat, n: Tally)
    requires Sparing(t) && e <= |calls| && Novel(calls, t.repeated, n.repeated)
    requires n.made == t.made + |calls| && n.keys == t.keys + Keys(calls[..e])
    ensures Sparing(n)
  {
    DistinctGrows(t.keys, calls, e, t.repeated);
  }

  /** The history starts with the system message and is paired, but for the call whose review
      is outstanding. */
  ghost predicate WellFormed(messages: seq<Message>, pending: Option<(string, string)>) {
    match pending
    case None => messages == [] || (messages[0] == System && Paired(messages[1..]))
    case Some(p) => messages != [] && messages[0] == System && AwaitsAnswer(messages[1..], p.1)
  }

  /** From a well-formed session, dropping the outstanding review leaves a well-formed history
      exactly when there was none. */
  lemma ExpiryExactly(messages: seq<Message>, pending: Option<(string, string)>)
    requires WellFormed(messages, pending)
    ensures WellFormed(messages, None) <==> pending.None?
  {
    if pending.Some? {
      AnswerCompletes(messages[1..], pending.value.1);
    }
  }

  /** Then no later messages of the session repair it while the turn is kept, and eviction
      repairs it exactly by evicting that turn. */
  lemma ExpiryLasts(messages: seq<Message>, pending: (string, string), more: seq<Message>) returns (group: nat)
    requires WellFormed(messages, Some(pending)) && Paired(more) && NoAnswerFirst(more)
    ensures group < |messages[1..]| && messages[1..][group].Calls? && !Paired(messages[1..] + more)
    ensures forall t | 0 <= t < |messages[1..] + more| && (messages[1..] + more)[t].User? ::
              Paired((messages[1..] + more)[t..]) <==> t > group
  {
    var a, calls, answers := AwaitsSplits(messages[1..], pending.1);
    group := |a|;
    assert messages[1..] + more == Interrupted(a, calls, answers, more);
    NothingRepairs(a, calls, answers, more);
    forall t | 0 <= t < |messages[1..] + more| && (messages[1..] + more)[t].User?
      ensures Paired((messages[1..] + more)[t..]) <==> t > group
    {
      EvictionRepairsExactly(a, calls, answers, more, t);
    }
  }

  /** So a turn that is interrupted with its review outstanding stays unpaired when more
      turns come, until it is evicted. */
  lemma ExpiryExample(c: Call, first: string, second: string, third: string)
    ensures var h := [System, User(first), Calls([c])];
            var later := [User(second), User(third)];
            && WellFormed(h, Some(("operation", c.id))) && !WellFormed(h, None)
            && !Paired(h[1..] + later) && Paired((h[1..] + later)[2..])
  {
    var h := [System, User(first), Calls([c])];
    var later := [User(second), User(third)];
    ExampleAwaits(c, first);
    assert h[1..] == [User(first), Calls([c])];
    ExpiryExactly(h, Some(("operation", c.id)));
    assert later[1..] == [User(third)] && [User(third)][1..] == [];
    assert Paired(later);
    var group := ExpiryLasts(h, ("operation", c.id), later);
    assert (h[1..] + later)[2..] == later;
  }

  lemma ExampleAwaits(c: Call, first: string)
    ensures AwaitsAnswer([User(first), Calls([c])], c.id)
  {
    assert Answered([c], Some(0)) == [] by {
      assert [c][..0] == [];
    }
    GroupAwaits([c], 0);
    assert [Calls([c])] + Answered([c], Some(0)) == [Calls([c])];
    assert [User(first), Calls([c])][1..] == [Calls([c])];
  }

  /** Whether one of these executions opened a review. */
  predicate Opened(tools: seq<Execution>)
    decreases |tools|
  {
    tools != [] && (tools[|tools| - 1].AwaitingReview? || Opened(tools[..|tools| - 1]))
  }

  /** A charge that counts: reported, priced and not negative. */
  predicate Priced(usage: Option<Option<real>>) { usage.Some? && usage.value.Some? && usage.value.value >= 0.0 }

  /** The proposals kept of a response. */
  function Kept(calls: seq<Call>): seq<Call> { if |calls| < 9 then calls else calls[..9] }

  function Rejections(tools: seq<Execution>): nat
    decreases |tools|
  {
    if tools == [] then 0
    else Rejections(tools[..|tools| - 1]) + (if tools[|tools| - 1] == Rejected then 1 else 0)
  }

  /** The state of a run that ended without another tool call. */
  function Closing(text: string): State { if '?' in text then AwaitingClarification else Finished }

  class Harness {
    const profile: Profile
    const fits: bool -> (seq<Message> -> bool)   // guided requests carry no tool schemas
    const size: bool -> (seq<Message> -> nat)
    const executor: ToolExecutor
    var messages: seq<Message>
    var pendingReview: Option<(string, string)>
    var spent: real
    var unknownCost: bool
    var requests: nat
    var requestBytes: nat
    var cancelled: bool
    var polls: seq<bool>          // when another thread cancels, seen from here
    var responses: seq<Response>  // what the provider will answer
    var readings: seq<Reading>
    ghost var dispatched: nat     // requests that reached the provider
    ghost var executed: seq<string>   // the keys of calls that reached the executor
    ghost var broken: bool        // an interruption dropped an answer that was due
    ghost var overcharged: bool   // a charge exceeded its reservation, or had none
    ghost var blind: nat          // dispatches under a limit whose spending was already unknown

    constructor (profile: Profile, fits: bool -> (seq<Message> -> bool), size: bool -> (seq<Message> -> nat),
                 executor: ToolExecutor)
      ensures WellKept() && Funded() && messages == [] && pendingReview == None
      ensures dispatched == 0 && executed == [] && !broken && !overcharged
    {
      this.profile, this.fits, this.size, this.executor := profile, fits, size, executor;
      messages, pendingReview, spent, unknownCost, requests, requestBytes := [], None, 0.0, false, 0, 0;
      cancelled, polls, responses, readings := false, [], [], [];
      dispatched, executed, broken, overcharged, blind := 0, [], false, false, 0;
    }

    /** The history is well formed unless an interruption broke it. */
    ghost predicate WellKept()
      reads `messages, `pendingReview, `broken
    {
      !broken ==> WellFormed(messages, pendingReview)
    }

    /** While every charge stays within its reservation, spending stays within the limit; and
        no request was ever dispatched under a limit with an unknown cost behind it. */
    ghost predicate Funded()
      reads `spent, `overcharged, `blind
    {
      && blind == 0
      && (!overcharged && profile.maxCost.Some? ==> spent == 0.0 || spent <= profile.maxCost.value)
    }

    method Poll() returns (c: bool)
      modifies `cancelled, `polls
      ensures c == cancelled && (old(cancelled) ==> cancelled)
    {
      if polls != [] {
        cancelled, polls := cancelled || polls[0], polls[1..];
      }
      return cancelled;
    }

    method ExpireInterruptedState()
      modifies `pendingReview, `broken, executor`prepared
      ensures pendingReview == None && executor.prepared == map[] && broken == (old(broken) || old(pendingReview).Some?)
      ensures old(WellKept()) ==> WellKept()
      ensures WellFormed(messages, old(pendingReview)) ==> (WellFormed(messages, None) <==> old(pendingReview).None?)
    {
      if WellFormed(messages, pendingReview) {
        ExpiryExactly(messages, pendingReview);
      }
      ghost var due := pendingReview.Some?;
      pendingReview := None;
      executor.InvalidateHandles();
      broken := broken || due;
    }

    method Invalidate()
      modifies `messages, `pendingReview, `broken, `cancelled, executor`prepared
      ensures messages == [] && pendingReview == None && cancelled && executor.prepared == map[] && WellKept()
      ensures !broken
    {
      cancelled := true;
      messages, pendingReview := [], None;
      executor.InvalidateHandles();
      broken := false;
    }

    /** The local outcome answers the outstanding call; a wrong operation changes nothing. */
    method RecordReviewOutcome(operation: string) returns (ok: bool)
      requires WellKept()
      modifies `messages, `pendingReview, executor`prepared
      ensures WellKept()
      ensures ok <==> old(pendingReview).Some? && old(pendingReview).value.0 == operation
      ensures ok ==> pendingReview == None && executor.prepared == map[]
                     && messages == old(messages) + [Answer(old(pendingReview).value.1)]
      ensures !ok ==> pendingReview == old(pendingReview) && messages == old(messages)
                      && executor.prepared == old(executor.prepared)
    {
      if pendingReview.None? {
        return false;
      }
      var taken := pendingReview.value;
      pendingReview := None;
      if operation != taken.0 {
        pendingReview := Some(taken);
        return false;
      }
      if !broken {
        AnswerCompletes(messages[1..], taken.1);
        assert (messages + [Answer(taken.1)])[1..] == messages[1..] + [Answer(taken.1)];
      }
      messages := messages + [Answer(taken.1)];
      executor.InvalidateHandles();
      return true;
    }

    /** The loop of bounded_request: drain whole oldest turns until the request fits. */
    method BoundedRequest(guided: bool) returns (ok: bool)
      requires messages != []
      modifies `messages
      ensures messages == Remaining(old(messages), fits(guided)) && (ok <==> fits(guided)(messages))
    {
      while !fits(guided)(messages)
        invariant messages != [] && Remaining(messages, fits(guided)) == Remaining(old(messages), fits(guided))
        decreases |messages|
      {
        if Users(messages[1..]) <= 2 {
          return false;
        }
        EvictShrinks(messages);
        messages := Evict(messages);
      }
      return true;
    }

    /** All that is checked before a request is dispatched. */
    method Gate(guided: bool) returns (stop: Option<State>)
      requires WellKept() && messages != [] && pendingReview == None
      modifies `messages, `requests, `requestBytes
      ensures WellKept() && messages != [] && (stop.Some? ==> stop.value.Failed?)
      ensures messages == old(messages) || messages == Remaining(old(messages), fits(guided))
      ensures stop.None? ==> messages == Remaining(old(messages), fits(guided)) && fits(guided)(messages)
                             && requests == old(requests) + 1 && requestBytes >= size(guided)(messages)
      ensures stop.None? && profile.maxCost.Some? ==> !unknownCost && spent < profile.maxCost.value
      ensures stop.None? && profile.maxCost.Some? && Reservation(profile, requestBytes).Some? ==>
                spent + Reservation(profile, requestBytes).value <= profile.maxCost.value
    {
      if profile.maxCost.Some? && (unknownCost || spent >= profile.maxCost.value) {
        return Some(Failed(if unknownCost then "cost_unknown" else "cost_limit"));
      }
      EvictionKeepsTurns(messages, fits(guided));
      var ok := BoundedRequest(guided);
      if !ok {
        return Some(Failed("context_limit"));
      }
      requestBytes := if size(guided)(messages) > requestBytes then size(guided)(messages) else requestBytes;
      requests := requests + 1;
      var reserve := Reservation(profile, requestBytes);
      if profile.maxCost.Some? && reserve.Some? && spent + reserve.value > profile.maxCost.value {
        return Some(Failed("cost_limit"));
      }
      return None;
    }

    /** Account for a charge that follows the gate. */
    method Account(usage: Option<Option<real>>)
      requires Funded()
      requires profile.maxCost.Some? && Reservation(profile, requestBytes).Some? ==>
                 spent + Reservation(profile, requestBytes).value <= profile.maxCost.value
      modifies `spent, `unknownCost, `overcharged
      ensures Funded() && unknownCost == (old(unknownCost) || !Priced(usage))
      ensures spent == old(spent) + (if Priced(usage) then usage.value.value else 0.0)
      ensures overcharged == (old(overcharged) || (Priced(usage) &&
                (Reservation(profile, requestBytes).None?
                    || usage.value.value > Reservation(profile, requestBytes).value)))
    {
      if usage.Some? && usage.value.Some? && usage.value.value >= 0.0 {
        var cost := usage.value.value;
        spent := spent + cost;
        var reserve := Reservation(profile, requestBytes);
        overcharged := overcharged || reserve.None? || cost > reserve.value;
      } else {
        unknownCost := true;
      }
    }

    method Receive() returns (r: Response)
      modifies `responses, `dispatched, `blind
      ensures dispatched == old(dispatched) + 1
      ensures blind == old(blind) + (if unknownCost && profile.maxCost.Some? then 1 else 0)
    {
      dispatched := dispatched + 1;
      blind := blind + (if unknownCost && profile.maxCost.Some? then 1 else 0);
      if responses == [] {
        return Response("", [], None, Faulty);
      }
      r, responses := responses[0], responses[1..];
    }

    /** One pass of the loop up to the proposals: either the run ends, or there are some. */
    method Ask(guided: bool) returns (r: Result<seq<Call>, State>)
      requires WellKept() && Funded() && messages != [] && pendingReview == None
      modifies `messages, `requests, `requestBytes, `spent, `unknownCost, `overcharged, `responses, `dispatched, `blind
      modifies `cancelled, `polls, `pendingReview, `broken, executor`prepared
      ensures WellKept() && Funded() && messages != [] && pendingReview == None && broken == old(broken)
      ensures dispatched <= old(dispatched) + 1 && (old(cancelled) ==> cancelled)
      ensures old(unknownCost) && profile.maxCost.Some? ==> dispatched == old(dispatched) && r.Err?
      ensures old(unknownCost) ==> unknownCost
      ensures r.Ok? ==> 1 <= |r.value| <= 9 && !guided
      ensures r.Err? ==> !r.error.AwaitingLocalReview?
    {
      var c := Poll();
      if c {
        ExpireInterruptedState();
        return Err(Stopped);
      }
      var stop := Gate(guided);
      if stop.Some? {
        return Err(stop.value);
      }
      var response := Receive();
      Account(response.usage);
      r := Conclude(response, guided);
    }

    /** What is made of a response once it is accounted for. */
    method Conclude(response: Response, guided: bool) returns (r: Result<seq<Call>, State>)
      requires WellKept() && messages != [] && pendingReview == None
      modifies `messages, `cancelled, `polls, `pendingReview, `broken, executor`prepared
      ensures WellKept() && messages != [] && pendingReview == None && broken == old(broken)
      ensures old(cancelled) ==> cancelled
      ensures r.Ok? ==> r.value == Kept(response.calls) != [] && !guided && !cancelled && response.fault.NoFault?
                        && !(profile.maxCost.Some? && spent >= profile.maxCost.value)
      ensures r.Err? && !r.error.Failed? && !r.error.Stopped? ==>
                r.error == Closing(response.text) && response.calls == [] && response.fault.NoFault? && !cancelled
      ensures messages == old(messages) +
                (if r.Err? && !r.error.Failed? && !r.error.Stopped? then [Reply(response.text)] else [])
    {
      if response.fault.Cancelled? {
        ExpireInterruptedState();
        return Err(Stopped);
      }
      if response.fault.Faulty? {
        return Err(Failed("provider"));
      }
      var c := Poll();
      if c {
        ExpireInterruptedState();
        return Err(Stopped);
      }
      if !response.fault.NoFault? {
        return Err(Failed(if response.fault.TooLong? then "output_limit" else "request_time_limit"));
      }
      if profile.maxCost.Some? && spent >= profile.maxCost.value {
        return Err(Failed("cost_limit"));
      }
      var proposals: seq<Call> := [];
      while |proposals| < |response.calls| && |proposals| < 9
        invariant |proposals| <= |response.calls| && |proposals| <= 9 && proposals == response.calls[..|proposals|]
      {
        proposals := proposals + [response.calls[|proposals|]];
      }
      if proposals == [] {
        Say(response.text);
        return Err(if '?' in response.text then AwaitingClarification else Finished);
      }
      if guided {
        return Err(Failed("guided_tool_call_rejected"));
      }
      return Ok(proposals);
    }

    /** The assistant's closing words. */
    method Say(text: string)
      requires WellKept() && messages != [] && pendingReview == None
      modifies `messages
      ensures WellKept() && messages == old(messages) + [Reply(text)]
    {
      var reply := Reply(text);
      if !broken {
        PairedAppend(messages[1..], [reply], "");
        assert (messages + [reply])[1..] == messages[1..] + [reply];
      }
      messages := messages + [reply];
    }

    /** The group of calls whose first k have been dealt with. */
    ghost predicate GroupStands(base: seq<Message>, calls: seq<Call>, k: nat, due: Option<nat>, operation: string)
      requires k <= |calls|
      reads `messages, `pendingReview
    {
      && messages == base + [Calls(calls)] + Answered(calls[..k], due)
      && (due.Some? ==> due.value < k)
      && pendingReview == (if due.Some? && due.value < k then Some((operation, calls[due.value].id)) else None)
    }

    /** Execute one call, or turn it away while a local decision is outstanding. */
    method HandleCall(call: Call, awaiting: bool) returns (x: Execution)
      modifies `readings, `executed, executor`callIds
      ensures awaiting ==> x == Rejected && executed == old(executed)
      ensures !awaiting ==> executed == old(executed) + [Key(call)] && exists reading ::
                x == Executed(executor.prepared, old(executor.callIds), call, reading)
      ensures x.AwaitingReview? ==> !awaiting && x.operation in executor.prepared
    {
      if awaiting {
        return Rejected;
      }
      var reading := Refuses;
      if readings != [] {
        reading, readings := readings[0], readings[1..];
      }
      executed := executed + [Key(call)];
      x := executor.Execute(call, reading);
    }

    /** The reviewed call stays unanswered, and its operation leaves the executor. */
    method OpenReview(ghost base: seq<Message>, calls: seq<Call>, k: nat, operation: string)
      returns (taken: Option<Kind>)
      requires k < |calls| && GroupStands(base, calls, k, None, "") && operation in executor.prepared
      modifies `pendingReview, executor`prepared
      ensures GroupStands(base, calls, k + 1, Some(k), operation)
      ensures taken.Some? && operation !in executor.prepared
    {
      taken := executor.TakePreparedOperation(operation);
      pendingReview := Some((operation, calls[k].id));
      assert calls[..k + 1][..k] == calls[..k];
      NoneDueYet(calls[..k], k);
    }

    method AnswerCall(ghost base: seq<Message>, calls: seq<Call>, k: nat, ghost due: Option<nat>,
                      ghost operation: string)
      requires k < |calls| && GroupStands(base, calls, k, due, operation)
      modifies `messages
      ensures GroupStands(base, calls, k + 1, due, operation)
    {
      assert calls[..k + 1][..k] == calls[..k];
      messages := messages + [Answer(calls[k].id)];
    }

    /** A finished group leaves the history well formed. */
    ghost method GroupCloses(base: seq<Message>, calls: seq<Call>, due: Option<nat>, operation: string)
      requires WellFormed(base, None) && base != [] && calls != [] && GroupStands(base, calls, |calls|, due, operation)
      ensures WellFormed(messages, pendingReview)
    {
      assert calls[..|calls|] == calls;
      var group := [Calls(calls)] + Answered(calls, due);
      assert messages[1..] == base[1..] + group;
      if due.Some? {
        GroupAwaits(calls, due.value);
        PairedAppend(base[1..], group, calls[due.value].id);
      } else {
        GroupIsPaired(calls, Answered(calls, None));
        PairedAppend(base[1..], group, "");
      }
    }

    /** A batch in progress: what holds before its k-th call. */
    ghost predicate Progresses(base: seq<Message>, before: seq<string>, calls: seq<Call>, k: nat, p: Progress)
      reads `messages, `pendingReview, `executed, executor`prepared
    {
      && p.executed <= k <= |calls| && |p.batch.tools| == k && p.batch.rejected == Rejections(p.batch.tools)
      && GroupStands(base, calls, k, p.due, p.operation)
      && executed == before + Keys(calls[..p.executed])
      && (forall j | p.executed <= j < k :: p.batch.tools[j] == Rejected)
      && (!p.awaiting ==> p.executed == k && p.due.None? && p.operation == "" && p.batch.state.None?)
      && Settles(p)
    }

    /** A review is due exactly when an operation was handed out for it. */
    ghost predicate Settles(p: Progress)
      reads executor`prepared
    {
      && (p.batch.pendingOperation.Some? <==> p.due.Some?) && (Opened(p.batch.tools) <==> p.due.Some?)
      && (p.batch.state.Some? && p.batch.state.value.AwaitingLocalReview? <==> p.due.Some?)
      && (p.due.Some? ==> p.executed > 0 && p.due == Some(p.executed - 1)
                          && p.batch.state == Some(AwaitingLocalReview(p.operation))
                          && p.operation !in executor.prepared)
    }

    /** One call of a batch: executed unless a local decision is outstanding, and answered
        unless it opens a review. */
    method TakeCall(ghost base: seq<Message>, ghost before: seq<string>, calls: seq<Call>, k: nat, p: Progress)
      returns (n: Progress)
      requires k < |calls| && Progresses(base, before, calls, k, p)
      modifies `messages, `pendingReview, `readings, `executed, executor`prepared, executor`callIds
      ensures Progresses(base, before, calls, k + 1, n)
    {
      var x := HandleCall(calls[k], p.awaiting);
      assert calls[..k + 1][..k] == calls[..k];
      var b := p.batch.(tools := p.batch.tools + [x], rejected := p.batch.rejected + (if x == Rejected then 1 else 0));
      n := p.(batch := b, executed := if p.awaiting then p.executed else k + 1);
      if x.AwaitingReview? {
        var taken := OpenReview(base, calls, k, x.operation);
        b := b.(pendingOperation := taken, state := Some(AwaitingLocalReview(x.operation)));
        n := n.(batch := b, awaiting := true, operation := x.operation, due := Some(k));
      } else {
        AnswerCall(base, calls, k, p.due, p.operation);
        if x.DraftPatch? || x.Clarification? {
          n := n.(batch := b.(state := Some(AwaitingClarification)), awaiting := true);
        }
      }
    }

    /** The calls of a batch one by one, until all are handled or the run is cancelled. */
    method HandleAll(ghost base: seq<Message>, ghost before: seq<string>, calls: seq<Call>)
      returns (p: Progress, k: nat, cut: bool)
      requires Progresses(base, before, calls, 0, Progress(Batch(None, [], None, 0), false, "", None, 0))
      modifies `messages, `pendingReview, `readings, `executed, `cancelled, `polls, executor`prepared, executor`callIds
      ensures k <= |calls| && Progresses(base, before, calls, k, p) && (!cut ==> k == |calls|)
      ensures cut == cancelled && (old(cancelled) ==> cancelled)
    {
      p, k := Progress(Batch(None, [], None, 0), false, "", None, 0), 0;
      cut := Poll();
      while k < |calls| && !cut
        invariant k <= |calls| && Progresses(base, before, calls, k, p) && cut == cancelled
        invariant old(cancelled) ==> cancelled
        decreases |calls| - k, !cut
      {
        p := TakeCall(base, before, calls, k, p);
        k := k + 1;
        cut := Poll();
      }
    }

    /** A group that was cut short leaves the history unpaired. */
    ghost method GroupFails(base: seq<Message>, calls: seq<Call>, k: nat, due: Option<nat>)
      requires WellFormed(base, None) && base != [] && k <= |calls| && (due.Some? ==> due.value < k)
      requires messages == base + [Calls(calls)] + Answered(calls[..k], due) && (k < |calls| || due.Some?)
      ensures !WellFormed(messages, None)
    {
      var answers := Answered(calls[..k], due);
      AnsweredLength(calls[..k], due);
      NothingRepairs(base[1..], calls, answers, []);
      assert messages[1..] == Interrupted(base[1..], calls, answers, []);
    }

    /** One batch: each call is executed until one opens a review or needs a local decision;
        the later ones are turned away.  Every call is answered at once but the reviewed one.
        From a well-formed history it leaves one, unless it is cancelled before every call is
        handled or while a review is due: then exactly it does not. */
    method RunBatch(calls: seq<Call>) returns (b: Batch, e: nat)
      requires WellKept() && messages != [] && pendingReview == None && calls != []
      modifies `messages, `pendingReview, `broken, `cancelled, `polls, `readings, `executed
      modifies executor`prepared, executor`callIds
      ensures WellKept() && messages != [] && (broken == old(broken) || cancelled) && (old(cancelled) ==> cancelled)
      ensures !old(broken) ==> (WellFormed(messages, pendingReview) <==> !broken)
      ensures !old(broken) ==>
                (broken <==> b.state == Some(Stopped) && (|b.tools| < |calls| || Opened(b.tools)))
      ensures e <= |calls| && executed == old(executed) + Keys(calls[..e])
      ensures b.pendingOperation.Some? <==> pendingReview.Some?
      ensures b.state.Some? && b.state.value.AwaitingLocalReview? <==> pendingReview.Some?
      ensures pendingReview.Some? ==>
                && e > 0 && pendingReview.value == (b.state.value.operation, calls[e - 1].id)
                && b.state.value.operation !in executor.prepared
      ensures |b.tools| <= |calls| && b.rejected == Rejections(b.tools) && (!cancelled ==> |b.tools| == |calls|)
      ensures forall j | e <= j < |b.tools| :: b.tools[j] == Rejected
    {
      ghost var base := messages;
      messages := messages + [Calls(calls)];
      var p, k, cut := HandleAll(base, executed, calls);
      b, e := p.batch, p.executed;
      if cut {
        b := b.(pendingOperation := None, state := Some(Stopped));
        BreakOff(k < |calls|);
      }
      if !broken {
        GroupCloses(base, calls, if cut then None else p.due, p.operation);
      } else if !old(broken) {
        GroupFails(base, calls, k, p.due);
      }
    }

    /** A cancellation within a batch: unanswered calls stay unanswered. */
    method BreakOff(unfinished: bool)
      modifies `pendingReview, `broken, executor`prepared
      ensures pendingReview == None && broken == (old(broken) || old(pendingReview).Some? || unfinished)
    {
      ExpireInterruptedState();
      broken := broken || unfinished;
    }

    /** Refuse a batch that exceeds the allowance or repeats a call of this run. */
    method AdmitCalls(calls: seq<Call>, made: nat, repeated: set<string>)
      returns (stop: Option<State>, known: set<string>)
      ensures stop.Some? ==> stop.value.Failed?
      ensures stop.None? ==> made + |calls| <= profile.maxToolCalls && Novel(calls, repeated, known)
    {
      known := repeated;
      if made + |calls| > profile.maxToolCalls {
        return Some(Failed("tool_call_limit")), known;
      }
      for k := 0 to |calls|
        invariant |Keys(calls[..k])| == k && Distinct(Keys(calls[..k])) && repeated <= known
        invariant forall key | key in Keys(calls[..k]) :: key !in repeated && key in known
        invariant forall key | key in known :: key in repeated || key in Keys(calls[..k])
      {
        assert calls[..k + 1][..k] == calls[..k];
        if Key(calls[k]) in known {
          return Some(Failed("repeated_tool_call")), known;
        }
        known := known + {Key(calls[k])};
      }
      assert calls[..|calls|] == calls;
      return None, known;
    }

    /** The start of a turn: the system message if there is none yet, then the user's text. */
    method StartTurn(text: string)
      requires WellKept() && pendingReview == None
      modifies `messages
      ensures WellKept() && messages == (if old(messages) == [] then [System] else old(messages))
                                        + (if text == "" then [] else [User(text)])
    {
      if messages == [] {
        messages := [System];
      }
      if text != "" {
        if !broken {
          PairedAppend(messages[1..], [User(text)], "");
          assert (messages + [User(text)])[1..] == messages[1..] + [User(text)];
        }
        messages := messages + [User(text)];
      }
    }

    /** The loop of a run.  Every further request has used up part of the allowance of calls. */
    method RunTurns(guided: bool) returns (r: Run)
      requires WellKept() && Funded() && messages != [] && pendingReview == None && ValidProfile(profile)
      modifies this, executor
      ensures WellKept() && Funded() && (broken == old(broken) || cancelled)
      ensures dispatched <= old(dispatched) + profile.maxToolCalls + 1
      ensures |executed| <= |old(executed)| + profile.maxToolCalls && old(executed) <= executed
      ensures Distinct(executed[|old(executed)|..]) && (guided ==> executed == old(executed))
      ensures old(unknownCost) && profile.maxCost.Some? ==> dispatched == old(dispatched)
      ensures r.state.AwaitingLocalReview? <==> pendingReview.Some?
      ensures r.pendingOperation.Some? <==> pendingReview.Some?
      ensures pendingReview.Some? ==>
                pendingReview.value.0 == r.state.operation && r.state.operation !in executor.prepared
    {
      var t := Tally(0, {}, 0, [], []);
      ghost var before := executed;
      while true
        invariant WellKept() && Funded() && messages != [] && pendingReview == None
        invariant broken == old(broken) || cancelled
        invariant Tallied(t, before) && dispatched <= old(dispatched) + t.made && (guided ==> t.keys == [])
        invariant old(unknownCost) && profile.maxCost.Some? ==> dispatched == old(dispatched) && unknownCost
        decreases profile.maxToolCalls - t.made
      {
        assert executed[|before|..] == t.keys;
        var asked := Ask(guided);
        if asked.Err? {
          return Run(asked.error, t.tools, None);
        }
        var end: Option<Run>;
        end, t := CallsOf(asked.value, t, before);
        assert executed[|before|..] == t.keys;
        if end.Some? {
          return end.value;
        }
      }
    }

    ghost predicate Tallied(t: Tally, before: seq<string>)
      reads `executed
    {
      t.made <= profile.maxToolCalls && executed == before + t.keys && Sparing(t)
    }

    /** The proposals of one response: refused as a whole, or handled as one batch. */
    method CallsOf(calls: seq<Call>, t: Tally, ghost before: seq<string>) returns (end: Option<Run>, n: Tally)
      requires WellKept() && messages != [] && pendingReview == None && calls != [] && Tallied(t, before)
      modifies `messages, `pendingReview, `broken, `cancelled, `polls, `readings, `executed
      modifies executor`prepared, executor`callIds
      ensures WellKept() && messages != [] && Tallied(n, before)
      ensures end.None? ==> n.made > t.made && pendingReview == None
      ensures (broken == old(broken) || cancelled) && (old(cancelled) ==> cancelled)
      ensures end.Some? ==>
                && (end.value.state.AwaitingLocalReview? <==> pendingReview.Some?)
                && (end.value.pendingOperation.Some? <==> pendingReview.Some?)
                && (pendingReview.Some? ==> pendingReview.value.0 == end.value.state.operation
                                            && end.value.state.operation !in executor.prepared)
    {
      var stop, known := AdmitCalls(calls, t.made, t.repeated);
      if stop.Some? {
        return Some(Run(stop.value, t.tools, None)), t;
      }
      var b, e := RunBatch(calls);
      n := Tally(t.made + |calls|, known, t.rejections + b.rejected, t.tools + b.tools, t.keys + Keys(calls[..e]));
      SparingGrows(t, calls, e, n);
      if b.state.Some? {
        return Some(Run(b.state.value, n.tools, b.pendingOperation)), n;
      }
      return if n.rejections > 1 then Some(Run(AwaitingClarification, n.tools, None)) else None, n;
    }

    /** run_mode. */
    method RunMode(text: string, guided: bool) returns (r: Run)
      requires WellKept() && Funded()
      modifies this, executor
      ensures WellKept() && Funded() && (broken == old(broken) || cancelled)
      ensures dispatched <= old(dispatched) + profile.maxToolCalls + 1
      ensures |executed| <= |old(executed)| + profile.maxToolCalls && old(executed) <= executed
      ensures Distinct(executed[|old(executed)|..]) && (guided ==> executed == old(executed))
      ensures old(unknownCost) && profile.maxCost.Some? ==> dispatched == old(dispatched)
      ensures !profile.allowUserText || !ValidProfile(profile) || |text| > profile.maxContext ==>
                r.state.Failed? && messages == old(messages) && dispatched == old(dispatched)
      ensures old(pendingReview).Some? ==>
                r.state.Failed? && messages == old(messages) && pendingReview == old(pendingReview)
                && dispatched == old(dispatched) && executed == old(executed)
      ensures old(pendingReview).None? ==>
                && (r.state.AwaitingLocalReview? <==> pendingReview.Some?)
                && (r.pendingOperation.Some? <==> pendingReview.Some?)
                && (pendingReview.Some? ==> pendingReview.value.0 == r.state.operation
                                            && r.state.operation !in executor.prepared)
    {
      if !profile.allowUserText {
        return Run(Failed("disclosure_policy"), [], None);
      }
      if pendingReview.Some? {
        return Run(Failed("review_pending"), [], None);
      }
      if !ValidProfile(profile) {
        return Run(Failed("invalid_profile"), [], None);
      }
      if |text| > profile.maxContext {
        return Run(Failed("context_limit"), [], None);
      }
      StartTurn(text);
      r := RunTurns(guided);
    }
  }
}
