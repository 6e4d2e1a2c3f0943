/** The conversation of one agent session: its turns, the pairing of tool calls with their
    answers, and the eviction of old turns. */
module AgentHistory {
  import opened Results

  /** A proposed call; `handle` is the local handle that its arguments name, if they parse. */
  datatype Call = Call(id: string, name: string, arguments: string, handle: Option<string>)

  datatype Message =
    | System
    | User(text: string)
    | Reply(text: string)
    | Calls(calls: seq<Call>)
    | Answer(id: string)

  // ---------------------------------------------------------------------------------
  // Pairing
  // ---------------------------------------------------------------------------------

  /** The answers to these calls in their order, but for one that is still due. */
  function Answered(calls: seq<Call>, due: Option<nat>): seq<Message>
    decreases |calls|
  {
    if calls == [] then []
    else
      var last := |calls| - 1;
      Answered(calls[..last], due) + (if due == Some(last) then [] else [Answer(calls[last].id)])
  }

  lemma {:induction false} AnsweredLength(calls: seq<Call>, due: Option<nat>)
    ensures |Answered(calls, due)| == |calls| - (if due.Some? && due.value < |calls| then 1 else 0)
    ensures forall m | m in Answered(calls, due) :: m.Answer?
    decreases |calls|
  {
    if calls != [] {
      AnsweredLength(calls[..|calls| - 1], due);
    }
  }

  lemma {:induction false} NoneDueYet(calls: seq<Call>, due: nat)
    requires |calls| <= due
    ensures Answered(calls, Some(due)) == Answered(calls, None)
    decreases |calls|
  {
    if calls != [] {
      NoneDueYet(calls[..|calls| - 1], due);
    }
  }

  /** All calls are answered: in order, or with the reviewed one moved to the end. */
  ghost predicate Complete(answers: seq<Message>, calls: seq<Call>) {
    || answers == Answered(calls, None)
    || (exists r: nat :: r < |calls| && answers == Answered(calls, Some(r)) + [Answer(calls[r].id)])
  }

  function AnswersTo(calls: seq<Call>): multiset<Message>
    decreases |calls|
  {
    if calls == [] then multiset{}
    else AnswersTo(calls[..|calls| - 1]) + multiset{Answer(calls[|calls| - 1].id)}
  }

  lemma {:induction false} AnsweredIsMost(calls: seq<Call>, due: Option<nat>)
    ensures multiset(Answered(calls, due))
            + (if due.Some? && due.value < |calls| then multiset{Answer(calls[due.value].id)} else multiset{})
         == AnswersTo(calls)
    decreases |calls|
  {
    if calls != [] {
      AnsweredIsMost(calls[..|calls| - 1], due);
    }
  }

  /** In a complete group every call has exactly one answer, and nothing else is there. */
  lemma CompleteAnswersOnce(answers: seq<Message>, calls: seq<Call>)
    requires Complete(answers, calls)
    ensures multiset(answers) == AnswersTo(calls)
  {
    if answers == Answered(calls, None) {
      AnsweredIsMost(calls, None);
    } else {
      var r: nat :| r < |calls| && answers == Answered(calls, Some(r)) + [Answer(calls[r].id)];
      AnsweredIsMost(calls, Some(r));
    }
  }

  lemma CompleteLength(answers: seq<Message>, calls: seq<Call>)
    requires Complete(answers, calls)
    ensures |answers| == |calls| && forall m | m in answers :: m.Answer?
  {
    AnsweredLength(calls, None);
    if answers != Answered(calls, None) {
      var r: nat :| r < |calls| && answers == Answered(calls, Some(r)) + [Answer(calls[r].id)];
      AnsweredLength(calls, Some(r));
    }
  }

  /** A group of calls at the front of the history, with all its answers behind it. */
  ghost predicate GroupFirst(h: seq<Message>) {
    h != [] && h[0].Calls? && h[0].calls != [] && |h| > |h[0].calls| && Complete(h[1..|h[0].calls| + 1], h[0].calls)
  }

  /** Every call is answered before anything else is said. */
  ghost predicate Paired(h: seq<Message>)
    decreases |h|
  {
    if h == [] then true
    else if h[0].User? || h[0].Reply? then Paired(h[1..])
    else GroupFirst(h) && Paired(h[|h[0].calls| + 1..])
  }

  /** Paired but for the last group, where the answer to this call is still due. */
  ghost predicate AwaitsAnswer(h: seq<Message>, id: string)
    decreases |h|
  {
    if h == [] then false
    else if h[0].User? || h[0].Reply? then AwaitsAnswer(h[1..], id)
    else if GroupFirst(h) then AwaitsAnswer(h[|h[0].calls| + 1..], id)
    else h[0].Calls? && DueIn(h[0].calls, h[1..], id)
  }

  ghost predicate DueIn(calls: seq<Call>, answers: seq<Message>, id: string) {
    exists r: nat :: r < |calls| && calls[r].id == id && answers == Answered(calls, Some(r))
  }

  lemma GroupAppend(a: seq<Message>, b: seq<Message>)
    requires GroupFirst(a)
    ensures GroupFirst(a + b) && (a + b)[|a[0].calls| + 1..] == a[|a[0].calls| + 1..] + b
  {
    assert (a + b)[1..|a[0].calls| + 1] == a[1..|a[0].calls| + 1];
  }

  lemma {:induction false} PairedAppend(a: seq<Message>, b: seq<Message>, id: string)
    requires Paired(a)
    ensures Paired(a + b) <==> Paired(b)
    ensures AwaitsAnswer(a + b, id) <==> AwaitsAnswer(b, id)
    decreases |a|
  {
    if a == [] {
      assert a + b == b;
    } else if a[0].User? || a[0].Reply? {
      assert (a + b)[1..] == a[1..] + b;
      PairedAppend(a[1..], b, id);
    } else {
      GroupAppend(a, b);
      PairedAppend(a[|a[0].calls| + 1..], b, id);
    }
  }

  lemma GroupIsPaired(calls: seq<Call>, answers: seq<Message>)
    requires calls != [] && Complete(answers, calls)
    ensures Paired([Calls(calls)] + answers)
  {
    CompleteLength(answers, calls);
    var h := [Calls(calls)] + answers;
    assert h[1..|calls| + 1] == answers && h[|calls| + 1..] == [];
  }

  lemma GroupAwaits(calls: seq<Call>, r: nat)
    requires r < |calls|
    ensures AwaitsAnswer([Calls(calls)] + Answered(calls, Some(r)), calls[r].id)
  {
    AnsweredLength(calls, Some(r));
    var h := [Calls(calls)] + Answered(calls, Some(r));
    assert h[1..] == Answered(calls, Some(r));
    assert DueIn(calls, h[1..], calls[r].id);
  }

  lemma LastAnswerCompletes(calls: seq<Call>, answers: seq<Message>, id: string)
    requires DueIn(calls, answers, id)
    ensures |answers| + 1 == |calls| && Complete(answers + [Answer(id)], calls)
  {
    var r: nat :| r < |calls| && calls[r].id == id && answers == Answered(calls, Some(r));
    AnsweredLength(calls, Some(r));
  }

  /** The missing answer completes the pairing; until then the history is not paired. */
  lemma {:induction false} AnswerCompletes(h: seq<Message>, id: string)
    requires AwaitsAnswer(h, id)
    ensures Paired(h + [Answer(id)]) && !Paired(h)
    decreases |h|
  {
    var all := h + [Answer(id)];
    if h[0].User? || h[0].Reply? {
      AnswerCompletes(h[1..], id);
      assert all[1..] == h[1..] + [Answer(id)];
    } else if GroupFirst(h) {
      GroupAppend(h, [Answer(id)]);
      AnswerCompletes(h[|h[0].calls| + 1..], id);
    } else {
      LastAnswerCompletes(h[0].calls, h[1..], id);
      GroupIsPaired(h[0].calls, h[1..] + [Answer(id)]);
      assert [Calls(h[0].calls)] + (h[1..] + [Answer(id)]) == all;
    }
  }

  // ---------------------------------------------------------------------------------
  // Interruption
  // ---------------------------------------------------------------------------------

  /** A group of calls that was cut short: some call has no answer. */
  ghost predicate CutShort(calls: seq<Call>, answers: seq<Message>) {
    |answers| < |calls| && forall m | m in answers :: m.Answer?
  }

  /** Later messages that do not begin with an answer, as those of a session do. */
  predicate NoAnswerFirst(more: seq<Message>) { more == [] || !more[0].Answer? }

  lemma CutGroupUnpaired(calls: seq<Call>, answers: seq<Message>, more: seq<Message>)
    requires CutShort(calls, answers) && NoAnswerFirst(more)
    ensures !Paired([Calls(calls)] + answers + more)
  {
    var h := [Calls(calls)] + answers + more;
    if |h| > |calls| {
      var group := h[1..|calls| + 1];
      assert group[|answers|] == more[0] && more[0] in group;
      if Complete(group, calls) {
        CompleteLength(group, calls);
      }
    }
  }

  /** A paired history, a cut group, and what was said after it. */
  function Interrupted(a: seq<Message>, calls: seq<Call>, answers: seq<Message>, more: seq<Message>): seq<Message> {
    a + ([Calls(calls)] + answers + more)
  }

  /** Nothing that is said later repairs a cut group, as long as it is in the history. */
  lemma NothingRepairs(a: seq<Message>, calls: seq<Call>, answers: seq<Message>, more: seq<Message>)
    requires Paired(a) && CutShort(calls, answers) && NoAnswerFirst(more)
    ensures !Paired(Interrupted(a, calls, answers, more))
  {
    CutGroupUnpaired(calls, answers, more);
    PairedAppend(a, [Calls(calls)] + answers + more, "");
  }

  lemma UsersInInterrupted(a: seq<Message>, calls: seq<Call>, answers: seq<Message>, more: seq<Message>, t: nat)
    requires CutShort(calls, answers) && t < |Interrupted(a, calls, answers, more)|
    requires Interrupted(a, calls, answers, more)[t].User?
    ensures t < |a| || t > |a| + |answers|
  {
    var h := Interrupted(a, calls, answers, more);
    assert h[|a|] == Calls(calls);
    forall i | |a| < i <= |a| + |answers| ensures h[i].Answer? {
      assert h[i] == answers[i - |a| - 1] && answers[i - |a| - 1] in answers;
    }
  }

  lemma DropBefore(a: seq<Message>, calls: seq<Call>, answers: seq<Message>, more: seq<Message>, t: nat)
    requires t <= |a|
    ensures Interrupted(a, calls, answers, more)[t..] == Interrupted(a[t..], calls, answers, more)
  {
  }

  lemma DropBehind(a: seq<Message>, calls: seq<Call>, answers: seq<Message>, more: seq<Message>, u: nat)
    requires u <= |more|
    ensures Interrupted(a, calls, answers, more)[|a| + 1 + |answers| + u..] == more[u..]
  {
    var group := [Calls(calls)] + answers + more;
    assert Interrupted(a, calls, answers, more)[|a| + 1 + |answers| + u..] == group[1 + |answers| + u..];
  }

  lemma KeptWithGroup(a: seq<Message>, calls: seq<Call>, answers: seq<Message>, more: seq<Message>, t: nat)
    requires Paired(a) && CutShort(calls, answers) && NoAnswerFirst(more) && t < |a| && a[t].User?
    ensures !Paired(Interrupted(a, calls, answers, more)[t..])
  {
    PairedFrom(a, t);
    NothingRepairs(a[t..], calls, answers, more);
    DropBefore(a, calls, answers, more, t);
  }

  lemma KeptWithoutGroup(a: seq<Message>, calls: seq<Call>, answers: seq<Message>, more: seq<Message>, u: nat)
    requires Paired(more) && u < |more| && more[u].User?
    ensures Paired(Interrupted(a, calls, answers, more)[|a| + 1 + |answers| + u..])
  {
    PairedFrom(more, u);
    DropBehind(a, calls, answers, more, u);
  }

  /** Eviction repairs it exactly when it evicts the cut turn itself. */
  lemma EvictionRepairsExactly(a: seq<Message>, calls: seq<Call>, answers: seq<Message>, more: seq<Message>, t: nat)
    requires Paired(a) && Paired(more) && CutShort(calls, answers) && NoAnswerFirst(more)
    requires t < |Interrupted(a, calls, answers, more)| && Interrupted(a, calls, answers, more)[t].User?
    ensures Paired(Interrupted(a, calls, answers, more)[t..]) <==> t > |a|
  {
    UsersInInterrupted(a, calls, answers, more, t);
    if t < |a| {
      KeptWithGroup(a, calls, answers, more, t);
    } else {
      KeptWithoutGroup(a, calls, answers, more, t - |a| - 1 - |answers|);
    }
  }

  lemma GroupBefore(h: seq<Message>, a: seq<Message>)
    requires GroupFirst(h) && Paired(a)
    ensures Paired(h[..|h[0].calls| + 1] + a)
  {
    var n := |h[0].calls| + 1;
    GroupIsPaired(h[0].calls, h[1..n]);
    assert h[..n] == [Calls(h[0].calls)] + h[1..n];
    PairedAppend(h[..n], a, "");
  }

  lemma InterruptedBehind(front: seq<Message>, a: seq<Message>, calls: seq<Call>, answers: seq<Message>)
    ensures front + Interrupted(a, calls, answers, []) == Interrupted(front + a, calls, answers, [])
  {
  }

  /** A history that awaits an answer is a paired one with a cut group behind it. */
  lemma {:induction false} AwaitsSplits(h: seq<Message>, id: string)
    returns (a: seq<Message>, calls: seq<Call>, answers: seq<Message>)
    requires AwaitsAnswer(h, id)
    ensures h == Interrupted(a, calls, answers, []) && Paired(a) && CutShort(calls, answers)
    decreases |h|
  {
    if h[0].User? || h[0].Reply? {
      var rest;
      rest, calls, answers := AwaitsSplits(h[1..], id);
      a := [h[0]] + rest;
      assert a[1..] == rest;
      InterruptedBehind([h[0]], rest, calls, answers);
      assert h == [h[0]] + h[1..];
    } else if GroupFirst(h) {
      var n := |h[0].calls| + 1;
      var rest;
      rest, calls, answers := AwaitsSplits(h[n..], id);
      a := h[..n] + rest;
      GroupBefore(h, rest);
      InterruptedBehind(h[..n], rest, calls, answers);
      assert h == h[..n] + h[n..];
    } else {
      a, calls, answers := [], h[0].calls, h[1..];
      DueAreAnswers(calls, answers, id);
      assert h == [h[0]] + h[1..];
    }
  }

  lemma DueAreAnswers(calls: seq<Call>, answers: seq<Message>, id: string)
    requires DueIn(calls, answers, id)
    ensures CutShort(calls, answers)
  {
    var r: nat :| r < |calls| && calls[r].id == id && answers == Answered(calls, Some(r));
    AnsweredLength(calls, Some(r));
  }

  // ---------------------------------------------------------------------------------
  // Eviction
  // ---------------------------------------------------------------------------------

  function Users(h: seq<Message>): nat {
    if h == [] then 0 else (if h[0].User? then 1 else 0) + Users(h[1..])
  }

  /** The first user message of a history, if there is one. */
  function FirstUser(h: seq<Message>): nat {
    if h == [] || h[0].User? then 0 else 1 + FirstUser(h[1..])
  }

  lemma {:induction false} FirstUserIs(h: seq<Message>)
    requires Users(h) > 0
    ensures FirstUser(h) < |h| && h[FirstUser(h)].User? && Users(h[FirstUser(h)..]) == Users(h)
    decreases |h|
  {
    if !h[0].User? {
      FirstUserIs(h[1..]);
      assert h[FirstUser(h)..] == h[1..][FirstUser(h[1..])..];
    } else {
      assert h[0..] == h;
    }
  }

  /** The index of the second user message. */
  function SecondTurn(h: seq<Message>): nat {
    FirstUser(h) + 1 + FirstUser(if FirstUser(h) < |h| then h[FirstUser(h) + 1..] else [])
  }

  lemma SecondTurnIs(h: seq<Message>)
    requires Users(h) > 1
    ensures 0 < SecondTurn(h) < |h| && h[SecondTurn(h)].User? && Users(h[SecondTurn(h)..]) == Users(h) - 1
  {
    FirstUserIs(h);
    var a := FirstUser(h);
    assert h[a..][1..] == h[a + 1..];
    FirstUserIs(h[a + 1..]);
    assert h[a + 1..][FirstUser(h[a + 1..])..] == h[SecondTurn(h)..];
  }

  /** Remove everything between the system message and the second user message. */
  function Evict(h: seq<Message>): seq<Message>
    requires h != [] && Users(h[1..]) > 1
  {
    SecondTurnIs(h[1..]);
    [h[0]] + h[1..][SecondTurn(h[1..])..]
  }

  lemma EvictShrinks(h: seq<Message>)
    requires h != [] && Users(h[1..]) > 1
    ensures Evict(h)[0] == h[0] && Users(Evict(h)[1..]) == Users(h[1..]) - 1 && |Evict(h)| < |h|
  {
    SecondTurnIs(h[1..]);
  }

  /** The history that is sent: the first in the line of evictions that fits. */
  function Bounded(h: seq<Message>, fits: seq<Message> -> bool): Option<seq<Message>>
    requires h != []
    decreases |h|
  {
    if fits(h) then Some(h)
    else if Users(h[1..]) <= 2 then None
    else
      EvictShrinks(h);
      Bounded(Evict(h), fits)
  }

  /** What is left when the evictions stop, whether or not it fits. */
  function Remaining(h: seq<Message>, fits: seq<Message> -> bool): seq<Message>
    requires h != []
    decreases |h|
  {
    if fits(h) || Users(h[1..]) <= 2 then h
    else
      EvictShrinks(h);
      Remaining(Evict(h), fits)
  }

  lemma {:induction false} PairedFrom(h: seq<Message>, j: nat)
    requires Paired(h) && j < |h| && h[j].User?
    ensures Paired(h[j..])
    decreases |h|
  {
    if j == 0 {
      assert h[0..] == h;
    } else if h[0].User? || h[0].Reply? {
      PairedFrom(h[1..], j - 1);
      assert h[1..][j - 1..] == h[j..];
    } else {
      var n := |h[0].calls| + 1;
      CompleteLength(h[1..n], h[0].calls);
      forall i | 1 <= i < n ensures h[i].Answer? {
        assert h[1..n][i - 1] in h[1..n];
      }
      PairedFrom(h[n..], j - n);
      assert h[n..][j - n..] == h[j..];
    }
  }

  /** The system message, and the old history from one of its user messages on. */
  predicate TailOf(h: seq<Message>, kept: seq<Message>) {
    && 0 < |kept| <= |h| && kept[0] == h[0] && kept[1..] == h[|h| - |kept| + 1..]
    && (|kept| < |h| ==> |kept| > 1 && h[|h| - |kept| + 1].User?)
  }

  lemma TailTransitive(h: seq<Message>, k: seq<Message>, l: seq<Message>)
    requires TailOf(h, k) && TailOf(k, l)
    ensures TailOf(h, l)
  {
    var i, j := |h| - |k|, |k| - |l|;
    assert forall x | 1 <= x < |k| :: k[x] == k[1..][x - 1] == h[i + x];
    assert forall x | 1 <= x < |l| :: l[x] == l[1..][x - 1] == k[j + x];
    assert l[1..] == h[i + j + 1..];
  }

  lemma TailPaired(h: seq<Message>, kept: seq<Message>)
    requires TailOf(h, kept) && Paired(h[1..])
    ensures Paired(kept[1..])
  {
    if |kept| < |h| {
      var t := |h| - |kept|;
      PairedFrom(h[1..], t);
      assert h[1..][t..] == h[t + 1..];
    }
  }

  lemma EvictTail(h: seq<Message>)
    requires h != [] && Users(h[1..]) > 1
    ensures TailOf(h, Evict(h))
  {
    SecondTurnIs(h[1..]);
    var t := SecondTurn(h[1..]);
    assert h[1..][t..] == h[t + 1..];
  }

  /** Eviction terminates and removes only whole oldest turns: the system message and at least
      the two newest turns stay, and so does the pairing.  What is sent is what is kept. */
  lemma {:induction false} EvictionKeepsTurns(h: seq<Message>, fits: seq<Message> -> bool)
    requires h != []
    ensures var kept := Remaining(h, fits);
            && TailOf(h, kept) && (kept == h || Users(kept[1..]) >= 2) && (Paired(h[1..]) ==> Paired(kept[1..]))
            && (Bounded(h, fits).Some? <==> fits(kept)) && (fits(kept) ==> Bounded(h, fits) == Some(kept))
            && (!fits(kept) ==> Users(kept[1..]) <= 2)
    decreases |h|
  {
    if !fits(h) && Users(h[1..]) > 2 {
      EvictShrinks(h);
      EvictTail(h);
      EvictionKeepsTurns(Evict(h), fits);
      TailTransitive(h, Evict(h), Remaining(h, fits));
    }
    if Paired(h[1..]) {
      TailPaired(h, Remaining(h, fits));
    }
  }
}
