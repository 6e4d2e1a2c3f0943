/** The broker's fair admission queue: three slots host-wide, one per account, at most two
    waiting entries per account and sixty-four in all.  The goroutines that call it
    interleave at mutex critical sections, so each section is one step of a run. */
module BrokerQueue {

  type Account = string

  const SLOTS: nat := 3
  const PER_ACCOUNT: nat := 2
  const CAPACITY: nat := 64

  /** A waiter as a value: its arrival number stands for the reference's identity. */
  datatype Entry = Entry(ticket: nat, account: Account)

  /** What the mutex guards, with the log of every grant ever made. */
  datatype Line = Line(active: set<Account>, waiting: seq<Entry>, grants: seq<Entry>)

  // ---------------------------------------------------------------------------------
  // The scheduling rule on values
  // ---------------------------------------------------------------------------------

  /** The index of the oldest waiter whose account holds no slot, or the length. */
  function FirstEligible(active: set<Account>, waiting: seq<Entry>): (at: nat)
    ensures at <= |waiting|
    ensures forall i | 0 <= i < at :: waiting[i].account in active
    ensures at < |waiting| ==> waiting[at].account !in active
  {
    if waiting == [] || waiting[0].account !in active then 0
    else 1 + FirstEligible(active, waiting[1..])
  }

  function Without(waiting: seq<Entry>, at: nat): seq<Entry>
    requires at < |waiting|
  {
    waiting[..at] + waiting[at + 1..]
  }

  function GrantAt(q: Line, at: nat): Line
    requires at < |q.waiting|
  {
    Line(q.active + {q.waiting[at].account}, Without(q.waiting, at), q.grants + [q.waiting[at]])
  }

  function Schedule(q: Line): Line
    decreases |q.waiting|
  {
    var at := FirstEligible(q.active, q.waiting);
    if |q.active| >= SLOTS || at == |q.waiting| then q else Schedule(GrantAt(q, at))
  }

  function Count(waiting: seq<Entry>, account: Account): nat {
    if waiting == [] then 0
    else (if waiting[0].account == account then 1 else 0) + Count(waiting[1..], account)
  }

  predicate Refused(q: Line, account: Account) {
    Count(q.waiting, account) >= PER_ACCOUNT || |q.waiting| >= CAPACITY
  }

  /** The loop that finds a cancelled waiter's own entry. */
  function IndexOf(waiting: seq<Entry>, ticket: nat): (at: nat)
    ensures at <= |waiting|
    ensures at < |waiting| ==> waiting[at].ticket == ticket
    ensures forall i | 0 <= i < at :: waiting[i].ticket != ticket
  {
    if waiting == [] || waiting[0].ticket == ticket then 0 else 1 + IndexOf(waiting[1..], ticket)
  }

  function Arrived(q: Line, e: Entry): Line {
    q.(waiting := q.waiting + [e])
  }

  function Freed(q: Line, account: Account): Line {
    q.(active := q.active - {account})
  }

  function Withdrawn(q: Line, ticket: nat): Line {
    var at := IndexOf(q.waiting, ticket);
    if at < |q.waiting| then q.(waiting := Without(q.waiting, at)) else q
  }

  // ---------------------------------------------------------------------------------
  // One scheduling pass
  // ---------------------------------------------------------------------------------

  ghost predicate Ordered(waiting: seq<Entry>) {
    forall i, j | 0 <= i < j < |waiting| :: waiting[i].ticket < waiting[j].ticket
  }

  ghost predicate WorkConserving(q: Line) {
    |q.active| == SLOTS || forall e | e in q.waiting :: e.account in q.active
  }

  function Fresh(before: Line, after: Line): seq<Entry> {
    if |before.grants| <= |after.grants| then after.grants[|before.grants|..] else []
  }

  /** How a scheduling pass may relate the line before it to the line after it. */
  ghost predicate Pass(q: Line, r: Line) {
    && q.grants <= r.grants
    && Ordered(r.waiting)
    && |r.active| <= SLOTS
    && (forall e :: e in q.waiting <==> e in r.waiting || e in Fresh(q, r))
    && (forall e | e in Fresh(q, r) :: e !in r.waiting && e.account !in q.active)
    && (forall a :: a in r.active <==> a in q.active || exists e | e in Fresh(q, r) :: e.account == a)
    && (forall i, j | 0 <= i < j < |Fresh(q, r)| :: Fresh(q, r)[i].account != Fresh(q, r)[j].account)
    && (forall a :: Count(r.waiting, a) <= Count(q.waiting, a))
    && (forall e, f | e in Fresh(q, r) && f in r.waiting && f.ticket < e.ticket ::
          f.account in r.active && f.account != e.account)
  }

  lemma {:induction false} CountAppend(waiting: seq<Entry>, e: Entry, account: Account)
    ensures Count(waiting + [e], account)
         == Count(waiting, account) + (if e.account == account then 1 else 0)
  {
    if waiting != [] {
      assert (waiting + [e])[1..] == waiting[1..] + [e];
      CountAppend(waiting[1..], e, account);
    }
  }

  lemma {:induction false} CountWithout(waiting: seq<Entry>, at: nat, account: Account)
    requires at < |waiting|
    ensures Count(waiting, account) == Count(Without(waiting, at), account)
                                       + (if waiting[at].account == account then 1 else 0)
  {
    if at == 0 {
      assert Without(waiting, 0) == waiting[1..];
    } else {
      assert Without(waiting, at)[1..] == Without(waiting[1..], at - 1);
      CountWithout(waiting[1..], at - 1, account);
    }
  }

  lemma WithoutMembers(waiting: seq<Entry>, at: nat)
    requires at < |waiting| && Ordered(waiting)
    ensures Ordered(Without(waiting, at))
    ensures forall e :: e in waiting <==> e in Without(waiting, at) || e == waiting[at]
    ensures waiting[at] !in Without(waiting, at)
  {
    assert waiting == waiting[..at] + [waiting[at]] + waiting[at + 1..];
  }

  lemma GrantIsPass(q: Line, at: nat)
    requires Ordered(q.waiting) && |q.active| < SLOTS
    requires at == FirstEligible(q.active, q.waiting) < |q.waiting|
    ensures Pass(q, GrantAt(q, at))
  {
    var r := GrantAt(q, at);
    var e := q.waiting[at];
    WithoutMembers(q.waiting, at);
    forall a ensures Count(r.waiting, a) <= Count(q.waiting, a) {
      CountWithout(q.waiting, at, a);
    }
    assert Fresh(q, r) == [e];
  }

  lemma PassComposes(q: Line, m: Line, r: Line)
    requires Pass(q, m) && Pass(m, r)
    requires q.active <= m.active <= r.active
    ensures Pass(q, r)
  {
    var f := Fresh(q, m);
    var g := Fresh(m, r);
    assert Fresh(q, r) == f + g;
    forall a ensures Count(r.waiting, a) <= Count(q.waiting, a) {
      assert Count(r.waiting, a) <= Count(m.waiting, a);
    }
    forall a ensures a in r.active <==> a in q.active || exists e: Entry | e in f + g :: e.account == a {
      if a in r.active && a !in m.active {
        var e :| e in g && e.account == a;
        assert e in f + g;
      } else if a in m.active && a !in q.active {
        var e :| e in f && e.account == a;
        assert e in f + g;
      }
    }
    forall i, j | 0 <= i < j < |f + g| ensures (f + g)[i].account != (f + g)[j].account {
      if i < |f| <= j {
        assert f[i] in f && g[j - |f|] in g;
        assert f[i].account in m.active && g[j - |f|].account !in m.active;
      }
    }
  }

  /** A scheduling pass never overtakes an eligible waiter, hands out at most one slot per
      account and stops only when it has nothing left to hand out. */
  lemma {:induction false} ScheduleIsPass(q: Line)
    requires Ordered(q.waiting) && |q.active| <= SLOTS
    ensures Pass(q, Schedule(q)) && q.active <= Schedule(q).active
    ensures WorkConserving(Schedule(q))
    decreases |q.waiting|
  {
    var at := FirstEligible(q.active, q.waiting);
    if |q.active| >= SLOTS || at == |q.waiting| {
      assert Fresh(q, q) == [];
    } else {
      GrantIsPass(q, at);
      ScheduleIsPass(GrantAt(q, at));
      PassComposes(q, GrantAt(q, at), Schedule(q));
    }
  }

  // ---------------------------------------------------------------------------------
  // Runs: every interleaving of callers
  // ---------------------------------------------------------------------------------

  /** Where one caller of Acquire is.  `Granted` is the window in which its flag is set but
      its select has not yet run: a cancellation may still win the race there. */
  datatype Phase = Queued | Granted | Held | Over

  datatype Caller = Caller(account: Account, phase: Phase)

  datatype State = State(line: Line, callers: map<nat, Caller>, next: nat)

  datatype Event =
    | Arrive(account: Account)   // first critical section of Acquire
    | Claim(ticket: nat)         // the select takes the ready channel
    | Cancel(ticket: nat)        // the select takes ctx.Done, second critical section
    | Release(ticket: nat)       // the returned closure is called, perhaps not for the first time

  const Start := State(Line({}, [], []), map[], 0)

  predicate Holds(c: Caller) { c.phase == Granted || c.phase == Held }

  /** Setting the flag of every waiter the pass granted. */
  function Promote(callers: map<nat, Caller>, granted: seq<Entry>): map<nat, Caller> {
    map t | t in callers :: if exists e | e in granted :: e.ticket == t then callers[t].(phase := Granted)
                            else callers[t]
  }

  function Settle(s: State, line: Line): State {
    State(line, Promote(s.callers, Fresh(s.line, line)), s.next)
  }

  function Finish(s: State, ticket: nat): State
    requires ticket in s.callers
  {
    s.(callers := s.callers[ticket := s.callers[ticket].(phase := Over)])
  }

  /** Whether the event enters a critical section that ends in schedule. */
  predicate Schedules(s: State, event: Event) {
    match event
    case Arrive(account) => !Refused(s.line, account)
    case Claim(t) => false
    case Cancel(t) => t in s.callers && (s.callers[t].phase == Granted || s.callers[t].phase == Queued)
    case Release(t) => t in s.callers && s.callers[t].phase == Held   // sync.Once: later calls do nothing
  }

  /** What the section has made of the state when it calls schedule. */
  function Prepared(s: State, event: Event): State
    requires Schedules(s, event)
  {
    match event
    case Arrive(account) =>
      State(Arrived(s.line, Entry(s.next, account)), s.callers[s.next := Caller(account, Queued)], s.next + 1)
    case Cancel(t) =>
      if s.callers[t].phase == Granted then Finish(s, t).(line := Freed(s.line, s.callers[t].account))
      else Finish(s, t).(line := Withdrawn(s.line, t))
    case Release(t) => Finish(s, t).(line := Freed(s.line, s.callers[t].account))
  }

  function Claimed(s: State, t: nat): State {
    if t in s.callers && s.callers[t].phase == Granted
    then s.(callers := s.callers[t := s.callers[t].(phase := Held)]) else s
  }

  function Step(s: State, event: Event): State {
    if Schedules(s, event) then
      Settle(Prepared(s, event), Schedule(Prepared(s, event).line))
    else if event.Claim? then Claimed(s, event.ticket)
    else s
  }

  function Run(s: State, events: seq<Event>): State
    decreases |events|
  {
    if events == [] then s else Run(Step(s, events[0]), events[1..])
  }

  /** No slot leaks and none is handed out twice: the active accounts are those of the
      callers with one unfinished grant, and no two such callers share an account. */
  ghost predicate SlotsMatchHolders(s: State) {
    && (forall a :: a in s.line.active <==>
          exists t :: t in s.callers && Holds(s.callers[t]) && s.callers[t].account == a)
    && (forall t, u | t in s.callers && u in s.callers && Holds(s.callers[t]) && Holds(s.callers[u])
          && s.callers[t].account == s.callers[u].account :: t == u)
  }

  ghost predicate WaitersMatchCallers(s: State) {
    && (forall e | e in s.line.waiting :: e.ticket in s.callers && s.callers[e.ticket] == Caller(e.account, Queued))
    && (forall t | t in s.callers && s.callers[t].phase == Queued :: Entry(t, s.callers[t].account) in s.line.waiting)
  }

  /** Grants to one account are in arrival order, and none is later than a waiter of it. */
  ghost predicate GrantsInOrder(q: Line) {
    && (forall i, j | 0 <= i < j < |q.grants| && q.grants[i].account == q.grants[j].account ::
          q.grants[i].ticket < q.grants[j].ticket)
    && (forall g, w | g in q.grants && w in q.waiting && g.account == w.account :: g.ticket < w.ticket)
  }

  ghost predicate Bounded(q: Line) {
    && |q.active| <= SLOTS
    && Ordered(q.waiting)
    && |q.waiting| <= CAPACITY
    && (forall a :: Count(q.waiting, a) <= PER_ACCOUNT)
  }

  ghost predicate Numbered(s: State) {
    && (forall t | t in s.callers :: t < s.next)
    && (forall g | g in s.line.grants :: g.ticket < s.next)
  }

  /** What holds inside a critical section, before it calls schedule. */
  ghost predicate Sound(s: State) {
    Bounded(s.line) && Numbered(s) && SlotsMatchHolders(s) && WaitersMatchCallers(s) && GrantsInOrder(s.line)
  }

  ghost predicate Inv(s: State) {
    Sound(s) && WorkConserving(s.line)
  }

  lemma {:induction false} OrderedLength(q: seq<Entry>, r: seq<Entry>)
    requires Ordered(q) && Ordered(r) && forall e | e in r :: e in q
    ensures |r| <= |q|
  {
    if r != [] {
      assert r[0] in q && q == [q[0]] + q[1..];
      forall x | x in r[1..] ensures x in q[1..] {
        assert x in q && r[0].ticket < x.ticket;
      }
      OrderedLength(q[1..], r[1..]);
    }
  }

  lemma ServedAreQueued(s: State, r: Line)
    requires WaitersMatchCallers(s) && Pass(s.line, r)
    ensures forall e | e in Fresh(s.line, r) ::
              e.ticket in s.callers && s.callers[e.ticket] == Caller(e.account, Queued)
  {
    forall e | e in Fresh(s.line, r)
      ensures e.ticket in s.callers && s.callers[e.ticket] == Caller(e.account, Queued)
    {
      assert e in s.line.waiting;
    }
  }

  /** Who holds a slot after the pass: the earlier holders and those it served. */
  lemma SettledHolders(s: State, r: Line)
    requires WaitersMatchCallers(s) && Pass(s.line, r)
    ensures forall t | t in s.callers :: Holds(Settle(s, r).callers[t]) <==>
              Holds(s.callers[t]) || Entry(t, s.callers[t].account) in Fresh(s.line, r)
  {
    ServedAreQueued(s, r);
  }

  lemma SettleCovers(s: State, r: Line, a: Account)
    requires SlotsMatchHolders(s) && WaitersMatchCallers(s) && Pass(s.line, r)
    ensures a in r.active <==>
              exists t :: t in s.callers && Holds(Settle(s, r).callers[t]) && s.callers[t].account == a
  {
    SettledHolders(s, r);
    ServedAreQueued(s, r);
    if a in s.line.active {
      var t :| t in s.callers && Holds(s.callers[t]) && s.callers[t].account == a;
      assert Holds(Settle(s, r).callers[t]);
    } else if a in r.active {
      var e :| e in Fresh(s.line, r) && e.account == a;
      assert Holds(Settle(s, r).callers[e.ticket]);
    }
  }

  lemma SettleSlots(s: State, r: Line)
    requires SlotsMatchHolders(s) && WaitersMatchCallers(s) && Pass(s.line, r)
    ensures SlotsMatchHolders(Settle(s, r))
  {
    var n := Settle(s, r).callers;
    assert n.Keys == s.callers.Keys && forall t | t in n :: n[t].account == s.callers[t].account;
    forall a ensures a in r.active <==> exists t :: t in n && Holds(n[t]) && n[t].account == a {
      SettleCovers(s, r, a);
    }
    forall t, u | t in n && u in n && Holds(n[t]) && Holds(n[u]) && n[t].account == n[u].account ensures t == u {
      SettledHolders(s, r);
      OneHolder(s, r, t, u);
    }
  }

  lemma OneHolder(s: State, r: Line, t: nat, u: nat)
    requires SlotsMatchHolders(s) && Pass(s.line, r)
    requires t in s.callers && u in s.callers && s.callers[t].account == s.callers[u].account
    requires Holds(s.callers[t]) || Entry(t, s.callers[t].account) in Fresh(s.line, r)
    requires Holds(s.callers[u]) || Entry(u, s.callers[u].account) in Fresh(s.line, r)
    ensures t == u
  {
    var a := s.callers[t].account;
    if Entry(t, a) in Fresh(s.line, r) {
      assert a !in s.line.active;
      assert Entry(u, a) in Fresh(s.line, r);
    }
  }

  lemma SettleWaiters(s: State, r: Line)
    requires Sound(s) && Pass(s.line, r)
    ensures WaitersMatchCallers(Settle(s, r))
  {
    var s' := Settle(s, r);
    var served := Fresh(s.line, r);
    forall e | e in r.waiting
      ensures e.ticket in s'.callers && s'.callers[e.ticket] == Caller(e.account, Queued)
    {
      assert e in s.line.waiting;
      forall f | f in served ensures f.ticket != e.ticket {
        assert f in s.line.waiting && f != e;
      }
    }
    forall t | t in s'.callers && s'.callers[t].phase == Queued
      ensures Entry(t, s'.callers[t].account) in r.waiting
    {
      assert Entry(t, s.callers[t].account) in s.line.waiting;
      assert Entry(t, s.callers[t].account) !in served;
    }
  }

  lemma SettleOrder(s: State, r: Line)
    requires Sound(s) && Pass(s.line, r)
    ensures GrantsInOrder(r)
  {
    var q := s.line;
    var served := Fresh(q, r);
    assert r.grants == q.grants + served;
    forall i, j | |q.grants| <= i < j < |r.grants| ensures r.grants[i].account != r.grants[j].account {
      assert r.grants[i] == served[i - |q.grants|] && r.grants[j] == served[j - |q.grants|];
    }
    forall i, j | 0 <= i < j < |r.grants| && r.grants[i].account == r.grants[j].account
      ensures r.grants[i].ticket < r.grants[j].ticket
    {
      if i < |q.grants| <= j {
        assert r.grants[j] in served && r.grants[i] in q.grants;
        assert r.grants[j] in q.waiting;
      }
    }
    forall g, w | g in r.grants && w in r.waiting && g.account == w.account ensures g.ticket < w.ticket {
      assert w in q.waiting;
      if g !in q.grants {
        assert g in served;
        assert g != w && g in q.waiting;
      }
    }
  }

  lemma SettleKeeps(s: State, r: Line)
    requires Sound(s) && Pass(s.line, r) && WorkConserving(r)
    ensures Inv(Settle(s, r))
  {
    SettleSlots(s, r);
    SettleWaiters(s, r);
    SettleOrder(s, r);
    OrderedLength(s.line.waiting, r.waiting);
    forall a ensures Count(r.waiting, a) <= PER_ACCOUNT {
      assert Count(r.waiting, a) <= Count(s.line.waiting, a) <= PER_ACCOUNT;
    }
    forall g | g in r.grants ensures g.ticket < s.next {
      if g !in s.line.grants {
        assert g in Fresh(s.line, r);
        assert g in s.line.waiting;
      }
    }
  }

  lemma ArrivalBounded(q: Line, e: Entry)
    requires Bounded(q) && !Refused(q, e.account)
    requires forall w | w in q.waiting :: w.ticket < e.ticket
    ensures Bounded(Arrived(q, e))
  {
    forall a ensures Count(Arrived(q, e).waiting, a) <= PER_ACCOUNT {
      CountAppend(q.waiting, e, a);
      assert Count(q.waiting, a) <= PER_ACCOUNT;
    }
  }

  lemma ArrivalSlots(s: State, account: Account)
    requires SlotsMatchHolders(s) && Numbered(s) && Schedules(s, Arrive(account))
    ensures SlotsMatchHolders(Prepared(s, Arrive(account)))
  {
    HoldersKept(s, Prepared(s, Arrive(account)));
  }

  lemma ArrivalWaiters(s: State, account: Account)
    requires WaitersMatchCallers(s) && Numbered(s) && Schedules(s, Arrive(account))
    ensures WaitersMatchCallers(Prepared(s, Arrive(account)))
    ensures forall w | w in s.line.waiting :: w.ticket < s.next
  {
  }

  lemma ArrivalSound(s: State, account: Account)
    requires Inv(s) && Schedules(s, Arrive(account))
    ensures Sound(Prepared(s, Arrive(account)))
  {
    ArrivalSlots(s, account);
    ArrivalWaiters(s, account);
    ArrivalBounded(s.line, Entry(s.next, account));
  }

  lemma HoldersKept(s: State, u: State)
    requires SlotsMatchHolders(s) && u.line.active == s.line.active
    requires forall t :: t in u.callers && Holds(u.callers[t]) <==> t in s.callers && Holds(s.callers[t])
    requires forall t | t in u.callers && t in s.callers :: u.callers[t].account == s.callers[t].account
    ensures SlotsMatchHolders(u)
  {
    forall a ensures a in u.line.active <==>
                     exists t :: t in u.callers && Holds(u.callers[t]) && u.callers[t].account == a
    {
      if a in s.line.active {
        var t :| t in s.callers && Holds(s.callers[t]) && s.callers[t].account == a;
        assert t in u.callers && Holds(u.callers[t]) && u.callers[t].account == a;
      }
    }
  }

  lemma DepartureSlots(s: State, t: nat)
    requires SlotsMatchHolders(s) && t in s.callers && Holds(s.callers[t])
    ensures SlotsMatchHolders(Finish(s, t).(line := Freed(s.line, s.callers[t].account)))
  {
    var u := Finish(s, t).(line := Freed(s.line, s.callers[t].account));
    forall a ensures a in u.line.active <==>
                     exists v :: v in u.callers && Holds(u.callers[v]) && u.callers[v].account == a
    {
      if a in u.line.active {
        var v :| v in s.callers && Holds(s.callers[v]) && s.callers[v].account == a;
        assert v in u.callers && Holds(u.callers[v]) && u.callers[v].account == a;
      }
    }
  }

  lemma DepartureSound(s: State, t: nat)
    requires Inv(s) && t in s.callers && Holds(s.callers[t])
    ensures Sound(Finish(s, t).(line := Freed(s.line, s.callers[t].account)))
  {
    DepartureSlots(s, t);
  }

  lemma WithdrawnWaiters(s: State, t: nat)
    requires Inv(s) && t in s.callers && s.callers[t].phase == Queued
    ensures IndexOf(s.line.waiting, t) < |s.line.waiting|
    ensures WaitersMatchCallers(Finish(s, t).(line := Withdrawn(s.line, t)))
    ensures forall e | e in Withdrawn(s.line, t).waiting :: e in s.line.waiting
    ensures Bounded(Withdrawn(s.line, t))
  {
    assert Entry(t, s.callers[t].account) in s.line.waiting;
    var at := IndexOf(s.line.waiting, t);
    WithoutMembers(s.line.waiting, at);
    assert s.line.waiting[at] == Entry(t, s.callers[t].account);
    forall a ensures Count(Withdrawn(s.line, t).waiting, a) <= PER_ACCOUNT {
      CountWithout(s.line.waiting, at, a);
      assert Count(s.line.waiting, a) <= PER_ACCOUNT;
    }
  }

  lemma WithdrawalSlots(s: State, t: nat, line: Line)
    requires SlotsMatchHolders(s) && t in s.callers && s.callers[t].phase == Queued && line.active == s.line.active
    ensures SlotsMatchHolders(Finish(s, t).(line := line))
  {
    HoldersKept(s, Finish(s, t).(line := line));
  }

  lemma WithdrawalOrder(q: Line, r: Line)
    requires GrantsInOrder(q) && r.grants == q.grants && forall e | e in r.waiting :: e in q.waiting
    ensures GrantsInOrder(r)
  {
  }

  lemma WithdrawalSound(s: State, t: nat)
    requires Inv(s) && t in s.callers && s.callers[t].phase == Queued
    ensures Sound(Finish(s, t).(line := Withdrawn(s.line, t)))
  {
    WithdrawnWaiters(s, t);
    WithdrawalSlots(s, t, Withdrawn(s.line, t));
    WithdrawalOrder(s.line, Withdrawn(s.line, t));
  }

  lemma PreparedSound(s: State, event: Event)
    requires Inv(s) && Schedules(s, event)
    ensures Sound(Prepared(s, event))
  {
    match event
    case Arrive(account) => ArrivalSound(s, account);
    case Cancel(t) => if s.callers[t].phase == Granted { DepartureSound(s, t); } else { WithdrawalSound(s, t); }
    case Release(t) => DepartureSound(s, t);
  }

  lemma ClaimSlots(s: State, t: nat)
    requires SlotsMatchHolders(s)
    ensures SlotsMatchHolders(Claimed(s, t))
  {
    HoldersKept(s, Claimed(s, t));
  }

  lemma ClaimWaiters(s: State, t: nat)
    requires WaitersMatchCallers(s)
    ensures WaitersMatchCallers(Claimed(s, t))
  {
  }

  lemma ClaimKeeps(s: State, t: nat)
    requires Inv(s)
    ensures Inv(Claimed(s, t))
  {
    ClaimSlots(s, t);
    ClaimWaiters(s, t);
  }

  lemma SoundSettles(u: State)
    requires Sound(u)
    ensures Inv(Settle(u, Schedule(u.line)))
  {
    ScheduleIsPass(u.line);
    SettleKeeps(u, Schedule(u.line));
  }

  /** Every critical section keeps the invariant. */
  lemma StepKeeps(s: State, event: Event)
    requires Inv(s)
    ensures Inv(Step(s, event))
  {
    if Schedules(s, event) {
      PreparedSound(s, event);
      SoundSettles(Prepared(s, event));
    } else if event.Claim? {
      ClaimKeeps(s, event.ticket);
    }
  }

  lemma StepGrows(s: State, event: Event)
    ensures s.line.grants <= Step(s, event).line.grants && s.next <= Step(s, event).next
  {
    if Schedules(s, event) {
      ScheduleConserves(Prepared(s, event).line, 0);
    }
  }

  lemma {:induction false} RunGrows(s: State, events: seq<Event>)
    ensures s.line.grants <= Run(s, events).line.grants
    decreases |events|
  {
    if events != [] {
      StepGrows(s, events[0]);
      RunGrows(Step(s, events[0]), events[1..]);
    }
  }

  /** Safety over every interleaving of arrivals, claims, cancellations and releases. */
  lemma {:induction false} RunKeeps(s: State, events: seq<Event>)
    requires Inv(s)
    ensures Inv(Run(s, events))
    decreases |events|
  {
    if events != [] {
      StepKeeps(s, events[0]);
      RunKeeps(Step(s, events[0]), events[1..]);
    }
  }

  lemma ReachableSafe(events: seq<Event>)
    ensures Inv(Run(Start, events))
  {
    RunKeeps(Start, events);
  }

  lemma OverStays(s: State, event: Event, t: nat)
    requires Inv(s) && t in s.callers && s.callers[t].phase == Over
    ensures t in Step(s, event).callers && Step(s, event).callers[t].phase == Over
  {
    if Schedules(s, event) {
      PreparedSound(s, event);
      PreparedOver(s, event, t);
      OverSettles(Prepared(s, event), t);
    }
  }

  lemma PreparedOver(s: State, event: Event, t: nat)
    requires Numbered(s) && Schedules(s, event) && t in s.callers && s.callers[t].phase == Over
    ensures t in Prepared(s, event).callers && Prepared(s, event).callers[t].phase == Over
  {
  }

  lemma OverSettles(u: State, t: nat)
    requires Sound(u) && t in u.callers && u.callers[t].phase == Over
    ensures Settle(u, Schedule(u.line)).callers[t].phase == Over
  {
    ScheduleIsPass(u.line);
    ServedAreQueued(u, Schedule(u.line));
  }

  /** Once a caller is over, calling its closure again or cancelling it changes nothing, in
      every later state: it cannot free a slot that another caller now holds. */
  lemma {:induction false} OverIsIdle(s: State, t: nat, events: seq<Event>)
    requires Inv(s) && t in s.callers && s.callers[t].phase == Over
    ensures Step(Run(s, events), Release(t)) == Run(s, events)
    ensures Step(Run(s, events), Cancel(t)) == Run(s, events)
    decreases |events|
  {
    if events != [] {
      OverStays(s, events[0], t);
      StepKeeps(s, events[0]);
      OverIsIdle(Step(s, events[0]), t, events[1..]);
    }
  }

  // ---------------------------------------------------------------------------------
  // Fairness
  // ---------------------------------------------------------------------------------

  lemma FairSchedule(q: Line, overtaker: Entry, overtaken: Entry)
    requires Bounded(q)
    requires overtaker in Fresh(q, Schedule(q))
    requires overtaken in Schedule(q).waiting && overtaken.ticket < overtaker.ticket
    ensures overtaken.account in Schedule(q).active && overtaken.account != overtaker.account
  {
    ScheduleIsPass(q);
  }

  lemma StepIsSchedule(s: State, event: Event)
    requires Schedules(s, event)
    ensures Step(s, event).line == Schedule(Prepared(s, event).line)
    ensures Prepared(s, event).line.grants == s.line.grants
  {
  }

  /** In any step, a waiter that is overtaken belongs to an account that holds a slot at
      that moment, and never to the overtaker's own account. */
  lemma FairStep(s: State, event: Event, overtaker: Entry, overtaken: Entry)
    requires Inv(s)
    requires overtaker in Fresh(s.line, Step(s, event).line)
    requires overtaken in Step(s, event).line.waiting && overtaken.ticket < overtaker.ticket
    ensures overtaken.account in Step(s, event).line.active
    ensures overtaken.account != overtaker.account
  {
    StepIsSchedule(s, event);
    PreparedSound(s, event);
    FairSchedule(Prepared(s, event).line, overtaker, overtaken);
  }

  /** How many of these entries arrived before the given ticket. */
  function Older(entries: seq<Entry>, ticket: nat): nat {
    if entries == [] then 0 else (if entries[0].ticket < ticket then 1 else 0) + Older(entries[1..], ticket)
  }

  lemma {:induction false} OlderAppend(a: seq<Entry>, b: seq<Entry>, ticket: nat)
    ensures Older(a + b, ticket) == Older(a, ticket) + Older(b, ticket)
  {
    if a == [] {
      assert a + b == b;
    } else {
      assert (a + b)[1..] == a[1..] + b;
      OlderAppend(a[1..], b, ticket);
    }
  }

  lemma OlderWithout(waiting: seq<Entry>, at: nat, ticket: nat)
    requires at < |waiting|
    ensures Older(waiting, ticket) == Older([waiting[at]], ticket) + Older(Without(waiting, at), ticket)
  {
    OlderAppend(waiting[..at], waiting[at + 1..], ticket);
    OlderAppend([waiting[at]], waiting[at + 1..], ticket);
    OlderAppend(waiting[..at], [waiting[at]] + waiting[at + 1..], ticket);
    assert waiting == waiting[..at] + ([waiting[at]] + waiting[at + 1..]);
  }

  /** In arrival order, an entry's index is the number of older entries. */
  lemma {:induction false} OlderIsIndex(waiting: seq<Entry>, k: nat)
    requires k < |waiting| && Ordered(waiting)
    ensures Older(waiting, waiting[k].ticket) == k
  {
    if k > 0 {
      OlderIsIndex(waiting[1..], k - 1);
    } else {
      NoneOlder(waiting, waiting[0].ticket);
    }
  }

  lemma {:induction false} NoneOlder(entries: seq<Entry>, ticket: nat)
    requires forall e | e in entries :: ticket <= e.ticket
    ensures Older(entries, ticket) == 0
  {
    if entries != [] {
      NoneOlder(entries[1..], ticket);
    }
  }

  /** A pass moves waiters to the grant log and loses none of them. */
  lemma {:induction false} ScheduleConserves(q: Line, ticket: nat)
    ensures q.grants <= Schedule(q).grants
    ensures Older(q.waiting, ticket)
         == Older(Schedule(q).waiting, ticket) + Older(Fresh(q, Schedule(q)), ticket)
    decreases |q.waiting|
  {
    var at := FirstEligible(q.active, q.waiting);
    if |q.active| >= SLOTS || at == |q.waiting| {
      assert Fresh(q, q) == [];
    } else {
      var m := GrantAt(q, at);
      var r := Schedule(q);
      ScheduleConserves(m, ticket);
      OlderWithout(q.waiting, at, ticket);
      assert Fresh(q, m) == [q.waiting[at]];
      OlderFresh(q, m, r, ticket);
    }
  }

  lemma PreparedOlder(s: State, event: Event, ticket: nat)
    requires Schedules(s, event) && ticket <= s.next
    ensures Older(Prepared(s, event).line.waiting, ticket) <= Older(s.line.waiting, ticket)
    ensures Prepared(s, event).line.grants == s.line.grants
  {
    match event
    case Arrive(account) => OlderAppend(s.line.waiting, [Entry(s.next, account)], ticket);
    case Cancel(t) =>
      var at := IndexOf(s.line.waiting, t);
      if s.callers[t].phase == Queued && at < |s.line.waiting| {
        OlderWithout(s.line.waiting, at, ticket);
      }
    case Release(t) =>
  }

  lemma OlderFresh(q: Line, m: Line, r: Line, ticket: nat)
    requires q.grants <= m.grants <= r.grants
    ensures Older(Fresh(q, r), ticket) == Older(Fresh(q, m), ticket) + Older(Fresh(m, r), ticket)
  {
    assert Fresh(q, r) == Fresh(q, m) + Fresh(m, r);
    OlderAppend(Fresh(q, m), Fresh(m, r), ticket);
  }

  lemma StepConserves(s: State, event: Event, ticket: nat)
    requires ticket <= s.next
    ensures Older(Fresh(s.line, Step(s, event).line), ticket) + Older(Step(s, event).line.waiting, ticket)
         <= Older(s.line.waiting, ticket)
  {
    if Schedules(s, event) {
      PreparedOlder(s, event, ticket);
      ScheduleConserves(Prepared(s, event).line, ticket);
    } else {
      assert Fresh(s.line, Step(s, event).line) == [];
    }
  }

  lemma {:induction false} BoundedGrants(s: State, events: seq<Event>, ticket: nat)
    requires ticket <= s.next
    ensures Older(Fresh(s.line, Run(s, events).line), ticket) + Older(Run(s, events).line.waiting, ticket)
         <= Older(s.line.waiting, ticket)
    decreases |events|
  {
    if events == [] {
      assert Fresh(s.line, s.line) == [];
    } else {
      var m := Step(s, events[0]);
      var r := Run(s, events);
      StepConserves(s, events[0], ticket);
      StepGrows(s, events[0]);
      RunGrows(m, events[1..]);
      BoundedGrants(m, events[1..], ticket);
      OlderFresh(s.line, m.line, r.line, ticket);
    }
  }

  /** Bounded overtaking over any run: the grants that go to earlier arrivals are at most
      the places by which a waiter has moved up, so at most its index when the run began.
      Every other grant made while it waits was an overtake that FairStep describes. */
  lemma BoundedWait(s: State, events: seq<Event>, k: nat)
    requires Inv(s) && k < |s.line.waiting|
    ensures Older(Fresh(s.line, Run(s, events).line), s.line.waiting[k].ticket) <= k
    ensures forall j | 0 <= j < |Run(s, events).line.waiting| && Run(s, events).line.waiting[j] == s.line.waiting[k] ::
              j + Older(Fresh(s.line, Run(s, events).line), s.line.waiting[k].ticket) <= k
  {
    var e := s.line.waiting[k];
    assert e in s.line.waiting;
    OlderIsIndex(s.line.waiting, k);
    BoundedGrants(s, events, e.ticket);
    RunKeeps(s, events);
    var r := Run(s, events).line.waiting;
    forall j | 0 <= j < |r| && r[j] == e
      ensures j + Older(Fresh(s.line, Run(s, events).line), e.ticket) <= k
    {
      OlderIsIndex(r, j);
    }
  }

  // ---------------------------------------------------------------------------------
  // The capacity rejection
  // ---------------------------------------------------------------------------------

  function Others(waiting: seq<Entry>, account: Account): seq<Entry> {
    if waiting == [] then []
    else (if waiting[0].account == account then [] else [waiting[0]]) + Others(waiting[1..], account)
  }

  lemma {:induction false} OthersCount(waiting: seq<Entry>, account: Account)
    ensures |waiting| == |Others(waiting, account)| + Count(waiting, account)
    ensures forall a :: Count(Others(waiting, account), a) == (if a == account then 0 else Count(waiting, a))
    ensures forall e | e in Others(waiting, account) :: e in waiting && e.account != account
  {
    if waiting != [] {
      var rest := Others(waiting[1..], account);
      OthersCount(waiting[1..], account);
      if waiting[0].account != account {
        assert Others(waiting, account) == [waiting[0]] + rest;
        assert Others(waiting, account)[1..] == rest;
      } else {
        assert Others(waiting, account) == rest;
      }
      forall a ensures Count(Others(waiting, account), a) == (if a == account then 0 else Count(waiting, a)) {
        assert Count(rest, a) == (if a == account then 0 else Count(waiting[1..], a));
      }
    }
  }

  lemma {:induction false} WaitersFitAccounts(waiting: seq<Entry>, accounts: set<Account>)
    requires forall e | e in waiting :: e.account in accounts
    requires forall a :: Count(waiting, a) <= PER_ACCOUNT
    ensures |waiting| <= PER_ACCOUNT * |accounts|
    decreases |accounts|
  {
    if waiting != [] {
      var a := waiting[0].account;
      assert waiting[0] in waiting;
      OthersCount(waiting, a);
      forall b ensures Count(Others(waiting, a), b) <= PER_ACCOUNT {
        assert Count(waiting, b) <= PER_ACCOUNT;
      }
      WaitersFitAccounts(Others(waiting, a), accounts - {a});
      assert |accounts - {a}| == |accounts| - 1;
    }
  }

  /** The 64-entry rejection happens only when all three slots are busy; with a slot free
      at most four entries can be waiting at all.  The other rejection, an account's third
      entry, happens only when that account or the whole host is busy. */
  lemma RefusalMeansBusy(s: State, account: Account)
    requires Inv(s)
    ensures |s.line.active| < SLOTS ==> |s.line.waiting| <= 4
    ensures |s.line.waiting| >= CAPACITY ==> |s.line.active| == SLOTS
    ensures Refused(s.line, account) ==> |s.line.active| == SLOTS || account in s.line.active
  {
    if |s.line.active| < SLOTS {
      WaitersFitAccounts(s.line.waiting, s.line.active);
    }
    if Count(s.line.waiting, account) > 0 {
      CountMember(s.line.waiting, account);
    }
  }

  lemma {:induction false} CountMember(waiting: seq<Entry>, account: Account)
    requires Count(waiting, account) > 0
    ensures exists e :: e in waiting && e.account == account
  {
    if waiting[0].account == account {
      assert waiting[0] in waiting;
    } else {
      CountMember(waiting[1..], account);
      var e :| e in waiting[1..] && e.account == account;
      assert e in waiting;
    }
  }

  // ---------------------------------------------------------------------------------
  // The queue itself, updated in place under its mutex
  // ---------------------------------------------------------------------------------

  class Waiter {
    const account: Account
    ghost const ticket: nat
    var granted: bool

    constructor (account: Account, ghost ticket: nat)
      ensures this.account == account && this.ticket == ticket && !granted
    {
      this.account := account;
      this.ticket := ticket;
      granted := false;
    }

    ghost function Value(): Entry { Entry(ticket, account) }
  }

  class Queue {
    var active: set<Account>
    var waiting: seq<Waiter>
    ghost var grants: seq<Entry>
    ghost var arrivals: nat
    ghost var pool: set<Waiter>   // every waiter ever made for this queue

    ghost function Entries(ws: seq<Waiter>): seq<Entry> {
      seq(|ws|, i requires 0 <= i < |ws| => ws[i].Value())
    }

    ghost function Contents(): Line
      reads this
    {
      Line(active, Entries(waiting), grants)
    }

    /** The flag of a waiter in the slice is clear, and tickets number the arrivals. */
    ghost predicate Valid()
      reads this, pool
    {
      && (forall w | w in waiting :: w in pool && !w.granted && w.ticket < arrivals)
      && ByTicket(waiting)
    }

    constructor ()
      ensures Valid() && Contents() == Start.line && arrivals == Start.next
    {
      active, waiting, grants, arrivals, pool := {}, [], [], 0, {};
    }

    ghost predicate ByTicket(ws: seq<Waiter>) {
      forall i, j | 0 <= i < j < |ws| :: ws[i].ticket < ws[j].ticket
    }

    ghost predicate Taken(all: seq<Waiter>, at: nat, left: seq<Waiter>)
      requires at < |all|
    {
      && (forall w | w in left :: w in all && w != all[at])
      && (forall w | w in all && w != all[at] :: w in left)
    }

    lemma TakenOut(all: seq<Waiter>, at: nat)
      requires at < |all| && ByTicket(all)
      ensures Taken(all, at, all[..at] + all[at + 1..])
      ensures ByTicket(all[..at] + all[at + 1..])
      ensures Entries(all[..at] + all[at + 1..]) == Without(Entries(all), at)
    {
      var left := all[..at] + all[at + 1..];
      forall w | w in left ensures w in all && w != all[at] {
        var i :| 0 <= i < |left| && left[i] == w;
        assert w == all[if i < at then i else i + 1];
      }
      forall w | w in all && w != all[at] ensures w in left {
        var i :| 0 <= i < |all| && all[i] == w;
        assert w == left[if i < at then i else i - 1];
      }
    }

    /** The search loop of schedule: the oldest eligible waiter, or the length. */
    method FindEligible() returns (at: nat)
      ensures at == FirstEligible(active, Entries(waiting)) <= |waiting|
    {
      at := 0;
      while at < |waiting| && waiting[at].account in active
        invariant at <= |waiting|
        invariant forall k | 0 <= k < at :: waiting[k].account in active
      {
        at := at + 1;
      }
      FirstIs(active, Entries(waiting), at);
    }

    method Grant(at: nat)
      requires Valid() && at < |waiting|
      modifies this`active, this`waiting, this`grants, waiting[at]
      ensures Valid()
      ensures Contents() == GrantAt(old(Contents()), at)
      ensures old(waiting)[at].granted
      ensures Taken(old(waiting), at, waiting)
    {
      var w := waiting[at];
      TakenOut(waiting, at);
      waiting := waiting[..at] + waiting[at + 1..];
      active := active + {w.account};
      grants := grants + [w.Value()];
      w.granted := true;
    }

    /** Grants slots until none is free or nobody eligible waits. */
    method RunSchedule()
      requires Valid()
      modifies this`active, this`waiting, this`grants, pool
      ensures Valid()
      ensures Contents() == Schedule(old(Contents()))
      ensures forall w | w in old(waiting) :: w.granted <==> w !in waiting
      ensures forall w | w in pool && w !in old(waiting) :: w.granted == old(w.granted)
    {
      while |active| < SLOTS
        invariant Valid()
        invariant Schedule(Contents()) == Schedule(old(Contents()))
        invariant forall w | w in waiting :: w in old(waiting)
        invariant forall w | w in old(waiting) :: w.granted <==> w !in waiting
        invariant forall w | w in pool && w !in old(waiting) :: w.granted == old(w.granted)
        decreases |waiting|
      {
        var at := FindEligible();
        if at == |waiting| {
          return;
        }
        Grant(at);
      }
    }

    /** The counting loop of Acquire. */
    method CountQueued(account: Account) returns (count: nat)
      ensures count == Count(Entries(waiting), account)
    {
      count := 0;
      ghost var entries := Entries(waiting);
      for i := 0 to |waiting|
        invariant count + Count(entries[i..], account) == Count(entries, account)
      {
        assert entries[i..][1..] == entries[i + 1..];
        if waiting[i].account == account {
          count := count + 1;
        }
      }
    }

    /** First critical section of Acquire: null is ErrCapacity. */
    method Enter(account: Account) returns (w: Waiter?)
      requires Valid()
      modifies this, pool
      ensures Valid()
      ensures w == null <==> Refused(old(Contents()), account)
      ensures w == null ==> Contents() == old(Contents()) && arrivals == old(arrivals)
      ensures w != null ==>
                && fresh(w) && w.Value() == Entry(old(arrivals), account) && arrivals == old(arrivals) + 1
                && Contents() == Schedule(Arrived(old(Contents()), w.Value()))
                && (w.granted <==> w !in waiting)
    {
      var count := CountQueued(account);
      if count >= PER_ACCOUNT || |waiting| >= CAPACITY {
        return null;
      }
      w := new Waiter(account, arrivals);
      Append(w);
      RunSchedule();
    }

    method Append(w: Waiter)
      requires Valid() && !w.granted && w.ticket == arrivals
      modifies this`waiting, this`arrivals, this`pool
      ensures Valid() && waiting == old(waiting) + [w] && arrivals == old(arrivals) + 1
      ensures pool == old(pool) + {w}
      ensures Contents() == Arrived(old(Contents()), w.Value())
    {
      ghost var before := Entries(waiting);
      waiting := waiting + [w];
      arrivals, pool := arrivals + 1, pool + {w};
      assert Entries(waiting) == before + [w.Value()];
    }

    method Position(w: Waiter) returns (i: nat)
      requires Valid() && w in waiting
      ensures i < |waiting| && waiting[i] == w && i == IndexOf(Entries(waiting), w.ticket)
    {
      i := 0;
      while waiting[i] != w
        invariant i < |waiting| && w in waiting[i..]
        decreases |waiting| - i
      {
        i := i + 1;
      }
      EntriesIndex(i);
    }

    method Withdraw(w: Waiter)
      requires Valid() && w in waiting
      modifies this`waiting
      ensures Valid() && Contents() == Withdrawn(old(Contents()), w.ticket)
    {
      var i := Position(w);
      TakenOut(waiting, i);
      waiting := waiting[..i] + waiting[i + 1..];
    }

    /** Second critical section when ctx.Done won the select; the grant may have raced it. */
    method Abandon(w: Waiter)
      requires Valid() && w.ticket < arrivals
      requires w.granted <==> w !in waiting
      modifies this, pool
      ensures Valid() && arrivals == old(arrivals)
      ensures Contents() == Schedule(if old(w.granted) then Freed(old(Contents()), w.account)
                                     else Withdrawn(old(Contents()), w.ticket))
    {
      if w.granted {
        active := active - {w.account};
      } else {
        Withdraw(w);
      }
      RunSchedule();
    }

    lemma EntriesIndex(i: nat)
      requires Valid() && i < |waiting|
      ensures IndexOf(Entries(waiting), waiting[i].ticket) == i
    {
      assert Entries(waiting)[i] == waiting[i].Value();
      forall k | 0 <= k < i ensures Entries(waiting)[k].ticket != waiting[i].ticket {
      }
    }

    method State() returns (busy: nat, queued: nat)
      ensures busy == |Contents().active| && queued == |Contents().waiting|
    {
      busy, queued := |active|, |waiting|;
    }
  }

  lemma {:induction false} FirstIs(active: set<Account>, waiting: seq<Entry>, i: nat)
    requires i <= |waiting|
    requires forall k | 0 <= k < i :: waiting[k].account in active
    requires i < |waiting| ==> waiting[i].account !in active
    ensures FirstEligible(active, waiting) == i
  {
    if i > 0 {
      FirstIs(active, waiting[1..], i - 1);
    }
  }

  /** The closure Acquire returns: sync.Once lets only the first call through. */
  class Lease {
    const queue: Queue
    const account: Account
    var spent: bool

    constructor (queue: Queue, account: Account)
      ensures this.queue == queue && this.account == account && !spent
    {
      this.queue := queue;
      this.account := account;
      spent := false;
    }

    method ReleaseSlot()
      requires queue.Valid()
      modifies this, queue, queue.pool
      ensures queue.Valid() && spent
      ensures queue.Contents() == if old(spent) then old(queue.Contents())
                                  else Schedule(Freed(old(queue.Contents()), account))
    {
      if !spent {
        spent := true;
        queue.active := queue.active - {account};
        queue.RunSchedule();
      }
    }
  }
}
