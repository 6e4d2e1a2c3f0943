/** The operator vault: a compare-and-swap on a revision number that keeps every earlier
    revision.  Several writers run at once, each may die between any two file operations, and
    an advisory lock keeps all but one of them out. */
module OperatorVault {
  import opened Results

  type Writer = nat

  /** A whole encrypted revision, which decodes to its number and configuration, or the
      beginnings of a file that was never finished, which does not decode. */
  datatype Content = Whole(nonce: string, revision: nat, configuration: string) | Torn

  datatype Job = Job(expected: nat, nonce: string, configuration: string, fits: bool)

  datatype Refusal = Unreadable | Stale | TooLarge | Conflicting | Unflushed

  datatype Stage =
    | Waiting
    | Locked
    | Checked(revision: nat)
    | Creating(revision: nat, previous: Content)
    | Staged(revision: nat)
    | Installed(revision: nat)
    | Done(revision: nat)
    | Refused(why: Refusal)
    | Dead(installed: Option<nat>)

  datatype Attempt = Attempt(job: Job, stage: Stage)

  datatype Install = Install(writer: Writer, content: Content)

  /** The files, and every revision that was ever installed. */
  datatype Store = Store(destination: Option<Content>, backups: map<nat, Content>, history: seq<Install>)

  /** The store, who holds the lock, and every writer so far. */
  datatype State = State(store: Store, lock: Option<Writer>, at: map<Writer, Attempt>)

  datatype Event =
    | Begin(writer: Writer, job: Job)
    | Acquire(writer: Writer)
    | Advance(writer: Writer)
    | Die(writer: Writer)

  predicate Inside(stage: Stage) {
    stage.Locked? || stage.Checked? || stage.Creating? || stage.Staged? || stage.Installed?
  }

  /** The revision that a writer at this stage has installed, if any.  A writer may die, or
      fail to flush the directory, between its install and its success. */
  function InstalledBy(stage: Stage): Option<nat> {
    match stage
    case Installed(revision) => Some(revision)
    case Done(revision) => Some(revision)
    case Dead(installed) => installed
    case _ => None
  }

  predicate Over(stage: Stage) { stage.Done? || stage.Refused? || stage.Dead? }

  function Decode(file: Option<Content>): Option<nat> {
    match file
    case None => Some(0)
    case Some(Torn) => None
    case Some(Whole(_, revision, _)) => if revision < 1 then None else Some(revision)
  }

  function Encrypt(job: Job, revision: nat): Content { Whole(job.nonce, revision, job.configuration) }

  /** One file operation of the lock's holder, and the stage it leads to. */
  function Perform(d: Store, w: Writer, a: Attempt): (Store, Stage) {
    match a.stage
    case Locked =>
      var revision := Decode(d.destination);
      if revision.None? then (d, Refused(Unreadable))
      else if revision.value != a.job.expected then (d, Refused(Stale))
      else if !a.job.fits then (d, Refused(TooLarge))
      else if revision.value == 0 then (d, Staged(0))
      else (d, Checked(revision.value))
    case Checked(revision) =>
      if d.destination.None? then (d, Refused(Unreadable))
      else if revision !in d.backups then
        (d.(backups := d.backups[revision := Torn]), Creating(revision, d.destination.value))
      else if d.backups[revision] != d.destination.value then (d, Refused(Conflicting))
      else (d, Staged(revision))
    case Creating(revision, previous) => (d.(backups := d.backups[revision := previous]), Staged(revision))
    case Staged(revision) =>
      var content := Encrypt(a.job, revision + 1);
      (d.(destination := Some(content), history := d.history + [Install(w, content)]), Installed(revision + 1))
    case Installed(revision) => (d, Done(revision))
    case _ => (d, a.stage)
  }

  /** A writer's new stage; one that is over has dropped the lock. */
  function Moved(s: State, w: Writer, stage: Stage): State
    requires w in s.at
  {
    State(s.store, if Inside(s.at[w].stage) && Over(stage) then None else s.lock, s.at[w := s.at[w].(stage := stage)])
  }

  function Next(s: State, w: Writer): State
    requires w in s.at
  {
    var p := Perform(s.store, w, s.at[w]);
    Moved(s.(store := p.0), w, p.1)
  }

  /** A death at any point, which drops the lock; a step that is not due changes nothing. */
  function Step(s: State, e: Event): State {
    match e
    case Begin(w, job) => if w in s.at then s else s.(at := s.at[w := Attempt(job, Waiting)])
    case Acquire(w) =>
      if w in s.at && s.at[w].stage.Waiting? && s.lock.None? then Moved(s, w, Locked).(lock := Some(w)) else s
    case Advance(w) => if w in s.at then Next(s, w) else s
    case Die(w) => if w in s.at && !Over(s.at[w].stage) then Moved(s, w, Dead(InstalledBy(s.at[w].stage))) else s
  }

  function Run(s: State, events: seq<Event>): State
    decreases |events|
  {
    if events == [] then s else Run(Step(s, events[0]), events[1..])
  }

  const EMPTY := State(Store(None, map[], []), None, map[])

  // ---------------------------------------------------------------------------------
  // What every interleaving keeps
  // ---------------------------------------------------------------------------------

  ghost predicate Exclusive(s: State) {
    forall w | w in s.at && Inside(s.at[w].stage) :: s.lock == Some(w)
  }

  /** The destination is always the latest whole revision, and revisions count up from one. */
  ghost predicate WholeRevisions(d: Store) {
    && (forall i | 0 <= i < |d.history| :: d.history[i].content.Whole? && d.history[i].content.revision == i + 1)
    && d.destination == (if d.history == [] then None else Some(d.history[|d.history| - 1].content))
  }

  /** Every revision but the latest is kept byte for byte in its own file. */
  ghost predicate Retained(d: Store) {
    forall r: nat | 1 <= r < |d.history| :: r in d.backups && d.backups[r] == d.history[r - 1].content
  }

  ghost predicate Good(d: Store) { WholeRevisions(d) && Retained(d) }

  /** What a writer at this stage may rely on. */
  ghost predicate Fits(d: Store, w: Writer, a: Attempt) {
    match a.stage
    case Checked(revision) => revision == a.job.expected == |d.history| && revision > 0
    case Creating(revision, previous) =>
      revision == a.job.expected == |d.history| && revision > 0 && d.destination == Some(previous)
      && revision in d.backups && d.backups[revision] == Torn
    case Staged(revision) =>
      && revision == a.job.expected == |d.history|
      && (revision > 0 ==> revision in d.backups && d.destination == Some(d.backups[revision]))
    case _ => InstalledBy(a.stage).Some? ==> HasInstalled(d, w, a.job, InstalledBy(a.stage).value)
  }

  /** This writer installed that revision, from the one it expected. */
  ghost predicate HasInstalled(d: Store, w: Writer, job: Job, revision: nat) {
    && revision == job.expected + 1 && 1 <= revision <= |d.history|
    && d.history[revision - 1] == Install(w, Encrypt(job, revision))
  }

  ghost predicate Inv(s: State) {
    Exclusive(s) && Good(s.store) && forall w | w in s.at :: Fits(s.store, w, s.at[w])
  }

  /** What was installed stays installed, and what was retained stays as it was. */
  ghost predicate Extends(d: Store, e: Store) {
    && |d.history| <= |e.history| && e.history[..|d.history|] == d.history
    && (forall r: nat | 1 <= r < |d.history| && r in d.backups :: r in e.backups && e.backups[r] == d.backups[r])
  }

  lemma PerformKeeps(d: Store, w: Writer, a: Attempt)
    requires Good(d) && Fits(d, w, a)
    ensures var p := Perform(d, w, a); Good(p.0) && Fits(p.0, w, a.(stage := p.1))
  {
    if a.stage.Staged? {
      InstallKeeps(d, w, a);
    } else {
      PreparationKeeps(d, w, a);
    }
  }

  lemma InstallKeeps(d: Store, w: Writer, a: Attempt)
    requires Good(d) && Fits(d, w, a) && a.stage.Staged?
    ensures var p := Perform(d, w, a); Good(p.0) && Fits(p.0, w, a.(stage := p.1))
  {
  }

  lemma PreparationKeeps(d: Store, w: Writer, a: Attempt)
    requires Good(d) && Fits(d, w, a) && !a.stage.Staged?
    ensures var p := Perform(d, w, a); Good(p.0) && Fits(p.0, w, a.(stage := p.1))
  {
  }

  lemma PerformExtends(d: Store, w: Writer, a: Attempt)
    requires Fits(d, w, a)
    ensures Extends(d, Perform(d, w, a).0) && (!Inside(a.stage) ==> Perform(d, w, a) == (d, a.stage))
  {
  }

  /** The step of the lock's holder leaves true what every other writer relies on. */
  lemma PerformSpares(d: Store, w: Writer, a: Attempt, v: Writer, b: Attempt)
    requires Fits(d, w, a) && Fits(d, v, b) && !Inside(b.stage)
    ensures Fits(Perform(d, w, a).0, v, b)
  {
  }

  lemma NextKeeps(s: State, w: Writer)
    requires Inv(s) && w in s.at
    ensures Inv(Next(s, w)) && Extends(s.store, Next(s, w).store)
  {
    var n := Next(s, w);
    PerformKeeps(s.store, w, s.at[w]);
    PerformExtends(s.store, w, s.at[w]);
    forall v | v in n.at ensures Fits(n.store, v, n.at[v]) {
      if v != w && Inside(s.at[w].stage) {
        PerformSpares(s.store, w, s.at[w], v, s.at[v]);
      }
    }
  }

  lemma StepKeeps(s: State, e: Event)
    requires Inv(s)
    ensures Inv(Step(s, e)) && Extends(s.store, Step(s, e).store)
  {
    if e.Advance? && e.writer in s.at {
      NextKeeps(s, e.writer);
    } else {
      var n := Step(s, e);
      assert n.store == s.store;
      forall v | v in n.at ensures Fits(n.store, v, n.at[v]) {
        assert v in s.at ==> Fits(s.store, v, s.at[v]);
      }
    }
  }

  lemma ExtendsTransitive(d: Store, m: Store, e: Store)
    requires Extends(d, m) && Extends(m, e)
    ensures Extends(d, e)
  {
    assert e.history[..|d.history|] == e.history[..|m.history|][..|d.history|];
  }

  /** Vault history over every interleaving of writers and deaths: the destination is always
      a whole revision, revisions rise by one, and every earlier one is kept for ever. */
  lemma {:induction false} RunKeeps(s: State, events: seq<Event>)
    requires Inv(s)
    ensures Inv(Run(s, events)) && Extends(s.store, Run(s, events).store)
    decreases |events|
  {
    if events != [] {
      var n := Step(s, events[0]);
      StepKeeps(s, events[0]);
      RunKeeps(n, events[1..]);
      ExtendsTransitive(s.store, n.store, Run(n, events[1..]).store);
    }
  }

  /** The same from an empty directory, spelt out for whoever reads the files. */
  lemma HistoryIsKept(events: seq<Event>)
    ensures var d := Run(EMPTY, events).store;
            && d.destination != Some(Torn)
            && (d.history == [] <==> d.destination == None)
            && (forall r: nat | 1 <= r < |d.history| ::
                  r in d.backups && d.backups[r] == d.history[r - 1].content
                  && d.backups[r].Whole? && d.backups[r].revision == r)
  {
    RunKeeps(EMPTY, events);
  }

  /** A writer that installed anything, whether it succeeded or ended before it could, started
      from the revision it expected, raised it by exactly one and installed its own content; of
      all writers expecting one revision, one at most ever installs. */
  lemma OneWinner(events: seq<Event>, w: Writer, v: Writer)
    requires var s := Run(EMPTY, events);
             w in s.at && v in s.at && InstalledBy(s.at[w].stage).Some? && InstalledBy(s.at[v].stage).Some?
    ensures var s := Run(EMPTY, events);
            && HasInstalled(s.store, w, s.at[w].job, InstalledBy(s.at[w].stage).value)
            && (s.at[w].job.expected == s.at[v].job.expected ==> w == v)
  {
    RunKeeps(EMPTY, events);
    var s := Run(EMPTY, events);
    assert Fits(s.store, w, s.at[w]) && Fits(s.store, v, s.at[v]);
  }

  ghost predicate CreditedAt(d: Store, at: map<Writer, Attempt>, r: nat)
    requires 1 <= r <= |d.history|
  {
    d.history[r - 1].writer in at && InstalledBy(at[d.history[r - 1].writer].stage) == Some(r)
  }

  /** The other way round: every installed revision has its writer, which holds the lock still,
      has succeeded, or ended after the install. */
  ghost predicate Credited(s: State) { forall r: nat | 1 <= r <= |s.store.history| :: CreditedAt(s.store, s.at, r) }

  lemma InstalledStays(s: State, e: Event, w: Writer)
    requires w in s.at && InstalledBy(s.at[w].stage).Some?
    ensures w in Step(s, e).at && InstalledBy(Step(s, e).at[w].stage) == InstalledBy(s.at[w].stage)
  {
  }

  lemma NewestCredited(s: State, e: Event)
    requires |Step(s, e).store.history| > |s.store.history|
    requires e.writer in s.at ==> Fits(s.store, e.writer, s.at[e.writer])
    ensures |Step(s, e).store.history| == |s.store.history| + 1
    ensures CreditedAt(Step(s, e).store, Step(s, e).at, |Step(s, e).store.history|)
  {
  }

  lemma EarlierCredited(s: State, e: Event, r: nat)
    requires Extends(s.store, Step(s, e).store) && 1 <= r <= |s.store.history| && CreditedAt(s.store, s.at, r)
    ensures CreditedAt(Step(s, e).store, Step(s, e).at, r)
  {
    assert Step(s, e).store.history[..|s.store.history|][r - 1] == s.store.history[r - 1];
    InstalledStays(s, e, s.store.history[r - 1].writer);
  }

  lemma StepCredits(s: State, e: Event, r: nat)
    requires Inv(s) && 1 <= r <= |Step(s, e).store.history|
    requires r <= |s.store.history| ==> CreditedAt(s.store, s.at, r)
    ensures CreditedAt(Step(s, e).store, Step(s, e).at, r)
  {
    if r <= |s.store.history| {
      StepKeeps(s, e);
      EarlierCredited(s, e, r);
    } else {
      NewestCredited(s, e);
    }
  }

  lemma {:induction false} InstallsHaveWriters(s: State, events: seq<Event>)
    requires Inv(s) && Credited(s)
    ensures Credited(Run(s, events))
    decreases |events|
  {
    if events != [] {
      StepKeeps(s, events[0]);
      var n := Step(s, events[0]);
      forall r: nat | 1 <= r <= |n.store.history| ensures CreditedAt(n.store, n.at, r) {
        StepCredits(s, events[0], r);
      }
      InstallsHaveWriters(Step(s, events[0]), events[1..]);
    }
  }

  /** Every installed revision has exactly one writer. */
  lemma ExactlyOneWriter(events: seq<Event>, r: nat, v: Writer)
    requires 1 <= r <= |Run(EMPTY, events).store.history|
    ensures var s := Run(EMPTY, events);
            (v in s.at && InstalledBy(s.at[v].stage) == Some(r)) <==> v == s.store.history[r - 1].writer
  {
    RunKeeps(EMPTY, events);
    InstallsHaveWriters(EMPTY, events);
    var s := Run(EMPTY, events);
    assert CreditedAt(s.store, s.at, r);
    if v in s.at && InstalledBy(s.at[v].stage) == Some(r) {
      assert Fits(s.store, v, s.at[v]);
    }
  }

  // ---------------------------------------------------------------------------------
  // An unfinished backup
  // ---------------------------------------------------------------------------------

  /** Nobody is past the check of the retained file, and that file is not the destination. */
  ghost predicate Blocked(s: State) {
    var d := s.store;
    && d.history != [] && |d.history| in d.backups && d.destination != Some(d.backups[|d.history|])
    && (forall w | w in s.at :: !s.at[w].stage.Creating? && !s.at[w].stage.Staged?)
  }

  lemma StepBlocked(s: State, e: Event)
    requires Inv(s) && Blocked(s)
    ensures Blocked(Step(s, e)) && Step(s, e).store == s.store
  {
    if e.writer in s.at {
      assert Fits(s.store, e.writer, s.at[e.writer]);
      assert Decode(s.store.destination) == Some(|s.store.history|);
    }
  }

  /** A writer that dies between creating and filling the retained file blocks the vault:
      whatever later writers do, no file changes again. */
  lemma {:induction false} UnfinishedBackupBlocks(s: State, events: seq<Event>)
    requires Inv(s) && Blocked(s)
    ensures Run(s, events).store == s.store
    decreases |events|
  {
    if events != [] {
      StepKeeps(s, events[0]);
      StepBlocked(s, events[0]);
      UnfinishedBackupBlocks(Step(s, events[0]), events[1..]);
    }
  }

  lemma DeathWhileCreatingBlocks(s: State, w: Writer)
    requires Inv(s) && w in s.at && s.at[w].stage.Creating?
    ensures Blocked(Step(s, Die(w)))
  {
    assert Fits(s.store, w, s.at[w]);
  }

  /** The first seal of one writer, and the beginning of a second one up to its retained file. */
  function FirstSeal(w: Writer, job: Job): State {
    Step(Step(Step(Step(Step(EMPTY, Begin(w, job)), Acquire(w)), Advance(w)), Advance(w)), Advance(w))
  }

  function SecondSeal(s: State, w: Writer, job: Job): State {
    Step(Step(Step(Step(s, Begin(w, job)), Acquire(w)), Advance(w)), Advance(w))
  }

  function Unfinished(w: Writer, first: Job, v: Writer, second: Job): seq<Event> {
    [Begin(w, first), Acquire(w), Advance(w), Advance(w), Advance(w)]
    + [Begin(v, second), Acquire(v), Advance(v), Advance(v)] + [Die(v)]
  }

  lemma {:induction false} RunAppend(s: State, a: seq<Event>, b: seq<Event>)
    ensures Run(s, a + b) == Run(Run(s, a), b)
    decreases |a|
  {
    if a == [] {
      assert a + b == b;
    } else {
      assert (a + b)[1..] == a[1..] + b;
      RunAppend(Step(s, a[0]), a[1..], b);
    }
  }

  lemma RunFive(s: State, a: Event, b: Event, c: Event, d: Event, e: Event)
    ensures Run(s, [a, b, c, d, e]) == Step(Step(Step(Step(Step(s, a), b), c), d), e)
  {
    assert [a, b, c, d, e][1..] == [b, c, d, e];
    RunFour(Step(s, a), b, c, d, e);
  }

  lemma RunFour(s: State, a: Event, b: Event, c: Event, d: Event)
    ensures Run(s, [a, b, c, d]) == Step(Step(Step(Step(s, a), b), c), d)
  {
    assert [a, b, c, d][1..] == [b, c, d] && [b, c, d][1..] == [c, d] && [c, d][1..] == [d] && [d][1..] == [];
    var t := Step(Step(s, a), b);
    assert Run(s, [a, b, c, d]) == Run(Step(s, a), [b, c, d]) == Run(t, [c, d]);
    assert Run(Step(t, c), [d]) == Run(Step(Step(t, c), d), []);
  }

  lemma FirstSealInstalls(w: Writer, job: Job)
    requires job.expected == 0 && job.fits
    ensures FirstSeal(w, job) == State(Store(Some(Encrypt(job, 1)), map[], [Install(w, Encrypt(job, 1))]), None,
                                       map[w := Attempt(job, Done(1))])
  {
  }

  lemma SecondSealCreates(s: State, w: Writer, job: Job)
    requires s.lock.None? && w !in s.at && s.store.destination.Some? && 1 !in s.store.backups
    requires Decode(s.store.destination) == Some(1) && job.expected == 1 && job.fits
    ensures w in SecondSeal(s, w, job).at && SecondSeal(s, w, job).at[w].stage.Creating?
  {
  }

  /** From an empty directory, one whole seal and the death of a second one blocks the vault. */
  lemma UnfinishedBackupReachable(w: Writer, first: Job, v: Writer, second: Job)
    requires w != v && first.expected == 0 && second.expected == 1 && first.fits && second.fits
    ensures Inv(Run(EMPTY, Unfinished(w, first, v, second))) && Blocked(Run(EMPTY, Unfinished(w, first, v, second)))
  {
    var a := [Begin(w, first), Acquire(w), Advance(w), Advance(w), Advance(w)];
    var b := [Begin(v, second), Acquire(v), Advance(v), Advance(v)];
    RunFive(EMPTY, a[0], a[1], a[2], a[3], a[4]);
    FirstSealInstalls(w, first);
    var s := FirstSeal(w, first);
    RunFour(s, b[0], b[1], b[2], b[3]);
    SecondSealCreates(s, v, second);
    RunAppend(EMPTY, a, b);
    RunAppend(EMPTY, a + b, [Die(v)]);
    RunKeeps(EMPTY, a + b);
    RunKeeps(EMPTY, a + b + [Die(v)]);
    assert [Die(v)][1..] == [];
    DeathWhileCreatingBlocks(Run(EMPTY, a + b), v);
  }

  // ---------------------------------------------------------------------------------
  // One undisturbed writer
  // ---------------------------------------------------------------------------------

  /** The store and the stage after a holder of the lock has performed so many operations. */
  function Performed(d: Store, w: Writer, a: Attempt, count: nat): (Store, Stage)
    decreases count
  {
    if count == 0 then (d, a.stage)
    else var p := Perform(d, w, a); Performed(p.0, w, a.(stage := p.1), count - 1)
  }

  /** A whole undisturbed seal: five operations always suffice. */
  function Solo(d: Store, w: Writer, job: Job): (Store, Stage) { Performed(d, w, Attempt(job, Locked), 5) }

  /** It is the run of the protocol in which nobody else takes a step. */
  lemma {:induction false} SoloIsARun(s: State, w: Writer, count: nat)
    requires w in s.at
    ensures var n := Run(s, seq(count, _ => Advance(w)));
            w in n.at && (n.store, n.at[w].stage) == Performed(s.store, w, s.at[w], count)
    decreases count
  {
    if count > 0 {
      var events := seq(count, _ => Advance(w));
      assert events[1..] == seq(count - 1, _ => Advance(w));
      SoloIsARun(Next(s, w), w, count - 1);
    }
  }

  /** An undisturbed writer succeeds exactly when it expects the current revision, its record
      fits, and the retained file of that revision is absent or already right; else it leaves
      every file alone. */
  lemma SealsExactly(d: Store, w: Writer, job: Job)
    requires Good(d)
    ensures Over(Solo(d, w, job).1)
    ensures Solo(d, w, job).1.Done? <==>
              && job.expected == |d.history| && job.fits
              && (job.expected in d.backups && job.expected > 0 ==> d.destination == Some(d.backups[job.expected]))
    ensures !Solo(d, w, job).1.Done? ==> Solo(d, w, job).0 == d
  {
    assert Decode(d.destination) == Some(|d.history|);
  }

  // ---------------------------------------------------------------------------------
  // seal
  // ---------------------------------------------------------------------------------

  class Vault {
    var destination: Option<Content>
    var backups: map<nat, Content>

    constructor ()
      ensures destination == None && backups == map[]
    {
      destination, backups := None, map[];
    }

    /** The body of seal under the lock, against the run of an undisturbed writer.  A failing
        flush of the directory is an error although the revision is installed. */
    method Seal(job: Job, flushed: bool, ghost history: seq<Install>, ghost w: Writer) returns (r: Result<nat, Refusal>)
      modifies this
      ensures var solo := Solo(Store(old(destination), old(backups), history), w, job);
              && destination == solo.0.destination && backups == solo.0.backups
              && (solo.1.Done? ==> r == if flushed then Ok(solo.1.revision) else Err(Unflushed))
              && (!solo.1.Done? ==> r.Err? && solo.1 == Refused(r.error))
    {
      var current := Decode(destination);
      if current.None? {
        return Err(Unreadable);
      }
      var revision := current.value;
      if revision != job.expected {
        return Err(Stale);
      }
      if !job.fits {
        return Err(TooLarge);
      }
      var encrypted := Encrypt(job, revision + 1);
      if revision != 0 {
        var previous := destination.value;
        if revision in backups {
          if backups[revision] != previous {
            return Err(Conflicting);
          }
        } else {
          backups := backups[revision := Torn];
          backups := backups[revision := previous];
        }
      }
      destination := Some(encrypted);
      return if flushed then Ok(revision + 1) else Err(Unflushed);
    }
  }
}
