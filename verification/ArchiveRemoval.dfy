/** Two-phase removal from the retained archive copy.  A pending record names the doomed
    files before any is unlinked, and recovery finishes what an interrupted run began.
    Every durable write is a state of a trace; a crash cuts the trace anywhere. */
module ArchiveRemoval {
  import opened Keyed
  import opened Results

  import opened ArchiveInventory

  datatype Phase = Pending | Complete

  datatype Record = Record(phase: Phase, removed: seq<Name>)

  /** The copy's directory: its object files with their digests, its maintenance record, and
      whether a temporary maintenance file lies beside it. */
  datatype Dir = Dir(objects: map<Name, Digest>, record: Option<Record>, temporary: bool)

  type Files = map<Name, Digest>

  function Elements(names: seq<Name>): set<Name> { set n | n in names }

  function Named(d: Dir): set<Name> { if d.record.Some? then Elements(d.record.value.removed) else {} }

  predicate IsPending(d: Dir) { d.record.Some? && d.record.value.phase == Pending }

  /** verify_copy: the exact file names, or while a removal is pending any set between what
      must remain and what was there, and every digest. */
  predicate Verifies(d: Dir, expected: Files, allowPending: bool) {
    && !d.temporary
    && Named(d) <= expected.Keys
    && (if IsPending(d) && allowPending
        then expected.Keys - Named(d) <= d.objects.Keys <= expected.Keys
        else !IsPending(d) && d.objects.Keys == expected.Keys - Named(d))
    && (forall n | n in d.objects && n in expected :: d.objects[n] == expected[n])
  }

  // ---------------------------------------------------------------------------------
  // The durable states each operation passes through
  // ---------------------------------------------------------------------------------

  function Last(d: Dir, trace: seq<Dir>): Dir { if trace == [] then d else trace[|trace| - 1] }

  /** _replace_maintenance: write a temporary file, then rename it over the record. */
  function ReplaceTrace(d: Dir, r: Record): seq<Dir> {
    if d.temporary then [] else [d.(temporary := true), d.(record := Some(r))]
  }

  function UnlinkTrace(d: Dir, names: seq<Name>): seq<Dir>
    decreases |names|
  {
    if names == [] then []
    else if names[0] in d.objects then
      var next := d.(objects := d.objects - {names[0]});
      [next] + UnlinkTrace(next, names[1..])
    else UnlinkTrace(d, names[1..])
  }

  function Completed(d: Dir): Record
    requires d.record.Some?
  {
    d.record.value.(phase := Complete)
  }

  /** _finish_pending. */
  function FinishTrace(d: Dir, expected: Files): seq<Dir> {
    if IsPending(d) && Verifies(d, expected, true) then
      var unlinked := UnlinkTrace(d, d.record.value.removed);
      unlinked + ReplaceTrace(Last(d, unlinked), Completed(d))
    else []
  }

  /** _apply_removal. */
  function ApplyTrace(d: Dir, expected: Files, names: seq<Name>): seq<Dir> {
    var written := ReplaceTrace(d, Record(Pending, names));
    written + FinishTrace(Last(d, written), expected)
  }

  /** Where recovery leads. */
  function Settle(d: Dir, expected: Files): Dir { Last(d, FinishTrace(d, expected)) }

  /** Maintenance or expiry with a chosen list: recover, verify, and only then apply. */
  function MaintainTrace(d: Dir, expected: Files, names: seq<Name>): seq<Dir> {
    var recovery := FinishTrace(d, expected);
    var settled := Last(d, recovery);
    if Verifies(settled, expected, false) && Named(settled) <= Elements(names) <= expected.Keys
    then recovery + ApplyTrace(settled, expected, names)
    else recovery
  }

  // ---------------------------------------------------------------------------------
  // Safety of every durable state
  // ---------------------------------------------------------------------------------

  ghost predicate Sub(objects: Files, expected: Files) {
    objects.Keys <= expected.Keys && forall n | n in objects :: objects[n] == expected[n]
  }

  /** The objects lie between what must remain and what was there, and every missing file
      is named by the durable record. */
  ghost predicate Safe(d: Dir, expected: Files) {
    && Named(d) <= expected.Keys
    && Sub(d.objects, expected)
    && expected.Keys - Named(d) <= d.objects.Keys
    && (!IsPending(d) ==> d.objects.Keys == expected.Keys - Named(d))
  }

  /** One durable write: a temporary file, a rename that forgets no removal, or an unlink of
      a file that the durable pending record names. */
  ghost predicate Write(d: Dir, e: Dir) {
    || (!d.temporary && e == d.(temporary := true))
    || (d.temporary && !e.temporary && e.objects == d.objects && Named(d) <= Named(e))
    || (IsPending(d) && exists n :: n in Named(d) && n in d.objects && e == d.(objects := d.objects - {n}))
  }

  ghost predicate SafeTrace(d: Dir, trace: seq<Dir>, expected: Files)
    decreases |trace|
  {
    trace == [] || (Write(d, trace[0]) && Safe(trace[0], expected) && SafeTrace(trace[0], trace[1..], expected))
  }

  lemma {:induction false} SafeTraceAppend(d: Dir, a: seq<Dir>, b: seq<Dir>, expected: Files)
    requires SafeTrace(d, a, expected) && SafeTrace(Last(d, a), b, expected)
    ensures SafeTrace(d, a + b, expected) && Last(d, a + b) == Last(Last(d, a), b)
    decreases |a|
  {
    if a == [] {
      assert a + b == b;
    } else {
      assert (a + b)[0] == a[0] && (a + b)[1..] == a[1..] + b;
      SafeTraceAppend(a[0], a[1..], b, expected);
    }
  }

  lemma {:induction false} SafeTraceCut(d: Dir, trace: seq<Dir>, expected: Files, stop: nat)
    requires SafeTrace(d, trace, expected) && Safe(d, expected) && stop <= |trace|
    ensures Safe(Last(d, trace[..stop]), expected)
    ensures Named(d) <= Named(Last(d, trace[..stop]))
    ensures Last(d, trace[..stop]).objects.Keys <= d.objects.Keys
    decreases |trace|
  {
    if stop > 0 {
      SafeTraceCut(trace[0], trace[1..], expected, stop - 1);
      assert trace[..stop][1..] == trace[1..][..stop - 1];
      assert Last(d, trace[..stop]) == Last(trace[0], trace[1..][..stop - 1]);
    }
  }

  lemma UnlinkOneSafe(d: Dir, n: Name, expected: Files)
    requires Safe(d, expected) && IsPending(d) && n in Named(d) && n in d.objects
    ensures var next := d.(objects := d.objects - {n}); Write(d, next) && Safe(next, expected)
  {
  }

  lemma {:induction false} UnlinkSafe(d: Dir, names: seq<Name>, expected: Files)
    requires Safe(d, expected) && IsPending(d) && (forall n | n in names :: n in Named(d))
    ensures SafeTrace(d, UnlinkTrace(d, names), expected)
    decreases |names|
  {
    if names != [] {
      if names[0] in d.objects {
        var next := d.(objects := d.objects - {names[0]});
        UnlinkOneSafe(d, names[0], expected);
        UnlinkSafe(next, names[1..], expected);
        var t := UnlinkTrace(next, names[1..]);
        assert ([next] + t)[0] == next && ([next] + t)[1..] == t;
      } else {
        UnlinkSafe(d, names[1..], expected);
      }
    }
  }

  /** However the removed names are ordered or repeated, exactly they are gone at the end. */
  lemma {:induction false} UnlinkEnds(d: Dir, names: seq<Name>)
    ensures Last(d, UnlinkTrace(d, names)) == d.(objects := d.objects - Elements(names))
    decreases |names|
  {
    if names == [] {
      assert d.objects - Elements(names) == d.objects;
    } else {
      assert names == [names[0]] + names[1..];
      assert Elements(names) == {names[0]} + Elements(names[1..]);
      if names[0] in d.objects {
        var next := d.(objects := d.objects - {names[0]});
        UnlinkEnds(next, names[1..]);
        assert next.objects - Elements(names[1..]) == d.objects - Elements(names);
        assert Last(d, UnlinkTrace(d, names)) == Last(next, UnlinkTrace(next, names[1..]));
      } else {
        UnlinkEnds(d, names[1..]);
        assert d.objects - Elements(names[1..]) == d.objects - Elements(names);
      }
    }
  }

  lemma ReplaceSafe(d: Dir, r: Record, expected: Files)
    requires Safe(d, expected) && !d.temporary
    requires Named(d) <= Elements(r.removed) <= expected.Keys
    requires r.phase == Complete ==> d.objects.Keys == expected.Keys - Elements(r.removed)
    ensures SafeTrace(d, ReplaceTrace(d, r), expected)
    ensures Last(d, ReplaceTrace(d, r)) == d.(record := Some(r))
  {
    var t, e := d.(temporary := true), d.(record := Some(r));
    assert [t, e][1..] == [e];
    assert Write(d, t) && Safe(t, expected);
    assert Write(t, e) && Safe(e, expected);
    assert SafeTrace(e, [], expected) && [e][1..] == [];
    assert SafeTrace(t, [e], expected);
  }

  /** What recovery makes of a pending copy that nothing blocks. */
  function Recovered(d: Dir, expected: Files): Dir {
    if IsPending(d) then Dir(d.objects - Named(d), Some(Completed(d)), false) else d
  }

  lemma FinishSafe(d: Dir, expected: Files)
    requires Safe(d, expected)
    ensures SafeTrace(d, FinishTrace(d, expected), expected)
    ensures !d.temporary ==> Last(d, FinishTrace(d, expected)) == Recovered(d, expected)
    ensures d.temporary ==> FinishTrace(d, expected) == []
  {
    if IsPending(d) && !d.temporary {
      assert Verifies(d, expected, true);
      UnlinkSafe(d, d.record.value.removed, expected);
      UnlinkEnds(d, d.record.value.removed);
      var u := UnlinkTrace(d, d.record.value.removed);
      var e := Last(d, u);
      assert e.objects.Keys == expected.Keys - Named(d);
      ReplaceSafe(e, Completed(d), expected);
      SafeTraceAppend(d, u, ReplaceTrace(e, Completed(d)), expected);
    }
  }

  lemma MaintainSafe(d: Dir, expected: Files, names: seq<Name>)
    requires Safe(d, expected)
    ensures SafeTrace(d, MaintainTrace(d, expected, names), expected)
  {
    FinishSafe(d, expected);
    var recovery := FinishTrace(d, expected);
    var s := Last(d, recovery);
    SafeTraceCut(d, recovery, expected, |recovery|);
    assert recovery[..|recovery|] == recovery;
    if Verifies(s, expected, false) && Named(s) <= Elements(names) <= expected.Keys {
      var r := Record(Pending, names);
      ReplaceSafe(s, r, expected);
      var written := ReplaceTrace(s, r);
      SafeTraceCut(s, written, expected, |written|);
      assert written[..|written|] == written;
      FinishSafe(Last(s, written), expected);
      SafeTraceAppend(s, written, FinishTrace(Last(s, written), expected), expected);
      SafeTraceAppend(d, recovery, ApplyTrace(s, expected, names), expected);
    }
  }

  // ---------------------------------------------------------------------------------
  // Runs with crashes
  // ---------------------------------------------------------------------------------

  /** One process: what it wants removed, and after how many durable writes it dies. */
  datatype Attempt = Attempt(names: seq<Name>, stop: nat)

  function After(d: Dir, expected: Files, a: Attempt): Dir {
    var trace := MaintainTrace(d, expected, a.names);
    Last(d, trace[..if a.stop < |trace| then a.stop else |trace|])
  }

  function Run(d: Dir, expected: Files, attempts: seq<Attempt>): Dir
    decreases |attempts|
  {
    if attempts == [] then d else Run(After(d, expected, attempts[0]), expected, attempts[1..])
  }

  /** Crash safety over whole runs: every reachable directory is safe, what the durable
      record names only grows, and no file ever comes back. */
  lemma {:induction false} RunSafe(d: Dir, expected: Files, attempts: seq<Attempt>)
    requires Safe(d, expected)
    ensures Safe(Run(d, expected, attempts), expected)
    ensures Named(d) <= Named(Run(d, expected, attempts))
    ensures Run(d, expected, attempts).objects.Keys <= d.objects.Keys
    decreases |attempts|
  {
    if attempts != [] {
      var a := attempts[0];
      MaintainSafe(d, expected, a.names);
      var trace := MaintainTrace(d, expected, a.names);
      SafeTraceCut(d, trace, expected, if a.stop < |trace| then a.stop else |trace|);
      RunSafe(After(d, expected, a), expected, attempts[1..]);
    }
  }

  /** A process that only recovers, and dies after some of its writes. */
  function Interrupted(d: Dir, expected: Files, stop: nat): Dir {
    var trace := FinishTrace(d, expected);
    Last(d, trace[..if stop < |trace| then stop else |trace|])
  }

  function Recoveries(d: Dir, expected: Files, stops: seq<nat>): Dir
    decreases |stops|
  {
    if stops == [] then d else Recoveries(Interrupted(d, expected, stops[0]), expected, stops[1..])
  }

  /** Recovery leaves a verifiable copy exactly when no temporary maintenance file was left
      behind; it then holds exactly the expected files less the removed ones. */
  lemma RecoveryExactly(d: Dir, expected: Files)
    requires Safe(d, expected)
    ensures Verifies(Last(d, FinishTrace(d, expected)), expected, false) <==> !d.temporary
    ensures !d.temporary ==>
              Last(d, FinishTrace(d, expected)).objects.Keys == expected.Keys - Named(d)
              && Named(Last(d, FinishTrace(d, expected))) == Named(d)
  {
    FinishSafe(d, expected);
  }

  /** A crash between writing the temporary file and renaming it blocks every later
      process: none of them changes anything until an operator steps in. */
  lemma {:induction false} LeftoverBlocks(d: Dir, expected: Files, attempts: seq<Attempt>)
    requires d.temporary
    ensures Run(d, expected, attempts) == d
    decreases |attempts|
  {
    if attempts != [] {
      LeftoverBlocks(d, expected, attempts[1..]);
    }
  }

  /** That crash can happen in every removal. */
  lemma LeftoverReachable(d: Dir, expected: Files)
    requires Safe(d, expected) && !d.temporary && !IsPending(d)
    ensures exists names :: After(d, expected, Attempt(names, 1)).temporary
  {
    var names := if d.record.Some? then d.record.value.removed else [];
    assert Named(d) == Elements(names);
    assert After(d, expected, Attempt(names, 1)) == d.(temporary := true) by {
      var trace := MaintainTrace(d, expected, names);
      assert trace[0] == d.(temporary := true);
      assert trace[..1] == [d.(temporary := true)];
    }
  }

  lemma InterruptedKeepsGoal(d: Dir, expected: Files, stop: nat)
    requires Safe(d, expected)
    ensures Safe(Interrupted(d, expected, stop), expected)
    ensures !Interrupted(d, expected, stop).temporary ==>
              Recovered(Interrupted(d, expected, stop), expected) == Recovered(d, expected)
  {
    FinishSafe(d, expected);
    var trace := FinishTrace(d, expected);
    var k := if stop < |trace| then stop else |trace|;
    SafeTraceCut(d, trace, expected, k);
    if trace != [] {
      var u := UnlinkTrace(d, d.record.value.removed);
      UnlinkSafe(d, d.record.value.removed, expected);
      UnlinkEnds(d, d.record.value.removed);
      var e := Last(d, u);
      assert trace == u + [e.(temporary := true), e.(record := Some(Completed(d)))];
      if k <= |u| {
        assert trace[..k] == u[..k];
        UnlinkPrefix(d, d.record.value.removed, k);
        var m := Last(d, u[..k]);
        assert m.objects - Named(d) == d.objects - Named(d);
      } else {
        assert trace[..k][k - 1] == trace[k - 1];
        assert k == |u| + 1 || k == |u| + 2;
      }
    }
  }

  lemma {:induction false} UnlinkPrefix(d: Dir, names: seq<Name>, k: nat)
    requires k <= |UnlinkTrace(d, names)|
    ensures var m := Last(d, UnlinkTrace(d, names)[..k]);
            && m.record == d.record && m.temporary == d.temporary
            && m.objects.Keys <= d.objects.Keys && d.objects.Keys - Elements(names) <= m.objects.Keys
            && (forall n | n in m.objects :: m.objects[n] == d.objects[n])
    decreases |names|
  {
    if k > 0 {
      assert names == [names[0]] + names[1..];
      if names[0] in d.objects {
        var next := d.(objects := d.objects - {names[0]});
        UnlinkPrefix(next, names[1..], k - 1);
        var t := UnlinkTrace(next, names[1..]);
        assert UnlinkTrace(d, names)[..k] == [next] + t[..k - 1];
      } else {
        UnlinkPrefix(d, names[1..], k);
      }
    }
  }

  /** Recovery converges: however often it is cut short, the next complete one ends in the
      very state that one undisturbed recovery would have reached. */
  lemma {:induction false} RecoveryConverges(d: Dir, expected: Files, stops: seq<nat>)
    requires Safe(d, expected) && !Recoveries(d, expected, stops).temporary
    ensures var r := Recoveries(d, expected, stops);
            Last(r, FinishTrace(r, expected)) == Last(d, FinishTrace(d, expected))
    decreases |stops|
  {
    if stops != [] {
      var m := Interrupted(d, expected, stops[0]);
      InterruptedKeepsGoal(d, expected, stops[0]);
      if m.temporary {
        TemporaryStays(m, expected, stops[1..]);
      }
      RecoveryConverges(m, expected, stops[1..]);
      FinishSafe(d, expected);
      FinishSafe(m, expected);
    }
  }

  lemma {:induction false} TemporaryStays(d: Dir, expected: Files, stops: seq<nat>)
    requires d.temporary
    ensures Recoveries(d, expected, stops) == d
    decreases |stops|
  {
    if stops != [] {
      TemporaryStays(d, expected, stops[1..]);
    }
  }

  // ---------------------------------------------------------------------------------
  // Which files maintenance may remove
  // ---------------------------------------------------------------------------------

  const THIRTY_DAYS: int := 30 * 86400

  predicate Contains(s: string, part: string) {
    part <= s || (s != "" && Contains(s[1..], part))
  }

  /** The first withdrawal, in ledger order, whose participant occurs in the key. */
  function FirstFor(ws: seq<Withdrawal>, key: Key): Option<Withdrawal> {
    if ws == [] then None else if Contains(key, ws[0].participant) then Some(ws[0]) else FirstFor(ws[1..], key)
  }

  /** What decides a removal: the old objects and withdrawals, the current objects, the time. */
  datatype Grounds = Grounds(objects: map<Key, Object>, current: map<Key, Object>, ws: seq<Withdrawal>, now: int)

  /** An object may go once it has expired or the current ledger marks it deleted. */
  predicate ObjectMayGo(key: Key, o: Object, current: map<Key, Object>, now: int) {
    o.expires <= now || (key in current && current[key].state == Deleted)
  }

  /** A tombstone may go once the first withdrawal found for it is thirty days old. */
  predicate TombstoneMayGo(key: Key, ws: seq<Withdrawal>, now: int) {
    DELETIONS <= key && FirstFor(ws, key).Some? && FirstFor(ws, key).value.created + THIRTY_DAYS <= now
  }

  predicate KeyMayGo(key: Key, g: Grounds) {
    if key in g.objects then ObjectMayGo(key, g.objects[key], g.current, g.now)
    else TombstoneMayGo(key, g.ws, g.now)
  }

  /** Maintenance accepts this old file: it is still there unchanged, or it may go. */
  predicate Passes(name: Name, files: Files, kept: Files, g: Grounds) {
    if name in kept then name in files && kept[name] == files[name] else KeyMayGo(Unflatten(name), g)
  }

  /** The names that are no longer kept, in the order in which they are met. */
  function Dropped(order: seq<Name>, kept: Files): set<Name> {
    if order == [] then {}
    else Dropped(order[..|order| - 1], kept) + (if order[|order| - 1] in kept then {} else {order[|order| - 1]})
  }

  lemma {:induction false} DroppedAre(order: seq<Name>, kept: Files, name: Name)
    ensures name in Dropped(order, kept) <==> name in order && name !in kept
    decreases |order|
  {
    if order != [] {
      DroppedAre(order[..|order| - 1], kept, name);
      assert order == order[..|order| - 1] + [order[|order| - 1]];
    }
  }

  /** The selection loop of maintain_copy, over the old files in their order. */
  method SelectRemovals(previous: set<Name>, order: seq<Name>, files: Files, kept: Files, g: Grounds)
    returns (r: Option<set<Name>>)
    requires forall n | n in order :: n in files
    ensures r.Some? <==> forall i | 0 <= i < |order| :: Passes(order[i], files, kept, g)
    ensures r.Some? ==> r.value == previous + Dropped(order, kept)
  {
    var removed := previous;
    for i := 0 to |order|
      invariant removed == previous + Dropped(order[..i], kept)
      invariant forall k | 0 <= k < i :: Passes(order[k], files, kept, g)
    {
      var name := order[i];
      assert order[..i + 1][..i] == order[..i];
      if name in kept {
        if kept[name] != files[name] {
          return None;
        }
      } else {
        if !KeyMayGo(Unflatten(name), g) {
          return None;
        }
        removed := removed + {name};
      }
    }
    assert order[..|order|] == order;
    return Some(removed);
  }

  // ---------------------------------------------------------------------------------
  // The same, said by the two ledgers
  // ---------------------------------------------------------------------------------

  ghost predicate MarkedDeleted(key: Key, current: Ledger) {
    exists c :: c in current.objects && c.key == key && c.state == Deleted
  }

  /** The saved ledger's object has expired, or the current ledger marks it deleted. */
  ghost predicate ObjectReleased(o: Object, current: Ledger, now: int) {
    o.expires <= now || MarkedDeleted(o.key, current)
  }

  ghost predicate IsObjectKey(key: Key, ledger: Ledger) { exists o :: o in ledger.objects && o.key == key }

  /** What lets an absent file go: its object is released, or it is an old enough tombstone. */
  ghost predicate Released(key: Key, ledger: Ledger, current: Ledger, now: int) {
    if IsObjectKey(key, ledger) then exists o :: o in ledger.objects && o.key == key && ObjectReleased(o, current, now)
    else TombstoneMayGo(key, ledger.deletions, now)
  }

  /** The current proof still has the file. */
  ghost predicate StillThere(name: Name, current: Proof) {
    exists item :: item in current.inventory && item.state == Verified && Flatten(item.key) == name
  }

  ghost predicate StillSame(name: Name, sha: Digest, current: Proof) {
    exists item :: item in current.inventory && item.state == Verified && Flatten(item.key) == name && item.sha == sha
  }

  lemma KeptMeans(kept: Files, current: Proof, name: Name, sha: Digest)
    requires Expects(kept, current.inventory)
    ensures name in kept <==> StillThere(name, current)
    ensures name in kept && kept[name] == sha <==> StillSame(name, sha, current)
  {
  }

  lemma KeyMayGoMeans(key: Key, g: Grounds, ledger: Ledger, current: Ledger)
    requires Indexes(g.objects, ledger.objects, KeyOf) && Indexes(g.current, current.objects, KeyOf)
    requires g.ws == ledger.deletions
    ensures KeyMayGo(key, g) <==> Released(key, ledger, current, g.now)
  {
    if key in g.objects {
      var o := g.objects[key];
      assert o in ledger.objects && o.key == key;
      assert key in g.current ==> g.current[key] in current.objects && g.current[key].key == key;
      assert ObjectMayGo(key, o, g.current, g.now) <==> ObjectReleased(o, current, g.now);
    }
  }

  /** Maintenance passes over one old file: unchanged, or gone with good reason. */
  ghost predicate Admissible(name: Name, sha: Digest, ledger: Ledger, proof: Proof, current: Ledger, now: int) {
    StillSame(name, sha, proof) || (!StillThere(name, proof) && Released(Unflatten(name), ledger, current, now))
  }

  ghost predicate AllAdmissible(files: Files, ledger: Ledger, proof: Proof, current: Ledger, now: int) {
    forall n | n in files :: Admissible(n, files[n], ledger, proof, current, now)
  }

  lemma PassesMeans(name: Name, files: Files, kept: Files, g: Grounds, ledger: Ledger, proof: Proof, current: Ledger)
    requires name in files && Expects(kept, proof.inventory) && g.ws == ledger.deletions
    requires Indexes(g.objects, ledger.objects, KeyOf) && Indexes(g.current, current.objects, KeyOf)
    ensures Passes(name, files, kept, g) <==> Admissible(name, files[name], ledger, proof, current, g.now)
  {
    KeptMeans(kept, proof, name, files[name]);
    KeyMayGoMeans(Unflatten(name), g, ledger, current);
  }

  /** A batch or export item whose name is released belongs to a ledger object that has
      expired or that the current ledger marks deleted. */
  ghost predicate Authorized(item: Item, ledger: Ledger, current: Ledger, now: int) {
    exists o :: o in ledger.objects && IsOf(item, o) && ObjectReleased(o, current, now)
  }

  lemma RemovedObjectsAuthorized(proof: Proof, ledger: Ledger, hash: Hasher, current: Ledger, now: int, item: Item)
    requires Accepts(proof, ledger, hash) && item in proof.inventory && (item.kind == Batch || item.kind == Export)
    requires Released(Unflatten(Flatten(item.key)), ledger, current, now)
    ensures Authorized(item, ledger, current, now)
  {
    assert WellFormed(item) && Recorded(item, ledger, hash);
    FlattenInvertible(item.key);
    var o :| o in ledger.objects && IsOf(item, o);
    var p :| p in ledger.objects && p.key == item.key && ObjectReleased(p, current, now);
    SameKeySameObject(ledger.objects, o, p);
  }

  lemma SameKeySameObject(objects: seq<Object>, o: Object, p: Object)
    requires KeysDistinct(objects, KeyOf) && o in objects && p in objects && o.key == p.key
    ensures o == p
  {
    var i :| 0 <= i < |objects| && objects[i] == o;
    var j :| 0 <= j < |objects| && objects[j] == p;
    assert i == j;
  }

  // ---------------------------------------------------------------------------------
  // Tombstones
  // ---------------------------------------------------------------------------------

  predicate IsUuid(s: string) {
    && |s| == 36
    && (forall i | 0 <= i < 36 :: if i == 8 || i == 13 || i == 18 || i == 23 then s[i] == '-' else Hex(s[i]))
  }

  /** What the collector makes sure of in every ledger: one withdrawal for each participant,
      participants are UUIDs, and objects have object keys. */
  ghost predicate Collected(ledger: Ledger) {
    && (forall w | w in ledger.deletions :: IsUuid(w.participant))
    && (forall i, j | 0 <= i < j < |ledger.deletions| ::
          ledger.deletions[i].participant != ledger.deletions[j].participant)
    && (forall o | o in ledger.objects :: KeyUnder(EVENTS, o.key) || KeyUnder(EXPORTS, o.key))
  }

  lemma {:induction false} ContainsAt(s: string, part: string) returns (i: nat)
    requires Contains(s, part)
    ensures i + |part| <= |s| && s[i..i + |part|] == part
    decreases |s|
  {
    if part <= s {
      i := 0;
    } else {
      i := ContainsAt(s[1..], part);
      assert s[1..][i..i + |part|] == s[i + 1..i + 1 + |part|];
      i := i + 1;
    }
  }

  lemma {:induction false} ContainsFrom(s: string, part: string, i: nat)
    requires i + |part| <= |s| && s[i..i + |part|] == part
    ensures Contains(s, part)
    decreases i
  {
    if i == 0 {
      assert s[..|part|] == part;
    } else {
      assert s[1..][i - 1..i - 1 + |part|] == s[i..i + |part|];
      ContainsFrom(s[1..], part, i - 1);
    }
  }

  /** A tombstone's key contains its own participant, and no other UUID. */
  lemma OwnParticipant(w: Withdrawal, hash: Hasher, q: string)
    requires IsUuid(w.participant) && IsUuid(q) && IsHash(hash(w))
    ensures Contains(TombstoneKey(w, hash), q) <==> q == w.participant
  {
    var key := TombstoneKey(w, hash);
    assert |DELETIONS| == 19 && DELETIONS[18] == '/';
    assert |key| == 125 && key[18] == '/' && key[55] == '/' && key[19..55] == w.participant;
    assert forall k | 56 <= k < 120 :: key[k] == hash(w)[k - 56] && hash(w)[k - 56] in hash(w);
    if Contains(key, q) {
      var i := ContainsAt(key, q);
      forall j | i <= j < i + 36 ensures key[j] != '/' {
        assert key[j] == q[j - i];
      }
      assert q[8] == key[i + 8];
      assert i == 19;
    } else if q == w.participant {
      ContainsFrom(key, q, 19);
    }
  }

  lemma {:induction false} FirstIsOwn(ws: seq<Withdrawal>, w: Withdrawal, hash: Hasher)
    requires w in ws && IsHash(hash(w)) && forall v | v in ws :: IsUuid(v.participant)
    requires forall i, j | 0 <= i < j < |ws| :: ws[i].participant != ws[j].participant
    ensures FirstFor(ws, TombstoneKey(w, hash)) == Some(w)
    decreases |ws|
  {
    OwnParticipant(w, hash, ws[0].participant);
    var k :| 0 <= k < |ws| && ws[k] == w;
    if k > 0 {
      assert ws[1..][k - 1] == w;
      FirstIsOwn(ws[1..], w, hash);
    }
  }

  /** In a collected ledger a tombstone may go exactly when its own thirty days are over. */
  lemma TombstoneAgeExactly(ledger: Ledger, w: Withdrawal, hash: Hasher, now: int)
    requires Collected(ledger) && w in ledger.deletions && IsHash(hash(w))
    ensures TombstoneMayGo(TombstoneKey(w, hash), ledger.deletions, now) <==> w.created + THIRTY_DAYS <= now
  {
    FirstIsOwn(ledger.deletions, w, hash);
    assert DELETIONS <= TombstoneKey(w, hash);
  }

  /** The withdrawal of this tombstone is thirty days old. */
  ghost predicate Aged(item: Item, ledger: Ledger, hash: Hasher, now: int) {
    exists w :: w in ledger.deletions && IsTombstoneOf(item, w, hash) && w.created + THIRTY_DAYS <= now
  }

  lemma NotAnObject(ledger: Ledger, key: Key)
    requires Collected(ledger) && DELETIONS <= key
    ensures !IsObjectKey(key, ledger)
  {
    assert EVENTS[9] == 'e' && EXPORTS[9] == 'e' && DELETIONS[9] == 'd' && key[9] == DELETIONS[9];
  }

  lemma RemovedTombstonesAged(proof: Proof, ledger: Ledger, hash: Hasher, current: Ledger, now: int, item: Item)
    requires Accepts(proof, ledger, hash) && Collected(ledger) && item in proof.inventory && item.kind == Deletion
    requires Released(Unflatten(Flatten(item.key)), ledger, current, now)
    ensures Aged(item, ledger, hash, now)
  {
    assert WellFormed(item) && Recorded(item, ledger, hash);
    FlattenInvertible(item.key);
    var w :| w in ledger.deletions && IsTombstoneOf(item, w, hash);
    assert DELETIONS <= item.key;
    NotAnObject(ledger, item.key);
    TombstoneAgeExactly(ledger, w, hash, now);
  }

  // ---------------------------------------------------------------------------------
  // The copy itself
  // ---------------------------------------------------------------------------------

  lemma ElementsSnoc(l: seq<Name>, n: Name)
    ensures Elements(l + [n]) == Elements(l) + {n}
  {
  }

  lemma MaintainedTrace(d: Dir, expected: Files, names: seq<Name>, before: seq<Dir>)
    requires Verifies(Settle(d, expected), expected, false)
    requires Named(Settle(d, expected)) <= Elements(names) <= expected.Keys
    ensures before + FinishTrace(d, expected) + ApplyTrace(Settle(d, expected), expected, names)
         == before + MaintainTrace(d, expected, names)
  {
  }

  /** Two readings of one inventory are the same files. */
  lemma ExpectsUnique(a: Files, b: Files, inventory: seq<Item>)
    requires Expects(a, inventory) && Expects(b, inventory)
    ensures a == b
  {
    assert a.Keys == b.Keys;
    forall n | n in a ensures a[n] == b[n] {
      var item :| item in inventory && item.state == Verified && Flatten(item.key) == n;
      assert a[n] == item.sha && b[n] == item.sha;
    }
  }

  /** The names of the verified items, in inventory order. */
  function VerifiedNames(inventory: seq<Item>): seq<Name>
    decreases |inventory|
  {
    if inventory == [] then []
    else
      var last := inventory[|inventory| - 1];
      VerifiedNames(inventory[..|inventory| - 1]) + (if last.state == Verified then [Flatten(last.key)] else [])
  }

  lemma {:induction false} VerifiedNamesAre(inventory: seq<Item>, n: Name)
    ensures n in VerifiedNames(inventory) <==>
              exists item :: item in inventory && item.state == Verified && Flatten(item.key) == n
    decreases |inventory|
  {
    if inventory != [] {
      var front, last := inventory[..|inventory| - 1], inventory[|inventory| - 1];
      assert inventory == front + [last];
      VerifiedNamesAre(front, n);
    }
  }

  lemma AllPass(order: seq<Name>, files: Files, kept: Files, g: Grounds, ledger: Ledger, proof: Proof, current: Ledger)
    requires (forall n :: n in order <==> n in files) && Expects(kept, proof.inventory) && g.ws == ledger.deletions
    requires Indexes(g.objects, ledger.objects, KeyOf) && Indexes(g.current, current.objects, KeyOf)
    ensures (forall i | 0 <= i < |order| :: Passes(order[i], files, kept, g)) <==>
              AllAdmissible(files, ledger, proof, current, g.now)
  {
    forall n | n in files
      ensures Passes(n, files, kept, g) <==> Admissible(n, files[n], ledger, proof, current, g.now)
    {
      PassesMeans(n, files, kept, g, ledger, proof, current);
    }
    assert forall i | 0 <= i < |order| :: order[i] in files;
  }

  /** Whatever a round newly removes is removed with good reason. */
  lemma NewlyRemoved(proof: Proof, ledger: Ledger, hash: Hasher, files: Files, current: Proof, currentLedger: Ledger,
                     now: int, previous: set<Name>, names: set<Name>)
    requires Accepts(proof, ledger, hash)
    requires AllAdmissible(files, ledger, current, currentLedger, now)
    requires forall n | n in names :: n in previous || (n in files && !StillThere(n, current))
    ensures forall item | item in proof.inventory && (item.kind == Batch || item.kind == Export)
              && Flatten(item.key) in names - previous :: Authorized(item, ledger, currentLedger, now)
    ensures Collected(ledger) ==> forall item | item in proof.inventory && item.kind == Deletion
              && Flatten(item.key) in names - previous :: Aged(item, ledger, hash, now)
  {
    forall item | item in proof.inventory && Flatten(item.key) in names - previous
      ensures item.kind == Batch || item.kind == Export ==> Authorized(item, ledger, currentLedger, now)
      ensures Collected(ledger) && item.kind == Deletion ==> Aged(item, ledger, hash, now)
    {
      var n := Flatten(item.key);
      assert Admissible(n, files[n], ledger, current, currentLedger, now);
      if item.kind == Batch || item.kind == Export {
        RemovedObjectsAuthorized(proof, ledger, hash, currentLedger, now, item);
      } else if Collected(ledger) && item.kind == Deletion {
        RemovedTombstonesAged(proof, ledger, hash, currentLedger, now, item);
      }
    }
  }

  /** The old files in the order of the inventory: all of them, and nothing else. */
  lemma NamesAreExpected(files: Files, inventory: seq<Item>)
    requires Expects(files, inventory)
    ensures forall n :: n in VerifiedNames(inventory) <==> n in files
  {
    forall n ensures n in VerifiedNames(inventory) <==> n in files {
      VerifiedNamesAre(inventory, n);
    }
  }

  class Copy {
    const proof: Proof      // the saved proof and ledger
    const ledger: Ledger
    const hash: Hasher
    const expected: Files   // and the files they expect
    var objects: Files
    var record: Option<Record>
    var temporary: bool
    ghost var trace: seq<Dir>   // every durable state since the process began

    constructor (proof: Proof, ledger: Ledger, hash: Hasher, expected: Files, d: Dir)
      requires Accepts(proof, ledger, hash) && Expects(expected, proof.inventory)
      ensures this.proof == proof && this.ledger == ledger && this.hash == hash && this.expected == expected
      ensures Saved() && Value() == d && trace == []
    {
      this.proof, this.ledger, this.hash, this.expected := proof, ledger, hash, expected;
      objects, record, temporary, trace := d.objects, d.record, d.temporary, [];
    }

    ghost predicate Saved() { Accepts(proof, ledger, hash) && Expects(expected, proof.inventory) }

    function Value(): Dir
      reads this
    {
      Dir(objects, record, temporary)
    }

    /** False is the refusal because an earlier temporary file needs inspection. */
    method ReplaceMaintenance(r: Record) returns (ok: bool)
      modifies this
      ensures ok <==> !old(temporary)
      ensures trace == old(trace) + ReplaceTrace(old(Value()), r)
      ensures Value() == Last(old(Value()), ReplaceTrace(old(Value()), r))
    {
      if temporary {
        return false;
      }
      temporary := true;
      trace := trace + [Value()];
      record, temporary := Some(r), false;
      trace := trace + [Value()];
      return true;
    }

    /** False is an exception on the way. */
    method FinishPending() returns (ok: bool)
      modifies this
      ensures trace == old(trace) + FinishTrace(old(Value()), expected)
      ensures Value() == Last(old(Value()), FinishTrace(old(Value()), expected))
      ensures ok ==> !IsPending(Value())
      ensures ok <==> (!old(IsPending(Value()))
                       || (old(Verifies(Value(), expected, true)) && Verifies(Value(), expected, false)))
    {
      if !IsPending(Value()) {
        return true;
      }
      if !Verifies(Value(), expected, true) {
        return false;
      }
      var r := record.value;
      UnlinkAll(r.removed);
      ghost var unlinked := Value();
      ok := ReplaceMaintenance(r.(phase := Complete));
      return Verifies(Value(), expected, false);
    }

    method UnlinkAll(names: seq<Name>)
      modifies this`objects, this`trace
      ensures trace == old(trace) + UnlinkTrace(old(Value()), names)
      ensures Value() == Last(old(Value()), UnlinkTrace(old(Value()), names))
    {
      var i := 0;
      assert names[0..] == names;
      while i < |names|
        invariant i <= |names|
        invariant trace + UnlinkTrace(Value(), names[i..]) == old(trace) + UnlinkTrace(old(Value()), names)
        invariant Last(Value(), UnlinkTrace(Value(), names[i..]))
            == Last(old(Value()), UnlinkTrace(old(Value()), names))
        invariant record == old(record) && temporary == old(temporary)
      {
        ghost var rest := names[i..];
        assert rest[0] == names[i] && rest[1..] == names[i + 1..];
        if names[i] in objects {
          objects := objects - {names[i]};
          trace := trace + [Value()];
        }
        i := i + 1;
      }
      assert names[i..] == [];
    }

    method ApplyRemoval(names: seq<Name>) returns (ok: bool)
      modifies this
      ensures trace == old(trace) + ApplyTrace(old(Value()), expected, names)
      ensures Value() == Last(old(Value()), ApplyTrace(old(Value()), expected, names))
      ensures ok ==> !IsPending(Value())
    {
      ok := ReplaceMaintenance(Record(Pending, names));
      if ok {
        ok := FinishPending();
      } else {
        assert FinishTrace(old(Value()), expected) == [];
      }
    }

    /** Both ledgers are read and indexed, and every old file is looked at. */
    method Select(previous: set<Name>, current: Proof, currentLedger: Ledger, now: int) returns (r: Option<set<Name>>)
      requires Saved()
      ensures r.Some? <==> Accepts(current, currentLedger, hash)
                           && AllAdmissible(expected, ledger, current, currentLedger, now)
      ensures r.Some? ==> forall n :: n in r.value <==> n in previous || (n in expected && !StillThere(n, current))
    {
      var files := ExpectedFiles(proof, ledger, hash);
      ExpectsUnique(files.value, expected, proof.inventory);
      var kept := ExpectedFiles(current, currentLedger, hash);
      if kept.Err? {
        return None;
      }
      var currentObjects := IndexEntries(currentLedger.objects, KeyOf);
      var objects := IndexEntries(ledger.objects, KeyOf);
      var g := Grounds(objects, currentObjects, ledger.deletions, now);
      var order := VerifiedNames(proof.inventory);
      NamesAreExpected(expected, proof.inventory);
      r := SelectRemovals(previous, order, expected, kept.value, g);
      AllPass(order, expected, kept.value, g, ledger, current, currentLedger);
      forall n ensures n in Dropped(order, kept.value) <==> n in expected && !StillThere(n, current) {
        DroppedAre(order, kept.value, n);
        KeptMeans(kept.value, current, n, "");
      }
    }

    /** The names of a round: the earlier ones, and the old files that are no longer there. */
    method Choose(current: Proof, currentLedger: Ledger, now: int) returns (r: Option<seq<Name>>)
      requires Saved() && Named(Value()) <= expected.Keys
      ensures r.Some? <==> Accepts(current, currentLedger, hash)
                           && AllAdmissible(expected, ledger, current, currentLedger, now)
      ensures r.Some? ==> Named(Value()) <= Elements(r.value) <= expected.Keys
      ensures r.Some? ==> forall n :: n in Elements(r.value) <==>
                n in Named(Value()) || (n in expected && !StillThere(n, current))
    {
      var previous := if record.Some? then Elements(record.value.removed) else {};
      var removed := Select(previous, current, currentLedger, now);
      if removed.None? {
        return None;
      }
      var names := Listed(removed.value);
      return Some(names);
    }

    /** maintain_copy: recover, verify, read both ledgers, choose, apply.  It passes through
        exactly the durable states of a maintenance with the chosen names.  Each batch or export
        object that is newly removed has expired or is marked deleted in the current ledger, and
        each tombstone of a collected ledger is thirty days old. */
    method Maintain(current: Proof, currentLedger: Ledger, now: int) returns (ok: bool, names: seq<Name>)
      requires Saved()
      modifies this
      ensures trace == old(trace) + FinishTrace(old(Value()), expected)
              || trace == old(trace) + MaintainTrace(old(Value()), expected, names)
      ensures ok ==> trace == old(trace) + MaintainTrace(old(Value()), expected, names) && !IsPending(Value())
      ensures ok ==> Accepts(current, currentLedger, hash) && forall n :: n in Elements(names) <==>
                n in Named(Settle(old(Value()), expected)) || (n in expected && !StillThere(n, current))
      ensures forall item | item in proof.inventory && (item.kind == Batch || item.kind == Export)
                && Flatten(item.key) in Elements(names) - Named(Settle(old(Value()), expected)) ::
                  Authorized(item, ledger, currentLedger, now)
      ensures Collected(ledger) ==> forall item | item in proof.inventory && item.kind == Deletion
                && Flatten(item.key) in Elements(names) - Named(Settle(old(Value()), expected)) ::
                  Aged(item, ledger, hash, now)
    {
      names := [];
      ok := FinishPending();
      if !ok || !Verifies(Value(), expected, false) {
        return false, [];
      }
      var chosen := Choose(current, currentLedger, now);
      if chosen.None? {
        return false, [];
      }
      names := chosen.value;
      NewlyRemoved(proof, ledger, hash, expected, current, currentLedger, now, Named(Value()), Elements(names));
      MaintainedTrace(old(Value()), expected, names, old(trace));
      ok := ApplyRemoval(names);
    }

    method Listed(names: set<Name>) returns (l: seq<Name>)
      ensures Elements(l) == names
    {
      l := [];
      var todo := names;
      while todo != {}
        invariant todo <= names && Elements(l) == names - todo
        decreases |todo|
      {
        var n :| n in todo;
        ElementsSnoc(l, n);
        l, todo := l + [n], todo - {n};
      }
    }
  }
}
