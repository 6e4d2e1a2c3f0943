/** What an archive proof and its provenance ledger must say together before the files they
    name may be copied, kept or pruned. */
module ArchiveInventory {
  import opened Cardinality
  import opened Keyed
  import opened Results

  type Key = string
  type Name = string
  type Digest = string

  datatype Presence = Verified | Deleted | Other

  datatype Kind = Batch | Export | Deletion | Unknown

  datatype Item = Item(key: Key, kind: Kind, sha: Digest, state: Presence)

  datatype Object = Object(key: Key, sha: Digest, state: Presence, expires: int)

  datatype Withdrawal = Withdrawal(created: int, participant: string, reason: string, state: Presence)

  datatype Proof = Proof(protocol: string, status: string, inventory: seq<Item>)

  datatype Ledger = Ledger(protocol: string, objects: seq<Object>, deletions: seq<Withdrawal>)

  /** SHA-256 of a withdrawal's canonical body. */
  type Hasher = Withdrawal -> Digest

  const PROOF_PROTOCOL := "feam.archive-verification.v1"
  const LEDGER_PROTOCOL := "feam.archive-ledger.v1"

  // ---------------------------------------------------------------------------------
  // Keys and file names
  // ---------------------------------------------------------------------------------

  predicate Hex(c: char) { '0' <= c <= '9' || 'a' <= c <= 'f' }

  predicate IsHash(s: string) { |s| == 64 && forall c | c in s :: Hex(c) }

  predicate IsIdentity(s: string) { |s| == 36 && forall c | c in s :: Hex(c) || c == '-' }

  const EVENTS := "research/events/"
  const EXPORTS := "research/exports/"
  const DELETIONS := "research/deletions/"

  predicate KeyUnder(prefix: string, key: Key) {
    && |key| == |prefix| + 36 + 1 + 64 + 5
    && prefix <= key
    && IsIdentity(key[|prefix|..|prefix| + 36])
    && key[|prefix| + 36] == '/'
    && IsHash(key[|prefix| + 37..|prefix| + 101])
    && key[|prefix| + 101..] == ".json"
  }

  predicate IsKey(key: Key) { KeyUnder(EVENTS, key) || KeyUnder(EXPORTS, key) || KeyUnder(DELETIONS, key) }

  function Replace(s: string, from: char, to: char): string {
    if s == "" then "" else [if s[0] == from then to else s[0]] + Replace(s[1..], from, to)
  }

  function Flatten(key: Key): Name { Replace(key, '/', '_') }

  function Unflatten(name: Name): Key { Replace(name, '_', '/') }

  lemma {:induction false} ReplaceInverse(s: string, a: char, b: char)
    requires a != b && b !in s
    ensures Replace(Replace(s, a, b), b, a) == s
  {
    if s != "" {
      ReplaceInverse(s[1..], a, b);
      assert Replace(s, a, b)[1..] == Replace(s[1..], a, b);
    }
  }

  lemma KeyPlain(prefix: string, key: Key)
    requires KeyUnder(prefix, key) && '_' !in prefix
    ensures '_' !in key
  {
    var n := |prefix|;
    assert key == prefix + key[n..n + 36] + [key[n + 36]] + key[n + 37..n + 101] + key[n + 101..];
  }

  /** Turning slashes into underscores loses nothing on the accepted keys. */
  lemma FlattenInvertible(key: Key)
    requires IsKey(key)
    ensures Unflatten(Flatten(key)) == key
  {
    if KeyUnder(EVENTS, key) { KeyPlain(EVENTS, key); }
    else if KeyUnder(EXPORTS, key) { KeyPlain(EXPORTS, key); }
    else { KeyPlain(DELETIONS, key); }
    ReplaceInverse(key, '/', '_');
  }

  lemma FlattenInjective(a: Key, b: Key)
    requires IsKey(a) && IsKey(b) && Flatten(a) == Flatten(b)
    ensures a == b
  {
    FlattenInvertible(a);
    FlattenInvertible(b);
  }

  // ---------------------------------------------------------------------------------
  // What is accepted
  // ---------------------------------------------------------------------------------

  function TombstoneKey(w: Withdrawal, hash: Hasher): Key {
    DELETIONS + w.participant + "/" + hash(w) + ".json"
  }

  predicate WellFormed(item: Item) { IsKey(item.key) && IsHash(item.sha) && item.state != Other }

  function KeyOf(o: Object): Key { o.key }

  ghost predicate TombstonesDistinct(ws: seq<Withdrawal>, hash: Hasher) {
    forall i, j | 0 <= i < j < |ws| :: TombstoneKey(ws[i], hash) != TombstoneKey(ws[j], hash)
  }

  ghost predicate IsOf(item: Item, o: Object) { o.key == item.key && o.sha == item.sha && o.state == item.state }

  ghost predicate IsTombstoneOf(item: Item, w: Withdrawal, hash: Hasher) {
    TombstoneKey(w, hash) == item.key && hash(w) == item.sha && w.state == item.state
  }

  /** The item agrees with the ledger entry that its kind points to. */
  ghost predicate Recorded(item: Item, ledger: Ledger, hash: Hasher) {
    match item.kind
    case Batch => exists o :: o in ledger.objects && IsOf(item, o)
    case Export => exists o :: o in ledger.objects && IsOf(item, o)
    case Deletion => exists w :: w in ledger.deletions && IsTombstoneOf(item, w, hash)
    case Unknown => false
  }

  ghost predicate VerifiedDistinct(inventory: seq<Item>) {
    forall i, j | 0 <= i < j < |inventory| && inventory[i].state == Verified && inventory[j].state == Verified ::
      inventory[i].key != inventory[j].key
  }

  /** Exactly what expected_files accepts.  Its own test for a repeated key compares a key
      with flattened names and never fires, so repeats are found only by counting the
      verified names at the end. */
  ghost predicate Accepts(proof: Proof, ledger: Ledger, hash: Hasher) {
    && proof.protocol == PROOF_PROTOCOL && proof.status == "verified" && ledger.protocol == LEDGER_PROTOCOL
    && (forall item | item in proof.inventory :: WellFormed(item))
    && KeysDistinct(ledger.objects, KeyOf)
    && TombstonesDistinct(ledger.deletions, hash)
    && |proof.inventory| == |ledger.objects| + |ledger.deletions|
    && (forall item | item in proof.inventory :: Recorded(item, ledger, hash))
    && VerifiedDistinct(proof.inventory)
  }

  /** The files a copy must hold, and their digests. */
  ghost predicate Expects(files: map<Name, Digest>, inventory: seq<Item>) {
    && (forall item | item in inventory && item.state == Verified ::
          Flatten(item.key) in files && files[Flatten(item.key)] == item.sha)
    && (forall name | name in files ::
          exists item :: item in inventory && item.state == Verified && Flatten(item.key) == name)
  }

  // ---------------------------------------------------------------------------------
  // expected_files
  // ---------------------------------------------------------------------------------

  function VerifiedCount(inventory: seq<Item>): nat {
    if inventory == [] then 0
    else VerifiedCount(inventory[..|inventory| - 1]) + (if inventory[|inventory| - 1].state == Verified then 1 else 0)
  }

  lemma VerifiedSnoc(front: seq<Item>, item: Item)
    ensures VerifiedCount(front + [item]) == VerifiedCount(front) + (if item.state == Verified then 1 else 0)
    ensures VerifiedDistinct(front + [item]) <==>
              VerifiedDistinct(front) && (item.state == Verified ==>
                forall x | x in front && x.state == Verified :: x.key != item.key)
  {
    var all := front + [item];
    assert all[..|all| - 1] == front && all[|front|] == item;
    if VerifiedDistinct(all) {
      forall i, j | 0 <= i < j < |front| && front[i].state == Verified && front[j].state == Verified
        ensures front[i].key != front[j].key
      {
        assert all[i] == front[i] && all[j] == front[j];
      }
      forall x | x in front && x.state == Verified && item.state == Verified ensures x.key != item.key {
        var k :| 0 <= k < |front| && front[k] == x;
        assert all[k] == x;
      }
    }
  }

  /** The dictionary the first loop fills: a repeated name keeps its last digest. */
  function Index(inventory: seq<Item>): map<Name, Digest> {
    if inventory == [] then map[]
    else
      var front, item := Index(inventory[..|inventory| - 1]), inventory[|inventory| - 1];
      if item.state == Verified then front[Flatten(item.key) := item.sha] else front
  }

  lemma {:induction false} IndexNames(inventory: seq<Item>)
    ensures forall name :: name in Index(inventory) <==>
              exists item :: item in inventory && item.state == Verified && Flatten(item.key) == name
  {
    if inventory != [] {
      var front, last := inventory[..|inventory| - 1], inventory[|inventory| - 1];
      assert inventory == front + [last];
      IndexNames(front);
    }
  }

  lemma IndexKnows(front: seq<Item>, item: Item)
    requires IsKey(item.key) && forall x | x in front :: IsKey(x.key)
    ensures Flatten(item.key) in Index(front) <==> exists x :: x in front && x.state == Verified && x.key == item.key
  {
    IndexNames(front);
    if x :| x in front && x.state == Verified && Flatten(x.key) == Flatten(item.key) {
      FlattenInjective(x.key, item.key);
    }
  }

  /** Counting finds exactly the repeats among the verified keys. */
  lemma {:induction false} IndexCounts(inventory: seq<Item>)
    requires forall item | item in inventory :: IsKey(item.key)
    ensures |Index(inventory)| <= VerifiedCount(inventory)
    ensures |Index(inventory)| == VerifiedCount(inventory) <==> VerifiedDistinct(inventory)
    decreases |inventory|
  {
    if inventory != [] {
      var front, last := inventory[..|inventory| - 1], inventory[|inventory| - 1];
      assert inventory == front + [last];
      VerifiedSnoc(front, last);
      IndexCounts(front);
      IndexKnows(front, last);
    }
  }

  lemma {:induction false} IndexExpects(inventory: seq<Item>)
    requires VerifiedDistinct(inventory) && forall item | item in inventory :: IsKey(item.key)
    ensures Expects(Index(inventory), inventory)
    decreases |inventory|
  {
    IndexNames(inventory);
    if inventory != [] {
      var front, last := inventory[..|inventory| - 1], inventory[|inventory| - 1];
      assert inventory == front + [last];
      VerifiedSnoc(front, last);
      IndexExpects(front);
      forall item | item in front && item.state == Verified
        ensures Flatten(item.key) in Index(inventory) && Index(inventory)[Flatten(item.key)] == item.sha
      {
        if last.state == Verified && Flatten(last.key) == Flatten(item.key) {
          FlattenInjective(last.key, item.key);
        }
      }
    }
  }

  /** First loop: well-formed items, indexed by file name. */
  method IndexInventory(inventory: seq<Item>) returns (r: Option<map<Name, Digest>>)
    ensures r.Some? <==> forall item | item in inventory :: WellFormed(item)
    ensures r.Some? ==> r.value == Index(inventory)
  {
    var files: map<Name, Digest> := map[];
    for i := 0 to |inventory|
      invariant forall item | item in inventory[..i] :: WellFormed(item)
      invariant files == Index(inventory[..i])
    {
      var item := inventory[i];
      assert inventory[..i + 1] == inventory[..i] + [item];
      if !WellFormed(item) {
        return None;
      }
      if item.state == Verified {
        files := files[Flatten(item.key) := item.sha];
      }
    }
    assert inventory[..|inventory|] == inventory;
    return Some(files);
  }

  method IndexDeletions(ws: seq<Withdrawal>, hash: Hasher) returns (r: Option<map<Key, Withdrawal>>)
    ensures r.Some? <==> TombstonesDistinct(ws, hash)
    ensures r.Some? ==> |r.value| == |ws| && IndexesDeletions(r.value, ws, hash)
  {
    var index: map<Key, Withdrawal> := map[];
    for i := 0 to |ws|
      invariant |index| == i
      invariant TombstonesDistinct(ws[..i], hash)
      invariant IndexesDeletions(index, ws[..i], hash)
    {
      var key := TombstoneKey(ws[i], hash);
      assert ws[..i + 1] == ws[..i] + [ws[i]];
      if key in index {
        assert index[key] in ws[..i];
        var k :| 0 <= k < i && ws[k] == index[key];
        assert TombstoneKey(ws[k], hash) == TombstoneKey(ws[i], hash);
        return None;
      }
      assert forall k | 0 <= k < i :: ws[..i][k] in ws[..i];
      index := index[key := ws[i]];
    }
    assert ws[..|ws|] == ws;
    return Some(index);
  }

  ghost predicate IndexesDeletions(index: map<Key, Withdrawal>, ws: seq<Withdrawal>, hash: Hasher) {
    forall k, w :: (k in index && index[k] == w) <==> (w in ws && TombstoneKey(w, hash) == k)
  }

  method CheckRecorded(item: Item, objects: map<Key, Object>, tombstones: map<Key, Withdrawal>,
                       ghost ledger: Ledger, hash: Hasher) returns (ok: bool)
    requires Indexes(objects, ledger.objects, KeyOf) && IndexesDeletions(tombstones, ledger.deletions, hash)
    ensures ok <==> Recorded(item, ledger, hash)
  {
    if item.kind == Batch || item.kind == Export {
      ok := item.key in objects && objects[item.key].sha == item.sha && objects[item.key].state == item.state;
      if ok {
        assert KeyOf(objects[item.key]) == item.key;
        assert IsOf(item, objects[item.key]);
      }
    } else if item.kind == Deletion {
      ok := item.key in tombstones && hash(tombstones[item.key]) == item.sha
            && tombstones[item.key].state == item.state;
      if ok {
        assert IsTombstoneOf(item, tombstones[item.key], hash);
      }
    } else {
      ok := false;
    }
  }

  /** Third loop: every item against the ledger. */
  method AllRecorded(inventory: seq<Item>, objects: map<Key, Object>, tombstones: map<Key, Withdrawal>,
                     ghost ledger: Ledger, hash: Hasher) returns (ok: bool)
    requires Indexes(objects, ledger.objects, KeyOf) && IndexesDeletions(tombstones, ledger.deletions, hash)
    ensures ok <==> forall item | item in inventory :: Recorded(item, ledger, hash)
  {
    for i := 0 to |inventory|
      invariant forall k | 0 <= k < i :: Recorded(inventory[k], ledger, hash)
    {
      ok := CheckRecorded(inventory[i], objects, tombstones, ledger, hash);
      if !ok {
        return false;
      }
    }
    return true;
  }

  /** expected_files: accepts exactly the agreeing pairs and returns the files they expect. */
  method ExpectedFiles(proof: Proof, ledger: Ledger, hash: Hasher) returns (r: Result<map<Name, Digest>, string>)
    ensures r.Ok? <==> Accepts(proof, ledger, hash)
    ensures r.Ok? ==> Expects(r.value, proof.inventory)
  {
    if !(proof.protocol == PROOF_PROTOCOL && proof.status == "verified" && ledger.protocol == LEDGER_PROTOCOL) {
      return Err("verified archive and ledger required");
    }
    var files := IndexInventory(proof.inventory);
    if files.None? {
      return Err("unsafe or repeated archive inventory entry");
    }
    var objects := IndexEntries(ledger.objects, KeyOf);
    if |objects| != |ledger.objects| {
      return Err("repeated archive ledger entry");
    }
    var tombstones := IndexDeletions(ledger.deletions, hash);
    if tombstones.None? {
      return Err("repeated deletion lineage");
    }
    if |proof.inventory| != |objects| + |tombstones.value| {
      return Err("archive inventory differs from full provenance ledger");
    }
    var recorded := AllRecorded(proof.inventory, objects, tombstones.value, ledger, hash);
    if !recorded {
      return Err("archive proof differs from provenance ledger");
    }
    assert forall item | item in proof.inventory :: WellFormed(item);
    IndexCounts(proof.inventory);
    if VerifiedCount(proof.inventory) != |files.value| {
      return Err("flattened archive filenames collided");
    }
    IndexExpects(proof.inventory);
    return Ok(files.value);
  }

  // ---------------------------------------------------------------------------------
  // Inventory and ledger in bijection
  // ---------------------------------------------------------------------------------

  function ObjectKeys(objects: seq<Object>): set<Key> { set o | o in objects :: o.key }

  function TombstoneKeys(ws: seq<Withdrawal>, hash: Hasher): set<Key> { set w | w in ws :: TombstoneKey(w, hash) }

  function InventoryKeys(inventory: seq<Item>): set<Key> { set item | item in inventory :: item.key }

  /** One inventory item for each ledger entry, the other way round too, and no key that is
      both an object and a tombstone. */
  ghost predicate Bijective(proof: Proof, ledger: Ledger, hash: Hasher) {
    && (forall i, j | 0 <= i < j < |proof.inventory| :: proof.inventory[i].key != proof.inventory[j].key)
    && ObjectKeys(ledger.objects) !! TombstoneKeys(ledger.deletions, hash)
    && (forall o | o in ledger.objects ::
          exists item :: item in proof.inventory && (item.kind == Batch || item.kind == Export) && IsOf(item, o))
    && (forall w | w in ledger.deletions ::
          exists item :: item in proof.inventory && item.kind == Deletion && IsTombstoneOf(item, w, hash))
  }

  /** No entry marked deleted shares its key with another entry. */
  ghost predicate DeletedDistinct(inventory: seq<Item>) {
    forall i, j | 0 <= i < |inventory| && 0 <= j < |inventory| && i != j && inventory[i].state == Deleted ::
      inventory[i].key != inventory[j].key
  }

  lemma {:induction false} ObjectKeysCount(objects: seq<Object>)
    ensures |ObjectKeys(objects)| <= |objects|
    decreases |objects|
  {
    if objects != [] {
      var front := objects[..|objects| - 1];
      ObjectKeysCount(front);
      assert objects == front + [objects[|objects| - 1]];
      assert ObjectKeys(objects) == ObjectKeys(front) + {objects[|objects| - 1].key};
    }
  }

  lemma {:induction false} TombstoneKeysCount(ws: seq<Withdrawal>, hash: Hasher)
    ensures |TombstoneKeys(ws, hash)| <= |ws|
    decreases |ws|
  {
    if ws != [] {
      var front := ws[..|ws| - 1];
      TombstoneKeysCount(front, hash);
      assert ws == front + [ws[|ws| - 1]];
      assert TombstoneKeys(ws, hash) == TombstoneKeys(front, hash) + {TombstoneKey(ws[|ws| - 1], hash)};
    }
  }

  lemma {:induction false} InventoryKeysCount(inventory: seq<Item>)
    requires forall i, j | 0 <= i < j < |inventory| :: inventory[i].key != inventory[j].key
    ensures |InventoryKeys(inventory)| == |inventory|
    decreases |inventory|
  {
    if inventory != [] {
      var n := |inventory| - 1;
      var front := inventory[..n];
      InventoryKeysCount(front);
      assert inventory == front + [inventory[n]];
      assert InventoryKeys(inventory) == InventoryKeys(front) + {inventory[n].key};
      assert inventory[n].key !in InventoryKeys(front);
    }
  }

  lemma Pigeonhole<T>(a: set<T>, b: set<T>, c: set<T>)
    requires a <= b + c && |a| >= |b| + |c|
    ensures a == b + c && b !! c
  {
    assert |b + c| == |b| + |c| - |b * c|;
    SubsetSize(a, b + c);
    assert b * c == {};
    forall x | x in b ensures x !in c {
      assert x in b * c <==> x in c;
    }
    if a != b + c {
      var x :| x in b + c && x !in a;
      SubsetSize(a, b + c - {x});
    }
  }

  /** Acceptance puts the inventory in bijection with the ledger exactly when no entry marked
      deleted repeats a key: then an injection between sets of equal size. */
  lemma BijectionExactly(proof: Proof, ledger: Ledger, hash: Hasher)
    requires Accepts(proof, ledger, hash)
    ensures Bijective(proof, ledger, hash) <==> DeletedDistinct(proof.inventory)
  {
    if DeletedDistinct(proof.inventory) {
      DistinctIsBijective(proof, ledger, hash);
    }
  }

  lemma DistinctIsBijective(proof: Proof, ledger: Ledger, hash: Hasher)
    requires Accepts(proof, ledger, hash) && DeletedDistinct(proof.inventory)
    ensures Bijective(proof, ledger, hash)
  {
    var inventory := proof.inventory;
    forall i, j | 0 <= i < j < |inventory| ensures inventory[i].key != inventory[j].key {
      assert WellFormed(inventory[i]) && WellFormed(inventory[j]);
    }
    var mine, os, ws := InventoryKeys(inventory), ObjectKeys(ledger.objects), TombstoneKeys(ledger.deletions, hash);
    forall k | k in mine ensures k in os + ws {
      var item :| item in inventory && item.key == k;
      assert Recorded(item, ledger, hash);
    }
    InventoryKeysCount(inventory);
    ObjectKeysCount(ledger.objects);
    TombstoneKeysCount(ledger.deletions, hash);
    Pigeonhole(mine, os, ws);
    forall o | o in ledger.objects
      ensures exists item :: item in inventory && (item.kind == Batch || item.kind == Export) && IsOf(item, o)
    {
      ObjectIsCovered(proof, ledger, hash, o);
    }
    forall w | w in ledger.deletions
      ensures exists item :: item in inventory && item.kind == Deletion && IsTombstoneOf(item, w, hash)
    {
      TombstoneIsCovered(proof, ledger, hash, w);
    }
  }

  lemma ObjectIsCovered(proof: Proof, ledger: Ledger, hash: Hasher, o: Object)
    requires Accepts(proof, ledger, hash) && o in ledger.objects
    requires ObjectKeys(ledger.objects) !! TombstoneKeys(ledger.deletions, hash)
    requires o.key in InventoryKeys(proof.inventory)
    ensures exists item :: item in proof.inventory && (item.kind == Batch || item.kind == Export) && IsOf(item, o)
  {
    var item :| item in proof.inventory && item.key == o.key;
    assert Recorded(item, ledger, hash) && o.key in ObjectKeys(ledger.objects);
    forall w | w in ledger.deletions ensures !IsTombstoneOf(item, w, hash) {
      assert TombstoneKey(w, hash) in TombstoneKeys(ledger.deletions, hash);
    }
    var p :| p in ledger.objects && IsOf(item, p);
    assert p == o;
  }

  lemma TombstoneIsCovered(proof: Proof, ledger: Ledger, hash: Hasher, w: Withdrawal)
    requires Accepts(proof, ledger, hash) && w in ledger.deletions
    requires ObjectKeys(ledger.objects) !! TombstoneKeys(ledger.deletions, hash)
    requires TombstoneKey(w, hash) in InventoryKeys(proof.inventory)
    ensures exists item :: item in proof.inventory && item.kind == Deletion && IsTombstoneOf(item, w, hash)
  {
    var item :| item in proof.inventory && item.key == TombstoneKey(w, hash);
    assert Recorded(item, ledger, hash) && item.key in TombstoneKeys(ledger.deletions, hash);
    forall o | o in ledger.objects ensures !IsOf(item, o) {
      assert o.key in ObjectKeys(ledger.objects);
    }
    var v :| v in ledger.deletions && IsTombstoneOf(item, v, hash);
    assert v == w;
  }

  /** Without that condition the promise fails: an inventory that lists one deleted object
      twice and never mentions another is accepted. */
  lemma RepeatedDeletionAccepted(a: Key, b: Key, sha: Digest, hash: Hasher)
    requires IsKey(a) && IsKey(b) && a != b && IsHash(sha)
    ensures var item := Item(a, Batch, sha, Deleted);
            var proof := Proof(PROOF_PROTOCOL, "verified", [item, item]);
            var ledger := Ledger(LEDGER_PROTOCOL, [Object(a, sha, Deleted, 0), Object(b, sha, Deleted, 0)], []);
            Accepts(proof, ledger, hash) && !Bijective(proof, ledger, hash)
            && forall x | x in proof.inventory :: x.key != b
  {
    var item := Item(a, Batch, sha, Deleted);
    var ledger := Ledger(LEDGER_PROTOCOL, [Object(a, sha, Deleted, 0), Object(b, sha, Deleted, 0)], []);
    assert ledger.objects[0] in ledger.objects && IsOf(item, ledger.objects[0]);
    assert Recorded(item, ledger, hash);
    assert [item, item][0].key == [item, item][1].key;
  }
}
