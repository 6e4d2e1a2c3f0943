/** The archive ledger that a site record carries from stop to stop and from run to run. */
module ArchiveLineage {
  import opened Keyed
  import opened Results

  /** Of an archived object, the four fields that lineage compares. */
  datatype Archived = Archived(key: string, kind: string, participant: string, sha: string)

  /** Objects, the participants of the withdrawals, and the held-out splits. */
  datatype Ledger = Ledger(objects: seq<Archived>, deletions: seq<string>, splits: seq<string>)

  function KeyOf(o: Archived): string { o.key }

  /** What the code compares: the last entry of the same key agrees. */
  predicate Matches(index: map<string, Archived>, o: Archived) { o.key in index && index[o.key].(key := o.key) == o }

  /** Nothing the previous ledger recorded is missing or altered. */
  ghost predicate Extends(previous: Ledger, current: Ledger) {
    && (forall o | o in previous.objects :: o in current.objects)
    && (forall p | p in previous.deletions :: p in current.deletions)
    && (forall x | x in previous.splits :: x in current.splits)
  }

  lemma ExtendsTransitive(a: Ledger, b: Ledger, c: Ledger)
    requires Extends(a, b) && Extends(b, c)
    ensures Extends(a, c)
  {
  }

  /** Lineage between the optional ledgers of two records. */
  ghost predicate Grows(previous: Option<Ledger>, current: Option<Ledger>) {
    previous.Some? ==> current.Some? && Extends(previous.value, current.value)
  }

  method Contains(xs: seq<string>, ys: seq<string>) returns (ok: bool)
    ensures ok <==> forall x | x in xs :: x in ys
  {
    for i := 0 to |xs|
      invariant forall k | 0 <= k < i :: xs[k] in ys
    {
      if xs[i] !in ys {
        return false;
      }
    }
    return true;
  }

  lemma MatchesFound(objects: seq<Archived>, o: Archived)
    requires Matches(ByKey(objects, KeyOf), o)
    ensures o in objects
  {
    ByKeyFinds(objects, KeyOf, o.key);
  }

  lemma FoundMatches(objects: seq<Archived>, o: Archived)
    requires KeysDistinct(objects, KeyOf) && o in objects
    ensures Matches(ByKey(objects, KeyOf), o)
  {
    ByKeyIndexes(objects, KeyOf);
  }

  lemma UnmatchedRefutes(previous: Ledger, current: Ledger, o: Archived)
    requires o in previous.objects && !Matches(ByKey(current.objects, KeyOf), o)
    ensures !(KeysDistinct(current.objects, KeyOf) && Extends(previous, current))
  {
    if KeysDistinct(current.objects, KeyOf) && o in current.objects {
      FoundMatches(current.objects, o);
    }
  }

  /** The lineage check of a fresh ledger: it accepts only extensions, and every extension
      whose keys are distinct. */
  method CheckLineage(previous: Option<Ledger>, current: Ledger) returns (ok: bool)
    ensures ok ==> Grows(previous, Some(current))
    ensures KeysDistinct(current.objects, KeyOf) && Grows(previous, Some(current)) ==> ok
  {
    if previous.None? {
      return true;
    }
    var index := IndexEntries(current.objects, KeyOf);
    var objects := previous.value.objects;
    for i := 0 to |objects|
      invariant forall k | 0 <= k < i :: objects[k] in current.objects
    {
      if !Matches(index, objects[i]) {
        UnmatchedRefutes(previous.value, current, objects[i]);
        return false;
      }
      MatchesFound(current.objects, objects[i]);
    }
    ok := Contains(previous.value.deletions, current.deletions);
    if ok {
      ok := Contains(previous.value.splits, current.splits);
    }
  }
}
