/** Catalogue search with cursors: what matches, one page of it, and the walk that follows
    next links from page to page. */
module StacSearch {
  import opened Results
  import opened Utf8
  import opened StacLinks

  /** West, south, east, north. */
  datatype Box = Box(west: real, south: real, east: real, north: real)

  datatype Item = Item(id: Bytes, revision: nat, collection: Bytes, bbox: Box, start: int, end: int)

  /** A datetime parameter once read: an instant, or an interval that may be open at an end. */
  datatype Times = Instant(at: int) | Interval(lower: Option<int>, upper: Option<int>) | Unreadable

  /** How parameters are read, and cursors written and read back. */
  datatype Codec = Codec(box: Bytes -> Option<Box>, times: Bytes -> Times,
                         write: Cursor -> Bytes, read: Bytes -> Option<Cursor>)

  datatype Cursor = Cursor(snapshot: Bytes, offset: nat, collection: Option<Bytes>, bbox: Option<Bytes>,
                           datetime: Option<Bytes>)

  datatype Limit = Absent | Malformed | Number(value: nat)

  datatype Query = Query(collection: Option<Bytes>, bbox: Option<Bytes>, datetime: Option<Bytes>, limit: Limit,
                         cursor: Option<Bytes>)

  datatype Response = Page(features: seq<Item>, next: Option<Bytes>, matched: nat) | Failure(status: nat)

  /** Cursors are serialized invertibly. */
  ghost predicate Faithful(codec: Codec) { forall c :: codec.read(codec.write(c)) == Some(c) }

  // ---------------------------------------------------------------------------------
  // What matches
  // ---------------------------------------------------------------------------------

  predicate Intersects(a: Box, q: Box) {
    a.west <= q.east && a.east >= q.west && a.south <= q.north && a.north >= q.south
  }

  ghost predicate Inside(x: real, y: real, b: Box) { b.west <= x <= b.east && b.south <= y <= b.north }

  /** Two boxes intersect exactly when they share a point. */
  lemma IntersectsExactly(a: Box, q: Box)
    requires a.west <= a.east && a.south <= a.north && q.west <= q.east && q.south <= q.north
    ensures Intersects(a, q) <==> exists x, y :: Inside(x, y, a) && Inside(x, y, q)
  {
    if Intersects(a, q) {
      var x := if a.west < q.west then q.west else a.west;
      var y := if a.south < q.south then q.south else a.south;
      assert Inside(x, y, a) && Inside(x, y, q);
    }
  }

  predicate Within(lower: Option<int>, upper: Option<int>, t: int) {
    (lower.None? || lower.value <= t) && (upper.None? || t <= upper.value)
  }

  predicate MatchesTimes(start: int, end: int, q: Times) {
    match q
    case Unreadable => false
    case Instant(at) => start <= at && end >= at
    case Interval(lower, upper) =>
      if lower.Some? && upper.Some? && lower.value > upper.value then false
      else (lower.None? || end >= lower.value) && (upper.None? || start <= upper.value)
  }

  predicate Covers(q: Times, t: int)
    requires !q.Unreadable?
  {
    if q.Instant? then t == q.at else Within(q.lower, q.upper, t)
  }

  /** A readable time query matches exactly the intervals that share an instant with it. */
  lemma MatchesTimesExactly(start: int, end: int, q: Times)
    requires start <= end && !q.Unreadable?
    ensures MatchesTimes(start, end, q) <==> exists t: int :: start <= t <= end && Covers(q, t)
  {
    if MatchesTimes(start, end, q) {
      var t := if q.Instant? then q.at else if q.lower.Some? && q.lower.value > start then q.lower.value else start;
      assert start <= t <= end && Covers(q, t);
    }
  }

  predicate Matches(item: Item, collection: Option<Bytes>, bbox: Option<Box>, datetime: Option<Times>) {
    && (collection.None? || item.collection == collection.value)
    && (bbox.None? || Intersects(item.bbox, bbox.value))
    && (datetime.None? || MatchesTimes(item.start, item.end, datetime.value))
  }

  function Search(items: seq<Item>, collection: Option<Bytes>, bbox: Option<Box>, datetime: Option<Times>): seq<Item>
    decreases |items|
  {
    if items == [] then []
    else
      var last := items[|items| - 1];
      Search(items[..|items| - 1], collection, bbox, datetime)
      + (if Matches(last, collection, bbox, datetime) then [last] else [])
  }

  /** The filtered result of a query whose parameters can be read. */
  function Filtered(codec: Codec, all: seq<Item>, q: Query): Option<seq<Item>> {
    var bbox := if q.bbox.Some? then codec.box(q.bbox.value) else None;
    if q.bbox.Some? && bbox.None? then None
    else
      var datetime := if q.datetime.Some? then Some(codec.times(q.datetime.value)) else None;
      Some(Search(all, q.collection, bbox, datetime))
  }

  // ---------------------------------------------------------------------------------
  // Snapshots
  // ---------------------------------------------------------------------------------

  const COLON: Byte := 0x3A
  const SEMICOLON: Byte := 0x3B

  function Decimal(n: nat): Bytes { if n < 10 then [0x30 + n] else Decimal(n / 10) + [0x30 + n % 10] }

  function Material(items: seq<Item>): Bytes {
    if items == [] then [] else items[0].id + [COLON] + Decimal(items[0].revision) + [SEMICOLON] + Material(items[1..])
  }

  function Snapshot(items: seq<Item>): Bytes { HexEncode(Material(items)) }

  lemma {:induction false} DecimalDigits(n: nat)
    ensures Decimal(n) != [] && forall b | b in Decimal(n) :: 0x30 <= b <= 0x39
    decreases n
  {
    if n >= 10 {
      DecimalDigits(n / 10);
    }
  }

  lemma {:induction false} DecimalInjective(a: nat, b: nat)
    requires Decimal(a) == Decimal(b)
    ensures a == b
    decreases a
  {
    DecimalDigits(a / 10);
    DecimalDigits(b / 10);
    assert |Decimal(a)| == 1 <==> a < 10;
    assert |Decimal(b)| == 1 <==> b < 10;
    assert Decimal(a)[|Decimal(a)| - 1] == 0x30 + a % 10 && Decimal(b)[|Decimal(b)| - 1] == 0x30 + b % 10;
    if a >= 10 {
      assert Decimal(a / 10) == Decimal(a)[..|Decimal(a)| - 1];
      assert Decimal(b / 10) == Decimal(b)[..|Decimal(b)| - 1];
      DecimalInjective(a / 10, b / 10);
    }
  }

  /** Texts that end at the first semicolon are equal if their continuations start alike. */
  lemma {:induction false} EntriesAlike(a: Bytes, x: Bytes, b: Bytes, y: Bytes)
    requires SEMICOLON !in a && SEMICOLON !in b && a + [SEMICOLON] + x == b + [SEMICOLON] + y
    ensures a == b && x == y
    decreases |a|
  {
    var s, t := a + [SEMICOLON] + x, b + [SEMICOLON] + y;
    assert (a == [] ==> s[0] == SEMICOLON) && (b == [] ==> t[0] == SEMICOLON);
    assert (a != [] ==> s[0] == a[0]) && (b != [] ==> t[0] == b[0]);
    assert a == [] <==> b == [];
    if a == [] {
      assert s[1..] == x && t[1..] == y;
    } else {
      assert s[1..] == a[1..] + [SEMICOLON] + x && t[1..] == b[1..] + [SEMICOLON] + y;
      EntriesAlike(a[1..], x, b[1..], y);
      assert a == [a[0]] + a[1..] && b == [b[0]] + b[1..];
    }
  }

  /** The digits after the last colon, whatever comes before it. */
  lemma {:induction false} NumbersAlike(a: Bytes, m: Bytes, b: Bytes, n: Bytes)
    requires COLON !in m && COLON !in n && a + [COLON] + m == b + [COLON] + n
    ensures a == b && m == n
    decreases |m|
  {
    var s, t := a + [COLON] + m, b + [COLON] + n;
    var i, j := |m| - 1, |n| - 1;
    assert (m == [] ==> s[|s| - 1] == COLON) && (n == [] ==> t[|t| - 1] == COLON);
    assert (m != [] ==> s[|s| - 1] == m[i]) && (n != [] ==> t[|t| - 1] == n[j]);
    assert m == [] <==> n == [];
    if m == [] {
      assert a == s[..|s| - 1] && b == t[..|t| - 1];
    } else {
      assert s[..|s| - 1] == a + [COLON] + m[..i] && t[..|t| - 1] == b + [COLON] + n[..j];
      NumbersAlike(a, m[..i], b, n[..j]);
      assert m == m[..i] + [m[i]] && n == n[..j] + [n[j]];
    }
  }

  ghost predicate SameRevisions(a: seq<Item>, b: seq<Item>) {
    |a| == |b| && forall i | 0 <= i < |a| :: a[i].id == b[i].id && a[i].revision == b[i].revision
  }

  ghost predicate Separable(items: seq<Item>) { forall item | item in items :: SEMICOLON !in item.id }

  lemma {:induction false} MaterialSame(a: seq<Item>, b: seq<Item>)
    requires SameRevisions(a, b)
    ensures Material(a) == Material(b)
    decreases |a|
  {
    if a != [] {
      assert SameRevisions(a[1..], b[1..]);
      MaterialSame(a[1..], b[1..]);
    }
  }

  lemma EntryText(items: seq<Item>)
    requires items != [] && Separable(items)
    ensures var e := items[0].id + [COLON] + Decimal(items[0].revision);
            SEMICOLON !in e && COLON !in Decimal(items[0].revision)
            && Material(items) == e + [SEMICOLON] + Material(items[1..])
  {
    DecimalDigits(items[0].revision);
    assert items[0] in items;
  }

  lemma {:induction false} MaterialInjective(a: seq<Item>, b: seq<Item>)
    requires Separable(a) && Separable(b) && Material(a) == Material(b)
    ensures SameRevisions(a, b)
    decreases |a|
  {
    if a != [] {
      EntryText(a);
    }
    if b != [] {
      EntryText(b);
    }
    if a != [] && b != [] {
      EntriesAlike(a[0].id + [COLON] + Decimal(a[0].revision), Material(a[1..]),
                   b[0].id + [COLON] + Decimal(b[0].revision), Material(b[1..]));
      NumbersAlike(a[0].id, Decimal(a[0].revision), b[0].id, Decimal(b[0].revision));
      DecimalInjective(a[0].revision, b[0].revision);
      MaterialInjective(a[1..], b[1..]);
      assert forall i | 0 < i < |a| :: a[i] == a[1..][i - 1] && b[i] == b[1..][i - 1];
    }
  }

  /** Two catalogues have one snapshot exactly when they list the same items at the same
      revisions, as long as no identifier contains the separator. */
  lemma SnapshotExactly(a: seq<Item>, b: seq<Item>)
    requires Separable(a) && Separable(b)
    ensures Snapshot(a) == Snapshot(b) <==> SameRevisions(a, b)
  {
    if Snapshot(a) == Snapshot(b) {
      HexInjective(Material(a), Material(b));
      MaterialInjective(a, b);
    } else if SameRevisions(a, b) {
      MaterialSame(a, b);
    }
  }

  // ---------------------------------------------------------------------------------
  // One page
  // ---------------------------------------------------------------------------------

  function Least(a: nat, b: nat): nat { if a < b then a else b }

  /** The cursor that leads on from this many results of the query. */
  function CursorAt(all: seq<Item>, q: Query, offset: nat): Cursor {
    Cursor(Snapshot(all), offset, q.collection, q.bbox, q.datetime)
  }

  /** Where the query's own cursor, if any, says to start. */
  function StartOf(codec: Codec, all: seq<Item>, q: Query): Result<nat, nat> {
    if q.cursor.None? then Ok(0)
    else
      var bytes := HexDecode(q.cursor.value);
      var cursor := if bytes.Some? then codec.read(bytes.value) else None;
      if cursor.None? then Err(400)
      else if cursor.value != CursorAt(all, q, cursor.value.offset) then Err(409)
      else Ok(cursor.value.offset)
  }

  function SearchResponse(codec: Codec, all: seq<Item>, q: Query): Response {
    var filtered := Filtered(codec, all, q);
    var limit := if q.limit.Absent? then 10 else if q.limit.Malformed? then 0 else q.limit.value;
    if filtered.None? then Failure(400)
    else if limit == 0 || limit > 1000 then Failure(400)
    else
      var start := StartOf(codec, all, q);
      if start.Err? then Failure(start.error)
      else if start.value > |filtered.value| then Failure(400)
      else
        var end := Least(start.value + limit, |filtered.value|);
        var next := if end < |filtered.value| then Some(HexEncode(codec.write(CursorAt(all, q, end)))) else None;
        Page(filtered.value[start.value..end], next, |filtered.value|)
  }

  method SearchItems(items: seq<Item>, collection: Option<Bytes>, bbox: Option<Box>, datetime: Option<Times>)
    returns (r: seq<Item>)
    ensures r == Search(items, collection, bbox, datetime)
  {
    r := [];
    for i := 0 to |items|
      invariant r == Search(items[..i], collection, bbox, datetime)
    {
      assert items[..i + 1][..i] == items[..i];
      if Matches(items[i], collection, bbox, datetime) {
        r := r + [items[i]];
      }
    }
    assert items[..|items|] == items;
  }

  method TakeSnapshot(items: seq<Item>) returns (r: Bytes)
    ensures r == Snapshot(items)
  {
    var material: Bytes, rest := [], items;
    while rest != []
      invariant material + Material(rest) == Material(items)
      decreases |rest|
    {
      var entry := rest[0].id + [COLON] + Decimal(rest[0].revision) + [SEMICOLON];
      assert material + (entry + Material(rest[1..])) == material + entry + Material(rest[1..]);
      material, rest := material + entry, rest[1..];
    }
    assert material + [] == material;
    return HexEncode(material);
  }

  method ReadCursor(codec: Codec, all: seq<Item>, q: Query) returns (r: Result<nat, nat>)
    ensures r == StartOf(codec, all, q)
  {
    if q.cursor.None? {
      return Ok(0);
    }
    var bytes := HexDecode(q.cursor.value);
    if bytes.None? {
      return Err(400);
    }
    var cursor := codec.read(bytes.value);
    if cursor.None? {
      return Err(400);
    }
    var current := TakeSnapshot(all);
    if cursor.value.snapshot != current || cursor.value.collection != q.collection || cursor.value.bbox != q.bbox
       || cursor.value.datetime != q.datetime {
      return Err(409);
    }
    return Ok(cursor.value.offset);
  }

  method SkipAndTake(filtered: seq<Item>, offset: nat, limit: nat) returns (page: seq<Item>)
    requires offset <= |filtered|
    ensures page == filtered[offset..Least(offset + limit, |filtered|)]
  {
    page := [];
    while |page| < limit && offset + |page| < |filtered|
      invariant |page| <= limit && offset + |page| <= |filtered| && page == filtered[offset..offset + |page|]
      decreases limit - |page|
    {
      page := page + [filtered[offset + |page|]];
    }
  }

  method ReadFilters(codec: Codec, all: seq<Item>, q: Query) returns (r: Option<seq<Item>>)
    ensures r == Filtered(codec, all, q)
  {
    var bbox: Option<Box> := None;
    if q.bbox.Some? {
      bbox := codec.box(q.bbox.value);
      if bbox.None? {
        return None;
      }
    }
    var datetime := if q.datetime.Some? then Some(codec.times(q.datetime.value)) else None;
    var filtered := SearchItems(all, q.collection, bbox, datetime);
    return Some(filtered);
  }

  /** search_response: checks in their order, then skips and takes. */
  method AnswerSearch(codec: Codec, all: seq<Item>, q: Query) returns (r: Response)
    ensures r == SearchResponse(codec, all, q)
  {
    var filtered := ReadFilters(codec, all, q);
    if filtered.None? || q.limit.Malformed? {
      return Failure(400);
    }
    var limit := if q.limit.Number? then q.limit.value else 10;
    if limit == 0 || limit > 1000 {
      return Failure(400);
    }
    var start := ReadCursor(codec, all, q);
    if start.Err? {
      return Failure(start.error);
    }
    var offset := start.value;
    if offset > |filtered.value| {
      return Failure(400);
    }
    var page := SkipAndTake(filtered.value, offset, limit);
    var next: Option<Bytes> := None;
    if offset + |page| < |filtered.value| {
      var current := TakeSnapshot(all);
      next := Some(HexEncode(codec.write(Cursor(current, offset + |page|, q.collection, q.bbox, q.datetime))));
    }
    return Page(page, next, |filtered.value|);
  }

  // ---------------------------------------------------------------------------------
  // The walk
  // ---------------------------------------------------------------------------------

  /** What a client has collected, whether the last page had no next link, and whether a
      request failed. */
  datatype Walk = Walk(items: seq<Item>, finished: bool, failed: bool)

  /** Follow next links with a limit chosen anew for each page. */
  function Follow(codec: Codec, all: seq<Item>, q: Query, limits: seq<nat>): Walk
    decreases |limits|
  {
    if limits == [] then Walk([], false, false)
    else
      match SearchResponse(codec, all, q.(limit := Number(limits[0])))
      case Failure(_) => Walk([], false, true)
      case Page(features, next, _) =>
        if next.None? then Walk(features, true, false)
        else
          var rest := Follow(codec, all, q.(cursor := next), limits[1..]);
          rest.(items := features + rest.items)
  }

  function Total(limits: seq<nat>): nat { if limits == [] then 0 else limits[0] + Total(limits[1..]) }

  /** A page of a query that starts here: its items, and a next link exactly if more remain. */
  lemma PageFrom(codec: Codec, all: seq<Item>, q: Query, limit: nat)
    requires Faithful(codec) && 1 <= limit <= 1000 && Filtered(codec, all, q).Some?
    requires StartOf(codec, all, q).Ok? && StartOf(codec, all, q).value <= |Filtered(codec, all, q).value|
    ensures var filtered, start := Filtered(codec, all, q).value, StartOf(codec, all, q).value;
            var end := Least(start + limit, |filtered|);
            var r := SearchResponse(codec, all, q.(limit := Number(limit)));
            && r.Page? && r.features == filtered[start..end] && r.matched == |filtered|
            && (r.next.Some? <==> end < |filtered|)
            && (r.next.Some? ==> StartOf(codec, all, q.(cursor := r.next)) == Ok(end))
  {
    var n := q.(limit := Number(limit));
    assert Filtered(codec, all, n) == Filtered(codec, all, q) && StartOf(codec, all, n) == StartOf(codec, all, q);
    var end := Least(StartOf(codec, all, q).value + limit, |Filtered(codec, all, q).value|);
    HexRoundTrip(codec.write(CursorAt(all, q, end)));
    assert CursorAt(all, n, end) == CursorAt(all, q, end);
  }

  /** A query that is read like this and starts there. */
  ghost predicate Reads(codec: Codec, all: seq<Item>, q: Query, filtered: seq<Item>, start: nat) {
    Filtered(codec, all, q) == Some(filtered) && StartOf(codec, all, q) == Ok(start) && start <= |filtered|
  }

  /** One step of the walk: it ends, or goes on from the next link. */
  lemma FollowStep(codec: Codec, all: seq<Item>, q: Query, limits: seq<nat>, filtered: seq<Item>, start: nat)
    returns (onward: Query)
    requires Faithful(codec) && limits != [] && 1 <= limits[0] <= 1000 && Reads(codec, all, q, filtered, start)
    ensures var end := Least(start + limits[0], |filtered|);
            if end < |filtered| then
              && Reads(codec, all, onward, filtered, end)
              && Follow(codec, all, q, limits) == (var w := Follow(codec, all, onward, limits[1..]);
                                                   w.(items := filtered[start..end] + w.items))
            else Follow(codec, all, q, limits) == Walk(filtered[start..end], true, false)
  {
    PageFrom(codec, all, q, limits[0]);
    onward := q.(cursor := SearchResponse(codec, all, q.(limit := Number(limits[0]))).next);
  }

  /** The walk from here collects as much of the rest as its limits allow. */
  ghost predicate Collects(filtered: seq<Item>, start: nat, limits: seq<nat>, w: Walk)
    requires start <= |filtered|
  {
    && !w.failed && w.items == filtered[start..Least(start + Total(limits), |filtered|)]
    && (w.finished <==> limits != [] && start + Total(limits) >= |filtered|)
  }

  lemma CollectsMore(filtered: seq<Item>, start: nat, limits: seq<nat>, w: Walk)
    requires limits != [] && start + limits[0] < |filtered| && Collects(filtered, start + limits[0], limits[1..], w)
    ensures Collects(filtered, start, limits, w.(items := filtered[start..start + limits[0]] + w.items))
  {
    var end := start + limits[0];
    var stop := Least(end + Total(limits[1..]), |filtered|);
    assert filtered[start..end] + filtered[end..stop] == filtered[start..stop];
    assert limits[1..] == [] ==> Total(limits[1..]) == 0;
  }

  lemma CollectsNothing(filtered: seq<Item>, start: nat)
    requires start <= |filtered|
    ensures Collects(filtered, start, [], Walk([], false, false))
  {
  }

  lemma CollectsLast(filtered: seq<Item>, start: nat, limits: seq<nat>)
    requires limits != [] && start <= |filtered| <= start + limits[0]
    ensures Collects(filtered, start, limits, Walk(filtered[start..|filtered|], true, false))
  {
  }

  lemma {:induction false} FollowFrom(codec: Codec, all: seq<Item>, q: Query, limits: seq<nat>,
                                      filtered: seq<Item>, start: nat)
    requires Faithful(codec) && (forall i | 0 <= i < |limits| :: 1 <= limits[i] <= 1000)
    requires Reads(codec, all, q, filtered, start)
    ensures start <= |filtered| && Collects(filtered, start, limits, Follow(codec, all, q, limits))
    decreases |limits|
  {
    if limits == [] {
      CollectsNothing(filtered, start);
    } else {
      var onward := FollowStep(codec, all, q, limits, filtered, start);
      if start + limits[0] < |filtered| {
        FollowFrom(codec, all, onward, limits[1..], filtered, start + limits[0]);
        CollectsMore(filtered, start, limits, Follow(codec, all, onward, limits[1..]));
      } else {
        CollectsLast(filtered, start, limits);
      }
    }
  }

  lemma {:induction false} TotalAtLeast(limits: seq<nat>)
    requires forall i | 0 <= i < |limits| :: limits[i] >= 1
    ensures Total(limits) >= |limits|
    decreases |limits|
  {
    if limits != [] {
      TotalAtLeast(limits[1..]);
    }
  }

  /** Over an unchanged catalogue, with any limit from 1 to 1000 for each page, the walk never
      fails, finishes exactly when the limits cover the result, within as many pages as there
      are results, and then has collected exactly the filtered result in its order. */
  lemma WalkCollects(codec: Codec, all: seq<Item>, q: Query, limits: seq<nat>)
    requires Faithful(codec) && q.cursor.None? && Filtered(codec, all, q).Some?
    requires forall i | 0 <= i < |limits| :: 1 <= limits[i] <= 1000
    ensures var filtered, w := Filtered(codec, all, q).value, Follow(codec, all, q, limits);
            && !w.failed && w.items <= filtered
            && (w.finished <==> limits != [] && Total(limits) >= |filtered|)
            && (w.finished ==> w.items == filtered)
            && (limits != [] && |limits| >= |filtered| ==> w.finished)
  {
    var filtered := Filtered(codec, all, q).value;
    FollowFrom(codec, all, q, limits, filtered, 0);
    TotalAtLeast(limits);
    assert filtered[0..|filtered|] == filtered;
  }

  /** A cursor of another catalogue state, or of another query, is refused. */
  lemma StaleCursorRefused(codec: Codec, before: seq<Item>, after: seq<Item>, p: Query, q: Query, offset: nat)
    requires Faithful(codec) && q.cursor == Some(HexEncode(codec.write(CursorAt(before, p, offset))))
    requires Separable(before) && Separable(after)
    requires !SameRevisions(before, after) || p.collection != q.collection || p.bbox != q.bbox
             || p.datetime != q.datetime
    ensures SearchResponse(codec, after, q).Failure?
    ensures StartOf(codec, after, q) == Err(409)
  {
    HexRoundTrip(codec.write(CursorAt(before, p, offset)));
    SnapshotExactly(before, after);
  }
}
