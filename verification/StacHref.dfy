/** Following next links by their text: the server writes the query of the next page into an
    href, and the client sends that text back. */
module StacHref {
  import opened Results
  import opened Utf8
  import opened StacLinks
  import opened StacSearch

  const CURSOR: Bytes := [0x63, 0x75, 0x72, 0x73, 0x6F, 0x72]
  const LIMIT: Bytes := [0x6C, 0x69, 0x6D, 0x69, 0x74]
  const COLLECTIONS: Bytes := [0x63, 0x6F, 0x6C, 0x6C, 0x65, 0x63, 0x74, 0x69, 0x6F, 0x6E, 0x73]
  const BBOX: Bytes := [0x62, 0x62, 0x6F, 0x78]
  const DATETIME: Bytes := [0x64, 0x61, 0x74, 0x65, 0x74, 0x69, 0x6D, 0x65]

  // ---------------------------------------------------------------------------------
  // Reading and writing queries
  // ---------------------------------------------------------------------------------

  function Digits(v: Bytes): Option<nat>
    decreases |v|
  {
    if v == [] then None
    else
      var last := v[|v| - 1];
      var front := if |v| == 1 then Some(0) else Digits(v[..|v| - 1]);
      if front.None? || !(0x30 <= last <= 0x39) then None else Some(front.value * 10 + (last - 0x30))
  }

  /** A number, which may have a plus sign in front. */
  function LimitOf(v: Option<Bytes>): Limit {
    if v.None? then Absent
    else
      var n := Digits(if v.value != [] && v.value[0] == PLUS then v.value[1..] else v.value);
      if n.None? then Limit.Malformed else Number(n.value)
  }

  function Get(m: map<Bytes, Bytes>, k: Bytes): Option<Bytes> { if k in m then Some(m[k]) else None }

  function QueryOf(m: map<Bytes, Bytes>): Query {
    Query(Get(m, COLLECTIONS), Get(m, BBOX), Get(m, DATETIME), LimitOf(Get(m, LIMIT)), Get(m, CURSOR))
  }

  function One(k: Bytes, v: Option<Bytes>): seq<(Bytes, Bytes)> { if v.None? then [] else [(k, v.value)] }

  /** The parameters of a next link, in the order in which they are written. */
  function NextParameters(token: Bytes, limit: Bytes, collection: Option<Bytes>, bbox: Option<Bytes>,
                          datetime: Option<Bytes>): seq<(Bytes, Bytes)> {
    Base(token, limit) + One(COLLECTIONS, collection) + One(BBOX, bbox) + One(DATETIME, datetime)
  }

  function LimitUsed(q: Query): nat { if q.limit.Number? then q.limit.value else 10 }

  function ParametersOf(q: Query, token: Bytes): seq<(Bytes, Bytes)> {
    NextParameters(token, Decimal(LimitUsed(q)), q.collection, q.bbox, q.datetime)
  }

  function NextText(q: Query, token: Bytes): Bytes { Render(ParametersOf(q, token)) }

  /** The answer to a query text. */
  function Serve(codec: Codec, all: seq<Item>, text: Bytes): Response {
    var m := QueryMap(text);
    if m.None? then Failure(400) else SearchResponse(codec, all, QueryOf(m.value))
  }

  lemma {:induction false} DecimalReadsBack(n: nat)
    ensures Digits(Decimal(n)) == Some(n)
    decreases n
  {
    DecimalDigits(n);
    if n >= 10 {
      DecimalReadsBack(n / 10);
      DecimalDigits(n / 10);
      assert Decimal(n)[..|Decimal(n)| - 1] == Decimal(n / 10);
    }
  }

  lemma LimitReadsBack(n: nat)
    ensures LimitOf(Some(Decimal(n))) == Number(n) && Plain(Decimal(n)) && IsText(Decimal(n))
  {
    DecimalReadsBack(n);
    DecimalDigits(n);
    assert Decimal(n)[0] in Decimal(n);
    AsciiIsText(Decimal(n));
  }

  lemma TokenIsPlain(b: Bytes)
    ensures Plain(HexEncode(b)) && IsText(HexEncode(b))
  {
    HexRoundTrip(b);
    AsciiIsText(HexEncode(b));
  }

  predicate Letters(k: Bytes) { forall i | 0 <= i < |k| :: 0x61 <= k[i] <= 0x7A }

  lemma LettersArePlain(k: Bytes)
    requires Letters(k)
    ensures PlainName(k)
  {
    AsciiIsText(k);
  }

  /** Distinct names, told apart by their lengths. */
  ghost predicate WellNamed(ps: seq<(Bytes, Bytes)>, lengths: set<nat>) {
    && (forall i, j | 0 <= i < j < |ps| :: |ps[i].0| != |ps[j].0|)
    && (forall i | 0 <= i < |ps| :: |ps[i].0| in lengths)
  }

  lemma NameAdded(ps: seq<(Bytes, Bytes)>, lengths: set<nat>, k: Bytes, v: Option<Bytes>)
    requires WellNamed(ps, lengths) && |k| !in lengths
    ensures WellNamed(ps + One(k, v), lengths + {|k|})
  {
  }

  function Base(token: Bytes, limit: Bytes): seq<(Bytes, Bytes)> { [(CURSOR, token), (LIMIT, limit)] }

  lemma NextNames(token: Bytes, limit: Bytes, collection: Option<Bytes>, bbox: Option<Bytes>, datetime: Option<Bytes>)
    ensures NamesDistinct(NextParameters(token, limit, collection, bbox, datetime))
  {
    assert |CURSOR| == 6 && |LIMIT| == 5 && |COLLECTIONS| == 11 && |BBOX| == 4 && |DATETIME| == 8;
    var base := Base(token, limit);
    assert WellNamed(base, {6, 5});
    NameAdded(base, {6, 5}, COLLECTIONS, collection);
    NameAdded(base + One(COLLECTIONS, collection), {6, 5} + {11}, BBOX, bbox);
    NameAdded(base + One(COLLECTIONS, collection) + One(BBOX, bbox), {6, 5} + {11} + {4}, DATETIME, datetime);
  }

  predicate IsName(k: Bytes) { k == CURSOR || k == LIMIT || k == COLLECTIONS || k == BBOX || k == DATETIME }

  lemma NextArePlain(token: Bytes, limit: Bytes, collection: Option<Bytes>, bbox: Option<Bytes>,
                     datetime: Option<Bytes>)
    ensures forall p | p in NextParameters(token, limit, collection, bbox, datetime) :: PlainName(p.0)
  {
    forall p | p in NextParameters(token, limit, collection, bbox, datetime) ensures PlainName(p.0) {
      NextMembers(token, limit, collection, bbox, datetime, p);
      NameIsPlain(p.0);
    }
  }

  lemma NameIsPlain(k: Bytes)
    requires IsName(k)
    ensures PlainName(k)
  {
    assert Letters(CURSOR) && Letters(LIMIT) && Letters(COLLECTIONS) && Letters(BBOX) && Letters(DATETIME);
    LettersArePlain(k);
  }

  /** What the link holds: each parameter that there is, under its own name. */
  lemma NextMembers(token: Bytes, limit: Bytes, collection: Option<Bytes>, bbox: Option<Bytes>,
                    datetime: Option<Bytes>, p: (Bytes, Bytes))
    ensures p in NextParameters(token, limit, collection, bbox, datetime) <==>
              || p == (CURSOR, token) || p == (LIMIT, limit)
              || (collection.Some? && p == (COLLECTIONS, collection.value))
              || (bbox.Some? && p == (BBOX, bbox.value)) || (datetime.Some? && p == (DATETIME, datetime.value))
  {
    var base := Base(token, limit);
    assert p in base <==> p == (CURSOR, token) || p == (LIMIT, limit) by {
      assert base[0] == (CURSOR, token) && base[1] == (LIMIT, limit);
    }
    OneMember(base, COLLECTIONS, collection, p);
    OneMember(base + One(COLLECTIONS, collection), BBOX, bbox, p);
    OneMember(base + One(COLLECTIONS, collection) + One(BBOX, bbox), DATETIME, datetime, p);
  }

  lemma OneMember(ps: seq<(Bytes, Bytes)>, k: Bytes, v: Option<Bytes>, p: (Bytes, Bytes))
    ensures p in ps + One(k, v) <==> p in ps || (v.Some? && p == (k, v.value))
  {
  }

  lemma NamedHas(ps: seq<(Bytes, Bytes)>, k: Bytes, v: Bytes)
    requires NamesDistinct(ps) && (k, v) in ps
    ensures Get(Named(ps), k) == Some(v)
  {
    var i :| 0 <= i < |ps| && ps[i] == (k, v);
    NamedFinds(ps, i);
  }

  lemma NamedLacks(ps: seq<(Bytes, Bytes)>, k: Bytes)
    requires forall p | p in ps :: p.0 != k
    ensures Get(Named(ps), k) == None
  {
    NamedOnly(ps, k);
  }

  lemma NamesDiffer()
    ensures CURSOR != LIMIT && CURSOR != COLLECTIONS && CURSOR != BBOX && CURSOR != DATETIME && LIMIT != COLLECTIONS
    ensures LIMIT != BBOX && LIMIT != DATETIME && COLLECTIONS != BBOX && COLLECTIONS != DATETIME && BBOX != DATETIME
  {
    assert |CURSOR| == 6 && |LIMIT| == 5 && |COLLECTIONS| == 11 && |BBOX| == 4 && |DATETIME| == 8;
  }

  /** A name is looked up as the one value it has in the list, if it has one. */
  lemma FoundAs(ps: seq<(Bytes, Bytes)>, k: Bytes, v: Option<Bytes>)
    requires NamesDistinct(ps) && forall x :: (k, x) in ps <==> v == Some(x)
    ensures Get(Named(ps), k) == v
  {
    if v.Some? {
      NamedHas(ps, k, v.value);
    } else {
      forall p | p in ps ensures p.0 != k {
        assert p == (p.0, p.1);
      }
      NamedLacks(ps, k);
    }
  }

  /** A query is read from its parameters as it was written. */
  lemma QueryReadsBack(token: Bytes, limit: Bytes, collection: Option<Bytes>, bbox: Option<Bytes>,
      datetime: Option<Bytes>)
    ensures QueryOf(Named(NextParameters(token, limit, collection, bbox, datetime)))
         == Query(collection, bbox, datetime, LimitOf(Some(limit)), Some(token))
  {
    var ps := NextParameters(token, limit, collection, bbox, datetime);
    NextNames(token, limit, collection, bbox, datetime);
    MembersNamed(token, limit, collection, bbox, datetime);
    FoundAs(ps, CURSOR, Some(token));
    FoundAs(ps, LIMIT, Some(limit));
    FoundAs(ps, COLLECTIONS, collection);
    FoundAs(ps, BBOX, bbox);
    FoundAs(ps, DATETIME, datetime);
  }

  lemma MembersNamed(token: Bytes, limit: Bytes, collection: Option<Bytes>, bbox: Option<Bytes>,
      datetime: Option<Bytes>)
    ensures var ps := NextParameters(token, limit, collection, bbox, datetime);
            && (forall x :: (CURSOR, x) in ps <==> x == token) && (forall x :: (LIMIT, x) in ps <==> x == limit)
            && (forall x :: (COLLECTIONS, x) in ps <==> collection == Some(x))
            && (forall x :: (BBOX, x) in ps <==> bbox == Some(x))
            && (forall x :: (DATETIME, x) in ps <==> datetime == Some(x))
  {
    var ps := NextParameters(token, limit, collection, bbox, datetime);
    NamesDiffer();
    forall k, x
      ensures (k, x) in ps <==>
                || (k, x) == (CURSOR, token) || (k, x) == (LIMIT, limit)
                || (collection.Some? && (k, x) == (COLLECTIONS, collection.value))
                || (bbox.Some? && (k, x) == (BBOX, bbox.value))
                || (datetime.Some? && (k, x) == (DATETIME, datetime.value))
    {
      NextMembers(token, limit, collection, bbox, datetime, (k, x));
    }
  }

  // ---------------------------------------------------------------------------------
  // Plain values
  // ---------------------------------------------------------------------------------

  predicate PlainValue(v: Option<Bytes>) { v.Some? ==> Plain(v.value) && IsText(v.value) }

  predicate PlainQuery(q: Query) { PlainValue(q.collection) && PlainValue(q.bbox) && PlainValue(q.datetime) }

  /** The query that a link of plain values stands for. */
  function Onward(q: Query, token: Bytes): Query { q.(limit := Number(LimitUsed(q)), cursor := Some(token)) }

  lemma PlainLinkStands(q: Query, b: Bytes)
    requires PlainQuery(q)
    ensures QueryMap(NextText(q, HexEncode(b))).Some?
    ensures QueryOf(QueryMap(NextText(q, HexEncode(b))).value) == Onward(q, HexEncode(b))
  {
    var token, limit := HexEncode(b), Decimal(LimitUsed(q));
    TokenIsPlain(b);
    LimitReadsBack(LimitUsed(q));
    NextArePlain(token, limit, q.collection, q.bbox, q.datetime);
    forall p | p in ParametersOf(q, token) ensures Plain(p.1) && IsText(p.1) {
      NextMembers(token, limit, q.collection, q.bbox, q.datetime, p);
    }
    PlainLinkReadsBack(ParametersOf(q, token));
    QueryReadsBack(token, limit, q.collection, q.bbox, q.datetime);
  }

  /** Follow the text of next links for so many pages. */
  function FollowLinks(codec: Codec, all: seq<Item>, q: Query, pages: nat): Walk
    decreases pages
  {
    if pages == 0 then Walk([], false, false)
    else
      match SearchResponse(codec, all, q)
      case Failure(_) => Walk([], false, true)
      case Page(features, next, _) =>
        if next.None? then Walk(features, true, false)
        else
          var m := QueryMap(NextText(q, next.value));
          if m.None? then Walk(features, false, true)
          else
            var rest := FollowLinks(codec, all, QueryOf(m.value), pages - 1);
            rest.(items := features + rest.items)
  }

  function Same(limit: nat, pages: nat): (limits: seq<nat>)
    ensures |limits| == pages && forall i | 0 <= i < pages :: limits[i] == limit
  {
    if pages == 0 then [] else [limit] + Same(limit, pages - 1)
  }

  lemma NextIsToken(codec: Codec, all: seq<Item>, q: Query) returns (b: Bytes)
    requires SearchResponse(codec, all, q).Page? && SearchResponse(codec, all, q).next.Some?
    ensures SearchResponse(codec, all, q).next == Some(HexEncode(b))
  {
    var end := Least(StartOf(codec, all, q).value + LimitUsed(q), |Filtered(codec, all, q).value|);
    b := codec.write(CursorAt(all, q, end));
  }

  /** With plain values the texts lead from page to page as the cursors do. */
  lemma {:induction false} PlainLinksFollow(codec: Codec, all: seq<Item>, q: Query, pages: nat)
    requires PlainQuery(q) && !q.limit.Malformed?
    ensures FollowLinks(codec, all, q, pages) == Follow(codec, all, q, Same(LimitUsed(q), pages))
    decreases pages
  {
    if pages > 0 {
      var l := LimitUsed(q);
      assert Same(l, pages)[0] == l && Same(l, pages)[1..] == Same(l, pages - 1);
      LimitDoesNotMatter(codec, all, q);
      var r := SearchResponse(codec, all, q);
      if r.Page? && r.next.Some? {
        var b := NextIsToken(codec, all, q);
        PlainLinkStands(q, b);
        PlainLinksFollow(codec, all, Onward(q, HexEncode(b)), pages - 1);
        FollowIgnoresLimit(codec, all, q.(cursor := r.next), Number(l), Same(l, pages - 1));
      }
    }
  }

  lemma LimitDoesNotMatter(codec: Codec, all: seq<Item>, q: Query)
    requires !q.limit.Malformed?
    ensures SearchResponse(codec, all, q) == SearchResponse(codec, all, q.(limit := Number(LimitUsed(q))))
  {
    var n := q.(limit := Number(LimitUsed(q)));
    assert Filtered(codec, all, n) == Filtered(codec, all, q) && StartOf(codec, all, n) == StartOf(codec, all, q);
    assert forall end :: CursorAt(all, n, end) == CursorAt(all, q, end);
  }

  lemma {:induction false} FollowIgnoresLimit(codec: Codec, all: seq<Item>, q: Query, limit: Limit, limits: seq<nat>)
    ensures Follow(codec, all, q.(limit := limit), limits) == Follow(codec, all, q, limits)
    decreases |limits|
  {
    if limits != [] {
      assert q.(limit := limit).(limit := Number(limits[0])) == q.(limit := Number(limits[0]));
      var r := SearchResponse(codec, all, q.(limit := Number(limits[0])));
      if r.Page? && r.next.Some? {
        assert q.(limit := limit).(cursor := r.next) == q.(cursor := r.next).(limit := limit);
        FollowIgnoresLimit(codec, all, q.(cursor := r.next), limit, limits[1..]);
      }
    }
  }

  /** The walk by text: for a query of plain values, following next links over an unchanged
      catalogue never fails, and within as many pages as there are results it finishes with
      exactly the filtered result in its order. */
  lemma LinkWalkCollects(codec: Codec, all: seq<Item>, q: Query, pages: nat)
    requires Faithful(codec) && q.cursor.None? && Filtered(codec, all, q).Some? && PlainQuery(q)
    requires !q.limit.Malformed? && 1 <= LimitUsed(q) <= 1000
    ensures var filtered, w := Filtered(codec, all, q).value, FollowLinks(codec, all, q, pages);
            && !w.failed && w.items <= filtered && (w.finished ==> w.items == filtered)
            && (pages > 0 && pages >= |filtered| ==> w.finished)
  {
    PlainLinksFollow(codec, all, q, pages);
    WalkCollects(codec, all, q, Same(LimitUsed(q), pages));
  }

  // ---------------------------------------------------------------------------------
  // Other values
  // ---------------------------------------------------------------------------------

  predicate NoSeparator(v: Option<Bytes>) { v.Some? ==> AMPERSAND !in v.value }

  predicate Readable(v: Option<Bytes>) { v.Some? ==> PercentDecode(v.value).Some? }

  function Reading(v: Option<Bytes>): Option<Bytes>
    requires Readable(v)
  {
    if v.None? then None else PercentDecode(v.value)
  }

  lemma PlainReads(v: Bytes)
    requires Plain(v) && IsText(v)
    ensures PercentDecode(v) == Some(v)
  {
    UnescapedExactly(v);
  }

  /** What a link without ampersands in its values is read as, if all of them can be decoded. */
  lemma EscapedLinkReads(q: Query, b: Bytes)
    requires NoSeparator(q.collection) && NoSeparator(q.bbox) && NoSeparator(q.datetime)
    ensures var m := QueryMap(NextText(q, HexEncode(b)));
            && (m.Some? <==> Readable(q.collection) && Readable(q.bbox) && Readable(q.datetime))
            && (m.Some? ==> QueryOf(m.value) == Query(Reading(q.collection), Reading(q.bbox), Reading(q.datetime),
                                                      Number(LimitUsed(q)), Some(HexEncode(b))))
  {
    var token, limit := HexEncode(b), Decimal(LimitUsed(q));
    TokenIsPlain(b);
    PlainReads(token);
    LimitReadsBack(LimitUsed(q));
    PlainReads(limit);
    NextArePlain(token, limit, q.collection, q.bbox, q.datetime);
    var ps := ParametersOf(q, token);
    forall p | p in ps ensures AMPERSAND !in p.1 {
      NextMembers(token, limit, q.collection, q.bbox, q.datetime, p);
    }
    LinkRereads(ps);
    DecodableMeans(q, token, limit);
    if Decodable(ps) {
      RereadParameters(q, token, limit);
      QueryReadsBack(token, limit, Reading(q.collection), Reading(q.bbox), Reading(q.datetime));
    }
  }

  lemma DecodableMeans(q: Query, token: Bytes, limit: Bytes)
    requires PercentDecode(token).Some? && PercentDecode(limit).Some?
    ensures Decodable(NextParameters(token, limit, q.collection, q.bbox, q.datetime))
            <==> Readable(q.collection) && Readable(q.bbox) && Readable(q.datetime)
  {
    MembersNamed(token, limit, q.collection, q.bbox, q.datetime);
    var ps := NextParameters(token, limit, q.collection, q.bbox, q.datetime);
    if Decodable(ps) {
      assert q.collection.Some? ==> (COLLECTIONS, q.collection.value) in ps;
      assert q.bbox.Some? ==> (BBOX, q.bbox.value) in ps;
      assert q.datetime.Some? ==> (DATETIME, q.datetime.value) in ps;
    } else {
      var p :| p in ps && PercentDecode(p.1).None?;
      NextMembers(token, limit, q.collection, q.bbox, q.datetime, p);
    }
  }

  lemma RereadParameters(q: Query, token: Bytes, limit: Bytes)
    requires PercentDecode(token) == Some(token) && PercentDecode(limit) == Some(limit)
    requires Readable(q.collection) && Readable(q.bbox) && Readable(q.datetime)
    requires Decodable(NextParameters(token, limit, q.collection, q.bbox, q.datetime))
    ensures Reread(NextParameters(token, limit, q.collection, q.bbox, q.datetime))
         == NextParameters(token, limit, Reading(q.collection), Reading(q.bbox), Reading(q.datetime))
  {
  }

  /** A next link with an escape or a plus sign in a value, but no ampersand, is refused: with
      400 if a value cannot be decoded or the box cannot be read any more, else with 409. */
  lemma EscapedLinkRefused(codec: Codec, all: seq<Item>, q: Query, end: nat)
    requires Faithful(codec) && 1 <= LimitUsed(q) <= 1000
    requires NoSeparator(q.collection) && NoSeparator(q.bbox) && NoSeparator(q.datetime) && !PlainQuery(q)
    requires forall v | v == q.collection || v == q.bbox || v == q.datetime :: v.Some? ==> IsText(v.value)
    ensures var token := HexEncode(codec.write(CursorAt(all, q, end)));
            Serve(codec, all, NextText(q, token)) ==
              Failure(if !Readable(q.collection) || !Readable(q.bbox) || !Readable(q.datetime)
                         || (q.bbox.Some? && codec.box(Reading(q.bbox).value).None?) then 400 else 409)
  {
    var b := codec.write(CursorAt(all, q, end));
    EscapedLinkReads(q, b);
    if Readable(q.collection) && Readable(q.bbox) && Readable(q.datetime) {
      ChangedValue(q.collection);
      ChangedValue(q.bbox);
      ChangedValue(q.datetime);
      HexRoundTrip(b);
      var n := Query(Reading(q.collection), Reading(q.bbox), Reading(q.datetime), Number(LimitUsed(q)),
                     Some(HexEncode(b)));
      assert CursorAt(all, n, end) != CursorAt(all, q, end);
      assert StartOf(codec, all, n) == Err(409);
    }
  }

  lemma ChangedValue(v: Option<Bytes>)
    requires NoSeparator(v) && Readable(v) && (v.Some? ==> IsText(v.value))
    ensures Reading(v) == v <==> PlainValue(v)
  {
    if v.Some? {
      UnescapedExactly(v.value);
    }
  }

  /** And with an ampersand in a value the parameters that are read are not those sent. */
  lemma SeparatorIsLost(q: Query, token: Bytes)
    requires !NoSeparator(q.collection) || !NoSeparator(q.bbox) || !NoSeparator(q.datetime)
    ensures QueryMap(NextText(q, token)) != Some(Named(ParametersOf(q, token)))
  {
    var limit := Decimal(LimitUsed(q));
    var ps := ParametersOf(q, token);
    NextNames(token, limit, q.collection, q.bbox, q.datetime);
    MembersNamed(token, limit, q.collection, q.bbox, q.datetime);
    var p := if !NoSeparator(q.collection) then (COLLECTIONS, q.collection.value)
             else if !NoSeparator(q.bbox) then (BBOX, q.bbox.value) else (DATETIME, q.datetime.value);
    assert p in ps;
    var i: nat :| i < |ps| && ps[i] == p;
    AmpersandIsLost(ps, i);
  }
}
