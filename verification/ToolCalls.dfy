/** How the provider turns a stream of frames into complete tool calls: fragments are
    gathered by index, checked as a batch and emitted only if the whole batch is valid. */
module ToolCalls {
  import opened Results

  // ---------------------------------------------------------------------------------
  // Router-safe tool names
  // ---------------------------------------------------------------------------------

  /** The two maps of RouterToolNames. */
  datatype Names = Names(to_wire: map<string, string>, to_local: map<string, string>)

  function Wire(name: string): string {
    if name == "" then "" else (if name[0] == '.' then "__" else [name[0]]) + Wire(name[1..])
  }

  predicate WireChar(c: char) {
    'a' <= c <= 'z' || 'A' <= c <= 'Z' || '0' <= c <= '9' || c == '_' || c == '-'
  }

  predicate WireSafe(wire: string) {
    wire != "" && |wire| <= 64 && forall c | c in wire :: WireChar(c)
  }

  /** The tool lists a request may advertise. */
  ghost predicate Mappable(tools: seq<string>) {
    && (forall i | 0 <= i < |tools| :: WireSafe(Wire(tools[i])))
    && (forall i, j | 0 <= i < j < |tools| :: Wire(tools[i]) != Wire(tools[j]))
  }

  ghost predicate MutualInverses(names: Names) {
    && (forall l | l in names.to_wire :: names.to_wire[l] in names.to_local && names.to_local[names.to_wire[l]] == l)
    && (forall w | w in names.to_local :: names.to_local[w] in names.to_wire && names.to_wire[names.to_local[w]] == w)
  }

  /** RouterToolNames::new: it succeeds exactly on lists whose names map to distinct safe
      names, and then each map undoes the other. */
  method NewNames(tools: seq<string>) returns (r: Result<Names, string>)
    ensures r.Ok? <==> Mappable(tools)
    ensures r.Ok? ==>
              && MutualInverses(r.value)
              && (forall l :: l in r.value.to_wire <==> l in tools)
              && (forall l | l in tools :: r.value.to_wire[l] == Wire(l))
  {
    var to_wire: map<string, string>, to_local: map<string, string> := map[], map[];
    for i := 0 to |tools|
      invariant Mappable(tools[..i])
      invariant MutualInverses(Names(to_wire, to_local))
      invariant forall l :: l in to_wire <==> l in tools[..i]
      invariant forall l | l in to_wire :: to_wire[l] == Wire(l)
    {
      var wire := Wire(tools[i]);
      MappableSnoc(tools, i);
      if !WireSafe(wire) || wire in to_local {
        if wire in to_local {
          assert to_local[wire] in to_wire && to_local[wire] in tools[..i];
        }
        return Err("tool names must map to distinct router function names");
      }
      to_wire := to_wire[tools[i] := wire];
      to_local := to_local[wire := tools[i]];
    }
    assert tools[..|tools|] == tools;
    return Ok(Names(to_wire, to_local));
  }

  lemma MappableSnoc(tools: seq<string>, i: nat)
    requires i < |tools| && Mappable(tools[..i])
    ensures tools[..i + 1] == tools[..i] + [tools[i]]
    ensures Mappable(tools[..i + 1]) <==>
              WireSafe(Wire(tools[i])) && forall l | l in tools[..i] :: Wire(l) != Wire(tools[i])
    ensures Mappable(tools) ==> Mappable(tools[..i + 1])
  {
    var next := tools[..i + 1];
    assert next == tools[..i] + [tools[i]];
    if Mappable(next) {
      forall l | l in tools[..i] ensures Wire(l) != Wire(tools[i]) {
        var k :| 0 <= k < i && tools[..i][k] == l;
        assert next[k] == l && next[i] == tools[i];
      }
    }
    if WireSafe(Wire(tools[i])) && forall l | l in tools[..i] :: Wire(l) != Wire(tools[i]) {
      forall a, b | 0 <= a < b < |next| ensures Wire(next[a]) != Wire(next[b]) {
        assert next[a] == tools[..i][a];
        assert b < i ==> next[b] == tools[..i][b];
      }
      forall a | 0 <= a < |next| ensures WireSafe(Wire(next[a])) {
        assert a < i ==> next[a] == tools[..i][a];
      }
    }
  }

  // ---------------------------------------------------------------------------------
  // Frames
  // ---------------------------------------------------------------------------------

  /** One element of a delta's `tool_calls`; a missing index counts as zero. */
  datatype Fragment = Fragment(index: nat, id: Option<string>, name: Option<string>, arguments: Option<string>)

  datatype Frame = Frame(error: bool, usage: bool, finish: Option<string>,
                         content: Option<string>, calls: seq<Fragment>)

  /** What the stream loop can meet: the end marker, an event that is not JSON, a frame, or
      a failure of the transport, of the parser, of the size limit, or a cancellation. */
  datatype Item = Mark | NotJson | Json(frame: Frame) | Broken

  datatype Output<V> = TextDelta(text: string) | Usage | ToolCall(call: Call<V>) | Finished

  datatype Call<V> = Call(id: string, name: string, arguments: V)

  datatype Partial = Partial(id: Option<string>, name: Option<string>, arguments: string)

  type Partials = map<nat, Partial>

  const INDEX_LIMIT: nat := 8

  predicate Clashes(known: Option<string>, given: Option<string>) {
    known.Some? && given.Some? && known.value != given.value
  }

  function Later(known: Option<string>, given: Option<string>): Option<string> {
    if given.Some? then given else known
  }

  function Entry(m: Partials, index: nat): Partial {
    if index in m then m[index] else Partial(None, None, "")
  }

  /** Adding one fragment; None is the error return. */
  function Add(m: Partials, f: Fragment): Option<Partials> {
    var p := Entry(m, f.index);
    if f.index >= INDEX_LIMIT || Clashes(p.id, f.id) || Clashes(p.name, f.name) then None
    else Some(m[f.index := Partial(Later(p.id, f.id), Later(p.name, f.name),
                                   p.arguments + if f.arguments.Some? then f.arguments.value else "")])
  }

  function AddAll(m: Partials, fs: seq<Fragment>): Option<Partials>
    decreases |fs|
  {
    if fs == [] then Some(m)
    else match Add(m, fs[0])
      case None => None
      case Some(n) => AddAll(n, fs[1..])
  }

  // ---------------------------------------------------------------------------------
  // What the fragments say, independently of how they are gathered
  // ---------------------------------------------------------------------------------

  /** The indices the fragments mention. */
  function Mentioned(fs: seq<Fragment>): set<nat> {
    if fs == [] then {} else Mentioned(fs[..|fs| - 1]) + {fs[|fs| - 1].index}
  }

  function Given(o: Option<string>): set<string> { if o.Some? then {o.value} else {} }

  /** The ids, and the names, that an index is given anywhere in the stream. */
  function Ids(fs: seq<Fragment>, index: nat): set<string> {
    if fs == [] then {}
    else Ids(fs[..|fs| - 1], index) + (if fs[|fs| - 1].index == index then Given(fs[|fs| - 1].id) else {})
  }

  function NamesOf(fs: seq<Fragment>, index: nat): set<string> {
    if fs == [] then {}
    else NamesOf(fs[..|fs| - 1], index) + (if fs[|fs| - 1].index == index then Given(fs[|fs| - 1].name) else {})
  }

  /** The in-order concatenation of one index's argument fragments. */
  function Arguments(fs: seq<Fragment>, index: nat): string {
    if fs == [] then ""
    else
      var last := fs[|fs| - 1];
      Arguments(fs[..|fs| - 1], index)
      + if last.index == index && last.arguments.Some? then last.arguments.value else ""
  }

  ghost predicate AtMostOne(said: set<string>) { forall a, b | a in said && b in said :: a == b }

  /** No index is too large and no index is given two ids or two names. */
  ghost predicate Consistent(fs: seq<Fragment>) {
    && (forall i | i in Mentioned(fs) :: i < INDEX_LIMIT)
    && (forall i :: AtMostOne(Ids(fs, i)) && AtMostOne(NamesOf(fs, i)))
  }

  /** An accumulator entry says exactly what the fragments of its index say. */
  ghost predicate Says(p: Partial, fs: seq<Fragment>, index: nat) {
    Given(p.id) == Ids(fs, index) && Given(p.name) == NamesOf(fs, index) && p.arguments == Arguments(fs, index)
  }

  ghost predicate Gathers(m: Partials, fs: seq<Fragment>) {
    m.Keys == Mentioned(fs) && forall i :: Says(Entry(m, i), fs, i)
  }

  lemma Snoc(fs: seq<Fragment>, f: Fragment)
    ensures Mentioned(fs + [f]) == Mentioned(fs) + {f.index}
    ensures forall i :: Ids(fs + [f], i) == Ids(fs, i) + (if f.index == i then Given(f.id) else {})
    ensures forall i :: NamesOf(fs + [f], i) == NamesOf(fs, i) + (if f.index == i then Given(f.name) else {})
    ensures forall i :: Arguments(fs + [f], i) == Arguments(fs, i)
                        + (if f.index == i && f.arguments.Some? then f.arguments.value else "")
  {
    assert (fs + [f])[..|fs + [f]| - 1] == fs;
  }

  lemma AddSays(p: Partial, fs: seq<Fragment>, f: Fragment)
    requires Says(p, fs, f.index) && !Clashes(p.id, f.id) && !Clashes(p.name, f.name)
    ensures Says(Partial(Later(p.id, f.id), Later(p.name, f.name),
                         p.arguments + if f.arguments.Some? then f.arguments.value else ""), fs + [f], f.index)
    ensures AtMostOne(Ids(fs + [f], f.index)) && AtMostOne(NamesOf(fs + [f], f.index))
  {
    Snoc(fs, f);
  }

  lemma AddGathers(m: Partials, fs: seq<Fragment>, f: Fragment)
    requires Gathers(m, fs) && Consistent(fs) && Add(m, f).Some?
    ensures Gathers(Add(m, f).value, fs + [f]) && Consistent(fs + [f])
  {
    var n, gs := Add(m, f).value, fs + [f];
    assert Says(Entry(m, f.index), fs, f.index);
    AddSays(Entry(m, f.index), fs, f);
    Snoc(fs, f);
    forall i ensures Says(Entry(n, i), gs, i) && AtMostOne(Ids(gs, i)) && AtMostOne(NamesOf(gs, i)) {
      if i != f.index {
        assert Says(Entry(m, i), fs, i) && Entry(n, i) == Entry(m, i);
      }
    }
  }

  lemma AddRefuses(m: Partials, fs: seq<Fragment>, f: Fragment)
    requires Gathers(m, fs) && Add(m, f).None?
    ensures !Consistent(fs + [f])
  {
    Snoc(fs, f);
    var p := Entry(m, f.index);
    assert Says(p, fs, f.index);
    if Clashes(p.id, f.id) {
      assert p.id.value in Ids(fs + [f], f.index) && f.id.value in Ids(fs + [f], f.index);
    } else if Clashes(p.name, f.name) {
      assert p.name.value in NamesOf(fs + [f], f.index) && f.name.value in NamesOf(fs + [f], f.index);
    } else {
      assert f.index in Mentioned(fs + [f]);
    }
  }

  lemma {:induction false} StaysInconsistent(fs: seq<Fragment>, gs: seq<Fragment>)
    requires !Consistent(fs)
    ensures !Consistent(fs + gs)
    decreases |gs|
  {
    if gs == [] {
      assert fs + gs == fs;
    } else {
      Snoc(fs, gs[0]);
      StaysInconsistent(fs + [gs[0]], gs[1..]);
      assert fs + gs == (fs + [gs[0]]) + gs[1..];
    }
  }

  /** Gathering succeeds exactly on consistent fragments, and loses nothing of them. */
  lemma {:induction false} AddAllGathers(m: Partials, fs: seq<Fragment>, gs: seq<Fragment>)
    requires Gathers(m, fs) && Consistent(fs)
    ensures AddAll(m, gs).Some? <==> Consistent(fs + gs)
    ensures AddAll(m, gs).Some? ==> Gathers(AddAll(m, gs).value, fs + gs)
    decreases |gs|
  {
    if gs == [] {
      assert fs + gs == fs;
    } else {
      assert fs + gs == (fs + [gs[0]]) + gs[1..];
      if Add(m, gs[0]).Some? {
        AddGathers(m, fs, gs[0]);
        AddAllGathers(Add(m, gs[0]).value, fs + [gs[0]], gs[1..]);
      } else {
        AddRefuses(m, fs, gs[0]);
        StaysInconsistent(fs + [gs[0]], gs[1..]);
      }
    }
  }

  // ---------------------------------------------------------------------------------
  // The complete batch
  // ---------------------------------------------------------------------------------

  /** A gathered call that can be emitted. */
  predicate Ready<V>(p: Partial, names: Names, parse: string -> Option<V>) {
    p.id.Some? && p.name.Some? && p.name.value in names.to_local && parse(p.arguments).Some?
  }

  /** Every entry below `k` can be emitted, and no two of them share an id. */
  predicate ReadyBelow<V>(m: Partials, names: Names, parse: string -> Option<V>, k: nat) {
    && (forall i | i in m && i < k :: Ready(m[i], names, parse))
    && (forall i, j | i in m && j in m && i < k && j < k && m[i].id == m[j].id :: i == j)
  }

  function CallOf<V>(p: Partial, names: Names, parse: string -> Option<V>): Call<V>
    requires Ready(p, names, parse)
  {
    Call(p.id.value, names.to_local[p.name.value], parse(p.arguments).value)
  }

  /** The gathered indices below `k`, in ascending order. */
  function Indices(m: Partials, k: nat): seq<nat> {
    if k == 0 then [] else Indices(m, k - 1) + (if k - 1 in m then [k - 1] else [])
  }

  lemma {:induction false} IndicesAscend(m: Partials, k: nat)
    ensures forall a, b | 0 <= a < b < |Indices(m, k)| :: Indices(m, k)[a] < Indices(m, k)[b]
    ensures forall i :: i in Indices(m, k) <==> i < k && i in m
  {
    if k > 0 {
      IndicesAscend(m, k - 1);
      var front := Indices(m, k - 1);
      forall a | 0 <= a < |front| ensures front[a] < k - 1 {
        assert front[a] in front;
      }
    }
  }

  function CallsOf<V>(m: Partials, names: Names, parse: string -> Option<V>, indices: seq<nat>): seq<Call<V>>
    requires forall i | i in indices :: i in m && Ready(m[i], names, parse)
  {
    seq(|indices|, k requires 0 <= k < |indices| => CallOf(m[indices[k]], names, parse))
  }

  /** The batch loop of stream_async: every check is made before anything is emitted. */
  method CompleteCalls<V>(m: Partials, names: Names, parse: string -> Option<V>) returns (r: Option<seq<Call<V>>>)
    requires forall i | i in m :: i < INDEX_LIMIT
    ensures r.Some? <==> ReadyBelow(m, names, parse, INDEX_LIMIT)
    ensures r.Some? ==> (forall i | i in Indices(m, INDEX_LIMIT) :: i in m)
                        && r.value == CallsOf(m, names, parse, Indices(m, INDEX_LIMIT))
  {
    var calls: seq<Call<V>>, ids: set<string>, k := [], {}, 0;
    while k < INDEX_LIMIT
      invariant k <= INDEX_LIMIT
      invariant ReadyBelow(m, names, parse, k) && ids == IdsBelow(m, k)
      invariant forall i | i in Indices(m, k) :: i in m && Ready(m[i], names, parse)
      invariant calls == CallsOf(m, names, parse, Indices(m, k))
    {
      ReadyStep(m, names, parse, k);
      CallsOfSnoc(m, names, parse, Indices(m, k), k);
      if k in m {
        var call := Complete(m[k], names, parse, ids);
        if call.None? {
          return None;
        }
        ids := ids + {call.value.id};
        calls := calls + [call.value];
      }
      k := k + 1;
    }
    return Some(calls);
  }

  ghost function IdsBelow(m: Partials, k: nat): set<string> {
    set i | i in m && i < k && m[i].id.Some? :: m[i].id.value
  }

  lemma ReadyStep<V>(m: Partials, names: Names, parse: string -> Option<V>, k: nat)
    requires k < INDEX_LIMIT && ReadyBelow(m, names, parse, k)
    ensures k !in m ==> ReadyBelow(m, names, parse, k + 1) && IdsBelow(m, k + 1) == IdsBelow(m, k)
    ensures k in m && Ready(m[k], names, parse) ==> IdsBelow(m, k + 1) == IdsBelow(m, k) + {m[k].id.value}
    ensures k in m ==>
              if Ready(m[k], names, parse) && m[k].id.value !in IdsBelow(m, k) then ReadyBelow(m, names, parse, k + 1)
              else !ReadyBelow(m, names, parse, INDEX_LIMIT)
  {
    if k in m && Ready(m[k], names, parse) {
      assert forall i | i in m && i < k ::
        Ready(m[i], names, parse) && (m[i].id == m[k].id ==> m[k].id.value in IdsBelow(m, k));
    }
  }

  lemma CallsOfSnoc<V>(m: Partials, names: Names, parse: string -> Option<V>, indices: seq<nat>, k: nat)
    requires (forall i | i in indices :: i in m && Ready(m[i], names, parse))
    ensures k in m && Ready(m[k], names, parse) ==>
              (forall i | i in indices + [k] :: i in m && Ready(m[i], names, parse))
              && CallsOf(m, names, parse, indices + [k])
                 == CallsOf(m, names, parse, indices) + [CallOf(m[k], names, parse)]
  {
  }

  /** The checks on one entry, in the order the code makes them. */
  method Complete<V>(p: Partial, names: Names, parse: string -> Option<V>, ids: set<string>)
    returns (r: Option<Call<V>>)
    ensures r.Some? <==> Ready(p, names, parse) && p.id.value !in ids
    ensures r.Some? ==> r.value == CallOf(p, names, parse)
  {
    if p.id.None? || p.id.value in ids || p.name.None? || p.name.value !in names.to_local {
      return None;
    }
    var arguments := parse(p.arguments);
    if arguments.None? {
      return None;
    }
    return Some(Call(p.id.value, names.to_local[p.name.value], arguments.value));
  }

  // ---------------------------------------------------------------------------------
  // The stream
  // ---------------------------------------------------------------------------------

  /** Every fragment of the stream, in order. */
  function Fragments(items: seq<Item>): seq<Fragment> {
    if items == [] then []
    else Fragments(items[..|items| - 1])
         + (if items[|items| - 1].Json? then items[|items| - 1].frame.calls else [])
  }

  /** What the loop shows of the frames while it reads: usage and text, never a call. */
  function Shown<V>(frame: Frame): seq<Output<V>> {
    if frame.error then []
    else (if frame.usage then [Usage] else [])
         + (if frame.content.Some? then [TextDelta(frame.content.value)] else [])
  }

  function ShownAll<V>(items: seq<Item>): seq<Output<V>> {
    if items == [] then []
    else ShownAll(items[..|items| - 1])
         + (if items[|items| - 1].Json? then Shown(items[|items| - 1].frame) else [])
  }

  /** The last finish reason of the stream. */
  function Reason(items: seq<Item>): Option<string> {
    if items == [] then None
    else
      var last := items[|items| - 1];
      if last.Json? && last.frame.finish.Some? then last.frame.finish else Reason(items[..|items| - 1])
  }

  ghost predicate Sane(items: seq<Item>) {
    forall k | 0 <= k < |items| :: items[k].Mark? || (items[k].Json? && !items[k].frame.error)
  }

  predicate Ended(items: seq<Item>) {
    Mark in items && (Reason(items) == Some("stop") || Reason(items) == Some("tool_calls"))
  }

  /** Exactly the streams whose calls may be emitted, said without the accumulator: the
      stream is sane and ended, its fragments are consistent, every mentioned index has an
      id of its own, a known name and parseable arguments. */
  ghost predicate Acceptable<V>(items: seq<Item>, names: Names, parse: string -> Option<V>) {
    var fs := Fragments(items);
    && Sane(items) && Ended(items) && Consistent(fs)
    && (forall i | i in Mentioned(fs) ::
          && Ids(fs, i) != {}
          && (exists name :: name in NamesOf(fs, i) && name in names.to_local)
          && parse(Arguments(fs, i)).Some?)
    && (forall i, j | i in Mentioned(fs) && j in Mentioned(fs) && Ids(fs, i) == Ids(fs, j) :: i == j)
  }

  /** A call built from everything the stream says about one index. */
  ghost predicate CallOfIndex<V>(call: Call<V>, fs: seq<Fragment>, index: nat, names: Names,
                                 parse: string -> Option<V>) {
    && Ids(fs, index) == {call.id}
    && (exists name :: name in names.to_local && NamesOf(fs, index) == {name} && names.to_local[name] == call.name)
    && parse(Arguments(fs, index)) == Some(call.arguments)
  }

  /** The calls a stream may emit: one for each mentioned index, in ascending order. */
  ghost predicate CallsOfStream<V>(calls: seq<Call<V>>, indices: seq<nat>, fs: seq<Fragment>,
                                   names: Names, parse: string -> Option<V>) {
    && (forall a, b | 0 <= a < b < |indices| :: indices[a] < indices[b])
    && (forall i: nat :: i in indices <==> i in Mentioned(fs))
    && |calls| == |indices|
    && (forall k | 0 <= k < |indices| :: CallOfIndex(calls[k], fs, indices[k], names, parse))
  }

  ghost predicate DistinctIds<V>(calls: seq<Call<V>>) {
    forall a, b | 0 <= a < b < |calls| :: calls[a].id != calls[b].id
  }

  predicate Quiet<V>(out: seq<Output<V>>) {
    forall k | 0 <= k < |out| :: out[k].TextDelta? || out[k].Usage?
  }

  function Emitted<V>(calls: seq<Call<V>>): seq<Output<V>> {
    if calls == [] then [Finished] else [ToolCall(calls[0])] + Emitted(calls[1..])
  }

  lemma {:induction false} EmittedEndsFinished<V>(calls: seq<Call<V>>)
    ensures |Emitted(calls)| == |calls| + 1 && Emitted(calls)[|calls|] == Finished
    ensures forall k | 0 <= k < |calls| :: Emitted(calls)[k] == ToolCall(calls[k])
  {
    if calls != [] {
      EmittedEndsFinished(calls[1..]);
    }
  }

  lemma ReadySays<V>(p: Partial, fs: seq<Fragment>, i: nat, names: Names, parse: string -> Option<V>)
    requires Says(p, fs, i)
    ensures Ready(p, names, parse) <==>
              && Ids(fs, i) != {}
              && (exists name :: name in NamesOf(fs, i) && name in names.to_local)
              && parse(Arguments(fs, i)).Some?
    ensures Ready(p, names, parse) ==> CallOfIndex(CallOf(p, names, parse), fs, i, names, parse)
  {
    if Ready(p, names, parse) {
      assert p.id.value in Ids(fs, i) && p.name.value in NamesOf(fs, i);
    }
  }

  /** Readiness of the gathered map is acceptability of the fragments. */
  lemma ReadyMeansAcceptable<V>(m: Partials, items: seq<Item>, names: Names, parse: string -> Option<V>)
    requires Gathers(m, Fragments(items)) && Consistent(Fragments(items)) && Sane(items) && Ended(items)
    ensures ReadyBelow(m, names, parse, INDEX_LIMIT) <==> Acceptable(items, names, parse)
  {
    var fs := Fragments(items);
    forall i | i in m ensures Says(m[i], fs, i) && i < INDEX_LIMIT {
      assert Says(Entry(m, i), fs, i);
      ReadySays(m[i], fs, i, names, parse);
    }
    forall i, j | i in m && j in m
      ensures Ready(m[i], names, parse) && Ready(m[j], names, parse) ==>
                (m[i].id == m[j].id <==> Ids(fs, i) == Ids(fs, j))
    {
      SameId(m[i].id, m[j].id);
    }
    forall i | i in m ensures Ready(m[i], names, parse) <==>
      (Ids(fs, i) != {} && (exists name :: name in NamesOf(fs, i) && name in names.to_local)
          && parse(Arguments(fs, i)).Some?)
    {
      ReadySays(m[i], fs, i, names, parse);
    }
  }

  lemma SameId(a: Option<string>, b: Option<string>)
    ensures a.Some? && b.Some? ==> (a == b <==> Given(a) == Given(b))
  {
    if a.Some? && b.Some? && Given(a) == Given(b) {
      assert a.value in Given(b);
    }
  }

  lemma ReadyCalls<V>(m: Partials, fs: seq<Fragment>, names: Names, parse: string -> Option<V>)
    requires Gathers(m, fs) && ReadyBelow(m, names, parse, INDEX_LIMIT)
    requires forall i | i in m :: i < INDEX_LIMIT
    ensures forall i | i in Indices(m, INDEX_LIMIT) :: i in m
    ensures CallsOfStream(CallsOf(m, names, parse, Indices(m, INDEX_LIMIT)), Indices(m, INDEX_LIMIT), fs, names, parse)
    ensures DistinctIds(CallsOf(m, names, parse, Indices(m, INDEX_LIMIT)))
  {
    var indices := Indices(m, INDEX_LIMIT);
    IndicesAscend(m, INDEX_LIMIT);
    var calls := CallsOf(m, names, parse, indices);
    forall k | 0 <= k < |indices| ensures CallOfIndex(calls[k], fs, indices[k], names, parse) {
      var i := indices[k];
      assert i in indices && Says(Entry(m, i), fs, i);
      ReadySays(m[i], fs, i, names, parse);
    }
    forall a, b | 0 <= a < b < |calls| ensures calls[a].id != calls[b].id {
      assert indices[a] in indices && indices[b] in indices;
    }
  }

  lemma {:induction false} ShownIsQuiet<V>(items: seq<Item>)
    ensures Quiet<V>(ShownAll(items))
  {
    if items != [] {
      ShownIsQuiet<V>(items[..|items| - 1]);
    }
  }

  lemma {:induction false} PrefixShown<V>(items: seq<Item>, k: nat)
    requires k <= |items|
    ensures ShownAll<V>(items[..k]) <= ShownAll<V>(items)
    decreases |items|
  {
    if k == |items| {
      assert items[..k] == items;
    } else {
      assert items[..|items| - 1][..k] == items[..k];
      PrefixShown<V>(items[..|items| - 1], k);
    }
  }

  lemma {:induction false} InconsistentFrom(items: seq<Item>, k: nat)
    requires k <= |items| && !Consistent(Fragments(items[..k]))
    ensures !Consistent(Fragments(items))
    decreases |items|
  {
    if k == |items| {
      assert items[..k] == items;
    } else {
      var front := items[..|items| - 1];
      assert front[..k] == items[..k];
      InconsistentFrom(front, k);
      StaysInconsistent(Fragments(front), if items[|items| - 1].Json? then items[|items| - 1].frame.calls else []);
    }
  }

  lemma PrefixIsQuiet<V>(items: seq<Item>, i: nat)
    requires i <= |items|
    ensures Quiet<V>(ShownAll(items[..i])) && ShownAll<V>(items[..i]) <= ShownAll<V>(items)
  {
    ShownIsQuiet<V>(items[..i]);
    PrefixShown<V>(items, i);
  }

  lemma Extend<V>(items: seq<Item>, item: Item)
    ensures var calls := if item.Json? then item.frame.calls else [];
            Fragments(items + [item]) == Fragments(items) + calls
    ensures var shown := if item.Json? then Shown(item.frame) else [];
            ShownAll<V>(items + [item]) == ShownAll<V>(items) + shown
    ensures Reason(items + [item]) == if item.Json? && item.frame.finish.Some? then item.frame.finish else Reason(items)
    ensures Sane(items + [item]) <==> Sane(items) && (item.Mark? || (item.Json? && !item.frame.error))
  {
    var next := items + [item];
    assert next[..|next| - 1] == items && next[|next| - 1] == item;
    if Sane(next) {
      forall k | 0 <= k < |items| ensures items[k].Mark? || (items[k].Json? && !items[k].frame.error) {
        assert next[k] == items[k];
      }
    }
  }

  lemma InsaneFrom(items: seq<Item>, i: nat)
    requires i <= |items| && !Sane(items[..i])
    ensures !Sane(items)
  {
  }

  /** What the read loop has gathered when it reaches the end of the stream. */
  datatype Read = Read(m: Partials, done: bool, finish: Option<string>)

  /** The read loop: text and usage are shown at once, calls only gathered. */
  method ReadFrames<V>(items: seq<Item>) returns (r: Option<Read>, out: seq<Output<V>>)
    ensures r.Some? <==> Sane(items) && Consistent(Fragments(items))
    ensures r.Some? ==> Gathers(r.value.m, Fragments(items)) && out == ShownAll(items)
    ensures r.Some? ==> (r.value.done <==> Mark in items) && r.value.finish == Reason(items)
    ensures r.None? ==> Quiet(out) && out <= ShownAll(items)
  {
    out := [];
    var m: Partials, done, finish := map[], false, None;
    for i := 0 to |items|
      invariant Sane(items[..i]) && Consistent(Fragments(items[..i])) && Gathers(m, Fragments(items[..i]))
      invariant out == ShownAll(items[..i])
      invariant done <==> Mark in items[..i]
      invariant finish == Reason(items[..i])
    {
      assert items[..i + 1] == items[..i] + [items[i]];
      Extend<V>(items[..i], items[i]);
      PrefixIsQuiet<V>(items, i);
      PrefixIsQuiet<V>(items, i + 1);
      if !Sane(items[..i + 1]) {
        InsaneFrom(items, i + 1);
      }
      match items[i] {
        case Broken => return None, out;
        case NotJson => return None, out;
        case Mark => done := true; assert Fragments(items[..i]) + [] == Fragments(items[..i]);
        case Json(frame) =>
          if frame.finish.Some? {
            finish := frame.finish;
          }
          var more, shown := ReadFrame(frame, m, Fragments(items[..i]));
          out := out + shown;
          if more.None? {
            if !frame.error {
              InconsistentFrom(items, i + 1);
            }
            return None, out;
          }
          m := more.value;
      }
    }
    assert items[..|items|] == items;
    return Some(Read(m, done, finish)), out;
  }

  /** process_router_event on one frame. */
  method ReadFrame<V>(frame: Frame, m: Partials, ghost fs: seq<Fragment>)
    returns (more: Option<Partials>, shown: seq<Output<V>>)
    requires Gathers(m, fs) && Consistent(fs)
    ensures more.Some? <==> !frame.error && Consistent(fs + frame.calls)
    ensures more.Some? ==> Gathers(more.value, fs + frame.calls)
    ensures shown == Shown(frame)
  {
    shown := [];
    if frame.error {
      return None, shown;
    }
    if frame.usage {
      shown := shown + [Usage];
    }
    if frame.content.Some? {
      shown := shown + [TextDelta(frame.content.value)];
    }
    more := Gather(m, frame.calls);
    AddAllGathers(m, fs, frame.calls);
  }

  /** The accumulating and emitting part of stream_async.  It is all or nothing: on an error
      it has shown only text and usage; otherwise it ends with the stream's calls and then
      Finished, and it succeeds on exactly the acceptable streams. */
  method Stream<V>(items: seq<Item>, names: Names, parse: string -> Option<V>) returns (ok: bool, out: seq<Output<V>>)
    ensures ok <==> Acceptable(items, names, parse)
    ensures !ok ==> Quiet(out) && out <= ShownAll(items)
    ensures ok ==> exists calls, indices :: CallsOfStream(calls, indices, Fragments(items), names, parse)
                                            && DistinctIds(calls) && out == ShownAll(items) + Emitted(calls)
  {
    var r;
    r, out := ReadFrames(items);
    if r.None? {
      return false, out;
    }
    ShownIsQuiet<V>(items);
    if !r.value.done || (r.value.finish != Some("stop") && r.value.finish != Some("tool_calls")) {
      return false, out;
    }
    var m := r.value.m;
    ReadyMeansAcceptable(m, items, names, parse);
    var calls := CompleteCalls(m, names, parse);
    if calls.None? {
      return false, out;
    }
    ReadyCalls(m, Fragments(items), names, parse);
    out := Emit(out, calls.value);
    return true, out;
  }

  /** The loop over one delta's fragments. */
  method Gather(m: Partials, fs: seq<Fragment>) returns (r: Option<Partials>)
    ensures r == AddAll(m, fs)
  {
    var n := m;
    for i := 0 to |fs|
      invariant AddAll(m, fs) == AddAll(n, fs[i..])
    {
      var next := Add(n, fs[i]);
      assert fs[i..][0] == fs[i] && fs[i..][1..] == fs[i + 1..];
      if next.None? {
        return None;
      }
      n := next.value;
    }
    return Some(n);
  }

  method Emit<V>(shown: seq<Output<V>>, calls: seq<Call<V>>) returns (out: seq<Output<V>>)
    ensures out == shown + Emitted(calls)
  {
    out := shown;
    for i := 0 to |calls|
      invariant out + Emitted(calls[i..]) == shown + Emitted(calls)
    {
      assert calls[i..][0] == calls[i] && calls[i..][1..] == calls[i + 1..];
      out := out + [ToolCall(calls[i])];
    }
    out := out + [Finished];
  }
}
