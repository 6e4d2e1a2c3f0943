/** The text of STAC links: hexadecimal cursors, percent escapes, file URIs and query strings.
    A text is its UTF-8 bytes. */
module StacLinks {
  import opened Results
  import opened Utf8

  type Bytes = seq<Byte>

  const PERCENT: Byte := 0x25
  const AMPERSAND: Byte := 0x26
  const PLUS: Byte := 0x2B
  const SLASH: Byte := 0x2F
  const EQUALS: Byte := 0x3D
  const SPACE: Byte := 0x20

  predicate IsText(b: Bytes) { Decode(b).Decoded? && Decode(b).rest == [] }

  // ---------------------------------------------------------------------------------
  // Hexadecimal
  // ---------------------------------------------------------------------------------

  function Digit(b: Byte): Option<nat> {
    if 0x30 <= b <= 0x39 then Some(b - 0x30)
    else if 0x61 <= b <= 0x66 then Some(b - 0x61 + 10)
    else if 0x41 <= b <= 0x46 then Some(b - 0x41 + 10)
    else None
  }

  function Lower(d: nat): Byte
    requires d < 16
  {
    if d < 10 then 0x30 + d else 0x61 + d - 10
  }

  function Upper(d: nat): Byte
    requires d < 16
  {
    if d < 10 then 0x30 + d else 0x41 + d - 10
  }

  /** from_str_radix of two characters, which also takes a plus sign before one digit. */
  function Radix(a: Byte, b: Byte): Option<Byte> {
    if Digit(b).None? then None
    else if a == PLUS then Some(Digit(b).value)
    else if Digit(a).None? then None
    else Some(Digit(a).value * 16 + Digit(b).value)
  }

  lemma RadixInverse(b: Byte)
    ensures Radix(Lower(b / 16), Lower(b % 16)) == Some(b) && Radix(Upper(b / 16), Upper(b % 16)) == Some(b)
    ensures Digit(Upper(b / 16)) == Some(b / 16) && Digit(Upper(b % 16)) == Some(b % 16)
  {
  }

  function HexEncode(b: Bytes): Bytes {
    if b == [] then [] else [Lower(b[0] / 16), Lower(b[0] % 16)] + HexEncode(b[1..])
  }

  function HexDecode(v: Bytes): Option<Bytes> {
    if |v| == 0 then Some([])
    else if |v| % 2 != 0 then None
    else
      var first, rest := Radix(v[0], v[1]), HexDecode(v[2..]);
      if first.None? || rest.None? then None else Some([first.value] + rest.value)
  }

  lemma {:induction false} HexRoundTrip(b: Bytes)
    ensures HexDecode(HexEncode(b)) == Some(b) && |HexEncode(b)| == 2 * |b|
    ensures forall x | x in HexEncode(b) :: Digit(x).Some?
  {
    if b != [] {
      HexRoundTrip(b[1..]);
      RadixInverse(b[0]);
      var v := HexEncode(b);
      assert v[0] == Lower(b[0] / 16) && v[1] == Lower(b[0] % 16) && v[2..] == HexEncode(b[1..]);
      assert b == [b[0]] + b[1..];
    }
  }

  lemma HexInjective(a: Bytes, b: Bytes)
    requires HexEncode(a) == HexEncode(b)
    ensures a == b
  {
    HexRoundTrip(a);
    HexRoundTrip(b);
  }

  // ---------------------------------------------------------------------------------
  // Percent escapes in queries
  // ---------------------------------------------------------------------------------

  function Cons(b: Byte, rest: Option<Bytes>): Option<Bytes> {
    if rest.None? then None else Some([b] + rest.value)
  }

  function Unescaped(v: Bytes): Option<Bytes>
    decreases |v|
  {
    if v == [] then Some([])
    else if v[0] == PERCENT then
      if |v| < 3 || Radix(v[1], v[2]).None? then None else Cons(Radix(v[1], v[2]).value, Unescaped(v[3..]))
    else Cons(if v[0] == PLUS then SPACE else v[0], Unescaped(v[1..]))
  }

  function PercentDecode(v: Bytes): Option<Bytes> {
    var r := Unescaped(v);
    if r.Some? && IsText(r.value) then r else None
  }

  function Prepend(front: Bytes, rest: Option<Bytes>): Option<Bytes> {
    if rest.None? then None else Some(front + rest.value)
  }

  lemma PrependCons(front: Bytes, b: Byte, rest: Option<Bytes>)
    ensures Prepend(front, Cons(b, rest)) == Prepend(front + [b], rest)
  {
    if rest.Some? {
      assert front + ([b] + rest.value) == front + [b] + rest.value;
    }
  }

  method DecodePercent(v: Bytes) returns (r: Option<Bytes>)
    ensures r == PercentDecode(v)
  {
    var result: Bytes, index := [], 0;
    assert v[0..] == v;
    if Unescaped(v).Some? {
      assert result + Unescaped(v).value == Unescaped(v).value;
    }
    while index < |v|
      invariant index <= |v|
      invariant Prepend(result, Unescaped(v[index..])) == Unescaped(v)
    {
      ghost var rest := v[index..];
      if v[index] == PERCENT {
        if index + 2 >= |v| {
          return None;
        }
        var byte := Radix(v[index + 1], v[index + 2]);
        assert rest[1] == v[index + 1] && rest[2] == v[index + 2] && rest[3..] == v[index + 3..];
        if byte.None? {
          return None;
        }
        PrependCons(result, byte.value, Unescaped(rest[3..]));
        result, index := result + [byte.value], index + 3;
      } else {
        assert rest[1..] == v[index + 1..];
        var byte := if v[index] == PLUS then SPACE else v[index];
        PrependCons(result, byte, Unescaped(rest[1..]));
        result, index := result + [byte], index + 1;
      }
    }
    assert v[index..] == [] && result + [] == result;
    return if IsText(result) then Some(result) else None;
  }

  /** No escape, no plus, and no separator. */
  predicate Plain(v: Bytes) { PERCENT !in v && PLUS !in v && AMPERSAND !in v }

  lemma {:induction false} UnescapedShrinks(v: Bytes)
    requires Unescaped(v).Some?
    ensures |Unescaped(v).value| <= |v| && (PERCENT in v ==> |Unescaped(v).value| < |v|)
    decreases |v|
  {
    if v != [] {
      if v[0] == PERCENT {
        UnescapedShrinks(v[3..]);
      } else {
        UnescapedShrinks(v[1..]);
        assert v == [v[0]] + v[1..];
      }
    }
  }

  /** Decoding changes nothing exactly when there is nothing to decode. */
  lemma {:induction false} UnescapedExactly(v: Bytes)
    ensures Unescaped(v) == Some(v) <==> PERCENT !in v && PLUS !in v
    decreases |v|
  {
    if PERCENT in v {
      if Unescaped(v).Some? {
        UnescapedShrinks(v);
      }
    } else if v != [] {
      UnescapedExactly(v[1..]);
      assert v == [v[0]] + v[1..];
      if Unescaped(v) == Some(v) {
        assert Unescaped(v[1..]).Some? && v[0] == (if v[0] == PLUS then SPACE else v[0]);
        assert v[1..] == Unescaped(v[1..]).value;
      }
    }
  }

  // ---------------------------------------------------------------------------------
  // File URIs
  // ---------------------------------------------------------------------------------

  predicate Unreserved(b: Byte) {
    0x30 <= b <= 0x39 || 0x41 <= b <= 0x5A || 0x61 <= b <= 0x7A
    || b == 0x2D || b == 0x2E || b == 0x5F || b == 0x7E || b == SLASH
  }

  const FILE: Bytes := [0x66, 0x69, 0x6C, 0x65, 0x3A, 0x2F, 0x2F]   // file://

  function Escaped(path: Bytes): Bytes {
    if path == [] then []
    else
      var first := if Unreserved(path[0]) then [path[0]] else [PERCENT, Upper(path[0] / 16), Upper(path[0] % 16)];
      first + Escaped(path[1..])
  }

  function FileUri(path: Bytes): Bytes { FILE + Escaped(path) }

  /** Two strict digits, without the plus sign that a query tolerates. */
  function Pair(a: Byte, b: Byte): Option<Byte> { if Digit(a).None? then None else Radix(a, b) }

  function UriDecoded(v: Bytes): Option<Bytes>
    decreases |v|
  {
    if v == [] then Some([])
    else if v[0] == PERCENT then
      if |v| < 3 || Pair(v[1], v[2]).None? then None else Cons(Pair(v[1], v[2]).value, UriDecoded(v[3..]))
    else Cons(v[0], UriDecoded(v[1..]))
  }

  /** The path of a file URI: text, and absolute. */
  function PathFromFileUri(uri: Bytes): Option<Bytes> {
    if !(FILE <= uri) then None
    else
      var r := UriDecoded(uri[|FILE|..]);
      if r.Some? && IsText(r.value) && r.value != [] && r.value[0] == SLASH then r else None
  }

  lemma {:induction false} EscapedInverse(path: Bytes)
    ensures UriDecoded(Escaped(path)) == Some(path)
    decreases |path|
  {
    if path != [] {
      EscapedInverse(path[1..]);
      assert path == [path[0]] + path[1..];
      var v := Escaped(path);
      if Unreserved(path[0]) {
        assert v[1..] == Escaped(path[1..]);
      } else {
        RadixInverse(path[0]);
        assert v[3..] == Escaped(path[1..]);
      }
    }
  }

  /** A local path comes back from its URI exactly when it is absolute. */
  lemma FileUriRoundTrip(path: Bytes)
    requires IsText(path)
    ensures PathFromFileUri(FileUri(path)) == Some(path) <==> path != [] && path[0] == SLASH
  {
    EscapedInverse(path);
    assert FileUri(path)[|FILE|..] == Escaped(path);
  }

  lemma {:induction false} EscapedAppend(a: Bytes, b: Bytes)
    ensures Escaped(a + b) == Escaped(a) + Escaped(b)
    decreases |a|
  {
    if a == [] {
      assert a + b == b;
    } else {
      assert (a + b)[1..] == a[1..] + b;
      EscapedAppend(a[1..], b);
    }
  }

  method MakeFileUri(path: Bytes) returns (uri: Bytes)
    ensures uri == FileUri(path)
  {
    var encoded: Bytes := [];
    for i := 0 to |path|
      invariant encoded == Escaped(path[..i])
    {
      assert path[..i + 1] == path[..i] + [path[i]];
      EscapedAppend(path[..i], [path[i]]);
      if Unreserved(path[i]) {
        encoded := encoded + [path[i]];
      } else {
        encoded := encoded + [PERCENT, Upper(path[i] / 16), Upper(path[i] % 16)];
      }
    }
    assert path[..|path|] == path;
    return FILE + encoded;
  }

  method ReadFileUri(uri: Bytes) returns (path: Option<Bytes>)
    ensures path == PathFromFileUri(uri)
  {
    if !(FILE <= uri) {
      return None;
    }
    var source := uri[|FILE|..];
    var bytes: Bytes, index := [], 0;
    assert source[0..] == source;
    if UriDecoded(source).Some? {
      assert bytes + UriDecoded(source).value == UriDecoded(source).value;
    }
    while index < |source|
      invariant index <= |source|
      invariant Prepend(bytes, UriDecoded(source[index..])) == UriDecoded(source)
    {
      ghost var rest := source[index..];
      if source[index] == PERCENT {
        if index + 2 >= |source| {
          return None;
        }
        assert rest[1] == source[index + 1] && rest[2] == source[index + 2] && rest[3..] == source[index + 3..];
        var byte := Pair(source[index + 1], source[index + 2]);
        if byte.None? {
          return None;
        }
        PrependCons(bytes, byte.value, UriDecoded(rest[3..]));
        bytes, index := bytes + [byte.value], index + 3;
      } else {
        assert rest[1..] == source[index + 1..];
        PrependCons(bytes, source[index], UriDecoded(rest[1..]));
        bytes, index := bytes + [source[index]], index + 1;
      }
    }
    assert source[index..] == [] && bytes + [] == bytes;
    return if IsText(bytes) && bytes != [] && bytes[0] == SLASH then Some(bytes) else None;
  }

  // ---------------------------------------------------------------------------------
  // Query strings
  // ---------------------------------------------------------------------------------

  function Split(v: Bytes): (pieces: seq<Bytes>)
    ensures pieces != []
  {
    if v == [] then [[]]
    else
      var rest := Split(v[1..]);
      if v[0] == AMPERSAND then [[]] + rest else [[v[0]] + rest[0]] + rest[1..]
  }

  function SplitOnce(piece: Bytes): Option<(Bytes, Bytes)> {
    if piece == [] then None
    else if piece[0] == EQUALS then Some(([], piece[1..]))
    else
      match SplitOnce(piece[1..])
      case None => None
      case Some(p) => Some(([piece[0]] + p.0, p.1))
  }

  /** One parameter of a query. */
  function Parameter(piece: Bytes): Option<(Bytes, Bytes)> {
    match SplitOnce(piece)
    case None => None
    case Some(p) =>
      if PercentDecode(p.0).None? || PercentDecode(p.1).None? then None
      else Some((PercentDecode(p.0).value, PercentDecode(p.1).value))
  }

  /** Later parameters replace earlier ones of the same name. */
  function Collect(pieces: seq<Bytes>): Option<map<Bytes, Bytes>>
    decreases |pieces|
  {
    if pieces == [] then Some(map[])
    else
      var front, last := Collect(pieces[..|pieces| - 1]), Parameter(pieces[|pieces| - 1]);
      if front.None? || last.None? then None else Some(front.value[last.value.0 := last.value.1])
  }

  function QueryMap(query: Bytes): Option<map<Bytes, Bytes>> {
    if query == [] then Some(map[]) else Collect(Split(query))
  }

  lemma {:induction false} CollectFails(pieces: seq<Bytes>, k: nat)
    requires k <= |pieces| && Collect(pieces[..k]).None?
    ensures Collect(pieces).None?
    decreases |pieces|
  {
    if k < |pieces| {
      assert pieces[..|pieces| - 1][..k] == pieces[..k];
      CollectFails(pieces[..|pieces| - 1], k);
    } else {
      assert pieces[..k] == pieces;
    }
  }

  method ReadQuery(query: Bytes) returns (r: Option<map<Bytes, Bytes>>)
    ensures r == QueryMap(query)
  {
    var result: map<Bytes, Bytes> := map[];
    if query == [] {
      return Some(result);
    }
    var pieces := Split(query);
    for i := 0 to |pieces|
      invariant Collect(pieces[..i]) == Some(result)
    {
      assert pieces[..i + 1][..i] == pieces[..i];
      var pair := SplitOnce(pieces[i]);
      if pair.None? {
        CollectFails(pieces, i + 1);
        return None;
      }
      var key := DecodePercent(pair.value.0);
      var value := DecodePercent(pair.value.1);
      if key.None? || value.None? {
        CollectFails(pieces, i + 1);
        return None;
      }
      result := result[key.value := value.value];
    }
    assert pieces[..|pieces|] == pieces;
    return Some(result);
  }

  /** The text of a next link's query: name=value, joined by ampersands, nothing escaped. */
  function Render(parameters: seq<(Bytes, Bytes)>): Bytes {
    if parameters == [] then []
    else
      var first := parameters[0].0 + [EQUALS] + parameters[0].1;
      if |parameters| == 1 then first else first + [AMPERSAND] + Render(parameters[1..])
  }

  function Named(parameters: seq<(Bytes, Bytes)>): map<Bytes, Bytes>
    decreases |parameters|
  {
    if parameters == [] then map[]
    else Named(parameters[..|parameters| - 1])[parameters[|parameters| - 1].0 := parameters[|parameters| - 1].1]
  }

  predicate PlainName(k: Bytes) { Plain(k) && EQUALS !in k && IsText(k) }

  lemma {:induction false} SplitOnceFinds(k: Bytes, v: Bytes)
    requires EQUALS !in k
    ensures SplitOnce(k + [EQUALS] + v) == Some((k, v))
  {
    var piece := k + [EQUALS] + v;
    if k == [] {
      assert piece[1..] == v;
    } else {
      assert piece[1..] == k[1..] + [EQUALS] + v;
      SplitOnceFinds(k[1..], v);
      assert k == [k[0]] + k[1..];
    }
  }

  lemma {:induction false} SplitFirst(a: Bytes, rest: Bytes)
    requires AMPERSAND !in a
    ensures Split(a) == [a] && Split(a + [AMPERSAND] + rest) == [a] + Split(rest)
  {
    var all := a + [AMPERSAND] + rest;
    if a == [] {
      assert all[1..] == rest;
    } else {
      SplitFirst(a[1..], rest);
      assert all[1..] == a[1..] + [AMPERSAND] + rest;
      assert a == [a[0]] + a[1..];
    }
  }

  function Pieces(parameters: seq<(Bytes, Bytes)>): seq<Bytes> {
    seq(|parameters|, i requires 0 <= i < |parameters| => parameters[i].0 + [EQUALS] + parameters[i].1)
  }

  lemma {:induction false} SplitRendered(parameters: seq<(Bytes, Bytes)>)
    requires parameters != [] && forall p | p in parameters :: PlainName(p.0) && AMPERSAND !in p.1
    ensures Split(Render(parameters)) == Pieces(parameters)
    decreases |parameters|
  {
    var first := parameters[0].0 + [EQUALS] + parameters[0].1;
    assert parameters[0] in parameters;
    if |parameters| == 1 {
      SplitFirst(first, []);
    } else {
      SplitRendered(parameters[1..]);
      SplitFirst(first, Render(parameters[1..]));
      assert Pieces(parameters) == [first] + Pieces(parameters[1..]);
    }
  }

  predicate Decodable(parameters: seq<(Bytes, Bytes)>) { forall p | p in parameters :: PercentDecode(p.1).Some? }

  /** The parameters as a reader decodes them. */
  function Reread(parameters: seq<(Bytes, Bytes)>): seq<(Bytes, Bytes)>
    requires Decodable(parameters)
  {
    seq(|parameters|, i requires 0 <= i < |parameters| =>
      (assert parameters[i] in parameters; (parameters[i].0, PercentDecode(parameters[i].1).value)))
  }

  lemma PieceRereads(k: Bytes, v: Bytes)
    requires PlainName(k)
    ensures Parameter(k + [EQUALS] + v) == if PercentDecode(v).Some? then Some((k, PercentDecode(v).value)) else None
  {
    SplitOnceFinds(k, v);
    UnescapedExactly(k);
  }

  lemma {:induction false} CollectReread(parameters: seq<(Bytes, Bytes)>)
    requires forall p | p in parameters :: PlainName(p.0) && AMPERSAND !in p.1
    ensures Collect(Pieces(parameters)) == if Decodable(parameters) then Some(Named(Reread(parameters))) else None
    decreases |parameters|
  {
    if parameters != [] {
      var n := |parameters| - 1;
      var front, last := parameters[..n], parameters[n];
      assert parameters == front + [last];
      CollectReread(front);
      assert Pieces(parameters)[..n] == Pieces(front);
      PieceRereads(last.0, last.1);
      assert Decodable(parameters) <==> Decodable(front) && PercentDecode(last.1).Some?;
      if Decodable(parameters) {
        assert Reread(parameters)[..n] == Reread(front);
      }
    }
  }

  /** A link without ampersands in its values is read back decoded, or not at all. */
  lemma LinkRereads(parameters: seq<(Bytes, Bytes)>)
    requires parameters != [] && forall p | p in parameters :: PlainName(p.0) && AMPERSAND !in p.1
    ensures QueryMap(Render(parameters)) == if Decodable(parameters) then Some(Named(Reread(parameters))) else None
  {
    SplitRendered(parameters);
    CollectReread(parameters);
    assert |Render(parameters)| > 0;
  }

  /** A next link whose values are plain is read back as exactly the parameters it was made
      from, however many there are. */
  lemma PlainLinkReadsBack(parameters: seq<(Bytes, Bytes)>)
    requires parameters != [] && forall p | p in parameters :: PlainName(p.0) && Plain(p.1) && IsText(p.1)
    ensures QueryMap(Render(parameters)) == Some(Named(parameters))
  {
    LinkRereads(parameters);
    forall p | p in parameters ensures PercentDecode(p.1) == Some(p.1) {
      UnescapedExactly(p.1);
    }
    assert Reread(parameters) == parameters;
  }

  // ---------------------------------------------------------------------------------
  // Which links read back
  // ---------------------------------------------------------------------------------

  ghost predicate NamesDistinct(parameters: seq<(Bytes, Bytes)>) {
    forall i, j | 0 <= i < j < |parameters| :: parameters[i].0 != parameters[j].0
  }

  lemma {:induction false} NamedFinds(parameters: seq<(Bytes, Bytes)>, i: nat)
    requires NamesDistinct(parameters) && i < |parameters|
    ensures parameters[i].0 in Named(parameters) && Named(parameters)[parameters[i].0] == parameters[i].1
    decreases |parameters|
  {
    if i < |parameters| - 1 {
      NamedFinds(parameters[..|parameters| - 1], i);
    }
  }

  lemma {:induction false} NamedOnly(parameters: seq<(Bytes, Bytes)>, k: Bytes)
    ensures k in Named(parameters) <==> exists i :: 0 <= i < |parameters| && parameters[i].0 == k
    decreases |parameters|
  {
    if parameters != [] {
      var n := |parameters| - 1;
      NamedOnly(parameters[..n], k);
      if k in Named(parameters[..n]) {
        var i :| 0 <= i < n && parameters[..n][i].0 == k;
        assert parameters[i].0 == k;
      }
    }
  }

  /** The bytes that names and values need, with one equals sign each. */
  function Weight(parameters: seq<(Bytes, Bytes)>): nat
    decreases |parameters|
  {
    if parameters == [] then 0
    else |parameters[0].0| + 1 + |parameters[0].1| + Weight(parameters[1..])
  }

  lemma {:induction false} WeightWithout(parameters: seq<(Bytes, Bytes)>, i: nat)
    requires i < |parameters|
    ensures Weight(parameters) ==
              Weight(parameters[..i] + parameters[i + 1..]) + |parameters[i].0| + 1 + |parameters[i].1|
    decreases i
  {
    if i == 0 {
      assert parameters[..0] + parameters[1..] == parameters[1..];
    } else {
      WeightWithout(parameters[1..], i - 1);
      var rest := parameters[..i] + parameters[i + 1..];
      assert rest[0] == parameters[0];
      assert rest[1..] == parameters[1..][..i - 1] + parameters[1..][i..];
    }
  }

  function Size(pieces: seq<Bytes>): nat
    decreases |pieces|
  {
    if pieces == [] then 0 else Size(pieces[..|pieces| - 1]) + |pieces[|pieces| - 1]|
  }

  lemma {:induction false} SplitOnceSize(piece: Bytes)
    requires SplitOnce(piece).Some?
    ensures |SplitOnce(piece).value.0| + 1 + |SplitOnce(piece).value.1| == |piece|
  {
    if piece[0] != EQUALS {
      SplitOnceSize(piece[1..]);
    }
  }

  lemma ParameterFits(piece: Bytes)
    requires Parameter(piece).Some?
    ensures |Parameter(piece).value.0| + 1 + |Parameter(piece).value.1| <= |piece|
  {
    var p := SplitOnce(piece).value;
    SplitOnceSize(piece);
    UnescapedShrinks(p.0);
    UnescapedShrinks(p.1);
  }

  ghost predicate FoundIn(parameters: seq<(Bytes, Bytes)>, m: map<Bytes, Bytes>) {
    forall i | 0 <= i < |parameters| :: parameters[i].0 in m && m[parameters[i].0] == parameters[i].1
  }

  lemma FoundWithout(parameters: seq<(Bytes, Bytes)>, i: nat, front: map<Bytes, Bytes>, v: Bytes)
    requires i < |parameters| && NamesDistinct(parameters) && FoundIn(parameters, front[parameters[i].0 := v])
    ensures var rest := parameters[..i] + parameters[i + 1..]; NamesDistinct(rest) && FoundIn(rest, front)
    ensures parameters[i].1 == v
  {
    var rest := parameters[..i] + parameters[i + 1..];
    assert forall j | 0 <= j < |rest| :: rest[j] == parameters[if j < i then j else j + 1];
    assert forall j | 0 <= j < |rest| :: rest[j].0 != parameters[i].0;
  }

  /** Different parameters are read from different pieces, and each fits into its own. */
  lemma {:induction false} CollectedFits(pieces: seq<Bytes>, parameters: seq<(Bytes, Bytes)>)
    requires Collect(pieces).Some? && NamesDistinct(parameters) && FoundIn(parameters, Collect(pieces).value)
    ensures Weight(parameters) <= Size(pieces)
    decreases |pieces|
  {
    if parameters != [] {
      assert parameters[0].0 in Collect(pieces).value;
      var n := |pieces| - 1;
      var last, front := Parameter(pieces[n]).value, Collect(pieces[..n]).value;
      ParameterFits(pieces[n]);
      if i: nat :| i < |parameters| && parameters[i].0 == last.0 {
        FoundWithout(parameters, i, front, last.1);
        CollectedFits(pieces[..n], parameters[..i] + parameters[i + 1..]);
        WeightWithout(parameters, i);
      } else {
        assert FoundIn(parameters, front);
        CollectedFits(pieces[..n], parameters);
      }
    }
  }

  lemma {:induction false} SizeCons(first: Bytes, rest: seq<Bytes>)
    ensures Size([first] + rest) == |first| + Size(rest)
    decreases |rest|
  {
    if rest == [] {
      assert ([first] + rest)[..0] == [];
    } else {
      var n := |rest| - 1;
      SizeCons(first, rest[..n]);
      assert ([first] + rest)[..n + 1] == [first] + rest[..n];
    }
  }

  /** Splitting loses exactly the separators. */
  lemma {:induction false} SplitSize(v: Bytes)
    ensures Size(Split(v)) + |Split(v)| == |v| + 1
    decreases |v|
  {
    if v == [] {
      SizeCons([], []);
      assert Split(v) == [[]] + [];
    } else {
      var rest := Split(v[1..]);
      SplitSize(v[1..]);
      if v[0] == AMPERSAND {
        SizeCons([], rest);
      } else {
        SizeCons([v[0]] + rest[0], rest[1..]);
        SizeCons(rest[0], rest[1..]);
        assert rest == [rest[0]] + rest[1..];
      }
    }
  }

  function Ampersands(v: Bytes): nat {
    if v == [] then 0 else (if v[0] == AMPERSAND then 1 else 0) + Ampersands(v[1..])
  }

  lemma {:induction false} AmpersandsAppend(a: Bytes, b: Bytes)
    ensures Ampersands(a + b) == Ampersands(a) + Ampersands(b)
    decreases |a|
  {
    if a == [] {
      assert a + b == b;
    } else {
      assert (a + b)[1..] == a[1..] + b;
      AmpersandsAppend(a[1..], b);
    }
  }

  lemma {:induction false} AmpersandsCount(v: Bytes)
    ensures |Split(v)| == 1 + Ampersands(v) && (AMPERSAND in v <==> Ampersands(v) > 0)
    decreases |v|
  {
    if v != [] {
      AmpersandsCount(v[1..]);
      assert v == [v[0]] + v[1..];
    }
  }

  /** A link has a separator between its parameters and whatever its values bring along. */
  lemma {:induction false} RenderCounts(parameters: seq<(Bytes, Bytes)>)
    requires parameters != []
    ensures |Render(parameters)| + 1 == Weight(parameters) + |parameters|
    ensures Ampersands(Render(parameters)) >= |parameters| - 1
    ensures (exists i :: 0 <= i < |parameters| && AMPERSAND in parameters[i].1) ==>
              Ampersands(Render(parameters)) >= |parameters|
    decreases |parameters|
  {
    var k, v := parameters[0].0, parameters[0].1;
    AmpersandsAppend(k + [EQUALS], v);
    AmpersandsCount(v);
    if |parameters| > 1 {
      var rest := parameters[1..];
      RenderCounts(rest);
      AmpersandsAppend(k + [EQUALS] + v, [AMPERSAND] + Render(rest));
      AmpersandsAppend([AMPERSAND], Render(rest));
      assert Render(parameters) == k + [EQUALS] + v + ([AMPERSAND] + Render(rest));
      if i :| 0 <= i < |parameters| && AMPERSAND in parameters[i].1 && i > 0 {
        assert rest[i - 1] == parameters[i];
      }
    }
  }

  lemma AmpersandIsLost(parameters: seq<(Bytes, Bytes)>, i: nat)
    requires NamesDistinct(parameters) && i < |parameters| && AMPERSAND in parameters[i].1
    ensures QueryMap(Render(parameters)) != Some(Named(parameters))
  {
    var text := Render(parameters);
    RenderCounts(parameters);
    if QueryMap(text) == Some(Named(parameters)) {
      forall j | 0 <= j < |parameters|
        ensures parameters[j].0 in Named(parameters) && Named(parameters)[parameters[j].0] == parameters[j].1
      {
        NamedFinds(parameters, j);
      }
      SplitSize(text);
      AmpersandsCount(text);
      CollectedFits(Split(text), parameters);
    }
  }

  lemma RereadDiffers(parameters: seq<(Bytes, Bytes)>, i: nat)
    requires NamesDistinct(parameters) && i < |parameters| && Decodable(parameters)
    requires PercentDecode(parameters[i].1) != Some(parameters[i].1)
    ensures Named(Reread(parameters)) != Named(parameters)
  {
    var read := Reread(parameters);
    assert parameters[i] in parameters;
    assert forall j | 0 <= j < |read| :: read[j].0 == parameters[j].0;
    NamedFinds(parameters, i);
    NamedFinds(read, i);
  }

  lemma EscapeIsLost(parameters: seq<(Bytes, Bytes)>, i: nat)
    requires NamesDistinct(parameters) && i < |parameters|
    requires (forall p | p in parameters :: PlainName(p.0) && AMPERSAND !in p.1) && !Plain(parameters[i].1)
    ensures QueryMap(Render(parameters)) != Some(Named(parameters))
  {
    LinkRereads(parameters);
    assert parameters[i] in parameters;
    UnescapedExactly(parameters[i].1);
    if Decodable(parameters) {
      RereadDiffers(parameters, i);
    }
  }

  /** A link is read back as what it was made from exactly when none of its values holds a
      percent sign, plus sign or ampersand: links are written without escaping but read with
      unescaping. */
  lemma LinkCarriesExactly(parameters: seq<(Bytes, Bytes)>)
    requires parameters != [] && NamesDistinct(parameters)
    requires forall p | p in parameters :: PlainName(p.0) && IsText(p.1)
    ensures QueryMap(Render(parameters)) == Some(Named(parameters)) <==> forall p | p in parameters :: Plain(p.1)
  {
    if forall p | p in parameters :: Plain(p.1) {
      PlainLinkReadsBack(parameters);
    } else if i: nat :| i < |parameters| && AMPERSAND in parameters[i].1 {
      AmpersandIsLost(parameters, i);
    } else {
      var p :| p in parameters && !Plain(p.1);
      var i: nat :| i < |parameters| && parameters[i] == p;
      EscapeIsLost(parameters, i);
    }
  }
}
