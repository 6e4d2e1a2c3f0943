/** UTF-8 decoding as `std::str::from_utf8` does it, against the encoding table in
    section 3 of RFC 3629. */
module Utf8 {

  type Byte = b: int | 0 <= b < 0x100

  // ---------------------------------------------------------------------------------
  // The encoding table
  // ---------------------------------------------------------------------------------

  function Encode(c: char): (b: seq<Byte>)
    ensures 1 <= |b| <= 4
  {
    var n := c as int;
    if n < 0x80 then [n]
    else if n < 0x800 then [0xC0 + n / 0x40, 0x80 + n % 0x40]
    else if n < 0x10000 then [0xE0 + n / 0x1000, 0x80 + n / 0x40 % 0x40, 0x80 + n % 0x40]
    else [0xF0 + n / 0x40000, 0x80 + n / 0x1000 % 0x40, 0x80 + n / 0x40 % 0x40, 0x80 + n % 0x40]
  }

  function EncodeAll(text: string): seq<Byte> {
    if text == "" then [] else Encode(text[0]) + EncodeAll(text[1..])
  }

  // ---------------------------------------------------------------------------------
  // The validator
  // ---------------------------------------------------------------------------------

  /** What the validator finds at the front of its input: a character, an input that ends
      too early (`error_len` is None), or a byte no character can have there. */
  datatype Front = Char(value: char, width: nat) | More | Bad

  /** How many bytes a first byte announces; none for a byte that cannot come first. */
  function Width(first: Byte): nat {
    if first < 0x80 then 1
    else if 0xC2 <= first < 0xE0 then 2
    else if 0xE0 <= first < 0xF0 then 3
    else if 0xF0 <= first < 0xF5 then 4
    else 0
  }

  /** The bytes that may stand at index `at` behind a first byte. */
  predicate Follows(first: Byte, at: nat, b: Byte) {
    && (at == 1 && first == 0xE0 ==> 0xA0 <= b)
    && (at == 1 && first == 0xED ==> b < 0xA0)
    && (at == 1 && first == 0xF0 ==> 0x90 <= b)
    && (at == 1 && first == 0xF4 ==> b < 0x90)
    && 0x80 <= b < 0xC0
  }

  predicate Legal(b: seq<Byte>)
    requires b != []
  {
    forall i | 1 <= i < |b| && i < Width(b[0]) :: Follows(b[0], i, b[i])
  }

  function Bits(b: Byte, tag: int): int { b - tag }

  function Value(b: seq<Byte>): int
    requires b != [] && Width(b[0]) == |b|
  {
    if |b| == 1 then b[0]
    else if |b| == 2 then Bits(b[0], 0xC0) * 0x40 + Bits(b[1], 0x80)
    else if |b| == 3 then Bits(b[0], 0xE0) * 0x1000 + Bits(b[1], 0x80) * 0x40 + Bits(b[2], 0x80)
    else Bits(b[0], 0xF0) * 0x40000 + Bits(b[1], 0x80) * 0x1000 + Bits(b[2], 0x80) * 0x40 + Bits(b[3], 0x80)
  }

  lemma ValueIsScalar(b: seq<Byte>)
    requires b != [] && Width(b[0]) == |b| && Legal(b)
    ensures 0 <= Value(b) < 0xD800 || 0xE000 <= Value(b) < 0x110000
  {
    if |b| > 1 { assert Follows(b[0], 1, b[1]); }
    if |b| > 2 { assert Follows(b[0], 2, b[2]); }
    if |b| > 3 { assert Follows(b[0], 3, b[3]); }
  }

  function FrontOf(b: seq<Byte>): (f: Front)
    requires b != []
    ensures f.Char? ==> 1 <= f.width <= |b|
  {
    var width := Width(b[0]);
    if width == 0 || !Legal(b) then Bad
    else if |b| < width then More
    else
      ValueIsScalar(b[..width]);
      Char(Value(b[..width]) as char, width)
  }

  datatype Decoded = Decoded(text: string, rest: seq<Byte>) | Malformed

  function Prefixed(text: string, d: Decoded): Decoded {
    if d.Malformed? then d else Decoded(text + d.text, d.rest)
  }

  /** One byte behind a truncated character: it completes it, extends it or is illegal. */
  function Next(pending: seq<Byte>, b: Byte): Front {
    FrontOf(pending + [b])
  }

  function DecodeFrom(pending: seq<Byte>, b: seq<Byte>): Decoded
    decreases |b|
  {
    if b == [] then Decoded("", pending)
    else match Next(pending, b[0])
      case Bad => Malformed
      case More => DecodeFrom(pending + [b[0]], b[1..])
      case Char(c, _) => Prefixed([c], DecodeFrom([], b[1..]))
  }

  /** The longest valid prefix, decoded, and the truncated tail behind it; or Malformed when
      some byte can belong to no character. */
  function Decode(b: seq<Byte>): Decoded {
    DecodeFrom([], b)
  }

  /** A tail the decoder may keep: nothing, or a proper prefix of some character. */
  ghost predicate Truncated(rest: seq<Byte>) {
    rest == [] || exists c: char :: rest < Encode(c)
  }

  // ---------------------------------------------------------------------------------
  // Validator and table agree
  // ---------------------------------------------------------------------------------

  lemma EncodeDigits(c: char)
    ensures var b := Encode(c); Width(b[0]) == |b| && Legal(b) && Value(b) == c as int
  {
    var n, b := c as int, Encode(c);
    if |b| == 2 {
      assert n == n / 0x40 * 0x40 + n % 0x40;
    } else if |b| == 3 {
      assert n / 0x40 == n / 0x1000 * 0x40 + n / 0x40 % 0x40;
    } else if |b| == 4 {
      assert n / 0x40 == n / 0x1000 * 0x40 + n / 0x40 % 0x40;
      assert n / 0x1000 == n / 0x40000 * 0x40 + n / 0x1000 % 0x40;
    }
  }

  lemma FrontOfEncode(c: char, rest: seq<Byte>)
    ensures FrontOf(Encode(c) + rest) == Char(c, |Encode(c)|)
  {
    var b := Encode(c);
    EncodeDigits(c);
    assert (b + rest)[0] == b[0] && (b + rest)[..|b|] == b;
    forall i | 1 <= i < Width(b[0]) ensures Follows(b[0], i, (b + rest)[i]) {
      assert Follows(b[0], i, b[i]);
    }
  }

  lemma ValueDigits(b: seq<Byte>)
    requires b != [] && Width(b[0]) == |b| && Legal(b)
    ensures Encode((ValueIsScalar(b); Value(b)) as char) == b
  {
    ValueIsScalar(b);
    var n := Value(b);
    if |b| > 1 { assert Follows(b[0], 1, b[1]); }
    if |b| > 2 { assert Follows(b[0], 2, b[2]); }
    if |b| > 3 { assert Follows(b[0], 3, b[3]); }
    if |b| == 2 {
      assert n / 0x40 == Bits(b[0], 0xC0) && n % 0x40 == Bits(b[1], 0x80);
    } else if |b| == 3 {
      Digits(Bits(b[0], 0xE0), Bits(b[1], 0x80), Bits(b[2], 0x80));
    } else if |b| == 4 {
      var top := Bits(b[0], 0xF0) * 0x40 + Bits(b[1], 0x80);
      Digits(top, Bits(b[2], 0x80), Bits(b[3], 0x80));
      assert n == top * 0x1000 + Bits(b[2], 0x80) * 0x40 + Bits(b[3], 0x80);
      assert n / 0x40000 == n / 0x1000 / 0x40 && top / 0x40 == Bits(b[0], 0xF0) && top % 0x40 == Bits(b[1], 0x80);
    }
  }

  lemma Digits(top: int, mid: int, low: int)
    requires 0 <= top && 0 <= mid < 0x40 && 0 <= low < 0x40
    ensures var n := top * 0x1000 + mid * 0x40 + low;
            n / 0x1000 == top && n / 0x40 % 0x40 == mid && n % 0x40 == low
  {
    assert (top * 0x1000 + mid * 0x40 + low) / 0x40 == top * 0x40 + mid;
  }

  lemma CharIsEncoded(b: seq<Byte>)
    requires b != [] && FrontOf(b).Char?
    ensures b[..FrontOf(b).width] == Encode(FrontOf(b).value)
  {
    ValueDigits(b[..FrontOf(b).width]);
  }

  lemma PrefixNeedsMore(b: seq<Byte>, c: char)
    requires b != [] && b < Encode(c)
    ensures FrontOf(b).More?
  {
    var full := Encode(c);
    EncodeDigits(c);
    assert b[0] == full[0];
    forall i | 1 <= i < |b| ensures Follows(b[0], i, b[i]) {
      assert Follows(full[0], i, full[i]) && full[i] == b[i];
    }
  }

  lemma MoreHasCompletion(b: seq<Byte>)
    requires b != [] && FrontOf(b).More?
    ensures exists c: char :: b < Encode(c)
  {
    var width := Width(b[0]);
    var second := if b[0] == 0xE0 then 0xA0 else if b[0] == 0xF0 then 0x90 else 0x80;
    var filler: seq<Byte> := [b[0], second, 0x80, 0x80];
    var full := b + filler[|b|..width];
    assert Follows(b[0], 1, second) && Follows(b[0], 2, 0x80) && Follows(b[0], 3, 0x80);
    forall i | 1 <= i < width ensures Follows(b[0], i, full[i]) {
      assert full[i] == if i < |b| then b[i] else filler[i];
    }
    assert full[0] == b[0] && full[..width] == full;
    CharIsEncoded(full);
    assert b < Encode(FrontOf(full).value);
  }

  /** The validator asks for more bytes exactly when what it has is a proper prefix of a
      legal sequence (section 4 of RFC 3629). */
  lemma MoreMeansTruncated(b: seq<Byte>)
    requires b != []
    ensures FrontOf(b).More? <==> Truncated(b)
  {
    if FrontOf(b).More? {
      MoreHasCompletion(b);
    } else if c: char :| b < Encode(c) {
      PrefixNeedsMore(b, c);
    }
  }

  // ---------------------------------------------------------------------------------
  // Whole inputs
  // ---------------------------------------------------------------------------------

  predicate Pending(p: seq<Byte>) { p == [] || FrontOf(p).More? }

  /** A pending character is completed by its very next bytes, never later. */
  lemma NextIsExact(p: seq<Byte>, b: Byte)
    requires Pending(p) && Next(p, b).Char?
    ensures p + [b] == Encode(Next(p, b).value)
  {
    var q := p + [b];
    assert p != [] ==> q[0] == p[0];
    CharIsEncoded(q);
    assert q[..|q|] == q;
  }

  lemma MoreOfPrefix(p: seq<Byte>, k: nat)
    requires Pending(p) && 0 < k <= |p|
    ensures FrontOf(p[..k]).More?
  {
  }

  /** Feeding a pending tail again leaves the decoder exactly there. */
  lemma {:induction false} Refeed(p: seq<Byte>, k: nat, b: seq<Byte>)
    requires Pending(p) && k <= |p|
    ensures DecodeFrom(p[..k], p[k..] + b) == DecodeFrom(p, b)
    decreases |p| - k
  {
    if k == |p| {
      assert p[..k] == p && p[k..] + b == b;
    } else {
      MoreOfPrefix(p, k + 1);
      assert p[..k + 1] == p[..k] + [p[k]];
      assert (p[k..] + b)[0] == p[k] && (p[k..] + b)[1..] == p[k + 1..] + b;
      Refeed(p, k + 1, b);
    }
  }

  lemma {:induction false} DecodeFromResumes(p: seq<Byte>, a: seq<Byte>, b: seq<Byte>)
    requires Pending(p)
    ensures DecodeFrom(p, a + b) == if DecodeFrom(p, a).Malformed? then Malformed
                                    else Prefixed(DecodeFrom(p, a).text, DecodeFrom(DecodeFrom(p, a).rest, b))
    ensures DecodeFrom(p, a).Decoded? ==> Pending(DecodeFrom(p, a).rest)
    decreases |a|
  {
    if a == [] {
      assert a + b == b;
    } else {
      assert (a + b)[0] == a[0] && (a + b)[1..] == a[1..] + b;
      match Next(p, a[0])
      case Bad =>
      case More => DecodeFromResumes(p + [a[0]], a[1..], b);
      case Char(c, _) => DecodeFromResumes([], a[1..], b);
    }
  }

  /** Decoding may be interrupted anywhere and resumed from the kept tail. */
  lemma DecodeResumes(a: seq<Byte>, b: seq<Byte>)
    ensures Decode(a + b) == if Decode(a).Malformed? then Malformed
                             else Prefixed(Decode(a).text, Decode(Decode(a).rest + b))
  {
    DecodeFromResumes([], a, b);
    if Decode(a).Decoded? {
      var r := Decode(a).rest;
      Refeed(r, 0, b);
      assert r[..0] == [] && r[0..] == r;
    }
  }

  lemma EncodeAllCons(c: char, text: string)
    ensures EncodeAll([c] + text) == Encode(c) + EncodeAll(text)
  {
    assert ([c] + text)[1..] == text;
  }

  /** The bytes that a decoding stands for. */
  function Bytes(d: Decoded): seq<Byte>
    requires d.Decoded?
  {
    EncodeAll(d.text) + d.rest
  }

  lemma BytesCons(c: char, d: Decoded)
    requires d.Decoded?
    ensures Bytes(Prefixed([c], d)) == Encode(c) + Bytes(d)
  {
    EncodeAllCons(c, d.text);
  }

  lemma MoveFirst(p: seq<Byte>, b: seq<Byte>)
    requires b != []
    ensures p + b == (p + [b[0]]) + b[1..] && [] + b[1..] == b[1..]
  {
  }

  lemma {:induction false} DecodedParts(p: seq<Byte>, b: seq<Byte>)
    requires Pending(p) && DecodeFrom(p, b).Decoded?
    ensures Bytes(DecodeFrom(p, b)) == p + b
    decreases |b|
  {
    if b == [] {
      assert Bytes(DecodeFrom(p, b)) == EncodeAll("") + p;
      assert EncodeAll("") + p == p + b;
    } else {
      MoveFirst(p, b);
      var d := if Next(p, b[0]).More? then DecodeFrom(p + [b[0]], b[1..]) else DecodeFrom([], b[1..]);
      if Next(p, b[0]).More? {
        DecodedParts(p + [b[0]], b[1..]);
      } else {
        DecodedParts([], b[1..]);
        NextIsExact(p, b[0]);
        BytesCons(Next(p, b[0]).value, d);
      }
    }
  }

  lemma LastCompletes(c: char)
    ensures var e := Encode(c);
            Pending(e[..|e| - 1]) && Next(e[..|e| - 1], e[|e| - 1]) == Char(c, |e|)
  {
    var e := Encode(c);
    if |e| > 1 {
      PrefixNeedsMore(e[..|e| - 1], c);
    }
    FrontOfEncode(c, []);
    assert e[..|e| - 1] + [e[|e| - 1]] == e + [];
  }

  lemma DecodeOne(c: char, b: seq<Byte>)
    ensures Decode(Encode(c) + b) == Prefixed([c], Decode(b))
  {
    var e := Encode(c);
    var p, last := e[..|e| - 1], e[|e| - 1];
    LastCompletes(c);
    Refeed(p, 0, [last] + b);
    assert p[..0] == [] && p[0..] + ([last] + b) == e + b;
    assert ([last] + b)[0] == last && ([last] + b)[1..] == b;
  }

  lemma {:induction false} DecodeEncoded(text: string, rest: seq<Byte>)
    requires Pending(rest)
    ensures Decode(EncodeAll(text) + rest) == Decoded(text, rest)
    decreases |text|
  {
    if text == "" {
      Refeed(rest, 0, []);
      assert rest[..0] == [] && rest[0..] + [] == EncodeAll(text) + rest;
    } else {
      assert EncodeAll(text) + rest == Encode(text[0]) + (EncodeAll(text[1..]) + rest);
      DecodeOne(text[0], EncodeAll(text[1..]) + rest);
      DecodeEncoded(text[1..], rest);
      assert text == [text[0]] + text[1..];
    }
  }

  /** Decoding inverts encoding, and the tail it keeps is nothing or a proper prefix of a
      character. */
  lemma DecodeIsInverse(b: seq<Byte>, text: string, rest: seq<Byte>)
    ensures Decode(b) == Decoded(text, rest) <==> b == EncodeAll(text) + rest && Truncated(rest)
  {
    if rest != [] {
      MoreMeansTruncated(rest);
    }
    if Decode(b) == Decoded(text, rest) {
      DecodedParts([], b);
      DecodeFromResumes([], b, []);
      assert [] + b == b;
    } else if Truncated(rest) {
      DecodeEncoded(text, rest);
    }
  }

  /** A byte below 0x80 is a character of its own, and no part of any other. */
  lemma AsciiNext(p: seq<Byte>, b: Byte)
    requires Pending(p)
    ensures p == [] && b < 0x80 ==> Next(p, b) == Char(b as char, 1)
    ensures p != [] && b < 0x80 ==> Next(p, b) == Bad
    ensures b >= 0x80 && Next(p, b).Char? ==> Next(p, b).value as int >= 0x80
  {
    var q := p + [b];
    if p != [] {
      assert q[0] == p[0] && q[|p|] == b;
    }
    if Next(p, b).Char? {
      NextIsExact(p, b);
    }
  }

  /** Bytes below 0x80 are a text. */
  lemma {:induction false} AsciiIsText(b: seq<Byte>)
    requires forall x | x in b :: x < 0x80
    ensures Decode(b).Decoded? && Decode(b).rest == []
    decreases |b|
  {
    if b != [] {
      assert b[0] in b && forall x | x in b[1..] :: x in b;
      AsciiNext([], b[0]);
      AsciiIsText(b[1..]);
    }
  }
}
