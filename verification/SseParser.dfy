/** The provider's incremental server-sent-events parser.  Network chunks may end anywhere,
    even inside a UTF-8 code point; the result must be that of parsing the whole stream at
    once. */
module SseParser {
  import opened Results
  import opened Utf8

  // ---------------------------------------------------------------------------------
  // The whole-stream meaning: decode, split into lines, group the data lines
  // ---------------------------------------------------------------------------------

  function WithoutReturn(line: string): string {
    if line != "" && line[|line| - 1] == '\r' then line[..|line| - 1] else line
  }

  /** The terminated lines of a text that continues `carried`, each without its line ending
      (LF or CR LF). */
  function LinesFrom(carried: string, text: string): seq<string>
    decreases |text|
  {
    if text == "" then []
    else if text[0] == '\n' then [WithoutReturn(carried)] + LinesFrom("", text[1..])
    else LinesFrom(carried + [text[0]], text[1..])
  }

  function Lines(text: string): seq<string> { LinesFrom("", text) }

  /** The unterminated rest. */
  function Unfinished(carried: string, text: string): string
    decreases |text|
  {
    if text == "" then carried
    else Unfinished(if text[0] == '\n' then "" else carried + [text[0]], text[1..])
  }

  /** The payload of a data line; comments and other fields carry none. */
  function Payload(line: string): seq<string> {
    if "data:" <= line then [if |line| > 5 && line[5] == ' ' then line[6..] else line[5..]] else []
  }

  function Payloads(lines: seq<string>): seq<string> {
    if lines == [] then [] else Payload(lines[0]) + Payloads(lines[1..])
  }

  function Joined(parts: seq<string>): string {
    if parts == [] then "" else if |parts| == 1 then parts[0] else parts[0] + "\n" + Joined(parts[1..])
  }

  /** One event for each block of lines that a blank line ends, unless it has no data. */
  function Events(pending: seq<string>, lines: seq<string>): seq<string>
    decreases |lines|
  {
    if lines == [] then []
    else if lines[0] == "" then (if pending == [] then [] else [Joined(pending)]) + Events([], lines[1..])
    else Events(pending + Payload(lines[0]), lines[1..])
  }

  /** The data of the block that is still open. */
  function Open(pending: seq<string>, lines: seq<string>): seq<string>
    decreases |lines|
  {
    if lines == [] then pending
    else Open(if lines[0] == "" then [] else pending + Payload(lines[0]), lines[1..])
  }

  datatype State = State(undecoded: seq<Byte>, line: string, data: seq<string>)

  const Empty := State([], "", [])

  datatype Parsed = Parsed(state: State, lines: seq<string>, events: seq<string>) | Failed

  /** Parsing bytes in one go from a given state. */
  function Batch(s: State, bytes: seq<Byte>): Parsed {
    match Decode(s.undecoded + bytes)
    case Malformed => Failed
    case Decoded(text, rest) =>
      var lines := LinesFrom(s.line, text);
      Parsed(State(rest, Unfinished(s.line, text), Open(s.data, lines)), lines, Events(s.data, lines))
  }

  // ---------------------------------------------------------------------------------
  // What one push does
  // ---------------------------------------------------------------------------------

  /** The lines one push completes.  `line` is what earlier pushes left; a carriage return
      is looked for only in the part of the line that belongs to this push. */
  function Completed(line: string, part: string, text: string): seq<string>
    decreases |text|
  {
    if text == "" then []
    else if text[0] == '\n' then [line + WithoutReturn(part)] + Completed("", "", text[1..])
    else Completed(line, part + [text[0]], text[1..])
  }

  function Pushed(s: State, bytes: seq<Byte>): Parsed {
    match Decode(s.undecoded + bytes)
    case Malformed => Failed
    case Decoded(text, rest) =>
      var lines := Completed(s.line, "", text);
      Parsed(State(rest, Unfinished(s.line, text), Open(s.data, lines)), lines, Events(s.data, lines))
  }

  function AndThen(first: Parsed, second: Parsed): Parsed
  {
    if first.Failed? || second.Failed? then Failed
    else Parsed(second.state, first.lines + second.lines, first.events + second.events)
  }

  function PushAll(s: State, chunks: seq<seq<Byte>>): Parsed
    decreases |chunks|
  {
    if chunks == [] then Parsed(s, [], [])
    else
      var first := Pushed(s, chunks[0]);
      if first.Failed? then Failed else AndThen(first, PushAll(first.state, chunks[1..]))
  }

  function Flat(chunks: seq<seq<Byte>>): seq<Byte> {
    if chunks == [] then [] else chunks[0] + Flat(chunks[1..])
  }

  const CR: Byte := 13
  const LF: Byte := 10

  /** A chunk that begins with LF directly behind a CR. */
  predicate Splits(before: seq<Byte>, chunk: seq<Byte>) {
    before != [] && before[|before| - 1] == CR && chunk != [] && chunk[0] == LF
  }

  /** No chunk boundary separates a CR from its LF. */
  predicate NoSplit(before: seq<Byte>, chunks: seq<seq<Byte>>)
    decreases |chunks|
  {
    chunks == [] || (!Splits(before, chunks[0]) && NoSplit(before + chunks[0], chunks[1..]))
  }

  // ---------------------------------------------------------------------------------
  // Lines and events of concatenated input
  // ---------------------------------------------------------------------------------

  lemma {:induction false} LinesAppend(carried: string, a: string, b: string)
    ensures LinesFrom(carried, a + b) == LinesFrom(carried, a) + LinesFrom(Unfinished(carried, a), b)
    ensures Unfinished(carried, a + b) == Unfinished(Unfinished(carried, a), b)
    decreases |a|
  {
    if a == "" {
      assert a + b == b;
    } else {
      assert (a + b)[0] == a[0] && (a + b)[1..] == a[1..] + b;
      LinesAppend(if a[0] == '\n' then "" else carried + [a[0]], a[1..], b);
    }
  }

  lemma {:induction false} EventsAppend(pending: seq<string>, a: seq<string>, b: seq<string>)
    ensures Events(pending, a + b) == Events(pending, a) + Events(Open(pending, a), b)
    ensures Open(pending, a + b) == Open(Open(pending, a), b)
    decreases |a|
  {
    if a == [] {
      assert a + b == b;
    } else {
      assert (a + b)[0] == a[0] && (a + b)[1..] == a[1..] + b;
      EventsAppend(if a[0] == "" then [] else pending + Payload(a[0]), a[1..], b);
    }
  }

  /** An event is the data lines of its block, in order, joined by newlines. */
  lemma {:induction false} BlockEvent(pending: seq<string>, block: seq<string>, rest: seq<string>)
    requires "" !in block
    ensures var data := pending + Payloads(block);
            Events(pending, block + ([""] + rest)) == (if data == [] then [] else [Joined(data)]) + Events([], rest)
    decreases |block|
  {
    var end := [""] + rest;
    if block == [] {
      assert block + end == end && end[1..] == rest && pending + Payloads(block) == pending;
    } else {
      assert (block + end)[0] == block[0] && (block + end)[1..] == block[1..] + end;
      assert block[0] in block;
      BlockEvent(pending + Payload(block[0]), block[1..], rest);
      Associate(pending, Payload(block[0]), Payloads(block[1..]));
    }
  }

  // ---------------------------------------------------------------------------------
  // Chunk independence
  // ---------------------------------------------------------------------------------

  /** Parsing in one go may be interrupted anywhere. */
  lemma BatchResumes(s: State, a: seq<Byte>, b: seq<Byte>)
    ensures Batch(s, a + b) == if Batch(s, a).Failed? then Failed
                               else AndThen(Batch(s, a), Batch(Batch(s, a).state, b))
  {
    DecodeResumes(s.undecoded + a, b);
    assert s.undecoded + (a + b) == (s.undecoded + a) + b;
    if Decode(s.undecoded + a).Decoded? {
      var text := Decode(s.undecoded + a).text;
      var m := Batch(s, a).state;
      if Decode(m.undecoded + b).Decoded? {
        var more := Decode(m.undecoded + b).text;
        LinesAppend(s.line, text, more);
        EventsAppend(s.data, LinesFrom(s.line, text), LinesFrom(m.line, more));
      }
    }
  }

  /** How the parser state depends on the bytes read before it. */
  ghost predicate After(s: State, before: seq<Byte>) {
    && Pending(s.undecoded)
    && ((before != [] && before[|before| - 1] == CR) <==>
          (s.undecoded == [] && s.line != "" && s.line[|s.line| - 1] == '\r'))
  }

  /** Whether the text a push decodes begins with a newline. */
  lemma FirstDecoded(p: seq<Byte>, b: seq<Byte>)
    requires Pending(p) && DecodeFrom(p, b).Decoded?
    ensures var text := DecodeFrom(p, b).text;
            (text != "" && text[0] == '\n') <==> (p == [] && b != [] && b[0] == LF)
    decreases |b|
  {
    if b != [] {
      AsciiNext(p, b[0]);
      if Next(p, b[0]).More? {
        FirstDecoded(p + [b[0]], b[1..]);
      }
    }
  }

  lemma TextFrom(p: seq<Byte>, b: seq<Byte>)
    requires Pending(p)
    ensures Decode(p + b) == DecodeFrom(p, b)
  {
    Refeed(p, 0, b);
    assert p[..0] == [] && p[0..] == p;
  }

  lemma {:induction false} SameAfterBreak(part: string, text: string)
    ensures Completed("", part, text) == LinesFrom(part, text)
    decreases |text|
  {
    if text != "" {
      if text[0] == '\n' {
        assert "" + WithoutReturn(part) == WithoutReturn(part);
        SameAfterBreak("", text[1..]);
      } else {
        SameAfterBreak(part + [text[0]], text[1..]);
      }
    }
  }

  lemma {:induction false} SameOnceInPart(line: string, part: string, text: string)
    requires part != ""
    ensures Completed(line, part, text) == LinesFrom(line + part, text)
    decreases |text|
  {
    if text != "" {
      if text[0] == '\n' {
        assert (line + part)[..|line + part| - 1] == line + part[..|part| - 1];
        SameAfterBreak("", text[1..]);
      } else {
        assert line + (part + [text[0]]) == (line + part) + [text[0]];
        SameOnceInPart(line, part + [text[0]], text[1..]);
      }
    }
  }

  /** Where the code's lines and the stream's lines part: exactly at a split CR LF. */
  lemma CompletedIsLines(line: string, text: string)
    ensures |Completed(line, "", text)| == |LinesFrom(line, text)|
    ensures Completed(line, "", text) == LinesFrom(line, text) <==>
            !(line != "" && line[|line| - 1] == '\r' && text != "" && text[0] == '\n')
  {
    if text != "" {
      SameAfterBreak("", text[1..]);
      if text[0] == '\n' {
        assert line + "" == line;
        assert Completed(line, "", text)[0] == line && LinesFrom(line, text)[0] == WithoutReturn(line);
      } else {
        SameOnceInPart(line, [text[0]], text[1..]);
        assert "" + [text[0]] == [text[0]];
      }
    }
  }

  /** One push against parsing in one go, for the same state. */
  lemma PushIsBatch(s: State, before: seq<Byte>, chunk: seq<Byte>)
    requires After(s, before)
    ensures Pushed(s, chunk).Failed? <==> Batch(s, chunk).Failed?
    ensures Batch(s, chunk).Parsed? ==>
              && |Pushed(s, chunk).lines| == |Batch(s, chunk).lines|
              && (Pushed(s, chunk).lines == Batch(s, chunk).lines <==> !Splits(before, chunk))
              && Pushed(s, chunk).state.(data := []) == Batch(s, chunk).state.(data := [])
    ensures !Splits(before, chunk) ==> Pushed(s, chunk) == Batch(s, chunk)
  {
    TextFrom(s.undecoded, chunk);
    if Batch(s, chunk).Parsed? {
      FirstDecoded(s.undecoded, chunk);
      CompletedIsLines(s.line, Decode(s.undecoded + chunk).text);
    }
  }

  lemma SomethingDecoded(p: seq<Byte>, b: seq<Byte>)
    requires Pending(p) && DecodeFrom(p, b).Decoded? && b != []
    ensures DecodeFrom(p, b).text != "" || DecodeFrom(p, b).rest != []
  {
    DecodedParts(p, b);
  }

  lemma {:induction false} LastDecoded(p: seq<Byte>, b: seq<Byte>)
    requires Pending(p) && DecodeFrom(p, b).Decoded? && b != []
    ensures var d := DecodeFrom(p, b);
            b[|b| - 1] == CR <==> d.rest == [] && d.text != "" && d.text[|d.text| - 1] == '\r'
    decreases |b|
  {
    AsciiNext(p, b[0]);
    if |b| == 1 {
      assert b[1..] == [];
    } else if Next(p, b[0]).More? {
      LastDecoded(p + [b[0]], b[1..]);
    } else {
      LastDecoded([], b[1..]);
      SomethingDecoded([], b[1..]);
    }
  }

  lemma {:induction false} UnfinishedLast(carried: string, text: string)
    requires text != ""
    ensures var last := Unfinished(carried, text);
            if text[|text| - 1] == '\n' then last == "" else last != "" && last[|last| - 1] == text[|text| - 1]
    decreases |text|
  {
    if |text| > 1 {
      UnfinishedLast(if text[0] == '\n' then "" else carried + [text[0]], text[1..]);
    } else {
      assert text[1..] == "";
    }
  }

  lemma AfterPush(s: State, before: seq<Byte>, chunk: seq<Byte>)
    requires After(s, before) && Pushed(s, chunk).Parsed?
    ensures After(Pushed(s, chunk).state, before + chunk)
  {
    TextFrom(s.undecoded, chunk);
    DecodeFromResumes(s.undecoded, chunk, []);
    var d := DecodeFrom(s.undecoded, chunk);
    if chunk == [] {
      assert before + chunk == before;
    } else {
      LastDecoded(s.undecoded, chunk);
      if d.text != "" {
        UnfinishedLast(s.line, d.text);
      } else {
        DecodedParts(s.undecoded, chunk);
      }
      assert (before + chunk)[|before + chunk| - 1] == chunk[|chunk| - 1];
    }
  }

  ghost predicate SameReader(s: State, t: State) {
    s.undecoded == t.undecoded && s.line == t.line
  }

  /** The lines read do not depend on the data collected so far. */
  lemma BatchLines(s: State, t: State, bytes: seq<Byte>)
    requires SameReader(s, t)
    ensures Batch(s, bytes).Failed? <==> Batch(t, bytes).Failed?
    ensures Batch(s, bytes).Parsed? ==> Batch(s, bytes).lines == Batch(t, bytes).lines
  {
  }

  /** Chunked and one-shot parsing fail together, and read the same lines exactly when no
      chunk boundary separates a CR from its LF. */
  lemma {:induction false} LinesAgreeExactly(s: State, before: seq<Byte>, chunks: seq<seq<Byte>>)
    requires After(s, before)
    ensures PushAll(s, chunks).Failed? <==> Batch(s, Flat(chunks)).Failed?
    ensures Batch(s, Flat(chunks)).Parsed? ==>
              && |PushAll(s, chunks).lines| == |Batch(s, Flat(chunks)).lines|
              && (PushAll(s, chunks).lines == Batch(s, Flat(chunks)).lines <==> NoSplit(before, chunks))
    decreases |chunks|
  {
    if chunks == [] {
      BatchNothing(s, before);
    } else {
      PushIsBatch(s, before, chunks[0]);
      BatchResumes(s, chunks[0], Flat(chunks[1..]));
      var first := Pushed(s, chunks[0]);
      if first.Parsed? {
        AfterPush(s, before, chunks[0]);
        LinesAgreeExactly(first.state, before + chunks[0], chunks[1..]);
        BatchLines(first.state, Batch(s, chunks[0]).state, Flat(chunks[1..]));
        if Batch(first.state, Flat(chunks[1..])).Parsed? {
          SplitEqual(first.lines, PushAll(first.state, chunks[1..]).lines,
                     Batch(s, chunks[0]).lines, Batch(first.state, Flat(chunks[1..])).lines);
        }
      }
    }
  }

  lemma SplitEqual(a: seq<string>, b: seq<string>, c: seq<string>, d: seq<string>)
    requires |a| == |c|
    ensures a + b == c + d <==> a == c && b == d
  {
    if a + b == c + d {
      assert a == (a + b)[..|a|] && c == (c + d)[..|a|];
      assert b == (a + b)[|a|..] && d == (c + d)[|a|..];
    }
  }

  lemma BatchNothing(s: State, before: seq<Byte>)
    requires After(s, before)
    ensures Batch(s, []) == Parsed(s, [], [])
  {
    TextFrom(s.undecoded, []);
  }

  /** Chunk independence: when no boundary separates a CR from its LF, pushing the chunks
      gives the events, the lines and the final state of parsing the whole stream at once. */
  lemma {:induction false} ChunksDoNotMatter(s: State, before: seq<Byte>, chunks: seq<seq<Byte>>)
    requires After(s, before) && NoSplit(before, chunks)
    ensures PushAll(s, chunks) == Batch(s, Flat(chunks))
    decreases |chunks|
  {
    if chunks == [] {
      BatchNothing(s, before);
    } else {
      PushIsBatch(s, before, chunks[0]);
      BatchResumes(s, chunks[0], Flat(chunks[1..]));
      if Pushed(s, chunks[0]).Parsed? {
        AfterPush(s, before, chunks[0]);
        ChunksDoNotMatter(Pushed(s, chunks[0]).state, before + chunks[0], chunks[1..]);
      }
    }
  }

  /** For a whole stream, from the empty parser: the three promises together. */
  lemma WholeStream(chunks: seq<seq<Byte>>)
    ensures PushAll(Empty, chunks).Failed? <==> Decode(Flat(chunks)).Malformed?
    ensures Decode(Flat(chunks)).Decoded? ==>
              && (PushAll(Empty, chunks).lines == Lines(Decode(Flat(chunks)).text) <==> NoSplit([], chunks))
              && PushAll(Empty, chunks).state.undecoded == Decode(Flat(chunks)).rest
              && Truncated(PushAll(Empty, chunks).state.undecoded)
    ensures Decode(Flat(chunks)).Decoded? && NoSplit([], chunks) ==>
              PushAll(Empty, chunks).events == Events([], Lines(Decode(Flat(chunks)).text))
  {
    var all := Flat(chunks);
    assert [] + all == all;
    LinesAgreeExactly(Empty, [], chunks);
    if NoSplit([], chunks) {
      ChunksDoNotMatter(Empty, [], chunks);
    }
    if Decode(all).Decoded? {
      UndecodedTail(Empty, [], chunks);
      DecodeIsInverse(all, Decode(all).text, Decode(all).rest);
    }
  }

  lemma {:induction false} UndecodedTail(s: State, before: seq<Byte>, chunks: seq<seq<Byte>>)
    requires After(s, before) && PushAll(s, chunks).Parsed?
    ensures DecodeFrom(s.undecoded, Flat(chunks)).Decoded?
    ensures PushAll(s, chunks).state.undecoded == DecodeFrom(s.undecoded, Flat(chunks)).rest
    decreases |chunks|
  {
    if chunks != [] {
      var m := Pushed(s, chunks[0]).state;
      AfterPush(s, before, chunks[0]);
      TextFrom(s.undecoded, chunks[0]);
      UndecodedTail(m, before + chunks[0], chunks[1..]);
      DecodeFromResumes(s.undecoded, chunks[0], Flat(chunks[1..]));
    }
  }

  lemma {:induction false} NoBreak(carried: string, a: string, b: string)
    requires '\n' !in a
    ensures LinesFrom(carried, a + b) == LinesFrom(carried + a, b)
    ensures Unfinished(carried, a + b) == Unfinished(carried + a, b)
    decreases |a|
  {
    if a == "" {
      assert a + b == b && carried + a == carried;
    } else {
      assert (a + b)[0] == a[0] && (a + b)[1..] == a[1..] + b;
      assert a[0] in a && carried + a == (carried + [a[0]]) + a[1..];
      NoBreak(carried + [a[0]], a[1..], b);
    }
  }

  lemma PushText(s: State, text: string)
    requires s.undecoded == []
    ensures Pushed(s, EncodeAll(text)) ==
            var lines := Completed(s.line, "", text);
            Parsed(State([], Unfinished(s.line, text), Open(s.data, lines)), lines, Events(s.data, lines))
  {
    DecodeEncoded(text, []);
    assert s.undecoded + EncodeAll(text) == EncodeAll(text) + [];
  }

  lemma PushOne(s: State, chunk: seq<Byte>)
    ensures PushAll(s, [chunk]) == Pushed(s, chunk)
  {
    var none := [chunk][1..];
    assert none == [];
    if Pushed(s, chunk).Parsed? {
      assert PushAll(Pushed(s, chunk).state, none) == Parsed(Pushed(s, chunk).state, [], []);
    }
  }

  lemma PushTwo(s: State, a: seq<Byte>, b: seq<Byte>)
    requires Pushed(s, a).Parsed?
    ensures PushAll(s, [a, b]) == AndThen(Pushed(s, a), Pushed(Pushed(s, a).state, b))
  {
    assert [a, b][1..] == [b];
    PushOne(Pushed(s, a).state, b);
  }

  const BLANK := "\n\n"

  lemma TwoBreaks(line: string)
    ensures Completed(line, "", BLANK) == [line, ""]
    ensures LinesFrom(line, BLANK) == [WithoutReturn(line), ""]
    ensures Unfinished(line, BLANK) == ""
  {
    var last := BLANK[1..];
    assert last == "\n" && last[1..] == "" && line + "" == line && "" + "" == "";
    assert Completed("", "", last) == [""] && LinesFrom("", last) == [""];
  }

  lemma DataBlock(line: string, x: string)
    requires line == "data:" + x && (x == "" || x[0] != ' ')
    ensures Events([], [line, ""]) == [x] && Open([], [line, ""]) == []
  {
    var lines := [line, ""];
    assert Payload(line) == [x] by { assert line[5..] == x; }
    assert lines[1..] == [""] && [""][1..] == [] && [] + [x] == [x];
  }

  /** The boundary hypothesis is needed for events too: cut between CR and LF, the same
      stream yields an event that ends in a carriage return. */
  lemma SplitChangesTheEvent(x: string)
    requires '\n' !in x && (x == "" || x[0] != ' ')
    ensures var line := "data:" + x + "\r";
            && PushAll(Empty, [EncodeAll(line), EncodeAll(BLANK)]) == Parsed(Empty, [line, ""], [x + "\r"])
            && PushAll(Empty, [EncodeAll(line + BLANK)]) == Parsed(Empty, ["data:" + x, ""], [x])
  {
    var line := "data:" + x + "\r";
    CutApart(line);
    CutTogether(line);
    assert line == "data:" + (x + "\r") && WithoutReturn(line) == "data:" + x;
    DataBlock(line, x + "\r");
    DataBlock("data:" + x, x);
  }

  /** What the first chunk of a cut line leaves behind: a line without its end. */
  lemma HalfLine(line: string)
    requires '\n' !in line
    ensures Pushed(Empty, EncodeAll(line)) == Parsed(State([], line, []), [], [])
  {
    NoBreak("", line, "");
    SameAfterBreak("", line);
    assert line + "" == line && "" + line == line;
    PushText(Empty, line);
  }

  lemma CutApart(line: string)
    requires '\n' !in line
    ensures PushAll(Empty, [EncodeAll(line), EncodeAll(BLANK)])
         == Parsed(State([], "", Open([], [line, ""])), [line, ""], Events([], [line, ""]))
  {
    HalfLine(line);
    TwoBreaks(line);
    PushText(State([], line, []), BLANK);
    PushTwo(Empty, EncodeAll(line), EncodeAll(BLANK));
  }

  lemma CutTogether(line: string)
    requires '\n' !in line
    ensures var whole := [WithoutReturn(line), ""];
            var after := State([], "", Open([], whole));
            PushAll(Empty, [EncodeAll(line + BLANK)]) == Parsed(after, whole, Events([], whole))
  {
    NoBreak("", line, BLANK);
    SameAfterBreak("", line + BLANK);
    assert "" + line == line;
    TwoBreaks(line);
    PushText(Empty, line + BLANK);
    PushOne(Empty, EncodeAll(line + BLANK));
  }

  // ---------------------------------------------------------------------------------
  // The parser itself
  // ---------------------------------------------------------------------------------

  /** What reaching a newline does to the lines still to be completed. */
  lemma BreakStep(data: seq<string>, line: string, part: string, text: string)
    requires text != "" && text[0] == '\n'
    ensures var l, rest := line + WithoutReturn(part), Completed("", "", text[1..]);
            && Events(data, Completed(line, part, text)) == Events(data, [l]) + Events(Open(data, [l]), rest)
            && Open(data, Completed(line, part, text)) == Open(Open(data, [l]), rest)
            && Unfinished(line + part, text) == Unfinished("", text[1..])
  {
    EventsAppend(data, [line + WithoutReturn(part)], Completed("", "", text[1..]));
  }

  lemma PartStep(line: string, part: string, text: string)
    requires text != "" && text[0] != '\n'
    ensures Completed(line, part, text) == Completed(line, part + [text[0]], text[1..])
    ensures Unfinished(line + part, text) == Unfinished(line + (part + [text[0]]), text[1..])
  {
    assert line + (part + [text[0]]) == (line + part) + [text[0]];
  }

  lemma Associate(a: seq<string>, b: seq<string>, c: seq<string>)
    ensures a + (b + c) == (a + b) + c
  {
  }

  class Parser {
    var undecoded: seq<Byte>
    var line: string
    var data: seq<string>

    constructor ()
      ensures Value() == Empty
    {
      undecoded, line, data := [], "", [];
    }

    function Value(): State
      reads this
    {
      State(undecoded, line, data)
    }

    /** An invalid sequence fails the push; the caller then abandons the stream. */
    method Push(bytes: seq<Byte>) returns (r: Result<seq<string>, string>)
      modifies this
      ensures r.Err? <==> Pushed(old(Value()), bytes).Failed?
      ensures r.Ok? ==> Value() == Pushed(old(Value()), bytes).state && r.value == Pushed(old(Value()), bytes).events
    {
      undecoded := undecoded + bytes;
      match Decode(undecoded) {
        case Malformed =>
          r := Err("invalid utf-8 sequence");
        case Decoded(text, rest) =>
          undecoded := rest;
          var emitted := PushPieces(text);
          r := Ok(emitted);
      }
    }

    method PushPieces(text: string) returns (emitted: seq<string>)
      modifies this`line, this`data
      ensures emitted == Events(old(data), Completed(old(line), "", text))
      ensures data == Open(old(data), Completed(old(line), "", text))
      ensures line == Unfinished(old(line), text)
    {
      emitted := [];
      var part, rest := "", text;   // the current piece of split_inclusive and what follows
      assert line + part == line;
      while rest != ""
        invariant emitted + Events(data, Completed(line, part, rest))
            == Events(old(data), Completed(old(line), "", text))
        invariant Open(data, Completed(line, part, rest)) == Open(old(data), Completed(old(line), "", text))
        invariant Unfinished(line + part, rest) == Unfinished(old(line), text)
        decreases |rest|
      {
        if rest[0] == '\n' {
          BreakStep(data, line, part, rest);
          line := line + WithoutReturn(part);
          var complete := line;
          line, part := "", "";
          var more := ProcessLine(complete);
          Associate(emitted, more, Events(data, Completed("", "", rest[1..])));
          emitted := emitted + more;
          assert line + part == "";
        } else {
          PartStep(line, part, rest);
          part := part + [rest[0]];
        }
        rest := rest[1..];
      }
      line := line + part;
    }

    method ProcessLine(l: string) returns (emitted: seq<string>)
      modifies this`data
      ensures emitted == Events(old(data), [l]) && data == Open(old(data), [l])
    {
      assert [l][1..] == [];
      if l == "" {
        if data == [] {
          return [];
        }
        emitted := [Joined(data)];
        data := [];
        return;
      }
      assert data + [] == data;
      if ":" <= l {
        assert l[0] == ':' && "data:"[0] == 'd';
        return [];
      }
      data := data + Payload(l);
      return [];
    }

    /** The end of the stream never yields an event: an unterminated line is not blank. */
    method Finish() returns (r: Result<seq<string>, string>)
      modifies this
      ensures r.Err? <==> old(undecoded) != []
      ensures r.Ok? ==> r.value == []
    {
      if undecoded != [] {
        return Err("truncated UTF-8 in SSE stream");
      }
      if line != "" {
        var rest := line;
        line := "";
        var emitted := ProcessLine(rest);
        return Ok(emitted);
      }
      return Ok([]);
    }
  }
}
