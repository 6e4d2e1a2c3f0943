/** The command line of the terminal interface: its lexer, and the quoter that examples use. */
module CommandLexer {
  import opened Results

  /** The Unicode White_Space property. */
  predicate IsWhitespace(c: char) {
    var n := c as int;
    || 0x09 <= n <= 0x0D || n == 0x20 || n == 0x85 || n == 0xA0 || n == 0x1680 || 0x2000 <= n <= 0x200A
    || n == 0x2028 || n == 0x2029 || n == 0x202F || n == 0x205F || n == 0x3000
  }

  /** The lexer between two characters. */
  datatype Lexer = Lexer(words: seq<string>, word: string, quote: Option<char>, escape: bool, started: bool)

  function Step(s: Lexer, c: char): Lexer {
    if s.escape then s.(word := s.word + [c], escape := false, started := true)
    else if c == '\\' && s.quote != Some('\'') then s.(escape := true, started := true)
    else if s.quote.Some? then
      if c == s.quote.value then s.(quote := None, started := true) else s.(word := s.word + [c], started := true)
    else if c == '\'' || c == '"' then s.(quote := Some(c), started := true)
    else if IsWhitespace(c) then if s.started then s.(words := s.words + [s.word], word := "", started := false) else s
    else s.(word := s.word + [c], started := true)
  }

  function Run(s: Lexer, text: string): Lexer
    decreases |text|
  {
    if text == "" then s else Run(Step(s, text[0]), text[1..])
  }

  const INITIAL := Lexer([], "", None, false, false)

  function Finish(s: Lexer): Option<seq<string>> {
    if s.quote.Some? || s.escape then None else Some(if s.started then s.words + [s.word] else s.words)
  }

  function Split(text: string): Option<seq<string>> { Finish(Run(INITIAL, text)) }

  method SplitCommand(input: string) returns (r: Option<seq<string>>)
    ensures r == Split(input)
  {
    var words: seq<string>, word: string := [], "";
    var quote: Option<char>, escape, started := None, false, false;
    var rest := input;
    while rest != ""
      invariant Run(Lexer(words, word, quote, escape, started), rest) == Run(INITIAL, input)
      decreases |rest|
    {
      var c := rest[0];
      rest := rest[1..];
      if escape {
        word, escape, started := word + [c], false, true;
        continue;
      }
      if c == '\\' && quote != Some('\'') {
        escape, started := true, true;
        continue;
      }
      if quote.Some? {
        if c == quote.value {
          quote := None;
        } else {
          word := word + [c];
        }
        started := true;
      } else if c == '\'' || c == '"' {
        quote, started := Some(c), true;
      } else if IsWhitespace(c) {
        if started {
          words, word, started := words + [word], "", false;
        }
      } else {
        word, started := word + [c], true;
      }
    }
    if quote.Some? || escape {
      return None;
    }
    if started {
      words := words + [word];
    }
    return Some(words);
  }

  // ---------------------------------------------------------------------------------
  // Quoting
  // ---------------------------------------------------------------------------------

  /** Every single quote becomes: close, escaped quote, open. */
  function Replaced(word: string): string {
    if word == "" then "" else (if word[0] == '\'' then "'\\''" else [word[0]]) + Replaced(word[1..])
  }

  function ShellQuote(word: string): string { "'" + Replaced(word) + "'" }

  function Joined(words: seq<string>): string
    decreases |words|
  {
    if words == [] then ""
    else if |words| == 1 then ShellQuote(words[0])
    else Joined(words[..|words| - 1]) + " " + ShellQuote(words[|words| - 1])
  }

  lemma {:induction false} RunAppend(s: Lexer, a: string, b: string)
    ensures Run(s, a + b) == Run(Run(s, a), b)
    decreases |a|
  {
    if a == "" {
      assert a + b == b;
    } else {
      assert (a + b)[1..] == a[1..] + b;
      RunAppend(Step(s, a[0]), a[1..], b);
    }
  }

  lemma RunOne(s: Lexer, c: char)
    ensures Run(s, [c]) == Step(s, c)
  {
    assert [c][1..] == "";
  }

  lemma RunQuote(words: seq<string>, word: string)
    ensures Run(Lexer(words, word, Some('\''), false, true), "'\\''")
         == Lexer(words, word + "'", Some('\''), false, true)
  {
    var s := Lexer(words, word, Some('\''), false, true);
    assert "'\\''" == "'" + "\\" + "'" + "'";
    RunAppend(s, "'" + "\\" + "'", "'");
    RunAppend(s, "'" + "\\", "'");
    RunAppend(s, "'", "\\");
    var closed := Lexer(words, word, None, false, true);
    RunOne(s, '\'');
    RunOne(closed, '\\');
    RunOne(closed.(escape := true), '\'');
    RunOne(closed.(word := word + "'"), '\'');
  }

  lemma {:induction false} RunReplaced(words: seq<string>, word: string, more: string)
    ensures Run(Lexer(words, word, Some('\''), false, true), Replaced(more))
         == Lexer(words, word + more, Some('\''), false, true)
    decreases |more|
  {
    var s := Lexer(words, word, Some('\''), false, true);
    if more == "" {
      assert word + more == word;
    } else {
      var first := if more[0] == '\'' then "'\\''" else [more[0]];
      RunAppend(s, first, Replaced(more[1..]));
      if more[0] == '\'' {
        RunQuote(words, word);
      } else {
        RunOne(s, more[0]);
      }
      RunReplaced(words, word + [more[0]], more[1..]);
      assert word + [more[0]] + more[1..] == word + more;
    }
  }

  lemma RunShellQuote(words: seq<string>, word: string)
    ensures Run(Lexer(words, "", None, false, false), ShellQuote(word)) == Lexer(words, word, None, false, true)
  {
    var s := Lexer(words, "", None, false, false);
    RunAppend(s, "'" + Replaced(word), "'");
    RunAppend(s, "'", Replaced(word));
    RunOne(s, '\'');
    RunReplaced(words, "", word);
    assert "" + word == word;
    RunOne(Lexer(words, word, Some('\''), false, true), '\'');
  }

  lemma {:induction false} RunJoined(words: seq<string>)
    requires words != []
    ensures Run(INITIAL, Joined(words)) == Lexer(words[..|words| - 1], words[|words| - 1], None, false, true)
    decreases |words|
  {
    var front, last := words[..|words| - 1], words[|words| - 1];
    if |words| == 1 {
      RunShellQuote([], last);
    } else {
      RunJoined(front);
      RunAppend(INITIAL, Joined(front) + " ", ShellQuote(last));
      RunAppend(INITIAL, Joined(front), " ");
      RunOne(Run(INITIAL, Joined(front)), ' ');
      assert front[..|front| - 1] + [front[|front| - 1]] == front;
      RunShellQuote(front, last);
    }
  }

  /** The lexer returns exactly the words that were quoted and joined by single spaces,
      whatever they contain and however many there are. */
  lemma SplitJoined(words: seq<string>)
    ensures Split(Joined(words)) == Some(words)
  {
    if words != [] {
      RunJoined(words);
      assert words == words[..|words| - 1] + [words[|words| - 1]];
    }
  }

  /** So two different word lists never share one command line. */
  lemma JoinedInjective(a: seq<string>, b: seq<string>)
    requires Joined(a) == Joined(b)
    ensures a == b
  {
    SplitJoined(a);
    SplitJoined(b);
  }
}
