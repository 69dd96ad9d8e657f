/** What one call of `lex` does, stated outright: where a string ends, which
    tokens come out, how the column moves, what survives an error. Every
    lemma here is about `Scan` and `ScanString`, which `Lexer.Lex` is proved
    to follow. */
module LexingProperties {

  import opened Wrappers
  import opened Tokens
  import opened Lexing

  /** A character that neither closes a string opened by `q` nor ends it in error. */
  predicate Plain(q: char, c: char) {
    c != q && c != '\n'
  }

  /** Where a string opened by `q` stops: at its first closing quote or raw
      newline, or at the end of the input. */
  function StringEnd(q: char, s: string): (k: nat)
    ensures k <= |s|
    ensures forall i :: 0 <= i < k ==> Plain(q, s[i])
    ensures k < |s| ==> !Plain(q, s[k])
  {
    if s == [] || !Plain(q, s[0]) then 0 else 1 + StringEnd(q, s[1..])
  }

  /** The place where a string stops is the only one the three facts above allow. */
  lemma StringEndUnique(q: char, s: string, k: nat)
    requires k <= |s| && (forall i :: 0 <= i < k ==> Plain(q, s[i]))
    requires k < |s| ==> !Plain(q, s[k])
    ensures StringEnd(q, s) == k
  {
  }

  /** The inner loop of `lex`, all inputs: the contents are exactly the text
      before the first closing quote or raw newline, with no escapes; one
      column is charged per character read and one more for the failed read
      at the end of the input. */
  lemma {:induction false} ScanStringMeaning(q: char, input: string, col: nat, body: string)
    requires IsQuote(q)
    ensures var k := StringEnd(q, input);
      ScanString(q, input, col, body) ==
        if k == |input| then Failed(LexerError(EndOfFile), col + k + 1, [])
        else if input[k] == q then Closed(body + input[..k], col + k + 1, input[k + 1..])
        else Failed(LexerError(EndOfLine), col + k + 1, input[k + 1..])
    decreases |input|
  {
    if input != [] && Plain(q, input[0]) {
      var tail := input[1..];
      ScanStringMeaning(q, tail, col + 1, body + [input[0]]);
      var k := StringEnd(q, tail);
      assert StringEnd(q, input) == k + 1;
      assert body + [input[0]] + tail[..k] == body + input[..k + 1];
      if k < |tail| {
        assert tail[k + 1..] == input[k + 2..];
      }
    }
  }

  /** A quoted string with no raw newline and no closing quote inside it
      yields exactly one string literal holding the enclosed text, pushed at
      the column reached after the closing quote. */
  lemma QuotedStringToken(q: char, text: string, rest: string, line: nat, col: nat, tokens: seq<Token>)
    requires IsQuote(q) && forall i :: 0 <= i < |text| ==> Plain(q, text[i])
    ensures Scan([q] + text + [q] + rest, line, col, tokens) ==
      Scan(rest, line, col + |text| + 2, tokens + [Token(line, col + |text| + 2, Literal(String(text)))])
  {
    var input := [q] + text + [q] + rest;
    var inner := text + [q] + rest;
    assert input[0] == q && input[1..] == inner;
    StringEndUnique(q, inner, |text|);
    ScanStringMeaning(q, inner, col + 1, []);
    assert inner[|text|] == q;
    assert [] + inner[..|text|] == text && inner[|text| + 1..] == rest;
    assert ScanString(q, input[1..], col + 1, []) == Closed(text, col + |text| + 2, rest);
  }

  /** A raw newline before the closing quote ends `lex` with the end-of-line
      error; the string read so far yields no token. */
  lemma NewlineInString(q: char, text: string, rest: string, line: nat, col: nat, tokens: seq<Token>)
    requires IsQuote(q) && forall i :: 0 <= i < |text| ==> Plain(q, text[i])
    ensures Scan([q] + text + ['\n'] + rest, line, col, tokens) ==
      Outcome(Err(LexerError(EndOfLine)), tokens, col + |text| + 2, rest)
  {
    var input := [q] + text + ['\n'] + rest;
    var inner := text + ['\n'] + rest;
    assert input[0] == q && input[1..] == inner;
    StringEndUnique(q, inner, |text|);
    ScanStringMeaning(q, inner, col + 1, []);
    assert inner[|text| + 1..] == rest;
  }

  /** Running out of input inside a string ends `lex` with the end-of-file
      error; the column is charged once more for the read that failed. */
  lemma EndOfInputInString(q: char, text: string, line: nat, col: nat, tokens: seq<Token>)
    requires IsQuote(q) && forall i :: 0 <= i < |text| ==> Plain(q, text[i])
    ensures Scan([q] + text, line, col, tokens) ==
      Outcome(Err(LexerError(EndOfFile)), tokens, col + |text| + 2, [])
  {
    var input := [q] + text;
    assert input[0] == q && input[1..] == text;
    StringEndUnique(q, text, |text|);
    ScanStringMeaning(q, text, col + 1, []);
  }

  /** With nothing left to read, `lex` succeeds and changes nothing. */
  lemma ScanEmpty(line: nat, col: nat, tokens: seq<Token>)
    ensures Scan([], line, col, tokens) == Outcome(Ok(()), tokens, col, [])
  {
  }

  /** Characters other than quotes, newlines included, are skipped: no token,
      no error, one column each. */
  lemma {:induction false} ScanWithoutQuotes(input: string, line: nat, col: nat, tokens: seq<Token>)
    requires forall i :: 0 <= i < |input| ==> !IsQuote(input[i])
    ensures Scan(input, line, col, tokens) == Outcome(Ok(()), tokens, col + |input|, [])
    decreases |input|
  {
    if input != [] {
      ScanWithoutQuotes(input[1..], line, col + 1, tokens);
    }
  }

  /** The token list is only appended to, so the tokens found before an
      error stay; and the column never goes back. */
  lemma {:induction false} ScanAppendsOnly(input: string, line: nat, col: nat, tokens: seq<Token>)
    ensures var r := Scan(input, line, col, tokens);
      |r.tokens| >= |tokens| && r.tokens[..|tokens|] == tokens && col <= r.col
    decreases |input|
  {
    if input != [] {
      if IsQuote(input[0]) {
        var q := input[0];
        ScanStringMeaning(q, input[1..], col + 1, []);
        var s := ScanString(q, input[1..], col + 1, []);
        if s.Closed? {
          var pushed := tokens + [Token(line, s.col, Literal(String(s.body)))];
          ScanAppendsOnly(s.rest, line, s.col, pushed);
          var r := Scan(s.rest, line, s.col, pushed);
          assert r.tokens[..|tokens|] == r.tokens[..|pushed|][..|tokens|];
        }
      } else {
        ScanAppendsOnly(input[1..], line, col + 1, tokens);
      }
    }
  }

  /** Every token `lex` adds is a string literal on the lexer's line, at a
      column past the starting one and not past the final one. */
  lemma {:induction false} ScanNewTokens(input: string, line: nat, col: nat, tokens: seq<Token>)
    ensures var r := Scan(input, line, col, tokens);
      |r.tokens| >= |tokens| &&
      forall i :: |tokens| <= i < |r.tokens| ==>
        r.tokens[i].line == line && r.tokens[i].data.Literal? && r.tokens[i].data.literal.String? &&
        col < r.tokens[i].col <= r.col
    decreases |input|
  {
    ScanAppendsOnly(input, line, col, tokens);
    if input != [] {
      if IsQuote(input[0]) {
        var q := input[0];
        ScanStringMeaning(q, input[1..], col + 1, []);
        var s := ScanString(q, input[1..], col + 1, []);
        if s.Closed? {
          var pushed := tokens + [Token(line, s.col, Literal(String(s.body)))];
          ScanNewTokens(s.rest, line, s.col, pushed);
          ScanAppendsOnly(s.rest, line, s.col, pushed);
          var r := Scan(s.rest, line, s.col, pushed);
          assert r.tokens[|tokens|] == r.tokens[..|pushed|][|tokens|];
        }
      } else {
        ScanNewTokens(input[1..], line, col + 1, tokens);
      }
    }
  }

  /** What `lex` leaves unread is the end of what it was given; after the
      end-of-line error it stands just past the newline. */
  lemma {:induction false} ScanRest(input: string, line: nat, col: nat, tokens: seq<Token>)
    ensures var r := Scan(input, line, col, tokens);
      IsSuffix(r.rest, input) &&
      (r.result.Err? ==> r.result.error == LexerError(EndOfFile) || r.result.error == LexerError(EndOfLine)) &&
      (r.result == Err(LexerError(EndOfLine)) ==> |r.rest| < |input| && input[|input| - |r.rest| - 1] == '\n')
    decreases |input|
  {
    if input != [] {
      var tail := input[1..];
      if IsQuote(input[0]) {
        var q := input[0];
        ScanStringMeaning(q, tail, col + 1, []);
        var s := ScanString(q, tail, col + 1, []);
        var k := StringEnd(q, tail);
        if k < |tail| {
          assert s.rest == input[k + 2..];
        }
        if s.Closed? {
          var pushed := tokens + [Token(line, s.col, Literal(String(s.body)))];
          ScanRest(s.rest, line, s.col, pushed);
        }
      } else {
        ScanRest(tail, line, col + 1, tokens);
      }
    }
  }

  /** How the column moves: on success it has grown by the number of
      characters read, which is all of them; after the end-of-line error by
      the number read, the newline included; after the end-of-file error by
      one more than the number read. */
  lemma {:induction false} ScanColumns(input: string, line: nat, col: nat, tokens: seq<Token>)
    ensures var r := Scan(input, line, col, tokens);
      |r.rest| <= |input| &&
      (r.result.Ok? ==> r.rest == [] && r.col == col + |input|) &&
      (r.result == Err(LexerError(EndOfFile)) ==> r.rest == [] && r.col == col + |input| + 1) &&
      (r.result == Err(LexerError(EndOfLine)) ==> r.col == col + (|input| - |r.rest|))
    decreases |input|
  {
    if input != [] {
      var tail := input[1..];
      if IsQuote(input[0]) {
        var q := input[0];
        ScanStringMeaning(q, tail, col + 1, []);
        var s := ScanString(q, tail, col + 1, []);
        if s.Closed? {
          ScanColumns(s.rest, line, s.col, tokens + [Token(line, s.col, Literal(String(s.body)))]);
        }
      } else {
        ScanColumns(tail, line, col + 1, tokens);
      }
    }
  }

  /** A string that closes inside `a` closes at the same place in `a + b`. */
  lemma ScanStringAppend(q: char, a: string, b: string, col: nat)
    requires IsQuote(q) && ScanString(q, a, col, []).Closed?
    ensures var s := ScanString(q, a, col, []);
      ScanString(q, a + b, col, []) == Closed(s.body, s.col, s.rest + b)
  {
    ScanStringMeaning(q, a, col, []);
    var k := StringEnd(q, a);
    StringEndUnique(q, a + b, k);
    ScanStringMeaning(q, a + b, col, []);
    assert (a + b)[..k] == a[..k] && (a + b)[k + 1..] == a[k + 1..] + b;
  }

  /** `lex` is compositional: once a prefix has been scanned without error,
      the rest is scanned from the column and tokens it left. */
  lemma {:induction false} ScanAppend(a: string, b: string, line: nat, col: nat, tokens: seq<Token>)
    requires Scan(a, line, col, tokens).result.Ok?
    ensures var r := Scan(a, line, col, tokens);
      Scan(a + b, line, col, tokens) == Scan(b, line, r.col, r.tokens)
    decreases |a|
  {
    if a != [] {
      assert (a + b)[0] == a[0] && (a + b)[1..] == a[1..] + b;
      if IsQuote(a[0]) {
        var s := ScanString(a[0], a[1..], col + 1, []);
        ScanStringAppend(a[0], a[1..], b, col + 1);
        ScanStringMeaning(a[0], a[1..], col + 1, []);
        ScanAppend(s.rest, b, line, s.col, tokens + [Token(line, s.col, Literal(String(s.body)))]);
      } else {
        ScanAppend(a[1..], b, line, col + 1, tokens);
      }
    } else {
      assert a + b == b;
    }
  }

  /** Each of `ts` stands at a column just past a quote of `input`, counting
      the characters of `input` from column `col`. */
  predicate AtClosingQuotes(input: string, col: nat, ts: seq<Token>) {
    forall i :: 0 <= i < |ts| ==> col < ts[i].col <= col + |input| && IsQuote(input[ts[i].col - col - 1])
  }

  /** Tokens placed against a suffix of `input` are placed against `input`. */
  lemma AtClosingQuotesWithin(input: string, j: nat, col: nat, ts: seq<Token>)
    requires j <= |input| && AtClosingQuotes(input[j..], col + j, ts)
    ensures AtClosingQuotes(input, col, ts)
  {
    forall i | 0 <= i < |ts|
      ensures col < ts[i].col <= col + |input| && IsQuote(input[ts[i].col - col - 1])
    {
      assert input[ts[i].col - col - 1] == input[j..][ts[i].col - (col + j) - 1];
    }
  }

  lemma AtClosingQuotesCons(input: string, col: nat, t: Token, ts: seq<Token>)
    requires col < t.col <= col + |input| && IsQuote(input[t.col - col - 1])
    requires AtClosingQuotes(input, col, ts)
    ensures AtClosingQuotes(input, col, [t] + ts)
  {
    forall i | 0 <= i < |[t] + ts|
      ensures col < ([t] + ts)[i].col <= col + |input| && IsQuote(input[([t] + ts)[i].col - col - 1])
    {
      if i > 0 {
        assert ([t] + ts)[i] == ts[i - 1];
      }
    }
  }

  /** A token just past the quote at position `j - 1`, before tokens placed
      against what follows that quote. */
  lemma PrependAtClosingQuote(input: string, col: nat, j: nat, t: Token, later: seq<Token>)
    requires 0 < j <= |input| && t.col == col + j && IsQuote(input[j - 1])
    requires AtClosingQuotes(input[j..], col + j, later)
    ensures AtClosingQuotes(input, col, [t] + later)
  {
    AtClosingQuotesWithin(input, j, col, later);
    AtClosingQuotesCons(input, col, t, later);
  }

  /** What follows `tokens` in a sequence that starts with `tokens + [t]`. */
  lemma SplitAfterPush(tokens: seq<Token>, t: Token, all: seq<Token>)
    requires |all| > |tokens| && all[..|tokens| + 1] == tokens + [t]
    ensures all[|tokens|..] == [t] + all[|tokens| + 1..]
  {
    assert all[|tokens|] == all[..|tokens| + 1][|tokens|];
  }

  /** The step of `TokenColumnsAtClosingQuotes` over a string that closes: its
      token stands just past the closing quote, and the tokens after it stand
      where the scan of the rest put them. */
  lemma ClosedStringColumns(input: string, line: nat, col: nat, tokens: seq<Token>)
    requires input != [] && IsQuote(input[0])
    requires ScanString(input[0], input[1..], col + 1, []).Closed?
    requires var s := ScanString(input[0], input[1..], col + 1, []);
      var r := Scan(s.rest, line, s.col, tokens + [Token(line, s.col, Literal(String(s.body)))]);
      |r.tokens| > |tokens| && AtClosingQuotes(s.rest, s.col, r.tokens[|tokens| + 1..])
    ensures var r := Scan(input, line, col, tokens);
      |r.tokens| >= |tokens| && AtClosingQuotes(input, col, r.tokens[|tokens|..])
  {
    var q, tail := input[0], input[1..];
    ScanStringMeaning(q, tail, col + 1, []);
    var s := ScanString(q, tail, col + 1, []);
    var k := StringEnd(q, tail);
    assert s.rest == input[k + 2..] && s.col == col + k + 2 && input[k + 1] == q;
    var token := Token(line, s.col, Literal(String(s.body)));
    var pushed := tokens + [token];
    var r := Scan(input, line, col, tokens);
    assert r == Scan(s.rest, line, s.col, pushed);
    ScanAppendsOnly(s.rest, line, s.col, pushed);
    SplitAfterPush(tokens, token, r.tokens);
    PrependAtClosingQuote(input, col, k + 2, token, r.tokens[|tokens| + 1..]);
  }

  /** Counted from where `lex` started, each new token's column is the
      position just past a quote character of the input. */
  lemma {:induction false} TokenColumnsAtClosingQuotes(input: string, line: nat, col: nat, tokens: seq<Token>)
    ensures var r := Scan(input, line, col, tokens);
      |r.tokens| >= |tokens| && AtClosingQuotes(input, col, r.tokens[|tokens|..])
    decreases |input|
  {
    if input != [] {
      var tail := input[1..];
      if IsQuote(input[0]) {
        var s := ScanString(input[0], tail, col + 1, []);
        if s.Closed? {
          var pushed := tokens + [Token(line, s.col, Literal(String(s.body)))];
          TokenColumnsAtClosingQuotes(s.rest, line, s.col, pushed);
          ClosedStringColumns(input, line, col, tokens);
        }
      } else {
        var r := Scan(input, line, col, tokens);
        TokenColumnsAtClosingQuotes(tail, line, col + 1, tokens);
        AtClosingQuotesWithin(input, 1, col, r.tokens[|tokens|..]);
      }
    }
  }

  /** `fn main() {}` holds no quote: a fresh lexer finds no token at all. */
  lemma MainExample()
    ensures Scan("fn main() {}", 0, 0, []) == Outcome(Ok(()), [], 12, [])
  {
    ScanWithoutQuotes("fn main() {}", 0, 0, []);
  }

  /** A string left open at the end: the end-of-file error, no token (the
      words before it are not recognised), and a column one past the length. */
  lemma UnterminatedExample()
    ensures Scan("let x = 'abc", 0, 0, []) == Outcome(Err(LexerError(EndOfFile)), [], 13, [])
  {
    assert "let x = 'abc" == "let x = " + (['\''] + "abc");
    ScanWithoutQuotes("let x = ", 0, 0, []);
    ScanAppend("let x = ", ['\''] + "abc", 0, 0, []);
    EndOfInputInString('\'', "abc", 0, 8, []);
  }
}
