/** The tokenizer of src/syntax/lexer.rs. `Scan` and `ScanString` say, as
    functions of the characters still to be read, what one call of `lex`
    does; the class `Lexer` is the Rust struct with its fields, and its
    `Lex` method (the outer loop, with the inner loop in `LexString`) is
    proved to do exactly that. */
module Lexing {

  import opened Wrappers
  import opened Tokens

  /** The Rust `LexerError`: a message only. */
  datatype LexerError = LexerError(msg: string)

  const EndOfFile := "Reached end of file"
  const EndOfLine := "Reached EOL while parsing string"

  /** `rest` is what is left of `input` once a prefix of it is read. */
  predicate IsSuffix(rest: string, input: string) {
    |rest| <= |input| && rest == input[|input| - |rest|..]
  }

  predicate IsQuote(c: char) {
    c == '\'' || c == '"'
  }

  /** How the inner loop of `lex` ends: the string closed, with its contents,
      or an error; with the column and the characters left in either case. */
  datatype StringScan =
    | Closed(body: string, col: nat, rest: string)
    | Failed(error: LexerError, col: nat, rest: string)

  /** The inner loop of `lex` after the opening quote `q`, with `body` read so
      far: each round charges one column, then takes one character. */
  function ScanString(q: char, input: string, col: nat, body: string): (r: StringScan)
    requires IsQuote(q)
    ensures |r.rest| <= |input|
    decreases |input|
  {
    if input == [] then Failed(LexerError(EndOfFile), col + 1, [])
    else
      var c := input[0];
      if c == '\'' && q == '\'' then Closed(body, col + 1, input[1..])
      else if c == '"' && q == '"' then Closed(body, col + 1, input[1..])
      else if c == '\n' then Failed(LexerError(EndOfLine), col + 1, input[1..])
      else ScanString(q, input[1..], col + 1, body + [c])
  }

  /** One round of the inner loop at position `i` of `s`: a string is closed
      only by the quote that opened it, and fails on a raw newline; every other
      character, the other quote included, joins the contents. */
  lemma ScanStringStep(q: char, s: string, i: nat, col: nat, body: string)
    requires IsQuote(q) && i < |s|
    ensures ScanString(q, s[i..], col, body) ==
      if s[i] == q then Closed(body, col + 1, s[i + 1..])
      else if s[i] == '\n' then Failed(LexerError(EndOfLine), col + 1, s[i + 1..])
      else ScanString(q, s[i + 1..], col + 1, body + [s[i]])
  {
    assert s[i..][1..] == s[i + 1..];
  }

  /** Where one call of `lex` leaves the lexer: what it returns, the tokens,
      the column and the characters not yet read. */
  datatype Outcome = Outcome(result: Result<(), LexerError>, tokens: seq<Token>, col: nat, rest: string)

  /** The outer loop of `lex`: every character charges one column; a quote
      starts a string whose token is pushed at the column reached after its
      closing quote; every other character is skipped. */
  function Scan(input: string, line: nat, col: nat, tokens: seq<Token>): Outcome
    decreases |input|
  {
    if input == [] then Outcome(Ok(()), tokens, col, [])
    else
      var ch := input[0];
      if IsQuote(ch) then
        match ScanString(ch, input[1..], col + 1, [])
        case Closed(body, col', rest) =>
          Scan(rest, line, col', tokens + [Token(line, col', Literal(String(body)))])
        case Failed(e, col', rest) => Outcome(Err(e), tokens, col', rest)
      else
        Scan(input[1..], line, col + 1, tokens)
  }

  /** One round of the outer loop at position `i` of `s` on a quote whose
      string closes: its token is pushed at the column after the closing quote. */
  lemma ScanQuoteClosed(s: string, i: nat, line: nat, col: nat, tokens: seq<Token>)
    requires i < |s| && IsQuote(s[i]) && ScanString(s[i], s[i + 1..], col + 1, []).Closed?
    ensures var r := ScanString(s[i], s[i + 1..], col + 1, []);
      Scan(s[i..], line, col, tokens) == Scan(r.rest, line, r.col, tokens + [Token(line, r.col, Literal(String(r.body)))])
  {
    assert s[i..][1..] == s[i + 1..];
  }

  /** One round of the outer loop at position `i` of `s` on a quote whose
      string fails: the error ends the scan. */
  lemma ScanQuoteFailed(s: string, i: nat, line: nat, col: nat, tokens: seq<Token>)
    requires i < |s| && IsQuote(s[i]) && ScanString(s[i], s[i + 1..], col + 1, []).Failed?
    ensures var r := ScanString(s[i], s[i + 1..], col + 1, []);
      Scan(s[i..], line, col, tokens) == Outcome(Err(r.error), tokens, r.col, r.rest)
  {
    assert s[i..][1..] == s[i + 1..];
  }

  /** One round of the outer loop at position `i` of `s` on any other
      character: it is skipped. */
  lemma ScanOther(s: string, i: nat, line: nat, col: nat, tokens: seq<Token>)
    requires i < |s| && !IsQuote(s[i])
    ensures Scan(s[i..], line, col, tokens) == Scan(s[i + 1..], line, col + 1, tokens)
  {
    assert s[i..][1..] == s[i + 1..];
  }

  /** The Rust `Lexer`: the tokens pushed so far, the line and column
      counters, and the source with a cursor standing for the peekable
      iterator over its characters. */
  class Lexer {
    var tokens: seq<Token>
    var line: nat
    var col: nat
    const source: string
    var cursor: nat

    ghost predicate Valid()
      reads this
    {
      cursor <= |source|
    }

    constructor (source: string)
      ensures Valid() && this.source == source && source[cursor..] == source
      ensures tokens == [] && line == 0 && col == 0
    {
      this.source := source;
      tokens, line, col, cursor := [], 0, 0, 0;
    }

    method PushToken(td: TokenData)
      modifies this`tokens
      ensures tokens == old(tokens) + [Token(line, col, td)]
    {
      tokens := tokens + [Token(line, col, td)];
    }

    /** The next character, if any, without consuming it. */
    method PeekNext() returns (c: Option<char>)
      requires Valid()
      ensures c.None? <==> cursor == |source|
      ensures c.Some? ==> c.value == source[cursor]
    {
      c := if cursor < |source| then Some(source[cursor]) else None;
    }

    /** Consumes the next character; fails at the end of the input. */
    method Next() returns (r: Result<char, LexerError>)
      requires Valid()
      modifies this`cursor
      ensures Valid()
      ensures old(cursor) == |source| ==> r == Err(LexerError(EndOfFile)) && cursor == old(cursor)
      ensures old(cursor) < |source| ==> r == Ok(source[old(cursor)]) && cursor == old(cursor) + 1
    {
      if cursor < |source| {
        r := Ok(source[cursor]);
        cursor := cursor + 1;
      } else {
        r := Err(LexerError(EndOfFile));
      }
    }

    /** The inner loop of `lex`, after the opening quote `q`: collects the
        string's characters up to the matching quote. */
    method LexString(q: char) returns (r: Result<string, LexerError>)
      requires Valid() && IsQuote(q)
      modifies this`col, this`cursor
      ensures Valid()
      ensures var s := ScanString(q, old(source[cursor..]), old(col), []);
        col == s.col && source[cursor..] == s.rest &&
        r == (if s.Closed? then Ok(s.body) else Err(s.error))
    {
      ghost var goal := ScanString(q, source[cursor..], col, []);
      var str := [];
      var closed := false;
      while !closed
        invariant Valid()
        invariant !closed ==> ScanString(q, source[cursor..], col, str) == goal
        invariant closed ==> goal == Closed(str, col, source[cursor..])
        decreases |source| - cursor + (if closed then 0 else 1)
      {
        ghost var here, hereCol := cursor, col;
        if here < |source| {
          ScanStringStep(q, source, here, hereCol, str);
        }
        col := col + 1;
        var c := Next();
        if c.Err? {
          assert goal == Failed(c.error, col, source[cursor..]);
          return Err(c.error);
        }
        if c.value == '\'' && q == '\'' {
          closed := true;
        } else if c.value == '"' && q == '"' {
          closed := true;
        } else if c.value == '\n' {
          assert goal == Failed(LexerError(EndOfLine), col, source[cursor..]);
          return Err(LexerError(EndOfLine));
        } else {
          str := str + [c.value];
        }
      }
      r := Ok(str);
    }

    /** Scans what is left of the source; the tokens it finds are appended,
        and stay even when it fails. */
    method Lex() returns (r: Result<(), LexerError>)
      requires Valid()
      modifies this`tokens, this`col, this`cursor
      ensures Valid() && line == old(line)
      ensures Scan(old(source[cursor..]), line, old(col), old(tokens)) == Outcome(r, tokens, col, source[cursor..])
    {
      ghost var goal := Scan(source[cursor..], line, col, tokens);
      var peeked := PeekNext();
      while peeked.Some?
        invariant Valid()
        invariant peeked.None? <==> cursor == |source|
        invariant Scan(source[cursor..], line, col, tokens) == goal
        decreases |source| - cursor
      {
        ghost var at, atCol := cursor, col;
        var next := Next();
        // The iterator has just shown a character, so this cannot fail.
        assert next.Ok?;
        var ch := next.value;
        col := col + 1;
        if IsQuote(ch) {
          var str := LexString(ch);
          if str.Err? {
            ScanQuoteFailed(source, at, line, atCol, tokens);
            return Err(str.error);
          }
          ScanQuoteClosed(source, at, line, atCol, tokens);
          PushToken(Literal(String(str.value)));
        } else {
          ScanOther(source, at, line, atCol, tokens);
        }
        peeked := PeekNext();
      }
      r := Ok(());
    }
  }
}
