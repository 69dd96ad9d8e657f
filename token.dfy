/** The token data model of src/syntax/token.rs and its `Display` renderings,
    each rendering written as a function returning a string. */
module Tokens {

  import opened Wrappers
  import opened Decimal

  /** The 32- and 64-bit signed integers a numeric literal holds. */
  newtype i32 = x: int | -0x8000_0000 <= x < 0x8000_0000
  newtype i64 = x: int | -0x8000_0000_0000_0000 <= x < 0x8000_0000_0000_0000

  datatype Keyword = Fn | If | Let | For

  datatype Separator = OpeningParen | ClosingParen | OpeningBlock | ClosingBlock | Semicolon | Comma

  datatype Operator = Add | Subtract | Multiply | Divide

  datatype Literal = Boolean(b: bool) | String(s: string) | Int(i: i32) | Long(l: i64)

  datatype TokenData =
    | Identifier(name: string)
    | Keyword(keyword: Keyword)
    | Separator(separator: Separator)
    | Literal(literal: Literal)
    | Operator(operator: Operator)

  /** A token and the line and column the lexer stood at when it pushed it. */
  datatype Token = Token(line: nat, col: nat, data: TokenData)

  // The three closed enumerations render as their variant names (the derived `Debug`).

  function KeywordText(k: Keyword): (s: string)
    ensures KeywordNamed(s) == Some(k)
  {
    match k
    case Fn => "Fn"
    case If => "If"
    case Let => "Let"
    case For => "For"
  }

  function SeparatorText(p: Separator): (s: string)
    ensures SeparatorNamed(s) == Some(p)
  {
    match p
    case OpeningParen => "OpeningParen"
    case ClosingParen => "ClosingParen"
    case OpeningBlock => "OpeningBlock"
    case ClosingBlock => "ClosingBlock"
    case Semicolon => "Semicolon"
    case Comma => "Comma"
  }

  function OperatorText(o: Operator): (s: string)
    ensures OperatorNamed(s) == Some(o)
  {
    match o
    case Add => "Add"
    case Subtract => "Subtract"
    case Multiply => "Multiply"
    case Divide => "Divide"
  }

  function BoolText(b: bool): string {
    if b then "true" else "false"
  }

  /** A literal's payload: `true` or `false`, a string's text as it is,
      a number's decimal text with a `-` exactly when it is negative. */
  function LiteralText(l: Literal): (s: string)
    ensures l.Boolean? ==> s in ["true", "false"]
    ensures l.Int? ==> s != [] && (s[0] == '-' <==> l.i < 0)
    ensures l.Long? ==> s != [] && (s[0] == '-' <==> l.l < 0)
  {
    match l
    case Boolean(b) => BoolText(b)
    case String(s) => s
    case Int(i) => IntText(i as int)
    case Long(v) => IntText(v as int)
  }

  /** The category label and the payload, with no closing parenthesis;
      separators and operators carry the label of keywords. */
  function TokenDataText(d: TokenData): (s: string)
    ensures d.Identifier? ==> |s| >= 13 && s[..13] == "(Identifier, "
    ensures d.Literal? ==> |s| >= 10 && s[..10] == "(Literal, "
    ensures d.Keyword? || d.Separator? || d.Operator? ==> |s| >= 10 && s[..10] == "(Keyword, "
    ensures d.Literal? ==> s[10..] == LiteralText(d.literal)
    ensures d.Keyword? || d.Separator? || d.Operator? ==> NamedData(s[10..]) == Some(d)
  {
    match d
    case Identifier(name) => "(Identifier, " + name
    case Keyword(k) => "(Keyword, " + KeywordText(k)
    case Separator(s) => "(Keyword, " + SeparatorText(s)
    case Literal(l) => "(Literal, " + LiteralText(l)
    case Operator(o) => "(Keyword, " + OperatorText(o)
  }

  /** `<line> : <col> :: <data>`: starts with the line's digits and ends
      with the data's text. */
  function TokenText(t: Token): (s: string)
    ensures |s| > 0 && IsDigit(s[0])
    ensures |TokenDataText(t.data)| < |s| && s[|s| - |TokenDataText(t.data)|..] == TokenDataText(t.data)
  {
    NatText(t.line) + " : " + NatText(t.col) + " :: " + TokenDataText(t.data)
  }

  // Reading the variant names back: the partners of the three renderings above.

  function KeywordNamed(s: string): Option<Keyword> {
    if s == "Fn" then Some(Fn)
    else if s == "If" then Some(If)
    else if s == "Let" then Some(Let)
    else if s == "For" then Some(For)
    else None
  }

  function SeparatorNamed(s: string): Option<Separator> {
    if s == "OpeningParen" then Some(OpeningParen)
    else if s == "ClosingParen" then Some(ClosingParen)
    else if s == "OpeningBlock" then Some(OpeningBlock)
    else if s == "ClosingBlock" then Some(ClosingBlock)
    else if s == "Semicolon" then Some(Semicolon)
    else if s == "Comma" then Some(Comma)
    else None
  }

  function OperatorNamed(s: string): Option<Operator> {
    if s == "Add" then Some(Add)
    else if s == "Subtract" then Some(Subtract)
    else if s == "Multiply" then Some(Multiply)
    else if s == "Divide" then Some(Divide)
    else None
  }

  /** A keyword's text names that keyword and nothing else names one but the
      four variant names: there is no `Return` and no `Switch`. */
  lemma KeywordTextNames(k: Keyword, s: string)
    ensures KeywordNamed(s) == Some(k) <==> KeywordText(k) == s
    ensures KeywordNamed(s).Some? <==> s in ["Fn", "If", "Let", "For"]
  {
  }

  /** The same for the six separators: there is no `Dot`. */
  lemma SeparatorTextNames(p: Separator, s: string)
    ensures SeparatorNamed(s) == Some(p) <==> SeparatorText(p) == s
    ensures SeparatorNamed(s).Some? <==>
      s in ["OpeningParen", "ClosingParen", "OpeningBlock", "ClosingBlock", "Semicolon", "Comma"]
  {
  }

  /** The same for the four operators: there is no `Assignment`. */
  lemma OperatorTextNames(o: Operator, s: string)
    ensures OperatorNamed(s) == Some(o) <==> OperatorText(o) == s
    ensures OperatorNamed(s).Some? <==> s in ["Add", "Subtract", "Multiply", "Divide"]
  {
  }

  /** Within each enumeration distinct variants render differently. */
  lemma VariantTextsDistinct(k1: Keyword, k2: Keyword, p1: Separator, p2: Separator,
                             o1: Operator, o2: Operator)
    ensures KeywordText(k1) == KeywordText(k2) ==> k1 == k2
    ensures SeparatorText(p1) == SeparatorText(p2) ==> p1 == p2
    ensures OperatorText(o1) == OperatorText(o2) ==> o1 == o2
  {
    KeywordTextNames(k1, KeywordText(k2));
    SeparatorTextNames(p1, SeparatorText(p2));
    OperatorTextNames(o1, OperatorText(o2));
  }

  /** A boolean literal renders as `true` or `false`, a string literal as its
      text with no quotes around it, a number as its decimal text. */
  lemma LiteralTextReadsBack(l: Literal)
    ensures l.Boolean? ==> (LiteralText(l) == "true" <==> l.b)
    ensures l.Boolean? ==> LiteralText(l) in ["true", "false"]
    ensures l.String? ==> LiteralText(l) == l.s
    ensures l.Int? ==> ParseInt(LiteralText(l)) == Some(l.i as int)
    ensures l.Long? ==> ParseInt(LiteralText(l)) == Some(l.l as int)
  {
    match l
    case Int(i) => IntTextRoundTrip(i as int);
    case Long(v) => IntTextRoundTrip(v as int);
    case _ =>
  }

  /** The rendering does not tell a string literal from a boolean or a number
      with the same text. */
  lemma LiteralTextAmbiguous(l: Literal)
    requires !l.String?
    ensures TokenDataText(Literal(String(LiteralText(l)))) == TokenDataText(Literal(l))
  {
  }

  /** Separators and operators are shown under the keyword label, never under
      a label of their own. */
  lemma SeparatorAndOperatorShownAsKeyword(d: TokenData)
    requires d.Separator? || d.Operator?
    ensures "(Keyword, " <= TokenDataText(d)
    ensures !("(Separator, " <= TokenDataText(d)) && !("(Operator, " <= TokenDataText(d))
  {
    assert TokenDataText(d)[1] == 'K';
  }

  /** The rendered identifier is its name after the label, with nothing
      after it: no closing parenthesis. */
  lemma IdentifierTextUnclosed(name: string)
    ensures "(Identifier, " <= TokenDataText(Identifier(name))
    ensures TokenDataText(Identifier(name))[|"(Identifier, "|..] == name
    ensures name == [] || name[|name| - 1] != ')' ==>
      TokenDataText(Identifier(name))[|TokenDataText(Identifier(name))| - 1] != ')'
  {
  }

  /** The variant name shown after the label of a keyword, separator or operator. */
  function NameOf(d: TokenData): string
    requires d.Keyword? || d.Separator? || d.Operator?
  {
    match d
    case Keyword(k) => KeywordText(k)
    case Separator(p) => SeparatorText(p)
    case Operator(o) => OperatorText(o)
  }

  /** The keyword, separator or operator a variant name stands for. */
  function NamedData(s: string): Option<TokenData> {
    match KeywordNamed(s)
    case Some(k) => Some(Keyword(k))
    case None =>
      match SeparatorNamed(s)
      case Some(p) => Some(Separator(p))
      case None =>
        match OperatorNamed(s)
        case Some(o) => Some(Operator(o))
        case None => None
  }

  /** No variant name is shared between the three enumerations. */
  lemma NamedDataOfName(d: TokenData)
    requires d.Keyword? || d.Separator? || d.Operator?
    ensures NamedData(NameOf(d)) == Some(d)
  {
    match d
    case Keyword(k) =>
    case Separator(p) => KeywordTextNames(Fn, SeparatorText(p));
    case Operator(o) =>
      KeywordTextNames(Fn, OperatorText(o));
      SeparatorTextNames(Comma, OperatorText(o));
  }

  /** Every token data but a literal can be read back from its rendering,
      even though three categories share the keyword label: the variant names
      of keywords, separators and operators are all different. */
  lemma NonLiteralTextInjective(d1: TokenData, d2: TokenData)
    requires !d1.Literal? && !d2.Literal?
    requires TokenDataText(d1) == TokenDataText(d2)
    ensures d1 == d2
  {
    var t := TokenDataText(d1);
    assert t[1] == 'I' <==> d1.Identifier?;
    assert t[1] == 'I' <==> d2.Identifier?;
    if d1.Identifier? {
      assert d1.name == t[|"(Identifier, "|..] == d2.name;
    } else {
      var prefix := "(Keyword, ";
      assert t == prefix + NameOf(d1) && t == prefix + NameOf(d2);
      assert NameOf(d1) == t[|prefix|..] == NameOf(d2);
      NamedDataOfName(d1);
      NamedDataOfName(d2);
    }
  }

  /** What a rendered token says: its line, its column and the text of its data. */
  datatype Header = Header(line: nat, col: nat, data: string)

  /** Reads the digits at the start of `s` and the separator `sep` after them:
      the number and what follows the separator. */
  function ReadNumber(s: string, sep: string): Option<(nat, string)> {
    var k := DigitPrefixLength(s);
    if k == 0 || !(sep <= s[k..]) then None
    else Some((DigitsValue(s[..k]), s[k + |sep|..]))
  }

  /** Reads `<line> : <col> :: <data>`: the partner of `TokenText`. */
  function ParseTokenText(s: string): Option<Header> {
    match ReadNumber(s, " : ")
    case None => None
    case Some((line, rest)) =>
      match ReadNumber(rest, " :: ")
      case None => None
      case Some((col, data)) => Some(Header(line, col, data))
  }

  /** A number's text followed by a separator starting with a space reads
      back as that number, and leaves what follows the separator. */
  lemma ReadNumberBack(n: nat, sep: string, tail: string)
    requires sep != [] && sep[0] == ' '
    ensures ReadNumber(NatText(n) + (sep + tail), sep) == Some((n, tail))
  {
    var s := NatText(n) + (sep + tail);
    DigitPrefixOfNatText(NatText(n), sep + tail);
    assert s[..|NatText(n)|] == NatText(n);
    assert s[|NatText(n)|..] == sep + tail;
    assert s[|NatText(n)| + |sep|..] == tail;
    NatTextValue(n);
  }

  /** `<line> : <col> :: <data>` reads back as that line, column and data,
      whatever the data's text is. */
  lemma HeaderRoundTrip(line: nat, col: nat, d: string)
    ensures ParseTokenText(NatText(line) + (" : " + (NatText(col) + (" :: " + d)))) == Some(Header(line, col, d))
  {
    ReadNumberBack(line, " : ", NatText(col) + (" :: " + d));
    ReadNumberBack(col, " :: ", d);
  }

  /** Regrouping the five pieces of a rendered token. */
  lemma Regroup(a: string, b: string, c: string, e: string, f: string)
    ensures a + b + c + e + f == a + (b + (c + (e + f)))
  {
  }

  /** A rendered token gives back its line, its column and its data's text. */
  lemma TokenTextRoundTrip(t: Token)
    ensures ParseTokenText(TokenText(t)) == Some(Header(t.line, t.col, TokenDataText(t.data)))
  {
    var d := TokenDataText(t.data);
    Regroup(NatText(t.line), " : ", NatText(t.col), " :: ", d);
    HeaderRoundTrip(t.line, t.col, d);
  }
}
