// What the tokenizer must return (get_next_token and TokenIterator::next in src/tokenizer.rs): the
// token at the front of the input, and all tokens of a run.

module Tokens {
  import opened Options
  import opened Lexing
  import RawString
  import StringLiteral

  datatype Token =
    | TText(t: string)             // a word or a symbol
    | TNumber(text: string)
    | TString(s: string)
    | TInterpolated(s: string)     // a text up to `${`
    | TChar(c: char)
    | TError
    | TEnd

  // A token, what ends the text the input is still inside of, and what comes after the token; or an
  // error, after which nothing is read.
  datatype Read = Read(token: Token, within: Option<string>, rest: string) | Faulty

  // Token::is_next_unary
  predicate IsNextUnary(token: Token) {
    token.TError? ||
    (token.TText? && token.t in {
      ";", ":", ",", "??", "..", "..=", "{", "(", "[", "+", "+=", "-", "-=", "*", "*=", "/", "/=", "%", "%=", "**",
      "**=", "<<", "<<=", ">>", ">>=", "=", "==", "!=", "<", ">", "!", "<=", ">=", "|", "&", "if", "while", "until",
      "in", "!in", "&&", "&=", "||", "|=", "^", "^=", "return", "throw", "?["})
  }

  // ---- strings and characters ----

  function FromText(quote: string, outcome: StringLiteral.Outcome): Read {
    match outcome
    case Closed(text, rest) => Read(TString(text), None, rest)
    case Interpolated(text, rest) => Read(TInterpolated(text), None, rest)
    case Open(text) => Read(TString(text), Some(quote), [])
    case _ => Faulty
  }

  function FromRaw(hashes: nat, scan: RawString.Scan): Read {
    Read(TString(scan.text), if scan.closed then None else Some(RawString.Hashes(hashes)), scan.rest)
  }

  function CharConfig(column: nat): StringLiteral.Config {
    StringLiteral.Config('\'', false, false, false, column)
  }

  function ReadChar(column: nat, s: string): Read {
    if StringLiteral.Starts(s, '\'') then Faulty
    else
      match StringLiteral.Scan(CharConfig(column), s, false, "", column, 0)
      case Closed(text, rest) => if |text| == 1 then Read(TChar(text[0]), None, rest) else Faulty
      case _ => Faulty
  }

  // After the opening quote.
  function ReadLiteral(quote: char, column: nat, s: string): Read {
    if quote == '\'' then ReadChar(column, s)
    else if quote == '`' then FromText("`", StringLiteral.ReadTick(s, column))
    else FromText("\"", StringLiteral.Scan(StringLiteral.DoubleQuoted(column), s, false, "", column, 0))
  }

  // After the first hash of a raw string.
  function ReadRaw(s: string): Read {
    match RawString.RawLiteral(s)
    case Unexpected => Faulty
    case Text(scan) => FromRaw(RawString.CountHashes(s) + 1, scan)
  }

  function WithinConfig(quote: char, column: nat): StringLiteral.Config {
    StringLiteral.Config(quote, true, false, true, column)
  }

  // Inside a text that `end` ends.
  function ReadWithin(end: string, column: nat, s: string): Read
    requires end != []
  {
    if end[0] == '#' then FromRaw(|end|, RawString.Raw(s, |end|))
    else FromText(end, StringLiteral.Scan(WithinConfig(end[0], column), s, false, "", column, 0))
  }

  // ---- numbers ----

  predicate IsHexDigit(c: char) {
    IsDigit(c) || 'a' <= c <= 'f' || 'A' <= c <= 'F'
  }

  predicate IsRadixDigit(radix: nat, c: char) {
    if radix == 16 then IsHexDigit(c)
    else if radix == 8 then '0' <= c <= '7'
    else if radix == 2 then c == '0' || c == '1'
    else IsDigit(c)
  }

  predicate IsRadixMark(c: char) {
    c in {'x', 'o', 'b', 'X', 'O', 'B'}
  }

  function RadixOf(mark: char): nat {
    if mark == 'x' || mark == 'X' then 16 else if mark == 'o' || mark == 'O' then 8 else 2
  }

  datatype Digits = Digits(text: string, rest: string)

  // Digits at the front; separators among them are dropped.
  function TakeDigits(radix: nat, s: string): (d: Digits)
    ensures |d.rest| <= |s|
  {
    if s == [] then Digits([], s)
    else if s[0] == '_' then TakeDigits(radix, s[1..])
    else if IsRadixDigit(radix, s[0]) then
      var d := TakeDigits(radix, s[1..]);
      Digits([s[0]] + d.text, d.rest)
    else Digits([], s)
  }

  datatype Numeral = Numeral(text: string, radix: nat, rest: string)

  // What a period adds to a number, if it belongs to it: digits follow, or something that cannot
  // start a property name.
  function PeriodMark(s: string): (mark: Option<string>)
    ensures mark.Some? ==> mark.value != []
  {
    if |s| < 2 || s[0] != '.' then None
    else if IsDigit(s[1]) then Some(".")
    else if s[1] != '.' && !IsIdStart(s[1]) then Some(".0")
    else None
  }

  // What an exponent starts with: digits or a sign must follow the `e`.
  function ExponentMark(s: string): (mark: Option<string>)
    ensures mark.Some? ==> 1 <= |mark.value| <= |s|
  {
    if |s| < 2 || (s[0] != 'e' && s[0] != 'E') then None
    else if IsDigit(s[1]) then Some("e")
    else if s[1] == '+' || s[1] == '-' then Some("e" + [s[1]])
    else None
  }

  function WithExponent(text: string, s: string): (n: Numeral)
    ensures n.radix == 10 && |n.rest| <= |s| && |n.text| >= |text|
  {
    var mark := ExponentMark(s);
    if mark == None then Numeral(text, 10, s)
    else
      var d := TakeDigits(10, s[|mark.value|..]);
      Numeral(text + mark.value + d.text, 10, d.rest)
  }

  function WithFraction(text: string, s: string): (n: Numeral)
    ensures n.radix == 10 && |n.rest| <= |s| && |n.text| >= |text|
  {
    var mark := PeriodMark(s);
    if mark == None then WithExponent(text, s)
    else
      var d := TakeDigits(10, s[1..]);
      WithExponent(text + mark.value + d.text, d.rest)
  }

  // A number of which `text` has been read, up to its digits.
  function Whole(text: string, s: string): (n: Numeral)
    ensures |n.rest| <= |s| && |n.text| >= |text|
    ensures n.radix != 10 ==> text + TakeDigits(10, s).text == "0" && |n.text| >= 2 && IsRadixMark(n.text[1]) && n.radix == RadixOf(n.text[1])
  {
    var d := TakeDigits(10, s);
    var whole := text + d.text;
    if whole == "0" && d.rest != [] && IsRadixMark(d.rest[0]) then
      var h := TakeDigits(RadixOf(d.rest[0]), d.rest[1..]);
      Numeral(whole + [d.rest[0]] + h.text, RadixOf(d.rest[0]), h.rest)
    else WithFraction(whole, d.rest)
  }

  function RadixValue(radix: nat, text: string): nat {
    if text == [] then 0
    else
      var digit := StringLiteral.Digit(text[|text| - 1]);
      RadixValue(radix, text[..|text| - 1]) * radix + if digit.Some? then digit.value else 0
  }

  // from_str_radix on the unsigned integers of 64 bits.
  predicate ParsesInRadix(radix: nat, text: string) {
    text != [] && (forall c :: c in text ==> IsRadixDigit(radix, c)) && RadixValue(radix, text) < 0x1_0000_0000_0000_0000
  }

  // The text of a number is cut before it is parsed. A decimal fails to parse only if its exponent has
  // no digits; an integer of more than 64 bits is read as a float.
  predicate WellFormed(text: string, radix: nat) {
    if radix == 10 then text != [] && IsDigit(text[|text| - 1]) else |text| >= 2 && ParsesInRadix(radix, text[2..])
  }

  function Signed(negated: bool, text: string): string {
    if negated then "-" + text else text
  }

  function FromNumeral(negated: bool, n: Numeral): Read {
    var text := Signed(negated, n.text);
    if WellFormed(text, n.radix) then Read(TNumber(text), None, n.rest) else Faulty
  }

  function ReadNumber(negated: bool, s: string): Read
    requires s != []
  {
    FromNumeral(negated, Whole([s[0]], s[1..]))
  }

  // ---- a number, read from left to right ----

  // What becomes of a number of which `text` has been read.
  function NumberFrom(text: string, radix: nat, hasPeriod: bool, hasE: bool, s: string): Numeral {
    var d := TakeDigits(radix, s);
    if radix != 10 || hasE then Numeral(text + d.text, radix, d.rest)
    else if hasPeriod then WithExponent(text + d.text, d.rest)
    else Whole(text, s)
  }

  lemma WholeNumber(text: string, s: string)
    ensures NumberFrom(text, 10, false, false, s) == Whole(text, s)
  {}

  lemma SeparatorStep(text: string, radix: nat, hasPeriod: bool, hasE: bool, s: string)
    requires s != [] && s[0] == '_'
    ensures NumberFrom(text, radix, hasPeriod, hasE, s) == NumberFrom(text, radix, hasPeriod, hasE, s[1..])
  {}

  lemma DigitStep(text: string, radix: nat, hasPeriod: bool, hasE: bool, s: string)
    requires s != [] && s[0] != '_' && IsRadixDigit(radix, s[0])
    ensures NumberFrom(text, radix, hasPeriod, hasE, s) == NumberFrom(text + [s[0]], radix, hasPeriod, hasE, s[1..])
  {
    hide WithExponent, WithFraction, IsRadixMark;
    var d := TakeDigits(radix, s[1..]);
    assert text + ([s[0]] + d.text) == (text + [s[0]]) + d.text;
  }

  lemma PeriodStep(text: string, s: string)
    requires s != [] && s[0] == '.'
    ensures var mark := PeriodMark(s);
      NumberFrom(text, 10, false, false, s)
      == if mark.Some? then NumberFrom(text + mark.value, 10, true, false, s[1..]) else Numeral(text, 10, s)
  {
    assert text + [] == text;
  }

  lemma ExponentStep(text: string, hasPeriod: bool, s: string)
    requires s != [] && (s[0] == 'e' || s[0] == 'E')
    ensures var mark := ExponentMark(s);
      NumberFrom(text, 10, hasPeriod, false, s)
      == if mark.Some? then NumberFrom(text + mark.value, 10, true, true, s[|mark.value|..]) else Numeral(text, 10, s)
  {
    assert text + [] == text;
  }

  lemma MarkStep(s: string)
    requires s != [] && IsRadixMark(s[0])
    ensures NumberFrom("0", 10, false, false, s) == NumberFrom("0" + [s[0]], RadixOf(s[0]), false, false, s[1..])
  {
    assert "0" + [] == "0";
  }

  // Nothing of the rest belongs to the number.
  lemma LastStep(text: string, radix: nat, hasPeriod: bool, hasE: bool, s: string)
    requires s != [] ==> s[0] != '_' && !IsRadixDigit(radix, s[0])
    requires s != [] && s[0] == '.' ==> hasPeriod || radix != 10
    requires s != [] && (s[0] == 'e' || s[0] == 'E') ==> hasE || radix != 10
    requires s != [] && IsRadixMark(s[0]) ==> text != "0" || radix != 10 || hasPeriod
    ensures NumberFrom(text, radix, hasPeriod, hasE, s) == Numeral(text, radix, s)
  {
    assert text + [] == text;
  }

  // The sign is written in front of the text before two characters are cut off as `0x`: a negated
  // hexadecimal, octal or binary number is always malformed.
  lemma NegatedRadix(s: string)
    requires s != [] && Whole([s[0]], s[1..]).radix != 10
    ensures ReadNumber(true, s) == Faulty
  {
    var n := Whole([s[0]], s[1..]);
    var cut := Signed(true, n.text)[2..];
    assert cut[0] == n.text[1] && cut[0] in cut;
  }

  // ---- one token ----

  function Here(s: string, n: nat): Read
    requires n <= |s|
  {
    Read(TText(s[..n]), None, s[n..])
  }

  // A hash that starts no map and no raw string.
  function ReadHash(s: string): Read
    requires s != []
  {
    if CharAt(s, 1) == '!' then Read(TText("#!"), None, s[1..])
    else if CharAt(s, 1) == ' ' then (if CharAt(s, 2) == '{' then Here(s, 3) else Read(TText("#"), None, s[2..]))
    else Here(s, 1)
  }

  // The token that starts with the first character; `blocked` says that a minus sign is no sign of a
  // number, because of the token before.
  function ReadHere(blocked: bool, column: nat, s: string): Read
    requires s != []
  {
    var c, cc := s[0], CharAt(s, 1);
    if IsIdStart(c) then Here(s, WordLength(s))
    else if IsDigit(c) then ReadNumber(false, s)
    else if c == '-' && IsDigit(cc) then (if blocked then Here(s, 1) else ReadNumber(true, s[1..]))
    else if c == '"' || c == '`' || c == '\'' then ReadLiteral(c, column, s[1..])
    else if c == '#' && (cc == '"' || cc == '#') then ReadRaw(s[1..])
    else if c == '#' && cc != '{' then ReadHash(s)
    else if c == '#' || c in ONE then Here(s, SymbolLength(s))
    else Faulty
  }

  function ReadToken(blocked: bool, column: nat, s: string): Read
    decreases |s|
  {
    if s == [] then Read(TEnd, None, [])
    else if IsSpace(s[0]) then ReadToken(blocked, column, s[1..])
    else if s[0] == '/' && CharAt(s, 1) == '/' then ReadToken(blocked, column, AfterLine(s[2..]))
    else if s[0] == '/' && CharAt(s, 1) == '*' then ReadToken(blocked, column, AfterBlock(s[2..], 1))
    else ReadHere(blocked, column, s)
  }

  // Words, symbols and comments are read as `Lexing` says.
  lemma {:induction false} ReadsText(blocked: bool, column: nat, s: string)
    ensures NextText(s).End? ==> ReadToken(blocked, column, s) == Read(TEnd, None, [])
    ensures NextText(s).Text? ==> ReadToken(blocked, column, s) == Read(TText(NextText(s).t), None, NextText(s).rest)
    decreases |s|
  {
    hide ReadNumber, ReadLiteral, ReadRaw, SymbolLength, WordLength, AfterLine, AfterBlock;
    if s == [] {
    } else if IsSpace(s[0]) {
      ReadsText(blocked, column, s[1..]);
    } else if s[0] == '/' && CharAt(s, 1) == '/' {
      ReadsText(blocked, column, AfterLine(s[2..]));
    } else if s[0] == '/' && CharAt(s, 1) == '*' {
      ReadsText(blocked, column, AfterBlock(s[2..], 1));
    }
  }

  // A scanner that has returned `token`, in a text that `within` ends and before `rest`, has done `r`.
  predicate Gives(r: Read, token: Token, within: Option<string>, rest: string) {
    if r.Faulty? then token == TError else r == Read(token, within, rest)
  }

  // What the first characters decide.
  lemma ReadCases(blocked: bool, column: nat, s: string)
    ensures s == [] ==> ReadToken(blocked, column, s) == Read(TEnd, None, [])
    ensures s != [] && IsSpace(s[0]) ==> ReadToken(blocked, column, s) == ReadToken(blocked, column, s[1..])
    ensures s != [] && s[0] == '/' && CharAt(s, 1) == '/' ==> ReadToken(blocked, column, s) == ReadToken(blocked, column, AfterLine(s[2..]))
    ensures s != [] && s[0] == '/' && CharAt(s, 1) == '*' ==> ReadToken(blocked, column, s) == ReadToken(blocked, column, AfterBlock(s[2..], 1))
    ensures s != [] && !IsSpace(s[0]) && !(s[0] == '/' && (CharAt(s, 1) == '/' || CharAt(s, 1) == '*')) ==>
      ReadToken(blocked, column, s) == ReadHere(blocked, column, s)
  {
    hide ReadHere;
  }

  // ---- a whole run ----

  // A token that is not the last takes at least one character, errors are no tokens, and only the
  // text of a string can be open at the end of the input.
  predicate Proper(r: Read, s: string) {
    r.Read? ==>
      && (r.token != TEnd && r.within == None ==> |r.rest| < |s|)
      && r.token != TError
      && (r.within.Some? ==> r.token.TString?)
  }

  lemma RawProper(s: string)
    ensures Proper(ReadRaw(s), s)
  {}

  lemma WithinProper(end: string, column: nat, s: string)
    requires end != []
    ensures Proper(ReadWithin(end, column, s), s)
  {
    StringLiteral.ScanShorter(WithinConfig(end[0], column), s, false, "", column, 0);
  }

  lemma LiteralProper(quote: char, column: nat, s: string)
    ensures Proper(ReadLiteral(quote, column, s), s)
  {
    hide StringLiteral.Scan;
    StringLiteral.ScanShorter(CharConfig(column), s, false, "", column, 0);
    StringLiteral.ScanShorter(StringLiteral.DoubleQuoted(column), s, false, "", column, 0);
    StringLiteral.ScanShorter(StringLiteral.BackTick(column), StringLiteral.SkipLineEnd(s), false, "", column, 0);
  }

  lemma HereProper(blocked: bool, column: nat, s: string)
    requires s != []
    ensures Proper(ReadHere(blocked, column, s), s)
  {
    hide ReadNumber, ReadLiteral, ReadRaw;
    LiteralProper(s[0], column, s[1..]);
    RawProper(s[1..]);
    NumberProper(false, s);
    if |s| > 1 { NumberProper(true, s[1..]); }
  }

  lemma NumberProper(negated: bool, s: string)
    requires s != []
    ensures Proper(ReadNumber(negated, s), s)
  {}

  lemma {:induction false} TokenProper(blocked: bool, column: nat, s: string)
    ensures Proper(ReadToken(blocked, column, s), s)
    decreases |s|
  {
    hide ReadHere, AfterLine, AfterBlock;
    if s == [] {
    } else if IsSpace(s[0]) {
      TokenProper(blocked, column, s[1..]);
    } else if s[0] == '/' && CharAt(s, 1) == '/' {
      TokenProper(blocked, column, AfterLine(s[2..]));
    } else if s[0] == '/' && CharAt(s, 1) == '*' {
      TokenProper(blocked, column, AfterBlock(s[2..], 1));
    } else {
      HereProper(blocked, column, s);
    }
  }

  // The state between two tokens: whether back-tick text comes next, whether a minus sign is blocked,
  // and how many tokens there have been.
  datatype Turn = Turn(inText: bool, blocked: bool, count: nat)

  function NextRead(turn: Turn, columns: nat -> nat, s: string): Read {
    if turn.inText then ReadWithin("`", columns(turn.count), s) else ReadToken(turn.blocked, columns(turn.count), s)
  }

  // The parser asks for text after the `}` of an interpolation: `resumes` says after which tokens.
  function After(turn: Turn, token: Token, resumes: nat -> bool): Turn {
    Turn(token == TText("}") && resumes(turn.count), !IsNextUnary(token), turn.count + 1)
  }

  // All tokens up to the end or the first error; a text that is still open at the end is an error.
  function AllTokens(turn: Turn, resumes: nat -> bool, columns: nat -> nat, s: string): seq<Token>
    decreases |s|
  {
    var r := NextRead(turn, columns, s);
    if r.Faulty? || r.within.Some? then [TError]
    else if r.token == TEnd then []
    else
      NextProper(turn, columns, s);
      [r.token] + AllTokens(After(turn, r.token, resumes), resumes, columns, r.rest)
  }

  lemma NextProper(turn: Turn, columns: nat -> nat, s: string)
    ensures Proper(NextRead(turn, columns, s), s)
  {
    hide ReadToken, ReadWithin;
    TokenProper(turn.blocked, columns(turn.count), s);
    WithinProper("`", columns(turn.count), s);
  }

  lemma TokensStep(turn: Turn, resumes: nat -> bool, columns: nat -> nat, s: string)
    ensures var r := NextRead(turn, columns, s);
      if r.Faulty? || r.within.Some? then AllTokens(turn, resumes, columns, s) == [TError]
      else if r.token == TEnd then AllTokens(turn, resumes, columns, s) == []
      else
        && |r.rest| < |s| && r.token != TError
        && AllTokens(turn, resumes, columns, s)
           == [r.token] + AllTokens(After(turn, r.token, resumes), resumes, columns, r.rest)
  {
    hide NextRead, After;
    NextProper(turn, columns, s);
  }

  // No literal anywhere.
  predicate Plain(s: string)
    decreases |s|
  {
    match NextText(s)
    case End => true
    case Foreign => false
    case Text(_, rest) => Plain(rest)
  }

  function Texts(ts: seq<string>): seq<Token> {
    seq(|ts|, i requires 0 <= i < |ts| => TText(ts[i]))
  }

  // A script without literals is cut into the tokens of `Lexing`.
  lemma {:induction false} PlainTokens(turn: Turn, resumes: nat -> bool, columns: nat -> nat, s: string)
    requires Plain(s) && !turn.inText && forall n :: !resumes(n)
    ensures AllTokens(turn, resumes, columns, s) == Texts(Lex(s))
    decreases |s|
  {
    hide ReadToken, IsNextUnary, NextText;
    ReadsText(turn.blocked, columns(turn.count), s);
    if NextText(s).Text? {
      var token, rest := TText(NextText(s).t), NextText(s).rest;
      PlainTokens(After(turn, token, resumes), resumes, columns, rest);
      assert Texts(Lex(s)) == [token] + Texts(Lex(rest));
    }
  }
}
