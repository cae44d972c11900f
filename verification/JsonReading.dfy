// The tokens of the JSON reader are those of the tokenizer, filtered; what it reads is proper.

module JsonReading {
  import opened Options
  import opened Lexing
  import opened Json
  import opened JsonGrammar
  import Main = Tokens
  import N = Numerals

  // ---- the tokens are those of the tokenizer ----

  predicate AllDigits(s: string) {
    s != [] && forall c | c in s :: IsDigit(c)
  }

  // What the reader makes of a token: `{` opens a map, `null` is (), and what JSON has not is an error.
  function Filtered(t: Main.Token): Token {
    match t
    case TText(w) =>
      if w == "{" then MapStart else if w == "}" then RightBrace else if w == "[" then LeftBracket
      else if w == "]" then RightBracket else if w == "," then Comma else if w == ":" then Colon
      else if w == "null" then Unit else if w == "true" then True else if w == "false" then False else LexError
    case TNumber(text) =>
      if AllDigits(text) && ParseNat(text) <= MAX_INT then IntegerConstant(ParseNat(text))
      else if text != [] && text[0] == '-' && AllDigits(text[1..]) && 0 - ParseNat(text[1..]) >= MIN_INT
      then IntegerConstant(0 - ParseNat(text[1..]))
      else LexError
    case TString(text) => StringConstant(text)
    case _ => LexError
  }

  function FilteredAll(ts: seq<Main.Token>): seq<Token> {
    seq(|ts|, i requires 0 <= i < |ts| => Filtered(ts[i]))
  }

  datatype Head = Head(m: Main.Token, rest: string, unary: bool)

  // The token at the front, read by both.
  predicate IsHead(s: string, unary: bool, h: Head) {
    && Main.ReadToken(!unary, 0, s) == Main.Read(h.m, None, h.rest) && |h.rest| < |s|
    && h.m != Main.TEnd && h.unary == Main.IsNextUnary(h.m)
    && Tokens(s, unary) == [Filtered(h.m)] + Tokens(h.rest, h.unary)
  }

  lemma StringHead(s: string, unary: bool) returns (h: Head)
    requires s != [] && s[0] == '"' && LexError !in Tokens(s, unary)
    ensures IsHead(s, unary, h)
  {
    hide S.Scan;
    Main.ReadCases(!unary, 0, s);
    var o := S.Scan(S.DoubleQuoted(0), s[1..], false, "", 0, 0);
    h := Head(Main.TString(o.text), o.rest, false);
  }

  lemma {:induction false} WithoutDigits(s: string)
    requires forall c | c in s :: IsDigit(c)
    ensures N.Without(s) == s && N.Digital(10, s)
  {
    if s != [] {
      assert s[0] in s;
      N.RadixDigits(10, s[0]);
      assert forall c | c in s[1..] :: c in s;
      WithoutDigits(s[1..]);
      assert [s[0]] + s[1..] == s;
    }
    forall c | c in s
      ensures c in N.DigitsOf(10)
    {
      N.RadixDigits(10, c);
    }
  }

  lemma NoDigit(c: char)
    requires !IsIdContinue(c)
    ensures c != '_' && c !in N.DigitsOf(10) && c != 'e' && c != 'E' && !Main.IsRadixMark(c)
  {
    N.RadixDigits(10, c);
  }

  // Digits that nothing goes on with are a number of the tokenizer.
  lemma DigitsNumeral(s: string)
    requires s != [] && IsDigit(s[0]) && !NumberGoesOn(s[DigitsLength(s)..])
    ensures var n := DigitsLength(s);
      var w := N.Written(s[..n], None, None);
      && n > 0 && N.WellWritten(w) && N.Ends(w, s[n..]) && N.Spelled(w) == s[..n] && N.Meant(w) == s[..n]
      && AllDigits(s[..n])
  {
    hide N.DigitsOf, N.Digital, N.Without, IsIdContinue, IsIdStart;
    var n := DigitsLength(s);
    var digits, rest := s[..n], s[n..];
    WithoutDigits(digits);
    assert digits[0] == s[0];
    N.RadixDigits(10, s[0]);
    if rest != [] { NoDigit(rest[0]); }
    assert digits + ("" + "") == digits;
  }

  // The constant is the number that is written.
  lemma NumberFiltered(s: string, negative: bool)
    requires s != [] && IsDigit(s[0]) && Number(s, negative) != LexError
    ensures AllDigits(s[..DigitsLength(s)])
    ensures Filtered(Main.TNumber(Main.Signed(negative, s[..DigitsLength(s)]))) == Number(s, negative)
  {
    var text := s[..DigitsLength(s)];
    assert text[0] == s[0];
    hide ParseNat;
    if negative {
      assert ("-" + text)[1..] == text && ("-" + text)[0] == '-' && '-' in "-" + text;
    }
  }

  lemma NumberHead(s: string, unary: bool, negative: bool) returns (h: Head)
    requires negative ==> unary
    requires s != [] && IsDigit(s[0]) && LexError !in Tokens(Main.Signed(negative, s), unary)
    ensures IsHead(Main.Signed(negative, s), unary, h)
  {
    hide N.WellWritten, N.Ends, N.Spelled, N.Meant, ParseNat, Main.ReadToken, Tokens, Filtered, AllDigits, NumberGoesOn;
    var n := DigitsLength(s);
    NumberTaken(s, unary, negative);
    assert Number(s, negative) != LexError && !NumberGoesOn(s[n..]);
    hide Number;
    NumberFiltered(s, negative);
    DigitsNumeral(s);
    N.NumberHere(!unary, 0, negative, N.Written(s[..n], None, None), s[n..]);
    SignedSplit(negative, s, n);
    h := Head(Main.TNumber(Main.Signed(negative, s[..n])), s[n..], false);
  }

  lemma SignedSplit(negative: bool, s: string, n: nat)
    requires n <= |s|
    ensures Main.Signed(negative, s[..n]) + s[n..] == Main.Signed(negative, s) && |Main.Signed(negative, s)| >= |s|
  {
    assert s[..n] + s[n..] == s;
    var sign := if negative then "-" else "";
    assert sign + s[..n] + s[n..] == sign + (s[..n] + s[n..]) && "" + s == s && "" + s[..n] == s[..n];
  }

  lemma NumberTaken(s: string, unary: bool, negative: bool)
    requires (negative ==> unary) && s != [] && IsDigit(s[0])
    ensures var n, t := DigitsLength(s), Number(s, negative);
      Tokens(Main.Signed(negative, s), unary) == if t == LexError then [t] else [t] + Tokens(s[n..], false)
  {
    hide Number;
    var t := Main.Signed(negative, s);
    if negative { assert t[0] == '-' && t[1] == s[0] && t[1..] == s; }
  }

  lemma WordHead(s: string, unary: bool) returns (h: Head)
    requires s != [] && IsIdStart(s[0]) && LexError !in Tokens(s, unary)
    ensures IsHead(s, unary, h)
  {
    Main.ReadCases(!unary, 0, s);
    var w := s[..WordLength(s)];
    assert WordToken(w) != LexError;
    h := Head(Main.TText(w), s[WordLength(s)..], false);
  }

  predicate IsPunctuation(c: char) {
    c == '{' || c == '}' || c == '[' || c == ']' || c == ',' || c == ':'
  }

  lemma PunctuationStart(c: char)
    requires IsPunctuation(c)
    ensures c in ONE && !IsIdStart(c) && !IsDigit(c) && !IsSpace(c)
  {}

  lemma NoNotIn(s: string)
    requires s != [] && s[0] != '!'
    ensures !IsNotIn(s)
  {
    if |s| >= 3 { assert s[..3][0] == s[0]; }
  }

  lemma OneSymbol(s: string)
    requires s != [] && s[0] != '!' && !(|s| > 1 && Two(s[0], s[1]))
    ensures SymbolLength(s) == 1 && s[..1] == [s[0]]
  {
    hide Two, Three, IsNotIn;
    NoNotIn(s);
  }

  lemma SymbolRead(s: string, blocked: bool)
    requires s != [] && IsPunctuation(s[0]) && !(|s| > 1 && Two(s[0], s[1]))
    ensures Main.ReadToken(blocked, 0, s) == Main.Read(Main.TText([s[0]]), None, s[1..])
  {
    hide Two, SymbolLength, Main.ReadToken, Main.ReadNumber, Main.ReadLiteral, Main.ReadRaw, Main.ReadHash, ONE, IsIdStart,
      IsDigit, IsSpace;
    PunctuationStart(s[0]);
    OneSymbol(s);
    Main.ReadCases(blocked, 0, s);
  }

  lemma SymbolTaken(s: string, unary: bool)
    requires s != [] && !IsSpace(s[0]) && s[0] != '"' && !IsDigit(s[0]) && !IsIdStart(s[0]) && LexError !in Tokens(s, unary)
    requires !(s[0] == '-' && unary && |s| > 1 && IsDigit(s[1]))
    ensures IsPunctuation(s[0]) && !(|s| > 1 && Two(s[0], s[1]))
    ensures Tokens(s, unary) == [SymbolToken(s[0])] + Tokens(s[1..], s[0] in "{[,:")
  {
    hide Two, IsSpace, IsIdStart, IsDigit;
  }

  lemma PunctuationFiltered(c: char)
    requires IsPunctuation(c)
    ensures Filtered(Main.TText([c])) == SymbolToken(c) && Main.IsNextUnary(Main.TText([c])) == (c in "{[,:")
  {}

  lemma SymbolHead(s: string, unary: bool) returns (h: Head)
    requires s != [] && !IsSpace(s[0]) && s[0] != '"' && !IsDigit(s[0]) && !IsIdStart(s[0]) && LexError !in Tokens(s, unary)
    requires !(s[0] == '-' && unary && |s| > 1 && IsDigit(s[1]))
    ensures IsHead(s, unary, h)
  {
    hide Tokens, Main.ReadToken, Main.IsNextUnary, Filtered, SymbolToken, IsPunctuation, Two;
    SymbolTaken(s, unary);
    SymbolRead(s, !unary);
    PunctuationFiltered(s[0]);
    h := Head(Main.TText([s[0]]), s[1..], s[0] in "{[,:");
  }

  const NEVER: nat -> bool := n => false
  const MARGIN: nat -> nat := n => 0

  // A text that the reader takes to its end is cut into the tokens of the tokenizer, filtered.
  lemma {:induction false} SameTokens(s: string, unary: bool, count: nat)
    requires LexError !in Tokens(s, unary)
    ensures Tokens(s, unary) == FilteredAll(Main.AllTokens(Main.Turn(false, !unary, count), NEVER, MARGIN, s))
    decreases |s|
  {
    var turn := Main.Turn(false, !unary, count);
    Main.ReadCases(!unary, 0, s);
    Main.TokensStep(turn, NEVER, MARGIN, s);
    if s == [] {
    } else if IsSpace(s[0]) {
      SameTokens(s[1..], unary, count);
      Main.TokensStep(turn, NEVER, MARGIN, s[1..]);
    } else {
      var h;
      if s[0] == '"' { h := StringHead(s, unary); }
      else if IsDigit(s[0]) { h := NumberHead(s, unary, false); }
      else if s[0] == '-' && unary && |s| > 1 && IsDigit(s[1]) {
        assert Main.Signed(true, s[1..]) == s;
        h := NumberHead(s[1..], unary, true);
      }
      else if IsIdStart(s[0]) { h := WordHead(s, unary); }
      else { h := SymbolHead(s, unary); }
      SameTail(s, unary, count, h);
    }
  }

  lemma {:induction false} SameTail(s: string, unary: bool, count: nat, h: Head)
    requires IsHead(s, unary, h) && LexError !in Tokens(s, unary)
    ensures Tokens(s, unary) == FilteredAll(Main.AllTokens(Main.Turn(false, !unary, count), NEVER, MARGIN, s))
    decreases |s|, 0
  {
    hide Tokens, Main.ReadToken, Main.AllTokens, Filtered, Main.IsNextUnary;
    assert forall t | t in Tokens(h.rest, h.unary) :: t in Tokens(s, unary);
    SameTokens(h.rest, h.unary, count + 1);
    Main.TokensStep(Main.Turn(false, !unary, count), NEVER, MARGIN, s);
  }

  // ---- the whole text ----

  lemma {:induction false} WrittenClean(t: Text)
    requires Sound(t)
    ensures LexError !in Written(t)
    decreases t
  {
    match t
    case Atom(_) =>
    case List(items, trailing) => ItemsClean(items, trailing);
    case Map(entries, trailing) => EntriesClean(entries, trailing);
  }

  lemma {:induction false} ItemsClean(items: seq<Text>, trailing: bool)
    requires forall i :: 0 <= i < |items| ==> Sound(items[i])
    ensures LexError !in WrittenItems(items, trailing)
    decreases items, 0
  {
    if items != [] {
      WrittenClean(items[0]);
      ItemsClean(items[1..], trailing);
    }
  }

  lemma {:induction false} EntriesClean(entries: seq<Entry>, trailing: bool)
    requires forall i :: 0 <= i < |entries| ==> Sound(entries[i].t)
    ensures LexError !in WrittenEntries(entries, trailing)
    decreases entries, 0
  {
    if entries != [] {
      WrittenClean(entries[0].t);
      EntriesClean(entries[1..], trailing);
    }
  }

  // A text that is read is, in the tokens of the tokenizer, a value of the grammar, and it is that value.
  lemma ReadsGrammar(text: string, v: Value) returns (t: Text)
    requires ParseValue(Tokens(text, true)) == Some((v, []))
    ensures Sound(t) && Meaning(t) == v
    ensures Written(t) == FilteredAll(Main.AllTokens(Main.Turn(false, false, 0), NEVER, MARGIN, text))
  {
    hide Tokens, ParseValue, Sound, Meaning, Written;
    t := ValueSound(Tokens(text, true));
    assert Written(t) + [] == Written(t);
    WrittenClean(t);
    SameTokens(text, true, 0);
  }

  // ---- what is read is proper ----

  lemma {:induction false} MeaningProper(t: Text)
    requires Sound(t) && forall tok | tok in Written(t) :: tok.IntegerConstant? ==> MIN_INT <= tok.n <= MAX_INT
    ensures Proper(Meaning(t))
    decreases t
  {
    match t
    case Atom(tok) => assert tok in Written(t);
    case List(items, trailing) =>
      forall i | 0 <= i < |items|
        ensures Proper(Meaning(items[i]))
      {
        ItemWithin(items, trailing, i);
        MeaningProper(items[i]);
      }
    case Map(entries, trailing) =>
      forall i | 0 <= i < |entries|
        ensures Proper(Meaning(entries[i].t))
      {
        EntryWithin(entries, trailing, i);
        MeaningProper(entries[i].t);
      }
  }

  lemma {:induction false} ItemWithin(items: seq<Text>, trailing: bool, i: nat)
    requires i < |items|
    ensures forall tok | tok in Written(items[i]) :: tok in WrittenItems(items, trailing)
    decreases i
  {
    hide Written;
    if i > 0 { ItemWithin(items[1..], trailing, i - 1); }
  }

  lemma {:induction false} EntryWithin(entries: seq<Entry>, trailing: bool, i: nat)
    requires i < |entries|
    ensures forall tok | tok in Written(entries[i].t) :: tok in WrittenEntries(entries, trailing)
    decreases i
  {
    hide Written;
    if i > 0 { EntryWithin(entries[1..], trailing, i - 1); }
  }

  // Every value that is read has integers of 64 bits and no key twice.
  lemma ReadProper(text: string, v: Value)
    requires ParseValue(Tokens(text, true)) == Some((v, []))
    ensures Proper(v)
  {
    hide Tokens, ParseValue, Sound, Meaning, Written, Main.AllTokens;
    var t := ReadsGrammar(text, v);
    MeaningProper(t);
  }
}
