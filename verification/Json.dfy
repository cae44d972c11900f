// JSON (src/api/json.rs): what `format_map_as_json` writes, the tokenizer and the parser read back.

module Json {
  import opened Options
  import opened Lexing
  import S = StringLiteral

  // The values of JSON.  The fields of a map stand in key order.
  datatype Value =
    | Null
    | Bool(b: bool)
    | Int(n: int)
    | Str(s: string)
    | Arr(items: seq<Value>)
    | Obj(fields: seq<Field>)
  datatype Field = Field(key: string, v: Value)

  const MIN_INT: int := -0x8000_0000_0000_0000
  const MAX_INT: int := 0x7fff_ffff_ffff_ffff

  // Integers have 64 bits, and no key stands twice.
  predicate Proper(v: Value) {
    match v
    case Int(n) => MIN_INT <= n <= MAX_INT
    case Arr(items) => forall x | x in items :: Proper(x)
    case Obj(fields) =>
      (forall f | f in fields :: ProperField(f)) &&
      forall i, j | 0 <= i < j < |fields| :: fields[i].key != fields[j].key
    case _ => true
  }

  predicate ProperField(f: Field) {
    Proper(f.v)
  }

  // ---- writing ----

  function DigitChar(d: nat): char
    requires d < 10
  {
    ('0' as int + d) as char
  }

  function PrintNat(n: nat): string {
    if n < 10 then [DigitChar(n)] else PrintNat(n / 10) + [DigitChar(n % 10)]
  }

  function PrintInt(n: int): string {
    if n < 0 then "-" + PrintNat(-n) else PrintNat(n)
  }

  function HexChar(d: nat): char
    requires d < 16
  {
    if d < 10 then ('0' as int + d) as char else ('a' as int + d - 10) as char
  }

  function PrintHex(n: nat): string {
    if n < 16 then [HexChar(n)] else PrintHex(n / 16) + [HexChar(n % 16)]
  }

  // Rust's debug form of a character inside a string.  `shown` tells which characters other than the
  // ones with an escape of their own are written as they are.
  function DebugChar(shown: char -> bool, c: char): string {
    if c == '"' || c == '\\' || c == '\n' || c == '\r' || c == '\t' then S.Escaped(c)
    else if c == '\0' then "\\0"
    else if shown(c) then [c]
    else "\\u{" + PrintHex(c as int) + "}"
  }

  function DebugText(shown: char -> bool, s: string): string {
    if s == [] then [] else DebugChar(shown, s[0]) + DebugText(shown, s[1..])
  }

  function PrintStr(shown: char -> bool, s: string): string {
    ['"'] + DebugText(shown, s) + ['"']
  }

  function CommaIf(between: bool): string {
    if between then "," else ""
  }

  function Print(shown: char -> bool, v: Value): string
    decreases v
  {
    match v
    case Null => "null"
    case Bool(b) => if b then "true" else "false"
    case Int(n) => PrintInt(n)
    case Str(s) => PrintStr(shown, s)
    case Arr(items) => "[" + PrintItems(shown, items)
    case Obj(fields) => "{" + PrintFields(shown, fields)
  }

  // The items that are left, and the closing bracket.
  function PrintItems(shown: char -> bool, items: seq<Value>): string
    decreases items, 0
  {
    if items == [] then "]"
    else Print(shown, items[0]) + (CommaIf(|items| > 1) + PrintItems(shown, items[1..]))
  }

  function PrintField(shown: char -> bool, f: Field): string
    decreases f
  {
    PrintStr(shown, f.key) + (":" + Print(shown, f.v))
  }

  function PrintFields(shown: char -> bool, fields: seq<Field>): string
    decreases fields, 0
  {
    if fields == [] then "}"
    else PrintField(shown, fields[0]) + (CommaIf(|fields| > 1) + PrintFields(shown, fields[1..]))
  }

  // ---- the writer ----

  lemma ItemsStep(shown: char -> bool, items: seq<Value>, i: nat)
    requires i < |items|
    ensures PrintItems(shown, items[i..]) ==
      Print(shown, items[i]) + (CommaIf(i + 1 < |items|) + PrintItems(shown, items[i + 1..]))
  {
    assert items[i..][0] == items[i] && items[i..][1..] == items[i + 1..];
  }

  lemma FieldsStep(shown: char -> bool, fields: seq<Field>, i: nat)
    requires i < |fields|
    ensures PrintFields(shown, fields[i..]) ==
      PrintField(shown, fields[i]) + (CommaIf(i + 1 < |fields|) + PrintFields(shown, fields[i + 1..]))
  {
    assert fields[i..][0] == fields[i] && fields[i..][1..] == fields[i + 1..];
  }

  lemma Regroup(a: string, b: string, c: string, d: string, e: string)
    ensures a + b + (c + (d + e)) == (a + b + c) + d + e
  {
  }

  method FormatMapAsJson(shown: char -> bool, fields: seq<Field>) returns (result: string)
    ensures result == Print(shown, Obj(fields))
    decreases fields, 1
  {
    hide PrintFields, PrintField;
    result := "{";
    var i := 0;
    assert fields[0..] == fields;
    while i < |fields|
      invariant 0 <= i <= |fields| && (|result| > 1) == (i > 0)
      invariant result + CommaIf(0 < i < |fields|) + PrintFields(shown, fields[i..]) == Print(shown, Obj(fields))
    {
      FieldsStep(shown, fields, i);
      FieldNonempty(shown, fields[i]);
      Regroup(result, CommaIf(0 < i), PrintField(shown, fields[i]), CommaIf(i + 1 < |fields|), PrintFields(shown, fields[i + 1..]));
      if |result| > 1 { result := result + ","; }
      result := FormatField(shown, fields[i], result);
      i := i + 1;
    }
    PrintEnds(shown);
    assert fields[i..] == [];
    result := result + "}";
  }

  lemma PrintEnds(shown: char -> bool)
    ensures PrintFields(shown, []) == "}" && PrintItems(shown, []) == "]"
  {
  }

  lemma FieldNonempty(shown: char -> bool, f: Field)
    ensures |PrintField(shown, f)| >= 1
  {
  }

  method FormatField(shown: char -> bool, f: Field, before: string) returns (result: string)
    ensures result == before + PrintField(shown, f)
    decreases f
  {
    result := before + PrintStr(shown, f.key) + ":";
    result := FormatDynamicAsJson(shown, result, f.v);
  }

  method FormatArray(shown: char -> bool, before: string, items: seq<Value>) returns (result: string)
    ensures result == before + "[" + PrintItems(shown, items)
    decreases items, 1
  {
    hide PrintItems, Print;
    result := before + "[";
    var i := 0;
    assert items[0..] == items;
    while i < |items|
      invariant 0 <= i <= |items|
      invariant result + CommaIf(0 < i < |items|) + PrintItems(shown, items[i..]) == before + "[" + PrintItems(shown, items)
    {
      ItemsStep(shown, items, i);
      Regroup(result, CommaIf(0 < i), Print(shown, items[i]), CommaIf(i + 1 < |items|), PrintItems(shown, items[i + 1..]));
      if i > 0 { result := result + ","; }
      result := FormatDynamicAsJson(shown, result, items[i]);
      i := i + 1;
    }
    PrintEnds(shown);
    assert items[i..] == [];
    result := result + "]";
  }

  method FormatDynamicAsJson(shown: char -> bool, before: string, v: Value) returns (result: string)
    ensures result == before + Print(shown, v)
    decreases v
  {
    match v {
      case Null => result := before + "null";
      case Obj(fields) =>
        var text := FormatMapAsJson(shown, fields);
        result := before + text;
      case Arr(items) => result := FormatArray(shown, before, items);
      case Bool(b) => result := before + if b then "true" else "false";
      case Int(n) => result := before + PrintInt(n);
      case Str(s) => result := before + PrintStr(shown, s);
    }
  }

  // ---- tokens ----

  datatype Token =
    | MapStart | RightBrace | LeftBracket | RightBracket | Comma | Colon
    | Unit | True | False | IntegerConstant(n: int) | StringConstant(s: string) | LexError

  function DigitsLength(s: string): (n: nat)
    ensures n <= |s|
    ensures forall i | 0 <= i < n :: IsDigit(s[i])
    ensures n < |s| ==> !IsDigit(s[n])
  {
    if s == [] || !IsDigit(s[0]) then 0 else 1 + DigitsLength(s[1..])
  }

  function ParseNat(s: string): nat
    requires forall c | c in s :: IsDigit(c)
  {
    if s == [] then 0
    else
      var d := s[|s| - 1];
      assert IsDigit(d);
      ParseNat(s[..|s| - 1]) * 10 + (d as int - '0' as int)
  }

  // Whatever could go on with a number that is not written in digits only.
  predicate NumberGoesOn(s: string) {
    s != [] && (IsIdContinue(s[0]) || s[0] == '.')
  }

  function Number(s: string, negative: bool): Token {
    var n := DigitsLength(s);
    var v: int := ParseNat(s[..n]);
    if NumberGoesOn(s[n..]) then LexError
    else if negative then (if -v >= MIN_INT then IntegerConstant(-v) else LexError)
    else if v <= MAX_INT then IntegerConstant(v) else LexError
  }

  function WordToken(w: string): Token {
    if w == "null" then Unit else if w == "true" then True else if w == "false" then False else LexError
  }

  function SymbolToken(c: char): Token {
    if c == '{' then MapStart
    else if c == '}' then RightBrace
    else if c == '[' then LeftBracket
    else if c == ']' then RightBracket
    else if c == ',' then Comma
    else if c == ':' then Colon
    else LexError
  }

  // The tokens that the parser is given; `unary` says that a minus may belong to a number.  Nothing
  // follows an error.
  function Tokens(s: string, unary: bool): (ts: seq<Token>)
    decreases |s|
  {
    if s == [] then []
    else if IsSpace(s[0]) then Tokens(s[1..], unary)
    else if s[0] == '"' then
      match S.Scan(S.DoubleQuoted(0), s[1..], false, "", 0, 0)
      case Closed(text, rest) =>
        if |rest| < |s| then [StringConstant(text)] + Tokens(rest, false) else [LexError]
      case _ => [LexError]
    else if IsDigit(s[0]) then
      var n := DigitsLength(s);
      var t := Number(s, false);
      if t == LexError then [t] else [t] + Tokens(s[n..], false)
    else if s[0] == '-' && unary && |s| > 1 && IsDigit(s[1]) then
      var n := DigitsLength(s[1..]);
      var t := Number(s[1..], true);
      if t == LexError then [t] else [t] + Tokens(s[1..][n..], false)
    else if IsIdStart(s[0]) then
      var n := WordLength(s);
      var t := WordToken(s[..n]);
      if t == LexError then [t] else [t] + Tokens(s[n..], false)
    else if |s| > 1 && Two(s[0], s[1]) then [LexError]
    else
      var t := SymbolToken(s[0]);
      if t == LexError then [t] else [t] + Tokens(s[1..], t.MapStart? || t.LeftBracket? || t.Comma? || t.Colon?)
  }

  // ---- parsing ----

  type Parsed = Option<(Value, seq<Token>)>

  function ParseValue(ts: seq<Token>): (r: Parsed)
    ensures r.Some? ==> |r.value.1| < |ts|
    decreases |ts|, 1
  {
    if ts == [] then None
    else
      match ts[0]
      case Unit => Some((Null, ts[1..]))
      case True => Some((Bool(true), ts[1..]))
      case False => Some((Bool(false), ts[1..]))
      case IntegerConstant(n) => Some((Int(n), ts[1..]))
      case StringConstant(s) => Some((Str(s), ts[1..]))
      case LeftBracket => ParseItems(ts[1..], [])
      case MapStart => ParseFields(ts[1..], [])
      case _ => None
  }

  // parse_array_literal: at the head of its loop.
  function ParseItems(ts: seq<Token>, done: seq<Value>): (r: Parsed)
    ensures r.Some? ==> |r.value.1| < |ts|
    decreases |ts|, 2
  {
    if ts == [] then None
    else if ts[0].RightBracket? then Some((Arr(done), ts[1..]))
    else
      match ParseValue(ts)
      case None => None
      case Some((v, rest)) =>
        if rest == [] then None
        else if rest[0].Comma? then ParseItems(rest[1..], done + [v])
        else if rest[0].RightBracket? then ParseItems(rest, done + [v])
        else None
  }

  predicate HasKey(fields: seq<Field>, key: string) {
    exists i :: 0 <= i < |fields| && fields[i].key == key
  }

  // parse_map_literal: at the head of its loop.
  function ParseFields(ts: seq<Token>, done: seq<Field>): (r: Parsed)
    ensures r.Some? ==> |r.value.1| < |ts|
    decreases |ts|, 2
  {
    if ts == [] then None
    else if ts[0].RightBrace? then Some((Obj(done), ts[1..]))
    else if !ts[0].StringConstant? || HasKey(done, ts[0].s) || |ts| < 2 || !ts[1].Colon? then None
    else
      match ParseValue(ts[2..])
      case None => None
      case Some((v, rest)) =>
        if rest == [] then None
        else if rest[0].Comma? then ParseFields(rest[1..], done + [Field(ts[0].s, v)])
        else if rest[0].RightBrace? then ParseFields(rest, done + [Field(ts[0].s, v)])
        else None
  }

  // ---- the parser ----

  class Parser {
    var input: seq<Token>

    constructor (input: seq<Token>)
      ensures this.input == input
    {
      this.input := input;
    }

    method Next() returns (t: Option<Token>)
      modifies this
      ensures old(input) == [] ==> t == None && input == []
      ensures old(input) != [] ==> t == Some(old(input)[0]) && input == old(input)[1..]
    {
      if input == [] { return None; }
      t := Some(input[0]);
      input := input[1..];
    }

    method ParseExpr() returns (r: Option<Value>)
      modifies this
      ensures r.Some? <==> ParseValue(old(input)).Some?
      ensures r.Some? ==> ParseValue(old(input)) == Some((r.value, input))
      decreases |input|, 1
    {
      var t := Next();
      if t == None { return None; }
      match t.value {
        case Unit => r := Some(Null);
        case True => r := Some(Bool(true));
        case False => r := Some(Bool(false));
        case IntegerConstant(n) => r := Some(Int(n));
        case StringConstant(s) => r := Some(Str(s));
        case LeftBracket => r := ParseArrayLiteral();
        case MapStart => r := ParseMapLiteral();
        case _ => r := None;
      }
    }

    method ParseArrayLiteral() returns (r: Option<Value>)
      modifies this
      ensures r.Some? <==> ParseItems(old(input), []).Some?
      ensures r.Some? ==> ParseItems(old(input), []) == Some((r.value, input))
      decreases |input|, 2
    {
      var elements: seq<Value> := [];
      while true
        invariant |input| <= |old(input)|
        invariant ParseItems(input, elements) == ParseItems(old(input), [])
        decreases |input|
      {
        if input != [] && input[0].RightBracket? {
          input := input[1..];
          return Some(Arr(elements));
        }
        if input == [] { return None; }
        var v := ParseExpr();
        if v == None || input == [] { return None; }
        elements := elements + [v.value];
        if input[0].Comma? {
          input := input[1..];
        } else if !input[0].RightBracket? {
          return None;
        }
      }
    }

    method ParseMapLiteral() returns (r: Option<Value>)
      modifies this
      ensures r.Some? <==> ParseFields(old(input), []).Some?
      ensures r.Some? ==> ParseFields(old(input), []) == Some((r.value, input))
      decreases |input|, 2
    {
      var entries: seq<Field> := [];
      while true
        invariant |input| <= |old(input)|
        invariant ParseFields(input, entries) == ParseFields(old(input), [])
        decreases |input|
      {
        if input != [] && input[0].RightBrace? {
          input := input[1..];
          return Some(Obj(entries));
        }
        ghost var here := input;
        var name := Next();
        if name == None || !name.value.StringConstant? || HasKey(entries, name.value.s) { return None; }
        var colon := Next();
        if colon == None || !colon.value.Colon? { return None; }
        assert here[1..][1..] == here[2..];
        var v := ParseExpr();
        if v == None || input == [] { return None; }
        entries := entries + [Field(name.value.s, v.value)];
        if input[0].Comma? {
          input := input[1..];
        } else if !input[0].RightBrace? {
          return None;
        }
      }
    }
  }

  // ---- reading back: numbers ----

  lemma {:induction false} NatBack(n: nat)
    ensures forall c | c in PrintNat(n) :: IsDigit(c)
    ensures PrintNat(n) != [] && ParseNat(PrintNat(n)) == n
  {
    if n < 10 {
      assert PrintNat(n)[..0] == [];
    } else {
      NatBack(n / 10);
      var s, c := PrintNat(n / 10), DigitChar(n % 10);
      assert (s + [c])[..|s|] == s;
      assert IsDigit(c);
    }
  }

  lemma {:induction false} DigitsIs(s: string, rest: string)
    requires (forall c | c in s :: IsDigit(c)) && (rest == [] || !IsDigit(rest[0]))
    ensures DigitsLength(s + rest) == |s|
  {
    if s == [] {
      assert s + rest == rest;
    } else {
      assert s[0] in s && (s + rest)[0] == s[0] && (s + rest)[1..] == s[1..] + rest;
      DigitsIs(s[1..], rest);
    }
  }

  // What follows a value.
  predicate Stops(rest: string) {
    rest == [] || rest[0] == ',' || rest[0] == ']' || rest[0] == '}'
  }

  lemma NumberBack(n: nat, rest: string)
    requires Stops(rest)
    ensures PrintNat(n) != []
    ensures var s := PrintNat(n) + rest;
      IsDigit(s[0]) && DigitsLength(s) == |PrintNat(n)| && s[|PrintNat(n)|..] == rest &&
      Number(s, false) == (if n <= MAX_INT then IntegerConstant(n) else LexError) &&
      Number(s, true) == (if 0 - n >= MIN_INT then IntegerConstant(0 - n) else LexError)
  {
    NatBack(n);
    var d := PrintNat(n);
    assert d[0] in d;
    DigitsIs(d, rest);
    assert (d + rest)[..|d|] == d && (d + rest)[|d|..] == rest;
  }

  // A sign in front of a digit is part of the number.
  lemma SignedToken(t: string, d: nat, rest: string)
    requires t != [] && IsDigit(t[0]) && DigitsLength(t) == d && d <= |t| && t[d..] == rest
    requires Number(t, true) != LexError
    ensures Tokens(['-'] + t, true) == [Number(t, true)] + Tokens(rest, false)
  {
    hide Number, DigitsLength;
    var s := ['-'] + t;
    assert s[0] == '-' && s[1..] == t && s[1] == t[0];
  }

  lemma PlainToken(t: string, d: nat, rest: string)
    requires t != [] && IsDigit(t[0]) && DigitsLength(t) == d && d <= |t| && t[d..] == rest
    requires Number(t, false) != LexError
    ensures Tokens(t, true) == [Number(t, false)] + Tokens(rest, false)
  {
    hide Number, DigitsLength;
  }

  lemma IntBack(n: int, rest: string)
    requires MIN_INT <= n <= MAX_INT && Stops(rest)
    ensures Tokens(PrintInt(n) + rest, true) == [IntegerConstant(n)] + Tokens(rest, false)
  {
    hide Tokens, Number, DigitsLength, PrintNat, IsDigit, Stops;
    if n >= 0 {
      NumberBack(n, rest);
      PlainToken(PrintNat(n) + rest, |PrintNat(n)|, rest);
    } else {
      NumberBack(-n, rest);
      var t := PrintNat(-n) + rest;
      SignedToken(t, |PrintNat(-n)|, rest);
      assert PrintInt(n) + rest == ['-'] + t;
    }
  }

  // ---- reading back: words and symbols ----

  lemma WordBack(w: string, rest: string)
    requires w in {"null", "true", "false"} && Stops(rest)
    ensures Tokens(w + rest, true) == [WordToken(w)] + Tokens(rest, false)
  {
    WordIs(w, rest);
    assert (w + rest)[0] == w[0] && (w + rest)[..|w|] == w && (w + rest)[|w|..] == rest;
  }

  lemma SymbolBack(c: char, rest: string, unary: bool)
    requires c in "{}[],:" && (c == ':' ==> rest == [] || rest[0] !in ":=;")
    ensures Tokens([c] + rest, unary) == [SymbolToken(c)] + Tokens(rest, c in "{[,:")
  {
    var s := [c] + rest;
    assert s[0] == c && s[1..] == rest;
    assert |s| > 1 ==> !Two(s[0], s[1]);
  }

  // ---- reading back: strings ----

  // A character that Rust writes with an escape the tokenizer does not know.
  predicate Exotic(shown: char -> bool, c: char) {
    c == '\0' || (!shown(c) && c != '"' && c != '\\' && c != '\n' && c != '\r' && c != '\t')
  }

  predicate Readable(shown: char -> bool, s: string) {
    forall c | c in s :: !Exotic(shown, c)
  }

  lemma DebugSpells(shown: char -> bool, c: char)
    requires !Exotic(shown, c)
    ensures S.Spells(DebugChar(shown, c), c)
  {
  }

  lemma {:induction false} TextBack(shown: char -> bool, s: string, rest: string, acc: string, col: nat)
    requires !S.Starts(rest, '"')
    ensures var o := S.Scan(S.DoubleQuoted(0), DebugText(shown, s) + (['"'] + rest), false, acc, col, 0);
      if Readable(shown, s) then o == S.Closed(acc + s, rest) else o == S.Malformed
    decreases |s|
  {
    hide DebugChar, Exotic, S.Starts;
    var cfg, close := S.DoubleQuoted(0), ['"'] + rest;
    if s == [] {
      assert DebugText(shown, s) + close == close && close[1..] == rest;
      assert acc + s == acc;
    } else {
      var c, e, more := s[0], DebugChar(shown, s[0]), DebugText(shown, s[1..]) + close;
      assert DebugText(shown, s) + close == e + more;
      assert forall x :: x in s <==> x == c || x in s[1..];
      if Exotic(shown, c) {
        ExoticFails(shown, c, more, acc, col);
      } else {
        TextStart(shown, s[1..], rest);
        DebugSpells(shown, c);
        S.SpellingRead(cfg, e, c, more, acc, col);
        var col' :| S.Scan(cfg, e + more, false, acc, col, 0) == S.Scan(cfg, more, false, acc + [c], col', 0);
        TextBack(shown, s[1..], rest, acc + [c], col');
        assert acc + [c] + s[1..] == acc + s;
      }
    }
  }

  lemma TextStart(shown: char -> bool, s: string, rest: string)
    ensures !S.Starts(DebugText(shown, s) + (['"'] + rest), '\n')
  {
    if s != [] { assert (DebugText(shown, s) + (['"'] + rest))[0] == DebugChar(shown, s[0])[0]; }
  }

  lemma ExoticFails(shown: char -> bool, c: char, more: string, acc: string, col: nat)
    requires Exotic(shown, c)
    ensures S.Scan(S.DoubleQuoted(0), DebugChar(shown, c) + more, false, acc, col, 0) == S.Malformed
  {
    var cfg, e := S.DoubleQuoted(0), DebugChar(shown, c);
    var t := e + more;
    assert t[0] == '\\' && t[1..] == e[1..] + more;
    assert S.Scan(cfg, t, false, acc, col, 0) == S.Scan(cfg, t[1..], true, acc, col + 1, 0);
    if c == '\0' {
      assert t[1..][0] == '0';
      assert S.Scan(cfg, t[1..], true, acc, col + 1, 0) == S.Malformed;
    } else {
      assert t[1..][0] == 'u' && t[1..][1..][0] == '{';
      var u := t[1..][1..];
      if |u| >= 4 { assert u[..4][0] == '{' && u[..4][0] in u[..4]; }
      assert S.Scan(cfg, t[1..], true, acc, col + 1, 0) == S.Malformed;
    }
  }

  lemma StrBack(shown: char -> bool, s: string, rest: string, unary: bool)
    requires !S.Starts(rest, '"')
    ensures Tokens(PrintStr(shown, s) + rest, unary) ==
      if Readable(shown, s) then [StringConstant(s)] + Tokens(rest, false) else [LexError]
  {
    var t := PrintStr(shown, s) + rest;
    assert t[0] == '"' && t[1..] == DebugText(shown, s) + (['"'] + rest);
    TextBack(shown, s, rest, "", 0);
    assert "" + s == s;
  }

  // ---- reading back: values ----

  // All strings and keys in it can be read.
  predicate AllReadable(shown: char -> bool, v: Value) {
    match v
    case Str(s) => Readable(shown, s)
    case Arr(items) => forall x | x in items :: AllReadable(shown, x)
    case Obj(fields) => forall f | f in fields :: FieldReadable(shown, f)
    case _ => true
  }

  predicate FieldReadable(shown: char -> bool, f: Field) {
    Readable(shown, f.key) && AllReadable(shown, f.v)
  }

  // Reading a printed value gives it back, if and only if all its strings can be read.
  lemma {:induction false} ValueBack(shown: char -> bool, v: Value, rest: string)
    requires Proper(v) && Stops(rest)
    ensures ParseValue(Tokens(Print(shown, v) + rest, true)) ==
      if AllReadable(shown, v) then Some((v, Tokens(rest, false))) else None
    decreases v, 1
  {
    hide Tokens, PrintStr, PrintInt, PrintItems, PrintFields, ParseItems, ParseFields, Readable;
    match v
    case Null => WordBack("null", rest);
    case Bool(b) => WordBack(if b then "true" else "false", rest);
    case Int(n) => IntBack(n, rest);
    case Str(s) => StrBack(shown, s, rest, true);
    case Arr(items) =>
      assert Print(shown, v) + rest == ['['] + (PrintItems(shown, items) + rest);
      SymbolBack('[', PrintItems(shown, items) + rest, true);
      ItemsBack(shown, items, 0, rest, true);
      assert items[0..] == items && items[..0] == [];
    case Obj(fields) =>
      assert Print(shown, v) + rest == ['{'] + (PrintFields(shown, fields) + rest);
      SymbolBack('{', PrintFields(shown, fields) + rest, true);
      FieldsBack(shown, fields, 0, rest, true);
      assert fields[0..] == fields && fields[..0] == [];
  }

  lemma {:induction false} ItemsBack(shown: char -> bool, items: seq<Value>, i: nat, rest: string, unary: bool)
    requires i <= |items| && (forall x | x in items :: Proper(x)) && Stops(rest) && (i < |items| ==> unary)
    ensures ParseItems(Tokens(PrintItems(shown, items[i..]) + rest, unary), items[..i]) ==
      if forall j | i <= j < |items| :: AllReadable(shown, items[j])
      then Some((Arr(items), Tokens(rest, false))) else None
    decreases items, 0, |items| - i
  {
    hide Tokens, Print, AllReadable, ParseValue, Proper;
    if i == |items| {
      assert PrintItems(shown, items[i..]) + rest == [']'] + rest;
      SymbolBack(']', rest, unary);
      assert items[..i] == items;
    } else {
      ItemsStep(shown, items, i);
      var x, tail := items[i], PrintItems(shown, items[i + 1..]) + rest;
      var next := CommaIf(i + 1 < |items|) + tail;
      assert PrintItems(shown, items[i..]) + rest == Print(shown, x) + next;
      TailStops(shown, items, i + 1, rest);
      ValueBack(shown, x, next);
      ValueStart(shown, x, next);
      if i + 1 < |items| { SymbolBack(',', tail, false); }
      ItemsBack(shown, items, i + 1, rest, i + 1 < |items|);
      assert items[..i] + [x] == items[..i + 1];
      ItemsOne(shown, items, i, rest, next);
    }
  }

  lemma TailStops(shown: char -> bool, items: seq<Value>, i: nat, rest: string)
    requires i <= |items|
    ensures Stops(CommaIf(i < |items|) + (PrintItems(shown, items[i..]) + rest))
  {
    if i == |items| { assert items[i..] == []; }
  }

  // A printed value never starts with a closing bracket.
  lemma ValueStart(shown: char -> bool, v: Value, next: string)
    requires Proper(v) && Stops(next)
    ensures var ts := Tokens(Print(shown, v) + next, true);
      ts != [] && !ts[0].RightBracket? && !ts[0].RightBrace?
  {
    hide Tokens, PrintStr, PrintInt, PrintItems, PrintFields, Readable;
    match v
    case Null => WordBack("null", next);
    case Bool(b) => WordBack(if b then "true" else "false", next);
    case Int(n) => IntBack(n, next);
    case Str(s) => StrBack(shown, s, next, true);
    case Arr(items) =>
      assert Print(shown, v) + next == ['['] + (PrintItems(shown, items) + next);
      SymbolBack('[', PrintItems(shown, items) + next, true);
    case Obj(fields) =>
      assert Print(shown, v) + next == ['{'] + (PrintFields(shown, fields) + next);
      SymbolBack('{', PrintFields(shown, fields) + next, true);
  }

  // One round of the loop over the items.
  lemma ItemsOne(shown: char -> bool, items: seq<Value>, i: nat, rest: string, next: string)
    requires i < |items|
    requires next == CommaIf(i + 1 < |items|) + (PrintItems(shown, items[i + 1..]) + rest)
    requires var ts := Tokens(Print(shown, items[i]) + next, true);
      ts != [] && !ts[0].RightBracket? &&
      ParseValue(ts) == if AllReadable(shown, items[i]) then Some((items[i], Tokens(next, false))) else None
    requires i + 1 < |items| ==>
      Tokens(next, false) == [Comma] + Tokens(PrintItems(shown, items[i + 1..]) + rest, true)
    ensures ParseItems(Tokens(Print(shown, items[i]) + next, true), items[..i]) ==
      if AllReadable(shown, items[i])
      then ParseItems(Tokens(PrintItems(shown, items[i + 1..]) + rest, i + 1 < |items|), items[..i + 1]) else None
  {
    hide Tokens, Print, AllReadable, ParseValue;
    assert items[..i] + [items[i]] == items[..i + 1];
    if i + 1 == |items| {
      assert items[i + 1..] == [];
      assert next == [']'] + rest;
      assert PrintItems(shown, items[i + 1..]) + rest == [']'] + rest;
      SymbolBack(']', rest, false);
    }
  }

  // ---- reading back: fields ----

  lemma {:induction false} FieldsBack(shown: char -> bool, fields: seq<Field>, i: nat, rest: string, unary: bool)
    requires i <= |fields| && Proper(Obj(fields)) && Stops(rest) && (i < |fields| ==> unary)
    ensures ParseFields(Tokens(PrintFields(shown, fields[i..]) + rest, unary), fields[..i]) ==
      if forall j | i <= j < |fields| :: FieldReadable(shown, fields[j])
      then Some((Obj(fields), Tokens(rest, false))) else None
    decreases fields, 0, |fields| - i
  {
    hide *;
    if i == |fields| {
      FieldsEnd(shown, fields, rest, unary);
    } else {
      var tail := PrintFields(shown, fields[i + 1..]) + rest;
      var next := CommaIf(i + 1 < |fields|) + tail;
      FieldsText(shown, fields, i, rest);
      FieldsStops(shown, fields, i + 1, rest);
      FieldBack(shown, fields[i], next);
      if i + 1 < |fields| { CommaBack(tail); }
      FieldsBack(shown, fields, i + 1, rest, i + 1 < |fields|);
      FieldsOne(shown, fields, i, rest, next);
    }
  }

  lemma FieldsEnd(shown: char -> bool, fields: seq<Field>, rest: string, unary: bool)
    requires Stops(rest)
    ensures ParseFields(Tokens(PrintFields(shown, fields[|fields|..]) + rest, unary), fields[..|fields|])
         == Some((Obj(fields), Tokens(rest, false)))
  {
    hide Tokens;
    assert PrintFields(shown, fields[|fields|..]) + rest == ['}'] + rest;
    SymbolBack('}', rest, unary);
    assert fields[..|fields|] == fields;
  }

  lemma FieldsText(shown: char -> bool, fields: seq<Field>, i: nat, rest: string)
    requires i < |fields| && Proper(Obj(fields))
    ensures PrintFields(shown, fields[i..]) + rest
         == PrintField(shown, fields[i]) + (CommaIf(i + 1 < |fields|) + (PrintFields(shown, fields[i + 1..]) + rest))
    ensures ProperField(fields[i])
  {
    hide PrintField, PrintFields;
    FieldsStep(shown, fields, i);
  }

  lemma CommaBack(rest: string)
    ensures Tokens(CommaIf(true) + rest, false) == [Comma] + Tokens(rest, true)
    ensures CommaIf(false) + rest == rest
  {
    hide Tokens;
    SymbolBack(',', rest, false);
  }

  lemma FieldsStops(shown: char -> bool, fields: seq<Field>, i: nat, rest: string)
    requires i <= |fields|
    ensures Stops(CommaIf(i < |fields|) + (PrintFields(shown, fields[i..]) + rest))
  {
    if i == |fields| { assert fields[i..] == []; }
  }

  // What a printed field is read as.
  ghost predicate FieldRead(shown: char -> bool, f: Field, next: string) {
    var ts := Tokens(PrintField(shown, f) + next, true);
    if Readable(shown, f.key) then
      |ts| >= 2 && ts[0] == StringConstant(f.key) && ts[1] == Colon &&
      ParseValue(ts[2..]) == if AllReadable(shown, f.v) then Some((f.v, Tokens(next, false))) else None
    else ts == [LexError]
  }

  lemma PrintStart(shown: char -> bool, v: Value)
    ensures Print(shown, v) != [] && Print(shown, v)[0] !in ":=;"
  {
    match v
    case Int(n) =>
      NatBack(if n < 0 then -n else n);
      var d := PrintNat(if n < 0 then -n else n);
      assert d[0] in d;
    case _ =>
  }

  lemma {:induction false} FieldBack(shown: char -> bool, f: Field, next: string)
    requires ProperField(f) && Stops(next)
    ensures FieldRead(shown, f, next)
    decreases f
  {
    hide Tokens, Print, ParseValue, PrintStr, Readable, AllReadable;
    var value := Print(shown, f.v) + next;
    assert PrintField(shown, f) + next == PrintStr(shown, f.key) + ([':'] + value);
    StrBack(shown, f.key, [':'] + value, true);
    PrintStart(shown, f.v);
    SymbolBack(':', value, false);
    ValueBack(shown, f.v, next);
    var ts := Tokens(PrintField(shown, f) + next, true);
    if Readable(shown, f.key) {
      assert ts == [StringConstant(f.key)] + ([Colon] + Tokens(value, true));
      assert ts[2..] == Tokens(value, true);
    }
  }

  // One round of the loop over the fields.
  lemma FieldsOne(shown: char -> bool, fields: seq<Field>, i: nat, rest: string, next: string)
    requires i < |fields| && Proper(Obj(fields)) && FieldRead(shown, fields[i], next)
    requires next == CommaIf(i + 1 < |fields|) + (PrintFields(shown, fields[i + 1..]) + rest)
    requires i + 1 < |fields| ==>
      Tokens(next, false) == [Comma] + Tokens(PrintFields(shown, fields[i + 1..]) + rest, true)
    ensures ParseFields(Tokens(PrintField(shown, fields[i]) + next, true), fields[..i]) ==
      if FieldReadable(shown, fields[i])
      then ParseFields(Tokens(PrintFields(shown, fields[i + 1..]) + rest, i + 1 < |fields|), fields[..i + 1]) else None
  {
    hide Tokens, Print, AllReadable, ParseValue;
    var f := fields[i];
    assert fields[..i] + [f] == fields[..i + 1] && f == Field(f.key, f.v);
    assert !HasKey(fields[..i], f.key);
    if i + 1 == |fields| {
      assert fields[i + 1..] == [];
      assert next == ['}'] + rest;
      assert PrintFields(shown, fields[i + 1..]) + rest == ['}'] + rest;
      SymbolBack('}', rest, false);
    }
  }

  // ---- the whole text ----

  // parse_json with `has_null`: the whole text is one map.
  method ParseJson(text: string) returns (r: Option<Value>)
    ensures r.Some? ==> r.value.Obj? && ParseValue(Tokens(text, true)) == Some((r.value, []))
    ensures r == None ==> forall fields :: ParseValue(Tokens(text, true)) != Some((Obj(fields), []))
  {
    var parser := new Parser(Tokens(text, true));
    r := parser.ParseExpr();
    if r.Some? && (parser.input != [] || !r.value.Obj?) { r := None; }
  }

  // Writing a map and parsing the text gives the same map back, if and only if every character of
  // its strings and keys is written in a way the tokenizer knows.
  method RoundTrip(shown: char -> bool, fields: seq<Field>) returns (r: Option<Value>)
    requires Proper(Obj(fields))
    ensures r == if AllReadable(shown, Obj(fields)) then Some(Obj(fields)) else None
  {
    var text := FormatMapAsJson(shown, fields);
    r := ParseJson(text);
    ValueBack(shown, Obj(fields), "");
    assert text + "" == text;
  }
}
