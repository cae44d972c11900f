// Words, symbols and comments (get_next_token_inner in src/tokenizer.rs): how a script is cut up.

module Lexing {
  predicate IsIdStart(c: char) {
    'a' <= c <= 'z' || 'A' <= c <= 'Z' || c == '_'
  }

  predicate IsDigit(c: char) {
    '0' <= c <= '9'
  }

  predicate IsIdContinue(c: char) {
    IsIdStart(c) || IsDigit(c)
  }

  predicate IsSpace(c: char) {
    c == ' ' || c == '\t' || c == '\r' || c == '\n' || c == '\U{000C}'
  }

  // Symbols of one character.
  const ONE: string := "{}()[]+-*/;:,.=<>!|&^%?~@$"

  // Two characters that the tokenizer takes together, other than the start of a comment.
  predicate Two(a: char, b: char) {
    match a
    case '(' => b == ')' || b == '*'
    case '#' => b == '{'
    case '+' => b == '=' || b == '+'
    case '-' => b == '=' || b == '>' || b == '-'
    case '*' => b == ')' || b == '=' || b == '*'
    case '/' => b == '='
    case '.' => b == '.'
    case '=' => b == '=' || b == '>'
    case ':' => b == ':' || b == '=' || b == ';'
    case '<' => b == '=' || b == '-' || b == '<' || b == '|'
    case '>' => b == '=' || b == '>'
    case '!' => b == '=' || b == '.'
    case '|' => b == '|' || b == '=' || b == '>'
    case '&' => b == '&' || b == '='
    case '^' => b == '='
    case '%' => b == '='
    case '?' => b == '.' || b == '?' || b == '['
    case _ => false
  }

  // A third character that is taken with them.
  predicate Three(a: char, b: char, c: char) {
    (a == '.' && b == '.' && (c == '=' || c == '.')) ||
    (a == '=' && b == '=' && c == '=') || (a == '!' && b == '=' && c == '=') ||
    (a == ':' && b == ':' && c == '<') ||
    (a == '<' && b == '<' && c == '=') || (a == '>' && b == '>' && c == '=') || (a == '*' && b == '*' && c == '=')
  }

  function CharAt(s: string, i: nat): char {
    if i < |s| then s[i] else '\0'
  }

  predicate IsNotIn(s: string) {
    |s| >= 3 && s[..3] == "!in" && !IsIdContinue(CharAt(s, 3))
  }

  // Length of the symbol at the front.
  function SymbolLength(s: string): (n: nat)
    requires s != []
    ensures 1 <= n <= |s|
  {
    if |s| >= 2 && Two(s[0], s[1]) then (if |s| >= 3 && Three(s[0], s[1], s[2]) then 3 else 2)
    else if IsNotIn(s) then 3
    else 1
  }

  function WordLength(s: string): (n: nat)
    ensures n <= |s|
    ensures forall i | 0 <= i < n :: IsIdContinue(s[i])
    ensures n < |s| ==> !IsIdContinue(s[n])
  {
    if s == [] || !IsIdContinue(s[0]) then 0 else 1 + WordLength(s[1..])
  }

  lemma {:induction false} WordIs(a: string, s: string)
    requires (forall c | c in a :: IsIdContinue(c)) && (s == [] || !IsIdContinue(s[0]))
    ensures WordLength(a + s) == |a|
  {
    if a == [] {
      assert a + s == s;
    } else {
      assert a[0] in a && (a + s)[0] == a[0] && (a + s)[1..] == a[1..] + s;
      WordIs(a[1..], s);
    }
  }

  // What follows a line comment.
  function AfterLine(s: string): (r: string)
    ensures |r| <= |s|
  {
    if s == [] then []
    else if s[0] == '\r' then (if CharAt(s, 1) == '\n' then s[2..] else s[1..])
    else if s[0] == '\n' then s[1..]
    else AfterLine(s[1..])
  }

  // What follows a block comment; block comments nest.
  function AfterBlock(s: string, level: nat): (r: string)
    ensures |r| <= |s|
  {
    if level == 0 || s == [] then s
    else if s[0] == '/' && CharAt(s, 1) == '*' then AfterBlock(s[2..], level + 1)
    else if s[0] == '*' && CharAt(s, 1) == '/' then AfterBlock(s[2..], level - 1)
    else AfterBlock(s[1..], level)
  }

  // `Foreign`: the start of a literal, or a character that starts nothing.
  datatype Next = End | Foreign | Text(t: string, rest: string)

  predicate IsForeign(s: string)
    requires s != []
  {
    !IsIdStart(s[0]) &&
    !(s[0] in ONE && !(s[0] == '-' && IsDigit(CharAt(s, 1)))) &&
    !(s[0] == '#' && CharAt(s, 1) == '{')
  }

  function NextText(s: string): (r: Next)
    ensures r.Text? ==> |r.rest| < |s|
    decreases |s|
  {
    if s == [] then End
    else if IsSpace(s[0]) then NextText(s[1..])
    else if s[0] == '/' && CharAt(s, 1) == '/' then NextText(AfterLine(s[2..]))
    else if s[0] == '/' && CharAt(s, 1) == '*' then NextText(AfterBlock(s[2..], 1))
    else if IsForeign(s) then Foreign
    else
      var n := if IsIdStart(s[0]) then WordLength(s) else SymbolLength(s);
      Text(s[..n], s[n..])
  }

  // The texts of all tokens, up to the first literal.
  function Lex(s: string): seq<string>
    decreases |s|
  {
    match NextText(s)
    case Text(t, rest) => [t] + Lex(rest)
    case _ => []
  }
}
