// The alphabet, the symbols, the comments and the signs of the language as its tables and its
// documentation list them, against what the tokenizer does with one character after the other.

module Symbols {
  import opened Options
  import opened Lexing
  import opened Tokens
  import Compaction
  import Precedence
  import ExprParser
  import Numerals
  import Ast

  // ---- the alphabet ----

  lemma Lower(c: char)
    ensures 'a' <= c <= 'z' <==> c in "abcdefghijklmnopqrstuvwxyz"
  {
    if 'a' <= c <= 'z' {
      var k := c as int - 'a' as int;
      assert c == "abcdefghijklmnopqrstuvwxyz"[k];
    }
  }

  lemma Upper(c: char)
    ensures 'A' <= c <= 'Z' <==> c in "ABCDEFGHIJKLMNOPQRSTUVWXYZ"
  {
    if 'A' <= c <= 'Z' {
      var k := c as int - 'A' as int;
      assert c == "ABCDEFGHIJKLMNOPQRSTUVWXYZ"[k];
    }
  }

  lemma Alphabet(c: char)
    ensures IsIdStart(c) <==> c in "abcdefghijklmnopqrstuvwxyz" || c in "ABCDEFGHIJKLMNOPQRSTUVWXYZ" || c == '_'
    ensures IsIdContinue(c) <==> IsIdStart(c) || c in "0123456789"
  {
    Lower(c);
    Upper(c);
    Numerals.RadixDigits(10, c);
    hide IsDigit;
  }

  lemma Spaces(c: char)
    ensures IsSpace(c) <==> c in " \t\r\n\U{000C}"
  {}

  // ---- symbols ----

  // Every symbol of the two tables that starts without a hash.
  predicate Listed(t: string) {
    t in {
      "!", "$", "%", "&", "(", ")", "*", "+", ",", "-", ".", "/", ":", ";", "<", "=", ">", "?", "@", "[", "]", "^",
      "{", "|", "}", "~",
      "!.", "!=", "%=", "&&", "&=", "()", "(*", "*)", "**", "*=", "++", "+=", "--", "-=", "->", "..", "/=", "::", ":;",
      ":=", "<-", "<<", "<=", "<|", "==", "=>", ">=", ">>", "?.", "??", "?[", "^=", "|=", "|>", "||",
      "!==", "!in", "**=", "...", "..=", "::<", "<<=", "===", ">>="
    }
  }

  lemma One(a: char)
    ensures Listed([a]) <==> a in ONE
  {
    if a in ONE {
      assert ONE == "{}()[]+-*/" + ";:,.=<>!|&" + "^%?~@$";
      assert a in "{}()[]+-*/" || a in ";:,.=<>!|&" || a in "^%?~@$";
    }
    if Listed([a]) { assert [a][0] == a; }
  }

  lemma TwoListed(a: char, b: char)
    requires a != '#'
    ensures Listed([a, b]) <==> Two(a, b)
  {
    if Two(a, b) { assert [a, b] == [a] + [b]; }
    if Listed([a, b]) { assert [a, b][0] == a && [a, b][1] == b; }
  }

  lemma ThreeListed(a: char, b: char, c: char)
    requires a != '#'
    ensures Listed([a, b, c]) <==> (Two(a, b) && Three(a, b, c)) || [a, b, c] == "!in"
  {
    if Three(a, b, c) { assert [a, b, c] == [a] + [b] + [c]; }
    if Listed([a, b, c]) { assert [a, b, c][0] == a && [a, b, c][1] == b && [a, b, c][2] == c; }
  }

  lemma Length(t: string)
    requires Listed(t)
    ensures 1 <= |t| <= 3
  {}

  // The longest symbol at the front is taken; `!in` only if it is a whole word.
  lemma LongestSymbol(s: string)
    requires s != [] && s[0] in ONE
    ensures Listed(s[..SymbolLength(s)])
    ensures forall n | SymbolLength(s) < n <= |s| && Listed(s[..n]) :: s[..n] == "!in" && n < |s| && IsIdContinue(s[n])
  {
    hide ONE;
    NoHash(s[0]);
    assert s[..1] == [s[0]];
    One(s[0]);
    if |s| >= 2 {
      assert s[..2] == [s[0], s[1]];
      TwoListed(s[0], s[1]);
    }
    if |s| >= 3 {
      assert s[..3] == [s[0], s[1], s[2]];
      ThreeListed(s[0], s[1], s[2]);
      if s[..3] == "!in" { assert !Two('!', 'i') && s[0] == '!' && s[1] == 'i'; }
    }
    hide Listed, Two, Three;
    forall n | SymbolLength(s) < n <= |s| && Listed(s[..n])
      ensures s[..n] == "!in" && n < |s| && IsIdContinue(s[n])
    {
      Length(s[..n]);
    }
  }

  lemma NoHash(a: char)
    requires a in ONE
    ensures a != '#'
  {}

  // ---- comments ----

  // What stands in a block comment: characters and whole block comments.
  datatype Piece = Plain(c: char) | Inner(body: seq<Piece>)

  function Spelled(ps: seq<Piece>): string {
    if ps == [] then []
    else
      (match ps[0]
       case Plain(c) => [c]
       case Inner(body) => "/*" + (Spelled(body) + "*/")) + Spelled(ps[1..])
  }

  // No two characters open or close a comment by accident; `next` is the character after the pieces.
  predicate Clean(ps: seq<Piece>, next: char) {
    ps == [] ||
    (Clean(ps[1..], next) &&
     match ps[0]
     case Plain(c) =>
       var follows := if ps[1..] == [] then next else if ps[1].Plain? then ps[1].c else '/';
       !(c == '/' && follows == '*') && !(c == '*' && follows == '/')
     case Inner(body) => Clean(body, '*'))
  }

  lemma SpelledStart(ps: seq<Piece>)
    requires ps != []
    ensures Spelled(ps) != [] && Spelled(ps)[0] == if ps[0].Plain? then ps[0].c else '/'
  {}

  lemma Regrouped(a: string, b: string, c: string, d: string, e: string)
    ensures ((a + (b + c)) + d) + e == a + (b + (c + (d + e)))
  {
    assert (b + c) + d == b + (c + d);
  }

  // What follows the first piece.
  lemma Follows(ps: seq<Piece>, s: string)
    requires ps != [] && s != [] && Clean(ps, s[0])
    ensures Clean(ps[1..], s[0])
    ensures ps[0].Inner? ==> Clean(ps[0].body, '*')
    ensures ps[0].Plain? ==>
      var c, after := ps[0].c, Spelled(ps[1..]) + s;
      after != [] && !(c == '/' && after[0] == '*') && !(c == '*' && after[0] == '/')
  {
    if ps[1..] == [] {
      assert Spelled(ps[1..]) + s == s;
    } else {
      SpelledStart(ps[1..]);
    }
  }

  // A comment is left where it was entered, however deep comments are nested in it.
  lemma {:induction false} CommentSkipped(ps: seq<Piece>, level: nat, s: string)
    requires level > 0 && s != [] && Clean(ps, s[0])
    ensures AfterBlock(Spelled(ps) + s, level) == AfterBlock(s, level)
    decreases ps
  {
    hide AfterBlock, Clean;
    if ps == [] {
      assert Spelled(ps) + s == s;
    } else {
      var tail := Spelled(ps[1..]);
      Follows(ps, s);
      CommentSkipped(ps[1..], level, s);
      match ps[0]
      case Plain(c) =>
        assert ([c] + tail) + s == [c] + (tail + s);
        PlainSkipped(c, level, tail + s);
      case Inner(body) =>
        var inside := "*/" + (tail + s);
        assert Spelled(ps) == ("/*" + (Spelled(body) + "*/")) + tail;
        hide Spelled;
        CommentSkipped(body, level + 1, inside);
        EnterLeave(level, Spelled(body) + inside, tail + s);
        Regrouped("/*", Spelled(body), "*/", tail, s);
    }
  }

  lemma PlainSkipped(c: char, level: nat, s: string)
    requires level > 0 && s != [] && !(c == '/' && s[0] == '*') && !(c == '*' && s[0] == '/')
    ensures AfterBlock([c] + s, level) == AfterBlock(s, level)
  {
    assert ([c] + s)[1..] == s;
  }

  lemma EnterLeave(level: nat, inside: string, after: string)
    requires level > 0
    ensures AfterBlock("/*" + inside, level) == AfterBlock(inside, level + 1)
    ensures AfterBlock("*/" + after, level + 1) == AfterBlock(after, level)
  {
    assert ("/*" + inside)[2..] == inside && ("*/" + after)[2..] == after;
  }

  // A block comment is as good as nothing.
  lemma BlockComment(blocked: bool, column: nat, ps: seq<Piece>, s: string)
    requires Clean(ps, '*')
    ensures ReadToken(blocked, column, "/*" + (Spelled(ps) + ("*/" + s))) == ReadToken(blocked, column, s)
  {
    hide ReadToken, AfterBlock, Spelled;
    var inside := Spelled(ps) + ("*/" + s);
    var t := "/*" + inside;
    assert t[0] == '/' && t[1] == '*' && t[2..] == inside;
    ReadCases(blocked, column, t);
    CommentSkipped(ps, 1, "*/" + s);
    Leave(s);
  }

  lemma Leave(s: string)
    ensures AfterBlock("*/" + s, 1) == s
  {
    assert ("*/" + s)[2..] == s;
  }

  // So is a line comment, up to the end of the line.
  lemma LineComment(blocked: bool, column: nat, t: string, end: string, s: string)
    requires '\r' !in t && '\n' !in t
    requires end == "\n" || end == "\r\n" || (end == "\r" && (s == [] || s[0] != '\n')) || (end == "" && s == [])
    ensures ReadToken(blocked, column, "//" + (t + (end + s))) == ReadToken(blocked, column, s)
  {
    hide ReadToken;
    var line := t + (end + s);
    var all := "//" + line;
    assert all[0] == '/' && all[1] == '/' && all[2..] == line;
    ReadCases(blocked, column, all);
    LineSkipped(t, end, s);
  }

  lemma {:induction false} LineSkipped(t: string, end: string, s: string)
    requires '\r' !in t && '\n' !in t
    requires end == "\n" || end == "\r\n" || (end == "\r" && (s == [] || s[0] != '\n')) || (end == "" && s == [])
    ensures AfterLine(t + (end + s)) == s
  {
    var line := t + (end + s);
    if t == [] {
      assert line == end + s;
      if end == "\r\n" { assert line[2..] == s; } else if end != "" { assert line[1..] == s; }
    } else {
      assert t[0] in t && line[0] == t[0] && line[1..] == t[1..] + (end + s);
      LineSkipped(t[1..], end, s);
    }
  }

  // ---- signs ----

  // What an operand can follow: an operator, the start of a group, a separator, or a keyword.
  predicate Opens(t: string) {
    (exists op: Precedence.Op :: t == ExprParser.OpName(op)) ||
    t in {"(", "[", "{", "?[", ",", ";", ":", "=", "!", "if", "while", "until", "return", "throw"} ||
    t in {"+=", "-=", "*=", "/=", "%=", "**=", "<<=", ">>=", "&=", "|=", "^="}
  }

  // What ends an operand.
  predicate Closes(t: string) {
    t == ")" || t == "]" || t == "}" || t == "()" ||
    (Compaction.IsWord(t) && t !in {"if", "while", "until", "return", "throw", "in"})
  }

  lemma OperatorOpens(op: Precedence.Op)
    ensures IsNextUnary(TText(ExprParser.OpName(op)))
  {}

  lemma OpensSigns(t: string)
    requires Opens(t)
    ensures IsNextUnary(TText(t))
  {
    if op: Precedence.Op :| t == ExprParser.OpName(op) {
      OperatorOpens(op);
    }
  }

  lemma WordSigns(t: string)
    requires Compaction.IsWord(t) && IsNextUnary(TText(t))
    ensures t in {"if", "while", "until", "return", "throw", "in"}
  {
    assert IsIdStart(t[0]);
  }

  lemma ClosesSigns(t: string)
    requires Closes(t)
    ensures !IsNextUnary(TText(t))
  {
    hide Compaction.IsWord;
    if Compaction.IsWord(t) && IsNextUnary(TText(t)) { WordSigns(t); }
  }

  // After an operator or an opening token a minus sign before digits is the sign of the number; after
  // the end of an operand it is an operator.
  lemma SignTaken(turn: Turn, resumes: nat -> bool, columns: nat -> nat, t: Compaction.TokenText, w: Numerals.Written, rest: string)
    requires (Opens(t) || Closes(t)) && t != "}" && !turn.inText
    requires Numerals.WellWritten(w) && Numerals.Ends(w, rest)
    ensures AllTokens(turn, resumes, columns, t + (" -" + (Numerals.Spelled(w) + rest)))
         == (if Opens(t) then [TText(t), TNumber("-" + Numerals.Meant(w))]
             else [TText(t), TText("-"), TNumber(Numerals.Meant(w))])
            + AllTokens(Turn(false, true, turn.count + if Opens(t) then 2 else 3), resumes, columns, rest)
  {
    hide *;
    var number := Numerals.Spelled(w) + rest;
    var turn' := Turn(false, !IsNextUnary(TText(t)), turn.count + 1);
    SpaceApart(t, " -" + number);
    Numerals.TextThen(turn, resumes, columns, t, " -" + number);
    SpaceSkipped(turn', resumes, columns, "-" + number);
    assert " " + ("-" + number) == " -" + number;
    if Opens(t) {
      OpensSigns(t);
      Numerals.NumberThen(turn', resumes, columns, true, w, rest);
      Negative(Numerals.Spelled(w), rest);
      Negative(Numerals.Meant(w), rest);
    } else {
      ClosesSigns(t);
      MinusThen(turn', resumes, columns, w, rest);
      Numerals.NumberThen(Turn(false, false, turn.count + 2), resumes, columns, false, w, rest);
      Numerals.Unsigned(Numerals.Spelled(w));
      Numerals.Unsigned(Numerals.Meant(w));
    }
  }

  lemma Negative(text: string, rest: string)
    ensures Signed(true, text) == "-" + text && Signed(true, text) + rest == "-" + (text + rest)
  {}

  lemma SpaceSkipped(turn: Turn, resumes: nat -> bool, columns: nat -> nat, s: string)
    requires !turn.inText
    ensures AllTokens(turn, resumes, columns, " " + s) == AllTokens(turn, resumes, columns, s)
  {
    hide AllTokens, ReadToken;
    assert (" " + s)[0] == ' ' && (" " + s)[1..] == s;
    ReadCases(turn.blocked, columns(turn.count), " " + s);
    TokensStep(turn, resumes, columns, s);
    TokensStep(turn, resumes, columns, " " + s);
  }

  lemma MinusThen(turn: Turn, resumes: nat -> bool, columns: nat -> nat, w: Numerals.Written, rest: string)
    requires !turn.inText && turn.blocked && Numerals.WellWritten(w)
    ensures var number := Numerals.Spelled(w) + rest;
      AllTokens(turn, resumes, columns, "-" + number)
      == [TText("-")] + AllTokens(Turn(false, false, turn.count + 1), resumes, columns, number)
  {
    hide AllTokens, ReadToken, Numerals.Digital, Numerals.DigitsOf, Numerals.WellExponent, Numerals.FractionText,
      Numerals.ExponentText;
    var number := Numerals.Spelled(w) + rest;
    Numerals.RadixDigits(10, w.whole[0]);
    assert number[0] == w.whole[0] && ("-" + number)[0] == '-' && ("-" + number)[1] == number[0];
    assert ("-" + number)[..1] == "-" && ("-" + number)[1..] == number;
    ReadCases(true, columns(turn.count), "-" + number);
    TokensStep(turn, resumes, columns, "-" + number);
  }

  lemma SpaceApart(t: Compaction.TokenText, s: string)
    requires s != [] && s[0] == ' '
    ensures Compaction.Apart(t, s)
  {
    hide Compaction.IsToken;
    Compaction.NonEmpty(t);
    Compaction.SpaceApart(t[0], if |t| >= 2 then t[1] else ' ');
    assert t == "!" && |t + s| >= 3 ==> (t + s)[..3][1] == ' ';
  }

  // ---- assignment with an operator ----

  // The operators that compute: not the comparisons, the ranges and the tests of membership.
  predicate Computes(op: Precedence.Op) {
    op in {Precedence.OrOp, Precedence.XOr, Precedence.Pipe, Precedence.AndOp, Precedence.Ampersand, Precedence.DoubleQuestion,
           Precedence.Plus, Precedence.Minus, Precedence.Multiply, Precedence.Divide, Precedence.Modulo, Precedence.PowerOf,
           Precedence.LeftShift, Precedence.RightShift}
  }

  // An operator that computes has an assignment exactly if it is a symbol together with `=`.
  lemma OpAssignments(op: Precedence.Op)
    ensures Ast.HasOpAssignment(ExprParser.OpName(op)) <==> Computes(op) && Listed(ExprParser.OpName(op) + "=")
  {
    hide Listed;
    var name := ExprParser.OpName(op);
    if |name| == 1 {
      assert name + "=" == [name[0], '='];
      TwoListed(name[0], '=');
    } else if |name| == 2 {
      assert name + "=" == [name[0], name[1], '='];
      ThreeListed(name[0], name[1], '=');
      assert "!in"[1] == 'i';
    }
  }
}