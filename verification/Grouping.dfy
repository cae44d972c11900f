// The levels of operators, and what they say about expressions of two operators.

module Grouping {
  import opened Options
  import opened Precedence

  // A name or a literal.
  predicate IsName(t: Token) {
    t.Word? || t.IntLit? || t.BoolLit? || t.UnitLit? || t.StrLit?
  }

  predicate IsSign(t: Token) {
    t in {Op(Plus), Op(Minus), UnaryPlus, UnaryMinus, Bang}
  }

  // The level of an operator, from the one that binds loosest.
  predicate OnLevel(op: Op, level: nat) {
    match level
    case 0 => op in {OrOp, XOr, Pipe}
    case 1 => op in {AndOp, Ampersand}
    case 2 => op in {EqualsTo, NotEqualsTo}
    case 3 => op in {In, NotIn}
    case 4 => op in {LessThan, LessThanEqualsTo, GreaterThan, GreaterThanEqualsTo}
    case 5 => op == DoubleQuestion
    case 6 => op in {ExclusiveRange, InclusiveRange}
    case 7 => op in {Plus, Minus}
    case 8 => op in {Multiply, Divide, Modulo}
    case 9 => op == PowerOf
    case 10 => op in {LeftShift, RightShift}
    case _ => false
  }

  lemma SomeLevel(op: Op)
    ensures exists level: nat :: level <= 10 && OnLevel(op, level)
  {
    assert OnLevel(op, 0) || OnLevel(op, 1) || OnLevel(op, 2) || OnLevel(op, 3) || OnLevel(op, 4) || OnLevel(op, 5)
      || OnLevel(op, 6) || OnLevel(op, 7) || OnLevel(op, 8) || OnLevel(op, 9) || OnLevel(op, 10);
  }

  lemma LevelOrder(f: Op, i: nat, g: Op, j: nat)
    requires OnLevel(f, i) && OnLevel(g, j)
    ensures PrecedenceOf(f) < PrecedenceOf(g) <==> i < j
    ensures PrecedenceOf(f) == PrecedenceOf(g) <==> i == j
    ensures (BindsRight(f) <==> i == 9) && (BindsRight(g) <==> j == 9)
  {
    LevelIs(f, i);
    LevelIs(g, j);
    hide PrecedenceOf, OnLevel;
  }

  lemma LevelIs(op: Op, level: nat)
    requires OnLevel(op, level)
    ensures level <= 10 && PrecedenceOf(op) == [30, 60, 90, 110, 130, 135, 140, 150, 180, 190, 210][level]
    ensures BindsRight(op) <==> level == 9
  {}

  lemma BinValid(op: Op, l: Tree, r: Tree, next: Token)
    requires LeftFits(op, l) && RightFits(op, r) && Valid(l, Op(op)) && Valid(r, next) && r != Missing
    ensures Valid(Bin(op, l, r), next)
    ensures Reading(Bin(op, l, r)) == Reading(l) + [Op(op)] + Reading(r)
  {}

  lemma LeafValid(x: Token, next: Token)
    requires IsLeaf(x)
    ensures Valid(Leaf(x), next) && Reading(Leaf(x)) == [x]
  {}

  // Of two operators between three operands the one of the tighter level takes the operand in the
  // middle; on one level the left one does, but for powers the right one.
  lemma Grouping(f: Op, i: nat, g: Op, j: nat, x: Token, y: Token, z: Token, rest: seq<Token>)
    requires OnLevel(f, i) && OnLevel(g, j) && IsName(x) && IsName(y) && IsName(z)
    requires !Peek(rest).Op? && !Peek(rest).ReservedSymbol?
    ensures Expression([x, Op(f), y, Op(g), z] + rest)
         == if i < j || (i == j && i == 9) then Some((Bin(f, Leaf(x), Bin(g, Leaf(y), Leaf(z))), rest))
            else Some((Bin(g, Bin(f, Leaf(x), Leaf(y)), Leaf(z)), rest))
  {
    hide PrecedenceOf, BindsRight, Expression, OnLevel, Valid, Reading;
    LevelOrder(f, i, g, j);
    LeafValid(x, Op(f));
    LeafValid(y, Op(g));
    LeafValid(z, Peek(rest));
    if i < j || (i == j && i == 9) {
      var r := Bin(g, Leaf(y), Leaf(z));
      BinValid(g, Leaf(y), Leaf(z), Peek(rest));
      BinValid(f, Leaf(x), r, Peek(rest));
      assert Reading(Bin(f, Leaf(x), r)) == [x, Op(f), y, Op(g), z];
      ExpressionComplete(Bin(f, Leaf(x), r), rest);
    } else {
      var l := Bin(f, Leaf(x), Leaf(y));
      BinValid(f, Leaf(x), Leaf(y), Op(g));
      BinValid(g, l, Leaf(z), Peek(rest));
      assert Reading(Bin(g, l, Leaf(z))) == [x, Op(f), y, Op(g), z];
      ExpressionComplete(Bin(g, l, Leaf(z)), rest);
    }
  }

  lemma SignValid(sign: Token, e: Tree, next: Token)
    requires IsUnary(sign) && !e.Bin? && Valid(e, next)
    ensures Valid(Unary(sign, e), next) && Reading(Unary(sign, e)) == [sign] + Reading(e)
  {}

  lemma ParenValid(e: Tree, next: Token)
    requires Valid(e, RightParen)
    ensures Valid(Paren(e), next) && Reading(Paren(e)) == [LeftParen] + Reading(e) + [RightParen]
  {}

  // A sign belongs to the operand next to it, and parentheses are an operand.
  lemma SignGroups(sign: Token, f: Op, x: Token, y: Token, rest: seq<Token>)
    requires IsSign(sign) && IsName(x) && IsName(y) && !Peek(rest).Op? && !Peek(rest).ReservedSymbol?
    ensures Expression([sign, x, Op(f), y] + rest) == Some((Bin(f, Unary(sign, Leaf(x)), Leaf(y)), rest))
    ensures Expression([sign, LeftParen, x, Op(f), y, RightParen] + rest)
         == Some((Unary(sign, Paren(Bin(f, Leaf(x), Leaf(y)))), rest))
  {
    hide PrecedenceOf, BindsRight, Expression, Valid, Reading;
    var signed, inner := Unary(sign, Leaf(x)), Bin(f, Leaf(x), Leaf(y));
    LeafValid(x, Op(f));
    LeafValid(y, Peek(rest));
    LeafValid(y, RightParen);
    SignValid(sign, Leaf(x), Op(f));
    BinValid(f, signed, Leaf(y), Peek(rest));
    assert Reading(Bin(f, signed, Leaf(y))) == [sign, x, Op(f), y];
    ExpressionComplete(Bin(f, signed, Leaf(y)), rest);
    BinValid(f, Leaf(x), Leaf(y), RightParen);
    ParenValid(inner, Peek(rest));
    SignValid(sign, Paren(inner), Peek(rest));
    assert Reading(Unary(sign, Paren(inner))) == [sign, LeftParen, x, Op(f), y, RightParen];
    ExpressionComplete(Unary(sign, Paren(inner)), rest);
  }

  // A range may lack its end before a closing token or a separator, and only there; one that lacks its
  // start begins at 0.
  lemma OpenRanges(op: Op, x: Token, next: Token, rest: seq<Token>)
    requires OnLevel(op, 6) && IsName(x) && !next.Op? && next != ReservedSymbol
    ensures Expression([Op(op), x, next] + rest) == Some((Bin(op, Zero, Leaf(x)), [next] + rest))
    ensures next in {RightParen, RightBracket, RightBrace, Comma, SemiColon, DoubleArrow} ==>
      Expression([x, Op(op), next] + rest) == Some((Bin(op, Leaf(x), Missing), [next] + rest))
    ensures next in {OtherToken, EOF} ==> Expression([x, Op(op), next] + rest) == None
  {
    hide PrecedenceOf, BindsRight, OnLevel, Valid, Reading, Expression, Climb, Right;
    var more := [next] + rest;
    assert more[0] == next;
    LevelRange(op);
    LeafValid(x, next);
    LeafValid(x, Op(op));
    ZeroValid(op);
    BinValid(op, Zero, Leaf(x), next);
    assert Reading(Bin(op, Zero, Leaf(x))) == [Op(op), x];
    ExpressionComplete(Bin(op, Zero, Leaf(x)), more);
    assert [Op(op), x] + more == [Op(op), x, next] + rest;
    assert [x, Op(op)] + more == [x, Op(op), next] + rest;
    if next in {RightParen, RightBracket, RightBrace, Comma, SemiColon, DoubleArrow} {
      MissingValid(op, Leaf(x), next);
      assert Reading(Bin(op, Leaf(x), Missing)) == [x, Op(op)];
      ExpressionComplete(Bin(op, Leaf(x), Missing), more);
    }
    if next == OtherToken || next == EOF { NoOperand(op, x, next, rest); }
  }

  lemma LevelRange(op: Op)
    requires OnLevel(op, 6)
    ensures IsRange(op) && PrecedenceOf(op) == 140
  {}

  lemma ZeroValid(op: Op)
    requires IsRange(op)
    ensures Valid(Zero, Op(op)) && Reading(Zero) == []
  {}

  lemma MissingValid(op: Op, l: Tree, next: Token)
    requires IsRange(op) && LeftFits(op, l) && Valid(l, Op(op)) && IsCloser(next)
    ensures Valid(Bin(op, l, Missing), next) && Reading(Bin(op, l, Missing)) == Reading(l) + [Op(op)]
  {
    assert Reading(Missing) == [];
  }

  lemma NoOperand(op: Op, x: Token, next: Token, rest: seq<Token>)
    requires IsRange(op) && PrecedenceOf(op) == 140 && IsLeaf(x) && (next == OtherToken || next == EOF)
    ensures Expression([x, Op(op), next] + rest) == None
  {
    var ts := [x, Op(op), next] + rest;
    var tail, last := ts[1..], [next] + rest;
    assert ts[0] == x && tail[0] == Op(op) && tail[1..] == last && last[0] == next;
    assert Operand(last) == None;
    assert RightOperand(op, last) == None;
    assert Right(op, last) == None;
    assert Operand(ts) == Some((Leaf(x), tail));
    assert Climb(1, Leaf(x), tail) == None;
  }
}
