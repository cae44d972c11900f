// Operator precedence (Token::precedence, Token::is_bind_right in src/tokenizer.rs; parse_unary,
// parse_binary_op and parse_expr in src/parser.rs): which tree a sequence of tokens stands for.

module Precedence {
  import opened Options

  datatype Op =
    | OrOp | XOr | Pipe | AndOp | Ampersand | EqualsTo | NotEqualsTo | In | NotIn
    | LessThan | LessThanEqualsTo | GreaterThan | GreaterThanEqualsTo | DoubleQuestion
    | ExclusiveRange | InclusiveRange | Plus | Minus | Divide | Multiply | Modulo
    | PowerOf | LeftShift | RightShift

  datatype Token =
    | Word(s: string) | IntLit(n: nat) | BoolLit(b: bool) | UnitLit | StrLit(s: string)
    | Op(op: Op) | UnaryMinus | UnaryPlus | Bang
    | LeftParen | RightParen | RightBracket | RightBrace | Comma | SemiColon | DoubleArrow
    | ReservedSymbol | OtherToken | EOF

  // ---- the table ----

  function PrecedenceOf(op: Op): (p: nat)
    ensures p >= 30
  {
    match op
    case OrOp | XOr | Pipe => 30
    case AndOp | Ampersand => 60
    case EqualsTo | NotEqualsTo => 90
    case In | NotIn => 110
    case LessThan | LessThanEqualsTo | GreaterThan | GreaterThanEqualsTo => 130
    case DoubleQuestion => 135
    case ExclusiveRange | InclusiveRange => 140
    case Plus | Minus => 150
    case Divide | Multiply | Modulo => 180
    case PowerOf => 190
    case LeftShift | RightShift => 210
  }

  predicate BindsRight(op: Op) {
    op == PowerOf
  }

  predicate IsRange(op: Op) {
    op == ExclusiveRange || op == InclusiveRange
  }

  // Associativity is the same for all operators of one level.
  lemma UniformAssociativity(a: Op, b: Op)
    requires PrecedenceOf(a) == PrecedenceOf(b)
    ensures BindsRight(a) == BindsRight(b)
  {
  }

  // Does a token after an operand belong to an expression whose operators bind tighter than `parent`
  // (or as tight, to the right)?
  predicate Continues(parent: nat, t: Token) {
    t.Op? && (PrecedenceOf(t.op) > parent || (PrecedenceOf(t.op) == parent && BindsRight(t.op)))
  }

  // ---- trees ----

  // `Zero` is the 0 understood before a range operator, `Missing` the () understood after one.
  datatype Tree =
    | Leaf(tok: Token)
    | Zero
    | Missing
    | Paren(e: Tree)
    | Unary(tok: Token, e: Tree)
    | Bin(op: Op, left: Tree, right: Tree)

  predicate IsLeaf(t: Token) {
    t.Word? || t.IntLit? || t.BoolLit? || t.UnitLit? || t.StrLit?
  }

  predicate IsUnary(t: Token) {
    t == Op(Minus) || t == UnaryMinus || t == Op(Plus) || t == UnaryPlus || t == Bang
  }

  // What may follow a range without an end.
  predicate IsCloser(t: Token) {
    t.RightBracket? || t.RightParen? || t.RightBrace? || t.Comma? || t.SemiColon? || t.DoubleArrow?
  }

  // The in-order reading.
  function Reading(t: Tree): seq<Token> {
    match t
    case Leaf(tok) => [tok]
    case Zero => []
    case Missing => []
    case Paren(e) => [LeftParen] + Reading(e) + [RightParen]
    case Unary(tok, e) => [tok] + Reading(e)
    case Bin(op, l, r) => Reading(l) + [Op(op)] + Reading(r)
  }

  // Precedence and associativity of an operator over its children.
  predicate LeftFits(op: Op, l: Tree) {
    l.Bin? ==> PrecedenceOf(l.op) > PrecedenceOf(op) || (PrecedenceOf(l.op) == PrecedenceOf(op) && !BindsRight(op))
  }

  predicate RightFits(op: Op, r: Tree) {
    r.Bin? ==> PrecedenceOf(r.op) > PrecedenceOf(op) || (PrecedenceOf(r.op) == PrecedenceOf(op) && BindsRight(op))
  }

  // The grammar: `next` is the token after the tree.
  predicate Valid(t: Tree, next: Token) {
    match t
    case Leaf(tok) => IsLeaf(tok)
    case Zero => next.Op? && IsRange(next.op)
    case Missing => false
    case Paren(e) => Valid(e, RightParen)
    case Unary(tok, e) => IsUnary(tok) && !e.Bin? && Valid(e, next)
    case Bin(op, l, r) =>
      LeftFits(op, l) && RightFits(op, r) && Valid(l, Op(op)) &&
      if r == Missing then IsRange(op) && IsCloser(next) else Valid(r, next)
  }

  // ---- the climbing parser, on values ----

  function Peek(ts: seq<Token>): Token {
    if ts == [] then EOF else ts[0]
  }

  type Parsed = Option<(Tree, seq<Token>)>

  // parse_unary and parse_primary
  function Operand(ts: seq<Token>): (r: Parsed)
    ensures r.Some? ==> |r.value.1| <= |ts|
    decreases |ts|, 0
  {
    var t := Peek(ts);
    if IsUnary(t) then
      match Operand(ts[1..])
      case None => None
      case Some((e, rest)) => Some((Unary(t, e), rest))
    else if IsLeaf(t) then Some((Leaf(t), ts[1..]))
    else if t.Op? && IsRange(t.op) then Some((Zero, ts))
    else if t.LeftParen? then
      match Expression(ts[1..])
      case None => None
      case Some((e, rest)) => if Peek(rest).RightParen? then Some((Paren(e), rest[1..])) else None
    else None
  }

  // What stands after the operator `op`.
  function RightOperand(op: Op, ts: seq<Token>): (r: Parsed)
    ensures r.Some? ==> |r.value.1| <= |ts|
    decreases |ts|, 1
  {
    if IsRange(op) && IsCloser(Peek(ts)) then Some((Missing, ts)) else Operand(ts)
  }

  // parse_binary_op
  function Climb(parent: nat, lhs: Tree, ts: seq<Token>): (r: Parsed)
    ensures r.Some? ==> |r.value.1| <= |ts|
    decreases |ts|, 2
  {
    if Peek(ts).ReservedSymbol? then None
    else if !Continues(parent, Peek(ts)) then Some((lhs, ts))
    else
      var op := ts[0].op;
      match Right(op, ts[1..])
      case None => None
      case Some((rhs, rest)) => Climb(parent, Bin(op, lhs, rhs), rest)
  }

  // The right-hand side of `op`: an operand, and all that binds tighter.
  function Right(op: Op, ts: seq<Token>): (r: Parsed)
    ensures r.Some? ==> |r.value.1| <= |ts|
    decreases |ts|, 3
  {
    match RightOperand(op, ts)
    case None => None
    case Some((rhs, rest)) =>
      if Peek(rest).ReservedSymbol? then None
      else if TakesOver(op, Peek(rest)) then Climb(PrecedenceOf(op), rhs, rest)
      else Some((rhs, rest))
  }

  // Does the operator after the operand of `op` take that operand?
  predicate TakesOver(op: Op, next: Token) {
    next.Op? && (PrecedenceOf(next.op) > PrecedenceOf(op) ||
                 (PrecedenceOf(next.op) == PrecedenceOf(op) && BindsRight(op)))
  }

  // parse_expr
  function Expression(ts: seq<Token>): (r: Parsed)
    ensures r.Some? ==> |r.value.1| <= |ts|
    decreases |ts|, 3
  {
    match Operand(ts)
    case None => None
    case Some((lhs, rest)) => Climb(1, lhs, rest)
  }

  // ---- what is parsed obeys the grammar and reads as the tokens consumed ----

  lemma {:induction false} OperandSound(ts: seq<Token>)
    requires Operand(ts).Some?
    ensures var (t, rest) := Operand(ts).value;
      !t.Bin? && t != Missing && Valid(t, Peek(rest)) && Reading(t) + rest == ts
    decreases |ts|, 0
  {
    hide PrecedenceOf, Climb, Expression;
    if IsUnary(Peek(ts)) {
      OperandSound(ts[1..]);
      hide IsRange, IsLeaf, IsUnary;
      ReadingUnary(ts, Operand(ts[1..]).value.0, Operand(ts[1..]).value.1);
    } else if Peek(ts).LeftParen? {
      ExpressionSound(ts[1..]);
      hide IsRange;
      ReadingParen(ts, Expression(ts[1..]).value.0, Expression(ts[1..]).value.1);
    }
  }

  lemma ReadingUnary(ts: seq<Token>, e: Tree, rest: seq<Token>)
    requires ts != [] && Reading(e) + rest == ts[1..]
    ensures Reading(Unary(ts[0], e)) + rest == ts
  {
    assert Reading(Unary(ts[0], e)) == [ts[0]] + Reading(e);
    hide Reading;
    assert ([ts[0]] + Reading(e)) + rest == [ts[0]] + (Reading(e) + rest);
  }

  lemma ReadingParen(ts: seq<Token>, e: Tree, rest: seq<Token>)
    requires ts != [] && ts[0] == LeftParen && Reading(e) + rest == ts[1..] && Peek(rest) == RightParen
    ensures Reading(Paren(e)) + rest[1..] == ts
  {
    assert Reading(Paren(e)) == [LeftParen] + Reading(e) + [RightParen];
    hide Reading;
    assert ([LeftParen] + Reading(e) + [RightParen]) + rest[1..] == [LeftParen] + (Reading(e) + ([RightParen] + rest[1..]));
    assert [RightParen] + rest[1..] == rest;
  }

  // A range without an end.
  lemma MissingRight(op: Op, ts: seq<Token>)
    requires IsRange(op) && IsCloser(Peek(ts))
    ensures Right(op, ts) == Some((Missing, ts)) && Reading(Missing) + ts == ts
    ensures RightFits(op, Missing) && !Peek(ts).ReservedSymbol? && !TakesOver(op, Peek(ts))
  {
    hide PrecedenceOf, Operand, Climb;
    assert Reading(Missing) + ts == ts;
  }

  lemma RightIs(op: Op, ts: seq<Token>)
    ensures Right(op, ts) ==
      if RightOperand(op, ts).None? || Peek(RightOperand(op, ts).value.1).ReservedSymbol? then None
      else if TakesOver(op, Peek(RightOperand(op, ts).value.1))
      then Climb(PrecedenceOf(op), RightOperand(op, ts).value.0, RightOperand(op, ts).value.1)
      else RightOperand(op, ts)
  {
    hide PrecedenceOf, RightOperand, Climb, TakesOver;
  }

  lemma RightOfOperand(op: Op, ts: seq<Token>)
    requires !(IsRange(op) && IsCloser(Peek(ts)))
    ensures RightOperand(op, ts) == Operand(ts)
    ensures Right(op, ts) ==
      if Operand(ts).None? || Peek(Operand(ts).value.1).ReservedSymbol? then None
      else if TakesOver(op, Peek(Operand(ts).value.1))
      then Climb(PrecedenceOf(op), Operand(ts).value.0, Operand(ts).value.1)
      else Operand(ts)
  {
    hide PrecedenceOf, Operand, Climb, Right, TakesOver, IsCloser, IsRange;
    RightIs(op, ts);
  }

  // One round of climbing.
  lemma ClimbStep(parent: nat, lhs: Tree, ts: seq<Token>)
    requires Continues(parent, Peek(ts))
    ensures Climb(parent, lhs, ts) ==
      if Right(ts[0].op, ts[1..]).None? then None
      else Climb(parent, Bin(ts[0].op, lhs, Right(ts[0].op, ts[1..]).value.0), Right(ts[0].op, ts[1..]).value.1)
  {
    hide PrecedenceOf, Right, BindsRight;
  }

  lemma ClimbedFits(op: Op, t: Tree, next: Token)
    requires (t.Bin? ==> Continues(PrecedenceOf(op), Op(t.op))) && !Continues(PrecedenceOf(op), next)
    ensures RightFits(op, t) && !TakesOver(op, next)
  {
    hide PrecedenceOf, BindsRight;
    if t.Bin? && PrecedenceOf(t.op) == PrecedenceOf(op) { UniformAssociativity(t.op, op); }
    if next.Op? && PrecedenceOf(next.op) == PrecedenceOf(op) { UniformAssociativity(next.op, op); }
  }

  lemma {:induction false} RightSound(op: Op, ts: seq<Token>)
    requires Right(op, ts).Some?
    ensures var (t, rest) := Right(op, ts).value;
      RightFits(op, t) && Reading(t) + rest == ts && !Peek(rest).ReservedSymbol? && !TakesOver(op, Peek(rest)) &&
      if t == Missing then IsRange(op) && IsCloser(Peek(rest)) else Valid(t, Peek(rest))
    decreases |ts|, 3
  {
    if IsRange(op) && IsCloser(Peek(ts)) {
      MissingRight(op, ts);
    } else {
      hide PrecedenceOf, Operand, Climb, Right, TakesOver, Continues, Valid, Reading, IsCloser, IsRange, BindsRight;
      RightOfOperand(op, ts);
      OperandSound(ts);
      var (rhs, rest) := Operand(ts).value;
      if TakesOver(op, Peek(rest)) {
        ClimbSound(PrecedenceOf(op), rhs, rest);
        var (t, rest') := Climb(PrecedenceOf(op), rhs, rest).value;
        ClimbedFits(op, t, Peek(rest'));
      }
    }
  }

  lemma {:induction false} ClimbSound(parent: nat, lhs: Tree, ts: seq<Token>)
    requires Climb(parent, lhs, ts).Some? && Valid(lhs, Peek(ts))
    requires lhs.Bin? ==> Continues(parent, Op(lhs.op)) && !TakesOver(lhs.op, Peek(ts))
    ensures var (t, rest) := Climb(parent, lhs, ts).value;
      Valid(t, Peek(rest)) && Reading(t) + rest == Reading(lhs) + ts && t != Missing &&
      (t.Bin? ==> Continues(parent, Op(t.op))) && !Continues(parent, Peek(rest)) && !Peek(rest).ReservedSymbol?
    decreases |ts|, 2
  {
    if Continues(parent, Peek(ts)) {
      var op := ts[0].op;
      RightSound(op, ts[1..]);
      var (rhs, rest) := Right(op, ts[1..]).value;
      NodeSound(op, lhs, rhs, ts, rest);
      hide Valid, Reading, Right, PrecedenceOf;
      var node := Bin(op, lhs, rhs);
      ClimbSound(parent, node, rest);
    }
  }

  lemma ReadingNode(op: Op, lhs: Tree, rhs: Tree, ts: seq<Token>, rest: seq<Token>)
    requires ts != [] && ts[0] == Op(op) && Reading(rhs) + rest == ts[1..]
    ensures Reading(Bin(op, lhs, rhs)) + rest == Reading(lhs) + ts
  {
    assert Reading(Bin(op, lhs, rhs)) == Reading(lhs) + [Op(op)] + Reading(rhs);
    hide Reading;
    var l, r := Reading(lhs), Reading(rhs);
    assert (l + [Op(op)] + r) + rest == l + ([Op(op)] + (r + rest));
    assert [Op(op)] + ts[1..] == ts;
  }

  lemma NodeSound(op: Op, lhs: Tree, rhs: Tree, ts: seq<Token>, rest: seq<Token>)
    requires ts != [] && ts[0] == Op(op) && Valid(lhs, ts[0]) && (lhs.Bin? ==> !TakesOver(lhs.op, ts[0]))
    requires RightFits(op, rhs) && Reading(rhs) + rest == ts[1..]
    requires if rhs == Missing then IsRange(op) && IsCloser(Peek(rest)) else Valid(rhs, Peek(rest))
    ensures Valid(Bin(op, lhs, rhs), Peek(rest)) && Reading(Bin(op, lhs, rhs)) + rest == Reading(lhs) + ts
  {
    hide Reading, PrecedenceOf, TakesOver, LeftFits, RightFits, IsCloser, IsRange;
    LeftBinds(op, lhs);
    ReadingNode(op, lhs, rhs, ts, rest);
  }

  lemma LeftBinds(op: Op, lhs: Tree)
    requires lhs.Bin? ==> !TakesOver(lhs.op, Op(op))
    ensures LeftFits(op, lhs)
  {
    hide PrecedenceOf, BindsRight;
    if lhs.Bin? && PrecedenceOf(lhs.op) == PrecedenceOf(op) { UniformAssociativity(lhs.op, op); }
  }

  lemma {:induction false} ExpressionSound(ts: seq<Token>)
    requires Expression(ts).Some?
    ensures var (t, rest) := Expression(ts).value;
      Valid(t, Peek(rest)) && Reading(t) + rest == ts && t != Missing && !Peek(rest).Op? && !Peek(rest).ReservedSymbol?
    decreases |ts|, 4
  {
    OperandSound(ts);
    var (lhs, rest) := Operand(ts).value;
    ClimbSound(1, lhs, rest);
  }

  // ---- every tree of the grammar is what its reading is parsed to ----

  function First(t: Tree): Tree {
    if t.Bin? then First(t.left) else t
  }

  // The tokens of a tree after its first operand.
  function After(t: Tree): seq<Token> {
    if t.Bin? then After(t.left) + [Op(t.op)] + Reading(t.right) else []
  }

  lemma {:induction false} FirstAfter(t: Tree, next: Token)
    ensures Reading(t) == Reading(First(t)) + After(t) && !First(t).Bin?
    ensures t.Bin? ==> After(t) != [] && After(t)[0].Op?
    ensures Valid(t, next) ==> Valid(First(t), Peek(After(t) + [next]))
  {
    if t.Bin? {
      FirstAfter(t.left, Op(t.op));
      assert Reading(t) == Reading(First(t)) + (After(t.left) + [Op(t.op)] + Reading(t.right));
      if !t.left.Bin? { assert After(t) == [Op(t.op)] + Reading(t.right); }
    }
  }

  // The operator right after the first operand binds at least as tight as the top one.
  lemma {:induction false} FirstOp(t: Tree, next: Token)
    requires t.Bin? && Valid(t, next)
    ensures After(t) != [] && After(t)[0].Op?
    ensures PrecedenceOf(After(t)[0].op) >= PrecedenceOf(t.op)
  {
    hide PrecedenceOf, Reading, RightFits, BindsRight;
    var tail := [Op(t.op)] + Reading(t.right);
    assert After(t) == After(t.left) + tail;
    if t.left.Bin? {
      FirstOp(t.left, Op(t.op));
    } else {
      assert After(t) == tail;
    }
  }

  lemma {:induction false} OperandComplete(u: Tree, ts: seq<Token>)
    requires !u.Bin? && Valid(u, Peek(ts))
    ensures Operand(Reading(u) + ts) == Some((u, ts))
    decreases u, 0
  {
    match u
    case Leaf(tok) =>
    case Zero => assert Reading(u) + ts == ts;
    case Paren(e) =>
      var inner := Reading(e) + ([RightParen] + ts);
      assert Reading(u) + ts == [LeftParen] + inner;
      ExpressionComplete(e, [RightParen] + ts);
    case Unary(tok, e) =>
      assert Reading(u) + ts == [tok] + (Reading(e) + ts);
      OperandComplete(e, ts);
  }

  // The operand of `op` is taken over by the first operator of a tree that fits to its right.
  lemma TakesFirst(op: Op, t: Tree, first: Op, next: Token)
    requires t.Bin? && RightFits(op, t) && PrecedenceOf(first) >= PrecedenceOf(t.op) && !TakesOver(op, next)
    ensures TakesOver(op, Op(first)) && Continues(PrecedenceOf(op), Op(t.op))
    ensures !TakesOver(t.op, next) && !Continues(PrecedenceOf(op), next)
  {
    hide PrecedenceOf, BindsRight;
    if PrecedenceOf(t.op) == PrecedenceOf(op) { UniformAssociativity(t.op, op); }
    if next.Op? && PrecedenceOf(next.op) == PrecedenceOf(op) { UniformAssociativity(next.op, op); }
  }

  // A tree of operators is read as its first operand and what follows it.
  lemma ReadingSplit(t: Tree, ts: seq<Token>)
    requires Valid(t, Peek(ts))
    ensures Reading(t) + ts == Reading(First(t)) + (After(t) + ts) && !First(t).Bin?
    ensures Valid(First(t), Peek(After(t) + ts))
    ensures if t.Bin? then Peek(After(t) + ts).Op? && PrecedenceOf(Peek(After(t) + ts).op) >= PrecedenceOf(t.op)
            else After(t) + ts == ts
  {
    hide PrecedenceOf, Reading, Valid;
    FirstAfter(t, Peek(ts));
    assert (Reading(First(t)) + After(t)) + ts == Reading(First(t)) + (After(t) + ts);
    assert Peek(After(t) + [Peek(ts)]) == Peek(After(t) + ts);
    if t.Bin? {
      FirstOp(t, Peek(ts));
    } else {
      assert After(t) == [];
    }
  }

  lemma {:induction false} RightComplete(op: Op, r: Tree, ts: seq<Token>)
    requires RightFits(op, r) && !Peek(ts).ReservedSymbol? && !TakesOver(op, Peek(ts))
    requires if r == Missing then IsRange(op) && IsCloser(Peek(ts)) else Valid(r, Peek(ts))
    ensures Right(op, Reading(r) + ts) == Some((r, ts))
    decreases r, 2
  {
    if r == Missing {
      MissingRight(op, ts);
    } else {
      hide PrecedenceOf, Operand, Right, TakesOver, Continues, RightFits, Valid, Reading, First, After, IsCloser;
      ReadingSplit(r, ts);
      var u, rest := First(r), After(r) + ts;
      if r.Bin? { FirstSmaller(r); } else { FirstSelf(r); }
      OperandComplete(u, rest);
      OperandStart(u, rest);
      RightOfOperand(op, Reading(r) + ts);
      if r.Bin? {
        TakesFirst(op, r, Peek(rest).op, Peek(ts));
        ClimbComplete(PrecedenceOf(op), r, ts);
      }
    }
  }

  lemma FirstSelf(t: Tree)
    requires !t.Bin?
    ensures First(t) == t
  {
  }

  lemma FirstSmaller(t: Tree)
    requires t.Bin?
    ensures First(t) < t
  {
  }

  // No operand starts with a token that may close a range.
  lemma OperandStart(u: Tree, ts: seq<Token>)
    requires !u.Bin? && Valid(u, Peek(ts))
    ensures !IsCloser(Peek(Reading(u) + ts))
  {
  }

  // Climbing from the first operand of `t` arrives at `t`.
  lemma {:induction false} ClimbComplete(parent: nat, t: Tree, ts: seq<Token>)
    requires Valid(t, Peek(ts)) && !Peek(ts).ReservedSymbol?
    requires t.Bin? ==> Continues(parent, Op(t.op)) && !TakesOver(t.op, Peek(ts))
    ensures Climb(parent, First(t), After(t) + ts) == Climb(parent, t, ts)
    decreases t, 1
  {
    if t.Bin? {
      var op, l, r := t.op, t.left, t.right;
      var rest := [Op(op)] + (Reading(r) + ts);
      assert After(t) + ts == After(l) + rest;
      assert Valid(l, Op(op)) && LeftFits(op, l);
      assert First(t) == First(l);
      UniformBelow(parent, t);
      hide PrecedenceOf, Valid, Climb, Right, First, After, TakesOver, LeftFits, RightFits, BindsRight, Operand;
      ClimbComplete(parent, l, rest);
      assert rest[1..] == Reading(r) + ts;
      RightComplete(op, r, ts);
      ClimbStep(parent, l, rest);
    } else {
      assert After(t) + ts == ts;
    }
  }

  lemma UniformBelow(parent: nat, t: Tree)
    requires t.Bin? && Continues(parent, Op(t.op)) && LeftFits(t.op, t.left)
    ensures t.left.Bin? ==> Continues(parent, Op(t.left.op)) && !TakesOver(t.left.op, Op(t.op))
  {
    hide PrecedenceOf, BindsRight;
    if t.left.Bin? && PrecedenceOf(t.left.op) == PrecedenceOf(t.op) { UniformAssociativity(t.left.op, t.op); }
  }

  lemma {:induction false} ExpressionComplete(t: Tree, ts: seq<Token>)
    requires Valid(t, Peek(ts)) && !Peek(ts).Op? && !Peek(ts).ReservedSymbol?
    ensures Expression(Reading(t) + ts) == Some((t, ts))
    decreases t, 3
  {
    hide Operand, Valid, Reading, First, After;
    ReadingSplit(t, ts);
    if t.Bin? { FirstSmaller(t); } else { FirstSelf(t); }
    OperandComplete(First(t), After(t) + ts);
    ClimbComplete(1, t, ts);
  }

  // A sequence of tokens is the reading of at most one tree of the grammar.
  lemma UniqueTree(t: Tree, t': Tree, ts: seq<Token>)
    requires Valid(t, Peek(ts)) && Valid(t', Peek(ts)) && !Peek(ts).Op? && !Peek(ts).ReservedSymbol?
    requires Reading(t) + ts == Reading(t') + ts
    ensures t == t'
  {
    ExpressionComplete(t, ts);
    ExpressionComplete(t', ts);
  }

  // `ts` begins with the reading of the tree `t`, and nothing in `rest` continues it.
  predicate StandsFor(ts: seq<Token>, t: Tree, rest: seq<Token>) {
    Valid(t, Peek(rest)) && Reading(t) + rest == ts && !Peek(rest).Op? && !Peek(rest).ReservedSymbol?
  }

  // The parser accepts exactly the readings of the trees of the grammar.
  lemma Accepts(ts: seq<Token>, t: Tree, rest: seq<Token>)
    ensures Expression(ts) == Some((t, rest)) <==> StandsFor(ts, t, rest)
  {
    if Expression(ts) == Some((t, rest)) { ExpressionSound(ts); }
    if StandsFor(ts, t, rest) { ExpressionComplete(t, rest); }
  }
}
