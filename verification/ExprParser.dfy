// The expression parser as it runs (parse_unary, parse_binary_op, parse_expr in src/parser.rs):
// one pass over the tokens that builds the syntax tree and counts levels as it goes.

module ExprParser {
  import opened Options
  import opened Precedence

  // The syntax tree: `&&`, `||` and `??` take any number of operands, other operators are calls.
  datatype Ast =
    | Int(n: int)
    | Atom(tok: Token)
    | Unit
    | Fn(name: string, args: seq<Ast>)
    | And(es: seq<Ast>)
    | Or(es: seq<Ast>)
    | Coalesce(es: seq<Ast>)

  function OpName(op: Op): string {
    match op
    case OrOp => "||" case XOr => "^" case Pipe => "|" case AndOp => "&&" case Ampersand => "&"
    case EqualsTo => "==" case NotEqualsTo => "!=" case In => "in" case NotIn => "!in"
    case LessThan => "<" case LessThanEqualsTo => "<=" case GreaterThan => ">" case GreaterThanEqualsTo => ">="
    case DoubleQuestion => "??" case ExclusiveRange => ".." case InclusiveRange => "..="
    case Plus => "+" case Minus => "-" case Divide => "/" case Multiply => "*" case Modulo => "%"
    case PowerOf => "**" case LeftShift => "<<" case RightShift => ">>"
  }

  // Expr::ensure_bool_expr
  predicate MayBeBool(a: Ast) {
    !a.Int? && !a.Unit? && !(a.Atom? && (a.tok.StrLit? || a.tok.UnitLit?))
  }

  function LeafAst(tok: Token): Ast {
    match tok
    case IntLit(n) => Int(n)
    case UnitLit => Unit
    case _ => Atom(tok)
  }

  function SignAst(tok: Token, a: Ast): Ast {
    if tok == Bang then Fn("!", [a])
    else if tok == Op(Minus) || tok == UnaryMinus then (if a.Int? then Int(-a.n) else Fn("-", [a]))
    else if a.Int? then a
    else Fn("+", [a])
  }

  // The node for an operator; None when an operand of `&&` or `||` cannot be a boolean.
  function NodeAst(op: Op, a: Ast, b: Ast): Option<Ast> {
    match op
    case AndOp =>
      if !MayBeBool(a) || !MayBeBool(b) then None
      else if a.And? then Some(And(a.es + (if b.And? then b.es else [b])))
      else if b.And? then Some(And([a] + b.es))
      else Some(And([a, b]))
    case OrOp =>
      if !MayBeBool(a) || !MayBeBool(b) then None
      else if a.Or? then Some(Or(a.es + (if b.Or? then b.es else [b])))
      else if b.Or? then Some(Or([a] + b.es))
      else Some(Or([a, b]))
    case DoubleQuestion =>
      if a.Coalesce? then Some(Coalesce(a.es + (if b.Coalesce? then b.es else [b])))
      else if b.Coalesce? then Some(Coalesce([a] + b.es))
      else Some(Coalesce([a, b]))
    case In => Some(Fn("contains", [b, a]))
    case NotIn => Some(Fn("!", [Fn("contains", [b, a])]))
    case _ => Some(Fn(OpName(op), [a, b]))
  }

  function ToAst(t: Tree): Option<Ast> {
    match t
    case Leaf(tok) => Some(LeafAst(tok))
    case Zero => Some(Int(0))
    case Missing => Some(Unit)
    case Paren(e) => ToAst(e)
    case Unary(tok, e) => (match ToAst(e) case None => None case Some(a) => Some(SignAst(tok, a)))
    case Bin(op, l, r) =>
      match (ToAst(l), ToAst(r))
      case (Some(a), Some(b)) => NodeAst(op, a, b)
      case _ => None
  }

  // ---- printing, with parentheses around a child that would not fit ----

  predicate Bare(t: Tree) {
    match t
    case Leaf(tok) => IsLeaf(tok)
    case Zero => false
    case Missing => false
    case Paren(_) => false
    case Unary(tok, e) => IsUnary(tok) && Bare(e)
    case Bin(op, l, r) => Bare(l) && Bare(r)
  }

  function Parenthesised(t: Tree): Tree {
    match t
    case Unary(tok, e) => Unary(tok, if e.Bin? then Paren(Parenthesised(e)) else Parenthesised(e))
    case Bin(op, l, r) =>
      Bin(op, if LeftFits(op, l) then Parenthesised(l) else Paren(Parenthesised(l)),
          if RightFits(op, r) then Parenthesised(r) else Paren(Parenthesised(r)))
    case _ => t
  }

  // A child in parentheses fits anywhere.
  function Wrapped(fits: bool, t: Tree): Tree {
    if fits then Parenthesised(t) else Paren(Parenthesised(t))
  }

  lemma ParenthesisedBin(op: Op, l: Tree, r: Tree, next: Token)
    requires Valid(Parenthesised(l), Op(op)) && Valid(Parenthesised(l), RightParen)
    requires Valid(Parenthesised(r), next) && Valid(Parenthesised(r), RightParen)
    requires ToAst(Parenthesised(l)) == ToAst(l) && ToAst(Parenthesised(r)) == ToAst(r)
    requires Parenthesised(l).Bin? == l.Bin? && (l.Bin? ==> Parenthesised(l).op == l.op)
    requires Parenthesised(r).Bin? == r.Bin? && (r.Bin? ==> Parenthesised(r).op == r.op) && Parenthesised(r) != Missing
    ensures Valid(Parenthesised(Bin(op, l, r)), next)
    ensures ToAst(Parenthesised(Bin(op, l, r))) == ToAst(Bin(op, l, r))
  {
    var l', r' := Wrapped(LeftFits(op, l), l), Wrapped(RightFits(op, r), r);
    assert Parenthesised(Bin(op, l, r)) == Bin(op, l', r');
    hide PrecedenceOf, NodeAst, Parenthesised, IsRange, IsCloser, BindsRight;
    assert LeftFits(op, l') && RightFits(op, r');
    assert ToAst(l') == ToAst(l) && ToAst(r') == ToAst(r);
    hide LeftFits, RightFits;
    assert Valid(l', Op(op)) && Valid(r', next) && r' != Missing;
  }

  lemma {:induction false} ParenthesisedValid(t: Tree, next: Token)
    requires Bare(t)
    ensures Valid(Parenthesised(t), next) && ToAst(Parenthesised(t)) == ToAst(t)
    ensures Parenthesised(t).Bin? == t.Bin? && (t.Bin? ==> Parenthesised(t).op == t.op)
    ensures Parenthesised(t) != Missing
  {
    hide PrecedenceOf, NodeAst, LeftFits, RightFits, SignAst, IsUnary, IsLeaf;
    match t
    case Leaf(_) =>
    case Unary(tok, e) =>
      ParenthesisedValid(e, next);
      ParenthesisedValid(e, RightParen);
    case Bin(op, l, r) =>
      ParenthesisedValid(l, Op(op));
      ParenthesisedValid(l, RightParen);
      ParenthesisedValid(r, next);
      ParenthesisedValid(r, RightParen);
      hide Valid, ToAst;
      ParenthesisedBin(op, l, r, next);
  }

  // Parsing the print of any expression gives its syntax tree back.
  lemma PrintParse(t: Tree, rest: seq<Token>)
    requires Bare(t) && !Peek(rest).Op? && !Peek(rest).ReservedSymbol?
    ensures var r := Expression(Reading(Parenthesised(t)) + rest);
      r == Some((Parenthesised(t), rest)) && ToAst(r.value.0) == ToAst(t)
  {
    ParenthesisedValid(t, Peek(rest));
    ExpressionComplete(Parenthesised(t), rest);
  }

  // The trees on which no parenthesis is spent are those that are valid as they are.
  lemma {:induction false} ParenthesesNeeded(t: Tree, next: Token)
    requires Bare(t)
    ensures Parenthesised(t) == t <==> Valid(t, next)
  {
    match t
    case Leaf(_) =>
    case Unary(tok, e) => ParenthesesNeeded(e, next);
    case Bin(op, l, r) =>
      ParenthesesNeeded(l, Op(op));
      ParenthesesNeeded(r, next);
  }

  // ---- flattening of &&, || and ?? ----

  function Conjuncts(op: Op, a: Ast): seq<Ast> {
    if op == AndOp && a.And? then a.es
    else if op == OrOp && a.Or? then a.es
    else if op == DoubleQuestion && a.Coalesce? then a.es
    else [a]
  }

  // The operands of a chain, in order, whatever its grouping.
  function ChainOperands(op: Op, t: Tree): seq<Tree> {
    if t.Paren? then ChainOperands(op, t.e)
    else if t.Bin? && t.op == op then ChainOperands(op, t.left) + ChainOperands(op, t.right)
    else [t]
  }

  predicate Flat(op: Op) {
    op == AndOp || op == OrOp || op == DoubleQuestion
  }

  lemma NodeConjuncts(op: Op, a: Ast, b: Ast)
    requires Flat(op) && NodeAst(op, a, b).Some?
    ensures Conjuncts(op, NodeAst(op, a, b).value) == Conjuncts(op, a) + Conjuncts(op, b)
  {
    hide MayBeBool, OpName;
    assert [a] + [b] == [a, b];
  }

  // `es` are the nodes of the operands `ts`, none of them a chain itself.
  predicate Operands(op: Op, ts: seq<Tree>, es: seq<Ast>) {
    |es| == |ts| && forall i | 0 <= i < |es| :: ToAst(ts[i]) == Some(es[i]) && |Conjuncts(op, es[i])| == 1
  }

  lemma OperandsAppend(op: Op, ts: seq<Tree>, es: seq<Ast>, ts': seq<Tree>, es': seq<Ast>)
    requires Operands(op, ts, es) && Operands(op, ts', es')
    ensures Operands(op, ts + ts', es + es')
  {
    hide ToAst, Conjuncts;
  }

  // A tree that is no chain of `op` has a node that is none.
  lemma NoChain(op: Op, t: Tree)
    requires Flat(op) && ToAst(t).Some? && !t.Paren? && !(t.Bin? && t.op == op)
    ensures Conjuncts(op, ToAst(t).value) == [ToAst(t).value]
  {
    hide OpName, MayBeBool;
    if t.Bin? {
      var a, b := ToAst(t.left).value, ToAst(t.right).value;
      assert ToAst(t) == NodeAst(t.op, a, b);
    }
  }

  lemma {:induction false} ChainFlattened(op: Op, t: Tree)
    requires Flat(op) && ToAst(t).Some?
    ensures Operands(op, ChainOperands(op, t), Conjuncts(op, ToAst(t).value))
    ensures |ChainOperands(op, t)| >= 1 && (t.Bin? && t.op == op ==> |ChainOperands(op, t)| >= 2)
  {
    hide Conjuncts, NodeAst, SignAst, LeafAst;
    if t.Paren? {
      ChainFlattened(op, t.e);
    } else if t.Bin? && t.op == op {
      ChainFlattened(op, t.left);
      ChainFlattened(op, t.right);
      var a, b := ToAst(t.left).value, ToAst(t.right).value;
      NodeConjuncts(op, a, b);
      OperandsAppend(op, ChainOperands(op, t.left), Conjuncts(op, a), ChainOperands(op, t.right), Conjuncts(op, b));
    } else {
      NoChain(op, t);
      SelfConjunct(op, t);
    }
  }

  lemma SelfConjunct(op: Op, t: Tree)
    requires ToAst(t).Some? && Conjuncts(op, ToAst(t).value) == [ToAst(t).value]
    ensures Operands(op, [t], [ToAst(t).value])
  {
    hide ToAst, Conjuncts;
  }

  // ---- negative literals ----

  const MAX_INT: int := 0x7fff_ffff_ffff_ffff

  predicate LiteralsFit(t: Tree) {
    match t
    case Leaf(tok) => tok.IntLit? ==> tok.n <= MAX_INT
    case Paren(e) => LiteralsFit(e)
    case Unary(_, e) => LiteralsFit(e)
    case Bin(_, l, r) => LiteralsFit(l) && LiteralsFit(r)
    case _ => true
  }

  // Negating a literal never overflows: the most negative integer is not reached.
  lemma {:induction false} NegationFits(t: Tree, a: Ast)
    requires LiteralsFit(t) && ToAst(t) == Some(a) && a.Int?
    ensures -MAX_INT <= a.n <= MAX_INT
  {
    match t
    case Paren(e) => NegationFits(e, a);
    case Unary(tok, e) => if ToAst(e).value.Int? { NegationFits(e, ToAst(e).value); }
    case _ =>
  }

  // ---- levels ----

  // Operators on the way down to the first operand.
  function Ops(t: Tree): nat {
    if t.Bin? then Ops(t.left) + 1 else 0
  }

  function Max(a: nat, b: nat): nat {
    if a < b then b else a
  }

  // The highest level reached while `t` is parsed, when its first operand is parsed at level `l0`
  // and the operators after it from level `l` on.
  function Need(t: Tree, l0: nat, l: nat): nat {
    match t
    case Paren(e) => Need(e, l0 + 2, l0 + 2)
    case Unary(_, e) => Need(e, l0 + 1, l0 + 1)
    case Bin(_, left, right) =>
      var k := l + Ops(left);
      Max(Max(Need(left, l0, l), k + 1), Need(right, k, if right.Bin? then k + 1 else k))
    case _ => l0
  }

  // What parsing ends with, given the tree that the tokens stand for.
  function Outcome(maxDepth: nat, p: Parsed, l0: nat, l: nat): Option<Ast> {
    if p.Some? && (maxDepth == 0 || Need(p.value.0, l0, l) <= maxDepth) then ToAst(p.value.0) else None
  }

  // What climbing goes through stays in the tree it ends with.
  lemma {:induction false} ClimbExtends(parent: nat, t: Tree, ts: seq<Token>, l0: nat, l: nat)
    requires Climb(parent, t, ts).Some?
    ensures var t' := Climb(parent, t, ts).value.0;
      Need(t', l0, l) >= Need(t, l0, l) && (ToAst(t) == None ==> ToAst(t') == None) &&
      (Continues(parent, Peek(ts)) ==> t'.Bin?) && (t.Bin? ==> t'.Bin?)
    decreases |ts|
  {
    if Continues(parent, Peek(ts)) {
      var op := ts[0].op;
      var (rhs, rest) := Right(op, ts[1..]).value;
      ClimbExtends(parent, Bin(op, t, rhs), rest, l0, l);
    }
  }

  // The same for the right-hand side of an operator at level `level`.
  function RightOutcome(maxDepth: nat, p: Parsed, level: nat): Option<Ast> {
    Outcome(maxDepth, p, level, if p.Some? && p.value.0.Bin? then level + 1 else level)
  }

  // Failing on the first operand of a right-hand side is failing on all of it.
  lemma OperandFails(maxDepth: nat, op: Op, ts: seq<Token>, level: nat)
    requires Outcome(maxDepth, RightOperand(op, ts), level, level) == None
    ensures RightOutcome(maxDepth, Right(op, ts), level) == None
  {
    hide PrecedenceOf, RightOperand, Right, Climb, TakesOver, Continues, Need, ToAst;
    RightIs(op, ts);
    if Right(op, ts).Some? {
      var (u, rest) := RightOperand(op, ts).value;
      RightIsOperand(op, ts);
      if TakesOver(op, Peek(rest)) {
        UniformTakes(op, Peek(rest));
        ClimbExtends(PrecedenceOf(op), u, rest, level, level + 1);
        NeedOperand(u, level, level + 1);
      }
    }
  }

  lemma MissingNeed(level: nat)
    ensures Need(Missing, level, level) == level && ToAst(Missing) == Some(Unit)
  {
  }

  lemma NeedOperand(u: Tree, l0: nat, l: nat)
    requires !u.Bin?
    ensures Need(u, l0, l) == Need(u, l0, l0)
  {
  }

  lemma UniformTakes(op: Op, next: Token)
    ensures TakesOver(op, next) <==> Continues(PrecedenceOf(op), next)
  {
    hide PrecedenceOf, BindsRight;
    if next.Op? && PrecedenceOf(next.op) == PrecedenceOf(op) { UniformAssociativity(next.op, op); }
  }

  lemma RightIsOperand(op: Op, ts: seq<Token>)
    requires RightOperand(op, ts).Some?
    ensures !RightOperand(op, ts).value.0.Bin?
  {
    hide Operand, Valid, Reading;
    if !(IsRange(op) && IsCloser(Peek(ts))) { OperandSound(ts); }
  }

  // The operators after the operand of `op` take it over.
  lemma TakenOver(maxDepth: nat, op: Op, ts: seq<Token>, level: nat, u: Tree, rest: seq<Token>)
    requires RightOperand(op, ts) == Some((u, rest)) && !Peek(rest).ReservedSymbol? && TakesOver(op, Peek(rest))
    ensures !u.Bin? && Right(op, ts) == Climb(PrecedenceOf(op), u, rest)
    ensures RightOutcome(maxDepth, Right(op, ts), level) == Outcome(maxDepth, Climb(PrecedenceOf(op), u, rest), level, level + 1)
    ensures maxDepth > 0 && level >= maxDepth ==> RightOutcome(maxDepth, Right(op, ts), level) == None
  {
    hide PrecedenceOf, RightOperand, Right, Climb, TakesOver, Continues, Need, ToAst;
    RightIs(op, ts);
    RightIsOperand(op, ts);
    UniformTakes(op, Peek(rest));
    if Climb(PrecedenceOf(op), u, rest).Some? {
      ClimbExtends(PrecedenceOf(op), u, rest, level, level + 1);
      var t := Climb(PrecedenceOf(op), u, rest).value.0;
      NodeNeed(t.op, t.left, t.right, level, level + 1);
    }
  }

  // Nothing takes the operand of `op` over.
  lemma NotTaken(maxDepth: nat, op: Op, ts: seq<Token>, level: nat, u: Tree, rest: seq<Token>)
    requires RightOperand(op, ts) == Some((u, rest))
    ensures Peek(rest).ReservedSymbol? ==> RightOutcome(maxDepth, Right(op, ts), level) == None
    ensures !Peek(rest).ReservedSymbol? && !TakesOver(op, Peek(rest)) ==>
      Right(op, ts) == Some((u, rest)) &&
      RightOutcome(maxDepth, Right(op, ts), level) == Outcome(maxDepth, RightOperand(op, ts), level, level)
  {
    hide PrecedenceOf, RightOperand, Right, Climb, TakesOver, Continues, Need, ToAst;
    RightIs(op, ts);
    RightIsOperand(op, ts);
  }

  // Failing on the way to the next node is failing altogether.
  lemma NodeFails(maxDepth: nat, parent: nat, t: Tree, a: Ast, ts: seq<Token>, l0: nat, l: nat)
    requires Continues(parent, Peek(ts)) && ToAst(t) == Some(a)
    requires var level, r := l + Ops(t), RightOutcome(maxDepth, Right(ts[0].op, ts[1..]), l + Ops(t));
      r == None || (maxDepth > 0 && level >= maxDepth) || NodeAst(ts[0].op, a, r.value) == None
    ensures Outcome(maxDepth, Climb(parent, t, ts), l0, l) == None
  {
    hide PrecedenceOf, NodeAst, Right, Climb, BindsRight, Need, Ops;
    ClimbStep(parent, t, ts);
    if Climb(parent, t, ts).Some? {
      var (rhs, rest) := Right(ts[0].op, ts[1..]).value;
      ClimbExtends(parent, Bin(ts[0].op, t, rhs), rest, l0, l);
      NodeNeed(ts[0].op, t, rhs, l0, l);
    }
  }

  lemma NodeNeed(op: Op, left: Tree, right: Tree, l0: nat, l: nat)
    ensures var n, k := Need(Bin(op, left, right), l0, l), l + Ops(left);
      && n >= k + 1 && n >= Need(left, l0, l) && n >= Need(right, k, if right.Bin? then k + 1 else k)
      && (n == k + 1 || n == Need(left, l0, l) || n == Need(right, k, if right.Bin? then k + 1 else k))
  {
    hide Ops;
  }

  // The next node.
  lemma NodeDone(maxDepth: nat, parent: nat, t: Tree, a: Ast, ts: seq<Token>, l0: nat, l: nat)
    requires Continues(parent, Peek(ts)) && ToAst(t) == Some(a) && (maxDepth > 0 ==> Need(t, l0, l) <= maxDepth)
    requires var level, r := l + Ops(t), RightOutcome(maxDepth, Right(ts[0].op, ts[1..]), l + Ops(t));
      r.Some? && (maxDepth > 0 ==> level + 1 <= maxDepth) && NodeAst(ts[0].op, a, r.value).Some?
    ensures var (rhs, rest) := Right(ts[0].op, ts[1..]).value;
      var node := Bin(ts[0].op, t, rhs);
      ToAst(node) == NodeAst(ts[0].op, a, RightOutcome(maxDepth, Right(ts[0].op, ts[1..]), l + Ops(t)).value) &&
      Ops(node) == Ops(t) + 1 && (maxDepth > 0 ==> Need(node, l0, l) <= maxDepth) &&
      Climb(parent, node, rest) == Climb(parent, t, ts)
  {
    hide PrecedenceOf, NodeAst, Right, Climb, BindsRight, Need;
    ClimbStep(parent, t, ts);
    var op, p := ts[0].op, Right(ts[0].op, ts[1..]);
    NodeNeed(op, t, p.value.0, l0, l);
    NodeAstIs(op, t, p.value.0);
    hide ToAst;
  }

  lemma NodeAstIs(op: Op, l: Tree, r: Tree)
    ensures ToAst(l).Some? && ToAst(r).Some? ==> ToAst(Bin(op, l, r)) == NodeAst(op, ToAst(l).value, ToAst(r).value)
    ensures Ops(Bin(op, l, r)) == Ops(l) + 1
  {
    hide NodeAst;
  }

  // ---- the parser ----

  // `frames` counts the calls that are active.
  class Parser {
    var input: seq<Token>
    const maxDepth: nat

    constructor (input: seq<Token>, maxDepth: nat)
      ensures this.input == input && this.maxDepth == maxDepth
    {
      this.input := input;
      this.maxDepth := maxDepth;
    }

    predicate Allowed(level: nat) {
      maxDepth > 0 ==> level <= maxDepth
    }

    // ParseSettings::level_up
    function LevelUp(level: nat): (r: Option<nat>)
      requires Allowed(level)
      ensures r == if Allowed(level + 1) then Some(level + 1) else None
    {
      if maxDepth > 0 && level >= maxDepth then None else Some(level + 1)
    }

    method ParseUnary(level: nat, ghost frames: nat) returns (r: Option<Ast>)
      requires Allowed(level) && frames <= 3 * level
      modifies this`input
      ensures r == Outcome(maxDepth, Operand(old(input)), level, level)
      ensures r.Some? ==> input == Operand(old(input)).value.1
      decreases |input|, 1
    {
      var token := Peek(input);
      if IsUnary(token) {
        input := input[1..];
        var inner := LevelUp(level);
        if inner == None {
          if Operand(old(input)).Some? { NeedAtLeast(Operand(old(input)).value.0.e, level + 1, level + 1); }
          return None;
        }
        var e := ParseUnary(inner.value, frames + 1);
        if e == None { return None; }
        return Some(SignAst(token, e.value));
      }
      r := ParsePrimary(level, frames + 1);
    }

    method ParsePrimary(level: nat, ghost frames: nat) returns (r: Option<Ast>)
      requires Allowed(level) && frames <= 3 * level + 1 && !IsUnary(Peek(input))
      modifies this`input
      ensures r == Outcome(maxDepth, Operand(old(input)), level, level)
      ensures r.Some? ==> input == Operand(old(input)).value.1
      decreases |input|, 0
    {
      hide PrecedenceOf, Climb, Expression, NodeAst, SignAst;
      var token := Peek(input);
      if IsLeaf(token) {
        input := input[1..];
        return Some(LeafAst(token));
      }
      // A range without a start begins at 0.
      if token.Op? && IsRange(token.op) { return Some(Int(0)); }
      if !token.LeftParen? { return None; }
      input := input[1..];
      var inner := LevelUp(level);
      if inner == None {
        if Operand(old(input)).Some? { NeedAtLeast(Operand(old(input)).value.0.e, level + 2, level + 2); }
        return None;
      }
      r := ParseExpr(inner.value, frames + 1);
      if r == None { return; }
      if !Peek(input).RightParen? { return None; }
      input := input[1..];
    }

    method ParseExpr(level: nat, ghost frames: nat) returns (r: Option<Ast>)
      requires Allowed(level) && frames <= 3 * level
      modifies this`input
      ensures r == Outcome(maxDepth, Expression(old(input)), level + 1, level + 1)
      ensures r.Some? ==> input == Expression(old(input)).value.1
      decreases |input|, 3
    {
      hide PrecedenceOf, Climb, Operand, Valid, Reading, ToAst, Need;
      var inner := LevelUp(level);
      if inner == None {
        if Expression(input).Some? { NeedAtLeast(Expression(input).value.0, level + 1, level + 1); }
        return None;
      }
      var lhs := ParseUnary(inner.value, frames + 1);
      if lhs == None {
        if Expression(old(input)).Some? {
          var (u, rest) := Operand(old(input)).value;
          ClimbExtends(1, u, rest, level + 1, level + 1);
          assert Expression(old(input)) == Climb(1, u, rest);
        }
        return None;
      }
      OperandSound(old(input));
      ghost var u := Operand(old(input)).value.0;
      assert Expression(old(input)) == Climb(1, u, input);
      r := ParseBinaryOp(1, lhs.value, inner.value, u, level + 1, frames + 1);
    }

    // The right-hand side of `op`.
    method ParseRight(op: Op, level: nat, ghost frames: nat) returns (r: Option<Ast>)
      requires Allowed(level) && frames + 1 <= 3 * level && 1 <= level
      modifies this`input
      ensures r == RightOutcome(maxDepth, Right(op, old(input)), level)
      ensures r.Some? ==> input == Right(op, old(input)).value.1
      decreases |input|, 4
    {
      hide PrecedenceOf, NodeAst, Continues, TakesOver, Operand, Climb, Right, Need;
      if IsRange(op) && IsCloser(Peek(input)) {
        r := Some(Unit);
      } else {
        r := ParseUnary(level, frames + 1);
      }
      MissingNeed(level);
      assert r == Outcome(maxDepth, RightOperand(op, old(input)), level, level);
      if r == None {
        OperandFails(maxDepth, op, old(input), level);
        return;
      }
      ghost var u := RightOperand(op, old(input)).value.0;
      assert RightOperand(op, old(input)) == Some((u, input));
      NotTaken(maxDepth, op, old(input), level, u, input);
      if Peek(input).ReservedSymbol? { return None; }
      // Bind to right if the next operator has higher precedence, or the same and binds right.
      if TakesOver(op, Peek(input)) {
        TakenOver(maxDepth, op, old(input), level, u, input);
        NeedOperand(u, level, level + 1);
        var inner := LevelUp(level);
        if inner == None { return None; }
        r := ParseBinaryOp(PrecedenceOf(op), r.value, inner.value, u, level, frames + 1);
      }
    }

    // `lhs` is the operand before the next token; `tree` says which, parsed at level `l0`.
    method ParseBinaryOp(parent: nat, lhs: Ast, level: nat, ghost tree: Tree, ghost l0: nat, ghost frames: nat)
        returns (r: Option<Ast>)
      requires Allowed(level) && frames + 1 <= 3 * level && 1 <= level
      requires !tree.Bin? && ToAst(tree) == Some(lhs) && Allowed(Need(tree, l0, level))
      modifies this`input
      ensures r == Outcome(maxDepth, Climb(parent, tree, old(input)), l0, level)
      ensures r.Some? ==> input == Climb(parent, tree, old(input)).value.1
      decreases |input|, 2
    {
      hide PrecedenceOf, NodeAst, TakesOver, Right, Need;
      var root := lhs;
      var settings := level;
      ghost var t := tree;
      while true
        invariant Climb(parent, t, input) == Climb(parent, tree, old(input))
        invariant ToAst(t) == Some(root) && Allowed(Need(t, l0, level))
        invariant settings == level + Ops(t) && Allowed(settings)
        invariant |input| <= |old(input)|
        decreases |input|
      {
        if Peek(input).ReservedSymbol? { return None; }
        // Bind left to the parent if precedence is higher; if same, only a right-binding operator goes on.
        if !Continues(parent, Peek(input)) { return Some(root); }
        ghost var before := input;
        var op := input[0].op;
        input := input[1..];
        var rhs := ParseRight(op, settings, frames);
        var next := LevelUp(settings);
        if rhs == None || next == None || NodeAst(op, root, rhs.value) == None {
          NodeFails(maxDepth, parent, t, root, before, l0, level);
          return None;
        }
        NodeDone(maxDepth, parent, t, root, before, l0, level);
        t := Bin(op, t, Right(op, before[1..]).value.0);
        settings := next.value;
        root := NodeAst(op, root, rhs.value).value;
      }
    }
  }

  lemma {:induction false} NeedAtLeast(t: Tree, l0: nat, l: nat)
    ensures Need(t, l0, l) >= l0
  {
    match t
    case Paren(e) => NeedAtLeast(e, l0 + 2, l0 + 2);
    case Unary(_, e) => NeedAtLeast(e, l0 + 1, l0 + 1);
    case Bin(_, left, _) => NeedAtLeast(left, l0, l);
    case _ =>
  }

  // ---- how high an accepted expression can be ----

  function Height(t: Tree): nat {
    match t
    case Paren(e) => Height(e)
    case Unary(_, e) => 1 + Height(e)
    case Bin(op, l, r) => (if op == NotIn then 2 else 1) + Max(Height(l), Height(r))
    case _ => 1
  }

  function OperandBound(m: nat): nat {
    if m == 0 then 1 else (m - 1) * (m - 1) + 2
  }

  function SpineBound(ops: nat, m0: nat, m: nat): nat {
    2 * ops + Max(OperandBound(m0), m * m + 1)
  }

  function TreeBound(t: Tree, m0: nat, m: nat): nat {
    if t.Bin? then SpineBound(Ops(t), m0, m) else OperandBound(m0)
  }

  // With `d` levels, of which `l0` are used by the first operand and `l` by the operators.
  lemma {:induction false} HeightBound(t: Tree, next: Token, l0: nat, l: nat, d: nat)
    requires t == Missing || Valid(t, next)
    requires l0 <= l <= l0 + 1 && l <= d && Need(t, l0, l) <= d
    ensures Ops(t) <= d - l
    ensures Height(t) <= TreeBound(t, d - l0, d - l)
    decreases t, 1
  {
    hide TreeBound, Height, LeftFits, RightFits, IsUnary, IsCloser, IsRange, IsLeaf;
    match t
    case Leaf(_) => SmallBound(t, d - l0, d - l);
    case Zero => SmallBound(t, d - l0, d - l);
    case Missing => SmallBound(t, d - l0, d - l);
    case Paren(e) =>
      NeedAtLeast(e, l0 + 2, l0 + 2);
      HeightBound(e, RightParen, l0 + 2, l0 + 2, d);
      ParenStep(e, d - l0, d - l);
    case Unary(tok, e) =>
      NeedAtLeast(e, l0 + 1, l0 + 1);
      HeightBound(e, next, l0 + 1, l0 + 1, d);
      UnaryStep(tok, e, d - l0, d - l);
    case Bin(op, left, right) => HeightBoundBin(op, left, right, next, l0, l, d);
  }

  lemma {:induction false} HeightBoundBin(op: Op, left: Tree, right: Tree, next: Token, l0: nat, l: nat, d: nat)
    requires Valid(Bin(op, left, right), next)
    requires l0 <= l <= l0 + 1 && l <= d && Need(Bin(op, left, right), l0, l) <= d
    ensures Ops(left) + 1 <= d - l
    ensures Height(Bin(op, left, right)) <= TreeBound(Bin(op, left, right), d - l0, d - l)
    decreases Bin(op, left, right), 0
  {
    var k := l + Ops(left);
    NodeNeed(op, left, right, l0, l);
    hide Need, TreeBound, Height, LeftFits, RightFits;
    HeightBound(left, Op(op), l0, l, d);
    HeightBound(right, next, k, if right.Bin? then k + 1 else k, d);
    BinStep(op, left, right, d - l0, d - l, d - k);
  }

  lemma SmallBound(t: Tree, m0: nat, m: nat)
    requires t.Leaf? || t.Zero? || t.Missing?
    ensures Height(t) <= TreeBound(t, m0, m)
  {
  }

  // What an operand of m0 levels may hold: an expression two levels up ..
  lemma ParenStep(e: Tree, m0: nat, m: nat)
    requires m0 >= 2 && Ops(e) <= m0 - 2 && Height(e) <= TreeBound(e, m0 - 2, m0 - 2)
    ensures Height(Paren(e)) <= TreeBound(Paren(e), m0, m)
  {
    assert (m0 - 1) * (m0 - 1) == (m0 - 2) * (m0 - 2) + 2 * (m0 - 2) + 1;
    if m0 > 2 { assert (m0 - 2) * (m0 - 2) == (m0 - 3) * (m0 - 3) + 2 * (m0 - 3) + 1; }
  }

  // .. or a sign and an operand one level up.
  lemma UnaryStep(tok: Token, e: Tree, m0: nat, m: nat)
    requires m0 >= 1 && !e.Bin? && Height(e) <= TreeBound(e, m0 - 1, m0 - 1)
    ensures Height(Unary(tok, e)) <= TreeBound(Unary(tok, e), m0, m)
  {
    if m0 > 1 { assert (m0 - 1) * (m0 - 1) == (m0 - 2) * (m0 - 2) + 2 * (m0 - 2) + 1; }
  }

  lemma BinStep(op: Op, left: Tree, right: Tree, m0: nat, m: nat, k: nat)
    requires k == m - Ops(left) && k >= 1 && Ops(right) <= k - (if right.Bin? then 1 else 0)
    requires Height(left) <= TreeBound(left, m0, m)
    requires Height(right) <= TreeBound(right, k, if right.Bin? then k - 1 else k)
    ensures Height(Bin(op, left, right)) <= TreeBound(Bin(op, left, right), m0, m)
  {
    RightStep(k, Ops(right));
    Squares(k, m);
    hide OperandBound;
    assert Height(right) <= m * m + 1;
    assert Height(left) <= SpineBound(Ops(left), m0, m);
  }

  // A right-hand side of m levels.
  lemma RightStep(m: nat, ops: nat)
    requires m >= 1
    ensures OperandBound(m) <= m * m + 1
    ensures ops <= m - 1 ==> SpineBound(ops, m, m - 1) <= m * m + 1
  {
    assert m * m == (m - 1) * (m - 1) + 2 * (m - 1) + 1;
  }

  lemma {:induction false} Scaled(a: nat, b: nat, c: nat)
    requires a <= b
    ensures a * c <= b * c
    decreases c
  {
    if c > 0 {
      Scaled(a, b, c - 1);
      assert a * c == a * (c - 1) + a && b * c == b * (c - 1) + b;
    }
  }

  lemma Squares(a: nat, b: nat)
    requires a <= b
    ensures a * a <= b * b
  {
    Scaled(a, b, a);
    Scaled(a, b, b);
    assert b * a == a * b;
  }

  lemma TopBound(ops: nat, m: nat)
    requires ops <= m
    ensures OperandBound(m) <= (m + 1) * (m + 1)
    ensures m > 0 ==> SpineBound(ops, m, m) <= (m + 1) * (m + 1)
  {
    assert (m + 1) * (m + 1) == m * m + 2 * m + 1;
    if m > 0 { RightStep(m, 0); }
    hide OperandBound;
  }

  // The height of an expression accepted at the top level is at most the square of the depth limit.
  lemma ExpressionHeight(t: Tree, next: Token, d: nat)
    requires Valid(t, next) && Need(t, 1, 1) <= d
    ensures Height(t) <= d * d
  {
    hide Valid, Need, Height, OperandBound, SpineBound;
    NeedAtLeast(t, 1, 1);
    HeightBound(t, next, 1, 1, d);
    TopBound(Ops(t), d - 1);
  }

  function AstHeight(a: Ast): nat {
    match a
    case Fn(_, args) => 1 + AstHeights(args)
    case And(es) => 1 + AstHeights(es)
    case Or(es) => 1 + AstHeights(es)
    case Coalesce(es) => 1 + AstHeights(es)
    case _ => 1
  }

  function AstHeights(es: seq<Ast>): nat {
    if es == [] then 0 else Max(AstHeight(es[0]), AstHeights(es[1..]))
  }

  lemma {:induction false} HeightsAppend(a: seq<Ast>, b: seq<Ast>)
    ensures AstHeights(a + b) == Max(AstHeights(a), AstHeights(b))
  {
    if a == [] {
      assert a + b == b;
    } else {
      assert (a + b)[0] == a[0] && (a + b)[1..] == a[1..] + b;
      HeightsAppend(a[1..], b);
    }
  }

  lemma Singles(a: Ast, b: Ast)
    ensures AstHeights([a]) == AstHeight(a) && AstHeights([a, b]) == Max(AstHeight(a), AstHeight(b))
  {
    assert [a][1..] == [] && [a, b][1..] == [b] && [b][1..] == [];
    assert AstHeights([b]) == AstHeight(b);
  }

  // The height of a node over a flat list.
  lemma FlatHeight(op: Op, a: Ast, b: Ast)
    requires Flat(op) && NodeAst(op, a, b).Some?
    ensures var c := NodeAst(op, a, b).value; AstHeight(c) == 1 + AstHeights(Conjuncts(op, c))
  {
    hide MayBeBool, OpName, AstHeights;
  }

  lemma ConjunctsLower(op: Op, a: Ast)
    ensures AstHeights(Conjuncts(op, a)) <= AstHeight(a)
  {
    Singles(a, a);
  }

  lemma NodeHeight(op: Op, a: Ast, b: Ast)
    requires NodeAst(op, a, b).Some?
    ensures AstHeight(NodeAst(op, a, b).value) <= (if op == NotIn then 2 else 1) + Max(AstHeight(a), AstHeight(b))
  {
    hide NodeAst, AstHeight, AstHeights, Conjuncts;
    if Flat(op) {
      NodeConjuncts(op, a, b);
      FlatHeight(op, a, b);
      HeightsAppend(Conjuncts(op, a), Conjuncts(op, b));
      ConjunctsLower(op, a);
      ConjunctsLower(op, b);
    } else {
      CallHeight(op, a, b);
    }
  }

  lemma CallHeight(op: Op, a: Ast, b: Ast)
    requires !Flat(op)
    ensures NodeAst(op, a, b).Some?
    ensures AstHeight(NodeAst(op, a, b).value) <= (if op == NotIn then 2 else 1) + Max(AstHeight(a), AstHeight(b))
  {
    hide MayBeBool, OpName, AstHeights;
    Singles(a, b);
    Singles(b, a);
    Singles(Fn("contains", [b, a]), a);
  }

  lemma {:induction false} TreeHeight(t: Tree)
    requires ToAst(t).Some?
    ensures AstHeight(ToAst(t).value) <= Height(t)
  {
    match t
    case Paren(e) => TreeHeight(e);
    case Unary(_, e) =>
      TreeHeight(e);
      Singles(ToAst(e).value, ToAst(e).value);
    case Bin(op, l, r) =>
      TreeHeight(l);
      TreeHeight(r);
      NodeHeight(op, ToAst(l).value, ToAst(r).value);
    case _ =>
  }

  // Within the depth limit, the parser accepts exactly what the grammar does, and what it accepts is
  // never higher than the square of the limit.
  method Parse(tokens: seq<Token>, maxDepth: nat) returns (r: Option<(Ast, seq<Token>)>)
    ensures r.Some? <==> exists t, rest ::
      StandsFor(tokens, t, rest) && ToAst(t).Some? && (maxDepth == 0 || Need(t, 1, 1) <= maxDepth)
    ensures r.Some? ==> exists t :: StandsFor(tokens, t, r.value.1) && ToAst(t) == Some(r.value.0)
    ensures r.Some? && maxDepth > 0 ==> AstHeight(r.value.0) <= maxDepth * maxDepth
  {
    var parser := new Parser(tokens, maxDepth);
    var a := parser.ParseExpr(0, 0);
    if Expression(tokens).Some? {
      ghost var (t, rest) := Expression(tokens).value;
      Accepts(tokens, t, rest);
      if a.Some? && maxDepth > 0 {
        ExpressionHeight(t, Peek(rest), maxDepth);
        TreeHeight(t);
      }
    }
    forall t, rest | StandsFor(tokens, t, rest)
      ensures Expression(tokens) == Some((t, rest))
    {
      Accepts(tokens, t, rest);
    }
    r := if a.Some? then Some((a.value, parser.input)) else None;
  }
}
