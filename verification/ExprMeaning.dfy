// What the syntax tree of an expression means, against what its tokens mean read as a tree of
// operators: the two evaluations make the same calls with the same arguments in the same order.

module ExprMeaning {
  import opened Options
  import opened Precedence
  import opened ExprParser

  // Values of a script as far as the syntax looks at them.
  datatype Value = IntV(n: int) | BoolV(b: bool) | UnitV | Thing(id: nat)

  // What an evaluation has asked the host for.
  datatype Event = Took(tok: Token) | Operated(op: Op, x: Value, y: Value) | Called(name: string, args: seq<Value>)

  // The host answers every question, or raises an error, by all that was asked before.
  type Host = (seq<Event>, Event) -> Option<Value>

  datatype Result = Result(v: Option<Value>, trace: seq<Event>)

  function Ask(host: Host, event: Event, trace: seq<Event>): Result {
    Result(host(trace, event), trace + [event])
  }

  function Fail(trace: seq<Event>): Result {
    Result(None, trace)
  }

  // ---- the tree of operators ----

  // A literal with its signs.
  function Number(t: Tree): Option<int> {
    match t
    case Leaf(IntLit(n)) => Some(n)
    case Zero => Some(0)
    case Paren(e) => Number(e)
    case Unary(tok, e) =>
      if tok == Bang || Number(e) == None then None
      else Some(if tok == Op(Minus) || tok == UnaryMinus then -Number(e).value else Number(e).value)
    case _ => None
  }

  type Thunk = seq<Event> -> Result

  // `&&` (stop: false), `||` (stop: true)
  function ShortCircuit(stop: bool, first: Result, second: Thunk): Result {
    if first.v == None then first
    else if !first.v.value.BoolV? then Fail(first.trace)
    else if first.v.value.b == stop then first
    else
      var r := second(first.trace);
      if r.v == None || r.v.value.BoolV? then r else Fail(r.trace)
  }

  function EvalTree(host: Host, t: Tree, trace: seq<Event>): Result {
    match t
    case Leaf(tok) =>
      if tok.IntLit? then Result(Some(IntV(tok.n)), trace)
      else if tok.UnitLit? then Result(Some(UnitV), trace)
      else Ask(host, Took(tok), trace)
    case Zero => Result(Some(IntV(0)), trace)
    case Missing => Result(Some(UnitV), trace)
    case Paren(e) => EvalTree(host, e, trace)
    case Unary(tok, e) =>
      if Number(t).Some? then Result(Some(IntV(Number(t).value)), trace)
      else
        var r := EvalTree(host, e, trace);
        if r.v == None then r
        else
          var name := if tok == Bang then "!" else if tok == Op(Minus) || tok == UnaryMinus then "-" else "+";
          Ask(host, Called(name, [r.v.value]), r.trace)
    case Bin(op, l, r) =>
      // membership looks at the container on the right first
      if op == In || op == NotIn then
        var c := EvalTree(host, r, trace);
        if c.v == None then c
        else
          var x := EvalTree(host, l, c.trace);
          if x.v == None then x
          else
            var found := Ask(host, Called("contains", [c.v.value, x.v.value]), x.trace);
            if op == In || found.v == None then found
            else Ask(host, Called("!", [found.v.value]), found.trace)
      else
        var x := EvalTree(host, l, trace);
        if op == AndOp || op == OrOp then ShortCircuit(op == OrOp, x, later => EvalTree(host, r, later))
        else if x.v == None then x
        else if op == DoubleQuestion then (if x.v == Some(UnitV) then EvalTree(host, r, x.trace) else x)
        else
          var y := EvalTree(host, r, x.trace);
          if y.v == None then y
          else Ask(host, Operated(op, x.v.value, y.v.value), y.trace)
  }

  // ---- the syntax tree ----

  // The operator that a function of two arguments is called for.
  function Denotes(name: string): Option<Op> {
    match name
    case "^" => Some(XOr) case "|" => Some(Pipe) case "&" => Some(Ampersand)
    case "==" => Some(EqualsTo) case "!=" => Some(NotEqualsTo)
    case "<" => Some(LessThan) case "<=" => Some(LessThanEqualsTo)
    case ">" => Some(GreaterThan) case ">=" => Some(GreaterThanEqualsTo)
    case ".." => Some(ExclusiveRange) case "..=" => Some(InclusiveRange)
    case "+" => Some(Plus) case "-" => Some(Minus) case "*" => Some(Multiply) case "/" => Some(Divide)
    case "%" => Some(Modulo) case "**" => Some(PowerOf) case "<<" => Some(LeftShift) case ">>" => Some(RightShift)
    case _ => None
  }

  function Call(host: Host, name: string, vs: seq<Value>, trace: seq<Event>): Result {
    if |vs| == 2 && Denotes(name).Some? then Ask(host, Operated(Denotes(name).value, vs[0], vs[1]), trace)
    else Ask(host, Called(name, vs), trace)
  }

  datatype Results = Results(vs: Option<seq<Value>>, trace: seq<Event>)

  function EvalAst(host: Host, a: Ast, trace: seq<Event>): Result
    decreases a
  {
    match a
    case Int(n) => Result(Some(IntV(n)), trace)
    case Unit => Result(Some(UnitV), trace)
    case Atom(tok) => Ask(host, Took(tok), trace)
    case Fn(name, args) =>
      var rs := EvalArgs(host, args, trace);
      if rs.vs == None then Fail(rs.trace) else Call(host, name, rs.vs.value, rs.trace)
    case And(es) => EvalAll(host, false, es, trace)
    case Or(es) => EvalAll(host, true, es, trace)
    case Coalesce(es) => EvalFirst(host, es, trace)
  }

  function EvalArgs(host: Host, es: seq<Ast>, trace: seq<Event>): Results
    decreases es
  {
    if es == [] then Results(Some([]), trace)
    else
      var r := EvalAst(host, es[0], trace);
      if r.v == None then Results(None, r.trace)
      else
        var rs := EvalArgs(host, es[1..], r.trace);
        Results(if rs.vs == None then None else Some([r.v.value] + rs.vs.value), rs.trace)
  }

  // Booleans up to the first that is `stop`.
  function EvalAll(host: Host, stop: bool, es: seq<Ast>, trace: seq<Event>): Result
    decreases es
  {
    if es == [] then Result(Some(BoolV(!stop)), trace)
    else ShortCircuit(stop, EvalAst(host, es[0], trace), later => EvalAll(host, stop, es[1..], later))
  }

  // The first that is not ().
  function EvalFirst(host: Host, es: seq<Ast>, trace: seq<Event>): Result
    decreases es
  {
    if es == [] then Result(Some(UnitV), trace)
    else
      var r := EvalAst(host, es[0], trace);
      if r.v == None || r.v != Some(UnitV) then r else EvalFirst(host, es[1..], r.trace)
  }

  // ---- the two agree ----

  lemma {:induction false} AllAppend(host: Host, stop: bool, a: seq<Ast>, b: seq<Ast>, trace: seq<Event>)
    ensures EvalAll(host, stop, a + b, trace)
         == ShortCircuit(stop, EvalAll(host, stop, a, trace), later => EvalAll(host, stop, b, later))
    decreases |a|
  {
    AllBoolean(host, stop, b);
    if a == [] {
      assert a + b == b;
    } else {
      assert (a + b)[0] == a[0] && (a + b)[1..] == a[1..] + b;
      var first := EvalAst(host, a[0], trace);
      AllAppend(host, stop, a[1..], b, first.trace);
    }
  }

  // A list of conditions gives a boolean or fails.
  lemma {:induction false} AllBoolean(host: Host, stop: bool, es: seq<Ast>)
    ensures forall trace :: var r := EvalAll(host, stop, es, trace); r.v == None || r.v.value.BoolV?
    decreases |es|
  {
    if es != [] { AllBoolean(host, stop, es[1..]); }
  }

  lemma {:induction false} FirstAppend(host: Host, a: seq<Ast>, b: seq<Ast>, trace: seq<Event>)
    ensures EvalFirst(host, a + b, trace)
         == var r := EvalFirst(host, a, trace);
            if r.v == None || r.v != Some(UnitV) then r else EvalFirst(host, b, r.trace)
    decreases |a|
  {
    if a == [] {
      assert a + b == b;
    } else {
      assert (a + b)[0] == a[0] && (a + b)[1..] == a[1..] + b;
      FirstAppend(host, a[1..], b, EvalAst(host, a[0], trace).trace);
    }
  }

  function Checked(r: Result): Result {
    if r.v == None || r.v.value.BoolV? then r else Fail(r.trace)
  }

  predicate Stops(op: Op) {
    op == OrOp
  }

  // The operands an operand of `&&` or `||` brings into the list stand for it.
  lemma ConjunctsMean(host: Host, op: Op, a: Ast, trace: seq<Event>)
    requires op == AndOp || op == OrOp
    ensures EvalAll(host, Stops(op), Conjuncts(op, a), trace) == Checked(EvalAst(host, a, trace))
  {
    AllBoolean(host, Stops(op), Conjuncts(op, a));
    if Conjuncts(op, a) == [a] {
      assert [a][1..] == [];
      assert forall later :: EvalAll(host, Stops(op), [], later) == Result(Some(BoolV(!Stops(op))), later);
    }
  }

  // A list of conditions is the conjunction or disjunction of what it holds.
  lemma ListMeans(host: Host, op: Op, a: Ast, b: Ast, trace: seq<Event>)
    requires (op == AndOp || op == OrOp) && NodeAst(op, a, b).Some?
    ensures EvalAst(host, NodeAst(op, a, b).value, trace)
         == EvalAll(host, Stops(op), Conjuncts(op, NodeAst(op, a, b).value), trace)
  {
    hide EvalAll, MayBeBool;
  }

  lemma LogicalNode(host: Host, op: Op, a: Ast, b: Ast, trace: seq<Event>)
    requires (op == AndOp || op == OrOp) && NodeAst(op, a, b).Some?
    ensures EvalAst(host, NodeAst(op, a, b).value, trace)
         == ShortCircuit(Stops(op), EvalAst(host, a, trace), later => EvalAst(host, b, later))
  {
    hide NodeAst, Conjuncts, EvalAst, EvalAll, Stops;
    var first := EvalAst(host, a, trace);
    NodeConjuncts(op, a, b);
    ListMeans(host, op, a, b, trace);
    AllAppend(host, Stops(op), Conjuncts(op, a), Conjuncts(op, b), trace);
    ConjunctsMean(host, op, a, trace);
    ConjunctsMean(host, op, b, first.trace);
  }

  lemma FirstListMeans(host: Host, a: Ast, b: Ast, trace: seq<Event>)
    ensures EvalAst(host, NodeAst(DoubleQuestion, a, b).value, trace)
         == EvalFirst(host, Conjuncts(DoubleQuestion, NodeAst(DoubleQuestion, a, b).value), trace)
  {
    hide EvalFirst;
  }

  lemma CoalesceNode(host: Host, a: Ast, b: Ast, trace: seq<Event>)
    ensures EvalAst(host, NodeAst(DoubleQuestion, a, b).value, trace)
         == var r := EvalAst(host, a, trace);
            if r.v == None || r.v != Some(UnitV) then r else EvalAst(host, b, r.trace)
  {
    assert NodeAst(DoubleQuestion, a, b).Some?;
    hide NodeAst, Conjuncts, EvalAst, EvalFirst;
    NodeConjuncts(DoubleQuestion, a, b);
    FirstListMeans(host, a, b, trace);
    FirstConjuncts(host, a, trace);
    FirstConjuncts(host, b, EvalAst(host, a, trace).trace);
    FirstAppend(host, Conjuncts(DoubleQuestion, a), Conjuncts(DoubleQuestion, b), trace);
  }

  lemma FirstConjuncts(host: Host, a: Ast, trace: seq<Event>)
    ensures EvalFirst(host, Conjuncts(DoubleQuestion, a), trace) == EvalAst(host, a, trace)
  {
    if Conjuncts(DoubleQuestion, a) == [a] { assert [a][1..] == []; }
  }

  lemma OneArg(host: Host, a: Ast, trace: seq<Event>)
    ensures var r, rs := EvalAst(host, a, trace), EvalArgs(host, [a], trace);
      rs == if r.v == None then Results(None, r.trace) else Results(Some([r.v.value]), r.trace)
  {
    var r := EvalAst(host, a, trace);
    assert [a][0] == a && [a][1..] == [];
    assert EvalArgs(host, [], r.trace) == Results(Some([]), r.trace);
    if r.v.Some? { assert [r.v.value] + [] == [r.v.value]; }
  }

  lemma TwoArgs(host: Host, a: Ast, b: Ast, trace: seq<Event>)
    ensures var r, rs := EvalAst(host, a, trace), EvalArgs(host, [a, b], trace);
      rs == if r.v == None then Results(None, r.trace)
            else
              var q := EvalAst(host, b, r.trace);
              if q.v == None then Results(None, q.trace) else Results(Some([r.v.value, q.v.value]), q.trace)
  {
    var r := EvalAst(host, a, trace);
    assert [a, b][0] == a && [a, b][1..] == [b];
    OneArg(host, b, r.trace);
    var q := EvalAst(host, b, r.trace);
    if r.v.Some? && q.v.Some? { assert [r.v.value] + [q.v.value] == [r.v.value, q.v.value]; }
  }

  // A function of two arguments: both are evaluated, the first one first.
  lemma CallTwo(host: Host, name: string, a: Ast, b: Ast, trace: seq<Event>)
    ensures EvalAst(host, Fn(name, [a, b]), trace)
         == var x := EvalAst(host, a, trace);
            if x.v == None then x
            else
              var y := EvalAst(host, b, x.trace);
              if y.v == None then y else Call(host, name, [x.v.value, y.v.value], y.trace)
  {
    hide Denotes, Call, EvalArgs;
    TwoArgs(host, a, b, trace);
  }

  // An operator that is no condition.
  lemma OperatorNode(host: Host, op: Op, a: Ast, b: Ast, trace: seq<Event>)
    requires !Flat(op) && op != In && op != NotIn
    ensures EvalAst(host, NodeAst(op, a, b).value, trace)
         == var x := EvalAst(host, a, trace);
            if x.v == None then x
            else
              var y := EvalAst(host, b, x.trace);
              if y.v == None then y else Ask(host, Operated(op, x.v.value, y.v.value), y.trace)
  {
    hide Denotes, EvalAst;
    NameDenotes(op);
    CallTwo(host, OpName(op), a, b, trace);
  }

  // The name an operator is called by is the name of that operator.
  lemma NameDenotes(op: Op)
    requires !Flat(op) && op != In && op != NotIn
    ensures Denotes(OpName(op)) == Some(op)
  {
  }

  lemma MemberNode(host: Host, op: Op, a: Ast, b: Ast, trace: seq<Event>)
    requires op == In || op == NotIn
    ensures EvalAst(host, NodeAst(op, a, b).value, trace)
         == var c := EvalAst(host, b, trace);
            if c.v == None then c
            else
              var x := EvalAst(host, a, c.trace);
              if x.v == None then x
              else
                var found := Ask(host, Called("contains", [c.v.value, x.v.value]), x.trace);
                if op == In || found.v == None then found
                else Ask(host, Called("!", [found.v.value]), found.trace)
  {
    hide EvalArgs;
    CallTwo(host, "contains", b, a, trace);
    OneArg(host, Fn("contains", [b, a]), trace);
  }

  lemma {:induction false} NumberMeans(t: Tree)
    requires ToAst(t).Some?
    ensures ToAst(t).value.Int? <==> Number(t).Some?
    ensures Number(t).Some? ==> ToAst(t).value == Int(Number(t).value)
  {
    match t
    case Paren(e) => NumberMeans(e);
    case Unary(tok, e) => NumberMeans(e);
    case _ =>
  }

  lemma SignNode(host: Host, tok: Token, a: Ast, trace: seq<Event>)
    requires IsUnary(tok) && (a.Int? ==> tok == Bang)
    ensures EvalAst(host, SignAst(tok, a), trace)
         == var r := EvalAst(host, a, trace);
            if r.v == None then r
            else
              var name := if tok == Bang then "!" else if tok == Op(Minus) || tok == UnaryMinus then "-" else "+";
              Ask(host, Called(name, [r.v.value]), r.trace)
  {
    OneArg(host, a, trace);
  }

  predicate SignsOnly(t: Tree) {
    match t
    case Paren(e) => SignsOnly(e)
    case Unary(tok, e) => IsUnary(tok) && SignsOnly(e)
    case Bin(_, l, r) => SignsOnly(l) && SignsOnly(r)
    case _ => true
  }

  // Evaluating the syntax tree is evaluating the tree of operators: the same calls, in the same order.
  lemma {:induction false} AstMeans(host: Host, t: Tree, trace: seq<Event>)
    requires ToAst(t).Some? && SignsOnly(t)
    ensures EvalAst(host, ToAst(t).value, trace) == EvalTree(host, t, trace)
    decreases t
  {
    match t
    case Leaf(tok) =>
    case Zero =>
    case Missing =>
    case Paren(e) => AstMeans(host, e, trace);
    case Unary(tok, e) =>
      NumberMeans(t);
      NumberMeans(e);
      if Number(t) == None {
        AstMeans(host, e, trace);
        SignNode(host, tok, ToAst(e).value, trace);
      }
    case Bin(op, l, r) => BinMeans(host, op, l, r, trace);
  }

  // The operands of a tree mean what their nodes mean, in the order in which they are looked at.
  predicate Operands(host: Host, first: Tree, second: Tree, a: Ast, b: Ast, trace: seq<Event>) {
    && EvalAst(host, a, trace) == EvalTree(host, first, trace)
    && EvalAst(host, b, EvalTree(host, first, trace).trace) == EvalTree(host, second, EvalTree(host, first, trace).trace)
  }

  lemma MemberMeans(host: Host, op: Op, l: Tree, r: Tree, a: Ast, b: Ast, trace: seq<Event>)
    requires (op == In || op == NotIn) && Operands(host, r, l, b, a, trace)
    ensures EvalAst(host, NodeAst(op, a, b).value, trace) == EvalTree(host, Bin(op, l, r), trace)
  {
    hide NodeAst, EvalAst;
    MemberNode(host, op, a, b, trace);
  }

  lemma LogicalMeans(host: Host, op: Op, l: Tree, r: Tree, a: Ast, b: Ast, trace: seq<Event>)
    requires (op == AndOp || op == OrOp) && Operands(host, l, r, a, b, trace) && NodeAst(op, a, b).Some?
    ensures EvalAst(host, NodeAst(op, a, b).value, trace) == EvalTree(host, Bin(op, l, r), trace)
  {
    hide NodeAst, EvalAst, Number, Flat;
    LogicalNode(host, op, a, b, trace);
  }

  lemma CoalesceMeans(host: Host, op: Op, l: Tree, r: Tree, a: Ast, b: Ast, trace: seq<Event>)
    requires op == DoubleQuestion && Operands(host, l, r, a, b, trace) && NodeAst(op, a, b).Some?
    ensures EvalAst(host, NodeAst(op, a, b).value, trace) == EvalTree(host, Bin(op, l, r), trace)
  {
    hide NodeAst, EvalAst, Number, Flat;
    CoalesceNode(host, a, b, trace);
  }

  lemma OperatorMeans(host: Host, op: Op, l: Tree, r: Tree, a: Ast, b: Ast, trace: seq<Event>)
    requires op != In && op != NotIn && !Flat(op) && Operands(host, l, r, a, b, trace) && NodeAst(op, a, b).Some?
    ensures EvalAst(host, NodeAst(op, a, b).value, trace) == EvalTree(host, Bin(op, l, r), trace)
  {
    hide NodeAst, EvalAst, Number;
    OperatorNode(host, op, a, b, trace);
  }

  lemma {:induction false} BinMeans(host: Host, op: Op, l: Tree, r: Tree, trace: seq<Event>)
    requires ToAst(Bin(op, l, r)).Some? && SignsOnly(l) && SignsOnly(r)
    ensures EvalAst(host, ToAst(Bin(op, l, r)).value, trace) == EvalTree(host, Bin(op, l, r), trace)
    decreases Bin(op, l, r), 0
  {
    hide NodeAst, SignsOnly, EvalAst, EvalTree;
    var a, b := ToAst(l).value, ToAst(r).value;
    assert ToAst(Bin(op, l, r)) == NodeAst(op, a, b);
    hide ToAst;
    if op == In || op == NotIn {
      AstMeans(host, r, trace);
      AstMeans(host, l, EvalTree(host, r, trace).trace);
      MemberMeans(host, op, l, r, a, b, trace);
    } else {
      AstMeans(host, l, trace);
      AstMeans(host, r, EvalTree(host, l, trace).trace);
      if op == AndOp || op == OrOp {
        LogicalMeans(host, op, l, r, a, b, trace);
      } else if op == DoubleQuestion {
        CoalesceMeans(host, op, l, r, a, b, trace);
      } else {
        OperatorMeans(host, op, l, r, a, b, trace);
      }
    }
  }

  // ---- what is rejected ----

  function Stripped(t: Tree): Tree {
    if t.Paren? then Stripped(t.e) else t
  }

  // A number, a string or ().
  predicate NeverBool(t: Tree) {
    Number(t).Some? || Stripped(t) == Missing || (Stripped(t).Leaf? && (Stripped(t).tok.StrLit? || Stripped(t).tok.UnitLit?))
  }

  predicate Misfit(t: Tree) {
    match t
    case Paren(e) => Misfit(e)
    case Unary(_, e) => Misfit(e)
    case Bin(op, l, r) => Misfit(l) || Misfit(r) || ((op == AndOp || op == OrOp) && (NeverBool(l) || NeverBool(r)))
    case _ => false
  }

  lemma {:induction false} NeverBoolMeans(t: Tree)
    requires ToAst(t).Some?
    ensures MayBeBool(ToAst(t).value) <==> !NeverBool(t)
  {
    NumberMeans(t);
    match t
    case Paren(e) => NeverBoolMeans(e);
    case Bin(op, l, r) =>
      var a, b := ToAst(l).value, ToAst(r).value;
      assert ToAst(t) == NodeAst(op, a, b);
    case _ =>
  }

  // A tree has no node exactly if a number, a string or () is an operand of `&&` or `||`.
  lemma {:induction false} RejectedExactly(t: Tree)
    ensures ToAst(t) == None <==> Misfit(t)
  {
    match t
    case Paren(e) => RejectedExactly(e);
    case Unary(_, e) => RejectedExactly(e);
    case Bin(op, l, r) =>
      RejectedExactly(l);
      RejectedExactly(r);
      if ToAst(l).Some? && ToAst(r).Some? {
        NeverBoolMeans(l);
        NeverBoolMeans(r);
        hide MayBeBool, OpName, NeverBool;
      }
    case _ =>
  }

  lemma {:induction false} ValidSigns(t: Tree, next: Token)
    requires Valid(t, next)
    ensures SignsOnly(t)
  {
    match t
    case Paren(e) => ValidSigns(e, RightParen);
    case Unary(_, e) => ValidSigns(e, next);
    case Bin(op, l, r) =>
      ValidSigns(l, Op(op));
      if r != Missing { ValidSigns(r, next); }
    case _ =>
  }

  // An accepted expression means what its tokens mean: the tree they are the reading of.
  lemma ExpressionMeans(host: Host, ts: seq<Token>, trace: seq<Event>)
    requires Expression(ts).Some?
    ensures var (t, rest) := Expression(ts).value;
      Reading(t) + rest == ts && Valid(t, Peek(rest)) &&
      match ToAst(t)
      case Some(a) => EvalAst(host, a, trace) == EvalTree(host, t, trace)
      case None => Misfit(t)
  {
    ExpressionSound(ts);
    var (t, rest) := Expression(ts).value;
    ValidSigns(t, Peek(rest));
    RejectedExactly(t);
    if ToAst(t).Some? { AstMeans(host, t, trace); }
  }
}
