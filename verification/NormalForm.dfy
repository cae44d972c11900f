// What a tree looks like when the optimizer finds nothing more to do.

module NormalForm {
  import opened Options
  import opened Ast
  import opened Eval
  import opened Operators
  import opened Simulation
  import opened Phases

  // ---- the same tree, up to `while true` being written as an endless loop ----

  predicate EqE(e: Expr, e': Expr)
    decreases e
  {
    match e
    case Const(_) => e' == e
    case Var(_) => e' == e
    case StmtE(b) => e'.StmtE? && EqB(b, e'.b)
    case Call(f, args) => e'.Call? && e'.f == f && EqEs(args, e'.args)
    case And(es) => e'.And? && EqEs(es, e'.es)
    case Or(es) => e'.Or? && EqEs(es, e'.es)
    case Coalesce(es) => e'.Coalesce? && EqEs(es, e'.es)
    case Arr(es) => e'.Arr? && EqEs(es, e'.es)
  }

  predicate EqEs(es: seq<Expr>, es': seq<Expr>)
    decreases es
  {
    |es'| == |es| && forall i | 0 <= i < |es| :: EqE(es[i], es'[i])
  }

  predicate EqS(s: Stmt, s': Stmt)
    decreases s
  {
    match s
    case Noop => s' == s
    case ExprS(e) => s'.ExprS? && EqE(e, s'.e)
    case CallS(f, args) => s'.CallS? && s'.f == f && EqEs(args, s'.args)
    case If(c, body, branch) => s'.If? && EqE(c, s'.cond) && EqB(body, s'.body) && EqB(branch, s'.branch)
    case While(c, body) =>
      s'.While? && (EqE(c, s'.cond) || (c == Const(BoolV(true)) && s'.cond == Const(UnitV))) && EqB(body, s'.body)
    case Do(c, body, until) => s'.Do? && s'.until == until && EqE(c, s'.cond) && EqB(body, s'.body)
    case For(x, counter, it, body) =>
      s'.For? && s'.x == x && s'.counter == counter && EqE(it, s'.iter) && EqB(body, s'.body)
    case Let(x, e, isConst) => s'.Let? && s'.x == x && s'.isConst == isConst && EqE(e, s'.e)
    case Assign(x, op, e) => s'.Assign? && s'.x == x && s'.op == op && EqE(e, s'.e)
    case Block(b) => s'.Block? && EqB(b, s'.b)
    case Try(body, cv, branch) => s'.Try? && s'.catchVar == cv && EqB(body, s'.body) && EqB(branch, s'.branch)
    case Jump(isBreak, None) => s' == s
    case Jump(isBreak, Some(e)) => s'.Jump? && s'.isBreak == isBreak && s'.val.Some? && EqE(e, s'.val.value)
    case Return(None, isThrow) => s' == s
    case Return(Some(e), isThrow) => s'.Return? && s'.isThrow == isThrow && s'.val.Some? && EqE(e, s'.val.value)
  }

  predicate EqB(b: seq<Stmt>, b': seq<Stmt>)
    decreases b
  {
    |b'| == |b| && forall i | 0 <= i < |b| :: EqS(b[i], b'[i])
  }

  lemma {:induction false} EqRefl(e: Expr)
    ensures EqE(e, e)
    decreases e
  {
    match e
    case Const(_) =>
    case Var(_) =>
    case StmtE(b) => EqReflB(b);
    case Call(_, args) => EqReflEs(args);
    case And(es) => EqReflEs(es);
    case Or(es) => EqReflEs(es);
    case Coalesce(es) => EqReflEs(es);
    case Arr(es) => EqReflEs(es);
  }

  lemma {:induction false} EqReflEs(es: seq<Expr>)
    ensures EqEs(es, es)
    decreases es, 0
  {
    forall i | 0 <= i < |es|
      ensures EqE(es[i], es[i])
    {
      EqRefl(es[i]);
    }
  }

  lemma {:induction false} EqReflB(b: seq<Stmt>)
    ensures EqB(b, b)
    decreases b, 0
  {
    forall i | 0 <= i < |b|
      ensures EqS(b[i], b[i])
    {
      EqReflS(b[i]);
    }
  }

  lemma {:induction false} EqReflS(s: Stmt)
    ensures EqS(s, s)
    decreases s
  {
    match s
    case Noop =>
    case ExprS(e) => EqRefl(e);
    case CallS(_, args) => EqReflEs(args);
    case If(c, body, branch) => EqRefl(c); EqReflB(body); EqReflB(branch);
    case While(c, body) => EqRefl(c); EqReflB(body);
    case Do(c, body, _) => EqRefl(c); EqReflB(body);
    case For(_, _, it, body) => EqRefl(it); EqReflB(body);
    case Let(_, e, _) => EqRefl(e);
    case Assign(_, _, e) => EqRefl(e);
    case Block(b) => EqReflB(b);
    case Try(body, _, branch) => EqReflB(body); EqReflB(branch);
    case Jump(_, val) => if val.Some? { EqRefl(val.value); }
    case Return(val, _) => if val.Some? { EqRefl(val.value); }
  }

  // Constants are literally the same, and purity is the same.
  lemma {:induction false} EqConstant(e: Expr, e': Expr)
    requires EqE(e, e') && (IsConstant(e) || IsConstant(e'))
    ensures e' == e
    decreases e
  {
    if e.Arr? {
      forall i | 0 <= i < |e.es|
        ensures e'.es[i] == e.es[i]
      {
        assert e.es[i] in e.es && e'.es[i] in e'.es;
        EqConstant(e.es[i], e'.es[i]);
      }
    }
  }

  lemma {:induction false} EqPureE(e: Expr, e': Expr)
    requires EqE(e, e')
    ensures IsPureE(e') == IsPureE(e)
    decreases e
  {
    match e
    case Const(_) =>
    case Var(_) =>
    case StmtE(b) => EqPureB(b, e'.b);
    case Call(_, _) =>
    case And(es) => EqPureEs(es, e'.es);
    case Or(es) => EqPureEs(es, e'.es);
    case Coalesce(es) => EqPureEs(es, e'.es);
    case Arr(es) => EqPureEs(es, e'.es);
  }

  lemma {:induction false} EqPureEs(es: seq<Expr>, es': seq<Expr>)
    requires EqEs(es, es')
    ensures (forall x | x in es' :: IsPureE(x)) == (forall x | x in es :: IsPureE(x))
    decreases es, 0
  {
    forall i | 0 <= i < |es|
      ensures IsPureE(es'[i]) == IsPureE(es[i])
    {
      EqPureE(es[i], es'[i]);
    }
    AllMembers(es, es');
  }

  lemma AllMembers(es: seq<Expr>, es': seq<Expr>)
    requires |es'| == |es| && forall i | 0 <= i < |es| :: IsPureE(es'[i]) == IsPureE(es[i])
    ensures (forall x | x in es' :: IsPureE(x)) == (forall x | x in es :: IsPureE(x))
  {
    assert (forall x | x in es' :: IsPureE(x)) == (forall i | 0 <= i < |es| :: IsPureE(es'[i]));
    assert (forall x | x in es :: IsPureE(x)) == (forall i | 0 <= i < |es| :: IsPureE(es[i]));
  }

  lemma {:induction false} EqPureB(b: seq<Stmt>, b': seq<Stmt>)
    requires EqB(b, b')
    ensures (forall s | s in b' :: IsPure(s)) == (forall s | s in b :: IsPure(s))
    decreases b, 0
  {
    forall i | 0 <= i < |b|
      ensures IsPure(b'[i]) == IsPure(b[i])
    {
      EqPureS(b[i], b'[i]);
    }
    assert (forall s | s in b' :: IsPure(s)) == (forall i | 0 <= i < |b| :: IsPure(b'[i]));
    assert (forall s | s in b :: IsPure(s)) == (forall i | 0 <= i < |b| :: IsPure(b[i]));
  }

  lemma {:induction false} EqPureS(s: Stmt, s': Stmt)
    requires EqS(s, s')
    ensures IsPure(s') == IsPure(s)
    decreases s
  {
    match s
    case ExprS(e) => EqPureE(e, s'.e);
    case If(_, _, _) => EqPureIf(s, s');
    case Do(_, _, _) => EqPureDo(s, s');
    case For(_, _, it, body) => EqPureE(it, s'.iter); EqPureB(body, s'.body);
    case Block(b) => EqPureB(b, s'.b);
    case Try(_, _, _) => EqPureTry(s, s');
    case _ =>
  }

  lemma {:induction false} EqPureIf(s: Stmt, s': Stmt)
    requires EqS(s, s') && s.If?
    ensures IsPure(s') == IsPure(s)
    decreases s, 0
  {
    EqPureE(s.cond, s'.cond);
    EqPureB(s.body, s'.body);
    EqPureB(s.branch, s'.branch);
  }

  lemma {:induction false} EqPureDo(s: Stmt, s': Stmt)
    requires EqS(s, s') && s.Do?
    ensures IsPure(s') == IsPure(s)
    decreases s, 0
  {
    EqPureB(s.body, s'.body);
  }

  lemma {:induction false} EqPureTry(s: Stmt, s': Stmt)
    requires EqS(s, s') && s.Try?
    ensures IsPure(s') == IsPure(s)
    decreases s, 0
  {
    EqPureB(s.body, s'.body);
    EqPureB(s.branch, s'.branch);
  }

  // ---- normal form ----

  // What the optimizer pushes for a definition it has just rewritten to `s'`.
  function Pushed(vars: Vars, s': Stmt): Vars {
    if s'.Let? then
      vars + [(s'.x, if s'.isConst && IsConstant(s'.e) then Some(LiteralValue(s'.e)) else None)]
    else vars
  }

  // The stack in front of statement `i` of a block.
  function VarsAt(vars: Vars, b: seq<Stmt>, i: nat): Vars
    requires i <= |b|
  {
    if i == 0 then vars else Pushed(VarsAt(vars, b, i - 1), b[i - 1])
  }

  predicate Foldable(f: string, args: seq<Expr>) {
    (f == "!" && |args| == 1 && args[0].Const? && args[0].v.BoolV?) ||
    (|args| == 2 && (forall x | x in args :: IsConstant(x)) &&
     BuiltinBinary(f, LiteralValue(Arg(args, 0)), LiteralValue(Arg(args, 1))).OpValue?)
  }

  function Arg(args: seq<Expr>, i: nat): (e: Expr)
    requires i < |args|
    ensures e in args
  {
    args[i]
  }

  predicate DecidedAt(x: seq<Expr>, unit: bool, n: nat) {
    n < |x| && x[n] == Const(BoolV(!unit)) && forall y | y in x[..n] :: IsPureE(y)
  }

  // An n-ary list with nothing to fold: no neutral literal, and a deciding literal only at the end,
  // behind something that is not pure.
  predicate NormLogical(es: seq<Expr>, unit: bool) {
    |es| >= 2 && forall i | 0 <= i < |es| ::
      es[i] != Const(BoolV(unit)) && (es[i] == Const(BoolV(!unit)) ==> i == |es| - 1 && !DecidedAt(es, unit, i))
  }

  predicate NormCoalesce(es: seq<Expr>) {
    |es| >= 2 && forall i | 0 <= i < |es| :: es[i] != Const(UnitV) && (IsConstant(es[i]) ==> i == |es| - 1)
  }

  predicate OpAssignable(x: string, op: Option<string>, e: Expr) {
    op == None && e.Call? && HasOpAssignment(e.f) && |e.args| == 2 && e.args[0] == Var(x)
  }

  predicate Mergeable(body: seq<Stmt>, branch: seq<Stmt>) {
    branch == [] && |body| == 1 && body[0].If? && body[0].branch == []
  }

  predicate NormE(vars: Vars, e: Expr)
    decreases e
  {
    match e
    case Const(_) => true
    case Var(x) => FindConst(vars, x) == None
    case StmtE(b) => b != [] && !(|b| == 1 && b[0].ExprS?) && NormB(vars, b, true, true, false)
    case Call(f, args) => !Foldable(f, args) && forall x | x in args :: NormE(vars, x)
    case And(es) => NormLogical(es, true) && forall x | x in es :: NormE(vars, x)
    case Or(es) => NormLogical(es, false) && forall x | x in es :: NormE(vars, x)
    case Coalesce(es) => NormCoalesce(es) && forall x | x in es :: IsConstant(x) || NormE(vars, x)
    case Arr(es) => !IsConstant(e) && forall x | x in es :: NormE(vars, x)
  }

  // No dead code, no removable statement, no superfluous tail, and no empty inner block.
  predicate TidyBlock(b: seq<Stmt>, preserve: bool, internal: bool, reduce: bool) {
    Live(b) == b && Survivors(b, preserve, internal) == b && Trim(b, preserve, internal, reduce) == b &&
    forall s | s in b :: s != Block([])
  }

  predicate NormS(vars: Vars, s: Stmt, preserve: bool)
    decreases s
  {
    match s
    case Noop => true
    case ExprS(e) => !e.StmtE? && !e.Call? && NormE(vars, e)
    case CallS(f, args) => !Foldable(f, args) && forall x | x in args :: NormE(vars, x)
    case If(c, body, branch) =>
      !BoolLiteral(c) && !(body == [] && branch == []) && !Mergeable(body, branch) && NormE(vars, c) &&
      NormB(vars, body, preserve, true, false) && NormB(vars, branch, preserve, true, false)
    case While(c, body) => !BoolLiteral(c) && NormE(vars, c) && NormB(vars, body, false, true, false)
    case Do(c, body, _) => NormE(vars, c) && NormB(vars, body, false, true, false)
    case For(_, _, it, body) => NormE(vars, it) && NormB(vars, body, false, true, false)
    case Let(_, e, _) => NormE(vars, e)
    case Assign(x, op, e) => !OpAssignable(x, op, e) && NormE(vars, e)
    case Block(b) => b != [] && !(|b| == 1 && !IsBlockDependent(b[0])) && NormB(vars, b, preserve, true, false)
    case Try(body, _, branch) =>
      !(forall t | t in body :: IsPure(t)) &&
      NormB(vars, body, false, true, false) && NormB(vars, branch, false, true, false)
    case Jump(isBreak, None) => true
    case Jump(isBreak, Some(e)) => isBreak ==> NormE(vars, e)
    case Return(None, _) => true
    case Return(Some(e), _) => NormE(vars, e)
  }

  predicate NormB(vars: Vars, b: seq<Stmt>, preserve: bool, internal: bool, reduce: bool)
    decreases b
  {
    TidyBlock(b, preserve, internal, reduce) &&
    forall i | 0 <= i < |b| :: NormS(VarsAt(vars, b, i), b[i], preserve && i == |b| - 1)
  }

  predicate BoolLiteral(e: Expr) {
    e.Const? && e.v.BoolV?
  }
}
