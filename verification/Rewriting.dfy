// What every function of the optimizer promises about the tree it returns, and one lemma for each
// rewrite and each constructor.
//
// A rewritten tree (1) matches every checked run of the input that completes, (2) is strictly
// smaller when the dirty flag was raised, which makes the rewriting loop end, and (3) when the flag
// was not raised, is the input, with no rewrite left to do anywhere in it.

module Rewriting {
  import opened Options
  import opened Ast
  import opened Eval
  import opened Operators
  import opened Conditions
  import opened Simulation
  import opened Rules
  import opened Phases
  import opened NormalForm
  import opened Composition

  // The host, the optimizer's stack of variables, and the names that may be propagated.
  datatype Ctx = Ctx(env: Env, vars: Vars, consts: Consts)

  ghost predicate Proper(cx: Ctx) {
    !cx.env.catchSoft && VarsIn(cx.vars, cx.consts)
  }

  ghost predicate RewrittenE(cx: Ctx, was: bool, now: bool, e: Expr, r: Expr) {
    (was ==> now) && BetterE(cx.consts, e, r) && (now && !was ==> WE(r) < WE(e)) &&
    SimE(cx.env, cx.vars, e, r) && (!now ==> EqE(e, r) && NormE(cx.vars, r))
  }

  ghost predicate RewrittenEs(cx: Ctx, was: bool, now: bool, es: seq<Expr>, r: seq<Expr>) {
    |r| == |es| && (was ==> now) && BetterEs(cx.consts, es, r) && (now && !was ==> WEs(r) < WEs(es)) &&
    SimArgs(cx.env, cx.vars, es, r) && (!now ==> EqEs(es, r) && forall x | x in r :: NormE(cx.vars, x))
  }

  // A statement that decides the value of its block still does.
  ghost predicate HoldsS(consts: Consts, s: Stmt, r: Stmt) {
    forall d: Demand :: Fits(d, false, consts) && SettledS(d, s) ==> SettledS(d, r)
  }

  lemma IfHolds(consts: Consts, c: Expr, c': Expr, body: seq<Stmt>, body': seq<Stmt>, branch: seq<Stmt>, branch': seq<Stmt>)
    requires HoldsB(consts, false, body, body') && HoldsB(consts, false, branch, branch')
    requires EffectsE(c') <= EffectsE(c) && EffectsB(body') <= EffectsB(body) && EffectsB(branch') <= EffectsB(branch)
    ensures HoldsS(consts, If(c, body, branch), If(c', body', branch'))
  {
    var s, r := If(c, body, branch), If(c', body', branch');
    forall d: Demand | Fits(d, false, consts) && SettledS(d, s)
      ensures SettledS(d, r)
    {
      assert SettledB(d, body) && SettledB(d, branch);
    }
  }

  lemma DecidedHolds(consts: Consts, c: bool, body: seq<Stmt>, branch: seq<Stmt>, r: seq<Stmt>)
    requires HoldsB(consts, false, if c then body else branch, r)
    ensures HoldsS(consts, If(Const(BoolV(c)), body, branch), if r == [] then Noop else Block(r))
  {
    var s := If(Const(BoolV(c)), body, branch);
    forall d: Demand | Fits(d, false, consts) && SettledS(d, s)
      ensures SettledB(d, r)
    {
      if c { assert SettledB(d, body); } else { assert SettledB(d, branch); }
    }
  }

  lemma BlockHolds(consts: Consts, b: seq<Stmt>, r: seq<Stmt>)
    requires HoldsB(consts, false, b, r)
    ensures HoldsS(consts, Block(b), if r == [] then Noop else Block(r))
    ensures HoldsS(consts, ExprS(StmtE(b)), Block(r))
    ensures |r| == 1 ==> HoldsS(consts, Block(b), r[0])
  {
    forall d: Demand | Fits(d, false, consts) && SettledS(d, Block(b))
      ensures SettledB(d, r)
    {
      assert SettledB(d, b);
    }
    forall d: Demand | Fits(d, false, consts) && SettledS(d, ExprS(StmtE(b)))
      ensures SettledB(d, r)
    {
      assert SettledE(d, StmtE(b));
      assert SettledB(d, b);
    }
    if |r| == 1 {
      assert r == [r[0]];
      SingleStmt(r[0]);
    }
  }

  lemma ExprHolds(consts: Consts, flag: bool, e: Expr, e': Expr)
    requires HoldsE(consts, e, e') && EffectsE(e') <= EffectsE(e)
    ensures HoldsS(consts, ExprS(e), ExprS(e'))
    ensures HoldsS(consts, Return(Some(e), flag), Return(Some(e'), flag))
    ensures HoldsS(consts, Jump(flag, Some(e)), Jump(flag, Some(e')))
  {
    var s, r := Return(Some(e), flag), Return(Some(e'), flag);
    forall d: Demand | Fits(d, false, consts)
      ensures SettledS(d, ExprS(e)) ==> SettledS(d, ExprS(e'))
      ensures SettledS(d, s) ==> SettledS(d, r)
    {
      assert SettledE(d, e) ==> SettledE(d, e');
    }
  }

  // The value of a statement is only promised where the optimizer is right about it.
  predicate KeepsValue(preserve: bool, s: Stmt) {
    preserve && (TightS(s) || s == Block([]) || Settles(Held(false), s))
  }

  ghost predicate RewrittenS(cx: Ctx, was: bool, now: bool, preserve: bool, s: Stmt, r: Stmt) {
    (was ==> now) && BetterS(cx.consts, s, r) && (now && !was ==> WS(r) < WS(s)) &&
    SimS(cx.env, cx.vars, KeepsValue(preserve, s), s, r) && (r.Let? <==> s.Let?) &&
    (preserve ==> HoldsS(cx.consts, s, r)) &&
    (!now ==> EqS(s, r) && NormS(cx.vars, r, preserve) && r != Block([]))
  }

  ghost predicate RewrittenLet(cx: Ctx, s: Stmt, r: Stmt) {
    s.Let? ==> r.Let? && r.x == s.x && r.isConst == s.isConst && SimE(cx.env, cx.vars, s.e, r.e)
  }

  ghost predicate RewrittenB(cx: Ctx, was: bool, now: bool, preserve: bool, internal: bool, reduce: bool,
                             b: seq<Stmt>, r: seq<Stmt>)
  {
    (was ==> now) && BetterB(cx.consts, b, r) && (now && !was ==> WB(r) < WB(b)) &&
    (TightB(b) ==> TightB(r)) && (preserve ==> HoldsB(cx.consts, reduce, b, r)) &&
    SimB(cx.env, cx.vars, internal, reduce, preserve && ValueB(reduce, b), b, r) &&
    NormB(cx.vars, r, preserve, internal, reduce) && (!now ==> EqB(b, r) && Flatten(b) == b)
  }

  lemma SizeE(consts: Consts, e: Expr, r: Expr)
    requires BetterE(consts, e, r)
    ensures SmallerE(consts, e, r) && WE(r) <= WE(e)
  {
  }

  lemma EffectsOfE(consts: Consts, e: Expr, r: Expr)
    requires BetterE(consts, e, r)
    ensures EffectsE(r) <= EffectsE(e) && HoldsE(consts, e, r)
  {
  }

  lemma FewerEffects(consts: Consts, b: seq<Stmt>, r: seq<Stmt>)
    requires BetterB(consts, b, r)
    ensures EffectsB(r) <= EffectsB(b)
  {
  }

  lemma SizeB(consts: Consts, b: seq<Stmt>, r: seq<Stmt>)
    requires BetterB(consts, b, r)
    ensures WB(r) <= WB(b)
  {
  }

  // ---- what the methods may read off ----

  lemma SmallE(cx: Ctx, was: bool, now: bool, e: Expr, r: Expr)
    requires RewrittenE(cx, was, now, e, r)
    ensures WE(r) <= WE(e) && GoodE(cx.consts, r) && (was ==> now)
    ensures !now ==> EqE(e, r)
  {
  }

  lemma SmallB(cx: Ctx, was: bool, now: bool, preserve: bool, internal: bool, reduce: bool,
               b: seq<Stmt>, r: seq<Stmt>)
    requires RewrittenB(cx, was, now, preserve, internal, reduce, b, r)
    ensures was ==> now
  {
  }

  // ---- expressions ----

  lemma KeepConst(cx: Ctx, now: bool, v: Val)
    ensures RewrittenE(cx, now, now, Const(v), Const(v))
  {
  }

  lemma KeepVar(cx: Ctx, now: bool, x: string)
    requires FindConst(cx.vars, x) == None
    ensures RewrittenE(cx, now, now, Var(x), Var(x))
  {
  }

  // the name of a constant
  lemma PropagateVar(cx: Ctx, was: bool, x: string, v: Val)
    requires Proper(cx) && FindConst(cx.vars, x) == Some(v)
    ensures RewrittenE(cx, was, true, Var(x), Const(v))
  {
    PropagateSim(cx.env, cx.vars, x);
  }

  lemma FoldArr(cx: Ctx, was: bool, es: seq<Expr>)
    requires IsConstant(Arr(es))
    ensures RewrittenE(cx, was, true, Arr(es), Const(LiteralValue(Arr(es))))
  {
    ConstantSim(cx.env, cx.vars, Arr(es));
  }

  lemma ConstantAll(es: seq<Expr>, r: seq<Expr>)
    requires EqEs(es, r)
    ensures (forall x | x in r :: IsConstant(x)) ==> r == es
    ensures (forall x | x in es :: IsConstant(x)) ==> r == es
  {
    forall i | 0 <= i < |es|
      ensures IsConstant(es[i]) || IsConstant(r[i]) ==> r[i] == es[i]
    {
      if IsConstant(es[i]) || IsConstant(r[i]) { EqConstant(es[i], r[i]); }
    }
    if forall x | x in r :: IsConstant(x) { assert forall i | 0 <= i < |es| :: r[i] in r; }
    if forall x | x in es :: IsConstant(x) { assert forall i | 0 <= i < |es| :: es[i] in es; }
  }

  lemma RebuildArr(cx: Ctx, was: bool, now: bool, es: seq<Expr>, r: seq<Expr>)
    requires !IsConstant(Arr(es)) && RewrittenEs(cx, was, now, es, r)
    ensures RewrittenE(cx, was, now, Arr(es), Arr(r))
  {
    ArrCongruence(cx.env, cx.vars, es, r);
    BetterArr(cx.consts, es, r);
    if !now { ConstantAll(es, r); }
  }

  lemma FoldNot(cx: Ctx, was: bool, b: bool)
    ensures RewrittenE(cx, was, true, Call("!", [Const(BoolV(b))]), Const(BoolV(!b)))
  {
    FoldNotSim(cx.env, cx.vars, b);
  }

  lemma FoldBinary(cx: Ctx, was: bool, f: string, a: Expr, b: Expr, v: Val)
    requires IsConstant(a) && IsConstant(b) && BuiltinBinary(f, LiteralValue(a), LiteralValue(b)) == OpValue(v)
    ensures RewrittenE(cx, was, true, Call(f, [a, b]), Const(v))
  {
    FoldBinarySim(cx.env, cx.vars, f, a, b, v);
  }

  lemma FoldableKept(f: string, es: seq<Expr>, r: seq<Expr>)
    requires EqEs(es, r)
    ensures Foldable(f, r) == Foldable(f, es)
  {
    ConstantAll(es, r);
    if |es| == 1 { assert EqE(es[0], r[0]); }
  }

  lemma RebuildCall(cx: Ctx, was: bool, now: bool, f: string, es: seq<Expr>, r: seq<Expr>)
    requires !Foldable(f, es) && RewrittenEs(cx, was, now, es, r)
    ensures RewrittenE(cx, was, now, Call(f, es), Call(f, r))
  {
    CallCongruence(cx.env, cx.vars, f, es, r);
    BetterCall(cx.consts, f, es, r);
    if !now { FoldableKept(f, es, r); }
  }

  // ---- arguments, one after the other ----

  ghost predicate ArgsAt(cx: Ctx, was: bool, now: bool, es: seq<Expr>, r: seq<Expr>, i: nat) {
    i <= |r| == |es| && (was ==> now) && BetterEs(cx.consts, es, r) && (now && !was ==> WEs(r) < WEs(es)) &&
    (forall j | 0 <= j < i :: SimE(cx.env, cx.vars, es[j], r[j])) &&
    (forall j | i <= j < |r| :: r[j] == es[j]) &&
    (!now ==> forall j | 0 <= j < i :: EqE(es[j], r[j]) && NormE(cx.vars, r[j]))
  }

  lemma ArgsStart(cx: Ctx, was: bool, es: seq<Expr>)
    requires forall x | x in es :: GoodE(cx.consts, x)
    ensures ArgsAt(cx, was, was, es, es, 0)
  {
  }

  lemma ArgsGood(cx: Ctx, was: bool, now: bool, es: seq<Expr>, r: seq<Expr>, i: nat)
    requires ArgsAt(cx, was, now, es, r, i) && i < |r|
    ensures GoodE(cx.consts, r[i]) && WE(r[i]) <= WEs(es)
  {
    assert r[i] in r;
    EsSplit(r, i);
  }

  lemma ArgsNext(cx: Ctx, was: bool, now: bool, now': bool, es: seq<Expr>, r: seq<Expr>, i: nat, e': Expr)
    requires ArgsAt(cx, was, now, es, r, i) && i < |r| && RewrittenE(cx, now, now', r[i], e')
    ensures ArgsAt(cx, was, now', es, r[i := e'], i + 1)
  {
    hide SimE, EqE, NormE, GoodE, PlainBreaksE, EffectsE;
    ReplaceOperand(cx.consts, r, i, e');
    BetterEsTrans(cx.consts, es, r, r[i := e']);
  }

  lemma ArgsFinish(cx: Ctx, was: bool, now: bool, es: seq<Expr>, r: seq<Expr>)
    requires ArgsAt(cx, was, now, es, r, |r|)
    ensures RewrittenEs(cx, was, now, es, r)
  {
    ArgsCongruence(cx.env, cx.vars, es, r);
  }

  // ---- && and || ----

  function Logical(unit: bool, es: seq<Expr>): Expr {
    if unit then And(es) else Or(es)
  }

  ghost predicate AllAt(cx: Ctx, unit: bool, was: bool, now: bool, es: seq<Expr>, x: seq<Expr>, n: nat) {
    n <= |x| && (was ==> now) && AllInv(cx.env, cx.vars, cx.consts, unit, es, x) &&
    (now && !was ==> WEs(x) < WEs(es)) &&
    (!now ==> |x| == |es|) && (!now ==> forall j | n <= j < |x| :: x[j] == es[j]) &&
    (!now ==> forall j | 0 <= j < n :: EqE(es[j], x[j]) && NormE(cx.vars, x[j]) && !BoolLiteral(x[j]))
  }

  lemma AllStart(cx: Ctx, unit: bool, was: bool, es: seq<Expr>)
    requires forall x | x in es :: GoodE(cx.consts, x)
    ensures AllAt(cx, unit, was, was, es, es, 0)
  {
  }

  lemma AllSize(cx: Ctx, unit: bool, was: bool, now: bool, es: seq<Expr>, x: seq<Expr>, n: nat)
    requires AllAt(cx, unit, was, now, es, x, n) && n < |x|
    ensures GoodE(cx.consts, x[n]) && WE(x[n]) <= WEs(es)
  {
    ListGood(cx.consts, es, x, n);
  }

  lemma AllDrop(cx: Ctx, unit: bool, was: bool, now: bool, es: seq<Expr>, x: seq<Expr>, n: nat)
    requires AllAt(cx, unit, was, now, es, x, n) && n < |x| && x[n] == Const(BoolV(unit))
    ensures AllAt(cx, unit, was, true, es, x[..n] + x[n + 1..], n)
    ensures WEs(x[..n] + x[n + 1..]) < WEs(x)
  {
    AllRemoveStep(cx.env, cx.vars, cx.consts, unit, es, x, n);
  }

  lemma AllCut(cx: Ctx, unit: bool, was: bool, now: bool, es: seq<Expr>, x: seq<Expr>, n: nat)
    requires AllAt(cx, unit, was, now, es, x, n) && n + 1 < |x| && x[n] == Const(BoolV(!unit))
    ensures AllAt(cx, unit, was, true, es, x[..n + 1], n)
    ensures DecidedAt(x, unit, n) == DecidedAt(x[..n + 1], unit, n)
  {
    AllTruncateStep(cx.env, cx.vars, cx.consts, unit, es, x, n);
    assert x[..n + 1][..n] == x[..n];
  }

  lemma AllNext(cx: Ctx, unit: bool, was: bool, now: bool, now': bool, es: seq<Expr>, x: seq<Expr>, n: nat, e': Expr)
    requires AllAt(cx, unit, was, now, es, x, n) && n < |x| && !BoolLiteral(x[n])
    requires RewrittenE(cx, now, now', x[n], e')
    ensures AllAt(cx, unit, was, now', es, x[n := e'], n + 1)
    ensures WEs(x[n := e']) <= WEs(x)
  {
    hide SimE, EqE, NormE;
    AllReplaceStep(cx.env, cx.vars, cx.consts, unit, es, x, n, e');
    hide AllInv;
    if !now' && BoolLiteral(e') { EqConstant(x[n], e'); }
  }

  // The loop stops at the end of the list, or on a deciding literal that is now the last operand.
  predicate AllEnd(unit: bool, x: seq<Expr>, n: nat, decided: bool) {
    n <= |x| && (n < |x| ==> n == |x| - 1 && x[n] == Const(BoolV(!unit))) && decided == DecidedAt(x, unit, n)
  }

  function AllResult(unit: bool, x: seq<Expr>, decided: bool): Expr {
    if decided then Const(BoolV(!unit))
    else if x == [] then Const(BoolV(unit))
    else if |x| == 1 then x[0]
    else Logical(unit, x)
  }

  lemma AllDone(cx: Ctx, unit: bool, was: bool, now: bool, es: seq<Expr>, x: seq<Expr>, n: nat, decided: bool)
    requires Proper(cx) && AllAt(cx, unit, was, now, es, x, n) && AllEnd(unit, x, n, decided)
    ensures var r := AllResult(unit, x, decided);
      RewrittenE(cx, was, now || decided || |x| <= 1, Logical(unit, es), r)
  {
    var r := AllResult(unit, x, decided);
    if |x| == 1 { assert x == [x[0]]; }
    AllFinish(cx.env, cx.vars, cx.consts, unit, es, x, r);
    if !(now || decided || |x| <= 1) { AllNorm(cx, unit, was, es, x, n); }
  }

  lemma AllNorm(cx: Ctx, unit: bool, was: bool, es: seq<Expr>, x: seq<Expr>, n: nat)
    requires AllAt(cx, unit, was, false, es, x, n) && AllEnd(unit, x, n, false) && |x| >= 2
    ensures EqEs(es, x) && NormLogical(x, unit) && forall y | y in x :: NormE(cx.vars, y)
  {
    hide AllInv, EqE, NormE;
    forall i | 0 <= i < |x|
      ensures EqE(es[i], x[i]) && NormE(cx.vars, x[i])
      ensures i == n || !BoolLiteral(x[i])
    {
      if i == n {
        EqRefl(x[i]);
        ConstNorm(cx.vars, x[i].v);
      }
    }
  }

  lemma ConstNorm(vars: Vars, v: Val)
    ensures NormE(vars, Const(v))
  {
  }

  // ---- ?? ----

  ghost predicate FirstAt(cx: Ctx, was: bool, now: bool, es: seq<Expr>, x: seq<Expr>, n: nat) {
    n <= |x| && (was ==> now) && FirstInv(cx.env, cx.vars, cx.consts, es, x) &&
    (now && !was ==> WEs(x) < WEs(es)) &&
    (!now ==> |x| == |es|) && (!now ==> forall j | n <= j < |x| :: x[j] == es[j]) &&
    (!now ==> forall j | 0 <= j < n :: EqE(es[j], x[j]) && NormE(cx.vars, x[j]) && !IsConstant(x[j]))
  }

  lemma FirstStart(cx: Ctx, was: bool, es: seq<Expr>)
    requires forall x | x in es :: GoodE(cx.consts, x)
    ensures FirstAt(cx, was, was, es, es, 0)
  {
  }

  lemma FirstSize(cx: Ctx, was: bool, now: bool, es: seq<Expr>, x: seq<Expr>, n: nat)
    requires FirstAt(cx, was, now, es, x, n) && n < |x|
    ensures GoodE(cx.consts, x[n]) && WE(x[n]) <= WEs(es)
  {
    ListGood(cx.consts, es, x, n);
  }

  lemma FirstDrop(cx: Ctx, was: bool, now: bool, es: seq<Expr>, x: seq<Expr>, n: nat)
    requires FirstAt(cx, was, now, es, x, n) && n < |x| && x[n] == Const(UnitV)
    ensures FirstAt(cx, was, true, es, x[..n] + x[n + 1..], n)
    ensures WEs(x[..n] + x[n + 1..]) < WEs(x)
  {
    FirstRemoveStep(cx.env, cx.vars, cx.consts, es, x, n);
  }

  lemma FirstCut(cx: Ctx, was: bool, now: bool, es: seq<Expr>, x: seq<Expr>, n: nat)
    requires FirstAt(cx, was, now, es, x, n) && n + 1 < |x| && IsConstant(x[n]) && x[n] != Const(UnitV)
    ensures FirstAt(cx, was, true, es, x[..n + 1], n)
  {
    FirstTruncateStep(cx.env, cx.vars, cx.consts, es, x, n);
  }

  lemma FirstNext(cx: Ctx, was: bool, now: bool, now': bool, es: seq<Expr>, x: seq<Expr>, n: nat, e': Expr)
    requires FirstAt(cx, was, now, es, x, n) && n < |x| && !IsConstant(x[n])
    requires RewrittenE(cx, now, now', x[n], e')
    ensures FirstAt(cx, was, now', es, x[n := e'], n + 1)
    ensures WEs(x[n := e']) <= WEs(x)
  {
    hide SimE, EqE, NormE;
    FirstReplaceStep(cx.env, cx.vars, cx.consts, es, x, n, e');
    hide FirstInv;
    if !now' && IsConstant(e') { EqConstant(x[n], e'); }
  }

  // The loop stops at the end of the list, or on a literal that is now the last operand.
  predicate FirstEnd(x: seq<Expr>, n: nat) {
    n <= |x| && (n < |x| ==> n == |x| - 1 && IsConstant(x[n]) && x[n] != Const(UnitV))
  }

  function FirstResult(x: seq<Expr>): Expr {
    if x == [] then Const(BoolV(false)) else if |x| == 1 then x[0] else Coalesce(x)
  }

  lemma FirstDone(cx: Ctx, was: bool, now: bool, es: seq<Expr>, x: seq<Expr>, n: nat)
    requires Proper(cx) && FirstAt(cx, was, now, es, x, n) && FirstEnd(x, n)
    ensures SettlesE(Firm(cx.consts), Coalesce(es)) ==>
      RewrittenE(cx, was, now || |x| <= 1, Coalesce(es), FirstResult(x))
  {
    var r := FirstResult(x);
    if |x| == 1 { assert x == [x[0]]; }
    FirstFinish(cx.env, cx.vars, cx.consts, es, x, r);
    if !(now || |x| <= 1) { FirstNorm(cx, was, es, x, n); }
  }

  lemma FirstNorm(cx: Ctx, was: bool, es: seq<Expr>, x: seq<Expr>, n: nat)
    requires FirstAt(cx, was, false, es, x, n) && FirstEnd(x, n) && |x| >= 2
    ensures EqEs(es, x) && NormCoalesce(x) && forall y | y in x :: IsConstant(y) || NormE(cx.vars, y)
  {
    if n < |x| { EqRefl(x[n]); }
  }

  // ---- { stmt; ... } as an expression ----

  lemma FoldEmptyBlockExpr(cx: Ctx, was: bool)
    ensures RewrittenE(cx, was, true, StmtE([]), Const(UnitV))
  {
    BlockExprSim(cx.env, cx.vars, Const(UnitV));
  }

  lemma UnwrapBlockExpr(cx: Ctx, was: bool, e: Expr, r: Expr)
    requires GoodE(cx.consts, StmtE([ExprS(e)])) && RewrittenE(cx, true, true, e, r)
    ensures RewrittenE(cx, was, true, StmtE([ExprS(e)]), r)
  {
    var b := [ExprS(e)];
    SingleStmt(b[0]);
    BlockExprSim(cx.env, cx.vars, e);
    SimETrans(cx.env, cx.vars, StmtE(b), e, r);
    BetterUnwrap(cx.consts, b, e, r);
  }

  lemma SingleGood(cx: Ctx, b: seq<Stmt>)
    requires GoodE(cx.consts, StmtE(b)) && |b| == 1 && b[0].ExprS?
    ensures b == [ExprS(b[0].e)] && GoodE(cx.consts, b[0].e) && WE(b[0].e) < WB(b)
  {
    assert b == [ExprS(b[0].e)] && b[0] in b;
    SingleStmt(b[0]);
  }

  lemma PromoteBlockExpr(cx: Ctx, was: bool, now: bool, b: seq<Stmt>, e: Expr)
    requires GoodE(cx.consts, StmtE(b)) && RewrittenB(cx, was, now, true, true, false, b, [ExprS(e)])
    ensures RewrittenE(cx, was, true, StmtE(b), e)
  {
    var b' := [ExprS(e)];
    assert b'[0] in b' && GoodS(cx.consts, b'[0]);
    StmtECongruence(cx.env, cx.vars, b, b');
    BetterUnwrap(cx.consts, b, e, e);
    BlockExprSim(cx.env, cx.vars, e);
    SimETrans(cx.env, cx.vars, StmtE(b), StmtE(b'), e);
  }

  lemma RebuildBlockExpr(cx: Ctx, was: bool, now: bool, b: seq<Stmt>, r: seq<Stmt>)
    requires GoodE(cx.consts, StmtE(b)) && RewrittenB(cx, was, now, true, true, false, b, r)
    requires b != [] && !(|b| == 1 && b[0].ExprS?)
    ensures RewrittenE(cx, was, now, StmtE(b), StmtE(r))
  {
    StmtECongruence(cx.env, cx.vars, b, r);
    BetterBlockExpr(cx.consts, b, r);
    if !now { assert EqS(b[0], r[0]); }
  }

  // ---- statements ----

  // an `if` with nothing to run
  lemma EmptyIf(cx: Ctx, was: bool, preserve: bool, c: Expr, c': Expr)
    requires Proper(cx) && RewrittenE(cx, true, true, c, c')
    ensures RewrittenS(cx, was, true, preserve, If(c, [], []),
      if preserve then Block([ExprS(c'), Noop]) else ExprS(c'))
  {
    var s, m := If(c, [], []), If(c', [], []);
    var r := if preserve then Block([ExprS(c'), Noop]) else ExprS(c');
    IfEmptySim(cx.env, cx.vars, c');
    IfCongruence(cx.env, cx.vars, true, c, c', [], [], [], []);
    TwoStmts(c');
    BetterExprStmt(cx.consts, c, c');
    SimSWeaken(cx.env, cx.vars, true, preserve, s, m);
    SimSTrans(cx.env, cx.vars, preserve, s, m, r);
  }

  lemma FalseIf(cx: Ctx, was: bool, preserve: bool, body: seq<Stmt>)
    ensures RewrittenS(cx, was, true, preserve, If(Const(BoolV(false)), body, []), Noop)
  {
    IfFalseNoop(cx.env, cx.vars, body);
  }

  lemma BetterDecided(consts: Consts, c: bool, body: seq<Stmt>, branch: seq<Stmt>, r: seq<Stmt>)
    requires BetterB(consts, if c then body else branch, r)
    requires TightB(if c then body else branch) ==> TightB(r)
    ensures BetterS(consts, If(Const(BoolV(c)), body, branch), if r == [] then Noop else Block(r))
    ensures WB(r) <= WB(if c then body else branch)
  {
  }

  lemma DecidedIf(cx: Ctx, was: bool, preserve: bool, c: bool, body: seq<Stmt>, branch: seq<Stmt>, r: seq<Stmt>)
    requires RewrittenB(cx, true, true, preserve, true, false, if c then body else branch, r)
    ensures RewrittenS(cx, was, true, preserve, If(Const(BoolV(c)), body, branch), if r == [] then Noop else Block(r))
  {
    hide SimB, SimS, BetterB, BetterS, EqB, NormB, GoodE;
    BetterDecided(cx.consts, c, body, branch, r);
    if preserve { DecidedHolds(cx.consts, c, body, branch, r); }
    hide HoldsB, HoldsS;
    var s := If(Const(BoolV(c)), body, branch);
    var chosen := if c then body else branch;
    var keep := KeepsValue(preserve, s);
    IfConstSim(cx.env, cx.vars, c, body, branch);
    SimBWeaken(cx.env, cx.vars, true, false, preserve && ValueB(false, chosen), keep, chosen, r);
    BlockCongruence(cx.env, cx.vars, keep, chosen, r);
    SimSWeaken(cx.env, cx.vars, true, keep, s, Block(chosen));
    SimSTrans(cx.env, cx.vars, keep, s, Block(chosen), Block(r));
    if r == [] {
      EmptyBlockSim(cx.env, cx.vars);
      SimSWeaken(cx.env, cx.vars, true, keep, Block([]), Noop);
      SimSTrans(cx.env, cx.vars, keep, s, Block([]), Noop);
    }
  }

  lemma RebuildIf(cx: Ctx, was: bool, n1: bool, n2: bool, n3: bool, preserve: bool, c: Expr, c': Expr,
                  body: seq<Stmt>, body': seq<Stmt>, branch: seq<Stmt>, branch': seq<Stmt>)
    requires Proper(cx) && !BoolLiteral(c) && !(body == [] && branch == []) && !Mergeable(body, branch)
    requires RewrittenE(cx, was, n1, c, c')
    requires RewrittenB(cx, n1, n2, preserve, true, false, body, body')
    requires RewrittenB(cx, n2, n3, preserve, true, false, branch, branch')
    ensures RewrittenS(cx, was, n3, preserve, If(c, body, branch), If(c', body', branch'))
  {
    hide SimE, SimB, SimS, BetterE, SmallerE, BetterB, BetterS, EqE, EqB, NormE, NormB, GoodS, TightB;
    SizeE(cx.consts, c, c');
    SizeB(cx.consts, body, body');
    SizeB(cx.consts, branch, branch');
    var keep := KeepsValue(preserve, If(c, body, branch));
    SimBWeaken(cx.env, cx.vars, true, false, preserve && ValueB(false, body), keep, body, body');
    SimBWeaken(cx.env, cx.vars, true, false, preserve && ValueB(false, branch), keep, branch, branch');
    IfCongruence(cx.env, cx.vars, keep, c, c', body, body', branch, branch');
    BetterIf(cx.consts, c, c', body, body', branch, branch');
    if preserve {
      SizeE(cx.consts, c, c');
      FewerEffects(cx.consts, body, body');
      FewerEffects(cx.consts, branch, branch');
      EffectsOfE(cx.consts, c, c');
      IfHolds(cx.consts, c, c', body, body', branch, branch');
    }
    if !n3 { CleanIf(cx.vars, preserve, c, c', body, body', branch, branch'); }
  }

  lemma CleanIf(vars: Vars, preserve: bool, c: Expr, c': Expr,
                body: seq<Stmt>, body': seq<Stmt>, branch: seq<Stmt>, branch': seq<Stmt>)
    requires !BoolLiteral(c) && !(body == [] && branch == []) && !Mergeable(body, branch)
    requires EqE(c, c') && EqB(body, body') && EqB(branch, branch') && NormE(vars, c')
    requires NormB(vars, body', preserve, true, false) && NormB(vars, branch', preserve, true, false)
    ensures EqS(If(c, body, branch), If(c', body', branch')) && NormS(vars, If(c', body', branch'), preserve)
  {
    MergeableKept(body, body', branch, branch');
    hide NormB, EqB, EqE, NormE, Mergeable;
  }

  lemma MergeableKept(body: seq<Stmt>, body': seq<Stmt>, branch: seq<Stmt>, branch': seq<Stmt>)
    requires EqB(body, body') && EqB(branch, branch')
    ensures Mergeable(body', branch') == Mergeable(body, branch)
    ensures body' == [] <==> body == []
    ensures branch' == [] <==> branch == []
  {
    if |body| == 1 {
      assert EqS(body[0], body'[0]);
      if body[0].If? { assert EqB(body[0].branch, body'[0].branch); }
    }
  }

  lemma OpAssignableKept(x: string, op: Option<string>, e: Expr, e': Expr)
    requires EqE(e, e')
    ensures OpAssignable(x, op, e') == OpAssignable(x, op, e)
  {
    if e.Call? && |e.args| == 2 {
      assert EqEs(e.args, e'.args);
      assert EqE(e.args[0], e'.args[0]);
    }
  }

  // if expr1 { if expr2 { .. } } -> if expr1 && expr2 { .. }
  lemma MergeIf(cx: Ctx, was: bool, preserve: bool, c: Expr, c': Expr, d: Expr, d': Expr,
                body: seq<Stmt>, body': seq<Stmt>)
    requires Proper(cx) && GoodE(cx.consts, c) && GoodE(cx.consts, d)
    requires RewrittenE(cx, true, true, c, c') && RewrittenE(cx, true, true, d, d')
    requires RewrittenB(cx, true, true, preserve, true, false, body, body')
    ensures RewrittenS(cx, was, true, preserve, If(c, [If(d, body, [])], []), If(And(Guards(c, c', d')), body', []))
  {
    NestedIfRewrite(cx.env, cx.vars, cx.consts, c, c', d, d', body, body', preserve);
  }

  lemma MergeableParts(cx: Ctx, c: Expr, body: seq<Stmt>)
    requires Mergeable(body, []) && GoodS(cx.consts, If(c, body, []))
    ensures body == [If(body[0].cond, body[0].body, [])]
    ensures GoodE(cx.consts, body[0].cond) && GoodB(cx.consts, body[0].body)
    ensures WE(body[0].cond) + WB(body[0].body) < WB(body)
  {
    assert body == [body[0]] && body[0] in body && GoodS(cx.consts, body[0]);
    SingleStmt(body[0]);
  }

  lemma SameGuard(cx: Ctx, c: Expr)
    requires GoodE(cx.consts, c)
    ensures RewrittenE(cx, true, true, c, c)
  {
  }

  // while
  lemma FalseWhile(cx: Ctx, was: bool, preserve: bool, body: seq<Stmt>)
    ensures RewrittenS(cx, was, true, preserve, While(Const(BoolV(false)), body), Noop)
  {
    WhileFalseSim(cx.env, cx.vars, body);
  }

  // The guard of an endless loop is written ().
  function LoopGuard(c: Expr): Expr {
    if c == Const(BoolV(true)) then Const(UnitV) else c
  }

  lemma GuardSmaller(consts: Consts, c: Expr, c': Expr)
    requires BetterE(consts, c, c')
    ensures SmallerE(consts, c, LoopGuard(c')) && WE(LoopGuard(c')) <= WE(c') <= WE(c)
  {
  }

  lemma RebuildWhile(cx: Ctx, was: bool, n1: bool, n2: bool, preserve: bool, c: Expr, c': Expr,
                     body: seq<Stmt>, body': seq<Stmt>)
    requires Proper(cx) && GoodS(cx.consts, While(c, body)) && c != Const(BoolV(false))
    requires RewrittenE(cx, was, n1, c, c') && (c.Const? ==> c' == c)
    requires RewrittenB(cx, n1, n2, false, true, false, body, body')
    ensures RewrittenS(cx, was, n2, preserve, While(c, body), While(LoopGuard(c'), body'))
  {
    hide SimE, SimB, SimS, BetterE, SmallerE, BetterB, BetterS, EqB, NormB, GoodS, KeepsValue;
    var g := LoopGuard(c');
    GuardSmaller(cx.consts, c, c');
    SizeB(cx.consts, body, body');
    WhileRewrite(cx.env, cx.vars, c, g, body, body');
    BetterLoop(cx.consts, While(c, body), g, body');
    SimSWeaken(cx.env, cx.vars, true, KeepsValue(preserve, While(c, body)), While(c, body), While(g, body'));
    if !n2 { CleanWhile(cx.vars, preserve, c, c', body, body'); }
  }

  lemma CleanWhile(vars: Vars, preserve: bool, c: Expr, c': Expr, body: seq<Stmt>, body': seq<Stmt>)
    requires c != Const(BoolV(false)) && (c.Const? ==> c' == c)
    requires EqE(c, c') && EqB(body, body') && NormE(vars, c') && NormB(vars, body', false, true, false)
    ensures EqS(While(c, body), While(LoopGuard(c'), body')) && NormS(vars, While(LoopGuard(c'), body'), preserve)
  {
    hide EqB, NormB;
    if c'.Const? { EqConstant(c, c'); }
  }

  lemma RebuildDo(cx: Ctx, was: bool, n1: bool, n2: bool, preserve: bool, c: Expr, c': Expr,
                  body: seq<Stmt>, body': seq<Stmt>, until: bool)
    requires Proper(cx) && GoodS(cx.consts, Do(c, body, until))
    requires RewrittenE(cx, was, n1, c, c') && RewrittenB(cx, n1, n2, false, true, false, body, body')
    ensures RewrittenS(cx, was, n2, preserve, Do(c, body, until), Do(c', body', until))
  {
    hide SimE, SimB, SimS, BetterE, SmallerE, BetterB, BetterS, EqE, EqB, NormE, NormB, GoodS, KeepsValue;
    SizeE(cx.consts, c, c');
    SizeB(cx.consts, body, body');
    var s := Do(c, body, until);
    DoCongruence(cx.env, cx.vars, c, c', body, body', until);
    BetterLoop(cx.consts, s, c', body');
    SimSWeaken(cx.env, cx.vars, true, KeepsValue(preserve, s), s, Do(c', body', until));
  }

  lemma RebuildFor(cx: Ctx, was: bool, n1: bool, n2: bool, preserve: bool, s: Stmt, it: Expr, body: seq<Stmt>)
    requires Proper(cx) && s.For? && GoodS(cx.consts, s)
    requires RewrittenE(cx, was, n1, s.iter, it) && RewrittenB(cx, n1, n2, false, true, false, s.body, body)
    ensures RewrittenS(cx, was, n2, preserve, s, For(s.x, s.counter, it, body))
  {
    hide SimE, SimB, SimS, BetterE, SmallerE, BetterB, BetterS, EqE, EqB, NormE, NormB, GoodB, GoodE, KeepsValue;
    SizeE(cx.consts, s.iter, it);
    SizeB(cx.consts, s.body, body);
    var r := For(s.x, s.counter, it, body);
    ForCongruence(cx.env, cx.vars, cx.consts, s, r);
    BetterLoop(cx.consts, s, it, body);
    SimSWeaken(cx.env, cx.vars, true, KeepsValue(preserve, s), s, r);
  }

  // A pure body never throws.
  lemma PureTry(cx: Ctx, was: bool, preserve: bool, s: Stmt, body: seq<Stmt>)
    requires Proper(cx) && s.Try? && GoodS(cx.consts, s) && forall t | t in s.body :: IsPure(t)
    requires RewrittenB(cx, true, true, false, true, false, s.body, body)
    ensures RewrittenS(cx, was, true, preserve, s, Block(body))
  {
    hide SimE, SimB, SimS, BetterE, SmallerE, BetterB, BetterS, EqE, EqB, NormE, NormB, GoodB, GoodE;
    SizeB(cx.consts, s.body, body);
    TryPureSim(cx.env, cx.vars, s.body, s.catchVar, s.branch);
    SimSWeaken(cx.env, cx.vars, true, false, s, Block(s.body));
    SimBWeaken(cx.env, cx.vars, true, false, false, false, s.body, body);
    BlockCongruence(cx.env, cx.vars, false, s.body, body);
    SimSTrans(cx.env, cx.vars, false, s, Block(s.body), Block(body));
    BetterTry(cx.consts, s, body, s.branch);
  }

  lemma RebuildTry(cx: Ctx, was: bool, n1: bool, n2: bool, preserve: bool, s: Stmt, body: seq<Stmt>, branch: seq<Stmt>)
    requires Proper(cx) && s.Try? && GoodS(cx.consts, s) && !(forall t | t in s.body :: IsPure(t))
    requires RewrittenB(cx, was, n1, false, true, false, s.body, body)
    requires RewrittenB(cx, n1, n2, false, true, false, s.branch, branch)
    ensures RewrittenS(cx, was, n2, preserve, s, Try(body, s.catchVar, branch))
  {
    hide SimE, SimB, SimS, BetterE, SmallerE, BetterB, BetterS, EqE, EqB, NormE, NormB, GoodB, GoodE, TightB;
    SizeB(cx.consts, s.body, body);
    SizeB(cx.consts, s.branch, branch);
    TryCongruence(cx.env, cx.vars, cx.consts, s.catchVar, s.body, body, s.branch, branch);
    BetterTry(cx.consts, s, body, branch);
    if !n2 { EqPureB(s.body, body); }
  }

  // { .. }
  lemma EmptiedBlock(cx: Ctx, was: bool, now: bool, preserve: bool, b: seq<Stmt>)
    requires RewrittenB(cx, was, now, preserve, true, false, b, [])
    ensures RewrittenS(cx, was, true, preserve, Block(b), Noop)
  {
    var keep := KeepsValue(preserve, Block(b));
    SimBWeaken(cx.env, cx.vars, true, false, preserve && ValueB(false, b), keep, b, []);
    BlockCongruence(cx.env, cx.vars, keep, b, []);
    BetterBlock(cx.consts, b, []);
    if preserve { BlockHolds(cx.consts, b, []); }
    hide HoldsB, HoldsS;
    EmptyBlockSim(cx.env, cx.vars);
    SimSWeaken(cx.env, cx.vars, true, keep, Block([]), Noop);
    SimSTrans(cx.env, cx.vars, keep, Block(b), Block([]), Noop);
  }

  lemma PromotedBlock(cx: Ctx, was: bool, now: bool, preserve: bool, b: seq<Stmt>, s: Stmt)
    requires RewrittenB(cx, was, now, preserve, true, false, b, [s]) && !IsBlockDependent(s)
    ensures RewrittenS(cx, was, true, preserve, Block(b), s)
  {
    var keep := KeepsValue(preserve, Block(b));
    assert s == [s][0] && [s][0] in [s];
    SimBWeaken(cx.env, cx.vars, true, false, preserve && ValueB(false, b), keep, b, [s]);
    BlockCongruence(cx.env, cx.vars, keep, b, [s]);
    BetterBlock(cx.consts, b, [s]);
    if preserve { BlockHolds(cx.consts, b, [s]); }
    hide HoldsB, HoldsS;
    BlockSingleSim(cx.env, cx.vars, s);
    SimSWeaken(cx.env, cx.vars, true, keep, Block([s]), s);
    SimSTrans(cx.env, cx.vars, keep, Block(b), Block([s]), s);
  }

  lemma RebuildBlock(cx: Ctx, was: bool, now: bool, preserve: bool, b: seq<Stmt>, r: seq<Stmt>)
    requires RewrittenB(cx, was, now, preserve, true, false, b, r)
    requires r != [] && !(|r| == 1 && !IsBlockDependent(r[0]))
    ensures RewrittenS(cx, was, now, preserve, Block(b), Block(r))
  {
    hide SimE, SimB, SimS, BetterE, SmallerE, BetterB, BetterS, EqE, EqB, NormE, NormB, GoodS, TightB;
    SizeB(cx.consts, b, r);
    var keep := KeepsValue(preserve, Block(b));
    SimBWeaken(cx.env, cx.vars, true, false, preserve && ValueB(false, b), keep, b, r);
    BlockCongruence(cx.env, cx.vars, keep, b, r);
    BetterBlock(cx.consts, b, r);
    if preserve { BlockHolds(cx.consts, b, r); }
  }

  // expr;
  lemma EmptyExprBlock(cx: Ctx, was: bool, preserve: bool)
    ensures RewrittenS(cx, was, true, preserve, ExprS(StmtE([])), Noop)
  {
    BlockHolds(cx.consts, [], []);
    assert HoldsS(cx.consts, ExprS(StmtE([])), Block([]));
    ExprBlockSim(cx.env, cx.vars, [], "", []);
    EmptyBlockSim(cx.env, cx.vars);
    SimSTrans(cx.env, cx.vars, true, ExprS(StmtE([])), Block([]), Noop);
    SimSWeaken(cx.env, cx.vars, true, KeepsValue(preserve, ExprS(StmtE([]))), ExprS(StmtE([])), Noop);
  }

  lemma ExprBlock(cx: Ctx, was: bool, preserve: bool, b: seq<Stmt>, r: seq<Stmt>)
    requires GoodE(cx.consts, StmtE(b)) && RewrittenB(cx, true, true, true, true, false, b, r)
    ensures RewrittenS(cx, was, true, preserve, ExprS(StmtE(b)), Block(r))
  {
    var s := ExprS(StmtE(b));
    ExprBlockSim(cx.env, cx.vars, b, "", []);
    BlockCongruence(cx.env, cx.vars, true, b, r);
    SimSTrans(cx.env, cx.vars, true, s, Block(b), Block(r));
    BetterBlockExpr(cx.consts, b, r);
    BlockHolds(cx.consts, b, r);
    hide HoldsB, HoldsS, BetterS;
    SimSWeaken(cx.env, cx.vars, true, KeepsValue(preserve, s), s, Block(r));
  }

  lemma ExprCall(cx: Ctx, was: bool, preserve: bool, f: string, args: seq<Expr>)
    requires GoodE(cx.consts, Call(f, args))
    ensures RewrittenS(cx, was, true, preserve, ExprS(Call(f, args)), CallS(f, args))
  {
    ExprBlockSim(cx.env, cx.vars, [], f, args);
    BetterCallS(cx.consts, f, args, args);
    SimSWeaken(cx.env, cx.vars, true, KeepsValue(preserve, ExprS(Call(f, args))), ExprS(Call(f, args)), CallS(f, args));
  }

  lemma RebuildExprStmt(cx: Ctx, was: bool, now: bool, preserve: bool, e: Expr, e': Expr)
    requires !e.StmtE? && !e.Call? && RewrittenE(cx, was, now, e, e')
    ensures RewrittenS(cx, was, now, preserve, ExprS(e), ExprS(e'))
  {
    BetterExprStmt(cx.consts, e, e');
    EffectsOfE(cx.consts, e, e');
    ExprHolds(cx.consts, false, e, e');
    hide HoldsE, HoldsS, BetterS, BetterE;
    ExprCongruence(cx.env, cx.vars, e, e');
    SimSWeaken(cx.env, cx.vars, true, KeepsValue(preserve, ExprS(e)), ExprS(e), ExprS(e'));
  }

  // A call statement is optimized as the call expression; what is no call any more is an expression.
  function CallStmt(e: Expr): Stmt {
    if e.Call? then CallS(e.f, e.args) else ExprS(e)
  }

  lemma RebuildCallStmt(cx: Ctx, was: bool, now: bool, preserve: bool, f: string, args: seq<Expr>, e: Expr)
    requires RewrittenE(cx, was, now, Call(f, args), e) && (e.Call? || e.Const?)
    ensures RewrittenS(cx, was, now, preserve, CallS(f, args), CallStmt(e))
  {
    var s := CallS(f, args);
    ExprBlockSim(cx.env, cx.vars, [], f, args);
    ExprCongruence(cx.env, cx.vars, Call(f, args), e);
    SimSTrans(cx.env, cx.vars, true, s, ExprS(Call(f, args)), ExprS(e));
    if e.Call? {
      ExprBlockSim(cx.env, cx.vars, [], e.f, e.args);
      SimSTrans(cx.env, cx.vars, true, s, ExprS(e), CallS(e.f, e.args));
    }
    SimSWeaken(cx.env, cx.vars, true, KeepsValue(preserve, s), s, CallStmt(e));
  }

  // `x = x op e` becomes `x op= e`
  lemma FoldAssign(cx: Ctx, was: bool, preserve: bool, x: string, f: string, e: Expr)
    requires Proper(cx) && GoodS(cx.consts, Assign(x, None, Call(f, [Var(x), e]))) && HasOpAssignment(f)
    ensures RewrittenS(cx, was, true, preserve, Assign(x, None, Call(f, [Var(x), e])), Assign(x, Some(f), e))
  {
    var s := Assign(x, None, Call(f, [Var(x), e]));
    BetterOpAssign(cx.consts, x, f, e);
    OpAssignSim(cx.env, cx.vars, x, f, e);
    SimSWeaken(cx.env, cx.vars, true, KeepsValue(preserve, s), s, Assign(x, Some(f), e));
  }

  lemma RebuildAssign(cx: Ctx, was: bool, now: bool, preserve: bool, x: string, op: Option<string>, e: Expr, e': Expr)
    requires GoodS(cx.consts, Assign(x, op, e)) && !OpAssignable(x, op, e) && RewrittenE(cx, was, now, e, e')
    ensures RewrittenS(cx, was, now, preserve, Assign(x, op, e), Assign(x, op, e'))
  {
    AssignCongruence(cx.env, cx.vars, x, op, e, e');
    SimSWeaken(cx.env, cx.vars, true, KeepsValue(preserve, Assign(x, op, e)), Assign(x, op, e), Assign(x, op, e'));
    if !now { OpAssignableKept(x, op, e, e'); }
  }

  lemma RebuildJump(cx: Ctx, was: bool, now: bool, preserve: bool, flag: bool, e: Expr, e': Expr)
    requires RewrittenE(cx, was, now, e, e')
    ensures RewrittenS(cx, was, now, preserve, Return(Some(e), flag), Return(Some(e'), flag))
    ensures RewrittenS(cx, was, now, preserve, Jump(flag, Some(e)), Jump(flag, Some(e')))
  {
    SizeE(cx.consts, e, e');
    BetterJump(cx.consts, flag, e, e');
    ExprHolds(cx.consts, flag, e, e');
    hide SimE, SimS, EqE, NormE, BetterE, BetterS, HoldsS;
    JumpCongruence(cx.env, cx.vars, flag, e, e');
    SimSWeaken(cx.env, cx.vars, true, preserve, Return(Some(e), flag), Return(Some(e'), flag));
    SimSWeaken(cx.env, cx.vars, true, preserve, Jump(flag, Some(e)), Jump(flag, Some(e')));
  }

  lemma KeepStmt(cx: Ctx, now: bool, preserve: bool, s: Stmt)
    requires GoodS(cx.consts, s)
    requires s == Noop || (s.Jump? && !(s.isBreak && s.val.Some?)) || (s.Return? && s.val == None)
    ensures RewrittenS(cx, now, now, preserve, s, s)
  {
    EqReflS(s);
  }

  lemma RebuildLet(cx: Ctx, was: bool, now: bool, preserve: bool, x: string, e: Expr, e': Expr, isConst: bool)
    requires GoodS(cx.consts, Let(x, e, isConst)) && RewrittenE(cx, was, now, e, e')
    ensures RewrittenS(cx, was, now, preserve, Let(x, e, isConst), Let(x, e', isConst))
    ensures RewrittenLet(cx, Let(x, e, isConst), Let(x, e', isConst))
  {
    SizeE(cx.consts, e, e');
    BetterLet(cx.consts, x, e, e', isConst);
    hide SimE, SimS, EqE, NormE, BetterE, BetterS;
    LetCongruence(cx.env, cx.vars, x, e, e', isConst);
    SimSWeaken(cx.env, cx.vars, true, preserve, Let(x, e, isConst), Let(x, e', isConst));
  }
}
