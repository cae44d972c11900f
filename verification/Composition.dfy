// How the rewrites compose: sizes, names and goodness of whole trees, lists under in-place change,
// and one pass over the statements of a block.

module Composition {
  import opened Options
  import opened Ast
  import opened Eval
  import opened EvalFacts
  import opened Conditions
  import opened Simulation
  import opened Rules
  import opened Phases
  import opened NormalForm

  // What the output of a rewrite inherits from its input.
  ghost predicate BetterE(consts: Consts, e: Expr, e': Expr) {
    SmallerE(consts, e, e') && HoldsE(consts, e, e')
  }

  // What the expression decides still is decided, and a block that may be opened still may be.
  ghost predicate HoldsE(consts: Consts, e: Expr, e': Expr) {
    (TightE(e) ==> TightE(e')) &&
    forall d: Demand :: Fits(d, false, consts) && SettledE(d, e) ==> SettledE(d, e')
  }

  ghost predicate HoldsEs(consts: Consts, es: seq<Expr>, es': seq<Expr>) {
    (TightEs(es) ==> TightEs(es')) &&
    forall d: Demand :: Fits(d, false, consts) && SettledEs(d, es) ==> SettledEs(d, es')
  }

  predicate TightEs(es: seq<Expr>) {
    forall x | x in es :: TightE(x)
  }

  predicate SettledEs(d: Demand, es: seq<Expr>) {
    (forall x | x in es :: SettlesE(d, x)) && Undisturbed(d, EffectsEs(es))
  }

  ghost predicate SmallerE(consts: Consts, e: Expr, e': Expr) {
    WE(e') <= WE(e) && EffectsE(e') <= EffectsE(e) && (PlainBreaksE(e) ==> PlainBreaksE(e')) &&
    GoodE(consts, e')
  }

  ghost predicate BetterEs(consts: Consts, es: seq<Expr>, es': seq<Expr>) {
    WEs(es') <= WEs(es) && EffectsEs(es') <= EffectsEs(es) &&
    ((forall x | x in es :: PlainBreaksE(x)) ==> forall x | x in es' :: PlainBreaksE(x)) &&
    (forall x | x in es' :: GoodE(consts, x)) && HoldsEs(consts, es, es')
  }

  ghost predicate BetterS(consts: Consts, s: Stmt, s': Stmt) {
    WS(s') <= WS(s) && EffectsS(s') <= EffectsS(s) && (PlainBreaks(s) ==> PlainBreaks(s')) &&
    GoodS(consts, s') && (TightS(s) || s == Block([]) ==> TightS(s') || s' == Block([]))
  }

  ghost predicate BetterB(consts: Consts, b: seq<Stmt>, b': seq<Stmt>) {
    WB(b') <= WB(b) && EffectsB(b') <= EffectsB(b) && (PlainBreaksB(b) ==> PlainBreaksB(b')) &&
    GoodB(consts, b') && (TightishB(b) ==> TightishB(b'))
  }

  // ---- lists of operands under replacement, removal and truncation ----

  lemma EsSplit(es: seq<Expr>, n: nat)
    requires n < |es|
    ensures WEs(es) == WEs(es[..n]) + WE(es[n]) + WEs(es[n + 1..])
    ensures EffectsEs(es) == EffectsEs(es[..n]) + EffectsE(es[n]) + EffectsEs(es[n + 1..])
    decreases n
  {
    if n > 0 {
      EsSplit(es[1..], n - 1);
      assert es[1..][..n - 1] == es[..n][1..];
      assert es[1..][n..] == es[n + 1..];
    }
  }

  lemma EsAppend(a: seq<Expr>, b: seq<Expr>)
    ensures WEs(a + b) == WEs(a) + WEs(b)
    ensures EffectsEs(a + b) == EffectsEs(a) + EffectsEs(b)
  {
    if a == [] {
      assert a + b == b;
    } else {
      assert (a + b)[0] == a[0] && (a + b)[1..] == a[1..] + b;
      EsAppend(a[1..], b);
    }
  }

  lemma ReplaceOperand(consts: Consts, es: seq<Expr>, n: nat, e': Expr)
    requires n < |es| && BetterE(consts, es[n], e') && forall x | x in es :: GoodE(consts, x)
    ensures BetterEs(consts, es, es[n := e'])
    ensures WEs(es[n := e']) == WEs(es) - WE(es[n]) + WE(e')
  {
    var es' := es[n := e'];
    EsSplit(es, n);
    EsSplit(es', n);
    assert es'[..n] == es[..n] && es'[n + 1..] == es[n + 1..];
    assert es[n] in es;
    assert forall x | x in es' :: x == e' || x in es;
    ReplaceHolds(consts, es, n, e');
  }

  lemma ReplaceHolds(consts: Consts, es: seq<Expr>, n: nat, e': Expr)
    requires n < |es| && HoldsE(consts, es[n], e') && EffectsE(e') <= EffectsE(es[n])
    ensures HoldsEs(consts, es, es[n := e'])
  {
    var es' := es[n := e'];
    assert forall x | x in es' :: x == e' || x in es;
    EsSplit(es, n);
    EsSplit(es', n);
    assert es'[..n] == es[..n] && es'[n + 1..] == es[n + 1..] && es[n] in es;
    forall d: Demand | Fits(d, false, consts) && SettledEs(d, es)
      ensures SettledEs(d, es')
    {
      assert SettledE(d, es[n]);
    }
  }

  lemma FewerHold(consts: Consts, es: seq<Expr>, es': seq<Expr>)
    requires (forall x | x in es' :: x in es) && EffectsEs(es') <= EffectsEs(es)
    ensures HoldsEs(consts, es, es')
  {
  }

  lemma RemoveOperand(consts: Consts, es: seq<Expr>, n: nat)
    requires n < |es| && forall x | x in es :: GoodE(consts, x)
    ensures BetterEs(consts, es, es[..n] + es[n + 1..])
    ensures WEs(es[..n] + es[n + 1..]) < WEs(es)
  {
    var es' := es[..n] + es[n + 1..];
    EsSplit(es, n);
    EsAppend(es[..n], es[n + 1..]);
    assert forall x | x in es' :: x in es;
    FewerHold(consts, es, es');
  }

  lemma TruncateOperands(consts: Consts, es: seq<Expr>, n: nat)
    requires n + 1 < |es| && forall x | x in es :: GoodE(consts, x)
    ensures BetterEs(consts, es, es[..n + 1])
    ensures WEs(es[..n + 1]) < WEs(es)
  {
    EsSplit(es, n + 1);
    assert forall x | x in es[..n + 1] :: x in es;
    FewerHold(consts, es, es[..n + 1]);
  }

  lemma SingleOperand(x: Expr)
    ensures WEs([x]) == WE(x) && EffectsEs([x]) == EffectsE(x)
  {
    assert [x][1..] == [];
  }

  // ---- lists of statements under replacement ----

  lemma BSplit(b: seq<Stmt>, n: nat)
    requires n < |b|
    ensures WB(b) == WB(b[..n]) + WS(b[n]) + WB(b[n + 1..])
    ensures EffectsB(b) == EffectsB(b[..n]) + EffectsS(b[n]) + EffectsB(b[n + 1..])
    decreases n
  {
    if n > 0 {
      BSplit(b[1..], n - 1);
      assert b[1..][..n - 1] == b[..n][1..];
      assert b[1..][n..] == b[n + 1..];
    }
  }

  lemma ReplaceStmt(consts: Consts, b: seq<Stmt>, n: nat, s': Stmt)
    requires n < |b| && BetterS(consts, b[n], s') && GoodB(consts, b)
    ensures BetterB(consts, b, b[n := s'])
    ensures WB(b[n := s']) == WB(b) - WS(b[n]) + WS(s')
  {
    var b' := b[n := s'];
    BSplit(b, n);
    BSplit(b', n);
    assert b'[..n] == b[..n] && b'[n + 1..] == b[n + 1..];
    assert b[n] in b;
    assert forall s | s in b' :: s == s' || s in b;
  }

  lemma InheritsBetter(consts: Consts, b: seq<Stmt>, b': seq<Stmt>)
    requires Inherits(consts, b, b') && GoodB(consts, b) && WB(b') <= WB(b)
    ensures BetterB(consts, b, b')
  {
  }

  lemma StmtGood(consts: Consts, b: seq<Stmt>, r: seq<Stmt>, n: nat)
    requires BetterB(consts, b, r) && n < |r|
    ensures GoodS(consts, r[n]) && WS(r[n]) <= WB(r) <= WB(b)
  {
    assert r[n] in r;
    BSplit(r, n);
  }

  lemma ReplaceStep(consts: Consts, b: seq<Stmt>, r: seq<Stmt>, n: nat, s': Stmt)
    requires BetterB(consts, b, r) && n < |r| && BetterS(consts, r[n], s')
    ensures BetterB(consts, b, r[n := s'])
    ensures WB(r[n := s']) == WB(r) - WS(r[n]) + WS(s')
  {
    ReplaceStmt(consts, r, n, s');
  }

  lemma SimBWeaken(env: Env, vars: Vars, internal: bool, reduce: bool, keep: bool, keep': bool,
                   b: seq<Stmt>, b': seq<Stmt>)
    requires SimB(env, vars, internal, reduce, keep, b, b') && (keep' ==> keep)
    ensures SimB(env, vars, internal, reduce, keep', b, b')
  {
  }

  lemma SimSWeaken(env: Env, vars: Vars, keep: bool, keep': bool, s: Stmt, s': Stmt)
    requires SimS(env, vars, keep, s, s') && (keep' ==> keep)
    ensures SimS(env, vars, keep', s, s')
  {
  }

  // ---- one pass over the statements of a block, the optimizer's stack growing along ----

  ghost predicate PassSim(env: Env, vars: Vars, vars': Vars, keep: bool, b: seq<Stmt>, b': seq<Stmt>) {
    forall fuel: nat, st: State ::
      Agree(vars, st.scope) && Done(EvalSeq(env, fuel, b, UnitV, st).o) ==>
        Kept(keep, EvalSeq(env, fuel, b, UnitV, st), EvalSeq(env, fuel, b', UnitV, st)) &&
        (EvalSeq(env, fuel, b, UnitV, st).o.Normal? ==>
           Agree(vars', EvalSeq(env, fuel, b, UnitV, st).st.scope))
  }

  lemma AgreeAfter(env: Env, vars: Vars, s: Stmt, s': Stmt, fuel: nat, st: State)
    requires Agree(vars, st.scope) && Done(EvalS(env, fuel, s, st).o) && EvalS(env, fuel, s, st).o.Normal?
    requires s'.Let? ==> s.Let? && s'.x == s.x && s'.isConst == s.isConst && SimE(env, vars, s.e, s'.e)
    requires s.Let? ==> s'.Let?
    ensures Agree(Pushed(vars, s'), EvalS(env, fuel, s, st).st.scope)
  {
    if s.Let? {
      var r := EvalE(env, fuel, s.e, st);
      ShapeE(env, fuel, s.e, st);
      AgreeShape(vars, st.scope, r.st.scope);
      var c := if s'.isConst && IsConstant(s'.e) then Some(LiteralValue(s'.e)) else None;
      if c.Some? {
        assert EvalE(env, fuel, s'.e, st) == r;
        ConstantEval(env, fuel, s'.e, st);
      }
      AgreePush(vars, r.st.scope, s.x, c, s.isConst, r.o.v);
    } else {
      ShapeS(env, fuel, s, st);
      AgreeShape(vars, st.scope, EvalS(env, fuel, s, st).st.scope);
    }
  }

  lemma PassDone(env: Env, vars: Vars, vars': Vars, keep: bool, b: seq<Stmt>, b': seq<Stmt>)
    requires PassSim(env, vars, vars', keep, b, b')
    ensures SimSeq(env, vars, keep, b, b')
  {
  }

  lemma PassStep(env: Env, vars: Vars, vars': Vars, keep: bool, b: seq<Stmt>, b': seq<Stmt>, s: Stmt, s': Stmt)
    requires PassSim(env, vars, vars', false, b, b') && SimS(env, vars', keep, s, s')
    requires s'.Let? ==> s.Let? && s'.x == s.x && s'.isConst == s.isConst && SimE(env, vars', s.e, s'.e)
    requires s.Let? ==> s'.Let?
    ensures PassSim(env, vars, Pushed(vars', s'), keep, b + [s], b' + [s'])
  {
    forall fuel: nat, st: State | Agree(vars, st.scope) && Done(EvalSeq(env, fuel, b + [s], UnitV, st).o)
      ensures Kept(keep, EvalSeq(env, fuel, b + [s], UnitV, st), EvalSeq(env, fuel, b' + [s'], UnitV, st))
      ensures EvalSeq(env, fuel, b + [s], UnitV, st).o.Normal? ==>
        Agree(Pushed(vars', s'), EvalSeq(env, fuel, b + [s], UnitV, st).st.scope)
    {
      RunLast(env, fuel, b, s, st);
      RunLast(env, fuel, b', s', st);
      var r := EvalSeq(env, fuel, b, UnitV, st);
      assert Done(r.o);
      if r.o.Normal? && EvalS(env, fuel, s, r.st).o.Normal? {
        AgreeAfter(env, vars', s, s', fuel, r.st);
      }
    }
  }

  lemma VarsInPushed(vars: Vars, consts: Consts, s': Stmt)
    requires VarsIn(vars, consts) && GoodS(consts, s')
    ensures VarsIn(Pushed(vars, s'), consts)
  {
    if s'.Let? {
      var c := if s'.isConst && IsConstant(s'.e) then Some(LiteralValue(s'.e)) else None;
      forall y
        ensures FindConst(vars + [(s'.x, c)], y).Some? ==> y in consts
      {
        FindPushed(vars, s'.x, c, y);
      }
    }
  }

  lemma FindPushed(vars: Vars, x: string, c: Option<Val>, y: string)
    ensures FindConst(vars + [(x, c)], y) == if y == x then c else FindConst(vars, y)
  {
    assert (vars + [(x, c)])[..|vars|] == vars;
  }

  // ---- how the parts carry over to the whole ----

  // A block expression that has become the one expression `e`, and then `e'`.
  lemma BetterUnwrap(consts: Consts, b: seq<Stmt>, e: Expr, e': Expr)
    requires BetterB(consts, b, [ExprS(e)]) && BetterE(consts, e, e')
    requires (TightB(b) ==> TightB([ExprS(e)])) && HoldsB(consts, false, b, [ExprS(e)])
    ensures BetterE(consts, StmtE(b), e') && WE(e') < WE(StmtE(b))
  {
    SingleStmt(ExprS(e));
    assert ExprS(e) in [ExprS(e)];
    assert PlainBreaksE(StmtE(b)) ==> PlainBreaksB(b);
    assert PlainBreaksB([ExprS(e)]) ==> PlainBreaks(ExprS(e));
    UnwrapHolds(consts, b, e, e');
  }

  lemma UnwrapHolds(consts: Consts, b: seq<Stmt>, e: Expr, e': Expr)
    requires HoldsE(consts, e, e') && (TightB(b) ==> TightB([ExprS(e)])) && HoldsB(consts, false, b, [ExprS(e)])
    ensures HoldsE(consts, StmtE(b), e')
  {
    SingleStmt(ExprS(e));
    assert TightB([ExprS(e)]) ==> TightS([ExprS(e)][0]);
    forall d: Demand | Fits(d, false, consts) && SettledE(d, StmtE(b))
      ensures SettledE(d, e')
    {
      assert SettledB(d, b) && SettledB(d, [ExprS(e)]);
      assert SettledE(d, e);
    }
  }

  lemma BetterBlockExpr(consts: Consts, b: seq<Stmt>, b': seq<Stmt>)
    requires BetterB(consts, b, b') && ValueB(false, b)
    requires (TightB(b) ==> TightB(b')) && HoldsB(consts, false, b, b')
    ensures BetterE(consts, StmtE(b), StmtE(b'))
    ensures BetterS(consts, ExprS(StmtE(b)), Block(b'))
  {
    assert PlainBreaksE(StmtE(b)) ==> PlainBreaksB(b);
    assert PlainBreaksB(b') ==> PlainBreaksE(StmtE(b'));
    BlockExprHolds(consts, b, b');
    assert SettledB(Held(false), b) ==> SettledB(Held(false), b');
  }

  lemma BlockExprHolds(consts: Consts, b: seq<Stmt>, b': seq<Stmt>)
    requires (TightB(b) ==> TightB(b')) && HoldsB(consts, false, b, b')
    ensures HoldsE(consts, StmtE(b), StmtE(b'))
  {
    forall d: Demand | Fits(d, false, consts) && SettledE(d, StmtE(b))
      ensures SettledE(d, StmtE(b'))
    {
      assert SettledB(d, b) && SettledB(d, b');
    }
  }

  lemma BetterCall(consts: Consts, f: string, args: seq<Expr>, args': seq<Expr>)
    requires BetterEs(consts, args, args') && |args'| == |args|
    ensures BetterE(consts, Call(f, args), Call(f, args'))
  {
  }

  lemma BetterCallS(consts: Consts, f: string, args: seq<Expr>, args': seq<Expr>)
    requires BetterEs(consts, args, args') && |args'| == |args|
    ensures BetterS(consts, CallS(f, args), CallS(f, args'))
    ensures BetterS(consts, ExprS(Call(f, args)), CallS(f, args'))
  {
    assert PlainBreaks(CallS(f, args)) == PlainBreaksE(Call(f, args));
    BetterCall(consts, f, args, args');
  }

  lemma BetterArr(consts: Consts, es: seq<Expr>, es': seq<Expr>)
    requires BetterEs(consts, es, es')
    ensures BetterE(consts, Arr(es), Arr(es'))
  {
  }

  lemma BetterExprStmt(consts: Consts, e: Expr, e': Expr)
    requires BetterE(consts, e, e')
    ensures BetterS(consts, ExprS(e), ExprS(e'))
    ensures BetterS(consts, If(e, [], []), Block([ExprS(e'), Noop]))
    ensures BetterS(consts, If(e, [], []), ExprS(e'))
  {
    var b := [ExprS(e'), Noop];
    TwoStmts(e');
    assert PlainBreaks(If(e, [], [])) ==> PlainBreaksE(e);
    assert forall t | t in b :: t == ExprS(e') || t == Noop;
    assert (TightE(e') ==> TightB(b)) && GoodB(consts, b) && (PlainBreaksE(e') ==> PlainBreaksB(b));
    assert EffectsS(If(e, [], [])) == EffectsE(e) + {} + {};
  }

  lemma BetterIf(consts: Consts, c: Expr, c': Expr, body: seq<Stmt>, body': seq<Stmt>,
                 branch: seq<Stmt>, branch': seq<Stmt>)
    requires BetterE(consts, c, c') && BetterB(consts, body, body') && BetterB(consts, branch, branch')
    requires (TightB(body) ==> TightB(body')) && (TightB(branch) ==> TightB(branch'))
    ensures BetterS(consts, If(c, body, branch), If(c', body', branch'))
  {
  }

  lemma BetterBlock(consts: Consts, b: seq<Stmt>, b': seq<Stmt>)
    requires BetterB(consts, b, b') && (TightB(b) ==> TightB(b'))
    ensures BetterS(consts, Block(b), Block(b'))
    ensures b' == [] ==> BetterS(consts, Block(b), Noop)
    ensures |b'| == 1 && b'[0] != Block([]) ==> BetterS(consts, Block(b), b'[0])
    ensures |b'| == 1 ==> WS(b'[0]) < WS(Block(b))
  {
    if |b'| == 1 {
      assert b' == [b'[0]] && b'[0] in b';
      SingleStmt(b'[0]);
      assert PlainBreaksB(b') ==> PlainBreaks(b'[0]);
      assert TightB(b') ==> TightS(b'[0]);
      assert GoodS(consts, b'[0]);
    }
  }

  lemma BetterLoop(consts: Consts, s: Stmt, c': Expr, body': seq<Stmt>)
    requires GoodS(consts, s) && (s.While? || s.Do? || s.For?)
    requires SmallerE(consts, if s.For? then s.iter else s.cond, c') && BetterB(consts, s.body, body')
    ensures s.While? ==> BetterS(consts, s, While(c', body'))
    ensures s.Do? ==> BetterS(consts, s, Do(c', body', s.until))
    ensures s.For? ==> BetterS(consts, s, For(s.x, s.counter, c', body'))
  {
  }

  lemma BetterTry(consts: Consts, s: Stmt, body': seq<Stmt>, branch': seq<Stmt>)
    requires GoodS(consts, s) && s.Try?
    requires BetterB(consts, s.body, body') && BetterB(consts, s.branch, branch')
    ensures BetterS(consts, s, Try(body', s.catchVar, branch'))
    ensures BetterS(consts, s, Block(body'))
  {
  }

  lemma BetterOpAssign(consts: Consts, x: string, f: string, e: Expr)
    requires HasOpAssignment(f) && GoodS(consts, Assign(x, None, Call(f, [Var(x), e])))
    ensures BetterS(consts, Assign(x, None, Call(f, [Var(x), e])), Assign(x, Some(f), e))
    ensures WE(e) < WE(Call(f, [Var(x), e])) && Assigns(x) !in EffectsE(e)
  {
    var args := [Var(x), e];
    EsSplit(args, 1);
    assert args[2..] == [] && args[1] in args;
    assert PlainBreaksE(Call(f, args)) ==> PlainBreaksE(args[1]);
    assert GoodE(consts, Call(f, args));
  }

  lemma BetterLet(consts: Consts, x: string, e: Expr, e': Expr, isConst: bool)
    requires GoodS(consts, Let(x, e, isConst)) && BetterE(consts, e, e')
    ensures BetterS(consts, Let(x, e, isConst), Let(x, e', isConst))
  {
    var d := Firm(consts);
    assert Fits(d, false, consts) && (SettledE(d, e) ==> SettledE(d, e'));
  }

  lemma BetterJump(consts: Consts, flag: bool, e: Expr, e': Expr)
    requires BetterE(consts, e, e')
    ensures BetterS(consts, Return(Some(e), flag), Return(Some(e'), flag))
    ensures BetterS(consts, Jump(flag, Some(e)), Jump(flag, Some(e')))
  {
    var d := Held(true);
    assert Fits(d, false, consts) && (SettledE(d, e) ==> SettledE(d, e'));
  }

  // Where the in-place loop over an n-ary list stands: `x` is what has become of `es`.
  ghost predicate AllInv(env: Env, vars: Vars, consts: Consts, unit: bool, es: seq<Expr>, x: seq<Expr>) {
    BetterEs(consts, es, x) && SimAll(env, vars, unit, es, x)
  }

  ghost predicate FirstInv(env: Env, vars: Vars, consts: Consts, es: seq<Expr>, x: seq<Expr>) {
    BetterEs(consts, es, x) && SimFirst(env, vars, es, x) &&
    (SettlesE(Firm(consts), Coalesce(es)) ==> SettlesE(Firm(consts), Coalesce(x)))
  }

  lemma BetterEsTrans(consts: Consts, a: seq<Expr>, b: seq<Expr>, c: seq<Expr>)
    requires BetterEs(consts, a, b) && BetterEs(consts, b, c)
    ensures BetterEs(consts, a, c)
  {
  }

  lemma AllRemoveStep(env: Env, vars: Vars, consts: Consts, unit: bool, es: seq<Expr>, x: seq<Expr>, n: nat)
    requires AllInv(env, vars, consts, unit, es, x) && n < |x| && x[n] == Const(BoolV(unit))
    ensures AllInv(env, vars, consts, unit, es, x[..n] + x[n + 1..])
    ensures WEs(x[..n] + x[n + 1..]) < WEs(x)
  {
    var x' := x[..n] + x[n + 1..];
    AllRemove(env, vars, unit, x, n);
    SimAllTrans(env, vars, unit, es, x, x');
    RemoveOperand(consts, x, n);
    BetterEsTrans(consts, es, x, x');
  }

  lemma AllTruncateStep(env: Env, vars: Vars, consts: Consts, unit: bool, es: seq<Expr>, x: seq<Expr>, n: nat)
    requires AllInv(env, vars, consts, unit, es, x) && n + 1 < |x| && x[n] == Const(BoolV(!unit))
    ensures AllInv(env, vars, consts, unit, es, x[..n + 1])
    ensures WEs(x[..n + 1]) < WEs(x)
  {
    AllTruncate(env, vars, unit, x, n);
    SimAllTrans(env, vars, unit, es, x, x[..n + 1]);
    TruncateOperands(consts, x, n);
    BetterEsTrans(consts, es, x, x[..n + 1]);
  }

  lemma AllReplaceStep(env: Env, vars: Vars, consts: Consts, unit: bool, es: seq<Expr>, x: seq<Expr>, n: nat, e': Expr)
    requires AllInv(env, vars, consts, unit, es, x) && n < |x|
    requires SimE(env, vars, x[n], e') && BetterE(consts, x[n], e')
    ensures AllInv(env, vars, consts, unit, es, x[n := e'])
    ensures WEs(x[n := e']) == WEs(x) - WE(x[n]) + WE(e')
  {
    AllReplace(env, vars, unit, x, n, e');
    SimAllTrans(env, vars, unit, es, x, x[n := e']);
    ReplaceOperand(consts, x, n, e');
    BetterEsTrans(consts, es, x, x[n := e']);
  }

  lemma LogicalHolds(consts: Consts, unit: bool, es: seq<Expr>, x: seq<Expr>, r: Expr)
    requires HoldsEs(consts, es, x) && EffectsEs(x) <= EffectsEs(es)
    requires r == (if unit then And(x) else Or(x)) || r.Const? || x == [r]
    requires r.Const? ==> r.v != UnitV || x == [r]
    ensures HoldsE(consts, if unit then And(es) else Or(es), r)
  {
    var e := if unit then And(es) else Or(es);
    SingleOperand(r);
    if x == [r] { assert r in x; }
    forall d: Demand | Fits(d, false, consts) && SettledE(d, e)
      ensures SettledE(d, r)
    {
      assert SettledEs(d, es) && SettledEs(d, x);
    }
    assert TightE(e) ==> TightEs(es) && TightEs(x);
  }

  // A list of alternatives decides what each of them does, or does not fold to () if one does not.
  lemma CoalesceHolds(consts: Consts, es: seq<Expr>, x: seq<Expr>, r: Expr)
    requires HoldsEs(consts, es, x) && EffectsEs(x) <= EffectsEs(es)
    requires SettlesE(Firm(consts), Coalesce(es)) ==> SettlesE(Firm(consts), Coalesce(x))
    requires r == Coalesce(x) || x == [r] || (x == [] && r == Const(BoolV(false)))
    ensures HoldsE(consts, Coalesce(es), r)
  {
    var e := Coalesce(es);
    SingleOperand(r);
    if x == [r] { assert r in x; }
    forall d: Demand | Fits(d, false, consts) && SettledE(d, e)
      ensures SettledE(d, r)
    {
      if !d.Firm? { assert SettledEs(d, es) && SettledEs(d, x); }
    }
    assert TightE(e) ==> TightEs(es) && TightEs(x);
  }

  // What becomes of the list at the end of the loop.
  lemma AllFinish(env: Env, vars: Vars, consts: Consts, unit: bool, es: seq<Expr>, x: seq<Expr>, r: Expr)
    requires !env.catchSoft && AllInv(env, vars, consts, unit, es, x)
    requires r == (if unit then And(x) else Or(x)) || (x == [] && r == Const(BoolV(unit))) || x == [r] ||
      (r == Const(BoolV(!unit)) && exists n :: DecidedAt(x, unit, n))
    ensures var e := if unit then And(es) else Or(es);
      BetterE(consts, e, r) && SimE(env, vars, e, r)
    ensures r != (if unit then And(x) else Or(x)) ==> WE(r) < WE(if unit then And(es) else Or(es))
  {
    var e, ex := if unit then And(es) else Or(es), if unit then And(x) else Or(x);
    LogicalHolds(consts, unit, es, x, r);
    hide HoldsE, HoldsEs;
    AllCongruence(env, vars, es, x);
    if r != ex {
      if x == [r] {
        AllSmall(env, vars, r);
        SingleOperand(r);
        assert r in x;
      } else if x == [] && r == Const(BoolV(unit)) {
        AllSmall(env, vars, r);
      } else {
        var n :| DecidedAt(x, unit, n);
        AllDecided(env, vars, x, n, unit);
      }
      SimETrans(env, vars, e, ex, r);
    }
  }

  lemma ListGood(consts: Consts, es: seq<Expr>, x: seq<Expr>, n: nat)
    requires BetterEs(consts, es, x) && n < |x|
    ensures GoodE(consts, x[n]) && WE(x[n]) <= WEs(x) <= WEs(es)
  {
    assert x[n] in x;
    EsSplit(x, n);
  }

  lemma FirstFinish(env: Env, vars: Vars, consts: Consts, es: seq<Expr>, x: seq<Expr>, r: Expr)
    requires !env.catchSoft && FirstInv(env, vars, consts, es, x)
    requires r == Coalesce(x) || x == [r] || (x == [] && r == Const(BoolV(false)))
    ensures WE(r) <= WE(Coalesce(es)) && (r != Coalesce(x) ==> WE(r) < WE(Coalesce(es)))
    ensures SettlesE(Firm(consts), Coalesce(es)) ==>
      BetterE(consts, Coalesce(es), r) && SimE(env, vars, Coalesce(es), r)
  {
    CoalesceHolds(consts, es, x, r);
    hide HoldsE, HoldsEs;
    AllCongruence(env, vars, es, x);
    if x == [r] {
      AllSmall(env, vars, r);
      SingleOperand(r);
      assert r in x;
      SimETrans(env, vars, Coalesce(es), Coalesce(x), r);
    }
  }

  lemma FirstRemoveStep(env: Env, vars: Vars, consts: Consts, es: seq<Expr>, x: seq<Expr>, n: nat)
    requires FirstInv(env, vars, consts, es, x) && n < |x| && x[n] == Const(UnitV)
    ensures FirstInv(env, vars, consts, es, x[..n] + x[n + 1..])
    ensures WEs(x[..n] + x[n + 1..]) < WEs(x)
  {
    var x' := x[..n] + x[n + 1..];
    FirstRemove(env, vars, x, n);
    SimFirstTrans(env, vars, es, x, x');
    RemoveOperand(consts, x, n);
    BetterEsTrans(consts, es, x, x');
    if SettlesE(Firm(consts), Coalesce(x)) { KeepsOther(consts, x, n); }
  }

  lemma FirstTruncateStep(env: Env, vars: Vars, consts: Consts, es: seq<Expr>, x: seq<Expr>, n: nat)
    requires FirstInv(env, vars, consts, es, x) && n + 1 < |x| && IsConstant(x[n]) && x[n] != Const(UnitV)
    ensures FirstInv(env, vars, consts, es, x[..n + 1])
    ensures WEs(x[..n + 1]) < WEs(x)
  {
    FirstTruncate(env, vars, x, n);
    SimFirstTrans(env, vars, es, x, x[..n + 1]);
    TruncateOperands(consts, x, n);
    BetterEsTrans(consts, es, x, x[..n + 1]);
    hide BetterEs, SimFirst;
    LiteralOperand(consts, x[..n + 1], n);
  }

  lemma LiteralOperand(consts: Consts, es: seq<Expr>, n: nat)
    requires n < |es| && IsConstant(es[n]) && es[n] != Const(UnitV)
    ensures SettlesE(Firm(consts), Coalesce(es))
  {
    assert es[n] in es && SettlesE(Firm(consts), es[n]);
  }

  lemma FirstReplaceStep(env: Env, vars: Vars, consts: Consts, es: seq<Expr>, x: seq<Expr>, n: nat, e': Expr)
    requires FirstInv(env, vars, consts, es, x) && n < |x|
    requires SimE(env, vars, x[n], e') && BetterE(consts, x[n], e')
    ensures FirstInv(env, vars, consts, es, x[n := e'])
    ensures WEs(x[n := e']) == WEs(x) - WE(x[n]) + WE(e')
  {
    FirstReplace(env, vars, x, n, e');
    SimFirstTrans(env, vars, es, x, x[n := e']);
    ReplaceOperand(consts, x, n, e');
    BetterEsTrans(consts, es, x, x[n := e']);
    if SettlesE(Firm(consts), Coalesce(x)) { KeepsOperand(consts, x, n, e'); }
  }

  lemma KeepsOther(consts: Consts, es: seq<Expr>, n: nat)
    requires n < |es| && es[n] == Const(UnitV) && SettlesE(Firm(consts), Coalesce(es))
    ensures SettlesE(Firm(consts), Coalesce(es[..n] + es[n + 1..]))
  {
    var x :| x in es && SettlesE(Firm(consts), x);
    assert x in es[..n] + es[n + 1..];
  }

  lemma KeepsOperand(consts: Consts, es: seq<Expr>, n: nat, e': Expr)
    requires n < |es| && BetterE(consts, es[n], e') && SettlesE(Firm(consts), Coalesce(es))
    ensures SettlesE(Firm(consts), Coalesce(es[n := e']))
  {
    var x :| x in es && SettlesE(Firm(consts), x);
    var k :| 0 <= k < |es| && es[k] == x;
    assert SettledE(Firm(consts), x) && Fits(Firm(consts), false, consts);
    assert es[n := e'][k] in es[n := e'];
  }

  lemma SingleStmt(s: Stmt)
    ensures WB([s]) == WS(s) && EffectsB([s]) == EffectsS(s)
  {
    assert [s][1..] == [];
  }

  lemma TwoStmts(e: Expr)
    ensures WB([ExprS(e), Noop]) == WE(e) + 2 && EffectsB([ExprS(e), Noop]) == EffectsE(e)
  {
    assert [ExprS(e), Noop][1..] == [Noop];
    SingleStmt(Noop);
  }

  lemma IfFalseNoop(env: Env, vars: Vars, body: seq<Stmt>)
    ensures SimS(env, vars, true, If(Const(BoolV(false)), body, []), Noop)
  {
    IfConstSim(env, vars, false, body, []);
    EmptyBlockSim(env, vars);
    SimSTrans(env, vars, true, If(Const(BoolV(false)), body, []), Block([]), Noop);
  }

  lemma WhileRewrite(env: Env, vars: Vars, c: Expr, c': Expr, body: seq<Stmt>, body': seq<Stmt>)
    requires !env.catchSoft
    requires SimE(env, vars, c, c') || (c' == Const(UnitV) && SimE(env, vars, c, Const(BoolV(true))))
    requires c == Const(UnitV) ==> c' == c
    requires SimB(env, vars, true, false, false, body, body')
    ensures SimS(env, vars, true, While(c, body), While(c', body'))
  {
    if c == Const(UnitV) || SimE(env, vars, c, c') {
      WhileCongruence(env, vars, c, c', body, body');
    } else {
      WhileCongruence(env, vars, c, Const(BoolV(true)), body, body');
      forall fuel: nat, st: State
        ensures EvalS(env, fuel, While(c', body'), st) == EvalS(env, fuel, While(Const(BoolV(true)), body'), st)
      {
        LoopForever(env, fuel, body', st);
      }
    }
  }

  lemma {:induction false} LoopForever(env: Env, fuel: nat, body: seq<Stmt>, st: State)
    ensures EvalS(env, fuel, While(Const(UnitV), body), st) == EvalS(env, fuel, While(Const(BoolV(true)), body), st)
    decreases fuel
  {
    if fuel > 0 {
      var r := EvalBlock(env, fuel, body, st);
      assert EvalE(env, fuel, Const(BoolV(true)), st) == Res(Normal(BoolV(true)), st);
      LoopForever(env, fuel - 1, body, r.st);
    }
  }

  // The operands of the merged guard.
  function Guards(c: Expr, c': Expr, d: Expr): seq<Expr> {
    if c.And? then c.es + [d] else [c', d]
  }

  lemma GuardsSim(env: Env, vars: Vars, consts: Consts, c: Expr, c': Expr, d: Expr, d': Expr)
    requires SimE(env, vars, c, c') && BetterE(consts, c, c') && GoodE(consts, c)
    requires SimE(env, vars, d, d') && BetterE(consts, d, d') && GoodE(consts, d)
    ensures Conjoin(c, d) == And(Guards(c, c, d))
    ensures SimE(env, vars, Conjoin(c, d), And(Guards(c, c', d')))
    ensures BetterEs(consts, Guards(c, c, d), Guards(c, c', d'))
  {
    var es := Guards(c, c, d);
    var n := |es| - 1;
    var es1 := es[n := d'];
    GuardsAreGood(consts, c, d);
    GoodAfter(consts, d, d');
    assert Conjoin(c, d) == And(es);
    hide SimE, SimAll, BetterE, BetterEs, GoodE;
    AllReplace(env, vars, true, es, n, d');
    ReplaceOperand(consts, es, n, d');
    if c.And? {
      assert es1 == Guards(c, c', d');
    } else {
      assert es1 == [c, d'];
      AllReplace(env, vars, true, es1, 0, c');
      ReplaceOperand(consts, es1, 0, c');
      assert es1[0 := c'] == Guards(c, c', d');
      SimAllTrans(env, vars, true, es, es1, Guards(c, c', d'));
      BetterEsTrans(consts, es, es1, Guards(c, c', d'));
    }
    AllCongruence(env, vars, es, Guards(c, c', d'));
  }

  predicate GuardsGood(consts: Consts, es: seq<Expr>) {
    forall x | x in es :: GoodE(consts, x)
  }

  lemma GoodAfter(consts: Consts, e: Expr, e': Expr)
    requires BetterE(consts, e, e')
    ensures GoodE(consts, e')
  {
  }

  lemma GuardsAreGood(consts: Consts, c: Expr, d: Expr)
    requires GoodE(consts, c) && GoodE(consts, d)
    ensures GuardsGood(consts, Guards(c, c, d))
  {
  }

  lemma GuardsSize(c: Expr, d: Expr)
    ensures WEs(Guards(c, c, d)) <= WE(c) + WE(d)
    ensures EffectsEs(Guards(c, c, d)) == EffectsE(c) + EffectsE(d)
    ensures PlainBreaksE(c) && PlainBreaksE(d) ==> PlainBreaksE(And(Guards(c, c, d)))
  {
    SingleOperand(d);
    SingleOperand(c);
    if c.And? {
      EsAppend(c.es, [d]);
    } else {
      EsAppend([c], [d]);
      assert [c] + [d] == [c, d];
    }
  }

  lemma InnerIf(c: Expr, d: Expr, body: seq<Stmt>)
    ensures var s := If(c, [If(d, body, [])], []);
      (TightS(s) ==> TightE(c) && TightE(d) && TightB(body)) &&
      (PlainBreaks(s) ==> PlainBreaksE(c) && PlainBreaksE(d) && PlainBreaksB(body)) &&
      WS(s) == 20 + WE(c) + WE(d) + WB(body) &&
      EffectsS(s) == EffectsE(c) + EffectsE(d) + EffectsB(body)
  {
    var inner := If(d, body, []);
    var s := If(c, [inner], []);
    SingleStmt(inner);
    assert inner in [inner];
    if TightS(s) { assert TightB([inner]) && TightS(inner); }
    if PlainBreaks(s) { assert PlainBreaksB([inner]) && PlainBreaks(inner); }
  }

  lemma NestedIfRewrite(env: Env, vars: Vars, consts: Consts, c: Expr, c': Expr, d: Expr, d': Expr,
                        body: seq<Stmt>, body': seq<Stmt>, preserve: bool)
    requires !env.catchSoft && GoodE(consts, c) && GoodE(consts, d)
    requires SimE(env, vars, c, c') && BetterE(consts, c, c')
    requires SimE(env, vars, d, d') && BetterE(consts, d, d')
    requires SimB(env, vars, true, false, preserve && ValueB(false, body), body, body') && BetterB(consts, body, body')
    requires TightB(body) ==> TightB(body')
    ensures var s := If(c, [If(d, body, [])], []);
      var r := If(And(Guards(c, c', d')), body', []);
      BetterS(consts, s, r) && WS(r) < WS(s) && SimS(env, vars, preserve && TightS(s), s, r)
  {
    hide BetterE, BetterS, BetterEs, BetterB, GoodE, SimE, SimB, SimS, TightB, TightS, PlainBreaks;
    var s, m, r := If(c, [If(d, body, [])], []), If(Conjoin(c, d), body, []), If(And(Guards(c, c', d')), body', []);
    var keep := preserve && TightS(s);
    InnerIf(c, d, body);
    GuardsSim(env, vars, consts, c, c', d, d');
    NestedIfSim(env, vars, c, d, body);
    SimSWeaken(env, vars, true, keep, s, m);
    SimBWeaken(env, vars, true, false, preserve && ValueB(false, body), keep, body, body');
    SimBRefl(env, vars, keep, []);
    IfCongruence(env, vars, keep, Conjoin(c, d), And(Guards(c, c', d')), body, body', [], []);
    SimSTrans(env, vars, keep, s, m, r);
    NestedIfBetter(consts, c, c', d, d', body, body');
  }

  lemma SimBRefl(env: Env, vars: Vars, keep: bool, b: seq<Stmt>)
    ensures SimB(env, vars, true, false, keep, b, b)
  {
  }

  lemma NestedIfBetter(consts: Consts, c: Expr, c': Expr, d: Expr, d': Expr, body: seq<Stmt>, body': seq<Stmt>)
    requires BetterEs(consts, Guards(c, c, d), Guards(c, c', d')) && BetterB(consts, body, body')
    requires TightB(body) ==> TightB(body')
    ensures var s := If(c, [If(d, body, [])], []);
      var r := If(And(Guards(c, c', d')), body', []);
      BetterS(consts, s, r) && WS(r) < WS(s)
  {
    GuardsSize(c, d);
    InnerIf(c, d, body);
    var s, r := If(c, [If(d, body, [])], []), If(And(Guards(c, c', d')), body', []);
    assert TightS(s) ==> TightEs(Guards(c, c, d)) && TightS(r);
    assert PlainBreaks(s) ==> PlainBreaks(r);
    assert EffectsS(r) <= EffectsS(s);
  }

  lemma ValueishNext(consts: Consts, reduce: bool, b: seq<Stmt>, x: seq<Stmt>)
    requires (TightishB(b) ==> TightishB(x)) && HoldsB(consts, reduce, b, x) && ValueishB(reduce, b)
    ensures ValueishB(reduce, x)
  {
    assert Fits(Held(reduce), reduce, consts);
  }

  lemma HoldsTrans(consts: Consts, reduce: bool, b: seq<Stmt>, x: seq<Stmt>, x': seq<Stmt>)
    requires HoldsB(consts, reduce, b, x) && HoldsB(consts, reduce, x, x')
    ensures HoldsB(consts, reduce, b, x')
  {
  }

  // Chaining the phases of a round: meaning, and the value where it is the optimizer's to keep.
  ghost predicate Phase(env: Env, vars: Vars, consts: Consts, internal: bool, reduce: bool, preserve: bool,
                        b: seq<Stmt>, x: seq<Stmt>)
  {
    BetterB(consts, b, x) && (preserve ==> HoldsB(consts, reduce, b, x)) &&
    SimB(env, vars, internal, reduce, preserve && ValueishB(reduce, b), b, x)
  }

  lemma RoundStep(env: Env, vars: Vars, consts: Consts, internal: bool, reduce: bool, preserve: bool,
                  b: seq<Stmt>, x: seq<Stmt>, x': seq<Stmt>)
    requires Phase(env, vars, consts, internal, reduce, preserve, b, x)
    requires Phase(env, vars, consts, internal, reduce, preserve, x, x')
    ensures Phase(env, vars, consts, internal, reduce, preserve, b, x')
  {
    var keep := preserve && ValueishB(reduce, b);
    if keep { ValueishNext(consts, reduce, b, x); }
    if preserve { HoldsTrans(consts, reduce, b, x, x'); }
    hide ValueishB, HoldsB;
    SimBWeaken(env, vars, internal, reduce, preserve && ValueishB(reduce, x), keep, x, x');
    SimBTrans(env, vars, internal, reduce, keep, b, x, x');
  }

  // A phase that looks at the list alone.
  lemma ListPhase(env: Env, vars: Vars, consts: Consts, internal: bool, reduce: bool, preserve: bool,
                  x: seq<Stmt>, x': seq<Stmt>)
    requires GoodB(consts, x) && Inherits(consts, x, x') && WB(x') <= WB(x)
    requires preserve ==> HoldsB(consts, reduce, x, x')
    requires SimB(env, vars, internal, reduce, preserve && ValueishB(reduce, x), x, x') ||
             SimB(env, vars, internal, reduce, preserve, x, x')
    ensures Phase(env, vars, consts, internal, reduce, preserve, x, x')
  {
    if SimB(env, vars, internal, reduce, preserve, x, x') {
      SimBWeaken(env, vars, internal, reduce, preserve, preserve && ValueishB(reduce, x), x, x');
    }
    InheritsBetter(consts, x, x');
  }

  // The stack for the variables of an initial scope.
  function ScopeVars(scope: seq<Entry>): Vars {
    if scope == [] then []
    else
      var e := scope[|scope| - 1];
      ScopeVars(scope[..|scope| - 1]) + [(e.name, if e.isConst then Some(e.val) else None)]
  }

  // The constants of the scope are among those that may be propagated.
  predicate Propagates(scope: seq<Entry>, consts: Consts) {
    forall e | e in scope :: e.isConst ==> e.name in consts && (e.val == UnitV ==> consts[e.name])
  }

  lemma ScopeVarsAgree(scope: seq<Entry>, consts: Consts)
    requires Propagates(scope, consts)
    ensures Agree(ScopeVars(scope), scope) && VarsIn(ScopeVars(scope), consts)
  {
    if scope != [] {
      var rest, e := scope[..|scope| - 1], scope[|scope| - 1];
      ScopeVarsAgree(rest, consts);
      assert scope == rest + [e];
      var c := if e.isConst then Some(e.val) else None;
      AgreePush(ScopeVars(rest), rest, e.name, c, e.isConst, e.val);
      assert e in scope;
      forall x | FindConst(ScopeVars(scope), x).Some?
        ensures x in consts && (FindConst(ScopeVars(scope), x) == Some(UnitV) ==> consts[x])
      {
        FindPushed(ScopeVars(rest), e.name, c, x);
      }
    }
  }
}
