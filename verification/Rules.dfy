// The rewrites of single expressions and statements, each shown to keep every checked run.

module Rules {
  import opened Options
  import opened Ast
  import opened Eval
  import opened Operators
  import opened EvalFacts
  import opened Conditions
  import opened Simulation

  // ---- expressions ----

  lemma {:induction false} ConstantEval(env: Env, fuel: nat, e: Expr, st: State)
    requires IsConstant(e)
    ensures EvalE(env, fuel, e, st) == Res(Normal(LiteralValue(e)), st)
    decreases e
  {
    if e.Arr? { ConstantArgs(env, fuel, e.es, st); }
  }

  lemma {:induction false} ConstantArgs(env: Env, fuel: nat, es: seq<Expr>, st: State)
    requires forall x | x in es :: IsConstant(x)
    ensures EvalArgs(env, fuel, es, st).o.Normal?
    ensures EvalArgs(env, fuel, es, st).vs == LiteralValues(es) && EvalArgs(env, fuel, es, st).st == st
    decreases es
  {
    if es != [] {
      ConstantEval(env, fuel, es[0], st);
      ConstantArgs(env, fuel, es[1..], st);
    }
  }

  lemma ConstantSim(env: Env, vars: Vars, e: Expr)
    requires IsConstant(e)
    ensures SimE(env, vars, e, Const(LiteralValue(e)))
  {
    forall fuel: nat, st: State
      ensures EvalE(env, fuel, e, st) == Res(Normal(LiteralValue(e)), st)
    {
      ConstantEval(env, fuel, e, st);
    }
  }

  lemma PropagateSim(env: Env, vars: Vars, x: string)
    requires FindConst(vars, x).Some?
    ensures SimE(env, vars, Var(x), Const(FindConst(vars, x).value))
  {
    forall fuel: nat, st: State | Agree(vars, st.scope)
      ensures EvalE(env, fuel, Const(FindConst(vars, x).value), st) == EvalE(env, fuel, Var(x), st)
    {
      assert AgreeOn(vars, st.scope, x);
    }
  }

  lemma FoldBinarySim(env: Env, vars: Vars, f: string, a: Expr, b: Expr, v: Val)
    requires IsConstant(a) && IsConstant(b)
    requires BuiltinBinary(f, LiteralValue(a), LiteralValue(b)) == OpValue(v)
    ensures SimE(env, vars, Call(f, [a, b]), Const(v))
  {
    forall fuel: nat, st: State
      ensures EvalE(env, fuel, Call(f, [a, b]), st) == Res(Normal(v), st)
    {
      ConstantEval(env, fuel, a, st);
      ConstantEval(env, fuel, b, st);
      assert EvalArgs(env, fuel, [b], st) == ResL(Normal(UnitV), [LiteralValue(b)], st);
      assert [a, b][1..] == [b];
      assert EvalArgs(env, fuel, [a, b], st) == ResL(Normal(UnitV), [LiteralValue(a), LiteralValue(b)], st);
    }
  }

  lemma FoldNotSim(env: Env, vars: Vars, c: bool)
    ensures SimE(env, vars, Call("!", [Const(BoolV(c))]), Const(BoolV(!c)))
  {
    forall fuel: nat, st: State
      ensures EvalE(env, fuel, Call("!", [Const(BoolV(c))]), st) == Res(Normal(BoolV(!c)), st)
    {
      assert EvalArgs(env, fuel, [Const(BoolV(c))], st) == ResL(Normal(UnitV), [BoolV(c)], st);
    }
  }

  lemma RewindShape(a: State, b: State)
    requires SameShape(a.scope, b.scope)
    ensures Rewind(b, |a.scope|) == b
  {
    RewindSelf(b);
  }

  lemma BlockExprSim(env: Env, vars: Vars, e: Expr)
    ensures SimE(env, vars, StmtE([ExprS(e)]), e)
    ensures SimE(env, vars, StmtE([]), Const(UnitV))
  {
    forall fuel: nat, st: State
      ensures EvalE(env, fuel, StmtE([ExprS(e)]), st) == EvalE(env, fuel, e, st)
      ensures EvalE(env, fuel, StmtE([]), st) == Res(Normal(UnitV), st)
    {
      ShapeE(env, fuel, e, st);
      RewindShape(st, EvalE(env, fuel, e, st).st);
      RewindSelf(st);
      assert EvalSeq(env, fuel, [ExprS(e)], UnitV, st) == EvalE(env, fuel, e, st);
      assert EvalSeq(env, fuel, [], UnitV, st) == Res(Normal(UnitV), st);
      assert EvalE(env, fuel, StmtE([]), st) == EvalBlock(env, fuel, [], st);
    }
  }

  // ---- n-ary && and || ----

  lemma {:induction false} AllAppend(env: Env, fuel: nat, a: seq<Expr>, b: seq<Expr>, unit: bool, st: State)
    ensures EvalAll(env, fuel, a + b, unit, st) ==
      var r := EvalAll(env, fuel, a, unit, st);
      if r.o == Normal(BoolV(unit)) then EvalAll(env, fuel, b, unit, r.st) else r
  {
    if a == [] {
      assert a + b == b;
    } else {
      assert (a + b)[0] == a[0] && (a + b)[1..] == a[1..] + b;
      var r := EvalE(env, fuel, a[0], st);
      if r.o == Normal(BoolV(unit)) { AllAppend(env, fuel, a[1..], b, unit, r.st); }
    }
  }

  // `true && x` is `x`, `false || x` is `x`.
  lemma AllRemove(env: Env, vars: Vars, unit: bool, es: seq<Expr>, n: nat)
    requires n < |es| && es[n] == Const(BoolV(unit))
    ensures SimAll(env, vars, unit, es, es[..n] + es[n + 1..])
  {
    assert es == es[..n] + ([es[n]] + es[n + 1..]);
    forall fuel: nat, st: State
      ensures EvalAll(env, fuel, es[..n] + es[n + 1..], unit, st) == EvalAll(env, fuel, es, unit, st)
    {
      AllAppend(env, fuel, es[..n], es[n + 1..], unit, st);
      AllAppend(env, fuel, es[..n], [es[n]] + es[n + 1..], unit, st);
      var r := EvalAll(env, fuel, es[..n], unit, st);
      AllAppend(env, fuel, [es[n]], es[n + 1..], unit, r.st);
      assert EvalAll(env, fuel, [es[n]], unit, r.st) == Res(Normal(BoolV(unit)), r.st);
    }
  }

  // Nothing after a deciding literal is evaluated.
  lemma AllTruncate(env: Env, vars: Vars, unit: bool, es: seq<Expr>, n: nat)
    requires n < |es| && es[n] == Const(BoolV(!unit))
    ensures SimAll(env, vars, unit, es, es[..n + 1])
  {
    assert es == es[..n + 1] + es[n + 1..];
    assert es[..n + 1] == es[..n] + [es[n]];
    forall fuel: nat, st: State
      ensures EvalAll(env, fuel, es[..n + 1], unit, st) == EvalAll(env, fuel, es, unit, st)
    {
      AllAppend(env, fuel, es[..n + 1], es[n + 1..], unit, st);
      AllAppend(env, fuel, es[..n], [es[n]], unit, st);
      var r := EvalAll(env, fuel, es[..n], unit, st);
      assert EvalAll(env, fuel, [es[n]], unit, r.st) == Res(Normal(BoolV(!unit)), r.st);
    }
  }

  // Pure operands before a deciding literal can be dropped with it.
  lemma AllDecided(env: Env, vars: Vars, es: seq<Expr>, n: nat, unit: bool)
    requires !env.catchSoft
    requires n < |es| && es[n] == Const(BoolV(!unit)) && forall x | x in es[..n] :: IsPureE(x)
    ensures SimE(env, vars, if unit then And(es) else Or(es), Const(BoolV(!unit)))
  {
    assert es == es[..n] + ([es[n]] + es[n + 1..]);
    forall fuel: nat, st: State | Done(EvalAll(env, fuel, es, unit, st).o)
      ensures EvalAll(env, fuel, es, unit, st) == Res(Normal(BoolV(!unit)), st)
    {
      AllAppend(env, fuel, es[..n], [es[n]] + es[n + 1..], unit, st);
      var r := EvalAll(env, fuel, es[..n], unit, st);
      PureAll(env, fuel, es[..n], unit, st, st);
      AllValue(env, fuel, es[..n], unit, st);
      assert EvalAll(env, fuel, [es[n]] + es[n + 1..], unit, st) == Res(Normal(BoolV(!unit)), st);
    }
    if unit { assert SimE(env, vars, And(es), Const(BoolV(false))); }
    else { assert SimE(env, vars, Or(es), Const(BoolV(true))); }
  }

  lemma {:induction false} AllValue(env: Env, fuel: nat, es: seq<Expr>, unit: bool, st: State)
    requires EvalAll(env, fuel, es, unit, st).o.Normal?
    ensures EvalAll(env, fuel, es, unit, st).o.v.BoolV?
    decreases es
  {
    if es != [] {
      var r := EvalE(env, fuel, es[0], st);
      if r.o == Normal(BoolV(unit)) { AllValue(env, fuel, es[1..], unit, r.st); }
    }
  }

  lemma AllSmall(env: Env, vars: Vars, x: Expr)
    requires !env.catchSoft
    ensures SimE(env, vars, And([]), Const(BoolV(true)))
    ensures SimE(env, vars, Or([]), Const(BoolV(false)))
    ensures SimE(env, vars, And([x]), x)
    ensures SimE(env, vars, Or([x]), x)
    ensures SimE(env, vars, Coalesce([x]), x)
  {
    forall fuel: nat, st: State
      ensures EvalE(env, fuel, And([]), st) == Res(Normal(BoolV(true)), st)
      ensures EvalE(env, fuel, Or([]), st) == Res(Normal(BoolV(false)), st)
    {
      assert EvalAll(env, fuel, [], true, st) == Res(Normal(BoolV(true)), st);
      assert EvalAll(env, fuel, [], false, st) == Res(Normal(BoolV(false)), st);
    }
    forall fuel: nat, st: State
      ensures Done(EvalE(env, fuel, And([x]), st).o) ==> EvalE(env, fuel, x, st) == EvalE(env, fuel, And([x]), st)
      ensures Done(EvalE(env, fuel, Or([x]), st).o) ==> EvalE(env, fuel, x, st) == EvalE(env, fuel, Or([x]), st)
      ensures EvalE(env, fuel, x, st) == EvalE(env, fuel, Coalesce([x]), st)
    {
      var r := EvalE(env, fuel, x, st);
      assert EvalAll(env, fuel, [], true, r.st) == Res(Normal(BoolV(true)), r.st);
      assert EvalAll(env, fuel, [], false, r.st) == Res(Normal(BoolV(false)), r.st);
      assert EvalFirst(env, fuel, [], r.st) == Res(Normal(UnitV), r.st);
      assert EvalFirst(env, fuel, [x], st) == r;
      assert EvalE(env, fuel, And([x]), st) == EvalAll(env, fuel, [x], true, st);
      assert EvalE(env, fuel, Or([x]), st) == EvalAll(env, fuel, [x], false, st);
    }
  }

  // ---- n-ary ?? ----

  lemma {:induction false} FirstAppend(env: Env, fuel: nat, a: seq<Expr>, b: seq<Expr>, st: State)
    ensures EvalFirst(env, fuel, a + b, st) ==
      var r := EvalFirst(env, fuel, a, st);
      if r.o == Normal(UnitV) then EvalFirst(env, fuel, b, r.st) else r
  {
    if a == [] {
      assert a + b == b;
    } else {
      assert (a + b)[0] == a[0] && (a + b)[1..] == a[1..] + b;
      var r := EvalE(env, fuel, a[0], st);
      if r.o == Normal(UnitV) { FirstAppend(env, fuel, a[1..], b, r.st); }
    }
  }

  lemma FirstRemove(env: Env, vars: Vars, es: seq<Expr>, n: nat)
    requires n < |es| && es[n] == Const(UnitV)
    ensures SimFirst(env, vars, es, es[..n] + es[n + 1..])
  {
    assert es == es[..n] + ([es[n]] + es[n + 1..]);
    forall fuel: nat, st: State
      ensures EvalFirst(env, fuel, es[..n] + es[n + 1..], st) == EvalFirst(env, fuel, es, st)
    {
      FirstAppend(env, fuel, es[..n], es[n + 1..], st);
      FirstAppend(env, fuel, es[..n], [es[n]] + es[n + 1..], st);
      var r := EvalFirst(env, fuel, es[..n], st);
      FirstAppend(env, fuel, [es[n]], es[n + 1..], r.st);
      assert EvalFirst(env, fuel, [es[n]], r.st) == Res(Normal(UnitV), r.st);
    }
  }

  lemma FirstTruncate(env: Env, vars: Vars, es: seq<Expr>, n: nat)
    requires n < |es| && IsConstant(es[n]) && LiteralValue(es[n]) != UnitV
    ensures SimFirst(env, vars, es, es[..n + 1])
  {
    assert es == es[..n + 1] + es[n + 1..];
    assert es[..n + 1] == es[..n] + [es[n]];
    forall fuel: nat, st: State
      ensures EvalFirst(env, fuel, es[..n + 1], st) == EvalFirst(env, fuel, es, st)
    {
      FirstAppend(env, fuel, es[..n + 1], es[n + 1..], st);
      FirstAppend(env, fuel, es[..n], [es[n]], st);
      var r := EvalFirst(env, fuel, es[..n], st);
      ConstantEval(env, fuel, es[n], r.st);
      assert EvalFirst(env, fuel, [es[n]], r.st) == Res(Normal(LiteralValue(es[n])), r.st);
    }
  }

  // ---- x = x op e  is  x op= e ----

  ghost predicate SameOn(x: string, a: seq<Entry>, b: seq<Entry>) {
    |a| <= |b| && forall k | 0 <= k < |a| :: a[k].name == x ==> b[k] == a[k]
  }

  lemma {:induction false} FrameE(env: Env, fuel: nat, e: Expr, x: string, st: State)
    requires Assigns(x) !in EffectsE(e)
    ensures SameOn(x, st.scope, EvalE(env, fuel, e, st).st.scope)
    decreases fuel, e
  {
    match e
    case Const(_) =>
    case Var(_) =>
    case StmtE(b) => FrameBlock(env, fuel, b, x, st);
    case Call(_, args) => FrameArgs(env, fuel, args, x, st);
    case And(es) => FrameAll(env, fuel, es, true, x, st);
    case Or(es) => FrameAll(env, fuel, es, false, x, st);
    case Coalesce(es) => FrameFirst(env, fuel, es, x, st);
    case Arr(es) => FrameArgs(env, fuel, es, x, st);
  }

  lemma {:induction false} FrameArgs(env: Env, fuel: nat, es: seq<Expr>, x: string, st: State)
    requires Assigns(x) !in EffectsEs(es)
    ensures SameOn(x, st.scope, EvalArgs(env, fuel, es, st).st.scope)
    decreases fuel, es, 0
  {
    if es != [] {
      ShapeE(env, fuel, es[0], st);
      FrameE(env, fuel, es[0], x, st);
      FrameArgs(env, fuel, es[1..], x, EvalE(env, fuel, es[0], st).st);
    }
  }

  lemma {:induction false} FrameAll(env: Env, fuel: nat, es: seq<Expr>, unit: bool, x: string, st: State)
    requires Assigns(x) !in EffectsEs(es)
    ensures SameOn(x, st.scope, EvalAll(env, fuel, es, unit, st).st.scope)
    decreases fuel, es, 0
  {
    if es != [] {
      ShapeE(env, fuel, es[0], st);
      FrameE(env, fuel, es[0], x, st);
      FrameAll(env, fuel, es[1..], unit, x, EvalE(env, fuel, es[0], st).st);
    }
  }

  lemma {:induction false} FrameFirst(env: Env, fuel: nat, es: seq<Expr>, x: string, st: State)
    requires Assigns(x) !in EffectsEs(es)
    ensures SameOn(x, st.scope, EvalFirst(env, fuel, es, st).st.scope)
    decreases fuel, es, 0
  {
    if es != [] {
      ShapeE(env, fuel, es[0], st);
      FrameE(env, fuel, es[0], x, st);
      FrameFirst(env, fuel, es[1..], x, EvalE(env, fuel, es[0], st).st);
    }
  }

  lemma {:induction false} FrameSeq(env: Env, fuel: nat, b: seq<Stmt>, v: Val, x: string, st: State)
    requires Assigns(x) !in EffectsB(b)
    ensures SameOn(x, st.scope, EvalSeq(env, fuel, b, v, st).st.scope)
    decreases fuel, b, 0
  {
    if b != [] {
      ShapeS(env, fuel, b[0], st);
      FrameS(env, fuel, b[0], x, st);
      var r := EvalS(env, fuel, b[0], st);
      if r.o.Normal? { FrameSeq(env, fuel, b[1..], r.o.v, x, r.st); }
    }
  }

  lemma {:induction false} FrameBlock(env: Env, fuel: nat, b: seq<Stmt>, x: string, st: State)
    requires Assigns(x) !in EffectsB(b)
    ensures SameOn(x, st.scope, EvalBlock(env, fuel, b, st).st.scope)
    decreases fuel, b, 1
  {
    FrameSeq(env, fuel, b, UnitV, x, st);
  }

  lemma {:induction false} FrameFor(env: Env, fuel: nat, s: Stmt, n: nat, vs: seq<Val>, round: nat, x: string,
                                    st: State, base: seq<Entry>)
    requires s.For? && Assigns(x) !in EffectsB(s.body)
    requires n == |base| && Extends(base, st.scope) && SameOn(x, base, st.scope)
    ensures SameOn(x, base, EvalFor(env, fuel, s, n, vs, round, st).st.scope)
    decreases fuel, s, |vs|
  {
    if vs != [] {
      var st1 := if s.counter.Some? then SetAt(SetAt(st, n, IntV(round)), n + 1, vs[0])
                 else SetAt(st, n, vs[0]);
      assert Extends(base, st1.scope) && SameOn(x, base, st1.scope);
      ShapeBlock(env, fuel, s.body, st1);
      FrameBlock(env, fuel, s.body, x, st1);
      var r := EvalBlock(env, fuel, s.body, st1);
      assert Extends(base, r.st.scope);
      FrameFor(env, fuel, s, n, vs[1..], round + 1, x, r.st, base);
    }
  }

  lemma {:induction false} FrameLoop(env: Env, fuel: nat, s: Stmt, x: string, st: State)
    requires (s.While? || s.Do?) && Assigns(x) !in EffectsS(s)
    ensures SameOn(x, st.scope, EvalS(env, fuel, s, st).st.scope)
    decreases fuel, s, 0
  {
    if fuel > 0 {
      if s.While? {
        ShapeE(env, fuel, s.cond, st);
        FrameE(env, fuel, s.cond, x, st);
        var r := if s.cond == Const(UnitV) then Res(Normal(BoolV(true)), st) else EvalE(env, fuel, s.cond, st);
        ShapeBlock(env, fuel, s.body, r.st);
        FrameBlock(env, fuel, s.body, x, r.st);
        FrameLoop(env, fuel - 1, s, x, EvalBlock(env, fuel, s.body, r.st).st);
      } else {
        ShapeBlock(env, fuel, s.body, st);
        FrameBlock(env, fuel, s.body, x, st);
        var r := EvalBlock(env, fuel, s.body, st);
        ShapeE(env, fuel, s.cond, r.st);
        FrameE(env, fuel, s.cond, x, r.st);
        FrameLoop(env, fuel - 1, s, x, r.st);
        FrameLoop(env, fuel - 1, s, x, EvalE(env, fuel, s.cond, r.st).st);
      }
    }
  }

  lemma {:induction false} FrameTry(env: Env, fuel: nat, s: Stmt, x: string, st: State)
    requires s.Try? && Assigns(x) !in EffectsS(s)
    ensures SameOn(x, st.scope, EvalS(env, fuel, s, st).st.scope)
    decreases fuel, s, 0
  {
    ShapeBlock(env, fuel, s.body, st);
    FrameBlock(env, fuel, s.body, x, st);
    var r := EvalBlock(env, fuel, s.body, st);
    if r.o.Threw? {
      var p := PushCatchVar(s.catchVar, r.o.v, r.st);
      ShapeBlock(env, fuel, s.branch, p);
      FrameBlock(env, fuel, s.branch, x, p);
    }
  }

  lemma {:induction false} FrameS(env: Env, fuel: nat, s: Stmt, x: string, st: State)
    requires Assigns(x) !in EffectsS(s)
    ensures SameOn(x, st.scope, EvalS(env, fuel, s, st).st.scope)
    decreases fuel, s
  {
    match s
    case Noop =>
    case ExprS(e) => FrameE(env, fuel, e, x, st);
    case CallS(_, args) => FrameArgs(env, fuel, args, x, st);
    case Block(b) => FrameBlock(env, fuel, b, x, st);
    case Let(_, e, _) => FrameE(env, fuel, e, x, st);
    case Assign(_, _, e) =>
      FrameE(env, fuel, e, x, st);
      ShapeE(env, fuel, e, st);
    case If(c, body, branch) =>
      FrameE(env, fuel, c, x, st);
      ShapeE(env, fuel, c, st);
      var r := EvalE(env, fuel, c, st);
      if r.o == Normal(BoolV(true)) { FrameBlock(env, fuel, body, x, r.st); }
      if r.o == Normal(BoolV(false)) { FrameBlock(env, fuel, branch, x, r.st); }
    case While(_, _) => FrameLoop(env, fuel, s, x, st);
    case Do(_, _, _) => FrameLoop(env, fuel, s, x, st);
    case For(_, _, it, _) =>
      FrameE(env, fuel, it, x, st);
      ShapeE(env, fuel, it, st);
      var r := EvalE(env, fuel, it, st);
      if r.o.Normal? && r.o.v.ArrV? {
        FrameFor(env, fuel, s, |r.st.scope|, r.o.v.a, 0, x, PushLoopVars(s, r.st), r.st.scope);
      }
    case Try(_, _, _) => FrameTry(env, fuel, s, x, st);
    case Jump(_, val) => if val.Some? { FrameE(env, fuel, val.value, x, st); }
    case Return(val, _) => if val.Some? { FrameE(env, fuel, val.value, x, st); }
  }

  lemma TwoArgs(env: Env, fuel: nat, a: Expr, b: Expr, st: State)
    ensures EvalArgs(env, fuel, [a, b], st) ==
      var r := EvalE(env, fuel, a, st);
      if !r.o.Normal? then ResL(r.o, [], r.st)
      else
        var r2 := EvalE(env, fuel, b, r.st);
        if !r2.o.Normal? then ResL(r2.o, [r.o.v], r2.st)
        else ResL(Normal(UnitV), [r.o.v, r2.o.v], r2.st)
  {
    var r := EvalE(env, fuel, a, st);
    if r.o.Normal? {
      assert [a, b][1..] == [b];
      var r2 := EvalE(env, fuel, b, r.st);
      assert EvalArgs(env, fuel, [], r2.st) == ResL(Normal(UnitV), [], r2.st);
      assert EvalArgs(env, fuel, [b], r.st) ==
        if !r2.o.Normal? then ResL(r2.o, [], r2.st) else ResL(Normal(UnitV), [r2.o.v], r2.st);
    }
  }

  lemma OpAssignSim(env: Env, vars: Vars, x: string, f: string, e: Expr)
    requires !env.catchSoft && Assigns(x) !in EffectsE(e)
    ensures SimS(env, vars, true, Assign(x, None, Call(f, [Var(x), e])), Assign(x, Some(f), e))
  {
    hide BuiltinBinary, EvalArgs, EffectsE, EvalBlock, EvalFor, EvalSeq, EvalAll, EvalFirst;
    var s, s' := Assign(x, None, Call(f, [Var(x), e])), Assign(x, Some(f), e);
    forall fuel: nat, st: State | Done(EvalS(env, fuel, s, st).o)
      ensures EvalS(env, fuel, s', st) == EvalS(env, fuel, s, st)
    {
      TwoArgs(env, fuel, Var(x), e, st);
      var k := Lookup(st.scope, x);
      var r := EvalE(env, fuel, e, st);
      FrameE(env, fuel, e, x, st);
      ShapeE(env, fuel, e, st);
      LookupSameShape(st.scope, r.st.scope, x);
    }
  }

  // ---- if ----

  lemma EmptyBlock(env: Env, fuel: nat, st: State)
    ensures EvalBlock(env, fuel, [], st) == Res(Normal(UnitV), st)
  {
    RewindSelf(st);
  }

  lemma IfEmptySim(env: Env, vars: Vars, c: Expr)
    requires !env.catchSoft
    ensures SimS(env, vars, true, If(c, [], []), Block([ExprS(c), Noop]))
    ensures SimS(env, vars, false, If(c, [], []), ExprS(c))
  {
    forall fuel: nat, st: State | Done(EvalS(env, fuel, If(c, [], []), st).o)
      ensures EvalS(env, fuel, Block([ExprS(c), Noop]), st) == EvalS(env, fuel, If(c, [], []), st)
      ensures Kept(false, EvalS(env, fuel, If(c, [], []), st), EvalS(env, fuel, ExprS(c), st))
    {
      var r := EvalE(env, fuel, c, st);
      ShapeE(env, fuel, c, st);
      RewindShape(st, r.st);
      EmptyBlock(env, fuel, r.st);
      assert [ExprS(c), Noop][1..] == [Noop];
      if r.o.Normal? {
        assert EvalSeq(env, fuel, [Noop], r.o.v, r.st) == Res(Normal(UnitV), r.st);
      }
      assert EvalSeq(env, fuel, [ExprS(c), Noop], UnitV, st) ==
        if r.o.Normal? then Res(Normal(UnitV), r.st) else r;
    }
  }

  lemma IfConstSim(env: Env, vars: Vars, c: bool, body: seq<Stmt>, branch: seq<Stmt>)
    ensures SimS(env, vars, true, If(Const(BoolV(c)), body, branch), Block(if c then body else branch))
  {
    forall fuel: nat, st: State
      ensures EvalS(env, fuel, If(Const(BoolV(c)), body, branch), st) ==
        EvalBlock(env, fuel, if c then body else branch, st)
    {
      assert EvalE(env, fuel, Const(BoolV(c)), st) == Res(Normal(BoolV(c)), st);
    }
  }

  lemma EmptyBlockSim(env: Env, vars: Vars)
    ensures SimS(env, vars, true, Block([]), Noop)
  {
    forall fuel: nat, st: State
      ensures EvalS(env, fuel, Block([]), st) == EvalS(env, fuel, Noop, st)
    {
      EmptyBlock(env, fuel, st);
    }
  }

  // The guards of two nested ifs, whether or not the outer one is already an `&&`.
  function Conjoin(c: Expr, d: Expr): Expr {
    if c.And? then And(c.es + [d]) else And([c, d])
  }

  lemma ConjoinEval(env: Env, fuel: nat, c: Expr, d: Expr, st: State)
    requires !env.catchSoft
    ensures EvalE(env, fuel, Conjoin(c, d), st) ==
      var r := EvalE(env, fuel, c, st);
      if !r.o.Normal? then r
      else if !r.o.v.BoolV? then Res(Stuck, r.st)
      else if !r.o.v.b then r
      else
        var r2 := EvalE(env, fuel, d, r.st);
        if r2.o.Normal? && !r2.o.v.BoolV? then Res(Stuck, r2.st) else r2
  {
    hide EvalS, EvalBlock, EvalSeq, EvalArgs, EvalFirst, Apply, Lookup;
    var es := if c.And? then c.es else [c];
    assert Conjoin(c, d) == And(es + [d]) by { assert [c] + [d] == [c, d]; }
    AllAppend(env, fuel, es, [d], true, st);
    var r := EvalE(env, fuel, c, st);
    var ra := EvalAll(env, fuel, es, true, st);
    if c.And? {
      assert ra == r;
      if r.o.Normal? { AllValue(env, fuel, es, true, st); }
    } else {
      assert EvalAll(env, fuel, [], true, r.st) == Res(Normal(BoolV(true)), r.st);
    }
    var r2 := EvalE(env, fuel, d, r.st);
    assert EvalAll(env, fuel, [], true, r2.st) == Res(Normal(BoolV(true)), r2.st);
  }

  lemma NestedIfSim(env: Env, vars: Vars, c: Expr, d: Expr, body: seq<Stmt>)
    requires !env.catchSoft
    ensures SimS(env, vars, true, If(c, [If(d, body, [])], []), If(Conjoin(c, d), body, []))
  {
    var inner := If(d, body, []);
    var s, s' := If(c, [inner], []), If(Conjoin(c, d), body, []);
    forall fuel: nat, st: State | Done(EvalS(env, fuel, s, st).o)
      ensures EvalS(env, fuel, s', st) == EvalS(env, fuel, s, st)
    {
      ConjoinEval(env, fuel, c, d, st);
      var r := EvalE(env, fuel, c, st);
      EmptyBlock(env, fuel, r.st);
      if r.o == Normal(BoolV(true)) {
        var ri := EvalS(env, fuel, inner, r.st);
        assert EvalSeq(env, fuel, [inner], UnitV, r.st) == ri;
        ShapeS(env, fuel, inner, r.st);
        RewindShape(r.st, ri.st);
        assert EvalS(env, fuel, s, st) == ri;
        var r2 := EvalE(env, fuel, d, r.st);
        EmptyBlock(env, fuel, r2.st);
      }
    }
  }

  // ---- the other statements ----

  lemma WhileFalseSim(env: Env, vars: Vars, body: seq<Stmt>)
    ensures SimS(env, vars, true, While(Const(BoolV(false)), body), Noop)
  {
  }

  lemma TryPureSim(env: Env, vars: Vars, body: seq<Stmt>, cv: Option<string>, branch: seq<Stmt>)
    requires !env.catchSoft && forall s | s in body :: IsPure(s)
    ensures SimS(env, vars, true, Try(body, cv, branch), Block(body))
  {
    forall fuel: nat, st: State | Done(EvalS(env, fuel, Try(body, cv, branch), st).o)
      ensures EvalS(env, fuel, Block(body), st) == EvalS(env, fuel, Try(body, cv, branch), st)
    {
      if Done(EvalBlock(env, fuel, body, st).o) { PureBlock(env, fuel, body, st, st); }
    }
  }

  lemma ExprBlockSim(env: Env, vars: Vars, b: seq<Stmt>, f: string, args: seq<Expr>)
    ensures SimS(env, vars, true, ExprS(StmtE(b)), Block(b))
    ensures SimS(env, vars, true, ExprS(StmtE([])), Noop)
    ensures SimS(env, vars, true, ExprS(Call(f, args)), CallS(f, args))
    ensures SimS(env, vars, true, CallS(f, args), ExprS(Call(f, args)))
  {
    forall fuel: nat, st: State
      ensures EvalS(env, fuel, ExprS(StmtE(b)), st) == EvalBlock(env, fuel, b, st)
      ensures EvalS(env, fuel, ExprS(StmtE([])), st) == Res(Normal(UnitV), st)
    {
      assert EvalE(env, fuel, StmtE(b), st) == EvalBlock(env, fuel, b, st);
      assert EvalE(env, fuel, StmtE([]), st) == EvalBlock(env, fuel, [], st);
      EmptyBlock(env, fuel, st);
    }
  }

  lemma BlockSingleSim(env: Env, vars: Vars, s: Stmt)
    requires !s.Let?
    ensures SimS(env, vars, true, Block([s]), s)
  {
    forall fuel: nat, st: State
      ensures EvalS(env, fuel, Block([s]), st) == EvalS(env, fuel, s, st)
    {
      var r := EvalS(env, fuel, s, st);
      ShapeS(env, fuel, s, st);
      RewindShape(st, r.st);
      assert EvalSeq(env, fuel, [s], UnitV, st) == r;
    }
  }
}
