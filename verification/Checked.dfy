// Checked runs and runs of the interpreter.
//
// A checked run stops (`Stuck`) at a failing variable read, a failing type check and an assignment
// to a constant; the interpreter raises an exception there, which a `try` may catch.  Up to such a
// point the two are the same run, and without any `try` a script that ends other than by an
// exception never gets to such a point.

module Checked {
  import opened Options
  import opened Ast
  import opened Eval

  predicate TryFreeE(e: Expr) {
    match e
    case Const(_) => true
    case Var(_) => true
    case StmtE(b) => TryFreeB(b)
    case Call(_, args) => forall x | x in args :: TryFreeE(x)
    case And(es) => forall x | x in es :: TryFreeE(x)
    case Or(es) => forall x | x in es :: TryFreeE(x)
    case Coalesce(es) => forall x | x in es :: TryFreeE(x)
    case Arr(es) => forall x | x in es :: TryFreeE(x)
  }

  predicate TryFreeS(s: Stmt) {
    match s
    case Noop => true
    case ExprS(e) => TryFreeE(e)
    case CallS(_, args) => forall x | x in args :: TryFreeE(x)
    case If(c, body, branch) => TryFreeE(c) && TryFreeB(body) && TryFreeB(branch)
    case While(c, body) => TryFreeE(c) && TryFreeB(body)
    case Do(c, body, _) => TryFreeE(c) && TryFreeB(body)
    case For(_, _, it, body) => TryFreeE(it) && TryFreeB(body)
    case Let(_, e, _) => TryFreeE(e)
    case Assign(_, _, e) => TryFreeE(e)
    case Block(b) => TryFreeB(b)
    case Try(_, _, _) => false
    case Jump(_, None) => true
    case Jump(_, Some(e)) => TryFreeE(e)
    case Return(None, _) => true
    case Return(Some(e), _) => TryFreeE(e)
  }

  predicate TryFreeB(b: seq<Stmt>) {
    forall s | s in b :: TryFreeS(s)
  }

  // The same host, with the interpreter's exceptions.
  function Interpreter(env: Env): Env {
    env.(catchSoft := true)
  }

  // `c` is the checked run and `r` the interpreter's; `tf` says that no `try` is around.
  predicate Matches(tf: bool, c: Res, r: Res) {
    if c.o.Stuck? then tf ==> r.o.Threw? else r == c
  }

  predicate MatchesL(tf: bool, c: ResL, r: ResL) {
    if c.o.Stuck? then tf ==> r.o.Threw? else r == c
  }

  lemma {:induction false} MatchE(env: Env, tf: bool, fuel: nat, e: Expr, st: State)
    requires !env.catchSoft && (tf ==> TryFreeE(e))
    ensures Matches(tf, EvalE(env, fuel, e, st), EvalE(Interpreter(env), fuel, e, st))
    decreases fuel, e
  {
    match e
    case Const(_) =>
    case Var(_) =>
    case StmtE(b) => MatchBlock(env, tf, fuel, b, st);
    case Call(_, args) => MatchArgs(env, tf, fuel, args, st);
    case And(es) => MatchAll(env, tf, fuel, es, true, st);
    case Or(es) => MatchAll(env, tf, fuel, es, false, st);
    case Coalesce(es) => MatchFirst(env, tf, fuel, es, st);
    case Arr(es) => MatchArgs(env, tf, fuel, es, st);
  }

  lemma {:induction false} MatchArgs(env: Env, tf: bool, fuel: nat, es: seq<Expr>, st: State)
    requires !env.catchSoft && (tf ==> forall x | x in es :: TryFreeE(x))
    ensures MatchesL(tf, EvalArgs(env, fuel, es, st), EvalArgs(Interpreter(env), fuel, es, st))
    decreases fuel, es, 0
  {
    if es != [] {
      MatchE(env, tf, fuel, es[0], st);
      MatchArgs(env, tf, fuel, es[1..], EvalE(env, fuel, es[0], st).st);
    }
  }

  lemma {:induction false} MatchAll(env: Env, tf: bool, fuel: nat, es: seq<Expr>, unit: bool, st: State)
    requires !env.catchSoft && (tf ==> forall x | x in es :: TryFreeE(x))
    ensures Matches(tf, EvalAll(env, fuel, es, unit, st), EvalAll(Interpreter(env), fuel, es, unit, st))
    decreases fuel, es, 0
  {
    if es != [] {
      MatchE(env, tf, fuel, es[0], st);
      MatchAll(env, tf, fuel, es[1..], unit, EvalE(env, fuel, es[0], st).st);
    }
  }

  lemma {:induction false} MatchFirst(env: Env, tf: bool, fuel: nat, es: seq<Expr>, st: State)
    requires !env.catchSoft && (tf ==> forall x | x in es :: TryFreeE(x))
    ensures Matches(tf, EvalFirst(env, fuel, es, st), EvalFirst(Interpreter(env), fuel, es, st))
    decreases fuel, es, 0
  {
    if es != [] {
      MatchE(env, tf, fuel, es[0], st);
      MatchFirst(env, tf, fuel, es[1..], EvalE(env, fuel, es[0], st).st);
    }
  }

  lemma {:induction false} MatchSeq(env: Env, tf: bool, fuel: nat, b: seq<Stmt>, v: Val, st: State)
    requires !env.catchSoft && (tf ==> TryFreeB(b))
    ensures Matches(tf, EvalSeq(env, fuel, b, v, st), EvalSeq(Interpreter(env), fuel, b, v, st))
    decreases fuel, b, 0
  {
    if b != [] {
      MatchS(env, tf, fuel, b[0], st);
      var r := EvalS(env, fuel, b[0], st);
      if r.o.Normal? { MatchSeq(env, tf, fuel, b[1..], r.o.v, r.st); }
    }
  }

  lemma {:induction false} MatchBlock(env: Env, tf: bool, fuel: nat, b: seq<Stmt>, st: State)
    requires !env.catchSoft && (tf ==> TryFreeB(b))
    ensures Matches(tf, EvalBlock(env, fuel, b, st), EvalBlock(Interpreter(env), fuel, b, st))
    decreases fuel, b, 1
  {
    MatchSeq(env, tf, fuel, b, UnitV, st);
  }

  lemma {:induction false} MatchFor(env: Env, tf: bool, fuel: nat, s: Stmt, n: nat, vs: seq<Val>, round: nat, st: State)
    requires !env.catchSoft && s.For? && (tf ==> TryFreeB(s.body))
    ensures Matches(tf, EvalFor(env, fuel, s, n, vs, round, st), EvalFor(Interpreter(env), fuel, s, n, vs, round, st))
    decreases fuel, s, |vs|
  {
    if vs != [] {
      var st1 := if s.counter.Some? then SetAt(SetAt(st, n, IntV(round)), n + 1, vs[0])
                 else SetAt(st, n, vs[0]);
      MatchBlock(env, tf, fuel, s.body, st1);
      MatchFor(env, tf, fuel, s, n, vs[1..], round + 1, EvalBlock(env, fuel, s.body, st1).st);
    }
  }

  lemma {:induction false} MatchWhile(env: Env, tf: bool, fuel: nat, c: Expr, body: seq<Stmt>, st: State)
    requires !env.catchSoft && (tf ==> TryFreeS(While(c, body)))
    ensures Matches(tf, EvalS(env, fuel, While(c, body), st), EvalS(Interpreter(env), fuel, While(c, body), st))
    decreases fuel, While(c, body), 0
  {
    if fuel > 0 {
      MatchE(env, tf, fuel, c, st);
      var r := if c == Const(UnitV) then Res(Normal(BoolV(true)), st) else EvalE(env, fuel, c, st);
      if r.o == Normal(BoolV(true)) {
        MatchBlock(env, tf, fuel, body, r.st);
        MatchWhile(env, tf, fuel - 1, c, body, EvalBlock(env, fuel, body, r.st).st);
      }
    }
  }

  lemma {:induction false} MatchDo(env: Env, tf: bool, fuel: nat, s: Stmt, st: State)
    requires !env.catchSoft && s.Do? && (tf ==> TryFreeS(s))
    ensures Matches(tf, EvalS(env, fuel, s, st), EvalS(Interpreter(env), fuel, s, st))
    decreases fuel, s, 0
  {
    if fuel > 0 {
      MatchBlock(env, tf, fuel, s.body, st);
      var r := EvalBlock(env, fuel, s.body, st);
      if r.o.Continued? {
        MatchDo(env, tf, fuel - 1, s, r.st);
      } else if r.o.Normal? {
        MatchE(env, tf, fuel, s.cond, r.st);
        MatchDo(env, tf, fuel - 1, s, EvalE(env, fuel, s.cond, r.st).st);
      }
    }
  }

  lemma {:induction false} MatchS(env: Env, tf: bool, fuel: nat, s: Stmt, st: State)
    requires !env.catchSoft && (tf ==> TryFreeS(s))
    ensures Matches(tf, EvalS(env, fuel, s, st), EvalS(Interpreter(env), fuel, s, st))
    decreases fuel, s
  {
    match s
    case Noop =>
    case ExprS(e) => MatchE(env, tf, fuel, e, st);
    case CallS(_, args) => MatchArgs(env, tf, fuel, args, st);
    case Block(b) => MatchBlock(env, tf, fuel, b, st);
    case Let(_, e, _) => MatchE(env, tf, fuel, e, st);
    case Assign(_, _, e) => MatchE(env, tf, fuel, e, st);
    case If(c, body, branch) =>
      MatchE(env, tf, fuel, c, st);
      var r := EvalE(env, fuel, c, st);
      MatchBlock(env, tf, fuel, body, r.st);
      MatchBlock(env, tf, fuel, branch, r.st);
    case While(c, body) => MatchWhile(env, tf, fuel, c, body, st);
    case Do(_, _, _) => MatchDo(env, tf, fuel, s, st);
    case For(_, _, it, _) =>
      MatchE(env, tf, fuel, it, st);
      var r := EvalE(env, fuel, it, st);
      if r.o.Normal? && r.o.v.ArrV? {
        MatchFor(env, tf, fuel, s, |r.st.scope|, r.o.v.a, 0, PushLoopVars(s, r.st));
      }
    case Try(body, cv, branch) =>
      MatchBlock(env, tf, fuel, body, st);
      var r := EvalBlock(env, fuel, body, st);
      if r.o.Threw? { MatchBlock(env, tf, fuel, branch, PushCatchVar(cv, r.o.v, r.st)); }
    case Jump(_, val) => if val.Some? { MatchE(env, tf, fuel, val.value, st); }
    case Return(val, _) => if val.Some? { MatchE(env, tf, fuel, val.value, st); }
  }
}
