// The fuel of the evaluator only decides how many rounds of a loop are run: a run that does not
// exhaust it is the same run with any larger amount, so a script has at most one complete run.

module Fuel {
  import opened Options
  import opened Ast
  import opened Eval

  predicate Steady(r: Res, r': Res) {
    r.o.OutOfFuel? || r' == r
  }

  lemma {:induction false} MoreE(env: Env, fuel: nat, more: nat, e: Expr, st: State)
    requires fuel <= more
    ensures Steady(EvalE(env, fuel, e, st), EvalE(env, more, e, st))
    decreases fuel, e
  {
    match e
    case Const(_) =>
    case Var(_) =>
    case StmtE(b) => MoreBlock(env, fuel, more, b, st);
    case Call(_, args) => MoreArgs(env, fuel, more, args, st);
    case And(es) => MoreAll(env, fuel, more, es, true, st);
    case Or(es) => MoreAll(env, fuel, more, es, false, st);
    case Coalesce(es) => MoreFirst(env, fuel, more, es, st);
    case Arr(es) => MoreArgs(env, fuel, more, es, st);
  }

  lemma {:induction false} MoreArgs(env: Env, fuel: nat, more: nat, es: seq<Expr>, st: State)
    requires fuel <= more
    ensures var r := EvalArgs(env, fuel, es, st); r.o.OutOfFuel? || EvalArgs(env, more, es, st) == r
    decreases fuel, es, 0
  {
    if es != [] {
      MoreE(env, fuel, more, es[0], st);
      MoreArgs(env, fuel, more, es[1..], EvalE(env, fuel, es[0], st).st);
    }
  }

  lemma {:induction false} MoreAll(env: Env, fuel: nat, more: nat, es: seq<Expr>, unit: bool, st: State)
    requires fuel <= more
    ensures Steady(EvalAll(env, fuel, es, unit, st), EvalAll(env, more, es, unit, st))
    decreases fuel, es, 0
  {
    if es != [] {
      MoreE(env, fuel, more, es[0], st);
      MoreAll(env, fuel, more, es[1..], unit, EvalE(env, fuel, es[0], st).st);
    }
  }

  lemma {:induction false} MoreFirst(env: Env, fuel: nat, more: nat, es: seq<Expr>, st: State)
    requires fuel <= more
    ensures Steady(EvalFirst(env, fuel, es, st), EvalFirst(env, more, es, st))
    decreases fuel, es, 0
  {
    if es != [] {
      MoreE(env, fuel, more, es[0], st);
      MoreFirst(env, fuel, more, es[1..], EvalE(env, fuel, es[0], st).st);
    }
  }

  lemma {:induction false} MoreSeq(env: Env, fuel: nat, more: nat, b: seq<Stmt>, v: Val, st: State)
    requires fuel <= more
    ensures Steady(EvalSeq(env, fuel, b, v, st), EvalSeq(env, more, b, v, st))
    decreases fuel, b, 0
  {
    if b != [] {
      MoreS(env, fuel, more, b[0], st);
      var r := EvalS(env, fuel, b[0], st);
      if r.o.Normal? { MoreSeq(env, fuel, more, b[1..], r.o.v, r.st); }
    }
  }

  lemma {:induction false} MoreBlock(env: Env, fuel: nat, more: nat, b: seq<Stmt>, st: State)
    requires fuel <= more
    ensures Steady(EvalBlock(env, fuel, b, st), EvalBlock(env, more, b, st))
    decreases fuel, b, 1
  {
    MoreSeq(env, fuel, more, b, UnitV, st);
  }

  lemma {:induction false} MoreFor(env: Env, fuel: nat, more: nat, s: Stmt, n: nat, vs: seq<Val>, round: nat, st: State)
    requires fuel <= more && s.For?
    ensures Steady(EvalFor(env, fuel, s, n, vs, round, st), EvalFor(env, more, s, n, vs, round, st))
    decreases fuel, s, |vs|
  {
    if vs != [] {
      var st1 := if s.counter.Some? then SetAt(SetAt(st, n, IntV(round)), n + 1, vs[0])
                 else SetAt(st, n, vs[0]);
      MoreBlock(env, fuel, more, s.body, st1);
      MoreFor(env, fuel, more, s, n, vs[1..], round + 1, EvalBlock(env, fuel, s.body, st1).st);
    }
  }

  lemma {:induction false} MoreWhile(env: Env, fuel: nat, more: nat, c: Expr, body: seq<Stmt>, st: State)
    requires fuel <= more
    ensures Steady(EvalS(env, fuel, While(c, body), st), EvalS(env, more, While(c, body), st))
    decreases fuel, While(c, body), 0
  {
    if fuel > 0 {
      MoreE(env, fuel, more, c, st);
      var r := if c == Const(UnitV) then Res(Normal(BoolV(true)), st) else EvalE(env, fuel, c, st);
      if r.o == Normal(BoolV(true)) {
        MoreBlock(env, fuel, more, body, r.st);
        MoreWhile(env, fuel - 1, more - 1, c, body, EvalBlock(env, fuel, body, r.st).st);
      }
    }
  }

  lemma {:induction false} MoreDo(env: Env, fuel: nat, more: nat, s: Stmt, st: State)
    requires fuel <= more && s.Do?
    ensures Steady(EvalS(env, fuel, s, st), EvalS(env, more, s, st))
    decreases fuel, s, 0
  {
    if fuel > 0 {
      MoreBlock(env, fuel, more, s.body, st);
      var r := EvalBlock(env, fuel, s.body, st);
      if r.o.Continued? {
        MoreDo(env, fuel - 1, more - 1, s, r.st);
      } else if r.o.Normal? {
        MoreE(env, fuel, more, s.cond, r.st);
        MoreDo(env, fuel - 1, more - 1, s, EvalE(env, fuel, s.cond, r.st).st);
      }
    }
  }

  lemma {:induction false} MoreS(env: Env, fuel: nat, more: nat, s: Stmt, st: State)
    requires fuel <= more
    ensures Steady(EvalS(env, fuel, s, st), EvalS(env, more, s, st))
    decreases fuel, s
  {
    match s
    case Noop =>
    case ExprS(e) => MoreE(env, fuel, more, e, st);
    case CallS(_, args) => MoreArgs(env, fuel, more, args, st);
    case Block(b) => MoreBlock(env, fuel, more, b, st);
    case Let(_, e, _) => MoreE(env, fuel, more, e, st);
    case Assign(_, _, e) => MoreE(env, fuel, more, e, st);
    case If(c, body, branch) =>
      MoreE(env, fuel, more, c, st);
      var r := EvalE(env, fuel, c, st);
      MoreBlock(env, fuel, more, body, r.st);
      MoreBlock(env, fuel, more, branch, r.st);
    case While(c, body) => MoreWhile(env, fuel, more, c, body, st);
    case Do(_, _, _) => MoreDo(env, fuel, more, s, st);
    case For(_, _, it, _) =>
      MoreE(env, fuel, more, it, st);
      var r := EvalE(env, fuel, it, st);
      if r.o.Normal? && r.o.v.ArrV? {
        MoreFor(env, fuel, more, s, |r.st.scope|, r.o.v.a, 0, PushLoopVars(s, r.st));
      }
    case Try(body, cv, branch) =>
      MoreBlock(env, fuel, more, body, st);
      var r := EvalBlock(env, fuel, body, st);
      if r.o.Threw? { MoreBlock(env, fuel, more, branch, PushCatchVar(cv, r.o.v, r.st)); }
    case Jump(_, val) => if val.Some? { MoreE(env, fuel, more, val.value, st); }
    case Return(val, _) => if val.Some? { MoreE(env, fuel, more, val.value, st); }
  }

  // Two complete runs of a block from the same state are the same run.
  lemma OneRun(env: Env, fuel: nat, fuel': nat, b: seq<Stmt>, st: State)
    requires !EvalBlock(env, fuel, b, st).o.OutOfFuel? && !EvalBlock(env, fuel', b, st).o.OutOfFuel?
    ensures EvalBlock(env, fuel, b, st) == EvalBlock(env, fuel', b, st)
  {
    if fuel <= fuel' {
      MoreBlock(env, fuel, fuel', b, st);
    } else {
      MoreBlock(env, fuel', fuel, b, st);
    }
  }
}
