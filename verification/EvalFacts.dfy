// Facts about every run of the evaluator: the scope keeps its shape, constants keep their values,
// pure code changes nothing, and a checked run agrees with the interpreter's own run.

module EvalFacts {
  import opened Options
  import opened Ast
  import opened Eval
  import opened Operators

  // ---- the scope keeps its shape ----

  // Same names, same access modes, same constants.
  ghost predicate SameShape(a: seq<Entry>, b: seq<Entry>) {
    |a| == |b| &&
    forall i :: 0 <= i < |a| ==>
      a[i].name == b[i].name && a[i].isConst == b[i].isConst && (a[i].isConst ==> a[i].val == b[i].val)
  }

  ghost predicate Extends(a: seq<Entry>, b: seq<Entry>) {
    |a| <= |b| && SameShape(a, b[..|a|])
  }

  lemma LookupIsLast(scope: seq<Entry>, x: string)
    ensures forall i :: Lookup(scope, x) < i < |scope| ==> scope[i].name != x
  {
    if scope != [] && scope[|scope| - 1].name != x {
      LookupIsLast(scope[..|scope| - 1], x);
    }
  }

  lemma LookupUnique(scope: seq<Entry>, x: string, k: int)
    requires -1 <= k < |scope|
    requires k >= 0 ==> scope[k].name == x
    requires forall i :: k < i < |scope| ==> scope[i].name != x
    ensures Lookup(scope, x) == k
  {
    LookupIsLast(scope, x);
  }

  lemma LookupSameShape(a: seq<Entry>, b: seq<Entry>, x: string)
    requires SameShape(a, b)
    ensures Lookup(a, x) == Lookup(b, x)
  {
    LookupIsLast(a, x);
    LookupUnique(b, x, Lookup(a, x));
  }

  lemma AssignShape(env: Env, x: string, op: Option<string>, v: Val, st: State)
    ensures SameShape(st.scope, EvalAssign(env, x, op, v, st).st.scope)
  {
  }

  lemma {:induction false} ShapeE(env: Env, fuel: nat, e: Expr, st: State)
    ensures SameShape(st.scope, EvalE(env, fuel, e, st).st.scope)
    decreases fuel, e
  {
    match e
    case Const(_) =>
    case Var(_) =>
    case StmtE(b) => ShapeBlock(env, fuel, b, st);
    case Call(_, args) => ShapeArgs(env, fuel, args, st);
    case And(es) => ShapeAll(env, fuel, es, true, st);
    case Or(es) => ShapeAll(env, fuel, es, false, st);
    case Coalesce(es) => ShapeFirst(env, fuel, es, st);
    case Arr(es) => ShapeArgs(env, fuel, es, st);
  }

  lemma {:induction false} ShapeArgs(env: Env, fuel: nat, es: seq<Expr>, st: State)
    ensures SameShape(st.scope, EvalArgs(env, fuel, es, st).st.scope)
    decreases fuel, es, 0
  {
    if es != [] {
      ShapeE(env, fuel, es[0], st);
      var r := EvalE(env, fuel, es[0], st);
      if r.o.Normal? { ShapeArgs(env, fuel, es[1..], r.st); }
    }
  }

  lemma {:induction false} ShapeAll(env: Env, fuel: nat, es: seq<Expr>, unit: bool, st: State)
    ensures SameShape(st.scope, EvalAll(env, fuel, es, unit, st).st.scope)
    decreases fuel, es, 0
  {
    if es != [] {
      ShapeE(env, fuel, es[0], st);
      var r := EvalE(env, fuel, es[0], st);
      if r.o.Normal? { ShapeAll(env, fuel, es[1..], unit, r.st); }
    }
  }

  lemma {:induction false} ShapeFirst(env: Env, fuel: nat, es: seq<Expr>, st: State)
    ensures SameShape(st.scope, EvalFirst(env, fuel, es, st).st.scope)
    decreases fuel, es, 0
  {
    if es != [] {
      ShapeE(env, fuel, es[0], st);
      var r := EvalE(env, fuel, es[0], st);
      if r.o.Normal? { ShapeFirst(env, fuel, es[1..], r.st); }
    }
  }

  lemma {:induction false} ShapeSeq(env: Env, fuel: nat, b: seq<Stmt>, v: Val, st: State)
    ensures Extends(st.scope, EvalSeq(env, fuel, b, v, st).st.scope)
    decreases fuel, b, 0
  {
    if b != [] {
      ShapeS(env, fuel, b[0], st);
      var r := EvalS(env, fuel, b[0], st);
      if r.o.Normal? { ShapeSeq(env, fuel, b[1..], r.o.v, r.st); }
    }
  }

  lemma {:induction false} ShapeBlock(env: Env, fuel: nat, b: seq<Stmt>, st: State)
    ensures SameShape(st.scope, EvalBlock(env, fuel, b, st).st.scope)
    decreases fuel, b, 1
  {
    ShapeSeq(env, fuel, b, UnitV, st);
  }

  lemma {:induction false} ShapeFor(env: Env, fuel: nat, s: Stmt, n: nat, vs: seq<Val>, round: nat, st: State, base: seq<Entry>)
    requires s.For?
    requires n == |base| && Extends(base, st.scope)
    ensures Extends(base, EvalFor(env, fuel, s, n, vs, round, st).st.scope)
    decreases fuel, s, 0, |vs|
  {
    if vs != [] {
      var st1 := if s.counter.Some? then SetAt(SetAt(st, n, IntV(round)), n + 1, vs[0])
                 else SetAt(st, n, vs[0]);
      assert Extends(base, st1.scope);
      ShapeBlock(env, fuel, s.body, st1);
      var r := EvalBlock(env, fuel, s.body, st1);
      assert Extends(base, r.st.scope);
      if r.o.Normal? || r.o.Continued? { ShapeFor(env, fuel, s, n, vs[1..], round + 1, r.st, base); }
    }
  }

  lemma SameShapeExtends(a: seq<Entry>, b: seq<Entry>)
    requires SameShape(a, b)
    ensures Extends(a, b)
  {
    assert b[..|a|] == b;
  }

  lemma {:induction false} ShapeS(env: Env, fuel: nat, s: Stmt, st: State)
    ensures Extends(st.scope, EvalS(env, fuel, s, st).st.scope)
    ensures !s.Let? ==> SameShape(st.scope, EvalS(env, fuel, s, st).st.scope)
    ensures s.Let? && EvalS(env, fuel, s, st).o.Normal? ==>
      var sc := EvalS(env, fuel, s, st).st.scope;
      |sc| == |st.scope| + 1 && sc[|st.scope|].name == s.x && sc[|st.scope|].isConst == s.isConst
    decreases fuel, s, 2
  {
    if s.Let? {
      ShapeE(env, fuel, s.e, st);
      SameShapeExtends(st.scope, EvalE(env, fuel, s.e, st).st.scope);
    } else {
      ShapeKept(env, fuel, s, st);
      SameShapeExtends(st.scope, EvalS(env, fuel, s, st).st.scope);
    }
  }

  lemma {:induction false} ShapeKept(env: Env, fuel: nat, s: Stmt, st: State)
    requires !s.Let?
    ensures SameShape(st.scope, EvalS(env, fuel, s, st).st.scope)
    decreases fuel, s, 1
  {
    match s
    case Noop =>
    case ExprS(e) => ShapeE(env, fuel, e, st);
    case CallS(_, args) => ShapeArgs(env, fuel, args, st);
    case Block(b) => ShapeBlock(env, fuel, b, st);
    case Assign(x, op, e) =>
      ShapeE(env, fuel, e, st);
      var r := EvalE(env, fuel, e, st);
      if r.o.Normal? { AssignShape(env, x, op, r.o.v, r.st); }
    case If(c, body, branch) =>
      ShapeE(env, fuel, c, st);
      var r := EvalE(env, fuel, c, st);
      if r.o == Normal(BoolV(true)) { ShapeBlock(env, fuel, body, r.st); }
      if r.o == Normal(BoolV(false)) { ShapeBlock(env, fuel, branch, r.st); }
    case While(c, body) => ShapeWhile(env, fuel, s, st);
    case Do(c, body, until) => ShapeDo(env, fuel, s, st);
    case For(x, counter, it, body) =>
      ShapeE(env, fuel, it, st);
      var r := EvalE(env, fuel, it, st);
      if r.o.Normal? && r.o.v.ArrV? {
        ShapeFor(env, fuel, s, |r.st.scope|, r.o.v.a, 0, PushLoopVars(s, r.st), r.st.scope);
      }
    case Try(body, cv, branch) => ShapeTry(env, fuel, s, st);
    case Jump(_, val) => if val.Some? { ShapeE(env, fuel, val.value, st); }
    case Return(val, _) => if val.Some? { ShapeE(env, fuel, val.value, st); }
  }

  lemma {:induction false} ShapeTry(env: Env, fuel: nat, s: Stmt, st: State)
    requires s.Try?
    ensures SameShape(st.scope, EvalS(env, fuel, s, st).st.scope)
    decreases fuel, s, 0
  {
    ShapeBlock(env, fuel, s.body, st);
    var r := EvalBlock(env, fuel, s.body, st);
    if r.o.Threw? {
      var p := PushCatchVar(s.catchVar, r.o.v, r.st);
      ShapeBlock(env, fuel, s.branch, p);
      assert SameShape(r.st.scope, EvalBlock(env, fuel, s.branch, p).st.scope[..|r.st.scope|]);
    }
  }

  lemma {:induction false} ShapeWhile(env: Env, fuel: nat, s: Stmt, st: State)
    requires s.While?
    ensures SameShape(st.scope, EvalS(env, fuel, s, st).st.scope)
    decreases fuel, s, 0
  {
    if fuel > 0 {
      ShapeE(env, fuel, s.cond, st);
      var r := if s.cond == Const(UnitV) then Res(Normal(BoolV(true)), st) else EvalE(env, fuel, s.cond, st);
      if r.o == Normal(BoolV(true)) {
        ShapeBlock(env, fuel, s.body, r.st);
        var r2 := EvalBlock(env, fuel, s.body, r.st);
        ShapeWhile(env, fuel - 1, s, r2.st);
      }
    }
  }

  lemma {:induction false} ShapeDo(env: Env, fuel: nat, s: Stmt, st: State)
    requires s.Do?
    ensures SameShape(st.scope, EvalS(env, fuel, s, st).st.scope)
    decreases fuel, s, 0
  {
    if fuel > 0 {
      ShapeBlock(env, fuel, s.body, st);
      var r := EvalBlock(env, fuel, s.body, st);
      ShapeE(env, fuel, s.cond, r.st);
      var g := EvalE(env, fuel, s.cond, r.st);
      ShapeDo(env, fuel - 1, s, r.st);
      ShapeDo(env, fuel - 1, s, g.st);
    }
  }

  // ---- pure code ----

  lemma RewindSelf(st: State)
    ensures Rewind(st, |st.scope|) == st
  {
    assert st.scope[..|st.scope|] == st.scope;
  }

  // In a checked run, pure code ends normally, leaves the state alone, and gives a value that
  // depends on nothing: run from any other state `st2`, it gives the same.
  lemma {:induction false} PureE(env: Env, fuel: nat, e: Expr, st: State, st2: State)
    requires !env.catchSoft && IsPureE(e) && Done(EvalE(env, fuel, e, st).o)
    ensures EvalE(env, fuel, e, st).o.Normal? && EvalE(env, fuel, e, st).st == st
    ensures EvalE(env, fuel, e, st2) == Res(EvalE(env, fuel, e, st).o, st2)
    decreases fuel, e
  {
    match e
    case Const(_) =>
    case StmtE(b) => PureBlock(env, fuel, b, st, st2);
    case And(es) => PureAll(env, fuel, es, true, st, st2);
    case Or(es) => PureAll(env, fuel, es, false, st, st2);
    case Coalesce(es) => PureFirst(env, fuel, es, st, st2);
    case Arr(es) => PureArgs(env, fuel, es, st, st2);
  }

  lemma {:induction false} PureArgs(env: Env, fuel: nat, es: seq<Expr>, st: State, st2: State)
    requires !env.catchSoft && (forall x | x in es :: IsPureE(x)) && Done(EvalArgs(env, fuel, es, st).o)
    ensures EvalArgs(env, fuel, es, st).o.Normal? && EvalArgs(env, fuel, es, st).st == st
    ensures EvalArgs(env, fuel, es, st2) == EvalArgs(env, fuel, es, st).(st := st2)
    decreases fuel, es, 0
  {
    if es != [] {
      PureE(env, fuel, es[0], st, st2);
      PureArgs(env, fuel, es[1..], st, st2);
    }
  }

  lemma {:induction false} PureAll(env: Env, fuel: nat, es: seq<Expr>, unit: bool, st: State, st2: State)
    requires !env.catchSoft && (forall x | x in es :: IsPureE(x)) && Done(EvalAll(env, fuel, es, unit, st).o)
    ensures EvalAll(env, fuel, es, unit, st).o.Normal? && EvalAll(env, fuel, es, unit, st).st == st
    ensures EvalAll(env, fuel, es, unit, st2) == Res(EvalAll(env, fuel, es, unit, st).o, st2)
    decreases fuel, es, 0
  {
    if es != [] {
      PureE(env, fuel, es[0], st, st2);
      if EvalE(env, fuel, es[0], st).o == Normal(BoolV(unit)) { PureAll(env, fuel, es[1..], unit, st, st2); }
    }
  }

  lemma {:induction false} PureFirst(env: Env, fuel: nat, es: seq<Expr>, st: State, st2: State)
    requires !env.catchSoft && (forall x | x in es :: IsPureE(x)) && Done(EvalFirst(env, fuel, es, st).o)
    ensures EvalFirst(env, fuel, es, st).o.Normal? && EvalFirst(env, fuel, es, st).st == st
    ensures EvalFirst(env, fuel, es, st2) == Res(EvalFirst(env, fuel, es, st).o, st2)
    decreases fuel, es, 0
  {
    if es != [] {
      PureE(env, fuel, es[0], st, st2);
      if EvalE(env, fuel, es[0], st).o == Normal(UnitV) { PureFirst(env, fuel, es[1..], st, st2); }
    }
  }

  lemma {:induction false} PureSeq(env: Env, fuel: nat, b: seq<Stmt>, v: Val, st: State, st2: State)
    requires !env.catchSoft && (forall s | s in b :: IsPure(s)) && Done(EvalSeq(env, fuel, b, v, st).o)
    ensures EvalSeq(env, fuel, b, v, st).o.Normal? && EvalSeq(env, fuel, b, v, st).st == st
    ensures EvalSeq(env, fuel, b, v, st2) == Res(EvalSeq(env, fuel, b, v, st).o, st2)
    decreases fuel, b, 0
  {
    if b != [] {
      PureS(env, fuel, b[0], st, st2);
      PureSeq(env, fuel, b[1..], EvalS(env, fuel, b[0], st).o.v, st, st2);
    }
  }

  lemma {:induction false} PureBlock(env: Env, fuel: nat, b: seq<Stmt>, st: State, st2: State)
    requires !env.catchSoft && (forall s | s in b :: IsPure(s)) && Done(EvalBlock(env, fuel, b, st).o)
    ensures EvalBlock(env, fuel, b, st).o.Normal? && EvalBlock(env, fuel, b, st).st == st
    ensures EvalBlock(env, fuel, b, st2) == Res(EvalBlock(env, fuel, b, st).o, st2)
    decreases fuel, b, 1
  {
    PureSeq(env, fuel, b, UnitV, st, st2);
    RewindSelf(st);
    RewindSelf(st2);
  }

  // The rounds of a pure `for` loop only ever touch its own loop variables.
  lemma {:induction false} PureFor(env: Env, fuel: nat, s: Stmt, vs: seq<Val>, round: nat,
                                   st: State, base: State, st2: State, base2: State)
    requires !env.catchSoft && s.For? && (forall t | t in s.body :: IsPure(t))
    requires |st.scope| >= |base.scope| && Rewind(st, |base.scope|) == base
    requires |st2.scope| >= |base2.scope| && Rewind(st2, |base2.scope|) == base2
    requires Done(EvalFor(env, fuel, s, |base.scope|, vs, round, st).o)
    ensures var r := EvalFor(env, fuel, s, |base.scope|, vs, round, st);
      r.o == Normal(UnitV) && Rewind(r.st, |base.scope|) == base
    ensures var r2 := EvalFor(env, fuel, s, |base2.scope|, vs, round, st2);
      r2.o == Normal(UnitV) && Rewind(r2.st, |base2.scope|) == base2
    decreases fuel, s, |vs|
  {
    if vs != [] {
      var n, n2 := |base.scope|, |base2.scope|;
      var st1 := if s.counter.Some? then SetAt(SetAt(st, n, IntV(round)), n + 1, vs[0]) else SetAt(st, n, vs[0]);
      var st3 := if s.counter.Some? then SetAt(SetAt(st2, n2, IntV(round)), n2 + 1, vs[0]) else SetAt(st2, n2, vs[0]);
      assert st1.scope[..n] == st.scope[..n];
      assert st3.scope[..n2] == st2.scope[..n2];
      PureBlock(env, fuel, s.body, st1, st3);
      PureFor(env, fuel, s, vs[1..], round + 1, st1, base, st3, base2);
    }
  }

  lemma {:induction false} PureS(env: Env, fuel: nat, s: Stmt, st: State, st2: State)
    requires !env.catchSoft && IsPure(s) && Done(EvalS(env, fuel, s, st).o)
    ensures EvalS(env, fuel, s, st).o.Normal? && EvalS(env, fuel, s, st).st == st
    ensures EvalS(env, fuel, s, st2) == Res(EvalS(env, fuel, s, st).o, st2)
    decreases fuel, s
  {
    match s
    case Noop =>
    case ExprS(e) => PureE(env, fuel, e, st, st2);
    case Block(b) => PureBlock(env, fuel, b, st, st2);
    case If(c, body, branch) =>
      PureE(env, fuel, c, st, st2);
      PureBlock(env, fuel, if EvalE(env, fuel, c, st).o.v.b then body else branch, st, st2);
    case While(_, _) =>
    case Do(c, body, until) => PureBlock(env, fuel, body, st, st2);
    case For(x, counter, it, body) =>
      PureE(env, fuel, it, st, st2);
      var vs := EvalE(env, fuel, it, st).o.v;
      if vs.ArrV? {
        var p, p2 := PushLoopVars(s, st), PushLoopVars(s, st2);
        assert p.scope[..|st.scope|] == st.scope;
        assert p2.scope[..|st2.scope|] == st2.scope;
        PureFor(env, fuel, s, vs.a, 0, p, st, p2, st2);
      }
    case Try(body, cv, branch) => PureBlock(env, fuel, body, st, st2);
  }

  // Internally pure statements end normally and only add to the scope.
  lemma {:induction false} InternallyPureS(env: Env, fuel: nat, s: Stmt, st: State, st2: State)
    requires !env.catchSoft && IsInternallyPure(s) && Done(EvalS(env, fuel, s, st).o)
    ensures var r := EvalS(env, fuel, s, st);
      r.o.Normal? && |r.st.scope| >= |st.scope| && Rewind(r.st, |st.scope|) == st
    ensures var r2 := EvalS(env, fuel, s, st2);
      r2.o == EvalS(env, fuel, s, st).o && |r2.st.scope| >= |st2.scope| && Rewind(r2.st, |st2.scope|) == st2
    decreases fuel, s
  {
    if s.Let? {
      PureE(env, fuel, s.e, st, st2);
      var v := EvalE(env, fuel, s.e, st).o.v;
      assert Push(st, s.x, s.isConst, v).scope[..|st.scope|] == st.scope;
      assert Push(st2, s.x, s.isConst, v).scope[..|st2.scope|] == st2.scope;
    } else if s.ExprS? && s.e.StmtE? {
      assert EvalE(env, fuel, s.e, st) == EvalBlock(env, fuel, s.e.b, st);
      assert EvalE(env, fuel, s.e, st2) == EvalBlock(env, fuel, s.e.b, st2);
      InternallyPureSeq(env, fuel, s.e.b, UnitV, st, st2);
      RewindSelf(st);
      RewindSelf(st2);
    } else {
      PureS(env, fuel, s, st, st2);
      RewindSelf(st);
      RewindSelf(st2);
    }
  }

  lemma {:induction false} InternallyPureSeq(env: Env, fuel: nat, b: seq<Stmt>, v: Val, st: State, st2: State)
    requires !env.catchSoft && (forall s | s in b :: IsInternallyPure(s)) && Done(EvalSeq(env, fuel, b, v, st).o)
    ensures var r := EvalSeq(env, fuel, b, v, st);
      r.o.Normal? && |r.st.scope| >= |st.scope| && Rewind(r.st, |st.scope|) == st
    ensures var r2 := EvalSeq(env, fuel, b, v, st2);
      r2.o == EvalSeq(env, fuel, b, v, st).o && |r2.st.scope| >= |st2.scope| && Rewind(r2.st, |st2.scope|) == st2
    decreases fuel, b, 0
  {
    if b == [] {
      RewindSelf(st);
      RewindSelf(st2);
    } else {
      InternallyPureS(env, fuel, b[0], st, st2);
      var r, r2 := EvalS(env, fuel, b[0], st), EvalS(env, fuel, b[0], st2);
      InternallyPureSeq(env, fuel, b[1..], r.o.v, r.st, r2.st);
      var q, q2 := EvalSeq(env, fuel, b[1..], r.o.v, r.st), EvalSeq(env, fuel, b[1..], r.o.v, r2.st);
      assert q.st.scope[..|st.scope|] == q.st.scope[..|r.st.scope|][..|st.scope|];
      assert q2.st.scope[..|st2.scope|] == q2.st.scope[..|r2.st.scope|][..|st2.scope|];
    }
  }
}
