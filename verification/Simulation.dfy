// Simulation between a tree and its rewritten form, and the ways it composes.
//
// All of it speaks about checked runs (`!env.catchSoft`) that complete.

module Simulation {
  import opened Options
  import opened Ast
  import opened Eval
  import opened EvalFacts
  import opened Conditions

  // The optimizer's stack of variables: `Some(v)` for a literal constant.
  type Vars = seq<(string, Option<Val>)>

  // OptimizerState::find_literal_constant
  function FindConst(vars: Vars, x: string): Option<Val> {
    if vars == [] then None
    else if vars[|vars| - 1].0 == x then vars[|vars| - 1].1
    else FindConst(vars[..|vars| - 1], x)
  }

  // Every constant the optimizer would propagate is what a run finds under that name.
  ghost predicate Agree(vars: Vars, scope: seq<Entry>) {
    forall x :: FindConst(vars, x).Some? ==> AgreeOn(vars, scope, x)
  }

  ghost predicate AgreeOn(vars: Vars, scope: seq<Entry>, x: string) {
    var k := Lookup(scope, x);
    k >= 0 && scope[k].isConst && Some(scope[k].val) == FindConst(vars, x)
  }

  ghost predicate VarsIn(vars: Vars, consts: Consts) {
    forall x :: FindConst(vars, x).Some? ==> x in consts && (FindConst(vars, x) == Some(UnitV) ==> consts[x])
  }

  lemma AgreeShape(vars: Vars, a: seq<Entry>, b: seq<Entry>)
    requires Agree(vars, a) && SameShape(a, b)
    ensures Agree(vars, b)
  {
    forall x | FindConst(vars, x).Some?
      ensures AgreeOn(vars, b, x)
    {
      assert AgreeOn(vars, a, x);
      LookupSameShape(a, b, x);
    }
  }

  lemma AgreePush(vars: Vars, scope: seq<Entry>, x: string, c: Option<Val>, isConst: bool, v: Val)
    requires Agree(vars, scope)
    requires c.Some? ==> isConst && c.value == v
    ensures Agree(vars + [(x, c)], scope + [Entry(x, isConst, v)])
  {
    var vars', scope' := vars + [(x, c)], scope + [Entry(x, isConst, v)];
    assert vars'[..|vars|] == vars && scope'[..|scope|] == scope;
    forall y | FindConst(vars', y).Some?
      ensures AgreeOn(vars', scope', y)
    {
      if y != x { assert AgreeOn(vars, scope, y); }
    }
  }

  // A binder that is no propagated constant hides none.
  lemma AgreeBinder(vars: Vars, consts: Consts, scope: seq<Entry>, x: string, v: Val)
    requires Agree(vars, scope) && VarsIn(vars, consts) && x !in consts
    ensures Agree(vars, scope + [Entry(x, false, v)])
  {
    var scope' := scope + [Entry(x, false, v)];
    assert scope'[..|scope|] == scope;
    forall y | FindConst(vars, y).Some?
      ensures AgreeOn(vars, scope', y)
    {
      assert AgreeOn(vars, scope, y);
    }
  }

  // ---- what is kept ----

  // Same state (scope and trace of calls) and same control; the value of a normal end when asked.
  ghost predicate Kept(keep: bool, r: Res, r': Res) {
    r'.st == r.st &&
    (if r.o.Normal? then r'.o.Normal? && (keep ==> r'.o == r.o) else r'.o == r.o)
  }

  ghost predicate SimE(env: Env, vars: Vars, e: Expr, e': Expr) {
    forall fuel: nat, st: State ::
      Agree(vars, st.scope) && Done(EvalE(env, fuel, e, st).o) ==>
        EvalE(env, fuel, e', st) == EvalE(env, fuel, e, st)
  }

  ghost predicate SimArgs(env: Env, vars: Vars, es: seq<Expr>, es': seq<Expr>) {
    forall fuel: nat, st: State ::
      Agree(vars, st.scope) && Done(EvalArgs(env, fuel, es, st).o) ==>
        EvalArgs(env, fuel, es', st) == EvalArgs(env, fuel, es, st)
  }

  ghost predicate SimAll(env: Env, vars: Vars, unit: bool, es: seq<Expr>, es': seq<Expr>) {
    forall fuel: nat, st: State ::
      Agree(vars, st.scope) && Done(EvalAll(env, fuel, es, unit, st).o) ==>
        EvalAll(env, fuel, es', unit, st) == EvalAll(env, fuel, es, unit, st)
  }

  ghost predicate SimFirst(env: Env, vars: Vars, es: seq<Expr>, es': seq<Expr>) {
    forall fuel: nat, st: State ::
      Agree(vars, st.scope) && Done(EvalFirst(env, fuel, es, st).o) ==>
        EvalFirst(env, fuel, es', st) == EvalFirst(env, fuel, es, st)
  }

  ghost predicate SimS(env: Env, vars: Vars, keep: bool, s: Stmt, s': Stmt) {
    forall fuel: nat, st: State ::
      Agree(vars, st.scope) && Done(EvalS(env, fuel, s, st).o) ==>
        Kept(keep, EvalS(env, fuel, s, st), EvalS(env, fuel, s', st))
  }

  // Statements run from a given state, whatever value comes before them.
  ghost predicate SimSeq(env: Env, vars: Vars, keep: bool, b: seq<Stmt>, b': seq<Stmt>) {
    forall fuel: nat, st: State ::
      Agree(vars, st.scope) && Done(EvalSeq(env, fuel, b, UnitV, st).o) ==>
        Kept(keep, EvalSeq(env, fuel, b, UnitV, st), EvalSeq(env, fuel, b', UnitV, st))
  }

  // How a list of statements is run: as a scoped block (`internal`) or in place, and with `return v`
  // counting as the value v (`reduce`, at the top level of a script or a function).
  function Run(env: Env, internal: bool, reduce: bool, fuel: nat, b: seq<Stmt>, st: State): Res {
    var r := if internal then EvalBlock(env, fuel, b, st) else EvalSeq(env, fuel, b, UnitV, st);
    if reduce && r.o.Returned? then Res(Normal(r.o.v), r.st) else r
  }

  ghost predicate SimB(env: Env, vars: Vars, internal: bool, reduce: bool, keep: bool,
                       b: seq<Stmt>, b': seq<Stmt>)
  {
    forall fuel: nat, st: State ::
      Agree(vars, st.scope) && Done(Run(env, internal, reduce, fuel, b, st).o) ==>
        Kept(keep, Run(env, internal, reduce, fuel, b, st), Run(env, internal, reduce, fuel, b', st))
  }

  lemma SimBTrans(env: Env, vars: Vars, internal: bool, reduce: bool, keep: bool,
                  a: seq<Stmt>, b: seq<Stmt>, c: seq<Stmt>)
    requires SimB(env, vars, internal, reduce, keep, a, b)
    requires SimB(env, vars, internal, reduce, keep, b, c)
    ensures SimB(env, vars, internal, reduce, keep, a, c)
  {
    forall fuel: nat, st: State |
      Agree(vars, st.scope) && Done(Run(env, internal, reduce, fuel, a, st).o)
      ensures Kept(keep, Run(env, internal, reduce, fuel, a, st), Run(env, internal, reduce, fuel, c, st))
    {
      assert Done(Run(env, internal, reduce, fuel, b, st).o);
    }
  }

  lemma SimSTrans(env: Env, vars: Vars, keep: bool, a: Stmt, b: Stmt, c: Stmt)
    requires SimS(env, vars, keep, a, b) && SimS(env, vars, keep, b, c)
    ensures SimS(env, vars, keep, a, c)
  {
    forall fuel: nat, st: State | Agree(vars, st.scope) && Done(EvalS(env, fuel, a, st).o)
      ensures Kept(keep, EvalS(env, fuel, a, st), EvalS(env, fuel, c, st))
    {
      assert Done(EvalS(env, fuel, b, st).o);
    }
  }

  lemma SimETrans(env: Env, vars: Vars, a: Expr, b: Expr, c: Expr)
    requires SimE(env, vars, a, b) && SimE(env, vars, b, c)
    ensures SimE(env, vars, a, c)
  {
    forall fuel: nat, st: State | Agree(vars, st.scope) && Done(EvalE(env, fuel, a, st).o)
      ensures EvalE(env, fuel, c, st) == EvalE(env, fuel, a, st)
    {
      assert Done(EvalE(env, fuel, b, st).o);
    }
  }

  lemma SimAllTrans(env: Env, vars: Vars, unit: bool, a: seq<Expr>, b: seq<Expr>, c: seq<Expr>)
    requires SimAll(env, vars, unit, a, b) && SimAll(env, vars, unit, b, c)
    ensures SimAll(env, vars, unit, a, c)
  {
    forall fuel: nat, st: State | Agree(vars, st.scope) && Done(EvalAll(env, fuel, a, unit, st).o)
      ensures EvalAll(env, fuel, c, unit, st) == EvalAll(env, fuel, a, unit, st)
    {
      assert Done(EvalAll(env, fuel, b, unit, st).o);
    }
  }

  lemma SimFirstTrans(env: Env, vars: Vars, a: seq<Expr>, b: seq<Expr>, c: seq<Expr>)
    requires SimFirst(env, vars, a, b) && SimFirst(env, vars, b, c)
    ensures SimFirst(env, vars, a, c)
  {
    forall fuel: nat, st: State | Agree(vars, st.scope) && Done(EvalFirst(env, fuel, a, st).o)
      ensures EvalFirst(env, fuel, c, st) == EvalFirst(env, fuel, a, st)
    {
      assert Done(EvalFirst(env, fuel, b, st).o);
    }
  }

  // ---- sequences ----

  lemma {:induction false} SeqAppend(env: Env, fuel: nat, a: seq<Stmt>, b: seq<Stmt>, v: Val, st: State)
    ensures EvalSeq(env, fuel, a + b, v, st) ==
      var r := EvalSeq(env, fuel, a, v, st);
      if r.o.Normal? then EvalSeq(env, fuel, b, r.o.v, r.st) else r
  {
    if a == [] {
      assert a + b == b;
    } else {
      assert (a + b)[0] == a[0] && (a + b)[1..] == a[1..] + b;
      var r := EvalS(env, fuel, a[0], st);
      if r.o.Normal? { SeqAppend(env, fuel, a[1..], b, r.o.v, r.st); }
    }
  }

  // The value before a nonempty list does not matter; before any list, only the value can change.
  lemma SeqValue(env: Env, fuel: nat, b: seq<Stmt>, v: Val, v': Val, st: State)
    ensures b != [] ==> EvalSeq(env, fuel, b, v', st) == EvalSeq(env, fuel, b, v, st)
    ensures Kept(false, EvalSeq(env, fuel, b, v, st), EvalSeq(env, fuel, b, v', st))
  {
  }

  // Two lists that agree as sequences agree however they are run.
  lemma SimSeqRun(env: Env, vars: Vars, internal: bool, reduce: bool, keep: bool, b: seq<Stmt>, b': seq<Stmt>)
    requires SimSeq(env, vars, keep, b, b')
    ensures SimB(env, vars, internal, reduce, keep, b, b')
  {
    forall fuel: nat, st: State | Agree(vars, st.scope) && Done(Run(env, internal, reduce, fuel, b, st).o)
      ensures Kept(keep, Run(env, internal, reduce, fuel, b, st), Run(env, internal, reduce, fuel, b', st))
    {
      assert Done(EvalSeq(env, fuel, b, UnitV, st).o);
    }
  }

  // ---- congruence: expressions ----

  lemma {:induction false} ArgsCongruence(env: Env, vars: Vars, es: seq<Expr>, es': seq<Expr>)
    requires |es| == |es'| && forall i | 0 <= i < |es| :: SimE(env, vars, es[i], es'[i])
    ensures SimArgs(env, vars, es, es')
  {
    if es != [] {
      ArgsCongruence(env, vars, es[1..], es'[1..]);
      forall fuel: nat, st: State | Agree(vars, st.scope) && Done(EvalArgs(env, fuel, es, st).o)
        ensures EvalArgs(env, fuel, es', st) == EvalArgs(env, fuel, es, st)
      {
        assert SimE(env, vars, es[0], es'[0]);
        var r := EvalE(env, fuel, es[0], st);
        assert EvalE(env, fuel, es'[0], st) == r;
        ShapeE(env, fuel, es[0], st);
        AgreeShape(vars, st.scope, r.st.scope);
      }
    }
  }

  lemma CallCongruence(env: Env, vars: Vars, f: string, es: seq<Expr>, es': seq<Expr>)
    requires SimArgs(env, vars, es, es')
    ensures SimE(env, vars, Call(f, es), Call(f, es'))
    ensures SimS(env, vars, true, CallS(f, es), CallS(f, es'))
  {
    forall fuel: nat, st: State | Agree(vars, st.scope) && Done(EvalE(env, fuel, Call(f, es), st).o)
      ensures EvalE(env, fuel, Call(f, es'), st) == EvalE(env, fuel, Call(f, es), st)
    {
      assert Done(EvalArgs(env, fuel, es, st).o);
    }
    forall fuel: nat, st: State | Agree(vars, st.scope) && Done(EvalS(env, fuel, CallS(f, es), st).o)
      ensures EvalS(env, fuel, CallS(f, es'), st) == EvalS(env, fuel, CallS(f, es), st)
    {
      assert Done(EvalArgs(env, fuel, es, st).o);
    }
  }

  lemma ArrCongruence(env: Env, vars: Vars, es: seq<Expr>, es': seq<Expr>)
    requires SimArgs(env, vars, es, es')
    ensures SimE(env, vars, Arr(es), Arr(es'))
  {
    forall fuel: nat, st: State | Agree(vars, st.scope) && Done(EvalE(env, fuel, Arr(es), st).o)
      ensures EvalE(env, fuel, Arr(es'), st) == EvalE(env, fuel, Arr(es), st)
    {
      assert Done(EvalArgs(env, fuel, es, st).o);
    }
  }

  lemma StmtECongruence(env: Env, vars: Vars, b: seq<Stmt>, b': seq<Stmt>)
    requires SimB(env, vars, true, false, true, b, b')
    ensures SimE(env, vars, StmtE(b), StmtE(b'))
  {
    forall fuel: nat, st: State | Agree(vars, st.scope) && Done(EvalE(env, fuel, StmtE(b), st).o)
      ensures EvalE(env, fuel, StmtE(b'), st) == EvalE(env, fuel, StmtE(b), st)
    {
      assert EvalBlock(env, fuel, b, st) == Run(env, true, false, fuel, b, st);
      assert EvalBlock(env, fuel, b', st) == Run(env, true, false, fuel, b', st);
    }
  }

  // Replacing one operand of an n-ary list.
  lemma {:induction false} AllReplace(env: Env, vars: Vars, unit: bool, es: seq<Expr>, n: nat, e': Expr)
    requires n < |es| && SimE(env, vars, es[n], e')
    ensures SimAll(env, vars, unit, es, es[n := e'])
  {
    var es' := es[n := e'];
    if n > 0 {
      assert es'[1..] == es[1..][n - 1 := e'];
      AllReplace(env, vars, unit, es[1..], n - 1, e');
    } else {
      assert es'[1..] == es[1..];
    }
    forall fuel: nat, st: State | Agree(vars, st.scope) && Done(EvalAll(env, fuel, es, unit, st).o)
      ensures EvalAll(env, fuel, es', unit, st) == EvalAll(env, fuel, es, unit, st)
    {
      var r := EvalE(env, fuel, es[0], st);
      assert EvalE(env, fuel, es'[0], st) == r;
      ShapeE(env, fuel, es[0], st);
      AgreeShape(vars, st.scope, r.st.scope);
    }
  }

  lemma {:induction false} FirstReplace(env: Env, vars: Vars, es: seq<Expr>, n: nat, e': Expr)
    requires n < |es| && SimE(env, vars, es[n], e')
    ensures SimFirst(env, vars, es, es[n := e'])
  {
    var es' := es[n := e'];
    if n > 0 {
      assert es'[1..] == es[1..][n - 1 := e'];
      FirstReplace(env, vars, es[1..], n - 1, e');
    } else {
      assert es'[1..] == es[1..];
    }
    forall fuel: nat, st: State | Agree(vars, st.scope) && Done(EvalFirst(env, fuel, es, st).o)
      ensures EvalFirst(env, fuel, es', st) == EvalFirst(env, fuel, es, st)
    {
      var r := EvalE(env, fuel, es[0], st);
      assert EvalE(env, fuel, es'[0], st) == r;
      ShapeE(env, fuel, es[0], st);
      AgreeShape(vars, st.scope, r.st.scope);
    }
  }

  lemma AllCongruence(env: Env, vars: Vars, es: seq<Expr>, es': seq<Expr>)
    ensures SimAll(env, vars, true, es, es') ==> SimE(env, vars, And(es), And(es'))
    ensures SimAll(env, vars, false, es, es') ==> SimE(env, vars, Or(es), Or(es'))
    ensures SimFirst(env, vars, es, es') ==> SimE(env, vars, Coalesce(es), Coalesce(es'))
  {
    forall fuel: nat, st: State
      ensures EvalE(env, fuel, And(es), st) == EvalAll(env, fuel, es, true, st)
      ensures EvalE(env, fuel, Or(es), st) == EvalAll(env, fuel, es, false, st)
      ensures EvalE(env, fuel, Coalesce(es), st) == EvalFirst(env, fuel, es, st)
      ensures EvalE(env, fuel, And(es'), st) == EvalAll(env, fuel, es', true, st)
      ensures EvalE(env, fuel, Or(es'), st) == EvalAll(env, fuel, es', false, st)
      ensures EvalE(env, fuel, Coalesce(es'), st) == EvalFirst(env, fuel, es', st)
    {
    }
  }

  // ---- congruence: statements ----

  lemma ExprCongruence(env: Env, vars: Vars, e: Expr, e': Expr)
    requires SimE(env, vars, e, e')
    ensures SimS(env, vars, true, ExprS(e), ExprS(e'))
  {
  }

  lemma LetCongruence(env: Env, vars: Vars, x: string, e: Expr, e': Expr, isConst: bool)
    requires SimE(env, vars, e, e')
    ensures SimS(env, vars, true, Let(x, e, isConst), Let(x, e', isConst))
  {
    forall fuel: nat, st: State | Agree(vars, st.scope) && Done(EvalS(env, fuel, Let(x, e, isConst), st).o)
      ensures EvalS(env, fuel, Let(x, e', isConst), st) == EvalS(env, fuel, Let(x, e, isConst), st)
    {
      assert Done(EvalE(env, fuel, e, st).o);
    }
  }

  lemma AssignCongruence(env: Env, vars: Vars, x: string, op: Option<string>, e: Expr, e': Expr)
    requires SimE(env, vars, e, e')
    ensures SimS(env, vars, true, Assign(x, op, e), Assign(x, op, e'))
  {
    forall fuel: nat, st: State | Agree(vars, st.scope) && Done(EvalS(env, fuel, Assign(x, op, e), st).o)
      ensures EvalS(env, fuel, Assign(x, op, e'), st) == EvalS(env, fuel, Assign(x, op, e), st)
    {
      assert Done(EvalE(env, fuel, e, st).o);
    }
  }

  lemma JumpCongruence(env: Env, vars: Vars, flag: bool, e: Expr, e': Expr)
    requires SimE(env, vars, e, e')
    ensures SimS(env, vars, true, Jump(flag, Some(e)), Jump(flag, Some(e')))
    ensures SimS(env, vars, true, Return(Some(e), flag), Return(Some(e'), flag))
  {
    forall fuel: nat, st: State | Agree(vars, st.scope) && Done(EvalS(env, fuel, Jump(flag, Some(e)), st).o)
      ensures EvalS(env, fuel, Jump(flag, Some(e')), st) == EvalS(env, fuel, Jump(flag, Some(e)), st)
    {
      assert Done(EvalE(env, fuel, e, st).o);
    }
    forall fuel: nat, st: State | Agree(vars, st.scope) && Done(EvalS(env, fuel, Return(Some(e), flag), st).o)
      ensures EvalS(env, fuel, Return(Some(e'), flag), st) == EvalS(env, fuel, Return(Some(e), flag), st)
    {
      assert Done(EvalE(env, fuel, e, st).o);
    }
  }

  lemma BlockCongruence(env: Env, vars: Vars, keep: bool, b: seq<Stmt>, b': seq<Stmt>)
    requires SimB(env, vars, true, false, keep, b, b')
    ensures SimS(env, vars, keep, Block(b), Block(b'))
  {
    forall fuel: nat, st: State | Agree(vars, st.scope) && Done(EvalS(env, fuel, Block(b), st).o)
      ensures Kept(keep, EvalS(env, fuel, Block(b), st), EvalS(env, fuel, Block(b'), st))
    {
      assert EvalBlock(env, fuel, b, st) == Run(env, true, false, fuel, b, st);
      assert EvalBlock(env, fuel, b', st) == Run(env, true, false, fuel, b', st);
    }
  }

  // Using a simulation of blocks at one state.
  lemma UseBlock(env: Env, vars: Vars, keep: bool, b: seq<Stmt>, b': seq<Stmt>, fuel: nat, st: State)
    requires SimB(env, vars, true, false, keep, b, b') && Agree(vars, st.scope)
    requires Done(EvalBlock(env, fuel, b, st).o)
    ensures Kept(keep, EvalBlock(env, fuel, b, st), EvalBlock(env, fuel, b', st))
  {
    assert EvalBlock(env, fuel, b, st) == Run(env, true, false, fuel, b, st);
    assert EvalBlock(env, fuel, b', st) == Run(env, true, false, fuel, b', st);
  }

  lemma IfCongruence(env: Env, vars: Vars, keep: bool, c: Expr, c': Expr,
                     body: seq<Stmt>, body': seq<Stmt>, branch: seq<Stmt>, branch': seq<Stmt>)
    requires !env.catchSoft && SimE(env, vars, c, c')
    requires SimB(env, vars, true, false, keep, body, body')
    requires SimB(env, vars, true, false, keep, branch, branch')
    ensures SimS(env, vars, keep, If(c, body, branch), If(c', body', branch'))
  {
    var s, s' := If(c, body, branch), If(c', body', branch');
    forall fuel: nat, st: State | Agree(vars, st.scope) && Done(EvalS(env, fuel, s, st).o)
      ensures Kept(keep, EvalS(env, fuel, s, st), EvalS(env, fuel, s', st))
    {
      var r := EvalE(env, fuel, c, st);
      assert EvalE(env, fuel, c', st) == r;
      ShapeE(env, fuel, c, st);
      AgreeShape(vars, st.scope, r.st.scope);
      if r.o == Normal(BoolV(true)) {
        UseBlock(env, vars, keep, body, body', fuel, r.st);
      } else if r.o == Normal(BoolV(false)) {
        UseBlock(env, vars, keep, branch, branch', fuel, r.st);
      }
    }
  }

  lemma {:induction false} WhileRound(env: Env, vars: Vars, c: Expr, c': Expr, body: seq<Stmt>, body': seq<Stmt>,
                                      fuel: nat, st: State)
    requires !env.catchSoft
    requires c != Const(UnitV) && SimE(env, vars, c, c')
    requires SimB(env, vars, true, false, false, body, body')
    requires Agree(vars, st.scope) && Done(EvalS(env, fuel, While(c, body), st).o)
    ensures EvalS(env, fuel, While(c', body'), st) == EvalS(env, fuel, While(c, body), st)
    decreases fuel
  {
    var r := EvalE(env, fuel, c, st);
    assert EvalE(env, fuel, c', st) == r;
    if c' == Const(UnitV) {
      assert false;
    }
    ShapeE(env, fuel, c, st);
    AgreeShape(vars, st.scope, r.st.scope);
    if r.o == Normal(BoolV(true)) {
      UseBlock(env, vars, false, body, body', fuel, r.st);
      var r2 := EvalBlock(env, fuel, body, r.st);
      ShapeBlock(env, fuel, body, r.st);
      AgreeShape(vars, r.st.scope, r2.st.scope);
      if r2.o.Normal? || r2.o.Continued? {
        WhileRound(env, vars, c, c', body, body', fuel - 1, r2.st);
      }
    }
  }

  lemma {:induction false} LoopRound(env: Env, vars: Vars, body: seq<Stmt>, body': seq<Stmt>, fuel: nat, st: State)
    requires !env.catchSoft
    requires SimB(env, vars, true, false, false, body, body')
    requires Agree(vars, st.scope) && Done(EvalS(env, fuel, While(Const(UnitV), body), st).o)
    ensures EvalS(env, fuel, While(Const(UnitV), body'), st) == EvalS(env, fuel, While(Const(UnitV), body), st)
    decreases fuel
  {
    UseBlock(env, vars, false, body, body', fuel, st);
    var r2 := EvalBlock(env, fuel, body, st);
    ShapeBlock(env, fuel, body, st);
    AgreeShape(vars, st.scope, r2.st.scope);
    if r2.o.Normal? || r2.o.Continued? {
      LoopRound(env, vars, body, body', fuel - 1, r2.st);
    }
  }

  lemma WhileCongruence(env: Env, vars: Vars, c: Expr, c': Expr, body: seq<Stmt>, body': seq<Stmt>)
    requires !env.catchSoft
    requires if c == Const(UnitV) then c' == c else SimE(env, vars, c, c')
    requires SimB(env, vars, true, false, false, body, body')
    ensures SimS(env, vars, true, While(c, body), While(c', body'))
  {
    forall fuel: nat, st: State | Agree(vars, st.scope) && Done(EvalS(env, fuel, While(c, body), st).o)
      ensures EvalS(env, fuel, While(c', body'), st) == EvalS(env, fuel, While(c, body), st)
    {
      if c == Const(UnitV) {
        LoopRound(env, vars, body, body', fuel, st);
      } else {
        WhileRound(env, vars, c, c', body, body', fuel, st);
      }
    }
  }

  lemma {:induction false} DoRound(env: Env, vars: Vars, c: Expr, c': Expr, body: seq<Stmt>, body': seq<Stmt>,
                                   until: bool, fuel: nat, st: State)
    requires !env.catchSoft && SimE(env, vars, c, c')
    requires SimB(env, vars, true, false, false, body, body')
    requires Agree(vars, st.scope) && Done(EvalS(env, fuel, Do(c, body, until), st).o)
    ensures EvalS(env, fuel, Do(c', body', until), st) == EvalS(env, fuel, Do(c, body, until), st)
    decreases fuel
  {
    UseBlock(env, vars, false, body, body', fuel, st);
    var r := EvalBlock(env, fuel, body, st);
    ShapeBlock(env, fuel, body, st);
    AgreeShape(vars, st.scope, r.st.scope);
    if r.o.Continued? {
      DoRound(env, vars, c, c', body, body', until, fuel - 1, r.st);
    } else if r.o.Normal? {
      var g := EvalE(env, fuel, c, r.st);
      assert EvalE(env, fuel, c', r.st) == g;
      ShapeE(env, fuel, c, r.st);
      AgreeShape(vars, r.st.scope, g.st.scope);
      if g.o == Normal(BoolV(!until)) {
        DoRound(env, vars, c, c', body, body', until, fuel - 1, g.st);
      }
    }
  }

  lemma DoCongruence(env: Env, vars: Vars, c: Expr, c': Expr, body: seq<Stmt>, body': seq<Stmt>, until: bool)
    requires !env.catchSoft && SimE(env, vars, c, c')
    requires SimB(env, vars, true, false, false, body, body')
    ensures SimS(env, vars, true, Do(c, body, until), Do(c', body', until))
  {
    forall fuel: nat, st: State | Agree(vars, st.scope) && Done(EvalS(env, fuel, Do(c, body, until), st).o)
      ensures EvalS(env, fuel, Do(c', body', until), st) == EvalS(env, fuel, Do(c, body, until), st)
    {
      DoRound(env, vars, c, c', body, body', until, fuel, st);
    }
  }

  lemma {:induction false} ForRound(env: Env, vars: Vars, s: Stmt, s': Stmt, n: nat, vs: seq<Val>, round: nat,
                                    fuel: nat, st: State)
    requires !env.catchSoft && s.For? && s'.For? && s'.x == s.x && s'.counter == s.counter
    requires SimB(env, vars, true, false, false, s.body, s'.body)
    requires Agree(vars, st.scope) && n <= |st.scope|
    requires forall k | n <= k < |st.scope| :: !st.scope[k].isConst
    requires Done(EvalFor(env, fuel, s, n, vs, round, st).o)
    ensures EvalFor(env, fuel, s', n, vs, round, st) == EvalFor(env, fuel, s, n, vs, round, st)
    decreases |vs|
  {
    if vs != [] {
      var st1 := if s.counter.Some? then SetAt(SetAt(st, n, IntV(round)), n + 1, vs[0])
                 else SetAt(st, n, vs[0]);
      assert SameShape(st.scope, st1.scope);
      AgreeShape(vars, st.scope, st1.scope);
      UseBlock(env, vars, false, s.body, s'.body, fuel, st1);
      var r := EvalBlock(env, fuel, s.body, st1);
      ShapeBlock(env, fuel, s.body, st1);
      AgreeShape(vars, st1.scope, r.st.scope);
      if r.o.Normal? || r.o.Continued? {
        ForRound(env, vars, s, s', n, vs[1..], round + 1, fuel, r.st);
      }
    }
  }

  lemma ForCongruence(env: Env, vars: Vars, consts: Consts, s: Stmt, s': Stmt)
    requires !env.catchSoft && s.For? && s'.For? && s'.x == s.x && s'.counter == s.counter
    requires VarsIn(vars, consts) && s.x !in consts && (s.counter.Some? ==> s.counter.value !in consts)
    requires SimE(env, vars, s.iter, s'.iter)
    requires SimB(env, vars, true, false, false, s.body, s'.body)
    ensures SimS(env, vars, true, s, s')
  {
    forall fuel: nat, st: State | Agree(vars, st.scope) && Done(EvalS(env, fuel, s, st).o)
      ensures EvalS(env, fuel, s', st) == EvalS(env, fuel, s, st)
    {
      var r := EvalE(env, fuel, s.iter, st);
      assert EvalE(env, fuel, s'.iter, st) == r;
      if r.o.Normal? && r.o.v.ArrV? {
        ShapeE(env, fuel, s.iter, st);
        AgreeShape(vars, st.scope, r.st.scope);
        if s.counter.Some? {
          AgreeBinder(vars, consts, r.st.scope, s.counter.value, IntV(0));
          AgreeBinder(vars, consts, r.st.scope + [Entry(s.counter.value, false, IntV(0))], s.x, UnitV);
        } else {
          AgreeBinder(vars, consts, r.st.scope, s.x, UnitV);
        }
        ForRound(env, vars, s, s', |r.st.scope|, r.o.v.a, 0, fuel, PushLoopVars(s, r.st));
      }
    }
  }

  lemma TryCongruence(env: Env, vars: Vars, consts: Consts, cv: Option<string>,
                      body: seq<Stmt>, body': seq<Stmt>, branch: seq<Stmt>, branch': seq<Stmt>)
    requires !env.catchSoft && VarsIn(vars, consts) && (cv.Some? ==> cv.value !in consts)
    requires SimB(env, vars, true, false, false, body, body')
    requires SimB(env, vars, true, false, false, branch, branch')
    ensures SimS(env, vars, false, Try(body, cv, branch), Try(body', cv, branch'))
  {
    var s, s' := Try(body, cv, branch), Try(body', cv, branch');
    forall fuel: nat, st: State | Agree(vars, st.scope) && Done(EvalS(env, fuel, s, st).o)
      ensures Kept(false, EvalS(env, fuel, s, st), EvalS(env, fuel, s', st))
    {
      UseBlock(env, vars, false, body, body', fuel, st);
      var r := EvalBlock(env, fuel, body, st);
      if r.o.Threw? {
        ShapeBlock(env, fuel, body, st);
        AgreeShape(vars, st.scope, r.st.scope);
        if cv.Some? { AgreeBinder(vars, consts, r.st.scope, cv.value, r.o.v); }
        UseBlock(env, vars, false, branch, branch', fuel, PushCatchVar(cv, r.o.v, r.st));
      }
    }
  }
}
