// Where the optimizer does change what a script does: one script for each condition of the
// guarantee, showing that the condition cannot be dropped.

module Limits {
  import opened Options
  import opened Ast
  import opened Eval
  import opened Conditions
  import opened Simulation
  import opened Phases
  import opened NormalForm
  import opened Checked

  // A host whose functions all return `v`.
  function Host(v: Val, catchSoft: bool): Env {
    Env((f: string, vs: seq<Val>, t: seq<Event>) => Gave(v), catchSoft)
  }

  // ---- `??` between literals ----

  // What the loop over the operands leaves of a list of literals: the first one that is not (),
  // and `false` when there is none.
  function FoldLiterals(es: seq<Expr>): Expr {
    if es == [] then Const(BoolV(false))
    else if es[0] != Const(UnitV) then es[0]
    else FoldLiterals(es[1..])
  }

  lemma {:induction false} FirstLiteral(env: Env, fuel: nat, es: seq<Expr>, st: State)
    requires forall x | x in es :: x.Const?
    ensures EvalFirst(env, fuel, es, st) ==
      if exists x :: x in es && x != Const(UnitV) then EvalE(env, fuel, FoldLiterals(es), st)
      else Res(Normal(UnitV), st)
  {
    if es != [] {
      assert EvalE(env, fuel, es[0], st) == Res(Normal(es[0].v), st);
      FirstLiteral(env, fuel, es[1..], st);
      assert es[0] in es;
      assert forall x :: x in es <==> x == es[0] || x in es[1..];
    }
  }

  // Folding keeps the meaning if and only if some operand is not ().
  lemma CoalesceFold(env: Env, es: seq<Expr>)
    requires forall x | x in es :: x.Const?
    ensures SimE(env, [], Coalesce(es), FoldLiterals(es)) <==> exists x :: x in es && x != Const(UnitV)
  {
    forall fuel: nat, st: State
      ensures EvalE(env, fuel, Coalesce(es), st) == EvalFirst(env, fuel, es, st)
    {
    }
    if exists x :: x in es && x != Const(UnitV) {
      forall fuel: nat, st: State
        ensures EvalE(env, fuel, FoldLiterals(es), st) == EvalE(env, fuel, Coalesce(es), st)
      {
        FirstLiteral(env, fuel, es, st);
      }
    } else {
      var st := State([], []);
      FirstLiteral(env, 0, es, st);
      UnitsFold(es);
      assert Agree([], st.scope);
      assert EvalE(env, 0, Coalesce(es), st) == Res(Normal(UnitV), st);
      assert EvalE(env, 0, FoldLiterals(es), st) == Res(Normal(BoolV(false)), st);
    }
  }

  lemma {:induction false} UnitsFold(es: seq<Expr>)
    requires forall x | x in es :: x == Const(UnitV)
    ensures FoldLiterals(es) == Const(BoolV(false))
  {
    if es != [] {
      assert es[0] in es && forall x | x in es[1..] :: x in es;
      UnitsFold(es[1..]);
    }
  }

  // ---- x = x op e, where e assigns x ----

  lemma SelfAssignment()
    ensures var e := StmtE([Assign("x", None, Const(IntV(5))), ExprS(Const(IntV(1)))]);
      var st := State([Entry("x", false, IntV(0))], []);
      var env := Host(UnitV, false);
      OpAssignable("x", None, Call("+", [Var("x"), e])) && !OperandKept("x", None, Call("+", [Var("x"), e])) &&
      EvalS(env, 0, Assign("x", None, Call("+", [Var("x"), e])), st).st.scope == [Entry("x", false, IntV(1))] &&
      EvalS(env, 0, Assign("x", Some("+"), e), st).st.scope == [Entry("x", false, IntV(6))]
  {
    var e := StmtE([Assign("x", None, Const(IntV(5))), ExprS(Const(IntV(1)))]);
    var st, st5 := State([Entry("x", false, IntV(0))], []), State([Entry("x", false, IntV(5))], []);
    var env := Host(UnitV, false);
    OperandEffects(e);
    AssigningOperand(env, st, st5);
    TwoOperands(env, st, st5, e);
    hide EvalArgs, EvalBlock, EvalE, EffectsE, OpAssignable, OperandKept;
    PlainSum(env, st, st5, e);
    OpSum(env, st, st5, e);
  }

  lemma PlainSum(env: Env, st: State, st5: State, e: Expr)
    requires st == State([Entry("x", false, IntV(0))], []) && st5 == State([Entry("x", false, IntV(5))], [])
    requires EvalArgs(env, 0, [Var("x"), e], st) == ResL(Normal(UnitV), [IntV(0), IntV(1)], st5)
    ensures EvalS(env, 0, Assign("x", None, Call("+", [Var("x"), e])), st).st.scope == [Entry("x", false, IntV(1))]
  {
    hide EvalArgs;
    assert Lookup(st5.scope, "x") == 0;
    assert Apply(env, "+", [IntV(0), IntV(1)], st5) == Res(Normal(IntV(1)), st5);
    assert EvalE(env, 0, Call("+", [Var("x"), e]), st) == Res(Normal(IntV(1)), st5);
  }

  lemma OpSum(env: Env, st: State, st5: State, e: Expr)
    requires st == State([Entry("x", false, IntV(0))], []) && st5 == State([Entry("x", false, IntV(5))], [])
    requires EvalE(env, 0, e, st) == Res(Normal(IntV(1)), st5)
    ensures EvalS(env, 0, Assign("x", Some("+"), e), st).st.scope == [Entry("x", false, IntV(6))]
  {
    hide EvalE;
    assert Lookup(st5.scope, "x") == 0;
    assert Apply(env, "+", [IntV(5), IntV(1)], st5) == Res(Normal(IntV(6)), st5);
  }

  lemma OperandEffects(e: Expr)
    requires e == StmtE([Assign("x", None, Const(IntV(5))), ExprS(Const(IntV(1)))])
    ensures var sum := Call("+", [Var("x"), e]); OpAssignable("x", None, sum) && !OperandKept("x", None, sum)
  {
    var args := [Var("x"), e];
    assert args[1..] == [e] && [e][1..] == [];
    assert Assigns("x") in EffectsE(e);
    assert EffectsEs([e]) == EffectsE(e) + {};
    assert EffectsEs(args) == EffectsE(args[0]) + EffectsEs(args[1..]);
  }

  lemma TwoOperands(env: Env, st: State, st5: State, e: Expr)
    requires st.scope == [Entry("x", false, IntV(0))] && EvalE(env, 0, e, st) == Res(Normal(IntV(1)), st5)
    ensures EvalArgs(env, 0, [Var("x"), e], st) == ResL(Normal(UnitV), [IntV(0), IntV(1)], st5)
  {
    assert EvalE(env, 0, Var("x"), st) == Res(Normal(IntV(0)), st);
    assert [Var("x"), e][1..] == [e] && [e][1..] == [];
    assert EvalArgs(env, 0, [e], st) == ResL(Normal(UnitV), [IntV(1)], st5);
  }

  // `{ x = 5; 1 }`
  lemma AssigningOperand(env: Env, st: State, st5: State)
    requires st == State([Entry("x", false, IntV(0))], []) && st5 == State([Entry("x", false, IntV(5))], [])
    ensures EvalE(env, 0, StmtE([Assign("x", None, Const(IntV(5))), ExprS(Const(IntV(1)))]), st) == Res(Normal(IntV(1)), st5)
  {
    var b := [Assign("x", None, Const(IntV(5))), ExprS(Const(IntV(1)))];
    assert EvalS(env, 0, b[0], st) == Res(Normal(UnitV), st5);
    assert b[1..][1..] == [];
    assert EvalSeq(env, 0, b[1..], UnitV, st5) == Res(Normal(IntV(1)), st5);
  }

  // ---- a loop variable named like a propagated constant ----

  lemma ShadowingBinder()
    ensures var s := For("a", None, Const(ArrV([IntV(2)])), [CallS("f", [Var("a")])]);
      var s' := For("a", None, Const(ArrV([IntV(2)])), [CallS("f", [Const(IntV(1))])]);
      var st := State([Entry("a", true, IntV(1))], []);
      var env := Host(UnitV, false);
      FindConst([("a", Some(IntV(1)))], "a") == Some(IntV(1)) && Agree([("a", Some(IntV(1)))], st.scope) &&
      EvalS(env, 0, s, st).st.trace == [Event("f", [IntV(2)])] &&
      EvalS(env, 0, s', st).st.trace == [Event("f", [IntV(1)])]
  {
    var st := State([Entry("a", true, IntV(1))], []);
    var vars: Vars := [("a", Some(IntV(1)))];
    AgreePush([], [], "a", Some(IntV(1)), true, IntV(1));
    assert [] + vars == vars && [] + st.scope == st.scope;
    FindLast(vars, "a", Some(IntV(1)));
    OneCall(Var("a"), IntV(2), st);
    OneCall(Const(IntV(1)), IntV(1), st);
  }

  lemma FindLast(vars: Vars, x: string, c: Option<Val>)
    requires vars != [] && vars[|vars| - 1] == (x, c)
    ensures FindConst(vars, x) == c
  {
  }

  // One round of the loop, which calls `f` with the value of `e`.
  lemma OneCall(e: Expr, v: Val, st: State)
    requires (e == Var("a") && v == IntV(2)) || e == Const(v)
    ensures EvalS(Host(UnitV, false), 0, For("a", None, Const(ArrV([IntV(2)])), [CallS("f", [e])]), st).st.trace ==
      st.trace + [Event("f", [v])]
  {
    var env, body := Host(UnitV, false), [CallS("f", [e])];
    var s := For("a", None, Const(ArrV([IntV(2)])), body);
    var st1 := Push(st, "a", false, IntV(2));
    assert PushLoopVars(s, st) == Push(st, "a", false, UnitV);
    assert SetAt(Push(st, "a", false, UnitV), |st.scope|, IntV(2)) == st1;
    assert EvalE(env, 0, e, st1) == Res(Normal(v), st1);
    assert [e][1..] == [] && body[1..] == [] && [IntV(2)][1..] == [];
    assert EvalArgs(env, 0, [e], st1) == ResL(Normal(UnitV), [v], st1);
    var st2 := st1.(trace := st.trace + [Event("f", [v])]);
    assert EvalS(env, 0, body[0], st1) == Res(Normal(UnitV), st2);
    assert EvalSeq(env, 0, body, UnitV, st1) == Res(Normal(UnitV), st2);
    assert EvalFor(env, 0, s, |st.scope|, [], 1, st2) == Res(Normal(UnitV), st2);
    assert EvalFor(env, 0, s, |st.scope|, [IntV(2)], 0, Push(st, "a", false, UnitV)) == Res(Normal(UnitV), st2);
  }

  // ---- a failing variable read inside `try` ----

  // The read is removed as a statement without effect; the interpreter would have caught its failure.
  lemma DroppedFailure()
    ensures var body, branch := [ExprS(Var("x"))], [CallS("f", [])];
      var env, st := Host(UnitV, true), State([], []);
      Survivors(body, false, true) == [] &&
      EvalS(env, 0, Try(body, None, branch), st).st.trace == [Event("f", [])] &&
      EvalS(env, 0, Try([], None, branch), st).st.trace == []
  {
    var body, branch := [ExprS(Var("x"))], [CallS("f", [])];
    var env, st := Host(UnitV, true), State([], []);
    SurvivorFlag(body, false, true, 0);
    assert EvalBlock(env, 0, body, st) == Res(Threw(StrV("error")), st);
    assert branch[1..] == [];
    assert EvalS(env, 0, branch[0], st) == Res(Normal(UnitV), State([], [Event("f", [])]));
    assert EvalSeq(env, 0, branch, UnitV, st) == Res(Normal(UnitV), State([], [Event("f", [])]));
  }

  // ---- the value of a block ----

  // An empty block at the end makes the value (); flattening it away does not.
  lemma EmptyBlockAtEnd()
    ensures var b := [CallS("f", []), Block([])];
      var env, st := Host(IntV(7), false), State([], []);
      !ValueB(false, b) && Flatten(b) == [CallS("f", [])] &&
      EvalSeq(env, 0, b, UnitV, st).o == Normal(UnitV) && EvalSeq(env, 0, Flatten(b), UnitV, st).o == Normal(IntV(7))
  {
    var b := [CallS("f", []), Block([])];
    var env, st := Host(IntV(7), false), State([], []);
    var st1 := State([], [Event("f", [])]);
    assert b[1] in b;
    assert b[1..] == [Block([])] && [Block([])][1..] == [];
    assert Flatten([]) == [] && Flatten([Block([])]) == [];
    assert Flatten(b) == [CallS("f", [])];
    assert EvalS(env, 0, b[0], st) == Res(Normal(IntV(7)), st1);
    assert [CallS("f", [])][1..] == [];
    assert EvalSeq(env, 0, [CallS("f", [])], UnitV, st) == Res(Normal(IntV(7)), st1);
    assert EvalS(env, 0, Block([]), st1) == Res(Normal(UnitV), st1);
    assert EvalSeq(env, 0, [Block([])], IntV(7), st1) == Res(Normal(UnitV), st1);
  }

  // A loop left by `break v` has the value v, although it counts as returning none: the `return`
  // after it is dropped.
  lemma BreakWithValue()
    ensures var loop := While(Const(UnitV), [Jump(true, Some(Const(IntV(5))))]);
      var b := [loop, Return(None, false)];
      var env, st := Host(UnitV, false), State([], []);
      !ValueB(true, b) && KeepStep(b, false, true) == Some([loop]) &&
      Run(env, false, true, 1, b, st).o == Normal(UnitV) && Run(env, false, true, 1, [loop], st).o == Normal(IntV(5))
  {
    var body := [Jump(true, Some(Const(IntV(5))))];
    var loop := While(Const(UnitV), body);
    var b := [loop, Return(None, false)];
    var env, st := Host(UnitV, false), State([], []);
    assert body[0] in body && !PlainBreaks(body[0]);
    assert b[0] in b && !TightS(b[0]);
    assert Front(b) == [loop];
    assert EvalS(env, 1, body[0], st) == Res(Broke(IntV(5)), st);
    assert EvalBlock(env, 1, body, st) == Res(Broke(IntV(5)), st);
    assert EvalS(env, 1, loop, st) == Res(Normal(IntV(5)), st);
    assert b[1..] == [Return(None, false)] && [loop][1..] == [];
    assert EvalSeq(env, 1, [Return(None, false)], IntV(5), st) == Res(Returned(UnitV), st);
    assert EvalSeq(env, 1, b, UnitV, st) == Res(Returned(UnitV), st);
    assert EvalSeq(env, 1, [loop], UnitV, st) == Res(Normal(IntV(5)), st);
  }

  // A bare `return` ends up last once the dead code after it is gone, and is dropped after a `try`,
  // which counts as having no value: what is settled by the last statement as written is not.
  lemma BareReturn()
    ensures var s := Try([CallS("f", [])], None, []);
      var b := [s, Return(None, false), CallS("g", [])];
      var env, st := Host(IntV(7), false), State([], []);
      Settles(Held(true), b[2]) && !ValueB(true, b) && Live(b) == [s, Return(None, false)] &&
      KeepStep(Live(b), false, true) == Some([s]) &&
      Run(env, false, true, 0, b, st).o == Normal(UnitV) && Run(env, false, true, 0, [s], st).o == Normal(IntV(7))
  {
    var s := Try([CallS("f", [])], None, []);
    var b := [s, Return(None, false), CallS("g", [])];
    assert b[0] in b && !TightS(b[0]);
    assert b[1..] == [Return(None, false), CallS("g", [])];
    assert UnsureReturn in EffectsS(b[1..][0]) && UnsureReturn in EffectsB(b[1..]);
    assert Live(b[1..]) == [Return(None, false)];
    assert Live(b) == [s] + [Return(None, false)];
    assert Front(Live(b)) == [s];
    hide TightB, SettledB, Live, KeepStep, EffectsB;
    TryThenReturn(s, b);
  }

  lemma TryThenReturn(s: Stmt, b: seq<Stmt>)
    requires s == Try([CallS("f", [])], None, []) && b == [s, Return(None, false), CallS("g", [])]
    ensures var env, st := Host(IntV(7), false), State([], []);
      Run(env, false, true, 0, b, st).o == Normal(UnitV) && Run(env, false, true, 0, [s], st).o == Normal(IntV(7))
  {
    var env, st := Host(IntV(7), false), State([], []);
    var st1 := State([], [Event("f", [])]);
    assert [s][1..] == [] && [CallS("f", [])][1..] == [];
    assert EvalS(env, 0, CallS("f", []), st) == Res(Normal(IntV(7)), st1);
    assert EvalSeq(env, 0, [CallS("f", [])], UnitV, st) == Res(Normal(IntV(7)), st1);
    assert EvalS(env, 0, s, st) == Res(Normal(IntV(7)), st1);
    assert b[1..] == [Return(None, false), CallS("g", [])];
    assert EvalSeq(env, 0, b[1..], IntV(7), st1) == Res(Returned(UnitV), st1);
    assert EvalSeq(env, 0, b, UnitV, st) == Res(Returned(UnitV), st1);
    assert EvalSeq(env, 0, [s], UnitV, st) == Res(Normal(IntV(7)), st1);
  }

  // `try` has the value of its body, which is optimized as if its value were not used.
  lemma TryValue()
    ensures var body := [ExprS(Const(IntV(5)))];
      var env, st := Host(UnitV, false), State([], []);
      !ValueB(false, [Try(body, None, [])]) && Trim(body, false, true, false) == [] &&
      EvalS(env, 0, Try(body, None, []), st).o == Normal(IntV(5)) && EvalS(env, 0, Block([]), st).o == Normal(UnitV)
  {
    var body := [ExprS(Const(IntV(5)))];
    var env, st := Host(UnitV, false), State([], []);
    var s := Try(body, None, []);
    assert [s][0] in [s] && !TightS(s);
    assert DropStep(body, true, false) == Some([]);
    assert TrimDropped([], true, false) == [];
    assert body[1..] == [];
    assert EvalSeq(env, 0, body, UnitV, st) == Res(Normal(IntV(5)), st);
  }
}
