// What the constructs of the language do, on the calls a script makes: loops, conditions, scopes and
// exceptions against the calls written one after the other.

module EvalLaws {
  import opened Options
  import opened Ast
  import opened Eval
  import opened Operators

  // A host whose `f` always gives a value, and is not one of the operators.
  ghost predicate Serves(env: Env, f: string) {
    f != "!" && (forall a, b :: BuiltinBinary(f, a, b) == NoBuiltin) &&
    forall args, trace :: env.native(f, args, trace).Gave?
  }

  // ---- `for` ----

  // The arguments of the calls that the rounds from `round` on make.
  function Rounds(f: string, counted: bool, round: nat, vs: seq<Val>): seq<Event>
    decreases |vs|
  {
    if vs == [] then []
    else [Event(f, if counted then [IntV(round), vs[0]] else [vs[0]])] + Rounds(f, counted, round + 1, vs[1..])
  }

  function LoopVars(x: string, counter: Option<string>): seq<Expr> {
    if counter.Some? then [Var(counter.value), Var(x)] else [Var(x)]
  }

  function Calling(x: string, counter: Option<string>, f: string, vs: seq<Val>): Stmt {
    For(x, counter, Const(ArrV(vs)), [CallS(f, LoopVars(x, counter))])
  }

  // The scope inside the loop: the counter, if there is one, and the loop variable.
  predicate Inside(scope: seq<Entry>, n: nat, x: string, counter: Option<string>) {
    if counter.Some? then
      |scope| == n + 2 && scope[n].name == counter.value && !scope[n].isConst &&
      scope[n + 1].name == x && !scope[n + 1].isConst
    else |scope| == n + 1 && scope[n].name == x && !scope[n].isConst
  }

  // One variable after the other is evaluated.
  lemma ReadOne(env: Env, fuel: nat, x: string, st: State)
    requires Lookup(st.scope, x) >= 0
    ensures EvalArgs(env, fuel, [Var(x)], st) == ResL(Normal(UnitV), [st.scope[Lookup(st.scope, x)].val], st)
  {
    assert [Var(x)][1..] == [];
    assert EvalArgs(env, fuel, [], st) == ResL(Normal(UnitV), [], st);
  }

  lemma ReadTwo(env: Env, fuel: nat, x: string, y: string, st: State)
    requires Lookup(st.scope, x) >= 0 && Lookup(st.scope, y) >= 0
    ensures EvalArgs(env, fuel, [Var(x), Var(y)], st)
         == ResL(Normal(UnitV), [st.scope[Lookup(st.scope, x)].val, st.scope[Lookup(st.scope, y)].val], st)
  {
    assert [Var(x), Var(y)][1..] == [Var(y)];
    ReadOne(env, fuel, y, st);
  }

  lemma LoopVarsRead(env: Env, fuel: nat, n: nat, x: string, counter: Option<string>, st: State)
    requires Inside(st.scope, n, x, counter) && counter != Some(x)
    ensures EvalArgs(env, fuel, LoopVars(x, counter), st)
         == ResL(Normal(UnitV), if counter.Some? then [st.scope[n].val, st.scope[n + 1].val] else [st.scope[n].val], st)
  {
    if counter.Some? {
      assert st.scope[..n + 1][n] == st.scope[n];
      assert Lookup(st.scope, x) == n + 1;
      assert Lookup(st.scope, counter.value) == n;
      ReadTwo(env, fuel, counter.value, x, st);
    } else {
      ReadOne(env, fuel, x, st);
    }
  }

  // One round: the counter and the variable are set, the call is made.
  lemma RoundCalls(env: Env, fuel: nat, n: nat, x: string, counter: Option<string>, f: string, st: State)
    requires Inside(st.scope, n, x, counter) && counter != Some(x) && Serves(env, f)
    ensures var r := EvalBlock(env, fuel, [CallS(f, LoopVars(x, counter))], st);
      && r.o.Normal? && r.st.scope == st.scope
      && r.st.trace == st.trace + [Event(f, if counter.Some? then [st.scope[n].val, st.scope[n + 1].val] else [st.scope[n].val])]
  {
    LoopVarsRead(env, fuel, n, x, counter, st);
    hide EvalArgs, LoopVars;
    var b := [CallS(f, LoopVars(x, counter))];
    var r := EvalS(env, fuel, b[0], st);
    assert r.o.Normal? && r.st.scope == st.scope;
    assert b[1..] == [];
    assert EvalSeq(env, fuel, [], r.o.v, r.st) == Res(Normal(r.o.v), r.st);
    assert st.scope[..|st.scope|] == st.scope;
  }

  lemma {:induction false} RoundsCall(env: Env, fuel: nat, n: nat, x: string, counter: Option<string>, f: string,
                                      all: seq<Val>, vs: seq<Val>, round: nat, st: State)
    requires Inside(st.scope, n, x, counter) && counter != Some(x) && Serves(env, f)
    ensures var r := EvalFor(env, fuel, Calling(x, counter, f, all), n, vs, round, st);
      && r.o == Normal(UnitV) && |r.st.scope| == |st.scope| && r.st.scope[..n] == st.scope[..n]
      && r.st.trace == st.trace + Rounds(f, counter.Some?, round, vs)
    decreases |vs|
  {
    if vs != [] {
      var st1 := if counter.Some? then SetAt(SetAt(st, n, IntV(round)), n + 1, vs[0]) else SetAt(st, n, vs[0]);
      RoundCalls(env, fuel, n, x, counter, f, st1);
      var r := EvalBlock(env, fuel, [CallS(f, LoopVars(x, counter))], st1);
      hide EvalBlock, Serves;
      RoundsCall(env, fuel, n, x, counter, f, all, vs[1..], round + 1, r.st);
    }
  }

  // A loop over an array calls its body once for every item, in order, and counts from 0.
  lemma ForCalls(env: Env, fuel: nat, x: string, counter: Option<string>, f: string, vs: seq<Val>, st: State)
    requires counter != Some(x) && Serves(env, f)
    ensures EvalS(env, fuel, Calling(x, counter, f, vs), st)
         == Res(Normal(UnitV), State(st.scope, st.trace + Rounds(f, counter.Some?, 0, vs)))
  {
    var s := Calling(x, counter, f, vs);
    var n := |st.scope|;
    var st1 := PushLoopVars(s, st);
    assert st1.scope[..n] == st.scope;
    hide EvalFor, Serves, Rounds;
    RoundsCall(env, fuel, n, x, counter, f, vs, vs, 0, st1);
  }

  // ---- statements one after the other ----

  // Two lists of statements run one after the other.
  lemma {:induction false} SeqAppend(env: Env, fuel: nat, a: seq<Stmt>, b: seq<Stmt>, v: Val, st: State)
    ensures EvalSeq(env, fuel, a + b, v, st)
         == var r := EvalSeq(env, fuel, a, v, st);
            if r.o.Normal? then EvalSeq(env, fuel, b, r.o.v, r.st) else r
    decreases |a|
  {
    if a == [] {
      assert a + b == b;
    } else {
      assert (a + b)[0] == a[0] && (a + b)[1..] == a[1..] + b;
      var r := EvalS(env, fuel, a[0], st);
      hide EvalS;
      if r.o.Normal? { SeqAppend(env, fuel, a[1..], b, r.o.v, r.st); }
    }
  }

  lemma OneStmt(env: Env, fuel: nat, s: Stmt, v: Val, st: State)
    ensures EvalSeq(env, fuel, [s], v, st) == EvalS(env, fuel, s, st)
  {
    hide EvalS;
    assert [s][1..] == [];
    var r := EvalS(env, fuel, s, st);
    assert r.o.Normal? ==> EvalSeq(env, fuel, [], r.o.v, r.st) == r;
  }

  // ---- variables ----

  // A definition is seen by what comes after it in its block, and by nothing after the block.
  lemma LetScope(env: Env, fuel: nat, x: string, v: Val, w: Val, isConst: bool, st: State)
    ensures EvalSeq(env, fuel, [Let(x, Const(v), isConst), ExprS(Var(x))], UnitV, st).o == Normal(v)
    ensures EvalSeq(env, fuel, [Let(x, Const(v), isConst), Block([Let(x, Const(w), false)]), ExprS(Var(x))], UnitV, st).o
         == Normal(v)
    ensures EvalSeq(env, fuel, [Let(x, Const(v), false), Block([Assign(x, None, Const(w))]), ExprS(Var(x))], UnitV, st).o
         == Normal(w)
    ensures EvalSeq(env, fuel, [Let(x, Const(v), true), Assign(x, None, Const(w))], UnitV, st).o
         == if env.catchSoft then Threw(StrV("error")) else Stuck
  {
    hide EvalSeq, EvalS, EvalE, Push;
    var read := ExprS(Var(x));
    var inner, change := Block([Let(x, Const(w), false)]), Block([Assign(x, None, Const(w))]);
    var first, open, fixed := Let(x, Const(v), isConst), Let(x, Const(v), false), Let(x, Const(v), true);
    assert [first] + [read] == [first, read] && [first] + [inner, read] == [first, inner, read];
    assert [open] + [change, read] == [open, change, read];
    assert [fixed] + [Assign(x, None, Const(w))] == [fixed, Assign(x, None, Const(w))];
    Defined(env, fuel, x, v, isConst, [read], st);
    ReadTop(env, fuel, x, v, isConst, st);
    Defined(env, fuel, x, v, isConst, [inner, read], st);
    Hidden(env, fuel, x, v, w, isConst, st);
    Defined(env, fuel, x, v, false, [change, read], st);
    Changed(env, fuel, x, v, w, st);
    Defined(env, fuel, x, v, true, [Assign(x, None, Const(w))], st);
    ConstKept(env, fuel, x, v, w, st);
  }

  lemma ConstKept(env: Env, fuel: nat, x: string, v: Val, w: Val, st: State)
    ensures EvalSeq(env, fuel, [Assign(x, None, Const(w))], UnitV, Push(st, x, true, v)).o
         == if env.catchSoft then Threw(StrV("error")) else Stuck
  {
    OneStmt(env, fuel, Assign(x, None, Const(w)), UnitV, Push(st, x, true, v));
  }

  lemma Defined(env: Env, fuel: nat, x: string, v: Val, isConst: bool, b: seq<Stmt>, st: State)
    ensures EvalSeq(env, fuel, [Let(x, Const(v), isConst)] + b, UnitV, st)
         == EvalSeq(env, fuel, b, UnitV, Push(st, x, isConst, v))
  {
    var first := Let(x, Const(v), isConst);
    var all := [first] + b;
    assert all[0] == first && all[1..] == b;
    assert EvalS(env, fuel, first, st) == Res(Normal(UnitV), Push(st, x, isConst, v));
    hide EvalS;
  }

  lemma ReadTop(env: Env, fuel: nat, x: string, v: Val, isConst: bool, st: State)
    ensures EvalSeq(env, fuel, [ExprS(Var(x))], UnitV, Push(st, x, isConst, v)).o == Normal(v)
  {
    OneStmt(env, fuel, ExprS(Var(x)), UnitV, Push(st, x, isConst, v));
  }

  // An inner definition of the same name is gone after its block.
  lemma Hidden(env: Env, fuel: nat, x: string, v: Val, w: Val, isConst: bool, st: State)
    ensures EvalSeq(env, fuel, [Block([Let(x, Const(w), false)]), ExprS(Var(x))], UnitV, Push(st, x, isConst, v)).o == Normal(v)
  {
    var outer := Push(st, x, isConst, v);
    var block, read := Block([Let(x, Const(w), false)]), ExprS(Var(x));
    OneStmt(env, fuel, Let(x, Const(w), false), UnitV, outer);
    assert Push(outer, x, false, w).scope[..|outer.scope|] == outer.scope;
    assert EvalS(env, fuel, block, outer) == Res(Normal(UnitV), outer);
    assert [block, read][1..] == [read];
    ReadTop(env, fuel, x, v, isConst, st);
  }

  // An assignment inside a block changes the variable around it.
  lemma Changed(env: Env, fuel: nat, x: string, v: Val, w: Val, st: State)
    ensures EvalSeq(env, fuel, [Block([Assign(x, None, Const(w))]), ExprS(Var(x))], UnitV, Push(st, x, false, v)).o == Normal(w)
  {
    var outer := Push(st, x, false, v);
    var block, read := Block([Assign(x, None, Const(w))]), ExprS(Var(x));
    OneStmt(env, fuel, Assign(x, None, Const(w)), UnitV, outer);
    assert SetAt(outer, |st.scope|, w) == Push(st, x, false, w);
    assert Push(st, x, false, w).scope[..|outer.scope|] == Push(st, x, false, w).scope;
    assert EvalS(env, fuel, block, outer) == Res(Normal(UnitV), Push(st, x, false, w));
    assert [block, read][1..] == [read];
    ReadTop(env, fuel, x, w, false, st);
  }

  // ---- exceptions ----

  // `throw` skips what comes after it in its block.
  lemma ThrowEnds(env: Env, fuel: nat, v: Val, after: seq<Stmt>, st: State)
    ensures EvalBlock(env, fuel, [Return(Some(Const(v)), true)] + after, st) == Res(Threw(v), st)
  {
    var body := [Return(Some(Const(v)), true)] + after;
    assert body[0] == Return(Some(Const(v)), true) && EvalS(env, fuel, body[0], st) == Res(Threw(v), st);
    hide EvalS;
    assert EvalSeq(env, fuel, body, UnitV, st) == Res(Threw(v), st);
    assert st.scope[..|st.scope|] == st.scope;
  }

  lemma BlockOfOne(env: Env, fuel: nat, s: Stmt, st: State)
    ensures EvalBlock(env, fuel, [s], st) == RewindRes(EvalS(env, fuel, s, st), |st.scope|)
  {
    OneStmt(env, fuel, s, UnitV, st);
    hide EvalS, EvalSeq;
  }

  // The handler sees the value thrown.
  lemma CatchSees(env: Env, fuel: nat, x: string, v: Val, after: seq<Stmt>, st: State)
    ensures EvalS(env, fuel, Try([Return(Some(Const(v)), true)] + after, Some(x), [Return(Some(Var(x)), false)]), st)
         == Res(Returned(v), st)
  {
    ThrowEnds(env, fuel, v, after, st);
    var caught := Push(st, x, false, v);
    BlockOfOne(env, fuel, Return(Some(Var(x)), false), caught);
    assert EvalE(env, fuel, Var(x), caught) == Res(Normal(v), caught);
    assert EvalS(env, fuel, Return(Some(Var(x)), false), caught) == Res(Returned(v), caught);
    assert caught.scope[..|caught.scope|] == caught.scope && caught.scope[..|st.scope|] == st.scope;
    hide EvalBlock;
  }

  // An empty `throw` in the handler throws the same value again.
  lemma CatchRethrows(env: Env, fuel: nat, v: Val, after: seq<Stmt>, st: State)
    ensures EvalS(env, fuel, Try([Return(Some(Const(v)), true)] + after, None, [Return(None, true)]), st) == Res(Threw(v), st)
  {
    ThrowEnds(env, fuel, v, after, st);
    BlockOfOne(env, fuel, Return(None, true), st);
    assert st.scope[..|st.scope|] == st.scope;
    hide EvalBlock;
  }

  // Without an exception the handler does not run, and the statement has the value of its body.
  lemma NothingCaught(env: Env, fuel: nat, x: Option<string>, w: Val, handler: seq<Stmt>, st: State)
    ensures EvalS(env, fuel, Try([ExprS(Const(w))], x, handler), st) == Res(Normal(w), st)
  {
    BlockOfOne(env, fuel, ExprS(Const(w)), st);
    assert st.scope[..|st.scope|] == st.scope;
    hide EvalBlock;
  }

  // ---- leaving a loop ----

  lemma OneBreak(env: Env, fuel: nat, val: Option<Expr>, isBreak: bool, st: State)
    requires val.Some? ==> val.value.Const?
    ensures EvalBlock(env, fuel, [Jump(isBreak, val)], st)
         == Res(if isBreak then Broke(if val.Some? then val.value.v else UnitV) else Continued, st)
  {
    BlockOfOne(env, fuel, Jump(isBreak, val), st);
    assert st.scope[..|st.scope|] == st.scope;
    hide EvalBlock;
  }

  // `break v` gives the loop the value v.
  lemma BreakValue(env: Env, fuel: nat, x: string, a: Val, vs: seq<Val>, v: Val, until: bool, c: Expr, st: State)
    requires fuel > 0
    ensures EvalS(env, fuel, For(x, None, Const(ArrV([a] + vs)), [Jump(true, Some(Const(v)))]), st) == Res(Normal(v), st)
    ensures EvalS(env, fuel, While(Const(BoolV(true)), [Jump(true, Some(Const(v)))]), st) == Res(Normal(v), st)
    ensures EvalS(env, fuel, Do(c, [Jump(true, Some(Const(v)))], until), st) == Res(Normal(v), st)
  {
    var s := For(x, None, Const(ArrV([a] + vs)), [Jump(true, Some(Const(v)))]);
    var inside := SetAt(PushLoopVars(s, st), |st.scope|, a);
    OneBreak(env, fuel, Some(Const(v)), true, st);
    OneBreak(env, fuel, Some(Const(v)), true, inside);
    hide EvalBlock;
    assert inside.scope[..|st.scope|] == st.scope && ([a] + vs)[0] == a;
  }

  // `continue` in a `do` loop goes to the next round without looking at the guard, so that this loop
  // never ends.
  lemma {:induction false} ContinueSkipsGuard(env: Env, fuel: nat, c: Expr, until: bool, st: State)
    ensures EvalS(env, fuel, Do(c, [Jump(false, None)], until), st).o == OutOfFuel
    decreases fuel
  {
    if fuel > 0 {
      OneBreak(env, fuel, None, false, st);
      hide EvalBlock;
      ContinueSkipsGuard(env, fuel - 1, c, until, st);
    }
  }

  // ---- control flow ----

  // A statement whose expressions, if it has any, are constants.
  predicate Simple(s: Stmt) {
    match s
    case Noop => true
    case ExprS(e) => e.Const?
    case CallS(_, args) => args == []
    case Let(_, e, _) => e.Const?
    case Assign(_, op, e) => op == None && e.Const?
    case Jump(_, val) => val.Some? ==> val.value.Const?
    case Return(val, _) => val.Some? ==> val.value.Const?
    case _ => false
  }

  // A host that always answers, and a scope in which `x` can be assigned.
  function Willing(): Env {
    Env((f, args, trace) => Gave(UnitV), true)
  }

  function Room(s: Stmt): State {
    State(if s.Assign? then [Entry(s.x, false, UnitV)] else [], [])
  }

  predicate EndsNormally(env: Env, fuel: nat, s: Stmt, st: State) {
    EvalS(env, fuel, s, st).o.Normal?
  }

  // The statements after which nothing of a block is run are those that no run leaves normally.
  lemma LeavesExactly(s: Stmt)
    requires Simple(s)
    ensures IsControlFlowBreak(s) <==> forall env, fuel, st :: !EndsNormally(env, fuel, s, st)
  {
    if IsControlFlowBreak(s) {
      forall env, fuel, st
        ensures !EndsNormally(env, fuel, s, st)
      {}
    } else {
      if s.CallS? { assert EvalArgs(Willing(), 0, [], Room(s)) == ResL(Normal(UnitV), [], Room(s)); }
      assert EndsNormally(Willing(), 0, s, Room(s));
    }
  }
}
