// What scripts with closures mean, on programs: loops count from 0, a closure shares the variables it
// was made with, and a new definition of a name is another variable.

module ScriptLaws {
  import opened Options
  import opened Script

  // ---- loops ----

  function Fold(host: Host, f: string, i: int, n: int, a: int): Option<int>
    decreases n - i
  {
    if i >= n then Some(a)
    else match host(f, [a, i]) case None => None case Some(b) => Fold(host, f, i + 1, n, b)
  }

  // `s = f(s, x)`
  function Update(s: string, f: string, x: string): Stmt {
    Assign(s, Prim(f, [Var(s), Var(x)]))
  }

  ghost predicate Holds(env: Env, store: Store, x: string, l: nat, n: int) {
    Find(env, x) == Some(l) && l < |store| && store[l].v == IntV(n)
  }

  lemma TwoRead(host: Host, fuel: nat, x: string, k: nat, n: int, y: string, l: nat, m: int, env: Env, store: Store)
    requires Holds(env, store, x, k, n) && Holds(env, store, y, l, m)
    ensures EvalArgs(host, fuel, [Var(x), Var(y)], env, store) == ResL(Normal(UnitV), [IntV(n), IntV(m)], store)
  {
    var args := [Var(x), Var(y)];
    assert args[1..] == [Var(y)] && [Var(y)][1..] == [];
    assert EvalArgs(host, fuel, [], env, store) == ResL(Normal(UnitV), [], store);
    assert EvalArgs(host, fuel, [Var(y)], env, store) == ResL(Normal(UnitV), [IntV(m)], store);
  }

  lemma TwoInts(n: int, m: int)
    ensures Ints([IntV(n), IntV(m)]) == Some([n, m])
  {
    assert [IntV(n), IntV(m)][1..] == [IntV(m)] && [IntV(m)][1..] == [];
    assert Ints([]) == Some([]);
    assert Ints([IntV(m)]) == Some([m] + []);
    assert [m] + [] == [m] && [n] + [m] == [n, m];
  }

  lemma PrimRead(host: Host, fuel: nat, f: string, x: string, k: nat, n: int, y: string, l: nat, m: int, env: Env, store: Store)
    requires Holds(env, store, x, k, n) && Holds(env, store, y, l, m)
    ensures EvalE(host, fuel, Prim(f, [Var(x), Var(y)]), env, store)
         == Res(match host(f, [n, m]) case None => Failure case Some(r) => Normal(IntV(r)), store)
  {
    hide EvalArgs, Holds, Ints;
    TwoRead(host, fuel, x, k, n, y, l, m, env, store);
    TwoInts(n, m);
  }

  // A new frame without the name does not hide it.
  lemma FindOuter(env: Env, frame: map<string, nat>, x: string)
    requires x !in frame
    ensures Find(env + [frame], x) == Find(env, x)
  {
    assert (env + [frame])[..|env|] == env;
  }

  lemma FindHere(env: Env, frame: map<string, nat>, x: string)
    requires x in frame
    ensures Find(env + [frame], x) == Some(frame[x])
  {}

  lemma OneStmt(host: Host, fuel: nat, s: Stmt, v: Val, env: Env, store: Store)
    requires env != [] && !s.Let?
    ensures EvalSeq(host, fuel, [s], v, env, store) == EvalS(host, fuel, s, env, store)
  {
    hide EvalS;
    assert [s][1..] == [];
    var r := EvalS(host, fuel, s, env, store);
    assert r.o.Normal? ==> EvalSeq(host, fuel, [], r.o.v, env, r.store) == r;
  }

  // One round of `for x in n { s = f(s, x) }`.
  lemma RoundUpdates(host: Host, fuel: nat, s: string, f: string, x: string, l: nat, a: int, k: nat, i: int, env: Env, store: Store)
    requires Holds(env, store, s, l, a) && Holds(env, store, x, k, i) && !store[l].isConst
    ensures EvalBlock(host, fuel, [Update(s, f, x)], env, store)
         == match host(f, [a, i])
            case None => Res(Failure, store)
            case Some(b) => Res(Normal(UnitV), SetCell(store, l, IntV(b)))
  {
    var env' := env + [map[]];
    FindOuter(env, map[], s);
    FindOuter(env, map[], x);
    hide Find, EvalE, SetCell;
    PrimRead(host, fuel, f, s, l, a, x, k, i, env', store);
    OneStmt(host, fuel, Update(s, f, x), UnitV, env', store);
  }

  // The cells of a loop: the counter comes before the variable.
  function VarCell(s: Stmt, base: nat): nat
    requires s.For?
  {
    if s.counter.Some? then base + 1 else base
  }

  // The same variable takes all the values from 0 on, and the counter with it.
  lemma {:induction false} RoundsUpdate(host: Host, fuel: nat, loop: Stmt, s: string, f: string, x: string, l: nat, a: int,
                                        i: nat, n: int, base: nat, env: Env, store: Store)
    requires loop.For? && loop.body == [Update(s, f, x)] && (x == loop.x || loop.counter == Some(x))
    requires Holds(env, store, s, l, a) && l < base && !store[l].isConst && VarCell(loop, base) < |store|
    requires Find(env, x) == Some(if x == loop.x then VarCell(loop, base) else base)
    ensures var r := EvalFor(host, fuel, loop, i, n, base, env, store);
      match Fold(host, f, i, n, a)
      case None => r.o == Failure
      case Some(b) => r.o == Normal(UnitV) && Holds(env, r.store, s, l, b) && |r.store| == |store|
    decreases n - i
  {
    if i < n {
      var store1 := if loop.counter.Some? then SetCell(SetCell(store, base, IntV(i)), base + 1, IntV(i))
                    else SetCell(store, base, IntV(i));
      var k := if x == loop.x then VarCell(loop, base) else base;
      assert Holds(env, store1, s, l, a) && Holds(env, store1, x, k, i) && |store1| == |store|;
      RoundUpdates(host, fuel, s, f, x, l, a, k, i, env, store1);
      if b :| host(f, [a, i]) == Some(b) {
        var store2 := SetCell(store1, l, IntV(b));
        assert Holds(env, store2, s, l, b) && !store2[l].isConst;
        hide EvalBlock, SetCell;
        RoundsUpdate(host, fuel, loop, s, f, x, l, b, i + 1, n, base, env, store2);
      }
    }
  }

  // `for x in n { s = f(s, x) }` folds f over 0, 1, .. n - 1; so it does with the counter.
  lemma ForFolds(host: Host, fuel: nat, s: string, f: string, x: string, counter: Option<string>, used: string, n: int,
                 l: nat, a: int, env: Env, store: Store)
    requires s != x && counter != Some(s) && counter != Some(x) && (used == x || counter == Some(used))
    requires Holds(env, store, s, l, a) && !store[l].isConst
    ensures var r := EvalS(host, fuel, For(x, counter, Lit(n), [Update(s, f, used)]), env, store);
      match Fold(host, f, 0, n, a)
      case None => r.o == Failure
      case Some(b) => r.o == Normal(UnitV) && Holds(env, r.store, s, l, b)
  {
    var loop := For(x, counter, Lit(n), [Update(s, f, used)]);
    var base := |store|;
    var frame := LoopFrame(loop, base);
    FindOuter(env, frame, s);
    FindHere(env, frame, used);
    hide EvalFor, Find, Fold;
    RoundsUpdate(host, fuel, loop, s, f, used, l, a, 0, n, base, env + [frame], store + LoopCells(loop));
    assert EvalE(host, fuel, Lit(n), env, store) == Res(Normal(IntV(n)), store);
  }

  // ---- closures ----

  // `|y| f(x, y)`
  function Adder(f: string, x: string, y: string): Expr {
    Fn([y], [Return(Prim(f, [Var(x), Var(y)]))])
  }

  lemma AdderFree(f: string, x: string, y: string)
    requires x != y
    ensures FreeE(Adder(f, x, y)) == {x}
  {
    var args := [Var(x), Var(y)];
    assert args[1..] == [Var(y)] && [Var(y)][1..] == [] && FreeEs([]) == {};
    assert FreeEs([Var(y)]) == {y} && FreeEs(args) == {x, y};
    var body := [Return(Prim(f, args))];
    assert body[1..] == [] && FreeB([]) == {};
    assert FreeE(Prim(f, args)) == {x, y} && FreeS(body[0]) == {x, y};
    assert FreeB(body) == {x, y} + (FreeB([]) - {}) == {x, y};
    assert Elems([y]) == {y};
  }

  lemma Defined(host: Host, fuel: nat, x: string, e: Expr, isConst: bool, b: seq<Stmt>, w: Val, v: Val, env: Env, store: Store)
    requires env != [] && EvalE(host, fuel, e, env, store) == Res(Normal(v), store)
    ensures EvalSeq(host, fuel, [Let(x, e, isConst)] + b, w, env, store)
         == EvalSeq(host, fuel, b, UnitV, Bind(env, x, |store|), store + [Cell(isConst, v)])
  {
    hide EvalE, Bind;
    var all := [Let(x, e, isConst)] + b;
    assert all[0] == Let(x, e, isConst) && all[1..] == b;
  }

  lemma AdderMade(host: Host, fuel: nat, f: string, x: string, y: string, l: nat, env: Env, store: Store)
    requires x != y && Find(env, x) == Some(l)
    ensures EvalE(host, fuel, Adder(f, x, y), env, store)
         == Res(Normal(FnV([y], [Return(Prim(f, [Var(x), Var(y)]))], env)), store)
  {
    AdderFree(f, x, y);
    hide FreeE, Find;
  }

  // The body, with the argument in the cell `top`.
  lemma AdderBody(host: Host, fuel: nat, f: string, x: string, y: string, l: nat, a: int, top: nat, c: int, made: Env, store: Store)
    requires x != y && Holds(made, store, x, l, a) && top < |store| && store[top].v == IntV(c)
    ensures EvalBlock(host, fuel, [Return(Prim(f, [Var(x), Var(y)]))], made + [map[y := top]], store)
         == match host(f, [a, c]) case None => Res(Failure, store) case Some(r) => Res(Returned(IntV(r)), store)
  {
    var frame := map[y := top];
    var inner := made + [frame] + [map[]];
    FindOuter(made, frame, x);
    FindOuter(made + [frame], map[], x);
    FindHere(made, frame, y);
    FindOuter(made + [frame], map[], y);
    hide Find, EvalE;
    PrimRead(host, fuel, f, x, l, a, y, top, c, inner, store);
    OneStmt(host, fuel, Return(Prim(f, [Var(x), Var(y)])), UnitV, inner, store);
  }

  lemma OneParam(y: string, base: nat)
    ensures ParamFrame([y], base) == map[y := base]
  {
    assert [y][..0] == [] && ParamFrame([], base) == map[];
  }

  // A call of the closure: what `x` is in the environment of the closure, now.
  lemma AdderCalled(host: Host, fuel: nat, f: string, x: string, y: string, g: string, k: nat, l: nat, a: int, c: int,
                    env: Env, made: Env, store: Store)
    requires fuel > 0 && x != y && Find(env, g) == Some(k) && k < |store|
    requires store[k].v == FnV([y], [Return(Prim(f, [Var(x), Var(y)]))], made) && Holds(made, store, x, l, a)
    ensures EvalE(host, fuel, Call(Var(g), [Lit(c)]), env, store).o
         == match host(f, [a, c]) case None => Failure case Some(r) => Normal(IntV(r))
  {
    hide Find, EvalArgs, EvalBlock, ParamFrame;
    OneParam(y, |store|);
    AdderBody(host, fuel - 1, f, x, y, l, a, |store|, c, made, store + ArgCells([IntV(c)]));
    ArgRead(host, fuel, c, env, store);
    assert EvalE(host, fuel, Var(g), env, store) == Res(Normal(store[k].v), store);
  }

  lemma ArgRead(host: Host, fuel: nat, c: int, env: Env, store: Store)
    ensures EvalArgs(host, fuel, [Lit(c)], env, store) == ResL(Normal(UnitV), [IntV(c)], store)
  {
    assert [Lit(c)][1..] == [];
    assert EvalArgs(host, fuel, [], env, store) == ResL(Normal(UnitV), [], store);
  }

  // let x = a; let g = |y| f(x, y); x = b; g(c)
  function Shares(f: string, x: string, y: string, g: string, a: int, b: int, c: int): seq<Stmt> {
    [Let(x, Lit(a), false), Let(g, Adder(f, x, y), false), Assign(x, Lit(b)), ExprS(Call(Var(g), [Lit(c)]))]
  }

  // let x = a; let g = |y| f(x, y); let x = b; g(c)
  function Redefines(f: string, x: string, y: string, g: string, a: int, b: int, c: int): seq<Stmt> {
    [Let(x, Lit(a), false), Let(g, Adder(f, x, y), false), Let(x, Lit(b), false), ExprS(Call(Var(g), [Lit(c)]))]
  }

  // What the two programs have in common.
  lemma Made(host: Host, fuel: nat, f: string, x: string, y: string, g: string, a: int, rest: seq<Stmt>, env: Env, store: Store)
    requires x != y && x != g && env != []
    ensures var first := Bind(env, x, |store|);
      EvalSeq(host, fuel, [Let(x, Lit(a), false)] + ([Let(g, Adder(f, x, y), false)] + rest), UnitV, env, store)
      == EvalSeq(host, fuel, rest, UnitV, Bind(first, g, |store| + 1),
                 store + [Cell(false, IntV(a))] + [Cell(false, FnV([y], [Return(Prim(f, [Var(x), Var(y)]))], first))])
  {
    hide EvalSeq;
    var first := Bind(env, x, |store|);
    assert Find(first, x) == Some(|store|);
    AdderMade(host, fuel, f, x, y, |store|, first, store + [Cell(false, IntV(a))]);
    assert EvalE(host, fuel, Lit(a), env, store) == Res(Normal(IntV(a)), store);
    Defined(host, fuel, x, Lit(a), false, [Let(g, Adder(f, x, y), false)] + rest, UnitV, IntV(a), env, store);
    Defined(host, fuel, g, Adder(f, x, y), false, rest, UnitV,
            FnV([y], [Return(Prim(f, [Var(x), Var(y)]))], first), first, store + [Cell(false, IntV(a))]);
  }

  // A closure shares its variables: it sees what is assigned to them later.
  lemma ClosureShares(host: Host, fuel: nat, f: string, x: string, y: string, g: string, a: int, b: int, c: int, env: Env, store: Store)
    requires fuel > 0 && x != y && x != g && env != []
    ensures EvalSeq(host, fuel, Shares(f, x, y, g, a, b, c), UnitV, env, store).o
         == match host(f, [b, c]) case None => Failure case Some(r) => Normal(IntV(r))
  {
    var assign, call := Assign(x, Lit(b)), ExprS(Call(Var(g), [Lit(c)]));
    Made(host, fuel, f, x, y, g, a, [assign, call], env, store);
    assert Shares(f, x, y, g, a, b, c) == [Let(x, Lit(a), false)] + ([Let(g, Adder(f, x, y), false)] + [assign, call]);
    var first := Bind(env, x, |store|);
    var env2 := Bind(first, g, |store| + 1);
    var store2 := store + [Cell(false, IntV(a))] + [Cell(false, FnV([y], [Return(Prim(f, [Var(x), Var(y)]))], first))];
    var store3 := SetCell(store2, |store|, IntV(b));
    assert Find(env2, x) == Some(|store|) && Find(env2, g) == Some(|store| + 1) && Find(first, x) == Some(|store|);
    assert EvalS(host, fuel, assign, env2, store2) == Res(Normal(UnitV), store3);
    assert [assign, call][1..] == [call];
    AdderCalled(host, fuel, f, x, y, g, |store| + 1, |store|, b, c, env2, first, store3);
    OneStmt(host, fuel, call, UnitV, env2, store3);
  }

  // A new definition of the name is another variable: the closure keeps the one it was made with.
  lemma ClosureKeeps(host: Host, fuel: nat, f: string, x: string, y: string, g: string, a: int, b: int, c: int, env: Env, store: Store)
    requires fuel > 0 && x != y && x != g && env != []
    ensures EvalSeq(host, fuel, Redefines(f, x, y, g, a, b, c), UnitV, env, store).o
         == match host(f, [a, c]) case None => Failure case Some(r) => Normal(IntV(r))
  {
    var again, call := Let(x, Lit(b), false), ExprS(Call(Var(g), [Lit(c)]));
    Made(host, fuel, f, x, y, g, a, [again, call], env, store);
    assert Redefines(f, x, y, g, a, b, c) == [Let(x, Lit(a), false)] + ([Let(g, Adder(f, x, y), false)] + [again, call]);
    var first := Bind(env, x, |store|);
    var env2 := Bind(first, g, |store| + 1);
    var store2 := store + [Cell(false, IntV(a))] + [Cell(false, FnV([y], [Return(Prim(f, [Var(x), Var(y)]))], first))];
    var env3, store3 := Bind(env2, x, |store2|), store2 + [Cell(false, IntV(b))];
    assert EvalE(host, fuel, Lit(b), env2, store2) == Res(Normal(IntV(b)), store2);
    Defined(host, fuel, x, Lit(b), false, [call], UnitV, IntV(b), env2, store2);
    assert [again] + [call] == [again, call];
    assert Find(env3, g) == Some(|store| + 1) && Find(first, x) == Some(|store|);
    AdderCalled(host, fuel, f, x, y, g, |store| + 1, |store|, a, c, env3, first, store3);
    OneStmt(host, fuel, call, UnitV, env3, store3);
  }
}
