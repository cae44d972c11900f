// Scripts with closures as they are written, with names, and what they mean: every variable is a
// cell, an environment maps names to cells, and a closure keeps the environment it was made in.
//
// Data other than functions is integers; `host` stands for all operators and native functions.

module Script {
  import opened Options

  datatype Expr =
    | Lit(n: int)
    | Var(x: string)
    | Dot(e: Expr, prop: string)
    | Prim(op: string, args: seq<Expr>)
    | BlockE(b: seq<Stmt>)
    | Fn(params: seq<string>, body: seq<Stmt>)
    | Call(callee: Expr, args: seq<Expr>)

  datatype Stmt =
    | ExprS(e: Expr)
    | Let(x: string, e: Expr, isConst: bool)
    | Assign(x: string, e: Expr)
    | If(cond: Expr, body: seq<Stmt>, branch: seq<Stmt>)
    | While(cond: Expr, body: seq<Stmt>)
    | For(x: string, counter: Option<string>, count: Expr, body: seq<Stmt>)
    | Try(body: seq<Stmt>, catchVar: Option<string>, branch: seq<Stmt>)
    | Block(b: seq<Stmt>)
    | Break
    | Continue
    | Return(e: Expr)
    | Throw(e: Expr)

  // ---- free variables ----

  function Elems(xs: seq<string>): set<string> {
    set x | x in xs
  }

  function Named(x: Option<string>): set<string> {
    if x.Some? then {x.value} else {}
  }

  function FreeE(e: Expr): set<string> {
    match e
    case Lit(_) => {}
    case Var(x) => {x}
    case Dot(e, _) => FreeE(e)
    case Prim(_, args) => FreeEs(args)
    case BlockE(b) => FreeB(b)
    case Fn(params, body) => FreeB(body) - Elems(params)
    case Call(f, args) => FreeE(f) + FreeEs(args)
  }

  function FreeEs(es: seq<Expr>): set<string> {
    if es == [] then {} else FreeE(es[0]) + FreeEs(es[1..])
  }

  function FreeS(s: Stmt): set<string> {
    match s
    case ExprS(e) => FreeE(e)
    case Let(_, e, _) => FreeE(e)
    case Assign(x, e) => {x} + FreeE(e)
    case If(c, body, branch) => FreeE(c) + FreeB(body) + FreeB(branch)
    case While(c, body) => FreeE(c) + FreeB(body)
    case For(x, counter, n, body) => FreeE(n) + (FreeB(body) - {x} - Named(counter))
    case Try(body, cv, branch) => FreeB(body) + (FreeB(branch) - Named(cv))
    case Block(b) => FreeB(b)
    case Break => {}
    case Continue => {}
    case Return(e) => FreeE(e)
    case Throw(e) => FreeE(e)
  }

  // A definition binds in the statements after it.
  function FreeB(b: seq<Stmt>): set<string> {
    if b == [] then {}
    else FreeS(b[0]) + (FreeB(b[1..]) - (if b[0].Let? then {b[0].x} else {}))
  }

  // What the parser rejects: a parameter twice, or a loop variable and a counter of the same name.
  predicate WellFormedE(e: Expr) {
    match e
    case Lit(_) => true
    case Var(_) => true
    case Dot(e, _) => WellFormedE(e)
    case Prim(_, args) => forall a | a in args :: WellFormedE(a)
    case BlockE(b) => WellFormedB(b)
    case Fn(params, body) =>
      (forall i, j | 0 <= i < j < |params| :: params[i] != params[j]) && WellFormedB(body)
    case Call(f, args) => WellFormedE(f) && forall a | a in args :: WellFormedE(a)
  }

  predicate WellFormedS(s: Stmt) {
    match s
    case ExprS(e) => WellFormedE(e)
    case Let(_, e, _) => WellFormedE(e)
    case Assign(_, e) => WellFormedE(e)
    case If(c, body, branch) => WellFormedE(c) && WellFormedB(body) && WellFormedB(branch)
    case While(c, body) => WellFormedE(c) && WellFormedB(body)
    case For(x, counter, n, body) => counter != Some(x) && WellFormedE(n) && WellFormedB(body)
    case Try(body, _, branch) => WellFormedB(body) && WellFormedB(branch)
    case Block(b) => WellFormedB(b)
    case Break => true
    case Continue => true
    case Return(e) => WellFormedE(e)
    case Throw(e) => WellFormedE(e)
  }

  predicate WellFormedB(b: seq<Stmt>) {
    forall s | s in b :: WellFormedS(s)
  }

  // ---- meaning ----

  // Frames, innermost last, from names to cells.
  type Env = seq<map<string, nat>>

  datatype Val = UnitV | IntV(n: int) | FnV(params: seq<string>, body: seq<Stmt>, env: Env)
  datatype Cell = Cell(isConst: bool, v: Val)
  type Store = seq<Cell>

  datatype Outcome = Normal(v: Val) | Broke | Continued | Returned(v: Val) | Threw(v: Val) | OutOfFuel
  datatype Res = Res(o: Outcome, store: Store)
  datatype ResL = ResL(o: Outcome, vs: seq<Val>, store: Store)

  type Host = (string, seq<int>) -> Option<int>

  const Failure := Threw(IntV(-1))

  function Find(env: Env, x: string): Option<nat> {
    if env == [] then None
    else if x in env[|env| - 1] then Some(env[|env| - 1][x])
    else Find(env[..|env| - 1], x)
  }

  // Binds `x` to cell `l` in the innermost frame.
  function Bind(env: Env, x: string, l: nat): Env
    requires env != []
  {
    var frame: map<string, nat> := env[|env| - 1][x := l];
    env[|env| - 1 := frame]
  }

  function SetCell(store: Store, l: nat, v: Val): Store {
    if l < |store| then store[l := Cell(store[l].isConst, v)] else store
  }

  function Ints(vs: seq<Val>): Option<seq<int>> {
    if vs == [] then Some([])
    else
      match (vs[0], Ints(vs[1..]))
      case (IntV(n), Some(ns)) => Some([n] + ns)
      case _ => None
  }

  function Apply(host: Host, f: string, vs: seq<Val>): Outcome {
    match Ints(vs)
    case None => Failure
    case Some(ns) => match host(f, ns) case None => Failure case Some(n) => Normal(IntV(n))
  }

  // The frame of a call: parameter i in cell `base + i`.
  function ParamFrame(params: seq<string>, base: nat): map<string, nat> {
    if params == [] then map[]
    else ParamFrame(params[..|params| - 1], base)[params[|params| - 1] := base + |params| - 1]
  }

  function ArgCells(vs: seq<Val>): seq<Cell> {
    seq(|vs|, i requires 0 <= i < |vs| => Cell(false, vs[i]))
  }

  function EvalE(host: Host, fuel: nat, e: Expr, env: Env, store: Store): Res
    decreases fuel, e
  {
    match e
    case Lit(n) => Res(Normal(IntV(n)), store)
    case Var(x) =>
      var l := Find(env, x);
      if l.Some? && l.value < |store| then Res(Normal(store[l.value].v), store) else Res(Failure, store)
    case Dot(e1, prop) =>
      var r := EvalE(host, fuel, e1, env, store);
      if r.o.Normal? then Res(Apply(host, "get$" + prop, [r.o.v]), r.store) else r
    case Prim(f, args) =>
      var r := EvalArgs(host, fuel, args, env, store);
      if r.o.Normal? then Res(Apply(host, f, r.vs), r.store) else Res(r.o, r.store)
    case BlockE(b) => EvalBlock(host, fuel, b, env, store)
    case Fn(params, body) =>
      // every variable the function uses must exist
      if forall x | x in FreeE(e) :: Find(env, x).Some? then Res(Normal(FnV(params, body, env)), store)
      else Res(Failure, store)
    case Call(f, args) =>
      var r := EvalE(host, fuel, f, env, store);
      if !r.o.Normal? then r
      else
        var rs := EvalArgs(host, fuel, args, env, r.store);
        if !rs.o.Normal? then Res(rs.o, rs.store)
        else if !r.o.v.FnV? || |r.o.v.params| != |rs.vs| then Res(Failure, rs.store)
        else if fuel == 0 then Res(OutOfFuel, rs.store)
        else
          var g := r.o.v;
          CallResult(EvalBlock(host, fuel - 1, g.body, g.env + [ParamFrame(g.params, |rs.store|)],
                               rs.store + ArgCells(rs.vs)))
  }

  // The end of a function body.
  function CallResult(r: Res): Res {
    match r.o
    case Returned(v) => Res(Normal(v), r.store)
    case Broke => Res(Failure, r.store)
    case Continued => Res(Failure, r.store)
    case _ => r
  }

  // The end of a `catch` block: it has no value, and an empty throw throws again.
  function CatchResult(caught: Outcome, r: Res): Res {
    match r.o
    case Normal(_) => Res(Normal(UnitV), r.store)
    case Threw(UnitV) => Res(caught, r.store)
    case _ => r
  }

  function EvalArgs(host: Host, fuel: nat, es: seq<Expr>, env: Env, store: Store): ResL
    decreases fuel, es, 0
  {
    if es == [] then ResL(Normal(UnitV), [], store)
    else
      var r := EvalE(host, fuel, es[0], env, store);
      if !r.o.Normal? then ResL(r.o, [], r.store)
      else
        var rs := EvalArgs(host, fuel, es[1..], env, r.store);
        ResL(rs.o, [r.o.v] + rs.vs, rs.store)
  }

  // Statements in the innermost frame of `env`; `v` is the value so far.
  function EvalSeq(host: Host, fuel: nat, b: seq<Stmt>, v: Val, env: Env, store: Store): Res
    requires env != []
    decreases fuel, b, 0
  {
    if b == [] then Res(Normal(v), store)
    else if b[0].Let? then
      var r := EvalE(host, fuel, b[0].e, env, store);
      if !r.o.Normal? then r
      else
        EvalSeq(host, fuel, b[1..], UnitV, Bind(env, b[0].x, |r.store|), r.store + [Cell(b[0].isConst, r.o.v)])
    else
      var r := EvalS(host, fuel, b[0], env, store);
      if r.o.Normal? then EvalSeq(host, fuel, b[1..], r.o.v, env, r.store) else r
  }

  function EvalBlock(host: Host, fuel: nat, b: seq<Stmt>, env: Env, store: Store): Res
    decreases fuel, b, 1
  {
    EvalSeq(host, fuel, b, UnitV, env + [map[]], store)
  }

  // Rounds i, i + 1, .. of a loop whose counter and variable are in the cells `base` on.
  function EvalFor(host: Host, fuel: nat, s: Stmt, i: nat, n: int, base: nat, env: Env, store: Store): Res
    requires s.For?
    decreases fuel, s, n - i
  {
    if i >= n then Res(Normal(UnitV), store)
    else
      var store1 := if s.counter.Some? then SetCell(SetCell(store, base, IntV(i)), base + 1, IntV(i))
                    else SetCell(store, base, IntV(i));
      var r := EvalBlock(host, fuel, s.body, env, store1);
      match r.o
      case Normal(_) => EvalFor(host, fuel, s, i + 1, n, base, env, r.store)
      case Continued => EvalFor(host, fuel, s, i + 1, n, base, env, r.store)
      case Broke => Res(Normal(UnitV), r.store)
      case _ => r
  }

  function LoopFrame(s: Stmt, base: nat): map<string, nat>
    requires s.For?
  {
    if s.counter.Some? then map[s.counter.value := base][s.x := base + 1] else map[s.x := base]
  }

  function LoopCells(s: Stmt): seq<Cell>
    requires s.For?
  {
    if s.counter.Some? then [Cell(false, IntV(0)), Cell(false, UnitV)] else [Cell(false, UnitV)]
  }

  function EvalS(host: Host, fuel: nat, s: Stmt, env: Env, store: Store): Res
    decreases fuel, s
  {
    match s
    case ExprS(e) => EvalE(host, fuel, e, env, store)
    case Let(_, _, _) => Res(Failure, store)      // a definition is handled by the statements around it
    case Assign(x, e) =>
      var r := EvalE(host, fuel, e, env, store);
      if !r.o.Normal? then r
      else
        var l := Find(env, x);
        if l.None? || l.value >= |r.store| || r.store[l.value].isConst then Res(Failure, r.store)
        else Res(Normal(UnitV), SetCell(r.store, l.value, r.o.v))
    case If(c, body, branch) =>
      var r := EvalE(host, fuel, c, env, store);
      if !r.o.Normal? then r
      else if !r.o.v.IntV? then Res(Failure, r.store)
      else EvalBlock(host, fuel, if r.o.v.n != 0 then body else branch, env, r.store)
    case While(c, body) =>
      if fuel == 0 then Res(OutOfFuel, store)
      else
        var r := EvalE(host, fuel, c, env, store);
        if !r.o.Normal? then r
        else if !r.o.v.IntV? then Res(Failure, r.store)
        else if r.o.v.n == 0 then Res(Normal(UnitV), r.store)
        else
          var r2 := EvalBlock(host, fuel, body, env, r.store);
          (match r2.o
           case Normal(_) => EvalS(host, fuel - 1, s, env, r2.store)
           case Continued => EvalS(host, fuel - 1, s, env, r2.store)
           case Broke => Res(Normal(UnitV), r2.store)
           case _ => r2)
    case For(x, counter, n, body) =>
      var r := EvalE(host, fuel, n, env, store);
      if !r.o.Normal? then r
      else if !r.o.v.IntV? then Res(Failure, r.store)
      else
        var base := |r.store|;
        EvalFor(host, fuel, s, 0, r.o.v.n, base, env + [LoopFrame(s, base)], r.store + LoopCells(s))
    case Try(body, cv, branch) =>
      var r := EvalBlock(host, fuel, body, env, store);
      if !r.o.Threw? then r
      else if cv.Some? then
        CatchResult(r.o, EvalBlock(host, fuel, branch, env + [map[cv.value := |r.store|]],
                                   r.store + [Cell(false, r.o.v)]))
      else CatchResult(r.o, EvalBlock(host, fuel, branch, env, r.store))
    case Block(b) => EvalBlock(host, fuel, b, env, store)
    case Break => Res(Broke, store)
    case Continue => Res(Continued, store)
    case Return(e) =>
      var r := EvalE(host, fuel, e, env, store);
      if r.o.Normal? then Res(Returned(r.o.v), r.store) else r
    case Throw(e) =>
      var r := EvalE(host, fuel, e, env, store);
      if r.o.Normal? then Res(Threw(r.o.v), r.store) else r
  }
}
