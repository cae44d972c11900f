// What the parser makes of a script with closures, and how that is evaluated: variables are found
// by their distance from the top of the scope, a function takes the variables it uses from outside
// as additional parameters, and a closure is such a function with these arguments already given
// (src/parser.rs: make_curry_from_externals; src/eval: search_scope_only, Stmt::Var, Stmt::Share).

module Lowered {
  import opened Options
  import Script

  // A variable with its distance from the top of the scope, if known when parsing.
  datatype VarRef = VarRef(name: string, index: Option<nat>)

  datatype Code =
    | Lit(n: int)
    | Var(v: VarRef)
    | Dot(e: Code, prop: string)
    | Prim(op: string, args: seq<Code>)
    | BlockE(b: seq<Step>)
    | FnPtr(params: seq<string>, body: seq<Step>)
    | Curry(f: Code, vars: seq<VarRef>)
    | Call(callee: Code, args: seq<Code>)

  datatype Step =
    | ExprS(e: Code)
    | Share(vars: seq<VarRef>)
    | Let(x: string, e: Code, isConst: bool, slot: Option<nat>)
    | Assign(v: VarRef, e: Code)
    | If(cond: Code, body: seq<Step>, branch: seq<Step>)
    | While(cond: Code, body: seq<Step>)
    | For(x: string, counter: Option<string>, count: Code, body: seq<Step>)
    | Try(body: seq<Step>, catchVar: Option<string>, branch: seq<Step>)
    | Block(b: seq<Step>)
    | Break
    | Continue
    | Return(e: Code)
    | Throw(e: Code)

  // ---- values and scopes ----

  // A variable holds a value of its own, or shares a cell of the heap.
  datatype Binding = Own(c: Cell) | Shared(l: nat)
  datatype Cell = Cell(isConst: bool, v: Val)
  datatype Val = UnitV | IntV(n: int) | FnV(params: seq<string>, body: seq<Step>, curry: seq<Binding>)
  datatype Entry = Entry(name: string, bind: Binding)
  datatype State = State(scope: seq<Entry>, heap: seq<Cell>)

  datatype Outcome = Normal(v: Val) | Broke | Continued | Returned(v: Val) | Threw(v: Val) | OutOfFuel
  datatype Res = Res(o: Outcome, st: State)
  datatype ResL = ResL(o: Outcome, vs: seq<Val>, st: State)

  const Failure := Threw(IntV(-1))

  // Scope::search
  function Search(scope: seq<Entry>, x: string): (k: int)
    ensures -1 <= k < |scope|
    ensures k >= 0 ==> scope[k].name == x
  {
    if scope == [] then -1
    else if scope[|scope| - 1].name == x then |scope| - 1
    else Search(scope[..|scope| - 1], x)
  }

  // Where a variable is: at its index if it has one, else by name; -1 if nowhere.
  function Locate(scope: seq<Entry>, v: VarRef): (k: int)
    ensures -1 <= k < |scope|
  {
    match v.index
    case Some(n) => if 1 <= n <= |scope| then |scope| - n else -1
    case None => Search(scope, v.name)
  }

  function CellAt(st: State, b: Binding): Cell {
    match b
    case Own(c) => c
    case Shared(l) => if l < |st.heap| then st.heap[l] else Cell(false, UnitV)
  }

  // Writes the value of entry `k`, through its shared cell if it has one.
  function Write(st: State, k: nat, v: Val): State
    requires k < |st.scope|
  {
    var e := st.scope[k];
    match e.bind
    case Own(c) => st.(scope := st.scope[k := Entry(e.name, Own(Cell(c.isConst, v)))])
    case Shared(l) => if l < |st.heap| then st.(heap := st.heap[l := Cell(st.heap[l].isConst, v)]) else st
  }

  function Push(st: State, x: string, b: Binding): State {
    st.(scope := st.scope + [Entry(x, b)])
  }

  function Rewind(r: Res, n: nat): Res {
    if n <= |r.st.scope| then Res(r.o, r.st.(scope := r.st.scope[..n])) else r
  }

  // Turns entry `k` into a shared one.
  function ShareAt(st: State, k: nat): State
    requires k < |st.scope|
  {
    var e := st.scope[k];
    match e.bind
    case Own(c) => State(st.scope[k := Entry(e.name, Shared(|st.heap|))], st.heap + [c])
    case Shared(_) => st
  }

  function ShareAll(vars: seq<VarRef>, st: State): Res {
    if vars == [] then Res(Normal(UnitV), st)
    else
      var k := Locate(st.scope, vars[0]);
      if k < 0 then Res(Failure, st) else ShareAll(vars[1..], ShareAt(st, k))
  }

  // The arguments of a curry: bindings, not values.
  function Bindings(vars: seq<VarRef>, scope: seq<Entry>): Option<seq<Binding>> {
    if vars == [] then Some([])
    else
      var k := Locate(scope, vars[0]);
      var rest := Bindings(vars[1..], scope);
      if k < 0 || rest.None? then None else Some([scope[k].bind] + rest.value)
  }

  function Ints(vs: seq<Val>): Option<seq<int>> {
    if vs == [] then Some([])
    else
      match (vs[0], Ints(vs[1..]))
      case (IntV(n), Some(ns)) => Some([n] + ns)
      case _ => None
  }

  function Apply(host: Script.Host, f: string, vs: seq<Val>): Outcome {
    match Ints(vs)
    case None => Failure
    case Some(ns) => match host(f, ns) case None => Failure case Some(n) => Normal(IntV(n))
  }

  // The scope a function starts with: the curried arguments come first.
  function CallScope(g: Val, vs: seq<Val>): seq<Entry>
    requires g.FnV? && |g.params| == |g.curry| + |vs|
  {
    seq(|g.params|, i requires 0 <= i < |g.params| =>
      Entry(g.params[i], if i < |g.curry| then g.curry[i] else Own(Cell(false, vs[i - |g.curry|]))))
  }

  // ---- evaluation ----

  function EvalE(host: Script.Host, fuel: nat, e: Code, st: State): Res
    decreases fuel, e
  {
    match e
    case Lit(n) => Res(Normal(IntV(n)), st)
    case Var(v) =>
      var k := Locate(st.scope, v);
      if k >= 0 then Res(Normal(CellAt(st, st.scope[k].bind).v), st) else Res(Failure, st)
    case Dot(e1, prop) =>
      var r := EvalE(host, fuel, e1, st);
      if r.o.Normal? then Res(Apply(host, "get$" + prop, [r.o.v]), r.st) else r
    case Prim(f, args) =>
      var r := EvalArgs(host, fuel, args, st);
      if r.o.Normal? then Res(Apply(host, f, r.vs), r.st) else Res(r.o, r.st)
    case BlockE(b) => EvalBlock(host, fuel, b, st)
    case FnPtr(params, body) => Res(Normal(FnV(params, body, [])), st)
    case Curry(f, vars) =>
      var r := EvalE(host, fuel, f, st);
      if !r.o.Normal? then r
      else if !r.o.v.FnV? then Res(Failure, r.st)
      else
        var bs := Bindings(vars, r.st.scope);
        if bs.None? then Res(Failure, r.st)
        else Res(Normal(FnV(r.o.v.params, r.o.v.body, r.o.v.curry + bs.value)), r.st)
    case Call(f, args) =>
      var r := EvalE(host, fuel, f, st);
      if !r.o.Normal? then r
      else
        var rs := EvalArgs(host, fuel, args, r.st);
        if !rs.o.Normal? then Res(rs.o, rs.st)
        else if !r.o.v.FnV? || |r.o.v.params| != |r.o.v.curry| + |rs.vs| then Res(Failure, rs.st)
        else if fuel == 0 then Res(OutOfFuel, rs.st)
        else
          var body := EvalBlock(host, fuel - 1, r.o.v.body, State(CallScope(r.o.v, rs.vs), rs.st.heap));
          Res(CallOutcome(body.o), State(rs.st.scope, body.st.heap))
  }

  function CallOutcome(o: Outcome): Outcome {
    match o
    case Returned(v) => Normal(v)
    case Broke => Failure
    case Continued => Failure
    case _ => o
  }

  function CatchOutcome(caught: Outcome, o: Outcome): Outcome {
    match o
    case Normal(_) => Normal(UnitV)
    case Threw(UnitV) => caught
    case _ => o
  }

  function EvalArgs(host: Script.Host, fuel: nat, es: seq<Code>, st: State): ResL
    decreases fuel, es, 0
  {
    if es == [] then ResL(Normal(UnitV), [], st)
    else
      var r := EvalE(host, fuel, es[0], st);
      if !r.o.Normal? then ResL(r.o, [], r.st)
      else
        var rs := EvalArgs(host, fuel, es[1..], r.st);
        ResL(rs.o, [r.o.v] + rs.vs, rs.st)
  }

  function EvalSeq(host: Script.Host, fuel: nat, b: seq<Step>, v: Val, st: State): Res
    decreases fuel, b, 0
  {
    if b == [] then Res(Normal(v), st)
    else
      var r := EvalS(host, fuel, b[0], st);
      if r.o.Normal? then EvalSeq(host, fuel, b[1..], r.o.v, r.st) else r
  }

  function EvalBlock(host: Script.Host, fuel: nat, b: seq<Step>, st: State): Res
    decreases fuel, b, 1
  {
    Rewind(EvalSeq(host, fuel, b, UnitV, st), |st.scope|)
  }

  // Rounds i, i + 1, .. of a loop whose counter and variable are the entries `base` on.
  function EvalFor(host: Script.Host, fuel: nat, s: Step, i: nat, n: int, base: nat, st: State): Res
    requires s.For?
    decreases fuel, s, n - i
  {
    if i >= n then Res(Normal(UnitV), st)
    else
      var r := EvalBlock(host, fuel, s.body, SetLoopVars(s, i, base, st));
      match r.o
      case Normal(_) => EvalFor(host, fuel, s, i + 1, n, base, r.st)
      case Continued => EvalFor(host, fuel, s, i + 1, n, base, r.st)
      case Broke => Res(Normal(UnitV), r.st)
      case _ => r
  }

  function SetLoopVars(s: Step, i: nat, base: nat, st: State): State
    requires s.For?
  {
    if s.counter.Some? then
      if base + 1 < |st.scope| then Write(Write(st, base, IntV(i)), base + 1, IntV(i)) else st
    else if base < |st.scope| then Write(st, base, IntV(i)) else st
  }

  function PushLoopVars(s: Step, st: State): State
    requires s.For?
  {
    if s.counter.Some? then
      Push(Push(st, s.counter.value, Own(Cell(false, IntV(0)))), s.x, Own(Cell(false, UnitV)))
    else Push(st, s.x, Own(Cell(false, UnitV)))
  }

  // A definition takes the slot that the parser chose, or a new one.
  function Define(st: State, x: string, slot: Option<nat>, c: Cell): Res {
    match slot
    case Some(n) =>
      if 1 <= n <= |st.scope| then
        var k := |st.scope| - n;
        Res(Normal(UnitV), st.(scope := st.scope[k := Entry(st.scope[k].name, Own(c))]))
      else Res(Failure, st)
    case None => Res(Normal(UnitV), Push(st, x, Own(c)))
  }

  function EvalS(host: Script.Host, fuel: nat, s: Step, st: State): Res
    decreases fuel, s
  {
    match s
    case ExprS(e) => EvalE(host, fuel, e, st)
    case Share(vars) => ShareAll(vars, st)
    case Let(x, e, isConst, slot) =>
      var r := EvalE(host, fuel, e, st);
      if r.o.Normal? then Define(r.st, x, slot, Cell(isConst, r.o.v)) else r
    case Assign(v, e) =>
      var r := EvalE(host, fuel, e, st);
      if !r.o.Normal? then r
      else
        var k := Locate(r.st.scope, v);
        if k < 0 || CellAt(r.st, r.st.scope[k].bind).isConst then Res(Failure, r.st)
        else Res(Normal(UnitV), Write(r.st, k, r.o.v))
    case If(c, body, branch) =>
      var r := EvalE(host, fuel, c, st);
      if !r.o.Normal? then r
      else if !r.o.v.IntV? then Res(Failure, r.st)
      else EvalBlock(host, fuel, if r.o.v.n != 0 then body else branch, r.st)
    case While(c, body) =>
      if fuel == 0 then Res(OutOfFuel, st)
      else
        var r := EvalE(host, fuel, c, st);
        if !r.o.Normal? then r
        else if !r.o.v.IntV? then Res(Failure, r.st)
        else if r.o.v.n == 0 then Res(Normal(UnitV), r.st)
        else
          var r2 := EvalBlock(host, fuel, body, r.st);
          (match r2.o
           case Normal(_) => EvalS(host, fuel - 1, s, r2.st)
           case Continued => EvalS(host, fuel - 1, s, r2.st)
           case Broke => Res(Normal(UnitV), r2.st)
           case _ => r2)
    case For(x, counter, n, body) =>
      var r := EvalE(host, fuel, n, st);
      if !r.o.Normal? then r
      else if !r.o.v.IntV? then Res(Failure, r.st)
      else
        var base := |r.st.scope|;
        Rewind(EvalFor(host, fuel, s, 0, r.o.v.n, base, PushLoopVars(s, r.st)), base)
    case Try(body, cv, branch) =>
      var r := EvalBlock(host, fuel, body, st);
      if !r.o.Threw? then r
      else
        var st1 := if cv.Some? then Push(r.st, cv.value, Own(Cell(false, r.o.v))) else r.st;
        var r2 := Rewind(EvalBlock(host, fuel, branch, st1), |r.st.scope|);
        Res(CatchOutcome(r.o, r2.o), r2.st)
    case Block(b) => EvalBlock(host, fuel, b, st)
    case Break => Res(Broke, st)
    case Continue => Res(Continued, st)
    case Return(e) =>
      var r := EvalE(host, fuel, e, st);
      if r.o.Normal? then Res(Returned(r.o.v), r.st) else r
    case Throw(e) =>
      var r := EvalE(host, fuel, e, st);
      if r.o.Normal? then Res(Threw(r.o.v), r.st) else r
  }
}
