// A big-step evaluator for the modelled part of the language (src/eval/stmt.rs, src/eval/expr.rs).
//
// Variables are found by name, from the top of the scope.  `while` and `do` consume fuel, one unit
// a round, so that the evaluator is total; every other construct is structural.

module Eval {
  import opened Options
  import opened Ast
  import opened Operators

  datatype Entry = Entry(name: string, isConst: bool, val: Val)
  datatype Event = Event(f: string, args: seq<Val>)
  datatype State = State(scope: seq<Entry>, trace: seq<Event>)

  datatype Outcome =
    | Normal(v: Val)
    | Broke(v: Val)
    | Continued
    | Returned(v: Val)
    | Threw(v: Val)
    | Stuck
    | OutOfFuel

  datatype Res = Res(o: Outcome, st: State)
  datatype ResL = ResL(o: Outcome, vs: seq<Val>, st: State)

  datatype NativeResult = Gave(v: Val) | Failed(v: Val)

  // What the host provides: the result of every registered function may depend on everything that
  // was called before.  `catchSoft` says whether a failing variable read, type check or assignment
  // to a constant is an exception that `try` can catch (the interpreter: yes), or ends the run as
  // `Stuck` (the checked runs of the optimizer's guarantee).
  datatype Env = Env(native: (string, seq<Val>, seq<Event>) -> NativeResult, catchSoft: bool)

  predicate Done(o: Outcome) {
    o != Stuck && o != OutOfFuel
  }

  // ---- scope ----

  // Index of the innermost entry called `x`, or -1 (Scope::search).
  function Lookup(scope: seq<Entry>, x: string): (k: int)
    ensures -1 <= k < |scope|
    ensures k >= 0 ==> scope[k].name == x
  {
    if scope == [] then -1
    else if scope[|scope| - 1].name == x then |scope| - 1
    else Lookup(scope[..|scope| - 1], x)
  }

  predicate VisibleConst(scope: seq<Entry>, x: string) {
    var k := Lookup(scope, x);
    k >= 0 && scope[k].isConst
  }

  function Push(st: State, x: string, isConst: bool, v: Val): State {
    st.(scope := st.scope + [Entry(x, isConst, v)])
  }

  function SetAt(st: State, k: int, v: Val): State {
    if 0 <= k < |st.scope| then st.(scope := st.scope[k := st.scope[k].(val := v)]) else st
  }

  function Rewind(st: State, n: nat): State {
    if n <= |st.scope| then st.(scope := st.scope[..n]) else st
  }

  function RewindRes(r: Res, n: nat): Res {
    Res(r.o, Rewind(r.st, n))
  }

  // ---- operators ----

  function CallNative(env: Env, f: string, vs: seq<Val>, st: State): Res {
    var st' := st.(trace := st.trace + [Event(f, vs)]);
    match env.native(f, vs, st.trace)
    case Gave(v) => Res(Normal(v), st')
    case Failed(v) => Res(Threw(v), st')
  }

  function Apply(env: Env, f: string, vs: seq<Val>, st: State): Res {
    if |vs| == 2 then
      match BuiltinBinary(f, vs[0], vs[1])
      case OpValue(v) => Res(Normal(v), st)
      case OpError => Res(Threw(StrV(f)), st)
      case NoBuiltin => CallNative(env, f, vs, st)
    else if f == "!" && |vs| == 1 && vs[0].BoolV? then
      Res(Normal(BoolV(!vs[0].b)), st)
    else
      CallNative(env, f, vs, st)
  }

  function SoftFail(env: Env, st: State): Res {
    if env.catchSoft then Res(Threw(StrV("error")), st) else Res(Stuck, st)
  }

  // ---- expressions ----

  function EvalE(env: Env, fuel: nat, e: Expr, st: State): Res
    decreases fuel, e
  {
    match e
    case Const(v) => Res(Normal(v), st)
    case Var(x) =>
      var k := Lookup(st.scope, x);
      if k < 0 then SoftFail(env, st) else Res(Normal(st.scope[k].val), st)
    case StmtE(b) => EvalBlock(env, fuel, b, st)
    case Call(f, args) =>
      var r := EvalArgs(env, fuel, args, st);
      if r.o.Normal? then Apply(env, f, r.vs, r.st) else Res(r.o, r.st)
    case And(es) => EvalAll(env, fuel, es, true, st)
    case Or(es) => EvalAll(env, fuel, es, false, st)
    case Coalesce(es) => EvalFirst(env, fuel, es, st)
    case Arr(es) =>
      var r := EvalArgs(env, fuel, es, st);
      if r.o.Normal? then Res(Normal(ArrV(r.vs)), r.st) else Res(r.o, r.st)
  }

  function EvalArgs(env: Env, fuel: nat, es: seq<Expr>, st: State): ResL
    decreases fuel, es, 0
  {
    if es == [] then ResL(Normal(UnitV), [], st)
    else
      var r := EvalE(env, fuel, es[0], st);
      if !r.o.Normal? then ResL(r.o, [], r.st)
      else
        var rs := EvalArgs(env, fuel, es[1..], r.st);
        ResL(rs.o, [r.o.v] + rs.vs, rs.st)
  }

  // `&&` (unit: true) and `||` (unit: false): stop at the first operand that is not `unit`.
  function EvalAll(env: Env, fuel: nat, es: seq<Expr>, unit: bool, st: State): Res
    decreases fuel, es, 0
  {
    if es == [] then Res(Normal(BoolV(unit)), st)
    else
      var r := EvalE(env, fuel, es[0], st);
      if !r.o.Normal? then r
      else if !r.o.v.BoolV? then SoftFail(env, r.st)
      else if r.o.v.b != unit then r
      else EvalAll(env, fuel, es[1..], unit, r.st)
  }

  // `??`: the first operand that is not ().
  function EvalFirst(env: Env, fuel: nat, es: seq<Expr>, st: State): Res
    decreases fuel, es, 0
  {
    if es == [] then Res(Normal(UnitV), st)
    else
      var r := EvalE(env, fuel, es[0], st);
      if !r.o.Normal? || r.o.v != UnitV then r
      else EvalFirst(env, fuel, es[1..], r.st)
  }

  // ---- statements ----

  // Statements run one after the other in the current scope; `v` is the value so far.
  function EvalSeq(env: Env, fuel: nat, b: seq<Stmt>, v: Val, st: State): Res
    decreases fuel, b, 0
  {
    if b == [] then Res(Normal(v), st)
    else
      var r := EvalS(env, fuel, b[0], st);
      if r.o.Normal? then EvalSeq(env, fuel, b[1..], r.o.v, r.st) else r
  }

  // A scoped block.
  function EvalBlock(env: Env, fuel: nat, b: seq<Stmt>, st: State): Res
    decreases fuel, b, 1
  {
    RewindRes(EvalSeq(env, fuel, b, UnitV, st), |st.scope|)
  }

  // The rounds of a `for` loop over the values `vs`; the loop variables sit at index `n` on.
  function EvalFor(env: Env, fuel: nat, s: Stmt, n: nat, vs: seq<Val>, round: nat, st: State): Res
    requires s.For?
    decreases fuel, s, |vs|
  {
    if vs == [] then Res(Normal(UnitV), st)
    else
      var st1 := if s.counter.Some? then SetAt(SetAt(st, n, IntV(round)), n + 1, vs[0])
                 else SetAt(st, n, vs[0]);
      var r := EvalBlock(env, fuel, s.body, st1);
      match r.o
      case Normal(_) => EvalFor(env, fuel, s, n, vs[1..], round + 1, r.st)
      case Continued => EvalFor(env, fuel, s, n, vs[1..], round + 1, r.st)
      case Broke(v) => Res(Normal(v), r.st)
      case _ => r
  }

  function PushLoopVars(s: Stmt, st: State): State
    requires s.For?
  {
    if s.counter.Some? then Push(Push(st, s.counter.value, false, IntV(0)), s.x, false, UnitV)
    else Push(st, s.x, false, UnitV)
  }

  function PushCatchVar(cv: Option<string>, v: Val, st: State): State {
    if cv.Some? then Push(st, cv.value, false, v) else st
  }

  function EvalAssign(env: Env, x: string, op: Option<string>, v: Val, st: State): Res {
    var k := Lookup(st.scope, x);
    if k < 0 || st.scope[k].isConst then SoftFail(env, st)
    else
      match op
      case None => Res(Normal(UnitV), SetAt(st, k, v))
      case Some(f) =>
        var r := Apply(env, f, [st.scope[k].val, v], st);
        if r.o.Normal? then Res(Normal(UnitV), SetAt(r.st, k, r.o.v)) else r
  }

  function EvalS(env: Env, fuel: nat, s: Stmt, st: State): Res
    decreases fuel, s
  {
    match s
    case Noop => Res(Normal(UnitV), st)
    case ExprS(e) => EvalE(env, fuel, e, st)
    case CallS(f, args) =>
      var r := EvalArgs(env, fuel, args, st);
      if r.o.Normal? then Apply(env, f, r.vs, r.st) else Res(r.o, r.st)
    case Block(b) => EvalBlock(env, fuel, b, st)
    case Let(x, e, isConst) =>
      var r := EvalE(env, fuel, e, st);
      if r.o.Normal? then Res(Normal(UnitV), Push(r.st, x, isConst, r.o.v)) else r
    case Assign(x, op, e) =>
      var r := EvalE(env, fuel, e, st);
      if r.o.Normal? then EvalAssign(env, x, op, r.o.v, r.st)
      else if !env.catchSoft && r.o.Threw? && VisibleConst(r.st.scope, x) then Res(Stuck, r.st)
      else r
    case If(c, body, branch) =>
      var r := EvalE(env, fuel, c, st);
      if !r.o.Normal? then r
      else if !r.o.v.BoolV? then SoftFail(env, r.st)
      else EvalBlock(env, fuel, if r.o.v.b then body else branch, r.st)
    case While(c, body) =>
      if fuel == 0 then Res(OutOfFuel, st)
      else
        var r := if c == Const(UnitV) then Res(Normal(BoolV(true)), st) else EvalE(env, fuel, c, st);
        if !r.o.Normal? then r
        else if !r.o.v.BoolV? then SoftFail(env, r.st)
        else if !r.o.v.b then Res(Normal(UnitV), r.st)
        else
          var r2 := EvalBlock(env, fuel, body, r.st);
          (match r2.o
           case Normal(_) => EvalS(env, fuel - 1, s, r2.st)
           case Continued => EvalS(env, fuel - 1, s, r2.st)
           case Broke(v) => Res(Normal(v), r2.st)
           case _ => r2)
    case Do(c, body, until) =>
      if fuel == 0 then Res(OutOfFuel, st)
      else
        var r := EvalBlock(env, fuel, body, st);
        (match r.o
         case Continued => EvalS(env, fuel - 1, s, r.st)   // the guard is not looked at
         case Broke(v) => Res(Normal(v), r.st)
         case Normal(_) =>
           var g := EvalE(env, fuel, c, r.st);
           if !g.o.Normal? then g
           else if !g.o.v.BoolV? then SoftFail(env, g.st)
           else if g.o.v.b == until then Res(Normal(UnitV), g.st)
           else EvalS(env, fuel - 1, s, g.st)
         case _ => r)
    case For(x, counter, it, body) =>
      var r := EvalE(env, fuel, it, st);
      if !r.o.Normal? then r
      else if !r.o.v.ArrV? then SoftFail(env, r.st)
      else
        RewindRes(EvalFor(env, fuel, s, |r.st.scope|, r.o.v.a, 0, PushLoopVars(s, r.st)), |r.st.scope|)
    case Try(body, cv, branch) =>
      var r := EvalBlock(env, fuel, body, st);
      if !r.o.Threw? then r
      else
        var r2 := RewindRes(EvalBlock(env, fuel, branch, PushCatchVar(cv, r.o.v, r.st)), |r.st.scope|);
        (match r2.o
         case Normal(_) => Res(Normal(UnitV), r2.st)
         case Threw(UnitV) => Res(r.o, r2.st)               // an empty throw throws again
         case _ => r2)
    case Jump(isBreak, val) =>
      (match val
       case None => Res(if isBreak then Broke(UnitV) else Continued, st)
       case Some(e) =>
         var r := EvalE(env, fuel, e, st);
         if r.o.Normal? then Res(if isBreak then Broke(r.o.v) else Continued, r.st) else r)
    case Return(val, isThrow) =>
      (match val
       case None => Res(if isThrow then Threw(UnitV) else Returned(UnitV), st)
       case Some(e) =>
         var r := EvalE(env, fuel, e, st);
         if r.o.Normal? then Res(if isThrow then Threw(r.o.v) else Returned(r.o.v), r.st) else r)
  }
}
