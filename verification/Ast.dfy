// The part of the syntax tree that the optimizer rewrites (src/ast/expr.rs, src/ast/stmt.rs),
// with the classification predicates its rewrites rely on.

module Ast {
  import opened Options

  // Script values.  `ArrV` stands for the array held by a `DynamicConstant`.
  datatype Val =
    | UnitV
    | BoolV(b: bool)
    | IntV(i: int)
    | StrV(s: string)
    | ArrV(a: seq<Val>)

  datatype Expr =
    | Const(v: Val)
    | Var(x: string)
    | StmtE(b: seq<Stmt>)
    | Call(f: string, args: seq<Expr>)
    | And(es: seq<Expr>)
    | Or(es: seq<Expr>)
    | Coalesce(es: seq<Expr>)
    | Arr(es: seq<Expr>)

  datatype Stmt =
    | Noop
    | ExprS(e: Expr)
    | CallS(f: string, args: seq<Expr>)
    | If(cond: Expr, body: seq<Stmt>, branch: seq<Stmt>)
    | While(cond: Expr, body: seq<Stmt>)
    | Do(cond: Expr, body: seq<Stmt>, until: bool)
    | For(x: string, counter: Option<string>, iter: Expr, body: seq<Stmt>)
    | Let(x: string, e: Expr, isConst: bool)
    | Assign(x: string, op: Option<string>, e: Expr)
    | Block(b: seq<Stmt>)
    | Try(body: seq<Stmt>, catchVar: Option<string>, branch: seq<Stmt>)
    | Jump(isBreak: bool, val: Option<Expr>)      // break / continue
    | Return(val: Option<Expr>, isThrow: bool)    // return / throw

  // ---- literal constants (Expr::is_constant, Expr::get_literal_value) ----

  predicate IsConstant(e: Expr) {
    match e
    case Const(_) => true
    case Arr(es) => forall x | x in es :: IsConstant(x)
    case _ => false
  }

  function LiteralValue(e: Expr): Val
    requires IsConstant(e)
  {
    match e
    case Const(v) => v
    case Arr(es) => ArrV(LiteralValues(es))
  }

  function LiteralValues(es: seq<Expr>): (vs: seq<Val>)
    requires forall x | x in es :: IsConstant(x)
    ensures |vs| == |es|
  {
    if es == [] then [] else [LiteralValue(es[0])] + LiteralValues(es[1..])
  }

  // ---- purity ----

  // No side effect at all (Expr::is_pure, Stmt::is_pure).
  predicate IsPureE(e: Expr) {
    match e
    case Const(_) => true
    case Var(_) => false
    case StmtE(b) => forall s | s in b :: IsPure(s)
    case Call(_, _) => false
    case And(es) => forall x | x in es :: IsPureE(x)
    case Or(es) => forall x | x in es :: IsPureE(x)
    case Coalesce(es) => forall x | x in es :: IsPureE(x)
    case Arr(es) => forall x | x in es :: IsPureE(x)
  }

  predicate IsPure(s: Stmt) {
    match s
    case Noop => true
    case ExprS(e) => IsPureE(e)
    case CallS(_, _) => false
    case If(c, body, branch) =>
      IsPureE(c) && (forall t | t in body :: IsPure(t)) && (forall t | t in branch :: IsPure(t))
    case While(c, _) => c == Const(BoolV(false))
    case Do(c, body, until) => c == Const(BoolV(until)) && forall t | t in body :: IsPure(t)
    case For(_, _, it, body) => IsPureE(it) && forall t | t in body :: IsPure(t)
    case Let(_, _, _) => false
    case Assign(_, _, _) => false
    case Block(b) => forall t | t in b :: IsPure(t)
    case Try(body, cv, branch) =>
      cv == None && (forall t | t in body :: IsPure(t)) && (forall t | t in branch :: IsPure(t))
    case Jump(_, _) => false
    case Return(_, _) => false
  }

  // Side effects that vanish outside the enclosing block (Stmt::is_internally_pure).
  predicate IsInternallyPure(s: Stmt) {
    match s
    case Let(_, e, _) => IsPureE(e)
    case ExprS(StmtE(b)) => forall t | t in b :: IsInternallyPure(t)
    case _ => IsPure(s)
  }

  predicate IsPureFor(internal: bool, s: Stmt) {
    if internal then IsInternallyPure(s) else IsPure(s)
  }

  // Stmt::returns_value
  predicate ReturnsValue(s: Stmt) {
    s.If? || s.Block? || s.ExprS? || s.CallS?
  }

  // Stmt::is_block_dependent
  predicate IsBlockDependent(s: Stmt) {
    match s
    case Let(_, _, _) => true
    case ExprS(StmtE(b)) => forall t | t in b :: IsBlockDependent(t)
    case _ => false
  }

  // Stmt::is_control_flow_break
  predicate IsControlFlowBreak(s: Stmt) {
    s.Return? || s.Jump?
  }

  predicate IsBareVar(s: Stmt) {
    s.ExprS? && s.e.Var?
  }

  // Token::has_op_assignment
  predicate HasOpAssignment(f: string) {
    f in {"+", "-", "*", "/", "<<", ">>", "%", "**", "&", "|", "^"}
  }

  // ---- size measure ----

  // Every rewrite of the optimizer that marks the tree as changed makes this smaller.
  function WE(e: Expr): nat {
    match e
    case Const(_) => 1
    case Var(_) => 2
    case StmtE(b) => 2 + WB(b)
    case Call(_, args) => 3 + WEs(args)
    case And(es) => 2 + WEs(es)
    case Or(es) => 2 + WEs(es)
    case Coalesce(es) => 2 + WEs(es)
    case Arr(es) => 2 + WEs(es)
  }

  function WEs(es: seq<Expr>): nat {
    if es == [] then 0 else WE(es[0]) + WEs(es[1..])
  }

  function WS(s: Stmt): (w: nat)
    ensures w >= 1
  {
    match s
    case Noop => 1
    case ExprS(e) => 1 + WE(e)
    case CallS(_, args) => 3 + WEs(args)
    case If(c, body, branch) => 10 + WE(c) + WB(body) + WB(branch)
    case While(c, body) => 2 + WE(c) + WB(body)
    case Do(c, body, _) => 2 + WE(c) + WB(body)
    case For(_, _, it, body) => 2 + WE(it) + WB(body)
    case Let(_, e, _) => 2 + WE(e)
    case Assign(_, _, e) => 2 + WE(e)
    case Block(b) => 2 + WB(b)
    case Try(body, _, branch) => 5 + WB(body) + WB(branch)
    case Jump(_, None) => 2
    case Jump(_, Some(e)) => 2 + WE(e)
    case Return(None, _) => 2
    case Return(Some(e), _) => 2 + WE(e)
  }

  function WB(b: seq<Stmt>): nat {
    if b == [] then 0 else WS(b[0]) + WB(b[1..])
  }

  lemma WBAppend(a: seq<Stmt>, b: seq<Stmt>)
    ensures WB(a + b) == WB(a) + WB(b)
  {
    if a == [] {
      assert a + b == b;
    } else {
      assert (a + b)[1..] == a[1..] + b;
      WBAppend(a[1..], b);
    }
  }

  // ---- whose value a block has ----

  // The names that may be propagated as constants; `true` for those whose value may be ().
  type Consts = map<string, bool>

  // What is asked of a tree.  `Held`: no rewrite takes the value away from the statement that decides
  // it; `reduce` says that a `return` at the end may be replaced by its value.  `Firm`: the value does
  // not fold to () either.
  datatype Demand = Held(reduce: bool) | Firm(consts: Consts)

  predicate SettlesE(d: Demand, e: Expr) {
    match e
    case Const(v) => d.Firm? ==> v != UnitV
    case Var(x) => d.Firm? ==> !(x in d.consts && d.consts[x])
    case StmtE(b) => b != [] && Settles(d, b[|b| - 1])
    case Call(_, _) => true
    case And(es) => forall x | x in es :: SettlesE(d, x)
    case Or(es) => forall x | x in es :: SettlesE(d, x)
    case Coalesce(es) => if d.Firm? then exists x | x in es :: SettlesE(d, x) else forall x | x in es :: SettlesE(d, x)
    case Arr(_) => true
  }

  // The statement decides the value of a block that it ends, or the block does not end normally.
  predicate Settles(d: Demand, s: Stmt) {
    match s
    case ExprS(e) => SettlesE(d, e)
    case CallS(_, _) => true
    case Assign(_, _, _) => true
    case Block(b) => b != [] && Settles(d, b[|b| - 1])
    case If(_, body, branch) =>
      body != [] && branch != [] && Settles(d, body[|body| - 1]) && Settles(d, branch[|branch| - 1])
    case Jump(_, _) => true
    case Return(val, isThrow) => isThrow || d != Held(true) || (val.Some? && SettlesE(d, val.value))
    case _ => false
  }

  // ---- what a tree does ----

  datatype Effect =
    | Assigns(x: string)
    | Reads(x: string)
    | Operates                 // applies an operator that has an assignment form
    | UnsureReturn             // a `return` without a value, or with one that is not settled

  function EffectsE(e: Expr): set<Effect> {
    match e
    case Const(_) => {}
    case Var(x) => {Reads(x)}
    case StmtE(b) => EffectsB(b)
    case Call(f, args) => EffectsEs(args) + OperatorEffect(f, args)
    case And(es) => EffectsEs(es)
    case Or(es) => EffectsEs(es)
    case Coalesce(es) => EffectsEs(es)
    case Arr(es) => EffectsEs(es)
  }

  function OperatorEffect(f: string, args: seq<Expr>): set<Effect> {
    if |args| == 2 && HasOpAssignment(f) then {Operates} else {}
  }

  function EffectsEs(es: seq<Expr>): set<Effect> {
    if es == [] then {} else EffectsE(es[0]) + EffectsEs(es[1..])
  }

  function EffectsS(s: Stmt): set<Effect> {
    match s
    case Noop => {}
    case ExprS(e) => EffectsE(e)
    case CallS(f, args) => EffectsEs(args) + OperatorEffect(f, args)
    case If(c, body, branch) => EffectsE(c) + EffectsB(body) + EffectsB(branch)
    case While(c, body) => EffectsE(c) + EffectsB(body)
    case Do(c, body, _) => EffectsE(c) + EffectsB(body)
    case For(_, _, it, body) => EffectsE(it) + EffectsB(body)
    case Let(_, e, _) => EffectsE(e)
    case Assign(x, _, e) => {Assigns(x)} + EffectsE(e)
    case Block(b) => EffectsB(b)
    case Try(body, _, branch) => EffectsB(body) + EffectsB(branch)
    case Jump(_, None) => {}
    case Jump(_, Some(e)) => EffectsE(e)
    case Return(None, isThrow) => if isThrow then {} else {UnsureReturn}
    case Return(Some(e), isThrow) => EffectsE(e) + if isThrow || SettlesE(Held(true), e) then {} else {UnsureReturn}
  }

  function EffectsB(b: seq<Stmt>): set<Effect> {
    if b == [] then {} else EffectsS(b[0]) + EffectsB(b[1..])
  }

  // No `break <value>` anywhere in the tree.
  predicate PlainBreaksE(e: Expr) {
    match e
    case Const(_) => true
    case Var(_) => true
    case StmtE(b) => forall s | s in b :: PlainBreaks(s)
    case Call(_, args) => forall x | x in args :: PlainBreaksE(x)
    case And(es) => forall x | x in es :: PlainBreaksE(x)
    case Or(es) => forall x | x in es :: PlainBreaksE(x)
    case Coalesce(es) => forall x | x in es :: PlainBreaksE(x)
    case Arr(es) => forall x | x in es :: PlainBreaksE(x)
  }

  predicate PlainBreaks(s: Stmt) {
    match s
    case Noop => true
    case ExprS(e) => PlainBreaksE(e)
    case CallS(_, args) => forall x | x in args :: PlainBreaksE(x)
    case If(c, body, branch) => PlainBreaksE(c) && PlainBreaksB(body) && PlainBreaksB(branch)
    case While(c, body) => PlainBreaksE(c) && PlainBreaksB(body)
    case Do(c, body, _) => PlainBreaksE(c) && PlainBreaksB(body)
    case For(_, _, it, body) => PlainBreaksE(it) && PlainBreaksB(body)
    case Let(_, e, _) => PlainBreaksE(e)
    case Assign(_, _, e) => PlainBreaksE(e)
    case Block(b) => PlainBreaksB(b)
    case Try(body, _, branch) => PlainBreaksB(body) && PlainBreaksB(branch)
    case Jump(_, val) => val == None
    case Return(None, _) => true
    case Return(Some(e), _) => PlainBreaksE(e)
  }

  predicate PlainBreaksB(b: seq<Stmt>) {
    forall s | s in b :: PlainBreaks(s)
  }
}
