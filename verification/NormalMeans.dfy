// What is not in an optimized script: at no place, however deep, is there anything left that the
// optimizer folds, merges or removes.

module NormalMeans {
  import opened Options
  import opened Ast
  import opened Operators
  import opened Filtering
  import opened Simulation
  import opened Phases
  import opened NormalForm

  // ---- places ----

  datatype Node = E(e: Expr) | S(s: Stmt)

  function Exprs(es: seq<Expr>): seq<Node> {
    seq(|es|, i requires 0 <= i < |es| => E(es[i]))
  }

  function Stmts(b: seq<Stmt>): seq<Node> {
    seq(|b|, i requires 0 <= i < |b| => S(b[i]))
  }

  // The parts of an expression or a statement (`continue` has no value).
  function Parts(n: Node): seq<Node> {
    match n
    case E(Const(_)) => []
    case E(Var(_)) => []
    case E(StmtE(b)) => Stmts(b)
    case E(Call(_, args)) => Exprs(args)
    case E(And(es)) => Exprs(es)
    case E(Or(es)) => Exprs(es)
    case E(Coalesce(es)) => Exprs(es)
    case E(Arr(es)) => Exprs(es)
    case S(Noop) => []
    case S(ExprS(e)) => [E(e)]
    case S(CallS(_, args)) => Exprs(args)
    case S(If(c, body, branch)) => [E(c)] + Stmts(body) + Stmts(branch)
    case S(While(c, body)) => [E(c)] + Stmts(body)
    case S(Do(c, body, _)) => [E(c)] + Stmts(body)
    case S(For(_, _, it, body)) => [E(it)] + Stmts(body)
    case S(Let(_, e, _)) => [E(e)]
    case S(Assign(_, _, e)) => [E(e)]
    case S(Block(b)) => Stmts(b)
    case S(Try(body, _, branch)) => Stmts(body) + Stmts(branch)
    case S(Jump(isBreak, val)) => if isBreak && val.Some? then [E(val.value)] else []
    case S(Return(val, _)) => if val.Some? then [E(val.value)] else []
  }

  // `part` is found in `root` by going from part to part.
  predicate At(root: Node, place: seq<nat>, part: Node)
    decreases |place|
  {
    if place == [] then part == root
    else place[0] < |Parts(root)| && At(Parts(root)[place[0]], place[1..], part)
  }

  // ---- what could still be done ----

  // A call on literals that is computed.
  predicate Computable(f: string, args: seq<Expr>) {
    (f == "!" && |args| == 1 && args[0].Const? && args[0].v.BoolV?) ||
    (|args| == 2 && args[0].Const? && args[1].Const? && BuiltinBinary(f, args[0].v, args[1].v).OpValue?)
  }

  // A statement after a jump, a statement without an effect before the last one, an empty block.
  predicate Wasteful(b: seq<Stmt>) {
    (exists i :: 0 <= i < |b| - 1 && (b[i].Jump? || b[i].Return?)) ||
    (exists i :: 0 <= i < |b| - 1 && (b[i] == Noop || (b[i].ExprS? && (b[i].e.Const? || b[i].e.Var?)))) ||
    Block([]) in b
  }

  predicate Reducible(n: Node) {
    match n
    case E(StmtE(b)) => b == [] || (|b| == 1 && b[0].ExprS?) || Wasteful(b)
    case E(Call(f, args)) => Computable(f, args)
    case E(And(es)) => |es| < 2 || Const(BoolV(true)) in es || Const(BoolV(false)) in es[..|es| - 1]
    case E(Or(es)) => |es| < 2 || Const(BoolV(false)) in es || Const(BoolV(true)) in es[..|es| - 1]
    case E(Coalesce(es)) => |es| < 2 || Const(UnitV) in es || exists i :: 0 <= i < |es| - 1 && es[i].Const?
    case S(ExprS(e)) => e.StmtE? || e.Call?
    case S(CallS(f, args)) => Computable(f, args)
    case S(If(c, body, branch)) =>
      (c.Const? && c.v.BoolV?) || (body == [] && branch == []) || Wasteful(body) || Wasteful(branch) ||
      (branch == [] && |body| == 1 && body[0].If? && body[0].branch == [])
    case S(While(c, body)) => (c.Const? && c.v.BoolV?) || Wasteful(body)
    case S(Do(_, body, _)) => Wasteful(body)
    case S(For(_, _, _, body)) => Wasteful(body)
    case S(Assign(x, op, e)) => op == None && e.Call? && |e.args| == 2 && e.args[0] == Var(x) && HasOpAssignment(e.f)
    case S(Block(b)) => b == [] || (|b| == 1 && !IsBlockDependent(b[0])) || Wasteful(b)
    case S(Try(body, _, branch)) => body == [] || Wasteful(body) || Wasteful(branch)
    case _ => false
  }

  // ---- nothing of it is left ----

  lemma {:induction false} FilterFull(b: seq<Stmt>, flags: seq<bool>, i: nat, j: nat)
    requires i <= j < |b| == |flags| && |FilterFrom(b, flags, i)| == |b| - i
    ensures flags[j]
    decreases |b| - i
  {
    FilterShort(b, flags, i + 1);
    if i < j { FilterFull(b, flags, i + 1, j); }
  }

  lemma {:induction false} FilterShort(b: seq<Stmt>, flags: seq<bool>, i: nat)
    requires i <= |b| == |flags|
    ensures |FilterFrom(b, flags, i)| <= |b| - i
    decreases |b| - i
  {
    if i < |b| { FilterShort(b, flags, i + 1); }
  }

  lemma {:induction false} LiveFull(b: seq<Stmt>, i: nat)
    requires Live(b) == b && i < |b| - 1
    ensures !b[i].Jump? && !b[i].Return?
  {
    if i > 0 {
      assert b == [b[0]] + b[1..];
      LiveFull(b[1..], i - 1);
    }
  }

  lemma TidyNotWasteful(b: seq<Stmt>, preserve: bool, internal: bool, reduce: bool)
    requires TidyBlock(b, preserve, internal, reduce)
    ensures !Wasteful(b)
  {
    forall i | 0 <= i < |b| - 1
      ensures !b[i].Jump? && !b[i].Return?
      ensures b[i] != Noop && !(b[i].ExprS? && (b[i].e.Const? || b[i].e.Var?))
    {
      LiveFull(b, i);
      FilterFull(b, SurvivorFlags(b, preserve, internal), 0, i);
      SurvivorFlag(b, preserve, internal, i);
    }
  }

  lemma NotFoldable(f: string, args: seq<Expr>)
    requires !Foldable(f, args)
    ensures !Computable(f, args)
  {
    if |args| == 2 && args[0].Const? && args[1].Const? {
      assert forall x | x in args :: IsConstant(x);
      assert Arg(args, 0) == args[0] && Arg(args, 1) == args[1];
    }
  }

  ghost predicate Normal(n: Node) {
    match n
    case E(e) => IsConstant(e) || exists vars :: NormE(vars, e)
    case S(s) => exists vars, preserve :: NormS(vars, s, preserve)
  }

  lemma NormalExprs(vars: Vars, es: seq<Expr>)
    requires forall x | x in es :: IsConstant(x) || NormE(vars, x)
    ensures forall n | n in Exprs(es) :: Normal(n)
  {
    hide NormE, IsConstant;
    forall n | n in Exprs(es)
      ensures Normal(n)
    {
      var i :| 0 <= i < |es| && n == E(es[i]);
      assert es[i] in es;
    }
  }

  lemma NormalStmts(vars: Vars, b: seq<Stmt>, preserve: bool, internal: bool, reduce: bool)
    requires NormB(vars, b, preserve, internal, reduce)
    ensures !Wasteful(b) && forall n | n in Stmts(b) :: Normal(n)
  {
    TidyNotWasteful(b, preserve, internal, reduce);
    hide TidyBlock, NormS, Wasteful;
    forall n | n in Stmts(b)
      ensures Normal(n)
    {
      var i :| 0 <= i < |b| && n == S(b[i]);
      assert NormS(VarsAt(vars, b, i), b[i], preserve && i == |b| - 1);
    }
  }

  lemma NormalOne(vars: Vars, e: Expr)
    requires NormE(vars, e)
    ensures forall n | n in [E(e)] :: Normal(n)
  {}

  // What is normal is not reducible, and has normal parts.
  lemma NormalExpr(vars: Vars, e: Expr)
    requires IsConstant(e) || NormE(vars, e)
    ensures !Reducible(E(e)) && forall n | n in Parts(E(e)) :: Normal(n)
  {
    match e
    case Const(_) =>
    case Var(_) =>
    case StmtE(b) =>
      hide Wasteful;
      NormalStmts(vars, b, true, true, false);
    case Call(f, args) =>
      NotFoldable(f, args);
      NormalExprs(vars, args);
    case And(es) => NormalExprs(vars, es);
    case Or(es) => NormalExprs(vars, es);
    case Coalesce(es) => NormalExprs(vars, es);
    case Arr(es) => NormalExprs(vars, es);
  }

  lemma NormalStmt(vars: Vars, s: Stmt, preserve: bool)
    requires NormS(vars, s, preserve)
    ensures !Reducible(S(s)) && forall n | n in Parts(S(s)) :: Normal(n)
  {
    hide NormE, NormB, Wasteful, Computable, Foldable, IsPure;
    match s
    case Noop =>
    case ExprS(e) => NormalOne(vars, e);
    case CallS(f, args) =>
      NotFoldable(f, args);
      NormalExprs(vars, args);
    case If(c, body, branch) =>
      NormalOne(vars, c);
      NormalStmts(vars, body, preserve, true, false);
      NormalStmts(vars, branch, preserve, true, false);
    case While(c, body) =>
      NormalOne(vars, c);
      NormalStmts(vars, body, false, true, false);
    case Do(c, body, _) =>
      NormalOne(vars, c);
      NormalStmts(vars, body, false, true, false);
    case For(_, _, it, body) =>
      NormalOne(vars, it);
      NormalStmts(vars, body, false, true, false);
    case Let(_, e, _) => NormalOne(vars, e);
    case Assign(_, _, e) => NormalOne(vars, e);
    case Block(b) => NormalStmts(vars, b, preserve, true, false);
    case Try(body, _, branch) =>
      NormalStmts(vars, body, false, true, false);
      NormalStmts(vars, branch, false, true, false);
    case Jump(isBreak, val) => if isBreak && val.Some? { NormalOne(vars, val.value); }
    case Return(val, _) => if val.Some? { NormalOne(vars, val.value); }
  }

  lemma {:induction false} NothingAt(root: Node, place: seq<nat>, part: Node)
    requires Normal(root) && At(root, place, part)
    ensures !Reducible(part)
    decreases |place|
  {
    hide NormE, NormS, Reducible, IsConstant;
    match root {
      case E(e) =>
        var vars :| IsConstant(e) || NormE(vars, e);
        NormalExpr(vars, e);
      case S(s) =>
        var vars, preserve :| NormS(vars, s, preserve);
        NormalStmt(vars, s, preserve);
    }
    if place != [] {
      var next := Parts(root)[place[0]];
      assert next in Parts(root);
      hide Parts;
      NothingAt(next, place[1..], part);
    }
  }

  // Nothing reducible is left anywhere in a script in normal form.
  lemma NothingLeftAnywhere(vars: Vars, b: seq<Stmt>, preserve: bool, internal: bool, reduce: bool)
    requires NormB(vars, b, preserve, internal, reduce)
    ensures !Wasteful(b)
    ensures forall i: nat, place, part | i < |b| && At(S(b[i]), place, part) :: !Reducible(part)
  {
    hide NormB, Reducible, Wasteful, At;
    NormalStmts(vars, b, preserve, internal, reduce);
    forall i: nat, place, part | i < |b| && At(S(b[i]), place, part)
      ensures !Reducible(part)
    {
      assert S(b[i]) == Stmts(b)[i];
      NothingAt(S(b[i]), place, part);
    }
  }
}
