// The optimizer proper (src/optimizer.rs): `optimize_stmt_block`, `optimize_stmt`, `optimize_expr`.
//
// It works as the original does: a dirty flag, a stack of variables with the constants among them,
// and loops that change lists in place.  What it promises is stated in `Rewriting`.

module Optimizer {
  import opened Options
  import opened Ast
  import opened Eval
  import opened Operators
  import opened Conditions
  import opened Simulation
  import opened Filtering
  import opened Phases
  import opened NormalForm
  import opened Composition
  import opened Rewriting
  import opened Rounds

  class OptimizerState {
    var isDirty: bool
    var variables: Vars
    ghost const env: Env
    ghost const consts: Consts

    ghost function Cx(): Ctx
      reads this
    {
      Ctx(env, variables, consts)
    }

    // Top level: the constants of the initial scope may be propagated.
    constructor (scope: seq<Entry>, ghost env: Env, ghost consts: Consts)
      requires !env.catchSoft && Propagates(scope, consts)
      ensures this.env == env && this.consts == consts && !isDirty && Proper(Cx())
      ensures variables == ScopeVars(scope) && Agree(variables, scope)
    {
      this.env, this.consts := env, consts;
      isDirty := false;
      variables := ScopeVars(scope);
      new;
      ScopeVarsAgree(scope, consts);
    }

    // Everything after a statement that breaks the control flow is removed.
    method RemoveDeadCode(b: seq<Stmt>) returns (r: seq<Stmt>)
      modifies this`isDirty
      ensures r == Live(b)
      ensures isDirty == (old(isDirty) || r != b)
    {
      r := [];
      var deadCode := false;
      ghost var k := 0;
      var i := 0;
      while i < |b|
        invariant 0 <= i <= |b|
        invariant 0 <= k <= i && forall j | 0 <= j < k :: !IsControlFlowBreak(b[j])
        invariant if deadCode then k < i && IsControlFlowBreak(b[k]) && r == b[..k + 1] else k == i && r == b[..i]
        invariant isDirty == (old(isDirty) || |r| < i)
      {
        if deadCode {
          isDirty := true;
        } else {
          r := r + [b[i]];
          if IsControlFlowBreak(b[i]) { deadCode := true; } else { k := k + 1; }
        }
        i := i + 1;
      }
      LiveIs(b, k);
      assert b[..|b|] == b;
    }

    // Remove all pure statements except the result, in place.
    method RemovePure(b: seq<Stmt>, preserve: bool, internal: bool) returns (r: seq<Stmt>)
      modifies this`isDirty
      ensures r == Survivors(b, preserve, internal)
      ensures isDirty == (old(isDirty) || r != b)
    {
      r := RemoveInPlace(b, Idle(internal), Useless(), preserve);
      if |r| != |b| { isDirty := true; }
    }

    // Drop what is of no use at the end of the block.
    method TrimTail(b: seq<Stmt>, preserve: bool, internal: bool, reduce: bool) returns (r: seq<Stmt>)
      modifies this`isDirty
      ensures r == Trim(b, preserve, internal, reduce)
      ensures isDirty == (old(isDirty) || r != b)
    {
      r := b;
      while true
        invariant Trim(r, preserve, internal, reduce) == Trim(b, preserve, internal, reduce)
        invariant WB(r) <= WB(b) && isDirty == (old(isDirty) || r != b) && (r != b ==> WB(r) < WB(b))
        decreases WB(r)
      {
        var next := if preserve then KeepStep(r, internal, reduce) else DropStep(r, internal, reduce);
        if next == None { break; }
        isDirty := true;
        r := next.value;
      }
    }

    // Inner blocks that define nothing are flattened into this one.
    method FlattenBlocks(b: seq<Stmt>) returns (r: seq<Stmt>)
      ensures r == Flatten(b) && WB(r) <= WB(b) && (r != b ==> WB(r) < WB(b))
    {
      r := b;
      var n := 0;
      while n < |r|
        invariant 0 <= n <= |r|
        invariant forall s | s in r[..n] :: !Flattenable(s)
        invariant Flatten(r) == Flatten(b) && WB(r) <= WB(b) && (r != b ==> WB(r) < WB(b))
        decreases WB(r), |r| - n
      {
        if Flattenable(r[n]) {
          FlattenStep(r, n);
          r := r[..n] + (r[n].b + r[n + 1..]);
          n := 0;
        } else {
          assert r[..n + 1] == r[..n] + [r[n]];
          n := n + 1;
        }
      }
      assert r[..n] == r;
      FlattenNone(r);
    }

    // ---- expressions ----

    method OptimizeArgs(es: seq<Expr>) returns (r: seq<Expr>)
      requires Proper(Cx()) && forall x | x in es :: GoodE(consts, x)
      modifies this
      ensures variables == old(variables) && RewrittenEs(Cx(), old(isDirty), isDirty, es, r)
      decreases WEs(es), 1
    {
      hide RewrittenE, RewrittenEs, ArgsAt, GoodE, VarsIn;
      r := es;
      ArgsStart(Cx(), isDirty, es);
      var i := 0;
      while i < |r|
        invariant 0 <= i <= |r| == |es| && variables == old(variables)
        invariant ArgsAt(Cx(), old(isDirty), isDirty, es, r, i)
      {
        ghost var was := isDirty;
        ArgsGood(Cx(), old(isDirty), isDirty, es, r, i);
        var e' := OptimizeExpr(r[i]);
        ArgsNext(Cx(), old(isDirty), was, isDirty, es, r, i, e');
        r := r[i := e'];
        i := i + 1;
      }
      ArgsFinish(Cx(), old(isDirty), isDirty, es, r);
    }

    // `a && b && ..` (unit: true) or `a || b || ..` (unit: false)
    method OptimizeLogical(es: seq<Expr>, unit: bool) returns (r: Expr)
      requires Proper(Cx()) && forall x | x in es :: GoodE(consts, x)
      modifies this
      ensures variables == old(variables) && RewrittenE(Cx(), old(isDirty), isDirty, Logical(unit, es), r)
      decreases WEs(es), 1
    {
      hide RewrittenE, AllAt, GoodE, VarsIn;
      var x := es;
      AllStart(Cx(), unit, isDirty, es);
      var decided := false;
      var n := 0;
      while n < |x|
        invariant 0 <= n <= |x| && !decided && variables == old(variables)
        invariant AllAt(Cx(), unit, old(isDirty), isDirty, es, x, n)
        decreases WEs(x), |x| - n
      {
        if x[n] == Const(BoolV(unit)) {
          AllDrop(Cx(), unit, old(isDirty), isDirty, es, x, n);
          isDirty := true;
          x := x[..n] + x[n + 1..];
        } else if x[n] == Const(BoolV(!unit)) {
          if forall y | y in x[..n] :: IsPureE(y) { decided := true; }
          if |x| > n + 1 {
            AllCut(Cx(), unit, old(isDirty), isDirty, es, x, n);
            isDirty := true;
            x := x[..n + 1];
          }
          break;
        } else {
          ghost var was := isDirty;
          AllSize(Cx(), unit, old(isDirty), isDirty, es, x, n);
          var e' := OptimizeExpr(x[n]);
          AllNext(Cx(), unit, old(isDirty), was, isDirty, es, x, n, e');
          x := x[n := e'];
          n := n + 1;
        }
      }
      AllDone(Cx(), unit, old(isDirty), isDirty, es, x, n, decided);
      if decided {
        isDirty := true;
        r := Const(BoolV(!unit));
      } else if x == [] {
        isDirty := true;
        r := Const(BoolV(unit));
      } else if |x| == 1 {
        isDirty := true;
        r := x[0];
      } else {
        r := Logical(unit, x);
      }
    }

    // `a ?? b ?? ..`
    method OptimizeCoalesce(es: seq<Expr>) returns (r: Expr)
      requires Proper(Cx()) && forall x | x in es :: GoodE(consts, x)
      modifies this
      ensures variables == old(variables)
      ensures SettlesE(Firm(consts), Coalesce(es)) ==> RewrittenE(Cx(), old(isDirty), isDirty, Coalesce(es), r)
      decreases WEs(es), 1
    {
      hide RewrittenE, FirstAt, GoodE, VarsIn;
      var x := es;
      FirstStart(Cx(), isDirty, es);
      var n := 0;
      while n < |x|
        invariant 0 <= n <= |x| && variables == old(variables)
        invariant FirstAt(Cx(), old(isDirty), isDirty, es, x, n)
        decreases WEs(x), |x| - n
      {
        if x[n] == Const(UnitV) {
          FirstDrop(Cx(), old(isDirty), isDirty, es, x, n);
          isDirty := true;
          x := x[..n] + x[n + 1..];
        } else if IsConstant(x[n]) {
          if |x| > n + 1 {
            FirstCut(Cx(), old(isDirty), isDirty, es, x, n);
            isDirty := true;
            x := x[..n + 1];
          }
          break;
        } else {
          ghost var was := isDirty;
          FirstSize(Cx(), old(isDirty), isDirty, es, x, n);
          var e' := OptimizeExpr(x[n]);
          FirstNext(Cx(), old(isDirty), was, isDirty, es, x, n, e');
          x := x[n := e'];
          n := n + 1;
        }
      }
      FirstDone(Cx(), old(isDirty), isDirty, es, x, n);
      if x == [] {
        // only when every operand has folded to ()
        isDirty := true;
        r := Const(BoolV(false));
      } else if |x| == 1 {
        isDirty := true;
        r := x[0];
      } else {
        r := Coalesce(x);
      }
    }

    method OptimizeCall(f: string, args: seq<Expr>) returns (r: Expr)
      requires Proper(Cx()) && forall x | x in args :: GoodE(consts, x)
      modifies this
      ensures variables == old(variables) && RewrittenE(Cx(), old(isDirty), isDirty, Call(f, args), r)
      ensures r.Const? || r.Call?
      // two literals fold to what the operator gives, and stay where it gives nothing
      ensures |args| == 2 && IsConstant(args[0]) && IsConstant(args[1]) ==>
        var result := BuiltinBinary(f, LiteralValue(args[0]), LiteralValue(args[1]));
        if result.OpValue? then r == Const(result.v) else r.Call? && r.f == f
      ensures f == "!" && |args| == 1 && args[0].Const? && args[0].v.BoolV? ==> r == Const(BoolV(!args[0].v.b))
      decreases WEs(args), 2
    {
      hide RewrittenE, RewrittenEs, GoodE, VarsIn;
      if f == "!" && |args| == 1 && args[0].Const? && args[0].v.BoolV? {
        // !true or !false
        assert args == [args[0]];
        FoldNot(Cx(), isDirty, args[0].v.b);
        isDirty := true;
        r := Const(BoolV(!args[0].v.b));
        return;
      }
      if |args| == 2 && forall x | x in args :: IsConstant(x) {
        assert args == [args[0], args[1]];
        var result := BuiltinBinary(f, LiteralValue(args[0]), LiteralValue(args[1]));
        if result.OpValue? {
          FoldBinary(Cx(), isDirty, f, args[0], args[1], result.v);
          isDirty := true;
          r := Const(result.v);
          return;
        }
      }
      assert !Foldable(f, args);
      var args' := OptimizeArgs(args);
      RebuildCall(Cx(), old(isDirty), isDirty, f, args, args');
      r := Call(f, args');
    }

    method OptimizeExpr(e: Expr) returns (r: Expr)
      requires Proper(Cx()) && GoodE(consts, e)
      modifies this
      ensures variables == old(variables) && RewrittenE(Cx(), old(isDirty), isDirty, e, r)
      ensures e.Const? ==> r == e
      decreases WE(e), 0
    {
      hide RewrittenE, RewrittenEs, VarsIn;
      match e {
        case Const(v) =>
          KeepConst(Cx(), isDirty, v);
          r := e;
        case Var(x) =>
          // the name of a constant
          var c := FindConst(variables, x);
          if c.Some? {
            PropagateVar(Cx(), isDirty, x, c.value);
            isDirty := true;
            r := Const(c.value);
          } else {
            KeepVar(Cx(), isDirty, x);
            r := e;
          }
        case StmtE(b) => r := OptimizeBlockExpr(b);
        case Call(f, args) => r := OptimizeCall(f, args);
        case And(es) => r := OptimizeLogical(es, true);
        case Or(es) => r := OptimizeLogical(es, false);
        case Coalesce(es) => r := OptimizeCoalesce(es);
        case Arr(es) =>
          if IsConstant(e) {
            FoldArr(Cx(), isDirty, es);
            isDirty := true;
            r := Const(LiteralValue(e));
          } else {
            var es' := OptimizeArgs(es);
            RebuildArr(Cx(), old(isDirty), isDirty, es, es');
            r := Arr(es');
          }
      }
    }

    // { stmt; ... } as an expression
    method OptimizeBlockExpr(b: seq<Stmt>) returns (r: Expr)
      requires Proper(Cx()) && GoodE(consts, StmtE(b))
      modifies this
      ensures variables == old(variables) && RewrittenE(Cx(), old(isDirty), isDirty, StmtE(b), r)
      decreases WB(b), 6
    {
      hide RewrittenE, RewrittenB, VarsIn;
      if b == [] {
        FoldEmptyBlockExpr(Cx(), isDirty);
        isDirty := true;
        r := Const(UnitV);
      } else if |b| == 1 && b[0].ExprS? {
        SingleGood(Cx(), b);
        isDirty := true;
        r := OptimizeExpr(b[0].e);
        SmallE(Cx(), true, isDirty, b[0].e, r);
        UnwrapBlockExpr(Cx(), old(isDirty), b[0].e, r);
      } else {
        r := StmtE(b);
        var b' := OptimizeStmtBlock(b, true, true, false);
        if |b'| == 1 && b'[0].ExprS? {
          assert b' == [ExprS(b'[0].e)];
          PromoteBlockExpr(Cx(), old(isDirty), isDirty, b, b'[0].e);
          isDirty := true;
          r := b'[0].e;
        } else {
          RebuildBlockExpr(Cx(), old(isDirty), isDirty, b, b');
          r := StmtE(b');
        }
      }
    }

    // ---- statements ----

    method OptimizeIf(c: Expr, body: seq<Stmt>, branch: seq<Stmt>, preserve: bool) returns (r: Stmt)
      requires Proper(Cx()) && GoodS(consts, If(c, body, branch))
      modifies this
      ensures variables == old(variables)
      ensures RewrittenS(Cx(), old(isDirty), isDirty, preserve, If(c, body, branch), r)
      decreases WE(c) + WB(body) + WB(branch), 7
    {
      hide RewrittenE, RewrittenB, RewrittenS, VarsIn;
      if body == [] && branch == [] {
        // an `if` with nothing to run
        isDirty := true;
        var c' := OptimizeExpr(c);
        SmallE(Cx(), true, isDirty, c, c');
        EmptyIf(Cx(), old(isDirty), preserve, c, c');
        r := if preserve then Block([ExprS(c'), Noop]) else ExprS(c');
      } else if c == Const(BoolV(false)) && branch == [] {
        // if false { .. } -> no-op
        FalseIf(Cx(), isDirty, preserve, body);
        isDirty := true;
        r := Noop;
      } else if c == Const(BoolV(false)) {
        // if false { .. } else { else_block } -> { else_block }
        isDirty := true;
        var b' := OptimizeStmtBlock(branch, preserve, true, false);
        SmallB(Cx(), true, isDirty, preserve, true, false, branch, b');
        DecidedIf(Cx(), old(isDirty), preserve, false, body, branch, b');
        r := if b' == [] then Noop else Block(b');
      } else if c == Const(BoolV(true)) {
        // if true { if_block } else { .. } -> { if_block }
        isDirty := true;
        var b' := OptimizeStmtBlock(body, preserve, true, false);
        SmallB(Cx(), true, isDirty, preserve, true, false, body, b');
        DecidedIf(Cx(), old(isDirty), preserve, true, body, branch, b');
        r := if b' == [] then Noop else Block(b');
      } else if branch == [] && |body| == 1 && body[0].If? && body[0].branch == [] {
        MergeableParts(Cx(), c, body);
        r := OptimizeNestedIf(c, body[0].cond, body[0].body, preserve);
      } else {
        var c' := OptimizeExpr(c);
        ghost var n1 := isDirty;
        var body' := OptimizeStmtBlock(body, preserve, true, false);
        ghost var n2 := isDirty;
        var branch' := OptimizeStmtBlock(branch, preserve, true, false);
        RebuildIf(Cx(), old(isDirty), n1, n2, isDirty, preserve, c, c', body, body', branch, branch');
        r := If(c', body', branch');
      }
    }

    // if expr1 { if expr2 { .. } } -> if expr1 && expr2 { .. }
    method OptimizeNestedIf(c: Expr, d: Expr, body: seq<Stmt>, preserve: bool) returns (r: Stmt)
      requires Proper(Cx()) && GoodE(consts, c) && GoodE(consts, d) && GoodB(consts, body)
      modifies this
      ensures variables == old(variables)
      ensures RewrittenS(Cx(), old(isDirty), isDirty, preserve, If(c, [If(d, body, [])], []), r)
      decreases WE(c) + WE(d) + WB(body), 6
    {
      hide RewrittenE, RewrittenB, RewrittenS, VarsIn, GoodE;
      isDirty := true;
      var body' := OptimizeStmtBlock(body, preserve, true, false);
      SmallB(Cx(), true, isDirty, preserve, true, false, body, body');
      var d' := OptimizeExpr(d);
      SmallE(Cx(), true, isDirty, d, d');
      var c' := c;
      SameGuard(Cx(), c);
      if !c.And? {
        c' := OptimizeExpr(c);
        SmallE(Cx(), true, isDirty, c, c');
      }
      r := If(And(Guards(c, c', d')), body', []);
      MergeIf(Cx(), old(isDirty), preserve, c, c', d, d', body, body');
    }

    method OptimizeTry(s: Stmt, preserve: bool) returns (r: Stmt)
      requires Proper(Cx()) && s.Try? && GoodS(consts, s)
      modifies this
      ensures variables == old(variables) && RewrittenS(Cx(), old(isDirty), isDirty, preserve, s, r)
      decreases WS(s), 0
    {
      hide RewrittenB, RewrittenS, VarsIn;
      if forall t | t in s.body :: IsPure(t) {
        // a pure body never throws
        isDirty := true;
        var b' := OptimizeStmtBlock(s.body, false, true, false);
        SmallB(Cx(), true, isDirty, false, true, false, s.body, b');
        PureTry(Cx(), old(isDirty), preserve, s, b');
        r := Block(b');
      } else {
        var body' := OptimizeStmtBlock(s.body, false, true, false);
        ghost var n1 := isDirty;
        var branch' := OptimizeStmtBlock(s.branch, false, true, false);
        RebuildTry(Cx(), old(isDirty), n1, isDirty, preserve, s, body', branch');
        r := Try(body', s.catchVar, branch');
      }
    }

    method OptimizeBlock(b: seq<Stmt>, preserve: bool) returns (r: Stmt)
      requires Proper(Cx()) && GoodB(consts, b)
      modifies this
      ensures variables == old(variables) && RewrittenS(Cx(), old(isDirty), isDirty, preserve, Block(b), r)
      decreases WB(b), 6
    {
      hide RewrittenB, RewrittenS, VarsIn;
      var b' := OptimizeStmtBlock(b, preserve, true, false);
      if b' == [] {
        EmptiedBlock(Cx(), old(isDirty), isDirty, preserve, b);
        isDirty := true;
        r := Noop;
      } else if |b'| == 1 && !IsBlockDependent(b'[0]) {
        // only one statement which is not block-dependent - promote
        assert b' == [b'[0]];
        PromotedBlock(Cx(), old(isDirty), isDirty, preserve, b, b'[0]);
        isDirty := true;
        r := b'[0];
      } else {
        RebuildBlock(Cx(), old(isDirty), isDirty, preserve, b, b');
        r := Block(b');
      }
    }

    method OptimizeExprStmt(e: Expr, preserve: bool) returns (r: Stmt)
      requires Proper(Cx()) && GoodE(consts, e)
      modifies this
      ensures variables == old(variables) && RewrittenS(Cx(), old(isDirty), isDirty, preserve, ExprS(e), r)
      decreases WE(e), 1
    {
      hide RewrittenE, RewrittenB, RewrittenS, VarsIn;
      if e.StmtE? {
        isDirty := true;
        if e.b == [] {
          EmptyExprBlock(Cx(), old(isDirty), preserve);
          r := Noop;
        } else {
          var b' := OptimizeStmtBlock(e.b, true, true, false);
          SmallB(Cx(), true, isDirty, true, true, false, e.b, b');
          ExprBlock(Cx(), old(isDirty), preserve, e.b, b');
          r := Block(b');
        }
      } else if e.Call? {
        ExprCall(Cx(), isDirty, preserve, e.f, e.args);
        isDirty := true;
        r := CallS(e.f, e.args);
      } else {
        var e' := OptimizeExpr(e);
        RebuildExprStmt(Cx(), old(isDirty), isDirty, preserve, e, e');
        r := ExprS(e');
      }
    }

    // while, do and for
    method OptimizeLoop(s: Stmt, preserve: bool) returns (r: Stmt)
      requires Proper(Cx()) && GoodS(consts, s) && (s.While? || s.Do? || s.For?)
      modifies this
      ensures variables == old(variables) && RewrittenS(Cx(), old(isDirty), isDirty, preserve, s, r)
      decreases WS(s), 0
    {
      hide RewrittenE, RewrittenB, RewrittenS, VarsIn;
      match s {
        case While(c, body) =>
          if c == Const(BoolV(false)) {
            FalseWhile(Cx(), isDirty, preserve, body);
            isDirty := true;
            r := Noop;
          } else {
            var c' := OptimizeExpr(c);
            ghost var n1 := isDirty;
            var body' := OptimizeStmtBlock(body, false, true, false);
            RebuildWhile(Cx(), old(isDirty), n1, isDirty, preserve, c, c', body, body');
            r := While(LoopGuard(c'), body');
          }
        case Do(c, body, until) =>
          var c' := OptimizeExpr(c);
          ghost var n1 := isDirty;
          var body' := OptimizeStmtBlock(body, false, true, false);
          RebuildDo(Cx(), old(isDirty), n1, isDirty, preserve, c, c', body, body', until);
          r := Do(c', body', until);
        case For(x, counter, it, body) =>
          var it' := OptimizeExpr(it);
          ghost var n1 := isDirty;
          var body' := OptimizeStmtBlock(body, false, true, false);
          RebuildFor(Cx(), old(isDirty), n1, isDirty, preserve, s, it', body');
          r := For(x, counter, it', body');
      }
    }

    method OptimizeAssign(x: string, op: Option<string>, e: Expr, preserve: bool) returns (r: Stmt)
      requires Proper(Cx()) && GoodS(consts, Assign(x, op, e))
      modifies this
      ensures variables == old(variables) && RewrittenS(Cx(), old(isDirty), isDirty, preserve, Assign(x, op, e), r)
      decreases WE(e), 1
    {
      hide RewrittenE, RewrittenS, VarsIn;
      if op == None && e.Call? && HasOpAssignment(e.f) && |e.args| == 2 && e.args[0] == Var(x) {
        // `x = x op e` becomes `x op= e`
        assert e == Call(e.f, [Var(x), e.args[1]]);
        FoldAssign(Cx(), isDirty, preserve, x, e.f, e.args[1]);
        isDirty := true;
        r := Assign(x, Some(e.f), e.args[1]);
      } else {
        var e' := OptimizeExpr(e);
        RebuildAssign(Cx(), old(isDirty), isDirty, preserve, x, op, e, e');
        r := Assign(x, op, e');
      }
    }

    method OptimizeCallStmt(f: string, args: seq<Expr>, preserve: bool) returns (r: Stmt)
      requires Proper(Cx()) && GoodS(consts, CallS(f, args))
      modifies this
      ensures variables == old(variables) && RewrittenS(Cx(), old(isDirty), isDirty, preserve, CallS(f, args), r)
      decreases WEs(args), 3
    {
      hide RewrittenE, RewrittenS, VarsIn;
      var e := OptimizeCall(f, args);
      RebuildCallStmt(Cx(), old(isDirty), isDirty, preserve, f, args, e);
      r := CallStmt(e);
    }

    // break, return and throw
    method OptimizeJump(s: Stmt, preserve: bool) returns (r: Stmt)
      requires Proper(Cx()) && GoodS(consts, s) && IsControlFlowBreak(s)
      modifies this
      ensures variables == old(variables) && RewrittenS(Cx(), old(isDirty), isDirty, preserve, s, r)
      decreases WS(s), 0
    {
      hide RewrittenE, RewrittenS, VarsIn;
      match s {
        case Jump(true, Some(e)) =>
          var e' := OptimizeExpr(e);
          RebuildJump(Cx(), old(isDirty), isDirty, preserve, true, e, e');
          r := Jump(true, Some(e'));
        case Return(Some(e), isThrow) =>
          var e' := OptimizeExpr(e);
          RebuildJump(Cx(), old(isDirty), isDirty, preserve, isThrow, e, e');
          r := Return(Some(e'), isThrow);
        case _ =>
          KeepStmt(Cx(), isDirty, preserve, s);
          r := s;
      }
    }

    // optimize_stmt (a definition is handled by the block it stands in)
    method OptimizeStmt(s: Stmt, preserve: bool) returns (r: Stmt)
      requires Proper(Cx()) && GoodS(consts, s) && !s.Let?
      modifies this
      ensures variables == old(variables) && RewrittenS(Cx(), old(isDirty), isDirty, preserve, s, r)
      decreases WS(s), 1
    {
      hide RewrittenS, VarsIn;
      match s {
        case Assign(x, op, e) => r := OptimizeAssign(x, op, e, preserve);
        case If(c, body, branch) => r := OptimizeIf(c, body, branch, preserve);
        case While(_, _) => r := OptimizeLoop(s, preserve);
        case Do(_, _, _) => r := OptimizeLoop(s, preserve);
        case For(_, _, _, _) => r := OptimizeLoop(s, preserve);
        case Block(b) => r := OptimizeBlock(b, preserve);
        case Try(_, _, _) => r := OptimizeTry(s, preserve);
        case ExprS(e) => r := OptimizeExprStmt(e, preserve);
        case CallS(f, args) => r := OptimizeCallStmt(f, args, preserve);
        case Jump(_, _) => r := OptimizeJump(s, preserve);
        case Return(_, _) => r := OptimizeJump(s, preserve);
        case Noop =>
          KeepStmt(Cx(), isDirty, preserve, s);
          r := s;
      }
    }

    // ---- blocks ----

    // A statement of a block; a definition is pushed on the stack.
    method OptimizeInBlock(s: Stmt, preserve: bool) returns (r: Stmt)
      requires Proper(Cx()) && GoodS(consts, s)
      modifies this
      ensures variables == Pushed(old(variables), r)
      ensures RewrittenS(old(Cx()), old(isDirty), isDirty, preserve, s, r) && RewrittenLet(old(Cx()), s, r)
      decreases WS(s), 2
    {
      if s.Let? {
        hide RewrittenE, RewrittenS, VarsIn;
        var e' := OptimizeExpr(s.e);
        RebuildLet(Cx(), old(isDirty), isDirty, preserve, s.x, s.e, e', s.isConst);
        r := Let(s.x, e', s.isConst);
        variables := Pushed(variables, r);
      } else {
        r := OptimizeStmt(s, preserve);
      }
    }

    // One pass over the statements, pushing what they define on the stack.
    method OptimizePass(b: seq<Stmt>, preserve: bool) returns (r: seq<Stmt>)
      requires Proper(Cx()) && GoodB(consts, b)
      modifies this
      ensures |r| == |b| && PassAt(old(Cx()), old(isDirty), isDirty, preserve, b, r, |r|, variables)
      decreases WB(b), 3
    {
      hide PassAt, RewrittenS, RewrittenLet, GoodS, VarsIn, GoodB;
      r := b;
      ghost var cx := Cx();
      PassStart(cx, isDirty, preserve, b);
      var index := 0;
      while index < |r|
        invariant 0 <= index <= |r| == |b|
        invariant PassAt(cx, old(isDirty), isDirty, preserve, b, r, index, variables)
      {
        ghost var was, vars := isDirty, variables;
        PassGood(cx, old(isDirty), isDirty, preserve, b, r, index, variables);
        assert Cx() == cx.(vars := vars);
        var s' := OptimizeInBlock(r[index], preserve && index >= |r| - 1);
        PassNext(cx, old(isDirty), was, isDirty, preserve, b, r, index, vars, s');
        r := r[index := s'];
        index := index + 1;
      }
    }

    // One round: dead code, every statement, pure statements, the tail.
    method OptimizeRound(b: seq<Stmt>, preserve: bool, internal: bool, reduce: bool) returns (r: seq<Stmt>)
      requires Proper(Cx()) && GoodB(consts, b) && !isDirty
      modifies this
      ensures |variables| >= |old(variables)| && variables[..|old(variables)|] == old(variables)
      ensures RoundDone(old(Cx()), isDirty, preserve, internal, reduce, b, r)
      decreases WB(b), 4
    {
      hide PassAt, RoundDone, VarsIn, BetterB, GoodB;
      LiveGood(consts, b);
      var live := RemoveDeadCode(b);
      var done := OptimizePass(live, preserve);
      PassStack(old(Cx()), live != b, isDirty, preserve, live, done, variables);
      RoundIs(old(Cx()), isDirty, preserve, internal, reduce, b, done, variables);
      var kept := RemovePure(done, preserve, internal);
      r := TrimTail(kept, preserve, internal, reduce);
    }

    // optimize_stmt_block
    method OptimizeStmtBlock(b: seq<Stmt>, preserve: bool, internal: bool, reduce: bool) returns (r: seq<Stmt>)
      requires Proper(Cx()) && GoodB(consts, b)
      modifies this
      ensures variables == old(variables)
      ensures RewrittenB(Cx(), old(isDirty), isDirty, preserve, internal, reduce, b, r)
      decreases WB(b), 5
    {
      hide RewrittenB, BlockAt, RoundDone, VarsIn, GoodB;
      if b == [] {
        EmptyList(Cx(), isDirty, preserve, internal, reduce);
        r := b;
        return;
      }
      var dirty := isDirty;

      // Inner blocks first
      r := FlattenBlocks(b);
      if r != b { dirty := true; }
      BlockStart(Cx(), isDirty, preserve, internal, reduce, b);

      // Optimize
      while true
        invariant variables == old(variables)
        invariant BlockAt(Cx(), old(isDirty), dirty, preserve, internal, reduce, b, r)
        decreases WB(r)
      {
        isDirty := false;
        var len := |variables|;
        ghost var before := r;
        BlockSize(Cx(), old(isDirty), dirty, preserve, internal, reduce, b, r);
        r := OptimizeRound(r, preserve, internal, reduce);
        variables := variables[..len];
        if !isDirty {
          BlockFinish(Cx(), old(isDirty), dirty, preserve, internal, reduce, b, before, r);
          break;
        }
        BlockNext(Cx(), old(isDirty), dirty, preserve, internal, reduce, b, before, r);
        dirty := true;
      }
      if dirty { isDirty := true; }
    }
  }
}
