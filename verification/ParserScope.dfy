// The parser as it runs (find_var, access_var, parse_let, parse_block, parse_for, parse_try_catch,
// parse_anon_fn and make_curry_from_externals in src/parser.rs): it walks the script once and keeps
// the simulated scope and the list of captured names up to date.

module ParserScope {
  import opened Options
  import S = Script
  import L = Lowered
  import opened Capture

  class ParseState {
    var stack: seq<string>
    var framePointer: nat
    var externals: seq<string>
    var allowCapture: bool

    constructor (params: seq<string>)
      ensures stack == params && framePointer == 0 && externals == [] && allowCapture
    {
      stack := params;
      framePointer := 0;
      externals := [];
      allowCapture := true;
    }

    // Distance of `x` from the top of the stack, 0 if it is not there.
    method FindVar(x: string) returns (n: nat)
      ensures n <= |stack|
      ensures Resolves(stack, x, if n == 0 then None else Some(n))
    {
      n := 1;
      while n <= |stack|
        invariant 1 <= n <= |stack| + 1
        invariant forall j | |stack| - n < j < |stack| :: stack[j] != x
      {
        if stack[|stack| - n] == x { return; }
        n := n + 1;
      }
      n := 0;
    }

    // Looks a name up; if it is not on the stack, the function being parsed captures it.
    method AccessVar(x: string) returns (index: Option<nat>)
      modifies this`externals, this`allowCapture
      ensures allowCapture && Resolves(stack, x, index)
      ensures externals ==
        if old(allowCapture) then AddAll(old(externals), UsesE(S.Var(x), S.Elems(stack))) else old(externals)
    {
      var n := FindVar(x);
      if allowCapture {
        if n == 0 && x !in externals { externals := externals + [x]; }
      } else {
        allowCapture := true;
      }
      index := if n == 0 then None else Some(n);
      assert AddAll(externals, []) == externals;
    }

    // Looks up what an inner function has captured.
    method AccessAll(xs: seq<string>) returns (vars: seq<L.VarRef>)
      requires allowCapture
      modifies this`externals, this`allowCapture
      ensures allowCapture && RefsTo(stack, xs, vars)
      ensures externals == AddAll(old(externals), Outside(xs, S.Elems(stack)))
    {
      vars := [];
      var i := 0;
      while i < |xs|
        invariant 0 <= i <= |xs| && allowCapture
        invariant RefsTo(stack, xs[..i], vars)
        invariant externals == AddAll(old(externals), Outside(xs[..i], S.Elems(stack)))
      {
        var index := AccessVar(xs[i]);
        vars := vars + [L.VarRef(xs[i], index)];
        assert xs[..i + 1] == xs[..i] + [xs[i]];
        OutsideAppend(xs[..i], xs[i], S.Elems(stack));
        AddAllAppend(old(externals), Outside(xs[..i], S.Elems(stack)), UsesE(S.Var(xs[i]), S.Elems(stack)));
        i := i + 1;
      }
      assert xs[..i] == xs;
    }

    method ParseExpr(e: S.Expr) returns (c: L.Code)
      requires allowCapture
      modifies this
      ensures allowCapture && stack == old(stack) && framePointer == old(framePointer)
      ensures LoweredE(stack, e, c) && externals == AddAll(old(externals), UsesE(e, S.Elems(stack)))
      decreases e
    {
      match e {
        case Lit(n) => c := L.Lit(n);
        case Var(x) =>
          var index := AccessVar(x);
          c := L.Var(L.VarRef(x, index));
        case Dot(e1, prop) =>
          var c1 := ParseExpr(e1);
          // The property is parsed like a variable, which must not be captured.
          allowCapture := false;
          var _ := AccessVar(prop);
          c := L.Dot(c1, prop);
        case Prim(op, args) =>
          var cs := ParseArgs(args);
          c := L.Prim(op, cs);
        case BlockE(b) =>
          var ts := ParseBlock(b);
          c := L.BlockE(ts);
        case Fn(params, body) => c := ParseAnonFn(params, body);
        case Call(f, args) =>
          var cf := ParseExpr(f);
          var cs := ParseArgs(args);
          AddAllAppend(old(externals), UsesE(f, S.Elems(stack)), UsesEs(args, S.Elems(stack)));
          c := L.Call(cf, cs);
      }
    }

    method ParseArgs(es: seq<S.Expr>) returns (cs: seq<L.Code>)
      requires allowCapture
      modifies this
      ensures allowCapture && stack == old(stack) && framePointer == old(framePointer)
      ensures LoweredEs(stack, es, cs) && externals == AddAll(old(externals), UsesEs(es, S.Elems(stack)))
      decreases es, 0
    {
      cs := [];
      var i := 0;
      while i < |es|
        invariant 0 <= i <= |es| && |cs| == i
        invariant allowCapture && stack == old(stack) && framePointer == old(framePointer)
        invariant forall j | 0 <= j < i :: LoweredE(stack, es[j], cs[j])
        invariant externals == AddAll(old(externals), UsesEs(es[..i], S.Elems(stack)))
      {
        var c := ParseExpr(es[i]);
        cs := cs + [c];
        assert es[..i + 1] == es[..i] + [es[i]];
        UsesEsAppend(es[..i], es[i], S.Elems(stack));
        AddAllAppend(old(externals), UsesEs(es[..i], S.Elems(stack)), UsesE(es[i], S.Elems(stack)));
        i := i + 1;
      }
      assert es[..i] == es;
    }

    // A function: parsed with a scope of its own, which holds the parameters only.
    method ParseAnonFn(params: seq<string>, body: seq<S.Stmt>) returns (c: L.Code)
      requires allowCapture
      modifies this
      ensures allowCapture && stack == old(stack) && framePointer == old(framePointer)
      ensures LoweredE(stack, S.Fn(params, body), c)
      ensures externals == AddAll(old(externals), UsesE(S.Fn(params, body), S.Elems(stack)))
      decreases S.Fn(params, body), 0
    {
      var inner := new ParseState(params);
      var ts := inner.ParseBlock(body);
      var captured := inner.externals;
      var f := L.FnPtr(captured + params, ts);

      // Inside another function, what is captured here may have to be captured there.
      var _ := AccessAll(captured);
      if captured == [] { return f; }
      ghost var done := externals;
      var vars := AccessAll(captured);
      var shared := AccessAll(captured);
      AddAllElems(old(externals), Outside(captured, S.Elems(stack)));
      AddAllSame(done, Outside(captured, S.Elems(stack)));
      c := L.BlockE([L.Share(shared), L.ExprS(L.Curry(f, vars))]);
    }

    method ParseBlock(b: seq<S.Stmt>) returns (ts: seq<L.Step>)
      requires allowCapture
      modifies this
      ensures allowCapture && stack == old(stack) && framePointer == old(framePointer)
      ensures LoweredB(stack, |stack|, b, ts) && externals == AddAll(old(externals), UsesB(b, S.Elems(stack)))
      decreases b, 1
    {
      var prevFramePointer := framePointer;
      framePointer := |stack|;
      ts := ParseStmts(b);
      stack := stack[..framePointer];
      framePointer := prevFramePointer;
    }

    // The statements of the block that starts at the frame pointer.
    method ParseStmts(b: seq<S.Stmt>) returns (ts: seq<L.Step>)
      requires allowCapture && framePointer <= |stack|
      modifies this
      ensures allowCapture && framePointer == old(framePointer)
      ensures |old(stack)| <= |stack| && stack[..|old(stack)|] == old(stack)
      ensures LoweredB(old(stack), framePointer, b, ts)
      ensures externals == AddAll(old(externals), UsesB(b, S.Elems(old(stack))))
      decreases b, 0
    {
      if b == [] { return []; }
      var t := ParseStmt(b[0]);
      ghost var mid := stack;
      var rest := ParseStmts(b[1..]);
      ts := [t] + rest;
      ghost var bound := S.Elems(old(stack));
      assert S.Elems(mid) == if b[0].Let? then bound + {b[0].x} else bound;
      AddAllAppend(old(externals), UsesS(b[0], bound), UsesB(b[1..], S.Elems(mid)));
      assert stack[..|old(stack)|] == stack[..|mid|][..|old(stack)|];
    }

    method ParseStmt(s: S.Stmt) returns (t: L.Step)
      requires allowCapture && framePointer <= |stack|
      modifies this
      ensures allowCapture && framePointer == old(framePointer)
      ensures t.Let? <==> s.Let?
      ensures stack == After(old(stack), t) && |old(stack)| <= |stack| && stack[..|old(stack)|] == old(stack)
      ensures S.Elems(stack) == S.Elems(old(stack)) + (if s.Let? then {s.x} else {})
      ensures LoweredS(old(stack), framePointer, s, t)
      ensures externals == AddAll(old(externals), UsesS(s, S.Elems(old(stack))))
      decreases s
    {
      ghost var bound := S.Elems(stack);
      ghost var ext := externals;
      match s {
        case ExprS(e) =>
          var c := ParseExpr(e);
          t := L.ExprS(c);
        case Let(x, e, isConst) => t := ParseLet(x, e, isConst);
        case Assign(x, e) =>
          var index := AccessVar(x);
          var c := ParseExpr(e);
          AddAllAppend(ext, UsesE(S.Var(x), bound), UsesE(e, bound));
          t := L.Assign(L.VarRef(x, index), c);
        case If(c, body, branch) =>
          var c' := ParseExpr(c);
          var body' := ParseBlock(body);
          var branch' := ParseBlock(branch);
          AddAllAppend(ext, UsesE(c, bound), UsesB(body, bound));
          AddAllAppend(ext, UsesE(c, bound) + UsesB(body, bound), UsesB(branch, bound));
          t := L.If(c', body', branch');
        case While(c, body) =>
          var c' := ParseExpr(c);
          var body' := ParseBlock(body);
          AddAllAppend(ext, UsesE(c, bound), UsesB(body, bound));
          t := L.While(c', body');
        case For(_, _, _, _) => t := ParseFor(s);
        case Try(_, _, _) => t := ParseTryCatch(s);
        case Block(b) =>
          var ts := ParseBlock(b);
          t := L.Block(ts);
        case Break => t := L.Break;
        case Continue => t := L.Continue;
        case Return(e) =>
          var c := ParseExpr(e);
          t := L.Return(c);
        case Throw(e) =>
          var c := ParseExpr(e);
          t := L.Throw(c);
      }
      assert stack[..|old(stack)|] == old(stack);
    }

    method ParseLet(x: string, e: S.Expr, isConst: bool) returns (t: L.Step)
      requires allowCapture && framePointer <= |stack|
      modifies this
      ensures allowCapture && framePointer == old(framePointer)
      ensures t.Let? && stack == After(old(stack), t)
      ensures S.Elems(stack) == S.Elems(old(stack)) + {x}
      ensures LoweredS(old(stack), framePointer, S.Let(x, e, isConst), t)
      ensures externals == AddAll(old(externals), UsesE(e, S.Elems(old(stack))))
      decreases S.Let(x, e, isConst), 0
    {
      var c := ParseExpr(e);
      var n := FindVar(x);
      if n > 0 && |stack| - n >= framePointer {
        // already defined in this block: the slot is used again
        t := L.Let(x, c, isConst, Some(n));
        assert x in stack;
      } else {
        t := L.Let(x, c, isConst, None);
        stack := stack + [x];
      }
    }

    method ParseFor(s: S.Stmt) returns (t: L.Step)
      requires s.For? && allowCapture
      modifies this
      ensures allowCapture && framePointer == old(framePointer) && stack == old(stack)
      ensures LoweredS(stack, framePointer, s, t)
      ensures externals == AddAll(old(externals), UsesS(s, S.Elems(stack)))
      decreases s, 0
    {
      ghost var bound := S.Elems(stack);
      var n := ParseExpr(s.count);
      var prevStackLen := |stack|;
      if s.counter.Some? { stack := stack + [s.counter.value]; }
      stack := stack + [s.x];
      assert stack == old(stack) + Single(s.counter) + [s.x];
      assert S.Elems(stack) == bound + S.Named(s.counter) + {s.x};
      var body := ParseBlock(s.body);
      stack := stack[..prevStackLen];
      AddAllAppend(old(externals), UsesE(s.count, bound), UsesB(s.body, bound + S.Named(s.counter) + {s.x}));
      t := L.For(s.x, s.counter, n, body);
    }

    method ParseTryCatch(s: S.Stmt) returns (t: L.Step)
      requires s.Try? && allowCapture
      modifies this
      ensures allowCapture && framePointer == old(framePointer) && stack == old(stack)
      ensures LoweredS(stack, framePointer, s, t)
      ensures externals == AddAll(old(externals), UsesS(s, S.Elems(stack)))
      decreases s, 0
    {
      ghost var bound := S.Elems(stack);
      var body := ParseBlock(s.body);
      if s.catchVar.Some? { stack := stack + [s.catchVar.value]; }
      assert stack == old(stack) + Single(s.catchVar);
      assert S.Elems(stack) == bound + S.Named(s.catchVar);
      var branch := ParseBlock(s.branch);
      if s.catchVar.Some? { stack := stack[..|stack| - 1]; }
      AddAllAppend(old(externals), UsesB(s.body, bound), UsesB(s.branch, bound + S.Named(s.catchVar)));
      t := L.Try(body, s.catchVar, branch);
    }
  }

  lemma {:induction false} OutsideAppend(xs: seq<string>, x: string, bound: set<string>)
    ensures Outside(xs + [x], bound) == Outside(xs, bound) + UsesE(S.Var(x), bound)
  {
    if xs == [] {
      assert xs + [x] == [x] && [x][1..] == [];
    } else {
      assert (xs + [x])[0] == xs[0] && (xs + [x])[1..] == xs[1..] + [x];
      OutsideAppend(xs[1..], x, bound);
    }
  }

  lemma {:induction false} UsesEsAppend(es: seq<S.Expr>, e: S.Expr, bound: set<string>)
    ensures UsesEs(es + [e], bound) == UsesEs(es, bound) + UsesE(e, bound)
  {
    if es == [] {
      assert es + [e] == [e] && [e][1..] == [];
    } else {
      assert (es + [e])[0] == es[0] && (es + [e])[1..] == es[1..] + [e];
      UsesEsAppend(es[1..], e, bound);
    }
  }

  // Parsing a whole script; the names found nowhere are left to the scope it is run in.
  method ParseScript(b: seq<S.Stmt>) returns (ts: seq<L.Step>)
    ensures LoweredB([], 0, b, ts)
  {
    var state := new ParseState([]);
    ts := state.ParseStmts(b);
  }
}
