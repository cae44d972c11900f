// The parser's simulated scope (ParseState in src/parser.rs): how names become distances from the
// top of the scope, and which names a function captures.

module Capture {
  import opened Options
  import S = Script
  import L = Lowered

  // ---- captured names ----

  // The names used in parsing order that are not bound, with repetitions.
  function UsesE(e: S.Expr, bound: set<string>): seq<string> {
    match e
    case Lit(_) => []
    case Var(x) => if x in bound then [] else [x]
    case Dot(e1, _) => UsesE(e1, bound)      // a property is no variable
    case Prim(_, args) => UsesEs(args, bound)
    case BlockE(b) => UsesB(b, bound)
    case Fn(params, body) => Outside(AddAll([], UsesB(body, S.Elems(params))), bound)
    case Call(f, args) => UsesE(f, bound) + UsesEs(args, bound)
  }

  function UsesEs(es: seq<S.Expr>, bound: set<string>): seq<string> {
    if es == [] then [] else UsesE(es[0], bound) + UsesEs(es[1..], bound)
  }

  function UsesS(s: S.Stmt, bound: set<string>): seq<string> {
    match s
    case ExprS(e) => UsesE(e, bound)
    case Let(_, e, _) => UsesE(e, bound)
    case Assign(x, e) => (if x in bound then [] else [x]) + UsesE(e, bound)
    case If(c, body, branch) => UsesE(c, bound) + UsesB(body, bound) + UsesB(branch, bound)
    case While(c, body) => UsesE(c, bound) + UsesB(body, bound)
    case For(x, counter, n, body) => UsesE(n, bound) + UsesB(body, bound + S.Named(counter) + {x})
    case Try(body, cv, branch) => UsesB(body, bound) + UsesB(branch, bound + S.Named(cv))
    case Block(b) => UsesB(b, bound)
    case Break => []
    case Continue => []
    case Return(e) => UsesE(e, bound)
    case Throw(e) => UsesE(e, bound)
  }

  function UsesB(b: seq<S.Stmt>, bound: set<string>): seq<string> {
    if b == [] then []
    else UsesS(b[0], bound) + UsesB(b[1..], if b[0].Let? then bound + {b[0].x} else bound)
  }

  function Outside(xs: seq<string>, bound: set<string>): seq<string> {
    if xs == [] then [] else (if xs[0] in bound then [] else [xs[0]]) + Outside(xs[1..], bound)
  }

  // Appends what is not there yet.
  function AddAll(list: seq<string>, xs: seq<string>): seq<string>
    decreases xs
  {
    if xs == [] then list else AddAll(if xs[0] in list then list else list + [xs[0]], xs[1..])
  }

  // The additional parameters of a function.
  function Captured(params: seq<string>, body: seq<S.Stmt>): seq<string> {
    AddAll([], UsesB(body, S.Elems(params)))
  }

  predicate Distinct(xs: seq<string>) {
    forall i, j | 0 <= i < j < |xs| :: xs[i] != xs[j]
  }

  lemma {:induction false} AddAllAppend(list: seq<string>, a: seq<string>, b: seq<string>)
    ensures AddAll(list, a + b) == AddAll(AddAll(list, a), b)
    decreases a
  {
    if a == [] {
      assert a + b == b;
    } else {
      assert (a + b)[0] == a[0] && (a + b)[1..] == a[1..] + b;
      AddAllAppend(if a[0] in list then list else list + [a[0]], a[1..], b);
    }
  }

  lemma {:induction false} AddAllElems(list: seq<string>, xs: seq<string>)
    ensures forall x :: x in AddAll(list, xs) <==> x in list || x in xs
    ensures Distinct(list) ==> Distinct(AddAll(list, xs))
    ensures |AddAll(list, xs)| >= |list| && AddAll(list, xs)[..|list|] == list
    decreases xs
  {
    if xs != [] {
      var next := if xs[0] in list then list else list + [xs[0]];
      AddAllElems(next, xs[1..]);
      assert forall x :: x in xs <==> x == xs[0] || x in xs[1..];
      assert next[..|list|] == list;
      assert AddAll(next, xs[1..])[..|list|] == AddAll(next, xs[1..])[..|next|][..|list|];
    }
  }

  // Adding what is there already changes nothing.
  lemma {:induction false} AddAllSame(list: seq<string>, xs: seq<string>)
    requires forall x | x in xs :: x in list
    ensures AddAll(list, xs) == list
  {
    if xs != [] { AddAllSame(list, xs[1..]); }
  }

  lemma {:induction false} OutsideElems(xs: seq<string>, bound: set<string>)
    ensures S.Elems(Outside(xs, bound)) == S.Elems(xs) - bound
    ensures Distinct(xs) ==> Distinct(Outside(xs, bound))
  {
    if xs != [] {
      OutsideElems(xs[1..], bound);
      assert S.Elems(xs) == {xs[0]} + S.Elems(xs[1..]);
      ElemsAppend(if xs[0] in bound then [] else [xs[0]], Outside(xs[1..], bound));
      if Distinct(xs) {
        assert Distinct(xs[1..]);
        assert xs[0] !in S.Elems(xs[1..]);
        assert xs[0] !in S.Elems(Outside(xs[1..], bound));
      }
    }
  }

  // What is used and not bound is what is free.
  lemma {:induction false} UsesFreeE(e: S.Expr, bound: set<string>)
    ensures S.Elems(UsesE(e, bound)) == S.FreeE(e) - bound
    decreases e
  {
    match e
    case Lit(_) =>
    case Var(_) =>
    case Dot(e1, _) => UsesFreeE(e1, bound);
    case Prim(_, args) => UsesFreeEs(args, bound);
    case BlockE(b) => UsesFreeB(b, bound);
    case Fn(params, body) =>
      UsesFreeB(body, S.Elems(params));
      AddAllElems([], UsesB(body, S.Elems(params)));
      OutsideElems(Captured(params, body), bound);
      assert S.Elems(Captured(params, body)) == S.Elems(UsesB(body, S.Elems(params)));
    case Call(f, args) =>
      UsesFreeE(f, bound);
      UsesFreeEs(args, bound);
      ElemsAppend(UsesE(f, bound), UsesEs(args, bound));
  }

  lemma ElemsAppend(a: seq<string>, b: seq<string>)
    ensures S.Elems(a + b) == S.Elems(a) + S.Elems(b)
  {
  }

  lemma {:induction false} UsesFreeEs(es: seq<S.Expr>, bound: set<string>)
    ensures S.Elems(UsesEs(es, bound)) == S.FreeEs(es) - bound
    decreases es, 0
  {
    if es != [] {
      UsesFreeE(es[0], bound);
      UsesFreeEs(es[1..], bound);
      ElemsAppend(UsesE(es[0], bound), UsesEs(es[1..], bound));
    }
  }

  lemma {:induction false} UsesFreeB(b: seq<S.Stmt>, bound: set<string>)
    ensures S.Elems(UsesB(b, bound)) == S.FreeB(b) - bound
    decreases b, 0
  {
    if b != [] {
      var bound' := if b[0].Let? then bound + {b[0].x} else bound;
      UsesFreeS(b[0], bound);
      UsesFreeB(b[1..], bound');
      ElemsAppend(UsesS(b[0], bound), UsesB(b[1..], bound'));
    }
  }

  lemma {:induction false} UsesFreeS(s: S.Stmt, bound: set<string>)
    ensures S.Elems(UsesS(s, bound)) == S.FreeS(s) - bound
    decreases s
  {
    match s
    case ExprS(e) => UsesFreeE(e, bound);
    case Let(_, e, _) => UsesFreeE(e, bound);
    case Assign(x, e) =>
      UsesFreeE(e, bound);
      ElemsAppend(if x in bound then [] else [x], UsesE(e, bound));
    case If(c, body, branch) =>
      UsesFreeE(c, bound);
      UsesFreeB(body, bound);
      UsesFreeB(branch, bound);
      ElemsAppend(UsesE(c, bound), UsesB(body, bound));
      ElemsAppend(UsesE(c, bound) + UsesB(body, bound), UsesB(branch, bound));
    case While(c, body) =>
      UsesFreeE(c, bound);
      UsesFreeB(body, bound);
      ElemsAppend(UsesE(c, bound), UsesB(body, bound));
    case For(x, counter, n, body) =>
      var bound' := bound + S.Named(counter) + {x};
      UsesFreeE(n, bound);
      UsesFreeB(body, bound');
      ElemsAppend(UsesE(n, bound), UsesB(body, bound'));
    case Try(body, cv, branch) =>
      UsesFreeB(body, bound);
      UsesFreeB(branch, bound + S.Named(cv));
      ElemsAppend(UsesB(body, bound), UsesB(branch, bound + S.Named(cv)));
    case Block(b) => UsesFreeB(b, bound);
    case Break =>
    case Continue =>
    case Return(e) => UsesFreeE(e, bound);
    case Throw(e) => UsesFreeE(e, bound);
  }

  // The captured list has every free variable of the function once, no parameter and nothing else.
  lemma CapturedExact(params: seq<string>, body: seq<S.Stmt>)
    ensures Distinct(Captured(params, body))
    ensures S.Elems(Captured(params, body)) == S.FreeE(S.Fn(params, body))
    ensures forall x | x in Captured(params, body) :: x !in params
  {
    UsesFreeB(body, S.Elems(params));
    AddAllElems([], UsesB(body, S.Elems(params)));
    assert forall x :: x in Captured(params, body) <==> x in S.Elems(UsesB(body, S.Elems(params)));
    assert forall x :: x in params <==> x in S.Elems(params);
  }

  // .. in the order of first use.
  lemma {:induction false} FirstUseOrder(list: seq<string>, xs: seq<string>, i: nat, j: nat)
    requires |list| <= i < j < |AddAll(list, xs)| && Distinct(list)
    ensures exists p :: 0 <= p < |xs| && xs[p] == AddAll(list, xs)[i] && AddAll(list, xs)[j] !in xs[..p]
    decreases xs
  {
    AddAllElems(list, xs);
    if xs != [] {
      var next := if xs[0] in list then list else list + [xs[0]];
      AddAllElems(next, xs[1..]);
      var out := AddAll(list, xs);
      if i < |next| {
        assert out[..|next|] == next;
        assert out[i] == xs[0] && xs[..0] == [];
      } else {
        FirstUseOrder(next, xs[1..], i, j);
        var p :| 0 <= p < |xs[1..]| && xs[1..][p] == out[i] && out[j] !in xs[1..][..p];
        assert out[..|next|] == next && xs[0] in next;
        assert out[j] != xs[0];
        assert xs[..p + 1] == [xs[0]] + xs[1..][..p];
        assert xs[p + 1] == out[i];
      }
    }
  }

  // ---- distances ----

  // `index` is the distance from the top of the innermost `x`.
  predicate Resolves(stack: seq<string>, x: string, index: Option<nat>) {
    match index
    case None => x !in stack
    case Some(n) =>
      1 <= n <= |stack| && stack[|stack| - n] == x && forall j | |stack| - n < j < |stack| :: stack[j] != x
  }

  // The slot of a definition: that of the innermost `x` if it is in the block that starts at `fp`.
  predicate SlotFor(stack: seq<string>, fp: nat, x: string, slot: Option<nat>) {
    match slot
    case None => forall j | fp <= j < |stack| :: stack[j] != x
    case Some(n) => Resolves(stack, x, slot) && |stack| - n >= fp
  }

  predicate RefsTo(stack: seq<string>, xs: seq<string>, vars: seq<L.VarRef>) {
    |vars| == |xs| && forall i | 0 <= i < |xs| :: vars[i].name == xs[i] && Resolves(stack, xs[i], vars[i].index)
  }

  // ---- what the parser makes of a script ----

  predicate LoweredE(stack: seq<string>, e: S.Expr, c: L.Code)
    decreases e
  {
    match e
    case Lit(n) => c == L.Lit(n)
    case Var(x) => c.Var? && c.v.name == x && Resolves(stack, x, c.v.index)
    case Dot(e1, prop) => c.Dot? && c.prop == prop && LoweredE(stack, e1, c.e)
    case Prim(op, args) => c.Prim? && c.op == op && LoweredEs(stack, args, c.args)
    case BlockE(b) => c.BlockE? && LoweredB(stack, |stack|, b, c.b)
    case Fn(params, body) =>
      if Captured(params, body) == [] then LoweredFn(params, body, c)
      else
        c.BlockE? && |c.b| == 2 &&
        c.b[0].Share? && RefsTo(stack, Captured(params, body), c.b[0].vars) &&
        c.b[1].ExprS? && c.b[1].e.Curry? && LoweredFn(params, body, c.b[1].e.f) &&
        RefsTo(stack, Captured(params, body), c.b[1].e.vars)
    case Call(f, args) => c.Call? && LoweredE(stack, f, c.callee) && LoweredEs(stack, args, c.args)
  }

  predicate LoweredFn(params: seq<string>, body: seq<S.Stmt>, c: L.Code)
    decreases body, 1
  {
    c.FnPtr? && c.params == Captured(params, body) + params && LoweredB(params, |params|, body, c.body)
  }

  predicate LoweredEs(stack: seq<string>, es: seq<S.Expr>, cs: seq<L.Code>)
    decreases es
  {
    |cs| == |es| && forall i | 0 <= i < |es| :: LoweredE(stack, es[i], cs[i])
  }

  predicate LoweredS(stack: seq<string>, fp: nat, s: S.Stmt, t: L.Step)
    decreases s
  {
    match s
    case ExprS(e) => t.ExprS? && LoweredE(stack, e, t.e)
    case Let(x, e, isConst) =>
      t.Let? && t.x == x && t.isConst == isConst && LoweredE(stack, e, t.e) && SlotFor(stack, fp, x, t.slot)
    case Assign(x, e) =>
      t.Assign? && t.v.name == x && Resolves(stack, x, t.v.index) && LoweredE(stack, e, t.e)
    case If(c, body, branch) =>
      t.If? && LoweredE(stack, c, t.cond) && LoweredB(stack, |stack|, body, t.body) &&
      LoweredB(stack, |stack|, branch, t.branch)
    case While(c, body) => t.While? && LoweredE(stack, c, t.cond) && LoweredB(stack, |stack|, body, t.body)
    case For(x, counter, n, body) =>
      t.For? && t.x == x && t.counter == counter && LoweredE(stack, n, t.count) &&
      var inner := stack + Single(counter) + [x];
      LoweredB(inner, |inner|, body, t.body)
    case Try(body, cv, branch) =>
      t.Try? && t.catchVar == cv && LoweredB(stack, |stack|, body, t.body) &&
      var inner := stack + Single(cv);
      LoweredB(inner, |inner|, branch, t.branch)
    case Block(b) => t.Block? && LoweredB(stack, |stack|, b, t.b)
    case Break => t.Break?
    case Continue => t.Continue?
    case Return(e) => t.Return? && LoweredE(stack, e, t.e)
    case Throw(e) => t.Throw? && LoweredE(stack, e, t.e)
  }

  function Single(x: Option<string>): seq<string> {
    if x.Some? then [x.value] else []
  }

  // The stack after a statement.
  function After(stack: seq<string>, t: L.Step): seq<string> {
    if t.Let? && t.slot == None then stack + [t.x] else stack
  }

  predicate LoweredB(stack: seq<string>, fp: nat, b: seq<S.Stmt>, ts: seq<L.Step>)
    decreases b, 0
  {
    if b == [] then ts == []
    else ts != [] && LoweredS(stack, fp, b[0], ts[0]) && LoweredB(After(stack, ts[0]), fp, b[1..], ts[1..])
  }
}
