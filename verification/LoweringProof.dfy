// The two evaluations, side by side.

module LoweringProof {
  import opened Options
  import S = Script
  import L = Lowered
  import opened Capture
  import opened Lowering
  import opened ParserScope

  // What stays the same while an expression is evaluated: the names that are known, the simulated
  // scope, the environment, and the cells of the entries.
  datatype Frame = Frame(known: set<string>, stack: seq<string>, env: S.Env, locs: seq<nat>)

  ghost predicate Ready(fr: Frame, beta: seq<nat>, store: S.Store, st: L.State) {
    Rel(beta, fr.locs, store, st) && Known(fr.known, fr.env, fr.locs, st.scope) && Aligned(fr.stack, st.scope)
  }

  ghost predicate Done(fr: Frame, beta: seq<nat>, store: S.Store, st: L.State, beta': seq<nat>, r: S.Res, r': L.Res) {
    Step(beta, fr.locs, store, st, beta', r.store, r'.st) && OutRel(beta', r.o, r'.o)
  }

  lemma ReadyAfter(fr: Frame, beta: seq<nat>, store: S.Store, st: L.State, beta': seq<nat>, store': S.Store, st': L.State)
    requires Ready(fr, beta, store, st) && Step(beta, fr.locs, store, st, beta', store', st')
    ensures Ready(fr, beta', store', st')
  {
    KnownSame(fr.known, fr.env, fr.locs, st.scope, st'.scope);
    AlignedSame(fr.stack, st.scope, st'.scope);
  }

  // Two evaluations in a row.
  lemma DoneAfter(fr: Frame, b0: seq<nat>, s0: S.Store, t0: L.State, b1: seq<nat>, s1: S.Store, t1: L.State,
                  b2: seq<nat>, r: S.Res, r': L.Res)
    requires Step(b0, fr.locs, s0, t0, b1, s1, t1) && Done(fr, b1, s1, t1, b2, r, r')
    ensures Done(fr, b0, s0, t0, b2, r, r')
  {
    StepTrans(b0, fr.locs, s0, t0, b1, s1, t1, b2, r.store, r'.st);
  }

  // ---- variables ----

  lemma LookUp(fr: Frame, beta: seq<nat>, store: S.Store, st: L.State, v: L.VarRef)
    requires Ready(fr, beta, store, st) && v.name in fr.known && Resolves(fr.stack, v.name, v.index)
    ensures var k := L.Locate(st.scope, v);
      S.Find(fr.env, v.name) == (if k < 0 then None else Some(fr.locs[k])) &&
      (k >= 0 ==> fr.locs[k] < |store| && CellRel(beta, store[fr.locs[k]], L.CellAt(st, st.scope[k].bind)))
  {
    LocateIs(fr.stack, st.scope, v);
    assert FoundSame(fr.env, fr.locs, st.scope, v.name);
    var k := L.Locate(st.scope, v);
    if k >= 0 { ReadRel(beta, fr.locs, store, st, k); }
  }

  lemma AssignBoth(fr: Frame, beta: seq<nat>, store: S.Store, st: L.State, v: L.VarRef, a: S.Val, w: L.Val)
    requires Ready(fr, beta, store, st) && v.name in fr.known && Resolves(fr.stack, v.name, v.index)
    requires ValRel(beta, a, w)
    ensures var l, k := S.Find(fr.env, v.name), L.Locate(st.scope, v);
      var bad := l.None? || l.value >= |store| || store[l.value].isConst;
      (bad <==> k < 0 || L.CellAt(st, st.scope[k].bind).isConst) &&
      (!bad ==> Step(beta, fr.locs, store, st, beta, S.SetCell(store, l.value, a), L.Write(st, k, w)))
  {
    LookUp(fr, beta, store, st, v);
    var k := L.Locate(st.scope, v);
    if k >= 0 { WriteRel(beta, fr.locs, store, st, k, a, w); }
  }

  // ---- operators ----

  lemma {:induction false} IntsSame(beta: seq<nat>, vs: seq<S.Val>, ws: seq<L.Val>)
    requires ValsRel(beta, vs, ws)
    ensures S.Ints(vs) == L.Ints(ws)
  {
    if vs != [] {
      assert ValRel(beta, vs[0], ws[0]);
      assert ValsRel(beta, vs[1..], ws[1..]) by {
        forall i | 0 <= i < |vs[1..]|
          ensures ValRel(beta, vs[1..][i], ws[1..][i])
        {
          assert ValRel(beta, vs[i + 1], ws[i + 1]);
        }
      }
      IntsSame(beta, vs[1..], ws[1..]);
    }
  }

  lemma ApplySame(host: S.Host, f: string, beta: seq<nat>, vs: seq<S.Val>, ws: seq<L.Val>)
    requires ValsRel(beta, vs, ws)
    ensures OutRel(beta, S.Apply(host, f, vs), L.Apply(host, f, ws))
  {
    IntsSame(beta, vs, ws);
  }

  // ---- closures ----

  // Sharing the captured variables; it goes wrong exactly if one of them does not exist.
  lemma {:induction false} ShareBoth(fr: Frame, names: seq<string>, vars: seq<L.VarRef>,
                                     beta: seq<nat>, store: S.Store, st: L.State) returns (beta': seq<nat>)
    requires Ready(fr, beta, store, st) && RefsTo(fr.stack, names, vars) && forall x | x in names :: x in fr.known
    ensures var r' := L.ShareAll(vars, st);
      Step(beta, fr.locs, store, st, beta', store, r'.st) &&
      (r'.o == L.Normal(L.UnitV) || r'.o == L.Failure) &&
      (r'.o.Normal? <==> forall x | x in names :: S.Find(fr.env, x).Some?) &&
      (forall k | 0 <= k < |st.scope| && st.scope[k].bind.Shared? :: r'.st.scope[k].bind.Shared?) &&
      (r'.o.Normal? ==> forall x | x in names :: SharedAt(r'.st.scope, x))
    decreases |vars|
  {
    hide Rel, Known, Aligned, Resolves, SameNames, Untouched;
    StepRefl(beta, fr.locs, store, st);
    beta' := beta;
    if vars != [] {
      LookUp(fr, beta, store, st, vars[0]);
      var k := L.Locate(st.scope, vars[0]);
      assert names[0] in names;
      if k >= 0 {
        var b1 := ShareRel(beta, fr.locs, store, st, k);
        var st1 := L.ShareAt(st, k);
        ReadyAfter(fr, beta, store, st, b1, store, st1);
        RefsTail(fr.stack, names, vars);
        beta' := ShareBoth(fr, names[1..], vars[1..], b1, store, st1);
        var r' := L.ShareAll(vars[1..], st1);
        StepTrans(beta, fr.locs, store, st, b1, store, st1, beta', store, r'.st);
        assert forall x :: x in names <==> x == names[0] || x in names[1..];
        LocateIs(fr.stack, st.scope, vars[0]);
        SearchSame(st.scope, r'.st.scope, names[0]);
      }
    }
  }

  ghost predicate SharedAt(scope: seq<L.Entry>, x: string) {
    var k := L.Search(scope, x);
    k >= 0 && scope[k].bind.Shared?
  }

  lemma RefsTail(stack: seq<string>, names: seq<string>, vars: seq<L.VarRef>)
    requires RefsTo(stack, names, vars) && names != []
    ensures RefsTo(stack, names[1..], vars[1..])
  {
  }

  // The curried arguments.
  lemma {:induction false} CurryBoth(fr: Frame, names: seq<string>, vars: seq<L.VarRef>,
                                     beta: seq<nat>, store: S.Store, st: L.State)
    requires Ready(fr, beta, store, st) && RefsTo(fr.stack, names, vars) && forall x | x in names :: x in fr.known
    requires forall x | x in names :: SharedAt(st.scope, x)
    ensures L.Bindings(vars, st.scope).Some? && CurryRel(beta, names, fr.env, L.Bindings(vars, st.scope).value)
    decreases |vars|
  {
    if vars != [] {
      LookUp(fr, beta, store, st, vars[0]);
      LocateIs(fr.stack, st.scope, vars[0]);
      assert names[0] in names;
      var k := L.Search(st.scope, names[0]);
      assert SharedAt(st.scope, names[0]);
      assert EntryRel(beta, store, fr.locs[k], st.scope[k].bind);
      RefsTail(fr.stack, names, vars);
      CurryBoth(fr, names[1..], vars[1..], beta, store, st);
      var bs := L.Bindings(vars, st.scope).value;
      forall i | 0 <= i < |names|
        ensures bs[i].Shared? && bs[i].l < |beta| && S.Find(fr.env, names[i]) == Some(beta[bs[i].l])
      {
        if i > 0 { assert names[i] == names[1..][i - 1] && bs[i] == bs[1..][i - 1]; }
      }
    }
  }

  lemma FnBoth(host: S.Host, fuel: nat, fr: Frame, params: seq<string>, body: seq<S.Stmt>, c: L.Code,
               beta: seq<nat>, store: S.Store, st: L.State) returns (beta': seq<nat>)
    requires Ready(fr, beta, store, st) && S.FreeE(S.Fn(params, body)) <= fr.known
    requires S.WellFormedE(S.Fn(params, body)) && LoweredE(fr.stack, S.Fn(params, body), c)
    ensures Done(fr, beta, store, st, beta', S.EvalE(host, fuel, S.Fn(params, body), fr.env, store),
                 L.EvalE(host, fuel, c, st))
  {
    var names := Captured(params, body);
    CapturedExact(params, body);
    assert forall x :: x in names <==> x in S.FreeE(S.Fn(params, body));
    StepRefl(beta, fr.locs, store, st);
    if names == [] {
      beta' := beta;
      assert CurryRel(beta, names, fr.env, []);
    } else {
      beta' := CurryEval(host, fuel, fr, params, body, c, beta, store, st);
    }
  }

  lemma CurryEval(host: S.Host, fuel: nat, fr: Frame, params: seq<string>, body: seq<S.Stmt>, c: L.Code,
                  beta: seq<nat>, store: S.Store, st: L.State) returns (beta': seq<nat>)
    requires Ready(fr, beta, store, st) && forall x | x in Captured(params, body) :: x in fr.known
    requires S.WellFormedE(S.Fn(params, body)) && LoweredE(fr.stack, S.Fn(params, body), c)
    requires Captured(params, body) != []
    ensures var names, r' := Captured(params, body), L.EvalE(host, fuel, c, st);
      Step(beta, fr.locs, store, st, beta', store, r'.st) &&
      if forall x | x in names :: S.Find(fr.env, x).Some?
      then r'.o.Normal? && ValRel(beta', S.FnV(params, body, fr.env), r'.o.v)
      else r'.o == L.Failure
  {
    var names, share, curry := Captured(params, body), c.b[0], c.b[1].e;
    FnShape(fr.stack, params, body, c);
    hide LoweredE, LoweredFn, LoweredB, RefsTo, Captured, L.EvalE, L.ShareAll, Rel, SameNames, Untouched, Known, Aligned;
    CurryRun(host, fuel, curry.f.params, curry.f.body, share.vars, curry.vars, st);
    beta' := ShareBoth(fr, names, share.vars, beta, store, st);
    var r1 := L.ShareAll(share.vars, st);
    SameLength(st.scope, r1.st.scope);
    assert r1.st.(scope := r1.st.scope[..|st.scope|]) == r1.st;
    if r1.o.Normal? {
      ReadyAfter(fr, beta, store, st, beta', store, r1.st);
      CurryBoth(fr, names, curry.vars, beta', store, r1.st);
      FnIs(params, body, curry.f, beta', fr.env, L.Bindings(curry.vars, r1.st.scope).value);
    }
  }

  lemma SameLength(a: seq<L.Entry>, b: seq<L.Entry>)
    requires SameNames(a, b)
    ensures |b| == |a|
  {
  }

  lemma FnIs(params: seq<string>, body: seq<S.Stmt>, f: L.Code, beta: seq<nat>, env: S.Env, bs: seq<L.Binding>)
    requires S.WellFormedE(S.Fn(params, body)) && LoweredFn(params, body, f)
    requires CurryRel(beta, Captured(params, body), env, bs)
    ensures ValRel(beta, S.FnV(params, body, env), L.FnV(f.params, f.body, bs))
  {
  }

  lemma FnShape(stack: seq<string>, params: seq<string>, body: seq<S.Stmt>, c: L.Code)
    requires LoweredE(stack, S.Fn(params, body), c) && Captured(params, body) != []
    ensures c.BlockE? && |c.b| == 2 && c.b[0].Share? && c.b[1].ExprS? && c.b[1].e.Curry? && c.b[1].e.f.FnPtr?
    ensures var share, curry := c.b[0], c.b[1].e;
      c == L.BlockE([L.Share(share.vars), L.ExprS(L.Curry(L.FnPtr(curry.f.params, curry.f.body), curry.vars))]) &&
      RefsTo(stack, Captured(params, body), share.vars) && RefsTo(stack, Captured(params, body), curry.vars) &&
      LoweredFn(params, body, curry.f)
  {
  }

  // What the code for a closure does.
  lemma CurryRun(host: S.Host, fuel: nat, params: seq<string>, body: seq<L.Step>, share: seq<L.VarRef>,
                 vars: seq<L.VarRef>, st: L.State)
    ensures var c := L.BlockE([L.Share(share), L.ExprS(L.Curry(L.FnPtr(params, body), vars))]);
      var r1 := L.ShareAll(share, st);
      L.EvalE(host, fuel, c, st) ==
        L.Rewind(if !r1.o.Normal? then r1
                 else
                   var bs := L.Bindings(vars, r1.st.scope);
                   if bs.None? then L.Res(L.Failure, r1.st)
                   else L.Res(L.Normal(L.FnV(params, body, bs.value)), r1.st), |st.scope|)
  {
    var curry := L.Curry(L.FnPtr(params, body), vars);
    var b := [L.Share(share), L.ExprS(curry)];
    var r1 := L.ShareAll(share, st);
    assert L.EvalS(host, fuel, b[0], st) == r1;
    assert L.EvalE(host, fuel, L.BlockE(b), st) == L.Rewind(L.EvalSeq(host, fuel, b, L.UnitV, st), |st.scope|);
    assert L.EvalSeq(host, fuel, b, L.UnitV, st) == if r1.o.Normal? then L.EvalSeq(host, fuel, b[1..], r1.o.v, r1.st) else r1;
    if r1.o.Normal? {
      assert L.EvalE(host, fuel, curry.f, r1.st) == L.Res(L.Normal(L.FnV(params, body, [])), r1.st);
      var bs := L.Bindings(vars, r1.st.scope);
      if bs.Some? { assert [] + bs.value == bs.value; }
      assert b[1..] == [L.ExprS(curry)] && b[1..][1..] == [];
      assert L.EvalSeq(host, fuel, b[1..], r1.o.v, r1.st) == L.EvalE(host, fuel, curry, r1.st);
    }
  }

  // ---- calls ----

  // The cells of the entries that a function starts with.
  function CallLocs(beta: seq<nat>, curry: seq<L.Binding>, base: nat, n: nat): seq<nat> {
    seq(|curry| + n, i requires 0 <= i < |curry| + n =>
      if i >= |curry| then base + i - |curry|
      else if curry[i].Shared? && curry[i].l < |beta| then beta[curry[i].l]
      else 0)
  }

  lemma {:induction false} ParamFound(params: seq<string>, base: nat, i: nat)
    requires i < |params| && Distinct(params)
    ensures params[i] in S.ParamFrame(params, base) && S.ParamFrame(params, base)[params[i]] == base + i
  {
    if i < |params| - 1 { ParamFound(params[..|params| - 1], base, i); }
  }

  lemma {:induction false} ParamOnly(params: seq<string>, base: nat, x: string)
    requires x !in params
    ensures x !in S.ParamFrame(params, base)
  {
    if params != [] { ParamOnly(params[..|params| - 1], base, x); }
  }

  // What a function is called with.
  ghost predicate CallOk(beta: seq<nat>, g: S.Val, w: L.Val, vs: seq<S.Val>, ws: seq<L.Val>) {
    g.FnV? && ValRel(beta, g, w) && ValsRel(beta, vs, ws) && |g.params| == |vs|
  }

  function CallFrame(beta: seq<nat>, g: S.Val, w: L.Val, base: nat): Frame
    requires g.FnV? && w.FnV?
  {
    Frame(S.Elems(Captured(g.params, g.body) + g.params), g.params, g.env + [S.ParamFrame(g.params, base)],
          CallLocs(beta, w.curry, base, |g.params|))
  }

  // No name stands twice among the parameters of a function.
  lemma AllDistinct(params: seq<string>, body: seq<S.Stmt>)
    requires Distinct(params)
    ensures Distinct(Captured(params, body) + params)
    ensures forall x | x in Captured(params, body) :: x !in params
    ensures S.Elems(Captured(params, body)) == S.FreeB(body) - S.Elems(params)
  {
    CapturedExact(params, body);
    var names := Captured(params, body);
    var all := names + params;
    forall i, j | 0 <= i < j < |all|
      ensures all[i] != all[j]
    {
      if i < |names| <= j { assert all[i] in names && all[j] in params; }
    }
  }

  // What relates a function to its code.
  lemma FnParts(beta: seq<nat>, g: S.Val, w: L.Val)
    requires g.FnV? && ValRel(beta, g, w)
    ensures w.FnV? && |w.curry| == |Captured(g.params, g.body)| && w.params == Captured(g.params, g.body) + g.params
    ensures Distinct(g.params) && Distinct(Captured(g.params, g.body) + g.params)
    ensures forall x | x in Captured(g.params, g.body) :: x !in g.params
    ensures S.Elems(Captured(g.params, g.body)) == S.FreeB(g.body) - S.Elems(g.params)
    ensures LoweredB(g.params, |g.params|, g.body, w.body) && S.WellFormedB(g.body)
    ensures CurryRel(beta, Captured(g.params, g.body), g.env, w.curry)
  {
    assert S.WellFormedE(S.Fn(g.params, g.body));
    assert Distinct(g.params);
    AllDistinct(g.params, g.body);
  }

  // Name i of the parameters is entry i of the scope.
  lemma CallEntry(w: L.Val, ws: seq<L.Val>, i: nat)
    requires w.FnV? && |w.params| == |w.curry| + |ws| && Distinct(w.params) && i < |w.params|
    ensures L.Search(L.CallScope(w, ws), w.params[i]) == i
  {
    var scope := L.CallScope(w, ws);
    assert forall j | 0 <= j < |w.params| :: scope[j].name == w.params[j];
    SearchIs(scope, w.params[i], i);
  }

  // The cell of name i in the environment of the call.
  lemma CallCell(beta: seq<nat>, g: S.Val, w: L.Val, base: nat, i: nat)
    requires g.FnV? && ValRel(beta, g, w) && i < |w.params|
    ensures S.Find(g.env + [S.ParamFrame(g.params, base)], w.params[i]) ==
      Some(CallLocs(beta, w.curry, base, |g.params|)[i])
  {
    hide ValRel, Captured, LoweredB, S.WellFormedB, S.FreeB, S.Find, S.ParamFrame, CallLocs, CurryRel, Distinct;
    FnParts(beta, g, w);
    var names, x := Captured(g.params, g.body), w.params[i];
    FindPush(g.env, S.ParamFrame(g.params, base), x);
    LocAt(beta, w.curry, base, |g.params|, i);
    if i < |names| {
      assert x == names[i];
      CurryFind(beta, names, g.env, w.curry, i);
      ParamOnly(g.params, base, x);
    } else {
      assert x == g.params[i - |names|];
      ParamFound(g.params, base, i - |names|);
    }
  }

  lemma LocAt(beta: seq<nat>, curry: seq<L.Binding>, base: nat, n: nat, i: nat)
    requires i < |curry| + n
    ensures |CallLocs(beta, curry, base, n)| == |curry| + n
    ensures i >= |curry| ==> CallLocs(beta, curry, base, n)[i] == base + i - |curry|
    ensures i < |curry| && curry[i].Shared? && curry[i].l < |beta| ==> CallLocs(beta, curry, base, n)[i] == beta[curry[i].l]
  {
  }

  lemma CurryFind(beta: seq<nat>, names: seq<string>, env: S.Env, curry: seq<L.Binding>, i: nat)
    requires CurryRel(beta, names, env, curry) && i < |names|
    ensures |curry| == |names| && curry[i].Shared? && curry[i].l < |beta|
    ensures S.Find(env, names[i]) == Some(beta[curry[i].l])
  {
  }

  lemma CallKnown(beta: seq<nat>, store: S.Store, g: S.Val, w: L.Val, vs: seq<S.Val>, ws: seq<L.Val>, x: string)
    requires CallOk(beta, g, w, vs, ws) && x in w.params
    ensures FoundSame(CallFrame(beta, g, w, |store|).env, CallFrame(beta, g, w, |store|).locs, L.CallScope(w, ws), x)
  {
    FnParts(beta, g, w);
    var i :| 0 <= i < |w.params| && w.params[i] == x;
    CallCell(beta, g, w, |store|, i);
    CallEntry(w, ws, i);
  }

  // Captured variables are entered as the cells they share.
  lemma CurryEntry(beta: seq<nat>, store: S.Store, store': S.Store, heap: seq<L.Cell>, g: S.Val, w: L.Val,
                   vs: seq<S.Val>, ws: seq<L.Val>, i: nat)
    requires CallOk(beta, g, w, vs, ws) && HeapRel(beta, store, heap) && store <= store'
    requires w.FnV? && |w.params| == |w.curry| + |ws| && i < |w.curry|
    ensures L.CallScope(w, ws)[i].bind.Shared?
    ensures EntryRel(beta, store', CallFrame(beta, g, w, |store|).locs[i], L.CallScope(w, ws)[i].bind)
  {
    FnParts(beta, g, w);
    hide ValRel, Captured, LoweredB, CellRel, ValsRel;
    assert w.curry[i].Shared? && w.curry[i].l < |beta|;
  }

  // Arguments are entered on their own.
  lemma ArgEntry(beta: seq<nat>, store: S.Store, heap: seq<L.Cell>, g: S.Val, w: L.Val,
                 vs: seq<S.Val>, ws: seq<L.Val>, i: nat)
    requires CallOk(beta, g, w, vs, ws) && HeapRel(beta, store, heap)
    requires w.FnV? && |w.params| == |w.curry| + |ws| && |ws| == |vs| && |w.curry| <= i < |w.curry| + |vs|
    ensures EntryRel(beta, store + S.ArgCells(vs), CallFrame(beta, g, w, |store|).locs[i], L.CallScope(w, ws)[i].bind)
  {
    var j := i - |w.curry|;
    assert ValRel(beta, vs[j], ws[j]);
    hide ValRel, Captured, LoweredB;
    assert (store + S.ArgCells(vs))[|store| + j] == S.ArgCells(vs)[j];
    assert forall l | 0 <= l < |beta| :: beta[l] < |store|;
  }

  lemma CallRel(beta: seq<nat>, locs: seq<nat>, store: S.Store, st: L.State,
                g: S.Val, w: L.Val, vs: seq<S.Val>, ws: seq<L.Val>)
    requires CallOk(beta, g, w, vs, ws) && Rel(beta, locs, store, st)
    ensures Rel(beta, CallFrame(beta, g, w, |store|).locs, store + S.ArgCells(vs), L.State(L.CallScope(w, ws), st.heap))
  {
    SameKind(beta, g, w, vs, ws);
    assert |vs| == |ws|;
    var store', scope, ls := store + S.ArgCells(vs), L.CallScope(w, ws), CallFrame(beta, g, w, |store|).locs;
    StoreGrows(beta, store, store', st.heap);
    hide CallOk, HeapRel, EntryRel, Captured;
    forall i | 0 <= i < |ls|
      ensures EntryRel(beta, store', ls[i], scope[i].bind)
      ensures i < |w.curry| ==> scope[i].bind.Shared?
    {
      if i < |w.curry| {
        CurryEntry(beta, store, store', st.heap, g, w, vs, ws, i);
      } else {
        ArgEntry(beta, store, st.heap, g, w, vs, ws, i);
      }
    }
    assert OwnDistinct(ls, scope);
  }

  lemma CallReady(beta: seq<nat>, locs: seq<nat>, store: S.Store, st: L.State,
                  g: S.Val, w: L.Val, vs: seq<S.Val>, ws: seq<L.Val>)
    requires CallOk(beta, g, w, vs, ws) && Rel(beta, locs, store, st)
    ensures Ready(CallFrame(beta, g, w, |store|), beta, store + S.ArgCells(vs), L.State(L.CallScope(w, ws), st.heap))
    ensures LoweredB(g.params, |g.params|, g.body, w.body) && S.WellFormedB(g.body)
    ensures S.FreeB(g.body) <= CallFrame(beta, g, w, |store|).known
  {
    CallRel(beta, locs, store, st, g, w, vs, ws);
    FnParts(beta, g, w);
    hide ValRel, Captured, LoweredB, Rel;
    var fr, scope := CallFrame(beta, g, w, |store|), L.CallScope(w, ws);
    forall x | x in fr.known
      ensures FoundSame(fr.env, fr.locs, scope, x)
    {
      CallKnown(beta, store, g, w, vs, ws, x);
    }
    assert Aligned(fr.stack, scope);
    forall x | x in S.FreeB(g.body)
      ensures x in fr.known
    {
      if x !in S.Elems(g.params) { assert x in S.Elems(Captured(g.params, g.body)); }
    }
  }

  // After a call, the caller's scope is as related as before.
  lemma CallBack(fr: Frame, beta: seq<nat>, store: S.Store, st: L.State, g: S.Val, w: L.Val,
                 vs: seq<S.Val>, ws: seq<L.Val>, beta': seq<nat>, store': S.Store, st': L.State)
    requires CallOk(beta, g, w, vs, ws) && Rel(beta, fr.locs, store, st)
    requires Step(beta, CallFrame(beta, g, w, |store|).locs, store + S.ArgCells(vs),
                  L.State(L.CallScope(w, ws), st.heap), beta', store', st')
    ensures Step(beta, fr.locs, store, st, beta', store', L.State(st.scope, st'.heap))
  {
    SameKind(beta, g, w, vs, ws);
    hide CallOk, EntryRel, HeapRel, OwnDistinct, Captured;
    ArgsOutside(beta, store, st.heap, g, w, vs, ws);
    assert store <= store + S.ArgCells(vs);
    forall i | 0 <= i < |fr.locs|
      ensures EntryRel(beta', store', fr.locs[i], st.scope[i].bind)
    {
      EntryBack(beta, store, store + S.ArgCells(vs), fr.locs[i], st.scope[i].bind,
                CallFrame(beta, g, w, |store|).locs, beta', store');
    }
    forall r | 0 <= r < |store| && r !in beta && r !in fr.locs
      ensures r !in beta' && store'[r] == store[r]
    {
      assert (store + S.ArgCells(vs))[r] == store[r];
    }
  }

  // A call touches no cell of the caller that is not shared.
  lemma ArgsOutside(beta: seq<nat>, store: S.Store, heap: seq<L.Cell>, g: S.Val, w: L.Val, vs: seq<S.Val>, ws: seq<L.Val>)
    requires CallOk(beta, g, w, vs, ws) && HeapRel(beta, store, heap) && w.FnV?
    ensures forall r | 0 <= r < |store| && r !in beta :: r !in CallFrame(beta, g, w, |store|).locs
  {
    FnParts(beta, g, w);
    hide ValRel, Captured, LoweredB, CellRel, ValsRel;
    var ls := CallFrame(beta, g, w, |store|).locs;
    forall r | 0 <= r < |store| && r !in beta
      ensures r !in ls
    {
      forall i | 0 <= i < |ls|
        ensures ls[i] != r
      {
        if i < |w.curry| { assert w.curry[i].Shared? && w.curry[i].l < |beta|; }
      }
    }
  }

  lemma EntryBack(beta: seq<nat>, store: S.Store, mid: S.Store, loc: nat, b: L.Binding,
                  ls: seq<nat>, beta': seq<nat>, store': S.Store)
    requires EntryRel(beta, store, loc, b) && store <= mid
    requires Untouched(beta, ls, mid, beta', store') && forall r | 0 <= r < |store| && r !in beta :: r !in ls
    ensures EntryRel(beta', store', loc, b)
  {
    if b.Own? {
      assert mid[loc] == store[loc];
      ValGrows(beta, beta', store[loc].v, b.c.v);
    }
  }

  // ---- blocks ----

  lemma Nested(fr: Frame, frame: map<string, nat>, beta: seq<nat>, store: S.Store, st: L.State)
    requires Ready(fr, beta, store, st) && frame == map[]
    ensures Ready(fr.(env := fr.env + [frame]), beta, store, st)
  {
    forall x | x in fr.known
      ensures FoundSame(fr.env + [frame], fr.locs, st.scope, x)
    {
      assert FoundSame(fr.env, fr.locs, st.scope, x);
      FindPush(fr.env, frame, x);
    }
  }

  lemma AlignedPush(stack: seq<string>, scope: seq<L.Entry>, x: string, b: L.Binding)
    requires Aligned(stack, scope)
    ensures Aligned(stack + [x], scope + [L.Entry(x, b)])
  {
    var scope' := scope + [L.Entry(x, b)];
    forall i | 0 <= i < |stack| + 1
      ensures scope'[|scope'| - |stack| - 1 + i].name == (stack + [x])[i]
    {
      if i < |stack| { assert scope[|scope| - |stack| + i].name == stack[i]; }
    }
  }

  // A variable of a new frame, on top of the scope.
  lemma Entered(fr: Frame, beta: seq<nat>, store: S.Store, st: L.State, frame: map<string, nat>, x: string,
                c: S.Cell, d: L.Cell)
    requires Rel(beta, fr.locs, store, st) && Aligned(fr.stack, st.scope) && CellRel(beta, c, d)
    requires forall y | y in fr.known && y != x :: FoundSame(fr.env + [frame - {x}], fr.locs, st.scope, y)
    requires x in frame && frame[x] == |store|
    ensures Ready(Frame(fr.known + {x}, fr.stack + [x], fr.env + [frame], fr.locs + [|store|]), beta, store + [c],
                  L.Push(st, x, L.Own(d)))
  {
    var scope' := st.scope + [L.Entry(x, L.Own(d))];
    var env', locs' := fr.env + [frame], fr.locs + [|store|];
    PushRel(beta, fr.locs, store, st, x, c, d);
    assert scope'[..|st.scope|] == st.scope;
    forall y | y in fr.known + {x}
      ensures FoundSame(env', locs', scope', y)
    {
      FindPush(fr.env, frame, y);
      if y != x {
        FindPush(fr.env, frame - {x}, y);
        assert FoundSame(fr.env + [frame - {x}], fr.locs, st.scope, y);
      }
    }
    AlignedPush(fr.stack, st.scope, x, L.Own(d));
  }

  // ---- definitions ----

  function Defined(fr: Frame, t: L.Step, l: nat, k: int): Frame
    requires t.Let? && fr.env != []
  {
    Frame(fr.known + {t.x}, After(fr.stack, t), S.Bind(fr.env, t.x, l),
          if 0 <= k < |fr.locs| then fr.locs[k := l] else fr.locs + [l])
  }

  lemma DefineNew(fr: Frame, beta: seq<nat>, store: S.Store, st: L.State, t: L.Step, c: S.Cell, d: L.Cell)
    requires Ready(fr, beta, store, st) && fr.env != [] && t.Let? && t.slot == None && CellRel(beta, c, d)
    ensures Ready(Defined(fr, t, |store|, -1), beta, store + [c], L.Push(st, t.x, L.Own(d)))
  {
    var scope' := st.scope + [L.Entry(t.x, L.Own(d))];
    var fr' := Defined(fr, t, |store|, -1);
    PushRel(beta, fr.locs, store, st, t.x, c, d);
    assert scope'[..|st.scope|] == st.scope;
    forall y | y in fr'.known
      ensures FoundSame(fr'.env, fr'.locs, scope', y)
    {
      FindBind(fr.env, t.x, |store|, y);
      if y != t.x { assert FoundSame(fr.env, fr.locs, st.scope, y); }
    }
    AlignedPush(fr.stack, st.scope, t.x, L.Own(d));
  }

  // The slot of a variable that is defined again.
  lemma SlotPlace(stack: seq<string>, scope: seq<L.Entry>, t: L.Step)
    requires Aligned(stack, scope) && t.Let? && t.slot.Some? && Resolves(stack, t.x, t.slot)
    ensures var k := |scope| - t.slot.value;
      0 <= k < |scope| && scope[k].name == t.x && L.Search(scope, t.x) == k
  {
    var n := t.slot.value;
    var m := |scope| - |stack|;
    assert scope[m + (|stack| - n)].name == stack[|stack| - n];
    LocateIs(stack, scope, L.VarRef(t.x, t.slot));
  }

  lemma KnownAgain(fr: Frame, scope: seq<L.Entry>, x: string, l: nat, k: nat, b: L.Binding)
    requires Known(fr.known, fr.env, fr.locs, scope) && fr.env != []
    requires k < |scope| && scope[k].name == x && L.Search(scope, x) == k
    ensures Known(fr.known + {x}, S.Bind(fr.env, x, l), fr.locs[k := l], scope[k := L.Entry(x, b)])
  {
    var scope' := scope[k := L.Entry(x, b)];
    assert SameNames(scope, scope');
    forall y | y in fr.known + {x}
      ensures FoundSame(S.Bind(fr.env, x, l), fr.locs[k := l], scope', y)
    {
      FindBind(fr.env, x, l, y);
      SearchSame(scope, scope', y);
      if y != x {
        assert FoundSame(fr.env, fr.locs, scope, y);
        if L.Search(scope, y) >= 0 { assert scope[L.Search(scope, y)].name == y; }
      }
    }
  }

  lemma AgainReady(fr: Frame, beta: seq<nat>, store: S.Store, st: L.State, t: L.Step, k: nat, c: S.Cell, d: L.Cell)
    requires Ready(fr, beta, store, st) && fr.env != [] && t.Let? && t.slot.Some? && CellRel(beta, c, d)
    requires k < |st.scope| == |fr.locs| && st.scope[k].name == t.x && L.Search(st.scope, t.x) == k
    ensures Ready(Defined(fr, t, |store|, k), beta, store + [c], st.(scope := st.scope[k := L.Entry(t.x, L.Own(d))]))
  {
    hide Rel, Known, Aligned, CellRel, SameNames, S.Bind, L.Search;
    RedefineRel(beta, fr.locs, store, st, k, c, d);
    KnownAgain(fr, st.scope, t.x, |store|, k, L.Own(d));
    NamesKept(st.scope, k, L.Own(d));
    AlignedSame(fr.stack, st.scope, st.scope[k := L.Entry(t.x, L.Own(d))]);
  }

  lemma ReadyParts(fr: Frame, beta: seq<nat>, store: S.Store, st: L.State)
    requires Ready(fr, beta, store, st)
    ensures |fr.locs| == |st.scope| && Aligned(fr.stack, st.scope)
  {
  }

  lemma DefineAgain(fr: Frame, beta: seq<nat>, store: S.Store, st: L.State, t: L.Step, c: S.Cell, d: L.Cell)
    requires Ready(fr, beta, store, st) && fr.env != [] && t.Let? && t.slot.Some? && CellRel(beta, c, d)
    requires Resolves(fr.stack, t.x, t.slot)
    ensures t.slot.value <= |st.scope| && t.slot.value > 0
    ensures var k := |st.scope| - t.slot.value;
      st.scope[k].name == t.x &&
      Ready(Defined(fr, t, |store|, k), beta, store + [c], st.(scope := st.scope[k := L.Entry(t.x, L.Own(d))]))
  {
    hide Rel, Known, Aligned, CellRel, Resolves, Ready, Defined, L.Search;
    ReadyParts(fr, beta, store, st);
    SlotPlace(fr.stack, st.scope, t);
    AgainReady(fr, beta, store, st, t, |st.scope| - t.slot.value, c, d);
  }

  lemma NamesKept(scope: seq<L.Entry>, k: nat, b: L.Binding)
    requires k < |scope|
    ensures SameNames(scope, scope[k := L.Entry(scope[k].name, b)])
  {
  }

  // ---- all constructs ----

  lemma {:induction false} RunE(host: S.Host, fuel: nat, fr: Frame, e: S.Expr, c: L.Code,
                                beta: seq<nat>, store: S.Store, st: L.State) returns (beta': seq<nat>)
    requires S.WellFormedE(e) && LoweredE(fr.stack, e, c) && S.FreeE(e) <= fr.known && Ready(fr, beta, store, st)
    ensures Done(fr, beta, store, st, beta', S.EvalE(host, fuel, e, fr.env, store), L.EvalE(host, fuel, c, st))
    decreases fuel, e, 0
  {
    hide Rel, SameNames, Untouched, Known, Aligned, ValRel, LoweredB, LoweredFn, Resolves;
    match e
    case Lit(n) =>
      beta' := beta;
      StepRefl(beta, fr.locs, store, st);
      IntRel(beta, n);
    case Var(x) =>
      beta' := beta;
      StepRefl(beta, fr.locs, store, st);
      LookUp(fr, beta, store, st, c.v);
      IntRel(beta, -1);
    case Dot(e1, prop) =>
      beta' := RunE(host, fuel, fr, e1, c.e, beta, store, st);
      var r, r' := S.EvalE(host, fuel, e1, fr.env, store), L.EvalE(host, fuel, c.e, st);
      if r.o.Normal? { ApplySame(host, "get$" + prop, beta', [r.o.v], [r'.o.v]); }
    case Prim(op, args) =>
      beta' := RunArgs(host, fuel, fr, args, c.args, beta, store, st);
      var r, r' := S.EvalArgs(host, fuel, args, fr.env, store), L.EvalArgs(host, fuel, c.args, st);
      if r.o.Normal? { ApplySame(host, op, beta', r.vs, r'.vs); }
    case BlockE(b) => beta' := RunBlock(host, fuel, fr, b, c.b, beta, store, st);
    case Fn(params, body) => beta' := FnBoth(host, fuel, fr, params, body, c, beta, store, st);
    case Call(f, args) => beta' := RunCall(host, fuel, fr, e, c, beta, store, st);
  }

  lemma IntRel(beta: seq<nat>, n: int)
    ensures ValRel(beta, S.IntV(n), L.IntV(n)) && ValRel(beta, S.UnitV, L.UnitV)
    ensures OutRel(beta, S.Failure, L.Failure)
  {
  }

  ghost predicate DoneArgs(fr: Frame, beta: seq<nat>, store: S.Store, st: L.State, beta': seq<nat>,
                           r: S.ResL, r': L.ResL)
  {
    Step(beta, fr.locs, store, st, beta', r.store, r'.st) && OutRel(beta', r.o, r'.o) &&
    (r.o.Normal? ==> ValsRel(beta', r.vs, r'.vs))
  }

  lemma {:induction false} RunArgs(host: S.Host, fuel: nat, fr: Frame, es: seq<S.Expr>, cs: seq<L.Code>,
                                   beta: seq<nat>, store: S.Store, st: L.State) returns (beta': seq<nat>)
    requires (forall e | e in es :: S.WellFormedE(e)) && LoweredEs(fr.stack, es, cs) && S.FreeEs(es) <= fr.known
    requires Ready(fr, beta, store, st)
    ensures DoneArgs(fr, beta, store, st, beta', S.EvalArgs(host, fuel, es, fr.env, store), L.EvalArgs(host, fuel, cs, st))
    decreases fuel, es, 0
  {
    if es == [] {
      beta' := beta;
      StepRefl(beta, fr.locs, store, st);
    } else {
      assert LoweredE(fr.stack, es[0], cs[0]);
      assert LoweredEs(fr.stack, es[1..], cs[1..]);
      hide Rel, SameNames, Untouched, Known, Aligned, ValRel, LoweredE;
      var b1 := RunE(host, fuel, fr, es[0], cs[0], beta, store, st);
      var r, r' := S.EvalE(host, fuel, es[0], fr.env, store), L.EvalE(host, fuel, cs[0], st);
      beta' := b1;
      if r.o.Normal? {
        ReadyAfter(fr, beta, store, st, b1, r.store, r'.st);
        beta' := RunArgs(host, fuel, fr, es[1..], cs[1..], b1, r.store, r'.st);
        var rs, rs' := S.EvalArgs(host, fuel, es[1..], fr.env, r.store), L.EvalArgs(host, fuel, cs[1..], r'.st);
        StepTrans(beta, fr.locs, store, st, b1, r.store, r'.st, beta', rs.store, rs'.st);
        StepGrows(b1, fr.locs, r.store, r'.st, beta', rs.store, rs'.st);
        ValGrows(b1, beta', r.o.v, r'.o.v);
      }
    }
  }

  lemma StepGrows(beta: seq<nat>, locs: seq<nat>, store: S.Store, st: L.State,
                  beta': seq<nat>, store': S.Store, st': L.State)
    requires Step(beta, locs, store, st, beta', store', st')
    ensures beta <= beta' && |st'.scope| == |st.scope| == |locs| && Rel(beta', locs, store', st')
  {
  }

  lemma {:induction false} RunCall(host: S.Host, fuel: nat, fr: Frame, e: S.Expr, c: L.Code,
                                   beta: seq<nat>, store: S.Store, st: L.State) returns (beta': seq<nat>)
    requires e.Call? && S.WellFormedE(e) && LoweredE(fr.stack, e, c) && S.FreeE(e) <= fr.known
    requires Ready(fr, beta, store, st)
    ensures Done(fr, beta, store, st, beta', S.EvalE(host, fuel, e, fr.env, store), L.EvalE(host, fuel, c, st))
    decreases fuel, e, 0, 0
  {
    hide Rel, SameNames, Untouched, Known, Aligned, ValRel, LoweredB, LoweredFn, Resolves, S.WellFormedB, S.ParamFrame, S.ArgCells, L.CallScope, Step;
    var b1 := RunE(host, fuel, fr, e.callee, c.callee, beta, store, st);
    var r, r' := S.EvalE(host, fuel, e.callee, fr.env, store), L.EvalE(host, fuel, c.callee, st);
    beta' := b1;
    if r.o.Normal? {
      ReadyAfter(fr, beta, store, st, b1, r.store, r'.st);
      var b2 := RunArgs(host, fuel, fr, e.args, c.args, b1, r.store, r'.st);
      var rs, rs' := S.EvalArgs(host, fuel, e.args, fr.env, r.store), L.EvalArgs(host, fuel, c.args, r'.st);
      StepTrans(beta, fr.locs, store, st, b1, r.store, r'.st, b2, rs.store, rs'.st);
      beta' := b2;
      if rs.o.Normal? {
        StepGrows(b1, fr.locs, r.store, r'.st, b2, rs.store, rs'.st);
        ValGrows(b1, b2, r.o.v, r'.o.v);
        SameKind(b2, r.o.v, r'.o.v, rs.vs, rs'.vs);
        IntRel(b2, -1);
        if r.o.v.FnV? && |r.o.v.params| == |rs.vs| && fuel > 0 {
          beta' := EnterFrom(host, fuel - 1, fr, beta, store, st, r.o.v, r'.o.v, rs.vs, rs'.vs, b2, rs.store, rs'.st);
        }
      }
    }
  }

  // A call, after the steps that led to it.
  lemma {:induction false} EnterFrom(host: S.Host, fuel: nat, fr: Frame, beta0: seq<nat>, store0: S.Store, st0: L.State,
                                     g: S.Val, w: L.Val, vs: seq<S.Val>, ws: seq<L.Val>,
                                     beta: seq<nat>, store: S.Store, st: L.State) returns (beta': seq<nat>)
    requires CallOk(beta, g, w, vs, ws) && Step(beta0, fr.locs, store0, st0, beta, store, st)
    ensures var body := S.EvalBlock(host, fuel, g.body, g.env + [S.ParamFrame(g.params, |store|)], store + S.ArgCells(vs));
      var body' := L.EvalBlock(host, fuel, w.body, L.State(L.CallScope(w, ws), st.heap));
      S.CallResult(body).store == body.store &&
      Step(beta0, fr.locs, store0, st0, beta', body.store, L.State(st.scope, body'.st.heap)) &&
      OutRel(beta', S.CallResult(body).o, L.CallOutcome(body'.o))
    decreases fuel, g.body, 4
  {
    hide Rel, SameNames, Untouched, ValRel, S.EvalBlock, L.EvalBlock, S.ParamFrame, S.ArgCells, L.CallScope;
    SameKind(beta, g, w, vs, ws);
    beta' := Enter(host, fuel, fr, g, w, vs, ws, beta, store, st);
    var body := S.EvalBlock(host, fuel, g.body, g.env + [S.ParamFrame(g.params, |store|)], store + S.ArgCells(vs));
    var body' := L.EvalBlock(host, fuel, w.body, L.State(L.CallScope(w, ws), st.heap));
    StepTrans(beta0, fr.locs, store0, st0, beta, store, st, beta', body.store, L.State(st.scope, body'.st.heap));
    IntRel(beta', -1);
  }

  lemma SameKind(beta: seq<nat>, g: S.Val, w: L.Val, vs: seq<S.Val>, ws: seq<L.Val>)
    requires ValRel(beta, g, w) && ValsRel(beta, vs, ws)
    ensures g.FnV? <==> w.FnV?
    ensures g.FnV? ==> (|g.params| == |vs| <==> |w.params| == |w.curry| + |ws|)
  {
    if g.FnV? { FnParts(beta, g, w); }
  }

  lemma {:induction false} Enter(host: S.Host, fuel: nat, fr: Frame, g: S.Val, w: L.Val, vs: seq<S.Val>, ws: seq<L.Val>,
                                 beta: seq<nat>, store: S.Store, st: L.State) returns (beta': seq<nat>)
    requires CallOk(beta, g, w, vs, ws) && Rel(beta, fr.locs, store, st)
    ensures var body := S.EvalBlock(host, fuel, g.body, g.env + [S.ParamFrame(g.params, |store|)], store + S.ArgCells(vs));
      var body' := L.EvalBlock(host, fuel, w.body, L.State(L.CallScope(w, ws), st.heap));
      Step(beta, fr.locs, store, st, beta', body.store, L.State(st.scope, body'.st.heap)) && OutRel(beta', body.o, body'.o)
    decreases fuel, g.body, 3
  {
    CallReady(beta, fr.locs, store, st, g, w, vs, ws);
    var fr' := CallFrame(beta, g, w, |store|);
    var st0 := L.State(L.CallScope(w, ws), st.heap);
    beta' := RunBlock(host, fuel, fr', g.body, w.body, beta, store + S.ArgCells(vs), st0);
    var body := S.EvalBlock(host, fuel, g.body, fr'.env, store + S.ArgCells(vs));
    var body' := L.EvalBlock(host, fuel, w.body, st0);
    CallBack(fr, beta, store, st, g, w, vs, ws, beta', body.store, body'.st);
  }

  lemma {:induction false} RunBlock(host: S.Host, fuel: nat, fr: Frame, b: seq<S.Stmt>, ts: seq<L.Step>,
                                    beta: seq<nat>, store: S.Store, st: L.State) returns (beta': seq<nat>)
    requires S.WellFormedB(b) && LoweredB(fr.stack, |fr.stack|, b, ts) && S.FreeB(b) <= fr.known
    requires Ready(fr, beta, store, st)
    ensures Done(fr, beta, store, st, beta', S.EvalBlock(host, fuel, b, fr.env, store), L.EvalBlock(host, fuel, ts, st))
    decreases fuel, b, 2
  {
    Nested(fr, map[], beta, store, st);
    var fr' := fr.(env := fr.env + [map[]]);
    var locs';
    beta', locs' := RunSeq(host, fuel, fr', |fr.stack|, |st.scope|, b, ts, S.UnitV, L.UnitV, beta, store, st);
    var r := S.EvalSeq(host, fuel, b, S.UnitV, fr'.env, store);
    var r' := L.EvalSeq(host, fuel, ts, L.UnitV, st);
    RewindRel(beta', locs', r.store, r'.st, |st.scope|);
    assert locs'[..|st.scope|] == fr.locs[..|st.scope|] == fr.locs;
    assert SameNames(st.scope, r'.st.scope[..|st.scope|]);
  }

  // From a list of statements in a block whose variables start at entry `n0`.
  ghost predicate DoneSeq(fr: Frame, n0: nat, beta: seq<nat>, store: S.Store, st: L.State,
                          beta': seq<nat>, locs': seq<nat>, r: S.Res, r': L.Res)
  {
    Rel(beta', locs', r.store, r'.st) && n0 <= |st.scope| && n0 <= |r'.st.scope| && n0 <= |fr.locs| &&
    locs'[..n0] == fr.locs[..n0] && SameNames(st.scope[..n0], r'.st.scope[..n0]) &&
    Untouched(beta, fr.locs, store, beta', r.store) && OutRel(beta', r.o, r'.o)
  }

  lemma {:induction false} RunSeq(host: S.Host, fuel: nat, fr: Frame, fp: nat, n0: nat, b: seq<S.Stmt>, ts: seq<L.Step>,
                                  v: S.Val, w: L.Val, beta: seq<nat>, store: S.Store, st: L.State)
      returns (beta': seq<nat>, locs': seq<nat>)
    requires fr.env != [] && ValRel(beta, v, w) && Ready(fr, beta, store, st)
    requires S.WellFormedB(b) && LoweredB(fr.stack, fp, b, ts) && S.FreeB(b) <= fr.known
    requires n0 <= |st.scope| && |st.scope| + fp == |fr.stack| + n0
    ensures DoneSeq(fr, n0, beta, store, st, beta', locs', S.EvalSeq(host, fuel, b, v, fr.env, store),
                    L.EvalSeq(host, fuel, ts, w, st))
    decreases fuel, b, 1
  {
    if b == [] {
      beta', locs' := beta, fr.locs;
    } else if b[0].Let? {
      beta', locs' := RunLet(host, fuel, fr, fp, n0, b, ts, v, w, beta, store, st);
    } else {
      FirstParts(fr, fp, b, ts);
      hide Rel, SameNames, Untouched, Known, Aligned, ValRel, LoweredS, LoweredB, Ready, Step, DoneSeq, OutRel;
      var b1 := RunS(host, fuel, fr, fp, b[0], ts[0], beta, store, st);
      var r, r' := S.EvalS(host, fuel, b[0], fr.env, store), L.EvalS(host, fuel, ts[0], st);
      beta', locs' := b1, fr.locs;
      NormalBoth(b1, r.o, r'.o);
      if r.o.Normal? {
        ReadyAfter(fr, beta, store, st, b1, r.store, r'.st);
        StepSize(fr, beta, store, st, b1, r.store, r'.st);
        beta', locs' := RunSeq(host, fuel, fr, fp, n0, b[1..], ts[1..], r.o.v, r'.o.v, b1, r.store, r'.st);
        SeqAfter(fr, n0, beta, store, st, b1, r.store, r'.st, beta', locs',
          S.EvalSeq(host, fuel, b[1..], r.o.v, fr.env, r.store), L.EvalSeq(host, fuel, ts[1..], r'.o.v, r'.st));
      } else {
        SeqEnd(fr, n0, beta, store, st, b1, r, r');
      }
    }
  }

  lemma FirstParts(fr: Frame, fp: nat, b: seq<S.Stmt>, ts: seq<L.Step>)
    requires b != [] && S.WellFormedB(b) && LoweredB(fr.stack, fp, b, ts) && S.FreeB(b) <= fr.known
    ensures ts != [] && S.WellFormedS(b[0]) && S.WellFormedB(b[1..]) && LoweredS(fr.stack, fp, b[0], ts[0])
    ensures LoweredB(After(fr.stack, ts[0]), fp, b[1..], ts[1..]) && (!b[0].Let? ==> !ts[0].Let?)
    ensures S.FreeS(b[0]) <= fr.known && S.FreeB(b[1..]) <= fr.known + (if b[0].Let? then {b[0].x} else {})
    ensures !b[0].Let? ==> After(fr.stack, ts[0]) == fr.stack && S.FreeB(b[1..]) <= fr.known
  {
  }

  lemma NormalBoth(beta: seq<nat>, o: S.Outcome, o': L.Outcome)
    requires OutRel(beta, o, o')
    ensures o.Normal? <==> o'.Normal?
    ensures o.Normal? ==> ValRel(beta, o.v, o'.v)
  {
  }

  lemma StepSize(fr: Frame, beta: seq<nat>, store: S.Store, st: L.State,
                 beta': seq<nat>, store': S.Store, st': L.State)
    requires Step(beta, fr.locs, store, st, beta', store', st')
    ensures |st'.scope| == |st.scope|
  {
  }

  lemma SeqEnd(fr: Frame, n0: nat, beta: seq<nat>, store: S.Store, st: L.State, beta': seq<nat>, r: S.Res, r': L.Res)
    requires Ready(fr, beta, store, st) && Done(fr, beta, store, st, beta', r, r') && n0 <= |st.scope|
    ensures DoneSeq(fr, n0, beta, store, st, beta', fr.locs, r, r')
  {
  }

  lemma SeqAfter(fr: Frame, n0: nat, b0: seq<nat>, s0: S.Store, t0: L.State, b1: seq<nat>, s1: S.Store, t1: L.State,
                 b2: seq<nat>, locs2: seq<nat>, r: S.Res, r': L.Res)
    requires Step(b0, fr.locs, s0, t0, b1, s1, t1) && DoneSeq(fr, n0, b1, s1, t1, b2, locs2, r, r')
    requires n0 <= |t0.scope| && n0 <= |fr.locs|
    ensures DoneSeq(fr, n0, b0, s0, t0, b2, locs2, r, r')
  {
    SeqChain(fr, fr, n0, b0, s0, t0, b1, s1, t1, b2, locs2, r, r');
  }

  lemma SeqChain(fr0: Frame, fr1: Frame, n0: nat, b0: seq<nat>, s0: S.Store, t0: L.State,
                 b1: seq<nat>, s1: S.Store, t1: L.State, b2: seq<nat>, locs2: seq<nat>, r: S.Res, r': L.Res)
    requires DoneSeq(fr1, n0, b1, s1, t1, b2, locs2, r, r') && Untouched(b0, fr0.locs, s0, b1, s1)
    requires n0 <= |t0.scope| && n0 <= |fr0.locs| && SameNames(t0.scope[..n0], t1.scope[..n0])
    requires fr1.locs[..n0] == fr0.locs[..n0] && forall l | l in fr1.locs :: l in fr0.locs || l >= |s0|
    ensures DoneSeq(fr0, n0, b0, s0, t0, b2, locs2, r, r')
  {
  }

  lemma {:induction false} RunLet(host: S.Host, fuel: nat, fr: Frame, fp: nat, n0: nat, b: seq<S.Stmt>, ts: seq<L.Step>,
                                  v: S.Val, w: L.Val, beta: seq<nat>, store: S.Store, st: L.State)
      returns (beta': seq<nat>, locs': seq<nat>)
    requires b != [] && b[0].Let? && fr.env != [] && Ready(fr, beta, store, st)
    requires S.WellFormedB(b) && LoweredB(fr.stack, fp, b, ts) && S.FreeB(b) <= fr.known
    requires n0 <= |st.scope| && |st.scope| + fp == |fr.stack| + n0
    ensures DoneSeq(fr, n0, beta, store, st, beta', locs', S.EvalSeq(host, fuel, b, v, fr.env, store),
                    L.EvalSeq(host, fuel, ts, w, st))
    decreases fuel, b, 0
  {
    FirstParts(fr, fp, b, ts);
    var s, t := b[0], ts[0];
    LetParts(fr, fp, s, t);
    hide Rel, SameNames, Untouched, Known, Aligned, ValRel, LoweredS, LoweredB, LoweredE, Ready, Step, DoneSeq, OutRel, Resolves;
    var b1 := RunE(host, fuel, fr, s.e, t.e, beta, store, st);
    var r, r' := S.EvalE(host, fuel, s.e, fr.env, store), L.EvalE(host, fuel, t.e, st);
    beta', locs' := b1, fr.locs;
    NormalBoth(b1, r.o, r'.o);
    if r.o.Normal? {
      ReadyAfter(fr, beta, store, st, b1, r.store, r'.st);
      StepSize(fr, beta, store, st, b1, r.store, r'.st);
      var c, d := S.Cell(s.isConst, r.o.v), L.Cell(s.isConst, r'.o.v);
      var fr1, st1 := DefineBoth(fr, fp, n0, b1, r.store, r'.st, t, c, d);
      assert L.EvalS(host, fuel, t, st) == L.Res(L.Normal(L.UnitV), st1);
      IntRel(b1, 0);
      beta', locs' := RunSeq(host, fuel, fr1, fp, n0, b[1..], ts[1..], S.UnitV, L.UnitV, b1, r.store + [c], st1);
      var q := S.EvalSeq(host, fuel, b[1..], S.UnitV, fr1.env, r.store + [c]);
      var q' := L.EvalSeq(host, fuel, ts[1..], L.UnitV, st1);
      DefineAfter(fr, fr1, n0, b1, r.store, r'.st, c, st1, beta', locs', q, q');
      SeqAfter(fr, n0, beta, store, st, b1, r.store, r'.st, beta', locs', q, q');
    } else {
      SeqEnd(fr, n0, beta, store, st, b1, r, r');
    }
  }

  lemma LetParts(fr: Frame, fp: nat, s: S.Stmt, t: L.Step)
    requires s.Let? && LoweredS(fr.stack, fp, s, t) && S.WellFormedS(s) && S.FreeS(s) <= fr.known
    ensures t.Let? && t.x == s.x && t.isConst == s.isConst && LoweredE(fr.stack, s.e, t.e)
    ensures SlotFor(fr.stack, fp, t.x, t.slot) && S.WellFormedE(s.e) && S.FreeE(s.e) <= fr.known
  {
  }

  // A definition, in a new slot or in the one it had.
  lemma DefineBoth(fr: Frame, fp: nat, n0: nat, beta: seq<nat>, store: S.Store, st: L.State, t: L.Step,
                   c: S.Cell, d: L.Cell) returns (fr1: Frame, st1: L.State)
    requires Ready(fr, beta, store, st) && fr.env != [] && t.Let? && CellRel(beta, c, d)
    requires SlotFor(fr.stack, fp, t.x, t.slot) && n0 <= |st.scope| && |st.scope| + fp == |fr.stack| + n0
    ensures L.Define(st, t.x, t.slot, d) == L.Res(L.Normal(L.UnitV), st1)
    ensures Ready(fr1, beta, store + [c], st1) && fr1.known == fr.known + {t.x} && fr1.stack == After(fr.stack, t)
    ensures fr1.env == S.Bind(fr.env, t.x, |store|) && fr1.env != [] && |st1.scope| + fp == |fr1.stack| + n0
    ensures n0 <= |st1.scope| && |fr.locs| == |st.scope| && |fr1.locs| == |st1.scope|
    ensures st1.scope[..n0] == st.scope[..n0] && fr1.locs[..n0] == fr.locs[..n0]
    ensures forall l | l in fr1.locs :: l in fr.locs || l == |store|
  {
    assert |fr.locs| == |st.scope|;
    hide Ready, Rel, Known, Aligned, CellRel, Resolves;
    if t.slot.Some? {
      var k := |st.scope| - t.slot.value;
      DefineAgain(fr, beta, store, st, t, c, d);
      fr1 := Defined(fr, t, |store|, k);
      st1 := st.(scope := st.scope[k := L.Entry(t.x, L.Own(d))]);
    } else {
      DefineNew(fr, beta, store, st, t, c, d);
      fr1 := Defined(fr, t, |store|, -1);
      st1 := L.Push(st, t.x, L.Own(d));
    }
  }

  lemma DefineAfter(fr: Frame, fr1: Frame, n0: nat, beta: seq<nat>, store: S.Store, st: L.State, c: S.Cell, st1: L.State,
                    beta': seq<nat>, locs': seq<nat>, r: S.Res, r': L.Res)
    requires DoneSeq(fr1, n0, beta, store + [c], st1, beta', locs', r, r') && Rel(beta, fr.locs, store, st)
    requires n0 <= |st.scope| && n0 <= |st1.scope| && n0 <= |fr1.locs|
    requires st1.scope[..n0] == st.scope[..n0] && fr1.locs[..n0] == fr.locs[..n0]
    requires forall l | l in fr1.locs :: l in fr.locs || l == |store|
    ensures DoneSeq(fr, n0, beta, store, st, beta', locs', r, r')
  {
    SeqChain(fr, fr1, n0, beta, store, st, beta, store + [c], st1, beta', locs', r, r');
  }

  // A statement that defines nothing.
  lemma {:induction false} RunS(host: S.Host, fuel: nat, fr: Frame, fp: nat, s: S.Stmt, t: L.Step,
                                beta: seq<nat>, store: S.Store, st: L.State) returns (beta': seq<nat>)
    requires !s.Let? && S.WellFormedS(s) && LoweredS(fr.stack, fp, s, t) && S.FreeS(s) <= fr.known
    requires Ready(fr, beta, store, st)
    ensures Done(fr, beta, store, st, beta', S.EvalS(host, fuel, s, fr.env, store), L.EvalS(host, fuel, t, st))
    decreases fuel, s, 1
  {
    hide Rel, SameNames, Untouched, Known, Aligned, ValRel, LoweredE, LoweredB, Resolves;
    match s
    case ExprS(e) => beta' := RunE(host, fuel, fr, e, t.e, beta, store, st);
    case Assign(x, e) =>
      beta' := RunE(host, fuel, fr, e, t.e, beta, store, st);
      var r, r' := S.EvalE(host, fuel, e, fr.env, store), L.EvalE(host, fuel, t.e, st);
      if r.o.Normal? {
        ReadyAfter(fr, beta, store, st, beta', r.store, r'.st);
        AssignBoth(fr, beta', r.store, r'.st, t.v, r.o.v, r'.o.v);
        IntRel(beta', -1);
        var l, k := S.Find(fr.env, x), L.Locate(r'.st.scope, t.v);
        if !(l.None? || l.value >= |r.store| || r.store[l.value].isConst) {
          StepTrans(beta, fr.locs, store, st, beta', r.store, r'.st, beta',
            S.SetCell(r.store, l.value, r.o.v), L.Write(r'.st, k, r'.o.v));
        }
      }
    case If(_, _, _) => beta' := RunIf(host, fuel, fr, fp, s, t, beta, store, st);
    case While(_, _) => beta' := RunWhile(host, fuel, fr, fp, s, t, beta, store, st);
    case For(_, _, _, _) => beta' := RunFor(host, fuel, fr, fp, s, t, beta, store, st);
    case Try(_, _, _) => beta' := RunTry(host, fuel, fr, fp, s, t, beta, store, st);
    case Block(b) => beta' := RunBlock(host, fuel, fr, b, t.b, beta, store, st);
    case Break => beta' := beta; StepRefl(beta, fr.locs, store, st);
    case Continue => beta' := beta; StepRefl(beta, fr.locs, store, st);
    case Return(e) => beta' := RunE(host, fuel, fr, e, t.e, beta, store, st);
    case Throw(e) => beta' := RunE(host, fuel, fr, e, t.e, beta, store, st);
  }

  lemma IsInt(beta: seq<nat>, v: S.Val, w: L.Val)
    requires ValRel(beta, v, w)
    ensures v.IntV? <==> w.IntV?
    ensures v.IntV? ==> w.n == v.n
    ensures OutRel(beta, S.Failure, L.Failure)
  {
  }

  lemma {:induction false} RunIf(host: S.Host, fuel: nat, fr: Frame, fp: nat, s: S.Stmt, t: L.Step,
                                 beta: seq<nat>, store: S.Store, st: L.State) returns (beta': seq<nat>)
    requires s.If? && S.WellFormedS(s) && LoweredS(fr.stack, fp, s, t) && S.FreeS(s) <= fr.known
    requires Ready(fr, beta, store, st)
    ensures Done(fr, beta, store, st, beta', S.EvalS(host, fuel, s, fr.env, store), L.EvalS(host, fuel, t, st))
    decreases fuel, s, 0
  {
    hide Rel, SameNames, Untouched, Known, Aligned, ValRel, LoweredE, LoweredB, Resolves;
    beta' := RunE(host, fuel, fr, s.cond, t.cond, beta, store, st);
    var r, r' := S.EvalE(host, fuel, s.cond, fr.env, store), L.EvalE(host, fuel, t.cond, st);
    if r.o.Normal? {
      IsInt(beta', r.o.v, r'.o.v);
      if r.o.v.IntV? {
        var b1 := beta';
        ReadyAfter(fr, beta, store, st, b1, r.store, r'.st);
        if r.o.v.n != 0 {
          beta' := RunBlock(host, fuel, fr, s.body, t.body, b1, r.store, r'.st);
          DoneAfter(fr, beta, store, st, b1, r.store, r'.st, beta',
            S.EvalBlock(host, fuel, s.body, fr.env, r.store), L.EvalBlock(host, fuel, t.body, r'.st));
        } else {
          beta' := RunBlock(host, fuel, fr, s.branch, t.branch, b1, r.store, r'.st);
          DoneAfter(fr, beta, store, st, b1, r.store, r'.st, beta',
            S.EvalBlock(host, fuel, s.branch, fr.env, r.store), L.EvalBlock(host, fuel, t.branch, r'.st));
        }
      }
    }
  }

  lemma {:induction false} RunWhile(host: S.Host, fuel: nat, fr: Frame, fp: nat, s: S.Stmt, t: L.Step,
                                    beta: seq<nat>, store: S.Store, st: L.State) returns (beta': seq<nat>)
    requires s.While? && S.WellFormedS(s) && LoweredS(fr.stack, fp, s, t) && S.FreeS(s) <= fr.known
    requires Ready(fr, beta, store, st)
    ensures Done(fr, beta, store, st, beta', S.EvalS(host, fuel, s, fr.env, store), L.EvalS(host, fuel, t, st))
    decreases fuel, s, 0
  {
    hide Rel, SameNames, Untouched, Known, Aligned, ValRel, LoweredE, LoweredB, Resolves;
    beta' := beta;
    StepRefl(beta, fr.locs, store, st);
    if fuel > 0 {
      var b1 := RunE(host, fuel, fr, s.cond, t.cond, beta, store, st);
      var r, r' := S.EvalE(host, fuel, s.cond, fr.env, store), L.EvalE(host, fuel, t.cond, st);
      beta' := b1;
      IntRel(b1, 0);
      if r.o.Normal? {
        IsInt(b1, r.o.v, r'.o.v);
        if r.o.v.IntV? && r.o.v.n != 0 {
          ReadyAfter(fr, beta, store, st, b1, r.store, r'.st);
          var b2 := RunBlock(host, fuel, fr, s.body, t.body, b1, r.store, r'.st);
          var r2, r2' := S.EvalBlock(host, fuel, s.body, fr.env, r.store), L.EvalBlock(host, fuel, t.body, r'.st);
          DoneAfter(fr, beta, store, st, b1, r.store, r'.st, b2, r2, r2');
          beta' := b2;
          IntRel(b2, 0);
          if r2.o.Normal? || r2.o.Continued? {
            ReadyAfter(fr, beta, store, st, b2, r2.store, r2'.st);
            beta' := RunWhile(host, fuel - 1, fr, fp, s, t, b2, r2.store, r2'.st);
            DoneAfter(fr, beta, store, st, b2, r2.store, r2'.st, beta',
              S.EvalS(host, fuel - 1, s, fr.env, r2.store), L.EvalS(host, fuel - 1, t, r2'.st));
          }
        }
      }
    }
  }

  lemma {:induction false} RunTry(host: S.Host, fuel: nat, fr: Frame, fp: nat, s: S.Stmt, t: L.Step,
                                  beta: seq<nat>, store: S.Store, st: L.State) returns (beta': seq<nat>)
    requires s.Try? && S.WellFormedS(s) && LoweredS(fr.stack, fp, s, t) && S.FreeS(s) <= fr.known
    requires Ready(fr, beta, store, st)
    ensures Done(fr, beta, store, st, beta', S.EvalS(host, fuel, s, fr.env, store), L.EvalS(host, fuel, t, st))
    decreases fuel, s, 0
  {
    var b1 := RunBlock(host, fuel, fr, s.body, t.body, beta, store, st);
    var r, r' := S.EvalBlock(host, fuel, s.body, fr.env, store), L.EvalBlock(host, fuel, t.body, st);
    beta' := b1;
    if r.o.Threw? {
      ReadyAfter(fr, beta, store, st, b1, r.store, r'.st);
      var r2, r2';
      if s.catchVar.Some? {
        beta', r2, r2' := RunCatch(host, fuel, fr, s.catchVar.value, s.branch, t.branch, b1, r.store, r'.st, r.o.v, r'.o.v);
      } else {
        assert fr.stack + [] == fr.stack;
        beta' := RunBlock(host, fuel, fr, s.branch, t.branch, b1, r.store, r'.st);
        r2, r2' := S.EvalBlock(host, fuel, s.branch, fr.env, r.store), L.EvalBlock(host, fuel, t.branch, r'.st);
        RewindNothing(fr, b1, r.store, r'.st, beta', r2, r2');
      }
      DoneAfter(fr, beta, store, st, b1, r.store, r'.st, beta', r2, r2');
      CatchBoth(b1, beta', r.o, r'.o, r2, r2'.o);
    }
  }

  lemma RewindNothing(fr: Frame, beta: seq<nat>, store: S.Store, st: L.State, beta': seq<nat>, r: S.Res, r': L.Res)
    requires Done(fr, beta, store, st, beta', r, r')
    ensures L.Rewind(r', |st.scope|) == r'
  {
    assert r'.st.scope[..|st.scope|] == r'.st.scope;
  }

  lemma CatchBoth(beta: seq<nat>, beta': seq<nat>, caught: S.Outcome, caught': L.Outcome, r: S.Res, o': L.Outcome)
    requires OutRel(beta, caught, caught') && beta <= beta' && OutRel(beta', r.o, o') && caught.Threw?
    ensures OutRel(beta', S.CatchResult(caught, r).o, L.CatchOutcome(caught', o'))
    ensures S.CatchResult(caught, r).store == r.store
  {
    ValGrows(beta, beta', caught.v, caught'.v);
  }

  // The `catch` block, with a variable for what was caught.
  lemma {:induction false} RunCatch(host: S.Host, fuel: nat, fr: Frame, x: string, b: seq<S.Stmt>, ts: seq<L.Step>,
                                    beta: seq<nat>, store: S.Store, st: L.State, v: S.Val, w: L.Val)
      returns (beta': seq<nat>, r: S.Res, r': L.Res)
    requires S.WellFormedB(b) && LoweredB(fr.stack + [x], |fr.stack| + 1, b, ts) && S.FreeB(b) - {x} <= fr.known
    requires Ready(fr, beta, store, st) && ValRel(beta, v, w)
    ensures r == S.EvalBlock(host, fuel, b, fr.env + [map[x := |store|]], store + [S.Cell(false, v)])
    ensures r' == L.Rewind(L.EvalBlock(host, fuel, ts, L.Push(st, x, L.Own(L.Cell(false, w)))), |st.scope|)
    ensures Done(fr, beta, store, st, beta', r, r')
    decreases fuel, b, 3
  {
    var c, d := S.Cell(false, v), L.Cell(false, w);
    var frame: map<string, nat> := map[x := |store|];
    forall y | y in fr.known && y != x
      ensures FoundSame(fr.env + [frame - {x}], fr.locs, st.scope, y)
    {
      assert FoundSame(fr.env, fr.locs, st.scope, y);
      FindPush(fr.env, frame - {x}, y);
    }
    Entered(fr, beta, store, st, frame, x, c, d);
    var fr1 := Frame(fr.known + {x}, fr.stack + [x], fr.env + [frame], fr.locs + [|store|]);
    var st1 := L.Push(st, x, L.Own(d));
    beta' := RunBlock(host, fuel, fr1, b, ts, beta, store + [c], st1);
    r := S.EvalBlock(host, fuel, b, fr1.env, store + [c]);
    var r1 := L.EvalBlock(host, fuel, ts, st1);
    r' := L.Rewind(r1, |st.scope|);
    Leave(fr, fr1, beta, store, st, store + [c], st1, beta', r, r1);
  }

  // Leaving a frame whose variables are on top of the scope.
  lemma Leave(fr: Frame, fr1: Frame, beta: seq<nat>, store: S.Store, st: L.State, store1: S.Store, st1: L.State,
              beta': seq<nat>, r: S.Res, r1: L.Res)
    requires Ready(fr, beta, store, st) && Done(fr1, beta, store1, st1, beta', r, r1) && store <= store1
    requires |st.scope| <= |st1.scope| && st1.scope[..|st.scope|] == st.scope && |fr.locs| <= |fr1.locs|
    requires fr1.locs[..|fr.locs|] == fr.locs && forall l | l in fr1.locs :: l in fr.locs || l >= |store|
    ensures Done(fr, beta, store, st, beta', r, L.Rewind(r1, |st.scope|))
  {
    RewindRel(beta', fr1.locs, r.store, r1.st, |st.scope|);
    assert fr1.locs[..|st.scope|] == fr.locs;
    forall i | 0 <= i < |st.scope|
      ensures r1.st.scope[..|st.scope|][i].name == st.scope[i].name
    {
      assert st1.scope[i] == st1.scope[..|st.scope|][i];
    }
  }

  // ---- for ----

  function LoopFr(fr: Frame, s: S.Stmt, base: nat): Frame
    requires s.For?
  {
    if s.counter.Some? then
      Frame(fr.known + {s.counter.value} + {s.x}, fr.stack + [s.counter.value] + [s.x],
            fr.env + [S.LoopFrame(s, base)], fr.locs + [base] + [base + 1])
    else
      Frame(fr.known + {s.x}, fr.stack + [s.x], fr.env + [S.LoopFrame(s, base)], fr.locs + [base])
  }

  lemma EnterLoop(fr: Frame, s: S.Stmt, t: L.Step, beta: seq<nat>, store: S.Store, st: L.State)
    requires s.For? && t.For? && t.x == s.x && t.counter == s.counter && s.counter != Some(s.x)
    requires Ready(fr, beta, store, st)
    ensures Ready(LoopFr(fr, s, |store|), beta, store + S.LoopCells(s), L.PushLoopVars(t, st))
  {
    var base := |store|;
    var x, frame := s.x, S.LoopFrame(s, base);
    if s.counter.Some? {
      var n := s.counter.value;
      var frame1: map<string, nat> := map[n := base];
      Outer(fr, beta, store, st, frame1, n);
      Entered(fr, beta, store, st, frame1, n, S.Cell(false, S.IntV(0)), L.Cell(false, L.IntV(0)));
      var fr1 := Frame(fr.known + {n}, fr.stack + [n], fr.env, fr.locs + [base]);
      var st1 := L.Push(st, n, L.Own(L.Cell(false, L.IntV(0))));
      var store1 := store + [S.Cell(false, S.IntV(0))];
      assert frame - {x} == frame1;
      Entered(fr1, beta, store1, st1, frame, x, S.Cell(false, S.UnitV), L.Cell(false, L.UnitV));
      assert store1 + [S.Cell(false, S.UnitV)] == store + S.LoopCells(s);
    } else {
      Outer(fr, beta, store, st, frame, x);
      Entered(fr, beta, store, st, frame, x, S.Cell(false, S.UnitV), L.Cell(false, L.UnitV));
    }
  }

  lemma Outer(fr: Frame, beta: seq<nat>, store: S.Store, st: L.State, frame: map<string, nat>, x: string)
    requires Ready(fr, beta, store, st) && frame.Keys == {x}
    ensures forall y | y in fr.known && y != x :: FoundSame(fr.env + [frame - {x}], fr.locs, st.scope, y)
  {
    forall y | y in fr.known && y != x
      ensures FoundSame(fr.env + [frame - {x}], fr.locs, st.scope, y)
    {
      assert FoundSame(fr.env, fr.locs, st.scope, y);
      FindPush(fr.env, frame - {x}, y);
    }
  }

  // The loop variables are entries `at` on and cells `base` on.
  ghost predicate LoopVars(fr: Frame, s: S.Stmt, base: nat, at: nat) {
    s.For? && at < |fr.locs| && fr.locs[at] == base &&
    (s.counter.Some? ==> at + 1 < |fr.locs| && fr.locs[at + 1] == base + 1)
  }

  lemma SetLoop(fr: Frame, s: S.Stmt, t: L.Step, i: nat, base: nat, at: nat, beta: seq<nat>, store: S.Store, st: L.State)
      returns (store1: S.Store, st1: L.State)
    requires LoopVars(fr, s, base, at) && t.For? && t.counter == s.counter && Ready(fr, beta, store, st)
    ensures store1 == if s.counter.Some? then S.SetCell(S.SetCell(store, base, S.IntV(i)), base + 1, S.IntV(i))
                      else S.SetCell(store, base, S.IntV(i))
    ensures st1 == L.SetLoopVars(t, i, at, st)
    ensures Step(beta, fr.locs, store, st, beta, store1, st1)
  {
    var store0, st0 := S.SetCell(store, base, S.IntV(i)), L.Write(st, at, L.IntV(i));
    WriteRel(beta, fr.locs, store, st, at, S.IntV(i), L.IntV(i));
    if s.counter.Some? {
      store1, st1 := S.SetCell(store0, base + 1, S.IntV(i)), L.Write(st0, at + 1, L.IntV(i));
      WriteRel(beta, fr.locs, store0, st0, at + 1, S.IntV(i), L.IntV(i));
      StepTrans(beta, fr.locs, store, st, beta, store0, st0, beta, store1, st1);
    } else {
      store1, st1 := store0, st0;
    }
  }

  lemma {:induction false} RunRounds(host: S.Host, fuel: nat, fr: Frame, s: S.Stmt, t: L.Step, i: nat, n: int,
                                     base: nat, at: nat, beta: seq<nat>, store: S.Store, st: L.State)
      returns (beta': seq<nat>)
    requires LoopVars(fr, s, base, at) && t.For? && t.counter == s.counter && Ready(fr, beta, store, st)
    requires S.WellFormedB(s.body) && LoweredB(fr.stack, |fr.stack|, s.body, t.body) && S.FreeB(s.body) <= fr.known
    ensures Done(fr, beta, store, st, beta', S.EvalFor(host, fuel, s, i, n, base, fr.env, store),
                 L.EvalFor(host, fuel, t, i, n, at, st))
    decreases fuel, s.body, 4, n - i
  {
    hide Rel, SameNames, Untouched, Known, Aligned, ValRel, LoweredB, S.LoopFrame;
    beta' := beta;
    StepRefl(beta, fr.locs, store, st);
    IntRel(beta, 0);
    if i < n {
      var store1, st1 := SetLoop(fr, s, t, i, base, at, beta, store, st);
      ReadyAfter(fr, beta, store, st, beta, store1, st1);
      var b1 := RunBlock(host, fuel, fr, s.body, t.body, beta, store1, st1);
      var r, r' := S.EvalBlock(host, fuel, s.body, fr.env, store1), L.EvalBlock(host, fuel, t.body, st1);
      DoneAfter(fr, beta, store, st, beta, store1, st1, b1, r, r');
      beta' := b1;
      IntRel(b1, 0);
      if r.o.Normal? || r.o.Continued? {
        ReadyAfter(fr, beta, store, st, b1, r.store, r'.st);
        beta' := RunRounds(host, fuel, fr, s, t, i + 1, n, base, at, b1, r.store, r'.st);
        DoneAfter(fr, beta, store, st, b1, r.store, r'.st, beta',
          S.EvalFor(host, fuel, s, i + 1, n, base, fr.env, r.store), L.EvalFor(host, fuel, t, i + 1, n, at, r'.st));
      }
    }
  }

  lemma {:induction false} RunFor(host: S.Host, fuel: nat, fr: Frame, fp: nat, s: S.Stmt, t: L.Step,
                                  beta: seq<nat>, store: S.Store, st: L.State) returns (beta': seq<nat>)
    requires s.For? && S.WellFormedS(s) && LoweredS(fr.stack, fp, s, t) && S.FreeS(s) <= fr.known
    requires Ready(fr, beta, store, st)
    ensures Done(fr, beta, store, st, beta', S.EvalS(host, fuel, s, fr.env, store), L.EvalS(host, fuel, t, st))
    decreases fuel, s, 0
  {
    var b1 := RunE(host, fuel, fr, s.count, t.count, beta, store, st);
    var r, r' := S.EvalE(host, fuel, s.count, fr.env, store), L.EvalE(host, fuel, t.count, st);
    beta' := b1;
    if r.o.Normal? {
      IsInt(b1, r.o.v, r'.o.v);
      if r.o.v.IntV? {
        ReadyAfter(fr, beta, store, st, b1, r.store, r'.st);
        var q, q';
        beta', q, q' := RunLoop(host, fuel, fr, s, t, r.o.v.n, b1, r.store, r'.st);
        DoneAfter(fr, beta, store, st, b1, r.store, r'.st, beta', q, q');
      }
    }
  }

  lemma LoopShape(fr: Frame, s: S.Stmt, t: L.Step, beta: seq<nat>, store: S.Store, st: L.State)
    requires s.For? && t.For? && t.x == s.x && t.counter == s.counter && Ready(fr, beta, store, st)
    ensures var fr1, st1 := LoopFr(fr, s, |store|), L.PushLoopVars(t, st);
      fr1.stack == fr.stack + Single(s.counter) + [s.x] && LoopVars(fr1, s, |store|, |st.scope|) &&
      fr1.known == fr.known + {s.x} + S.Named(s.counter) &&
      |st.scope| <= |st1.scope| && st1.scope[..|st.scope|] == st.scope && |fr.locs| <= |fr1.locs| &&
      fr1.locs[..|fr.locs|] == fr.locs && forall l | l in fr1.locs :: l in fr.locs || l >= |store|
  {
  }

  lemma {:induction false} RunLoop(host: S.Host, fuel: nat, fr: Frame, s: S.Stmt, t: L.Step, n: int,
                                   beta: seq<nat>, store: S.Store, st: L.State)
      returns (beta': seq<nat>, r: S.Res, r': L.Res)
    requires s.For? && t.For? && t.x == s.x && t.counter == s.counter && s.counter != Some(s.x)
    requires var inner := fr.stack + Single(s.counter) + [s.x];
      S.WellFormedB(s.body) && LoweredB(inner, |inner|, s.body, t.body) &&
      S.FreeB(s.body) - {s.x} - S.Named(s.counter) <= fr.known
    requires Ready(fr, beta, store, st)
    ensures r == S.EvalFor(host, fuel, s, 0, n, |store|, fr.env + [S.LoopFrame(s, |store|)], store + S.LoopCells(s))
    ensures r' == L.Rewind(L.EvalFor(host, fuel, t, 0, n, |st.scope|, L.PushLoopVars(t, st)), |st.scope|)
    ensures Done(fr, beta, store, st, beta', r, r')
    decreases fuel, s.body, 5
  {
    var base, at := |store|, |st.scope|;
    EnterLoop(fr, s, t, beta, store, st);
    LoopShape(fr, s, t, beta, store, st);
    hide Rel, SameNames, Untouched, Known, Aligned, ValRel, LoweredB, Ready, Done;
    var fr1, store1, st1 := LoopFr(fr, s, base), store + S.LoopCells(s), L.PushLoopVars(t, st);
    beta' := RunRounds(host, fuel, fr1, s, t, 0, n, base, at, beta, store1, st1);
    r := S.EvalFor(host, fuel, s, 0, n, base, fr1.env, store1);
    var r1 := L.EvalFor(host, fuel, t, 0, n, at, st1);
    r' := L.Rewind(r1, at);
    Leave(fr, fr1, beta, store, st, store1, st1, beta', r, r1);
  }

  // ---- whole scripts ----

  // Variables that the host provides, with integer values.
  type HostScope = seq<(string, bool, int)>

  function HostEntries(vars: HostScope): seq<L.Entry> {
    seq(|vars|, i requires 0 <= i < |vars| => L.Entry(vars[i].0, L.Own(L.Cell(vars[i].1, L.IntV(vars[i].2)))))
  }

  function HostStore(vars: HostScope): S.Store {
    seq(|vars|, i requires 0 <= i < |vars| => S.Cell(vars[i].1, S.IntV(vars[i].2)))
  }

  // The last variable of a name is the one that is seen.
  function HostFrame(vars: HostScope): map<string, nat> {
    if vars == [] then map[] else HostFrame(vars[..|vars| - 1])[vars[|vars| - 1].0 := |vars| - 1]
  }

  function Identity(n: nat): seq<nat> {
    seq(n, i => i)
  }

  lemma {:induction false} HostFound(vars: HostScope, x: string)
    ensures var k := L.Search(HostEntries(vars), x);
      if k < 0 then x !in HostFrame(vars) else x in HostFrame(vars) && HostFrame(vars)[x] == k
  {
    if vars != [] {
      var rest := vars[..|vars| - 1];
      assert HostEntries(vars)[..|vars| - 1] == HostEntries(rest);
      HostFound(rest, x);
    }
  }

  lemma HostRel(vars: HostScope)
    ensures Rel([], Identity(|vars|), HostStore(vars), L.State(HostEntries(vars), []))
  {
  }

  lemma HostKnown(vars: HostScope, x: string)
    ensures FoundSame([HostFrame(vars), map[]], Identity(|vars|), HostEntries(vars), x)
  {
    HostFound(vars, x);
    FindPush([], HostFrame(vars), x);
    FindPush([HostFrame(vars)], map[], x);
    assert [] + [HostFrame(vars)] == [HostFrame(vars)] && [HostFrame(vars)] + [map[]] == [HostFrame(vars), map[]];
  }

  lemma HostReady(vars: HostScope, known: set<string>)
    ensures Ready(Frame(known, [], [HostFrame(vars), map[]], Identity(|vars|)), [], HostStore(vars),
                  L.State(HostEntries(vars), []))
  {
    HostRel(vars);
    forall x | x in known
      ensures FoundSame([HostFrame(vars), map[]], Identity(|vars|), HostEntries(vars), x)
    {
      HostKnown(vars, x);
    }
  }

  // A parsed script, run in the scope of a host, ends as the written script does, and leaves the
  // host's variables with the same values.
  ghost predicate SameMeaning(b: seq<S.Stmt>, ts: seq<L.Step>) {
    forall host: S.Host, fuel: nat, vars: HostScope :: SameRun(b, ts, host, fuel, vars)
  }

  ghost predicate SameRun(b: seq<S.Stmt>, ts: seq<L.Step>, host: S.Host, fuel: nat, vars: HostScope) {
    var r := S.EvalSeq(host, fuel, b, S.UnitV, [HostFrame(vars), map[]], HostStore(vars));
    var r' := L.EvalSeq(host, fuel, ts, L.UnitV, L.State(HostEntries(vars), []));
    (exists beta: seq<nat>, locs: seq<nat> :: SameEnd(beta, locs, |vars|, r, r')) &&
    |vars| <= |r.store| && |vars| <= |r'.st.scope| &&
    forall i | 0 <= i < |vars| :: HostVarSame(r.store, r'.st, i)
  }

  // The result is the same over the cells the two runs end with: every heap cell stands for a cell of
  // the script and every variable left on the stack too, the host's for its own.
  ghost predicate SameEnd(beta: seq<nat>, locs: seq<nat>, hosts: nat, r: S.Res, r': L.Res) {
    OutRel(beta, r.o, r'.o) && Rel(beta, locs, r.store, r'.st) &&
    hosts <= |locs| && forall i | 0 <= i < hosts :: locs[i] == i
  }

  ghost predicate HostVarSame(store: S.Store, st: L.State, i: nat)
    requires i < |store| && i < |st.scope|
  {
    var c, d := store[i], L.CellAt(st, st.scope[i].bind);
    d.isConst == c.isConst && (c.v.IntV? <==> d.v.IntV?) && (c.v.IntV? ==> d.v.n == c.v.n)
  }

  lemma ScriptRun(b: seq<S.Stmt>, ts: seq<L.Step>, host: S.Host, fuel: nat, vars: HostScope)
    requires S.WellFormedB(b) && LoweredB([], 0, b, ts)
    ensures SameRun(b, ts, host, fuel, vars)
  {
    var fr := Frame(S.FreeB(b), [], [HostFrame(vars), map[]], Identity(|vars|));
    var st := L.State(HostEntries(vars), []);
    HostReady(vars, S.FreeB(b));
    IntRel([], 0);
    var beta', locs' := RunSeq(host, fuel, fr, 0, |vars|, b, ts, S.UnitV, L.UnitV, [], HostStore(vars), st);
    var r := S.EvalSeq(host, fuel, b, S.UnitV, fr.env, HostStore(vars));
    var r' := L.EvalSeq(host, fuel, ts, L.UnitV, st);
    forall i | 0 <= i < |vars|
      ensures HostVarSame(r.store, r'.st, i)
    {
      assert locs'[..|vars|][i] == i;
      ReadRel(beta', locs', r.store, r'.st, i);
      IsInt(beta', r.store[i].v, L.CellAt(r'.st, r'.st.scope[i].bind).v);
    }
    assert forall i | 0 <= i < |vars| :: locs'[i] == locs'[..|vars|][i] == i;
    assert SameEnd(beta', locs', |vars|, r, r');
  }

  // Parsing keeps the meaning of every well-formed script.
  method ParseFaithfully(b: seq<S.Stmt>) returns (ts: seq<L.Step>)
    requires S.WellFormedB(b)
    ensures SameMeaning(b, ts)
  {
    ts := ParseScript(b);
    forall host: S.Host, fuel: nat, vars: HostScope
      ensures SameRun(b, ts, host, fuel, vars)
    {
      ScriptRun(b, ts, host, fuel, vars);
    }
  }
}
