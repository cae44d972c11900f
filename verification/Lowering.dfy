// A parsed script means what it says: running it with distances, additional parameters and shared
// cells gives what the names, environments and cells of the written script give.
//
// `beta` tells which cell of the written script each heap cell stands for, `locs` which cell each
// entry of the scope stands for.

module Lowering {
  import opened Options
  import S = Script
  import L = Lowered
  import opened Capture

  // ---- when the two sides agree ----

  ghost predicate ValRel(beta: seq<nat>, v: S.Val, w: L.Val) {
    match v
    case UnitV => w == L.UnitV
    case IntV(n) => w == L.IntV(n)
    case FnV(params, body, env) =>
      w.FnV? && S.WellFormedE(S.Fn(params, body)) && w.params == Captured(params, body) + params &&
      LoweredB(params, |params|, body, w.body) && CurryRel(beta, Captured(params, body), env, w.curry)
  }

  // The curried arguments are the very cells that the captured names have in the environment.
  ghost predicate CurryRel(beta: seq<nat>, names: seq<string>, env: S.Env, curry: seq<L.Binding>) {
    |curry| == |names| && forall i | 0 <= i < |names| ::
      curry[i].Shared? && curry[i].l < |beta| && S.Find(env, names[i]) == Some(beta[curry[i].l])
  }

  ghost predicate ValsRel(beta: seq<nat>, vs: seq<S.Val>, ws: seq<L.Val>) {
    |ws| == |vs| && forall i | 0 <= i < |vs| :: ValRel(beta, vs[i], ws[i])
  }

  ghost predicate OutRel(beta: seq<nat>, o: S.Outcome, p: L.Outcome) {
    match o
    case Normal(v) => p.Normal? && ValRel(beta, v, p.v)
    case Broke => p.Broke?
    case Continued => p.Continued?
    case Returned(v) => p.Returned? && ValRel(beta, v, p.v)
    case Threw(v) => p.Threw? && ValRel(beta, v, p.v)
    case OutOfFuel => p.OutOfFuel?
  }

  ghost predicate CellRel(beta: seq<nat>, c: S.Cell, d: L.Cell) {
    d.isConst == c.isConst && ValRel(beta, c.v, d.v)
  }

  ghost predicate EntryRel(beta: seq<nat>, store: S.Store, loc: nat, b: L.Binding) {
    loc < |store| &&
    match b
    case Own(c) => loc !in beta && CellRel(beta, store[loc], c)
    case Shared(l) => l < |beta| && beta[l] == loc
  }

  ghost predicate Rel(beta: seq<nat>, locs: seq<nat>, store: S.Store, st: L.State) {
    HeapRel(beta, store, st.heap) && |locs| == |st.scope| &&
    (forall i | 0 <= i < |locs| :: EntryRel(beta, store, locs[i], st.scope[i].bind)) &&
    OwnDistinct(locs, st.scope)
  }

  ghost predicate HeapRel(beta: seq<nat>, store: S.Store, heap: seq<L.Cell>) {
    |beta| == |heap| &&
    (forall l | 0 <= l < |beta| :: beta[l] < |store| && CellRel(beta, store[beta[l]], heap[l])) &&
    (forall l, m | 0 <= l < m < |beta| :: beta[l] != beta[m])
  }

  // No cell is held by two entries on their own.
  ghost predicate OwnDistinct(locs: seq<nat>, scope: seq<L.Entry>)
    requires |locs| == |scope|
  {
    forall i, j | 0 <= i < j < |locs| :: scope[i].bind.Own? && scope[j].bind.Own? ==> locs[i] != locs[j]
  }

  // The names in `known` are found at the same place on both sides.
  ghost predicate Known(known: set<string>, env: S.Env, locs: seq<nat>, scope: seq<L.Entry>) {
    |locs| == |scope| && forall x | x in known :: FoundSame(env, locs, scope, x)
  }

  ghost predicate FoundSame(env: S.Env, locs: seq<nat>, scope: seq<L.Entry>, x: string)
    requires |locs| == |scope|
  {
    var k := L.Search(scope, x);
    S.Find(env, x) == if k < 0 then None else Some(locs[k])
  }

  // The simulated scope of the parser is the top of the real one.
  ghost predicate Aligned(stack: seq<string>, scope: seq<L.Entry>) {
    |stack| <= |scope| && forall i | 0 <= i < |stack| :: scope[|scope| - |stack| + i].name == stack[i]
  }

  ghost predicate SameNames(a: seq<L.Entry>, b: seq<L.Entry>) {
    |b| == |a| && forall i | 0 <= i < |a| :: b[i].name == a[i].name
  }

  // What lies outside the scope and the heap is left alone.
  ghost predicate Untouched(beta: seq<nat>, locs: seq<nat>, store: S.Store, beta': seq<nat>, store': S.Store) {
    |store| <= |store'| && beta <= beta' &&
    forall r | 0 <= r < |store| && r !in beta && r !in locs :: r !in beta' && store'[r] == store[r]
  }

  // From one pair of states to the next.
  ghost predicate Step(beta: seq<nat>, locs: seq<nat>, store: S.Store, st: L.State,
                       beta': seq<nat>, store': S.Store, st': L.State)
  {
    Rel(beta', locs, store', st') && SameNames(st.scope, st'.scope) && Untouched(beta, locs, store, beta', store')
  }

  lemma StepRefl(beta: seq<nat>, locs: seq<nat>, store: S.Store, st: L.State)
    requires Rel(beta, locs, store, st)
    ensures Step(beta, locs, store, st, beta, store, st)
  {
  }

  lemma StepTrans(b0: seq<nat>, locs: seq<nat>, s0: S.Store, t0: L.State, b1: seq<nat>, s1: S.Store, t1: L.State,
                  b2: seq<nat>, s2: S.Store, t2: L.State)
    requires Step(b0, locs, s0, t0, b1, s1, t1) && Step(b1, locs, s1, t1, b2, s2, t2)
    ensures Step(b0, locs, s0, t0, b2, s2, t2)
  {
  }

  // ---- finding variables ----

  lemma {:induction false} SearchIs(scope: seq<L.Entry>, x: string, k: int)
    requires 0 <= k < |scope| && scope[k].name == x && forall j | k < j < |scope| :: scope[j].name != x
    ensures L.Search(scope, x) == k
  {
    if scope[|scope| - 1].name != x { SearchIs(scope[..|scope| - 1], x, k); }
  }

  lemma {:induction false} SearchSame(a: seq<L.Entry>, b: seq<L.Entry>, x: string)
    requires SameNames(a, b)
    ensures L.Search(b, x) == L.Search(a, x)
  {
    if a != [] && a[|a| - 1].name != x { SearchSame(a[..|a| - 1], b[..|b| - 1], x); }
  }

  // A distance from the parser leads to the innermost variable of that name.
  lemma LocateIs(stack: seq<string>, scope: seq<L.Entry>, v: L.VarRef)
    requires Aligned(stack, scope) && Resolves(stack, v.name, v.index)
    ensures L.Locate(scope, v) == L.Search(scope, v.name)
  {
    if v.index.Some? {
      var n, m := v.index.value, |scope| - |stack|;
      assert scope[m + (|stack| - n)].name == stack[|stack| - n];
      forall j | |scope| - n < j < |scope|
        ensures scope[j].name != v.name
      {
        assert scope[m + (j - m)].name == stack[j - m];
      }
      SearchIs(scope, v.name, |scope| - n);
    }
  }

  lemma KnownSame(known: set<string>, env: S.Env, locs: seq<nat>, a: seq<L.Entry>, b: seq<L.Entry>)
    requires Known(known, env, locs, a) && SameNames(a, b)
    ensures Known(known, env, locs, b)
  {
    forall x | x in known
      ensures FoundSame(env, locs, b, x)
    {
      assert FoundSame(env, locs, a, x);
      SearchSame(a, b, x);
    }
  }

  lemma AlignedSame(stack: seq<string>, a: seq<L.Entry>, b: seq<L.Entry>)
    requires Aligned(stack, a) && SameNames(a, b)
    ensures Aligned(stack, b)
  {
  }

  lemma FindPush(env: S.Env, frame: map<string, nat>, x: string)
    ensures S.Find(env + [frame], x) == if x in frame then Some(frame[x]) else S.Find(env, x)
  {
    assert (env + [frame])[..|env|] == env;
  }

  lemma FindBind(env: S.Env, x: string, l: nat, y: string)
    requires env != []
    ensures S.Find(S.Bind(env, x, l), y) == if y == x then Some(l) else S.Find(env, y)
  {
    assert S.Bind(env, x, l)[..|env| - 1] == env[..|env| - 1];
  }

  // ---- reading, writing and sharing ----

  lemma ValGrows(beta: seq<nat>, beta': seq<nat>, v: S.Val, w: L.Val)
    requires ValRel(beta, v, w) && beta <= beta'
    ensures ValRel(beta', v, w)
  {
  }

  lemma ReadRel(beta: seq<nat>, locs: seq<nat>, store: S.Store, st: L.State, k: nat)
    requires Rel(beta, locs, store, st) && k < |st.scope|
    ensures locs[k] < |store| && CellRel(beta, store[locs[k]], L.CellAt(st, st.scope[k].bind))
  {
    assert EntryRel(beta, store, locs[k], st.scope[k].bind);
  }

  lemma WriteRel(beta: seq<nat>, locs: seq<nat>, store: S.Store, st: L.State, k: nat, v: S.Val, w: L.Val)
    requires Rel(beta, locs, store, st) && k < |st.scope| && ValRel(beta, v, w)
    ensures Step(beta, locs, store, st, beta, S.SetCell(store, locs[k], v), L.Write(st, k, w))
  {
    var store', st' := S.SetCell(store, locs[k], v), L.Write(st, k, w);
    assert EntryRel(beta, store, locs[k], st.scope[k].bind);
    forall i | 0 <= i < |locs|
      ensures EntryRel(beta, store', locs[i], st'.scope[i].bind)
    {
      assert EntryRel(beta, store, locs[i], st.scope[i].bind);
      assert OwnDistinct(locs, st.scope);
    }
    assert HeapRel(beta, store', st'.heap) by {
      forall l | 0 <= l < |beta|
        ensures CellRel(beta, store'[beta[l]], st'.heap[l])
      {
        assert CellRel(beta, store[beta[l]], st.heap[l]);
      }
    }
  }

  lemma ShareRel(beta: seq<nat>, locs: seq<nat>, store: S.Store, st: L.State, k: nat) returns (beta': seq<nat>)
    requires Rel(beta, locs, store, st) && k < |st.scope|
    ensures Step(beta, locs, store, st, beta', store, L.ShareAt(st, k))
    ensures L.ShareAt(st, k).scope[k].bind.Shared?
  {
    assert EntryRel(beta, store, locs[k], st.scope[k].bind);
    if st.scope[k].bind.Shared? {
      beta' := beta;
      StepRefl(beta, locs, store, st);
    } else {
      beta' := beta + [locs[k]];
      var st' := L.ShareAt(st, k);
      forall i | 0 <= i < |locs|
        ensures EntryRel(beta', store, locs[i], st'.scope[i].bind)
      {
        assert EntryRel(beta, store, locs[i], st.scope[i].bind);
        assert OwnDistinct(locs, st.scope);
        if st.scope[i].bind.Own? { ValGrows(beta, beta', store[locs[i]].v, st.scope[i].bind.c.v); }
      }
      assert HeapRel(beta', store, st'.heap) by {
        forall l | 0 <= l < |beta'|
          ensures beta'[l] < |store| && CellRel(beta', store[beta'[l]], st'.heap[l])
        {
          if l < |beta| {
            assert CellRel(beta, store[beta[l]], st.heap[l]);
            ValGrows(beta, beta', store[beta[l]].v, st.heap[l].v);
          } else {
            ValGrows(beta, beta', store[locs[k]].v, st.scope[k].bind.c.v);
          }
        }
      }
    }
  }

  // A new variable of its own.
  lemma PushRel(beta: seq<nat>, locs: seq<nat>, store: S.Store, st: L.State, x: string, c: S.Cell, d: L.Cell)
    requires Rel(beta, locs, store, st) && CellRel(beta, c, d)
    ensures Rel(beta, locs + [|store|], store + [c], L.Push(st, x, L.Own(d)))
  {
    var locs', store', st' := locs + [|store|], store + [c], L.Push(st, x, L.Own(d));
    StoreGrows(beta, store, store', st.heap);
    forall i | 0 <= i < |locs'|
      ensures EntryRel(beta, store', locs'[i], st'.scope[i].bind)
    {
      if i < |locs| { assert EntryRel(beta, store, locs[i], st.scope[i].bind); }
    }
    forall i, j | 0 <= i < j < |locs'| && st'.scope[i].bind.Own? && st'.scope[j].bind.Own?
      ensures locs'[i] != locs'[j]
    {
      assert EntryRel(beta, store, locs[i], st.scope[i].bind);
      assert OwnDistinct(locs, st.scope);
    }
  }

  lemma StoreGrows(beta: seq<nat>, store: S.Store, store': S.Store, heap: seq<L.Cell>)
    requires HeapRel(beta, store, heap) && store <= store'
    ensures HeapRel(beta, store', heap)
  {
  }

  // A variable defined again in its slot.
  lemma RedefineRel(beta: seq<nat>, locs: seq<nat>, store: S.Store, st: L.State, k: nat, c: S.Cell, d: L.Cell)
    requires Rel(beta, locs, store, st) && k < |st.scope| && CellRel(beta, c, d)
    ensures var e := L.Entry(st.scope[k].name, L.Own(d));
      Rel(beta, locs[k := |store|], store + [c], st.(scope := st.scope[k := e]))
  {
    var locs', store' := locs[k := |store|], store + [c];
    var scope' := st.scope[k := L.Entry(st.scope[k].name, L.Own(d))];
    StoreGrows(beta, store, store', st.heap);
    forall i | 0 <= i < |locs'|
      ensures EntryRel(beta, store', locs'[i], scope'[i].bind)
    {
      assert EntryRel(beta, store, locs[i], st.scope[i].bind);
    }
    forall i, j | 0 <= i < j < |locs'| && scope'[i].bind.Own? && scope'[j].bind.Own?
      ensures locs'[i] != locs'[j]
    {
      assert EntryRel(beta, store, locs[i], st.scope[i].bind);
      assert EntryRel(beta, store, locs[j], st.scope[j].bind);
      assert OwnDistinct(locs, st.scope);
    }
  }

  // Back to the scope at the start of a block.
  lemma RewindRel(beta: seq<nat>, locs: seq<nat>, store: S.Store, st: L.State, n: nat)
    requires Rel(beta, locs, store, st) && n <= |locs|
    ensures Rel(beta, locs[..n], store, st.(scope := st.scope[..n]))
  {
    forall i | 0 <= i < n
      ensures EntryRel(beta, store, locs[..n][i], st.scope[..n][i].bind)
    {
      assert EntryRel(beta, store, locs[i], st.scope[i].bind);
    }
  }
}
