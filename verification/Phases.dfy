// The whole-block phases of `optimize_stmt_block`: flattening, dead code, removal of pure
// statements, and trimming of the tail.  Each is a function on statement lists, shown to keep the
// meaning of the block and to make the block smaller whenever it changes it.

module Phases {
  import opened Options
  import opened Ast
  import opened Eval
  import opened EvalFacts
  import opened Conditions
  import opened Simulation
  import opened Rules
  import opened Filtering

  // ---- what every phase passes on ----

  // `b'` inherits from `b` everything the guarantee depends on.
  ghost predicate Inherits(consts: Consts, b: seq<Stmt>, b': seq<Stmt>) {
    (GoodB(consts, b) ==> GoodB(consts, b')) && (TightB(b) ==> TightB(b')) &&
    (TightishB(b) ==> TightishB(b')) &&
    (PlainBreaksB(b) ==> PlainBreaksB(b')) && EffectsB(b') <= EffectsB(b)
  }

  lemma {:induction false} EffectsMember(b: seq<Stmt>, y: Effect)
    ensures y in EffectsB(b) <==> exists s :: s in b && y in EffectsS(s)
  {
    if b != [] {
      EffectsMember(b[1..], y);
      if y in EffectsS(b[0]) {
        assert b[0] in b;
      } else if y in EffectsB(b[1..]) {
        var s :| s in b[1..] && y in EffectsS(s);
        assert s in b;
      }
      if s :| s in b && y in EffectsS(s) {
        assert s == b[0] || s in b[1..];
      }
    }
  }

  lemma EffectsAppend(a: seq<Stmt>, b: seq<Stmt>)
    ensures EffectsB(a + b) == EffectsB(a) + EffectsB(b)
  {
    forall y
      ensures y in EffectsB(a + b) <==> y in EffectsB(a) + EffectsB(b)
    {
      EffectsMember(a, y);
      EffectsMember(b, y);
      EffectsMember(a + b, y);
    }
  }

  lemma InheritSubset(consts: Consts, b: seq<Stmt>, b': seq<Stmt>)
    requires forall s | s in b' :: s in b
    ensures Inherits(consts, b, b')
  {
    forall y | y in EffectsB(b')
      ensures y in EffectsB(b)
    {
      EffectsMember(b', y);
      EffectsMember(b, y);
    }
  }

  lemma InheritAppend(consts: Consts, a: seq<Stmt>, a': seq<Stmt>, b: seq<Stmt>, b': seq<Stmt>)
    requires Inherits(consts, a, a') && Inherits(consts, b, b')
    ensures Inherits(consts, a + b, a' + b')
  {
    EffectsAppend(a, b);
    EffectsAppend(a', b');
    assert forall s | s in a :: s in a + b;
    assert forall s | s in b :: s in a + b;
    assert GoodB(consts, a + b) ==> GoodB(consts, a) && GoodB(consts, b);
    assert TightB(a + b) ==> TightB(a) && TightB(b);
    assert TightishB(a + b) ==> TightishB(a) && TightishB(b);
    assert PlainBreaksB(a + b) ==> PlainBreaksB(a) && PlainBreaksB(b);
  }

  lemma InheritBlock(consts: Consts, s: Stmt, b': seq<Stmt>)
    requires s.Block? && Inherits(consts, s.b, b')
    ensures Inherits(consts, [s], b')
  {
    assert s in [s];
    assert GoodB(consts, [s]) ==> GoodS(consts, s);
    assert TightB([s]) ==> TightS(s);
    assert TightishB([s]) ==> TightS(s) || s == Block([]);
    assert PlainBreaksB([s]) ==> PlainBreaks(s);
    assert EffectsB([s]) == EffectsS(s) + EffectsB([s][1..]);
  }

  // What the last statement decides still is decided when the block has become `b'`.
  ghost predicate HoldsB(consts: Consts, reduce: bool, b: seq<Stmt>, b': seq<Stmt>) {
    forall d: Demand :: Fits(d, reduce, consts) && SettledB(d, b) ==> SettledB(d, b')
  }

  predicate Fits(d: Demand, reduce: bool, consts: Consts) {
    if reduce then d == Held(true) else d.Firm? ==> d.consts == consts
  }

  lemma EffectsWithin(consts: Consts, d: Demand, b: seq<Stmt>, b': seq<Stmt>)
    requires Inherits(consts, b, b') && SettledB(d, b) && b' != [] && Settles(d, b'[|b'| - 1])
    ensures SettledB(d, b')
  {
  }

  // ---- flattening of inner blocks ----

  predicate Flattenable(s: Stmt) {
    s.Block? && forall t | t in s.b :: !IsBlockDependent(t)
  }

  function Flatten(b: seq<Stmt>): seq<Stmt> {
    if b == [] then []
    else if Flattenable(b[0]) then Flatten(b[0].b) + Flatten(b[1..])
    else [b[0]] + Flatten(b[1..])
  }

  lemma {:induction false} FlattenNone(b: seq<Stmt>)
    requires forall s | s in b :: !Flattenable(s)
    ensures Flatten(b) == b
  {
    if b != [] {
      FlattenNone(b[1..]);
      assert b == [b[0]] + b[1..];
    }
  }

  lemma {:induction false} FlattenAppend(a: seq<Stmt>, b: seq<Stmt>)
    ensures Flatten(a + b) == Flatten(a) + Flatten(b)
  {
    if a == [] {
      assert a + b == b;
    } else {
      assert (a + b)[0] == a[0] && (a + b)[1..] == a[1..] + b;
      FlattenAppend(a[1..], b);
    }
  }

  // One inner block at a time gives the same list.
  lemma FlattenStep(b: seq<Stmt>, n: nat)
    requires n < |b| && Flattenable(b[n])
    ensures Flatten(b[..n] + (b[n].b + b[n + 1..])) == Flatten(b)
    ensures WB(b[..n] + (b[n].b + b[n + 1..])) < WB(b)
  {
    hide Flatten, WB;
    assert b == b[..n] + ([b[n]] + b[n + 1..]);
    FlattenSplice(b[..n], b[n], b[n + 1..]);
  }

  lemma FlattenSplice(pre: seq<Stmt>, s: Stmt, post: seq<Stmt>)
    requires Flattenable(s)
    ensures Flatten(pre + (s.b + post)) == Flatten(pre + ([s] + post))
    ensures WB(pre + (s.b + post)) < WB(pre + ([s] + post))
  {
    WBAppend(pre, s.b + post);
    WBAppend(s.b, post);
    WBAppend(pre, [s] + post);
    FlattenAppend(pre, s.b + post);
    FlattenAppend(s.b, post);
    FlattenAppend(pre, [s] + post);
    assert ([s] + post)[0] == s && ([s] + post)[1..] == post;
  }

  lemma {:induction false} FlattenInherits(consts: Consts, b: seq<Stmt>)
    ensures Inherits(consts, b, Flatten(b))
    decreases b
  {
    if b != [] {
      var rest := b[1..];
      assert b == [b[0]] + rest;
      FlattenInherits(consts, rest);
      if Flattenable(b[0]) {
        FlattenInherits(consts, b[0].b);
        InheritBlock(consts, b[0], Flatten(b[0].b));
        InheritAppend(consts, [b[0]], Flatten(b[0].b), rest, Flatten(rest));
      } else {
        InheritSubset(consts, [b[0]], [b[0]]);
        InheritAppend(consts, [b[0]], [b[0]], rest, Flatten(rest));
      }
    }
  }

  lemma {:induction false} FlattenNonempty(b: seq<Stmt>)
    requires TightB(b) && b != []
    ensures Flatten(b) != []
    decreases b
  {
    if Flattenable(b[0]) {
      assert TightS(b[0]);
      FlattenNonempty(b[0].b);
    }
  }

  lemma {:induction false} SeqShape(env: Env, fuel: nat, b: seq<Stmt>, v: Val, st: State)
    requires forall s | s in b :: !s.Let?
    ensures SameShape(st.scope, EvalSeq(env, fuel, b, v, st).st.scope)
    decreases b
  {
    if b != [] {
      ShapeS(env, fuel, b[0], st);
      var r := EvalS(env, fuel, b[0], st);
      if r.o.Normal? { SeqShape(env, fuel, b[1..], r.o.v, r.st); }
    }
  }

  // The last statement of the flattened list is the last one of the list, or of the block it ends with.
  lemma {:induction false} FlattenLast(d: Demand, b: seq<Stmt>)
    requires b != [] && Settles(d, b[|b| - 1])
    ensures var r := Flatten(b); r != [] && Settles(d, r[|r| - 1])
    decreases b
  {
    if |b| > 1 {
      FlattenLast(d, b[1..]);
    } else if Flattenable(b[0]) {
      FlattenLast(d, b[0].b);
    }
  }

  lemma FlattenHolds(consts: Consts, reduce: bool, b: seq<Stmt>)
    ensures HoldsB(consts, reduce, b, Flatten(b))
  {
    FlattenInherits(consts, b);
    forall d: Demand | Fits(d, reduce, consts) && SettledB(d, b)
      ensures SettledB(d, Flatten(b))
    {
      FlattenLast(d, b);
      EffectsWithin(consts, d, b, Flatten(b));
    }
  }

  predicate Decided(b: seq<Stmt>) {
    b != [] && Settles(Held(false), b[|b| - 1])
  }

  lemma {:induction false} FlattenEval(env: Env, fuel: nat, b: seq<Stmt>, v: Val, st: State)
    ensures Kept(TightB(b) || Decided(b), EvalSeq(env, fuel, b, v, st), EvalSeq(env, fuel, Flatten(b), v, st))
    decreases b
  {
    if b != [] {
      var rest := b[1..];
      var r := EvalS(env, fuel, b[0], st);
      if Flattenable(b[0]) {
        var inner := b[0].b;
        var q := EvalSeq(env, fuel, inner, UnitV, st);
        SeqShape(env, fuel, inner, UnitV, st);
        RewindShape(st, q.st);
        assert r == EvalBlock(env, fuel, inner, st) == q;
        if TightB(b) { assert TightS(b[0]); }
        FlattenEval(env, fuel, inner, UnitV, st);
        SeqAppend(env, fuel, Flatten(inner), Flatten(rest), v, st);
        SeqValue(env, fuel, Flatten(inner), UnitV, v, st);
        var q' := EvalSeq(env, fuel, Flatten(inner), v, st);
        if r.o.Normal? {
          FlattenEval(env, fuel, rest, r.o.v, r.st);
          SeqValue(env, fuel, Flatten(rest), r.o.v, q'.o.v, r.st);
          if TightB(b) { FlattenNonempty(inner); }
          if Decided(b) { FlattenDecided(b); }
        }
      } else {
        if r.o.Normal? { FlattenEval(env, fuel, rest, r.o.v, r.st); }
      }
    }
  }

  lemma FlattenDecided(b: seq<Stmt>)
    requires Decided(b)
    ensures b[1..] != [] ==> Decided(b[1..]) && Flatten(b[1..]) != []
    ensures b[1..] == [] && Flattenable(b[0]) ==> Decided(b[0].b) && Flatten(b[0].b) != []
  {
    if b[1..] != [] {
      FlattenLast(Held(false), b[1..]);
    } else if Flattenable(b[0]) {
      FlattenLast(Held(false), b[0].b);
    }
  }

  lemma FlattenSim(env: Env, vars: Vars, reduce: bool, b: seq<Stmt>)
    ensures SimSeq(env, vars, ValueB(reduce, b), b, Flatten(b))
  {
    if reduce { HeldWeaker(b); }
    forall fuel: nat, st: State
      ensures Kept(ValueB(reduce, b), EvalSeq(env, fuel, b, UnitV, st), EvalSeq(env, fuel, Flatten(b), UnitV, st))
    {
      FlattenEval(env, fuel, b, UnitV, st);
    }
  }

  // ---- dead code ----

  // Nothing after a `return`, `throw`, `break` or `continue` is kept.
  function Live(b: seq<Stmt>): seq<Stmt> {
    if b == [] then []
    else if IsControlFlowBreak(b[0]) then [b[0]]
    else [b[0]] + Live(b[1..])
  }

  // The result is a prefix, cut right after the first statement that breaks the control flow.
  lemma {:induction false} LiveIs(b: seq<Stmt>, k: nat)
    requires k <= |b| && forall i | 0 <= i < k :: !IsControlFlowBreak(b[i])
    ensures k < |b| && IsControlFlowBreak(b[k]) ==> Live(b) == b[..k + 1]
    ensures k == |b| ==> Live(b) == b
  {
    if b != [] && k > 0 {
      LiveIs(b[1..], k - 1);
      assert b == [b[0]] + b[1..];
      if k < |b| { assert [b[0]] + b[1..][..k] == b[..k + 1]; }
    }
  }

  lemma {:induction false} LiveShrinks(b: seq<Stmt>)
    ensures (forall s | s in Live(b) :: s in b) && WB(Live(b)) <= WB(b) && (Live(b) != b ==> WB(Live(b)) < WB(b))
  {
    if b != [] {
      LiveShrinks(b[1..]);
      assert b == [b[0]] + b[1..];
      WBAppend([b[0]], b[1..]);
      WBAppend([b[0]], Live(b[1..]));
      if IsControlFlowBreak(b[0]) && b[1..] != [] { assert WB(b[1..]) >= WS(b[1..][0]); }
    }
  }

  lemma {:induction false} LiveEval(env: Env, fuel: nat, b: seq<Stmt>, v: Val, st: State)
    ensures EvalSeq(env, fuel, Live(b), v, st) == EvalSeq(env, fuel, b, v, st)
    decreases b
  {
    if b != [] {
      var r := EvalS(env, fuel, b[0], st);
      if !IsControlFlowBreak(b[0]) && r.o.Normal? { LiveEval(env, fuel, b[1..], r.o.v, r.st); }
    }
  }

  lemma {:induction false} LiveLast(d: Demand, b: seq<Stmt>)
    requires SettledB(d, b)
    ensures var r := Live(b); r != [] && Settles(d, r[|r| - 1])
  {
    if IsControlFlowBreak(b[0]) {
      assert UnsureReturn in EffectsS(b[0]) ==> UnsureReturn in EffectsB(b);
    } else if |b| > 1 {
      LiveLast(d, b[1..]);
    }
  }

  lemma LiveHolds(consts: Consts, reduce: bool, b: seq<Stmt>)
    ensures HoldsB(consts, reduce, b, Live(b))
  {
    LiveShrinks(b);
    InheritSubset(consts, b, Live(b));
    forall d: Demand | Fits(d, reduce, consts) && SettledB(d, b)
      ensures SettledB(d, Live(b))
    {
      LiveLast(d, b);
      EffectsWithin(consts, d, b, Live(b));
    }
  }

  lemma LiveSim(env: Env, vars: Vars, b: seq<Stmt>)
    ensures SimSeq(env, vars, true, b, Live(b))
  {
    forall fuel: nat, st: State
      ensures EvalSeq(env, fuel, Live(b), UnitV, st) == EvalSeq(env, fuel, b, UnitV, st)
    {
      LiveEval(env, fuel, b, UnitV, st);
    }
  }

  // ---- removal of pure statements ----

  function Idle(internal: bool): Stmt -> bool {
    (s: Stmt) => IsPureFor(internal, s)
  }

  function Useless(): Stmt -> bool {
    (s: Stmt) => IsBareVar(s) || IsPure(s)
  }

  // Which statements stay: the result statement, and whatever is not pure, not a bare variable
  // read, and not (internally) pure past the last statement that is not.
  function SurvivorFlags(b: seq<Stmt>, preserve: bool, internal: bool): (flags: seq<bool>)
    ensures |flags| == |b|
  {
    StayFlags(b, Idle(internal), Useless(), preserve)
  }

  function SurvivorsFrom(b: seq<Stmt>, preserve: bool, internal: bool, i: nat): seq<Stmt>
    requires i <= |b|
  {
    FilterFrom(b, SurvivorFlags(b, preserve, internal), i)
  }

  function Survivors(b: seq<Stmt>, preserve: bool, internal: bool): seq<Stmt> {
    SurvivorsFrom(b, preserve, internal, 0)
  }

  lemma SurvivorFlag(b: seq<Stmt>, preserve: bool, internal: bool, i: nat)
    requires i < |b|
    ensures SurvivorFlags(b, preserve, internal)[i] ==
      ((preserve && i == |b| - 1) ||
       (!(IsPureFor(internal, b[i]) && i >= LastBusy(b, Idle(internal))) && !IsBareVar(b[i]) && !IsPure(b[i])))
  {
  }

  lemma {:induction false} SurvivorsShrink(b: seq<Stmt>, preserve: bool, internal: bool, i: nat)
    requires i <= |b|
    ensures var r := SurvivorsFrom(b, preserve, internal, i);
      (forall s | s in r :: s in b) && |r| <= |b| - i && (|r| == |b| - i ==> r == b[i..]) &&
      WB(r) <= WB(b[i..]) && (|r| < |b| - i ==> WB(r) < WB(b[i..]))
    decreases |b| - i
  {
    if i < |b| {
      SurvivorsShrink(b, preserve, internal, i + 1);
      var rest := SurvivorsFrom(b, preserve, internal, i + 1);
      assert b[i..] == [b[i]] + b[i + 1..];
      WBAppend([b[i]], b[i + 1..]);
      WBAppend([b[i]], rest);
      assert WB([b[i]]) == WS(b[i]) + WB([b[i]][1..]);
    }
  }

  // A result statement stays.
  lemma {:induction false} SurvivorsLast(b: seq<Stmt>, internal: bool, i: nat)
    requires i < |b|
    ensures var r := SurvivorsFrom(b, true, internal, i); r != [] && r[|r| - 1] == b[|b| - 1]
    decreases |b| - i
  {
    SurvivorFlag(b, true, internal, i);
    if i < |b| - 1 {
      SurvivorsLast(b, internal, i + 1);
    } else {
      assert SurvivorsFrom(b, true, internal, i + 1) == [];
    }
  }

  lemma SurvivorsHold(consts: Consts, reduce: bool, internal: bool, b: seq<Stmt>)
    ensures HoldsB(consts, reduce, b, Survivors(b, true, internal))
  {
    var r := Survivors(b, true, internal);
    SurvivorsShrink(b, true, internal, 0);
    InheritSubset(consts, b, r);
    forall d: Demand | Fits(d, reduce, consts) && SettledB(d, b)
      ensures SettledB(d, r)
    {
      SurvivorsLast(b, internal, 0);
      EffectsWithin(consts, d, b, r);
    }
  }

  // Once everything left is internally pure, only the result statement can stay.
  lemma {:induction false} SurvivorsTail(b: seq<Stmt>, preserve: bool, i: nat)
    requires LastBusy(b, Idle(true)) <= i <= |b| && forall j | i <= j < |b| :: IsInternallyPure(b[j])
    ensures SurvivorsFrom(b, preserve, true, i) == if preserve && i < |b| then [b[|b| - 1]] else []
    decreases |b| - i
  {
    if i < |b| {
      SurvivorFlag(b, preserve, true, i);
      SurvivorsTail(b, preserve, i + 1);
    }
  }

  function View(internal: bool, n: nat, r: Res): Res {
    if internal then RewindRes(r, n) else r
  }

  lemma RewindTwice(st: State, m: nat, n: nat)
    requires n <= m <= |st.scope|
    ensures Rewind(Rewind(st, m), n) == Rewind(st, n)
  {
    assert st.scope[..m][..n] == st.scope[..n];
  }

  lemma PureTailEval(env: Env, fuel: nat, b: seq<Stmt>, preserve: bool, i: nat,
                     n: nat, v: Val, v': Val, st: State)
    requires !env.catchSoft && i < |b| && n <= |st.scope|
    requires LastBusy(b, Idle(true)) <= i && forall j | i <= j < |b| :: IsInternallyPure(b[j])
    requires Done(EvalSeq(env, fuel, b[i..], v, st).o)
    ensures Kept(preserve, RewindRes(EvalSeq(env, fuel, b[i..], v, st), n),
      RewindRes(EvalSeq(env, fuel, SurvivorsFrom(b, preserve, true, i), v', st), n))
  {
    SurvivorsTail(b, preserve, i);
    InternallyPureSeq(env, fuel, b[i..], v, st, st);
    var r := EvalSeq(env, fuel, b[i..], v, st);
    RewindTwice(r.st, |st.scope|, n);
    if preserve {
      var front, z := b[i..|b| - 1], b[|b| - 1];
      assert b[i..] == front + [z];
      SeqAppend(env, fuel, front, [z], v, st);
      InternallyPureSeq(env, fuel, front, v, st, st);
      var q := EvalSeq(env, fuel, front, v, st);
      SeqHead(env, fuel, z, [], q.o.v, q.st);
      SeqHead(env, fuel, z, [], v', st);
      InternallyPureS(env, fuel, z, q.st, st);
      RewindTwice(EvalS(env, fuel, z, st).st, |st.scope|, n);
    }
  }

  lemma SeqHead(env: Env, fuel: nat, s: Stmt, rest: seq<Stmt>, v: Val, st: State)
    ensures EvalSeq(env, fuel, [s] + rest, v, st) ==
      var r := EvalS(env, fuel, s, st);
      if r.o.Normal? then EvalSeq(env, fuel, rest, r.o.v, r.st) else r
    ensures EvalSeq(env, fuel, [s], v, st) == EvalS(env, fuel, s, st)
  {
    assert ([s] + rest)[0] == s && ([s] + rest)[1..] == rest;
  }

  // A statement that is dropped before the pure tail changes nothing.
  lemma DroppedEval(env: Env, fuel: nat, s: Stmt, st: State)
    requires !env.catchSoft && (IsPure(s) || IsBareVar(s)) && Done(EvalS(env, fuel, s, st).o)
    ensures EvalS(env, fuel, s, st).o.Normal? && EvalS(env, fuel, s, st).st == st
  {
    if IsPure(s) {
      PureS(env, fuel, s, st, st);
    } else {
      assert EvalS(env, fuel, s, st) == EvalE(env, fuel, s.e, st);
    }
  }

  lemma {:induction false} SurvivorsEval(env: Env, fuel: nat, b: seq<Stmt>, preserve: bool, internal: bool,
                                         i: nat, n: nat, v: Val, v': Val, st: State)
    requires !env.catchSoft && i <= |b| && n <= |st.scope|
    requires Done(EvalSeq(env, fuel, b[i..], v, st).o)
    ensures Kept(preserve && (i < |b| || v == v'),
      View(internal, n, EvalSeq(env, fuel, b[i..], v, st)),
      View(internal, n, EvalSeq(env, fuel, SurvivorsFrom(b, preserve, internal, i), v', st)))
    decreases |b| - i
  {
    if i < |b| {
      var s, rest := b[i], SurvivorsFrom(b, preserve, internal, i + 1);
      assert b[i..] == [s] + b[i + 1..];
      var r := EvalS(env, fuel, s, st);
      SeqHead(env, fuel, s, b[i + 1..], v, st);
      ShapeS(env, fuel, s, st);
      SurvivorFlag(b, preserve, internal, i);
      hide IsPure, IsInternallyPure, IsBareVar, EvalS, LastBusy, SurvivorFlags;
      if SurvivorFlags(b, preserve, internal)[i] {
        SeqHead(env, fuel, s, rest, v', st);
        if r.o.Normal? { SurvivorsEval(env, fuel, b, preserve, internal, i + 1, n, r.o.v, r.o.v, r.st); }
      } else if IsPure(s) || IsBareVar(s) {
        DroppedEval(env, fuel, s, st);
        SurvivorsEval(env, fuel, b, preserve, internal, i + 1, n, r.o.v, v', st);
      } else {
        PureTailEval(env, fuel, b, preserve, i, n, v, v', st);
      }
    }
  }

  lemma SurvivorsSim(env: Env, vars: Vars, internal: bool, reduce: bool, preserve: bool, b: seq<Stmt>)
    requires !env.catchSoft
    ensures SimB(env, vars, internal, reduce, preserve, b, Survivors(b, preserve, internal))
  {
    var b' := Survivors(b, preserve, internal);
    forall fuel: nat, st: State | Done(Run(env, internal, reduce, fuel, b, st).o)
      ensures Kept(preserve, Run(env, internal, reduce, fuel, b, st), Run(env, internal, reduce, fuel, b', st))
    {
      assert b[0..] == b;
      SurvivorsEval(env, fuel, b, preserve, internal, 0, |st.scope|, UnitV, UnitV, st);
    }
  }

  // ---- trimming the tail of a block whose value is used ----

  function Front(b: seq<Stmt>): seq<Stmt>
    requires b != []
  {
    b[..|b| - 1]
  }

  function LastOf(b: seq<Stmt>): Stmt
    requires b != []
  {
    b[|b| - 1]
  }

  predicate IsReturn(s: Stmt) {
    s.Return? && !s.isThrow
  }

  function UnReturn(s: Stmt): Stmt
    requires s.Return?
  {
    match s.val
    case None => Noop
    case Some(e) => ExprS(e)
  }

  lemma WBLast(b: seq<Stmt>, s: Stmt)
    requires b != []
    ensures WB(b) == WB(Front(b)) + WS(LastOf(b))
    ensures WB(Front(b) + [s]) == WB(Front(b)) + WS(s)
  {
    assert b == Front(b) + [LastOf(b)];
    WBAppend(Front(b), [LastOf(b)]);
    WBAppend(Front(b), [s]);
    assert WB([s]) == WS(s) + WB([s][1..]);
    assert WB([LastOf(b)]) == WS(LastOf(b)) + WB([LastOf(b)][1..]);
  }

  // One step of the trimming loop for a block whose value is used; None when there is none left.
  function KeepStep(b: seq<Stmt>, internal: bool, reduce: bool): (r: Option<seq<Stmt>>)
    ensures r.Some? ==> WB(r.value) < WB(b)
  {
    if b == [] then None
    else
      var last := LastOf(b);
      WBLast(b, Noop);
      if reduce && last == Return(None, false) && |b| == 1 then Some([])
      else if |b| == 1 && !ReturnsValue(last) && IsPureFor(internal, last) then Some([])
      else if reduce && last == Return(None, false) && |b| >= 2 && !ReturnsValue(b[|b| - 2]) then Some(Front(b))
      else if reduce && IsReturn(last) then
        WBLast(b, UnReturn(last));
        Some(Front(b) + [UnReturn(last)])
      else if |b| >= 2 && last == Noop && ReturnsValue(b[|b| - 2]) then None
      else if |b| >= 2 && !ReturnsValue(last) && IsPureFor(internal, last) then
        Some(if ReturnsValue(b[|b| - 2]) then Front(b) + [Noop] else Front(b))
      else None
  }

  function TrimKept(b: seq<Stmt>, internal: bool, reduce: bool): (r: seq<Stmt>)
    ensures WB(r) <= WB(b) && (r != b ==> WB(r) < WB(b))
    ensures KeepStep(r, internal, reduce) == None
    decreases WB(b)
  {
    match KeepStep(b, internal, reduce)
    case None => b
    case Some(b') => TrimKept(b', internal, reduce)
  }

  // The same for a block whose value is not used.
  function DropStep(b: seq<Stmt>, internal: bool, reduce: bool): (r: Option<seq<Stmt>>)
    ensures r.Some? ==> WB(r.value) < WB(b)
  {
    if b == [] then None
    else
      var last := LastOf(b);
      WBLast(b, Noop);
      if |b| == 1 && IsPureFor(internal, last) then Some([])
      else if reduce && last == Return(None, false) then Some(Front(b))
      else if reduce && IsReturn(last) && last.val.Some? && IsPureE(last.val.value) then Some(Front(b))
      else if IsPureFor(internal, last) then Some(Front(b))
      else None
  }

  function TrimDropped(b: seq<Stmt>, internal: bool, reduce: bool): (r: seq<Stmt>)
    ensures WB(r) <= WB(b) && (r != b ==> WB(r) < WB(b))
    ensures DropStep(r, internal, reduce) == None
    decreases WB(b)
  {
    match DropStep(b, internal, reduce)
    case None => b
    case Some(b') => TrimDropped(b', internal, reduce)
  }

  function Trim(b: seq<Stmt>, preserve: bool, internal: bool, reduce: bool): (r: seq<Stmt>)
    ensures WB(r) <= WB(b) && (r != b ==> WB(r) < WB(b))
  {
    if preserve then TrimKept(b, internal, reduce) else TrimDropped(b, internal, reduce)
  }

  // A step leaves nothing, drops the last statement, or replaces it.
  lemma StepForms(b: seq<Stmt>, internal: bool, reduce: bool)
    requires b != []
    ensures var r := KeepStep(b, internal, reduce);
      || r.None? || r.value == [] || r.value == Front(b) || r.value == Front(b) + [Noop]
      || (IsReturn(LastOf(b)) && r.value == Front(b) + [UnReturn(LastOf(b))])
    ensures var r := DropStep(b, internal, reduce); r.None? || r.value == [] || r.value == Front(b)
  {
    hide IsPureFor, ReturnsValue, IsPureE, WB;
  }

  lemma InheritOne(consts: Consts, s: Stmt, s': Stmt)
    requires s' == Noop || (IsReturn(s) && s' == UnReturn(s))
    ensures Inherits(consts, [s], [s'])
  {
    assert EffectsB([s']) == EffectsS(s') + EffectsB([s'][1..]);
    assert EffectsB([s]) == EffectsS(s) + EffectsB([s][1..]);
    assert s in [s];
    assert GoodB(consts, [s]) ==> GoodS(consts, s);
    assert TightB([s]) ==> TightS(s);
    assert TightishB([s]) ==> TightS(s) || s == Block([]);
    assert PlainBreaksB([s]) ==> PlainBreaks(s);
  }

  lemma InheritLast(consts: Consts, b: seq<Stmt>, s': Stmt)
    requires b != [] && (s' == Noop || (IsReturn(LastOf(b)) && s' == UnReturn(LastOf(b))))
    ensures Inherits(consts, b, Front(b) + [s'])
  {
    InheritSubset(consts, Front(b), Front(b));
    InheritOne(consts, LastOf(b), s');
    hide Inherits;
    InheritAppend(consts, Front(b), Front(b), [LastOf(b)], [s']);
    assert Front(b) + [LastOf(b)] == b;
  }

  lemma StepInherits(consts: Consts, b: seq<Stmt>, internal: bool, reduce: bool)
    ensures KeepStep(b, internal, reduce).Some? ==> Inherits(consts, b, KeepStep(b, internal, reduce).value)
    ensures DropStep(b, internal, reduce).Some? ==> Inherits(consts, b, DropStep(b, internal, reduce).value)
  {
    if b != [] {
      hide KeepStep, DropStep, Inherits, UnReturn;
      StepForms(b, internal, reduce);
      InheritSubset(consts, b, Front(b));
      InheritSubset(consts, b, []);
      InheritLast(consts, b, Noop);
      if IsReturn(LastOf(b)) { InheritLast(consts, b, UnReturn(LastOf(b))); }
    }
  }

  lemma {:induction false} TrimInherits(consts: Consts, b: seq<Stmt>, preserve: bool, internal: bool, reduce: bool)
    ensures Inherits(consts, b, Trim(b, preserve, internal, reduce))
    decreases WB(b)
  {
    StepInherits(consts, b, internal, reduce);
    var step := if preserve then KeepStep(b, internal, reduce) else DropStep(b, internal, reduce);
    if step.Some? { TrimInherits(consts, step.value, preserve, internal, reduce); }
  }

  // Only the value of a `return` takes the place of a statement that decides the value.
  lemma StepLast(d: Demand, b: seq<Stmt>, internal: bool, reduce: bool)
    requires b != [] && Settles(d, LastOf(b)) && (reduce ==> d == Held(true)) && KeepStep(b, internal, reduce).Some?
    ensures IsReturn(LastOf(b)) && LastOf(b).val.Some?
    ensures KeepStep(b, internal, reduce).value == Front(b) + [UnReturn(LastOf(b))] && Settles(d, UnReturn(LastOf(b)))
  {
    hide WB;
  }

  lemma {:induction false} TrimHolds(consts: Consts, b: seq<Stmt>, internal: bool, reduce: bool)
    ensures HoldsB(consts, reduce, b, TrimKept(b, internal, reduce))
    decreases WB(b)
  {
    var step := KeepStep(b, internal, reduce);
    if step.Some? {
      TrimHolds(consts, step.value, internal, reduce);
      StepInherits(consts, b, internal, reduce);
      forall d: Demand | Fits(d, reduce, consts) && SettledB(d, b)
        ensures SettledB(d, step.value)
      {
        StepLast(d, b, internal, reduce);
        EffectsWithin(consts, d, b, step.value);
      }
    }
  }

  // The value of a tight list that ends in a statement without a value is ().
  lemma ValuelessEnd(env: Env, fuel: nat, b: seq<Stmt>, v: Val, st: State)
    requires b != [] && TightishB(b) && !ReturnsValue(LastOf(b))
    requires EvalSeq(env, fuel, b, v, st).o.Normal?
    ensures EvalSeq(env, fuel, b, v, st).o.v == UnitV
  {
    assert b == Front(b) + [LastOf(b)];
    SeqAppend(env, fuel, Front(b), [LastOf(b)], v, st);
    var r := EvalSeq(env, fuel, Front(b), v, st);
    assert EvalSeq(env, fuel, [LastOf(b)], r.o.v, r.st) == EvalS(env, fuel, LastOf(b), r.st);
    ValuelessIsUnit(env, fuel, LastOf(b), r.st);
  }

  // How a run depends on its last statement.
  lemma RunLast(env: Env, fuel: nat, a: seq<Stmt>, s: Stmt, st: State)
    ensures EvalSeq(env, fuel, a + [s], UnitV, st) ==
      var r := EvalSeq(env, fuel, a, UnitV, st);
      if r.o.Normal? then EvalS(env, fuel, s, r.st) else r
  {
    SeqAppend(env, fuel, a, [s], UnitV, st);
    var r := EvalSeq(env, fuel, a, UnitV, st);
    if r.o.Normal? {
      var q := EvalS(env, fuel, s, r.st);
      assert EvalSeq(env, fuel, [s], r.o.v, r.st) == q;
    }
  }

  // Dropping a pure last statement changes at most the value.
  lemma DropPureLast(env: Env, fuel: nat, a: seq<Stmt>, s: Stmt, internal: bool, st: State)
    requires !env.catchSoft && IsPureFor(internal, s)
    requires Done(EvalSeq(env, fuel, a + [s], UnitV, st).o)
    ensures var r, r' := EvalSeq(env, fuel, a + [s], UnitV, st), EvalSeq(env, fuel, a, UnitV, st);
      Kept(false, View(internal, |st.scope|, r), View(internal, |st.scope|, r'))
    ensures EvalSeq(env, fuel, a, UnitV, st).o.Normal? ==> EvalSeq(env, fuel, a + [s], UnitV, st).o.Normal?
  {
    RunLast(env, fuel, a, s, st);
    var r' := EvalSeq(env, fuel, a, UnitV, st);
    if r'.o.Normal? {
      ShapeSeq(env, fuel, a, UnitV, st);
      if internal {
        InternallyPureS(env, fuel, s, r'.st, r'.st);
        var r := EvalS(env, fuel, s, r'.st);
        RewindTwice(r.st, |r'.st.scope|, |st.scope|);
      } else {
        PureS(env, fuel, s, r'.st, r'.st);
      }
    }
  }

  // A front whose last statement has no value gives (), as does a pure statement without a value.
  lemma FrontUnit(env: Env, fuel: nat, b: seq<Stmt>, st: State)
    requires |b| >= 2 && TightishB(b) && !ReturnsValue(b[|b| - 2])
    requires EvalSeq(env, fuel, Front(b), UnitV, st).o.Normal?
    ensures EvalSeq(env, fuel, Front(b), UnitV, st).o.v == UnitV
  {
    assert LastOf(Front(b)) == b[|b| - 2];
    assert forall s | s in Front(b) :: s in b;
    ValuelessEnd(env, fuel, Front(b), UnitV, st);
  }

  lemma KeepReturnEval(env: Env, fuel: nat, b: seq<Stmt>, internal: bool, st: State)
    requires !env.catchSoft && b != [] && IsReturn(LastOf(b)) && KeepStep(b, internal, true).Some?
    requires Done(Run(env, internal, true, fuel, b, st).o)
    ensures Kept(ValueishB(true, b), Run(env, internal, true, fuel, b, st),
                 Run(env, internal, true, fuel, KeepStep(b, internal, true).value, st))
  {
    var front, last := Front(b), LastOf(b);
    var b' := KeepStep(b, internal, true).value;
    assert b == front + [last];
    RunLast(env, fuel, front, last, st);
    if last == Return(None, false) && |b| == 1 {
      assert front == [];
    } else if last == Return(None, false) && !ReturnsValue(b[|b| - 2]) {
      if TightishB(b) && EvalSeq(env, fuel, front, UnitV, st).o.Normal? { FrontUnit(env, fuel, b, st); }
    } else {
      assert b' == front + [UnReturn(last)];
      RunLast(env, fuel, front, UnReturn(last), st);
    }
  }

  lemma KeepPureEval(env: Env, fuel: nat, b: seq<Stmt>, internal: bool, reduce: bool, st: State)
    requires !env.catchSoft && KeepStep(b, internal, reduce).Some? && !IsReturn(LastOf(b))
    requires Done(EvalSeq(env, fuel, b, UnitV, st).o)
    ensures Kept(ValueishB(reduce, b), View(internal, |st.scope|, EvalSeq(env, fuel, b, UnitV, st)),
                 View(internal, |st.scope|, EvalSeq(env, fuel, KeepStep(b, internal, reduce).value, UnitV, st)))
  {
    var front, last := Front(b), LastOf(b);
    var b' := KeepStep(b, internal, reduce).value;
    assert b == front + [last];
    RunLast(env, fuel, front, last, st);
    var r := EvalSeq(env, fuel, front, UnitV, st);
    DropPureLast(env, fuel, front, last, internal, st);
    if r.o.Normal? && TightishB(b) {
      assert TightS(last);
      ValuelessIsUnit(env, fuel, last, r.st);
    }
    if |b| == 1 {
      assert front == [];
    } else if ReturnsValue(b[|b| - 2]) {
      RunLast(env, fuel, front, Noop, st);
    } else {
      if TightishB(b) && r.o.Normal? { FrontUnit(env, fuel, b, st); }
    }
  }

  lemma KeepStepEval(env: Env, fuel: nat, b: seq<Stmt>, internal: bool, reduce: bool, st: State)
    requires !env.catchSoft && KeepStep(b, internal, reduce).Some?
    requires Done(Run(env, internal, reduce, fuel, b, st).o)
    ensures Kept(ValueishB(reduce, b), Run(env, internal, reduce, fuel, b, st),
                 Run(env, internal, reduce, fuel, KeepStep(b, internal, reduce).value, st))
  {
    if IsReturn(LastOf(b)) {
      assert reduce;
      KeepReturnEval(env, fuel, b, internal, st);
    } else {
      KeepPureEval(env, fuel, b, internal, reduce, st);
    }
  }

  lemma DropStepEval(env: Env, fuel: nat, b: seq<Stmt>, internal: bool, reduce: bool, st: State)
    requires !env.catchSoft && DropStep(b, internal, reduce).Some?
    requires Done(Run(env, internal, reduce, fuel, b, st).o)
    ensures Kept(false, Run(env, internal, reduce, fuel, b, st),
                 Run(env, internal, reduce, fuel, DropStep(b, internal, reduce).value, st))
  {
    var front, last := Front(b), LastOf(b);
    assert b == front + [last];
    assert DropStep(b, internal, reduce).value == front;
    RunLast(env, fuel, front, last, st);
    var r := EvalSeq(env, fuel, front, UnitV, st);
    if IsPureFor(internal, last) {
      DropPureLast(env, fuel, front, last, internal, st);
    } else if r.o.Normal? && last.val.Some? {
      PureE(env, fuel, last.val.value, r.st, r.st);
    }
  }

  lemma StepValueish(b: seq<Stmt>, preserve: bool, internal: bool, reduce: bool)
    ensures var step := if preserve then KeepStep(b, internal, reduce) else DropStep(b, internal, reduce);
      step.Some? && preserve && ValueishB(reduce, b) ==> ValueishB(reduce, step.value)
  {
    hide KeepStep, DropStep;
    StepInherits(map[], b, internal, reduce);
    var step := KeepStep(b, internal, reduce);
    if step.Some? && SettledB(Held(reduce), b) {
      StepLast(Held(reduce), b, internal, reduce);
      EffectsWithin(map[], Held(reduce), b, step.value);
    }
  }

  lemma {:induction false} TrimSim(env: Env, vars: Vars, b: seq<Stmt>, preserve: bool, internal: bool, reduce: bool)
    requires !env.catchSoft
    ensures SimB(env, vars, internal, reduce, preserve && ValueishB(reduce, b), b, Trim(b, preserve, internal, reduce))
    decreases WB(b)
  {
    var keep := preserve && ValueishB(reduce, b);
    var step := if preserve then KeepStep(b, internal, reduce) else DropStep(b, internal, reduce);
    if step.Some? {
      var b' := step.value;
      forall fuel: nat, st: State | Done(Run(env, internal, reduce, fuel, b, st).o)
        ensures Kept(keep, Run(env, internal, reduce, fuel, b, st), Run(env, internal, reduce, fuel, b', st))
      {
        if preserve { KeepStepEval(env, fuel, b, internal, reduce, st); }
        else { DropStepEval(env, fuel, b, internal, reduce, st); }
      }
      StepValueish(b, preserve, internal, reduce);
      TrimSim(env, vars, b', preserve, internal, reduce);
      var c := Trim(b', preserve, internal, reduce);
      assert SimB(env, vars, internal, reduce, keep, b', c);
      SimBTrans(env, vars, internal, reduce, keep, b, b', c);
    }
  }
}
