// What a script must satisfy for the optimizer to keep its meaning.

module Conditions {
  import opened Options
  import opened Ast
  import opened Eval

  // ---- blocks whose value is what the optimizer believes it is ----

  // A statement that does not return a value must evaluate to ().  The interpreter gives a loop the
  // value of `break v`, gives `try` the value of its body, and an empty block inside a block
  // overrides the value before it; `TightS` rules these out, also where a block that stands for an
  // expression may be opened.
  predicate TightS(s: Stmt) {
    match s
    case ExprS(e) => TightE(e)
    case While(_, _) => PlainBreaks(s)
    case Do(_, _, _) => PlainBreaks(s)
    case For(_, _, _, _) => PlainBreaks(s)
    case Try(_, _, _) => false
    case If(c, body, branch) => TightE(c) && TightB(body) && TightB(branch)
    case Block(b) => b != [] && TightB(b)
    case Return(Some(e), false) => TightE(e)
    case _ => true
  }

  predicate TightE(e: Expr) {
    match e
    case StmtE(b) => forall s | s in b :: TightS(s)
    case And(es) => forall x | x in es :: TightE(x)
    case Or(es) => forall x | x in es :: TightE(x)
    case Coalesce(es) => forall x | x in es :: TightE(x)
    case _ => true
  }

  predicate TightB(b: seq<Stmt>) {
    forall s | s in b :: TightS(s)
  }

  // While a block is being optimized, a rewritten statement may be an empty block for one round.
  predicate TightishB(b: seq<Stmt>) {
    forall s | s in b :: TightS(s) || s == Block([])
  }

  // A demand that no `return` inside can upset.
  predicate Undisturbed(d: Demand, effects: set<Effect>) {
    d == Held(true) ==> UnsureReturn !in effects
  }

  predicate SettledE(d: Demand, e: Expr) {
    SettlesE(d, e) && Undisturbed(d, EffectsE(e))
  }

  predicate SettledS(d: Demand, s: Stmt) {
    Settles(d, s) && Undisturbed(d, EffectsS(s))
  }

  predicate SettledB(d: Demand, b: seq<Stmt>) {
    b != [] && Settles(d, b[|b| - 1]) && Undisturbed(d, EffectsB(b))
  }

  // The optimizer keeps the value of the block: every statement is tight, or the last one decides
  // the value, whatever stands before it.
  predicate ValueB(reduce: bool, b: seq<Stmt>) {
    TightB(b) || SettledB(Held(reduce), b)
  }

  predicate ValueishB(reduce: bool, b: seq<Stmt>) {
    TightishB(b) || SettledB(Held(reduce), b)
  }

  // Less is asked where `return` stays.
  lemma {:induction false} HeldWeakerE(e: Expr)
    ensures SettlesE(Held(true), e) ==> SettlesE(Held(false), e)
    decreases e
  {
    match e
    case StmtE(b) => if b != [] { HeldWeakerS(b[|b| - 1]); }
    case And(es) => forall x | x in es ensures SettlesE(Held(true), x) ==> SettlesE(Held(false), x) { HeldWeakerE(x); }
    case Or(es) => forall x | x in es ensures SettlesE(Held(true), x) ==> SettlesE(Held(false), x) { HeldWeakerE(x); }
    case Coalesce(es) => forall x | x in es ensures SettlesE(Held(true), x) ==> SettlesE(Held(false), x) { HeldWeakerE(x); }
    case _ =>
  }

  lemma {:induction false} HeldWeakerS(s: Stmt)
    ensures Settles(Held(true), s) ==> Settles(Held(false), s)
    decreases s
  {
    match s
    case ExprS(e) => HeldWeakerE(e);
    case Block(b) => if b != [] { HeldWeakerS(b[|b| - 1]); }
    case If(_, body, branch) =>
      if body != [] && branch != [] {
        HeldWeakerS(body[|body| - 1]);
        HeldWeakerS(branch[|branch| - 1]);
      }
    case _ =>
  }

  lemma HeldWeaker(b: seq<Stmt>)
    ensures SettledB(Held(true), b) ==> SettledB(Held(false), b)
    ensures ValueB(true, b) ==> ValueB(false, b)
    ensures ValueishB(true, b) ==> ValueishB(false, b)
  {
    if b != [] { HeldWeakerS(b[|b| - 1]); }
  }

  // ---- scripts the guarantee covers ----

  // `x = x op e` may become `x op= e`, which reads x after evaluating e.
  predicate OperandKept(x: string, op: Option<string>, e: Expr) {
    op == None && Operates in EffectsE(e) && Reads(x) in EffectsE(e) ==> Assigns(x) !in EffectsE(e)
  }

  // `consts` holds every name that may be propagated as a constant.
  predicate GoodE(consts: Consts, e: Expr) {
    match e
    case Const(_) => true
    case Var(_) => true
    case StmtE(b) => ValueB(false, b) && forall s | s in b :: GoodS(consts, s)
    case Call(_, args) => forall x | x in args :: GoodE(consts, x)
    case And(es) => forall x | x in es :: GoodE(consts, x)
    case Or(es) => forall x | x in es :: GoodE(consts, x)
    case Coalesce(es) => SettlesE(Firm(consts), e) && forall x | x in es :: GoodE(consts, x)
    case Arr(es) => forall x | x in es :: GoodE(consts, x)
  }

  predicate GoodS(consts: Consts, s: Stmt) {
    match s
    case Noop => true
    case ExprS(e) => GoodE(consts, e)
    case CallS(_, args) => forall x | x in args :: GoodE(consts, x)
    case If(c, body, branch) => GoodE(consts, c) && GoodB(consts, body) && GoodB(consts, branch)
    case While(c, body) => GoodE(consts, c) && GoodB(consts, body)
    case Do(c, body, _) => GoodE(consts, c) && GoodB(consts, body)
    case For(x, counter, it, body) =>
      x !in consts && (counter.Some? ==> counter.value !in consts) &&
      GoodE(consts, it) && GoodB(consts, body)
    case Let(x, e, isConst) =>
      (isConst ==> x in consts && (SettlesE(Firm(consts), e) || consts[x])) && GoodE(consts, e)
    case Assign(x, op, e) => OperandKept(x, op, e) && GoodE(consts, e)
    case Block(b) => GoodB(consts, b)
    case Try(body, cv, branch) =>
      (cv.Some? ==> cv.value !in consts) && GoodB(consts, body) && GoodB(consts, branch)
    case Jump(_, None) => true
    case Jump(_, Some(e)) => GoodE(consts, e)
    case Return(None, _) => true
    case Return(Some(e), _) => GoodE(consts, e)
  }

  predicate GoodB(consts: Consts, b: seq<Stmt>) {
    forall s | s in b :: GoodS(consts, s)
  }

  // ---- tight statements give () unless they return a value ----

  predicate PlainOutcome(o: Outcome) {
    o.Broke? ==> o.v == UnitV
  }

  lemma {:induction false} PlainE(env: Env, fuel: nat, e: Expr, st: State)
    requires PlainBreaksE(e)
    ensures PlainOutcome(EvalE(env, fuel, e, st).o)
    decreases fuel, e
  {
    match e
    case Const(_) =>
    case Var(_) =>
    case StmtE(b) => PlainSeq(env, fuel, b, UnitV, st);
    case Call(f, args) => PlainArgs(env, fuel, args, st);
    case And(es) => PlainAll(env, fuel, es, true, st);
    case Or(es) => PlainAll(env, fuel, es, false, st);
    case Coalesce(es) => PlainFirst(env, fuel, es, st);
    case Arr(es) => PlainArgs(env, fuel, es, st);
  }

  lemma {:induction false} PlainArgs(env: Env, fuel: nat, es: seq<Expr>, st: State)
    requires forall x | x in es :: PlainBreaksE(x)
    ensures PlainOutcome(EvalArgs(env, fuel, es, st).o)
    decreases fuel, es, 0
  {
    if es != [] {
      PlainE(env, fuel, es[0], st);
      PlainArgs(env, fuel, es[1..], EvalE(env, fuel, es[0], st).st);
    }
  }

  lemma {:induction false} PlainAll(env: Env, fuel: nat, es: seq<Expr>, unit: bool, st: State)
    requires forall x | x in es :: PlainBreaksE(x)
    ensures PlainOutcome(EvalAll(env, fuel, es, unit, st).o)
    decreases fuel, es, 0
  {
    if es != [] {
      PlainE(env, fuel, es[0], st);
      PlainAll(env, fuel, es[1..], unit, EvalE(env, fuel, es[0], st).st);
    }
  }

  lemma {:induction false} PlainFirst(env: Env, fuel: nat, es: seq<Expr>, st: State)
    requires forall x | x in es :: PlainBreaksE(x)
    ensures PlainOutcome(EvalFirst(env, fuel, es, st).o)
    decreases fuel, es, 0
  {
    if es != [] {
      PlainE(env, fuel, es[0], st);
      PlainFirst(env, fuel, es[1..], EvalE(env, fuel, es[0], st).st);
    }
  }

  lemma {:induction false} PlainSeq(env: Env, fuel: nat, b: seq<Stmt>, v: Val, st: State)
    requires PlainBreaksB(b)
    ensures PlainOutcome(EvalSeq(env, fuel, b, v, st).o)
    decreases fuel, b, 0
  {
    if b != [] {
      PlainS(env, fuel, b[0], st);
      var r := EvalS(env, fuel, b[0], st);
      if r.o.Normal? { PlainSeq(env, fuel, b[1..], r.o.v, r.st); }
    }
  }

  lemma {:induction false} PlainFor(env: Env, fuel: nat, s: Stmt, n: nat, vs: seq<Val>, round: nat, st: State)
    requires s.For? && PlainBreaksB(s.body)
    ensures var o := EvalFor(env, fuel, s, n, vs, round, st).o; !o.Broke? && (o.Normal? ==> o.v == UnitV)
    decreases fuel, s, |vs|
  {
    if vs != [] {
      var st1 := if s.counter.Some? then SetAt(SetAt(st, n, IntV(round)), n + 1, vs[0])
                 else SetAt(st, n, vs[0]);
      PlainSeq(env, fuel, s.body, UnitV, st1);
      PlainFor(env, fuel, s, n, vs[1..], round + 1, EvalBlock(env, fuel, s.body, st1).st);
    }
  }

  lemma {:induction false} PlainLoop(env: Env, fuel: nat, s: Stmt, st: State)
    requires (s.While? || s.Do?) && PlainBreaks(s)
    ensures PlainOutcome(EvalS(env, fuel, s, st).o)
    ensures EvalS(env, fuel, s, st).o.Normal? ==> EvalS(env, fuel, s, st).o.v == UnitV
    decreases fuel, s, 0
  {
    if fuel > 0 {
      if s.While? {
        PlainE(env, fuel, s.cond, st);
        var r := if s.cond == Const(UnitV) then Res(Normal(BoolV(true)), st) else EvalE(env, fuel, s.cond, st);
        PlainSeq(env, fuel, s.body, UnitV, r.st);
        PlainLoop(env, fuel - 1, s, EvalBlock(env, fuel, s.body, r.st).st);
      } else {
        PlainSeq(env, fuel, s.body, UnitV, st);
        var r := EvalBlock(env, fuel, s.body, st);
        PlainE(env, fuel, s.cond, r.st);
        PlainLoop(env, fuel - 1, s, r.st);
        PlainLoop(env, fuel - 1, s, EvalE(env, fuel, s.cond, r.st).st);
      }
    }
  }

  lemma {:induction false} PlainS(env: Env, fuel: nat, s: Stmt, st: State)
    requires PlainBreaks(s)
    ensures PlainOutcome(EvalS(env, fuel, s, st).o)
    decreases fuel, s
  {
    match s
    case Noop =>
    case ExprS(e) => PlainE(env, fuel, e, st);
    case CallS(_, args) => PlainArgs(env, fuel, args, st);
    case Block(b) => PlainSeq(env, fuel, b, UnitV, st);
    case Let(_, e, _) => PlainE(env, fuel, e, st);
    case Assign(_, _, e) => PlainE(env, fuel, e, st);
    case If(c, body, branch) =>
      PlainE(env, fuel, c, st);
      var r := EvalE(env, fuel, c, st);
      PlainSeq(env, fuel, body, UnitV, r.st);
      PlainSeq(env, fuel, branch, UnitV, r.st);
    case While(_, _) => PlainLoop(env, fuel, s, st);
    case Do(_, _, _) => PlainLoop(env, fuel, s, st);
    case For(_, _, it, _) =>
      PlainE(env, fuel, it, st);
      var r := EvalE(env, fuel, it, st);
      if r.o.Normal? && r.o.v.ArrV? {
        PlainFor(env, fuel, s, |r.st.scope|, r.o.v.a, 0, PushLoopVars(s, r.st));
      }
    case Try(body, cv, branch) =>
      PlainSeq(env, fuel, body, UnitV, st);
      var r := EvalBlock(env, fuel, body, st);
      if r.o.Threw? { PlainSeq(env, fuel, branch, UnitV, PushCatchVar(cv, r.o.v, r.st)); }
    case Jump(_, _) =>
    case Return(val, _) => if val.Some? { PlainE(env, fuel, val.value, st); }
  }

  lemma ValuelessIsUnit(env: Env, fuel: nat, s: Stmt, st: State)
    requires TightS(s) && !ReturnsValue(s) && EvalS(env, fuel, s, st).o.Normal?
    ensures EvalS(env, fuel, s, st).o.v == UnitV
  {
    if s.While? || s.Do? {
      PlainLoop(env, fuel, s, st);
    } else if s.For? {
      var r := EvalE(env, fuel, s.iter, st);
      PlainFor(env, fuel, s, |r.st.scope|, r.o.v.a, 0, PushLoopVars(s, r.st));
    }
  }
}
