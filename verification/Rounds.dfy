// Rounds of `optimize_stmt_block`: one pass over the statements, then the removal of what is idle,
// until a round changes nothing.

module Rounds {
  import opened Options
  import opened Ast
  import opened Eval
  import opened Conditions
  import opened Simulation
  import opened Phases
  import opened NormalForm
  import opened Composition
  import opened Rewriting

  // ---- one pass ----

  // `r` is what has become of `b` when its first `i` statements are done; `vars` is the stack then.
  ghost predicate PassAt(cx: Ctx, was: bool, now: bool, preserve: bool, b: seq<Stmt>, r: seq<Stmt>, i: nat, vars: Vars) {
    i <= |r| == |b| && (was ==> now) && BetterB(cx.consts, b, r) && (now && !was ==> WB(r) < WB(b)) &&
    (forall j | i <= j < |r| :: r[j] == b[j]) &&
    vars == VarsAt(cx.vars, r, i) && VarsIn(vars, cx.consts) &&
    PassSim(cx.env, cx.vars, vars, preserve && ValueishB(false, b) && i == |b|, b[..i], r[..i]) &&
    (preserve && i == |b| ==> HoldsB(cx.consts, false, b, r)) &&
    (!now ==> CleanUpTo(cx.vars, preserve, b, r, i))
  }

  ghost predicate CleanUpTo(vars: Vars, preserve: bool, b: seq<Stmt>, r: seq<Stmt>, i: nat)
    requires i <= |r| == |b|
  {
    forall j | 0 <= j < i ::
      EqS(b[j], r[j]) && NormS(VarsAt(vars, r, j), r[j], preserve && j == |b| - 1) && r[j] != Block([])
  }

  lemma PassStart(cx: Ctx, was: bool, preserve: bool, b: seq<Stmt>)
    requires Proper(cx) && GoodB(cx.consts, b)
    ensures PassAt(cx, was, was, preserve, b, b, 0, cx.vars)
  {
    assert b[..0] == [];
  }

  lemma PassGood(cx: Ctx, was: bool, now: bool, preserve: bool, b: seq<Stmt>, r: seq<Stmt>, i: nat, vars: Vars)
    requires PassAt(cx, was, now, preserve, b, r, i, vars) && i < |r|
    ensures GoodS(cx.consts, r[i]) && WS(r[i]) <= WB(b) && VarsIn(vars, cx.consts)
  {
    StmtGood(cx.consts, b, r, i);
  }

  lemma {:induction false} VarsAtSame(vars: Vars, r: seq<Stmt>, r': seq<Stmt>, i: nat)
    requires i <= |r| && i <= |r'| && r[..i] == r'[..i]
    ensures VarsAt(vars, r', i) == VarsAt(vars, r, i)
  {
    if i > 0 {
      assert r[..i - 1] == r[..i][..i - 1] && r'[..i - 1] == r'[..i][..i - 1];
      assert r[i - 1] == r[..i][i - 1] && r'[i - 1] == r'[..i][i - 1];
      VarsAtSame(vars, r, r', i - 1);
    }
  }

  lemma CleanNext(vars: Vars, preserve: bool, b: seq<Stmt>, r: seq<Stmt>, i: nat, s': Stmt)
    requires i < |r| == |b| && r[i] == b[i] && CleanUpTo(vars, preserve, b, r, i)
    requires EqS(r[i], s') && NormS(VarsAt(vars, r, i), s', preserve && i == |b| - 1) && s' != Block([])
    ensures CleanUpTo(vars, preserve, b, r[i := s'], i + 1)
  {
    var r' := r[i := s'];
    forall j | 0 <= j < i + 1
      ensures EqS(b[j], r'[j]) && r'[j] != Block([])
      ensures NormS(VarsAt(vars, r', j), r'[j], preserve && j == |b| - 1)
    {
      assert r[..j] == r'[..j];
      VarsAtSame(vars, r, r', j);
    }
  }

  // The statements done so far, and one more.
  lemma SimNext(cx: Ctx, was: bool, now: bool, preserve: bool, b: seq<Stmt>, r: seq<Stmt>, i: nat, vars: Vars, s': Stmt)
    requires i < |r| == |b| && r[i] == b[i] && PassSim(cx.env, cx.vars, vars, false, b[..i], r[..i])
    requires RewrittenS(cx.(vars := vars), was, now, preserve && i + 1 >= |b|, r[i], s')
    requires RewrittenLet(cx.(vars := vars), r[i], s')
    ensures PassSim(cx.env, cx.vars, Pushed(vars, s'), preserve && ValueishB(false, b) && i + 1 == |b|, b[..i + 1], r[i := s'][..i + 1])
  {
    var s, keep := r[i], preserve && ValueishB(false, b) && i == |b| - 1;
    assert keep ==> KeepsValue(preserve && i + 1 >= |b|, s) by {
      assert r[i] in b;
    }
    hide BetterS, SimS, SimE, PassSim, ValueishB, TightS, EqS, NormS;
    SimSWeaken(cx.env, vars, KeepsValue(preserve && i + 1 >= |b|, s), keep, s, s');
    assert b[..i + 1] == b[..i] + [s] && r[i := s'][..i + 1] == r[..i] + [s'];
    PassStep(cx.env, cx.vars, vars, keep, b[..i], r[..i], s, s');
  }

  lemma PassNext(cx: Ctx, was: bool, now: bool, now': bool, preserve: bool,
                 b: seq<Stmt>, r: seq<Stmt>, i: nat, vars: Vars, s': Stmt)
    requires PassAt(cx, was, now, preserve, b, r, i, vars) && i < |r|
    requires RewrittenS(cx.(vars := vars), now, now', preserve && i + 1 >= |b|, r[i], s')
    requires RewrittenLet(cx.(vars := vars), r[i], s')
    ensures PassAt(cx, was, now', preserve, b, r[i := s'], i + 1, Pushed(vars, s'))
  {
    hide RewrittenLet, BetterB, BetterS, SimS, PassSim, ValueishB, KeepsValue, VarsIn, CleanUpTo, GoodS, NormS, EqS, HoldsB, HoldsS;
    if preserve && i + 1 == |b| { LastHolds(cx.consts, b, r, i, s'); }
    SimNext(cx, now, now', preserve, b, r, i, vars, s');
    GoodOf(cx.consts, r[i], s');
    SizeB(cx.consts, b, r);
    VarsInPushed(vars, cx.consts, s');
    ReplaceStep(cx.consts, b, r, i, s');
    assert r[i := s'][..i] == r[..i];
    VarsAtSame(cx.vars, r, r[i := s'], i);
    if !now' { CleanNext(cx.vars, preserve, b, r, i, s'); }
  }

  // The statement that is done last decides as it did.
  lemma LastHolds(consts: Consts, b: seq<Stmt>, r: seq<Stmt>, i: nat, s': Stmt)
    requires i + 1 == |b| == |r| && r[i] == b[i] && BetterB(consts, b, r) && HoldsS(consts, r[i], s')
    requires BetterS(consts, r[i], s')
    ensures HoldsB(consts, false, b, r[i := s'])
  {
    ReplaceStep(consts, b, r, i, s');
    BSplit(b, i);
    var r' := r[i := s'];
    forall d: Demand | Fits(d, false, consts) && SettledB(d, b)
      ensures SettledB(d, r')
    {
      assert SettledS(d, b[i]);
    }
  }

  lemma GoodOf(consts: Consts, s: Stmt, s': Stmt)
    requires BetterS(consts, s, s')
    ensures GoodS(consts, s') && WS(s') <= WS(s)
  {
  }

  // ---- one round ----

  ghost predicate RoundDone(cx: Ctx, now: bool, preserve: bool, internal: bool, reduce: bool,
                            b: seq<Stmt>, r: seq<Stmt>)
  {
    Phase(cx.env, cx.vars, cx.consts, internal, reduce, preserve, b, r) && (now ==> WB(r) < WB(b)) &&
    (!now ==> EqB(b, r) && NormB(cx.vars, r, preserve, internal, reduce))
  }

  lemma LiveKept(b: seq<Stmt>, r: seq<Stmt>)
    requires EqB(b, r) && Live(b) == b
    ensures Live(r) == r
  {
    var k := |b|;
    forall i | 0 <= i < |b| - 1
      ensures !IsControlFlowBreak(r[i])
    {
      if IsControlFlowBreak(b[i]) {
        LiveShort(b, i);
      }
      assert EqS(b[i], r[i]);
    }
    if r != [] {
      if IsControlFlowBreak(r[|r| - 1]) { LiveIs(r, |r| - 1); } else { LiveIs(r, |r|); }
    }
  }

  lemma {:induction false} LiveShort(b: seq<Stmt>, k: nat)
    requires k < |b| && IsControlFlowBreak(b[k])
    ensures |Live(b)| <= k + 1
  {
    if k > 0 && !IsControlFlowBreak(b[0]) { LiveShort(b[1..], k - 1); }
  }

  lemma LivePart(cx: Ctx, internal: bool, reduce: bool, preserve: bool, b: seq<Stmt>)
    requires GoodB(cx.consts, b)
    ensures Phase(cx.env, cx.vars, cx.consts, internal, reduce, preserve, b, Live(b))
  {
    var keep := preserve && ValueishB(reduce, b);
    LiveSim(cx.env, cx.vars, b);
    LiveShrinks(b);
    InheritSubset(cx.consts, b, Live(b));
    LiveHolds(cx.consts, reduce, b);
    hide ValueishB, HoldsB, SimSeq, Inherits, GoodB, Live;
    SimSeqRun(cx.env, cx.vars, internal, reduce, keep, b, Live(b));
    ListPhase(cx.env, cx.vars, cx.consts, internal, reduce, preserve, b, Live(b));
  }

  lemma PassPart(cx: Ctx, was: bool, now: bool, internal: bool, reduce: bool, preserve: bool,
                 b: seq<Stmt>, done: seq<Stmt>, vars: Vars)
    requires PassAt(cx, was, now, preserve, b, done, |done|, vars)
    ensures Phase(cx.env, cx.vars, cx.consts, internal, reduce, preserve, b, done)
  {
    assert b[..|b|] == b && done[..|done|] == done;
    var keep := preserve && ValueishB(false, b);
    if reduce { HeldWeaker(b); }
    assert preserve ==> HoldsB(cx.consts, reduce, b, done) by {
      assert forall d :: Fits(d, reduce, cx.consts) ==> Fits(d, false, cx.consts);
    }
    hide BetterB, PassSim, SimSeq, SimB, ValueishB, HoldsB;
    PassDone(cx.env, cx.vars, vars, keep, b, done);
    SimSeqRun(cx.env, cx.vars, internal, reduce, keep, b, done);
    SimBWeaken(cx.env, cx.vars, internal, reduce, keep, preserve && ValueishB(reduce, b), b, done);
  }

  // Removing what is idle.
  lemma IdlePart(cx: Ctx, internal: bool, reduce: bool, preserve: bool, done: seq<Stmt>)
    requires Proper(cx) && GoodB(cx.consts, done)
    ensures Phase(cx.env, cx.vars, cx.consts, internal, reduce, preserve, done, Survivors(done, preserve, internal))
  {
    var kept := Survivors(done, preserve, internal);
    SurvivorsSim(cx.env, cx.vars, internal, reduce, preserve, done);
    SurvivorsShrink(done, preserve, internal, 0);
    assert done[0..] == done;
    InheritSubset(cx.consts, done, kept);
    if preserve { SurvivorsHold(cx.consts, reduce, internal, done); }
    hide SimB, HoldsB, Inherits, GoodB, Survivors;
    ListPhase(cx.env, cx.vars, cx.consts, internal, reduce, preserve, done, kept);
  }

  lemma TailPart(cx: Ctx, internal: bool, reduce: bool, preserve: bool, kept: seq<Stmt>)
    requires Proper(cx) && GoodB(cx.consts, kept)
    ensures Phase(cx.env, cx.vars, cx.consts, internal, reduce, preserve, kept, Trim(kept, preserve, internal, reduce))
  {
    TrimSim(cx.env, cx.vars, kept, preserve, internal, reduce);
    TrimInherits(cx.consts, kept, preserve, internal, reduce);
    if preserve { TrimHolds(cx.consts, kept, internal, reduce); }
    assert preserve ==> HoldsB(cx.consts, reduce, kept, Trim(kept, preserve, internal, reduce));
    hide SimB, HoldsB, Inherits, GoodB, Trim;
    ListPhase(cx.env, cx.vars, cx.consts, internal, reduce, preserve, kept, Trim(kept, preserve, internal, reduce));
  }

  lemma PhaseGood(cx: Ctx, internal: bool, reduce: bool, preserve: bool, b: seq<Stmt>, r: seq<Stmt>)
    requires Phase(cx.env, cx.vars, cx.consts, internal, reduce, preserve, b, r)
    ensures GoodB(cx.consts, r)
  {
  }

  lemma RoundSim(cx: Ctx, was: bool, now: bool, preserve: bool, internal: bool, reduce: bool,
                 b: seq<Stmt>, done: seq<Stmt>, vars: Vars)
    requires Proper(cx) && GoodB(cx.consts, b) && PassAt(cx, was, now, preserve, Live(b), done, |done|, vars)
    ensures var r := Trim(Survivors(done, preserve, internal), preserve, internal, reduce);
      Phase(cx.env, cx.vars, cx.consts, internal, reduce, preserve, b, r)
  {
    hide Phase, PassAt, GoodB, Live, Survivors, Trim, Proper;
    var kept := Survivors(done, preserve, internal);
    var r := Trim(kept, preserve, internal, reduce);
    LivePart(cx, internal, reduce, preserve, b);
    PassPart(cx, was, now, internal, reduce, preserve, Live(b), done, vars);
    RoundStep(cx.env, cx.vars, cx.consts, internal, reduce, preserve, b, Live(b), done);
    PhaseGood(cx, internal, reduce, preserve, b, done);
    IdlePart(cx, internal, reduce, preserve, done);
    RoundStep(cx.env, cx.vars, cx.consts, internal, reduce, preserve, b, done, kept);
    PhaseGood(cx, internal, reduce, preserve, b, kept);
    TailPart(cx, internal, reduce, preserve, kept);
    RoundStep(cx.env, cx.vars, cx.consts, internal, reduce, preserve, b, kept, r);
  }

  lemma LiveGood(consts: Consts, b: seq<Stmt>)
    requires GoodB(consts, b)
    ensures GoodB(consts, Live(b)) && WB(Live(b)) <= WB(b)
  {
    LiveShrinks(b);
  }

  lemma {:induction false} VarsAtGrows(vars: Vars, r: seq<Stmt>, i: nat)
    requires i <= |r|
    ensures |VarsAt(vars, r, i)| >= |vars| && VarsAt(vars, r, i)[..|vars|] == vars
  {
    if i > 0 { VarsAtGrows(vars, r, i - 1); }
  }

  lemma PassStack(cx: Ctx, was: bool, now: bool, preserve: bool, b: seq<Stmt>, r: seq<Stmt>, vars: Vars)
    requires PassAt(cx, was, now, preserve, b, r, |r|, vars)
    ensures |vars| >= |cx.vars| && vars[..|cx.vars|] == cx.vars
  {
    VarsAtGrows(cx.vars, r, |r|);
  }

  lemma RoundSize(cx: Ctx, was: bool, now: bool, preserve: bool, internal: bool, reduce: bool,
                  b: seq<Stmt>, done: seq<Stmt>, vars: Vars)
    requires PassAt(cx, was, now, preserve, Live(b), done, |done|, vars) && (was <==> Live(b) != b)
    ensures var kept := Survivors(done, preserve, internal);
      var r := Trim(kept, preserve, internal, reduce);
      now || kept != done || r != kept ==> WB(r) < WB(b)
  {
    var kept := Survivors(done, preserve, internal);
    LiveShrinks(b);
    SurvivorsShrink(done, preserve, internal, 0);
    assert done[0..] == done;
  }

  lemma RoundClean(cx: Ctx, preserve: bool, internal: bool, reduce: bool, b: seq<Stmt>, r: seq<Stmt>, vars: Vars)
    requires PassAt(cx, false, false, preserve, b, r, |r|, vars) && Live(b) == b
    requires Survivors(r, preserve, internal) == r && Trim(r, preserve, internal, reduce) == r
    ensures EqB(b, r) && NormB(cx.vars, r, preserve, internal, reduce)
  {
    assert CleanUpTo(cx.vars, preserve, b, r, |r|);
    assert EqB(b, r);
    LiveKept(b, r);
    assert TidyBlock(r, preserve, internal, reduce);
  }

  lemma RoundIs(cx: Ctx, now: bool, preserve: bool, internal: bool, reduce: bool,
                b: seq<Stmt>, done: seq<Stmt>, vars: Vars)
    requires Proper(cx) && GoodB(cx.consts, b)
    requires PassAt(cx, Live(b) != b, now, preserve, Live(b), done, |done|, vars)
    ensures var kept := Survivors(done, preserve, internal);
      var r := Trim(kept, preserve, internal, reduce);
      RoundDone(cx, now || kept != done || r != kept, preserve, internal, reduce, b, r)
  {
    var kept := Survivors(done, preserve, internal);
    var r := Trim(kept, preserve, internal, reduce);
    RoundSim(cx, Live(b) != b, now, preserve, internal, reduce, b, done, vars);
    RoundSize(cx, Live(b) != b, now, preserve, internal, reduce, b, done, vars);
    if !(now || kept != done || r != kept) {
      assert Live(b) == b;
      RoundClean(cx, preserve, internal, reduce, b, r, vars);
    }
  }

  // ---- all rounds ----

  ghost predicate BlockAt(cx: Ctx, was: bool, dirty: bool, preserve: bool, internal: bool, reduce: bool,
                          b: seq<Stmt>, r: seq<Stmt>)
  {
    (was ==> dirty) && BetterB(cx.consts, b, r) && (dirty && !was ==> WB(r) < WB(b)) &&
    (TightB(b) ==> TightishB(r)) && (preserve ==> HoldsB(cx.consts, reduce, b, r)) &&
    SimB(cx.env, cx.vars, internal, reduce, preserve && ValueB(reduce, b), b, r) &&
    (!dirty ==> r == b && Flatten(b) == b)
  }

  lemma BlockSize(cx: Ctx, was: bool, dirty: bool, preserve: bool, internal: bool, reduce: bool,
                  b: seq<Stmt>, r: seq<Stmt>)
    requires BlockAt(cx, was, dirty, preserve, internal, reduce, b, r)
    ensures GoodB(cx.consts, r) && WB(r) <= WB(b)
  {
  }

  lemma EmptyList(cx: Ctx, was: bool, preserve: bool, internal: bool, reduce: bool)
    ensures RewrittenB(cx, was, was, preserve, internal, reduce, [], [])
  {
  }

  lemma BlockStart(cx: Ctx, was: bool, preserve: bool, internal: bool, reduce: bool, b: seq<Stmt>)
    requires GoodB(cx.consts, b) && WB(Flatten(b)) <= WB(b) && (Flatten(b) != b ==> WB(Flatten(b)) < WB(b))
    ensures BlockAt(cx, was, was || Flatten(b) != b, preserve, internal, reduce, b, Flatten(b))
  {
    FlattenSim(cx.env, cx.vars, reduce, b);
    FlattenInherits(cx.consts, b);
    FlattenHolds(cx.consts, reduce, b);
    var keep := preserve && ValueB(reduce, b);
    hide ValueB, HoldsB, SimSeq, Flatten;
    SimSeqRun(cx.env, cx.vars, internal, reduce, ValueB(reduce, b), b, Flatten(b));
    SimBWeaken(cx.env, cx.vars, internal, reduce, ValueB(reduce, b), keep, b, Flatten(b));
  }

  lemma BlockChain(cx: Ctx, was: bool, dirty: bool, now: bool, preserve: bool, internal: bool, reduce: bool,
                   b: seq<Stmt>, r: seq<Stmt>, r': seq<Stmt>)
    requires BlockAt(cx, was, dirty, preserve, internal, reduce, b, r)
    requires RoundDone(cx, now, preserve, internal, reduce, r, r')
    ensures BetterB(cx.consts, b, r') && (TightB(b) ==> TightishB(r'))
    ensures preserve ==> HoldsB(cx.consts, reduce, b, r')
    ensures SimB(cx.env, cx.vars, internal, reduce, preserve && ValueB(reduce, b), b, r')
  {
    var keep := preserve && ValueB(reduce, b);
    if keep { ValueishAfter(cx.consts, reduce, b, r); }
    if preserve { HoldsTrans(cx.consts, reduce, b, r, r'); }
    hide ValueB, ValueishB, HoldsB, TightB, TightishB;
    SimBWeaken(cx.env, cx.vars, internal, reduce, preserve && ValueishB(reduce, r), keep, r, r');
    SimBTrans(cx.env, cx.vars, internal, reduce, keep, b, r, r');
  }

  lemma ValueishAfter(consts: Consts, reduce: bool, b: seq<Stmt>, r: seq<Stmt>)
    requires (TightB(b) ==> TightishB(r)) && HoldsB(consts, reduce, b, r) && ValueB(reduce, b)
    ensures ValueishB(reduce, r)
  {
    assert Fits(Held(reduce), reduce, consts);
  }

  lemma BlockNext(cx: Ctx, was: bool, dirty: bool, preserve: bool, internal: bool, reduce: bool,
                  b: seq<Stmt>, r: seq<Stmt>, r': seq<Stmt>)
    requires BlockAt(cx, was, dirty, preserve, internal, reduce, b, r)
    requires RoundDone(cx, true, preserve, internal, reduce, r, r')
    ensures BlockAt(cx, was, true, preserve, internal, reduce, b, r') && WB(r') < WB(r)
  {
    BlockChain(cx, was, dirty, true, preserve, internal, reduce, b, r, r');
  }

  lemma BlockFinish(cx: Ctx, was: bool, dirty: bool, preserve: bool, internal: bool, reduce: bool,
                    b: seq<Stmt>, r: seq<Stmt>, r': seq<Stmt>)
    requires BlockAt(cx, was, dirty, preserve, internal, reduce, b, r)
    requires RoundDone(cx, false, preserve, internal, reduce, r, r')
    ensures RewrittenB(cx, was, dirty, preserve, internal, reduce, b, r')
  {
    BlockChain(cx, was, dirty, false, preserve, internal, reduce, b, r, r');
  }
}
