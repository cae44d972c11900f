// The guarantee for whole scripts (Engine::optimize_top_level).

module Guarantee {
  import opened Options
  import opened Ast
  import opened Eval
  import opened Conditions
  import opened Simulation
  import opened Phases
  import opened NormalForm
  import opened NormalMeans
  import opened Composition
  import opened Rewriting
  import opened Optimizer
  import opened Checked

  // A script runs in the scope it is given, and `return v` ends it with the value v.
  function RunScript(env: Env, fuel: nat, b: seq<Stmt>, st: State): Res {
    Run(env, false, true, fuel, b, st)
  }

  // In the interpreter, every run of `b` from `scope` that completes without a failing variable
  // read, failing type check or assignment to a constant is a run of `r`: the same calls in the
  // same order, the same scope at the end, the same exception if it ends by one, and the same value
  // if the value of `b` is what the optimizer believes it to be.
  ghost predicate KeepsMeaning(env: Env, scope: seq<Entry>, b: seq<Stmt>, r: seq<Stmt>) {
    forall fuel: nat, trace: seq<Event> ::
      Done(RunScript(env, fuel, b, State(scope, trace)).o) ==>
        RunScript(Interpreter(env), fuel, b, State(scope, trace)) == RunScript(env, fuel, b, State(scope, trace)) &&
        Kept(ValueB(true, b), RunScript(Interpreter(env), fuel, b, State(scope, trace)),
             RunScript(Interpreter(env), fuel, r, State(scope, trace)))
  }

  // Without `try` in the script, every run of the interpreter that succeeds is covered.
  ghost predicate KeepsSuccess(env: Env, scope: seq<Entry>, b: seq<Stmt>, r: seq<Stmt>) {
    forall fuel: nat, trace: seq<Event> ::
      RunScript(Interpreter(env), fuel, b, State(scope, trace)).o.Normal? ==>
        Kept(ValueB(true, b), RunScript(Interpreter(env), fuel, b, State(scope, trace)),
             RunScript(Interpreter(env), fuel, r, State(scope, trace)))
  }

  lemma ScriptMatch(env: Env, fuel: nat, b: seq<Stmt>, st: State)
    requires !env.catchSoft
    ensures Done(RunScript(env, fuel, b, st).o) ==>
      RunScript(Interpreter(env), fuel, b, st) == RunScript(env, fuel, b, st)
    ensures TryFreeB(b) && RunScript(Interpreter(env), fuel, b, st).o.Normal? ==> Done(RunScript(env, fuel, b, st).o)
  {
    MatchSeq(env, TryFreeB(b), fuel, b, UnitV, st);
  }

  lemma MeaningKept(env: Env, vars: Vars, scope: seq<Entry>, b: seq<Stmt>, r: seq<Stmt>)
    requires !env.catchSoft && Agree(vars, scope) && SimB(env, vars, false, true, ValueB(true, b), b, r)
    ensures KeepsMeaning(env, scope, b, r)
    ensures TryFreeB(b) ==> KeepsSuccess(env, scope, b, r)
  {
    forall fuel: nat, trace: seq<Event>
      ensures var st := State(scope, trace);
        var c, i := RunScript(env, fuel, b, st), RunScript(Interpreter(env), fuel, b, st);
        (Done(c.o) ==> i == c && Kept(ValueB(true, b), i, RunScript(Interpreter(env), fuel, r, st))) &&
        (TryFreeB(b) && i.o.Normal? ==> Done(c.o))
    {
      var st := State(scope, trace);
      ScriptMatch(env, fuel, b, st);
      ScriptMatch(env, fuel, r, st);
      assert Agree(vars, st.scope);
    }
  }

  method OptimizeTopLevel(scope: seq<Entry>, b: seq<Stmt>, ghost env: Env, ghost consts: Consts)
      returns (r: seq<Stmt>)
    requires !env.catchSoft && GoodB(consts, b) && Propagates(scope, consts)
    ensures KeepsMeaning(env, scope, b, r)
    ensures TryFreeB(b) ==> KeepsSuccess(env, scope, b, r)
    ensures NormB(ScopeVars(scope), r, true, false, true)
    ensures !Wasteful(r)
    ensures forall i: nat, place, part | i < |r| && At(S(r[i]), place, part) :: !Reducible(part)
    ensures WB(r) <= WB(b)
  {
    hide At, Reducible, Wasteful, NormB;
    var state := new OptimizerState(scope, env, consts);
    r := state.OptimizeStmtBlock(b, true, false, true);
    MeaningKept(env, ScopeVars(scope), scope, b, r);
    NothingLeftAnywhere(ScopeVars(scope), r, true, false, true);
  }
}
