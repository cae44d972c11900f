// Compiling a script together with everything it imports: a worklist of import paths is worked
// off until the modules collected are exactly those reachable through literal imports.

module Imports {
  import opened Options

  // A statement as far as imports go; an import whose path is no string literal has no `path`.
  datatype Stmt = Import(path: Option<string>) | Nested(body: seq<Stmt>)
  type Ast = seq<Stmt>

  type Module = nat
  type Error = nat

  datatype Parsed = Script(ast: Ast) | Broken(error: Error)
  datatype Loaded = Module(value: Module) | Missing(error: Error)

  // What the engine's module resolver answers for a path; a resolver need not have the source.
  datatype Answer = Answer(source: Option<Parsed>, compiled: Loaded)
  type Resolver = string -> Answer

  datatype Outcome = Bundle(modules: Option<map<string, Module>>) | Failure(error: Error)

  // ---------------------------------------------------------------------------------------
  // The import graph.

  // A place in a script: an index into its statements, then into the statements inside, and so on.
  // At `place` stands an import of the literal `path`.
  predicate At(ast: Ast, place: seq<nat>, path: string) {
    && place != [] && place[0] < |ast|
    && if |place| == 1 then ast[place[0]] == Import(Some(path))
       else ast[place[0]].Nested? && At(ast[place[0]].body, place[1..], path)
  }

  ghost predicate Occurs(ast: Ast, path: string) {
    exists place :: At(ast, place, path)
  }

  function Literals(ast: Ast): set<string> {
    if ast == [] then {} else LiteralsOf(ast[0]) + Literals(ast[1..])
  }

  function LiteralsOf(stmt: Stmt): set<string> {
    match stmt
    case Import(path) => if path.Some? then {path.value} else {}
    case Nested(body) => Literals(body)
  }

  lemma OccursLater(ast: Ast, path: string)
    requires ast != [] && Occurs(ast[1..], path)
    ensures Occurs(ast, path)
  {
    var place :| At(ast[1..], place, path);
    assert At(ast, [place[0] + 1] + place[1..], path) by {
      assert ast[1..][place[0]] == ast[place[0] + 1];
      assert ([place[0] + 1] + place[1..])[1..] == place[1..];
    }
  }

  lemma OccursInside(ast: Ast, path: string)
    requires ast != [] && ast[0].Nested? && Occurs(ast[0].body, path)
    ensures Occurs(ast, path)
  {
    var place :| At(ast[0].body, place, path);
    assert ([0] + place)[1..] == place;
    assert At(ast, [0] + place, path);
  }

  lemma {:induction false} LiteralAt(ast: Ast, place: seq<nat>, path: string)
    requires At(ast, place, path)
    ensures path in Literals(ast)
    decreases ast, |place|, if place == [] then 0 else place[0]
  {
    if place[0] > 0 {
      var place' := [place[0] - 1] + place[1..];
      assert place'[1..] == place[1..] && ast[1..][place'[0]] == ast[place[0]];
      LiteralAt(ast[1..], place', path);
    } else if |place| > 1 {
      LiteralAt(ast[0].body, place[1..], path);
    }
  }

  lemma {:induction false} LiteralOccurs(ast: Ast, path: string)
    requires path in Literals(ast)
    ensures Occurs(ast, path)
    decreases ast
  {
    if path in LiteralsOf(ast[0]) {
      if ast[0].Nested? {
        LiteralOccurs(ast[0].body, path);
        OccursInside(ast, path);
      } else {
        assert At(ast, [0], path);
      }
    } else {
      LiteralOccurs(ast[1..], path);
      OccursLater(ast, path);
    }
  }

  // The literals found are the imports that stand somewhere in the script, at any depth.
  lemma FoundExactly(ast: Ast)
    ensures forall path :: path in Literals(ast) <==> Occurs(ast, path)
  {
    forall path: string
      ensures path in Literals(ast) <==> Occurs(ast, path)
    {
      if path in Literals(ast) { LiteralOccurs(ast, path); }
      if place :| At(ast, place, path) { LiteralAt(ast, place, path); }
    }
  }

  lemma {:induction false} LiteralsNext(ast: Ast, i: nat)
    requires i < |ast|
    ensures Literals(ast[..i + 1]) == Literals(ast[..i]) + LiteralsOf(ast[i])
  {
    if i > 0 {
      LiteralsNext(ast[1..], i - 1);
      assert ast[..i + 1][1..] == ast[1..][..i];
      assert ast[..i][1..] == ast[1..][..i - 1];
    } else {
      assert ast[..1][1..] == [] && ast[..1][0] == ast[0];
    }
  }

  // The paths the module at `path` imports.
  function Links(resolve: Resolver, path: string): set<string> {
    match resolve(path).source
    case Some(Script(ast)) => Literals(ast)
    case _ => {}
  }

  // The source of the module at `from` imports `path` somewhere.
  ghost predicate ImportsPath(resolve: Resolver, from: string, path: string) {
    match resolve(from).source
    case Some(Script(ast)) => Occurs(ast, path)
    case _ => false
  }

  lemma LinksExactly(resolve: Resolver, from: string, path: string)
    ensures path in Links(resolve, from) <==> ImportsPath(resolve, from, path)
  {
    match resolve(from).source
    case Some(Script(ast)) => FoundExactly(ast);
    case _ =>
  }

  // A chain of imports from the script down to the last path.
  ghost predicate Chain(resolve: Resolver, script: Ast, chain: seq<string>) {
    && chain != []
    && Occurs(script, chain[0])
    && forall k :: 0 < k < |chain| ==> ImportsPath(resolve, chain[k - 1], chain[k])
  }

  ghost predicate Reachable(resolve: Resolver, script: Ast, path: string) {
    exists chain :: Chain(resolve, script, chain) && chain[|chain| - 1] == path
  }

  lemma ReachableRoot(resolve: Resolver, script: Ast, path: string)
    requires path in Literals(script)
    ensures Reachable(resolve, script, path)
  {
    FoundExactly(script);
    assert Chain(resolve, script, [path]);
  }

  lemma ReachableNext(resolve: Resolver, script: Ast, from: string, path: string)
    requires Reachable(resolve, script, from) && path in Links(resolve, from)
    ensures Reachable(resolve, script, path)
  {
    var chain :| Chain(resolve, script, chain) && chain[|chain| - 1] == from;
    LinksExactly(resolve, from, path);
    assert Chain(resolve, script, chain + [path]);
    assert (chain + [path])[|chain|] == path;
  }

  // The graph is finite: some finite set holds every path the imports lead to.
  ghost predicate Spans(graph: set<string>, resolve: Resolver, script: Ast) {
    && (forall path :: Occurs(script, path) ==> path in graph)
    && forall from, path :: from in graph && ImportsPath(resolve, from, path) ==> path in graph
  }

  lemma SpansLinks(graph: set<string>, resolve: Resolver, script: Ast)
    requires Spans(graph, resolve, script)
    ensures Literals(script) <= graph
    ensures forall path :: path in graph ==> Links(resolve, path) <= graph
  {
    hide Occurs, ImportsPath;
    FoundExactly(script);
    forall from, path | from in graph && path in Links(resolve, from)
      ensures path in graph
    {
      LinksExactly(resolve, from, path);
    }
  }

  // A set that holds the roots and all links of its members holds everything reachable.
  lemma {:induction false} Closed(resolve: Resolver, script: Ast, paths: set<string>, chain: seq<string>)
    requires Literals(script) <= paths && forall path :: path in paths ==> Links(resolve, path) <= paths
    requires Chain(resolve, script, chain)
    ensures chain[|chain| - 1] in paths
  {
    hide Occurs, ImportsPath;
    if |chain| > 1 {
      var shorter := chain[..|chain| - 1];
      Closed(resolve, script, paths, shorter);
      LinksExactly(resolve, chain[|chain| - 2], chain[|chain| - 1]);
    } else {
      FoundExactly(script);
    }
  }

  predicate Loads(resolve: Resolver, path: string) {
    && resolve(path).compiled.Module?
    && (resolve(path).source.Some? ==> resolve(path).source.value.Script?)
  }

  // How often a path is resolved: once more if the module imports itself.
  ghost function Turns(resolve: Resolver, path: string): nat {
    if ImportsPath(resolve, path, path) then 2 else 1
  }

  // ---------------------------------------------------------------------------------------
  // The worklist.

  method CollectStmt(stmt: Stmt, modules: map<string, Module>, imports: set<string>) returns (imports': set<string>)
    ensures imports' == imports + (LiteralsOf(stmt) - modules.Keys)
  {
    match stmt
    case Import(path) =>
      if path.Some? && path.value !in modules && path.value !in imports {
        imports' := imports + {path.value};
      } else {
        imports' := imports;
      }
    case Nested(body) =>
      imports' := CollectImports(body, modules, imports);
  }

  method CollectImports(ast: Ast, modules: map<string, Module>, imports: set<string>) returns (imports': set<string>)
    ensures imports' == imports + (Literals(ast) - modules.Keys)
    ensures forall path :: path in imports' <==> path in imports || (Occurs(ast, path) && path !in modules)
  {
    hide Occurs;
    FoundExactly(ast);
    imports' := imports;
    var i := 0;
    while i < |ast|
      invariant 0 <= i <= |ast|
      invariant imports' == imports + (Literals(ast[..i]) - modules.Keys)
    {
      LiteralsNext(ast, i);
      imports' := CollectStmt(ast[i], modules, imports');
      i := i + 1;
    }
    assert ast[..i] == ast;
  }

  // What the worklist keeps. `done` are the paths whose modules are filed: together with the
  // list they hold the roots and all links of filed modules, and nothing that is unreachable.
  ghost predicate Covered(resolve: Resolver, script: Ast, done: set<string>, imports: set<string>) {
    && Literals(script) <= done + imports
    && (forall path :: path in done ==> Links(resolve, path) <= done + imports)
    && (forall path :: path in done ==> Loads(resolve, path))
    && (forall path :: path in done + imports ==> Reachable(resolve, script, path))
  }

  // `visits` are the paths resolved so far. A filed path is on the list again only if its module
  // imports itself and has been resolved once.
  ghost predicate Counted(resolve: Resolver, done: set<string>, imports: set<string>, visits: multiset<string>) {
    && (forall path :: path in imports * done ==> path in Links(resolve, path) && visits[path] == 1)
    && (forall path :: path in done - imports ==> visits[path] == Turns(resolve, path))
    && (forall path :: path !in done ==> visits[path] == 0)
  }

  ghost predicate Filed(resolve: Resolver, modules: map<string, Module>) {
    forall path :: path in modules ==> resolve(path).compiled == Module(modules[path])
  }

  ghost predicate Working(graph: set<string>, resolve: Resolver, script: Ast, modules: map<string, Module>,
                          imports: set<string>, visits: multiset<string>) {
    && Covered(resolve, script, modules.Keys, imports)
    && Counted(resolve, modules.Keys, imports, visits)
    && Filed(resolve, modules)
    && modules.Keys + imports <= graph
  }

  // The list after a turn on `path`.
  function After(resolve: Resolver, done: set<string>, imports: set<string>, path: string): set<string> {
    (imports - {path}) + (Links(resolve, path) - done)
  }

  // One turn: `path` is taken off the list, its imports are collected, its module is filed.
  lemma CoveredNext(resolve: Resolver, script: Ast, done: set<string>, imports: set<string>, path: string)
    requires Covered(resolve, script, done, imports)
    requires path in imports && Loads(resolve, path)
    ensures Covered(resolve, script, done + {path}, After(resolve, done, imports, path))
    ensures path in done ==> After(resolve, done, imports, path) == imports - {path}
  {
    hide Loads, Links, Reachable;
    var done', imports' := done + {path}, After(resolve, done, imports, path);
    assert done' + imports' == done + imports + Links(resolve, path);
    assert Reachable(resolve, script, path);
    forall other | other in done' + imports'
      ensures Reachable(resolve, script, other)
    {
      if other in Links(resolve, path) {
        ReachableNext(resolve, script, path, other);
      } else {
        assert other in done + imports;
      }
    }
    forall other | other in done'
      ensures Links(resolve, other) <= done' + imports'
    {
      if other != path {
        assert other in done;
        assert Links(resolve, other) <= done + imports;
      }
    }
  }

  lemma CountedNext(resolve: Resolver, done: set<string>, imports: set<string>, visits: multiset<string>, path: string)
    requires Counted(resolve, done, imports, visits) && path in imports
    ensures Counted(resolve, done + {path}, After(resolve, done, imports, path), visits + multiset{path})
  {
    hide Links, ImportsPath;
    LinksExactly(resolve, path, path);
    var done', imports', visits' := done + {path}, After(resolve, done, imports, path), visits + multiset{path};
    assert visits'[path] == visits[path] + 1;
    forall other | other != path
      ensures visits'[other] == visits[other]
      ensures other in done' <==> other in done
      ensures other in done ==> (other in imports' <==> other in imports)
    {}
  }

  predicate FailsWith(resolve: Resolver, path: string, error: Error) {
    match resolve(path).source
    case Some(Broken(e)) => e == error
    case _ => resolve(path).compiled == Missing(error)
  }

  // Resolves one path: the imports of its source are collected before its module is loaded.
  method Resolve(resolve: Resolver, path: string, modules: map<string, Module>, imports: set<string>)
    returns (loaded: Loaded, imports': set<string>)
    ensures loaded.Module? <==> Loads(resolve, path)
    ensures loaded.Module? ==>
      resolve(path).compiled == loaded && imports' == imports + (Links(resolve, path) - modules.Keys)
    ensures loaded.Missing? ==> FailsWith(resolve, path, loaded.error)
  {
    imports' := imports;
    match resolve(path).source {
      case Some(Script(ast)) => imports' := CollectImports(ast, modules, imports);
      case Some(Broken(error)) => return Missing(error), imports;
      case None =>
    }
    loaded := resolve(path).compiled;
  }

  method CompileSelfContained(script: Ast, resolve: Resolver, ghost graph: set<string>)
    returns (r: Outcome, ghost visits: multiset<string>)
    requires Spans(graph, resolve, script)
    ensures r.Bundle? <==> forall path :: Reachable(resolve, script, path) ==> Loads(resolve, path)
    ensures r.Bundle? ==> (r.modules.None? <==> forall path :: !Occurs(script, path))
    ensures r.Bundle? && r.modules.Some? ==>
      && (forall path :: path in r.modules.value <==> Reachable(resolve, script, path))
      && (forall path :: path in r.modules.value ==> r.modules.value[path] == resolve(path).compiled.value)
      && (forall path :: path in r.modules.value ==> visits[path] == Turns(resolve, path))
    ensures r.Failure? ==> exists path :: Reachable(resolve, script, path) && FailsWith(resolve, path, r.error)
  {
    hide Working, Spans, Reachable, Turns, Links, Loads, FailsWith;
    var modules: map<string, Module> := map[];
    visits := multiset{};
    var imports := CollectImports(script, modules, {});
    Started(graph, resolve, script);
    if imports == {} {
      NothingReachable(resolve, script);
      return Bundle(None), visits;
    }
    while imports != {}
      invariant Working(graph, resolve, script, modules, imports, visits)
      decreases |graph - modules.Keys|, |imports|
    {
      var path :| path in imports;
      ghost var before := imports;
      OnList(graph, resolve, script, modules, imports, visits, path);
      var loaded;
      loaded, imports := Resolve(resolve, path, modules, imports - {path});
      if loaded.Missing? {
        return Failure(loaded.error), visits;
      }
      Turn(graph, resolve, script, modules, before, visits, path, loaded.value);
      modules := modules[path := loaded.value];
      visits := visits + multiset{path};
    }
    AllWorked(graph, resolve, script, modules, visits);
    r := Bundle(Some(modules));
  }

  lemma Started(graph: set<string>, resolve: Resolver, script: Ast)
    requires Spans(graph, resolve, script)
    ensures forall imports :: imports == Literals(script) ==> Working(graph, resolve, script, map[], imports, multiset{})
  {
    hide Spans;
    SpansLinks(graph, resolve, script);
    forall path | path in Literals(script)
      ensures Reachable(resolve, script, path)
    {
      ReachableRoot(resolve, script, path);
    }
  }

  lemma OnList(graph: set<string>, resolve: Resolver, script: Ast, modules: map<string, Module>, imports: set<string>,
               visits: multiset<string>, path: string)
    requires Working(graph, resolve, script, modules, imports, visits) && path in imports
    ensures Reachable(resolve, script, path)
  {}

  // Every turn comes closer to the end: either one more path is filed, or none is and the list
  // is shorter.
  lemma Closer(graph: set<string>, resolve: Resolver, script: Ast, done: set<string>, imports: set<string>, path: string)
    requires Covered(resolve, script, done, imports) && path in imports && path in graph && Loads(resolve, path)
    ensures path in done ==> |After(resolve, done, imports, path)| < |imports|
    ensures path !in done ==> |graph - (done + {path})| < |graph - done|
  {
    hide Covered, Loads;
    if path in done {
      CoveredNext(resolve, script, done, imports, path);
      Smaller(imports, path);
    } else {
      assert graph - (done + {path}) == (graph - done) - {path};
      Smaller(graph - done, path);
    }
  }

  lemma Within(graph: set<string>, resolve: Resolver, script: Ast, done: set<string>, imports: set<string>, path: string)
    requires Spans(graph, resolve, script) && done + imports <= graph && path in imports
    ensures done + {path} + After(resolve, done, imports, path) <= graph
  {
    SpansLinks(graph, resolve, script);
    hide Spans;
    assert path in graph;
  }

  lemma OneMore(modules: map<string, Module>, path: string, value: Module)
    ensures modules[path := value].Keys == modules.Keys + {path}
    ensures path in modules ==> modules[path := value].Keys == modules.Keys
  {}

  lemma TurnKeeps(graph: set<string>, resolve: Resolver, script: Ast, modules: map<string, Module>, imports: set<string>,
                  visits: multiset<string>, path: string, value: Module)
    requires Spans(graph, resolve, script)
    requires Working(graph, resolve, script, modules, imports, visits)
    requires path in imports && Loads(resolve, path) && resolve(path).compiled == Module(value)
    ensures Working(graph, resolve, script, modules[path := value], After(resolve, modules.Keys, imports, path),
                    visits + multiset{path})
  {
    hide Covered, Counted, Loads, Spans, After;
    var done := modules.Keys;
    OneMore(modules, path, value);
    CoveredNext(resolve, script, done, imports, path);
    CountedNext(resolve, done, imports, visits, path);
    Within(graph, resolve, script, done, imports, path);
  }

  lemma Turn(graph: set<string>, resolve: Resolver, script: Ast, modules: map<string, Module>, imports: set<string>,
             visits: multiset<string>, path: string, value: Module)
    requires Spans(graph, resolve, script)
    requires Working(graph, resolve, script, modules, imports, visits)
    requires path in imports && Loads(resolve, path) && resolve(path).compiled == Module(value)
    ensures var modules' := modules[path := value];
      var imports' := (imports - {path}) + (Links(resolve, path) - modules.Keys);
      && Working(graph, resolve, script, modules', imports', visits + multiset{path})
      && (if path in modules then modules'.Keys == modules.Keys && |imports'| < |imports|
          else |graph - modules'.Keys| < |graph - modules.Keys|)
  {
    hide Covered, Counted, Filed, Loads, Spans, Links;
    TurnKeeps(graph, resolve, script, modules, imports, visits, path, value);
    OneMore(modules, path, value);
    assert path in graph;
    Closer(graph, resolve, script, modules.Keys, imports, path);
    hide Working;
  }

  lemma Smaller(paths: set<string>, path: string)
    requires path in paths
    ensures |paths - {path}| < |paths|
  {}

  lemma NothingReachable(resolve: Resolver, script: Ast)
    requires Literals(script) == {}
    ensures forall path :: !Reachable(resolve, script, path) && !Occurs(script, path)
  {
    FoundExactly(script);
  }

  lemma AllWorked(graph: set<string>, resolve: Resolver, script: Ast, modules: map<string, Module>, visits: multiset<string>)
    requires Working(graph, resolve, script, modules, {}, visits)
    ensures forall path :: path in modules <==> Reachable(resolve, script, path)
    ensures forall path :: Reachable(resolve, script, path) ==> Loads(resolve, path)
    ensures forall path :: path in modules ==>
      visits[path] == Turns(resolve, path) && resolve(path).compiled == Module(modules[path])
  {
    forall path | Reachable(resolve, script, path)
      ensures path in modules
    {
      var chain :| Chain(resolve, script, chain) && chain[|chain| - 1] == path;
      Closed(resolve, script, modules.Keys, chain);
    }
  }
}
