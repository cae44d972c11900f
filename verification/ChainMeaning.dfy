// What a chain of indexes, properties and methods means: the accesses of the source applied one
// after the other to what it starts at.

module ChainMeaning {
  import opened Chains

  // Values, and what the host makes of names, numbers and accesses.
  datatype Ops<!V> = Ops(
    name: string -> V, call: string -> V, number: int -> V,
    index: (V, V) -> V, get: (V, string) -> V, run: (V, string) -> V)

  // ---- the source ----

  function EvalSource<V>(ops: Ops<V>, s: Source): V
    decreases s, 1
  {
    EvalPosts(ops, EvalRoot(ops, s.root), s.posts)
  }

  function EvalRoot<V>(ops: Ops<V>, root: Root): V
    decreases root
  {
    match root
    case Name(x) => ops.name(x)
    case Fn(f) => ops.call(f)
    case Number(n) => ops.number(n)
    case Paren(s) => EvalSource(ops, s)
  }

  // From the left to the right.
  function EvalPosts<V>(ops: Ops<V>, v: V, posts: seq<Post>): V
    decreases posts, 0
  {
    if posts == [] then v else EvalPosts(ops, EvalPost(ops, v, posts[0]), posts[1..])
  }

  function EvalPost<V>(ops: Ops<V>, v: V, post: Post): V
    decreases post, 2
  {
    match post
    case At(s) => ops.index(v, EvalSource(ops, s))
    case Get(x) => ops.get(v, x)
    case Do(f) => ops.run(v, f)
  }

  // ---- the expression ----

  function EvalExpr<V>(ops: Ops<V>, e: Expr): V
    decreases e, 0
  {
    match e
    case Var(x) => ops.name(x)
    case Call(f) => ops.call(f)
    case Literal(n) => ops.number(n)
    case Prop(x) => ops.name(x)
    case Method(f) => ops.call(f)
    case Access(kind, lhs, rhs, brk) => Walk(ops, EvalExpr(ops, lhs), kind, rhs, brk)
  }

  // Down the right-hand side, taking the target along (eval_dot_index_chain_raw).
  function Walk<V>(ops: Ops<V>, target: V, kind: Kind, rhs: Expr, brk: bool): V
    decreases rhs, 2
  {
    if !brk && rhs.Access? then Walk(ops, Enter(ops, target, kind, rhs.lhs), rhs.kind, rhs.rhs, rhs.brk)
    else Enter(ops, target, kind, rhs)
  }

  function Enter<V>(ops: Ops<V>, target: V, kind: Kind, operand: Expr): V
    decreases operand, 1
  {
    match operand
    case Prop(x) => if kind.ByDot? then ops.get(target, x) else ops.index(target, EvalExpr(ops, operand))
    case Method(f) => if kind.ByDot? then ops.run(target, f) else ops.index(target, EvalExpr(ops, operand))
    case _ => ops.index(target, EvalExpr(ops, operand))
  }

  // ---- the two agree ----

  function EvalSteps<V>(ops: Ops<V>, v: V, steps: seq<Step>): V {
    if steps == [] then v else EvalSteps(ops, Enter(ops, v, steps[0].kind, steps[0].operand), steps[1..])
  }

  // The nested form does its accesses in order.
  lemma {:induction false} WalkMade<V>(ops: Ops<V>, target: V, head: Expr, steps: seq<Step>)
    requires steps != [] && Proper(steps)
    ensures var e := Make(head, steps);
      e.Access? && Walk(ops, target, e.kind, e.rhs, e.brk) == EvalSteps(ops, target, steps)
    decreases |steps|
  {
    if |steps| == 1 {
      assert steps[1..] == [];
    } else {
      WalkMade(ops, Enter(ops, target, steps[0].kind, steps[0].operand), steps[0].operand, steps[1..]);
    }
  }

  lemma MadeMeans<V>(ops: Ops<V>, head: Expr, steps: seq<Step>)
    requires Proper(steps)
    ensures EvalExpr(ops, Make(head, steps)) == EvalSteps(ops, EvalExpr(ops, head), steps)
  {
    if steps != [] {
      WalkMade(ops, EvalExpr(ops, head), head, steps);
      HeadMade(head, steps);
    }
  }

  lemma HeadMade(head: Expr, steps: seq<Step>)
    requires steps != []
    ensures Make(head, steps).Access? && Make(head, steps).lhs == head
  {}

  lemma {:induction false} StepsAppend<V>(ops: Ops<V>, v: V, a: seq<Step>, b: seq<Step>)
    ensures EvalSteps(ops, v, a + b) == EvalSteps(ops, EvalSteps(ops, v, a), b)
    decreases |a|
  {
    if a == [] {
      assert a + b == b;
    } else {
      assert (a + b)[0] == a[0] && (a + b)[1..] == a[1..] + b;
      StepsAppend(ops, Enter(ops, v, a[0].kind, a[0].operand), a[1..], b);
    }
  }

  // A chain means what its source says, for every host.
  lemma {:induction false} ChainMeans<V>(ops: Ops<V>, s: Source)
    ensures EvalExpr(ops, Make(SourceHead(s), SourceSteps(s))) == EvalSource(ops, s)
    decreases s, 1
  {
    SourceProper(s);
    MadeMeans(ops, SourceHead(s), SourceSteps(s));
    SourceMeans(ops, s);
  }

  lemma {:induction false} SourceMeans<V>(ops: Ops<V>, s: Source)
    ensures EvalSteps(ops, EvalExpr(ops, SourceHead(s)), SourceSteps(s)) == EvalSource(ops, s)
    decreases s, 0
  {
    hide EvalSteps, Enter;
    var v := EvalRoot(ops, s.root);
    PostsMean(ops, v, s.posts);
    match s.root
    case Paren(inner) =>
      SourceMeans(ops, inner);
      StepsAppend(ops, EvalExpr(ops, SourceHead(s)), SourceSteps(inner), PostSteps(s.posts));
    case _ =>
      assert [] + PostSteps(s.posts) == PostSteps(s.posts);
  }

  lemma {:induction false} PostsMean<V>(ops: Ops<V>, v: V, posts: seq<Post>)
    ensures EvalSteps(ops, v, PostSteps(posts)) == EvalPosts(ops, v, posts)
    decreases posts, 0
  {
    if posts != [] {
      PostMeans(ops, v, posts[0]);
      hide Enter, EvalPost;
      PostsMean(ops, EvalPost(ops, v, posts[0]), posts[1..]);
      assert PostSteps(posts)[1..] == PostSteps(posts[1..]);
    }
  }

  lemma {:induction false} PostMeans<V>(ops: Ops<V>, v: V, post: Post)
    ensures Enter(ops, v, PostStep(post).kind, PostStep(post).operand) == EvalPost(ops, v, post)
    decreases post, 2
  {
    if post.At? {
      ChainMeans(ops, post.s);
      NotProperty(post.s);
    }
  }

  lemma {:induction false} NotProperty(s: Source)
    ensures var e := Make(SourceHead(s), SourceSteps(s)); !e.Prop? && !e.Method?
  {
    HeadNotProperty(s);
  }

  lemma {:induction false} HeadNotProperty(s: Source)
    ensures !SourceHead(s).Prop? && !SourceHead(s).Method?
  {
    if s.root.Paren? { HeadNotProperty(s.root.s); }
  }
}
