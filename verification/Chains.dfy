// Index and property chains (parse_index_chain, parse_postfix, make_dot_expr and
// optimize_combo_chain in src/parser.rs): whatever the grouping, a chain ends up nested to the right.

module Chains {
  datatype Kind = ByIndex | ByDot

  // `brk` (the BREAK flag): the chain ends with this index, so a chain after it is an operand.
  datatype Expr =
    | Var(x: string)
    | Literal(n: int)
    | Call(f: string)
    | Prop(x: string)
    | Method(f: string)
    | Access(kind: Kind, lhs: Expr, rhs: Expr, brk: bool)

  // ---- chains as they are written ----

  datatype Root = Name(x: string) | Fn(f: string) | Number(n: int) | Paren(s: Source)
  datatype Post = At(s: Source) | Get(x: string) | Do(f: string)
  datatype Source = Source(root: Root, posts: seq<Post>)

  // ---- the canonical form ----

  datatype Step = Step(kind: Kind, operand: Expr)

  // The chain that starts at `head` and makes the given accesses in order.
  function Make(head: Expr, steps: seq<Step>): Expr
    decreases |steps|
  {
    if steps == [] then head
    else if |steps| == 1 then Access(steps[0].kind, head, steps[0].operand, steps[0].kind.ByIndex?)
    else Access(steps[0].kind, head, Make(steps[0].operand, steps[1..]), false)
  }

  // Reading a chain: what it starts at, and the accesses in order.
  function Head(e: Expr): Expr {
    if e.Access? then e.lhs else e
  }

  function Steps(e: Expr): seq<Step> {
    if !e.Access? then []
    else if e.brk || !e.rhs.Access? then [Step(e.kind, e.rhs)]
    else [Step(e.kind, e.rhs.lhs)] + Steps(e.rhs)
  }

  // Every access by name has a property or a method, never a chain.
  predicate Proper(steps: seq<Step>) {
    forall i | 0 <= i < |steps| :: steps[i].kind.ByDot? ==> steps[i].operand.Prop? || steps[i].operand.Method?
  }

  lemma {:induction false} ReadMade(head: Expr, steps: seq<Step>)
    requires steps != [] && Proper(steps)
    ensures Head(Make(head, steps)) == head && Steps(Make(head, steps)) == steps
    decreases |steps|
  {
    if |steps| > 1 { ReadMade(steps[0].operand, steps[1..]); }
  }

  // ---- what the source says ----

  function SourceHead(s: Source): Expr {
    match s.root
    case Name(x) => Var(x)
    case Fn(f) => Call(f)
    case Number(n) => Literal(n)
    case Paren(inner) => SourceHead(inner)
  }

  function SourceSteps(s: Source): (r: seq<Step>)
    decreases s, 1
  {
    (match s.root case Paren(inner) => SourceSteps(inner) case _ => []) + PostSteps(s.posts)
  }

  function PostSteps(posts: seq<Post>): (r: seq<Step>)
    ensures |r| == |posts|
    decreases posts, 0
  {
    if posts == [] then [] else [PostStep(posts[0])] + PostSteps(posts[1..])
  }

  // A bracketed or parenthesised chain is one operand.
  function PostStep(p: Post): Step
    decreases p, 2
  {
    match p
    case At(s) => Step(ByIndex, Make(SourceHead(s), SourceSteps(s)))
    case Get(x) => Step(ByDot, Prop(x))
    case Do(f) => Step(ByDot, Method(f))
  }

  lemma {:induction false} PostsProper(posts: seq<Post>)
    ensures Proper(PostSteps(posts))
  {
    if posts != [] { PostsProper(posts[1..]); }
  }

  lemma {:induction false} SourceProper(s: Source)
    ensures Proper(SourceSteps(s)) && !SourceHead(s).Access?
  {
    PostsProper(s.posts);
    if s.root.Paren? { SourceProper(s.root.s); }
  }

  // ---- the pieces of the parser ----

  function ToProperty(e: Expr): Expr {
    match e
    case Var(x) => Prop(x)
    case Call(f) => Method(f)
    case Access(kind, l, r, brk) => Access(kind, ToProperty(l), r, brk)
    case _ => e
  }

  // make_dot_expr
  function MakeDot(lhs: Expr, rhs: Expr, parentBreak: bool): Expr {
    if lhs.Access? && lhs.kind.ByIndex? && !parentBreak then
      Access(ByIndex, lhs.lhs, MakeDot(lhs.rhs, rhs, lhs.brk || parentBreak), false)
    else Access(ByDot, lhs, ToProperty(rhs), false)
  }

  // The outer chain `x` attached to the end of the chain `root` (what optimize_combo_chain is for).
  function Attach(root: Expr, x: Expr): Expr
    requires root.Access? && x.Access?
  {
    if !root.brk && root.rhs.Access? then Access(root.kind, root.lhs, Attach(root.rhs, x), root.brk)
    else Access(root.kind, root.lhs, Access(x.kind, root.rhs, x.rhs, x.brk), false)
  }

  predicate AllIndex(steps: seq<Step>) {
    forall i | 0 <= i < |steps| :: steps[i].kind.ByIndex?
  }

  lemma ToPropertyMade(head: Expr, steps: seq<Step>)
    requires !head.Access?
    ensures ToProperty(Make(head, steps)) == Make(ToProperty(head), steps)
  {
  }

  // Appending a property, and all that follows it, to a chain of indexes.
  lemma {:induction false} MakeDotMade(lhs: Expr, steps: seq<Step>, head: Expr, rest: seq<Step>)
    requires AllIndex(steps) && !head.Access?
    ensures MakeDot(Make(lhs, steps), Make(head, rest), steps == []) ==
      Make(lhs, steps + ([Step(ByDot, ToProperty(head))] + rest))
    decreases |steps|
  {
    var tail := [Step(ByDot, ToProperty(head))] + rest;
    ToPropertyMade(head, rest);
    if steps == [] {
      assert steps + tail == tail && tail[1..] == rest;
    } else {
      assert (steps + tail)[0] == steps[0] && (steps + tail)[1..] == steps[1..] + tail;
      MakeDotMade(steps[0].operand, steps[1..], head, rest);
      if |steps| == 1 { assert steps[1..] == []; }
    }
  }

  // Attaching a chain is appending its accesses.
  lemma {:induction false} AttachMade(head: Expr, steps: seq<Step>, x: Expr, more: seq<Step>)
    requires steps != [] && more != [] && Proper(steps) && x == Make(Make(head, steps), more)
    ensures Attach(Make(head, steps), x) == Make(head, steps + more)
    decreases |steps|
  {
    AttachTail(head, steps, x.kind, x.rhs, x.brk, more);
  }

  lemma {:induction false} AttachTail(head: Expr, steps: seq<Step>, kind: Kind, rhs: Expr, brk: bool, more: seq<Step>)
    requires steps != [] && more != [] && Proper(steps)
    requires forall h :: Make(h, more) == Access(kind, h, rhs, brk)
    ensures forall l :: Attach(Make(head, steps), Access(kind, l, rhs, brk)) == Make(head, steps + more)
    decreases |steps|
  {
    assert (steps + more)[0] == steps[0] && (steps + more)[1..] == steps[1..] + more;
    if |steps| == 1 {
      assert steps[1..] + more == more;
      assert Make(steps[0].operand, more) == Access(kind, steps[0].operand, rhs, brk);
    } else {
      AttachTail(steps[0].operand, steps[1..], kind, rhs, brk, more);
    }
  }

  // A chain made on a chain: only then is the first operand of the whole a chain.
  lemma ChainOnChain(head: Expr, steps: seq<Step>, more: seq<Step>)
    requires !head.Access? && Proper(steps)
    ensures var e := Make(Make(head, steps), more);
      if e.Access? && e.lhs.Access? then steps != [] && more != [] && Attach(e.lhs, e) == Make(head, steps + more)
      else e == Make(head, steps + more)
  {
    var e := Make(Make(head, steps), more);
    assert steps + [] == steps && [] + more == more;
    if steps != [] && more != [] { AttachMade(head, steps, e, more); }
  }

  lemma {:induction false} PostStepsAppend(a: seq<Post>, b: seq<Post>)
    ensures PostSteps(a + b) == PostSteps(a) + PostSteps(b)
  {
    if a == [] {
      assert a + b == b;
    } else {
      assert (a + b)[0] == a[0] && (a + b)[1..] == a[1..] + b;
      PostStepsAppend(a[1..], b);
    }
  }

  // ---- the parser ----

  // A primary expression with everything that follows it.
  method ParsePrimary(s: Source) returns (e: Expr)
    ensures e == Make(SourceHead(s), SourceSteps(s))
    decreases s, 1
  {
    var root;
    ghost var steps: seq<Step> := [];
    match s.root {
      case Name(x) => root := Var(x);
      case Fn(f) => root := Call(f);
      case Number(n) => root := Literal(n);
      case Paren(inner) =>
        root := ParsePrimary(inner);
        steps := SourceSteps(inner);
        SourceProper(inner);
    }
    e := ParsePostfix(root, s.posts, SourceHead(s), steps);
  }

  // All that follows a primary expression, which is itself the chain of `steps` on `head`.
  method ParsePostfix(root: Expr, posts: seq<Post>, ghost head: Expr, ghost steps: seq<Step>) returns (lhs: Expr)
    requires root == Make(head, steps) && !head.Access? && Proper(steps)
    ensures lhs == Make(head, steps + PostSteps(posts))
    decreases posts, 1
  {
    lhs := root;
    var parentBreak := true;
    var i := 0;
    while i < |posts|
      invariant 0 <= i <= |posts| && parentBreak == (i == 0)
      invariant lhs == Make(root, PostSteps(posts[..i]))
      invariant i < |posts| ==> AllIndex(PostSteps(posts[..i]))
      invariant 0 < i < |posts| ==> !posts[i].At?
    {
      if posts[i].At? {
        var n;
        lhs, n := ParseIndexChain(lhs, posts[i..]);
        assert posts[i..] == posts;
        i := i + n;
      } else {
        // the property or method, with all that follows it, is parsed as a primary expression
        var name := if posts[i].Get? then Var(posts[i].x) else Call(posts[i].f);
        var rhs := ParsePostfix(name, posts[i + 1..], name, []);
        assert [] + PostSteps(posts[i + 1..]) == PostSteps(posts[i + 1..]);
        MakeDotMade(root, PostSteps(posts[..i]), name, PostSteps(posts[i + 1..]));
        lhs := MakeDot(lhs, rhs, parentBreak);
        assert posts == posts[..i] + posts[i..] && posts[i..][0] == posts[i] && posts[i..][1..] == posts[i + 1..];
        PostStepsAppend(posts[..i], posts[i..]);
        i := |posts|;
        assert posts[..i] == posts;
      }
      parentBreak := false;
    }
    assert posts[..i] == posts;
    // Optimize the chain where the root expression is another chain.
    ChainOnChain(head, steps, PostSteps(posts));
    if lhs.Access? && lhs.lhs.Access? {
      lhs := OptimizeComboChain(lhs);
    }
  }

  // `[e1][e2]..`: binds to the right; `n` is how many there are.
  method ParseIndexChain(lhs: Expr, posts: seq<Post>) returns (e: Expr, n: nat)
    requires posts != [] && posts[0].At?
    ensures 1 <= n <= |posts| && (n < |posts| ==> !posts[n].At?)
    ensures e == Make(lhs, PostSteps(posts[..n])) && AllIndex(PostSteps(posts[..n]))
    decreases posts, 0
  {
    var idx := ParseOperand(posts[0]);
    if |posts| > 1 && posts[1].At? {
      var rest, m := ParseIndexChain(idx, posts[1..]);
      e := Access(ByIndex, lhs, rest, false);
      n := m + 1;
      assert posts[..n] == [posts[0]] + posts[1..][..m];
    } else {
      e := Access(ByIndex, lhs, idx, true);
      n := 1;
      assert posts[..1] == [posts[0]] && posts[..1][1..] == [];
    }
  }

  method ParseOperand(p: Post) returns (e: Expr)
    requires p.At?
    ensures e == PostStep(p).operand
    decreases p, 2
  {
    e := ParsePrimary(p.s);
  }

  // Walks down the chain in parentheses to its end, attaches the outer chain there, and puts the
  // chain together again.
  method OptimizeComboChain(expr: Expr) returns (r: Expr)
    requires expr.Access? && expr.lhs.Access?
    ensures r == Attach(expr.lhs, expr)
  {
    var tail := expr.lhs;
    var above: seq<Expr> := [];
    while !tail.brk && tail.rhs.Access?
      invariant tail.Access? && forall e | e in above :: e.Access?
      invariant Rebuild(above, Attach(tail, expr)) == Attach(expr.lhs, expr)
      decreases tail
    {
      assert above + [tail] == above + [tail] && (above + [tail])[..|above|] == above;
      above := above + [tail];
      tail := tail.rhs;
    }
    // we no longer terminate at the end of the root chain
    r := Access(tail.kind, tail.lhs, Access(expr.kind, tail.rhs, expr.rhs, expr.brk), false);
    while above != []
      invariant forall e | e in above :: e.Access?
      invariant Rebuild(above, r) == Attach(expr.lhs, expr)
      decreases |above|
    {
      var up := above[|above| - 1];
      r := Access(up.kind, up.lhs, r, up.brk);
      above := above[..|above| - 1];
    }
  }

  // The chain above a link, put on top of it again.
  function Rebuild(above: seq<Expr>, e: Expr): Expr
    requires forall x | x in above :: x.Access?
  {
    if above == [] then e
    else
      var up := above[|above| - 1];
      Rebuild(above[..|above| - 1], Access(up.kind, up.lhs, e, up.brk))
  }

  // A parsed chain starts at what is no chain itself, and reads as the accesses of the source, in
  // the source's order, through all parentheses around its front.
  method ParseChain(s: Source) returns (e: Expr)
    ensures !Head(e).Access? && Head(e) == SourceHead(s)
    ensures Steps(e) == SourceSteps(s)
    ensures e == Make(Head(e), Steps(e))
  {
    e := ParsePrimary(s);
    SourceProper(s);
    if SourceSteps(s) != [] { ReadMade(SourceHead(s), SourceSteps(s)); }
  }
}
