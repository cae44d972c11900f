// What the optimizer does to the table of a `switch`: entries whose guard is constantly false
// are dropped, entries after a constantly true one are cut off, bodies nothing leads to become
// `()`, and a switch on a constant is replaced by the arm it takes.

module SwitchOptimizer {
  import opened Options
  import opened SwitchTable

  // The entries of a list that can still be taken.
  function Live(guards: seq<Guard>, list: seq<nat>): seq<nat> {
    if list == [] then []
    else if GuardOf(guards, list[0]) == Never then Live(guards, list[1..])
    else if GuardOf(guards, list[0]) == Always then [list[0]]
    else [list[0]] + Live(guards, list[1..])
  }

  lemma {:induction false} TryLive(guards: seq<Guard>, list: seq<nat>, ask: Oracle, asked: seq<nat>)
    ensures Try(guards, Live(guards, list), ask, asked) == Try(guards, list, ask, asked)
  {
    if list != [] {
      var rest := Live(guards, list[1..]);
      assert ([list[0]] + rest)[1..] == rest;
      TryLive(guards, list[1..], ask, Ask(GuardOf(guards, list[0]), list[0], ask, asked).1);
    }
  }

  function NotNever(guards: seq<Guard>, list: seq<nat>): seq<nat> {
    if list == [] then []
    else (if GuardOf(guards, list[0]) == Never then [] else [list[0]]) + NotNever(guards, list[1..])
  }

  function UpToAlways(guards: seq<Guard>, list: seq<nat>): seq<nat> {
    if list == [] then []
    else if GuardOf(guards, list[0]) == Always then [list[0]]
    else [list[0]] + UpToAlways(guards, list[1..])
  }

  lemma {:induction false} LiveInTwoSteps(guards: seq<Guard>, list: seq<nat>)
    ensures UpToAlways(guards, NotNever(guards, list)) == Live(guards, list)
  {
    if list != [] {
      var rest := NotNever(guards, list[1..]);
      assert ([list[0]] + rest)[1..] == rest;
      assert [] + rest == rest;
      LiveInTwoSteps(guards, list[1..]);
    }
  }

  lemma {:induction false} NotNeverNext(guards: seq<Guard>, list: seq<nat>, i: nat)
    requires i < |list|
    ensures NotNever(guards, list[..i + 1])
         == NotNever(guards, list[..i]) + if GuardOf(guards, list[i]) == Never then [] else [list[i]]
  {
    if i > 0 {
      NotNeverNext(guards, list[1..], i - 1);
      assert list[..i + 1][1..] == list[1..][..i];
      assert list[..i][1..] == list[1..][..i - 1];
    } else {
      assert list[..1] == [list[0]] && list[..0] == [];
      assert [list[0]][1..] == [];
    }
  }

  lemma {:induction false} UpToAlwaysAt(guards: seq<Guard>, list: seq<nat>, n: nat)
    requires n <= |list|
    requires forall k :: 0 <= k < n ==> GuardOf(guards, list[k]) != Always
    requires n < |list| ==> GuardOf(guards, list[n]) == Always
    ensures UpToAlways(guards, list) == if n < |list| then list[..n + 1] else list
  {
    if n > 0 {
      UpToAlwaysAt(guards, list[1..], n - 1);
      if n < |list| {
        assert list[..n + 1] == [list[0]] + list[1..][..n];
      } else {
        assert list == [list[0]] + list[1..];
      }
    } else if |list| > 0 {
      assert list[..1] == [list[0]];
    }
  }

  // A list that pruning leaves alone.
  predicate Tidy(guards: seq<Guard>, list: seq<nat>) {
    forall k :: 0 <= k < |list| ==>
      GuardOf(guards, list[k]) != Never && (GuardOf(guards, list[k]) == Always ==> k == |list| - 1)
  }

  lemma {:induction false} LiveTidy(guards: seq<Guard>, list: seq<nat>)
    ensures Tidy(guards, Live(guards, list))
    ensures Live(guards, list) == list <==> Tidy(guards, list)
    ensures |Live(guards, list)| <= |list| && (|Live(guards, list)| == |list| ==> Live(guards, list) == list)
    ensures forall x :: x in Live(guards, list) ==> x in list
  {
    if list != [] {
      var rest := list[1..];
      LiveTidy(guards, rest);
      assert list == [list[0]] + rest;
      if Tidy(guards, list) {
        assert forall k :: 0 <= k < |rest| ==> rest[k] == list[k + 1];
        assert Tidy(guards, rest);
        if GuardOf(guards, list[0]) == Always {
          assert rest == [];
        }
      } else if Tidy(guards, rest) {
        assert forall k :: 0 < k < |list| ==> list[k] == rest[k - 1];
      }
    }
  }

  function LiveRanges(guards: seq<Guard>, ranges: seq<Case>): seq<Case> {
    if ranges == [] then []
    else (if GuardOf(guards, ranges[0].index) == Never then [] else [ranges[0]]) + LiveRanges(guards, ranges[1..])
  }

  lemma {:induction false} LiveRangesNext(guards: seq<Guard>, ranges: seq<Case>, i: nat)
    requires i < |ranges|
    ensures LiveRanges(guards, ranges[..i + 1])
         == LiveRanges(guards, ranges[..i]) + if GuardOf(guards, ranges[i].index) == Never then [] else [ranges[i]]
  {
    if i > 0 {
      LiveRangesNext(guards, ranges[1..], i - 1);
      assert ranges[..i + 1][1..] == ranges[1..][..i];
      assert ranges[..i][1..] == ranges[1..][..i - 1];
    } else {
      assert ranges[..1] == [ranges[0]] && ranges[..0] == [];
      assert [ranges[0]][1..] == [];
    }
  }

  lemma {:induction false} LiveRangesFacts(guards: seq<Guard>, ranges: seq<Case>)
    ensures forall r :: r in LiveRanges(guards, ranges) <==> r in ranges && GuardOf(guards, r.index) != Never
    ensures |LiveRanges(guards, ranges)| <= |ranges|
    ensures |LiveRanges(guards, ranges)| == |ranges| ==> LiveRanges(guards, ranges) == ranges
  {
    if ranges != [] {
      LiveRangesFacts(guards, ranges[1..]);
    }
  }

  lemma {:induction false} TryLiveRanges(guards: seq<Guard>, ranges: seq<Case>, v: Value, ask: Oracle, asked: seq<nat>)
    ensures Try(guards, RangeHits(LiveRanges(guards, ranges), v), ask, asked) == Try(guards, RangeHits(ranges, v), ask, asked)
  {
    hide InSpan, GuardOf;
    if ranges != [] {
      var index, rest := ranges[0].index, ranges[1..];
      var live := LiveRanges(guards, rest);
      assert ([ranges[0]] + live)[1..] == live;
      assert [] + live == live && [] + RangeHits(rest, v) == RangeHits(rest, v) && [] + RangeHits(live, v) == RangeHits(live, v);
      if InSpan(ranges[0].span, v) {
        TryCons(guards, index, RangeHits(rest, v), ask, asked);
        TryCons(guards, index, RangeHits(live, v), ask, asked);
        TryLiveRanges(guards, rest, v, ask, Ask(GuardOf(guards, index), index, ask, asked).1);
      } else {
        TryLiveRanges(guards, rest, v, ask, asked);
      }
    }
  }

  // ---------------------------------------------------------------------------------------
  // Tables.

  // Some value can lead to this arm.
  predicate Used(t: Table, index: nat) {
    || t.fallback == Some(index)
    || (exists key :: key in t.cases && index in t.cases[key])
    || (exists r :: r in t.ranges && r.index == index)
  }

  // What the parser establishes and every pass over the table keeps: all indices are those of
  // arms, the default arm is unguarded and is no arm of a literal or a range, no list is empty.
  ghost predicate Sound(t: Table) {
    && (forall key, k :: key in t.cases && 0 <= k < |t.cases[key]| ==> t.cases[key][k] < |t.arms|)
    && (forall key :: key in t.cases ==> t.cases[key] != [])
    && (forall k :: 0 <= k < |t.ranges| ==> t.ranges[k].index < |t.arms|)
    && (forall k :: 0 <= k < |t.arms| ==> t.arms[k].guard != Spent)
    && (t.fallback.Some? ==>
          && t.fallback.value < |t.arms|
          && t.arms[t.fallback.value].guard == Always
          && (forall key :: key in t.cases ==> t.fallback.value !in t.cases[key])
          && (forall k :: 0 <= k < |t.ranges| ==> t.ranges[k].index != t.fallback.value))
  }

  ghost predicate Pruned(t: Table) {
    && (forall key :: key in t.cases ==> t.cases[key] != [] && Tidy(Guards(t.arms), t.cases[key]))
    && (forall r :: r in t.ranges ==> GuardOf(Guards(t.arms), r.index) != Never)
    && (forall i :: 0 <= i < |t.arms| && (t.arms[i].guard == Never || !Used(t, i)) ==> t.arms[i].body == Nothing)
  }

  function BodyOf(t: Table, choice: Choice): Body {
    if choice.Take? && choice.index < |t.arms| then t.arms[choice.index].body else Nothing
  }

  // Every value runs the same guards in the same order, takes the same arm and runs the same body.
  ghost predicate SameSwitch(t: Table, u: Table) {
    forall v: Value, hash: Value -> nat, ask: Oracle ::
      && Select(u, v, hash, ask) == Select(t, v, hash, ask)
      && BodyOf(u, Select(u, v, hash, ask).0) == BodyOf(t, Select(t, v, hash, ask).0)
  }

  // What is left of the lists are the entries that can be taken.
  ghost predicate KeptCases(guards: seq<Guard>, before: map<nat, seq<nat>>, after: map<nat, seq<nat>>) {
    && (forall key :: key in after <==> key in before && Live(guards, before[key]) != [])
    && (forall key :: key in after ==> after[key] == Live(guards, before[key]))
  }

  ghost predicate KeptBodies(t: Table, u: Table) {
    && |u.arms| == |t.arms|
    && Guards(u.arms) == Guards(t.arms)
    && forall i :: 0 <= i < |t.arms| && t.arms[i].guard != Never && Used(u, i) ==> u.arms[i].body == t.arms[i].body
  }

  lemma {:induction false} TryTakes(guards: seq<Guard>, list: seq<nat>, ask: Oracle, asked: seq<nat>)
    ensures var r := Try(guards, list, ask, asked).0;
      r.Take? ==> r.index in list && GuardOf(guards, r.index) != Never
  {
    if list != [] {
      TryTakes(guards, list[1..], ask, Ask(GuardOf(guards, list[0]), list[0], ask, asked).1);
    }
  }

  lemma {:induction false} RangeHitsFrom(ranges: seq<Case>, v: Value)
    ensures forall i :: i in RangeHits(ranges, v) ==> exists r :: r in ranges && r.index == i && InSpan(r.span, v)
  {
    if ranges != [] {
      RangeHitsFrom(ranges[1..], v);
      forall i | i in RangeHits(ranges, v)
        ensures exists r :: r in ranges && r.index == i && InSpan(r.span, v)
      {
        if i in RangeHits(ranges[1..], v) {
          var r :| r in ranges[1..] && r.index == i && InSpan(r.span, v);
          assert r in ranges;
        } else {
          assert ranges[0] in ranges;
        }
      }
    }
  }

  lemma SelectTakes(t: Table, v: Value, hash: Value -> nat, ask: Oracle)
    requires Sound(t)
    ensures var r := Select(t, v, hash, ask).0;
      r.Take? ==> Used(t, r.index) && r.index < |t.arms| && t.arms[r.index].guard != Never
  {
    var guards := Guards(t.arms);
    var first := Try(guards, CaseHits(t, v, hash), ask, []);
    TryTakes(guards, CaseHits(t, v, hash), ask, []);
    TryTakes(guards, RangeHits(t.ranges, v), ask, first.1);
    RangeHitsFrom(t.ranges, v);
  }

  lemma SelectKept(t: Table, u: Table, v: Value, hash: Value -> nat, ask: Oracle)
    requires Guards(u.arms) == Guards(t.arms) && KeptCases(Guards(t.arms), t.cases, u.cases)
    requires u.ranges == LiveRanges(Guards(t.arms), t.ranges) && u.fallback == t.fallback
    ensures Select(u, v, hash, ask) == Select(t, v, hash, ask)
  {
    var guards := Guards(t.arms);
    var first := Try(guards, CaseHits(t, v, hash), ask, []);
    TryLive(guards, CaseHits(t, v, hash), ask, []);
    assert CaseHits(u, v, hash) == Live(guards, CaseHits(t, v, hash));
    TryLiveRanges(guards, t.ranges, v, ask, first.1);
  }

  lemma KeptSame(t: Table, u: Table)
    requires Sound(u) && KeptBodies(t, u) && KeptCases(Guards(t.arms), t.cases, u.cases)
    requires u.ranges == LiveRanges(Guards(t.arms), t.ranges) && u.fallback == t.fallback
    ensures SameSwitch(t, u)
  {
    forall v: Value, hash: Value -> nat, ask: Oracle
      ensures Select(u, v, hash, ask) == Select(t, v, hash, ask)
      ensures BodyOf(u, Select(u, v, hash, ask).0) == BodyOf(t, Select(t, v, hash, ask).0)
    {
      SelectKept(t, u, v, hash, ask);
      SelectTakes(u, v, hash, ask);
      GuardsAt(t.arms, u.arms);
    }
  }

  lemma GuardsAt(a: seq<Arm>, b: seq<Arm>)
    requires Guards(a) == Guards(b)
    ensures |a| == |b| && forall i :: 0 <= i < |a| ==> a[i].guard == b[i].guard
  {
    assert |Guards(a)| == |a| && |Guards(b)| == |b|;
    forall i | 0 <= i < |a|
      ensures a[i].guard == b[i].guard
    {
      assert Guards(a)[i] == a[i].guard && Guards(b)[i] == b[i].guard;
    }
  }

  // A table read from source is sound.
  lemma {:induction false} EntriesFrom(a: seq<Alternative>, key: nat, hash: Value -> nat)
    ensures forall i :: i in Entries(a, key, hash) ==> exists k :: 0 <= k < |a| && a[k].index == i
  {
    if a != [] {
      EntriesFrom(a[1..], key, hash);
      forall i | i in Entries(a, key, hash)
        ensures exists k :: 0 <= k < |a| && a[k].index == i
      {
        if i in Entries(a[1..], key, hash) {
          var k :| 0 <= k < |a[1..]| && a[1..][k].index == i;
          assert a[k + 1].index == i;
        } else {
          assert a[0].index == i;
        }
      }
    }
  }

  lemma {:induction false} SpanSource(a: seq<Alternative>, i: nat) returns (k: nat)
    requires i < |Spans(a)|
    ensures k < |a| && a[k].index == Spans(a)[i].index
  {
    if Ranged(a[0].value) && i == 0 {
      k := 0;
    } else {
      k := SpanSource(a[1..], if Ranged(a[0].value) then i - 1 else i);
      k := k + 1;
    }
  }

  lemma {:induction false} AlternativesOfArms(clauses: seq<Clause>, i: nat, j: nat)
    ensures forall k :: 0 <= k < |AlternativesFrom(clauses, i, j)| ==>
      var index := AlternativesFrom(clauses, i, j)[k].index; index < |clauses| && clauses[index].alternatives != []
    decreases |clauses| - i, if i < |clauses| then |clauses[i].alternatives| - j else 0
  {
    if i < |clauses| {
      if j >= |clauses[i].alternatives| {
        AlternativesOfArms(clauses, i + 1, 0);
      } else {
        AlternativesOfArms(clauses, i, j + 1);
      }
    }
  }

  lemma ParsedSound(clauses: seq<Clause>, t: Table, hash: Value -> nat)
    requires Accepted(clauses) && Built(t, clauses, hash)
    ensures Sound(t)
  {
    var a := Alternatives(clauses);
    AlternativesOfArms(clauses, 0, 0);
    forall i | 0 <= i < |t.ranges|
      ensures t.ranges[i].index < |t.arms| && clauses[t.ranges[i].index].alternatives != []
    {
      var k := SpanSource(a, i);
    }
    forall key | key in t.cases
      ensures forall i :: i in t.cases[key] ==> i < |clauses| && clauses[i].alternatives != []
    {
      EntriesFrom(a, key, hash);
    }
    forall key, k | key in t.cases && 0 <= k < |t.cases[key]|
      ensures t.cases[key][k] < |t.arms| && clauses[t.cases[key][k]].alternatives != []
    {
      assert t.cases[key][k] in t.cases[key];
    }
  }

  // ---------------------------------------------------------------------------------------
  // The passes.

  method PruneList(arms: seq<Arm>, list: seq<nat>) returns (kept: seq<nat>, dirty: bool)
    requires forall k :: 0 <= k < |list| ==> list[k] < |arms|
    ensures kept == Live(Guards(arms), list)
    ensures dirty <==> kept != list
  {
    ghost var guards := Guards(arms);
    kept, dirty := [], false;
    var i := 0;
    while i < |list|
      invariant 0 <= i <= |list|
      invariant kept == NotNever(guards, list[..i])
      invariant |kept| <= i && (dirty <==> |kept| < i)
      invariant forall k :: 0 <= k < |kept| ==> kept[k] < |arms|
    {
      NotNeverNext(guards, list, i);
      if arms[list[i]].guard == Never {
        dirty := true;
      } else {
        kept := kept + [list[i]];
      }
      i := i + 1;
    }
    assert list[..i] == list;
    var n := 0;
    while n < |kept| && arms[kept[n]].guard != Always
      invariant 0 <= n <= |kept|
      invariant forall k :: 0 <= k < n ==> arms[kept[k]].guard != Always
    {
      n := n + 1;
    }
    LiveInTwoSteps(guards, list);
    UpToAlwaysAt(guards, kept, n);
    LiveTidy(guards, list);
    if n < |kept| && n + 1 < |kept| {
      dirty := true;
      kept := kept[..n + 1];
    } else if n < |kept| {
      assert kept[..n + 1] == kept;
    }
  }

  lemma KeptSound(t: Table, u: Table)
    requires Sound(t) && u.arms == t.arms && KeptCases(Guards(t.arms), t.cases, u.cases)
    requires u.ranges == LiveRanges(Guards(t.arms), t.ranges) && u.fallback == t.fallback
    ensures Sound(u)
    ensures forall key :: key in u.cases ==> Tidy(Guards(t.arms), u.cases[key])
    ensures forall r :: r in u.ranges ==> GuardOf(Guards(t.arms), r.index) != Never
  {
    var guards := Guards(t.arms);
    LiveRangesFacts(guards, t.ranges);
    forall k | 0 <= k < |u.ranges|
      ensures u.ranges[k] in t.ranges
    {
      assert u.ranges[k] in u.ranges;
    }
    forall key | key in u.cases
      ensures Tidy(guards, u.cases[key])
      ensures forall x :: x in u.cases[key] ==> x in t.cases[key]
    {
      LiveTidy(guards, t.cases[key]);
    }
    forall key, k | key in u.cases && 0 <= k < |u.cases[key]|
      ensures u.cases[key][k] < |t.arms|
    {
      assert u.cases[key][k] in u.cases[key];
    }
  }

  lemma RangesInArms(t: Table)
    requires Sound(t)
    ensures forall k :: 0 <= k < |t.ranges| ==> t.ranges[k].index < |t.arms|
  {}

  lemma CasesInArms(t: Table)
    requires Sound(t)
    ensures forall key :: key in t.cases ==> t.cases[key] != [] && forall k :: 0 <= k < |t.cases[key]| ==> t.cases[key][k] < |t.arms|
  {}

  // Replacing bodies changes neither what is sound nor what is used.
  lemma BodiesOnly(t: Table, u: Table)
    requires Guards(u.arms) == Guards(t.arms) && u == t.(arms := u.arms)
    ensures Sound(t) ==> Sound(u)
    ensures forall i :: Used(u, i) == Used(t, i)
  {
    GuardsAt(t.arms, u.arms);
  }

  // `t` with the bodies of false arms blanked is `t1`; its entries pruned, `t2`; the bodies of
  // unused arms blanked, `u`.
  lemma Finished(t: Table, t1: Table, t2: Table, u: Table)
    requires t1 == t.(arms := t1.arms) && t2.arms == t1.arms && u == t2.(arms := u.arms)
    requires Sound(u) && KeptCases(Guards(t1.arms), t1.cases, t2.cases) && t2.ranges == LiveRanges(Guards(t1.arms), t1.ranges) && t2.fallback == t1.fallback
    requires forall key :: key in u.cases ==> Tidy(Guards(t1.arms), u.cases[key])
    requires forall r :: r in u.ranges ==> GuardOf(Guards(t1.arms), r.index) != Never
    requires |t1.arms| == |t.arms| && Guards(t1.arms) == Guards(t.arms)
    requires forall i :: 0 <= i < |t.arms| ==> t1.arms[i].body == if t1.arms[i].guard == Never then Nothing else t.arms[i].body
    requires |u.arms| == |t1.arms| && Guards(u.arms) == Guards(t1.arms)
    requires forall i :: 0 <= i < |u.arms| ==> u.arms[i].body == if Used(u, i) then t1.arms[i].body else Nothing
    ensures SameSwitch(t, u) && Pruned(u)
    ensures u == t ==> t1 == t && t2 == t1 && u == t2
  {
    hide SameSwitch, LiveRanges, Used;
    GuardsAt(t.arms, t1.arms);
    GuardsAt(t1.arms, u.arms);
    KeptSame(t, u) by {
      assert KeptCases(Guards(t.arms), t.cases, u.cases);
      assert KeptBodies(t, u);
    }
    if u == t {
      assert forall i :: 0 <= i < |t.arms| ==> t1.arms[i] == t.arms[i];
    }
  }

  // ---------------------------------------------------------------------------------------
  // A switch on a constant.

  // What the statement is replaced by: one arm, one guarded arm or else the default, the
  // default, or a switch that keeps only the ranges holding the value.
  datatype Replacement =
    | Promoted(index: nat)
    | Guarded(guard: Guard, index: nat, otherwise: Option<nat>)
    | DefaultOnly(otherwise: Option<nat>)
    | Residual

  function Meaning(r: Replacement, t: Table, v: Value, hash: Value -> nat, ask: Oracle): (Choice, seq<nat>) {
    match r
    case Promoted(i) => (Take(i), [])
    case Guarded(g, i, otherwise) =>
      var (answer, now) := Ask(g, i, ask, []);
      if answer.None? then (Failed, now) else if answer.value then (Take(i), now) else (Default(otherwise), now)
    case DefaultOnly(otherwise) => (Default(otherwise), [])
    case Residual => Select(t, v, hash, ask)
  }

  predicate AllNever(guards: seq<Guard>, list: seq<nat>) {
    list == [] || (GuardOf(guards, list[0]) == Never && AllNever(guards, list[1..]))
  }

  predicate HasAlways(guards: seq<Guard>, list: seq<nat>) {
    list != [] && (GuardOf(guards, list[0]) == Always || HasAlways(guards, list[1..]))
  }

  // The first entry that is sure to be taken once it is reached.
  function Sure(guards: seq<Guard>, list: seq<nat>): nat
    requires HasAlways(guards, list)
  {
    if GuardOf(guards, list[0]) == Always then list[0] else Sure(guards, list[1..])
  }

  // Only entries that are never taken stand before the first sure one.
  predicate NothingAsked(guards: seq<Guard>, list: seq<nat>) {
    || list == []
    || GuardOf(guards, list[0]) == Always
    || (GuardOf(guards, list[0]) == Never && NothingAsked(guards, list[1..]))
  }

  // None of the arms `spent` stands before the first sure entry.
  predicate Untouched(guards: seq<Guard>, list: seq<nat>, spent: seq<nat>) {
    || list == []
    || (list[0] !in spent && (GuardOf(guards, list[0]) == Always || Untouched(guards, list[1..], spent)))
  }

  // The constants on which a switch is replaced. Integers, booleans, strings and `()` have syntax
  // nodes of their own, which this pass does not look at; ranges, arrays and decimals arrive as
  // dynamic constants.
  predicate HashableConstant(v: Value) {
    Hashable(v) && (v.Range? || v.Array? || v.Decimal?)
  }

  // When replacing a switch on a constant keeps its meaning: `literals` are the arms filed under
  // the constant, `spans` those whose range holds it.
  predicate FoldableArms(guards: seq<Guard>, literals: seq<nat>, spans: seq<nat>) {
    if |literals| == 0 then true
    else if |literals| == 1 then GuardOf(guards, literals[0]) == Always || AllNever(guards, spans)
    else NothingAsked(guards, literals) && (HasAlways(guards, literals) || Untouched(guards, spans, literals))
  }

  // The guards once the arms of a list have been moved out of the table.
  function Spend(guards: seq<Guard>, list: seq<nat>): seq<Guard> {
    seq(|guards|, i requires 0 <= i < |guards| => if i in list then Spent else guards[i])
  }

  // What the replacement does.
  function FoldedArms(guards: seq<Guard>, literals: seq<nat>, spans: seq<nat>, fallback: Option<nat>, ask: Oracle): (Choice, seq<nat>) {
    if |literals| == 1 then OrDefault(Try(guards, literals, ask, []), fallback)
    else if HasAlways(guards, literals) then (Take(Sure(guards, literals)), [])
    else OrDefault(Try(Spend(guards, literals), spans, ask, []), fallback)
  }

  predicate Foldable(t: Table, v: Value, hash: Value -> nat) {
    FoldableArms(Guards(t.arms), CaseHits(t, v, hash), RangeHits(t.ranges, v))
  }

  function Folded(t: Table, v: Value, hash: Value -> nat, ask: Oracle): (Choice, seq<nat>) {
    FoldedArms(Guards(t.arms), CaseHits(t, v, hash), RangeHits(t.ranges, v), t.fallback, ask)
  }

  function Deny(): Oracle {
    (index: nat, asked: seq<nat>) => Some(false)
  }

  function Fail(): Oracle {
    (index: nat, asked: seq<nat>) => None
  }

  predicate Unspent(guards: seq<Guard>, list: seq<nat>) {
    forall x :: x in list ==> x < |guards| && guards[x] != Spent
  }

  lemma UnspentTail(guards: seq<Guard>, list: seq<nat>)
    requires Unspent(guards, list) && list != []
    ensures list[0] < |guards| && guards[list[0]] != Spent && Unspent(guards, list[1..])
    ensures forall x :: x in list[1..] ==> x in list
  {
    assert list[0] in list;
    forall x | x in list[1..]
      ensures x in list
    {
    }
  }

  lemma {:induction false} TryNothingAsked(guards: seq<Guard>, list: seq<nat>, ask: Oracle, asked: seq<nat>)
    requires NothingAsked(guards, list)
    ensures Try(guards, list, ask, asked)
         == if HasAlways(guards, list) then (Take(Sure(guards, list)), asked) else (Miss, asked)
  {
    if list != [] && GuardOf(guards, list[0]) == Never {
      TryNothingAsked(guards, list[1..], ask, asked);
    }
  }

  lemma {:induction false} NeverAsks(guards: seq<Guard>, list: seq<nat>)
    ensures AllNever(guards, list) <==> NothingAsked(guards, list) && !HasAlways(guards, list)
  {
    if list != [] {
      NeverAsks(guards, list[1..]);
    }
  }

  // When every guard that is asked says no, only lists of false guards end where they began.
  lemma {:induction false} TryDenied(guards: seq<Guard>, list: seq<nat>, asked: seq<nat>)
    requires Unspent(guards, list)
    ensures var r := Try(guards, list, Deny(), asked);
      && !r.0.Failed?
      && |r.1| >= |asked|
      && (|r.1| == |asked| ==> NothingAsked(guards, list))
      && (r == (Miss, asked) ==> AllNever(guards, list))
      && (r.0.Take? ==> r.0.index in list)
  {
    if list != [] {
      UnspentTail(guards, list);
      TryDenied(guards, list[1..], Ask(GuardOf(guards, list[0]), list[0], Deny(), asked).1);
    }
  }

  // When every guard that is asked fails, the failure tells which guard was asked first.
  lemma {:induction false} TryFailed(guards: seq<Guard>, list: seq<nat>, asked: seq<nat>)
    ensures var r := Try(guards, list, Fail(), asked);
      r.0.Failed? ==>
        || r.1 == asked
        || exists j: nat :: r.1 == asked + [j] && GuardOf(guards, j) == Test
  {
    if list != [] {
      var head := GuardOf(guards, list[0]);
      if head == Test {
        assert Try(guards, list, Fail(), asked).1 == asked + [list[0]];
      } else {
        TryFailed(guards, list[1..], asked);
      }
    }
  }

  lemma {:induction false} FirstAsked(guards: seq<Guard>, list: seq<nat>) returns (j: nat)
    requires Unspent(guards, list) && !NothingAsked(guards, list) && !HasAlways(guards, list)
    ensures j in list && Try(guards, list, Fail(), []) == (Failed, [j])
  {
    UnspentTail(guards, list);
    if GuardOf(guards, list[0]) == Test {
      j := list[0];
      assert [] + [j] == [j];
      assert Ask(Test, j, Fail(), []) == (None, [j]);
      assert Try(guards, list, Fail(), []) == (Failed, [j]);
    } else {
      j := FirstAsked(guards, list[1..]);
      assert Ask(GuardOf(guards, list[0]), list[0], Fail(), []) == (Some(false), []);
    }
  }

  lemma FailsElsewhere(guards: seq<Guard>, list: seq<nat>, spent: seq<nat>, j: nat)
    requires j in spent
    ensures Try(Spend(guards, spent), list, Fail(), []) != (Failed, [j])
  {
    var r := Try(Spend(guards, spent), list, Fail(), []);
    TryFailed(Spend(guards, spent), list, []);
    forall i: nat | [] + [i] == [j]
      ensures i == j
    {
      assert ([] + [i])[0] == i;
    }
  }

  lemma SpendNext(guards: seq<Guard>, arms: seq<Arm>, list: seq<nat>, i: nat)
    requires i < |list| && list[i] < |arms| && Guards(arms) == Spend(guards, list[..i])
    ensures Guards(arms[list[i] := Arm(Spent, Nothing)]) == Spend(guards, list[..i + 1])
  {
    var next := arms[list[i] := Arm(Spent, Nothing)];
    assert |arms| == |guards| by {
      assert |Guards(arms)| == |Spend(guards, list[..i])|;
    }
    assert list[..i + 1] == list[..i] + [list[i]];
    forall k | 0 <= k < |arms|
      ensures Guards(next)[k] == Spend(guards, list[..i + 1])[k]
    {
      assert Guards(arms)[k] == Spend(guards, list[..i])[k];
    }
  }

  lemma OneLiteral(guards: seq<Guard>, list: seq<nat>, ask: Oracle, otherwise: Option<nat>, t: Table, v: Value, hash: Value -> nat)
    requires |list| == 1
    ensures Meaning(Guarded(GuardOf(guards, list[0]), list[0], otherwise), t, v, hash, ask)
         == OrDefault(Try(guards, list, ask, []), otherwise)
  {
    assert list == [list[0]] + [];
    TryCons(guards, list[0], [], ask, []);
  }

  lemma {:induction false} TrySpent(guards: seq<Guard>, list: seq<nat>, spent: seq<nat>, ask: Oracle, asked: seq<nat>)
    ensures Untouched(guards, list, spent) ==> Try(Spend(guards, spent), list, ask, asked) == Try(guards, list, ask, asked)
    ensures !Untouched(guards, list, spent) ==> Try(Spend(guards, spent), list, Deny(), asked).0.Failed?
  {
    if list != [] && list[0] !in spent {
      assert GuardOf(Spend(guards, spent), list[0]) == GuardOf(guards, list[0]);
      TrySpent(guards, list[1..], spent, ask, Ask(GuardOf(guards, list[0]), list[0], ask, asked).1);
      TrySpent(guards, list[1..], spent, ask, Ask(GuardOf(guards, list[0]), list[0], Deny(), asked).1);
    }
  }

  lemma HitsUnspent(t: Table, v: Value, hash: Value -> nat)
    requires Sound(t)
    ensures Unspent(Guards(t.arms), CaseHits(t, v, hash)) && Unspent(Guards(t.arms), RangeHits(t.ranges, v))
    ensures t.fallback.Some? ==> t.fallback.value !in RangeHits(t.ranges, v)
  {
    RangeHitsFrom(t.ranges, v);
  }

  lemma FoldOneLiteral(t: Table, v: Value, hash: Value -> nat)
    requires Sound(t) && HashableConstant(v) && |CaseHits(t, v, hash)| == 1
    ensures Foldable(t, v, hash) ==> forall ask :: Folded(t, v, hash, ask) == Select(t, v, hash, ask)
    ensures Folded(t, v, hash, Deny()) == Select(t, v, hash, Deny()) ==> Foldable(t, v, hash)
  {
    var guards := Guards(t.arms);
    var literals := CaseHits(t, v, hash);
    var spans := RangeHits(t.ranges, v);
    HitsUnspent(t, v, hash);
    assert literals[1..] == [];
    if Foldable(t, v, hash) && AllNever(guards, spans) {
      NeverAsks(guards, spans);
      forall ask: Oracle
        ensures Folded(t, v, hash, ask) == Select(t, v, hash, ask)
      {
        TryNothingAsked(guards, spans, ask, Try(guards, literals, ask, []).1);
      }
    }
    TryDenied(guards, literals, []);
    TryDenied(guards, spans, Try(guards, literals, Deny(), []).1);
  }

  lemma FoldLiterals(t: Table, v: Value, hash: Value -> nat)
    requires Sound(t) && HashableConstant(v) && |CaseHits(t, v, hash)| != 1
    ensures Foldable(t, v, hash) ==> forall ask :: Folded(t, v, hash, ask) == Select(t, v, hash, ask)
  {
    var guards := Guards(t.arms);
    var literals := CaseHits(t, v, hash);
    var spans := RangeHits(t.ranges, v);
    if Foldable(t, v, hash) {
      forall ask: Oracle
        ensures Folded(t, v, hash, ask) == Select(t, v, hash, ask)
      {
        TryNothingAsked(guards, literals, ask, []);
        if literals == [] {
          UntouchedByNone(guards, spans);
        }
        TrySpent(guards, spans, literals, ask, []);
      }
    }
  }

  lemma {:induction false} UntouchedByNone(guards: seq<Guard>, list: seq<nat>)
    ensures Untouched(guards, list, [])
  {
    if list != [] {
      UntouchedByNone(guards, list[1..]);
    }
  }

  lemma FoldLiteralsOnlyIf(t: Table, v: Value, hash: Value -> nat)
    requires Sound(t) && HashableConstant(v) && |CaseHits(t, v, hash)| > 1
    requires Folded(t, v, hash, Deny()) == Select(t, v, hash, Deny())
    requires Folded(t, v, hash, Fail()) == Select(t, v, hash, Fail())
    ensures Foldable(t, v, hash)
  {
    var guards := Guards(t.arms);
    var literals := CaseHits(t, v, hash);
    var spans := RangeHits(t.ranges, v);
    HitsUnspent(t, v, hash);
    TryDenied(guards, literals, []);
    if HasAlways(guards, literals) {
      AlwaysTakes(guards, literals, []);
    } else if !NothingAsked(guards, literals) {
      var j := FirstAsked(guards, literals);
      FailsElsewhere(guards, spans, literals, j);
    } else {
      TryNothingAsked(guards, literals, Deny(), []);
      TryDenied(guards, spans, []);
      TrySpent(guards, spans, literals, Deny(), []);
    }
  }

  lemma {:induction false} AlwaysTakes(guards: seq<Guard>, list: seq<nat>, asked: seq<nat>)
    requires Unspent(guards, list) && HasAlways(guards, list)
    ensures Try(guards, list, Deny(), asked).0.Take?
  {
    UnspentTail(guards, list);
    if GuardOf(guards, list[0]) != Always {
      AlwaysTakes(guards, list[1..], Ask(GuardOf(guards, list[0]), list[0], Deny(), asked).1);
    }
  }

  // Folding keeps the meaning of a switch on a constant exactly when the table is foldable there.
  lemma FoldedExactly(t: Table, v: Value, hash: Value -> nat)
    requires Sound(t) && HashableConstant(v)
    ensures Foldable(t, v, hash) <==> forall ask: Oracle :: Folded(t, v, hash, ask) == Select(t, v, hash, ask)
  {
    if |CaseHits(t, v, hash)| == 1 {
      FoldOneLiteral(t, v, hash);
    } else {
      FoldLiterals(t, v, hash);
      if |CaseHits(t, v, hash)| > 1
         && Folded(t, v, hash, Deny()) == Select(t, v, hash, Deny())
         && Folded(t, v, hash, Fail()) == Select(t, v, hash, Fail()) {
        FoldLiteralsOnlyIf(t, v, hash);
      }
    }
  }

  lemma {:induction false} RangeHitsAt(ranges: seq<Case>, v: Value, i: nat)
    requires i <= |ranges| && forall k :: 0 <= k < i ==> !InSpan(ranges[k].span, v)
    ensures RangeHits(ranges, v) == RangeHits(ranges[i..], v)
    ensures i == |ranges| ==> RangeHits(ranges, v) == []
  {
    if i > 0 {
      RangeHitsAt(ranges[1..], v, i - 1);
      assert ranges[1..][i - 1..] == ranges[i..];
    } else {
      assert ranges[0..] == ranges;
    }
  }

  // The ranges that hold the value.
  function Holding(ranges: seq<Case>, v: Value): seq<Case> {
    if ranges == [] then []
    else (if InSpan(ranges[0].span, v) then [ranges[0]] else []) + Holding(ranges[1..], v)
  }

  lemma {:induction false} HoldingNext(ranges: seq<Case>, v: Value, i: nat)
    requires i < |ranges|
    ensures Holding(ranges[..i + 1], v) == Holding(ranges[..i], v) + if InSpan(ranges[i].span, v) then [ranges[i]] else []
  {
    if i > 0 {
      HoldingNext(ranges[1..], v, i - 1);
      assert ranges[..i + 1][1..] == ranges[1..][..i];
      assert ranges[..i][1..] == ranges[1..][..i - 1];
    } else {
      assert ranges[..1] == [ranges[0]] && ranges[..0] == [];
      assert [ranges[0]][1..] == [];
    }
  }

  lemma {:induction false} HoldingHits(ranges: seq<Case>, v: Value)
    ensures RangeHits(Holding(ranges, v), v) == RangeHits(ranges, v)
    ensures |Holding(ranges, v)| <= |ranges| && (|Holding(ranges, v)| == |ranges| ==> Holding(ranges, v) == ranges)
  {
    if ranges != [] {
      var rest := Holding(ranges[1..], v);
      assert ([ranges[0]] + rest)[1..] == rest;
      assert [] + rest == rest;
      HoldingHits(ranges[1..], v);
    }
  }

  class SwitchCases {
    var arms: seq<Arm>
    var cases: map<nat, seq<nat>>
    var ranges: seq<Case>
    var fallback: Option<nat>

    constructor (t: Table)
      ensures View() == t
    {
      arms, cases, ranges, fallback := t.arms, t.cases, t.ranges, t.fallback;
    }

    function View(): Table
      reads this
    {
      Table(arms, cases, ranges, fallback)
    }

    // The body of an arm that is never taken becomes `()`.
    method BlankFalse() returns (dirty: bool)
      modifies this`arms
      ensures |arms| == |old(arms)| && Guards(arms) == Guards(old(arms))
      ensures forall i :: 0 <= i < |arms| ==> arms[i].body == if arms[i].guard == Never then Nothing else old(arms)[i].body
      ensures dirty <==> arms != old(arms)
    {
      dirty := false;
      var i := 0;
      while i < |arms|
        invariant 0 <= i <= |arms| == |old(arms)|
        invariant Guards(arms) == Guards(old(arms))
        invariant forall k :: 0 <= k < i ==> arms[k].body == if arms[k].guard == Never then Nothing else old(arms)[k].body
        invariant forall k :: i <= k < |arms| ==> arms[k] == old(arms)[k]
        invariant dirty <==> arms != old(arms)
      {
        if arms[i].guard == Never && arms[i].body != Nothing {
          assert arms[i] == old(arms)[i];
          arms := arms[i := Arm(Never, Nothing)];
          assert arms[i] != old(arms)[i];
          dirty := true;
        }
        i := i + 1;
      }
      GuardsAt(arms, old(arms));
    }

    method PruneCases() returns (dirty: bool)
      requires Sound(View())
      modifies this`cases
      ensures KeptCases(Guards(arms), old(cases), cases)
      ensures dirty <==> cases != old(cases)
    {
      hide Live, Guards, Sound;
      CasesInArms(View());
      dirty := false;
      var todo := cases.Keys;
      ghost var guards := Guards(arms);
      while todo != {}
        invariant todo <= old(cases).Keys
        invariant forall key :: key in todo ==> key in cases && cases[key] == old(cases)[key]
        invariant forall key :: key in cases && key !in todo ==>
          key in old(cases) && cases[key] == Live(guards, old(cases)[key]) && cases[key] != []
        invariant forall key :: key in old(cases) && key !in todo && Live(guards, old(cases)[key]) != [] ==> key in cases
        invariant forall key :: key in cases ==> key in old(cases)
        invariant dirty <==> cases != old(cases)
        decreases |todo|
      {
        var key :| key in todo;
        todo := todo - {key};
        assert cases[key] == old(cases)[key] && old(cases)[key] != [];
        var kept, changed := PruneList(arms, cases[key]);
        if kept == [] {
          cases := map other | other in cases && other != key :: cases[other];
          assert key !in cases && key in old(cases);
          dirty := true;
        } else if changed {
          cases := cases[key := kept];
          assert cases[key] != old(cases)[key];
          dirty := true;
        } else {
          assert kept == Live(guards, old(cases)[key]);
        }
      }
    }

    method PruneRanges() returns (dirty: bool)
      requires forall k :: 0 <= k < |ranges| ==> ranges[k].index < |arms|
      modifies this`ranges
      ensures ranges == LiveRanges(Guards(arms), old(ranges))
      ensures dirty <==> ranges != old(ranges)
    {
      dirty := false;
      ghost var guards := Guards(arms);
      var kept: seq<Case> := [];
      var i := 0;
      while i < |ranges|
        invariant 0 <= i <= |ranges|
        invariant ranges == old(ranges)
        invariant kept == LiveRanges(guards, ranges[..i])
        invariant |kept| <= i && (dirty <==> |kept| < i)
      {
        LiveRangesNext(guards, ranges, i);
        if arms[ranges[i].index].guard == Never {
          dirty := true;
        } else {
          kept := kept + [ranges[i]];
        }
        i := i + 1;
      }
      assert ranges[..i] == ranges;
      LiveRangesFacts(guards, ranges);
      ranges := kept;
    }

    method BlankUnused() returns (dirty: bool)
      modifies this`arms
      ensures |arms| == |old(arms)| && Guards(arms) == Guards(old(arms))
      ensures forall i :: 0 <= i < |arms| ==> arms[i].body == if Used(View(), i) then old(arms)[i].body else Nothing
      ensures dirty <==> arms != old(arms)
    {
      dirty := false;
      ghost var t := View();
      var i := 0;
      while i < |arms|
        invariant 0 <= i <= |arms| == |old(arms)|
        invariant Guards(arms) == Guards(old(arms))
        invariant forall k :: 0 <= k < i ==> arms[k].body == if Used(t, k) then old(arms)[k].body else Nothing
        invariant forall k :: i <= k < |arms| ==> arms[k] == old(arms)[k]
        invariant dirty <==> arms != old(arms)
      {
        assert Used(View(), i) == Used(t, i);
        if !Used(View(), i) && arms[i].body != Nothing {
          assert arms[i] == old(arms)[i];
          arms := arms[i := arms[i].(body := Nothing)];
          assert arms[i] != old(arms)[i];
          dirty := true;
        }
        i := i + 1;
      }
      forall k | 0 <= k < |arms|
        ensures Used(View(), k) == Used(t, k)
      {}
    }

    // The pass over a switch on a value not known in advance.
    method Prune() returns (dirty: bool)
      requires Sound(View())
      modifies this
      ensures SameSwitch(old(View()), View())
      ensures Sound(View()) && Pruned(View())
      ensures KeptCases(Guards(old(arms)), old(cases), cases) && ranges == LiveRanges(Guards(old(arms)), old(ranges))
      ensures Guards(arms) == Guards(old(arms)) && fallback == old(fallback)
      ensures !dirty <==> View() == old(View())
    {
      hide Sound, SameSwitch, Pruned, KeptCases, LiveRanges, Guards, Used;
      ghost var t := View();
      var a := BlankFalse();
      ghost var t1 := View();
      BodiesOnly(t, t1);
      assert forall k :: 0 <= k < |ranges| ==> ranges[k].index < |arms| by {
        RangesInArms(t1);
      }
      var b := PruneCases();
      var c := PruneRanges();
      ghost var t2 := View();
      KeptSound(t1, t2);
      var d := BlankUnused();
      BodiesOnly(t2, View());
      Finished(t, t1, t2, View());
      dirty := a || b || c || d;
    }

    // Moves the arms of a list out of the table until one is sure to be taken.
    method TakeLiterals(list: seq<nat>) returns (sure: Option<nat>)
      requires Unspent(Guards(arms), list)
      modifies this`arms
      ensures sure.Some? <==> HasAlways(Guards(old(arms)), list)
      ensures sure.Some? ==> sure.value == Sure(Guards(old(arms)), list)
      ensures sure.None? ==> Guards(arms) == Spend(Guards(old(arms)), list)
    {
      ghost var guards := Guards(arms);
      var i := 0;
      assert list[0..] == list;
      while i < |list|
        invariant 0 <= i <= |list|
        invariant |arms| == |old(arms)| == |guards|
        invariant Guards(arms) == Spend(guards, list[..i])
        invariant forall k :: 0 <= k < i ==> GuardOf(guards, list[k]) != Always
        invariant HasAlways(guards, list) <==> HasAlways(guards, list[i..])
        invariant HasAlways(guards, list) ==> Sure(guards, list) == Sure(guards, list[i..])
      {
        var index := list[i];
        assert index in list && list[i..][0] == index && list[i..][1..] == list[i + 1..];
        assert Guards(arms)[index] == arms[index].guard;
        var arm := arms[index];
        SpendNext(guards, arms, list, i);
        arms := arms[index := Arm(Spent, Nothing)];
        if arm.guard == Always {
          return Some(index);
        }
        i := i + 1;
      }
      assert list[..i] == list;
      sure := None;
    }

    // The ranges, once the literals are out of the way.
    method FoldRanges(v: Value, ghost hash: Value -> nat) returns (r: Replacement, dirty: bool)
      requires HashableConstant(v) && forall k :: 0 <= k < |ranges| ==> ranges[k].index < |arms|
      modifies this`cases, this`ranges
      ensures forall ask :: Meaning(r, View(), v, hash, ask)
                         == OrDefault(Try(Guards(arms), RangeHits(old(ranges), v), ask, []), fallback)
      ensures !dirty ==> r == Residual && View() == old(View())
      ensures old(cases) != map[] ==> dirty
    {
      var unguarded := forall k :: 0 <= k < |ranges| ==> arms[ranges[k].index].guard == Always;
      if |ranges| == 1 || unguarded {
        var i := 0;
        while i < |ranges| && !InSpan(ranges[i].span, v)
          invariant 0 <= i <= |ranges|
          invariant ranges == old(ranges)
          invariant forall k :: 0 <= k < i ==> !InSpan(ranges[k].span, v)
        {
          i := i + 1;
        }
        RangeHitsAt(ranges, v, i);
        if i < |ranges| {
          var index := ranges[i].index;
          assert RangeHits(ranges, v)[0] == index;
          if arms[index].guard == Always {
            return Promoted(index), true;
          }
          assert ranges[i..][1..] == [];
          assert RangeHits(ranges, v) == [index];
          assert [index][1..] == [];
          return Guarded(arms[index].guard, index, fallback), true;
        }
        return DefaultOnly(fallback), true;
      }
      dirty := cases != map[];
      cases := map[];
      var kept := KeepHolding(v);
      HoldingHits(ranges, v);
      dirty := dirty || |kept| != |ranges|;
      ranges := kept;
      r := Residual;
    }

    method KeepHolding(v: Value) returns (kept: seq<Case>)
      ensures kept == Holding(ranges, v)
    {
      kept := [];
      var i := 0;
      while i < |ranges|
        invariant 0 <= i <= |ranges|
        invariant kept == Holding(ranges[..i], v)
      {
        HoldingNext(ranges, v, i);
        if InSpan(ranges[i].span, v) {
          kept := kept + [ranges[i]];
        }
        i := i + 1;
      }
      assert ranges[..i] == ranges;
    }

    // The pass over a switch on a hashable constant.
    method FoldConstant(v: Value, hash: Value -> nat) returns (r: Replacement, dirty: bool)
      requires Sound(View()) && HashableConstant(v)
      modifies this
      ensures Foldable(old(View()), v, hash)
         <==> forall ask :: Meaning(r, View(), v, hash, ask) == Select(old(View()), v, hash, ask)
      ensures forall ask :: Meaning(r, View(), v, hash, ask) == Folded(old(View()), v, hash, ask)
      ensures !dirty ==> r == Residual && View() == old(View())
    {
      ghost var t := View();
      FoldedExactly(t, v, hash);
      HitsUnspent(t, v, hash);
      if hash(v) in cases {
        var list := cases[hash(v)];
        if |list| == 1 {
          assert list[0] in list;
          var arm := arms[list[0]];
          assert GuardOf(Guards(t.arms), list[0]) == arm.guard;
          arms := arms[list[0] := Arm(Spent, Nothing)];
          cases := map[];
          if arm.guard == Always {
            return Promoted(list[0]), true;
          } else {
            forall ask: Oracle
              ensures Meaning(Guarded(arm.guard, list[0], fallback), View(), v, hash, ask) == Folded(t, v, hash, ask)
            {
              OneLiteral(Guards(t.arms), list, ask, fallback, View(), v, hash);
            }
            return Guarded(arm.guard, list[0], fallback), true;
          }
        }
        var sure := TakeLiterals(list);
        if sure.Some? {
          return Promoted(sure.value), true;
        }
      } else {
        assert Spend(Guards(arms), []) == Guards(arms);
      }
      if ranges != [] {
        r, dirty := FoldRanges(v, hash);
        return;
      }
      r, dirty := DefaultOnly(fallback), true;
    }
  }

  // Reading a switch and pruning its table: the arms still run as they are written.
  method ParseAndPrune(clauses: seq<Clause>, hash: Value -> nat) returns (r: Outcome)
    ensures r.Parsed? <==> Accepted(clauses)
    ensures r.Parsed? ==> Sound(r.table) && Pruned(r.table)
    ensures r.Parsed? ==> forall v, ask :: NoCollision(hash, Alternatives(clauses), v) ==>
      Select(r.table, v, hash, ask) == Scan(clauses, 0, 0, v, ask, [])
  {
    r := ParseSwitch(clauses, hash);
    if r.Parsed? {
      ghost var t := r.table;
      ParsedSound(clauses, t, hash);
      var table := new SwitchCases(r.table);
      var dirty := table.Prune();
      r := Parsed(table.View());
      forall v, ask: Oracle | NoCollision(hash, Alternatives(clauses), v)
        ensures Select(r.table, v, hash, ask) == Scan(clauses, 0, 0, v, ask, [])
      {
        LookupIsScan(clauses, t, v, hash, ask);
        assert Select(r.table, v, hash, ask) == Select(t, v, hash, ask);
      }
    }
  }

  // ---------------------------------------------------------------------------------------
  // Reading a switch on a constant, pruning its table and replacing it.

  function Conditions(clauses: seq<Clause>): seq<Guard> {
    seq(|clauses|, i requires 0 <= i < |clauses| => ConditionOf(clauses[i]))
  }

  // The arms of the literals that equal the value.
  function Literals(a: seq<Alternative>, v: Value): seq<nat> {
    if a == [] then []
    else (if a[0].value == v then [a[0].index] else []) + Literals(a[1..], v)
  }

  // The arms filed under the value and those whose range holds it, as written or as pruning leaves
  // them. A scrutinee that the parser makes a constant is replaced before the table is pruned, one
  // that becomes a constant is folded by the visit that prunes the table.
  function ArmsOfLiterals(clauses: seq<Clause>, v: Value, pruned: bool): seq<nat> {
    var literals := Literals(Alternatives(clauses), v);
    if pruned then Live(Conditions(clauses), literals) else literals
  }

  function ArmsOfRanges(clauses: seq<Clause>, v: Value, pruned: bool): seq<nat> {
    var spans := RangeHits(Spans(Alternatives(clauses)), v);
    if pruned then NotNever(Conditions(clauses), spans) else spans
  }

  predicate FoldsAsWritten(clauses: seq<Clause>, v: Value, pruned: bool) {
    FoldableArms(Conditions(clauses), ArmsOfLiterals(clauses, v, pruned), ArmsOfRanges(clauses, v, pruned))
  }

  function FoldsTo(clauses: seq<Clause>, v: Value, pruned: bool, ask: Oracle): (Choice, seq<nat>) {
    FoldedArms(Conditions(clauses), ArmsOfLiterals(clauses, v, pruned), ArmsOfRanges(clauses, v, pruned),
               FallbackFor(clauses), ask)
  }

  lemma {:induction false} EntriesAreLiterals(a: seq<Alternative>, v: Value, hash: Value -> nat)
    requires NoCollision(hash, a, v)
    ensures Entries(a, hash(v), hash) == Literals(a, v)
  {
    if a != [] {
      assert forall k :: 0 <= k < |a[1..]| ==> a[1..][k] == a[k + 1];
      EntriesAreLiterals(a[1..], v, hash);
    }
  }

  lemma {:induction false} HitsOfLiveRanges(guards: seq<Guard>, ranges: seq<Case>, v: Value)
    ensures RangeHits(LiveRanges(guards, ranges), v) == NotNever(guards, RangeHits(ranges, v))
  {
    hide InSpan, GuardOf;
    if ranges != [] {
      var index, rest := ranges[0].index, ranges[1..];
      var live, hits := LiveRanges(guards, rest), RangeHits(rest, v);
      HitsOfLiveRanges(guards, rest, v);
      if GuardOf(guards, index) == Never {
        assert LiveRanges(guards, ranges) == [] + live == live;
      } else {
        assert LiveRanges(guards, ranges) == [ranges[0]] + live && ([ranges[0]] + live)[1..] == live;
      }
      if InSpan(ranges[0].span, v) {
        assert RangeHits(ranges, v) == [index] + hits && ([index] + hits)[1..] == hits;
      } else {
        assert RangeHits(ranges, v) == [] + hits == hits;
      }
    }
  }

  lemma {:induction false} NoneLeft(guards: seq<Guard>, list: seq<nat>)
    ensures AllNever(guards, NotNever(guards, list)) <==> NotNever(guards, list) == []
  {
    if list != [] {
      var rest := NotNever(guards, list[1..]);
      NoneLeft(guards, list[1..]);
      assert [] + rest == rest;
    }
  }

  // In a pruned list something is asked before the last entry.
  lemma TidyAsks(guards: seq<Guard>, list: seq<nat>)
    requires Tidy(guards, list) && |list| > 1
    ensures !NothingAsked(guards, list)
  {}

  // What the table holds for the value are the arms as written.
  lemma ListsAsWritten(clauses: seq<Clause>, t: Table, u: Table, v: Value, hash: Value -> nat, pruned: bool)
    requires Built(t, clauses, hash) && NoCollision(hash, Alternatives(clauses), v)
    requires !pruned ==> u == t
    requires pruned ==>
      && KeptCases(Guards(t.arms), t.cases, u.cases) && u.ranges == LiveRanges(Guards(t.arms), t.ranges)
      && Guards(u.arms) == Guards(t.arms) && u.fallback == t.fallback
    ensures Guards(u.arms) == Conditions(clauses) && u.fallback == FallbackFor(clauses)
    ensures CaseHits(u, v, hash) == ArmsOfLiterals(clauses, v, pruned)
    ensures RangeHits(u.ranges, v) == ArmsOfRanges(clauses, v, pruned)
  {
    var guards := Guards(t.arms);
    assert guards == Conditions(clauses);
    EntriesAreLiterals(Alternatives(clauses), v, hash);
    HitsOfLiveRanges(guards, t.ranges, v);
    assert CaseHits(t, v, hash) == Literals(Alternatives(clauses), v);
    if pruned {
      assert CaseHits(u, v, hash) == Live(guards, CaseHits(t, v, hash));
    }
  }

  // Once the table is pruned: at most one literal is left for the value, and if it is guarded no
  // range is left that holds the value.
  lemma PrunedFoldsAsWritten(clauses: seq<Clause>, v: Value)
    ensures var literals := ArmsOfLiterals(clauses, v, true);
      FoldsAsWritten(clauses, v, true)
      <==> |literals| == 0
           || (|literals| == 1 && (GuardOf(Conditions(clauses), literals[0]) == Always || ArmsOfRanges(clauses, v, true) == []))
  {
    var guards, literals := Conditions(clauses), ArmsOfLiterals(clauses, v, true);
    LiveTidy(guards, Literals(Alternatives(clauses), v));
    NoneLeft(guards, RangeHits(Spans(Alternatives(clauses)), v));
    if |literals| > 1 {
      TidyAsks(guards, literals);
    }
  }

  // From the arms as written to the replacement: it asks the same guards and takes the same arm as
  // the arms do from the top if and only if the arms meet the condition.
  method ParseAndFold(clauses: seq<Clause>, v: Value, hash: Value -> nat, prune: bool)
    returns (r: Option<Replacement>, table: Table)
    requires HashableConstant(v)
    ensures r.Some? <==> Accepted(clauses)
    ensures r.Some? && NoCollision(hash, Alternatives(clauses), v) ==>
      && (FoldsAsWritten(clauses, v, prune)
          <==> forall ask :: Meaning(r.value, table, v, hash, ask) == Scan(clauses, 0, 0, v, ask, []))
      && (forall ask :: Meaning(r.value, table, v, hash, ask) == FoldsTo(clauses, v, prune, ask))
  {
    var parsed := ParseSwitch(clauses, hash);
    if parsed.Rejected? {
      return None, Table([], map[], [], None);
    }
    ghost var t := parsed.table;
    ParsedSound(clauses, t, hash);
    var switch := new SwitchCases(parsed.table);
    if prune {
      var _ := switch.Prune();
    }
    ghost var u := switch.View();
    var replacement, _ := switch.FoldConstant(v, hash);
    r, table := Some(replacement), switch.View();
    if NoCollision(hash, Alternatives(clauses), v) {
      ListsAsWritten(clauses, t, u, v, hash, prune);
      SelectAsWritten(clauses, t, u, v, hash);
    }
  }

  lemma SelectAsWritten(clauses: seq<Clause>, t: Table, u: Table, v: Value, hash: Value -> nat)
    requires Accepted(clauses) && Built(t, clauses, hash) && NoCollision(hash, Alternatives(clauses), v)
    requires u == t || SameSwitch(t, u)
    ensures forall ask :: Select(u, v, hash, ask) == Scan(clauses, 0, 0, v, ask, [])
  {
    forall ask: Oracle
      ensures Select(u, v, hash, ask) == Scan(clauses, 0, 0, v, ask, [])
    {
      LookupIsScan(clauses, t, v, hash, ask);
      assert Select(u, v, hash, ask) == Select(t, v, hash, ask);
    }
  }

  // `switch 1..42 { 1..42 if g => .., 1..42 => .. }`: the guard is never asked.
  lemma GuardedArmSkipped(ask: Oracle, pruned: bool)
    requires ask(0, []) == Some(true)
    ensures var v := Range(Span(1, 42, false));
      var clauses := [Clause([Some(v)], Some(Test)), Clause([Some(v)], None)];
      && HashableConstant(v) && Accepted(clauses) && !FoldsAsWritten(clauses, v, pruned)
      && Scan(clauses, 0, 0, v, ask, []) == (Take(0), [0])
      && FoldsTo(clauses, v, pruned, ask) == (Take(1), [])
  {
    var v := Range(Span(1, 42, false));
    var clauses := [Clause([Some(v)], Some(Test)), Clause([Some(v)], None)];
    TwoAlternatives(v, Some(Test), v);
    var a := Alternatives(clauses);
    var guards := Conditions(clauses);
    assert guards == [Test, Always];
    assert a[1..] == [a[1]] && a[1..][1..] == [];
    assert Literals(a[1..], v) == [1];
    assert Literals(a, v) == [0, 1];
    assert [0, 1][1..] == [1] && [1][1..] == [];
    assert Live(guards, [1]) == [1];
    assert Live(guards, [0, 1]) == [0, 1];
    assert HasAlways(guards, [1]) && Sure(guards, [1]) == 1;
    assert [] + [0] == [0];
  }

  // `switch 42.5 { 42.5 if g => .., 0..100 => .. }` where decimals are on: once the guard says no,
  // the range is not tried.
  lemma RangeSkipped(ask: Oracle, pruned: bool)
    requires ask(0, []) == Some(false)
    ensures var v := Decimal(42.5);
      var clauses := [Clause([Some(v)], Some(Test)), Clause([Some(Range(Span(0, 100, false)))], None)];
      && HashableConstant(v) && Accepted(clauses) && !FoldsAsWritten(clauses, v, pruned)
      && Scan(clauses, 0, 0, v, ask, []) == (Take(1), [0])
      && FoldsTo(clauses, v, pruned, ask) == (Miss, [0])
  {
    var v, range := Decimal(42.5), Range(Span(0, 100, false));
    var clauses := [Clause([Some(v)], Some(Test)), Clause([Some(range)], None)];
    TwoAlternatives(v, Some(Test), range);
    var a := Alternatives(clauses);
    var guards := Conditions(clauses);
    assert guards == [Test, Always];
    assert a[1..] == [a[1]] && a[1..][1..] == [];
    assert Literals(a[1..], v) == [];
    assert Literals(a, v) == [0];
    assert [0][1..] == [] && Live(guards, [0]) == [0];
    assert Spans(a[1..]) == [Case(range.span, 1)];
    assert Spans(a) == [Case(range.span, 1)];
    var ranges := [Case(range.span, 1)];
    assert ranges[1..] == [] && RangeHits(ranges, v) == [1];
    assert NotNever(guards, [1]) == [1];
    assert [] + [0] == [0];
    assert Try(guards, [0], ask, []) == (Miss, [0]);
  }
}
