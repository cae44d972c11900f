// `switch`: the parser turns the arms into a table of case blocks keyed by the hash of each
// literal, a list of ranges and a default; the evaluator consults the three in that order.
// Looking a value up in the table is proved to be a scan of the arms in source order.

module SwitchTable {
  import opened Options

  datatype Span = Span(first: int, last: int, inclusive: bool) {
    predicate Empty() {
      if inclusive then first > last else first >= last
    }

    predicate Contains(n: real) {
      first as real <= n && (if inclusive then n <= last as real else n < last as real)
    }
  }

  // Decimals exist where the `decimal` feature is on. `Opaque` stands for the values that cannot
  // be hashed; no literal is one of them.
  datatype Value =
    | Int(n: int)
    | Decimal(d: real)
    | Bool(b: bool)
    | Text(s: string)
    | Unit
    | Range(span: Span)
    | Array(items: seq<Value>)
    | Opaque(id: nat)

  // `Spent` is what is left in the table where the optimizer has moved a guard out of it.
  datatype Guard = Always | Never | Test | Spent
  type Condition = g: Guard | !g.Spent? witness Always

  // An arm as written. `_` has no alternatives; an alternative that is no literal is `None`.
  datatype Clause = Clause(alternatives: seq<Option<Value>>, condition: Option<Condition>)

  datatype Body = Code(id: nat) | Nothing
  datatype Arm = Arm(guard: Guard, body: Body)
  datatype Case = Case(span: Span, index: nat)
  datatype Table = Table(arms: seq<Arm>, cases: map<nat, seq<nat>>, ranges: seq<Case>, fallback: Option<nat>)

  datatype Error = DefaultNotLast | GuardedDefault | NotLiteral | NumberAfterRange
  datatype Outcome = Parsed(table: Table) | Rejected(error: Error)

  // ---------------------------------------------------------------------------------------
  // What the evaluator does with a table.

  // The arm to run, or none, or an error raised while a guard was evaluated.
  datatype Choice = Take(index: nat) | Miss | Failed

  // Guards may have effects: the answer of a guard is a function of the guards asked before
  // it, and `None` is an error.
  type Oracle = (nat, seq<nat>) -> Option<bool>

  function Ask(guard: Guard, index: nat, ask: Oracle, asked: seq<nat>): (Option<bool>, seq<nat>) {
    match guard
    case Always => (Some(true), asked)
    case Never => (Some(false), asked)
    case Test => (ask(index, asked), asked + [index])
    case Spent => (None, asked)
  }

  function GuardOf(guards: seq<Guard>, index: nat): Guard {
    if index < |guards| then guards[index] else Spent
  }

  function Guards(arms: seq<Arm>): seq<Guard> {
    seq(|arms|, i requires 0 <= i < |arms| => arms[i].guard)
  }

  // Runs through candidate arms until a guard holds.
  function Try(guards: seq<Guard>, list: seq<nat>, ask: Oracle, asked: seq<nat>): (Choice, seq<nat>) {
    if list == [] then (Miss, asked)
    else
      var (answer, now) := Ask(GuardOf(guards, list[0]), list[0], ask, asked);
      match answer
      case None => (Failed, now)
      case Some(holds) => if holds then (Take(list[0]), now) else Try(guards, list[1..], ask, now)
  }

  predicate Hashable(v: Value) {
    match v
    case Opaque(_) => false
    case Array(items) => forall i :: 0 <= i < |items| ==> Hashable(items[i])
    case _ => true
  }

  predicate Numeric(v: Value) {
    v.Int? || v.Decimal?
  }

  // A range of integers holds numbers of any kind, and nothing else.
  predicate InSpan(span: Span, v: Value) {
    match v
    case Int(n) => span.Contains(n as real)
    case Decimal(d) => span.Contains(d)
    case _ => false
  }

  function RangeHits(ranges: seq<Case>, v: Value): seq<nat> {
    if ranges == [] then []
    else (if InSpan(ranges[0].span, v) then [ranges[0].index] else []) + RangeHits(ranges[1..], v)
  }

  function CaseHits(t: Table, v: Value, hash: Value -> nat): seq<nat> {
    if hash(v) in t.cases then t.cases[hash(v)] else []
  }

  function Default(fallback: Option<nat>): Choice {
    if fallback.Some? then Take(fallback.value) else Miss
  }

  function OrDefault(tried: (Choice, seq<nat>), fallback: Option<nat>): (Choice, seq<nat>) {
    if tried.0.Miss? then (Default(fallback), tried.1) else tried
  }

  // Hashes first, then ranges, then the default.
  function Select(t: Table, v: Value, hash: Value -> nat, ask: Oracle): (Choice, seq<nat>) {
    if !Hashable(v) then (Default(t.fallback), [])
    else
      var first := Try(Guards(t.arms), CaseHits(t, v, hash), ask, []);
      if !first.0.Miss? then first
      else OrDefault(Try(Guards(t.arms), RangeHits(t.ranges, v), ask, first.1), t.fallback)
  }

  // ---------------------------------------------------------------------------------------
  // What the arms mean: the first alternative that matches and whose guard holds.

  predicate Matches(alternative: Option<Value>, v: Value) {
    && Hashable(v)
    && alternative.Some?
    && (alternative.value == v || (alternative.value.Range? && InSpan(alternative.value.span, v)))
  }

  function ConditionOf(clause: Clause): Condition {
    if clause.condition.Some? then clause.condition.value else Always
  }

  // The scan has reached alternative `j` of arm `i`.
  function Scan(clauses: seq<Clause>, i: nat, j: nat, v: Value, ask: Oracle, asked: seq<nat>): (Choice, seq<nat>)
    decreases |clauses| - i, if i < |clauses| then |clauses[i].alternatives| - j else 0
  {
    if i >= |clauses| then (Miss, asked)
    else if clauses[i].alternatives == [] then (Take(i), asked)
    else if j >= |clauses[i].alternatives| then Scan(clauses, i + 1, 0, v, ask, asked)
    else if !Matches(clauses[i].alternatives[j], v) then Scan(clauses, i, j + 1, v, ask, asked)
    else
      var (answer, now) := Ask(ConditionOf(clauses[i]), i, ask, asked);
      match answer
      case None => (Failed, now)
      case Some(holds) => if holds then (Take(i), now) else Scan(clauses, i, j + 1, v, ask, now)
  }

  // ---------------------------------------------------------------------------------------
  // The alternatives in source order, each with the arm it belongs to.

  datatype Alternative = Alternative(value: Value, index: nat)

  function AlternativesFrom(clauses: seq<Clause>, i: nat, j: nat): seq<Alternative>
    decreases |clauses| - i, if i < |clauses| then |clauses[i].alternatives| - j else 0
  {
    if i >= |clauses| then []
    else if j >= |clauses[i].alternatives| then AlternativesFrom(clauses, i + 1, 0)
    else
      (if clauses[i].alternatives[j].Some? then [Alternative(clauses[i].alternatives[j].value, i)] else [])
      + AlternativesFrom(clauses, i, j + 1)
  }

  function Alternatives(clauses: seq<Clause>): seq<Alternative> {
    AlternativesFrom(clauses, 0, 0)
  }

  // The arms whose literals have this hash.
  function Entries(alternatives: seq<Alternative>, key: nat, hash: Value -> nat): seq<nat> {
    if alternatives == [] then []
    else (if hash(alternatives[0].value) == key then [alternatives[0].index] else [])
         + Entries(alternatives[1..], key, hash)
  }

  predicate Ranged(v: Value) {
    v.Range? && !v.span.Empty()
  }

  predicate Holds(alternative: Value, v: Value) {
    Ranged(alternative) && InSpan(alternative.span, v)
  }

  function Spans(alternatives: seq<Alternative>): seq<Case> {
    if alternatives == [] then []
    else (if Ranged(alternatives[0].value) then [Case(alternatives[0].value.span, alternatives[0].index)] else [])
         + Spans(alternatives[1..])
  }

  lemma {:induction false} EntriesAppend(a: seq<Alternative>, b: seq<Alternative>, key: nat, hash: Value -> nat)
    ensures Entries(a + b, key, hash) == Entries(a, key, hash) + Entries(b, key, hash)
  {
    if a == [] {
      assert a + b == b;
    } else {
      EntriesAppend(a[1..], b, key, hash);
      assert (a + b)[0] == a[0] && (a + b)[1..] == a[1..] + b;
      var head, rest, after := if hash(a[0].value) == key then [a[0].index] else [],
        Entries(a[1..], key, hash), Entries(b, key, hash);
      assert Entries(a, key, hash) == head + rest && Entries(a + b, key, hash) == head + (rest + after);
      assert head + (rest + after) == (head + rest) + after;
    }
  }

  lemma {:induction false} SpansAppend(a: seq<Alternative>, b: seq<Alternative>)
    ensures Spans(a + b) == Spans(a) + Spans(b)
  {
    if a == [] {
      assert a + b == b;
    } else {
      SpansAppend(a[1..], b);
      assert (a + b)[0] == a[0] && (a + b)[1..] == a[1..] + b;
      var head, rest, after := if Ranged(a[0].value) then [Case(a[0].value.span, a[0].index)] else [],
        Spans(a[1..]), Spans(b);
      assert Spans(a) == head + rest && Spans(a + b) == head + (rest + after);
      assert head + (rest + after) == (head + rest) + after;
    }
  }

  lemma {:induction false} SpansPresent(a: seq<Alternative>) returns (k: nat)
    requires Spans(a) != []
    ensures k < |a| && Ranged(a[k].value)
  {
    if Ranged(a[0].value) {
      k := 0;
    } else {
      k := SpansPresent(a[1..]);
      k := k + 1;
    }
  }

  lemma {:induction false} SpansAbsent(a: seq<Alternative>, k: nat)
    requires k < |a| && Ranged(a[k].value)
    ensures Spans(a) != []
  {
    if k > 0 {
      SpansAbsent(a[1..], k - 1);
    }
  }

  // ---------------------------------------------------------------------------------------
  // Which switches the parser accepts.

  predicate NumbersFirst(a: seq<Alternative>) {
    forall i, j :: 0 <= i < j < |a| && Ranged(a[i].value) ==> !Numeric(a[j].value)
  }

  predicate DefaultLast(clauses: seq<Clause>) {
    forall i :: 0 <= i < |clauses| && clauses[i].alternatives == [] ==>
      i == |clauses| - 1 && clauses[i].condition.None?
  }

  predicate AllLiteral(clauses: seq<Clause>) {
    forall i, j :: 0 <= i < |clauses| && 0 <= j < |clauses[i].alternatives| ==> clauses[i].alternatives[j].Some?
  }

  predicate Accepted(clauses: seq<Clause>) {
    DefaultLast(clauses) && AllLiteral(clauses) && NumbersFirst(Alternatives(clauses))
  }

  // What is wrong with a switch that is not accepted.
  predicate Offends(clauses: seq<Clause>, error: Error) {
    match error
    case DefaultNotLast => exists i :: 0 <= i < |clauses| - 1 && clauses[i].alternatives == []
    case GuardedDefault => exists i :: 0 <= i < |clauses| && clauses[i].alternatives == [] && clauses[i].condition.Some?
    case NotLiteral => !AllLiteral(clauses)
    case NumberAfterRange => !NumbersFirst(Alternatives(clauses))
  }

  ghost predicate CasesFor(cases: map<nat, seq<nat>>, a: seq<Alternative>, hash: Value -> nat) {
    && (forall key :: key in cases <==> Entries(a, key, hash) != [])
    && (forall key :: key in cases ==> cases[key] == Entries(a, key, hash))
  }

  predicate ArmsFor(arms: seq<Arm>, clauses: seq<Clause>) {
    |arms| == |clauses| && forall i :: 0 <= i < |arms| ==> arms[i] == Arm(ConditionOf(clauses[i]), Code(i))
  }

  function FallbackFor(clauses: seq<Clause>): Option<nat> {
    if clauses != [] && clauses[|clauses| - 1].alternatives == [] then Some(|clauses| - 1) else None
  }

  ghost predicate Built(t: Table, clauses: seq<Clause>, hash: Value -> nat) {
    && ArmsFor(t.arms, clauses)
    && CasesFor(t.cases, Alternatives(clauses), hash)
    && t.ranges == Spans(Alternatives(clauses))
    && t.fallback == FallbackFor(clauses)
  }

  // One more alternative filed under its hash and, if it is a range, among the ranges.
  lemma FileOne(cases: map<nat, seq<nat>>, a: seq<Alternative>, x: Alternative, hash: Value -> nat)
    requires CasesFor(cases, a, hash)
    ensures var key := hash(x.value);
      CasesFor(cases[key := (if key in cases then cases[key] else []) + [x.index]], a + [x], hash)
    ensures Spans(a + [x]) == Spans(a) + if Ranged(x.value) then [Case(x.value.span, x.index)] else []
  {
    SpansAppend(a, [x]);
    forall key: nat
      ensures Entries(a + [x], key, hash)
           == Entries(a, key, hash) + if key == hash(x.value) then [x.index] else []
    {
      EntriesAppend(a, [x], key, hash);
      assert [x][1..] == [];
    }
  }

  // The state while the arms are read: `done` are the alternatives filed so far.
  ghost predicate Filed(cases: map<nat, seq<nat>>, ranges: seq<Case>, done: seq<Alternative>, hash: Value -> nat) {
    NumbersFirst(done) && CasesFor(cases, done, hash) && ranges == Spans(done)
  }

  // Files one literal of arm `index`.
  method FileAlternative(value: Value, index: nat, cases: map<nat, seq<nat>>, ranges: seq<Case>, hash: Value -> nat,
                         ghost done: seq<Alternative>, ghost rest: seq<Alternative>)
    returns (ok: bool, cases': map<nat, seq<nat>>, ranges': seq<Case>)
    requires Filed(cases, ranges, done, hash)
    ensures ok ==> Filed(cases', ranges', done + [Alternative(value, index)], hash)
    ensures !ok ==> !NumbersFirst(done + [Alternative(value, index)] + rest)
  {
    hide NumbersFirst, CasesFor;
    ghost var x := Alternative(value, index);
    cases', ranges' := cases, ranges;
    FileOne(cases, done, x, hash);
    if Ranged(value) {
      ranges' := ranges' + [Case(value.span, index)];
    } else if ranges != [] && Numeric(value) {
      NumberTooLate(done, x, rest);
      return false, cases', ranges';
    }
    NumberInTime(done, x);
    var key := hash(value);
    cases' := cases'[key := (if key in cases' then cases'[key] else []) + [index]];
    ok := true;
  }

  lemma NextAlternative(clauses: seq<Clause>, i: nat, j: nat)
    requires i < |clauses| && j < |clauses[i].alternatives|
    ensures clauses[i].alternatives[j].Some? ==>
      AlternativesFrom(clauses, i, j)
      == [Alternative(clauses[i].alternatives[j].value, i)] + AlternativesFrom(clauses, i, j + 1)
    ensures clauses[i].alternatives[j].None? ==> Offends(clauses, NotLiteral) && !Accepted(clauses)
  {}

  lemma LastAlternative(clauses: seq<Clause>, i: nat)
    requires i < |clauses|
    ensures AlternativesFrom(clauses, i, |clauses[i].alternatives|) == AlternativesFrom(clauses, i + 1, 0)
  {}

  lemma NumberOffends(clauses: seq<Clause>)
    requires !NumbersFirst(Alternatives(clauses))
    ensures Offends(clauses, NumberAfterRange) && !Accepted(clauses)
  {}

  // Files the literals of arm `i`.
  method FileClause(clauses: seq<Clause>, i: nat, cases: map<nat, seq<nat>>, ranges: seq<Case>, hash: Value -> nat,
                    ghost done: seq<Alternative>)
    returns (error: Option<Error>, cases': map<nat, seq<nat>>, ranges': seq<Case>, ghost done': seq<Alternative>)
    requires i < |clauses| && Filed(cases, ranges, done, hash)
    requires done + AlternativesFrom(clauses, i, 0) == Alternatives(clauses)
    ensures error.None? ==>
      && Filed(cases', ranges', done', hash)
      && done' + AlternativesFrom(clauses, i + 1, 0) == Alternatives(clauses)
      && forall j :: 0 <= j < |clauses[i].alternatives| ==> clauses[i].alternatives[j].Some?
    ensures error.Some? ==> Offends(clauses, error.value) && !Accepted(clauses)
  {
    hide *;
    var alternatives := clauses[i].alternatives;
    cases', ranges', done' := cases, ranges, done;
    var j := 0;
    while j < |alternatives|
      invariant 0 <= j <= |alternatives|
      invariant forall k :: 0 <= k < j ==> alternatives[k].Some?
      invariant done' + AlternativesFrom(clauses, i, j) == Alternatives(clauses)
      invariant Filed(cases', ranges', done', hash)
    {
      NextAlternative(clauses, i, j);
      if alternatives[j].None? {
        return Some(NotLiteral), cases', ranges', done';
      }
      var value := alternatives[j].value;
      ghost var rest := AlternativesFrom(clauses, i, j + 1);
      assert Alternatives(clauses) == done' + [Alternative(value, i)] + rest;
      var ok;
      ok, cases', ranges' := FileAlternative(value, i, cases', ranges', hash, done', rest);
      if !ok {
        NumberOffends(clauses);
        return Some(NumberAfterRange), cases', ranges', done';
      }
      done' := done' + [Alternative(value, i)];
      j := j + 1;
    }
    LastAlternative(clauses, i);
    error := None;
  }

  method ParseSwitch(clauses: seq<Clause>, hash: Value -> nat) returns (r: Outcome)
    ensures r.Parsed? <==> Accepted(clauses)
    ensures r.Parsed? ==> Built(r.table, clauses, hash)
    ensures r.Rejected? ==> Offends(clauses, r.error)
  {
    hide Filed;
    var arms: seq<Arm> := [];
    var cases: map<nat, seq<nat>> := map[];
    var ranges: seq<Case> := [];
    var fallback: Option<nat> := None;
    ghost var done: seq<Alternative> := [];
    NothingFiled(hash);
    var i := 0;
    while i < |clauses|
      invariant 0 <= i <= |clauses|
      invariant ArmsFor(arms, clauses[..i])
      invariant AllLiteral(clauses[..i])
      invariant fallback == FallbackFor(clauses[..i])
      invariant DefaultLast(clauses[..i])
      invariant done + AlternativesFrom(clauses, i, 0) == Alternatives(clauses)
      invariant Filed(cases, ranges, done, hash)
    {
      var clause := clauses[i];
      if fallback.Some? {
        assert clauses[i - 1].alternatives == [];
        return Rejected(DefaultNotLast);
      }
      if clause.alternatives == [] && clause.condition.Some? {
        return Rejected(GuardedDefault);
      }
      arms := arms + [Arm(ConditionOf(clause), Code(i))];
      if clause.alternatives == [] {
        fallback := Some(|arms| - 1);
      }
      var error;
      error, cases, ranges, done := FileClause(clauses, i, cases, ranges, hash, done);
      if error.Some? {
        return Rejected(error.value);
      }
      assert clauses[..i + 1] == clauses[..i] + [clause];
      i := i + 1;
    }
    assert clauses[..i] == clauses;
    assert done == Alternatives(clauses);
    r := Parsed(Table(arms, cases, ranges, fallback));
    FiledMeans(cases, ranges, done, hash);
  }

  lemma FiledMeans(cases: map<nat, seq<nat>>, ranges: seq<Case>, done: seq<Alternative>, hash: Value -> nat)
    requires Filed(cases, ranges, done, hash)
    ensures NumbersFirst(done) && CasesFor(cases, done, hash) && ranges == Spans(done)
  {}

  lemma NothingFiled(hash: Value -> nat)
    ensures Filed(map[], [], [], hash)
  {}

  lemma NumberTooLate(a: seq<Alternative>, x: Alternative, rest: seq<Alternative>)
    requires Spans(a) != [] && Numeric(x.value)
    ensures !NumbersFirst(a + [x] + rest)
  {
    var k := SpansPresent(a);
    var all := a + [x] + rest;
    assert all[k] == a[k] && all[|a|] == x;
  }

  lemma NumberInTime(a: seq<Alternative>, x: Alternative)
    requires NumbersFirst(a)
    requires Spans(a) == [] || !Numeric(x.value)
    ensures NumbersFirst(a + [x])
  {
    forall i, j | 0 <= i < j < |a + [x]| && Ranged((a + [x])[i].value)
      ensures !Numeric((a + [x])[j].value)
    {
      if j == |a| {
        SpansAbsent(a, i);
      }
    }
  }

  // ---------------------------------------------------------------------------------------
  // The table against the scan.

  // No literal of the switch collides with the value.
  predicate NoCollision(hash: Value -> nat, a: seq<Alternative>, v: Value) {
    forall k :: 0 <= k < |a| && hash(a[k].value) == hash(v) ==> a[k].value == v
  }

  // The arms of the alternatives that match, in source order.
  function Hits(a: seq<Alternative>, v: Value): seq<nat> {
    if a == [] then []
    else (if Matches(Some(a[0].value), v) then [a[0].index] else []) + Hits(a[1..], v)
  }

  lemma {:induction false} NoNumberNoEntry(a: seq<Alternative>, v: Value, hash: Value -> nat)
    requires Numeric(v) && NoCollision(hash, a, v)
    requires forall k :: 0 <= k < |a| ==> !Numeric(a[k].value)
    ensures Entries(a, hash(v), hash) == []
  {
    if a != [] {
      NoNumberNoEntry(a[1..], v, hash);
    }
  }

  lemma TailConditions(a: seq<Alternative>, v: Value, hash: Value -> nat)
    requires a != [] && NumbersFirst(a) && NoCollision(hash, a, v)
    ensures NumbersFirst(a[1..]) && NoCollision(hash, a[1..], v)
    ensures hash(a[0].value) == hash(v) ==> a[0].value == v
    ensures Ranged(a[0].value) ==> forall k :: 0 <= k < |a[1..]| ==> !Numeric(a[1..][k].value)
  {
    assert forall k :: 0 <= k < |a[1..]| ==> a[1..][k] == a[k + 1];
  }

  lemma RangeHitsCons(a: seq<Alternative>, v: Value)
    requires a != []
    ensures RangeHits(Spans(a), v)
         == (if Holds(a[0].value, v) then [a[0].index] else []) + RangeHits(Spans(a[1..]), v)
  {
    if Ranged(a[0].value) {
      assert Spans(a)[1..] == Spans(a[1..]);
    } else {
      assert Spans(a) == Spans(a[1..]);
    }
  }

  lemma HeadMatches(head: Value, v: Value)
    requires Hashable(v)
    ensures Matches(Some(head), v) <==> head == v || Holds(head, v)
    ensures Holds(head, v) ==> Ranged(head) && Numeric(v) && head != v
  {}

  // Equal literals come first and ranges after them, because a number after a range is rejected.
  lemma {:induction false} HitsSplit(a: seq<Alternative>, v: Value, hash: Value -> nat)
    requires Hashable(v) && NumbersFirst(a) && NoCollision(hash, a, v)
    ensures Hits(a, v) == Entries(a, hash(v), hash) + RangeHits(Spans(a), v)
  {
    hide NumbersFirst, NoCollision, Hashable, Matches, Holds, Ranged, Numeric;
    if a != [] {
      var head, index, rest := a[0].value, a[0].index, a[1..];
      TailConditions(a, v, hash);
      HeadMatches(head, v);
      HitsSplit(rest, v, hash);
      RangeHitsCons(a, v);
      if Holds(head, v) {
        NoNumberNoEntry(rest, v, hash);
        assert Entries(a, hash(v), hash) == [];
        assert Hits(a, v) == [index] + Hits(rest, v);
      } else {
        var entry := if head == v then [index] else [];
        assert Hits(a, v) == entry + Hits(rest, v);
        assert Entries(a, hash(v), hash) == entry + Entries(rest, hash(v), hash);
      }
    }
  }

  // The alternatives still to come, as the table sees them.
  function Pending(clauses: seq<Clause>, i: nat, j: nat, v: Value): seq<nat> {
    Hits(AlternativesFrom(clauses, i, j), v)
  }

  lemma PendingNext(clauses: seq<Clause>, i: nat, j: nat, v: Value)
    requires i < |clauses| && j < |clauses[i].alternatives| && clauses[i].alternatives[j].Some?
    ensures Pending(clauses, i, j, v)
         == (if Matches(clauses[i].alternatives[j], v) then [i] else []) + Pending(clauses, i, j + 1, v)
  {
    var here := Alternative(clauses[i].alternatives[j].value, i);
    var rest := AlternativesFrom(clauses, i, j + 1);
    assert AlternativesFrom(clauses, i, j) == [here] + rest;
    assert ([here] + rest)[1..] == rest;
  }

  lemma TryCons(guards: seq<Guard>, i: nat, rest: seq<nat>, ask: Oracle, asked: seq<nat>)
    ensures var answer := Ask(GuardOf(guards, i), i, ask, asked);
      Try(guards, [i] + rest, ask, asked)
      == if answer.0.None? then (Failed, answer.1)
         else if answer.0.value then (Take(i), answer.1)
         else Try(guards, rest, ask, answer.1)
  {
    assert ([i] + rest)[1..] == rest;
  }

  lemma {:induction false} ScanIsTry(clauses: seq<Clause>, guards: seq<Guard>, i: nat, j: nat, v: Value, ask: Oracle, asked: seq<nat>)
    requires DefaultLast(clauses) && AllLiteral(clauses)
    requires |guards| == |clauses| && forall k :: 0 <= k < |guards| ==> guards[k] == ConditionOf(clauses[k])
    requires i < |clauses|
    ensures Scan(clauses, i, j, v, ask, asked)
         == OrDefault(Try(guards, Pending(clauses, i, j, v), ask, asked), FallbackFor(clauses))
    decreases |clauses| - i, |clauses[i].alternatives| - j
  {
    hide DefaultLast, Pending, Matches, Try, Ask;
    if clauses[i].alternatives == [] {
      OnlyDefault(clauses, guards, i, j, v, ask, asked);
    } else if j < |clauses[i].alternatives| {
      PendingNext(clauses, i, j, v);
      var rest := Pending(clauses, i, j + 1, v);
      if Matches(clauses[i].alternatives[j], v) {
        TryCons(guards, i, rest, ask, asked);
        ScanIsTry(clauses, guards, i, j + 1, v, ask, Ask(guards[i], i, ask, asked).1);
      } else {
        assert [] + rest == rest;
        ScanIsTry(clauses, guards, i, j + 1, v, ask, asked);
      }
    } else {
      PendingArm(clauses, guards, i, j, v, ask, asked);
      if i + 1 < |clauses| {
        ScanIsTry(clauses, guards, i + 1, 0, v, ask, asked);
      }
    }
  }

  lemma OnlyDefault(clauses: seq<Clause>, guards: seq<Guard>, i: nat, j: nat, v: Value, ask: Oracle, asked: seq<nat>)
    requires DefaultLast(clauses) && i < |clauses| && clauses[i].alternatives == []
    ensures FallbackFor(clauses) == Some(i)
    ensures Try(guards, Pending(clauses, i, j, v), ask, asked) == (Miss, asked)
  {
    assert AlternativesFrom(clauses, i + 1, 0) == [];
    assert AlternativesFrom(clauses, i, j) == [];
  }

  lemma PendingArm(clauses: seq<Clause>, guards: seq<Guard>, i: nat, j: nat, v: Value, ask: Oracle, asked: seq<nat>)
    requires i < |clauses| && j >= |clauses[i].alternatives| > 0
    ensures Pending(clauses, i, j, v) == Pending(clauses, i + 1, 0, v)
    ensures i + 1 == |clauses| ==>
      && Scan(clauses, i + 1, 0, v, ask, asked) == (Miss, asked)
      && OrDefault(Try(guards, Pending(clauses, i, j, v), ask, asked), FallbackFor(clauses)) == (Miss, asked)
  {}

  lemma {:induction false} TryAppend(guards: seq<Guard>, a: seq<nat>, b: seq<nat>, ask: Oracle, asked: seq<nat>)
    ensures var first := Try(guards, a, ask, asked);
      Try(guards, a + b, ask, asked) == if first.0.Miss? then Try(guards, b, ask, first.1) else first
  {
    if a == [] {
      assert a + b == b;
    } else {
      assert (a + b)[1..] == a[1..] + b;
      TryAppend(guards, a[1..], b, ask, Ask(GuardOf(guards, a[0]), a[0], ask, asked).1);
    }
  }

  lemma {:induction false} UnhashableMisses(a: seq<Alternative>, v: Value)
    requires !Hashable(v)
    ensures Hits(a, v) == []
  {
    if a != [] {
      UnhashableMisses(a[1..], v);
    }
  }

  // Looking a value up runs the same guards in the same order, and takes the same arm, as
  // scanning the arms from the top; guards may fail and may have effects.
  lemma LookupIsScan(clauses: seq<Clause>, t: Table, v: Value, hash: Value -> nat, ask: Oracle)
    requires Accepted(clauses) && Built(t, clauses, hash)
    requires NoCollision(hash, Alternatives(clauses), v)
    ensures Select(t, v, hash, ask) == Scan(clauses, 0, 0, v, ask, [])
  {
    var a := Alternatives(clauses);
    var guards := Guards(t.arms);
    if clauses != [] {
      ScanIsTry(clauses, guards, 0, 0, v, ask, []);
    }
    if Hashable(v) {
      HitsSplit(a, v, hash);
      TryAppend(guards, Entries(a, hash(v), hash), RangeHits(Spans(a), v), ask, []);
      assert CaseHits(t, v, hash) == Entries(a, hash(v), hash);
    } else {
      UnhashableMisses(a, v);
    }
    if clauses == [] {
      assert a == [];
    }
  }

  predicate Covers(clause: Clause, v: Value) {
    clause.alternatives == [] || exists j :: 0 <= j < |clause.alternatives| && Matches(clause.alternatives[j], v)
  }

  lemma {:induction false} ScanUnguarded(clauses: seq<Clause>, i: nat, j: nat, v: Value, ask: Oracle)
    requires forall k :: 0 <= k < |clauses| ==> clauses[k].condition.None?
    requires i < |clauses| ==> forall k :: 0 <= k < j && k < |clauses[i].alternatives| ==> !Matches(clauses[i].alternatives[k], v)
    requires i <= |clauses|
    ensures var r := Scan(clauses, i, j, v, ask, []);
      && r.1 == []
      && (r.0.Miss? ==> forall k :: i <= k < |clauses| ==> !Covers(clauses[k], v))
      && (r.0.Take? ==> i <= r.0.index < |clauses| && Covers(clauses[r.0.index], v)
                        && forall k :: i <= k < r.0.index ==> !Covers(clauses[k], v))
      && !r.0.Failed?
    decreases |clauses| - i, if i < |clauses| then |clauses[i].alternatives| - j else 0
  {
    if i < |clauses| && clauses[i].alternatives != [] {
      if j >= |clauses[i].alternatives| {
        ScanUnguarded(clauses, i + 1, 0, v, ask);
      } else if !Matches(clauses[i].alternatives[j], v) {
        ScanUnguarded(clauses, i, j + 1, v, ask);
      }
    }
  }

  // With no guards the table picks the first arm, in source order, that covers the value.
  lemma UnguardedLookup(clauses: seq<Clause>, t: Table, v: Value, hash: Value -> nat, ask: Oracle)
    requires Accepted(clauses) && Built(t, clauses, hash)
    requires NoCollision(hash, Alternatives(clauses), v)
    requires forall k :: 0 <= k < |clauses| ==> clauses[k].condition.None?
    ensures var r := Select(t, v, hash, ask).0;
      && (r == Miss <==> forall k :: 0 <= k < |clauses| ==> !Covers(clauses[k], v))
      && (forall i: nat :: r == Take(i) <==>
            (i < |clauses| && Covers(clauses[i], v) && forall k :: 0 <= k < i ==> !Covers(clauses[k], v)))
  {
    LookupIsScan(clauses, t, v, hash, ask);
    ScanUnguarded(clauses, 0, 0, v, ask);
  }

  // Why a number after a range is rejected: filed anyway, it would overtake the range.
  lemma NumberOvertakesRange(t: Table, hash: Value -> nat, ask: Oracle)
    requires hash(Range(Span(0, 10, false))) != hash(Int(5))
    ensures var clauses := [Clause([Some(Range(Span(0, 10, false)))], None), Clause([Some(Int(5))], None)];
      && !Accepted(clauses)
      && (Built(t, clauses, hash) ==> Select(t, Int(5), hash, ask).0 == Take(1) && Scan(clauses, 0, 0, Int(5), ask, []).0 == Take(0))
  {
    var range, five := Range(Span(0, 10, false)), Int(5);
    var clauses := [Clause([Some(range)], None), Clause([Some(five)], None)];
    TwoAlternatives(range, None, five);
    var a := Alternatives(clauses);
    assert Ranged(a[0].value) && Numeric(a[1].value);
    hide Alternatives, AlternativesFrom, Scan, Spans, RangeHits;
    assert a[1..] == [a[1]] && a[1..][1..] == [];
    assert Entries(a[1..], hash(five), hash) == [1];
    assert Entries(a, hash(five), hash) == [1];
    if Built(t, clauses, hash) {
      assert CaseHits(t, five, hash) == [1];
      assert Guards(t.arms)[1] == Always;
    }
    ScanTwo(clauses, range, five, ask);
  }

  lemma TwoAlternatives(u: Value, condition: Option<Condition>, v: Value)
    ensures Alternatives([Clause([Some(u)], condition), Clause([Some(v)], None)]) == [Alternative(u, 0), Alternative(v, 1)]
  {
    var clauses := [Clause([Some(u)], condition), Clause([Some(v)], None)];
    assert AlternativesFrom(clauses, 2, 0) == [];
    assert AlternativesFrom(clauses, 1, 1) == [];
    assert AlternativesFrom(clauses, 1, 0) == [Alternative(v, 1)];
    assert AlternativesFrom(clauses, 0, 1) == [Alternative(v, 1)];
  }

  lemma ScanTwo(clauses: seq<Clause>, u: Value, v: Value, ask: Oracle)
    requires clauses == [Clause([Some(u)], None), Clause([Some(v)], None)]
    requires Matches(Some(u), v)
    ensures Scan(clauses, 0, 0, v, ask, []).0 == Take(0)
  {
  }
}
