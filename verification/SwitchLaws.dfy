// What a switch does, without the comparisons and the searches it does it with: which numbers a
// range holds, which values can be matched at all, and which arm is the one that is run.

module SwitchLaws {
  import opened Options
  import opened SwitchTable

  // ---- ranges ----

  // The numbers of a range, one by one.
  function Enumerated(first: int, last: int, inclusive: bool): seq<int>
    decreases last - first
  {
    if first < last then [first] + Enumerated(first + 1, last, inclusive)
    else if first == last && inclusive then [last]
    else []
  }

  lemma {:induction false} EnumeratedFrom(first: int, last: int, inclusive: bool, n: int)
    ensures n in Enumerated(first, last, inclusive) <==> first <= n && (n < last || (n == last && inclusive))
    decreases last - first
  {
    if first < last { EnumeratedFrom(first + 1, last, inclusive, n); }
  }

  // An integer is in a range exactly if it is among its numbers.
  lemma HeldExactly(span: Span, n: int)
    ensures InSpan(span, Int(n)) <==> n in Enumerated(span.first, span.last, span.inclusive)
  {
    EnumeratedFrom(span.first, span.last, span.inclusive, n);
  }

  // A range that is cut in two: every value of the whole, decimals included, is in exactly one part.
  lemma Cut(a: int, b: int, c: int, inclusive: bool, v: Value)
    requires a <= b <= c
    ensures InSpan(Span(a, c, inclusive), v) <==> InSpan(Span(a, b, false), v) || InSpan(Span(b, c, inclusive), v)
    ensures !(InSpan(Span(a, b, false), v) && InSpan(Span(b, c, inclusive), v))
  {}

  // The last number is what an inclusive range has more; no range reaches out of its ends.
  lemma Ends(first: int, last: int, v: Value)
    ensures InSpan(Span(first, last, true), v) ==>
      InSpan(Span(first, last, false), v) || v == Int(last) || v == Decimal(last as real)
    ensures first <= last ==> InSpan(Span(first, last, true), Int(last)) && !InSpan(Span(first, last, false), Int(last))
    ensures !Numeric(v) ==> !InSpan(Span(first, last, true), v) && !InSpan(Span(first, last, false), v)
  {}

  // A range counts as empty exactly if it holds no number.
  lemma EmptyExactly(span: Span)
    ensures span.Empty() <==> forall v :: !InSpan(span, v)
  {
    if !span.Empty() { assert InSpan(span, Int(span.first)); }
  }

  // A decimal from `n` up to `n` + 1 is in a range exactly if `n` is and the range does not end there.
  lemma Between(span: Span, n: int, d: real)
    requires n as real <= d < (n + 1) as real
    ensures InSpan(span, Decimal(d)) <==> InSpan(span, Int(n)) && (d == n as real || n < span.last)
  {
    if n < span.last { assert (n + 1) as real <= span.last as real; }
    if span.first > n { assert span.first as real >= (n + 1) as real; }
  }

  // ---- values that can be matched ----

  predicate Inside(u: Value, v: Value) {
    u == v || (v.Array? && exists i :: 0 <= i < |v.items| && Inside(u, v.items[i]))
  }

  lemma {:induction false} HashableExactly(v: Value)
    ensures Hashable(v) <==> forall id :: !Inside(Opaque(id), v)
    decreases v
  {
    match v
    case Opaque(id) => assert Inside(Opaque(id), v);
    case Array(items) =>
      forall i | 0 <= i < |items|
        ensures Hashable(items[i]) <==> forall id :: !Inside(Opaque(id), items[i])
      {
        HashableExactly(items[i]);
      }
      if !Hashable(v) {
        var i :| 0 <= i < |items| && !Hashable(items[i]);
        var id :| Inside(Opaque(id), items[i]);
        assert Inside(Opaque(id), v);
      }
    case _ =>
  }

  // ---- which switches are rejected ----

  predicate HoldsNumber(v: Value) {
    v.Range? && InSpan(v.span, Int(v.span.first))
  }

  // A switch is rejected for its order exactly if a number stands after a range that holds some number.
  lemma OrderExactly(a: seq<Alternative>)
    ensures NumbersFirst(a) <==>
      forall i, j :: 0 <= i < j < |a| && HoldsNumber(a[i].value) ==> !a[j].value.Int? && !a[j].value.Decimal?
    ensures forall i :: 0 <= i < |a| && a[i].value.Range? && (exists v :: InSpan(a[i].value.span, v)) ==> HoldsNumber(a[i].value)
  {
    forall i | 0 <= i < |a|
      ensures Ranged(a[i].value) <==> HoldsNumber(a[i].value)
      ensures a[i].value.Range? && (exists v :: InSpan(a[i].value.span, v)) ==> HoldsNumber(a[i].value)
    {
      if a[i].value.Range? { EmptyExactly(a[i].value.span); }
    }
  }

  // ---- which arm is run ----

  // Some alternative from the `j`th on is the value or a range that holds it.
  predicate Fits(clause: Clause, j: nat, v: Value) {
    exists k :: j <= k < |clause.alternatives| && clause.alternatives[k].Some? &&
      (clause.alternatives[k].value == v ||
       (clause.alternatives[k].value.Range? && InSpan(clause.alternatives[k].value.span, v)))
  }

  // Guards are asked one after the other; `asked` are all that have been asked.
  predicate Answered(ask: Oracle, asked: seq<nat>, k: nat, answer: Option<bool>) {
    exists p :: 0 <= p < |asked| && asked[p] == k && ask(k, asked[..p]) == answer
  }

  // The guard of arm `k` has said no.
  predicate Refused(clauses: seq<Clause>, k: nat, ask: Oracle, asked: seq<nat>)
    requires k < |clauses|
  {
    clauses[k].condition == Some(Never) || (clauses[k].condition == Some(Test) && Answered(ask, asked, k, Some(false)))
  }

  // The guard of arm `k` says yes, or there is none.
  predicate Agreed(clauses: seq<Clause>, k: nat, ask: Oracle, asked: seq<nat>)
    requires k < |clauses|
  {
    clauses[k].condition == None || clauses[k].condition == Some(Always) ||
    (clauses[k].condition == Some(Test) && Answered(ask, asked, k, Some(true)))
  }

  // Every arm before `n` that fits has refused; the search is at alternative `j` of arm `i`.
  predicate Passed(clauses: seq<Clause>, i: nat, j: nat, n: nat, v: Value, ask: Oracle, asked: seq<nat>) {
    n <= |clauses| && forall k :: i <= k < n ==>
      clauses[k].alternatives != [] && (Fits(clauses[k], if k == i then j else 0, v) ==> Refused(clauses, k, ask, asked))
  }

  predicate Chosen(clauses: seq<Clause>, i: nat, j: nat, v: Value, ask: Oracle, r: (Choice, seq<nat>)) {
    match r.0
    case Miss => i <= |clauses| && Passed(clauses, i, j, |clauses|, v, ask, r.1)
    case Take(n) =>
      && i <= n < |clauses| && Passed(clauses, i, j, n, v, ask, r.1)
      && (clauses[n].alternatives == [] ||
          (Fits(clauses[n], if n == i then j else 0, v) && Agreed(clauses, n, ask, r.1)))
    case Failed =>
      r.1 != [] &&
      var n := r.1[|r.1| - 1];
      && i <= n < |clauses| && Passed(clauses, i, j, n, v, ask, r.1)
      && Fits(clauses[n], if n == i then j else 0, v) && clauses[n].condition == Some(Test)
      && ask(n, r.1[..|r.1| - 1]) == None
  }

  lemma AnsweredLater(ask: Oracle, asked: seq<nat>, now: seq<nat>, k: nat, answer: Option<bool>)
    requires asked <= now && Answered(ask, asked, k, answer)
    ensures Answered(ask, now, k, answer)
  {
    var p :| 0 <= p < |asked| && asked[p] == k && ask(k, asked[..p]) == answer;
    assert now[..p] == asked[..p] && now[p] == asked[p];
  }

  lemma FitsStep(clause: Clause, j: nat, v: Value)
    requires Hashable(v) && j < |clause.alternatives|
    ensures Fits(clause, j, v) <==> Matches(clause.alternatives[j], v) || Fits(clause, j + 1, v)
  {}

  lemma FitsEnd(clause: Clause, j: nat, v: Value)
    requires j >= |clause.alternatives|
    ensures !Fits(clause, j, v)
  {}

  // The search goes on to the next alternative: this one does not match, or its guard has said no.
  lemma NextFits(clauses: seq<Clause>, i: nat, j: nat, v: Value, ask: Oracle, r: (Choice, seq<nat>))
    requires i < |clauses| && j < |clauses[i].alternatives| && Hashable(v)
    requires Matches(clauses[i].alternatives[j], v) ==> Refused(clauses, i, ask, r.1)
    requires Chosen(clauses, i, j + 1, v, ask, r)
    ensures Chosen(clauses, i, j, v, ask, r)
  {
    hide Refused, Agreed, Matches, Fits;
    FitsStep(clauses[i], j, v);
  }

  // The search goes on to the next arm.
  lemma NextArm(clauses: seq<Clause>, i: nat, j: nat, v: Value, ask: Oracle, r: (Choice, seq<nat>))
    requires i < |clauses| && j >= |clauses[i].alternatives| && clauses[i].alternatives != []
    requires Chosen(clauses, i + 1, 0, v, ask, r)
    ensures Chosen(clauses, i, j, v, ask, r)
  {
    hide Refused, Agreed, Fits;
    FitsEnd(clauses[i], j, v);
  }

  // The scan runs the first arm, in source order, that fits and whose guard says yes; it ends in an
  // error when a guard does, and every guard is asked that has to be.
  lemma {:induction false} ScanMeans(clauses: seq<Clause>, i: nat, j: nat, v: Value, ask: Oracle, asked: seq<nat>)
    requires i <= |clauses| && Hashable(v)
    ensures var r := Scan(clauses, i, j, v, ask, asked);
      asked <= r.1 && Chosen(clauses, i, j, v, ask, r)
    decreases |clauses| - i, if i < |clauses| then |clauses[i].alternatives| - j else 0
  {
    var r := Scan(clauses, i, j, v, ask, asked);
    if i == |clauses| || clauses[i].alternatives == [] {
    } else if j >= |clauses[i].alternatives| {
      ScanMeans(clauses, i + 1, 0, v, ask, asked);
      NextArm(clauses, i, j, v, ask, r);
    } else if !Matches(clauses[i].alternatives[j], v) {
      ScanMeans(clauses, i, j + 1, v, ask, asked);
      NextFits(clauses, i, j, v, ask, r);
    } else {
      FitsStep(clauses[i], j, v);
      hide Fits, Matches;
      ScanMatched(clauses, i, j, v, ask, asked);
    }
  }

  lemma {:induction false} ScanMatched(clauses: seq<Clause>, i: nat, j: nat, v: Value, ask: Oracle, asked: seq<nat>)
    requires i < |clauses| && Hashable(v) && j < |clauses[i].alternatives| && Matches(clauses[i].alternatives[j], v)
    ensures var r := Scan(clauses, i, j, v, ask, asked);
      asked <= r.1 && Chosen(clauses, i, j, v, ask, r)
    decreases |clauses| - i, |clauses[i].alternatives| - j, 0
  {
    var r := Scan(clauses, i, j, v, ask, asked);
    var now := asked + [i];
    FitsStep(clauses[i], j, v);
    assert now[|asked|] == i && now[..|asked|] == asked;
    match ConditionOf(clauses[i])
    case Always =>
    case Never =>
      ScanMeans(clauses, i, j + 1, v, ask, asked);
      NextFits(clauses, i, j, v, ask, r);
    case Test =>
      if ask(i, asked) == Some(false) {
        ScanMeans(clauses, i, j + 1, v, ask, now);
        assert Answered(ask, now, i, Some(false));
        AnsweredLater(ask, now, r.1, i, Some(false));
        NextFits(clauses, i, j, v, ask, r);
      } else if ask(i, asked) == Some(true) {
        assert Answered(ask, now, i, Some(true));
      }
  }

  // The arm that a table leads to.
  lemma ArmRun(clauses: seq<Clause>, t: Table, v: Value, hash: Value -> nat, ask: Oracle)
    requires Accepted(clauses) && Built(t, clauses, hash) && Hashable(v)
    requires NoCollision(hash, Alternatives(clauses), v)
    ensures Chosen(clauses, 0, 0, v, ask, Select(t, v, hash, ask))
  {
    hide *;
    LookupIsScan(clauses, t, v, hash, ask);
    ScanMeans(clauses, 0, 0, v, ask, []);
  }

  // A value that no literal equals goes to the arm without alternatives, unasked.
  lemma UnhashableRun(clauses: seq<Clause>, t: Table, v: Value, hash: Value -> nat, ask: Oracle, id: nat)
    requires Accepted(clauses) && Built(t, clauses, hash) && Inside(Opaque(id), v)
    ensures var r := Select(t, v, hash, ask);
      r.1 == [] &&
      match r.0
      case Take(n) => n < |clauses| && clauses[n].alternatives == []
      case Miss => forall k :: 0 <= k < |clauses| ==> clauses[k].alternatives != []
      case Failed => false
  {
    HashableExactly(v);
    hide Inside, Hashable, AllLiteral, NumbersFirst, CasesFor, Alternatives, Spans;
  }

  // An arm with a range, before any arm that fits, is run exactly for the numbers of the range.
  lemma RangeArm(clauses: seq<Clause>, k: nat, span: Span, t: Table, n: int, hash: Value -> nat, ask: Oracle)
    requires Accepted(clauses) && Built(t, clauses, hash) && NoCollision(hash, Alternatives(clauses), Int(n))
    requires forall i :: 0 <= i < |clauses| ==> clauses[i].condition.None?
    requires k < |clauses| && clauses[k].alternatives == [Some(Range(span))]
    requires forall i :: 0 <= i < k ==> !Covers(clauses[i], Int(n))
    ensures Select(t, Int(n), hash, ask).0 == Take(k) <==> n in Enumerated(span.first, span.last, span.inclusive)
  {
    hide Accepted, Built, NoCollision, Select, Enumerated, InSpan;
    UnguardedLookup(clauses, t, Int(n), hash, ask);
    HeldExactly(span, n);
    assert clauses[k].alternatives[0] == Some(Range(span));
  }
}
