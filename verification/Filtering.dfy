// Keeping some elements of a list, from the front, from the back, and in place.

module Filtering {
  function FilterFrom<T>(b: seq<T>, flags: seq<bool>, i: nat): seq<T>
    requires i <= |b| == |flags|
    decreases |b| - i
  {
    if i == |b| then []
    else if flags[i] then [b[i]] + FilterFrom(b, flags, i + 1)
    else FilterFrom(b, flags, i + 1)
  }

  function FilterUpTo<T>(b: seq<T>, flags: seq<bool>, i: nat): seq<T>
    requires i <= |b| == |flags|
  {
    if i == 0 then [] else FilterUpTo(b, flags, i - 1) + if flags[i - 1] then [b[i - 1]] else []
  }

  // The list being filtered in place and the index reached, before element `o` of the original is
  // looked at.
  function Working<T>(b: seq<T>, flags: seq<bool>, o: nat): (r: (seq<T>, nat))
    requires o <= |b| == |flags|
    ensures r.1 <= o && |r.0| - r.1 == |b| - o
  {
    if o == 0 then (b, 0)
    else
      var (l, k) := Working(b, flags, o - 1);
      if flags[o - 1] then (l, k + 1) else (l[..k] + l[k + 1..], k)
  }

  lemma {:induction false} WorkingIs<T>(b: seq<T>, flags: seq<bool>, o: nat)
    requires o <= |b| == |flags|
    ensures Working(b, flags, o).0 == FilterUpTo(b, flags, o) + b[o..]
    ensures Working(b, flags, o).1 == |FilterUpTo(b, flags, o)|
    decreases o
  {
    if o > 0 {
      WorkingIs(b, flags, o - 1);
      assert b[o - 1..] == [b[o - 1]] + b[o..];
    }
  }

  // The list without the element at `k`.
  function Without<T>(l: seq<T>, k: nat): (r: seq<T>)
    requires k < |l|
    ensures |r| == |l| - 1
  {
    l[..k] + l[k + 1..]
  }

  lemma WorkingStep<T>(b: seq<T>, flags: seq<bool>, o: nat, l: seq<T>, k: nat)
    requires o < |b| == |flags| && (l, k) == Working(b, flags, o)
    ensures k < |l| && l[k] == b[o] && |l| - k == |b| - o
    ensures Working(b, flags, o + 1) == if flags[o] then (l, k + 1) else (Without(l, k), k)
  {
    WorkingIs(b, flags, o);
  }

  lemma {:induction false} FilterSplit<T>(b: seq<T>, flags: seq<bool>, i: nat)
    requires i <= |b| == |flags|
    ensures FilterFrom(b, flags, 0) == FilterUpTo(b, flags, i) + FilterFrom(b, flags, i)
    decreases i
  {
    if i > 0 {
      FilterSplit(b, flags, i - 1);
      var u, rest := FilterUpTo(b, flags, i - 1), FilterFrom(b, flags, i);
      var h := if flags[i - 1] then [b[i - 1]] else [];
      assert u + (h + rest) == (u + h) + rest;
    }
  }

  // ---- removal of elements that do not matter ----

  // Index of the last element that is not `idle`; 0 when there is none.
  function LastBusy<T>(b: seq<T>, idle: T -> bool): (k: nat)
    ensures b != [] ==> k < |b|
    ensures b == [] ==> k == 0
    ensures forall j | k < j < |b| :: idle(b[j])
    ensures k > 0 ==> !idle(b[k])
  {
    if b == [] then 0
    else if !idle(b[|b| - 1]) then |b| - 1
    else LastBusy(b[..|b| - 1], idle)
  }

  // An element stays if it is the result, or if it is neither useless anywhere nor idle past the
  // last busy element.
  predicate Stays<T>(b: seq<T>, idle: T -> bool, useless: T -> bool, preserve: bool, i: nat)
    requires i < |b|
  {
    (preserve && i == |b| - 1) || (!(idle(b[i]) && i >= LastBusy(b, idle)) && !useless(b[i]))
  }

  function StayFlags<T>(b: seq<T>, idle: T -> bool, useless: T -> bool, preserve: bool): (flags: seq<bool>)
    ensures |flags| == |b|
  {
    seq(|b|, i requires 0 <= i < |b| => Stays(b, idle, useless, preserve, i))
  }

  // The loop has come to `r[index]`, which was `b[o]`.
  ghost predicate InPlace<T(!new)>(b: seq<T>, idle: T -> bool, useless: T -> bool, preserve: bool,
                                   o: nat, r: seq<T>, index: nat, lastBusy: int)
  {
    var last := LastBusy(b, idle);
    && index <= o <= |b| && |r| - index == |b| - o
    && (r, index) == Working(b, StayFlags(b, idle, useless, preserve), o)
    && (if o <= last then lastBusy == last - (o - index) else lastBusy <= index)
    && (index == o ==> r == b)
  }

  lemma Started<T(!new)>(b: seq<T>, idle: T -> bool, useless: T -> bool, preserve: bool)
    ensures InPlace(b, idle, useless, preserve, 0, b, 0, LastBusy(b, idle))
  {
  }

  // What the loop looks at decides as the flag does.
  lemma Look<T(!new)>(b: seq<T>, idle: T -> bool, useless: T -> bool, preserve: bool,
                      o: nat, r: seq<T>, index: nat, lastBusy: int)
    requires InPlace(b, idle, useless, preserve, o, r, index, lastBusy) && index < |r|
    ensures o < |b|
    ensures StayFlags(b, idle, useless, preserve)[o] ==
      ((preserve && index >= |r| - 1) || !((idle(r[index]) && index >= lastBusy) || useless(r[index])))
  {
    var flags := StayFlags(b, idle, useless, preserve);
    assert flags[o] == Stays(b, idle, useless, preserve, o);
    hide LastBusy, StayFlags, Working;
    WorkingStep(b, flags, o, r, index);
  }

  lemma Dropped<T(!new)>(b: seq<T>, idle: T -> bool, useless: T -> bool, preserve: bool,
                         o: nat, r: seq<T>, index: nat, lastBusy: int)
    requires InPlace(b, idle, useless, preserve, o, r, index, lastBusy) && index < |r| && o < |b|
    requires !StayFlags(b, idle, useless, preserve)[o]
    ensures InPlace(b, idle, useless, preserve, o + 1, Without(r, index), index,
                    if index < lastBusy then lastBusy - 1 else lastBusy)
  {
    hide LastBusy, StayFlags, Working, Without;
    WorkingStep(b, StayFlags(b, idle, useless, preserve), o, r, index);
  }

  lemma Passed<T(!new)>(b: seq<T>, idle: T -> bool, useless: T -> bool, preserve: bool,
                        o: nat, r: seq<T>, index: nat, lastBusy: int)
    requires InPlace(b, idle, useless, preserve, o, r, index, lastBusy) && index < |r| && o < |b|
    requires StayFlags(b, idle, useless, preserve)[o]
    ensures InPlace(b, idle, useless, preserve, o + 1, r, index + 1, lastBusy)
  {
    hide LastBusy, StayFlags, Working;
    WorkingStep(b, StayFlags(b, idle, useless, preserve), o, r, index);
  }

  lemma Finished<T(!new)>(b: seq<T>, idle: T -> bool, useless: T -> bool, preserve: bool,
                          o: nat, r: seq<T>, index: nat, lastBusy: int)
    requires InPlace(b, idle, useless, preserve, o, r, index, lastBusy) && index == |r|
    ensures r == FilterFrom(b, StayFlags(b, idle, useless, preserve), 0)
    ensures |r| == |b| ==> r == b
  {
    hide LastBusy, StayFlags, Working;
    var flags := StayFlags(b, idle, useless, preserve);
    WorkingIs(b, flags, o);
    FilterSplit(b, flags, o);
    assert b[o..] == [];
  }

  // The in-place loop: indices shift as elements go, and `lastBusy` shifts with them.
  method RemoveInPlace<T(!new)>(b: seq<T>, idle: T -> bool, useless: T -> bool, preserve: bool) returns (r: seq<T>)
    ensures r == FilterFrom(b, StayFlags(b, idle, useless, preserve), 0)
    ensures |r| == |b| ==> r == b
  {
    hide InPlace, LastBusy, StayFlags, Without;
    r := b;
    var index: nat := 0;
    var lastBusy: int := LastBusy(b, idle);
    ghost var o: nat := 0;                       // where r[index] was in b
    Started(b, idle, useless, preserve);
    while index < |r|
      invariant index <= |r| && InPlace(b, idle, useless, preserve, o, r, index, lastBusy)
      decreases |r| - index
    {
      Look(b, idle, useless, preserve, o, r, index, lastBusy);
      if preserve && index >= |r| - 1 {
        Passed(b, idle, useless, preserve, o, r, index, lastBusy);
        Finished(b, idle, useless, preserve, o + 1, r, index + 1, lastBusy);
        return;
      }
      var x := r[index];
      if idle(x) && index >= lastBusy {
        Dropped(b, idle, useless, preserve, o, r, index, lastBusy);
        r := Without(r, index);
      } else if useless(x) {
        Dropped(b, idle, useless, preserve, o, r, index, lastBusy);
        r := Without(r, index);
        if index < lastBusy { lastBusy := lastBusy - 1; }
      } else {
        Passed(b, idle, useless, preserve, o, r, index, lastBusy);
        index := index + 1;
      }
      o := o + 1;
    }
    Finished(b, idle, useless, preserve, o, r, index, lastBusy);
  }
}
