// Raw string literals (parse_raw_string_literal in src/tokenizer.rs): the scanner that counts the
// hashes after a quote, against a search for the first terminator.

module RawString {
  import opened Options
  import opened CharStream

  function Hashes(n: nat): string {
    seq(n, i => '#')
  }

  function Terminator(n: nat): string {
    ['"'] + Hashes(n)
  }

  predicate StartsWith(s: string, p: string) {
    |p| <= |s| && s[..|p|] == p
  }

  // Position of the first terminator, or the length of the text if there is none.
  function Search(s: string, n: nat): (p: nat)
    ensures p <= |s|
    ensures p < |s| ==> StartsWith(s[p..], Terminator(n))
    ensures forall q | 0 <= q < p :: !StartsWith(s[q..], Terminator(n))
  {
    if s == [] then 0
    else if StartsWith(s, Terminator(n)) then 0
    else
      var p := 1 + Search(s[1..], n);
      assert forall q | 1 <= q < p :: s[q..] == s[1..][q - 1..];
      assert p < |s| ==> s[p..] == s[1..][p - 1..];
      p
  }

  // A scan: the text, whether it was terminated, and what comes after it.
  datatype Scan = Scan(text: string, closed: bool, rest: string)

  // The end of the input inside a text drops a quote with hashes that may have begun a terminator.
  function OpenText(s: string): string {
    if s == [] then []
    else if s[|s| - 1] == '"' then s[..|s| - 1]
    else if s[|s| - 1] == '#' && OpenText(s[..|s| - 1]) != s[..|s| - 1] then OpenText(s[..|s| - 1])
    else s
  }

  // What the scanner must return.
  function Raw(s: string, n: nat): Scan {
    var p := Search(s, n);
    if p < |s| then Scan(s[..p], true, s[p + n + 1..]) else Scan(OpenText(s), false, [])
  }

  // ---- the scanner's state ----

  // After `read`: what has been collected, and the hashes counted since a quote.
  function Collected(result: string, seen: Option<nat>): string {
    result + if seen.Some? then Terminator(seen.value) else []
  }

  // What OpenText leaves out is a quote and hashes at the very end.
  lemma {:induction false} OpenIs(result: string, seen: Option<nat>, n: nat)
    requires seen == None ==> forall q | 0 <= q <= |result| :: !TailOf(result, q)
    ensures OpenText(Collected(result, seen)) == result
    decreases if seen.Some? then seen.value + 1 else 0
  {
    var s := Collected(result, seen);
    match seen
    case None =>
      assert s == result;
      OpenWhole(result);
    case Some(0) =>
      assert Terminator(0) == ['"'];
      assert s[..|s| - 1] == result;
    case Some(k) =>
      assert s[..|s| - 1] == Collected(result, Some(k - 1));
      assert |Collected(result, Some(k - 1))| > |result|;
      OpenIs(result, Some(k - 1), n);
  }

  // The text ends with a quote at `q` and hashes after it.
  predicate TailOf(s: string, q: nat) {
    q < |s| && s[q] == '"' && forall j | q < j < |s| :: s[j] == '#'
  }

  lemma {:induction false} OpenWhole(s: string)
    requires forall q | 0 <= q <= |s| :: !TailOf(s, q)
    ensures OpenText(s) == s
  {
    if s != [] {
      assert !TailOf(s, |s| - 1);
      if s[|s| - 1] == '#' {
        var t := s[..|s| - 1];
        forall q | 0 <= q <= |t|
          ensures !TailOf(t, q)
        {
          if TailOf(t, q) { assert TailOf(s, q); }
        }
        OpenWhole(t);
      }
    }
  }

  // Nothing before the current position starts a terminator.
  predicate NoneBefore(s: string, n: nat, p: nat) {
    forall q | 0 <= q < p && q <= |s| :: !StartsWith(s[q..], Terminator(n))
  }

  // The scanner stands at `i`; a quote that may begin a terminator is at `i - 1 - seen`.
  predicate At(s: string, n: nat, i: nat, result: string, seen: Option<nat>) {
    i <= |s| && s[..i] == Collected(result, seen) &&
    match seen
    case None => NoneBefore(s, n, i) && forall q | 0 <= q <= |result| :: !TailOf(result, q)
    case Some(k) => k < n && NoneBefore(s, n, |result|)
  }

  lemma TerminatorAt(n: nat, j: nat)
    requires j <= n
    ensures Terminator(n)[j] == if j == 0 then '"' else '#'
  {
  }

  lemma AtStart(s: string, n: nat)
    ensures At(s, n, 0, "", None)
  {
  }

  // A quote.
  lemma QuoteStep(s: string, n: nat, i: nat, result: string, seen: Option<nat>)
    requires At(s, n, i, result, seen) && i < |s| && s[i] == '"' && n >= 1
    ensures At(s, n, i + 1, Collected(result, seen), Some(0))
  {
    assert Collected(Collected(result, seen), Some(0)) == s[..i] + ['"'];
    assert s[..i + 1] == s[..i] + [s[i]];
    if seen.Some? { Broken(s, n, i, result, seen.value); }
  }

  lemma Differs(s: string, q: nat, t: string, j: nat)
    requires q <= |s| && j < |t| && q + j < |s| && s[q + j] != t[j]
    ensures !StartsWith(s[q..], t)
  {
    if |t| <= |s| - q { assert s[q..][..|t|][j] == s[q + j]; }
  }

  // A terminator cannot begin at or after the quote at |result| when another character comes too early.
  lemma Broken(s: string, n: nat, i: nat, result: string, k: nat)
    requires At(s, n, i, result, Some(k)) && i < |s| && s[i] != '#'
    ensures NoneBefore(s, n, i)
  {
    assert i == |result| + 1 + k;
    forall q | |result| <= q < i
      ensures !StartsWith(s[q..], Terminator(n))
    {
      assert s[..i][q] == s[q];
      if q == |result| {
        TerminatorAt(n, k + 1);
        Differs(s, q, Terminator(n), k + 1);
      } else {
        TerminatorAt(n, 0);
        Differs(s, q, Terminator(n), 0);
      }
    }
  }

  // One more hash.
  lemma HashStep(s: string, n: nat, i: nat, result: string, k: nat)
    requires At(s, n, i, result, Some(k)) && i < |s| && s[i] == '#'
    ensures k + 1 != n ==> At(s, n, i + 1, result, Some(k + 1))
    ensures k + 1 == n ==> Raw(s, n) == Scan(result, true, s[i + 1..])
  {
    assert Collected(result, Some(k + 1)) == Collected(result, Some(k)) + ['#'];
    assert s[..i + 1] == s[..i] + [s[i]];
    if k + 1 == n { LastHash(s, n, i, result); }
  }

  lemma LastHash(s: string, n: nat, i: nat, result: string)
    requires i < |s| && n >= 1 && s[..i + 1] == result + Terminator(n) && NoneBefore(s, n, |result|)
    ensures Raw(s, n) == Scan(result, true, s[i + 1..])
  {
    var p := |result|;
    assert s[p..][..n + 1] == s[..i + 1][p..] == Terminator(n);
    assert s[..p] == s[..i + 1][..p] == result;
    SearchIs(s, n, p);
  }

  lemma SearchIs(s: string, n: nat, p: nat)
    requires p < |s| && StartsWith(s[p..], Terminator(n)) && NoneBefore(s, n, p)
    ensures Search(s, n) == p
  {
    assert s[p..] == s[p..] && Search(s, n) <= |s|;
  }

  // Any other character.
  lemma OtherStep(s: string, n: nat, i: nat, result: string, seen: Option<nat>)
    requires At(s, n, i, result, seen) && i < |s| && s[i] != '"' && (s[i] == '#' ==> seen == None)
    ensures At(s, n, i + 1, Collected(result, seen) + [s[i]], None)
  {
    var result' := Collected(result, seen) + [s[i]];
    assert s[..i + 1] == s[..i] + [s[i]] == result';
    if seen.Some? { Broken(s, n, i, result, seen.value); }
    assert s[i..][0] == s[i] && Terminator(n)[0] == '"';
    forall q | 0 <= q <= |result'|
      ensures !TailOf(result', q)
    {
      if TailOf(result', q) {
        assert q < |result'| - 1;
        assert result'[|result'| - 1] == s[i];
        assert result == result'[..|result|];
        assert TailOf(result, q);
      }
    }
  }

  // The end of the input.
  lemma EndStep(s: string, n: nat, result: string, seen: Option<nat>)
    requires At(s, n, |s|, result, seen)
    ensures Raw(s, n) == Scan(result, false, [])
  {
    assert s[..|s|] == s;
    OpenIs(result, seen, n);
    SearchNone(s, n, result, seen);
  }

  lemma SearchNone(s: string, n: nat, result: string, seen: Option<nat>)
    requires At(s, n, |s|, result, seen)
    ensures Search(s, n) == |s|
  {
    assert s[..|s|] == s;
    var p := Search(s, n);
    assert |s[p..]| == |s| - p && |Terminator(n)| == n + 1;
  }

  lemma TakeOne(s: string, i: nat)
    requires i < |s|
    ensures s[i..][0] == s[i] && s[i..][1..] == s[i + 1..]
  {
  }

  // What one character does to the text collected and to the hashes seen since the last quote.
  function Take(result: string, seen: Option<nat>, c: char): (string, Option<nat>) {
    if c == '"' then (Collected(result, seen), Some(0))
    else if c == '#' && seen.Some? then (result, Some(seen.value + 1))
    else (Collected(result, seen) + [c], None)
  }

  lemma TakeStep(s: string, n: nat, i: nat, result: string, seen: Option<nat>)
    requires At(s, n, i, result, seen) && i < |s| && n >= 1
    ensures var (result', seen') := Take(result, seen, s[i]);
      if seen' == Some(n) then Raw(s, n) == Scan(result', true, s[i + 1..]) else At(s, n, i + 1, result', seen')
  {
    hide At, Raw, Collected;
    if s[i] == '"' {
      QuoteStep(s, n, i, result, seen);
    } else if s[i] == '#' && seen.Some? {
      HashStep(s, n, i, result, seen.value);
    } else {
      OtherStep(s, n, i, result, seen);
    }
  }

  // The scanner, after the opening quote.
  method ScanRaw(stream: MultiInputsStream, n: nat) returns (result: string, closed: bool)
    requires stream.Valid() && n >= 1
    modifies stream
    ensures stream.Valid()
    ensures Raw(old(stream.Rest()), n) == Scan(result, closed, stream.Rest())
    ensures stream.Pushed() <= old(stream.Pushed()) && (old(stream.Calm()) ==> stream.Calm())
  {
    hide At, Raw, Search, stream.Buffered, Concat;
    ghost var s, pushed, calm := stream.Rest(), stream.Pushed(), stream.Calm();
    hide stream.Rest, stream.Calm, stream.Pushed, IsReturnable, Collected;
    ghost var i := 0;
    var seen: Option<nat> := None;
    result := "";
    AtStart(s, n);
    assert s[0..] == s;
    while true
      invariant i <= |s| && stream.Valid() && At(s, n, i, result, seen) && stream.Rest() == s[i..]
      invariant stream.Pushed() <= pushed && (calm ==> stream.Calm())
      decreases |s| - i
    {
      var next := stream.GetNext();
      if next == None {
        EndStep(s, n, result, seen);
        return result, false;
      }
      var c := next.value;
      TakeOne(s, i);
      TakeStep(s, n, i, result, seen);
      if c == '"' {
        // begin, or restart, the attempt to close the string
        result, seen := Collected(result, seen), Some(0);
      } else if c == '#' && seen.Some? {
        seen := Some(seen.value + 1);
        if seen.value == n { return result, true; }
      } else {
        result, seen := Collected(result, seen) + [c], None;
      }
      i := i + 1;
    }
  }

  // Any text without the terminator is returned as it is, whatever follows.
  lemma RoundTrip(text: string, n: nat, rest: string)
    requires n >= 1 && forall q | 0 <= q <= |text| :: !StartsWith(text[q..], Terminator(n))
    ensures Raw(text + Terminator(n) + rest, n) == Scan(text, true, rest)
  {
    var s := text + Terminator(n) + rest;
    var p := |text|;
    assert s[p..] == Terminator(n) + rest;
    forall q | 0 <= q < p
      ensures !StartsWith(s[q..], Terminator(n))
    {
      if StartsWith(s[q..], Terminator(n)) { NotAcross(text, n, rest, q); }
    }
    SearchIs(s, n, p);
    assert s[p + n + 1..] == rest;
  }

  // A terminator that begins in the text cannot reach over its end.
  lemma NotAcross(text: string, n: nat, rest: string, q: nat)
    requires q < |text| && StartsWith((text + Terminator(n) + rest)[q..], Terminator(n))
    ensures StartsWith(text[q..], Terminator(n))
  {
    var s, t := text + Terminator(n) + rest, Terminator(n);
    CharsOf(s, q, t);
    assert s[q + (|text| - q)] == '"';
    if q + n + 1 > |text| {
      assert false;
    }
    assert s[q..][..n + 1] == text[q..][..n + 1];
  }

  lemma CharsOf(s: string, q: nat, t: string)
    requires q <= |s| && StartsWith(s[q..], t)
    ensures q + |t| <= |s| && forall j | 0 <= j < |t| :: s[q + j] == t[j]
  {
    forall j | 0 <= j < |t|
      ensures s[q + j] == t[j]
    {
      assert s[q..][..|t|][j] == s[q + j];
    }
  }

  // ---- the whole literal ----

  function CountHashes(s: string): (n: nat)
    ensures n <= |s| && s[..n] == Hashes(n) && (n < |s| ==> s[n] != '#')
  {
    if s == [] || s[0] != '#' then 0
    else
      var n := 1 + CountHashes(s[1..]);
      assert s[..n] == [s[0]] + s[1..][..n - 1];
      assert Hashes(n) == ['#'] + Hashes(n - 1);
      n
  }

  datatype Literal = Unexpected | Text(scan: Scan)

  // A literal whose first hash has been read.
  function RawLiteral(s: string): Literal {
    var k := CountHashes(s);
    if k < |s| && s[k] == '"' then Text(Raw(s[k + 1..], k + 1)) else Unexpected
  }

  method ParseRawLiteral(stream: MultiInputsStream) returns (ok: bool, hashes: nat, text: string, closed: bool)
    requires stream.Valid()
    modifies stream
    ensures stream.Valid() && stream.Pushed() <= old(stream.Pushed()) && (old(stream.Calm()) ==> stream.Calm())
    ensures ok <==> RawLiteral(old(stream.Rest())).Text?
    ensures ok ==> RawLiteral(old(stream.Rest())) == Text(Scan(text, closed, stream.Rest()))
    ensures ok ==> hashes == CountHashes(old(stream.Rest())) + 1
  {
    hide Raw, stream.Buffered, stream.Rest, stream.Calm;
    ghost var s := stream.Rest();
    var hashCount := 1;
    ok, hashes, text, closed := false, 0, "", false;
    assert s[0..] == s;
    var next := stream.PeekNext();
    while next == Some('#')
      invariant 1 <= hashCount <= |s| + 1 && stream.Valid() && stream.Pushed() <= old(stream.Pushed())
      invariant old(stream.Calm()) ==> stream.Calm()
      invariant stream.Rest() == s[hashCount - 1..] && next == (if hashCount - 1 < |s| then Some(s[hashCount - 1]) else None)
      invariant forall j | 0 <= j < hashCount - 1 :: s[j] == '#'
      decreases |s| - hashCount
    {
      var _ := stream.GetNext();
      hashCount := hashCount + 1;
      next := stream.PeekNext();
    }
    CountIs(s, hashCount - 1);
    var quote := stream.GetNext();
    if quote != Some('"') { return; }
    text, closed := ScanRaw(stream, hashCount);
    ok, hashes := true, hashCount;
  }

  lemma CountIs(s: string, n: nat)
    requires n <= |s| && (forall j | 0 <= j < n :: s[j] == '#') && (n < |s| ==> s[n] != '#')
    ensures CountHashes(s) == n
  {
    var m := CountHashes(s);
    assert forall j | 0 <= j < m :: s[..m][j] == s[j];
    assert forall j | 0 <= j < m :: Hashes(m)[j] == '#';
  }

  // Writing a text between any number of hashes that it does not imitate, and reading it back.
  lemma LiteralRoundTrip(text: string, n: nat, rest: string)
    requires n >= 1 && forall q | 0 <= q <= |text| :: !StartsWith(text[q..], Terminator(n))
    ensures RawLiteral(Hashes(n - 1) + ['"'] + text + Terminator(n) + rest) == Text(Scan(text, true, rest))
  {
    var body := text + Terminator(n) + rest;
    var s := Hashes(n - 1) + ['"'] + text + Terminator(n) + rest;
    assert s == Hashes(n - 1) + (['"'] + body);
    CountIs(s, n - 1);
    assert s[n..] == body;
    RoundTrip(text, n, rest);
  }
}
