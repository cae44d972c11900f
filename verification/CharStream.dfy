// The character stream of the tokenizer (MultiInputsStream in src/tokenizer.rs): several inputs one
// after the other, and two places for characters that are given back.

module CharStream {
  import opened Options

  function Concat(inputs: seq<string>): string {
    if inputs == [] then [] else inputs[0] + Concat(inputs[1..])
  }

  // Taking a character from an input that has one.
  lemma ConcatTake(streams: seq<string>, index: nat)
    requires index < |streams| && streams[index] != []
    ensures var rest := streams[index := streams[index][1..]];
      Concat(streams[index..]) == [streams[index][0]] + Concat(rest[index..])
  {
    var rest := streams[index := streams[index][1..]];
    assert streams[index..][0] == streams[index] && streams[index..][1..] == streams[index + 1..];
    assert rest[index..][0] == streams[index][1..] && rest[index..][1..] == streams[index + 1..];
    assert streams[index] == [streams[index][0]] + streams[index][1..];
  }

  lemma ConcatSkip(streams: seq<string>, index: nat)
    requires index < |streams| && streams[index] == []
    ensures Concat(streams[index..]) == Concat(streams[index + 1..])
  {
    assert streams[index..][0] == streams[index] && streams[index..][1..] == streams[index + 1..];
  }

  predicate IsReturnable(c: char) {
    c in {'$', '.', 'e', 'E', 'i', 'n'}
  }

  class MultiInputsStream {
    var buf0: Option<char>
    var buf1: Option<char>
    var index: nat
    var streams: seq<string>     // what is left of each input

    // The second place is only used when the first is taken.
    predicate Valid()
      reads this
    {
      buf1.Some? ==> buf0.Some?
    }

    // How many characters wait in the buffer.
    function Pushed(): (n: nat)
      reads this
      requires Valid()
      ensures n <= 2
    {
      if buf1.Some? then 2 else if buf0.Some? then 1 else 0
    }

    function Buffered(): string
      reads this
      requires Valid()
    {
      (if buf1.Some? then [buf1.value] else []) + (if buf0.Some? then [buf0.value] else [])
    }

    // All that is still to come, as one sequence.
    function Rest(): string
      reads this
      requires Valid()
    {
      Buffered() + Concat(if index <= |streams| then streams[index..] else [])
    }

    // Only these are ever given back by the tokenizer.
    predicate Calm()
      reads this
      requires Valid()
    {
      forall c | c in Buffered() :: IsReturnable(c)
    }

    constructor (inputs: seq<string>)
      ensures Valid() && Rest() == Concat(inputs) && Pushed() == 0 && Calm()
    {
      buf0, buf1, index, streams := None, None, 0, inputs;
      new;
      assert streams[0..] == streams;
    }

    method Unget(ch: char)
      requires Valid() && Pushed() < 2
      modifies this
      ensures Valid() && Rest() == [ch] + old(Rest()) && Pushed() == old(Pushed()) + 1
      ensures Buffered() == [ch] + old(Buffered())
      ensures old(Calm()) && IsReturnable(ch) ==> Calm()
    {
      if buf0 == None {
        buf0 := Some(ch);
      } else {
        buf1 := Some(ch);
      }
    }

    method GetNext() returns (ch: Option<char>)
      requires Valid()
      modifies this
      ensures Valid()
      ensures old(Rest()) == [] ==> ch == None && Rest() == []
      ensures old(Rest()) != [] ==> ch == Some(old(Rest())[0]) && Rest() == old(Rest())[1..]
      ensures Pushed() == if old(Pushed()) > 0 then old(Pushed()) - 1 else 0
      ensures Buffered() == if old(Buffered()) == [] then [] else old(Buffered())[1..]
      ensures old(Calm()) ==> Calm() && (ch.Some? && !IsReturnable(ch.value) ==> Pushed() == 0)
    {
      if buf1.Some? {
        ch := buf1;
        buf1 := None;
        return;
      }
      if buf0.Some? {
        ch := buf0;
        buf0 := None;
        return;
      }
      SkipEmpty();
      if index >= |streams| { return None; }
      ch := Some(streams[index][0]);
      ConcatTake(streams, index);
      hide Concat;
      streams := streams[index := streams[index][1..]];
    }

    method PeekNext() returns (ch: Option<char>)
      requires Valid()
      modifies this
      ensures Valid() && Rest() == old(Rest()) && Pushed() == old(Pushed()) && Buffered() == old(Buffered())
      ensures old(Calm()) ==> Calm()
      ensures ch == if Rest() == [] then None else Some(Rest()[0])
    {
      if buf1.Some? { return buf1; }
      if buf0.Some? { return buf0; }
      SkipEmpty();
      if index >= |streams| { return None; }
      ch := Some(streams[index][0]);
    }

    // Jumps to the next input that has something left.
    method SkipEmpty()
      requires Valid() && buf0 == None
      modifies this
      ensures Valid() && buf0 == None && buf1 == None && Rest() == old(Rest())
      ensures index < |streams| ==> streams[index] != []
      ensures index >= |streams| ==> Rest() == []
    {
      while index < |streams| && streams[index] == []
        invariant Valid() && buf0 == None && Rest() == old(Rest())
      {
        ConcatSkip(streams, index);
        index := index + 1;
      }
    }
  }
}
