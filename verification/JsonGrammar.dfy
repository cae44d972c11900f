// What the JSON parser takes: exactly the token sequences of a grammar, whose last item of a list or
// a map may have a comma after it.

module JsonGrammar {
  import opened Options
  import opened Json

  // A list or a map may have a comma after its last item.
  datatype Text = Atom(tok: Token) | List(items: seq<Text>, trailing: bool) | Map(entries: seq<Entry>, trailing: bool)
  datatype Entry = Entry(key: string, t: Text)

  function AtomValue(tok: Token): Option<Value> {
    match tok
    case Unit => Some(Null)
    case True => Some(Bool(true))
    case False => Some(Bool(false))
    case IntegerConstant(n) => Some(Int(n))
    case StringConstant(s) => Some(Str(s))
    case _ => None
  }

  predicate Sound(t: Text) {
    match t
    case Atom(tok) => AtomValue(tok).Some?
    case List(items, trailing) => (trailing ==> items != []) && forall i :: 0 <= i < |items| ==> Sound(items[i])
    case Map(entries, trailing) =>
      && (trailing ==> entries != [])
      && (forall i :: 0 <= i < |entries| ==> Sound(entries[i].t))
      && forall i, j :: 0 <= i < j < |entries| ==> entries[i].key != entries[j].key
  }

  function Meaning(t: Text): Value
    requires Sound(t)
  {
    match t
    case Atom(tok) => AtomValue(tok).value
    case List(items, _) => Arr(seq(|items|, i requires 0 <= i < |items| => Meaning(items[i])))
    case Map(entries, _) =>
      Obj(seq(|entries|, i requires 0 <= i < |entries| => Field(entries[i].key, Meaning(entries[i].t))))
  }

  function End(trailing: bool, close: Token): seq<Token> {
    if trailing then [Comma, close] else [close]
  }

  function Written(t: Text): seq<Token>
    decreases t
  {
    match t
    case Atom(tok) => [tok]
    case List(items, trailing) => [LeftBracket] + WrittenItems(items, trailing)
    case Map(entries, trailing) => [MapStart] + WrittenEntries(entries, trailing)
  }

  function WrittenItems(items: seq<Text>, trailing: bool): seq<Token>
    decreases items, 0
  {
    if items == [] then [RightBracket]
    else Written(items[0]) + if |items| == 1 then End(trailing, RightBracket) else [Comma] + WrittenItems(items[1..], trailing)
  }

  function WrittenEntries(entries: seq<Entry>, trailing: bool): seq<Token>
    decreases entries, 0
  {
    if entries == [] then [RightBrace]
    else [StringConstant(entries[0].key), Colon] + (Written(entries[0].t) +
         if |entries| == 1 then End(trailing, RightBrace) else [Comma] + WrittenEntries(entries[1..], trailing))
  }

  function Values(items: seq<Text>): seq<Value>
    requires forall i :: 0 <= i < |items| ==> Sound(items[i])
  {
    seq(|items|, i requires 0 <= i < |items| => Meaning(items[i]))
  }

  function Fields(entries: seq<Entry>): seq<Field>
    requires forall i :: 0 <= i < |entries| ==> Sound(entries[i].t)
  {
    seq(|entries|, i requires 0 <= i < |entries| => Field(entries[i].key, Meaning(entries[i].t)))
  }

  // ---- what is read is in the grammar ----

  lemma {:induction false} ValueSound(ts: seq<Token>) returns (t: Text)
    requires ParseValue(ts).Some?
    ensures Sound(t) && Written(t) + ParseValue(ts).value.1 == ts && Meaning(t) == ParseValue(ts).value.0
    decreases |ts|, 1
  {
    if ts[0].LeftBracket? {
      var items, trailing := ItemsSound(ts[1..], []);
      t := List(items, trailing);
      assert [] + Values(items) == Values(items);
      Opened(LeftBracket, WrittenItems(items, trailing), ParseValue(ts).value.1, ts);
    } else if ts[0].MapStart? {
      var entries, trailing := FieldsSound(ts[1..], []);
      t := Map(entries, trailing);
      assert [] + Fields(entries) == Fields(entries);
      Opened(MapStart, WrittenEntries(entries, trailing), ParseValue(ts).value.1, ts);
    } else {
      t := Atom(ts[0]);
    }
  }

  lemma Opened(open: Token, inside: seq<Token>, rest: seq<Token>, ts: seq<Token>)
    requires ts != [] && ts[0] == open && inside + rest == ts[1..]
    ensures ([open] + inside) + rest == ts
  {}

  lemma {:induction false} ItemsSound(ts: seq<Token>, done: seq<Value>) returns (items: seq<Text>, trailing: bool)
    requires ParseItems(ts, done).Some?
    ensures Sound(List(items, trailing)) && WrittenItems(items, trailing) + ParseItems(ts, done).value.1 == ts
    ensures ParseItems(ts, done).value.0 == Arr(done + Values(items))
    decreases |ts|, 2
  {
    if ts[0].RightBracket? {
      items, trailing := [], false;
      assert done + Values([]) == done && [ts[0]] + ts[1..] == ts;
    } else {
      var t := ValueSound(ts);
      var (v, rest) := ParseValue(ts).value;
      var more, last := ItemsSound(if rest[0].Comma? then rest[1..] else rest, done + [v]);
      items := [t] + more;
      trailing := if more == [] then rest[0].Comma? else last;
      assert items[1..] == more && items[0] == t;
      ValuesStep(t, more, done, v);
      hide ParseValue, ParseItems, Sound, Meaning;
      ItemsJoin(t, more, trailing, rest, ParseItems(ts, done).value.1, ts);
    }
  }

  lemma ValuesStep(t: Text, more: seq<Text>, done: seq<Value>, v: Value)
    requires Sound(t) && Meaning(t) == v && forall i :: 0 <= i < |more| ==> Sound(more[i])
    ensures forall i :: 0 <= i < |[t] + more| ==> Sound(([t] + more)[i])
    ensures (done + [v]) + Values(more) == done + Values([t] + more)
  {
    hide Sound, Meaning;
    assert Values([t] + more) == [v] + Values(more);
  }

  lemma ItemsJoin(t: Text, more: seq<Text>, trailing: bool, rest: seq<Token>, after: seq<Token>, ts: seq<Token>)
    requires Written(t) + rest == ts && rest != []
    requires rest[0].Comma? ==> WrittenItems(more, trailing) + after == rest[1..]
    requires !rest[0].Comma? ==> rest[0].RightBracket? && more == [] && after == rest[1..]
    requires more == [] ==> trailing == rest[0].Comma?
    ensures WrittenItems([t] + more, trailing) + after == ts
  {
    assert ([t] + more)[0] == t && ([t] + more)[1..] == more;
    hide Written;
    assert rest == [rest[0]] + rest[1..];
    if more == [] {
      assert rest == End(trailing, RightBracket) + after;
      assert (Written(t) + End(trailing, RightBracket)) + after == Written(t) + rest;
    } else {
      assert rest == ([Comma] + WrittenItems(more, trailing)) + after;
    }
  }

  predicate Fresh(done: seq<Field>, entries: seq<Entry>) {
    (forall i :: 0 <= i < |entries| ==> !HasKey(done, entries[i].key)) &&
    forall i, j :: 0 <= i < j < |entries| ==> entries[i].key != entries[j].key
  }

  lemma {:induction false} FieldsSound(ts: seq<Token>, done: seq<Field>) returns (entries: seq<Entry>, trailing: bool)
    requires ParseFields(ts, done).Some?
    ensures Sound(Map(entries, trailing)) && WrittenEntries(entries, trailing) + ParseFields(ts, done).value.1 == ts
    ensures ParseFields(ts, done).value.0 == Obj(done + Fields(entries)) && Fresh(done, entries)
    decreases |ts|, 2
  {
    if ts[0].RightBrace? {
      entries, trailing := [], false;
      assert done + Fields([]) == done && [ts[0]] + ts[1..] == ts;
    } else {
      var key := ts[0].s;
      var t := ValueSound(ts[2..]);
      var (v, rest) := ParseValue(ts[2..]).value;
      var more, last := FieldsSound(if rest[0].Comma? then rest[1..] else rest, done + [Field(key, v)]);
      entries := [Entry(key, t)] + more;
      trailing := if more == [] then rest[0].Comma? else last;
      FieldsStep(key, t, more, done, v);
      hide ParseValue, ParseFields, Sound, Meaning, Fresh;
      EntriesJoin(key, t, more, trailing, rest, ParseFields(ts, done).value.1, ts);
    }
  }

  lemma FieldsStep(key: string, t: Text, more: seq<Entry>, done: seq<Field>, v: Value)
    requires Sound(t) && Meaning(t) == v && forall i :: 0 <= i < |more| ==> Sound(more[i].t)
    requires !HasKey(done, key)
    ensures forall i :: 0 <= i < |[Entry(key, t)] + more| ==> Sound(([Entry(key, t)] + more)[i].t)
    ensures (done + [Field(key, v)]) + Fields(more) == done + Fields([Entry(key, t)] + more)
    ensures Fresh(done, [Entry(key, t)] + more) <==> Fresh(done + [Field(key, v)], more)
  {
    hide Sound, Meaning, Fresh, HasKey;
    FreshStep(key, t, more, done, v);
    assert Fields([Entry(key, t)] + more) == [Field(key, v)] + Fields(more);
  }

  lemma FreshStep(key: string, t: Text, more: seq<Entry>, done: seq<Field>, v: Value)
    requires !HasKey(done, key)
    ensures Fresh(done, [Entry(key, t)] + more) <==> Fresh(done + [Field(key, v)], more)
  {
    hide HasKey;
    var entries := [Entry(key, t)] + more;
    KeyAdded(done, key, v);
    assert forall i :: 0 <= i < |more| ==> entries[i + 1] == more[i];
    if Fresh(done, entries) {
      forall i | 0 <= i < |more|
        ensures more[i].key != key && !HasKey(done, more[i].key)
        ensures forall j :: i < j < |more| ==> more[i].key != more[j].key
      {
        assert entries[i + 1] == more[i] && entries[0].key == key;
        assert forall j :: i < j < |more| ==> entries[j + 1] == more[j];
      }
    }
  }

  lemma KeyAdded(done: seq<Field>, key: string, v: Value)
    ensures forall k :: HasKey(done + [Field(key, v)], k) <==> HasKey(done, k) || k == key
  {
    var all := done + [Field(key, v)];
    forall k: string
      ensures HasKey(all, k) <==> HasKey(done, k) || k == key
    {
      if i :| 0 <= i < |done| && done[i].key == k { assert all[i].key == k; }
      assert all[|done|].key == key;
    }
  }

  lemma EntriesJoin(key: string, t: Text, more: seq<Entry>, trailing: bool, rest: seq<Token>, after: seq<Token>, ts: seq<Token>)
    requires |ts| >= 2 && ts[0] == StringConstant(key) && ts[1] == Colon && Written(t) + rest == ts[2..] && rest != []
    requires rest[0].Comma? ==> WrittenEntries(more, trailing) + after == rest[1..]
    requires !rest[0].Comma? ==> rest[0].RightBrace? && more == [] && after == rest[1..]
    requires more == [] ==> trailing == rest[0].Comma?
    ensures WrittenEntries([Entry(key, t)] + more, trailing) + after == ts
  {
    var entries := [Entry(key, t)] + more;
    assert entries[0] == Entry(key, t) && entries[1..] == more;
    var tail := EntriesTail(entries, trailing);
    assert tail + after == rest by {
      hide WrittenEntries, Written;
      assert rest == [rest[0]] + rest[1..];
      if more == [] { assert trailing ==> [Comma, RightBrace] + after == [Comma] + ([RightBrace] + after); }
      else { Associative([Comma], WrittenEntries(more, trailing), after); }
    }
    hide Written, WrittenEntries, EntriesTail;
    EntriesText(entries, trailing, after);
    var ts' := WrittenEntries(entries, trailing) + after;
    assert ts' == [ts'[0], ts'[1]] + ts'[2..] && ts == [ts[0], ts[1]] + ts[2..];
  }

  // ---- everything in the grammar is read ----

  lemma {:induction false} ValueComplete(t: Text, rest: seq<Token>)
    requires Sound(t)
    ensures ParseValue(Written(t) + rest) == Some((Meaning(t), rest))
    decreases t
  {
    var ts := Written(t) + rest;
    match t
    case Atom(tok) => assert ts[0] == tok && ts[1..] == rest;
    case List(items, trailing) =>
      var inside := WrittenItems(items, trailing) + rest;
      assert ts[0] == LeftBracket && ts[1..] == inside;
      ItemsComplete(items, trailing, [], rest);
      assert [] + Values(items) == Values(items);
    case Map(entries, trailing) =>
      var inside := WrittenEntries(entries, trailing) + rest;
      assert ts[0] == MapStart && ts[1..] == inside;
      FieldsComplete(entries, trailing, [], rest);
      assert [] + Fields(entries) == Fields(entries);
  }

  lemma StartsNoBracket(t: Text)
    requires Sound(t)
    ensures Written(t) != [] && !Written(t)[0].RightBracket?
  {}

  lemma ItemsRound(ts: seq<Token>, done: seq<Value>, v: Value, tail: seq<Token>)
    requires ts != [] && !ts[0].RightBracket? && ParseValue(ts) == Some((v, tail)) && tail != []
    requires tail[0].Comma? || tail[0].RightBracket?
    ensures ParseItems(ts, done) == ParseItems(if tail[0].Comma? then tail[1..] else tail, done + [v])
  {
    hide ParseValue;
  }

  // What comes after the first item.
  function ItemsTail(items: seq<Text>, trailing: bool): seq<Token>
    requires items != []
  {
    if |items| == 1 then End(trailing, RightBracket) else [Comma] + WrittenItems(items[1..], trailing)
  }

  lemma Associative(a: seq<Token>, b: seq<Token>, c: seq<Token>)
    ensures (a + b) + c == a + (b + c)
  {}

  lemma ItemsText(items: seq<Text>, trailing: bool, rest: seq<Token>)
    requires items != []
    ensures WrittenItems(items, trailing) + rest == Written(items[0]) + (ItemsTail(items, trailing) + rest)
  {
    hide Written, End;
    Associative(Written(items[0]), ItemsTail(items, trailing), rest);
  }

  lemma ItemsParts(items: seq<Text>, trailing: bool)
    requires Sound(List(items, trailing)) && items != []
    ensures Sound(items[0]) && (|items| > 1 ==> Sound(List(items[1..], trailing)))
    ensures forall i :: 0 <= i < |items[1..]| ==> Sound(items[1..][i])
  {}

  lemma TailStarts(items: seq<Text>, trailing: bool, rest: seq<Token>)
    requires items != []
    ensures var tail := ItemsTail(items, trailing) + rest;
      && tail != [] && (tail[0].Comma? || tail[0].RightBracket?)
      && (|items| == 1 ==> tail == End(trailing, RightBracket) + rest)
      && (|items| > 1 ==> tail[0].Comma? && tail[1..] == WrittenItems(items[1..], trailing) + rest)
  {
    hide WrittenItems;
    if |items| > 1 { Associative([Comma], WrittenItems(items[1..], trailing), rest); }
  }

  lemma {:induction false} ItemsComplete(items: seq<Text>, trailing: bool, done: seq<Value>, rest: seq<Token>)
    requires Sound(List(items, trailing))
    ensures ParseItems(WrittenItems(items, trailing) + rest, done) == Some((Arr(done + Values(items)), rest))
    decreases items, 0
  {
    var ts := WrittenItems(items, trailing) + rest;
    if items == [] {
      assert ts[0] == RightBracket && ts[1..] == rest && done + Values([]) == done;
    } else {
      hide Sound, Meaning, Written, WrittenItems, ParseValue, ParseItems, ItemsTail, End, Values;
      var t, more := items[0], items[1..];
      var tail := ItemsTail(items, trailing) + rest;
      ItemsParts(items, trailing);
      StartsNoBracket(t);
      ItemsText(items, trailing, rest);
      TailStarts(items, trailing, rest);
      ValueComplete(t, tail);
      ItemsRound(ts, done, Meaning(t), tail);
      ValuesStep(t, more, done, Meaning(t));
      assert items == [t] + more;
      if |items| > 1 {
        ItemsComplete(more, trailing, done + [Meaning(t)], rest);
      } else {
        NoValues(done + [Meaning(t)]);
        ItemsOver(trailing, done + [Meaning(t)], rest, tail);
      }
    }
  }

  lemma NoValues(done: seq<Value>)
    ensures done + Values([]) == done
  {}

  lemma ItemsOver(trailing: bool, done: seq<Value>, rest: seq<Token>, tail: seq<Token>)
    requires tail == End(trailing, RightBracket) + rest
    ensures tail[0].Comma? == trailing && (!trailing ==> tail[0].RightBracket?)
    ensures ParseItems(if trailing then tail[1..] else tail, done) == Some((Arr(done), rest))
  {
    var close := if trailing then tail[1..] else tail;
    assert close == [RightBracket] + rest;
  }

  lemma FieldsRound(ts: seq<Token>, done: seq<Field>, key: string, v: Value, tail: seq<Token>)
    requires |ts| >= 2 && ts[0] == StringConstant(key) && ts[1] == Colon && !HasKey(done, key)
    requires ParseValue(ts[2..]) == Some((v, tail)) && tail != [] && (tail[0].Comma? || tail[0].RightBrace?)
    ensures ParseFields(ts, done) == ParseFields(if tail[0].Comma? then tail[1..] else tail, done + [Field(key, v)])
  {
    hide ParseValue, HasKey;
  }

  function EntriesTail(entries: seq<Entry>, trailing: bool): seq<Token>
    requires entries != []
  {
    if |entries| == 1 then End(trailing, RightBrace) else [Comma] + WrittenEntries(entries[1..], trailing)
  }

  lemma EntriesText(entries: seq<Entry>, trailing: bool, rest: seq<Token>)
    requires entries != []
    ensures var ts := WrittenEntries(entries, trailing) + rest;
      |ts| >= 2 && ts[0] == StringConstant(entries[0].key) && ts[1] == Colon &&
      ts[2..] == Written(entries[0].t) + (EntriesTail(entries, trailing) + rest)
  {
    hide Written, End;
    var head, body := [StringConstant(entries[0].key), Colon], Written(entries[0].t) + EntriesTail(entries, trailing);
    assert WrittenEntries(entries, trailing) == head + body;
    hide WrittenEntries, EntriesTail;
    Associative(head, body, rest);
    Associative(Written(entries[0].t), EntriesTail(entries, trailing), rest);
  }

  lemma EntriesStart(entries: seq<Entry>, trailing: bool, rest: seq<Token>)
    requires entries != []
    ensures var tail := EntriesTail(entries, trailing) + rest;
      && tail != [] && (tail[0].Comma? || tail[0].RightBrace?)
      && (|entries| == 1 ==> tail == End(trailing, RightBrace) + rest)
      && (|entries| > 1 ==> tail[0].Comma? && tail[1..] == WrittenEntries(entries[1..], trailing) + rest)
  {
    hide WrittenEntries;
    if |entries| > 1 { Associative([Comma], WrittenEntries(entries[1..], trailing), rest); }
  }

  lemma EntriesParts(entries: seq<Entry>, trailing: bool)
    requires Sound(Map(entries, trailing)) && entries != []
    ensures Sound(entries[0].t) && (|entries| > 1 ==> Sound(Map(entries[1..], trailing)))
    ensures forall i :: 0 <= i < |entries[1..]| ==> Sound(entries[1..][i].t)
  {}

  lemma {:induction false} FieldsComplete(entries: seq<Entry>, trailing: bool, done: seq<Field>, rest: seq<Token>)
    requires Sound(Map(entries, trailing)) && Fresh(done, entries)
    ensures ParseFields(WrittenEntries(entries, trailing) + rest, done) == Some((Obj(done + Fields(entries)), rest))
    decreases entries, 0
  {
    var ts := WrittenEntries(entries, trailing) + rest;
    if entries == [] {
      assert ts[0] == RightBrace && ts[1..] == rest && done + Fields([]) == done;
    } else {
      var key, t, more := entries[0].key, entries[0].t, entries[1..];
      hide Sound, Meaning, Written, WrittenEntries, ParseValue, ParseFields, Fresh, HasKey, EntriesTail, End, Fields;
      FreshFirst(done, entries);
      var tail := EntriesTail(entries, trailing) + rest;
      EntriesParts(entries, trailing);
      EntriesText(entries, trailing, rest);
      EntriesStart(entries, trailing, rest);
      ValueComplete(t, tail);
      FieldsRound(ts, done, key, Meaning(t), tail);
      FieldsStep(key, t, more, done, Meaning(t));
      assert entries == [Entry(key, t)] + more;
      if |entries| > 1 {
        FieldsComplete(more, trailing, done + [Field(key, Meaning(t))], rest);
      } else {
        NoFields(done + [Field(key, Meaning(t))]);
        FieldsOver(trailing, done + [Field(key, Meaning(t))], rest, tail);
      }
    }
  }

  lemma FreshFirst(done: seq<Field>, entries: seq<Entry>)
    requires Fresh(done, entries) && entries != []
    ensures !HasKey(done, entries[0].key)
  {}

  lemma NoFields(done: seq<Field>)
    ensures done + Fields([]) == done
  {}

  lemma FieldsOver(trailing: bool, done: seq<Field>, rest: seq<Token>, tail: seq<Token>)
    requires tail == End(trailing, RightBrace) + rest
    ensures tail[0].Comma? == trailing && (!trailing ==> tail[0].RightBrace?)
    ensures ParseFields(if trailing then tail[1..] else tail, done) == Some((Obj(done), rest))
  {
    var close := if trailing then tail[1..] else tail;
    assert close == [RightBrace] + rest;
  }

  ghost predicate Stands(ts: seq<Token>, t: Text, v: Value, rest: seq<Token>) {
    Sound(t) && Written(t) + rest == ts && Meaning(t) == v
  }

  // The reader takes exactly the values of the grammar, and gives what is written.
  lemma AcceptsExactly(ts: seq<Token>, v: Value, rest: seq<Token>)
    ensures ParseValue(ts) == Some((v, rest)) <==> exists t :: Stands(ts, t, v, rest)
  {
    if ParseValue(ts) == Some((v, rest)) {
      var t := ValueSound(ts);
      assert Stands(ts, t, v, rest);
    }
    if t :| Stands(ts, t, v, rest) { ValueComplete(t, rest); }
  }
}
