// What a JSON text looks like: parts with commas between them, decimal digits.

module JsonFormat {
  import opened Options
  import opened Json
  import S = StringLiteral

  // The parts of a list with a comma between any two.
  function Joined(parts: seq<string>): string {
    if parts == [] then ""
    else if |parts| == 1 then parts[0]
    else Joined(parts[..|parts| - 1]) + "," + parts[|parts| - 1]
  }

  // Every part, then what the list goes on with.
  function Each(parts: seq<string>): string {
    if parts == [] then "" else "," + parts[0] + Each(parts[1..])
  }

  lemma {:induction false} EachJoined(first: string, parts: seq<string>)
    ensures Joined([first] + parts) == first + Each(parts)
    decreases |parts|
  {
    if parts == [] {
      assert first + "" == first;
    } else {
      var all, front, last := [first] + parts, parts[..|parts| - 1], parts[|parts| - 1];
      assert all[..|all| - 1] == [first] + front && parts == front + [last];
      EachJoined(first, front);
      EachLast(front, last);
      assert (first + Each(front)) + "," + last == first + (Each(front) + ("," + last));
    }
  }

  lemma {:induction false} EachLast(parts: seq<string>, last: string)
    ensures Each(parts + [last]) == Each(parts) + ("," + last)
    decreases |parts|
  {
    if parts == [] {
      assert parts + [last] == [last] && [last][1..] == [];
      assert Each([last]) == "," + last + Each([]);
    } else {
      assert (parts + [last])[0] == parts[0] && (parts + [last])[1..] == parts[1..] + [last];
      EachLast(parts[1..], last);
    }
  }

  function ItemTexts(shown: char -> bool, items: seq<Value>): seq<string> {
    seq(|items|, i requires 0 <= i < |items| => Print(shown, items[i]))
  }

  function FieldTexts(shown: char -> bool, fields: seq<Field>): seq<string> {
    seq(|fields|, i requires 0 <= i < |fields| => PrintStr(shown, fields[i].key) + ":" + Print(shown, fields[i].v))
  }

  lemma {:induction false} ItemsAre(shown: char -> bool, items: seq<Value>)
    requires items != []
    ensures PrintItems(shown, items) == Print(shown, items[0]) + Each(ItemTexts(shown, items)[1..]) + "]"
    decreases |items|
  {
    hide Print;
    var texts := ItemTexts(shown, items);
    if |items| == 1 {
      assert texts[1..] == [] && items[1..] == [];
      assert PrintItems(shown, []) == "]";
    } else {
      ItemsAre(shown, items[1..]);
      assert ItemTexts(shown, items[1..]) == texts[1..];
      assert texts[1..][0] == Print(shown, items[1]);
    }
  }

  lemma {:induction false} FieldsAre(shown: char -> bool, fields: seq<Field>)
    requires fields != []
    ensures PrintFields(shown, fields) == FieldTexts(shown, fields)[0] + Each(FieldTexts(shown, fields)[1..]) + "}"
    decreases |fields|
  {
    hide Print, PrintStr, PrintField, PrintFields, Each;
    var texts := FieldTexts(shown, fields);
    FieldText(shown, fields[0]);
    if |fields| == 1 {
      FieldsLast(shown, fields);
      assert texts[1..] == [] && texts[0] + "" == texts[0];
      EachOf([]);
    } else {
      var more := texts[1..];
      FieldsAre(shown, fields[1..]);
      assert FieldTexts(shown, fields[1..]) == more;
      FieldsNext(shown, fields);
      EachOf(more);
      Tail(texts[0], more[0], Each(more[1..]));
    }
  }

  lemma EachOf(parts: seq<string>)
    ensures Each(parts) == if parts == [] then "" else "," + parts[0] + Each(parts[1..])
  {}

  lemma Tail(a: string, b: string, c: string)
    ensures a + ("," + (b + c + "}")) == a + ("," + b + c) + "}"
  {}

  lemma FieldsLast(shown: char -> bool, fields: seq<Field>)
    requires |fields| == 1
    ensures PrintFields(shown, fields) == PrintField(shown, fields[0]) + "}"
  {
    hide PrintField;
    assert fields[1..] == [] && PrintFields(shown, []) == "}" && "" + "}" == "}";
  }

  lemma FieldsNext(shown: char -> bool, fields: seq<Field>)
    requires |fields| > 1
    ensures PrintFields(shown, fields) == PrintField(shown, fields[0]) + ("," + PrintFields(shown, fields[1..]))
  {
    hide PrintField;
  }

  lemma FieldText(shown: char -> bool, f: Field)
    ensures PrintField(shown, f) == PrintStr(shown, f.key) + ":" + Print(shown, f.v)
  {
    hide PrintStr, Print;
  }

  // Lists are in brackets, maps in braces, with a comma between any two parts and a colon after a key.
  lemma Shape(shown: char -> bool, items: seq<Value>, fields: seq<Field>)
    ensures Print(shown, Arr(items)) == "[" + Joined(ItemTexts(shown, items)) + "]"
    ensures Print(shown, Obj(fields)) == "{" + Joined(FieldTexts(shown, fields)) + "}"
  {
    hide PrintStr, Joined;
    var ts, us := ItemTexts(shown, items), FieldTexts(shown, fields);
    assert Joined([]) == "" by { NothingJoined(); }
    if items != [] {
      ItemsAre(shown, items);
      EachJoined(ts[0], ts[1..]);
      assert ts == [ts[0]] + ts[1..];
    } else { assert ts == []; }
    if fields != [] {
      FieldsAre(shown, fields);
      EachJoined(us[0], us[1..]);
      assert us == [us[0]] + us[1..];
    } else { assert us == []; }
  }

  lemma NothingJoined()
    ensures Joined([]) == ""
  {}

  // A number is written with its most significant digit first.
  lemma Decimal(n: nat, d: nat)
    requires d < 10
    ensures PrintNat(d) == ["0123456789"[d]]
    ensures n > 0 ==> PrintNat(10 * n + d) == PrintNat(n) + ["0123456789"[d]]
  {
    hide PrintNat;
    DigitIs(d);
    if n > 0 { NatStep(n, d); }
    NatDigit(d);
  }

  lemma DigitIs(d: nat)
    requires d < 10
    ensures DigitChar(d) == "0123456789"[d]
  {}

  lemma NatDigit(d: nat)
    requires d < 10
    ensures PrintNat(d) == [DigitChar(d)]
  {}

  lemma NatStep(n: nat, d: nat)
    requires d < 10 && n > 0
    ensures PrintNat(10 * n + d) == PrintNat(n) + [DigitChar(d)]
  {
    assert (10 * n + d) / 10 == n && (10 * n + d) % 10 == d;
  }

  // A character that is not shown is written as its code, in hexadecimal digits without leading zeros.
  lemma {:induction false} HexText(n: nat)
    ensures S.AllHex(PrintHex(n)) && S.HexValue(PrintHex(n)) == n
    ensures PrintHex(n) != [] && (n > 0 ==> PrintHex(n)[0] != '0')
  {
    var d := n % 16;
    assert S.Digit(HexChar(d)) == Some(d);
    if n < 16 {
      assert PrintHex(n) == [] + [HexChar(n)];
      S.HexEmpty();
      S.HexGrows([], HexChar(n));
    } else {
      HexText(n / 16);
      S.HexGrows(PrintHex(n / 16), HexChar(d));
    }
  }
}
