// String literals (parse_string_literal in src/tokenizer.rs): escapes, doubled quotes, line
// continuation, and back-tick texts with interpolation.

module StringLiteral {
  import opened Options
  import opened CharStream

  // How a literal is read: its quote, whether it is verbatim, whether a line may be continued,
  // whether `${` interrupts it, and the column it starts at.
  datatype Config = Config(term: char, verbatim: bool, continues: bool, interpolates: bool, startCol: nat)

  datatype Outcome =
    | Closed(text: string, rest: string)
    | Interpolated(text: string, rest: string)
    | Open(text: string)                   // the input ends inside the text
    | Unterminated
    | Malformed

  function DoubleQuoted(startCol: nat): Config {
    Config('"', false, true, false, startCol)
  }

  function BackTick(startCol: nat): Config {
    Config('`', true, false, true, startCol)
  }

  predicate Starts(s: string, c: char) {
    s != [] && s[0] == c
  }

  predicate IsWhitespace(c: char) {
    var n := c as int;
    9 <= n <= 13 || n == 0x20 || n == 0x85 || n == 0xA0 || n == 0x1680 || 0x2000 <= n <= 0x200A ||
    n == 0x2028 || n == 0x2029 || n == 0x202F || n == 0x205F || n == 0x3000
  }

  // ---- hexadecimal digits ----

  function Digit(c: char): Option<nat> {
    if '0' <= c <= '9' then Some(c as int - '0' as int)
    else if 'a' <= c <= 'f' then Some(c as int - 'a' as int + 10)
    else if 'A' <= c <= 'F' then Some(c as int - 'A' as int + 10)
    else None
  }

  predicate AllHex(s: string) {
    forall c | c in s :: Digit(c).Some?
  }

  function HexValue(s: string): nat
    requires AllHex(s)
  {
    if s == [] then 0
    else
      assert s[|s| - 1] in s;
      HexValue(s[..|s| - 1]) * 16 + Digit(s[|s| - 1]).value
  }

  function HexLength(k: char): nat {
    if k == 'x' then 2 else if k == 'u' then 4 else 8
  }

  // char::from_u32
  predicate IsScalar(n: nat) {
    n < 0xD800 || 0xE000 <= n < 0x11_0000
  }

  // ---- what a literal means ----

  // From the character at the front of `s`; `esc` says that a backslash stands before it.
  function Scan(cfg: Config, s: string, esc: bool, acc: string, col: nat, skip: nat): Outcome
    decreases |s|, 0
  {
    if s == [] then (if cfg.verbatim || (cfg.continues && esc) then Open(acc) else Unterminated)
    else
      var c, rest := s[0], s[1..];
      if cfg.interpolates && !esc && c == '$' && Starts(rest, '{') then Interpolated(acc, rest)
      else if cfg.interpolates && !esc && c == '\\' && Starts(rest, '$') && Starts(rest[1..], '{') then
        // an escaped interpolation
        Take(cfg, '$', rest[1..], esc, acc, col + 1, skip)
      else if c == cfg.term && !esc then
        if Starts(rest, cfg.term) then Take(cfg, c, rest[1..], esc, acc, col + 2, skip)
        else Closed(acc, rest)
      else Take(cfg, c, rest, esc, acc, col + 1, skip)
  }

  // The character `c` belongs to the text, with `s` after it.
  function Take(cfg: Config, c: char, s: string, esc: bool, acc: string, col: nat, skip: nat): Outcome
    decreases |s|, 1
  {
    if c == '\r' && Starts(s, '\n') then Scan(cfg, s, esc, acc, col, skip)
    else if c == 'r' && esc then Scan(cfg, s, false, acc + ['\r'], col, skip)
    else if c == 'n' && esc then Scan(cfg, s, false, acc + ['\n'], col, skip)
    else if c == '\\' && !cfg.verbatim && !esc then Scan(cfg, s, true, acc, col, skip)
    else if c == '\\' && esc then Scan(cfg, s, false, acc + ['\\'], col, skip)
    else if c == 't' && esc then Scan(cfg, s, false, acc + ['\t'], col, skip)
    else if c in {'x', 'u', 'U'} && esc then
      var n := HexLength(c);
      if |s| < n || !AllHex(s[..n]) || !IsScalar(HexValue(s[..n])) then Malformed
      else Scan(cfg, s[n..], false, acc + [HexValue(s[..n]) as char], col + n, skip)
    else if c == '\n' && cfg.verbatim then Scan(cfg, s, esc, acc + ['\n'], 0, skip)
    else if c == '\n' && cfg.continues && esc then Scan(cfg, s, false, acc, 0, cfg.startCol + 1)
    else if c == '\n' then Unterminated
    else if c == cfg.term && esc then Scan(cfg, s, false, acc + [c], col, skip)
    else if esc then Malformed
    else if IsWhitespace(c) && col < skip then Scan(cfg, s, esc, acc, col, skip)
    else Scan(cfg, s, false, acc + [c], col, 0)
  }

  // A text that is ended, or interrupted, takes at least one character.
  lemma {:induction false} ScanShorter(cfg: Config, s: string, esc: bool, acc: string, col: nat, skip: nat)
    ensures var o := Scan(cfg, s, esc, acc, col, skip);
      o.Closed? || o.Interpolated? ==> |o.rest| < |s|
    decreases |s|, 0
  {
    hide Take;
    if s != [] {
      var c, rest := s[0], s[1..];
      TakeShorter(cfg, c, rest, esc, acc, col + 1, skip);
      if rest != [] {
        TakeShorter(cfg, c, rest[1..], esc, acc, col + 2, skip);
        TakeShorter(cfg, '$', rest[1..], esc, acc, col + 1, skip);
      }
    }
  }

  lemma {:induction false} TakeShorter(cfg: Config, c: char, s: string, esc: bool, acc: string, col: nat, skip: nat)
    ensures var o := Take(cfg, c, s, esc, acc, col, skip);
      o.Closed? || o.Interpolated? ==> |o.rest| < |s|
    decreases |s|, 1
  {
    hide Scan, AllHex, HexValue;
    forall e: bool, a: string, k: nat, w: nat
      ensures var o := Scan(cfg, s, e, a, k, w); o.Closed? || o.Interpolated? ==> |o.rest| < |s|
    {
      ScanShorter(cfg, s, e, a, k, w);
    }
    var n := HexLength(c);
    if c in {'x', 'u', 'U'} && n <= |s| && AllHex(s[..n]) && IsScalar(HexValue(s[..n])) {
      ScanShorter(cfg, s[n..], false, acc + [HexValue(s[..n]) as char], col + n, skip);
    }
  }

  // ---- the scanner ----

  datatype End = AtQuote | AtInterpolation | AtEnd | NoEnd | BadEscape

  predicate Ends(o: Outcome, end: End, text: string, rest: string) {
    match end
    case AtQuote => o == Closed(text, rest)
    case AtInterpolation => o == Interpolated(text, rest)
    case AtEnd => o == Open(text) && rest == []
    case NoEnd => o == Unterminated
    case BadEscape => o == Malformed
  }

  lemma HexGrows(s: string, c: char)
    requires AllHex(s) && Digit(c).Some?
    ensures AllHex(s + [c]) && HexValue(s + [c]) == HexValue(s) * 16 + Digit(c).value
  {
    assert (s + [c])[..|s|] == s;
  }

  function Pow16(n: nat): nat {
    if n == 0 then 1 else 16 * Pow16(n - 1)
  }

  // The accumulator of a hexadecimal escape fits in 32 bits.
  lemma {:induction false} HexFits(s: string)
    requires AllHex(s)
    ensures HexValue(s) < Pow16(|s|)
    ensures |s| <= 8 ==> HexValue(s) <= 0xFFFF_FFFF
  {
    if s != [] {
      var t := s[..|s| - 1];
      assert s[|s| - 1] in s;
      HexFits(t);
    }
    if |s| <= 8 { SmallPowers(|s|); }
  }

  lemma {:induction false} SmallPowers(n: nat)
    requires n <= 8
    ensures Pow16(n) <= 0x1_0000_0000
  {
    assert Pow16(8) == 16 * 16 * 16 * 16 * 16 * 16 * 16 * 16;
    PowGrows(n, 8);
  }

  lemma {:induction false} PowGrows(m: nat, n: nat)
    requires m <= n
    ensures Pow16(m) <= Pow16(n)
    decreases n
  {
    if m < n { PowGrows(m, n - 1); }
  }

  lemma HexEmpty()
    ensures AllHex([]) && HexValue([]) == 0
  {
  }

  lemma NotHex(s: string, len: nat, i: nat)
    requires i < len && i < |s| && Digit(s[i]) == None
    ensures |s| >= len ==> !AllHex(s[..len])
  {
    if |s| >= len { assert s[..len][i] in s[..len]; }
  }

  // The digits of an escape; None if one of them is none.
  method ScanHex(stream: MultiInputsStream, len: nat) returns (r: Option<nat>)
    requires stream.Valid() && len <= 8
    modifies stream
    ensures stream.Valid() && (old(stream.Calm()) ==> stream.Calm()) && |stream.Rest()| <= |old(stream.Rest())|
    ensures var s := old(stream.Rest());
      if |s| >= len && AllHex(s[..len]) then r == Some(HexValue(s[..len])) && stream.Rest() == s[len..] else r == None
  {
    hide stream.Calm, stream.Buffered, stream.Rest, HexValue, AllHex;
    ghost var s := stream.Rest();
    var outVal := 0;
    HexEmpty();
    var i := 0;
    assert s[0..] == s && s[..0] == [];
    while i < len
      invariant i <= len && i <= |s| && stream.Valid() && stream.Rest() == s[i..]
      invariant AllHex(s[..i]) && outVal == HexValue(s[..i])
      invariant old(stream.Calm()) ==> stream.Calm()
    {
      var c := stream.GetNext();
      if c == None { return None; }
      assert c.value == s[i] && s[i..][1..] == s[i + 1..];
      var d := Digit(c.value);
      if d == None {
        NotHex(s, len, i);
        return None;
      }
      HexGrows(s[..i], s[i]);
      assert s[..i + 1] == s[..i] + [s[i]];
      HexFits(s[..i + 1]);
      // neither step leaves 32 bits
      assert outVal * 16 <= outVal * 16 + d.value <= 0xFFFF_FFFF;
      outVal := outVal * 16;
      outVal := outVal + d.value;
      i := i + 1;
    }
    r := Some(outVal);
  }

  method ScanString(stream: MultiInputsStream, cfg: Config) returns (end: End, result: string)
    requires stream.Valid() && stream.Calm() && !IsReturnable(cfg.term)
    modifies stream
    ensures stream.Valid() && stream.Calm()
    ensures Ends(Scan(cfg, old(stream.Rest()), false, "", cfg.startCol, 0), end, result, stream.Rest())
  {
    hide HexValue, AllHex, IsWhitespace, Take, stream.Calm, stream.Buffered, stream.Rest;
    result := "";
    var escape := false;
    var col, skip := cfg.startCol, 0;
    ghost var goal := Scan(cfg, stream.Rest(), false, "", cfg.startCol, 0);
    while true
      invariant stream.Valid() && stream.Calm()
      invariant Scan(cfg, stream.Rest(), escape, result, col, skip) == goal
      decreases |stream.Rest()|
    {
      var next := stream.GetNext();
      if next == None {
        return if cfg.verbatim || (cfg.continues && escape) then AtEnd else NoEnd, result;
      }
      var c := next.value;
      col := col + 1;
      if cfg.interpolates && !escape {
        var peek := stream.PeekNext();
        if c == '$' && peek == Some('{') { return AtInterpolation, result; }
        if c == '\\' && peek == Some('$') {
          ghost var here := stream.Rest();
          var _ := stream.GetNext();
          var third := stream.PeekNext();
          if third == Some('{') {
            c := '$';
          } else {
            stream.Unget('$');
            assert stream.Rest() == here;
          }
        }
      }
      if c == cfg.term && !escape {
        var peek := stream.PeekNext();
        if peek != Some(cfg.term) { return AtQuote, result; }
        var _ := stream.GetNext();
        col := col + 1;
      }
      var over;
      over, end, escape, result, col, skip := TakeChar(stream, cfg, c, escape, result, col, skip, goal);
      if over { return; }
    }
  }

  // What a character of the text does.
  method TakeChar(stream: MultiInputsStream, cfg: Config, c: char, esc: bool, acc: string, col: nat, skip: nat,
                  ghost goal: Outcome)
      returns (over: bool, end: End, escape: bool, result: string, col': nat, skip': nat)
    requires stream.Valid() && stream.Calm() && Take(cfg, c, stream.Rest(), esc, acc, col, skip) == goal
    modifies stream
    ensures stream.Valid() && stream.Calm() && |stream.Rest()| <= |old(stream.Rest())|
    ensures over ==> Ends(goal, end, result, stream.Rest())
    ensures !over ==> Scan(cfg, stream.Rest(), escape, result, col', skip') == goal
  {
    hide Scan, HexValue, AllHex, stream.Calm, stream.Buffered, stream.Rest;
    over, end, escape, result, col', skip' := false, NoEnd, esc, acc, col, skip;
    var peek := stream.PeekNext();
    if c == '\r' && peek == Some('\n') {
      return;
    } else if c == 'r' && esc {
      escape, result := false, acc + ['\r'];
    } else if c == 'n' && esc {
      escape, result := false, acc + ['\n'];
    } else if c == '\\' && !cfg.verbatim && !esc {
      escape := true;
    } else if c == '\\' && esc {
      escape, result := false, acc + ['\\'];
    } else if c == 't' && esc {
      escape, result := false, acc + ['\t'];
    } else if c in {'x', 'u', 'U'} && esc {
      var v := ScanHex(stream, HexLength(c));
      if v == None || !IsScalar(v.value) { return true, BadEscape, esc, acc, col, skip; }
      escape, result, col' := false, acc + [v.value as char], col + HexLength(c);
    } else if c == '\n' && cfg.verbatim {
      result, col' := acc + ['\n'], 0;
    } else if c == '\n' && cfg.continues && esc {
      escape, col', skip' := false, 0, cfg.startCol + 1;
    } else if c == '\n' {
      over := true;
    } else if c == cfg.term && esc {
      escape, result := false, acc + [c];
    } else if esc {
      over, end := true, BadEscape;
    } else if IsWhitespace(c) && col < skip {
      return;
    } else {
      escape, result, skip' := false, acc + [c], 0;
    }
  }

  // ---- writing a text between double quotes ----

  // The ways to write one character.
  predicate Spells(e: string, c: char) {
    (e == [c] && c != '"' && c != '\\' && c != '\n') ||
    (c == '"' && (e == "\"\"" || e == "\\\"")) ||
    (c == '\\' && e == "\\\\") || (c == '\n' && e == "\\n") || (c == '\r' && e == "\\r") || (c == '\t' && e == "\\t") ||
    SpellsHex(e, c)
  }

  predicate SpellsHex(e: string, c: char) {
    |e| >= 2 && e[0] == '\\' && e[1] in {'x', 'u', 'U'} && |e| == 2 + HexLength(e[1]) && AllHex(e[2..]) &&
    HexValue(e[2..]) == c as int
  }

  lemma ScalarChar(c: char)
    ensures IsScalar(c as int)
  {
  }

  // A spelling is read as its character, whatever follows.
  lemma SpellingRead(cfg: Config, e: string, c: char, s: string, acc: string, col: nat)
    requires cfg.term == '"' && !cfg.verbatim && !cfg.interpolates && Spells(e, c) && !Starts(s, '\n')
    ensures exists col' :: Scan(cfg, e + s, false, acc, col, 0) == Scan(cfg, s, false, acc + [c], col', 0)
  {
    var t := e + s;
    if e == [c] && c != '"' && c != '\\' && c != '\n' {
      assert t[1..] == s;
      assert Scan(cfg, t, false, acc, col, 0) == Scan(cfg, s, false, acc + [c], col + 1, 0);
    } else if e == "\"\"" {
      assert t[1..] == ['"'] + s && t[1..][1..] == s;
      assert Scan(cfg, t, false, acc, col, 0) == Scan(cfg, s, false, acc + [c], col + 2, 0);
    } else if SpellsHex(e, c) {
      HexRead(cfg, e, c, s, acc, col);
    } else {
      assert t[1..] == [e[1]] + s && t[1..][1..] == s;
      assert Scan(cfg, t, false, acc, col, 0) == Scan(cfg, t[1..], true, acc, col + 1, 0);
      assert Scan(cfg, t[1..], true, acc, col + 1, 0) == Scan(cfg, s, false, acc + [c], col + 2, 0);
    }
  }

  lemma HexRead(cfg: Config, e: string, c: char, s: string, acc: string, col: nat)
    requires cfg.term == '"' && !cfg.verbatim && !cfg.interpolates && SpellsHex(e, c)
    ensures exists col' :: Scan(cfg, e + s, false, acc, col, 0) == Scan(cfg, s, false, acc + [c], col', 0)
  {
    var t, n := e + s, HexLength(e[1]);
    assert t[1..] == [e[1]] + (e[2..] + s) && t[1..][1..] == e[2..] + s;
    assert (e[2..] + s)[..n] == e[2..] && (e[2..] + s)[n..] == s;
    ScalarChar(c);
    assert Scan(cfg, t, false, acc, col, 0) == Scan(cfg, t[1..], true, acc, col + 1, 0);
    assert Scan(cfg, t[1..], true, acc, col + 1, 0) == Scan(cfg, s, false, acc + [c], col + 2 + n, 0);
  }

  predicate SpellsAll(es: seq<string>, text: string) {
    |es| == |text| && forall i | 0 <= i < |text| :: Spells(es[i], text[i])
  }

  // Any text, however its characters are written, is read back.
  lemma {:induction false} QuotedRoundTrip(cfg: Config, es: seq<string>, text: string, rest: string, acc: string, col: nat)
    requires cfg.term == '"' && !cfg.verbatim && !cfg.interpolates && SpellsAll(es, text) && !Starts(rest, '"')
    ensures Scan(cfg, Concat(es) + ['"'] + rest, false, acc, col, 0) == Closed(acc + text, rest)
    decreases |es|
  {
    if es == [] {
      assert Concat(es) + ['"'] + rest == ['"'] + rest;
      assert acc + text == acc;
    } else {
      var s := Concat(es[1..]) + ['"'] + rest;
      assert Concat(es) + ['"'] + rest == es[0] + s;
      assert SpellsAll(es[1..], text[1..]);
      SpelledStart(es[1..], text[1..], rest);
      SpellingRead(cfg, es[0], text[0], s, acc, col);
      var col' :| Scan(cfg, es[0] + s, false, acc, col, 0) == Scan(cfg, s, false, acc + [text[0]], col', 0);
      QuotedRoundTrip(cfg, es[1..], text[1..], rest, acc + [text[0]], col');
      assert acc + [text[0]] + text[1..] == acc + text;
    }
  }

  lemma SpelledStart(es: seq<string>, text: string, rest: string)
    requires SpellsAll(es, text)
    ensures !Starts(Concat(es) + ['"'] + rest, '\n')
  {
    if es != [] {
      assert Spells(es[0], text[0]);
      assert (Concat(es) + ['"'] + rest)[0] == es[0][0];
    }
  }

  // One way to write every character (as `escape_debug` does for the common ones).
  function Escaped(c: char): (e: string)
    ensures Spells(e, c)
  {
    if c == '"' then "\\\""
    else if c == '\\' then "\\\\"
    else if c == '\n' then "\\n"
    else if c == '\r' then "\\r"
    else if c == '\t' then "\\t"
    else [c]
  }

  // ---- writing a text between back-ticks ----

  // What the scanner does to a text: a CR before an LF disappears.
  function DropCr(s: string): string {
    if s == [] then []
    else if s[0] == '\r' && Starts(s[1..], '\n') then DropCr(s[1..])
    else [s[0]] + DropCr(s[1..])
  }

  predicate HasCrLf(s: string) {
    exists i :: 0 <= i < |s| - 1 && s[i] == '\r' && s[i + 1] == '\n'
  }

  lemma {:induction false} DropCrIff(s: string)
    ensures |DropCr(s)| <= |s|
    ensures DropCr(s) == s <==> !HasCrLf(s)
  {
    if s != [] {
      DropCrIff(s[1..]);
      if s[0] == '\r' && Starts(s[1..], '\n') {
        assert s[0] == '\r' && s[0 + 1] == '\n';
        assert HasCrLf(s);
      } else if HasCrLf(s) {
        var i :| 0 <= i < |s| - 1 && s[i] == '\r' && s[i + 1] == '\n';
        assert s[1..][i - 1] == '\r' && s[1..][i - 1 + 1] == '\n';
      } else {
        forall i | 0 <= i < |s[1..]| - 1
          ensures !(s[1..][i] == '\r' && s[1..][i + 1] == '\n')
        {
          assert !(s[i + 1] == '\r' && s[i + 1 + 1] == '\n');
        }
        assert [s[0]] + s[1..] == s;
      }
    }
  }

  // Back-ticks are doubled, and the `$` of `${` gets a backslash.
  function Ticked(s: string): string {
    if s == [] then []
    else if s[0] == '`' then "``" + Ticked(s[1..])
    else if s[0] == '$' && Starts(s[1..], '{') then "\\$" + Ticked(s[1..])
    else [s[0]] + Ticked(s[1..])
  }

  // The first line end after the opening back-tick is not part of the text.
  function SkipLineEnd(s: string): string {
    if Starts(s, '\r') then (if Starts(s[1..], '\n') then s[2..] else s[1..])
    else if Starts(s, '\n') then s[1..]
    else s
  }

  function TickLiteral(s: string): string {
    (if Starts(s, '\n') || Starts(s, '\r') then "\n" else "") + Ticked(s) + "`"
  }

  // What follows the opening back-tick.
  function ReadTick(s: string, startCol: nat): Outcome {
    Scan(BackTick(startCol), SkipLineEnd(s), false, "", startCol, 0)
  }

  // What may come after a text: the closing back-tick, or an interpolation.
  predicate EndsText(s: string, after: string) {
    || (Starts(after, '`') && !Starts(after[1..], '`'))
    || (Starts(after, '$') && Starts(after[1..], '{') && (s != [] ==> s[|s| - 1] != '\\'))
  }

  function Ended(text: string, after: string): Outcome
    requires after != []
  {
    if after[0] == '`' then Closed(text, after[1..]) else Interpolated(text, after[1..])
  }

  lemma TickedStart(s: string, after: string)
    requires EndsText(s, after)
    ensures var t := Ticked(s) + after;
      (Starts(t, '{') <==> Starts(s, '{')) && (Starts(t, '\n') <==> Starts(s, '\n')) &&
      (Starts(t, '\r') <==> Starts(s, '\r'))
    ensures Starts(Ticked(s) + after, '$') && s != [] ==> Starts(s, '$') && !Starts(s[1..], '{')
  {
    if s == [] { assert Ticked(s) + after == after; }
  }

  lemma {:induction false} TickedScan(s: string, after: string, acc: string, startCol: nat, col: nat)
    requires EndsText(s, after)
    ensures Scan(BackTick(startCol), Ticked(s) + after, false, acc, col, 0) == Ended(acc + DropCr(s), after)
    decreases |s|
  {
    var cfg, t := BackTick(startCol), Ticked(s) + after;
    if s == [] {
      assert t == after && acc + DropCr(s) == acc;
    } else {
      var u := Ticked(s[1..]) + after;
      TickedStart(s[1..], after);
      var c := s[0];
      if c == '`' {
        assert t[1..] == ['`'] + u && t[1..][1..] == u;
        TickedScan(s[1..], after, acc + [c], startCol, col + 2);
        assert Scan(cfg, t, false, acc, col, 0) == Scan(cfg, u, false, acc + [c], col + 2, 0);
      } else if c == '$' && Starts(s[1..], '{') {
        assert t[0] == '\\' && t[1..] == ['$'] + u && t[1..][1..] == u;
        TickedScan(s[1..], after, acc + [c], startCol, col + 1);
        assert Scan(cfg, t, false, acc, col, 0) == Scan(cfg, u, false, acc + [c], col + 1, 0);
      } else {
        assert t[0] == c && t[1..] == u;
        TickedPlain(s, after, acc, startCol, col);
      }
      assert acc + [c] + DropCr(s[1..]) == acc + ([c] + DropCr(s[1..]));
    }
  }

  // A character that is written as it is.
  lemma {:induction false} TickedPlain(s: string, after: string, acc: string, startCol: nat, col: nat)
    requires s != [] && s[0] != '`' && !(s[0] == '$' && Starts(s[1..], '{')) && EndsText(s, after)
    ensures Scan(BackTick(startCol), [s[0]] + (Ticked(s[1..]) + after), false, acc, col, 0) ==
      Ended(acc + DropCr(s), after)
    decreases |s|, 0
  {
    var cfg, c, u := BackTick(startCol), s[0], Ticked(s[1..]) + after;
    TickedStart(s[1..], after);
    assert ([c] + u)[1..] == u;
    if c == '\\' && Starts(u, '$') { DollarPlain(s[1..], after); }
    if c == '\r' && Starts(u, '\n') {
      TickedScan(s[1..], after, acc, startCol, col + 1);
    } else {
      TickedScan(s[1..], after, acc + [c], startCol, if c == '\n' then 0 else col + 1);
      assert acc + [c] + DropCr(s[1..]) == acc + ([c] + DropCr(s[1..]));
    }
  }

  // A dollar that is written as it is does not stand before a brace.
  lemma DollarPlain(s: string, after: string)
    requires EndsText(s, after) && Starts(Ticked(s) + after, '$') && s != []
    ensures !Starts((Ticked(s) + after)[1..], '{')
  {
    TickedStart(s, after);
    TickedStart(s[1..], after);
    assert (Ticked(s) + after)[1..] == Ticked(s[1..]) + after;
  }

  // A text is read back from between back-ticks if and only if no CR stands before an LF in it.
  lemma TickRoundTrip(s: string, rest: string, startCol: nat)
    requires !Starts(rest, '`')
    ensures ReadTick(TickLiteral(s) + rest, startCol) == Closed(DropCr(s), rest)
    ensures ReadTick(TickLiteral(s) + rest, startCol) == Closed(s, rest) <==> !HasCrLf(s)
  {
    var after := "`" + rest;
    var t := Ticked(s) + after;
    TickedStart(s, after);
    var line := Starts(s, '\n') || Starts(s, '\r');
    assert TickLiteral(s) + rest == if line then ['\n'] + t else t;
    assert SkipLineEnd(TickLiteral(s) + rest) == t;
    TickedScan(s, after, "", startCol, startCol);
    DropCrIff(s);
  }
}
