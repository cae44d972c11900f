// What the documentation promises of string and character literals, case by case
// (the table at parse_string_literal in src/tokenizer.rs).

module StringLaws {
  import opened Options
  import opened StringLiteral
  import Tokens

  // ---- hexadecimal escapes ----

  lemma HexDigits(c: char, k: nat)
    ensures Digit(c) == Some(k) <==> k < 16 && (c == "0123456789abcdef"[k] || c == "0123456789ABCDEF"[k])
  {}

  predicate HasCode(c: char, n: nat) {
    c as int == n
  }

  // The numbers that are no characters are exactly those that the type of characters leaves out.
  lemma ScalarExactly(n: nat)
    ensures IsScalar(n) <==> exists c: char :: HasCode(c, n)
  {
    if IsScalar(n) { assert HasCode(n as char, n); }
  }

  // `\x` takes two digits, `\u` four, `\U` eight: they are the character of that code, or the literal
  // is malformed.
  lemma HexEscape(cfg: Config, k: char, digits: string, s: string, acc: string, col: nat)
    requires cfg.term == '"' && !cfg.verbatim && !cfg.interpolates
    requires (k == 'x' && |digits| == 2) || (k == 'u' && |digits| == 4) || (k == 'U' && |digits| == 8)
    ensures var o := Scan(cfg, "\\" + ([k] + (digits + s)), false, acc, col, 0);
      if AllHex(digits) && IsScalar(HexValue(digits)) then
        o == Scan(cfg, s, false, acc + [HexValue(digits) as char], col + 2 + |digits|, 0)
      else o == Malformed
  {
    var after := [k] + (digits + s);
    var t := "\\" + after;
    assert t[0] == '\\' && t[1..] == after && after[0] == k && after[1..] == digits + s;
    assert (digits + s)[..|digits|] == digits && (digits + s)[|digits|..] == s;
    hide AllHex, HexValue, IsScalar, Scan;
    EscapeStart(cfg, after, acc, col);
    EscapeNext(cfg, after, acc, col + 1);
  }

  // The digits of an escape are its value in the base of 16, the first one standing for the most.
  lemma HexPlaces(s: string, c: char, k: nat)
    requires AllHex(s) && k < 16 && (c == "0123456789abcdef"[k] || c == "0123456789ABCDEF"[k])
    ensures AllHex(s + [c]) && HexValue(s + [c]) == 16 * HexValue(s) + k
  {
    HexDigits(c, k);
    HexGrows(s, c);
  }

  lemma EscapeStart(cfg: Config, after: string, acc: string, col: nat)
    requires cfg.term == '"' && !cfg.verbatim && !cfg.interpolates
    ensures Scan(cfg, "\\" + after, false, acc, col, 0) == Scan(cfg, after, true, acc, col + 1, 0)
  {
    assert ("\\" + after)[1..] == after;
  }

  lemma EscapeNext(cfg: Config, after: string, acc: string, col: nat)
    requires cfg.term == '"' && !cfg.verbatim && !cfg.interpolates && after != []
    ensures Scan(cfg, after, true, acc, col, 0) == Take(cfg, after[0], after[1..], true, acc, col + 1, 0)
  {}

  // A backslash before any other character is an error.
  lemma UnknownEscape(cfg: Config, c: char, s: string, acc: string, col: nat)
    requires cfg.term == '"' && !cfg.verbatim && !cfg.interpolates
    requires c !in "rnt\\xuU\"\n" && c != '\r'
    ensures Scan(cfg, "\\" + ([c] + s), false, acc, col, 0) == Malformed
  {
    var after := [c] + s;
    assert after[0] == c && after[1..] == s;
    hide Scan;
    EscapeStart(cfg, after, acc, col);
    EscapeNext(cfg, after, acc, col + 1);
  }

  // ---- texts without escapes ----

  predicate IsPlain(cfg: Config, t: string) {
    forall c | c in t :: c != cfg.term && c != '\\' && c != '\n' && c != '\r' && c != '$'
  }

  // A text without quotes, escapes and line ends stands for itself.
  lemma {:induction false} PlainRead(cfg: Config, t: string, s: string, acc: string, col: nat)
    requires IsPlain(cfg, t)
    ensures Scan(cfg, t + s, false, acc, col, 0) == Scan(cfg, s, false, acc + t, col + |t|, 0)
    decreases |t|
  {
    if t == [] {
      assert t + s == s && acc + t == acc;
    } else {
      assert t[0] in t && (t + s)[0] == t[0] && (t + s)[1..] == t[1..] + s;
      assert forall c | c in t[1..] :: c in t;
      PlainRead(cfg, t[1..], s, acc + [t[0]], col + 1);
      assert acc + [t[0]] + t[1..] == acc + t;
    }
  }

  lemma PlainTo(cfg: Config, t: string, s: string, outcome: Outcome)
    requires IsPlain(cfg, t) && Scan(cfg, s, false, t, cfg.startCol + |t|, 0) == outcome
    ensures Scan(cfg, t + s, false, "", cfg.startCol, 0) == outcome
  {
    PlainRead(cfg, t, s, "", cfg.startCol);
    assert "" + t == t;
  }

  // "hello" is its text; "hello at the end of the line or of the input is an error; after a backslash
  // the input may end, and the text goes on with what comes next.
  lemma QuotedRows(startCol: nat, t: string, rest: string)
    requires IsPlain(DoubleQuoted(startCol), t)
    ensures var cfg := DoubleQuoted(startCol);
      && (!Starts(rest, '"') ==> Scan(cfg, t + ("\"" + rest), false, "", startCol, 0) == Closed(t, rest))
      && Scan(cfg, t + ("\n" + rest), false, "", startCol, 0) == Unterminated
      && Scan(cfg, t, false, "", startCol, 0) == Unterminated
      && Scan(cfg, t + "\\", false, "", startCol, 0) == Open(t)
  {
    var cfg := DoubleQuoted(startCol);
    hide IsPlain;
    assert ("\"" + rest)[1..] == rest && ("\n" + rest)[1..] == rest && t + [] == t && "\\"[1..] == [];
    PlainTo(cfg, t, [], Unterminated);
    PlainTo(cfg, t, "\n" + rest, Unterminated);
    if !Starts(rest, '"') { PlainTo(cfg, t, "\"" + rest, Closed(t, rest)); }
    assert Scan(cfg, "\\", false, t, startCol + |t|, 0) == Open(t) by {
      assert Scan(cfg, [], true, t, startCol + |t| + 1, 0) == Open(t);
    }
    PlainTo(cfg, t, "\\", Open(t));
  }

  // A text between back-ticks may go on over the end of the line and of the input; `${` interrupts it.
  lemma TickRows(startCol: nat, t: string, rest: string)
    requires IsPlain(BackTick(startCol), t)
    ensures var cfg := BackTick(startCol);
      && (!Starts(rest, '`') ==> Scan(cfg, t + ("`" + rest), false, "", startCol, 0) == Closed(t, rest))
      && Scan(cfg, t, false, "", startCol, 0) == Open(t)
      && Scan(cfg, t + "\n", false, "", startCol, 0) == Open(t + "\n")
      && Scan(cfg, t + ("$" + ("{" + rest)), false, "", startCol, 0) == Interpolated(t, "{" + rest)
  {
    var cfg := BackTick(startCol);
    hide IsPlain;
    assert ("`" + rest)[1..] == rest && ("$" + ("{" + rest))[1..] == "{" + rest && t + [] == t && "\n"[1..] == [];
    PlainTo(cfg, t, [], Open(t));
    if !Starts(rest, '`') { PlainTo(cfg, t, "`" + rest, Closed(t, rest)); }
    PlainTo(cfg, t, "$" + ("{" + rest), Interpolated(t, "{" + rest));
    assert Scan(cfg, "\n", false, t, startCol + |t|, 0) == Open(t + "\n") by {
      assert Scan(cfg, [], false, t + ['\n'], 0, 0) == Open(t + "\n");
    }
    PlainTo(cfg, t, "\n", Open(t + "\n"));
  }

  // ---- line continuation ----

  predicate Blank(s: string) {
    forall c | c in s :: c == ' ' || c == '\t'
  }

  // On a continued line white space is dropped up to the column of the opening quote.
  lemma {:induction false} BlanksDropped(cfg: Config, blanks: string, s: string, acc: string, col: nat, skip: nat)
    requires cfg.term == '"' && !cfg.interpolates && Blank(blanks) && col + |blanks| < skip
    ensures Scan(cfg, blanks + s, false, acc, col, skip) == Scan(cfg, s, false, acc, col + |blanks|, skip)
    decreases |blanks|
  {
    if blanks == [] {
      assert blanks + s == s;
    } else {
      assert blanks[0] in blanks && (blanks + s)[0] == blanks[0] && (blanks + s)[1..] == blanks[1..] + s;
      assert forall c | c in blanks[1..] :: c in blanks;
      BlanksDropped(cfg, blanks[1..], s, acc, col + 1, skip);
    }
  }

  // The first character that is kept ends the dropping.
  lemma FirstKept(cfg: Config, s: string, acc: string, col: nat, skip: nat)
    requires cfg.term == '"' && !cfg.interpolates && s != [] && IsPlain(cfg, [s[0]])
    requires !IsWhitespace(s[0]) || col + 1 >= skip
    ensures Scan(cfg, s, false, acc, col, skip) == Scan(cfg, s, false, acc, col, 0)
  {
    assert s[0] in [s[0]];
    hide IsWhitespace;
  }

  lemma Continued(startCol: nat, s: string, acc: string, col: nat)
    ensures var cfg := DoubleQuoted(startCol);
      Scan(cfg, "\\" + ("\n" + s), false, acc, col, 0) == Scan(cfg, s, false, acc, 0, startCol + 1)
  {
    hide Scan;
    EscapeStart(DoubleQuoted(startCol), "\n" + s, acc, col);
    EscapeNext(DoubleQuoted(startCol), "\n" + s, acc, col + 1);
    assert ("\n" + s)[1..] == s;
  }

  // A text that is continued on the next line, whose indentation is at most that of the opening quote.
  lemma ContinuedText(startCol: nat, t: string, blanks: string, u: string, rest: string)
    requires var cfg := DoubleQuoted(startCol); IsPlain(cfg, t) && IsPlain(cfg, u) && Blank(blanks)
    requires |blanks| == startCol || (|blanks| < startCol && (u != [] ==> !IsWhitespace(u[0])))
    requires !Starts(rest, '"')
    ensures Scan(DoubleQuoted(startCol), t + ("\\" + ("\n" + (blanks + (u + ("\"" + rest))))), false, "", startCol, 0)
         == Closed(t + u, rest)
  {
    var cfg := DoubleQuoted(startCol);
    var last := "\"" + rest;
    var after := u + last;
    hide Scan, IsWhitespace, IsPlain, Blank;
    PlainRead(cfg, t, "\\" + ("\n" + (blanks + after)), "", startCol);
    assert "" + t == t;
    Continued(startCol, blanks + after, t, startCol + |t|);
    BlanksDropped(cfg, blanks, after, t, 0, startCol + 1);
    QuoteCloses(cfg, rest, t, |blanks|, startCol + 1);
    QuoteCloses(cfg, rest, t + u, |blanks| + |u|, 0);
    if u == [] {
      assert after == last && t + u == t;
    } else {
      assert after[0] == u[0];
      PlainFirst(cfg, u);
      FirstKept(cfg, after, t, |blanks|, startCol + 1);
      PlainRead(cfg, u, last, t, |blanks|);
    }
  }

  lemma PlainFirst(cfg: Config, u: string)
    requires IsPlain(cfg, u) && u != []
    ensures IsPlain(cfg, [u[0]])
  {
    assert u[0] in u;
  }

  lemma QuoteCloses(cfg: Config, rest: string, acc: string, col: nat, skip: nat)
    requires cfg.term == '"' && !cfg.interpolates && !Starts(rest, '"')
    ensures Scan(cfg, "\"" + rest, false, acc, col, skip) == Closed(acc, rest)
  {
    assert ("\"" + rest)[1..] == rest;
  }

  // ---- characters ----

  // One character between quotes is that character, none and two are an error.
  lemma CharacterRead(column: nat, t: string, rest: string)
    requires IsPlain(Tokens.CharConfig(column), t) && !Starts(rest, '\'')
    ensures Tokens.ReadChar(column, t + ("'" + rest))
         == if |t| == 1 then Tokens.Read(Tokens.TChar(t[0]), None, rest) else Tokens.Faulty
  {
    var cfg := Tokens.CharConfig(column);
    var s := t + ("'" + rest);
    assert ("'" + rest)[1..] == rest;
    if t == [] {
      assert s[0] == '\'';
    } else {
      assert t[0] in t && s[0] == t[0];
      hide IsPlain;
      PlainTo(cfg, t, "'" + rest, Closed(t, rest));
    }
  }
}
