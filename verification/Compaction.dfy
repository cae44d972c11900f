// Script compaction (the tail of TokenIterator::next in src/tokenizer.rs): tokens are written one
// after the other, with a space only where the two characters at the boundary would be read together.

module Compaction {
  import opened Lexing

  // Is the pair a symbol of the language, or a reserved one (the tables of two-character symbols)?
  predicate InTables(a: char, b: char) {
    [a, b] in {
      ">=", "==", "<=", "<<", "*=", "+=", ">>", "=>", "/=", "**", "|=", "..", "?.", "||", "^=", "::", "-=", "()",
      "&=", "%=", "!=", "?[", "??", "&&", "#{",
      "#!", "!.", ":=", "<-", "--", "<|", "->", "|>", "++", ":;", "*)", "(*"}
  }

  predicate NeedSpace(prev: char, cur: char) {
    if IsIdContinue(prev) && IsIdContinue(cur) then true else InTables(prev, cur)
  }

  // ---- tokens ----

  predicate IsWord(t: string) {
    t != [] && IsIdStart(t[0]) && forall c | c in t :: IsIdContinue(c)
  }

  // Every symbol, also the reserved ones, except those with a hash that are no map literal.
  predicate IsSymbol(t: string) {
    (|t| == 1 && t[0] in ONE) || (|t| == 2 && Two(t[0], t[1])) ||
    (|t| == 3 && ((Two(t[0], t[1]) && Three(t[0], t[1], t[2])) || t == "!in"))
  }

  predicate IsToken(t: string) {
    IsWord(t) || IsSymbol(t)
  }

  type TokenText = t: string | IsToken(t) witness "x"

  function First(t: TokenText): char {
    t[0]
  }

  function Last(t: TokenText): char {
    t[|t| - 1]
  }

  function Separator(a: TokenText, b: TokenText): string {
    if NeedSpace(Last(a), First(b)) then " " else ""
  }

  function Join(ts: seq<TokenText>): string {
    if ts == [] then []
    else if |ts| == 1 then ts[0]
    else ts[0] + (Separator(ts[0], ts[1]) + Join(ts[1..]))
  }

  lemma NonEmpty(t: TokenText)
    ensures t != []
  {
  }

  lemma {:induction false} JoinEnds(ts: seq<TokenText>)
    requires ts != []
    ensures Join(ts) != [] && Join(ts)[0] == First(ts[0]) && Join(ts)[|Join(ts)| - 1] == Last(ts[|ts| - 1])
  {
    NonEmpty(ts[0]);
    NonEmpty(ts[|ts| - 1]);
    hide IsToken, Separator;
    if |ts| > 1 {
      var rest := ts[1..];
      JoinEnds(rest);
      assert rest[|rest| - 1] == ts[|ts| - 1];
      var tail := Separator(ts[0], ts[1]) + Join(rest);
      assert tail[|tail| - 1] == Join(rest)[|Join(rest)| - 1];
      assert Join(ts) == ts[0] + tail;
    }
  }

  lemma {:induction false} JoinAppend(ts: seq<TokenText>, t: TokenText)
    ensures Join(ts + [t]) == if ts == [] then t else Join(ts) + (Separator(ts[|ts| - 1], t) + t)
  {
    hide IsToken, Separator;
    var all := ts + [t];
    if |ts| == 0 {
      assert all == [t];
    } else if |ts| == 1 {
      assert all == [ts[0], t] && all[1..] == [t];
    } else {
      assert all[1..] == ts[1..] + [t];
      JoinAppend(ts[1..], t);
      var a, b, c := Separator(ts[0], ts[1]), Join(ts[1..]), Separator(ts[|ts| - 1], t) + t;
      assert Join(all) == ts[0] + (a + (b + c));
      assert ts[0] + (a + (b + c)) == ts[0] + (a + b) + c;
    }
  }

  // The compactor: appends to what has been written so far.
  method Compact(ts: seq<TokenText>) returns (compressed: string)
    ensures compressed == Join(ts)
  {
    hide IsToken, Join, NeedSpace;
    compressed := "";
    JoinEmpty();
    var i := 0;
    while i < |ts|
      invariant 0 <= i <= |ts| && compressed == Join(ts[..i])
    {
      var buf := ts[i];
      NonEmpty(buf);
      assert ts[..i + 1] == ts[..i] + [ts[i]];
      JoinAppend(ts[..i], ts[i]);
      if i > 0 { JoinEnds(ts[..i]); }
      if compressed != [] && NeedSpace(compressed[|compressed| - 1], buf[0]) {
        compressed := compressed + " " + buf;
      } else {
        compressed := compressed + buf;
      }
      i := i + 1;
    }
    assert ts[..i] == ts;
  }

  lemma JoinEmpty()
    ensures Join([]) == []
  {
  }

  // ---- when it reads back ----

  // Pairs of tokens that are read differently when written together, although no table has the two
  // characters at their boundary.
  predicate Clash(a: TokenText, b: TokenText) {
    (a == "/" && (First(b) == '/' || First(b) == '*')) || (a == "::" && First(b) == '<') ||
    (a == ".." && First(b) == '=') || (a == "!" && b == "in")
  }

  predicate NoClash(ts: seq<TokenText>) {
    forall i | 0 <= i < |ts| - 1 :: !Clash(ts[i], ts[i + 1])
  }

  // The two tables agree, except for comments.
  lemma TablesAgree(a: char, b: char)
    requires a != '#'
    ensures InTables(a, b) <==> Two(a, b)
  {
    if InTables(a, b) { assert [a, b][0] == a && [a, b][1] == b; }
    if Two(a, b) { assert [a, b] == [a] + [b]; }
  }

  // ---- reading one token ----

  // What comes right after a token when it is followed by a space, by another token, or by nothing.
  predicate Apart(a: TokenText, s: string) {
    if IsWord(a) then s == [] || !IsIdContinue(s[0])
    else
      (a == "!in" ==> s == [] || !IsIdContinue(s[0])) && (a == "!" ==> !(IsNotIn(a + s))) &&
      (|a| == 1 && s != [] ==> !Two(a[0], s[0])) && (|a| == 2 && s != [] ==> !Three(a[0], a[1], s[0])) &&
      (a == "/" && s != [] ==> s[0] != '/' && s[0] != '*') && (a == "-" && s != [] ==> !IsDigit(s[0]))
  }

  lemma SymbolIs(a: TokenText, s: string)
    requires IsSymbol(a) && Apart(a, s)
    ensures SymbolLength(a + s) == |a|
  {
    var t := a + s;
    assert t[0] == a[0];
    if a == "!in" {
      assert t[..3] == "!in";
      assert !Two('!', 'i');
    } else if |a| == 1 {
      if s != [] { assert t[1] == s[0]; }
      if t[0] == '!' { assert a == "!"; }
    } else if |a| == 2 {
      assert t[1] == a[1];
      if s != [] { assert t[2] == s[0]; }
    } else {
      assert t[1] == a[1] && t[2] == a[2];
    }
  }

  lemma TokenRead(a: TokenText, s: string)
    requires Apart(a, s)
    ensures NextText(a + s) == Text(a, s)
  {
    var t := a + s;
    assert t[0] == a[0];
    if IsWord(a) {
      WordIs(a, s);
    } else {
      SymbolIs(a, s);
      SymbolStart(a);
      if |a| >= 2 { assert CharAt(t, 1) == a[1]; } else if s != [] { assert CharAt(t, 1) == s[0]; }
    }
    assert t[..|a|] == a && t[|a|..] == s;
  }

  lemma SymbolStart(a: TokenText)
    requires IsSymbol(a)
    ensures !IsIdStart(a[0]) && !IsSpace(a[0]) && (a[0] in ONE || (a[0] == '#' && |a| == 2 && a[1] == '{'))
    ensures a[0] == '/' ==> a == "/" || a == "/="
    ensures a[0] == '-' ==> |a| == 1 || (a[1] != '/' && !IsDigit(a[1]))
  {
  }

  // ---- reading the whole script ----

  // What follows the first token.
  function Tail(ts: seq<TokenText>): string
    requires ts != []
  {
    if |ts| == 1 then "" else Separator(ts[0], ts[1]) + Join(ts[1..])
  }

  lemma JoinTail(ts: seq<TokenText>)
    requires ts != []
    ensures Join(ts) == ts[0] + Tail(ts)
  {
    if |ts| == 1 { assert ts[0] + "" == ts[0]; }
  }

  lemma TailStart(ts: seq<TokenText>)
    requires |ts| >= 2
    ensures Tail(ts) != []
    ensures Tail(ts)[0] == if NeedSpace(Last(ts[0]), First(ts[1])) then ' ' else First(ts[1])
  {
    hide IsToken, NeedSpace;
    JoinEnds(ts[1..]);
  }

  lemma SpaceApart(a: char, b: char)
    ensures !IsIdContinue(' ') && !Two(a, ' ') && !Three(a, b, ' ')
  {
  }

  lemma ThreeApart(a: TokenText, c: char)
    requires |a| == 2 && IsSymbol(a) && Three(a[0], a[1], c)
    ensures InTables(a[1], c) || (a == "::" && c == '<') || (a == ".." && c == '=')
  {
    if a[0] == ':' { assert a == "::"; }
    if a[0] == '.' {
      assert a == "..";
      if c == '.' { assert ['.', '.'] == ".."; }
    }
    if a[0] == '=' || a[0] == '!' { assert ['=', '='] == "=="; }
    if a[0] == '<' { assert ['<', '='] == "<="; }
    if a[0] == '>' { assert ['>', '='] == ">="; }
    if a[0] == '*' { assert ['*', '='] == "*="; }
  }

  lemma FirstOf(b: TokenText)
    ensures !IsDigit(First(b)) && (IsIdContinue(First(b)) <==> IsWord(b))
  {
    if IsWord(b) { assert b[0] in b; }
  }

  lemma LastOf(a: TokenText)
    ensures IsIdContinue(Last(a)) <==> IsWord(a) || a == "!in"
  {
    if IsWord(a) { assert a[|a| - 1] in a; }
  }

  // A word at the front of a script is read as a whole.
  lemma WordFront(ts: seq<TokenText>)
    requires ts != [] && IsWord(ts[0])
    ensures WordLength(Join(ts)) == |ts[0]| && Join(ts)[..|ts[0]|] == ts[0]
  {
    JoinTail(ts);
    if |ts| >= 2 {
      TailStart(ts);
      LastOf(ts[0]);
    }
    WordIs(ts[0], Tail(ts));
  }

  lemma InFront(s: string)
    requires IsNotIn("!" + s)
    ensures s[..2] == "in" && WordLength(s) == 2
  {
    var t := "!" + s;
    assert t[..3][1] == t[1] == s[0] && t[..3][2] == t[2] == s[1] && CharAt(t, 3) == CharAt(s, 2);
    assert WordLength(s[2..]) == 0;
    assert s[1..][1..] == s[2..];
  }

  // Only the word `in` can make `!` read as `!in`.
  lemma NotInOnly(ts: seq<TokenText>)
    requires |ts| >= 2 && ts[0] == "!" && IsNotIn("!" + Tail(ts))
    ensures ts[1] == "in"
  {
    InFront(Tail(ts));
    TailStart(ts);
    FirstOf(ts[1]);
    assert Tail(ts) == Join(ts[1..]);
    WordFront(ts[1..]);
  }

  lemma TailApart(ts: seq<TokenText>)
    requires ts != [] && (|ts| >= 2 ==> !Clash(ts[0], ts[1]))
    ensures Apart(ts[0], Tail(ts))
  {
    var a, s := ts[0], Tail(ts);
    if |ts| == 1 {
      assert a + s == a;
    } else {
      var b := ts[1];
      TailStart(ts);
      FirstOf(b);
      LastOf(a);
      SpaceApart(a[0], if |a| >= 2 then a[1] else ' ');
      if a == "!" && IsNotIn(a + s) { NotInOnly(ts); }
      if !IsWord(a) && s[0] == First(b) {
        if |a| == 1 { TablesAgree(a[0], s[0]); }
        if |a| == 2 && Three(a[0], a[1], s[0]) { ThreeApart(a, s[0]); }
      }
    }
  }

  lemma SkipSeparator(ts: seq<TokenText>)
    requires |ts| >= 2
    ensures Lex(Tail(ts)) == Lex(Join(ts[1..]))
  {
    if NeedSpace(Last(ts[0]), First(ts[1])) {
      assert Tail(ts)[0] == ' ' && Tail(ts)[1..] == Join(ts[1..]);
    } else {
      assert Tail(ts) == Join(ts[1..]);
    }
  }

  lemma NoClashTail(ts: seq<TokenText>)
    requires |ts| >= 2
    ensures NoClash(ts) <==> !Clash(ts[0], ts[1]) && NoClash(ts[1..])
  {
    if !Clash(ts[0], ts[1]) && NoClash(ts[1..]) {
      forall i | 0 <= i < |ts| - 1
        ensures !Clash(ts[i], ts[i + 1])
      {
        if i > 0 { assert !Clash(ts[1..][i - 1], ts[1..][i]); }
      }
    }
    if NoClash(ts) {
      forall i | 0 <= i < |ts[1..]| - 1
        ensures !Clash(ts[1..][i], ts[1..][i + 1])
      {
        assert !Clash(ts[i + 1], ts[i + 2]);
      }
    }
  }

  // A script without clashes reads back as the same tokens.
  lemma {:induction false} Relex(ts: seq<TokenText>)
    requires NoClash(ts)
    ensures Lex(Join(ts)) == ts
    decreases |ts|
  {
    if ts != [] {
      TailApart(ts);
      JoinTail(ts);
      hide IsToken, Apart, Join, Tail, NextText, Separator;
      TokenRead(ts[0], Tail(ts));
      if |ts| >= 2 {
        NoClashTail(ts);
        Relex(ts[1..]);
        SkipSeparator(ts);
      }
      assert ts == [ts[0]] + ts[1..];
    }
  }

  // ---- a clash always changes what is read ----

  // Characters that are not white space.
  function Ink(s: string): nat {
    if s == [] then 0 else (if IsSpace(s[0]) then 0 else 1) + Ink(s[1..])
  }

  function TotalInk(ts: seq<string>): nat {
    if ts == [] then 0 else Ink(ts[0]) + TotalInk(ts[1..])
  }

  lemma {:induction false} InkAppend(a: string, b: string)
    ensures Ink(a + b) == Ink(a) + Ink(b)
  {
    if a == [] {
      assert a + b == b;
    } else {
      assert (a + b)[0] == a[0] && (a + b)[1..] == a[1..] + b;
      InkAppend(a[1..], b);
    }
  }

  lemma {:induction false} AfterLineInk(s: string)
    ensures Ink(AfterLine(s)) <= Ink(s)
  {
    if s != [] {
      if |s| >= 2 { assert s[1..][1..] == s[2..]; }
      AfterLineInk(s[1..]);
    }
  }

  lemma {:induction false} AfterBlockInk(s: string, level: nat)
    ensures Ink(AfterBlock(s, level)) <= Ink(s)
    decreases |s|
  {
    if level != 0 && s != [] {
      if s[0] == '/' && CharAt(s, 1) == '*' {
        assert s[1..][1..] == s[2..];
        AfterBlockInk(s[2..], level + 1);
      } else if s[0] == '*' && CharAt(s, 1) == '/' {
        assert s[1..][1..] == s[2..];
        AfterBlockInk(s[2..], level - 1);
      } else {
        AfterBlockInk(s[1..], level);
      }
    }
  }

  predicate StartsComment(s: string) {
    s != [] && s[0] == '/' && (CharAt(s, 1) == '/' || CharAt(s, 1) == '*')
  }

  // Nothing is read twice, and what begins a comment is not read at all.
  lemma {:induction false} NextInk(s: string)
    ensures NextText(s).Text? ==>
      Ink(NextText(s).t) + Ink(NextText(s).rest) + (if StartsComment(s) then 2 else 0) <= Ink(s)
    decreases |s|
  {
    if s != [] {
      if IsSpace(s[0]) {
        NextInk(s[1..]);
      } else if StartsComment(s) {
        assert s[1..][1..] == s[2..];
        assert Ink(s) == 2 + Ink(s[2..]);
        AfterLineInk(s[2..]);
        AfterBlockInk(s[2..], 1);
        NextInk(if CharAt(s, 1) == '/' then AfterLine(s[2..]) else AfterBlock(s[2..], 1));
      } else if NextText(s).Text? {
        var t, rest := NextText(s).t, NextText(s).rest;
        InkAppend(t, rest);
        assert s == t + rest;
      }
    }
  }

  lemma {:induction false} LexInk(s: string)
    ensures TotalInk(Lex(s)) + (if StartsComment(s) && Lex(s) != [] then 2 else 0) <= Ink(s)
    decreases |s|
  {
    NextInk(s);
    if NextText(s).Text? {
      var t, rest := NextText(s).t, NextText(s).rest;
      LexInk(rest);
      assert Lex(s)[0] == t && Lex(s)[1..] == Lex(rest);
    }
  }

  lemma {:induction false} JoinInk(ts: seq<TokenText>)
    ensures Ink(Join(ts)) == TotalInk(ts)
  {
    if ts != [] {
      JoinTail(ts);
      InkAppend(ts[0], Tail(ts));
      if |ts| >= 2 {
        JoinInk(ts[1..]);
        InkAppend(Separator(ts[0], ts[1]), Join(ts[1..]));
        assert Ink(" ") == 0 + Ink(" "[1..]);
      }
    }
  }

  // A first token of another length is another token.
  lemma FirstDiffers(ts: seq<TokenText>, s: string)
    requires ts != [] && NextText(s).Text? && |NextText(s).t| != |ts[0]|
    ensures Lex(s) != ts
  {
    assert Lex(s)[0] == NextText(s).t;
  }

  lemma ThreeRead(s: string)
    requires |s| >= 3 && ((Two(s[0], s[1]) && Three(s[0], s[1], s[2])) || IsNotIn(s))
    ensures NextText(s).Text? && |NextText(s).t| == 3
  {
    if IsNotIn(s) {
      assert s[0] == s[..3][0] && s[1] == s[..3][1];
      assert s[0] == '!' && s[1] == 'i';
    }
  }

  // The boundaries that no table knows.
  lemma Unlisted()
    ensures !NeedSpace('/', '/') && !NeedSpace('/', '*') && !NeedSpace('!', 'i')
    ensures !NeedSpace(':', '<') && !NeedSpace('.', '=')
  {
  }

  lemma ClashComment(ts: seq<TokenText>)
    requires |ts| >= 2 && ts[0] == "/" && StartsComment(Join(ts))
    ensures Lex(Join(ts)) != ts
  {
    LexInk(Join(ts));
    JoinInk(ts);
  }

  lemma ClashHere(ts: seq<TokenText>)
    requires |ts| >= 2 && Clash(ts[0], ts[1])
    ensures Lex(Join(ts)) != ts
  {
    var a, out := ts[0], Join(ts);
    Unlisted();
    JoinTail(ts);
    TailStart(ts);
    hide IsToken, NeedSpace, Join, Tail, IsWord;
    assert out[0] == a[0] && out[|a|] == Tail(ts)[0];
    if a == "/" {
      ClashComment(ts);
    } else if a == "!" {
      ClashIn(ts);
    } else {
      assert out[1] == a[1];
      ThreeRead(out);
      FirstDiffers(ts, out);
    }
  }

  lemma ClashIn(ts: seq<TokenText>)
    requires |ts| >= 2 && ts[0] == "!" && ts[1] == "in"
    ensures Lex(Join(ts)) != ts
  {
    var out, s := Join(ts), Tail(ts);
    Unlisted();
    assert s == Join(ts[1..]);
    JoinTail(ts);
    WordFront(ts[1..]);
    hide IsToken, NeedSpace, Join, Tail;
    NotInFront(s);
    ThreeRead("!" + s);
    FirstDiffers(ts, out);
  }

  lemma NotInFront(s: string)
    requires |s| >= 2 && s[..2] == "in" && WordLength(s) == 2
    ensures IsNotIn("!" + s)
  {
    var t := "!" + s;
    assert s[0] == s[..2][0] && s[1] == s[..2][1];
    assert t[..3] == "!in" && CharAt(t, 3) == CharAt(s, 2);
  }

  // A compacted script reads back as the same tokens if and only if no two neighbours clash.
  lemma {:induction false} RelexIff(ts: seq<TokenText>)
    ensures Lex(Join(ts)) == ts <==> NoClash(ts)
    decreases |ts|
  {
    if NoClash(ts) {
      Relex(ts);
    } else if Clash(ts[0], ts[1]) {
      ClashHere(ts);
    } else {
      NoClashTail(ts);
      RelexIff(ts[1..]);
      TailApart(ts);
      JoinTail(ts);
      TokenRead(ts[0], Tail(ts));
      SkipSeparator(ts);
      assert Lex(Join(ts))[1..] == Lex(Join(ts[1..]));
    }
  }
}
