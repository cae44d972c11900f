// The compactor writes no space that could be left out.

module Spacing {
  import opened Lexing
  import opened Compaction

  lemma WordTogether(a: char, b: char)
    requires IsIdContinue(a) && IsIdContinue(b)
    ensures NextText([a, b]).Text? ==> |NextText([a, b]).t| == 2
  {
    hide Two, Three;
    WordIs([a, b], []);
    assert [a, b] + [] == [a, b];
    NoSymbolStart(a);
  }

  lemma NoSymbolStart(a: char)
    requires IsIdContinue(a)
    ensures a !in ONE && a != '/' && a != '#' && !IsSpace(a)
  {}

  lemma TwoTogether(a: char, b: char)
    requires Two(a, b) && a != '#'
    ensures NextText([a, b]).Text? ==> |NextText([a, b]).t| == 2
  {
    TwoStart(a, b);
    hide Two, Three, IsNotIn, IsIdStart, ONE;
    var s := [a, b];
    assert s[0] == a && CharAt(s, 1) == b;
    assert SymbolLength(s) == 2;
  }

  lemma HashTogether(b: char)
    ensures NextText(['#', b]).Text? ==> |NextText(['#', b]).t| == 2
  {
    assert ['#', b][1] == b;
  }

  // Two characters that are read together.
  lemma ReadTogether(a: char, b: char)
    requires NeedSpace(a, b)
    ensures NextText([a, b]).Text? ==> |NextText([a, b]).t| == 2
  {
    hide NextText, InTables, IsIdContinue, Two;
    if IsIdContinue(a) && IsIdContinue(b) {
      WordTogether(a, b);
    } else if a == '#' {
      HashTogether(b);
    } else {
      TablesAgree(a, b);
      TwoTogether(a, b);
    }
  }

  lemma TwoStart(a: char, b: char)
    requires Two(a, b) && a != '#'
    ensures a in ONE && !IsIdStart(a) && !IsSpace(a) && !(a == '/' && b == '/') && !(a == '/' && b == '*') && !IsDigit(b)
  {}

  // A space is written only where the characters at the boundary would not be read as two tokens.
  lemma SpaceNeeded(a: char, b: char)
    requires NeedSpace(a, b)
    ensures Lex([a, b]) != [[a], [b]]
  {
    ReadTogether(a, b);
  }

  // Of tokens of one character, exactly those are written with a space between them that would be
  // read together, but for the two that begin a comment.
  lemma SpaceExactly(a: TokenText, b: TokenText)
    requires |a| == 1 && |b| == 1
    ensures NeedSpace(a[0], b[0]) <==> Lex(a + b) != [a, b] && !(a == "/" && (b == "/" || b == "*"))
  {
    hide IsToken, NeedSpace, Clash, Lex;
    assert a == [a[0]] && b == [b[0]] && a + b == [a[0], b[0]];
    OneClash(a, b);
    if NeedSpace(a[0], b[0]) {
      SpaceNeeded(a[0], b[0]);
      Unlisted();
    } else {
      assert [a, b][1..] == [b];
      RelexIff([a, b]);
      JoinPair(a, b);
    }
  }

  lemma OneClash(a: TokenText, b: TokenText)
    requires |a| == 1 && |b| == 1
    ensures Clash(a, b) <==> a == "/" && (b == "/" || b == "*")
  {}

  lemma JoinPair(a: TokenText, b: TokenText)
    requires !NeedSpace(Last(a), First(b))
    ensures Join([a, b]) == a + b && (NoClash([a, b]) <==> !Clash(a, b))
  {
    hide IsToken, NeedSpace, Clash;
    assert [a, b][1..] == [b] && Join([b]) == b;
    NoClashTail([a, b]);
  }
}
