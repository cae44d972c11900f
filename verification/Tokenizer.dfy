// The tokenizer as it runs over its character stream (get_next_token_inner in src/tokenizer.rs).
//
// Giving a character back needs room in the stream's buffer; every place that does so is here or in
// `StringLiteral.ScanString`, and has that room on every input.

module Tokenizer {
  import opened Options
  import opened CharStream
  import opened Lexing
  import opened Compaction
  import opened Tokens
  import RawString
  import StringLiteral

  function Front(s: string): Option<char> {
    if s == [] then None else Some(s[0])
  }

  class TokenIterator {
    const stream: MultiInputsStream
    var withinText: Option<string>       // what ends the text that the input so far is inside of
    var cannotBeUnary: bool

    constructor (stream: MultiInputsStream)
      ensures this.stream == stream && withinText == None && !cannotBeUnary
    {
      this.stream := stream;
      withinText := None;
      cannotBeUnary := false;
    }

    predicate Ready()
      reads this, stream
    {
      stream.Valid() && stream.Calm() && (withinText.Some? ==> withinText.value != [] && !IsReturnable(withinText.value[0]))
    }

    // All tokens, up to the end or the first error: what the parser takes from the iterator.
    // `resumes` says after which `}` the parser goes back to the text of an interpolated string,
    // `columns` where each token starts.
    method Run(resumes: nat -> bool, columns: nat -> nat) returns (tokens: seq<Token>)
      requires Ready() && withinText == None
      modifies this, stream
      ensures stream.Valid()
      ensures tokens == AllTokens(Turn(false, old(cannotBeUnary), 0), resumes, columns, old(stream.Rest()))
    {
      hide stream.Buffered, stream.Rest, stream.Calm, IsNextUnary, ReadToken, ReadWithin, AllTokens;
      tokens := [];
      var inText := false;
      ghost var goal := AllTokens(Turn(false, cannotBeUnary, 0), resumes, columns, stream.Rest());
      while true
        invariant Ready() && withinText == None
        invariant tokens + AllTokens(Turn(inText, cannotBeUnary, |tokens|), resumes, columns, stream.Rest()) == goal
        decreases |stream.Rest()|
      {
        ghost var turn := Turn(inText, cannotBeUnary, |tokens|);
        TokensStep(turn, resumes, columns, stream.Rest());
        var token := Step(inText, columns(|tokens|));
        if token == TEnd {
          break;
        } else if token == TError {
          tokens := tokens + [TError];
          break;
        }
        inText := token == TText("}") && resumes(|tokens|);
        ghost var after := AllTokens(Turn(inText, cannotBeUnary, |tokens| + 1), resumes, columns, stream.Rest());
        assert tokens + ([token] + after) == (tokens + [token]) + after;
        tokens := tokens + [token];
      }
    }

    // TokenIterator::next.  `resume` is the request of the parser to go on with back-tick text.
    method Step(resume: bool, column: nat) returns (token: Token)
      requires Ready() && withinText == None
      modifies this, stream
      ensures Ready()
      ensures var r := if resume then ReadWithin("`", column, old(stream.Rest())) else ReadToken(old(cannotBeUnary), column, old(stream.Rest()));
        if r.Faulty? || r.within.Some? then token == TError
        else r == Read(token, None, stream.Rest()) && withinText == None && cannotBeUnary == !IsNextUnary(token)
    {
      hide stream.Buffered, stream.Rest, stream.Calm, IsNextUnary, ReadToken, ReadWithin;
      WithinProper("`", column, stream.Rest());
      TokenProper(cannotBeUnary, column, stream.Rest());
      if resume {
        withinText := Some("`");
      }
      token := Advance(column);
      if token.TString? && withinText.Some? {
        withinText := None;
        token := TError;
      }
    }

    // get_next_token: what comes next depends on what came last.
    method Advance(column: nat) returns (token: Token)
      requires Ready()
      modifies this, stream
      ensures Ready() && cannotBeUnary == !IsNextUnary(token)
      ensures Gives(if old(withinText).Some? then ReadWithin(old(withinText).value, column, old(stream.Rest()))
                    else ReadToken(old(cannotBeUnary), column, old(stream.Rest())),
                    token, withinText, stream.Rest())
    {
      hide IsNextUnary, ReadToken, ReadWithin;
      token := NextToken(column);
      cannotBeUnary := !IsNextUnary(token);
    }

    // One token.  `column` is where it starts.
    method NextToken(column: nat) returns (token: Token)
      requires Ready()
      modifies this`withinText, stream
      ensures Ready()
      ensures Gives(if old(withinText).Some? then ReadWithin(old(withinText).value, column, old(stream.Rest()))
                    else ReadToken(cannotBeUnary, column, old(stream.Rest())),
                    token, withinText, stream.Rest())
    {
      hide stream.Buffered, stream.Rest, stream.Calm, stream.Pushed;
      hide ReadToken, ReadHere, ReadWithin, AfterLine, AfterBlock;
      if withinText.Some? {
        token := ContinueText(column);
        return;
      }
      ghost var goal := ReadToken(cannotBeUnary, column, stream.Rest());
      while true
        invariant Ready() && withinText == None && ReadToken(cannotBeUnary, column, stream.Rest()) == goal
        decreases |stream.Rest()|
      {
        ghost var s := stream.Rest();
        ReadCases(cannotBeUnary, column, s);
        var next := stream.GetNext();
        if next == None { return TEnd; }
        var c := next.value;
        var peek := stream.PeekNext();
        var cc := if peek.Some? then peek.value else '\0';
        assert s[0] == c && CharAt(s, 1) == cc && stream.Rest() == s[1..];
        if IsSpace(c) {
          continue;
        } else if c == '/' && (cc == '/' || cc == '*') {
          SkipComment(cc, s);
        } else {
          token := Start(c, cc, column, s);
          return;
        }
      }
    }

    // A token that starts with `c`, before `cc`.
    method Start(c: char, cc: char, column: nat, ghost s: string) returns (token: Token)
      requires Ready() && withinText == None && (!IsReturnable(c) ==> stream.Pushed() == 0)
      requires s != [] && s[0] == c && CharAt(s, 1) == cc && stream.Rest() == s[1..]
      requires !IsSpace(c) && !(c == '/' && (cc == '/' || cc == '*'))
      modifies this`withinText, stream
      ensures Ready() && Gives(ReadHere(cannotBeUnary, column, s), token, withinText, stream.Rest())
    {
      hide stream.Buffered, stream.Rest, stream.Calm, stream.Pushed;
      hide ReadNumber, ReadLiteral, ReadRaw, ReadHash, SymbolLength, WordLength;
      if IsIdStart(c) {
        token := Word(c, s);
      } else if IsDigit(c) {
        token := Number(false, c, s);
      } else if c == '-' && IsDigit(cc) {
        if cannotBeUnary {
          assert s[..1] == "-";
          return TText("-");
        }
        var digit := stream.GetNext();
        token := Number(true, digit.value, s[1..]);
      } else if c == '"' || c == '`' || c == '\'' {
        token := Literal(c, column);
      } else if c == '#' && (cc == '"' || cc == '#') {
        token := RawLiteral();
      } else if c == '#' && cc != '{' {
        token := Hash(cc, s);
      } else if c == '#' || c in ONE {
        token := Symbol(c, s);
      } else {
        token := TError;
      }
    }

    // A hash that starts no map and no raw string.
    method Hash(cc: char, ghost s: string) returns (token: Token)
      requires stream.Valid() && stream.Calm() && s != [] && s[0] == '#' && CharAt(s, 1) == cc && stream.Rest() == s[1..]
      modifies stream
      ensures stream.Valid() && stream.Calm() && Gives(ReadHash(s), token, None, stream.Rest())
    {
      hide stream.Buffered, stream.Rest, stream.Calm;
      if cc == '!' { return TText("#!"); }
      if cc == ' ' {
        var _ := stream.GetNext();
        assert s[1..][1..] == s[2..];
        var peek := stream.PeekNext();
        assert CharAt(s, 2) == if peek.Some? then peek.value else '\0';
        if peek == Some('{') {
          var _ := stream.GetNext();
          assert s[2..][1..] == s[3..] && s[..3] == "# {";
          return TText("# {");
        }
        return TText("#");
      }
      assert s[..1] == "#";
      token := TText("#");
    }

    // A comment, after its first character.
    method SkipComment(cc: char, ghost s: string)
      requires stream.Valid() && stream.Calm() && |s| >= 2 && s[0] == '/' && s[1] == cc && stream.Rest() == s[1..]
      requires cc == '/' || cc == '*'
      modifies stream
      ensures stream.Valid() && stream.Calm()
      ensures stream.Rest() == if cc == '/' then AfterLine(s[2..]) else AfterBlock(s[2..], 1)
    {
      hide stream.Buffered, stream.Rest, stream.Calm;
      var _ := stream.GetNext();
      assert s[1..][1..] == s[2..];
      if cc == '/' { SkipLine(); } else { SkipBlock(1); }
    }

    method SkipLine()
      requires stream.Valid() && stream.Calm()
      modifies stream
      ensures stream.Valid() && stream.Calm() && stream.Rest() == AfterLine(old(stream.Rest()))
    {
      hide stream.Buffered, stream.Rest, stream.Calm;
      ghost var goal := AfterLine(stream.Rest());
      while true
        invariant stream.Valid() && stream.Calm() && AfterLine(stream.Rest()) == goal
        decreases |stream.Rest()|
      {
        ghost var s := stream.Rest();
        var next := stream.GetNext();
        if next == None { return; }
        if next.value == '\r' {
          var peek := stream.PeekNext();
          assert CharAt(s, 1) == if peek.Some? then peek.value else '\0';
          if peek == Some('\n') {
            var _ := stream.GetNext();
            assert s[1..][1..] == s[2..];
          }
          return;
        }
        if next.value == '\n' { return; }
      }
    }

    // scan_block_comment
    method SkipBlock(start: nat)
      requires stream.Valid() && stream.Calm() && start > 0
      modifies stream
      ensures stream.Valid() && stream.Calm() && stream.Rest() == AfterBlock(old(stream.Rest()), start)
    {
      hide stream.Buffered, stream.Rest, stream.Calm;
      ghost var goal := AfterBlock(stream.Rest(), start);
      var level := start;
      while level > 0
        invariant stream.Valid() && stream.Calm() && AfterBlock(stream.Rest(), level) == goal
        decreases |stream.Rest()|
      {
        ghost var s := stream.Rest();
        var next := stream.GetNext();
        if next == None { return; }
        var peek := stream.PeekNext();
        assert CharAt(s, 1) == if peek.Some? then peek.value else '\0';
        if next.value == '/' && peek == Some('*') {
          var _ := stream.GetNext();
          assert s[1..][1..] == s[2..];
          level := level + 1;
        } else if next.value == '*' && peek == Some('/') {
          var _ := stream.GetNext();
          assert s[1..][1..] == s[2..];
          level := level - 1;
        }
      }
    }

    // parse_identifier_token
    method Word(first: char, ghost s: string) returns (token: Token)
      requires stream.Valid() && stream.Calm() && s != [] && s[0] == first && IsIdStart(first)
      requires stream.Rest() == s[1..]
      modifies stream
      ensures stream.Valid() && stream.Calm()
      ensures token == TText(s[..WordLength(s)]) && stream.Rest() == s[WordLength(s)..]
      ensures |stream.Rest()| < |s|
    {
      hide stream.Buffered, stream.Rest, stream.Calm;
      var identifier := [first];
      assert s[..1] == [first];
      var peek := stream.PeekNext();
      while peek.Some? && IsIdContinue(peek.value)
        invariant stream.Valid() && stream.Calm() && 1 <= |identifier| <= WordLength(s)
        invariant identifier == s[..|identifier|] && stream.Rest() == s[|identifier|..]
        invariant peek == Front(stream.Rest())
        decreases |s| - |identifier|
      {
        var _ := stream.GetNext();
        identifier := identifier + [peek.value];
        assert identifier == s[..|identifier|] && s[|identifier| - 1..][1..] == s[|identifier|..];
        peek := stream.PeekNext();
      }
      token := TText(identifier);
    }

    // A symbol.
    method Symbol(c: char, ghost s: string) returns (token: Token)
      requires stream.Valid() && stream.Calm() && s != [] && s[0] == c && stream.Rest() == s[1..]
      requires (c in ONE || c == '#') && (!IsReturnable(c) ==> stream.Pushed() == 0)
      modifies stream
      ensures stream.Valid() && stream.Calm()
      ensures token == TText(s[..SymbolLength(s)]) && stream.Rest() == s[SymbolLength(s)..]
      ensures |stream.Rest()| < |s|
    {
      hide stream.Buffered, stream.Rest, stream.Calm, Two, Three;
      var peek := stream.PeekNext();
      assert s[..1] == [c];
      if c == '!' && peek == Some('i') {
        assert !Two('!', 'i') by { NotTwo(); }
        token := BangOrNotIn(s);
      } else if peek.Some? && Two(c, peek.value) {
        var _ := stream.GetNext();
        assert s[..2] == [c, peek.value] && s[1..][1..] == s[2..];
        var third := stream.PeekNext();
        if third.Some? && Three(c, peek.value, third.value) {
          var _ := stream.GetNext();
          assert s[..3] == [c, peek.value, third.value] && s[2..][1..] == s[3..];
          token := TText([c, peek.value, third.value]);
        } else {
          token := TText([c, peek.value]);
        }
      } else {
        assert !IsNotIn(s) by { NotInStart(s); }
        token := TText([c]);
      }
    }

    // `!`, or `!in`: both characters may have to be given back.
    method BangOrNotIn(ghost s: string) returns (token: Token)
      requires stream.Valid() && stream.Calm() && |s| >= 2 && s[0] == '!' && s[1] == 'i' && stream.Rest() == s[1..]
      requires stream.Pushed() == 0
      modifies stream
      ensures stream.Valid() && stream.Calm()
      ensures token == TText(if IsNotIn(s) then "!in" else "!")
      ensures stream.Rest() == if IsNotIn(s) then s[3..] else s[1..]
    {
      hide stream.Buffered, stream.Rest, stream.Calm;
      var i := stream.GetNext();
      assert s[1..][1..] == s[2..];
      var peek := stream.PeekNext();
      if peek == Some('n') {
        var n := stream.GetNext();
        assert s[2..][1..] == s[3..] && s[..3] == "!in";
        var after := stream.PeekNext();
        assert CharAt(s, 3) == if after.Some? then after.value else '\0';
        if after.Some? && IsIdContinue(after.value) {
          stream.Unget('n');
          stream.Unget('i');
          assert ['i'] + (['n'] + s[3..]) == s[1..];
          return TText("!");
        }
        return TText("!in");
      }
      stream.Unget('i');
      assert ['i'] + s[2..] == s[1..];
      assert !IsNotIn(s) by { if |s| >= 3 { assert s[..3][2] == s[2]; } }
      token := TText("!");
    }

    // A number; a period or an `e` that turns out not to belong to it is given back.
    method Number(negated: bool, first: char, ghost s: string) returns (token: Token)
      requires stream.Valid() && stream.Calm() && stream.Pushed() == 0
      requires s != [] && s[0] == first && IsDigit(first) && stream.Rest() == s[1..]
      modifies stream
      ensures stream.Valid() && stream.Calm() && Gives(ReadNumber(negated, s), token, None, stream.Rest())
    {
      hide stream.Buffered, stream.Rest, stream.Calm, NumberFrom, WellFormed, PeriodMark, ExponentMark, IsRadixDigit, Whole;
      ghost var goal := Whole([first], s[1..]);
      var result := [first];
      var radix := 10;
      var hasPeriod, hasE := false, false;
      var over := false;
      WholeNumber(result, s[1..]);
      while !over
        invariant stream.Valid() && stream.Calm() && result != [] && result[0] == first
        invariant hasPeriod || radix != 10 ==> |result| > 1
        invariant hasE ==> hasPeriod
        invariant !over ==> stream.Pushed() == 0 && NumberFrom(result, radix, hasPeriod, hasE, stream.Rest()) == goal
        invariant over ==> Numeral(result, radix, stream.Rest()) == goal
        decreases !over, |stream.Rest()|
      {
        ghost var here := stream.Rest();
        var peek := stream.PeekNext();
        if peek == None {
          LastStep(result, radix, hasPeriod, hasE, here);
          break;
        }
        var c := peek.value;
        if c == '_' {
          SeparatorStep(result, radix, hasPeriod, hasE, here);
          var _ := stream.GetNext();
        } else if IsRadixDigit(radix, c) {
          DigitStep(result, radix, hasPeriod, hasE, here);
          var _ := stream.GetNext();
          result := result + [c];
        } else if c == '.' && !hasPeriod && radix == 10 {
          PeriodStep(result, here);
          result, over := Period(result);
          hasPeriod := !over;
        } else if (c == 'e' || c == 'E') && !hasE && radix == 10 {
          ExponentStep(result, hasPeriod, here);
          result, over := Exponent(c, result);
          hasPeriod, hasE := hasPeriod || !over, !over;
        } else if IsRadixMark(c) && first == '0' && |result| <= 1 {
          assert result == "0";
          MarkStep(here);
          var _ := stream.GetNext();
          result := result + [c];
          radix := RadixOf(c);
        } else {
          LastStep(result, radix, hasPeriod, hasE, here);
          break;
        }
      }
      var text := Signed(negated, result);
      token := if WellFormed(text, radix) then TNumber(text) else TError;
    }

    // A period inside a number: followed by digits, or by something that cannot start a property name.
    method Period(text: string) returns (result: string, over: bool)
      requires stream.Valid() && stream.Calm() && stream.Pushed() == 0 && Front(stream.Rest()) == Some('.')
      modifies stream
      ensures stream.Valid() && stream.Calm()
      ensures var s := old(stream.Rest()); var mark := PeriodMark(s);
        if mark.Some? then !over && result == text + mark.value && stream.Rest() == s[1..] && stream.Pushed() == 0
        else over && result == text && stream.Rest() == s
    {
      hide stream.Buffered, stream.Rest, stream.Calm;
      ghost var s := stream.Rest();
      var _ := stream.GetNext();
      assert s == ['.'] + s[1..];
      var peek := stream.PeekNext();
      result, over := text, false;
      if peek.Some? && IsDigit(peek.value) {
        result := text + ".";
      } else if peek.Some? && peek.value != '_' && peek.value != '.' && !(IsIdStart(peek.value) && peek.value != '_') {
        result := text + ".0";
      } else {
        stream.Unget('.');
        over := true;
      }
    }

    method Exponent(e: char, text: string) returns (result: string, over: bool)
      requires stream.Valid() && stream.Calm() && stream.Pushed() == 0 && Front(stream.Rest()) == Some(e)
      requires e == 'e' || e == 'E'
      modifies stream
      ensures stream.Valid() && stream.Calm()
      ensures var s := old(stream.Rest()); var mark := ExponentMark(s);
        if mark.Some? then !over && result == text + mark.value && stream.Rest() == s[|mark.value|..] && stream.Pushed() == 0
        else over && result == text && stream.Rest() == s
    {
      hide stream.Buffered, stream.Rest, stream.Calm;
      ghost var s := stream.Rest();
      var _ := stream.GetNext();
      assert s == [e] + s[1..];
      var peek := stream.PeekNext();
      result, over := text, false;
      if peek.Some? && IsDigit(peek.value) {
        result := text + "e";
      } else if peek == Some('+') || peek == Some('-') {
        var sign := stream.GetNext();
        assert s[1..][1..] == s[2..];
        result := text + ("e" + [sign.value]);
      } else {
        stream.Unget(e);
        over := true;
      }
    }

    // A string or character literal, after its opening quote.
    method Literal(quote: char, column: nat) returns (token: Token)
      requires Ready() && (quote == '"' || quote == '`' || quote == '\'') && withinText == None
      modifies this`withinText, stream
      ensures Ready() && Gives(ReadLiteral(quote, column, old(stream.Rest())), token, withinText, stream.Rest())
    {
      hide StringLiteral.Scan, stream.Buffered, stream.Rest, stream.Calm;
      var end, text;
      if quote == '\'' {
        token := Character(column);
        return;
      }
      if quote == '`' {
        StartTick();
        end, text := StringLiteral.ScanString(stream, StringLiteral.BackTick(column));
      } else {
        end, text := StringLiteral.ScanString(stream, StringLiteral.DoubleQuoted(column));
      }
      token := AfterText([quote], end, text);
    }

    method Character(column: nat) returns (token: Token)
      requires Ready() && withinText == None
      modifies this`withinText, stream
      ensures Ready() && Gives(ReadChar(column, old(stream.Rest())), token, withinText, stream.Rest())
    {
      hide StringLiteral.Scan, stream.Buffered, stream.Rest, stream.Calm;
      var peek := stream.PeekNext();
      if peek == Some('\'') { return TError; }
      var end, text := StringLiteral.ScanString(stream, CharConfig(column));
      if end.BadEscape? {
        withinText := Some("'");
      }
      token := if end.AtQuote? && |text| == 1 then TChar(text[0]) else TError;
    }

    // The rest of the line of an opening back-tick is skipped if it is empty.
    method StartTick()
      requires stream.Valid() && stream.Calm()
      modifies stream
      ensures stream.Valid() && stream.Calm() && stream.Rest() == StringLiteral.SkipLineEnd(old(stream.Rest()))
    {
      hide stream.Buffered, stream.Rest, stream.Calm;
      ghost var s := stream.Rest();
      var peek := stream.PeekNext();
      if peek == Some('\r') {
        var _ := stream.GetNext();
        var second := stream.PeekNext();
        if second == Some('\n') {
          var _ := stream.GetNext();
          assert s[1..][1..] == s[2..];
        }
      } else if peek == Some('\n') {
        var _ := stream.GetNext();
      }
    }

    // A malformed escape leaves the iterator inside the text.
    method AfterText(quote: string, end: StringLiteral.End, text: string) returns (token: Token)
      modifies this`withinText
      ensures withinText == if end.AtEnd? || end.BadEscape? then Some(quote) else None
      ensures token == match end
        case AtQuote => TString(text)
        case AtInterpolation => TInterpolated(text)
        case AtEnd => TString(text)
        case _ => TError
    {
      withinText := if end.AtEnd? || end.BadEscape? then Some(quote) else None;
      match end {
        case AtQuote => token := TString(text);
        case AtInterpolation => token := TInterpolated(text);
        case AtEnd => token := TString(text);
        case NoEnd => token := TError;
        case BadEscape => token := TError;
      }
    }

    method RawLiteral() returns (token: Token)
      requires Ready() && withinText == None
      modifies this`withinText, stream
      ensures Ready() && Gives(ReadRaw(old(stream.Rest())), token, withinText, stream.Rest())
    {
      hide RawString.RawLiteral, stream.Buffered, stream.Rest, stream.Calm;
      var ok, hashes, text, closed := RawString.ParseRawLiteral(stream);
      if !ok { return TError; }
      withinText := if closed then None else Some(RawString.Hashes(hashes));
      token := TString(text);
    }

    // More input for a text that was not ended.
    method ContinueText(column: nat) returns (token: Token)
      requires Ready() && withinText.Some?
      modifies this`withinText, stream
      ensures Ready() && Gives(ReadWithin(old(withinText).value, column, old(stream.Rest())), token, withinText, stream.Rest())
    {
      hide StringLiteral.Scan, RawString.Raw, stream.Buffered, stream.Rest, stream.Calm;
      var ch := withinText.value;
      if ch[0] == '#' {
        var text, closed := RawString.ScanRaw(stream, |ch|);
        withinText := if closed then None else Some(RawString.Hashes(|ch|));
        return TString(text);
      }
      var end, text := StringLiteral.ScanString(stream, WithinConfig(ch[0], column));
      token := AfterText(ch, end, text);
    }
  }

  lemma NotTwo()
    ensures !Two('!', 'i')
  {
  }

  lemma NotInStart(s: string)
    requires s != [] && !(s[0] == '!' && CharAt(s, 1) == 'i')
    ensures !IsNotIn(s)
  {
    if |s| >= 3 { assert s[..3][0] == s[0] && s[..3][1] == s[1]; }
  }

  // ---- compacting and reading again ----

  lemma {:induction false} PlainTail(ts: seq<TokenText>)
    requires |ts| >= 2
    ensures Plain(Tail(ts)) == Plain(Join(ts[1..]))
  {
    if NeedSpace(Last(ts[0]), Compaction.First(ts[1])) {
      assert Tail(ts)[0] == ' ' && Tail(ts)[1..] == Join(ts[1..]);
    } else {
      assert Tail(ts) == Join(ts[1..]);
    }
  }

  lemma {:induction false} PlainJoin(ts: seq<TokenText>)
    requires NoClash(ts)
    ensures Plain(Join(ts))
    decreases |ts|
  {
    if ts != [] {
      TailApart(ts);
      JoinTail(ts);
      hide IsToken, Apart, Join, Tail, NextText, Separator;
      TokenRead(ts[0], Tail(ts));
      if |ts| >= 2 {
        NoClashTail(ts);
        PlainJoin(ts[1..]);
        PlainTail(ts);
      } else {
        TailNone(ts);
      }
    }
  }

  lemma TailNone(ts: seq<TokenText>)
    requires |ts| == 1
    ensures Plain(Tail(ts))
  {
  }

  lemma ConcatOne(s: string)
    ensures Concat([s]) == s
  {
    assert Concat([s]) == s + Concat([s][1..]);
  }

  // Without clashes, the tokenizer finds the tokens again in what the compactor has written.
  method CompactAndReread(ts: seq<TokenText>) returns (tokens: seq<Token>)
    ensures NoClash(ts) ==> tokens == Texts(ts)
  {
    hide NoClash, IsToken, Plain, Join, Lex;
    var compressed := Compact(ts);
    ConcatOne(compressed);
    if NoClash(ts) {
      PlainJoin(ts);
      Relex(ts);
      PlainTokens(Turn(false, false, 0), n => false, n => n, compressed);
    }
    var stream := new MultiInputsStream([compressed]);
    var scanner := new TokenIterator(stream);
    tokens := scanner.Run(n => false, n => n);
  }
}
