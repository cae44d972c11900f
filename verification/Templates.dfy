// Interpolated strings: the tokens of a back-tick literal with blocks of script in it, which the
// parser reads by switching the tokenizer back to text after each block (parse_primary in
// src/parser.rs and TokenIterator::next in src/tokenizer.rs).

module Templates {
  import opened Options
  import opened Lexing
  import opened Compaction
  import opened Tokens
  import StringLiteral

  // A text, and the script of the block after it.
  datatype Piece = Piece(text: string, code: seq<TokenText>)

  function Block(code: seq<TokenText>): seq<TokenText> {
    ["{"] + code + ["}"]
  }

  // How the literal is written, from its first text on.
  function Written(pieces: seq<Piece>, last: string): string {
    if pieces == [] then StringLiteral.Ticked(last) + "`"
    else StringLiteral.Ticked(pieces[0].text) + ("$" + (Join(Block(pieces[0].code)) + Written(pieces[1..], last)))
  }

  function Meant(pieces: seq<Piece>, last: string): seq<Token> {
    if pieces == [] then [TString(last)]
    else [TInterpolated(pieces[0].text)] + Texts(Block(pieces[0].code)) + Meant(pieces[1..], last)
  }

  // What can be written: no CR before an LF, no backslash right before a block, no clash in a block.
  predicate WritableOne(p: Piece) {
    !StringLiteral.HasCrLf(p.text) && (p.text != [] ==> p.text[|p.text| - 1] != '\\') && NoClash(Block(p.code))
  }

  predicate Writable(pieces: seq<Piece>, last: string) {
    !StringLiteral.HasCrLf(last) && forall p | p in pieces :: WritableOne(p)
  }

  // The parser resumes the text after the `}` of each block and nowhere else in it; `n` tokens come
  // before the literal.
  predicate Resumed(resumes: nat -> bool, pieces: seq<Piece>, n: nat) {
    pieces != [] ==> ResumedOne(resumes, pieces[0], n) && Resumed(resumes, pieces[1..], n + |pieces[0].code| + 3)
  }

  predicate ResumedOne(resumes: nat -> bool, p: Piece, n: nat) {
    resumes(n + |p.code| + 2) && forall k: nat | n < k < n + |p.code| + 2 :: !resumes(k)
  }

  // ---- blocks ----

  // A block ends in a brace, so that what follows it is not looked at before.
  lemma NotInLonger(s: string, rest: string)
    requires s != [] && s[|s| - 1] == '}' && IsNotIn("!" + (s + rest))
    ensures IsNotIn("!" + s)
  {
    var t := "!" + (s + rest);
    assert t[..3][1] == 'i' && t[..3][2] == 'n';
    assert forall k | 0 <= k < |s| :: t[k + 1] == s[k] == ("!" + s)[k + 1];
    assert |s| >= 3;
    assert ("!" + s)[..3] == t[..3];
  }

  lemma ApartLonger(ts: seq<TokenText>, rest: string)
    requires |ts| >= 2 && ts[|ts| - 1] == "}" && Apart(ts[0], Tail(ts))
    ensures Apart(ts[0], Tail(ts) + rest)
  {
    var a, s := ts[0], Tail(ts);
    TailEnds(ts);
    assert (s + rest)[0] == s[0];
    if a == "!" && IsNotIn("!" + (s + rest)) {
      NotInLonger(s, rest);
    }
    hide Tail, IsNotIn, Two, Three;
  }

  lemma TailEnds(ts: seq<TokenText>)
    requires |ts| >= 2 && ts[|ts| - 1] == "}"
    ensures Tail(ts) != [] && Tail(ts)[|Tail(ts)| - 1] == '}'
  {
    hide IsToken, NeedSpace, Join;
    JoinEnds(ts[1..]);
  }

  lemma SpaceSkipped(turn: Turn, resumes: nat -> bool, columns: nat -> nat, s: string)
    requires !turn.inText
    ensures AllTokens(turn, resumes, columns, " " + s) == AllTokens(turn, resumes, columns, s)
  {
    hide ReadHere, ReadToken;
    assert (" " + s)[0] == ' ' && (" " + s)[1..] == s;
    ReadCases(turn.blocked, columns(turn.count), " " + s);
    SameNext(turn, turn, resumes, columns, " " + s, s);
  }

  lemma BlockStep(turn: Turn, resumes: nat -> bool, columns: nat -> nat, t: TokenText, s: string)
    requires !turn.inText && Apart(t, s)
    ensures AllTokens(turn, resumes, columns, t + s)
         == [TText(t)] + AllTokens(After(turn, TText(t), resumes), resumes, columns, s)
  {
    TokenRead(t, s);
    ReadsText(turn.blocked, columns(turn.count), t + s);
    hide ReadToken, NextText, Apart, IsNextUnary;
    TokensStep(turn, resumes, columns, t + s);
  }

  // How a block is written from one of its tokens on.
  lemma JoinLonger(ts: seq<TokenText>, rest: string)
    requires |ts| >= 2 && ts[|ts| - 1] == "}" && NoClash(ts)
    ensures Join(ts) + rest == ts[0] + (Tail(ts) + rest) && Apart(ts[0], Tail(ts) + rest)
    ensures var more := Join(ts[1..]) + rest; Tail(ts) + rest == " " + more || Tail(ts) + rest == more
  {
    assert !Clash(ts[0], ts[1]);
    TailForms(ts);
    hide *;
    TailApart(ts);
    ApartLonger(ts, rest);
    JoinTail(ts);
    Associative(ts[0], Tail(ts), rest);
    Associative(" ", Join(ts[1..]), rest);
  }

  lemma TailForms(ts: seq<TokenText>)
    requires |ts| >= 2
    ensures Tail(ts) == " " + Join(ts[1..]) || Tail(ts) == Join(ts[1..])
  {
    hide IsToken, NeedSpace, Join;
  }

  lemma Associative<T>(a: seq<T>, b: seq<T>, c: seq<T>)
    ensures (a + b) + c == a + (b + c)
  {
  }

  lemma BraceApart(rest: string)
    ensures IsToken("}") && Apart("}", rest)
  {
  }

  lemma TextsOne(ts: seq<TokenText>)
    requires ts != []
    ensures Texts(ts) == [TText(ts[0])] + Texts(ts[1..])
    ensures |ts| == 1 ==> Texts(ts) == [TText(ts[0])] && Join(ts) == ts[0]
  {
    hide IsToken;
  }

  // Up to the second token of the block.
  lemma BlockNext(turn: Turn, resumes: nat -> bool, columns: nat -> nat, ts: seq<TokenText>, rest: string)
    requires !turn.inText && |ts| >= 2 && ts[|ts| - 1] == "}" && NoClash(ts) && !resumes(turn.count)
    ensures var blocked := !IsNextUnary(TText(ts[0]));
      AllTokens(turn, resumes, columns, Join(ts) + rest)
      == [TText(ts[0])] + AllTokens(Turn(false, blocked, turn.count + 1), resumes, columns, Join(ts[1..]) + rest)
  {
    var next := After(turn, TText(ts[0]), resumes);
    assert next == Turn(false, !IsNextUnary(TText(ts[0])), turn.count + 1);
    hide *;
    JoinLonger(ts, rest);
    BlockStep(turn, resumes, columns, ts[0], Tail(ts) + rest);
    SpaceSkipped(next, resumes, columns, Join(ts[1..]) + rest);
  }

  lemma BlockEnd(turn: Turn, resumes: nat -> bool, columns: nat -> nat, ts: seq<TokenText>, rest: string)
    requires !turn.inText && |ts| == 1 && ts[0] == "}" && resumes(turn.count)
    ensures AllTokens(turn, resumes, columns, Join(ts) + rest)
         == Texts(ts) + AllTokens(Turn(true, true, turn.count + 1), resumes, columns, rest)
  {
    TextsOne(ts);
    BraceApart(rest);
    assert After(turn, TText("}"), resumes) == Turn(true, true, turn.count + 1);
    hide *;
    BlockStep(turn, resumes, columns, ts[0], rest);
  }

  // A block is read to its end, where the text comes next.
  lemma {:induction false} BlockRead(turn: Turn, resumes: nat -> bool, columns: nat -> nat, ts: seq<TokenText>, rest: string)
    requires !turn.inText && ts != [] && ts[|ts| - 1] == "}" && NoClash(ts)
    requires resumes(turn.count + |ts| - 1) && forall k: nat | turn.count <= k < turn.count + |ts| - 1 :: !resumes(k)
    ensures AllTokens(turn, resumes, columns, Join(ts) + rest)
         == Texts(ts) + AllTokens(Turn(true, true, turn.count + |ts|), resumes, columns, rest)
    decreases |ts|
  {
    hide *;
    if |ts| == 1 {
      BlockEnd(turn, resumes, columns, ts, rest);
    } else {
      TextsOne(ts);
      NoClashTail(ts);
      BlockNext(turn, resumes, columns, ts, rest);
      BlockRead(Turn(false, !IsNextUnary(TText(ts[0])), turn.count + 1), resumes, columns, ts[1..], rest);
      Associative([TText(ts[0])], Texts(ts[1..]), AllTokens(Turn(true, true, turn.count + |ts|), resumes, columns, rest));
    }
  }

  // ---- texts ----

  // The token of a text that is resumed, or that an opening back-tick begins.
  lemma TextRead(column: nat, s: string, after: string)
    requires StringLiteral.EndsText(s, after) && !StringLiteral.HasCrLf(s)
    ensures ReadWithin("`", column, StringLiteral.Ticked(s) + after)
         == if after[0] == '`' then Read(TString(s), None, after[1..]) else Read(TInterpolated(s), None, after[1..])
  {
    hide StringLiteral.Scan;
    StringLiteral.TickedScan(s, after, "", column, column);
    StringLiteral.DropCrIff(s);
    assert "" + StringLiteral.DropCr(s) == s;
  }

  // From the text of an interpolated string on, whatever comes after the literal.
  lemma {:induction false} TemplateRead(turn: Turn, resumes: nat -> bool, columns: nat -> nat,
                                        pieces: seq<Piece>, last: string, rest: string)
    requires turn.inText && Writable(pieces, last) && Resumed(resumes, pieces, turn.count)
    requires !StringLiteral.Starts(rest, '`')
    ensures AllTokens(turn, resumes, columns, Written(pieces, last) + rest)
         == Meant(pieces, last)
            + AllTokens(Turn(false, true, turn.count + |Meant(pieces, last)|), resumes, columns, rest)
    decreases |pieces|
  {
    hide *;
    if pieces == [] {
      NoPiece(last);
      LastText(turn, resumes, columns, last, rest);
    } else {
      var p, later, more := pieces[0], pieces[1..], Written(pieces[1..], last) + rest;
      PieceFirst(turn, resumes, pieces, last, rest);
      TextAndBlock(turn, resumes, columns, p, more);
      TemplateRead(Turn(true, true, turn.count + |p.code| + 3), resumes, columns, later, last, rest);
      var head := [TInterpolated(p.text)] + Texts(Block(p.code));
      Associative(head, Meant(later, last),
                  AllTokens(Turn(false, true, turn.count + |Meant(pieces, last)|), resumes, columns, rest));
    }
  }

  lemma NoPiece(last: string)
    ensures Meant([], last) == [TString(last)] && (Writable([], last) ==> !StringLiteral.HasCrLf(last))
  {
  }

  lemma PieceFirst(turn: Turn, resumes: nat -> bool, pieces: seq<Piece>, last: string, rest: string)
    requires pieces != [] && Writable(pieces, last) && Resumed(resumes, pieces, turn.count)
    ensures var p, later, more := pieces[0], pieces[1..], Written(pieces[1..], last) + rest;
      && Written(pieces, last) + rest == StringLiteral.Ticked(p.text) + ("$" + (Join(Block(p.code)) + more))
      && Meant(pieces, last) == [TInterpolated(p.text)] + Texts(Block(p.code)) + Meant(later, last)
      && |Meant(pieces, last)| == |p.code| + 3 + |Meant(later, last)|
      && WritableOne(p) && Writable(later, last)
      && ResumedOne(resumes, p, turn.count) && Resumed(resumes, later, turn.count + |p.code| + 3)
  {
    hide Join, StringLiteral.Ticked, StringLiteral.HasCrLf, NoClash, IsToken;
    assert pieces[0] in pieces;
  }

  lemma LastText(turn: Turn, resumes: nat -> bool, columns: nat -> nat, last: string, rest: string)
    requires turn.inText && !StringLiteral.HasCrLf(last) && !StringLiteral.Starts(rest, '`')
    ensures AllTokens(turn, resumes, columns, Written([], last) + rest)
         == [TString(last)] + AllTokens(Turn(false, true, turn.count + 1), resumes, columns, rest)
  {
    var after := "`" + rest;
    assert Written([], last) + rest == StringLiteral.Ticked(last) + after && after[1..] == rest;
    TextRead(columns(turn.count), last, after);
    hide ReadWithin, AllTokens;
    TokensStep(turn, resumes, columns, StringLiteral.Ticked(last) + after);
  }

  // A text up to a block, and the block.
  lemma TextAndBlock(turn: Turn, resumes: nat -> bool, columns: nat -> nat, p: Piece, more: string)
    requires turn.inText && WritableOne(p) && ResumedOne(resumes, p, turn.count)
    ensures AllTokens(turn, resumes, columns, StringLiteral.Ticked(p.text) + ("$" + (Join(Block(p.code)) + more)))
         == [TInterpolated(p.text)] + Texts(Block(p.code))
            + AllTokens(Turn(true, true, turn.count + |p.code| + 3), resumes, columns, more)
  {
    hide *;
    var ts := Block(p.code);
    var s := StringLiteral.Ticked(p.text) + ("$" + (Join(ts) + more));
    TextFirst(turn, columns, p, more);
    BlockEnds(p.code);
    ResumedIn(resumes, p, turn.count);
    TokensStep(turn, resumes, columns, s);
    BlockRead(Turn(false, true, turn.count + 1), resumes, columns, ts, more);
    Associative([TInterpolated(p.text)], Texts(ts), AllTokens(Turn(true, true, turn.count + |p.code| + 3), resumes, columns, more));
  }

  lemma TextFirst(turn: Turn, columns: nat -> nat, p: Piece, more: string)
    requires turn.inText && WritableOne(p)
    ensures NextRead(turn, columns, StringLiteral.Ticked(p.text) + ("$" + (Join(Block(p.code)) + more)))
         == Read(TInterpolated(p.text), None, Join(Block(p.code)) + more)
    ensures NoClash(Block(p.code))
    ensures forall resumes :: After(turn, TInterpolated(p.text), resumes) == Turn(false, true, turn.count + 1)
  {
    hide Join, Block, IsToken, StringLiteral.Ticked, ReadWithin;
    var after := "$" + (Join(Block(p.code)) + more);
    BlockStart(p.code);
    EndsPiece(p, after);
    hide StringLiteral.HasCrLf, NoClash, StringLiteral.EndsText;
    TextRead(columns(turn.count), p.text, after);
  }

  lemma EndsPiece(p: Piece, after: string)
    requires WritableOne(p) && |after| >= 2 && after[0] == '$' && after[1] == '{'
    ensures StringLiteral.EndsText(p.text, after)
  {
  }

  lemma BlockEnds(code: seq<TokenText>)
    ensures var ts := Block(code); |ts| == |code| + 2 && ts[|ts| - 1] == "}"
  {
  }

  lemma ResumedIn(resumes: nat -> bool, p: Piece, n: nat)
    requires ResumedOne(resumes, p, n)
    ensures resumes(n + |p.code| + 2) && forall k: nat | n + 1 <= k < n + |p.code| + 2 :: !resumes(k)
  {
  }

  lemma BlockStart(code: seq<TokenText>)
    ensures Join(Block(code)) != [] && Join(Block(code))[0] == '{'
  {
    JoinTail(Block(code));
  }

  // ---- the whole literal ----

  function FirstText(pieces: seq<Piece>, last: string): string {
    if pieces == [] then last else pieces[0].text
  }

  // A line end that the text begins with is written twice, because the first one is skipped.
  function Opening(text: string): string {
    if StringLiteral.Starts(text, '\n') || StringLiteral.Starts(text, '\r') then "`\n" else "`"
  }

  function Template(pieces: seq<Piece>, last: string): string {
    Opening(FirstText(pieces, last)) + Written(pieces, last)
  }

  lemma WrittenStart(pieces: seq<Piece>, last: string, rest: string)
    requires Writable(pieces, last) && !StringLiteral.Starts(rest, '`')
    ensures var s, text := Written(pieces, last) + rest, FirstText(pieces, last);
      (StringLiteral.Starts(s, '\n') <==> StringLiteral.Starts(text, '\n')) &&
      (StringLiteral.Starts(s, '\r') <==> StringLiteral.Starts(text, '\r'))
  {
    hide Join, IsToken, NoClash, StringLiteral.Ticked, StringLiteral.HasCrLf;
    if pieces == [] {
      var after := "`" + rest;
      assert Written(pieces, last) + rest == StringLiteral.Ticked(last) + after;
      StringLiteral.TickedStart(last, after);
    } else {
      var p := pieces[0];
      var after := "$" + (Join(Block(p.code)) + (Written(pieces[1..], last) + rest));
      assert p in pieces;
      BlockStart(p.code);
      EndsPiece(p, after);
      assert Written(pieces, last) + rest == StringLiteral.Ticked(p.text) + after;
      StringLiteral.TickedStart(p.text, after);
    }
  }

  // After its opening, a literal is read as a text that is resumed.
  lemma OpeningRead(turn: Turn, columns: nat -> nat, text: string, s: string)
    requires !turn.inText
    requires (StringLiteral.Starts(s, '\n') <==> StringLiteral.Starts(text, '\n'))
    requires (StringLiteral.Starts(s, '\r') <==> StringLiteral.Starts(text, '\r'))
    ensures NextRead(turn, columns, Opening(text) + s) == NextRead(turn.(inText := true), columns, s)
  {
    hide StringLiteral.Scan;
    var t := (Opening(text) + s)[1..];
    assert t == s || t == ['\n'] + s;
    assert StringLiteral.SkipLineEnd(t) == s;
    ReadCases(turn.blocked, columns(turn.count), Opening(text) + s);
  }

  lemma TemplateForm(pieces: seq<Piece>, last: string, rest: string)
    ensures Template(pieces, last) + rest == Opening(FirstText(pieces, last)) + (Written(pieces, last) + rest)
  {
    hide Written, Opening, FirstText;
  }

  // An interpolated string, wherever it stands, gives its texts with the tokens of its blocks between
  // them, and then the tokens of what follows.
  lemma InterpolatedRead(turn: Turn, resumes: nat -> bool, columns: nat -> nat,
                         pieces: seq<Piece>, last: string, rest: string)
    requires !turn.inText && Writable(pieces, last) && Resumed(resumes, pieces, turn.count)
    requires !StringLiteral.Starts(rest, '`')
    ensures AllTokens(turn, resumes, columns, Template(pieces, last) + rest)
         == Meant(pieces, last)
            + AllTokens(Turn(false, true, turn.count + |Meant(pieces, last)|), resumes, columns, rest)
  {
    hide *;
    var text, s := FirstText(pieces, last), Written(pieces, last) + rest;
    TemplateForm(pieces, last, rest);
    WrittenStart(pieces, last, rest);
    OpeningRead(turn, columns, text, s);
    SameNext(turn, turn.(inText := true), resumes, columns, Opening(text) + s, s);
    TemplateRead(turn.(inText := true), resumes, columns, pieces, last, rest);
  }

  // Two states of one count that read the same go on the same.
  lemma SameNext(turn: Turn, turn': Turn, resumes: nat -> bool, columns: nat -> nat, s: string, s': string)
    requires NextRead(turn, columns, s) == NextRead(turn', columns, s') && turn'.count == turn.count
    ensures AllTokens(turn, resumes, columns, s) == AllTokens(turn', resumes, columns, s')
  {
    hide NextRead, AllTokens, IsNextUnary;
    TokensStep(turn, resumes, columns, s);
    TokensStep(turn', resumes, columns, s');
  }
}
