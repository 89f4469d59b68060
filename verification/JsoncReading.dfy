/**
 * What reading a value as JSONC means, by positions and by tokens: comments turn into spaces, commas before a closing
 * delimiter go, and nothing else changes.
 */
module JsoncReading {
  import opened Units
  import opened JsonText
  import opened JsonGrammar
  import opened JsoncGrammar
  import opened JsoncPrint

  // ---------------------------------------------------------------- trailing commas, by positions

  /** Position `i` is in no string literal, reading from the start. */
  predicate Outside(t: Str, i: nat)
    requires i < |t|
    decreases |t|
  {
    if t[0] == QUOTE then
      var n := StringLen(t);
      n.Some? && n.value <= i && Outside(t[n.value..], i - n.value)
    else i == 0 || Outside(t[1..], i - 1)
  }

  predicate LiteralsClosed(t: Str)
    decreases |t|
  {
    if t == [] then true
    else if t[0] == QUOTE then StringLen(t).Some? && LiteralsClosed(t[StringLen(t).value..])
    else LiteralsClosed(t[1..])
  }

  /** The next unit that is no whitespace closes an object or an array. */
  ghost predicate BeforeCloser(t: Str, i: nat)
    requires i < |t|
  {
    exists j :: i < j < |t| && (t[j] == CLOSE_BRACE || t[j] == CLOSE_BRACKET) && forall k :: i < k < j ==> IsSpace(t[k])
  }

  ghost predicate Trails(t: Str, i: nat)
    requires i < |t|
  {
    t[i] == COMMA && Outside(t, i) && BeforeCloser(t, i)
  }

  /** The units from `i` on, without the trailing commas. */
  ghost function Untrailed(t: Str, i: nat): Str
    requires i <= |t|
    decreases |t| - i
  {
    if i == |t| then [] else (if Trails(t, i) then [] else [t[i]]) + Untrailed(t, i + 1)
  }

  lemma CloserShift(t: Str, n: nat, i: nat)
    requires n <= i < |t|
    ensures BeforeCloser(t, i) <==> BeforeCloser(t[n..], i - n)
  {
    var u := t[n..];
    if BeforeCloser(t, i) {
      var j :| i < j < |t| && (t[j] == CLOSE_BRACE || t[j] == CLOSE_BRACKET) && forall k :: i < k < j ==> IsSpace(t[k]);
      assert u[j - n] == t[j];
    }
    if BeforeCloser(u, i - n) {
      var j :| i - n < j < |u| && (u[j] == CLOSE_BRACE || u[j] == CLOSE_BRACKET)
          && forall k :: i - n < k < j ==> IsSpace(u[k]);
      assert t[j + n] == u[j];
      assert forall k :: i < k < j + n ==> t[k] == u[k - n];
    }
  }

  /** Behind a literal, or behind a unit that starts none, positions shift. */
  lemma TrailsShift(t: Str, n: nat, i: nat)
    requires n <= i < |t|
    requires if t[0] == QUOTE then StringLen(t) == Some(n) else n == 1
    ensures Trails(t, i) <==> Trails(t[n..], i - n)
  {
    hide StringTail;
    CloserShift(t, n, i);
  }

  lemma UntrailedUnfold(t: Str, i: nat)
    requires i <= |t|
    ensures Untrailed(t, i) == if i == |t| then [] else if Trails(t, i) then Untrailed(t, i + 1) else [t[i]] + Untrailed(t, i + 1)
  {
    hide Trails;
    if i < |t| { assert [] + Untrailed(t, i + 1) == Untrailed(t, i + 1); }
  }

  lemma {:induction false} UntrailedShift(t: Str, n: nat, i: nat)
    requires n <= i <= |t| && 0 < n <= |t|
    requires if t[0] == QUOTE then StringLen(t) == Some(n) else n == 1
    ensures Untrailed(t, i) == Untrailed(t[n..], i - n)
    decreases |t| - i
  {
    hide Trails, StringTail, Untrailed;
    UntrailedUnfold(t, i);
    UntrailedUnfold(t[n..], i - n);
    if i < |t| {
      TrailsShift(t, n, i);
      UntrailedShift(t, n, i + 1);
      assert t[n..][i - n] == t[i];
    }
  }

  lemma {:induction false} LiteralStays(t: Str, n: nat, i: nat)
    requires i <= n <= |t| && t != [] && t[0] == QUOTE && StringLen(t) == Some(n)
    ensures Untrailed(t, i) == t[i..n] + Untrailed(t, n)
    decreases n - i
  {
    hide StringTail;
    if i < n {
      LiteralStays(t, n, i + 1);
      assert t[i..n] == [t[i]] + t[i + 1..n];
    }
  }

  lemma TrailingMeans(t: Str)
    requires t != [] && t[0] != QUOTE
    ensures IsTrailingComma(t) <==> Trails(t, 0)
  {
    if t[0] == COMMA {
      var n := 1 + SpaceLen(t[1..]);
      assert forall k :: 0 < k < n ==> t[k] == t[1..][k - 1];
      assert n < |t| ==> t[n] == t[1..][n - 1];
    }
  }

  /**
   * removeTrailingCommas gives the text without exactly the commas outside literals whose next unit that is no whitespace
   * is a closing brace or bracket; it fails exactly on an unclosed literal.
   */
  lemma {:induction false} DropsExactly(t: Str)
    ensures DropCommas(t) == if LiteralsClosed(t) then Some(Untrailed(t, 0)) else None
    decreases |t|
  {
    hide StringTail, IsTrailingComma, Trails;
    if t != [] {
      if t[0] == QUOTE {
        if StringLen(t).Some? {
          var n := StringLen(t).value;
          DropsExactly(t[n..]);
          LiteralStays(t, n, 0);
          UntrailedShift(t, n, n);
        }
      } else {
        DropsExactly(t[1..]);
        TrailingMeans(t);
        UntrailedUnfold(t, 0);
        UntrailedShift(t, 1, 1);
      }
    }
  }

  // ---------------------------------------------------------------- comments, by positions

  /** What position `i` holds when comments are blanked, reading from the start. */
  predicate InComment(t: Str, i: nat)
    requires i < |t|
    decreases |t|
  {
    var n := if t[0] == QUOTE then StringLen(t)
             else if |t| > 1 && t[0] == SLASH && t[1] == SLASH then Some(LineEnd(t))
             else if |t| > 1 && t[0] == SLASH && t[1] == STAR then BlockEnd(t)
             else Some(1);
    if n.None? then false
    else if i < n.value then |t| > 1 && t[0] == SLASH && (t[1] == SLASH || t[1] == STAR)
    else 0 < n.value && InComment(t[n.value..], i - n.value)
  }

  /** A line comment ends behind the next line feed, or with the text. */
  function LineEnd(t: Str): (n: nat)
    requires |t| > 1
    ensures n <= |t|
  {
    if IndexOf(t[2..], LF) < |t| - 2 then IndexOf(t[2..], LF) + 3 else |t|
  }

  /** A block comment ends behind the next star and slash; there may be none. */
  function BlockEnd(t: Str): (n: Option<nat>)
    requires |t| > 1
    ensures n.Some? ==> n.value <= |t|
  {
    if CloseAt(t[2..]).None? then None else Some(CloseAt(t[2..]).value + 4)
  }

  /**
   * stripJsonComments turns exactly the units of comments into spaces, except line breaks, and changes nothing else.
   */
  lemma {:induction false} StripsExactly(t: Str)
    requires Strip(t).Some?
    ensures |Strip(t).value| == |t|
    ensures forall i :: 0 <= i < |t| ==>
              Strip(t).value[i] == if InComment(t, i) && t[i] != CR && t[i] != LF then SPACE else t[i]
    decreases |t|
  {
    hide StringTail;
    if t != [] {
      var n := Chunk(t).value;
      StripsExactly(t[n..]);
      forall i | 0 <= i < |t|
        ensures Strip(t).value[i] == if InComment(t, i) && t[i] != CR && t[i] != LF then SPACE else t[i]
      {
        if i >= n { assert t[n..][i - n] == t[i]; }
      }
    }
  }

  // ---------------------------------------------------------------- by tokens

  predicate IsCloserToken(ts: seq<Token>) {
    ts != [] && (ts[0] == Punct(CLOSE_BRACE) || ts[0] == Punct(CLOSE_BRACKET))
  }

  /** The tokens without the commas right before a closing delimiter. */
  function WithoutTrailing(ts: seq<Token>): seq<Token> {
    if ts == [] then []
    else (if ts[0] == Punct(COMMA) && IsCloserToken(ts[1..]) then [] else [ts[0]]) + WithoutTrailing(ts[1..])
  }

  /** The first unit that is no whitespace tells the first token. */
  lemma {:induction false} FirstToken(t: Str)
    requires Lex(t).Some?
    ensures var n := SpaceLen(t);
            IsCloserToken(Lex(t).value) <==> n < |t| && IsCloser(t[n])
    decreases |t|
  {
    hide StringTail, Literal, WordValue;
    if t != [] {
      if IsJsonSpace(t[0]) {
        FirstToken(t[1..]);
      } else if IsSpace(t[0]) {
        OddWord(t);
        assert false;
      } else {
        LexStep(t);
      }
    }
  }

  lemma LexStep(t: Str)
    requires t != [] && !IsJsonSpace(t[0]) && Lex(t).Some?
    ensures var n := if IsPunct(t[0]) then 1 else if t[0] == QUOTE then StringLen(t).value else WordLen(t);
            && (!IsPunct(t[0]) && t[0] == QUOTE ==> StringLen(t).Some?)
            && 0 < n <= |t| && Lex(t[n..]).Some? && Lex(t).value != []
            && Lex(t).value == [Lex(t).value[0]] + Lex(t[n..]).value
            && (if IsPunct(t[0]) then Lex(t).value[0] == Punct(t[0]) else !Lex(t).value[0].Punct?)
  {
    hide StringTail, Literal, WordValue;
    if !IsPunct(t[0]) && t[0] != QUOTE { assert WordLen(t) > 0; }
  }

  /** Dropping commas does not glue a word to what follows it. */
  lemma DropsHead(t: Str)
    requires Lex(t).Some? && DropCommas(t).Some? && (t == [] || !IsWordUnit(t[0]))
    ensures DropCommas(t).value == [] || !IsWordUnit(DropCommas(t).value[0])
  {
    hide StringTail, Literal, WordValue;
    if t != [] && t[0] != QUOTE && IsTrailingComma(t) {
      FirstToken(t[1..]);
      LexStep(t);
      if !IsJsonSpace(t[1]) && IsSpace(t[1]) { OddWord(t[1..]); }
    }
  }

  lemma CommaTokens(t: Str)
    requires t != [] && t[0] == COMMA && Lex(t).Some?
    ensures Lex(t[1..]).Some? && Lex(t).value == [Punct(COMMA)] + Lex(t[1..]).value
    ensures IsTrailingComma(t) <==> IsCloserToken(Lex(t[1..]).value)
  {
    hide Lex;
    LexStep(t);
    FirstToken(t[1..]);
    var n := SpaceLen(t[1..]);
    assert n + 1 < |t| ==> t[1..][n] == t[n + 1];
  }

  lemma KeptToken(x: Token, rest: seq<Token>)
    requires x != Punct(COMMA) || !IsCloserToken(rest)
    ensures WithoutTrailing([x] + rest) == [x] + WithoutTrailing(rest)
  {
    assert ([x] + rest)[1..] == rest;
  }

  lemma GoneToken(rest: seq<Token>)
    requires IsCloserToken(rest)
    ensures WithoutTrailing([Punct(COMMA)] + rest) == WithoutTrailing(rest)
  {
    assert ([Punct(COMMA)] + rest)[1..] == rest;
    assert [] + WithoutTrailing(rest) == WithoutTrailing(rest);
  }

  lemma NoTokens0()
    ensures Lex([]) == Some([]) && DropCommas([]) == Some([]) && WithoutTrailing([]) == []
  {}

  lemma LexSpace(t: Str)
    requires t != [] && IsJsonSpace(t[0])
    ensures Lex(t) == Lex(t[1..])
  {}

  /**
   * The tokens of a text without its trailing commas are its tokens without the commas right before a closing delimiter,
   * for every text that has tokens.
   */
  lemma {:induction false} TokensWithout(t: Str)
    requires Lex(t).Some?
    ensures DropCommas(t).Some? && Lex(DropCommas(t).value) == Some(WithoutTrailing(Lex(t).value))
    decreases |t|
  {
    hide Lex, DropCommas, WithoutTrailing, StringTail, Literal, WordValue, IsTrailingComma, IsWordUnit;
    if t == [] {
      NoTokens0();
    } else if IsJsonSpace(t[0]) {
      LexSpace(t);
      TokensWithout(t[1..]);
      SpaceCalm(t);
      var d := DropCommas(t[1..]).value;
      assert ([t[0]] + d)[1..] == d;
      LexSpace([t[0]] + d);
    } else {
      LexStep(t);
      if t[0] == COMMA {
        CommaTokens(t);
        TokensWithout(t[1..]);
        var d := DropCommas(t[1..]).value;
        CommaDrops(t);
        if IsTrailingComma(t) {
          GoneToken(Lex(t[1..]).value);
        } else {
          KeptToken(Punct(COMMA), Lex(t[1..]).value);
          LexMark(COMMA, d);
        }
      } else if IsPunct(t[0]) {
        TokensWithout(t[1..]);
        PunctCalm(t);
        KeptToken(Punct(t[0]), Lex(t[1..]).value);
        LexMark(t[0], DropCommas(t[1..]).value);
      } else if t[0] == QUOTE {
        LiteralTokens(t);
        TokensWithout(t[StringLen(t).value..]);
        KeptToken(Lex(t).value[0], Lex(t[StringLen(t).value..]).value);
        LiteralAgain(t, DropCommas(t[StringLen(t).value..]).value);
      } else {
        WordTokens(t);
        var n := WordLen(t);
        TokensWithout(t[n..]);
        KeptToken(Lex(t).value[0], Lex(t[n..]).value);
        WordEnds(t);
        DropsHead(t[n..]);
        LexWord(t[..n], DropCommas(t[n..]).value);
      }
    }
  }

  lemma SpaceCalm(t: Str)
    requires t != [] && IsJsonSpace(t[0])
    ensures DropCommas(t) == Join([t[0]], DropCommas(t[1..]))
  {}

  lemma PunctCalm(t: Str)
    requires t != [] && IsPunct(t[0]) && t[0] != COMMA
    ensures DropCommas(t) == Join([t[0]], DropCommas(t[1..]))
  {}

  lemma CommaDrops(t: Str)
    requires t != [] && t[0] == COMMA
    ensures DropCommas(t) == if IsTrailingComma(t) then DropCommas(t[1..]) else Join([COMMA], DropCommas(t[1..]))
  {}

  lemma LiteralTokens(t: Str)
    requires t != [] && t[0] == QUOTE && Lex(t).Some?
    ensures StringLen(t).Some? && Literal(t[..StringLen(t).value]).Some?
    ensures var n := StringLen(t).value;
            && Lex(t[n..]).Some?
            && Lex(t).value == [Text(Literal(t[..n]).value)] + Lex(t[n..]).value
            && DropCommas(t) == Join(t[..n], DropCommas(t[n..]))
  {
    hide StringTail, Literal;
  }

  lemma LiteralAgain(t: Str, d: Str)
    requires t != [] && t[0] == QUOTE && StringLen(t).Some? && Literal(t[..StringLen(t).value]).Some?
    ensures var q := t[..StringLen(t).value]; Lex(q + d) == Prepend([Text(Literal(q).value)], Lex(d))
  {
    hide Literal, Lex;
    var n := StringLen(t).value;
    var q := t[..n];
    StringLenCut(t, n);
    StringLenLocal(q, d);
    assert (q + d)[..n] == q && (q + d)[n..] == d;
    LexLiteral(q + d);
  }

  lemma WordTokens(t: Str)
    requires t != [] && !IsJsonSpace(t[0]) && !IsPunct(t[0]) && t[0] != QUOTE && Lex(t).Some?
    ensures var n := WordLen(t);
            && WordValue(t[..n]).Some? && Lex(t[n..]).Some?
            && Lex(t).value == [Word(WordValue(t[..n]).value)] + Lex(t[n..]).value
            && DropCommas(t) == Join(t[..n], DropCommas(t[n..]))
  {
    hide WordValue, DropCommas, Strip;
    var n := WordLen(t);
    WordUnits(t[..n]);
    CalmText(t[..n], t[n..]);
    assert t[..n] + t[n..] == t;
  }

  lemma WordEnds(t: Str)
    ensures t[WordLen(t)..] == [] || !IsWordUnit(t[WordLen(t)..][0])
  {
    hide IsWordUnit;
  }

  // ---------------------------------------------------------------- a trailing comma

  predicate HasParts(v: Json) { (v.JArr? && v.items != []) || (v.JObj? && v.entries != []) }

  function OpenerOf(v: Json): Unit { if v.JArr? then OPEN_BRACKET else OPEN_BRACE }
  function CloserOf(v: Json): Unit { if v.JArr? then CLOSE_BRACKET else CLOSE_BRACE }

  /** A printed array or object up to its last element. */
  function Head(v: Json, g: Str): seq<Piece>
    requires HasParts(v)
  {
    [Mark(OpenerOf(v)), Gap(Deeper(g))] + if v.JArr? then ItemPieces(v.items, Deeper(g)) else EntryPieces(v.entries, Deeper(g))
  }

  /** The print with a comma, and then `ws`, before the closing delimiter. */
  function TrailingText(v: Json, g: Str, ws: Str): Str
    requires HasParts(v)
  {
    Flat(Head(v, g)) + ([COMMA] + (ws + [CloserOf(v)]))
  }

  lemma HeadSound(v: Json, g: Str)
    requires WellFormed(v) && HasParts(v) && IsGap(g)
    ensures SoundPieces(Head(v, g)) && Pieces(v, g) == Head(v, g) + [Gap(g), Mark(CloserOf(v))]
  {
    hide SoundPieces, ItemPieces, EntryPieces;
    DeeperGap(g);
    FrameSound(OpenerOf(v), CloserOf(v), g);
    if v.JArr? { ItemPiecesSound(v.items, Deeper(g)); } else { EntryPiecesSound(v.entries, Deeper(g)); }
    SoundJoin([Mark(OpenerOf(v)), Gap(Deeper(g))], Head(v, g)[2..]);
  }

  lemma TailText(ws: Str, close: Unit)
    requires AllSpace(ws) && (close == CLOSE_BRACE || close == CLOSE_BRACKET)
    ensures Strip([COMMA] + (ws + [close])) == Some([COMMA] + (ws + [close]))
    ensures DropCommas([COMMA] + (ws + [close])) == Some(ws + [close])
  {
    hide Strip, DropCommas;
    var b := ws + [close];
    var t := [COMMA] + b;
    forall u | u in b ensures IsCalm(u) { if u in ws { assert IsSpace(u); } }
    CalmText(b, []);
    assert b + [] == b;
    CleanNothing();
    CommaHead(b);
    CommaDrops(t);
    assert t[1..] == b;
    SpaceLenOver(ws, [close]);
    assert t[1 + |ws|] == b[|ws|];
    assert IsTrailingComma(t);
  }

  lemma HeadTokens(v: Json, g: Str)
    requires WellFormed(v) && HasParts(v) && IsGap(g)
    ensures PieceTokens(Head(v, g)) + [Punct(CloserOf(v))] == Tokens(v)
  {
    hide Pieces, Head, Tokens;
    PiecesTokens(v, g);
    HeadSound(v, g);
    PieceTokensAppend(Head(v, g), [Gap(g), Mark(CloserOf(v))]);
    FrameTokens(OPEN_BRACKET, CloserOf(v), g, g);
  }

  /**
   * An array or object printed with a comma before its closing delimiter, with any JSON whitespace behind it, is read as
   * the same value.
   */
  lemma TrailingCommaReads(v: Json, g: Str, ws: Str)
    requires WellFormed(v) && HasParts(v) && IsGap(g) && AllJsonSpace(g) && AllJsonSpace(ws)
    ensures ParseJsonc(TrailingText(v, g, ws)) == Some(v) == ParseJsonc(Print(v, g))
  {
    hide Pieces, Tokens, PieceTokens, Flat, Lex, Strip, DropCommas, SoundPieces, ParseValue, Head, JsonGaps;
    var head, close := Head(v, g), CloserOf(v);
    var b := [COMMA] + (ws + [close]);
    HeadSound(v, g);
    TailText(ws, close) by { JsonIsSpace(ws); }
    CleanPieces(head, b);
    HeadTokens(v, g);
    HeadGaps(v, g);
    LexPieces(head, ws + [close]) by { if ws != [] { assert ws[0] in ws; } }
    LexGap(ws, [close]);
    LexMark(close, []);
    assert [close] + [] == [close];
    LexNil();
    assert Tokens(v) + [] == Tokens(v);
    ParseTokens(v, []);
    var t := TrailingText(v, g, ws);
    assert Strip(t) == Some(t) && DropCommas(t) == Some(Flat(head) + (ws + [close]));
    assert [Punct(close)] + [] == [Punct(close)];
    assert Lex(Flat(head) + (ws + [close])) == Some(Tokens(v));
    PrintParse(v, g);
    PrintClean(v, g);
  }

  lemma JsonIsSpace(ws: Str)
    requires AllJsonSpace(ws)
    ensures AllSpace(ws)
  {}

  lemma HeadGaps(v: Json, g: Str)
    requires WellFormed(v) && HasParts(v) && IsGap(g) && AllJsonSpace(g)
    ensures JsonGaps(Head(v, g))
  {
    hide Pieces, Head;
    HeadSound(v, g);
    PiecesGaps(v, g, (h: Str) => AllJsonSpace(h));
    forall p | p in Head(v, g) && p.Gap? ensures AllJsonSpace(p.space) { assert p in Pieces(v, g); }
  }
}
