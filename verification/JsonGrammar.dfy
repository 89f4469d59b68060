/** JSON.parse as a lexer and a parser over tokens, and JSON.stringify(value, null, 2). */
module JsonGrammar {
  import opened Units
  import opened JsonText

  const TRUE_WORD: Str := [0x74, 0x72, 0x75, 0x65]
  const FALSE_WORD: Str := [0x66, 0x61, 0x6C, 0x73, 0x65]
  const NULL_WORD: Str := [0x6E, 0x75, 0x6C, 0x6C]

  // ---------------------------------------------------------------- words

  predicate IsDigit(u: Unit) { 0x30 <= u <= 0x39 }

  predicate IsNumberUnit(u: Unit) {
    IsDigit(u) || u == 0x2B || u == 0x2D || u == 0x2E || u == 0x45 || u == 0x65
  }

  function DigitsLen(t: Str): (n: nat)
    ensures n <= |t|
  {
    if t == [] || !IsDigit(t[0]) then 0 else 1 + DigitsLen(t[1..])
  }

  predicate IsExponent(t: Str) {
    t == []
    || ((t[0] == 0x45 || t[0] == 0x65)
        && var d := if |t| > 1 && (t[1] == 0x2B || t[1] == 0x2D) then t[2..] else t[1..];
           d != [] && DigitsLen(d) == |d|)
  }

  predicate IsFraction(t: Str) {
    if t != [] && t[0] == 0x2E then
      var n := DigitsLen(t[1..]);
      n > 0 && IsExponent(t[1 + n..])
    else IsExponent(t)
  }

  /** Section 6 of RFC 8259. The first conjunct follows from the others. */
  predicate IsNumber(w: Str) {
    && (forall u <- w :: IsNumberUnit(u))
    && var a := if w != [] && w[0] == 0x2D then w[1..] else w;
       var n := DigitsLen(a);
       n > 0 && (a[0] == 0x30 ==> n == 1) && IsFraction(a[n..])
  }

  function WordValue(w: Str): Option<Json> {
    if w == TRUE_WORD then Some(JBool(true))
    else if w == FALSE_WORD then Some(JBool(false))
    else if w == NULL_WORD then Some(JNull)
    else if IsNumber(w) then Some(JNum(w))
    else None
  }

  predicate IsPunct(u: Unit) {
    u == OPEN_BRACE || u == CLOSE_BRACE || u == OPEN_BRACKET || u == CLOSE_BRACKET || u == COMMA || u == COLON
  }

  predicate IsWordUnit(u: Unit) {
    !IsPunct(u) && !IsJsonSpace(u) && u != QUOTE
  }

  /** Units of a word with a value: letters, digits, signs and dots. */
  predicate IsSafeUnit(u: Unit) {
    0x2B <= u <= 0x7A && u != COMMA && u != SLASH && u != COLON && u != BACKSLASH && !IsPunct(u)
  }

  lemma WordUnits(w: Str)
    requires WordValue(w).Some?
    ensures w != [] && forall u <- w :: IsSafeUnit(u) && IsWordUnit(u) && !IsSpace(u)
  {
    hide IsFraction, DigitsLen;
    if w == TRUE_WORD || w == FALSE_WORD || w == NULL_WORD {
    } else {
      assert forall u <- w :: IsNumberUnit(u);
    }
  }

  function WordLen(t: Str): (n: nat)
    ensures n <= |t|
    ensures forall i :: 0 <= i < n ==> IsWordUnit(t[i])
    ensures n < |t| ==> !IsWordUnit(t[n])
  {
    if t == [] || !IsWordUnit(t[0]) then 0 else 1 + WordLen(t[1..])
  }

  // ---------------------------------------------------------------- JSON.parse

  datatype Token = Punct(u: Unit) | Text(s: Str) | Word(value: Json)

  function Prepend(ts: seq<Token>, r: Option<seq<Token>>): Option<seq<Token>> {
    if r.None? then None else Some(ts + r.value)
  }

  function Lex(t: Str): Option<seq<Token>>
    decreases |t|
  {
    if t == [] then Some([])
    else if IsJsonSpace(t[0]) then Lex(t[1..])
    else if IsPunct(t[0]) then Prepend([Punct(t[0])], Lex(t[1..]))
    else if t[0] == QUOTE then
      var n := StringLen(t);
      if n.None? || Literal(t[..n.value]).None? then None
      else Prepend([Text(Literal(t[..n.value]).value)], Lex(t[n.value..]))
    else
      var n := WordLen(t);
      if WordValue(t[..n]).None? then None
      else Prepend([Word(WordValue(t[..n]).value)], Lex(t[n..]))
  }

  datatype Parsed = Bad | Got(value: Json, rest: seq<Token>)
  datatype ParsedItems = BadItems | GotItems(items: seq<Json>, rest: seq<Token>)
  datatype ParsedEntries = BadEntries | GotEntries(entries: seq<Entry>, rest: seq<Token>)

  /** Assigning a property: a repeated name keeps its place and takes the last value. */
  function Put(es: seq<Entry>, k: Str, v: Json): (r: seq<Entry>)
    ensures (forall e <- es :: e.key != k) ==> r == es + [Entry(k, v)]
  {
    if es == [] then [Entry(k, v)]
    else if es[0].key == k then [Entry(k, v)] + es[1..]
    else [es[0]] + Put(es[1..], k, v)
  }

  function ParseValue(ts: seq<Token>): (r: Parsed)
    ensures r.Got? ==> |r.rest| < |ts|
    decreases |ts|, 0
  {
    if ts == [] then Bad
    else match ts[0] {
      case Word(v) => Got(v, ts[1..])
      case Text(s) => Got(JStr(s), ts[1..])
      case Punct(u) =>
        if u == OPEN_BRACKET then
          if |ts| > 1 && ts[1] == Punct(CLOSE_BRACKET) then Got(JArr([]), ts[2..])
          else match ParseItems(ts[1..]) {
            case BadItems => Bad
            case GotItems(items, rest) => Got(JArr(items), rest)
          }
        else if u == OPEN_BRACE then
          if |ts| > 1 && ts[1] == Punct(CLOSE_BRACE) then Got(JObj([]), ts[2..])
          else match ParseEntries(ts[1..], []) {
            case BadEntries => Bad
            case GotEntries(es, rest) => Got(JObj(es), rest)
          }
        else Bad
    }
  }

  function ParseItems(ts: seq<Token>): (r: ParsedItems)
    ensures r.GotItems? ==> |r.rest| < |ts|
    decreases |ts|, 1
  {
    match ParseValue(ts)
    case Bad => BadItems
    case Got(v, rest) =>
      if rest != [] && rest[0] == Punct(CLOSE_BRACKET) then GotItems([v], rest[1..])
      else if rest != [] && rest[0] == Punct(COMMA) then
        match ParseItems(rest[1..]) {
          case BadItems => BadItems
          case GotItems(vs, rest') => GotItems([v] + vs, rest')
        }
      else BadItems
  }

  function ParseEntries(ts: seq<Token>, seen: seq<Entry>): (r: ParsedEntries)
    ensures r.GotEntries? ==> |r.rest| < |ts|
    decreases |ts|, 1
  {
    if |ts| < 2 || !ts[0].Text? || ts[1] != Punct(COLON) then BadEntries
    else match ParseValue(ts[2..])
      case Bad => BadEntries
      case Got(v, rest) =>
        var seen' := Put(seen, ts[0].s, v);
        if rest != [] && rest[0] == Punct(CLOSE_BRACE) then GotEntries(seen', rest[1..])
        else if rest != [] && rest[0] == Punct(COMMA) then ParseEntries(rest[1..], seen')
        else BadEntries
  }

  function JsonParse(t: Str): Option<Json> {
    var ts := Lex(t);
    if ts.None? then None
    else match ParseValue(ts.value)
      case Bad => None
      case Got(v, rest) => if rest == [] then Some(v) else None
  }

  // ---------------------------------------------------------------- JSON.stringify

  /** Values JSON.parse can return: numeric tokens, and property names that differ. */
  predicate WellFormed(v: Json) {
    match v
    case JNum(token) => IsNumber(token)
    case JArr(items) => forall x <- items :: WellFormed(x)
    case JObj(entries) => DistinctKeys(entries) && forall e <- entries :: WellFormed(e.value)
    case _ => true
  }

  predicate DistinctKeys(es: seq<Entry>) {
    forall i, j :: 0 <= i < j < |es| ==> es[i].key != es[j].key
  }

  /** A printed value, piece by piece; a gap is the line break and indentation between two pieces. */
  datatype Piece = Mark(u: Unit) | Gap(space: Str) | Quoted(s: Str) | Bare(w: Str)

  function PieceText(p: Piece): Str {
    match p
    case Mark(u) => [u]
    case Gap(space) => space
    case Quoted(s) => Quote(s)
    case Bare(w) => w
  }

  function Flat(ps: seq<Piece>): Str {
    if ps == [] then [] else PieceText(ps[0]) + Flat(ps[1..])
  }

  function Deeper(gap: Str): Str { gap + [SPACE, SPACE] }

  function Pieces(v: Json, gap: Str): seq<Piece>
    decreases v
  {
    match v
    case JNull => [Bare(NULL_WORD)]
    case JBool(b) => [Bare(if b then TRUE_WORD else FALSE_WORD)]
    case JNum(token) => [Bare(token)]
    case JStr(s) => [Quoted(s)]
    case JArr(items) =>
      if items == [] then [Mark(OPEN_BRACKET), Mark(CLOSE_BRACKET)]
      else [Mark(OPEN_BRACKET), Gap(Deeper(gap))] + ItemPieces(items, Deeper(gap)) + [Gap(gap), Mark(CLOSE_BRACKET)]
    case JObj(entries) =>
      if entries == [] then [Mark(OPEN_BRACE), Mark(CLOSE_BRACE)]
      else [Mark(OPEN_BRACE), Gap(Deeper(gap))] + EntryPieces(entries, Deeper(gap)) + [Gap(gap), Mark(CLOSE_BRACE)]
  }

  function ItemPieces(items: seq<Json>, gap: Str): seq<Piece>
    requires items != []
    decreases items
  {
    Pieces(items[0], gap)
    + if |items| == 1 then [] else [Mark(COMMA), Gap(gap)] + ItemPieces(items[1..], gap)
  }

  function EntryPieces(entries: seq<Entry>, gap: Str): seq<Piece>
    requires entries != []
    decreases entries
  {
    [Quoted(entries[0].key), Mark(COLON), Gap([SPACE])] + Pieces(entries[0].value, gap)
    + if |entries| == 1 then [] else [Mark(COMMA), Gap(gap)] + EntryPieces(entries[1..], gap)
  }

  /** JSON.stringify(v, null, 2), with `gap` for the line break of the outermost level. */
  function Print(v: Json, gap: Str): Str {
    Flat(Pieces(v, gap))
  }

  // ---------------------------------------------------------------- lexing a print

  lemma {:induction false} FlatAppend(a: seq<Piece>, b: seq<Piece>)
    ensures Flat(a + b) == Flat(a) + Flat(b)
  {
    hide PieceText;
    if a == [] {
      assert a + b == b;
    } else {
      FlatAppend(a[1..], b);
      assert (a + b)[1..] == a[1..] + b;
    }
  }

  function PieceToken(p: Piece): seq<Token> {
    match p
    case Mark(u) => [Punct(u)]
    case Gap(_) => []
    case Quoted(s) => [Text(s)]
    case Bare(w) => if WordValue(w).Some? then [Word(WordValue(w).value)] else []
  }

  function PieceTokens(ps: seq<Piece>): seq<Token> {
    if ps == [] then [] else PieceToken(ps[0]) + PieceTokens(ps[1..])
  }

  /** A piece on its own: marks are punctuation, gaps are whitespace, bare words have a value. */
  predicate SoundPiece(p: Piece) {
    match p
    case Mark(u) => IsPunct(u)
    case Gap(space) => space != [] && AllSpace(space)
    case Quoted(_) => true
    case Bare(w) => WordValue(w).Some?
  }

  /** Neighbouring pieces: words and gaps do not touch, and a comma is followed by a gap and a value. */
  predicate SoundPieces(ps: seq<Piece>) {
    && (forall p <- ps :: SoundPiece(p))
    && (forall i :: 0 <= i < |ps| - 1 ==> MayTouch(ps[i], ps[i + 1]))
    && (forall i :: 0 <= i < |ps| && ps[i] == Mark(COMMA) ==>
          i + 2 < |ps| && ps[i + 1].Gap? && StartsValue(ps[i + 2]))
  }

  predicate MayTouch(p: Piece, q: Piece) {
    !(p.Bare? && q.Bare?) && !(p.Gap? && q.Gap?)
  }

  predicate StartsValue(p: Piece) {
    match p
    case Mark(u) => u == OPEN_BRACE || u == OPEN_BRACKET
    case Gap(_) => false
    case Quoted(_) => true
    case Bare(_) => true
  }

  predicate JsonGaps(ps: seq<Piece>) {
    forall p <- ps :: p.Gap? ==> AllJsonSpace(p.space)
  }

  lemma {:induction false} LexGap(g: Str, b: Str)
    requires AllJsonSpace(g)
    ensures Lex(g + b) == Lex(b)
  {
    if g == [] {
      assert g + b == b;
    } else {
      assert g[0] in g;
      LexGap(g[1..], b);
      assert (g + b)[1..] == g[1..] + b;
    }
  }

  lemma LexQuoted(s: Str, b: Str)
    ensures Lex(Quote(s) + b) == Prepend([Text(s)], Lex(b))
    ensures IsStringText(Quote(s)) && Literal(Quote(s)) == Some(s)
  {
    hide Escape, Lex;
    var q := Quote(s);
    QuoteLiteral(s);
    StringLenLocal(q, b);
    var t := q + b;
    assert t[..|q|] == q && t[|q|..] == b;
    LexLiteral(t);
  }

  lemma LexLiteral(t: Str)
    requires t != [] && t[0] == QUOTE && StringLen(t).Some? && Literal(t[..StringLen(t).value]).Some?
    ensures var n := StringLen(t).value; Lex(t) == Prepend([Text(Literal(t[..n]).value)], Lex(t[n..]))
  {
    hide Literal, StringTail;
  }

  lemma QuoteLiteral(s: Str)
    ensures IsStringText(Quote(s)) && Literal(Quote(s)) == Some(s)
    ensures LF !in Quote(s)
  {
    hide Escape, Unescape;
    var q := Quote(s);
    EscapeTail(s, [QUOTE]);
    assert q[1..] == Escape(s) + [QUOTE];
    assert Unescape([]) == Some([]) by { UnescapeNil(); }
    EscapeRoundTrip(s, []);
    assert q[1..|q| - 1] == Escape(s) + [];
    assert s + [] == s;
  }

  lemma UnescapeNil()
    ensures Unescape([]) == Some([])
  {}

  lemma LexWord(w: Str, b: Str)
    requires WordValue(w).Some?
    requires b == [] || !IsWordUnit(b[0])
    ensures Lex(w + b) == Prepend([Word(WordValue(w).value)], Lex(b))
  {
    hide WordValue;
    WordUnits(w);
    var t := w + b;
    forall i | 0 <= i < |w| ensures IsWordUnit(t[i]) { assert t[i] == w[i] && w[i] in w; }
    assert b != [] ==> t[|w|] == b[0];
    var n := WordLen(t);
    assert n == |w|;
    assert t[..n] == w && t[n..] == b;
  }

  lemma LexPiece(p: Piece, b: Str)
    requires SoundPiece(p) && (p.Gap? ==> AllJsonSpace(p.space))
    requires p.Bare? ==> b == [] || !IsWordUnit(b[0])
    ensures Lex(PieceText(p) + b) == Prepend(PieceToken(p), Lex(b))
  {
    hide Lex, WordValue, Quote;
    match p {
      case Mark(u) => LexMark(u, b);
      case Gap(g) =>
        LexGap(g, b);
        assert Lex(b).Some? ==> [] + Lex(b).value == Lex(b).value;
      case Quoted(s) => LexQuoted(s, b);
      case Bare(w) => LexWord(w, b);
    }
  }

  lemma {:induction false} LexPieces(ps: seq<Piece>, b: Str)
    requires SoundPieces(ps) && JsonGaps(ps)
    requires b == [] || !IsWordUnit(b[0])
    ensures Lex(Flat(ps) + b) == Prepend(PieceTokens(ps), Lex(b))
  {
    hide Lex, WordValue, PieceText, PieceToken, IsWordUnit, Prepend;
    if ps == [] {
      assert [] + b == b;
      assert Prepend([], Lex(b)) == Lex(b) by { PrependNothing(Lex(b)); }
    } else {
      var p, rest := ps[0], Flat(ps[1..]) + b;
      assert p in ps && SoundPiece(p);
      SoundTail(ps);
      assert Flat(ps) + b == PieceText(p) + rest;
      LexPieces(ps[1..], b);
      if p.Bare? { HeadNotWord(ps[1..], b); }
      LexPiece(p, rest);
      PrependAppend(PieceToken(p), PieceTokens(ps[1..]), Lex(b));
    }
  }

  lemma PrependNothing(r: Option<seq<Token>>)
    ensures Prepend([], r) == r
  {
    if r.Some? { assert [] + r.value == r.value; }
  }

  lemma PrependAppend(a: seq<Token>, b: seq<Token>, r: Option<seq<Token>>)
    ensures Prepend(a, Prepend(b, r)) == Prepend(a + b, r)
  {
    if r.Some? { assert a + (b + r.value) == a + b + r.value; }
  }

  lemma LexMark(u: Unit, b: Str)
    requires IsPunct(u)
    ensures Lex([u] + b) == Prepend([Punct(u)], Lex(b))
  {
    assert ([u] + b)[1..] == b;
  }

  lemma SoundTail(ps: seq<Piece>)
    requires ps != [] && SoundPieces(ps)
    ensures forall p <- ps[1..] :: SoundPiece(p)
    ensures |ps| > 1 ==> MayTouch(ps[0], ps[1])
    ensures SoundPieces(ps[1..])
  {
    var t := ps[1..];
    forall i | 0 <= i < |t| - 1 ensures MayTouch(t[i], t[i + 1]) {
      assert MayTouch(ps[i + 1], ps[i + 2]);
    }
    forall i | 0 <= i < |t| && t[i] == Mark(COMMA)
      ensures i + 2 < |t| && t[i + 1].Gap? && StartsValue(t[i + 2])
    {
      assert ps[i + 1] == Mark(COMMA);
      assert ps[i + 2] == t[i + 1] && ps[i + 3] == t[i + 2];
    }
  }

  lemma HeadNotWord(ps: seq<Piece>, b: Str)
    requires forall p <- ps :: SoundPiece(p)
    requires ps == [] || (!ps[0].Bare? && (ps[0].Gap? ==> AllJsonSpace(ps[0].space)))
    requires b == [] || !IsWordUnit(b[0])
    ensures Flat(ps) + b == [] || !IsWordUnit((Flat(ps) + b)[0])
  {
    hide Escape;
    if ps == [] {
      assert Flat(ps) + b == b;
    } else {
      assert ps[0] in ps && SoundPiece(ps[0]);
      var t := PieceText(ps[0]);
      assert t != [] && (Flat(ps) + b)[0] == t[0];
      assert t[0] in t;
    }
  }

  // ---------------------------------------------------------------- the print of a value is sound

  lemma SoundJoin(a: seq<Piece>, b: seq<Piece>)
    requires SoundPieces(a) && SoundPieces(b)
    requires a != [] && b != [] ==> MayTouch(a[|a| - 1], b[0])
    ensures SoundPieces(a + b)
  {
    var c := a + b;
    forall i | 0 <= i < |c| && c[i] == Mark(COMMA)
      ensures i + 2 < |c| && c[i + 1].Gap? && StartsValue(c[i + 2])
    {
      if i < |a| {
        assert a[i] == Mark(COMMA);
        assert c[i + 1] == a[i + 1] && c[i + 2] == a[i + 2];
      } else {
        assert b[i - |a|] == Mark(COMMA);
        assert c[i + 1] == b[i - |a| + 1] && c[i + 2] == b[i - |a| + 2];
      }
    }
    forall i | 0 <= i < |c| - 1 ensures MayTouch(c[i], c[i + 1]) {
      if i < |a| - 1 {
        assert MayTouch(a[i], a[i + 1]);
      } else if i >= |a| {
        assert MayTouch(b[i - |a|], b[i - |a| + 1]);
      }
    }
  }

  predicate IsGap(g: Str) { g != [] && AllSpace(g) }

  lemma DeeperGap(g: Str)
    requires IsGap(g)
    ensures IsGap(Deeper(g))
  {}

  /** What holds of the pieces of a value, and of a list of members. */
  predicate SoundValue(ps: seq<Piece>) {
    SoundPieces(ps) && ps != [] && StartsValue(ps[0]) && !ps[|ps| - 1].Gap?
  }

  lemma {:induction false} PiecesSound(v: Json, g: Str)
    requires WellFormed(v) && IsGap(g)
    ensures SoundValue(Pieces(v, g))
    decreases v
  {
    hide SoundPieces, WordValue, ItemPieces, EntryPieces;
    match v {
      case JArr(items) =>
        FrameSound(OPEN_BRACKET, CLOSE_BRACKET, g);
        if items != [] {
          DeeperGap(g);
          ItemPiecesSound(items, Deeper(g));
          Bracketed([Mark(OPEN_BRACKET), Gap(Deeper(g))], ItemPieces(items, Deeper(g)), [Gap(g), Mark(CLOSE_BRACKET)]);
        }
      case JObj(entries) =>
        FrameSound(OPEN_BRACE, CLOSE_BRACE, g);
        if entries != [] {
          DeeperGap(g);
          EntryPiecesSound(entries, Deeper(g));
          Bracketed([Mark(OPEN_BRACE), Gap(Deeper(g))], EntryPieces(entries, Deeper(g)), [Gap(g), Mark(CLOSE_BRACE)]);
        }
      case JNum(token) => LeafSound(Bare(token));
      case JNull => LeafSound(Bare(NULL_WORD));
      case JBool(b) => LeafSound(Bare(if b then TRUE_WORD else FALSE_WORD));
      case JStr(s) => LeafSound(Quoted(s));
    }
  }

  lemma LeafSound(p: Piece)
    requires p.Quoted? || (p.Bare? && (p.w in {TRUE_WORD, FALSE_WORD, NULL_WORD} || IsNumber(p.w)))
    ensures SoundPieces([p])
  {}

  lemma FrameSound(open: Unit, close: Unit, g: Str)
    requires IsPunct(open) && IsPunct(close) && open != COMMA && close != COMMA && IsGap(g)
    ensures SoundPieces([Mark(open), Mark(close)])
    ensures SoundPieces([Mark(open), Gap(Deeper(g))]) && SoundPieces([Gap(g), Mark(close)])
  {
    hide IsPunct;
    DeeperGap(g);
  }

  lemma Bracketed(a: seq<Piece>, m: seq<Piece>, b: seq<Piece>)
    requires SoundPieces(a) && SoundValue(m) && SoundPieces(b)
    requires a != [] && MayTouch(a[|a| - 1], m[0]) && StartsValue(a[0])
    requires b != [] && MayTouch(m[|m| - 1], b[0]) && !b[|b| - 1].Gap?
    ensures SoundValue(a + m + b)
  {
    hide SoundPieces;
    SoundJoin(a, m);
    SoundJoin(a + m, b);
  }

  lemma {:induction false} ItemPiecesSound(items: seq<Json>, g: Str)
    requires items != [] && (forall x <- items :: WellFormed(x)) && IsGap(g)
    ensures SoundValue(ItemPieces(items, g))
    decreases items
  {
    hide SoundPieces, Pieces;
    assert items[0] in items;
    PiecesSound(items[0], g);
    var head := Pieces(items[0], g);
    if |items| == 1 {
      assert head + [] == head;
    } else {
      ItemPiecesSound(items[1..], g);
      CommaJoin(head, ItemPieces(items[1..], g), g);
    }
  }

  lemma {:induction false} EntryPiecesSound(entries: seq<Entry>, g: Str)
    requires entries != [] && (forall e <- entries :: WellFormed(e.value)) && IsGap(g)
    ensures SoundValue(EntryPieces(entries, g))
    decreases entries
  {
    hide SoundPieces, Pieces;
    assert entries[0] in entries;
    PiecesSound(entries[0].value, g);
    var name := [Quoted(entries[0].key), Mark(COLON), Gap([SPACE])];
    var head := name + Pieces(entries[0].value, g);
    assert SoundPieces(name) by { NameSound(entries[0].key); }
    SoundJoin(name, Pieces(entries[0].value, g));
    if |entries| == 1 {
      assert head + [] == head;
    } else {
      EntryPiecesSound(entries[1..], g);
      CommaJoin(head, EntryPieces(entries[1..], g), g);
    }
  }

  lemma NameSound(key: Str)
    ensures SoundPieces([Quoted(key), Mark(COLON), Gap([SPACE])])
  {}

  lemma CommaJoin(a: seq<Piece>, b: seq<Piece>, g: Str)
    requires SoundValue(a) && SoundValue(b) && IsGap(g)
    ensures SoundValue(a + ([Mark(COMMA), Gap(g)] + b))
  {
    var c := [Mark(COMMA), Gap(g)] + b;
    forall i | 0 <= i < |c| && c[i] == Mark(COMMA)
      ensures i + 2 < |c| && c[i + 1].Gap? && StartsValue(c[i + 2])
    {
      if i >= 2 {
        assert b[i - 2] == Mark(COMMA);
        assert c[i + 1] == b[i - 1] && c[i + 2] == b[i];
      }
    }
    forall i | 0 <= i < |c| - 1 ensures MayTouch(c[i], c[i + 1]) {
      if i >= 2 { assert MayTouch(b[i - 2], b[i - 1]); }
    }
    SoundJoin(a, c);
  }

  // ---------------------------------------------------------------- the gaps of a print

  predicate GapsAre(ps: seq<Piece>, ok: Str -> bool) {
    forall p <- ps :: p.Gap? ==> ok(p.space)
  }

  /** A property of gaps that deeper nesting keeps. */
  ghost predicate Nests(ok: Str -> bool) {
    ok([SPACE]) && forall h :: ok(h) ==> ok(Deeper(h))
  }

  lemma {:induction false} PiecesGaps(v: Json, g: Str, ok: Str -> bool)
    requires Nests(ok) && ok(g)
    ensures GapsAre(Pieces(v, g), ok)
    decreases v
  {
    hide ItemPieces, EntryPieces, Deeper;
    assert ok(Deeper(g));
    match v {
      case JArr(items) => if items != [] { ItemPiecesGaps(items, Deeper(g), ok); }
      case JObj(entries) => if entries != [] { EntryPiecesGaps(entries, Deeper(g), ok); }
      case _ =>
    }
  }

  lemma {:induction false} ItemPiecesGaps(items: seq<Json>, g: Str, ok: Str -> bool)
    requires items != [] && Nests(ok) && ok(g)
    ensures GapsAre(ItemPieces(items, g), ok)
    decreases items
  {
    hide Pieces;
    PiecesGaps(items[0], g, ok);
    if |items| > 1 { ItemPiecesGaps(items[1..], g, ok); }
  }

  lemma {:induction false} EntryPiecesGaps(entries: seq<Entry>, g: Str, ok: Str -> bool)
    requires entries != [] && Nests(ok) && ok(g)
    ensures GapsAre(EntryPieces(entries, g), ok)
    decreases entries
  {
    hide Pieces;
    PiecesGaps(entries[0].value, g, ok);
    if |entries| > 1 { EntryPiecesGaps(entries[1..], g, ok); }
  }

  // ---------------------------------------------------------------- parsing a print

  function Tokens(v: Json): seq<Token>
    decreases v
  {
    match v
    case JStr(s) => [Text(s)]
    case JArr(items) =>
      [Punct(OPEN_BRACKET)] + (if items == [] then [] else ItemTokens(items)) + [Punct(CLOSE_BRACKET)]
    case JObj(entries) =>
      [Punct(OPEN_BRACE)] + (if entries == [] then [] else EntryTokens(entries)) + [Punct(CLOSE_BRACE)]
    case _ => [Word(v)]
  }

  function ItemTokens(items: seq<Json>): seq<Token>
    requires items != []
    decreases items
  {
    Tokens(items[0]) + if |items| == 1 then [] else [Punct(COMMA)] + ItemTokens(items[1..])
  }

  function EntryTokens(entries: seq<Entry>): seq<Token>
    requires entries != []
    decreases entries
  {
    [Text(entries[0].key), Punct(COLON)] + Tokens(entries[0].value)
    + if |entries| == 1 then [] else [Punct(COMMA)] + EntryTokens(entries[1..])
  }

  lemma {:induction false} PieceTokensAppend(a: seq<Piece>, b: seq<Piece>)
    ensures PieceTokens(a + b) == PieceTokens(a) + PieceTokens(b)
  {
    hide PieceToken;
    if a == [] {
      assert a + b == b;
    } else {
      PieceTokensAppend(a[1..], b);
      assert (a + b)[1..] == a[1..] + b;
      assert PieceTokens(a + b) == PieceToken(a[0]) + (PieceTokens(a[1..]) + PieceTokens(b));
    }
  }

  lemma Bracketing(a: seq<Piece>, m: seq<Piece>, b: seq<Piece>)
    ensures PieceTokens(a + m + b) == PieceTokens(a) + PieceTokens(m) + PieceTokens(b)
  {
    PieceTokensAppend(a, m);
    PieceTokensAppend(a + m, b);
  }

  lemma FrameTokens(open: Unit, close: Unit, g: Str, h: Str)
    ensures PieceTokens([Mark(open), Gap(g)]) == [Punct(open)]
    ensures PieceTokens([Gap(h), Mark(close)]) == [Punct(close)]
    ensures PieceTokens([Mark(open), Mark(close)]) == [Punct(open)] + [] + [Punct(close)]
  {
    SingleToken(Gap(g));
    SingleToken(Mark(close));
    assert [Mark(open), Gap(g)][1..] == [Gap(g)];
    assert [Gap(h), Mark(close)][1..] == [Mark(close)];
    assert [Mark(open), Mark(close)][1..] == [Mark(close)];
  }

  lemma {:induction false} PiecesTokens(v: Json, g: Str)
    requires WellFormed(v)
    ensures PieceTokens(Pieces(v, g)) == Tokens(v)
    decreases v
  {
    hide IsNumber, ItemPieces, EntryPieces, ItemTokens, EntryTokens, PieceTokens;
    match v {
      case JArr(items) =>
        FrameTokens(OPEN_BRACKET, CLOSE_BRACKET, Deeper(g), g);
        if items != [] {
          ItemPiecesTokens(items, Deeper(g));
          Bracketing([Mark(OPEN_BRACKET), Gap(Deeper(g))], ItemPieces(items, Deeper(g)), [Gap(g), Mark(CLOSE_BRACKET)]);
        }
      case JObj(entries) =>
        FrameTokens(OPEN_BRACE, CLOSE_BRACE, Deeper(g), g);
        if entries != [] {
          EntryPiecesTokens(entries, Deeper(g));
          Bracketing([Mark(OPEN_BRACE), Gap(Deeper(g))], EntryPieces(entries, Deeper(g)), [Gap(g), Mark(CLOSE_BRACE)]);
        }
      case JNum(token) => LeafTokens(Bare(token), v);
      case JNull => LeafTokens(Bare(NULL_WORD), v);
      case JBool(b) => LeafTokens(Bare(if b then TRUE_WORD else FALSE_WORD), v);
      case JStr(s) => SingleToken(Quoted(s));
    }
  }

  lemma SingleToken(p: Piece)
    ensures PieceTokens([p]) == PieceToken(p)
  {
    hide PieceToken;
    assert [p][1..] == [];
  }

  lemma LeafTokens(p: Piece, v: Json)
    requires p.Bare?
    requires match v
             case JNull => p.w == NULL_WORD
             case JBool(b) => p.w == if b then TRUE_WORD else FALSE_WORD
             case JNum(token) => p.w == token && IsNumber(token)
             case _ => false
    ensures PieceTokens([p]) == [Word(v)]
  {
    SingleToken(p);
    if v.JNum? { NumberIsNoLetter(p.w); }
  }

  lemma NumberIsNoLetter(w: Str)
    requires IsNumber(w)
    ensures WordValue(w) == Some(JNum(w))
  {
    hide DigitsLen, IsFraction;
    assert w != [] && w[0] in w;
  }

  lemma {:induction false} ItemPiecesTokens(items: seq<Json>, g: Str)
    requires items != [] && forall x <- items :: WellFormed(x)
    ensures PieceTokens(ItemPieces(items, g)) == ItemTokens(items)
    decreases items
  {
    hide Pieces, Tokens;
    assert items[0] in items;
    PiecesTokens(items[0], g);
    if |items| == 1 {
      assert Pieces(items[0], g) + [] == Pieces(items[0], g);
    } else {
      ItemPiecesTokens(items[1..], g);
      Bracketing(Pieces(items[0], g), [Mark(COMMA), Gap(g)], ItemPieces(items[1..], g));
      assert Pieces(items[0], g) + ([Mark(COMMA), Gap(g)] + ItemPieces(items[1..], g))
          == Pieces(items[0], g) + [Mark(COMMA), Gap(g)] + ItemPieces(items[1..], g);
      FrameTokens(COMMA, COMMA, g, g);
    }
  }

  lemma {:induction false} EntryPiecesTokens(entries: seq<Entry>, g: Str)
    requires entries != [] && forall e <- entries :: WellFormed(e.value)
    ensures PieceTokens(EntryPieces(entries, g)) == EntryTokens(entries)
    decreases entries
  {
    hide Pieces, Tokens, PieceTokens;
    assert entries[0] in entries;
    var e := entries[0];
    PiecesTokens(e.value, g);
    var name := [Quoted(e.key), Mark(COLON), Gap([SPACE])];
    NameTokens(e.key);
    PieceTokensAppend(name, Pieces(e.value, g));
    if |entries| == 1 {
      assert name + Pieces(e.value, g) + [] == name + Pieces(e.value, g);
    } else {
      var tail := EntryPieces(entries[1..], g);
      EntryPiecesTokens(entries[1..], g);
      Bracketing(name + Pieces(e.value, g), [Mark(COMMA), Gap(g)], tail);
      assert name + Pieces(e.value, g) + ([Mark(COMMA), Gap(g)] + tail)
          == name + Pieces(e.value, g) + [Mark(COMMA), Gap(g)] + tail;
      FrameTokens(COMMA, COMMA, g, g);
    }
  }

  lemma NameTokens(key: Str)
    ensures PieceTokens([Quoted(key), Mark(COLON), Gap([SPACE])]) == [Text(key), Punct(COLON)]
  {
    var ps := [Quoted(key), Mark(COLON), Gap([SPACE])];
    assert ps[1..] == [Mark(COLON), Gap([SPACE])];
    FrameTokens(COLON, COLON, [SPACE], [SPACE]);
  }

  lemma {:induction false} ParseTokens(v: Json, rest: seq<Token>)
    requires WellFormed(v)
    ensures ParseValue(Tokens(v) + rest) == Got(v, rest)
    decreases v
  {
    hide ItemTokens, EntryTokens, ParseItems, ParseEntries, IsNumber;
    var ts := Tokens(v) + rest;
    match v {
      case JArr(items) =>
        if items == [] {
          assert ts[2..] == rest;
        } else {
          ParseItemTokens(items, rest);
          assert ts[1..] == ItemTokens(items) + [Punct(CLOSE_BRACKET)] + rest;
          ItemTokensHead(items);
        }
      case JObj(entries) =>
        if entries == [] {
          assert ts[2..] == rest;
        } else {
          ParseEntryTokens([], entries, rest);
          assert ts[1..] == EntryTokens(entries) + [Punct(CLOSE_BRACE)] + rest;
          EntryTokensHead(entries);
          assert [] + entries == entries;
        }
      case _ => assert ts[1..] == rest;
    }
  }

  lemma ItemTokensHead(items: seq<Json>)
    requires items != []
    ensures ItemTokens(items) != [] && ItemTokens(items)[0] != Punct(CLOSE_BRACKET)
  {
    hide ItemTokens, EntryTokens;
    var t := Tokens(items[0]);
    assert t != [] && t[0] != Punct(CLOSE_BRACKET);
    assert ItemTokens(items)[0] == t[0] by { ItemTokensFirst(items); }
  }

  lemma ItemTokensFirst(items: seq<Json>)
    requires items != [] && Tokens(items[0]) != []
    ensures ItemTokens(items) != [] && ItemTokens(items)[0] == Tokens(items[0])[0]
  {
    hide Tokens;
  }

  lemma EntryTokensHead(entries: seq<Entry>)
    requires entries != []
    ensures EntryTokens(entries) != [] && EntryTokens(entries)[0].Text?
  {
    hide Tokens;
  }

  lemma {:induction false} ParseItemTokens(items: seq<Json>, rest: seq<Token>)
    requires items != [] && forall x <- items :: WellFormed(x)
    ensures ParseItems(ItemTokens(items) + [Punct(CLOSE_BRACKET)] + rest) == GotItems(items, rest)
    decreases items
  {
    hide Tokens, ParseValue;
    assert items[0] in items;
    var ts := ItemTokens(items) + [Punct(CLOSE_BRACKET)] + rest;
    if |items| == 1 {
      ParseTokens(items[0], [Punct(CLOSE_BRACKET)] + rest);
      assert ts == Tokens(items[0]) + ([Punct(CLOSE_BRACKET)] + rest);
      assert items == [items[0]];
    } else {
      var more := ItemTokens(items[1..]) + [Punct(CLOSE_BRACKET)] + rest;
      ParseItemTokens(items[1..], rest);
      ParseTokens(items[0], [Punct(COMMA)] + more);
      assert ts == Tokens(items[0]) + ([Punct(COMMA)] + more);
      assert ([Punct(COMMA)] + more)[1..] == more;
      assert items == [items[0]] + items[1..];
    }
  }

  lemma {:induction false} ParseEntryTokens(seen: seq<Entry>, entries: seq<Entry>, rest: seq<Token>)
    requires entries != [] && forall e <- entries :: WellFormed(e.value)
    requires DistinctKeys(seen + entries)
    ensures ParseEntries(EntryTokens(entries) + [Punct(CLOSE_BRACE)] + rest, seen) == GotEntries(seen + entries, rest)
    decreases entries
  {
    hide Tokens, ParseValue, Put, WellFormed;
    var e := entries[0];
    assert e in entries;
    var ts := EntryTokens(entries) + [Punct(CLOSE_BRACE)] + rest;
    forall x <- seen ensures x.key != e.key {
      var i :| 0 <= i < |seen| && seen[i] == x;
      assert (seen + entries)[i] == x && (seen + entries)[|seen|] == e;
    }
    assert Put(seen, e.key, e.value) == seen + [e] by { PutFresh(seen, e); }
    if |entries| == 1 {
      ParseTokens(e.value, [Punct(CLOSE_BRACE)] + rest);
      assert ts[2..] == Tokens(e.value) + ([Punct(CLOSE_BRACE)] + rest);
      assert entries == [e];
    } else {
      var more := EntryTokens(entries[1..]) + [Punct(CLOSE_BRACE)] + rest;
      assert seen + [e] + entries[1..] == seen + entries;
      ParseEntryTokens(seen + [e], entries[1..], rest);
      ParseTokens(e.value, [Punct(COMMA)] + more);
      assert ts[2..] == Tokens(e.value) + ([Punct(COMMA)] + more);
      assert ([Punct(COMMA)] + more)[1..] == more;
    }
  }

  lemma PutFresh(seen: seq<Entry>, e: Entry)
    requires forall x <- seen :: x.key != e.key
    ensures Put(seen, e.key, e.value) == seen + [e]
  {}

  /** Parsing undoes printing, for every value and every indentation JSON allows. */
  lemma PrintParse(v: Json, g: Str)
    requires WellFormed(v) && IsGap(g) && AllJsonSpace(g)
    ensures JsonParse(Print(v, g)) == Some(v)
  {
    hide Pieces, Tokens, PieceTokens, Flat, Lex, SoundPieces, ParseValue;
    PiecesSound(v, g);
    PiecesGaps(v, g, (h: Str) => AllJsonSpace(h));
    PiecesTokens(v, g);
    LexPieces(Pieces(v, g), []);
    assert Flat(Pieces(v, g)) + [] == Flat(Pieces(v, g));
    assert Lex([]) == Some([]) by { LexNil(); }
    assert Tokens(v) + [] == Tokens(v);
    ParseTokens(v, []);
  }

  lemma LexNil()
    ensures Lex([]) == Some([])
  {}

  // ---------------------------------------------------------------- what JSON.parse returns is well formed

  predicate SoundTokens(ts: seq<Token>) {
    forall t <- ts :: t.Word? ==> WellFormed(t.value)
  }

  lemma {:induction false} LexSound(t: Str)
    ensures Lex(t).Some? ==> SoundTokens(Lex(t).value)
    decreases |t|
  {
    hide IsNumber, Literal, StringTail, IsPunct;
    if t == [] {
    } else if IsJsonSpace(t[0]) || IsPunct(t[0]) {
      LexSound(t[1..]);
    } else if t[0] == QUOTE {
      if StringLen(t).Some? { LexSound(t[StringLen(t).value..]); }
    } else {
      var n := WordLen(t);
      if WordValue(t[..n]).Some? {
        assert n > 0;
        LexSound(t[n..]);
      }
    }
  }

  predicate SoundEntries(es: seq<Entry>) {
    DistinctKeys(es) && forall e <- es :: WellFormed(e.value)
  }

  lemma {:induction false} PutField(es: seq<Entry>, k: Str, v: Json, q: Str)
    ensures FieldOf(Put(es, k, v), q) == if q == k then Some(v) else FieldOf(es, q)
  {
    if es != [] && es[0].key != k {
      PutField(es[1..], k, v, q);
      assert Put(es, k, v)[1..] == Put(es[1..], k, v);
    } else {
      assert Put(es, k, v)[1..] == if es == [] then [] else es[1..];
    }
  }

  lemma {:induction false} PutSound(es: seq<Entry>, k: Str, v: Json)
    requires SoundEntries(es) && WellFormed(v)
    ensures SoundEntries(Put(es, k, v))
    ensures forall e <- Put(es, k, v) :: e.key == k || exists o <- es :: o.key == e.key
  {
    hide WellFormed, SoundEntries;
    if es == [] {
      SoundStep(Entry(k, v), []);
    } else {
      assert es == [es[0]] + es[1..];
      SoundStep(es[0], es[1..]);
      if es[0].key == k {
        SoundStep(Entry(k, v), es[1..]);
        assert forall e <- es[1..] :: e in es;
      } else {
        PutSound(es[1..], k, v);
        SoundStep(es[0], Put(es[1..], k, v));
        assert forall e <- es[1..] :: e in es;
      }
    }
  }

  /** An entry in front of others is sound when it and they are, and none of them has its name. */
  lemma SoundStep(e: Entry, es: seq<Entry>)
    ensures SoundEntries([e] + es) <==> WellFormed(e.value) && SoundEntries(es) && forall x <- es :: x.key != e.key
    ensures SoundEntries([]) && [e] + [] == [e]
  {
    hide WellFormed;
    var all := [e] + es;
    if SoundEntries(all) {
      assert e in all && forall x <- es :: x in all;
      forall i, j | 0 <= i < j < |es| ensures es[i].key != es[j].key { assert all[i + 1].key != all[j + 1].key; }
      forall x | x in es ensures x.key != e.key {
        var i :| 0 <= i < |es| && es[i] == x;
        assert all[0].key != all[i + 1].key;
      }
    }
  }

  lemma {:induction false} ParseValueSound(ts: seq<Token>)
    requires SoundTokens(ts)
    ensures match ParseValue(ts) case Bad => true case Got(v, rest) => WellFormed(v) && SoundTokens(rest)
    decreases |ts|, 0
  {
    hide ParseItems, ParseEntries;
    if ts != [] && ts[0].Punct? && (ts[0].u == OPEN_BRACKET || ts[0].u == OPEN_BRACE) {
      assert forall t <- ts[1..] :: t in ts;
      if |ts| > 1 { assert forall t <- ts[2..] :: t in ts; }
      ParseItemsSound(ts[1..]);
      ParseEntriesSound(ts[1..], []);
    }
  }

  lemma {:induction false} ParseItemsSound(ts: seq<Token>)
    requires SoundTokens(ts)
    ensures match ParseItems(ts)
            case BadItems => true
            case GotItems(items, rest) => (forall x <- items :: WellFormed(x)) && SoundTokens(rest)
    decreases |ts|, 1
  {
    hide ParseValue, WellFormed;
    ParseValueSound(ts);
    match ParseValue(ts) {
      case Bad =>
      case Got(v, rest) =>
        if rest != [] && rest[0] == Punct(COMMA) {
          assert SoundTokens(rest[1..]);
          ParseItemsSound(rest[1..]);
        }
    }
  }

  lemma {:induction false} ParseEntriesSound(ts: seq<Token>, seen: seq<Entry>)
    requires SoundTokens(ts) && SoundEntries(seen)
    ensures match ParseEntries(ts, seen)
            case BadEntries => true
            case GotEntries(es, rest) => SoundEntries(es) && SoundTokens(rest)
    decreases |ts|, 1
  {
    hide ParseValue, WellFormed, DistinctKeys;
    if |ts| >= 2 && ts[0].Text? && ts[1] == Punct(COLON) {
      assert SoundTokens(ts[2..]);
      ParseValueSound(ts[2..]);
      match ParseValue(ts[2..]) {
        case Bad =>
        case Got(v, rest) =>
          PutSound(seen, ts[0].s, v);
          if rest != [] && rest[0] == Punct(COMMA) {
            assert SoundTokens(rest[1..]);
            ParseEntriesSound(rest[1..], Put(seen, ts[0].s, v));
          }
      }
    }
  }

  lemma JsonParseSound(t: Str)
    ensures JsonParse(t).Some? ==> WellFormed(JsonParse(t).value)
  {
    hide Lex, ParseValue, WellFormed;
    LexSound(t);
    if Lex(t).Some? { ParseValueSound(Lex(t).value); }
  }
}
