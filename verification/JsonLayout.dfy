/** How JSON.stringify writes a value: the layout of its lines and the spelling of its literals. */
module JsonLayout {
  import opened Units
  import opened JsonText
  import opened JsonGrammar
  import opened JsonSyntax

  // ---------------------------------------------------------------- lines

  function Show(v: Json, gap: Str): Str
    decreases v
  {
    match v
    case JNull => Ascii("null")
    case JBool(b) => if b then Ascii("true") else Ascii("false")
    case JNum(token) => token
    case JStr(s) => Quote(s)
    case JArr(items) =>
      if items == [] then Ascii("[]") else Ascii("[") + ShowItems(items, gap + Ascii("  ")) + gap + Ascii("]")
    case JObj(es) =>
      if es == [] then Ascii("{}") else Ascii("{") + ShowEntries(es, gap + Ascii("  ")) + gap + Ascii("}")
  }

  /** Each item on its own line, with commas at the ends of the lines. */
  function ShowItems(items: seq<Json>, gap: Str): Str
    decreases items
  {
    if items == [] then []
    else gap + Show(items[0], gap) + (if |items| == 1 then [] else Ascii(",")) + ShowItems(items[1..], gap)
  }

  function ShowEntries(es: seq<Entry>, gap: Str): Str
    decreases es
  {
    if es == [] then []
    else
      gap + Quote(es[0].key) + Ascii(": ") + Show(es[0].value, gap) + (if |es| == 1 then [] else Ascii(",")) + ShowEntries(es[1..], gap)
  }

  lemma Frame(open: Unit, close: Unit, inner: Str, gap: Str, ps: seq<Piece>)
    ensures Flat([Mark(open), Gap(inner)] + ps + [Gap(gap), Mark(close)]) == [open] + inner + Flat(ps) + gap + [close]
  {
    hide Flat;
    FlatAppend([Mark(open), Gap(inner)] + ps, [Gap(gap), Mark(close)]);
    FlatAppend([Mark(open), Gap(inner)], ps);
    TwoPieces(Mark(open), Gap(inner));
    TwoPieces(Gap(gap), Mark(close));
  }

  lemma TwoPieces(p: Piece, q: Piece)
    ensures Flat([p, q]) == PieceText(p) + PieceText(q) && Flat([p]) == PieceText(p) && Flat([]) == []
  {
    hide PieceText;
    assert [p, q][1..] == [q] && [p][1..] == [] && [q][1..] == [];
    assert PieceText(p) + [] == PieceText(p) && PieceText(q) + [] == PieceText(q);
    assert Flat([q]) == PieceText(q) + Flat([]);
    assert Flat([p, q]) == PieceText(p) + Flat([q]);
  }

  lemma Words()
    ensures Ascii("null") == NULL_WORD && Ascii("true") == TRUE_WORD && Ascii("false") == FALSE_WORD
    ensures Ascii("[") == [OPEN_BRACKET] && Ascii("]") == [CLOSE_BRACKET] && Ascii("{") == [OPEN_BRACE]
        && Ascii("}") == [CLOSE_BRACE]
    ensures Ascii("[]") == [OPEN_BRACKET, CLOSE_BRACKET] && Ascii("{}") == [OPEN_BRACE, CLOSE_BRACE]
    ensures Ascii("  ") == [SPACE, SPACE] && Ascii(",") == [COMMA] && Ascii(": ") == [COLON, SPACE]
  {}

  /** Printing a value writes these lines. */
  lemma {:induction false} PrintShows(v: Json, gap: Str)
    ensures Print(v, gap) == Show(v, gap)
    decreases v, 0
  {
    hide Flat, ItemPieces, EntryPieces, ShowItems, ShowEntries, Quote, Ascii;
    Words();
    match v {
      case JNull => TwoPieces(Bare(NULL_WORD), Bare(NULL_WORD));
      case JBool(b) => TwoPieces(Bare(if b then TRUE_WORD else FALSE_WORD), Bare([]));
      case JNum(token) => TwoPieces(Bare(token), Bare(token));
      case JStr(s) => TwoPieces(Quoted(s), Quoted(s));
      case JArr(items) =>
        if items == [] {
          TwoPieces(Mark(OPEN_BRACKET), Mark(CLOSE_BRACKET));
        } else {
          ItemsShow(items, Deeper(gap));
          Frame(OPEN_BRACKET, CLOSE_BRACKET, Deeper(gap), gap, ItemPieces(items, Deeper(gap)));
          assert [OPEN_BRACKET] + Deeper(gap) + Flat(ItemPieces(items, Deeper(gap))) == [OPEN_BRACKET] + ShowItems(items, Deeper(gap));
        }
      case JObj(es) =>
        if es == [] {
          TwoPieces(Mark(OPEN_BRACE), Mark(CLOSE_BRACE));
        } else {
          EntriesShow(es, Deeper(gap));
          Frame(OPEN_BRACE, CLOSE_BRACE, Deeper(gap), gap, EntryPieces(es, Deeper(gap)));
          assert [OPEN_BRACE] + Deeper(gap) + Flat(EntryPieces(es, Deeper(gap))) == [OPEN_BRACE] + ShowEntries(es, Deeper(gap));
        }
    }
  }

  lemma ItemPiecesStep(items: seq<Json>, gap: Str)
    requires items != []
    ensures Flat(ItemPieces(items, gap)) ==
            Flat(Pieces(items[0], gap)) + if |items| == 1 then [] else [COMMA] + gap + Flat(ItemPieces(items[1..], gap))
  {
    hide Pieces, Flat;
    if |items| == 1 {
      assert Pieces(items[0], gap) + [] == Pieces(items[0], gap);
      assert Flat(Pieces(items[0], gap)) + [] == Flat(Pieces(items[0], gap));
    } else {
      FlatAppend(Pieces(items[0], gap), [Mark(COMMA), Gap(gap)] + ItemPieces(items[1..], gap));
      FlatAppend([Mark(COMMA), Gap(gap)], ItemPieces(items[1..], gap));
      TwoPieces(Mark(COMMA), Gap(gap));
    }
  }

  lemma {:induction false} ItemsShow(items: seq<Json>, gap: Str)
    requires items != []
    ensures gap + Flat(ItemPieces(items, gap)) == ShowItems(items, gap)
    decreases items, 1
  {
    hide Pieces, Flat, ItemPieces, Show, Ascii, Deeper;
    Words();
    ItemPiecesStep(items, gap);
    PrintShows(items[0], gap);
    if |items| == 1 {
      assert ShowItems(items, gap) == gap + Show(items[0], gap) + [] + [];
    } else {
      ItemsShow(items[1..], gap);
    }
  }

  lemma EntryPiecesStep(es: seq<Entry>, gap: Str)
    requires es != []
    ensures Flat(EntryPieces(es, gap)) ==
            Quote(es[0].key) + [COLON, SPACE] + Flat(Pieces(es[0].value, gap))
            + if |es| == 1 then [] else [COMMA] + gap + Flat(EntryPieces(es[1..], gap))
  {
    hide Pieces, Flat, Quote;
    var name, value := [Quoted(es[0].key), Mark(COLON), Gap([SPACE])], Pieces(es[0].value, gap);
    NameText(es[0].key);
    FlatAppend(name, value);
    if |es| == 1 {
      assert name + value + [] == name + value;
      assert Flat(name + value) + [] == Flat(name + value);
    } else {
      FlatAppend(name + value, [Mark(COMMA), Gap(gap)] + EntryPieces(es[1..], gap));
      FlatAppend([Mark(COMMA), Gap(gap)], EntryPieces(es[1..], gap));
      TwoPieces(Mark(COMMA), Gap(gap));
    }
  }

  lemma NameText(key: Str)
    ensures Flat([Quoted(key), Mark(COLON), Gap([SPACE])]) == Quote(key) + [COLON, SPACE]
  {
    hide Quote, Flat;
    assert [Quoted(key)] + [Mark(COLON), Gap([SPACE])] == [Quoted(key), Mark(COLON), Gap([SPACE])];
    FlatAppend([Quoted(key)], [Mark(COLON), Gap([SPACE])]);
    TwoPieces(Quoted(key), Quoted(key));
    TwoPieces(Mark(COLON), Gap([SPACE]));
  }

  lemma {:induction false} EntriesShow(es: seq<Entry>, gap: Str)
    requires es != []
    ensures gap + Flat(EntryPieces(es, gap)) == ShowEntries(es, gap)
    decreases es, 1
  {
    hide Pieces, Flat, EntryPieces, Show, Ascii, Deeper, Quote;
    Words();
    EntryPiecesStep(es, gap);
    PrintShows(es[0].value, gap);
    if |es| == 1 {
      assert ShowEntries(es, gap) == gap + Quote(es[0].key) + [COLON, SPACE] + Show(es[0].value, gap) + [] + [];
    } else {
      EntriesShow(es[1..], gap);
    }
  }

  // ---------------------------------------------------------------- literals

  /** A surrogate that is not half of a pair in its text. */
  predicate IsLone(s: Str, i: nat)
    requires i < |s|
  {
    || (0xD800 <= s[i] <= 0xDBFF && !(i + 1 < |s| && 0xDC00 <= s[i + 1] <= 0xDFFF))
    || (0xDC00 <= s[i] <= 0xDFFF && !(i > 0 && 0xD800 <= s[i - 1] <= 0xDBFF))
  }

  /** How unit `u` is written: with its letter, else as it is, else with lower-case hex digits. */
  predicate IsCanonical(u: Unit, lone: bool, c: Char) {
    SoundChar(c) && Stands(c) == u
    && if u in [0x22, 0x5C, 0x08, 0x0C, 0x0A, 0x0D, 0x09] then c.Short?
       else if 0x20 <= u && !lone then c.Plain?
       else c.Coded? && forall d <- [c.a, c.b, c.c, c.d] :: !(0x41 <= d <= 0x46)
  }

  lemma CodedUnit(u: Unit) returns (c: Char)
    ensures c.Coded? && SoundChar(c) && Stands(c) == u && Spell(c) == UnicodeEscape(u)
    ensures forall d <- [c.a, c.b, c.c, c.d] :: !(0x41 <= d <= 0x46)
  {
    var e := UnicodeEscape(u);
    c := Coded(e[2], e[3], e[4], e[5]);
    HexRoundTrip(u);
    CodedValue(e[2..6]);
  }

  lemma UnitSpelled(u: Unit, lone: bool) returns (c: Char)
    ensures IsCanonical(u, lone, c) && Spell(c) == EscapeUnit(u, lone)
  {
    hide UnicodeEscape;
    if u == 0x22 || u == 0x5C { c := Short(u); }
    else if u == 8 { c := Short(0x62); }
    else if u == 9 { c := Short(0x74); }
    else if u == 10 { c := Short(0x6E); }
    else if u == 12 { c := Short(0x66); }
    else if u == 13 { c := Short(0x72); }
    else if u < 0x20 || lone { c := CodedUnit(u); }
    else { c := Plain(u); }
  }

  /** The characters of the text from unit `n` on. */
  ghost predicate IsEscaped(s: Str, n: nat, cs: seq<Char>) {
    && n <= |s| && |cs| == |s| - n
    && forall i :: 0 <= i < |cs| ==> IsCanonical(s[n + i], IsLone(s, n + i), cs[i])
  }

  lemma {:induction false} EscapeFrom(s: Str, n: nat) returns (cs: seq<Char>)
    requires n <= |s| && (0 < n < |s| && 0xD800 <= s[n - 1] <= 0xDBFF ==> !(0xDC00 <= s[n] <= 0xDFFF))
    ensures IsEscaped(s, n, cs) && SpellAll(cs) == Escape(s[n..])
    decreases |s| - n
  {
    hide IsCanonical, IsLone, EscapeUnit, EscapeHead, Escape, Spell, SpellAll, IsEscaped;
    var t := s[n..];
    EscapeUnfold(t);
    if n == |s| {
      cs := [];
      NothingEscaped(s);
    } else {
      HeadAt(s, n);
      if EscapeHead(t).1 == 2 {
        var more := EscapeFrom(s, n + 2);
        assert t[2..] == s[n + 2..];
        EscapedFurther(s, n + 1, Plain(s[n + 1]), more);
        EscapedFurther(s, n, Plain(s[n]), [Plain(s[n + 1])] + more);
        cs := [Plain(s[n])] + ([Plain(s[n + 1])] + more);
      } else {
        var more := EscapeFrom(s, n + 1);
        assert t[1..] == s[n + 1..];
        var c := UnitSpelled(s[n], IsLone(s, n));
        EscapedFurther(s, n, c, more);
        cs := [c] + more;
      }
    }
  }

  lemma NothingEscaped(s: Str)
    ensures IsEscaped(s, |s|, []) && SpellAll([]) == []
  {}

  lemma EscapedFurther(s: Str, n: nat, c: Char, more: seq<Char>)
    requires n < |s| && IsEscaped(s, n + 1, more) && IsCanonical(s[n], IsLone(s, n), c)
    ensures IsEscaped(s, n, [c] + more) && SpellAll([c] + more) == Spell(c) + SpellAll(more)
  {
    hide IsCanonical, IsLone, Spell;
    var cs := [c] + more;
    assert cs[1..] == more;
    assert forall i :: 1 <= i < |cs| ==> cs[i] == more[i - 1] && s[n + i] == s[n + 1 + (i - 1)];
  }

  /** A pair is kept as it is; any other unit is escaped on its own. */
  lemma HeadAt(s: Str, n: nat)
    requires n < |s| && (0 < n && 0xD800 <= s[n - 1] <= 0xDBFF ==> !(0xDC00 <= s[n] <= 0xDFFF))
    ensures var (e, k) := EscapeHead(s[n..]);
            if k == 2 then
              && n + 2 <= |s| && IsCanonical(s[n], IsLone(s, n), Plain(s[n]))
              && IsCanonical(s[n + 1], IsLone(s, n + 1), Plain(s[n + 1]))
              && e == Spell(Plain(s[n])) + (Spell(Plain(s[n + 1])) + [])
              && (n + 2 < |s| && 0xD800 <= s[n + 1] <= 0xDBFF ==> !(0xDC00 <= s[n + 2] <= 0xDFFF))
            else
              && k == 1 && e == EscapeUnit(s[n], IsLone(s, n))
              && (n + 1 < |s| && 0xD800 <= s[n] <= 0xDBFF ==> !(0xDC00 <= s[n + 1] <= 0xDFFF))
  {
    hide EscapeUnit;
    var t := s[n..];
    if EscapeHead(t).1 == 2 {
      PlainUnit(s[n]);
      PlainUnit(s[n + 1]);
    }
  }

  lemma PlainUnit(u: Unit)
    requires 0xD800 <= u <= 0xDFFF
    ensures IsCanonical(u, false, Plain(u)) && Spell(Plain(u)) == [u]
  {}

  /** A literal is written in quotes, each of its units in the shortest form. */
  lemma QuoteCanonical(s: Str) returns (cs: seq<Char>)
    ensures Quote(s) == [0x22] + SpellAll(cs) + [0x22] && |cs| == |s|
    ensures forall i :: 0 <= i < |s| ==> IsCanonical(s[i], IsLone(s, i), cs[i])
  {
    hide IsCanonical, IsLone;
    cs := EscapeFrom(s, 0);
    assert s[0..] == s;
  }
}
