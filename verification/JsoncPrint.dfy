/** A formatted value inside a JSONC document: it scans as one value and parses back. */
module JsoncPrint {
  import opened Units
  import opened JsonText
  import opened JsonGrammar
  import opened JsoncGrammar
  import opened JsoncSoundness

  // ---------------------------------------------------------------- reindenting

  /** Splitting on line feeds, and joining with `sep`. */
  function Reindent(t: Str, sep: Str): Str {
    if t == [] then [] else ReindentUnit(t[0], sep) + Reindent(t[1..], sep)
  }

  function ReindentUnit(u: Unit, sep: Str): Str {
    if u == LF then sep else [u]
  }

  /** formatJsonValue. */
  function FormatValue(v: Json, indent: Str, newline: Str): Str {
    Reindent(Print(v, [LF]), newline + indent)
  }

  lemma {:induction false} ReindentAppend(a: Str, b: Str, sep: Str)
    ensures Reindent(a + b, sep) == Reindent(a, sep) + Reindent(b, sep)
  {
    hide ReindentUnit;
    if a == [] {
      assert a + b == b;
    } else {
      ReindentAppend(a[1..], b, sep);
      assert (a + b)[1..] == a[1..] + b;
    }
  }

  lemma {:induction false} ReindentNothing(a: Str, sep: Str)
    requires LF !in a
    ensures Reindent(a, sep) == a
  {
    if a != [] { ReindentNothing(a[1..], sep); }
  }

  /** The pieces with every gap reindented. */
  function Regap(ps: seq<Piece>, sep: Str): seq<Piece> {
    if ps == [] then []
    else [if ps[0].Gap? then Gap(Reindent(ps[0].space, sep)) else ps[0]] + Regap(ps[1..], sep)
  }

  lemma {:induction false} RegapAppend(a: seq<Piece>, b: seq<Piece>, sep: Str)
    ensures Regap(a + b, sep) == Regap(a, sep) + Regap(b, sep)
  {
    hide Reindent;
    if a == [] {
      assert a + b == b;
    } else {
      RegapAppend(a[1..], b, sep);
      assert (a + b)[1..] == a[1..] + b;
    }
  }

  lemma RegapThree(a: seq<Piece>, m: seq<Piece>, b: seq<Piece>, sep: Str)
    ensures Regap(a + m + b, sep) == Regap(a, sep) + Regap(m, sep) + Regap(b, sep)
  {
    RegapAppend(a, m, sep);
    RegapAppend(a + m, b, sep);
  }

  lemma RegapDeeper(g: Str, sep: Str)
    ensures Reindent(Deeper(g), sep) == Deeper(Reindent(g, sep))
  {
    ReindentAppend(g, [SPACE, SPACE], sep);
    ReindentNothing([SPACE, SPACE], sep);
  }

  lemma RegapFrame(u: Unit, w: Unit, g: Str, h: Str, sep: Str)
    ensures Regap([Mark(u), Gap(g)], sep) == [Mark(u), Gap(Reindent(g, sep))]
    ensures Regap([Gap(h), Mark(w)], sep) == [Gap(Reindent(h, sep)), Mark(w)]
    ensures Regap([Mark(u), Mark(w)], sep) == [Mark(u), Mark(w)]
  {
    hide Reindent;
    assert [Mark(u), Gap(g)][1..] == [Gap(g)] && [Gap(g)][1..] == [];
    assert [Gap(h), Mark(w)][1..] == [Mark(w)] && [Mark(w)][1..] == [];
    assert [Mark(u), Mark(w)][1..] == [Mark(w)];
    assert Regap([Gap(g)], sep) == [Gap(Reindent(g, sep))];
    assert Regap([Mark(w)], sep) == [Mark(w)];
  }

  lemma RegapLeaf(p: Piece, sep: Str)
    requires !p.Gap?
    ensures Regap([p], sep) == [p]
  {
    assert [p][1..] == [];
  }

  lemma {:induction false} RegapPieces(v: Json, g: Str, sep: Str)
    ensures Regap(Pieces(v, g), sep) == Pieces(v, Reindent(g, sep))
    decreases v
  {
    hide Reindent, Regap, ItemPieces, EntryPieces, Deeper;
    var h := Reindent(g, sep);
    RegapDeeper(g, sep);
    match v {
      case JArr(items) =>
        RegapFrame(OPEN_BRACKET, CLOSE_BRACKET, Deeper(g), g, sep);
        if items != [] {
          RegapItems(items, Deeper(g), sep);
          RegapThree([Mark(OPEN_BRACKET), Gap(Deeper(g))], ItemPieces(items, Deeper(g)), [Gap(g), Mark(CLOSE_BRACKET)], sep);
        }
      case JObj(entries) =>
        RegapFrame(OPEN_BRACE, CLOSE_BRACE, Deeper(g), g, sep);
        if entries != [] {
          RegapEntries(entries, Deeper(g), sep);
          RegapThree([Mark(OPEN_BRACE), Gap(Deeper(g))], EntryPieces(entries, Deeper(g)), [Gap(g), Mark(CLOSE_BRACE)], sep);
        }
      case JNum(token) => RegapLeaf(Bare(token), sep);
      case JNull => RegapLeaf(Bare(NULL_WORD), sep);
      case JBool(b) => RegapLeaf(Bare(if b then TRUE_WORD else FALSE_WORD), sep);
      case JStr(s) => RegapLeaf(Quoted(s), sep);
    }
  }

  lemma {:induction false} RegapItems(items: seq<Json>, g: Str, sep: Str)
    requires items != []
    ensures Regap(ItemPieces(items, g), sep) == ItemPieces(items, Reindent(g, sep))
    decreases items
  {
    hide Reindent, Regap, Pieces;
    RegapPieces(items[0], g, sep);
    var head := Pieces(items[0], g);
    var h := Reindent(g, sep);
    if |items| == 1 {
      assert head + [] == head;
      assert Pieces(items[0], h) + [] == Pieces(items[0], h);
    } else {
      RegapItems(items[1..], g, sep);
      RegapThree(head, [Mark(COMMA), Gap(g)], ItemPieces(items[1..], g), sep);
      RegapFrame(COMMA, COMMA, g, g, sep);
      assert head + ([Mark(COMMA), Gap(g)] + ItemPieces(items[1..], g)) == head + [Mark(COMMA), Gap(g)] + ItemPieces(items[1..], g);
    }
  }

  lemma {:induction false} RegapEntries(entries: seq<Entry>, g: Str, sep: Str)
    requires entries != []
    ensures Regap(EntryPieces(entries, g), sep) == EntryPieces(entries, Reindent(g, sep))
    decreases entries
  {
    hide Reindent, Regap, Pieces;
    var e := entries[0];
    RegapPieces(e.value, g, sep);
    var name := [Quoted(e.key), Mark(COLON), Gap([SPACE])];
    RegapName(e.key, sep);
    RegapAppend(name, Pieces(e.value, g), sep);
    var h := Reindent(g, sep);
    var head := name + Pieces(e.value, g);
    if |entries| == 1 {
      assert head + [] == head;
      assert name + Pieces(e.value, h) + [] == name + Pieces(e.value, h);
    } else {
      RegapEntries(entries[1..], g, sep);
      RegapThree(head, [Mark(COMMA), Gap(g)], EntryPieces(entries[1..], g), sep);
      RegapFrame(COMMA, COMMA, g, g, sep);
      assert head + ([Mark(COMMA), Gap(g)] + EntryPieces(entries[1..], g)) == head + [Mark(COMMA), Gap(g)] + EntryPieces(entries[1..], g);
    }
  }

  lemma RegapName(key: Str, sep: Str)
    ensures Regap([Quoted(key), Mark(COLON), Gap([SPACE])], sep) == [Quoted(key), Mark(COLON), Gap([SPACE])]
  {
    hide Regap;
    var ps := [Quoted(key), Mark(COLON), Gap([SPACE])];
    RegapFrame(COLON, COLON, [SPACE], [SPACE], sep);
    RegapLeaf(Quoted(key), sep);
    RegapAppend([Quoted(key)], [Mark(COLON), Gap([SPACE])], sep);
    assert ps == [Quoted(key)] + [Mark(COLON), Gap([SPACE])];
    ReindentNothing([SPACE], sep);
  }

  lemma {:induction false} ReindentFlat(ps: seq<Piece>, sep: Str)
    requires forall p <- ps :: !p.Gap? ==> LF !in PieceText(p)
    ensures Reindent(Flat(ps), sep) == Flat(Regap(ps, sep))
  {
    hide Reindent, PieceText;
    if ps == [] {
      assert Reindent([], sep) == [] by { ReindentNothing([], sep); }
    } else {
      assert ps[0] in ps;
      ReindentFlat(ps[1..], sep);
      ReindentAppend(PieceText(ps[0]), Flat(ps[1..]), sep);
      if !ps[0].Gap? {
        ReindentNothing(PieceText(ps[0]), sep);
      }
      var q := if ps[0].Gap? then Gap(Reindent(ps[0].space, sep)) else ps[0];
      PieceGap(ps[0]);
      PieceGap(q);
      assert Regap(ps, sep)[1..] == Regap(ps[1..], sep);
    }
  }

  lemma PieceGap(p: Piece)
    ensures p.Gap? ==> PieceText(p) == p.space
  {}

  lemma FormatIsPrint(v: Json, indent: Str, newline: Str)
    requires WellFormed(v)
    ensures FormatValue(v, indent, newline) == Print(v, newline + indent)
  {
    hide Pieces, SoundPieces, PieceText, Flat;
    var ps := Pieces(v, [LF]);
    PiecesSound(v, [LF]);
    forall p <- ps ensures !p.Gap? ==> LF !in PieceText(p) {
      assert SoundPiece(p) by { EveryPiece(ps, p); }
      if !p.Gap? { PieceNoLf(p); }
    }
    ReindentFlat(ps, newline + indent);
    RegapPieces(v, [LF], newline + indent);
    assert Reindent([LF], newline + indent) == newline + indent;
  }

  lemma EveryPiece(ps: seq<Piece>, p: Piece)
    requires SoundPieces(ps) && p in ps
    ensures SoundPiece(p)
  {}

  lemma PieceNoLf(p: Piece)
    requires SoundPiece(p) && !p.Gap?
    ensures LF !in PieceText(p)
  {
    hide WordValue, Quote;
    match p {
      case Quoted(s) => QuoteLiteral(s);
      case Bare(w) => WordUnits(w);
      case _ =>
    }
  }

  // ---------------------------------------------------------------- scanning a printed container

  /** How the pieces move the delimiter stack; None when they pop the last or mismatch. */
  function Run(ps: seq<Piece>, stack: seq<Unit>): (r: Option<seq<Unit>>)
    requires stack != []
    ensures r.Some? ==> r.value != []
  {
    if ps == [] then Some(stack)
    else if ps[0].Mark? && IsOpener(ps[0].u) then Run(ps[1..], stack + [ps[0].u])
    else if ps[0].Mark? && IsCloser(ps[0].u) then
      if |stack| == 1 || !Matches(stack[|stack| - 1], ps[0].u) then None
      else Run(ps[1..], stack[..|stack| - 1])
    else Run(ps[1..], stack)
  }

  lemma {:induction false} RunAppend(a: seq<Piece>, b: seq<Piece>, stack: seq<Unit>)
    requires stack != [] && Run(a, stack).Some?
    ensures Run(a + b, stack) == Run(b, Run(a, stack).value)
    decreases |a|
  {
    if a == [] {
      assert a + b == b;
    } else {
      assert (a + b)[1..] == a[1..] + b;
      if a[0].Mark? && IsOpener(a[0].u) {
        RunAppend(a[1..], b, stack + [a[0].u]);
      } else if a[0].Mark? && IsCloser(a[0].u) {
        RunAppend(a[1..], b, stack[..|stack| - 1]);
      } else {
        RunAppend(a[1..], b, stack);
      }
    }
  }

  lemma ContainerPiece(p: Piece, b: Str, stack: seq<Unit>)
    requires SoundPiece(p) && !(p.Mark? && (IsOpener(p.u) || IsCloser(p.u))) && stack != []
    ensures ContainerTail(PieceText(p) + b, stack) == Shift(|PieceText(p)|, ContainerTail(b, stack))
  {
    hide ContainerTail, WordValue, Escape, StringTail;
    match p {
      case Quoted(s) =>
        var q := Quote(s);
        QuoteLiteral(s);
        StringLenLocal(q, b);
        LiteralHead(q + b, stack, 0);
        assert (q + b)[|q|..] == b;
      case Bare(w) =>
        WordUnits(w);
        NeutralText(w, b, stack, 0);
      case Gap(g) =>
        NeutralText(g, b, stack, 0);
      case Mark(u) =>
        NeutralText([u], b, stack, 0);
    }
  }

  lemma OpenPiece(u: Unit, b: Str, stack: seq<Unit>)
    requires stack != []
    ensures IsOpener(u) ==> ContainerTail([u] + b, stack) == Shift(1, ContainerTail(b, stack + [u]))
    ensures IsCloser(u) && |stack| > 1 && Matches(stack[|stack| - 1], u) ==>
              ContainerTail([u] + b, stack) == Shift(1, ContainerTail(b, stack[..|stack| - 1]))
    ensures IsCloser(u) && |stack| == 1 && Matches(stack[0], u) ==> ContainerTail([u] + b, stack) == Some(1)
  {
    assert ([u] + b)[1..] == b;
  }

  /** One piece moves the container scan on as it moves the stack. */
  lemma PieceStep(p: Piece, b: Str, stack: seq<Unit>)
    requires SoundPiece(p) && stack != []
    requires p.Mark? && IsCloser(p.u) ==> |stack| > 1 && Matches(stack[|stack| - 1], p.u)
    ensures ContainerTail(PieceText(p) + b, stack) == Shift(|PieceText(p)|, ContainerTail(b, Pushed(p, stack)))
  {
    hide ContainerTail, SoundPiece, Matches;
    if p.Mark? && IsOpener(p.u) {
      MarkText(p);
      OpenPiece(p.u, b, stack);
    } else if p.Mark? && IsCloser(p.u) {
      MarkText(p);
      OpenPiece(p.u, b, stack);
    } else {
      ContainerPiece(p, b, stack);
    }
  }

  function Pushed(p: Piece, stack: seq<Unit>): (r: seq<Unit>)
    requires stack != [] && (p.Mark? && IsCloser(p.u) ==> |stack| > 1)
    ensures r != []
  {
    if p.Mark? && IsOpener(p.u) then stack + [p.u]
    else if p.Mark? && IsCloser(p.u) then stack[..|stack| - 1]
    else stack
  }

  lemma RunStep(ps: seq<Piece>, stack: seq<Unit>)
    requires ps != [] && stack != [] && Run(ps, stack).Some?
    ensures ps[0].Mark? && IsCloser(ps[0].u) ==> |stack| > 1 && Matches(stack[|stack| - 1], ps[0].u)
    ensures Run(ps, stack) == Run(ps[1..], Pushed(ps[0], stack))
  {}

  lemma {:induction false} ContainerPieces(ps: seq<Piece>, b: Str, stack: seq<Unit>)
    requires (forall p <- ps :: SoundPiece(p)) && stack != [] && Run(ps, stack).Some?
    ensures ContainerTail(Flat(ps) + b, stack) == Shift(|Flat(ps)|, ContainerTail(b, Run(ps, stack).value))
    decreases |ps|
  {
    hide ContainerTail, PieceText, SoundPiece, Matches, Run, Pushed;
    if ps == [] {
      assert Flat(ps) + b == b;
      NoRun(stack);
    } else {
      var p, rest := ps[0], Flat(ps[1..]) + b;
      assert p in ps;
      assert Flat(ps) + b == PieceText(p) + rest;
      RunStep(ps, stack);
      PieceStep(p, rest, stack);
      ContainerPieces(ps[1..], b, Pushed(p, stack));
    }
  }

  lemma NoRun(stack: seq<Unit>)
    requires stack != []
    ensures Run([], stack) == Some(stack)
  {}

  lemma MarkText(p: Piece)
    requires p.Mark?
    ensures PieceText(p) == [p.u]
  {}

  lemma {:induction false} RunPieces(v: Json, g: Str, stack: seq<Unit>)
    requires stack != []
    ensures Run(Pieces(v, g), stack) == Some(stack)
    decreases v
  {
    hide ItemPieces, EntryPieces, Run;
    match v {
      case JArr(items) =>
        RunNothing(stack + [OPEN_BRACKET]);
        if items != [] { RunItems(items, Deeper(g), stack + [OPEN_BRACKET]); }
        RunBracketed(OPEN_BRACKET, CLOSE_BRACKET, Deeper(g), if items == [] then [] else ItemPieces(items, Deeper(g)), g, stack);
      case JObj(entries) =>
        RunNothing(stack + [OPEN_BRACE]);
        if entries != [] { RunEntries(entries, Deeper(g), stack + [OPEN_BRACE]); }
        RunBracketed(OPEN_BRACE, CLOSE_BRACE, Deeper(g), if entries == [] then [] else EntryPieces(entries, Deeper(g)), g, stack);
      case JNum(token) => RunLeaf(Bare(token), stack);
      case JNull => RunLeaf(Bare(NULL_WORD), stack);
      case JBool(b) => RunLeaf(Bare(if b then TRUE_WORD else FALSE_WORD), stack);
      case JStr(s) => RunLeaf(Quoted(s), stack);
    }
  }

  lemma RunLeaf(p: Piece, stack: seq<Unit>)
    requires stack != [] && !p.Mark?
    ensures Run([p], stack) == Some(stack)
  {
    assert [p][1..] == [];
  }

  lemma RunMarks(u: Unit, w: Unit, g: Str, h: Str, stack: seq<Unit>)
    requires stack != [] && IsOpener(u) && IsCloser(w) && Matches(u, w)
    ensures Run([Mark(u), Gap(g)], stack) == Some(stack + [u])
    ensures Run([Gap(h), Mark(w)], stack + [u]) == Some(stack)
    ensures Run([Mark(u), Mark(w)], stack) == Some(stack)
  {
    assert [Mark(u), Gap(g)][1..] == [Gap(g)];
    assert [Gap(h), Mark(w)][1..] == [Mark(w)] && [Mark(w)][1..] == [];
    assert [Mark(u), Mark(w)][1..] == [Mark(w)];
    assert (stack + [u])[..|stack|] == stack;
    RunNothing(stack);
    assert Run([Mark(w)], stack + [u]) == Some(stack);
    RunLeaf(Gap(g), stack + [u]);
  }

  lemma RunBracketed(u: Unit, w: Unit, g: Str, m: seq<Piece>, h: Str, stack: seq<Unit>)
    requires stack != [] && IsOpener(u) && IsCloser(w) && Matches(u, w)
    requires Run(m, stack + [u]) == Some(stack + [u])
    ensures Run([Mark(u), Mark(w)], stack) == Some(stack)
    ensures Run([Mark(u), Gap(g)] + m + [Gap(h), Mark(w)], stack) == Some(stack)
  {
    hide Run;
    RunMarks(u, w, g, h, stack);
    RunAppend([Mark(u), Gap(g)], m, stack);
    RunAppend([Mark(u), Gap(g)] + m, [Gap(h), Mark(w)], stack);
  }

  lemma RunComma(g: Str, stack: seq<Unit>)
    requires stack != []
    ensures Run([Mark(COMMA), Gap(g)], stack) == Some(stack)
  {
    assert [Mark(COMMA), Gap(g)][1..] == [Gap(g)];
    RunLeaf(Gap(g), stack);
  }

  lemma RunJoin(a: seq<Piece>, g: Str, b: seq<Piece>, stack: seq<Unit>)
    requires stack != [] && Run(a, stack) == Some(stack) == Run(b, stack)
    ensures Run(a + ([Mark(COMMA), Gap(g)] + b), stack) == Some(stack)
  {
    hide Run;
    RunComma(g, stack);
    RunAppend([Mark(COMMA), Gap(g)], b, stack);
    RunAppend(a, [Mark(COMMA), Gap(g)] + b, stack);
  }

  lemma {:induction false} RunItems(items: seq<Json>, g: Str, stack: seq<Unit>)
    requires items != [] && stack != []
    ensures Run(ItemPieces(items, g), stack) == Some(stack)
    decreases items
  {
    hide Pieces, Run;
    RunPieces(items[0], g, stack);
    var head := Pieces(items[0], g);
    if |items| == 1 {
      assert head + [] == head;
    } else {
      RunItems(items[1..], g, stack);
      RunJoin(head, g, ItemPieces(items[1..], g), stack);
    }
  }

  lemma {:induction false} RunEntries(entries: seq<Entry>, g: Str, stack: seq<Unit>)
    requires entries != [] && stack != []
    ensures Run(EntryPieces(entries, g), stack) == Some(stack)
    decreases entries
  {
    hide Pieces, Run;
    var e := entries[0];
    RunPieces(e.value, g, stack);
    var name := [Quoted(e.key), Mark(COLON), Gap([SPACE])];
    RunName(e.key, stack);
    RunAppend(name, Pieces(e.value, g), stack);
    var head := name + Pieces(e.value, g);
    if |entries| == 1 {
      assert head + [] == head;
    } else {
      RunEntries(entries[1..], g, stack);
      RunJoin(head, g, EntryPieces(entries[1..], g), stack);
    }
  }

  lemma RunName(key: Str, stack: seq<Unit>)
    requires stack != []
    ensures Run([Quoted(key), Mark(COLON), Gap([SPACE])], stack) == Some(stack)
  {
    var ps := [Quoted(key), Mark(COLON), Gap([SPACE])];
    assert ps[1..] == [Mark(COLON), Gap([SPACE])] && ps[1..][1..] == [Gap([SPACE])];
    RunLeaf(Gap([SPACE]), stack);
  }

  /** The pieces of a nonempty container between its delimiters leave the stack as it was. */
  lemma PrintContainer(u: Unit, w: Unit, inner: seq<Piece>)
    requires IsOpener(u) && IsCloser(w) && Matches(u, w)
    requires (forall p <- inner :: SoundPiece(p)) && Run(inner, [u]) == Some([u])
    ensures var t := Flat([Mark(u)] + inner + [Mark(w)]);
            t != [] && t[0] == u && ContainerLen(t) == Some(|t|)
  {
    hide ContainerTail, Run, SoundPiece, Matches;
    var ps := [Mark(u)] + inner + [Mark(w)];
    FlatAppend([Mark(u)] + inner, [Mark(w)]);
    FlatAppend([Mark(u)], inner);
    assert [Mark(u)][1..] == [] && [Mark(w)][1..] == [];
    assert Flat([Mark(u)]) == [u] && Flat([Mark(w)]) == [w];
    var t := Flat(ps);
    assert t == [u] + (Flat(inner) + [w]);
    assert t[1..] == Flat(inner) + [w];
    ContainerPieces(inner, [w], [u]);
    OpenPiece(w, [], [u]);
    assert [w] + [] == [w];
  }

  predicate MultiLine(v: Json) {
    (v.JArr? && v.items != []) || (v.JObj? && v.entries != [])
  }

  /** What stands between the delimiters of a container. */
  function Inner(v: Json, g: Str): seq<Piece>
    requires v.JArr? || v.JObj?
  {
    if !MultiLine(v) then []
    else [Gap(Deeper(g))]
         + (if v.JArr? then ItemPieces(v.items, Deeper(g)) else EntryPieces(v.entries, Deeper(g)))
         + [Gap(g)]
  }

  lemma InnerPieces(v: Json, g: Str)
    requires v.JArr? || v.JObj?
    ensures var (u, w) := if v.JArr? then (OPEN_BRACKET, CLOSE_BRACKET) else (OPEN_BRACE, CLOSE_BRACE);
            Pieces(v, g) == [Mark(u)] + Inner(v, g) + [Mark(w)] && Run(Inner(v, g), [u]) == Some([u])
  {
    hide ItemPieces, EntryPieces, Run;
    var (u, w) := if v.JArr? then (OPEN_BRACKET, CLOSE_BRACKET) else (OPEN_BRACE, CLOSE_BRACE);
    if MultiLine(v) {
      var h := Deeper(g);
      var m := if v.JArr? then ItemPieces(v.items, h) else EntryPieces(v.entries, h);
      if v.JArr? { RunItems(v.items, h, [u]); } else { RunEntries(v.entries, h, [u]); }
      RunLeaf(Gap(h), [u]);
      RunLeaf(Gap(g), [u]);
      RunAppend([Gap(h)], m, [u]);
      RunAppend([Gap(h)] + m, [Gap(g)], [u]);
      assert [Mark(u)] + ([Gap(h)] + m + [Gap(g)]) + [Mark(w)] == [Mark(u), Gap(h)] + m + [Gap(g), Mark(w)];
    } else {
      assert Run([], [u]) == Some([u]) by { RunNothing([u]); }
      assert [Mark(u)] + [] + [Mark(w)] == [Mark(u), Mark(w)];
    }
  }

  lemma RunNothing(stack: seq<Unit>)
    requires stack != []
    ensures Run([], stack) == Some(stack)
  {}

  lemma FlatOne(p: Piece)
    ensures Flat([p]) == PieceText(p)
  {
    hide PieceText;
    assert [p][1..] == [];
    assert PieceText(p) + [] == PieceText(p);
  }

  /** A printed value is scanned as one value. */
  lemma PrintIsValueText(v: Json, g: Str)
    requires WellFormed(v) && IsGap(g)
    ensures IsValueText(Print(v, g))
  {
    hide SoundPieces, Pieces, Quote, Flat, ContainerTail, StringTail;
    PiecesSound(v, g);
    if v.JArr? || v.JObj? {
      InnerPieces(v, g);
      var (u, w) := if v.JArr? then (OPEN_BRACKET, CLOSE_BRACKET) else (OPEN_BRACE, CLOSE_BRACE);
      forall p <- Inner(v, g) ensures SoundPiece(p) { EveryPiece(Pieces(v, g), p); }
      PrintContainer(u, w, Inner(v, g));
    } else {
      LeafPrint(v, g);
      if v.JStr? { QuoteLiteral(v.s); QuoteHead(v.s); } else { LeafWord(v); WordUnits(LeafText(v)); WordHead(LeafText(v)); }
    }
  }

  function LeafText(v: Json): Str
    requires !v.JArr? && !v.JObj?
  {
    match v
    case JNull => NULL_WORD
    case JBool(b) => if b then TRUE_WORD else FALSE_WORD
    case JNum(token) => token
    case JStr(s) => Quote(s)
  }

  lemma QuoteHead(s: Str)
    ensures Quote(s) != [] && Quote(s)[0] == QUOTE
  {}

  lemma WordHead(w: Str)
    requires w != [] && forall u <- w :: IsSafeUnit(u) && IsWordUnit(u)
    ensures w[0] != QUOTE && !IsOpener(w[0])
  {
    assert w[0] in w;
  }

  lemma LeafPrint(v: Json, g: Str)
    requires !v.JArr? && !v.JObj?
    ensures Print(v, g) == LeafText(v)
  {
    hide Quote;
    var p := Pieces(v, g)[0];
    assert Pieces(v, g) == [p];
    FlatOne(p);
  }

  lemma LeafWord(v: Json)
    requires !v.JArr? && !v.JObj? && !v.JStr? && WellFormed(v)
    ensures WordValue(LeafText(v)) == Some(v)
  {
    if v.JNum? { NumberIsNoLetter(v.token); }
  }

  // ---------------------------------------------------------------- parsing a printed value as JSONC

  /** Units that neither start a literal or a comment nor are commas. */
  predicate IsCalm(u: Unit) { u != QUOTE && u != SLASH && u != COMMA }

  lemma {:induction false} CalmText(p: Str, b: Str)
    requires forall u <- p :: IsCalm(u)
    ensures Strip(p + b) == Join(p, Strip(b))
    ensures DropCommas(p + b) == Join(p, DropCommas(b))
  {
    hide Strip, DropCommas, IsCalm;
    var t := p + b;
    if p == [] {
      assert t == b;
      JoinEmpty(Strip(b));
      JoinEmpty(DropCommas(b));
    } else {
      assert p[0] in p;
      CalmText(p[1..], b);
      assert t[1..] == p[1..] + b;
      CalmHead(t);
      assert [p[0]] + p[1..] == p;
      JoinTwice([p[0]], p[1..], Strip(b));
      JoinTwice([p[0]], p[1..], DropCommas(b));
    }
  }

  lemma JoinEmpty(r: Option<Str>)
    ensures Join([], r) == r
  {
    if r.Some? { assert [] + r.value == r.value; }
  }

  lemma JoinTwice(a: Str, b: Str, r: Option<Str>)
    ensures Join(a, Join(b, r)) == Join(a + b, r)
  {
    if r.Some? { assert a + (b + r.value) == a + b + r.value; }
  }

  lemma CalmHead(t: Str)
    requires t != [] && IsCalm(t[0])
    ensures Strip(t) == Join([t[0]], Strip(t[1..]))
    ensures DropCommas(t) == Join([t[0]], DropCommas(t[1..]))
  {
    assert t[..1] == [t[0]];
  }

  lemma CommaHead(b: Str)
    ensures Strip([COMMA] + b) == Join([COMMA], Strip(b))
    ensures !IsTrailingComma([COMMA] + b) ==> DropCommas([COMMA] + b) == Join([COMMA], DropCommas(b))
  {
    var t := [COMMA] + b;
    assert t[1..] == b && t[..1] == [COMMA];
  }

  lemma QuotedHead(s: Str, b: Str)
    ensures Strip(Quote(s) + b) == Join(Quote(s), Strip(b))
    ensures DropCommas(Quote(s) + b) == Join(Quote(s), DropCommas(b))
  {
    hide Escape, StringTail;
    var q := Quote(s);
    var t := q + b;
    QuoteLiteral(s);
    StringLenLocal(q, b);
    assert t[..|q|] == q && t[|q|..] == b;
    LiteralStep(t);
  }

  lemma LiteralStep(t: Str)
    requires t != [] && t[0] == QUOTE && StringLen(t).Some?
    ensures var n := StringLen(t).value;
            Strip(t) == Join(t[..n], Strip(t[n..])) && DropCommas(t) == Join(t[..n], DropCommas(t[n..]))
  {
    hide StringTail;
  }

  lemma {:induction false} SpaceLenOver(g: Str, b: Str)
    requires AllSpace(g) && (b == [] || !IsSpace(b[0]))
    ensures SpaceLen(g + b) == |g|
  {
    if g == [] {
      assert g + b == b;
    } else {
      assert g[0] in g;
      SpaceLenOver(g[1..], b);
      assert (g + b)[1..] == g[1..] + b;
    }
  }

  lemma StartsValueText(p: Piece)
    requires SoundPiece(p) && StartsValue(p)
    ensures PieceText(p) != [] && !IsSpace(PieceText(p)[0]) && !IsCloser(PieceText(p)[0])
  {
    hide WordValue, Escape;
    if p.Bare? {
      WordUnits(p.w);
      assert p.w[0] in p.w;
    }
  }

  /** A printed comma is never a trailing one. */
  lemma PrintedComma(ps: seq<Piece>, b: Str)
    requires SoundPieces(ps) && ps != [] && ps[0] == Mark(COMMA)
    ensures !IsTrailingComma([COMMA] + (Flat(ps[1..]) + b))
  {
    hide SoundPiece, PieceText, SpaceLen, IsSpace;
    assert |ps| > 2 && ps[1].Gap? && StartsValue(ps[2]);
    assert ps[1] in ps && ps[2] in ps;
    var g := ps[1].space;
    assert AllSpace(g) by { GapSpace(ps[1]); }
    PieceGap(ps[1]);
    StartsValueText(ps[2]);
    var rest := PieceText(ps[2]) + (Flat(ps[3..]) + b);
    assert ps[1..][1..] == ps[2..] && ps[2..][1..] == ps[3..];
    assert Flat(ps[1..]) == g + (PieceText(ps[2]) + Flat(ps[3..]));
    assert Flat(ps[1..]) + b == g + rest;
    SpaceLenOver(g, rest);
    var t := [COMMA] + (g + rest);
    assert t[1..] == g + rest;
    assert t[1 + |g|] == rest[0];
  }

  lemma GapSpace(p: Piece)
    requires SoundPiece(p) && p.Gap?
    ensures AllSpace(p.space)
  {}

  lemma CalmPiece(p: Piece)
    requires SoundPiece(p) && !p.Quoted? && p != Mark(COMMA)
    ensures forall u <- PieceText(p) :: IsCalm(u)
  {
    hide WordValue;
    if p.Bare? { WordUnits(p.w); }
  }

  lemma {:induction false} CleanPieces(ps: seq<Piece>, b: Str)
    requires SoundPieces(ps)
    ensures Strip(Flat(ps) + b) == Join(Flat(ps), Strip(b))
    ensures DropCommas(Flat(ps) + b) == Join(Flat(ps), DropCommas(b))
  {
    hide Strip, DropCommas, PieceText, SoundPiece, SoundPieces, IsTrailingComma, Quote, Join, IsCalm;
    if ps == [] {
      assert Flat(ps) + b == b;
      JoinEmpty(Strip(b));
      JoinEmpty(DropCommas(b));
    } else {
      var p, rest := ps[0], Flat(ps[1..]) + b;
      EveryPiece(ps, p);
      SoundTail(ps);
      CleanPieces(ps[1..], b);
      assert Flat(ps) + b == PieceText(p) + rest;
      if p == Mark(COMMA) {
        PrintedComma(ps, b);
        MarkText(p);
        CommaHead(rest);
      } else if p.Quoted? {
        QuotedText(p);
        QuotedHead(p.s, rest);
      } else {
        CalmPiece(p);
        CalmText(PieceText(p), rest);
      }
      JoinTwice(PieceText(p), Flat(ps[1..]), Strip(b));
      JoinTwice(PieceText(p), Flat(ps[1..]), DropCommas(b));
    }
  }

  lemma QuotedText(p: Piece)
    requires p.Quoted?
    ensures PieceText(p) == Quote(p.s)
  {}

  lemma CleanNothing()
    ensures Strip([]) == Some([]) == DropCommas([])
  {}

  lemma PrintClean(v: Json, g: Str)
    requires WellFormed(v) && IsGap(g)
    ensures ParseJsonc(Print(v, g)) == JsonParse(Print(v, g))
  {
    hide Pieces, Flat, Strip, DropCommas, SoundPieces, JsonParse;
    PiecesSound(v, g);
    CleanPieces(Pieces(v, g), []);
    CleanNothing();
    assert Print(v, g) + [] == Print(v, g);
  }

  // ---------------------------------------------------------------- gaps JSON does not allow

  /** Whitespace that is not JSON whitespace makes the text after it unreadable. */
  lemma {:induction false} OddGap(g: Str, b: Str)
    requires AllSpace(g) && !AllJsonSpace(g)
    ensures Lex(g + b) == None
  {
    var t := g + b;
    assert g[0] in g;
    if IsJsonSpace(g[0]) {
      assert t[1..] == g[1..] + b;
      forall u <- g[1..] ensures IsSpace(u) { assert u in g; }
      var u :| u in g && !IsJsonSpace(u);
      assert u in g[1..];
      OddGap(g[1..], b);
    } else {
      OddWord(t);
    }
  }

  lemma OddWord(t: Str)
    requires t != [] && IsSpace(t[0]) && !IsJsonSpace(t[0])
    ensures Lex(t) == None
  {
    hide WordValue;
    var w := t[..WordLen(t)];
    assert w[0] in w;
    if WordValue(w).Some? {
      WordUnits(w);
      assert false;
    }
  }

  /** A formatted value parses back if and only if it is on one line or its indentation is JSON whitespace. */
  lemma PrintParsesIff(v: Json, g: Str)
    requires WellFormed(v) && IsGap(g)
    ensures ParseJsonc(Print(v, g)) == if MultiLine(v) && !AllJsonSpace(g) then None else Some(v)
  {
    hide Pieces, Flat, Lex, ParseJsonc, JsonParse, Deeper, AllJsonSpace, IsSpace;
    PrintClean(v, g);
    if AllJsonSpace(g) {
      PrintParse(v, g);
    } else if MultiLine(v) {
      InnerPieces(v, g);
      var (u, w) := if v.JArr? then (OPEN_BRACKET, CLOSE_BRACKET) else (OPEN_BRACE, CLOSE_BRACE);
      var h := Deeper(g);
      var m := if v.JArr? then ItemPieces(v.items, h) else EntryPieces(v.entries, h);
      var b := Flat(m + [Gap(g)] + [Mark(w)]);
      assert Pieces(v, g) == [Mark(u)] + ([Gap(h)] + (m + [Gap(g)] + [Mark(w)]));
      FlatAppend([Mark(u)], [Gap(h)] + (m + [Gap(g)] + [Mark(w)]));
      FlatAppend([Gap(h)], m + [Gap(g)] + [Mark(w)]);
      FlatOne(Mark(u));
      FlatOne(Gap(h));
      assert Print(v, g) == [u] + (h + b);
      OddDeeper(g);
      OddGap(h, b);
      LexMark(u, h + b);
      NoTokens(Print(v, g));
    } else {
      SingleLine(v, g);
      LfGap();
      PrintParse(v, [LF]);
      PrintClean(v, [LF]);
    }
  }

  lemma OddDeeper(g: Str)
    requires IsGap(g) && !AllJsonSpace(g)
    ensures AllSpace(Deeper(g)) && !AllJsonSpace(Deeper(g))
  {
    var u :| u in g && !IsJsonSpace(u);
    assert u in Deeper(g);
  }

  lemma LfGap()
    ensures IsGap([LF]) && AllJsonSpace([LF])
  {}

  lemma NoTokens(t: Str)
    requires Lex(t) == None
    ensures JsonParse(t) == None
  {}

  lemma SingleLine(v: Json, g: Str)
    requires !MultiLine(v)
    ensures Print(v, g) == Print(v, [LF])
  {
    hide Flat;
  }
}
