/** When editing a second time with the same value changes nothing: an exact condition. */
module JsoncFixedPoint {
  import opened Units
  import opened JsonText
  import opened JsonGrammar
  import opened JsoncGrammar
  import opened JsoncSoundness
  import opened JsoncPrint
  import opened JsoncEdit
  import opened JsoncEditLaw

  // ---------------------------------------------------------------- carriage returns before line feeds

  predicate Meets(a: Str, b: Str) {
    a != [] && b != [] && a[|a| - 1] == CR && b[0] == LF
  }

  lemma CrlfAppend(a: Str, b: Str)
    ensures HasCrlf(a + b) <==> HasCrlf(a) || HasCrlf(b) || Meets(a, b)
  {
    var c := a + b;
    if HasCrlf(a) {
      var i :| 0 <= i < |a| - 1 && a[i] == CR && a[i + 1] == LF;
      assert c[i] == CR && c[i + 1] == LF;
    }
    if HasCrlf(b) {
      var i :| 0 <= i < |b| - 1 && b[i] == CR && b[i + 1] == LF;
      assert c[|a| + i] == CR && c[|a| + i + 1] == LF;
    }
    if Meets(a, b) { assert c[|a| - 1] == CR && c[|a| - 1 + 1] == LF; }
    if HasCrlf(c) {
      var i :| 0 <= i < |c| - 1 && c[i] == CR && c[i + 1] == LF;
      if i + 1 < |a| {
        assert a[i] == CR && a[i + 1] == LF;
      } else if i >= |a| {
        assert b[i - |a|] == CR && b[i - |a| + 1] == LF;
      } else {
        assert Meets(a, b);
      }
    }
  }

  /** Replacing a stretch that neither starts with a line feed nor ends with a carriage return. */
  lemma CrlfReplace(a: Str, m: Str, z: Str)
    requires m != [] && m[0] != LF && m[|m| - 1] != CR
    ensures HasCrlf(a + (m + z)) <==> HasCrlf(a) || HasCrlf(m) || HasCrlf(z)
  {
    hide HasCrlf;
    CrlfAppend(m, z);
    CrlfAppend(a, m + z);
  }

  /** A line break and indentation: no line feed but possibly the first unit. */
  predicate BreakFirst(g: Str) {
    forall i :: 0 < i < |g| ==> g[i] != LF
  }

  lemma BreakFirstNests()
    ensures Nests((h: Str) => BreakFirst(h))
  {
    var ok := (h: Str) => BreakFirst(h);
    forall h | ok(h) ensures ok(Deeper(h)) {
      var d := Deeper(h);
      forall i | 0 < i < |d| ensures d[i] != LF {
        if i < |h| { assert d[i] == h[i]; } else { assert d[i] == SPACE; }
      }
    }
  }

  lemma NoCrlfInside(t: Str)
    requires BreakFirst(t)
    ensures !HasCrlf(t)
  {}

  lemma PieceEnds(p: Piece)
    requires SoundPiece(p) && !p.Gap?
    ensures var t := PieceText(p); t != [] && t[|t| - 1] != CR && LF !in t && BreakFirst(t)
  {
    hide WordValue, Escape;
    PieceNoLf(p);
    if p.Bare? {
      WordUnits(p.w);
      assert p.w[|p.w| - 1] in p.w;
    }
  }

  lemma {:induction false} PiecesCrlf(ps: seq<Piece>)
    requires SoundPieces(ps) && forall p <- ps :: p.Gap? ==> BreakFirst(p.space)
    ensures !HasCrlf(Flat(ps))
    ensures ps != [] ==> Flat(ps) != [] && (!ps[0].Gap? ==> Flat(ps)[0] != LF)
  {
    hide HasCrlf, SoundPieces, SoundPiece, PieceText, BreakFirst;
    if ps == [] {
      assert !HasCrlf([]) by { NoCrlfNothing(); }
    } else {
      var p, t, rest := ps[0], PieceText(ps[0]), Flat(ps[1..]);
      EveryPiece(ps, p);
      SoundTail(ps);
      PiecesCrlf(ps[1..]);
      CrlfAppend(t, rest);
      if p.Gap? {
        PieceGap(p);
        NoCrlfInside(t);
        GapNonempty(p);
        NextNotGap(ps);
      } else {
        PieceEnds(p);
        NoCrlfInside(t);
        assert t[0] in t;
      }
    }
  }

  lemma NoCrlfNothing()
    ensures !HasCrlf([])
  {}

  lemma GapNonempty(p: Piece)
    requires SoundPiece(p) && p.Gap?
    ensures p.space != []
  {}

  lemma NextNotGap(ps: seq<Piece>)
    requires SoundPieces(ps) && ps != [] && ps[0].Gap?
    ensures ps[1..] != [] ==> !ps[1..][0].Gap?
  {
    if |ps| > 1 { assert MayTouch(ps[0], ps[1]); }
  }

  /** A formatted value has a CRLF exactly when it spans lines and the line break is one. */
  lemma FormatCrlf(v: Json, indent: Str, newline: Str)
    requires WellFormed(v) && AllSpace(indent) && LF !in indent && (newline == [LF] || newline == [CR, LF])
    ensures HasCrlf(FormatValue(v, indent, newline)) <==> MultiLine(v) && newline == [CR, LF]
  {
    hide Pieces, Flat, HasCrlf, SoundPieces, FormatValue, BreakFirst, IsSpace;
    var g := newline + indent;
    BreakSpace(newline);
    assert IsGap(g);
    FormatIsPrint(v, indent, newline);
    if newline == [LF] {
      LineGap(indent);
      NoCrlfPrint(v, g);
    } else if MultiLine(v) {
      var r := MultiLinePrint(v, g);
      var (u, h, b) := r;
      CrlfAppend(h, b);
      CrlfAppend([u], h + b);
      CrlfStart(indent);
    } else {
      SingleLine(v, g);
      LineGap([]);
      assert [LF] + [] == [LF];
      LfGap();
      NoCrlfPrint(v, [LF]);
    }
  }

  lemma BreakSpace(newline: Str)
    requires newline == [LF] || newline == [CR, LF]
    ensures AllSpace(newline) && newline != []
  {}

  lemma LineGap(indent: Str)
    requires LF !in indent
    ensures BreakFirst([LF] + indent)
  {
    var g := [LF] + indent;
    forall i | 0 < i < |g| ensures g[i] != LF { assert g[i] == indent[i - 1]; }
  }

  lemma CrlfStart(indent: Str)
    ensures HasCrlf(Deeper([CR, LF] + indent))
  {
    var h := Deeper([CR, LF] + indent);
    assert h[0] == CR && h[0 + 1] == LF;
  }

  lemma NoCrlfPrint(v: Json, g: Str)
    requires WellFormed(v) && IsGap(g) && BreakFirst(g)
    ensures !HasCrlf(Print(v, g))
  {
    hide Pieces, SoundPieces, HasCrlf, BreakFirst;
    PiecesSound(v, g);
    BreakFirstNests();
    PiecesGaps(v, g, (h: Str) => BreakFirst(h));
    PiecesCrlf(Pieces(v, g));
  }

  /** The print of a value that spans lines: its delimiter, the first gap, and a text that starts a value. */
  lemma MultiLinePrint(v: Json, g: Str) returns (r: (Unit, Str, Str))
    requires WellFormed(v) && IsGap(g) && MultiLine(v)
    ensures var (u, h, b) := r;
            && h == Deeper(g) && Print(v, g) == [u] + (h + b)
            && u == (if v.JArr? then OPEN_BRACKET else OPEN_BRACE)
            && b != [] && !IsSpace(b[0])
  {
    hide Pieces, Flat, Deeper, SoundPieces, ItemPieces, EntryPieces, WordValue, IsNumber, PieceText, Run, SoundPiece;
    InnerPieces(v, g);
    var (u, w) := if v.JArr? then (OPEN_BRACKET, CLOSE_BRACKET) else (OPEN_BRACE, CLOSE_BRACE);
    var h := Deeper(g);
    DeeperGap(g);
    var m := if v.JArr? then ItemPieces(v.items, h) else EntryPieces(v.entries, h);
    if v.JArr? { ItemPiecesSound(v.items, h); } else { EntryPiecesSound(v.entries, h); }
    var rest := m + [Gap(g)] + [Mark(w)];
    assert Pieces(v, g) == [Mark(u)] + ([Gap(h)] + rest);
    FlatAppend([Mark(u)], [Gap(h)] + rest);
    FlatAppend([Gap(h)], rest);
    FlatOne(Mark(u));
    FlatOne(Gap(h));
    MarkText(Mark(u));
    PieceGap(Gap(h));
    assert rest[..1] == [m[0]] && rest == [m[0]] + rest[1..];
    FlatAppend([m[0]], rest[1..]);
    FlatOne(m[0]);
    EveryPiece(m, m[0]);
    StartsValueText(m[0]);
    r := (u, h, Flat(rest));
  }

  /** Formatting tells indentations apart when the value spans lines. */
  lemma FormatInjective(v: Json, a: Str, b: Str, newline: Str)
    requires WellFormed(v) && MultiLine(v) && AllSpace(a) && AllSpace(b) && AllSpace(newline) && newline != []
    requires FormatValue(v, a, newline) == FormatValue(v, b, newline)
    ensures a == b
  {
    hide FormatValue, IsSpace, Print, SpaceLen;
    FormatIsPrint(v, a, newline);
    FormatIsPrint(v, b, newline);
    assert IsGap(newline + a) && IsGap(newline + b);
    var r1 := MultiLinePrint(v, newline + a);
    var r2 := MultiLinePrint(v, newline + b);
    var (u1, h1, b1) := r1;
    var (u2, h2, b2) := r2;
    DeeperGap(newline + a);
    DeeperGap(newline + b);
    assert ([u1] + (h1 + b1))[1..] == h1 + b1 && ([u2] + (h2 + b2))[1..] == h2 + b2;
    SpaceLenOver(h1, b1);
    SpaceLenOver(h2, b2);
    assert h1 == (h1 + b1)[..|h1|] && h2 == (h2 + b2)[..|h2|];
    assert a == h1[|newline|..|h1| - 2] && b == h2[|newline|..|h2| - 2];
  }

  // ---------------------------------------------------------------- a second edit

  /** The new property would stand right after a carriage return that ends no line. */
  predicate AfterCr(s: Str, root: Root) {
    var i := InsertionIndex(s, root.closeIndex);
    0 < i <= |s| && s[i - 1] == CR
  }

  /** The guard under which a second edit changes nothing; it can be checked before the first. */
  predicate Settles(s: Str, root: Root, key: Str, v: Json) {
    PositionsOf(root.properties, key) != [] || !MultiLine(v) || !AfterCr(s, root) || InferIndent(s, root) == TWO_SPACES
  }

  lemma IndentHasNoLf(s: Str, i: nat)
    ensures LF !in IndentationAt(s, i)
  {
    var t := Slice(s, 0, i);
    var n := AfterLastLf(t);
    forall u <- Slice(s, n, i) ensures u != LF {
      var k :| 0 <= k < |Slice(s, n, i)| && Slice(s, n, i)[k] == u;
      assert t[n..][k] == u;
    }
  }

  lemma InferHasNoLf(s: Str, root: Root)
    ensures LF !in InferIndent(s, root)
  {
    hide IndentationAt;
    if root.properties != [] { IndentHasNoLf(s, root.properties[0].keyStart); }
  }

  lemma EditIndentFacts(s: Str, root: Root, key: Str)
    ensures LF !in EditIndent(s, root, key) && AllSpace(EditIndent(s, root, key))
  {
    hide InferIndent, IndentationAt, IsSpace, PositionsOf;
    InferHasNoLf(s, root);
    InferSpace(s, root);
    var ks := PositionsOf(root.properties, key);
    MatchesInRange(root.properties, key);
    if ks != [] {
      IndentHasNoLf(s, root.properties[ks[0]].keyStart);
      IndentSpace(s, root.properties[ks[0]].keyStart);
    }
  }

  lemma NewlineCases(s: Str)
    ensures NewlineOf(s) == [LF] || NewlineOf(s) == [CR, LF]
    ensures HasCrlf(s) <==> NewlineOf(s) == [CR, LF]
  {
    hide HasCrlf;
    assert [LF] != [CR, LF];
  }

  /** The edited text formats values as the original did, as far as it matters for `v`. */
  lemma SameNewline(v: Json, indent: Str, s: Str, s': Str)
    requires WellFormed(v) && (MultiLine(v) ==> HasCrlf(s') == HasCrlf(s))
    ensures FormatValue(v, indent, NewlineOf(s')) == FormatValue(v, indent, NewlineOf(s))
  {
    hide HasCrlf;
    if !MultiLine(v) {
      FormatIsPrint(v, indent, NewlineOf(s));
      FormatIsPrint(v, indent, NewlineOf(s'));
      SingleLine(v, NewlineOf(s) + indent);
      SingleLine(v, NewlineOf(s') + indent);
    }
  }

  lemma FormatBounds(text: Str)
    requires IsValueText(text)
    ensures text != [] && text[0] != LF && text[|text| - 1] != CR && text[0] != CR
  {
    hide WordValue, StringTail, ContainerTail;
    ValueEnds(text);
    ValueStarts(text, []);
    assert text + [] == text;
    CrIsSpace();
  }

  lemma CrIsSpace()
    ensures IsSpace(CR) && IsSpace(LF)
  {}

  lemma ReplacedNewline(d: Doc, k: nat, v: Json, text: Str)
    requires GoodDoc(d) && k < |d.members| && WellFormed(v) && IsValueText(text)
    requires HasCrlf(text) <==> MultiLine(v) && HasCrlf(DocText(d))
    requires MultiLine(v)
    ensures HasCrlf(DocText(ReplacedDoc(d, k, text))) == HasCrlf(DocText(d))
  {
    hide HasCrlf, DocText, BeforeValue, PastValue, UpToValue, IsValueText, GoodBody, Closed, Skip, Properties, BodyText,
      DocRoot, WellFormed;
    RootMembers(d);
    ReplacedText(d, k, text);
    ValueInText(d, k);
    var a, m, z := BeforeValue(d, k), d.members[k].value, PastValue(d.members, k, d.tail) + d.trail;
    var p := DocRoot(d).properties[k];
    var s := DocText(d);
    assert s == s[..p.valueStart] + (s[p.valueStart..p.valueEnd] + s[p.valueEnd..]);
    MemberValue(d.members, d.tail, k);
    FormatBounds(m);
    FormatBounds(text);
    CrlfReplace(a, m, z);
    CrlfReplace(a, text, z);
  }

  lemma {:induction false} MemberValue(ms: seq<Member>, tail: Str, k: nat)
    requires GoodBody(ms, tail) && k < |ms|
    ensures IsValueText(ms[k].value)
    decreases k
  {
    hide IsValueText, Closed, IsStringText, Literal;
    if k > 0 { MemberValue(ms[1..], tail, k - 1); }
  }

  /** Editing an existing property twice. */
  lemma ReplaceTwice(d: Doc, k: nat, v: Json)
    requires GoodDoc(d) && k < |d.members| && WellFormed(v)
    ensures var s, root := DocText(d), DocRoot(d);
            k < |root.properties| &&
            var at := root.properties[k].keyStart;
            var d' := ReplacedDoc(d, k, FormatValue(v, IndentationAt(s, at), NewlineOf(s)));
            && k < |DocRoot(d').properties|
            && ReplaceValue(DocText(d'), DocRoot(d').properties[k], v) == DocText(d')
  {
    hide DocText, DocRoot, FormatValue, IndentationAt, NewlineOf, HasCrlf, GoodDoc, IsValueText, ParseJsonc, WellFormed,
      ReplacedDoc, BeforeValue, PastValue, AllJsonSpace, AllSpace;
    RootMembers(d);
    var s, p := DocText(d), DocRoot(d).properties[k];
    var indent := IndentationAt(s, p.keyStart);
    var text := FormatValue(v, indent, NewlineOf(s));
    NewlineSpace(s);
    NewlineCases(s);
    IndentSpace(s, p.keyStart);
    IndentHasNoLf(s, p.keyStart);
    FormatFacts(v, indent, NewlineOf(s));
    FormatCrlf(v, indent, NewlineOf(s));
    if MultiLine(v) { ReplacedNewline(d, k, v, text); }
    var d' := ReplacedDoc(d, k, text);
    ReplacedMembers(d, k, text);
    RootMembers(d');
    var s', p' := DocText(d'), DocRoot(d').properties[k];
    SameNewline(v, indent, s, s');
    ValueInText(d', k);
    SliceFacts(s', p'.valueStart, p'.valueEnd);
    SamePrefix(d, k, text);
  }

  lemma ReplacedMembers(d: Doc, k: nat, text: Str)
    requires k < |d.members|
    ensures var d' := ReplacedDoc(d, k, text);
            |d'.members| == |d.members| && d'.members[k].value == text
  {}

  lemma {:induction false} KeyStartBeforeValue(ms: seq<Member>, k: nat, at: nat)
    requires k < |ms|
    ensures var p := Properties(ms, at)[k];
            at <= p.keyStart == at + |UpToValue(ms, k)| - |ms[k].key| - |ms[k].beforeColon| - 1 - |ms[k].afterColon|
    decreases k
  {
    hide MemberText, KeyOf;
    if k > 0 {
      KeyStartBeforeValue(ms[1..], k - 1, at + |MemberText(ms[0])|);
    }
  }

  lemma SamePrefix(d: Doc, k: nat, text: Str)
    requires k < |d.members|
    ensures var d' := ReplacedDoc(d, k, text);
            && k < |DocRoot(d).properties| && k < |DocRoot(d').properties|
            && var i := DocRoot(d).properties[k].keyStart;
            && DocRoot(d').properties[k].keyStart == i
            && IndentationAt(DocText(d'), i) == IndentationAt(DocText(d), i)
  {
    hide DocText, UpToValue, Properties, BodyText, MemberText, PastValue;
    RootMembers(d);
    var d' := ReplacedDoc(d, k, text);
    RootMembers(d');
    UpToSame(d.members, k, text);
    KeyStartBeforeValue(d.members, k, |d.lead| + 1);
    KeyStartBeforeValue(d'.members, k, |d.lead| + 1);
    ValueInText(d, k);
    ValueInText(d', k);
    assert BeforeValue(d', k) == BeforeValue(d, k);
    var i := DocRoot(d).properties[k].keyStart;
    IndentPrefix(DocText(d), DocText(d'), |BeforeValue(d, k)|, i);
  }

  lemma IndentPrefix(s: Str, s': Str, n: nat, i: nat)
    requires i <= n <= |s| && n <= |s'| && s[..n] == s'[..n]
    ensures IndentationAt(s, i) == IndentationAt(s', i)
  {
    hide AfterLastLf, IsSpace;
    assert s[..i] == s[..n][..i] && s'[..i] == s'[..n][..i];
    assert Slice(s, 0, i) == s[..i] && Slice(s', 0, i) == s'[..i];
    var a := AfterLastLf(s[..i]);
    assert Slice(s, a, i) == s[..i][a..] && Slice(s', a, i) == s'[..i][a..];
  }

  // ---------------------------------------------------------------- after an insertion

  /** The text up to the new property's key, without its indentation. */
  function BeforeNew(d: Doc): Str {
    UntilGap(d) + (CommaFor(d) + (GapBefore(d)
                                  + LeadingNewline(DocText(d), InsertionIndex(DocText(d), DocRoot(d).closeIndex))))
  }

  function NewIndent(d: Doc): Str { InferIndent(DocText(d), DocRoot(d)) }

  /** The new property's value and what follows it. */
  function NewTail(d: Doc, v: Json): Str {
    FormatValue(v, NewIndent(d), NewlineOf(DocText(d))) + (NewlineOf(DocText(d)) + (GapAfter(d) + ([CLOSE_BRACE] + d.trail)))
  }

  lemma RegroupNew(u: Str, c: Str, g1: Str, lead: Str, ind: Str, q: Str, cs: Str, text: Str, nl: Str, g2: Str, z: Str)
    ensures u + (c + (g1 + (lead + (ind + (q + (cs + text)) + (nl + g2))) + z))
         == u + (c + (g1 + lead)) + (ind + ((q + cs) + (text + (nl + (g2 + z)))))
  {
    var inner := ind + ((q + cs) + (text + (nl + (g2 + z))));
    assert ind + (q + (cs + text)) + (nl + g2) + z == inner;
    assert g1 + (lead + (ind + (q + (cs + text)) + (nl + g2))) + z == (g1 + lead) + inner;
  }

  lemma InsertedText(d: Doc, key: Str, v: Json)
    requires GoodDoc(d)
    ensures DocText(InsertedDoc(d, key, v))
         == BeforeNew(d) + (NewIndent(d) + ((Quote(key) + [COLON, SPACE]) + NewTail(d, v)))
  {
    hide Closed, DocText, DocRoot, UntilGap, FormatValue, NewlineOf, InferIndent, InsertionIndex, GoodDoc, Quote,
      MemberText, NewMember, LeadingNewline, GapBefore, GapAfter, CommaFor, AppendMember;
    var s := DocText(d);
    var lead := LeadingNewline(s, InsertionIndex(s, DocRoot(d).closeIndex));
    var text, newline := FormatValue(v, NewIndent(d), NewlineOf(s)), NewlineOf(s);
    NewMemberText(GapBefore(d), lead, NewIndent(d), key, text, newline + GapAfter(d));
    NewHasNoComma(GapBefore(d), lead, NewIndent(d), key, text, newline + GapAfter(d));
    AppendText(d, InsertedMember(d, key, v));
    RegroupNew(UntilGap(d), CommaFor(d), GapBefore(d), lead, NewIndent(d), Quote(key), [COLON, SPACE], text, newline,
               GapAfter(d), [CLOSE_BRACE] + d.trail);
  }

  lemma AppendedShape(d: Doc, key: Str, v: Json)
    ensures var ms, m := InsertedDoc(d, key, v).members, InsertedMember(d, key, v);
            && |ms| == |d.members| + 1 && ms[|d.members|] == m && InsertedDoc(d, key, v).tail == []
            && InsertedDoc(d, key, v).trail == d.trail
            && m.key == Quote(key) && m.beforeColon == [] && m.afterColon == [SPACE] && !m.comma
            && m.value == FormatValue(v, NewIndent(d), NewlineOf(DocText(d)))
            && m.post == NewlineOf(DocText(d)) + GapAfter(d)
  {
    hide DocText, FormatValue, GapBefore, GapAfter, Quote, DocRoot, NewlineOf, InferIndent, LeadingNewline, InsertionIndex;
  }

  /** The new key stands after its indentation. */
  lemma InsertedKeyAt(d: Doc, key: Str, v: Json)
    requires GoodDoc(d) && WellFormed(v)
    ensures var d', n := InsertedDoc(d, key, v), |d.members|;
            && n < |DocRoot(d').properties| && n < |d'.members|
            && var i := DocRoot(d').properties[n].keyStart;
            && i == |BeforeNew(d)| + |NewIndent(d)| && i <= |DocText(d')|
            && DocText(d')[..i] == BeforeNew(d) + NewIndent(d)
  {
    hide Closed, DocText, UntilGap, FormatValue, NewlineOf, InferIndent, Quote, MemberText, GapAfter, BeforeNew, BodyText,
      NewIndent, InsertedDoc, InsertedMember, GoodBody, WellFormed, PastValue, UpToValue, Properties, GoodMember;
    var d', n := InsertedDoc(d, key, v), |d.members|;
    InsertedText(d, key, v);
    AppendedShape(d, key, v);
    InsertedGood(d, key, v);
    RootMembers(d');
    LastMember(d'.members, d'.tail);
    PastLast(d'.members, d'.tail);
    ValueInText(d', n);
    KeyStartBeforeValue(d'.members, n, |d'.lead| + 1);
  }

  lemma AfterLfWithin(t: Str, w: Str)
    requires |w| <= |t| && t[|t| - |w|..] == w && LF !in w
    ensures AfterLastLf(t) <= |t| - |w|
    ensures !AllSpace(w) ==> !AllSpace(t[AfterLastLf(t)..])
  {
    hide IsSpace, AfterLastLf;
    var n := AfterLastLf(t);
    assert forall j :: |t| - |w| <= j < |t| ==> t[j] == w[j - (|t| - |w|)] && t[j] in w;
    if !AllSpace(w) {
      var u :| u in w && !IsSpace(u);
      var k :| 0 <= k < |w| && w[k] == u;
      assert t[n..][|t| - |w| - n + k] == u;
    }
  }

  lemma AfterLfIs(t: Str, n: nat)
    requires n <= |t| && LF !in t[n..] && (n == 0 || t[n - 1] == LF)
    ensures AfterLastLf(t) == n
  {
    var m := AfterLastLf(t);
    assert forall j :: n <= j < |t| ==> t[j] == t[n..][j - n] && t[j] in t[n..];
    assert forall j :: m <= j < |t| ==> t[j] == t[m..][j - m] && t[j] in t[m..];
  }

  /** The indentation seen at a position that `ind` precedes. */
  lemma IndentAfter(t: Str, ind: Str)
    requires LF !in ind && AllSpace(ind)
    ensures t != [] && t[|t| - 1] == LF ==> IndentationAt(t + ind, |t| + |ind|) == ind
    ensures !AllSpace(t[AfterLastLf(t)..]) ==> IndentationAt(t + ind, |t| + |ind|) == TWO_SPACES
  {
    hide AfterLastLf, AllSpace, IndentationAt;
    var s, n := t + ind, AfterLastLf(t);
    assert s[n..] == t[n..] + ind;
    assert LF !in s[n..];
    AfterLfIs(s, n);
    IndentAtEnd(s);
    NotAllSpace(t[n..], ind);
    if t != [] && t[|t| - 1] == LF {
      LfAtEnd(t);
      assert s[n..] == ind;
    }
  }

  lemma LfAtEnd(t: Str)
    requires t != [] && t[|t| - 1] == LF
    ensures AfterLastLf(t) == |t| && t[|t|..] == []
  {}

  lemma NotAllSpace(a: Str, b: Str)
    ensures !AllSpace(a) ==> !AllSpace(a + b)
  {
    hide IsSpace;
    if !AllSpace(a) {
      var u :| u in a && !IsSpace(u);
      assert u in a + b;
    }
  }

  lemma IndentAtEnd(s: Str)
    ensures var n := AfterLastLf(s); IndentationAt(s, |s|) == if AllSpace(s[n..]) then s[n..] else TWO_SPACES
  {
    hide AfterLastLf, AllSpace;
    assert Slice(s, 0, |s|) == s;
    assert Slice(s, AfterLastLf(s), |s|) == s[AfterLastLf(s)..];
  }

  /** After a carriage return that ends no line, the new property's line also holds other text. */
  lemma CrLine(d: Doc)
    requires GoodDoc(d) && AfterCr(DocText(d), DocRoot(d))
    ensures var t := BeforeNew(d); !AllSpace(t[AfterLastLf(t)..])
  {
    hide Closed, DocText, DocRoot, UntilGap, LastGap, IsSpace, InsertionIndex, AfterLastLf, GoodDoc, GapBefore, GapAfter,
      HasCrlf, LacksComma;
    CutGap(d);
    TextAroundGap(d);
    UntilGapEnd(d);
    CrIsSpace();
    CommaIsPlain();
    var s, i := DocText(d), InsertionIndex(DocText(d), DocRoot(d).closeIndex);
    var u, c, g1 := UntilGap(d), CommaFor(d), GapBefore(d);
    assert Slice(s, 0, i) == s[..i];
    assert LeadingNewline(s, i) == [];
    var t := BeforeNew(d);
    assert t == u + (c + g1) by { assert g1 + [] == g1; }
    assert s[..i] == u + g1;
    CrCut(u, LastGap(d), [CLOSE_BRACE] + d.trail);
    var t0 := u + g1;
    var start := AfterLastLf(t0);
    if start < |u| {
      var w := [u[|u| - 1]] + (c + g1);
      assert t[|t| - |w|..] == w;
      assert forall j :: 0 <= j < |g1| ==> t0[start..][|u| - start + j] == g1[j];
      assert u[|u| - 1] in w;
      AfterLfWithin(t, w);
    } else {
      var w := g1[start - |u|..];
      assert t0[start..] == w;
      assert t[|t| - |w|..] == w;
      AfterLfWithin(t, w);
    }
  }

  lemma CommaIsPlain()
    ensures !IsSpace(COMMA)
  {}

  lemma CrCut(u: Str, g: Str, z: Str)
    requires u != [] && !IsSpace(u[|u| - 1]) && Closed(g)
    ensures var i := InsertionIndex(u + (g + z), |u| + |g|);
            && |u| <= i <= |u| + |g|
            && ((u + (g + z))[i - 1] == CR ==> i == |u| + |g| && !AllSpace((u + g)[AfterLastLf(u + g)..]))
  {
    hide Closed, IsSpace, InsertionIndex, AfterLastLf;
    CutText(u, g, z);
    var t := u + g;
    assert u + (g + z) == t + z;
    InsertionAt(t, z);
    var start := AfterLastLf(t);
    assert start > 0 ==> (t + z)[start - 1] == t[start - 1] == LF;
    assert LF != CR;
  }

  /** Elsewhere the new property starts a line. */
  lemma LfLine(d: Doc)
    requires GoodDoc(d) && !AfterCr(DocText(d), DocRoot(d))
    ensures var t := BeforeNew(d); t != [] && t[|t| - 1] == LF
  {
    hide Closed, DocText, DocRoot, UntilGap, LastGap, IsSpace, InsertionIndex, GoodDoc, GapBefore, GapAfter, HasCrlf,
      CommaFor;
    CutGap(d);
    TextAroundGap(d);
    UntilGapEnd(d);
    CrIsSpace();
    var s, i := DocText(d), InsertionIndex(DocText(d), DocRoot(d).closeIndex);
    var u, g1 := UntilGap(d), GapBefore(d);
    assert Slice(s, 0, i) == s[..i];
    assert s[..i] == u + g1;
    if g1 == [] {
      assert s[..i][i - 1] == u[|u| - 1];
    } else {
      assert s[..i][i - 1] == g1[|g1| - 1];
    }
  }

  /** The indentation a second edit finds. */
  lemma InsertedIndent(d: Doc, key: Str, v: Json)
    requires GoodDoc(d) && WellFormed(v)
    ensures var d', n := InsertedDoc(d, key, v), |d.members|;
            && n < |DocRoot(d').properties|
            && IndentationAt(DocText(d'), DocRoot(d').properties[n].keyStart)
            == if AfterCr(DocText(d), DocRoot(d)) then TWO_SPACES else NewIndent(d)
  {
    hide DocText, DocRoot, GoodDoc, InferIndent, InsertedDoc, BeforeNew, IndentationAt, WellFormed, AfterLastLf, IsSpace,
      AfterCr;
    InsertedKeyAt(d, key, v);
    var s', i := DocText(InsertedDoc(d, key, v)), DocRoot(InsertedDoc(d, key, v)).properties[|d.members|].keyStart;
    var t := BeforeNew(d) + NewIndent(d);
    assert t[..i] == t;
    IndentPrefix(s', t, i, i);
    InferHasNoLf(DocText(d), DocRoot(d));
    InferSpace(DocText(d), DocRoot(d));
    IndentAfter(BeforeNew(d), NewIndent(d));
    if AfterCr(DocText(d), DocRoot(d)) { CrLine(d); } else { LfLine(d); }
  }

  lemma QuoteEnds(key: Str)
    ensures var q := Quote(key) + [COLON, SPACE]; q != [] && q[0] == QUOTE && q[|q| - 1] == SPACE && !HasCrlf(q)
  {
    hide Escape, IsStringText;
    PieceNoLf(Quoted(key));
    var q := Quote(key) + [COLON, SPACE];
    forall i | 0 <= i < |q| ensures q[i] != LF {
      if i < |Quote(key)| { assert q[i] in PieceText(Quoted(key)); }
    }
  }

  lemma BeforeNewCrlf(d: Doc)
    requires GoodDoc(d)
    ensures !HasCrlf(DocText(d)) ==>
              !HasCrlf(UntilGap(d) + GapBefore(d)) && !HasCrlf(GapAfter(d) + ([CLOSE_BRACE] + d.trail))
    ensures HasCrlf(UntilGap(d) + GapBefore(d)) <==> HasCrlf(UntilGap(d) + (CommaFor(d) + GapBefore(d)))
  {
    hide Closed, DocText, DocRoot, UntilGap, LastGap, IsSpace, GoodDoc, GapBefore, GapAfter, HasCrlf, LacksComma;
    CutGap(d);
    TextAroundGap(d);
    UntilGapEnd(d);
    CrIsSpace();
    var u, c, g1, g2, z := UntilGap(d), CommaFor(d), GapBefore(d), GapAfter(d), [CLOSE_BRACE] + d.trail;
    assert u + (g1 + g2 + z) == (u + g1) + (g2 + z);
    CrlfAppend(u + g1, g2 + z);
    CrlfAppend(u, g1);
    CrlfAppend(u, c + g1);
    CrlfAppend(c, g1);
    NoCrlfComma();
    NoCrlfNothing();
  }

  lemma NoCrlfComma()
    ensures !HasCrlf([COMMA])
  {}

  lemma CrlfAfterText(text: Str, newline: Str, z: Str)
    requires text != [] && text[|text| - 1] != CR && (newline == [LF] || newline == [CR, LF])
    ensures newline == [CR, LF] ==> HasCrlf(text + (newline + z))
    ensures newline == [LF] && !HasCrlf(text) && !HasCrlf(z) ==> !HasCrlf(text + (newline + z))
  {
    hide HasCrlf;
    assert LF != CR;
    CrlfAppend(newline, z);
    CrlfAppend(text, newline + z);
    BreakCrlf();
  }

  lemma BreakCrlf()
    ensures HasCrlf([CR, LF]) && !HasCrlf([LF])
  {
    assert [CR, LF][0] == CR && [CR, LF][0 + 1] == LF;
  }

  lemma CrlfAround(t: Str, ind: Str, q: Str, tail: Str)
    requires LF !in ind && q != [] && q[0] != LF && q[|q| - 1] != CR && !HasCrlf(q)
    ensures HasCrlf(tail) ==> HasCrlf(t + (ind + (q + tail)))
    ensures !HasCrlf(t) && !HasCrlf(tail) ==> !HasCrlf(t + (ind + (q + tail)))
  {
    CrlfAppend(q, tail);
    CrlfAppend(ind, q + tail);
    CrlfAppend(t, ind + (q + tail));
    assert ind != [] ==> ind[0] in ind;
    NoLfNoCrlf(ind);
    hide HasCrlf;
    assert (ind + (q + tail))[0] != LF;
  }

  lemma NoLfNoCrlf(t: Str)
    requires LF !in t
    ensures !HasCrlf(t)
  {}

  lemma BeforeNewPlain(d: Doc)
    requires GoodDoc(d) && !HasCrlf(DocText(d))
    ensures !HasCrlf(BeforeNew(d))
  {
    hide Closed, DocText, DocRoot, UntilGap, LastGap, IsSpace, GoodDoc, GapBefore, GapAfter, HasCrlf, LacksComma,
      InsertionIndex;
    CutGap(d);
    TextAroundGap(d);
    UntilGapEnd(d);
    CrIsSpace();
    CommaIsPlain();
    BeforeNewCrlf(d);
    var s, i := DocText(d), InsertionIndex(DocText(d), DocRoot(d).closeIndex);
    var u, c, g1, lead := UntilGap(d), CommaFor(d), GapBefore(d), LeadingNewline(s, i);
    assert Slice(s, 0, i) == s[..i];
    assert s[..i] == u + g1;
    assert BeforeNew(d) == (u + (c + g1)) + lead;
    CrlfAppend(u + (c + g1), lead);
    BreakCrlf();
    NoCrlfNothing();
    if g1 != [] { assert s[..i][i - 1] == g1[|g1| - 1]; }
  }

  /** An insertion neither adds the first CRLF of a text nor removes the last. */
  lemma InsertedNewline(d: Doc, key: Str, v: Json)
    requires GoodDoc(d) && WellFormed(v)
    ensures HasCrlf(DocText(InsertedDoc(d, key, v))) == HasCrlf(DocText(d))
  {
    hide DocText, DocRoot, GoodDoc, InferIndent, InsertedDoc, BeforeNew, WellFormed, HasCrlf, FormatValue, Quote, GapAfter,
      IsValueText, GapBefore, ParseJsonc, IsSpace;
    var s, ind := DocText(d), NewIndent(d);
    var q := Quote(key) + [COLON, SPACE];
    InsertedText(d, key, v);
    NewlineCases(s);
    NewlineSpace(s);
    InferHasNoLf(s, DocRoot(d));
    InferSpace(s, DocRoot(d));
    var text := FormatValue(v, ind, NewlineOf(s));
    FormatFacts(v, ind, NewlineOf(s));
    FormatCrlf(v, ind, NewlineOf(s));
    FormatBounds(text);
    QuoteEnds(key);
    BeforeNewCrlf(d);
    if !HasCrlf(s) { BeforeNewPlain(d); }
    CrlfAfterText(text, NewlineOf(s), GapAfter(d) + ([CLOSE_BRACE] + d.trail));
    CrlfAround(BeforeNew(d), ind, q, NewTail(d, v));
  }

  // ---------------------------------------------------------------- the theorem

  lemma ReplaceSame(s: Str, p: Property, v: Json)
    requires p.valueStart <= p.valueEnd <= |s|
    ensures ReplaceValue(s, p, v) == s
       <==> s[p.valueStart..p.valueEnd] == FormatValue(v, IndentationAt(s, p.keyStart), NewlineOf(s))
  {
    hide FormatValue, IndentationAt, NewlineOf;
    SliceFacts(s, p.valueStart, p.valueEnd);
    var r := FormatValue(v, IndentationAt(s, p.keyStart), NewlineOf(s));
    var e := s[..p.valueStart] + (r + s[p.valueEnd..]);
    if e == s {
      assert |r| == p.valueEnd - p.valueStart;
      assert e[p.valueStart..p.valueEnd] == r;
    }
  }

  /** Editing the property that an insertion added. */
  lemma InsertTwice(d: Doc, key: Str, v: Json)
    requires GoodDoc(d) && WellFormed(v)
    ensures var d', n := InsertedDoc(d, key, v), |d.members|;
            && n < |DocRoot(d').properties|
            && (ReplaceValue(DocText(d'), DocRoot(d').properties[n], v) == DocText(d')
                <==> !MultiLine(v) || !AfterCr(DocText(d), DocRoot(d)) || NewIndent(d) == TWO_SPACES)
  {
    hide DocText, DocRoot, FormatValue, IndentationAt, HasCrlf, GoodDoc, WellFormed, InferIndent, AllSpace,
      InsertedDoc, BeforeValue, PastValue, AfterCr, ReplaceValue, InsertedMember, MultiLine, GapAfter;
    var d', n := InsertedDoc(d, key, v), |d.members|;
    var s, s' := DocText(d), DocText(d');
    var ind := NewIndent(d);
    AppendedShape(d, key, v);
    RootMembers(d');
    InsertedIndent(d, key, v);
    InsertedNewline(d, key, v);
    NewlineSpace(s);
    InferSpace(s, DocRoot(d));
    ValueInText(d', n);
    var p := DocRoot(d').properties[n];
    ReplaceSame(s', p, v);
    var ind' := if AfterCr(s, DocRoot(d)) then TWO_SPACES else ind;
    assert s'[p.valueStart..p.valueEnd] == FormatValue(v, ind, NewlineOf(s));
    if !MultiLine(v) {
      SingleLineFormat(v, ind, ind', NewlineOf(s));
    } else if ind != ind' && FormatValue(v, ind, NewlineOf(s)) == FormatValue(v, ind', NewlineOf(s)) {
      FormatInjective(v, ind, ind', NewlineOf(s));
      assert false;
    }
  }

  lemma SingleLineFormat(v: Json, a: Str, b: Str, newline: Str)
    requires WellFormed(v) && !MultiLine(v)
    ensures FormatValue(v, a, newline) == FormatValue(v, b, newline)
  {
    FormatIsPrint(v, a, newline);
    FormatIsPrint(v, b, newline);
    SingleLine(v, newline + a);
    SingleLine(v, newline + b);
  }

  lemma {:induction false} PositionsByKey(ps: seq<Property>, qs: seq<Property>, key: Str)
    requires |ps| == |qs| && forall i :: 0 <= i < |ps| ==> ps[i].key == qs[i].key
    ensures PositionsOf(ps, key) == PositionsOf(qs, key)
  {
    if ps != [] { PositionsByKey(ps[..|ps| - 1], qs[..|qs| - 1], key); }
  }

  lemma PositionsGrow(ps: seq<Property>, qs: seq<Property>, key: Str)
    requires |qs| == |ps| + 1 && qs[|ps|].key == key && forall i :: 0 <= i < |ps| ==> ps[i].key == qs[i].key
    ensures PositionsOf(qs, key) == PositionsOf(ps, key) + [|ps|]
  {
    PositionsByKey(ps, qs[..|ps|], key);
  }

  /** Where the edited property is afterwards. */
  lemma EditedPosition(d: Doc, key: Str, v: Json)
    requires GoodDoc(d) && WellFormed(v) && EditDoc(d, key, v).Some?
    ensures var d', ks := EditDoc(d, key, v).value, PositionsOf(DocRoot(d).properties, key);
            PositionsOf(DocRoot(d').properties, key) == if ks == [] then [|d.members|] else [ks[0]]
  {
    hide DocText, DocRoot, GoodDoc, WellFormed, ReplacedDoc, InsertedDoc, EditText, KeyOf, InsertedMember, ValueTexts,
      PositionsOf;
    RootMembers(d);
    var ps := DocRoot(d).properties;
    var ks := PositionsOf(ps, key);
    MatchesInRange(ps, key);
    DocKeysAndValues(d);
    if ks == [] {
      var d' := InsertedDoc(d, key, v);
      InsertedGood(d, key, v);
      InsertedView(d, key, v);
      var qs := DocRoot(d').properties;
      var keys := Keys(DocRoot(d'));
      assert forall i :: 0 <= i < |ps| ==> qs[i].key == keys[i] == Keys(DocRoot(d))[i] == ps[i].key;
      assert qs[|ps|].key == keys[|ps|] == key;
      PositionsGrow(ps, qs, key);
    } else {
      ReplacedView(d, ks[0], EditText(DocText(d), DocRoot(d), key, v));
      var qs := DocRoot(ReplacedDoc(d, ks[0], EditText(DocText(d), DocRoot(d), key, v))).properties;
      assert forall i :: 0 <= i < |ps| ==> Keys(DocRoot(d))[i] == ps[i].key;
      PositionsByKey(qs, ps, key);
      assert ks == [ks[0]];
    }
  }

  lemma EditTwice(d: Doc, key: Str, v: Json)
    requires GoodDoc(d) && WellFormed(v) && EditDoc(d, key, v).Some?
    ensures var s' := DocText(EditDoc(d, key, v).value);
            SetTop(s', key, v) == Some(s') <==> Settles(DocText(d), DocRoot(d), key, v)
  {
    hide DocText, DocRoot, GoodDoc, WellFormed, ReplacedDoc, InsertedDoc, EditText, ReplaceValue, InsertProperty, AfterCr,
      PositionsOf, MultiLine, InferIndent;
    var d', ks := EditDoc(d, key, v).value, PositionsOf(DocRoot(d).properties, key);
    EditRefines(d, key, v);
    EditedPosition(d, key, v);
    MatchesInRange(DocRoot(d).properties, key);
    RootMembers(d);
    if ks == [] {
      InsertTwice(d, key, v);
    } else {
      EditTextOne(DocText(d), DocRoot(d), key, v);
      ReplaceTwice(d, ks[0], v);
    }
  }

  /**
   * A second edit with the same value returns the text unchanged if and only if the first one settles: it replaced a
   * value, or wrote a value on one line, or did not write right after a lone carriage return, or indented by two
   * spaces. Otherwise the new key is not seen as indented, and its value is formatted again with two spaces.
   */
  lemma SecondEdit(s: Str, key: Str, v: Json)
    requires WellFormed(v) && SetTop(s, key, v).Some?
    ensures ScanRoot(s).Some?
    ensures SetTop(SetTop(s, key, v).value, key, v) == SetTop(s, key, v) <==> Settles(s, ScanRoot(s).value, key, v)
  {
    hide DocText, DocRoot, GoodDoc, WellFormed, EditDoc, SetProperty, Settles;
    assert ScanRoot(s).Some?;
    ReadThenWrite(s);
    var d := ReadDoc(s).value;
    EditRefines(d, key, v);
    EditTwice(d, key, v);
  }

  /** One member on a line indented by `u`, and `w` before the closing brace. */
  function OneMember(u: Unit, w: Unit): Doc {
    Doc([], [Member([LF, u], Quote([]), [], [], Quote([]), [w], false)], [], [])
  }

  /** A document whose second edit differs from the first. */
  lemma UnsettledExample(key: Str)
    requires key != []
    ensures var s, v := DocText(OneMember(TAB, CR)), JArr([JNull]);
            SetTop(s, key, v).Some? && SetTop(SetTop(s, key, v).value, key, v) != SetTop(s, key, v)
  {
    hide OneMember, DocText, DocRoot, GoodDoc, WellFormed, EditDoc, SetProperty, Settles, PositionsOf;
    var d, v := OneMember(TAB, CR), JArr([JNull]);
    var s := DocText(d);
    CrIsSpace();
    OneMemberGood(TAB, CR);
    LoneCrUnsettled(key);
    WriteThenRead(d);
    EditRefines(d, key, v);
    LoneCrEdits(d, key, v);
    SecondEdit(s, key, v);
  }

  lemma LoneCrEdits(d: Doc, key: Str, v: Json)
    requires PositionsOf(DocRoot(d).properties, key) == []
    ensures EditDoc(d, key, v).Some?
  {}

  lemma OneMemberGood(u: Unit, w: Unit)
    requires IsSpace(u) && IsSpace(w)
    ensures GoodDoc(OneMember(u, w)) && WellFormed(JArr([JNull]))
  {
    hide Quote, IsStringText, Closed, ParseJsonc, ContainerTail, IsSpace, Literal;
    var m := OneMember(u, w).members[0];
    CrIsSpace();
    assert forall x <- m.pre :: IsSpace(x);
    SpacesClosed(m.pre);
    SpacesClosed(m.post);
    ClosedNil();
    QuoteLiteral([]);
    QuoteEnds([]);
    assert (Quote([]) + [COLON, SPACE])[0] == Quote([])[0];
    assert GoodMember(m);
    assert GoodBody([m], []) by { assert [m][1..] == []; }
    assert Skip([]) == Some(0);
    assert WellFormed(JNull);
    assert OneMember(u, w).members == [m];
  }

  lemma OneMemberText(u: Unit, w: Unit)
    ensures var d := OneMember(u, w);
            && DocText(d) == [OPEN_BRACE, LF, u, QUOTE, QUOTE, COLON, QUOTE, QUOTE, w, CLOSE_BRACE]
            && DocRoot(d).closeIndex == 9 && |DocRoot(d).properties| == 1
            && DocRoot(d).properties[0].keyStart == 3 && DocRoot(d).properties[0].key == []
  {
    hide IsStringText, ParseJsonc, ContainerTail;
    var d := OneMember(u, w);
    QuoteLiteral([]);
    assert d.members[1..] == [];
    assert Quote([]) == [QUOTE, QUOTE];
    var m := d.members[0];
    assert FromValue(m) == [QUOTE, QUOTE, w];
    assert FromColon(m) == [COLON, QUOTE, QUOTE, w];
    assert MemberText(m) == [LF, u, QUOTE, QUOTE, COLON, QUOTE, QUOTE, w];
    assert BodyText(d.members, []) == [LF, u, QUOTE, QUOTE, COLON, QUOTE, QUOTE, w, CLOSE_BRACE];
  }

  lemma LoneCrUnsettled(key: Str)
    requires key != []
    ensures var d := OneMember(TAB, CR);
            PositionsOf(DocRoot(d).properties, key) == [] && !Settles(DocText(d), DocRoot(d), key, JArr([JNull]))
  {
    hide OneMember, DocText, DocRoot, AfterLastLf;
    OneMemberText(TAB, CR);
    var s, root := DocText(OneMember(TAB, CR)), DocRoot(OneMember(TAB, CR));
    assert Slice(s, 0, 3) == s[..3] && Slice(s, 0, 9) == s[..9];
    AfterLfIs(s[..3], 2);
    AfterLfIs(s[..9], 2);
    assert Slice(s, 2, 3) == [TAB];
    assert Slice(s, 2, 9)[1] == QUOTE;
    assert !AllSpace(Slice(s, 2, 9)) by { assert QUOTE in Slice(s, 2, 9); }
    assert InsertionIndex(s, 9) == 9;
    assert [TAB] != TWO_SPACES;
  }
}
