/** The input of a custom tool call: decoded as its JSON arguments arrive, and from the whole document. */
module ToolInput {
  import opened Units
  import opened JsonText
  import opened JsonGrammar
  import opened JsoncGrammar
  import opened JsoncPrint

  const INPUT: Str := [0x69, 0x6E, 0x70, 0x75, 0x74]
  const QUOTED_INPUT: Str := [QUOTE] + INPUT + [QUOTE]

  // ---------------------------------------------------------------- the header

  /** Optional whitespace, then `w`. */
  function Expect(t: Str, w: Str): (n: Option<nat>)
    ensures n.Some? ==> n.value <= |t|
  {
    var n := SpaceLen(t);
    if IsPrefix(w, t[n..]) then Some(n + |w|) else None
  }

  function ExpectAll(t: Str, ws: seq<Str>): (n: Option<nat>)
    ensures n.Some? ==> n.value <= |t|
    decreases |ws|
  {
    if ws == [] then Some(0)
    else
      var n := Expect(t, ws[0]);
      if n.None? then None else Shift(n.value, ExpectAll(t[n.value..], ws[1..]))
  }

  const HEADER: seq<Str> := [[OPEN_BRACE], QUOTED_INPUT, [COLON], [QUOTE]]

  /** The length of the header, up to and including the opening quote of the value. */
  function Header(t: Str): (n: Option<nat>)
    ensures n.Some? ==> n.value <= |t|
  {
    ExpectAll(t, HEADER)
  }

  predicate StartsPlain(w: Str) { w != [] && !IsSpace(w[0]) }

  lemma SpaceLenLocal(a: Str, b: Str)
    requires SpaceLen(a) < |a|
    ensures SpaceLen(a + b) == SpaceLen(a)
  {
    var n := SpaceLen(a);
    assert forall i :: 0 <= i <= n ==> (a + b)[i] == a[i];
  }

  lemma ExpectLocal(a: Str, b: Str, w: Str)
    requires StartsPlain(w) && Expect(a, w).Some?
    ensures Expect(a + b, w) == Expect(a, w)
  {
    hide SpaceLen, IsSpace;
    var n := SpaceLen(a);
    assert a[n..][..|w|][0] == a[n];
    SpaceLenLocal(a, b);
    assert (a + b)[n..][..|w|] == a[n..][..|w|];
  }

  /** A header is not affected by what follows. */
  lemma {:induction false} HeaderLocal(a: Str, b: Str, ws: seq<Str>)
    requires (forall w <- ws :: StartsPlain(w)) && ExpectAll(a, ws).Some?
    ensures ExpectAll(a + b, ws) == ExpectAll(a, ws)
    decreases |ws|
  {
    hide Expect, StartsPlain;
    if ws != [] {
      assert ws[0] in ws;
      ExpectLocal(a, b, ws[0]);
      var n := Expect(a, ws[0]).value;
      assert (a + b)[n..] == a[n..] + b;
      HeaderLocal(a[n..], b, ws[1..]);
    }
  }

  lemma HeaderPlain()
    ensures forall w <- HEADER :: StartsPlain(w)
  {}

  // ---------------------------------------------------------------- decoding as far as possible

  /** The value of the text after the opening quote, as far as it is there; None when it cannot be a literal. */
  function Decode(t: Str): Option<Str>
    decreases |t|
  {
    if t == [] || t[0] == QUOTE then Some([])
    else if t[0] != BACKSLASH then (if t[0] < 0x20 then None else Cons(t[0], Decode(t[1..])))
    else if |t| < 2 then Some([])
    else if SimpleEscape(t[1]).Some? then Cons(SimpleEscape(t[1]).value, Decode(t[2..]))
    else if t[1] != 0x75 || |t| < 6 then Some([])
    else if Hex4(t[2..6]).None? then None
    else Cons(Hex4(t[2..6]).value, Decode(t[6..]))
  }

  function Partial(t: Str): Option<Str> {
    var h := Header(t);
    if h.None? then (if |t| <= 32 then Some([]) else None) else Decode(t[h.value..])
  }

  function Onto(s: Str, r: Option<Str>): Option<Str> {
    if r.None? then None else Some(s + r.value)
  }

  lemma OntoCons(s: Str, u: Unit, r: Option<Str>)
    ensures Onto(s, Cons(u, r)) == Onto(s + [u], r)
  {
    if r.Some? { assert s + ([u] + r.value) == s + [u] + r.value; }
  }

  /** partialCustomToolInput; undefined is None. */
  method PartialCustomToolInput(argumentsValue: Str) returns (r: Option<Str>)
    ensures r == Partial(argumentsValue)
  {
    hide ExpectAll, Hex4, SimpleEscape, Decode;
    var t := argumentsValue;
    var header := Header(t);
    if header.None? { return if |t| <= 32 then Some([]) else None; }
    var decoded: Str := [];
    var index := header.value;
    assert Onto([], Decode(t[index..])) == Decode(t[index..]) by { OntoNothing(Decode(t[index..])); }
    while index < |t|
      invariant index <= |t|
      invariant Partial(t) == Onto(decoded, Decode(t[index..]))
    {
      DecodeUnfold(t[index..]);
      NothingLeft(decoded);
      var u := t[index];
      if u == QUOTE { return Some(decoded); }
      if u != BACKSLASH {
        if u < 0x20 { return None; }
        OntoCons(decoded, u, Decode(t[index + 1..]));
        assert t[index..][1..] == t[index + 1..];
        decoded := decoded + [u];
        index := index + 1;
        continue;
      }
      if index + 1 >= |t| { return Some(decoded); }
      var escaped := t[index + 1];
      var simple := SimpleEscape(escaped);
      if simple.Some? {
        OntoCons(decoded, simple.value, Decode(t[index + 2..]));
        assert t[index..][2..] == t[index + 2..];
        decoded := decoded + [simple.value];
        index := index + 2;
        continue;
      }
      if escaped != 0x75 || index + 5 >= |t| { return Some(decoded); }
      var hex := t[index + 2..index + 6];
      assert t[index..][2..6] == hex;
      if Hex4(hex).None? { return None; }
      OntoCons(decoded, Hex4(hex).value, Decode(t[index + 6..]));
      assert t[index..][6..] == t[index + 6..];
      decoded := decoded + [Hex4(hex).value];
      index := index + 6;
    }
    DecodeUnfold(t[index..]);
    NothingLeft(decoded);
    return Some(decoded);
  }

  lemma OntoNothing(r: Option<Str>)
    ensures Onto([], r) == r
  {
    if r.Some? { assert [] + r.value == r.value; }
  }

  lemma NothingLeft(s: Str)
    ensures Onto(s, Some([])) == Some(s) && Onto(s, None) == None
  {
    assert s + [] == s;
  }

  lemma DecodeUnfold(t: Str)
    ensures Decode(t)
         == if t == [] || t[0] == QUOTE then Some([])
            else if t[0] != BACKSLASH then (if t[0] < 0x20 then None else Cons(t[0], Decode(t[1..])))
            else if |t| < 2 then Some([])
            else if SimpleEscape(t[1]).Some? then Cons(SimpleEscape(t[1]).value, Decode(t[2..]))
            else if t[1] != 0x75 || |t| < 6 then Some([])
            else if Hex4(t[2..6]).None? then None
            else Cons(Hex4(t[2..6]).value, Decode(t[6..]))
  {}

  // ---------------------------------------------------------------- more text decodes to more

  lemma {:induction false} DecodeGrows(a: Str, b: Str)
    requires Decode(a).Some? && Decode(a + b).Some?
    ensures IsPrefix(Decode(a).value, Decode(a + b).value)
    decreases |a|
  {
    hide Hex4, SimpleEscape, Decode;
    var t := a + b;
    DecodeUnfold(a);
    DecodeUnfold(t);
    if a == [] || a[0] == QUOTE {
    } else if a[0] != BACKSLASH {
      assert t[1..] == a[1..] + b;
      DecodeGrows(a[1..], b);
    } else if |a| >= 2 && SimpleEscape(a[1]).Some? {
      assert t[2..] == a[2..] + b;
      DecodeGrows(a[2..], b);
    } else if |a| >= 6 && a[1] == 0x75 {
      assert t[2..6] == a[2..6];
      assert t[6..] == a[6..] + b;
      DecodeGrows(a[6..], b);
    }
  }

  /** What has been shown of an input is never taken back: longer arguments decode to an extension. */
  lemma PartialGrows(a: Str, b: Str)
    requires Partial(a).Some? && Partial(a + b).Some?
    ensures IsPrefix(Partial(a).value, Partial(a + b).value)
  {
    hide Decode, ExpectAll;
    if Header(a).Some? {
      HeaderPlain();
      HeaderLocal(a, b, HEADER);
      var n := Header(a).value;
      assert (a + b)[n..] == a[n..] + b;
      DecodeGrows(a[n..], b);
    }
  }

  // ---------------------------------------------------------------- whole documents

  /** customToolInput. */
  function CustomInput(t: Str): Str {
    var v := JsonParse(t);
    if v.Some? && v.value.JObj? && (forall e <- v.value.entries :: e.key == INPUT) then
      (match Field(v.value, INPUT)
       case Some(JStr(s)) => s
       case _ => t)
    else t
  }

  /** `{"input": <literal>}` with whitespace anywhere. */
  datatype Document = Document(w0: Str, w1: Str, w2: Str, w3: Str, literal: Str, w4: Str, w5: Str)

  predicate IsDocument(d: Document) {
    && AllJsonSpace(d.w0) && AllJsonSpace(d.w1) && AllJsonSpace(d.w2) && AllJsonSpace(d.w3) && AllJsonSpace(d.w4)
    && AllJsonSpace(d.w5) && IsStringText(d.literal) && Literal(d.literal).Some?
  }

  function UpToLiteral(d: Document): Str {
    d.w0 + ([OPEN_BRACE] + (d.w1 + (QUOTED_INPUT + (d.w2 + ([COLON] + d.w3)))))
  }

  function TextOf(d: Document): Str {
    UpToLiteral(d) + (d.literal + (d.w4 + ([CLOSE_BRACE] + d.w5)))
  }

  lemma QuotedInput()
    ensures IsStringText(QUOTED_INPUT) && Literal(QUOTED_INPUT) == Some(INPUT) && StartsPlain(QUOTED_INPUT)
  {
    var q := QUOTED_INPUT[1..];
    assert q == [0x69, 0x6E, 0x70, 0x75, 0x74, QUOTE];
    assert q[1..] == [0x6E, 0x70, 0x75, 0x74, QUOTE];
    assert q[1..][1..] == [0x70, 0x75, 0x74, QUOTE];
    assert q[1..][1..][1..] == [0x75, 0x74, QUOTE];
    assert q[1..][1..][1..][1..] == [0x74, QUOTE];
    assert StringTail([0x74, QUOTE]) == Some(2);
    assert StringTail([0x70, 0x75, 0x74, QUOTE]) == Some(4);
    assert StringTail(q) == Some(6);
    InputLiteral();
  }

  lemma {:induction false} UnescapePlain(s: Str)
    requires forall u <- s :: u >= 0x20 && IsPlain(u)
    ensures Unescape(s) == Some(s)
  {
    if s != [] {
      assert s[0] in s;
      assert forall u <- s[1..] :: u in s;
      UnescapePlain(s[1..]);
      assert s == [s[0]] + s[1..];
    }
  }

  lemma InputLiteral()
    ensures Literal(QUOTED_INPUT) == Some(INPUT)
  {
    assert QUOTED_INPUT[1..|QUOTED_INPUT| - 1] == INPUT;
    UnescapePlain(INPUT);
  }

  lemma LexString(q: Str, b: Str)
    requires IsStringText(q) && Literal(q).Some?
    ensures Lex(q + b) == Prepend([Text(Literal(q).value)], Lex(b))
  {
    hide Lex, Literal, IsStringText, StringTail;
    StringLenLocal(q, b);
    var t := q + b;
    assert t[..|q|] == q && t[|q|..] == b;
    LexLiteral(t);
  }

  lemma LexDocument(d: Document)
    requires IsDocument(d)
    ensures Lex(TextOf(d)) == Some([Punct(OPEN_BRACE), Text(INPUT), Punct(COLON), Text(Literal(d.literal).value), Punct(CLOSE_BRACE)])
  {
    hide Lex, Literal, IsStringText, AllJsonSpace, Prepend;
    var e := d.w4 + ([CLOSE_BRACE] + d.w5);
    var c := d.w3 + (d.literal + e);
    var b := d.w2 + ([COLON] + c);
    var a := d.w1 + (QUOTED_INPUT + b);
    TextGroups(d);
    LexGap(d.w0, [OPEN_BRACE] + a);
    LexMark(OPEN_BRACE, a);
    LexGap(d.w1, QUOTED_INPUT + b);
    QuotedInput();
    LexString(QUOTED_INPUT, b);
    LexGap(d.w2, [COLON] + c);
    LexMark(COLON, c);
    LexGap(d.w3, d.literal + e);
    LexString(d.literal, e);
    LexGap(d.w4, [CLOSE_BRACE] + d.w5);
    LexMark(CLOSE_BRACE, d.w5);
    assert d.w5 + [] == d.w5;
    LexGap(d.w5, []);
    LexNil();
    FiveTokens(Punct(OPEN_BRACE), Text(INPUT), Punct(COLON), Text(Literal(d.literal).value), Punct(CLOSE_BRACE));
  }

  lemma FiveTokens(a: Token, b: Token, c: Token, d: Token, e: Token)
    ensures Prepend([a], Prepend([b], Prepend([c], Prepend([d], Prepend([e], Some([])))))) == Some([a, b, c, d, e])
  {
    assert [e] + [] == [e];
    assert [d] + [e] == [d, e];
    assert [c] + [d, e] == [c, d, e];
    assert [b] + [c, d, e] == [b, c, d, e];
    assert [a] + [b, c, d, e] == [a, b, c, d, e];
  }

  lemma TextGroups(d: Document)
    ensures var e := d.w4 + ([CLOSE_BRACE] + d.w5);
            TextOf(d) == d.w0 + ([OPEN_BRACE] + (d.w1 + (QUOTED_INPUT + (d.w2 + ([COLON] + (d.w3 + (d.literal + e)))))))
  {
    var e := d.w4 + ([CLOSE_BRACE] + d.w5);
    var z := d.literal + e;
    var c := [COLON] + d.w3;
    var q := QUOTED_INPUT + (d.w2 + c);
    assert c + z == [COLON] + (d.w3 + z);
    assert q + z == QUOTED_INPUT + (d.w2 + (c + z));
    assert UpToLiteral(d) == d.w0 + ([OPEN_BRACE] + (d.w1 + q));
  }

  /** The whole-document decoder returns the value of the literal. */
  lemma CustomOnDocument(d: Document)
    requires IsDocument(d)
    ensures CustomInput(TextOf(d)) == Literal(d.literal).value
  {
    hide Lex, Literal, TextOf, IsStringText, AllJsonSpace, ParseEntries;
    LexDocument(d);
    ParseInput(Literal(d.literal).value);
  }

  lemma ParseInput(s: Str)
    ensures ParseValue([Punct(OPEN_BRACE), Text(INPUT), Punct(COLON), Text(s), Punct(CLOSE_BRACE)])
         == Got(JObj([Entry(INPUT, JStr(s))]), [])
  {
    var ts := [Punct(OPEN_BRACE), Text(INPUT), Punct(COLON), Text(s), Punct(CLOSE_BRACE)];
    var us := ts[1..];
    assert us[2..] == [Text(s), Punct(CLOSE_BRACE)];
    assert ParseValue(us[2..]) == Got(JStr(s), [Punct(CLOSE_BRACE)]);
    assert ParseEntries(us, []) == GotEntries([Entry(INPUT, JStr(s))], []);
  }

  // ---------------------------------------------------------------- the two decoders agree

  lemma ExpectGap(g: Str, w: Str, b: Str)
    requires AllJsonSpace(g) && StartsPlain(w)
    ensures Expect(g + (w + b), w) == Some(|g| + |w|)
  {
    hide SpaceLen, IsSpace;
    JsonSpaces(g);
    SpaceLenOver(g, w + b);
    assert (g + (w + b))[|g|..] == w + b;
    assert (w + b)[..|w|] == w;
  }

  lemma JsonSpaces(g: Str)
    requires AllJsonSpace(g)
    ensures AllSpace(g)
  {
    forall u <- g ensures IsSpace(u) { assert IsJsonSpace(u); }
  }

  lemma ExpectStep(g: Str, w: Str, b: Str, ws: seq<Str>)
    requires AllJsonSpace(g) && StartsPlain(w)
    ensures ExpectAll(g + (w + b), [w] + ws) == Shift(|g| + |w|, ExpectAll(b, ws))
  {
    hide Expect, StartsPlain, AllJsonSpace;
    ExpectGap(g, w, b);
    assert (g + (w + b))[|g| + |w|..] == b;
    assert ([w] + ws)[1..] == ws;
  }

  lemma HeaderOfDocument(d: Document)
    requires IsDocument(d)
    ensures Header(TextOf(d)) == Some(|UpToLiteral(d)| + 1)
    ensures TextOf(d)[|UpToLiteral(d)| + 1..] == d.literal[1..] + (d.w4 + ([CLOSE_BRACE] + d.w5))
  {
    hide ExpectAll, AllJsonSpace, IsStringText, Literal;
    var e := d.w4 + ([CLOSE_BRACE] + d.w5);
    HeaderPlain();
    TextGroups(d);
    QuotedInput();
    LiteralQuote(d.literal);
    var z := d.literal[1..] + e;
    assert d.literal + e == [QUOTE] + z;
    var c := d.w3 + ([QUOTE] + z);
    var b := d.w2 + ([COLON] + c);
    var a := d.w1 + (QUOTED_INPUT + b);
    PlainMarks();
    ExpectStep(d.w3, [QUOTE], z, []);
    ExpectStep(d.w2, [COLON], c, [[QUOTE]]);
    ExpectStep(d.w1, QUOTED_INPUT, b, [[COLON], [QUOTE]]);
    ExpectStep(d.w0, [OPEN_BRACE], a, [QUOTED_INPUT, [COLON], [QUOTE]]);
    ExpectNone(z);
    HeaderLists();
    assert TextOf(d) == UpToLiteral(d) + ([QUOTE] + z);
  }

  lemma HeaderLists()
    ensures [[QUOTE]] + [] == [[QUOTE]]
    ensures [[COLON]] + [[QUOTE]] == [[COLON], [QUOTE]]
    ensures [QUOTED_INPUT] + [[COLON], [QUOTE]] == [QUOTED_INPUT, [COLON], [QUOTE]]
    ensures [[OPEN_BRACE]] + [QUOTED_INPUT, [COLON], [QUOTE]] == HEADER
  {}

  lemma ExpectNone(z: Str)
    ensures ExpectAll(z, []) == Some(0)
  {}

  lemma PlainMarks()
    ensures StartsPlain([QUOTE]) && StartsPlain([COLON]) && StartsPlain([OPEN_BRACE])
  {}

  lemma LiteralQuote(q: Str)
    requires IsStringText(q)
    ensures |q| >= 2 && q[0] == QUOTE && q[|q| - 1] == QUOTE
  {
    hide StringTail;
  }

  lemma {:induction false} DecodeLiteral(c: Str, b: Str)
    requires Unescape(c).Some?
    ensures Decode(c + ([QUOTE] + b)) == Unescape(c)
    decreases |c|
  {
    hide Hex4, SimpleEscape, Decode;
    var t := c + ([QUOTE] + b);
    DecodeUnfold(t);
    if c == [] {
    } else if c[0] != BACKSLASH {
      assert t[1..] == c[1..] + ([QUOTE] + b);
      DecodeLiteral(c[1..], b);
    } else if SimpleEscape(c[1]).Some? {
      assert t[2..] == c[2..] + ([QUOTE] + b);
      DecodeLiteral(c[2..], b);
    } else {
      assert t[2..6] == c[2..6];
      assert t[6..] == c[6..] + ([QUOTE] + b);
      DecodeLiteral(c[6..], b);
    }
  }

  /** A cut anywhere, even inside an escape, never makes a valid literal undecodable. */
  lemma {:induction false} DecodeCut(c: Str, b: Str, k: nat)
    requires Unescape(c).Some? && k <= |c| + 1 + |b|
    ensures Decode((c + ([QUOTE] + b))[..k]).Some?
    decreases |c|
  {
    hide Hex4, SimpleEscape, Decode;
    var t := (c + ([QUOTE] + b))[..k];
    DecodeUnfold(t);
    if c == [] || k == 0 {
    } else if c[0] != BACKSLASH {
      CutShift(c, [QUOTE] + b, k, 1);
      DecodeCut(c[1..], b, k - 1);
    } else if k >= 2 && SimpleEscape(c[1]).Some? {
      CutShift(c, [QUOTE] + b, k, 2);
      DecodeCut(c[2..], b, k - 2);
    } else if k >= 6 {
      assert t[2..6] == c[2..6];
      CutShift(c, [QUOTE] + b, k, 6);
      DecodeCut(c[6..], b, k - 6);
    }
  }

  lemma CutShift(c: Str, z: Str, k: nat, n: nat)
    requires n <= k <= |c| + |z| && n <= |c|
    ensures (c + z)[..k][n..] == (c[n..] + z)[..k - n]
  {
    assert (c + z)[..k][n..] == (c + z)[n..k];
    assert (c[n..] + z)[..k - n] == (c + z)[n..k];
  }

  lemma LiteralBody(q: Str, e: Str)
    requires IsStringText(q) && Literal(q).Some?
    ensures |q| >= 2 && Unescape(q[1..|q| - 1]) == Literal(q) && q[1..] + e == q[1..|q| - 1] + ([QUOTE] + e)
  {
    hide Unescape;
    LiteralQuote(q);
    assert q[1..] == q[1..|q| - 1] + [QUOTE];
    assert q[1..|q| - 1] + [QUOTE] + e == q[1..|q| - 1] + ([QUOTE] + e);
  }

  /**
   * Incremental decoding refines decoding of the whole document: on every document `{"input": <literal>}` both
   * return the value of the literal; on every cut of it the incremental decoder shows a prefix of that value, or
   * nothing at all because the header is longer than 32 units and still incomplete.
   */
  lemma PartialRefines(d: Document, k: nat)
    requires IsDocument(d) && k <= |TextOf(d)|
    ensures Partial(TextOf(d)) == Some(CustomInput(TextOf(d))) == Literal(d.literal)
    ensures var p := Partial(TextOf(d)[..k]);
            && (p.None? <==> k > 32 && Header(TextOf(d)[..k]).None?)
            && (p.Some? ==> IsPrefix(p.value, CustomInput(TextOf(d))))
  {
    hide Literal, IsStringText, AllJsonSpace, Decode, CustomInput, ExpectAll, TextOf, Unescape;
    var t, e := TextOf(d), d.w4 + ([CLOSE_BRACE] + d.w5);
    CustomOnDocument(d);
    HeaderOfDocument(d);
    LiteralBody(d.literal, e);
    var c := d.literal[1..|d.literal| - 1];
    DecodeLiteral(c, e);
    var a := t[..k];
    assert t == a + t[k..];
    if Header(a).Some? {
      HeaderPlain();
      HeaderLocal(a, t[k..], HEADER);
      var h := Header(a).value;
      assert a[h..] == t[h..][..k - h];
      DecodeCut(c, e, k - h);
    }
    if Partial(a).Some? { PartialGrows(a, t[k..]); }
  }

  function RepeatedText(a: Str, b: Str): Str {
    [OPEN_BRACE] + (QUOTED_INPUT + ([COLON] + (Quote(a) + ([COMMA] + (QUOTED_INPUT + ([COLON] + (Quote(b) + [CLOSE_BRACE])))))))
  }

  /** A repeated key separates the decoders: the first value streams, the last one is the input. */
  lemma RepeatedKey(a: Str, b: Str)
    ensures Partial(RepeatedText(a, b)) == Some(a) && CustomInput(RepeatedText(a, b)) == b
  {
    hide RepeatedText, CustomInput, Quote, Partial;
    RepeatedTokens(a, b);
    RepeatedPartial(a, [COMMA] + (QUOTED_INPUT + ([COLON] + (Quote(b) + [CLOSE_BRACE]))));
    RepeatedIs(a, b);
  }

  lemma RepeatedIs(a: Str, b: Str)
    ensures RepeatedText(a, b) == [OPEN_BRACE] + (QUOTED_INPUT + ([COLON] + (Quote(a)
                                  + ([COMMA] + (QUOTED_INPUT + ([COLON] + (Quote(b) + [CLOSE_BRACE])))))))
  {
    hide Quote;
  }

  lemma RepeatedHeader(z: Str)
    ensures var t := [OPEN_BRACE] + (QUOTED_INPUT + ([COLON] + ([QUOTE] + z)));
            Header(t).Some? && t[Header(t).value..] == z
  {
    hide ExpectAll;
    QuotedInput();
    var c := [QUOTE] + z;
    var t := [OPEN_BRACE] + (QUOTED_INPUT + ([COLON] + c));
    PlainMarks();
    LeadingNothing(t);
    LeadingNothing(QUOTED_INPUT + ([COLON] + c));
    LeadingNothing([COLON] + c);
    LeadingNothing(c);
    ExpectStep([], [QUOTE], z, []);
    ExpectStep([], [COLON], c, [[QUOTE]]);
    ExpectStep([], QUOTED_INPUT, [COLON] + c, [[COLON], [QUOTE]]);
    ExpectStep([], [OPEN_BRACE], QUOTED_INPUT + ([COLON] + c), [QUOTED_INPUT, [COLON], [QUOTE]]);
    ExpectNone(z);
    HeaderLists();
    assert t[1 + |QUOTED_INPUT| + 1 + 1..] == z;
  }

  lemma RepeatedPartial(a: Str, e: Str)
    ensures Partial([OPEN_BRACE] + (QUOTED_INPUT + ([COLON] + (Quote(a) + e)))) == Some(a)
  {
    hide Quote, Literal, IsStringText, Header, Decode, Unescape;
    QuoteLiteral(a);
    LiteralQuote(Quote(a));
    LiteralBody(Quote(a), e);
    var z := Quote(a)[1..] + e;
    assert Quote(a) + e == [QUOTE] + z;
    RepeatedHeader(z);
    DecodeLiteral(Quote(a)[1..|Quote(a)| - 1], e);
  }

  lemma LeadingNothing(t: Str)
    ensures [] + t == t
  {}

  lemma RepeatedTokens(a: Str, b: Str)
    ensures CustomInput(RepeatedText(a, b)) == b
  {
    hide Lex, Quote, Literal, IsStringText, ParseValue, ParseEntries, Prepend;
    QuotedInput();
    var f := Quote(b) + [CLOSE_BRACE];
    var e := QUOTED_INPUT + ([COLON] + f);
    var c := Quote(a) + ([COMMA] + e);
    LexMark(OPEN_BRACE, QUOTED_INPUT + ([COLON] + c));
    LexString(QUOTED_INPUT, [COLON] + c);
    LexMark(COLON, c);
    LexQuoted(a, [COMMA] + e);
    LexMark(COMMA, e);
    LexString(QUOTED_INPUT, [COLON] + f);
    LexMark(COLON, f);
    LexQuoted(b, [CLOSE_BRACE]);
    LexMark(CLOSE_BRACE, []);
    assert [CLOSE_BRACE] + [] == [CLOSE_BRACE];
    LexNil();
    NineTokens(a, b);
    ParseRepeated(a, b);
  }

  function RepeatedList(a: Str, b: Str): seq<Token> {
    [Punct(OPEN_BRACE), Text(INPUT), Punct(COLON), Text(a), Punct(COMMA), Text(INPUT), Punct(COLON), Text(b),
     Punct(CLOSE_BRACE)]
  }

  lemma NineTokens(a: Str, b: Str)
    ensures Prepend([Punct(OPEN_BRACE)], Prepend([Text(INPUT)], Prepend([Punct(COLON)], Prepend([Text(a)],
              Prepend([Punct(COMMA)], Prepend([Text(INPUT)], Prepend([Punct(COLON)], Prepend([Text(b)],
                Prepend([Punct(CLOSE_BRACE)], Some([])))))))))) == Some(RepeatedList(a, b))
  {
    hide Prepend;
    FiveTokens(Punct(COMMA), Text(INPUT), Punct(COLON), Text(b), Punct(CLOSE_BRACE));
    var tail := [Punct(COMMA), Text(INPUT), Punct(COLON), Text(b), Punct(CLOSE_BRACE)];
    PrependAppend([Punct(COLON)], [Text(a)], Some(tail));
    PrependAppend([Text(INPUT)], [Punct(COLON)] + [Text(a)], Some(tail));
    PrependAppend([Punct(OPEN_BRACE)], [Text(INPUT)] + ([Punct(COLON)] + [Text(a)]), Some(tail));
    assert [Punct(OPEN_BRACE)] + ([Text(INPUT)] + ([Punct(COLON)] + [Text(a)])) + tail == RepeatedList(a, b);
    PrependSome([Punct(OPEN_BRACE)] + ([Text(INPUT)] + ([Punct(COLON)] + [Text(a)])), tail);
  }

  lemma PrependSome(a: seq<Token>, b: seq<Token>)
    ensures Prepend(a, Some(b)) == Some(a + b)
  {}

  lemma ParseRepeated(a: Str, b: Str)
    ensures ParseValue(RepeatedList(a, b)) == Got(JObj([Entry(INPUT, JStr(b))]), [])
  {
    var ts := RepeatedList(a, b);
    var us := ts[5..];
    assert ts[1..][2..] == ts[3..] && ts[3..][1..] == ts[4..] && ts[4..][1..] == us;
    assert ParseValue(us[2..]) == Got(JStr(b), us[3..]);
    var first := Put([], INPUT, JStr(a));
    assert first == [Entry(INPUT, JStr(a))];
    assert Put(first, INPUT, JStr(b)) == [Entry(INPUT, JStr(b))];
    assert ParseEntries(us, first) == GotEntries([Entry(INPUT, JStr(b))], []);
    assert ParseValue(ts[3..]) == Got(JStr(a), ts[4..]);
    assert ParseEntries(ts[1..], []) == ParseEntries(us, first);
  }
}
