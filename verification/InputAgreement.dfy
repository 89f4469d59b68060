/** When the incremental decoder and the whole-document decoder agree on a custom tool input, over all texts. */
module InputAgreement {
  import opened Units
  import opened JsonText
  import opened JsonGrammar
  import opened JsoncGrammar
  import opened ToolInput

  // ---------------------------------------------------------------- the condition

  /** The text is an object without keys other than `input`, and the last value of `input` is the string `s`. */
  predicate ReadsAs(t: Str, s: Str) {
    var v := JsonParse(t);
    v.Some? && v.value.JObj? && (forall e <- v.value.entries :: e.key == INPUT) && Field(v.value, INPUT) == Some(JStr(s))
  }

  /** The value the text writes first: the token behind the first brace, key and colon. */
  function FirstValue(t: Str): Option<Str> {
    var ts := Lex(t);
    if ts.Some? && |ts.value| > 3 && ts.value[3].Text? then Some(ts.value[3].s) else None
  }

  /** An object with no key but `input`, whose first and last values are the same string. */
  predicate FirstIsLast(t: Str) {
    FirstValue(t).Some? && ReadsAs(t, FirstValue(t).value)
  }

  lemma ReadInput(t: Str, s: Str)
    ensures ReadsAs(t, s) ==> CustomInput(t) == s
    ensures CustomInput(t) != t && CustomInput(t) == s ==> ReadsAs(t, s)
  {
    hide JsonParse;
  }

  // ---------------------------------------------------------------- lexing behind the header

  /** Whitespace that JSON does not allow spoils the text: lexing passes over the rest only. */
  lemma {:induction false} LexSpaces(t: Str)
    requires Lex(t).Some?
    ensures Lex(t[SpaceLen(t)..]) == Lex(t)
  {
    hide Lex;
    if t == [] || !IsSpace(t[0]) {
      assert t[0..] == t;
    } else {
      LexSpaceStep(t);
      LexSpaces(t[1..]);
      assert t[1..][SpaceLen(t[1..])..] == t[SpaceLen(t)..];
    }
  }

  lemma LexSpaceStep(t: Str)
    requires t != [] && IsSpace(t[0]) && Lex(t).Some?
    ensures Lex(t) == Lex(t[1..])
  {
    hide WordValue;
    var n := WordLen(t);
    if IsWordUnit(t[0]) {
      assert t[..n][0] == t[0] && t[0] in t[..n];
    }
    assert WordValue(t[..n]).Some? ==> !IsWordUnit(t[0]) by {
      if WordValue(t[..n]).Some? { WordUnits(t[..n]); }
    }
  }

  lemma LexExpect(t: Str, w: Str, token: Token)
    requires Expect(t, w).Some? && Lex(t).Some?
    requires forall b: Str :: Lex(w + b) == Prepend([token], Lex(b))
    ensures Lex(t) == Prepend([token], Lex(t[Expect(t, w).value..])) && Lex(t[Expect(t, w).value..]).Some?
  {
    hide Lex, SpaceLen;
    LexSpaces(t);
    var a := t[SpaceLen(t)..];
    var b := a[|w|..];
    assert a == w + b;
    assert b == t[Expect(t, w).value..];
  }

  lemma MarkLexes(u: Unit)
    requires u == OPEN_BRACE || u == COLON
    ensures forall b: Str :: Lex([u] + b) == Prepend([Punct(u)], Lex(b))
  {
    hide Lex;
    forall b: Str ensures Lex([u] + b) == Prepend([Punct(u)], Lex(b)) { LexMark(u, b); }
  }

  lemma NameLexes()
    ensures forall b: Str :: Lex(QUOTED_INPUT + b) == Prepend([Text(INPUT)], Lex(b))
  {
    hide Lex, Literal, IsStringText;
    forall b: Str ensures Lex(QUOTED_INPUT + b) == Prepend([Text(INPUT)], Lex(b)) {
      QuotedInput();
      LexString(QUOTED_INPUT, b);
    }
  }

  /** The literal that starts at an expected quote is decoded as far as its end. */
  lemma LexValue(t: Str)
    requires Expect(t, [QUOTE]).Some? && Lex(t).Some?
    ensures Lex(t).value != [] && Lex(t).value[0].Text?
    ensures Decode(t[Expect(t, [QUOTE]).value..]) == Some(Lex(t).value[0].s)
  {
    hide Lex, SpaceLen, Literal, StringTail, Decode, Unescape;
    LexSpaces(t);
    var a := t[SpaceLen(t)..];
    assert a[..1] == [QUOTE] && a[0] == QUOTE;
    LexQuote(a);
    var n := StringLen(a).value;
    var q, b := a[..n], a[n..];
    StringLenCut(a, n);
    LiteralBody(q, b);
    assert a == q + b;
    assert a[1..] == q[1..] + b;
    assert a[1..] == t[Expect(t, [QUOTE]).value..];
    DecodeLiteral(q[1..|q| - 1], b);
  }

  lemma LexQuote(a: Str)
    requires a != [] && a[0] == QUOTE && Lex(a).Some?
    ensures StringLen(a).Some? && Literal(a[..StringLen(a).value]).Some?
    ensures Lex(a).value != [] && Lex(a).value[0] == Text(Literal(a[..StringLen(a).value]).value)
  {
    hide Literal, StringTail;
  }

  /** Behind a header the first value is what the incremental decoder shows, if the text lexes at all. */
  lemma HeaderValue(t: Str)
    requires Header(t).Some? && Lex(t).Some?
    ensures FirstValue(t).Some? && Partial(t) == FirstValue(t)
  {
    hide Lex, Expect, Decode;
    HeaderParts(t);
    var n0 := Expect(t, [OPEN_BRACE]).value;
    var t1 := t[n0..];
    var n1 := Expect(t1, QUOTED_INPUT).value;
    var t2 := t1[n1..];
    var n2 := Expect(t2, [COLON]).value;
    var t3 := t2[n2..];
    MarkLexes(OPEN_BRACE);
    MarkLexes(COLON);
    NameLexes();
    LexExpect(t, [OPEN_BRACE], Punct(OPEN_BRACE));
    LexExpect(t1, QUOTED_INPUT, Text(INPUT));
    LexExpect(t2, [COLON], Punct(COLON));
    LexValue(t3);
    var n3 := Expect(t3, [QUOTE]).value;
    assert t[Header(t).value..] == t3[n3..];
    var ts := Lex(t3).value;
    assert Lex(t).value == [Punct(OPEN_BRACE)] + ([Text(INPUT)] + ([Punct(COLON)] + ts));
    assert Lex(t).value[3] == ts[0];
  }

  lemma HeaderParts(t: Str)
    requires Header(t).Some?
    ensures Expect(t, [OPEN_BRACE]).Some?
    ensures var t1 := t[Expect(t, [OPEN_BRACE]).value..];
            && Expect(t1, QUOTED_INPUT).Some?
            && var t2 := t1[Expect(t1, QUOTED_INPUT).value..];
               && Expect(t2, [COLON]).Some?
               && var t3 := t2[Expect(t2, [COLON]).value..];
                  && Expect(t3, [QUOTE]).Some?
                  && Header(t).value == Expect(t, [OPEN_BRACE]).value + Expect(t1, QUOTED_INPUT).value
                                        + Expect(t2, [COLON]).value + Expect(t3, [QUOTE]).value
  {
    hide Expect;
    var w1, w2, w3 := HEADER[1..], HEADER[1..][1..], HEADER[1..][1..][1..];
    assert w1[0] == QUOTED_INPUT && w2[0] == [COLON] && w3[0] == [QUOTE] && w3[1..] == [];
    var n0 := Expect(t, [OPEN_BRACE]);
    assert n0.Some? && ExpectAll(t, HEADER) == Shift(n0.value, ExpectAll(t[n0.value..], w1));
    var t1 := t[n0.value..];
    var n1 := Expect(t1, QUOTED_INPUT);
    assert n1.Some? && ExpectAll(t1, w1) == Shift(n1.value, ExpectAll(t1[n1.value..], w2));
    var t2 := t1[n1.value..];
    var n2 := Expect(t2, [COLON]);
    assert n2.Some? && ExpectAll(t2, w2) == Shift(n2.value, ExpectAll(t2[n2.value..], w3));
    var t3 := t2[n2.value..];
    var n3 := Expect(t3, [QUOTE]);
    assert n3.Some? && ExpectAll(t3, w3) == Shift(n3.value, ExpectAll(t3[n3.value..], []));
  }

  lemma {:induction false} DecodeShort(t: Str)
    requires Decode(t).Some?
    ensures |Decode(t).value| <= |t|
    decreases |t|
  {
    hide Hex4, SimpleEscape, Decode;
    DecodeUnfold(t);
    if t == [] || t[0] == QUOTE {
    } else if t[0] != BACKSLASH {
      DecodeShort(t[1..]);
    } else if |t| >= 2 && SimpleEscape(t[1]).Some? {
      DecodeShort(t[2..]);
    } else if |t| >= 6 && t[1] == 0x75 {
      DecodeShort(t[6..]);
    }
  }

  // ---------------------------------------------------------------- the exact condition

  /**
   * The two decoders agree on a text if and only if, behind a header, it is an object with no key but `input` whose
   * first and last values are the same string; and without a header, it is at most 32 units long and either empty or
   * such an object whose value is the empty string, its key written with escapes.
   */
  lemma DecodersAgree(t: Str)
    ensures Partial(t) == Some(CustomInput(t)) <==>
            if Header(t).Some? then FirstIsLast(t) else |t| <= 32 && (t == [] || ReadsAs(t, []))
  {
    hide Lex, Decode, ExpectAll, CustomInput, ReadsAs, FirstValue;
    ReadInput(t, []);
    NotAnObject(t);
    if Header(t).Some? {
      HeaderLong(t);
      if Lex(t).Some? {
        HeaderValue(t);
        ReadInput(t, FirstValue(t).value);
      }
      var h := Header(t).value;
      if Decode(t[h..]).Some? { DecodeShort(t[h..]); }
    }
  }

  /** A text that does not lex is its own input. */
  lemma NotAnObject(t: Str)
    ensures Lex(t).None? ==> CustomInput(t) == t && FirstValue(t).None?
    ensures t == [] ==> CustomInput(t) == t
  {
    hide ParseEntries;
  }

  lemma HeaderLong(t: Str)
    requires Header(t).Some?
    ensures Header(t).value > 0
  {
    hide Expect;
    HeaderParts(t);
    assert Expect(t, [OPEN_BRACE]).value > 0 by { ExpectLong(t, [OPEN_BRACE]); }
  }

  lemma ExpectLong(t: Str, w: Str)
    requires Expect(t, w).Some? && w != []
    ensures Expect(t, w).value > 0
  {}

  /** An object that is cut off, or is no object at all, separates the decoders once its header is there. */
  lemma UnreadableSeparates(t: Str)
    requires Header(t).Some? && JsonParse(t).None?
    ensures CustomInput(t) == t && Partial(t) != Some(t)
  {
    hide JsonParse, Partial, Header, FirstValue;
    DecodersAgree(t);
  }

  /** So does any other key. */
  lemma OtherKeySeparates(t: Str, e: Entry)
    requires Header(t).Some? && JsonParse(t).Some? && JsonParse(t).value.JObj?
    requires e in JsonParse(t).value.entries && e.key != INPUT
    ensures CustomInput(t) == t && Partial(t) != Some(t)
  {
    hide JsonParse, Partial, Header, FirstValue;
    DecodersAgree(t);
  }

  // ---------------------------------------------------------------- a repeated key, cut anywhere

  /** The text up to and including the opening quote of the first value. */
  function RepeatedStart(): Str {
    [OPEN_BRACE] + (QUOTED_INPUT + ([COLON] + ([QUOTE] + [])))
  }

  lemma RepeatedStarts(a: Str, b: Str)
    ensures Header(RepeatedStart()) == Some(|RepeatedStart()|) && |RepeatedStart()| == 10
    ensures RepeatedText(a, b) == RepeatedStart() + RepeatedText(a, b)[10..] && Header(RepeatedText(a, b)) == Some(10)
  {
    hide Quote, ExpectAll;
    RepeatedHeader([]);
    HeaderPlain();
    var t := RepeatedText(a, b);
    var e := [COMMA] + (QUOTED_INPUT + ([COLON] + (Quote(b) + [CLOSE_BRACE])));
    QuoteStarts(a);
    assert Quote(a) + e == [QUOTE] + (Quote(a)[1..] + e);
    assert t == RepeatedStart() + (Quote(a)[1..] + e);
    HeaderLocal(RepeatedStart(), Quote(a)[1..] + e, HEADER);
  }

  lemma QuoteStarts(a: Str)
    ensures Quote(a) != [] && Quote(a)[0] == QUOTE
  {}

  /** A text cut inside its header has none. */
  lemma HeaderCut(t: Str, k: nat)
    requires Header(t).Some? && k < Header(t).value
    ensures Header(t[..k]).None?
  {
    hide ExpectAll;
    HeaderPlain();
    assert t == t[..k] + t[k..];
    if Header(t[..k]).Some? { HeaderLocal(t[..k], t[k..], HEADER); }
  }

  /** Every cut of a text with a repeated key decodes. */
  lemma RepeatedCuts(a: Str, b: Str, k: nat)
    requires k <= |RepeatedText(a, b)|
    ensures Partial(RepeatedText(a, b)[..k]).Some?
  {
    hide Quote, ExpectAll, Decode, Literal, IsStringText, Unescape, RepeatedText;
    var t := RepeatedText(a, b);
    RepeatedStarts(a, b);
    if k < 10 {
      HeaderCut(t, k);
    } else {
      HeaderPlain();
      var z := t[10..];
      assert t[..k] == RepeatedStart() + z[..k - 10];
      HeaderLocal(RepeatedStart(), z[..k - 10], HEADER);
      assert t[..k][10..] == z[..k - 10];
      RepeatedBody(a, b);
      var c := Quote(a)[1..|Quote(a)| - 1];
      DecodeCut(c, [COMMA] + (QUOTED_INPUT + ([COLON] + (Quote(b) + [CLOSE_BRACE]))), k - 10);
    }
  }

  lemma RepeatedBody(a: Str, b: Str)
    ensures |Quote(a)| >= 2 && Unescape(Quote(a)[1..|Quote(a)| - 1]).Some?
    ensures |RepeatedText(a, b)| >= 10
            && RepeatedText(a, b)[10..] == Quote(a)[1..|Quote(a)| - 1]
                                           + ([QUOTE] + ([COMMA] + (QUOTED_INPUT + ([COLON] + (Quote(b) + [CLOSE_BRACE])))))
  {
    hide Quote, Literal, IsStringText, Unescape;
    var e := [COMMA] + (QUOTED_INPUT + ([COLON] + (Quote(b) + [CLOSE_BRACE])));
    QuoteLiteral(a);
    LiteralBody(Quote(a), e);
    QuoteStarts(a);
    assert RepeatedText(a, b) == RepeatedStart() + (Quote(a)[1..] + e);
    assert |RepeatedStart()| == 10;
  }
}
