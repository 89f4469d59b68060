/**
 * The texts that JSON.parse accepts and what they mean, as sections 2 to 7 of RFC 8259 spell them: every text spelled by
 * the grammar is read as its value, and every text that is read is spelled by the grammar.
 */
module JsonSyntax {
  import opened Units
  import opened JsonText
  import opened JsonGrammar

  // ---------------------------------------------------------------- string literals

  /** One character of a literal: written as it is, with a letter behind a backslash, or with four hex digits. */
  datatype Char = Plain(u: Unit) | Short(letter: Unit) | Coded(a: Unit, b: Unit, c: Unit, d: Unit)

  predicate IsHexDigit(u: Unit) { 0x30 <= u <= 0x39 || 0x41 <= u <= 0x46 || 0x61 <= u <= 0x66 }

  predicate SoundChar(c: Char) {
    match c
    case Plain(u) => 0x20 <= u && u != 0x22 && u != 0x5C
    case Short(letter) => letter in [0x22, 0x5C, 0x2F, 0x62, 0x66, 0x6E, 0x72, 0x74]
    case Coded(a, b, c, d) => IsHexDigit(a) && IsHexDigit(b) && IsHexDigit(c) && IsHexDigit(d)
  }

  function Spell(c: Char): Str {
    match c
    case Plain(u) => [u]
    case Short(letter) => [0x5C, letter]
    case Coded(a, b, c, d) => [0x5C, 0x75, a, b, c, d]
  }

  function DigitOf(u: Unit): nat
    requires IsHexDigit(u)
    ensures DigitOf(u) < 16
  {
    if u < 0x41 then u - 0x30 else if u < 0x61 then u - 0x41 + 10 else u - 0x61 + 10
  }

  function Stands(c: Char): Unit
    requires SoundChar(c)
  {
    match c
    case Plain(u) => u
    case Short(letter) =>
      if letter == 0x62 then 0x08 else if letter == 0x66 then 0x0C else if letter == 0x6E then 0x0A
      else if letter == 0x72 then 0x0D else if letter == 0x74 then 0x09 else letter
    case Coded(a, b, c, d) => ((DigitOf(a) * 16 + DigitOf(b)) * 16 + DigitOf(c)) * 16 + DigitOf(d)
  }

  function SpellAll(cs: seq<Char>): Str { if cs == [] then [] else Spell(cs[0]) + SpellAll(cs[1..]) }

  function StandsAll(cs: seq<Char>): Str
    requires forall c <- cs :: SoundChar(c)
  {
    seq(|cs|, i requires 0 <= i < |cs| => Stands(cs[i]))
  }

  lemma HexSame(u: Unit)
    ensures HexValue(u).Some? <==> IsHexDigit(u)
    ensures IsHexDigit(u) ==> HexValue(u) == Some(DigitOf(u))
  {}

  lemma CodedValue(t: Str)
    requires |t| == 4
    ensures Hex4(t).Some? <==> SoundChar(Coded(t[0], t[1], t[2], t[3]))
    ensures Hex4(t).Some? ==> Hex4(t).value == Stands(Coded(t[0], t[1], t[2], t[3]))
  {
    hide HexValue, IsHexDigit, DigitOf;
    HexSame(t[0]);
    HexSame(t[1]);
    HexSame(t[2]);
    HexSame(t[3]);
  }

  lemma ShortValue(u: Unit)
    ensures SimpleEscape(u).Some? <==> SoundChar(Short(u))
    ensures SimpleEscape(u).Some? ==> SimpleEscape(u).value == Stands(Short(u))
  {}

  lemma CharReads(c: Char, t: Str)
    requires SoundChar(c)
    ensures Unescape(Spell(c) + t) == Cons(Stands(c), Unescape(t))
  {
    hide IsHexDigit, DigitOf;
    var w := Spell(c) + t;
    match c {
      case Plain(u) => assert w[1..] == t;
      case Short(letter) =>
        ShortValue(letter);
        assert w[2..] == t;
      case Coded(a, b, c', d) =>
        assert w[2..6] == [a, b, c', d] && w[6..] == t;
        CodedValue(w[2..6]);
        ShortValue(0x75);
    }
  }

  /** Every spelling is read as what it stands for. */
  lemma {:induction false} SpellingReads(cs: seq<Char>)
    requires forall c <- cs :: SoundChar(c)
    ensures Unescape(SpellAll(cs)) == Some(StandsAll(cs))
  {
    hide SoundChar, Stands, Spell, Unescape;
    if cs == [] {
      UnescapeNil();
    } else {
      assert cs[0] in cs && forall c <- cs[1..] :: c in cs;
      SpellingReads(cs[1..]);
      CharReads(cs[0], SpellAll(cs[1..]));
      assert StandsAll(cs) == [Stands(cs[0])] + StandsAll(cs[1..]);
    }
  }

  lemma FirstChar(t: Str) returns (c: Char, rest: Str)
    requires t != [] && Unescape(t).Some?
    ensures SoundChar(c) && t == Spell(c) + rest && |rest| < |t|
    ensures Unescape(rest).Some? && Unescape(t) == Cons(Stands(c), Unescape(rest))
  {
    hide Hex4, SimpleEscape, IsHexDigit, DigitOf;
    if t[0] != BACKSLASH {
      c, rest := Plain(t[0]), t[1..];
    } else {
      ShortValue(t[1]);
      if SimpleEscape(t[1]).Some? {
        c, rest := Short(t[1]), t[2..];
      } else {
        CodedValue(t[2..6]);
        c, rest := Coded(t[2], t[3], t[4], t[5]), t[6..];
      }
    }
  }

  /** Every text that is read is a spelling. */
  lemma {:induction false} ReadIsSpelled(t: Str) returns (cs: seq<Char>)
    requires Unescape(t).Some?
    ensures (forall c <- cs :: SoundChar(c)) && t == SpellAll(cs) && Unescape(t).value == StandsAll(cs)
    decreases |t|
  {
    hide SoundChar, Stands, Spell, Unescape;
    if t == [] {
      cs := [];
      UnescapeNil();
    } else {
      var c, rest := FirstChar(t);
      var more := ReadIsSpelled(rest);
      cs := [c] + more;
      assert cs[1..] == more;
      assert StandsAll(cs) == [Stands(c)] + StandsAll(more);
    }
  }

  // ---------------------------------------------------------------- where a literal ends

  /** A backslash that is not itself escaped stands before position `i`. */
  predicate Escaped(t: Str, i: nat)
    requires i <= |t|
  {
    i > 0 && t[i - 1] == 0x5C && !Escaped(t, i - 1)
  }

  /** The first quote that is not escaped, with no line break before it that is not escaped. */
  predicate EndsAt(t: Str, n: nat) {
    && n < |t| && t[n] == 0x22 && !Escaped(t, n)
    && forall i: nat :: i < n && !Escaped(t, i) ==> t[i] != 0x22 && t[i] != 0x0A && t[i] != 0x0D
  }

  lemma {:induction false} EscapedShift(t: Str, k: nat, i: nat)
    requires k <= i <= |t| && !Escaped(t, k)
    ensures Escaped(t, i) == Escaped(t[k..], i - k)
    decreases i
  {
    if i > k { EscapedShift(t, k, i - 1); }
  }

  lemma EndsShift(t: Str, k: nat, n: nat)
    requires k <= |t| && !Escaped(t, k) && k <= n
    requires forall i: nat :: i < k && !Escaped(t, i) ==> t[i] != 0x22 && t[i] != 0x0A && t[i] != 0x0D
    ensures EndsAt(t, n) <==> EndsAt(t[k..], n - k)
  {
    hide Escaped;
    forall i: nat | k <= i <= |t| ensures Escaped(t, i) == Escaped(t[k..], i - k) { EscapedShift(t, k, i); }
    if EndsAt(t[k..], n - k) {
      forall i: nat | i < n && !Escaped(t, i) ensures t[i] != 0x22 && t[i] != 0x0A && t[i] != 0x0D {
        if i >= k { assert t[k..][i - k] == t[i] && !Escaped(t[k..], i - k); }
      }
    }
    if EndsAt(t, n) {
      forall i: nat | i < n - k && !Escaped(t[k..], i) ensures t[k..][i] != 0x22 && t[k..][i] != 0x0A
          && t[k..][i] != 0x0D {
        assert !Escaped(t, i + k);
      }
    }
  }

  /** A literal ends exactly there. */
  lemma {:induction false} TailExactly(t: Str, n: nat)
    ensures StringTail(t) == Some(n + 1) <==> EndsAt(t, n)
    decreases |t|
  {
    hide EndsAt;
    if t != [] {
      Starts(t, n);
      if t[0] == BACKSLASH {
        if |t| >= 2 && n >= 2 {
          TailExactly(t[2..], n - 2);
          EndsShift(t, 2, n);
        }
      } else if t[0] != QUOTE && t[0] != LF && t[0] != CR && n >= 1 {
        TailExactly(t[1..], n - 1);
        EndsShift(t, 1, n);
      }
    } else {
      assert !EndsAt(t, n) by { Nowhere(t, n); }
    }
  }

  lemma Nowhere(t: Str, n: nat)
    requires t == []
    ensures !EndsAt(t, n)
  {}

  /** What the first units say about the end. */
  lemma Starts(t: Str, n: nat)
    requires t != []
    ensures t[0] == QUOTE ==> (EndsAt(t, n) <==> n == 0)
    ensures t[0] == LF || t[0] == CR ==> !EndsAt(t, n)
    ensures t[0] != QUOTE && EndsAt(t, n) ==> n >= 1
    ensures t[0] == BACKSLASH && EndsAt(t, n) ==> 2 <= n < |t|
    ensures t[0] == BACKSLASH ==> Escaped(t, 1) && (|t| >= 2 ==> !Escaped(t, 2))
    ensures t[0] != BACKSLASH ==> !Escaped(t, 1)
  {
    assert !Escaped(t, 0);
    assert Escaped(t, 1) <==> t[0] == 0x5C;
  }

  // ---------------------------------------------------------------- numbers

  /** A numeral: its parts as section 6 of RFC 8259 writes them. */
  datatype Numeral = Numeral(minus: bool, whole: Str, fraction: Option<Str>, exponent: Option<(Unit, Str, Str)>)

  predicate Digits(t: Str) { t != [] && forall u <- t :: 0x30 <= u <= 0x39 }

  predicate SoundNumeral(n: Numeral) {
    && Digits(n.whole) && (n.whole[0] == 0x30 ==> |n.whole| == 1)
    && (n.fraction.Some? ==> Digits(n.fraction.value))
    && (n.exponent.Some? ==>
          var (mark, sign, digits) := n.exponent.value;
          (mark == 0x65 || mark == 0x45) && (sign == [] || sign == [0x2B] || sign == [0x2D]) && Digits(digits))
  }

  function ExponentText(e: Option<(Unit, Str, Str)>): Str {
    if e.None? then [] else [e.value.0] + e.value.1 + e.value.2
  }

  function FractionText(n: Numeral): Str {
    (if n.fraction.None? then [] else [0x2E] + n.fraction.value) + ExponentText(n.exponent)
  }

  function NumeralText(n: Numeral): Str {
    (if n.minus then [0x2D] else []) + n.whole + FractionText(n)
  }

  lemma {:induction false} DigitsRun(d: Str, t: Str)
    requires forall u <- d :: 0x30 <= u <= 0x39
    requires t == [] || !IsDigit(t[0])
    ensures DigitsLen(d + t) == |d|
  {
    if d == [] {
      assert d + t == t;
    } else {
      assert d[0] in d && forall u <- d[1..] :: u in d;
      DigitsRun(d[1..], t);
      assert (d + t)[1..] == d[1..] + t;
    }
  }

  lemma {:induction false} DigitsTaken(t: Str)
    ensures var n := DigitsLen(t); (forall u <- t[..n] :: 0x30 <= u <= 0x39) && (n < |t| ==> !IsDigit(t[n]))
  {
    if t != [] && IsDigit(t[0]) {
      DigitsTaken(t[1..]);
      var n := DigitsLen(t[1..]);
      assert t[..n + 1] == [t[0]] + t[1..][..n];
    }
  }

  lemma ExponentReads(e: Option<(Unit, Str, Str)>)
    requires SoundNumeral(Numeral(false, [0x30], None, e))
    ensures IsExponent(ExponentText(e))
  {
    if e.Some? {
      var t := ExponentText(e);
      var d := e.value.2;
      assert d + [] == d;
      DigitsRun(d, []);
      assert d[0] in d;
      if e.value.1 == [] { assert t[1..] == d; } else { assert t[2..] == d && t[1] == e.value.1[0]; }
    }
  }

  lemma ExponentSpelled(t: Str) returns (e: Option<(Unit, Str, Str)>)
    requires IsExponent(t)
    ensures SoundNumeral(Numeral(false, [0x30], None, e)) && ExponentText(e) == t
  {
    if t == [] {
      e := None;
    } else {
      var sign := if |t| > 1 && (t[1] == 0x2B || t[1] == 0x2D) then t[1..2] else [];
      var d := t[1 + |sign|..];
      DigitsTaken(d);
      assert d[..|d|] == d;
      e := Some((t[0], sign, d));
      assert t == [t[0]] + sign + d;
    }
  }

  lemma ExponentHead(e: Option<(Unit, Str, Str)>)
    requires SoundNumeral(Numeral(false, [0x30], None, e))
    ensures var t := ExponentText(e); t == [] || (!IsDigit(t[0]) && t[0] != 0x2E)
  {}

  lemma FractionReads(n: Numeral)
    requires SoundNumeral(n)
    ensures var t := FractionText(n); IsFraction(t) && (t == [] || !IsDigit(t[0]))
  {
    hide IsExponent, IsFraction, Digits, ExponentText;
    var e := ExponentText(n.exponent);
    ExponentReads(n.exponent);
    ExponentHead(n.exponent);
    if n.fraction.Some? { DotReads(n.fraction.value, e); } else { NoDotReads(e); }
  }

  lemma DotReads(f: Str, e: Str)
    requires Digits(f) && IsExponent(e) && (e == [] || !IsDigit(e[0]))
    ensures IsFraction([0x2E] + f + e)
  {
    hide IsExponent;
    var t := [0x2E] + f + e;
    assert t[1..] == f + e;
    DigitsRun(f, e);
    assert t[1 + |f|..] == e;
  }

  lemma NoDotReads(e: Str)
    requires IsExponent(e) && (e == [] || e[0] != 0x2E)
    ensures IsFraction([] + e)
  {
    hide IsExponent;
    assert [] + e == e;
  }

  lemma FractionSpelled(t: Str, minus: bool, whole: Str) returns (n: Numeral)
    requires IsFraction(t) && Digits(whole) && (whole[0] == 0x30 ==> |whole| == 1)
    ensures SoundNumeral(n) && n.minus == minus && n.whole == whole && FractionText(n) == t
  {
    hide IsExponent;
    if t != [] && t[0] == 0x2E {
      var k := DigitsLen(t[1..]);
      DigitsTaken(t[1..]);
      var e := ExponentSpelled(t[1 + k..]);
      n := Numeral(minus, whole, Some(t[1..][..k]), e);
      assert t == [t[0]] + t[1..][..k] + t[1 + k..];
    } else {
      var e := ExponentSpelled(t);
      n := Numeral(minus, whole, None, e);
      assert [] + t == t;
    }
  }

  /** Every spelling of a numeral is a number. */
  lemma NumeralReads(n: Numeral)
    requires SoundNumeral(n)
    ensures IsNumber(NumeralText(n))
  {
    hide IsFraction;
    var w, t := NumeralText(n), FractionText(n);
    FractionReads(n);
    DigitsRun(n.whole, t);
    assert n.whole[0] in n.whole;
    var a := if w != [] && w[0] == 0x2D then w[1..] else w;
    assert a == n.whole + t;
    assert a[|n.whole|..] == t;
    NumeralUnits(n);
  }

  lemma NumeralUnits(n: Numeral)
    requires SoundNumeral(n)
    ensures forall u <- NumeralText(n) :: IsNumberUnit(u)
  {}

  /** Every number is the spelling of a numeral. */
  lemma NumberSpelled(w: Str) returns (n: Numeral)
    requires IsNumber(w)
    ensures SoundNumeral(n) && NumeralText(n) == w
  {
    hide IsFraction, FractionText;
    var minus := w != [] && w[0] == 0x2D;
    var a := if minus then w[1..] else w;
    var k := DigitsLen(a);
    DigitsTaken(a);
    assert a[..k][0] == a[0];
    n := FractionSpelled(a[k..], minus, a[..k]);
    assert a == a[..k] + a[k..];
    assert w == (if minus then [0x2D] else []) + a;
  }

  // ---------------------------------------------------------------- the words and signs of a text

  datatype Lexeme =
    | Symbol(u: Unit)
    | Characters(cs: seq<Char>)
    | Number(n: Numeral)
    | TrueName
    | FalseName
    | NullName

  predicate SoundLexeme(x: Lexeme) {
    match x
    case Symbol(u) => u in [0x5B, 0x7B, 0x5D, 0x7D, 0x3A, 0x2C]
    case Characters(cs) => forall c <- cs :: SoundChar(c)
    case Number(n) => SoundNumeral(n)
    case _ => true
  }

  function LexemeText(x: Lexeme): Str {
    match x
    case Symbol(u) => [u]
    case Characters(cs) => [0x22] + SpellAll(cs) + [0x22]
    case Number(n) => NumeralText(n)
    case TrueName => [0x74, 0x72, 0x75, 0x65]
    case FalseName => [0x66, 0x61, 0x6C, 0x73, 0x65]
    case NullName => [0x6E, 0x75, 0x6C, 0x6C]
  }

  function LexemeToken(x: Lexeme): Token
    requires SoundLexeme(x)
  {
    match x
    case Symbol(u) => Punct(u)
    case Characters(cs) => Text(StandsAll(cs))
    case Number(n) => Word(JNum(NumeralText(n)))
    case TrueName => Word(JBool(true))
    case FalseName => Word(JBool(false))
    case NullName => Word(JNull)
  }

  predicate IsBare(x: Lexeme) { !x.Symbol? && !x.Characters? }

  /** A lexeme with the whitespace in front of it. */
  datatype Spaced = Spaced(gap: Str, lexeme: Lexeme)

  predicate IsBlank(t: Str) { forall u <- t :: u == 0x20 || u == 0x09 || u == 0x0A || u == 0x0D }

  /** Sound lexemes between blanks, with a blank between two words that follow each other. */
  ghost predicate SoundText(xs: seq<Spaced>, end: Str) {
    && IsBlank(end) && (forall x <- xs :: IsBlank(x.gap) && SoundLexeme(x.lexeme))
    && forall i :: 0 <= i < |xs| - 1 && IsBare(xs[i].lexeme) && IsBare(xs[i + 1].lexeme) ==> xs[i + 1].gap != []
  }

  function TextOf(xs: seq<Spaced>, end: Str): Str {
    if xs == [] then end else xs[0].gap + LexemeText(xs[0].lexeme) + TextOf(xs[1..], end)
  }

  function TokensOf(xs: seq<Spaced>): seq<Token>
    requires forall x <- xs :: SoundLexeme(x.lexeme)
  {
    seq(|xs|, i requires 0 <= i < |xs| => LexemeToken(xs[i].lexeme))
  }

  lemma BlankIsSpace(t: Str)
    ensures IsBlank(t) <==> AllJsonSpace(t)
  {}

  lemma WordIs(x: Lexeme)
    requires SoundLexeme(x) && IsBare(x)
    ensures WordValue(LexemeText(x)).Some? && LexemeToken(x) == Word(WordValue(LexemeText(x)).value)
  {
    hide IsNumber, NumeralText, SoundNumeral;
    if x.Number? {
      NumeralReads(x.n);
      NumberIsNoLetter(NumeralText(x.n));
    }
  }

  /** A literal with its quotes. */
  lemma CharactersRead(cs: seq<Char>, rest: Str)
    requires forall c <- cs :: SoundChar(c)
    ensures var t := [0x22] + SpellAll(cs) + [0x22];
            Lex(t + rest) == Prepend([Text(StandsAll(cs))], Lex(rest))
  {
    hide SoundChar, Stands, Spell, Unescape, StringTail, Lex;
    var t := [0x22] + SpellAll(cs) + [0x22];
    SpellingReads(cs);
    SpellingEnds(cs, [0x22] + rest);
    QuoteEnds(rest);
    assert (t + rest)[1..] == SpellAll(cs) + ([0x22] + rest);
    assert StringLen(t + rest) == Some(|t|);
    assert (t + rest)[..|t|] == t && (t + rest)[|t|..] == rest;
    assert t[1..|t| - 1] == SpellAll(cs);
    assert Literal(t) == Some(StandsAll(cs));
    LexLiteral(t + rest);
  }

  lemma QuoteEnds(rest: Str)
    ensures StringTail([0x22] + rest) == Some(1)
  {}

  lemma CharEnds(c: Char, t: Str)
    requires SoundChar(c)
    ensures StringTail(Spell(c) + t) == Shift(|Spell(c)|, StringTail(t))
  {
    var w := Spell(c) + t;
    match c {
      case Plain(u) => assert w[1..] == t;
      case Short(letter) => assert w[2..] == t;
      case Coded(a, b, c', d) =>
        assert w[2..] == [a, b, c', d] + t;
        StringTailPlain([a, b, c', d], t);
    }
  }

  lemma {:induction false} SpellingEnds(cs: seq<Char>, t: Str)
    requires forall c <- cs :: SoundChar(c)
    ensures StringTail(SpellAll(cs) + t) == Shift(|SpellAll(cs)|, StringTail(t))
  {
    hide SoundChar, Spell, StringTail;
    if cs == [] {
      assert [] + t == t;
    } else {
      assert cs[0] in cs && forall c <- cs[1..] :: c in cs;
      SpellingEnds(cs[1..], t);
      CharEnds(cs[0], SpellAll(cs[1..]) + t);
      assert SpellAll(cs) + t == Spell(cs[0]) + (SpellAll(cs[1..]) + t);
    }
  }

  lemma LexemeReads(x: Lexeme, rest: Str)
    requires SoundLexeme(x) && (IsBare(x) ==> rest == [] || !IsWordUnit(rest[0]))
    ensures Lex(LexemeText(x) + rest) == Prepend([LexemeToken(x)], Lex(rest))
  {
    hide Lex, WordValue, IsWordUnit, NumeralText, SoundNumeral, SpellAll;
    match x {
      case Symbol(u) => LexMark(u, rest);
      case Characters(cs) => CharactersRead(cs, rest);
      case _ =>
        WordIs(x);
        LexWord(LexemeText(x), rest);
    }
  }

  /** What follows a word does not continue it. */
  lemma NextIsNoWord(xs: seq<Spaced>, end: Str)
    requires SoundText(xs, end) && (xs != [] && IsBare(xs[0].lexeme) ==> xs[0].gap != [])
    ensures var t := TextOf(xs, end); t == [] || !IsWordUnit(t[0])
  {
    hide NumeralText;
    var t := TextOf(xs, end);
    if xs == [] {
      if t != [] { assert t[0] in end; }
    } else {
      assert xs[0] in xs;
      if xs[0].gap != [] { assert t[0] == xs[0].gap[0]
          && xs[0].gap[0] in xs[0].gap; } else { assert t[0] == LexemeText(xs[0].lexeme)[0]; }
    }
  }

  lemma SoundRest(xs: seq<Spaced>, end: Str)
    requires SoundText(xs, end) && xs != []
    ensures SoundText(xs[1..], end) && IsBlank(xs[0].gap) && SoundLexeme(xs[0].lexeme)
    ensures IsBare(xs[0].lexeme) && |xs| > 1 && IsBare(xs[1].lexeme) ==> xs[1].gap != []
  {
    assert xs[0] in xs && forall x <- xs[1..] :: x in xs;
    var rest := xs[1..];
    forall i | 0 <= i < |rest| - 1 && IsBare(rest[i].lexeme)
        && IsBare(rest[i + 1].lexeme) ensures rest[i + 1].gap != [] {
      assert xs[i + 1 + 1].gap != [];
    }
  }

  /** Every text of sound lexemes has their tokens. */
  lemma {:induction false} LexemesRead(xs: seq<Spaced>, end: Str)
    requires SoundText(xs, end)
    ensures Lex(TextOf(xs, end)) == Some(TokensOf(xs))
  {
    hide Lex, SoundText, IsBlank, SoundLexeme, LexemeText, LexemeToken, IsWordUnit, Prepend, IsBare;
    LexemesSound(xs, end);
    if xs == [] {
      BlankIsSpace(end);
      LexGap(end, []);
      NoLexemes();
      assert end + [] == end;
    } else {
      SoundRest(xs, end);
      LexemesRead(xs[1..], end);
      var x, rest := xs[0].lexeme, TextOf(xs[1..], end);
      if IsBare(x) { NextIsNoWord(xs[1..], end); }
      LexemeReads(x, rest);
      BlankIsSpace(xs[0].gap);
      LexGap(xs[0].gap, LexemeText(x) + rest);
      assert TextOf(xs, end) == xs[0].gap + (LexemeText(x) + rest);
      PrependOne(LexemeToken(x), TokensOf(xs[1..]));
      assert TokensOf(xs) == [LexemeToken(x)] + TokensOf(xs[1..]);
    }
  }

  lemma LexemesSound(xs: seq<Spaced>, end: Str)
    requires SoundText(xs, end)
    ensures IsBlank(end) && forall x <- xs :: SoundLexeme(x.lexeme)
  {}

  lemma PrependOne(x: Token, ts: seq<Token>)
    ensures Prepend([x], Some(ts)) == Some([x] + ts)
  {}

  // ---------------------------------------------------------------- every text with tokens is a text of lexemes

  lemma WordSpelled(w: Str) returns (x: Lexeme)
    requires WordValue(w).Some?
    ensures SoundLexeme(x) && IsBare(x) && LexemeText(x) == w && LexemeToken(x) == Word(WordValue(w).value)
  {
    hide IsNumber, NumeralText, SoundNumeral;
    if w == TRUE_WORD { x := TrueName; }
    else if w == FALSE_WORD { x := FalseName; }
    else if w == NULL_WORD { x := NullName; }
    else {
      var n := NumberSpelled(w);
      x := Number(n);
    }
  }

  lemma LiteralSpelled(t: Str) returns (x: Lexeme)
    requires Literal(t).Some?
    ensures SoundLexeme(x) && x.Characters? && LexemeText(x) == t && LexemeToken(x) == Text(Literal(t).value)
  {
    hide Unescape, SpellAll;
    var cs := ReadIsSpelled(t[1..|t| - 1]);
    x := Characters(cs);
    assert t == [t[0]] + t[1..|t| - 1] + [t[|t| - 1]];
  }

  /** The first lexeme of a text that does not start with a blank. */
  lemma FirstLexeme(t: Str) returns (x: Lexeme, rest: Str)
    requires t != [] && !IsJsonSpace(t[0]) && Lex(t).Some?
    ensures SoundLexeme(x) && t == LexemeText(x) + rest && |rest| < |t|
    ensures Lex(rest).Some? && Lex(t) == Prepend([LexemeToken(x)], Lex(rest))
    ensures IsBare(x) ==> rest == [] || !IsWordUnit(rest[0])
  {
    hide WordValue, Literal, StringTail, SpellAll, NumeralText, SoundNumeral, SoundChar;
    if IsPunct(t[0]) {
      x, rest := Symbol(t[0]), t[1..];
    } else if t[0] == QUOTE {
      var n := StringLen(t).value;
      x := LiteralSpelled(t[..n]);
      rest := t[n..];
      assert t == t[..n] + t[n..];
    } else {
      var n := WordLen(t);
      x := WordSpelled(t[..n]);
      rest := t[n..];
      assert t == t[..n] + t[n..];
    }
  }

  lemma {:induction false} TextIsLexemes(t: Str) returns (xs: seq<Spaced>, end: Str)
    requires Lex(t).Some?
    ensures SoundText(xs, end) && t == TextOf(xs, end)
    ensures Lex(t) == Some(TokensOf(xs))
    decreases |t|
  {
    hide SoundLexeme, LexemeText, LexemeToken, IsWordUnit, IsBare, Prepend, IsBlank, SoundText, Lex;
    if t == [] {
      xs, end := [], [];
      NoLexemes();
    } else if IsJsonSpace(t[0]) {
      LexBlank(t);
      xs, end := TextIsLexemes(t[1..]);
      assert t == [t[0]] + t[1..];
      if xs == [] {
        end := [t[0]] + end;
        BlankEnd(t[0], end[1..]);
      } else {
        var x := Spaced([t[0]] + xs[0].gap, xs[0].lexeme);
        WiderGap(xs, end, t[0]);
        assert ([x] + xs[1..])[1..] == xs[1..];
        xs := [x] + xs[1..];
      }
      LexemesRead(xs, end);
    } else {
      var x, rest := FirstLexeme(t);
      var more, last := TextIsLexemes(rest);
      xs, end := [Spaced([], x)] + more, last;
      assert xs[1..] == more;
      assert t == [] + LexemeText(x) + TextOf(more, end);
      MoreLexemes(x, more, end);
      LexemesRead(xs, end);
    }
  }

  lemma NoLexemes()
    ensures SoundText([], []) && Lex([]) == Some([]) && TokensOf([]) == []
  {}

  lemma LexBlank(t: Str)
    requires t != [] && IsJsonSpace(t[0])
    ensures Lex(t) == Lex(t[1..])
  {}

  lemma BlankEnd(u: Unit, end: Str)
    requires IsJsonSpace(u) && SoundText([], end)
    ensures SoundText([], [u] + end)
  {}

  lemma WiderGap(xs: seq<Spaced>, end: Str, u: Unit)
    requires IsJsonSpace(u) && SoundText(xs, end) && xs != []
    ensures SoundText([Spaced([u] + xs[0].gap, xs[0].lexeme)] + xs[1..], end)
  {
    hide SoundLexeme, IsBare;
    assert xs[0] in xs;
    var ys := [Spaced([u] + xs[0].gap, xs[0].lexeme)] + xs[1..];
    forall y | y in ys ensures IsBlank(y.gap) && SoundLexeme(y.lexeme) { if y != ys[0] { assert y in xs[1..];
        assert y in xs; } }
    forall i | 0 <= i < |ys| - 1 && IsBare(ys[i].lexeme) && IsBare(ys[i + 1].lexeme) ensures ys[i + 1].gap != [] {
      assert ys[i + 1] == xs[i + 1] && ys[i].lexeme == xs[i].lexeme;
    }
  }

  lemma BareStarts(xs: seq<Spaced>, end: Str)
    requires SoundText(xs, end) && xs != [] && IsBare(xs[0].lexeme) && xs[0].gap == []
    ensures var t := TextOf(xs, end); t != [] && IsWordUnit(t[0])
  {
    hide NumeralText, SoundNumeral;
    assert xs[0] in xs;
    WordIs(xs[0].lexeme);
    var w := LexemeText(xs[0].lexeme);
    WordUnits(w);
    assert w[0] in w;
  }

  /** A word is not continued by what follows it, so another word behind it stands apart. */
  lemma MoreLexemes(x: Lexeme, xs: seq<Spaced>, end: Str)
    requires SoundLexeme(x) && SoundText(xs, end)
    requires var t := TextOf(xs, end); IsBare(x) ==> t == [] || !IsWordUnit(t[0])
    ensures SoundText([Spaced([], x)] + xs, end)
  {
    hide NumeralText, SoundNumeral;
    var ys := [Spaced([], x)] + xs;
    assert forall y <- ys :: y == ys[0] || y in xs;
    if IsBare(x) && xs != [] && IsBare(xs[0].lexeme) && xs[0].gap == [] {
      BareStarts(xs, end);
      assert false;
    }
    forall i | 0 <= i < |ys| - 1 && IsBare(ys[i].lexeme) && IsBare(ys[i + 1].lexeme) ensures ys[i + 1].gap != [] {
      if i > 0 { assert ys[i] == xs[i - 1] && ys[i + 1] == xs[i]; }
    }
  }
}
