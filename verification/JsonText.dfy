/**
 * JSON values and the two library functions the editor relies on: JSON.parse (RFC 8259)
 * and JSON.stringify. Numbers keep their token.
 */
module JsonText {
  import opened Units

  datatype Json =
    | JNull
    | JBool(b: bool)
    | JNum(token: Str)
    | JStr(s: Str)
    | JArr(items: seq<Json>)
    | JObj(entries: seq<Entry>)

  datatype Entry = Entry(key: Str, value: Json)

  /** A property of a parsed value; None for a missing property or a value without properties of its own. */
  function Field(v: Json, name: Str): Option<Json> {
    if v.JObj? then FieldOf(v.entries, name) else None
  }

  function FieldOf(es: seq<Entry>, name: Str): Option<Json> {
    if es == [] then None else if es[0].key == name then Some(es[0].value) else FieldOf(es[1..], name)
  }

  // ---------------------------------------------------------------- string literals

  predicate IsHigh(u: Unit) { 0xD800 <= u <= 0xDBFF }
  predicate IsLow(u: Unit) { 0xDC00 <= u <= 0xDFFF }

  function HexDigit(n: int): (u: Unit)
    requires 0 <= n < 16
    ensures 0x30 <= u <= 0x39 || 0x61 <= u <= 0x66
  {
    if n < 10 then 0x30 + n else 0x57 + n
  }

  function HexValue(u: Unit): Option<nat> {
    if 0x30 <= u <= 0x39 then Some(u - 0x30)
    else if 0x41 <= u <= 0x46 then Some(u - 0x37)
    else if 0x61 <= u <= 0x66 then Some(u - 0x57)
    else None
  }

  /** The four hex digits of a `\u` escape. */
  function Hex4(t: Str): (r: Option<Unit>)
    requires |t| == 4
  {
    var a, b, c, d := HexValue(t[0]), HexValue(t[1]), HexValue(t[2]), HexValue(t[3]);
    if a.None? || b.None? || c.None? || d.None? then None
    else
      var n := a.value * 4096 + b.value * 256 + c.value * 16 + d.value;
      if n < 0x1_0000 then Some(n) else None
  }

  function UnicodeEscape(u: Unit): Str {
    [BACKSLASH, 0x75, HexDigit(u / 4096), HexDigit(u / 256 % 16), HexDigit(u / 16 % 16), HexDigit(u % 16)]
  }

  /** What one of the eight single-letter escapes stands for. */
  function SimpleEscape(u: Unit): Option<Unit> {
    if u == QUOTE || u == BACKSLASH || u == SLASH then Some(u)
    else if u == 0x62 then Some(8)
    else if u == 0x66 then Some(12)
    else if u == 0x6E then Some(10)
    else if u == 0x72 then Some(13)
    else if u == 0x74 then Some(9)
    else None
  }

  /** Section 7 of RFC 8259: the value of the text between the quotes. */
  function Unescape(t: Str): Option<Str>
    decreases |t|
  {
    if t == [] then Some([])
    else if t[0] == BACKSLASH then
      if |t| < 2 then None
      else if SimpleEscape(t[1]).Some? then Cons(SimpleEscape(t[1]).value, Unescape(t[2..]))
      else if t[1] != 0x75 || |t| < 6 || Hex4(t[2..6]).None? then None
      else Cons(Hex4(t[2..6]).value, Unescape(t[6..]))
    else if t[0] < 0x20 || t[0] == QUOTE then None
    else Cons(t[0], Unescape(t[1..]))
  }

  function Cons(u: Unit, s: Option<Str>): Option<Str> {
    if s.None? then None else Some([u] + s.value)
  }

  /** One unit as JSON.stringify writes it; `lone` marks a surrogate without its partner. */
  function EscapeUnit(u: Unit, lone: bool): Str {
    if u == QUOTE then [BACKSLASH, QUOTE]
    else if u == BACKSLASH then [BACKSLASH, BACKSLASH]
    else if u == 8 then [BACKSLASH, 0x62]
    else if u == 9 then [BACKSLASH, 0x74]
    else if u == 10 then [BACKSLASH, 0x6E]
    else if u == 12 then [BACKSLASH, 0x66]
    else if u == 13 then [BACKSLASH, 0x72]
    else if u < 0x20 || lone then UnicodeEscape(u)
    else [u]
  }

  /** What the next unit, or surrogate pair, is written as, and how many units that covers. */
  function EscapeHead(s: Str): (r: (Str, nat))
    requires s != []
    ensures 0 < r.1 <= |s|
  {
    if IsHigh(s[0]) && |s| > 1 && IsLow(s[1]) then (s[..2], 2)
    else (EscapeUnit(s[0], IsHigh(s[0]) || IsLow(s[0])), 1)
  }

  function Escape(s: Str): Str {
    if s == [] then [] else var (e, n) := EscapeHead(s); e + Escape(s[n..])
  }

  function Quote(s: Str): Str {
    [QUOTE] + Escape(s) + [QUOTE]
  }

  /** Where the literal whose opening quote has been read ends; None when it does not. */
  function StringTail(t: Str): (n: Option<nat>)
    ensures n.Some? ==> 0 < n.value <= |t| && t[n.value - 1] == QUOTE
    decreases |t|
  {
    if t == [] then None
    else if t[0] == BACKSLASH then (if |t| < 2 then None else Shift(2, StringTail(t[2..])))
    else if t[0] == QUOTE then Some(1)
    else if t[0] == LF || t[0] == CR then None
    else Shift(1, StringTail(t[1..]))
  }

  /** The length of the literal that starts `t`. */
  function StringLen(t: Str): (n: Option<nat>)
    requires t != [] && t[0] == QUOTE
    ensures n.Some? ==> 2 <= n.value <= |t| && t[n.value - 1] == QUOTE
  {
    Shift(1, StringTail(t[1..]))
  }

  /** `t` is exactly one literal, as far as finding its end goes. */
  predicate IsStringText(t: Str) {
    t != [] && t[0] == QUOTE && StringLen(t) == Some(|t|)
  }

  /** JSON.parse of a string literal. */
  function Literal(t: Str): Option<Str> {
    if |t| >= 2 && t[0] == QUOTE && t[|t| - 1] == QUOTE then Unescape(t[1..|t| - 1]) else None
  }

  lemma {:induction false} StringTailLocal(a: Str, b: Str)
    requires StringTail(a).Some?
    ensures StringTail(a + b) == StringTail(a)
    decreases |a|
  {
    if a[0] == BACKSLASH {
      StringTailLocal(a[2..], b);
      assert (a + b)[2..] == a[2..] + b;
    } else if a[0] != QUOTE {
      StringTailLocal(a[1..], b);
      assert (a + b)[1..] == a[1..] + b;
    }
  }

  /** The end of a literal depends on nothing after it. */
  lemma {:induction false} StringTailCut(t: Str, n: nat)
    requires StringTail(t) == Some(n)
    ensures StringTail(t[..n]) == Some(n)
    decreases |t|
  {
    if t[0] == BACKSLASH {
      StringTailCut(t[2..], n - 2);
      assert t[..n][2..] == t[2..][..n - 2];
    } else if t[0] != QUOTE {
      StringTailCut(t[1..], n - 1);
      assert t[..n][1..] == t[1..][..n - 1];
    }
  }

  lemma StringLenLocal(a: Str, b: Str)
    requires IsStringText(a)
    ensures (a + b)[0] == QUOTE && StringLen(a + b) == Some(|a|)
  {
    StringTailLocal(a[1..], b);
    assert (a + b)[1..] == a[1..] + b;
  }

  lemma StringLenCut(t: Str, n: nat)
    requires t != [] && t[0] == QUOTE && StringLen(t) == Some(n)
    ensures IsStringText(t[..n])
  {
    StringTailCut(t[1..], n - 1);
    assert t[..n][1..] == t[1..][..n - 1];
  }

  lemma HexRoundTrip(u: Unit)
    ensures Hex4(UnicodeEscape(u)[2..6]) == Some(u)
  {
    var t := UnicodeEscape(u)[2..6];
    assert t == [HexDigit(u / 4096), HexDigit(u / 256 % 16), HexDigit(u / 16 % 16), HexDigit(u % 16)];
    assert HexValue(t[0]) == Some(u / 4096);
    assert u / 256 == 16 * (u / 4096) + u / 256 % 16;
    assert u / 16 == 16 * (u / 256) + u / 16 % 16;
  }

  predicate IsPlain(u: Unit) {
    u != QUOTE && u != BACKSLASH && u != LF && u != CR
  }

  lemma {:induction false} StringTailPlain(p: Str, t: Str)
    requires forall u <- p :: IsPlain(u)
    ensures StringTail(p + t) == Shift(|p|, StringTail(t))
  {
    if p == [] {
      assert p + t == t;
    } else {
      assert IsPlain(p[0]);
      StringTailPlain(p[1..], t);
      assert (p + t)[1..] == p[1..] + t;
    }
  }

  lemma UnicodeEscapeStep(u: Unit, t: Str)
    ensures Unescape(UnicodeEscape(u) + t) == Cons(u, Unescape(t))
    ensures StringTail(UnicodeEscape(u) + t) == Shift(6, StringTail(t))
  {
    hide HexDigit, Hex4;
    var e := UnicodeEscape(u);
    var w := e + t;
    HexRoundTrip(u);
    assert w[2..6] == e[2..6];
    assert w[6..] == t;
    StringTailPlain(e[2..], t);
    assert w[2..] == e[2..] + t;
  }

  lemma PlainStep(u: Unit, t: Str)
    requires u >= 0x20 && IsPlain(u)
    ensures Unescape([u] + t) == Cons(u, Unescape(t))
    ensures StringTail([u] + t) == Shift(1, StringTail(t))
  {
    assert ([u] + t)[1..] == t;
  }

  lemma EscapeUnitStep(u: Unit, lone: bool, t: Str)
    ensures Unescape(EscapeUnit(u, lone) + t) == Cons(u, Unescape(t))
    ensures StringTail(EscapeUnit(u, lone) + t) == Shift(|EscapeUnit(u, lone)|, StringTail(t))
    ensures LF !in EscapeUnit(u, lone)
  {
    var e := EscapeUnit(u, lone);
    if |e| == 6 {
      UnicodeEscapeStep(u, t);
    } else if |e| == 1 {
      PlainStep(u, t);
    } else {
      assert (e + t)[2..] == t;
    }
  }

  lemma EscapeHeadStep(s: Str, t: Str)
    requires s != []
    ensures var (e, n) := EscapeHead(s);
            (Unescape(t).Some? ==> Unescape(e + t) == Some(s[..n] + Unescape(t).value))
            && StringTail(e + t) == Shift(|e|, StringTail(t)) && LF !in e
  {
    hide EscapeUnit, Unescape, StringTail;
    var (e, n) := EscapeHead(s);
    if n == 2 {
      assert e + t == [s[0]] + ([s[1]] + t);
      PlainStep(s[1], t);
      PlainStep(s[0], [s[1]] + t);
      if Unescape(t).Some? {
        assert s[..2] + Unescape(t).value == [s[0]] + ([s[1]] + Unescape(t).value);
      }
    } else {
      EscapeUnitStep(s[0], IsHigh(s[0]) || IsLow(s[0]), t);
      assert s[..1] == [s[0]];
    }
  }

  lemma EscapeUnfold(s: Str)
    ensures s == [] ==> Escape(s) == []
    ensures s != [] ==> Escape(s) == EscapeHead(s).0 + Escape(s[EscapeHead(s).1..])
  {
    hide EscapeHead;
  }

  lemma {:induction false} EscapeTail(s: Str, t: Str)
    ensures StringTail(Escape(s) + t) == Shift(|Escape(s)|, StringTail(t))
    ensures LF !in Escape(s)
    decreases |s|
  {
    hide EscapeHead, StringTail, Escape, Unescape;
    EscapeUnfold(s);
    if s == [] {
      assert Escape(s) + t == t;
    } else {
      var (e, n) := EscapeHead(s);
      EscapeTail(s[n..], t);
      EscapeHeadStep(s, Escape(s[n..]) + t);
      assert Escape(s) + t == e + (Escape(s[n..]) + t);
    }
  }

  /** Escaping is undone by unescaping, whatever follows. */
  lemma {:induction false} EscapeRoundTrip(s: Str, t: Str)
    requires Unescape(t).Some?
    ensures Unescape(Escape(s) + t) == Some(s + Unescape(t).value)
    decreases |s|
  {
    hide EscapeHead, Unescape;
    if s == [] {
      assert Escape(s) + t == t && s + Unescape(t).value == Unescape(t).value;
    } else {
      var (e, n) := EscapeHead(s);
      EscapeRoundTrip(s[n..], t);
      EscapeHeadStep(s, Escape(s[n..]) + t);
      assert Escape(s) + t == e + (Escape(s[n..]) + t);
      assert s + Unescape(t).value == s[..n] + (s[n..] + Unescape(t).value);
    }
  }
}
