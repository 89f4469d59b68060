/** The very file that a repair makes of a missing one. */
module MissingFile {
  import opened Units
  import opened JsonText
  import opened JsonGrammar
  import opened JsonLayout
  import opened JsoncGrammar
  import opened JsoncPrint
  import opened JsoncEdit
  import opened JsoncEditLaw
  import opened JsoncKeep
  import opened JsoncLines
  import opened ManagedSettings
  import opened SettingsRepair

  // ---------------------------------------------------------------- plain literals

  predicate IsPlain(t: Str) { forall u <- t :: 0x20 <= u < 0x7F && u != 0x22 && u != 0x5C }

  lemma {:induction false} PlainEscape(t: Str)
    requires IsPlain(t)
    ensures Escape(t) == t
  {
    if t != [] {
      assert t[0] in t;
      assert forall u <- t[1..] :: u in t;
      PlainEscape(t[1..]);
      assert EscapeHead(t) == ([t[0]], 1);
      assert [t[0]] + t[1..] == t;
    }
  }

  // ---------------------------------------------------------------- the two edits

  const EMPTY_DOC: Doc := Doc([], [], [], [LF])

  /** The document with the one property. */
  function One(key: Str, v: Json): Doc {
    Doc([], [Member([LF] + TWO_SPACES, Quote(key), [], [SPACE], Show(v, [LF] + TWO_SPACES), [LF], false)], [], [LF])
  }

  function OneText(key: Str, v: Json): Str {
    [OPEN_BRACE, LF] + TWO_SPACES + Quote(key) + [COLON, SPACE] + Show(v, [LF] + TWO_SPACES)
  }

  lemma EmptyText()
    ensures DocText(EMPTY_DOC) == EMPTY_DOCUMENT == [OPEN_BRACE, CLOSE_BRACE, LF] && GoodDoc(EMPTY_DOC)
    ensures DocRoot(EMPTY_DOC) == Root(1, [])
  {
    EmptyGood();
  }

  lemma FirstEdit(key: Str, v: Json)
    requires WellFormed(v)
    ensures EditDoc(EMPTY_DOC, key, v) == Some(One(key, v))
  {
    hide Quote, Show, FormatValue, GoodDoc, AfterLastLf, Print;
    EmptyText();
    var s := EMPTY_DOCUMENT;
    assert !HasCrlf(s);
    LineStartNone(s);
    FormatIsPrint(v, TWO_SPACES, [LF]);
    PrintShows(v, [LF] + TWO_SPACES);
    assert LastGap(EMPTY_DOC) == [];
    assert GapBefore(EMPTY_DOC) == [] && GapAfter(EMPTY_DOC) == [];
    assert !IsSpace(OPEN_BRACE) && OPEN_BRACE in [OPEN_BRACE];
    assert InsertionIndex(s, 1) == 1;
    assert LeadingNewline(s, 1) == [LF];
    assert [] + [LF] + TWO_SPACES == [LF] + TWO_SPACES && [LF] + [] == [LF];
    assert WithComma([]) + [InsertedMember(EMPTY_DOC, key, v)] == [InsertedMember(EMPTY_DOC, key, v)];
  }

  lemma LineStartNone(s: Str)
    requires s == [OPEN_BRACE, CLOSE_BRACE, LF]
    ensures LineStart(s, 1) == 0 && Slice(s, 0, 1) == [OPEN_BRACE]
  {
    var t := Slice(s, 0, 1);
    assert t == [OPEN_BRACE] && t[..0] == [];
  }

  lemma OneIs(key: Str, v: Json)
    ensures DocText(One(key, v)) == OneText(key, v) + [LF, CLOSE_BRACE, LF]
    ensures var n, ps := |OneText(key, v)|, DocRoot(One(key, v)).properties;
            DocRoot(One(key, v)).closeIndex == n + 1 && |ps| == 1 && ps[0].keyStart == 4 && ps[0].valueEnd == n
  {
    hide Quote, Show;
    var m := One(key, v).members[0];
    assert [m][1..] == [];
    assert BodyText([m], []) == MemberText(m) + [CLOSE_BRACE];
    var q, w := Quote(key), Show(v, [LF] + TWO_SPACES);
    assert MemberText(m) == [LF] + TWO_SPACES + q + [COLON, SPACE] + w + [LF];
    assert OneText(key, v) == [OPEN_BRACE] + ([LF] + TWO_SPACES + q + [COLON, SPACE] + w);
  }

  lemma EmptyPairs()
    ensures !HasCrlf(EMPTY_DOCUMENT)
  {}

  lemma NoPairs(s: Str)
    ensures HasCrlf(s) <==> exists i: nat :: IsPair(s, i)
  {
    if HasCrlf(s) {
      var i :| 0 <= i < |s| - 1 && s[i] == CR && s[i + 1] == LF;
      assert IsPair(s, i);
    }
  }

  lemma SecondEdit(key: Str, v: Json, other: Str, w: Json)
    requires WellFormed(v) && WellFormed(w) && key != other
    ensures SetTop(DocText(One(key, v)), other, w)
         == Some(OneText(key, v) + [COMMA, LF] + TWO_SPACES + Quote(other) + [COLON, SPACE] + Show(w, [LF] + TWO_SPACES)
                 + [LF, CLOSE_BRACE, LF])
  {
    hide Quote, Show, DocText, DocRoot, GoodDoc, EditDoc, PositionsOf, InsertProperty, InferIndent, NewlineOf, Inserted,
      Ascii, One, ReadDoc, WellFormed, MultiLine, HasCrlf, LacksComma, IsPair, Print, KeyOf;
    var d := One(key, v);
    var s, root := DocText(d), DocRoot(d);
    EmptyText();
    FirstEdit(key, v);
    EditRefines(EMPTY_DOC, key, v);
    EditCrlf(EMPTY_DOC, key, v);
    OneIs(key, v);
    OneKeyIs(key, v, other);
    WriteThenRead(d);
    EmptyPairs();
    NoPairs(s);
    var q, p := InsertedExactly(d, other, w);
    assert LacksComma(d) by { LastLacks(key, v); }
    TwoSpaces();
    SecondText(s, root, other, w, q, p, InferIndent(s, root), NewlineOf(s), OneText(key, v), InsertProperty(s, root, other, w));
  }

  lemma LastLacks(key: Str, v: Json)
    ensures LacksComma(One(key, v))
  {
    hide Quote, Show;
  }

  lemma OneKeyIs(key: Str, v: Json, other: Str)
    requires WellFormed(v) && key != other
    ensures PositionsOf(DocRoot(One(key, v)).properties, other) == []
  {
    hide Show, KeyOf, Quote, InsertedMember, GoodDoc;
    EmptyText();
    FirstEdit(key, v);
    InsertedGood(EMPTY_DOC, key, v);
    assert One(key, v) == InsertedDoc(EMPTY_DOC, key, v);
    assert One(key, v).members == WithComma([]) + [InsertedMember(EMPTY_DOC, key, v)];
    assert One(key, v).members[0] == InsertedMember(EMPTY_DOC, key, v);
    OneKey(DocRoot(One(key, v)).properties, other);
  }

  /** What the exact form of an insertion says about this text. */
  lemma SecondText(
    s: Str, root: Root, key: Str, v: Json, q: nat, p: nat, indent: Str, nl: Str, one: Str, r: Str)
    requires s == one + [LF, CLOSE_BRACE, LF] && |one| >= 4 && one[..4] == [OPEN_BRACE, LF, SPACE, SPACE]
    requires root.closeIndex == |one| + 1 && |root.properties| == 1
    requires root.properties[0].keyStart == 4 && root.properties[0].valueEnd == |one|
    requires forall i: nat :: !IsPair(s, i)
    requires Inserted(s, root, key, v, true, q, p, indent, nl, r)
    ensures r == one + [COMMA, LF] + TWO_SPACES + Quote(key) + [COLON, SPACE] + Show(v, [LF] + TWO_SPACES) + [LF, CLOSE_BRACE, LF]
  {
    hide Quote, Show, Ascii, IsSpace;
    var close := |one| + 1;
    TwoSpaces();
    SpaceIs();
    assert s[1] == one[..4][1] && s[2] == one[..4][2] && s[3] == one[..4][3];
    assert s[2..4] == TWO_SPACES;
    assert FromLineStart(s, 2, 4, TWO_SPACES);
    assert Indents(s, 4, TWO_SPACES);
    var k: nat :| FromLineStart(s, k, 4, indent);
    OneIndent(s, 4, 2, TWO_SPACES, k, indent);
    assert s[close..close] == [];
    assert FromLineStart(s, close, close, []);
    assert Indents(s, close, []);
    var j: nat :| FromLineStart(s, j, close, s[p..close]);
    OneIndent(s, close, close, [], j, s[p..close]);
    assert p == close;
    assert s[..q] == one && s[q..p] == [LF] && s[p..] == [CLOSE_BRACE, LF];
  }

  lemma SpaceIs()
    ensures IsSpace(SPACE)
  {}

  // ---------------------------------------------------------------- the file

  /** A line break and the indentation behind it. */
  function Break(k: nat): Str { [0x0A] + seq(k, i => 0x20) }

  function Word(w: string): Str { [0x22] + Ascii(w) + [0x22] }

  function VariableText(name: string, value: Str): Str {
    Ascii("{") + Break(6) + Word("name") + Ascii(": ") + Word(name) + Ascii(",")
    + Break(6) + Word("value") + Ascii(": ") + Quote(value) + Break(4) + Ascii("}")
  }

  function VariablesText(t: Target): Str {
    Break(4) + VariableText("ANTHROPIC_BASE_URL", t.url) + Ascii(",")
    + Break(4) + VariableText("ANTHROPIC_AUTH_TOKEN", t.token) + Break(2)
  }

  /** The text of the file. */
  function FileText(t: Target): Str {
    Ascii("{")
    + Break(2) + Word("claudeCode.environmentVariables") + Ascii(": [") + VariablesText(t) + Ascii("],")
    + Break(2) + Word("claudeCode.disableLoginPrompt") + Ascii(": true")
    + Break(0) + Ascii("}") + Break(0)
  }

  lemma Breaks()
    ensures [LF] + TWO_SPACES == Break(2) && Break(2) + Ascii("  ") == Break(4) && Break(4) + Ascii("  ") == Break(6)
    ensures Break(0) == [LF]
  {}

  predicate IsPlainWord(w: string) { forall c <- w :: c == '.' || ('A' <= c <= 'z' && c != '\\') }

  lemma QuotedWord(w: string)
    requires IsPlainWord(w)
    ensures Quote(Ascii(w)) == Word(w)
  {
    hide Escape;
    var t := Ascii(w);
    forall u | u in t ensures 0x20 <= u < 0x7F && u != 0x22 && u != 0x5C {
      var i :| 0 <= i < |t| && t[i] == u;
      assert w[i] in w;
    }
    PlainEscape(t);
  }

  lemma Words()
    ensures Quote(NAME) == Word("name") && Quote(VALUE) == Word("value")
    ensures Quote(BASE_URL) == Word("ANTHROPIC_BASE_URL") && Quote(AUTH_TOKEN) == Word("ANTHROPIC_AUTH_TOKEN")
  {
    hide Quote, Word, Ascii;
    QuotedWord("name");
    QuotedWord("value");
    QuotedWord("ANTHROPIC_BASE_URL");
    QuotedWord("ANTHROPIC_AUTH_TOKEN");
  }

  lemma EnvironmentWord()
    ensures Quote(ENVIRONMENT) == Word("claudeCode.environmentVariables")
  {
    hide Quote, Word, Ascii;
    QuotedWord("claudeCode.environmentVariables");
  }

  lemma LoginWord()
    ensures Quote(DISABLE_LOGIN) == Word("claudeCode.disableLoginPrompt")
  {
    hide Quote, Word, Ascii;
    QuotedWord("claudeCode.disableLoginPrompt");
  }

  lemma VariableShown(name: Str, w: string, value: Str)
    requires Quote(name) == Word(w)
    ensures Show(Variable(name, value), Break(4)) == VariableText(w, value)
  {
    hide Quote, Word, Break, Ascii;
    Breaks();
    Words();
    var es := [Entry(NAME, JStr(name)), Entry(VALUE, JStr(value))];
    assert es[1..] == [es[1]] && [es[1]][1..] == [];
    TwoEntries(es[0], es[1], Break(6));
    OneEntry(es[1], Break(6));
  }

  lemma OneEntry(a: Entry, gap: Str)
    ensures ShowEntries([a], gap) == gap + Quote(a.key) + Ascii(": ") + Show(a.value, gap)
  {
    hide Quote, Ascii;
    assert [a][1..] == [];
  }

  lemma TwoEntries(a: Entry, b: Entry, gap: Str)
    ensures ShowEntries([a, b], gap)
         == gap + Quote(a.key) + Ascii(": ") + Show(a.value, gap) + Ascii(",") + ShowEntries([b], gap)
  {
    hide Quote, Ascii;
    assert [a, b][1..] == [b];
  }

  lemma TwoItems(a: Json, b: Json, gap: Str)
    ensures ShowItems([a, b], gap) == gap + Show(a, gap) + Ascii(",") + (gap + Show(b, gap))
  {
    hide Quote, Ascii, Show;
    assert [a, b][1..] == [b] && [b][1..] == [];
    assert ShowItems([b], gap) == gap + Show(b, gap) + [] + [];
    assert gap + Show(b, gap) + [] + [] == gap + Show(b, gap);
  }

  lemma ArrayShown(t: Target)
    ensures Show(JArr(Required(t)), Break(2)) == Ascii("[") + VariablesText(t) + Ascii("]")
  {
    hide Quote, Word, Break, Ascii, VariableText, Variable;
    Breaks();
    Words();
    VariableShown(BASE_URL, "ANTHROPIC_BASE_URL", t.url);
    VariableShown(AUTH_TOKEN, "ANTHROPIC_AUTH_TOKEN", t.token);
    TwoItems(Required(t)[0], Required(t)[1], Break(4));
  }

  /**
   * Repairing a missing file writes exactly this text.
   */
  lemma RepairWrites(t: Target)
    ensures Repaired(None, t) == Some(FileText(t))
  {
    hide Quote, Word, Break, Ascii, VariableText, Show, SetTop, DocText, GoodDoc, EditDoc, Required, One, WellFormed, MultiLine;
    var v := JArr(Required(t));
    EmptyText();
    EmptyRead();
    assert Desired([], t) == v by { assert [] + Required(t) == Required(t); }
    DesiredGood([], t);
    TrueValue();
    NamesDiffer();
    FirstEdit(ENVIRONMENT, v);
    EditRefines(EMPTY_DOC, ENVIRONMENT, v);
    SecondEdit(ENVIRONMENT, v, DISABLE_LOGIN, TRUE_VALUE);
    Assembled(t);
  }

  lemma EmptyRead()
    ensures ReadManaged(EMPTY_DOCUMENT) == Some(Settings([], false))
  {
    hide ReadDoc;
    EmptyText();
    WriteThenRead(EMPTY_DOC);
  }

  lemma Assembled(t: Target)
    ensures OneText(ENVIRONMENT, JArr(Required(t))) + [COMMA, LF] + TWO_SPACES + Quote(DISABLE_LOGIN) + [COLON, SPACE]
            + Show(TRUE_VALUE, [LF] + TWO_SPACES) + [LF, CLOSE_BRACE, LF]
         == FileText(t)
  {
    hide Quote, Word, Break, VariablesText, Required, Ascii, Show, OneText;
    Breaks();
    Marks();
    EnvironmentWord();
    LoginWord();
    TrueShown();
    ArrayShown(t);
    var x := VariablesText(t);
    OneShown(t, x);
    Joined(OneText(ENVIRONMENT, JArr(Required(t))), Ascii("{"), Break(2), Word("claudeCode.environmentVariables"), Ascii("["), x,
           Ascii("]"), [COMMA, LF], TWO_SPACES, Ascii(","), Word("claudeCode.disableLoginPrompt"), Ascii(": "), Ascii("true"),
           Break(0), Ascii("}"));
  }

  lemma OneShown(t: Target, x: Str)
    requires Show(JArr(Required(t)), Break(2)) == Ascii("[") + x + Ascii("]")
    ensures OneText(ENVIRONMENT, JArr(Required(t)))
         == (Ascii("{") + Break(2)) + Word("claudeCode.environmentVariables") + Ascii(": ") + (Ascii("[") + x + Ascii("]"))
  {
    hide Quote, Word, Break, Required, Ascii, Show;
    Breaks();
    Marks();
    EnvironmentWord();
  }

  lemma TrueShown()
    ensures Show(TRUE_VALUE, Break(2)) == Ascii("true")
  {}

  lemma Joined(one: Str, open: Str, g: Str, e: Str, left: Str, x: Str, right: Str, a: Str, b: Str, comma: Str, l: Str,
               colon: Str, w: Str, n: Str, close: Str)
    requires one == (open + g) + e + colon + (left + x + right) && a + b == comma + g
    ensures one + a + b + l + colon + w + (n + close + n)
         == open + g + e + (colon + left) + x + (right + comma) + g + l + (colon + w) + n + close + n
  {
    assert one + a + b == one + (comma + g);
  }

  lemma Marks()
    ensures [OPEN_BRACE] == Ascii("{") && [CLOSE_BRACE] == Ascii("}") && [COMMA] == Ascii(",")
    ensures [COLON, SPACE] == Ascii(": ") && Ascii(": [") == Ascii(": ") + Ascii("[") && Ascii("],") == Ascii("]") + Ascii(",")
    ensures Ascii(": true") == Ascii(": ") + Ascii("true")
    ensures [OPEN_BRACE, LF] + TWO_SPACES == Ascii("{") + Break(2)
    ensures [COMMA, LF] + TWO_SPACES == Ascii(",") + Break(2)
    ensures [LF, CLOSE_BRACE, LF] == Break(0) + Ascii("}") + Break(0)
  {}
}
