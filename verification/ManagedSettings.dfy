/** renderManagedSettings, managedSettingsMatch, and when rendering is a fixed point. */
module ManagedSettings {
  import opened Units
  import opened JsonText
  import opened JsonGrammar
  import opened JsoncGrammar
  import opened JsoncSoundness
  import opened JsoncPrint
  import opened JsoncEdit
  import opened JsoncEditLaw
  import opened JsoncFixedPoint
  import opened JsoncKeep

  const ENVIRONMENT: Str := Ascii("claudeCode.environmentVariables")
  const DISABLE_LOGIN: Str := Ascii("claudeCode.disableLoginPrompt")
  const BASE_URL: Str := Ascii("ANTHROPIC_BASE_URL")
  const AUTH_TOKEN: Str := Ascii("ANTHROPIC_AUTH_TOKEN")
  const NAME: Str := Ascii("name")
  const VALUE: Str := Ascii("value")

  lemma NamesDiffer()
    ensures ENVIRONMENT != DISABLE_LOGIN && BASE_URL != AUTH_TOKEN && NAME != VALUE
  {
    assert |ENVIRONMENT| == 31 && |DISABLE_LOGIN| == 29;
    assert |BASE_URL| == 18 && |AUTH_TOKEN| == 20;
    assert |NAME| == 4 && |VALUE| == 5;
  }

  datatype Target = Target(url: Str, token: Str)

  // ---------------------------------------------------------------- environment variables

  /** isManagedEnvironmentVariable. */
  predicate IsManaged(v: Json) {
    Field(v, NAME) == Some(JStr(BASE_URL)) || Field(v, NAME) == Some(JStr(AUTH_TOKEN))
  }

  function Managed(vs: seq<Json>): seq<Json> {
    if vs == [] then [] else (if IsManaged(vs[0]) then [vs[0]] else []) + Managed(vs[1..])
  }

  function Unmanaged(vs: seq<Json>): seq<Json> {
    if vs == [] then [] else (if IsManaged(vs[0]) then [] else [vs[0]]) + Unmanaged(vs[1..])
  }

  function Variable(name: Str, value: Str): Json {
    JObj([Entry(NAME, JStr(name)), Entry(VALUE, JStr(value))])
  }

  /** The two variables the target asks for. */
  function Required(t: Target): seq<Json> {
    [Variable(BASE_URL, t.url), Variable(AUTH_TOKEN, t.token)]
  }

  /** The array that renderManagedSettings writes. */
  function Desired(vs: seq<Json>, t: Target): Json {
    JArr(Unmanaged(vs) + Required(t))
  }

  lemma VariableFields(name: Str, value: Str)
    ensures Field(Variable(name, value), NAME) == Some(JStr(name))
    ensures Field(Variable(name, value), VALUE) == Some(JStr(value))
    ensures WellFormed(Variable(name, value))
  {
    NamesDiffer();
    var es := [Entry(NAME, JStr(name)), Entry(VALUE, JStr(value))];
    assert es[1..][0] == Entry(VALUE, JStr(value));
    assert FieldOf(es, VALUE) == FieldOf(es[1..], VALUE);
  }

  lemma FilterStep(v: Json, rest: seq<Json>)
    ensures Managed([v] + rest) == (if IsManaged(v) then [v] + Managed(rest) else Managed(rest))
    ensures Unmanaged([v] + rest) == (if IsManaged(v) then Unmanaged(rest) else [v] + Unmanaged(rest))
    ensures Managed([]) == [] == Unmanaged([])
  {
    hide IsManaged;
    assert ([v] + rest)[1..] == rest;
  }

  lemma {:induction false} FilterAppend(a: seq<Json>, b: seq<Json>)
    ensures Managed(a + b) == Managed(a) + Managed(b) && Unmanaged(a + b) == Unmanaged(a) + Unmanaged(b)
  {
    hide IsManaged, Managed, Unmanaged;
    if a == [] {
      assert a + b == b;
      FilterStep(JNull, b);
    } else {
      assert a == [a[0]] + a[1..] && a + b == [a[0]] + (a[1..] + b);
      FilterStep(a[0], a[1..]);
      FilterStep(a[0], a[1..] + b);
      FilterAppend(a[1..], b);
    }
  }

  lemma {:induction false} FilterTwice(vs: seq<Json>)
    ensures Managed(Unmanaged(vs)) == [] && Unmanaged(Unmanaged(vs)) == Unmanaged(vs)
  {
    hide IsManaged, Managed, Unmanaged;
    if vs == [] {
      FilterStep(JNull, vs);
    } else {
      assert vs == [vs[0]] + vs[1..];
      FilterStep(vs[0], vs[1..]);
      FilterStep(vs[0], Unmanaged(vs[1..]));
      FilterTwice(vs[1..]);
    }
  }

  lemma FilterRequired(t: Target)
    ensures Managed(Required(t)) == Required(t) && Unmanaged(Required(t)) == []
  {
    hide Field, Variable, Managed, Unmanaged;
    var a, b := Variable(BASE_URL, t.url), Variable(AUTH_TOKEN, t.token);
    VariableFields(BASE_URL, t.url);
    VariableFields(AUTH_TOKEN, t.token);
    FilterStep(a, [b]);
    FilterStep(b, []);
    assert [b] + [] == [b] && [a] + [b] == Required(t);
  }

  lemma FilterDesired(vs: seq<Json>, t: Target)
    ensures Managed(Desired(vs, t).items) == Required(t) && Unmanaged(Desired(vs, t).items) == Unmanaged(vs)
    ensures Desired(Desired(vs, t).items, t) == Desired(vs, t)
  {
    hide Managed, Unmanaged, Required;
    FilterAppend(Unmanaged(vs), Required(t));
    FilterTwice(vs);
    FilterRequired(t);
  }

  lemma {:induction false} UnmanagedKept(vs: seq<Json>)
    requires forall x <- vs :: WellFormed(x)
    ensures forall x <- Unmanaged(vs) :: WellFormed(x)
  {
    hide WellFormed, IsManaged;
    if vs != [] { UnmanagedKept(vs[1..]); }
  }

  lemma DesiredGood(vs: seq<Json>, t: Target)
    requires forall x <- vs :: WellFormed(x)
    ensures WellFormed(Desired(vs, t)) && MultiLine(Desired(vs, t))
  {
    hide Unmanaged, Variable;
    UnmanagedKept(vs);
    VariableFields(BASE_URL, t.url);
    VariableFields(AUTH_TOKEN, t.token);
  }

  // ---------------------------------------------------------------- reading

  datatype Setting = Absent | Broken | Found(v: Json)

  /** uniqueProperty and parseJsoncValue; Broken when either throws. */
  function SettingOf(s: Str, root: Root, key: Str): Setting {
    var ks := PositionsOf(root.properties, key);
    if |ks| > 1 then Broken
    else if ks == [] then Absent
    else
      var v := ParseJsonc(Slice(s, root.properties[ks[0]].valueStart, root.properties[ks[0]].valueEnd));
      if v.None? then Broken else Found(v.value)
  }

  datatype Settings = Settings(environment: seq<Json>, disableLogin: bool)

  /** readManagedSettings; None when it throws. */
  function ReadManaged(s: Str): Option<Settings> {
    var root := ScanRoot(s);
    if root.None? then None
    else
      var e, d := SettingOf(s, root.value, ENVIRONMENT), SettingOf(s, root.value, DISABLE_LOGIN);
      if e.Broken? || d.Broken? || (e.Found? && !e.v.JArr?) then None
      else Some(Settings(if e.Found? then e.v.items else [], d == Found(JBool(true))))
  }

  /** managedSettingsMatch, as inspect calls it: an error is a mismatch. */
  predicate Match(s: Str, t: Target) {
    var m := ReadManaged(s);
    m.Some? && m.value.disableLogin
    && var vs := Managed(m.value.environment);
       |vs| == 2
       && (exists v <- vs :: Field(v, NAME) == Some(JStr(BASE_URL)) && Field(v, VALUE) == Some(JStr(t.url)))
       && (exists v <- vs :: Field(v, NAME) == Some(JStr(AUTH_TOKEN)) && Field(v, VALUE) == Some(JStr(t.token)))
  }

  /** renderManagedSettings; None when it throws. */
  function Render(s: Str, t: Target): Option<Str> {
    var m := ReadManaged(s);
    if m.None? then None
    else
      var r := SetTop(s, ENVIRONMENT, Desired(m.value.environment, t));
      if r.None? then None else SetTop(r.value, DISABLE_LOGIN, JBool(true))
  }

  lemma MatchRequired(s: Str, t: Target)
    requires ReadManaged(s).Some? && ReadManaged(s).value.disableLogin
    requires Managed(ReadManaged(s).value.environment) == Required(t)
    ensures Match(s, t)
  {
    hide ReadManaged, Managed, Field, Variable;
    VariableFields(BASE_URL, t.url);
    VariableFields(AUTH_TOKEN, t.token);
    var r := Required(t);
    assert r[0] in r && r[1] in r;
  }

  lemma DropSound(t: Str)
    ensures ParseJsonc(t).Some? ==> WellFormed(ParseJsonc(t).value)
  {
    hide Strip, DropCommas, WellFormed, JsonParse;
    if ParseJsonc(t).Some? { JsonParseSound(DropCommas(Strip(t).value).value); }
  }

  lemma ReadSound(s: Str)
    requires ReadManaged(s).Some?
    ensures forall x <- ReadManaged(s).value.environment :: WellFormed(x)
  {
    hide ParseJsonc, ScanRoot, PositionsOf, WellFormed;
    var root := ScanRoot(s).value;
    var e := SettingOf(s, root, ENVIRONMENT);
    if e.Found? {
      var p := root.properties[PositionsOf(root.properties, ENVIRONMENT)[0]];
      DropSound(Slice(s, p.valueStart, p.valueEnd));
      ItemsGood(e.v);
    }
  }

  lemma ItemsGood(v: Json)
    requires v.JArr? && WellFormed(v)
    ensures forall x <- v.items :: WellFormed(x)
  {}

  /** A setting, read from the document. */
  lemma DocSetting(d: Doc, key: Str, k: nat)
    requires k < |d.members| && PositionsOf(DocRoot(d).properties, key) == [k]
    ensures var v := ParseJsonc(d.members[k].value);
            SettingOf(DocText(d), DocRoot(d), key) == if v.None? then Broken else Found(v.value)
  {
    hide ParseJsonc, DocText, DocRoot, PastValue, BeforeValue;
    RootMembers(d);
    ValueInText(d, k);
    SliceFacts(DocText(d), DocRoot(d).properties[k].valueStart, DocRoot(d).properties[k].valueEnd);
  }

  // ---------------------------------------------------------------- the two edits

  /** What the two edits make of a document. */
  datatype Run = Run(d: Doc, d1: Doc, d2: Doc, v: Json, k: nat)

  const TRUE_VALUE: Json := JBool(true)

  predicate IsRun(r: Run) {
    && GoodDoc(r.d) && GoodDoc(r.d1) && GoodDoc(r.d2) && WellFormed(r.v) && MultiLine(r.v)
    && EditDoc(r.d, ENVIRONMENT, r.v) == Some(r.d1)
    && EditDoc(r.d1, DISABLE_LOGIN, TRUE_VALUE) == Some(r.d2)
    && r.k < |r.d1.members| && r.k < |r.d2.members|
    && PositionsOf(DocRoot(r.d1).properties, ENVIRONMENT) == [r.k]
    && PositionsOf(DocRoot(r.d2).properties, ENVIRONMENT) == [r.k]
    && r.d1.members[r.k].value == EditText(DocText(r.d), DocRoot(r.d), ENVIRONMENT, r.v)
    && r.d2.members[r.k].value == r.d1.members[r.k].value
    && KeyOf(r.d2.members[r.k]) == ENVIRONMENT
    && KeyIndent(r.d2, r.k) == KeyIndent(r.d1, r.k)
  }

  lemma EditSome(d: Doc, key: Str, v: Json)
    requires |PositionsOf(DocRoot(d).properties, key)| <= 1
    ensures EditDoc(d, key, v).Some?
  {
    hide PositionsOf;
  }

  lemma RunEdits(d: Doc, v: Json) returns (r: Run)
    requires GoodDoc(d) && WellFormed(v) && MultiLine(v)
    requires |PositionsOf(DocRoot(d).properties, ENVIRONMENT)| <= 1
    requires |PositionsOf(DocRoot(d).properties, DISABLE_LOGIN)| <= 1
    ensures r.d == d && r.v == v && IsRun(r)
    ensures SetTop(DocText(d), ENVIRONMENT, v) == Some(DocText(r.d1))
    ensures SetTop(DocText(r.d1), DISABLE_LOGIN, TRUE_VALUE) == Some(DocText(r.d2))
  {
    hide DocText, DocRoot, GoodDoc, WellFormed, EditDoc, SetTop, PositionsOf, KeyIndent, EditText, MultiLine, KeyOf;
    TrueValue();
    NamesDiffer();
    EditSome(d, ENVIRONMENT, v);
    EditRefines(d, ENVIRONMENT, v);
    EditedValue(d, ENVIRONMENT, v);
    var d1 := EditDoc(d, ENVIRONMENT, v).value;
    EditPositions(d, ENVIRONMENT, v, DISABLE_LOGIN);
    EditSome(d1, DISABLE_LOGIN, TRUE_VALUE);
    EditRefines(d1, DISABLE_LOGIN, TRUE_VALUE);
    var d2 := EditDoc(d1, DISABLE_LOGIN, TRUE_VALUE).value;
    EditPositions(d1, DISABLE_LOGIN, TRUE_VALUE, ENVIRONMENT);
    var k := PositionsOf(DocRoot(d1).properties, ENVIRONMENT)[0];
    EditKeeps(d1, DISABLE_LOGIN, TRUE_VALUE, k);
    r := Run(d, d1, d2, v, k);
  }

  lemma TrueValue()
    ensures WellFormed(TRUE_VALUE) && !MultiLine(TRUE_VALUE)
  {}

  /** The second edit keeps the line break the array was formatted with. */
  lemma RunNewline(r: Run)
    requires IsRun(r)
    ensures NewlineOf(DocText(r.d2)) == NewlineOf(DocText(r.d1))
  {
    hide DocText, DocRoot, GoodDoc, WellFormed, EditDoc, PositionsOf, KeyIndent, MultiLine, KeyOf, HasCrlf, FormatValue,
      EditIndent;
    TrueValue();
    EditCrlf(r.d, ENVIRONMENT, r.v);
    EditCrlf(r.d1, DISABLE_LOGIN, TRUE_VALUE);
    var s, root := DocText(r.d), DocRoot(r.d);
    NewlineCases(s);
    EditIndentFacts(s, root, ENVIRONMENT);
    FormatCrlf(r.v, EditIndent(s, root, ENVIRONMENT), NewlineOf(s));
    if HasCrlf(s) { ValueCrlf(r.d2, r.k); }
  }

  lemma RunSettled(r: Run)
    requires IsRun(r)
    ensures SetTop(DocText(r.d2), ENVIRONMENT, r.v) == Some(DocText(r.d2))
       <==> Settles(DocText(r.d), DocRoot(r.d), ENVIRONMENT, r.v)
    ensures SetTop(DocText(r.d2), DISABLE_LOGIN, TRUE_VALUE) == Some(DocText(r.d2))
  {
    hide DocText, DocRoot, GoodDoc, WellFormed, EditDoc, PositionsOf, KeyIndent, KeyOf, NewlineOf, FormatValue, EditText,
      SetTop, AfterCr;
    TrueValue();
    RunNewline(r);
    SettledIff(r.d1, ENVIRONMENT, r.k, r.v);
    SettledIff(r.d2, ENVIRONMENT, r.k, r.v);
    EditTwice(r.d, ENVIRONMENT, r.v);
    EditTwice(r.d1, DISABLE_LOGIN, TRUE_VALUE);
    EditSettles(r.d1);
  }

  lemma EditSettles(d: Doc)
    ensures Settles(DocText(d), DocRoot(d), DISABLE_LOGIN, TRUE_VALUE)
  {
    TrueValue();
  }

  /** Rendering the result again, with the same array. */
  lemma RunAgain(r: Run, a: Run)
    requires IsRun(r) && IsRun(a) && a.d == r.d2 && a.v == r.v
    ensures DocText(a.d2) == DocText(r.d2) <==> Settles(DocText(r.d), DocRoot(r.d), ENVIRONMENT, r.v)
  {
    hide DocText, DocRoot, GoodDoc, WellFormed, PositionsOf, KeyIndent, KeyOf, NewlineOf, FormatValue, SetTop, EditDoc,
      IsRun, Settles, ReadDoc;
    RunSettled(r);
    RunParts(r);
    RunParts(a);
    RunParts2(r, a);
    WriteThenRead(r.d2);
    WriteThenRead(a.d2);
    WriteThenRead(a.d1);
  }

  lemma RunParts(r: Run)
    requires IsRun(r)
    ensures GoodDoc(r.d2) && GoodDoc(r.d1)
    ensures SetTop(DocText(r.d), ENVIRONMENT, r.v) == Some(DocText(r.d1))
    ensures SetTop(DocText(r.d1), DISABLE_LOGIN, TRUE_VALUE) == Some(DocText(r.d2))
  {
    hide DocText, DocRoot, GoodDoc, WellFormed, PositionsOf, KeyIndent, KeyOf, SetTop, EditDoc, EditText, MultiLine;
    TrueValue();
    EditRefines(r.d, ENVIRONMENT, r.v);
    EditRefines(r.d1, DISABLE_LOGIN, TRUE_VALUE);
  }

  lemma RunParts2(r: Run, a: Run)
    requires IsRun(r) && IsRun(a) && a.d == r.d2 && a.v == r.v
    ensures a.d2 == r.d2 ==> a.d1 == r.d2
  {
    hide DocText, DocRoot, GoodDoc, WellFormed, KeyIndent, KeyOf, FormatValue, EditText, MultiLine, SetTop;
    if a.d2 == r.d2 {
      assert a.k == [a.k][0] == [r.k][0] == r.k;
      assert a.d2.members[a.k].value == a.d1.members[a.k].value;
      EditDocSame(r.d2, r.k, ENVIRONMENT, r.v);
    }
  }

  /** Replacing a value by its own text gives the same document. */
  lemma EditDocSame(d: Doc, k: nat, key: Str, v: Json)
    requires k < |d.members| && PositionsOf(DocRoot(d).properties, key) == [k]
    requires EditText(DocText(d), DocRoot(d), key, v) == d.members[k].value
    ensures EditDoc(d, key, v) == Some(d)
  {
    hide DocText, DocRoot, EditText, PositionsOf;
    var text := d.members[k].value;
    assert d.members[k := d.members[k].(value := text)] == d.members;
  }

  // ---------------------------------------------------------------- the theorems

  lemma ReadBounds(s: Str)
    requires ReadManaged(s).Some?
    ensures ScanRoot(s).Some?
    ensures |PositionsOf(ScanRoot(s).value.properties, ENVIRONMENT)| <= 1
    ensures |PositionsOf(ScanRoot(s).value.properties, DISABLE_LOGIN)| <= 1
  {
    hide ScanRoot, PositionsOf, ParseJsonc;
  }

  /** The documents behind a rendering. */
  lemma RenderRun(s: Str, t: Target) returns (r: Run)
    requires ReadManaged(s).Some?
    ensures IsRun(r) && DocText(r.d) == s && ScanRoot(s) == Some(DocRoot(r.d))
    ensures r.v == Desired(ReadManaged(s).value.environment, t)
    ensures Render(s, t) == Some(DocText(r.d2))
  {
    hide ReadManaged, DocText, DocRoot, GoodDoc, WellFormed, PositionsOf, SetTop, IsRun, Desired, MultiLine;
    ReadBounds(s);
    ReadThenWrite(s);
    ReadSound(s);
    DesiredGood(ReadManaged(s).value.environment, t);
    r := RunEdits(ReadDoc(s).value, Desired(ReadManaged(s).value.environment, t));
  }

  lemma ReadFrom(s: Str, e: Setting, b: Setting)
    requires ScanRoot(s).Some?
    requires SettingOf(s, ScanRoot(s).value, ENVIRONMENT) == e && SettingOf(s, ScanRoot(s).value, DISABLE_LOGIN) == b
    requires b == Found(TRUE_VALUE)
    ensures e.Broken? ==> ReadManaged(s).None?
    ensures e.Found? && e.v.JArr? ==> ReadManaged(s) == Some(Settings(e.v.items, true))
  {
    hide ScanRoot, SettingOf;
  }

  /** What the rendered text says, read back. */
  lemma RunReads(r: Run)
    requires IsRun(r) && r.v.JArr?
    ensures var s := DocText(r.d2);
            ReadManaged(s) == if AllJsonSpace(EditIndent(DocText(r.d), DocRoot(r.d), ENVIRONMENT))
                              then Some(Settings(r.v.items, true)) else None
  {
    hide DocText, DocRoot, GoodDoc, WellFormed, PositionsOf, SetTop, EditDoc, ParseJsonc, EditIndent, KeyOf, IsValueText,
      KeyIndent, AllJsonSpace, EditText, SettingOf, ReadManaged, ReadDoc, ScanRoot;
    TrueValue();
    EditRefines(r.d1, DISABLE_LOGIN, TRUE_VALUE);
    EditedValue(r.d1, DISABLE_LOGIN, TRUE_VALUE);
    EditTextFacts(DocText(r.d), DocRoot(r.d), ENVIRONMENT, r.v);
    EditTextFacts(DocText(r.d1), DocRoot(r.d1), DISABLE_LOGIN, TRUE_VALUE);
    DocSetting(r.d2, ENVIRONMENT, r.k);
    var j := PositionsOf(DocRoot(r.d2).properties, DISABLE_LOGIN)[0];
    DocSetting(r.d2, DISABLE_LOGIN, j);
    var s := DocText(r.d2);
    ReadFrom(s, SettingOf(s, DocRoot(r.d2), ENVIRONMENT), SettingOf(s, DocRoot(r.d2), DISABLE_LOGIN));
  }

  /** JSON accepts the indentation of the environment array that Render writes. */
  predicate JsonIndented(s: Str) {
    ScanRoot(s).Some? && AllJsonSpace(EditIndent(s, ScanRoot(s).value, ENVIRONMENT))
  }

  /**
   * Rendering fails only when reading does. The result matches the target if and only if the environment array
   * is indented with whitespace that JSON allows; then the variables Stone+ does not own are all kept, in order,
   * followed by the two it requires. Otherwise the result cannot even be read.
   */
  lemma RenderMatches(s: Str, t: Target)
    ensures Render(s, t).None? <==> ReadManaged(s).None?
    ensures Render(s, t).Some? ==>
              (var r := Render(s, t).value;
               && (Match(r, t) <==> JsonIndented(s))
               && ReadManaged(r)
                  == (if JsonIndented(s) then Some(Settings(Unmanaged(ReadManaged(s).value.environment) + Required(t), true))
                      else None))
  {
    hide ReadManaged, Managed, Unmanaged, Required, EditIndent, AllJsonSpace, DocText, DocRoot, IsRun, SetTop, ScanRoot,
      Field;
    if ReadManaged(s).Some? {
      var run := RenderRun(s, t);
      RunReads(run);
      FilterDesired(ReadManaged(s).value.environment, t);
      if JsonIndented(s) { MatchRequired(Render(s, t).value, t); }
    }
  }

  /** Where a second rendering changes nothing. */
  predicate Stable(s: Str) {
    ScanRoot(s).Some?
    && var root := ScanRoot(s).value;
       (PositionsOf(root.properties, ENVIRONMENT) != [] || !AfterCr(s, root) || InferIndent(s, root) == TWO_SPACES)
  }

  lemma StableIs(s: Str, root: Root, v: Json)
    requires ScanRoot(s) == Some(root) && MultiLine(v)
    ensures Stable(s) <==> Settles(s, root, ENVIRONMENT, v)
  {
    hide ScanRoot, AfterCr, PositionsOf, InferIndent;
  }

  /**
   * Rendering is a fixed point: rendering a result again returns the same text if and only if the result can be
   * read and the environment array was not added right after a lone carriage return with another indentation.
   */
  lemma RenderTwice(s: Str, t: Target)
    requires Render(s, t).Some?
    ensures Render(Render(s, t).value, t) == Render(s, t) <==> JsonIndented(s) && Stable(s)
  {
    hide ReadManaged, Required, Unmanaged, EditIndent, DocText, DocRoot, IsRun, SetTop, ScanRoot, Match, JsonIndented,
      Stable, Settles, MultiLine, WellFormed;
    RenderMatches(s, t);
    var r := RenderRun(s, t);
    var s' := Render(s, t).value;
    if JsonIndented(s) {
      var a := RenderRun(s', t);
      FilterDesired(ReadManaged(s).value.environment, t);
      SameDoc(r, a);
      RunAgain(r, a);
      RunMulti(r);
      StableIs(s, DocRoot(r.d), r.v);
    }
  }

  lemma RunMulti(r: Run)
    requires IsRun(r)
    ensures MultiLine(r.v)
  {
    hide GoodDoc, WellFormed, EditDoc, DocText, DocRoot;
  }

  lemma SameDoc(r: Run, a: Run)
    requires IsRun(r) && IsRun(a) && DocText(a.d) == DocText(r.d2)
    ensures a.d == r.d2
  {
    hide DocText, DocRoot, WellFormed, PositionsOf, SetTop, KeyOf, KeyIndent, EditText, ReadDoc;
    WriteThenRead(a.d);
    WriteThenRead(r.d2);
  }

  // ---------------------------------------------------------------- the other settings

  function Missing(root: Root, key: Str): seq<Str> {
    if PositionsOf(root.properties, key) == [] then [key] else []
  }

  lemma EditView(d: Doc, key: Str, v: Json)
    requires GoodDoc(d) && WellFormed(v) && EditDoc(d, key, v).Some?
    ensures var d', s, root := EditDoc(d, key, v).value, DocText(d), DocRoot(d);
            && Keys(DocRoot(d')) == Keys(root) + Missing(root, key)
            && |ValueTexts(s, root)| == |Keys(root)| <= |ValueTexts(DocText(d'), DocRoot(d'))|
            && (forall i :: 0 <= i < |Keys(root)| && Keys(root)[i] != key ==>
                  ValueTexts(DocText(d'), DocRoot(d'))[i] == ValueTexts(s, root)[i])
  {
    hide DocText, DocRoot, GoodDoc, WellFormed, ReplacedDoc, InsertedDoc, EditText, Literal, InsertedMember, KeyIndent,
      InferIndent;
    RootMembers(d);
    DocKeysAndValues(d);
    if PositionsOf(DocRoot(d).properties, key) == [] {
      InsertedGood(d, key, v);
      InsertedView(d, key, v);
    } else {
      PositionsName(DocRoot(d).properties, key);
      ReplacedView(d, PositionsOf(DocRoot(d).properties, key)[0], EditText(DocText(d), DocRoot(d), key, v));
    }
  }

  /** Rendering keeps every setting in its place, appends the missing ones, and leaves all other values' texts alone. */
  lemma RenderKeeps(s: Str, t: Target)
    requires Render(s, t).Some?
    ensures ScanRoot(s).Some? && ScanRoot(Render(s, t).value).Some?
    ensures var s', root, root' := Render(s, t).value, ScanRoot(s).value, ScanRoot(Render(s, t).value).value;
            && Keys(root') == Keys(root) + (Missing(root, ENVIRONMENT) + Missing(root, DISABLE_LOGIN))
            && |ValueTexts(s, root)| == |Keys(root)| <= |ValueTexts(s', root')|
            && (forall i :: 0 <= i < |Keys(root)| && Keys(root)[i] != ENVIRONMENT && Keys(root)[i] != DISABLE_LOGIN ==>
                  ValueTexts(s', root')[i] == ValueTexts(s, root)[i])
  {
    hide ReadManaged, DocText, DocRoot, GoodDoc, WellFormed, PositionsOf, EditDoc, KeyIndent, EditText, Desired, MultiLine,
      SetTop, ReadDoc, KeyOf, Keys, ValueTexts;
    var r := RenderRun(s, t);
    NamesDiffer();
    TrueValue();
    WriteThenRead(r.d2);
    EditView(r.d, ENVIRONMENT, r.v);
    EditView(r.d1, DISABLE_LOGIN, TRUE_VALUE);
    EditPositions(r.d, ENVIRONMENT, r.v, DISABLE_LOGIN);
    var ks, ks1 := Keys(DocRoot(r.d)), Keys(DocRoot(r.d1));
    assert forall i :: 0 <= i < |ks| ==> ks1[i] == ks[i];
  }

  /** A document indented by a no-break space: it renders, but the result does not match. */
  lemma UnreadableExample(t: Target)
    ensures var s := DocText(OneMember(0xA0, LF));
            Render(s, t).Some? && !Match(Render(s, t).value, t)
  {
    hide OneMember, DocText, DocRoot, GoodDoc, Render, Match, EditIndent, ReadDoc, SettingOf, IndentationAt, PositionsOf;
    var d := OneMember(0xA0, LF);
    OneMemberGood(0xA0, LF);
    OneMemberText(0xA0, LF);
    WriteThenRead(d);
    OneMemberIndent();
    RenderMatches(DocText(d), t);
  }

  lemma OneKey(ps: seq<Property>, key: Str)
    requires |ps| == 1 && ps[0].key != key
    ensures PositionsOf(ps, key) == []
  {
    assert ps[..0] == [];
  }

  lemma OneMemberIndent()
    ensures var d := OneMember(0xA0, LF);
            && !AllJsonSpace(EditIndent(DocText(d), DocRoot(d), ENVIRONMENT))
            && SettingOf(DocText(d), DocRoot(d), ENVIRONMENT) == Absent
            && SettingOf(DocText(d), DocRoot(d), DISABLE_LOGIN) == Absent
  {
    hide OneMember, DocText, DocRoot, AfterLastLf, ParseJsonc, PositionsOf;
    OneMemberText(0xA0, LF);
    var s := DocText(OneMember(0xA0, LF));
    NamesDiffer();
    assert Slice(s, 0, 3) == s[..3];
    AfterLfIs(s[..3], 2);
    assert Slice(s, 2, 3) == [0xA0];
    assert 0xA0 in Slice(s, 2, 3);
    OneKey(DocRoot(OneMember(0xA0, LF)).properties, ENVIRONMENT);
    OneKey(DocRoot(OneMember(0xA0, LF)).properties, DISABLE_LOGIN);
  }
}
