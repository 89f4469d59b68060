/** What an edit changes, what it keeps, and exactly when a second one changes nothing. */
module JsoncEditLaw {
  import opened Units
  import opened JsonText
  import opened JsonGrammar
  import opened JsoncGrammar
  import opened JsoncSoundness
  import opened JsoncPrint
  import opened JsoncEdit

  // ---------------------------------------------------------------- replacing a value

  function ReplacedDoc(d: Doc, k: nat, text: Str): Doc
    requires k < |d.members|
  {
    d.(members := d.members[k := d.members[k].(value := text)])
  }

  lemma {:induction false} UpToSame(ms: seq<Member>, k: nat, text: Str)
    requires k < |ms|
    ensures UpToValue(ms[k := ms[k].(value := text)], k) == UpToValue(ms, k)
    decreases k
  {
    var ms' := ms[k := ms[k].(value := text)];
    if k > 0 {
      UpToSame(ms[1..], k - 1, text);
      assert ms'[1..] == ms[1..][k - 1 := ms[k].(value := text)];
    }
  }

  lemma {:induction false} PastSame(ms: seq<Member>, k: nat, text: Str, tail: Str)
    requires k < |ms|
    ensures PastValue(ms[k := ms[k].(value := text)], k, tail) == PastValue(ms, k, tail)
    decreases k
  {
    hide BodyText;
    var ms' := ms[k := ms[k].(value := text)];
    if k > 0 {
      PastSame(ms[1..], k - 1, text, tail);
      assert ms'[1..] == ms[1..][k - 1 := ms[k].(value := text)];
    } else {
      assert ms'[1..] == ms[1..];
    }
  }

  lemma {:induction false} GoodReplaced(ms: seq<Member>, tail: Str, k: nat, text: Str)
    requires GoodBody(ms, tail) && k < |ms| && IsValueText(text)
    ensures GoodBody(ms[k := ms[k].(value := text)], tail)
    decreases k
  {
    hide Closed, IsValueText, IsStringText, Literal;
    var ms' := ms[k := ms[k].(value := text)];
    if k > 0 {
      GoodReplaced(ms[1..], tail, k - 1, text);
      assert ms'[1..] == ms[1..][k - 1 := ms[k].(value := text)];
    } else {
      assert ms'[1..] == ms[1..];
    }
  }

  lemma ReplacedText(d: Doc, k: nat, text: Str)
    requires k < |d.members|
    ensures DocText(ReplacedDoc(d, k, text))
         == BeforeValue(d, k) + (text + (PastValue(d.members, k, d.tail) + d.trail))
  {
    hide UpToValue, PastValue, BodyText, Properties, DocText;
    UpToSame(d.members, k, text);
    PastSame(d.members, k, text, d.tail);
    var d' := ReplacedDoc(d, k, text);
    ValueInText(d', k);
    var s := DocText(d');
    var p := DocRoot(d').properties[k];
    assert s == s[..p.valueStart] + (s[p.valueStart..p.valueEnd] + s[p.valueEnd..]);
    assert BeforeValue(d', k) == BeforeValue(d, k);
  }

  /** Replacing a value in the text is replacing it in the document. */
  lemma ReplaceLaw(d: Doc, k: nat, v: Json)
    requires k < |d.members|
    ensures var s, p := DocText(d), DocRoot(d).properties[k];
            ReplaceValue(s, p, v) == DocText(ReplacedDoc(d, k, FormatValue(v, IndentationAt(s, p.keyStart), NewlineOf(s))))
  {
    hide DocText, FormatValue, IndentationAt, NewlineOf, PastValue, BeforeValue, DocRoot, ReplacedDoc;
    RootMembers(d);
    var s, p := DocText(d), DocRoot(d).properties[k];
    var text := FormatValue(v, IndentationAt(s, p.keyStart), NewlineOf(s));
    ValueInText(d, k);
    ReplacedText(d, k, text);
    SliceFacts(s, p.valueStart, p.valueEnd);
    assert s == s[..p.valueStart] + (s[p.valueStart..p.valueEnd] + s[p.valueEnd..]);
  }

  lemma SliceFacts(s: Str, a: nat, b: nat)
    requires a <= b <= |s|
    ensures Slice(s, 0, a) == s[..a] && Slice(s, a, b) == s[a..b] && SliceFrom(s, b) == s[b..]
  {}

  // ---------------------------------------------------------------- both edits

  /** The indentation a value is formatted with. */
  function EditIndent(s: Str, root: Root, key: Str): Str {
    var ks := PositionsOf(root.properties, key);
    if ks == [] then InferIndent(s, root) else IndentationAt(s, root.properties[ks[0]].keyStart)
  }

  function EditText(s: Str, root: Root, key: Str, v: Json): Str {
    FormatValue(v, EditIndent(s, root, key), NewlineOf(s))
  }

  /** setTopLevelProperty on documents; None for a key that occurs more than once. */
  function EditDoc(d: Doc, key: Str, v: Json): Option<Doc> {
    var ks := PositionsOf(DocRoot(d).properties, key);
    if |ks| > 1 then None
    else if |ks| == 1 then Some(ReplacedDoc(d, ks[0], EditText(DocText(d), DocRoot(d), key, v)))
    else Some(InsertedDoc(d, key, v))
  }

  lemma EditTextFacts(s: Str, root: Root, key: Str, v: Json)
    requires WellFormed(v)
    ensures IsValueText(EditText(s, root, key, v))
    ensures ParseJsonc(EditText(s, root, key, v))
         == if MultiLine(v) && !AllJsonSpace(EditIndent(s, root, key)) then None else Some(v)
  {
    hide IsSpace, IsValueText, ParseJsonc, FormatValue, InferIndent, IndentationAt, NewlineOf, WellFormed;
    NewlineSpace(s);
    InferSpace(s, root);
    var ks := PositionsOf(root.properties, key);
    if ks != [] { IndentSpace(s, root.properties[ks[0]].keyStart); }
    FormatFacts(v, EditIndent(s, root, key), NewlineOf(s));
  }

  /** The text edit refines the document edit, which keeps documents well formed. */
  lemma EditRefines(d: Doc, key: Str, v: Json)
    requires GoodDoc(d) && WellFormed(v)
    ensures var e := EditDoc(d, key, v);
            && SetTop(DocText(d), key, v) == (if e.None? then None else Some(DocText(e.value)))
            && (e.Some? ==> GoodDoc(e.value) && ScanRoot(DocText(e.value)) == Some(DocRoot(e.value)))
  {
    hide DocText, DocRoot, GoodBody, Closed, Skip, ReplacedDoc, InsertedDoc, EditText, WellFormed, IsValueText,
      ReplaceValue, InsertProperty, PositionsOf, ReadDoc, ParseJsonc;
    WriteThenRead(d);
    RootMembers(d);
    var s, root := DocText(d), DocRoot(d);
    var ks := PositionsOf(root.properties, key);
    MatchesInRange(root.properties, key);
    if |ks| == 1 {
      var text := EditText(s, root, key, v);
      EditTextFacts(s, root, key, v);
      ReplaceLaw(d, ks[0], v);
      EditTextOne(s, root, key, v);
      GoodReplaced(d.members, d.tail, ks[0], text);
      ReplacedGood(d, ks[0], text);
      WriteThenRead(ReplacedDoc(d, ks[0], text));
    } else if ks == [] {
      InsertLaw(d, key, v);
      InsertedGood(d, key, v);
      WriteThenRead(InsertedDoc(d, key, v));
    }
  }

  lemma MatchesInRange(ps: seq<Property>, key: Str)
    ensures var ks := PositionsOf(ps, key); ks != [] ==> ks[0] < |ps|
  {}

  lemma EditTextOne(s: Str, root: Root, key: Str, v: Json)
    requires PositionsOf(root.properties, key) != []
    ensures var k := PositionsOf(root.properties, key)[0];
            k < |root.properties|
            && EditText(s, root, key, v) == FormatValue(v, IndentationAt(s, root.properties[k].keyStart), NewlineOf(s))
  {}

  lemma ReplacedGood(d: Doc, k: nat, text: Str)
    requires GoodDoc(d) && k < |d.members| && GoodBody(d.members[k := d.members[k].(value := text)], d.tail)
    ensures GoodDoc(ReplacedDoc(d, k, text))
  {}

  // ---------------------------------------------------------------- the law, on source text

  function Keys(root: Root): (r: seq<Str>)
    ensures |r| == |root.properties|
  {
    seq(|root.properties|, i requires 0 <= i < |root.properties| => root.properties[i].key)
  }

  function ValueTexts(s: Str, root: Root): (r: seq<Str>)
    ensures |r| == |root.properties|
  {
    seq(|root.properties|, i requires 0 <= i < |root.properties| =>
      Slice(s, root.properties[i].valueStart, root.properties[i].valueEnd))
  }

  lemma DocKeysAndValues(d: Doc)
    ensures |Keys(DocRoot(d))| == |d.members| == |ValueTexts(DocText(d), DocRoot(d))|
    ensures forall i :: 0 <= i < |d.members| ==>
              Keys(DocRoot(d))[i] == KeyOf(d.members[i]) && ValueTexts(DocText(d), DocRoot(d))[i] == d.members[i].value
  {
    hide DocText, KeyOf, BodyText, Properties;
    RootMembers(d);
    var s := DocText(d);
    forall i | 0 <= i < |d.members|
      ensures Keys(DocRoot(d))[i] == KeyOf(d.members[i]) && ValueTexts(s, DocRoot(d))[i] == d.members[i].value
    {
      ValueInText(d, i);
      BodyAroundValue(d.members, d.tail, i, |d.lead| + 1);
      var p := DocRoot(d).properties[i];
      SliceFacts(s, p.valueStart, p.valueEnd);
    }
  }

  lemma ReplacedView(d: Doc, k: nat, text: Str)
    requires k < |d.members|
    ensures |Keys(DocRoot(d))| == |d.members| == |ValueTexts(DocText(d), DocRoot(d))|
    ensures var d' := ReplacedDoc(d, k, text);
            && Keys(DocRoot(d')) == Keys(DocRoot(d))
            && ValueTexts(DocText(d'), DocRoot(d')) == ValueTexts(DocText(d), DocRoot(d))[k := text]
  {
    hide DocText, DocRoot, Literal, Keys, ValueTexts;
    DocKeysAndValues(d);
    var d' := ReplacedDoc(d, k, text);
    DocKeysAndValues(d');
    assert KeyOf(d'.members[k]) == KeyOf(d.members[k]);
    assert forall i :: 0 <= i < |d.members| && i != k ==> d'.members[i] == d.members[i];
    var a, b := ValueTexts(DocText(d'), DocRoot(d')), ValueTexts(DocText(d), DocRoot(d))[k := text];
    assert a == b;
  }

  lemma InsertedView(d: Doc, key: Str, v: Json)
    requires KeyOf(InsertedMember(d, key, v)) == key
    ensures var d', s, root := InsertedDoc(d, key, v), DocText(d), DocRoot(d);
            && Keys(DocRoot(d')) == Keys(root) + [key]
            && ValueTexts(DocText(d'), DocRoot(d'))
            == ValueTexts(s, root) + [FormatValue(v, InferIndent(s, root), NewlineOf(s))]
  {
    hide DocText, DocRoot, Literal, Keys, ValueTexts, InferIndent, NewlineOf, FormatValue, KeyOf;
    var d', s, root, n := InsertedDoc(d, key, v), DocText(d), DocRoot(d), |d.members|;
    DocKeysAndValues(d);
    DocKeysAndValues(d');
    InsertedMembers(d, key, v);
    SnocEqual(Keys(root), Keys(DocRoot(d')), key);
    SnocEqual(ValueTexts(s, root), ValueTexts(DocText(d'), DocRoot(d')), FormatValue(v, InferIndent(s, root), NewlineOf(s)));
  }

  lemma InsertedMembers(d: Doc, key: Str, v: Json)
    ensures var d', n := InsertedDoc(d, key, v), |d.members|;
            && |d'.members| == n + 1
            && (forall i :: 0 <= i < n ==>
                  KeyOf(d'.members[i]) == KeyOf(d.members[i]) && d'.members[i].value == d.members[i].value)
            && d'.members[n] == InsertedMember(d, key, v)
            && d'.members[n].value == FormatValue(v, InferIndent(DocText(d), DocRoot(d)), NewlineOf(DocText(d)))
  {
    hide DocText, DocRoot, Literal, InferIndent, NewlineOf, FormatValue;
  }

  lemma SnocEqual<T>(a: seq<T>, b: seq<T>, x: T)
    requires |b| == |a| + 1 && (forall i :: 0 <= i < |a| ==> b[i] == a[i]) && b[|a|] == x
    ensures b == a + [x]
  {}

  /**
   * The edit law. On a document scanRootObject rejects, or with the key more than once, the edit throws.
   * Otherwise the result is accepted again; its keys are the same in the same order, with a new key last; every
   * other value keeps its text; and the key's value text parses to the given value, unless the value spans
   * lines and is indented with whitespace that JSON does not allow.
   */
  lemma EditLaw(s: Str, key: Str, v: Json)
    requires WellFormed(v)
    ensures ScanRoot(s).None? ==> SetTop(s, key, v).None?
    ensures ScanRoot(s).Some? ==>
              (var root := ScanRoot(s).value;
               var ks := PositionsOf(root.properties, key);
               var text := EditText(s, root, key, v);
               if |ks| > 1 then SetTop(s, key, v).None?
               else
                 && SetTop(s, key, v).Some?
                 && var s' := SetTop(s, key, v).value;
                 && ScanRoot(s').Some?
                 && var root' := ScanRoot(s').value;
                 && (|ks| == 1 ==>
                       ks[0] < |root.properties| && Keys(root') == Keys(root)
                       && ValueTexts(s', root') == ValueTexts(s, root)[ks[0] := text])
                 && (ks == [] ==>
                       Keys(root') == Keys(root) + [key] && ValueTexts(s', root') == ValueTexts(s, root) + [text])
                 && ParseJsonc(text)
                    == if MultiLine(v) && !AllJsonSpace(EditIndent(s, root, key)) then None else Some(v))
  {
    if ScanRoot(s).Some? {
      hide DocText, DocRoot, GoodDoc, ReplacedDoc, InsertedDoc, EditText, WellFormed, ParseJsonc, PositionsOf, Keys,
        ValueTexts, InsertedMember, EditIndent, AllJsonSpace, MultiLine, SetTop;
      ReadThenWrite(s);
      var d := ReadDoc(s).value;
      var root := DocRoot(d);
      RootMembers(d);
      var ks := PositionsOf(root.properties, key);
      MatchesInRange(root.properties, key);
      EditRefines(d, key, v);
      EditTextFacts(s, root, key, v);
      if |ks| == 1 {
        ReplacedView(d, ks[0], EditText(s, root, key, v));
      } else if ks == [] {
        InsertedGood(d, key, v);
        InsertedView(d, key, v);
        EditTextNone(s, root, key, v);
      }
    } else {
      NoEdit(s, key, v);
    }
  }

  lemma NoEdit(s: Str, key: Str, v: Json)
    requires ScanRoot(s).None?
    ensures SetTop(s, key, v).None?
  {
    hide ScanRoot;
  }

  lemma EditTextNone(s: Str, root: Root, key: Str, v: Json)
    requires PositionsOf(root.properties, key) == []
    ensures EditText(s, root, key, v) == FormatValue(v, InferIndent(s, root), NewlineOf(s))
  {}
}
