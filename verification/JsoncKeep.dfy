/** What an edit leaves as it was at the other properties: their texts, and how they are indented. */
module JsoncKeep {
  import opened Units
  import opened JsonText
  import opened JsonGrammar
  import opened JsoncGrammar
  import opened JsoncSoundness
  import opened JsoncPrint
  import opened JsoncEdit
  import opened JsoncEditLaw
  import opened JsoncFixedPoint

  // ---------------------------------------------------------------- the text before a key

  function BeforeKey(d: Doc, k: nat): Str
    requires k < |d.members|
  {
    d.lead + ([OPEN_BRACE] + (MembersText(d.members[..k]) + d.members[k].pre))
  }

  lemma {:induction false} UpToText(ms: seq<Member>, k: nat)
    requires k < |ms|
    ensures UpToValue(ms, k)
         == MembersText(ms[..k]) + (ms[k].pre + (ms[k].key + (ms[k].beforeColon + ([COLON] + ms[k].afterColon))))
    decreases k
  {
    hide MemberText;
    if k > 0 {
      UpToText(ms[1..], k - 1);
      assert ms[..k][1..] == ms[1..][..k - 1];
    }
  }

  lemma KeyInText(d: Doc, k: nat)
    requires k < |d.members|
    ensures k < |DocRoot(d).properties|
    ensures var i := DocRoot(d).properties[k].keyStart;
            i == |BeforeKey(d, k)| <= |DocText(d)| && DocText(d)[..i] == BeforeKey(d, k)
  {
    hide DocText, UpToValue, MembersText, Properties, BodyText, PastValue;
    RootMembers(d);
    UpToText(d.members, k);
    KeyStartBeforeValue(d.members, k, |d.lead| + 1);
    ValueInText(d, k);
    var m := d.members[k];
    var rest := m.key + (m.beforeColon + ([COLON] + m.afterColon));
    assert BeforeValue(d, k) == BeforeKey(d, k) + rest;
    assert DocText(d)[..|BeforeValue(d, k)|][..|BeforeKey(d, k)|] == BeforeKey(d, k);
  }

  /** The indentation the editor finds at a property. */
  function KeyIndent(d: Doc, k: nat): Str
    requires k < |d.members|
  {
    IndentationAt(BeforeKey(d, k), |BeforeKey(d, k)|)
  }

  lemma KeyIndentIs(d: Doc, k: nat)
    requires k < |d.members|
    ensures k < |DocRoot(d).properties|
    ensures IndentationAt(DocText(d), DocRoot(d).properties[k].keyStart) == KeyIndent(d, k)
  {
    hide DocText, DocRoot, BeforeKey, IndentationAt;
    KeyInText(d, k);
    var t := BeforeKey(d, k);
    assert t[..|t|] == t;
    IndentPrefix(DocText(d), t, |t|, |t|);
  }

  /** The line of a position does not depend on what stands before a comma in front of it. */
  lemma IndentSwap(a: Str, b: Str)
    requires COMMA in b
    ensures IndentationAt(a + b, |a + b|) == IndentationAt(b, |b|)
  {
    hide AfterLastLf, IsSpace;
    var t := a + b;
    CommaIsPlain();
    var n := AfterLastLf(b);
    assert Slice(t, 0, |t|) == t && Slice(b, 0, |b|) == b;
    var m := AfterLastLf(t);
    if LF in b {
      assert b[0..] == b;
      assert n > 0;
      assert t[|a| + n - 1] == b[n - 1];
      assert t[|a| + n..] == b[n..];
      AfterLfIs(t, |a| + n);
    } else {
      NoLfLine(b);
      assert t[|a|..] == b;
      assert !AllSpace(b);
      AfterLfWithin(t, b);
      assert Slice(t, m, |t|) == t[m..];
    }
  }

  lemma NoLfLine(b: Str)
    requires LF !in b
    ensures AfterLastLf(b) == 0 && b[0..] == b && Slice(b, 0, |b|) == b
  {
    assert b[0..] == b;
    AfterLfIs(b, 0);
  }

  // ---------------------------------------------------------------- replacing

  lemma {:induction false} CommaBefore(ms: seq<Member>, tail: Str, j: nat)
    requires GoodBody(ms, tail) && j < |ms| - 1
    ensures ms[j].comma
    decreases j
  {
    hide GoodMember;
    if j > 0 { CommaBefore(ms[1..], tail, j - 1); }
  }

  /** The text before a key, cut at the end of an earlier value. */
  lemma BeforeKeyCut(d: Doc, j: nat, k: nat)
    requires j < k < |d.members|
    ensures BeforeKey(d, k)
         == (d.lead + ([OPEN_BRACE] + (MembersText(d.members[..j]) + UntilValueEnd(d.members[j]))))
            + (AfterValue(d.members[j]) + (MembersText(d.members[j + 1..k]) + d.members[k].pre))
  {
    hide MembersText, UntilValueEnd, AfterValue, MemberText;
    var ms := d.members;
    assert ms[..k] == ms[..j] + ([ms[j]] + ms[j + 1..k]);
    MembersAppend(ms[..j], [ms[j]] + ms[j + 1..k]);
    MembersAppend([ms[j]], ms[j + 1..k]);
    MembersOne(ms[j]);
    MemberUntilValue(ms[j]);
  }

  lemma CommaInCut(m: Member, z: Str)
    requires m.comma
    ensures COMMA in AfterValue(m) + z
  {
    var t := AfterValue(m) + z;
    assert t[|m.post|] == COMMA;
  }

  lemma ReplacedKeeps(d: Doc, j: nat, text: Str, k: nat)
    requires GoodDoc(d) && j < |d.members| && k < |d.members| && k != j
    ensures var d' := ReplacedDoc(d, j, text);
            && d'.members[k] == d.members[k]
            && KeyIndent(d', k) == KeyIndent(d, k)
  {
    hide MembersText, IndentationAt, GoodMember, MemberText, AfterValue, UntilValueEnd;
    var d' := ReplacedDoc(d, j, text);
    if k < j {
      assert d'.members[..k] == d.members[..k];
    } else {
      hide BeforeKey;
      CommaBefore(d.members, d.tail, j);
      BeforeKeyCut(d, j, k);
      BeforeKeyCut(d', j, k);
      assert d'.members[j + 1..k] == d.members[j + 1..k];
      AfterSame(d.members[j], d'.members[j]);
      var z := MembersText(d.members[j + 1..k]) + d.members[k].pre;
      CommaInCut(d.members[j], z);
      IndentSwap(d.lead + ([OPEN_BRACE] + (MembersText(d.members[..j]) + UntilValueEnd(d.members[j]))), AfterValue(d.members[j]) + z);
      IndentSwap(d'.lead + ([OPEN_BRACE] + (MembersText(d'.members[..j]) + UntilValueEnd(d'.members[j]))), AfterValue(d.members[j]) + z);
    }
  }

  lemma AfterSame(a: Member, b: Member)
    requires a.(value := b.value) == b
    ensures AfterValue(a) == AfterValue(b)
  {}

  // ---------------------------------------------------------------- either edit

  lemma InsertedKeeps(d: Doc, key: Str, v: Json, k: nat)
    requires k < |d.members|
    ensures var d' := InsertedDoc(d, key, v);
            && k < |d'.members|
            && d'.members[k].value == d.members[k].value && d'.members[k].key == d.members[k].key
            && KeyIndent(d', k) == KeyIndent(d, k)
  {
    hide MembersText, IndentationAt, DocText, DocRoot, InsertedMember;
    var d' := InsertedDoc(d, key, v);
    assert d'.members[..k] == d.members[..k];
  }

  /** Every other property keeps its key, the text of its value and its indentation. */
  lemma EditKeeps(d: Doc, key: Str, v: Json, k: nat)
    requires GoodDoc(d) && EditDoc(d, key, v).Some? && k < |d.members| && KeyOf(d.members[k]) != key
    ensures var d' := EditDoc(d, key, v).value;
            && k < |d'.members|
            && d'.members[k].value == d.members[k].value && KeyOf(d'.members[k]) == KeyOf(d.members[k])
            && KeyIndent(d', k) == KeyIndent(d, k)
  {
    hide GoodDoc, DocRoot, DocText, InsertedDoc, KeyIndent, EditText, Literal, ValueTexts;
    RootMembers(d);
    DocKeysAndValues(d);
    var ks := PositionsOf(DocRoot(d).properties, key);
    if ks == [] {
      InsertedKeeps(d, key, v, k);
    } else {
      assert Keys(DocRoot(d))[ks[0]] == key;
      ReplacedKeeps(d, ks[0], EditText(DocText(d), DocRoot(d), key, v), k);
    }
  }

  lemma {:induction false} PositionsSnoc(ps: seq<Property>, qs: seq<Property>, key: Str)
    requires |qs| == |ps| + 1 && qs[|ps|].key != key && forall i :: 0 <= i < |ps| ==> ps[i].key == qs[i].key
    ensures PositionsOf(qs, key) == PositionsOf(ps, key)
  {
    PositionsByKey(ps, qs[..|ps|], key);
  }

  /** Other keys stay where they were. */
  lemma EditPositions(d: Doc, key: Str, v: Json, other: Str)
    requires GoodDoc(d) && WellFormed(v) && EditDoc(d, key, v).Some? && other != key
    ensures PositionsOf(DocRoot(EditDoc(d, key, v).value).properties, other) == PositionsOf(DocRoot(d).properties, other)
  {
    hide DocText, DocRoot, GoodDoc, WellFormed, ReplacedDoc, InsertedDoc, EditText, KeyOf, InsertedMember, ValueTexts,
      PositionsOf;
    RootMembers(d);
    var ps := DocRoot(d).properties;
    var ks := PositionsOf(ps, key);
    MatchesInRange(ps, key);
    DocKeysAndValues(d);
    var qs := DocRoot(EditDoc(d, key, v).value).properties;
    if ks == [] {
      InsertedGood(d, key, v);
      InsertedView(d, key, v);
      var keys := Keys(DocRoot(InsertedDoc(d, key, v)));
      assert forall i :: 0 <= i < |ps| ==> ps[i].key == Keys(DocRoot(d))[i] == keys[i] == qs[i].key;
      assert keys[|ps|] == key;
      PositionsSnoc(ps, qs, other);
    } else {
      ReplacedView(d, ks[0], EditText(DocText(d), DocRoot(d), key, v));
      var keys := Keys(DocRoot(ReplacedDoc(d, ks[0], EditText(DocText(d), DocRoot(d), key, v))));
      assert forall i :: 0 <= i < |ps| ==> ps[i].key == Keys(DocRoot(d))[i] == keys[i] == qs[i].key;
      PositionsByKey(ps, qs, other);
    }
  }

  // ---------------------------------------------------------------- line breaks

  lemma ReplacedCrlf(d: Doc, k: nat, text: Str)
    requires GoodDoc(d) && k < |d.members| && IsValueText(text) && !HasCrlf(text)
    requires HasCrlf(DocText(ReplacedDoc(d, k, text)))
    ensures HasCrlf(DocText(d))
  {
    hide HasCrlf, DocText, BeforeValue, PastValue, UpToValue, IsValueText, GoodBody, Closed, Skip, Properties, BodyText,
      DocRoot;
    RootMembers(d);
    ReplacedText(d, k, text);
    ValueInText(d, k);
    var a, m, z := BeforeValue(d, k), d.members[k].value, PastValue(d.members, k, d.tail) + d.trail;
    var p := DocRoot(d).properties[k];
    var s := DocText(d);
    assert s == s[..p.valueStart] + (s[p.valueStart..p.valueEnd] + s[p.valueEnd..]);
    MemberValue(d.members, d.tail, k);
    FormatBounds(m);
    FormatBounds(text);
    CrlfReplace(a, m, z);
    CrlfReplace(a, text, z);
  }

  /** An edit adds no first CRLF. */
  lemma EditCrlf(d: Doc, key: Str, v: Json)
    requires GoodDoc(d) && WellFormed(v) && EditDoc(d, key, v).Some?
    ensures HasCrlf(DocText(EditDoc(d, key, v).value)) ==> HasCrlf(DocText(d))
    ensures MultiLine(v) ==> HasCrlf(DocText(EditDoc(d, key, v).value)) == HasCrlf(DocText(d))
  {
    hide DocText, DocRoot, GoodDoc, WellFormed, ReplacedDoc, InsertedDoc, HasCrlf, PositionsOf, IsValueText, ParseJsonc,
      MultiLine, EditIndent, FormatValue, NewlineOf;
    RootMembers(d);
    var s, root := DocText(d), DocRoot(d);
    var ks := PositionsOf(root.properties, key);
    MatchesInRange(root.properties, key);
    if ks == [] {
      InsertedNewline(d, key, v);
    } else {
      var text := EditText(s, root, key, v);
      EditTextFacts(s, root, key, v);
      EditIndentFacts(s, root, key);
      NewlineCases(s);
      FormatCrlf(v, EditIndent(s, root, key), NewlineOf(s));
      if MultiLine(v) {
        ReplacedNewline(d, ks[0], v, text);
      } else if HasCrlf(DocText(ReplacedDoc(d, ks[0], text))) {
        ReplacedCrlf(d, ks[0], text);
      }
    }
  }

  lemma ValueCrlf(d: Doc, k: nat)
    requires k < |d.members| && HasCrlf(d.members[k].value)
    ensures HasCrlf(DocText(d))
  {
    hide HasCrlf, DocText, DocRoot, PastValue, BeforeValue;
    RootMembers(d);
    ValueInText(d, k);
    var s, p := DocText(d), DocRoot(d).properties[k];
    assert s == s[..p.valueStart] + (s[p.valueStart..p.valueEnd] + s[p.valueEnd..]);
    CrlfAppend(s[p.valueStart..p.valueEnd], s[p.valueEnd..]);
    CrlfAppend(s[..p.valueStart], s[p.valueStart..p.valueEnd] + s[p.valueEnd..]);
  }

  // ---------------------------------------------------------------- settled properties

  /** Writing `v` again at property `k` would change nothing. */
  predicate SettledAt(d: Doc, k: nat, v: Json)
    requires k < |d.members|
  {
    d.members[k].value == FormatValue(v, KeyIndent(d, k), NewlineOf(DocText(d)))
  }

  lemma SettledIff(d: Doc, key: Str, k: nat, v: Json)
    requires GoodDoc(d) && k < |d.members| && PositionsOf(DocRoot(d).properties, key) == [k]
    ensures SetTop(DocText(d), key, v) == Some(DocText(d)) <==> SettledAt(d, k, v)
  {
    hide DocText, DocRoot, GoodDoc, FormatValue, NewlineOf, KeyIndent, IndentationAt, ReplaceValue, PastValue, BeforeValue,
      ReadDoc;
    WriteThenRead(d);
    KeyIndentIs(d, k);
    ValueInText(d, k);
    ReplaceSame(DocText(d), DocRoot(d).properties[k], v);
  }

  /** The value an edit leaves, in place. */
  lemma EditedValue(d: Doc, key: Str, v: Json)
    requires GoodDoc(d) && WellFormed(v) && EditDoc(d, key, v).Some?
    ensures var d', ks := EditDoc(d, key, v).value, PositionsOf(DocRoot(d).properties, key);
            var k := if ks == [] then |d.members| else ks[0];
            && k < |d'.members| && PositionsOf(DocRoot(d').properties, key) == [k]
            && d'.members[k].value == EditText(DocText(d), DocRoot(d), key, v)
            && KeyOf(d'.members[k]) == key && |d.members| <= |d'.members|
  {
    hide DocText, DocRoot, GoodDoc, WellFormed, EditText, PositionsOf, InsertedMember, Literal, ValueTexts, FormatValue,
      NewlineOf, InferIndent;
    RootMembers(d);
    MatchesInRange(DocRoot(d).properties, key);
    EditedPosition(d, key, v);
    DocKeysAndValues(d);
    if PositionsOf(DocRoot(d).properties, key) == [] {
      AppendedShape(d, key, v);
      InsertedGood(d, key, v);
      EditTextNone(DocText(d), DocRoot(d), key, v);
    } else {
      PositionsName(DocRoot(d).properties, key);
    }
  }

  lemma PositionsName(ps: seq<Property>, key: Str)
    requires PositionsOf(ps, key) != []
    ensures var k := PositionsOf(ps, key)[0]; k < |ps| && ps[k].key == key
  {}
}
