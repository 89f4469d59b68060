/** setTopLevelProperty, and the law it obeys on every document scanRootObject accepts. */
module JsoncEdit {
  import opened Units
  import opened JsonText
  import opened JsonGrammar
  import opened JsoncGrammar
  import opened JsoncSoundness
  import opened JsoncPrint

  // ---------------------------------------------------------------- the editor

  const TWO_SPACES: Str := [SPACE, SPACE]

  /** The length of the text up to and including its last line feed. */
  function AfterLastLf(t: Str): (n: nat)
    ensures n <= |t|
    ensures n > 0 ==> t[n - 1] == LF
    ensures LF !in t[n..]
  {
    if t == [] then 0
    else if t[|t| - 1] == LF then |t|
    else
      var n := AfterLastLf(t[..|t| - 1]);
      assert t[n..] == t[..|t| - 1][n..] + [t[|t| - 1]];
      n
  }

  /** lineStart, for an index after the first. */
  function LineStart(s: Str, index: nat): nat {
    AfterLastLf(Slice(s, 0, index))
  }

  function IndentationAt(s: Str, index: nat): Str {
    var prefix := Slice(s, LineStart(s, index), index);
    if AllSpace(prefix) then prefix else TWO_SPACES
  }

  function InferIndent(s: Str, root: Root): Str {
    if root.properties == [] then TWO_SPACES
    else
      var indent := IndentationAt(s, root.properties[0].keyStart);
      if indent == [] then TWO_SPACES else indent
  }

  predicate HasCrlf(s: Str) {
    exists i :: 0 <= i < |s| - 1 && s[i] == CR && s[i + 1] == LF
  }

  function NewlineOf(s: Str): Str { if HasCrlf(s) then [CR, LF] else [LF] }

  predicate EndsWithBreak(s: Str) {
    s != [] && (s[|s| - 1] == LF || s[|s| - 1] == CR)
  }

  /** The positions of the properties named `key`. */
  function PositionsOf(ps: seq<Property>, key: Str): (r: seq<nat>)
    ensures forall k :: 0 <= k < |r| ==> r[k] < |ps| && ps[r[k]].key == key
    ensures forall i :: 0 <= i < |ps| && ps[i].key == key ==> i in r
  {
    if ps == [] then []
    else
      var r := PositionsOf(ps[..|ps| - 1], key);
      if ps[|ps| - 1].key == key then r + [|ps| - 1] else r
  }

  datatype Edit = Edit(index: nat, text: Str)

  /** Places `e` after everything at its index or beyond: sorting with it is stable. */
  function Place(e: Edit, sorted: seq<Edit>): seq<Edit> {
    if sorted == [] then [e]
    else if sorted[0].index >= e.index then [sorted[0]] + Place(e, sorted[1..])
    else [e] + sorted
  }

  /** The stable sort by descending index. */
  function SortDescending(es: seq<Edit>): seq<Edit> {
    if es == [] then [] else Place(es[|es| - 1], SortDescending(es[..|es| - 1]))
  }

  function ApplyEdit(s: Str, e: Edit): Str {
    Slice(s, 0, e.index) + (e.text + SliceFrom(s, e.index))
  }

  function ApplyEdits(s: Str, es: seq<Edit>): Str
    decreases |es|
  {
    if es == [] then s else ApplyEdits(ApplyEdit(s, es[0]), es[1..])
  }

  /** Where a new property goes: the start of the closing brace's line, if only whitespace precedes the brace. */
  function InsertionIndex(s: Str, closeIndex: nat): nat {
    var start := LineStart(s, closeIndex);
    if AllSpace(Slice(s, start, closeIndex)) then start else closeIndex
  }

  function LeadingNewline(s: Str, insertion: nat): Str {
    if insertion > 0 && !EndsWithBreak(Slice(s, 0, insertion)) then NewlineOf(s) else []
  }

  /** hasCommaAfterValue; false also stands for the error skipTrivia cannot raise here. */
  predicate HasCommaAfter(s: Str, valueEnd: nat, closeIndex: nat) {
    var n := Skip(SliceFrom(s, valueEnd));
    n.Some? && valueEnd + n.value < closeIndex && Slice(s, valueEnd + n.value, valueEnd + n.value + 1) == [COMMA]
  }

  function PropertyText(s: Str, root: Root, key: Str, v: Json): Str {
    var indent := InferIndent(s, root);
    indent + (Quote(key) + ([COLON, SPACE] + FormatValue(v, indent, NewlineOf(s))))
  }

  function InsertProperty(s: Str, root: Root, key: Str, v: Json): Str {
    var insertion := InsertionIndex(s, root.closeIndex);
    var text := LeadingNewline(s, insertion) + (PropertyText(s, root, key, v) + NewlineOf(s));
    var n := |root.properties|;
    var comma := if n > 0 && !HasCommaAfter(s, root.properties[n - 1].valueEnd, root.closeIndex)
                 then [Edit(root.properties[n - 1].valueEnd, [COMMA])] else [];
    ApplyEdits(s, SortDescending([Edit(insertion, text)] + comma))
  }

  function ReplaceValue(s: Str, p: Property, v: Json): Str {
    var replacement := FormatValue(v, IndentationAt(s, p.keyStart), NewlineOf(s));
    if Slice(s, p.valueStart, p.valueEnd) == replacement then s
    else Slice(s, 0, p.valueStart) + (replacement + SliceFrom(s, p.valueEnd))
  }

  /** The edit of a scanned document; None for a key that occurs more than once. */
  function SetProperty(s: Str, root: Root, key: Str, v: Json): Option<Str> {
    var existing := PositionsOf(root.properties, key);
    if |existing| > 1 then None
    else if |existing| == 1 then Some(ReplaceValue(s, root.properties[existing[0]], v))
    else Some(InsertProperty(s, root, key, v))
  }

  /** setTopLevelProperty; None when it throws. */
  function SetTop(s: Str, key: Str, v: Json): Option<Str> {
    var root := ScanRoot(s);
    if root.None? then None else SetProperty(s, root.value, key, v)
  }

  // ---------------------------------------------------------------- the edit on documents

  /** All members, without the closing brace. */
  function MembersText(ms: seq<Member>): Str {
    if ms == [] then [] else MemberText(ms[0]) + MembersText(ms[1..])
  }

  lemma {:induction false} BodySplit(ms: seq<Member>, tail: Str)
    ensures BodyText(ms, tail) == MembersText(ms) + (tail + [CLOSE_BRACE])
  {
    hide MemberText;
    if ms == [] {
      assert [] + (tail + [CLOSE_BRACE]) == tail + [CLOSE_BRACE];
    } else {
      BodySplit(ms[1..], tail);
    }
  }

  lemma {:induction false} MembersAppend(a: seq<Member>, b: seq<Member>)
    ensures MembersText(a + b) == MembersText(a) + MembersText(b)
  {
    hide MemberText;
    if a == [] {
      assert a + b == b;
    } else {
      MembersAppend(a[1..], b);
      assert (a + b)[1..] == a[1..] + b;
    }
  }

  /** Whether the last value is followed by the closing brace, with only trivia between. */
  predicate LacksComma(d: Doc) {
    d.members != [] && !d.members[|d.members| - 1].comma
  }

  /** The trivia before the closing brace. */
  function LastGap(d: Doc): Str {
    if LacksComma(d) then d.members[|d.members| - 1].post else d.tail
  }

  function UntilValueEnd(m: Member): Str {
    m.pre + (m.key + (m.beforeColon + ([COLON] + m.afterColon))) + m.value
  }

  /** The text before that trivia. */
  function UntilGap(d: Doc): Str {
    d.lead + ([OPEN_BRACE]
              + if LacksComma(d) then
                  MembersText(d.members[..|d.members| - 1]) + UntilValueEnd(d.members[|d.members| - 1])
                else MembersText(d.members))
  }

  function CommaFor(d: Doc): Str { if LacksComma(d) then [COMMA] else [] }

  lemma {:induction false} LastMember(ms: seq<Member>, tail: Str)
    requires GoodBody(ms, tail) && ms != []
    ensures GoodMember(ms[|ms| - 1]) && (!ms[|ms| - 1].comma ==> tail == [])
    ensures forall i :: 0 <= i < |ms| - 1 ==> ms[i].comma
    ensures ms[|ms| - 1].comma ==> Closed(tail)
  {
    hide GoodMember, Closed;
    if |ms| > 1 {
      LastMember(ms[1..], tail);
      forall i | 0 <= i < |ms| - 1 ensures ms[i].comma {
        if i > 0 { assert ms[i] == ms[1..][i - 1]; }
      }
    }
  }

  lemma MemberUntilValue(m: Member)
    ensures MemberText(m) == UntilValueEnd(m) + AfterValue(m)
  {
    MemberAroundValue(m);
  }

  lemma TextAroundGap(d: Doc)
    requires GoodDoc(d)
    ensures DocText(d) == UntilGap(d) + (LastGap(d) + ([CLOSE_BRACE] + d.trail))
    ensures Closed(LastGap(d))
    ensures |UntilGap(d)| + |LastGap(d)| == DocRoot(d).closeIndex
  {
    hide MemberText, UntilValueEnd, MembersText, Closed, BodyText, Properties;
    var n := |d.members|;
    if n > 0 { LastMember(d.members, d.tail); }
    BodyAroundGap(d.members, d.tail);
    var m := if LacksComma(d) then MembersText(d.members[..n - 1]) + UntilValueEnd(d.members[n - 1])
             else MembersText(d.members);
    var g := LastGap(d);
    assert UntilGap(d) == d.lead + ([OPEN_BRACE] + m);
    Regroup(d.lead, m, g, d.trail);
    if LacksComma(d) { PostClosed(d.members[n - 1]); } else { GapWithoutComma(d); }
  }

  lemma Regroup(lead: Str, m: Str, g: Str, trail: Str)
    ensures lead + ([OPEN_BRACE] + (m + (g + [CLOSE_BRACE]) + trail))
         == lead + ([OPEN_BRACE] + m) + (g + ([CLOSE_BRACE] + trail))
  {}

  lemma BodyAroundGap(ms: seq<Member>, tail: Str)
    requires ms != [] && !ms[|ms| - 1].comma ==> tail == []
    ensures var n := |ms|;
            BodyText(ms, tail)
            == if n > 0 && !ms[n - 1].comma then
                 MembersText(ms[..n - 1]) + UntilValueEnd(ms[n - 1]) + (ms[n - 1].post + [CLOSE_BRACE])
               else MembersText(ms) + (tail + [CLOSE_BRACE])
  {
    hide MemberText, UntilValueEnd, MembersText, BodyText;
    BodySplit(ms, tail);
    var n := |ms|;
    if n > 0 && !ms[n - 1].comma {
      var init, last := ms[..n - 1], ms[n - 1];
      assert ms == init + [last];
      MembersAppend(init, [last]);
      MembersOne(last);
      MemberUntilValue(last);
      assert AfterValue(last) == last.post;
    }
  }

  lemma GapWithoutComma(d: Doc)
    requires GoodDoc(d) && !LacksComma(d)
    ensures Closed(d.tail)
  {
    if d.members != [] { LastMember(d.members, d.tail); }
  }

  lemma MembersOne(m: Member)
    ensures MembersText([m]) == MemberText(m)
  {
    hide MemberText;
    assert [m][1..] == [];
    assert MemberText(m) + [] == MemberText(m);
  }

  /** No whitespace stands right before the trivia that ends the members. */
  lemma UntilGapEnd(d: Doc)
    requires GoodDoc(d)
    ensures var u := UntilGap(d); u != [] && !IsSpace(u[|u| - 1])
  {
    hide IsSpace, MembersText, MemberText, UntilValueEnd, GoodBody, IsValueText, Closed;
    var n := |d.members|;
    NotSpaces();
    if n == 0 {
      assert MembersText([]) == [] by { MembersNone(); }
      assert d.lead + ([OPEN_BRACE] + []) == d.lead + [OPEN_BRACE];
    } else {
      LastMember(d.members, d.tail);
      var last := d.members[n - 1];
      if last.comma {
        assert d.members == d.members[..n - 1] + [last];
        MembersAppend(d.members[..n - 1], [last]);
        MembersOne(last);
        MemberUntilValue(last);
        CommaEnds(last);
      } else {
        UntilValueEnds(last);
      }
    }
  }

  lemma MembersNone()
    ensures MembersText([]) == []
  {}

  lemma UntilValueEnds(m: Member)
    requires GoodMember(m)
    ensures var t := UntilValueEnd(m); t != [] && !IsSpace(t[|t| - 1])
  {
    hide IsSpace, Closed;
    ValueEnds(m.value);
  }

  lemma NotSpaces()
    ensures !IsSpace(COMMA) && !IsSpace(OPEN_BRACE)
  {}

  lemma CommaEnds(m: Member)
    requires m.comma
    ensures var t := AfterValue(m); t != [] && t[|t| - 1] == COMMA
  {}

  lemma ValueEnds(v: Str)
    requires IsValueText(v)
    ensures v != [] && !IsSpace(v[|v| - 1])
  {
    hide WordValue, StringTail, ContainerTail;
    if v[0] != QUOTE && !IsOpener(v[0]) {
      WordUnits(v);
      assert v[|v| - 1] in v;
    }
  }

  /** How much of the last gap stays before a new property. */
  function GapCut(d: Doc): nat {
    var i := InsertionIndex(DocText(d), DocRoot(d).closeIndex);
    if |UntilGap(d)| < i then i - |UntilGap(d)| else 0
  }

  function GapBefore(d: Doc): Str { Slice(LastGap(d), 0, GapCut(d)) }
  function GapAfter(d: Doc): Str { SliceFrom(LastGap(d), GapCut(d)) }

  /** The gap, cut where the new property goes. */
  lemma CutGap(d: Doc)
    requires GoodDoc(d)
    ensures InsertionIndex(DocText(d), DocRoot(d).closeIndex) == |UntilGap(d)| + GapCut(d)
    ensures LastGap(d) == GapBefore(d) + GapAfter(d) && |GapBefore(d)| == GapCut(d)
    ensures Closed(GapBefore(d)) && AllSpace(GapAfter(d))
  {
    hide DocText, DocRoot, GoodDoc, UntilGap, LastGap, Closed, IsSpace, InsertionIndex;
    TextAroundGap(d);
    UntilGapEnd(d);
    CutText(UntilGap(d), LastGap(d), [CLOSE_BRACE] + d.trail);
  }

  lemma InsertionAt(t: Str, z: Str)
    ensures var start := AfterLastLf(t);
            InsertionIndex(t + z, |t|) == if AllSpace(t[start..]) then start else |t|
  {
    hide AfterLastLf, IsSpace;
    var s := t + z;
    assert Slice(s, 0, |t|) == t;
    assert Slice(s, AfterLastLf(t), |t|) == t[AfterLastLf(t)..];
  }

  lemma CutText(u: Str, g: Str, z: Str)
    requires u != [] && !IsSpace(u[|u| - 1]) && Closed(g)
    ensures var i := InsertionIndex(u + (g + z), |u| + |g|);
            && |u| <= i <= |u| + |g|
            && Closed(g[..i - |u|]) && AllSpace(g[i - |u|..])
  {
    hide Closed, IsSpace, InsertionIndex, AfterLastLf;
    LfIsSpace();
    var t := u + g;
    assert u + (g + z) == t + z;
    InsertionAt(t, z);
    assert g[..|g|] == g && g[|g|..] == [];
    var start := AfterLastLf(t);
    var line := t[start..];
    if start < |u| {
      assert line[|u| - 1 - start] == u[|u| - 1];
      assert u[|u| - 1] in line;
    } else {
      var k := start - |u|;
      assert line == g[k..];
      assert g == g[..k] + g[k..];
      if AllSpace(line) {
        assert start > 0 && t[start - 1] == LF;
        assert t[|u| - 1] == u[|u| - 1];
        assert k > 0 ==> g[..k][k - 1] == t[start - 1];
        ClosedCut(g[..k], g[k..]);
      }
    }
  }

  lemma LfIsSpace()
    ensures IsSpace(LF)
  {}

  /** The member a new property becomes, given the gap before it, its indentation and its line breaks. */
  function NewMember(g1: Str, leading: Str, indent: Str, key: Str, text: Str, trailing: Str): Member {
    Member(g1 + leading + indent, Quote(key), [], [SPACE], text, trailing, false)
  }

  function WithComma(ms: seq<Member>): seq<Member> {
    if ms == [] || ms[|ms| - 1].comma then ms
    else ms[..|ms| - 1] + [ms[|ms| - 1].(comma := true, post := [])]
  }

  /** The document with a property added after the cut of its last gap. */
  function AppendMember(d: Doc, m: Member): Doc {
    Doc(d.lead, WithComma(d.members) + [m], [], d.trail)
  }

  lemma {:induction false} GoodAppend(ms: seq<Member>, tail: Str, m: Member)
    requires GoodBody(ms, tail) && GoodMember(m)
    ensures GoodBody(WithComma(ms) + [m], [])
  {
    hide GoodMember, Closed;
    var r := WithComma(ms) + [m];
    if ms == [] {
      assert r == [m] && [m][1..] == [];
      ClosedNil();
    } else if |ms| == 1 {
      ClosedNil();
      var first := r[0];
      if !ms[0].comma { KeepGood(ms[0]); }
      assert [m][1..] == [] && GoodBody([m], []);
      assert r[1..] == [m];
    } else {
      GoodAppend(ms[1..], tail, m);
      assert r[0] == ms[0];
      assert r[1..] == WithComma(ms[1..]) + [m];
    }
  }

  lemma KeepGood(m: Member)
    requires GoodMember(m)
    ensures GoodMember(m.(comma := true, post := []))
  {
    ClosedNil();
  }

  lemma AppendText(d: Doc, m: Member)
    requires !m.comma
    ensures DocText(AppendMember(d, m)) == UntilGap(d) + (CommaFor(d) + (MemberText(m) + ([CLOSE_BRACE] + d.trail)))
  {
    hide MemberText, UntilValueEnd, MembersText, BodyText;
    var ms := WithComma(d.members);
    BodySplit(ms + [m], []);
    MembersAppend(ms, [m]);
    MembersOne(m);
    if LacksComma(d) {
      var n := |d.members|;
      var init, last := d.members[..n - 1], d.members[n - 1];
      var last' := last.(comma := true, post := []);
      MembersAppend(init, [last']);
      MembersOne(last');
      MemberUntilValue(last');
      assert AfterValue(last') == [COMMA];
      assert UntilValueEnd(last') == UntilValueEnd(last) by { SameUntil(last, last'); }
    }
    assert [] + [CLOSE_BRACE] == [CLOSE_BRACE];
  }

  lemma SameUntil(a: Member, b: Member)
    requires a.(comma := b.comma, post := b.post) == b
    ensures UntilValueEnd(a) == UntilValueEnd(b)
  {}

  lemma NewMemberText(g1: Str, leading: Str, indent: Str, key: Str, text: Str, trailing: Str)
    ensures MemberText(NewMember(g1, leading, indent, key, text, trailing))
         == g1 + (leading + (indent + (Quote(key) + ([COLON, SPACE] + text)) + trailing))
  {
    hide Quote;
    var m := NewMember(g1, leading, indent, key, text, trailing);
    assert AfterValue(m) == trailing;
    assert FromColon(m) == [COLON, SPACE] + text + trailing;
    assert FromKey(m) == Quote(key) + ([COLON, SPACE] + text + trailing);
  }

  lemma NewMemberGood(g1: Str, leading: Str, indent: Str, key: Str, text: Str, newline: Str, g2: Str)
    requires Closed(g1) && AllSpace(leading) && AllSpace(indent) && AllSpace(newline) && AllSpace(g2)
    requires IsValueText(text)
    ensures var m := NewMember(g1, leading, indent, key, text, newline + g2); GoodMember(m) && KeyOf(m) == key
  {
    hide Closed, IsValueText, Quote, AllSpace, Unescape, IsStringText;
    SpacesJoin(leading, indent);
    SpacesJoin(newline, g2);
    SpacesClosed(leading + indent);
    ClosedAppend(g1, leading + indent);
    assert g1 + leading + indent == g1 + (leading + indent);
    SpacesClosed(newline + g2);
    SpacesClosed([SPACE]) by { OneSpace(); }
    ClosedNil();
    QuoteLiteral(key);
  }

  lemma SpacesJoin(a: Str, b: Str)
    requires AllSpace(a) && AllSpace(b)
    ensures AllSpace(a + b)
  {
    hide IsSpace;
  }

  lemma OneSpace()
    ensures AllSpace([SPACE])
  {}

  // ---------------------------------------------------------------- inserting

  lemma SortTwo(a: Edit, b: Edit)
    requires a.index >= b.index
    ensures SortDescending([a, b]) == [a, b] && SortDescending([a]) == [a]
  {
    assert [a, b][..1] == [a] && [a][..0] == [];
    assert Place(a, []) == [a] && Place(b, []) == [b];
    assert [a][1..] == [];
    assert Place(b, [a]) == [a] + Place(b, []);
    assert SortDescending([a]) == [a];
    assert [a, b][1] == b;
  }

  lemma ApplyTwo(s: Str, a: Edit, b: Edit)
    ensures ApplyEdits(s, [a]) == ApplyEdit(s, a)
    ensures ApplyEdits(s, [a, b]) == ApplyEdit(ApplyEdit(s, a), b)
  {
    hide ApplyEdit;
    assert [a, b][1..] == [b] && [b][1..] == [] && [a][1..] == [];
    assert ApplyEdits(ApplyEdit(s, a), [b]) == ApplyEdit(ApplyEdit(s, a), b);
  }

  lemma ApplyAt(a: Str, z: Str, text: Str)
    ensures ApplyEdit(a + z, Edit(|a|, text)) == a + (text + z)
  {
    assert Slice(a + z, 0, |a|) == a && SliceFrom(a + z, |a|) == z;
  }

  /** With both edits the comma comes first; at equal indices that is because the sort is stable. */
  lemma ApplyBoth(a: Str, m: Str, z: Str, text: Str)
    ensures ApplyEdits(a + (m + z), SortDescending([Edit(|a + m|, text), Edit(|a|, [COMMA])]))
         == a + ([COMMA] + (m + (text + z)))
    ensures ApplyEdits(a + (m + z), SortDescending([Edit(|a + m|, text)])) == a + (m + (text + z))
  {
    hide SortDescending, ApplyEdits, ApplyEdit;
    var e, f := Edit(|a + m|, text), Edit(|a|, [COMMA]);
    SortTwo(e, f);
    ApplyTwo(a + (m + z), e, f);
    Regroup3(a, m, z);
    ApplyAt(a + m, z, text);
    Regroup3(a, m, text + z);
    ApplyAt(a, m + (text + z), [COMMA]);
  }

  lemma Regroup3(a: Str, b: Str, c: Str)
    ensures a + (b + c) == (a + b) + c
  {}

  lemma CommaDetected(d: Doc)
    requires GoodDoc(d) && d.members != []
    ensures var p := DocRoot(d).properties[|d.members| - 1];
            HasCommaAfter(DocText(d), p.valueEnd, DocRoot(d).closeIndex) == !LacksComma(d)
            && (LacksComma(d) ==> p.valueEnd == |UntilGap(d)|)
  {
    hide Closed, BodyText, Properties, UpToValue, MembersText, UntilValueEnd, MemberText, GoodMember, HasCommaAfter;
    var k := |d.members| - 1;
    var m := d.members[k];
    ValueInText(d, k);
    LastMember(d.members, d.tail);
    PastLast(d.members, d.tail);
    PostClosed(m);
    var rest := CommaText(m) + (d.tail + [CLOSE_BRACE] + d.trail);
    var p := DocRoot(d).properties[k];
    assert DocText(d)[p.valueEnd..] == m.post + rest;
    NoTriviaHere(rest);
    CommaAfterGap(DocText(d), p.valueEnd, m.post, rest, DocRoot(d).closeIndex);
    TextAroundGap(d);
    assert |DocText(d)| == p.valueEnd + |m.post| + |rest|;
  }

  /** Behind closed trivia the comma test looks at the next unit. */
  lemma CommaAfterGap(s: Str, i: nat, gap: Str, rest: Str, close: nat)
    requires i <= |s| && s[i..] == gap + rest && Closed(gap) && rest != [] && !StartsTrivia(rest)
    ensures HasCommaAfter(s, i, close) <==> i + |gap| < close && rest[0] == COMMA
  {
    hide Closed, Skip, StartsTrivia, Slice;
    SkipNothing(rest);
    SkipClosed(gap, rest);
    assert SliceFrom(s, i) == gap + rest;
    UnitAfter(s, i, gap, rest);
  }

  lemma UnitAfter(s: Str, i: nat, gap: Str, rest: Str)
    requires i <= |s| && s[i..] == gap + rest && rest != []
    ensures Slice(s, i + |gap|, i + |gap| + 1) == [rest[0]]
  {
    assert s[i..][|gap|] == rest[0];
  }

  lemma PostClosed(m: Member)
    requires GoodMember(m)
    ensures Closed(m.post)
  {}

  lemma NoTriviaHere(t: Str)
    requires t != [] && (t[0] == COMMA || t[0] == CLOSE_BRACE)
    ensures !StartsTrivia(t)
  {}

  lemma {:induction false} PastLast(ms: seq<Member>, tail: Str)
    requires ms != [] && (forall i :: 0 <= i < |ms| - 1 ==> ms[i].comma)
    ensures PastValue(ms, |ms| - 1, tail) == ms[|ms| - 1].post + (CommaText(ms[|ms| - 1]) + (tail + [CLOSE_BRACE]))
  {
    if |ms| == 1 {
      assert ms[1..] == [];
    } else {
      PastLast(ms[1..], tail);
    }
  }

  lemma NewlineSpace(s: Str)
    ensures AllSpace(NewlineOf(s)) && AllJsonSpace(NewlineOf(s)) && NewlineOf(s) != []
    ensures AllSpace(TWO_SPACES) && AllJsonSpace(TWO_SPACES)
  {}

  lemma IndentSpace(s: Str, i: nat)
    ensures AllSpace(IndentationAt(s, i))
  {
    NewlineSpace([]);
  }

  lemma FormatFacts(v: Json, indent: Str, newline: Str)
    requires WellFormed(v) && AllSpace(indent) && AllSpace(newline) && AllJsonSpace(newline) && newline != []
    ensures IsValueText(FormatValue(v, indent, newline))
    ensures ParseJsonc(FormatValue(v, indent, newline))
         == if MultiLine(v) && !AllJsonSpace(indent) then None else Some(v)
  {
    hide IsSpace, IsJsonSpace, IsValueText, ParseJsonc, Print, FormatValue;
    var g := newline + indent;
    FormatIsPrint(v, indent, newline);
    PrintIsValueText(v, g);
    PrintParsesIff(v, g);
    assert AllJsonSpace(g) <==> AllJsonSpace(indent) by {
      if AllJsonSpace(g) { forall u <- indent ensures IsJsonSpace(u) { assert u in g; } }
    }
  }

  /** The member a new property becomes. */
  function InsertedMember(d: Doc, key: Str, v: Json): Member {
    var s, root := DocText(d), DocRoot(d);
    var indent := InferIndent(s, root);
    NewMember(GapBefore(d), LeadingNewline(s, InsertionIndex(s, root.closeIndex)), indent, key,
              FormatValue(v, indent, NewlineOf(s)), NewlineOf(s) + GapAfter(d))
  }

  /** The document with the new property. */
  function InsertedDoc(d: Doc, key: Str, v: Json): Doc {
    AppendMember(d, InsertedMember(d, key, v))
  }

  lemma InferSpace(s: Str, root: Root)
    ensures AllSpace(InferIndent(s, root)) && InferIndent(s, root) != []
  {
    NewlineSpace(s);
    if root.properties != [] { IndentSpace(s, root.properties[0].keyStart); }
  }

  lemma LeadingSpace(s: Str, i: nat)
    ensures AllSpace(LeadingNewline(s, i))
  {
    hide NewlineOf;
    NewlineSpace(s);
  }

  lemma InsertedGood(d: Doc, key: Str, v: Json)
    requires GoodDoc(d) && WellFormed(v)
    ensures GoodDoc(InsertedDoc(d, key, v))
    ensures KeyOf(InsertedMember(d, key, v)) == key
  {
    hide Closed, Skip, DocText, DocRoot, GapBefore, GapAfter, FormatValue, NewlineOf, InferIndent, InsertionIndex,
      LeadingNewline, NewMember, IsValueText, GoodBody, GoodMember, WellFormed, KeyOf, ParseJsonc;
    var s, root := DocText(d), DocRoot(d);
    CutGap(d);
    NewlineSpace(s);
    InferSpace(s, root);
    var i := InsertionIndex(s, root.closeIndex);
    LeadingSpace(s, i);
    var indent, newline := InferIndent(s, root), NewlineOf(s);
    FormatFacts(v, indent, newline);
    NewMemberGood(GapBefore(d), LeadingNewline(s, i), indent, key, FormatValue(v, indent, newline), newline, GapAfter(d));
    GoodAppend(d.members, d.tail, InsertedMember(d, key, v));
  }

  /** The text edits of an insertion produce the text of the extended document. */
  lemma InsertLaw(d: Doc, key: Str, v: Json)
    requires GoodDoc(d)
    ensures InsertProperty(DocText(d), DocRoot(d), key, v) == DocText(InsertedDoc(d, key, v))
  {
    hide Closed, DocText, DocRoot, LastGap, UntilGap, FormatValue, NewlineOf, InferIndent, InsertionIndex, GoodDoc,
      Quote, HasCommaAfter, SortDescending, ApplyEdits, MemberText, NewMember, LeadingNewline, GapBefore, GapAfter,
      LacksComma;
    var s, root := DocText(d), DocRoot(d);
    CutGap(d);
    TextAroundGap(d);
    var i := InsertionIndex(s, root.closeIndex);
    var u, g1, g2 := UntilGap(d), GapBefore(d), GapAfter(d);
    var indent, newline, lead := InferIndent(s, root), NewlineOf(s), LeadingNewline(s, i);
    var value := FormatValue(v, indent, newline);
    var text := lead + (indent + (Quote(key) + ([COLON, SPACE] + value)) + newline);
    var z := [CLOSE_BRACE] + d.trail;
    assert s == u + (g1 + (g2 + z));
    NewMemberText(g1, lead, indent, key, value, newline + g2);
    NewHasNoComma(g1, lead, indent, key, value, newline + g2);
    var m := InsertedMember(d, key, v);
    assert MemberText(m) == g1 + (text + g2);
    AppendText(d, m);
    assert MemberText(m) + z == g1 + (text + (g2 + z));
    RootMembers(d);
    if d.members != [] { CommaDetected(d); }
    ApplyBoth(u, g1, g2 + z, text);
    var e, f := Edit(i, text), Edit(|u|, [COMMA]);
    assert [e] + [] == [e] && [e] + [f] == [e, f];
    assert i == |u + g1|;
    assert PropertyText(s, root, key, v) == indent + (Quote(key) + ([COLON, SPACE] + value));
    CommaCases(d);
  }

  lemma CommaCases(d: Doc)
    ensures CommaFor(d) == if LacksComma(d) then [COMMA] else []
    ensures LacksComma(d) ==> d.members != []
  {}

  lemma NewHasNoComma(g1: Str, leading: Str, indent: Str, key: Str, text: Str, trailing: Str)
    ensures !NewMember(g1, leading, indent, key, text, trailing).comma
  {}

  lemma RootMembers(d: Doc)
    ensures |DocRoot(d).properties| == |d.members|
  {}
}
