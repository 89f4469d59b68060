/** Where an edit writes, and how: the line, the indentation and the line breaks of what it puts into the text. */
module JsoncLines {
  import opened Units
  import opened JsonText
  import opened JsonGrammar
  import opened JsonLayout
  import opened JsoncGrammar
  import opened JsoncSoundness
  import opened JsoncPrint
  import opened JsoncEdit

  // ---------------------------------------------------------------- lines

  predicate IsPair(s: Str, i: nat) { i + 1 < |s| && s[i] == 0x0D && s[i + 1] == 0x0A }

  /** Carriage return and line feed when that pair occurs anywhere, else a line feed. */
  ghost predicate IsBreak(s: Str, nl: Str) {
    if exists i: nat :: IsPair(s, i) then nl == [0x0D, 0x0A] else nl == [0x0A]
  }

  lemma BreakExactly(s: Str)
    ensures IsBreak(s, NewlineOf(s))
  {
    if HasCrlf(s) {
      var i :| 0 <= i < |s| - 1 && s[i] == CR && s[i + 1] == LF;
      assert IsPair(s, i);
    } else if i: nat :| IsPair(s, i) {
      assert HasCrlf(s);
    }
  }

  predicate FromLineStart(s: Str, j: nat, i: nat, w: Str) {
    && j <= i <= |s| && (j == 0 || s[j - 1] == 0x0A) && s[j..i] == w && 0x0A !in w && forall u <- w :: IsSpace(u)
  }

  /** Only whitespace, `w`, stands before position `i` in its line. */
  ghost predicate Indents(s: Str, i: nat, w: Str) { exists j: nat :: FromLineStart(s, j, i, w) }

  lemma OneIndent(s: Str, i: nat, j: nat, w: Str, k: nat, v: Str)
    requires FromLineStart(s, j, i, w) && FromLineStart(s, k, i, v)
    ensures j == k && w == v
  {
    LineStartFirst(s, i, j, k, w);
    LineStartFirst(s, i, k, j, v);
  }

  /** No line starts inside a text without a line feed. */
  lemma LineStartFirst(s: Str, i: nat, j: nat, k: nat, w: Str)
    requires j <= i <= |s| && k <= i && (k == 0 || s[k - 1] == 0x0A) && s[j..i] == w && 0x0A !in w
    ensures k <= j
  {
    if j < k {
      SliceHas(s, i, j, k - 1);
      assert false;
    }
  }

  lemma SliceHas(s: Str, i: nat, j: nat, k: nat)
    requires j <= k < i <= |s|
    ensures s[k] in s[j..i]
  {
    assert s[j..i][k - j] == s[k];
  }

  /** The start of a line: behind the last line feed. */
  lemma StartsLineAt(s: Str, i: nat)
    requires i <= |s|
    ensures var j := LineStart(s, i);
            j <= i && (j == 0 || s[j - 1] == LF) && LF !in s[j..i] && Slice(s, j, i) == s[j..i]
  {
    hide AfterLastLf;
    var t := Slice(s, 0, i);
    assert t == s[..i];
    var j := AfterLastLf(t);
    assert t[j..] == s[j..i];
    if j == i { assert s[j..i] == []; }
  }

  /** A line that starts with only whitespace gives that, any other two spaces. */
  lemma IndentExactly(s: Str, i: nat)
    requires i <= |s|
    ensures var w := IndentationAt(s, i);
            if exists v :: Indents(s, i, v) then Indents(s, i, w) else w == Ascii("  ")
  {
    hide LineStart, IsSpace, Ascii;
    StartsLineAt(s, i);
    var j := LineStart(s, i);
    var w := s[j..i];
    TwoSpaces();
    if AllSpace(w) {
      assert FromLineStart(s, j, i, w);
    } else if v :| Indents(s, i, v) {
      var k: nat :| FromLineStart(s, k, i, v);
      LineStartFirst(s, i, j, k, w);
      LineStartFirst(s, i, k, j, v);
      assert false;
    }
  }

  lemma TwoSpaces()
    ensures TWO_SPACES == Ascii("  ")
  {}

  /** A new property is indented like the first one, if that is indented by whitespace; else by two spaces. */
  ghost predicate PropertyIndent(s: Str, root: Root, w: Str) {
    if root.properties != [] && exists v :: v != [] && Indents(s, root.properties[0].keyStart, v)
    then Indents(s, root.properties[0].keyStart, w) else w == Ascii("  ")
  }

  lemma PropertyIndentExactly(s: Str, root: Root)
    requires root.properties != [] ==> root.properties[0].keyStart <= |s|
    ensures PropertyIndent(s, root, InferIndent(s, root))
  {
    hide IndentationAt, Ascii;
    TwoSpaces();
    if root.properties != [] {
      var i := root.properties[0].keyStart;
      IndentExactly(s, i);
      if v :| v != [] && Indents(s, i, v) {
        var w := IndentationAt(s, i);
        var j: nat :| FromLineStart(s, j, i, v);
        var k: nat :| FromLineStart(s, k, i, w);
        OneIndent(s, i, j, v, k, w);
      } else if Indents(s, i, IndentationAt(s, i)) {
        assert IndentationAt(s, i) == [];
      }
    }
  }

  /** It goes before the line of the closing brace, if only whitespace is in front of that, else before the brace. */
  ghost predicate GoesAt(s: Str, close: nat, p: nat) {
    p <= close <= |s| && if exists w :: Indents(s, close, w) then Indents(s, close, s[p..close]) else p == close
  }

  lemma GoesExactly(s: Str, close: nat)
    requires close <= |s|
    ensures GoesAt(s, close, InsertionIndex(s, close))
  {
    hide LineStart, IsSpace;
    StartsLineAt(s, close);
    var j := LineStart(s, close);
    var w := s[j..close];
    if AllSpace(w) {
      assert FromLineStart(s, j, close, w);
      assert Indents(s, close, w) && InsertionIndex(s, close) == j;
    } else if v :| Indents(s, close, v) {
      var k: nat :| FromLineStart(s, k, close, v);
      LineStartFirst(s, close, j, k, w);
      LineStartFirst(s, close, k, j, v);
      assert false;
    }
  }

  // ---------------------------------------------------------------- the text of an edit

  /** A line break first, unless one is there. */
  function BreakBefore(s: Str, p: nat, nl: Str): Str
    requires p <= |s|
  {
    if p == 0 || s[p - 1] == 0x0A || s[p - 1] == 0x0D then [] else nl
  }

  lemma LeadExactly(s: Str, p: nat)
    requires p <= |s|
    ensures LeadingNewline(s, p) == BreakBefore(s, p, NewlineOf(s))
  {
    hide NewlineOf;
    assert Slice(s, 0, p) == s[..p];
  }

  /** A property on a line of its own. */
  function Line(key: Str, v: Json, indent: Str, nl: Str): Str {
    indent + Quote(key) + [COLON, SPACE] + Show(v, nl + indent) + nl
  }

  lemma LineExactly(s: Str, root: Root, key: Str, v: Json)
    requires WellFormed(v)
    ensures var indent, nl := InferIndent(s, root), NewlineOf(s);
            PropertyText(s, root, key, v) + nl == Line(key, v, indent, nl)
  {
    hide Quote, FormatValue, InferIndent, NewlineOf, Print, Show, WellFormed;
    var indent, nl := InferIndent(s, root), NewlineOf(s);
    FormatIsPrint(v, indent, nl);
    PrintShows(v, nl + indent);
    assert indent + (Quote(key) + ([COLON, SPACE] + Show(v, nl + indent))) + nl
        == indent + Quote(key) + [COLON, SPACE] + Show(v, nl + indent) + nl;
  }

  /** What the insertion of a property makes of a text: a comma behind the last value if it has none, and the new line. */
  ghost predicate Inserted(
    s: Str, root: Root, key: Str, v: Json, lacksComma: bool, q: nat, p: nat, indent: Str, nl: Str, r: Str)
  {
    && q <= p && GoesAt(s, root.closeIndex, p) && IsBreak(s, nl) && PropertyIndent(s, root, indent)
    && (lacksComma ==> root.properties != [] && q == root.properties[|root.properties| - 1].valueEnd)
    && r == s[..q] + (if lacksComma then [COMMA] else []) + s[q..p]
            + BreakBefore(s, p, nl) + Line(key, v, indent, nl) + s[p..]
  }

  /** Inserting a property into a document writes exactly this. */
  lemma InsertedExactly(d: Doc, key: Str, v: Json) returns (q: nat, p: nat)
    requires GoodDoc(d) && WellFormed(v)
    ensures var s, root := DocText(d), DocRoot(d);
            Inserted(s, root, key, v, LacksComma(d), q, p, InferIndent(s, root), NewlineOf(s),
                     InsertProperty(s, root, key, v))
  {
    hide Closed, DocText, DocRoot, LastGap, UntilGap, NewlineOf, InferIndent, InsertionIndex, GoodDoc, Quote,
      HasCommaAfter, SortDescending, ApplyEdits, LeadingNewline, GapBefore, GapAfter, LacksComma, PropertyText, GoesAt,
      IsBreak, PropertyIndent, Line, WellFormed;
    var s, root := DocText(d), DocRoot(d);
    CutGap(d);
    TextAroundGap(d);
    p := InsertionIndex(s, root.closeIndex);
    var u, g, h := UntilGap(d), GapBefore(d), GapAfter(d);
    q := |u|;
    var z := h + ([CLOSE_BRACE] + d.trail);
    assert s == u + (g + z) by { assert s == u + ((g + h) + ([CLOSE_BRACE] + d.trail)); }
    assert s[..q] == u && s[q..p] == g && s[p..] == z;
    RootMembers(d);
    if d.members != [] { CommaDetected(d); }
    CommaCases(d);
    LeadExactly(s, p);
    LineExactly(s, root, key, v);
    BreakExactly(s);
    CloseInside(d);
    GoesExactly(s, root.closeIndex);
    PropertyIndentExactly(s, root);
    var text := LeadingNewline(s, p) + (PropertyText(s, root, key, v) + NewlineOf(s));
    ApplyBoth(u, g, z, text);
    var e, f := Edit(p, text), Edit(|u|, [COMMA]);
    assert [e] + [] == [e] && [e] + [f] == [e, f];
    assert p == |u + g|;
    var b := BreakBefore(s, p, NewlineOf(s));
    var l := Line(key, v, InferIndent(s, root), NewlineOf(s));
    JoinText(u, [COMMA], g, b, l, z);
    JoinText(u, [], g, b, l, z);
  }

  lemma JoinText(u: Str, c: Str, g: Str, b: Str, l: Str, z: Str)
    ensures u + c + g + b + l + z == u + (c + (g + ((b + l) + z)))
    ensures c == [] ==> u + c + g + b + l + z == u + (g + ((b + l) + z))
  {}

  lemma CloseInside(d: Doc)
    requires GoodDoc(d)
    ensures DocRoot(d).closeIndex <= |DocText(d)|
    ensures DocRoot(d).properties != [] ==> DocRoot(d).properties[0].keyStart <= |DocText(d)|
  {
    hide Closed, GoodBody, Skip, LastGap, UntilGap, GoodDoc;
    TextAroundGap(d);
  }

  /** What the replacement of a value makes of a text: the new one, indented like the line of its key. */
  ghost predicate Replaced(s: Str, p: Property, v: Json, indent: Str, nl: Str, r: Str) {
    && p.keyStart <= |s| && p.valueStart <= p.valueEnd <= |s| && IsBreak(s, nl)
    && (if exists w :: Indents(s, p.keyStart, w) then Indents(s, p.keyStart, indent) else indent == Ascii("  "))
    && r == s[..p.valueStart] + Show(v, nl + indent) + s[p.valueEnd..]
  }

  lemma ReplacedExactly(s: Str, p: Property, v: Json)
    requires WellFormed(v) && p.keyStart <= |s| && p.valueStart <= p.valueEnd <= |s|
    ensures Replaced(s, p, v, IndentationAt(s, p.keyStart), NewlineOf(s), ReplaceValue(s, p, v))
  {
    hide FormatValue, IndentationAt, NewlineOf, Show, Print, WellFormed, IsBreak, Indents;
    var indent, nl := IndentationAt(s, p.keyStart), NewlineOf(s);
    BreakExactly(s);
    IndentExactly(s, p.keyStart);
    FormatIsPrint(v, indent, nl);
    PrintShows(v, nl + indent);
    SlicesAre(s, p.valueStart, p.valueEnd);
    assert s == s[..p.valueStart] + s[p.valueStart..p.valueEnd] + s[p.valueEnd..];
  }

  lemma SlicesAre(s: Str, i: nat, j: nat)
    requires i <= j <= |s|
    ensures Slice(s, 0, i) == s[..i] && Slice(s, i, j) == s[i..j] && SliceFrom(s, j) == s[j..]
  {}

  /** The value at the one property with the key is replaced; without one, a property is inserted. */
  ghost predicate Written(s: Str, key: Str, v: Json, r: Str)
    requires ScanRoot(s).Some?
  {
    var d, root := ReadDoc(s).value, ScanRoot(s).value;
    if exists p <- root.properties :: p.key == key
    then exists p <- root.properties, indent, nl :: p.key == key && Replaced(s, p, v, indent, nl, r)
    else exists q: nat, i: nat, indent, nl :: Inserted(s, root, key, v, LacksComma(d), q, i, indent, nl, r)
  }

  /**
   * What every edit that does not fail makes of a text, unit by unit.
   */
  lemma EditWrites(s: Str, key: Str, v: Json)
    requires WellFormed(v) && SetTop(s, key, v).Some?
    ensures ScanRoot(s).Some? && Written(s, key, v, SetTop(s, key, v).value)
  {
    hide ReplaceValue, InsertProperty, Replaced, Inserted, ReadDoc, GoodDoc, DocText, DocRoot, PositionsOf, WellFormed,
      LacksComma;
    ScanSpans(s);
    var d, root := ReadDoc(s).value, ScanRoot(s).value;
    var ks := PositionsOf(root.properties, key);
    if ks == [] {
      var q, i := InsertedExactly(d, key, v);
      assert forall k :: 0 <= k < |root.properties| && root.properties[k].key == key ==> k in ks;
    } else {
      var p := root.properties[ks[0]];
      ReplacedExactly(s, p, v);
      assert p in root.properties;
    }
  }
}
