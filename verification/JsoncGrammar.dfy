/**
 * The language scanRootObject accepts, as concrete syntax: a document is read into members that keep
 * every unit of the text, and reading and writing documents are inverse to each other.
 */
module JsoncGrammar {
  import opened Units
  import opened JsonText
  import opened JsonGrammar

  // ---------------------------------------------------------------- comments and whitespace

  predicate StartsLine(t: Str) { |t| >= 2 && t[0] == SLASH && t[1] == SLASH }
  predicate StartsBlock(t: Str) { |t| >= 2 && t[0] == SLASH && t[1] == STAR }

  /** The first position of a star-slash pair. */
  function CloseAt(t: Str): (n: Option<nat>)
    ensures n.Some? ==> n.value + 1 < |t| && t[n.value] == STAR && t[n.value + 1] == SLASH
    ensures n.Some? ==> forall i :: 0 <= i < n.value ==> !(t[i] == STAR && t[i + 1] == SLASH)
    ensures n.None? ==> forall i :: 0 <= i < |t| - 1 ==> !(t[i] == STAR && t[i + 1] == SLASH)
  {
    if |t| < 2 then None
    else if t[0] == STAR && t[1] == SLASH then Some(0)
    else Shift(1, CloseAt(t[1..]))
  }

  /** skipLineComment: past the line feed, or to the end of the text. */
  function LineLen(t: Str): (n: nat)
    requires StartsLine(t)
    ensures 2 <= n <= |t|
  {
    var n := IndexOf(t[2..], LF);
    if n == |t| - 2 then |t| else n + 3
  }

  /** skipBlockComment; None when it throws. */
  function BlockLen(t: Str): (n: Option<nat>)
    requires StartsBlock(t)
    ensures n.Some? ==> 4 <= n.value <= |t|
  {
    Shift(4, CloseAt(t[2..]))
  }

  /** skipTrivia; None when it throws. */
  function Skip(t: Str): (n: Option<nat>)
    ensures n.Some? ==> n.value <= |t|
    decreases |t|
  {
    if t == [] then Some(0)
    else if IsSpace(t[0]) then Shift(1, Skip(t[1..]))
    else if StartsLine(t) then Shift(LineLen(t), Skip(t[LineLen(t)..]))
    else if StartsBlock(t) then
      if BlockLen(t).None? then None else Shift(BlockLen(t).value, Skip(t[BlockLen(t).value..]))
    else Some(0)
  }

  predicate StartsTrivia(t: Str) {
    t != [] && (IsSpace(t[0]) || StartsLine(t) || StartsBlock(t))
  }

  /** The length of a whitespace unit or complete comment at the start of `t`; 0 when there is none. */
  function Item(t: Str): (n: nat)
    ensures n <= |t|
  {
    if t == [] then 0
    else if IsSpace(t[0]) then 1
    else if StartsLine(t) then (if IndexOf(t[2..], LF) == |t| - 2 then 0 else LineLen(t))
    else if StartsBlock(t) then (if BlockLen(t).None? then 0 else BlockLen(t).value)
    else 0
  }

  /** Trivia that any text may follow: whitespace and complete comments. */
  predicate Closed(t: Str)
    decreases |t|
  {
    t == [] || (Item(t) > 0 && Closed(t[Item(t)..]))
  }

  lemma ItemLocal(a: Str, b: Str)
    requires Item(a) > 0
    ensures Item(a + b) == Item(a)
  {
    var c := a + b;
    if IsSpace(a[0]) {
    } else {
      assert c[2..] == a[2..] + b;
      if StartsLine(a) {
        var n := IndexOf(a[2..], LF);
        assert c[2..][n] == LF;
      } else {
        var n := CloseAt(a[2..]).value;
        assert c[2..][n] == STAR && c[2..][n + 1] == SLASH;
        assert forall i :: 0 <= i <= n ==> c[2..][i] == a[2..][i];
      }
    }
  }

  lemma ItemCut(t: Str, k: nat)
    requires 0 < Item(t) <= k <= |t|
    ensures Item(t[..k]) == Item(t)
  {
    var a := t[..k];
    if IsSpace(t[0]) {
    } else {
      assert a[2..] == t[2..][..k - 2];
      if StartsLine(t) {
        var n := IndexOf(t[2..], LF);
        assert a[2..][n] == LF;
      } else {
        var n := CloseAt(t[2..]).value;
        assert a[2..][n] == STAR && a[2..][n + 1] == SLASH;
        assert forall i :: 0 <= i <= n ==> a[2..][i] == t[2..][i];
      }
    }
  }

  lemma SkipItem(t: Str)
    requires Item(t) > 0
    ensures Skip(t) == Shift(Item(t), Skip(t[Item(t)..]))
  {}

  /** Closed trivia is skipped whole, whatever follows. */
  lemma {:induction false} SkipClosed(a: Str, b: Str)
    requires Closed(a)
    ensures Skip(a + b) == Shift(|a|, Skip(b))
    decreases |a|
  {
    hide Skip, Item;
    if a == [] {
      assert a + b == b;
    } else {
      var n := Item(a);
      ItemLocal(a, b);
      SkipItem(a + b);
      assert (a + b)[n..] == a[n..] + b;
      SkipClosed(a[n..], b);
    }
  }

  lemma SkipNothing(b: Str)
    requires !StartsTrivia(b)
    ensures Skip(b) == Some(0)
  {}

  /** What skipTrivia passes before the end of the text is closed, and no trivia follows. */
  lemma {:induction false} SkipSplit(t: Str)
    requires Skip(t).Some? && Skip(t).value < |t|
    ensures Closed(t[..Skip(t).value]) && !StartsTrivia(t[Skip(t).value..])
    decreases |t|
  {
    var m := Skip(t).value;
    if StartsTrivia(t) {
      SkipStep(t);
      var n := Item(t);
      hide Skip, Item;
      SkipSplit(t[n..]);
      assert t[n..][m - n..] == t[m..];
      assert t[..m][n..] == t[n..][..m - n];
      ItemCut(t, m);
    } else {
      SkipNothing(t);
      assert t[..0] == [] && t[0..] == t;
    }
  }

  lemma SkipStep(t: Str)
    requires Skip(t).Some? && Skip(t).value < |t| && StartsTrivia(t)
    ensures Item(t) > 0 && Skip(t) == Shift(Item(t), Skip(t[Item(t)..]))
  {
    assert t[|t|..] == [];
  }

  lemma {:induction false} ClosedAppend(a: Str, b: Str)
    requires Closed(a) && Closed(b)
    ensures Closed(a + b)
    decreases |a|
  {
    hide Item;
    if a == [] {
      assert a + b == b;
    } else {
      ItemLocal(a, b);
      var n := Item(a);
      assert (a + b)[n..] == a[n..] + b;
      ClosedAppend(a[n..], b);
    }
  }

  lemma {:induction false} SpacesClosed(t: Str)
    requires AllSpace(t)
    ensures Closed(t)
  {
    if t != [] {
      assert t[0] in t;
      SpacesClosed(t[1..]);
    }
  }

  /** Cutting closed trivia after a line feed leaves closed trivia, when only whitespace is cut off. */
  lemma {:induction false} ClosedCut(a: Str, b: Str)
    requires Closed(a + b) && AllSpace(b)
    requires a == [] || a[|a| - 1] == LF
    ensures Closed(a)
    decreases |a|
  {
    if a != [] {
      var t := a + b;
      var n := Item(t);
      ItemWithin(a, b);
      assert t[n..] == a[n..] + b;
      ClosedCut(a[n..], b);
      ItemCut(t, |a|);
      assert t[..|a|] == a;
    }
  }

  lemma ItemWithin(a: Str, b: Str)
    requires a != [] && a[|a| - 1] == LF && AllSpace(b) && Item(a + b) > 0
    ensures Item(a + b) <= |a|
  {
    var t := a + b;
    var n := Item(t);
    assert forall i :: |a| <= i < |t| ==> IsSpace(t[i]) by {
      forall i | |a| <= i < |t| ensures IsSpace(t[i]) { assert t[i] == b[i - |a|] && b[i - |a|] in b; }
    }
    assert t[|a| - 1] == LF;
    if IsSpace(t[0]) {
    } else if StartsLine(t) {
      assert t[2..][|a| - 3] == LF;
    } else {
      var k := CloseAt(t[2..]).value;
      assert t[2..][k + 1] == SLASH && t[n - 1] == SLASH;
    }
  }

  // ---------------------------------------------------------------- values

  predicate IsOpener(u: Unit) { u == OPEN_BRACE || u == OPEN_BRACKET }
  predicate IsCloser(u: Unit) { u == CLOSE_BRACE || u == CLOSE_BRACKET }
  predicate Matches(open: Unit, close: Unit) {
    (open == OPEN_BRACE ==> close == CLOSE_BRACE) && (open == OPEN_BRACKET ==> close == CLOSE_BRACKET)
  }

  /** The length of a literal or comment that starts `t`, 1 for any other unit; None when it is not closed. */
  function Chunk(t: Str): (n: Option<nat>)
    requires t != []
    ensures n.Some? ==> 0 < n.value <= |t|
  {
    if t[0] == QUOTE then StringLen(t)
    else if StartsLine(t) then Some(LineLen(t))
    else if StartsBlock(t) then BlockLen(t)
    else Some(1)
  }

  predicate IsComment(t: Str) { StartsLine(t) || StartsBlock(t) }

  /** scanContainer after its opening delimiter: how far to the matching one; None when it throws. */
  function ContainerTail(t: Str, stack: seq<Unit>): (n: Option<nat>)
    requires stack != []
    ensures n.Some? ==> 0 < n.value <= |t| && IsCloser(t[n.value - 1])
    decreases |t|
  {
    if t == [] || Chunk(t).None? then None
    else if t[0] == QUOTE || IsComment(t) then
      Shift(Chunk(t).value, ContainerTail(t[Chunk(t).value..], stack))
    else if IsOpener(t[0]) then Shift(1, ContainerTail(t[1..], stack + [t[0]]))
    else if IsCloser(t[0]) then
      if !Matches(stack[|stack| - 1], t[0]) then None
      else if |stack| == 1 then Some(1)
      else Shift(1, ContainerTail(t[1..], stack[..|stack| - 1]))
    else Shift(1, ContainerTail(t[1..], stack))
  }

  function ContainerLen(t: Str): (n: Option<nat>)
    requires t != []
    ensures n.Some? ==> 2 <= n.value <= |t| && IsCloser(t[n.value - 1])
  {
    Shift(1, ContainerTail(t[1..], [t[0]]))
  }

  lemma ChunkLocal(a: Str, b: Str)
    requires a != [] && Chunk(a).Some? && (StartsLine(a) ==> Chunk(a).value < |a| || a[|a| - 1] == LF)
    requires !(|a| == 1 && a[0] == SLASH)
    ensures Chunk(a + b) == Chunk(a)
    ensures StartsLine(a + b) == StartsLine(a) && StartsBlock(a + b) == StartsBlock(a)
  {
    hide StringTail;
    if a[0] == QUOTE {
      assert IsStringText(a[..Chunk(a).value]) by { StringLenCut(a, Chunk(a).value); }
      var n := Chunk(a).value;
      StringLenLocal(a[..n], a[n..] + b);
      assert a[..n] + (a[n..] + b) == a + b;
    } else if IsComment(a) && |a| > 2 {
      if StartsLine(a) && Chunk(a).value == |a| {
        assert a[2..][|a| - 3] == LF;
      }
      ItemLocal(a, b);
    }
  }

  lemma {:induction false} ContainerLocal(a: Str, b: Str, stack: seq<Unit>)
    requires stack != [] && ContainerTail(a, stack).Some?
    ensures ContainerTail(a + b, stack) == ContainerTail(a, stack)
    decreases |a|
  {
    hide Chunk;
    var c := a + b;
    var n := Chunk(a).value;
    ContainerProgress(a, stack);
    ChunkLocal(a, b);
    assert c[n..] == a[n..] + b;
    if a[0] == QUOTE || IsComment(a) {
      ContainerLocal(a[n..], b, stack);
    } else {
      assert c[1..] == a[1..] + b;
      if IsOpener(a[0]) {
        ContainerLocal(a[1..], b, stack + [a[0]]);
      } else if !IsCloser(a[0]) {
        ContainerLocal(a[1..], b, stack);
      } else if |stack| > 1 {
        ContainerLocal(a[1..], b, stack[..|stack| - 1]);
      }
    }
  }

  lemma ContainerProgress(a: Str, stack: seq<Unit>)
    requires stack != [] && ContainerTail(a, stack).Some?
    ensures a != [] && Chunk(a).Some?
    ensures StartsLine(a) ==> Chunk(a).value < |a|
    ensures !(|a| == 1 && a[0] == SLASH)
    ensures Chunk(a).value <= ContainerTail(a, stack).value
    ensures ContainerTail(a, stack) == Some(1) || Chunk(a).value < ContainerTail(a, stack).value
  {
    hide StringTail;
    if |a| == 1 { assert a[1..] == []; }
    if StartsLine(a) { assert a[|a|..] == []; }
    if IsCloser(a[0]) { assert Chunk(a) == Some(1); }
  }

  lemma ContainerUnfold(t: Str, stack: seq<Unit>)
    requires t != [] && stack != []
    ensures ContainerTail(t, stack)
         == if Chunk(t).None? then None
            else if t[0] == QUOTE || IsComment(t) then
              Shift(Chunk(t).value, ContainerTail(t[Chunk(t).value..], stack))
            else if IsOpener(t[0]) then Shift(1, ContainerTail(t[1..], stack + [t[0]]))
            else if IsCloser(t[0]) then
              if !Matches(stack[|stack| - 1], t[0]) then None
              else if |stack| == 1 then Some(1)
              else Shift(1, ContainerTail(t[1..], stack[..|stack| - 1]))
            else Shift(1, ContainerTail(t[1..], stack))
  {
    hide Chunk, IsComment;
  }

  lemma NotBoth(u: Unit)
    requires IsCloser(u)
    ensures !IsOpener(u) && u != QUOTE
  {}

  lemma {:induction false} ContainerCut(t: Str, n: nat, stack: seq<Unit>)
    requires stack != [] && ContainerTail(t, stack) == Some(n)
    ensures ContainerTail(t[..n], stack) == Some(n)
    decreases |t|
  {
    hide Chunk, ContainerTail, IsComment, Matches;
    var a := t[..n];
    ContainerProgress(t, stack);
    ContainerUnfold(t, stack);
    ContainerUnfold(a, stack);
    var k := Chunk(t).value;
    ChunkCut(t, n);
    assert a[k..] == t[k..][..n - k];
    if n == 1 {
      assert a[0] == t[0] && IsCloser(t[0]) && |stack| == 1;
      NotBoth(t[0]);
    } else if t[0] == QUOTE || IsComment(t) {
      ContainerCut(t[k..], n - k, stack);
    } else {
      if IsOpener(t[0]) {
        ContainerCut(t[1..], n - 1, stack + [t[0]]);
      } else if !IsCloser(t[0]) {
        ContainerCut(t[1..], n - 1, stack);
      } else {
        ContainerCut(t[1..], n - 1, stack[..|stack| - 1]);
      }
    }
  }

  lemma ChunkCut(t: Str, n: nat)
    requires t != [] && Chunk(t).Some? && Chunk(t).value <= n <= |t|
    requires n == 1 || Chunk(t).value < n
    ensures Chunk(t[..n]) == Chunk(t)
    ensures n > 1 || t[0] != SLASH ==> IsComment(t[..n]) == IsComment(t)
    ensures n == 1 ==> !IsComment(t[..n])
    ensures !(t[0] == QUOTE || IsComment(t)) ==> Chunk(t) == Some(1)
  {
    hide StringTail;
    var k := Chunk(t).value;
    if t[0] == QUOTE {
      StringLenCut(t, k);
      StringLenLocal(t[..k], t[k..n]);
      assert t[..k] + t[k..n] == t[..n];
    } else if IsComment(t) {
      if StartsLine(t) { assert IndexOf(t[2..], LF) < |t| - 2; }
      ItemCut(t, n);
    }
  }

  // ---------------------------------------------------------------- JSONC to JSON

  /** A comment with everything but its line breaks turned into spaces. */
  function Blank(t: Str): (r: Str)
    ensures |r| == |t|
    ensures forall i :: 0 <= i < |t| ==> r[i] == if t[i] == CR || t[i] == LF then t[i] else SPACE
  {
    seq(|t|, i requires 0 <= i < |t| => if t[i] == CR || t[i] == LF then t[i] else SPACE)
  }

  function Join(a: Str, r: Option<Str>): Option<Str> {
    if r.None? then None else Some(a + r.value)
  }

  /** stripJsonComments; None when it throws. */
  function Strip(t: Str): Option<Str>
    decreases |t|
  {
    if t == [] then Some([])
    else if Chunk(t).None? then None
    else
      var n := Chunk(t).value;
      Join(if IsComment(t) then Blank(t[..n]) else t[..n], Strip(t[n..]))
  }

  function SpaceLen(t: Str): (n: nat)
    ensures n <= |t|
    ensures forall i :: 0 <= i < n ==> IsSpace(t[i])
    ensures n < |t| ==> !IsSpace(t[n])
  {
    if t == [] || !IsSpace(t[0]) then 0 else 1 + SpaceLen(t[1..])
  }

  predicate IsTrailingComma(t: Str) {
    t != [] && t[0] == COMMA
    && var n := 1 + SpaceLen(t[1..]);
       n < |t| && IsCloser(t[n])
  }

  /** removeTrailingCommas; None when it throws. */
  function DropCommas(t: Str): Option<Str>
    decreases |t|
  {
    if t == [] then Some([])
    else if t[0] == QUOTE then
      if StringLen(t).None? then None
      else Join(t[..StringLen(t).value], DropCommas(t[StringLen(t).value..]))
    else if IsTrailingComma(t) then DropCommas(t[1..])
    else Join([t[0]], DropCommas(t[1..]))
  }

  /** parseJsoncValue; None when it throws. */
  function ParseJsonc(t: Str): Option<Json> {
    var s := Strip(t);
    if s.None? then None
    else
      var d := DropCommas(s.value);
      if d.None? then None else JsonParse(d.value)
  }

  // ---------------------------------------------------------------- scalars

  predicate EndsScalar(t: Str) {
    t == [] || IsSpace(t[0]) || t[0] == COMMA || t[0] == CLOSE_BRACE || IsComment(t)
  }

  function ScalarLen(t: Str): (n: nat)
    ensures n <= |t|
  {
    if EndsScalar(t) then 0 else 1 + ScalarLen(t[1..])
  }

  /** A scalar ends where it first may end. */
  lemma {:induction false} ScalarEnds(t: Str)
    ensures EndsScalar(t[ScalarLen(t)..])
    ensures forall i :: 0 <= i < ScalarLen(t) ==> !EndsScalar(t[i..])
  {
    hide EndsScalar;
    assert t[0..] == t;
    if !EndsScalar(t) {
      assert t != [] by { EmptyEnds(); }
      var n := ScalarLen(t[1..]);
      ScalarEnds(t[1..]);
      assert t[1..][n..] == t[n + 1..];
      forall i | 0 <= i <= n ensures !EndsScalar(t[i..]) {
        if i > 0 { assert t[i..] == t[1..][i - 1..]; }
      }
    }
  }

  lemma EmptyEnds()
    ensures EndsScalar([])
  {}

  /** scanValue; None when it throws. */
  function ValueLen(t: Str): (n: Option<nat>)
    ensures n.Some? ==> 0 < n.value <= |t|
  {
    if t == [] || t[0] == COMMA || t[0] == CLOSE_BRACE then None
    else if t[0] == QUOTE then StringLen(t)
    else if IsOpener(t[0]) then ContainerLen(t)
    else
      var n := ScalarLen(t);
      if n == 0 || ParseJsonc(t[..n]).None? then None else Some(n)
  }

  /** The texts of values: a literal, a balanced container, or a word with a value. */
  predicate IsValueText(v: Str) {
    if v == [] then false
    else if v[0] == QUOTE then IsStringText(v)
    else if IsOpener(v[0]) then ContainerLen(v) == Some(|v|)
    else WordValue(v).Some?
  }

  /** A text no comment starts in. */
  ghost predicate NoComment(t: Str) {
    forall i :: 0 <= i < |t| ==> !IsComment(t[i..])
  }

  lemma NoCommentTail(t: Str, n: nat)
    requires NoComment(t) && n <= |t|
    ensures NoComment(t[n..])
  {
    forall i | 0 <= i < |t| - n ensures !IsComment(t[n..][i..]) {
      assert t[n..][i..] == t[n + i..];
    }
  }

  lemma {:induction false} StripNothing(t: Str)
    requires NoComment(t) && Strip(t).Some?
    ensures Strip(t) == Some(t)
    decreases |t|
  {
    hide IsComment;
    if t != [] {
      assert !IsComment(t) by { assert t[0..] == t; }
      var n := Chunk(t).value;
      NoCommentTail(t, n);
      StripNothing(t[n..]);
      assert t[..n] + t[n..] == t;
    }
  }

  lemma {:induction false} DropNothing(t: Str)
    requires COMMA !in t && DropCommas(t).Some?
    ensures DropCommas(t) == Some(t)
    decreases |t|
  {
    hide StringTail;
    if t != [] {
      var n := if t[0] == QUOTE then StringLen(t).value else 1;
      DropNothing(t[n..]);
      assert t[..n] + t[n..] == t;
      assert t[..1] == [t[0]];
    }
  }

  /** A single-value text made of something else than a literal or a container is one word. */
  lemma ParseScalar(t: Str)
    requires JsonParse(t).Some? && t != []
    requires (forall u <- t :: !IsJsonSpace(u)) && t[0] != QUOTE && !IsOpener(t[0])
    ensures WordValue(t).Some?
  {
    hide WordValue, ParseItems, ParseEntries, Literal, StringTail;
    PunctFails(t);
    var ts := Lex(t).value;
    if !IsPunct(t[0]) {
      var n := WordLen(t);
      assert ts[1..] == [];
      assert ts == [Word(WordValue(t[..n]).value)] + Lex(t[n..]).value;
      assert Lex(t[n..]).value == [];
      assert n < |t| ==> t[n] in t;
      if n < |t| { LexSomething(t[n..]); }
      assert t[..n] == t;
    }
  }

  lemma PunctFails(t: Str)
    ensures t != [] && IsPunct(t[0]) && !IsOpener(t[0]) ==> JsonParse(t).None?
  {
    hide Lex, ParseItems, ParseEntries;
    if t != [] && IsPunct(t[0]) {
      assert t == [t[0]] + t[1..];
      LexMark(t[0], t[1..]);
    }
  }

  lemma LexSomething(t: Str)
    requires t != [] && !IsJsonSpace(t[0])
    ensures Lex(t) != Some([])
  {}

  lemma ScalarIsWord(t: Str)
    requires t != [] && ScalarLen(t) == |t| && t[0] != QUOTE && !IsOpener(t[0]) && ParseJsonc(t).Some?
    ensures WordValue(t).Some?
  {
    hide JsonParse, WordValue, Strip, DropCommas, ScalarLen;
    ScalarEnds(t);
    assert NoComment(t);
    StripNothing(t);
    forall i | 0 <= i < |t| ensures t[i] != COMMA && !IsJsonSpace(t[i]) { assert !EndsScalar(t[i..]); }
    DropNothing(t);
    assert !EndsScalar(t[0..]) && t[0..] == t;
    ParseScalar(t);
  }

  lemma {:induction false} SafeText(t: Str)
    requires forall u <- t :: IsSafeUnit(u) && !IsSpace(u)
    ensures Strip(t) == Some(t) && DropCommas(t) == Some(t)
  {
    hide IsSpace;
    if t != [] {
      assert t[0] in t;
      SafeText(t[1..]);
      assert t[..1] + t[1..] == t && [t[0]] + t[1..] == t;
    }
  }

  lemma WordParses(w: Str)
    requires WordValue(w).Some?
    ensures ParseJsonc(w) == WordValue(w)
  {
    hide Lex, WordValue, DropCommas, Strip;
    WordUnits(w);
    SafeText(w);
    LexWord(w, []);
    assert w + [] == w;
    LexNil();
  }

  lemma WordScalarLen(w: Str, b: Str)
    requires WordValue(w).Some? && EndsScalar(b)
    ensures ScalarLen(w + b) == |w|
  {
    hide WordValue, ScalarLen, IsSpace;
    WordUnits(w);
    var t := w + b;
    var n := ScalarLen(t);
    ScalarEnds(t);
    assert t[|w|..] == b;
    forall i | 0 <= i < |w| ensures !EndsScalar(t[i..]) {
      assert t[i..][0] == w[i] && w[i] in w;
    }
  }

  /** A value text is read back whole when what follows may follow a scalar. */
  lemma ValueLocal(v: Str, b: Str)
    requires IsValueText(v) && EndsScalar(b)
    ensures ValueLen(v + b) == Some(|v|)
  {
    hide WordValue, StringTail, ContainerTail, ParseJsonc;
    var t := v + b;
    if v[0] == QUOTE {
      StringLenLocal(v, b);
    } else if IsOpener(v[0]) {
      ContainerLocal(v[1..], b, [v[0]]);
      assert t[1..] == v[1..] + b;
    } else {
      WordUnits(v);
      assert v[0] in v;
      WordScalarLen(v, b);
      WordParses(v);
      assert t[..|v|] == v;
    }
  }

  lemma ValueCut(t: Str)
    requires ValueLen(t).Some?
    ensures IsValueText(t[..ValueLen(t).value])
  {
    hide WordValue, StringTail, ContainerTail, ParseJsonc;
    var n := ValueLen(t).value;
    var v := t[..n];
    if t[0] == QUOTE {
      StringLenCut(t, n);
    } else if IsOpener(t[0]) {
      ContainerCut(t[1..], n - 1, [t[0]]);
      assert v[1..] == t[1..][..n - 1];
    } else {
      CutScalar(t, n);
      ScalarIsWord(v);
    }
  }

  lemma CutScalar(t: Str, n: nat)
    requires n == ScalarLen(t)
    ensures ScalarLen(t[..n]) == n
  {
    hide ScalarLen, EndsScalar;
    var v := t[..n];
    ScalarEnds(t);
    ScalarEnds(v);
    forall i | 0 <= i < n ensures !EndsScalar(v[i..]) { ScalarPrefix(t, n, i); }
  }

  lemma ScalarPrefix(t: Str, n: nat, i: nat)
    requires i < n <= |t| && !EndsScalar(t[i..])
    ensures !EndsScalar(t[..n][i..])
  {
    assert t[..n][i..] == t[i..n];
    assert t[i..n][0] == t[i..][0];
    if n - i > 1 { assert t[i..n][1] == t[i..][1]; }
  }

  // ---------------------------------------------------------------- documents

  /** A property with all its text; `key` and `value` are source text. */
  datatype Member = Member(pre: Str, key: Str, beforeColon: Str, afterColon: Str, value: Str, post: Str, comma: bool)

  datatype Body = Body(members: seq<Member>, tail: Str, rest: Str)

  datatype Doc = Doc(lead: Str, members: seq<Member>, tail: Str, trail: Str)

  function CommaText(m: Member): Str { if m.comma then [COMMA] else [] }

  function AfterValue(m: Member): Str { m.post + CommaText(m) }
  function FromValue(m: Member): Str { m.value + AfterValue(m) }
  function FromColon(m: Member): Str { [COLON] + (m.afterColon + FromValue(m)) }
  function FromKey(m: Member): Str { m.key + (m.beforeColon + FromColon(m)) }
  function MemberText(m: Member): Str { m.pre + FromKey(m) }

  function BodyText(ms: seq<Member>, tail: Str): Str {
    if ms == [] then tail + [CLOSE_BRACE] else MemberText(ms[0]) + BodyText(ms[1..], tail)
  }

  function DocText(d: Doc): Str {
    d.lead + ([OPEN_BRACE] + (BodyText(d.members, d.tail) + d.trail))
  }

  predicate GoodMember(m: Member) {
    && Closed(m.pre) && Closed(m.beforeColon) && Closed(m.afterColon) && Closed(m.post)
    && IsStringText(m.key) && Literal(m.key).Some?
    && IsValueText(m.value)
  }

  /** Only the last member may lack a comma, and then nothing stands between its trivia and the brace. */
  predicate GoodBody(ms: seq<Member>, tail: Str) {
    if ms == [] then Closed(tail)
    else GoodMember(ms[0]) && (!ms[0].comma ==> |ms| == 1 && tail == []) && GoodBody(ms[1..], tail)
  }

  predicate GoodDoc(d: Doc) {
    Closed(d.lead) && GoodBody(d.members, d.tail) && Skip(d.trail) == Some(|d.trail|)
  }

  /** A text cut in two. */
  datatype Cut = Cut(before: Str, after: Str)

  function CutAt(t: Str, n: Option<nat>): (r: Option<Cut>)
    requires n.Some? ==> n.value <= |t|
    ensures r.Some? ==> r.value.before + r.value.after == t
  {
    if n.None? then None else Some(Cut(t[..n.value], t[n.value..]))
  }

  function TakeTrivia(t: Str): Option<Cut> { CutAt(t, Skip(t)) }

  function TakeKey(t: Str): Option<Cut> {
    if t == [] || t[0] != QUOTE then None
    else
      var c := CutAt(t, StringLen(t));
      if c.None? || Literal(c.value.before).None? then None else c
  }

  function TakeColon(t: Str): Option<Cut> {
    if t == [] || t[0] != COLON then None else CutAt(t, Some(1))
  }

  function TakeValue(t: Str): Option<Cut> { CutAt(t, ValueLen(t)) }

  /** The first half of a member: up to and including the colon. */
  datatype NamePart = NamePart(pre: Str, key: Str, beforeColon: Str, after: Str)

  function ReadName(t: Str): Option<NamePart> {
    var c1 := TakeTrivia(t);
    if c1.None? then None else
    var c2 := TakeKey(c1.value.after);
    if c2.None? then None else
    var c3 := TakeTrivia(c2.value.after);
    if c3.None? then None else
    var c4 := TakeColon(c3.value.after);
    if c4.None? then None else
    Some(NamePart(c1.value.before, c2.value.before, c3.value.before, c4.value.after))
  }

  /** The second half: the value, its trivia and its comma, if any. */
  datatype ValuePart = ValuePart(afterColon: Str, value: Str, post: Str, comma: bool, after: Str)

  function ReadValue(t: Str): Option<ValuePart> {
    var c1 := TakeTrivia(t);
    if c1.None? then None else
    var c2 := TakeValue(c1.value.after);
    if c2.None? then None else
    var c3 := TakeTrivia(c2.value.after);
    if c3.None? then None else
    var rest := c3.value.after;
    if rest == [] || (rest[0] != COMMA && rest[0] != CLOSE_BRACE) then None else
    var comma := rest[0] == COMMA;
    Some(ValuePart(c1.value.before, c2.value.before, c3.value.before, comma, if comma then rest[1..] else rest))
  }

  /** One turn of the loop in scanRootObject: a member, and the text after it. */
  function ReadMember(t: Str): Option<(Member, Str)> {
    var n := ReadName(t);
    if n.None? then None else
    var v := ReadValue(n.value.after);
    if v.None? then None else
    Some((Member(n.value.pre, n.value.key, n.value.beforeColon,
                 v.value.afterColon, v.value.value, v.value.post, v.value.comma), v.value.after))
  }

  lemma TakeTriviaText(t: Str)
    requires TakeTrivia(t).Some? && TakeTrivia(t).value.after != []
    ensures var c := TakeTrivia(t).value; c.before + c.after == t && Closed(c.before) && !StartsTrivia(c.after)
  {
    SkipSplit(t);
  }

  lemma TakeKeyText(t: Str)
    requires TakeKey(t).Some?
    ensures var c := TakeKey(t).value;
            c.before + c.after == t && IsStringText(c.before) && Literal(c.before).Some? && c.before != []
  {
    hide Literal, StringTail;
    StringLenCut(t, StringLen(t).value);
  }

  lemma TakeColonText(t: Str)
    requires TakeColon(t).Some?
    ensures t == [COLON] + TakeColon(t).value.after
  {}

  lemma TakeValueText(t: Str)
    requires TakeValue(t).Some?
    ensures var c := TakeValue(t).value; c.before + c.after == t && IsValueText(c.before) && c.before != []
  {
    hide ValueLen, IsValueText;
    ValueCut(t);
    ValueTextNonempty(TakeValue(t).value.before);
  }

  lemma ValueTextNonempty(v: Str)
    requires IsValueText(v)
    ensures v != []
  {}

  lemma ReadNameText(t: Str)
    requires ReadName(t).Some?
    ensures var n := ReadName(t).value;
            t == n.pre + (n.key + (n.beforeColon + ([COLON] + n.after)))
            && Closed(n.pre) && IsStringText(n.key) && Literal(n.key).Some? && Closed(n.beforeColon) && n.key != []
  {
    hide TakeTrivia, TakeKey, TakeColon, Literal, IsStringText, Closed;
    var t1 := TakeTrivia(t).value.after;
    var t2 := TakeKey(t1).value.after;
    TakeKeyText(t1);
    TakeTriviaText(t);
    TakeColonText(TakeTrivia(t2).value.after);
    TakeTriviaText(t2);
  }

  lemma ReadValueText(t: Str)
    requires ReadValue(t).Some?
    ensures var v := ReadValue(t).value;
            t == v.afterColon + (v.value + (v.post + ((if v.comma then [COMMA] else []) + v.after)))
            && Closed(v.afterColon) && IsValueText(v.value) && Closed(v.post)
            && (!v.comma ==> v.after != [] && v.after[0] == CLOSE_BRACE)
  {
    hide TakeTrivia, TakeValue, IsValueText, Closed;
    var t1 := TakeTrivia(t).value.after;
    TakeValueText(t1);
    TakeTriviaText(t);
    var t2 := TakeValue(t1).value.after;
    TakeTriviaText(t2);
    var v := ReadValue(t).value;
    assert TakeTrivia(t2).value.after == (if v.comma then [COMMA] else []) + v.after;
  }

  lemma ReadMemberText(t: Str)
    requires ReadMember(t).Some?
    ensures var (m, rest) := ReadMember(t).value;
            MemberText(m) + rest == t && |rest| < |t| && GoodMember(m)
            && (!m.comma ==> rest != [] && rest[0] == CLOSE_BRACE)
  {
    hide ReadName, ReadValue, Literal, IsStringText, IsValueText, Closed, MemberText;
    var (m, rest) := ReadMember(t).value;
    ReadNameText(t);
    ReadValueText(ReadName(t).value.after);
    assert m.post + (CommaText(m) + rest) == AfterValue(m) + rest;
    MemberSplit(m, rest);
    MemberTextNonempty(m);
  }

  lemma MemberTextNonempty(m: Member)
    requires m.key != []
    ensures |MemberText(m)| > 0
  {}

  lemma MemberSplit(m: Member, b: Str)
    ensures m.pre + (m.key + (m.beforeColon + ([COLON] + (m.afterColon + (m.value + (AfterValue(m) + b))))))
         == MemberText(m) + b
  {
    assert FromValue(m) + b == m.value + (AfterValue(m) + b);
    assert FromColon(m) + b == [COLON] + (m.afterColon + (FromValue(m) + b));
    assert FromKey(m) + b == m.key + (m.beforeColon + (FromColon(m) + b));
  }

  /** A proper start for the text after a member. */
  predicate Follows(m: Member, b: Str) {
    m.comma || (b != [] && b[0] == CLOSE_BRACE)
  }

  lemma AfterValueEnds(m: Member, b: Str)
    requires GoodMember(m) && Follows(m, b)
    ensures EndsScalar(AfterValue(m) + b)
  {
    hide Item;
    var c := CommaText(m) + b;
    assert AfterValue(m) + b == m.post + c;
    if m.post == [] {
      assert m.post + c == c;
    } else {
      ItemLocal(m.post, c);
      ItemStarts(m.post + c);
    }
  }

  lemma ItemStarts(t: Str)
    requires Item(t) > 0
    ensures StartsTrivia(t)
  {}

  lemma ValueStarts(v: Str, b: Str)
    requires IsValueText(v)
    ensures !StartsTrivia(v + b)
  {
    hide WordValue;
    if v[0] != QUOTE && !IsOpener(v[0]) {
      WordUnits(v);
      assert v[0] in v;
    }
  }

  lemma TakeTriviaBack(a: Str, b: Str)
    requires Closed(a) && !StartsTrivia(b)
    ensures TakeTrivia(a + b) == Some(Cut(a, b))
  {
    hide Closed;
    SkipNothing(b);
    SkipClosed(a, b);
  }

  lemma TakeKeyBack(k: Str, b: Str)
    requires IsStringText(k) && Literal(k).Some?
    ensures TakeKey(k + b) == Some(Cut(k, b)) && !StartsTrivia(k + b)
  {
    hide Literal, StringTail;
    StringLenLocal(k, b);
    assert (k + b)[..|k|] == k && (k + b)[|k|..] == b;
  }

  lemma TakeValueBack(v: Str, b: Str)
    requires IsValueText(v) && EndsScalar(b)
    ensures TakeValue(v + b) == Some(Cut(v, b)) && !StartsTrivia(v + b)
  {
    hide IsValueText, ValueLen;
    ValueLocal(v, b);
    ValueStarts(v, b);
  }

  lemma ReadMemberBack(m: Member, b: Str)
    requires GoodMember(m) && Follows(m, b)
    ensures ReadMember(MemberText(m) + b) == Some((m, b))
  {
    hide TakeTrivia, TakeKey, TakeValue, Closed, Literal, IsValueText, IsStringText, MemberText, EndsScalar;
    var t7 := CommaText(m) + b;
    var t6 := m.post + t7;
    var t5 := m.value + t6;
    var t4 := m.afterColon + t5;
    var t3 := [COLON] + t4;
    var t2 := m.beforeColon + t3;
    var t1 := m.key + t2;
    MemberSplit(m, b);
    assert AfterValue(m) + b == t6;
    TakeKeyBack(m.key, t2);
    TakeTriviaBack(m.pre, t1);
    TakeTriviaBack(m.beforeColon, t3);
    assert TakeColon(t3) == Some(Cut([COLON], t4));
    AfterValueEnds(m, b);
    TakeValueBack(m.value, t6);
    TakeTriviaBack(m.afterColon, t5);
    TakeTriviaBack(m.post, t7);
    assert m.comma ==> t7[1..] == b;
    assert !m.comma ==> t7 == b;
  }

  function ReadBody(t: Str): Option<Body>
    decreases |t|
  {
    var c := TakeTrivia(t);
    if c.None? then None
    else if c.value.after != [] && c.value.after[0] == CLOSE_BRACE then
      Some(Body([], c.value.before, c.value.after[1..]))
    else if ReadMember(t).None? then None
    else
      var (m, rest) := ReadMember(t).value;
      ReadMemberText(t);
      var b := ReadBody(rest);
      if b.None? then None else Some(Body([m] + b.value.members, b.value.tail, b.value.rest))
  }

  function ReadDoc(s: Str): Option<Doc> {
    var c := TakeTrivia(s);
    if c.None? || c.value.after == [] || c.value.after[0] != OPEN_BRACE then None
    else
      var b := ReadBody(c.value.after[1..]);
      if b.None? || Skip(b.value.rest) != Some(|b.value.rest|) then None
      else Some(Doc(c.value.before, b.value.members, b.value.tail, b.value.rest))
  }

  lemma {:induction false} ReadBodyText(t: Str)
    requires ReadBody(t).Some?
    ensures var b := ReadBody(t).value;
            BodyText(b.members, b.tail) + b.rest == t && GoodBody(b.members, b.tail)
    decreases |t|
  {
    hide TakeTrivia, ReadMember, MemberText, GoodMember, Closed, BodyText, GoodBody;
    var c := TakeTrivia(t).value;
    if c.after != [] && c.after[0] == CLOSE_BRACE {
      TakeTriviaText(t);
      EmptyBody(c.before);
      assert c.after == [CLOSE_BRACE] + c.after[1..];
      assert c.before + [CLOSE_BRACE] + c.after[1..] == t;
    } else {
      var (m, rest) := ReadMember(t).value;
      ReadMemberText(t);
      ReadBodyText(rest);
      var b := ReadBody(rest).value;
      if !m.comma { LastOne(rest); }
      BodyCons(m, b.members, b.tail);
      assert MemberText(m) + BodyText(b.members, b.tail) + b.rest == MemberText(m) + (BodyText(b.members, b.tail) + b.rest);
    }
  }

  lemma EmptyBody(tail: Str)
    ensures BodyText([], tail) == tail + [CLOSE_BRACE] && (GoodBody([], tail) <==> Closed(tail))
  {}

  lemma BodyCons(m: Member, ms: seq<Member>, tail: Str)
    ensures BodyText([m] + ms, tail) == MemberText(m) + BodyText(ms, tail)
    ensures GoodBody([m] + ms, tail) <==> GoodMember(m) && (!m.comma ==> ms == [] && tail == []) && GoodBody(ms, tail)
  {
    hide MemberText, GoodMember, Closed;
    assert ([m] + ms)[1..] == ms;
  }

  /** After a member without a comma the body ends. */
  lemma LastOne(rest: Str)
    requires rest != [] && rest[0] == CLOSE_BRACE
    ensures ReadBody(rest).Some? ==> ReadBody(rest).value.members == [] && ReadBody(rest).value.tail == []
  {
    hide TakeTrivia, ReadMember, Closed;
    assert [] + rest == rest;
    TakeTriviaBack([], rest) by { ClosedNil(); }
  }

  lemma ClosedNil()
    ensures Closed([])
  {}

  lemma {:induction false} ReadBodyBack(ms: seq<Member>, tail: Str, rest: Str)
    requires GoodBody(ms, tail)
    ensures ReadBody(BodyText(ms, tail) + rest) == Some(Body(ms, tail, rest))
    decreases |ms|
  {
    hide TakeTrivia, ReadMember, MemberText, GoodMember, Closed;
    var t := BodyText(ms, tail) + rest;
    if ms == [] {
      var u := [CLOSE_BRACE] + rest;
      assert t == tail + u && u[1..] == rest;
      TakeTriviaBack(tail, u);
    } else {
      var u := BodyText(ms[1..], tail) + rest;
      assert t == MemberText(ms[0]) + u;
      if !ms[0].comma {
        assert BodyText(ms[1..], tail) == [CLOSE_BRACE];
      }
      ReadMemberBack(ms[0], u);
      MemberNotClose(ms[0], u);
      ReadBodyBack(ms[1..], tail, rest);
      assert [ms[0]] + ms[1..] == ms;
    }
  }

  lemma MemberNotClose(m: Member, b: Str)
    requires GoodMember(m)
    ensures var c := TakeTrivia(MemberText(m) + b); c.Some? && c.value.after != [] && c.value.after[0] == QUOTE
  {
    hide TakeTrivia, Closed;
    assert MemberText(m) + b == m.pre + (FromKey(m) + b);
    assert (FromKey(m) + b)[0] == QUOTE;
    TakeTriviaBack(m.pre, FromKey(m) + b);
  }

  /** Reading loses nothing, and yields only well-formed documents. */
  lemma ReadThenWrite(s: Str)
    requires ReadDoc(s).Some?
    ensures GoodDoc(ReadDoc(s).value) && DocText(ReadDoc(s).value) == s
  {
    hide TakeTrivia, Closed, GoodBody, BodyText, ReadBody;
    var c := TakeTrivia(s).value;
    TakeTriviaText(s);
    ReadBodyText(c.after[1..]);
    assert c.after == [OPEN_BRACE] + c.after[1..];
  }

  /** Every well-formed document is accepted, and read back as it was. */
  lemma WriteThenRead(d: Doc)
    requires GoodDoc(d)
    ensures ReadDoc(DocText(d)) == Some(d)
  {
    hide TakeTrivia, Closed, GoodBody, BodyText, ReadBody;
    var b := BodyText(d.members, d.tail) + d.trail;
    var u := [OPEN_BRACE] + b;
    TakeTriviaBack(d.lead, u);
    assert u[1..] == b;
    ReadBodyBack(d.members, d.tail, d.trail);
  }

  // ---------------------------------------------------------------- spans

  /** JsoncProperty: the decoded key, and where its literal and its value stand. */
  datatype Property = Property(key: Str, keyStart: nat, valueStart: nat, valueEnd: nat)

  datatype Root = Root(closeIndex: nat, properties: seq<Property>)

  function KeyOf(m: Member): Str {
    var k := Literal(m.key);
    if k.None? then [] else k.value
  }

  function PropertyOf(m: Member, at: nat): Property {
    var keyStart := at + |m.pre|;
    var valueStart := keyStart + |m.key| + |m.beforeColon| + 1 + |m.afterColon|;
    Property(KeyOf(m), keyStart, valueStart, valueStart + |m.value|)
  }

  function Properties(ms: seq<Member>, at: nat): (ps: seq<Property>)
    ensures |ps| == |ms|
  {
    if ms == [] then [] else [PropertyOf(ms[0], at)] + Properties(ms[1..], at + |MemberText(ms[0])|)
  }

  function DocRoot(d: Doc): Root {
    var at := |d.lead| + 1;
    Root(at + |BodyText(d.members, d.tail)| - 1, Properties(d.members, at))
  }

  /** What scanRootObject returns; None when it throws. */
  function ScanRoot(s: Str): Option<Root> {
    var d := ReadDoc(s);
    if d.None? then None else Some(DocRoot(d.value))
  }
}
