/**
 * The loops of the JSONC editor, over an immutable source and a cursor. Each returns what the grammar
 * says about the text from `index` on; None stands for a thrown error.
 */
module JsoncScanner {
  import opened Units
  import opened JsonText
  import opened JsoncGrammar

  lemma Slices(s: Str, i: nat, n: nat)
    requires i + n <= |s|
    ensures s[i..][n..] == s[i + n..] && s[i..][..n] == s[i..i + n]
  {}

  lemma StringFrom(s: Str, i: nat)
    requires i < |s|
    ensures var n := StringTail(s[i..]);
            && (s[i] == BACKSLASH ==>
                  Shift(i, n) == if i + 1 == |s| then None else Shift(i + 2, StringTail(s[i + 2..])))
            && (s[i] == QUOTE ==> Shift(i, n) == Some(i + 1))
            && (s[i] == LF || s[i] == CR ==> n == None)
            && (IsPlain(s[i]) ==> Shift(i, n) == Shift(i + 1, StringTail(s[i + 1..])))
  {
    Slices(s, i, 1);
    if i + 2 <= |s| { Slices(s, i, 2); }
  }

  method ScanString(source: Str, index: nat) returns (end: Option<nat>)
    requires index < |source| && source[index] == QUOTE
    ensures end == Shift(index, StringLen(source[index..]))
  {
    hide StringTail;
    ghost var goal := Shift(index, StringLen(source[index..]));
    var cursor := index + 1;
    Slices(source, index, 1);
    while cursor < |source|
      invariant index < cursor <= |source| + 1
      invariant goal == if cursor <= |source| then Shift(cursor, StringTail(source[cursor..])) else None
    {
      StringFrom(source, cursor);
      var character := source[cursor];
      if character == BACKSLASH {
        cursor := cursor + 2;
        continue;
      }
      if character == QUOTE { return Some(cursor + 1); }
      if character == LF || character == CR { return None; }
      cursor := cursor + 1;
    }
    if cursor <= |source| { assert source[cursor..] == []; }
    NoString();
    return None;
  }

  lemma NoString()
    ensures StringTail([]) == None
  {}

  predicate LineAt(s: Str, i: nat) { i + 1 < |s| && s[i] == SLASH && s[i + 1] == SLASH }
  predicate BlockAt(s: Str, i: nat) { i + 1 < |s| && s[i] == SLASH && s[i + 1] == STAR }

  /** skipLineComment, from the start of the comment. */
  function LineEnd(s: Str, i: nat): (end: nat)
    requires LineAt(s, i)
    ensures i < end <= |s|
  {
    i + LineLen(s[i..])
  }

  /** skipBlockComment, from the start of the comment. */
  function BlockEnd(s: Str, i: nat): (end: Option<nat>)
    requires BlockAt(s, i)
    ensures end.Some? ==> i < end.value <= |s|
  {
    Shift(i, BlockLen(s[i..]))
  }

  lemma SkipUnfold(t: Str)
    requires t != []
    ensures Skip(t)
         == if IsSpace(t[0]) then Shift(1, Skip(t[1..]))
            else if StartsLine(t) then Shift(LineLen(t), Skip(t[LineLen(t)..]))
            else if StartsBlock(t) then
              if BlockLen(t).None? then None else Shift(BlockLen(t).value, Skip(t[BlockLen(t).value..]))
            else Some(0)
  {}

  lemma SkipFrom(s: Str, i: nat)
    requires i < |s|
    ensures Shift(i, Skip(s[i..]))
         == if IsSpace(s[i]) then Shift(i + 1, Skip(s[i + 1..]))
            else if LineAt(s, i) then Shift(LineEnd(s, i), Skip(s[LineEnd(s, i)..]))
            else if BlockAt(s, i) then
              if BlockEnd(s, i).None? then None else Shift(BlockEnd(s, i).value, Skip(s[BlockEnd(s, i).value..]))
            else Some(i)
  {
    hide LineLen, BlockLen, Skip, IsSpace;
    SkipUnfold(s[i..]);
    Slices(s, i, 1);
    if LineAt(s, i) { Slices(s, i, LineEnd(s, i) - i); }
    if BlockAt(s, i) && BlockEnd(s, i).Some? { Slices(s, i, BlockEnd(s, i).value - i); }
  }

  method SkipTrivia(source: Str, index: nat) returns (end: Option<nat>)
    requires index <= |source|
    ensures end == Shift(index, Skip(source[index..]))
  {
    hide Skip, LineEnd, BlockEnd, IsSpace;
    var cursor := index;
    while cursor < |source|
      invariant index <= cursor <= |source|
      invariant Shift(index, Skip(source[index..])) == Shift(cursor, Skip(source[cursor..]))
    {
      SkipFrom(source, cursor);
      if IsSpace(source[cursor]) {
        cursor := cursor + 1;
        continue;
      }
      if LineAt(source, cursor) {
        cursor := LineEnd(source, cursor);
        continue;
      }
      if BlockAt(source, cursor) {
        var e := BlockEnd(source, cursor);
        if e.None? { return None; }
        cursor := e.value;
        continue;
      }
      return Some(cursor);
    }
    assert source[cursor..] == [];
    NothingToSkip();
    return Some(cursor);
  }

  lemma NothingToSkip()
    ensures Skip([]) == Some(0)
  {}

  /** Where the literal or comment at `i` ends. */
  ghost function ChunkEnd(s: Str, i: nat): (end: Option<nat>)
    requires i < |s|
  {
    Shift(i, Chunk(s[i..]))
  }

  lemma ChunkFrom(s: Str, i: nat)
    requires i < |s|
    ensures ChunkEnd(s, i)
         == if s[i] == QUOTE then Shift(i, StringLen(s[i..]))
            else if LineAt(s, i) then Some(LineEnd(s, i))
            else if BlockAt(s, i) then BlockEnd(s, i)
            else Some(i + 1)
    ensures IsComment(s[i..]) == (LineAt(s, i) || BlockAt(s, i))
    ensures ChunkEnd(s, i).Some? ==> i < ChunkEnd(s, i).value <= |s|
  {
    hide StringLen, LineLen, BlockLen;
  }

  lemma ContainerShifted(t: Str, stack: seq<Unit>, i: nat)
    requires t != [] && stack != []
    ensures Shift(i, ContainerTail(t, stack))
         == if Chunk(t).None? then None
            else if t[0] == QUOTE || IsComment(t) then
              Shift(i + Chunk(t).value, ContainerTail(t[Chunk(t).value..], stack))
            else if IsOpener(t[0]) then Shift(i + 1, ContainerTail(t[1..], stack + [t[0]]))
            else if IsCloser(t[0]) then
              if !Matches(stack[|stack| - 1], t[0]) then None
              else if |stack| == 1 then Some(i + 1)
              else Shift(i + 1, ContainerTail(t[1..], stack[..|stack| - 1]))
            else Shift(i + 1, ContainerTail(t[1..], stack))
  {
    hide Chunk, ContainerTail, IsComment, Matches, IsOpener, IsCloser;
    ContainerUnfold(t, stack);
  }

  lemma ContainerFrom(s: Str, i: nat, stack: seq<Unit>)
    requires i < |s| && stack != []
    ensures var n := Shift(i, ContainerTail(s[i..], stack));
            if ChunkEnd(s, i).None? then n == None
            else if s[i] == QUOTE || IsComment(s[i..]) then
              var e := ChunkEnd(s, i).value;
              i < e <= |s| && n == Shift(e, ContainerTail(s[e..], stack))
            else if IsOpener(s[i]) then n == Shift(i + 1, ContainerTail(s[i + 1..], stack + [s[i]]))
            else if IsCloser(s[i]) then
              if !Matches(stack[|stack| - 1], s[i]) then n == None
              else if |stack| == 1 then n == Some(i + 1)
              else n == Shift(i + 1, ContainerTail(s[i + 1..], stack[..|stack| - 1]))
            else n == Shift(i + 1, ContainerTail(s[i + 1..], stack))
  {
    hide Chunk, ContainerTail, IsComment, Matches, IsOpener, IsCloser;
    ContainerShifted(s[i..], stack, i);
    Slices(s, i, 1);
    if ChunkEnd(s, i).Some? { Slices(s, i, ChunkEnd(s, i).value - i); }
  }

  method ScanContainer(source: Str, index: nat) returns (end: Option<nat>)
    requires index < |source| && IsOpener(source[index])
    ensures end == Shift(index, ContainerLen(source[index..]))
  {
    hide ContainerTail, ChunkEnd, StringLen, IsComment, LineEnd, BlockEnd;
    ghost var goal := Shift(index, ContainerLen(source[index..]));
    var stack := [source[index]];
    var cursor := index + 1;
    Slices(source, index, 1);
    while cursor < |source|
      invariant index < cursor <= |source| && stack != []
      invariant goal == Shift(cursor, ContainerTail(source[cursor..], stack))
    {
      ContainerFrom(source, cursor, stack);
      ChunkFrom(source, cursor);
      var character := source[cursor];
      if character == QUOTE {
        var e := ScanString(source, cursor);
        if e.None? { return None; }
        cursor := e.value;
        continue;
      }
      if LineAt(source, cursor) {
        cursor := LineEnd(source, cursor);
        continue;
      }
      if BlockAt(source, cursor) {
        var e := BlockEnd(source, cursor);
        if e.None? { return None; }
        cursor := e.value;
        continue;
      }
      if character == OPEN_BRACE || character == OPEN_BRACKET { stack := stack + [character]; }
      if character == CLOSE_BRACE || character == CLOSE_BRACKET {
        var opening := stack[|stack| - 1];
        stack := stack[..|stack| - 1];
        if (opening == OPEN_BRACE && character != CLOSE_BRACE)
          || (opening == OPEN_BRACKET && character != CLOSE_BRACKET) {
          return None;
        }
        if |stack| == 0 { return Some(cursor + 1); }
      }
      cursor := cursor + 1;
    }
    assert source[cursor..] == [];
    NoContainer(stack);
    return None;
  }

  lemma NoContainer(stack: seq<Unit>)
    requires stack != []
    ensures ContainerTail([], stack) == None
  {}

  lemma ScalarFrom(s: Str, i: nat)
    requires i < |s|
    ensures ScalarLen(s[i..])
         == if IsSpace(s[i]) || s[i] == COMMA || s[i] == CLOSE_BRACE || LineAt(s, i) || BlockAt(s, i) then 0
            else 1 + ScalarLen(s[i + 1..])
  {
    Slices(s, i, 1);
  }

  method ScanScalar(source: Str, index: nat) returns (cursor: nat)
    requires index <= |source|
    ensures index <= cursor <= |source|
    ensures cursor == index + ScalarLen(source[index..])
  {
    hide ScalarLen, IsSpace;
    cursor := index;
    while cursor < |source|
      invariant index <= cursor <= |source|
      invariant index + ScalarLen(source[index..]) == cursor + ScalarLen(source[cursor..])
    {
      ScalarFrom(source, cursor);
      var character := source[cursor];
      if IsSpace(character) || character == COMMA || character == CLOSE_BRACE { return; }
      if LineAt(source, cursor) || BlockAt(source, cursor) { return; }
      cursor := cursor + 1;
    }
  }

  method ScanValue(source: Str, index: nat) returns (end: Option<nat>)
    requires index <= |source|
    ensures end == Shift(index, ValueLen(source[index..]))
  {
    hide ScalarLen, StringLen, ContainerLen, ParseJsonc;
    if index == |source| { return None; }
    var first := source[index];
    if first == QUOTE { end := ScanString(source, index); return; }
    if first == OPEN_BRACE || first == OPEN_BRACKET { end := ScanContainer(source, index); return; }
    if first == COMMA || first == CLOSE_BRACE { return None; }
    var cursor := ScanScalar(source, index);
    Slices(source, index, cursor - index);
    if cursor == index { return None; }
    if ParseJsonc(source[index..cursor]).None? { return None; }
    return Some(cursor);
  }

  lemma StripFrom(s: Str, i: nat)
    requires i < |s|
    ensures Strip(s[i..])
         == if ChunkEnd(s, i).None? then None
            else
              var e := ChunkEnd(s, i).value;
              if i < e <= |s| then Join(if IsComment(s[i..]) then Blank(s[i..e]) else s[i..e], Strip(s[e..])) else None
  {
    hide Chunk;
    if ChunkEnd(s, i).Some? { Slices(s, i, ChunkEnd(s, i).value - i); }
  }

  method StripJsonComments(source: Str) returns (result: Option<Str>)
    ensures result == Strip(source)
  {
    hide Strip, ChunkEnd, StringLen, IsComment, LineEnd, BlockEnd, Blank, Join;
    var text: Str := [];
    var cursor := 0;
    assert source[0..] == source;
    JoinNothing(Strip(source));
    while cursor < |source|
      invariant cursor <= |source|
      invariant Strip(source) == Join(text, Strip(source[cursor..]))
    {
      StripFrom(source, cursor);
      ChunkFrom(source, cursor);
      NoJoin(text);
      var end := cursor + 1;
      var piece: Str;
      if source[cursor] == QUOTE {
        var e := ScanString(source, cursor);
        if e.None? { return None; }
        end := e.value;
        piece := source[cursor..end];
        assert !(LineAt(source, cursor) || BlockAt(source, cursor));
      } else if LineAt(source, cursor) {
        end := LineEnd(source, cursor);
        piece := Blank(source[cursor..end]);
      } else if BlockAt(source, cursor) {
        var e := BlockEnd(source, cursor);
        if e.None? { return None; }
        end := e.value;
        piece := Blank(source[cursor..end]);
      } else {
        piece := [source[cursor]];
        assert source[cursor..end] == piece;
      }
      JoinJoin(text, piece, Strip(source[end..]));
      text := text + piece;
      cursor := end;
    }
    assert source[cursor..] == [];
    StripEmpty(text);
    return Some(text);
  }

  lemma NoJoin(a: Str)
    ensures Join(a, None) == None
  {}

  lemma StripEmpty(text: Str)
    ensures Join(text, Strip([])) == Some(text) == Join(text, DropCommas([]))
  {
    assert text + [] == text;
  }

  lemma JoinNothing(r: Option<Str>)
    ensures Join([], r) == r
  {
    if r.Some? { assert [] + r.value == r.value; }
  }

  lemma JoinJoin(a: Str, b: Str, r: Option<Str>)
    ensures Join(a, Join(b, r)) == Join(a + b, r)
  {
    if r.Some? { assert a + (b + r.value) == a + b + r.value; }
  }

  lemma DropFrom(s: Str, i: nat)
    requires i < |s|
    ensures DropCommas(s[i..])
         == if s[i] == QUOTE then
              if StringLen(s[i..]).None? then None
              else var e := i + StringLen(s[i..]).value; Join(s[i..e], DropCommas(s[e..]))
            else if IsTrailingComma(s[i..]) then DropCommas(s[i + 1..])
            else Join([s[i]], DropCommas(s[i + 1..]))
  {
    hide StringLen, IsTrailingComma;
    Slices(s, i, 1);
    if s[i] == QUOTE && StringLen(s[i..]).Some? { Slices(s, i, StringLen(s[i..]).value); }
  }

  lemma SpaceFrom(s: Str, i: nat)
    requires i < |s|
    ensures SpaceLen(s[i..]) == if IsSpace(s[i]) then 1 + SpaceLen(s[i + 1..]) else 0
  {
    Slices(s, i, 1);
  }

  /** Whether only whitespace stands between the comma at `cursor` and a closing delimiter. */
  method CommaIsTrailing(source: Str, cursor: nat) returns (trailing: bool)
    requires cursor < |source| && source[cursor] == COMMA
    ensures trailing == IsTrailingComma(source[cursor..])
  {
    hide IsSpace, SpaceLen;
    Slices(source, cursor, 1);
    var next := cursor + 1;
    while next < |source| && IsSpace(source[next])
      invariant cursor < next <= |source|
      invariant cursor + 1 + SpaceLen(source[cursor + 1..]) == next + SpaceLen(source[next..])
    {
      SpaceFrom(source, next);
      next := next + 1;
    }
    if next < |source| { SpaceFrom(source, next); }
    assert next < |source| ==> source[cursor..][next - cursor] == source[next];
    return next < |source| && (source[next] == CLOSE_BRACE || source[next] == CLOSE_BRACKET);
  }

  method RemoveTrailingCommas(source: Str) returns (result: Option<Str>)
    ensures result == DropCommas(source)
  {
    hide DropCommas, StringLen, IsTrailingComma, Join;
    var text: Str := [];
    var cursor := 0;
    assert source[0..] == source;
    JoinNothing(DropCommas(source));
    while cursor < |source|
      invariant cursor <= |source|
      invariant DropCommas(source) == Join(text, DropCommas(source[cursor..]))
    {
      DropFrom(source, cursor);
      if source[cursor] == QUOTE {
        var e := ScanString(source, cursor);
        NoJoin(text);
        if e.None? { return None; }
        JoinJoin(text, source[cursor..e.value], DropCommas(source[e.value..]));
        text := text + source[cursor..e.value];
        cursor := e.value;
        continue;
      }
      if source[cursor] == COMMA {
        var trailing := CommaIsTrailing(source, cursor);
        if trailing {
          cursor := cursor + 1;
          continue;
        }
      } else {
        NotComma(source[cursor..]);
      }
      JoinJoin(text, [source[cursor]], DropCommas(source[cursor + 1..]));
      text := text + [source[cursor]];
      cursor := cursor + 1;
    }
    assert source[cursor..] == [];
    StripEmpty(text);
    return Some(text);
  }

  lemma NotComma(t: Str)
    requires t != [] && t[0] != COMMA
    ensures !IsTrailingComma(t)
  {}

  /** The root that a body read at `at` completes, once the `seen` properties are behind. */
  ghost function Complete(seen: seq<Property>, at: nat, b: Option<Body>): Option<Root> {
    if b.None? || Skip(b.value.rest) != Some(|b.value.rest|) then None
    else Some(Root(at + |BodyText(b.value.members, b.value.tail)| - 1, seen + Properties(b.value.members, at)))
  }

  lemma CompleteMember(seen: seq<Property>, at: nat, t: Str)
    requires TakeTrivia(t).Some? && (var u := TakeTrivia(t).value.after; u == [] || u[0] != CLOSE_BRACE)
    ensures ReadMember(t).None? ==> Complete(seen, at, ReadBody(t)) == None
    ensures ReadMember(t).Some? ==>
              (var (m, rest) := ReadMember(t).value;
               Complete(seen, at, ReadBody(t))
               == Complete(seen + [PropertyOf(m, at)], at + |MemberText(m)|, ReadBody(rest)))
  {
    hide TakeTrivia, ReadMember, MemberText, PropertyOf;
    if ReadMember(t).Some? {
      var (m, rest) := ReadMember(t).value;
      var b := ReadBody(rest);
      if b.Some? {
        var ms := [m] + b.value.members;
        assert ms[1..] == b.value.members;
        assert seen + Properties(ms, at)
            == seen + [PropertyOf(m, at)] + Properties(b.value.members, at + |MemberText(m)|);
      }
    }
  }

  lemma CompleteClose(seen: seq<Property>, at: nat, t: Str)
    requires TakeTrivia(t).Some? && (var u := TakeTrivia(t).value.after; u != [] && u[0] == CLOSE_BRACE)
    ensures (var c := TakeTrivia(t).value;
             Complete(seen, at, ReadBody(t))
             == if Skip(c.after[1..]) != Some(|c.after| - 1) then None else Some(Root(at + |c.before|, seen)))
  {
    hide TakeTrivia, Skip;
    assert seen + [] == seen;
  }

  lemma ScanStart(s: Str)
    ensures var c := TakeTrivia(s);
            ScanRoot(s) == if c.None? || c.value.after == [] || c.value.after[0] != OPEN_BRACE then None
                           else Complete([], |c.value.before| + 1, ReadBody(c.value.after[1..]))
  {
    hide TakeTrivia, Skip, ReadBody, BodyText, Properties;
    var c := TakeTrivia(s);
    if c.Some? && c.value.after != [] && c.value.after[0] == OPEN_BRACE {
      var b := ReadBody(c.value.after[1..]);
      if b.Some? {
        assert [] + Properties(b.value.members, |c.value.before| + 1) == Properties(b.value.members, |c.value.before| + 1);
      }
    }
  }

  lemma ByteOrderMark(s: Str)
    requires s != [] && s[0] == BOM
    ensures Skip(s) == Shift(1, Skip(s[1..]))
  {}

  lemma TriviaAt(s: Str, i: nat)
    requires i <= |s|
    ensures var n := Skip(s[i..]);
            TakeTrivia(s[i..]) == if n.None? then None else Some(Cut(s[i..i + n.value], s[i + n.value..]))
  {
    if Skip(s[i..]).Some? { Slices(s, i, Skip(s[i..]).value); }
  }

  lemma KeyAt(s: Str, i: nat)
    requires i <= |s|
    ensures TakeKey(s[i..])
         == if i == |s| || s[i] != QUOTE || StringLen(s[i..]).None? then None
            else var e := i + StringLen(s[i..]).value;
                 if Literal(s[i..e]).None? then None else Some(Cut(s[i..e], s[e..]))
  {
    hide StringTail, Literal;
    if i < |s| && s[i] == QUOTE && StringLen(s[i..]).Some? { Slices(s, i, StringLen(s[i..]).value); }
  }

  lemma ColonAt(s: Str, i: nat)
    requires i <= |s|
    ensures TakeColon(s[i..]) == if i == |s| || s[i] != COLON then None else Some(Cut([COLON], s[i + 1..]))
  {
    if i < |s| {
      Slices(s, i, 1);
      assert s[i..][..1] == [s[i]];
    }
  }

  lemma ValueAt(s: Str, i: nat)
    requires i <= |s|
    ensures var n := ValueLen(s[i..]);
            TakeValue(s[i..]) == if n.None? then None else Some(Cut(s[i..i + n.value], s[i + n.value..]))
  {
    hide ValueLen;
    if ValueLen(s[i..]).Some? { Slices(s, i, ValueLen(s[i..]).value); }
  }

  /** From `keyStart`, past the colon: the decoded key, the end of its literal, and the colon's end. */
  method ScanName(source: Str, index: nat, keyStart: nat) returns (r: Option<(Str, nat)>)
    requires index <= |source| && Some(keyStart) == Shift(index, Skip(source[index..]))
    ensures r.None? <==> ReadName(source[index..]).None?
    ensures r.Some? ==>
              (var n := ReadName(source[index..]).value;
               var next := r.value.1;
               next <= |source| && n.after == source[next..]
               && next == keyStart + |n.key| + |n.beforeColon| + 1 && keyStart == index + |n.pre|
               && Literal(n.key) == Some(r.value.0))
  {
    hide Skip, Literal, TakeTrivia, TakeKey, TakeColon, StringLen;
    TriviaAt(source, index);
    KeyAt(source, keyStart);
    if keyStart == |source| || source[keyStart] != QUOTE { return None; }
    var keyEnd := ScanString(source, keyStart);
    if keyEnd.None? { return None; }
    var key := Literal(source[keyStart..keyEnd.value]);
    if key.None? { return None; }
    var colon := SkipTrivia(source, keyEnd.value);
    TriviaAt(source, keyEnd.value);
    if colon.None? { return None; }
    ColonAt(source, colon.value);
    if colon.value == |source| || source[colon.value] != COLON { return None; }
    return Some((key.value, colon.value + 1));
  }

  /** From after the colon: where the value starts and ends, and where the scan goes on. */
  method ScanValuePart(source: Str, index: nat) returns (r: Option<(nat, nat, nat)>)
    requires index <= |source|
    ensures r.None? <==> ReadValue(source[index..]).None?
    ensures r.Some? ==>
              (var v := ReadValue(source[index..]).value;
               var (valueStart, valueEnd, next) := r.value;
               valueStart == index + |v.afterColon| && valueEnd == valueStart + |v.value|
               && next == valueEnd + |v.post| + (if v.comma then 1 else 0)
               && next <= |source| && v.after == source[next..])
  {
    hide Skip, TakeTrivia, TakeValue, ValueLen;
    ghost var t := source[index..];
    var valueStart := SkipTrivia(source, index);
    TriviaAt(source, index);
    if valueStart.None? { return None; }
    ghost var c1 := TakeTrivia(t).value;
    ValueAt(source, valueStart.value);
    var valueEnd := ScanValue(source, valueStart.value);
    if valueEnd.None? { return None; }
    ghost var c2 := TakeValue(c1.after).value;
    var after := SkipTrivia(source, valueEnd.value);
    TriviaAt(source, valueEnd.value);
    if after.None? { return None; }
    ghost var c3 := TakeTrivia(c2.after).value;
    assert c3.after == source[after.value..];
    if after.value == |source| { return None; }
    if source[after.value] != COMMA && source[after.value] != CLOSE_BRACE { return None; }
    var next := after.value + if source[after.value] == COMMA then 1 else 0;
    assert c3.after[1..] == source[after.value + 1..];
    return Some((valueStart.value, valueEnd.value, next));
  }

  /** The member at `index`, found by the cursor steps of the loop body. */
  method ScanMember(source: Str, index: nat, keyStart: nat) returns (r: Option<(Property, nat)>)
    requires index <= |source| && Some(keyStart) == Shift(index, Skip(source[index..]))
    ensures r.None? <==> ReadMember(source[index..]).None?
    ensures r.Some? ==>
              (var (m, rest) := ReadMember(source[index..]).value;
               r.value == (PropertyOf(m, index), index + |MemberText(m)|)
               && index < r.value.1 <= |source| && rest == source[r.value.1..])
  {
    hide Skip, Literal, ReadName, ReadValue, MemberText;
    var name := ScanName(source, index, keyStart);
    if name.None? { return None; }
    var value := ScanValuePart(source, name.value.1);
    if value.None? { return None; }
    ReadMemberText(source[index..]);
    return Some((Property(name.value.0, keyStart, value.value.0, value.value.1), value.value.2));
  }

  /** At the closing brace: only trivia may follow. */
  method ScanClose(source: Str, properties: seq<Property>, index: nat, close: nat) returns (root: Option<Root>)
    requires index <= close < |source| && source[close] == CLOSE_BRACE
    requires TakeTrivia(source[index..]) == Some(Cut(source[index..close], source[close..]))
    ensures root == Complete(properties, index, ReadBody(source[index..]))
  {
    hide Skip, TakeTrivia, ReadBody, Complete;
    CompleteClose(properties, index, source[index..]);
    Slices(source, close, 1);
    var end := SkipTrivia(source, close + 1);
    if end != Some(|source|) { return None; }
    return Some(Root(close, properties));
  }

  method ScanRootObject(source: Str) returns (root: Option<Root>)
    ensures root == ScanRoot(source)
  {
    hide Skip, TakeTrivia, ReadMember, ReadBody, MemberText, PropertyOf, Complete, ScanRoot;
    ScanStart(source);
    TriviaAt(source, 0);
    assert source[0..] == source;
    var start := if source != [] && source[0] == BOM then 1 else 0;
    if start == 1 { ByteOrderMark(source); }
    var open := SkipTrivia(source, start);
    if open.None? || open.value == |source| || source[open.value] != OPEN_BRACE { return None; }
    assert source[open.value..][1..] == source[open.value + 1..];
    var index := open.value + 1;
    var properties: seq<Property> := [];
    while index < |source|
      invariant index <= |source|
      invariant ScanRoot(source) == Complete(properties, index, ReadBody(source[index..]))
    {
      var next := SkipTrivia(source, index);
      TriviaAt(source, index);
      if next.None? { NoTrivia(properties, index, source[index..]); return None; }
      if next.value < |source| && source[next.value] == CLOSE_BRACE {
        root := ScanClose(source, properties, index, next.value);
        return;
      }
      CompleteMember(properties, index, source[index..]);
      var member := ScanMember(source, index, next.value);
      if member.None? { return None; }
      properties := properties + [member.value.0];
      index := member.value.1;
    }
    assert source[index..] == [];
    NothingToRead(properties, index);
    return None;
  }

  lemma NoTrivia(seen: seq<Property>, at: nat, t: Str)
    requires TakeTrivia(t).None?
    ensures Complete(seen, at, ReadBody(t)) == None
  {
    hide TakeTrivia;
  }

  lemma NothingToRead(seen: seq<Property>, at: nat)
    ensures Complete(seen, at, ReadBody([])) == None
  {
    assert TakeTrivia([]) == Some(Cut([], []));
  }
}
