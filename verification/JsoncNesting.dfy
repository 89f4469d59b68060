/** Where a container of a JSONC text ends: at the delimiter that closes it, with all brackets in between nested. */
module JsoncNesting {
  import opened Units
  import opened JsonText
  import opened JsonGrammar
  import opened JsoncGrammar

  // ---------------------------------------------------------------- nested brackets

  /** Groups one behind the other, each with groups inside. */
  datatype Nest = Nothing | Group(open: Unit, inner: Nest, next: Nest)

  predicate IsOpening(u: Unit) { u == 0x7B || u == 0x5B }

  predicate SoundNest(n: Nest) {
    n.Nothing? || (IsOpening(n.open) && SoundNest(n.inner) && SoundNest(n.next))
  }

  function CloserFor(open: Unit): Unit { if open == 0x7B then 0x7D else 0x5D }

  /** The brackets of the groups, from first to last. */
  function Brackets(n: Nest): Str {
    if n.Nothing? then [] else [n.open] + Brackets(n.inner) + [CloserFor(n.open)] + Brackets(n.next)
  }

  predicate SoundStack(stack: seq<Unit>) { forall u <- stack :: IsOpening(u) }

  // ---------------------------------------------------------------- reading brackets

  /** How many brackets are read until all of the stack is closed; None when a closer does not match. */
  function Read(w: Str, stack: seq<Unit>): Option<nat>
    requires stack != []
    decreases |w|
  {
    var k := |stack| - 1;
    if w == [] then None
    else if IsOpener(w[0]) then Shift(1, Read(w[1..], stack + [w[0]]))
    else if !Matches(stack[k], w[0]) then None
    else if k == 0 then Some(1)
    else Shift(1, Read(w[1..], stack[..k]))
  }

  lemma MatchingCloser(open: Unit)
    requires IsOpening(open)
    ensures IsOpener(open) && !IsOpener(CloserFor(open)) && IsCloser(CloserFor(open)) && Matches(open, CloserFor(open))
    ensures forall u: Unit :: IsCloser(u) && Matches(open, u) ==> u == CloserFor(open)
  {}

  lemma ReadStep(u: Unit, rest: Str, stack: seq<Unit>)
    requires stack != []
    ensures var k := |stack| - 1;
            Read([u] + rest, stack) ==
            if IsOpener(u) then Shift(1, Read(rest, stack + [u]))
            else if !Matches(stack[k], u) then None
            else if k == 0 then Some(1)
            else Shift(1, Read(rest, stack[..k]))
  {
    assert ([u] + rest)[1..] == rest;
  }

  lemma GroupBrackets(open: Unit, inner: Nest, next: Nest, c: Str)
    ensures Brackets(Group(open, inner, next)) + c == [open] + (Brackets(inner) + ([CloserFor(open)] + (Brackets(next) + c)))
  {
    hide CloserFor;
  }

  /** Nested brackets are read to their end. */
  lemma {:induction false} NestRead(n: Nest, rest: Str, stack: seq<Unit>)
    requires SoundNest(n) && stack != []
    ensures Read(Brackets(n) + rest, stack) == Shift(|Brackets(n)|, Read(rest, stack))
    decreases n
  {
    hide Matches, CloserFor, Brackets, Read;
    if n.Nothing? {
      EmptyNest();
      assert [] + rest == rest;
    } else {
      MatchingCloser(n.open);
      GroupBrackets(n.open, n.inner, n.next, rest);
      GroupBrackets(n.open, n.inner, n.next, []);
      var behind := Brackets(n.next) + rest;
      var close := [CloserFor(n.open)] + behind;
      ReadStep(n.open, Brackets(n.inner) + close, stack);
      NestRead(n.inner, close, stack + [n.open]);
      ReadStep(CloserFor(n.open), behind, stack + [n.open]);
      assert (stack + [n.open])[..|stack|] == stack;
      NestRead(n.next, rest, stack);
    }
  }

  /** Groups, a closer, groups, a closer, and so on, out of the stack. */
  function Closing(nests: seq<Nest>, stack: seq<Unit>): Str
    requires |nests| == |stack|
  {
    if stack == [] then []
    else
      var k := |stack| - 1;
      Brackets(nests[k]) + ([CloserFor(stack[k])] + Closing(nests[..k], stack[..k]))
  }

  predicate SoundNests(nests: seq<Nest>) { forall n <- nests :: SoundNest(n) }

  /** What is read is nested. */
  lemma {:induction false} ReadNested(w: Str, stack: seq<Unit>) returns (nests: seq<Nest>)
    requires stack != [] && SoundStack(stack) && Read(w, stack).Some? && forall u <- w :: IsOpener(u) || IsCloser(u)
    ensures Read(w, stack).value <= |w|
    ensures |nests| == |stack| && SoundNests(nests) && w[..Read(w, stack).value] == Closing(nests, stack)
    decreases |w|
  {
    hide Brackets, CloserFor, SoundNest, Matches, Read, Closing;
    var k := |stack| - 1;
    ReadSome(w, stack);
    var n := Read(w, stack).value;
    assert w == [w[0]] + w[1..];
    ReadStep(w[0], w[1..], stack);
    assert w[0] in w && stack[k] in stack && forall u <- w[1..] :: u in w;
    MatchingCloser(stack[k]);
    if IsOpener(w[0]) {
      assert IsOpening(w[0]);
      assert forall u <- stack + [w[0]] :: u in stack || u == w[0];
      var more := ReadNested(w[1..], stack + [w[0]]);
      nests := Joined(more, stack, w[0]);
      assert w[..n] == [w[0]] + w[1..][..n - 1];
    } else if k == 0 {
      nests := [Nothing];
      LastClosed([], stack);
      assert [] + [Nothing] == nests && stack[..0] == [] && w[..1] == [w[0]] + [];
    } else {
      assert forall u <- stack[..k] :: u in stack;
      var more := ReadNested(w[1..], stack[..k]);
      nests := more + [Nothing];
      LastClosed(more, stack);
      assert w[..n] == [w[0]] + w[1..][..n - 1];
    }
  }

  lemma ReadSome(w: Str, stack: seq<Unit>)
    requires stack != [] && Read(w, stack).Some?
    ensures w != []
  {}

  /** A container that is closed at once has no groups. */
  lemma LastClosed(more: seq<Nest>, stack: seq<Unit>)
    requires stack != [] && |more| == |stack| - 1 && SoundNests(more)
    ensures var k := |stack| - 1; var nests := more + [Nothing];
            SoundNests(nests) && Closing(nests, stack) == [CloserFor(stack[k])] + Closing(more, stack[..k])
    ensures Closing([], []) == []
  {
    hide CloserFor, SoundNest;
    EmptyNest();
    var nests := more + [Nothing];
    assert nests[..|more|] == more;
    assert forall n <- nests :: n in more || n == Nothing;
    assert [] + ([CloserFor(stack[|more|])] + Closing(more, stack[..|more|])) == [CloserFor(stack[|more|])] + Closing(more, stack[..|more|]);
  }

  lemma EmptyNest()
    ensures SoundNest(Nothing) && Brackets(Nothing) == []
  {}

  /** A container inside is a group of the one around it. */
  lemma Joined(more: seq<Nest>, stack: seq<Unit>, open: Unit) returns (nests: seq<Nest>)
    requires stack != [] && |more| == |stack| + 1 && SoundNests(more) && IsOpening(open)
    ensures |nests| == |stack| && SoundNests(nests)
    ensures Closing(nests, stack) == [open] + Closing(more, stack + [open])
  {
    hide Brackets, CloserFor;
    var k := |stack| - 1;
    var inner, outer := more[k + 1], more[k];
    assert inner in more && outer in more;
    var group := Group(open, inner, outer);
    nests := more[..k] + [group];
    assert forall n <- nests :: n == group || n in more;
    assert (stack + [open])[..k + 1] == stack && more[..k + 1][..k] == more[..k] && nests[..k] == more[..k];
    var c := [CloserFor(stack[k])] + Closing(more[..k], stack[..k]);
    GroupBrackets(open, inner, outer, c);
  }

  // ---------------------------------------------------------------- the brackets of a text

  /** Position `n` is reached one closed literal, one closed comment or one other unit at a time. */
  predicate Reaches(t: Str, n: nat)
    decreases |t|
  {
    n == 0 || (t != [] && Chunk(t).Some? && Chunk(t).value <= n && Reaches(t[Chunk(t).value..], n - Chunk(t).value))
  }

  predicate StartsMark(t: Str) { t != [] && (IsOpener(t[0]) || IsCloser(t[0])) }

  /** The brackets before position `n`, outside literals and comments. */
  function MarksTo(t: Str, n: nat): Str
    requires Reaches(t, n)
    decreases |t|
  {
    if n == 0 then []
    else (if StartsMark(t) then [t[0]] else []) + MarksTo(t[Chunk(t).value..], n - Chunk(t).value)
  }

  lemma Ones(t: Str)
    requires t != []
    ensures StartsMark(t) ==> Chunk(t) == Some(1) && t[0] != QUOTE && !IsComment(t)
    ensures !(t[0] == QUOTE || IsComment(t)) ==> Chunk(t) == Some(1)
  {
    hide StringTail;
  }

  lemma ReadNothing(stack: seq<Unit>)
    requires stack != []
    ensures Read([], stack) == None
  {}

  /** It ends at once only at a closer that matches the only open container. */
  lemma EndsAtOnce(t: Str, stack: seq<Unit>)
    requires t != [] && stack != []
    ensures ContainerTail(t, stack) == Some(1) <==> StartsMark(t) && IsCloser(t[0]) && Read([t[0]], stack) == Some(1)
  {
    hide IsComment, ContainerTail, Matches, Chunk;
    ContainerUnfold(t, stack);
    Ones(t);
    NotOpener(t[0]);
    ReadNothing(stack + [t[0]]);
    if |stack| > 1 { ReadNothing(stack[..|stack| - 1]); }
    assert [t[0]] + [] == [t[0]];
    ReadStep(t[0], [], stack);
  }

  lemma NotOpener(u: Unit)
    ensures IsCloser(u) ==> !IsOpener(u)
  {}

  /** Scanning a container reads exactly the brackets, and ends behind a closer. */
  lemma {:induction false} TailReads(t: Str, stack: seq<Unit>, n: nat)
    requires stack != []
    ensures ContainerTail(t, stack) == Some(n + 1) <==> ReadsTo(t, stack, n)
    decreases |t|
  {
    hide Chunk, IsComment, ContainerTail, Matches, StartsMark, ReadsTo;
    if t == [] || Chunk(t).None? {
      NoTail(t, stack, n);
    } else {
      ContainerUnfold(t, stack);
      Ones(t);
      var c, k := Chunk(t).value, |stack| - 1;
      if n == 0 {
        EndsAtOnce(t, stack);
        ReadsAtOnce(t, stack);
      } else if c > n {
        TooLong(t, stack, n);
      } else if t[0] == QUOTE || IsComment(t) || !StartsMark(t) {
        MarkFree(t, stack, n);
        NoMark(t);
        TailReads(t[c..], stack, n - c);
      } else {
        Marked(t, stack, n);
        NotOpener(t[0]);
        MarkIs(t);
        if IsOpener(t[0]) {
          TailReads(t[1..], stack + [t[0]], n - 1);
        } else if Matches(stack[k], t[0]) && k > 0 {
          TailReads(t[1..], stack[..k], n - 1);
        }
      }
    }
  }

  predicate ReadsTo(t: Str, stack: seq<Unit>, n: nat)
    requires stack != []
  {
    && Reaches(t, n) && n < |t| && StartsMark(t[n..]) && IsCloser(t[n])
    && var w := MarksTo(t, n) + [t[n]]; Read(w, stack) == Some(|w|)
  }

  lemma MarkIs(t: Str)
    ensures StartsMark(t) ==> t != [] && (IsOpener(t[0]) || IsCloser(t[0]))
  {}

  lemma NoMark(t: Str)
    requires t != [] && !StartsMark(t)
    ensures !IsOpener(t[0]) && !IsCloser(t[0])
  {}

  lemma NoTail(t: Str, stack: seq<Unit>, n: nat)
    requires stack != [] && (t == [] || Chunk(t).None?)
    ensures ContainerTail(t, stack) == None && !ReadsTo(t, stack, n)
  {
    hide Chunk;
    if t != [] { Ones(t); }
    assert n == 0 ==> t[n..] == t;
  }

  lemma ReadsAtOnce(t: Str, stack: seq<Unit>)
    requires t != [] && stack != []
    ensures ReadsTo(t, stack, 0) <==> StartsMark(t) && IsCloser(t[0]) && Read([t[0]], stack) == Some(1)
  {
    hide Read, StartsMark;
    assert t[0..] == t && MarksTo(t, 0) + [t[0]] == [t[0]];
  }

  /** A position inside a literal or comment is not reached. */
  lemma TooLong(t: Str, stack: seq<Unit>, n: nat)
    requires t != [] && stack != [] && Chunk(t).Some? && 0 < n < Chunk(t).value
    ensures ContainerTail(t, stack) != Some(n + 1) && !ReadsTo(t, stack, n)
  {
    hide Chunk, IsComment, ContainerTail, Matches;
    ContainerUnfold(t, stack);
    Ones(t);
  }

  lemma MarkFree(t: Str, stack: seq<Unit>, n: nat)
    requires t != [] && stack != [] && Chunk(t).Some? && 0 < Chunk(t).value <= n
    requires t[0] == QUOTE || IsComment(t) || !StartsMark(t)
    ensures var c := Chunk(t).value; ReadsTo(t, stack, n) <==> ReadsTo(t[c..], stack, n - c)
    ensures !StartsMark(t)
  {
    hide Chunk, IsComment, Read;
    Ones(t);
    var c := Chunk(t).value;
    if n <= |t| { assert t[c..][n - c..] == t[n..]; }
    if Reaches(t, n) { assert MarksTo(t, n) == MarksTo(t[c..], n - c); }
  }

  lemma Marked(t: Str, stack: seq<Unit>, n: nat)
    requires t != [] && stack != [] && StartsMark(t) && n > 0
    ensures Chunk(t) == Some(1) && t[0] != QUOTE && !IsComment(t)
    ensures var k := |stack| - 1;
            ReadsTo(t, stack, n) <==>
            if IsOpener(t[0]) then ReadsTo(t[1..], stack + [t[0]], n - 1)
            else Matches(stack[k], t[0]) && k > 0 && ReadsTo(t[1..], stack[..k], n - 1)
  {
    hide Chunk, IsComment, Read, Matches;
    Ones(t);
    if Reaches(t, n) && n < |t| {
      assert t[1..][n - 1..] == t[n..];
      var w := MarksTo(t[1..], n - 1) + [t[n]];
      assert MarksTo(t, n) + [t[n]] == [t[0]] + w;
      ReadStep(t[0], w, stack);
    }
  }

  // ---------------------------------------------------------------- where a container ends

  /** Nested groups and then the closer of the container, with everything before it closed. */
  ghost predicate EndsNested(t: Str, open: Unit, n: nat, nest: Nest) {
    Reaches(t, n) && n < |t| && SoundNest(nest) && MarksTo(t, n) == Brackets(nest) && t[n] == CloserFor(open)
  }

  lemma {:induction false} MarksAreBrackets(t: Str, n: nat)
    requires Reaches(t, n)
    ensures forall u <- MarksTo(t, n) :: IsOpener(u) || IsCloser(u)
    decreases |t|
  {
    hide Chunk;
    if n > 0 { MarksAreBrackets(t[Chunk(t).value..], n - Chunk(t).value); }
  }

  /** A container ends at its closer, with the brackets in between nested. */
  lemma EndIsNested(t: Str, open: Unit) returns (nest: Nest)
    requires IsOpening(open) && ContainerTail(t, [open]).Some?
    ensures EndsNested(t, open, ContainerTail(t, [open]).value - 1, nest)
  {
    hide ContainerTail, Read, Brackets, CloserFor, SoundNest, Reaches;
    var n := ContainerTail(t, [open]).value - 1;
    TailReads(t, [open], n);
    MarksAreBrackets(t, n);
    var w := MarksTo(t, n) + [t[n]];
    assert forall u <- w :: u in MarksTo(t, n) || u == t[n];
    var nests := ReadNested(w, [open]);
    nest := nests[0];
    assert nest in nests;
    assert w[..|w|] == w && Closing(nests[..0], [open][..0]) == [];
    assert Closing(nests, [open]) == Brackets(nest) + [CloserFor(open)];
    LastTwo(MarksTo(t, n), t[n], Brackets(nest), CloserFor(open));
  }

  lemma LastTwo(a: Str, u: Unit, b: Str, v: Unit)
    requires a + [u] == b + [v]
    ensures a == b && u == v
  {
    assert |a| == |b|;
    assert (a + [u])[..|a|] == a && (b + [v])[..|a|] == b;
    assert (a + [u])[|a|] == u && (b + [v])[|a|] == v;
  }

  /** Such a position is the end, and so the only one. */
  lemma NestedIsEnd(t: Str, open: Unit, n: nat, nest: Nest)
    requires IsOpening(open) && EndsNested(t, open, n, nest)
    ensures ContainerTail(t, [open]) == Some(n + 1)
  {
    hide ContainerTail, Read, Brackets, CloserFor, SoundNest, Matches, Reaches;
    MatchingCloser(open);
    NestRead(nest, [t[n]], [open]);
    assert [t[n]] + [] == [t[n]];
    ReadStep(t[n], [], [open]);
    assert t[n..][0] == t[n];
    TailReads(t, [open], n);
  }
}
