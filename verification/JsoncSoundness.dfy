/** What a successful scan and a successful comment stripping say about the text. */
module JsoncSoundness {
  import opened Units
  import opened JsonText
  import opened JsoncGrammar

  // ---------------------------------------------------------------- spans

  /** The text of `ms` up to the value of member `k`, and the text after it. */
  function UpToValue(ms: seq<Member>, k: nat): Str
    requires k < |ms|
  {
    if k == 0 then ms[0].pre + (ms[0].key + (ms[0].beforeColon + ([COLON] + ms[0].afterColon)))
    else MemberText(ms[0]) + UpToValue(ms[1..], k - 1)
  }

  function PastValue(ms: seq<Member>, k: nat, tail: Str): Str
    requires k < |ms|
  {
    if k == 0 then AfterValue(ms[0]) + BodyText(ms[1..], tail) else PastValue(ms[1..], k - 1, tail)
  }

  lemma MemberAroundValue(m: Member)
    ensures MemberText(m) == m.pre + (m.key + (m.beforeColon + ([COLON] + m.afterColon))) + (m.value + AfterValue(m))
  {
    assert FromColon(m) == [COLON] + m.afterColon + FromValue(m);
    assert FromKey(m) == m.key + (m.beforeColon + ([COLON] + m.afterColon)) + FromValue(m);
  }

  lemma {:induction false} BodyAroundValue(ms: seq<Member>, tail: Str, k: nat, at: nat)
    requires k < |ms|
    ensures BodyText(ms, tail) == UpToValue(ms, k) + (ms[k].value + PastValue(ms, k, tail))
    ensures Properties(ms, at)[k].valueStart == at + |UpToValue(ms, k)|
    ensures Properties(ms, at)[k].valueEnd == at + |UpToValue(ms, k)| + |ms[k].value|
    ensures Properties(ms, at)[k].key == KeyOf(ms[k])
    ensures at <= Properties(ms, at)[k].keyStart < Properties(ms, at)[k].valueStart
    decreases k
  {
    hide MemberText, AfterValue, KeyOf;
    if k == 0 {
      MemberAroundValue(ms[0]);
      assert BodyText(ms, tail) == UpToValue(ms, 0) + (ms[0].value + PastValue(ms, 0, tail));
    } else {
      BodyAroundValue(ms[1..], tail, k - 1, at + |MemberText(ms[0])|);
      assert BodyText(ms, tail) == UpToValue(ms, k) + (ms[k].value + PastValue(ms, k, tail));
    }
  }

  lemma {:induction false} SpanOrder(ms: seq<Member>, tail: Str, at: nat, k: nat)
    requires GoodBody(ms, tail) && k < |ms|
    ensures var p := Properties(ms, at)[k];
            p.keyStart < p.valueStart < p.valueEnd < at + |BodyText(ms, tail)|
            && (k + 1 < |ms| ==> p.valueEnd < Properties(ms, at)[k + 1].keyStart)
    decreases k
  {
    hide MemberText, GoodMember, KeyOf, Closed;
    MemberAroundValue(ms[0]);
    assert ms[0].value != [] by { ValueIsText(ms[0]); }
    if k > 0 {
      SpanOrder(ms[1..], tail, at + |MemberText(ms[0])|, k - 1);
    } else if |ms| > 1 {
      assert Properties(ms, at)[1] == Properties(ms[1..], at + |MemberText(ms[0])|)[0];
      assert ms[0].comma;
    }
  }

  lemma ValueIsText(m: Member)
    requires GoodMember(m)
    ensures m.value != [] && IsValueText(m.value)
  {}

  /**
   * The spans scanRootObject reports are ordered, disjoint and inside the braces; each holds the text of a
   * value; and the rest of the text is keys, colons, commas, braces and trivia, as DocText shows.
   */
  lemma ScanSpans(s: Str)
    requires ScanRoot(s).Some?
    ensures var d := ReadDoc(s).value;
            var root := ScanRoot(s).value;
            && GoodDoc(d) && DocText(d) == s && |root.properties| == |d.members|
            && |d.lead| < root.closeIndex < |s| && s[|d.lead|] == OPEN_BRACE && s[root.closeIndex] == CLOSE_BRACE
            && (forall k :: 0 <= k < |d.members| ==>
                  && |d.lead| < root.properties[k].keyStart < root.properties[k].valueStart
                  && root.properties[k].valueStart < root.properties[k].valueEnd <= root.closeIndex
                  && s[root.properties[k].valueStart..root.properties[k].valueEnd] == d.members[k].value
                  && root.properties[k].key == KeyOf(d.members[k]))
            && (forall k :: 0 <= k < |d.members| - 1 ==>
                  root.properties[k].valueEnd < root.properties[k + 1].keyStart)
  {
    hide ReadDoc, GoodBody, Closed, Skip, BodyText, Properties;
    ReadThenWrite(s);
    var d := ReadDoc(s).value;
    var at := |d.lead| + 1;
    BodyEnds(d.members, d.tail);
    var body := BodyText(d.members, d.tail);
    assert s == (d.lead + [OPEN_BRACE]) + (body + d.trail);
    assert s[at + |body| - 1] == body[|body| - 1];
    forall k | 0 <= k < |d.members|
      ensures var p := Properties(d.members, at)[k];
              |d.lead| < p.keyStart < p.valueStart < p.valueEnd <= at + |body| - 1
              && s[p.valueStart..p.valueEnd] == d.members[k].value && p.key == KeyOf(d.members[k])
    {
      BodyAroundValue(d.members, d.tail, k, at);
      SpanOrder(d.members, d.tail, at, k);
      ValueInText(d, k);
    }
    forall k | 0 <= k < |d.members| - 1
      ensures Properties(d.members, at)[k].valueEnd < Properties(d.members, at)[k + 1].keyStart
    {
      SpanOrder(d.members, d.tail, at, k);
    }
  }

  lemma {:induction false} BodyEnds(ms: seq<Member>, tail: Str)
    ensures var b := BodyText(ms, tail); b != [] && b[|b| - 1] == CLOSE_BRACE
  {
    hide MemberText;
    if ms != [] { BodyEnds(ms[1..], tail); }
  }

  function BeforeValue(d: Doc, k: nat): Str
    requires k < |d.members|
  {
    d.lead + ([OPEN_BRACE] + UpToValue(d.members, k))
  }

  /** The document text around the value of member `k`. */
  lemma ValueInText(d: Doc, k: nat)
    requires k < |d.members|
    ensures var p := DocRoot(d).properties[k];
            var s := DocText(d);
            && |BeforeValue(d, k)| == p.valueStart <= p.valueEnd <= |s|
            && s[..p.valueStart] == BeforeValue(d, k)
            && s[p.valueStart..p.valueEnd] == d.members[k].value
            && s[p.valueEnd..] == PastValue(d.members, k, d.tail) + d.trail
  {
    hide BodyText, Properties, UpToValue, PastValue;
    BodyAroundValue(d.members, d.tail, k, |d.lead| + 1);
    var a, v, z := BeforeValue(d, k), d.members[k].value, PastValue(d.members, k, d.tail) + d.trail;
    assert DocText(d) == a + (v + z);
  }

  // ---------------------------------------------------------------- stripping comments

  lemma {:induction false} StripPositions(t: Str)
    ensures Strip(t).Some? ==>
              |Strip(t).value| == |t|
              && forall i :: 0 <= i < |t| ==>
                   Strip(t).value[i] == t[i] || (Strip(t).value[i] == SPACE && t[i] != CR && t[i] != LF)
    decreases |t|
  {
    hide Chunk, IsComment;
    if t != [] && Chunk(t).Some? {
      ChunkBounds(t);
      var n := Chunk(t).value;
      StripPositions(t[n..]);
    }
  }

  lemma ChunkBounds(t: Str)
    requires t != [] && Chunk(t).Some?
    ensures 0 < Chunk(t).value <= |t|
  {}

  /** The literals of a text, outside comments, with their offsets. */
  function Literals(t: Str, at: nat): seq<(nat, Str)>
    decreases |t|
  {
    if t == [] || Chunk(t).None? then []
    else
      var n := Chunk(t).value;
      (if t[0] == QUOTE then [(at, t[..n])] else []) + Literals(t[n..], at + n)
  }

  /** Units that neither start a literal or comment nor delimit a container. */
  predicate IsNeutral(u: Unit) {
    u != QUOTE && u != SLASH && !IsOpener(u) && !IsCloser(u)
  }

  lemma {:induction false} NeutralText(p: Str, b: Str, stack: seq<Unit>, at: nat)
    requires (forall u <- p :: IsNeutral(u)) && stack != []
    ensures ContainerTail(p + b, stack) == Shift(|p|, ContainerTail(b, stack))
    ensures Literals(p + b, at) == Literals(b, at + |p|)
  {
    hide ContainerTail, Literals, IsNeutral;
    var t := p + b;
    if p == [] {
      assert t == b;
    } else {
      assert p[0] in p;
      NeutralText(p[1..], b, stack, at + 1);
      assert t[1..] == p[1..] + b;
      NeutralHead(t, stack, at);
    }
  }

  lemma NeutralHead(t: Str, stack: seq<Unit>, at: nat)
    requires t != [] && IsNeutral(t[0]) && stack != []
    ensures ContainerTail(t, stack) == Shift(1, ContainerTail(t[1..], stack))
    ensures Literals(t, at) == Literals(t[1..], at + 1)
  {
    assert [] + Literals(t[1..], at + 1) == Literals(t[1..], at + 1);
  }

  lemma LiteralHead(t: Str, stack: seq<Unit>, at: nat)
    requires t != [] && t[0] == QUOTE && StringLen(t).Some? && stack != []
    ensures var n := StringLen(t).value;
            ContainerTail(t, stack) == Shift(n, ContainerTail(t[n..], stack))
            && Literals(t, at) == [(at, t[..n])] + Literals(t[n..], at + n)
  {
    hide StringLen;
  }

  lemma CommentHead(t: Str, stack: seq<Unit>, at: nat)
    requires IsComment(t) && Chunk(t).Some? && stack != []
    ensures var n := Chunk(t).value;
            ContainerTail(t, stack) == Shift(n, ContainerTail(t[n..], stack))
            && Literals(t, at) == Literals(t[n..], at + n)
  {
    var n := Chunk(t).value;
    assert [] + Literals(t[n..], at + n) == Literals(t[n..], at + n);
  }

  /** Any other unit steps alone, and what it does depends on itself and the stack only. */
  lemma PlainHead(t: Str, r: Str, stack: seq<Unit>, at: nat)
    requires t != [] && r != [] && t[0] == r[0] && t[0] != QUOTE && !IsComment(t) && !IsComment(r) && stack != []
    requires forall st :: st != [] ==> ContainerTail(t[1..], st) == ContainerTail(r[1..], st)
    requires Literals(t[1..], at + 1) == Literals(r[1..], at + 1)
    ensures ContainerTail(t, stack) == ContainerTail(r, stack)
    ensures Literals(t, at) == Literals(r, at)
  {
    assert Chunk(t) == Some(1) == Chunk(r);
  }

  lemma ChunkKind(t: Str)
    requires t != []
    ensures t[0] == QUOTE ==> !IsComment(t)
    ensures t[0] != QUOTE && !IsComment(t) ==> Chunk(t) == Some(1)
    ensures t[0] == QUOTE ==> Chunk(t) == StringLen(t)
  {}

  lemma BlankNeutral(t: Str)
    ensures forall u <- Blank(t) :: IsNeutral(u)
  {
    assert forall u <- Blank(t) :: u == SPACE || u == CR || u == LF;
  }

  /** Blanking what follows a unit starts no comment at it. */
  lemma PlainStays(t: Str)
    requires t != [] && Strip(t[1..]).Some? && !IsComment(t)
    ensures !IsComment([t[0]] + Strip(t[1..]).value)
  {
    hide Strip;
    StripPositions(t[1..]);
  }

  /** Stripping keeps every literal in its place, and scanContainer finds the same end in the stripped text. */
  lemma {:induction false} StripKeepsStructure(t: Str, stack: seq<Unit>, at: nat)
    requires Strip(t).Some? && stack != []
    ensures ContainerTail(Strip(t).value, stack) == ContainerTail(t, stack)
    ensures Literals(Strip(t).value, at) == Literals(t, at)
    decreases |t|
  {
    hide ContainerTail, Literals, StringTail, BlockLen, LineLen, IsComment, IsNeutral, Blank;
    if t != [] {
      var n := Chunk(t).value;
      ChunkKind(t);
      var r, rest := Strip(t).value, Strip(t[n..]).value;
      forall st: seq<Unit> | st != []
        ensures ContainerTail(rest, st) == ContainerTail(t[n..], st)
        ensures Literals(rest, at + n) == Literals(t[n..], at + n)
      {
        StripKeepsStructure(t[n..], st, at + n);
      }
      StripKeepsStructure(t[n..], stack, at + n);
      if t[0] == QUOTE {
        StringLenCut(t, n);
        StringLenLocal(t[..n], rest);
        LiteralHead(t, stack, at);
        assert r[..n] == t[..n] && r[n..] == rest && r[0] == t[0];
        LiteralHead(r, stack, at);
      } else if IsComment(t) {
        CommentHead(t, stack, at);
        var b := Blank(t[..n]);
        assert r == b + rest;
        BlankNeutral(t[..n]);
        NeutralText(b, rest, stack, at);
      } else {
        assert t[..1] == [t[0]];
        assert r == [t[0]] + rest && r[1..] == rest;
        PlainStays(t);
        PlainHead(t, r, stack, at);
      }
    }
  }
}
