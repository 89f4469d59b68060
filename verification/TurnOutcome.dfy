/**
 * When a turn whose frames are delivered ends with a finished response: the exact conditions on its stream and
 * result.
 */
module TurnOutcome {
  import opened Units
  import opened ToolInput
  import opened EventStream
  import opened LateCalls
  import opened StreamedInputs
  import opened RecordedStreams

  // ---------------------------------------------------------------- declared calls

  predicate HasTool(tools: seq<Tool>, name: Str) { exists t <- tools :: t.wireName == name }

  /** A call of the result counts when it has an id and names a declared tool. */
  predicate Declared(tools: seq<Tool>, c: FinalCall) { c.id != [] && c.name != [] && HasTool(tools, c.name) }

  /** The tool of a name is the first one declared with it. */
  lemma {:induction false} FirstTool(tools: seq<Tool>, name: Str)
    ensures FindTool(tools, name).Some? <==> HasTool(tools, name)
    ensures forall i :: 0 <= i < |tools| && tools[i].wireName == name && (forall j :: 0 <= j < i ==> tools[j].wireName != name) ==>
              FindTool(tools, name) == Some(tools[i])
  {
    if tools != [] {
      FirstTool(tools[1..], name);
      assert tools == [tools[0]] + tools[1..];
      forall i | 0 <= i < |tools| && tools[i].wireName == name && (forall j :: 0 <= j < i ==> tools[j].wireName != name)
        ensures FindTool(tools, name) == Some(tools[i])
      {
        if i > 0 {
          assert tools[1..][i - 1] == tools[i] && forall j :: 0 <= j < i - 1 ==> tools[1..][j] == tools[j + 1];
          assert tools[0].wireName != name;
        }
      }
    }
  }

  /** The calls that are looked at are exactly the declared ones. */
  lemma {:induction false} KnownIn(calls: seq<FinalCall>, tools: seq<Tool>)
    ensures forall c :: c in KnownCalls(calls, tools) <==> c in calls && Declared(tools, c)
  {
    hide FindTool, HasTool;
    if calls != [] {
      FirstTool(tools, calls[0].name);
      KnownIn(calls[1..], tools);
      assert calls == [calls[0]] + calls[1..];
    }
  }

  /** They keep their order. */
  lemma {:induction false} KnownJoin(a: seq<FinalCall>, b: seq<FinalCall>, tools: seq<Tool>)
    ensures KnownCalls(a + b, tools) == KnownCalls(a, tools) + KnownCalls(b, tools)
  {
    if a == [] {
      assert a + b == b;
    } else {
      KnownJoin(a[1..], b, tools);
      assert (a + b)[1..] == a[1..] + b;
    }
  }

  predicate DistinctIds(calls: seq<FinalCall>) {
    forall i, j :: 0 <= i < j < |calls| ==> calls[i].id != calls[j].id
  }

  predicate DeclaredOnce(calls: seq<FinalCall>, tools: seq<Tool>) {
    forall i, j :: 0 <= i < j < |calls| && Declared(tools, calls[i]) && Declared(tools, calls[j]) ==>
      calls[i].id != calls[j].id
  }

  lemma DistinctStep(c: FinalCall, rest: seq<FinalCall>)
    ensures DistinctIds([c] + rest) <==> DistinctIds(rest) && forall x <- rest :: x.id != c.id
  {
    var all := [c] + rest;
    if DistinctIds(all) {
      forall i, j | 0 <= i < j < |rest| ensures rest[i].id != rest[j].id { assert all[i + 1].id != all[j + 1].id; }
      forall x | x in rest ensures x.id != c.id {
        var i :| 0 <= i < |rest| && rest[i] == x;
        assert all[0].id != all[i + 1].id;
      }
    }
  }

  lemma OnceStep(c: FinalCall, rest: seq<FinalCall>, tools: seq<Tool>)
    ensures DeclaredOnce([c] + rest, tools) <==>
            DeclaredOnce(rest, tools) && (Declared(tools, c) ==> forall x <- rest :: Declared(tools, x) ==> x.id != c.id)
  {
    hide Declared;
    var all := [c] + rest;
    if DeclaredOnce(all, tools) {
      forall i, j | 0 <= i < j < |rest| && Declared(tools, rest[i])
          && Declared(tools, rest[j]) ensures rest[i].id != rest[j].id {
        assert all[i + 1] == rest[i] && all[j + 1] == rest[j];
      }
      forall x | x in rest && Declared(tools, c) && Declared(tools, x) ensures x.id != c.id {
        var i :| 0 <= i < |rest| && rest[i] == x;
        assert all[0] == c && all[i + 1] == x;
      }
    }
  }

  lemma {:induction false} KnownOnce(calls: seq<FinalCall>, tools: seq<Tool>)
    ensures DistinctIds(KnownCalls(calls, tools)) <==> DeclaredOnce(calls, tools)
  {
    hide FindTool, HasTool, DistinctIds, DeclaredOnce;
    if calls == [] {
      NoneTwice(tools);
    } else {
      var c, rest := calls[0], calls[1..];
      FirstTool(tools, c.name);
      KnownOnce(rest, tools);
      KnownIn(rest, tools);
      DistinctStep(c, KnownCalls(rest, tools));
      OnceStep(c, rest, tools);
      assert calls == [c] + rest;
      assert [] + KnownCalls(rest, tools) == KnownCalls(rest, tools);
    }
  }

  lemma NoneTwice(tools: seq<Tool>)
    ensures DistinctIds([]) && DeclaredOnce([], tools)
  {}

  // ---------------------------------------------------------------- the conditions

  /** The declared call repeats what was streamed of it: all of it when the call is done, else its beginning. */
  predicate Repeats(s: State, c: FinalCall) {
    c.id in s.calls ==>
      var k := s.calls[c.id];
      k.tool.wireName == c.name && if k.done then k.raw == c.arguments else IsPrefix(k.raw, c.arguments)
  }

  predicate AnyDeclared(s: State, r: Result) { exists c <- r.calls :: Declared(s.tools, c) }

  predicate Meets(s: State, c: Constraint, r: Result) {
    match c
    case Unconstrained => true
    case SomeCall => AnyDeclared(s, r)
    case ThisCall(name) => exists x <- r.calls :: Declared(s.tools, x) && x.name == name
  }

  /** Each declared call once, each repeating its stream, and every streamed call among them. */
  ghost predicate CallsAgree(s: State, r: Result) {
    && DeclaredOnce(r.calls, s.tools)
    && (forall c <- r.calls :: Declared(s.tools, c) ==> Repeats(s, c))
    && (forall id <- s.calls :: exists c <- r.calls :: Declared(s.tools, c) && c.id == id)
  }

  /** What the result of a turn has to satisfy. */
  ghost predicate Fits(s: State, c: Constraint, r: Result) {
    && r.ok && r.rightModel && CallsAgree(s, r) && Meets(s, c, r)
    && (r.output == [] && !r.incomplete ==> AnyDeclared(s, r)) && IsPrefix(s.text, r.output)
  }

  /** A custom call whose final input does not extend what was streamed of it. */
  predicate Contradicted(s: State, r: Result) { exists c <- r.calls :: Declared(s.tools, c) && Mismatched(s, c) }

  // ---------------------------------------------------------------- reconciling one call after another

  ghost predicate SeqAgrees(s: State, calls: seq<FinalCall>, seen: set<Str>) {
    && DistinctIds(calls)
    && (forall c <- calls :: c.id !in seen && Repeats(s, c))
    && (forall id <- s.calls :: id in seen || exists c <- calls :: c.id == id)
  }

  lemma OneAgrees(s: State, c: FinalCall)
    requires Up(s) && FindTool(s.tools, c.name).Some?
    ensures ReconcileOne(s, c).1 <==> Repeats(s, c)
  {
    hide Up, StartCall, AppendCallDelta, FinishCall;
    UpStartCall(s, c.id, c.name);
  }

  lemma PendingText(s: State)
    ensures FinishPending(s).text == s.text
  {
    hide Emit;
    EmitFrame(s.(reasoningStarted := true), Added(|s.output|, ReasoningItem));
    var r := StartReasoning(s);
    EmitFrame(r, Done(|r.output|, ReasoningItem));
  }

  lemma StartedText(s: State, id: Str, name: Str)
    ensures StartCall(s, id, name).text == s.text
  {
    hide Emit, ItemOf, FinishPending;
    TextFrame(s);
    PendingText(s);
    if id !in s.calls && FindTool(s.tools, name).Some? {
      var p := FinishPending(s);
      var call := Call(FindTool(s.tools, name).value, |p.output|, [], [], false, false);
      EmitFrame(p.(calls := p.calls[id := call], output := p.output + [ItemOf(id, call)]), Added(|p.output|, ItemOf(id, call)));
    }
  }

  lemma GrownText(s: State, id: Str, delta: Str)
    ensures AppendCallDelta(s, id, delta).text == s.text
  {
    hide Emit, Partial;
    if id in s.calls {
      var c := s.calls[id].(raw := s.calls[id].raw + delta);
      EmitFrame(WithCall(s, id, c), Delta(CallKey(id), c.index, delta));
      var input := Partial(c.raw);
      if input.Some? && |c.streamed| <= |input.value| {
        EmitFrame(s, Delta(CallKey(id), c.index, input.value[|c.streamed|..]));
      }
    }
  }

  lemma SealedText(s: State, id: Str)
    requires id in s.calls
    ensures SealCall(s, id).text == s.text
  {
    hide Emit, ItemOf, Shown;
    var c := s.calls[id].(done := true);
    var item := ItemOf(id, c);
    var p := ValueDone(CallKey(id), c.index, Shown(c.tool.kind, c.raw));
    EmitFrame(s, p);
    var a := if c.tool.kind.Search? then s else Emit(s, p);
    EmitFrame(a.(output := SetItem(a.output, c.index, item)), Done(c.index, item));
  }

  lemma FinishedText(s: State, id: Str)
    ensures FinishCall(s, id).text == s.text
  {
    hide Emit, CustomInput, SealCall;
    EmitFrame(s, Failed);
    if id in s.calls {
      var c := s.calls[id];
      SealedText(s, id);
      if IsPrefix(c.streamed, CustomInput(c.raw)) {
        EmitFrame(s, Delta(CallKey(id), c.index, CustomInput(c.raw)[|c.streamed|..]));
        RestKeeps(s, id);
        SealedText(StreamRest(s, id), id);
      }
    }
  }

  lemma OneText(s: State, c: FinalCall)
    ensures ReconcileOne(s, c).0.text == s.text
  {
    hide StartCall, AppendCallDelta, FinishCall;
    StartedText(s, c.id, c.name);
    var a := if c.id in s.calls then s else StartCall(s, c.id, c.name);
    if c.id in a.calls && IsPrefix(a.calls[c.id].raw, c.arguments) {
      var d := c.arguments[|a.calls[c.id].raw|..];
      GrownText(a, c.id, d);
      FinishedText(AppendCallDelta(a, c.id, d), c.id);
    }
  }

  /** After one call the others agree exactly when they did before. */
  lemma OthersAgree(s: State, a: State, c: FinalCall, rest: seq<FinalCall>, seen: set<Str>)
    requires KeepsOthers(s, a, c.id) && c.id in a.calls && c.id !in seen && Repeats(s, c)
    ensures SeqAgrees(a, rest, seen + {c.id}) <==> SeqAgrees(s, [c] + rest, seen)
  {
    hide DistinctIds;
    DistinctStep(c, rest);
    var calls := [c] + rest;
    assert forall x :: x in calls <==> x == c || x in rest;
    assert forall x: FinalCall :: x.id != c.id ==> (Repeats(s, x) <==> Repeats(a, x));
  }

  lemma {:induction false} FromAgrees(s: State, calls: seq<FinalCall>, seen: set<Str>)
    requires Inv(s) && Up(s)
    requires forall c <- calls :: FindTool(s.tools, c.name).Some? && !Mismatched(s, c)
    ensures ReconcileFrom(s, calls, seen).1 <==> SeqAgrees(s, calls, seen)
    ensures ReconcileFrom(s, calls, seen).0.text == s.text
    decreases |calls|
  {
    hide Inv, Up, ReconcileOne, Mismatched, Repeats;
    if calls != [] {
      var c := calls[0];
      assert c in calls && calls == [c] + calls[1..];
      var (a, ok) := ReconcileOne(s, c);
      OneAgrees(s, c);
      OneText(s, c);
      ReconcileOneInv(s, c);
      if ok && c.id !in seen {
        OneUp(s, c);
        ReconciledHas(s, c);
        OthersAgree(s, a, c, calls[1..], seen);
        if forall x <- calls[1..] :: x.id != c.id {
          forall x | x in calls[1..] ensures Mismatched(a, x) == Mismatched(s, x) { SameMismatch(s, a, c.id, x); }
          FromAgrees(a, calls[1..], seen + {c.id});
        } else {
          Repeated(a, calls[1..], seen + {c.id}, c.id);
        }
      }
    }
  }

  lemma ReconciledHas(s: State, c: FinalCall)
    requires ReconcileOne(s, c).1
    ensures c.id in ReconcileOne(s, c).0.calls
  {
    hide StartCall, AppendCallDelta, FinishCall;
    var a := if c.id in s.calls then s else StartCall(s, c.id, c.name);
    if !a.calls[c.id].done {
      var d := c.arguments[|a.calls[c.id].raw|..];
      DeltaKeeps(a, c.id, d);
      FinishKeeps(AppendCallDelta(a, c.id, d), c.id);
    }
  }

  /** A call that was seen is not reconciled again. */
  lemma {:induction false} Repeated(s: State, calls: seq<FinalCall>, seen: set<Str>, id: Str)
    requires id in seen && exists x <- calls :: x.id == id
    ensures !ReconcileFrom(s, calls, seen).1 && !SeqAgrees(s, calls, seen)
    ensures ReconcileFrom(s, calls, seen).0.text == s.text
    decreases |calls|
  {
    hide ReconcileOne, Repeats;
    var x :| x in calls && x.id == id;
    if calls[0].id !in seen {
      OneText(s, calls[0]);
      assert calls == [calls[0]] + calls[1..];
      Repeated(ReconcileOne(s, calls[0]).0, calls[1..], seen + {calls[0].id}, id);
    }
  }

  // ---------------------------------------------------------------- the end of the turn

  lemma ObservedText(s: State, r: Result)
    ensures Observed(s, r).text == s.text
  {
    hide Emit;
    var a := s.(reasoningObserved := true);
    EmitFrame(a.(reasoningStarted := true), Added(|a.output|, ReasoningItem));
  }

  lemma CallsAgreeSeq(s: State, a: State, r: Result)
    requires a.calls == s.calls && a.tools == s.tools
    ensures SeqAgrees(a, KnownCalls(r.calls, s.tools), {}) <==> CallsAgree(s, r)
    ensures Contradicted(s, r) <==> AnyMismatch(s, r)
    ensures AnyDeclared(s, r) <==> KnownCalls(r.calls, s.tools) != []
  {
    hide KnownCalls, Mismatched, Declared, DistinctIds, DeclaredOnce;
    var calls := KnownCalls(r.calls, s.tools);
    KnownIn(r.calls, s.tools);
    KnownOnce(r.calls, s.tools);
    if calls != [] { assert calls[0] in calls; }
    forall c: FinalCall ensures Repeats(s, c) <==> Repeats(a, c) {}
    if CallsAgree(s, r) {
      forall id | id in s.calls ensures exists c <- calls :: c.id == id {
        var c :| c in r.calls && Declared(s.tools, c) && c.id == id;
        assert c in calls;
      }
    }
  }

  lemma MeetsSatisfies(s: State, c: Constraint, r: Result)
    ensures Meets(s, c, r) <==> Satisfied(c, KnownCalls(r.calls, s.tools))
  {
    hide KnownCalls, Declared;
    var calls := KnownCalls(r.calls, s.tools);
    KnownIn(r.calls, s.tools);
    if calls != [] { assert calls[0] in calls; }
    match c {
      case ThisCall(name) =>
        if Meets(s, c, r) {
          var x :| x in r.calls && Declared(s.tools, x) && x.name == name;
          assert x in calls;
          var i :| 0 <= i < |calls| && calls[i] == x;
        }
        if Satisfied(c, calls) {
          var i :| 0 <= i < |calls| && calls[i].name == name;
          assert calls[i] in calls;
        }
      case _ =>
    }
  }

  /** While frames are delivered and no final input contradicts its stream, a result passes exactly when it fits. */
  lemma FitsExactly(s: State, c: Constraint, r: Result)
    requires Inv(s) && Up(s) && !Contradicted(s, r)
    ensures Recorded(s, c, r) <==> Fits(s, c, r)
  {
    hide Inv, Up, Observed, ReconcileFrom, KnownCalls, Mismatched, Satisfied, Meets, CallsAgree, SeqAgrees, AnyDeclared, Contradicted;
    var a, calls := Observed(s, r), KnownCalls(r.calls, s.tools);
    UpObserve(s, r);
    OpenUp(a);
    ObservedCalls(s, r);
    ObservedText(s, r);
    ObservedInv(s, r);
    CallsAgreeSeq(s, a, r);
    MeetsSatisfies(s, c, r);
    forall x | x in calls ensures FindTool(a.tools, x.name).Some? && !Mismatched(a, x) {
      KnownIn(r.calls, s.tools);
      FirstTool(s.tools, x.name);
      CallsMismatch(s, a, x);
    }
    FromAgrees(a, calls, {});
  }

  lemma ObservedInv(s: State, r: Result)
    requires Inv(s)
    ensures Inv(Observed(s, r))
  {
    hide Inv, ObserveReasoning;
    ObserveInv(s, r.reasoning);
  }

  lemma RejectedFails(s: State, c: Constraint, r: Result)
    requires Inv(s) && Up(s) && !Recorded(s, c, r)
    ensures !IsFinished(Step(s, Finished(c, r)).wire)
  {
    hide Inv, ObserveReasoning, ReconcileFrom, KnownCalls, Satisfied, Conclude, Unanswered, IsFinished, Fail;
    OpenUp(s);
    InvUnanswered(s);
    TextUnanswered(s, []);
    ReconcileInv(s, r);
    var b := Reconciled(s, r).0;
    TextUnanswered(b, []);
    Unfinished(Fail(s));
    Unfinished(Fail(b));
  }

  lemma InvUnanswered(s: State)
    requires Inv(s) && !s.closed
    ensures Unanswered(s.frames, s.wire)
  {
    hide Framed, Live, Unanswered;
    OpenUnanswered(s);
  }

  /**
   * In every run whose frames are delivered, a turn ends with a finished response if and only if its result is of the
   * right model, its declared calls are each named once, repeat what was streamed of them and include every streamed
   * call, no final custom input contradicts its stream, the tool constraint is met by a declared call, the result is not
   * empty unless it is incomplete, and its text extends the streamed one.
   */
  lemma TurnEnds(encrypted: bool, tools: seq<Tool>, es: seq<Event>, c: Constraint, r: Result)
    requires Up(Run(Start(encrypted, tools), es))
    ensures var s := Run(Start(encrypted, tools), es);
            IsFinished(Step(s, Finished(c, r)).wire) <==> Fits(s, c, r) && !Contradicted(s, r)
  {
    hide Run, Start, Inv, Recorded, Step, IsFinished, Fits, Contradicted, AnyMismatch, NothingToAdd;
    StartInv(encrypted, tools);
    RunInv(Start(encrypted, tools), es);
    var s := Run(Start(encrypted, tools), es);
    CallsAgreeSeq(s, s, r);
    if Recorded(s, c, r) {
      RecordedWire(encrypted, tools, es, c, r);
    } else {
      RejectedFails(s, c, r);
    }
    if !Contradicted(s, r) { FitsExactly(s, c, r); }
  }
}
