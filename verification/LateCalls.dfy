/** Which runs of upstream events let a tool call in after the text, and so give the text another place when it is done. */
module LateCalls {
  import opened Units
  import opened ToolInput
  import opened EventStream

  // ---------------------------------------------------------------- the condition, on events

  predicate IsText(e: Event) { e.TextDelta? && e.delta != [] }

  predicate HasText(es: seq<Event>) { exists e <- es :: IsText(e) }

  predicate StartsKnown(tools: seq<Tool>, e: Event) { e.CallStart? && FindTool(tools, e.name).Some? }

  /** The calls of known tools that the events start. */
  function StartedIds(tools: seq<Tool>, es: seq<Event>): set<Str> {
    set e <- es | StartsKnown(tools, e) :: e.id
  }

  /** Event `j` starts a new call of a known tool, after the first text delta. */
  predicate StartsLate(tools: seq<Tool>, es: seq<Event>, j: nat)
    requires j < |es|
  {
    StartsKnown(tools, es[j]) && es[j].id !in StartedIds(tools, es[..j]) && HasText(es[..j])
  }

  predicate AnyLate(tools: seq<Tool>, es: seq<Event>) {
    exists j: nat :: j < |es| && StartsLate(tools, es, j)
  }

  /** A new call of a known tool starts after the first text delta, or is first seen in the result, when there was text. */
  predicate CalledLate(tools: seq<Tool>, es: seq<Event>, calls: seq<FinalCall>) {
    AnyLate(tools, es) || (HasText(es) && exists c <- KnownCalls(calls, tools) :: c.id !in StartedIds(tools, es))
  }

  lemma TextSnoc(es: seq<Event>, e: Event)
    ensures HasText(es + [e]) <==> HasText(es) || IsText(e)
  {
    assert forall x :: x in es + [e] <==> x in es || x == e;
  }

  lemma StartedSnoc(tools: seq<Tool>, es: seq<Event>, e: Event)
    ensures StartedIds(tools, es + [e]) == StartedIds(tools, es) + if StartsKnown(tools, e) then {e.id} else {}
  {
    assert forall x :: x in es + [e] <==> x in es || x == e;
  }

  lemma LateSnoc(tools: seq<Tool>, es: seq<Event>, e: Event)
    ensures AnyLate(tools, es + [e]) <==>
            AnyLate(tools, es) || (StartsKnown(tools, e) && e.id !in StartedIds(tools, es) && HasText(es))
  {
    hide HasText, StartedIds, FindTool;
    var all, n := es + [e], |es|;
    assert all[n] == e && all[..n] == es;
    forall j: nat | j < n ensures StartsLate(tools, all, j) == StartsLate(tools, es, j) {
      assert all[j] == es[j] && all[..j] == es[..j];
    }
    if AnyLate(tools, es) {
      var j: nat :| j < n && StartsLate(tools, es, j);
      assert StartsLate(tools, all, j);
    }
    assert StartsLate(tools, all, n) <==> StartsKnown(tools, e) && e.id !in StartedIds(tools, es) && HasText(es);
  }

  // ---------------------------------------------------------------- what changes the tally

  function IsLate(s: State): bool { TallyOf(s.frames).late }

  /** All but the text that the condition depends on. */
  predicate SameCalls(s: State, e: State) {
    IsLate(e) == IsLate(s) && e.textMessage == s.textMessage && e.calls.Keys == s.calls.Keys && e.tools == s.tools
  }

  predicate SameView(s: State, e: State) {
    SameCalls(s, e) && e.textStarted == s.textStarted
  }

  lemma SameCallsJoin(a: State, b: State, c: State)
    requires SameCalls(a, b) && SameCalls(b, c)
    ensures SameCalls(a, c)
  {}

  lemma WithView(s: State, e: State, id: Str, c: Call)
    requires SameView(s, e) && id in s.calls
    ensures SameView(s, WithCall(e, id, c))
  {
    assert e.calls.Keys + {id} == e.calls.Keys;
  }

  lemma EmitView(s: State, p: Payload)
    requires p.Added? ==> !p.item.CallItem?
    ensures SameView(s, Emit(s, p))
  {
    hide TallyOf;
    TallySnoc(s.frames, Frame(s.number, p));
  }

  lemma ReasoningView(s: State)
    ensures SameView(s, StartReasoning(s)) && SameView(s, FinishReasoning(s)) && SameView(s, FinishPending(s))
  {
    hide TallyOf, Emit;
    EmitView(s.(reasoningStarted := true), Added(|s.output|, ReasoningItem));
    EmitView(s, Done(|s.output|, ReasoningItem));
    var r := StartReasoning(s);
    EmitView(r, Done(|r.output|, ReasoningItem));
  }

  lemma TextView(s: State)
    ensures SameCalls(s, StartText(s)) && StartText(s).textStarted == (s.textStarted || !s.closed)
  {
    hide TallyOf, Emit, IsLate;
    var i := |s.output|;
    var a := s.(textStarted := true);
    StartedView(s);
    EmitView(a, Added(i, TextItem([])));
    EmitView(Emit(a, Added(i, TextItem([]))), PartAdded(i));
  }

  lemma StartedView(s: State)
    ensures SameCalls(s, s.(textStarted := true))
  {}

  lemma AppendView(s: State, delta: Str)
    ensures var e := AppendText(s, delta);
            && SameCalls(s, e)
            && (!e.closed ==> (e.textStarted <==> s.textStarted || delta != []))
  {
    hide TallyOf, Emit, StartText, FinishPending, SameCalls;
    SelfView(s);
    if !s.closed && delta != [] {
      ReasoningView(s);
      var q := if s.textStarted then s else FinishPending(s);
      TextView(q);
      var a := StartText(q);
      SameCallsJoin(s, q, a);
      if !a.closed {
        var p := Delta(TextKey, |a.output|, delta);
        var b := Emit(a, p);
        EmitView(a, p);
        SameCallsJoin(s, a, b);
        TextAppended(b, delta);
        SameCallsJoin(s, b, b.(text := b.text + delta));
        TextOpens(q);
      }
    }
  }

  lemma SelfView(s: State)
    ensures SameView(s, s)
  {}

  lemma TextAppended(b: State, delta: Str)
    ensures SameView(b, b.(text := b.text + delta))
  {}

  lemma TextOpens(s: State)
    ensures s.closed ==> StartText(s) == s
  {}

  lemma FinishTextView(s: State)
    ensures SameView(s, FinishText(s))
  {
    hide TallyOf, Emit;
    var i := |s.output|;
    var p1, p2 := ValueDone(TextKey, i, s.text), PartDone(i, s.text);
    EmitView(s, p1);
    EmitView(Emit(s, p1), p2);
    EmitView(Emit(Emit(s, p1), p2), Done(i, TextItem(s.text)));
  }

  lemma DeltaView(s: State, id: Str, delta: Str)
    ensures SameView(s, AppendCallDelta(s, id, delta))
  {
    hide TallyOf, Emit, Partial, WithCall, SameView;
    SelfView(s);
    if !s.closed && id in s.calls && !s.calls[id].done && delta != [] {
      var c := s.calls[id].(raw := s.calls[id].raw + delta);
      var p := Delta(CallKey(id), c.index, delta);
      EmitWith(s, id, c, p);
      EmitView(s, p);
      WithView(s, Emit(s, p), id, c);
      WithView(s, s, id, c);
      WithView(s, s, id, c.(disabled := true));
      var input := Partial(c.raw);
      if input.Some? && |input.value| >= |c.streamed| {
        var q := Delta(CallKey(id), c.index, input.value[|c.streamed|..]);
        EmitView(s, q);
        WithView(s, Emit(s, q), id, c.(streamed := input.value));
      }
    }
  }

  lemma SealView(s: State, id: Str)
    requires id in s.calls
    ensures SameView(s, SealCall(s, id))
  {
    hide TallyOf, Emit, ItemOf, Shown;
    var c := s.calls[id].(done := true);
    var item := ItemOf(id, c);
    var p := ValueDone(CallKey(id), c.index, Shown(c.tool.kind, c.raw));
    EmitView(s, p);
    var a := if c.tool.kind.Search? then s else Emit(s, p);
    EmitView(a.(output := SetItem(a.output, c.index, item)), Done(c.index, item));
    assert s.calls.Keys + {id} == s.calls.Keys;
  }

  lemma FinishView(s: State, id: Str)
    ensures SameView(s, FinishCall(s, id))
  {
    hide TallyOf, Emit, CustomInput, SealCall;
    EmitView(s, Failed);
    if !s.closed && id in s.calls {
      var c := s.calls[id];
      assert s.calls.Keys + {id} == s.calls.Keys;
      SealView(s, id);
      if IsPrefix(c.streamed, CustomInput(c.raw)) {
        EmitView(s, Delta(CallKey(id), c.index, CustomInput(c.raw)[|c.streamed|..]));
        RestKeeps(s, id);
        SealView(StreamRest(s, id), id);
      }
    }
  }

  /** A new call of a known tool is late exactly when the text has started. */
  lemma StartView(s: State, id: Str, name: Str)
    requires Inv(s) && !StartCall(s, id, name).closed
    ensures var e := StartCall(s, id, name);
            && e.textStarted == s.textStarted && e.textMessage == s.textMessage && e.tools == s.tools
            && e.calls.Keys == s.calls.Keys + (if FindTool(s.tools, name).Some? then {id} else {})
            && IsLate(e) == (IsLate(s) || (FindTool(s.tools, name).Some? && id !in s.calls && s.textStarted))
  {
    hide TallyOf, Emit, FinishPending, ItemOf, Framed, CallsFit, OutputFits, ReasoningFits, AddedOf, DoneOf, DeltasOf, Add;
    if id in s.calls {
      assert s.calls.Keys + {id} == s.calls.Keys;
    } else if FindTool(s.tools, name).Some? && !s.closed {
      FinishPendingCore(s);
      ReasoningView(s);
      TextFrame(s);
      var p := FinishPending(s);
      var call := Call(FindTool(s.tools, name).value, |p.output|, [], [], false, false);
      AddView(p, id, call);
    }
  }

  lemma AddView(p: State, id: Str, call: Call)
    ensures var item := ItemOf(id, call);
            var e := Emit(p.(calls := p.calls[id := call], output := p.output + [item]), Added(|p.output|, item));
            && e.calls.Keys == p.calls.Keys + {id} && e.textStarted == p.textStarted && e.textMessage == p.textMessage
            && e.tools == p.tools && (p.closed ==> e.closed)
            && (!e.closed ==> IsLate(e) == (IsLate(p) || AddedOf(TallyOf(p.frames), TextKey) != []))
  {
    hide TallyOf;
    TallySnoc(p.frames, Frame(p.number, Added(|p.output|, ItemOf(id, call))));
  }

  // ---------------------------------------------------------------- every open run

  /** What an open stream has seen, told by its events. */
  predicate Told(s: State, tools: seq<Tool>, es: seq<Event>) {
    && s.tools == tools && s.calls.Keys == StartedIds(tools, es) && s.textStarted == HasText(es)
    && IsLate(s) == AnyLate(tools, es) && (s.textMessage.Some? ==> s.textStarted)
  }

  lemma TextDeltaView(s: State, id: Str, delta: Str)
    requires !s.closed && (s.textMessage.Some? ==> s.textStarted) && !AppendTextDelta(s, id, delta).closed
    ensures var e := AppendTextDelta(s, id, delta);
            && IsLate(e) == IsLate(s) && e.calls.Keys == s.calls.Keys && e.tools == s.tools
            && e.textStarted == (s.textStarted || delta != []) && (e.textMessage.Some? ==> e.textStarted)
  {
    hide AppendText, IsLate;
    var m := if s.textMessage.Some? then s.textMessage else Some(id);
    MessageView(s, m);
    AppendView(s.(textMessage := m), delta);
  }

  lemma ToldText(s: State, tools: seq<Tool>, es: seq<Event>, id: Str, delta: Str)
    requires Told(s, tools, es) && !s.closed && !AppendTextDelta(s, id, delta).closed
    ensures Told(AppendTextDelta(s, id, delta), tools, es + [TextDelta(id, delta)])
  {
    hide StartedIds, HasText, AnyLate, AppendTextDelta, IsLate;
    var e := TextDelta(id, delta);
    TextSnoc(es, e);
    StartedSnoc(tools, es, e);
    LateSnoc(tools, es, e);
    assert StartedIds(tools, es) + {} == StartedIds(tools, es);
    TextDeltaView(s, id, delta);
  }

  lemma MessageView(s: State, m: Option<Str>)
    ensures IsLate(s.(textMessage := m)) == IsLate(s)
  {}

  lemma ToldSame(s: State, e: State, tools: seq<Tool>, es: seq<Event>, x: Event)
    requires Told(s, tools, es) && SameView(s, e) && !x.TextDelta? && !x.CallStart?
    ensures Told(e, tools, es + [x])
  {
    hide StartedIds, HasText, AnyLate, IsLate;
    TextSnoc(es, x);
    StartedSnoc(tools, es, x);
    LateSnoc(tools, es, x);
    assert StartedIds(tools, es) + {} == StartedIds(tools, es);
  }

  lemma ToldStart(s: State, tools: seq<Tool>, es: seq<Event>, id: Str, name: Str)
    requires Inv(s) && Told(s, tools, es) && !StartCall(s, id, name).closed
    ensures Told(StartCall(s, id, name), tools, es + [CallStart(id, name)])
  {
    hide Inv, StartedIds, HasText, AnyLate, IsLate, StartCall;
    var x := CallStart(id, name);
    TextSnoc(es, x);
    StartedSnoc(tools, es, x);
    LateSnoc(tools, es, x);
    StartView(s, id, name);
  }

  lemma ToldStep(s: State, tools: seq<Tool>, es: seq<Event>, x: Event)
    requires Inv(s) && !s.closed && Told(s, tools, es) && !Step(s, x).closed
    ensures Told(Step(s, x), tools, es + [x])
  {
    hide Inv, Told, AppendTextDelta, ObserveReasoning, StartCall, AppendCallDelta, FinishCall, FinishTurn, Fail, SameView;
    match x {
      case TextDelta(id, delta) => ToldText(s, tools, es, id, delta);
      case Reasoning(id) =>
        ObserveView(s, id);
        ToldSame(s, Step(s, x), tools, es, x);
      case CallStart(id, name) => ToldStart(s, tools, es, id, name);
      case CallDelta(id, delta) =>
        DeltaView(s, id, delta);
        ToldSame(s, Step(s, x), tools, es, x);
      case CallDone(id) =>
        FinishView(s, id);
        ToldSame(s, Step(s, x), tools, es, x);
      case SinkBreaks =>
        SinkView(s);
        ToldSame(s, Step(s, x), tools, es, x);
      case Cancelled =>
      case Finished(c, r) => FinishTurnInv(s, c, r);
      case Threw(_) => FailInv(s);
    }
  }

  lemma ObserveView(s: State, id: Str)
    ensures SameView(s, ObserveReasoning(s, id))
  {
    hide TallyOf, StartReasoning;
    ReasoningView(s.(reasoningObserved := true));
  }

  lemma SinkView(s: State)
    ensures SameView(s, s.(sinkOpen := false))
  {}

  lemma {:induction false} RunSnoc(s: State, es: seq<Event>, x: Event)
    ensures Run(s, es + [x]) == Step(Run(s, es), x)
    decreases |es|
  {
    hide Step;
    if es == [] {
      assert [x][1..] == [];
    } else {
      assert (es + [x])[1..] == es[1..] + [x];
      RunSnoc(Step(s, es[0]), es[1..], x);
    }
  }

  lemma {:induction false} RunTold(encrypted: bool, tools: seq<Tool>, es: seq<Event>)
    ensures Inv(Run(Start(encrypted, tools), es))
    ensures !Run(Start(encrypted, tools), es).closed ==> Told(Run(Start(encrypted, tools), es), tools, es)
    decreases |es|
  {
    hide Inv, Told, Start, Step;
    StartInv(encrypted, tools);
    RunInv(Start(encrypted, tools), es);
    if es == [] {
      StartTold(encrypted, tools);
    } else {
      var n := |es| - 1;
      var init := es[..n];
      assert es == init + [es[n]];
      RunTold(encrypted, tools, init);
      RunSnoc(Start(encrypted, tools), init, es[n]);
      var s := Run(Start(encrypted, tools), init);
      ClosedForever(s, es[n]);
      if !Step(s, es[n]).closed { ToldStep(s, tools, init, es[n]); }
    }
  }

  lemma StartTold(encrypted: bool, tools: seq<Tool>)
    ensures Told(Start(encrypted, tools), tools, [])
  {
    hide TallyOf;
    StartFrames(encrypted, tools);
  }

  // ---------------------------------------------------------------- the end of a turn

  lemma OneView(s: State, c: FinalCall)
    requires Inv(s) && ReconcileOne(s, c).1 && !ReconcileOne(s, c).0.closed
    ensures var e := ReconcileOne(s, c).0;
            && e.textStarted == s.textStarted && e.calls.Keys == s.calls.Keys + {c.id}
            && IsLate(e) == (IsLate(s) || (c.id !in s.calls && s.textStarted))
  {
    hide Inv, StartCall, AppendCallDelta, FinishCall, IsLate;
    var a := if c.id in s.calls then s else StartCall(s, c.id, c.name);
    OneStaysClosed(s, c);
    if c.id !in s.calls { StartView(s, c.id, c.name); } else { assert s.calls.Keys + {c.id} == s.calls.Keys; }
    if !a.calls[c.id].done {
      var d := c.arguments[|a.calls[c.id].raw|..];
      DeltaView(a, c.id, d);
      FinishView(AppendCallDelta(a, c.id, d), c.id);
    }
    assert c.id !in s.calls ==> FindTool(s.tools, c.name).Some? by { NotStarted(s, c.id, c.name); }
  }

  lemma NotStarted(s: State, id: Str, name: Str)
    ensures id !in s.calls && FindTool(s.tools, name).None? ==> StartCall(s, id, name) == s
  {}

  lemma OneStaysClosed(s: State, c: FinalCall)
    ensures c.id !in s.calls && StartCall(s, c.id, c.name).closed ==> ReconcileOne(s, c).0.closed
  {
    hide StartCall;
    var a := StartCall(s, c.id, c.name);
    if c.id !in s.calls && a.closed && c.id in a.calls && IsPrefix(a.calls[c.id].raw, c.arguments) {
      AllClosed(a, c.id, c.arguments[|a.calls[c.id].raw|..]);
    }
  }

  lemma {:induction false} FromView(s: State, calls: seq<FinalCall>, seen: set<Str>)
    requires Inv(s) && ReconcileFrom(s, calls, seen).1 && !ReconcileFrom(s, calls, seen).0.closed
    ensures var e := ReconcileFrom(s, calls, seen).0;
            IsLate(e) == (IsLate(s) || (s.textStarted && exists c <- calls :: c.id !in s.calls))
    ensures forall c <- calls :: c.id !in seen
    decreases |calls|
  {
    hide Inv, ReconcileOne, IsLate;
    if calls != [] {
      var c, rest := calls[0], calls[1..];
      assert calls == [c] + rest;
      ReconcileOneInv(s, c);
      var a := ReconcileOne(s, c).0;
      StillOpen(a, rest, seen + {c.id});
      FromView(a, rest, seen + {c.id});
      OneView(s, c);
    }
  }

  lemma ConcludeView(s: State, text: Str, incomplete: bool)
    ensures IsLate(Conclude(s, text, incomplete)) == IsLate(s)
  {
    hide TallyOf, Emit, AppendText, FinishText, FinishPending;
    EmitView(s, Failed);
    if IsPrefix(s.text, text) {
      AppendView(s, text[|s.text|..]);
      var a := AppendText(s, text[|s.text|..]);
      FinishTextView(a);
      var f := if a.textStarted then FinishText(a) else a;
      ReasoningView(f);
      var b := FinishPending(f);
      EmitView(b, if incomplete then Incomplete(b.output) else Completed(b.output));
    }
  }

  /** The tally of a finished response is late exactly when its events and its result are. */
  lemma FinishedLate(encrypted: bool, tools: seq<Tool>, es: seq<Event>, c: Constraint, r: Result)
    requires var s := Run(Start(encrypted, tools), es);
             !s.closed && var p := LastPayload(Step(s, Finished(c, r))); p.Completed? || p.Incomplete?
    ensures IsLate(Step(Run(Start(encrypted, tools), es), Finished(c, r))) == CalledLate(tools, es, r.calls)
  {
    hide Inv, Run, Start, Reconcile, Conclude, Fail, ObserveReasoning, LastPayload, Satisfied, KnownCalls, StartedIds, HasText,
      AnyLate, Unanswered, IsLate;
    RunTold(encrypted, tools, es);
    var s := Run(Start(encrypted, tools), es);
    var a := if r.reasoning != [] then ObserveReasoning(s, r.reasoning) else s;
    var calls := KnownCalls(r.calls, s.tools);
    ObserveInv(s, r.reasoning);
    ObserveView(s, r.reasoning);
    FailLast(s);
    ReconcileInv(s, r);
    var (b, ok) := Reconcile(a, calls);
    FailUnanswered(b);
    ConcludeView(b, r.output, r.incomplete);
    ClosedUnanswered(b, r);
    ReconcileView(a, calls);
  }

  lemma ClosedUnanswered(b: State, r: Result)
    requires Unanswered(b.frames, b.wire)
    ensures b.closed ==> !LastPayload(Conclude(b, r.output, r.incomplete)).Completed?
                         && !LastPayload(Conclude(b, r.output, r.incomplete)).Incomplete?
  {
    hide Unanswered, Conclude, LastPayload;
    UnansweredLast(b);
    if b.closed { ConcludeClosed(b, r.output, r.incomplete); }
  }

  lemma ReconcileView(a: State, calls: seq<FinalCall>)
    requires Inv(a)
    ensures var (b, ok) := Reconcile(a, calls);
            ok && !b.closed ==> IsLate(b) == (IsLate(a) || (a.textStarted && exists c <- calls :: c.id !in a.calls))
  {
    hide Inv, ReconcileFrom, IsLate;
    var (b, ok) := Reconcile(a, calls);
    if ok && !b.closed { FromView(a, calls, {}); }
  }

  /**
   * Every item of a finished response is added at the place it is done at, if and only if no new call of a known tool
   * started after the first text delta, or was first seen in the result when there had been text.
   */
  lemma PlacesByEvents(encrypted: bool, tools: seq<Tool>, es: seq<Event>, c: Constraint, r: Result)
    requires var s := Run(Start(encrypted, tools), es);
             !s.closed && var p := LastPayload(Step(s, Finished(c, r))); p.Completed? || p.Incomplete?
    ensures var e := Step(Run(Start(encrypted, tools), es), Finished(c, r));
            var output := OutputOf(LastPayload(e));
            (forall i :: 0 <= i < |output| ==> AddedOf(TallyOf(e.frames), KeyOf(output[i])) == [i])
            <==> !CalledLate(tools, es, r.calls)
  {
    hide Run, Start, Step, AddedOf, CalledLate, TallyOf, KeyOf, Live;
    FinishedLate(encrypted, tools, es, c, r);
    RunSnoc(Start(encrypted, tools), es, Finished(c, r));
    var e := Step(Run(Start(encrypted, tools), es), Finished(c, r));
    StartInv(encrypted, tools);
    RunInv(Start(encrypted, tools), es + [Finished(c, r)]);
    FrameAgreement(e);
  }

  lemma FrameAgreement(e: State)
    requires Framed(e.frames, e.wire, e.number, e.closed) && (LastPayload(e).Completed? || LastPayload(e).Incomplete?)
    ensures var output := OutputOf(LastPayload(e));
            (forall i :: 0 <= i < |output| ==> AddedOf(TallyOf(e.frames), KeyOf(output[i])) == [i]) <==> !TallyOf(e.frames).late
  {
    hide TallyOf, AddedOf, DoneOf, DeltasAgree, KeyOf;
    var i := |e.frames| - 1;
    assert Agreement(e.frames[i].payload.output, TallyOf(e.frames));
  }

  // ---------------------------------------------------------------- a late call

  const LATE_TOOL: Tool := Tool(Function, [0x74])
  const LATE_EVENTS: seq<Event> := [TextDelta([0x6D], [0x61]), CallStart([0x63], [0x74])]
  const LATE_RESULT: Result := Result(true, true, [0x61], [], [FinalCall([0x63], [0x74], [])], false)

  function AfterText(): State {
    var s := Start(false, [LATE_TOOL]);
    Emit(StartText(s.(textMessage := Some([0x6D]))), Delta(TextKey, 0, [0x61])).(text := [0x61])
  }

  function AfterCall(): State {
    var call := Call(LATE_TOOL, 0, [], [], false, false);
    var item := ItemOf([0x63], call);
    Emit(AfterText().(calls := map[[0x63] := call], output := [item]), Added(0, item))
  }

  lemma LateText()
    ensures Step(Start(false, [LATE_TOOL]), LATE_EVENTS[0]) == AfterText()
    ensures var s := AfterText();
            && !s.closed && s.sinkOpen && s.textStarted && s.calls == map[] && s.output == [] && s.tools == [LATE_TOOL]
            && s.text == [0x61] && !HasReasoning(s) && !s.reasoningObserved
  {
    assert [] + [0x61] == [0x61];
  }

  lemma LateCall()
    ensures Step(AfterText(), LATE_EVENTS[1]) == AfterCall()
    ensures var s := AfterCall();
            && !s.closed && s.sinkOpen && s.textStarted && s.tools == [LATE_TOOL] && s.text == [0x61] && !HasReasoning(s)
            && s.calls == map[[0x63] := Call(LATE_TOOL, 0, [], [], false, false)] && |s.output| == 1
  {
    hide AfterText;
    LateText();
    var s := AfterText();
    assert FindTool(s.tools, [0x74]) == Some(LATE_TOOL);
    var call := Call(LATE_TOOL, 0, [], [], false, false);
    assert s.calls[[0x63] := call] == map[[0x63] := call];
    assert s.output + [ItemOf([0x63], call)] == [ItemOf([0x63], call)];
  }

  lemma LateRun()
    ensures Run(Start(false, [LATE_TOOL]), LATE_EVENTS) == AfterCall()
  {
    hide Step, Start, AfterText, AfterCall;
    LateText();
    LateCall();
    var s := Start(false, [LATE_TOOL]);
    assert LATE_EVENTS[1..] == [LATE_EVENTS[1]];
    assert LATE_EVENTS[1..][1..] == [];
    assert Run(AfterCall(), []) == AfterCall();
    assert Run(AfterText(), [LATE_EVENTS[1]]) == Run(Step(AfterText(), LATE_EVENTS[1]), LATE_EVENTS[1..][1..]);
  }

  /** The known call of the result is there, open and without arguments; finishing it leaves the stream open. */
  lemma LateReconciled()
    ensures var s := AfterCall();
            var calls := KnownCalls(LATE_RESULT.calls, s.tools);
            && calls == LATE_RESULT.calls
            && Reconcile(s, calls) == (SealCall(s, [0x63]), true)
            && !SealCall(s, [0x63]).closed && SealCall(s, [0x63]).text == [0x61] && SealCall(s, [0x63]).textStarted
            && !HasReasoning(SealCall(s, [0x63])) && SealCall(s, [0x63]).sinkOpen
  {
    hide AfterCall;
    LateCall();
    var s := AfterCall();
    var c := LATE_RESULT.calls[0];
    assert FindTool(s.tools, c.name) == Some(LATE_TOOL);
    assert LATE_RESULT.calls[1..] == [] && KnownCalls([], s.tools) == [];
    assert LATE_RESULT.calls == [c];
    var e := SealCall(s, [0x63]);
    assert ReconcileOne(s, c) == (e, true);
    assert e.calls.Keys == {c.id};
    assert ReconcileFrom(e, [], {c.id}) == (e, true);
    assert ReconcileFrom(s, LATE_RESULT.calls, {}) == ReconcileFrom(e, [], {} + {c.id});
  }

  lemma LateConcluded(b: State)
    requires !b.closed && b.sinkOpen && b.textStarted && b.text == [0x61] && !HasReasoning(b)
    ensures LastPayload(Conclude(b, [0x61], false)).Completed?
  {
    assert b.text[|b.text|..] == [];
  }

  lemma LateFinished()
    ensures Step(AfterCall(), Finished(Unconstrained, LATE_RESULT)) == Conclude(SealCall(AfterCall(), [0x63]), [0x61], false)
  {
    hide AfterCall, Conclude, SealCall, Reconcile, KnownCalls;
    LateReconciled();
  }

  /** A run that completes with a tool call behind its text: the text is added at one place and done at another. */
  lemma LateExample()
    ensures var s := Run(Start(false, [LATE_TOOL]), LATE_EVENTS);
            var e := Step(s, Finished(Unconstrained, LATE_RESULT));
            && !s.closed && LastPayload(e).Completed? && CalledLate([LATE_TOOL], LATE_EVENTS, LATE_RESULT.calls)
            && exists i :: 0 <= i < |OutputOf(LastPayload(e))|
                           && AddedOf(TallyOf(e.frames), KeyOf(OutputOf(LastPayload(e))[i])) != [i]
  {
    hide Run, Start, Step, AfterCall, Conclude, SealCall, LastPayload, AddedOf, KeyOf, TallyOf, CalledLate, HasReasoning;
    LateRun();
    LateCall();
    LateReconciled();
    LateConcluded(SealCall(AfterCall(), [0x63]));
    LateFinished();
    LateCondition();
    PlacesByEvents(false, [LATE_TOOL], LATE_EVENTS, Unconstrained, LATE_RESULT);
  }

  lemma LateCondition()
    ensures CalledLate([LATE_TOOL], LATE_EVENTS, LATE_RESULT.calls)
  {
    assert LATE_EVENTS[..1] == [LATE_EVENTS[0]];
    assert LATE_EVENTS[0] in LATE_EVENTS[..1] && IsText(LATE_EVENTS[0]);
    assert StartsLate([LATE_TOOL], LATE_EVENTS, 1);
  }
}
