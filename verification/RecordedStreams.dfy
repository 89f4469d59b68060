/** The wire of a turn that is recorded for replay: when it is a finished response. */
module RecordedStreams {
  import opened Units
  import opened ToolInput
  import opened InputAgreement
  import opened EventStream
  import opened LateCalls
  import opened StreamedInputs
  import T = ToolContinuation

  // ---------------------------------------------------------------- when a turn is recorded

  function Observed(s: State, r: Result): State {
    if r.reasoning != [] then ObserveReasoning(s, r.reasoning) else s
  }

  function Reconciled(s: State, r: Result): (State, bool) {
    Reconcile(Observed(s, r), KnownCalls(r.calls, s.tools))
  }

  /** The result passes every check of completeResponsesTurn, so that the turn is concluded and recorded. */
  predicate Recorded(s: State, c: Constraint, r: Result) {
    var calls := KnownCalls(r.calls, s.tools);
    var (b, ok) := Reconciled(s, r);
    && r.ok && r.rightModel && ok && Satisfied(c, calls) && !(r.output == [] && calls == [] && !r.incomplete)
    && IsPrefix(b.text, r.output)
  }

  lemma RecordedConcludes(s: State, c: Constraint, r: Result)
    requires Recorded(s, c, r)
    ensures FinishTurn(s, c, r) == Conclude(Reconciled(s, r).0, r.output, r.incomplete) && !Observed(s, r).closed
  {
    hide ObserveReasoning, ReconcileFrom, KnownCalls, Satisfied, Conclude;
  }

  predicate IsFinished(wire: seq<Frame>) {
    wire != [] && IsAnswer(wire[|wire| - 1].payload)
  }

  /** The call with its arguments complete. */
  function Complete(k: Call, arguments: Str): Call
    requires IsPrefix(k.raw, arguments)
  {
    var rest := arguments[|k.raw|..];
    if rest == [] then k else Grown(k, rest)
  }

  function CallFor(s: State, c: FinalCall): Option<Call> {
    if c.id in s.calls then Some(s.calls[c.id])
    else if FindTool(s.tools, c.name).None? then None
    else Some(Call(FindTool(s.tools, c.name).value, 0, [], [], false, false))
  }

  /** The final input of a custom call, not finished yet, does not extend what has then been streamed of it. */
  predicate Mismatched(s: State, c: FinalCall) {
    var k := CallFor(s, c);
    && k.Some? && IsOpen(k.value) && IsPrefix(k.value.raw, c.arguments)
    && !IsPrefix(Complete(k.value, c.arguments).streamed, CustomInput(c.arguments))
  }

  predicate AnyMismatch(s: State, r: Result) { exists c <- KnownCalls(r.calls, s.tools) :: Mismatched(s, c) }

  /** Concluding the turn has nothing to add before the terminal frame. */
  predicate NothingToAdd(s: State, r: Result) {
    && r.output == s.text && !s.textStarted && (HasReasoning(s) || r.reasoning != [] ==> s.reasoningFinished)
    && forall c <- KnownCalls(r.calls, s.tools) :: c.id in s.calls && s.calls[c.id].done
  }

  // ---------------------------------------------------------------- a sink that delivers

  predicate Up(s: State) { s.sinkOpen && !s.closed }

  lemma UpEmit(s: State, p: Payload)
    requires Up(s)
    ensures Up(Emit(s, p))
  {}

  lemma UpPending(s: State)
    requires Up(s)
    ensures Up(StartReasoning(s)) && Up(FinishPending(s))
  {
    hide Emit;
    UpEmit(s.(reasoningStarted := true), Added(|s.output|, ReasoningItem));
    var a := StartReasoning(s);
    UpEmit(a, Done(|a.output|, ReasoningItem));
  }

  lemma UpObserve(s: State, r: Result)
    requires Up(s)
    ensures Up(Observed(s, r))
  {
    hide StartReasoning;
    UpPending(s.(reasoningObserved := true));
  }

  lemma UpText(s: State, delta: Str)
    requires Up(s)
    ensures Up(StartText(s)) && Up(AppendText(s, delta)) && Up(FinishText(s))
  {
    hide Emit, FinishPending;
    UpPending(s);
    UpStart(s);
    var q := if s.textStarted then s else FinishPending(s);
    UpStart(q);
    var a := StartText(q);
    UpEmit(a, Delta(TextKey, |a.output|, delta));
    var i := |s.output|;
    UpEmit(s, ValueDone(TextKey, i, s.text));
    var e := Emit(s, ValueDone(TextKey, i, s.text));
    UpEmit(e, PartDone(i, s.text));
    UpEmit(Emit(e, PartDone(i, s.text)), Done(i, TextItem(s.text)));
  }

  lemma UpStart(s: State)
    requires Up(s)
    ensures Up(StartText(s))
  {
    hide Emit;
    var i, a := |s.output|, s.(textStarted := true);
    UpEmit(a, Added(i, TextItem([])));
    UpEmit(Emit(a, Added(i, TextItem([]))), PartAdded(i));
  }

  lemma UpStartCall(s: State, id: Str, name: Str)
    requires Up(s)
    ensures Up(StartCall(s, id, name))
    ensures id !in s.calls && FindTool(s.tools, name).Some? ==>
              id in StartCall(s, id, name).calls
              && StartCall(s, id, name).calls[id] == Call(FindTool(s.tools, name).value, StartCall(s, id, name).calls[id].index, [], [], false, false)
  {
    hide Emit, FinishPending, ItemOf;
    UpPending(s);
    TextFrame(s);
    if id !in s.calls && FindTool(s.tools, name).Some? {
      var p := FinishPending(s);
      var call := Call(FindTool(s.tools, name).value, |p.output|, [], [], false, false);
      var a := p.(calls := p.calls[id := call], output := p.output + [ItemOf(id, call)]);
      UpEmit(a, Added(|p.output|, ItemOf(id, call)));
      EmitFrame(a, Added(|p.output|, ItemOf(id, call)));
    }
  }

  lemma UpDelta(s: State, id: Str, delta: Str)
    requires Up(s)
    ensures Up(AppendCallDelta(s, id, delta))
  {
    hide Emit, Partial;
    if id in s.calls {
      var c := s.calls[id].(raw := s.calls[id].raw + delta);
      UpEmit(WithCall(s, id, c), Delta(CallKey(id), c.index, delta));
      var input := Partial(c.raw);
      if input.Some? && |c.streamed| <= |input.value| { UpEmit(s, Delta(CallKey(id), c.index, input.value[|c.streamed|..])); }
    }
  }

  lemma UpSeal(s: State, id: Str)
    requires Up(s) && id in s.calls
    ensures Up(SealCall(s, id))
  {
    hide Emit, ItemOf, Shown;
    var c := s.calls[id].(done := true);
    var item := ItemOf(id, c);
    UpEmit(s, ValueDone(CallKey(id), c.index, Shown(c.tool.kind, c.raw)));
    var a := if c.tool.kind.Search? then s else Emit(s, ValueDone(CallKey(id), c.index, Shown(c.tool.kind, c.raw)));
    UpEmit(a.(output := SetItem(a.output, c.index, item)), Done(c.index, item));
  }

  lemma UpFinish(s: State, id: Str)
    requires Up(s) && id in s.calls && !s.calls[id].done
    ensures var c, e := s.calls[id], FinishCall(s, id);
            var fails := c.tool.kind.Custom? && !IsPrefix(c.streamed, CustomInput(c.raw));
            (!fails ==> Up(e)) && (fails ==> e.closed)
  {
    hide Emit, CustomInput, SealCall;
    var c := s.calls[id];
    UpSeal(s, id);
    if c.tool.kind.Custom? && IsPrefix(c.streamed, CustomInput(c.raw)) {
      RestKeeps(s, id);
      UpEmit(s, Delta(CallKey(id), c.index, CustomInput(c.raw)[|c.streamed|..]));
      UpSeal(StreamRest(s, id), id);
    }
  }

  /** The call after the rest of its arguments. */
  lemma DeltaCall(s: State, id: Str, delta: Str)
    requires !s.closed && id in s.calls && !s.calls[id].done
    ensures var k, e := s.calls[id], AppendCallDelta(s, id, delta);
            && id in e.calls && !e.calls[id].done && e.calls[id].tool == k.tool && e.calls[id].raw == k.raw + delta
            && (IsOpen(k) ==> e.calls[id] == if delta == [] then k else Grown(k, delta))
  {
    hide Emit, Partial, KeepsOthers, Grown, WithCall;
    var k := s.calls[id];
    DeltaKeeps(s, id, delta);
    KeptId(s, AppendCallDelta(s, id, delta), id);
    if delta == [] {
      assert k.raw + delta == k.raw;
    } else if IsOpen(k) {
      DeltaGrows(s, id, delta);
      GrownOpen(k, delta);
    } else {
      OtherKind(s, id, delta);
    }
  }

  lemma KeptId(s: State, e: State, id: Str)
    requires KeepsOthers(s, e, id) && id in s.calls
    ensures id in e.calls
  {}

  lemma GrownOpen(k: Call, delta: Str)
    ensures Grown(k, delta).done == k.done
  {
    hide Partial;
  }

  lemma OtherKind(s: State, id: Str, delta: Str)
    requires !s.closed && id in s.calls && !s.calls[id].done && !s.calls[id].tool.kind.Custom?
    ensures id in AppendCallDelta(s, id, delta).calls && !AppendCallDelta(s, id, delta).calls[id].done
  {
    hide Emit, Partial;
    var c := s.calls[id].(raw := s.calls[id].raw + delta);
    EmitFrame(WithCall(s, id, c), Delta(CallKey(id), c.index, delta));
  }

  /** Where a call stands in the output does not matter. */
  lemma SameStreamed(k: Call, c: Call, arguments: Str)
    requires IsPrefix(k.raw, arguments) && c == k.(index := c.index)
    ensures Complete(c, arguments).streamed == Complete(k, arguments).streamed
  {
    hide Partial;
  }

  lemma OneUp(s: State, c: FinalCall)
    requires Up(s) && ReconcileOne(s, c).1
    ensures var e := ReconcileOne(s, c).0; (!Mismatched(s, c) ==> Up(e)) && (Mismatched(s, c) ==> e.closed)
  {
    hide StartCall, AppendCallDelta, FinishCall, CustomInput, Grown, Up;
    var a := if c.id in s.calls then s else StartCall(s, c.id, c.name);
    UpStartCall(s, c.id, c.name);
    OpenUp(s);
    OpenUp(a);
    if c.id !in s.calls { NotStarted(s, c.id, c.name); }
    if !a.calls[c.id].done {
      var k := a.calls[c.id];
      var d := c.arguments[|k.raw|..];
      assert c.arguments == k.raw + d;
      UpDelta(a, c.id, d);
      DeltaCall(a, c.id, d);
      UpFinish(AppendCallDelta(a, c.id, d), c.id);
      SameStreamed(CallFor(s, c).value, k, c.arguments);
    }
  }

  lemma OpenUp(s: State)
    ensures Up(s) ==> !s.closed
  {}

  lemma SameMismatch(s: State, e: State, id: Str, c: FinalCall)
    requires KeepsOthers(s, e, id) && c.id != id
    ensures Mismatched(e, c) == Mismatched(s, c)
  {
    hide CustomInput, Complete, IsOpen;
  }

  lemma {:induction false} FromUp(s: State, calls: seq<FinalCall>, seen: set<Str>)
    requires Inv(s) && Up(s) && ReconcileFrom(s, calls, seen).1
    ensures var e := ReconcileFrom(s, calls, seen).0;
            var fails := exists c <- calls :: Mismatched(s, c);
            (!fails ==> Up(e)) && (fails ==> e.closed)
    decreases |calls|
  {
    hide Inv, Up, ReconcileOne, Mismatched;
    if calls != [] {
      var c := calls[0];
      var (a, ok) := ReconcileOne(s, c);
      OneUp(s, c);
      ReconcileOneInv(s, c);
      StillOpen(a, calls[1..], seen + {c.id});
      LaterIds(a, calls[1..], seen + {c.id});
      assert calls == [c] + calls[1..];
      forall x | x in calls[1..] ensures Mismatched(a, x) == Mismatched(s, x) { SameMismatch(s, a, c.id, x); }
      if !Mismatched(s, c) { FromUp(a, calls[1..], seen + {c.id}); }
    }
  }

  lemma {:induction false} LaterIds(s: State, calls: seq<FinalCall>, seen: set<Str>)
    requires ReconcileFrom(s, calls, seen).1
    ensures forall c <- calls :: c.id !in seen
    decreases |calls|
  {
    hide ReconcileOne;
    if calls != [] { LaterIds(ReconcileOne(s, calls[0]).0, calls[1..], seen + {calls[0].id}); }
  }

  // ---------------------------------------------------------------- a sink that is broken

  predicate Down(s: State) { !s.sinkOpen && !s.closed }

  lemma DownEmit(s: State, p: Payload)
    requires !s.sinkOpen
    ensures Emit(s, p).closed
  {}

  lemma DownPending(s: State)
    requires Down(s)
    ensures var e := FinishPending(s);
            if HasReasoning(s) && !s.reasoningFinished then e.closed else e == s
  {
    hide Emit;
    DownEmit(s.(reasoningStarted := true), Added(|s.output|, ReasoningItem));
    DownEmit(s, Done(|s.output|, ReasoningItem));
  }

  lemma DownText(s: State, delta: Str)
    requires Down(s)
    ensures AppendText(s, delta) == s || AppendText(s, delta).closed
    ensures AppendText(s, delta).closed <==> delta != []
  {
    hide Emit, FinishPending;
    if delta != [] {
      DownPending(s);
      var q := if s.textStarted then s else FinishPending(s);
      var i, a := |q.output|, q.(textStarted := true);
      if !q.textStarted && !q.closed {
        DownEmit(a, Added(i, TextItem([])));
        EmitClosed(Emit(a, Added(i, TextItem([]))), PartAdded(i));
      }
      var b := StartText(q);
      BrokenStays(s);
      BrokenStays(q);
      DownEmit(b, Delta(TextKey, |b.output|, delta));
    }
  }

  lemma EmitSink(s: State, p: Payload)
    ensures Emit(s, p).sinkOpen == s.sinkOpen
  {}

  lemma BrokenStays(s: State)
    requires !s.sinkOpen
    ensures !StartText(s).sinkOpen && !FinishPending(s).sinkOpen
  {
    hide Emit;
    var i, a, b := |s.output|, s.(textStarted := true), s.(reasoningStarted := true);
    EmitSink(a, Added(i, TextItem([])));
    EmitSink(Emit(a, Added(i, TextItem([]))), PartAdded(i));
    EmitSink(b, Added(i, ReasoningItem));
    var r := StartReasoning(s);
    EmitSink(r, Done(|r.output|, ReasoningItem));
  }

  lemma DownFinishText(s: State)
    requires Down(s)
    ensures FinishText(s).closed
  {
    hide Emit;
    var i := |s.output|;
    DownEmit(s, ValueDone(TextKey, i, s.text));
    var a := Emit(s, ValueDone(TextKey, i, s.text));
    EmitClosed(a, PartDone(i, s.text));
    EmitClosed(a, Done(i, TextItem(s.text)));
  }

  lemma DownStartCall(s: State, id: Str, name: Str)
    requires Down(s) && id !in s.calls && FindTool(s.tools, name).Some?
    ensures StartCall(s, id, name).closed
  {
    hide Emit, FinishPending, ItemOf;
    DownPending(s);
    TextFrame(s);
    var p := FinishPending(s);
    var call := Call(FindTool(s.tools, name).value, |p.output|, [], [], false, false);
    var a := p.(calls := p.calls[id := call], output := p.output + [ItemOf(id, call)]);
    if p.closed { EmitClosed(a, Added(|p.output|, ItemOf(id, call))); } else { DownEmit(a, Added(|p.output|, ItemOf(id, call))); }
  }

  lemma DownFinish(s: State, id: Str)
    requires Down(s) && id in s.calls && !s.calls[id].done
    ensures FinishCall(s, id).closed
  {
    hide CustomInput, SealCall, StreamRest, Emit;
    var c := s.calls[id];
    DownSeal(s, id);
    if c.tool.kind.Custom? && IsPrefix(c.streamed, CustomInput(c.raw)) {
      RestKeeps(s, id);
      DownRest(s, id);
      DownSeal(StreamRest(s, id), id);
    }
  }

  lemma DownRest(s: State, id: Str)
    requires !s.sinkOpen && id in s.calls && IsPrefix(s.calls[id].streamed, CustomInput(s.calls[id].raw))
    ensures !StreamRest(s, id).sinkOpen
  {
    hide CustomInput;
  }

  lemma DownSeal(s: State, id: Str)
    requires !s.sinkOpen && id in s.calls
    ensures SealCall(s, id).closed
  {
    hide ItemOf, Shown;
  }

  /** A call that is not done yet has frames to come, the first of which closes the stream. */
  lemma OneDown(s: State, c: FinalCall)
    requires Down(s) && ReconcileOne(s, c).1
    ensures var e := ReconcileOne(s, c).0; if c.id in s.calls && s.calls[c.id].done then e == s else e.closed
  {
    hide StartCall, AppendCallDelta, FinishCall, CustomInput;
    if c.id !in s.calls {
      NotStarted(s, c.id, c.name);
      DownStartCall(s, c.id, c.name);
      var a := StartCall(s, c.id, c.name);
      if IsPrefix(a.calls[c.id].raw, c.arguments) { AllClosed(a, c.id, c.arguments[|a.calls[c.id].raw|..]); }
    } else if !s.calls[c.id].done {
      var d := c.arguments[|s.calls[c.id].raw|..];
      var b := AppendCallDelta(s, c.id, d);
      DeltaCall(s, c.id, d);
      DownDelta(s, c.id, d);
      if b.closed { AllClosed(b, c.id, d); } else { DownFinish(b, c.id); }
    }
  }

  lemma DownDelta(s: State, id: Str, delta: Str)
    requires !s.sinkOpen
    ensures !AppendCallDelta(s, id, delta).sinkOpen
  {
    hide Emit, Partial;
    if id in s.calls {
      var c := s.calls[id].(raw := s.calls[id].raw + delta);
      EmitSink(WithCall(s, id, c), Delta(CallKey(id), c.index, delta));
      var input := Partial(c.raw);
      if input.Some? && |c.streamed| <= |input.value| { EmitSink(s, Delta(CallKey(id), c.index, input.value[|c.streamed|..])); }
    }
  }

  lemma {:induction false} FromDown(s: State, calls: seq<FinalCall>, seen: set<Str>)
    requires Down(s) && ReconcileFrom(s, calls, seen).1
    ensures var e := ReconcileFrom(s, calls, seen).0;
            if forall c <- calls :: c.id in s.calls && s.calls[c.id].done then e == s else e.closed
    decreases |calls|
  {
    hide ReconcileOne;
    if calls != [] {
      var c := calls[0];
      assert calls == [c] + calls[1..];
      OneDown(s, c);
      var a := ReconcileOne(s, c).0;
      if a.closed { StillOpen(a, calls[1..], seen + {c.id}); } else { FromDown(a, calls[1..], seen + {c.id}); }
    }
  }

  // ---------------------------------------------------------------- the recorded wire

  lemma UpConclude(b: State, output: Str, incomplete: bool)
    requires Up(b) && IsPrefix(b.text, output)
    ensures IsFinished(Conclude(b, output, incomplete).wire)
  {
    hide AppendText, FinishText, FinishPending;
    UpText(b, output[|b.text|..]);
    var a := AppendText(b, output[|b.text|..]);
    UpText(a, []);
    UpPending(if a.textStarted then FinishText(a) else a);
  }

  lemma Unfinished(s: State)
    requires Unanswered(s.frames, s.wire)
    ensures !IsFinished(s.wire)
  {
    if s.wire != [] { assert s.wire[|s.wire| - 1] in s.wire; }
  }

  lemma DownConclude(b: State, output: Str, incomplete: bool)
    requires Down(b) && IsPrefix(b.text, output) && Unanswered(b.frames, b.wire)
    ensures IsFinished(Conclude(b, output, incomplete).wire)
       <==> output == b.text && !b.textStarted && (HasReasoning(b) ==> b.reasoningFinished)
  {
    hide AppendText, FinishText, FinishPending, Unanswered, IsFinished;
    var rest := output[|b.text|..];
    assert output == b.text + rest;
    DownText(b, rest);
    TextUnanswered(b, rest);
    var a := AppendText(b, rest);
    Unfinished(a);
    if rest == [] {
      if b.textStarted {
        DownFinishText(b);
        FinishTextUnanswered(b);
        ClosedStays(FinishText(b));
        EndClosed(FinishText(b), incomplete);
      } else {
        DownPending(b);
        PendingUnanswered(b);
        var g := FinishPending(b);
        if g.closed { EndClosed(g, incomplete); } else { EndOpen(g, incomplete); }
      }
    }
  }

  lemma EndClosed(b: State, incomplete: bool)
    requires b.closed && Unanswered(b.frames, b.wire)
    ensures !IsFinished(Close(Emit(b, if incomplete then Incomplete(b.output) else Completed(b.output))).wire)
  {
    Unfinished(b);
  }

  lemma EndOpen(b: State, incomplete: bool)
    requires !b.closed
    ensures IsFinished(Close(Emit(b, if incomplete then Incomplete(b.output) else Completed(b.output))).wire)
  {}

  lemma DownObserved(s: State, r: Result)
    requires Down(s) && !Observed(s, r).closed
    ensures var a := Observed(s, r);
            && Down(a) && a.calls == s.calls && a.tools == s.tools && a.text == s.text && a.textStarted == s.textStarted
            && a.reasoningFinished == s.reasoningFinished && (HasReasoning(a) <==> HasReasoning(s) || r.reasoning != [])
  {
    hide Emit;
    DownEmit(s.(reasoningObserved := true, reasoningStarted := true), Added(|s.output|, ReasoningItem));
  }

  lemma ObservedOpen(s: State, r: Result)
    requires !Observed(s, r).closed
    ensures !s.closed
  {}

  lemma ObservedCalls(s: State, r: Result)
    ensures Observed(s, r).calls == s.calls && Observed(s, r).tools == s.tools
  {
    hide StartReasoning;
    StartReasoningFrame(s.(reasoningObserved := true));
  }

  lemma CallsMismatch(s: State, a: State, c: FinalCall)
    requires a.calls == s.calls && a.tools == s.tools
    ensures Mismatched(a, c) == Mismatched(s, c)
  {
    hide Complete, CustomInput, IsOpen;
  }

  /** The stream the turn's calls have been reconciled with. */
  lemma ReconciledInv(s: State, c: Constraint, r: Result)
    requires Inv(s) && Recorded(s, c, r)
    ensures var b := Reconciled(s, r).0;
            && Inv(Observed(s, r)) && !Observed(s, r).closed && Unanswered(b.frames, b.wire) && IsPrefix(b.text, r.output)
            && ReconcileFrom(Observed(s, r), KnownCalls(r.calls, s.tools), {}) == (b, true)
            && Step(s, Finished(c, r)) == Conclude(b, r.output, r.incomplete)
  {
    hide Inv, ObserveReasoning, ReconcileFrom, KnownCalls, Satisfied, Conclude, FinishTurn, Unanswered;
    RecordedConcludes(s, c, r);
    ObservedOpen(s, r);
    ObserveInv(s, r.reasoning);
    ReconcileInv(s, r);
  }

  lemma WireUp(s: State, c: Constraint, r: Result)
    requires Inv(s) && Recorded(s, c, r) && s.sinkOpen
    ensures IsFinished(Step(s, Finished(c, r)).wire) <==> !AnyMismatch(s, r)
  {
    hide Inv, Observed, ReconcileFrom, KnownCalls, Mismatched, Conclude, Recorded, Step, Unanswered, IsFinished;
    ReconciledInv(s, c, r);
    var a, calls, b := Observed(s, r), KnownCalls(r.calls, s.tools), Reconciled(s, r).0;
    ObservedOpen(s, r);
    UpObserve(s, r);
    ObservedCalls(s, r);
    FromUp(a, calls, {});
    forall x | x in calls ensures Mismatched(a, x) == Mismatched(s, x) { CallsMismatch(s, a, x); }
    if b.closed {
      ConcludeClosed(b, r.output, r.incomplete);
      Unfinished(b);
    } else {
      UpConclude(b, r.output, r.incomplete);
    }
  }

  lemma WireDown(s: State, c: Constraint, r: Result)
    requires Inv(s) && Recorded(s, c, r) && !s.sinkOpen
    ensures IsFinished(Step(s, Finished(c, r)).wire) <==> NothingToAdd(s, r)
  {
    hide Inv, Observed, ReconcileFrom, KnownCalls, Conclude, Recorded, Step, Unanswered, IsFinished, HasReasoning;
    ReconciledInv(s, c, r);
    var a, calls, b := Observed(s, r), KnownCalls(r.calls, s.tools), Reconciled(s, r).0;
    ObservedOpen(s, r);
    DownObserved(s, r);
    FromDown(a, calls, {});
    if b.closed {
      ConcludeClosed(b, r.output, r.incomplete);
      Unfinished(b);
    } else {
      DownConclude(b, r.output, r.incomplete);
    }
  }

  /**
   * The wire of a recorded turn is a finished response, in every run, if and only if: the frames could be delivered and no
   * final custom input failed the stream; or they could not, and there was none to send before the terminal frame.
   */
  lemma RecordedWire(encrypted: bool, tools: seq<Tool>, es: seq<Event>, c: Constraint, r: Result)
    requires Recorded(Run(Start(encrypted, tools), es), c, r)
    ensures var s := Run(Start(encrypted, tools), es);
            IsFinished(Step(s, Finished(c, r)).wire) <==> if s.sinkOpen then !AnyMismatch(s, r) else NothingToAdd(s, r)
  {
    hide Run, Start, Inv, Recorded, Step, IsFinished, AnyMismatch, NothingToAdd;
    StartInv(encrypted, tools);
    RunInv(Start(encrypted, tools), es);
    var s := Run(Start(encrypted, tools), es);
    if s.sinkOpen { WireUp(s, c, r); } else { WireDown(s, c, r); }
  }

  /**
   * Resending the request of the turn therefore gets, if it gets a replay, the text of a finished response under exactly
   * the same condition; `text` is how frames are written.
   */
  lemma ResentWire(encrypted: bool, tools: seq<Tool>, es: seq<Event>, c: Constraint, r: Result, text: seq<Frame> -> Str,
                   t: T.State, f: nat, conversation: Str, expires: int, b: T.Body, now: int)
    requires Recorded(Run(Start(encrypted, tools), es), c, r)
    requires T.Inv(t) && f in t.turns && !t.turns[f].recorded && t.turns[f].outputs != [] && now < expires
    requires T.LooksForReplay(t, b) && b.(input := T.AfterLastAssistant(b.input)) == t.turns[f].request
    ensures var s := Run(Start(encrypted, tools), es);
            var wire := Step(s, Finished(c, r)).wire;
            var p := T.Prepare(T.Record(t, f, conversation, text(wire), true, expires), b, now);
            p.Replayed? ==>
              && p.replay.wire == text(wire)
              && (IsFinished(wire) <==> if s.sinkOpen then !AnyMismatch(s, r) else NothingToAdd(s, r))
  {
    hide Run, Start, Recorded, Step, IsFinished, AnyMismatch, NothingToAdd, T.Inv, T.LooksForReplay, T.AfterLastAssistant, T.Prepare,
      T.Record;
    RecordedWire(encrypted, tools, es, c, r);
    var wire := Step(Run(Start(encrypted, tools), es), Finished(c, r)).wire;
    T.ResendReplays(t, f, conversation, text(wire), expires, b, now);
  }

  // ---------------------------------------------------------------- a failed stream that is recorded

  lemma ExampleResult(s: State, id: Str, name: Str, text: Str)
    requires !s.closed && s.text == [] && s.tools == [Tool(Custom, name)] && s.calls.Keys == {id} && id != [] && name != []
    requires var k := s.calls[id]; IsOpen(k) && k.tool.wireName == name && k.raw == text && !IsPrefix(k.streamed, CustomInput(text))
    ensures var r := Result(true, true, [], [], [FinalCall(id, name, text)], false);
            && Recorded(s, Unconstrained, r) && Mismatched(s, FinalCall(id, name, text)) && AnyMismatch(s, r)
  {
    hide CustomInput, Emit;
    var c := FinalCall(id, name, text);
    var r := Result(true, true, [], [], [c], false);
    assert [c][1..] == [] && KnownCalls([c][1..], s.tools) == [];
    assert KnownCalls([c], s.tools) == [c];
    assert text[|text|..] == [];
    assert AppendCallDelta(s, id, []) == s;
    EmitFrame(s, Failed);
    assert ReconcileOne(s, c) == (Fail(s), true);
    assert ReconcileFrom(Fail(s), [], {id}) == (Fail(s), true);
    assert {} + {c.id} == {id};
    assert ReconcileFrom(s, [c], {}) == (Fail(s), true);
    assert c in KnownCalls([c], s.tools);
  }

  lemma ExampleState(id: Str, name: Str, text: Str)
    ensures var e := AppendCallDelta(StartCall(Start(false, [Tool(Custom, name)]), id, name), id, text);
            && e.text == [] && e.tools == [Tool(Custom, name)] && e.calls.Keys == {id} && e.calls[id].tool == Tool(Custom, name)
  {
    hide Partial, ItemOf;
    var s := Start(false, [Tool(Custom, name)]);
    StartKeeps(s, id, name);
    DeltaKeeps(StartCall(s, id, name), id, text);
  }

  lemma NotNothing(a: Str, b: Str)
    ensures RepeatedText(a, b) != []
  {}

  lemma ExampleHolds(id: Str, name: Str, a: Str, b: Str)
    requires !IsPrefix(a, b)
    ensures var text := RepeatedText(a, b);
            var s := Run(Start(false, [Tool(Custom, name)]), [CallStart(id, name), CallDelta(id, text)]);
            && !s.closed && id in s.calls && IsOpen(s.calls[id]) && s.calls[id].raw == text
            && !IsPrefix(s.calls[id].streamed, CustomInput(text))
  {
    hide Partial, CustomInput, RepeatedText, StartCall, AppendCallDelta, FinishCall, Start, Fail, Run, InputDeltas, Join, Streamed,
      LastPayload;
    var text, tools := RepeatedText(a, b), [Tool(Custom, name)];
    var es := [CallStart(id, name), CallDelta(id, text)];
    RepeatedExample(id, name, a, b);
    NotNothing(a, b);
    ExampleDeltas(tools, id, name, text);
    RunTells(false, tools, es);
    Told1(Run(Start(false, tools), es), tools, es, id);
    RepeatedFails(false, tools, es, id, a, b);
    InputFails(false, tools, es, id);
  }

  /** A turn that is recorded although its last input has failed the stream: its replay is that failure. */
  lemma FailedRecord(id: Str, name: Str, a: Str, b: Str)
    requires !IsPrefix(a, b) && id != [] && name != []
    ensures var text := RepeatedText(a, b);
            var s := Run(Start(false, [Tool(Custom, name)]), [CallStart(id, name), CallDelta(id, text)]);
            var r := Result(true, true, [], [], [FinalCall(id, name, text)], false);
            Recorded(s, Unconstrained, r) && s.sinkOpen && !IsFinished(Step(s, Finished(Unconstrained, r)).wire)
  {
    hide Run, Start, RepeatedText, Partial, CustomInput, Recorded, Step, IsFinished, StartCall, AppendCallDelta, KnownCalls,
      Mismatched;
    var text, tools := RepeatedText(a, b), [Tool(Custom, name)];
    var es := [CallStart(id, name), CallDelta(id, text)];
    ExampleRun(Start(false, tools), id, name, text);
    ExampleOpen(id, name, text);
    ExampleState(id, name, text);
    ExampleHolds(id, name, a, b);
    ExampleResult(Run(Start(false, tools), es), id, name, text);
    RecordedWire(false, tools, es, Unconstrained, Result(true, true, [], [], [FinalCall(id, name, text)], false));
  }
}
