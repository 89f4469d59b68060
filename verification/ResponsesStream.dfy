/** WebWmResponsesEventStream: the object whose methods are the steps of the state machine. */
module ResponsesStream {
  import opened Units
  import opened ToolInput
  import S = EventStream

  class ResponsesEventStream {
    const encrypted: bool
    const tools: seq<S.Tool>
    var sinkOpen: bool
    var delivered: seq<S.Frame>
    var wire: seq<S.Frame>
    var sequenceNumber: nat
    var textOutput: Str
    var textMessageId: Option<Str>
    var reasoningObserved: bool
    var reasoningStarted: bool
    var reasoningFinished: bool
    var textStarted: bool
    var closed: bool
    var cancellationNotified: bool
    var output: seq<S.Item>
    var toolCalls: map<Str, S.Call>

    ghost function View(): S.State
      reads this
    {
      S.State(encrypted, tools, sinkOpen, delivered, wire, sequenceNumber, textOutput, textMessageId, reasoningObserved,
              reasoningStarted, reasoningFinished, textStarted, closed, cancellationNotified, output, toolCalls)
    }

    constructor (encrypted: bool, tools: seq<S.Tool>)
      ensures View() == S.Start(encrypted, tools)
    {
      this.encrypted, this.tools, sinkOpen, delivered, wire, sequenceNumber := encrypted, tools, true, [], [], 0;
      textOutput, textMessageId, reasoningObserved, reasoningStarted, reasoningFinished := [], None, false, false, false;
      textStarted, closed, cancellationNotified, output, toolCalls := false, false, false, [], map[];
      new;
      Event(S.Created);
      Event(S.InProgress);
    }

    /** The frame is on the wire before its delivery is tried; only a delivered frame is counted. */
    method Event(payload: S.Payload)
      modifies this
      ensures View() == S.Emit(old(View()), payload)
    {
      if closed { return; }
      var frame := S.Frame(sequenceNumber, payload);
      wire := wire + [frame];
      if sinkOpen {
        delivered := delivered + [frame];
        sequenceNumber := sequenceNumber + 1;
      } else {
        closed := true;
        cancellationNotified := true;
      }
    }

    predicate HasReasoningItem()
      reads this
    {
      reasoningObserved || encrypted
    }

    method StartReasoning()
      modifies this
      ensures View() == S.StartReasoning(old(View()))
    {
      if closed || !HasReasoningItem() || reasoningStarted { return; }
      reasoningStarted := true;
      Event(S.Added(|output|, S.ReasoningItem));
    }

    method FinishReasoning()
      modifies this
      ensures View() == S.FinishReasoning(old(View()))
    {
      if closed || !reasoningStarted || reasoningFinished { return; }
      Event(S.Done(|output|, S.ReasoningItem));
      output := output + [S.ReasoningItem];
      reasoningFinished := true;
    }

    method FinishPendingReasoning()
      modifies this
      ensures View() == S.FinishPending(old(View()))
    {
      hide S.StartReasoning, S.FinishReasoning;
      if !HasReasoningItem() || reasoningFinished { return; }
      StartReasoning();
      FinishReasoning();
    }

    method FinishReasoningBeforeText()
      modifies this
      ensures View() == if old(textStarted) then old(View()) else S.FinishPending(old(View()))
    {
      hide S.StartReasoning, S.FinishReasoning;
      if !HasReasoningItem() || textStarted || reasoningFinished { return; }
      StartReasoning();
      FinishReasoning();
    }

    method StartText()
      modifies this
      ensures View() == S.StartText(old(View()))
    {
      hide S.Emit;
      if textStarted || closed { return; }
      textStarted := true;
      var outputIndex := |output|;
      Event(S.Added(outputIndex, S.TextItem([])));
      Event(S.PartAdded(outputIndex));
    }

    method AppendText(delta: Str)
      modifies this
      ensures View() == S.AppendText(old(View()), delta)
    {
      hide S.Emit, S.FinishPending, S.StartText;
      if closed || delta == [] { return; }
      FinishReasoningBeforeText();
      StartText();
      if closed { return; }
      Event(S.Delta(S.TextKey, |output|, delta));
      if !closed { textOutput := textOutput + delta; }
    }

    method FinishText()
      modifies this
      ensures View() == S.FinishText(old(View()))
    {
      hide S.Emit;
      var outputIndex, text := |output|, textOutput;
      S.EmitFrame(View(), S.ValueDone(S.TextKey, outputIndex, text));
      Event(S.ValueDone(S.TextKey, outputIndex, text));
      S.EmitFrame(View(), S.PartDone(outputIndex, text));
      Event(S.PartDone(outputIndex, textOutput));
      S.EmitFrame(View(), S.Done(outputIndex, S.TextItem(text)));
      var item := S.TextItem(textOutput);
      Event(S.Done(outputIndex, item));
      output := output + [item];
    }

    method Close()
      modifies this
      ensures View() == S.Close(old(View()))
    {
      closed := true;
    }

    method Fail()
      modifies this
      ensures View() == S.Fail(old(View()))
    {
      if closed { return; }
      Event(S.Failed);
      Close();
    }

    /** abort. */
    method Abort()
      modifies this
      ensures View() == S.Abort(old(View()))
    {
      if closed { return; }
      closed := true;
      cancellationNotified := true;
    }

    method AppendTextDelta(messageId: Str, delta: Str)
      modifies this
      ensures View() == S.AppendTextDelta(old(View()), messageId, delta)
    {
      hide S.AppendText;
      if closed || delta == [] { return; }
      if textMessageId.Some? && textMessageId.value != [] && textMessageId.value != messageId { return; }
      if textMessageId.None? { textMessageId := Some(messageId); }
      AppendText(delta);
    }

    method ObserveReasoning(messageId: Str)
      modifies this
      ensures View() == S.ObserveReasoning(old(View()), messageId)
    {
      hide S.StartReasoning;
      if closed || reasoningObserved || messageId == [] { return; }
      reasoningObserved := true;
      if !textStarted { StartReasoning(); }
    }

    method StartToolCall(messageId: Str, wireName: Str)
      modifies this
      ensures View() == S.StartCall(old(View()), messageId, wireName)
    {
      hide S.Emit, S.FinishPending, S.ItemOf;
      if closed || messageId in toolCalls { return; }
      var tool := S.FindTool(tools, wireName);
      if tool.None? { return; }
      S.TextFrame(View());
      FinishPendingReasoning();
      var state := S.Call(tool.value, |output|, [], [], false, false);
      toolCalls := toolCalls[messageId := state];
      var item := S.ItemOf(messageId, state);
      output := output + [item];
      Event(S.Added(state.index, item));
    }

    method AppendToolCallDelta(messageId: Str, delta: Str)
      modifies this
      ensures View() == S.AppendCallDelta(old(View()), messageId, delta)
    {
      hide S.Emit, Partial;
      if closed || messageId !in toolCalls || toolCalls[messageId].done || delta == [] { return; }
      var state := toolCalls[messageId].(raw := toolCalls[messageId].raw + delta);
      if state.tool.kind.Function? {
        toolCalls := toolCalls[messageId := state];
        Event(S.Delta(S.CallKey(messageId), state.index, delta));
        return;
      }
      if !state.tool.kind.Custom? || state.disabled {
        toolCalls := toolCalls[messageId := state];
        return;
      }
      var input := PartialCustomToolInput(state.raw);
      if input.None? || !IsPrefix(state.streamed, input.value) {
        toolCalls := toolCalls[messageId := state.(disabled := true)];
        return;
      }
      var inputDelta := input.value[|state.streamed|..];
      if inputDelta == [] {
        toolCalls := toolCalls[messageId := state];
        return;
      }
      S.EmitFrame(View(), S.Delta(S.CallKey(messageId), state.index, inputDelta));
      Event(S.Delta(S.CallKey(messageId), state.index, inputDelta));
      toolCalls := toolCalls[messageId := state.(streamed := input.value)];
    }

    method StreamRest(messageId: Str)
      requires messageId in toolCalls
      requires IsPrefix(toolCalls[messageId].streamed, CustomInput(toolCalls[messageId].raw))
      modifies this
      ensures View() == S.StreamRest(old(View()), messageId)
    {
      hide S.Emit, CustomInput;
      var state := toolCalls[messageId];
      var value := CustomInput(state.raw);
      var remaining := value[|state.streamed|..];
      if remaining != [] {
        S.EmitFrame(View(), S.Delta(S.CallKey(messageId), state.index, remaining));
        Event(S.Delta(S.CallKey(messageId), state.index, remaining));
        toolCalls := toolCalls[messageId := state.(streamed := value)];
      }
    }

    method SealToolCall(messageId: Str)
      requires messageId in toolCalls
      modifies this
      ensures View() == S.SealCall(old(View()), messageId)
    {
      hide S.Emit, S.ItemOf, S.Shown, S.SetItem, S.WithCall;
      var state := toolCalls[messageId].(done := true);
      EmitValue(messageId, state);
      var item := S.ItemOf(messageId, state);
      StoreItem(state.index, item);
      Event(S.Done(state.index, item));
      StoreCall(messageId, state);
    }

    method StoreItem(index: nat, item: S.Item)
      modifies this
      ensures View() == old(View()).(output := S.SetItem(old(View()).output, index, item))
    {
      output := S.SetItem(output, index, item);
    }

    method StoreCall(messageId: Str, state: S.Call)
      modifies this
      ensures View() == S.WithCall(old(View()), messageId, state)
    {
      toolCalls := toolCalls[messageId := state];
    }

    method EmitValue(messageId: Str, state: S.Call)
      modifies this
      ensures View() == if state.tool.kind.Search? then old(View())
                        else S.Emit(old(View()), S.ValueDone(S.CallKey(messageId), state.index, S.Shown(state.tool.kind, state.raw)))
      ensures toolCalls == old(toolCalls)
    {
      hide S.Emit, S.Shown;
      var shown := S.Shown(state.tool.kind, state.raw);
      S.EmitFrame(View(), S.ValueDone(S.CallKey(messageId), state.index, shown));
      if !state.tool.kind.Search? { Event(S.ValueDone(S.CallKey(messageId), state.index, shown)); }
    }

    method FinishToolCall(messageId: Str)
      modifies this
      ensures View() == S.FinishCall(old(View()), messageId)
    {
      hide S.Emit, CustomInput, S.SealCall, S.StreamRest, S.Fail;
      if closed || messageId !in toolCalls || toolCalls[messageId].done { return; }
      var state := toolCalls[messageId];
      if state.tool.kind.Custom? {
        if !IsPrefix(state.streamed, CustomInput(state.raw)) {
          Fail();
          return;
        }
        S.RestKeeps(View(), messageId);
        StreamRest(messageId);
      }
      SealToolCall(messageId);
    }

    /** reconcileToolCalls; false stands for undefined. */
    method ReconcileToolCalls(calls: seq<S.FinalCall>) returns (ok: bool)
      modifies this
      ensures (View(), ok) == S.Reconcile(old(View()), calls)
    {
      hide S.StartCall, S.AppendCallDelta, S.FinishCall;
      if closed { return false; }
      var finalIds: set<Str>, i := {}, 0;
      while i < |calls|
        invariant i <= |calls|
        invariant S.ReconcileFrom(old(View()), calls, {}) == S.ReconcileFrom(View(), calls[i..], finalIds)
      {
        var call := calls[i];
        assert calls[i..][0] == call && calls[i..][1..] == calls[i + 1..];
        if call.id in finalIds { return false; }
        ReconcileLoop(View(), calls[i..], finalIds);
        finalIds := finalIds + {call.id};
        ghost var before := View();
        if call.id !in toolCalls { StartToolCall(call.id, call.name); }
        if call.id !in toolCalls || toolCalls[call.id].tool.wireName != call.name { return false; }
        if toolCalls[call.id].done {
          if toolCalls[call.id].raw != call.arguments { return false; }
        } else {
          var raw := toolCalls[call.id].raw;
          if !IsPrefix(raw, call.arguments) { return false; }
          AppendToolCallDelta(call.id, call.arguments[|raw|..]);
          FinishToolCall(call.id);
        }
        assert S.ReconcileOne(before, call) == (View(), true);
        i := i + 1;
      }
      assert calls[i..] == [];
      ok := forall id <- toolCalls :: id in finalIds;
    }

    static lemma ReconcileLoop(s: S.State, calls: seq<S.FinalCall>, seen: set<Str>)
      requires calls != [] && calls[0].id !in seen
      ensures var (a, ok) := S.ReconcileOne(s, calls[0]);
              S.ReconcileFrom(s, calls, seen) == if ok then S.ReconcileFrom(a, calls[1..], seen + {calls[0].id}) else (a, false)
    {
      hide S.ReconcileOne;
    }

    predicate CanReconcileText(finalText: Str)
      reads this
    {
      IsPrefix(textOutput, finalText)
    }

    /** complete, and incomplete. */
    method Conclude(finalText: Str, incomplete: bool)
      modifies this
      ensures View() == S.Conclude(old(View()), finalText, incomplete)
    {
      hide S.Emit, S.AppendText, S.FinishText, S.FinishPending, S.Fail;
      if closed { return; }
      if !CanReconcileText(finalText) {
        Fail();
        return;
      }
      AppendText(finalText[|textOutput|..]);
      if closed { return; }
      if textStarted { FinishText(); }
      FinishPendingReasoning();
      Event(if incomplete then S.Incomplete(output) else S.Completed(output));
      Close();
    }

    /** completeResponsesTurn, once the turn has a result. */
    method FinishTurn(constraint: S.Constraint, result: S.Result)
      modifies this
      ensures View() == S.FinishTurn(old(View()), constraint, result)
    {
      hide S.Reconcile, S.Conclude, S.Fail, S.ObserveReasoning, S.KnownCalls;
      if !result.ok || !result.rightModel {
        Fail();
        return;
      }
      if result.reasoning != [] { ObserveReasoning(result.reasoning); }
      var finalToolCalls := S.KnownCalls(result.calls, tools);
      var ok := ReconcileToolCalls(finalToolCalls);
      if !ok {
        Fail();
        return;
      }
      if !S.Satisfied(constraint, finalToolCalls) {
        Fail();
        return;
      }
      if result.output == [] && finalToolCalls == [] && !result.incomplete {
        Fail();
        return;
      }
      if !CanReconcileText(result.output) {
        Fail();
        return;
      }
      Conclude(result.output, result.incomplete);
    }
  }
}
