/** ChatGptWebWmProtocolRuntime: the maps behind tool continuations, updated in place. */
module ProtocolRuntime {
  import opened Units
  import opened ToolOutputs
  import opened ToolContinuation

  class Runtime {
    var responseBindings: map<Str, Binding>
    var reasoningStateBindings: map<Str, Binding>
    var toolCallBindings: map<Str, ToolBinding>
    var consumedToolOutputs: map<Str, Receipt>
    var toolOutputReplays: map<Str, Replay>
    var toolOutputFlights: map<Str, nat>
    var turns: map<nat, Turn>
    var nextTurn: nat
    ghost var known: set<Str>
    ghost var recorded: set<Str>

    ghost function View(): State
      reads this
    {
      State(responseBindings, reasoningStateBindings, toolCallBindings, consumedToolOutputs, toolOutputReplays,
            toolOutputFlights, turns, nextTurn, known, recorded)
    }

    /** What preparing a turn reads. */
    function Maps(): State
      reads this
    {
      State(responseBindings, reasoningStateBindings, toolCallBindings, consumedToolOutputs, toolOutputReplays,
            toolOutputFlights, turns, nextTurn, {}, {})
    }

    constructor ()
      ensures View() == FRESH && Inv(View())
    {
      responseBindings, reasoningStateBindings, toolCallBindings, consumedToolOutputs := map[], map[], map[], map[];
      toolOutputReplays, toolOutputFlights, turns, nextTurn, known, recorded := map[], map[], map[], 0, {}, {};
      new;
      FreshInv();
    }

    method PruneBindings(now: int)
      modifies this
      ensures View() == Prune(old(View()), now)
    {
      responseBindings := LiveBindings(responseBindings, now);
      reasoningStateBindings := LiveBindings(reasoningStateBindings, now);
      toolCallBindings := map k | k in toolCallBindings && toolCallBindings[k].at.expires > now :: toolCallBindings[k];
      toolOutputReplays := map k | k in toolOutputReplays && toolOutputReplays[k].expires > now :: toolOutputReplays[k];
    }

    /** Whether a flight of one of the outputs is active. */
    method ActiveToolOutputFlights(outputs: seq<Output>) returns (active: bool)
      ensures active == InFlight(View(), outputs)
    {
      var i := 0;
      while i < |outputs|
        invariant i <= |outputs|
        invariant forall j :: 0 <= j < i ==> outputs[j].callId !in toolOutputFlights
      {
        if outputs[i].callId in toolOutputFlights {
          assert outputs[i] in outputs;
          return true;
        }
        i := i + 1;
      }
      return false;
    }

    method ReserveToolOutputFlight(outputs: seq<Output>, flight: nat)
      modifies this`toolOutputFlights
      ensures toolOutputFlights == Reserve(old(toolOutputFlights), Ids(outputs), flight)
    {
      var i := 0;
      while i < |outputs|
        invariant i <= |outputs|
        invariant toolOutputFlights == Reserve(old(toolOutputFlights), Ids(outputs[..i]), flight)
      {
        assert outputs[..i + 1] == outputs[..i] + [outputs[i]];
        toolOutputFlights := toolOutputFlights[outputs[i].callId := flight];
        i := i + 1;
      }
      assert outputs[..i] == outputs;
    }

    /** responses, up to the start of the turn; None when the request is answered, refused or has to wait. */
    method Responses(b: Body, now: int) returns (prepared: Prepared, turn: Option<nat>)
      requires Inv(View())
      modifies this
      ensures View() == Begin(old(View()), b, now) && Inv(View())
      ensures prepared == Prepare(Prune(old(View()), now), b, now)
      ensures turn == if prepared.Run? && !InFlight(Prune(old(View()), now), prepared.turn.outputs) then Some(old(nextTurn)) else None
    {
      hide Prepare, Inv, Ids, Reserve;
      BeginInv(View(), b, now);
      PruneBindings(now);
      prepared := Prepare(Maps(), b, now);
      PrepareByMaps(View(), Maps(), b, now);
      if !prepared.Run? { return prepared, None; }
      var active := ActiveToolOutputFlights(prepared.turn.outputs);
      if active { return prepared, None; }
      ReserveToolOutputFlight(prepared.turn.outputs, nextTurn);
      turns := turns[nextTurn := prepared.turn];
      known := known + Ids(prepared.turn.outputs);
      turn := Some(nextTurn);
      nextTurn := nextTurn + 1;
    }

    /** The returned function of reserveToolOutputFlight: deletes the turn's ids that are still its own. */
    method ReleaseToolOutputFlight(flight: nat)
      requires Inv(View()) && flight in turns
      modifies this
      ensures View() == Release(old(View()), flight) && Inv(View())
    {
      hide Inv, Ids;
      ReleaseInv(View(), flight);
      OwnFlights(View(), flight);
      var outputs := turns[flight].outputs;
      var i := 0;
      ghost var before := toolOutputFlights;
      while i < |outputs|
        invariant i <= |outputs|
        invariant toolOutputFlights == Left(before, Ids(outputs[..i]), flight)
        invariant View() == old(View()).(flights := toolOutputFlights)
      {
        IdsSnoc(outputs[..i + 1]);
        assert outputs[..i + 1][..i] == outputs[..i];
        if outputs[i].callId in toolOutputFlights && toolOutputFlights[outputs[i].callId] == flight {
          toolOutputFlights := toolOutputFlights - {outputs[i].callId};
        }
        i := i + 1;
      }
      assert outputs[..i] == outputs;
      turns := turns - {flight};
    }

    /** rememberResponsesTurn, for calls with fresh ids. */
    method RememberResponsesTurn(responseId: Str, token: Option<Str>, at: Binding, calls: seq<NewCall>)
      requires Inv(View()) && NewIds(calls) !! known
      modifies this
      ensures View() == Remember(old(View()), responseId, token, at, calls) && Inv(View())
    {
      hide Inv, NewIds;
      RememberInv(View(), responseId, token, at, calls);
      responseBindings := responseBindings[responseId := at];
      if token.Some? { reasoningStateBindings := reasoningStateBindings[token.value := at]; }
      RememberToolCalls(calls, at);
      known := known + NewIds(calls);
    }

    method RememberToolCalls(calls: seq<NewCall>, at: Binding)
      modifies this`toolCallBindings
      ensures toolCallBindings == Bind(old(toolCallBindings), calls, at)
    {
      var i := 0;
      while i < |calls|
        invariant i <= |calls|
        invariant toolCallBindings == Bind(old(toolCallBindings), calls[..i], at)
      {
        assert calls[..i + 1][..i] == calls[..i];
        toolCallBindings := toolCallBindings[calls[i].id := ToolBinding(at, calls[i].tool)];
        i := i + 1;
      }
      assert calls[..i] == calls;
    }

    method RememberConsumedToolOutputs(outputs: seq<Output>, conversation: Str)
      modifies this`consumedToolOutputs, this`toolCallBindings
      ensures consumedToolOutputs == Receipts(old(consumedToolOutputs), outputs, conversation)
      ensures toolCallBindings == old(toolCallBindings) - Ids(outputs)
    {
      hide Ids;
      var i := 0;
      assert Ids(outputs[..0]) == {} by { NoOutputs(); }
      while i < |outputs|
        invariant i <= |outputs|
        invariant consumedToolOutputs == Receipts(old(consumedToolOutputs), outputs[..i], conversation)
        invariant toolCallBindings == old(toolCallBindings) - Ids(outputs[..i])
      {
        IdsSnoc(outputs[..i + 1]);
        assert outputs[..i + 1][..i] == outputs[..i];
        consumedToolOutputs := consumedToolOutputs[outputs[i].callId := Receipt(conversation, outputs[i])];
        toolCallBindings := toolCallBindings - {outputs[i].callId};
        i := i + 1;
      }
      assert outputs[..i] == outputs;
    }

    method RememberToolOutputReplay(flight: nat, conversation: Str, wire: Str, fits: bool, expires: int)
      requires Inv(View()) && flight in turns && !turns[flight].recorded
      modifies this
      ensures View() == Record(old(View()), flight, conversation, wire, fits, expires) && Inv(View())
    {
      hide Inv, Ids, Receipts;
      RecordInv(View(), flight, conversation, wire, fits, expires);
      var turn := turns[flight];
      if turn.outputs == [] { return; }
      RememberConsumedToolOutputs(turn.outputs, conversation);
      if fits {
        var replay := Replay(flight, conversation, turn.outputs, turn.request, wire, expires);
        toolOutputReplays := StoreReplay(toolOutputReplays, Ids(turn.outputs), replay);
      }
      recorded := recorded + Ids(turn.outputs);
      turns := turns[flight := turn.(recorded := true)];
    }
  }

  /** The flights that remain after those of `ids` that belong to `f` are gone. */
  ghost function Left(flights: map<Str, nat>, ids: set<Str>, f: nat): map<Str, nat> {
    map k | k in flights && !(k in ids && flights[k] == f) :: flights[k]
  }

  lemma OwnFlights(s: State, f: nat)
    requires Inv(s) && f in s.turns
    ensures forall id <- s.flights :: s.flights[id] == f ==> id in Ids(s.turns[f].outputs)
    ensures Ids(s.turns[f].outputs[..0]) == {}
  {
    hide Ids, IdsFit, RecordsFit, ShapesFit;
    assert s.turns[f].outputs[..0] == [];
    NoOutputs();
  }

  predicate SameMaps(s: State, e: State) {
    s.responses == e.responses && s.reasoning == e.reasoning && s.tools == e.tools && s.consumed == e.consumed
    && s.replays == e.replays
  }

  lemma {:induction false} FiltersByMaps(s: State, e: State, outputs: seq<Output>, request: Body, r: Replay, now: int)
    requires SameMaps(s, e)
    ensures Active(s, outputs) == Active(e, outputs) && Covered(s, outputs, r) == Covered(e, outputs, r)
    ensures Candidate(s, outputs, request, now) == Candidate(e, outputs, request, now)
  {
    if outputs != [] { FiltersByMaps(s, e, outputs[..|outputs| - 1], request, r, now); }
  }

  lemma PrepareOutputsByMaps(s: State, e: State, previous: Option<Binding>, current: Body, outputs: seq<Output>)
    requires SameMaps(s, e) && outputs != []
    ensures PrepareOutputs(s, previous, current, outputs) == PrepareOutputs(e, previous, current, outputs)
  {
    hide Replayable, Active;
    FiltersByMaps(s, e, outputs, current, Replay(0, [], [], current, [], 0), 0);
    ActiveExact(s, outputs);
    assert ToolMessages(s, Active(s, outputs)) == ToolMessages(e, Active(s, outputs));
    assert forall o :: Unknown(s, o) == Unknown(e, o) && Conflicts(s, o) == Conflicts(e, o);
  }

  lemma FindReplayByMaps(s: State, e: State, outputs: seq<Output>, request: Body, now: int)
    requires SameMaps(s, e)
    ensures FindReplay(s, outputs, request, now) == FindReplay(e, outputs, request, now)
  {
    hide Covered, Candidate;
    var none := Replay(0, [], [], request, [], 0);
    FiltersByMaps(s, e, outputs, request, none, now);
    var r := Candidate(s, outputs, request, now);
    if r.Some? { FiltersByMaps(s, e, outputs, request, r.value, now); }
  }

  /** Preparing a turn depends only on the maps of bindings, receipts and replays. */
  lemma PrepareByMaps(s: State, e: State, b: Body, now: int)
    requires SameMaps(s, e)
    ensures Prepare(s, b, now) == Prepare(e, b, now)
  {
    hide FindReplay, PrepareOutputs, VisibleHistory, Collect, LastState, AfterLastAssistant, DropPrior;
    var previous := if b.previousId != [] && b.previousId in s.responses then Some(s.responses[b.previousId]) else None;
    var usesState := previous.None? && LastState(b.input).Some?;
    var current := CurrentTurn(s, b, usesState).0;
    assert CurrentTurn(e, b, usesState) == CurrentTurn(s, b, usesState);
    var outputs := Collect(current.input);
    if outputs.Some? {
      FindReplayByMaps(s, e, outputs.value, current, now);
      if outputs.value != [] { PrepareOutputsByMaps(s, e, previous, current, outputs.value); }
    }
  }
}
