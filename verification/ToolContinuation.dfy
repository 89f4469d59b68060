/**
 * The runtime's bindings, receipts, replays and flights as a state machine: how a Responses request becomes a turn,
 * and why a tool result is consumed once.
 */
module ToolContinuation {
  import opened Units
  import opened JsonText
  import opened ToolOutputs

  // ---------------------------------------------------------------- data

  /** WebWmConversationBinding: where a conversation can be continued. */
  datatype Binding = Binding(conversation: Str, parent: Str, expires: int)

  datatype ToolBinding = ToolBinding(at: Binding, tool: Str)

  datatype Receipt = Receipt(conversation: Str, output: Output)

  /** `owner` is the turn that stored it, which makes two replays different objects. */
  datatype Replay = Replay(owner: nat, conversation: Str, outputs: seq<Output>, request: Body, wire: Str, expires: int)

  /** A request: the trimmed previous_response_id, the input items, and the rest. Its digest is taken to be injective. */
  datatype Body = Body(previousId: Str, input: seq<Item>, rest: Json)

  /** A running turn: `outputs` are consumed when it is recorded; a native turn sends them into its conversation. */
  datatype Turn = Turn(
    native: bool, outputs: seq<Output>, all: seq<Output>, conversation: Str, parent: Str, request: Body, recorded: bool)

  datatype State = State(
    responses: map<Str, Binding>,
    reasoning: map<Str, Binding>,
    tools: map<Str, ToolBinding>,
    consumed: map<Str, Receipt>,
    replays: map<Str, Replay>,
    flights: map<Str, nat>,
    turns: map<nat, Turn>,
    nextTurn: nat,
    known: set<Str>,
    recorded: set<Str>)

  function Ids(outputs: seq<Output>): set<Str> {
    set o <- outputs :: o.callId
  }

  // ---------------------------------------------------------------- the current turn of a request

  predicate IsPrior(item: Item) {
    item.CallMade? || item.ReasoningState? || item.AssistantMessage? || item.OtherOutput?
  }

  function DropPrior(items: seq<Item>): seq<Item> {
    if items != [] && IsPrior(items[0]) then DropPrior(items[1..]) else items
  }

  /** The position of the last assistant message; -1 when there is none. */
  function LastAssistant(items: seq<Item>): (k: int)
    ensures IsLastAssistant(items, k)
  {
    if items == [] then -1
    else if items[|items| - 1].AssistantMessage? then |items| - 1
    else LastAssistant(items[..|items| - 1])
  }

  predicate IsLastAssistant(items: seq<Item>, k: int) {
    && -1 <= k < |items| && (k >= 0 ==> items[k].AssistantMessage?)
    && forall i :: k < i < |items| ==> 0 <= i && !items[i].AssistantMessage?
  }

  /** What follows the last assistant message, or everything. */
  function AfterLastAssistant(items: seq<Item>): seq<Item> {
    items[LastAssistant(items) + 1..]
  }

  /** The last opaque reasoning state of the input. */
  function LastState(items: seq<Item>): (r: Option<nat>)
    ensures r.Some? ==> r.value < |items| && items[r.value].ReasoningState? && items[r.value].token.Some?
  {
    if items == [] then None
    else
      var last := items[|items| - 1];
      if last.ReasoningState? && last.token.Some? then Some(|items| - 1) else LastState(items[..|items| - 1])
  }

  /** responsesBodyAfterLatestAssistantMessage. */
  method AfterLatestAssistantMessage(items: seq<Item>) returns (r: seq<Item>)
    ensures r == AfterLastAssistant(items)
  {
    var latest, i := -1, 0;
    while i < |items|
      invariant i <= |items| && latest < i
      invariant IsLastAssistant(items[..i], latest)
    {
      assert items[..i + 1] == items[..i] + [items[i]];
      if items[i].AssistantMessage? { latest := i; }
      i := i + 1;
    }
    assert items[..i] == items;
    OneLast(items, latest, LastAssistant(items));
    return items[latest + 1..];
  }

  lemma OneLast(items: seq<Item>, j: int, k: int)
    requires IsLastAssistant(items, j) && IsLastAssistant(items, k)
    ensures j == k
  {}

  /** What is dropped behind a reasoning state is exactly the run of earlier output at the front. */
  lemma {:induction false} DropPriorExact(items: seq<Item>, k: nat)
    requires k <= |items| && (forall i :: 0 <= i < k ==> IsPrior(items[i])) && (k < |items| ==> !IsPrior(items[k]))
    ensures DropPrior(items) == items[k..]
  {
    if k > 0 {
      assert forall i :: 0 <= i < k - 1 ==> IsPrior(items[1..][i]);
      DropPriorExact(items[1..], k - 1);
    }
  }

  /** findReasoningState: the last opaque state, looked for from the end. */
  method FindReasoningState(items: seq<Item>) returns (r: Option<nat>)
    ensures r == LastState(items)
    ensures r.None? ==> forall i :: 0 <= i < |items| ==> !(items[i].ReasoningState? && items[i].token.Some?)
    ensures r.Some? ==> forall i :: r.value < i < |items| ==> !(items[i].ReasoningState? && items[i].token.Some?)
  {
    var index := |items|;
    assert items[..index] == items;
    while index > 0
      invariant index <= |items|
      invariant LastState(items) == LastState(items[..index])
      invariant forall i :: index <= i < |items| ==> !(items[i].ReasoningState? && items[i].token.Some?)
    {
      index := index - 1;
      assert items[..index + 1][..index] == items[..index];
      if items[index].ReasoningState? && items[index].token.Some? { return Some(index); }
    }
    return None;
  }

  predicate VisibleHistory(items: seq<Item>) {
    Replayable(items)
    || exists i :: 0 <= i < |items| && ((items[i].AssistantMessage? && items[i].shown) || (items[i].AgentMessage? && items[i].shown))
  }

  /** The part of the request that belongs to the turn, and the binding a reasoning state found. */
  function CurrentTurn(s: State, b: Body, usesState: bool): (Body, Option<Binding>) {
    var at := LastState(b.input);
    if usesState && at.Some? then
      var token := b.input[at.value].token.value;
      if token in s.reasoning then (b.(input := DropPrior(b.input[at.value + 1..])), Some(s.reasoning[token]))
      else (b.(input := b.input[..at.value] + b.input[at.value + 1..]), None)
    else (b.(input := AfterLastAssistant(b.input)), None)
  }

  // ---------------------------------------------------------------- receipts and replays

  predicate HasReceipt(s: State, o: Output) { o.callId in s.consumed && s.consumed[o.callId].output == o }
  predicate ReceiptOf(s: State, o: Output, conversation: Str) {
    HasReceipt(s, o) && s.consumed[o.callId].conversation == conversation
  }
  predicate Conflicts(s: State, o: Output) { o.callId in s.consumed && s.consumed[o.callId].output != o }

  /** findExactToolOutputReplay. */
  function ExactReplay(s: State, o: Output, now: int): Option<Replay> {
    if o.callId in s.replays && s.replays[o.callId].expires > now && o in s.replays[o.callId].outputs
    then Some(s.replays[o.callId]) else None
  }

  /** The replay of this very request, looked for from the last output. */
  function Candidate(s: State, outputs: seq<Output>, request: Body, now: int): Option<Replay> {
    if outputs == [] then None
    else
      var r := ExactReplay(s, outputs[|outputs| - 1], now);
      if r.Some? && r.value.request == request then r else Candidate(s, outputs[..|outputs| - 1], request, now)
  }

  /** The outputs whose replay is `r`. */
  function Covered(s: State, outputs: seq<Output>, r: Replay): seq<Output> {
    if outputs == [] then []
    else
      var o := outputs[|outputs| - 1];
      Covered(s, outputs[..|outputs| - 1], r)
      + if o.callId in s.replays && s.replays[o.callId] == r then [o] else []
  }

  /** findToolOutputReplay. */
  function FindReplay(s: State, outputs: seq<Output>, request: Body, now: int): Option<Replay> {
    var r := Candidate(s, outputs, request, now);
    if r.None? then None
    else if exists o <- outputs :: !ReceiptOf(s, o, r.value.conversation) then None
    else if Covered(s, outputs, r.value) != r.value.outputs then None
    else r
  }

  // ---------------------------------------------------------------- preparing a turn

  datatype Problem = StateNotFound | StateMismatch | ConflictingOutputs

  datatype Message = Message(output: Output, tool: Str)

  datatype Prepared =
    | Rejected(problem: Problem)
    | Replayed(replay: Replay)
    | Run(turn: Turn, messages: seq<Message>)

  function Active(s: State, outputs: seq<Output>): seq<Output> {
    if outputs == [] then []
    else
      var o := outputs[|outputs| - 1];
      Active(s, outputs[..|outputs| - 1]) + if o.callId in s.tools then [o] else []
  }

  lemma {:induction false} ActiveExact(s: State, outputs: seq<Output>)
    ensures forall o :: o in Active(s, outputs) <==> o in outputs && o.callId in s.tools
  {
    if outputs != [] { ActiveExact(s, outputs[..|outputs| - 1]); }
  }

  /** All outputs belong to one conversation, and the bound ones continue at one message. */
  predicate OnePlace(s: State, outputs: seq<Output>, at: Binding) {
    && (forall o <- outputs :: o.callId in s.tools ==>
          s.tools[o.callId].at.conversation == at.conversation && s.tools[o.callId].at.parent == at.parent)
    && (forall o <- outputs :: HasReceipt(s, o) ==> s.consumed[o.callId].conversation == at.conversation)
  }

  function ToolMessages(s: State, active: seq<Output>): seq<Message>
    requires forall o <- active :: o.callId in s.tools
  {
    seq(|active|, i requires 0 <= i < |active| => Message(active[i], s.tools[active[i].callId].tool))
  }

  predicate Unknown(s: State, o: Output) { o.callId !in s.tools && !HasReceipt(s, o) }

  function PrepareOutputs(s: State, previous: Option<Binding>, current: Body, outputs: seq<Output>): Prepared
    requires outputs != []
  {
    var active := Active(s, outputs);
    var unknown := exists o <- outputs :: Unknown(s, o);
    var recover := previous.None? && unknown && (forall o <- outputs :: !Conflicts(s, o)) && Replayable(current.input);
    ActiveExact(s, outputs);
    if recover then Run(Turn(false, outputs, outputs, [], [], current, false), [])
    else if active == [] || unknown then Rejected(StateNotFound)
    else
      assert active[0] in active;
      var at := s.tools[active[0].callId].at;
      if !OnePlace(s, outputs, at) then Rejected(StateMismatch)
      else Run(Turn(true, active, outputs, at.conversation, at.parent, current, false), ToolMessages(s, active))
  }

  /** prepareResponsesTurn. */
  function Prepare(s: State, b: Body, now: int): Prepared {
    var previous := if b.previousId != [] && b.previousId in s.responses then Some(s.responses[b.previousId]) else None;
    if b.previousId != [] && previous.None? && !VisibleHistory(b.input) then Rejected(StateNotFound)
    else
      var usesState := previous.None? && LastState(b.input).Some?;
      var (current, found) := CurrentTurn(s, b, usesState);
      var outputs := Collect(current.input);
      if outputs.None? then Rejected(ConflictingOutputs)
      else
        var replay := if usesState then None else FindReplay(s, outputs.value, current, now);
        if replay.Some? then Replayed(replay.value)
        else if outputs.value != [] then PrepareOutputs(s, previous, current, outputs.value)
        else
          var at := if previous.Some? then previous else found;
          Run(Turn(false, [], [], if at.Some? then at.value.conversation else [], if at.Some? then at.value.parent else [],
                   current, false), [])
  }

  // ---------------------------------------------------------------- steps

  function LiveBindings(m: map<Str, Binding>, now: int): map<Str, Binding> {
    map k | k in m && m[k].expires > now :: m[k]
  }

  /** pruneBindings. */
  function Prune(s: State, now: int): State {
    s.(responses := LiveBindings(s.responses, now), reasoning := LiveBindings(s.reasoning, now),
       tools := map k | k in s.tools && s.tools[k].at.expires > now :: s.tools[k],
       replays := map k | k in s.replays && s.replays[k].expires > now :: s.replays[k])
  }

  predicate InFlight(s: State, outputs: seq<Output>) {
    exists o <- outputs :: o.callId in s.flights
  }

  function Reserve(flights: map<Str, nat>, ids: set<Str>, f: nat): map<Str, nat> {
    map k | k in flights.Keys + ids :: if k in ids then f else flights[k]
  }

  /** Starting a turn with no call id in flight. */
  function Launch(s: State, t: Turn): State {
    s.(flights := Reserve(s.flights, Ids(t.outputs), s.nextTurn),
       turns := s.turns[s.nextTurn := t],
       nextTurn := s.nextTurn + 1,
       known := s.known + Ids(t.outputs))
  }

  /** responses, up to the start of the turn; a turn whose call ids are in flight waits and begins again later. */
  function Begin(s: State, b: Body, now: int): State {
    var p := Prune(s, now);
    var r := Prepare(p, b, now);
    if !r.Run? || InFlight(p, r.turn.outputs) then p else Launch(p, r.turn)
  }

  /** A call the turn made: its fresh id, and the tool. */
  datatype NewCall = NewCall(id: Str, tool: Str)

  function Bind(tools: map<Str, ToolBinding>, calls: seq<NewCall>, at: Binding): map<Str, ToolBinding> {
    if calls == [] then tools
    else Bind(tools, calls[..|calls| - 1], at)[calls[|calls| - 1].id := ToolBinding(at, calls[|calls| - 1].tool)]
  }

  function NewIds(calls: seq<NewCall>): set<Str> { set c <- calls :: c.id }

  /** rememberResponsesTurn. */
  function Remember(s: State, responseId: Str, token: Option<Str>, at: Binding, calls: seq<NewCall>): State {
    s.(responses := s.responses[responseId := at],
       reasoning := if token.Some? then s.reasoning[token.value := at] else s.reasoning,
       tools := Bind(s.tools, calls, at),
       known := s.known + NewIds(calls))
  }

  /** rememberConsumedToolOutputs. */
  function Receipts(consumed: map<Str, Receipt>, outputs: seq<Output>, conversation: Str): map<Str, Receipt> {
    if outputs == [] then consumed
    else
      var o := outputs[|outputs| - 1];
      Receipts(consumed, outputs[..|outputs| - 1], conversation)[o.callId := Receipt(conversation, o)]
  }

  function StoreReplay(replays: map<Str, Replay>, ids: set<Str>, r: Replay): map<Str, Replay> {
    map k | k in replays.Keys + ids :: if k in ids then r else replays[k]
  }

  /** rememberToolOutputReplay; `fits` when the wire text is neither empty nor too long. */
  function Record(s: State, f: nat, conversation: Str, wire: Str, fits: bool, expires: int): State
    requires f in s.turns
  {
    var t := s.turns[f];
    if t.outputs == [] then s
    else
      s.(consumed := Receipts(s.consumed, t.outputs, conversation),
         tools := s.tools - Ids(t.outputs),
         replays := if fits then
                      StoreReplay(s.replays, Ids(t.outputs), Replay(f, conversation, t.outputs, t.request, wire, expires))
                    else s.replays,
         recorded := s.recorded + Ids(t.outputs),
         turns := s.turns[f := t.(recorded := true)])
  }

  /** The end of a turn: releases the flights that are still its own. */
  function Release(s: State, f: nat): State {
    s.(flights := map k | k in s.flights && s.flights[k] != f :: s.flights[k], turns := s.turns - {f})
  }

  /** What expiry, eviction, the clean-up of a conversation and dispose delete. */
  datatype Forgotten = Forgotten(responses: set<Str>, reasoning: set<Str>, tools: set<Str>, consumed: set<Str>, replays: set<Str>)

  function Forget(s: State, x: Forgotten): State {
    s.(responses := s.responses - x.responses, reasoning := s.reasoning - x.reasoning, tools := s.tools - x.tools,
       consumed := s.consumed - x.consumed, replays := s.replays - x.replays)
  }

  datatype Step =
    | Requested(b: Body, now: int)
    | Remembered(responseId: Str, token: Option<Str>, at: Binding, calls: seq<NewCall>)
    | Recorded(f: nat, conversation: Str, wire: Str, fits: bool, expires: int)
    | Released(f: nat)
    | Lost(x: Forgotten)

  /** Call ids are fresh; only running turns are recorded, and once. */
  predicate Allowed(s: State, e: Step) {
    match e
    case Remembered(_, _, _, calls) => NewIds(calls) !! s.known
    case Recorded(f, _, _, _, _) => f in s.turns && !s.turns[f].recorded
    case _ => true
  }

  function Next(s: State, e: Step): State
    requires Allowed(s, e)
  {
    match e
    case Requested(b, now) => Begin(s, b, now)
    case Remembered(responseId, token, at, calls) => Remember(s, responseId, token, at, calls)
    case Recorded(f, conversation, wire, fits, expires) => Record(s, f, conversation, wire, fits, expires)
    case Released(f) => Release(s, f)
    case Lost(x) => Forget(s, x)
  }

  predicate IsTrace(s: State, es: seq<Step>)
    decreases |es|
  {
    es == [] || (Allowed(s, es[0]) && IsTrace(Next(s, es[0]), es[1..]))
  }

  function RunAll(s: State, es: seq<Step>): State
    requires IsTrace(s, es)
    decreases |es|
  {
    if es == [] then s else RunAll(Next(s, es[0]), es[1..])
  }

  const FRESH: State := State(map[], map[], map[], map[], map[], map[], map[], 0, {}, {})

  // ---------------------------------------------------------------- the invariant

  /** Flights and running turns say the same about every call id. */
  predicate FlightsFit(s: State) {
    && (forall id <- s.flights :: s.flights[id] in s.turns && id in Ids(s.turns[s.flights[id]].outputs))
    && (forall f <- s.turns :: f < s.nextTurn && forall id <- Ids(s.turns[f].outputs) :: id in s.flights && s.flights[id] == f)
  }

  /** Recorded ids are not bound, and everything recorded or bound is known. */
  predicate IdsFit(s: State) {
    && s.recorded !! s.tools.Keys
    && s.recorded <= s.known && s.tools.Keys <= s.known
    && (forall f <- s.turns :: Ids(s.turns[f].outputs) <= s.known)
  }

  /** An unrecorded native turn's ids are not recorded; receipts and replays are about recorded outputs. */
  predicate RecordsFit(s: State) {
    && (forall f <- s.turns :: s.turns[f].native && !s.turns[f].recorded ==> Ids(s.turns[f].outputs) !! s.recorded)
    && (forall f <- s.turns :: s.turns[f].outputs != [] ==>
          && Ids(s.turns[f].all) <= Ids(s.turns[f].outputs) + s.recorded
          && Collect(s.turns[f].request.input) == Some(s.turns[f].all))
    && (forall id <- s.consumed :: id in s.recorded)
    && (forall id <- s.replays :: Collect(s.replays[id].request.input).Some?
                                  && Ids(Collect(s.replays[id].request.input).value) <= s.recorded)
  }

  /** The outputs with the given ids. */
  function Pick(outputs: seq<Output>, ids: set<Str>): seq<Output> {
    if outputs == [] then []
    else
      var o := outputs[|outputs| - 1];
      Pick(outputs[..|outputs| - 1], ids) + if o.callId in ids then [o] else []
  }

  /** A turn consumes some of its request's outputs, in their order; every replay is from a turn already recorded. */
  predicate ShapesFit(s: State) {
    && (forall f <- s.turns :: Distinct(s.turns[f].all) && s.turns[f].outputs == Pick(s.turns[f].all, Ids(s.turns[f].outputs)))
    && (forall f <- s.turns :: !s.turns[f].native && s.turns[f].outputs != [] ==> s.turns[f].outputs == s.turns[f].all)
    && (forall id <- s.replays :: s.replays[id].owner < s.nextTurn
                                  && (s.replays[id].owner in s.turns ==> s.turns[s.replays[id].owner].recorded))
  }

  predicate Inv(s: State) { FlightsFit(s) && IdsFit(s) && RecordsFit(s) && ShapesFit(s) }

  lemma FreshInv()
    ensures Inv(FRESH)
  {}

  lemma PruneInv(s: State, now: int)
    requires Inv(s)
    ensures Inv(Prune(s, now))
  {
    hide Ids, Collect, Pick, Distinct;
  }

  /** What is known of a turn that is about to run. */
  lemma PreparedTurn(s: State, b: Body, now: int)
    requires Inv(s) && Prepare(s, b, now).Run?
    ensures var t := Prepare(s, b, now).turn;
            && !t.recorded
            && (t.native ==> Ids(t.outputs) <= s.tools.Keys && t.outputs != [])
            && (t.outputs != [] ==> Ids(t.all) <= Ids(t.outputs) + s.recorded && Collect(t.request.input) == Some(t.all))
            && Distinct(t.all) && t.outputs == Pick(t.all, Ids(t.outputs))
            && (!t.native && t.outputs != [] ==> t.outputs == t.all)
  {
    hide Collect, FindReplay, CurrentTurn, VisibleHistory, LastState, FlightsFit, Active, Replayable, OnePlace, ToolMessages,
      Consistent, Pick, Distinct;
    var t := Prepare(s, b, now).turn;
    CollectExact(t.request.input);
    PickAll(t.all);
    ActivePicked(s, t.all);
    NoOutputs();
    if t.outputs != [] {
      ActiveExact(s, t.all);
      if t.native {
        forall id | id in Ids(t.all) ensures id in Ids(t.outputs) + s.recorded {
          var o :| o in t.all && o.callId == id;
          assert !Unknown(s, o);
        }
      }
    }
  }

  lemma NoOutputs()
    ensures Distinct([]) && Pick([], {}) == [] && Ids([]) == {}
  {}

  lemma {:induction false} PickAll(outputs: seq<Output>)
    ensures Pick(outputs, Ids(outputs)) == outputs
  {
    PickWithin(outputs, Ids(outputs));
  }

  lemma {:induction false} PickWithin(outputs: seq<Output>, ids: set<Str>)
    requires Ids(outputs) <= ids
    ensures Pick(outputs, ids) == outputs
  {
    if outputs != [] {
      var n := |outputs| - 1;
      assert outputs == outputs[..n] + [outputs[n]];
      assert outputs[n].callId in Ids(outputs);
      assert Ids(outputs[..n]) <= Ids(outputs);
      PickWithin(outputs[..n], ids);
    }
  }

  lemma {:induction false} PickSame(outputs: seq<Output>, a: set<Str>, b: set<Str>)
    requires forall o <- outputs :: o.callId in a <==> o.callId in b
    ensures Pick(outputs, a) == Pick(outputs, b)
  {
    if outputs != [] { PickSame(outputs[..|outputs| - 1], a, b); }
  }

  lemma {:induction false} ActiveIsPick(s: State, outputs: seq<Output>)
    ensures Active(s, outputs) == Pick(outputs, s.tools.Keys)
  {
    if outputs != [] { ActiveIsPick(s, outputs[..|outputs| - 1]); }
  }

  lemma ActivePicked(s: State, outputs: seq<Output>)
    ensures Active(s, outputs) == Pick(outputs, Ids(Active(s, outputs)))
  {
    ActiveIsPick(s, outputs);
    ActiveExact(s, outputs);
    forall o | o in outputs ensures o.callId in s.tools.Keys <==> o.callId in Ids(Active(s, outputs)) {
      if o.callId in s.tools { assert o in Active(s, outputs); }
    }
    PickSame(outputs, s.tools.Keys, Ids(Active(s, outputs)));
  }

  lemma LaunchFlights(s: State, t: Turn)
    requires FlightsFit(s) && Ids(t.outputs) !! s.flights.Keys
    ensures FlightsFit(Launch(s, t)) && s.nextTurn !in s.turns
  {
    hide Ids;
  }

  lemma LaunchRest(s: State, t: Turn)
    requires Inv(s) && !t.recorded
    requires t.native ==> Ids(t.outputs) <= s.tools.Keys
    requires t.outputs != [] ==> Ids(t.all) <= Ids(t.outputs) + s.recorded && Collect(t.request.input) == Some(t.all)
    requires Distinct(t.all) && t.outputs == Pick(t.all, Ids(t.outputs))
    requires !t.native && t.outputs != [] ==> t.outputs == t.all
    ensures IdsFit(Launch(s, t)) && RecordsFit(Launch(s, t)) && ShapesFit(Launch(s, t))
  {
    hide Ids, Collect, Pick, Distinct, Reserve;
  }

  lemma BeginInv(s: State, b: Body, now: int)
    requires Inv(s)
    ensures Inv(Begin(s, b, now))
  {
    hide Ids, Collect, Prepare, Prune, FlightsFit, IdsFit, RecordsFit, ShapesFit, Pick, Distinct, InFlight;
    var p := Prune(s, now);
    PruneInv(s, now);
    var r := Prepare(p, b, now);
    if r.Run? && !InFlight(p, r.turn.outputs) {
      PreparedTurn(p, b, now);
      NotInFlight(p, r.turn.outputs);
      LaunchFlights(p, r.turn);
      LaunchRest(p, r.turn);
    }
  }

  lemma NotInFlight(s: State, outputs: seq<Output>)
    requires !InFlight(s, outputs)
    ensures Ids(outputs) !! s.flights.Keys
  {}

  lemma {:induction false} BindKeys(tools: map<Str, ToolBinding>, calls: seq<NewCall>, at: Binding)
    ensures Bind(tools, calls, at).Keys == tools.Keys + NewIds(calls)
  {
    if calls != [] {
      BindKeys(tools, calls[..|calls| - 1], at);
      assert calls == calls[..|calls| - 1] + [calls[|calls| - 1]];
    }
  }

  lemma RememberInv(s: State, responseId: Str, token: Option<Str>, at: Binding, calls: seq<NewCall>)
    requires Inv(s) && NewIds(calls) !! s.known
    ensures Inv(Remember(s, responseId, token, at, calls))
  {
    hide Ids, Collect, Bind, NewIds, Pick, Distinct;
    BindKeys(s.tools, calls, at);
  }

  lemma IdsSnoc(outputs: seq<Output>)
    requires outputs != []
    ensures var n := |outputs| - 1; Ids(outputs) == Ids(outputs[..n]) + {outputs[n].callId}
  {
    var n := |outputs| - 1;
    assert outputs == outputs[..n] + [outputs[n]];
  }

  lemma {:induction false} ReceiptKeys(consumed: map<Str, Receipt>, outputs: seq<Output>, conversation: Str)
    ensures var r := Receipts(consumed, outputs, conversation);
            r.Keys == consumed.Keys + Ids(outputs) && (forall id <- r :: id !in Ids(outputs) ==> r[id] == consumed[id])
  {
    hide Ids;
    if outputs == [] {
      assert Ids(outputs) == {} by { NoOutputs(); }
    } else {
      IdsSnoc(outputs);
      ReceiptKeys(consumed, outputs[..|outputs| - 1], conversation);
    }
  }

  lemma {:induction false} ReceiptsOf(consumed: map<Str, Receipt>, outputs: seq<Output>, conversation: Str, o: Output)
    requires Distinct(outputs) && o in outputs
    ensures var r := Receipts(consumed, outputs, conversation); o.callId in r && r[o.callId] == Receipt(conversation, o)
  {
    hide Ids;
    var n := |outputs| - 1;
    if o != outputs[n] {
      var i :| 0 <= i < |outputs| && outputs[i] == o;
      assert outputs[..n][i] == o;
      assert outputs[i].callId != outputs[n].callId;
      ReceiptsOf(consumed, outputs[..n], conversation, o);
    }
  }

  lemma RecordFlights(s: State, f: nat, conversation: Str, wire: Str, fits: bool, expires: int)
    requires FlightsFit(s) && IdsFit(s) && f in s.turns
    ensures var e := Record(s, f, conversation, wire, fits, expires); FlightsFit(e) && IdsFit(e)
  {
    hide Ids, Receipts, StoreReplay;
  }

  lemma RecordShapes(s: State, f: nat, conversation: Str, wire: Str, fits: bool, expires: int)
    requires FlightsFit(s) && ShapesFit(s) && f in s.turns
    ensures ShapesFit(Record(s, f, conversation, wire, fits, expires))
  {
    hide Ids, Receipts, Pick, Distinct;
  }

  lemma RecordInv(s: State, f: nat, conversation: Str, wire: Str, fits: bool, expires: int)
    requires Inv(s) && f in s.turns && !s.turns[f].recorded
    ensures Inv(Record(s, f, conversation, wire, fits, expires))
  {
    hide Ids, Collect, Receipts, Pick, Distinct, IdsFit, ShapesFit;
    RecordFlights(s, f, conversation, wire, fits, expires);
    RecordShapes(s, f, conversation, wire, fits, expires);
    var t := s.turns[f];
    ReceiptKeys(s.consumed, t.outputs, conversation);
    var e := Record(s, f, conversation, wire, fits, expires);
    forall g | g in e.turns && e.turns[g].native && !e.turns[g].recorded ensures Ids(e.turns[g].outputs) !! e.recorded {
      if t.outputs != [] {
        forall id | id in Ids(e.turns[g].outputs) ensures id !in Ids(t.outputs) { assert s.flights[id] == g; }
      }
    }
  }

  lemma ReleaseInv(s: State, f: nat)
    requires Inv(s)
    ensures Inv(Release(s, f))
  {
    hide Ids, Collect, Pick, Distinct, FlightsFit;
    ReleaseFlights(s, f);
  }

  lemma ReleaseFlights(s: State, f: nat)
    requires FlightsFit(s)
    ensures FlightsFit(Release(s, f))
  {
    hide Ids;
  }

  lemma ForgetInv(s: State, x: Forgotten)
    requires Inv(s)
    ensures Inv(Forget(s, x))
  {
    hide Ids, Collect, Pick, Distinct;
  }

  lemma NextInv(s: State, e: Step)
    requires Inv(s) && Allowed(s, e)
    ensures Inv(Next(s, e))
  {
    hide Inv, Begin, Remember, Record, Release, Forget, NewIds;
    match e {
      case Requested(b, now) => BeginInv(s, b, now);
      case Remembered(responseId, token, at, calls) => RememberInv(s, responseId, token, at, calls);
      case Recorded(f, conversation, wire, fits, expires) => RecordInv(s, f, conversation, wire, fits, expires);
      case Released(f) => ReleaseInv(s, f);
      case Lost(x) => ForgetInv(s, x);
    }
  }

  lemma {:induction false} RunInv(s: State, es: seq<Step>)
    requires Inv(s) && IsTrace(s, es)
    ensures Inv(RunAll(s, es))
    decreases |es|
  {
    hide Inv, Next;
    if es != [] {
      NextInv(s, es[0]);
      RunInv(Next(s, es[0]), es[1..]);
    }
  }

  // ---------------------------------------------------------------- consumed once

  /** A call id belongs to at most one running turn, and ending a turn releases no flight of another. */
  lemma OneOwner(es: seq<Step>, f: nat, g: nat, id: Str)
    requires IsTrace(FRESH, es)
    requires var s := RunAll(FRESH, es);
             && f in s.turns && g in s.turns && f != g && id in Ids(s.turns[f].outputs)
    ensures var s := RunAll(FRESH, es);
            && id !in Ids(s.turns[g].outputs)
            && id in Release(s, g).flights && Release(s, g).flights[id] == f
            && id !in Release(s, f).flights
  {
    hide Ids, RunAll, IsTrace, IdsFit, RecordsFit, ShapesFit;
    FreshInv();
    RunInv(FRESH, es);
    var s := RunAll(FRESH, es);
    assert s.flights[id] == f;
  }

  lemma RecordedKept(s: State, e: Step)
    requires Allowed(s, e)
    ensures s.recorded <= Next(s, e).recorded
  {
    hide Ids, Prepare, NewIds;
  }

  lemma {:induction false} RecordedGrows(s: State, es: seq<Step>)
    requires IsTrace(s, es)
    ensures s.recorded <= RunAll(s, es).recorded
    decreases |es|
  {
    hide Next, Allowed;
    if es != [] {
      RecordedKept(s, es[0]);
      RecordedGrows(Next(s, es[0]), es[1..]);
    }
  }

  /** What a native turn sends. */
  function SentIds(p: Prepared): set<Str> {
    if p.Run? then set m <- p.messages :: m.output.callId else {}
  }

  lemma SentAreBound(s: State, b: Body, now: int)
    ensures SentIds(Prepare(s, b, now)) <= s.tools.Keys
  {
    hide Collect, FindReplay, CurrentTurn, VisibleHistory, LastState, Active, Replayable, OnePlace;
    var p := Prepare(s, b, now);
    if p.Run? {
      ActiveExact(s, p.turn.all);
      forall m | m in p.messages ensures m.output.callId in s.tools.Keys {
        assert m.output in Active(s, p.turn.all);
      }
    }
  }

  /**
   * Consumed once: in every run, whatever turns overlap and whatever is forgotten, once an output is recorded no
   * later request sends a native result for its call id.
   */
  lemma ConsumedOnce(before: seq<Step>, after: seq<Step>, b: Body, now: int, id: Str)
    requires IsTrace(FRESH, before) && IsTrace(RunAll(FRESH, before), after)
    requires id in RunAll(FRESH, before).recorded
    ensures id !in SentIds(Prepare(Prune(RunAll(RunAll(FRESH, before), after), now), b, now))
  {
    hide Prepare, Prune, RunAll, IsTrace, SentIds, FlightsFit, RecordsFit, ShapesFit;
    FreshInv();
    RunInv(FRESH, before);
    var s := RunAll(FRESH, before);
    RunInv(s, after);
    RecordedGrows(s, after);
    var e := RunAll(s, after);
    PruneInv(e, now);
    PruneRecorded(e, now);
    SentAreBound(Prune(e, now), b, now);
  }

  lemma PruneRecorded(s: State, now: int)
    ensures Prune(s, now).recorded == s.recorded
  {}

  // ---------------------------------------------------------------- continuations and replays are sound

  /**
   * A native continuation has one conversation and one parent; its messages are its consumed outputs with their tools;
   * every output of the request is bound to that place or an exact receipt of that conversation, and the consumed
   * ones are exactly the bound ones, in order.
   */
  lemma ContinuationSound(s: State, b: Body, now: int)
    requires Prepare(s, b, now).Run? && Prepare(s, b, now).turn.native
    ensures var t, ms := Prepare(s, b, now).turn, Prepare(s, b, now).messages;
            && Collect(t.request.input) == Some(t.all) && t.outputs != []
            && |ms| == |t.outputs|
            && (forall i :: 0 <= i < |ms| ==> (ms[i].output == t.outputs[i] && t.outputs[i].callId in s.tools
                                               && ms[i].tool == s.tools[t.outputs[i].callId].tool))
            && (forall o <- t.all ::
                  if o.callId in s.tools then
                    s.tools[o.callId].at.conversation == t.conversation && s.tools[o.callId].at.parent == t.parent
                  else ReceiptOf(s, o, t.conversation))
            && t.outputs == Pick(t.all, s.tools.Keys)
  {
    hide Collect, FindReplay, CurrentTurn, VisibleHistory, LastState, Active, Replayable, Pick;
    var t := Prepare(s, b, now).turn;
    ActiveExact(s, t.all);
    ActiveIsPick(s, t.all);
    forall o | o in t.all ensures o.callId in s.tools || HasReceipt(s, o) { assert !Unknown(s, o); }
  }

  lemma {:induction false} CandidateSound(s: State, outputs: seq<Output>, request: Body, now: int)
    ensures var r := Candidate(s, outputs, request, now);
            r.Some? ==> r.value.request == request && r.value.expires > now
                        && exists o <- outputs :: o in r.value.outputs && o.callId in s.replays && s.replays[o.callId] == r.value
  {
    if outputs != [] {
      CandidateSound(s, outputs[..|outputs| - 1], request, now);
      assert forall o <- outputs[..|outputs| - 1] :: o in outputs;
    }
  }

  lemma {:induction false} CoveredExact(s: State, outputs: seq<Output>, r: Replay)
    ensures forall o :: o in Covered(s, outputs, r) <==> o in outputs && o.callId in s.replays && s.replays[o.callId] == r
  {
    if outputs != [] { CoveredExact(s, outputs[..|outputs| - 1], r); }
  }

  /**
   * A returned replay is unexpired, answers exactly this turn's request, covers exactly the outputs that were recorded
   * with it, and every output of the request has an exact receipt of its conversation.
   */
  lemma ReplaySound(s: State, b: Body, now: int)
    requires Prepare(s, b, now).Replayed?
    ensures var r := Prepare(s, b, now).replay;
            && r.request == CurrentTurn(s, b, false).0 && r.expires > now
            && Collect(r.request.input).Some? && r.outputs != []
            && (forall o <- Collect(r.request.input).value :: ReceiptOf(s, o, r.conversation))
            && (forall o <- Collect(r.request.input).value ::
                  o in r.outputs <==> o.callId in s.replays && s.replays[o.callId] == r)
  {
    hide Collect, CurrentTurn, VisibleHistory, LastState, Candidate, Covered, PrepareOutputs;
    var r := Prepare(s, b, now).replay;
    var previous := if b.previousId != [] && b.previousId in s.responses then Some(s.responses[b.previousId]) else None;
    var usesState := previous.None? && LastState(b.input).Some?;
    var current := CurrentTurn(s, b, usesState).0;
    if Collect(current.input).Some? { PrepareNeverReplays(s, previous, current, Collect(current.input).value); }
    var outputs := Collect(CurrentTurn(s, b, false).0.input).value;
    CandidateSound(s, outputs, CurrentTurn(s, b, false).0, now);
    CoveredExact(s, outputs, r);
  }

  // ---------------------------------------------------------------- a resent request is replayed

  lemma {:induction false} CandidateIs(s: State, outputs: seq<Output>, request: Body, now: int, r: Replay)
    requires r.request == request
    requires forall o <- outputs :: ExactReplay(s, o, now).Some? && ExactReplay(s, o, now).value.request == request ==>
               ExactReplay(s, o, now) == Some(r)
    requires exists o <- outputs :: ExactReplay(s, o, now) == Some(r)
    ensures Candidate(s, outputs, request, now) == Some(r)
  {
    hide ExactReplay;
    var n := |outputs| - 1;
    if ExactReplay(s, outputs[n], now) != Some(r) {
      var o :| o in outputs && ExactReplay(s, o, now) == Some(r);
      var i :| 0 <= i < |outputs| && outputs[i] == o;
      assert outputs[..n][i] == o;
      CandidateIs(s, outputs[..n], request, now, r);
    }
  }

  lemma {:induction false} CoveredIsPick(s: State, outputs: seq<Output>, r: Replay, ids: set<Str>)
    requires forall o <- outputs :: o.callId in ids <==> o.callId in s.replays && s.replays[o.callId] == r
    ensures Covered(s, outputs, r) == Pick(outputs, ids)
  {
    if outputs != [] { CoveredIsPick(s, outputs[..|outputs| - 1], r, ids); }
  }

  lemma {:induction false} PickIn(outputs: seq<Output>, ids: set<Str>)
    ensures forall o :: o in Pick(outputs, ids) <==> o in outputs && o.callId in ids
  {
    if outputs != [] { PickIn(outputs[..|outputs| - 1], ids); }
  }

  /** The replay that recording a turn stores. */
  function StoredReplay(s: State, f: nat, conversation: Str, wire: Str, expires: int): Replay
    requires f in s.turns
  {
    Replay(f, conversation, s.turns[f].outputs, s.turns[f].request, wire, expires)
  }

  /** Where the replays stand after a turn is recorded. */
  lemma StoredFacts(s: State, f: nat, conversation: Str, wire: Str, expires: int, now: int)
    requires Inv(s) && f in s.turns && !s.turns[f].recorded && s.turns[f].outputs != [] && now < expires
    ensures var t, e, r := s.turns[f], Record(s, f, conversation, wire, true, expires), StoredReplay(s, f, conversation, wire, expires);
            && (forall o <- t.all :: o.callId in Ids(t.outputs) <==> o.callId in e.replays && e.replays[o.callId] == r)
            && (forall o <- t.all :: o.callId in Ids(t.outputs) ==> o in t.outputs)
            && (forall o <- t.all :: o !in t.outputs ==> o.callId !in e.replays || e.replays[o.callId].request != t.request)
  {
    hide Ids, Collect, Receipts, Pick, FlightsFit;
    var t := s.turns[f];
    PickIn(t.all, Ids(t.outputs));
    FirstId(t.outputs);
    forall o | o in t.all && o.callId !in Ids(t.outputs) && o.callId in s.replays
      ensures s.replays[o.callId].request != t.request && s.replays[o.callId].owner != f
    {
      AllIds(t.all, t.outputs);
    }
  }

  lemma FirstId(outputs: seq<Output>)
    requires outputs != []
    ensures outputs[0].callId in Ids(outputs)
  {}

  lemma AllIds(all: seq<Output>, outputs: seq<Output>)
    requires forall o <- outputs :: o in all
    ensures Ids(outputs) <= Ids(all)
  {}

  /** A turn's own outputs have receipts of its conversation once it is recorded; the others keep theirs. */
  lemma StoredReceipts(s: State, f: nat, conversation: Str, wire: Str, expires: int, o: Output)
    requires Inv(s) && f in s.turns && s.turns[f].outputs != [] && o in s.turns[f].all
    ensures var e := Record(s, f, conversation, wire, true, expires);
            ReceiptOf(e, o, conversation) == (o in s.turns[f].outputs || ReceiptOf(s, o, conversation))
  {
    hide Ids, Collect, Receipts, Pick, FlightsFit, IdsFit, RecordsFit;
    var t := s.turns[f];
    ReceiptKeys(s.consumed, t.outputs, conversation);
    PickIn(t.all, Ids(t.outputs));
    DistinctPick(t.all, Ids(t.outputs));
    IdsOf(t.outputs, o);
    if o in t.outputs { ReceiptsOf(s.consumed, t.outputs, conversation, o); }
  }

  lemma IdsOf(outputs: seq<Output>, o: Output)
    ensures o in outputs ==> o.callId in Ids(outputs)
  {}

  lemma {:induction false} DistinctPick(outputs: seq<Output>, ids: set<Str>)
    requires Distinct(outputs)
    ensures Distinct(Pick(outputs, ids))
  {
    if outputs != [] {
      var n := |outputs| - 1;
      assert Distinct(outputs[..n]);
      DistinctPick(outputs[..n], ids);
      PickIn(outputs[..n], ids);
      var p := Pick(outputs[..n], ids);
      forall i | 0 <= i < |p| ensures p[i].callId != outputs[n].callId {
        assert p[i] in p;
        var k :| 0 <= k < n && outputs[..n][k] == p[i];
        assert outputs[k].callId != outputs[n].callId;
      }
    }
  }

  /**
   * A replay is looked for unless the request continues from a reasoning state, or names a response that is gone and
   * shows no history: a live previous response comes before a reasoning state.
   */
  predicate LooksForReplay(s: State, b: Body) {
    || (b.previousId != [] && b.previousId in s.responses)
    || (LastState(b.input).None? && (b.previousId == [] || VisibleHistory(b.input)))
  }

  /**
   * A client that resends the request of a recorded turn gets the recorded stream, if and only if every output the
   * turn did not itself consume still has its exact receipt of the same conversation.
   */
  lemma ResendReplays(s: State, f: nat, conversation: Str, wire: Str, expires: int, b: Body, now: int)
    requires Inv(s) && f in s.turns && !s.turns[f].recorded && s.turns[f].outputs != [] && now < expires
    requires LooksForReplay(s, b) && b.(input := AfterLastAssistant(b.input)) == s.turns[f].request
    ensures var t, p := s.turns[f], Prepare(Record(s, f, conversation, wire, true, expires), b, now);
            && (p.Replayed? <==> forall o <- t.all :: o in t.outputs || ReceiptOf(s, o, conversation))
            && (p.Replayed? ==> p.replay == StoredReplay(s, f, conversation, wire, expires))
  {
    hide Ids, Collect, Pick, Record, FlightsFit, IdsFit, ShapesFit, VisibleHistory, LastState, PrepareOutputs, Candidate,
      Covered, AfterLastAssistant, ReceiptOf;
    var t, e, r := s.turns[f], Record(s, f, conversation, wire, true, expires), StoredReplay(s, f, conversation, wire, expires);
    TurnCollect(s, f);
    ResendCandidate(s, f, conversation, wire, expires, now);
    forall o | o in t.all
      ensures ReceiptOf(e, o, conversation) == (o in t.outputs || ReceiptOf(s, o, conversation))
    {
      StoredReceipts(s, f, conversation, wire, expires, o);
    }
    assert CurrentTurn(e, b, false).0 == t.request;
    assert LooksForReplay(e, b) by { RecordKeepsResponses(s, f, conversation, wire, expires); }
    ReplayedIff(e, t.all, t.request, now, r, b);
  }

  lemma RecordKeepsResponses(s: State, f: nat, conversation: Str, wire: Str, expires: int)
    requires f in s.turns
    ensures Record(s, f, conversation, wire, true, expires).responses == s.responses
  {}

  lemma TurnCollect(s: State, f: nat)
    requires Inv(s) && f in s.turns && s.turns[f].outputs != []
    ensures Collect(s.turns[f].request.input) == Some(s.turns[f].all)
  {
    hide Ids, Collect, Pick, FlightsFit, IdsFit, ShapesFit;
  }

  lemma ResendCandidate(s: State, f: nat, conversation: Str, wire: Str, expires: int, now: int)
    requires Inv(s) && f in s.turns && !s.turns[f].recorded && s.turns[f].outputs != [] && now < expires
    ensures var t, e, r := s.turns[f], Record(s, f, conversation, wire, true, expires), StoredReplay(s, f, conversation, wire, expires);
            Candidate(e, t.all, t.request, now) == Some(r) && Covered(e, t.all, r) == r.outputs
  {
    hide Ids, Collect, Pick, Record, FlightsFit, IdsFit, RecordsFit, Candidate, Covered;
    var t, e, r := s.turns[f], Record(s, f, conversation, wire, true, expires), StoredReplay(s, f, conversation, wire, expires);
    StoredFacts(s, f, conversation, wire, expires, now);
    PickIn(t.all, Ids(t.outputs));
    FirstId(t.outputs);
    assert t.outputs[0] in t.outputs && t.outputs[0] in t.all;
    assert ExactReplay(e, t.outputs[0], now) == Some(r);
    CandidateIs(e, t.all, t.request, now, r);
    CoveredIsPick(e, t.all, r, Ids(t.outputs));
  }

  lemma ReplayedIff(e: State, all: seq<Output>, request: Body, now: int, r: Replay, b: Body)
    requires Candidate(e, all, request, now) == Some(r) && Covered(e, all, r) == r.outputs
    requires LooksForReplay(e, b) && CurrentTurn(e, b, false).0 == request
    requires Collect(request.input) == Some(all)
    ensures var p := Prepare(e, b, now);
            && (p.Replayed? <==> forall o <- all :: ReceiptOf(e, o, r.conversation))
            && (p.Replayed? ==> p.replay == r)
  {
    hide Collect, VisibleHistory, LastState, PrepareOutputs, Candidate, Covered, CurrentTurn, HasReceipt;
    var previous := if b.previousId != [] && b.previousId in e.responses then Some(e.responses[b.previousId]) else None;
    PrepareNeverReplays(e, previous, request, all);
  }

  lemma PrepareNeverReplays(s: State, previous: Option<Binding>, current: Body, outputs: seq<Output>)
    ensures outputs != [] ==> !PrepareOutputs(s, previous, current, outputs).Replayed?
  {
    hide Active, Replayable, OnePlace, ToolMessages, Conflicts;
  }
}
