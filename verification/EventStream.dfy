/**
 * The Responses event stream as a state machine: what each call adds to the frames, over every run of
 * upstream events, cancellations and sink failures.
 */
module EventStream {
  import opened Units
  import opened ToolInput

  // ---------------------------------------------------------------- items and frames

  datatype Kind = Function | Custom | Search

  datatype Tool = Tool(kind: Kind, wireName: Str)

  /** Fresh item and call ids are identified with the message id of their call. */
  datatype Key = ReasoningKey | TextKey | CallKey(id: Str)

  datatype Item =
    | ReasoningItem
    | TextItem(text: Str)
    | CallItem(id: Str, kind: Kind, done: bool, shown: Str)

  function KeyOf(item: Item): Key {
    match item
    case ReasoningItem => ReasoningKey
    case TextItem(_) => TextKey
    case CallItem(id, _, _, _) => CallKey(id)
  }

  datatype Payload =
    | Created
    | InProgress
    | Added(index: nat, item: Item)
    | Done(index: nat, item: Item)
    | PartAdded(index: nat)
    | PartDone(index: nat, text: Str)
    | Delta(key: Key, index: nat, delta: Str)
    | ValueDone(key: Key, index: nat, value: Str)
    | Completed(output: seq<Item>)
    | Incomplete(output: seq<Item>)
    | Failed

  datatype Frame = Frame(number: nat, payload: Payload)

  predicate IsTerminal(p: Payload) { p.Completed? || p.Incomplete? || p.Failed? }

  const EMPTY_OBJECT: Str := [OPEN_BRACE, CLOSE_BRACE]

  /** The value a finished call shows for its raw arguments. */
  function Shown(kind: Kind, raw: Str): Str {
    match kind
    case Custom => CustomInput(raw)
    case Function => if raw == [] then EMPTY_OBJECT else raw
    case Search => raw
  }

  datatype Call = Call(tool: Tool, index: nat, raw: Str, streamed: Str, disabled: bool, done: bool)

  function ItemOf(id: Str, c: Call): Item {
    CallItem(id, c.tool.kind, c.done, if c.done then Shown(c.tool.kind, c.raw) else [])
  }

  // ---------------------------------------------------------------- the state

  datatype State = State(
    encrypted: bool,
    tools: seq<Tool>,
    sinkOpen: bool,
    frames: seq<Frame>,
    wire: seq<Frame>,
    number: nat,
    text: Str,
    textMessage: Option<Str>,
    reasoningObserved: bool,
    reasoningStarted: bool,
    reasoningFinished: bool,
    textStarted: bool,
    closed: bool,
    notified: bool,
    output: seq<Item>,
    calls: map<Str, Call>)

  /** event: the frame goes on the wire; delivering it may fail, which closes the stream. */
  function Emit(s: State, p: Payload): State {
    if s.closed then s
    else if s.sinkOpen then
      s.(wire := s.wire + [Frame(s.number, p)], frames := s.frames + [Frame(s.number, p)], number := s.number + 1)
    else s.(wire := s.wire + [Frame(s.number, p)], closed := true, notified := true)
  }

  predicate HasReasoning(s: State) { s.reasoningObserved || s.encrypted }

  function StartReasoning(s: State): State {
    if s.closed || !HasReasoning(s) || s.reasoningStarted then s
    else Emit(s.(reasoningStarted := true), Added(|s.output|, ReasoningItem))
  }

  function FinishReasoning(s: State): State {
    if s.closed || !s.reasoningStarted || s.reasoningFinished then s
    else
      var e := Emit(s, Done(|s.output|, ReasoningItem));
      e.(output := e.output + [ReasoningItem], reasoningFinished := true)
  }

  function FinishPending(s: State): State {
    if !HasReasoning(s) || s.reasoningFinished then s else FinishReasoning(StartReasoning(s))
  }

  function StartText(s: State): State {
    if s.textStarted || s.closed then s
    else
      var i := |s.output|;
      Emit(Emit(s.(textStarted := true), Added(i, TextItem([]))), PartAdded(i))
  }

  function AppendText(s: State, delta: Str): State {
    if s.closed || delta == [] then s
    else
      var a := StartText(if s.textStarted then s else FinishPending(s));
      if a.closed then a
      else
        var b := Emit(a, Delta(TextKey, |a.output|, delta));
        if b.closed then b else b.(text := b.text + delta)
  }

  function FinishText(s: State): State {
    var i := |s.output|;
    var item := TextItem(s.text);
    var e := Emit(Emit(Emit(s, ValueDone(TextKey, i, s.text)), PartDone(i, s.text)), Done(i, item));
    e.(output := e.output + [item])
  }

  function Close(s: State): State { s.(closed := true) }

  function Fail(s: State): State {
    if s.closed then s else Close(Emit(s, Failed))
  }

  // ---------------------------------------------------------------- tool calls

  function FindTool(tools: seq<Tool>, name: Str): (r: Option<Tool>)
    ensures r.Some? ==> r.value.wireName == name
  {
    if tools == [] then None else if tools[0].wireName == name then Some(tools[0]) else FindTool(tools[1..], name)
  }

  function StartCall(s: State, id: Str, name: Str): State {
    if s.closed || id in s.calls || FindTool(s.tools, name).None? then s
    else
      var p := FinishPending(s);
      var call := Call(FindTool(s.tools, name).value, |p.output|, [], [], false, false);
      var item := ItemOf(id, call);
      Emit(p.(calls := p.calls[id := call], output := p.output + [item]), Added(|p.output|, item))
  }

  function WithCall(s: State, id: Str, c: Call): State { s.(calls := s.calls[id := c]) }

  function AppendCallDelta(s: State, id: Str, delta: Str): State {
    if s.closed || id !in s.calls || s.calls[id].done || delta == [] then s
    else
      var c := s.calls[id].(raw := s.calls[id].raw + delta);
      if c.tool.kind.Function? then Emit(WithCall(s, id, c), Delta(CallKey(id), c.index, delta))
      else if c.tool.kind.Search? || c.disabled then WithCall(s, id, c)
      else
        var input := Partial(c.raw);
        if input.None? || !IsPrefix(c.streamed, input.value) then WithCall(s, id, c.(disabled := true))
        else if |input.value| == |c.streamed| then WithCall(s, id, c)
        else
          var e := Emit(s, Delta(CallKey(id), c.index, input.value[|c.streamed|..]));
          WithCall(e, id, c.(streamed := input.value))
  }

  /** The rest of a custom input, once its final value is known to extend what was streamed. */
  function StreamRest(s: State, id: Str): State
    requires id in s.calls && IsPrefix(s.calls[id].streamed, CustomInput(s.calls[id].raw))
  {
    var c := s.calls[id];
    var value := CustomInput(c.raw);
    if |value| == |c.streamed| then s
    else WithCall(Emit(s, Delta(CallKey(id), c.index, value[|c.streamed|..])), id, c.(streamed := value))
  }

  /** Storing an item at its index, which is always in range. */
  function SetItem(output: seq<Item>, i: nat, item: Item): seq<Item> {
    if i < |output| then output[i := item] else output
  }

  function SealCall(s: State, id: Str): State
    requires id in s.calls
  {
    var c := s.calls[id].(done := true);
    var item := ItemOf(id, c);
    var a := if c.tool.kind.Search? then s else Emit(s, ValueDone(CallKey(id), c.index, Shown(c.tool.kind, c.raw)));
    var b := Emit(a.(output := SetItem(a.output, c.index, item)), Done(c.index, item));
    WithCall(b, id, c)
  }

  function FinishCall(s: State, id: Str): State {
    if s.closed || id !in s.calls || s.calls[id].done then s
    else
      var c := s.calls[id];
      if c.tool.kind.Custom? then
        if !IsPrefix(c.streamed, CustomInput(c.raw)) then Fail(s) else SealCall(StreamRest(s, id), id)
      else SealCall(s, id)
  }

  // ---------------------------------------------------------------- the result of a turn

  datatype FinalCall = FinalCall(id: Str, name: Str, arguments: Str)

  /** One final call, and whether it matches what was streamed. */
  function ReconcileOne(s: State, c: FinalCall): (State, bool) {
    var a := if c.id in s.calls then s else StartCall(s, c.id, c.name);
    if c.id !in a.calls || a.calls[c.id].tool.wireName != c.name then (a, false)
    else if a.calls[c.id].done then (a, a.calls[c.id].raw == c.arguments)
    else if !IsPrefix(a.calls[c.id].raw, c.arguments) then (a, false)
    else (FinishCall(AppendCallDelta(a, c.id, c.arguments[|a.calls[c.id].raw|..]), c.id), true)
  }

  function ReconcileFrom(s: State, calls: seq<FinalCall>, seen: set<Str>): (State, bool)
    decreases |calls|
  {
    if calls == [] then (s, forall id <- s.calls :: id in seen)
    else if calls[0].id in seen then (s, false)
    else
      var (a, ok) := ReconcileOne(s, calls[0]);
      if !ok then (a, false) else ReconcileFrom(a, calls[1..], seen + {calls[0].id})
  }

  /** reconcileToolCalls. */
  function Reconcile(s: State, calls: seq<FinalCall>): (State, bool) {
    if s.closed then (s, false) else ReconcileFrom(s, calls, {})
  }

  /** complete and incomplete. */
  function Conclude(s: State, text: Str, incomplete: bool): State {
    if s.closed then s
    else if !IsPrefix(s.text, text) then Fail(s)
    else
      var a := AppendText(s, text[|s.text|..]);
      if a.closed then a
      else
        var b := FinishPending(if a.textStarted then FinishText(a) else a);
        Close(Emit(b, if incomplete then Incomplete(b.output) else Completed(b.output)))
  }

  function AppendTextDelta(s: State, id: Str, delta: Str): State {
    if s.closed || delta == [] then s
    else if s.textMessage.Some? && s.textMessage.value != [] && s.textMessage.value != id then s
    else AppendText(s.(textMessage := if s.textMessage.Some? then s.textMessage else Some(id)), delta)
  }

  function ObserveReasoning(s: State, id: Str): State {
    if s.closed || s.reasoningObserved || id == [] then s
    else
      var a := s.(reasoningObserved := true);
      if a.textStarted then a else StartReasoning(a)
  }

  datatype Constraint = Unconstrained | SomeCall | ThisCall(name: Str)

  datatype Result = Result(
    ok: bool, rightModel: bool, output: Str, reasoning: Str, calls: seq<FinalCall>, incomplete: bool)

  function KnownCalls(calls: seq<FinalCall>, tools: seq<Tool>): seq<FinalCall> {
    if calls == [] then []
    else
      var c := calls[0];
      (if c.id != [] && c.name != [] && FindTool(tools, c.name).Some? then [c] else []) + KnownCalls(calls[1..], tools)
  }

  predicate Satisfied(c: Constraint, calls: seq<FinalCall>) {
    match c
    case Unconstrained => true
    case SomeCall => calls != []
    case ThisCall(name) => exists i :: 0 <= i < |calls| && calls[i].name == name
  }

  /** completeResponsesTurn, once the turn has a result. */
  function FinishTurn(s: State, c: Constraint, r: Result): State {
    if !r.ok || !r.rightModel then Fail(s)
    else
      var a := if r.reasoning != [] then ObserveReasoning(s, r.reasoning) else s;
      var calls := KnownCalls(r.calls, s.tools);
      var (b, ok) := Reconcile(a, calls);
      if !ok || !Satisfied(c, calls) || (r.output == [] && calls == [] && !r.incomplete) || !IsPrefix(b.text, r.output)
      then Fail(b)
      else Conclude(b, r.output, r.incomplete)
  }

  /** abort, and the reader's cancel. */
  function Abort(s: State): State {
    if s.closed then s else s.(closed := true, notified := true)
  }

  datatype Event =
    | TextDelta(id: Str, delta: Str)
    | Reasoning(id: Str)
    | CallStart(id: Str, name: Str)
    | CallDelta(id: Str, delta: Str)
    | CallDone(id: Str)
    | SinkBreaks
    | Cancelled
    | Finished(constraint: Constraint, result: Result)
    | Threw(aborted: bool)

  function Step(s: State, e: Event): State {
    match e
    case TextDelta(id, delta) => AppendTextDelta(s, id, delta)
    case Reasoning(id) => ObserveReasoning(s, id)
    case CallStart(id, name) => StartCall(s, id, name)
    case CallDelta(id, delta) => AppendCallDelta(s, id, delta)
    case CallDone(id) => FinishCall(s, id)
    case SinkBreaks => s.(sinkOpen := false)
    case Cancelled => s.(closed := true, notified := true)
    case Finished(c, r) => FinishTurn(s, c, r)
    case Threw(aborted) => if aborted then Abort(s) else Fail(s)
  }

  function Run(s: State, es: seq<Event>): State
    decreases |es|
  {
    if es == [] then s else Run(Step(s, es[0]), es[1..])
  }

  function Start(encrypted: bool, tools: seq<Tool>): State {
    var s := State(encrypted, tools, true, [], [], 0, [], None, false, false, false, false, false, false, [], map[]);
    Emit(Emit(s, Created), InProgress)
  }

  // ---------------------------------------------------------------- tallies

  /** What the frames say: indices and items per key, the joined deltas, and whether a call was added after text. */
  datatype Tally = Tally(added: map<Key, seq<nat>>, done: map<Key, seq<(nat, Item)>>, deltas: map<Key, Str>, late: bool)

  function AddedOf(t: Tally, k: Key): seq<nat> { if k in t.added then t.added[k] else [] }
  function DoneOf(t: Tally, k: Key): seq<(nat, Item)> { if k in t.done then t.done[k] else [] }
  function DeltasOf(t: Tally, k: Key): Str { if k in t.deltas then t.deltas[k] else [] }

  function Add(t: Tally, p: Payload): Tally {
    match p
    case Added(i, item) =>
      t.(added := t.added[KeyOf(item) := AddedOf(t, KeyOf(item)) + [i]],
         late := t.late || (item.CallItem? && AddedOf(t, TextKey) != []))
    case Done(i, item) => t.(done := t.done[KeyOf(item) := DoneOf(t, KeyOf(item)) + [(i, item)]])
    case Delta(k, _, d) => t.(deltas := t.deltas[k := DeltasOf(t, k) + d])
    case _ => t
  }

  function TallyOf(fs: seq<Frame>): Tally {
    if fs == [] then Tally(map[], map[], map[], false) else Add(TallyOf(fs[..|fs| - 1]), fs[|fs| - 1].payload)
  }

  lemma TallySnoc(fs: seq<Frame>, f: Frame)
    ensures TallyOf(fs + [f]) == Add(TallyOf(fs), f.payload)
  {
    assert (fs + [f])[..|fs|] == fs;
  }

  // ---------------------------------------------------------------- what a finished response guarantees

  /** The deltas of an item join to the value it is done with; an empty object stands for no function arguments. */
  predicate DeltasAgree(t: Tally, item: Item) {
    var d := DeltasOf(t, KeyOf(item));
    match item
    case ReasoningItem => true
    case TextItem(text) => d == text
    case CallItem(_, kind, done, shown) =>
      done && (match kind
               case Function => d == shown || (d == [] && shown == EMPTY_OBJECT)
               case Custom => d == shown
               case Search => d == [])
  }

  /** Every item was added and done once; done at its place in the output, and added there unless a call came late. */
  ghost predicate Agreement(output: seq<Item>, t: Tally) {
    && (forall i :: 0 <= i < |output| ==>
          && |AddedOf(t, KeyOf(output[i]))| == 1
          && DoneOf(t, KeyOf(output[i])) == [(i, output[i])]
          && DeltasAgree(t, output[i]))
    && ((forall i :: 0 <= i < |output| ==> AddedOf(t, KeyOf(output[i])) == [i]) <==> !t.late)
    && (forall k :: AddedOf(t, k) != [] ==> exists i :: 0 <= i < |output| && KeyOf(output[i]) == k)
  }

  /**
   * Delivered frames are numbered from 0 and begin with the two opening ones; a terminal frame is last and closes the
   * stream; the frame of a finished response agrees with the frames before it. The wire text holds at most one frame
   * more than was delivered, and none more after a terminal frame.
   */
  ghost predicate Framed(frames: seq<Frame>, wire: seq<Frame>, number: nat, closed: bool) {
    && number == |frames| >= 2
    && (forall i :: 0 <= i < |frames| ==> frames[i].number == i)
    && (forall i :: 0 <= i < |frames| ==> (frames[i].payload.Created? <==> i == 0) && (frames[i].payload.InProgress? <==> i == 1))
    && (forall i :: 0 <= i < |frames| && IsTerminal(frames[i].payload) ==> i == |frames| - 1 && closed && wire == frames)
    && (forall i :: 0 <= i < |frames| && (frames[i].payload.Completed? || frames[i].payload.Incomplete?) ==>
          Agreement(frames[i].payload.output, TallyOf(frames)))
    && frames <= wire && |wire| <= |frames| + 1 && (!closed ==> wire == frames)
  }

  // ---------------------------------------------------------------- the invariant of an open stream

  ghost predicate CallFits(id: Str, c: Call, output: seq<Item>, t: Tally) {
    && c.index < |output| && output[c.index] == ItemOf(id, c)
    && AddedOf(t, CallKey(id)) == [c.index]
    && DoneOf(t, CallKey(id)) == (if c.done then [(c.index, ItemOf(id, c))] else [])
    && DeltasOf(t, CallKey(id))
       == (match c.tool.kind case Function => c.raw case Custom => c.streamed case Search => [])
    && (c.done && c.tool.kind.Custom? ==> c.streamed == CustomInput(c.raw))
  }

  ghost predicate NoTrace(k: Key, t: Tally) {
    AddedOf(t, k) == [] && DoneOf(t, k) == [] && DeltasOf(t, k) == []
  }

  ghost predicate CallsFit(calls: map<Str, Call>, output: seq<Item>, t: Tally) {
    && (forall id <- calls :: CallFits(id, calls[id], output, t))
    && (forall id: Str :: id !in calls ==> NoTrace(CallKey(id), t))
  }

  ghost predicate OutputFits(calls: map<Str, Call>, output: seq<Item>, t: Tally) {
    forall i :: 0 <= i < |output| ==>
      match output[i] {
        case ReasoningItem => DoneOf(t, ReasoningKey) == [(i, ReasoningItem)]
        case TextItem(_) => DoneOf(t, TextKey) == [(i, output[i])]
        case CallItem(id, _, _, _) => id in calls && calls[id].index == i
      }
  }

  predicate ReasoningFits(output: seq<Item>, t: Tally, started: bool, finished: bool) {
    var a, d := AddedOf(t, ReasoningKey), DoneOf(t, ReasoningKey);
    && (finished ==> started && |a| == 1 && a[0] < |output| && output[a[0]] == ReasoningItem && d == [(a[0], ReasoningItem)])
    && (started && !finished ==> a == [|output|] && d == [])
    && (!started ==> a == [] && d == [])
  }

  /** All but the text. */
  ghost predicate Core(s: State, t: Tally) {
    && CallsFit(s.calls, s.output, t) && OutputFits(s.calls, s.output, t)
    && ReasoningFits(s.output, t, s.reasoningStarted, s.reasoningFinished)
    && (s.reasoningStarted ==> HasReasoning(s))
  }

  predicate TextFits(s: State, t: Tally) {
    var a := AddedOf(t, TextKey);
    && DeltasOf(t, TextKey) == s.text && DoneOf(t, TextKey) == []
    && (if s.textStarted then |a| == 1 && a[0] <= |s.output| && (a[0] < |s.output| <==> t.late)
        else a == [] && s.text == [] && !t.late)
    && (s.reasoningStarted && !s.reasoningFinished ==> !s.textStarted)
  }

  ghost predicate Live(s: State) {
    Core(s, TallyOf(s.frames)) && TextFits(s, TallyOf(s.frames))
  }

  ghost predicate Inv(s: State) {
    Framed(s.frames, s.wire, s.number, s.closed) && (s.closed || Live(s))
  }

  // ---------------------------------------------------------------- emitting

  lemma EmitFacts(s: State, p: Payload)
    requires !s.closed
    ensures Emit(s, p).closed <==> !s.sinkOpen
    ensures s.sinkOpen ==> TallyOf(Emit(s, p).frames) == Add(TallyOf(s.frames), p)
  {
    hide TallyOf, Add;
    TallySnoc(s.frames, Frame(s.number, p));
  }

  predicate IsOpening(p: Payload) { p.Created? || p.InProgress? }

  lemma PlainFrames(frames: seq<Frame>, number: nat, p: Payload)
    requires Framed(frames, frames, number, false) && !IsTerminal(p) && !IsOpening(p)
    ensures var fs := frames + [Frame(number, p)]; Framed(fs, fs, number + 1, false)
  {
    hide TallyOf, Agreement;
    var fs := frames + [Frame(number, p)];
    assert forall i :: 0 <= i < |frames| ==> fs[i] == frames[i] && !IsTerminal(frames[i].payload);
  }

  lemma OpenWire(s: State)
    requires Framed(s.frames, s.wire, s.number, s.closed) && !s.closed
    ensures s.wire == s.frames
    ensures forall f: Frame :: Framed(s.frames, s.frames + [f], s.number, true)
  {
    hide TallyOf, Agreement;
  }

  lemma EmitFramed(s: State, p: Payload)
    requires Framed(s.frames, s.wire, s.number, s.closed) && !IsTerminal(p) && !IsOpening(p)
    ensures var e := Emit(s, p); Framed(e.frames, e.wire, e.number, e.closed)
  {
    hide TallyOf, Agreement, Framed;
    if !s.closed {
      OpenWire(s);
      PlainFrames(s.frames, s.number, p);
    }
  }

  lemma CloseFramed(s: State)
    requires Framed(s.frames, s.wire, s.number, s.closed)
    ensures Framed(s.frames, s.wire, s.number, true)
  {
    hide TallyOf, Agreement;
  }

  lemma TerminalFrames(frames: seq<Frame>, number: nat, p: Payload)
    requires Framed(frames, frames, number, false) && IsTerminal(p)
    requires !p.Failed? ==> Agreement(p.output, TallyOf(frames))
    ensures var fs := frames + [Frame(number, p)]; Framed(fs, fs, number + 1, true)
  {
    hide TallyOf, Agreement;
    TallySnoc(frames, Frame(number, p));
    var fs := frames + [Frame(number, p)];
    assert forall i :: 0 <= i < |frames| ==> fs[i] == frames[i] && !IsTerminal(frames[i].payload);
    assert Add(TallyOf(frames), p) == TallyOf(frames);
    assert TallyOf(fs) == TallyOf(frames);
  }

  lemma EmitTerminal(s: State, p: Payload)
    requires Framed(s.frames, s.wire, s.number, s.closed) && IsTerminal(p)
    requires !s.closed && !p.Failed? ==> Agreement(p.output, TallyOf(s.frames))
    ensures var e := Close(Emit(s, p)); Framed(e.frames, e.wire, e.number, e.closed)
  {
    hide TallyOf, Agreement, Framed;
    if !s.closed {
      OpenWire(s);
      TerminalFrames(s.frames, s.number, p);
    }
  }

  lemma FailInv(s: State)
    requires Inv(s)
    ensures Inv(Fail(s)) && Fail(s).closed
  {
    hide Framed, Live;
    if !s.closed { EmitTerminal(s, Failed); }
  }

  // ---------------------------------------------------------------- reasoning

  /** What a step that concerns only the reasoning item leaves alone. */
  ghost predicate SameButReasoning(s: State, s': State) {
    var t, t' := TallyOf(s.frames), TallyOf(s'.frames);
    && s'.calls == s.calls && s'.text == s.text && s'.textStarted == s.textStarted && s'.tools == s.tools
    && s'.sinkOpen == s.sinkOpen
    && s.output <= s'.output && (s.reasoningFinished ==> s' == s)
    && AddedOf(t', TextKey) == AddedOf(t, TextKey) && DoneOf(t', TextKey) == DoneOf(t, TextKey)
    && DeltasOf(t', TextKey) == DeltasOf(t, TextKey) && t'.late == t.late
  }

  lemma StartReasoningCore(s: State)
    requires !s.closed && Framed(s.frames, s.wire, s.number, s.closed) && Core(s, TallyOf(s.frames))
    ensures var e := StartReasoning(s);
            && Framed(e.frames, e.wire, e.number, e.closed)
            && (!e.closed ==> Core(e, TallyOf(e.frames)) && SameButReasoning(s, e) && e.output == s.output
                              && (HasReasoning(s) ==> e.reasoningStarted) && HasReasoning(e) == HasReasoning(s)
                              && e.reasoningFinished == s.reasoningFinished)
            && (e.closed ==> !s.sinkOpen)
  {
    hide Framed, TallyOf;
    if HasReasoning(s) && !s.reasoningStarted {
      var a := s.(reasoningStarted := true);
      var p := Added(|s.output|, ReasoningItem);
      EmitFacts(a, p);
      EmitFramed(a, p);
      if s.sinkOpen { CallsKept(s.calls, s.output, TallyOf(s.frames), p); }
    }
  }

  predicate SameAt(k: Key, t: Tally, t': Tally) {
    AddedOf(t', k) == AddedOf(t, k) && DoneOf(t', k) == DoneOf(t, k) && DeltasOf(t', k) == DeltasOf(t, k)
  }

  /** Outputs that differ, if at all, by the call's own item and by items at the end. */
  ghost predicate SameBut(id: Str, output: seq<Item>, output': seq<Item>) {
    |output| <= |output'|
    && forall i :: 0 <= i < |output| ==> output'[i] == output[i] || (output[i].CallItem? && output[i].id == id)
  }

  lemma OtherFrame(t: Tally, p: Payload, id: Str)
    requires p.Added? || p.Done? ==> !p.item.CallItem?
    requires p.Delta? ==> !p.key.CallKey?
    ensures SameAt(CallKey(id), t, Add(t, p))
  {}

  lemma OtherFits(j: Str, c: Call, id: Str, output: seq<Item>, output': seq<Item>, t: Tally, t': Tally)
    requires CallFits(j, c, output, t) && j != id && SameBut(id, output, output') && SameAt(CallKey(j), t, t')
    ensures CallFits(j, c, output', t')
  {
    hide AddedOf, DoneOf, DeltasOf, Shown, CustomInput;
  }

  lemma SameFits(id: Str, c: Call, output: seq<Item>, more: seq<Item>, t: Tally, t': Tally)
    requires CallFits(id, c, output, t) && SameAt(CallKey(id), t, t')
    ensures CallFits(id, c, output + more, t')
  {
    hide AddedOf, DoneOf, DeltasOf, ItemOf, CustomInput;
  }

  lemma SameNoTrace(k: Key, t: Tally, t': Tally)
    requires SameAt(k, t, t')
    ensures NoTrace(k, t) ==> NoTrace(k, t')
  {
    hide AddedOf, DoneOf, DeltasOf;
  }

  lemma SameTally(k: Key, t: Tally)
    ensures SameAt(k, t, t)
  {}

  /** A step about one call leaves the others as they were. */
  lemma CallsButOne(calls: map<Str, Call>, output: seq<Item>, t: Tally, id: Str, c: Call, output': seq<Item>, t': Tally)
    requires CallsFit(calls, output, t) && SameBut(id, output, output')
    requires forall j :: j != id ==> SameAt(CallKey(j), t, t')
    requires CallFits(id, c, output', t')
    ensures CallsFit(calls[id := c], output', t')
  {
    hide CallFits, NoTrace, SameAt, SameBut;
    forall j | j in calls && j != id ensures CallFits(j, calls[j], output', t') {
      OtherFits(j, calls[j], id, output, output', t, t');
    }
    forall j | j !in calls && j != id ensures NoTrace(CallKey(j), t') {
      SameNoTrace(CallKey(j), t, t');
    }
  }

  lemma OutputButOne(calls: map<Str, Call>, output: seq<Item>, t: Tally, id: Str, c: Call, output': seq<Item>, t': Tally)
    requires OutputFits(calls, output, t) && (id in calls ==> c.index == calls[id].index)
    requires DoneOf(t', ReasoningKey) == DoneOf(t, ReasoningKey) && DoneOf(t', TextKey) == DoneOf(t, TextKey)
    requires forall i :: 0 <= i < |output'| ==>
                           (i < |output| && output'[i] == output[i]) || (i == c.index && output'[i].CallItem? && output'[i].id == id)
    ensures OutputFits(calls[id := c], output', t')
  {
    hide DoneOf;
  }

  /** Frames about other items do not disturb the calls. */
  lemma CallsKept(calls: map<Str, Call>, output: seq<Item>, t: Tally, p: Payload)
    requires CallsFit(calls, output, t)
    requires p.Added? || p.Done? ==> !p.item.CallItem?
    requires p.Delta? ==> !p.key.CallKey?
    ensures CallsFit(calls, output, Add(t, p))
  {
    hide Add, CallFits, NoTrace, SameAt;
    var t' := Add(t, p);
    assert output + [] == output;
    forall id: Str ensures SameAt(CallKey(id), t, t') { OtherFrame(t, p, id); }
    forall id | id in calls ensures CallFits(id, calls[id], output, t') { SameFits(id, calls[id], output, [], t, t'); }
    forall id | id !in calls ensures NoTrace(CallKey(id), t') { SameNoTrace(CallKey(id), t, t'); }
  }

  /** Items appended to the output do not disturb the calls. */
  lemma CallsExtend(calls: map<Str, Call>, output: seq<Item>, more: seq<Item>, t: Tally)
    requires CallsFit(calls, output, t)
    ensures CallsFit(calls, output + more, t)
  {
    hide CallFits, NoTrace, SameAt;
    forall id | id in calls ensures CallFits(id, calls[id], output + more, t) {
      SameTally(CallKey(id), t);
      SameFits(id, calls[id], output, more, t, t);
    }
  }

  lemma FinishReasoningCore(s: State)
    requires !s.closed && Framed(s.frames, s.wire, s.number, s.closed) && Core(s, TallyOf(s.frames))
    ensures var e := FinishReasoning(s);
            && Framed(e.frames, e.wire, e.number, e.closed)
            && (!e.closed ==> Core(e, TallyOf(e.frames)) && SameButReasoning(s, e)
                              && (s.reasoningStarted ==> e.reasoningFinished) && e.reasoningStarted == s.reasoningStarted)
            && (e.closed ==> !s.sinkOpen)
  {
    hide Framed, TallyOf;
    if s.reasoningStarted && !s.reasoningFinished {
      var p := Done(|s.output|, ReasoningItem);
      EmitFacts(s, p);
      EmitFramed(s, p);
      if s.sinkOpen {
        CallsKept(s.calls, s.output, TallyOf(s.frames), p);
        CallsExtend(s.calls, s.output, [ReasoningItem], Add(TallyOf(s.frames), p));
      }
    }
  }

  lemma FinishPendingCore(s: State)
    requires !s.closed && Framed(s.frames, s.wire, s.number, s.closed) && Core(s, TallyOf(s.frames))
    ensures var e := FinishPending(s);
            && Framed(e.frames, e.wire, e.number, e.closed)
            && (!e.closed ==> Core(e, TallyOf(e.frames)) && SameButReasoning(s, e)
                              && (e.reasoningStarted ==> e.reasoningFinished))
            && (e.closed ==> !s.sinkOpen)
  {
    hide Framed, TallyOf, Core, StartReasoning, FinishReasoning, AddedOf, DoneOf, DeltasOf;
    CoreReasoning(s);
    if HasReasoning(s) && !s.reasoningFinished {
      StartReasoningCore(s);
      var a := StartReasoning(s);
      if a.closed { ClosedStays(a); } else { FinishReasoningCore(a); }
    }
  }

  lemma CoreReasoning(s: State)
    requires Core(s, TallyOf(s.frames))
    ensures s.reasoningStarted ==> HasReasoning(s)
    ensures s.reasoningFinished ==> s.reasoningStarted
  {
    hide TallyOf, AddedOf, DoneOf, DeltasOf, CallsFit, OutputFits;
  }

  lemma ClosedStays(s: State)
    requires s.closed
    ensures FinishReasoning(s) == s && StartReasoning(s) == s && FinishPending(s) == s
  {}

  lemma ObserveInv(s: State, id: Str)
    requires Inv(s)
    ensures Inv(ObserveReasoning(s, id)) && ObserveReasoning(s, id).calls == s.calls
    ensures ObserveReasoning(s, id).tools == s.tools
  {
    hide Framed, TallyOf, StartReasoning, AddedOf, DoneOf, DeltasOf, CallsFit, OutputFits;
    if !s.closed && !s.reasoningObserved && id != [] {
      var a := s.(reasoningObserved := true);
      assert Core(a, TallyOf(a.frames));
      StartReasoningFrame(a);
      if !a.textStarted { StartReasoningCore(a); }
    }
  }

  lemma StartReasoningFrame(s: State)
    ensures StartReasoning(s).calls == s.calls && StartReasoning(s).tools == s.tools
  {}

  // ---------------------------------------------------------------- text

  lemma TextAdded(s: State)
    requires !s.closed && Framed(s.frames, s.wire, s.number, s.closed) && Live(s) && !s.textStarted
    requires s.reasoningStarted ==> s.reasoningFinished
    ensures var b := Emit(s.(textStarted := true), Added(|s.output|, TextItem([])));
            Inv(b) && (b.closed ==> !s.sinkOpen)
  {
    hide Framed, TallyOf, CallsFit, AddedOf, DoneOf, DeltasOf, Add;
    var a := s.(textStarted := true);
    var p := Added(|s.output|, TextItem([]));
    EmitFacts(a, p);
    EmitFramed(a, p);
    AddedTally(TallyOf(s.frames), |s.output|, TextItem([]));
    if s.sinkOpen { CallsKept(s.calls, s.output, TallyOf(s.frames), p); }
  }

  lemma StartTextLive(s: State)
    requires !s.closed && Framed(s.frames, s.wire, s.number, s.closed) && Live(s)
    requires s.reasoningStarted ==> s.reasoningFinished
    ensures var e := StartText(s);
            && Framed(e.frames, e.wire, e.number, e.closed) && (e.closed ==> !s.sinkOpen)
            && e.text == s.text && e.output == s.output && e.calls == s.calls
            && (!e.closed ==> Live(e) && e.textStarted)
  {
    hide Framed, TallyOf, Live, Add;
    if !s.textStarted {
      var i := |s.output|;
      TextAdded(s);
      var b := Emit(s.(textStarted := true), Added(i, TextItem([])));
      if !b.closed {
        QuietEmit(b, PartAdded(i));
        EmitFacts(b, PartAdded(i));
      }
    }
  }

  lemma DeltaLive(s: State, delta: Str)
    requires !s.closed && Framed(s.frames, s.wire, s.number, s.closed) && Live(s) && s.textStarted
    ensures var e := Emit(s, Delta(TextKey, |s.output|, delta));
            && Framed(e.frames, e.wire, e.number, e.closed) && (e.closed ==> !s.sinkOpen)
            && (!e.closed ==> Live(e.(text := e.text + delta)))
  {
    hide Framed, TallyOf;
    var p := Delta(TextKey, |s.output|, delta);
    EmitFacts(s, p);
    EmitFramed(s, p);
    if s.sinkOpen { CallsKept(s.calls, s.output, TallyOf(s.frames), p); }
  }

  lemma AppendTextInv(s: State, delta: Str)
    requires Inv(s)
    ensures var e := AppendText(s, delta);
            && Inv(e) && e.calls == s.calls && e.tools == s.tools
            && (!e.closed ==> !s.closed && e.text == s.text + delta && (delta != [] ==> e.textStarted))
  {
    hide Framed, TallyOf, Core, FinishPending, StartText, AddedOf, DoneOf, DeltasOf;
    if s.closed {
    } else if delta == [] {
      assert s.text + delta == s.text;
    } else {
      FinishPendingCore(s);
      CoreReasoning(s);
      TextFrame(s);
      var a := if s.textStarted then s else FinishPending(s);
      if a.closed {
        StartTextClosed(a);
      } else {
        StartTextLive(a);
        var b := StartText(a);
        TextFrame(a);
        if !b.closed { DeltaLive(b, delta); }
      }
    }
  }

  lemma EmitFrame(s: State, p: Payload)
    ensures var e := Emit(s, p); e.calls == s.calls && e.tools == s.tools && e.output == s.output && e.text == s.text
  {}

  lemma TextFrame(s: State)
    ensures FinishPending(s).calls == s.calls && FinishPending(s).tools == s.tools
    ensures StartText(s).calls == s.calls && StartText(s).tools == s.tools
  {
    hide Emit;
    var i := |s.output|;
    EmitFrame(s.(reasoningStarted := true), Added(i, ReasoningItem));
    var r := StartReasoning(s);
    EmitFrame(r, Done(|r.output|, ReasoningItem));
    var a := s.(textStarted := true);
    EmitFrame(a, Added(i, TextItem([])));
    EmitFrame(Emit(a, Added(i, TextItem([]))), PartAdded(i));
  }

  lemma StartTextClosed(s: State)
    requires s.closed
    ensures StartText(s) == s
  {}

  lemma AppendTextDeltaInv(s: State, id: Str, delta: Str)
    requires Inv(s)
    ensures Inv(AppendTextDelta(s, id, delta))
  {
    hide Framed, TallyOf, AddedOf, DoneOf, DeltasOf, AppendText, CallsFit, OutputFits, ReasoningFits;
    var a := s.(textMessage := if s.textMessage.Some? then s.textMessage else Some(id));
    assert Inv(a);
    AppendTextInv(a, delta);
  }

  // ---------------------------------------------------------------- calls

  lemma AddedTally(t: Tally, i: nat, item: Item)
    ensures var t', k := Add(t, Added(i, item)), KeyOf(item);
            && AddedOf(t', k) == AddedOf(t, k) + [i]
            && (forall j :: j != k ==> AddedOf(t', j) == AddedOf(t, j))
            && (forall j :: DoneOf(t', j) == DoneOf(t, j) && DeltasOf(t', j) == DeltasOf(t, j))
            && t'.late == (t.late || (item.CallItem? && AddedOf(t, TextKey) != []))
  {}

  lemma DoneTally(t: Tally, i: nat, item: Item)
    ensures var t', k := Add(t, Done(i, item)), KeyOf(item);
            && DoneOf(t', k) == DoneOf(t, k) + [(i, item)]
            && (forall j :: j != k ==> DoneOf(t', j) == DoneOf(t, j))
            && (forall j :: AddedOf(t', j) == AddedOf(t, j) && DeltasOf(t', j) == DeltasOf(t, j))
            && t'.late == t.late
  {}

  lemma DeltaTally(t: Tally, k: Key, i: nat, d: Str)
    ensures var t' := Add(t, Delta(k, i, d));
            && DeltasOf(t', k) == DeltasOf(t, k) + d
            && (forall j :: j != k ==> DeltasOf(t', j) == DeltasOf(t, j))
            && (forall j :: AddedOf(t', j) == AddedOf(t, j) && DoneOf(t', j) == DoneOf(t, j))
            && t'.late == t.late
  {}

  lemma CallAddedFits(calls: map<Str, Call>, output: seq<Item>, t: Tally, id: Str, c: Call)
    requires CallsFit(calls, output, t) && OutputFits(calls, output, t) && id !in calls
    requires c == Call(c.tool, |output|, [], [], false, false)
    ensures var item := ItemOf(id, c);
            var t' := Add(t, Added(|output|, item));
            CallsFit(calls[id := c], output + [item], t') && OutputFits(calls[id := c], output + [item], t')
  {
    hide AddedOf, DoneOf, DeltasOf, Add, CustomInput, CallsFit, OutputFits;
    var item := ItemOf(id, c);
    var t' := Add(t, Added(|output|, item));
    AddedTally(t, |output|, item);
    NewCall(calls, output, t, id);
    CallsButOne(calls, output, t, id, c, output + [item], t');
    OutputButOne(calls, output, t, id, c, output + [item], t');
  }

  lemma NewCall(calls: map<Str, Call>, output: seq<Item>, t: Tally, id: Str)
    requires CallsFit(calls, output, t) && id !in calls
    ensures NoTrace(CallKey(id), t)
  {
    hide CallFits, NoTrace;
  }

  lemma OldCall(calls: map<Str, Call>, output: seq<Item>, t: Tally, id: Str)
    requires CallsFit(calls, output, t) && id in calls
    ensures CallFits(id, calls[id], output, t)
  {
    hide CallFits, NoTrace;
  }

  /** Adding a call. */
  lemma CallAdded(s: State, id: Str, c: Call)
    requires !s.closed && Framed(s.frames, s.wire, s.number, s.closed) && Core(s, TallyOf(s.frames)) && id !in s.calls
    requires s.reasoningStarted ==> s.reasoningFinished
    requires c == Call(c.tool, |s.output|, [], [], false, false)
    ensures var item := ItemOf(id, c);
            var a := s.(calls := s.calls[id := c], output := s.output + [item]);
            var e := Emit(a, Added(|s.output|, item));
            && Framed(e.frames, e.wire, e.number, e.closed)
            && (!e.closed ==> Core(e, TallyOf(e.frames)))
  {
    hide Framed, TallyOf, CallsFit, OutputFits, AddedOf, DoneOf, Add;
    var t := TallyOf(s.frames);
    var item := ItemOf(id, c);
    var p := Added(|s.output|, item);
    var a := s.(calls := s.calls[id := c], output := s.output + [item]);
    EmitFacts(a, p);
    EmitFramed(a, p);
    AddedTally(t, |s.output|, item);
    CallAddedFits(s.calls, s.output, t, id, c);
  }

  lemma StartCallInv(s: State, id: Str, name: Str)
    requires Inv(s)
    ensures Inv(StartCall(s, id, name))
  {
    hide Framed, TallyOf, FinishPending, CallsFit, OutputFits, ReasoningFits, ItemOf;
    if !s.closed && id !in s.calls && FindTool(s.tools, name).Some? {
      FinishPendingCore(s);
      var q := FinishPending(s);
      TextFrame(s);
      var c := Call(FindTool(s.tools, name).value, |q.output|, [], [], false, false);
      var item := ItemOf(id, c);
      var a := q.(calls := q.calls[id := c], output := q.output + [item]);
      if !q.closed {
        CallAdded(q, id, c);
        var e := Emit(a, Added(|q.output|, item));
        EmitFacts(a, Added(|q.output|, item));
        if !e.closed { LateText(s, q, e, id, c); }
      }
    }
  }

  lemma LateText(s: State, q: State, e: State, id: Str, c: Call)
    requires TextFits(s, TallyOf(s.frames)) && SameButReasoning(s, q) && (q.reasoningStarted ==> q.reasoningFinished)
    requires e.text == q.text && e.textStarted == q.textStarted && |e.output| == |q.output| + 1
    requires e.reasoningStarted == q.reasoningStarted && e.reasoningFinished == q.reasoningFinished
    requires TallyOf(e.frames) == Add(TallyOf(q.frames), Added(|q.output|, ItemOf(id, c)))
    ensures TextFits(e, TallyOf(e.frames))
  {
    hide TallyOf;
  }

  lemma CallDeltaFits(calls: map<Str, Call>, output: seq<Item>, t: Tally, id: Str, c: Call, delta: Str)
    requires CallsFit(calls, output, t) && OutputFits(calls, output, t) && id in calls && !calls[id].done
    requires c == calls[id].(raw := c.raw, streamed := c.streamed, disabled := c.disabled)
    requires c.tool.kind.Function? ==> c.raw == calls[id].raw + delta
    requires c.tool.kind.Custom? ==> c.streamed == calls[id].streamed + delta
    requires !c.tool.kind.Search?
    ensures var t' := Add(t, Delta(CallKey(id), c.index, delta));
            CallsFit(calls[id := c], output, t') && OutputFits(calls[id := c], output, t')
  {
    hide AddedOf, DoneOf, DeltasOf, Add, CustomInput, CallsFit, OutputFits;
    var t' := Add(t, Delta(CallKey(id), c.index, delta));
    DeltaTally(t, CallKey(id), c.index, delta);
    OldCall(calls, output, t, id);
    CallsButOne(calls, output, t, id, c, output, t');
    OutputButOne(calls, output, t, id, c, output, t');
  }

  /** A delta of a call. */
  lemma CallDeltaCore(s: State, id: Str, c: Call, delta: Str)
    requires !s.closed && Framed(s.frames, s.wire, s.number, s.closed) && Live(s) && id in s.calls && !s.calls[id].done
    requires c == s.calls[id].(raw := c.raw, streamed := c.streamed, disabled := c.disabled)
    requires c.tool.kind.Function? ==> c.raw == s.calls[id].raw + delta
    requires c.tool.kind.Custom? ==> c.streamed == s.calls[id].streamed + delta
    requires !c.tool.kind.Search?
    ensures var e := WithCall(Emit(s, Delta(CallKey(id), c.index, delta)), id, c);
            Framed(e.frames, e.wire, e.number, e.closed) && (!e.closed ==> Live(e))
  {
    hide Framed, TallyOf, CallsFit, OutputFits, AddedOf, DoneOf, DeltasOf, Add;
    var t, p := TallyOf(s.frames), Delta(CallKey(id), c.index, delta);
    EmitFacts(s, p);
    EmitFramed(s, p);
    DeltaTally(t, CallKey(id), c.index, delta);
    CallDeltaFits(s.calls, s.output, t, id, c, delta);
  }

  /** A change of a call that the frames do not show. */
  lemma CallQuiet(s: State, id: Str, c: Call)
    requires Inv(s) && !s.closed && id in s.calls && !s.calls[id].done
    requires c == s.calls[id].(raw := c.raw, disabled := c.disabled)
    requires !c.tool.kind.Function?
    ensures Inv(WithCall(s, id, c))
  {
    hide Framed, TallyOf, CustomInput, AddedOf, DoneOf, DeltasOf;
    var t := TallyOf(s.frames);
    assert CallFits(id, s.calls[id], s.output, t);
    assert CallsFit(s.calls[id := c], s.output, t);
    assert OutputFits(s.calls[id := c], s.output, t);
  }

  lemma AppendCallDeltaInv(s: State, id: Str, delta: Str)
    requires Inv(s)
    ensures Inv(AppendCallDelta(s, id, delta))
  {
    hide Framed, Live, Partial;
    if s.closed || id !in s.calls || s.calls[id].done || delta == [] {
    } else {
      var c := s.calls[id].(raw := s.calls[id].raw + delta);
      if c.tool.kind.Function? {
        CallDeltaCore(s, id, c, delta);
        EmitWith(s, id, c, Delta(CallKey(id), c.index, delta));
      } else {
        CallQuiet(s, id, c);
        CallQuiet(s, id, c.(disabled := true));
        if c.tool.kind.Custom? {
          var input := Partial(c.raw);
          if input.Some? && IsPrefix(c.streamed, input.value) {
            var d := input.value[|c.streamed|..];
            assert input.value == c.streamed + d;
            CallDeltaCore(s, id, c.(streamed := input.value), d);
          }
        }
      }
    }
  }

  lemma EmitWith(s: State, id: Str, c: Call, p: Payload)
    ensures Emit(WithCall(s, id, c), p) == WithCall(Emit(s, p), id, c)
  {}

  lemma SealFits(calls: map<Str, Call>, output: seq<Item>, t: Tally, id: Str)
    requires CallsFit(calls, output, t) && OutputFits(calls, output, t) && id in calls && !calls[id].done
    requires calls[id].tool.kind.Custom? ==> calls[id].streamed == CustomInput(calls[id].raw)
    ensures var c := calls[id].(done := true);
            var item := ItemOf(id, c);
            var t' := Add(t, Done(c.index, item));
            && c.index < |output|
            && CallsFit(calls[id := c], output[c.index := item], t')
            && OutputFits(calls[id := c], output[c.index := item], t')
  {
    hide AddedOf, DoneOf, DeltasOf, Add, CustomInput, CallsFit, OutputFits;
    var c := calls[id].(done := true);
    var item := ItemOf(id, c);
    var t' := Add(t, Done(c.index, item));
    DoneTally(t, c.index, item);
    OldCall(calls, output, t, id);
    CallsButOne(calls, output, t, id, c, output[c.index := item], t');
    OutputButOne(calls, output, t, id, c, output[c.index := item], t');
  }

  lemma SealReasoning(output: seq<Item>, t: Tally, i: nat, item: Item, started: bool, finished: bool)
    requires ReasoningFits(output, t, started, finished) && i < |output| && output[i].CallItem? && item.CallItem?
    ensures ReasoningFits(output[i := item], Add(t, Done(i, item)), started, finished)
  {
    hide AddedOf, DoneOf, Add;
    DoneTally(t, i, item);
  }

  /** Frames that only repeat values. */
  lemma QuietEmit(s: State, p: Payload)
    requires Inv(s) && !s.closed && (p.ValueDone? || p.PartDone? || p.PartAdded?)
    ensures Inv(Emit(s, p))
    ensures Emit(s, p).closed || TallyOf(Emit(s, p).frames) == TallyOf(s.frames)
  {
    hide Framed, TallyOf, CallsFit, OutputFits, ReasoningFits, TextFits;
    EmitFacts(s, p);
    EmitFramed(s, p);
    assert Add(TallyOf(s.frames), p) == TallyOf(s.frames);
    if s.sinkOpen { assert TextFits(Emit(s, p), TallyOf(s.frames)) by { TextFitsSame(s, Emit(s, p), TallyOf(s.frames)); } }
  }

  lemma TextFitsSame(s: State, e: State, t: Tally)
    requires TextFits(s, t) && e.text == s.text && e.textStarted == s.textStarted && |e.output| == |s.output|
    requires e.reasoningStarted == s.reasoningStarted && e.reasoningFinished == s.reasoningFinished
    ensures TextFits(e, t)
  {}

  lemma SealInv(s: State, id: Str)
    requires Inv(s) && !s.closed && id in s.calls && !s.calls[id].done
    requires s.calls[id].tool.kind.Custom? ==> s.calls[id].streamed == CustomInput(s.calls[id].raw)
    ensures Inv(SealCall(s, id))
  {
    hide Framed, TallyOf, CallsFit, OutputFits, ReasoningFits, TextFits, Add, ItemOf, Emit, Shown;
    var c := s.calls[id].(done := true);
    var item := ItemOf(id, c);
    var p := ValueDone(CallKey(id), c.index, Shown(c.tool.kind, c.raw));
    var a := if c.tool.kind.Search? then s else Emit(s, p);
    EmitFrame(s, p);
    if !c.tool.kind.Search? { QuietEmit(s, p); }
    var b := a.(output := SetItem(a.output, c.index, item));
    if a.closed {
      EmitClosed(b, Done(c.index, item));
    } else {
      var t := TallyOf(a.frames);
      CallFitsOf(a, id);
      SealFits(a.calls, a.output, t, id);
      ItemIsCall(id, c);
      SealReasoning(a.output, t, c.index, item, a.reasoningStarted, a.reasoningFinished);
      EmitFacts(b, Done(c.index, item));
      EmitFramed(b, Done(c.index, item));
      EmitFlags(b, Done(c.index, item));
      EmitFrame(b, Done(c.index, item));
      var e := SealCall(s, id);
      if !e.closed { SealText(a, e, t, c.index, item); }
    }
  }

  lemma EmitClosed(s: State, p: Payload)
    requires s.closed
    ensures Emit(s, p) == s
  {}

  lemma EmitFlags(s: State, p: Payload)
    ensures var e := Emit(s, p);
            && e.reasoningStarted == s.reasoningStarted && e.reasoningFinished == s.reasoningFinished
            && e.textStarted == s.textStarted && HasReasoning(e) == HasReasoning(s)
  {}

  lemma CallFitsOf(s: State, id: Str)
    requires Core(s, TallyOf(s.frames)) && id in s.calls
    ensures s.calls[id].index < |s.output| && s.output[s.calls[id].index] == ItemOf(id, s.calls[id])
    ensures s.output[s.calls[id].index].CallItem?
  {
    hide TallyOf, CustomInput;
    assert CallFits(id, s.calls[id], s.output, TallyOf(s.frames));
  }

  lemma ItemIsCall(id: Str, c: Call)
    ensures ItemOf(id, c).CallItem?
  {}

  lemma SealText(a: State, e: State, t: Tally, i: nat, item: Item)
    requires TextFits(a, t) && item.CallItem? && TallyOf(e.frames) == Add(t, Done(i, item))
    requires e.text == a.text && e.textStarted == a.textStarted && |e.output| == |a.output|
    requires e.reasoningStarted == a.reasoningStarted && e.reasoningFinished == a.reasoningFinished
    ensures TextFits(e, TallyOf(e.frames))
  {
    hide TallyOf, AddedOf, DoneOf, DeltasOf, Add;
    DoneTally(t, i, item);
  }

  lemma StreamRestInv(s: State, id: Str)
    requires Inv(s) && !s.closed && id in s.calls && !s.calls[id].done && s.calls[id].tool.kind.Custom?
    requires IsPrefix(s.calls[id].streamed, CustomInput(s.calls[id].raw))
    ensures var e := StreamRest(s, id);
            && Inv(e) && id in e.calls && e.calls[id] == s.calls[id].(streamed := CustomInput(s.calls[id].raw))
  {
    hide Framed, Live, CustomInput, Emit;
    var c := s.calls[id];
    var value := CustomInput(c.raw);
    var d := value[|c.streamed|..];
    assert value == c.streamed + d;
    if |value| > |c.streamed| { CallDeltaCore(s, id, c.(streamed := value), d); }
  }

  lemma SealClosed(s: State, id: Str)
    requires s.closed && id in s.calls
    ensures var e := SealCall(s, id); e.closed && e.frames == s.frames && e.wire == s.wire && e.number == s.number
    ensures id in SealCall(s, id).calls
  {
    hide ItemOf, Shown;
  }

  lemma FinishCallInv(s: State, id: Str)
    requires Inv(s)
    ensures var e := FinishCall(s, id);
            && Inv(e)
            && (!e.closed && id in s.calls ==> id in e.calls && e.calls[id].done && e.calls[id].raw == s.calls[id].raw
                                               && e.calls[id].tool == s.calls[id].tool)
  {
    hide Framed, Live, CustomInput, SealCall, StreamRest, Fail;
    if !s.closed && id in s.calls && !s.calls[id].done {
      var c := s.calls[id];
      if c.tool.kind.Custom? {
        if !IsPrefix(c.streamed, CustomInput(c.raw)) {
          FailInv(s);
        } else {
          StreamRestInv(s, id);
          var a := StreamRest(s, id);
          if a.closed { SealClosed(a, id); } else { SealInv(a, id); }
          SealResult(a, id);
        }
      } else {
        SealInv(s, id);
        SealResult(s, id);
      }
    }
  }

  lemma SealResult(s: State, id: Str)
    requires id in s.calls
    ensures var e := SealCall(s, id); id in e.calls && e.calls[id] == s.calls[id].(done := true)
  {
    hide ItemOf, Shown, Emit;
  }

  // ---------------------------------------------------------------- reconciling

  predicate KeepsOthers(s: State, e: State, id: Str) {
    e.tools == s.tools
    && (forall j <- s.calls :: j in e.calls && (j != id ==> e.calls[j] == s.calls[j]))
    && (forall j <- e.calls :: j in s.calls || j == id)
  }

  lemma StartKeeps(s: State, id: Str, name: Str)
    ensures KeepsOthers(s, StartCall(s, id, name), id)
    ensures id in s.calls ==> StartCall(s, id, name) == s
  {
    hide Emit, FinishPending, ItemOf;
    TextFrame(s);
    if !s.closed && id !in s.calls && FindTool(s.tools, name).Some? {
      var p := FinishPending(s);
      var call := Call(FindTool(s.tools, name).value, |p.output|, [], [], false, false);
      var item := ItemOf(id, call);
      EmitFrame(p.(calls := p.calls[id := call], output := p.output + [item]), Added(|p.output|, item));
    }
  }

  lemma WithKeeps(s: State, e: State, id: Str, c: Call)
    requires e.calls == s.calls && e.tools == s.tools && id in s.calls
    ensures KeepsOthers(s, WithCall(e, id, c), id) && id in WithCall(e, id, c).calls && WithCall(e, id, c).calls[id] == c
  {}

  lemma DeltaKeeps(s: State, id: Str, delta: Str)
    ensures var e := AppendCallDelta(s, id, delta);
            && KeepsOthers(s, e, id)
            && (id in s.calls && !s.closed && !s.calls[id].done ==>
                  e.calls[id].raw == s.calls[id].raw + delta && e.calls[id].tool == s.calls[id].tool)
  {
    hide Emit, Partial, KeepsOthers, WithCall;
    NothingChanged(s, id);
    if !s.closed && id in s.calls && !s.calls[id].done {
      if delta == [] {
        assert s.calls[id].raw + delta == s.calls[id].raw;
      } else {
        var c := s.calls[id].(raw := s.calls[id].raw + delta);
        WithKeeps(s, s, id, c);
        WithKeeps(s, s, id, c.(disabled := true));
        if c.tool.kind.Function? {
          var p := Delta(CallKey(id), c.index, delta);
          EmitWith(s, id, c, p);
          EmitFrame(s, p);
          WithKeeps(s, Emit(s, p), id, c);
        } else if c.tool.kind.Custom? {
          var input := Partial(c.raw);
          if input.Some? && |input.value| >= |c.streamed| {
            var p := Delta(CallKey(id), c.index, input.value[|c.streamed|..]);
            EmitFrame(s, p);
            WithKeeps(s, Emit(s, p), id, c.(streamed := input.value));
          }
        }
      }
    }
  }

  lemma NothingChanged(s: State, id: Str)
    ensures KeepsOthers(s, s, id)
  {}

  lemma FinishKeeps(s: State, id: Str)
    ensures KeepsOthers(s, FinishCall(s, id), id)
  {
    hide Emit, CustomInput, SealCall, StreamRest;
    EmitFrame(s, Failed);
    if !s.closed && id in s.calls && !s.calls[id].done {
      var c := s.calls[id];
      SealKeeps(s, id);
      if c.tool.kind.Custom? && IsPrefix(c.streamed, CustomInput(c.raw)) {
        RestKeeps(s, id);
        SealKeeps(StreamRest(s, id), id);
      }
    }
  }

  lemma RestKeeps(s: State, id: Str)
    requires id in s.calls && IsPrefix(s.calls[id].streamed, CustomInput(s.calls[id].raw))
    ensures KeepsOthers(s, StreamRest(s, id), id) && id in StreamRest(s, id).calls
  {
    hide Emit, CustomInput;
    var c := s.calls[id];
    var value := CustomInput(c.raw);
    EmitFrame(s, Delta(CallKey(id), c.index, value[|c.streamed|..]));
  }

  lemma SealKeeps(s: State, id: Str)
    requires id in s.calls
    ensures KeepsOthers(s, SealCall(s, id), id)
  {
    hide Emit, ItemOf, Shown;
    var c := s.calls[id].(done := true);
    var item := ItemOf(id, c);
    EmitFrame(s, ValueDone(CallKey(id), c.index, Shown(c.tool.kind, c.raw)));
    var a := if c.tool.kind.Search? then s else Emit(s, ValueDone(CallKey(id), c.index, Shown(c.tool.kind, c.raw)));
    EmitFrame(a.(output := SetItem(a.output, c.index, item)), Done(c.index, item));
  }

  /** A final call stands in the stream, finished, with exactly its arguments. */
  predicate Settled(s: State, c: FinalCall) {
    c.id in s.calls && s.calls[c.id].done && s.calls[c.id].raw == c.arguments && s.calls[c.id].tool.wireName == c.name
  }

  lemma ReconcileOneInv(s: State, c: FinalCall)
    requires Inv(s)
    ensures var (a, ok) := ReconcileOne(s, c);
            && Inv(a) && KeepsOthers(s, a, c.id) && (ok && !a.closed ==> Settled(a, c))
  {
    hide Inv, StartCall, AppendCallDelta, FinishCall;
    var a := if c.id in s.calls then s else StartCall(s, c.id, c.name);
    StartCallInv(s, c.id, c.name);
    StartKeeps(s, c.id, c.name);
    if c.id in a.calls && a.calls[c.id].tool.wireName == c.name && !a.calls[c.id].done && IsPrefix(a.calls[c.id].raw, c.arguments) {
      var d := c.arguments[|a.calls[c.id].raw|..];
      assert c.arguments == a.calls[c.id].raw + d;
      AppendCallDeltaInv(a, c.id, d);
      DeltaKeeps(a, c.id, d);
      var b := AppendCallDelta(a, c.id, d);
      FinishCallInv(b, c.id);
      FinishKeeps(b, c.id);
      if a.closed { AllClosed(a, c.id, d); }
      if b.closed { AllClosed(b, c.id, d); }
    }
  }

  lemma AllClosed(s: State, id: Str, d: Str)
    requires s.closed
    ensures AppendCallDelta(s, id, d) == s && FinishCall(s, id) == s
  {}

  lemma {:induction false} ReconcileFromInv(s: State, calls: seq<FinalCall>, seen: set<Str>)
    requires Inv(s)
    ensures var (a, ok) := ReconcileFrom(s, calls, seen);
            && Inv(a) && a.tools == s.tools
            && (forall id <- s.calls :: id in a.calls)
            && (ok ==> (forall id <- s.calls :: id in seen ==> a.calls[id] == s.calls[id]))
            && (ok && !a.closed ==> (forall c <- calls :: Settled(a, c))
                                    && (forall id <- a.calls :: id in seen || exists c <- calls :: c.id == id))
    decreases |calls|
  {
    hide Inv, ReconcileOne;
    if calls != [] && calls[0].id !in seen {
      var c := calls[0];
      ReconcileOneInv(s, c);
      var r := ReconcileOne(s, c);
      if r.1 {
        ReconcileFromInv(r.0, calls[1..], seen + {c.id});
        var q := ReconcileFrom(r.0, calls[1..], seen + {c.id});
        if q.1 && !q.0.closed {
          StillOpen(r.0, calls[1..], seen + {c.id});
          assert q.0.calls[c.id] == r.0.calls[c.id];
          forall id | id in q.0.calls ensures id in seen || exists x <- calls :: x.id == id {
            if id !in seen {
              if id == c.id {
                assert c in calls;
              } else {
                var x :| x in calls[1..] && x.id == id;
                assert x in calls;
              }
            }
          }
        }
      }
    }
  }

  lemma {:induction false} StillOpen(s: State, calls: seq<FinalCall>, seen: set<Str>)
    ensures s.closed ==> ReconcileFrom(s, calls, seen).0.closed
    decreases |calls|
  {
    hide ReconcileOne;
    if calls != [] && s.closed {
      OneClosed(s, calls[0]);
      StillOpen(ReconcileOne(s, calls[0]).0, calls[1..], seen + {calls[0].id});
    }
  }

  lemma OneClosed(s: State, c: FinalCall)
    requires s.closed
    ensures ReconcileOne(s, c).0 == s
  {
    assert StartCall(s, c.id, c.name) == s;
    if c.id in s.calls && IsPrefix(s.calls[c.id].raw, c.arguments) { AllClosed(s, c.id, c.arguments[|s.calls[c.id].raw|..]); }
  }

  // ---------------------------------------------------------------- the end of a turn

  /** The text item, once its values are final. */
  predicate TextEnded(s: State, t: Tally) {
    var a, d := AddedOf(t, TextKey), DoneOf(t, TextKey);
    if s.textStarted then
      && |a| == 1 && |d| == 1 && d[0].0 < |s.output| && d[0].1 == s.output[d[0].0] == TextItem(s.text)
      && (a[0] == d[0].0 <==> !t.late) && DeltasOf(t, TextKey) == s.text
    else a == [] && d == [] && s.text == [] && !t.late
  }

  ghost predicate Ended(s: State) {
    Core(s, TallyOf(s.frames)) && TextEnded(s, TallyOf(s.frames))
  }

  lemma FinishTextEnds(s: State)
    requires Inv(s) && !s.closed && s.textStarted
    ensures var e := FinishText(s);
            && Framed(e.frames, e.wire, e.number, e.closed) && e.calls == s.calls && e.tools == s.tools
            && e.text == s.text && e.textStarted == s.textStarted
            && (!e.closed ==> Ended(e))
  {
    hide Framed, TallyOf, CallsFit, OutputFits, ReasoningFits, TextFits, Emit, Add;
    var i, item := |s.output|, TextItem(s.text);
    var p1, p2, p := ValueDone(TextKey, i, s.text), PartDone(i, s.text), Done(i, item);
    QuietEmit(s, p1);
    EmitFrame(s, p1);
    EmitFlags(s, p1);
    var a := Emit(s, p1);
    EmitFrame(a, p2);
    EmitFlags(a, p2);
    var b := Emit(a, p2);
    EmitFrame(b, p);
    EmitFlags(b, p);
    if a.closed {
      EmitClosed(a, p2);
      EmitClosed(b, p);
    } else {
      QuietEmit(a, p2);
      if b.closed {
        EmitClosed(b, p);
      } else {
        EmitFacts(b, p);
        EmitFramed(b, p);
        var e := FinishText(s);
        if !e.closed { TextDone(b, e, TallyOf(b.frames), item); }
      }
    }
  }

  lemma TextDone(b: State, e: State, t: Tally, item: Item)
    requires Core(b, t) && TextFits(b, t) && b.textStarted && item == TextItem(b.text) && t == TallyOf(b.frames)
    requires TallyOf(e.frames) == Add(t, Done(|b.output|, item)) && e.output == b.output + [item]
    requires e.calls == b.calls && e.text == b.text && e.textStarted == b.textStarted
    requires e.reasoningStarted == b.reasoningStarted && e.reasoningFinished == b.reasoningFinished
    requires HasReasoning(e) == HasReasoning(b)
    ensures Ended(e)
  {
    hide TallyOf, CallsFit, AddedOf, DoneOf, DeltasOf, Add;
    DoneTally(t, |b.output|, item);
    CallsKept(b.calls, b.output, t, Done(|b.output|, item));
    CallsExtend(b.calls, b.output, [item], Add(t, Done(|b.output|, item)));
  }

  lemma NoTextEnds(s: State)
    requires Live(s) && !s.textStarted
    ensures Ended(s)
  {
    hide TallyOf, Core;
  }

  lemma PendingEnds(s: State)
    requires Framed(s.frames, s.wire, s.number, s.closed) && !s.closed && Ended(s)
    ensures var e := FinishPending(s);
            && Framed(e.frames, e.wire, e.number, e.closed)
            && (!e.closed ==> Ended(e) && (e.reasoningStarted ==> e.reasoningFinished))
            && e.calls == s.calls && (!e.closed ==> e.text == s.text && e.textStarted == s.textStarted)
  {
    hide Framed, TallyOf, Core, FinishPending, AddedOf, DoneOf, DeltasOf;
    FinishPendingCore(s);
    TextFrame(s);
  }

  predicate AllDone(s: State) {
    forall id <- s.calls :: s.calls[id].done
  }

  lemma EndAgreement(s: State)
    requires Ended(s) && AllDone(s) && (s.reasoningStarted ==> s.reasoningFinished)
    ensures Agreement(s.output, TallyOf(s.frames))
  {
    hide TallyOf, AddedOf, DoneOf, DeltasOf, CustomInput;
    var t := TallyOf(s.frames);
    forall i | 0 <= i < |s.output|
      ensures |AddedOf(t, KeyOf(s.output[i]))| == 1
      ensures DoneOf(t, KeyOf(s.output[i])) == [(i, s.output[i])]
      ensures DeltasAgree(t, s.output[i])
      ensures !s.output[i].TextItem? ==> AddedOf(t, KeyOf(s.output[i])) == [i]
      ensures s.output[i].TextItem? ==> (AddedOf(t, KeyOf(s.output[i])) == [i] <==> !t.late)
    {
      EndItem(s, t, i);
    }
    if s.textStarted {
      var j := DoneOf(t, TextKey)[0].0;
      assert s.output[j].TextItem?;
    }
    forall k | AddedOf(t, k) != [] ensures exists i :: 0 <= i < |s.output| && KeyOf(s.output[i]) == k {
      EndKey(s, t, k);
    }
  }

  lemma EndItem(s: State, t: Tally, i: nat)
    requires Core(s, t) && TextEnded(s, t) && AllDone(s) && (s.reasoningStarted ==> s.reasoningFinished)
    requires i < |s.output|
    ensures |AddedOf(t, KeyOf(s.output[i]))| == 1
    ensures DoneOf(t, KeyOf(s.output[i])) == [(i, s.output[i])]
    ensures DeltasAgree(t, s.output[i])
    ensures !s.output[i].TextItem? ==> AddedOf(t, KeyOf(s.output[i])) == [i]
    ensures s.output[i].TextItem? ==> (AddedOf(t, KeyOf(s.output[i])) == [i] <==> !t.late)
  {
    hide AddedOf, DoneOf, DeltasOf, CustomInput;
    match s.output[i] {
      case ReasoningItem =>
      case TextItem(_) =>
      case CallItem(id, _, _, _) =>
        assert CallFits(id, s.calls[id], s.output, t);
    }
  }

  lemma EndKey(s: State, t: Tally, k: Key)
    requires Core(s, t) && TextEnded(s, t) && (s.reasoningStarted ==> s.reasoningFinished) && AddedOf(t, k) != []
    ensures exists i :: 0 <= i < |s.output| && KeyOf(s.output[i]) == k
  {
    hide AddedOf, DoneOf, DeltasOf, CustomInput;
    match k {
      case ReasoningKey =>
        assert KeyOf(s.output[AddedOf(t, k)[0]]) == k;
      case TextKey =>
        assert KeyOf(s.output[DoneOf(t, k)[0].0]) == k;
      case CallKey(id) =>
        assert id !in s.calls ==> NoTrace(CallKey(id), t);
        assert CallFits(id, s.calls[id], s.output, t);
        assert KeyOf(s.output[s.calls[id].index]) == k;
    }
  }

  /** What a finished response says, given the calls and the text of the turn's result. */
  ghost predicate Answers(output: seq<Item>, calls: map<Str, Call>, text: Str) {
    && (forall id <- calls :: calls[id].index < |output| && output[calls[id].index] == ItemOf(id, calls[id]))
    && (forall i :: 0 <= i < |output| ==>
          match output[i] {
            case ReasoningItem => true
            case TextItem(x) => x == text
            case CallItem(id, _, _, _) => id in calls && output[i] == ItemOf(id, calls[id])
          })
    && (text != [] ==> exists i :: 0 <= i < |output| && output[i] == TextItem(text))
  }

  lemma EndAnswers(s: State)
    requires Ended(s)
    ensures Answers(s.output, s.calls, s.text)
  {
    hide TallyOf, AddedOf, DoneOf, DeltasOf, CustomInput;
    var t := TallyOf(s.frames);
    forall id | id in s.calls ensures s.calls[id].index < |s.output| && s.output[s.calls[id].index] == ItemOf(id, s.calls[id]) {
      assert CallFits(id, s.calls[id], s.output, t);
    }
    forall i | 0 <= i < |s.output| && s.output[i].CallItem?
      ensures s.output[i].id in s.calls && s.output[i] == ItemOf(s.output[i].id, s.calls[s.output[i].id])
    {
      assert CallFits(s.output[i].id, s.calls[s.output[i].id], s.output, t);
    }
    if s.text != [] {
      assert s.output[DoneOf(t, TextKey)[0].0] == TextItem(s.text);
    }
  }

  /** The last frame of a concluded turn. */
  function LastPayload(s: State): Payload {
    if s.frames == [] then Created else s.frames[|s.frames| - 1].payload
  }

  function OutputOf(p: Payload): seq<Item> {
    match p
    case Completed(o) => o
    case Incomplete(o) => o
    case _ => []
  }

  predicate IsAnswer(p: Payload) { p.Completed? || p.Incomplete? }

  /** No frame, delivered or not, carries an output. */
  predicate Unanswered(fs: seq<Frame>, wire: seq<Frame>) {
    (forall f <- fs :: !IsAnswer(f.payload)) && (forall f <- wire :: !IsAnswer(f.payload))
  }

  lemma EmitUnanswered(s: State, p: Payload)
    requires Unanswered(s.frames, s.wire) && !p.Completed? && !p.Incomplete?
    ensures Unanswered(Emit(s, p).frames, Emit(s, p).wire)
  {}

  lemma UnansweredLast(s: State)
    requires Unanswered(s.frames, s.wire)
    ensures !LastPayload(s).Completed? && !LastPayload(s).Incomplete?
  {}

  lemma OpenUnanswered(s: State)
    requires Framed(s.frames, s.wire, s.number, s.closed) && !s.closed
    ensures Unanswered(s.frames, s.wire)
  {
    hide TallyOf, Agreement;
  }

  lemma TextUnanswered(s: State, delta: Str)
    requires Unanswered(s.frames, s.wire)
    ensures Unanswered(FinishPending(s).frames, FinishPending(s).wire) && Unanswered(StartReasoning(s).frames, StartReasoning(s).wire)
    ensures Unanswered(StartText(s).frames, StartText(s).wire) && Unanswered(AppendText(s, delta).frames, AppendText(s, delta).wire)
    ensures Unanswered(Fail(s).frames, Fail(s).wire)
  {
    hide Emit, Unanswered;
    PendingUnanswered(s);
    var q := if s.textStarted then s else FinishPending(s);
    StartTextUnanswered(s);
    StartTextUnanswered(q);
    var b := StartText(q);
    EmitUnanswered(b, Delta(TextKey, |b.output|, delta));
    EmitUnanswered(s, Failed);
  }

  lemma PendingUnanswered(s: State)
    requires Unanswered(s.frames, s.wire)
    ensures Unanswered(FinishPending(s).frames, FinishPending(s).wire) && Unanswered(StartReasoning(s).frames, StartReasoning(s).wire)
  {
    hide Emit, Unanswered;
    EmitUnanswered(s.(reasoningStarted := true), Added(|s.output|, ReasoningItem));
    var r := StartReasoning(s);
    EmitUnanswered(r, Done(|r.output|, ReasoningItem));
  }

  lemma StartTextUnanswered(s: State)
    requires Unanswered(s.frames, s.wire)
    ensures Unanswered(StartText(s).frames, StartText(s).wire)
  {
    hide Emit, Unanswered;
    var i, a := |s.output|, s.(textStarted := true);
    EmitUnanswered(a, Added(i, TextItem([])));
    EmitUnanswered(Emit(a, Added(i, TextItem([]))), PartAdded(i));
  }

  lemma FinishTextUnanswered(s: State)
    requires Unanswered(s.frames, s.wire)
    ensures Unanswered(FinishText(s).frames, FinishText(s).wire)
  {
    hide Emit, Unanswered;
    var i := |s.output|;
    EmitUnanswered(s, ValueDone(TextKey, i, s.text));
    var a := Emit(s, ValueDone(TextKey, i, s.text));
    EmitUnanswered(a, PartDone(i, s.text));
    EmitUnanswered(Emit(a, PartDone(i, s.text)), Done(i, TextItem(s.text)));
  }

  lemma StartCallUnanswered(s: State, id: Str, name: Str)
    requires Unanswered(s.frames, s.wire)
    ensures Unanswered(StartCall(s, id, name).frames, StartCall(s, id, name).wire)
  {
    hide Emit, Unanswered, FinishPending, ItemOf;
    PendingUnanswered(s);
    if !s.closed && id !in s.calls && FindTool(s.tools, name).Some? {
      var p := FinishPending(s);
      var call := Call(FindTool(s.tools, name).value, |p.output|, [], [], false, false);
      var item := ItemOf(id, call);
      EmitUnanswered(p.(calls := p.calls[id := call], output := p.output + [item]), Added(|p.output|, item));
    }
  }

  lemma CallDeltaUnanswered(s: State, id: Str, delta: Str)
    requires Unanswered(s.frames, s.wire)
    ensures Unanswered(AppendCallDelta(s, id, delta).frames, AppendCallDelta(s, id, delta).wire)
  {
    hide Emit, Unanswered, Partial;
    if !s.closed && id in s.calls {
      var c := s.calls[id].(raw := s.calls[id].raw + delta);
      EmitUnanswered(WithCall(s, id, c), Delta(CallKey(id), c.index, delta));
      var input := Partial(c.raw);
      if input.Some? && |c.streamed| <= |input.value| {
        EmitUnanswered(s, Delta(CallKey(id), c.index, input.value[|c.streamed|..]));
      }
    }
  }

  lemma SealUnanswered(s: State, id: Str)
    requires Unanswered(s.frames, s.wire) && id in s.calls
    ensures Unanswered(SealCall(s, id).frames, SealCall(s, id).wire)
  {
    hide Emit, Unanswered, ItemOf, Shown;
    var c := s.calls[id].(done := true);
    var item := ItemOf(id, c);
    EmitUnanswered(s, ValueDone(CallKey(id), c.index, Shown(c.tool.kind, c.raw)));
    var a := if c.tool.kind.Search? then s else Emit(s, ValueDone(CallKey(id), c.index, Shown(c.tool.kind, c.raw)));
    EmitUnanswered(a.(output := SetItem(a.output, c.index, item)), Done(c.index, item));
  }

  lemma FinishCallUnanswered(s: State, id: Str)
    requires Unanswered(s.frames, s.wire)
    ensures Unanswered(FinishCall(s, id).frames, FinishCall(s, id).wire)
  {
    hide Emit, Unanswered, SealCall, CustomInput;
    EmitUnanswered(s, Failed);
    if !s.closed && id in s.calls {
      var c := s.calls[id];
      SealUnanswered(s, id);
      if IsPrefix(c.streamed, CustomInput(c.raw)) {
        EmitUnanswered(s, Delta(CallKey(id), c.index, CustomInput(c.raw)[|c.streamed|..]));
        RestKeeps(s, id);
        SealUnanswered(StreamRest(s, id), id);
      }
    }
  }

  lemma ReconcileOneUnanswered(s: State, c: FinalCall)
    requires Unanswered(s.frames, s.wire)
    ensures Unanswered(ReconcileOne(s, c).0.frames, ReconcileOne(s, c).0.wire)
  {
    hide Unanswered, StartCall, AppendCallDelta, FinishCall;
    StartCallUnanswered(s, c.id, c.name);
    var a := if c.id in s.calls then s else StartCall(s, c.id, c.name);
    if c.id in a.calls && IsPrefix(a.calls[c.id].raw, c.arguments) {
      var d := c.arguments[|a.calls[c.id].raw|..];
      CallDeltaUnanswered(a, c.id, d);
      FinishCallUnanswered(AppendCallDelta(a, c.id, d), c.id);
    }
  }

  lemma {:induction false} ReconcileUnanswered(s: State, calls: seq<FinalCall>, seen: set<Str>)
    requires Unanswered(s.frames, s.wire)
    ensures Unanswered(ReconcileFrom(s, calls, seen).0.frames, ReconcileFrom(s, calls, seen).0.wire)
    decreases |calls|
  {
    hide Unanswered, ReconcileOne;
    if calls != [] && calls[0].id !in seen {
      ReconcileOneUnanswered(s, calls[0]);
      ReconcileUnanswered(ReconcileOne(s, calls[0]).0, calls[1..], seen + {calls[0].id});
    }
  }

  lemma ConcludeInv(s: State, text: Str, incomplete: bool)
    requires Inv(s) && AllDone(s) && !s.closed
    ensures var e := Conclude(s, text, incomplete);
            && Inv(e) && e.closed
            && (LastPayload(e).Completed? || LastPayload(e).Incomplete? ==>
                  (LastPayload(e).Incomplete? <==> incomplete) && IsPrefix(s.text, text)
                  && Answers(OutputOf(LastPayload(e)), s.calls, text))
  {
    hide Framed, TallyOf, Core, FinishPending, FinishText, AppendText, Emit, TextFits, TextEnded, Agreement, Answers, Fail,
      LastPayload, Unanswered;
    OpenUnanswered(s);
    if !IsPrefix(s.text, text) {
      FailInv(s);
      TextUnanswered(s, []);
      UnansweredLast(Fail(s));
    } else {
      var rest := text[|s.text|..];
      assert text == s.text + rest;
      AppendTextInv(s, rest);
      TextUnanswered(s, rest);
      var a := AppendText(s, rest);
      if a.closed {
        UnansweredLast(a);
      } else {
        ConcludeOpen(a, incomplete);
      }
    }
  }

  lemma ConcludeOpen(a: State, incomplete: bool)
    requires Inv(a) && AllDone(a) && !a.closed
    ensures var b := FinishPending(if a.textStarted then FinishText(a) else a);
            var e := Close(Emit(b, if incomplete then Incomplete(b.output) else Completed(b.output)));
            && Inv(e)
            && (LastPayload(e).Completed? || LastPayload(e).Incomplete? ==>
                  (LastPayload(e).Incomplete? <==> incomplete)
                  && Answers(OutputOf(LastPayload(e)), a.calls, a.text))
  {
    hide Framed, TallyOf, Core, FinishPending, FinishText, Emit, TextFits, TextEnded, Agreement, Answers, LastPayload,
      Unanswered;
    OpenUnanswered(a);
    FinishTextUnanswered(a);
    if a.textStarted { FinishTextEnds(a); } else { NoTextEnds(a); }
    var f := if a.textStarted then FinishText(a) else a;
    if f.closed { ClosedStays(f); } else { PendingEnds(f); }
    PendingUnanswered(f);
    var b := FinishPending(f);
    var p := if incomplete then Incomplete(b.output) else Completed(b.output);
    if !b.closed {
      EndAgreement(b);
      EndAnswers(b);
    }
    EmitTerminal(b, p);
    EmitLast(b, p);
  }

  lemma EmitLast(b: State, p: Payload)
    requires Unanswered(b.frames, b.wire)
    ensures var q := LastPayload(Close(Emit(b, p)));
            q.Completed? || q.Incomplete? ==> q == p && !b.closed
  {}

  // ---------------------------------------------------------------- a turn's result

  /** The output shows exactly the calls, with their arguments, and the text. */
  ghost predicate ResultShown(output: seq<Item>, calls: seq<FinalCall>, text: Str) {
    && (forall c <- calls :: exists i :: 0 <= i < |output| && Shows(output[i], c))
    && (forall i :: 0 <= i < |output| ==>
          match output[i] {
            case ReasoningItem => true
            case TextItem(x) => x == text
            case CallItem(id, _, _, _) => exists c <- calls :: c.id == id
          })
    && (text != [] ==> TextItem(text) in output)
  }

  predicate Shows(item: Item, c: FinalCall) {
    item.CallItem? && item.id == c.id && item.done && item.shown == Shown(item.kind, c.arguments)
  }

  lemma AnswersShown(output: seq<Item>, s: State, calls: seq<FinalCall>, text: Str)
    requires Answers(output, s.calls, text)
    requires (forall c <- calls :: Settled(s, c)) && (forall id <- s.calls :: exists c <- calls :: c.id == id)
    ensures ResultShown(output, calls, text)
  {
    hide Shown;
    forall c | c in calls ensures exists i :: 0 <= i < |output| && Shows(output[i], c) {
      assert Settled(s, c);
      assert Shows(output[s.calls[c.id].index], c);
    }
  }

  lemma SettledDone(s: State, calls: seq<FinalCall>)
    requires (forall c <- calls :: Settled(s, c)) && (forall id <- s.calls :: exists c <- calls :: c.id == id)
    ensures AllDone(s)
  {
    forall id | id in s.calls ensures s.calls[id].done {
      var c :| c in calls && c.id == id;
      assert Settled(s, c);
    }
  }

  /** Reconciling an open stream. */
  lemma ReconcileInv(s: State, r: Result)
    requires Inv(s)
    ensures var a := if r.reasoning != [] then ObserveReasoning(s, r.reasoning) else s;
            var (b, ok) := Reconcile(a, KnownCalls(r.calls, s.tools));
            && Inv(b) && (!s.closed ==> Unanswered(b.frames, b.wire))
            && (ok && !b.closed ==> var calls := KnownCalls(r.calls, s.tools);
                                    && (forall c <- calls :: Settled(b, c))
                                    && (forall id <- b.calls :: exists c <- calls :: c.id == id))
  {
    hide Inv, ReconcileFrom, ObserveReasoning, Unanswered, KnownCalls, Settled;
    ObserveInv(s, r.reasoning);
    ObserveLast(s, r.reasoning);
    InvLast(s);
    var a := if r.reasoning != [] then ObserveReasoning(s, r.reasoning) else s;
    var calls := KnownCalls(r.calls, s.tools);
    ReconcileFromInv(a, calls, {});
    if !s.closed { ReconcileUnanswered(a, calls, {}); }
  }

  /** The calls of a result are reconciled, or the stream fails; then the response says exactly what the result says. */
  lemma FinishTurnInv(s: State, c: Constraint, r: Result)
    requires Inv(s)
    ensures var e := FinishTurn(s, c, r);
            && Inv(e) && e.closed
            && (!s.closed && (LastPayload(e).Completed? || LastPayload(e).Incomplete?) ==>
                  && r.ok && r.rightModel && (LastPayload(e).Incomplete? <==> r.incomplete)
                  && Satisfied(c, KnownCalls(r.calls, s.tools))
                  && ResultShown(OutputOf(LastPayload(e)), KnownCalls(r.calls, s.tools), r.output))
  {
    hide Inv, Reconcile, Conclude, Fail, ObserveReasoning, LastPayload, Unanswered, Satisfied, KnownCalls, Settled,
      ResultShown, Answers, AllDone;
    FailInv(s);
    FailLast(s);
    if r.ok && r.rightModel {
      var a := if r.reasoning != [] then ObserveReasoning(s, r.reasoning) else s;
      var calls := KnownCalls(r.calls, s.tools);
      ReconcileInv(s, r);
      var q := Reconcile(a, calls);
      var b := q.0;
      FailInv(b);
      if !s.closed { FailUnanswered(b); }
      if q.1 { ConcludeShown(s, b, calls, r); }
    }
  }

  lemma FailUnanswered(b: State)
    requires Unanswered(b.frames, b.wire)
    ensures !LastPayload(Fail(b)).Completed? && !LastPayload(Fail(b)).Incomplete?
  {
    hide Unanswered, LastPayload, Fail;
    TextUnanswered(b, []);
    UnansweredLast(Fail(b));
  }

  lemma ConcludeShown(s: State, b: State, calls: seq<FinalCall>, r: Result)
    requires Inv(b) && (!s.closed ==> Unanswered(b.frames, b.wire))
    requires !b.closed ==> (forall c <- calls :: Settled(b, c)) && (forall id <- b.calls :: exists c <- calls :: c.id == id)
    ensures var e := Conclude(b, r.output, r.incomplete);
            && Inv(e) && e.closed
            && (!s.closed && (LastPayload(e).Completed? || LastPayload(e).Incomplete?) ==>
                  (LastPayload(e).Incomplete? <==> r.incomplete) && ResultShown(OutputOf(LastPayload(e)), calls, r.output))
  {
    hide Inv, Conclude, LastPayload, Unanswered, Settled, ResultShown, Answers, AllDone;
    if b.closed {
      ConcludeClosed(b, r.output, r.incomplete);
      if !s.closed { UnansweredLast(b); }
    } else {
      SettledDone(b, calls);
      ConcludeInv(b, r.output, r.incomplete);
      var e := Conclude(b, r.output, r.incomplete);
      if LastPayload(e).Completed? || LastPayload(e).Incomplete? {
        AnswersShown(OutputOf(LastPayload(e)), b, calls, r.output);
      }
    }
  }

  lemma ConcludeClosed(s: State, text: Str, incomplete: bool)
    requires s.closed
    ensures Conclude(s, text, incomplete) == s
  {}

  lemma InvLast(s: State)
    requires Inv(s)
    ensures !s.closed ==> Unanswered(s.frames, s.wire)
  {
    hide Framed, Live;
    if !s.closed { OpenUnanswered(s); }
  }

  lemma FailLast(s: State)
    requires Inv(s)
    ensures !s.closed ==> !LastPayload(Fail(s)).Completed? && !LastPayload(Fail(s)).Incomplete?
  {
    hide Inv, Fail, Unanswered, LastPayload;
    InvLast(s);
    if !s.closed {
      TextUnanswered(s, []);
      UnansweredLast(Fail(s));
    }
  }

  lemma ObserveLast(s: State, id: Str)
    requires Inv(s)
    ensures !s.closed ==> Unanswered(ObserveReasoning(s, id).frames, ObserveReasoning(s, id).wire)
  {
    hide Inv, Unanswered, StartReasoning;
    InvLast(s);
    if !s.closed { PendingUnanswered(s.(reasoningObserved := true)); }
  }

  // ---------------------------------------------------------------- all runs

  lemma StepInv(s: State, e: Event)
    requires Inv(s)
    ensures Inv(Step(s, e))
  {
    hide Inv, AppendTextDelta, ObserveReasoning, StartCall, AppendCallDelta, FinishCall, FinishTurn, Fail;
    match e {
      case TextDelta(id, delta) => AppendTextDeltaInv(s, id, delta);
      case Reasoning(id) => ObserveInv(s, id);
      case CallStart(id, name) => StartCallInv(s, id, name);
      case CallDelta(id, delta) => AppendCallDeltaInv(s, id, delta);
      case CallDone(id) => FinishCallInv(s, id);
      case SinkBreaks => SinkInv(s);
      case Cancelled => ClosedInv(s);
      case Finished(c, r) => FinishTurnInv(s, c, r);
      case Threw(aborted) =>
        FailInv(s);
        ClosedInv(s);
    }
  }

  lemma ClosedForever(s: State, x: Event)
    requires Inv(s)
    ensures s.closed ==> Step(s, x).closed
  {
    hide Inv, AppendText, FinishPending, ReconcileFrom, KnownCalls, Satisfied;
    if s.closed {
      if x.Finished? { FinishTurnInv(s, x.constraint, x.result); }
      if x.CallDelta? { AllClosed(s, x.id, x.delta); }
      if x.CallDone? { AllClosed(s, x.id, []); }
    }
  }

  lemma SinkInv(s: State)
    requires Inv(s)
    ensures Inv(s.(sinkOpen := false))
  {
    hide Framed, TallyOf, CallsFit, OutputFits, ReasoningFits, AddedOf, DoneOf, DeltasOf;
  }

  lemma ClosedInv(s: State)
    requires Inv(s)
    ensures Inv(s.(closed := true, notified := true))
  {
    hide Framed, Live;
    CloseFramed(s);
  }

  lemma StartFrames(encrypted: bool, tools: seq<Tool>)
    ensures var s := Start(encrypted, tools);
            && !s.closed && Framed(s.frames, s.wire, s.number, s.closed)
            && TallyOf(s.frames) == Tally(map[], map[], map[], false)
  {
    hide Agreement;
    var s := Start(encrypted, tools);
    assert s.frames == [Frame(0, Created), Frame(1, InProgress)];
    TallySnoc([], Frame(0, Created));
    TallySnoc([Frame(0, Created)], Frame(1, InProgress));
    assert [] + [Frame(0, Created)] == [Frame(0, Created)];
  }

  lemma StartInv(encrypted: bool, tools: seq<Tool>)
    ensures Inv(Start(encrypted, tools))
  {
    hide Framed, TallyOf;
    StartFrames(encrypted, tools);
  }

  lemma {:induction false} RunInv(s: State, es: seq<Event>)
    requires Inv(s)
    ensures Inv(Run(s, es))
    decreases |es|
  {
    hide Inv, Step;
    if es != [] {
      StepInv(s, es[0]);
      RunInv(Step(s, es[0]), es[1..]);
    }
  }

  /**
   * The event grammar, in every run: delivered frames are numbered 0, 1, 2, ...; they begin with response.created
   * and response.in_progress, which appear nowhere else; a terminal frame is the last one, on an otherwise complete
   * wire text.
   */
  lemma EventGrammar(encrypted: bool, tools: seq<Tool>, es: seq<Event>)
    ensures var s := Run(Start(encrypted, tools), es);
            && |s.frames| >= 2
            && (forall i :: 0 <= i < |s.frames| ==>
                  && s.frames[i].number == i
                  && (s.frames[i].payload.Created? <==> i == 0)
                  && (s.frames[i].payload.InProgress? <==> i == 1)
                  && (IsTerminal(s.frames[i].payload) ==> i == |s.frames| - 1 && s.closed && s.wire == s.frames))
  {
    hide Start, Run, Agreement, TallyOf, Live;
    StartInv(encrypted, tools);
    RunInv(Start(encrypted, tools), es);
  }

  /**
   * Index and delta agreement, in every run that finishes a response: every item of the output was added exactly
   * once and done exactly once, as the item at its place in the output, and its deltas join to its value; nothing
   * else was added. The items were also all added at their place if and only if no tool call was added after the
   * text: the text's index is computed again when it is done.
   */
  lemma ResponseAgreement(encrypted: bool, tools: seq<Tool>, es: seq<Event>, i: nat)
    requires var s := Run(Start(encrypted, tools), es);
             i < |s.frames| && (s.frames[i].payload.Completed? || s.frames[i].payload.Incomplete?)
    ensures var s := Run(Start(encrypted, tools), es);
            Agreement(s.frames[i].payload.output, TallyOf(s.frames))
  {
    hide Start, Run, Agreement, TallyOf, Live;
    StartInv(encrypted, tools);
    RunInv(Start(encrypted, tools), es);
  }

  /** A finished response shows exactly the text and the tool calls of the turn's result, whatever was streamed before. */
  lemma ResponseIsResult(encrypted: bool, tools: seq<Tool>, es: seq<Event>, c: Constraint, r: Result)
    requires !Run(Start(encrypted, tools), es).closed
    ensures var s := Run(Start(encrypted, tools), es);
            var e := Step(s, Finished(c, r));
            && e.closed
            && (LastPayload(e).Completed? || LastPayload(e).Incomplete? ==>
                  && (LastPayload(e).Incomplete? <==> r.incomplete)
                  && Satisfied(c, KnownCalls(r.calls, s.tools))
                  && ResultShown(OutputOf(LastPayload(e)), KnownCalls(r.calls, s.tools), r.output))
  {
    hide Start, Run, Inv, FinishTurn, ResultShown, Satisfied, KnownCalls, LastPayload;
    StartInv(encrypted, tools);
    RunInv(Start(encrypted, tools), es);
    FinishTurnInv(Run(Start(encrypted, tools), es), c, r);
  }
}
