/** What has been streamed of a custom input, told by the events of a run, and when finishing the call fails the stream. */
module StreamedInputs {
  import opened Units
  import opened ToolInput
  import opened InputAgreement
  import opened EventStream
  import opened LateCalls

  // ---------------------------------------------------------------- the deltas of a call

  /** The deltas of a custom call that has started and is not finished, by the events; None when there is no such call. */
  function InputDeltas(tools: seq<Tool>, es: seq<Event>, id: Str): Option<seq<Str>> {
    if es == [] then None
    else
      var n := |es| - 1;
      var before, e := InputDeltas(tools, es[..n], id), es[n];
      if before.None? then if StartsInput(tools, es[..n], e, id) then Some([]) else None
      else if e == CallDone(id) then None
      else if e.CallDelta? && e.id == id && e.delta != [] then Some(before.value + [e.delta])
      else before
  }

  predicate StartsInput(tools: seq<Tool>, es: seq<Event>, e: Event, id: Str) {
    StartsKnown(tools, e) && e.id == id && id !in StartedIds(tools, es) && FindTool(tools, e.name).value.kind.Custom?
  }

  function Join(ds: seq<Str>): Str {
    if ds == [] then [] else Join(ds[..|ds| - 1]) + ds[|ds| - 1]
  }

  /** How many deltas decode, one after the other. */
  function Decodable(ds: seq<Str>): (m: nat)
    ensures m <= |ds|
  {
    if ds == [] then 0
    else
      var m := Decodable(ds[..|ds| - 1]);
      if m == |ds| - 1 && Partial(Join(ds)).Some? then m + 1 else m
  }

  lemma NoHeader()
    ensures Partial([]) == Some([])
  {}

  lemma NothingJoined()
    ensures Partial(Join([])) == Some([])
  {
    NoHeader();
  }

  /** The join of that many deltas, and every shorter one, decodes; that of one more does not. */
  lemma {:induction false} DecodableExact(ds: seq<Str>)
    ensures var m := Decodable(ds);
            && (forall j :: 0 <= j <= m ==> Partial(Join(ds[..j])).Some?)
            && (m < |ds| ==> Partial(Join(ds[..m + 1])).None?)
  {
    hide Partial, Join;
    if ds == [] {
      NothingJoined();
    } else {
      var n := |ds| - 1;
      var init, m := ds[..n], Decodable(ds);
      DecodableExact(init);
      assert ds[..n + 1] == ds;
      forall j | 0 <= j <= m ensures Partial(Join(ds[..j])).Some? { if j <= n { assert ds[..j] == init[..j]; } }
      if m < n { assert ds[..m + 1] == init[..m + 1]; }
    }
  }

  /** What is streamed of the deltas: what the longest join decodes to such that it and every shorter one decode. */
  function Streamed(ds: seq<Str>): Str {
    DecodableExact(ds);
    Partial(Join(ds[..Decodable(ds)])).value
  }

  lemma JoinSnoc(ds: seq<Str>, d: Str)
    ensures Join(ds + [d]) == Join(ds) + d
  {
    assert (ds + [d])[..|ds|] == ds;
  }

  lemma JoinNothing()
    ensures Join([]) == []
  {}

  lemma {:induction false} JoinSplit(ds: seq<Str>, j: nat)
    requires j <= |ds|
    ensures Join(ds) == Join(ds[..j]) + Join(ds[j..])
  {
    hide Join;
    if j == |ds| {
      assert ds[..j] == ds && ds[j..] == [];
      JoinNothing();
    } else {
      var n := |ds| - 1;
      var init := ds[..n];
      JoinSplit(init, j);
      assert init[..j] == ds[..j] && ds[j..] == init[j..] + [ds[n]] && ds == init + [ds[n]];
      JoinSnoc(init[j..], ds[n]);
      JoinSnoc(init, ds[n]);
    }
  }

  lemma DecodableSnoc(ds: seq<Str>, d: Str)
    ensures Decodable(ds + [d])
         == if Decodable(ds) == |ds| && Partial(Join(ds + [d])).Some? then |ds| + 1 else Decodable(ds)
  {
    hide Partial;
    assert (ds + [d])[..|ds|] == ds;
  }

  // ---------------------------------------------------------------- one call

  predicate IsOpen(c: Call) { c.tool.kind.Custom? && !c.done }

  /** The call holds all of its deltas, and shows what is streamed of them. */
  predicate Holds(c: Call, ds: seq<Str>) {
    IsOpen(c) && c.raw == Join(ds) && c.streamed == Streamed(ds) && (c.disabled <==> Decodable(ds) < |ds|)
  }

  /** What the call becomes when a delta arrives. */
  function Grown(c: Call, delta: Str): Call {
    var d := c.(raw := c.raw + delta);
    if c.disabled then d
    else
      var input := Partial(d.raw);
      if input.None? || !IsPrefix(c.streamed, input.value) then d.(disabled := true) else d.(streamed := input.value)
  }

  lemma GrownHolds(c: Call, ds: seq<Str>, delta: Str)
    requires Holds(c, ds)
    ensures Holds(Grown(c, delta), ds + [delta])
  {
    hide Partial, Decodable, Join;
    var m, more := Decodable(ds), ds + [delta];
    JoinSnoc(ds, delta);
    DecodableSnoc(ds, delta);
    assert more[..|ds|] == ds && more[..|ds| + 1] == more && ds[..|ds|] == ds;
    assert m <= |ds| && more[..m] == ds[..m];
    DecodableExact(ds);
    if m == |ds| && Partial(Join(more)).Some? { PartialGrows(Join(ds), delta); }
  }

  /** The state machine grows the call in exactly this way. */
  lemma DeltaGrows(s: State, id: Str, delta: Str)
    requires !s.closed && id in s.calls && IsOpen(s.calls[id]) && delta != []
    ensures var e := AppendCallDelta(s, id, delta); id in e.calls && e.calls[id] == Grown(s.calls[id], delta)
  {
    hide Emit, Partial, WithCall, KeepsOthers;
    var c := s.calls[id].(raw := s.calls[id].raw + delta);
    var input := Partial(c.raw);
    WithKeeps(s, s, id, c);
    WithKeeps(s, s, id, c.(disabled := true));
    if !c.disabled && input.Some? && IsPrefix(c.streamed, input.value) {
      if |input.value| == |c.streamed| {
        assert input.value == c.streamed;
      } else {
        var p := Delta(CallKey(id), c.index, input.value[|c.streamed|..]);
        EmitFrame(s, p);
        WithKeeps(s, Emit(s, p), id, c.(streamed := input.value));
      }
    }
  }

  // ---------------------------------------------------------------- all calls, in every run

  predicate Agrees(s: State, id: Str, ds: Option<seq<Str>>) {
    if ds.Some? then id in s.calls && Holds(s.calls[id], ds.value) else id !in s.calls || !IsOpen(s.calls[id])
  }

  /** What an open stream holds, told by its events. */
  ghost predicate InputsTold(s: State, tools: seq<Tool>, es: seq<Event>) {
    forall id :: Agrees(s, id, InputDeltas(tools, es, id))
  }

  lemma DeltasSnoc(tools: seq<Tool>, es: seq<Event>, e: Event, id: Str)
    ensures var before := InputDeltas(tools, es, id);
            InputDeltas(tools, es + [e], id)
            == if before.None? then if StartsInput(tools, es, e, id) then Some([]) else None
               else if e == CallDone(id) then None
               else if e.CallDelta? && e.id == id && e.delta != [] then Some(before.value + [e.delta])
               else before
  {
    hide StartsInput;
    assert (es + [e])[..|es|] == es;
  }

  /** An event about at most one call leaves the others as they are. */
  lemma OthersTold(s: State, e: State, tools: seq<Tool>, es: seq<Event>, x: Event, id: Str)
    requires InputsTold(s, tools, es) && KeepsOthers(s, e, id)
    requires (x.CallStart? || x.CallDelta? || x.CallDone?) && x.id == id
    requires Agrees(e, id, InputDeltas(tools, es + [x], id))
    ensures InputsTold(e, tools, es + [x])
  {
    hide InputDeltas, Holds, IsOpen, StartedIds, FindTool;
    forall j ensures Agrees(e, j, InputDeltas(tools, es + [x], j)) {
      if j != id { DeltasSnoc(tools, es, x, j); }
    }
  }

  lemma SameTold(s: State, e: State, tools: seq<Tool>, es: seq<Event>, x: Event)
    requires InputsTold(s, tools, es) && e.calls == s.calls && !x.CallStart? && !x.CallDelta? && !x.CallDone?
    ensures InputsTold(e, tools, es + [x])
  {
    hide InputDeltas, Holds, IsOpen, StartedIds, FindTool;
    forall j ensures Agrees(e, j, InputDeltas(tools, es + [x], j)) { DeltasSnoc(tools, es, x, j); }
  }

  lemma FreshHolds(tool: Tool, index: nat)
    requires tool.kind.Custom?
    ensures Holds(Call(tool, index, [], [], false, false), [])
  {
    NoHeader();
  }

  lemma StartTells(s: State, tools: seq<Tool>, es: seq<Event>, id: Str, name: Str)
    requires InputsTold(s, tools, es) && !s.closed && s.tools == tools && s.calls.Keys == StartedIds(tools, es)
    ensures InputsTold(StartCall(s, id, name), tools, es + [CallStart(id, name)])
  {
    hide Holds, Emit, FinishPending, ItemOf, KeepsOthers, InputDeltas, StartedIds, IsOpen, InputsTold;
    var x := CallStart(id, name);
    StartKeeps(s, id, name);
    DeltasSnoc(tools, es, x, id);
    var e := StartCall(s, id, name);
    assert Agrees(s, id, InputDeltas(tools, es, id)) by { Told1(s, tools, es, id); }
    if id !in s.calls && FindTool(s.tools, name).Some? {
      var p := FinishPending(s);
      TextFrame(s);
      var call := Call(FindTool(s.tools, name).value, |p.output|, [], [], false, false);
      EmitFrame(p.(calls := p.calls[id := call], output := p.output + [ItemOf(id, call)]), Added(|p.output|, ItemOf(id, call)));
      assert e.calls[id] == call;
      if call.tool.kind.Custom? { FreshHolds(call.tool, call.index); } else { NotOpen(call); }
    }
    OthersTold(s, e, tools, es, x, id);
  }

  lemma Told1(s: State, tools: seq<Tool>, es: seq<Event>, id: Str)
    requires InputsTold(s, tools, es)
    ensures Agrees(s, id, InputDeltas(tools, es, id))
  {}

  lemma NotOpen(c: Call)
    requires !c.tool.kind.Custom? || c.done
    ensures !IsOpen(c)
  {}

  lemma HoldsOpen(c: Call, ds: seq<Str>)
    requires Holds(c, ds)
    ensures IsOpen(c)
  {}

  lemma DeltaTells(s: State, tools: seq<Tool>, es: seq<Event>, id: Str, delta: Str)
    requires InputsTold(s, tools, es) && !s.closed
    ensures InputsTold(AppendCallDelta(s, id, delta), tools, es + [CallDelta(id, delta)])
  {
    hide Holds, Emit, Partial, KeepsOthers, Grown, InputDeltas, InputsTold, IsOpen, StartedIds, FindTool;
    var x := CallDelta(id, delta);
    var e := AppendCallDelta(s, id, delta);
    DeltaKeeps(s, id, delta);
    DeltasSnoc(tools, es, x, id);
    Told1(s, tools, es, id);
    var ds := InputDeltas(tools, es, id);
    if ds.Some? {
      HoldsOpen(s.calls[id], ds.value);
      if delta != [] {
        DeltaGrows(s, id, delta);
        GrownHolds(s.calls[id], ds.value, delta);
      }
    } else {
      StaysClosed(s, id, delta);
      if id !in s.calls { Unknown(s, id, delta); }
    }
    OthersTold(s, e, tools, es, x, id);
  }

  lemma Unknown(s: State, id: Str, delta: Str)
    requires id !in s.calls
    ensures AppendCallDelta(s, id, delta) == s
  {}

  /** Other calls are no custom calls afterwards either. */
  lemma StaysClosed(s: State, id: Str, delta: Str)
    ensures var e := AppendCallDelta(s, id, delta);
            s.closed || delta == [] || (id in s.calls && !IsOpen(s.calls[id])) ==>
              (id in e.calls && IsOpen(e.calls[id]) ==> id in s.calls && e.calls[id] == s.calls[id])
  {
    hide Emit, Partial, WithCall, KeepsOthers;
    if !s.closed && id in s.calls && !s.calls[id].done && delta != [] && !s.calls[id].tool.kind.Custom? {
      var c := s.calls[id].(raw := s.calls[id].raw + delta);
      var p := Delta(CallKey(id), c.index, delta);
      WithKeeps(s, s, id, c);
      EmitWith(s, id, c, p);
      EmitFrame(s, p);
      WithKeeps(s, Emit(s, p), id, c);
    }
  }

  lemma DoneTells(s: State, tools: seq<Tool>, es: seq<Event>, id: Str)
    requires InputsTold(s, tools, es) && !s.closed && !FinishCall(s, id).closed
    ensures InputsTold(FinishCall(s, id), tools, es + [CallDone(id)])
  {
    hide KeepsOthers, CustomInput, SealCall, StreamRest, Emit, Holds, InputDeltas, InputsTold, StartedIds, FindTool;
    var x := CallDone(id);
    FinishKeeps(s, id);
    DeltasSnoc(tools, es, x, id);
    Told1(s, tools, es, id);
    if id in s.calls && !s.calls[id].done {
      var c := s.calls[id];
      SealResult(s, id);
      if c.tool.kind.Custom? && IsPrefix(c.streamed, CustomInput(c.raw)) {
        RestKeeps(s, id);
        SealResult(StreamRest(s, id), id);
      }
    }
    OthersTold(s, FinishCall(s, id), tools, es, x, id);
  }

  lemma TextCalls(s: State, id: Str, delta: Str)
    requires Inv(s)
    ensures AppendTextDelta(s, id, delta).calls == s.calls
  {
    hide Framed, TallyOf, AddedOf, DoneOf, DeltasOf, AppendText, CallsFit, OutputFits, ReasoningFits;
    var a := s.(textMessage := if s.textMessage.Some? then s.textMessage else Some(id));
    assert Inv(a);
    AppendTextInv(a, delta);
  }

  lemma StepTells(s: State, tools: seq<Tool>, es: seq<Event>, x: Event)
    requires Inv(s) && !s.closed && !Step(s, x).closed && InputsTold(s, tools, es)
    requires s.tools == tools && s.calls.Keys == StartedIds(tools, es)
    ensures InputsTold(Step(s, x), tools, es + [x])
  {
    hide Inv, InputsTold, AppendTextDelta, ObserveReasoning, StartCall, AppendCallDelta, FinishCall, FinishTurn, Fail, StartedIds;
    match x {
      case TextDelta(id, delta) =>
        TextCalls(s, id, delta);
        SameTold(s, Step(s, x), tools, es, x);
      case Reasoning(id) =>
        ObserveInv(s, id);
        SameTold(s, Step(s, x), tools, es, x);
      case CallStart(id, name) => StartTells(s, tools, es, id, name);
      case CallDelta(id, delta) => DeltaTells(s, tools, es, id, delta);
      case CallDone(id) => DoneTells(s, tools, es, id);
      case SinkBreaks => SameTold(s, Step(s, x), tools, es, x);
      case Cancelled =>
      case Finished(c, r) => FinishTurnInv(s, c, r);
      case Threw(_) => FailInv(s);
    }
  }

  /** In every run an open stream holds what its events tell. */
  lemma {:induction false} RunTells(encrypted: bool, tools: seq<Tool>, es: seq<Event>)
    ensures var s := Run(Start(encrypted, tools), es); !s.closed ==> InputsTold(s, tools, es)
    decreases |es|
  {
    hide Inv, InputsTold, Start, Step, StartedIds, HasText, AnyLate, IsLate;
    if es == [] {
      NothingTold(encrypted, tools);
    } else {
      var n := |es| - 1;
      var init := es[..n];
      assert es == init + [es[n]];
      RunTold(encrypted, tools, init);
      RunTells(encrypted, tools, init);
      RunSnoc(Start(encrypted, tools), init, es[n]);
      var s := Run(Start(encrypted, tools), init);
      ClosedForever(s, es[n]);
      if !Step(s, es[n]).closed { StepTells(s, tools, init, es[n]); }
    }
  }

  lemma NothingTold(encrypted: bool, tools: seq<Tool>)
    ensures InputsTold(Start(encrypted, tools), tools, [])
  {}

  // ---------------------------------------------------------------- when finishing fails

  lemma FinishFails(s: State, id: Str)
    requires !s.closed && id in s.calls && IsOpen(s.calls[id])
    ensures FinishCall(s, id) == Fail(s) <==> !IsPrefix(s.calls[id].streamed, CustomInput(s.calls[id].raw))
  {
    hide CustomInput, Emit, SealCall, StreamRest;
    EmitFrame(s, Failed);
    var c := s.calls[id];
    if IsPrefix(c.streamed, CustomInput(c.raw)) {
      RestKeeps(s, id);
      SealResult(StreamRest(s, id), id);
    }
  }

  /**
   * In every run, finishing a custom call fails the stream if and only if what its deltas streamed is no prefix of the
   * final input: that is, what the longest join of them decodes to such that it and every shorter one decode.
   */
  lemma InputFails(encrypted: bool, tools: seq<Tool>, es: seq<Event>, id: Str)
    requires !Run(Start(encrypted, tools), es).closed && InputDeltas(tools, es, id).Some?
    ensures var s, ds := Run(Start(encrypted, tools), es), InputDeltas(tools, es, id).value;
            Step(s, CallDone(id)) == Fail(s) <==> !IsPrefix(Streamed(ds), CustomInput(Join(ds)))
  {
    hide Run, Fail, FinishCall, Partial, CustomInput, Streamed, InputDeltas;
    RunTells(encrypted, tools, es);
    var s := Run(Start(encrypted, tools), es);
    Told1(s, tools, es, id);
    FinishFails(s, id);
  }

  /** Arguments on which the two decoders agree never fail the stream, however they are cut into deltas. */
  lemma AgreedInputLasts(encrypted: bool, tools: seq<Tool>, es: seq<Event>, id: Str)
    requires !Run(Start(encrypted, tools), es).closed && InputDeltas(tools, es, id).Some?
    requires var raw := Join(InputDeltas(tools, es, id).value); Partial(raw) == Some(CustomInput(raw))
    ensures var s := Run(Start(encrypted, tools), es); Step(s, CallDone(id)) != Fail(s)
  {
    hide Run, Fail, FinishCall, Partial, CustomInput, InputDeltas, Join, Step, Decodable;
    InputFails(encrypted, tools, es, id);
    var ds := InputDeltas(tools, es, id).value;
    var m := Decodable(ds);
    DecodableExact(ds);
    JoinSplit(ds, m);
    PartialGrows(Join(ds[..m]), Join(ds[m..]));
  }

  /** Arguments with a repeated key fail the stream if and only if the first value is no prefix of the last. */
  lemma RepeatedFails(encrypted: bool, tools: seq<Tool>, es: seq<Event>, id: Str, a: Str, b: Str)
    requires !Run(Start(encrypted, tools), es).closed
    requires InputDeltas(tools, es, id).Some? && Join(InputDeltas(tools, es, id).value) == RepeatedText(a, b)
    ensures var s := Run(Start(encrypted, tools), es); Step(s, CallDone(id)) == Fail(s) <==> !IsPrefix(a, b)
  {
    hide Run, Fail, Step, Partial, CustomInput, RepeatedText, InputDeltas, Join, Decodable;
    InputFails(encrypted, tools, es, id);
    RepeatedKey(a, b);
    var ds := InputDeltas(tools, es, id).value;
    var m := Decodable(ds);
    DecodableExact(ds);
    if m < |ds| {
      JoinSplit(ds, m + 1);
      var cut := |Join(ds[..m + 1])|;
      assert Join(ds)[..cut] == Join(ds[..m + 1]);
      RepeatedCuts(a, b, cut);
    }
    assert ds[..|ds|] == ds;
  }

  lemma ExampleRun(s: State, id: Str, name: Str, text: Str)
    ensures Run(s, [CallStart(id, name), CallDelta(id, text)]) == AppendCallDelta(StartCall(s, id, name), id, text)
  {
    hide StartCall, AppendCallDelta;
    var es := [CallStart(id, name), CallDelta(id, text)];
    var rest := es[1..];
    assert rest == [CallDelta(id, text)] && rest[1..] == [];
    var e := Step(s, es[0]);
    assert Run(s, es) == Run(e, rest) && Run(e, rest) == Run(Step(e, rest[0]), []);
  }

  lemma ExampleOpen(id: Str, name: Str, text: Str)
    ensures var e := AppendCallDelta(StartCall(Start(false, [Tool(Custom, name)]), id, name), id, text);
            !e.closed && e.sinkOpen
  {
    hide Partial, ItemOf;
  }

  lemma ExampleDeltas(tools: seq<Tool>, id: Str, name: Str, text: Str)
    requires tools == [Tool(Custom, name)] && text != []
    ensures InputDeltas(tools, [CallStart(id, name), CallDelta(id, text)], id) == Some([text]) && Join([text]) == text
  {
    var x, y := CallStart(id, name), CallDelta(id, text);
    assert [] + [x] == [x] && [x] + [y] == [x, y];
    DeltasSnoc(tools, [], x, id);
    DeltasSnoc(tools, [x], y, id);
    JoinSnoc([], text);
    assert [] + [text] == [text] && [] + text == text;
  }

  lemma FailsLast(s: State)
    requires !s.closed && s.sinkOpen
    ensures LastPayload(Fail(s)) == EventStream.Failed
  {}

  /** A run that such arguments fail: a custom call starts, sends them, and is done. */
  lemma RepeatedExample(id: Str, name: Str, a: Str, b: Str)
    requires !IsPrefix(a, b)
    ensures var tools := [Tool(Custom, name)];
            var s := Run(Start(false, tools), [CallStart(id, name), CallDelta(id, RepeatedText(a, b))]);
            !s.closed && LastPayload(Step(s, CallDone(id))) == EventStream.Failed
  {
    hide Partial, CustomInput, StartCall, AppendCallDelta, FinishCall, Start, Fail, Run, InputDeltas, Join, LastPayload;
    var tools := [Tool(Custom, name)];
    var start, text := Start(false, tools), RepeatedText(a, b);
    var es := [CallStart(id, name), CallDelta(id, text)];
    ExampleRun(start, id, name, text);
    ExampleOpen(id, name, text);
    ExampleDeltas(tools, id, name, text);
    RepeatedFails(false, tools, es, id, a, b);
    FailsLast(Run(start, es));
  }
}
