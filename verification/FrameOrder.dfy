/** The frames of one item, in every run: their order, indices and values follow a grammar. */
module FrameOrder {
  import opened Units
  import opened ToolInput
  import opened EventStream

  // ---------------------------------------------------------------- the grammar

  /** How far the frames of one item have come. */
  datatype Progress =
    | Absent
    | Announced(index: nat)
    | Writing(joined: Str)
    | Written(index: nat, text: Str)
    | PartOver(index: nat, text: Str)
    | Thinking(index: nat)
    | Running(id: Str, kind: Kind, index: nat, joined: Str)
    | Valued(id: Str, kind: Kind, index: nat, value: Str)
    | Over
    | Broken

  /** The item a frame is about. */
  function About(p: Payload): Option<Key> {
    match p
    case Added(_, item) => Some(KeyOf(item))
    case Done(_, item) => Some(KeyOf(item))
    case PartAdded(_) => Some(TextKey)
    case PartDone(_, _) => Some(TextKey)
    case Delta(k, _, _) => Some(k)
    case ValueDone(k, _, _) => Some(k)
    case _ => None
  }

  /** A value repeats the joined deltas; an empty object stands for no function arguments. */
  predicate Repeats(kind: Kind, joined: Str, value: Str) {
    value == joined || (kind.Function? && joined == [] && value == EMPTY_OBJECT)
  }

  /**
   * The next frame of an item. Text: added, its part added at the same index, deltas, and then value, part and item done,
   * all at one index and with the joined text. A call: added, deltas, value done and item done, all at the index it was
   * added at, with the value in the item; a search call has neither deltas nor value. Reasoning: added and done.
   */
  function Advance(x: Progress, p: Payload): Progress {
    match p
    case Added(i, item) =>
      if x != Absent then Broken
      else (match item
            case ReasoningItem => Thinking(i)
            case TextItem(text) => if text == [] then Announced(i) else Broken
            case CallItem(id, kind, done, shown) => if !done && shown == [] then Running(id, kind, i, []) else Broken)
    case PartAdded(i) => if x == Announced(i) then Writing([]) else Broken
    case Delta(_, i, d) =>
      if d == [] then Broken
      else if x.Writing? then Writing(x.joined + d)
      else if x.Running? && !x.kind.Search? && i == x.index then x.(joined := x.joined + d)
      else Broken
    case ValueDone(_, i, v) =>
      if x.Writing? && v == x.joined then Written(i, v)
      else if x.Running? && !x.kind.Search? && i == x.index && Repeats(x.kind, x.joined, v) then Valued(x.id, x.kind, i, v)
      else Broken
    case PartDone(i, v) => if x == Written(i, v) then PartOver(i, v) else Broken
    case Done(i, item) =>
      if x.PartOver? && i == x.index && item == TextItem(x.text) then Over
      else if x == Thinking(i) && item == ReasoningItem then Over
      else if x.Valued? && i == x.index && item == CallItem(x.id, x.kind, true, x.value) then Over
      else if x.Running? && x.kind.Search? && i == x.index && item.CallItem? && item == CallItem(x.id, Search, true, item.shown)
      then Over
      else Broken
    case _ => x
  }

  function ProgressOf(fs: seq<Frame>, k: Key): Progress {
    if fs == [] then Absent
    else
      var n := |fs| - 1;
      var x := ProgressOf(fs[..n], k);
      if About(fs[n].payload) == Some(k) then Advance(x, fs[n].payload) else x
  }

  /** No item's frames break the grammar. */
  ghost predicate Sound(fs: seq<Frame>) { forall k :: !ProgressOf(fs, k).Broken? }

  /** Every item that was added is done. */
  ghost predicate Complete(fs: seq<Frame>) { forall k :: ProgressOf(fs, k).Absent? || ProgressOf(fs, k).Over? }

  // ---------------------------------------------------------------- what an open stream has shown

  function CallProgress(id: Str, c: Call): Progress {
    if c.done then Over
    else
      Running(id, c.tool.kind, c.index, match c.tool.kind case Function => c.raw case Custom => c.streamed case Search => [])
  }

  function Expected(s: State, textOver: bool, k: Key): Progress {
    match k
    case ReasoningKey =>
      if s.reasoningFinished then Over else if s.reasoningStarted then Thinking(|s.output|) else Absent
    case TextKey => if textOver then Over else if s.textStarted then Writing(s.text) else Absent
    case CallKey(id) => if id in s.calls then CallProgress(id, s.calls[id]) else Absent
  }

  predicate Flags(s: State) {
    (s.reasoningFinished ==> s.reasoningStarted) && (s.reasoningStarted ==> HasReasoning(s)) && (s.textStarted || s.text == [])
  }

  ghost predicate Fits(s: State, textOver: bool) {
    && (forall k :: ProgressOf(s.frames, k) == Expected(s, textOver, k))
    && Flags(s)
  }

  ghost predicate Tidy(s: State, textOver: bool) {
    Sound(s.frames) && (s.closed || Fits(s, textOver))
  }

  lemma ExpectedSound(s: State, textOver: bool, k: Key)
    ensures !Expected(s, textOver, k).Broken?
  {}

  // ---------------------------------------------------------------- one frame

  lemma ProgressSnoc(fs: seq<Frame>, f: Frame, k: Key)
    ensures ProgressOf(fs + [f], k)
         == if About(f.payload) == Some(k) then Advance(ProgressOf(fs, k), f.payload) else ProgressOf(fs, k)
  {
    hide About, Advance;
    assert (fs + [f])[..|fs|] == fs;
  }

  /** The progress of an item after one more frame. */
  function After(s: State, p: Payload, k: Key): Progress {
    if About(p) == Some(k) then Advance(ProgressOf(s.frames, k), p) else ProgressOf(s.frames, k)
  }

  lemma EmitOrder(s: State, p: Payload)
    requires Sound(s.frames)
    requires !s.closed && s.sinkOpen ==> forall k :: !After(s, p, k).Broken?
    ensures var e := Emit(s, p);
            && Sound(e.frames)
            && (!e.closed ==> !s.closed && forall k :: ProgressOf(e.frames, k) == After(s, p, k))
  {
    hide About, Advance, ProgressOf;
    if !s.closed {
      forall k ensures ProgressOf(s.frames + [Frame(s.number, p)], k) == After(s, p, k) {
        ProgressSnoc(s.frames, Frame(s.number, p), k);
      }
    }
  }

  /** A step that emits one frame and so moves one item on; `e` is the state after it. */
  lemma Moves(s: State, over: bool, p: Payload, e: State, over': bool)
    requires Tidy(s, over) && !s.closed
    requires e.frames == Emit(s, p).frames && e.closed == Emit(s, p).closed
    requires !e.closed ==>
               && Flags(e)
               && forall k :: Expected(e, over', k)
                           == if About(p) == Some(k) then Advance(Expected(s, over, k), p) else Expected(s, over, k)
    ensures Tidy(e, over')
  {
    hide About, Advance, ProgressOf, Expected, Flags;
    if s.sinkOpen {
      forall k ensures After(s, p, k) == Expected(e, over', k) && !After(s, p, k).Broken? {
        ExpectedSound(e, over', k);
      }
    }
    EmitOrder(s, p);
  }

  /** A step that emits nothing. */
  lemma Rests(s: State, over: bool, e: State)
    requires Tidy(s, over) && e.frames == s.frames && (s.closed ==> e.closed)
    requires !e.closed ==> Flags(e) && forall k :: Expected(e, over, k) == Expected(s, over, k)
    ensures Tidy(e, over)
  {
    hide ProgressOf, Expected;
  }

  // ---------------------------------------------------------------- reasoning and text

  lemma StartReasoningOrder(s: State, over: bool)
    requires Tidy(s, over)
    ensures Tidy(StartReasoning(s), over)
  {
    hide Sound, ProgressOf, Emit;
    if !s.closed && HasReasoning(s) && !s.reasoningStarted {
      var a := s.(reasoningStarted := true);
      var p := Added(|s.output|, ReasoningItem);
      EmitFlags(a, p);
      EmitFrame(a, p);
      SameEmit(s, a, p);
      Moves(s, over, p, Emit(a, p), over);
    }
  }

  /** What a frame adds depends only on the frames so far and on whether they can be delivered. */
  lemma SameEmit(s: State, a: State, p: Payload)
    requires a.frames == s.frames && a.number == s.number && a.sinkOpen == s.sinkOpen && a.closed == s.closed
    ensures Emit(a, p).frames == Emit(s, p).frames && Emit(a, p).closed == Emit(s, p).closed
  {}

  lemma FinishReasoningOrder(s: State, over: bool)
    requires Tidy(s, over)
    ensures Tidy(FinishReasoning(s), over)
  {
    hide Sound, ProgressOf, Emit;
    if !s.closed && s.reasoningStarted && !s.reasoningFinished {
      var p := Done(|s.output|, ReasoningItem);
      EmitFlags(s, p);
      EmitFrame(s, p);
      Moves(s, over, p, FinishReasoning(s), over);
    }
  }

  lemma PendingOrder(s: State, over: bool)
    requires Tidy(s, over)
    ensures var e := FinishPending(s);
            && Tidy(e, over) && (!e.closed ==> !s.closed && (e.reasoningStarted ==> e.reasoningFinished))
  {
    hide Tidy, Emit;
    StartReasoningOrder(s, over);
    FinishReasoningOrder(StartReasoning(s), over);
    if !s.closed { NotStarted(s, over); }
  }

  lemma NotStarted(s: State, over: bool)
    requires Tidy(s, over) && !s.closed
    ensures s.reasoningStarted ==> HasReasoning(s)
  {
    hide Sound, ProgressOf, Expected;
  }

  lemma StartTextOrder(s: State)
    requires Tidy(s, false)
    ensures Tidy(StartText(s), false)
  {
    hide ProgressOf, Emit;
    if !s.textStarted && !s.closed {
      var i := |s.output|;
      var a := s.(textStarted := true);
      var p, q := Added(i, TextItem([])), PartAdded(i);
      EmitFlags(a, p);
      EmitFrame(a, p);
      EmitOrder(a, p);
      var b := Emit(a, p);
      EmitFlags(b, q);
      EmitFrame(b, q);
      EmitOrder(b, q);
    }
  }

  lemma AppendTextOrder(s: State, delta: Str)
    requires Tidy(s, false)
    ensures Tidy(AppendText(s, delta), false)
  {
    hide Sound, ProgressOf, Emit, StartText, FinishPending;
    if !s.closed && delta != [] {
      PendingOrder(s, false);
      var q := if s.textStarted then s else FinishPending(s);
      StartTextOrder(q);
      var a := StartText(q);
      if !a.closed {
        var p := Delta(TextKey, |a.output|, delta);
        StartedText(q);
        EmitFlags(a, p);
        EmitFrame(a, p);
        var e := AppendText(s, delta);
        Moves(a, false, p, e, false);
      }
    }
  }

  lemma StartedText(s: State)
    ensures StartText(s).closed || StartText(s).textStarted
  {}

  lemma TextDeltaOrder(s: State, id: Str, delta: Str)
    requires Tidy(s, false)
    ensures Tidy(AppendTextDelta(s, id, delta), false)
  {
    hide Sound, ProgressOf, AppendText;
    var a := s.(textMessage := if s.textMessage.Some? then s.textMessage else Some(id));
    Rests(s, false, a);
    AppendTextOrder(a, delta);
  }

  lemma ObserveOrder(s: State, id: Str)
    requires Tidy(s, false)
    ensures Tidy(ObserveReasoning(s, id), false)
  {
    hide Sound, ProgressOf, StartReasoning;
    if !s.closed {
      var a := s.(reasoningObserved := true);
      Rests(s, false, a);
      StartReasoningOrder(a, false);
    }
  }

  /** The frames that finish the text, all with the joined text. */
  lemma FinishTextOrder(s: State)
    requires Tidy(s, false) && !s.closed && s.textStarted && (s.reasoningStarted ==> s.reasoningFinished)
    ensures Tidy(FinishText(s), true)
  {
    hide ProgressOf, Emit;
    var i := |s.output|;
    var p, q, r := ValueDone(TextKey, i, s.text), PartDone(i, s.text), Done(i, TextItem(s.text));
    EmitFlags(s, p);
    EmitFrame(s, p);
    EmitOrder(s, p);
    var a := Emit(s, p);
    EmitFlags(a, q);
    EmitFrame(a, q);
    EmitOrder(a, q);
    var b := Emit(a, q);
    EmitFlags(b, r);
    EmitFrame(b, r);
    EmitOrder(b, r);
  }

  lemma FailOrder(s: State, over: bool)
    requires Tidy(s, over)
    ensures Tidy(Fail(s), over)
  {
    hide ProgressOf, Expected;
    if !s.closed { EmitOrder(s, Failed); }
  }

  // ---------------------------------------------------------------- calls

  lemma StartCallOrder(s: State, id: Str, name: Str)
    requires Tidy(s, false)
    ensures Tidy(StartCall(s, id, name), false)
  {
    hide Tidy, Emit, FinishPending, ItemOf;
    if !s.closed && id !in s.calls && FindTool(s.tools, name).Some? {
      PendingOrder(s, false);
      TextFrame(s);
      CallStarts(FinishPending(s), id, FindTool(s.tools, name).value);
    }
  }

  lemma CallStarts(s: State, id: Str, tool: Tool)
    requires Tidy(s, false) && id !in s.calls && (!s.closed && s.reasoningStarted ==> s.reasoningFinished)
    ensures var c := Call(tool, |s.output|, [], [], false, false);
            Tidy(Emit(s.(calls := s.calls[id := c], output := s.output + [ItemOf(id, c)]), Added(|s.output|, ItemOf(id, c))), false)
  {
    hide Sound, ProgressOf, Emit;
    var c := Call(tool, |s.output|, [], [], false, false);
    var f := Added(|s.output|, ItemOf(id, c));
    var a := s.(calls := s.calls[id := c], output := s.output + [ItemOf(id, c)]);
    EmitFlags(a, f);
    EmitFrame(a, f);
    SameEmit(s, a, f);
    if s.closed { EmitClosed(a, f); } else { Moves(s, false, f, Emit(a, f), false); }
  }

  /** A delta of a call that is not done. */
  lemma CallMoves(s: State, id: Str, c: Call, d: Str)
    requires Tidy(s, false) && !s.closed && id in s.calls && !s.calls[id].done && !c.done && d != [] && !c.tool.kind.Search?
    requires c.tool == s.calls[id].tool && c.index == s.calls[id].index
    requires c.tool.kind.Function? ==> c.raw == s.calls[id].raw + d
    requires c.tool.kind.Custom? ==> c.streamed == s.calls[id].streamed + d
    ensures Tidy(WithCall(Emit(s, Delta(CallKey(id), c.index, d)), id, c), false)
  {
    hide Sound, ProgressOf, Emit;
    var p := Delta(CallKey(id), c.index, d);
    EmitFlags(s, p);
    EmitFrame(s, p);
    Moves(s, false, p, WithCall(Emit(s, p), id, c), false);
  }

  /** A change of a call that no frame shows. */
  lemma CallRests(s: State, id: Str, c: Call)
    requires Tidy(s, false) && !s.closed && id in s.calls && !s.calls[id].done && !c.done && !c.tool.kind.Function?
    requires c.tool == s.calls[id].tool && c.index == s.calls[id].index && c.streamed == s.calls[id].streamed
    ensures Tidy(WithCall(s, id, c), false)
  {
    hide Sound, ProgressOf;
    Rests(s, false, WithCall(s, id, c));
  }

  lemma CallDeltaOrder(s: State, id: Str, delta: Str)
    requires Tidy(s, false)
    ensures Tidy(AppendCallDelta(s, id, delta), false)
  {
    hide Tidy, Emit, Partial;
    if !s.closed && id in s.calls && !s.calls[id].done && delta != [] {
      var c := s.calls[id].(raw := s.calls[id].raw + delta);
      if c.tool.kind.Function? {
        CallMoves(s, id, c, delta);
        EmitWith(s, id, c, Delta(CallKey(id), c.index, delta));
      } else {
        CallRests(s, id, c);
        CallRests(s, id, c.(disabled := true));
        if c.tool.kind.Custom? {
          var input := Partial(c.raw);
          if input.Some? && IsPrefix(c.streamed, input.value) && |input.value| != |c.streamed| {
            var d := input.value[|c.streamed|..];
            assert input.value == c.streamed + d;
            CallMoves(s, id, c.(streamed := input.value), d);
          }
        }
      }
    }
  }

  /** The last frame of a call, after its value if it has one. */
  lemma DoneOrder(s: State, id: Str, c: Call)
    requires Sound(s.frames) && Flags(s) && id in s.calls
    requires !s.closed ==>
               && (forall k :: k != CallKey(id) ==> ProgressOf(s.frames, k) == Expected(s, false, k))
               && !Advance(ProgressOf(s.frames, CallKey(id)), Done(c.index, ItemOf(id, c))).Broken?
               && c.done
    ensures var item := ItemOf(id, c);
            Tidy(WithCall(Emit(s.(output := SetItem(s.output, c.index, item)), Done(c.index, item)), id, c), false)
  {
    hide ProgressOf, Emit, Shown, Expected;
    var item := ItemOf(id, c);
    var q := Done(c.index, item);
    var b := s.(output := SetItem(s.output, c.index, item));
    EmitFlags(b, q);
    EmitFrame(b, q);
    EmitOrder(b, q);
    var e := WithCall(Emit(b, q), id, c);
    if !e.closed {
      forall k ensures ProgressOf(e.frames, k) == Expected(e, false, k) {
        if k != CallKey(id) { SameExpected(s, e, id, k); } else { OverExpected(e, id); }
      }
    }
  }

  lemma SameExpected(s: State, e: State, id: Str, k: Key)
    requires e.reasoningStarted == s.reasoningStarted && e.reasoningFinished == s.reasoningFinished
    requires |e.output| == |s.output| && e.textStarted == s.textStarted && e.text == s.text && k != CallKey(id)
    requires id in e.calls && e.calls == s.calls[id := e.calls[id]]
    ensures Expected(e, false, k) == Expected(s, false, k)
  {}

  lemma OverExpected(e: State, id: Str)
    requires id in e.calls && e.calls[id].done
    ensures Expected(e, false, CallKey(id)) == Over
  {}

  lemma SealOrder(s: State, id: Str)
    requires Tidy(s, false) && !s.closed && id in s.calls && !s.calls[id].done
    requires s.calls[id].tool.kind.Custom? ==> s.calls[id].streamed == CustomInput(s.calls[id].raw)
    ensures Tidy(SealCall(s, id), false)
  {
    hide ProgressOf, Emit, CustomInput, SetItem;
    var c := s.calls[id].(done := true);
    var p := ValueDone(CallKey(id), c.index, Shown(c.tool.kind, c.raw));
    assert ProgressOf(s.frames, CallKey(id)) == CallProgress(id, s.calls[id]);
    if c.tool.kind.Search? {
      DoneOrder(s, id, c);
    } else {
      EmitOrder(s, p);
      EmitFlags(s, p);
      EmitFrame(s, p);
      var a := Emit(s, p);
      if !a.closed {
        forall k | k != CallKey(id) ensures ProgressOf(a.frames, k) == Expected(a, false, k) { SameExpected(s, a, id, k); }
      }
      DoneOrder(a, id, c);
    }
  }

  lemma FinishCallOrder(s: State, id: Str)
    requires Tidy(s, false)
    ensures Tidy(FinishCall(s, id), false)
  {
    hide Tidy, Emit, CustomInput, SealCall;
    FailOrder(s, false);
    if !s.closed && id in s.calls && !s.calls[id].done {
      var c := s.calls[id];
      if !c.tool.kind.Custom? {
        SealOrder(s, id);
      } else if IsPrefix(c.streamed, CustomInput(c.raw)) {
        var value := CustomInput(c.raw);
        var d := value[|c.streamed|..];
        assert value == c.streamed + d;
        RestKeeps(s, id);
        if d != [] { CallMoves(s, id, c.(streamed := value), d); } else { assert value == c.streamed; }
        var a := StreamRest(s, id);
        if a.closed { SealedClosed(a, id); } else { SealOrder(a, id); }
      }
    }
  }

  lemma SealedClosed(s: State, id: Str)
    requires s.closed && id in s.calls && Tidy(s, false)
    ensures Tidy(SealCall(s, id), false)
  {
    hide Sound, SealCall;
    SealClosed(s, id);
  }

  // ---------------------------------------------------------------- the end of a turn

  lemma ReconcileOneOrder(s: State, c: FinalCall)
    requires Tidy(s, false)
    ensures Tidy(ReconcileOne(s, c).0, false)
  {
    hide Tidy, StartCall, AppendCallDelta, FinishCall;
    StartCallOrder(s, c.id, c.name);
    var a := if c.id in s.calls then s else StartCall(s, c.id, c.name);
    if c.id in a.calls && IsPrefix(a.calls[c.id].raw, c.arguments) {
      var d := c.arguments[|a.calls[c.id].raw|..];
      CallDeltaOrder(a, c.id, d);
      FinishCallOrder(AppendCallDelta(a, c.id, d), c.id);
    }
  }

  lemma {:induction false} ReconcileOrder(s: State, calls: seq<FinalCall>, seen: set<Str>)
    requires Tidy(s, false)
    ensures Tidy(ReconcileFrom(s, calls, seen).0, false)
    decreases |calls|
  {
    hide Tidy, ReconcileOne;
    if calls != [] && calls[0].id !in seen {
      ReconcileOneOrder(s, calls[0]);
      ReconcileOrder(ReconcileOne(s, calls[0]).0, calls[1..], seen + {calls[0].id});
    }
  }

  lemma AllOver(s: State, textOver: bool)
    requires Fits(s, textOver) && AllDone(s) && (s.reasoningStarted ==> s.reasoningFinished) && (s.textStarted ==> textOver)
    ensures Complete(s.frames)
  {
    hide ProgressOf;
    forall k ensures Expected(s, textOver, k).Absent? || Expected(s, textOver, k).Over? {
      if k.CallKey? && k.id in s.calls { assert s.calls[k.id].done; }
    }
  }

  /** What the frames of a stream satisfy, whether it has ended or not. */
  ghost predicate Lawful(fs: seq<Frame>, wire: seq<Frame>) {
    Sound(fs) && (Unanswered(fs, wire) || Complete(fs))
  }

  lemma TerminalOrder(b: State, p: Payload)
    requires Sound(b.frames) && Unanswered(b.frames, b.wire) && IsTerminal(p) && (!b.closed ==> Complete(b.frames))
    ensures Lawful(Emit(b, p).frames, Emit(b, p).wire)
  {
    hide ProgressOf;
    EmitOrder(b, p);
    if b.closed { EmitClosed(b, p); }
  }

  lemma ConcludeOrder(s: State, text: Str, incomplete: bool)
    requires Inv(s) && AllDone(s) && !s.closed && Tidy(s, false)
    ensures Lawful(Conclude(s, text, incomplete).frames, Conclude(s, text, incomplete).wire)
  {
    hide Inv, Sound, Complete, Fits, FinishPending, FinishText, AppendText, Emit, Unanswered, AllDone;
    InvLast(s);
    TextUnanswered(s, []);
    FailOrder(s, false);
    if IsPrefix(s.text, text) {
      var rest := text[|s.text|..];
      AppendTextInv(s, rest);
      AppendTextOrder(s, rest);
      TextUnanswered(s, rest);
      var a := AppendText(s, rest);
      if !a.closed {
        SameAllDone(s, a);
        EndOrder(a, incomplete);
      }
    }
  }

  lemma SameAllDone(s: State, a: State)
    requires AllDone(s) && a.calls == s.calls
    ensures AllDone(a)
  {}

  lemma EndOrder(a: State, incomplete: bool)
    requires Inv(a) && AllDone(a) && !a.closed && Tidy(a, false)
    ensures var b := FinishPending(if a.textStarted then FinishText(a) else a);
            Lawful(Emit(b, if incomplete then Incomplete(b.output) else Completed(b.output)).frames, Emit(b, if incomplete then Incomplete(b.output) else Completed(b.output)).wire)
  {
    hide Inv, Sound, Complete, Fits, FinishPending, FinishText, Emit, Unanswered, Lawful;
    InvLast(a);
    FinishTextUnanswered(a);
    var f := if a.textStarted then FinishText(a) else a;
    if a.textStarted {
      NotThinking(a);
      FinishTextOrder(a);
      FinishTextEnds(a);
    }
    PendingUnanswered(f);
    PendingOrder(f, a.textStarted);
    var b := FinishPending(f);
    TextFrame(f);
    if !b.closed {
      PendingFlags(f);
      SameAllDone(a, b);
      AllOver(b, a.textStarted);
    }
    TerminalOrder(b, if incomplete then Incomplete(b.output) else Completed(b.output));
  }

  lemma NotThinking(s: State)
    requires Inv(s) && !s.closed && s.textStarted
    ensures s.reasoningStarted ==> s.reasoningFinished
  {
    hide Framed, Core, AddedOf, DoneOf, DeltasOf;
  }

  lemma PendingFlags(s: State)
    ensures FinishPending(s).textStarted == s.textStarted
  {
    hide Emit;
    EmitFlags(s.(reasoningStarted := true), Added(|s.output|, ReasoningItem));
    var r := StartReasoning(s);
    EmitFlags(r, Done(|r.output|, ReasoningItem));
  }

  lemma FinishTurnOrder(s: State, c: Constraint, r: Result)
    requires Inv(s) && !s.closed && Tidy(s, false)
    ensures Lawful(FinishTurn(s, c, r).frames, FinishTurn(s, c, r).wire)
  {
    hide Inv, Sound, Fits, Complete, ReconcileFrom, Conclude, Fail, ObserveReasoning, Unanswered, Satisfied, KnownCalls, Settled,
      AllDone;
    InvLast(s);
    FailOrder(s, false);
    TextUnanswered(s, []);
    if r.ok && r.rightModel {
      var a := if r.reasoning != [] then ObserveReasoning(s, r.reasoning) else s;
      var calls := KnownCalls(r.calls, s.tools);
      ReconcileInv(s, r);
      ObserveOrder(s, r.reasoning);
      ReconcileOrder(a, calls, {});
      var q := Reconcile(a, calls);
      var b := q.0;
      FailOrder(b, false);
      TextUnanswered(b, []);
      if b.closed {
        ConcludeClosed(b, r.output, r.incomplete);
      } else if q.1 {
        SettledDone(b, calls);
        ConcludeOrder(b, r.output, r.incomplete);
      }
    }
  }

  // ---------------------------------------------------------------- all runs

  ghost predicate Orderly(s: State) {
    Lawful(s.frames, s.wire) && (s.closed || Fits(s, false))
  }

  /** Nothing follows a closed stream. */
  lemma ClosedSilent(s: State, e: Event)
    requires s.closed
    ensures Step(s, e).frames == s.frames && Step(s, e).wire == s.wire && Step(s, e).closed
  {
    hide AppendText, FinishPending, ReconcileFrom, KnownCalls, Satisfied;
    if e.CallDelta? { AllClosed(s, e.id, e.delta); }
    if e.CallDone? { AllClosed(s, e.id, []); }
  }

  lemma OpenStep(s: State, e: Event)
    requires Inv(s) && !s.closed && Tidy(s, false) && !e.Finished?
    ensures Tidy(Step(s, e), false) && Unanswered(Step(s, e).frames, Step(s, e).wire)
  {
    hide Inv, Tidy, Unanswered, AppendText, ObserveReasoning, StartCall, AppendCallDelta, FinishCall, Fail;
    InvLast(s);
    match e {
      case TextDelta(id, delta) =>
        TextDeltaOrder(s, id, delta);
        TextUnanswered(s.(textMessage := if s.textMessage.Some? then s.textMessage else Some(id)), delta);
      case Reasoning(id) =>
        ObserveOrder(s, id);
        ObserveLast(s, id);
      case CallStart(id, name) =>
        StartCallOrder(s, id, name);
        StartCallUnanswered(s, id, name);
      case CallDelta(id, delta) =>
        CallDeltaOrder(s, id, delta);
        CallDeltaUnanswered(s, id, delta);
      case CallDone(id) =>
        FinishCallOrder(s, id);
        FinishCallUnanswered(s, id);
      case SinkBreaks => EndedOrder(s, s.(sinkOpen := false));
      case Cancelled => EndedOrder(s, s.(closed := true, notified := true));
      case Threw(aborted) =>
        EndedOrder(s, s.(closed := true, notified := true));
        FailOrder(s, false);
        TextUnanswered(s, []);
    }
  }

  /** A step that only closes the stream or breaks its sink. */
  lemma EndedOrder(s: State, e: State)
    requires Tidy(s, false) && (e == s.(sinkOpen := false) || e == s.(closed := true, notified := true))
    ensures Tidy(e, false)
  {
    hide Sound, ProgressOf;
    Rests(s, false, e);
  }

  lemma {:induction false} RunOrder(s: State, es: seq<Event>)
    requires Inv(s) && Orderly(s)
    ensures Orderly(Run(s, es))
    decreases |es|
  {
    hide Inv, Sound, Fits, Complete, Step, Unanswered;
    if es != [] {
      var e := Step(s, es[0]);
      StepInv(s, es[0]);
      InvLast(s);
      if s.closed {
        ClosedSilent(s, es[0]);
      } else if es[0].Finished? {
        FinishTurnOrder(s, es[0].constraint, es[0].result);
        FinishedCloses(s, es[0].constraint, es[0].result);
      } else {
        OpenStep(s, es[0]);
      }
      RunOrder(e, es[1..]);
    }
  }

  lemma FinishedCloses(s: State, c: Constraint, r: Result)
    requires Inv(s)
    ensures Step(s, Finished(c, r)) == FinishTurn(s, c, r) && FinishTurn(s, c, r).closed
  {
    hide Inv, FinishTurn, LastPayload, Satisfied, ResultShown, KnownCalls;
    FinishTurnInv(s, c, r);
  }

  const OPENING: seq<Frame> := [Frame(0, Created), Frame(1, InProgress)]

  lemma OpeningProgress(k: Key)
    ensures ProgressOf(OPENING, k) == Absent
  {
    hide Advance;
    ProgressSnoc([], Frame(0, Created), k);
    ProgressSnoc([Frame(0, Created)], Frame(1, InProgress), k);
    assert [] + [Frame(0, Created)] == [Frame(0, Created)] && [Frame(0, Created)] + [Frame(1, InProgress)] == OPENING;
  }

  lemma StartIs(encrypted: bool, tools: seq<Tool>)
    ensures var s := Start(encrypted, tools);
            s.frames == OPENING && s.wire == OPENING && !s.closed && Flags(s) && forall k :: Expected(s, false, k) == Absent
  {}

  lemma StartOrder(encrypted: bool, tools: seq<Tool>)
    ensures Orderly(Start(encrypted, tools))
  {
    hide ProgressOf, Start, Expected, Flags;
    StartIs(encrypted, tools);
    forall k ensures ProgressOf(OPENING, k) == Absent { OpeningProgress(k); }
  }

  /**
   * In every run the frames of each item, by themselves, follow the grammar: they come in order, those of a call all carry
   * the index it was added at, those that end the text carry one index, and every value repeats the deltas before it. And
   * if the response is finished, so is every item that was ever added.
   */
  lemma ItemGrammar(encrypted: bool, tools: seq<Tool>, es: seq<Event>, k: Key)
    ensures var fs := Run(Start(encrypted, tools), es).frames;
            && ProgressOf(fs, k) != Broken
            && ((exists f <- fs :: f.payload.Completed? || f.payload.Incomplete?) ==>
                  ProgressOf(fs, k) == Absent || ProgressOf(fs, k) == Over)
  {
    hide Start, Run, Inv, ProgressOf, Fits;
    StartInv(encrypted, tools);
    StartOrder(encrypted, tools);
    RunOrder(Start(encrypted, tools), es);
  }
}
