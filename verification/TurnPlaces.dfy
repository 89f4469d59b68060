/** Where a request's turn takes place, why a request is refused, and what follow-up requests continue. */
module TurnPlaces {
  import opened Units
  import opened ToolOutputs
  import opened ToolContinuation

  // ---------------------------------------------------------------- what belongs to the turn

  predicate IsOpaque(x: Item) { x.ReasoningState? && x.token.Some? }

  /** Item `k` is the last opaque reasoning state of the input. */
  predicate IsLastState(items: seq<Item>, k: nat) {
    k < |items| && IsOpaque(items[k]) && forall i :: k < i < |items| ==> !IsOpaque(items[i])
  }

  predicate HasLive(s: State, b: Body) { b.previousId != [] && b.previousId in s.responses }

  lemma {:induction false} LastStateIs(items: seq<Item>)
    ensures var r := LastState(items);
            if r.Some? then IsLastState(items, r.value) else forall i :: 0 <= i < |items| ==> !IsOpaque(items[i])
  {
    if items != [] { LastStateIs(items[..|items| - 1]); }
  }

  lemma OneLastState(items: seq<Item>, k: nat)
    requires IsLastState(items, k)
    ensures LastState(items) == Some(k)
  {
    LastStateIs(items);
  }

  /** The part of the request that belongs to the turn. */
  function CurrentOf(s: State, b: Body): Body {
    CurrentTurn(s, b, !HasLive(s, b) && LastState(b.input).Some?).0
  }

  /** How many items at the front are earlier output. */
  lemma {:induction false} PriorRun(items: seq<Item>) returns (k: nat)
    ensures k <= |items| && DropPrior(items) == items[k..]
    ensures (forall i :: 0 <= i < k ==> IsPrior(items[i])) && (k < |items| ==> !IsPrior(items[k]))
  {
    if items != [] && IsPrior(items[0]) {
      k := PriorRun(items[1..]);
      assert forall i :: 1 <= i < k + 1 ==> items[i] == items[1..][i - 1];
      k := k + 1;
    } else {
      k := 0;
    }
  }

  predicate EarlierOutput(x: Item) {
    match x
    case CallMade(_, _) => true
    case ReasoningState(_) => true
    case AssistantMessage(_) => true
    case OtherOutput => true
    case _ => false
  }

  /**
   * The input of the turn: with a live previous response, or without an opaque reasoning state, what follows the last
   * assistant message; else, when the last such state is bound, what follows it and the earlier output right behind it; and
   * when it is not bound, everything but that state.
   */
  lemma CurrentItems(s: State, b: Body, k: nat)
    ensures var c := CurrentOf(s, b);
            && c == b.(input := c.input)
            && (HasLive(s, b) || (forall i :: 0 <= i < |b.input| ==> !IsOpaque(b.input[i])) ==>
                  exists n: nat :: n <= |b.input| && c.input == b.input[n..]
                      && (n > 0 ==> b.input[n - 1].AssistantMessage?)
                                   && forall i :: n <= i < |b.input| ==> !b.input[i].AssistantMessage?)
            && (!HasLive(s, b) && IsLastState(b.input, k) && b.input[k].token.value in s.reasoning ==>
                  exists n: nat :: k < n <= |b.input| && c.input == b.input[n..]
                      && (n < |b.input| ==> !EarlierOutput(b.input[n]))
                                   && forall i :: k < i < n ==> EarlierOutput(b.input[i]))
            && (!HasLive(s, b) && IsLastState(b.input, k) && b.input[k].token.value !in s.reasoning ==>
                  c.input == b.input[..k] + b.input[k + 1..])
  {
    LastStateIs(b.input);
    if HasLive(s, b) || LastState(b.input).None? {
      var n := LastAssistant(b.input) + 1;
      assert CurrentOf(s, b).input == b.input[n..];
    } else if IsLastState(b.input, k) {
      OneLastState(b.input, k);
      if b.input[k].token.value in s.reasoning { DroppedRun(b.input, k); }
    }
  }

  lemma DroppedRun(items: seq<Item>, k: nat)
    requires k < |items|
    ensures exists n: nat ::
              && k < n <= |items| && DropPrior(items[k + 1..]) == items[n..] && (n < |items| ==> !EarlierOutput(items[n]))
              && forall i :: k < i < n ==> EarlierOutput(items[i])
  {
    var rest := items[k + 1..];
    var n := PriorRun(rest);
    assert rest[n..] == items[k + 1 + n..];
    assert n < |rest| ==> rest[n] == items[k + 1 + n];
    assert forall i :: k < i < k + 1 + n ==> items[i] == rest[i - k - 1];
  }

  // ---------------------------------------------------------------- what becomes of a request

  /** The input shows neither a completed exchange of tool calls nor a message of the assistant or an agent. */
  predicate NoHistory(items: seq<Item>) {
    !Replayable(items) && forall x <- items :: (x.AssistantMessage? ==> !x.shown) && (x.AgentMessage? ==> !x.shown)
  }

  /** The request names a previous response that is gone, and its own history cannot stand in for it. */
  predicate LostPrevious(s: State, b: Body) {
    b.previousId != [] && !HasLive(s, b) && NoHistory(b.input)
  }

  /** Where the request continues: `c` and `p` are empty when a new conversation is opened. */
  ghost predicate ContinuesAt(s: State, b: Body, c: Str, p: Str) {
    if HasLive(s, b) then c == s.responses[b.previousId].conversation && p == s.responses[b.previousId].parent
    else if exists k: nat :: IsLastState(b.input, k) && b.input[k].token.value in s.reasoning then
      forall k: nat :: IsLastState(b.input, k) ==>
        c == s.reasoning[b.input[k].token.value].conversation && p == s.reasoning[b.input[k].token.value].parent
    else c == [] && p == []
  }

  lemma LostIsRejected(s: State, b: Body, now: int)
    ensures LostPrevious(s, b) ==> Prepare(s, b, now) == Rejected(StateNotFound)
    ensures !LostPrevious(s, b) && !Consistent(CurrentOf(s, b).input) ==>
        Prepare(s, b, now) == Rejected(ConflictingOutputs)
  {
    hide Collect, Replayable, CurrentTurn, LastState, FindReplay, PrepareOutputs, Consistent;
    CollectExact(CurrentOf(s, b).input);
  }

  lemma NoResults(items: seq<Item>)
    ensures Collect(items) == Some([]) <==> forall x <- items :: !IsResult(x)
  {
    hide Collect, Consistent, Distinct;
    CollectExact(items);
    if forall x <- items :: !IsResult(x) {
      assert Consistent(items) by { NoneConflict(items); }
      var c := Collect(items).value;
      if c != [] {
        FirstOutput(c);
        assert false;
      }
    } else if Collect(items).Some? {
      var x :| x in items && IsResult(x);
      var i :| 0 <= i < |items| && items[i] == x;
      assert Output(items[i].callId, items[i].content) in Collect(items).value;
    }
  }

  lemma FirstOutput(outputs: seq<Output>)
    requires outputs != []
    ensures outputs[0] in outputs
  {}

  lemma NoneConflict(items: seq<Item>)
    requires forall x <- items :: !IsResult(x)
    ensures Consistent(items)
  {}

  /**
   * A request whose turn carries no tool result, and whose previous response is not lost, is run where its live previous
   * response ended, else where its last opaque reasoning state was given, else in a new conversation.
   */
  lemma PlainTurn(s: State, b: Body, now: int)
    requires !LostPrevious(s, b) && forall x <- CurrentOf(s, b).input :: !IsResult(x)
    ensures var r := Prepare(s, b, now);
            && r.Run? && r.messages == [] && !r.turn.native && r.turn.outputs == [] && r.turn.all == []
            && r.turn.request == CurrentOf(s, b) && !r.turn.recorded
            && ContinuesAt(s, b, r.turn.conversation, r.turn.parent)
  {
    hide Collect, Replayable, LastState, DropPrior, AfterLastAssistant;
    NoResults(CurrentOf(s, b).input);
    LastStateIs(b.input);
    if !HasLive(s, b) && LastState(b.input).Some? {
      var k := LastState(b.input).value;
      forall j: nat | IsLastState(b.input, j) ensures j == k { OneLastState(b.input, j); }
    }
  }

  // ---------------------------------------------------------------- what follow-up requests continue

  /** Nothing in the events replaces or loses the binding of the response `r`, or lets it expire. */
  predicate KeepsResponse(es: seq<Step>, r: Str, expires: int) {
    forall e <- es ::
      match e
      case Requested(_, now) => now < expires
      case Remembered(other, _, _, _) => other != r
      case Lost(x) => r !in x.responses
      case _ => true
  }

  predicate KeepsState(es: seq<Step>, token: Str, expires: int) {
    forall e <- es ::
      match e
      case Requested(_, now) => now < expires
      case Remembered(_, other, _, _) => other != Some(token)
      case Lost(x) => token !in x.reasoning
      case _ => true
  }

  predicate KeepsCall(es: seq<Step>, id: Str, expires: int) {
    forall e <- es ::
      match e
      case Requested(_, now) => now < expires
      case Lost(x) => id !in x.tools
      case _ => true
  }

  lemma BindingKept(s: State, e: Step, r: Str, at: Binding)
    requires Allowed(s, e) && r in s.responses && s.responses[r] == at && KeepsResponse([e], r, at.expires)
    ensures r in Next(s, e).responses && Next(s, e).responses[r] == at
  {
    hide Prepare, InFlight, Ids, Reserve, Bind, Receipts, StoreReplay, NewIds;
    assert e in [e];
  }

  lemma StateKept(s: State, e: Step, token: Str, at: Binding)
    requires Allowed(s, e) && token in s.reasoning && s.reasoning[token] == at && KeepsState([e], token, at.expires)
    ensures token in Next(s, e).reasoning && Next(s, e).reasoning[token] == at
  {
    hide Prepare, InFlight, Ids, Reserve, Bind, Receipts, StoreReplay, NewIds;
    assert e in [e];
  }

  lemma {:induction false} BindingLasts(s: State, es: seq<Step>, r: Str, at: Binding)
    requires IsTrace(s, es) && r in s.responses && s.responses[r] == at && KeepsResponse(es, r, at.expires)
    ensures r in RunAll(s, es).responses && RunAll(s, es).responses[r] == at
    decreases |es|
  {
    hide Next, Allowed;
    if es != [] {
      assert es[0] in es && forall e <- es[1..] :: e in es;
      BindingKept(s, es[0], r, at);
      BindingLasts(Next(s, es[0]), es[1..], r, at);
    }
  }

  lemma {:induction false} StateLasts(s: State, es: seq<Step>, token: Str, at: Binding)
    requires IsTrace(s, es) && token in s.reasoning && s.reasoning[token] == at && KeepsState(es, token, at.expires)
    ensures token in RunAll(s, es).reasoning && RunAll(s, es).reasoning[token] == at
    decreases |es|
  {
    hide Next, Allowed;
    if es != [] {
      assert es[0] in es && forall e <- es[1..] :: e in es;
      StateKept(s, es[0], token, at);
      StateLasts(Next(s, es[0]), es[1..], token, at);
    }
  }

  /** The state a request at `now` meets after the response was given and `after` happened. */
  function Later(s: State, given: Step, after: seq<Step>): State
    requires Allowed(s, given) && IsTrace(Next(s, given), after)
  {
    RunAll(Next(s, given), after)
  }

  /** The turn that a request launches, when it launches one. */
  predicate Launches(s: State, b: Body, now: int, at: Binding) {
    var e := Next(s, Requested(b, now));
    && e.nextTurn == s.nextTurn + 1 && s.nextTurn in e.turns
    && var t := e.turns[s.nextTurn];
    && !t.native && t.outputs == [] && t.conversation == at.conversation && t.parent == at.parent
    && t.request == CurrentOf(Prune(s, now), b)
  }

  lemma PlainLaunch(s: State, b: Body, now: int, at: Binding)
    requires var p := Prune(s, now);
             && !LostPrevious(p, b) && (forall x <- CurrentOf(p, b).input :: !IsResult(x))
             && (forall c, d :: ContinuesAt(p, b, c, d) ==> c == at.conversation && d == at.parent)
    ensures Launches(s, b, now, at)
  {
    hide Prepare, Prune, LostPrevious, CurrentOf, ContinuesAt, Ids, Reserve;
    var p := Prune(s, now);
    PlainTurn(p, b, now);
    PruneCounter(s, now);
  }

  lemma PruneCounter(s: State, now: int)
    ensures Prune(s, now).nextTurn == s.nextTurn
  {}

  /** Every tool result is followed by an assistant message. */
  predicate ResultsAnswered(items: seq<Item>) {
    forall i :: 0 <= i < |items| && IsResult(items[i]) ==> exists j :: i < j < |items| && items[j].AssistantMessage?
  }

  lemma AnsweredTurn(s: State, b: Body)
    requires HasLive(s, b) && ResultsAnswered(b.input)
    ensures forall x <- CurrentOf(s, b).input :: !IsResult(x)
  {
    hide LastState, CurrentOf, ResultsAnswered, IsResult;
    CurrentItems(s, b, 0);
    var n: nat :| n <= |b.input| && CurrentOf(s, b).input == b.input[n..]
                  && forall i :: n <= i < |b.input| ==> !b.input[i].AssistantMessage?;
    NoneAnswered(b.input, n);
  }

  lemma NoneAnswered(items: seq<Item>, n: nat)
    requires n <= |items| && ResultsAnswered(items) && forall i :: n <= i < |items| ==> !items[i].AssistantMessage?
    ensures forall x <- items[n..] :: !IsResult(x)
  {
    hide IsResult;
    forall x | x in items[n..] ensures !IsResult(x) {
      var i :| 0 <= i < |items| - n && items[n..][i] == x;
      assert items[n + i] == x;
    }
  }

  /**
   * After a response was given at `at`, until its binding expires, is replaced or is lost, every request that names it
   * and has no tool result behind the last assistant message runs at `at`.
   */
  lemma NamedFollowUp(s: State, given: Step, after: seq<Step>, b: Body, now: int)
    requires given.Remembered? && Allowed(s, given) && IsTrace(Next(s, given), after)
    requires KeepsResponse(after, given.responseId, given.at.expires) && now < given.at.expires
    requires b.previousId == given.responseId && b.previousId != []
    requires ResultsAnswered(b.input)
    ensures Launches(Later(s, given, after), b, now, given.at)
  {
    hide Next, Allowed, IsTrace, RunAll, CurrentOf, Launches, IsResult, LastState, ResultsAnswered;
    var r, at := given.responseId, given.at;
    GivenBinding(s, given);
    BindingLasts(Next(s, given), after, r, at);
    var e := Later(s, given, after);
    var p := Prune(e, now);
    assert HasLive(p, b) && p.responses[r] == at;
    AnsweredTurn(p, b);
    PlainLaunch(e, b, now, at);
  }

  lemma GivenBinding(s: State, given: Step)
    requires given.Remembered? && Allowed(s, given)
    ensures var e := Next(s, given);
            && given.responseId in e.responses && e.responses[given.responseId] == given.at
            && (given.token.Some? ==> given.token.value in e.reasoning && e.reasoning[given.token.value] == given.at)
  {
    hide Bind, NewIds;
  }

  /** The same for a request whose last opaque state is the response's, when it names no live response. */
  lemma StateFollowUp(s: State, given: Step, after: seq<Step>, b: Body, now: int, k: nat)
    requires given.Remembered? && given.token.Some? && Allowed(s, given) && IsTrace(Next(s, given), after)
    requires KeepsState(after, given.token.value, given.at.expires) && now < given.at.expires
    requires IsLastState(b.input, k) && b.input[k].token == given.token
    requires forall i :: k < i < |b.input| ==> !IsResult(b.input[i])
    requires var p := Prune(Later(s, given, after), now); !HasLive(p, b) && !LostPrevious(p, b)
    ensures Launches(Later(s, given, after), b, now, given.at)
  {
    hide Next, Allowed, IsTrace, RunAll, CurrentOf, Launches, IsResult, LastState, LostPrevious;
    var token, at := given.token.value, given.at;
    GivenBinding(s, given);
    StateLasts(Next(s, given), after, token, at);
    var e := Later(s, given, after);
    var p := Prune(e, now);
    assert token in p.reasoning && p.reasoning[token] == at;
    CurrentItems(p, b, k);
    var n: nat :| k < n <= |b.input| && CurrentOf(p, b).input == b.input[n..];
    forall x | x in b.input[n..] ensures !IsResult(x) {
      var i :| 0 <= i < |b.input| - n && b.input[n..][i] == x;
      assert b.input[n + i] == x;
    }
    PlainLaunch(e, b, now, at);
  }

  /** Once its binding has expired, a request that names the response and cannot be rebuilt is refused. */
  lemma ExpiredIsLost(s: State, b: Body, now: int)
    requires b.previousId != [] && b.previousId in s.responses && s.responses[b.previousId].expires <= now
    requires NoHistory(b.input)
    ensures Prepare(Prune(s, now), b, now) == Rejected(StateNotFound)
    ensures Next(s, Requested(b, now)) == Prune(s, now)
  {
    hide Replayable, Prepare;
    LostIsRejected(Prune(s, now), b, now);
  }

  // ---------------------------------------------------------------- tool results

  /** An earlier turn consumed the same result. */
  predicate Consumed(s: State, o: Output) { o.callId in s.consumed && s.consumed[o.callId].output == o }

  predicate Strange(s: State, o: Output) { o.callId !in s.tools && !Consumed(s, o) }

  /** The conversations and the messages the results belong to. */
  function Conversations(s: State, outputs: seq<Output>): set<Str> {
    (set o <- outputs | o.callId in s.tools :: s.tools[o.callId].at.conversation)
    + set o <- outputs | Consumed(s, o) :: s.consumed[o.callId].conversation
  }

  function Parents(s: State, outputs: seq<Output>): set<Str> {
    set o <- outputs | o.callId in s.tools :: s.tools[o.callId].at.parent
  }

  lemma Single<T>(xs: set<T>, x: T)
    requires x in xs
    ensures |xs| == 1 <==> xs == {x}
  {
    if |xs| == 1 {
      assert |xs - {x}| == 0;
      assert xs == {x} + (xs - {x});
    }
  }

  lemma PlaceIsOne(s: State, outputs: seq<Output>, o: Output)
    requires o in outputs && o.callId in s.tools
    ensures var at := s.tools[o.callId].at;
            && (OnePlace(s, outputs, at) <==> |Conversations(s, outputs)| == 1 && |Parents(s, outputs)| == 1)
            && (OnePlace(s, outputs, at) ==>
                  Conversations(s, outputs) == {at.conversation} && Parents(s, outputs) == {at.parent})
  {
    hide Conversations, Parents;
    var at := s.tools[o.callId].at;
    InPlaces(s, outputs);
    Single(Conversations(s, outputs), at.conversation);
    Single(Parents(s, outputs), at.parent);
    if OnePlace(s, outputs, at) {
      PlacesWithin(s, outputs, at);
    }
  }

  lemma InPlaces(s: State, outputs: seq<Output>)
    ensures forall o <- outputs ::
              && (o.callId in s.tools ==> s.tools[o.callId].at.conversation in Conversations(s, outputs)
                                          && s.tools[o.callId].at.parent in Parents(s, outputs))
              && (HasReceipt(s, o) ==> s.consumed[o.callId].conversation in Conversations(s, outputs))
  {}

  lemma PlacesWithin(s: State, outputs: seq<Output>, at: Binding)
    requires OnePlace(s, outputs, at)
    ensures Conversations(s, outputs) <= {at.conversation} && Parents(s, outputs) <= {at.parent}
  {}

  /** What becomes of the results of a turn that is not a replay. */
  ghost predicate Comes(s: State, live: bool, c: Body, outputs: seq<Output>, r: Prepared) {
    if exists o <- outputs :: Strange(s, o) then
      if !live && Replayable(c.input) && forall o <- outputs :: o.callId in s.consumed ==> Consumed(s, o) then
        r == Run(Turn(false, outputs, outputs, [], [], c, false), [])
      else r == Rejected(StateNotFound)
    else if forall o <- outputs :: o.callId !in s.tools then r == Rejected(StateNotFound)
    else if |Conversations(s, outputs)| == 1 && |Parents(s, outputs)| == 1 then
      && r.Run? && r.turn.native && r.turn.request == c && r.turn.all == outputs
      && Conversations(s, outputs) == {r.turn.conversation} && Parents(s, outputs) == {r.turn.parent}
    else r == Rejected(StateMismatch)
  }

  lemma OutputsCome(s: State, previous: Option<Binding>, c: Body, outputs: seq<Output>)
    requires outputs != []
    ensures Comes(s, previous.Some?, c, outputs, PrepareOutputs(s, previous, c, outputs))
  {
    hide Replayable, OnePlace, Conversations, Parents;
    var active := Active(s, outputs);
    ActiveExact(s, outputs);
    if active == [] {
      assert forall o <- outputs :: o.callId in s.tools ==> o in active;
    } else {
      assert active[0] in active;
      PlaceIsOne(s, outputs, active[0]);
    }
  }

  /**
   * A request with tool results is a replay of one already answered, or all its results are bound or consumed, one of
   * them bound, and they belong to one conversation and one message, where its turn runs; or it is rebuilt from its own
   * history in a new conversation; in every other case it is refused.
   */
  lemma ResultsOutcome(s: State, b: Body, now: int)
    requires !LostPrevious(s, b) && Consistent(CurrentOf(s, b).input) && exists x <- CurrentOf(s, b).input :: IsResult(x)
    ensures Collect(CurrentOf(s, b).input).Some?
    ensures var c, r := CurrentOf(s, b), Prepare(s, b, now);
            r.Replayed? || Comes(s, HasLive(s, b), c, Collect(c.input).value, r)
  {
    hide Collect, Replayable, CurrentTurn, LastState, FindReplay, PrepareOutputs, Consistent, Comes;
    var c := CurrentOf(s, b);
    NoResults(c.input);
    CollectExact(c.input);
    var previous := if HasLive(s, b) then Some(s.responses[b.previousId]) else None;
    OutputsCome(s, previous, c, Collect(c.input).value);
  }

  lemma CallKept(s: State, e: Step, id: Str, at: ToolBinding)
    requires Inv(s) && Allowed(s, e) && id in s.tools && s.tools[id] == at && KeepsCall([e], id, at.at.expires)
    requires id !in Next(s, e).recorded
    ensures id in Next(s, e).tools && Next(s, e).tools[id] == at
  {
    hide Prepare, InFlight, Ids, Reserve, Bind, Receipts, StoreReplay, NewIds, FlightsFit, RecordsFit, ShapesFit;
    assert e in [e];
    if e.Remembered? { BoundKept(s.tools, e.calls, e.at, id); }
  }

  lemma {:induction false} BoundKept(tools: map<Str, ToolBinding>, calls: seq<NewCall>, at: Binding, id: Str)
    requires id in tools && id !in NewIds(calls)
    ensures id in Bind(tools, calls, at) && Bind(tools, calls, at)[id] == tools[id]
  {
    if calls != [] {
      var n := |calls| - 1;
      assert calls[n].id in NewIds(calls);
      assert forall c <- calls[..n] :: c in calls;
      BoundKept(tools, calls[..n], at, id);
    }
  }

  lemma {:induction false} CallLasts(s: State, es: seq<Step>, id: Str, at: ToolBinding)
    requires Inv(s) && IsTrace(s, es) && id in s.tools && s.tools[id] == at && KeepsCall(es, id, at.at.expires)
    requires id !in RunAll(s, es).recorded
    ensures id in RunAll(s, es).tools && RunAll(s, es).tools[id] == at
    decreases |es|
  {
    hide Next, Allowed, Inv;
    if es != [] {
      assert es[0] in es && forall e <- es[1..] :: e in es;
      RecordedGrows(Next(s, es[0]), es[1..]);
      NextInv(s, es[0]);
      CallKept(s, es[0], id, at);
      CallLasts(Next(s, es[0]), es[1..], id, at);
    }
  }

  /** The tool of the last call with the id. */
  predicate IsCall(calls: seq<NewCall>, id: Str, tool: Str) {
    exists i :: 0 <= i < |calls| && calls[i] == NewCall(id, tool) && forall j :: i < j < |calls| ==> calls[j].id != id
  }

  lemma {:induction false} CallBound(tools: map<Str, ToolBinding>, calls: seq<NewCall>, at: Binding, id: Str, tool: Str)
    requires IsCall(calls, id, tool)
    ensures id in Bind(tools, calls, at) && Bind(tools, calls, at)[id] == ToolBinding(at, tool)
  {
    var n := |calls| - 1;
    var i :| 0 <= i <= n && calls[i] == NewCall(id, tool) && forall j :: i < j < |calls| ==> calls[j].id != id;
    if i < n {
      assert calls[n].id != id;
      assert calls[..n][i] == calls[i];
      CallBound(tools, calls[..n], at, id, tool);
    }
  }

  /** The results of a turn, each for a call that the response made and nobody recorded, lost or let expire since. */
  ghost predicate ResultsOf(s: State, given: Step, after: seq<Step>, outputs: seq<Output>, tools: seq<Str>)
    requires given.Remembered? && Allowed(s, given) && IsTrace(Next(s, given), after)
  {
    |tools| == |outputs|
    && forall i :: 0 <= i < |outputs| ==>
         IsCall(given.calls, outputs[i].callId, tools[i]) && KeepsCall(after, outputs[i].callId, given.at.expires)
         && outputs[i].callId !in Later(s, given, after).recorded
  }

  lemma AllActive(s: State, outputs: seq<Output>)
    requires forall o <- outputs :: o.callId in s.tools
    ensures Active(s, outputs) == outputs
  {
    hide Active, Pick, Ids;
    ActiveIsPick(s, outputs);
    PickAll(outputs);
    forall o | o in outputs ensures o.callId in s.tools.Keys <==> o.callId in Ids(outputs) { IdsOf(outputs, o); }
    PickSame(outputs, s.tools.Keys, Ids(outputs));
  }

  /**
   * After a response made calls at `at`, until they expire, are recorded or are lost, a request that brings the results of
   * some of them runs natively at `at`, and sends each result for the tool it was asked of.
   */
  lemma ResultsFollowUp(s: State, given: Step, after: seq<Step>, b: Body, now: int, outputs: seq<Output>, tools: seq<Str>)
    requires Inv(s) && given.Remembered? && Allowed(s, given) && IsTrace(Next(s, given), after) && now < given.at.expires
    requires outputs != [] && ResultsOf(s, given, after, outputs, tools)
    requires var p := Prune(Later(s, given, after), now);
             !LostPrevious(p, b) && Collect(CurrentOf(p, b).input) == Some(outputs)
    ensures var p := Prune(Later(s, given, after), now);
            Prepare(p, b, now) == Run(
              Turn(true, outputs, outputs, given.at.conversation, given.at.parent, CurrentOf(p, b), false),
              seq(|outputs|, i requires 0 <= i < |outputs| => Message(outputs[i], tools[i])))
  {
    hide Next, Allowed, IsTrace, RunAll, Prepare, Prune, CurrentOf, LostPrevious, Inv, IsCall, KeepsCall, NewIds;
    var e := Later(s, given, after);
    var p := Prune(e, now);
    GivenInv(s, given, after);
    forall i | 0 <= i < |outputs|
      ensures outputs[i].callId in p.tools && p.tools[outputs[i].callId] == ToolBinding(given.at, tools[i])
    {
      CallStands(s, given, after, now, outputs[i].callId, tools[i]);
    }
    PruneInv(e, now);
    BoundRuns(p, b, now, given.at, outputs, tools);
  }

  lemma GivenInv(s: State, given: Step, after: seq<Step>)
    requires Inv(s) && Allowed(s, given) && IsTrace(Next(s, given), after)
    ensures Inv(Next(s, given)) && Inv(Later(s, given, after))
  {
    hide Next, Allowed, IsTrace, RunAll, Inv;
    NextInv(s, given);
    RunInv(Next(s, given), after);
  }

  lemma CallStands(s: State, given: Step, after: seq<Step>, now: int, id: Str, tool: Str)
    requires Inv(s) && given.Remembered? && Allowed(s, given) && IsTrace(Next(s, given), after) && now < given.at.expires
    requires IsCall(given.calls, id, tool) && KeepsCall(after, id, given.at.expires)
        && id !in Later(s, given, after).recorded
    ensures var p := Prune(Later(s, given, after), now); id in p.tools && p.tools[id] == ToolBinding(given.at, tool)
  {
    hide Allowed, IsTrace, RunAll, Inv, IsCall, KeepsCall, NewIds, Bind;
    CallBound(s.tools, given.calls, given.at, id, tool);
    GivenInv(s, given, after);
    CallLasts(Next(s, given), after, id, ToolBinding(given.at, tool));
  }

  lemma BoundRuns(s: State, b: Body, now: int, at: Binding, outputs: seq<Output>, tools: seq<Str>)
    requires Inv(s) && !LostPrevious(s, b) && Collect(CurrentOf(s, b).input) == Some(outputs) && outputs != []
    requires |tools| == |outputs|
    requires forall i :: 0 <= i < |outputs| ==>
               outputs[i].callId in s.tools && s.tools[outputs[i].callId] == ToolBinding(at, tools[i])
    ensures Prepare(s, b, now) == Run(
              Turn(true, outputs, outputs, at.conversation, at.parent, CurrentOf(s, b), false),
              seq(|outputs|, i requires 0 <= i < |outputs| => Message(outputs[i], tools[i])))
  {
    hide Collect, Replayable, CurrentTurn, LastState, FindReplay, PrepareOutputs, Inv;
    var previous := if HasLive(s, b) then Some(s.responses[b.previousId]) else None;
    NoReplay(s, outputs, CurrentOf(s, b), now);
    BoundOutputs(s, previous, CurrentOf(s, b), at, outputs, tools);
  }

  /** A bound call has no receipt, so nothing is replayed. */
  lemma NoReplay(s: State, outputs: seq<Output>, request: Body, now: int)
    requires Inv(s) && outputs != [] && outputs[0].callId in s.tools
    ensures FindReplay(s, outputs, request, now) == None
  {
    hide Collect, Candidate, Covered, Ids, FlightsFit, ShapesFit, Pick;
    assert outputs[0] in outputs;
    assert outputs[0].callId in s.tools.Keys;
  }

  lemma BoundOutputs(s: State, previous: Option<Binding>, c: Body, at: Binding, outputs: seq<Output>, tools: seq<Str>)
    requires Inv(s) && outputs != [] && |tools| == |outputs|
    requires forall i :: 0 <= i < |outputs| ==>
               outputs[i].callId in s.tools && s.tools[outputs[i].callId] == ToolBinding(at, tools[i])
    ensures PrepareOutputs(s, previous, c, outputs) == Run(
              Turn(true, outputs, outputs, at.conversation, at.parent, c, false),
              seq(|outputs|, i requires 0 <= i < |outputs| => Message(outputs[i], tools[i])))
  {
    hide Collect, Replayable, Ids, FlightsFit, ShapesFit, Pick, Active, ToolMessages;
    forall o | o in outputs ensures o.callId in s.tools && !HasReceipt(s, o) && s.tools[o.callId].at == at {
      assert o.callId in s.tools.Keys;
    }
    AllActive(s, outputs);
    assert outputs[0] in outputs;
    MessagesAre(s, outputs, at, tools);
  }

  lemma MessagesAre(s: State, outputs: seq<Output>, at: Binding, tools: seq<Str>)
    requires |tools| == |outputs| && forall o <- outputs :: o.callId in s.tools
    requires forall i :: 0 <= i < |outputs| ==> s.tools[outputs[i].callId] == ToolBinding(at, tools[i])
    ensures ToolMessages(s, outputs) == seq(|outputs|, i requires 0 <= i < |outputs| => Message(outputs[i], tools[i]))
  {}

  // ---------------------------------------------------------------- what has expired

  /** A last reasoning state that has expired opens a new conversation. */
  lemma ExpiredState(s: State, b: Body, now: int, k: nat)
    requires IsLastState(b.input, k)
    requires var token := b.input[k].token.value; token in s.reasoning ==> s.reasoning[token].expires <= now
    requires var p := Prune(s, now);
             !HasLive(p, b) && !LostPrevious(p, b) && forall x <- CurrentOf(p, b).input :: !IsResult(x)
    ensures var r := Prepare(Prune(s, now), b, now); r.Run? && r.turn.conversation == [] && r.turn.parent == []
    ensures CurrentOf(Prune(s, now), b).input == b.input[..k] + b.input[k + 1..]
  {
    hide Prepare, LostPrevious, CurrentOf;
    var p := Prune(s, now);
    PlainTurn(p, b, now);
    CurrentItems(p, b, k);
    forall j: nat | IsLastState(b.input, j) ensures j == k { SameLast(b.input, j, k); }
  }

  lemma SameLast(items: seq<Item>, j: nat, k: nat)
    requires IsLastState(items, j) && IsLastState(items, k)
    ensures j == k
  {}

  /** A result for a call that has expired and was not consumed is refused, or answered by its replay, or rebuilt. */
  lemma ExpiredCall(s: State, b: Body, now: int, o: Output)
    requires var p := Prune(s, now);
             && !LostPrevious(p, b) && Collect(CurrentOf(p, b).input).Some? && o in Collect(CurrentOf(p, b).input).value
             && (HasLive(p, b) || !Replayable(CurrentOf(p, b).input))
    requires (o.callId in s.tools ==> s.tools[o.callId].at.expires <= now) && !Consumed(s, o)
    ensures var r := Prepare(Prune(s, now), b, now); r.Replayed? || r == Rejected(StateNotFound)
  {
    hide Prepare, LostPrevious, CurrentOf, Collect, Replayable, HasLive, Consistent, Distinct;
    var p := Prune(s, now);
    CollectExact(CurrentOf(p, b).input);
    NoResults(CurrentOf(p, b).input);
    ResultsOutcome(p, b, now);
    assert Strange(p, o);
  }

  /** Without a look for replays there is none: not for a state without a live response, nor for a lost one. */
  lemma NoLookNoReplay(s: State, b: Body, now: int)
    ensures !LooksForReplay(s, b) ==> !Prepare(s, b, now).Replayed?
  {
    hide Collect, FindReplay, PrepareOutputs, LastState, VisibleHistory, CurrentTurn;
    var usesState := LastState(b.input).Some?;
    if !LooksForReplay(s, b) && !Prepare(s, b, now).Rejected? {
      var (c, at) := CurrentTurn(s, b, usesState);
      var outputs := Collect(c.input).value;
      if outputs != [] { NotReplayed(s, None, c, outputs); }
    }
  }

  lemma NotReplayed(s: State, previous: Option<Binding>, c: Body, outputs: seq<Output>)
    requires outputs != []
    ensures !PrepareOutputs(s, previous, c, outputs).Replayed?
  {
    hide Replayable, OnePlace, Conversations, Parents, Active;
  }

  lemma {:induction false} NoCandidate(s: State, outputs: seq<Output>, request: Body, now: int)
    requires s.replays.Keys == {}
    ensures Candidate(s, outputs, request, now) == None
  {
    if outputs != [] {
      assert outputs[|outputs| - 1].callId !in s.replays.Keys;
      NoCandidate(s, outputs[..|outputs| - 1], request, now);
    }
  }

  /** What is forgotten is lost to later requests, and nothing else is. */
  lemma ForgottenIsLost(s: State, x: Forgotten, b: Body, now: int)
    ensures var e := Forget(s, x);
            && (b.previousId in x.responses && b.previousId != [] && !VisibleHistory(b.input) ==>
                  Prepare(e, b, now) == Rejected(StateNotFound))
            && (s.replays.Keys <= x.replays ==> !Prepare(e, b, now).Replayed?)
            && (forall r :: r in e.responses <==> r in s.responses && r !in x.responses)
            && (forall t :: t in e.reasoning <==> t in s.reasoning && t !in x.reasoning)
            && (forall c :: c in e.tools <==> c in s.tools && c !in x.tools)
            && (forall c :: c in e.consumed <==> c in s.consumed && c !in x.consumed)
            && (forall k :: k in e.replays <==> k in s.replays && k !in x.replays)
  {
    hide Collect, Candidate, Covered, PrepareOutputs, LastState, VisibleHistory, CurrentTurn;
    var e := Forget(s, x);
    if s.replays.Keys <= x.replays && !Prepare(e, b, now).Rejected? {
      assert e.replays.Keys == {};
      var previous := if b.previousId != [] && b.previousId in e.responses then Some(e.responses[b.previousId]) else None;
      var (c, at) := CurrentTurn(e, b, previous.None? && LastState(b.input).Some?);
      var outputs := Collect(c.input).value;
      NoCandidate(e, outputs, c, now);
      assert FindReplay(e, outputs, c, now) == None;
      if outputs != [] { NotReplayed(e, previous, c, outputs); }
    }
  }
}
