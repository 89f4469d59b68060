/** Tool results in a Responses request: which ones it carries, and whether its visible history can be replayed. */
module ToolOutputs {
  import opened Units
  import opened JsonText

  datatype CallKind = FunctionKind | CustomKind | SearchKind

  /** An input item, as far as continuing a turn looks at it; call ids are trimmed, and empty when missing. */
  datatype Item =
    | CallMade(kind: CallKind, callId: Str)
    | CallResult(kind: CallKind, callId: Str, content: Json)
    | ReasoningState(token: Option<Str>)
    | AssistantMessage(shown: bool)
    | AgentMessage(shown: bool)
    | OtherOutput
    | OtherInput

  /** Its fingerprint identifies it: the digest of a call id and an output is taken to be injective. */
  datatype Output = Output(callId: Str, content: Json)

  // ---------------------------------------------------------------- collecting

  function Find(outputs: seq<Output>, callId: Str): (r: Option<Output>)
    ensures r.Some? ==> r.value in outputs && r.value.callId == callId
    ensures r.None? ==> forall o <- outputs :: o.callId != callId
  {
    if outputs == [] then None
    else if outputs[0].callId == callId then Some(outputs[0])
    else Find(outputs[1..], callId)
  }

  predicate Distinct(outputs: seq<Output>) {
    forall i, j :: 0 <= i < j < |outputs| ==> outputs[i].callId != outputs[j].callId
  }

  predicate IsResult(item: Item) { item.CallResult? && item.callId != [] }

  /** No two results of one call differ. */
  predicate Consistent(items: seq<Item>) {
    forall i, j :: 0 <= i < j < |items| && IsResult(items[i]) && IsResult(items[j]) && items[i].callId == items[j].callId ==>
      items[i].content == items[j].content
  }

  /** The outputs, each call once, in the order of their first results; None when two results conflict. */
  function Collect(items: seq<Item>): Option<seq<Output>> {
    if items == [] then Some([])
    else
      var r := Collect(items[..|items| - 1]);
      var item := items[|items| - 1];
      if r.None? || !IsResult(item) then r
      else
        var seen := Find(r.value, item.callId);
        if seen.None? then Some(r.value + [Output(item.callId, item.content)])
        else if seen.value.content == item.content then r
        else None
  }

  /** The outputs are exactly the results, without repetition; there are none only when results conflict. */
  lemma {:induction false} CollectExact(items: seq<Item>)
    ensures Collect(items).Some? <==> Consistent(items)
    ensures Collect(items).Some? ==>
              && Distinct(Collect(items).value)
              && (forall o <- Collect(items).value ::
                    o.callId != [] && exists i :: 0 <= i < |items| && IsResult(items[i]) && Output(items[i].callId, items[i].content) == o)
              && (forall i :: 0 <= i < |items| && IsResult(items[i]) ==> Output(items[i].callId, items[i].content) in Collect(items).value)
  {
    hide Find, Consistent, Distinct;
    if items == [] {
      NothingCollected();
    } else {
      var n := |items| - 1;
      var init, item := items[..n], items[n];
      assert items == init + [item];
      CollectExact(init);
      ConsistentSnoc(init, item);
      var r := Collect(init);
      if r.Some? && IsResult(item) {
        CollectResult(init, item, r.value);
        CollectStep(items, init, item);
      }
    }
  }

  /** The outputs come in the order of the first results of their calls, which give their contents. */
  lemma {:induction false} CollectOrder(items: seq<Item>) returns (at: seq<nat>)
    requires Collect(items).Some?
    ensures var r := Collect(items).value;
            |at| == |r| && forall k :: 0 <= k < |at| ==>
              && at[k] < |items| && IsResult(items[at[k]]) && Output(items[at[k]].callId, items[at[k]].content) == r[k]
              && forall i :: 0 <= i < at[k] && IsResult(items[i]) ==> items[i].callId != items[at[k]].callId
    ensures forall j, k :: 0 <= j < k < |at| ==> at[j] < at[k]
  {
    hide Find, Distinct, Consistent;
    if items == [] {
      at := [];
    } else {
      var n := |items| - 1;
      var init, item := items[..n], items[n];
      var before := CollectOrder(init);
      at := before;
      var r := Collect(init).value;
      if IsResult(item) && Find(r, item.callId).None? {
        CollectExact(init);
        NewCallId(init, item, r);
        at := before + [n];
      }
      assert forall i :: 0 <= i < n ==> init[i] == items[i];
    }
  }

  lemma NewCallId(init: seq<Item>, item: Item, outputs: seq<Output>)
    requires IsResult(item) && Find(outputs, item.callId).None?
    requires forall i :: 0 <= i < |init| && IsResult(init[i]) ==> Output(init[i].callId, init[i].content) in outputs
    ensures forall i :: 0 <= i < |init| && IsResult(init[i]) ==> init[i].callId != item.callId
  {
    forall i | 0 <= i < |init| && IsResult(init[i]) ensures init[i].callId != item.callId {
      assert Output(init[i].callId, init[i].content) in outputs;
    }
  }

  lemma NothingCollected()
    ensures Consistent([]) && Distinct([])
  {}

  lemma ConsistentSnoc(init: seq<Item>, item: Item)
    ensures Consistent(init + [item]) <==>
            Consistent(init)
            && (IsResult(item) ==> forall i :: 0 <= i < |init| && IsResult(init[i]) && init[i].callId == item.callId ==>
                                                  init[i].content == item.content)
  {
    var items := init + [item];
    if Consistent(items) {
      forall i, j | 0 <= i < j < |init| && IsResult(init[i]) && IsResult(init[j]) && init[i].callId == init[j].callId
        ensures init[i].content == init[j].content
      {
        assert items[i] == init[i] && items[j] == init[j];
      }
      forall i | IsResult(item) && 0 <= i < |init| && IsResult(init[i]) && init[i].callId == item.callId
        ensures init[i].content == item.content
      {
        assert items[i] == init[i] && items[|init|] == item;
      }
    }
  }

  /** A further result conflicts exactly when its call's output is another one, and is new when its call has none. */
  lemma CollectResult(init: seq<Item>, item: Item, outputs: seq<Output>)
    requires IsResult(item) && Distinct(outputs)
    requires Consistent(init)
    requires forall o <- outputs ::
               exists i :: 0 <= i < |init| && IsResult(init[i]) && Output(init[i].callId, init[i].content) == o
    requires forall i :: 0 <= i < |init| && IsResult(init[i]) ==> Output(init[i].callId, init[i].content) in outputs
    ensures var seen := Find(outputs, item.callId);
            && (seen.None? ==> Distinct(outputs + [Output(item.callId, item.content)]))
            && ((seen.Some? ==> seen.value.content == item.content) <==>
                (forall i :: 0 <= i < |init| && IsResult(init[i]) && init[i].callId == item.callId ==>
                   init[i].content == item.content))
  {
    var seen := Find(outputs, item.callId);
    if seen.Some? {
      var k :| 0 <= k < |init| && IsResult(init[k]) && Output(init[k].callId, init[k].content) == seen.value;
      forall i | 0 <= i < |init| && IsResult(init[i]) && init[i].callId == item.callId
        ensures init[i].content == seen.value.content
      {
        if i < k { assert init[i].content == init[k].content; } else if k < i { assert init[k].content == init[i].content; }
      }
    } else {
      forall i | 0 <= i < |init| && IsResult(init[i]) ensures init[i].callId != item.callId {
        assert Output(init[i].callId, init[i].content) in outputs;
      }
    }
  }

  lemma CollectStep(items: seq<Item>, init: seq<Item>, item: Item)
    requires items == init + [item] && Collect(init).Some? && IsResult(item)
    ensures items[..|items| - 1] == init && items[|items| - 1] == item
  {}

  /** responseToolOutputs; None when it throws. */
  method ResponseToolOutputs(items: seq<Item>) returns (r: Option<seq<Output>>)
    ensures r == Collect(items)
  {
    var outputs: seq<Output> := [];
    var contents: map<Str, Json> := map[];
    var i := 0;
    while i < |items|
      invariant i <= |items|
      invariant Collect(items[..i]) == Some(outputs)
      invariant forall o <- outputs :: o.callId in contents && contents[o.callId] == o.content
      invariant forall id <- contents :: exists o <- outputs :: o.callId == id
    {
      var item := items[i];
      assert items[..i + 1][..i] == items[..i] && items[..i + 1][i] == item;
      ghost var before := outputs;
      if IsResult(item) {
        if item.callId in contents {
          if contents[item.callId] != item.content {
            CollectConflict(items, i + 1);
            return None;
          }
        } else {
          outputs := outputs + [Output(item.callId, item.content)];
          contents := contents[item.callId := item.content];
          assert outputs[|before|] == Output(item.callId, item.content);
          assert forall o <- before :: o in outputs;
        }
      }
      i := i + 1;
    }
    assert items[..i] == items;
    return Some(outputs);
  }

  /** A conflict is final. */
  lemma {:induction false} CollectConflict(items: seq<Item>, k: nat)
    requires k <= |items| && Collect(items[..k]).None?
    ensures Collect(items).None?
    decreases |items| - k
  {
    if k == |items| {
      assert items[..k] == items;
    } else {
      assert items[..k + 1][..k] == items[..k];
      CollectConflict(items, k + 1);
    }
  }

  // ---------------------------------------------------------------- visible history

  predicate CallBefore(items: seq<Item>, j: nat) {
    j < |items| && items[j].CallResult? && exists i :: 0 <= i < j && items[i] == CallMade(items[j].kind, items[j].callId)
  }

  /**
   * Every call has an id of its own, every result follows a call of its id and kind, no call has two results, and
   * there is a result.
   */
  predicate Replayable(items: seq<Item>) {
    && (forall i :: 0 <= i < |items| && (items[i].CallMade? || items[i].CallResult?) ==> items[i].callId != [])
    && (forall i, j :: 0 <= i < j < |items| && items[i].CallMade? && items[j].CallMade? ==> items[i].callId != items[j].callId)
    && (forall i, j :: 0 <= i < j < |items| && items[i].CallResult? && items[j].CallResult? ==> items[i].callId != items[j].callId)
    && (forall j :: 0 <= j < |items| && items[j].CallResult? ==> CallBefore(items, j))
    && (exists j :: 0 <= j < |items| && items[j].CallResult?)
  }

  /** What the scan knows after `n` items. */
  ghost predicate Scanned(items: seq<Item>, n: nat, calls: map<Str, CallKind>, completed: set<Str>) {
    && n <= |items|
    && (forall id <- calls :: exists i :: 0 <= i < n && items[i] == CallMade(calls[id], id))
    && (forall i :: 0 <= i < n && items[i].CallMade? ==> items[i].callId in calls && calls[items[i].callId] == items[i].kind)
    && (forall id <- completed :: exists i :: 0 <= i < n && items[i].CallResult? && items[i].callId == id)
    && (forall i :: 0 <= i < n && items[i].CallResult? ==> items[i].callId in completed)
    && Sound(items[..n])
  }

  /** Replayable, but for having a result. */
  predicate Sound(items: seq<Item>) {
    && (forall i :: 0 <= i < |items| && (items[i].CallMade? || items[i].CallResult?) ==> items[i].callId != [])
    && (forall i, j :: 0 <= i < j < |items| && items[i].CallMade? && items[j].CallMade? ==> items[i].callId != items[j].callId)
    && (forall i, j :: 0 <= i < j < |items| && items[i].CallResult? && items[j].CallResult? ==> items[i].callId != items[j].callId)
    && (forall j :: 0 <= j < |items| && items[j].CallResult? ==> CallBefore(items, j))
  }

  lemma SoundSnoc(items: seq<Item>, item: Item)
    requires Sound(items)
    requires item.CallMade? ==> item.callId != [] && forall i :: 0 <= i < |items| && items[i].CallMade? ==> items[i].callId != item.callId
    requires item.CallResult? ==>
               && item.callId != [] && CallMade(item.kind, item.callId) in items
               && forall i :: 0 <= i < |items| && items[i].CallResult? ==> items[i].callId != item.callId
    ensures Sound(items + [item])
  {
    var all := items + [item];
    forall j | 0 <= j < |all| && all[j].CallResult? ensures CallBefore(all, j) {
      if j < |items| {
        assert CallBefore(items, j);
        var i :| 0 <= i < j && items[i] == CallMade(items[j].kind, items[j].callId);
        assert all[i] == CallMade(all[j].kind, all[j].callId);
      } else {
        var i :| 0 <= i < |items| && items[i] == CallMade(item.kind, item.callId);
        assert all[i] == CallMade(all[j].kind, all[j].callId);
      }
    }
  }

  lemma ScanCall(items: seq<Item>, n: nat, calls: map<Str, CallKind>, completed: set<Str>)
    requires Scanned(items, n, calls, completed) && n < |items| && items[n].CallMade?
    requires items[n].callId != [] && items[n].callId !in calls
    ensures Scanned(items, n + 1, calls[items[n].callId := items[n].kind], completed)
  {
    hide Sound;
    var calls' := calls[items[n].callId := items[n].kind];
    SoundSnoc(items[..n], items[n]);
    assert items[..n + 1] == items[..n] + [items[n]];
    forall id | id in calls' ensures exists i :: 0 <= i < n + 1 && items[i] == CallMade(calls'[id], id) {
      if id == items[n].callId { assert items[n] == CallMade(calls'[id], id); }
    }
  }

  lemma ScanResult(items: seq<Item>, n: nat, calls: map<Str, CallKind>, completed: set<Str>)
    requires Scanned(items, n, calls, completed) && n < |items| && items[n].CallResult?
    requires items[n].callId != [] && items[n].callId in calls && calls[items[n].callId] == items[n].kind
    requires items[n].callId !in completed
    ensures Scanned(items, n + 1, calls, completed + {items[n].callId})
  {
    hide Sound;
    var i :| 0 <= i < n && items[i] == CallMade(calls[items[n].callId], items[n].callId);
    assert items[..n][i] == CallMade(items[n].kind, items[n].callId);
    SoundSnoc(items[..n], items[n]);
    assert items[..n + 1] == items[..n] + [items[n]];
    assert items[n].CallResult? && items[n].callId == items[n].callId;
  }

  lemma ScanOther(items: seq<Item>, n: nat, calls: map<Str, CallKind>, completed: set<Str>)
    requires Scanned(items, n, calls, completed) && n < |items| && !items[n].CallMade? && !items[n].CallResult?
    ensures Scanned(items, n + 1, calls, completed)
  {
    hide Sound;
    SoundSnoc(items[..n], items[n]);
    assert items[..n + 1] == items[..n] + [items[n]];
  }

  /** A call without an id of its own, or with the id of an earlier result. */
  lemma BadCall(items: seq<Item>, n: nat, calls: map<Str, CallKind>, completed: set<Str>)
    requires Scanned(items, n, calls, completed) && n < |items| && items[n].CallMade?
    requires items[n].callId == [] || items[n].callId in calls || items[n].callId in completed
    ensures !Replayable(items)
  {
    if items[n].callId in completed {
      var j :| 0 <= j < n && items[j].CallResult? && items[j].callId == items[n].callId;
      assert items[..n][j] == items[j];
      assert CallBefore(items[..n], j);
      var i :| 0 <= i < j && items[..n][i] == CallMade(items[j].kind, items[j].callId);
      assert items[i].CallMade? && items[i].callId == items[n].callId;
    } else if items[n].callId in calls {
      var i :| 0 <= i < n && items[i] == CallMade(calls[items[n].callId], items[n].callId);
      assert items[i].CallMade?;
    }
  }

  /** A result without a call of its id and kind before it, or the second of its call. */
  lemma BadResult(items: seq<Item>, n: nat, calls: map<Str, CallKind>, completed: set<Str>)
    requires Scanned(items, n, calls, completed) && n < |items| && items[n].CallResult?
    requires items[n].callId == [] || items[n].callId !in calls || calls[items[n].callId] != items[n].kind
             || items[n].callId in completed
    ensures !Replayable(items)
  {
    if items[n].callId in completed {
      var j :| 0 <= j < n && items[j].CallResult? && items[j].callId == items[n].callId;
    } else if items[n].callId != [] {
      assert !CallBefore(items, n);
    }
  }

  lemma ScanEnd(items: seq<Item>, calls: map<Str, CallKind>, completed: set<Str>)
    requires Scanned(items, |items|, calls, completed)
    ensures Replayable(items) <==> completed != {}
  {
    assert items[..|items|] == items;
    if completed != {} {
      var id :| id in completed;
      var i :| 0 <= i < |items| && items[i].CallResult? && items[i].callId == id;
    }
  }

  /** hasReplayableVisibleToolHistory. */
  method HasReplayableVisibleToolHistory(items: seq<Item>) returns (r: bool)
    ensures r == Replayable(items)
  {
    hide Scanned, Replayable, Sound;
    var calls: map<Str, CallKind> := map[];
    var completed: set<Str> := {};
    var outputCount, n := 0, 0;
    ScanStart(items);
    while n < |items|
      invariant n <= |items| && Scanned(items, n, calls, completed)
      invariant outputCount == |completed|
    {
      var item := items[n];
      match item {
        case CallMade(kind, callId) =>
          if callId == [] || callId in calls || callId in completed {
            BadCall(items, n, calls, completed);
            return false;
          }
          ScanCall(items, n, calls, completed);
          calls := calls[callId := kind];
        case CallResult(kind, callId, _) =>
          outputCount := outputCount + 1;
          if callId == [] || callId !in calls || calls[callId] != kind || callId in completed {
            BadResult(items, n, calls, completed);
            return false;
          }
          ScanResult(items, n, calls, completed);
          completed := completed + {callId};
        case _ =>
          ScanOther(items, n, calls, completed);
      }
      n := n + 1;
    }
    ScanEnd(items, calls, completed);
    r := outputCount > 0 && |completed| == outputCount;
  }

  lemma ScanStart(items: seq<Item>)
    ensures Scanned(items, 0, map[], {})
  {}
}
