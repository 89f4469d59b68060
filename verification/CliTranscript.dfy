/** Which calls a restore makes, in which order, for every way in which they may fail; and when it succeeds. */
module CliTranscript {
  import opened Units
  import opened CliRestore

  // ---------------------------------------------------------------- calls

  function Calls(log: seq<Entry>): seq<Call> { seq(|log|, i requires 0 <= i < |log| => log[i].call) }

  function Closes(ids: seq<Str>): seq<Call> { seq(|ids|, i requires 0 <= i < |ids| => CloseOne(ids[i])) }
  function Starts(ids: seq<Str>): seq<Call> { seq(|ids|, i requires 0 <= i < |ids| => StartOne(ids[i])) }
  function Repairs(scopes: seq<Str>): seq<Call> { seq(|scopes|, i requires 0 <= i < |scopes| => Repair(scopes[i])) }
  function Validates(scopes: seq<Str>): seq<Call> { seq(|scopes|, i requires 0 <= i < |scopes| => Validate(scopes[i])) }

  /** The repairs from position `first` on are undone from the last to the first. */
  function Undos(first: nat, n: nat): seq<Call> { seq(n, i requires 0 <= i < n => Undo(first + n - 1 - i)) }

  /** Starting again is followed by one look at what is running. */
  function Restarts(ids: seq<Str>): seq<Call> { Starts(ids) + if ids == [] then [] else [Snapshot] }

  lemma CallsSnoc(w: World, c: Call)
    ensures Calls(Ask(w, c).log) == Calls(w.log) + [c]
  {
    hide Answer;
  }

  lemma ClosesSnoc(ids: seq<Str>, n: nat)
    requires n < |ids|
    ensures Closes(ids[..n + 1]) == Closes(ids[..n]) + [CloseOne(ids[n])]
    ensures Starts(ids[..n + 1]) == Starts(ids[..n]) + [StartOne(ids[n])]
    ensures Repairs(ids[..n + 1]) == Repairs(ids[..n]) + [Repair(ids[n])]
    ensures Validates(ids[..n + 1]) == Validates(ids[..n]) + [Validate(ids[n])]
  {}

  // ---------------------------------------------------------------- the running instances

  /** The ids of the running instances, in their order. */
  lemma {:induction false} RunningJoin(a: seq<Instance>, b: seq<Instance>, x: Instance)
    ensures Running(a + b) == Running(a) + Running(b)
    ensures Running([x]) == if x.running then [x.id] else []
  {
    hide Running;
    RunningOne(x);
    if a == [] {
      NoneRunning();
      assert a + b == b;
    } else {
      RunningJoin(a[1..], b, x);
      RunningFirst(a + b);
      RunningFirst(a);
      assert (a + b)[1..] == a[1..] + b;
      JoinThree(if a[0].running then [a[0].id] else [], Running(a[1..]), Running(b));
    }
  }

  lemma NoneRunning()
    ensures Running([]) == []
  {}

  lemma RunningOne(x: Instance)
    ensures Running([x]) == if x.running then [x.id] else []
  {
    assert [x][1..] == [];
  }

  lemma RunningFirst(a: seq<Instance>)
    requires a != []
    ensures Running(a) == (if a[0].running then [a[0].id] else []) + Running(a[1..])
  {}

  lemma JoinThree(a: seq<Str>, b: seq<Str>, c: seq<Str>)
    ensures a + (b + c) == a + b + c
  {}

  // ---------------------------------------------------------------- the pieces

  predicate NoneFails(log: seq<Entry>, first: nat) {
    forall i :: first <= i < |log| ==> !log[i].reply.Fails?
  }

  lemma NoneFailsSnoc(w: World, c: Call, first: nat)
    ensures NoneFails(Ask(w, c).log, first) <==> NoneFails(w.log, first) && (first <= |w.log| ==> !Answer(w, c).Fails?)
    ensures NoneFails(w.log, |w.log|)
  {
    hide Answer;
    var log := Ask(w, c).log;
    assert log[|w.log|].reply == Answer(w, c);
    if NoneFails(log, first) {
      forall i | first <= i < |w.log| ensures !w.log[i].reply.Fails? { assert log[i] == w.log[i]; }
    }
  }

  /** Closing in order, up to the first failure. */
  lemma {:induction false} CloseAllCalls(w: World, ids: seq<Str>, n: nat, first: nat)
    requires n <= |ids| && first <= |w.log|
    ensures var c := CloseAll(w, ids, n);
            && w.log <= c.world.log
            && (if c.ok then c.closed == ids && Calls(c.world.log) == Calls(w.log) + Closes(ids[n..])
                else exists k :: n <= k < |ids| && c.closed == ids[..k]
                                 && Calls(c.world.log) == Calls(w.log) + Closes(ids[n..k + 1]))
            && (NoneFails(c.world.log, first) <==> c.ok && NoneFails(w.log, first))
    decreases |ids| - n
  {
    hide Answer, Ask, Calls, NoneFails;
    if n == |ids| {
      assert Closes(ids[n..]) == [];
      assert Calls(w.log) + [] == Calls(w.log);
    } else {
      var c := CloseOne(ids[n]);
      CallsSnoc(w, c);
      NoneFailsSnoc(w, c, first);
      LogGrows(w, c);
      if Answer(w, c).Fails? {
        assert Closes(ids[n..n + 1]) == [c];
      } else {
        CloseAllCalls(Ask(w, c), ids, n + 1, first);
        assert Closes(ids[n..]) == [c] + Closes(ids[n + 1..]);
        var r := CloseAll(Ask(w, c), ids, n + 1);
        if !r.ok {
          var k :| n + 1 <= k < |ids| && r.closed == ids[..k]
                   && Calls(r.world.log) == Calls(Ask(w, c).log) + Closes(ids[n + 1..k + 1]);
          assert Closes(ids[n..k + 1]) == [c] + Closes(ids[n + 1..k + 1]);
        }
      }
    }
  }

  lemma LogGrows(w: World, c: Call)
    ensures w.log < Ask(w, c).log && |Ask(w, c).log| == |w.log| + 1
  {}

  /** Starting in order, whatever fails. */
  lemma {:induction false} StartAllCalls(w: World, ids: seq<Str>, first: nat)
    requires first <= |w.log|
    ensures var (a, ok) := StartAll(w, ids);
            && w.log <= a.log && Calls(a.log) == Calls(w.log) + Starts(ids)
            && (NoneFails(a.log, first) <==> ok && NoneFails(w.log, first))
  {
    hide Answer, Ask, Calls, NoneFails;
    if ids == [] {
      assert Calls(w.log) + [] == Calls(w.log);
    } else {
      var n := |ids| - 1;
      StartAllCalls(w, ids[..n], first);
      var a := StartAll(w, ids[..n]).0;
      CallsSnoc(a, StartOne(ids[n]));
      NoneFailsSnoc(a, StartOne(ids[n]), first);
      LogGrows(a, StartOne(ids[n]));
      ClosesSnoc(ids, n);
      assert ids[..n + 1] == ids;
    }
  }

  /** The instances are reported running in the last reply. */
  predicate AllUp(log: seq<Entry>, ids: seq<Str>) {
    log != [] && log[|log| - 1].reply.Reports?
    && forall id <- ids :: exists x <- log[|log| - 1].reply.instances :: x.running && x.id == id
  }

  lemma {:induction false} RunningIn(instances: seq<Instance>, id: Str)
    ensures id in Running(instances) <==> exists x <- instances :: x.running && x.id == id
  {
    if instances != [] {
      RunningIn(instances[1..], id);
      assert instances == [instances[0]] + instances[1..];
    }
  }

  lemma RestartCalls(w: World, ids: seq<Str>, first: nat)
    requires first <= |w.log|
    ensures var (a, ok) := Restart(w, ids);
            && w.log <= a.log && Calls(a.log) == Calls(w.log) + Restarts(ids)
            && (ok ==> (NoneFails(a.log, first) <==> NoneFails(w.log, first)))
            && (ok <==> NoneFails(a.log, |w.log|) && (ids != [] ==> AllUp(a.log, ids)))
  {
    hide Answer, Calls, NoneFails, StartAll;
    StartAllCalls(w, ids, first);
    StartAllCalls(w, ids, |w.log|);
    NoneFailsSnoc(w, Snapshot, |w.log|);
    var a := StartAll(w, ids).0;
    if ids != [] {
      CallsSnoc(a, Snapshot);
      NoneFailsSnoc(a, Snapshot, first);
      NoneFailsSnoc(a, Snapshot, |w.log|);
      var r := Answer(a, Snapshot);
      if r.Reports? {
        forall id ensures id in Running(r.instances) <==> exists x <- r.instances :: x.running && x.id == id {
          RunningIn(r.instances, id);
        }
      }
    }
  }

  /** Repairing in order, up to the first failure; a repair is known by where it stands in the log. */
  lemma {:induction false} RepairAllCalls(w: World, scopes: seq<Str>, n: nat, repairs: seq<nat>, first: nat)
    requires n == |repairs| <= |scopes| && n <= |w.log| && first <= |w.log|
    requires forall i :: 0 <= i < n ==> repairs[i] == |w.log| - n + i
    ensures var r := RepairAll(w, scopes, n, repairs); var m := |r.repairs|;
            && w.log <= r.world.log && n <= m <= |scopes| && (forall i :: 0 <= i < m ==> r.repairs[i] == |w.log| - n + i)
            && (if r.ok then m == |scopes| && Calls(r.world.log) == Calls(w.log) + Repairs(scopes[n..])
                else m < |scopes| && Calls(r.world.log) == Calls(w.log) + Repairs(scopes[n..m + 1]))
            && (NoneFails(r.world.log, first) <==> r.ok && NoneFails(w.log, first))
    decreases |scopes| - n
  {
    hide Answer, Ask, Calls, NoneFails;
    if n == |scopes| {
      assert Repairs(scopes[n..]) == [];
      assert Calls(w.log) + [] == Calls(w.log);
    } else {
      var c := Repair(scopes[n]);
      CallsSnoc(w, c);
      NoneFailsSnoc(w, c, first);
      LogGrows(w, c);
      if Answer(w, c).Fails? {
        assert Repairs(scopes[n..n + 1]) == [c];
      } else {
        RepairAllCalls(Ask(w, c), scopes, n + 1, repairs + [|w.log|], first);
        var m := |RepairAll(Ask(w, c), scopes, n + 1, repairs + [|w.log|]).repairs|;
        assert Repairs(scopes[n..]) == [c] + Repairs(scopes[n + 1..]);
        if m < |scopes| { assert Repairs(scopes[n..m + 1]) == [c] + Repairs(scopes[n + 1..m + 1]); }
      }
    }
  }

  /** Validating in order, up to the first failure; `v` are asked for. */
  lemma {:induction false} ValidateAllCalls(w: World, scopes: seq<Str>, n: nat, first: nat) returns (v: nat)
    requires n <= |scopes| && first <= |w.log|
    ensures var (a, ok) := ValidateAll(w, scopes, n);
            && w.log <= a.log && n <= v <= |scopes| && Calls(a.log) == Calls(w.log) + Validates(scopes[n..v])
            && (if ok then v == |scopes| else v > n)
            && (NoneFails(a.log, first) <==> ok && NoneFails(w.log, first))
    decreases |scopes| - n
  {
    hide Answer, Ask, Calls, NoneFails;
    if n == |scopes| {
      v := n;
      assert Validates(scopes[n..n]) == [];
      assert Calls(w.log) + [] == Calls(w.log);
    } else {
      var c := Validate(scopes[n]);
      CallsSnoc(w, c);
      NoneFailsSnoc(w, c, first);
      LogGrows(w, c);
      if Answer(w, c).Fails? {
        v := n + 1;
        assert Validates(scopes[n..n + 1]) == [c];
      } else {
        v := ValidateAllCalls(Ask(w, c), scopes, n + 1, first);
        assert Validates(scopes[n..v]) == [c] + Validates(scopes[n + 1..v]);
      }
    }
  }

  /** Undoing from the last repair to the first, whatever fails. */
  lemma {:induction false} UndoAllCalls(w: World, repairs: seq<nat>, base: nat)
    requires forall i :: 0 <= i < |repairs| ==> repairs[i] == base + i
    ensures var (a, ok) := UndoAll(w, repairs);
            w.log <= a.log && Calls(a.log) == Calls(w.log) + Undos(base, |repairs|)
            && (ok <==> NoneFails(a.log, |w.log|))
    decreases |repairs|
  {
    UndoFrom(w, repairs, base, |w.log|);
    NoneFailsSnoc(w, Snapshot, 0);
  }

  lemma {:induction false} UndoFrom(w: World, repairs: seq<nat>, base: nat, first: nat)
    requires first <= |w.log| && forall i :: 0 <= i < |repairs| ==> repairs[i] == base + i
    ensures var (a, ok) := UndoAll(w, repairs);
            && w.log <= a.log && Calls(a.log) == Calls(w.log) + Undos(base, |repairs|)
            && (NoneFails(a.log, first) <==> ok && NoneFails(w.log, first))
    decreases |repairs|
  {
    hide Answer, Ask, Calls, NoneFails;
    if repairs == [] {
      assert Calls(w.log) + [] == Calls(w.log);
    } else {
      var n := |repairs| - 1;
      var c := Undo(repairs[n]);
      CallsSnoc(w, c);
      NoneFailsSnoc(w, c, first);
      LogGrows(w, c);
      UndoFrom(Ask(w, c), repairs[..n], base, first);
      assert Undos(base, n + 1) == [c] + Undos(base, n);
    }
  }

  lemma {:induction false} QuiesceCalls(w: World, ids: seq<Str>, first: nat)
    requires first <= |w.log|
    ensures var (a, ok) := Quiesce(w, ids);
            && w.log <= a.log && Calls(a.log) == Calls(w.log) + Closes(ids)
            && (NoneFails(a.log, first) <==> ok && NoneFails(w.log, first))
  {
    hide Answer, Ask, Calls, NoneFails;
    if ids == [] {
      assert Calls(w.log) + [] == Calls(w.log);
    } else {
      var n := |ids| - 1;
      QuiesceCalls(w, ids[..n], first);
      var a := Quiesce(w, ids[..n]).0;
      CallsSnoc(a, CloseOne(ids[n]));
      NoneFailsSnoc(a, CloseOne(ids[n]), first);
      LogGrows(a, CloseOne(ids[n]));
      ClosesSnoc(ids, n);
      assert ids[..n + 1] == ids;
    }
  }

  function Back(back: bool, ids: seq<Str>): seq<Call> { if back then Restarts(ids) else [] }

  /** Undoing, and starting again if no undoing failed. */
  lemma GoBackCalls(w: World, repairs: seq<nat>, closed: seq<Str>, base: nat) returns (back: bool)
    requires forall i :: 0 <= i < |repairs| ==> repairs[i] == base + i
    ensures var a := GoBack(w, repairs, closed);
            && w.log <= a.log && Calls(a.log) == Calls(w.log) + Undos(base, |repairs|) + Back(back, closed)
            && |w.log| + |repairs| <= |a.log|
            && (back <==> NoneFails(a.log[..|w.log| + |repairs|], |w.log|))
  {
    hide Answer, Calls, NoneFails, UndoAll, Restart;
    UndoAllCalls(w, repairs, base);
    var (a, ok) := UndoAll(w, repairs);
    back := ok;
    CallsLength(w.log, a.log, Undos(base, |repairs|));
    if ok {
      RestartCalls(a, closed, 0);
      var b := Restart(a, closed).0;
      assert b.log[..|a.log|] == a.log;
    } else {
      assert Calls(a.log) + [] == Calls(a.log) && a.log[..|a.log|] == a.log;
    }
  }

  lemma CallsLength(a: seq<Entry>, b: seq<Entry>, more: seq<Call>)
    requires Calls(b) == Calls(a) + more
    ensures |b| == |a| + |more|
  {
    assert |Calls(b)| == |b| && |Calls(a)| == |a|;
  }

  // ---------------------------------------------------------------- the whole restore

  /** Up to the repairs: a look, and all running instances closed. */
  function Prepared(ids: seq<Str>): seq<Call> { [Snapshot] + Closes(ids) }

  /** How far repairing got: `m` repairs and `v` validations were asked for, and `made` repairs have been made. */
  predicate GotTo(scopes: seq<Str>, m: nat, v: nat, made: nat) {
    (v == 0 && m <= |scopes| && m == made + 1) || (m == made == |scopes| && 0 < v <= |scopes|)
  }

  function Configured(ids: seq<Str>, scopes: seq<Str>): seq<Call> { Prepared(ids) + Repairs(scopes) + Validates(scopes) }

  /** Going back to before the restart. */
  function Returned(ids: seq<Str>, n: nat, quiet: bool, back: bool): seq<Call> {
    Closes(ids) + (if quiet then Undos(1 + |ids|, n) + Back(back, ids) else [])
  }

  ghost predicate Transcript(calls: seq<Call>, ids: seq<Str>, scopes: seq<Str>, preserve: bool, r: Outcome) {
    match r
    case SnapshotFailed => calls == [Snapshot]
    case CloseFailed => exists k :: 0 <= k < |ids| && calls == Prepared(ids[..k + 1]) + Restarts(ids[..k])
    case RepairFailed =>
      exists m: nat, v: nat, made: nat, back: bool ::
        && GotTo(scopes, m, v, made)
        && calls == Prepared(ids) + Repairs(scopes[..m]) + Validates(scopes[..v])
                    + Undos(1 + |ids|, made) + Back(back, ids)
    case RestartFailed =>
      && preserve
      && exists quiet: bool, back: bool :: calls == Configured(ids, scopes) + Restarts(ids) + Returned(ids, |scopes|, quiet, back)
    case Restored(closed, restarted) =>
      && closed == ids && restarted == (if preserve then ids else [])
      && calls == Configured(ids, scopes) + Back(preserve, ids)
  }

  /**
   * The calls of every restore, in their order, whatever fails.
   */
  lemma RestoreTranscript(replies: seq<Reply>, preserve: bool)
    ensures var (w, r) := Restore(World([], replies), preserve);
            w.log != [] && (w.log[0].reply.Reports? <==> !r.SnapshotFailed?)
    ensures var (w, r) := Restore(World([], replies), preserve);
            var instances := if w.log[0].reply.Reports? then w.log[0].reply.instances else [];
            var ids := Running(instances);
            Transcript(Calls(w.log), ids, Scopes(instances), preserve, r)
  {
    hide CloseAll, RepairAndRestart, Restart, Calls, NoneFails, Scopes, Running, Transcript;
    var w := World([], replies);
    var before := Answer(w, Snapshot);
    var a := Ask(w, Snapshot);
    CallsSnoc(w, Snapshot);
    NoCalls();
    assert Calls(a.log) == [Snapshot];
    var instances := if before.Reports? then before.instances else [];
    if !before.Reports? {
      FailedLook(Running(instances), Scopes(instances), preserve);
    } else {
      var ids := Running(instances);
      CloseAllCalls(a, ids, 0, 0);
      var c := CloseAll(a, ids, 0);
      assert ids[0..] == ids;
      assert c.world.log[0] == a.log[0];
      if !c.ok {
        RestartCalls(c.world, c.closed, 0);
        var k :| 0 <= k < |ids| && c.closed == ids[..k] && Calls(c.world.log) == [Snapshot] + Closes(ids[0..k + 1]);
        assert ids[0..k + 1] == ids[..k + 1];
        FailedClose(Calls(Restart(c.world, c.closed).0.log), ids, Scopes(instances), preserve, k);
      } else {
        CallsLength([], c.world.log, Prepared(ids));
        AfterClosing(c.world, Scopes(instances), ids, preserve);
      }
    }
  }

  lemma NoCalls()
    ensures Calls([]) == []
  {}

  lemma FailedLook(ids: seq<Str>, scopes: seq<Str>, preserve: bool)
    ensures Transcript([Snapshot], ids, scopes, preserve, SnapshotFailed)
  {}

  lemma FailedClose(calls: seq<Call>, ids: seq<Str>, scopes: seq<Str>, preserve: bool, k: nat)
    requires k < |ids| && calls == [Snapshot] + Closes(ids[..k + 1]) + Restarts(ids[..k])
    ensures Transcript(calls, ids, scopes, preserve, CloseFailed)
  {}

  lemma AfterClosing(w: World, scopes: seq<Str>, ids: seq<Str>, preserve: bool)
    requires Calls(w.log) == Prepared(ids) && |w.log| == 1 + |ids|
    ensures var (a, r) := RepairAndRestart(w, scopes, ids, preserve);
            && w.log <= a.log && Transcript(Calls(a.log), ids, scopes, preserve, r)
            && (r.RepairFailed? || r.RestartFailed? || r.Restored?)
  {
    hide Calls, NoneFails, RepairAll, ValidateAll, Restart, Quiesce, GoBack, Transcript;
    RepairAllCalls(w, scopes, 0, [], 0);
    var r := RepairAll(w, scopes, 0, []);
    var m, base := |r.repairs|, 1 + |ids|;
    assert scopes[0..] == scopes;
    if !r.ok {
      assert scopes[0..m + 1] == scopes[..m + 1];
      var back := GoBackCalls(r.world, r.repairs, ids, base);
      FailedRepair(Calls(GoBack(r.world, r.repairs, ids).log), ids, scopes, preserve, m + 1, 0, m, back);
    } else {
      var v := ValidateAllCalls(r.world, scopes, 0, 0);
      var (x, ok) := ValidateAll(r.world, scopes, 0);
      assert scopes[0..v] == scopes[..v] && scopes[..|scopes|] == scopes;
      if !ok {
        var back := GoBackCalls(x, r.repairs, ids, base);
        FailedRepair(Calls(GoBack(x, r.repairs, ids).log), ids, scopes, preserve, |scopes|, v, m, back);
      } else if !preserve {
        Succeeded(Calls(x.log), ids, scopes, preserve);
      } else {
        RestartCalls(x, ids, 0);
        var (y, started) := Restart(x, ids);
        if started {
          Succeeded(Calls(y.log), ids, scopes, preserve);
        } else {
          QuiesceCalls(y, ids, 0);
          var (z, quiet) := Quiesce(y, ids);
          if quiet {
            var back := GoBackCalls(z, r.repairs, ids, base);
            FailedRestart(Calls(GoBack(z, r.repairs, ids).log), ids, scopes, true, back);
          } else {
            FailedRestart(Calls(z.log), ids, scopes, false, false);
          }
        }
      }
    }
  }

  lemma FailedRepair(calls: seq<Call>, ids: seq<Str>, scopes: seq<Str>, preserve: bool, m: nat, v: nat, made: nat, back: bool)
    requires GotTo(scopes, m, v, made)
    requires calls == (if v == 0 then Prepared(ids) + Repairs(scopes[..m])
                       else Prepared(ids) + Repairs(scopes) + Validates(scopes[..v]))
                      + Undos(1 + |ids|, made) + Back(back, ids)
    ensures Transcript(calls, ids, scopes, preserve, RepairFailed)
  {
    hide Undos, Back, Prepared, Repairs;
    if v == 0 {
      assert Validates(scopes[..0]) == [];
      assert Prepared(ids) + Repairs(scopes[..m]) + [] == Prepared(ids) + Repairs(scopes[..m]);
    } else {
      assert scopes[..m] == scopes;
    }
  }

  lemma Succeeded(calls: seq<Call>, ids: seq<Str>, scopes: seq<Str>, preserve: bool)
    requires calls == if preserve then Configured(ids, scopes) + Restarts(ids) else Configured(ids, scopes)
    ensures Transcript(calls, ids, scopes, preserve, Restored(ids, if preserve then ids else []))
  {
    hide Configured, Restarts;
    assert Configured(ids, scopes) + [] == Configured(ids, scopes);
  }

  lemma FailedRestart(calls: seq<Call>, ids: seq<Str>, scopes: seq<Str>, quiet: bool, back: bool)
    requires calls == Configured(ids, scopes) + Restarts(ids) + Closes(ids)
                      + (if quiet then Undos(1 + |ids|, |scopes|) else []) + (if quiet then Back(back, ids) else [])
    ensures Transcript(calls, ids, scopes, true, RestartFailed)
  {
    hide Configured, Restarts, Closes, Undos, Back;
    assert Returned(ids, |scopes|, quiet, back)
        == Closes(ids) + (if quiet then Undos(1 + |ids|, |scopes|) + Back(back, ids) else []);
    assert calls == Configured(ids, scopes) + Restarts(ids) + Returned(ids, |scopes|, quiet, back);
  }

  // ---------------------------------------------------------------- when it succeeds

  lemma FailureStays(a: seq<Entry>, b: seq<Entry>, first: nat)
    requires a <= b && NoneFails(b, first)
    ensures NoneFails(a, first)
  {
    forall i | first <= i < |a| ensures !a[i].reply.Fails? { assert a[i] == b[i]; }
  }

  /** The look after starting again, and whether it did not show all of them running. */
  predicate LookMissed(log: seq<Entry>, ids: seq<Str>, scopes: seq<Str>) {
    var k := 2 + 2 * |ids| + 2 * |scopes|;
    ids != [] && k <= |log| && !AllUp(log[..k], ids)
  }

  ghost predicate Explained(log: seq<Entry>, ids: seq<Str>, scopes: seq<Str>, preserve: bool, r: Outcome) {
    && (r.Restored? ==> NoneFails(log, 0) && (preserve && ids != [] ==> AllUp(log, ids)))
    && (!r.Restored? ==> !NoneFails(log, 0) || (r.RestartFailed? && LookMissed(log, ids, scopes)))
  }

  /**
   * A restore succeeds only when no call has failed and, if instances were started again, the look behind it shows all of
   * them running; and it fails only when a call has failed, or when that look does not.
   */
  lemma SucceedsExactly(replies: seq<Reply>, preserve: bool)
    ensures var (w, r) := Restore(World([], replies), preserve);
            w.log != []
            && var instances := if w.log[0].reply.Reports? then w.log[0].reply.instances else [];
               Explained(w.log, Running(instances), Scopes(instances), preserve, r)
  {
    hide CloseAll, RepairAndRestart, Restart, Calls, NoneFails, Scopes, Running, LookMissed, AllUp;
    var w := World([], replies);
    var before := Answer(w, Snapshot);
    var a := Ask(w, Snapshot);
    NoneFailsSnoc(w, Snapshot, 0);
    CallsSnoc(w, Snapshot);
    NoCalls();
    assert NoneFails(w.log, 0);
    if before.Reports? {
      var ids := Running(before.instances);
      CloseAllCalls(a, ids, 0, 0);
      var c := CloseAll(a, ids, 0);
      assert ids[0..] == ids && c.world.log[0] == a.log[0];
      if !c.ok {
        RestartCalls(c.world, c.closed, 0);
        var log := Restart(c.world, c.closed).0.log;
        if NoneFails(log, 0) { FailureStays(c.world.log, log, 0); }
      } else {
        CallsLength([], c.world.log, Prepared(ids));
        ExplainedAfter(c.world, Scopes(before.instances), ids, preserve);
      }
    }
  }

  lemma ExplainedAfter(w: World, scopes: seq<Str>, ids: seq<Str>, preserve: bool)
    requires NoneFails(w.log, 0) && |w.log| == 1 + |ids|
    ensures var (a, r) := RepairAndRestart(w, scopes, ids, preserve);
            w.log <= a.log && Explained(a.log, ids, scopes, preserve, r)
  {
    hide Calls, NoneFails, RepairAll, ValidateAll, Restart, Quiesce, GoBack, AllUp;
    RepairAllCalls(w, scopes, 0, [], 0);
    var r := RepairAll(w, scopes, 0, []);
    assert scopes[0..] == scopes;
    if !r.ok {
      var back := GoBackCalls(r.world, r.repairs, ids, 1 + |ids|);
      var log := GoBack(r.world, r.repairs, ids).log;
      if NoneFails(log, 0) { FailureStays(r.world.log, log, 0); }
    } else {
      CallsLength(w.log, r.world.log, Repairs(scopes));
      var v := ValidateAllCalls(r.world, scopes, 0, 0);
      var (x, ok) := ValidateAll(r.world, scopes, 0);
      assert scopes[0..v] == scopes[..v];
      if !ok {
        var back := GoBackCalls(x, r.repairs, ids, 1 + |ids|);
        var log := GoBack(x, r.repairs, ids).log;
        if NoneFails(log, 0) { FailureStays(x.log, log, 0); }
      } else if preserve {
        CallsLength(r.world.log, x.log, Validates(scopes[..v]));
        RestartExplained(x, r.repairs, scopes, ids);
      }
    }
  }

  lemma RestartExplained(x: World, repairs: seq<nat>, scopes: seq<Str>, ids: seq<Str>)
    requires NoneFails(x.log, 0) && |x.log| == 1 + |ids| + 2 * |scopes|
    requires forall i :: 0 <= i < |repairs| ==> repairs[i] == 1 + |ids| + i
    ensures var (y, started) := Restart(x, ids);
            if started then NoneFails(y.log, 0) && (ids != [] ==> AllUp(y.log, ids))
            else
              var (z, quiet) := Quiesce(y, ids);
              var log := if quiet then GoBack(z, repairs, ids).log else z.log;
              x.log <= log && (!NoneFails(log, 0) || LookMissed(log, ids, scopes))
    ensures x.log <= Restart(x, ids).0.log
  {
    hide Calls, NoneFails, Restart, Quiesce, GoBack, AllUp;
    RestartCalls(x, ids, 0);
    var (y, started) := Restart(x, ids);
    if !started {
      QuiesceCalls(y, ids, 0);
      var (z, quiet) := Quiesce(y, ids);
      if quiet { var back := GoBackCalls(z, repairs, ids, 1 + |ids|); }
      var log := if quiet then GoBack(z, repairs, ids).log else z.log;
      assert y.log <= log;
      if NoneFails(log, 0) {
        FailureStays(y.log, log, 0);
        LaterFails(y.log, 0, |x.log|);
        CallsLength(x.log, y.log, Restarts(ids));
        assert log[..|y.log|] == y.log;
      }
    }
  }

  lemma LaterFails(log: seq<Entry>, first: nat, later: nat)
    requires NoneFails(log, first) && first <= later
    ensures NoneFails(log, later)
  {}

  // ---------------------------------------------------------------- closing alone

  /** All but the last close of some beginning of `ids` went well. */
  predicate StopsClosing(calls: seq<Call>, ids: seq<Str>) {
    |calls| >= 2 && |calls| <= |ids| + 1 && calls == Prepared(ids[..|calls| - 1])
  }

  /** Closing alone makes the same first calls, and succeeds exactly when none fails; then all running ones are closed. */
  lemma CloseTranscript(replies: seq<Reply>)
    ensures var (w, closed) := Close(World([], replies));
            w.log != []
            && var ids := Running(if w.log[0].reply.Reports? then w.log[0].reply.instances else []);
               && (closed.Some? <==> NoneFails(w.log, 0))
               && (closed.Some? ==> closed.value == ids && Calls(w.log) == Prepared(ids))
               && (closed.None? && w.log[0].reply.Reports? ==> StopsClosing(Calls(w.log), ids))
  {
    hide CloseAll, Calls, NoneFails, Running;
    var w := World([], replies);
    var before := Answer(w, Snapshot);
    var a := Ask(w, Snapshot);
    NoneFailsSnoc(w, Snapshot, 0);
    CallsSnoc(w, Snapshot);
    NoCalls();
    assert NoneFails(w.log, 0);
    if before.Reports? {
      var ids := Running(before.instances);
      CloseAllCalls(a, ids, 0, 0);
      var c := CloseAll(a, ids, 0);
      assert ids[0..] == ids && c.world.log[0] == a.log[0];
      if !c.ok {
        var k :| 0 <= k < |ids| && c.closed == ids[..k] && Calls(c.world.log) == Calls(a.log) + Closes(ids[0..k + 1]);
        assert ids[0..k + 1] == ids[..k + 1];
        assert |Prepared(ids[..k + 1])| == k + 2;
      }
    }
  }

  // ---------------------------------------------------------------- starting

  predicate Admits(profile: Str, x: Instance) { profile != [] ==> x.profile == profile }

  predicate Latest(instances: seq<Instance>, profile: Str, i: nat) {
    && i < |instances| && Admits(profile, instances[i])
    && (forall j :: 0 <= j < i && Admits(profile, instances[j]) ==> instances[j].startedAt < instances[i].startedAt)
    && (forall j :: i < j < |instances| && Admits(profile, instances[j]) ==> instances[j].startedAt <= instances[i].startedAt)
  }

  /** The directory that is configured: of the first of the latest started instances of the profile, else the usual one. */
  lemma ScopeExactly(instances: seq<Instance>, profile: Str)
    ensures if exists i :: 0 <= i < |instances| && Admits(profile, instances[i])
            then exists i: nat :: Latest(instances, profile, i) && StartScope(instances, profile) == instances[i].directory
            else StartScope(instances, profile) == []
  {
    hide Selected;
    SelectedLatest(instances, profile);
    var r := Selected(instances, profile);
    if r.Some? {
      var i :| 0 <= i < |instances| && IsLatest(instances, profile, i) && instances[i] == r.value;
      assert Latest(instances, profile, i);
    }
  }

  /** What is newly running is closed in order, up to the first failure; only then the repair is undone. */
  predicate CleanedUp(calls: seq<Call>, ids: seq<Str>) {
    exists k :: 0 <= k <= |ids| && (calls == Closes(ids[..k]) || (k == |ids| && calls == Closes(ids) + [Undo(1)]))
  }

  /** The calls of a start that connects first, behind the look: in order, up to the first that fails. */
  predicate ConnectedCalls(calls: seq<Call>, scope: Str, ids: seq<Str>, r: StartOutcome) {
    match r
    case Started => calls == [Repair(scope), Validate(scope), StartNew]
    case Aborted(RestoreConnection) => calls == [Repair(scope)]
    case Aborted(Validation) => calls == [Repair(scope), Validate(scope), Undo(1)]
    case Aborted(Launch) => calls == [Repair(scope), Validate(scope), StartNew, Snapshot] + Closes(ids) + [Undo(1)]
    case RollbackFailed =>
      calls == [Repair(scope), Validate(scope), Undo(1)]
      || (|calls| >= 4 && calls[..4] == [Repair(scope), Validate(scope), StartNew, Snapshot] && CleanedUp(calls[4..], ids))
    case _ => false
  }

  /** The instances that the look after a failed launch shows running, and the first look did not. */
  function NewIn(log: seq<Entry>, before: set<Str>): seq<Str> {
    if |log| > 4 && log[4].reply.Reports? then NewlyRunning(log[4].reply.instances, before) else []
  }

  /**
   * A start succeeds exactly when nothing was found missing and no call fails; the calls it makes, whatever fails.
   */
  lemma StartTranscript(replies: seq<Reply>, found: Inspection, connect: bool, profile: Str)
    ensures var (w, r) := StartFresh(World([], replies), found, connect, profile);
            && w.log != [] && w.log[0].call == Snapshot
            && var look := w.log[0].reply;
               && (r.NotReady? <==> !found.inspected || !look.Reports?)
               && (r.NotInstalled? <==> found.inspected && look.Reports? && !found.installed)
               && (r.NotConfigured? <==> found.inspected && look.Reports? && found.installed && !connect && !found.configured)
               && (r.Started? <==> !r.NotReady? && !r.NotInstalled? && !r.NotConfigured? && NoneFails(w.log, 0))
               && (r.NotReady? || r.NotInstalled? || r.NotConfigured? ==> Calls(w.log) == [Snapshot])
               && (!connect && (r.Started? || r.Aborted? || r.RollbackFailed?) ==>
                     Calls(w.log) == [Snapshot, StartNew] && !r.RollbackFailed? && (r.Aborted? ==> r.phase.Launch?))
               && (connect && (r.Started? || r.Aborted? || r.RollbackFailed?) ==>
                     ConnectedCalls(Calls(w.log)[1..], StartScope(look.instances, profile),
                                    NewIn(w.log, SetOf(Running(look.instances))), r))
  {
    hide Answer, Calls, NoneFails, StartConnected, StartScope, Running, ConnectedCalls, NewIn;
    var w := World([], replies);
    var before := Answer(w, Snapshot);
    var a := Ask(w, Snapshot);
    NoneFailsSnoc(w, Snapshot, 0);
    CallsSnoc(w, Snapshot);
    NoCalls();
    if found.inspected && before.Reports? && found.installed {
      if connect {
        ConnectCalls(a, StartScope(before.instances, profile), SetOf(Running(before.instances)));
      } else if found.configured {
        NoneFailsSnoc(a, StartNew, 0);
        CallsSnoc(a, StartNew);
      }
    }
  }

  lemma ConnectCalls(w: World, scope: Str, before: set<Str>)
    requires |w.log| == 1 && NoneFails(w.log, 0) && Calls(w.log) == [Snapshot]
    ensures var (a, r) := StartConnected(w, scope, before);
            && w.log <= a.log && (r.Started? <==> NoneFails(a.log, 0)) && (r.Started? || r.Aborted? || r.RollbackFailed?)
            && Calls(a.log)[0] == Snapshot && ConnectedCalls(Calls(a.log)[1..], scope, NewIn(a.log, before), r)
  {
    hide Answer, Calls, NoneFails, Cleanup, UndoAll, CleanedUp, NewIn;
    var a := Ask(w, Repair(scope));
    NoneFailsSnoc(w, Repair(scope), 0);
    CallsSnoc(w, Repair(scope));
    if Answer(w, Repair(scope)).Fails? {
      UndoNone(a);
    } else {
      var b := Ask(a, Validate(scope));
      NoneFailsSnoc(a, Validate(scope), 0);
      CallsSnoc(a, Validate(scope));
      if Answer(a, Validate(scope)).Fails? {
        UndoOne(b);
      } else {
        NoneFailsSnoc(b, StartNew, 0);
        CallsSnoc(b, StartNew);
        if Answer(b, StartNew).Fails? { LaunchFailed(Ask(b, StartNew), scope, before); }
      }
    }
  }

  lemma UndoNone(w: World)
    ensures UndoAll(w, []) == (w, true)
  {}

  lemma UndoOne(w: World)
    ensures var (a, ok) := UndoAll(w, [1]);
            w.log <= a.log && Calls(a.log) == Calls(w.log) + [Undo(1)] && (NoneFails(a.log, 0) ==> NoneFails(w.log, 0))
  {
    hide Calls, NoneFails, UndoAll;
    UndoFrom(w, [1], 1, 0);
    assert Undos(1, 1) == [Undo(1)];
  }

  lemma LaunchFailed(w: World, scope: Str, before: set<Str>)
    requires |w.log| == 4 && !NoneFails(w.log, 0)
    requires Calls(w.log) == [Snapshot, Repair(scope), Validate(scope), StartNew]
    ensures var (e, clean) := Cleanup(w, before);
            var (a, r) := if clean then UndoStart(e, [1], Launch) else (e, RollbackFailed);
            && w.log <= a.log && !NoneFails(a.log, 0)
            && Calls(a.log)[0] == Snapshot && ConnectedCalls(Calls(a.log)[1..], scope, NewIn(a.log, before), r)
  {
    hide Answer, Calls, NoneFails, UndoAll, CleanedUp, CloseAll, Closes, NewlyRunning;
    var c := Ask(w, Snapshot);
    CallsSnoc(w, Snapshot);
    NoneFailsSnoc(w, Snapshot, 0);
    var after := Answer(w, Snapshot);
    assert Calls(c.log) == [Snapshot, Repair(scope), Validate(scope), StartNew, Snapshot];
    assert c.log[4].reply == after;
    if !after.Reports? {
      NoCloses();
      Cleaned([], [], 0);
      LaunchCalls(Calls(c.log), scope, [], [], RollbackFailed);
    } else {
      var ids := NewlyRunning(after.instances, before);
      CloseAllCalls(c, ids, 0, 0);
      var r := CloseAll(c, ids, 0);
      assert ids[0..] == ids && r.world.log[4] == c.log[4];
      if r.ok {
        UndoOne(r.world);
        var (a, ok) := UndoAll(r.world, [1]);
        assert a.log[4] == c.log[4];
        Cleaned(Closes(ids) + [Undo(1)], ids, |ids|);
        LaunchCalls(Calls(a.log), scope, Closes(ids) + [Undo(1)], ids, if ok then Aborted(Launch) else RollbackFailed);
      } else {
        var k :| 0 <= k < |ids| && r.closed == ids[..k] && Calls(r.world.log) == Calls(c.log) + Closes(ids[0..k + 1]);
        assert ids[0..k + 1] == ids[..k + 1];
        Cleaned(Closes(ids[..k + 1]), ids, k + 1);
        LaunchCalls(Calls(r.world.log), scope, Closes(ids[..k + 1]), ids, RollbackFailed);
      }
    }
  }

  lemma NoCloses()
    ensures Closes([]) == []
  {}

  lemma LaunchCalls(calls: seq<Call>, scope: Str, tail: seq<Call>, ids: seq<Str>, r: StartOutcome)
    requires calls == [Snapshot, Repair(scope), Validate(scope), StartNew, Snapshot] + tail
    requires r.RollbackFailed? || (r == Aborted(Launch) && tail == Closes(ids) + [Undo(1)])
    requires CleanedUp(tail, ids)
    ensures calls[0] == Snapshot && ConnectedCalls(calls[1..], scope, ids, r)
  {
    hide CleanedUp, Closes;
    var first := [Repair(scope), Validate(scope), StartNew, Snapshot];
    assert calls[1..] == first + tail;
    assert (first + tail)[4..] == tail && (first + tail)[..4] == first;
    if r.Aborted? { assert first + tail == first + Closes(ids) + [Undo(1)]; }
  }

  lemma Cleaned(calls: seq<Call>, ids: seq<Str>, k: nat)
    requires k <= |ids| && (calls == Closes(ids[..k]) || (k == |ids| && calls == Closes(ids) + [Undo(1)]))
    ensures CleanedUp(calls, ids)
  {}
}
