/** The close, repair, validate and restart sequence of the CLI adapter, with every port call free to fail. */
module CliRestore {
  import opened Units

  // ---------------------------------------------------------------- ports and their log

  datatype Instance = Instance(id: Str, running: bool, directory: Str, profile: Str, startedAt: int)

  /** A repair is undone by the position of its entry in the log; an empty scope is the default one. */
  datatype Call =
    | Snapshot
    | CloseOne(id: Str)
    | StartOne(id: Str)
    | StartNew
    | Repair(scope: Str)
    | Validate(scope: Str)
    | Undo(repair: nat)

  datatype Reply = Fails | Done | Reports(instances: seq<Instance>, external: bool)

  datatype Entry = Entry(call: Call, reply: Reply)

  /** What was asked so far, and how the ports are going to answer. */
  datatype World = World(log: seq<Entry>, replies: seq<Reply>)

  /** Only a snapshot reports instances. */
  function Answer(w: World, c: Call): (r: Reply)
    ensures r.Reports? ==> c.Snapshot?
    ensures r.Done? ==> !c.Snapshot?
  {
    var r := if w.replies == [] then Fails else w.replies[0];
    if c.Snapshot? then (if r.Reports? then r else Fails) else (if r.Reports? then Done else r)
  }

  function Ask(w: World, c: Call): World {
    World(w.log + [Entry(c, Answer(w, c))], if w.replies == [] then [] else w.replies[1..])
  }

  function Running(instances: seq<Instance>): seq<Str> {
    if instances == [] then []
    else (if instances[0].running then [instances[0].id] else []) + Running(instances[1..])
  }

  /** uniqueConfigDirectories of the running instances, in order of first use. */
  function Directories(instances: seq<Instance>): seq<Str> {
    if instances == [] then []
    else
      var last := instances[|instances| - 1];
      var rest := Directories(instances[..|instances| - 1]);
      if !last.running || last.directory == [] || last.directory in rest then rest else rest + [last.directory]
  }

  function Scopes(instances: seq<Instance>): seq<Str> {
    var ds := Directories(instances);
    if ds == [] then [[]] else ds
  }

  // ---------------------------------------------------------------- the operations

  /** Closes until one fails: the closed ids, and whether all were. */
  datatype Closing = Closing(world: World, closed: seq<Str>, ok: bool)

  function CloseAll(w: World, ids: seq<Str>, n: nat): Closing
    requires n <= |ids|
    decreases |ids| - n
  {
    if n == |ids| then Closing(w, ids, true)
    else
      var a := Ask(w, CloseOne(ids[n]));
      if Answer(w, CloseOne(ids[n])).Fails? then Closing(a, ids[..n], false) else CloseAll(a, ids, n + 1)
  }

  /** Starts every id, whether or not others fail. */
  function StartAll(w: World, ids: seq<Str>): (World, bool) {
    if ids == [] then (w, true)
    else
      var n := |ids| - 1;
      var (a, ok) := StartAll(w, ids[..n]);
      (Ask(a, StartOne(ids[n])), ok && !Answer(a, StartOne(ids[n])).Fails?)
  }

  predicate AllRunning(ids: seq<Str>, r: Reply) {
    r.Reports? && forall id <- ids :: id in Running(r.instances)
  }

  /** restartManaged: true when it reports no error. */
  function Restart(w: World, ids: seq<Str>): (World, bool) {
    var (a, ok) := StartAll(w, ids);
    if ids == [] then (a, ok) else (Ask(a, Snapshot), ok && AllRunning(ids, Answer(a, Snapshot)))
  }

  /** Repairs until one fails; a repair is known by its place in the log. */
  datatype Repairing = Repairing(world: World, repairs: seq<nat>, ok: bool)

  function RepairAll(w: World, scopes: seq<Str>, n: nat, repairs: seq<nat>): Repairing
    requires n <= |scopes|
    decreases |scopes| - n
  {
    if n == |scopes| then Repairing(w, repairs, true)
    else
      var a := Ask(w, Repair(scopes[n]));
      if Answer(w, Repair(scopes[n])).Fails? then Repairing(a, repairs, false)
      else RepairAll(a, scopes, n + 1, repairs + [|w.log|])
  }

  function ValidateAll(w: World, scopes: seq<Str>, n: nat): (World, bool)
    requires n <= |scopes|
    decreases |scopes| - n
  {
    if n == |scopes| then (w, true)
    else
      var a := Ask(w, Validate(scopes[n]));
      if Answer(w, Validate(scopes[n])).Fails? then (a, false) else ValidateAll(a, scopes, n + 1)
  }

  /** rollbackRepairs: from the last repair to the first, all of them; true when none failed. */
  function UndoAll(w: World, repairs: seq<nat>): (World, bool)
    decreases |repairs|
  {
    if repairs == [] then (w, true)
    else
      var n := |repairs| - 1;
      var a := Ask(w, Undo(repairs[n]));
      var (b, ok) := UndoAll(a, repairs[..n]);
      (b, ok && !Answer(w, Undo(repairs[n])).Fails?)
  }

  /** Closes every id, whether or not others fail. */
  function Quiesce(w: World, ids: seq<Str>): (World, bool) {
    if ids == [] then (w, true)
    else
      var n := |ids| - 1;
      var (a, ok) := Quiesce(w, ids[..n]);
      (Ask(a, CloseOne(ids[n])), ok && !Answer(a, CloseOne(ids[n])).Fails?)
  }

  datatype Outcome = SnapshotFailed | CloseFailed | RepairFailed | RestartFailed | Restored(closed: seq<Str>, restarted: seq<Str>)

  /** Undoing the repairs, and starting again what was closed if that went well. */
  function GoBack(w: World, repairs: seq<nat>, closed: seq<Str>): World {
    var (a, ok) := UndoAll(w, repairs);
    if ok then Restart(a, closed).0 else a
  }

  /** From the repairs on. */
  function RepairAndRestart(w: World, scopes: seq<Str>, closed: seq<Str>, preserve: bool): (World, Outcome) {
    var r := RepairAll(w, scopes, 0, []);
    var (v, ok) := if r.ok then ValidateAll(r.world, scopes, 0) else (r.world, false);
    if !ok then (GoBack(v, r.repairs, closed), RepairFailed)
    else if !preserve then (v, Restored(closed, []))
    else
      var (a, started) := Restart(v, closed);
      if started then (a, Restored(closed, closed))
      else
        var (b, quiet) := Quiesce(a, closed);
        (if quiet then GoBack(b, r.repairs, closed) else b, RestartFailed)
  }

  /** restoreUnlocked. */
  function Restore(w: World, preserve: bool): (World, Outcome) {
    var before := Answer(w, Snapshot);
    var a := Ask(w, Snapshot);
    if !before.Reports? then (a, SnapshotFailed)
    else
      var c := CloseAll(a, Running(before.instances), 0);
      if !c.ok then (Restart(c.world, c.closed).0, CloseFailed)
      else RepairAndRestart(c.world, Scopes(before.instances), c.closed, preserve)
  }

  /** closeUnlocked. */
  function Close(w: World): (World, Option<seq<Str>>) {
    var before := Answer(w, Snapshot);
    var a := Ask(w, Snapshot);
    if !before.Reports? then (a, None)
    else
      var c := CloseAll(a, Running(before.instances), 0);
      (c.world, if c.ok then Some(c.closed) else None)
  }

  // ---------------------------------------------------------------- watching the log

  /**
   * What a log has done: the ids running in the first snapshot, the ids closed, those that may have been started and
   * not closed since, the repairs not undone, whether undoing has begun and has failed, and whether a close has failed.
   */
  datatype Watch = Watch(
    first: Option<set<Str>>, closed: set<Str>, up: set<Str>, repairs: seq<nat>, undoing: bool, failed: bool, missed: bool)

  function SetOf(ids: seq<Str>): set<Str> { set id <- ids }

  /** The rules of compensation; None when an entry breaks one. */
  function Observe(a: Watch, i: nat, e: Entry): Option<Watch> {
    match e.call
    case Snapshot =>
      Some(if a.first.None? && e.reply.Reports? then a.(first := Some(SetOf(Running(e.reply.instances)))) else a)
    case CloseOne(id) =>
      if a.first.None? || id !in a.first.value then None
      else Some(if e.reply.Fails? then a.(missed := true) else a.(closed := a.closed + {id}, up := a.up - {id}))
    case StartOne(id) =>
      if id !in a.closed || a.failed || (a.undoing && a.repairs != []) then None else Some(a.(up := a.up + {id}))
    case StartNew => None
    case Repair(_) =>
      if a.first.None? || !(a.first.value <= a.closed) || a.undoing || a.up != {} then None
      else Some(if e.reply.Fails? then a else a.(repairs := a.repairs + [i]))
    case Validate(_) =>
      if a.undoing || a.up != {} then None else Some(a)
    case Undo(r) =>
      if a.repairs == [] || a.repairs[|a.repairs| - 1] != r || a.up != {} then None
      else Some(a.(repairs := a.repairs[..|a.repairs| - 1], undoing := true, failed := a.failed || e.reply.Fails?))
  }

  const START: Watch := Watch(None, {}, {}, [], false, false, false)

  function Watched(log: seq<Entry>): Option<Watch> {
    if log == [] then Some(START)
    else
      var a := Watched(log[..|log| - 1]);
      if a.None? then None else Observe(a.value, |log| - 1, log[|log| - 1])
  }

  lemma WatchSnoc(w: World, c: Call)
    ensures Watched(Ask(w, c).log)
         == if Watched(w.log).None? then None else Observe(Watched(w.log).value, |w.log|, Entry(c, Answer(w, c)))
  {
    var log := Ask(w, c).log;
    assert log[..|log| - 1] == w.log;
  }

  lemma SetSnoc(ids: seq<Str>, n: nat)
    requires n < |ids|
    ensures SetOf(ids[..n + 1]) == SetOf(ids[..n]) + {ids[n]} && SetOf(ids[..0]) == {}
  {
    assert ids[..n + 1] == ids[..n] + [ids[n]];
  }

  // ---------------------------------------------------------------- the pieces keep the rules

  lemma {:induction false} CloseAllWatch(w: World, ids: seq<Str>, n: nat, a: Watch)
    requires n <= |ids| && Watched(w.log) == Some(a) && a.first == Some(SetOf(ids)) && a.up == {}
    requires a.closed == SetOf(ids[..n])
    ensures var c := CloseAll(w, ids, n);
            && c.closed <= ids && (c.ok ==> c.closed == ids)
            && Watched(c.world.log) == Some(a.(closed := SetOf(c.closed), missed := a.missed || !c.ok))
    decreases |ids| - n
  {
    hide Watched, Answer, Ask, SetOf;
    if n == |ids| {
      assert ids[..n] == ids;
    } else {
      WatchSnoc(w, CloseOne(ids[n]));
      SetSnoc(ids, n);
      InSet(ids, n);
      if !Answer(w, CloseOne(ids[n])).Fails? {
        assert a.up - {ids[n]} == {};
        CloseAllWatch(Ask(w, CloseOne(ids[n])), ids, n + 1, a.(closed := SetOf(ids[..n + 1])));
      }
    }
  }

  lemma InSet(ids: seq<Str>, n: nat)
    requires n < |ids|
    ensures ids[n] in SetOf(ids)
  {}

  /** Everything that may be started again. */
  predicate MayStart(a: Watch, ids: seq<Str>) {
    SetOf(ids) <= a.closed && !a.failed && (a.undoing ==> a.repairs == []) && a.first.Some?
  }

  lemma {:induction false} StartAllWatch(w: World, ids: seq<Str>, a: Watch)
    requires Watched(w.log) == Some(a) && MayStart(a, ids)
    ensures Watched(StartAll(w, ids).0.log) == Some(a.(up := a.up + SetOf(ids)))
  {
    hide Watched, Answer, Ask, SetOf;
    if ids == [] {
      NoIds();
      assert a.up + {} == a.up;
    } else {
      var n := |ids| - 1;
      assert ids[..n + 1] == ids;
      SetSnoc(ids, n);
      StartAllWatch(w, ids[..n], a);
      var b := StartAll(w, ids[..n]).0;
      WatchSnoc(b, StartOne(ids[n]));
      assert a.up + SetOf(ids[..n]) + {ids[n]} == a.up + SetOf(ids);
    }
  }

  lemma NoIds()
    ensures SetOf([]) == {}
  {}

  lemma RestartWatch(w: World, ids: seq<Str>, a: Watch)
    requires Watched(w.log) == Some(a) && MayStart(a, ids)
    ensures Watched(Restart(w, ids).0.log) == Some(a.(up := a.up + SetOf(ids)))
  {
    hide Watched, Answer, Ask, SetOf, StartAll;
    StartAllWatch(w, ids, a);
    WatchSnoc(StartAll(w, ids).0, Snapshot);
  }

  lemma {:induction false} RepairAllWatch(w: World, scopes: seq<Str>, n: nat, repairs: seq<nat>, a: Watch)
    requires n <= |scopes| && Watched(w.log) == Some(a) && a.repairs == repairs
    requires a.first.Some? && a.first.value <= a.closed && !a.undoing && a.up == {}
    ensures var r := RepairAll(w, scopes, n, repairs); Watched(r.world.log) == Some(a.(repairs := r.repairs))
    decreases |scopes| - n
  {
    hide Watched, Answer, Ask;
    if n < |scopes| {
      WatchSnoc(w, Repair(scopes[n]));
      if !Answer(w, Repair(scopes[n])).Fails? {
        RepairAllWatch(Ask(w, Repair(scopes[n])), scopes, n + 1, repairs + [|w.log|], a.(repairs := repairs + [|w.log|]));
      }
    }
  }

  lemma {:induction false} ValidateAllWatch(w: World, scopes: seq<Str>, n: nat, a: Watch)
    requires n <= |scopes| && Watched(w.log) == Some(a) && !a.undoing && a.up == {}
    ensures Watched(ValidateAll(w, scopes, n).0.log) == Some(a)
    decreases |scopes| - n
  {
    hide Watched, Answer, Ask;
    if n < |scopes| {
      WatchSnoc(w, Validate(scopes[n]));
      if !Answer(w, Validate(scopes[n])).Fails? { ValidateAllWatch(Ask(w, Validate(scopes[n])), scopes, n + 1, a); }
    }
  }

  lemma {:induction false} UndoAllWatch(w: World, repairs: seq<nat>, a: Watch)
    requires Watched(w.log) == Some(a) && a.repairs == repairs && a.up == {}
    ensures var (b, ok) := UndoAll(w, repairs);
            Watched(b.log) == Some(a.(repairs := [], undoing := a.undoing || repairs != [], failed := a.failed || !ok))
    decreases |repairs|
  {
    hide Watched, Answer, Ask;
    if repairs != [] {
      var n := |repairs| - 1;
      WatchSnoc(w, Undo(repairs[n]));
      UndoAllWatch(Ask(w, Undo(repairs[n])), repairs[..n],
                   a.(repairs := repairs[..n], undoing := true, failed := a.failed || Answer(w, Undo(repairs[n])).Fails?));
    }
  }

  lemma {:induction false} QuiesceWatch(w: World, ids: seq<Str>, a: Watch)
    requires Watched(w.log) == Some(a) && a.first.Some? && SetOf(ids) <= a.first.value && SetOf(ids) <= a.closed
    ensures var (b, ok) := Quiesce(w, ids);
            && Watched(b.log).Some?
            && var c := Watched(b.log).value;
               && c == a.(up := c.up, missed := a.missed || !ok) && c.up <= a.up
               && (ok ==> c.up == a.up - SetOf(ids))
  {
    hide Watched, Answer, Ask, SetOf;
    if ids == [] {
      NoIds();
    } else {
      var n := |ids| - 1;
      assert ids[..n + 1] == ids;
      SetSnoc(ids, n);
      QuiesceWatch(w, ids[..n], a);
      var b := Quiesce(w, ids[..n]).0;
      WatchSnoc(b, CloseOne(ids[n]));
      assert a.closed + {ids[n]} == a.closed;
    }
  }

  lemma GoBackWatch(w: World, repairs: seq<nat>, closed: seq<Str>, a: Watch)
    requires Watched(w.log) == Some(a) && a.repairs == repairs && a.up == {} && !a.failed && !a.undoing
    requires SetOf(closed) <= a.closed && a.first.Some?
    ensures Watched(GoBack(w, repairs, closed).log).Some?
    ensures var c := Watched(GoBack(w, repairs, closed).log).value;
            && c.repairs == [] && c.closed == a.closed && c.missed == a.missed
            && c.up == (if c.failed then {} else SetOf(closed))
  {
    hide Watched, Answer, Ask, SetOf, UndoAll, Restart;
    UndoAllWatch(w, repairs, a);
    var (b, ok) := UndoAll(w, repairs);
    if ok { RestartWatch(b, closed, Watched(b.log).value); }
    assert {} + SetOf(closed) == SetOf(closed);
  }

  // ---------------------------------------------------------------- the repairs that stand

  predicate MadeAt(log: seq<Entry>, i: nat) {
    i < |log| && log[i].call.Repair? && !log[i].reply.Fails?
  }

  predicate UndoneBy(log: seq<Entry>, i: nat, j: nat) {
    i < j < |log| && log[j].call == Undo(i) && !log[j].reply.Fails?
  }

  /** The repairs made that no later entry has undone. */
  ghost function Standing(log: seq<Entry>): set<nat> {
    set i: nat | i < |log| && MadeAt(log, i) && forall j: nat :: !UndoneBy(log, i, j)
  }

  /** The repairs whose undoing was tried and has failed. */
  ghost function FailedUndos(log: seq<Entry>): set<nat> {
    set e <- log | e.call.Undo? && e.reply.Fails? :: e.call.repair
  }

  predicate Increasing(repairs: seq<nat>, n: nat) {
    (forall i :: 0 <= i < |repairs| ==> repairs[i] < n)
    && forall i, j :: 0 <= i < j < |repairs| ==> repairs[i] < repairs[j]
  }

  lemma StandingSnoc(log: seq<Entry>, e: Entry)
    requires e.call.Undo? ==> e.call.repair < |log|
    ensures Standing(log + [e])
         == (if e.call.Undo? && !e.reply.Fails? then Standing(log) - {e.call.repair} else Standing(log))
            + (if e.call.Repair? && !e.reply.Fails? then {|log|} else {})
  {
    var all, n := log + [e], |log|;
    assert all[n] == e;
    forall i: nat | i < n ensures MadeAt(all, i) == MadeAt(log, i) { assert all[i] == log[i]; }
    forall i: nat, j: nat | j < n ensures UndoneBy(all, i, j) == UndoneBy(log, i, j) {
      assert j < |log| ==> all[j] == log[j];
    }
    forall i: nat ensures i in Standing(all) <==> (i in Standing(log) && !UndoneBy(all, i, n)) || (i == n && MadeAt(all, n)) {
      if i in Standing(log) && !UndoneBy(all, i, n) {
        forall j: nat ensures !UndoneBy(all, i, j) { assert j < n ==> !UndoneBy(log, i, j); }
      }
      if i in Standing(all) && i < n {
        forall j: nat ensures !UndoneBy(log, i, j) { assert j < n ==> !UndoneBy(all, i, j); }
      }
      assert forall j: nat :: !UndoneBy(all, n, j);
    }
  }

  lemma FailedSnoc(log: seq<Entry>, e: Entry)
    ensures FailedUndos(log + [e]) == FailedUndos(log) + if e.call.Undo? && e.reply.Fails? then {e.call.repair} else {}
  {
    assert forall x :: x in log + [e] <==> x in log || x == e;
  }

  lemma SetOfSnoc(repairs: seq<nat>, r: nat)
    ensures NatSet(repairs + [r]) == NatSet(repairs) + {r}
  {
    assert forall x :: x in repairs + [r] <==> x in repairs || x == r;
  }

  function NatSet(repairs: seq<nat>): set<nat> { set r <- repairs }

  /** What keeps the rules leaves standing exactly the repairs not yet undone and those whose undoing failed. */
  lemma {:induction false} StandingExact(log: seq<Entry>)
    requires Watched(log).Some?
    ensures var a := Watched(log).value;
            && Standing(log) == NatSet(a.repairs) + FailedUndos(log)
            && Increasing(a.repairs, |log|) && NatSet(a.repairs) !! FailedUndos(log)
            && (forall r <- FailedUndos(log) :: r < |log|)
            && (a.failed <==> FailedUndos(log) != {})
    decreases |log|
  {
    hide Standing, FailedUndos, Increasing, Observe, NatSet;
    if log == [] {
      NothingStands();
    } else {
      var n := |log| - 1;
      var init, e := log[..n], log[n];
      assert log == init + [e];
      StandingExact(init);
      ObserveStanding(init, Watched(init).value, e);
    }
  }

  lemma NothingStands()
    ensures Standing([]) == {} && FailedUndos([]) == {} && NatSet([]) == {} && Increasing([], 0)
  {}

  lemma ObserveStanding(log: seq<Entry>, a: Watch, e: Entry)
    requires Observe(a, |log|, e).Some? && Increasing(a.repairs, |log|)
    requires Standing(log) == NatSet(a.repairs) + FailedUndos(log) && NatSet(a.repairs) !! FailedUndos(log)
    requires (forall r <- FailedUndos(log) :: r < |log|) && (a.failed <==> FailedUndos(log) != {})
    ensures var b := Observe(a, |log|, e).value;
            && Standing(log + [e]) == NatSet(b.repairs) + FailedUndos(log + [e])
            && Increasing(b.repairs, |log| + 1) && NatSet(b.repairs) !! FailedUndos(log + [e])
            && (forall r <- FailedUndos(log + [e]) :: r < |log| + 1)
            && (b.failed <==> FailedUndos(log + [e]) != {})
  {
    hide Standing, FailedUndos, SetOf, Running, NatSet;
    FailedSnoc(log, e);
    if e.call.Undo? {
      var k := |a.repairs| - 1;
      var rest := a.repairs[..k];
      assert a.repairs == rest + [e.call.repair];
      SetOfSnoc(rest, e.call.repair);
      assert e.call.repair !in NatSet(rest) by { Below(rest, e.call.repair); }
    } else if e.call.Repair? && !e.reply.Fails? {
      SetOfSnoc(a.repairs, |log|);
    }
    StandingSnoc(log, e);
  }

  lemma Below(repairs: seq<nat>, r: nat)
    requires forall i :: 0 <= i < |repairs| ==> repairs[i] < r
    ensures r !in NatSet(repairs)
  {}

  /**
   * The rules hold in every restore, whatever fails: only instances managed and running in the first snapshot are
   * closed; only closed ones are started; nothing is repaired before all of them are closed; undoing is tried from the
   * last repair to the first, while none of the instances may be running; and nothing is started before undoing every
   * repair was tried, nor after undoing one has failed.
   */
  lemma RestoreKeepsRules(replies: seq<Reply>, preserve: bool)
    ensures var (w, r) := Restore(World([], replies), preserve);
            && Watched(w.log).Some?
            && Standing(w.log) == NatSet(Watched(w.log).value.repairs) + FailedUndos(w.log)
            && (Watched(w.log).value.failed <==> FailedUndos(w.log) != {})
            && (Watched(w.log).value.missed <==> CloseFails(w.log))
            && Compensated(Watched(w.log).value, r)
  {
    hide Watched, Answer, Ask, SetOf, CloseAll, Restart, RepairAndRestart;
    var w := World([], replies);
    StartWatch();
    WatchSnoc(w, Snapshot);
    var before := Answer(w, Snapshot);
    if before.Reports? {
      var ids := Running(before.instances);
      var a := START.(first := Some(SetOf(ids)));
      assert ids[..0] == [];
      NoIds();
      CloseAllWatch(Ask(w, Snapshot), ids, 0, a);
      var c := CloseAll(Ask(w, Snapshot), ids, 0);
      var b := a.(closed := SetOf(c.closed), missed := !c.ok);
      if !c.ok {
        RestartWatch(c.world, c.closed, b);
        assert {} + SetOf(c.closed) == SetOf(c.closed);
      } else {
        RepairWatch(c.world, Scopes(before.instances), c.closed, preserve, b);
      }
    }
    hide Restore, NatSet, Standing, FailedUndos, CloseFails, Compensated;
    StandingExact(Restore(w, preserve).0.log);
    MissedExact(Restore(w, preserve).0.log);
  }

  /**
   * How a failed restore goes back. Undoing was tried for every repair, unless an instance started again could not be
   * closed: then it was tried for none, and there are some. And every closed instance was asked to start again, unless
   * undoing a repair has failed: then none was.
   */
  predicate Compensated(a: Watch, r: Outcome) {
    && (r.RestartFailed? && a.missed ==> a.repairs != [] && !a.failed)
    && (!r.Restored? && !(r.RestartFailed? && a.missed) ==>
          a.repairs == [] && (r.SnapshotFailed? || a.up == if a.failed then {} else a.closed))
  }

  /** A failed restore leaves no repair standing if and only if every undoing and every close of a restarted one worked. */
  lemma NoneStands(replies: seq<Reply>, preserve: bool)
    requires !Restore(World([], replies), preserve).1.Restored?
    ensures var (w, r) := Restore(World([], replies), preserve);
            Standing(w.log) == {} <==> FailedUndos(w.log) == {} && !(r.RestartFailed? && CloseFails(w.log))
  {
    hide Restore, Watched, Standing, FailedUndos, CloseFails;
    RestoreKeepsRules(replies, preserve);
    var (w, r) := Restore(World([], replies), preserve);
    var repairs := Watched(w.log).value.repairs;
    if repairs != [] { assert repairs[0] in NatSet(repairs); }
  }

  /** After a failure every closed instance is asked to start again, unless an undoing or a close of a restarted one failed. */
  lemma StartedAgain(replies: seq<Reply>, preserve: bool)
    requires var r := Restore(World([], replies), preserve).1; r.CloseFailed? || r.RepairFailed? || r.RestartFailed?
    ensures var (w, r) := Restore(World([], replies), preserve);
            FailedUndos(w.log) == {} && !(r.RestartFailed? && CloseFails(w.log)) ==>
              Watched(w.log).Some? && Watched(w.log).value.up == Watched(w.log).value.closed
  {
    hide Restore, Watched, Standing, FailedUndos, CloseFails;
    RestoreKeepsRules(replies, preserve);
  }

  lemma StartWatch()
    ensures Watched([]) == Some(START)
  {}

  lemma RepairWatch(w: World, scopes: seq<Str>, closed: seq<Str>, preserve: bool, a: Watch)
    requires Watched(w.log) == Some(a) && a.first == Some(SetOf(closed)) && a.closed == SetOf(closed) && scopes != []
    requires a.up == {} && a.repairs == [] && !a.undoing && !a.failed && !a.missed
    ensures var (e, r) := RepairAndRestart(w, scopes, closed, preserve);
            && Watched(e.log).Some? && (r.RepairFailed? || r.RestartFailed? || r.Restored?)
            && Compensated(Watched(e.log).value, r)
  {
    hide Watched, Answer, Ask, SetOf, RepairAll, ValidateAll, GoBack, Restart, Quiesce;
    RepairAllWatch(w, scopes, 0, [], a);
    RepairsMade(w, scopes, 0, []);
    var r := RepairAll(w, scopes, 0, []);
    var b := a.(repairs := r.repairs);
    if r.ok { ValidateAllWatch(r.world, scopes, 0, b); }
    var (v, ok) := if r.ok then ValidateAll(r.world, scopes, 0) else (r.world, false);
    GoBackWatch(v, r.repairs, closed, b);
    if ok && preserve {
      RestartWatch(v, closed, b);
      var (e, started) := Restart(v, closed);
      if !started {
        var c := b.(up := b.up + SetOf(closed));
        QuiesceWatch(e, closed, c);
        var (q, quiet) := Quiesce(e, closed);
        if quiet { GoBackWatch(q, r.repairs, closed, b); }
      }
    }
  }

  lemma {:induction false} RepairsMade(w: World, scopes: seq<Str>, n: nat, repairs: seq<nat>)
    requires n == |repairs| <= |scopes|
    ensures var r := RepairAll(w, scopes, n, repairs); r.ok ==> |r.repairs| == |scopes|
    decreases |scopes| - n
  {
    hide Answer, Ask;
    if n < |scopes| && !Answer(w, Repair(scopes[n])).Fails? {
      RepairsMade(Ask(w, Repair(scopes[n])), scopes, n + 1, repairs + [|w.log|]);
    }
  }

  predicate CloseFails(log: seq<Entry>) {
    exists e <- log :: e.call.CloseOne? && e.reply.Fails?
  }

  lemma {:induction false} MissedExact(log: seq<Entry>)
    requires Watched(log).Some?
    ensures Watched(log).value.missed <==> CloseFails(log)
    decreases |log|
  {
    hide SetOf, Running;
    if log != [] {
      var n := |log| - 1;
      MissedExact(log[..n]);
      assert forall x :: x in log <==> x in log[..n] || x == log[n];
    }
  }

  // ---------------------------------------------------------------- success

  predicate RepairedAt(log: seq<Entry>, at: nat, scope: Str) {
    at < |log| && log[at] == Entry(Repair(scope), Done)
  }

  lemma {:induction false} RepairAllLog(w: World, scopes: seq<Str>, n: nat, repairs: seq<nat>)
    requires n == |repairs| <= |scopes|
    requires forall i :: 0 <= i < n ==> RepairedAt(w.log, repairs[i], scopes[i])
    ensures var r := RepairAll(w, scopes, n, repairs);
            && w.log <= r.world.log && |r.repairs| <= |scopes| && (r.ok ==> |r.repairs| == |scopes|)
            && (forall i :: 0 <= i < |r.repairs| ==> RepairedAt(r.world.log, r.repairs[i], scopes[i]))
    decreases |scopes| - n
  {
    if n < |scopes| && !Answer(w, Repair(scopes[n])).Fails? {
      RepairAllLog(Ask(w, Repair(scopes[n])), scopes, n + 1, repairs + [|w.log|]);
    }
  }

  predicate ValidatedIn(log: seq<Entry>, scope: Str) {
    Entry(Validate(scope), Done) in log
  }

  lemma {:induction false} ValidateAllLog(w: World, scopes: seq<Str>, n: nat)
    requires n <= |scopes|
    ensures var (a, ok) := ValidateAll(w, scopes, n);
            w.log <= a.log && (ok ==> forall i :: n <= i < |scopes| ==> ValidatedIn(a.log, scopes[i]))
    decreases |scopes| - n
  {
    if n < |scopes| && !Answer(w, Validate(scopes[n])).Fails? {
      var a := Ask(w, Validate(scopes[n]));
      ValidateAllLog(a, scopes, n + 1);
      assert a.log[|w.log|] == Entry(Validate(scopes[n]), Done);
      var b := ValidateAll(a, scopes, n + 1).0;
      assert b.log[|w.log|] == a.log[|w.log|];
    }
  }

  lemma {:induction false} StartAllLog(w: World, ids: seq<Str>)
    ensures w.log <= StartAll(w, ids).0.log
  {
    if ids != [] { StartAllLog(w, ids[..|ids| - 1]); }
  }

  lemma {:induction false} CloseAllLog(w: World, ids: seq<Str>, n: nat)
    requires n <= |ids|
    ensures w.log <= CloseAll(w, ids, n).world.log && (CloseAll(w, ids, n).ok ==> CloseAll(w, ids, n).closed == ids)
    decreases |ids| - n
  {
    if n < |ids| && !Answer(w, CloseOne(ids[n])).Fails? { CloseAllLog(Ask(w, CloseOne(ids[n])), ids, n + 1); }
  }

  /** Every scope is repaired and validated in the log. */
  ghost predicate RepairedIn(log: seq<Entry>, scope: Str) {
    exists at :: RepairedAt(log, at, scope)
  }

  ghost predicate ScopesDone(log: seq<Entry>, scopes: seq<Str>) {
    forall i :: 0 <= i < |scopes| ==> RepairedIn(log, scopes[i]) && ValidatedIn(log, scopes[i])
  }

  lemma ScopesKept(a: seq<Entry>, b: seq<Entry>, scopes: seq<Str>)
    requires ScopesDone(a, scopes) && a <= b
    ensures ScopesDone(b, scopes)
  {
    forall i | 0 <= i < |scopes| ensures RepairedIn(b, scopes[i]) && ValidatedIn(b, scopes[i]) {
      var at :| RepairedAt(a, at, scopes[i]);
      assert RepairedAt(b, at, scopes[i]);
      var k :| 0 <= k < |a| && a[k] == Entry(Validate(scopes[i]), Done);
      assert b[k] == a[k];
    }
  }

  lemma RestoredParts(w: World, scopes: seq<Str>, closed: seq<Str>, preserve: bool)
    ensures var (e, r) := RepairAndRestart(w, scopes, closed, preserve);
            r.Restored? ==>
              && w.log <= e.log && ScopesDone(e.log, scopes)
              && r == Restored(closed, if preserve then closed else [])
              && (preserve && closed != [] ==>
                    e.log != [] && e.log[|e.log| - 1].call.Snapshot? && AllRunning(closed, e.log[|e.log| - 1].reply))
  {
    hide Answer, RepairAll, ValidateAll, GoBack, StartAll, Quiesce, RepairedAt, ValidatedIn, ScopesDone, AllRunning;
    RepairAllLog(w, scopes, 0, []);
    var r := RepairAll(w, scopes, 0, []);
    ValidateAllLog(r.world, scopes, 0);
    var (v, ok) := if r.ok then ValidateAll(r.world, scopes, 0) else (r.world, false);
    if ok {
      ScopesAreDone(r.world.log, v.log, scopes, r.repairs);
      StartAllLog(v, closed);
      ScopesKept(v.log, Restart(v, closed).0.log, scopes);
    }
  }

  lemma RepairedLater(a: seq<Entry>, b: seq<Entry>, at: nat, scope: Str)
    requires a <= b && RepairedAt(a, at, scope)
    ensures RepairedIn(b, scope)
  {
    assert RepairedAt(b, at, scope);
  }

  lemma ScopesAreDone(a: seq<Entry>, b: seq<Entry>, scopes: seq<Str>, repairs: seq<nat>)
    requires a <= b && |repairs| == |scopes| && forall i :: 0 <= i < |scopes| ==> RepairedAt(a, repairs[i], scopes[i])
    requires forall i :: 0 <= i < |scopes| ==> ValidatedIn(b, scopes[i])
    ensures ScopesDone(b, scopes)
  {
    hide ValidatedIn, RepairedIn;
    forall i | 0 <= i < |scopes| ensures RepairedIn(b, scopes[i]) && ValidatedIn(b, scopes[i]) {
      RepairedLater(a, b, repairs[i], scopes[i]);
    }
  }

  /**
   * A restore that succeeds has closed exactly the instances running in its first snapshot, repaired and validated
   * every configuration scope, and, when it preserves the running state, its last snapshot reports all of them running.
   */
  lemma RestoreSucceeds(replies: seq<Reply>, preserve: bool)
    ensures var (w, r) := Restore(World([], replies), preserve);
            r.Restored? ==>
              && w.log != [] && w.log[0].call.Snapshot? && w.log[0].reply.Reports?
              && var instances := w.log[0].reply.instances;
                 && r == Restored(Running(instances), if preserve then Running(instances) else [])
                 && ScopesDone(w.log, Scopes(instances))
                 && (preserve && Running(instances) != [] ==>
                       w.log[|w.log| - 1].call.Snapshot? && AllRunning(Running(instances), w.log[|w.log| - 1].reply))
  {
    hide Answer, CloseAll, Restart, RepairAndRestart, ScopesDone, AllRunning, Scopes, Running;
    var w := World([], replies);
    var before := Answer(w, Snapshot);
    var a := Ask(w, Snapshot);
    assert a.log == [Entry(Snapshot, before)] && a.log[0] == Entry(Snapshot, before);
    if before.Reports? {
      var ids := Running(before.instances);
      CloseAllLog(a, ids, 0);
      var c := CloseAll(a, ids, 0);
      if c.ok {
        RestoredParts(c.world, Scopes(before.instances), c.closed, preserve);
        var e := RepairAndRestart(c.world, Scopes(before.instances), c.closed, preserve).0;
        assert a.log <= e.log ==> e.log[0] == a.log[0];
      }
    }
  }

  predicate Uses(x: Instance, directory: Str) { x.running && x.directory == directory }

  ghost predicate UsedIn(instances: seq<Instance>, directory: Str) {
    directory != [] && exists i :: 0 <= i < |instances| && Uses(instances[i], directory)
  }

  lemma UsedSnoc(instances: seq<Instance>, x: Instance, directory: Str)
    ensures UsedIn(instances + [x], directory) <==> UsedIn(instances, directory) || (directory != [] && Uses(x, directory))
  {
    var all := instances + [x];
    if UsedIn(instances, directory) {
      var i :| 0 <= i < |instances| && Uses(instances[i], directory);
      assert Uses(all[i], directory);
    }
    if directory != [] && Uses(x, directory) { assert Uses(all[|instances|], directory); }
  }

  /** The scopes: each directory of a running instance once, or the default alone. */
  lemma {:induction false} DirectoriesExact(instances: seq<Instance>)
    ensures var ds := Directories(instances);
            && (forall i, j :: 0 <= i < j < |ds| ==> ds[i] != ds[j])
            && (forall d :: d in ds <==> UsedIn(instances, d))
  {
    hide UsedIn;
    if instances == [] {
      assert forall d :: !UsedIn([], d) by { NothingUsed(); }
    } else {
      var n := |instances| - 1;
      var last, rest := instances[n], Directories(instances[..n]);
      DirectoriesExact(instances[..n]);
      assert instances == instances[..n] + [last];
      forall d ensures d in Directories(instances) <==> UsedIn(instances, d) { UsedSnoc(instances[..n], last, d); }
    }
  }

  lemma NothingUsed()
    ensures forall d :: !UsedIn([], d)
  {}

  // ---------------------------------------------------------------- starting a new instance

  datatype Phase = RestoreConnection | Validation | Launch

  datatype StartOutcome = NotReady | NotInstalled | NotConfigured | Started | Aborted(phase: Phase) | RollbackFailed

  predicate Selectable(x: Instance, profile: Str) { profile == [] || x.profile == profile }

  /** The instance started last, of the profile if one is given; the first one listed of several. */
  function Selected(instances: seq<Instance>, profile: Str): Option<Instance> {
    if instances == [] then None
    else
      var last := instances[|instances| - 1];
      var r := Selected(instances[..|instances| - 1], profile);
      if Selectable(last, profile) && (r.None? || last.startedAt > r.value.startedAt) then Some(last) else r
  }

  function StartScope(instances: seq<Instance>, profile: Str): Str {
    var x := Selected(instances, profile);
    if x.None? then [] else x.value.directory
  }

  function NewlyRunning(after: seq<Instance>, before: set<Str>): seq<Str> {
    if after == [] then []
    else (if after[0].running && after[0].id !in before then [after[0].id] else []) + NewlyRunning(after[1..], before)
  }

  function UndoStart(w: World, repairs: seq<nat>, phase: Phase): (World, StartOutcome) {
    var (a, ok) := UndoAll(w, repairs);
    (a, if ok then Aborted(phase) else RollbackFailed)
  }

  /** Closing what a failed launch has left running. */
  function Cleanup(w: World, before: set<Str>): (World, bool) {
    var after := Answer(w, Snapshot);
    var a := Ask(w, Snapshot);
    if !after.Reports? then (a, false)
    else
      var c := CloseAll(a, NewlyRunning(after.instances, before), 0);
      (c.world, c.ok)
  }

  function StartConnected(w: World, scope: Str, before: set<Str>): (World, StartOutcome) {
    var a := Ask(w, Repair(scope));
    if Answer(w, Repair(scope)).Fails? then UndoStart(a, [], RestoreConnection)
    else
      var b := Ask(a, Validate(scope));
      if Answer(a, Validate(scope)).Fails? then UndoStart(b, [|w.log|], Validation)
      else
        var c := Ask(b, StartNew);
        if !Answer(b, StartNew).Fails? then (c, Started)
        else
          var (e, clean) := Cleanup(c, before);
          if clean then UndoStart(e, [|w.log|], Launch) else (e, RollbackFailed)
  }

  /** What the inspections before a start found; `inspected` when none of them failed. */
  datatype Inspection = Inspection(inspected: bool, installed: bool, configured: bool)

  /** start. */
  function StartFresh(w: World, found: Inspection, connect: bool, profile: Str): (World, StartOutcome) {
    var before := Answer(w, Snapshot);
    var a := Ask(w, Snapshot);
    if !found.inspected || !before.Reports? then (a, NotReady)
    else if !found.installed then (a, NotInstalled)
    else if connect then
      StartConnected(a, StartScope(before.instances, profile), SetOf(Running(before.instances)))
    else if !found.configured then (a, NotConfigured)
    else (Ask(a, StartNew), if Answer(a, StartNew).Fails? then Aborted(Launch) else Started)
  }

  predicate IsLatest(instances: seq<Instance>, profile: Str, i: nat)
    requires i < |instances|
  {
    && Selectable(instances[i], profile)
    && (forall j :: 0 <= j < |instances| && Selectable(instances[j], profile) ==>
          if j < i then instances[j].startedAt < instances[i].startedAt else instances[j].startedAt <= instances[i].startedAt)
  }

  /** One more instance: it is the latest if it is later than the latest so far, which otherwise stays it. */
  lemma LatestStep(instances: seq<Instance>, profile: Str, i: nat)
    requires i < |instances| - 1 && IsLatest(instances[..|instances| - 1], profile, i)
    ensures var n := |instances| - 1;
            var later := Selectable(instances[n], profile) && instances[n].startedAt > instances[i].startedAt;
            IsLatest(instances, profile, if later then n else i)
  {
    hide Selectable;
    var n := |instances| - 1;
    assert forall j :: 0 <= j < n ==> instances[..n][j] == instances[j];
  }

  lemma FirstLatest(instances: seq<Instance>, profile: Str)
    requires instances != [] && Selectable(instances[|instances| - 1], profile)
    requires forall x <- instances[..|instances| - 1] :: !Selectable(x, profile)
    ensures IsLatest(instances, profile, |instances| - 1)
  {
    hide Selectable;
    var n := |instances| - 1;
    forall j | 0 <= j < n ensures !Selectable(instances[j], profile) { assert instances[..n][j] in instances[..n]; }
  }

  /** The selected instance is the first of the latest started ones that the profile admits. */
  lemma {:induction false} SelectedLatest(instances: seq<Instance>, profile: Str)
    ensures var r := Selected(instances, profile);
            && (r.None? <==> forall i :: 0 <= i < |instances| ==> !Selectable(instances[i], profile))
            && (r.Some? ==> exists i :: 0 <= i < |instances| && IsLatest(instances, profile, i) && instances[i] == r.value)
  {
    hide Selectable, IsLatest;
    if instances != [] {
      var n := |instances| - 1;
      var init := instances[..n];
      SelectedLatest(init, profile);
      assert forall j :: 0 <= j < n ==> init[j] == instances[j];
      var r := Selected(init, profile);
      if r.Some? {
        var i :| 0 <= i < n && IsLatest(init, profile, i) && init[i] == r.value;
        LatestSelectable(init, profile, i);
        LatestStep(instances, profile, i);
      } else if Selectable(instances[n], profile) {
        FirstLatest(instances, profile);
      }
    }
  }

  lemma LatestSelectable(instances: seq<Instance>, profile: Str, i: nat)
    requires i < |instances| && IsLatest(instances, profile, i)
    ensures Selectable(instances[i], profile)
  {}

  lemma {:induction false} NewlyRunningExact(after: seq<Instance>, before: set<Str>)
    ensures forall id :: id in NewlyRunning(after, before) <==> id in Running(after) && id !in before
  {
    if after != [] { NewlyRunningExact(after[1..], before); }
  }

  /** The closes of a log that grew by closing `ids` in order, up to the first failure. */
  predicate ClosesFrom(base: seq<Entry>, log: seq<Entry>, ids: seq<Str>, ok: bool) {
    && base <= log && |log| <= |base| + |ids|
    && (forall i :: |base| <= i < |log| ==> log[i].call == CloseOne(ids[i - |base|]))
    && (ok ==> |log| == |base| + |ids| && forall i :: |base| <= i < |log| ==> log[i].reply == Done)
    && (!ok ==> |log| > |base| && log[|log| - 1].reply.Fails?)
  }

  lemma ClosesMore(base: seq<Entry>, log: seq<Entry>, ids: seq<Str>, ok: bool)
    requires ids != [] && ClosesFrom(base + [Entry(CloseOne(ids[0]), Done)], log, ids[1..], ok)
    ensures ClosesFrom(base, log, ids, ok)
  {
    var next := base + [Entry(CloseOne(ids[0]), Done)];
    assert log[|base|] == next[|base|];
    forall i | |base| <= i < |log| ensures log[i].call == CloseOne(ids[i - |base|]) {
      if i > |base| { assert ids[1..][i - |next|] == ids[i - |base|]; }
    }
  }

  lemma ClosesEnd(base: seq<Entry>, ids: seq<Str>)
    ensures ClosesFrom(base, base, [], true)
    ensures ids != [] ==> ClosesFrom(base, base + [Entry(CloseOne(ids[0]), Fails)], ids, false)
  {}

  lemma {:induction false} CloseAllEntries(w: World, ids: seq<Str>, n: nat)
    requires n <= |ids|
    ensures var c := CloseAll(w, ids, n); ClosesFrom(w.log, c.world.log, ids[n..], c.ok)
    decreases |ids| - n
  {
    hide Answer, ClosesFrom;
    var rest := ids[n..];
    ClosesEnd(w.log, rest);
    if n < |ids| {
      assert rest[0] == ids[n] && rest[1..] == ids[n + 1..];
      if !Answer(w, CloseOne(ids[n])).Fails? {
        var a := Ask(w, CloseOne(ids[n]));
        CloseAllEntries(a, ids, n + 1);
        ClosesMore(w.log, CloseAll(a, ids, n + 1).world.log, rest, CloseAll(a, ids, n + 1).ok);
      }
    }
  }

  /** The log from a failed launch on: a snapshot, the closes of what it shows to be newly running, and the undoing. */
  predicate CleanedUp(log: seq<Entry>, at: nat, first: set<Str>, r: StartOutcome) {
    && |log| > at && log[at].call.Snapshot?
    && (!log[at].reply.Reports? ==> |log| == at + 1 && r.RollbackFailed?)
    && (log[at].reply.Reports? ==>
          var ids := NewlyRunning(log[at].reply.instances, first);
          || (r.RollbackFailed? && ClosesFrom(log[..at + 1], log, ids, false))
          || (&& |log| == at + 2 + |ids| && ClosesFrom(log[..at + 1], log[..at + 1 + |ids|], ids, true)
              && Last(log) == Entry(Undo(1), if r.RollbackFailed? then Fails else Done)
              && (r.RollbackFailed? || r == Aborted(Launch))))
  }

  function Last(log: seq<Entry>): Entry
    requires log != []
  {
    log[|log| - 1]
  }

  lemma UndoOne(w: World, at: nat, phase: Phase)
    ensures var (a, r) := UndoStart(w, [at], phase);
            && a.log == w.log + [Entry(Undo(at), if r.RollbackFailed? then Fails else Done)]
            && (r.RollbackFailed? || r == Aborted(phase))
  {
    assert [at][..0] == [];
    assert UndoAll(Ask(w, Undo(at)), []) == (Ask(w, Undo(at)), true);
    assert UndoAll(w, [at]) == (Ask(w, Undo(at)), !Answer(w, Undo(at)).Fails?);
  }

  lemma CleanupLog(w: World, before: set<Str>)
    ensures var (e, clean) := Cleanup(w, before);
            var r := if clean then UndoStart(e, [1], Launch) else (e, RollbackFailed);
            && w.log <= r.0.log && CleanedUp(r.0.log, |w.log|, before, r.1)
            && (r.1.RollbackFailed? || r.1 == Aborted(Launch))
  {
    hide CloseAll, NewlyRunning, UndoStart, Answer;
    var a := Ask(w, Snapshot);
    var after := Answer(w, Snapshot);
    if after.Reports? {
      var ids := NewlyRunning(after.instances, before);
      CloseAllEntries(a, ids, 0);
      assert ids[0..] == ids;
      var c := CloseAll(a, ids, 0);
      UndoOne(c.world, 1, Launch);
      assert c.world.log[..|w.log| + 1] == a.log;
      assert c.world.log[|w.log|] == a.log[|w.log|];
      if c.ok {
        var log := UndoStart(c.world, [1], Launch).0.log;
        assert log[..|w.log| + 1] == a.log && log[..|w.log| + 1 + |ids|] == c.world.log;
        assert log[|w.log|] == a.log[|w.log|];
      }
    }
  }

  /**
   * A connected start, whatever fails: the connection is repaired and validated in the scope of the latest instance
   * before anything is launched; a failure before the launch leaves no repair standing unless undoing it fails; after
   * a failed launch exactly the instances that were not running before are closed, and the repair is undone only when
   * all of them are.
   */
  lemma StartCompensates(replies: seq<Reply>, found: Inspection, profile: Str)
    ensures var (w, r) := StartFresh(World([], replies), found, true, profile);
            var log := w.log;
            && log != [] && log[0].call.Snapshot?
            && (r.NotReady? || r.NotInstalled? ==> |log| == 1)
            && (|log| > 1 ==>
                  && log[0].reply.Reports? && found.installed
                  && var first := SetOf(Running(log[0].reply.instances));
                     var scope := StartScope(log[0].reply.instances, profile);
                     log[1].call == Repair(scope)
                     && (log[1].reply.Fails? ==> |log| == 2 && r == Aborted(RestoreConnection))
                     && (!log[1].reply.Fails? ==> |log| > 2 && log[2].call == Validate(scope))
                     && (|log| > 2 && log[2].reply.Fails? ==>
                           && |log| == 4 && log[3] == Entry(Undo(1), if r.RollbackFailed? then Fails else Done)
                           && (r.RollbackFailed? || r == Aborted(Validation)))
                     && (|log| > 2 && !log[2].reply.Fails? ==> |log| > 3 && log[3].call.StartNew?)
                     && (|log| > 3 && log[3].call.StartNew? ==>
                           if log[3].reply.Fails? then CleanedUp(log, 4, first, r) else |log| == 4 && r.Started?))
  {
    hide Answer, SetOf, Running, StartScope, UndoStart, Cleanup, CleanedUp;
    var w := World([], replies);
    var before := Answer(w, Snapshot);
    var a := Ask(w, Snapshot);
    if found.inspected && before.Reports? && found.installed {
      var scope := StartScope(before.instances, profile);
      var first := SetOf(Running(before.instances));
      var b := Ask(a, Repair(scope));
      UndoNothing(b, RestoreConnection);
      var c := Ask(b, Validate(scope));
      UndoOne(c, 1, Validation);
      var d := Ask(c, StartNew);
      CleanupLog(d, first);
      assert d.log[0] == a.log[0] && d.log[1] == b.log[1] && d.log[2] == c.log[2];
    }
  }

  lemma UndoNothing(w: World, phase: Phase)
    ensures UndoStart(w, [], phase) == (w, Aborted(phase))
  {}

  /** Only the instances a failed launch has started are closed, and at most one new instance is ever started. */
  lemma StartOwns(replies: seq<Reply>, found: Inspection, connect: bool, profile: Str, i: nat)
    requires i < |StartFresh(World([], replies), found, connect, profile).0.log|
    ensures var log := StartFresh(World([], replies), found, connect, profile).0.log;
            && !log[i].call.StartOne?
            && (log[i].call.StartNew? ==> i == if connect then 3 else 1)
            && (log[i].call.CloseOne? ==>
                  && connect && i > 4 && log[3] == Entry(StartNew, Fails)
                  && log[0].reply.Reports? && log[4].reply.Reports?
                  && log[i].call.id in Running(log[4].reply.instances)
                  && log[i].call.id !in Running(log[0].reply.instances))
  {
    hide Answer, NewlyRunning, Running, StartConnected, StartScope;
    var (w, r) := StartFresh(World([], replies), found, connect, profile);
    if connect {
      StartCompensates(replies, found, profile);
      var log := w.log;
      if i > 4 {
        var ids := NewlyRunning(log[4].reply.instances, SetOf(Running(log[0].reply.instances)));
        NewlyRunningExact(log[4].reply.instances, SetOf(Running(log[0].reply.instances)));
        if i < 5 + |ids| { assert log[i].call.CloseOne? ==> log[i].call.id == ids[i - 5]; }
      }
    }
  }

  // ---------------------------------------------------------------- the adapter

  class Ports {
    var world: World

    constructor (replies: seq<Reply>)
      ensures world == World([], replies)
    {
      world := World([], replies);
    }

    method Call(c: Call) returns (r: Reply)
      modifies this
      ensures world == Ask(old(world), c) && r == Answer(old(world), c)
    {
      r := Answer(world, c);
      world := Ask(world, c);
    }
  }

  class CliAdapter {
    const ports: Ports

    constructor (ports: Ports)
      ensures this.ports == ports
    {
      this.ports := ports;
    }

    method CloseManaged(ids: seq<Str>) returns (closed: seq<Str>, ok: bool)
      modifies ports
      ensures Closing(ports.world, closed, ok) == CloseAll(old(ports.world), ids, 0)
    {
      hide Ask, Answer;
      closed := [];
      var i := 0;
      while i < |ids|
        invariant i <= |ids| && closed == ids[..i]
        invariant CloseAll(old(ports.world), ids, 0) == CloseAll(ports.world, ids, i)
      {
        var r := ports.Call(CloseOne(ids[i]));
        if r.Fails? { return closed, false; }
        closed := closed + [ids[i]];
        i := i + 1;
      }
      ok := true;
    }

    method RestartManaged(ids: seq<Str>) returns (ok: bool)
      modifies ports
      ensures (ports.world, ok) == Restart(old(ports.world), ids)
    {
      hide Ask, Answer;
      ok := true;
      var i := 0;
      while i < |ids|
        invariant i <= |ids|
        invariant StartAll(old(ports.world), ids[..i]) == (ports.world, ok)
      {
        assert ids[..i + 1][..i] == ids[..i];
        var r := ports.Call(StartOne(ids[i]));
        if r.Fails? { ok := false; }
        i := i + 1;
      }
      assert ids[..i] == ids;
      if ids == [] { return; }
      var after := ports.Call(Snapshot);
      ok := ok && AllRunning(ids, after);
    }

    method RollbackRepairs(repairs: seq<nat>) returns (ok: bool)
      modifies ports
      ensures (ports.world, ok) == UndoAll(old(ports.world), repairs)
    {
      hide Ask, Answer;
      ok := true;
      var i := |repairs|;
      assert repairs[..i] == repairs;
      while i > 0
        invariant i <= |repairs|
        invariant UndoAll(old(ports.world), repairs)
               == (UndoAll(ports.world, repairs[..i]).0, ok && UndoAll(ports.world, repairs[..i]).1)
      {
        i := i - 1;
        assert repairs[..i + 1][..i] == repairs[..i];
        var r := ports.Call(Undo(repairs[i]));
        if r.Fails? { ok := false; }
      }
    }

    method QuiesceManaged(ids: seq<Str>) returns (ok: bool)
      modifies ports
      ensures (ports.world, ok) == Quiesce(old(ports.world), ids)
    {
      hide Ask, Answer;
      ok := true;
      var i := 0;
      while i < |ids|
        invariant i <= |ids|
        invariant Quiesce(old(ports.world), ids[..i]) == (ports.world, ok)
      {
        assert ids[..i + 1][..i] == ids[..i];
        var r := ports.Call(CloseOne(ids[i]));
        if r.Fails? { ok := false; }
        i := i + 1;
      }
      assert ids[..i] == ids;
    }

    method GoBackTo(repairs: seq<nat>, closed: seq<Str>)
      modifies ports
      ensures ports.world == GoBack(old(ports.world), repairs, closed)
    {
      hide UndoAll, Restart;
      var undone := RollbackRepairs(repairs);
      if undone { var _ := RestartManaged(closed); }
    }

    method RepairScopes(scopes: seq<Str>) returns (repairs: seq<nat>, ok: bool)
      modifies ports
      ensures Repairing(ports.world, repairs, ok) == RepairAll(old(ports.world), scopes, 0, [])
    {
      hide Ask, Answer;
      repairs := [];
      var i := 0;
      while i < |scopes|
        invariant i <= |scopes|
        invariant RepairAll(old(ports.world), scopes, 0, []) == RepairAll(ports.world, scopes, i, repairs)
      {
        var at := |ports.world.log|;
        var r := ports.Call(Repair(scopes[i]));
        if r.Fails? { return repairs, false; }
        repairs := repairs + [at];
        i := i + 1;
      }
      ok := true;
    }

    method ValidateScopes(scopes: seq<Str>) returns (ok: bool)
      modifies ports
      ensures (ports.world, ok) == ValidateAll(old(ports.world), scopes, 0)
    {
      hide Ask, Answer;
      var i := 0;
      while i < |scopes|
        invariant i <= |scopes|
        invariant ValidateAll(old(ports.world), scopes, 0) == ValidateAll(ports.world, scopes, i)
      {
        var r := ports.Call(Validate(scopes[i]));
        if r.Fails? { return false; }
        i := i + 1;
      }
      ok := true;
    }

    method RestoreUnlocked(preserveRunningState: bool) returns (r: Outcome)
      modifies ports
      ensures (ports.world, r) == Restore(old(ports.world), preserveRunningState)
    {
      hide Ask, Answer, CloseAll, Restart, RepairAll, ValidateAll, GoBack, Quiesce, Scopes, Running;
      var before := ports.Call(Snapshot);
      if !before.Reports? { return SnapshotFailed; }
      var closed, allClosed := CloseManaged(Running(before.instances));
      if !allClosed {
        var _ := RestartManaged(closed);
        return CloseFailed;
      }
      var scopes := Scopes(before.instances);
      var repairs, repaired := RepairScopes(scopes);
      if repaired { repaired := ValidateScopes(scopes); }
      if !repaired {
        GoBackTo(repairs, closed);
        return RepairFailed;
      }
      if preserveRunningState {
        var restarted := RestartManaged(closed);
        if !restarted {
          var quiet := QuiesceManaged(closed);
          if quiet { GoBackTo(repairs, closed); }
          return RestartFailed;
        }
      }
      return Restored(closed, if preserveRunningState then closed else []);
    }

    method CloseUnlocked() returns (closed: Option<seq<Str>>)
      modifies ports
      ensures (ports.world, closed) == Close(old(ports.world))
    {
      hide Ask, Answer, CloseAll, Running;
      var before := ports.Call(Snapshot);
      if !before.Reports? { return None; }
      var ids, ok := CloseManaged(Running(before.instances));
      return if ok then Some(ids) else None;
    }

    method UndoRepairs(repairs: seq<nat>, phase: Phase) returns (r: StartOutcome)
      modifies ports
      ensures (ports.world, r) == UndoStart(old(ports.world), repairs, phase)
    {
      hide UndoAll;
      var undone := RollbackRepairs(repairs);
      return if undone then Aborted(phase) else RollbackFailed;
    }

    method CleanUpLaunch(previouslyRunning: set<Str>) returns (clean: bool)
      modifies ports
      ensures (ports.world, clean) == Cleanup(old(ports.world), previouslyRunning)
    {
      hide Ask, Answer, CloseAll, NewlyRunning;
      var after := ports.Call(Snapshot);
      if !after.Reports? { return false; }
      var closed, ok := CloseManaged(NewlyRunning(after.instances, previouslyRunning));
      return ok;
    }

    method Start(found: Inspection, connect: bool, profile: Str) returns (r: StartOutcome)
      modifies ports
      ensures (ports.world, r) == StartFresh(old(ports.world), found, connect, profile)
    {
      hide Ask, Answer, UndoStart, Cleanup, StartScope, Running, SetOf;
      var before := ports.Call(Snapshot);
      if !found.inspected || !before.Reports? { return NotReady; }
      if !found.installed { return NotInstalled; }
      if connect {
        r := StartWithConnection(StartScope(before.instances, profile), SetOf(Running(before.instances)));
        return;
      }
      if !found.configured { return NotConfigured; }
      var launched := ports.Call(StartNew);
      return if launched.Fails? then Aborted(Launch) else Started;
    }

    method StartWithConnection(scope: Str, previouslyRunning: set<Str>) returns (r: StartOutcome)
      modifies ports
      ensures (ports.world, r) == StartConnected(old(ports.world), scope, previouslyRunning)
    {
      hide Answer, UndoStart, Cleanup;
      var repairs: seq<nat> := [];
      var phase := RestoreConnection;
      var at := |ports.world.log|;
      var reply := ports.Call(Repair(scope));
      if !reply.Fails? {
        repairs := [at];
        phase := Validation;
        reply := ports.Call(Validate(scope));
        if !reply.Fails? {
          phase := Launch;
          reply := ports.Call(StartNew);
          if !reply.Fails? { return Started; }
          var clean := CleanUpLaunch(previouslyRunning);
          if !clean { return RollbackFailed; }
        }
      }
      r := UndoRepairs(repairs, phase);
    }
  }
}
