/** The four-file commit of ClaudeDesktopConfig: all or nothing, and a rollback that is exact and final. */
module DesktopCommit {
  import opened Units
  import opened Files

  datatype Plan = Plan(path: Path, before: Option<Str>, after: Option<Str>)

  datatype CommitResult = NoChange | Committed | Failed(restored: bool)
  datatype RestoreResult = Restored | Refused | Threw

  predicate DistinctPaths(plans: seq<Plan>) {
    forall i, j :: 0 <= i < j < |plans| ==> plans[i].path != plans[j].path
  }

  // ---------------------------------------------------------------- the operations

  function Changed(plans: seq<Plan>): seq<Plan> {
    if plans == [] then [] else (if plans[0].before != plans[0].after then [plans[0]] else []) + Changed(plans[1..])
  }

  datatype Applied = Applied(disk: Disk, attempted: seq<Plan>, ok: bool)

  /** The loop of commitPlans over the plans from `i` on. */
  function Apply(d: Disk, plans: seq<Plan>, i: nat): Applied
    requires i <= |plans|
    decreases |plans| - i
  {
    if i == |plans| then Applied(d, plans, true)
    else
      var (a, current) := Read(d, plans[i].path);
      if current != Some(plans[i].before) then Applied(a, plans[..i], false)
      else
        var (b, ok) := Store(a, plans[i].path, plans[i].after);
        if !ok then Applied(b, plans[..i + 1], false) else Apply(b, plans, i + 1)
  }

  /** Reading all plans' files; None when a read fails. */
  function ReadAll(d: Disk, plans: seq<Plan>): (r: (Disk, Option<seq<Option<Str>>>))
    ensures r.1.Some? ==> |r.1.value| == |plans|
  {
    if plans == [] then (d, Some([]))
    else
      var n := |plans| - 1;
      var (a, rest) := ReadAll(d, plans[..n]);
      var (b, c) := Read(a, plans[n].path);
      (b, if rest.None? || c.None? then None else Some(rest.value + [c.value]))
  }

  /** From the last plan to the first, the files that are not as before are put back. */
  function Undo(d: Disk, plans: seq<Plan>, current: seq<Option<Str>>): (Disk, bool)
    requires |current| == |plans|
    decreases |plans|
  {
    if plans == [] then (d, true)
    else
      var n := |plans| - 1;
      if current[n] == plans[n].before then Undo(d, plans[..n], current[..n])
      else
        var (a, ok) := Store(d, plans[n].path, plans[n].before);
        if !ok then (a, false) else Undo(a, plans[..n], current[..n])
  }

  predicate Recognized(plans: seq<Plan>, current: seq<Option<Str>>)
    requires |current| == |plans|
  {
    forall i :: 0 <= i < |plans| ==> current[i] == plans[i].after || current[i] == plans[i].before
  }

  /** restorePlans. */
  function Restore(d: Disk, plans: seq<Plan>): (Disk, RestoreResult) {
    var (a, current) := ReadAll(d, plans);
    if current.None? then (a, Threw)
    else if !Recognized(plans, current.value) then (a, Refused)
    else
      var (b, ok) := Undo(a, plans, current.value);
      (b, if ok then Restored else Threw)
  }

  /** commitPlans. */
  function Commit(d: Disk, plans: seq<Plan>): (Disk, CommitResult) {
    var changed := Changed(plans);
    if changed == [] then (d, NoChange)
    else
      var a := Apply(d, changed, 0);
      if a.ok then (a.disk, Committed)
      else
        var (b, r) := Restore(a.disk, a.attempted);
        (b, Failed(r.Restored?))
  }

  // ---------------------------------------------------------------- states of the files

  ghost predicate SameElsewhere(a: map<Path, Str>, b: map<Path, Str>, plans: seq<Plan>) {
    forall p :: (forall i :: 0 <= i < |plans| ==> plans[i].path != p) ==> Content(a, p) == Content(b, p)
  }

  predicate AllBefore(files: map<Path, Str>, plans: seq<Plan>) {
    forall i :: 0 <= i < |plans| ==> Content(files, plans[i].path) == plans[i].before
  }

  predicate AllAfter(files: map<Path, Str>, plans: seq<Plan>) {
    forall i :: 0 <= i < |plans| ==> Content(files, plans[i].path) == plans[i].after
  }

  /** Every file is as before or as planned. */
  predicate Halfway(files: map<Path, Str>, plans: seq<Plan>) {
    forall i :: 0 <= i < |plans| ==>
      Content(files, plans[i].path) == plans[i].before || Content(files, plans[i].path) == plans[i].after
  }

  // ---------------------------------------------------------------- applying

  lemma {:induction false} ApplyQuiet(d: Disk, plans: seq<Plan>, i: nat)
    requires i <= |plans| && Quiet(d) && DistinctPaths(plans)
    requires AllAfter(d.files, plans[..i]) && AllBefore(d.files, plans[i..])
    ensures var a := Apply(d, plans, i);
            && Quiet(a.disk) && a.attempted <= plans && i <= |a.attempted|
            && SameElsewhere(a.disk.files, d.files, plans[i..])
            && (a.ok ==> AllAfter(a.disk.files, plans))
            && (!a.ok ==> Halfway(a.disk.files, a.attempted) && AllBefore(a.disk.files, plans[|a.attempted|..]))
    decreases |plans| - i
  {
    hide Read, Store, Quiet;
    if i == |plans| {
      assert plans[..i] == plans;
    } else {
      var p := plans[i];
      QuietRead(d, p.path);
      var a := Read(d, p.path).0;
      assert plans[i..][0] == p;
      QuietStore(a, p.path, p.after);
      var b := Store(a, p.path, p.after).0;
      SetContentAt(a.files, p.path, p.after);
      forall j | i < j < |plans| ensures plans[j].path != p.path && Content(d.files, plans[j].path) == plans[j].before {
        assert plans[i..][j - i] == plans[j];
      }
      forall j | 0 <= j < i ensures plans[j].path != p.path && Content(d.files, plans[j].path) == plans[j].after {
        assert plans[..i][j] == plans[j];
      }
      if Read(d, p.path).1 == Some(p.before) && Store(a, p.path, p.after).1 {
        ApplyQuiet(b, plans, i + 1);
      }
    }
  }

  // ---------------------------------------------------------------- restoring

  lemma {:induction false} ReadAllQuiet(d: Disk, plans: seq<Plan>)
    requires Quiet(d)
    ensures var (a, c) := ReadAll(d, plans);
            && Quiet(a) && a.files == d.files
            && (c.Some? ==> forall i :: 0 <= i < |plans| ==> c.value[i] == Content(d.files, plans[i].path))
  {
    hide Read, Quiet;
    if plans != [] {
      var n := |plans| - 1;
      ReadAllQuiet(d, plans[..n]);
      var (a, rest) := ReadAll(d, plans[..n]);
      var (b, c) := Read(a, plans[n].path);
      QuietRead(a, plans[n].path);
      if rest.Some? && c.Some? {
        var all := rest.value + [c.value];
        forall i | 0 <= i < |plans| ensures all[i] == Content(d.files, plans[i].path) {
          if i < n { assert plans[..n][i] == plans[i]; }
        }
      }
    }
  }

  /** Putting back `plans[..n]`; the later ones are as before already. */
  lemma {:induction false} UndoQuiet(d: Disk, plans: seq<Plan>, current: seq<Option<Str>>)
    requires Quiet(d) && DistinctPaths(plans) && |current| == |plans| && Halfway(d.files, plans)
    requires forall i :: 0 <= i < |plans| ==> current[i] == Content(d.files, plans[i].path)
    ensures var (a, ok) := Undo(d, plans, current);
            && Quiet(a) && SameElsewhere(a.files, d.files, plans) && Halfway(a.files, plans)
            && (ok ==> AllBefore(a.files, plans))
    decreases |plans|
  {
    hide Store, Quiet;
    if plans != [] {
      var n := |plans| - 1;
      var p := plans[n];
      if current[n] == p.before {
        UndoQuiet(d, plans[..n], current[..n]);
        var e := Undo(d, plans[..n], current[..n]).0;
        assert Content(e.files, p.path) == Content(d.files, p.path);
        Extend(e.files, plans);
      } else {
        QuietStore(d, p.path, p.before);
        SetContentAt(d.files, p.path, p.before);
        var (a, ok) := Store(d, p.path, p.before);
        if ok {
          UndoQuiet(a, plans[..n], current[..n]);
          var e := Undo(a, plans[..n], current[..n]).0;
          assert Content(e.files, p.path) == Content(a.files, p.path);
          Extend(e.files, plans);
        }
      }
    }
  }

  lemma Extend(files: map<Path, Str>, plans: seq<Plan>)
    requires plans != [] && Content(files, plans[|plans| - 1].path) == plans[|plans| - 1].before
    ensures Halfway(files, plans[..|plans| - 1]) ==> Halfway(files, plans)
    ensures AllBefore(files, plans[..|plans| - 1]) ==> AllBefore(files, plans)
  {
    var n := |plans| - 1;
    assert forall i :: 0 <= i < n ==> plans[..n][i] == plans[i];
  }

  /** Without foreign writes a restore is never refused, and when it ends well every file is as before. */
  lemma RestoreQuiet(d: Disk, plans: seq<Plan>)
    requires Quiet(d) && DistinctPaths(plans) && Halfway(d.files, plans)
    ensures var (a, r) := Restore(d, plans);
            && Quiet(a) && SameElsewhere(a.files, d.files, plans) && Halfway(a.files, plans)
            && !r.Refused? && (r.Restored? ==> AllBefore(a.files, plans))
  {
    hide Quiet, ReadAll, Undo;
    ReadAllQuiet(d, plans);
    var (a, c) := ReadAll(d, plans);
    if c.Some? { UndoQuiet(a, plans, c.value); }
  }

  lemma BeforeEverywhere(a: map<Path, Str>, b: map<Path, Str>, plans: seq<Plan>)
    requires SameElsewhere(a, b, plans) && AllBefore(a, plans) && AllBefore(b, plans)
    ensures a == b
  {
    forall p ensures Content(a, p) == Content(b, p) {
      if i :| 0 <= i < |plans| && plans[i].path == p {
        assert Content(a, plans[i].path) == plans[i].before;
      }
    }
    SameFiles(a, b);
  }

  // ---------------------------------------------------------------- all or nothing

  lemma {:induction false} ChangedFacts(plans: seq<Plan>)
    ensures forall p :: p in Changed(plans) <==> p in plans && p.before != p.after
    ensures DistinctPaths(plans) ==> DistinctPaths(Changed(plans))
  {
    if plans != [] {
      ChangedFacts(plans[1..]);
      assert plans == [plans[0]] + plans[1..];
      if DistinctPaths(plans) {
        forall p | p in Changed(plans[1..]) ensures p.path != plans[0].path {
          var i :| 0 <= i < |plans[1..]| && plans[1..][i] == p;
          assert plans[i + 1] == p;
        }
      }
    }
  }

  /** Every path is as `files` says, except that the plans are carried out. */
  ghost predicate CarriedOut(now: map<Path, Str>, files: map<Path, Str>, plans: seq<Plan>) {
    AllAfter(now, plans) && SameElsewhere(now, files, plans)
  }

  /**
   * All or nothing: with any of the file operations failing and nobody else writing, either every planned file has
   * its new content, or the error says the files were restored and they are all exactly as before. If restoring fails
   * as well, every file still is as before or as planned, and no other file has changed.
   */
  lemma AllOrNothing(d: Disk, plans: seq<Plan>)
    requires Quiet(d) && DistinctPaths(plans) && AllBefore(d.files, plans)
    ensures var (e, r) := Commit(d, plans);
            && (r.NoChange? || r.Committed? ==> CarriedOut(e.files, d.files, plans))
            && (r == Failed(true) ==> e.files == d.files)
            && (r == Failed(false) ==> Halfway(e.files, plans) && SameElsewhere(e.files, d.files, plans))
  {
    hide Quiet, Apply, Restore, Changed, SameElsewhere;
    ChangedFacts(plans);
    var changed := Changed(plans);
    SameElsewhereSelf(d.files, plans);
    if changed == [] {
      assert forall p <- plans :: p !in changed;
    } else {
      assert AllBefore(d.files, changed) by { SubPlans(d.files, plans, changed); }
      assert changed[0..] == changed && changed[..0] == [];
      ApplyQuiet(d, changed, 0);
      var a := Apply(d, changed, 0);
      if a.ok {
        Carried(a.disk.files, d.files, plans, changed);
      } else {
        Prefix(changed, a.attempted);
        RestoreQuiet(a.disk, a.attempted);
        var (e, r) := Restore(a.disk, a.attempted);
        AfterRestore(e.files, a.disk.files, d.files, plans, changed, a.attempted);
        if r.Restored? { BeforeEverywhere(e.files, d.files, plans); }
      }
    }
  }

  lemma SameElsewhereSelf(files: map<Path, Str>, plans: seq<Plan>)
    ensures SameElsewhere(files, files, plans)
  {}

  lemma SubPlans(files: map<Path, Str>, plans: seq<Plan>, changed: seq<Plan>)
    requires AllBefore(files, plans) && forall p <- changed :: p in plans
    ensures AllBefore(files, changed)
  {
    forall i | 0 <= i < |changed| ensures Content(files, changed[i].path) == changed[i].before {
      assert changed[i] in plans;
      var j :| 0 <= j < |plans| && plans[j] == changed[i];
    }
  }

  lemma Prefix(changed: seq<Plan>, attempted: seq<Plan>)
    requires attempted <= changed && DistinctPaths(changed)
    ensures DistinctPaths(attempted)
  {
    assert forall i :: 0 <= i < |attempted| ==> attempted[i] == changed[i];
  }

  lemma Carried(now: map<Path, Str>, files: map<Path, Str>, plans: seq<Plan>, changed: seq<Plan>)
    requires AllAfter(now, changed) && SameElsewhere(now, files, changed) && AllBefore(files, plans) && DistinctPaths(plans)
    requires forall p :: p in changed <==> p in plans && p.before != p.after
    ensures CarriedOut(now, files, plans)
  {
    forall i | 0 <= i < |plans| ensures Content(now, plans[i].path) == plans[i].after {
      if plans[i] in changed {
        var j :| 0 <= j < |changed| && changed[j] == plans[i];
      } else {
        NotChanged(plans, changed, i);
      }
    }
    forall p | forall i :: 0 <= i < |plans| ==> plans[i].path != p ensures Content(now, p) == Content(files, p) {
      forall j | 0 <= j < |changed| ensures changed[j].path != p {
        assert changed[j] in plans;
        var i :| 0 <= i < |plans| && plans[i] == changed[j];
      }
    }
  }

  lemma NotChanged(plans: seq<Plan>, changed: seq<Plan>, i: nat)
    requires i < |plans| && plans[i] !in changed && DistinctPaths(plans)
    requires forall p :: p in changed <==> p in plans && p.before != p.after
    ensures plans[i].before == plans[i].after
    ensures forall j :: 0 <= j < |changed| ==> changed[j].path != plans[i].path
  {
    assert plans[i] in plans;
    forall j | 0 <= j < |changed| ensures changed[j].path != plans[i].path {
      assert changed[j] in plans;
      var k :| 0 <= k < |plans| && plans[k] == changed[j];
      assert k != i;
    }
  }

  lemma AfterRestore(now: map<Path, Str>, mid: map<Path, Str>, files: map<Path, Str>, plans: seq<Plan>, changed: seq<Plan>,
                     attempted: seq<Plan>)
    requires SameElsewhere(mid, files, changed) && SameElsewhere(now, mid, attempted)
    requires attempted <= changed && Halfway(now, attempted) && AllBefore(mid, changed[|attempted|..])
    requires AllBefore(files, plans) && DistinctPaths(plans) && DistinctPaths(changed)
    requires forall p :: p in changed <==> p in plans && p.before != p.after
    ensures Halfway(now, plans) && SameElsewhere(now, files, plans)
    ensures AllBefore(now, attempted) ==> AllBefore(now, plans)
  {
    forall i | 0 <= i < |plans|
      ensures Content(now, plans[i].path) == plans[i].before || Content(now, plans[i].path) == plans[i].after
      ensures AllBefore(now, attempted) ==> Content(now, plans[i].path) == plans[i].before
    {
      if plans[i] in changed {
        var j :| 0 <= j < |changed| && changed[j] == plans[i];
        if j < |attempted| {
          assert attempted[j] == changed[j];
        } else {
          assert changed[|attempted|..][j - |attempted|] == changed[j];
          forall k | 0 <= k < |attempted| ensures attempted[k].path != changed[j].path { assert attempted[k] == changed[k]; }
        }
      } else {
        NotChanged(plans, changed, i);
        forall k | 0 <= k < |attempted| ensures attempted[k].path != plans[i].path { assert attempted[k] == changed[k]; }
      }
    }
    forall p | forall i :: 0 <= i < |plans| ==> plans[i].path != p ensures Content(now, p) == Content(files, p) {
      forall j | 0 <= j < |changed| ensures changed[j].path != p {
        assert changed[j] in plans;
        var i :| 0 <= i < |plans| && plans[i] == changed[j];
      }
      forall k | 0 <= k < |attempted| ensures attempted[k].path != p { assert attempted[k] == changed[k]; }
    }
  }

  // ---------------------------------------------------------------- foreign writers

  /** The files after `n` calls that only read. */
  function Drift(d: Disk, n: nat): Disk {
    if n == 0 then d else Arrive(Drift(d, n - 1))
  }

  lemma {:induction false} ReadAllDrifts(d: Disk, plans: seq<Plan>)
    ensures ReadAll(d, plans).0 == Drift(d, |plans|)
  {
    if plans != [] { ReadAllDrifts(d, plans[..|plans| - 1]); }
  }

  /** A restore that sees a content it does not know writes nothing: only what others wrote has changed. */
  lemma RefusedWritesNothing(d: Disk, plans: seq<Plan>)
    requires Restore(d, plans).1.Refused?
    ensures Restore(d, plans).0 == Drift(d, |plans|)
  {
    hide Undo;
    ReadAllDrifts(d, plans);
  }

  /** What reading plan `i`'s file gives, unless reading fails: its content after the calls before it and its own moment. */
  lemma {:induction false} ReadAllContents(d: Disk, plans: seq<Plan>, i: nat)
    requires i < |plans| && ReadAll(d, plans).1.Some?
    ensures ReadAll(d, plans).1.value[i] == Content(Drift(d, i + 1).files, plans[i].path)
  {
    hide Arrive;
    var n := |plans| - 1;
    ReadAllDrifts(d, plans[..n]);
    if i < n { ReadAllContents(d, plans[..n], i); }
  }

  /**
   * A content others put in a file before a restore reads it, at whatever moment, is seen: the restore is refused or
   * fails to read, and writes nothing.
   */
  lemma ForeignIsRefused(d: Disk, plans: seq<Plan>, i: nat)
    requires i < |plans|
    requires var c := Content(Drift(d, i + 1).files, plans[i].path); c != plans[i].before && c != plans[i].after
    ensures !Restore(d, plans).1.Restored? && Restore(d, plans).0 == Drift(d, |plans|)
  {
    hide ReadAll, Undo, Drift;
    ReadAllDrifts(d, plans);
    if ReadAll(d, plans).1.Some? { ReadAllContents(d, plans, i); }
  }

  // ---------------------------------------------------------------- the rollback

  datatype Rollback = Rollback(disk: Disk, pending: bool)

  /** One call of the returned rollback. */
  function Attempt(b: Rollback, plans: seq<Plan>): Rollback {
    if !b.pending then b
    else
      var (d, r) := Restore(b.disk, plans);
      Rollback(d, !r.Restored?)
  }

  function Attempts(b: Rollback, plans: seq<Plan>, n: nat): Rollback {
    if n == 0 then b else Attempt(Attempts(b, plans, n - 1), plans)
  }

  /**
   * However often it is called and however its operations fail, a rollback leaves every file as before or as planned;
   * once it has succeeded every file is exactly as before the commit, absence included, and no call changes anything.
   */
  lemma {:induction false} RollbackExact(d: Disk, files: map<Path, Str>, plans: seq<Plan>, n: nat)
    requires Quiet(d) && DistinctPaths(plans) && AllBefore(files, plans) && CarriedOut(d.files, files, plans)
    ensures var b := Attempts(Rollback(d, true), plans, n);
            && Quiet(b.disk) && Halfway(b.disk.files, plans) && SameElsewhere(b.disk.files, files, plans)
            && (!b.pending ==> b.disk.files == files && Attempt(b, plans) == b)
  {
    hide Quiet, Restore;
    if n > 0 {
      RollbackExact(d, files, plans, n - 1);
      var b := Attempts(Rollback(d, true), plans, n - 1);
      if b.pending {
        RestoreQuiet(b.disk, plans);
        var (e, r) := Restore(b.disk, plans);
        if r.Restored? { BeforeEverywhere(e.files, files, plans); }
      }
    }
  }

  // ---------------------------------------------------------------- the object

  class FileSystem {
    var disk: Disk

    constructor (disk: Disk)
      ensures this.disk == disk
    {
      this.disk := disk;
    }

    method ReadFile(p: Path) returns (c: Option<Option<Str>>)
      modifies this
      ensures (disk, c) == Read(old(disk), p)
    {
      var r := Read(disk, p);
      disk := r.0;
      c := r.1;
    }

    method Replace(p: Path, content: Option<Str>) returns (ok: bool)
      modifies this
      ensures (disk, ok) == Store(old(disk), p, content)
    {
      var r := Store(disk, p, content);
      disk := r.0;
      ok := r.1;
    }
  }

  class DesktopConfig {
    const filesystem: FileSystem

    constructor (filesystem: FileSystem)
      ensures this.filesystem == filesystem
    {
      this.filesystem := filesystem;
    }

    method RestorePlans(plans: seq<Plan>) returns (r: RestoreResult)
      modifies filesystem
      ensures (filesystem.disk, r) == Restore(old(filesystem.disk), plans)
    {
      hide Read, Store;
      var states: seq<Option<Str>>, failed, i := [], false, 0;
      while i < |plans|
        invariant i <= |plans|
        invariant ReadAll(old(filesystem.disk), plans[..i]) == (filesystem.disk, if failed then None else Some(states))
        invariant !failed ==> |states| == i
      {
        assert plans[..i + 1][..i] == plans[..i];
        var c := filesystem.ReadFile(plans[i].path);
        if c.None? || failed { failed := true; } else { states := states + [c.value]; }
        i := i + 1;
      }
      assert plans[..i] == plans;
      if failed { return Threw; }
      if !Recognized(plans, states) { return Refused; }
      ghost var start := filesystem.disk;
      assert states[..i] == states;
      while i > 0
        invariant i <= |plans| == |states|
        invariant Undo(start, plans, states) == Undo(filesystem.disk, plans[..i], states[..i])
      {
        i := i - 1;
        assert plans[..i + 1][..i] == plans[..i] && states[..i + 1][..i] == states[..i];
        if states[i] != plans[i].before {
          var ok := filesystem.Replace(plans[i].path, plans[i].before);
          if !ok { return Threw; }
        }
      }
      return Restored;
    }

    method CommitPlans(plans: seq<Plan>) returns (r: CommitResult)
      modifies filesystem
      ensures (filesystem.disk, r) == Commit(old(filesystem.disk), plans)
    {
      hide Read, Store, Restore;
      var changedPlans := Changed(plans);
      if changedPlans == [] { return NoChange; }
      var attempted: seq<Plan>, failed, i := [], false, 0;
      while i < |changedPlans| && !failed
        invariant i <= |changedPlans|
        invariant !failed ==> attempted == changedPlans[..i]
        invariant Apply(old(filesystem.disk), changedPlans, 0)
                  == if failed then Applied(filesystem.disk, attempted, false) else Apply(filesystem.disk, changedPlans, i)
        decreases |changedPlans| - i, !failed
      {
        var plan := changedPlans[i];
        var current := filesystem.ReadFile(plan.path);
        if current != Some(plan.before) {
          failed := true;
        } else {
          attempted := attempted + [plan];
          assert attempted == changedPlans[..i + 1];
          var ok := filesystem.Replace(plan.path, plan.after);
          if ok { i := i + 1; } else { failed := true; }
        }
      }
      if !failed { return Committed; }
      var restored := RestorePlans(attempted);
      return Failed(restored.Restored?);
    }
  }

  /** The closure that a commit returns. */
  class PendingRollback {
    const config: DesktopConfig
    const plans: seq<Plan>
    var rollbackPending: bool

    constructor (config: DesktopConfig, plans: seq<Plan>)
      ensures this.config == config && this.plans == plans && rollbackPending
    {
      this.config, this.plans, rollbackPending := config, plans, true;
    }

    method Apply() returns (ok: bool)
      modifies this`rollbackPending, config.filesystem
      ensures Rollback(config.filesystem.disk, rollbackPending)
           == Attempt(old(Rollback(config.filesystem.disk, rollbackPending)), plans)
      ensures ok <==> !rollbackPending
    {
      hide Restore;
      if !rollbackPending { return true; }
      var restored := config.RestorePlans(plans);
      if !restored.Restored? { return false; }
      rollbackPending := false;
      return true;
    }
  }
}
