/**
 * What others may lose to a commit, to its recovery and to its rollbacks: which calls these make, which check each of their
 * writes relies on, and when a write therefore overwrites a content that nobody saw.
 */
module DesktopRaces {
  import opened Units
  import opened Files
  import opened DesktopCommit

  // ---------------------------------------------------------------- calls, in order

  datatype Access = Reading(path: Path) | Writing(path: Path, content: Option<Str>)

  function Call(d: Disk, x: Access): Disk {
    match x
    case Reading(p) => Read(d, p).0
    case Writing(p, c) => Store(d, p, c).0
  }

  /** The disk after the calls. */
  function Perform(d: Disk, xs: seq<Access>): Disk {
    if xs == [] then d else Call(Perform(d, xs[..|xs| - 1]), xs[|xs| - 1])
  }

  /** What call `i` finds in its file, before it writes. */
  function FoundAt(d: Disk, xs: seq<Access>, i: nat): Option<Str>
    requires i < |xs|
  {
    Content(Arrive(Perform(d, xs[..i])).files, xs[i].path)
  }

  /** What happens at call `i`. */
  function MomentAt(d: Disk, i: nat): Moment {
    if i < |d.script| then d.script[i] else Moment(map[], true, Done)
  }

  /** What others last put in a file just before any of the calls from `lo` up to, not including, `hi`; None if nothing. */
  function LastPut(d: Disk, p: Path, lo: nat, hi: nat): Option<Option<Str>> {
    if hi <= lo then None
    else if p in MomentAt(d, hi - 1).foreign then Some(MomentAt(d, hi - 1).foreign[p])
    else LastPut(d, p, lo, hi - 1)
  }

  function Or(put: Option<Option<Str>>, otherwise: Option<Str>): Option<Str> {
    if put.Some? then put.value else otherwise
  }

  // ---------------------------------------------------------------- a file under calls

  function Dropped(script: seq<Moment>, n: nat): seq<Moment> {
    if n <= |script| then script[n..] else []
  }

  /** Every call takes one moment of the script. */
  lemma ArriveDrops(d: Disk, t: Disk, n: nat)
    requires t.script == Dropped(d.script, n)
    ensures Arrive(t).script == Dropped(d.script, n + 1)
    ensures Head(t) == MomentAt(d, n)
  {
    hide Overlay;
  }

  lemma CallArrives(d: Disk, x: Access)
    ensures Call(d, x).script == Arrive(d).script
    ensures x.Reading? ==> Call(d, x) == Arrive(d)
    ensures x.Writing? ==>
              Call(d, x).files == if Head(d).write.NotWritten? then Arrive(d).files else SetContent(Arrive(d).files, x.path, x.content)
  {
    hide Overlay, SetContent;
  }

  lemma ArriveAt(d: Disk, p: Path)
    ensures Content(Arrive(d).files, p) == if p in Head(d).foreign then Head(d).foreign[p] else Content(d.files, p)
  {}

  lemma PerformSnoc(d: Disk, xs: seq<Access>, x: Access)
    ensures Perform(d, xs + [x]) == Call(Perform(d, xs), x)
  {
    hide Call;
    assert (xs + [x])[..|xs|] == xs;
  }

  lemma {:induction false} PerformJoin(d: Disk, a: seq<Access>, b: seq<Access>)
    ensures Perform(d, a + b) == Perform(Perform(d, a), b)
  {
    hide Call;
    if b == [] {
      assert a + b == a;
    } else {
      var n := |b| - 1;
      PerformJoin(d, a, b[..n]);
      assert a + b == (a + b[..n]) + [b[n]];
      PerformSnoc(d, a + b[..n], b[n]);
    }
  }

  lemma {:induction false} PerformScript(d: Disk, xs: seq<Access>)
    ensures Perform(d, xs).script == Dropped(d.script, |xs|)
  {
    hide Call, Arrive;
    if xs != [] {
      var n := |xs| - 1;
      PerformScript(d, xs[..n]);
      ArriveDrops(d, Perform(d, xs[..n]), n);
      CallArrives(Perform(d, xs[..n]), xs[n]);
    }
  }

  predicate Writes(x: Access, p: Path) { x.Writing? && x.path == p }

  /** Whether call `i` puts its content in file `p`. */
  predicate Replaces(d: Disk, xs: seq<Access>, i: nat, p: Path)
    requires i < |xs|
  {
    Writes(xs[i], p) && !MomentAt(d, i).write.NotWritten?
  }

  /** What one call does to a file. */
  lemma OneCall(d: Disk, xs: seq<Access>, i: nat, p: Path)
    requires i < |xs|
    ensures var was := Content(Perform(d, xs[..i]).files, p);
            var found := if p in MomentAt(d, i).foreign then MomentAt(d, i).foreign[p] else was;
            && Content(Arrive(Perform(d, xs[..i])).files, p) == found
            && Content(Perform(d, xs[..i + 1]).files, p) == if Replaces(d, xs, i, p) then xs[i].content else found
  {
    hide Call, Arrive, Head, SetContent, Content, MomentAt, Perform;
    var t := Perform(d, xs[..i]);
    assert xs[..i + 1] == xs[..i] + [xs[i]];
    PerformSnoc(d, xs[..i], xs[i]);
    PerformScript(d, xs[..i]);
    ArriveDrops(d, t, i);
    CallArrives(t, xs[i]);
    ArriveAt(t, p);
    if xs[i].Writing? { SetContentAt(Arrive(t).files, xs[i].path, xs[i].content); }
  }

  /** Without a write of its own a file holds what others last put there, or what it held. */
  lemma {:induction false} Untouched(d: Disk, xs: seq<Access>, lo: nat, hi: nat, p: Path)
    requires lo <= hi <= |xs| && forall i :: lo <= i < hi ==> !Replaces(d, xs, i, p)
    ensures Content(Perform(d, xs[..hi]).files, p) == Or(LastPut(d, p, lo, hi), Content(Perform(d, xs[..lo]).files, p))
    decreases hi
  {
    hide Perform, Content, Replaces, MomentAt;
    if lo < hi {
      Untouched(d, xs, lo, hi - 1, p);
      OneCall(d, xs, hi - 1, p);
    }
  }

  /** The last call that puts its content in the file. */
  function LastWrite(d: Disk, xs: seq<Access>, p: Path, n: nat): (w: Option<nat>)
    requires n <= |xs|
    ensures w.Some? ==> w.value < n && Replaces(d, xs, w.value, p) && forall i :: w.value < i < n ==> !Replaces(d, xs, i, p)
    ensures w.None? ==> forall i :: 0 <= i < n ==> !Replaces(d, xs, i, p)
  {
    if n == 0 then None else if Replaces(d, xs, n - 1, p) then Some(n - 1) else LastWrite(d, xs, p, n - 1)
  }

  /**
   * In the end a file holds what others last put there after the last write that took effect, or what that wrote; without
   * such a write, what others last put there at all.
   */
  lemma Outcome(d: Disk, xs: seq<Access>, p: Path)
    ensures var w := LastWrite(d, xs, p, |xs|);
            Content(Perform(d, xs).files, p)
            == if w.None? then Or(LastPut(d, p, 0, |xs|), Content(d.files, p))
               else Or(LastPut(d, p, w.value + 1, |xs|), xs[w.value].content)
  {
    hide Perform, Content, Replaces, MomentAt, LastPut;
    var w := LastWrite(d, xs, p, |xs|);
    assert xs[..|xs|] == xs;
    if w.None? {
      Untouched(d, xs, 0, |xs|, p);
      assert xs[..0] == [];
      PerformNothing(d);
    } else {
      Untouched(d, xs, w.value + 1, |xs|, p);
      OneCall(d, xs, w.value, p);
    }
  }

  lemma {:induction false} PutAt(d: Disk, p: Path, lo: nat, c: nat, hi: nat)
    requires c < hi && p in MomentAt(d, c).foreign && forall i :: c < i < hi ==> p !in MomentAt(d, i).foreign
    ensures LastPut(d, p, lo, hi) == if lo <= c then Some(MomentAt(d, c).foreign[p]) else None
    decreases hi
  {
    hide MomentAt;
    if c < hi - 1 {
      if lo < hi { PutAt(d, p, lo, c, hi - 1); }
    }
  }

  /** The last content others put in a file, at call `c`, is there at the end unless a write from that call on took effect. */
  lemma LastForeign(d: Disk, xs: seq<Access>, p: Path, c: nat)
    requires c < |xs| && p in MomentAt(d, c).foreign && forall i :: c < i < |xs| ==> p !in MomentAt(d, i).foreign
    ensures var w := LastWrite(d, xs, p, |xs|);
            Content(Perform(d, xs).files, p)
            == if w.Some? && w.value >= c then xs[w.value].content else MomentAt(d, c).foreign[p]
  {
    hide Perform, Content, MomentAt, LastPut, Replaces;
    Outcome(d, xs, p);
    var w := LastWrite(d, xs, p, |xs|);
    PutAt(d, p, 0, c, |xs|);
    if w.Some? { PutAt(d, p, w.value + 1, c, |xs|); }
  }

  lemma PerformNothing(d: Disk)
    ensures Perform(d, []) == d
  {}

  // ---------------------------------------------------------------- writes and their checks

  /** The last call before `n` that reads the file. */
  function LastRead(xs: seq<Access>, p: Path, n: nat): (r: Option<nat>)
    requires n <= |xs|
    ensures r.Some? ==> r.value < n && xs[r.value] == Reading(p)
  {
    if n == 0 then None else if xs[n - 1] == Reading(p) then Some(n - 1) else LastRead(xs, p, n - 1)
  }

  /** The write puts the planned content over the previous one, or that over the planned one. */
  predicate Sanctioned(plans: seq<Plan>, p: Path, seen: Option<Str>, content: Option<Str>) {
    exists plan <- plans ::
      plan.path == p && ((seen == plan.before && content == plan.after) || (seen == plan.after && content == plan.before))
  }

  /**
   * Call `w` writes its file by what the last read of it, which succeeded, has seen, and it is the first write since. What
   * it finds is something else if and only if others put that there after that read and before the write.
   */
  ghost predicate Checked(d: Disk, plans: seq<Plan>, xs: seq<Access>, w: nat)
    requires w < |xs|
  {
    var r := LastRead(xs, xs[w].path, w);
    && r.Some? && MomentAt(d, r.value).readOk
    && (forall i :: r.value < i < w ==> !Writes(xs[i], xs[w].path))
    && xs[w].Writing? && Sanctioned(plans, xs[w].path, FoundAt(d, xs, r.value), xs[w].content)
    && (FoundAt(d, xs, w) != FoundAt(d, xs, r.value) <==>
          var put := LastPut(d, xs[w].path, r.value + 1, w + 1); put.Some? && put.value != FoundAt(d, xs, r.value))
  }

  lemma CheckedBy(d: Disk, plans: seq<Plan>, xs: seq<Access>, r: nat, w: nat)
    requires r < w < |xs| && xs[w].Writing? && LastRead(xs, xs[w].path, w) == Some(r)
    requires MomentAt(d, r).readOk && forall i :: r < i < w ==> !Writes(xs[i], xs[w].path)
    requires Sanctioned(plans, xs[w].path, FoundAt(d, xs, r), xs[w].content)
    ensures Checked(d, plans, xs, w)
  {
    hide Perform, Content, MomentAt, Sanctioned, LastRead, Arrive;
    var p := xs[w].path;
    OneCall(d, xs, r, p);
    OneCall(d, xs, w, p);
    Untouched(d, xs, r + 1, w, p);
    PutSnoc(d, p, r + 1, w);
  }

  lemma PutSnoc(d: Disk, p: Path, lo: nat, hi: nat)
    requires lo <= hi
    ensures LastPut(d, p, lo, hi + 1)
         == if p in MomentAt(d, hi).foreign then Some(MomentAt(d, hi).foreign[p]) else LastPut(d, p, lo, hi)
  {}

  // ---------------------------------------------------------------- the calls of a restore

  function ReadCalls(plans: seq<Plan>): seq<Access> { seq(|plans|, i requires 0 <= i < |plans| => Reading(plans[i].path)) }

  /** The writes of Undo. */
  function UndoCalls(d: Disk, plans: seq<Plan>, current: seq<Option<Str>>): seq<Access>
    requires |current| == |plans|
    decreases |plans|
  {
    if plans == [] then []
    else
      var n := |plans| - 1;
      if current[n] == plans[n].before then UndoCalls(d, plans[..n], current[..n])
      else
        var (a, ok) := Store(d, plans[n].path, plans[n].before);
        [Writing(plans[n].path, plans[n].before)] + if ok then UndoCalls(a, plans[..n], current[..n]) else []
  }

  function RestoreCalls(d: Disk, plans: seq<Plan>): seq<Access> {
    var (a, current) := ReadAll(d, plans);
    ReadCalls(plans)
    + if current.None? || !Recognized(plans, current.value) then [] else UndoCalls(a, plans, current.value)
  }

  lemma {:induction false} ReadsPerform(d: Disk, plans: seq<Plan>)
    ensures Perform(d, ReadCalls(plans)) == ReadAll(d, plans).0
  {
    hide Call, Read;
    if plans != [] {
      var n := |plans| - 1;
      ReadsPerform(d, plans[..n]);
      assert ReadCalls(plans) == ReadCalls(plans[..n]) + [Reading(plans[n].path)];
      PerformSnoc(d, ReadCalls(plans[..n]), Reading(plans[n].path));
      CallRead(ReadAll(d, plans[..n]).0, plans[n].path);
    }
  }

  lemma CallRead(d: Disk, p: Path)
    ensures Call(d, Reading(p)) == Read(d, p).0
  {}

  lemma CallStore(d: Disk, p: Path, c: Option<Str>)
    ensures Call(d, Writing(p, c)) == Store(d, p, c).0
  {}

  lemma PerformOne(d: Disk, x: Access)
    ensures Perform(d, [x]) == Call(d, x)
  {
    hide Call;
    assert [] + [x] == [x];
    PerformSnoc(d, [], x);
  }

  lemma {:induction false} UndoPerform(d: Disk, plans: seq<Plan>, current: seq<Option<Str>>)
    requires |current| == |plans|
    ensures Perform(d, UndoCalls(d, plans, current)) == Undo(d, plans, current).0
    decreases |plans|
  {
    hide Call, Store, Perform;
    if plans == [] {
      PerformNothing(d);
    } else {
      var n := |plans| - 1;
      if current[n] == plans[n].before {
        UndoPerform(d, plans[..n], current[..n]);
      } else {
        var x := Writing(plans[n].path, plans[n].before);
        var (a, ok) := Store(d, plans[n].path, plans[n].before);
        PerformOne(d, x);
        CallStore(d, plans[n].path, plans[n].before);
        if ok {
          UndoPerform(a, plans[..n], current[..n]);
          PerformJoin(d, [x], UndoCalls(a, plans[..n], current[..n]));
        } else {
          assert [x] + [] == [x];
        }
      }
    }
  }

  lemma RestorePerform(d: Disk, plans: seq<Plan>)
    ensures Perform(d, RestoreCalls(d, plans)) == Restore(d, plans).0
  {
    hide Perform, Undo, ReadAll;
    ReadsPerform(d, plans);
    var (a, current) := ReadAll(d, plans);
    if current.Some? && Recognized(plans, current.value) {
      UndoPerform(a, plans, current.value);
      PerformJoin(d, ReadCalls(plans), UndoCalls(a, plans, current.value));
    } else {
      assert ReadCalls(plans) + [] == ReadCalls(plans);
    }
  }

  /** The write puts back plan `i`, which is not as before. */
  predicate PutsBack(plans: seq<Plan>, current: seq<Option<Str>>, x: Access, i: nat)
    requires |current| == |plans|
  {
    i < |plans| && x == Writing(plans[i].path, plans[i].before) && current[i] != plans[i].before
  }

  ghost predicate PutsOneBack(plans: seq<Plan>, current: seq<Option<Str>>, x: Access)
    requires |current| == |plans|
  {
    exists i: nat :: PutsBack(plans, current, x, i)
  }

  lemma OneMore(plans: seq<Plan>, current: seq<Option<Str>>, n: nat, x: Access)
    requires n <= |plans| == |current| && PutsOneBack(plans[..n], current[..n], x)
    ensures PutsOneBack(plans, current, x)
    ensures DistinctPaths(plans) ==> forall i :: n <= i < |plans| ==> plans[i].path != x.path
  {
    var i: nat :| PutsBack(plans[..n], current[..n], x, i);
    assert PutsBack(plans, current, x, i);
    assert plans[..n][i] == plans[i];
  }

  predicate Apart(xs: seq<Access>) {
    forall v, w :: 0 <= v < w < |xs| ==> xs[v].path != xs[w].path
  }

  /** Every write puts back a plan that is not as before, and no file is written twice. */
  lemma {:induction false} UndoShape(d: Disk, plans: seq<Plan>, current: seq<Option<Str>>)
    requires |current| == |plans| && DistinctPaths(plans)
    ensures var xs := UndoCalls(d, plans, current);
            (forall x <- xs :: PutsOneBack(plans, current, x)) && Apart(xs)
    decreases |plans|
  {
    hide Store;
    if plans != [] {
      var n := |plans| - 1;
      var init, kept := plans[..n], current[..n];
      var put := current[n] != plans[n].before;
      var (a, ok) := if put then Store(d, plans[n].path, plans[n].before) else (d, true);
      var x := Writing(plans[n].path, plans[n].before);
      var deeper := UndoCalls(a, init, kept);
      UndoShape(a, init, kept);
      forall y | y in deeper ensures PutsOneBack(plans, current, y) && y.path != plans[n].path {
        OneMore(plans, current, n, y);
      }
      if put {
        PutsLast(plans, current);
        var xs := UndoCalls(d, plans, current);
        assert xs == [x] + if ok then deeper else [];
        forall v, w | 0 <= v < w < |xs| ensures xs[v].path != xs[w].path {
          assert xs[w] == deeper[w - 1] && deeper[w - 1] in deeper;
          if v == 0 { assert xs[v] == x; } else { assert xs[v] == deeper[v - 1] && deeper[v - 1].path != deeper[w - 1].path; }
        }
      }
    }
  }

  lemma PutsLast(plans: seq<Plan>, current: seq<Option<Str>>)
    requires plans != [] && |current| == |plans| && current[|plans| - 1] != plans[|plans| - 1].before
    ensures PutsOneBack(plans, current, Writing(plans[|plans| - 1].path, plans[|plans| - 1].before))
  {
    var n := |plans| - 1;
    assert PutsBack(plans, current, Writing(plans[n].path, plans[n].before), n);
  }

  /** The last read of a file, when only the calls up to `r` read it. */
  lemma {:induction false} LastReadIs(xs: seq<Access>, p: Path, r: nat, n: nat)
    requires r < n <= |xs| && xs[r] == Reading(p) && forall i :: r < i < n ==> xs[i] != Reading(p)
    ensures LastRead(xs, p, n) == Some(r)
  {
    if n > r + 1 { LastReadIs(xs, p, r, n - 1); }
  }

  ghost predicate AllChecked(d: Disk, plans: seq<Plan>, xs: seq<Access>) {
    forall w :: 0 <= w < |xs| && xs[w].Writing? ==> Checked(d, plans, xs, w)
  }

  /** What a read that succeeded has seen. */
  lemma {:induction false} ReadSaw(d: Disk, plans: seq<Plan>, i: nat)
    requires i < |plans| && ReadAll(d, plans).1.Some?
    ensures MomentAt(d, i).readOk && ReadAll(d, plans).1.value[i] == FoundAt(d, ReadCalls(plans), i)
  {
    hide Call, Arrive, MomentAt, Perform, Head;
    var n := |plans| - 1;
    var xs := ReadCalls(plans);
    assert xs == ReadCalls(plans[..n]) + [Reading(plans[n].path)];
    if i < n {
      ReadSaw(d, plans[..n], i);
      assert xs[..i] == ReadCalls(plans[..n])[..i];
    } else {
      assert xs[..n] == ReadCalls(plans[..n]);
      ReadsPerform(d, plans[..n]);
      PerformScript(d, xs[..n]);
      ArriveDrops(d, Perform(d, xs[..n]), n);
    }
  }

  lemma FoundSame(d: Disk, a: seq<Access>, b: seq<Access>, i: nat)
    requires i < |a|
    ensures FoundAt(d, a + b, i) == FoundAt(d, a, i)
  {
    assert (a + b)[..i] == a[..i];
  }

  lemma RestoreChecked(d: Disk, plans: seq<Plan>)
    requires DistinctPaths(plans)
    ensures AllChecked(d, plans, RestoreCalls(d, plans))
  {
    hide Perform, ReadAll, Undo, UndoCalls, LastRead, Checked, FoundAt, MomentAt, ReadCalls, Sanctioned;
    var (a, c) := ReadAll(d, plans);
    var xs, looks, n := RestoreCalls(d, plans), ReadCalls(plans), |plans|;
    ReadCallsAre(plans);
    if c.Some? && Recognized(plans, c.value) {
      var current := c.value;
      var undo := UndoCalls(a, plans, current);
      UndoShape(a, plans, current);
      assert xs == looks + undo;
      forall w | 0 <= w < |xs| && xs[w].Writing? ensures Checked(d, plans, xs, w) {
        assert xs[w] == undo[w - n] && PutsOneBack(plans, current, undo[w - n]);
        var i: nat :| PutsBack(plans, current, undo[w - n], i);
        ReadSaw(d, plans, i);
        FoundSame(d, looks, undo, i);
        forall j | i < j < w ensures xs[j] != Reading(xs[w].path) && !Writes(xs[j], xs[w].path) {
          if j >= n { assert xs[j] == undo[j - n] && PutsOneBack(plans, current, undo[j - n]); }
        }
        LastReadIs(xs, xs[w].path, i, w);
        SanctionedBack(plans, i);
        CheckedBy(d, plans, xs, i, w);
      }
    } else {
      assert xs == looks;
    }
  }

  lemma ReadCallsAre(plans: seq<Plan>)
    ensures |ReadCalls(plans)| == |plans| && forall i :: 0 <= i < |plans| ==> ReadCalls(plans)[i] == Reading(plans[i].path)
  {}

  lemma SanctionedBack(plans: seq<Plan>, i: nat)
    requires i < |plans|
    ensures Sanctioned(plans, plans[i].path, plans[i].after, plans[i].before)
    ensures Sanctioned(plans, plans[i].path, plans[i].before, plans[i].after)
  {
    assert plans[i] in plans;
  }

  /** How many plans from `i` on are not as before. */
  function Differing(plans: seq<Plan>, current: seq<Option<Str>>, i: nat): nat
    requires |current| == |plans|
    decreases |plans|
  {
    if |plans| <= i then 0
    else
      var n := |plans| - 1;
      Differing(plans[..n], current[..n], i) + if current[n] != plans[n].before then 1 else 0
  }

  /** The write of a plan comes after those of the later plans that are not as before. */
  lemma {:induction false} UndoPosition(d: Disk, plans: seq<Plan>, current: seq<Option<Str>>, i: nat)
    requires |current| == |plans| && i < |plans| && current[i] != plans[i].before
    ensures var k, xs := Differing(plans, current, i + 1), UndoCalls(d, plans, current);
            k < |xs| ==> xs[k] == Writing(plans[i].path, plans[i].before)
    decreases |plans|
  {
    hide Store;
    var n := |plans| - 1;
    if i < n {
      UndoPosition(d, plans[..n], current[..n], i);
      if current[n] != plans[n].before {
        var (a, ok) := Store(d, plans[n].path, plans[n].before);
        UndoPosition(a, plans[..n], current[..n], i);
      }
    }
  }

  /**
   * A restore reads plan `i` at call `i`; if it gets so far, it puts the plan back at call `w`, after the reads and the
   * writes of the later plans that are not as before. That write finds something else than the read has seen if and only
   * if others put that there after call `i` and before the write.
   */
  lemma RestoreChecks(d: Disk, plans: seq<Plan>, i: nat)
    requires DistinctPaths(plans) && i < |plans|
    requires var c := ReadAll(d, plans).1; c.Some? && Recognized(plans, c.value) && c.value[i] != plans[i].before
    ensures var seen, xs := ReadAll(d, plans).1.value[i], RestoreCalls(d, plans);
            var w := |plans| + Differing(plans, ReadAll(d, plans).1.value, i + 1);
            w < |xs| ==>
              && xs[i] == Reading(plans[i].path) && FoundAt(d, xs, i) == seen
              && xs[w] == Writing(plans[i].path, plans[i].before)
              && (FoundAt(d, xs, w) != seen <==>
                    var put := LastPut(d, plans[i].path, i + 1, w + 1); put.Some? && put.value != seen)
  {
    hide Perform, ReadAll, UndoCalls, LastRead, FoundAt, MomentAt, ReadCalls, Sanctioned, Differing;
    var (a, c) := ReadAll(d, plans);
    var xs, looks, undo := RestoreCalls(d, plans), ReadCalls(plans), UndoCalls(a, plans, c.value);
    var w := |plans| + Differing(plans, c.value, i + 1);
    ReadCallsAre(plans);
    ReadSaw(d, plans, i);
    FoundSame(d, looks, undo, i);
    UndoPosition(a, plans, c.value, i);
    UndoShape(a, plans, c.value);
    if w < |xs| {
      RestoreChecked(d, plans);
      assert xs[w] == undo[w - |plans|];
      forall j | i < j < w ensures xs[j] != Reading(xs[w].path) {
        if j >= |plans| { assert xs[j] == undo[j - |plans|] && PutsOneBack(plans, c.value, undo[j - |plans|]); }
      }
      LastReadIs(xs, xs[w].path, i, w);
    }
  }

  // ---------------------------------------------------------------- the calls of a commit

  /** The loop of commitPlans over the plans from `i` on. */
  function ApplyCalls(d: Disk, plans: seq<Plan>, i: nat): seq<Access>
    requires i <= |plans|
    decreases |plans| - i
  {
    if i == |plans| then []
    else
      var (a, current) := Read(d, plans[i].path);
      if current != Some(plans[i].before) then [Reading(plans[i].path)]
      else
        var (b, ok) := Store(a, plans[i].path, plans[i].after);
        [Reading(plans[i].path), Writing(plans[i].path, plans[i].after)] + if ok then ApplyCalls(b, plans, i + 1) else []
  }

  /** A commit, and its recovery when it fails. */
  function CommitCalls(d: Disk, plans: seq<Plan>): seq<Access> {
    var changed := Changed(plans);
    if changed == [] then []
    else
      var a := Apply(d, changed, 0);
      ApplyCalls(d, changed, 0) + if a.ok then [] else RestoreCalls(a.disk, a.attempted)
  }

  lemma PerformTwo(d: Disk, x: Access, y: Access)
    ensures Perform(d, [x, y]) == Call(Call(d, x), y)
  {
    hide Call;
    assert [x] + [y] == [x, y];
    PerformOne(d, x);
    PerformSnoc(d, [x], y);
  }

  lemma {:induction false} ApplyPerform(d: Disk, plans: seq<Plan>, i: nat)
    requires i <= |plans|
    ensures Perform(d, ApplyCalls(d, plans, i)) == Apply(d, plans, i).disk
    decreases |plans| - i
  {
    hide Call, Read, Store, Perform;
    if i == |plans| {
      PerformNothing(d);
    } else {
      var p := plans[i];
      var x, y := Reading(p.path), Writing(p.path, p.after);
      var (a, current) := Read(d, p.path);
      PerformOne(d, x);
      PerformTwo(d, x, y);
      CallRead(d, p.path);
      CallStore(a, p.path, p.after);
      if current == Some(p.before) {
        var (b, ok) := Store(a, p.path, p.after);
        if ok {
          ApplyPerform(b, plans, i + 1);
          PerformJoin(d, [x, y], ApplyCalls(b, plans, i + 1));
        } else {
          assert [x, y] + [] == [x, y];
        }
      }
    }
  }

  // ---------------------------------------------------------------- checks compose

  lemma FoundLater(d: Disk, a: seq<Access>, b: seq<Access>, i: nat)
    requires i < |b|
    ensures FoundAt(d, a + b, |a| + i) == FoundAt(Perform(d, a), b, i)
  {
    hide Perform, Arrive;
    assert (a + b)[..|a| + i] == a + b[..i];
    PerformJoin(d, a, b[..i]);
  }

  lemma MomentLater(d: Disk, t: Disk, n: nat, i: nat)
    requires t.script == Dropped(d.script, n)
    ensures MomentAt(t, i) == MomentAt(d, n + i)
  {}

  lemma {:induction false} PutLater(d: Disk, t: Disk, n: nat, p: Path, lo: nat, hi: nat)
    requires t.script == Dropped(d.script, n)
    ensures LastPut(t, p, lo, hi) == LastPut(d, p, n + lo, n + hi)
    decreases hi
  {
    hide MomentAt;
    if lo < hi {
      MomentLater(d, t, n, hi - 1);
      PutLater(d, t, n, p, lo, hi - 1);
    }
  }

  lemma {:induction false} ReadLater(a: seq<Access>, b: seq<Access>, p: Path, n: nat)
    requires n <= |b| && LastRead(b, p, n).Some?
    ensures LastRead(a + b, p, |a| + n) == Some(|a| + LastRead(b, p, n).value)
  {
    if b[n - 1] != Reading(p) { ReadLater(a, b, p, n - 1); }
  }

  lemma {:induction false} ReadEarlier(a: seq<Access>, b: seq<Access>, p: Path, n: nat)
    requires n <= |a|
    ensures LastRead(a + b, p, n) == LastRead(a, p, n)
  {
    if n > 0 { ReadEarlier(a, b, p, n - 1); }
  }

  /** Calls whose writes are checked, one after the other. */
  lemma CheckedJoin(d: Disk, plans: seq<Plan>, a: seq<Access>, b: seq<Access>)
    requires AllChecked(d, plans, a) && AllChecked(Perform(d, a), plans, b)
    ensures AllChecked(d, plans, a + b)
  {
    hide Perform, FoundAt, MomentAt, LastRead, LastPut, Sanctioned, Checked;
    var xs, t := a + b, Perform(d, a);
    PerformScript(d, a);
    forall w | 0 <= w < |xs| && xs[w].Writing? ensures Checked(d, plans, xs, w) {
      if w < |a| { CheckedEarlier(d, plans, a, b, w); } else { CheckedLater(d, plans, a, b, w - |a|); }
    }
  }

  lemma CheckedEarlier(d: Disk, plans: seq<Plan>, a: seq<Access>, b: seq<Access>, w: nat)
    requires w < |a| && Checked(d, plans, a, w)
    ensures Checked(d, plans, a + b, w)
  {
    hide Perform, FoundAt, MomentAt, LastRead, LastPut, Sanctioned;
    ReadEarlier(a, b, a[w].path, w);
    FoundSame(d, a, b, w);
    FoundSame(d, a, b, LastRead(a, a[w].path, w).value);
  }

  lemma CheckedLater(d: Disk, plans: seq<Plan>, a: seq<Access>, b: seq<Access>, w: nat)
    requires w < |b| && Checked(Perform(d, a), plans, b, w)
    ensures Checked(d, plans, a + b, |a| + w)
  {
    hide Perform, FoundAt, MomentAt, LastRead, LastPut, Sanctioned, Dropped;
    var p := b[w].path;
    var r := LastRead(b, p, w).value;
    PerformScript(d, a);
    ReadLater(a, b, p, w);
    FoundLater(d, a, b, w);
    FoundLater(d, a, b, r);
    MomentLater(d, Perform(d, a), |a|, r);
    PutLater(d, Perform(d, a), |a|, p, r + 1, w + 1);
    assert forall i :: |a| + r < i < |a| + w ==> (a + b)[i] == b[i - |a|];
  }

  lemma SanctionedMore(plans: seq<Plan>, more: seq<Plan>, p: Path, seen: Option<Str>, content: Option<Str>)
    requires Sanctioned(plans, p, seen, content) && forall plan <- plans :: plan in more
    ensures Sanctioned(more, p, seen, content)
  {}

  lemma CheckedMore(d: Disk, plans: seq<Plan>, more: seq<Plan>, xs: seq<Access>)
    requires AllChecked(d, plans, xs) && forall plan <- plans :: plan in more
    ensures AllChecked(d, more, xs)
  {
    hide Perform, FoundAt, MomentAt, LastRead, LastPut, Sanctioned;
    forall w | 0 <= w < |xs| && xs[w].Writing? ensures Checked(d, more, xs, w) {
      assert Checked(d, plans, xs, w);
      SanctionedMore(plans, more, xs[w].path, FoundAt(d, xs, LastRead(xs, xs[w].path, w).value), xs[w].content);
    }
  }

  // ---------------------------------------------------------------- commits and rollbacks

  /** A read followed by the write it allows. */
  lemma PairChecked(d: Disk, plans: seq<Plan>, i: nat)
    requires i < |plans| && Read(d, plans[i].path).1 == Some(plans[i].before)
    ensures AllChecked(d, plans, [Reading(plans[i].path), Writing(plans[i].path, plans[i].after)])
  {
    hide Sanctioned, Checked, Arrive;
    var p := plans[i].path;
    var xs := [Reading(p), Writing(p, plans[i].after)];
    assert xs[..0] == [];
    SanctionedBack(plans, i);
    LastReadIs(xs, p, 0, 1);
    CheckedBy(d, plans, xs, 0, 1);
  }

  lemma NoWrites(d: Disk, plans: seq<Plan>, xs: seq<Access>)
    requires forall i :: 0 <= i < |xs| ==> xs[i].Reading?
    ensures AllChecked(d, plans, xs)
  {}

  lemma {:induction false} ApplyChecked(d: Disk, plans: seq<Plan>, i: nat)
    requires i <= |plans|
    ensures AllChecked(d, plans, ApplyCalls(d, plans, i))
    decreases |plans| - i
  {
    hide Call, Read, Store, Perform, AllChecked;
    if i == |plans| {
      NoWrites(d, plans, []);
    } else {
      var p := plans[i];
      var pair := [Reading(p.path), Writing(p.path, p.after)];
      var (a, current) := Read(d, p.path);
      NoWrites(d, plans, [Reading(p.path)]);
      if current == Some(p.before) {
        PairChecked(d, plans, i);
        var (b, ok) := Store(a, p.path, p.after);
        if ok {
          PerformTwo(d, pair[0], pair[1]);
          CallRead(d, p.path);
          CallStore(a, p.path, p.after);
          ApplyChecked(b, plans, i + 1);
          CheckedJoin(d, plans, pair, ApplyCalls(b, plans, i + 1));
        } else {
          assert pair + [] == pair;
        }
      }
    }
  }

  lemma {:induction false} AttemptedPlans(d: Disk, plans: seq<Plan>, i: nat)
    requires i <= |plans|
    ensures Apply(d, plans, i).attempted <= plans
    decreases |plans| - i
  {
    hide Read, Store;
    if i < |plans| {
      var a := Read(d, plans[i].path).0;
      AttemptedPlans(Store(a, plans[i].path, plans[i].after).0, plans, i + 1);
    }
  }

  /**
   * The calls a commit makes, its recovery included, whatever others write and whatever fails. Every write of them is
   * checked: it puts the planned content over the previous one, or that over the planned one, as the last read of the file
   * has seen it. So it overwrites something else exactly when others put that there between that read and the write.
   */
  lemma CommitChecks(d: Disk, plans: seq<Plan>, w: nat)
    requires DistinctPaths(plans)
    ensures Perform(d, CommitCalls(d, plans)) == Commit(d, plans).0
    ensures w < |CommitCalls(d, plans)| && CommitCalls(d, plans)[w].Writing? ==> Checked(d, plans, CommitCalls(d, plans), w)
  {
    hide Perform, Apply, ApplyCalls, Changed, Restore, RestoreCalls, Checked;
    var changed := Changed(plans);
    ChangedFacts(plans);
    PerformNothing(d);
    if changed != [] {
      var a := Apply(d, changed, 0);
      var forth := ApplyCalls(d, changed, 0);
      ApplyPerform(d, changed, 0);
      ApplyChecked(d, changed, 0);
      AttemptedPlans(d, changed, 0);
      Prefix(changed, a.attempted);
      if a.ok {
        assert forth + [] == forth;
      } else {
        var back := RestoreCalls(a.disk, a.attempted);
        RestorePerform(a.disk, a.attempted);
        RestoreChecked(a.disk, a.attempted);
        PerformJoin(d, forth, back);
        assert forall plan <- a.attempted :: plan in changed;
        CheckedMore(a.disk, a.attempted, changed, back);
        CheckedJoin(d, changed, forth, back);
      }
      CheckedMore(d, changed, plans, CommitCalls(d, plans));
    }
  }

  /** The calls of the first `n` attempts of a rollback. */
  function AttemptsCalls(b: Rollback, plans: seq<Plan>, n: nat): seq<Access> {
    if n == 0 then []
    else
      var a := Attempts(b, plans, n - 1);
      AttemptsCalls(b, plans, n - 1) + if a.pending then RestoreCalls(a.disk, plans) else []
  }

  /** The same holds of every write of a rollback, however often it is attempted. */
  lemma {:induction false} RollbackChecks(b: Rollback, plans: seq<Plan>, n: nat)
    requires DistinctPaths(plans)
    ensures Perform(b.disk, AttemptsCalls(b, plans, n)) == Attempts(b, plans, n).disk
    ensures AllChecked(b.disk, plans, AttemptsCalls(b, plans, n))
  {
    hide Perform, Restore, RestoreCalls, Checked;
    PerformNothing(b.disk);
    if n > 0 {
      RollbackChecks(b, plans, n - 1);
      var a := Attempts(b, plans, n - 1);
      var xs := AttemptsCalls(b, plans, n - 1);
      if a.pending {
        RestorePerform(a.disk, plans);
        RestoreChecked(a.disk, plans);
        PerformJoin(b.disk, xs, RestoreCalls(a.disk, plans));
        CheckedJoin(b.disk, plans, xs, RestoreCalls(a.disk, plans));
      } else {
        assert xs + [] == xs;
      }
    }
  }

  // ---------------------------------------------------------------- a content that is lost

  const OLD: Str := [0x61]
  const NEW: Str := [0x62]
  const FOREIGN: Str := [0x78]
  const FINE: Moment := Moment(map[], true, Done)

  const LOSING_PLANS: seq<Plan> := [Plan(0, Some(OLD), Some(NEW)), Plan(1, Some(OLD), Some(NEW))]

  /** The second write fails; others write the first file just before the recovery puts it back. */
  const LOSING_SCRIPT: seq<Moment> :=
    [FINE, FINE, FINE, Moment(map[], true, NotWritten), FINE, FINE, Moment(map[0 := Some(FOREIGN)], true, Done)]

  function LosingDisk(i: nat): Disk
    requires i <= 7
  {
    Disk(map[0 := if 2 <= i < 7 then NEW else OLD, 1 := OLD], LOSING_SCRIPT[i..])
  }

  lemma OverlayNone(files: map<Path, Str>)
    ensures Overlay(files, map[]) == files
  {}

  lemma LosingArrives(i: nat)
    requires i < 7
    ensures Head(LosingDisk(i)) == LOSING_SCRIPT[i]
    ensures var a := Arrive(LosingDisk(i)); a.script == LosingDisk(i + 1).script && (i < 6 ==> a.files == LosingDisk(i).files)
  {
    OverlayNone(LosingDisk(i).files);
    assert LOSING_SCRIPT[i..][1..] == LOSING_SCRIPT[i + 1..];
  }

  lemma LosingApply()
    ensures Apply(LosingDisk(0), LOSING_PLANS, 0) == Applied(LosingDisk(4), LOSING_PLANS, false)
  {
    hide Arrive, Head;
    LosingArrives(0);
    LosingArrives(1);
    LosingArrives(2);
    LosingArrives(3);
    assert Read(LosingDisk(0), 0) == (LosingDisk(1), Some(Some(OLD)));
    assert SetContent(LosingDisk(1).files, 0, Some(NEW)) == LosingDisk(2).files;
    assert Store(LosingDisk(1), 0, Some(NEW)) == (LosingDisk(2), true);
    assert Read(LosingDisk(2), 1) == (LosingDisk(3), Some(Some(OLD)));
    assert Store(LosingDisk(3), 1, Some(NEW)) == (LosingDisk(4), false);
    assert LOSING_PLANS[..2] == LOSING_PLANS;
  }

  lemma LosingReads()
    ensures ReadAll(LosingDisk(4), LOSING_PLANS) == (LosingDisk(6), Some([Some(NEW), Some(OLD)]))
  {
    hide Arrive, Head;
    LosingArrives(4);
    LosingArrives(5);
    assert Read(LosingDisk(4), 0) == (LosingDisk(5), Some(Some(NEW)));
    assert Read(LosingDisk(5), 1) == (LosingDisk(6), Some(Some(OLD)));
    var init := LOSING_PLANS[..1];
    assert init[..0] == [];
    assert ReadAll(LosingDisk(4), []) == (LosingDisk(4), Some([]));
    assert [] + [Some(NEW)] == [Some(NEW)] && [Some(NEW)] + [Some(OLD)] == [Some(NEW), Some(OLD)];
    assert ReadAll(LosingDisk(4), init) == (LosingDisk(5), Some([Some(NEW)]));
  }

  lemma LosingUndo()
    ensures Undo(LosingDisk(6), LOSING_PLANS, [Some(NEW), Some(OLD)]) == (LosingDisk(7), true)
  {
    hide Arrive, Head;
    LosingArrives(6);
    LosingArrived();
    assert SetContent(Arrive(LosingDisk(6)).files, 0, Some(OLD)) == LosingDisk(7).files;
    assert Store(LosingDisk(6), 0, Some(OLD)) == (LosingDisk(7), true);
    var current: seq<Option<Str>> := [Some(NEW), Some(OLD)];
    assert LOSING_PLANS[..1] == [LOSING_PLANS[0]] && current[..1] == [Some(NEW)];
    assert Undo(LosingDisk(6), LOSING_PLANS[..1], current[..1]) == (LosingDisk(7), true);
  }

  lemma LosingArrived()
    ensures Arrive(LosingDisk(6)).files == map[0 := FOREIGN, 1 := OLD]
  {}

  /** A commit that reports the files as restored although it has overwritten what others wrote. */
  lemma LosingCommit()
    ensures var d, p := LosingDisk(0), LOSING_PLANS;
            && Commit(d, p) == (LosingDisk(7), Failed(true))
            && MomentAt(d, 6).foreign[0] == Some(FOREIGN) && LosingDisk(7).files[0] == OLD
  {
    hide Apply, ReadAll, Undo;
    LosingApply();
    LosingReads();
    LosingUndo();
    assert Changed(LOSING_PLANS) == LOSING_PLANS by {
      assert LOSING_PLANS[1..] == [LOSING_PLANS[1]];
      assert Changed([LOSING_PLANS[1]]) == [LOSING_PLANS[1]];
    }
  }
}
