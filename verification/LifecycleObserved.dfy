/** What the lifecycle coordinator knows is what its events said, and what it starts is what they asked for. */
module LifecycleObserved {
  import opened Units
  import opened LifecycleCoordinator

  // ---------------------------------------------------------------- what the events said

  predicate ClosedBy(es: seq<Timed>) { exists x <- es :: x.event.Closed? }

  /** The last suspension was not followed by a resume. */
  predicate SuspendedBy(es: seq<Timed>) {
    exists i :: 0 <= i < |es| && es[i].event.Suspended? && forall j :: i < j < |es| ==> !es[j].event.Resumed?
  }

  predicate PollsSince(es: seq<Timed>, i: nat)
    requires i < |es|
  {
    es[i].event.Polled? && !SuspendedBy(es[..i])
  }

  /** Observation `i`: a resume, or a poll while not suspended. */
  predicate Observes(es: seq<Timed>, i: nat)
    requires i < |es|
  {
    es[i].event.Resumed? || PollsSince(es, i)
  }

  /** What the last observation saw; at first, what was seen at the start. */
  function SeenOnline(start: bool, es: seq<Timed>): bool {
    if es == [] then start
    else
      var n := |es| - 1;
      if Observes(es, n) then es[n].event.online else SeenOnline(start, es[..n])
  }

  /** The last observation decides. */
  lemma {:induction false} LastSeen(start: bool, es: seq<Timed>, i: nat)
    requires i < |es| && Observes(es, i) && forall j: nat :: i < j < |es| ==> !Observes(es, j)
    ensures SeenOnline(start, es) == es[i].event.online
  {
    hide SuspendedBy;
    var n := |es| - 1;
    if i < n {
      assert es[..n][..i] == es[..i];
      forall j: nat | i < j < n ensures !Observes(es[..n], j) {
        assert es[..n][..j] == es[..j];
        assert !Observes(es, j);
      }
      assert !Observes(es, n);
      LastSeen(start, es[..n], i);
    }
  }

  lemma SuspendedStep(es: seq<Timed>)
    requires es != []
    ensures var n := |es| - 1;
            SuspendedBy(es) <==> es[n].event.Suspended? || (SuspendedBy(es[..n]) && !es[n].event.Resumed?)
  {
    var n := |es| - 1;
    if SuspendedBy(es[..n]) && !es[n].event.Resumed? {
      var i :| 0 <= i < n && es[..n][i].event.Suspended? && forall j :: i < j < n ==> !es[..n][j].event.Resumed?;
      assert es[i].event.Suspended? && forall j :: i < j < n ==> es[j] == es[..n][j];
    }
    if SuspendedBy(es) && !es[n].event.Suspended? {
      var i :| 0 <= i < |es| && es[i].event.Suspended? && forall j :: i < j < |es| ==> !es[j].event.Resumed?;
      assert es[..n][i].event.Suspended? && forall j :: i < j < n ==> es[j] == es[..n][j];
    }
  }

  // ---------------------------------------------------------------- what the coordinator knows

  lemma {:induction false} RunSnoc(s: State, es: seq<Timed>, debounce: nat)
    requires es != [] && IsTrace(s, es, debounce)
    ensures var n := |es| - 1; var a := Run(s, es[..n], debounce);
            && IsTrace(s, es[..n], debounce) && Allowed(a, es[n].event, es[n].now)
            && Run(s, es, debounce) == Next(a, es[n].event, es[n].now, debounce)
    decreases |es|
  {
    hide Allowed, Next;
    if |es| > 1 {
      RunSnoc(Next(s, es[0].event, es[0].now, debounce), es[1..], debounce);
      var n := |es| - 1;
      assert es[1..][..n - 1] == es[..n][1..];
    } else {
      assert es[1..] == [];
    }
  }

  lemma {:induction false} TraceJoin(s: State, a: seq<Timed>, b: seq<Timed>, debounce: nat)
    requires IsTrace(s, a + b, debounce)
    ensures IsTrace(s, a, debounce) && IsTrace(Run(s, a, debounce), b, debounce)
    ensures Run(s, a + b, debounce) == Run(Run(s, a, debounce), b, debounce)
    decreases |a|
  {
    hide Allowed, Next;
    if a == [] {
      assert a + b == b;
    } else {
      assert (a + b)[1..] == a[1..] + b;
      TraceJoin(Next(s, a[0].event, a[0].now, debounce), a[1..], b, debounce);
    }
  }

  /** What scheduling, starting and notifying leave alone, and what they add. */
  predicate SameView(s: State, n: State) {
    n.closed == s.closed && n.polling == s.polling && n.suspended == s.suspended && n.online == s.online
  }

  function Underway(s: State): nat {
    |s.starts| + (if s.timer.Some? then 1 else 0) + if s.pending then 1 else 0
  }

  lemma NotifyView(s: State)
    ensures SameView(s, Notify(s)) && Underway(Notify(s)) == Underway(s)
  {}

  lemma StartView(s: State)
    requires !s.closed && !s.suspended
    ensures SameView(s, RunRecovery(s)) && Underway(RunRecovery(s)) <= Underway(s) + 1
  {}

  lemma ScheduleView(s: State, debounce: nat)
    ensures SameView(s, ScheduleRecovery(s, debounce))
    ensures Underway(ScheduleRecovery(s, debounce)) <= Underway(s) + 1
  {
    hide Notify, RunRecovery;
    if !s.closed && !s.suspended { StartView(s.(owed := true)); }
  }

  lemma NetworkKnows(s: State, online: bool, debounce: nat)
    requires !s.closed
    ensures var n := OnResume(s, online, debounce);
            && SameView(s.(suspended := false, online := online), n)
            && Underway(n) <= Underway(s) + if online then 1 else 0
    ensures var n := Poll(s, online, debounce);
            && SameView(if s.suspended then s else s.(online := online), n)
            && Underway(n) <= Underway(s) + if online && !s.suspended && !s.online then 1 else 0
  {
    hide ScheduleRecovery, Underway;
    ScheduleView(s.(suspended := false, online := online, pending := false), debounce);
    ScheduleView(s.(online := online), debounce);
    SameCount(s, online);
  }

  lemma SameCount(s: State, online: bool)
    ensures Underway(s.(online := online)) == Underway(s) == Underway(s.(suspended := false, online := online))
    ensures Underway(s.(suspended := false, online := online, pending := false)) <= Underway(s)
  {}

  lemma RebuiltKnows(s: State, debounce: nat)
    ensures var n := FinishRecovery(s, debounce); SameView(s, n) && Underway(n) <= Underway(s)
  {
    hide ScheduleRecovery, Notify;
    var a := s.(recovery := false);
    ScheduleView(a.(pending := false), debounce);
    NotifyView(a);
    NotifyView(ScheduleRecovery(a.(pending := false), debounce));
  }

  lemma TimerKnows(s: State)
    requires s.timer.Some? && !s.closed && !s.suspended
    ensures var n := RunRecovery(s.(timer := None)); SameView(s, n) && Underway(n) <= Underway(s)
  {
    hide RunRecovery;
    StartView(s.(timer := None));
  }

  lemma SuspendKnows(s: State)
    ensures var n := OnSuspend(s);
            SameView(if s.closed then s else s.(suspended := true), n) && Underway(n) <= Underway(s)
  {
    hide Notify;
    NotifyView(s.(suspended := true, timer := None, pending := s.pending || s.timer.Some?));
  }

  lemma CloseKnows(s: State)
    ensures var n := CloseNow(s);
            SameView(if s.closed then s else s.(closed := true, polling := false), n) && Underway(n) <= Underway(s)
  {
    hide Notify;
    NotifyView(if s.closed then s else s.(closed := true, polling := false, timer := None, pending := false));
  }

  lemma WaitKnows(s: State, waiter: nat)
    ensures var n := Wait(s, waiter); SameView(s, n) && Underway(n) == Underway(s)
  {
    hide IsSettled;
  }

  lemma ClockCount(s: State, now: int)
    ensures Underway(s.(clock := now)) == Underway(s) == Underway(s.(clock := now, polling := true))
  {}

  /** One step: what is known afterwards, and how many rebuilds are started or still to come. */
  lemma StepKnows(s: State, e: Event, now: int, debounce: nat)
    requires Inv(s, debounce) && Allowed(s, e, now) && (s.polling ==> !s.closed)
    ensures var n := Next(s, e, now, debounce);
            && (n.closed <==> s.closed || e.Closed?)
            && (n.polling <==> (s.polling || e.Started?) && !n.closed)
            && (!n.closed ==>
                  && (n.suspended <==> e.Suspended? || (s.suspended && !e.Resumed?))
                  && n.online == if e.Resumed? || (e.Polled? && !s.suspended) then e.online else s.online)
            && Underway(n) <= Underway(s) + if !s.closed && BringsBack(s, e) then 1 else 0
  {
    hide OnSuspend, OnResume, Poll, RunRecovery, FinishRecovery, CloseNow, Wait, StartsFit, OwedFits, WaitersFit, Underway;
    var a := s.(clock := now);
    ClockCount(s, now);
    match e {
      case Started =>
      case Suspended => SuspendKnows(a);
      case Resumed(online) => if s.closed { ClosedSteps(a, debounce); } else { NetworkKnows(a, online, debounce); }
      case Polled(online) => if s.closed { ClosedSteps(a, debounce); } else { NetworkKnows(a, online, debounce); }
      case TimerFired => TimerKnows(a);
      case Rebuilt => RebuiltKnows(a, debounce);
      case Closed => CloseKnows(a);
      case Waited(waiter) => WaitKnows(a, waiter);
    }
  }

  /** What a run knows: whether it is closed, polling, suspended and online is what its events said. */
  lemma {:induction false} Observed(start: bool, at: int, es: seq<Timed>, debounce: nat)
    requires IsTrace(Fresh(start, at), es, debounce)
    ensures var s := Run(Fresh(start, at), es, debounce);
            && Inv(s, debounce)
            && (s.closed <==> ClosedBy(es))
            && (s.polling ==> !s.closed) && (!s.closed ==> (s.polling <==> exists x <- es :: x.event.Started?))
            && (!s.closed ==> s.suspended == SuspendedBy(es) && s.online == SeenOnline(start, es))
  {
    hide Next, Allowed, Inv, SuspendedBy;
    if es == [] {
      FreshInv(start, at, debounce);
      NeverSuspended();
    } else {
      var n := |es| - 1;
      assert es == es[..n] + [es[n]];
      RunSnoc(Fresh(start, at), es, debounce);
      Observed(start, at, es[..n], debounce);
      var a := Run(Fresh(start, at), es[..n], debounce);
      NextInv(a, es[n].event, es[n].now, debounce);
      StepKnows(a, es[n].event, es[n].now, debounce);
      SuspendedStep(es);
    }
  }

  lemma NeverSuspended()
    ensures !SuspendedBy([])
  {}

  // ---------------------------------------------------------------- a network that was lost and comes back

  predicate NothingSeen(es: seq<Timed>) {
    forall x <- es :: !x.event.Suspended? && !x.event.Closed? && x.event != Polled(true) && x.event != Resumed(true)
  }

  lemma {:induction false} StillLost(start: bool, before: seq<Timed>, middle: seq<Timed>)
    requires !SuspendedBy(before) && !SeenOnline(start, before) && NothingSeen(middle)
    ensures !SuspendedBy(before + middle) && !SeenOnline(start, before + middle)
  {
    hide SuspendedBy;
    if middle == [] {
      assert before + middle == before;
    } else {
      var n := |middle| - 1;
      assert middle[n] in middle && forall x <- middle[..n] :: x in middle;
      StillLost(start, before, middle[..n]);
      var all := before + middle;
      assert all[..|all| - 1] == before + middle[..n] && all[|all| - 1] == middle[n];
      SuspendedStep(all);
    }
  }

  /**
   * When a poll saw the network gone and, with no suspension or close since, a later poll is the first to see it back,
   * then a rebuild has been started since or is on its way: the first timer that fires starts it, and a running rebuild
   * that finishes starts it or sets the timer.
   */
  lemma NetworkBack(start: bool, at: int, before: seq<Timed>, lost: int, middle: seq<Timed>, back: int, after: seq<Timed>, debounce: nat)
    requires var seen := before + [Timed(Polled(false), lost)] + middle;
             IsTrace(Fresh(start, at), seen + ([Timed(Polled(true), back)] + after), debounce)
    requires !SuspendedBy(before) && !ClosedBy(before) && NothingSeen(middle) && IsUndisturbed(after)
    ensures var seen := before + [Timed(Polled(false), lost)] + middle;
            var a, n := Run(Fresh(start, at), seen, debounce),
                        Run(Fresh(start, at), seen + ([Timed(Polled(true), back)] + after), debounce);
            && a.starts <= n.starts
            && (n.starts == a.starts ==> OnItsWay(n) && !Fired(after) && (a.recovery || !Finished(after)))
  {
    hide IsTrace, Run, SuspendedBy, Inv, OnItsWay, Next, Allowed, IsUndisturbed, Fired, Finished;
    var gone := before + [Timed(Polled(false), lost)];
    var seen := gone + middle;
    var returned := [Timed(Polled(true), back)] + after;
    var first := Fresh(start, at);
    TraceJoin(first, seen, returned, debounce);
    Observed(start, at, seen, debounce);
    assert gone[..|before|] == before;
    SuspendedStep(gone);
    assert Observes(gone, |before|);
    StillLost(start, gone, middle);
    StillOpen(before, lost, middle);
    FirstStep(Run(first, seen, debounce), returned, debounce);
    BackOnline(Run(first, seen, debounce), Polled(true), back, after, debounce);
  }

  lemma StillOpen(before: seq<Timed>, lost: int, middle: seq<Timed>)
    requires !ClosedBy(before) && NothingSeen(middle)
    ensures !ClosedBy(before + [Timed(Polled(false), lost)] + middle)
  {}

  lemma FirstStep(s: State, es: seq<Timed>, debounce: nat)
    requires es != [] && IsTrace(s, es, debounce)
    ensures Allowed(s, es[0].event, es[0].now) && IsTrace(Next(s, es[0].event, es[0].now, debounce), es[1..], debounce)
    ensures Run(s, es, debounce) == Run(Next(s, es[0].event, es[0].now, debounce), es[1..], debounce)
  {
    hide Allowed, Next;
  }

  // ---------------------------------------------------------------- no rebuild that was not asked for

  /** The last event asks for a rebuild: a resume that finds the network, or a poll that finds it back. */
  predicate AsksAt(start: bool, es: seq<Timed>)
    requires es != []
  {
    var n := |es| - 1;
    !ClosedBy(es[..n])
    && (es[n].event == Resumed(true)
        || (es[n].event == Polled(true) && !SuspendedBy(es[..n]) && !SeenOnline(start, es[..n])))
  }

  function Asks(start: bool, es: seq<Timed>): nat {
    if es == [] then 0 else Asks(start, es[..|es| - 1]) + if AsksAt(start, es) then 1 else 0
  }

  /** In every run there are at most as many rebuilds, started or still to come, as were asked for. */
  lemma {:induction false} NoneUnasked(start: bool, at: int, es: seq<Timed>, debounce: nat)
    requires IsTrace(Fresh(start, at), es, debounce)
    ensures Underway(Run(Fresh(start, at), es, debounce)) <= Asks(start, es)
  {
    hide Next, Allowed, Inv, SuspendedBy, SeenOnline, Underway;
    if es == [] {
      NothingUnderway(start, at);
    } else {
      var n := |es| - 1;
      RunSnoc(Fresh(start, at), es, debounce);
      NoneUnasked(start, at, es[..n], debounce);
      Observed(start, at, es[..n], debounce);
      StepKnows(Run(Fresh(start, at), es[..n], debounce), es[n].event, es[n].now, debounce);
    }
  }

  lemma NothingUnderway(start: bool, at: int)
    ensures Underway(Fresh(start, at)) == 0
  {}

  // ---------------------------------------------------------------- waiting

  /**
   * A waiter is resolved only while the coordinator is idle, and nobody is left waiting while it is: no rebuild runs,
   * no timer is set, and none is pending unless it is suspended or closed.
   */
  lemma WaitsForIdle(s: State, e: Event, now: int, debounce: nat)
    requires Inv(s, debounce) && Allowed(s, e, now)
    ensures var n := Next(s, e, now, debounce);
            var idle := !n.recovery && n.timer.None? && (n.pending ==> n.suspended || n.closed);
            && (n.resolved != s.resolved ==> idle) && (n.waiters != {} ==> !idle)
            && (e.Waited? ==> e.waiter in n.waiters + n.resolved)
  {
    hide StartsFit, OwedFits;
    NextInv(s, e, now, debounce);
  }
}
