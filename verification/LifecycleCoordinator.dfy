/** SystemLifecycleCoordinator: sleep, network changes, debounced rebuilds and idle waiters, over every run. */
module LifecycleCoordinator {
  import opened Units

  // ---------------------------------------------------------------- state

  /**
   * `timer` is when the recovery timer is due. The last three fields record the run: when rebuilds were started,
   * which waiters were resolved, and whether a recovery was asked for and no rebuild has started since.
   */
  datatype State = State(
    polling: bool,
    timer: Option<int>,
    suspended: bool,
    closed: bool,
    online: bool,
    lastRecoveryAt: int,
    recovery: bool,
    pending: bool,
    waiters: set<nat>,
    clock: int,
    starts: seq<int>,
    resolved: set<nat>,
    owed: bool)

  predicate IsSettled(s: State) {
    !s.recovery && s.timer.None? && (!s.pending || s.closed || s.suspended)
  }

  /** notifyIdleIfSettled. */
  function Notify(s: State): State {
    if IsSettled(s) then s.(waiters := {}, resolved := s.resolved + s.waiters) else s
  }

  function RunRecovery(s: State): State {
    if s.closed || s.suspended then Notify(s.(pending := !s.closed))
    else if s.recovery then s.(pending := true)
    else s.(lastRecoveryAt := s.clock, recovery := true, starts := s.starts + [s.clock], owed := false)
  }

  function ScheduleRecovery(s: State, debounce: nat): State {
    if s.closed then s
    else
      var o := s.(owed := true);
      if s.suspended || s.recovery then o.(pending := true)
      else if s.timer.Some? then o
      else
        var delay := debounce - (s.clock - s.lastRecoveryAt);
        if delay > 0 then o.(timer := Some(s.clock + delay)) else RunRecovery(o)
  }

  // ---------------------------------------------------------------- events

  datatype Event =
    | Started
    | Suspended
    | Resumed(online: bool)
    | Polled(online: bool)
    | TimerFired
    | Rebuilt
    | Closed
    | Waited(waiter: nat)

  /** Time only moves forward, timers are not early, and callbacks come from what is running. */
  predicate Allowed(s: State, e: Event, now: int) {
    now >= s.clock
    && match e
       case Polled(_) => s.polling
       case TimerFired => s.timer.Some? && now >= s.timer.value
       case Rebuilt => s.recovery
       case _ => true
  }

  function OnSuspend(s: State): State {
    if s.closed then s
    else
      Notify(s.(suspended := true, timer := None, pending := s.pending || s.timer.Some?))
  }

  function OnResume(s: State, online: bool, debounce: nat): State {
    if s.closed then s
    else
      var a := s.(suspended := false, online := online);
      if online then ScheduleRecovery(a.(pending := false), debounce) else a
  }

  function Poll(s: State, online: bool, debounce: nat): State {
    if s.closed || s.suspended then s
    else
      var a := s.(online := online);
      if !s.online && online then ScheduleRecovery(a, debounce) else a
  }

  /** The end of a rebuild, whether it succeeded or not. */
  function FinishRecovery(s: State, debounce: nat): State {
    var a := s.(recovery := false);
    Notify(if !a.closed && !a.suspended && a.pending then ScheduleRecovery(a.(pending := false), debounce) else a)
  }

  /** close, up to the point where it waits for a rebuild in flight. */
  function CloseNow(s: State): State {
    var a := if s.closed then s else s.(closed := true, polling := false, timer := None, pending := false);
    if a.recovery then a else Notify(a)
  }

  function Wait(s: State, waiter: nat): State {
    if IsSettled(s) then s.(resolved := s.resolved + {waiter}) else s.(waiters := s.waiters + {waiter})
  }

  function Next(s: State, e: Event, now: int, debounce: nat): State {
    var a := s.(clock := now);
    match e
    case Started => if a.closed then a else a.(polling := true)
    case Suspended => OnSuspend(a)
    case Resumed(online) => OnResume(a, online, debounce)
    case Polled(online) => Poll(a, online, debounce)
    case TimerFired => RunRecovery(a.(timer := None))
    case Rebuilt => FinishRecovery(a, debounce)
    case Closed => CloseNow(a)
    case Waited(waiter) => Wait(a, waiter)
  }

  datatype Timed = Timed(event: Event, now: int)

  predicate IsTrace(s: State, es: seq<Timed>, debounce: nat)
    decreases |es|
  {
    es == [] || (Allowed(s, es[0].event, es[0].now) && IsTrace(Next(s, es[0].event, es[0].now, debounce), es[1..], debounce))
  }

  function Run(s: State, es: seq<Timed>, debounce: nat): State
    decreases |es|
  {
    if es == [] then s else Run(Next(s, es[0].event, es[0].now, debounce), es[1..], debounce)
  }

  function Fresh(online: bool, now: int): State {
    State(false, None, false, false, online, 0, false, false, {}, now, [], {}, false)
  }

  // ---------------------------------------------------------------- the invariant

  /** No rebuild runs beside a timer, and no timer while suspended or closed. */
  predicate TimerFits(s: State) {
    s.timer.Some? ==> !s.recovery && !s.suspended && !s.closed
  }

  /** Rebuilds are at least the debounce apart; a timer is due exactly when that time is over. */
  predicate StartsFit(s: State, debounce: nat) {
    && s.lastRecoveryAt == (if s.starts == [] then 0 else s.starts[|s.starts| - 1])
    && (forall i :: 0 <= i < |s.starts| - 1 ==> s.starts[i + 1] - s.starts[i] >= debounce)
    && (s.timer.Some? ==> s.timer.value == s.lastRecoveryAt + debounce)
  }

  /** A recovery that is owed is on its way, or has to wait for the network or the end of a suspension. */
  predicate OwedFits(s: State) {
    s.owed ==> s.timer.Some? || (s.recovery && s.pending) || s.suspended || !s.online || s.closed
  }

  /** Nobody waits for an idle coordinator. */
  predicate WaitersFit(s: State) {
    s.waiters != {} ==> !IsSettled(s)
  }

  predicate Inv(s: State, debounce: nat) {
    TimerFits(s) && StartsFit(s, debounce) && OwedFits(s) && WaitersFit(s)
  }

  lemma NotifyInv(s: State, debounce: nat)
    requires TimerFits(s) && StartsFit(s, debounce) && OwedFits(s)
    ensures Inv(Notify(s), debounce)
  {}

  /** Scheduling while neither closed nor suspended: what it comes to. */
  lemma ScheduleCases(s: State, debounce: nat)
    requires !s.closed && !s.suspended
    ensures ScheduleRecovery(s, debounce)
         == if s.recovery then s.(owed := true, pending := true)
            else if s.timer.Some? then s.(owed := true)
            else if s.clock - s.lastRecoveryAt < debounce then s.(owed := true, timer := Some(s.lastRecoveryAt + debounce))
            else s.(owed := false, lastRecoveryAt := s.clock, recovery := true, starts := s.starts + [s.clock])
  {}

  lemma StartsSnoc(s: State, debounce: nat)
    requires StartsFit(s, debounce) && s.clock - s.lastRecoveryAt >= debounce
    ensures StartsFit(s.(lastRecoveryAt := s.clock, recovery := true, starts := s.starts + [s.clock], timer := None), debounce)
  {
    var starts := s.starts + [s.clock];
    assert forall i :: 0 <= i < |s.starts| ==> starts[i] == s.starts[i];
  }

  lemma ScheduleInv(s: State, debounce: nat)
    requires TimerFits(s) && StartsFit(s, debounce) && !s.closed && !s.suspended
    ensures Inv(ScheduleRecovery(s, debounce), debounce)
  {
    hide ScheduleRecovery, StartsFit;
    ScheduleCases(s, debounce);
    TimerDue(s, debounce);
    if s.clock - s.lastRecoveryAt >= debounce { StartsSnoc(s, debounce); }
  }

  /** StartsFit looks at the starts, the last one and the timer only. */
  lemma TimerDue(s: State, debounce: nat)
    requires StartsFit(s, debounce)
    ensures StartsFit(s.(owed := true, pending := true), debounce) && StartsFit(s.(owed := true), debounce)
    ensures StartsFit(s.(owed := true, timer := Some(s.lastRecoveryAt + debounce)), debounce)
    ensures s.timer.None? && s.clock - s.lastRecoveryAt >= debounce ==>
              StartsFit(s.(owed := false, lastRecoveryAt := s.clock, recovery := true, starts := s.starts + [s.clock]), debounce)
  {
    var starts := s.starts + [s.clock];
    assert forall i :: 0 <= i < |s.starts| ==> starts[i] == s.starts[i];
  }

  lemma SuspendInv(s: State, debounce: nat)
    requires Inv(s, debounce)
    ensures Inv(OnSuspend(s), debounce)
  {
    hide Notify;
    if !s.closed { NotifyInv(s.(suspended := true, timer := None, pending := s.pending || s.timer.Some?), debounce); }
  }

  lemma ResumeInv(s: State, online: bool, debounce: nat)
    requires Inv(s, debounce)
    ensures Inv(OnResume(s, online, debounce), debounce)
  {
    hide ScheduleRecovery;
    if !s.closed && online { ScheduleInv(s.(suspended := false, online := online, pending := false), debounce); }
  }

  lemma PollInv(s: State, online: bool, debounce: nat)
    requires Inv(s, debounce)
    ensures Inv(Poll(s, online, debounce), debounce)
  {
    hide ScheduleRecovery;
    if !s.closed && !s.suspended && !s.online && online { ScheduleInv(s.(online := online), debounce); }
  }

  lemma TimerInv(s: State, debounce: nat)
    requires Inv(s, debounce) && s.timer.Some? && s.clock >= s.timer.value
    ensures Inv(RunRecovery(s.(timer := None)), debounce)
  {
    StartsSnoc(s, debounce);
  }

  lemma RebuiltInv(s: State, debounce: nat)
    requires Inv(s, debounce) && s.recovery
    ensures Inv(FinishRecovery(s, debounce), debounce)
  {
    hide ScheduleRecovery, Notify;
    var a := s.(recovery := false);
    if !a.closed && !a.suspended && a.pending {
      ScheduleInv(a.(pending := false), debounce);
      NotifyInv(ScheduleRecovery(a.(pending := false), debounce), debounce);
    } else {
      NotifyInv(a, debounce);
    }
  }

  lemma CloseInv(s: State, debounce: nat)
    requires Inv(s, debounce)
    ensures Inv(CloseNow(s), debounce)
  {
    hide Notify;
    var a := if s.closed then s else s.(closed := true, polling := false, timer := None, pending := false);
    NotifyInv(a, debounce);
  }

  lemma NextInv(s: State, e: Event, now: int, debounce: nat)
    requires Inv(s, debounce) && Allowed(s, e, now)
    ensures Inv(Next(s, e, now, debounce), debounce)
  {
    hide ScheduleRecovery, RunRecovery, OnSuspend, OnResume, Poll, FinishRecovery, CloseNow;
    var a := s.(clock := now);
    assert Inv(a, debounce);
    match e {
      case Suspended => SuspendInv(a, debounce);
      case Resumed(online) => ResumeInv(a, online, debounce);
      case Polled(online) => PollInv(a, online, debounce);
      case TimerFired => TimerInv(a, debounce);
      case Rebuilt => RebuiltInv(a, debounce);
      case Closed => CloseInv(a, debounce);
      case _ =>
    }
  }

  lemma {:induction false} RunInv(s: State, es: seq<Timed>, debounce: nat)
    requires Inv(s, debounce) && IsTrace(s, es, debounce)
    ensures Inv(Run(s, es, debounce), debounce)
    decreases |es|
  {
    hide Inv, Next, Allowed;
    if es != [] {
      NextInv(s, es[0].event, es[0].now, debounce);
      RunInv(Next(s, es[0].event, es[0].now, debounce), es[1..], debounce);
    }
  }

  /**
   * In every run: a rebuild and a timer never coexist; there is no timer while suspended or closed; rebuilds start at
   * least the debounce apart; a recovery asked for and not started since implies a timer, a running rebuild with another
   * pending, a suspension, a lost network or a closed coordinator; and waiters are left only while it is not idle.
   */
  lemma CoordinatorRuns(online: bool, start: int, es: seq<Timed>, debounce: nat)
    requires IsTrace(Fresh(online, start), es, debounce)
    ensures var s := Run(Fresh(online, start), es, debounce);
            && !(s.recovery && s.timer.Some?)
            && (s.suspended || s.closed ==> s.timer.None?)
            && (forall i :: 0 <= i < |s.starts| - 1 ==> s.starts[i + 1] - s.starts[i] >= debounce)
            && (s.owed ==> s.timer.Some? || (s.recovery && s.pending) || s.suspended || !s.online || s.closed)
            && (s.waiters != {} ==> !IsSettled(s))
  {
    hide Run, IsTrace, IsSettled;
    assert Inv(Fresh(online, start), debounce) by { FreshInv(online, start, debounce); }
    RunInv(Fresh(online, start), es, debounce);
  }

  lemma FreshInv(online: bool, now: int, debounce: nat)
    ensures Inv(Fresh(online, now), debounce)
  {}

  // ---------------------------------------------------------------- nothing starts out of turn

  /** A step that starts no rebuild, or starts one now, while neither suspended nor closed; no waiter is forgotten. */
  predicate InTurn(s: State, n: State) {
    && (n.starts == s.starts || (n.starts == s.starts + [s.clock] && !n.suspended && !n.closed && n.recovery))
    && s.resolved <= n.resolved && s.waiters <= n.waiters + n.resolved
  }

  lemma ScheduleTurn(s: State, debounce: nat)
    requires !s.closed && !s.suspended
    ensures var n := ScheduleRecovery(s, debounce);
            && InTurn(s, n) && n.waiters == s.waiters && n.resolved == s.resolved && !n.suspended && !n.closed
            && (s.recovery ==> n.starts == s.starts)
  {
    hide ScheduleRecovery;
    ScheduleCases(s, debounce);
  }

  lemma NotifyFrames()
    ensures forall x: State ::
              && Notify(x).closed == x.closed && Notify(x).suspended == x.suspended && Notify(x).recovery == x.recovery
              && Notify(x).starts == x.starts && x.resolved <= Notify(x).resolved
              && x.waiters <= Notify(x).waiters + Notify(x).resolved
  {}

  /** Rebuilds start only while neither suspended nor closed, one at a time, and no waiter is forgotten. */
  lemma StartsInTurn(s: State, e: Event, now: int, debounce: nat)
    requires Inv(s, debounce) && Allowed(s, e, now)
    ensures var n := Next(s, e, now, debounce);
            InTurn(s.(clock := now), n) && (s.recovery && !e.Rebuilt? ==> n.starts == s.starts)
  {
    hide OnSuspend, OnResume, Poll, RunRecovery, FinishRecovery, CloseNow, StartsFit, OwedFits, WaitersFit;
    var a := s.(clock := now);
    match e {
      case Suspended => QuietTurn(a, 0);
      case Closed => QuietTurn(a, 0);
      case Waited(waiter) => QuietTurn(a, waiter);
      case Resumed(online) => NetworkTurn(a, online, debounce);
      case Polled(online) => NetworkTurn(a, online, debounce);
      case TimerFired => TimerTurn(a.(timer := None));
      case Rebuilt => RebuiltTurn(a, debounce);
      case _ =>
    }
  }

  lemma QuietTurn(s: State, waiter: nat)
    ensures InTurn(s, OnSuspend(s)) && InTurn(s, CloseNow(s)) && InTurn(s, Wait(s, waiter))
    ensures OnSuspend(s).starts == s.starts == CloseNow(s).starts && Wait(s, waiter).starts == s.starts
  {
    hide Notify;
    NotifyFrames();
  }

  lemma NetworkTurn(s: State, online: bool, debounce: nat)
    ensures InTurn(s, OnResume(s, online, debounce)) && InTurn(s, Poll(s, online, debounce))
    ensures s.recovery ==> OnResume(s, online, debounce).starts == s.starts == Poll(s, online, debounce).starts
  {
    hide ScheduleRecovery;
    if !s.closed {
      ScheduleTurn(s.(suspended := false, online := online, pending := false), debounce);
      if !s.suspended { ScheduleTurn(s.(online := online), debounce); }
    }
  }

  lemma TimerTurn(s: State)
    ensures InTurn(s, RunRecovery(s)) && (s.recovery ==> RunRecovery(s).starts == s.starts)
  {
    hide Notify;
    NotifyFrames();
  }

  lemma RebuiltTurn(s: State, debounce: nat)
    ensures InTurn(s, FinishRecovery(s, debounce))
  {
    hide Notify, ScheduleRecovery;
    NotifyFrames();
    if !s.closed && !s.suspended { ScheduleTurn(s.(recovery := false, pending := false), debounce); }
  }

  /** Once closed, nothing is ever started, and every waiter is resolved as soon as no rebuild is running. */
  lemma {:induction false} ClosedForGood(s: State, es: seq<Timed>, debounce: nat)
    requires Inv(s, debounce) && s.closed && IsTrace(s, es, debounce)
    ensures var n := Run(s, es, debounce);
            && n.closed && n.starts == s.starts && n.timer.None?
            && (!n.recovery ==> n.waiters == {})
    decreases |es|
  {
    if es != [] {
      NextInv(s, es[0].event, es[0].now, debounce);
      StaysClosed(s, es[0].event, es[0].now, debounce);
      hide Next, Inv, Allowed;
      ClosedForGood(Next(s, es[0].event, es[0].now, debounce), es[1..], debounce);
    }
  }

  lemma StaysClosed(s: State, e: Event, now: int, debounce: nat)
    requires Inv(s, debounce) && s.closed && Allowed(s, e, now)
    ensures Next(s, e, now, debounce).closed && Next(s, e, now, debounce).starts == s.starts
  {
    hide OnSuspend, OnResume, Poll, RunRecovery, FinishRecovery, CloseNow, StartsFit, OwedFits, WaitersFit;
    ClosedSteps(s.(clock := now), debounce);
  }

  lemma ClosedSteps(s: State, debounce: nat)
    requires s.closed
    ensures OnSuspend(s) == s && (forall b: bool :: OnResume(s, b, debounce) == s && Poll(s, b, debounce) == s)
    ensures FinishRecovery(s, debounce).closed && FinishRecovery(s, debounce).starts == s.starts
    ensures CloseNow(s).closed && CloseNow(s).starts == s.starts
  {
    hide Notify;
    NotifyFrames();
  }

  // ---------------------------------------------------------------- a network that comes back

  /** A rebuild is on its way: a timer is set, or another rebuild follows the running one. */
  predicate OnItsWay(s: State) {
    !s.closed && !s.suspended && (s.timer.Some? || (s.recovery && s.pending))
  }

  predicate IsUndisturbed(es: seq<Timed>) {
    forall x <- es :: !x.event.Suspended? && !x.event.Closed?
  }

  predicate Fired(es: seq<Timed>) { exists x <- es :: x.event.TimerFired? }
  predicate Finished(es: seq<Timed>) { exists x <- es :: x.event.Rebuilt? }

  /** A step on the way: a fired timer starts the rebuild, a finished one starts it or sets the timer. */
  lemma WayStep(s: State, e: Event, now: int, debounce: nat)
    requires Inv(s, debounce) && Allowed(s, e, now) && OnItsWay(s) && !e.Suspended? && !e.Closed?
    ensures var n := Next(s, e, now, debounce);
            && s.starts <= n.starts
            && (n.starts == s.starts ==>
                  && OnItsWay(n) && !e.TimerFired?
                  && (s.timer.Some? ==> !e.Rebuilt? && n.timer == s.timer)
                  && (s.timer.None? ==> (e.Rebuilt? <==> n.timer.Some?)))
  {
    hide ScheduleRecovery, Notify, StartsFit, OwedFits, WaitersFit;
    var a := s.(clock := now);
    NotifyFrames();
    NotifyTimers();
    match e {
      case Resumed(online) => ScheduleCases(a.(online := online, pending := false), debounce);
      case Polled(online) => ScheduleCases(a.(online := online), debounce);
      case Rebuilt => ScheduleCases(a.(recovery := false, pending := false), debounce);
      case _ =>
    }
  }

  lemma NotifyTimers()
    ensures forall x: State :: Notify(x).timer == x.timer && Notify(x).pending == x.pending
  {}

  lemma {:induction false} StartsGrow(s: State, es: seq<Timed>, debounce: nat)
    requires Inv(s, debounce) && IsTrace(s, es, debounce)
    ensures s.starts <= Run(s, es, debounce).starts
    decreases |es|
  {
    hide Inv, Next, Allowed;
    if es != [] {
      NextInv(s, es[0].event, es[0].now, debounce);
      StartsInTurn(s, es[0].event, es[0].now, debounce);
      StartsGrow(Next(s, es[0].event, es[0].now, debounce), es[1..], debounce);
    }
  }

  lemma {:induction false} Way(s: State, es: seq<Timed>, debounce: nat)
    requires Inv(s, debounce) && IsTrace(s, es, debounce) && OnItsWay(s) && IsUndisturbed(es)
    ensures var n := Run(s, es, debounce);
            && s.starts <= n.starts
            && (n.starts == s.starts ==>
                  && OnItsWay(n) && !Fired(es)
                  && (s.timer.Some? ==> !Finished(es) && n.timer == s.timer)
                  && (s.timer.None? ==> (Finished(es) <==> n.timer.Some?)))
    decreases |es|
  {
    hide Inv, Next, Allowed, OnItsWay;
    if es != [] {
      var n := Next(s, es[0].event, es[0].now, debounce);
      assert es == [es[0]] + es[1..];
      assert es[0] in es;
      NextInv(s, es[0].event, es[0].now, debounce);
      WayStep(s, es[0].event, es[0].now, debounce);
      StartsGrow(n, es[1..], debounce);
      if n.starts == s.starts { Way(n, es[1..], debounce); }
    }
  }

  /** A poll that finds the network back, or a resume that finds it there. */
  predicate BringsBack(s: State, e: Event) {
    e == Resumed(true) || (e == Polled(true) && !s.suspended && !s.online)
  }

  /**
   * When the network comes back, then in every trace without a suspension or a close a rebuild is started, at once or
   * later, and is on its way until then: the first timer that fires starts it; a running rebuild that finishes starts
   * it or sets the timer, for when the debounce is over; no other event takes it back, not even losing the network again.
   */
  lemma BackOnline(s: State, e: Event, now: int, es: seq<Timed>, debounce: nat)
    requires Inv(s, debounce) && Allowed(s, e, now) && !s.closed && BringsBack(s, e)
    requires IsTrace(Next(s, e, now, debounce), es, debounce) && IsUndisturbed(es)
    ensures var n := Run(Next(s, e, now, debounce), es, debounce);
            && s.starts <= n.starts
            && (n.starts == s.starts ==>
                  && OnItsWay(n) && !Fired(es)
                  && (s.recovery && !Finished(es) ==> n.recovery && n.pending)
                  && (s.recovery && Finished(es) ==> n.timer == Some(n.lastRecoveryAt + debounce))
                  && (!s.recovery ==> !Finished(es) && n.timer == Some(s.lastRecoveryAt + debounce)))
  {
    hide Inv, IsTrace, Run, Fired, Finished;
    var a := Next(s, e, now, debounce);
    NextInv(s, e, now, debounce);
    BackStep(s, e, now, debounce);
    StartsGrow(a, es, debounce);
    if a.starts == s.starts {
      Way(a, es, debounce);
      RunInv(a, es, debounce);
      TimerValue(a, debounce);
      TimerValue(Run(a, es, debounce), debounce);
    }
  }

  lemma BackStep(s: State, e: Event, now: int, debounce: nat)
    requires Inv(s, debounce) && !s.closed && BringsBack(s, e)
    ensures var a := Next(s, e, now, debounce);
            && s.starts <= a.starts
            && (a.starts == s.starts ==> OnItsWay(a) && (s.recovery <==> a.timer.None?) && a.lastRecoveryAt == s.lastRecoveryAt)
  {
    hide ScheduleRecovery, StartsFit, OwedFits, WaitersFit;
    var back := s.(clock := now, online := true);
    ScheduleCases(if e.Polled? then back else back.(suspended := false, pending := false), debounce);
  }

  lemma TimerValue(s: State, debounce: nat)
    requires Inv(s, debounce)
    ensures s.timer.Some? ==> s.timer == Some(s.lastRecoveryAt + debounce) && !s.recovery
  {}

  // ---------------------------------------------------------------- the object

  lemma ClockFirst(s: State, e: Event, now: int, debounce: nat)
    ensures Next(s.(clock := now), e, now, debounce) == Next(s, e, now, debounce)
  {
    hide OnSuspend, OnResume, Poll, RunRecovery, FinishRecovery, CloseNow, Wait;
  }

  class Coordinator {
    const debounce: nat
    var polling: bool
    var recoveryTimer: Option<int>
    var suspended: bool
    var closed: bool
    var online: bool
    var lastRecoveryAt: int
    var recovery: bool
    var pendingRecovery: bool
    var idleWaiters: set<nat>
    var clock: int
    ghost var starts: seq<int>
    ghost var resolved: set<nat>
    ghost var owed: bool

    ghost function View(): State
      reads this
    {
      State(polling, recoveryTimer, suspended, closed, online, lastRecoveryAt, recovery, pendingRecovery, idleWaiters, clock,
            starts, resolved, owed)
    }

    constructor (debounce: nat, online: bool, now: int)
      ensures View() == Fresh(online, now) && Inv(View(), debounce) && this.debounce == debounce
    {
      this.debounce, polling, recoveryTimer, suspended, closed, this.online := debounce, false, None, false, false, online;
      lastRecoveryAt, recovery, pendingRecovery, idleWaiters, clock := 0, false, false, {}, now;
      starts, resolved, owed := [], {}, false;
    }

    predicate Settled()
      reads this
    {
      !recovery && recoveryTimer.None? && (!pendingRecovery || closed || suspended)
    }

    method NotifyIdleIfSettled()
      modifies this
      ensures View() == Notify(old(View()))
    {
      if Settled() {
        resolved := resolved + idleWaiters;
        idleWaiters := {};
      }
    }

    method RunRecoveryNow()
      modifies this
      ensures View() == RunRecovery(old(View()))
    {
      if closed || suspended {
        pendingRecovery := !closed;
        NotifyIdleIfSettled();
        return;
      }
      if recovery {
        pendingRecovery := true;
        return;
      }
      lastRecoveryAt := clock;
      recovery := true;
      starts := starts + [clock];
      owed := false;
    }

    method FireTimer()
      modifies this
      ensures View() == RunRecovery(old(View()).(timer := None))
    {
      hide RunRecovery;
      recoveryTimer := None;
      RunRecoveryNow();
    }

    method Schedule()
      modifies this
      ensures View() == ScheduleRecovery(old(View()), debounce)
    {
      hide RunRecovery;
      if closed { return; }
      owed := true;
      if suspended || recovery {
        pendingRecovery := true;
        return;
      }
      if recoveryTimer.Some? { return; }
      var delay := debounce - (clock - lastRecoveryAt);
      if delay > 0 {
        recoveryTimer := Some(clock + delay);
        return;
      }
      RunRecoveryNow();
    }

    method OnSuspendNow()
      modifies this
      ensures View() == OnSuspend(old(View()))
    {
      hide Notify;
      if closed { return; }
      suspended := true;
      if recoveryTimer.Some? {
        recoveryTimer := None;
        pendingRecovery := true;
      }
      NotifyIdleIfSettled();
    }

    method OnResumeNow(isOnline: bool)
      modifies this
      ensures View() == OnResume(old(View()), isOnline, debounce)
    {
      hide ScheduleRecovery;
      if closed { return; }
      suspended := false;
      online := isOnline;
      if online {
        pendingRecovery := false;
        Schedule();
      }
    }

    method PollNow(nextOnline: bool)
      modifies this
      ensures View() == Poll(old(View()), nextOnline, debounce)
    {
      hide ScheduleRecovery;
      if closed || suspended { return; }
      var becameOnline := !online && nextOnline;
      online := nextOnline;
      if becameOnline { Schedule(); }
    }

    method FinishNow()
      modifies this
      ensures View() == FinishRecovery(old(View()), debounce)
    {
      hide ScheduleRecovery, Notify;
      recovery := false;
      if !closed && !suspended && pendingRecovery {
        pendingRecovery := false;
        Schedule();
      }
      NotifyIdleIfSettled();
    }

    method CloseCoordinator()
      modifies this
      ensures View() == CloseNow(old(View()))
    {
      hide Notify;
      if !closed {
        closed := true;
        polling := false;
        recoveryTimer := None;
        pendingRecovery := false;
      }
      if !recovery { NotifyIdleIfSettled(); }
    }

    method WaitForIdle(waiter: nat)
      modifies this
      ensures View() == Wait(old(View()), waiter)
    {
      if Settled() { resolved := resolved + {waiter}; } else { idleWaiters := idleWaiters + {waiter}; }
    }

    /** One event at time `now`. */
    method Handle(e: Event, now: int)
      requires Inv(View(), debounce) && Allowed(View(), e, now)
      modifies this
      ensures View() == Next(old(View()), e, now, debounce) && Inv(View(), debounce)
    {
      hide Inv, Allowed, Next;
      NextInv(View(), e, now, debounce);
      ClockFirst(View(), e, now, debounce);
      clock := now;
      Dispatch(e);
    }

    method Dispatch(e: Event)
      modifies this
      ensures View() == Next(old(View()), e, old(clock), debounce)
    {
      hide RunRecovery, OnSuspend, OnResume, Poll, FinishRecovery, CloseNow, Wait;
      match e {
        case Started =>
          if !closed { polling := true; }
        case Suspended => OnSuspendNow();
        case Resumed(nowOnline) => OnResumeNow(nowOnline);
        case Polled(nextOnline) => PollNow(nextOnline);
        case TimerFired => FireTimer();
        case Rebuilt => FinishNow();
        case Closed => CloseCoordinator();
        case Waited(waiter) => WaitForIdle(waiter);
      }
    }
  }
}
