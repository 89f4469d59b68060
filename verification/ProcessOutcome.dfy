/** What closing a process comes to: what its looks mean, when it goes on to the forced signal, and how long it waits. */
module ProcessOutcome {
  import opened Units
  import opened ProcessRegistry

  // ---------------------------------------------------------------- looks are what the adapter says

  /** What the adapter answers to call `i`. */
  function Answer(script: seq<Moment>, i: nat): Inspection {
    if i < |script| then script[i].inspection else Nothing
  }

  /** A look matches exactly when the adapter finds the very process: the PID, its start time and its path. */
  predicate IsTrue(answer: Inspection, p: Process, seen: Seen) {
    match seen
    case Match => answer.Found? && answer.identity.pid == p.identity.pid
        && answer.identity.startedAt == p.identity.startedAt
                  && answer.identity.path == p.identity.path
    case Mismatch => answer.Found? && answer.identity != p.identity
    case Exited => answer.Nothing?
    case Unseen => answer.InspectFails?
  }

  /** Each call uses up one answer, and each look of `p` tells the truth about its own. */
  ghost predicate Truthful(script: seq<Moment>, p: Process, w: World) {
    && w.script == (if |w.log| <= |script| then script[|w.log|..] else [])
    && forall i :: 0 <= i < |w.log| && w.log[i].Saw? ==>
         w.log[i].of == p.identity && IsTrue(Answer(script, i), p, w.log[i].seen)
  }

  lemma SeeingTrue(script: seq<Moment>, p: Process, w: World)
    requires Truthful(script, p, w)
    ensures IsTrue(Answer(script, |w.log|), p, Seeing(w, p))
    ensures Rest(w) == if |w.log| + 1 <= |script| then script[|w.log| + 1..] else []
  {}

  lemma TruthStep(script: seq<Moment>, p: Process, w: World)
    requires Truthful(script, p, w)
    ensures Truthful(script, p, Observe(w, p))
    ensures forall f :: Truthful(script, p, Signal(w, p, f))
    ensures forall d: nat :: Truthful(script, p, Sleep(w, d))
  {
    hide IsTrue, Answer, Seeing;
    SeeingTrue(script, p, w);
  }

  lemma {:induction false} WaitTruthful(script: seq<Moment>, w: World, p: Process, deadline: int, poll: nat)
    requires poll > 0 && Truthful(script, p, w)
    ensures Truthful(script, p, Wait(w, p, deadline, poll).world)
    decreases if deadline > w.clock then deadline - w.clock else 0
  {
    hide Truthful, Seeing;
    var a := Observe(w, p);
    TruthStep(script, p, w);
    TruthStep(script, p, a);
    var remaining := deadline - a.clock;
    if Seeing(w, p).Match? && remaining > 0 {
      WaitTruthful(script, Sleep(a, ProcessRegistry.Min(poll, remaining)), p, deadline, poll);
    }
  }

  lemma GentleTruthful(script: seq<Moment>, w: World, p: Process, t: Times)
    requires t.poll > 0 && Truthful(script, p, w)
    ensures Truthful(script, p, Gentle(w, p, t).0)
  {
    hide Truthful, Wait;
    TruthStep(script, p, w);
    var a := Signal(w, p, false);
    WaitTruthful(script, a, p, a.clock + t.graceful, t.poll);
  }

  lemma HardTruthful(script: seq<Moment>, w: World, p: Process, t: Times)
    requires t.poll > 0 && Truthful(script, p, w)
    ensures Truthful(script, p, Hard(w, p, t).0)
  {
    hide Truthful, Wait, Seeing;
    TruthStep(script, p, w);
    var a := Observe(w, p);
    TruthStep(script, p, a);
    var b := Signal(a, p, true);
    WaitTruthful(script, b, p, b.clock + t.forced, t.poll);
  }

  // ---------------------------------------------------------------- when waiting ends

  function LastSeen(log: seq<Act>): Seen {
    if log != [] && log[|log| - 1].Saw? then log[|log| - 1].seen else Unseen
  }

  predicate EndsLooking(log: seq<Act>, p: Process) {
    log != [] && log[|log| - 1].Saw? && log[|log| - 1].of == p.identity
  }

  /** Waiting ends with a look: that fails, or shows the process gone, or still matches when the time is over. */
  lemma {:induction false} WaitEnds(w: World, p: Process, deadline: int, poll: nat)
    requires poll > 0
    ensures var r := Wait(w, p, deadline, poll);
            && EndsLooking(r.world.log, p) && w.log <= r.world.log
            && (r.threw <==> LastSeen(r.world.log).Unseen?)
            && (r.gone <==> LastSeen(r.world.log).Exited? || LastSeen(r.world.log).Mismatch?)
            && (LastSeen(r.world.log).Match? ==> r.world.clock >= deadline)
    decreases if deadline > w.clock then deadline - w.clock else 0
  {
    hide Seeing;
    var a := Observe(w, p);
    var remaining := deadline - a.clock;
    if Seeing(w, p).Match? && remaining > 0 { WaitEnds(Sleep(a, ProcessRegistry.Min(poll, remaining)), p, deadline, poll); }
  }

  /** Answers that take no time and always find the process. */
  predicate Steady(script: seq<Moment>, p: Process) {
    forall m <- script :: m.elapsed == 0 && m.inspection == Found(p.identity)
  }

  /** When nothing but sleeping takes time, it polls exactly once, and once more for every started poll interval. */
  lemma {:induction false} PollsExactly(w: World, p: Process, deadline: int, poll: nat)
    requires poll > 0 && Steady(w.script, p)
    ensures var r := Wait(w, p, deadline, poll);
            && !r.threw && Steady(r.world.script, p)
            && (!r.gone ==> Looks(r.world.log) == Looks(w.log) + PollBound(deadline - w.clock, poll))
    decreases if deadline > w.clock then deadline - w.clock else 0
  {
    hide Looks, PollBound;
    var a := Observe(w, p);
    SteadyRest(w, p);
    SteadyRest(a, p);
    LogSnoc(w.log, Saw(p.identity, Seeing(w, p)));
    LogSnoc(a.log, Slept);
    var remaining := deadline - a.clock;
    PollTurn(deadline - w.clock, poll);
    if Seeing(w, p).Match? && remaining > 0 {
      PollsExactly(Sleep(a, ProcessRegistry.Min(poll, remaining)), p, deadline, poll);
    }
  }

  lemma SteadyRest(w: World, p: Process)
    requires Steady(w.script, p)
    ensures Steady(Rest(w), p) && Head(w).elapsed == 0 && (w.script != [] ==> Seeing(w, p).Match?)
        && (w.script == [] ==> Seeing(w, p).Exited?)
  {
    if w.script != [] { assert w.script[0] in w.script; }
  }

  lemma PollTurn(remaining: int, poll: nat)
    requires poll > 0
    ensures remaining <= 0 ==> PollBound(remaining, poll) == 1
    ensures remaining > 0 ==> PollBound(remaining, poll) == 1 + PollBound(remaining - ProcessRegistry.Min(poll, remaining), poll)
  {
    if remaining > poll {
      var n := remaining - poll + poll - 1;
      assert remaining + poll - 1 == poll * (n / poll + 1) + n % poll;
      DivUnique(remaining + poll - 1, poll, n / poll + 1, n % poll);
    } else if remaining > 0 {
      DivUnique(remaining + poll - 1, poll, 1, remaining - 1);
    }
  }

  // ---------------------------------------------------------------- what a close comes to

  /** The graceful phase gives the process its time, unless the signal or a look fails. */
  lemma GraceGiven(w: World, p: Process, t: Times)
    requires t.poll > 0
    ensures var (b, gone) := Gentle(w, p, t);
            && w.log + [Sent(false, p.identity)] <= b.log
            && (gone ==> EndsLooking(b.log, p) && (LastSeen(b.log).Exited? || LastSeen(b.log).Mismatch?))
            && (!Head(w).signalOk ==> !gone && b.log == w.log + [Sent(false, p.identity)])
            && (!gone ==>
                  || !Head(w).signalOk || (EndsLooking(b.log, p) && LastSeen(b.log).Unseen?)
                  || b.clock >= w.clock + Head(w).elapsed + t.graceful)
  {
    hide Wait;
    var a := Signal(w, p, false);
    WaitEnds(a, p, a.clock + t.graceful, t.poll);
  }

  /**
   * The forced phase looks again: a process that is gone, or is another one, is not signalled; one that still matches
   * always is, and is reported as closed only when it is seen to be gone, and as failed only when the signal or a look
   * failed or its time is over.
   */
  lemma ForceDecides(w: World, p: Process, t: Times)
    requires t.poll > 0
    ensures var (b, r) := Hard(w, p, t);
            var looked := w.log + [Saw(p.identity, Seeing(w, p))];
            match Seeing(w, p)
            case Unseen => b.log == looked && r == Failed
            case Exited => b.log == looked && r == Gracefully
            case Mismatch => b.log == looked && r == IdentityMismatch
            case Match =>
              && looked + [Sent(true, p.identity)] <= b.log
              && (r == Forcibly || r == Failed)
              && (!Head(Observe(w, p)).signalOk ==> b.log == looked + [Sent(true, p.identity)])
              && (r == Forcibly <==> LastSeen(b.log).Exited? || LastSeen(b.log).Mismatch?)
              && (r == Failed ==>
                    || !Head(Observe(w, p)).signalOk || (EndsLooking(b.log, p) && LastSeen(b.log).Unseen?)
                    || b.clock >= w.clock + Head(w).elapsed + Head(Observe(w, p)).elapsed + t.forced)
  {
    hide Wait, Seeing;
    var b := Signal(Observe(w, p), p, true);
    WaitEnds(b, p, b.clock + t.forced, t.poll);
  }

  lemma LogCount(a: seq<Act>, b: seq<Act>, f: bool)
    requires a <= b
    ensures Signals(a, f) <= Signals(b, f)
    decreases |b|
  {
    if a != b {
      var n := |b| - 1;
      assert a <= b[..n];
      LogCount(a, b[..n], f);
    }
  }

  /** What the log of a close says about its result. */
  ghost predicate Decides(log: seq<Act>, r: Result) {
    if Signals(log, false) == 0 then
      |log| == 1 && log[0].Saw? && match log[0].seen
                                   case Exited => r == AlreadyExited
                                   case Mismatch => r == IdentityMismatch
                                   case Unseen => r == Failed
                                   case Match => false
    else if Signals(log, true) == 0 then
      log[|log| - 1].Saw? && match log[|log| - 1].seen
                             case Exited => r == Gracefully
                             case Mismatch => r == Gracefully || r == IdentityMismatch
                             case Unseen => r == Failed
                             case Match => false
    else r == if IsGone(log[|log| - 1]) then Forcibly else Failed
  }

  /**
   * Closing tells the truth and does not give up early: each look is what the adapter said; a process that matches at
   * first gets the graceful signal, and one that is not seen to be gone after it is looked at again and, if it still
   * matches, gets the forced one; and the log decides the result.
   */
  lemma CloseDecides(script: seq<Moment>, clock: int, p: Process, t: Times)
    requires t.poll > 0
    ensures var (w, r) := CloseProcess(World(clock, [], script), p, t);
            w.log != [] && Truthful(script, p, w) && Decides(w.log, r)
  {
    hide Signals, Looks, Wait, Gentle, Hard, Truthful, Seeing, PollBound, SignalsVerified;
    var first := World(clock, [], script);
    var a := Observe(first, p);
    FirstTruth(script, clock, p);
    TruthStep(script, p, first);
    EmptyLog(p);
    LogSnoc([], Saw(p.identity, Seeing(first, p)));
    CloseFacts(script, clock, p, t);
    if Seeing(first, p).Match? {
      GentleTruthful(script, a, p, t);
      GraceGiven(a, p, t);
      VerifiedSnoc([], Saw(p.identity, Seeing(first, p)), p);
      GentleFacts(a, p, t);
      var (b, gone) := Gentle(a, p, t);
      if !gone {
        HardTruthful(script, b, p, t);
        HardSignals(b, p, t);
      }
    }
  }

  lemma FirstTruth(script: seq<Moment>, clock: int, p: Process)
    ensures Truthful(script, p, World(clock, [], script))
  {}

  lemma HardSignals(w: World, p: Process, t: Times)
    requires t.poll > 0 && Signals(w.log, false) == 1 && Signals(w.log, true) == 0 && SignalsVerified(w.log, p)
    ensures var (b, r) := Hard(w, p, t); Decides(b.log, r) && b.log != []
  {
    hide Signals, Looks, Wait, Hard, Seeing, PollBound, SignalsVerified;
    ForceDecides(w, p, t);
    HardFacts(w, p, t);
    var looked := w.log + [Saw(p.identity, Seeing(w, p))];
    LogSnoc(w.log, Saw(p.identity, Seeing(w, p)));
    if Seeing(w, p).Match? {
      LogSnoc(looked, Sent(true, p.identity));
      LogCount(looked + [Sent(true, p.identity)], Hard(w, p, t).0.log, true);
    }
  }
}
