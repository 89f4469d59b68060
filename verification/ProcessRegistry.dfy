/** ManagedProcessRegistry: who is signalled, after which observation, and how long it waits. */
module ProcessRegistry {
  import opened Units

  // ---------------------------------------------------------------- processes and the adapter

  datatype Identity = Identity(pid: nat, startedAt: nat, path: Str)

  /** A registered process, with its path normalized. */
  datatype Process = Process(id: Str, identity: Identity)

  /** What inspecting the PID gives; a PID may be reused by another process at any time. */
  datatype Inspection = Nothing | Found(identity: Identity) | InspectFails

  /** One call to the adapter: how much time has passed before its answer, and the answer. */
  datatype Moment = Moment(elapsed: nat, inspection: Inspection, signalOk: bool)

  datatype Seen = Match | Exited | Mismatch | Unseen

  datatype Act = Saw(of: Identity, seen: Seen) | Sent(forced: bool, expected: Identity) | Slept

  datatype World = World(clock: int, log: seq<Act>, script: seq<Moment>)

  function Head(w: World): Moment {
    if w.script == [] then Moment(0, Nothing, true) else w.script[0]
  }

  function Rest(w: World): seq<Moment> { if w.script == [] then [] else w.script[1..] }

  /** observe. */
  function Seeing(w: World, p: Process): Seen {
    match Head(w).inspection
    case InspectFails => Unseen
    case Nothing => Exited
    case Found(i) => if i == p.identity then Match else Mismatch
  }

  function Observe(w: World, p: Process): World {
    World(w.clock + Head(w).elapsed, w.log + [Saw(p.identity, Seeing(w, p))], Rest(w))
  }

  function Signal(w: World, p: Process, forced: bool): World {
    World(w.clock + Head(w).elapsed, w.log + [Sent(forced, p.identity)], Rest(w))
  }

  /** Sleeping takes at least as long as asked. */
  function Sleep(w: World, duration: nat): World {
    World(w.clock + duration + Head(w).elapsed, w.log + [Slept], Rest(w))
  }

  function Min(a: int, b: int): int { if a < b then a else b }

  datatype Waited = Waited(world: World, gone: bool, threw: bool)

  /** waitUntilOriginalExited, from one poll to the next. */
  function Wait(w: World, p: Process, deadline: int, poll: nat): Waited
    requires poll > 0
    decreases if deadline > w.clock then deadline - w.clock else 0
  {
    var a := Observe(w, p);
    if Seeing(w, p).Unseen? then Waited(a, false, true)
    else if !Seeing(w, p).Match? then Waited(a, true, false)
    else
      var remaining := deadline - a.clock;
      if remaining <= 0 then Waited(a, false, false) else Wait(Sleep(a, Min(poll, remaining)), p, deadline, poll)
  }

  // ---------------------------------------------------------------- closing

  datatype Result = Gracefully | Forcibly | AlreadyExited | IdentityMismatch | Failed

  datatype Times = Times(graceful: nat, forced: nat, poll: nat)

  /** Whether the result deletes the entry. */
  predicate Removes(r: Result) { !r.Failed? }

  /** The graceful phase: its world, and whether the process was seen to be gone. Errors end the phase. */
  function Gentle(w: World, p: Process, t: Times): (World, bool)
    requires t.poll > 0
  {
    var a := Signal(w, p, false);
    if !Head(w).signalOk then (a, false)
    else
      var r := Wait(a, p, a.clock + t.graceful, t.poll);
      (r.world, r.gone)
  }

  /** The forced phase, after looking again. */
  function Hard(w: World, p: Process, t: Times): (World, Result)
    requires t.poll > 0
  {
    var a := Observe(w, p);
    match Seeing(w, p)
    case Unseen => (a, Failed)
    case Exited => (a, Gracefully)
    case Mismatch => (a, IdentityMismatch)
    case Match =>
      var b := Signal(a, p, true);
      if !Head(a).signalOk then (b, Failed)
      else
        var r := Wait(b, p, b.clock + t.forced, t.poll);
        (r.world, if r.gone then Forcibly else Failed)
  }

  /** closeRegistered of a registered process. */
  function CloseProcess(w: World, p: Process, t: Times): (World, Result)
    requires t.poll > 0
  {
    var a := Observe(w, p);
    match Seeing(w, p)
    case Unseen => (a, Failed)
    case Exited => (a, AlreadyExited)
    case Mismatch => (a, IdentityMismatch)
    case Match =>
      var (b, gone) := Gentle(a, p, t);
      if gone then (b, Gracefully) else Hard(b, p, t)
  }

  // ---------------------------------------------------------------- what a log shows

  /** Every signal goes to the expected identity, right after an observation that it is still the one. */
  ghost predicate SignalsVerified(log: seq<Act>, p: Process) {
    forall i :: 0 <= i < |log| && log[i].Sent? ==> i > 0 && log[i - 1] == Saw(p.identity, Match) && log[i].expected == p.identity
  }

  function Signals(log: seq<Act>, forced: bool): nat {
    if log == [] then 0
    else
      var last := log[|log| - 1];
      Signals(log[..|log| - 1], forced) + if last.Sent? && last.forced == forced then 1 else 0
  }

  function Looks(log: seq<Act>): nat {
    if log == [] then 0 else Looks(log[..|log| - 1]) + if log[|log| - 1].Saw? then 1 else 0
  }

  predicate IsGone(act: Act) { act.Saw? && (act.seen.Exited? || act.seen.Mismatch?) }

  /** The last thing that happened was seeing that the process is gone. */
  predicate EndsGone(log: seq<Act>) {
    log != [] && IsGone(log[|log| - 1])
  }

  lemma LogSnoc(log: seq<Act>, act: Act)
    ensures Looks(log + [act]) == Looks(log) + if act.Saw? then 1 else 0
    ensures forall f :: Signals(log + [act], f) == Signals(log, f) + if act.Sent? && act.forced == f then 1 else 0
  {
    assert (log + [act])[..|log|] == log;
  }

  lemma VerifiedSnoc(log: seq<Act>, act: Act, p: Process)
    requires SignalsVerified(log, p)
    requires act.Sent? ==> log != [] && log[|log| - 1] == Saw(p.identity, Match) && act.expected == p.identity
    ensures SignalsVerified(log + [act], p)
  {
    var all := log + [act];
    forall i | 0 <= i < |all| && all[i].Sent? ensures i > 0 && all[i - 1] == Saw(p.identity, Match) && all[i].expected == p.identity {
      if i < |log| { assert log[i] == all[i]; }
    }
  }

  // ---------------------------------------------------------------- waiting

  /** How often a wait of `timeout` polls at most: once, and once more for every started poll interval. */
  function PollBound(timeout: int, poll: nat): nat
    requires poll > 0
  {
    if timeout <= 0 then 1 else 1 + (timeout + poll - 1) / poll
  }

  lemma BoundStep(remaining: int, poll: nat)
    requires poll > 0 && remaining > 0
    ensures PollBound(remaining - Min(poll, remaining), poll) + 1 <= PollBound(remaining, poll)
  {
    var k := (remaining + poll - 1) / poll;
    assert remaining + poll - 1 == poll * k + (remaining + poll - 1) % poll;
    if remaining > poll {
      assert remaining - poll + poll - 1 == poll * (k - 1) + (remaining + poll - 1) % poll;
      DivUnique(remaining - poll + poll - 1, poll, k - 1, (remaining + poll - 1) % poll);
    } else {
      assert k >= 1 by { if k <= 0 { MulMonotone(poll, k); } }
    }
  }

  lemma MulMonotone(poll: nat, k: int)
    requires k <= 0
    ensures poll * k <= 0
  {}

  lemma DivUnique(n: int, d: nat, q: int, r: int)
    requires d > 0 && n == d * q + r && 0 <= r < d
    ensures n / d == q
  {
    var k := n / d;
    assert n == d * k + n % d;
    ProductGrows(d, k + 1, q);
    ProductGrows(d, q + 1, k);
    assert d * (k + 1) == d * k + d && d * (q + 1) == d * q + d;
  }

  lemma {:induction false} BoundGrows(a: int, b: int, poll: nat)
    requires poll > 0 && a <= b
    ensures PollBound(a, poll) <= PollBound(b, poll)
  {
    if a > 0 { DivGrows(a + poll - 1, b + poll - 1, poll); }
  }

  lemma DivGrows(a: int, b: int, d: nat)
    requires d > 0 && a <= b
    ensures a / d <= b / d
  {
    if a / d > b / d {
      assert a >= d * (a / d) && b == d * (b / d) + b % d;
      ProductGrows(d, b / d + 1, a / d);
    }
  }

  lemma ProductGrows(d: nat, x: int, y: int)
    ensures x <= y ==> d * x <= d * y
  {}

  /** A wait only looks and sleeps, a bounded number of times, and reports the process gone only after seeing so. */
  lemma {:induction false} WaitFacts(w: World, p: Process, deadline: int, poll: nat)
    requires poll > 0 && SignalsVerified(w.log, p)
    ensures var r := Wait(w, p, deadline, poll);
            && SignalsVerified(r.world.log, p)
            && (forall f :: Signals(r.world.log, f) == Signals(w.log, f))
            && Looks(r.world.log) <= Looks(w.log) + PollBound(deadline - w.clock, poll)
            && (r.gone <==> EndsGone(r.world.log))
    decreases if deadline > w.clock then deadline - w.clock else 0
  {
    hide Signals, Looks, SignalsVerified, PollBound;
    var a := Observe(w, p);
    LogSnoc(w.log, Saw(p.identity, Seeing(w, p)));
    VerifiedSnoc(w.log, Saw(p.identity, Seeing(w, p)), p);
    BoundOne(deadline - w.clock, poll);
    var remaining := deadline - a.clock;
    if Seeing(w, p).Match? && remaining > 0 {
      var b := Sleep(a, Min(poll, remaining));
      LogSnoc(a.log, Slept);
      VerifiedSnoc(a.log, Slept, p);
      WaitFacts(b, p, deadline, poll);
      OneTurn(w.clock, a.clock, b.clock, deadline, poll);
    }
  }

  /** A look and a sleep leave room for one look less. */
  lemma OneTurn(before: int, looked: int, slept: int, deadline: int, poll: nat)
    requires poll > 0 && before <= looked < deadline && slept >= looked + Min(poll, deadline - looked)
    ensures PollBound(deadline - slept, poll) + 1 <= PollBound(deadline - before, poll)
  {
    hide PollBound;
    var remaining := deadline - looked;
    BoundGrows(deadline - slept, remaining - Min(poll, remaining), poll);
    BoundStep(remaining, poll);
    BoundGrows(remaining, deadline - before, poll);
  }

  lemma BoundOne(timeout: int, poll: nat)
    requires poll > 0
    ensures PollBound(timeout, poll) >= 1
  {
    if timeout > 0 { DivGrows(0, timeout + poll - 1, poll); }
  }

  // ---------------------------------------------------------------- signal safety

  lemma GentleFacts(w: World, p: Process, t: Times)
    requires t.poll > 0 && SignalsVerified(w.log, p) && w.log != [] && w.log[|w.log| - 1] == Saw(p.identity, Match)
    ensures var (b, gone) := Gentle(w, p, t);
            && SignalsVerified(b.log, p)
            && Signals(b.log, false) == Signals(w.log, false) + 1 && Signals(b.log, true) == Signals(w.log, true)
            && Looks(b.log) <= Looks(w.log) + PollBound(t.graceful, t.poll)
            && (gone <==> EndsGone(b.log))
  {
    hide Signals, Looks, SignalsVerified, PollBound, Wait;
    var a := Signal(w, p, false);
    LogSnoc(w.log, Sent(false, p.identity));
    VerifiedSnoc(w.log, Sent(false, p.identity), p);
    WaitFacts(a, p, a.clock + t.graceful, t.poll);
    BoundOne(t.graceful, t.poll);
  }

  lemma HardFacts(w: World, p: Process, t: Times)
    requires t.poll > 0 && SignalsVerified(w.log, p)
    ensures var (b, r) := Hard(w, p, t);
            && SignalsVerified(b.log, p)
            && Signals(b.log, false) == Signals(w.log, false) && Signals(b.log, true) <= Signals(w.log, true) + 1
            && (r.Forcibly? ==> Signals(b.log, true) == Signals(w.log, true) + 1)
            && Looks(b.log) <= Looks(w.log) + 1 + PollBound(t.forced, t.poll)
            && !r.AlreadyExited? && (!r.Failed? <==> EndsGone(b.log))
  {
    hide Signals, Looks, SignalsVerified, PollBound, Wait;
    var a := Observe(w, p);
    LogSnoc(w.log, Saw(p.identity, Seeing(w, p)));
    VerifiedSnoc(w.log, Saw(p.identity, Seeing(w, p)), p);
    BoundOne(t.forced, t.poll);
    if Seeing(w, p).Match? {
      var b := Signal(a, p, true);
      LogSnoc(a.log, Sent(true, p.identity));
      VerifiedSnoc(a.log, Sent(true, p.identity), p);
      WaitFacts(b, p, b.clock + t.forced, t.poll);
    }
  }

  lemma CloseFacts(script: seq<Moment>, clock: int, p: Process, t: Times)
    requires t.poll > 0
    ensures var (w, r) := CloseProcess(World(clock, [], script), p, t);
            && SignalsVerified(w.log, p)
            && Signals(w.log, false) <= 1 && Signals(w.log, true) <= Signals(w.log, false)
            && (r.Gracefully? ==> Signals(w.log, false) == 1)
            && (r.Forcibly? ==> Signals(w.log, true) == 1)
            && (r.AlreadyExited? ==> Signals(w.log, false) == 0)
            && (Removes(r) <==> EndsGone(w.log))
            && Looks(w.log) <= 2 + PollBound(t.graceful, t.poll) + PollBound(t.forced, t.poll)
  {
    hide Signals, Looks, SignalsVerified, PollBound, Gentle, Hard;
    var w := World(clock, [], script);
    var a := Observe(w, p);
    EmptyLog(p);
    LogSnoc([], Saw(p.identity, Seeing(w, p)));
    VerifiedSnoc([], Saw(p.identity, Seeing(w, p)), p);
    BoundOne(t.graceful, t.poll);
    BoundOne(t.forced, t.poll);
    if Seeing(w, p).Match? {
      GentleFacts(a, p, t);
      HardFacts(Gentle(a, p, t).0, p, t);
    }
  }

  lemma EmptyLog(p: Process)
    ensures SignalsVerified([], p) && Looks([]) == 0 && forall f :: Signals([], f) == 0
  {}

  // ---------------------------------------------------------------- the registry's entries

  datatype CloseOutcome = NotRegistered | ClosedWith(result: Result)

  /** close of an id, on the entries. */
  function CloseEntry(w: World, entries: map<Str, Process>, id: Str, t: Times): (World, map<Str, Process>, CloseOutcome)
    requires t.poll > 0
  {
    if id !in entries then (w, entries, NotRegistered)
    else
      var (a, r) := CloseProcess(w, entries[id], t);
      (a, if Removes(r) then entries - {id} else entries, ClosedWith(r))
  }

  /**
   * One close sends at most one graceful and one forced signal, each to the registered identity and right after an
   * observation that it is still that process; a forced signal only after a graceful one. The entry is dropped if and
   * only if the last thing that happened was seeing that the process is gone; without a signal it had already exited or
   * changed identity. No other entry changes, and it looks at the process a bounded number of times.
   */
  lemma SignalSafety(script: seq<Moment>, clock: int, entries: map<Str, Process>, id: Str, t: Times)
    requires t.poll > 0 && id in entries
    ensures var (w, es, o) := CloseEntry(World(clock, [], script), entries, id, t);
            && o.ClosedWith? && SignalsVerified(w.log, entries[id])
            && Signals(w.log, false) <= 1 && Signals(w.log, true) <= Signals(w.log, false)
            && (o.result.Gracefully? ==> Signals(w.log, false) == 1)
            && (o.result.Forcibly? ==> Signals(w.log, true) == 1)
            && (o.result.AlreadyExited? ==> Signals(w.log, false) == 0)
            && (o.result.Failed? <==> !EndsGone(w.log))
            && es == (if EndsGone(w.log) then entries - {id} else entries)
            && Looks(w.log) <= 2 + PollBound(t.graceful, t.poll) + PollBound(t.forced, t.poll)
  {
    hide CloseProcess, SignalsVerified, Signals, Looks, PollBound, EndsGone;
    CloseFacts(script, clock, entries[id], t);
  }

  /** Looking at the listed entries one after another; those seen to be gone are dropped. */
  function Prune(w: World, entries: map<Str, Process>, ids: seq<Str>): (World, map<Str, Process>) {
    if ids == [] then (w, entries)
    else
      var n := |ids| - 1;
      var (a, es) := Prune(w, entries, ids[..n]);
      if ids[n] !in es then (a, es)
      else (Observe(a, es[ids[n]]), if Seeing(a, es[ids[n]]) in {Exited, Mismatch} then es - {ids[n]} else es)
  }

  /** Since position `n` of the log the process was looked at, and seen to be gone or not. */
  ghost predicate SeenSince(log: seq<Act>, n: nat, p: Process, gone: bool) {
    exists j :: n <= j < |log| && log[j].Saw? && log[j].of == p.identity && IsGone(log[j]) == gone
  }

  lemma SeenSnoc(log: seq<Act>, n: nat, p: Process, gone: bool, act: Act)
    requires n <= |log|
    ensures SeenSince(log, n, p, gone) ==> SeenSince(log + [act], n, p, gone)
    ensures act.Saw? && act.of == p.identity && IsGone(act) == gone ==> SeenSince(log + [act], n, p, gone)
  {
    var all := log + [act];
    assert all[|log|] == act;
    if SeenSince(log, n, p, gone) {
      var j :| n <= j < |log| && log[j].Saw? && log[j].of == p.identity && IsGone(log[j]) == gone;
      assert all[j] == log[j];
    }
  }

  /**
   * Pruning looks once at most at each entry and signals nothing. An entry that is dropped was seen to be gone, a listed
   * one that stays was seen not to be, and the others stay as they were.
   */
  lemma {:induction false} PruneOnlyLooks(w: World, entries: map<Str, Process>, ids: seq<Str>)
    ensures var (a, es) := Prune(w, entries, ids);
            && w.log <= a.log
            && (forall f :: Signals(a.log, f) == Signals(w.log, f))
            && Looks(a.log) <= Looks(w.log) + |ids|
            && (forall k <- es :: k in entries && es[k] == entries[k])
            && (forall k <- entries :: k !in es ==> k in ids && SeenSince(a.log, |w.log|, entries[k], true))
            && (forall k <- es :: k in ids ==> SeenSince(a.log, |w.log|, es[k], false))
  {
    hide Signals, Looks, Seeing, SeenSince;
    if ids != [] {
      var n := |ids| - 1;
      PruneOnlyLooks(w, entries, ids[..n]);
      var (a, es) := Prune(w, entries, ids[..n]);
      assert ids == ids[..n] + [ids[n]];
      if ids[n] in es {
        var p := es[ids[n]];
        var act := Saw(p.identity, Seeing(a, p));
        LogSnoc(a.log, act);
        forall k | k in entries ensures SeenSince(a.log, |w.log|, entries[k], true) ==> SeenSince(a.log + [act], |w.log|, entries[k], true) {
          SeenSnoc(a.log, |w.log|, entries[k], true, act);
        }
        forall k | k in entries ensures SeenSince(a.log, |w.log|, entries[k], false) ==> SeenSince(a.log + [act], |w.log|, entries[k], false) {
          SeenSnoc(a.log, |w.log|, entries[k], false, act);
        }
        SeenSnoc(a.log, |w.log|, p, IsGone(act), act);
      }
    }
  }

  // ---------------------------------------------------------------- concurrent closes

  /** Operations in progress: `closing` is the registry's map, `running` what has not settled. */
  datatype Closes = Closes(closing: map<Str, nat>, running: map<nat, Str>, next: nat)

  /** close: the operation in progress, or a new one. */
  function Join(c: Closes, id: Str): (Closes, nat) {
    if id in c.closing then (c, c.closing[id])
    else (Closes(c.closing[id := c.next], c.running[c.next := id], c.next + 1), c.next)
  }

  function Settle(c: Closes, op: nat): Closes
    requires op in c.running
  {
    var id := c.running[op];
    Closes(if id in c.closing && c.closing[id] == op then c.closing - {id} else c.closing, c.running - {op}, c.next)
  }

  predicate ClosesFit(c: Closes) {
    && (forall id <- c.closing :: c.closing[id] in c.running && c.running[c.closing[id]] == id)
    && (forall op <- c.running :: op < c.next && c.running[op] in c.closing && c.closing[c.running[op]] == op)
  }

  datatype CloseStep = Called(id: Str) | Settled(op: nat)

  predicate IsCloses(c: Closes, es: seq<CloseStep>)
    decreases |es|
  {
    es == [] || match es[0]
                case Called(id) => IsCloses(Join(c, id).0, es[1..])
                case Settled(op) => op in c.running && IsCloses(Settle(c, op), es[1..])
  }

  function RunCloses(c: Closes, es: seq<CloseStep>): Closes
    requires IsCloses(c, es)
    decreases |es|
  {
    if es == [] then c
    else match es[0]
      case Called(id) => RunCloses(Join(c, id).0, es[1..])
      case Settled(op) => RunCloses(Settle(c, op), es[1..])
  }

  lemma {:induction false} ClosesInv(c: Closes, es: seq<CloseStep>)
    requires ClosesFit(c) && IsCloses(c, es)
    ensures ClosesFit(RunCloses(c, es))
    decreases |es|
  {
    if es != [] {
      match es[0] {
        case Called(id) => ClosesInv(Join(c, id).0, es[1..]);
        case Settled(op) => ClosesInv(Settle(c, op), es[1..]);
      }
    }
  }

  /** Concurrent closes of one id share one operation: while it runs every call joins it, and there is never a second. */
  lemma OneOperation(es: seq<CloseStep>, op: nat, other: nat)
    requires IsCloses(Closes(map[], map[], 0), es)
    requires var c := RunCloses(Closes(map[], map[], 0), es); op in c.running
    ensures var c := RunCloses(Closes(map[], map[], 0), es);
            && Join(c, c.running[op]) == (c, op)
            && (other in c.running && c.running[other] == c.running[op] ==> other == op)
            && Join(Settle(c, op), c.running[op]).1 == c.next
  {
    hide RunCloses, IsCloses;
    ClosesInv(Closes(map[], map[], 0), es);
  }

  // ---------------------------------------------------------------- the object

  class Registry {
    const times: Times
    var world: World
    var entries: map<Str, Process>

    constructor (times: Times, world: World)
      ensures this.times == times && this.world == world && entries == map[]
    {
      this.times, this.world, entries := times, world, map[];
    }

    method Register(p: Process)
      modifies this`entries
      ensures entries == old(entries)[p.id := p]
    {
      entries := entries[p.id := p];
    }

    method Look(p: Process) returns (seen: Seen)
      modifies this`world
      ensures world == Observe(old(world), p) && seen == Seeing(old(world), p)
    {
      seen := Seeing(world, p);
      world := Observe(world, p);
    }

    method Send(p: Process, forced: bool) returns (ok: bool)
      modifies this`world
      ensures world == Signal(old(world), p, forced) && ok == Head(old(world)).signalOk
    {
      ok := Head(world).signalOk;
      world := Signal(world, p, forced);
    }

    method WaitUntilOriginalExited(p: Process, timeout: nat) returns (gone: bool, threw: bool)
      requires times.poll > 0
      modifies this`world
      ensures Waited(world, gone, threw) == Wait(old(world), p, old(world).clock + timeout, times.poll)
    {
      var deadline := world.clock + timeout;
      while true
        invariant Wait(old(world), p, deadline, times.poll) == Wait(world, p, deadline, times.poll)
        decreases if deadline > world.clock then deadline - world.clock else 0
      {
        var seen := Look(p);
        if seen.Unseen? { return false, true; }
        if !seen.Match? { return true, false; }
        var remaining := deadline - world.clock;
        if remaining <= 0 { return false, false; }
        world := Sleep(world, Min(times.poll, remaining));
      }
      assert false;
    }

    method CloseRegistered(id: Str) returns (o: CloseOutcome)
      requires times.poll > 0
      modifies this`world, this`entries
      ensures (world, entries, o) == CloseEntry(old(world), old(entries), id, times)
    {
      hide Wait, Observe, Signal;
      if id !in entries { return NotRegistered; }
      var p := entries[id];
      var initial := Look(p);
      if initial.Unseen? { return ClosedWith(Failed); }
      if !initial.Match? {
        entries := entries - {id};
        return ClosedWith(if initial.Exited? then AlreadyExited else IdentityMismatch);
      }
      var sent := Send(p, false);
      if sent {
        var gone, _ := WaitUntilOriginalExited(p, times.graceful);
        if gone {
          entries := entries - {id};
          return ClosedWith(Gracefully);
        }
      }
      var beforeForce := Look(p);
      if beforeForce.Unseen? { return ClosedWith(Failed); }
      if !beforeForce.Match? {
        entries := entries - {id};
        return ClosedWith(if beforeForce.Exited? then Gracefully else IdentityMismatch);
      }
      var forced := Send(p, true);
      if !forced { return ClosedWith(Failed); }
      var gone, _ := WaitUntilOriginalExited(p, times.forced);
      if gone {
        entries := entries - {id};
        return ClosedWith(Forcibly);
      }
      return ClosedWith(Failed);
    }

    /** pruneStale over the listed ids. */
    method PruneStale(ids: seq<Str>)
      modifies this`world, this`entries
      ensures (world, entries) == Prune(old(world), old(entries), ids)
    {
      hide Observe;
      var i := 0;
      while i < |ids|
        invariant i <= |ids|
        invariant (world, entries) == Prune(old(world), old(entries), ids[..i])
      {
        assert ids[..i + 1][..i] == ids[..i];
        if ids[i] in entries {
          var seen := Look(entries[ids[i]]);
          if seen.Exited? || seen.Mismatch? { entries := entries - {ids[i]}; }
        }
        i := i + 1;
      }
      assert ids[..i] == ids;
    }
  }
}
