/** Token costs: exact splits, conservation over any logs, and a single pass that equals filtering and folding. */
module TokenCost {
  import opened Units

  // ---------------------------------------------------------------- logs and prices

  /** A reported count: it may be missing, not finite, zero, negative or fractional. */
  datatype Count = Missing | NotFinite | Reported(x: real)

  /** tokens. */
  function Tokens(c: Count): (t: real)
    ensures t >= 0.0
  {
    if c.Reported? && c.x > 0.0 then c.x else 0.0
  }

  datatype Price = Price(
    claude: bool, input: real, cachedInput: real, cacheWrite: real, cacheWrite1h: Option<real>, output: real,
    threshold: Option<real>, inclusive: bool, longInput: Option<real>, longOutput: Option<real>)

  datatype CreditPrice = CreditPrice(input: real, cachedInput: real, output: real)

  /** A request log, with the prices its model resolves to. */
  datatype Log = Log(
    timestamp: int, account: Str, input: Count, output: Count, cachedInput: Count, cacheWrite: Count, cacheWrite1h: Count,
    cacheWrite5m: Count, accounting2: bool, model: Str, price: Option<Price>, credit: Option<CreditPrice>)

  const MILLION: real := 1000000.0

  function Min(a: real, b: real): real { if a < b then a else b }
  function Max(a: real, b: real): real { if a < b then b else a }
  function Or(o: Option<real>, d: real): real { if o.Some? then o.value else d }

  // ---------------------------------------------------------------- splitting one log's input

  datatype Split = Split(standard: real, cached: real, write: real, write1h: real, write5m: real, writeOther: real)

  function SplitInput(log: Log): Split {
    var input := Tokens(log.input);
    var cached := Min(input, Tokens(log.cachedInput));
    var write := Min(Max(0.0, input - cached), Tokens(log.cacheWrite));
    var write1h := Min(write, Tokens(log.cacheWrite1h));
    var write5m := Min(Max(0.0, write - write1h), Tokens(log.cacheWrite5m));
    Split(Max(0.0, input - cached - write), cached, write, write1h, write5m, Max(0.0, write - write1h - write5m))
  }

  /** For any reported counts the input splits exactly, no part is negative, and no part exceeds its report. */
  lemma SplitExact(log: Log)
    ensures var s := SplitInput(log);
            && s.standard + s.cached + s.write == Tokens(log.input)
            && s.write1h + s.write5m + s.writeOther == s.write
            && s.standard >= 0.0 && s.cached >= 0.0 && s.write1h >= 0.0 && s.write5m >= 0.0 && s.writeOther >= 0.0
            && s.cached <= Tokens(log.cachedInput) && s.write <= Tokens(log.cacheWrite)
  {}

  // ---------------------------------------------------------------- accumulating

  datatype Breakdown = Breakdown(
    total: real, input: real, output: real, standard: real, cached: real, write: real, priced: real, unpriced: real,
    inputCost: real, cachedCost: real, writeCost: real, outputCost: real, totalCost: real,
    pricedRequests: nat, unpricedRequests: nat, longRequests: nat, unknown: set<Str>)

  const EMPTY: Breakdown :=
    Breakdown(0.0, 0.0, 0.0, 0.0, 0.0, 0.0, 0.0, 0.0, 0.0, 0.0, 0.0, 0.0, 0.0, 0, 0, 0, {})

  predicate Counted(log: Log) { Tokens(log.input) + Tokens(log.output) != 0.0 }

  /** Whether the log can be priced: cached rows of the old accounting of one vendor cannot. */
  predicate IsPriced(log: Log) {
    log.price.Some?
    && !(log.price.value.claude && !log.accounting2 && (Tokens(log.cachedInput) > 0.0 || Tokens(log.cacheWrite) > 0.0))
  }

  predicate IsLong(log: Log, p: Price) {
    p.threshold.Some?
    && if p.inclusive then Tokens(log.input) >= p.threshold.value else Tokens(log.input) > p.threshold.value
  }

  datatype Costs = Costs(standard: real, cached: real, write: real, output: real)

  function CostsOf(log: Log, p: Price): Costs {
    var s := SplitInput(log);
    var inputBy := if IsLong(log, p) then Or(p.longInput, 1.0) else 1.0;
    var outputBy := if IsLong(log, p) then Or(p.longOutput, 1.0) else 1.0;
    Costs(s.standard / MILLION * p.input * inputBy,
          s.cached / MILLION * p.cachedInput * inputBy,
          ((s.write5m + s.writeOther) / MILLION * p.cacheWrite
           + s.write1h / MILLION * Or(p.cacheWrite1h, p.cacheWrite)) * inputBy,
          Tokens(log.output) / MILLION * p.output * outputBy)
  }

  /** accumulateOpenAiTokenCost, as it updates the accumulator. */
  method Accumulate(b: Breakdown, log: Log) returns (r: Breakdown)
    ensures r == Sum(b, Share(log))
  {
    hide SplitInput, CostsOf;
    r := b;
    var input, output := Tokens(log.input), Tokens(log.output);
    var total := input + output;
    SumNothing(b);
    if total == 0.0 { return; }
    r := r.(total := r.total + total, input := r.input + input, output := r.output + output);
    if !IsPriced(log) {
      r := r.(unpriced := r.unpriced + total, unpricedRequests := r.unpricedRequests + 1, unknown := r.unknown + {log.model});
      return;
    }
    var s, c := SplitInput(log), CostsOf(log, log.price.value);
    r := r.(standard := r.standard + s.standard, cached := r.cached + s.cached, write := r.write + s.write,
            priced := r.priced + total, inputCost := r.inputCost + (c.standard + c.write), writeCost := r.writeCost + c.write,
            cachedCost := r.cachedCost + c.cached, outputCost := r.outputCost + c.output,
            totalCost := r.totalCost + (c.standard + c.write + c.cached + c.output), pricedRequests := r.pricedRequests + 1);
    if IsLong(log, log.price.value) { r := r.(longRequests := r.longRequests + 1); }
  }

  /** What one log adds. */
  function Share(log: Log): Breakdown {
    var input, output := Tokens(log.input), Tokens(log.output);
    if !Counted(log) then EMPTY
    else
      var counted := EMPTY.(total := input + output, input := input, output := output);
      if !IsPriced(log) then counted.(unpriced := input + output, unpricedRequests := 1, unknown := {log.model})
      else
        var s, c := SplitInput(log), CostsOf(log, log.price.value);
        counted.(standard := s.standard, cached := s.cached, write := s.write, priced := input + output,
                 inputCost := c.standard + c.write, writeCost := c.write, cachedCost := c.cached, outputCost := c.output,
                 totalCost := c.standard + c.write + c.cached + c.output, pricedRequests := 1,
                 longRequests := if IsLong(log, log.price.value) then 1 else 0)
  }

  function Sum(a: Breakdown, b: Breakdown): Breakdown {
    Breakdown(a.total + b.total, a.input + b.input, a.output + b.output, a.standard + b.standard, a.cached + b.cached,
              a.write + b.write, a.priced + b.priced, a.unpriced + b.unpriced, a.inputCost + b.inputCost,
              a.cachedCost + b.cachedCost, a.writeCost + b.writeCost, a.outputCost + b.outputCost, a.totalCost + b.totalCost,
              a.pricedRequests + b.pricedRequests, a.unpricedRequests + b.unpricedRequests, a.longRequests + b.longRequests,
              a.unknown + b.unknown)
  }

  lemma SumNothing(a: Breakdown)
    ensures Sum(a, EMPTY) == a && Sum(EMPTY, a) == a
  {}

  lemma SumLaws(a: Breakdown, b: Breakdown, c: Breakdown)
    ensures Sum(a, b) == Sum(b, a) && Sum(Sum(a, b), c) == Sum(a, Sum(b, c))
  {}

  /** estimateOpenAiTokenCosts. */
  function Estimate(logs: seq<Log>): Breakdown {
    if logs == [] then EMPTY else Sum(Estimate(logs[..|logs| - 1]), Share(logs[|logs| - 1]))
  }

  lemma EstimateSnoc(logs: seq<Log>, log: Log)
    ensures Estimate(logs + [log]) == Sum(Estimate(logs), Share(log))
  {
    hide Sum, Share;
    assert (logs + [log])[..|logs|] == logs;
  }

  /** The estimate of a log list is the sum of the estimates of its parts. */
  lemma {:induction false} EstimateJoin(a: seq<Log>, b: seq<Log>)
    ensures Estimate(a + b) == Sum(Estimate(a), Estimate(b))
  {
    hide Sum, Share;
    if b == [] {
      assert a + b == a;
      SumNothing(Estimate(a));
    } else {
      var n := |b| - 1;
      EstimateJoin(a, b[..n]);
      assert a + b == (a + b[..n]) + [b[n]];
      EstimateSnoc(a + b[..n], b[n]);
      SumLaws(Estimate(a), Estimate(b[..n]), Share(b[n]));
    }
  }

  // ---------------------------------------------------------------- conservation

  /** Everything that always balances in a breakdown. */
  predicate Balanced(b: Breakdown) {
    && b.total == b.input + b.output && b.total == b.priced + b.unpriced
    && b.totalCost == b.inputCost + b.cachedCost + b.outputCost
    && b.standard + b.cached + b.write <= b.input
    && b.standard >= 0.0 && b.cached >= 0.0 && b.write >= 0.0 && b.unpriced >= 0.0 && b.priced >= 0.0
    && (b.unpriced == 0.0 ==> b.standard + b.cached + b.write == b.input)
    && b.longRequests <= b.pricedRequests
    && (b.unpriced > 0.0 <==> b.unpricedRequests > 0)
    && (b.unpriced > 0.0 <==> b.unknown != {})
  }

  lemma ShareBalanced(log: Log)
    ensures Balanced(Share(log))
  {
    hide SplitInput, CostsOf;
    SplitExact(log);
    assert log.model in {log.model};
  }

  lemma SumBalanced(a: Breakdown, b: Breakdown)
    requires Balanced(a) && Balanced(b)
    ensures Balanced(Sum(a, b))
  {
    assert a.unknown + b.unknown == {} <==> a.unknown == {} && b.unknown == {};
  }

  /**
   * Over any logs: total tokens are input plus output, and priced plus unpriced; the total cost is input plus cached plus
   * output cost; the three kinds of input are part of the input, and all of it if nothing is unpriced; and there are
   * unpriced tokens exactly when a request is counted as unpriced, and exactly when an unknown model is named.
   */
  lemma {:induction false} Conservation(logs: seq<Log>)
    ensures Balanced(Estimate(logs))
  {
    hide Balanced, Sum, Share;
    if logs == [] {
      assert Balanced(EMPTY) by { EmptyBalanced(); }
    } else {
      Conservation(logs[..|logs| - 1]);
      ShareBalanced(logs[|logs| - 1]);
      SumBalanced(Estimate(logs[..|logs| - 1]), Share(logs[|logs| - 1]));
    }
  }

  lemma EmptyBalanced()
    ensures Balanced(EMPTY)
  {}

  /** The input of the priced logs. */
  function PricedInput(logs: seq<Log>): real {
    if logs == [] then 0.0
    else
      var last := logs[|logs| - 1];
      PricedInput(logs[..|logs| - 1]) + if Counted(last) && IsPriced(last) then Tokens(last.input) else 0.0
  }

  /** The three kinds of input add up to exactly the input of the priced logs. */
  lemma {:induction false} PricedInputSplits(logs: seq<Log>)
    ensures var e := Estimate(logs); e.standard + e.cached + e.write == PricedInput(logs)
  {
    hide SplitInput, CostsOf;
    if logs != [] {
      PricedInputSplits(logs[..|logs| - 1]);
      SplitExact(logs[|logs| - 1]);
    }
  }

  // ---------------------------------------------------------------- every token is charged once

  /** A price that charges every kind of token `rate`, and nothing more for long contexts. */
  predicate IsFlat(p: Price, rate: real) {
    && p.input == rate && p.cachedInput == rate && p.cacheWrite == rate && Or(p.cacheWrite1h, p.cacheWrite) == rate
    && p.output == rate && Or(p.longInput, 1.0) == 1.0 && Or(p.longOutput, 1.0) == 1.0
  }

  lemma Spread(a: real, b: real, c: real, rate: real)
    ensures a / MILLION * rate + b / MILLION * rate + c / MILLION * rate == (a + b + c) / MILLION * rate
  {
    assert a / MILLION + b / MILLION + c / MILLION == (a + b + c) / MILLION;
  }

  lemma Once(x: real, p: real, times: real, rate: real)
    requires p == rate && times == 1.0
    ensures x / MILLION * p * times == x / MILLION * rate
  {}

  lemma WriteOnce(a: real, b: real, p: real, q: real, times: real, rate: real)
    requires p == rate && q == rate && times == 1.0
    ensures (a / MILLION * p + b / MILLION * q) * times == (a + b) / MILLION * rate
  {
    Spread(a, b, 0.0, rate);
  }

  lemma FlatCosts(log: Log, p: Price, rate: real)
    requires IsFlat(p, rate)
    ensures var s := SplitInput(log);
            CostsOf(log, p) == Costs(s.standard / MILLION * rate, s.cached / MILLION * rate,
                                     (s.write5m + s.writeOther + s.write1h) / MILLION * rate, Tokens(log.output) / MILLION * rate)
  {
    hide SplitInput, IsLong, Tokens;
    var s := SplitInput(log);
    var inputBy := if IsLong(log, p) then Or(p.longInput, 1.0) else 1.0;
    var outputBy := if IsLong(log, p) then Or(p.longOutput, 1.0) else 1.0;
    Once(s.standard, p.input, inputBy, rate);
    Once(s.cached, p.cachedInput, inputBy, rate);
    WriteOnce(s.write5m + s.writeOther, s.write1h, p.cacheWrite, Or(p.cacheWrite1h, p.cacheWrite), inputBy, rate);
    Once(Tokens(log.output), p.output, outputBy, rate);
  }

  lemma FlatShare(log: Log, rate: real)
    requires log.price.Some? ==> IsFlat(log.price.value, rate)
    ensures Share(log).totalCost == Share(log).priced / MILLION * rate
  {
    hide SplitInput, CostsOf, IsFlat;
    if Counted(log) && IsPriced(log) {
      var s := SplitInput(log);
      FlatCosts(log, log.price.value, rate);
      SplitExact(log);
      Spread(s.standard, s.write, s.cached, rate);
      Spread(s.standard + s.write + s.cached, Tokens(log.output), 0.0, rate);
    }
  }

  /** At a flat rate the cost of any logs is their priced tokens at that rate: no token is charged twice or missed. */
  lemma {:induction false} FlatRate(logs: seq<Log>, rate: real)
    requires forall log <- logs :: log.price.Some? ==> IsFlat(log.price.value, rate)
    ensures Estimate(logs).totalCost == Estimate(logs).priced / MILLION * rate
  {
    hide Share, IsFlat;
    if logs != [] {
      var n := |logs| - 1;
      FlatRate(logs[..n], rate);
      assert logs[n] in logs;
      FlatShare(logs[n], rate);
      Spread(Estimate(logs[..n]).priced, Share(logs[n]).priced, 0.0, rate);
    }
  }

  // ---------------------------------------------------------------- filters

  function Keep(logs: seq<Log>, f: Log -> bool): seq<Log> {
    if logs == [] then []
    else Keep(logs[..|logs| - 1], f) + if f(logs[|logs| - 1]) then [logs[|logs| - 1]] else []
  }

  lemma KeepSnoc(logs: seq<Log>, log: Log, f: Log -> bool)
    ensures Keep(logs + [log], f) == Keep(logs, f) + if f(log) then [log] else []
  {
    assert (logs + [log])[..|logs|] == logs;
  }

  lemma KeptEstimate(logs: seq<Log>, log: Log, f: Log -> bool)
    ensures Estimate(Keep(logs + [log], f)) == if f(log) then Sum(Estimate(Keep(logs, f)), Share(log)) else Estimate(Keep(logs, f))
  {
    hide Sum, Share, Estimate;
    KeepSnoc(logs, log, f);
    if f(log) { EstimateSnoc(Keep(logs, f), log); } else { assert Keep(logs, f) + [] == Keep(logs, f); }
  }

  /** Counting each log of a union once: the union and the overlap together are the two parts together. */
  lemma {:induction false} UnionOnce(logs: seq<Log>, f: Log -> bool, g: Log -> bool)
    ensures Sum(Estimate(Keep(logs, x => f(x) || g(x))), Estimate(Keep(logs, x => f(x) && g(x))))
         == Sum(Estimate(Keep(logs, f)), Estimate(Keep(logs, g)))
  {
    var either, both := (x: Log) => f(x) || g(x), (x: Log) => f(x) && g(x);
    hide Sum, Share, Estimate, Keep;
    if logs == [] {
      KeepNothing(f);
      KeepNothing(g);
      KeepNothing(either);
      KeepNothing(both);
    } else {
      var n := |logs| - 1;
      var init, last := logs[..n], logs[n];
      assert logs == init + [last];
      UnionOnce(init, f, g);
      KeptEstimate(init, last, f);
      KeptEstimate(init, last, g);
      KeptEstimate(init, last, either);
      KeptEstimate(init, last, both);
      Rearrange(Estimate(Keep(init, either)), Estimate(Keep(init, both)), Estimate(Keep(init, f)), Estimate(Keep(init, g)), Share(last));
    }
  }

  lemma KeepNothing(f: Log -> bool)
    ensures Keep([], f) == []
  {}

  lemma Rearrange(u: Breakdown, i: Breakdown, a: Breakdown, b: Breakdown, s: Breakdown)
    requires Sum(u, i) == Sum(a, b)
    ensures Sum(Sum(u, s), i) == Sum(Sum(a, s), b) && Sum(Sum(u, s), i) == Sum(a, Sum(b, s))
    ensures Sum(Sum(u, s), Sum(i, s)) == Sum(Sum(a, s), Sum(b, s))
  {
    SumLaws(u, s, i);
    SumLaws(u, i, s);
    SumLaws(a, s, b);
    SumLaws(a, b, s);
    SumLaws(s, i, s);
    SumLaws(s, b, s);
    SumLaws(b, s, s);
    SumLaws(i, s, s);
    SumLaws(Sum(u, s), i, s);
    SumLaws(Sum(a, s), b, s);
    SumLaws(u, Sum(s, i), s);
    SumLaws(a, Sum(s, b), s);
  }

  // ---------------------------------------------------------------- credits

  datatype Credits = Credits(total: real, input: real, cached: real, output: real, priced: real, unpriced: real,
                             pricedRequests: nat, unpricedRequests: nat, unknown: set<Str>)

  const NO_CREDITS: Credits := Credits(0.0, 0.0, 0.0, 0.0, 0.0, 0.0, 0, 0, {})

  /** accumulateCodexTokenCredits: cache writes are not charged. */
  function CreditShare(log: Log): Credits {
    var total := Tokens(log.input) + Tokens(log.output);
    if !Counted(log) then NO_CREDITS
    else if log.credit.None? then NO_CREDITS.(unpriced := total, unpricedRequests := 1, unknown := {log.model})
    else
      var s, p := SplitInput(log), log.credit.value;
      var i, c, o := s.standard / MILLION * p.input, s.cached / MILLION * p.cachedInput, Tokens(log.output) / MILLION * p.output;
      Credits(i + c + o, i, c, o, total, 0.0, 1, 0, {})
  }

  function CreditSum(a: Credits, b: Credits): Credits {
    Credits(a.total + b.total, a.input + b.input, a.cached + b.cached, a.output + b.output, a.priced + b.priced,
            a.unpriced + b.unpriced, a.pricedRequests + b.pricedRequests, a.unpricedRequests + b.unpricedRequests,
            a.unknown + b.unknown)
  }

  function CreditEstimate(logs: seq<Log>): Credits {
    if logs == [] then NO_CREDITS else CreditSum(CreditEstimate(logs[..|logs| - 1]), CreditShare(logs[|logs| - 1]))
  }

  lemma KeptCredits(logs: seq<Log>, log: Log, f: Log -> bool)
    ensures CreditEstimate(Keep(logs + [log], f))
         == if f(log) then CreditSum(CreditEstimate(Keep(logs, f)), CreditShare(log)) else CreditEstimate(Keep(logs, f))
  {
    hide CreditSum, CreditShare;
    KeepSnoc(logs, log, f);
    if f(log) {
      assert (Keep(logs, f) + [log])[..|Keep(logs, f)|] == Keep(logs, f);
    } else {
      assert Keep(logs, f) + [] == Keep(logs, f);
    }
  }

  /** Over any logs, credits and dollars count the same tokens, and the credits add up. */
  lemma {:induction false} CreditConservation(logs: seq<Log>)
    ensures var c := CreditEstimate(logs);
            && c.priced + c.unpriced == Estimate(logs).total
            && c.total == c.input + c.cached + c.output
            && c.pricedRequests + c.unpricedRequests == Estimate(logs).pricedRequests + Estimate(logs).unpricedRequests
  {
    hide SplitInput, CostsOf;
    if logs != [] { CreditConservation(logs[..|logs| - 1]); }
  }

  // ---------------------------------------------------------------- the day overview

  function Between(start: int, end: int): Log -> bool {
    (x: Log) => start <= x.timestamp < end
  }

  /** summarizeOpenAiTokenCosts: one pass for today and for all time. */
  method Overview(logs: seq<Log>, todayStart: int, tomorrow: int) returns (today: Breakdown, allTime: Breakdown)
    ensures allTime == Estimate(logs)
    ensures today == Estimate(Keep(logs, Between(todayStart, tomorrow)))
  {
    hide Sum, Share, Estimate, Keep;
    ghost var isToday := Between(todayStart, tomorrow);
    today, allTime := EMPTY, EMPTY;
    KeepNothing(isToday);
    EstimateNothing();
    var i := 0;
    assert logs[..0] == [];
    while i < |logs|
      invariant i <= |logs|
      invariant allTime == Estimate(logs[..i]) && today == Estimate(Keep(logs[..i], isToday))
    {
      var log := logs[i];
      assert logs[..i + 1] == logs[..i] + [log];
      EstimateSnoc(logs[..i], log);
      KeptEstimate(logs[..i], log, isToday);
      allTime := Accumulate(allTime, log);
      if todayStart <= log.timestamp && log.timestamp < tomorrow { today := Accumulate(today, log); }
      i := i + 1;
    }
    assert logs[..i] == logs;
  }

  lemma EstimateNothing()
    ensures Estimate([]) == EMPTY && CreditEstimate([]) == NO_CREDITS
  {}

  // ---------------------------------------------------------------- quota cycles

  datatype Window = Window(used: real, seconds: Option<int>, resetAt: Option<int>)

  datatype Kind = Short | Long

  /** The used percentage of a window, which may be missing or not finite, and when it resets. */
  datatype Sample = Sample(used: Count, resetAt: Option<int>)

  datatype Observation = Observation(account: Str, at: int, short: Sample, long: Sample)
  {
    function Of(kind: Kind): Sample { if kind.Short? then short else long }
  }

  datatype Bounds = Bounds(start: int, end: int)

  const CYCLE_TOLERANCE: int := 300000

  function MinInt(a: int, b: int): int { if a < b then a else b }

  /** quotaWindowBounds; the window lasts a second at least. */
  function BoundsOf(w: Window, fallbackSeconds: int, now: int): Bounds {
    var seconds := if w.seconds.Some? then w.seconds.value else fallbackSeconds;
    var duration := (if seconds < 1 then 1 else seconds) * 1000;
    if w.resetAt.None? then Bounds(now - duration, now) else Bounds(w.resetAt.value - duration, MinInt(now, w.resetAt.value))
  }

  predicate InBounds(b: Bounds, t: int) { b.start <= t < b.end }

  /** sameQuotaCycle. */
  predicate SameCycle(a: Option<int>, b: Option<int>) {
    a.None? || b.None? || -CYCLE_TOLERANCE <= a.value - b.value <= CYCLE_TOLERANCE
  }

  /** A window of the quota, with its bounds. */
  datatype Tracked = Tracked(kind: Kind, window: Window, bounds: Bounds)

  /** An observation of this account and cycle at 100 percent or more. */
  predicate Overused(w: Tracked, account: Str, o: Observation) {
    var sample := o.Of(w.kind);
    && o.account == account && InBounds(w.bounds, o.at) && sample.used.Reported? && sample.used.x >= 100.0
    && SameCycle(sample.resetAt, w.window.resetAt)
  }

  /** The current observation counts too, if its time is known. */
  predicate OverusedNow(w: Tracked, observedAt: Option<int>) {
    w.window.used >= 100.0 && observedAt.Some? && InBounds(w.bounds, observedAt.value)
  }

  /** `t` is the time of an observation that proves the overage. */
  ghost predicate Proves(w: Tracked, account: Str, observedAt: Option<int>, history: seq<Observation>, t: int) {
    (OverusedNow(w, observedAt) && t == observedAt.value)
    || exists i :: 0 <= i < |history| && Overused(w, account, history[i]) && t == history[i].at
  }

  /** quotaOverageStart: the earliest proving observation, if there is one; it lies within the bounds. */
  method OverageStart(w: Tracked, account: Str, observedAt: Option<int>, history: seq<Observation>) returns (r: Option<int>)
    ensures r.None? <==> forall t :: !Proves(w, account, observedAt, history, t)
    ensures r.Some? ==>
              && Proves(w, account, observedAt, history, r.value) && InBounds(w.bounds, r.value)
              && forall t :: Proves(w, account, observedAt, history, t) ==> r.value <= t
  {
    r := None;
    var i := 0;
    while i < |history|
      invariant i <= |history|
      invariant r.None? ==> forall j :: 0 <= j < i ==> !Overused(w, account, history[j])
      invariant r.Some? ==> exists j :: 0 <= j < i && Overused(w, account, history[j]) && r.value == history[j].at
      invariant r.Some? ==> forall j :: 0 <= j < i && Overused(w, account, history[j]) ==> r.value <= history[j].at
    {
      var point := history[i];
      if Overused(w, account, point) { r := Some(if r.Some? then MinInt(r.value, point.at) else point.at); }
      i := i + 1;
    }
    ghost var past := r;
    if OverusedNow(w, observedAt) {
      assert Proves(w, account, observedAt, history, observedAt.value);
      r := Some(if r.Some? then MinInt(r.value, observedAt.value) else observedAt.value);
    }
    if past.Some? { assert Proves(w, account, observedAt, history, past.value); }
    if past.None? && r.None? { assert forall t :: !Proves(w, account, observedAt, history, t); }
  }

  /** One of the two windows of a quota: its bounds, and when its overage starts. */
  datatype Cycle = Cycle(bounds: Bounds, overage: Option<int>)

  predicate InCycle(c: Option<Cycle>, t: int) { c.Some? && InBounds(c.value.bounds, t) }

  predicate Hidden(c: Option<Cycle>, t: int) {
    InCycle(c, t) && c.value.overage.Some? && t >= c.value.overage.value
  }

  function OfCycle(account: Str, c: Option<Cycle>): Log -> bool {
    (x: Log) => x.account == account && InCycle(c, x.timestamp)
  }

  function OfOverage(account: Str, c: Option<Cycle>): Log -> bool {
    (x: Log) => x.account == account && Hidden(c, x.timestamp)
  }

  function OfEither(account: Str, a: Option<Cycle>, b: Option<Cycle>): Log -> bool {
    (x: Log) => x.account == account && (Hidden(a, x.timestamp) || Hidden(b, x.timestamp))
  }

  datatype CycleCosts = CycleCosts(short: Breakdown, long: Breakdown, hidden: Breakdown, shortCredits: Credits, longCredits: Credits)

  function Add(c: Credits, log: Log): Credits { CreditSum(c, CreditShare(log)) }

  /**
   * The loop of summarizeAccountCodexQuotaCycleCosts: one traversal gives exactly what filtering by account and window and
   * then estimating gives, and hidden usage is the estimate of the union of both overages, each log once.
   */
  method CycleSummary(logs: seq<Log>, account: Str, short: Option<Cycle>, long: Option<Cycle>) returns (r: CycleCosts)
    ensures r.short == Estimate(Keep(logs, OfCycle(account, short)))
    ensures r.long == Estimate(Keep(logs, OfCycle(account, long)))
    ensures r.shortCredits == CreditEstimate(Keep(logs, OfCycle(account, short)))
    ensures r.longCredits == CreditEstimate(Keep(logs, OfCycle(account, long)))
    ensures r.hidden == Estimate(Keep(logs, OfEither(account, short, long)))
  {
    hide Sum, Share, Estimate, Keep, CreditSum, CreditShare, CreditEstimate;
    r := CycleCosts(EMPTY, EMPTY, EMPTY, NO_CREDITS, NO_CREDITS);
    ghost var s, l, h := OfCycle(account, short), OfCycle(account, long), OfEither(account, short, long);
    KeepNothing(s);
    KeepNothing(l);
    KeepNothing(h);
    EstimateNothing();
    var i := 0;
    assert logs[..0] == [];
    while i < |logs|
      invariant i <= |logs|
      invariant r.short == Estimate(Keep(logs[..i], s)) && r.shortCredits == CreditEstimate(Keep(logs[..i], s))
      invariant r.long == Estimate(Keep(logs[..i], l)) && r.longCredits == CreditEstimate(Keep(logs[..i], l))
      invariant r.hidden == Estimate(Keep(logs[..i], h))
    {
      var log := logs[i];
      assert logs[..i + 1] == logs[..i] + [log];
      KeptEstimate(logs[..i], log, s);
      KeptEstimate(logs[..i], log, l);
      KeptEstimate(logs[..i], log, h);
      KeptCredits(logs[..i], log, s);
      KeptCredits(logs[..i], log, l);
      i := i + 1;
      if log.account != account { continue; }
      var isHidden := false;
      if InCycle(short, log.timestamp) {
        var b := Accumulate(r.short, log);
        r := r.(short := b, shortCredits := Add(r.shortCredits, log));
        if short.value.overage.Some? && log.timestamp >= short.value.overage.value { isHidden := true; }
      }
      if InCycle(long, log.timestamp) {
        var b := Accumulate(r.long, log);
        r := r.(long := b, longCredits := Add(r.longCredits, log));
        if long.value.overage.Some? && log.timestamp >= long.value.overage.value { isHidden := true; }
      }
      if isHidden {
        var b := Accumulate(r.hidden, log);
        r := r.(hidden := b);
      }
    }
    assert logs[..i] == logs;
  }

  lemma {:induction false} KeepSame(logs: seq<Log>, f: Log -> bool, g: Log -> bool)
    requires forall x :: f(x) == g(x)
    ensures Keep(logs, f) == Keep(logs, g)
  {
    if logs != [] { KeepSame(logs[..|logs| - 1], f, g); }
  }

  /** The quota snapshot of an account; the monthly window stands in for a missing seven-day one. */
  datatype Quota = Quota(fiveHour: Option<Window>, sevenDay: Option<Window>, monthly: Option<Window>, observedAt: Option<int>)

  const HOUR: int := 3600

  function Track(q: Quota, kind: Kind, now: int): Option<Tracked> {
    match kind
    case Short =>
      if q.fiveHour.None? then None else Some(Tracked(Short, q.fiveHour.value, BoundsOf(q.fiveHour.value, 5 * HOUR, now)))
    case Long =>
      var w := if q.sevenDay.Some? then q.sevenDay else q.monthly;
      var fallback := if q.sevenDay.Some? then 7 * 24 * HOUR else 30 * 24 * HOUR;
      if w.None? then None else Some(Tracked(Long, w.value, BoundsOf(w.value, fallback, now)))
  }

  ghost predicate InWindow(w: Option<Tracked>, t: int) { w.Some? && InBounds(w.value.bounds, t) }

  /** The usage at `t` lies in the window, at or after an observation that proves the overage. */
  ghost predicate AfterProof(w: Option<Tracked>, account: Str, observedAt: Option<int>, history: seq<Observation>, t: int) {
    InWindow(w, t) && exists at :: at <= t && Proves(w.value, account, observedAt, history, at)
  }

  method CycleOf(w: Option<Tracked>, account: Str, observedAt: Option<int>, history: seq<Observation>) returns (c: Option<Cycle>)
    ensures forall t :: InCycle(c, t) <==> InWindow(w, t)
    ensures forall t :: Hidden(c, t) <==> AfterProof(w, account, observedAt, history, t)
  {
    hide Proves;
    if w.None? { return None; }
    var start := OverageStart(w.value, account, observedAt, history);
    c := Some(Cycle(w.value.bounds, start));
  }

  ghost function OfWindow(account: Str, w: Option<Tracked>): Log -> bool {
    (x: Log) => x.account == account && InWindow(w, x.timestamp)
  }

  ghost function OfProof(account: Str, a: Option<Tracked>, b: Option<Tracked>, observedAt: Option<int>, history: seq<Observation>)
    : Log -> bool
  {
    (x: Log) => x.account == account && (AfterProof(a, account, observedAt, history, x.timestamp)
                                         || AfterProof(b, account, observedAt, history, x.timestamp))
  }

  /**
   * summarizeAccountCodexQuotaCycleCosts. Usage counts for a window when it lies within the bounds of the quota's window,
   * and as hidden exactly when it lies in one of the two at or after an observation of 100 percent or more, made of this
   * account within these bounds and not known to be of a cycle with another reset time; and no log counts twice.
   */
  method QuotaCycleCosts(logs: seq<Log>, account: Str, q: Quota, now: int, history: seq<Observation>) returns (r: CycleCosts)
    ensures var short, long := Track(q, Short, now), Track(q, Long, now);
            && r.short == Estimate(Keep(logs, OfWindow(account, short)))
            && r.long == Estimate(Keep(logs, OfWindow(account, long)))
            && r.shortCredits == CreditEstimate(Keep(logs, OfWindow(account, short)))
            && r.longCredits == CreditEstimate(Keep(logs, OfWindow(account, long)))
            && r.hidden == Estimate(Keep(logs, OfProof(account, short, long, q.observedAt, history)))
  {
    hide Estimate, CreditEstimate, Keep, Hidden, InCycle, AfterProof, InWindow, Track;
    var short, long := Track(q, Short, now), Track(q, Long, now);
    var a := CycleOf(short, account, q.observedAt, history);
    var b := CycleOf(long, account, q.observedAt, history);
    r := CycleSummary(logs, account, a, b);
    KeepSame(logs, OfCycle(account, a), OfWindow(account, short));
    KeepSame(logs, OfCycle(account, b), OfWindow(account, long));
    KeepSame(logs, OfEither(account, a, b), OfProof(account, short, long, q.observedAt, history));
  }

  /** Hidden usage and what lies in both overages together are the two overages together. */
  lemma HiddenOnce(logs: seq<Log>, account: Str, short: Option<Cycle>, long: Option<Cycle>)
    ensures var f, g := OfOverage(account, short), OfOverage(account, long);
            Sum(Estimate(Keep(logs, OfEither(account, short, long))), Estimate(Keep(logs, x => f(x) && g(x))))
            == Sum(Estimate(Keep(logs, f)), Estimate(Keep(logs, g)))
  {
    hide Sum, Estimate, Keep;
    var f, g := OfOverage(account, short), OfOverage(account, long);
    UnionOnce(logs, f, g);
    KeepSame(logs, OfEither(account, short, long), x => f(x) || g(x));
  }

  /** An overage lies within its window: hidden usage is part of the window's usage. */
  lemma {:induction false} HiddenWithin(logs: seq<Log>, account: Str, c: Option<Cycle>)
    ensures Estimate(Keep(logs, OfOverage(account, c))).total <= Estimate(Keep(logs, OfCycle(account, c))).total
  {
    hide Estimate, Keep, Sum, Share;
    var f, g := OfOverage(account, c), OfCycle(account, c);
    if logs == [] {
      KeepNothing(f);
      KeepNothing(g);
    } else {
      var n := |logs| - 1;
      var init, last := logs[..n], logs[n];
      assert logs == init + [last];
      HiddenWithin(init, account, c);
      KeptEstimate(init, last, f);
      KeptEstimate(init, last, g);
      SumTotal(Estimate(Keep(init, f)), last);
      SumTotal(Estimate(Keep(init, g)), last);
    }
  }

  lemma SumTotal(b: Breakdown, log: Log)
    ensures Sum(b, Share(log)).total == b.total + Share(log).total && Share(log).total >= 0.0
  {
    hide SplitInput, CostsOf;
  }
}
