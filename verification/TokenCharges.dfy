/**
 * Which tokens are charged which price: every cost of any logs, as amounts of five kinds of tokens at their own
 * rates.
 */
module TokenCharges {
  import opened Units
  import opened TokenCost

  // ---------------------------------------------------------------- one log

  datatype TokenKind = StandardInput | CachedRead | ShortWrite | HourWrite | Answer

  /** What a reported count is worth. */
  function Worth(c: Count): real {
    match c
    case Reported(x) => if x <= 0.0 then 0.0 else x
    case Missing => 0.0
    case NotFinite => 0.0
  }

  /**
   * The three cached parts are as large as the input and the reports allow: reads first, then writes, and of the writes
   * the one-hour ones first.
   */
  predicate IsSplit(log: Log, cached: real, write: real, hour: real) {
    var input := Worth(log.input);
    && cached <= input && cached <= Worth(log.cachedInput) && (cached == input || cached == Worth(log.cachedInput))
    && write <= input - cached && write <= Worth(log.cacheWrite)
        && (write == input - cached || write == Worth(log.cacheWrite))
    && hour <= write && hour <= Worth(log.cacheWrite1h) && (hour == write || hour == Worth(log.cacheWrite1h))
  }

  lemma SplitLargest(log: Log)
    ensures var s := SplitInput(log);
            IsSplit(log, s.cached, s.write, s.write1h) && s.standard == Worth(log.input) - s.cached - s.write
  {}

  lemma OneSplit(log: Log, cached: real, write: real, hour: real)
    requires IsSplit(log, cached, write, hour)
    ensures var s := SplitInput(log); cached == s.cached && write == s.write && hour == s.write1h
  {
    hide SplitInput, Worth;
    SplitLargest(log);
  }

  function Amount(log: Log, k: TokenKind): real {
    var s := SplitInput(log);
    match k
    case StandardInput => Worth(log.input) - s.cached - s.write
    case CachedRead => s.cached
    case ShortWrite => s.write - s.write1h
    case HourWrite => s.write1h
    case Answer => Worth(log.output)
  }

  /** One-hour writes cost what other writes do unless they have their own price. */
  function RateOf(p: Price, k: TokenKind): real {
    match k
    case StandardInput => p.input
    case CachedRead => p.cachedInput
    case ShortWrite => p.cacheWrite
    case HourWrite => if p.cacheWrite1h.None? then p.cacheWrite else p.cacheWrite1h.value
    case Answer => p.output
  }

  predicate IsBeyond(log: Log, p: Price) {
    match p.threshold
    case None => false
    case Some(most) => Worth(log.input) > most || (p.inclusive && Worth(log.input) == most)
  }

  /** The long-context multiplier of the kind's side. */
  function Times(log: Log, p: Price, k: TokenKind): real {
    var times := if k.Answer? then p.longOutput else p.longInput;
    if IsBeyond(log, p) && times.Some? then times.value else 1.0
  }

  /** A log with tokens whose model has a price; a vendor's cached logs of the old accounting are not charged. */
  predicate IsCharged(log: Log) {
    && (Worth(log.input) > 0.0 || Worth(log.output) > 0.0) && log.price.Some?
    && (log.price.value.claude && (Worth(log.cachedInput) > 0.0 || Worth(log.cacheWrite) > 0.0) ==> log.accounting2)
  }

  function Charge(log: Log, k: TokenKind): real {
    if IsCharged(log) then Amount(log, k) / 1000000.0 * RateOf(log.price.value, k) * Times(log, log.price.value, k) else 0.0
  }

  lemma WorthIs(log: Log)
    ensures Tokens(log.input) == Worth(log.input) && Tokens(log.output) == Worth(log.output)
    ensures Tokens(log.cachedInput) == Worth(log.cachedInput) && Tokens(log.cacheWrite) == Worth(log.cacheWrite)
    ensures Counted(log) <==> Worth(log.input) > 0.0 || Worth(log.output) > 0.0
    ensures Counted(log) && IsPriced(log) <==> IsCharged(log)
  {}

  lemma BeyondIs(log: Log, p: Price)
    ensures IsLong(log, p) <==> IsBeyond(log, p)
  {}

  lemma TwoRates(a: real, b: real, p: real, q: real, times: real)
    ensures (a / MILLION * p + b / MILLION * q) * times == a / MILLION * p * times + b / MILLION * q * times
  {}

  lemma CostsAre(log: Log, p: Price)
    requires IsCharged(log) && log.price == Some(p)
    ensures CostsOf(log, p) == Costs(Charge(log, StandardInput), Charge(log, CachedRead),
                                     Charge(log, ShortWrite) + Charge(log, HourWrite), Charge(log, Answer))
  {
    hide SplitInput, IsLong, IsBeyond, Tokens, Worth, IsCharged;
    var s := SplitInput(log);
    SplitExact(log);
    WorthIs(log);
    BeyondIs(log, p);
    assert s.write5m + s.writeOther == Amount(log, ShortWrite);
    assert s.standard == Amount(log, StandardInput);
    TwoRates(s.write5m + s.writeOther, s.write1h, p.cacheWrite, Or(p.cacheWrite1h, p.cacheWrite), Times(log, p, StandardInput));
  }

  // ---------------------------------------------------------------- any logs

  function Charged(logs: seq<Log>, k: TokenKind): real {
    if logs == [] then 0.0 else Charged(logs[..|logs| - 1], k) + Charge(logs[|logs| - 1], k)
  }

  lemma ChargedShare(log: Log)
    ensures var c := Share(log);
            && c.inputCost == Charge(log, StandardInput) + Charge(log, ShortWrite) + Charge(log, HourWrite)
            && c.cachedCost == Charge(log, CachedRead) && c.outputCost == Charge(log, Answer)
            && c.writeCost == Charge(log, ShortWrite) + Charge(log, HourWrite)
            && c.totalCost == c.inputCost + c.cachedCost + c.outputCost
  {
    hide SplitInput, CostsOf, IsCharged, IsPriced, Counted, RateOf, Times, Amount;
    WorthIs(log);
    if IsCharged(log) {
      ChargedPrice(log);
      CostsAre(log, log.price.value);
    }
  }

  lemma ChargedPrice(log: Log)
    ensures IsCharged(log) ==> log.price.Some?
  {}

  /** Over any logs, each cost is the sum of the charges of its own kinds of tokens. */
  lemma {:induction false} CostsByKind(logs: seq<Log>)
    ensures var e := Estimate(logs);
            && e.inputCost == Charged(logs, StandardInput) + Charged(logs, ShortWrite) + Charged(logs, HourWrite)
            && e.cachedCost == Charged(logs, CachedRead) && e.outputCost == Charged(logs, Answer)
            && e.writeCost == Charged(logs, ShortWrite) + Charged(logs, HourWrite)
            && e.totalCost == e.inputCost + e.cachedCost + e.outputCost
  {
    hide Share, Charge;
    if logs != [] {
      CostsByKind(logs[..|logs| - 1]);
      ChargedShare(logs[|logs| - 1]);
    }
  }

  /** The price charges kinds other than `k` nothing. */
  predicate OnlyFor(log: Log, k: TokenKind) {
    log.price.Some? ==> forall j: TokenKind :: j != k ==> RateOf(log.price.value, j) == 0.0
  }

  lemma {:induction false} NothingElse(logs: seq<Log>, k: TokenKind, j: TokenKind)
    requires j != k && forall x <- logs :: OnlyFor(x, k)
    ensures Charged(logs, j) == 0.0
  {
    hide IsCharged, RateOf, Amount, Times;
    if logs != [] {
      var n := |logs| - 1;
      assert logs[n] in logs;
      NothingElse(logs[..n], k, j);
      FreeKind(logs[n], j);
    }
  }

  lemma FreeKind(log: Log, k: TokenKind)
    requires log.price.Some? ==> RateOf(log.price.value, k) == 0.0
    ensures Charge(log, k) == 0.0
  {
    hide RateOf, Amount, Times;
  }

  /** When only one kind of token has a price, the total cost is the tokens of that kind at that price. */
  lemma OneKind(logs: seq<Log>, k: TokenKind)
    requires forall x <- logs :: OnlyFor(x, k)
    ensures Estimate(logs).totalCost == Charged(logs, k)
  {
    hide Estimate, Charged, OnlyFor;
    CostsByKind(logs);
    forall j: TokenKind | j != k ensures Charged(logs, j) == 0.0 { NothingElse(logs, k, j); }
    assert k in {StandardInput, CachedRead, ShortWrite, HourWrite, Answer};
  }

  /** The logs differ at most in the prices of other kinds. */
  predicate SameFor(a: Log, b: Log, k: TokenKind) {
    && a.(price := None) == b.(price := None) && (a.price.Some? <==> b.price.Some?)
    && (a.price.Some? ==>
          var p, q := a.price.value, b.price.value;
          && RateOf(p, k) == RateOf(q, k) && p.claude == q.claude && p.threshold == q.threshold
              && p.inclusive == q.inclusive
          && if k.Answer? then p.longOutput == q.longOutput else p.longInput == q.longInput)
  }

  predicate AllSame(a: seq<Log>, b: seq<Log>, k: TokenKind) {
    |a| == |b| && forall i :: 0 <= i < |a| ==> SameFor(a[i], b[i], k)
  }

  lemma SameCharge(a: Log, b: Log, k: TokenKind)
    requires SameFor(a, b, k)
    ensures Charge(a, k) == Charge(b, k)
  {
    hide RateOf;
    assert SplitInput(a) == SplitInput(b) by { SameSplit(a, b); }
    hide SplitInput, Worth;
  }

  lemma SameSplit(a: Log, b: Log)
    requires a.(price := None) == b.(price := None)
    ensures SplitInput(a) == SplitInput(b)
  {
    hide Tokens, Min, Max;
    var c := a.(price := None);
    assert c.input == a.input && c.cachedInput == a.cachedInput && c.cacheWrite == a.cacheWrite;
    assert c.cacheWrite1h == a.cacheWrite1h && c.cacheWrite5m == a.cacheWrite5m;
  }

  lemma {:induction false} SameCharged(a: seq<Log>, b: seq<Log>, k: TokenKind)
    requires AllSame(a, b, k)
    ensures Charged(a, k) == Charged(b, k)
  {
    hide SameFor, Charge;
    if a != [] {
      var n := |a| - 1;
      SameCharged(a[..n], b[..n], k);
      SameCharge(a[n], b[n], k);
    }
  }

  /** Each cost changes only with the prices of its own kinds. */
  lemma OwnPrices(a: seq<Log>, b: seq<Log>)
    ensures AllSame(a, b, CachedRead) ==> Estimate(a).cachedCost == Estimate(b).cachedCost
    ensures AllSame(a, b, Answer) ==> Estimate(a).outputCost == Estimate(b).outputCost
    ensures AllSame(a, b, ShortWrite) && AllSame(a, b, HourWrite) ==> Estimate(a).writeCost == Estimate(b).writeCost
    ensures AllSame(a, b, StandardInput) ==> Estimate(a).inputCost - Estimate(a).writeCost == Estimate(b).inputCost - Estimate(b).writeCost
  {
    hide Estimate, Charged, AllSame;
    CostsByKind(a);
    CostsByKind(b);
    if AllSame(a, b, StandardInput) { SameCharged(a, b, StandardInput); }
    if AllSame(a, b, CachedRead) { SameCharged(a, b, CachedRead); }
    if AllSame(a, b, ShortWrite) { SameCharged(a, b, ShortWrite); }
    if AllSame(a, b, HourWrite) { SameCharged(a, b, HourWrite); }
    if AllSame(a, b, Answer) { SameCharged(a, b, Answer); }
  }

  // ---------------------------------------------------------------- counts

  /** The tokens of a kind in the charged logs. */
  function AmountOf(logs: seq<Log>, k: TokenKind): real {
    if logs == [] then 0.0
    else
      var last := logs[|logs| - 1];
      AmountOf(logs[..|logs| - 1], k) + if IsCharged(last) then Amount(last, k) else 0.0
  }

  function CountOf(logs: seq<Log>, f: Log -> bool): nat {
    if logs == [] then 0 else CountOf(logs[..|logs| - 1], f) + if f(logs[|logs| - 1]) then 1 else 0
  }

  function InputOf(logs: seq<Log>): real {
    if logs == [] then 0.0 else InputOf(logs[..|logs| - 1]) + Worth(logs[|logs| - 1].input)
  }

  function OutputOf(logs: seq<Log>): real {
    if logs == [] then 0.0 else OutputOf(logs[..|logs| - 1]) + Worth(logs[|logs| - 1].output)
  }

  predicate IsUncharged(log: Log) { (Worth(log.input) > 0.0 || Worth(log.output) > 0.0) && !IsCharged(log) }
  predicate IsLongCharged(log: Log) { IsCharged(log) && log.price.Some? && IsBeyond(log, log.price.value) }

  lemma CountedShare(log: Log)
    ensures var c := Share(log);
            && c.input == Worth(log.input) && c.output == Worth(log.output)
            && c.standard == (if IsCharged(log) then Amount(log, StandardInput) else 0.0)
            && c.cached == (if IsCharged(log) then Amount(log, CachedRead) else 0.0)
            && c.write == (if IsCharged(log) then Amount(log, ShortWrite) + Amount(log, HourWrite) else 0.0)
            && c.priced == (if IsCharged(log) then Worth(log.input) + Worth(log.output) else 0.0)
            && c.pricedRequests == (if IsCharged(log) then 1 else 0)
            && c.unpricedRequests == (if IsUncharged(log) then 1 else 0)
            && c.longRequests == (if IsLongCharged(log) then 1 else 0)
            && c.unknown == (if IsUncharged(log) then {log.model} else {})
  {
    hide SplitInput, CostsOf, IsPriced, IsLong, IsBeyond, Tokens;
    SplitExact(log);
    WorthIs(log);
    if log.price.Some? { BeyondIs(log, log.price.value); }
  }

  /** Over any logs, the reported tokens by kind, the numbers of requests, and the models without a price. */
  lemma {:induction false} CountsByKind(logs: seq<Log>)
    ensures var e := Estimate(logs);
            && e.input == InputOf(logs) && e.output == OutputOf(logs)
            && e.standard == AmountOf(logs, StandardInput) && e.cached == AmountOf(logs, CachedRead)
            && e.write == AmountOf(logs, ShortWrite) + AmountOf(logs, HourWrite)
            && e.pricedRequests == CountOf(logs, IsCharged) && e.unpricedRequests == CountOf(logs, IsUncharged)
            && e.longRequests == CountOf(logs, IsLongCharged)
            && forall m :: m in e.unknown <==> exists x <- logs :: IsUncharged(x) && x.model == m
  {
    hide Share, Amount, IsCharged, IsUncharged, IsLongCharged, Worth;
    if logs != [] {
      var n := |logs| - 1;
      CountsByKind(logs[..n]);
      CountedShare(logs[n]);
      assert logs == logs[..n] + [logs[n]];
      assert forall x :: x in logs <==> x in logs[..n] || x == logs[n];
    }
  }

  // ---------------------------------------------------------------- credits

  function CreditRate(p: CreditPrice, k: TokenKind): real {
    match k
    case StandardInput => p.input
    case CachedRead => p.cachedInput
    case Answer => p.output
    case _ => 0.0
  }

  predicate IsCredited(log: Log) { (Worth(log.input) > 0.0 || Worth(log.output) > 0.0) && log.credit.Some? }

  function CreditCharge(log: Log, k: TokenKind): real {
    if IsCredited(log) then Amount(log, k) / 1000000.0 * CreditRate(log.credit.value, k) else 0.0
  }

  function Credited(logs: seq<Log>, k: TokenKind): real {
    if logs == [] then 0.0 else Credited(logs[..|logs| - 1], k) + CreditCharge(logs[|logs| - 1], k)
  }

  predicate IsUncredited(log: Log) { (Worth(log.input) > 0.0 || Worth(log.output) > 0.0) && log.credit.None? }

  lemma CreditedShare(log: Log)
    ensures var c := CreditShare(log);
            && c.input == CreditCharge(log, StandardInput) && c.cached == CreditCharge(log, CachedRead)
            && c.output == CreditCharge(log, Answer) && c.total == c.input + c.cached + c.output
            && c.pricedRequests == (if IsCredited(log) then 1 else 0)
            && c.unpricedRequests == (if IsUncredited(log) then 1 else 0)
            && c.unknown == (if IsUncredited(log) then {log.model} else {})
            && CreditCharge(log, ShortWrite) == CreditCharge(log, HourWrite) == 0.0
  {
    hide SplitInput, Tokens;
    SplitExact(log);
    WorthIs(log);
  }

  /**
   * Over any logs, credits are charged for standard input, cached reads and output at their own rates; writes are
   * free.
   */
  lemma {:induction false} CreditsByKind(logs: seq<Log>)
    ensures var c := CreditEstimate(logs);
            && c.input == Credited(logs, StandardInput) && c.cached == Credited(logs, CachedRead)
            && c.output == Credited(logs, Answer) && c.total == c.input + c.cached + c.output
            && Credited(logs, ShortWrite) == Credited(logs, HourWrite) == 0.0
            && c.pricedRequests == CountOf(logs, IsCredited) && c.unpricedRequests == CountOf(logs, IsUncredited)
            && forall m :: m in c.unknown <==> exists x <- logs :: IsUncredited(x) && x.model == m
  {
    hide CreditShare, CreditCharge, IsCredited, IsUncredited;
    if logs != [] {
      var n := |logs| - 1;
      CreditsByKind(logs[..n]);
      CreditedShare(logs[n]);
      assert logs == logs[..n] + [logs[n]];
      assert forall x :: x in logs <==> x in logs[..n] || x == logs[n];
    }
  }

  // ---------------------------------------------------------------- the windows of a quota

  /**
   * `t` lies in the window: within its length before it resets, or before now when that is not known, and not later
   * than now.
   */
  predicate WithinWindow(w: Window, fallback: int, now: int, t: int) {
    var length := if w.seconds.Some? then w.seconds.value else fallback;
    var reset := if w.resetAt.Some? then w.resetAt.value else now;
    t < now && t < reset && (t >= reset - 1000 * length || t >= reset - 1000)
  }

  /** When usage counts for the two windows; the monthly one stands in for a missing seven-day one. */
  lemma WindowTimes(q: Quota, now: int, t: int)
    ensures InWindow(Track(q, Short, now), t) <==> q.fiveHour.Some? && WithinWindow(q.fiveHour.value, 18000, now, t)
    ensures InWindow(Track(q, Long, now), t) <==>
              if q.sevenDay.Some? then WithinWindow(q.sevenDay.value, 604800, now, t)
              else q.monthly.Some? && WithinWindow(q.monthly.value, 2592000, now, t)
  {}

  /** Reset times at most five minutes apart, or not both known. */
  predicate OneReset(a: Option<int>, b: Option<int>) {
    a.Some? && b.Some? ==> a.value - b.value <= 300000 && b.value - a.value <= 300000
  }

  /** An observation in the history that shows the window used up at `t`. */
  predicate Shows(w: Tracked, account: Str, o: Observation, t: int) {
    var sample := if w.kind.Short? then o.short else o.long;
    && o.at == t && o.account == account && w.bounds.start <= t < w.bounds.end
    && sample.used.Reported? && sample.used.x >= 100.0 && OneReset(sample.resetAt, w.window.resetAt)
  }

  /**
   * What proves an overage: the quota itself, where the time it was observed is known, or an observation in the
   * history.
   */
  lemma ProofTimes(w: Tracked, account: Str, observedAt: Option<int>, history: seq<Observation>, t: int)
    ensures Proves(w, account, observedAt, history, t) <==>
            || (observedAt == Some(t) && w.window.used >= 100.0 && w.bounds.start <= t < w.bounds.end)
            || exists o <- history :: Shows(w, account, o, t)
  {
    forall o | o in history ensures Shows(w, account, o, t) <==> Overused(w, account, o) && t == o.at {}
    if o :| o in history && Shows(w, account, o, t) {
      var i :| 0 <= i < |history| && history[i] == o;
    }
  }

  // ---------------------------------------------------------------- which logs an estimate is of

  lemma {:induction false} KeptCount(logs: seq<Log>, f: Log -> bool, x: Log)
    ensures multiset(Keep(logs, f))[x] == if f(x) then multiset(logs)[x] else 0
  {
    if logs != [] {
      var n := |logs| - 1;
      KeptCount(logs[..n], f, x);
      assert logs == logs[..n] + [logs[n]];
    }
  }

  /** In the overage of a cycle: within its bounds, and not before the overage starts. */
  predicate InOverage(c: Option<Cycle>, t: int) {
    c.Some? && c.value.overage.Some? && c.value.bounds.start <= t < c.value.bounds.end && c.value.overage.value <= t
  }

  /** Today's costs are those of all logs from its first moment until before tomorrow. */
  lemma DayLogs(logs: seq<Log>, todayStart: int, tomorrow: int, x: Log)
    ensures multiset(Keep(logs, Between(todayStart, tomorrow)))[x]
         == if x.timestamp < todayStart || x.timestamp >= tomorrow then 0 else multiset(logs)[x]
  {
    KeptCount(logs, Between(todayStart, tomorrow), x);
  }

  /** The costs of a cycle are those of all logs of the account within it, and hidden are those in either overage, once. */
  lemma CycleLogs(logs: seq<Log>, account: Str, c: Option<Cycle>, d: Option<Cycle>, x: Log)
    ensures multiset(Keep(logs, OfCycle(account, c)))[x]
         == if x.account != account || c.None? || x.timestamp < c.value.bounds.start || x.timestamp >= c.value.bounds.end then 0
            else multiset(logs)[x]
    ensures multiset(Keep(logs, OfEither(account, c, d)))[x]
         == if x.account == account && (InOverage(c, x.timestamp) || InOverage(d, x.timestamp)) then multiset(logs)[x] else 0
  {
    KeptCount(logs, OfCycle(account, c), x);
    KeptCount(logs, OfEither(account, c, d), x);
  }
}
