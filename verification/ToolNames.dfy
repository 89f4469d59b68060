/** uniqueWorkToolName: it always ends, with the first free candidate. */
module ToolNames {
  import opened Units

  const UNDERSCORE: Unit := 0x5F

  function Decimal(n: nat): (t: Str)
    ensures t != []
  {
    if n < 10 then [0x30 + n] else Decimal(n / 10) + [0x30 + n % 10]
  }

  function ValueOf(t: Str): int {
    if t == [] then 0
    else
      var last: int := t[|t| - 1];
      10 * ValueOf(t[..|t| - 1]) + last - 0x30
  }

  lemma {:induction false} DecimalValue(n: nat)
    ensures ValueOf(Decimal(n)) == n
  {
    if n < 10 {
      assert ValueOf([0x30 + n][..0]) == 0;
    } else {
      DecimalValue(n / 10);
      var t := Decimal(n);
      assert t[..|t| - 1] == Decimal(n / 10);
    }
  }

  /** The `k`-th candidate: the shortened base and a number. */
  function Candidate(base: Str, k: nat): Str {
    Slice(base, 0, 112) + ([UNDERSCORE] + Decimal(k))
  }

  lemma CandidatesDiffer(base: Str, j: nat, k: nat)
    requires Candidate(base, j) == Candidate(base, k)
    ensures j == k
  {
    var n := |Slice(base, 0, 112)| + 1;
    assert Candidate(base, j)[n..] == Decimal(j) && Candidate(base, k)[n..] == Decimal(k);
    DecimalValue(j);
    DecimalValue(k);
  }

  /** The used names that are candidates from `k` on. */
  ghost function Ahead(base: Str, used: set<Str>, k: nat): set<Str> {
    set u <- used | exists j: nat :: j >= k && u == Candidate(base, j)
  }

  lemma AheadShrinks(base: Str, used: set<Str>, k: nat)
    requires Candidate(base, k) in used
    ensures Ahead(base, used, k + 1) < Ahead(base, used, k)
  {
    var x := Candidate(base, k);
    assert x in Ahead(base, used, k);
    forall j: nat | j >= k + 1 ensures Candidate(base, j) != x {
      if Candidate(base, j) == x { CandidatesDiffer(base, j, k); }
    }
  }

  /** From the cleaned base name: the base itself if it is free, otherwise the first free candidate from 2 on. */
  method UniqueToolName(base: Str, used: set<Str>) returns (name: Str, nowUsed: set<Str>)
    ensures name !in used && nowUsed == used + {name}
    ensures base !in used ==> name == base
    ensures base in used ==>
              exists k: nat :: k >= 2 && name == Candidate(base, k) && forall j: nat :: 2 <= j < k ==> Candidate(base, j) in used
  {
    hide Candidate;
    name := base;
    var suffix: nat := 2;
    while name in used
      invariant suffix >= 2
      invariant name == if suffix == 2 then base else Candidate(base, suffix - 1)
      invariant suffix > 2 ==> base in used
      invariant forall j: nat :: 2 <= j < suffix - 1 ==> Candidate(base, j) in used
      decreases Ahead(base, used, if suffix == 2 then 2 else suffix - 1), if suffix == 2 then 1 else 0
    {
      if suffix > 2 { AheadShrinks(base, used, suffix - 1); }
      name := Candidate(base, suffix);
      suffix := suffix + 1;
    }
    nowUsed := used + {name};
    assert base in used ==> name == Candidate(base, suffix - 1);
  }
}
