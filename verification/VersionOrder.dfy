/** versionIsOlder: a strict weak order on parsed versions, for any total order on alphanumeric identifiers. */
module VersionOrder {
  import opened Units

  // ---------------------------------------------------------------- versions

  datatype Identifier = Number(n: nat) | Word(s: Str)

  /** A parsed version; no prerelease is the empty list, which splitting never gives. */
  datatype Version = Version(core: seq<nat>, prerelease: seq<Identifier>)

  /** How words compare, for localeCompare. */
  type Words = (Str, Str) -> bool

  ghost predicate TotalOrder(less: Words) {
    && (forall a :: !less(a, a))
    && (forall a, b, c :: less(a, b) && less(b, c) ==> less(a, c))
    && (forall a, b :: a == b || less(a, b) || less(b, a))
  }

  function At(core: seq<nat>, i: nat): nat { if i < |core| then core[i] else 0 }

  /** Numbers numerically and before words. */
  predicate IdBelow(x: Identifier, y: Identifier, less: Words) {
    match (x, y)
    case (Number(m), Number(n)) => m < n
    case (Number(_), Word(_)) => true
    case (Word(_), Number(_)) => false
    case (Word(s), Word(t)) => less(s, t)
  }

  // ---------------------------------------------------------------- the order, by the first difference

  predicate CoreAgrees(a: seq<nat>, b: seq<nat>, k: nat) {
    forall i :: 0 <= i < k ==> At(a, i) == At(b, i)
  }

  /** Cores, padded with zeros. */
  ghost predicate CoreSame(a: seq<nat>, b: seq<nat>) {
    forall i: nat :: At(a, i) == At(b, i)
  }

  ghost predicate CoreBelow(a: seq<nat>, b: seq<nat>) {
    exists k: nat :: CoreAgrees(a, b, k) && At(a, k) < At(b, k)
  }

  predicate PreAgrees(a: seq<Identifier>, b: seq<Identifier>, k: nat) {
    k <= |a| && k <= |b| && a[..k] == b[..k]
  }

  /** The lists differ at `k`, and `a` is below: it ends there, or has the smaller identifier. */
  predicate PreBelowAt(a: seq<Identifier>, b: seq<Identifier>, k: nat, less: Words) {
    PreAgrees(a, b, k) && k < |b| && (k == |a| || (a[k] != b[k] && IdBelow(a[k], b[k], less)))
  }

  ghost predicate PreBelow(a: seq<Identifier>, b: seq<Identifier>, less: Words) {
    exists k: nat :: PreBelowAt(a, b, k, less)
  }

  /** Clause 11 of Semantic Versioning 2.0.0, with `less` for words. */
  ghost predicate Older(a: Version, b: Version, less: Words) {
    CoreBelow(a.core, b.core)
    || (CoreSame(a.core, b.core)
        && a.prerelease != []
        && (b.prerelease == [] || PreBelow(a.prerelease, b.prerelease, less)))
  }

  ghost predicate Same(a: Version, b: Version) {
    CoreSame(a.core, b.core) && a.prerelease == b.prerelease
  }

  // ---------------------------------------------------------------- the comparison

  lemma CoreAfter(a: seq<nat>, b: seq<nat>, k: nat)
    requires CoreAgrees(a, b, k)
    ensures At(a, k) < At(b, k) ==> CoreBelow(a, b)
    ensures At(a, k) > At(b, k) ==> !CoreBelow(a, b) && !CoreSame(a, b)
    ensures At(a, k) < At(b, k) ==> !CoreSame(a, b)
    ensures k >= |a| && k >= |b| ==> CoreSame(a, b) && !CoreBelow(a, b)
  {
    if At(a, k) > At(b, k) || (k >= |a| && k >= |b|) {
      forall j: nat | CoreAgrees(a, b, j) ensures !(At(a, j) < At(b, j)) {
        if j > k { assert At(a, k) == At(b, k); }
      }
    }
  }

  lemma AgreeAt(a: seq<Identifier>, b: seq<Identifier>, k: nat, i: nat)
    ensures PreAgrees(a, b, k) && i < k ==> i < |a| && i < |b| && a[i] == b[i]
  {
    if PreAgrees(a, b, k) && i < k { assert a[..k][i] == b[..k][i]; }
  }

  lemma PreAfter(a: seq<Identifier>, b: seq<Identifier>, k: nat, less: Words)
    requires PreAgrees(a, b, k)
    ensures PreBelowAt(a, b, k, less) ==> PreBelow(a, b, less)
    ensures k < |a| && (k == |b| || (a[k] != b[k] && !IdBelow(a[k], b[k], less))) ==> !PreBelow(a, b, less)
    ensures k == |a| == |b| ==> a == b
  {
    if k < |a| && (k == |b| || (a[k] != b[k] && !IdBelow(a[k], b[k], less))) {
      forall j: nat ensures !PreBelowAt(a, b, j, less) {
        AgreeAt(a, b, j, k);
        AgreeAt(a, b, k, j);
      }
    }
    if k == |a| == |b| { assert a[..k] == a && b[..k] == b; }
  }

  /** versionIsOlder of two parsed versions. */
  method VersionIsOlder(current: Version, minimum: Version, less: Words) returns (r: bool)
    ensures r == Older(current, minimum, less)
  {
    hide CoreBelow, CoreSame, PreBelow, CoreAgrees, PreAgrees, PreBelowAt;
    var a, b := current.core, minimum.core;
    var width := if |a| > |b| then |a| else |b|;
    var i := 0;
    NothingCompared(a, b);
    while i < width
      invariant i <= width && CoreAgrees(a, b, i)
    {
      CoreAfter(a, b, i);
      if At(a, i) != At(b, i) { return At(a, i) < At(b, i); }
      CoreStep(a, b, i);
      i := i + 1;
    }
    CoreAfter(a, b, i);
    var p, q := current.prerelease, minimum.prerelease;
    if p == [] { return false; }
    if q == [] { return true; }
    var prereleaseWidth := if |p| > |q| then |p| else |q|;
    i := 0;
    NothingAgreed(p, q);
    while i < prereleaseWidth
      invariant i <= |p| && i <= |q| && PreAgrees(p, q, i)
    {
      PreAfter(p, q, i, less);
      PreAt(p, q, i, less);
      if i == |p| { return true; }
      if i == |q| { return false; }
      if p[i] != q[i] {
        if p[i].Number? && q[i].Number? { return p[i].n < q[i].n; }
        if p[i].Number? { return true; }
        if q[i].Number? { return false; }
        return less(p[i].s, q[i].s);
      }
      PreStep(p, q, i);
      i := i + 1;
    }
    PreAfter(p, q, i, less);
    PreEqual(p, q, less);
    return false;
  }

  lemma NothingCompared(a: seq<nat>, b: seq<nat>)
    ensures CoreAgrees(a, b, 0)
  {}

  lemma CoreStep(a: seq<nat>, b: seq<nat>, k: nat)
    requires CoreAgrees(a, b, k) && At(a, k) == At(b, k)
    ensures CoreAgrees(a, b, k + 1)
  {}

  lemma NothingAgreed(a: seq<Identifier>, b: seq<Identifier>)
    ensures PreAgrees(a, b, 0)
  {}

  lemma PreAt(a: seq<Identifier>, b: seq<Identifier>, k: nat, less: Words)
    requires PreAgrees(a, b, k)
    ensures PreBelowAt(a, b, k, less) <==> k < |b| && (k == |a| || (a[k] != b[k] && IdBelow(a[k], b[k], less)))
  {}

  lemma PreStep(a: seq<Identifier>, b: seq<Identifier>, k: nat)
    requires PreAgrees(a, b, k) && k < |a| && k < |b| && a[k] == b[k]
    ensures PreAgrees(a, b, k + 1)
  {
    assert a[..k + 1] == a[..k] + [a[k]] && b[..k + 1] == b[..k] + [b[k]];
  }

  lemma PreEqual(a: seq<Identifier>, b: seq<Identifier>, less: Words)
    requires a == b
    ensures !PreBelow(a, b, less)
  {}

  // ---------------------------------------------------------------- the first difference

  lemma {:induction false} FirstCore(a: seq<nat>, b: seq<nat>, k: nat)
    requires CoreAgrees(a, b, k)
    ensures CoreSame(a, b) || CoreBelow(a, b) || CoreBelow(b, a)
    decreases |a| + |b| - k
  {
    hide CoreSame, CoreBelow, CoreAgrees;
    CoreAfter(a, b, k);
    CoreTurn(a, b, k);
    CoreAfter(b, a, k);
    if At(a, k) == At(b, k) && (k < |a| || k < |b|) {
      CoreStep(a, b, k);
      FirstCore(a, b, k + 1);
    }
  }

  lemma CoreTurn(a: seq<nat>, b: seq<nat>, k: nat)
    requires CoreAgrees(a, b, k)
    ensures CoreAgrees(b, a, k)
  {}

  lemma CoreLaws(a: seq<nat>, b: seq<nat>, c: seq<nat>)
    ensures !CoreBelow(a, a) && CoreSame(a, a)
    ensures CoreBelow(a, b) ==> !CoreBelow(b, a) && !CoreSame(a, b)
    ensures CoreSame(a, b) ==> CoreSame(b, a) && (CoreBelow(a, c) <==> CoreBelow(b, c)) && (CoreBelow(c, a) <==> CoreBelow(c, b))
    ensures CoreSame(a, b) && CoreSame(b, c) ==> CoreSame(a, c)
    ensures CoreBelow(a, b) && CoreBelow(b, c) ==> CoreBelow(a, c)
  {
    if CoreBelow(a, b) {
      var k: nat :| CoreAgrees(a, b, k) && At(a, k) < At(b, k);
      CoreTurn(a, b, k);
      CoreAfter(b, a, k);
      CoreAfter(a, b, k);
      if CoreBelow(b, c) {
        var j: nat :| CoreAgrees(b, c, j) && At(b, j) < At(c, j);
        var m := if j < k then j else k;
        assert CoreAgrees(a, c, m) && At(a, m) < At(c, m);
      }
    }
    if CoreSame(a, b) {
      CoreShift(a, b, c);
      CoreShift(b, a, c);
    }
  }

  lemma CoreShift(a: seq<nat>, b: seq<nat>, c: seq<nat>)
    requires CoreSame(a, b)
    ensures CoreBelow(a, c) ==> CoreBelow(b, c)
    ensures CoreBelow(c, a) ==> CoreBelow(c, b)
  {
    if CoreBelow(a, c) {
      var k: nat :| CoreAgrees(a, c, k) && At(a, k) < At(c, k);
      assert CoreAgrees(b, c, k) && At(b, k) < At(c, k);
    }
    if CoreBelow(c, a) {
      var k: nat :| CoreAgrees(c, a, k) && At(c, k) < At(a, k);
      assert CoreAgrees(c, b, k) && At(c, k) < At(b, k);
    }
  }

  lemma IdLaws(x: Identifier, y: Identifier, z: Identifier, less: Words)
    requires TotalOrder(less)
    ensures !IdBelow(x, x, less)
    ensures x == y || IdBelow(x, y, less) || IdBelow(y, x, less)
    ensures IdBelow(x, y, less) && IdBelow(y, z, less) ==> IdBelow(x, z, less)
  {}

  lemma {:induction false} FirstPre(a: seq<Identifier>, b: seq<Identifier>, k: nat, less: Words)
    requires TotalOrder(less) && PreAgrees(a, b, k)
    ensures a == b || PreBelow(a, b, less) || PreBelow(b, a, less)
    decreases |a| - k
  {
    hide PreBelow, IdBelow, PreAgrees, PreBelowAt;
    PreTurn(a, b, k);
    PreAt(a, b, k, less);
    PreAt(b, a, k, less);
    PreAfter(a, b, k, less);
    PreAfter(b, a, k, less);
    if k < |a| && k < |b| {
      IdLaws(a[k], b[k], a[k], less);
      if a[k] == b[k] {
        PreStep(a, b, k);
        FirstPre(a, b, k + 1, less);
      }
    }
  }

  lemma PreTurn(a: seq<Identifier>, b: seq<Identifier>, k: nat)
    requires PreAgrees(a, b, k)
    ensures PreAgrees(b, a, k) && k <= |a| && k <= |b|
  {}

  lemma PreNotBack(a: seq<Identifier>, b: seq<Identifier>, less: Words)
    requires TotalOrder(less) && PreBelow(a, b, less)
    ensures !PreBelow(b, a, less) && a != b
  {
    hide IdBelow;
    var k: nat :| PreBelowAt(a, b, k, less);
    PreTurn(a, b, k);
    if k < |a| { IdLaws(a[k], b[k], a[k], less); }
    PreAfter(b, a, k, less);
    PreEqual(a, a, less);
  }

  lemma PreTrans(a: seq<Identifier>, b: seq<Identifier>, c: seq<Identifier>, less: Words)
    requires TotalOrder(less) && PreBelow(a, b, less) && PreBelow(b, c, less)
    ensures PreBelow(a, c, less)
  {
    hide IdBelow;
    var k: nat :| PreBelowAt(a, b, k, less);
    var j: nat :| PreBelowAt(b, c, j, less);
    var m := if j < k then j else k;
    assert a[..m] == a[..k][..m] && b[..m] == b[..k][..m] && b[..m] == b[..j][..m] && c[..m] == c[..j][..m];
    if j < k { assert a[..k][j] == b[..k][j]; }
    if k < j { assert b[..j][k] == c[..j][k]; }
    if m < |a| { IdLaws(a[m], b[m], c[m], less); IdLaws(a[m], a[m], a[m], less); }
    assert PreBelowAt(a, c, m, less);
  }

  // ---------------------------------------------------------------- a strict weak order

  /** Of two versions exactly one is older, or they are the same up to trailing zeros of their cores. */
  lemma Trichotomy(a: Version, b: Version, less: Words)
    requires TotalOrder(less)
    ensures Older(a, b, less) || Older(b, a, less) || Same(a, b)
    ensures !(Older(a, b, less) && Older(b, a, less))
    ensures Same(a, b) ==> !Older(a, b, less) && !Older(b, a, less)
  {
    hide CoreBelow, CoreSame, PreBelow, CoreAgrees, PreAgrees;
    NothingCompared(a.core, b.core);
    FirstCore(a.core, b.core, 0);
    CoreLaws(a.core, b.core, a.core);
    CoreLaws(b.core, a.core, b.core);
    NothingAgreed(a.prerelease, b.prerelease);
    FirstPre(a.prerelease, b.prerelease, 0, less);
    PreEqual(a.prerelease, a.prerelease, less);
    if PreBelow(a.prerelease, b.prerelease, less) { PreNotBack(a.prerelease, b.prerelease, less); }
  }

  lemma OlderTransitive(a: Version, b: Version, c: Version, less: Words)
    requires TotalOrder(less) && Older(a, b, less) && Older(b, c, less)
    ensures Older(a, c, less)
  {
    hide CoreBelow, CoreSame, PreBelow, CoreAgrees, PreAgrees;
    CoreLaws(a.core, b.core, c.core);
    CoreLaws(b.core, c.core, a.core);
    if PreBelow(a.prerelease, b.prerelease, less) && PreBelow(b.prerelease, c.prerelease, less) {
      PreTrans(a.prerelease, b.prerelease, c.prerelease, less);
    }
  }

  lemma SameTransitive(a: Version, b: Version, c: Version)
    requires Same(a, b) && Same(b, c)
    ensures Same(a, c)
  {
    hide CoreBelow, CoreSame, CoreAgrees;
    CoreLaws(a.core, b.core, c.core);
  }

  ghost predicate Incomparable(a: Version, b: Version, less: Words) {
    !Older(a, b, less) && !Older(b, a, less)
  }

  /**
   * Given a total order on words, being older is a strict weak order on parsed versions: irreflexive, asymmetric and
   * transitive, and incomparability, which is being the same up to padding, is transitive.
   */
  lemma StrictWeakOrder(a: Version, b: Version, c: Version, less: Words)
    requires TotalOrder(less)
    ensures !Older(a, a, less)
    ensures Older(a, b, less) ==> !Older(b, a, less)
    ensures Older(a, b, less) && Older(b, c, less) ==> Older(a, c, less)
    ensures Incomparable(a, b, less) <==> Same(a, b)
    ensures Incomparable(a, b, less) && Incomparable(b, c, less) ==> Incomparable(a, c, less)
  {
    hide Older, Same;
    Trichotomy(a, a, less);
    Trichotomy(a, b, less);
    Trichotomy(b, c, less);
    Trichotomy(a, c, less);
    if Older(a, b, less) && Older(b, c, less) { OlderTransitive(a, b, c, less); }
    if Same(a, b) && Same(b, c) { SameTransitive(a, b, c); }
  }

  /** versionIsOlder of two texts that may not parse: then it is false. */
  ghost predicate OlderText(a: Option<Version>, b: Option<Version>, less: Words) {
    a.Some? && b.Some? && Older(a.value, b.value, less)
  }

  ghost predicate IncomparableText(a: Option<Version>, b: Option<Version>, less: Words) {
    !OlderText(a, b, less) && !OlderText(b, a, less)
  }

  /**
   * With texts that may not parse, incomparability passes from a and b, and b and c, to a and c, if and only if it is not
   * just the middle text that does not parse while the outer ones parse to different versions.
   */
  lemma UnparsedIsNoOrder(a: Option<Version>, b: Option<Version>, c: Option<Version>, less: Words)
    requires TotalOrder(less)
    ensures (IncomparableText(a, b, less) && IncomparableText(b, c, less) ==> IncomparableText(a, c, less))
       <==> !(b.None? && a.Some? && c.Some? && !Same(a.value, c.value))
  {
    hide Older, Same;
    if a.Some? && c.Some? {
      Trichotomy(a.value, c.value, less);
      if b.Some? { StrictWeakOrder(a.value, b.value, c.value, less); }
    }
  }

  /** A text between two versions that is comparable with neither. */
  lemma UnparsedExample(less: Words)
    requires TotalOrder(less)
    ensures var a, c := Some(Version([1, 0], [])), Some(Version([2, 0], []));
            OlderText(a, c, less) && IncomparableText(a, None, less) && IncomparableText(None, c, less)
  {
    NothingCompared([1, 0], [2, 0]);
    CoreAfter([1, 0], [2, 0], 0);
  }

  // ---------------------------------------------------------------- the rules of precedence

  /** The core decides: at its first difference the smaller number is older, and a missing number counts as zero. */
  lemma CoreDecides(p: seq<nat>, m: nat, n: nat, s: seq<nat>, t: seq<nat>, x: seq<Identifier>, y: seq<Identifier>, less: Words)
    requires m < n
    ensures Older(Version(p + [m] + s, x), Version(p + [n] + t, y), less)
    ensures m == 0 ==> Older(Version(p, x), Version(p + [n] + t, y), less)
  {
    var b := p + [n] + t;
    var a := p + [m] + s;
    assert CoreAgrees(a, b, |p|) && At(a, |p|) == m && At(b, |p|) == n;
    assert CoreAgrees(p, b, |p|) && At(p, |p|) == 0;
  }

  lemma ZerosAreSame(p: seq<nat>, zeros: seq<nat>)
    requires forall z <- zeros :: z == 0
    ensures CoreSame(p, p + zeros)
  {
    forall i: nat ensures At(p, i) == At(p + zeros, i) {
      if |p| <= i < |p| + |zeros| { assert zeros[i - |p|] in zeros; }
    }
  }

  /** A version is younger than all its prereleases. */
  lemma ReleaseIsLast(core: seq<nat>, x: seq<Identifier>, less: Words)
    requires x != []
    ensures Older(Version(core, x), Version(core, []), less) && !Older(Version(core, []), Version(core, x), less)
  {
    hide PreBelow;
    CoreLaws(core, core, core);
  }

  /**
   * Prereleases of one version, at their first difference: the smaller number, a number before a word, and the smaller
   * word; and one that goes on is younger than one that ends.
   */
  lemma PrereleaseDecides(core: seq<nat>, p: seq<Identifier>, s: seq<Identifier>, t: seq<Identifier>, less: Words)
    ensures forall m, n :: m < n ==> Older(Version(core, p + [Number(m)] + s), Version(core, p + [Number(n)] + t), less)
    ensures forall m, w :: Older(Version(core, p + [Number(m)] + s), Version(core, p + [Word(w)] + t), less)
    ensures forall v, w :: less(v, w) && v != w ==> Older(Version(core, p + [Word(v)] + s), Version(core, p + [Word(w)] + t), less)
    ensures p != [] && t != [] ==> Older(Version(core, p), Version(core, p + t), less)
  {
    hide CoreBelow, CoreSame, PreBelow;
    CoreLaws(core, core, core);
    forall x: Identifier, y: Identifier | x != y && IdBelow(x, y, less)
      ensures PreBelow(p + [x] + s, p + [y] + t, less)
    {
      DiffersAt(p, x, y, s, t, less);
    }
    if t != [] { EndsBefore(p, t, less); }
  }

  lemma DiffersAt(p: seq<Identifier>, x: Identifier, y: Identifier, s: seq<Identifier>, t: seq<Identifier>, less: Words)
    requires x != y && IdBelow(x, y, less)
    ensures PreBelow(p + [x] + s, p + [y] + t, less)
  {
    var a, b := p + [x] + s, p + [y] + t;
    assert a[..|p|] == p == b[..|p|];
    assert PreBelowAt(a, b, |p|, less);
  }

  lemma EndsBefore(p: seq<Identifier>, t: seq<Identifier>, less: Words)
    requires t != []
    ensures PreBelow(p, p + t, less)
  {
    assert p[..|p|] == p == (p + t)[..|p|];
    assert PreBelowAt(p, p + t, |p|, less);
  }
}
