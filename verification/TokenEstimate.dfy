/** estimateWebWmTokens: its byte count is the UTF-8 length, and its estimate is subadditive. */
module TokenEstimate {
  import opened Units
  import opened JsonText

  // ---------------------------------------------------------------- UTF-8

  predicate IsPair(s: Str) { |s| >= 2 && IsHigh(s[0]) && IsLow(s[1]) }

  /** The code point of a surrogate pair. */
  function CodePoint(high: Unit, low: Unit): int {
    0x1_0000 + (high - 0xD800) * 0x400 + (low - 0xDC00)
  }

  function Two(c: int): seq<int> { [0xC0 + c / 64, 0x80 + c % 64] }
  function Three(c: int): seq<int> { [0xE0 + c / 4096, 0x80 + c / 64 % 64, 0x80 + c % 64] }
  function Four(c: int): seq<int> { [0xF0 + c / 262144, 0x80 + c / 4096 % 64, 0x80 + c / 64 % 64, 0x80 + c % 64] }

  /** Section 3 of RFC 3629; a surrogate without its partner takes three bytes like any other unit of its size. */
  function Utf8(s: Str): seq<int>
    decreases |s|
  {
    if s == [] then []
    else if s[0] <= 0x7F then [s[0]] + Utf8(s[1..])
    else if s[0] <= 0x7FF then Two(s[0]) + Utf8(s[1..])
    else if IsPair(s) then Four(CodePoint(s[0], s[1])) + Utf8(s[2..])
    else Three(s[0]) + Utf8(s[1..])
  }

  /** Reading the bytes back, by the length the first byte announces. */
  function FromUtf8(b: seq<int>): seq<int>
    decreases |b|
  {
    if b == [] then []
    else if b[0] < 0xC0 || |b| < 2 then [b[0]] + FromUtf8(b[1..])
    else if b[0] < 0xE0 || |b| < 3 then [(b[0] - 0xC0) * 64 + (b[1] - 0x80)] + FromUtf8(b[2..])
    else if b[0] < 0xF0 || |b| < 4 then
      [(b[0] - 0xE0) * 4096 + (b[1] - 0x80) * 64 + (b[2] - 0x80)] + FromUtf8(b[3..])
    else
      var c := (b[0] - 0xF0) * 262144 + (b[1] - 0x80) * 4096 + (b[2] - 0x80) * 64 + (b[3] - 0x80) - 0x1_0000;
      [0xD800 + c / 0x400, 0xDC00 + c % 0x400] + FromUtf8(b[4..])
  }

  lemma FourBack(c: int, rest: seq<int>)
    requires 0x1_0000 <= c < 0x11_0000
    ensures FromUtf8(Four(c) + rest) == [0xD800 + (c - 0x1_0000) / 0x400, 0xDC00 + (c - 0x1_0000) % 0x400] + FromUtf8(rest)
  {
    var b := Four(c) + rest;
    assert b[4..] == rest;
    assert c / 64 == 64 * (c / 4096) + c / 64 % 64;
    assert c / 4096 == 64 * (c / 262144) + c / 4096 % 64;
  }

  lemma ThreeBack(c: int, rest: seq<int>)
    requires 0 <= c < 0x1_0000
    ensures FromUtf8(Three(c) + rest) == [c] + FromUtf8(rest)
  {
    var b := Three(c) + rest;
    assert b[3..] == rest;
    assert c / 64 == 64 * (c / 4096) + c / 64 % 64;
  }

  lemma TwoBack(c: int, rest: seq<int>)
    requires 0 <= c < 0x800
    ensures FromUtf8(Two(c) + rest) == [c] + FromUtf8(rest)
  {
    assert (Two(c) + rest)[2..] == rest;
  }

  lemma OneBack(c: int, rest: seq<int>)
    requires 0 <= c < 0xC0
    ensures FromUtf8([c] + rest) == [c] + FromUtf8(rest)
  {
    assert ([c] + rest)[1..] == rest;
  }

  lemma PairBack(high: Unit, low: Unit)
    requires IsHigh(high) && IsLow(low)
    ensures var c := CodePoint(high, low);
            && 0x1_0000 <= c < 0x11_0000
            && 0xD800 + (c - 0x1_0000) / 0x400 == high && 0xDC00 + (c - 0x1_0000) % 0x400 == low
  {}

  /** The encoding loses nothing: every string of UTF-16 code units is read back. */
  lemma {:induction false} Utf8RoundTrip(s: Str)
    ensures FromUtf8(Utf8(s)) == s
    decreases |s|
  {
    hide FromUtf8, Two, Three, Four, CodePoint;
    if s == [] {
      assert FromUtf8([]) == [] by { NoBytes(); }
    } else if s[0] <= 0x7F {
      OneBack(s[0], Utf8(s[1..]));
      Utf8RoundTrip(s[1..]);
    } else if s[0] <= 0x7FF {
      TwoBack(s[0], Utf8(s[1..]));
      Utf8RoundTrip(s[1..]);
    } else if IsPair(s) {
      PairBack(s[0], s[1]);
      FourBack(CodePoint(s[0], s[1]), Utf8(s[2..]));
      Utf8RoundTrip(s[2..]);
      assert s == [s[0], s[1]] + s[2..];
    } else {
      ThreeBack(s[0], Utf8(s[1..]));
      Utf8RoundTrip(s[1..]);
    }
  }

  lemma NoBytes()
    ensures FromUtf8([]) == []
  {}

  function NonAscii(s: Str): nat {
    if s == [] then 0 else (if s[0] > 0x7F then 1 else 0) + NonAscii(s[1..])
  }

  // ---------------------------------------------------------------- the estimate

  /** The ceiling of a third of the bytes plus half of the units beyond ASCII. */
  function Rounded(bytes: nat, nonAscii: nat): nat {
    (2 * bytes + 3 * nonAscii + 5) / 6
  }

  function Estimate(s: Str): nat { Rounded(|Utf8(s)|, NonAscii(s)) }

  lemma Utf8Step(s: Str)
    requires s != []
    ensures |Utf8(s)| == if s[0] <= 0x7F then 1 + |Utf8(s[1..])|
                         else if s[0] <= 0x7FF then 2 + |Utf8(s[1..])|
                         else if IsPair(s) then 4 + |Utf8(s[2..])|
                         else 3 + |Utf8(s[1..])|
    ensures NonAscii(s) == (if s[0] > 0x7F then 1 else 0) + NonAscii(s[1..])
    ensures |s| >= 2 ==> NonAscii(s[1..]) == (if s[1] > 0x7F then 1 else 0) + NonAscii(s[2..])
  {
    if |s| >= 2 { assert s[1..][1..] == s[2..]; }
  }

  /** estimateWebWmTokens of a serialized value. */
  method EstimateTokens(serialized: Str) returns (tokens: nat)
    ensures tokens == Estimate(serialized)
    ensures 6 * tokens >= 2 * |Utf8(serialized)| + 3 * NonAscii(serialized) > 6 * tokens - 6
  {
    hide Utf8, NonAscii;
    var utf8Bytes, nonAsciiCodeUnits, index := 0, 0, 0;
    assert serialized[0..] == serialized;
    while index < |serialized|
      invariant index <= |serialized|
      invariant utf8Bytes + |Utf8(serialized[index..])| == |Utf8(serialized)|
      invariant nonAsciiCodeUnits + NonAscii(serialized[index..]) == NonAscii(serialized)
    {
      var rest := serialized[index..];
      Utf8Step(rest);
      assert rest[1..] == serialized[index + 1..];
      var code := serialized[index];
      if code <= 0x7F {
        utf8Bytes := utf8Bytes + 1;
        index := index + 1;
        continue;
      }
      nonAsciiCodeUnits := nonAsciiCodeUnits + 1;
      if code <= 0x7FF {
        utf8Bytes := utf8Bytes + 2;
        index := index + 1;
        continue;
      }
      if 0xD800 <= code <= 0xDBFF && index + 1 < |serialized| && 0xDC00 <= serialized[index + 1] <= 0xDFFF {
        assert rest[2..] == serialized[index + 2..];
        utf8Bytes := utf8Bytes + 4;
        nonAsciiCodeUnits := nonAsciiCodeUnits + 1;
        index := index + 2;
        continue;
      }
      utf8Bytes := utf8Bytes + 3;
      index := index + 1;
    }
    NothingLeft(serialized);
    tokens := (2 * utf8Bytes + 3 * nonAsciiCodeUnits + 5) / 6;
  }

  lemma NothingLeft(s: Str)
    ensures Utf8(s[|s|..]) == [] && NonAscii(s[|s|..]) == 0
  {}

  // ---------------------------------------------------------------- joining texts

  /** The join falls inside a surrogate pair. */
  predicate SplitsPair(a: Str, b: Str) {
    a != [] && b != [] && IsHigh(a[|a| - 1]) && IsLow(b[0])
  }

  /** The length of a join is the sum of the lengths, less two bytes exactly when it puts a pair together. */
  lemma {:induction false} Utf8Join(a: Str, b: Str)
    ensures |Utf8(a + b)| + (if SplitsPair(a, b) then 2 else 0) == |Utf8(a)| + |Utf8(b)|
    ensures NonAscii(a + b) == NonAscii(a) + NonAscii(b)
    decreases |a|
  {
    hide Utf8, NonAscii;
    if a == [] {
      assert a + b == b;
      NothingLeft([]);
    } else {
      var t := a + b;
      Utf8Step(a);
      Utf8Step(t);
      assert t[1..] == a[1..] + b;
      Utf8Join(a[1..], b);
      if |a| == 1 {
        assert a[1..] == [] && t[1..] == b;
        NothingLeft([]);
        if SplitsPair(a, b) {
          assert t[2..] == b[1..];
          Utf8Step(b);
        }
      } else {
        assert a[1..][|a| - 2] == a[|a| - 1];
        if IsPair(a) {
          assert t[2..] == a[2..] + b;
          Utf8Join(a[2..], b);
          if |a| > 2 { assert a[2..][|a| - 3] == a[|a| - 1]; }
        }
      }
    }
  }

  lemma RoundedSum(x: nat, y: nat, u: nat, v: nat)
    ensures Rounded(x + y, u + v) <= Rounded(x, u) + Rounded(y, v)
  {}

  lemma RoundedGrows(x: nat, y: nat, u: nat, v: nat)
    requires x <= y && u <= v
    ensures Rounded(x, u) <= Rounded(y, v)
  {}

  /** Estimating parts never gives less than estimating the whole, even when the join puts a surrogate pair together. */
  lemma Subadditive(a: Str, b: Str)
    ensures Estimate(a + b) <= Estimate(a) + Estimate(b)
  {
    hide Utf8, NonAscii, Rounded;
    Utf8Join(a, b);
    RoundedSum(|Utf8(a)|, |Utf8(b)|, NonAscii(a), NonAscii(b));
    RoundedGrows(|Utf8(a + b)|, |Utf8(a)| + |Utf8(b)|, NonAscii(a + b), NonAscii(a) + NonAscii(b));
  }

  /** More text never lowers the estimate. */
  lemma Monotone(a: Str, b: Str)
    ensures Estimate(a) <= Estimate(a + b) && Estimate(b) <= Estimate(a + b)
  {
    hide Utf8, NonAscii, Rounded;
    Utf8Join(a, b);
    if SplitsPair(a, b) {
      Utf8Step(b);
      LastBytes(a);
    }
    RoundedGrows(|Utf8(a)|, |Utf8(a + b)|, NonAscii(a), NonAscii(a + b));
    RoundedGrows(|Utf8(b)|, |Utf8(a + b)|, NonAscii(b), NonAscii(a + b));
  }

  lemma {:induction false} LastBytes(a: Str)
    requires a != [] && IsHigh(a[|a| - 1])
    ensures |Utf8(a)| >= 3
  {
    hide Utf8, NonAscii;
    var n := |a| - 1;
    assert a == a[..n] + [a[n]];
    Utf8Join(a[..n], [a[n]]);
    Utf8Step([a[n]]);
  }
}
