/** Strings as JavaScript sees them: sequences of UTF-16 code units. */
module Units {
  type Unit = u: int | 0 <= u < 0x1_0000
  type Str = seq<Unit>

  const TAB: Unit := 0x09
  const LF: Unit := 0x0A
  const CR: Unit := 0x0D
  const SPACE: Unit := 0x20
  const QUOTE: Unit := 0x22
  const COMMA: Unit := 0x2C
  const SLASH: Unit := 0x2F
  const STAR: Unit := 0x2A
  const COLON: Unit := 0x3A
  const BACKSLASH: Unit := 0x5C
  const OPEN_BRACE: Unit := 0x7B
  const CLOSE_BRACE: Unit := 0x7D
  const OPEN_BRACKET: Unit := 0x5B
  const CLOSE_BRACKET: Unit := 0x5D
  const BOM: Unit := 0xFEFF

  datatype Option<+T> = None | Some(value: T)

  /** The class `\s` of JavaScript regular expressions. */
  predicate IsSpace(u: Unit) {
    9 <= u <= 13 || u == 0x20 || u == 0xA0 || u == 0x1680 || 0x2000 <= u <= 0x200A
    || u == 0x2028 || u == 0x2029 || u == 0x202F || u == 0x205F || u == 0x3000 || u == BOM
  }

  /** The whitespace of RFC 8259, section 2: narrower than `\s`. */
  predicate IsJsonSpace(u: Unit) {
    u == TAB || u == LF || u == CR || u == SPACE
  }

  predicate AllSpace(t: Str) {
    forall u <- t :: IsSpace(u)
  }

  predicate AllJsonSpace(t: Str) {
    forall u <- t :: IsJsonSpace(u)
  }

  /** Adds `k` to an optional length. */
  function Shift(k: nat, n: Option<nat>): Option<nat> {
    if n.None? then None else Some(k + n.value)
  }

  /** The first position of `c`, or `|t|`. */
  function IndexOf(t: Str, c: Unit): (n: nat)
    ensures n <= |t|
    ensures forall i :: 0 <= i < n ==> t[i] != c
    ensures n < |t| ==> t[n] == c
  {
    if t == [] || t[0] == c then 0 else 1 + IndexOf(t[1..], c)
  }

  predicate IsPrefix(a: Str, b: Str) {
    |a| <= |b| && b[..|a|] == a
  }

  /** `slice`, which clamps its bounds. */
  function Slice(s: Str, from: nat, to: nat): Str {
    var end := if to < |s| then to else |s|;
    if from < end then s[from..end] else []
  }

  function SliceFrom(s: Str, from: nat): Str {
    if from < |s| then s[from..] else []
  }

  /** The code units of an ASCII literal. */
  function Ascii(s: string): (t: Str)
    ensures |t| == |s|
  {
    seq(|s|, i requires 0 <= i < |s| => s[i] as int % 0x1_0000)
  }
}
