/** Bytes, the C character classes the drivers use, and reads past the end of a C string. */
module Bytes {
  datatype Option<T> = None | Some(value: T)

  type Byte = b: int | 0 <= b < 256

  type Text = seq<Byte>

  /** A byte of a NUL-terminated C string: the terminator is what lies behind the last byte. */
  function At(s: Text, k: int): Byte {
    if 0 <= k < |s| then s[k] else 0
  }

  predicate IsSpace(b: Byte) {
    9 <= b <= 13 || b == 32
  }

  predicate IsDigit(b: Byte) {
    48 <= b <= 57
  }

  predicate IsHexDigit(b: Byte) {
    IsDigit(b) || 65 <= b <= 70 || 97 <= b <= 102
  }

  function ToLower(c: int): int {
    if 65 <= c <= 90 then c + 32 else c
  }

  /** The value of a byte held in a (signed) `char`. */
  function Signed(b: Byte): int {
    if b < 128 then b else b - 256
  }

  function Max(a: int, b: int): int {
    if a < b then b else a
  }

  function Min(a: int, b: int): int {
    if a < b then a else b
  }

  // ---- 32-bit numbers in memory -----------------------------------------------------------------

  const ULONG_RANGE := 0x1_0000_0000

  /** Little-endian; the value is taken modulo the width of the type. */
  function Le32(n: int): (s: Text)
    ensures |s| == 4
  {
    var v := n % ULONG_RANGE;
    [v % 0x100, v / 0x100 % 0x100, v / 0x100 / 0x100 % 0x100, v / 0x100 / 0x100 / 0x100]
  }

  function ReadLe32(s: Text): nat
    requires 4 <= |s|
  {
    var a: int, b: int, c: int, d: int := s[0], s[1], s[2], s[3];
    a + 0x100 * (b + 0x100 * (c + 0x100 * d))
  }

  /** The lowest byte comes first. */
  lemma {:induction false} Le32Bytes(n: nat)
    requires n < 4294967296
    ensures Le32(n) == [n % 256, n / 256 % 256, n / 65536 % 256, n / 16777216 % 256]
  {
    var a, b, c := n % 256, n / 256, n / 65536;
    assert b / 256 == c && c / 256 == n / 16777216 < 256;
  }

  lemma {:induction false} Le32RoundTrip(n: nat)
    requires n < ULONG_RANGE
    ensures ReadLe32(Le32(n)) == n
  {
  }

  lemma {:induction false} Digit(a: nat, x: nat)
    requires a < 0x100
    ensures (a + 0x100 * x) % 0x100 == a && (a + 0x100 * x) / 0x100 == x
  {
  }

  lemma {:induction false} ReadLe32RoundTrip(s: Text)
    requires |s| == 4
    ensures ReadLe32(s) < ULONG_RANGE && Le32(ReadLe32(s)) == s
  {
    hide Le32;
    var a: int, b: int, c: int, d: int := s[0], s[1], s[2], s[3];
    FourDigits(a, b, c, d);
    assert s == [s[0], s[1], s[2], s[3]];
  }

  lemma {:induction false} FourDigits(a: nat, b: nat, c: nat, d: nat)
    requires a < 0x100 && b < 0x100 && c < 0x100 && d < 0x100
    ensures var n := a + 0x100 * (b + 0x100 * (c + 0x100 * d)); n < ULONG_RANGE && Le32(n) == [a, b, c, d]
  {
    hide Le32;
    var l := c + 0x100 * d;
    var k := b + 0x100 * l;
    Digit(a, k);
    Digit(b, l);
    Digit(c, d);
    Le32Of(a + 0x100 * k, k, l, a, b, c, d);
  }

  lemma {:induction false} Le32Of(n: nat, k: nat, l: nat, a: nat, b: nat, c: nat, d: nat)
    requires n < ULONG_RANGE && n % 0x100 == a && n / 0x100 == k && k % 0x100 == b && k / 0x100 == l
    requires l % 0x100 == c && l / 0x100 == d
    ensures Le32(n) == [a, b, c, d]
  {
  }

  // ---- Texts in texts -----------------------------------------------------------------------------

  lemma {:induction false} SplitSlice(p: Text, lo: int, a: Text, b: Text)
    requires 0 <= lo && lo + |a| + |b| <= |p| && p[lo..lo + |a| + |b|] == a + b
    ensures p[lo..lo + |a|] == a && p[lo + |a|..lo + |a| + |b|] == b
  {
    var s := p[lo..lo + |a| + |b|];
    assert p[lo..lo + |a|] == s[..|a|] && p[lo + |a|..lo + |a| + |b|] == s[|a|..];
  }

  lemma {:induction false} SubSlice(p: Text, pos: int, len: int, i: int, d: int)
    requires 0 <= pos && 0 <= i && 0 <= d && i + d <= len && pos + len <= |p|
    ensures p[pos + i..pos + i + d] == p[pos..pos + len][i..i + d]
  {
    var a, b := p[pos + i..pos + i + d], p[pos..pos + len][i..i + d];
    assert |a| == |b| && forall k :: 0 <= k < |a| ==> a[k] == b[k];
  }

  lemma {:induction false} ReadBack(p: Text, lo: int, s: Text)
    requires 0 <= lo && lo + |s| <= |p| && p[lo..lo + |s|] == s
    ensures forall k :: 0 <= k < |s| ==> At(p, lo + k) == s[k]
  {
    forall k | 0 <= k < |s| ensures At(p, lo + k) == s[k] {
      assert p[lo..lo + |s|][k] == p[lo + k];
    }
  }
}
