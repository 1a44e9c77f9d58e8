/** Octets, little-endian words and the small option type shared by every module. */
module Bytes {

  /** An octet, as the unsigned value it holds. */
  type byte = x: int | 0 <= x < 256

  /** A 16-bit unsigned value. */
  type u16 = x: int | 0 <= x < 0x1_0000

  /** A 32-bit unsigned value. */
  type u32 = x: int | 0 <= x < 0x1_0000_0000

  datatype Option<T> = None | Some(value: T)

  /** The little-endian 16-bit value of two octets. */
  function LE16(b0: byte, b1: byte): (r: u16)
    ensures r % 256 == b0 && r / 256 == b1
  {
    b1 * 256 + b0
  }

  /** The little-endian 32-bit value of four octets. */
  function LE32(b0: byte, b1: byte, b2: byte, b3: byte): (r: u32)
    ensures r % 0x1_0000 == LE16(b0, b1) && r / 0x1_0000 == LE16(b2, b3)
  {
    var lo, hi := LE16(b0, b1), LE16(b2, b3);
    Split16(hi, lo);
    hi * 0x1_0000 + lo
  }

  /** Euclidean division undoes a 16-bit shift-and-or. */
  lemma Split16(hi: nat, lo: nat)
    requires lo < 0x1_0000
    ensures (hi * 0x1_0000 + lo) / 0x1_0000 == hi && (hi * 0x1_0000 + lo) % 0x1_0000 == lo
  {
    var n := hi * 0x1_0000 + lo;
    var d, m := n / 0x1_0000, n % 0x1_0000;
    assert n == d * 0x1_0000 + m && 0 <= m < 0x1_0000;
    assert (d - hi) * 0x1_0000 == lo - m;
  }

  /** The four octets of a word, least significant first. */
  function WordBytesLE(w: u32): (r: seq<byte>)
    ensures |r| == 4 && LE32(r[0], r[1], r[2], r[3]) == w
  {
    var lo := w % 0x1_0000;
    var hi := w / 0x1_0000;
    [lo % 256, lo / 256, hi % 256, hi / 256]
  }

  /** A `uint8_t` decremented in place: 0 wraps round to 255. */
  function Dec8(b: byte): (r: byte)
    ensures (r + 1) % 256 == b
  {
    if b == 0 then 255 else b - 1
  }

  function Pow2(k: nat): (r: nat)
    ensures r >= 1
  {
    if k == 0 then 1 else 2 * Pow2(k - 1)
  }

  /** `1 << k` for the bit positions of an octet. */
  function Weight(k: int): nat
  {
    match k
    case 0 => 1 case 1 => 2 case 2 => 4 case 3 => 8
    case 4 => 16 case 5 => 32 case 6 => 64 case _ => 128
  }

  /** Bit `k` (0 to 7) of `x`, as `x & (1 << k)` tests it. */
  predicate Bit(x: int, k: int)
  {
    0 <= k < 8 && (x / Weight(k)) % 2 == 1
  }

  /** The top bit of an octet is set exactly from 128 up. */
  lemma TopBit(c: byte)
    ensures Bit(c, 7) <==> c >= 128
  {
    if c >= 128 {
      assert c / 128 == 1 by { assert c == 128 * 1 + (c - 128); }
    } else {
      assert c / 128 == 0;
    }
  }

  /** The octets of a little-endian 16-bit value are the octets it was built from. */
  lemma LE16Bytes(b0: byte, b1: byte)
    ensures var v := LE16(b0, b1); v % 256 == b0 && v / 256 == b1
  {
  }

  /** Splitting a word into octets and putting them back together is the identity, both ways round. */
  lemma {:induction false} WordBytesRoundTrip(b0: byte, b1: byte, b2: byte, b3: byte)
    ensures WordBytesLE(LE32(b0, b1, b2, b3)) == [b0, b1, b2, b3]
  {
    var w := LE32(b0, b1, b2, b3);
    assert w % 0x1_0000 == LE16(b0, b1) && w / 0x1_0000 == LE16(b2, b3);
    LE16Bytes(b0, b1);
    LE16Bytes(b2, b3);
  }

  predicate NoZero(s: seq<byte>)
  {
    forall i :: 0 <= i < |s| ==> s[i] != 0
  }

  /** The decimal digits of `k`, most significant first. */
  function Decimal(k: nat): (s: string)
    ensures s != [] && forall i :: 0 <= i < |s| ==> '0' <= s[i] <= '9'
    decreases k
  {
    if k < 10 then [('0' as int + k) as char] else Decimal(k / 10) + [('0' as int + k % 10) as char]
  }

  /** The digits of a number give the number back. */
  function DecimalValue(s: string): int
    decreases |s|
  {
    if s == [] then 0 else DecimalValue(s[..|s| - 1]) * 10 + (s[|s| - 1] as int - '0' as int)
  }

  lemma {:induction false} DecimalReads(k: nat)
    ensures DecimalValue(Decimal(k)) == k
    decreases k
  {
    if k >= 10 {
      var s := Decimal(k);
      DecimalReads(k / 10);
      assert s[..|s| - 1] == Decimal(k / 10);
    }
  }

  lemma {:induction false} DecimalBound(k: nat)
    requires k <= 0x8000_0000
    ensures |Decimal(k)| <= 10
  {
    if k >= 10 {
      DecimalShort(k / 10, 9);
    }
  }

  lemma {:induction false} DecimalShort(k: nat, n: nat)
    requires k < Pow10(n)
    ensures |Decimal(k)| <= if n == 0 then 1 else n
    decreases n
  {
    if k >= 10 {
      DecimalShort(k / 10, n - 1);
    }
  }

  function Pow10(n: nat): nat
  {
    if n == 0 then 1 else 10 * Pow10(n - 1)
  }

  /** `%d` of a signed integer: a minus sign before the digits of a negative one. */
  function SignedDecimal(v: int): string
  {
    if v >= 0 then Decimal(v) else "-" + Decimal(-v)
  }

  /** `x <= y` scales by a non-negative factor. */
  lemma {:induction false} MulMono(d: int, x: int, y: int)
    requires d >= 0 && x <= y
    ensures d * x <= d * y
    decreases y - x
  {
    if x < y {
      MulMono(d, x, y - 1);
      assert d * y == d * (y - 1) + d;
    }
  }

  /** Quotient and remainder are the only ones. */
  lemma DivModUnique(v: int, d: int, k: int, m: int)
    requires d > 0 && v == d * k + m && 0 <= m < d
    ensures v / d == k && v % d == m
  {
    var q, s := v / d, v % d;
    assert v == d * q + s && 0 <= s < d;
    if k > q {
      assert d * (k - q) == d * k - d * q;
      MulMono(d, 1, k - q);
      assert false;
    } else if k < q {
      assert d * (q - k) == d * q - d * k;
      MulMono(d, 1, q - k);
      assert false;
    }
  }

  /** The three-way answer of `strcmp`: negative, zero or positive as `a` sorts before, with or after `b`. */
  function StrCmp(a: string, b: string): (r: int)
    ensures r == 0 <==> a == b
  {
    if a == [] && b == [] then 0
    else if a == [] then -1
    else if b == [] then 1
    else if a[0] < b[0] then -1
    else if a[0] > b[0] then 1
    else StrCmp(a[1..], b[1..])
  }

  /** Swapping the strings reverses the answer. */
  lemma {:induction false} StrCmpAntisymmetric(a: string, b: string)
    ensures StrCmp(a, b) < 0 <==> StrCmp(b, a) > 0
  {
    if a != [] && b != [] && a[0] == b[0] {
      StrCmpAntisymmetric(a[1..], b[1..]);
    }
  }

  /** A string sorts before any longer string that starts with it. */
  lemma {:induction false} StrCmpPrefix(a: string, b: string)
    requires |a| < |b| && a == b[..|a|]
    ensures StrCmp(a, b) < 0
  {
    if a != [] {
      assert a[1..] == b[1..][..|a| - 1];
      StrCmpPrefix(a[1..], b[1..]);
    }
  }

  /** Sorting before is transitive. */
  lemma {:induction false} StrCmpTransitive(a: string, b: string, c: string)
    requires StrCmp(a, b) < 0 && StrCmp(b, c) < 0
    ensures StrCmp(a, c) < 0
  {
    if a != [] && b != [] && c != [] && a[0] == b[0] && b[0] == c[0] {
      StrCmpTransitive(a[1..], b[1..], c[1..]);
    }
  }
}
