/**
 * The processor state the instruction-trace engines reconstruct, and the record
 * of what changed in it since the client last looked.
 */
module TraceCpu {
  import opened Bytes

  /** The change flags, in the order of the C enumeration. */
  datatype Change = ExEntry | ExExit | ClockSpeed | EnAtoms | WAtoms | Address | Cancelled | Vmid | TStamp
                  | CycleCount | ContextId | Trigger | Secure | AltIsa | Hyp | Resume | Reason | Jazelle
                  | Thumb | IsLsip | Linear | TraceStart | TraceStop | Discard | Overflow | FnReturn
                  | ExReturn | DataSync | UDataSync | Event0 | Event1 | Event2 | Event3

  /** The value of each flag in the C enumeration. */
  function ChangeIndex(c: Change): (n: nat)
    ensures n <= 32 && (n == 32 <==> c == Event3)
  {
    match c
    case ExEntry => 0       case ExExit => 1      case ClockSpeed => 2  case EnAtoms => 3
    case WAtoms => 4        case Address => 5     case Cancelled => 6   case Vmid => 7
    case TStamp => 8        case CycleCount => 9  case ContextId => 10  case Trigger => 11
    case Secure => 12       case AltIsa => 13     case Hyp => 14        case Resume => 15
    case Reason => 16       case Jazelle => 17    case Thumb => 18      case IsLsip => 19
    case Linear => 20       case TraceStart => 21 case TraceStop => 22  case Discard => 23
    case Overflow => 24     case FnReturn => 25   case ExReturn => 26   case DataSync => 27
    case UDataSync => 28    case Event0 => 29     case Event1 => 30     case Event2 => 31
    case Event3 => 32
  }

  /** `ADDRESS_UNKNOWN` and `COUNT_UNKNOWN`: all 64 bits set. */
  const UNKNOWN: nat := 0xFFFF_FFFF_FFFF_FFFF

  const TWO_32: nat := 0x1_0000_0000
  const TWO_64: nat := 0x1_0000_0000_0000_0000

  datatype AddrMode = ModeThumb | ModeArm | ModeJazelle

  /**
   * `struct TRACECPUState`.  The change record is the set of flags raised
   * (`_stateChange` adds one); the C code keeps it as a bit mask (see
   * `MaskAsWritten`).  Counters are unbounded
   * except where the engines wrap them explicitly.
   */
  datatype Cpu = Cpu(
    changeRecord: set<Change>,
    ts: nat, addr: nat, toAddr: nat, nextAddr: nat, addrMode: AddrMode,
    contextID: nat, vmid: byte, cycleCount: nat, exception: nat, resume: nat, serious: bool,
    instCount: nat, exceptionLevel: nat, am64bit: bool, amSecure: bool,
    reason: nat, isLSiP: bool, watoms: nat, eatoms: nat, natoms: nat, disposition: nat,
    dsyncMark: nat, udsyncMark: nat,
    jazelle: bool, nonSecure: bool, altISA: bool, hyp: bool, thumb: bool)

  /** The state `TRACEDecoderInit` leaves: all zero except an unknown address and cycle count. */
  const INIT_CPU: Cpu := Cpu({}, 0, UNKNOWN, 0, 0, ModeThumb, 0, 0, UNKNOWN, 0, 0, false,
                             0, 0, false, false, 0, false, 0, 0, 0, 0, 0, 0,
                             false, false, false, false, false)

  /** The answer and the new record of `TRACEStateChanged`: whether `c` was raised, and the record with only `c` lowered. */
  function StateChanged(cr: set<Change>, c: Change): (res: (bool, set<Change>))
    ensures res.0 <==> c in cr
    ensures c !in res.1 && forall d :: d != c ==> (d in res.1 <==> d in cr)
  {
    (c in cr, cr - {c})
  }

  /** Raising a flag (`_stateChange`) and then asking for it answers yes, for every flag, and leaves the other flags as they were. */
  lemma RaiseThenAsk(cr: set<Change>, c: Change)
    ensures var (r, cr') := StateChanged(cr + {c}, c);
            r && cr' == cr - {c}
  {
  }

  /**
   * `x` with bits `lo` to `lo + w - 1` replaced by the low `w` bits of `v`:
   * `(x & ~(mask << lo)) | ((v & mask) << lo)` where `mask` holds the low `w`
   * bits, on unbounded values.
   */
  function Splice(x: nat, lo: nat, w: nat, v: nat): nat
    decreases lo + w
  {
    if lo > 0 then x % 2 + 2 * Splice(x / 2, lo - 1, w, v)
    else if w > 0 then v % 2 + 2 * Splice(x / 2, 0, w - 1, v / 2)
    else x
  }

  /** What a `uint64_t` keeps of `n`. */
  function U64(n: nat): (m: nat)
    ensures m < TWO_64 && (n < TWO_64 ==> m == n)
  {
    n % TWO_64
  }

  /** The field replacement on a 32-bit register: whatever is pushed past bit 31 is lost. */
  function Put32(x: nat, lo: nat, w: nat, v: nat): (r: nat)
    ensures r < TWO_32
  {
    Splice(x, lo, w, v) % TWO_32
  }

  /** The same field replacement on a 64-bit register. */
  function Put64(x: nat, lo: nat, w: nat, v: nat): (r: nat)
    ensures r < TWO_64
  {
    Splice(x, lo, w, v) % TWO_64
  }

  /** `v << k` on unbounded values. */
  function Shl(v: nat, k: nat): nat
  {
    if k == 0 then v else 2 * Shl(v, k - 1)
  }

  /** `a | b` on unsigned values. */
  function Or(a: nat, b: nat): (r: nat)
    ensures r >= a && r >= b
    decreases a + b
  {
    if a == 0 then b
    else if b == 0 then a
    else (if a % 2 == 1 || b % 2 == 1 then 1 else 0) + 2 * Or(a / 2, b / 2)
  }

  /**
   * The bit `1 << c` that `_stateChange` ORs into the 32-bit `changeRecord`,
   * as a 32-bit value.  The shift of `Event3` is by 32 places, which is
   * undefined in C; the value here is the truncating one.
   */
  function MaskAsWritten(c: Change): (m: nat)
    ensures m < TWO_32
  {
    Pow2(ChangeIndex(c)) % TWO_32
  }

  /** In the 32-bit record every flag but `Event3` has a bit of its own; `Event3` has none, so raising it is lost. */
  lemma {:induction false} Event3HasNoBit(c: Change)
    ensures MaskAsWritten(c) == 0 <==> c == Event3
  {
    var k := ChangeIndex(c);
    var p := Pow2(k);
    Pow2Literal32();
    if k < 32 {
      Pow2Below(k, 32);
      assert 1 <= p < TWO_32;
      assert p % TWO_32 == p;
    } else {
      assert p == TWO_32;
    }
  }

  lemma {:induction false} Pow2Literal32()
    ensures Pow2(32) == TWO_32
  {
    assert Pow2(8) == 256;
    Pow2Add(8, 8);
    Pow2Add(16, 16);
  }

  lemma {:induction false} Pow2Add(a: nat, b: nat)
    ensures Pow2(a + b) == Pow2(a) * Pow2(b)
    decreases b
  {
    if b > 0 {
      Pow2Add(a, b - 1);
    }
  }

  lemma {:induction false} Pow2Below(k: nat, n: nat)
    requires k < n
    ensures 1 <= Pow2(k) < Pow2(n)
    decreases n
  {
    if k < n - 1 {
      Pow2Below(k, n - 1);
    }
  }

  /** Splitting off the lowest bit of a remainder by an even modulus. */
  lemma ModHalf(v: nat, p: nat)
    requires p >= 1
    ensures v % (2 * p) == v % 2 + 2 * ((v / 2) % p)
  {
    var b, q := v % 2, v / 2;
    var k, m := q / p, q % p;
    assert v == (2 * p) * k + (b + 2 * m);
    DivModUnique(v, 2 * p, k, b + 2 * m);
  }

  /** Putting `w` bits of `v` into zero gives the low `w` bits of `v`. */
  lemma {:induction false} SpliceLowZero(w: nat, v: nat)
    ensures Splice(0, 0, w, v) == v % Pow2(w)
    decreases w
  {
    if w > 0 {
      SpliceLowZero(w - 1, v / 2);
      ModHalf(v, Pow2(w - 1));
    }
  }

  /** Putting bits above everything `x` holds adds them, shifted to their position. */
  lemma {:induction false} SpliceAbove(x: nat, lo: nat, w: nat, v: nat)
    requires x < Pow2(lo)
    ensures Splice(x, lo, w, v) == x + Shl(v % Pow2(w), lo)
    decreases lo
  {
    if lo > 0 {
      SpliceAbove(x / 2, lo - 1, w, v);
    } else {
      SpliceLowZero(w, v);
    }
  }

  /** A `w`-bit value shifted left by `k` stays within `k + w` bits, clear of the `k` bits below it. */
  lemma {:induction false} ShlBound(x: nat, k: nat, w: nat)
    requires x < Pow2(w)
    ensures Shl(x, k) + Pow2(k) <= Pow2(k + w)
    decreases k
  {
    if k > 0 {
      ShlBound(x, k - 1, w);
      assert Pow2(k + w) == 2 * Pow2(k - 1 + w);
    }
  }

  lemma {:induction false} Pow2Literal64()
    ensures Pow2(64) == TWO_64
  {
    Pow2Literal32();
    Pow2Add(32, 32);
  }

  /** A remainder by a multiple of `a` has the same remainder by `a`. */
  lemma ModMod(v: nat, a: nat, b: nat)
    requires a >= 1 && b >= 1
    ensures (v % (a * b)) % a == v % a
  {
    var q, r := v / (a * b), v % (a * b);
    var s, t := r / a, r % a;
    assert v == (a * b) * q + r;
    assert r == a * s + t;
    assert (a * b) * q == a * (b * q);
    DivModUnique(v, a, b * q + s, t);
  }

  /** Replacing a field leaves the bits below it as they were. */
  lemma {:induction false} SpliceBelow(x: nat, lo: nat, w: nat, v: nat)
    ensures Splice(x, lo, w, v) % Pow2(lo) == x % Pow2(lo)
    decreases lo
  {
    if lo > 0 {
      var s, t, p := Splice(x, lo, w, v), Splice(x / 2, lo - 1, w, v), Pow2(lo - 1);
      SpliceBelow(x / 2, lo - 1, w, v);
      assert s == 2 * t + x % 2;
      DivModUnique(s, 2, t, x % 2);
      ModHalf(s, p);
      ModHalf(x, p);
    }
  }
}
