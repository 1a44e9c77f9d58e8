/**
 * The ETMv4 instruction-trace engine: a byte-driven machine that recognises
 * the A-sync and trace-info packets, atoms, exact-match, short and long
 * addresses (kept in a three-entry address queue), context, exception,
 * timestamp and event packets, and folds them into the processor state.
 */
module TraceEtm4 {
  import opened Bytes
  import opened TraceCpu

  /** The states of the protocol machine, in the order of the C enumeration. */
  datatype Proto = Unsynced | Idle | GetCycleCount | WaitInfo | GetInfoPlctl | GetInfoInfo | GetInfoKey
                 | GetInfoSpec | GetInfoCyct | Extension | GetTimestamp | GetTsCc | Commit | GetShortAddr
                 | Get32BitAddr | Get64BitAddr | GetContext | GetVContext | GetContextId
                 | GetExceptionInfo1 | GetExceptionInfo2

  /** The instruction set an address belongs to: word-aligned (`IS0`) or halfword-aligned (`IS1`). */
  datatype InstSet = IS0 | IS1

  /** One entry of the address queue. */
  datatype QEntry = QEntry(addr: nat, inst: InstSet)

  /**
   * The registers the trace info packet sets: the payload control byte and
   * the sections it announces (cycle counting, conditional, load and store
   * tracing, the return-stack key and the speculation depth).
   */
  datatype TraceInfo = TraceInfo(plctl: byte, ccEnabled: bool, condEnabled: nat, loadTraced: bool, storeTraced: bool,
                                 nextrhkey: nat, spec: nat)

  /**
   * `struct ETM4DecodeState` without the engine header, with the trace info
   * registers kept together.  The cycle count threshold `cyct` is never
   * written and is left out.
   */
  datatype Regs = Regs(p: Proto, asyncCount: nat, rxedISYNC: bool, info: TraceInfo,
                       haveContext: bool, context: nat, vcontext: nat,
                       ex0: byte, ccFollows: bool, idx: nat, cntUpdate: nat, q: seq<QEntry>)

  /** The address queue after `_flushQ`: three zero addresses in the word-aligned set. */
  const FLUSHED: seq<QEntry> := [QEntry(0, IS0), QEntry(0, IS0), QEntry(0, IS0)]

  /** The state `ETM4DecoderPumpCreate` leaves: everything zero. */
  const INIT: Regs := Regs(Unsynced, 0, false, TraceInfo(0, false, 0, false, false, 0, 0), false, 0, 0, 0, false, 0, 0, FLUSHED)

  /**
   * What every step keeps: three queue entries of 64 bits, 32-bit context and
   * count registers, and the byte index within the 8 bits of its `uint8_t`
   * (every update of it goes through `U8`).
   */
  predicate Inv(r: Regs)
  {
    && QWidths(r.q)
    && r.context < TWO_32 && r.vcontext < TWO_32 && r.cntUpdate < TWO_32
    && r.idx < 256
  }

  /** Three queue entries, each address within 64 bits. */
  predicate QWidths(q: seq<QEntry>)
  {
    |q| == 3 && forall i :: 0 <= i < 3 ==> q[i].addr < TWO_64
  }

  /** `x` and `y` agree on their low `k` bits. */
  predicate SameBelow(x: nat, y: nat, k: nat)
  {
    x % Pow2(k) == y % Pow2(k)
  }

  /** What a `uint8_t` keeps of `n`. */
  function U8(n: nat): (m: byte)
    ensures n < 256 ==> m == n
    ensures 256 <= n < 512 ==> m == n - 256
  {
    n % 256
  }

  /** The address field boundaries: after the first (7-bit) and second bytes, then every eight bits. */
  predicate FieldStart(idx: nat)
  {
    idx == 1 || idx == 2 || idx == 8 || idx == 9 || idx == 16 || idx == 24 || idx == 32 || idx == 40 || idx == 48 || idx == 56
  }

  lemma InitInv()
    ensures Inv(INIT) && INIT.p == Unsynced && !INIT.rxedISYNC
  {
  }

  // ---------------------------------------------------------------- the address queue

  /** `_stackQ`: a new address is about to be written to entry 0; the older ones move one place down and the oldest is lost. */
  function StackQ(q: seq<QEntry>): (q': seq<QEntry>)
    requires |q| == 3
    ensures |q'| == 3
  {
    [q[0], q[0], q[1]]
  }

  /** After a push the entries that were 0 and 1 are found one place further down, and entry 0 is still there to be overwritten. */
  lemma StackQKeeps(q: seq<QEntry>)
    requires |q| == 3
    ensures forall k :: 0 <= k < 2 ==> StackQ(q)[k + 1] == q[k]
    ensures StackQ(q)[0] == q[0]
    ensures (forall i :: 0 <= i < 3 ==> q[i].addr < TWO_64) ==> forall i :: 0 <= i < 3 ==> StackQ(q)[i].addr < TWO_64
  {
  }

  /** After `_flushQ` every entry is address 0 in the word-aligned set, and an exact match finds nothing else. */
  lemma Flushed()
    ensures QWidths(FLUSHED) && forall i :: 0 <= i < 3 ==> FLUSHED[i] == QEntry(0, IS0)
  {
  }

  /** `q[0].addr &= mask` with a 32-bit mask that clears the low bits below `low` (2 or 4), and the upper word. */
  function AlignLow(a: nat, low: nat): (r: nat)
    requires low == 2 || low == 4
    ensures r < TWO_32 && r % low == 0 && r <= a
  {
    ModMod(a, low, TWO_32 / low);
    SubRem(a % TWO_32, low);
    a % TWO_32 - a % low
  }

  /** Taking its remainder off a number leaves a multiple. */
  lemma SubRem(m: nat, low: nat)
    requires low > 0
    ensures (m - m % low) % low == 0
  {
    assert m - m % low == low * (m / low);
    DivModUnique(m - m % low, low, m / low, 0);
  }

  // ---------------------------------------------------------------- atoms

  /** The number of set bits of `n`: how many atoms a disposition marks executed. */
  function Popcount(n: nat): nat
  {
    if n == 0 then 0 else n % 2 + Popcount(n / 2)
  }

  /** `(1 << e) - 1`: the disposition with the low `e` atoms executed. */
  lemma {:induction false} PopcountOnes(e: nat)
    ensures Popcount(Pow2(e) - 1) == e
  {
    if e > 0 {
      var x, y := Pow2(e) - 1, Pow2(e - 1) - 1;
      PopcountOnes(e - 1);
      DivModUnique(x, 2, y, 1);
      assert Popcount(x) == 1 + Popcount(y);
    }
  }

  /** A bit of `c`, as the number 0 or 1. */
  function B(c: byte, k: nat): (b: nat)
    ensures b <= 1 && (b == 1 <==> Bit(c, k))
  {
    if Bit(c, k) then 1 else 0
  }

  /** Which of the six atom formats an `Idle` header byte from 0xC0 up is. */
  function AtomFormat(c: byte): (f: nat)
    requires c >= 0xC0
    ensures 1 <= f <= 6
  {
    if 0xF6 <= c <= 0xF7 then 1
    else if 0xD8 <= c <= 0xDB then 2
    else if 0xF8 <= c then 3
    else if 0xDC <= c <= 0xDF then 4
    else if c == 0xD5 || c == 0xD6 || c == 0xD7 || c == 0xF5 then 5
    else 6
  }

  /** The atoms of one packet: `e` executed, `n` not, their disposition `d`, and the instruction count `ic` after them. */
  datatype AtomRun = AtomRun(e: nat, n: nat, d: nat, ic: nat)

  /**
   * The executed and not-executed atom counts, the disposition (bit `i` set
   * for an executed atom `i`) and the new instruction count of an atom packet.
   * Format 6 sets the instruction count to the number of atoms rather than
   * adding to it.
   */
  function AtomFields(ic: nat, c: byte): (res: AtomRun)
    requires c >= 0xC0
  {
    match AtomFormat(c)
    case 1 => AtomRun(B(c, 0), 1 - B(c, 0), c % 2, ic + 1)
    case 2 => var e := B(c, 1) + B(c, 0); AtomRun(e, 2 - e, c % 4, ic + 2)
    case 3 => var e := B(c, 0) + B(c, 1) + B(c, 2); AtomRun(e, 3 - e, c % 8, ic + 3)
    case 4 =>
      var (n, d) := if c % 4 == 0 then (1, 0xE) else if c % 4 == 1 then (4, 0) else if c % 4 == 2 then (2, 0xA) else (2, 0x5);
      AtomRun(4 - n, n, d, ic + 4)
    case 5 =>
      // bits 5, 1 and 0 select the pattern; 0b011 is the only one left for these four bytes
      var sel := 4 * B(c, 5) + 2 * B(c, 1) + B(c, 0);
      var (n, d) := if sel == 5 then (1, 0x1E) else if sel == 1 then (5, 0) else if sel == 2 then (3, 0xA) else (2, 0x15);
      AtomRun(5 - n, n, d, ic + 5)
    case _ =>
      // `(1 << eatoms) - 1` in the 32-bit disposition, the shift truncated to
      // the register; clearing bit `eatoms - 1` leaves the ones below it
      var e := c % 32 + 3;
      if Bit(c, 5) then AtomRun(e - 1, 1, (Pow2(e - 1) - 1) % TWO_32, e) else AtomRun(e, 0, (Pow2(e) - 1) % TWO_32, e)
  }

  /** An atom packet: the atoms are recorded, and reported only once an address is known. */
  function Atoms(cpu: Cpu, c: byte): (res: (Cpu, bool))
    requires c >= 0xC0
    ensures res.1 <==> cpu.addr != UNKNOWN
    ensures res.0.changeRecord == if res.1 then cpu.changeRecord + {EnAtoms} else cpu.changeRecord
    ensures res.0.addr == cpu.addr && res.0.cycleCount == cpu.cycleCount
  {
    RecordAtoms(cpu, AtomFields(cpu.instCount, c))
  }

  /** The processor state with the atoms of `f` recorded. */
  function RecordAtoms(cpu: Cpu, f: AtomRun): (res: (Cpu, bool))
    ensures res.1 <==> cpu.addr != UNKNOWN
    ensures res.0.changeRecord == if res.1 then cpu.changeRecord + {EnAtoms} else cpu.changeRecord
    ensures res.0.addr == cpu.addr && res.0.cycleCount == cpu.cycleCount
    ensures res.0.eatoms == f.e && res.0.natoms == f.n && res.0.disposition == f.d && res.0.instCount == f.ic
  {
    var cr := if cpu.addr != UNKNOWN then cpu.changeRecord + {EnAtoms} else cpu.changeRecord;
    (cpu.(eatoms := f.e, natoms := f.n, disposition := f.d, instCount := f.ic, changeRecord := cr), cpu.addr != UNKNOWN)
  }

  /**
   * A disposition for `e` executed and `n` not-executed atoms: a 32-bit field
   * with one bit per atom, set exactly for the executed ones.  Atoms beyond
   * the 32nd have no bit.
   */
  predicate Disposition(e: nat, n: nat, d: nat)
  {
    && d < TWO_32
    && Popcount(d) == (if e <= 32 then e else 32)
    && (e + n <= 32 ==> d < Pow2(e + n))
  }

  /**
   * What an atom packet of format `f` promises of its fields: formats 1 to 5
   * carry as many atoms as their number and count them into the instructions
   * executed; format 6 carries three to 23 atoms, at most the last not
   * executed, and the instruction count becomes their number.  In every
   * format the disposition marks exactly the executed atoms among the first
   * 32.
   */
  predicate AtomsOk(f: nat, c: byte, ic: nat, e: nat, n: nat, d: nat, ic': nat)
  {
    && (f <= 5 ==> e + n == f && ic' == ic + f)
    && (f == 6 ==> e + n == c % 32 + 3 == ic' && n <= 1)
    && Disposition(e, n, d)
  }

  /** Every atom packet keeps the promises of its format. */
  lemma AtomsConsistent(cpu: Cpu, c: byte)
    requires c >= 0xC0
    ensures var (cpu', _) := Atoms(cpu, c);
            AtomsOk(AtomFormat(c), c, cpu.instCount, cpu'.eatoms, cpu'.natoms, cpu'.disposition, cpu'.instCount)
  {
    AtomFieldsConsistent(cpu.instCount, c);
  }

  lemma AtomFieldsConsistent(ic: nat, c: byte)
    requires c >= 0xC0
    ensures var AtomRun(e, n, d, ic') := AtomFields(ic, c); AtomsOk(AtomFormat(c), c, ic, e, n, d, ic')
  {
    var f := AtomFormat(c);
    if f == 1 { AtomFormat1(ic, c); }
    else if f == 2 { AtomFormat2(ic, c); }
    else if f == 3 { AtomFormat3(ic, c); }
    else if f == 4 { AtomFormat4(ic, c); }
    else if f == 5 { AtomFormat5(ic, c); }
    else { AtomFormat6(ic, c); }
  }

  lemma AtomFormat1(ic: nat, c: byte)
    requires c >= 0xC0 && AtomFormat(c) == 1
    ensures var AtomRun(e, n, d, ic') := AtomFields(ic, c); e + n == 1 && ic' == ic + 1 && Disposition(e, n, d)
  {
    LowBits(c);
    assert Pow2(1) == 2;
  }

  lemma AtomFormat2(ic: nat, c: byte)
    requires c >= 0xC0 && AtomFormat(c) == 2
    ensures var AtomRun(e, n, d, ic') := AtomFields(ic, c); e + n == 2 && ic' == ic + 2 && Disposition(e, n, d)
  {
    AtomBits2(c);
  }

  lemma AtomFormat3(ic: nat, c: byte)
    requires c >= 0xC0 && AtomFormat(c) == 3
    ensures var AtomRun(e, n, d, ic') := AtomFields(ic, c); e + n == 3 && ic' == ic + 3 && Disposition(e, n, d)
  {
    AtomBits3(c);
  }

  lemma AtomFormat4(ic: nat, c: byte)
    requires c >= 0xC0 && AtomFormat(c) == 4
    ensures var AtomRun(e, n, d, ic') := AtomFields(ic, c); e + n == 4 && ic' == ic + 4 && Disposition(e, n, d)
  {
    PopcountTable();
    assert Pow2(4) == 16;
  }

  lemma AtomFormat5(ic: nat, c: byte)
    requires c >= 0xC0 && AtomFormat(c) == 5
    ensures var AtomRun(e, n, d, ic') := AtomFields(ic, c); e + n == 5 && ic' == ic + 5 && Disposition(e, n, d)
  {
    PopcountTable();
    assert Pow2(5) == 32;
  }

  lemma PopcountTable()
    ensures Popcount(0xE) == 3 && Popcount(0xA) == 2 && Popcount(0x5) == 2
    ensures Popcount(0x1E) == 4 && Popcount(0x15) == 3 && Popcount(0) == 0
  {
    assert Popcount(0x5) == 2;
    assert Popcount(0xA) == 2;
    assert Popcount(0xE) == 3;
    assert Popcount(0x15) == 3;
    assert Popcount(0x1E) == 4;
  }

  lemma AtomFormat6(ic: nat, c: byte)
    requires c >= 0xC0 && AtomFormat(c) == 6
    ensures var AtomRun(e, n, d, ic') := AtomFields(ic, c); e + n == c % 32 + 3 == ic' && n <= 1 && Disposition(e, n, d)
    ensures var AtomRun(e, n, d, ic') := AtomFields(ic, c); c % 32 <= 20 && e + n <= 23 && d == Pow2(e) - 1
  {
    var e := c % 32 + 3;
    var n := if Bit(c, 5) then 1 else 0;
    var k := e - n;
    assert AtomFields(ic, c) == AtomRun(k, n, (Pow2(k) - 1) % TWO_32, e);
    OnesTruncated(k);
    if n == 1 {
      Pow2Below(k, k + 1);
    }
  }

  /** The low `k` ones cut to 32 bits: all of them up to 32, the whole field beyond. */
  lemma OnesTruncated(k: nat)
    ensures var d := (Pow2(k) - 1) % TWO_32;
            d < TWO_32 && Popcount(d) == (if k <= 32 then k else 32) && (k <= 32 ==> d == Pow2(k) - 1)
  {
    Pow2Literal32();
    OnesCut(k, 32);
  }

  /** `k` ones cut to `m` bits: `min(k, m)` ones. */
  lemma OnesCut(k: nat, m: nat)
    ensures var d := (Pow2(k) - 1) % Pow2(m);
            Popcount(d) == (if k <= m then k else m) && (k <= m ==> d == Pow2(k) - 1)
  {
    if k <= m {
      OnesFit(k, m);
      PopcountOnes(k);
    } else {
      OnesWrap(k, m);
      PopcountOnes(m);
    }
  }

  lemma OnesFit(k: nat, m: nat)
    requires k <= m
    ensures (Pow2(k) - 1) % Pow2(m) == Pow2(k) - 1
  {
    if k < m {
      Pow2Below(k, m);
    }
    DivModUnique(Pow2(k) - 1, Pow2(m), 0, Pow2(k) - 1);
  }

  /** Ones beyond `m` bits, cut to `m` bits, fill the field. */
  lemma OnesWrap(k: nat, m: nat)
    requires k > m
    ensures (Pow2(k) - 1) % Pow2(m) == Pow2(m) - 1
  {
    Pow2Add(m, k - m);
    PredOfMultiple(Pow2(m), Pow2(k - m));
  }

  /** One less than a multiple of `p` leaves `p - 1` over. */
  lemma PredOfMultiple(p: int, q: int)
    requires p >= 1 && q >= 1
    ensures (p * q - 1) % p == p - 1
  {
    assert p * (q - 1) == p * q - p;
    DivModUnique(p * q - 1, p, q - 1, p - 1);
  }

  /** The low three bits of `c`, read off its remainder `d` modulo 8. */
  lemma LowBits(c: byte)
    ensures var d := c % 8;
            && B(c, 0) == d % 2 && B(c, 1) == (d / 2) % 2 && B(c, 2) == d / 4
            && c % 2 == d % 2 && c % 4 == d % 4
  {
    var q, d := c / 8, c % 8;
    DivModUnique(c, 2, 4 * q + d / 2, d % 2);
    DivModUnique(c / 2, 2, 2 * q + (d / 2) / 2, (d / 2) % 2);
    DivModUnique(c, 4, 2 * q + d / 4, d % 4);
    DivModUnique(c / 4, 2, q, d / 4);
    assert Weight(0) == 1 && Weight(1) == 2 && Weight(2) == 4;
  }

  /** The number of set bits of a value below 8, and of its low two bits. */
  lemma Popcount3(d: nat)
    requires d < 8
    ensures Popcount(d) == d % 2 + (d / 2) % 2 + d / 4
    ensures Popcount(d % 4) == d % 2 + (d / 2) % 2
  {
    assert Popcount(0) == 0 && Popcount(1) == 1 && Popcount(2) == 1 && Popcount(3) == 2;
    assert Popcount(4) == 1 && Popcount(5) == 2 && Popcount(6) == 2 && Popcount(7) == 3;
    if d == 0 {} else if d == 1 {} else if d == 2 {} else if d == 3 {}
    else if d == 4 {} else if d == 5 {} else if d == 6 {} else {}
  }

  lemma AtomBits2(c: byte)
    ensures Popcount(c % 4) == B(c, 1) + B(c, 0) && c % 4 < Pow2(2)
  {
    LowBits(c);
    Popcount3(c % 8);
    assert Pow2(2) == 4;
  }

  lemma AtomBits3(c: byte)
    ensures Popcount(c % 8) == B(c, 0) + B(c, 1) + B(c, 2) && c % 8 < Pow2(3)
  {
    LowBits(c);
    Popcount3(c % 8);
    assert Pow2(3) == 8;
  }

  // ---------------------------------------------------------------- the header byte in Idle

  /** The event packet: one change flag for each of its four low bits. */
  function Events(cpu: Cpu, c: byte): (r: Cpu)
    ensures forall f :: f in r.changeRecord <==> (f in cpu.changeRecord || (f == Event0 && Bit(c, 0)) || (f == Event1 && Bit(c, 1))
                                                  || (f == Event2 && Bit(c, 2)) || (f == Event3 && Bit(c, 3)))
  {
    var cr := cpu.changeRecord + (if Bit(c, 0) then {Event0} else {}) + (if Bit(c, 1) then {Event1} else {})
              + (if Bit(c, 2) then {Event2} else {}) + (if Bit(c, 3) then {Event3} else {});
    cpu.(changeRecord := cr)
  }

  /**
   * An exact-match address packet names the queue entry whose address is
   * current again.  Index 3 is reserved and changes nothing (see
   * `ExactMatchAsWritten`).
   */
  function ExactMatch(r: Regs, cpu: Cpu, c: byte): (res: (Regs, Cpu, bool))
    requires Inv(r) && 0x90 <= c <= 0x93
    ensures res.0 == r
  {
    var k := c % 4;
    if k == 3 then (r, cpu, false)
    else (r, cpu.(addr := r.q[k].addr, changeRecord := cpu.changeRecord + {Address}), true)
  }

  /** Exact match is the inverse of pushing: entry `k` gives back the address that was current `k` pushes ago. */
  lemma ExactMatchFindsQueue(r: Regs, cpu: Cpu, c: byte)
    requires Inv(r) && 0x90 <= c <= 0x93
    ensures var (r', cpu', ev) := ExactMatch(r, cpu, c);
            && (c % 4 < 3 ==> ev && cpu'.addr == r.q[c % 4].addr && Address in cpu'.changeRecord && cpu'.addr < TWO_64)
            && (c % 4 == 3 ==> !ev && cpu' == cpu)
  {
  }

  /**
   * The exact-match packet as written: the assertion guarding against the
   * reserved index tests the header byte, which is never 3 here, and the
   * queue is then read at index `c & 3`.  `None` stands for a read past the
   * end of the three-entry queue.
   */
  function ExactMatchAsWritten(q: seq<QEntry>, c: byte): (res: (bool, Option<nat>))
    requires 0x90 <= c <= 0x93
    ensures res.0 && (res.1.Some? <==> c % 4 < |q|)
  {
    (c != 3, if c % 4 < |q| then Some(q[c % 4].addr) else None)
  }

  /** The header 0x93 passes the guard and reads a fourth queue entry, which does not exist. */
  lemma ExactMatchAsWrittenOverruns(q: seq<QEntry>)
    requires |q| == 3
    ensures ExactMatchAsWritten(q, 0x93) == (true, None)
  {
  }

  /** A short address header: a new address is pushed, its low bits to follow. */
  function ShortHeader(r: Regs, c: byte): (r': Regs)
    requires Inv(r) && (c == 0x95 || c == 0x96)
    ensures Inv(r') && r'.p == GetShortAddr && r'.q[1..] == r.q[..2]
  {
    r.(idx := if c == 0x95 then 2 else 1, q := StackQ(r.q), p := GetShortAddr)
  }

  /** The long address header bytes: 32 or 64 bits, `IS0` or `IS1`, with or without context to follow. */
  predicate IsLongHeader(c: byte)
  {
    c == 0x9A || c == 0x9B || c == 0x9D || c == 0x9E || c == 0x82 || c == 0x83 || c == 0x85 || c == 0x86
  }

  /**
   * A long address header: a new address is pushed, entry 0 takes the
   * instruction set and is aligned (to a word, or to a halfword for a 32-bit
   * `IS1` address), and the address bytes follow.
   */
  function LongHeader(r: Regs, c: byte): (r': Regs)
    requires Inv(r) && IsLongHeader(c)
    ensures Inv(r') && r'.q[1..] == r.q[..2] && r'.haveContext == (c < 0x90)
    ensures r'.p == (if c == 0x9A || c == 0x9B || c == 0x82 || c == 0x83 then Get32BitAddr else Get64BitAddr)
  {
    var is1 := c == 0x9B || c == 0x9E || c == 0x83 || c == 0x86;
    var low := if c == 0x9B || c == 0x83 then 2 else 4;
    var e := QEntry(AlignLow(r.q[0].addr, low), if is1 then IS1 else IS0);
    r.(idx := if is1 then 1 else 2, haveContext := c < 0x90, q := StackQ(r.q)[0 := e],
       p := if c == 0x9A || c == 0x9B || c == 0x82 || c == 0x83 then Get32BitAddr else Get64BitAddr)
  }

  /** The header bytes that only record something in the processor state. */
  predicate IsCpuHeader(c: byte)
  {
    (0x71 <= c <= 0x7F) || c == 0x04 || c == 0x05 || c == 0x07 || (0x20 <= c <= 0x2C)
  }

  /** Events, trace-on, function and exception returns and data synchronisation marks: all but events are reported. */
  function IdleCpu(cpu: Cpu, c: byte): (res: (Cpu, bool))
    requires IsCpuHeader(c)
    ensures res.1 <==> !(0x71 <= c <= 0x7F)
    ensures res.0.addr == cpu.addr && res.0.cycleCount == cpu.cycleCount && cpu.changeRecord <= res.0.changeRecord
  {
    if 0x71 <= c <= 0x7F then (Events(cpu, c), false)
    else if c == 0x04 then (cpu.(changeRecord := cpu.changeRecord + {TraceStart}), true)
    else if c == 0x05 then (cpu.(changeRecord := cpu.changeRecord + {FnReturn}), true)
    else if c == 0x07 then (cpu.(changeRecord := cpu.changeRecord + {ExReturn}), true)
    else if c <= 0x27 then (cpu.(dsyncMark := c % 8, changeRecord := cpu.changeRecord + {DataSync}), true)
    else (cpu.(udsyncMark := c % 8, changeRecord := cpu.changeRecord + {UDataSync}), true)
  }

  /** The registers with only the state changed. */
  function Goto(r: Regs, p: Proto): (r': Regs)
    requires Inv(r)
    ensures Inv(r') && r'.p == p && r'.q == r.q && r'.rxedISYNC == r.rxedISYNC
  {
    r.(p := p)
  }

  /** The header bytes that start a packet with a payload, resynchronise, or are ignored. */
  function IdleOther(r: Regs, cpu: Cpu, c: byte): (res: (Regs, Cpu, bool))
    requires Inv(r) && r.p == Idle && c < 0xC0 && !IsCpuHeader(c)
    ensures Inv(res.0) && res.0.q == r.q && !res.2
    ensures res.0.rxedISYNC == (r.rxedISYNC && c != 0x08) && (c == 0x08 ==> res.0.p == Unsynced)
  {
    if c == 0x02 || c == 0x03 then
      (r.(p := GetTimestamp, ccFollows := c == 0x03, idx := 0), if c == 0x02 then cpu.(cycleCount := UNKNOWN) else cpu, false)
    else if c == 0x08 then (Goto(r.(rxedISYNC := false), Unsynced), cpu, false)
    else
      var next := if c == 0x01 then GetInfoPlctl else if c == 0x81 then GetContext else if c == 0x00 then Extension
                  else if c == 0x06 then GetExceptionInfo1 else if c == 0x2D then Commit else Idle;
      (Goto(r, next), cpu, false)
  }

  /** `TRACE_IDLE`: the header byte of the next packet. */
  function IdleStep(r: Regs, cpu: Cpu, c: byte): (res: (Regs, Cpu, bool))
    requires Inv(r) && r.p == Idle
    ensures Inv(res.0)
    ensures res.0.rxedISYNC == (r.rxedISYNC && c != 0x08) && (c == 0x08 ==> res.0.p == Unsynced)
  {
    if c >= 0xC0 then
      var (cpu', ev) := Atoms(cpu, c);
      (r, cpu', ev)
    else if 0x90 <= c <= 0x93 then ExactMatch(r, cpu, c)
    else if c == 0x95 || c == 0x96 then (ShortHeader(r, c), cpu, false)
    else if IsLongHeader(c) then (LongHeader(r, c), cpu, false)
    else if IsCpuHeader(c) then
      var (cpu', ev) := IdleCpu(cpu, c);
      (r, cpu', ev)
    else IdleOther(r, cpu, c)
  }

  // ---------------------------------------------------------------- address payloads

  /**
   * The width of the next long-address field and the index after it.  The
   * first byte holds 7 bits, and so does the second, which starts at bit 8
   * (`IS1`) or bit 9 (`IS0`); the rest hold 8 bits each.  The 64-bit
   * collector recognises the second byte at bit 8 only for an `IS1` entry.
   */
  function LongField(idx: nat, inst: InstSet, is64: bool): (res: (nat, nat))
    ensures res.1 == idx + res.0 || res.1 == 16
  {
    if idx < 3 then (7, idx + 7)
    else if idx == 9 || (idx == 8 && (!is64 || inst == IS1)) then (7, 16)
    else (8, idx + 8)
  }

  /**
   * The index update as written: the 7-bit second byte is recognised only
   * at bit 8, so an `IS0` address, whose second byte starts at bit 9, goes
   * on in 8-bit steps from there.  `idx` is a `uint8_t`.
   */
  function LongFieldAsWritten(idx: nat, inst: InstSet, is64: bool): (res: (nat, nat))
    ensures res.1 < 256
  {
    if idx < 3 then (7, U8(idx + 7))
    else if idx == 8 && (!is64 || inst == IS1) then (7, 16)
    else (8, U8(idx + 8))
  }

  /** The index after `n` more payload bytes of a long address, as written. */
  function IdxAfterAsWritten(idx: nat, inst: InstSet, is64: bool, n: nat): nat
    decreases n
  {
    if n == 0 then idx else IdxAfterAsWritten(LongFieldAsWritten(idx, inst, is64).1, inst, is64, n - 1)
  }

  /** The index after `n` more payload bytes of a long address. */
  function IdxAfter(idx: nat, inst: InstSet, is64: bool, n: nat): nat
    decreases n
  {
    if n == 0 then idx else IdxAfter(LongField(idx, inst, is64).1, inst, is64, n - 1)
  }

  /**
   * As written, an `IS0` long address (first index 2) does not end after its
   * four or eight bytes, nor after the 27 bytes that follow: from its second
   * byte on the index is one more than a multiple of 8.  Only once the 8-bit
   * index has wrapped round can it come to 32 or 64.
   */
  lemma Is0AsWrittenRunsOn(is64: bool, n: nat)
    requires n <= 31
    ensures IdxAfterAsWritten(2, IS0, is64, n) != 32 && IdxAfterAsWritten(2, IS0, is64, n) != 64
  {
    OddIdxRunsOn(2, is64, n);
  }

  lemma {:induction false} OddIdxRunsOn(idx: nat, is64: bool, n: nat)
    requires idx == 2 || (idx % 8 == 1 && 9 <= idx)
    requires idx + 8 * n <= 256
    ensures IdxAfterAsWritten(idx, IS0, is64, n) % 8 in {1, 2}
    decreases n
  {
    if n > 0 {
      OddIdxRunsOn(LongFieldAsWritten(idx, IS0, is64).1, is64, n - 1);
    }
  }

  /** Corrected, both instruction sets end a 32-bit address after four bytes and a 64-bit one after eight. */
  lemma LongAddressesEnd()
    ensures IdxAfter(2, IS0, false, 4) == 32 && IdxAfter(1, IS1, false, 4) == 32
    ensures IdxAfter(2, IS0, true, 8) == 64 && IdxAfter(1, IS1, true, 8) == 64
    ensures forall n :: 0 < n < 4 ==> IdxAfter(2, IS0, false, n) < 32 && IdxAfter(1, IS1, false, n) < 32
  {
  }

  /**
   * The 64-bit address and timestamp field update as written,
   * `(x & (mask << lo)) | ((v & mask) << lo)`: the mask keeps the field
   * instead of clearing it, so every bit outside the field is lost.
   */
  function KeepPut(x: nat, lo: nat, w: nat, v: nat): (r: nat)
    ensures r < TWO_64
  {
    Or(Shl((x / Pow2(lo)) % Pow2(w), lo), Shl(v % Pow2(w), lo)) % TWO_64
  }

  /** As written, the bits below a field are lost: an address whose low byte is 2 reads 0 after a zero byte at bit 8. */
  lemma KeepPutLosesLowBits()
    ensures KeepPut(2, 8, 8, 0) == 0 && Put64(2, 8, 8, 0) == 2
  {
    assert Pow2(8) == 256;
    assert Shl(0, 8) == 0;
    SpliceAbove(2, 8, 8, 0);
  }

  /** As written, a field update keeps nothing above the field: the result fits in `lo + w` bits. */
  lemma KeepPutClearsAbove(x: nat, lo: nat, w: nat, v: nat)
    ensures lo + w <= 64 ==> KeepPut(x, lo, w, v) < Pow2(lo + w)
  {
    var a, b := (x / Pow2(lo)) % Pow2(w), v % Pow2(w);
    ShlBound(a, lo, w);
    ShlBound(b, lo, w);
    OrBelow(Shl(a, lo), Shl(b, lo), lo + w);
  }

  /** `a | b` of two `k`-bit values is a `k`-bit value. */
  lemma {:induction false} OrBelow(a: nat, b: nat, k: nat)
    requires a < Pow2(k) && b < Pow2(k)
    ensures Or(a, b) < Pow2(k)
    decreases a + b
  {
    if a != 0 && b != 0 {
      OrBelow(a / 2, b / 2, k - 1);
    }
  }

  /** Corrected, a field update keeps every bit below the field. */
  lemma PutKeepsBelow(x: nat, lo: nat, w: nat, v: nat)
    ensures lo <= 64 ==> SameBelow(Put64(x, lo, w, v), x, lo)
  {
    if lo <= 64 {
      SpliceBelow(x, lo, w, v);
      Pow2Add(lo, 64 - lo);
      Pow2Literal64();
      ModMod(Splice(x, lo, w, v), Pow2(lo), Pow2(64 - lo));
    }
  }

  /** Entry 0 of the queue with a new address, and the index and state the collector moves to. */
  function SetAddr(r: Regs, a: nat, idx: nat, p: Proto): (r': Regs)
    requires Inv(r) && a < TWO_64 && idx < 256
    ensures Inv(r') && r'.q[0] == QEntry(a, r.q[0].inst) && r'.q[1..] == r.q[1..] && r'.idx == idx
    ensures r'.p == p && r'.rxedISYNC == r.rxedISYNC && r'.haveContext == r.haveContext
  {
    r.(q := r.q[0 := r.q[0].(addr := a)], idx := idx, p := p)
  }

  /**
   * `TRACE_GET_SHORT_ADDR`: the low bits of entry 0, seven from the first
   * byte and, when its top bit asks for more, eight from a second.  The bits
   * below stay as they were.
   */
  function ShortAddrStep(r: Regs, cpu: Cpu, c: byte): (res: (Regs, Cpu, bool))
    requires Inv(r) && r.p == GetShortAddr
    ensures Inv(res.0) && res.0.rxedISYNC == r.rxedISYNC && res.0.q[1..] == r.q[1..]
    ensures r.idx <= 64 ==> SameBelow(res.0.q[0].addr, r.q[0].addr, r.idx)
    ensures res.2 <==> res.0.p == Idle
    ensures r.idx <= 2 ==> res.0.idx == r.idx + 7 && (res.2 <==> !Bit(c, 7))
    ensures 3 <= r.idx <= 9 ==> res.0.idx == r.idx + 8 && res.2
    ensures res.2 ==> res.1.addr == res.0.q[0].addr && Address in res.1.changeRecord
  {
    var w := if r.idx <= 2 then 7 else 8;
    PutKeepsBelow(r.q[0].addr, r.idx, w, c);
    ShortCommit(r, cpu, c, Put64(r.q[0].addr, r.idx, w, c), U8(r.idx + w))
  }

  /** Entry 0 takes the address `a` with this byte's bits in place; the address ends with it unless it asks for a second byte. */
  function ShortCommit(r: Regs, cpu: Cpu, c: byte, a: nat, idx: nat): (res: (Regs, Cpu, bool))
    requires Inv(r) && r.p == GetShortAddr && a < TWO_64 && idx < 256
    ensures Inv(res.0) && res.0.rxedISYNC == r.rxedISYNC && res.0.q[1..] == r.q[1..] && res.0.q[0].addr == a
    ensures res.0.idx == idx && (res.2 <==> res.0.p == Idle) && (res.2 <==> !Bit(c, 7) || idx > 9)
    ensures res.2 ==> res.1.addr == a && Address in res.1.changeRecord
  {
    var r' := SetAddr(r, a, idx, if !Bit(c, 7) || idx > 9 then Idle else GetShortAddr);
    (r', if r'.p == Idle then cpu.(addr := a, changeRecord := cpu.changeRecord + {Address}) else cpu, r'.p == Idle)
  }

  /** Corrected, every field of a long address starts on a field boundary, and the last one ends at bit 32 or 64. */
  lemma LongFieldShape(idx: nat, inst: InstSet, is64: bool)
    requires FieldStart(idx) && (is64 || idx < 32)
    ensures var n := LongField(idx, inst, is64).1;
            n <= 64 && (n != (if is64 then 64 else 32) ==> FieldStart(n) && (is64 || n < 32))
  {
  }

  /**
   * `TRACE_GET_32BIT_ADDR` and `TRACE_GET_64BIT_ADDR`: the next field of
   * entry 0.  When the last one is in, the address is current, and is
   * reported unless a context packet follows.
   */
  function LongAddrStep(r: Regs, cpu: Cpu, c: byte, is64: bool): (res: (Regs, Cpu, bool))
    requires Inv(r) && r.p == (if is64 then Get64BitAddr else Get32BitAddr)
    ensures Inv(res.0) && res.0.rxedISYNC == r.rxedISYNC && res.0.q[1..] == r.q[1..]
    ensures r.idx <= 64 ==> SameBelow(res.0.q[0].addr, r.q[0].addr, r.idx)
    ensures res.0.idx == U8(LongField(r.idx, r.q[0].inst, is64).1)
    ensures res.0.p != r.p <==> res.0.idx == (if is64 then 64 else 32)
    ensures res.0.p != r.p ==> res.1.addr == res.0.q[0].addr && Address in res.1.changeRecord
                               && res.0.p == (if r.haveContext then GetContext else Idle)
    ensures res.2 <==> res.0.p == Idle
  {
    var (w, next) := LongField(r.idx, r.q[0].inst, is64);
    var idx := U8(next);
    PutKeepsBelow(r.q[0].addr, r.idx, w, c);
    var a := Put64(r.q[0].addr, r.idx, w, c);
    var r' := AddrRegs(r, a, idx, is64);
    (r', if r'.p != r.p then cpu.(addr := a, changeRecord := cpu.changeRecord + {Address}) else cpu, r'.p == Idle)
  }

  /** Entry 0 takes the assembled address `a`; at the end of the address the packet is over. */
  function AddrRegs(r: Regs, a: nat, idx: nat, is64: bool): (r': Regs)
    requires Inv(r) && r.p == (if is64 then Get64BitAddr else Get32BitAddr) && a < TWO_64
    requires idx < 256
    ensures Inv(r') && r'.rxedISYNC == r.rxedISYNC && r'.q[1..] == r.q[1..] && r'.q[0].addr == a && r'.idx == idx
    ensures r'.p == (if idx != (if is64 then 64 else 32) then r.p else if r.haveContext then GetContext else Idle)
  {
    SetAddr(r, a, idx, if idx != (if is64 then 64 else 32) then r.p else if r.haveContext then GetContext else Idle)
  }

  // ---------------------------------------------------------------- context and exceptions

  /**
   * `TRACE_GET_CONTEXT`: exception level, 64-bit and secure state, then a
   * virtual context, a context identifier or nothing more to come.
   */
  function ContextStep(r: Regs, cpu: Cpu, c: byte): (res: (Regs, Cpu, bool))
    requires Inv(r) && r.p == GetContext
    ensures Inv(res.0) && res.0.rxedISYNC == r.rxedISYNC && res.0.q == r.q
    ensures res.1.exceptionLevel == c % 4 && res.1.am64bit == Bit(c, 4) && res.1.amSecure == !Bit(c, 5)
    ensures res.0.haveContext == Bit(c, 7)
    ensures res.0.p == GetVContext ==> res.0.idx == 0 && res.0.vcontext == 0
    ensures res.0.p == GetContextId ==> res.0.idx == 0 && res.0.context == 0
    ensures res.0.p == (if Bit(c, 6) then GetVContext else if Bit(c, 7) then GetContextId else Idle)
    ensures res.2 <==> res.0.p == Idle
  {
    var hc := Bit(c, 7);
    var r' := if Bit(c, 6) then r.(haveContext := hc, vcontext := 0, idx := 0, p := GetVContext)
              else if hc then r.(haveContext := hc, context := 0, idx := 0, p := GetContextId)
              else r.(haveContext := hc, p := Idle);
    var cr := if r'.p == Idle then cpu.changeRecord + {ContextId} else cpu.changeRecord;
    (r', cpu.(exceptionLevel := c % 4, am64bit := Bit(c, 4), amSecure := !Bit(c, 5), changeRecord := cr), r'.p == Idle)
  }

  /**
   * `TRACE_GET_VCONTEXT`: a byte of the virtual context.  The VMID would be
   * taken once 32 bits are in and no context follows, but the collector
   * moves on to the context identifier after every byte (`VContextOneByte`).
   */
  function VContextStep(r: Regs, cpu: Cpu, c: byte): (res: (Regs, Cpu, bool))
    requires Inv(r) && r.p == GetVContext
    ensures Inv(res.0) && res.0.rxedISYNC == r.rxedISYNC && res.0.q == r.q
  {
    var v := Or(r.vcontext, Shl(c, r.idx)) % TWO_32;
    var idx := U8(r.idx + 8);
    if idx == 32 && !r.haveContext then
      (r.(vcontext := v, idx := idx, p := Idle), cpu.(vmid := v % 256, changeRecord := cpu.changeRecord + {Vmid}), true)
    else (r.(vcontext := v, context := 0, idx := 0, p := GetContextId), cpu, false)
  }

  /**
   * The virtual context collector as entered, with nothing collected yet,
   * takes one byte and moves on to the context identifier, whatever the byte.
   */
  lemma VContextOneByte(r: Regs, cpu: Cpu, c: byte)
    requires Inv(r) && r.p == GetVContext && r.idx == 0 && r.vcontext == 0
    ensures var res := VContextStep(r, cpu, c);
            res.0.p == GetContextId && res.0.vcontext == c && res.0.idx == 0 && res.0.context == 0 && res.1 == cpu && !res.2
  {
    assert Shl(c, 0) == c;
    assert Or(0, c) == c;
  }

  /**
   * `TRACE_GET_CONTEXT_ID`: a byte of the context identifier, least
   * significant first.  With all four in, the processor's context identifier
   * is set from the virtual context register, as written.
   */
  function ContextIdStep(r: Regs, cpu: Cpu, c: byte): (res: (Regs, Cpu, bool))
    requires Inv(r) && r.p == GetContextId
    ensures Inv(res.0) && res.0.rxedISYNC == r.rxedISYNC && res.0.q == r.q
    ensures res.0.idx == U8(r.idx + 8) && (res.2 <==> res.0.idx == 32) && (res.2 <==> res.0.p == Idle)
    ensures res.2 ==> res.1.contextID == r.vcontext && ContextId in res.1.changeRecord
  {
    var ctx := Or(r.context, Shl(c, r.idx)) % TWO_32;
    var idx := U8(r.idx + 8);
    if idx == 32 then
      (r.(context := ctx, idx := idx, p := Idle), cpu.(contextID := r.vcontext, changeRecord := cpu.changeRecord + {ContextId}), true)
    else (r.(context := ctx, idx := idx), cpu, false)
  }

  /** `TRACE_GET_EXCEPTIONINFO1`: the first exception byte is kept for the second. */
  function ExceptionInfo1Step(r: Regs, cpu: Cpu, c: byte): (res: (Regs, Cpu, bool))
    requires Inv(r) && r.p == GetExceptionInfo1
    ensures Inv(res.0) && res.0.rxedISYNC == r.rxedISYNC && res.0.q == r.q
    ensures res.0.ex0 == c && res.0.p == GetExceptionInfo2 && res.1 == cpu && !res.2
  {
    (r.(ex0 := c, p := GetExceptionInfo2), cpu, false)
  }

  /**
   * `TRACE_GET_EXCEPTIONINFO2`: the exception number, five bits from each
   * byte (bits 1 to 5 of the first, bits 0 to 4 of the second above them),
   * and whether it is serious.  Nothing is reported: the preferred return
   * address follows in an address packet.
   */
  function ExceptionInfo2Step(r: Regs, cpu: Cpu, c: byte): (res: (Regs, Cpu, bool))
    requires Inv(r) && r.p == GetExceptionInfo2
    ensures Inv(res.0) && res.0.rxedISYNC == r.rxedISYNC && res.0.q == r.q && res.0.p == Idle && !res.2
    ensures res.1.exception < 1024 && res.1.exception % 32 == (r.ex0 / 2) % 32 && res.1.exception / 32 == c % 32
    ensures res.1.serious == Bit(c, 5) && ExEntry in res.1.changeRecord
  {
    (r.(p := Idle), cpu.(exception := (r.ex0 / 2) % 32 + 32 * (c % 32), serious := Bit(c, 5),
                         changeRecord := cpu.changeRecord + {ExEntry}), false)
  }

  // ---------------------------------------------------------------- timestamps

  /**
   * `TRACE_GET_TIMESTAMP`: seven bits of the timestamp a byte, least
   * significant first, and eight from a ninth byte.  The packet ends with a
   * byte whose top bit is clear, or with the ninth; a cycle count follows
   * when the trace info enabled them and the header announced one.
   */
  function TimestampStep(r: Regs, cpu: Cpu, c: byte): (res: (Regs, Cpu, bool))
    requires Inv(r) && r.p == GetTimestamp
    ensures Inv(res.0) && res.0.rxedISYNC == r.rxedISYNC && res.0.q == r.q
    ensures r.idx <= 64 ==> SameBelow(res.1.ts, cpu.ts, r.idx)
    ensures res.1.cycleCount == cpu.cycleCount
    ensures res.0.p == (if Bit(c, 7) && r.idx != 56 then GetTimestamp else if r.info.ccEnabled && r.ccFollows then GetTsCc else Idle)
    ensures res.2 <==> res.0.p == Idle
  {
    var w := if r.idx < 56 then 7 else 8;
    PutKeepsBelow(cpu.ts, r.idx, w, c);
    TsCommit(r, cpu, c, Put64(cpu.ts, r.idx, w, c))
  }

  /**
   * `TRACE_GET_TIMESTAMP` as written: the byte goes in with the `~`-less
   * mask, so the old bits of its own field are ORed with the new ones and
   * every other bit of the timestamp is cleared. Registers, next state and
   * the rest of the processor state are those of the corrected step.
   */
  function TimestampStepAsWritten(r: Regs, cpu: Cpu, c: byte): (res: (Regs, Cpu, bool))
    requires Inv(r) && r.p == GetTimestamp
    ensures var fixed := TimestampStep(r, cpu, c);
            res.0 == fixed.0 && res.2 == fixed.2 && res.1 == fixed.1.(ts := res.1.ts)
    ensures var w := if r.idx < 56 then 7 else 8;
            r.idx + w <= 64 ==> res.1.ts < Pow2(r.idx + w)
  {
    var w := if r.idx < 56 then 7 else 8;
    KeepPutClearsAbove(cpu.ts, r.idx, w, c);
    TsCommit(r, cpu, c, KeepPut(cpu.ts, r.idx, w, c))
  }

  /**
   * As written, a timestamp 0x80 followed by a one-byte timestamp packet
   * 0x05 reads 0x05 rather than 0x85, and old low bits 3 under a byte 0x04
   * read 7 rather than 4.
   */
  lemma TimestampAsWrittenLosesBits(r: Regs, cpu: Cpu)
    requires Inv(r) && r.p == GetTimestamp && r.idx == 0
    ensures cpu.ts == 0x80 ==>
              TimestampStepAsWritten(r, cpu, 0x05).1.ts == 0x05 && TimestampStep(r, cpu, 0x05).1.ts == 0x85
    ensures cpu.ts == 0x03 ==>
              TimestampStepAsWritten(r, cpu, 0x04).1.ts == 0x07 && TimestampStep(r, cpu, 0x04).1.ts == 0x04
  {
    if cpu.ts == 0x80 {
      TimestampBytesAbove();
    } else if cpu.ts == 0x03 {
      TimestampBytesOver();
    }
  }

  /** A byte 0x05 at bit 0 of 0x80: 0x05 as written, 0x85 corrected. */
  lemma TimestampBytesAbove()
    ensures KeepPut(0x80, 0, 7, 0x05) == 0x05 && Put64(0x80, 0, 7, 0x05) == 0x85
  {
    assert Pow2(0) == 1 && Pow2(7) == 128;
    assert Or(0, 5) == 5;
  }

  /** A byte 0x04 at bit 0 of 0x03: 0x07 as written, 0x04 corrected. */
  lemma TimestampBytesOver()
    ensures KeepPut(0x03, 0, 7, 0x04) == 0x07 && Put64(0x03, 0, 7, 0x04) == 0x04
  {
    assert Pow2(0) == 1 && Pow2(7) == 128;
    assert Or(3, 4) == 7;
  }

  /** The timestamp with this byte's bits `ts` in place, and the state that follows. */
  function TsCommit(r: Regs, cpu: Cpu, c: byte, ts: nat): (res: (Regs, Cpu, bool))
    requires Inv(r) && r.p == GetTimestamp
    ensures Inv(res.0) && res.0.rxedISYNC == r.rxedISYNC && res.0.q == r.q
    ensures res.1.ts == ts && res.1.cycleCount == cpu.cycleCount
    ensures res.0.p == (if Bit(c, 7) && r.idx != 56 then GetTimestamp else if r.info.ccEnabled && r.ccFollows then GetTsCc else Idle)
    ensures res.2 <==> res.0.p == Idle
  {
    var idx := U8(r.idx + 7);
    var ends := !Bit(c, 7) || idx == 63;
    var next := if !ends then GetTimestamp else if r.info.ccEnabled && r.ccFollows then GetTsCc else Idle;
    var cr := if ends && cpu.cycleCount != UNKNOWN then cpu.changeRecord + {TStamp} else cpu.changeRecord;
    var r' := if next == GetTsCc then r.(idx := 0, cntUpdate := 0, p := next) else r.(idx := idx, p := next);
    (r', cpu.(ts := ts, changeRecord := cr), next == Idle)
  }

  /**
   * `TRACE_GET_TS_CC`: the cycle count after a timestamp, seven bits a byte
   * and at most three bytes, added to the processor's 64-bit cycle count.
   * The packet ends on a byte whose top bit is set, as written.
   */
  function TsCcStep(r: Regs, cpu: Cpu, c: byte): (res: (Regs, Cpu, bool))
    requires Inv(r) && r.p == GetTsCc
    ensures Inv(res.0) && res.0.rxedISYNC == r.rxedISYNC && res.0.q == r.q
    ensures res.0.idx == U8(r.idx + 1) && (res.2 <==> res.0.p == Idle) && (res.2 <==> r.idx == 2 || Bit(c, 7))
    ensures res.2 ==> res.1.cycleCount == U64(cpu.cycleCount + res.0.cntUpdate) && CycleCount in res.1.changeRecord
    ensures !res.2 ==> res.1 == cpu
  {
    TsCcCommit(r, cpu, c, Or(r.cntUpdate, Shl(c % 128, 7 * r.idx)) % TWO_32, U8(r.idx + 1))
  }

  /** The cycle count collected so far is `cnt`; at the end of the packet it is added to the processor's. */
  function TsCcCommit(r: Regs, cpu: Cpu, c: byte, cnt: nat, idx: nat): (res: (Regs, Cpu, bool))
    requires Inv(r) && r.p == GetTsCc && cnt < TWO_32 && idx < 256
    ensures Inv(res.0) && res.0.rxedISYNC == r.rxedISYNC && res.0.q == r.q && res.0.cntUpdate == cnt
    ensures res.0.idx == idx && (res.2 <==> res.0.p == Idle) && (res.2 <==> idx == 3 || Bit(c, 7))
    ensures res.2 ==> res.1.cycleCount == U64(cpu.cycleCount + cnt) && CycleCount in res.1.changeRecord
    ensures !res.2 ==> res.1 == cpu
  {
    var r' := r.(cntUpdate := cnt, idx := idx, p := if idx == 3 || Bit(c, 7) then Idle else GetTsCc);
    (r', if r'.p == Idle then cpu.(cycleCount := U64(cpu.cycleCount + cnt), changeRecord := cpu.changeRecord + {CycleCount}) else cpu,
     r'.p == Idle)
  }

  /** `TRACE_EXTENSION`: discard, overflow or another extension; each is reported. */
  function ExtensionStep(r: Regs, cpu: Cpu, c: byte): (res: (Regs, Cpu, bool))
    requires Inv(r) && r.p == Extension
    ensures Inv(res.0) && res.0.rxedISYNC == r.rxedISYNC && res.0.q == r.q && res.0.p == Idle && res.2
    ensures Discard in res.1.changeRecord <==> Discard in cpu.changeRecord || c == 0x03
    ensures Overflow in res.1.changeRecord <==> Overflow in cpu.changeRecord || c == 0x05
  {
    var cr := if c == 0x03 then cpu.changeRecord + {Discard, TraceStop}
              else if c == 0x05 then cpu.changeRecord + {Overflow}
              else cpu.changeRecord;
    (Goto(r, Idle), cpu.(changeRecord := cr), true)
  }

  // ---------------------------------------------------------------- trace info

  /** `TRACE_WAIT_INFO`: after an A-sync, only the trace info header is looked for. */
  function WaitInfoStep(r: Regs, cpu: Cpu, c: byte): (res: (Regs, Cpu, bool))
    requires Inv(r) && r.p == WaitInfo
    ensures Inv(res.0) && res.0.rxedISYNC == r.rxedISYNC && res.0.q == r.q && res.1 == cpu && !res.2
    ensures res.0.p == (if c == 0x01 then GetInfoPlctl else WaitInfo)
  {
    (Goto(r, if c == 0x01 then GetInfoPlctl else WaitInfo), cpu, false)
  }

  /**
   * The trace info section after section `k` (0 info, 1 key, 2 speculation
   * depth, 3 cycle count threshold) that the payload control byte announces,
   * or `Idle` when none is left.
   */
  function InfoNext(plctl: byte, k: nat): (p: Proto)
    ensures p == Idle || p == GetInfoKey || p == GetInfoSpec || p == GetInfoCyct
  {
    if k < 1 && Bit(plctl, 1) then GetInfoKey
    else if k < 2 && Bit(plctl, 2) then GetInfoSpec
    else if k < 3 && Bit(plctl, 3) then GetInfoCyct
    else Idle
  }

  /**
   * `TRACE_GET_INFO_PLCTL`: the payload control byte.  The address queue
   * is flushed (`_flushQ`) and the announced sections follow in order; with
   * none, the trace info is complete and reported.
   */
  function PlctlStep(r: Regs, cpu: Cpu, c: byte): (res: (Regs, Cpu, bool))
    requires Inv(r) && r.p == GetInfoPlctl
    ensures Inv(res.0) && res.0.rxedISYNC == r.rxedISYNC && res.1 == cpu
    ensures res.0.info.plctl == c && res.0.info.nextrhkey == 0 && res.0.q == FLUSHED
    ensures res.0.p == (if Bit(c, 0) then GetInfoInfo else InfoNext(c, 0)) && (res.2 <==> res.0.p == Idle)
  {
    var r' := Plctl(r, c);
    (r', cpu, r'.p == Idle)
  }

  /** The registers after the payload control byte. */
  function Plctl(r: Regs, c: byte): (r': Regs)
    requires Inv(r) && r.p == GetInfoPlctl
    ensures Inv(r') && r'.rxedISYNC == r.rxedISYNC
    ensures r'.info.plctl == c && r'.info.nextrhkey == 0 && r'.q == FLUSHED
    ensures r'.p == (if Bit(c, 0) then GetInfoInfo else InfoNext(c, 0))
  {
    Flushed();
    var next := if Bit(c, 0) then GetInfoInfo else InfoNext(c, 0);
    Goto(r.(info := r.info.(plctl := c, nextrhkey := 0), q := FLUSHED), next)
  }

  /** `TRACE_GET_INFO_INFO`: cycle counting, conditional tracing, and whether loads and stores are traced. */
  function InfoStep(r: Regs, cpu: Cpu, c: byte): (res: (Regs, Cpu, bool))
    requires Inv(r) && r.p == GetInfoInfo
    ensures Inv(res.0) && res.0.rxedISYNC == r.rxedISYNC && res.0.q == r.q && res.1 == cpu
    ensures res.0.info.ccEnabled == Bit(c, 0) && res.0.info.condEnabled == (2 * c) % 8
    ensures res.0.info.loadTraced == Bit(c, 4) && res.0.info.storeTraced == Bit(c, 5)
    ensures res.0.p == InfoNext(r.info.plctl, 1) && (res.2 <==> res.0.p == Idle)
  {
    var next := InfoNext(r.info.plctl, 1);
    (r.(info := r.info.(ccEnabled := Bit(c, 0), condEnabled := (2 * c) % 8, loadTraced := Bit(c, 4), storeTraced := Bit(c, 5)), p := next),
     cpu, next == Idle)
  }

  /** `TRACE_GET_INFO_KEY`: the next return-stack key. */
  function KeyStep(r: Regs, cpu: Cpu, c: byte): (res: (Regs, Cpu, bool))
    requires Inv(r) && r.p == GetInfoKey
    ensures Inv(res.0) && res.0.rxedISYNC == r.rxedISYNC && res.0.q == r.q && res.1 == cpu
    ensures res.0.info.nextrhkey == c && res.0.p == InfoNext(r.info.plctl, 2) && (res.2 <==> res.0.p == Idle)
  {
    var next := InfoNext(r.info.plctl, 2);
    (r.(info := r.info.(nextrhkey := c), p := next), cpu, next == Idle)
  }

  /** `TRACE_GET_INFO_SPEC`: the maximum speculation depth. */
  function SpecStep(r: Regs, cpu: Cpu, c: byte): (res: (Regs, Cpu, bool))
    requires Inv(r) && r.p == GetInfoSpec
    ensures Inv(res.0) && res.0.rxedISYNC == r.rxedISYNC && res.0.q == r.q && res.1 == cpu
    ensures res.0.info.spec == c && res.0.p == InfoNext(r.info.plctl, 3) && (res.2 <==> res.0.p == Idle)
  {
    var next := InfoNext(r.info.plctl, 3);
    (r.(info := r.info.(spec := c), p := next), cpu, next == Idle)
  }

  // ---------------------------------------------------------------- the whole machine

  /**
   * The byte handled by the state the machine is in.  The cycle count, the
   * cycle count threshold and the commit states have no handler: the machine
   * stays in them until the next A-sync.
   */
  function Dispatch(r: Regs, cpu: Cpu, c: byte): (res: (Regs, Cpu, bool))
    requires Inv(r)
    ensures Inv(res.0)
    ensures res.0.rxedISYNC == (r.rxedISYNC && !(r.p == Idle && c == 0x08))
  {
    match r.p
    case Unsynced => (r, cpu, false)
    case Idle => IdleStep(r, cpu, c)
    case GetCycleCount => (r, cpu, false)
    case WaitInfo => WaitInfoStep(r, cpu, c)
    case GetInfoPlctl => PlctlStep(r, cpu, c)
    case GetInfoInfo => InfoStep(r, cpu, c)
    case GetInfoKey => KeyStep(r, cpu, c)
    case GetInfoSpec => SpecStep(r, cpu, c)
    case GetInfoCyct => (r, cpu, false)
    case Extension => ExtensionStep(r, cpu, c)
    case GetTimestamp => TimestampStep(r, cpu, c)
    case GetTsCc => TsCcStep(r, cpu, c)
    case Commit => (r, cpu, false)
    case GetShortAddr => ShortAddrStep(r, cpu, c)
    case Get32BitAddr => LongAddrStep(r, cpu, c, false)
    case Get64BitAddr => LongAddrStep(r, cpu, c, true)
    case GetContext => ContextStep(r, cpu, c)
    case GetVContext => VContextStep(r, cpu, c)
    case GetContextId => ContextIdStep(r, cpu, c)
    case GetExceptionInfo1 => ExceptionInfo1Step(r, cpu, c)
    case GetExceptionInfo2 => ExceptionInfo2Step(r, cpu, c)
  }

  /**
   * `_pumpAction`: one byte.  A 0x80 after exactly eleven zero bytes is an
   * A-sync: the machine is synchronised and waits for a trace info packet,
   * whatever it was doing.  Any other byte counts towards the next A-sync (a
   * zero) or restarts the count, and is handled by the current state.  The
   * answer says whether there is something to report, which is never so
   * while the machine is not synchronised.
   */
  function Step(r: Regs, cpu: Cpu, c: byte): (res: (Regs, Cpu, bool))
    requires Inv(r)
    ensures Inv(res.0)
    ensures r.asyncCount == 11 && c == 0x80 ==> res == (r.(rxedISYNC := true, p := WaitInfo), cpu, false)
    ensures !(r.asyncCount == 11 && c == 0x80) ==> res.0.asyncCount == (if c == 0 then r.asyncCount + 1 else 0)
    ensures res.0.rxedISYNC <==> (r.asyncCount == 11 && c == 0x80) || (r.rxedISYNC && !(r.p == Idle && c == 0x08))
    ensures res.2 ==> res.0.rxedISYNC
  {
    if r.asyncCount == 11 && c == 0x80 then
      (r.(rxedISYNC := true, p := WaitInfo), cpu, false)
    else
      var (r', cpu', ev) := Dispatch(r, cpu, c);
      (r'.(asyncCount := if c == 0 then r.asyncCount + 1 else 0), cpu', ev && r'.rxedISYNC)
  }

  /** `_forceSync`: only the state changes; unlike the ETMv3.5 engine, neither the zero count nor the sync flag is reset. */
  function ForceSync(r: Regs, isSynced: bool): (r': Regs)
    ensures r'.p == (if isSynced then Idle else Unsynced)
    ensures r'.rxedISYNC == r.rxedISYNC && r'.asyncCount == r.asyncCount && r'.q == r.q && r'.idx == r.idx
    ensures Inv(r) ==> Inv(r')
  {
    r.(p := if isSynced then Idle else Unsynced)
  }

  // ---------------------------------------------------------------- the engine

  /**
   * The engine itself, `struct ETM4DecodeState`, updated in place byte by byte,
   * with the address queue an array of three entries.  Each method is the
   * part of `_pumpAction` for one state (or one group of header bytes),
   * proved to leave the registers as the function of the same name says.
   */
  class Engine {
    var p: Proto
    var asyncCount: nat
    var rxedISYNC: bool
    var info: TraceInfo
    var haveContext: bool
    var context: nat
    var vcontext: nat
    var ex0: byte
    var ccFollows: bool
    var idx: nat
    var cntUpdate: nat
    const q: array<QEntry>

    /** The registers as a value. */
    ghost function State(): Regs
      reads this, q
    {
      Regs(p, asyncCount, rxedISYNC, info, haveContext, context, vcontext, ex0, ccFollows, idx, cntUpdate, q[..])
    }

    /** `ETM4DecoderPumpCreate`: zero-filled. */
    constructor ()
      ensures State() == INIT && Inv(State()) && !Synced() && fresh(q)
    {
      p, asyncCount, rxedISYNC, info := Unsynced, 0, false, TraceInfo(0, false, 0, false, false, 0, 0);
      haveContext, context, vcontext := false, 0, 0;
      ex0, ccFollows, idx, cntUpdate := 0, false, 0, 0;
      q := new QEntry[3](_ => QEntry(0, IS0));
    }

    /** `_synced`. */
    function Synced(): (b: bool)
      reads this
      ensures b <==> p != Unsynced
    {
      p != Unsynced
    }

    /** `_forceSync`. */
    method ForceSyncTo(isSynced: bool)
      modifies this
      ensures State() == ForceSync(old(State()), isSynced) && Synced() == isSynced
    {
      p := if isSynced then Idle else Unsynced;
    }

    /** `_stackQ`. */
    method PushQ()
      requires q.Length == 3
      modifies q
      ensures q[..] == StackQ(old(q[..]))
    {
      q[2] := q[1];
      q[1] := q[0];
    }

    /** `_flushQ`. */
    method FlushQ()
      requires q.Length == 3
      modifies q
      ensures q[..] == FLUSHED
    {
      q[0] := QEntry(0, IS0);
      q[1] := QEntry(0, IS0);
      q[2] := QEntry(0, IS0);
    }

    /**
     * `_pumpAction`: the registers change as `Step` says, the processor state is
     * returned updated.  The zero count is updated after the state's handling,
     * which neither reads nor writes it.
     */
    method Pump(cpu: Cpu, c: byte) returns (cpu': Cpu, report: bool)
      requires Inv(State())
      modifies this, q
      ensures var res := Step(old(State()), cpu, c); State() == res.0 && cpu' == res.1 && report == res.2
    {
      if asyncCount == 11 && c == 0x80 {
        rxedISYNC, p := true, WaitInfo;
        cpu', report := cpu, false;
        return;
      }
      var zeros := if c == 0 then asyncCount + 1 else 0;
      var ev;
      cpu', ev := PumpDispatch(cpu, c);
      asyncCount := zeros;
      report := ev && rxedISYNC;
    }

    /** The `switch` on the protocol state. */
    method PumpDispatch(cpu: Cpu, c: byte) returns (cpu': Cpu, ev: bool)
      requires Inv(State())
      modifies this, q
      ensures (State(), cpu', ev) == Dispatch(old(State()), cpu, c)
    {
      match p {
        case Unsynced => cpu', ev := cpu, false;
        case Idle => cpu', ev := PumpIdle(cpu, c);
        case GetCycleCount => cpu', ev := cpu, false;
        case WaitInfo => cpu', ev := PumpWaitInfo(cpu, c);
        case GetInfoPlctl => cpu', ev := PumpPlctl(cpu, c);
        case GetInfoInfo => cpu', ev := PumpInfo(cpu, c);
        case GetInfoKey => cpu', ev := PumpKey(cpu, c);
        case GetInfoSpec => cpu', ev := PumpSpec(cpu, c);
        case GetInfoCyct => cpu', ev := cpu, false;
        case Extension => cpu', ev := PumpExtension(cpu, c);
        case GetTimestamp => cpu', ev := PumpTimestamp(cpu, c);
        case GetTsCc => cpu', ev := PumpTsCc(cpu, c);
        case Commit => cpu', ev := cpu, false;
        case GetShortAddr => cpu', ev := PumpShortAddr(cpu, c);
        case Get32BitAddr => cpu', ev := PumpLongAddr(cpu, c, false);
        case Get64BitAddr => cpu', ev := PumpLongAddr(cpu, c, true);
        case GetContext => cpu', ev := PumpContext(cpu, c);
        case GetVContext => cpu', ev := PumpVContext(cpu, c);
        case GetContextId => cpu', ev := PumpContextId(cpu, c);
        case GetExceptionInfo1 => cpu', ev := PumpExceptionInfo1(cpu, c);
        case GetExceptionInfo2 => cpu', ev := PumpExceptionInfo2(cpu, c);
      }
    }

    /** `TRACE_IDLE`. */
    method PumpIdle(cpu: Cpu, c: byte) returns (cpu': Cpu, ev: bool)
      requires Inv(State()) && p == Idle
      modifies this, q
      ensures (State(), cpu', ev) == IdleStep(old(State()), cpu, c)
    {
      if c >= 0xC0 {
        var res := Atoms(cpu, c);
        cpu', ev := res.0, res.1;
      } else if 0x90 <= c <= 0x93 {
        cpu', ev := PumpExactMatch(cpu, c);
      } else if c == 0x95 || c == 0x96 {
        PushQ();
        idx, p := if c == 0x95 then 2 else 1, GetShortAddr;
        cpu', ev := cpu, false;
      } else if IsLongHeader(c) {
        PumpLongHeader(c);
        cpu', ev := cpu, false;
      } else if IsCpuHeader(c) {
        var res := IdleCpu(cpu, c);
        cpu', ev := res.0, res.1;
      } else {
        cpu', ev := PumpIdleOther(cpu, c);
      }
    }

    /** An exact-match address packet: the processor's address is read from the queue. */
    method PumpExactMatch(cpu: Cpu, c: byte) returns (cpu': Cpu, ev: bool)
      requires Inv(State()) && 0x90 <= c <= 0x93
      ensures (State(), cpu', ev) == ExactMatch(State(), cpu, c)
    {
      var k := c % 4;
      if k == 3 {
        cpu', ev := cpu, false;
      } else {
        cpu', ev := cpu.(addr := q[k].addr, changeRecord := cpu.changeRecord + {Address}), true;
      }
    }

    /** A long address header. */
    method PumpLongHeader(c: byte)
      requires Inv(State()) && p == Idle && IsLongHeader(c)
      modifies this, q
      ensures State() == LongHeader(old(State()), c)
    {
      var is1 := c == 0x9B || c == 0x9E || c == 0x83 || c == 0x86;
      var low := if c == 0x9B || c == 0x83 then 2 else 4;
      idx := if is1 then 1 else 2;
      haveContext := c < 0x90;
      PushQ();
      q[0] := QEntry(AlignLow(q[0].addr, low), if is1 then IS1 else IS0);
      p := if c == 0x9A || c == 0x9B || c == 0x82 || c == 0x83 then Get32BitAddr else Get64BitAddr;
    }

    /** The header bytes that start a packet with a payload, resynchronise, or are ignored. */
    method PumpIdleOther(cpu: Cpu, c: byte) returns (cpu': Cpu, ev: bool)
      requires Inv(State()) && p == Idle && c < 0xC0 && !IsCpuHeader(c)
      modifies this
      ensures (State(), cpu', ev) == IdleOther(old(State()), cpu, c)
    {
      cpu', ev := cpu, false;
      if c == 0x02 || c == 0x03 {
        p, ccFollows, idx := GetTimestamp, c == 0x03, 0;
        if c == 0x02 {
          cpu' := cpu.(cycleCount := UNKNOWN);
        }
      } else if c == 0x08 {
        rxedISYNC, p := false, Unsynced;
      } else {
        p := if c == 0x01 then GetInfoPlctl else if c == 0x81 then GetContext else if c == 0x00 then Extension
             else if c == 0x06 then GetExceptionInfo1 else if c == 0x2D then Commit else Idle;
      }
    }

    /** `TRACE_GET_SHORT_ADDR`. */
    method PumpShortAddr(cpu: Cpu, c: byte) returns (cpu': Cpu, ev: bool)
      requires Inv(State()) && p == GetShortAddr
      modifies this, q
      ensures var res := ShortAddrStep(old(State()), cpu, c); State() == res.0 && cpu' == res.1 && ev == res.2
    {
      var w := if idx <= 2 then 7 else 8;
      var a := Put64(q[0].addr, idx, w, c);
      q[0] := q[0].(addr := a);
      idx := U8(idx + w);
      if !Bit(c, 7) || idx > 9 {
        p := Idle;
        cpu', ev := cpu.(addr := a, changeRecord := cpu.changeRecord + {Address}), true;
      } else {
        cpu', ev := cpu, false;
      }
    }

    /** `TRACE_GET_32BIT_ADDR` and `TRACE_GET_64BIT_ADDR`. */
    method PumpLongAddr(cpu: Cpu, c: byte, is64: bool) returns (cpu': Cpu, ev: bool)
      requires Inv(State()) && p == (if is64 then Get64BitAddr else Get32BitAddr)
      modifies this, q
      ensures var res := LongAddrStep(old(State()), cpu, c, is64); State() == res.0 && cpu' == res.1 && ev == res.2
    {
      var (w, next) := LongField(idx, q[0].inst, is64);
      var a := Put64(q[0].addr, idx, w, c);
      q[0] := q[0].(addr := a);
      idx := U8(next);
      if idx == (if is64 then 64 else 32) {
        p := if haveContext then GetContext else Idle;
        cpu', ev := cpu.(addr := a, changeRecord := cpu.changeRecord + {Address}), !haveContext;
      } else {
        cpu', ev := cpu, false;
      }
    }

    /** `TRACE_GET_CONTEXT`. */
    method PumpContext(cpu: Cpu, c: byte) returns (cpu': Cpu, ev: bool)
      requires Inv(State()) && p == GetContext
      modifies this
      ensures var res := ContextStep(old(State()), cpu, c); State() == res.0 && cpu' == res.1 && ev == res.2
    {
      var hc := Bit(c, 7);
      if Bit(c, 6) {
        haveContext, vcontext, idx, p := hc, 0, 0, GetVContext;
      } else if hc {
        haveContext, context, idx, p := hc, 0, 0, GetContextId;
      } else {
        haveContext, p := hc, Idle;
      }
      var cr := if p == Idle then cpu.changeRecord + {ContextId} else cpu.changeRecord;
      cpu', ev := cpu.(exceptionLevel := c % 4, am64bit := Bit(c, 4), amSecure := !Bit(c, 5), changeRecord := cr), p == Idle;
    }

    /** `TRACE_GET_VCONTEXT`. */
    method PumpVContext(cpu: Cpu, c: byte) returns (cpu': Cpu, ev: bool)
      requires Inv(State()) && p == GetVContext
      modifies this
      ensures var res := VContextStep(old(State()), cpu, c); State() == res.0 && cpu' == res.1 && ev == res.2
    {
      vcontext := Or(vcontext, Shl(c, idx)) % TWO_32;
      idx := U8(idx + 8);
      if idx == 32 && !haveContext {
        p := Idle;
        cpu', ev := cpu.(vmid := vcontext % 256, changeRecord := cpu.changeRecord + {Vmid}), true;
      } else {
        context, idx, p := 0, 0, GetContextId;
        cpu', ev := cpu, false;
      }
    }

    /** `TRACE_GET_CONTEXT_ID`. */
    method PumpContextId(cpu: Cpu, c: byte) returns (cpu': Cpu, ev: bool)
      requires Inv(State()) && p == GetContextId
      modifies this
      ensures var res := ContextIdStep(old(State()), cpu, c); State() == res.0 && cpu' == res.1 && ev == res.2
    {
      context := Or(context, Shl(c, idx)) % TWO_32;
      idx := U8(idx + 8);
      if idx == 32 {
        p := Idle;
        cpu', ev := cpu.(contextID := vcontext, changeRecord := cpu.changeRecord + {ContextId}), true;
      } else {
        cpu', ev := cpu, false;
      }
    }

    /** `TRACE_GET_EXCEPTIONINFO1`. */
    method PumpExceptionInfo1(cpu: Cpu, c: byte) returns (cpu': Cpu, ev: bool)
      requires Inv(State()) && p == GetExceptionInfo1
      modifies this
      ensures (State(), cpu', ev) == ExceptionInfo1Step(old(State()), cpu, c)
    {
      ex0, p := c, GetExceptionInfo2;
      cpu', ev := cpu, false;
    }

    /** `TRACE_GET_EXCEPTIONINFO2`. */
    method PumpExceptionInfo2(cpu: Cpu, c: byte) returns (cpu': Cpu, ev: bool)
      requires Inv(State()) && p == GetExceptionInfo2
      modifies this
      ensures (State(), cpu', ev) == ExceptionInfo2Step(old(State()), cpu, c)
    {
      cpu' := cpu.(exception := (ex0 / 2) % 32 + 32 * (c % 32), serious := Bit(c, 5),
                   changeRecord := cpu.changeRecord + {ExEntry});
      p, ev := Idle, false;
    }

    /** `TRACE_GET_TIMESTAMP`. */
    method PumpTimestamp(cpu: Cpu, c: byte) returns (cpu': Cpu, ev: bool)
      requires Inv(State()) && p == GetTimestamp
      modifies this
      ensures var res := TimestampStep(old(State()), cpu, c); State() == res.0 && cpu' == res.1 && ev == res.2
    {
      var w := if idx < 56 then 7 else 8;
      var ts := Put64(cpu.ts, idx, w, c);
      var nidx := U8(idx + 7);
      var ends := !Bit(c, 7) || nidx == 63;
      var next := if !ends then GetTimestamp else if info.ccEnabled && ccFollows then GetTsCc else Idle;
      var cr := if ends && cpu.cycleCount != UNKNOWN then cpu.changeRecord + {TStamp} else cpu.changeRecord;
      if next == GetTsCc {
        idx, cntUpdate, p := 0, 0, next;
      } else {
        idx, p := nidx, next;
      }
      cpu', ev := cpu.(ts := ts, changeRecord := cr), next == Idle;
    }

    /** `TRACE_GET_TS_CC`. */
    method PumpTsCc(cpu: Cpu, c: byte) returns (cpu': Cpu, ev: bool)
      requires Inv(State()) && p == GetTsCc
      modifies this
      ensures var res := TsCcStep(old(State()), cpu, c); State() == res.0 && cpu' == res.1 && ev == res.2
    {
      cntUpdate := Or(cntUpdate, Shl(c % 128, 7 * idx)) % TWO_32;
      idx := U8(idx + 1);
      if idx == 3 || Bit(c, 7) {
        p := Idle;
        cpu', ev := cpu.(cycleCount := U64(cpu.cycleCount + cntUpdate), changeRecord := cpu.changeRecord + {CycleCount}), true;
      } else {
        cpu', ev := cpu, false;
      }
    }

    /** `TRACE_EXTENSION`. */
    method PumpExtension(cpu: Cpu, c: byte) returns (cpu': Cpu, ev: bool)
      requires Inv(State()) && p == Extension
      modifies this
      ensures (State(), cpu', ev) == ExtensionStep(old(State()), cpu, c)
    {
      cpu' := cpu;
      if c == 0x03 {
        cpu' := cpu.(changeRecord := cpu.changeRecord + {Discard, TraceStop});
      } else if c == 0x05 {
        cpu' := cpu.(changeRecord := cpu.changeRecord + {Overflow});
      }
      p, ev := Idle, true;
    }

    /** `TRACE_WAIT_INFO`. */
    method PumpWaitInfo(cpu: Cpu, c: byte) returns (cpu': Cpu, ev: bool)
      requires Inv(State()) && p == WaitInfo
      modifies this
      ensures (State(), cpu', ev) == WaitInfoStep(old(State()), cpu, c)
    {
      if c == 0x01 {
        p := GetInfoPlctl;
      }
      cpu', ev := cpu, false;
    }

    /** `TRACE_GET_INFO_PLCTL`. */
    method PumpPlctl(cpu: Cpu, c: byte) returns (cpu': Cpu, ev: bool)
      requires Inv(State()) && p == GetInfoPlctl
      modifies this, q
      ensures var res := PlctlStep(old(State()), cpu, c); State() == res.0 && cpu' == res.1 && ev == res.2
    {
      info := info.(plctl := c, nextrhkey := 0);
      FlushQ();
      p := if Bit(c, 0) then GetInfoInfo else InfoNext(c, 0);
      cpu', ev := cpu, p == Idle;
    }

    /** `TRACE_GET_INFO_INFO`. */
    method PumpInfo(cpu: Cpu, c: byte) returns (cpu': Cpu, ev: bool)
      requires Inv(State()) && p == GetInfoInfo
      modifies this
      ensures (State(), cpu', ev) == InfoStep(old(State()), cpu, c)
    {
      info := info.(ccEnabled := Bit(c, 0), condEnabled := (2 * c) % 8, loadTraced := Bit(c, 4), storeTraced := Bit(c, 5));
      p := InfoNext(info.plctl, 1);
      cpu', ev := cpu, p == Idle;
    }

    /** `TRACE_GET_INFO_KEY`. */
    method PumpKey(cpu: Cpu, c: byte) returns (cpu': Cpu, ev: bool)
      requires Inv(State()) && p == GetInfoKey
      modifies this
      ensures (State(), cpu', ev) == KeyStep(old(State()), cpu, c)
    {
      info, p := info.(nextrhkey := c), InfoNext(info.plctl, 2);
      cpu', ev := cpu, p == Idle;
    }

    /** `TRACE_GET_INFO_SPEC`. */
    method PumpSpec(cpu: Cpu, c: byte) returns (cpu': Cpu, ev: bool)
      requires Inv(State()) && p == GetInfoSpec
      modifies this
      ensures (State(), cpu', ev) == SpecStep(old(State()), cpu, c)
    {
      info, p := info.(spec := c), InfoNext(info.plctl, 3);
      cpu', ev := cpu, p == Idle;
    }
  }
}
