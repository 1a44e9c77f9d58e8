/**
 * The ETMv3.5 instruction-trace engine: a byte-driven machine that recognises
 * A-sync, I-sync, branch-address, P-header, cycle-count, timestamp, context and
 * VMID packets and folds them into the processor state.
 */
module TraceEtm35 {
  import opened Bytes
  import opened TraceCpu

  /** The states of the protocol machine, in the order of the C enumeration. */
  datatype Proto = Unsynced | WaitISync | Idle | CollectBaStd | CollectBaAlt | CollectException
                 | GetContextByte | GetInfoByte | GetIAddress | GetICycleCount | GetCycleCount
                 | GetVmid | GetTStamp | GetContextId

  /**
   * `struct ETM35DecodeState` without the engine header.  `contextBytes`,
   * `dataOnlyMode` and `cycleAccurate` are left at zero by the creator and
   * nothing sets them; the machine still branches on them.
   */
  datatype Regs = Regs(p: Proto, usingAltAddrEncode: bool, dataOnlyMode: bool, contextBytes: byte,
                       tsConstruct: nat, asyncCount: nat, addrConstruct: nat, byteCount: nat,
                       cycleConstruct: nat, contextConstruct: nat, rxedISYNC: bool, cycleAccurate: bool)

  /** The state `ETM35DecoderPumpCreate` leaves: everything zero. */
  const INIT: Regs := Regs(Unsynced, false, false, 0, 0, 0, 0, 0, 0, 0, false, false)

  /** What every step keeps: the registers stay within their C widths and each byte counter within the packet it counts. */
  predicate Inv(r: Regs)
  {
    && Widths(r)
    && ((r.p == CollectBaStd || r.p == CollectBaAlt) ==> 1 <= r.byteCount <= 4)
    && (r.p == CollectException ==> r.byteCount <= 1)
    && (r.p == GetIAddress ==> r.byteCount < 4)
    && ((r.p == GetCycleCount || r.p == GetICycleCount) ==> r.byteCount < 5)
    && (r.p == GetTStamp ==> r.byteCount < 9)
  }

  /** The registers hold no more bits than their C types. */
  predicate Widths(r: Regs)
  {
    r.addrConstruct < TWO_32 && r.cycleConstruct < TWO_32 && r.contextConstruct < TWO_32 && r.tsConstruct < TWO_64
  }

  /** The configuration and the zero count, which no state's handling touches. */
  predicate KeepsConfig(r: Regs, r': Regs)
  {
    && r'.usingAltAddrEncode == r.usingAltAddrEncode && r'.dataOnlyMode == r.dataOnlyMode
    && r'.contextBytes == r.contextBytes && r'.cycleAccurate == r.cycleAccurate
    && r'.asyncCount == r.asyncCount
  }

  /** What the states other than the I-sync ones keep: the configuration, the zero count and the I-sync flag. */
  predicate Keeps(r: Regs, r': Regs)
  {
    KeepsConfig(r, r') && r'.rxedISYNC == r.rxedISYNC
  }

  /** `newState` after a packet's bits that carry on into the I-sync context or information byte. */
  function AfterCycleOrSync(contextBytes: byte): Proto
  {
    if contextBytes != 0 then GetContextByte else GetInfoByte
  }

  /** The state that collects a branch address, by the encoding in use. */
  function AddrFormat(alt: bool): Proto
  {
    if alt then CollectBaAlt else CollectBaStd
  }

  /** The bit offset `ofs` of branch address bits, by instruction set. */
  function Offset(m: AddrMode): int
  {
    match m
    case ModeArm => 1
    case ModeThumb => 0
    case ModeJazelle => -1
  }

  /**
   * `terminateAddrByte`: the address so far `a` and the byte count `n` are
   * stored with `q` as the provisional next state; once the address has no
   * continuation, or five bytes are in, it is complete.  A fifth byte in ARM
   * mode with bit 6 set carries legacy exception information; otherwise
   * exception bytes follow when `X` (or a continuation on the fifth byte) says so.
   */
  function Terminate(r: Regs, a: nat, n: nat, q: Proto, cpu: Cpu, c: byte, C: bool, X: bool): (res: (Regs, Cpu, bool))
    requires Widths(r) && (q == CollectBaAlt || q == CollectBaStd) && a < TWO_32 && 1 <= n <= 5
    ensures Inv(res.0) && Keeps(r, res.0) && res.0.addrConstruct == a
    ensures res.0.p == (if !C || n == 5 then (if res.2 then Idle else CollectException) else q)
    ensures res.1.addr == (if !C || n == 5 then a else cpu.addr)
    ensures cpu.changeRecord <= res.1.changeRecord
  {
    if !C || n == 5 then
      if n == 5 && cpu.addrMode == ModeArm && C then
        (r.(addrConstruct := a, byteCount := n, p := Idle), LegacyException(cpu, a, c), true)
      else if !C && !X then
        (r.(addrConstruct := a, byteCount := n, p := Idle), cpu.(addr := a), true)
      else
        (r.(addrConstruct := a, byteCount := 0, p := CollectException), ExceptionFollows(cpu, a), false)
    else
      (r.(addrConstruct := a, byteCount := n, p := q), cpu, false)
  }

  /** A fifth address byte in ARM mode with its continuation bit set: bits 6:4 are the exception, bit 6 also cancels. */
  function LegacyException(cpu: Cpu, a: nat, c: byte): (r: Cpu)
    ensures r.addr == a && r.exception == (c / 16) % 8
    ensures r.changeRecord == cpu.changeRecord + {ExEntry, if Bit(c, 6) then Cancelled else ExEntry}
  {
    cpu.(addr := a, exception := (c / 16) % 8, changeRecord := cpu.changeRecord + {ExEntry, if Bit(c, 6) then Cancelled else ExEntry})
  }

  /** An address after which exception bytes follow: the exception entry is flagged and the resume field cleared. */
  function ExceptionFollows(cpu: Cpu, a: nat): (r: Cpu)
    ensures r.addr == a && r.resume == 0 && r.changeRecord == cpu.changeRecord + {ExEntry}
  {
    cpu.(addr := a, resume := 0, changeRecord := cpu.changeRecord + {ExEntry})
  }

  /** The six address bits of the first byte of a branch address packet, placed by instruction set. */
  function FirstAddrBits(m: AddrMode, a: nat, c: byte): (r: nat)
    ensures r < TWO_32
  {
    match m
    case ModeArm => Put32(a, 2, 6, c / 2)
    case ModeThumb => Put32(a, 0, 7, (c / 2) * 2)
    case ModeJazelle => Put32(a, 0, 6, c / 2)
  }

  /** The first byte of a branch address packet (bit 0 set): up to six address bits, placed by instruction set. */
  function BranchStep(r: Regs, cpu: Cpu, c: byte): (res: (Regs, Cpu, bool))
    requires Inv(r) && r.p == Idle && c % 2 == 1
    ensures Inv(res.0) && Keeps(r, res.0) && Address in res.1.changeRecord
    ensures res.0.p == (if c < 128 then Idle else AddrFormat(r.usingAltAddrEncode))
    ensures c < 128 ==> res.2 && res.1.addr == res.0.addrConstruct
  {
    var a := FirstAddrBits(cpu.addrMode, r.addrConstruct, c);
    Terminate(r, a, 1, AddrFormat(r.usingAltAddrEncode), cpu.(changeRecord := cpu.changeRecord + {Address}), c, c >= 128, false)
  }

  /** A further byte of a branch address in the alternative encoding: seven bits, or six in the last byte. */
  function AltStep(r: Regs, cpu: Cpu, c: byte): (res: (Regs, Cpu, bool))
    requires Inv(r) && r.p == CollectBaAlt
    ensures Inv(res.0) && Keeps(r, res.0)
    ensures res.0.p == CollectBaAlt || res.0.p == Idle || res.0.p == CollectException
  {
    var C := Bit(c, 7);
    var s := 7 * r.byteCount + Offset(cpu.addrMode);
    var a := Put32(r.addrConstruct, s, if C then 7 else 6, c);
    Terminate(r, a, r.byteCount + 1, CollectBaAlt, cpu, c, C, !C && Bit(c, 6))
  }

  /**
   * A further byte of a branch address in the standard encoding.  As written
   * the byte is masked in place rather than shifted into position, so only its
   * bits that line up with the field land in the address.
   */
  function StdStep(r: Regs, cpu: Cpu, c: byte): (res: (Regs, Cpu, bool))
    requires Inv(r) && r.p == CollectBaStd
    ensures Inv(res.0) && Keeps(r, res.0)
    ensures res.0.p == CollectBaStd || res.0.p == Idle || res.0.p == CollectException
  {
    var s := 7 * r.byteCount + Offset(cpu.addrMode);
    var a := Put32(r.addrConstruct, s, 7, if s == 6 then c / 64 else if s == 7 then c / 128 else 0);
    var n := r.byteCount + 1;
    var C := if n < 5 then Bit(c, 7) else Bit(c, 6);
    Terminate(r, a, n, CollectBaStd, cpu, c, C, n == 5 && C)
  }

  /** The exception bytes after a branch address: security state, number, cancel, alternative ISA, hypervisor and resume. */
  function ExceptionStep(r: Regs, cpu: Cpu, c: byte): (res: (Regs, Cpu, bool))
    requires Inv(r) && r.p == CollectException
    ensures Inv(res.0) && Keeps(r, res.0)
    ensures res.2 <==> res.0.p == Idle
    ensures res.0.p == Idle || res.0.p == CollectException
  {
    if r.byteCount == 0 then
      var ns := Bit(c, 0);
      var alt := Bit(c, 6);
      var cr1 := if ns != cpu.nonSecure then cpu.changeRecord + {Secure} else cpu.changeRecord;
      var cr2 := cr1 + {if Bit(c, 5) then Cancelled else ExEntry};
      var cr3 := if cpu.altISA != alt then cr2 + {AltIsa} else cr2;
      var cpu' := cpu.(nonSecure := ns, exception := (c / 2) % 16, altISA := alt, changeRecord := cr3);
      if Bit(c, 7) then (r.(byteCount := 1), cpu', false) else (r.(p := Idle), cpu', true)
    else if Bit(c, 7) then
      var hyp := Bit(c, 5);
      var cr := if cpu.hyp != hyp then cpu.changeRecord + {Hyp} else cpu.changeRecord;
      var cpu' := cpu.(exception := Or(cpu.exception, (c % 32) * 16), hyp := hyp, changeRecord := cr);
      if !Bit(c, 6) then (r.(p := Idle), cpu', true) else (r, cpu', false)
    else
      var cr := if c % 16 != 0 then cpu.changeRecord + {Resume} else cpu.changeRecord;
      (r.(p := Idle), cpu.(resume := c % 16, changeRecord := cr), true)
  }

  /** The VMID byte. */
  function VmidStep(r: Regs, cpu: Cpu, c: byte): (res: (Regs, Cpu, bool))
    requires Inv(r) && r.p == GetVmid
    ensures Inv(res.0) && Keeps(r, res.0) && res.0.p == Idle && res.2
    ensures res.1.vmid == c && (Vmid in res.1.changeRecord <==> Vmid in cpu.changeRecord || cpu.vmid != c)
  {
    var cr := if cpu.vmid != c then cpu.changeRecord + {Vmid} else cpu.changeRecord;
    (r.(p := Idle), cpu.(vmid := c, changeRecord := cr), true)
  }

  /**
   * A timestamp byte.  As written each byte's seven bits go in at a shift of
   * the byte count rather than seven times it, and a ninth byte gives eight
   * bits; the packet ends on a byte with bit 7 clear or after nine bytes.
   */
  function TStampStep(r: Regs, cpu: Cpu, c: byte): (res: (Regs, Cpu, bool))
    requires Inv(r) && r.p == GetTStamp
    ensures Inv(res.0) && Keeps(r, res.0) && res.0.byteCount == r.byteCount + 1
    ensures res.2 <==> (c < 128 || r.byteCount == 8)
    ensures res.0.p == (if res.2 then Idle else GetTStamp)
    ensures res.2 ==> res.1.ts == res.0.tsConstruct && TStamp in res.1.changeRecord
  {
    TopBit(c);
    var ts := Put64(r.tsConstruct, r.byteCount, if r.byteCount < 8 then 7 else 8, c);
    var n := r.byteCount + 1;
    if !Bit(c, 7) || n == 9 then
      (r.(tsConstruct := ts, byteCount := n, p := Idle), cpu.(ts := ts, changeRecord := cpu.changeRecord + {TStamp}), true)
    else
      (r.(tsConstruct := ts, byteCount := n), cpu, false)
  }

  /** `cycleConstruct` with the seven bits of `c` put in at byte position `k`. */
  function CycleBits(x: nat, k: nat, c: byte): (r: nat)
    ensures r < TWO_32
  {
    Put32(x, 7 * k, 7, c)
  }

  /** A cycle count byte of a cycle count packet: seven bits each, ending on bit 7 clear or after five bytes. */
  function CycleCountStep(r: Regs, cpu: Cpu, c: byte): (res: (Regs, Cpu, bool))
    requires Inv(r) && r.p == GetCycleCount
    ensures Inv(res.0) && Keeps(r, res.0) && res.0.byteCount == r.byteCount + 1
    ensures res.0.cycleConstruct == CycleBits(r.cycleConstruct, r.byteCount, c)
    ensures res.2 <==> (c < 128 || r.byteCount == 4)
    ensures res.0.p == (if res.2 then Idle else GetCycleCount)
    ensures res.2 ==> res.1.cycleCount == res.0.cycleConstruct && CycleCount in res.1.changeRecord
    ensures !res.2 ==> res.1 == cpu
  {
    var cc := CycleBits(r.cycleConstruct, r.byteCount, c);
    var n := r.byteCount + 1;
    if !Bit(c, 7) || n == 5 then
      (r.(cycleConstruct := cc, byteCount := n, p := Idle),
       cpu.(cycleCount := cc, changeRecord := cpu.changeRecord + {CycleCount}), true)
    else
      (r.(cycleConstruct := cc, byteCount := n), cpu, false)
  }

  /** The cycle count that leads an I-sync packet; when complete the context or information byte follows. */
  function ICycleCountStep(r: Regs, cpu: Cpu, c: byte): (res: (Regs, Cpu, bool))
    requires Inv(r) && r.p == GetICycleCount
    ensures Inv(res.0) && Keeps(r, res.0) && !res.2
    ensures res.0.cycleConstruct == CycleBits(r.cycleConstruct, r.byteCount, c)
    ensures res.0.p == (if c < 128 || r.byteCount == 4 then AfterCycleOrSync(r.contextBytes) else GetICycleCount)
  {
    var cc := CycleBits(r.cycleConstruct, r.byteCount, c);
    var n := r.byteCount + 1;
    if !Bit(c, 7) || n == 5 then
      (r.(cycleConstruct := cc, byteCount := r.contextBytes, contextConstruct := 0, p := AfterCycleOrSync(r.contextBytes)),
       cpu.(cycleCount := cc, changeRecord := cpu.changeRecord + {CycleCount}), false)
    else
      (r.(cycleConstruct := cc, byteCount := n), cpu, false)
  }

  /** `contextConstruct + (c << (8 * byteCount))` in 32 bits. */
  function ContextBits(x: nat, k: nat, c: byte): (r: nat)
    ensures r < TWO_32
  {
    (x + Shl(c, 8 * k)) % TWO_32
  }

  /** Raise `ContextId` and take the assembled context when it differs from the current one. */
  function TakeContext(cpu: Cpu, ctx: nat): (r: Cpu)
    ensures r.contextID == ctx
    ensures ContextId in r.changeRecord <==> ContextId in cpu.changeRecord || cpu.contextID != ctx
  {
    var cr := if cpu.contextID != ctx then cpu.changeRecord + {ContextId} else cpu.changeRecord;
    cpu.(contextID := ctx, changeRecord := cr)
  }

  /**
   * A context ID byte, little-endian.  The packet ends when the byte count
   * reaches `contextBytes`; with `contextBytes` left at zero it does not end.
   */
  function ContextIdStep(r: Regs, cpu: Cpu, c: byte): (res: (Regs, Cpu, bool))
    requires Inv(r) && r.p == GetContextId
    ensures Inv(res.0) && Keeps(r, res.0)
    ensures res.2 <==> r.byteCount + 1 == r.contextBytes
    ensures res.0.p == (if res.2 then Idle else GetContextId)
  {
    var ctx := ContextBits(r.contextConstruct, r.byteCount, c);
    var n := r.byteCount + 1;
    if n == r.contextBytes then
      (r.(contextConstruct := ctx, byteCount := n, p := Idle), TakeContext(cpu, ctx), true)
    else
      (r.(contextConstruct := ctx, byteCount := n), cpu, false)
  }

  /** A context ID byte inside an I-sync packet; the information byte follows the last one. */
  function ContextByteStep(r: Regs, cpu: Cpu, c: byte): (res: (Regs, Cpu, bool))
    requires Inv(r) && r.p == GetContextByte
    ensures Inv(res.0) && Keeps(r, res.0) && !res.2
    ensures res.0.p == (if r.byteCount + 1 == r.contextBytes then GetInfoByte else GetContextByte)
  {
    var ctx := ContextBits(r.contextConstruct, r.byteCount, c);
    var n := r.byteCount + 1;
    if n == r.contextBytes then
      (r.(contextConstruct := ctx, byteCount := n, p := GetInfoByte), TakeContext(cpu, ctx), false)
    else
      (r.(contextConstruct := ctx, byteCount := n), cpu, false)
  }

  /** The fields of an I-sync information byte. */
  datatype Info = Info(isLSiP: bool, reason: nat, jazelle: bool, nonSecure: bool, altISA: bool, hyp: bool)

  /**
   * The information byte as the ETMv3 architecture lays it out: bit 7 load or
   * store in progress, bits 6:5 the reason, bit 4 Jazelle, bit 3 non-secure,
   * bit 2 alternative ISA, bit 1 hypervisor.
   */
  function DecodeInfo(c: byte): (i: Info)
    ensures i.isLSiP <==> c >= 128
    ensures i.reason < 4 && c == (if i.isLSiP then 128 else 0) + 32 * i.reason + c % 32
    ensures i.jazelle <==> Bit(c, 4)
    ensures i.nonSecure <==> Bit(c, 3)
    ensures i.altISA <==> Bit(c, 2)
    ensures i.hyp <==> Bit(c, 1)
  {
    Info(Bit(c, 7), (c / 32) % 4, Bit(c, 4), Bit(c, 3), Bit(c, 2), Bit(c, 1))
  }

  /**
   * The information byte as the C code reads it: each mask is written in hex
   * with the digits of the intended binary mask.  Every mask but the last,
   * `0x10`, lies above the byte and reads zero; the last reads bit 4, the
   * Jazelle bit, into the hypervisor flag.
   */
  function DecodeInfoAsWritten(c: byte): (i: Info)
    ensures !i.isLSiP && i.reason == 0 && !i.jazelle && !i.nonSecure && !i.altISA
    ensures i.hyp <==> DecodeInfo(c).jazelle
  {
    Info(false, 0, false, false, false, Bit(c, 4))
  }

  /**
   * As written the information byte is misread: a byte that announces a load
   * or store in progress is read as not doing so, and the Jazelle bit is
   * taken for the hypervisor bit.
   */
  lemma InfoAsWrittenLosesLSiP()
    ensures !DecodeInfoAsWritten(0x80).isLSiP && DecodeInfo(0x80).isLSiP
    ensures DecodeInfoAsWritten(0x10).hyp && !DecodeInfo(0x10).hyp && DecodeInfo(0x10).jazelle
  {
    assert Bit(0x10, 4) && !Bit(0x10, 1);
  }

  /** The flags an information byte raises: one for each field that differs from the processor state. */
  function InfoChanges(cpu: Cpu, i: Info): (s: set<Change>)
    ensures IsLsip in s <==> cpu.isLSiP != i.isLSiP
    ensures Reason in s <==> cpu.reason != i.reason
    ensures Jazelle in s <==> cpu.jazelle != i.jazelle
    ensures Secure in s <==> cpu.nonSecure != i.nonSecure
    ensures AltIsa in s <==> cpu.altISA != i.altISA
    ensures Hyp in s <==> cpu.hyp != i.hyp
    ensures s <= {IsLsip, Reason, Jazelle, Secure, AltIsa, Hyp}
  {
    (if cpu.isLSiP != i.isLSiP then {IsLsip} else {})
    + (if cpu.reason != i.reason then {Reason} else {})
    + (if cpu.jazelle != i.jazelle then {Jazelle} else {})
    + (if cpu.nonSecure != i.nonSecure then {Secure} else {})
    + (if cpu.altISA != i.altISA then {AltIsa} else {})
    + (if cpu.hyp != i.hyp then {Hyp} else {})
  }

  /** Each field of the information byte is taken, and the flags of those that changed are raised. */
  function TakeInfo(cpu: Cpu, i: Info): (r: Cpu)
    ensures r.isLSiP == i.isLSiP && r.reason == i.reason && r.jazelle == i.jazelle
    ensures r.nonSecure == i.nonSecure && r.altISA == i.altISA && r.hyp == i.hyp
    ensures r.changeRecord == cpu.changeRecord + InfoChanges(cpu, i)
  {
    cpu.(isLSiP := i.isLSiP, reason := i.reason, jazelle := i.jazelle, nonSecure := i.nonSecure,
         altISA := i.altISA, hyp := i.hyp, changeRecord := cpu.changeRecord + InfoChanges(cpu, i))
  }

  /** The I-sync information byte; the instruction address follows unless only data is traced. */
  function InfoByteStep(r: Regs, cpu: Cpu, c: byte): (res: (Regs, Cpu, bool))
    requires Inv(r) && r.p == GetInfoByte
    ensures Inv(res.0) && Keeps(r, res.0) && res.0.byteCount == 0
    ensures res.1 == TakeInfo(cpu, DecodeInfo(c))
    ensures res.2 <==> r.dataOnlyMode
    ensures res.0.p == (if r.dataOnlyMode then Idle else GetIAddress)
  {
    (r.(byteCount := 0, p := if r.dataOnlyMode then Idle else GetIAddress), TakeInfo(cpu, DecodeInfo(c)), r.dataOnlyMode)
  }

  /**
   * Outside Jazelle, bit 0 of the I-sync address selects Thumb, and the
   * address reported is aligned to the instruction set: bit 0 clear for Thumb,
   * bits 1:0 clear for ARM.  As written, the Thumb flag is raised when bit 0
   * agrees with the current state, and then set from bit 0 of the last byte.
   */
  function ThumbOrArm(cpu: Cpu, a: nat, c: byte): (r: Cpu)
    requires a < TWO_32
    ensures r.addrMode == ModeThumb <==> a % 2 == 1
    ensures r.addrMode == ModeThumb ==> r.addr == a - 1 && r.addr % 2 == 0
    ensures r.addrMode != ModeThumb ==> r.addrMode == ModeArm && r.addr == a - a % 4 && r.addr % 4 == 0
    ensures r.jazelle == cpu.jazelle && r.isLSiP == cpu.isLSiP && cpu.changeRecord <= r.changeRecord
  {
    var flip := (a % 2 == 1) == cpu.thumb;
    var th := if flip then c % 2 == 1 else cpu.thumb;
    var cr := if flip then cpu.changeRecord + {Thumb} else cpu.changeRecord;
    if a % 2 == 1 then
      cpu.(thumb := th, addrMode := ModeThumb, addr := a - 1, changeRecord := cr)
    else
      cpu.(thumb := th, addrMode := ModeArm, addr := a - a % 4, changeRecord := cr)
  }

  /** The processor state once the four I-sync address bytes are in: in Jazelle the address is taken whole. */
  function IAddressCpu(cpu: Cpu, a: nat, c: byte): (r: Cpu)
    requires a < TWO_32
    ensures Address in r.changeRecord && r.isLSiP == cpu.isLSiP
    ensures cpu.jazelle ==> r.addrMode == ModeJazelle && r.addr == a
    ensures !cpu.jazelle ==> r == ThumbOrArm(cpu.(changeRecord := cpu.changeRecord + {Address}), a, c)
  {
    var cpu' := cpu.(changeRecord := cpu.changeRecord + {Address});
    if cpu.jazelle then cpu'.(addrMode := ModeJazelle, addr := a) else ThumbOrArm(cpu', a, c)
  }

  /** An I-sync address byte, little-endian; after the fourth the address is taken, and a load or store in progress brings its own branch address next. */
  function IAddressStep(r: Regs, cpu: Cpu, c: byte): (res: (Regs, Cpu, bool))
    requires Inv(r) && r.p == GetIAddress
    ensures Inv(res.0) && Keeps(r, res.0)
    ensures r.byteCount < 3 ==> res.0.p == GetIAddress && res.1 == cpu && !res.2
  {
    var a := Put32(r.addrConstruct, 8 * r.byteCount, 8, c);
    if r.byteCount == 3 then IAddressLast(r, cpu, a, c) else (r.(addrConstruct := a, byteCount := r.byteCount + 1), cpu, false)
  }

  /**
   * The fourth I-sync address byte has gone into `a`: the address is taken, and
   * a load or store in progress brings its own branch address next.
   */
  function IAddressLast(r: Regs, cpu: Cpu, a: nat, c: byte): (res: (Regs, Cpu, bool))
    requires Inv(r) && r.p == GetIAddress && r.byteCount == 3 && a < TWO_32
    ensures Inv(res.0) && Keeps(r, res.0) && res.0.byteCount == 4
    ensures res.1 == IAddressCpu(cpu, a, c)
    ensures (res.2 <==> !cpu.isLSiP) && res.0.p == (if cpu.isLSiP then AddrFormat(r.usingAltAddrEncode) else Idle)
  {
    var cpu' := IAddressCpu(cpu, a, c);
    var a' := if !cpu.jazelle && a % 2 == 1 then a - 1 else a;
    if cpu.isLSiP then
      (r.(addrConstruct := a', byteCount := 4, p := AddrFormat(r.usingAltAddrEncode)), cpu', false)
    else
      (r.(addrConstruct := a', byteCount := 4, p := Idle), cpu', true)
  }

  /** `WAIT_ISYNC`: everything but the I-sync header is skipped. */
  function WaitISyncStep(r: Regs, cpu: Cpu, c: byte): (res: (Regs, Cpu, bool))
    requires Inv(r) && r.p == WaitISync
    ensures Inv(res.0) && KeepsConfig(r, res.0) && res.1 == cpu
    ensures res.0.rxedISYNC <==> r.rxedISYNC || c == 0x08
    ensures res.2 <==> c == 0x08 && !r.rxedISYNC
    ensures c != 0x08 ==> res.0 == r
  {
    if c == 0x08 then
      (r.(rxedISYNC := true, byteCount := r.contextBytes, contextConstruct := 0, p := AfterCycleOrSync(r.contextBytes)), cpu, !r.rxedISYNC)
    else
      (r, cpu, false)
  }

  /** The atoms of a P-header outside cycle-accurate mode, counted into the instructions executed. */
  function WithAtoms(cpu: Cpu, e: nat, n: nat, d: nat): (r: Cpu)
    ensures r.eatoms == e && r.natoms == n && r.disposition == d && r.instCount == cpu.instCount + e + n
    ensures r.watoms == cpu.watoms && r.changeRecord == cpu.changeRecord + {EnAtoms}
  {
    cpu.(eatoms := e, natoms := n, disposition := d, instCount := cpu.instCount + e + n,
         changeRecord := cpu.changeRecord + {EnAtoms})
  }

  /**
   * A format-1 or format-2 P-header outside cycle-accurate mode.  Format 1
   * carries a run of executed atoms and at most one not-executed one, format 2
   * exactly two atoms.
   */
  function PHeader(cpu: Cpu, c: byte): (res: (Cpu, bool))
    requires c >= 128 && c % 2 == 0
    ensures res.0.watoms == cpu.watoms
    ensures c % 4 == 0 ==> res.1 && res.0.eatoms == (c / 4) % 16 && res.0.natoms == (if Bit(c, 6) then 1 else 0)
                           && res.0.disposition == Pow2(res.0.eatoms) - 1
    ensures res.1 ==> res.0.instCount == cpu.instCount + res.0.eatoms + res.0.natoms && EnAtoms in res.0.changeRecord
    ensures !res.1 ==> res.0 == cpu
  {
    if c % 4 == 0 then
      var e := (c / 4) % 16;
      (WithAtoms(cpu, e, if Bit(c, 6) then 1 else 0, Pow2(e) - 1), true)
    else if c / 16 == 8 && c % 4 == 2 then
      var e := (if Bit(c, 2) then 0 else 1) + (if Bit(c, 3) then 0 else 1);
      (WithAtoms(cpu, e, 2 - e, (if Bit(c, 3) then 0 else 1) + (if Bit(c, 2) then 0 else 2)), true)
    else
      (cpu, false)
  }

  /** A format-2 P-header: two atoms, bit 3 and bit 2 clear for the first and the second executed. */
  lemma PHeaderFormat2(cpu: Cpu, c: byte)
    requires c / 16 == 8 && c % 4 == 2
    ensures var (cpu', r) := PHeader(cpu, c);
            r && cpu'.eatoms + cpu'.natoms == 2 && cpu'.instCount == cpu.instCount + 2
            && (cpu'.disposition % 2 == 1 <==> !Bit(c, 3)) && (cpu'.disposition / 2 == 1 <==> !Bit(c, 2))
  {
  }

  /** The atoms of a cycle-accurate P-header; `watoms` counts the cycles waited, and the instructions grow by `i`. */
  function WithWaitAtoms(cpu: Cpu, e: nat, n: nat, w: nat, d: nat, i: nat): (r: Cpu)
    ensures r.eatoms == e && r.natoms == n && r.watoms == w && r.disposition == d && r.instCount == cpu.instCount + i
    ensures r.changeRecord == cpu.changeRecord + {EnAtoms, WAtoms}
  {
    cpu.(eatoms := e, natoms := n, watoms := w, disposition := d, instCount := cpu.instCount + i,
         changeRecord := cpu.changeRecord + {EnAtoms, WAtoms})
  }

  /** A P-header in cycle-accurate mode, formats 0 to 4. */
  function PHeaderCA(cpu: Cpu, c: byte): (res: (Cpu, bool))
    requires c >= 128 && c % 2 == 0
    ensures res.1 ==> EnAtoms in res.0.changeRecord && WAtoms in res.0.changeRecord
    ensures res.1 ==> res.0.eatoms + res.0.natoms <= 8 && res.0.instCount <= cpu.instCount + 8
    ensures !res.1 ==> res.0 == cpu
  {
    if c == 0x80 then
      (WithWaitAtoms(cpu, 0, 0, 1, cpu.disposition, 1), true)
    else if !Bit(c, 5) && c % 4 == 0 then
      var e := (c / 4) % 8;
      var n := if Bit(c, 6) then 1 else 0;
      (WithWaitAtoms(cpu, e, n, e + n, Pow2(e) - 1, e + n), true)
    else if c / 16 == 8 && c % 4 == 2 then
      var e := (if Bit(c, 2) then 1 else 0) + (if Bit(c, 3) then 1 else 0);
      (WithWaitAtoms(cpu, e, 2 - e, 1, if Bit(c, 2) || Bit(c, 3) then 1 else 0, 1), true)
    else if Bit(c, 5) then
      var e := if Bit(c, 6) then 1 else 0;
      var w := (c / 4) % 8;
      (WithWaitAtoms(cpu, e, 0, w, e, w), true)
    else if c / 16 == 9 && c % 4 == 2 && !Bit(c, 3) then
      var e := if Bit(c, 2) then 1 else 0;
      (WithWaitAtoms(cpu, e, 1 - e, 0, e, 0), true)
    else
      (cpu, false)
  }

  /**
   * Format 4 of the cycle-accurate P-header is 0x92 or 0x96 (bit 2 the atom):
   * one atom and no wait, the instruction count unchanged.  0x9A is no
   * cycle-accurate header at all.
   */
  lemma PHeaderCAFormat4(cpu: Cpu, c: byte)
    requires c == 0x92 || c == 0x96 || c == 0x9A
    ensures var (cpu', r) := PHeaderCA(cpu, c);
            (r <==> c != 0x9A)
            && (r ==> cpu'.eatoms + cpu'.natoms == 1 && cpu'.watoms == 0 && cpu'.instCount == cpu.instCount
                      && (cpu'.eatoms == 1 <==> c == 0x96) && cpu'.disposition == cpu'.eatoms)
  {
    assert Bit(0x96, 2) && !Bit(0x92, 2) && !Bit(0x92, 3) && !Bit(0x96, 3) && Bit(0x9A, 3);
    assert !Bit(0x92, 5) && !Bit(0x96, 5) && !Bit(0x9A, 5);
  }

  /** The header bytes other than a branch address, a P-header and the I-sync header. */
  function HeaderStep(r: Regs, cpu: Cpu, c: byte): (res: (Regs, Cpu, bool))
    requires Inv(r) && r.p == Idle && c % 2 == 0 && c < 128 && c != 0x08
    ensures Inv(res.0) && Keeps(r, res.0)
    ensures c == 0x04 || c == 0x70 ==> res.0.p == (if c == 0x04 then GetCycleCount else GetICycleCount)
                                       && res.0.byteCount == 0 && res.0.cycleConstruct == 0 && res.1 == cpu && !res.2
  {
    if c == 0x04 then (r.(byteCount := 0, cycleConstruct := 0, p := GetCycleCount), cpu, false)
    else if c == 0x70 then (r.(byteCount := 0, cycleConstruct := 0, p := GetICycleCount), cpu, false)
    else if c == 0x0C then (r, cpu.(changeRecord := cpu.changeRecord + {Trigger}), true)
    else if c == 0x3C then (r.(p := GetVmid), cpu, false)
    else if c == 0x42 || c == 0x46 then
      var cr := if c == 0x46 then cpu.changeRecord + {ClockSpeed} else cpu.changeRecord;
      (r.(byteCount := 0, p := GetTStamp), cpu.(changeRecord := cr), false)
    else if c == 0x6E then (r.(byteCount := 0, p := GetContextId), cpu.(contextID := 0), false)
    else if c == 0x76 then (r, cpu.(changeRecord := cpu.changeRecord + {ExExit}), true)
    else if c == 0x7E then (r, cpu.(changeRecord := cpu.changeRecord + {ExEntry}), true)
    else (r, cpu, false)
  }

  /**
   * The I-sync header: the context or information byte follows.  The first
   * one since sync was lost clears the change record: nothing before it is
   * reported.
   */
  function ISyncStep(r: Regs, cpu: Cpu): (res: (Regs, Cpu, bool))
    requires Inv(r) && r.p == Idle
    ensures Inv(res.0) && KeepsConfig(r, res.0) && res.0.rxedISYNC && !res.2 && res.0.p == AfterCycleOrSync(r.contextBytes)
    ensures res.1 == (if r.rxedISYNC then cpu else cpu.(changeRecord := {}))
  {
    var r' := r.(byteCount := 0, contextConstruct := 0, p := AfterCycleOrSync(r.contextBytes), rxedISYNC := true);
    if r.rxedISYNC then (r', cpu, false) else (r', cpu.(changeRecord := {}), false)
  }

  /** `TRACE_IDLE`: the header byte of the next packet. */
  function IdleStep(r: Regs, cpu: Cpu, c: byte): (res: (Regs, Cpu, bool))
    requires Inv(r) && r.p == Idle
    ensures Inv(res.0) && KeepsConfig(r, res.0)
    ensures res.0.rxedISYNC <==> r.rxedISYNC || c == 0x08
  {
    if c % 2 == 1 then BranchStep(r, cpu, c)
    else if c == 0x08 then ISyncStep(r, cpu)
    else if c < 128 then HeaderStep(r, cpu, c)
    else
      var (cpu', ev) := if r.cycleAccurate then PHeaderCA(cpu, c) else PHeader(cpu, c);
      (r, cpu', ev)
  }

  /** The byte handled by the state the machine is in. */
  function Dispatch(r: Regs, cpu: Cpu, c: byte): (res: (Regs, Cpu, bool))
    requires Inv(r)
    ensures Inv(res.0) && KeepsConfig(r, res.0)
    ensures res.0.rxedISYNC <==> r.rxedISYNC || (c == 0x08 && (r.p == Idle || r.p == WaitISync))
  {
    match r.p
    case Unsynced => (r, cpu, false)
    case WaitISync => WaitISyncStep(r, cpu, c)
    case Idle => IdleStep(r, cpu, c)
    case CollectBaAlt => AltStep(r, cpu, c)
    case CollectBaStd => StdStep(r, cpu, c)
    case CollectException => ExceptionStep(r, cpu, c)
    case GetVmid => VmidStep(r, cpu, c)
    case GetTStamp => TStampStep(r, cpu, c)
    case GetCycleCount => CycleCountStep(r, cpu, c)
    case GetContextId => ContextIdStep(r, cpu, c)
    case GetContextByte => ContextByteStep(r, cpu, c)
    case GetInfoByte => InfoByteStep(r, cpu, c)
    case GetIAddress => IAddressStep(r, cpu, c)
    case GetICycleCount => ICycleCountStep(r, cpu, c)
  }

  /**
   * `_pumpAction`: one byte.  A 0x80 after at least five zero bytes is an
   * A-sync and puts the machine in `Idle` whatever it was doing; any other
   * byte counts towards the next A-sync (a zero) or restarts the count, and is
   * handled by the current state.  The answer says whether there is something
   * to report, which is never so before an I-sync header has been seen.
   */
  function Step(r: Regs, cpu: Cpu, c: byte): (res: (Regs, Cpu, bool))
    requires Inv(r)
    ensures Inv(res.0)
    ensures r.asyncCount >= 5 && c == 0x80 ==> res == (r.(p := Idle), cpu, false)
    ensures !(r.asyncCount >= 5 && c == 0x80) ==> res.0.asyncCount == (if c == 0 then r.asyncCount + 1 else 0)
    ensures res.0.rxedISYNC <==> r.rxedISYNC || (c == 0x08 && (r.p == Idle || r.p == WaitISync))
    ensures res.2 ==> res.0.rxedISYNC
    ensures res.0.usingAltAddrEncode == r.usingAltAddrEncode && res.0.contextBytes == r.contextBytes
    ensures res.0.dataOnlyMode == r.dataOnlyMode && res.0.cycleAccurate == r.cycleAccurate
  {
    if r.asyncCount >= 5 && c == 0x80 then
      (r.(p := Idle), cpu, false)
    else
      var (r', cpu', ev) := Dispatch(r, cpu, c);
      (r'.(asyncCount := if c == 0 then r.asyncCount + 1 else 0), cpu', ev && r'.rxedISYNC)
  }

  /** `_forceSync`: losing sync also forgets the zero count and the I-sync. */
  function ForceSync(r: Regs, isSynced: bool): (r': Regs)
    ensures r'.p == (if isSynced then Idle else Unsynced)
    ensures !isSynced ==> r'.asyncCount == 0 && !r'.rxedISYNC
    ensures isSynced ==> r' == r.(p := Idle)
    ensures Inv(r) ==> Inv(r')
  {
    if isSynced then r.(p := Idle) else r.(asyncCount := 0, rxedISYNC := false, p := Unsynced)
  }

  /**
   * The engine itself, `struct ETM35DecodeState`, updated in place byte by byte.
   * Each method is the part of `_pumpAction` for one state, proved to leave the
   * registers as the function of the same name says.
   */
  class Engine {
    var p: Proto
    var usingAltAddrEncode: bool
    var dataOnlyMode: bool
    var contextBytes: byte
    var tsConstruct: nat
    var asyncCount: nat
    var addrConstruct: nat
    var byteCount: nat
    var cycleConstruct: nat
    var contextConstruct: nat
    var rxedISYNC: bool
    var cycleAccurate: bool

    /** The registers as a value. */
    ghost function State(): Regs
      reads this
    {
      Regs(p, usingAltAddrEncode, dataOnlyMode, contextBytes, tsConstruct, asyncCount, addrConstruct, byteCount,
           cycleConstruct, contextConstruct, rxedISYNC, cycleAccurate)
    }

    /** `ETM35DecoderPumpCreate`: zero-filled. */
    constructor ()
      ensures State() == INIT && Inv(State()) && !Synced()
    {
      p, usingAltAddrEncode, dataOnlyMode, contextBytes := Unsynced, false, false, 0;
      tsConstruct, asyncCount, addrConstruct, byteCount := 0, 0, 0, 0;
      cycleConstruct, contextConstruct, rxedISYNC, cycleAccurate := 0, 0, false, false;
    }

    /** `_synced`. */
    function Synced(): (b: bool)
      reads this
      ensures b <==> p != Unsynced
    {
      p != Unsynced
    }

    /** `_usingAltAddrEncode`: selects the branch address encoding and changes nothing else. */
    method SetAltAddrEncode(using: bool)
      modifies this
      ensures State() == old(State()).(usingAltAddrEncode := using)
    {
      usingAltAddrEncode := using;
    }

    /** `_forceSync`. */
    method ForceSyncTo(isSynced: bool)
      modifies this
      ensures State() == ForceSync(old(State()), isSynced) && Synced() == isSynced
    {
      if !isSynced {
        asyncCount := 0;
        rxedISYNC := false;
      }
      p := if isSynced then Idle else Unsynced;
    }

    /**
     * `_pumpAction`: the registers change as `Step` says, the processor state is
     * returned updated.  The zero count is updated after the state's handling,
     * which neither reads nor writes it.
     */
    method Pump(cpu: Cpu, c: byte) returns (cpu': Cpu, report: bool)
      requires Inv(State())
      modifies this
      ensures var res := Step(old(State()), cpu, c); State() == res.0 && cpu' == res.1 && report == res.2
    {
      if asyncCount >= 5 && c == 0x80 {
        p := Idle;
        cpu', report := cpu, false;
        return;
      }
      var zeros := if c == 0 then asyncCount + 1 else 0;
      var ev;
      cpu', ev := PumpDispatch(cpu, c);
      asyncCount := zeros;
      report := ev && rxedISYNC;
    }

    /** The `switch` on the protocol state. */
    method PumpDispatch(cpu: Cpu, c: byte) returns (cpu': Cpu, ev: bool)
      requires Inv(State())
      modifies this
      ensures (State(), cpu', ev) == Dispatch(old(State()), cpu, c)
    {
      match p {
        case Unsynced => cpu', ev := cpu, false;
        case WaitISync => cpu', ev := PumpWaitISync(cpu, c);
        case Idle => cpu', ev := PumpIdle(cpu, c);
        case CollectBaAlt => cpu', ev := PumpAlt(cpu, c);
        case CollectBaStd => cpu', ev := PumpStd(cpu, c);
        case CollectException => cpu', ev := PumpException(cpu, c);
        case GetVmid => cpu', ev := PumpVmid(cpu, c);
        case GetTStamp => cpu', ev := PumpTStamp(cpu, c);
        case GetCycleCount => cpu', ev := PumpCycleCount(cpu, c);
        case GetContextId => cpu', ev := PumpContextId(cpu, c);
        case GetContextByte => cpu', ev := PumpContextByte(cpu, c);
        case GetInfoByte => cpu', ev := PumpInfoByte(cpu, c);
        case GetIAddress => cpu', ev := PumpIAddress(cpu, c);
        case GetICycleCount => cpu', ev := PumpICycleCount(cpu, c);
      }
    }

    /** `TRACE_IDLE`. */
    method PumpIdle(cpu: Cpu, c: byte) returns (cpu': Cpu, ev: bool)
      requires Inv(State()) && p == Idle
      modifies this
      ensures (State(), cpu', ev) == IdleStep(old(State()), cpu, c)
    {
      if c % 2 == 1 {
        cpu', ev := PumpBranch(cpu, c);
      } else if c == 0x08 {
        cpu', ev := PumpISync(cpu);
      } else if c < 128 {
        cpu', ev := PumpHeader(cpu, c);
      } else {
        var res := if cycleAccurate then PHeaderCA(cpu, c) else PHeader(cpu, c);
        cpu', ev := res.0, res.1;
      }
    }

    /** The first byte of a branch address. */
    method PumpBranch(cpu: Cpu, c: byte) returns (cpu': Cpu, ev: bool)
      requires Inv(State()) && p == Idle && c % 2 == 1
      modifies this
      ensures (State(), cpu', ev) == BranchStep(old(State()), cpu, c)
    {
      cpu', ev := TerminateAddr(cpu.(changeRecord := cpu.changeRecord + {Address}), c, FirstAddrBits(cpu.addrMode, addrConstruct, c), 1,
                                AddrFormat(usingAltAddrEncode), c >= 128, false);
    }

    /** `terminateAddrByte`, after storing the address so far `a` and the byte count `n`. */
    method TerminateAddr(cpu: Cpu, c: byte, a: nat, n: nat, q: Proto, C: bool, X: bool) returns (cpu': Cpu, ev: bool)
      requires Widths(State()) && (q == CollectBaAlt || q == CollectBaStd) && a < TWO_32 && 1 <= n <= 5
      modifies this
      ensures (State(), cpu', ev) == Terminate(old(State()), a, n, q, cpu, c, C, X)
    {
      if !C || n == 5 {
        if n == 5 && cpu.addrMode == ModeArm && C {
          addrConstruct, byteCount, p := a, n, Idle;
          cpu', ev := LegacyException(cpu, a, c), true;
        } else if !C && !X {
          addrConstruct, byteCount, p := a, n, Idle;
          cpu', ev := cpu.(addr := a), true;
        } else {
          addrConstruct, byteCount, p := a, 0, CollectException;
          cpu', ev := ExceptionFollows(cpu, a), false;
        }
      } else {
        addrConstruct, byteCount, p := a, n, q;
        cpu', ev := cpu, false;
      }
    }

    /** `TRACE_COLLECT_BA_ALT_FORMAT`. */
    method PumpAlt(cpu: Cpu, c: byte) returns (cpu': Cpu, ev: bool)
      requires Inv(State()) && p == CollectBaAlt
      modifies this
      ensures var res := AltStep(old(State()), cpu, c); State() == res.0 && cpu' == res.1 && ev == res.2
    {
      var C := Bit(c, 7);
      var s := 7 * byteCount + Offset(cpu.addrMode);
      cpu', ev := TerminateAddr(cpu, c, Put32(addrConstruct, s, if C then 7 else 6, c), byteCount + 1, CollectBaAlt, C, !C && Bit(c, 6));
    }

    /** `TRACE_COLLECT_BA_STD_FORMAT`. */
    method PumpStd(cpu: Cpu, c: byte) returns (cpu': Cpu, ev: bool)
      requires Inv(State()) && p == CollectBaStd
      modifies this
      ensures (State(), cpu', ev) == StdStep(old(State()), cpu, c)
    {
      var s := 7 * byteCount + Offset(cpu.addrMode);
      var a := Put32(addrConstruct, s, 7, if s == 6 then c / 64 else if s == 7 then c / 128 else 0);
      var n := byteCount + 1;
      var C := if n < 5 then Bit(c, 7) else Bit(c, 6);
      cpu', ev := TerminateAddr(cpu, c, a, n, CollectBaStd, C, n == 5 && C);
    }

    /** `TRACE_COLLECT_EXCEPTION`. */
    method PumpException(cpu: Cpu, c: byte) returns (cpu': Cpu, ev: bool)
      requires Inv(State()) && p == CollectException
      modifies this
      ensures var res := ExceptionStep(old(State()), cpu, c); State() == res.0 && cpu' == res.1 && ev == res.2
    {
      if byteCount == 0 {
        var ns := Bit(c, 0);
        var alt := Bit(c, 6);
        var cr := cpu.changeRecord;
        if ns != cpu.nonSecure {
          cr := cr + {Secure};
        }
        cr := cr + {if Bit(c, 5) then Cancelled else ExEntry};
        if cpu.altISA != alt {
          cr := cr + {AltIsa};
        }
        cpu' := cpu.(nonSecure := ns, exception := (c / 2) % 16, altISA := alt, changeRecord := cr);
        if Bit(c, 7) {
          byteCount, ev := 1, false;
        } else {
          p, ev := Idle, true;
        }
      } else if Bit(c, 7) {
        var hyp := Bit(c, 5);
        var cr := if cpu.hyp != hyp then cpu.changeRecord + {Hyp} else cpu.changeRecord;
        cpu' := cpu.(exception := Or(cpu.exception, (c % 32) * 16), hyp := hyp, changeRecord := cr);
        if !Bit(c, 6) {
          p, ev := Idle, true;
        } else {
          ev := false;
        }
      } else {
        var cr := if c % 16 != 0 then cpu.changeRecord + {Resume} else cpu.changeRecord;
        p := Idle;
        cpu', ev := cpu.(resume := c % 16, changeRecord := cr), true;
      }
    }

    /** `TRACE_GET_VMID`. */
    method PumpVmid(cpu: Cpu, c: byte) returns (cpu': Cpu, ev: bool)
      requires Inv(State()) && p == GetVmid
      modifies this
      ensures var res := VmidStep(old(State()), cpu, c); State() == res.0 && cpu' == res.1 && ev == res.2
    {
      var cr := if cpu.vmid != c then cpu.changeRecord + {Vmid} else cpu.changeRecord;
      cpu' := cpu.(vmid := c, changeRecord := cr);
      p, ev := Idle, true;
    }

    /** `TRACE_GET_TSTAMP`. */
    method PumpTStamp(cpu: Cpu, c: byte) returns (cpu': Cpu, ev: bool)
      requires Inv(State()) && p == GetTStamp
      modifies this
      ensures var res := TStampStep(old(State()), cpu, c); State() == res.0 && cpu' == res.1 && ev == res.2
    {
      var ts := Put64(tsConstruct, byteCount, if byteCount < 8 then 7 else 8, c);
      var n := byteCount + 1;
      if !Bit(c, 7) || n == 9 {
        tsConstruct, byteCount, p := ts, n, Idle;
        cpu', ev := cpu.(ts := ts, changeRecord := cpu.changeRecord + {TStamp}), true;
      } else {
        tsConstruct, byteCount := ts, n;
        cpu', ev := cpu, false;
      }
    }

    /** `TRACE_GET_CYCLECOUNT`. */
    method PumpCycleCount(cpu: Cpu, c: byte) returns (cpu': Cpu, ev: bool)
      requires Inv(State()) && p == GetCycleCount
      modifies this
      ensures var res := CycleCountStep(old(State()), cpu, c); State() == res.0 && cpu' == res.1 && ev == res.2
    {
      var cc := CycleBits(cycleConstruct, byteCount, c);
      var n := byteCount + 1;
      if !Bit(c, 7) || n == 5 {
        cycleConstruct, byteCount, p := cc, n, Idle;
        cpu', ev := cpu.(cycleCount := cc, changeRecord := cpu.changeRecord + {CycleCount}), true;
      } else {
        cycleConstruct, byteCount := cc, n;
        cpu', ev := cpu, false;
      }
    }

    /** `TRACE_GET_ICYCLECOUNT`. */
    method PumpICycleCount(cpu: Cpu, c: byte) returns (cpu': Cpu, ev: bool)
      requires Inv(State()) && p == GetICycleCount
      modifies this
      ensures var res := ICycleCountStep(old(State()), cpu, c); State() == res.0 && cpu' == res.1 && ev == res.2
    {
      var cc := CycleBits(cycleConstruct, byteCount, c);
      var n := byteCount + 1;
      if !Bit(c, 7) || n == 5 {
        cycleConstruct, byteCount, contextConstruct, p := cc, contextBytes, 0, AfterCycleOrSync(contextBytes);
        cpu', ev := cpu.(cycleCount := cc, changeRecord := cpu.changeRecord + {CycleCount}), false;
      } else {
        cycleConstruct, byteCount := cc, n;
        cpu', ev := cpu, false;
      }
    }

    /** `TRACE_GET_CONTEXTID`. */
    method PumpContextId(cpu: Cpu, c: byte) returns (cpu': Cpu, ev: bool)
      requires Inv(State()) && p == GetContextId
      modifies this
      ensures var res := ContextIdStep(old(State()), cpu, c); State() == res.0 && cpu' == res.1 && ev == res.2
    {
      var ctx := ContextBits(contextConstruct, byteCount, c);
      var n := byteCount + 1;
      if n == contextBytes {
        contextConstruct, byteCount, p := ctx, n, Idle;
        cpu', ev := TakeContext(cpu, ctx), true;
      } else {
        contextConstruct, byteCount := ctx, n;
        cpu', ev := cpu, false;
      }
    }

    /** `TRACE_GET_CONTEXTBYTE`. */
    method PumpContextByte(cpu: Cpu, c: byte) returns (cpu': Cpu, ev: bool)
      requires Inv(State()) && p == GetContextByte
      modifies this
      ensures var res := ContextByteStep(old(State()), cpu, c); State() == res.0 && cpu' == res.1 && ev == res.2
    {
      var ctx := ContextBits(contextConstruct, byteCount, c);
      var n := byteCount + 1;
      if n == contextBytes {
        contextConstruct, byteCount, p := ctx, n, GetInfoByte;
        cpu', ev := TakeContext(cpu, ctx), false;
      } else {
        contextConstruct, byteCount := ctx, n;
        cpu', ev := cpu, false;
      }
    }

    /** `TRACE_GET_INFOBYTE`, with the information byte read as the architecture lays it out. */
    method PumpInfoByte(cpu: Cpu, c: byte) returns (cpu': Cpu, ev: bool)
      requires Inv(State()) && p == GetInfoByte
      modifies this
      ensures var res := InfoByteStep(old(State()), cpu, c); State() == res.0 && cpu' == res.1 && ev == res.2
    {
      byteCount, p := 0, if dataOnlyMode then Idle else GetIAddress;
      cpu', ev := TakeInfo(cpu, DecodeInfo(c)), dataOnlyMode;
    }

    /** `TRACE_GET_IADDRESS`. */
    method PumpIAddress(cpu: Cpu, c: byte) returns (cpu': Cpu, ev: bool)
      requires Inv(State()) && p == GetIAddress
      modifies this
      ensures (State(), cpu', ev) == IAddressStep(old(State()), cpu, c)
    {
      var a := Put32(addrConstruct, 8 * byteCount, 8, c);
      if byteCount == 3 {
        cpu', ev := PumpIAddressLast(cpu, a, c);
      } else {
        addrConstruct, byteCount := a, byteCount + 1;
        cpu', ev := cpu, false;
      }
    }

    /** The fourth I-sync address byte. */
    method PumpIAddressLast(cpu: Cpu, a: nat, c: byte) returns (cpu': Cpu, ev: bool)
      requires Inv(State()) && p == GetIAddress && byteCount == 3 && a < TWO_32
      modifies this
      ensures var res := IAddressLast(old(State()), cpu, a, c); State() == res.0 && cpu' == res.1 && ev == res.2
    {
      var a' := if !cpu.jazelle && a % 2 == 1 then a - 1 else a;
      if cpu.isLSiP {
        addrConstruct, byteCount, p := a', 4, AddrFormat(usingAltAddrEncode);
        cpu', ev := IAddressCpu(cpu, a, c), false;
      } else {
        addrConstruct, byteCount, p := a', 4, Idle;
        cpu', ev := IAddressCpu(cpu, a, c), true;
      }
    }

    /** `TRACE_WAIT_ISYNC`. */
    method PumpWaitISync(cpu: Cpu, c: byte) returns (cpu': Cpu, ev: bool)
      requires Inv(State()) && p == WaitISync
      modifies this
      ensures (State(), cpu', ev) == WaitISyncStep(old(State()), cpu, c)
    {
      cpu', ev := cpu, false;
      if c == 0x08 {
        ev := !rxedISYNC;
        rxedISYNC, byteCount, contextConstruct, p := true, contextBytes, 0, AfterCycleOrSync(contextBytes);
      }
    }

    /** The I-sync header in `TRACE_IDLE`. */
    method PumpISync(cpu: Cpu) returns (cpu': Cpu, ev: bool)
      requires Inv(State()) && p == Idle
      modifies this
      ensures (State(), cpu', ev) == ISyncStep(old(State()), cpu)
    {
      cpu', ev := cpu, false;
      if !rxedISYNC {
        cpu' := cpu.(changeRecord := {});
      }
      byteCount, contextConstruct, p, rxedISYNC := 0, 0, AfterCycleOrSync(contextBytes), true;
    }

    /** The other header bytes in `TRACE_IDLE`. */
    method PumpHeader(cpu: Cpu, c: byte) returns (cpu': Cpu, ev: bool)
      requires Inv(State()) && p == Idle && c % 2 == 0 && c < 128 && c != 0x08
      modifies this
      ensures (State(), cpu', ev) == HeaderStep(old(State()), cpu, c)
    {
      cpu', ev := cpu, false;
      if c == 0x04 {
        byteCount, cycleConstruct, p := 0, 0, GetCycleCount;
      } else if c == 0x70 {
        byteCount, cycleConstruct, p := 0, 0, GetICycleCount;
      } else if c == 0x0C {
        cpu', ev := cpu.(changeRecord := cpu.changeRecord + {Trigger}), true;
      } else if c == 0x3C {
        p := GetVmid;
      } else if c == 0x42 || c == 0x46 {
        var cr := if c == 0x46 then cpu.changeRecord + {ClockSpeed} else cpu.changeRecord;
        byteCount, p := 0, GetTStamp;
        cpu' := cpu.(changeRecord := cr);
      } else if c == 0x6E {
        byteCount, p := 0, GetContextId;
        cpu' := cpu.(contextID := 0);
      } else if c == 0x76 {
        cpu', ev := cpu.(changeRecord := cpu.changeRecord + {ExExit}), true;
      } else if c == 0x7E {
        cpu', ev := cpu.(changeRecord := cpu.changeRecord + {ExEntry}), true;
      }
    }
  }
}
