/**
 * Field decoding of assembled ITM/DWT packets into messages (ARMv7-M
 * Architecture Reference Manual, Appendix D4).  Every handler computes the
 * message from the packet bytes alone; the host timestamp stamped on each
 * message is left out.
 *
 * Masks and shifts of the C code are written as integer arithmetic: `x & 0x7F`
 * is `x % 128`, `x >> 4` is `x / 16`, and an OR of fields whose bits do not
 * overlap is their sum.  Where fields overlap the bitwise `Or` below is used.
 */
module MsgDecoder {
  import opened Bytes
  import opened ItmDecoder

  /** The message kinds, in the order of the C enumeration. */
  datatype MsgType = MsgUnknown | MsgReserved | MsgError | MsgNone | MsgSoftware | MsgNISync
                   | MsgOSW | MsgDataAccessWP | MsgDataRWWP | MsgPCSample | MsgDWTEvent
                   | MsgException | MsgTS

  /**
   * A decoded message: one constructor per member of the C union.  A field the
   * C handler leaves unwritten (the PC of a sleep sample, the time status of a
   * format-2 timestamp) is `None`.
   */
  datatype Msg =
    | Generic(msgtype: MsgType)
    | SoftwareMsg(srcAddr: byte, len: byte, value: u32)
    | NISyncMsg(nisyncType: byte, addr: u32)
    | OffsetWriteMsg(oswComp: nat, offset: u16)
    | AccessWPMsg(wpComp: nat, wpData: u32)
    | RWWPMsg(comp: nat, isWrite: bool, data: u32)
    | PCSampleMsg(sleep: bool, pc: Option<u32>)
    | DWTEventMsg(event: byte)
    | ExceptionMsg(exceptionNumber: nat, eventType: nat)
    | TSMsg(timeStatus: Option<byte>, timeInc: u32)

  /** The `msgtype` tag each message carries. */
  function TypeOf(m: Msg): MsgType
  {
    match m
    case Generic(t) => t
    case SoftwareMsg(_, _, _) => MsgSoftware
    case NISyncMsg(_, _) => MsgNISync
    case OffsetWriteMsg(_, _) => MsgOSW
    case AccessWPMsg(_, _) => MsgDataAccessWP
    case RWWPMsg(_, _, _) => MsgDataRWWP
    case PCSampleMsg(_, _) => MsgPCSample
    case DWTEventMsg(_) => MsgDWTEvent
    case ExceptionMsg(_, _) => MsgException
    case TSMsg(_, _) => MsgTS
  }

  /** Bitwise OR of two naturals. */
  function Or(a: nat, b: nat): nat
    decreases a + b
  {
    if a == 0 then b
    else if b == 0 then a
    else (if a % 2 == 1 || b % 2 == 1 then 1 else 0) + 2 * Or(a / 2, b / 2)
  }

  /** An OR with a value shifted clear of every bit of `a` is an addition. */
  lemma {:induction false} OrShifted(a: nat, b: nat, k: nat)
    requires a < Pow2(k)
    ensures Or(a, b * Pow2(k)) == a + b * Pow2(k)
  {
    if k == 0 || a == 0 || b == 0 {
    } else {
      var B := b * Pow2(k);
      assert B == 2 * (b * Pow2(k - 1));
      assert B % 2 == 0 && B / 2 == b * Pow2(k - 1);
      OrShifted(a / 2, b, k - 1);
    }
  }

  /** The packet's first `n` data bytes, as fetched by `d[i]`. */
  function D(p: Packet, i: nat): byte
    requires i < ITM_MAX_PACKET
  {
    p.d[i]
  }

  /** Exception trace: a 9-bit exception number and a 4-bit event type. */
  function HandleException(p: Packet): (m: Msg)
    ensures m.ExceptionMsg? && m.exceptionNumber < 512 && m.eventType < 16
    ensures m.exceptionNumber % 256 == D(p, 0) && m.eventType * 16 <= D(p, 1)
  {
    ExceptionMsg((D(p, 1) % 2) * 256 + D(p, 0), D(p, 1) / 16)
  }

  /** DWT event counter wrap: `d[1] & 0x2F`, bits 0-3 and bit 5. */
  function HandleDWTEvent(p: Packet): (m: Msg)
    ensures m.DWTEventMsg? && m.event <= 0x2F && m.event % 16 == D(p, 1) % 16
    ensures m.event >= 0x20 <==> Bit(D(p, 1), 5)
  {
    DWTEventMsg(D(p, 1) % 16 + (if Bit(D(p, 1), 5) then 0x20 else 0))
  }

  /** PC sample: a one-byte packet reports sleep, otherwise the PC is the little-endian word. */
  function HandlePCSample(p: Packet): (m: Msg)
    ensures m.PCSampleMsg? && (m.sleep <==> p.len == 1) && (m.pc.None? <==> m.sleep)
    ensures !m.sleep ==> WordBytesLE(m.pc.value) == p.d[..4]
  {
    if p.len == 1 then PCSampleMsg(true, None)
    else
      var pc := LE32(D(p, 0), D(p, 1), D(p, 2), D(p, 3));
      WordBytesRoundTrip(D(p, 0), D(p, 1), D(p, 2), D(p, 3));
      PCSampleMsg(false, Some(pc))
  }

  /** The comparator number, `(srcAddr >> 1) & 3`. */
  function Comparator(srcAddr: byte): (r: nat)
    ensures r < 4
  {
    (srcAddr / 2) % 4
  }

  /** Data trace value: one byte, a half word, or a word for any other length. */
  function HandleDataRWWP(p: Packet): (m: Msg)
    ensures m.RWWPMsg? && m.comp == Comparator(p.srcAddr) && (m.isWrite <==> Bit(p.srcAddr, 0))
    ensures p.len == 1 ==> m.data == D(p, 0)
    ensures p.len == 2 ==> m.data % 256 == D(p, 0) && m.data / 256 == D(p, 1)
    ensures p.len != 1 && p.len != 2 ==> WordBytesLE(m.data) == p.d[..4]
  {
    var data :=
      if p.len == 1 then D(p, 0)
      else if p.len == 2 then LE16(D(p, 0), D(p, 1))
      else LE32(D(p, 0), D(p, 1), D(p, 2), D(p, 3));
    WordBytesRoundTrip(D(p, 0), D(p, 1), D(p, 2), D(p, 3));
    RWWPMsg(Comparator(p.srcAddr), p.srcAddr % 2 == 1, data)
  }

  /** Data trace PC value: the whole little-endian word. */
  function HandleDataAccessWP(p: Packet): (m: Msg)
    ensures m.AccessWPMsg? && m.wpComp == Comparator(p.srcAddr) && WordBytesLE(m.wpData) == p.d[..4]
  {
    WordBytesRoundTrip(D(p, 0), D(p, 1), D(p, 2), D(p, 3));
    AccessWPMsg(Comparator(p.srcAddr), LE32(D(p, 0), D(p, 1), D(p, 2), D(p, 3)))
  }

  /** Data trace address offset: the low half word. */
  function HandleDataOffsetWP(p: Packet): (m: Msg)
    ensures m.OffsetWriteMsg? && m.oswComp == Comparator(p.srcAddr)
    ensures m.offset % 256 == D(p, 0) && m.offset / 256 == D(p, 1)
  {
    OffsetWriteMsg(Comparator(p.srcAddr), LE16(D(p, 0), D(p, 1)))
  }

  /** `srcAddr & 0x19`: bits 0, 3 and 4 of the discriminator. */
  function Mask19(a: byte): (r: nat)
    ensures r <= 0x19
  {
    a % 2 + 8 * ((a / 8) % 4)
  }

  /** Does a hardware source packet with this discriminator decode to a message? */
  predicate HWKnown(a: byte)
  {
    a <= 2 || Mask19(a) == 0x10 || Mask19(a) == 0x11 || Mask19(a) == 0x08 || Mask19(a) == 0x09
  }

  /** Dispatch of a hardware source packet on its discriminator. */
  function HandleHW(p: Packet): (res: (bool, Msg))
    ensures res.0 <==> HWKnown(p.srcAddr)
    ensures !res.0 ==> res.1 == Generic(MsgNone)
    ensures p.srcAddr == 0 ==> res.1.DWTEventMsg?
    ensures p.srcAddr == 1 ==> res.1.ExceptionMsg?
    ensures p.srcAddr == 2 ==> res.1.PCSampleMsg?
    ensures p.srcAddr > 2 && (Mask19(p.srcAddr) == 0x10 || Mask19(p.srcAddr) == 0x11) ==> res.1.RWWPMsg?
    ensures p.srcAddr > 2 && Mask19(p.srcAddr) == 0x08 ==> res.1.AccessWPMsg?
    ensures p.srcAddr > 2 && Mask19(p.srcAddr) == 0x09 ==> res.1.OffsetWriteMsg?
  {
    if p.srcAddr == 0 then (true, HandleDWTEvent(p))
    else if p.srcAddr == 1 then (true, HandleException(p))
    else if p.srcAddr == 2 then (true, HandlePCSample(p))
    else if Mask19(p.srcAddr) == 0x10 || Mask19(p.srcAddr) == 0x11 then (true, HandleDataRWWP(p))
    else if Mask19(p.srcAddr) == 0x08 then (true, HandleDataAccessWP(p))
    else if Mask19(p.srcAddr) == 0x09 then (true, HandleDataOffsetWP(p))
    else (false, Generic(MsgNone))
  }

  /** Software source packet: the value is the little-endian word of the first four bytes. */
  function HandleSW(p: Packet): (m: Msg)
    ensures m.SoftwareMsg? && m.srcAddr == p.srcAddr && m.len == p.len
    ensures WordBytesLE(m.value) == p.d[..4]
  {
    WordBytesRoundTrip(D(p, 0), D(p, 1), D(p, 2), D(p, 3));
    SoftwareMsg(p.srcAddr, p.len, LE32(D(p, 0), D(p, 1), D(p, 2), D(p, 3)))
  }

  /** Non-ISync packet: type byte, then an address whose bit 0 is cleared. */
  function HandleNISync(p: Packet): (m: Msg)
    ensures m.NISyncMsg? && m.nisyncType == D(p, 0) && m.addr % 2 == 0
    ensures WordBytesLE(m.addr) == [D(p, 1) - D(p, 1) % 2] + p.d[2..5]
  {
    var lo := D(p, 1) - D(p, 1) % 2;
    WordBytesRoundTrip(lo, D(p, 2), D(p, 3), D(p, 4));
    NISyncMsg(D(p, 0), LE32(lo, D(p, 2), D(p, 3), D(p, 4)))
  }

  /** The 7-bit groups of a format-1 timestamp, least significant first. */
  function TimeGroups(p: Packet): (r: nat)
    ensures r < 0x1000_0000
  {
    var g1 := D(p, 1) % 128;
    var g2 := if p.len > 2 then D(p, 2) % 128 else 0;
    var g3 := if p.len > 3 then D(p, 3) % 128 else 0;
    var g4 := if p.len > 4 then D(p, 4) % 128 else 0;
    g1 + g2 * 0x80 + g3 * 0x4000 + g4 * 0x20_0000
  }

  /** The format-1 time increment as the C code assembles it: `d[2]` is shifted in without its mask. */
  function TimeIncAsWritten(p: Packet): nat
  {
    var s1 := D(p, 1) % 128;
    var s2 := if p.len > 2 then Or(s1, D(p, 2) * 0x80) else s1;
    var s3 := if p.len > 2 && p.len > 3 then Or(s2, (D(p, 3) % 128) * 0x4000) else s2;
    if p.len > 2 && p.len > 3 && p.len > 4 then Or(s3, (D(p, 4) % 128) * 0x20_0000) else s3
  }

  /** The format-1 time increment with every continuation byte masked to its seven payload bits. */
  function TimeInc(p: Packet): (r: nat)
    ensures r == TimeGroups(p)
  {
    var s1 := D(p, 1) % 128;
    var g2 := D(p, 2) % 128;
    var g3 := D(p, 3) % 128;
    var g4 := D(p, 4) % 128;
    Pow2Values();
    OrShifted(s1, g2, 7);
    var s2 := if p.len > 2 then Or(s1, g2 * 0x80) else s1;
    assert s2 < 0x4000;
    OrShifted(s2, g3, 14);
    var s3 := if p.len > 2 && p.len > 3 then Or(s2, g3 * 0x4000) else s2;
    assert s3 < 0x20_0000;
    OrShifted(s3, g4, 21);
    if p.len > 2 && p.len > 3 && p.len > 4 then Or(s3, g4 * 0x20_0000) else s3
  }

  lemma Pow2Values()
    ensures Pow2(7) == 128 && Pow2(14) == 0x4000 && Pow2(21) == 0x20_0000
  {
    assert Pow2(7) == 128;
    assert Pow2(14) == 128 * Pow2(7) by { Pow2Add(7, 7); }
    assert Pow2(21) == 128 * Pow2(14) by { Pow2Add(7, 14); }
  }

  lemma {:induction false} Pow2Add(a: nat, b: nat)
    ensures Pow2(a + b) == Pow2(a) * Pow2(b)
  {
    if b > 0 {
      Pow2Add(a, b - 1);
    }
  }

  /** Local timestamp: format 2 carries a 3-bit increment in the header, format 1 a time status and 7-bit groups. */
  function HandleTS(p: Packet): (m: Msg)
    ensures m.TSMsg?
    ensures !Bit(D(p, 0), 7) ==> m.timeStatus.None? && m.timeInc == D(p, 0) / 16
    ensures Bit(D(p, 0), 7) ==> m.timeStatus == Some((D(p, 0) / 16) % 4) && m.timeInc == TimeGroups(p)
  {
    if !Bit(D(p, 0), 7) then TSMsg(None, D(p, 0) / 16)
    else TSMsg(Some((D(p, 0) / 16) % 4), TimeInc(p))
  }

  /** Does a packet of this type and discriminator decode to a message? */
  predicate Decodes(p: Packet)
  {
    p.ptype == PtTS || p.ptype == PtSW || p.ptype == PtNISync || (p.ptype == PtHW && HWKnown(p.srcAddr))
  }

  /** `msgDecoder`: the decoded message and whether decoding succeeded. */
  function Decode(p: Packet): (res: (bool, Msg))
    ensures res.0 <==> Decodes(p)
    ensures !res.0 ==> res.1.Generic?
    ensures p.ptype == PtNone ==> res.1 == Generic(MsgNone)
    ensures p.ptype == PtXtn ==> res.1 == Generic(MsgUnknown)
    ensures p.ptype == PtRsrvd ==> res.1 == Generic(MsgReserved)
    ensures p.ptype == PtTS ==> TypeOf(res.1) == MsgTS
    ensures p.ptype == PtSW ==> TypeOf(res.1) == MsgSoftware
    ensures p.ptype == PtNISync ==> TypeOf(res.1) == MsgNISync
  {
    match p.ptype
    case PtNone => (false, Generic(MsgNone))
    case PtTS => (true, HandleTS(p))
    case PtSW => (true, HandleSW(p))
    case PtHW => HandleHW(p)
    case PtNISync => (true, HandleNISync(p))
    case PtXtn => (false, Generic(MsgUnknown))
    case PtRsrvd => (false, Generic(MsgReserved))
  }

  /** Distinct words have distinct octets. */
  lemma WordBytesInjective(a: u32, b: u32)
    requires WordBytesLE(a) == WordBytesLE(b)
    ensures a == b
  {
    var ra, rb := WordBytesLE(a), WordBytesLE(b);
    assert LE32(ra[0], ra[1], ra[2], ra[3]) == a;
    assert LE32(rb[0], rb[1], rb[2], rb[3]) == b;
  }

  /** A software packet carrying the octets of `v` decodes back to `v`, with its address and length. */
  lemma {:induction false} SoftwareRoundTrip(p: Packet, v: u32)
    requires p.ptype == PtSW && p.d[..4] == WordBytesLE(v)
    ensures Decode(p) == (true, SoftwareMsg(p.srcAddr, p.len, v))
  {
    var m := HandleSW(p);
    WordBytesInjective(m.value, v);
  }

  /** A non-ISync packet carrying an even address decodes back to it; bit 0 of the first address octet is dropped. */
  lemma {:induction false} NISyncRoundTrip(p: Packet, addr: u32)
    requires p.ptype == PtNISync && addr % 2 == 0 && p.d[1..5] == WordBytesLE(addr)
    ensures Decode(p) == (true, NISyncMsg(D(p, 0), addr))
  {
    var m := HandleNISync(p);
    assert D(p, 1) % 2 == 0 by {
      assert D(p, 1) == WordBytesLE(addr)[0] == (addr % 0x1_0000) % 256;
    }
    assert [D(p, 1) - D(p, 1) % 2] + p.d[2..5] == p.d[1..5];
    WordBytesInjective(m.addr, addr);
  }

  /** The octets an exception trace packet carries for exception `n` and event `e`. */
  function ExceptionBytes(n: nat, e: nat): (r: seq<byte>)
    requires n < 512 && e < 16
    ensures |r| == 2
  {
    [n % 256, e * 16 + n / 256]
  }

  /** An exception trace packet decodes back to its exception number and event type. */
  lemma ExceptionRoundTrip(p: Packet, n: nat, e: nat)
    requires n < 512 && e < 16
    requires p.ptype == PtHW && p.srcAddr == 1 && p.d[..2] == ExceptionBytes(n, e)
    ensures Decode(p) == (true, ExceptionMsg(n, e))
  {
    assert D(p, 0) == n % 256 && D(p, 1) == e * 16 + n / 256 by {
      assert p.d[..2] == ExceptionBytes(n, e);
    }
    assert HandleException(p) == ExceptionMsg(n, e) by {
      assert (D(p, 1) % 2) * 256 + D(p, 0) == n;
      assert D(p, 1) / 16 == e;
    }
  }

  /** A PC sample packet decodes back to its PC; a one-byte sample is a sleep. */
  lemma {:induction false} PCSampleRoundTrip(p: Packet, pc: u32)
    requires p.ptype == PtHW && p.srcAddr == 2 && p.len != 1 && p.d[..4] == WordBytesLE(pc)
    ensures Decode(p) == (true, PCSampleMsg(false, Some(pc)))
  {
    var m := HandlePCSample(p);
    WordBytesInjective(m.pc.value, pc);
  }

  /** The octets of a format-1 timestamp packet with time status `ts` and increment `t`. */
  function TimestampBytes(ts: nat, t: nat): (r: seq<byte>)
    requires ts < 4 && t < 0x1000_0000
    ensures |r| == 5
  {
    var q1 := t / 128;
    var q2 := q1 / 128;
    var q3 := q2 / 128;
    [0xC0 + ts * 16, 0x80 + t % 128, 0x80 + q1 % 128, 0x80 + q2 % 128, q3]
  }

  /** A five-byte timestamp packet decodes back to its time status and increment. */
  lemma {:induction false} TimestampRoundTrip(p: Packet, ts: nat, t: nat)
    requires ts < 4 && t < 0x1000_0000
    requires p.ptype == PtTS && p.len == 5 && p.d[..5] == TimestampBytes(ts, t)
    ensures Decode(p) == (true, TSMsg(Some(ts), t))
  {
    TimestampFields(p, ts, t);
  }

  /** The header and the 7-bit groups of a timestamp packet recover the status and increment it was built from. */
  lemma {:induction false} TimestampFields(p: Packet, ts: nat, t: nat)
    requires ts < 4 && t < 0x1000_0000
    requires p.len == 5 && p.d[..5] == TimestampBytes(ts, t)
    ensures Bit(D(p, 0), 7) && (D(p, 0) / 16) % 4 == ts && TimeGroups(p) == t
  {
    var b := TimestampBytes(ts, t);
    assert D(p, 0) == b[0] && D(p, 1) == b[1] && D(p, 2) == b[2] && D(p, 3) == b[3] && D(p, 4) == b[4] by {
      assert p.d[..5] == b;
    }
    assert Bit(D(p, 0), 7) && (D(p, 0) / 16) % 4 == ts by {
      assert D(p, 0) == 0xC0 + ts * 16;
      assert D(p, 0) / Pow2(7) == 1;
    }
    assert TimeGroups(p) == t by {
      var q1 := t / 128;
      var q2 := q1 / 128;
      var q3 := q2 / 128;
      SevenBitGroups(t);
      assert D(p, 1) % 128 == t % 128 && D(p, 2) % 128 == q1 % 128;
      assert D(p, 3) % 128 == q2 % 128 && D(p, 4) % 128 == q3 % 128;
    }
  }

  /** A value below 2^28 is the sum of its four 7-bit groups. */
  lemma SevenBitGroups(t: nat)
    requires t < 0x1000_0000
    ensures var q1 := t / 128; var q2 := q1 / 128; var q3 := q2 / 128;
            q3 < 128 && t == t % 128 + (q1 % 128) * 0x80 + (q2 % 128) * 0x4000 + (q3 % 128) * 0x20_0000
  {
    var q1 := t / 128;
    var q2 := q1 / 128;
    var q3 := q2 / 128;
    assert q2 == q2 % 128 + 128 * q3;
    assert q1 == q1 % 128 + 128 * q2;
    assert t == t % 128 + 128 * q1;
  }

  /** A format-2 timestamp carries its increment in bits 6:4 of the header and no time status. */
  lemma Format2Timestamp(p: Packet, inc: nat)
    requires inc < 8 && p.ptype == PtTS && D(p, 0) == inc * 16
    ensures Decode(p) == (true, TSMsg(None, inc))
  {
    assert D(p, 0) / Pow2(7) == 0;
  }

  /**
   * As written, bit 7 of `d[2]`, which is the continuation flag of every
   * timestamp of four or more bytes, lands on bit 14 of the increment.  The
   * four-byte packet C0 81 80 02 carries the 7-bit groups 1, 0, 2, that is
   * 0x8001, but is assembled into 0xC001.
   */
  lemma TimeIncAsWrittenSetsBit14(p: Packet)
    requires p.ptype == PtTS && p.len == 4 && p.d[..4] == [0xC0, 0x81, 0x80, 0x02]
    ensures TimeGroups(p) == 0x8001 && TimeIncAsWritten(p) == 0xC001 && TimeInc(p) == 0x8001
  {
    assert D(p, 1) == 0x81 && D(p, 2) == 0x80 && D(p, 3) == 0x02;
    assert TimeGroups(p) == 0x8001;
    assert TimeIncAsWritten(p) == 0xC001 by {
      Pow2Values();
      OrShifted(1, 0x80, 7);
      assert Pow2(15) == 2 * Pow2(14);
      OrShifted(0x4001, 1, 15);
    }
  }

  /** Packets that are not decoded never yield a message kind of their own. */
  lemma UndecodedKinds(p: Packet)
    ensures !Decode(p).0 <==> TypeOf(Decode(p).1) in {MsgNone, MsgUnknown, MsgReserved}
  {
  }
}
