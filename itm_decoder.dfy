/**
 * The ITM/DWT packet layer (Appendix D4 of the ARMv7-M Architecture Reference
 * Manual): sync detection and the assembly of source, timestamp, extension,
 * reserved and I-sync packets from a byte stream.
 */
module ItmDecoder {
  import opened Bytes

  const ITM_MAX_PACKET: nat := 14
  const MAX_PACKET: nat := 5
  const DEFAULT_PAGE_REGISTER: byte := 0x07

  datatype ProtoState = Unsynced | Idle | TS | SW | HW | GTS1 | GTS2 | Rsvd | Xtn | NISync

  datatype PumpEvent = EvNone | EvPacketRxed | EvUnsynced | EvSynced | EvOverflow | EvError

  datatype PacketType = PtNone | PtTS | PtSW | PtHW | PtXtn | PtRsrvd | PtNISync

  /** The fixed `d[ITM_MAX_PACKET]` array of a packet. */
  type PacketData = d: seq<byte> | |d| == ITM_MAX_PACKET witness seq(14, _ => 0)

  /** `struct ITMPacket`. */
  datatype Packet = Packet(ptype: PacketType, srcAddr: byte, len: byte, pageRegister: byte, d: PacketData)

  /** `struct ITMDecoderStats`. */
  datatype Stats = Stats(lostSyncCount: nat, syncCount: nat, tpiuSyncCount: nat, overflow: nat,
                         swPkt: nat, tsPkt: nat, hwPkt: nat, xtnPkt: nat, reservedPkt: nat,
                         errorPkt: nat, pagePkt: nat)

  /**
   * The 64-bit sync monitor `syncStat`, as its eight octets with the most
   * recently received one last.
   */
  type Window = w: seq<byte> | |w| == 8 witness seq(8, _ => 0)

  /** The registers of a `struct ITMDecoder`. */
  datatype Regs = Regs(contextIDlen: byte, targetCount: int, syncStat: Window, pk: Packet, stats: Stats, p: ProtoState)

  /** A packet buffer of zeros. */
  const ZERO_DATA: PacketData := [0, 0, 0, 0, 0, 0, 0, 0, 0, 0, 0, 0, 0, 0]

  const ZERO_STATS := Stats(0, 0, 0, 0, 0, 0, 0, 0, 0, 0, 0)

  /** The monitor value `SYNCMASK` (0xFFFFFFFFFFFF) that `ITMDecoderInit` loads. */
  const SYNC_MASK_WINDOW: Window := [0, 0, 0xff, 0xff, 0xff, 0xff, 0xff, 0xff]

  /** The last six octets of an ITM sync: five zero bytes then 0x80. */
  const SYNC_PATTERN: seq<byte> := [0, 0, 0, 0, 0, 0x80]

  /** The last four octets of a TPIU frame sync. */
  const TPIU_SYNC_PATTERN: seq<byte> := [0xff, 0xff, 0xff, 0x7f]

  /** The monitor after octet `c` arrives. */
  function Shift(w: Window, c: byte): (r: Window)
    ensures r[7] == c && r[..7] == w[1..]
  {
    w[1..] + [c]
  }

  predicate IsSync(w: Window)
  {
    w[2..] == SYNC_PATTERN
  }

  predicate IsTpiuSync(w: Window)
  {
    w[4..] == TPIU_SYNC_PATTERN
  }

  /**
   * The packet indices stay inside `d` in every state the pump can reach:
   * single-shot source packets have 1, 2 or 4 bytes to collect, the
   * continued packets stop at MAX_PACKET, and an I-sync has MAX_PACKET + 1
   * bytes (no context ID is ever configured).
   */
  predicate Inv(r: Regs)
  {
    match r.p
    case SW | HW => r.contextIDlen == 0 && (r.targetCount == 1 || r.targetCount == 2 || r.targetCount == 4) && r.pk.len < r.targetCount
    case TS | Rsvd | Xtn => r.contextIDlen == 0 && r.pk.len < MAX_PACKET
    case NISync => r.contextIDlen == 0 && r.targetCount == MAX_PACKET + r.contextIDlen && r.pk.len <= r.targetCount
    case _ => r.contextIDlen == 0
  }

  /** `ITMDecoderForceSync`. */
  function ForceSync(r: Regs, isSynced: bool): (r': Regs)
    ensures r.p == Unsynced && isSynced ==>
      r'.p == Idle && r'.stats.syncCount == r.stats.syncCount + 1 && r'.pk.len == 0 &&
      r'.stats.lostSyncCount == r.stats.lostSyncCount
    ensures r.p != Unsynced && !isSynced ==>
      r'.p == Unsynced && r'.stats.lostSyncCount == r.stats.lostSyncCount + 1 &&
      r'.stats.syncCount == r.stats.syncCount && r'.pk == r.pk
    ensures (r.p == Unsynced) != isSynced ==> r' == r
    ensures Inv(r) ==> Inv(r')
  {
    if r.p == Unsynced then
      if isSynced then r.(p := Idle, stats := r.stats.(syncCount := r.stats.syncCount + 1), pk := r.pk.(len := 0))
      else r
    else if !isSynced then r.(stats := r.stats.(lostSyncCount := r.stats.lostSyncCount + 1), p := Unsynced)
    else r
  }

  /*
   * The bytes of a `struct ITMPacket` in memory, for a 4-byte enum: the type
   * at offsets 0-3 (little-endian), `srcAddr` at 4, `len` at 5,
   * `pageRegister` at 6, `d` at 7-20, and three bytes of padding, taken as 0.
   */
  const PACKET_SIZE: nat := 24
  const D_OFFSET: nat := 7

  function TypeCode(t: PacketType): (b: byte)
    ensures b < 7
  {
    match t
    case PtNone => 0 case PtTS => 1 case PtSW => 2 case PtHW => 3
    case PtXtn => 4 case PtRsrvd => 5 case PtNISync => 6
  }

  function CodeType(b: byte): PacketType
    requires b < 7
  {
    if b == 0 then PtNone else if b == 1 then PtTS else if b == 2 then PtSW else if b == 3 then PtHW
    else if b == 4 then PtXtn else if b == 5 then PtRsrvd else PtNISync
  }

  /** The in-memory image of a packet. */
  function Image(pk: Packet): (b: seq<byte>)
    ensures |b| == PACKET_SIZE
    ensures b[0] == TypeCode(pk.ptype) && b[1..4] == [0, 0, 0]
    ensures b[4] == pk.srcAddr && b[5] == pk.len && b[6] == pk.pageRegister
    ensures b[D_OFFSET..D_OFFSET + ITM_MAX_PACKET] == pk.d
  {
    [TypeCode(pk.ptype), 0, 0, 0, pk.srcAddr, pk.len, pk.pageRegister] + pk.d + [0, 0, 0]
  }

  /** The packet a caller reads from an image. */
  function Parse(b: seq<byte>): (pk: Packet)
    requires |b| == PACKET_SIZE && b[0] < 7
    ensures pk.srcAddr == b[4] && pk.len == b[5] && pk.pageRegister == b[6]
    ensures pk.d == b[D_OFFSET..D_OFFSET + ITM_MAX_PACKET]
  {
    Packet(CodeType(b[0]), b[4], b[5], b[6], b[D_OFFSET..D_OFFSET + ITM_MAX_PACKET])
  }

  /** Parsing an image gives the packet back. */
  lemma ParseImage(pk: Packet)
    ensures Parse(Image(pk)) == pk
  {
    var b := Image(pk);
    assert CodeType(TypeCode(pk.ptype)) == pk.ptype;
  }

  /**
   * `ITMGetPacket` as written: the whole packet is copied to `p->d`, that is
   * to offset 7 of the caller's packet. `mem` is the caller's packet followed
   * by whatever lies after it in memory.
   */
  function CopyPacketAsWritten(pk: Packet, mem: seq<byte>): (r: seq<byte>)
    requires |mem| >= D_OFFSET + PACKET_SIZE
    ensures |r| == |mem|
    ensures r[..D_OFFSET] == mem[..D_OFFSET]
    ensures r[D_OFFSET..D_OFFSET + PACKET_SIZE] == Image(pk)
    ensures r[D_OFFSET + PACKET_SIZE..] == mem[D_OFFSET + PACKET_SIZE..]
  {
    mem[..D_OFFSET] + Image(pk) + mem[D_OFFSET + PACKET_SIZE..]
  }

  /** The copy `ITMGetPacket` evidently intends: the packet lands on the caller's packet and nothing beyond it changes. */
  function CopyPacket(pk: Packet, mem: seq<byte>): (r: seq<byte>)
    requires |mem| >= PACKET_SIZE
    ensures |r| == |mem| && r[0] < 7
    ensures Parse(r[..PACKET_SIZE]) == pk
    ensures r[PACKET_SIZE..] == mem[PACKET_SIZE..]
  {
    ParseImage(pk);
    assert (Image(pk) + mem[PACKET_SIZE..])[..PACKET_SIZE] == Image(pk);
    Image(pk) + mem[PACKET_SIZE..]
  }

  /**
   * As written, the copy keeps the caller's type and length, writes seven
   * bytes past the caller's packet, and a one-octet packet with 0xFF as its
   * eleventh data byte reads back as length 0 and spills 0xFF beyond the end.
   */
  lemma CopyPacketAsWrittenOverruns(pk: Packet, mem: seq<byte>)
    requires |mem| >= D_OFFSET + PACKET_SIZE
    ensures var r := CopyPacketAsWritten(pk, mem);
            r[..4] == mem[..4] && r[5] == mem[5]
            && r[PACKET_SIZE..D_OFFSET + PACKET_SIZE] == Image(pk)[PACKET_SIZE - D_OFFSET..]
    ensures pk.len == 1 && pk.d[10] == 0xFF && mem == seq(D_OFFSET + PACKET_SIZE, _ => 0) ==>
              var r := CopyPacketAsWritten(pk, mem);
              r[0] < 7 && Parse(r[..PACKET_SIZE]).len == 0 && r[PACKET_SIZE] == 0xFF && mem[PACKET_SIZE] == 0
  {
    var r := CopyPacketAsWritten(pk, mem);
    assert r[..4] == r[..D_OFFSET][..4];
    assert r[5] == r[..D_OFFSET][5];
    assert r[PACKET_SIZE..D_OFFSET + PACKET_SIZE] == r[D_OFFSET..D_OFFSET + PACKET_SIZE][PACKET_SIZE - D_OFFSET..];
    if pk.len == 1 && pk.d[10] == 0xFF && mem == seq(D_OFFSET + PACKET_SIZE, _ => 0) {
      assert r[PACKET_SIZE] == Image(pk)[PACKET_SIZE - D_OFFSET];
      assert Image(pk)[PACKET_SIZE - D_OFFSET] == pk.d[10];
    }
  }

  /** Octet `c` stored at `d[len]` and `len` advanced. */
  function Store(pk: Packet, c: byte): Packet
    requires pk.len < ITM_MAX_PACKET
  {
    pk.(d := pk.d[pk.len := c], len := pk.len + 1)
  }


  /** The kinds of header byte that IDLE tells apart. */
  datatype Header = HZero | HSource | HOverflow | HTimestamp | HGlobalTimestamp | HISync | HExtension | HReserved

  /**
   * The test sequence of the IDLE case of `ITMPump`. Each mask test of the
   * source is written as the bits it selects: `c & 0x84 == 0x84` is
   * `Bit(c, 7) && Bit(c, 2)`, `c & 0xdf == 0x94` holds for 0x94 and 0xb4
   * only, and `c & 0x0f == 0` is `c % 16 == 0`. The reserved test is the
   * last one because it always succeeds once the others have failed (see
   * ReservedCatchesRest): the illegal-packet case after it is never reached.
   */
  function Classify(c: byte): Header
  {
    if c == 0 then HZero
    else if c % 4 != 0 then HSource
    else if c == 0x70 then HOverflow
    else if c % 16 == 0 then HTimestamp
    else if c == 0x94 || c == 0xb4 then HGlobalTimestamp
    else if c == 0x08 then HISync
    else if Bit(c, 3) then HExtension
    else HReserved
  }

  /**
   * A byte that none of the earlier IDLE tests catches passes the reserved
   * test `(c & 0xc4) == 0xc4 || (c & 0x84) == 0x84 || (c & 0xf0) == 0xf0 || (c & 0x04) == 0x04`.
   */
  lemma ReservedCatchesRest(c: byte)
    requires c != 0 && c % 4 == 0 && c != 0x70 && c % 16 != 0 && c != 0x94 && c != 0xb4 && c != 0x08 && !Bit(c, 3)
    ensures (Bit(c, 7) && Bit(c, 6) && Bit(c, 2)) || (Bit(c, 7) && Bit(c, 2)) || c >= 0xf0 || Bit(c, 2)
  {
    var q := c / 4;
    assert c == 4 * q;
    assert c / 8 == q / 2;
    assert c % 16 == 4 * (q % 4);
  }

  /** The IDLE case of `ITMPump` (no sync pattern seen): the packet buffer is cleared and the header classified. */
  function IdleStep(r: Regs, c: byte): (res: (Regs, PumpEvent))
    requires r.p == Idle && r.contextIDlen == 0
    ensures Inv(res.0) && res.0.syncStat == r.syncStat
  {
    var r := r.(pk := r.pk.(d := ZERO_DATA));
    match Classify(c)
    case HZero => (r, EvNone)
    case HSource => SourceHeaderStep(r, c)
    case HOverflow => (r.(stats := r.stats.(overflow := r.stats.overflow + 1)), EvOverflow)
    case HTimestamp => TimestampHeaderStep(r, c)
    case HGlobalTimestamp => (r.(p := if !Bit(c, 5) then GTS1 else GTS2), EvNone)
    case HISync => (r.(p := NISync, pk := r.pk.(len := 0), targetCount := MAX_PACKET + r.contextIDlen), EvNone)
    case HExtension => ExtensionHeaderStep(r, c)
    case HReserved => ReservedHeaderStep(r, c)
  }

  /** A source header: the payload size (code 3 means 4), the port address, and SW or HW by bit 2. */
  function SourceHeaderStep(r: Regs, c: byte): (res: (Regs, PumpEvent))
    requires r.p == Idle && r.contextIDlen == 0 && c % 4 != 0
    ensures Inv(res.0) && res.0.syncStat == r.syncStat
  {
    var tc := if c % 4 == 3 then 4 else c % 4;
    var pk := r.pk.(len := 0, srcAddr := c / 8);
    if !Bit(c, 2) then (r.(targetCount := tc, pk := pk, stats := r.stats.(swPkt := r.stats.swPkt + 1), p := SW), EvNone)
    else (r.(targetCount := tc, pk := pk, stats := r.stats.(hwPkt := r.stats.hwPkt + 1), p := HW), EvNone)
  }

  /** A local timestamp header: format 2 is complete at once, format 1 (bit 7 set) continues. */
  function TimestampHeaderStep(r: Regs, c: byte): (res: (Regs, PumpEvent))
    requires r.p == Idle && r.contextIDlen == 0
    ensures Inv(res.0) && res.0.syncStat == r.syncStat
  {
    var pk := r.pk.(len := 1, d := r.pk.d[0 := c]);
    var st := r.stats.(tsPkt := r.stats.tsPkt + 1);
    if Bit(c, 7) then (r.(pk := pk, stats := st, p := TS), EvNone)
    else (r.(pk := pk.(ptype := PtTS), stats := st), EvPacketRxed)
  }

  /** An extension header: a stimulus page setting is absorbed here, anything else continues. */
  function ExtensionHeaderStep(r: Regs, c: byte): (res: (Regs, PumpEvent))
    requires r.p == Idle && r.contextIDlen == 0
    ensures Inv(res.0) && res.0.syncStat == r.syncStat
  {
    var pk := r.pk.(len := 1, d := r.pk.d[0 := c]);
    var st := r.stats.(xtnPkt := r.stats.xtnPkt + 1);
    if !Bit(c, 7) && !Bit(c, 2) then
      (r.(pk := pk.(pageRegister := (c / 16) % 8), stats := st.(pagePkt := st.pagePkt + 1)), EvNone)
    else (r.(pk := pk, stats := st, p := Xtn), EvNone)
  }

  /** A reserved header: complete at once unless bit 7 announces more. */
  function ReservedHeaderStep(r: Regs, c: byte): (res: (Regs, PumpEvent))
    requires r.p == Idle && r.contextIDlen == 0
    ensures Inv(res.0) && res.0.syncStat == r.syncStat
  {
    var pk := r.pk.(len := 1, d := r.pk.d[0 := c]);
    var st := r.stats.(reservedPkt := r.stats.reservedPkt + 1);
    if !Bit(c, 7) then (r.(pk := pk.(ptype := PtRsrvd), stats := st), EvPacketRxed)
    else (r.(pk := pk, stats := st, p := Rsvd), EvNone)
  }

  /** A source packet collects its payload until `targetCount` octets are in. */
  function SourceStep(r: Regs, c: byte, t: PacketType): (res: (Regs, PumpEvent))
    requires Inv(r) && (r.p == SW || r.p == HW)
    ensures Inv(res.0) && res.0.syncStat == r.syncStat
  {
    var pk := Store(r.pk, c);
    if pk.len >= r.targetCount then (r.(pk := pk.(ptype := t), p := Idle), EvPacketRxed)
    else (r.(pk := pk), EvNone)
  }

  /** A continued packet ends on an octet with bit 7 clear or at MAX_PACKET octets. */
  function ContinuedStep(r: Regs, c: byte, t: PacketType): (res: (Regs, PumpEvent))
    requires Inv(r) && (r.p == TS || r.p == Rsvd || r.p == Xtn)
    ensures Inv(res.0) && res.0.syncStat == r.syncStat
  {
    var pk := Store(r.pk, c);
    if !Bit(c, 7) || pk.len >= MAX_PACKET then (r.(pk := pk.(ptype := t), p := Idle), EvPacketRxed)
    else (r.(pk := pk), EvNone)
  }

  /** An I-sync packet collects MAX_PACKET + 1 octets. */
  function NISyncStep(r: Regs, c: byte): (res: (Regs, PumpEvent))
    requires Inv(r) && r.p == NISync
    ensures Inv(res.0) && res.0.syncStat == r.syncStat
  {
    var pk := Store(r.pk, c);
    if pk.len > r.targetCount then (r.(pk := pk.(ptype := PtNISync), p := Idle), EvPacketRxed)
    else (r.(pk := pk), EvNone)
  }

  /** `ITMPump`: the registers after octet `c`, and the event it reports. */
  function Step(r: Regs, c: byte): (res: (Regs, PumpEvent))
    requires Inv(r)
    ensures Inv(res.0) && res.0.syncStat == Shift(r.syncStat, c)
  {
    var w := Shift(r.syncStat, c);
    var r := r.(syncStat := w, stats := if IsTpiuSync(w) then r.stats.(tpiuSyncCount := r.stats.tpiuSyncCount + 1) else r.stats);
    if IsSync(w) then (r.(stats := r.stats.(syncCount := r.stats.syncCount + 1), pk := r.pk.(pageRegister := 0), p := Idle), EvSynced)
    else Dispatch(r, c)
  }

  /** The state-by-state part of `ITMPump`, once no sync pattern has been seen. */
  function Dispatch(r: Regs, c: byte): (res: (Regs, PumpEvent))
    requires Inv(r)
    ensures Inv(res.0) && res.0.syncStat == r.syncStat
  {
    match r.p
    case Unsynced => (r, EvNone)
    case Idle => IdleStep(r, c)
    case GTS1 => (if !Bit(c, 7) then r.(p := Idle) else r, EvNone)
    case GTS2 => (if !Bit(c, 7) then r.(p := Idle) else r, EvNone)
    case SW => SourceStep(r, c, PtSW)
    case HW => SourceStep(r, c, PtHW)
    case TS => ContinuedStep(r, c, PtTS)
    case Rsvd => ContinuedStep(r, c, PtRsrvd)
    case Xtn => ContinuedStep(r, c, PtXtn)
    case NISync => NISyncStep(r, c)
  }

  /** The monitor after the octets `cs`, in the order they arrive. */
  function Feed(w: Window, cs: seq<byte>): Window
    decreases |cs|
  {
    if cs == [] then w else Shift(Feed(w, cs[..|cs| - 1]), cs[|cs| - 1])
  }

  /** The monitor holds the last eight octets received, whatever it held before. */
  lemma {:induction false} FeedKeepsLast(w: Window, cs: seq<byte>)
    requires |cs| <= 8
    ensures Feed(w, cs)[8 - |cs|..] == cs
    decreases |cs|
  {
    if cs != [] {
      var init := cs[..|cs| - 1];
      FeedKeepsLast(w, init);
      var v := Feed(w, init);
      assert Feed(w, cs) == Shift(v, cs[|cs| - 1]);
      assert v[8 - |init|..] == init;
      assert Feed(w, cs)[8 - |cs|..] == v[8 - |init|..] + [cs[|cs| - 1]];
    }
  }

  /** Five zero bytes then 0x80 complete a sync pattern whatever came before them. */
  lemma SyncSequence(w: Window)
    ensures IsSync(Feed(w, SYNC_PATTERN))
  {
    FeedKeepsLast(w, SYNC_PATTERN);
    assert Feed(w, SYNC_PATTERN)[2..] == SYNC_PATTERN;
  }

  /** A sync is reported, whatever the state, exactly when the monitor ends in the sync pattern. */
  lemma SyncFromAnyState(r: Regs, c: byte)
    requires Inv(r)
    ensures var (r', e) := Step(r, c);
            (e == EvSynced <==> IsSync(Shift(r.syncStat, c))) &&
            (e == EvSynced ==> r'.p == Idle && r'.pk.pageRegister == 0 && r'.stats.syncCount == r.stats.syncCount + 1)
  {
  }

  /** While unsynchronised, any byte that does not complete a sync is ignored. */
  lemma UnsyncedIgnores(r: Regs, c: byte)
    requires Inv(r) && r.p == Unsynced && !IsSync(Shift(r.syncStat, c))
    ensures var (r', e) := Step(r, c);
            e == EvNone && r'.p == Unsynced && r'.pk == r.pk && r'.targetCount == r.targetCount
  {
  }

  /**
   * A source header in IDLE: the address is the top five bits, the payload
   * length is 1, 2 or 4 (size code 3 means 4), and bit 2 selects a hardware
   * packet.
   */
  lemma SourceHeader(r: Regs, c: byte)
    requires Inv(r) && r.p == Idle && c % 4 != 0 && !IsSync(Shift(r.syncStat, c))
    ensures var (r', e) := Step(r, c);
            e == EvNone && r'.pk.srcAddr == c / 8 && r'.pk.len == 0 &&
            r'.targetCount == (if c % 4 == 3 then 4 else c % 4) &&
            r'.p == (if Bit(c, 2) then HW else SW)
  {
  }


  /** A source packet is complete exactly when its payload count is reached, and the decoder idles again. */
  lemma SourceCompletes(r: Regs, c: byte)
    requires Inv(r) && (r.p == SW || r.p == HW) && !IsSync(Shift(r.syncStat, c))
    ensures var (r', e) := Step(r, c);
            r'.pk.len == r.pk.len + 1 && r'.pk.d[r.pk.len] == c &&
            (e == EvPacketRxed <==> r.pk.len + 1 == r.targetCount) &&
            (e == EvPacketRxed ==> r'.p == Idle && r'.pk.ptype == (if r.p == SW then PtSW else PtHW)) &&
            (e != EvPacketRxed ==> e == EvNone && r'.p == r.p)
  {
  }

  /** Timestamp, extension and reserved packets end on a byte with bit 7 clear or at MAX_PACKET bytes. */
  lemma ContinuedCompletes(r: Regs, c: byte)
    requires Inv(r) && (r.p == TS || r.p == Xtn || r.p == Rsvd) && !IsSync(Shift(r.syncStat, c))
    ensures var (r', e) := Step(r, c);
            r'.pk.d[r.pk.len] == c &&
            (e == EvPacketRxed <==> !Bit(c, 7) || r.pk.len + 1 == MAX_PACKET) &&
            (e == EvPacketRxed ==> r'.p == Idle) && (e != EvPacketRxed ==> r'.p == r.p)
  {
  }

  /** 0x70 in IDLE is an overflow packet. */
  lemma OverflowPacket(r: Regs)
    requires Inv(r) && r.p == Idle && !IsSync(Shift(r.syncStat, 0x70))
    ensures var (r', e) := Step(r, 0x70);
            e == EvOverflow && r'.stats.overflow == r.stats.overflow + 1 && r'.p == Idle
  {
  }

  /** `struct ITMDecoder`, updated in place by the pump. */
  class Decoder {
    var contextIDlen: byte
    var targetCount: int
    var syncStat: Window
    var pk: Packet
    var stats: Stats
    var p: ProtoState

    ghost function State(): Regs
      reads this
    {
      Regs(contextIDlen, targetCount, syncStat, pk, stats, p)
    }

    /** `ITMDecoderCreate`: a zero-filled instance. */
    constructor ()
      ensures Inv(State()) && p == Unsynced && stats == ZERO_STATS
    {
      contextIDlen := 0;
      targetCount := 0;
      syncStat := seq(8, _ => 0);
      pk := Packet(PtNone, 0, 0, 0, ZERO_DATA);
      stats := ZERO_STATS;
      p := Unsynced;
    }

    /**
     * `ITMDecoderInit`: the monitor loaded with SYNCMASK, an empty packet on
     * the default page, the requested sync state and no statistics.
     */
    method Init(startSynced: bool)
      requires Inv(State())
      modifies this
      ensures Inv(State())
      ensures State() == ForceSync(old(State()).(syncStat := SYNC_MASK_WINDOW, contextIDlen := 0,
                                                pk := old(pk).(len := 0, pageRegister := DEFAULT_PAGE_REGISTER)),
                                  startSynced).(stats := ZERO_STATS)
    {
      syncStat := SYNC_MASK_WINDOW;
      pk := pk.(len := 0);
      contextIDlen := 0;
      pk := pk.(pageRegister := DEFAULT_PAGE_REGISTER);
      ForceSyncTo(startSynced);
      stats := ZERO_STATS;
    }

    /** `ITMDecoderForceSync`. */
    method ForceSyncTo(isSynced: bool)
      modifies this
      ensures State() == ForceSync(old(State()), isSynced)
    {
      if p == Unsynced {
        if isSynced {
          p := Idle;
          stats := stats.(syncCount := stats.syncCount + 1);
          pk := pk.(len := 0);
        }
      } else {
        if !isSynced {
          stats := stats.(lostSyncCount := stats.lostSyncCount + 1);
          p := Unsynced;
        }
      }
    }

    /** `ITMDecoderIsSynced`. */
    function IsSynced(): (b: bool)
      reads this
      ensures b <==> p != Unsynced
    {
      p != Unsynced
    }

    /** `ITMGetPacket`: the packet under construction, available only while IDLE. */
    method GetPacket() returns (ok: bool, packet: Packet)
      ensures ok <==> p == Idle
      ensures ok ==> packet == pk
    {
      if p != Idle {
        return false, pk;
      }
      return true, pk;
    }

    /** `ITMPump`. */
    method Pump(c: byte) returns (ev: PumpEvent)
      requires Inv(State())
      modifies this
      ensures var res := Step(old(State()), c); State() == res.0 && ev == res.1
    {
      syncStat := Shift(syncStat, c);
      if IsTpiuSync(syncStat) {
        stats := stats.(tpiuSyncCount := stats.tpiuSyncCount + 1);
      }
      if IsSync(syncStat) {
        stats := stats.(syncCount := stats.syncCount + 1);
        pk := pk.(pageRegister := 0);
        ev := EvSynced;
        p := Idle;
      } else {
        ev := PumpDispatch(c);
      }
    }

    /** The `switch` of `ITMPump`: one step of the state machine. */
    method PumpDispatch(c: byte) returns (ev: PumpEvent)
      requires Inv(State())
      modifies this
      ensures (State(), ev) == Dispatch(old(State()), c)
    {
      var newState := p;
      ev := EvNone;
      match p {
      case Unsynced =>
      case Idle =>
        newState, ev := PumpIdle(c);
      case GTS1 =>
        if !Bit(c, 7) {
          newState := Idle;
        }
      case GTS2 =>
        if !Bit(c, 7) {
          newState := Idle;
        }
      case SW =>
        pk := pk.(d := pk.d[pk.len := c], len := pk.len + 1);
        if pk.len >= targetCount {
          newState := Idle;
          pk := pk.(ptype := PtSW);
          ev := EvPacketRxed;
        }
      case HW =>
        pk := pk.(d := pk.d[pk.len := c], len := pk.len + 1);
        if pk.len >= targetCount {
          newState := Idle;
          pk := pk.(ptype := PtHW);
          ev := EvPacketRxed;
        }
      case TS =>
        newState, ev := PumpContinued(c, PtTS);
      case Rsvd =>
        newState, ev := PumpContinued(c, PtRsrvd);
      case Xtn =>
        newState, ev := PumpContinued(c, PtXtn);
      case NISync =>
        pk := pk.(d := pk.d[pk.len := c], len := pk.len + 1);
        if pk.len > targetCount {
          newState := Idle;
          pk := pk.(ptype := PtNISync);
          ev := EvPacketRxed;
        }
      }
      p := newState;
    }

    /** The ITM_TS, ITM_RSVD and ITM_XTN cases of `ITMPump`. */
    method PumpContinued(c: byte, t: PacketType) returns (newState: ProtoState, ev: PumpEvent)
      requires Inv(State()) && (p == TS || p == Rsvd || p == Xtn)
      modifies this
      ensures (State().(p := newState), ev) == ContinuedStep(old(State()), c, t)
      ensures p == old(p)
    {
      newState, ev := p, EvNone;
      pk := pk.(d := pk.d[pk.len := c], len := pk.len + 1);
      if !Bit(c, 7) || pk.len >= MAX_PACKET {
        newState := Idle;
        pk := pk.(ptype := t);
        ev := EvPacketRxed;
      }
    }

    /** The ITM_IDLE case of `ITMPump`. */
    method PumpIdle(c: byte) returns (newState: ProtoState, ev: PumpEvent)
      requires p == Idle && contextIDlen == 0
      modifies this
      ensures (State().(p := newState), ev) == IdleStep(old(State()), c)
      ensures p == old(p)
    {
      newState, ev := p, EvNone;
      pk := pk.(d := ZERO_DATA);
      match Classify(c) {
      case HZero =>
      case HSource =>
        newState := PumpSourceHeader(c);
      case HOverflow =>
        stats := stats.(overflow := stats.overflow + 1);
        ev := EvOverflow;
      case HTimestamp =>
        newState, ev := PumpTimestampHeader(c);
      case HGlobalTimestamp =>
        if !Bit(c, 5) {
          newState := GTS1;
        } else {
          newState := GTS2;
        }
      case HISync =>
        newState := NISync;
        pk := pk.(len := 0);
        targetCount := MAX_PACKET + contextIDlen;
      case HExtension =>
        newState := PumpExtensionHeader(c);
      case HReserved =>
        newState, ev := PumpReservedHeader(c);
      }
    }

    method PumpSourceHeader(c: byte) returns (newState: ProtoState)
      requires p == Idle && contextIDlen == 0 && c % 4 != 0
      modifies this
      ensures (State().(p := newState), EvNone) == SourceHeaderStep(old(State()), c)
      ensures p == old(p)
    {
      targetCount := c % 4;
      if targetCount == 3 {
        targetCount := 4;
      }
      pk := pk.(len := 0);
      pk := pk.(srcAddr := c / 8);
      if !Bit(c, 2) {
        stats := stats.(swPkt := stats.swPkt + 1);
        newState := SW;
      } else {
        stats := stats.(hwPkt := stats.hwPkt + 1);
        newState := HW;
      }
    }

    method PumpTimestampHeader(c: byte) returns (newState: ProtoState, ev: PumpEvent)
      requires p == Idle && contextIDlen == 0
      modifies this
      ensures (State().(p := newState), ev) == TimestampHeaderStep(old(State()), c)
      ensures p == old(p)
    {
      newState, ev := p, EvNone;
      pk := pk.(len := 1);
      pk := pk.(d := pk.d[0 := c]);
      stats := stats.(tsPkt := stats.tsPkt + 1);
      if Bit(c, 7) {
        newState := TS;
      } else {
        pk := pk.(ptype := PtTS);
        ev := EvPacketRxed;
      }
    }

    method PumpExtensionHeader(c: byte) returns (newState: ProtoState)
      requires p == Idle && contextIDlen == 0
      modifies this
      ensures (State().(p := newState), EvNone) == ExtensionHeaderStep(old(State()), c)
      ensures p == old(p)
    {
      newState := p;
      pk := pk.(len := 1);
      stats := stats.(xtnPkt := stats.xtnPkt + 1);
      pk := pk.(d := pk.d[0 := c]);
      if !Bit(c, 7) && !Bit(c, 2) {
        stats := stats.(pagePkt := stats.pagePkt + 1);
        pk := pk.(pageRegister := (c / 16) % 8);
      } else {
        newState := Xtn;
      }
    }

    method PumpReservedHeader(c: byte) returns (newState: ProtoState, ev: PumpEvent)
      requires p == Idle && contextIDlen == 0
      modifies this
      ensures (State().(p := newState), ev) == ReservedHeaderStep(old(State()), c)
      ensures p == old(p)
    {
      newState, ev := p, EvNone;
      pk := pk.(len := 1);
      stats := stats.(reservedPkt := stats.reservedPkt + 1);
      pk := pk.(d := pk.d[0 := c]);
      if !Bit(c, 7) {
        pk := pk.(ptype := PtRsrvd);
        ev := EvPacketRxed;
      } else {
        newState := Rsvd;
      }
    }
  }
}
