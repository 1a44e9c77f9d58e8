/**
 * Deframing of the CoreSight TPIU formatter: a byte stream is cut into
 * 16-byte frames at the full-sync pattern FF FF FF 7F, half-syncs (FF 7F
 * pairs) are dropped, and each frame is split into (stream, data) bytes.
 *
 * The packet-interval check, which compares `gettimeofday` readings, is the
 * parameter `inTime` of the pump: whether the frame arrived within the
 * timeout of the previous one.
 */
module TpiuDecoder {
  import opened Bytes

  const TPIU_PACKET_LEN: nat := 16
  /** The last four bytes received, oldest first, that form a full sync (the word 0xFFFFFF7F). */
  const SYNCPATTERN: seq<byte> := [0xFF, 0xFF, 0xFF, 0x7F]
  const HALFSYNC_HIGH: byte := 0x7F
  const HALFSYNC_LOW: byte := 0xFF
  const NO_CHANNEL_CHANGE: byte := 0xFF
  /** First byte of a frame that carries the probe's communication statistics. */
  const STAT_SYNC_BYTE: byte := 0xA6

  datatype TpiuState = Unsynced | Synced | Rxing | Error

  datatype TpiuEvent = EvNone | EvUnsynced | EvSynced | EvNewSync | EvRxing | EvRxedPacket | EvError

  datatype TpiuStats = TpiuStats(lostSync: nat, syncCount: nat, halfSyncCount: nat, packets: nat, error: nat)

  const ZERO_STATS := TpiuStats(0, 0, 0, 0, 0)

  datatype CommsStats = CommsStats(pendingCount: u16, leds: byte, lostFrames: u16, totalFrames: u32)

  type Frame = f: seq<byte> | |f| == TPIU_PACKET_LEN witness seq(16, _ => 0)

  /** The decoder registers of `struct TPIUDecoder`, as a value. */
  /**
   * The 32-bit `syncMonitor`, into which each byte is shifted from below, holds
   * the last four bytes received: it is kept here as those bytes, oldest first.
   */
  type Monitor4 = m: seq<byte> | |m| == 4 witness [0, 0, 0, 0]

  datatype Regs = Regs(state: TpiuState, byteCount: byte, currentStream: byte, syncMonitor: Monitor4,
                       gotLowbits: bool, rxed: Frame, stats: TpiuStats, comms: CommsStats)

  /** The next pair always lands inside the frame buffer. */
  predicate Inv(r: Regs)
  {
    r.byteCount % 2 == 0 && r.byteCount < TPIU_PACKET_LEN
  }

  /** `(syncMonitor << 8) | d` in 32 bits: the oldest byte drops out, `d` comes in. */
  function Monitor(m: Monitor4, d: byte): (r: Monitor4)
    ensures r[3] == d && r[..3] == m[1..]
  {
    m[1..] + [d]
  }

  /** Whatever was received before, FF FF FF 7F leaves the sync pattern in the monitor. */
  lemma SyncPatternDetected(m: Monitor4)
    ensures Monitor(Monitor(Monitor(Monitor(m, 0xFF), 0xFF), 0xFF), 0x7F) == SYNCPATTERN
  {
    var m4 := Monitor(Monitor(Monitor(Monitor(m, 0xFF), 0xFF), 0xFF), 0x7F);
    assert m4[0] == 0xFF && m4[1] == 0xFF && m4[2] == 0xFF && m4[3] == 0x7F;
  }

  /** `_decodeCommsStats`: the little-endian fields of a statistics frame. */
  function DecodeCommsStats(f: Frame): (c: CommsStats)
    ensures c.pendingCount % 256 == f[1] && c.pendingCount / 256 == f[2] && c.leds == f[5]
    ensures c.lostFrames % 256 == f[6] && c.lostFrames / 256 == f[7]
    ensures WordBytesLE(c.totalFrames) == f[8..12]
  {
    WordBytesRoundTrip(f[8], f[9], f[10], f[11]);
    CommsStats(LE16(f[1], f[2]), f[5], LE16(f[6], f[7]), LE32(f[8], f[9], f[10], f[11]))
  }

  /**
   * A full sync: the frame restarts at its first byte.  A frame of fourteen
   * bytes that starts with STAT_SYNC_BYTE is the probe's statistics report.
   */
  function SyncStep(r: Regs): (res: (Regs, TpiuEvent))
    ensures Inv(res.0) && res.0.state == Rxing && res.0.byteCount == 0 && !res.0.gotLowbits
    ensures res.1 == (if r.state == Unsynced then EvNewSync else EvSynced)
    ensures res.0.stats == r.stats.(syncCount := r.stats.syncCount + 1)
    ensures res.0.syncMonitor == r.syncMonitor && res.0.rxed == r.rxed && res.0.currentStream == r.currentStream
  {
    var ev := if r.state != Unsynced then EvSynced else EvNewSync;
    var comms := if r.byteCount == 14 && r.rxed[0] == STAT_SYNC_BYTE then DecodeCommsStats(r.rxed) else r.comms;
    (r.(comms := comms, state := Rxing, stats := r.stats.(syncCount := r.stats.syncCount + 1),
        byteCount := 0, gotLowbits := false), ev)
  }

  /** One byte while receiving: bytes are taken in pairs, low byte first. */
  function RxStep(r: Regs, d: byte, inTime: bool): (res: (Regs, TpiuEvent))
    requires Inv(r)
    ensures Inv(res.0) && res.0.syncMonitor == r.syncMonitor && res.0.currentStream == r.currentStream
    ensures !r.gotLowbits ==> res == (r.(gotLowbits := true, rxed := r.rxed[r.byteCount := d]), EvNone)
    ensures r.gotLowbits ==> !res.0.gotLowbits
  {
    if !r.gotLowbits then
      (r.(gotLowbits := true, rxed := r.rxed[r.byteCount := d]), EvNone)
    else if d == HALFSYNC_HIGH && r.rxed[r.byteCount] == HALFSYNC_LOW then
      (r.(gotLowbits := false, stats := r.stats.(halfSyncCount := r.stats.halfSyncCount + 1)), EvNone)
    else
      var rxed := r.rxed[r.byteCount + 1 := d];
      var count := r.byteCount + 2;
      if count != TPIU_PACKET_LEN then
        (r.(gotLowbits := false, rxed := rxed, byteCount := count), EvRxing)
      else if inTime then
        (r.(gotLowbits := false, rxed := rxed, byteCount := 0, stats := r.stats.(packets := r.stats.packets + 1)),
         EvRxedPacket)
      else
        (r.(gotLowbits := false, rxed := rxed, byteCount := 0, state := Unsynced,
            stats := r.stats.(lostSync := r.stats.lostSync + 1)), EvUnsynced)
  }

  /** `TPIUPump`: one byte into the deframer. */
  function Step(r: Regs, d: byte, inTime: bool): (res: (Regs, TpiuEvent))
    requires Inv(r)
    ensures Inv(res.0) && res.0.syncMonitor == Monitor(r.syncMonitor, d)
  {
    var r1 := r.(syncMonitor := Monitor(r.syncMonitor, d));
    if r1.syncMonitor == SYNCPATTERN then SyncStep(r1)
    else match r.state
      case Unsynced => (r1, EvNone)
      case Rxing => RxStep(r1, d, inTime)
      case _ => (r1.(stats := r1.stats.(error := r1.stats.error + 1)), EvError)
  }

  /** `TPIUDecoderForceSync`: receive from `offset` on, counting a sync only if there was none. */
  function ForcedSync(r: Regs, offset: byte): (r': Regs)
    ensures r'.state == Rxing && r'.byteCount == offset
    ensures r'.stats.syncCount == r.stats.syncCount + (if r.state == Unsynced then 1 else 0)
    ensures r' == r.(state := r'.state, byteCount := r'.byteCount, stats := r'.stats)
  {
    var stats := if r.state == Unsynced then r.stats.(syncCount := r.stats.syncCount + 1) else r.stats;
    r.(stats := stats, state := Rxing, byteCount := offset)
  }

  /** A full sync restarts the frame from any state; it is new exactly when the decoder was unsynced. */
  lemma SyncFromAnyState(r: Regs, d: byte, inTime: bool)
    requires Inv(r) && Monitor(r.syncMonitor, d) == SYNCPATTERN
    ensures var (r', ev) := Step(r, d, inTime);
            r'.state == Rxing && r'.byteCount == 0 && !r'.gotLowbits
            && r'.stats.syncCount == r.stats.syncCount + 1
            && (ev == EvNewSync <==> r.state == Unsynced) && (ev == EvSynced <==> r.state != Unsynced)
  {
  }

  /** Unsynced, every byte that does not complete a sync is ignored. */
  lemma UnsyncedIgnores(r: Regs, d: byte, inTime: bool)
    requires Inv(r) && r.state == Unsynced && Monitor(r.syncMonitor, d) != SYNCPATTERN
    ensures Step(r, d, inTime) == (r.(syncMonitor := Monitor(r.syncMonitor, d)), EvNone)
  {
  }

  /** A high byte 7F completing a low byte FF is a half-sync: counted, and nothing stored. */
  lemma HalfSyncDropped(r: Regs, inTime: bool)
    requires Inv(r) && r.state == Rxing && r.gotLowbits && r.rxed[r.byteCount] == HALFSYNC_LOW
    requires Monitor(r.syncMonitor, HALFSYNC_HIGH) != SYNCPATTERN
    ensures var (r', ev) := Step(r, HALFSYNC_HIGH, inTime);
            ev == EvNone && r'.byteCount == r.byteCount && r'.rxed == r.rxed && !r'.gotLowbits
            && r'.stats == r.stats.(halfSyncCount := r.stats.halfSyncCount + 1)
  {
  }

  /** The pair that fills the frame completes a packet if in time, and otherwise loses sync. */
  lemma FrameCompletes(r: Regs, d: byte, inTime: bool)
    requires Inv(r) && r.state == Rxing && r.gotLowbits && Monitor(r.syncMonitor, d) != SYNCPATTERN
    requires !(d == HALFSYNC_HIGH && r.rxed[r.byteCount] == HALFSYNC_LOW)
    ensures var (r', ev) := Step(r, d, inTime);
            r'.rxed == r.rxed[r.byteCount + 1 := d]
            && (r.byteCount < 14 ==> ev == EvRxing && r'.byteCount == r.byteCount + 2 && r'.state == Rxing)
            && (r.byteCount == 14 ==>
                  r'.byteCount == 0 && (ev == EvRxedPacket <==> inTime) && (ev == EvUnsynced <==> !inTime)
                  && (r'.state == Unsynced <==> !inTime))
  {
  }

  // ---------------------------------------------------------------------------------------------
  // Frame contents
  // ---------------------------------------------------------------------------------------------

  /** A data byte of a TPIU packet and the stream it belongs to. */
  datatype TpiuByte = TpiuByte(s: byte, d: byte)

  predicate NoStreamZero(out: seq<TpiuByte>)
  {
    forall i :: 0 <= i < |out| ==> out[i].s != 0
  }

  /**
   * Pair `k` of a frame.  An odd byte at an even index names a new stream,
   * taking effect at once, or after the following data byte when the pair's
   * bit of the last byte is set; an even byte there is data whose bit 0 is that
   * bit.  The odd-indexed byte is always data, except in the last pair, where it
   * holds those bits.  Data of stream 0 is padding.
   */
  function PairStep(f: Frame, k: nat, stream: byte, lowbits: nat): (res: (seq<TpiuByte>, byte))
    requires k < 8
    ensures |res.0| <= (if k < 7 then 2 else 1) && NoStreamZero(res.0)
    ensures f[2 * k] % 2 == 1 ==> res.1 == f[2 * k] / 2
    ensures f[2 * k] % 2 == 0 ==> res.1 == stream
  {
    var b := f[2 * k];
    var low := if b % 2 == 0 && stream != 0 then [TpiuByte(stream, b + lowbits % 2)] else [];
    var s1 := if b % 2 == 1 && lowbits % 2 == 0 then b / 2 else stream;
    var high := if k < 7 && s1 != 0 then [TpiuByte(s1, f[2 * k + 1])] else [];
    var s2 := if b % 2 == 1 && lowbits % 2 == 1 then b / 2 else s1;
    (low + high, s2)
  }

  /** What the loop over the pairs of a frame has produced: the data bytes, the stream, the remaining low bits. */
  datatype Deframing = Deframing(out: seq<TpiuByte>, stream: byte, lowbits: nat)

  /** Pairs 0 to `k - 1` of a frame, starting on `stream` with the low bits `lowbits`. */
  function Deframe(f: Frame, k: nat, stream: byte, lowbits: nat): (r: Deframing)
    requires k <= 8
    ensures |r.out| <= 2 * k - (if k == 8 then 1 else 0) && NoStreamZero(r.out)
  {
    if k == 0 then Deframing([], stream, lowbits)
    else
      var prev := Deframe(f, k - 1, stream, lowbits);
      var (out, s) := PairStep(f, k - 1, prev.stream, prev.lowbits);
      Deframing(prev.out + out, s, prev.lowbits / 2)
  }

  /** An immediate stream change tags the data byte of its pair with the new stream; a delayed one the old. */
  lemma StreamChange(f: Frame, k: nat, stream: byte, lowbits: nat)
    requires k < 7 && f[2 * k] % 2 == 1
    ensures var (out, s) := PairStep(f, k, stream, lowbits);
            var next := if lowbits % 2 == 0 then f[2 * k] / 2 else stream;
            s == f[2 * k] / 2 && out == (if next != 0 then [TpiuByte(next, f[2 * k + 1])] else [])
  {
  }

  // ---------------------------------------------------------------------------------------------
  // The formatter, as the reference the deframer inverts
  // ---------------------------------------------------------------------------------------------

  /** Bit 0 of `data[2j - 1]`, for the pairs `j` from `k` to 7, as bits `k`.. of the last byte, shifted down by `k`. */
  function LowBitsFrom(data: seq<byte>, k: nat): (r: nat)
    requires |data| == 14 && 1 <= k <= 8
    ensures r < Pow2(8 - k)
    decreases 8 - k
  {
    if k == 8 then 0
    else
      assert Pow2(8 - k) == 2 * Pow2(8 - (k + 1));
      data[2 * k - 1] % 2 + 2 * LowBitsFrom(data, k + 1)
  }

  /** Bit 0 of the low bits is pair `k`'s; shifting it out leaves those of the later pairs. */
  lemma LowBitsStep(data: seq<byte>, k: nat)
    requires |data| == 14 && 1 <= k < 8
    ensures LowBitsFrom(data, k) % 2 == data[2 * k - 1] % 2 && LowBitsFrom(data, k) / 2 == LowBitsFrom(data, k + 1)
  {
    var r, a := LowBitsFrom(data, k + 1), data[2 * k - 1] % 2;
    assert LowBitsFrom(data, k) == a + 2 * r;
    assert (a + 2 * r) % 2 == a && (a + 2 * r) / 2 == r;
  }

  /** Byte `i` of the frame that carries the fourteen bytes `data` on stream `s`, selected at its start. */
  function FormatByte(s: byte, data: seq<byte>, i: nat): (b: byte)
    requires 1 <= s < 128 && |data| == 14 && i < 16
  {
    if i == 0 then 2 * s + 1
    else if i == 15 then (assert Pow2(7) == 128; 2 * LowBitsFrom(data, 1))
    else if i % 2 == 1 then data[i - 1]
    else data[i - 1] - data[i - 1] % 2
  }

  /** The formatter: an ID byte for `s`, then the data, with the low bits of even-placed bytes moved to the last byte. */
  function Format(s: byte, data: seq<byte>): (f: Frame)
    requires 1 <= s < 128 && |data| == 14
    ensures Formatted(f, s, data)
  {
    seq(16, i requires 0 <= i < 16 => FormatByte(s, data, i))
  }

  /** The bytes of `f` are those the formatter lays out for `data` on stream `s`. */
  predicate Formatted(f: Frame, s: byte, data: seq<byte>)
    requires |data| == 14
  {
    f[0] == 2 * s + 1 && f[15] == 2 * LowBitsFrom(data, 1)
    && forall i :: 1 <= i < 15 ==> f[i] == (if i % 2 == 1 then data[i - 1] else data[i - 1] - data[i - 1] % 2)
  }

  /** Deframing undoes the formatter: the fourteen bytes come back, on the stream the frame selected. */
  lemma FormatRoundTrip(s: byte, data: seq<byte>, stream: byte)
    requires 1 <= s < 128 && |data| == 14
    ensures var f := Format(s, data);
            var r := Deframe(f, 8, stream, f[15]);
            r.out == TaggedPrefix(s, data, 14) && r.stream == s
  {
    var f := Format(s, data);
    FormatFirstPair(f, s, data, stream);
    forall j | 1 <= j < 8
      ensures PairStep(f, j, s, LowBitsFrom(data, j)) == (PairBytes(s, data, j), s)
    {
      LowBitsStep(data, j);
      FormatPair(f, s, data, j, LowBitsFrom(data, j));
    }
    FormatPrefix(f, s, data, stream, 8);
  }

  /** The data bytes pair `k` (from 1 to 7) of a formatted frame carries: two, or one for the last pair. */
  function PairBytes(s: byte, data: seq<byte>, k: nat): (r: seq<TpiuByte>)
    requires |data| == 14 && 1 <= k < 8
    ensures |r| == (if k < 7 then 2 else 1) && r[0] == TpiuByte(s, data[2 * k - 1])
  {
    if k < 7 then [TpiuByte(s, data[2 * k - 1]), TpiuByte(s, data[2 * k])] else [TpiuByte(s, data[13])]
  }

  /** The first `n` data bytes, all tagged with stream `s`. */
  function TaggedPrefix(s: byte, data: seq<byte>, n: nat): (r: seq<TpiuByte>)
    requires n <= |data|
    ensures |r| == n && forall i :: 0 <= i < n ==> r[i] == TpiuByte(s, data[i])
  {
    seq(n, i requires 0 <= i < n => TpiuByte(s, data[i]))
  }

  /** Pair `k` of a formatted frame, with its bits of the last byte, gives back its data bytes and keeps the stream. */
  lemma FormatPair(f: Frame, s: byte, data: seq<byte>, k: nat, L: nat)
    requires 1 <= s < 128 && |data| == 14 && Formatted(f, s, data) && 1 <= k < 8 && L % 2 == data[2 * k - 1] % 2
    ensures PairStep(f, k, s, L) == (PairBytes(s, data, k), s)
  {
    var b := f[2 * k];
    assert b == data[2 * k - 1] - data[2 * k - 1] % 2;
    assert b % 2 == 0 && b + L % 2 == data[2 * k - 1];
    var low := [TpiuByte(s, data[2 * k - 1])];
    if k < 7 {
      assert f[2 * k + 1] == data[2 * k];
      assert low + [TpiuByte(s, data[2 * k])] == [TpiuByte(s, data[2 * k - 1]), TpiuByte(s, data[2 * k])];
    } else {
      assert low + [] == [TpiuByte(s, data[13])];
    }
  }

  /** The first pair of a formatted frame selects its stream and gives back the first data byte. */
  lemma FormatFirstPair(f: Frame, s: byte, data: seq<byte>, stream: byte)
    requires 1 <= s < 128 && |data| == 14 && Formatted(f, s, data)
    ensures Deframe(f, 1, stream, f[15]) == Deframing(TaggedPrefix(s, data, 1), s, LowBitsFrom(data, 1))
  {
    var L := LowBitsFrom(data, 1);
    assert f[15] % 2 == 0 && f[15] / 2 == L;
    assert f[1] == data[0] && f[0] % 2 == 1 && f[0] / 2 == s;
    assert PairStep(f, 0, stream, f[15]).0 == [TpiuByte(s, data[0])];
    assert [] + [TpiuByte(s, data[0])] == TaggedPrefix(s, data, 1);
  }

  /** The first `k` pairs of a formatted frame give back its first `2k - 1` data bytes (all fourteen for `k == 8`). */
  lemma {:induction false} FormatPrefix(f: Frame, s: byte, data: seq<byte>, stream: byte, k: nat)
    requires |data| == 14 && 1 <= k <= 8
    requires Deframe(f, 1, stream, f[15]) == Deframing(TaggedPrefix(s, data, 1), s, LowBitsFrom(data, 1))
    requires forall j :: 1 <= j < 8 ==> PairStep(f, j, s, LowBitsFrom(data, j)) == (PairBytes(s, data, j), s)
    ensures Deframe(f, k, stream, f[15]) == Deframing(TaggedPrefix(s, data, if k == 8 then 14 else 2 * k - 1), s, LowBitsFrom(data, k))
  {
    if k > 1 {
      FormatPrefix(f, s, data, stream, k - 1);
      FormatNextPair(f, s, data, stream, k);
    }
  }

  /** One more pair of a formatted frame extends the data given back by two bytes (one for the last pair). */
  lemma FormatNextPair(f: Frame, s: byte, data: seq<byte>, stream: byte, k: nat)
    requires |data| == 14 && 2 <= k <= 8
    requires Deframe(f, k - 1, stream, f[15]) == Deframing(TaggedPrefix(s, data, 2 * k - 3), s, LowBitsFrom(data, k - 1))
    requires PairStep(f, k - 1, s, LowBitsFrom(data, k - 1)) == (PairBytes(s, data, k - 1), s)
    ensures Deframe(f, k, stream, f[15]) == Deframing(TaggedPrefix(s, data, if k == 8 then 14 else 2 * k - 1), s, LowBitsFrom(data, k))
  {
    var L := LowBitsFrom(data, k - 1);
    LowBitsStep(data, k - 1);
    TaggedPrefixExtend(s, data, k);
    assert Deframe(f, k, stream, f[15]) == Deframing(TaggedPrefix(s, data, 2 * k - 3) + PairBytes(s, data, k - 1), s, L / 2);
  }

  /** The tagged prefix grows by the bytes pair `k - 1` gives back. */
  lemma TaggedPrefixExtend(s: byte, data: seq<byte>, k: nat)
    requires |data| == 14 && 2 <= k <= 8
    ensures TaggedPrefix(s, data, 2 * k - 3) + PairBytes(s, data, k - 1) == TaggedPrefix(s, data, if k == 8 then 14 else 2 * k - 1)
  {
  }

  // ---------------------------------------------------------------------------------------------
  // The decoder object
  // ---------------------------------------------------------------------------------------------

  /** `struct TPIUDecoder`, updated in place by the pump. */
  class Decoder {
    var state: TpiuState
    var byteCount: byte
    var currentStream: byte
    var syncMonitor: Monitor4
    var gotLowbits: bool
    var rxedPacket: array<byte>
    var stats: TpiuStats
    var commsStats: CommsStats

    ghost predicate Valid()
      reads this
    {
      rxedPacket.Length == TPIU_PACKET_LEN && byteCount % 2 == 0 && byteCount < TPIU_PACKET_LEN
    }

    ghost function State(): Regs
      requires Valid()
      reads this, rxedPacket
    {
      Regs(state, byteCount, currentStream, syncMonitor, gotLowbits, rxedPacket[..], stats, commsStats)
    }

    /** `TPIUDecoderCreate`: a zero-filled instance, then `TPIUDecoderInit`. */
    constructor ()
      ensures Valid() && fresh(rxedPacket)
      ensures State() == Regs(Unsynced, 0, 0, [0, 0, 0, 0], false, seq(16, _ => 0), ZERO_STATS, CommsStats(0, 0, 0, 0))
    {
      state := Unsynced;
      byteCount := 0;
      currentStream := 0;
      syncMonitor := [0, 0, 0, 0];
      gotLowbits := false;
      rxedPacket := new byte[TPIU_PACKET_LEN](_ => 0);
      stats := ZERO_STATS;
      commsStats := CommsStats(0, 0, 0, 0);
    }

    /** `TPIUDecoderInit`: unsynced, an empty monitor, no statistics. */
    method Init()
      requires Valid()
      modifies this
      ensures Valid() && rxedPacket == old(rxedPacket)
      ensures State() == old(State()).(state := Unsynced, syncMonitor := [0, 0, 0, 0], stats := ZERO_STATS)
    {
      state := Unsynced;
      syncMonitor := [0, 0, 0, 0];
      ZeroStats();
    }

    /** `TPIUDecoderZeroStats`. */
    method ZeroStats()
      requires Valid()
      modifies this
      ensures Valid() && rxedPacket == old(rxedPacket)
      ensures State() == old(State()).(stats := ZERO_STATS)
    {
      stats := ZERO_STATS;
    }

    /** `TPIUDecoderSynced`. */
    function Synced(): (b: bool)
      reads this
      ensures b <==> state != Unsynced
    {
      state != Unsynced
    }

    /**
     * `TPIUDecoderForceSync`.  An odd offset, or one past the frame, would
     * make the next pair write outside the frame buffer.
     */
    method ForceSync(offset: byte)
      requires Valid() && offset % 2 == 0 && offset < TPIU_PACKET_LEN
      modifies this
      ensures Valid() && rxedPacket == old(rxedPacket)
      ensures State() == ForcedSync(old(State()), offset)
    {
      if state == Unsynced {
        stats := stats.(syncCount := stats.syncCount + 1);
      }
      state := Rxing;
      byteCount := offset;
    }

    /** `TPIUGetPacket`: the data bytes of the frame just completed, with their streams. */
    method GetPacket() returns (ok: bool, packet: seq<TpiuByte>)
      requires Valid()
      modifies this
      ensures Valid() && rxedPacket == old(rxedPacket)
      ensures ok <==> old(byteCount) == 0
      ensures !ok ==> packet == [] && State() == old(State())
      ensures ok ==> var r := Deframe(old(rxedPacket[..]), 8, old(currentStream), rxedPacket[15]);
                     packet == r.out && currentStream == r.stream
      ensures State() == old(State()).(currentStream := currentStream)
    {
      if byteCount != 0 {
        return false, [];
      }
      ghost var f: Frame := rxedPacket[..];
      ghost var s0 := currentStream;
      packet := [];
      var lowbits: nat := rxedPacket[TPIU_PACKET_LEN - 1];
      var i := 0;
      while i < TPIU_PACKET_LEN
        invariant i % 2 == 0 && i <= TPIU_PACKET_LEN
        invariant Valid() && rxedPacket == old(rxedPacket) && rxedPacket[..] == f
        invariant state == old(state) && byteCount == 0 && syncMonitor == old(syncMonitor)
        invariant gotLowbits == old(gotLowbits) && stats == old(stats) && commsStats == old(commsStats)
        invariant Deframe(f, i / 2, s0, f[15]) == Deframing(packet, currentStream, lowbits)
      {
        var out := TakePair(i, lowbits);
        packet := packet + out;
        lowbits := lowbits / 2;
        i := i + 2;
      }
      ok := true;
    }

    /** One pass of the loop of `TPIUGetPacket`: the pair at index `i`. */
    method TakePair(i: nat, lowbits: nat) returns (out: seq<TpiuByte>)
      requires Valid() && i % 2 == 0 && i < TPIU_PACKET_LEN
      modifies this
      ensures Valid() && rxedPacket == old(rxedPacket)
      ensures (out, currentStream) == PairStep(rxedPacket[..], i / 2, old(currentStream), lowbits)
      ensures State() == old(State()).(currentStream := currentStream)
    {
      var delayedStreamChange := NO_CHANNEL_CHANGE;
      assert 2 * (i / 2) == i && rxedPacket[..][i] == rxedPacket[i];
      assert i < 14 ==> rxedPacket[..][i + 1] == rxedPacket[i + 1];
      out := [];
      if rxedPacket[i] % 2 == 1 {
        if lowbits % 2 == 1 {
          delayedStreamChange := rxedPacket[i] / 2;
        } else {
          currentStream := rxedPacket[i] / 2;
        }
      } else {
        if currentStream != 0 {
          out := out + [TpiuByte(currentStream, rxedPacket[i] + lowbits % 2)];
        }
      }
      if i < 14 {
        if currentStream != 0 {
          out := out + [TpiuByte(currentStream, rxedPacket[i + 1])];
        }
      }
      if delayedStreamChange != NO_CHANNEL_CHANGE {
        currentStream := delayedStreamChange;
      }
      assert currentStream == PairStep(rxedPacket[..], i / 2, old(currentStream), lowbits).1;
      assert out == PairStep(rxedPacket[..], i / 2, old(currentStream), lowbits).0;
    }

    /** `TPIUPump`: one byte into the deframer; `inTime` is the packet-interval check. */
    method Pump(d: byte, inTime: bool) returns (ev: TpiuEvent)
      requires Valid()
      modifies this, rxedPacket
      ensures Valid() && rxedPacket == old(rxedPacket)
      ensures (State(), ev) == Step(old(State()), d, inTime)
    {
      syncMonitor := syncMonitor[1..] + [d];
      if syncMonitor == SYNCPATTERN {
        ev := PumpSync();
        return;
      }
      match state {
        case Unsynced =>
          ev := EvNone;
        case Rxing =>
          ev := PumpRxing(d, inTime);
        case _ =>
          stats := stats.(error := stats.error + 1);
          ev := EvError;
      }
    }

    /** The sync pattern has just been seen: restart the frame. */
    method PumpSync() returns (ev: TpiuEvent)
      requires Valid()
      modifies this
      ensures Valid() && rxedPacket == old(rxedPacket)
      ensures (State(), ev) == SyncStep(old(State()))
    {
      if state != Unsynced {
        ev := EvSynced;
      } else {
        ev := EvNewSync;
      }
      if byteCount == 14 && rxedPacket[0] == STAT_SYNC_BYTE {
        commsStats := DecodeCommsStats(rxedPacket[..]);
      }
      state := Rxing;
      stats := stats.(syncCount := stats.syncCount + 1);
      byteCount := 0;
      gotLowbits := false;
    }

    /** The RXING case of `TPIUPump`. */
    method PumpRxing(d: byte, inTime: bool) returns (ev: TpiuEvent)
      requires Valid()
      modifies this, rxedPacket
      ensures Valid() && rxedPacket == old(rxedPacket)
      ensures (State(), ev) == RxStep(old(State()), d, inTime)
    {
      if !gotLowbits {
        gotLowbits := true;
        rxedPacket[byteCount] := d;
        return EvNone;
      }
      gotLowbits := false;
      if d == HALFSYNC_HIGH && rxedPacket[byteCount] == HALFSYNC_LOW {
        stats := stats.(halfSyncCount := stats.halfSyncCount + 1);
        return EvNone;
      }
      rxedPacket[byteCount + 1] := d;
      if byteCount + 2 != TPIU_PACKET_LEN {
        byteCount := byteCount + 2;
        return EvRxing;
      }
      byteCount := 0;
      if inTime {
        stats := stats.(packets := stats.packets + 1);
        ev := EvRxedPacket;
      } else {
        state := Unsynced;
        stats := stats.(lostSync := stats.lostSync + 1);
        ev := EvUnsynced;
      }
    }
  }
}
