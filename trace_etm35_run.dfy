/**
 * The ETMv3.5 decoder pumped over a stream of bytes, and what it promises over
 * whole packets: an A-sync resynchronises from any state, nothing is reported
 * before an I-sync header, and a cycle count packet delivers its value, seven
 * bits a byte, least significant first, in 32 bits.
 */
module TraceEtm35Run {
  import opened Bytes
  import opened TraceCpu
  import opened TraceEtm35

  /**
   * The bytes `cs` pumped one after another.  The answer holds the final
   * registers and processor state and, for each report, the processor state
   * the client is handed.
   */
  function Run(r: Regs, cpu: Cpu, cs: seq<byte>): (res: (Regs, Cpu, seq<Cpu>))
    requires Inv(r)
    ensures Inv(res.0) && |res.2| <= |cs|
    ensures r.rxedISYNC ==> res.0.rxedISYNC
    ensures res.2 != [] ==> res.0.rxedISYNC
    decreases |cs|
  {
    if cs == [] then (r, cpu, [])
    else
      var (r1, cpu1, ev) := Step(r, cpu, cs[0]);
      var (r2, cpu2, out) := Run(r1, cpu1, cs[1..]);
      (r2, cpu2, (if ev then [cpu1] else []) + out)
  }

  /** The first byte of a non-empty stream is one step, and the rest is run from where it leaves the machine. */
  lemma RunFirst(r: Regs, cpu: Cpu, cs: seq<byte>, r1: Regs, cpu1: Cpu, ev: bool)
    requires Inv(r) && cs != [] && (r1, cpu1, ev) == Step(r, cpu, cs[0])
    ensures var rest := Run(r1, cpu1, cs[1..]);
            Run(r, cpu, cs).0 == rest.0 && Run(r, cpu, cs).1 == rest.1
            && Run(r, cpu, cs).2 == if ev then [cpu1] + rest.2 else rest.2
  {
    if !ev {
      assert [] + Run(r1, cpu1, cs[1..]).2 == Run(r1, cpu1, cs[1..]).2;
    }
  }

  /** Enough zero bytes followed by 0x80 leave the machine in `Idle`, whatever state it was in. */
  lemma {:induction false} ZerosThenSync(r: Regs, cpu: Cpu, zs: seq<byte>)
    requires Inv(r) && r.asyncCount + |zs| >= 5
    requires forall i :: 0 <= i < |zs| ==> zs[i] == 0
    ensures Run(r, cpu, zs + [0x80]).0.p == Idle
    decreases |zs|
  {
    if zs != [] {
      var (r1, cpu1, ev) := Step(r, cpu, 0);
      assert (zs + [0x80])[0] == 0 && (zs + [0x80])[1..] == zs[1..] + [0x80];
      ZerosThenSync(r1, cpu1, zs[1..]);
    }
  }

  /** Until an I-sync header byte arrives nothing is reported, and the machine still waits for one. */
  lemma {:induction false} NothingBeforeISync(r: Regs, cpu: Cpu, cs: seq<byte>)
    requires Inv(r) && !r.rxedISYNC
    requires forall i :: 0 <= i < |cs| ==> cs[i] != 0x08
    ensures Run(r, cpu, cs).2 == [] && !Run(r, cpu, cs).0.rxedISYNC
    decreases |cs|
  {
    if cs != [] {
      var (r1, cpu1, ev) := Step(r, cpu, cs[0]);
      NothingBeforeISync(r1, cpu1, cs[1..]);
    }
  }

  /** The value of cycle count bytes: seven bits each, the first byte least significant. */
  function Sum7(bs: seq<byte>): nat
  {
    if bs == [] then 0 else Sum7(bs[..|bs| - 1]) + Shl(bs[|bs| - 1] % 128, 7 * (|bs| - 1))
  }

  lemma {:induction false} Sum7Below(bs: seq<byte>)
    ensures Sum7(bs) < Pow2(7 * |bs|)
  {
    if bs != [] {
      var n := |bs| - 1;
      Sum7Below(bs[..n]);
      assert Pow2(7) == 128;
      ShlBound(bs[n] % 128, 7 * n, 7);
    }
  }

  /** One more cycle count byte extends the value assembled so far. */
  lemma {:induction false} CycleBitsAppend(done: seq<byte>, c: byte)
    requires |done| <= 4
    ensures CycleBits(Sum7(done) % TWO_32, |done|, c) == Sum7(done + [c]) % TWO_32
  {
    var k := |done|;
    Sum7Below(done);
    Pow2Below(7 * k, 32);
    Pow2Literal32();
    assert Sum7(done) % TWO_32 == Sum7(done);
    SpliceAbove(Sum7(done), 7 * k, 7, c);
    assert Pow2(7) == 128;
    assert (done + [c])[..k] == done;
  }

  lemma AppendFirst(done: seq<byte>, bs: seq<byte>)
    requires bs != []
    ensures done + bs == (done + [bs[0]]) + bs[1..]
  {
    assert bs == [bs[0]] + bs[1..];
  }

  /** One byte in the middle of a cycle count packet, with no A-sync possible. */
  lemma CycleCountByte(r: Regs, cpu: Cpu, c: byte)
    requires Inv(r) && r.p == GetCycleCount && r.asyncCount < 5
    ensures var res := Step(r, cpu, c);
            && res.0.cycleConstruct == CycleBits(r.cycleConstruct, r.byteCount, c) && res.0.byteCount == r.byteCount + 1
            && (res.0.p != Idle ==> res.0.asyncCount == 0) && res.0.rxedISYNC == r.rxedISYNC
            && res.0.p == (if c < 128 || r.byteCount == 4 then Idle else GetCycleCount)
            && (res.0.p == Idle ==> res.1.cycleCount == res.0.cycleConstruct && CycleCount in res.1.changeRecord)
            && res.2 == (res.0.p == Idle && r.rxedISYNC)
  {
  }

  /**
   * The bytes of a cycle count packet after `done` have been taken: each but
   * the last has its continuation bit set, and the last has it clear unless it
   * is the fifth.
   */
  lemma {:induction false} CycleCountBytes(r: Regs, cpu: Cpu, done: seq<byte>, bs: seq<byte>)
    requires Inv(r) && r.p == GetCycleCount && r.asyncCount < 5
    requires r.byteCount == |done| && r.cycleConstruct == Sum7(done) % TWO_32
    requires 1 <= |bs| && |done| + |bs| <= 5
    requires forall i :: 0 <= i < |bs| - 1 ==> bs[i] >= 128
    requires |done| + |bs| < 5 ==> bs[|bs| - 1] < 128
    ensures var res := Run(r, cpu, bs);
            && res.0.p == Idle
            && res.1.cycleCount == Sum7(done + bs) % TWO_32 && CycleCount in res.1.changeRecord
            && res.2 == (if r.rxedISYNC then [res.1] else [])
    decreases |bs|
  {
    var c := bs[0];
    CycleBitsAppend(done, c);
    CycleCountByte(r, cpu, c);
    var (r1, cpu1, ev) := Step(r, cpu, c);
    if |bs| > 1 {
      AppendFirst(done, bs);
      CycleCountBytes(r1, cpu1, done + [c], bs[1..]);
    } else {
      assert bs == [c];
    }
  }

  /** A cycle count packet, header 0x04 and up to five value bytes, sets the cycle count to its value. */
  lemma {:induction false} CycleCountPacket(r: Regs, cpu: Cpu, bs: seq<byte>)
    requires Inv(r) && r.p == Idle
    requires 1 <= |bs| <= 5
    requires forall i :: 0 <= i < |bs| - 1 ==> bs[i] >= 128
    requires |bs| < 5 ==> bs[|bs| - 1] < 128
    ensures var res := Run(r, cpu, [0x04] + bs);
            && res.0.p == Idle
            && res.1.cycleCount == Sum7(bs) % TWO_32 && CycleCount in res.1.changeRecord
            && res.2 == (if r.rxedISYNC then [res.1] else [])
  {
    var (r1, cpu1, ev) := Step(r, cpu, 0x04);
    assert ([0x04] + bs)[0] == 0x04 && ([0x04] + bs)[1..] == bs;
    assert [] + bs == bs;
    CycleCountBytes(r1, cpu1, [], bs);
  }
}
