/**
 * The ETMv4 decoder pumped over a stream of bytes, and what it promises over
 * whole streams: an A-sync (eleven zero bytes and 0x80) synchronises from any
 * state, nothing is reported without one, and the resync byte 0x08 silences
 * the engine until the next A-sync.
 */
module TraceEtm4Run {
  import opened Bytes
  import opened TraceCpu
  import opened TraceEtm4

  /**
   * The bytes `cs` pumped one after another.  The answer holds the final
   * registers and processor state and, for each report, the processor state
   * the client is handed.
   */
  function Run(r: Regs, cpu: Cpu, cs: seq<byte>): (res: (Regs, Cpu, seq<Cpu>))
    requires Inv(r)
    ensures Inv(res.0) && |res.2| <= |cs|
    decreases |cs|
  {
    if cs == [] then (r, cpu, [])
    else
      var (r1, cpu1, ev) := Step(r, cpu, cs[0]);
      var (r2, cpu2, out) := Run(r1, cpu1, cs[1..]);
      (r2, cpu2, (if ev then [cpu1] else []) + out)
  }

  /** The first byte of a non-empty stream is one step, and the rest is run from where it leaves the machine. */
  lemma RunFirst(r: Regs, cpu: Cpu, cs: seq<byte>, r1: Regs, cpu1: Cpu, ev: bool)
    requires Inv(r) && cs != [] && (r1, cpu1, ev) == Step(r, cpu, cs[0])
    ensures var rest := Run(r1, cpu1, cs[1..]);
            Run(r, cpu, cs).0 == rest.0 && Run(r, cpu, cs).1 == rest.1
            && Run(r, cpu, cs).2 == if ev then [cpu1] + rest.2 else rest.2
  {
    if !ev {
      assert [] + Run(r1, cpu1, cs[1..]).2 == Run(r1, cpu1, cs[1..]).2;
    }
  }

  /** No byte of `cs` is the 0x80 that ends an A-sync. */
  predicate NoSyncByte(cs: seq<byte>)
  {
    forall i :: 0 <= i < |cs| ==> cs[i] != 0x80
  }

  /**
   * Zero bytes that bring the count to eleven, then 0x80: the machine waits
   * for a trace info packet with the sync flag set, whatever it was doing.
   */
  lemma {:induction false} ElevenZerosThenSync(r: Regs, cpu: Cpu, zs: seq<byte>)
    requires Inv(r) && r.asyncCount + |zs| == 11
    requires forall i :: 0 <= i < |zs| ==> zs[i] == 0
    ensures var res := Run(r, cpu, zs + [0x80]);
            res.0.p == WaitInfo && res.0.rxedISYNC
    decreases |zs|
  {
    if zs == [] {
      assert zs + [0x80] == [0x80];
    } else {
      var (r1, cpu1, ev) := Step(r, cpu, 0);
      assert (zs + [0x80])[0] == 0 && (zs + [0x80])[1..] == zs[1..] + [0x80];
      ElevenZerosThenSync(r1, cpu1, zs[1..]);
    }
  }

  /** Without the sync flag and without a 0x80 byte, nothing is reported and the flag stays clear. */
  lemma {:induction false} NothingWithoutSync(r: Regs, cpu: Cpu, cs: seq<byte>)
    requires Inv(r) && !r.rxedISYNC && NoSyncByte(cs)
    ensures Run(r, cpu, cs).2 == [] && !Run(r, cpu, cs).0.rxedISYNC
    decreases |cs|
  {
    if cs != [] {
      var (r1, cpu1, ev) := Step(r, cpu, cs[0]);
      NothingWithoutSync(r1, cpu1, cs[1..]);
    }
  }

  /** The resync byte in `Idle` clears the sync flag, so nothing is reported until the next A-sync. */
  lemma ResyncSilences(r: Regs, cpu: Cpu, cs: seq<byte>)
    requires Inv(r) && r.p == Idle && NoSyncByte(cs)
    ensures Run(r, cpu, [0x08] + cs).2 == []
  {
    var (r1, cpu1, ev) := Step(r, cpu, 0x08);
    assert ([0x08] + cs)[1..] == cs;
    NothingWithoutSync(r1, cpu1, cs);
  }
}
