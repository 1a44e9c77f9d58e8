/**
 * The instruction-trace decoder front end: it holds the processor state and
 * the statistics, picks the engine for the protocol in use, feeds it bytes
 * (or, for MTB, pairs of words) and answers questions about what changed.
 */
module TraceDecoder {
  import opened Bytes
  import opened TraceCpu
  import TraceEtm35
  import TraceMtb
  import TraceEtm4
  import TraceEtm35Run
  import TraceEtm4Run

  /** `enum TRACEprotocol`. */
  datatype Protocol = Etm35 | Mtb | Etm4

  /** `struct TRACEDecoderStats`. */
  datatype Stats = Stats(lostSyncCount: nat, syncCount: nat)

  /** The names `TRACEExceptionName` hands out for exception numbers 0 to 15, and for every interrupt. */
  const EXCEPTION_NAMES: seq<string> :=
    ["???", "PE Reset", "NMI", "HardFault", "MemManage", "BusFault", "UsageFault", "SecureFault",
     "???", "???", "???", "SVC", "Debug Monitor", "???", "PendSV", "SysTick", "IRQ"]

  /**
   * `TRACEExceptionName`: the system exceptions by name, the reserved numbers
   * as "???", and every number from 16 up (an external interrupt) as "IRQ".
   */
  function ExceptionName(n: nat): (s: string)
    ensures s == "IRQ" <==> n >= 16
    ensures s == "???" <==> n in {0, 8, 9, 10, 13}
  {
    EXCEPTION_NAMES[if n < 16 then n else 16]
  }

  /**
   * The MTB engine fed from a buffer: each eight bytes are a source and a
   * destination word, little-endian; fewer than eight bytes left are not
   * looked at.
   */
  function MtbRun(p: TraceMtb.MtbState, cpu: Cpu, buf: seq<byte>): (res: (TraceMtb.MtbState, Cpu, seq<Cpu>))
    ensures |res.2| <= |buf| / 8
    decreases |buf|
  {
    if |buf| < 8 then (p, cpu, [])
    else
      var (p1, cpu1, ev) := TraceMtb.PairStep(p, cpu, LE32(buf[0], buf[1], buf[2], buf[3]), LE32(buf[4], buf[5], buf[6], buf[7]));
      var (p2, cpu2, out) := MtbRun(p1, cpu1, buf[8..]);
      (p2, cpu2, (if ev then [cpu1] else []) + out)
  }

  /** A trailing part of fewer than eight bytes makes no difference to the MTB engine. */
  lemma {:induction false} MtbIgnoresRemainder(p: TraceMtb.MtbState, cpu: Cpu, buf: seq<byte>)
    ensures MtbRun(p, cpu, buf) == MtbRun(p, cpu, buf[..|buf| - |buf| % 8])
    decreases |buf|
  {
    var n := |buf| - |buf| % 8;
    var cut := buf[..n];
    if |buf| >= 8 {
      var rest := buf[8..];
      assert |rest| % 8 == |buf| % 8 by {
        DivModUnique(|buf|, 8, |rest| / 8 + 1, |rest| % 8);
      }
      MtbIgnoresRemainder(TraceMtb.PairStep(p, cpu, LE32(buf[0], buf[1], buf[2], buf[3]), LE32(buf[4], buf[5], buf[6], buf[7])).0,
                          TraceMtb.PairStep(p, cpu, LE32(buf[0], buf[1], buf[2], buf[3]), LE32(buf[4], buf[5], buf[6], buf[7])).1, rest);
      assert cut[8..] == rest[..|rest| - |rest| % 8];
      assert cut[0] == buf[0] && cut[1] == buf[1] && cut[2] == buf[2] && cut[3] == buf[3];
      assert cut[4] == buf[4] && cut[5] == buf[5] && cut[6] == buf[6] && cut[7] == buf[7];
    } else {
      assert n == 0;
    }
  }

  /** The first eight bytes of a buffer are one pair step, and the rest is run from where it leaves the engine. */
  lemma MtbRunFirst(p: TraceMtb.MtbState, cpu: Cpu, buf: seq<byte>, p1: TraceMtb.MtbState, cpu1: Cpu, ev: bool)
    requires |buf| >= 8
    requires (p1, cpu1, ev) == TraceMtb.PairStep(p, cpu, LE32(buf[0], buf[1], buf[2], buf[3]), LE32(buf[4], buf[5], buf[6], buf[7]))
    ensures var rest := MtbRun(p1, cpu1, buf[8..]);
            MtbRun(p, cpu, buf).0 == rest.0 && MtbRun(p, cpu, buf).1 == rest.1
            && MtbRun(p, cpu, buf).2 == if ev then [cpu1] + rest.2 else rest.2
  {
    if !ev {
      assert [] + MtbRun(p1, cpu1, buf[8..]).2 == MtbRun(p1, cpu1, buf[8..]).2;
    }
  }

  /** One byte through the ETMv3.5 engine, in step with `TraceEtm35Run.Run` over the bytes from there on. */
  method Etm35Byte(e: TraceEtm35.Engine, cpu: Cpu, cs: seq<byte>) returns (cpu': Cpu, ev: bool)
    requires TraceEtm35.Inv(e.State()) && cs != []
    modifies e
    ensures TraceEtm35.Inv(e.State())
    ensures var whole, rest := TraceEtm35Run.Run(old(e.State()), cpu, cs), TraceEtm35Run.Run(e.State(), cpu', cs[1..]);
            whole.0 == rest.0 && whole.1 == rest.1 && whole.2 == if ev then [cpu'] + rest.2 else rest.2
  {
    ghost var r0 := e.State();
    cpu', ev := e.Pump(cpu, cs[0]);
    TraceEtm35Run.RunFirst(r0, cpu, cs, e.State(), cpu', ev);
  }

  /** One byte through the ETMv4 engine, in step with `TraceEtm4Run.Run` over the bytes from there on. */
  method Etm4Byte(e: TraceEtm4.Engine, cpu: Cpu, cs: seq<byte>) returns (cpu': Cpu, ev: bool)
    requires TraceEtm4.Inv(e.State()) && cs != []
    modifies e, e.q
    ensures TraceEtm4.Inv(e.State())
    ensures var whole, rest := TraceEtm4Run.Run(old(e.State()), cpu, cs), TraceEtm4Run.Run(e.State(), cpu', cs[1..]);
            whole.0 == rest.0 && whole.1 == rest.1 && whole.2 == if ev then [cpu'] + rest.2 else rest.2
  {
    ghost var r0 := e.State();
    cpu', ev := e.Pump(cpu, cs[0]);
    TraceEtm4Run.RunFirst(r0, cpu, cs, e.State(), cpu', ev);
  }

  /** Sequence concatenation regrouped, for the report lists. */
  lemma Regroup<T>(a: seq<T>, b: seq<T>, c: seq<T>)
    ensures a + (b + c) == (a + b) + c
  {
  }

  /** The ETMv3.5 engine fed a whole buffer, a byte at a time. */
  method Etm35Bytes(e: TraceEtm35.Engine, cpu: Cpu, buf: seq<byte>) returns (cpu': Cpu, reports: seq<Cpu>)
    requires TraceEtm35.Inv(e.State())
    modifies e
    ensures var res := TraceEtm35Run.Run(old(e.State()), cpu, buf);
            e.State() == res.0 && cpu' == res.1 && reports == res.2
  {
    ghost var whole := TraceEtm35Run.Run(e.State(), cpu, buf);
    var i := 0;
    cpu', reports := cpu, [];
    assert buf[i..] == buf;
    while i < |buf|
      invariant 0 <= i <= |buf| && TraceEtm35.Inv(e.State())
      invariant var rest := TraceEtm35Run.Run(e.State(), cpu', buf[i..]);
                whole.0 == rest.0 && whole.1 == rest.1 && whole.2 == reports + rest.2
    {
      var s := buf[i..];
      assert s[1..] == buf[i + 1..];
      var cpu1, ev := Etm35Byte(e, cpu', s);
      if ev {
        Regroup(reports, [cpu1], TraceEtm35Run.Run(e.State(), cpu1, s[1..]).2);
        reports := reports + [cpu1];
      }
      cpu', i := cpu1, i + 1;
    }
  }

  /** The MTB engine fed a whole buffer, eight bytes at a time. */
  method MtbPairs(e: TraceMtb.Engine, cpu: Cpu, buf: seq<byte>) returns (cpu': Cpu, reports: seq<Cpu>)
    modifies e
    ensures var res := MtbRun(old(e.p), cpu, buf);
            e.p == res.0 && cpu' == res.1 && reports == res.2
  {
    ghost var whole := MtbRun(e.p, cpu, buf);
    var i := 0;
    cpu', reports := cpu, [];
    assert buf[i..] == buf;
    while |buf| - i > 7
      invariant 0 <= i <= |buf|
      invariant var rest := MtbRun(e.p, cpu', buf[i..]);
                whole.0 == rest.0 && whole.1 == rest.1 && whole.2 == reports + rest.2
    {
      var s := buf[i..];
      assert s[8..] == buf[i + 8..];
      ghost var p0 := e.p;
      var cpu1, ev := e.ActionPair(cpu', LE32(s[0], s[1], s[2], s[3]), LE32(s[4], s[5], s[6], s[7]));
      MtbRunFirst(p0, cpu', s, e.p, cpu1, ev);
      if ev {
        Regroup(reports, [cpu1], MtbRun(e.p, cpu1, s[8..]).2);
        reports := reports + [cpu1];
      }
      cpu', i := cpu1, i + 8;
    }
  }

  /** The ETMv4 engine fed a whole buffer, a byte at a time. */
  method Etm4Bytes(e: TraceEtm4.Engine, cpu: Cpu, buf: seq<byte>) returns (cpu': Cpu, reports: seq<Cpu>)
    requires TraceEtm4.Inv(e.State())
    modifies e, e.q
    ensures var res := TraceEtm4Run.Run(old(e.State()), cpu, buf);
            e.State() == res.0 && cpu' == res.1 && reports == res.2
  {
    ghost var whole := TraceEtm4Run.Run(e.State(), cpu, buf);
    var i := 0;
    cpu', reports := cpu, [];
    assert buf[i..] == buf;
    while i < |buf|
      invariant 0 <= i <= |buf| && TraceEtm4.Inv(e.State())
      invariant var rest := TraceEtm4Run.Run(e.State(), cpu', buf[i..]);
                whole.0 == rest.0 && whole.1 == rest.1 && whole.2 == reports + rest.2
    {
      var s := buf[i..];
      assert s[1..] == buf[i + 1..];
      var cpu1, ev := Etm4Byte(e, cpu', s);
      if ev {
        Regroup(reports, [cpu1], TraceEtm4Run.Run(e.State(), cpu1, s[1..]).2);
        reports := reports + [cpu1];
      }
      cpu', i := cpu1, i + 1;
    }
  }

  /** `struct TRACEDecoder`: the statistics, the processor state, and the engine of the protocol in use. */
  class Decoder {
    var stats: Stats
    var cpu: Cpu
    const protocol: Protocol
    const etm35: TraceEtm35.Engine?
    const mtb: TraceMtb.Engine?
    const etm4: TraceEtm4.Engine?

    /** The engine for the protocol is there, and keeps its own invariant. */
    ghost predicate Valid()
      reads this, etm35, etm4, if etm4 != null then {etm4.q} else {}
    {
      match protocol
      case Etm35 => etm35 != null && TraceEtm35.Inv(etm35.State())
      case Mtb => mtb != null
      case Etm4 => etm4 != null && TraceEtm4.Inv(etm4.State())
    }

    /**
     * `TRACEDecoderInit`: zero statistics, a zero processor state but for an
     * unknown address and cycle count, and a new engine for the protocol,
     * told which branch address encoding is in use when it has the choice.
     */
    constructor (protocol: Protocol, usingAltAddrEncodeSet: bool)
      ensures Valid() && this.protocol == protocol && !IsSynced()
      ensures stats == Stats(0, 0) && cpu == INIT_CPU
      ensures protocol == Etm35 ==> etm35.State() == TraceEtm35.INIT.(usingAltAddrEncode := usingAltAddrEncodeSet)
      ensures protocol == Mtb ==> mtb.p == TraceMtb.MtbUnsynced
      ensures protocol == Etm4 ==> etm4.State() == TraceEtm4.INIT
    {
      stats, cpu := Stats(0, 0), INIT_CPU;
      this.protocol := protocol;
      match protocol {
        case Etm35 =>
          var e := new TraceEtm35.Engine();
          e.SetAltAddrEncode(usingAltAddrEncodeSet);
          etm35, mtb, etm4 := e, null, null;
        case Mtb =>
          var e := new TraceMtb.Engine();
          etm35, mtb, etm4 := null, e, null;
        case Etm4 =>
          var e := new TraceEtm4.Engine();
          etm35, mtb, etm4 := null, null, e;
      }
    }

    /** `TRACEDecoderIsSynced`: what the engine says. */
    function IsSynced(): (b: bool)
      requires Valid()
      reads this, etm35, mtb, etm4, if etm4 != null then {etm4.q} else {}
      ensures protocol == Etm35 ==> (b <==> etm35.State().p != TraceEtm35.Unsynced)
      ensures protocol == Mtb ==> (b <==> mtb.p != TraceMtb.MtbUnsynced)
      ensures protocol == Etm4 ==> (b <==> etm4.p != TraceEtm4.Unsynced)
    {
      match protocol
      case Etm35 => etm35.Synced()
      case Mtb => mtb.Synced()
      case Etm4 => etm4.Synced()
    }

    /** `TRACEDecoderZeroStats`. */
    method ZeroStats()
      modifies this
      ensures stats == Stats(0, 0) && cpu == old(cpu)
    {
      stats := Stats(0, 0);
    }

    /** `TRACEStateChanged`: whether flag `c` was raised; the flag is lowered and nothing else changes. */
    method StateChanged(c: Change) returns (b: bool)
      modifies this
      ensures (b, cpu.changeRecord) == TraceCpu.StateChanged(old(cpu.changeRecord), c)
      ensures cpu == old(cpu).(changeRecord := cpu.changeRecord) && stats == old(stats)
    {
      b := c in cpu.changeRecord;
      cpu := cpu.(changeRecord := cpu.changeRecord - {c});
    }

    /**
     * `TRACEDecoderForceSync`: a forced sync always counts as a sync; a
     * forced loss of sync counts only when the engine was synced.  The
     * engine is then put in the state asked for.
     */
    method ForceSync(isSynced: bool)
      requires Valid()
      modifies this, etm35, mtb, etm4
      ensures Valid() && IsSynced() == isSynced && cpu == old(cpu)
      ensures isSynced ==> stats == old(stats).(syncCount := old(stats).syncCount + 1)
      ensures !isSynced ==> stats == old(stats).(lostSyncCount := old(stats).lostSyncCount + if old(IsSynced()) then 1 else 0)
      ensures protocol == Etm35 ==> etm35.State() == TraceEtm35.ForceSync(old(etm35.State()), isSynced)
      ensures protocol == Etm4 ==> etm4.State() == TraceEtm4.ForceSync(old(etm4.State()), isSynced)
    {
      if isSynced {
        stats := stats.(syncCount := stats.syncCount + 1);
      } else if IsSynced() {
        stats := stats.(lostSyncCount := stats.lostSyncCount + 1);
      }
      match protocol {
        case Etm35 => etm35.ForceSyncTo(isSynced);
        case Mtb => mtb.ForceSync(isSynced);
        case Etm4 => etm4.ForceSyncTo(isSynced);
      }
    }

    /**
     * `TRACEDecoderPump`: the buffer goes through the engine, a byte at a
     * time or eight bytes at a time for MTB.  The answer lists, for every
     * call of the callback, the processor state it would see.
     */
    method Pump(buf: seq<byte>) returns (reports: seq<Cpu>)
      requires Valid()
      modifies this, etm35, mtb, etm4, if etm4 != null then {etm4.q} else {}
      ensures Valid() && stats == old(stats)
      ensures protocol == Etm35 ==>
                var res := TraceEtm35Run.Run(old(etm35.State()), old(cpu), buf);
                etm35.State() == res.0 && cpu == res.1 && reports == res.2
      ensures protocol == Mtb ==>
                var res := MtbRun(old(mtb.p), old(cpu), buf);
                mtb.p == res.0 && cpu == res.1 && reports == res.2
      ensures protocol == Etm4 ==>
                var res := TraceEtm4Run.Run(old(etm4.State()), old(cpu), buf);
                etm4.State() == res.0 && cpu == res.1 && reports == res.2
    {
      match protocol {
        case Etm35 => cpu, reports := Etm35Bytes(etm35, cpu, buf);
        case Mtb => cpu, reports := MtbPairs(mtb, cpu, buf);
        case Etm4 => cpu, reports := Etm4Bytes(etm4, cpu, buf);
      }
    }
  }
}
