/**
 * The MTB (Micro Trace Buffer) engine: the trace is a series of word pairs, a
 * branch source and its destination.  Bit 0 of the source marks an exception
 * entry, bit 0 of the destination the start of trace; the instructions between
 * one destination and the next source ran in a straight line.
 */
module TraceMtb {
  import opened Bytes
  import opened TraceCpu

  datatype MtbState = MtbUnsynced | MtbIdle

  /** `x & 0xFFFFFFFE` on a value of up to 64 bits: the low word with bit 0 cleared. */
  function ClearBit0(x: nat): (r: nat)
    ensures r < TWO_32 && r % 2 == 0
    ensures x < TWO_32 ==> r == x - x % 2
  {
    x % TWO_32 - x % 2
  }

  /** Where linear execution resumes: the destination with bit 0 taken from the source. */
  function NextAddr(source: u32, dest: u32): (r: nat)
    ensures r < TWO_32 && r % 2 == source % 2 && r - r % 2 == dest - dest % 2
  {
    dest - dest % 2 + source % 2
  }

  /** The first pair after losing sync: only its destination matters, as where execution resumes. */
  function FirstPair(cpu: Cpu, source: u32, dest: u32): (r: Cpu)
    ensures r.nextAddr == NextAddr(source, dest)
    ensures r.changeRecord == cpu.changeRecord + (if dest % 2 == 1 then {TraceStart} else {})
    ensures r == cpu.(nextAddr := r.nextAddr, changeRecord := r.changeRecord)
  {
    var cr := if dest % 2 == 1 then cpu.changeRecord + {TraceStart} else cpu.changeRecord;
    cpu.(nextAddr := NextAddr(source, dest), changeRecord := cr)
  }

  /** A pair while synced: the straight-line run from the previous destination to this source. */
  function LinearPair(cpu: Cpu, source: u32, dest: u32): (r: Cpu)
    ensures r.addr == ClearBit0(cpu.nextAddr) && r.nextAddr == NextAddr(source, dest)
    ensures r.toAddr == source - source % 2 && r.exception == 0
    ensures Address in r.changeRecord && Linear in r.changeRecord
    ensures ExEntry in r.changeRecord <==> ExEntry in cpu.changeRecord || cpu.nextAddr % 2 == 1
    ensures TraceStart in r.changeRecord <==> TraceStart in cpu.changeRecord || dest % 2 == 1
    ensures cpu.changeRecord <= r.changeRecord <= cpu.changeRecord + {Address, Linear, ExEntry, TraceStart}
  {
    var cr1 := if cpu.nextAddr % 2 == 1 then cpu.changeRecord + {ExEntry} else cpu.changeRecord;
    var cr2 := if dest % 2 == 1 then cr1 + {TraceStart} else cr1;
    cpu.(addr := ClearBit0(cpu.nextAddr), nextAddr := NextAddr(source, dest),
         toAddr := source - source % 2, exception := 0, changeRecord := cr2 + {Address, Linear})
  }

  /** `_pumpActionPair`: one source/destination pair; the answer says whether there is something to report. */
  function PairStep(p: MtbState, cpu: Cpu, source: u32, dest: u32): (res: (MtbState, Cpu, bool))
    ensures res.0 == MtbIdle && (res.2 <==> p == MtbIdle)
  {
    match p
    case MtbUnsynced => (MtbIdle, FirstPair(cpu, source, dest), false)
    case MtbIdle => (MtbIdle, LinearPair(cpu, source, dest), true)
  }

  /**
   * Two pairs in a row: the second reports the run that starts at the first
   * destination (bit 0 cleared) and ends at the second source, and flags an
   * exception entry exactly when the first source had bit 0 set.
   */
  lemma LinearRun(p: MtbState, cpu: Cpu, s1: u32, d1: u32, s2: u32, d2: u32)
    requires ExEntry !in cpu.changeRecord
    ensures var (p1, c1, _) := PairStep(p, cpu, s1, d1);
            var (_, c2, r2) := PairStep(p1, c1, s2, d2);
            r2 && c2.addr == d1 - d1 % 2 && c2.toAddr == s2 - s2 % 2
            && (ExEntry in c2.changeRecord <==> s1 % 2 == 1 || (p == MtbIdle && cpu.nextAddr % 2 == 1))
  {
    var (p1, c1, _) := PairStep(p, cpu, s1, d1);
    assert c1.nextAddr % 2 == s1 % 2;
  }

  /** `struct MTBDecodeState`. */
  class Engine {
    var p: MtbState

    /** `MTBDecoderPumpCreate`: zero-filled, so not yet synced. */
    constructor ()
      ensures p == MtbUnsynced && !Synced()
    {
      p := MtbUnsynced;
    }

    /** `_synced`. */
    function Synced(): (b: bool)
      reads this
      ensures b <==> p != MtbUnsynced
    {
      p != MtbUnsynced
    }

    /** `_forceSync`: afterwards `Synced` answers `isSynced`. */
    method ForceSync(isSynced: bool)
      modifies this
      ensures Synced() == isSynced
    {
      p := if isSynced then MtbIdle else MtbUnsynced;
    }

    /** `_pumpActionPair`, updating the engine in place and the processor state through `cpu`. */
    method ActionPair(cpu: Cpu, source: u32, dest: u32) returns (cpu': Cpu, report: bool)
      modifies this
      ensures (p, cpu', report) == PairStep(old(p), cpu, source, dest)
    {
      var cr := cpu.changeRecord;
      match p {
        case MtbUnsynced =>
          if dest % 2 == 1 {
            cr := cr + {TraceStart};
          }
          cpu' := cpu.(nextAddr := NextAddr(source, dest), changeRecord := cr);
          report := false;
        case MtbIdle =>
          if cpu.nextAddr % 2 == 1 {
            cr := cr + {ExEntry};
          }
          if dest % 2 == 1 {
            cr := cr + {TraceStart};
          }
          cpu' := cpu.(addr := ClearBit0(cpu.nextAddr), nextAddr := NextAddr(source, dest),
                       toAddr := source - source % 2, exception := 0, changeRecord := cr + {Address, Linear});
          report := true;
      }
      p := MtbIdle;
    }
  }
}
