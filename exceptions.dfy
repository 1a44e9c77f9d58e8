/**
 * Exception nesting and time accounting for the RTOS view: one record per
 * exception number, the exception now running, and on each exit the time
 * spent in it (less the time nested exceptions stole from it).
 */
module Exceptions {
  import opened Bytes

  /** `MAX_EXCEPTIONS`. */
  const MAX_EXCEPTIONS: nat := 512

  /** `NO_EXCEPTION`: no exception is running. */
  const NO_EXCEPTION: nat := 0xFFFF_FFFF

  /** `struct exceptionRecord`; times are the signed 64-bit timestamps of the trace, as integers. */
  datatype Record = Record(visits: nat, totalTime: int, minTime: int, maxTime: int, entryTime: int,
                           maxWallTime: int, thisTime: int, stealTime: int, prev: nat, maxDepth: nat)

  /** A record as `memset` leaves it. */
  const ZERO: Record := Record(0, 0, 0, 0, 0, 0, 0, 0, 0, 0)

  /** An exception number that can be followed: none, or a record index. */
  predicate Link(e: nat)
  {
    e == NO_EXCEPTION || e < MAX_EXCEPTIONS
  }

  /** `exceptionGetName`'s names for the system exceptions 0 to 15. */
  const NAMES: seq<string> :=
    ["None", "Reset", "NMI", "HardFault", "MemManage", "BusFault", "UsageFault", "Reserved",
     "Reserved", "Reserved", "Reserved", "SVCall", "DebugMonitor", "Reserved", "PendSV", "SysTick"]

  /**
   * `exceptionGetName`: the system exceptions by name, and from 16 up
   * "IRQ n" with n the interrupt number, printed with `%d` (so a number of
   * 2^31 and more comes out negative).
   */
  function GetName(exceptionNum: nat): (s: string)
    requires exceptionNum < 0x1_0000_0000
    ensures exceptionNum < 16 ==> s == NAMES[exceptionNum]
    ensures exceptionNum >= 16 ==> 5 <= |s| <= 15 && s[..4] == "IRQ "
  {
    if exceptionNum < 16 then NAMES[exceptionNum]
    else
      var irq := exceptionNum - 16;
      if irq < 0x8000_0000 then DecimalBound(irq); "IRQ " + Decimal(irq)
      else DecimalBound(0x1_0000_0000 - irq); "IRQ -" + Decimal(0x1_0000_0000 - irq)
  }

  /** The interrupt number can be read back from the name of any interrupt below 2^31 + 16. */
  lemma IrqNameReads(exceptionNum: nat)
    requires 16 <= exceptionNum < 0x8000_0010
    ensures DecimalValue(GetName(exceptionNum)[4..]) == exceptionNum - 16
  {
    var s := GetName(exceptionNum);
    assert s[4..] == Decimal(exceptionNum - 16);
    DecimalReads(exceptionNum - 16);
  }

  /** The record of an exception just entered on top of `active`, whose record is `top` (`exceptionEnter`). */
  function Entered(r: Record, active: nat, top: Record, timestamp: int): (r': Record)
    ensures r'.prev == active && r'.entryTime == timestamp && r'.thisTime == 0 && r'.stealTime == 0
    ensures r'.maxDepth >= r.maxDepth && (active != NO_EXCEPTION ==> r'.maxDepth >= top.maxDepth + 1)
    ensures r' == r.(prev := active, entryTime := timestamp, thisTime := 0, stealTime := 0, maxDepth := r'.maxDepth)
  {
    var depth := if active != NO_EXCEPTION && r.maxDepth < top.maxDepth + 1 then top.maxDepth + 1 else r.maxDepth;
    r.(prev := active, entryTime := timestamp, thisTime := 0, stealTime := 0, maxDepth := depth)
  }

  /**
   * The record of the exception that ends at `timestamp` (`exceptionExit`):
   * one more visit, the time in it less the time stolen added to the total,
   * and the minimum (where 0 means none yet) and maxima brought up to date.
   */
  function Exited(r: Record, timestamp: int): (r': Record)
    ensures var exTime := timestamp - r.entryTime - r.stealTime;
            && r'.visits == r.visits + 1 && r'.thisTime == exTime && r'.totalTime == r.totalTime + exTime
            && r'.minTime <= exTime <= r'.maxTime
            && r'.maxTime >= r.maxTime && r'.maxWallTime >= r.maxWallTime && r'.maxWallTime >= timestamp - r.entryTime
            && (r.minTime != 0 && r.minTime <= exTime ==> r'.minTime == r.minTime)
            && r'.prev == r.prev && r'.entryTime == r.entryTime && r'.stealTime == r.stealTime && r'.maxDepth == r.maxDepth
  {
    var exTime := timestamp - r.entryTime - r.stealTime;
    var wallTime := timestamp - r.entryTime;
    r.(visits := r.visits + 1, totalTime := r.totalTime + exTime, thisTime := exTime,
       minTime := if r.minTime > exTime || r.minTime == 0 then exTime else r.minTime,
       maxTime := if r.maxTime < exTime then exTime else r.maxTime,
       maxWallTime := if r.maxWallTime < wallTime then wallTime else r.maxWallTime)
  }

  /** `struct exceptionStats`. */
  class Stats {
    const er: array<Record>
    var exceptionActive: nat
    var timeStamp: int
    var lastReportTicks: int

    /** One record per exception number, and every link (the running exception, each `prev`) leads to a record or to none. */
    ghost predicate Valid()
      reads this, er
    {
      er.Length == MAX_EXCEPTIONS && Link(exceptionActive) && forall i :: 0 <= i < MAX_EXCEPTIONS ==> Link(er[i].prev)
    }

    /** `exceptionInit`: every record zero and nothing running. */
    constructor ()
      ensures Valid() && fresh(er) && exceptionActive == NO_EXCEPTION
      ensures forall i :: 0 <= i < MAX_EXCEPTIONS ==> er[i] == ZERO
      ensures timeStamp == 0 && lastReportTicks == 0
    {
      er := new Record[MAX_EXCEPTIONS](_ => ZERO);
      exceptionActive, timeStamp, lastReportTicks := NO_EXCEPTION, 0, 0;
    }

    /** `exceptionIsActive`. */
    function IsActive(): (b: bool)
      reads this
      ensures b <==> exceptionActive != NO_EXCEPTION
    {
      exceptionActive != NO_EXCEPTION
    }

    /**
     * `exceptionEnter`: an exception number out of range is ignored;
     * otherwise its record remembers what was running and when it started,
     * and it becomes the running exception.
     */
    method Enter(exceptionNum: nat, timestamp: int)
      requires Valid()
      modifies this, er
      ensures Valid() && timeStamp == old(timeStamp) && lastReportTicks == old(lastReportTicks)
      ensures exceptionNum >= MAX_EXCEPTIONS ==> exceptionActive == old(exceptionActive) && er[..] == old(er[..])
      ensures exceptionNum < MAX_EXCEPTIONS ==>
                && exceptionActive == exceptionNum
                && er[..] == old(er[..])[exceptionNum := Entered(old(er[exceptionNum]), old(exceptionActive),
                                                                 if old(exceptionActive) == NO_EXCEPTION then ZERO else old(er[exceptionActive]), timestamp)]
    {
      if exceptionNum >= MAX_EXCEPTIONS {
        return;
      }
      var top := if exceptionActive == NO_EXCEPTION then ZERO else er[exceptionActive];
      er[exceptionNum] := Entered(er[exceptionNum], exceptionActive, top, timestamp);
      exceptionActive := exceptionNum;
    }

    /**
     * `exceptionExit`: with nothing running nothing happens.  Otherwise the
     * running exception's record is closed, the exception it interrupted runs
     * again, and the whole time the ending one took is added to the time
     * stolen from it.
     */
    method Exit(timestamp: int)
      requires Valid()
      modifies this, er
      ensures Valid() && timeStamp == old(timeStamp) && lastReportTicks == old(lastReportTicks)
      ensures old(exceptionActive) == NO_EXCEPTION ==> exceptionActive == NO_EXCEPTION && er[..] == old(er[..])
      ensures old(exceptionActive) != NO_EXCEPTION ==>
                var e := old(exceptionActive);
                var closed := old(er[..])[e := Exited(old(er[e]), timestamp)];
                var p := old(er[e]).prev;
                var wallTime := timestamp - old(er[e]).entryTime;
                && exceptionActive == p
                && er[..] == if p == NO_EXCEPTION then closed else closed[p := closed[p].(stealTime := closed[p].stealTime + wallTime)]
    {
      if exceptionActive == NO_EXCEPTION {
        return;
      }
      var e := exceptionActive;
      var r := er[e];
      er[e] := Exited(r, timestamp);
      var wallTime := timestamp - r.entryTime;
      exceptionActive := r.prev;
      if exceptionActive != NO_EXCEPTION {
        er[exceptionActive] := er[exceptionActive].(stealTime := er[exceptionActive].stealTime + wallTime);
      }
    }

    /** `exceptionReset`: every record zero and nothing running; the timestamps are kept. */
    method Reset()
      requires Valid()
      modifies this, er
      ensures Valid() && exceptionActive == NO_EXCEPTION
      ensures forall i :: 0 <= i < MAX_EXCEPTIONS ==> er[i] == ZERO
      ensures timeStamp == old(timeStamp) && lastReportTicks == old(lastReportTicks)
    {
      for e := 0 to MAX_EXCEPTIONS
        invariant forall i :: 0 <= i < e ==> er[i] == ZERO
        invariant forall i :: 0 <= i < MAX_EXCEPTIONS ==> Link(er[i].prev)
        invariant Link(exceptionActive)
        invariant timeStamp == old(timeStamp) && lastReportTicks == old(lastReportTicks)
      {
        er[e] := ZERO;
      }
      exceptionActive := NO_EXCEPTION;
    }
  }

  /** Entering an exception and leaving it again makes the interrupted exception the running one once more. */
  lemma EnterExitRestores(r: Record, active: nat, top: Record, t0: int, t1: int)
    ensures Exited(Entered(r, active, top, t0), t1).prev == active
    ensures Exited(Entered(r, active, top, t0), t1).thisTime == t1 - t0
  {
  }
}
