/**
 * RTOS thread accounting: each DWT match names the thread that has just been
 * scheduled, and the 32-bit cycle counter carried in the ITM timestamp
 * charges the time since the previous switch to the thread that was
 * running.  Per window, each thread's share of the CPU is worked out and its
 * maximum kept; the window counters are then reset.
 *
 * The thread table is a hash whose iteration order is the order of
 * insertion; it is modelled as a sequence of records with distinct control
 * block addresses, in that order.
 */
module RtosApi {
  import opened Bytes

  const CYCLES: nat := 0x1_0000_0000

  /** `struct rtosThread`, without the fields only the reporting code reads. */
  datatype Thread = Thread(tcbAddr: u32, name: string, entryFuncName: Option<string>, priority: int,
                           accumulatedTimeUs: nat, accumulatedCycles: nat, lastScheduled: nat,
                           contextSwitches: nat, windowSwitches: nat, maxCpuPercent: nat)

  /**
   * What reading a new thread's details from the target gave: no telnet
   * connection (the thread is "UNNAMED"), no reader for this RTOS
   * ("UNKNOWN"), or the reader's result code with the name and priority it
   * read; a negative result means the thread is not tracked.
   */
  datatype Probe = Offline | NoReader | Read(result: int, readName: string, readPriority: int)

  /** Control block addresses are distinct. */
  predicate Distinct(ts: seq<Thread>)
  {
    forall i, j :: 0 <= i < j < |ts| ==> ts[i].tcbAddr != ts[j].tcbAddr
  }

  /** `HASH_FIND_INT` on the thread table: the position of the thread with this address. */
  function Find(ts: seq<Thread>, tcb: u32): (r: Option<nat>)
    ensures r.Some? ==> r.value < |ts| && ts[r.value].tcbAddr == tcb
    ensures r.None? ==> forall i :: 0 <= i < |ts| ==> ts[i].tcbAddr != tcb
  {
    if ts == [] then None
    else if ts[|ts| - 1].tcbAddr == tcb then Some(|ts| - 1)
    else Find(ts[..|ts| - 1], tcb)
  }

  /**
   * The cycles between two readings of the 32-bit counter, allowing for one
   * wrap-around: the difference itself, or what was left to the top plus
   * what has been counted since.
   */
  function Delta(last: u32, current: u32): (d: u32)
    ensures d == (current - last) % CYCLES
  {
    if current >= last then current - last else (0xFFFF_FFFF - last) + current + 1
  }

  /** Only a positive delta below half the counter range is credited (a larger one is taken as a counter gone backwards). */
  predicate Creditable(delta: nat)
  {
    0 < delta < 0x8000_0000
  }

  /** A reading up to half the counter range behind the last one is not credited; one that moved forward by less is. */
  lemma CreditWindow(last: u32, current: u32)
    ensures last > current && last - current <= 0x8000_0000 ==> !Creditable(Delta(last, current))
    ensures current > last && current - last < 0x8000_0000 ==> Creditable(Delta(last, current))
    ensures current == last ==> !Creditable(Delta(last, current))
  {
  }

  /**
   * The microseconds of `delta` cycles as written: the cycles divided by the
   * whole number of cycles per microsecond, 0 with no frequency known, and
   * `None` where that divisor is 0 (a frequency below 1 MHz divides by zero).
   */
  function DeltaTimeAsWritten(delta: nat, cpuFreq: u32): (r: Option<nat>)
    ensures r.None? <==> 0 < cpuFreq < 1_000_000
  {
    if cpuFreq > 0 then
      if cpuFreq / 1_000_000 == 0 then None else Some(delta / (cpuFreq / 1_000_000))
    else Some(0)
  }

  /** A half-megahertz clock makes the code as written divide by zero; corrected, 1000 cycles are 2000 microseconds. */
  lemma SlowClockDividesByZero()
    ensures DeltaTimeAsWritten(1, 500_000).None?
    ensures DeltaTime(1000, 500_000) == 2000
  {
    DivModUnique(1000 * 1_000_000, 500_000, 2000, 0);
  }

  /**
   * The microseconds of `delta` cycles: the whole number of cycles per
   * microsecond divides them from 1 MHz up, and below 1 MHz each cycle is
   * `1000000 / cpuFreq` microseconds, rounded down over the whole delta.
   */
  function DeltaTime(delta: nat, cpuFreq: u32): (us: nat)
    ensures cpuFreq >= 1_000_000 ==> us <= delta && us * (cpuFreq / 1_000_000) <= delta < (us + 1) * (cpuFreq / 1_000_000)
    ensures 0 < cpuFreq < 1_000_000 ==> us >= delta && us * cpuFreq <= delta * 1_000_000 < (us + 1) * cpuFreq
    ensures cpuFreq == 0 ==> us == 0
    ensures DeltaTimeAsWritten(delta, cpuFreq).Some? ==> us == DeltaTimeAsWritten(delta, cpuFreq).value
  {
    if cpuFreq >= 1_000_000 then PerMicrosecond(delta, cpuFreq / 1_000_000)
    else if cpuFreq > 0 then SlowQuotient(delta, cpuFreq)
    else 0
  }

  /** `delta` cycles at `k` cycles a microsecond, rounded down. */
  function PerMicrosecond(delta: nat, k: nat): (us: nat)
    requires k > 0
    ensures us == delta / k && us <= delta && us * k <= delta < (us + 1) * k
  {
    var q := delta / k;
    DivFacts(delta, k);
    q
  }

  /** `delta` cycles below 1 MHz, rounded down: a cycle lasts at least a microsecond. */
  function SlowQuotient(delta: nat, f: nat): (us: nat)
    requires 0 < f < 1_000_000
    ensures us >= delta && us * f <= delta * 1_000_000 < (us + 1) * f
  {
    var q := delta * 1_000_000 / f;
    DivFacts(delta * 1_000_000, f);
    MulMono(delta, f, 1_000_000);
    QuotientAtLeast(q, f, delta);
    q
  }

  /** A quotient whose successor overshoots `delta` copies of the divisor is at least `delta`. */
  lemma QuotientAtLeast(q: nat, f: nat, delta: nat)
    requires f > 0 && delta * f < (q + 1) * f
    ensures q >= delta
  {
    if q < delta {
      MulMono(f, q + 1, delta);
    }
  }

  /** The quotient of a division, bracketed. */
  lemma DivFacts(n: nat, k: nat)
    requires k > 0
    ensures n / k <= n && (n / k) * k <= n < (n / k + 1) * k
  {
    DivModUnique(n, k, n / k, n % k);
    MulMono(n / k, 1, k);
  }

  /** A new thread's record as the handler creates it. */
  function Fresh(tcb: u32, probe: Probe): (t: Thread)
    ensures t.tcbAddr == tcb && t.accumulatedTimeUs == 0 && t.accumulatedCycles == 0
    ensures t.contextSwitches == 0 && t.windowSwitches == 0 && t.maxCpuPercent == 0
    ensures t.name == match probe case Offline => "UNNAMED" case NoReader => "UNKNOWN" case Read(_, n, _) => n
  {
    match probe
    case Offline => Thread(tcb, "UNNAMED", None, 0, 0, 0, 0, 0, 0, 0)
    case NoReader => Thread(tcb, "UNKNOWN", None, 0, 0, 0, 0, 0, 0, 0)
    case Read(_, n, p) => Thread(tcb, n, None, p, 0, 0, 0, 0, 0, 0)
  }

  /** The thread that ran for `delta` cycles charged with them. */
  function Charged(t: Thread, delta: nat, cpuFreq: u32): (t': Thread)
    ensures t'.accumulatedCycles == t.accumulatedCycles + delta
    ensures t'.accumulatedTimeUs == t.accumulatedTimeUs + DeltaTime(delta, cpuFreq)
    ensures t' == t.(accumulatedCycles := t'.accumulatedCycles, accumulatedTimeUs := t'.accumulatedTimeUs)
  {
    t.(accumulatedTimeUs := t.accumulatedTimeUs + DeltaTime(delta, cpuFreq), accumulatedCycles := t.accumulatedCycles + delta)
  }

  /**
   * CPU share in hundredths of a percent as written: the quotient is cut to
   * 32 bits before it is capped at 100%.
   */
  function CpuPctAsWritten(accumulatedUs: nat, windowUs: nat): (p: nat)
    requires windowUs > 0
    ensures p <= 10000
  {
    var q := (accumulatedUs * 10000 / windowUs) % CYCLES;
    if q > 10000 then 10000 else q
  }

  /** A thread charged with far more than its window wraps to a small share in the code as written. */
  lemma CpuPctWraps()
    ensures CpuPctAsWritten(429497, 1) == 2704
    ensures CpuPct(429497, 1) == 10000
  {
  }

  /** CPU share in hundredths of a percent, capped at 100%. */
  function CpuPct(accumulatedUs: nat, windowUs: nat): (p: nat)
    requires windowUs > 0
    ensures p <= 10000
    ensures p == 10000 <==> accumulatedUs >= windowUs
    ensures p < 10000 ==> p * windowUs <= accumulatedUs * 10000 < (p + 1) * windowUs
    ensures accumulatedUs * 10000 / windowUs < CYCLES ==> p == CpuPctAsWritten(accumulatedUs, windowUs)
  {
    QuotientFacts(accumulatedUs, windowUs);
    var q := accumulatedUs * 10000 / windowUs;
    if q > 10000 then 10000 else q
  }

  /** The share's quotient against the cap and the 32-bit cut. */
  lemma QuotientFacts(accumulatedUs: nat, windowUs: nat)
    requires windowUs > 0
    ensures var q := accumulatedUs * 10000 / windowUs;
            && (q >= 10000 <==> accumulatedUs >= windowUs)
            && q * windowUs <= accumulatedUs * 10000 < (q + 1) * windowUs
            && (q < CYCLES ==> q % CYCLES == q)
  {
    var q := accumulatedUs * 10000 / windowUs;
    DivModUnique(accumulatedUs * 10000, windowUs, q, accumulatedUs * 10000 % windowUs);
    if accumulatedUs >= windowUs {
      MulMono(10000, windowUs, accumulatedUs);
      if q < 10000 {
        MulMono(windowUs, q + 1, 10000);
      }
    } else {
      MulMono(10000, accumulatedUs + 1, windowUs);
      if q >= 10000 {
        MulMono(windowUs, 10000, q);
      }
    }
    if q < CYCLES {
      DivModUnique(q, CYCLES, 0, q);
    }
  }

  /** A thread's record after a window: the largest share seen so far. */
  function WithMax(t: Thread, windowUs: nat): (t': Thread)
    requires windowUs > 0
    ensures t'.maxCpuPercent >= t.maxCpuPercent && t'.maxCpuPercent >= CpuPct(t.accumulatedTimeUs, windowUs)
    ensures t'.maxCpuPercent == t.maxCpuPercent || t'.maxCpuPercent == CpuPct(t.accumulatedTimeUs, windowUs)
    ensures t' == t.(maxCpuPercent := t'.maxCpuPercent)
  {
    var pct := CpuPct(t.accumulatedTimeUs, windowUs);
    t.(maxCpuPercent := if pct > t.maxCpuPercent then pct else t.maxCpuPercent)
  }

  /** The microseconds of the threads the RTOS does not call idle. */
  function ActiveUs(ts: seq<Thread>, idle: set<u32>): nat
  {
    if ts == [] then 0
    else ActiveUs(ts[..|ts| - 1], idle) + (if ts[|ts| - 1].tcbAddr in idle then 0 else ts[|ts| - 1].accumulatedTimeUs)
  }

  /** Some thread of `ts` is idle. */
  predicate HasIdle(ts: seq<Thread>, idle: set<u32>)
  {
    exists i :: 0 <= i < |ts| && ts[i].tcbAddr in idle
  }

  /** One more thread taken into the active sum and the idle test. */
  lemma PrefixStep(ts: seq<Thread>, i: nat, idle: set<u32>)
    requires i < |ts|
    ensures ActiveUs(ts[..i + 1], idle) == ActiveUs(ts[..i], idle) + (if ts[i].tcbAddr in idle then 0 else ts[i].accumulatedTimeUs)
    ensures HasIdle(ts[..i + 1], idle) <==> HasIdle(ts[..i], idle) || ts[i].tcbAddr in idle
  {
    assert ts[..i + 1][..i] == ts[..i];
  }

  /** With no idle thread every thread counts as active. */
  lemma {:induction false} ActiveIsAll(ts: seq<Thread>)
    ensures ActiveUs(ts, {}) == TotalUs(ts)
  {
    if ts != [] {
      ActiveIsAll(ts[..|ts| - 1]);
    }
  }

  /** The microseconds of all threads. */
  function TotalUs(ts: seq<Thread>): nat
  {
    if ts == [] then 0 else TotalUs(ts[..|ts| - 1]) + ts[|ts| - 1].accumulatedTimeUs
  }

  /** Idle threads only take time out of the total. */
  lemma {:induction false} ActiveWithinTotal(ts: seq<Thread>, idle: set<u32>)
    ensures ActiveUs(ts, idle) <= TotalUs(ts)
  {
    if ts != [] {
      ActiveWithinTotal(ts[..|ts| - 1], idle);
    }
  }

  /** The comparison of two numbers used for a descending sort: positive when `b`'s key is larger. */
  function Desc(ka: int, kb: int): (r: int)
    ensures r > 0 <==> kb > ka
    ensures r < 0 <==> kb < ka
  {
    if kb > ka then 1 else if kb < ka then -1 else 0
  }

  /** The comparison of two numbers used for an ascending sort: positive when `a`'s key is larger. */
  function Asc(ka: int, kb: int): (r: int)
    ensures r > 0 <==> ka > kb
    ensures r < 0 <==> ka < kb
  {
    if ka > kb then 1 else if ka < kb then -1 else 0
  }

  /** The sort orders of the thread table. */
  datatype SortKey = CpuDesc | MaxCpuDesc | TcbAsc | NameAsc | FuncAsc | PriorityDesc | SwitchesDesc

  /** The comparator for each sort order; a negative answer puts `a` first. */
  function Compare(key: SortKey, a: Thread, b: Thread): (r: int)
    ensures key == CpuDesc ==> (r < 0 <==> a.accumulatedTimeUs > b.accumulatedTimeUs)
    ensures key == MaxCpuDesc ==> (r < 0 <==> a.maxCpuPercent > b.maxCpuPercent)
    ensures key == PriorityDesc ==> (r < 0 <==> a.priority > b.priority)
    ensures key == SwitchesDesc ==> (r < 0 <==> a.contextSwitches > b.contextSwitches)
    ensures key == TcbAsc ==> (r < 0 <==> a.tcbAddr < b.tcbAddr)
    ensures key == NameAsc ==> (r == 0 <==> a.name == b.name)
    ensures key == FuncAsc && a.entryFuncName.None? && b.entryFuncName.Some? && b.entryFuncName.value != [] ==> r < 0
  {
    match key
    case CpuDesc => Desc(a.accumulatedTimeUs, b.accumulatedTimeUs)
    case MaxCpuDesc => Desc(a.maxCpuPercent, b.maxCpuPercent)
    case TcbAsc => Asc(a.tcbAddr, b.tcbAddr)
    case NameAsc => StrCmp(a.name, b.name)
    case FuncAsc =>
      var fa := if a.entryFuncName.Some? then a.entryFuncName.value else "";
      var fb := if b.entryFuncName.Some? then b.entryFuncName.value else "";
      if fa == [] && fb != [] then StrCmpPrefix(fa, fb); StrCmp(fa, fb) else StrCmp(fa, fb)
    case PriorityDesc => Desc(a.priority, b.priority)
    case SwitchesDesc => Desc(a.contextSwitches, b.contextSwitches)
  }

  /** Every comparator is antisymmetric: swapping the threads swaps "before" and "after". */
  lemma CompareAntisymmetric(key: SortKey, a: Thread, b: Thread)
    ensures Compare(key, a, b) < 0 <==> Compare(key, b, a) > 0
  {
    match key
    case NameAsc => StrCmpAntisymmetric(a.name, b.name);
    case FuncAsc =>
      var fa := if a.entryFuncName.Some? then a.entryFuncName.value else "";
      var fb := if b.entryFuncName.Some? then b.entryFuncName.value else "";
      StrCmpAntisymmetric(fa, fb);
    case _ =>
  }

  /** A thread not yet known whose details cannot be read is not tracked. */
  predicate Dropped(ts: seq<Thread>, value: u32, probe: Probe)
  {
    Find(ts, value).None? && probe.Read? && probe.result < 0
  }

  /** The table with the scheduled thread in it: as it was, or with a new record at the end. */
  function Admitted(ts: seq<Thread>, value: u32, probe: Probe): (r: seq<Thread>)
    requires Distinct(ts)
    ensures Distinct(r) && Find(r, value).Some?
    ensures Find(ts, value).Some? ==> r == ts
    ensures Find(ts, value).None? ==> |r| == |ts| + 1 && r[..|ts|] == ts && r[|ts|] == Fresh(value, probe)
  {
    if Find(ts, value).Some? then ts
    else
      FindLast(ts, Fresh(value, probe));
      assert (ts + [Fresh(value, probe)])[..|ts|] == ts;
      ts + [Fresh(value, probe)]
  }

  /**
   * The table after the running thread `current` (0 for none) is charged
   * for the cycles since `last` (0 for no reading yet): only when both are
   * known, the thread is in the table and the delta is creditable.
   */
  function Credited(ts: seq<Thread>, current: u32, last: u32, cur: u32, cpuFreq: u32): (r: seq<Thread>)
    requires Distinct(ts)
    ensures Distinct(r) && |r| == |ts| && forall i :: 0 <= i < |ts| ==> r[i].tcbAddr == ts[i].tcbAddr
    ensures forall i :: 0 <= i < |ts| && r[i] != ts[i] ==>
              ts[i].tcbAddr == current != 0 && last != 0 && Creditable(Delta(last, cur))
    ensures current != 0 && last != 0 && Creditable(Delta(last, cur)) && Find(ts, current).Some? ==>
              r[Find(ts, current).value] == Charged(ts[Find(ts, current).value], Delta(last, cur), cpuFreq)
  {
    if current == 0 then ts
    else
      var p := Find(ts, current);
      if p.Some? && last != 0 && Creditable(Delta(last, cur)) then
        ts[p.value := Charged(ts[p.value], Delta(last, cur), cpuFreq)]
      else ts
  }

  /**
   * The table after the thread at `value` is stamped with the counter
   * reading and, when it is a switch from another thread, has its all-time
   * and window switch counts raised by one.
   */
  function Scheduled(ts: seq<Thread>, value: u32, switched: bool, cur: u32): (r: seq<Thread>)
    requires Distinct(ts)
    ensures |r| == |ts| && Distinct(r)
    ensures Find(ts, value).Some? ==>
              var i := Find(ts, value).value;
              && r[i].lastScheduled == cur
              && r[i].contextSwitches == ts[i].contextSwitches + (if switched then 1 else 0)
              && r[i].windowSwitches == ts[i].windowSwitches + (if switched then 1 else 0)
              && r[i].accumulatedTimeUs == ts[i].accumulatedTimeUs && r[i].maxCpuPercent == ts[i].maxCpuPercent
              && forall j :: 0 <= j < |ts| && j != i ==> r[j] == ts[j]
    ensures Find(ts, value).None? ==> r == ts
  {
    match Find(ts, value)
    case None => ts
    case Some(i) =>
      ts[i := ts[i].(lastScheduled := cur,
                     contextSwitches := ts[i].contextSwitches + if switched then 1 else 0,
                     windowSwitches := ts[i].windowSwitches + if switched then 1 else 0)]
  }

  /** `struct rtosState`, accounting part. */
  class Rtos {
    const enabled: bool
    const cpuFreq: u32
    var threads: seq<Thread>
    var currentThread: u32
    var lastCyccnt: u32
    var threadCount: nat
    var maxCpuUsage: nat

    ghost predicate Valid()
      reads this
    {
      Distinct(threads)
    }

    constructor (enabledSet: bool, cpuFreqSet: u32)
      ensures Valid() && enabled == enabledSet && cpuFreq == cpuFreqSet
      ensures threads == [] && currentThread == 0 && lastCyccnt == 0 && threadCount == 0 && maxCpuUsage == 0
    {
      enabled, cpuFreq := enabledSet, cpuFreqSet;
      threads, currentThread, lastCyccnt, threadCount, maxCpuUsage := [], 0, 0, 0, 0;
    }

    /**
     * `rtosHandleDWTMatchWithTimestamp`: the thread at `value` has just been
     * scheduled at `itmTimestamp`, of which the low 32 bits are the cycle
     * counter.  An unknown thread is counted, and added unless reading its
     * details fails (then it is taken out again and nothing else happens).
     * The thread that was running is charged, the scheduled one is
     * stamped and, on a switch, counted; afterwards it is current and the
     * counter reading is the one to measure from.
     */
    method HandleDWTMatch(value: u32, itmTimestamp: nat, probe: Probe)
      requires Valid()
      modifies this
      ensures Valid() && maxCpuUsage == old(maxCpuUsage)
      ensures !enabled ==> threads == old(threads) && currentThread == old(currentThread) && lastCyccnt == old(lastCyccnt)
                           && threadCount == old(threadCount)
      ensures enabled ==> threadCount == old(threadCount) + if Find(old(threads), value).None? then 1 else 0
      ensures enabled && Dropped(old(threads), value, probe) ==>
                threads == old(threads) && currentThread == old(currentThread) && lastCyccnt == old(lastCyccnt)
      ensures enabled && !Dropped(old(threads), value, probe) ==>
                var cur := itmTimestamp % CYCLES;
                && threads == Scheduled(Credited(Admitted(old(threads), value, probe), old(currentThread), old(lastCyccnt), cur, cpuFreq),
                                        value, old(currentThread) != value, cur)
                && currentThread == value && lastCyccnt == cur
    {
      if !enabled {
        return;
      }
      var cur := itmTimestamp % CYCLES;
      if Find(threads, value).None? {
        threadCount := threadCount + 1;
      }
      if Dropped(threads, value, probe) {
        return;
      }
      var admitted := Admitted(threads, value, probe);
      var credited := Credited(admitted, currentThread, lastCyccnt, cur, cpuFreq);
      threads := Scheduled(credited, value, currentThread != value, cur);
      if currentThread != value {
        currentThread := value;
        lastCyccnt := cur;
      } else if cur != lastCyccnt {
        lastCyccnt := cur;
      }
    }

    /**
     * `rtosUpdateThreadCpuMetrics`: with a non-empty table and a window of
     * some length, every thread keeps the largest CPU share it has had, and
     * if the RTOS knows an idle thread, the largest overall CPU use (the
     * share of the threads that are not idle) is kept too.  `idle` holds the
     * threads the RTOS calls idle.
     */
    method UpdateThreadCpuMetrics(windowUs: nat, idle: set<u32>)
      requires Valid()
      modifies this
      ensures Valid() && currentThread == old(currentThread) && lastCyccnt == old(lastCyccnt) && threadCount == old(threadCount)
      ensures !enabled || old(threads) == [] || windowUs == 0 ==> threads == old(threads) && maxCpuUsage == old(maxCpuUsage)
      ensures enabled && old(threads) != [] && windowUs > 0 ==>
                && |threads| == |old(threads)|
                && (forall i :: 0 <= i < |threads| ==> threads[i] == WithMax(old(threads)[i], windowUs))
                && maxCpuUsage == if HasIdle(old(threads), idle) then Max(old(maxCpuUsage), CpuPct(ActiveUs(old(threads), idle), windowUs))
                                  else old(maxCpuUsage)
    {
      if !enabled || threads == [] || windowUs == 0 {
        return;
      }
      ghost var ts := threads;
      var activeUs := 0;
      var hasIdle := false;
      var i := 0;
      while i < |threads|
        invariant i <= |threads| == |ts|
        invariant forall j :: 0 <= j < i ==> threads[j] == WithMax(ts[j], windowUs)
        invariant forall j :: i <= j < |ts| ==> threads[j] == ts[j]
        invariant activeUs == ActiveUs(ts[..i], idle)
        invariant hasIdle <==> HasIdle(ts[..i], idle)
        invariant currentThread == old(currentThread) && lastCyccnt == old(lastCyccnt) && threadCount == old(threadCount)
        invariant maxCpuUsage == old(maxCpuUsage)
      {
        var t := threads[i];
        threads := threads[i := WithMax(t, windowUs)];
        PrefixStep(ts, i, idle);
        if t.tcbAddr !in idle {
          activeUs := activeUs + t.accumulatedTimeUs;
        } else {
          hasIdle := true;
        }
        i := i + 1;
      }
      assert ts[..i] == ts;
      SameAddressesAll(ts, threads);
      if hasIdle {
        var usage := CpuPct(activeUs, windowUs);
        if usage > maxCpuUsage {
          maxCpuUsage := usage;
        }
      }
    }

    /** `rtosResetThreadCounters`: the window counters of every thread go back to 0; all-time counts and maxima stay. */
    method ResetThreadCounters()
      requires Valid()
      modifies this
      ensures Valid() && currentThread == old(currentThread) && lastCyccnt == old(lastCyccnt) && threadCount == old(threadCount)
      ensures maxCpuUsage == old(maxCpuUsage) && |threads| == |old(threads)|
      ensures !enabled ==> threads == old(threads)
      ensures enabled ==> forall i :: 0 <= i < |threads| ==>
                threads[i] == old(threads)[i].(accumulatedTimeUs := 0, accumulatedCycles := 0, windowSwitches := 0)
    {
      if !enabled || threads == [] {
        return;
      }
      ghost var ts := threads;
      for i := 0 to |threads|
        invariant |threads| == |ts|
        invariant forall j :: 0 <= j < i ==> threads[j] == ts[j].(accumulatedTimeUs := 0, accumulatedCycles := 0, windowSwitches := 0)
        invariant forall j :: i <= j < |ts| ==> threads[j] == ts[j]
        invariant currentThread == old(currentThread) && lastCyccnt == old(lastCyccnt) && threadCount == old(threadCount)
        invariant maxCpuUsage == old(maxCpuUsage)
      {
        threads := threads[i := threads[i].(accumulatedTimeUs := 0, accumulatedCycles := 0, windowSwitches := 0)];
      }
      SameAddressesAll(ts, threads);
    }
  }

  function Max(a: nat, b: nat): nat
  {
    if a >= b then a else b
  }

  /** A new thread appended to a table without its address is found at the end. */
  lemma FindLast(ts: seq<Thread>, t: Thread)
    requires Distinct(ts) && Find(ts, t.tcbAddr).None?
    ensures Distinct(ts + [t]) && Find(ts + [t], t.tcbAddr) == Some(|ts|)
  {
  }

  /** Records changed in place keep the table's addresses, so they stay distinct. */
  lemma SameAddressesAll(ts: seq<Thread>, us: seq<Thread>)
    requires Distinct(ts) && |us| == |ts| && forall i :: 0 <= i < |ts| ==> us[i].tcbAddr == ts[i].tcbAddr
    ensures Distinct(us)
  {
  }
}
