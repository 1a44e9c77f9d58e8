/**
 * The `orbtrace` configuration tool's bookkeeping: the set of actions asked
 * for on the command line, kept as a bitset, and the sanity checks made on
 * the options once they are all read.
 */
module OrbTrace {
  import opened Bytes

  /** `enum Actions`, in declaration order. */
  const ACTION_BRIGHTNESS: nat := 0
  const ACTION_ENCHANGE_VTREF: nat := 1
  const ACTION_ENCHANGE_VTPWR: nat := 2
  const ACTION_LIST_DEVICES: nat := 3
  const ACTION_LOCKDEVICE: nat := 4
  const ACTION_SETNICK: nat := 5
  const ACTION_VCHANGE_VTREF: nat := 6
  const ACTION_VCHANGE_VTPWR: nat := 7
  const ACTION_SN: nat := 8
  const ACTION_UNLOCK: nat := 9
  const ACTION_WRITE_PARAMS: nat := 10
  const ACTION_READ_PARAMS: nat := 11
  const ACTION_RESET_PARAMS: nat := 12
  const ACTION_SET_TRACE: nat := 13
  const ACTION_SERIAL_SPEED: nat := 14
  const ACTION_ENCHANGE_ALL: nat := 15

  /** How many actions there are. */
  const NUM_ACTIONS: nat := 16

  /** An action number. */
  type Action = x: nat | x < NUM_ACTIONS

  /** Bit `x` of `a`, as `a & (1 << x)` tests it. */
  predicate Has(a: nat, x: nat)
  {
    if x == 0 then a % 2 == 1 else Has(a / 2, x - 1)
  }

  /** `a | (1 << x)`. */
  function SetBit(a: nat, x: nat): nat
  {
    if Has(a, x) then a else a + Pow2(x)
  }

  /** A value with bit `x` set is at least `2^x`. */
  lemma {:induction false} HasBound(a: nat, x: nat)
    requires Has(a, x)
    ensures a >= Pow2(x)
  {
    if x > 0 {
      HasBound(a / 2, x - 1);
    }
  }

  /** `a & ~(1 << x)`. */
  function ClrBit(a: nat, x: nat): nat
  {
    if Has(a, x) then HasBound(a, x); a - Pow2(x) else a
  }

  /** `__builtin_popcount`: the number of bits set. */
  function Popcount(a: nat): nat
  {
    if a == 0 then 0 else a % 2 + Popcount(a / 2)
  }

  /** Adding a bit that is clear sets it and leaves every other bit as it was. */
  lemma {:induction false} AddBit(a: nat, x: nat, k: nat)
    requires !Has(a, x)
    ensures Has(a + Pow2(x), k) <==> k == x || Has(a, k)
  {
    if x == 0 {
      if k > 0 {
        assert (a + 1) / 2 == a / 2;
      }
    } else {
      assert (a + Pow2(x)) / 2 == a / 2 + Pow2(x - 1) && (a + Pow2(x)) % 2 == a % 2;
      if k > 0 {
        AddBit(a / 2, x - 1, k - 1);
      }
    }
  }

  /** Taking away a bit that is set clears it and leaves every other bit as it was. */
  lemma {:induction false} SubBit(a: nat, x: nat, k: nat)
    requires Has(a, x) && a >= Pow2(x)
    ensures Has(a - Pow2(x), k) <==> k != x && Has(a, k)
  {
    if x == 0 {
      if k > 0 {
        assert (a - 1) / 2 == a / 2;
      }
    } else {
      HasBound(a / 2, x - 1);
      assert (a - Pow2(x)) / 2 == a / 2 - Pow2(x - 1) && (a - Pow2(x)) % 2 == a % 2;
      if k > 0 {
        SubBit(a / 2, x - 1, k - 1);
      }
    }
  }

  /** `_set_action` sets bit `x` and no other. */
  lemma SetBitBits(a: nat, x: nat, k: nat)
    ensures Has(SetBit(a, x), k) <==> k == x || Has(a, k)
  {
    if !Has(a, x) {
      AddBit(a, x, k);
    }
  }

  /** `_clr_action` clears bit `x` and no other. */
  lemma ClrBitBits(a: nat, x: nat, k: nat)
    ensures Has(ClrBit(a, x), k) <==> k != x && Has(a, k)
  {
    if Has(a, x) {
      HasBound(a, x);
      SubBit(a, x, k);
    }
  }

  /** Setting a bit that was clear counts one more; clearing one that was set counts one fewer. */
  lemma {:induction false} PopcountAddBit(a: nat, x: nat)
    requires !Has(a, x)
    ensures Popcount(a + Pow2(x)) == Popcount(a) + 1
  {
    if x == 0 {
      assert (a + 1) / 2 == a / 2;
    } else {
      assert (a + Pow2(x)) / 2 == a / 2 + Pow2(x - 1) && (a + Pow2(x)) % 2 == a % 2;
      PopcountAddBit(a / 2, x - 1);
    }
  }

  /** The count of set actions goes up by one exactly when a new action is set, and down by one exactly when a set one is cleared. */
  lemma PopcountSetClr(a: nat, x: nat)
    ensures Popcount(SetBit(a, x)) == Popcount(a) + (if Has(a, x) then 0 else 1)
    ensures Popcount(ClrBit(a, x)) == Popcount(a) - (if Has(a, x) then 1 else 0)
  {
    if Has(a, x) {
      HasBound(a, x);
      SubBit(a, x, x);
      PopcountAddBit(a - Pow2(x), x);
    } else {
      PopcountAddBit(a, x);
    }
  }

  /** A value with a bit set counts at least one; a value counting none is 0. */
  lemma {:induction false} PopcountCounts(a: nat, x: nat)
    ensures Has(a, x) ==> Popcount(a) >= 1
    ensures Popcount(a) == 0 ==> a == 0
  {
    if a == 0 && x > 0 {
      PopcountCounts(0, x - 1);
    } else if a > 0 && a % 2 == 0 {
      PopcountCounts(a / 2, 0);
      if x > 0 {
        PopcountCounts(a / 2, x - 1);
      }
    }
  }

  /** `1 << x` has bit `x` set and no other. */
  lemma SingleBit(x: nat, k: nat)
    ensures Has(Pow2(x), k) <==> k == x
  {
    PopcountCounts(0, x);
    AddBit(0, x, k);
    PopcountCounts(0, k);
  }

  /** When action `x` is set and at most one action is, `x` is the only action. */
  lemma {:induction false} OnlyAction(a: nat, x: nat)
    requires Has(a, x) && Popcount(a) <= 1
    ensures a == Pow2(x)
  {
    if x == 0 {
      PopcountCounts(a / 2, 0);
    } else {
      PopcountCounts(a / 2, x - 1);
      OnlyAction(a / 2, x - 1);
    }
  }

  /** The bound of the action bits. */
  lemma Pow2Sixteen()
    ensures Pow2(16) == 0x1_0000
  {
    assert Pow2(1) == 2;
    assert Pow2(2) == 4;
    assert Pow2(3) == 8;
    assert Pow2(4) == 16;
    assert Pow2(5) == 32;
    assert Pow2(6) == 64;
    assert Pow2(7) == 128;
    assert Pow2(8) == 256;
    assert Pow2(9) == 512;
    assert Pow2(10) == 1024;
    assert Pow2(11) == 2048;
    assert Pow2(12) == 4096;
    assert Pow2(13) == 8192;
    assert Pow2(14) == 0x4000;
    assert Pow2(15) == 0x8000;
  }

  /** Setting a bit below `n` keeps a value below `2^n`. */
  lemma {:induction false} SetBitBound(a: nat, x: nat, n: nat)
    requires a < Pow2(n) && x < n
    ensures SetBit(a, x) < Pow2(n)
    decreases x
  {
    if !Has(a, x) {
      if x == 0 {
        assert a % 2 == 0 && Pow2(n) % 2 == 0;
      } else {
        assert (a + Pow2(x)) / 2 == a / 2 + Pow2(x - 1) && (a + Pow2(x)) % 2 == a % 2;
        SetBitBound(a / 2, x - 1, n - 1);
        assert SetBit(a / 2, x - 1) == a / 2 + Pow2(x - 1);
      }
    }
  }

  /** The part of `struct RunTime` that holds the actions to be performed. */
  class RunTime {
    var actions: nat

    /** Only action bits are ever set. */
    ghost predicate Valid()
      reads this
    {
      actions < Pow2(NUM_ACTIONS)
    }

    /** No action asked for yet. */
    constructor ()
      ensures Valid() && actions == 0
    {
      actions := 0;
    }

    /** `_set_action`. */
    method SetAction(x: Action)
      requires Valid()
      modifies this
      ensures Valid() && actions == SetBit(old(actions), x)
    {
      SetBitBound(actions, x, NUM_ACTIONS);
      actions := SetBit(actions, x);
    }

    /** `_clr_action`. */
    method ClrAction(x: Action)
      requires Valid()
      modifies this
      ensures Valid() && actions == ClrBit(old(actions), x)
    {
      actions := ClrBit(actions, x);
    }

    /** `_tst_action`. */
    function TstAction(x: Action): (b: bool)
      reads this
      ensures b <==> Has(actions, x)
    {
      Has(actions, x)
    }

    /** `_tcl_action`: whether the action was set, leaving it clear and every other action as it was. */
    method TclAction(x: Action) returns (was: bool)
      requires Valid()
      modifies this
      ensures Valid() && was == Has(old(actions), x) && actions == ClrBit(old(actions), x)
      ensures !Has(actions, x)
    {
      if !TstAction(x) {
        ClrBitBits(actions, x, x);
        return false;
      }
      ClrAction(x);
      ClrBitBits(old(actions), x, x);
      return true;
    }

    /** `_num_actions`: the count of the low 32 bits, which hold every action. */
    function NumActions(): (n: nat)
      reads this
      ensures Valid() ==> n == Popcount(actions)
    {
      Pow2Sixteen();
      Popcount(actions % 0x1_0000_0000)
    }
  }

  /** The options `_processOptions` checks once they have all been read. */
  datatype Options = Options(traceWidth: int, swoMANCH: bool, swoUART: bool, serialSpeed: u32, brightness: int)

  /** The complaint each failing check reports, in the order they are made. */
  datatype SanityError =
    | ResetNotExclusive
    | SwoUartIncomplete
    | TraceConflict
    | ListNotExclusive
    | IllegalWidth
    | BrightnessOutOfRange

  /** More than one trace configuration asked for at once. */
  predicate TraceConflicts(o: Options)
  {
    (o.traceWidth != 0 && (o.swoUART || o.swoMANCH)) || (o.swoUART && o.swoMANCH)
  }

  /**
   * The sanity checks closing `_processOptions` as written: the baud rate
   * and UART mode test asks for both to be missing and both to be present,
   * so it never fails.
   */
  function CheckOptionsAsWritten(actions: nat, o: Options): (r: Option<SanityError>)
    ensures r != Some(SwoUartIncomplete)
  {
    if Has(actions, ACTION_RESET_PARAMS) && Popcount(actions) > 1 then Some(ResetNotExclusive)
    else if (o.serialSpeed != 0 && !o.swoUART) && (o.serialSpeed == 0 && o.swoUART) then Some(SwoUartIncomplete)
    else if Has(actions, ACTION_SET_TRACE) && TraceConflicts(o) then Some(TraceConflict)
    else if Has(actions, ACTION_LIST_DEVICES) && Popcount(actions) > 1 then Some(ListNotExclusive)
    else if o.traceWidth != 0 && o.traceWidth != 1 && o.traceWidth != 2 && o.traceWidth != 4 then Some(IllegalWidth)
    else if Has(actions, ACTION_BRIGHTNESS) && (o.brightness < 0 || o.brightness > 255) then Some(BrightnessOutOfRange)
    else None
  }

  /** Options that pass every check, stated as the conditions they must meet. */
  predicate Sane(actions: nat, o: Options)
  {
    && (Has(actions, ACTION_RESET_PARAMS) ==> Popcount(actions) <= 1)
    && (o.serialSpeed != 0 <==> o.swoUART)
    && (Has(actions, ACTION_SET_TRACE) ==> !TraceConflicts(o))
    && (Has(actions, ACTION_LIST_DEVICES) ==> Popcount(actions) <= 1)
    && o.traceWidth in {0, 1, 2, 4}
    && (Has(actions, ACTION_BRIGHTNESS) ==> 0 <= o.brightness <= 255)
  }

  /** The checks meant: a baud rate without UART mode, or UART mode without a baud rate, is refused. */
  function CheckOptions(actions: nat, o: Options): (r: Option<SanityError>)
    ensures r.None? <==> Sane(actions, o)
  {
    if Has(actions, ACTION_RESET_PARAMS) && Popcount(actions) > 1 then Some(ResetNotExclusive)
    else if (o.serialSpeed != 0 && !o.swoUART) || (o.serialSpeed == 0 && o.swoUART) then Some(SwoUartIncomplete)
    else if Has(actions, ACTION_SET_TRACE) && TraceConflicts(o) then Some(TraceConflict)
    else if Has(actions, ACTION_LIST_DEVICES) && Popcount(actions) > 1 then Some(ListNotExclusive)
    else if o.traceWidth != 0 && o.traceWidth != 1 && o.traceWidth != 2 && o.traceWidth != 4 then Some(IllegalWidth)
    else if Has(actions, ACTION_BRIGHTNESS) && (o.brightness < 0 || o.brightness > 255) then Some(BrightnessOutOfRange)
    else None
  }

  /** Resetting the parameters and listing the devices, once accepted, are the only action asked for. */
  lemma ExclusiveActions(actions: nat, o: Options)
    requires CheckOptions(actions, o).None?
    ensures Has(actions, ACTION_RESET_PARAMS) ==> actions == Pow2(ACTION_RESET_PARAMS)
    ensures Has(actions, ACTION_LIST_DEVICES) ==> actions == Pow2(ACTION_LIST_DEVICES)
  {
    if Has(actions, ACTION_RESET_PARAMS) {
      OnlyAction(actions, ACTION_RESET_PARAMS);
    }
    if Has(actions, ACTION_LIST_DEVICES) {
      OnlyAction(actions, ACTION_LIST_DEVICES);
    }
  }

  /** Apart from the baud rate and mode test the two versions agree, and what the meant one accepts the written one accepts too. */
  lemma CheckOptionsAgree(actions: nat, o: Options)
    ensures (o.serialSpeed != 0 <==> o.swoUART) ==> CheckOptionsAsWritten(actions, o) == CheckOptions(actions, o)
    ensures CheckOptions(actions, o).None? ==> CheckOptionsAsWritten(actions, o).None?
  {
  }

  /** A baud rate given without UART mode passes the checks as written; the meant checks refuse it. */
  lemma SpeedWithoutUartPasses()
    ensures var o := Options(0, false, false, 115200, 0);
            && CheckOptionsAsWritten(Pow2(ACTION_SERIAL_SPEED), o).None?
            && CheckOptions(Pow2(ACTION_SERIAL_SPEED), o) == Some(SwoUartIncomplete)
  {
    SingleBit(ACTION_SERIAL_SPEED, ACTION_RESET_PARAMS);
    SingleBit(ACTION_SERIAL_SPEED, ACTION_SET_TRACE);
    SingleBit(ACTION_SERIAL_SPEED, ACTION_LIST_DEVICES);
    SingleBit(ACTION_SERIAL_SPEED, ACTION_BRIGHTNESS);
  }
}
