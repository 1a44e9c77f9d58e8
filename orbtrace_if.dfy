/**
 * The host-side checks and encodings of the ORBTrace interface: which target
 * voltages are accepted, how a power channel is named, how the trace width
 * and SWO settings are encoded in the vendor control requests, and the order
 * in which discovered probes are listed.  The USB transfers themselves are
 * not modelled: each setter yields the request it would send.
 */
module OrbtraceIf {
  import opened Bytes

  /** `MIN_GENERIC_VOLTAGE_MV`, `MAX_GENERIC_VOLTAGE_MV` and `MAX_VOLTAGE_DIFF_MV`. */
  const MIN_GENERIC_VOLTAGE_MV: int := 900
  const MAX_GENERIC_VOLTAGE_MV: int := 5000
  const MAX_VOLTAGE_DIFF_MV: int := 10

  /** The vendor requests of the trace interface. */
  const RQ_SET_TWIDTH: byte := 1
  const RQ_SET_SPEED: byte := 2

  /** A C `int`. */
  type i32 = x: int | -0x8000_0000 <= x < 0x8000_0000

  /**
   * `OrbtraceIfValidateVoltage`: a voltage in millivolts is returned as it
   * is when the probe can generate it, and 0 (no voltage) otherwise.
   */
  function ValidateVoltage(vmv: int): (r: int)
    ensures r != 0 <==> MIN_GENERIC_VOLTAGE_MV <= vmv <= MAX_GENERIC_VOLTAGE_MV + MAX_VOLTAGE_DIFF_MV
    ensures r == 0 || r == vmv
  {
    if MIN_GENERIC_VOLTAGE_MV <= vmv <= MAX_GENERIC_VOLTAGE_MV + MAX_VOLTAGE_DIFF_MV then vmv else 0
  }

  /** A voltage that was accepted is accepted again unchanged. */
  lemma ValidateVoltageIdempotent(vmv: int)
    ensures ValidateVoltage(ValidateVoltage(vmv)) == ValidateVoltage(vmv)
  {
    if ValidateVoltage(vmv) != 0 {
      assert ValidateVoltage(vmv) == vmv;
    }
  }

  /** `enum Channel`. */
  datatype Channel = VtRef | VtPwr | ChMax | ChNone | ChAll

  /** The number each channel is sent as. */
  function ChannelCode(c: Channel): (n: byte)
    ensures c == ChAll <==> n == 0xff
  {
    match c
    case VtRef => 0
    case VtPwr => 1
    case ChMax => 2
    case ChNone => 3
    case ChAll => 0xff
  }

  /** An entry of the `POWERNAMES` table. */
  datatype PowerName = PowerName(name: string, channel: Channel)

  /** `POWERNAMES`, in table order, without its terminating entry. */
  const POWER_NAMES: seq<PowerName> :=
    [PowerName("vtpwr", VtPwr), PowerName("vtref", VtRef), PowerName("all", ChAll)]

  /** `tolower` on the characters of the C locale. */
  function Folded(c: char): (f: char)
    ensures 'A' <= c <= 'Z' ==> 'a' <= f <= 'z'
    ensures !('A' <= c <= 'Z') ==> f == c
  {
    if 'A' <= c <= 'Z' then (c as int + 32) as char else c
  }

  /**
   * `name` is the first word of `x`, ignoring case: `x` starts with it and
   * ends, or goes on with a ',', right after it.  (`x` holds the characters
   * before the string's terminator.)
   */
  predicate Names(name: string, x: string)
  {
    && |name| <= |x|
    && (forall j :: 0 <= j < |name| ==> name[j] == Folded(x[j]))
    && (|x| == |name| || x[|name|] == ',')
  }

  /** The channel of the first table entry from `i` on that `x` names, or `ChNone`. */
  function ChannelFrom(x: string, i: nat): Channel
    decreases |POWER_NAMES| - i
  {
    if i >= |POWER_NAMES| then ChNone
    else if Names(POWER_NAMES[i].name, x) then POWER_NAMES[i].channel
    else ChannelFrom(x, i + 1)
  }

  /** The channel `x` names. */
  function ChannelOf(x: string): Channel
  {
    ChannelFrom(x, 0)
  }

  /**
   * `OrbtraceIfNameToChannel`: each table entry in turn is compared, one
   * character at a time, with the lower-cased text; the first whose name is
   * followed in the text by its end or a ',' gives the channel.
   */
  method NameToChannel(x: string) returns (ch: Channel)
    ensures ch == ChannelOf(x)
  {
    var i := 0;
    while i < |POWER_NAMES|
      invariant 0 <= i <= |POWER_NAMES|
      invariant ChannelFrom(x, i) == ChannelOf(x)
    {
      var name := POWER_NAMES[i].name;
      var j := 0;
      while j < |name| && j < |x| && name[j] == Folded(x[j])
        invariant 0 <= j <= |name| && j <= |x|
        invariant forall k :: 0 <= k < j ==> name[k] == Folded(x[k])
      {
        j := j + 1;
      }
      if j == |name| && (j == |x| || x[j] == ',') {
        return POWER_NAMES[i].channel;
      }
      i := i + 1;
    }
    return ChNone;
  }

  /** Case does not matter: two texts equal once lower-cased name the same channel. */
  lemma {:induction false} ChannelIgnoresCase(x: string, y: string, i: nat)
    requires |x| == |y| && forall k :: 0 <= k < |x| ==> Folded(x[k]) == Folded(y[k])
    ensures ChannelFrom(x, i) == ChannelFrom(y, i)
    decreases |POWER_NAMES| - i
  {
    if i < |POWER_NAMES| {
      var name := POWER_NAMES[i].name;
      if |name| < |x| {
        assert x[|name|] == ',' <==> y[|name|] == ',' by {
          assert Folded(x[|name|]) == Folded(y[|name|]);
        }
      }
      assert Names(name, x) <==> Names(name, y);
      ChannelIgnoresCase(x, y, i + 1);
    }
  }

  /** No name in the table holds a ','. */
  lemma NoCommaInNames(i: nat, j: nat)
    requires i < |POWER_NAMES| && j < |POWER_NAMES[i].name|
    ensures POWER_NAMES[i].name[j] != ','
  {
  }

  /** Whatever follows a ',' is ignored. */
  lemma {:induction false} CommaEndsName(x: string, rest: string, i: nat)
    ensures ChannelFrom(x + "," + rest, i) == ChannelFrom(x, i)
    decreases |POWER_NAMES| - i
  {
    if i < |POWER_NAMES| {
      var name := POWER_NAMES[i].name;
      var y := x + "," + rest;
      assert forall k :: 0 <= k < |x| ==> y[k] == x[k];
      assert y[|x|] == ',';
      if |name| > |x| {
        NoCommaInNames(i, |x|);
        assert !Names(name, y);
      }
      assert Names(name, y) <==> Names(name, x);
      CommaEndsName(x, rest, i + 1);
    }
  }

  /** `CH_NONE` comes back exactly when no table name is the first word of the text. */
  lemma {:induction false} UnknownIsNone(x: string, i: nat)
    ensures ChannelFrom(x, i) == ChNone <==> forall k :: i <= k < |POWER_NAMES| ==> !Names(POWER_NAMES[k].name, x)
    decreases |POWER_NAMES| - i
  {
    if i < |POWER_NAMES| {
      UnknownIsNone(x, i + 1);
    }
  }

  /** Each name in the table, written in any case, gives its own channel. */
  lemma EachNameNamesItsChannel(i: nat)
    requires i < |POWER_NAMES|
    ensures ChannelOf(POWER_NAMES[i].name) == POWER_NAMES[i].channel
  {
    var name := POWER_NAMES[i].name;
    if i == 1 {
      assert POWER_NAMES[0].name[2] != Folded(name[2]);
    } else if i == 2 {
      assert |POWER_NAMES[0].name| > |name| && |POWER_NAMES[1].name| > |name|;
    }
  }

  /** A vendor control request to the trace interface: request, value and data. */
  datatype Request = Request(request: byte, value: u16, data: seq<byte>)

  /**
   * The width check of `OrbtraceIfSetTraceWidth` as written: width 4 is sent
   * as 3, any other width as itself truncated to 16 bits, and a result
   * outside 1..3 is refused before any transfer.
   */
  function TraceWidthAsWritten(width: i32): (r: Option<u16>)
    ensures r.Some? <==> width == 4 || 1 <= width % 0x1_0000 <= 3
    ensures r.Some? ==> 1 <= r.value <= 3
  {
    var d := (if width != 4 then width else 3) % 0x1_0000;
    if d < 1 || d > 3 then None else Some(d)
  }

  /** Width 3, which the probe cannot drive, is let through as if it were 4; so is 65537 as if it were 1. */
  lemma TraceWidthAsWrittenAliases()
    ensures TraceWidthAsWritten(3) == TraceWidthAsWritten(4) == Some(3)
    ensures TraceWidthAsWritten(0x1_0001) == TraceWidthAsWritten(1) == Some(1)
  {
  }

  /** The trace width a width code stands for. */
  function WidthOfCode(d: u16): (w: nat)
    ensures d == 3 ==> w == 4
  {
    if d == 3 then 4 else d
  }

  /** The width check meant: only the widths 1, 2 and 4 are accepted, 4 being sent as 3. */
  function TraceWidth(width: int): (r: Option<u16>)
    ensures r.Some? <==> width == 1 || width == 2 || width == 4
    ensures r.Some? ==> 1 <= r.value <= 3 && WidthOfCode(r.value) == width
  {
    if width == 1 || width == 2 then Some(width)
    else if width == 4 then Some(3)
    else None
  }

  /** Every code from 1 to 3 is the code of exactly one accepted width. */
  lemma TraceWidthOnto(d: u16)
    requires 1 <= d <= 3
    ensures TraceWidth(WidthOfCode(d)) == Some(d)
  {
  }

  /** `OrbtraceIfSetTraceWidth`: the request sent, or none when the width is refused. */
  function SetTraceWidth(width: int): (r: Option<Request>)
    ensures r.Some? <==> TraceWidth(width).Some?
    ensures r.Some? ==> r.value.request == RQ_SET_TWIDTH && WidthOfCode(r.value.value) == width && r.value.data == []
  {
    match TraceWidth(width)
    case None => None
    case Some(d) => Some(Request(RQ_SET_TWIDTH, d, []))
  }

  /** `OrbtraceIfSetTraceSWO`: Manchester and UART encodings are told apart by value 0x10 against 0x12. */
  function SetTraceSWO(isManch: bool): (r: Request)
    ensures r.request == RQ_SET_TWIDTH && r.data == []
    ensures isManch <==> r.value == 0x10
    ensures !isManch <==> r.value == 0x12
  {
    Request(RQ_SET_TWIDTH, if isManch then 0x10 else 0x12, [])
  }

  /** Shifting right by 8 and by 24 bits agrees with taking the octets out of the two 16-bit halves. */
  lemma ShiftsOfHalves(w: u32)
    ensures w / 0x100_0000 == w / 0x1_0000 / 0x100
    ensures w / 0x100 % 0x100 == w % 0x1_0000 / 0x100
  {
    var q, m := w / 0x1_0000, w % 0x1_0000;
    assert w == 0x1_0000 * q + m;
    DivModUnique(m, 0x100, m / 0x100, m % 0x100);
    DivModUnique(w, 0x100, q * 0x100 + m / 0x100, m % 0x100);
    DivModUnique(w / 0x100, 0x100, q, m / 0x100);
    DivModUnique(q, 0x100, q / 0x100, q % 0x100);
    DivModUnique(w, 0x100_0000, q / 0x100, (q % 0x100) * 0x1_0000 + m);
  }

  /** The SWO speed as four octets, lowest first, each taken by shifting and masking. */
  function SpeedBytes(speed: u32): (r: seq<byte>)
    ensures |r| == 4 && LE32(r[0], r[1], r[2], r[3]) == speed
  {
    var r := [speed % 0x100, speed / 0x100 % 0x100, speed / 0x1_0000 % 0x100, speed / 0x100_0000 % 0x100];
    ShiftsOfHalves(speed);
    assert r == WordBytesLE(speed);
    r
  }

  /** Every four octets are the octets of one speed: reading them back and packing them again gives them unchanged. */
  lemma SpeedBytesRoundTrip(b0: byte, b1: byte, b2: byte, b3: byte)
    ensures SpeedBytes(LE32(b0, b1, b2, b3)) == [b0, b1, b2, b3]
  {
    var w := LE32(b0, b1, b2, b3);
    WordBytesRoundTrip(b0, b1, b2, b3);
    ShiftsOfHalves(w);
  }

  /** `OrbtraceIfSetSWOBaudrate`: the speed travels as four data octets. */
  function SetSWOBaudrate(speed: u32): (r: Request)
    ensures r.request == RQ_SET_SPEED && r.value == 0 && |r.data| == 4
    ensures LE32(r.data[0], r.data[1], r.data[2], r.data[3]) == speed
  {
    Request(RQ_SET_SPEED, 0, SpeedBytes(speed))
  }

  /**
   * The fields of `struct OrbtraceIfDevice` that order the device list; a
   * manufacturer or product string that could not be read is `None`.
   */
  datatype Device = Device(sn: string, manufacturer: Option<string>, product: Option<string>, devtype: int, vid: int, pid: int)

  /**
   * `_strcmpint`: `strcmp` extended to missing strings, which sort after
   * every present one. Two missing strings reach `strcmp(NULL, NULL)`,
   * undefined in C; here they compare equal.
   */
  function StrCmpInt(a: Option<string>, b: Option<string>): (r: int)
    ensures r == 0 <==> a == b
    ensures a.Some? && b.None? ==> r < 0
    ensures a.None? && b.Some? ==> r > 0
    ensures a.Some? && b.Some? ==> r == StrCmp(a.value, b.value)
  {
    if a.Some? && b.None? then -1
    else if a.None? && b.Some? then 1
    else if a.None? then 0
    else StrCmp(a.value, b.value)
  }

  /** Swapping the strings reverses the answer. */
  lemma StrCmpIntAntisymmetric(a: Option<string>, b: Option<string>)
    ensures StrCmpInt(a, b) < 0 <==> StrCmpInt(b, a) > 0
  {
    if a.Some? && b.Some? {
      StrCmpAntisymmetric(a.value, b.value);
    }
  }

  /** Sorting before is transitive. */
  lemma StrCmpIntTransitive(a: Option<string>, b: Option<string>, c: Option<string>)
    requires StrCmpInt(a, b) < 0 && StrCmpInt(b, c) < 0
    ensures StrCmpInt(a, c) < 0
  {
    if a.Some? && b.Some? && c.Some? {
      StrCmpTransitive(a.value, b.value, c.value);
    }
  }

  /**
   * `_compareFunc`: devices are ordered by device type, then manufacturer,
   * product and serial number, then vendor and product id; the first field
   * that differs decides.
   */
  function CompareDevices(d1: Device, d2: Device): (r: int)
    ensures r == 0 <==> d1 == d2
  {
    if d1.devtype != d2.devtype then d1.devtype - d2.devtype
    else if StrCmpInt(d1.manufacturer, d2.manufacturer) != 0 then StrCmpInt(d1.manufacturer, d2.manufacturer)
    else if StrCmpInt(d1.product, d2.product) != 0 then StrCmpInt(d1.product, d2.product)
    else if StrCmp(d1.sn, d2.sn) != 0 then StrCmp(d1.sn, d2.sn)
    else if d1.vid != d2.vid then d1.vid - d2.vid
    else d1.pid - d2.pid
  }

  /** Device type decides first, and among probes of one type a named manufacturer comes before an unnamed one. */
  lemma CompareDevicesByTypeThenMaker(d1: Device, d2: Device)
    ensures d1.devtype < d2.devtype ==> CompareDevices(d1, d2) < 0
    ensures d1.devtype == d2.devtype && d1.manufacturer.Some? && d2.manufacturer.None? ==> CompareDevices(d1, d2) < 0
  {
  }

  /** Swapping the devices reverses the answer. */
  lemma CompareDevicesAntisymmetric(d1: Device, d2: Device)
    ensures CompareDevices(d1, d2) < 0 <==> CompareDevices(d2, d1) > 0
  {
    StrCmpIntAntisymmetric(d1.manufacturer, d2.manufacturer);
    StrCmpIntAntisymmetric(d1.product, d2.product);
    StrCmpAntisymmetric(d1.sn, d2.sn);
  }

  /** Sorting before is transitive, so the devices are in a strict total order. */
  lemma CompareDevicesTransitive(d1: Device, d2: Device, d3: Device)
    requires CompareDevices(d1, d2) < 0 && CompareDevices(d2, d3) < 0
    ensures CompareDevices(d1, d3) < 0
  {
    if d1.devtype == d2.devtype == d3.devtype {
      var m1, m2, m3 := d1.manufacturer, d2.manufacturer, d3.manufacturer;
      if StrCmpInt(m1, m2) < 0 && StrCmpInt(m2, m3) < 0 {
        StrCmpIntTransitive(m1, m2, m3);
      } else if m1 == m2 == m3 {
        var p1, p2, p3 := d1.product, d2.product, d3.product;
        if StrCmpInt(p1, p2) < 0 && StrCmpInt(p2, p3) < 0 {
          StrCmpIntTransitive(p1, p2, p3);
        } else if p1 == p2 == p3 {
          if StrCmp(d1.sn, d2.sn) < 0 && StrCmp(d2.sn, d3.sn) < 0 {
            StrCmpTransitive(d1.sn, d2.sn, d3.sn);
          }
        }
      }
    }
  }
}
