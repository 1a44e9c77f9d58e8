/**
 * The CMSIS-DAP command engine of the ORBTrace gateware: a clocked state
 * machine that collects a command packet from the USB OUT stream, answers
 * the commands it implements and streams the answer back on the USB IN
 * stream.  Registers are updated once per clock; within one clock a later
 * assignment to a register overrides an earlier one, as in the hardware
 * description.
 */
module CmsisDap {
  import opened Bytes

  /** Command numbers of ARM's CMSIS-DAP protocol. */
  const DAP_Info: byte := 0x00
  const DAP_HostStatus: byte := 0x01
  const DAP_Connect: byte := 0x02
  const DAP_Disconnect: byte := 0x03
  const DAP_TransferConfigure: byte := 0x04
  const DAP_Transfer: byte := 0x05
  const DAP_TransferBlock: byte := 0x06
  const DAP_TransferAbort: byte := 0x07
  const DAP_WriteABORT: byte := 0x08
  const DAP_Delay: byte := 0x09
  const DAP_ResetTarget: byte := 0x0a
  const DAP_SWJ_Pins: byte := 0x10
  const DAP_SWJ_Clock: byte := 0x11
  const DAP_SWJ_Sequence: byte := 0x12
  const DAP_SWD_Configure: byte := 0x13
  const DAP_JTAG_Sequence: byte := 0x14
  const DAP_JTAG_Configure: byte := 0x15
  const DAP_JTAG_IDCODE: byte := 0x16
  const DAP_SWO_Transport: byte := 0x17
  const DAP_SWO_Mode: byte := 0x18
  const DAP_SWO_Baudrate: byte := 0x19
  const DAP_SWO_Control: byte := 0x1a
  const DAP_SWO_Status: byte := 0x1b
  const DAP_SWO_Data: byte := 0x1c
  const DAP_SWD_Sequence: byte := 0x1d
  const DAP_SWO_ExtendedStatus: byte := 0x1e
  const DAP_ExecuteCommands: byte := 0x7f
  const DAP_QueueCommands: byte := 0x7e
  const DAP_Invalid: byte := 0xff

  /** What the unit reports about itself. */
  const DAP_CONNECT_DEFAULT: nat := 1
  const DAP_CAPABILITIES: nat := 0x01
  const DAP_TD_TIMER_FREQ: u32 := 0x3B9ACA00
  const DAP_TB_SIZE: u32 := 1000
  const DAP_MAX_PACKET_COUNT: byte := 64
  const DAP_MAX_PACKET_SIZE: u16 := 64

  /** "1.00", the firmware version string. */
  const DAP_VERSION_STRING: seq<byte> := [0x31, 0x2e, 0x30, 0x30]

  /** The states of the engine. */
  datatype FsmState =
    | Idle
    | RxParams
    | Respond
    | SwjSequenceProcess
    | SwdSequenceGetCount
    | JtagSequenceGetCount
    | TransferState
    | TransferBlockState
    | ExecuteCommandsGetNum
    | QueueCommandsGetNum
    | ErrorState
    | ProtocolError

  /** One clock of a byte stream: whether a byte is offered, whether it starts or ends a packet, and the byte. */
  datatype Beat = Beat(valid: bool, first: bool, last: bool, payload: byte)

  /** A clock in which nothing is offered. */
  const QUIET: Beat := Beat(false, false, false, 0)

  /** The receive registers: up to seven packet bytes, how many the command has and how many have arrived. */
  datatype Rx = Rx(block: seq<byte>, len: nat, rxed: nat)

  /** The transmit registers: up to six answer bytes, how many to send and how many have been sent. */
  datatype Tx = Tx(block: seq<byte>, len: nat, txed: nat)

  /** The engine's registers. */
  datatype Registers = Registers(state: FsmState, rx: Rx, tx: Tx, busy: bool, connected: bool, running: bool,
                                 swjbits: byte, streamIn: Beat)

  /**
   * The registers keep their widths (seven receive bytes, six transmit
   * bytes, 3-bit counts); bytes are received only up to the command's
   * length and sent only up to the answer's; the engine is busy, and so
   * refuses input, exactly while it answers.
   */
  predicate Wf(r: Registers)
  {
    && |r.rx.block| == 7 && r.rx.len <= 7 && r.rx.rxed <= 7
    && |r.tx.block| == 6 && r.tx.len <= 6 && r.tx.txed <= 6
    && (r.state == RxParams ==> 1 <= r.rx.len && r.rx.rxed <= r.rx.len)
    && (r.state == Respond ==> r.tx.txed <= r.tx.len)
    && (r.state != Idle && r.state != Respond ==> r.tx.txed == 0)
    && (r.busy <==> r.state == Respond || r.state == SwjSequenceProcess)
  }

  /** The registers after reset. */
  const INITIAL: Registers :=
    Registers(Idle, Rx([0, 0, 0, 0, 0, 0, 0], 0, 0), Tx([0, 0, 0, 0, 0, 0], 0, 0), false, false, false, 0, Beat(false, false, false, 0))

  /** `bs` written into `block` from byte `at` on. */
  function Write(block: seq<byte>, at: nat, bs: seq<byte>): (b: seq<byte>)
    requires at + |bs| <= |block|
    ensures |b| == |block| && b[at..at + |bs|] == bs
    ensures b[..at] == block[..at] && b[at + |bs|..] == block[at + |bs|..]
  {
    block[..at] + bs + block[at + |bs|..]
  }

  /** `RESP_Invalid`: the one-byte answer 0xFF. */
  function Invalid(r: Registers): (r': Registers)
    requires |r.tx.block| == 6
    ensures |r'.tx.block| == 6 && r'.state == Respond && r'.busy && r'.tx.len == 1 && r'.tx.block[0] == DAP_Invalid
    ensures r' == r.(state := Respond, busy := true, tx := r.tx.(block := r'.tx.block, len := 1))
  {
    r.(tx := r.tx.(block := r.tx.block[0 := DAP_Invalid], len := 1), busy := true, state := Respond)
  }

  /** The commands whose packet is the command byte alone. */
  predicate Single(c: byte)
  {
    c == DAP_Disconnect || c == DAP_ResetTarget || c == DAP_SWO_Status || c == DAP_TransferAbort
  }

  /** The fixed packet length of each command with one, counting the command byte; 0 for the others. */
  function PacketLen(c: byte): (n: nat)
    ensures n <= 7 && (Single(c) <==> n == 1)
  {
    if Single(c) then 1
    else if c in {DAP_Info, DAP_Connect, DAP_SWD_Configure, DAP_SWO_Transport, DAP_SWO_Mode, DAP_SWO_Control,
                  DAP_SWO_ExtendedStatus, DAP_JTAG_IDCODE, DAP_SWJ_Sequence} then 2
    else if c in {DAP_HostStatus, DAP_SWO_Data, DAP_JTAG_Configure} then 3
    else if c in {DAP_SWO_Baudrate, DAP_SWJ_Clock, DAP_Delay} then 5
    else if c in {DAP_WriteABORT, DAP_TransferConfigure} then 6
    else if c == DAP_SWJ_Pins then 7
    else 0
  }

  /** The state a command of variable length moves to, for the commands that have one. */
  function LongState(c: byte): (s: Option<FsmState>)
    ensures s.Some? ==> PacketLen(c) == 0 && s.value !in {Idle, RxParams, Respond, SwjSequenceProcess}
  {
    if c == DAP_SWD_Sequence then Some(SwdSequenceGetCount)
    else if c == DAP_JTAG_Sequence then Some(JtagSequenceGetCount)
    else if c == DAP_Transfer then Some(TransferState)
    else if c == DAP_TransferBlock then Some(TransferBlockState)
    else if c == DAP_ExecuteCommands then Some(ExecuteCommandsGetNum)
    else if c == DAP_QueueCommands then Some(QueueCommandsGetNum)
    else None
  }

  /**
   * The `IDLE` state: the transmit count is cleared and input accepted; a
   * byte that starts a packet is taken as the command, which fixes the
   * packet length (or the state for a variable-length command).  A packet
   * that ends with its command byte when it needs parameters is a protocol
   * error; an unknown command is answered with 0xFF at once.
   */
  function StepIdle(r: Registers, b: Beat): (r': Registers)
    requires Wf(r) && r.state == Idle
    ensures Wf(r')
    ensures !(b.valid && b.first) ==> r' == r.(tx := r.tx.(txed := 0), busy := false, streamIn := r'.streamIn)
    ensures b.valid && b.first ==> r'.rx.rxed == 1 && r'.rx.block == r.rx.block[0 := b.payload]
    ensures b.valid && b.first && PacketLen(b.payload) >= 1 ==>
              r'.rx.len == PacketLen(b.payload) && r'.state == (if Single(b.payload) || !b.last then RxParams else ProtocolError)
    ensures b.valid && b.first && PacketLen(b.payload) == 0 && LongState(b.payload).None? ==>
              r'.state == Respond && r'.tx.len == 1 && r'.tx.block[0] == DAP_Invalid
    ensures r'.connected == r.connected && r'.running == r.running && !r'.streamIn.valid
  {
    var r1 := r.(streamIn := r.streamIn.(valid := false), tx := r.tx.(txed := 0), busy := false);
    if !(b.valid && b.first) then r1
    else
      var c := b.payload;
      var r2 := r1.(state := ProtocolError, rx := r.rx.(rxed := 1, block := r.rx.block[0 := c]));
      if Single(c) then r2.(rx := r2.rx.(len := 1), state := RxParams)
      else if PacketLen(c) >= 2 then r2.(rx := r2.rx.(len := PacketLen(c)), state := if !b.last then RxParams else ProtocolError)
      else if LongState(c).Some? then (if !b.last then r2.(state := LongState(c).value) else r2)
      else Invalid(r2)
  }

  /**
   * The answers of `RESP_Info`, by sub-command: the bytes after the command
   * byte.  Vendor, product, serial number and target names are empty; the
   * numeric items are a length byte and the value, least significant first.
   */
  function InfoAnswer(sub: byte): (a: Option<seq<byte>>)
    ensures a.Some? ==> 1 <= |a.value| <= 5
  {
    if sub in {0x01, 0x02, 0x03, 0x05, 0x06} then Some([0])
    else if sub == 0x04 then Some([4] + DAP_VERSION_STRING)
    else if sub == 0xF0 then Some([1, DAP_CAPABILITIES])
    else if sub == 0xF1 then Some([8] + WordBytesLE(DAP_TD_TIMER_FREQ))
    else if sub == 0xFD then Some([4] + WordBytesLE(DAP_TB_SIZE))
    else if sub == 0xFE then Some([1, DAP_MAX_PACKET_COUNT])
    else if sub == 0xFF then Some([2, DAP_MAX_PACKET_SIZE % 256, DAP_MAX_PACKET_SIZE / 256])
    else None
  }

  /**
   * The answer length `RESP_Info` sets as written: for the packet count
   * (0xFE) and packet size (0xFF) it is 6, longer than the answers, so
   * whatever the transmit block held beyond them is sent too.
   */
  function InfoLenAsWritten(sub: byte): (n: nat)
    requires InfoAnswer(sub).Some?
    ensures n == 1 + |InfoAnswer(sub).value| || sub == 0xFE || sub == 0xFF
  {
    if sub in {0x01, 0x02, 0x03, 0x05, 0x06} then 2
    else if sub == 0xF0 then 3
    else 6
  }

  /** `RESP_Info` as written. */
  function RespInfoAsWritten(r: Registers): (r': Registers)
    requires Wf(r) && r.state == RxParams && r.busy == false
    ensures r'.state == Respond
  {
    var r1 := r.(tx := r.tx.(block := r.tx.block[0 := DAP_Info]), state := Respond, busy := true);
    match InfoAnswer(r.rx.block[1])
    case None => Invalid(r1)
    case Some(a) => r1.(tx := r1.tx.(len := InfoLenAsWritten(r.rx.block[1]), block := Write(r1.tx.block, 1, a)))
  }

  /**
   * Asked for the packet count just after the firmware version, the engine
   * as written sends six bytes: the three of the answer and the last three
   * of the version string before it.
   */
  lemma PacketCountSendsStaleBytes(r: Registers)
    requires Wf(r) && r.state == RxParams && !r.busy && r.rx.block[1] == 0xFE
    requires r.tx.block == [DAP_Info, 4] + DAP_VERSION_STRING
    ensures var r' := RespInfoAsWritten(r);
            r'.tx.block[..r'.tx.len] == [0x00, 0x01, 0x40, 0x2e, 0x30, 0x30]
  {
  }

  /** `RESP_Info` with the answer length that fits the answer, which the engine uses. */
  function RespInfo(r: Registers): (r': Registers)
    requires |r.tx.block| == 6 && |r.rx.block| == 7
    ensures |r'.tx.block| == 6 && r'.state == Respond && (r.busy ==> r'.busy)
    ensures InfoAnswer(r.rx.block[1]).Some? ==>
              r'.tx.len == 1 + |InfoAnswer(r.rx.block[1]).value| && r'.tx.block[..r'.tx.len] == [DAP_Info] + InfoAnswer(r.rx.block[1]).value
    ensures InfoAnswer(r.rx.block[1]).None? ==> r'.tx.len == 1 && r'.tx.block[0] == DAP_Invalid
    ensures r'.rx == r.rx && r'.tx.txed == r.tx.txed && r'.connected == r.connected && r'.running == r.running
  {
    var r1 := r.(tx := r.tx.(block := r.tx.block[0 := DAP_Info]), state := Respond);
    match InfoAnswer(r.rx.block[1])
    case None => Invalid(r1)
    case Some(a) => r1.(tx := r1.tx.(len := 1 + |a|, block := Write(r1.tx.block, 1, a)))
  }

  /** `RESP_HostStatus`: sub-command 0 sets the connected light, 1 the running light, each on exactly when the value byte is 1. */
  function RespHostStatus(r: Registers): (r': Registers)
    requires |r.tx.block| == 6 && |r.rx.block| == 7
    ensures |r'.tx.block| == 6 && r'.state == Respond && r'.rx == r.rx && r'.tx.txed == r.tx.txed
    ensures r.rx.block[1] <= 1 ==> r'.tx.len == 2 && r'.tx.block[..2] == [DAP_HostStatus, 0] && r'.busy == r.busy
    ensures r.rx.block[1] > 1 ==> r'.tx.len == 1 && r'.tx.block[0] == DAP_Invalid && r'.busy
    ensures r'.connected == (if r.rx.block[1] == 0 then r.rx.block[2] == 1 else r.connected)
    ensures r'.running == (if r.rx.block[1] == 1 then r.rx.block[2] == 1 else r.running)
  {
    var r1 := r.(tx := r.tx.(block := Write(r.tx.block, 0, [DAP_HostStatus, 0]), len := 2), state := Respond);
    var sub := r.rx.block[1];
    if sub == 0 then r1.(connected := r.rx.block[2] == 1)
    else if sub == 1 then r1.(running := r.rx.block[2] == 1)
    else Invalid(r1)
  }

  /**
   * `RESP_Connect`: the answer is 0xFF unless the requested port is one the
   * unit can drive; with SWD the only capability, port 1 (SWD) and port 0
   * (the default, SWD) connect and port 2 (JTAG) does not.
   */
  function RespConnect(r: Registers): (r': Registers)
    requires |r.tx.block| == 6 && |r.rx.block| == 7
    ensures |r'.tx.block| == 6 && r'.state == Respond && r'.busy && r'.rx == r.rx && r'.tx.txed == r.tx.txed
    ensures r'.connected == r.connected && r'.running == r.running
    ensures r.rx.block[1] <= 1 ==> r'.tx.len == 2 && r'.tx.block[..2] == [DAP_Connect, 1]
    ensures r.rx.block[1] > 1 ==> r'.tx.len == 1 && r'.tx.block[0] == DAP_Invalid
  {
    var sub := r.rx.block[1];
    var r1 := Invalid(r);
    var r2 := if DAP_CAPABILITIES % 2 == 1 && ((sub == 0 && DAP_CONNECT_DEFAULT == 1) || sub == 1)
              then r1.(tx := r1.tx.(block := Write(r1.tx.block, 0, [DAP_Connect, 1]), len := 2), state := Respond)
              else r1;
    var jtag := r2.(tx := r2.tx.(block := Write(r2.tx.block, 0, [DAP_Connect, 2]), len := 2), state := Respond);
    if (DAP_CAPABILITIES / 2) % 2 == 1 && ((sub == 0 && DAP_CONNECT_DEFAULT == 2) || sub == 2) then jtag else r2
  }

  /** A fixed answer. */
  function Reply(r: Registers, bs: seq<byte>): (r': Registers)
    requires |r.tx.block| == 6 && |bs| <= 6
    ensures |r'.tx.block| == 6 && r'.state == Respond && r'.tx.len == |bs| && r'.tx.block[..|bs|] == bs
    ensures r' == r.(tx := r.tx.(block := r'.tx.block, len := |bs|), state := Respond)
  {
    r.(tx := r.tx.(block := Write(r.tx.block, 0, bs), len := |bs|), state := Respond)
  }

  /** The action dispatcher: with the whole packet in, its command is answered. */
  function Dispatch(r: Registers): (r': Registers)
    requires |r.tx.block| == 6 && |r.rx.block| == 7 && r.busy
    ensures r'.state == Respond || r'.state == SwjSequenceProcess
    ensures r'.rx == r.rx && r'.tx.txed == r.tx.txed && r'.busy && |r'.tx.block| == 6 && r'.tx.len <= 6
  {
    var c := r.rx.block[0];
    if c == DAP_Info then RespInfo(r)
    else if c == DAP_HostStatus then RespHostStatus(r)
    else if c == DAP_Connect then RespConnect(r)
    else if c == DAP_Disconnect then Reply(r, [DAP_Disconnect, 0])
    else if c == DAP_WriteABORT then Reply(r, [DAP_WriteABORT, 0])
    else if c == DAP_Delay then Reply(r, [DAP_Delay, 0])
    else if c == DAP_ResetTarget then Reply(r, [DAP_ResetTarget, 0, 0])
    else if c == DAP_SWJ_Pins then Reply(r, [DAP_SWJ_Pins, 0x99])
    else if c == DAP_SWJ_Clock then Reply(r, [DAP_SWJ_Clock, 0])
    else if c == DAP_SWJ_Sequence then
      r.(tx := r.tx.(block := r.tx.block[0 := DAP_SWJ_Sequence], len := 2), swjbits := r.rx.block[1], state := SwjSequenceProcess)
    else Invalid(r)
  }

  /**
   * The `RxParams` state: once the packet is complete it is dispatched and
   * the engine turns busy; until then each byte offered is stored.  A byte
   * marked last that does not complete the packet gives 0xFF.
   */
  function StepRxParams(r: Registers, b: Beat): (r': Registers)
    requires Wf(r) && r.state == RxParams
    ensures Wf(r')
  {
    var r0 := r.(streamIn := r.streamIn.(valid := false));
    var r1 := if r.rx.rxed == r.rx.len then Dispatch(r0.(busy := true))
              else if b.valid then r0.(rx := r.rx.(block := r.rx.block[r.rx.rxed := b.payload], rxed := r.rx.rxed + 1))
              else r0;
    if b.last && r.rx.rxed + 1 != r.rx.len then Invalid(r1) else r1
  }

  /**
   * The `RESPOND` state: while bytes remain, each clock the host is ready
   * the next one is offered, marked last when it is the final one; then
   * the engine clears its receive count and busy flag and goes idle.
   */
  function StepRespond(r: Registers, inReady: bool): (r': Registers)
    requires Wf(r) && r.state == Respond
    ensures Wf(r')
    ensures r.tx.txed < r.tx.len && inReady ==>
              r' == r.(streamIn := Beat(true, r.streamIn.first, r.tx.txed + 1 == r.tx.len, r.tx.block[r.tx.txed]), tx := r.tx.(txed := r.tx.txed + 1))
    ensures r.tx.txed < r.tx.len && !inReady ==> r' == r.(streamIn := r.streamIn.(valid := false))
    ensures r.tx.txed >= r.tx.len ==>
              r' == r.(streamIn := r.streamIn.(valid := false, last := false), rx := r.rx.(rxed := 0), busy := false, state := Idle)
  {
    var r0 := r.(streamIn := r.streamIn.(valid := false));
    if r.tx.txed < r.tx.len then
      if inReady then
        r0.(streamIn := r0.streamIn.(payload := r.tx.block[r.tx.txed], valid := true, last := r.tx.txed + 1 == r.tx.len),
            tx := r.tx.(txed := r.tx.txed + 1))
      else r0
    else r0.(streamIn := r0.streamIn.(valid := false, last := false), rx := r.rx.(rxed := 0), busy := false, state := Idle)
  }

  /**
   * `RESP_SWJ_Sequence_Process`: each byte offered counts eight bits off;
   * the answer's status is settled when at most eight bits remained, or
   * when the packet ends (non-zero if bits were still owed).
   */
  function StepSwj(r: Registers, b: Beat): (r': Registers)
    requires Wf(r) && r.state == SwjSequenceProcess
    ensures Wf(r') && r'.tx.len == r.tx.len && r'.tx.txed == r.tx.txed && r'.tx.block[0] == r.tx.block[0]
    ensures b.valid ==> r'.swjbits as int == (r.swjbits as int - 8) % 256
    ensures !b.valid ==> r'.swjbits == r.swjbits
    ensures b.last ==> r'.state == Respond && r'.tx.block == r.tx.block[1 := if r.swjbits != 0 then 1 else 0]
    ensures b.valid && !b.last ==>
              (r'.state == Respond <==> r.swjbits < 9) && r'.tx.block == (if r.swjbits < 9 then r.tx.block[1 := 1] else r.tx.block)
    ensures !b.valid && !b.last ==> r'.state == SwjSequenceProcess && r'.tx == r.tx
  {
    var r0 := r.(streamIn := r.streamIn.(valid := false));
    var r1 := if b.valid then
                var r2 := r0.(swjbits := (r.swjbits as int - 8) % 256);
                if r.swjbits < 9 then r2.(tx := r.tx.(block := r.tx.block[1 := if b.last then 0 else 1]), state := Respond) else r2
              else r0;
    if b.last then r1.(tx := r1.tx.(block := r1.tx.block[1 := if r.swjbits != 0 then 1 else 0]), state := Respond) else r1
  }

  /** The bits a count byte asks for: 1 to 255, and 0 for 256. */
  function SwjOwed(x: byte): (n: nat)
    ensures 1 <= n <= 256 && n % 256 == x as int
  {
    if x == 0 then 256 else x as nat
  }

  /**
   * The SWJ sequence step as evidently intended: a byte counts eight bits
   * off only when it is delivered (`b.valid` and the engine `accepted`
   * it); the status is settled by the byte that completes the bits (0 if
   * it ends the packet, 1 if more follow) or by the packet ending while
   * bits are owed (1).  This replaces the status test of a last byte as
   * written, `swjbits != 0` on the count before that byte, which is 1 for
   * every count from 1 to 255.
   */
  function StepSwjFixed(r: Registers, b: Beat, accepted: bool): (r': Registers)
    requires Wf(r) && r.state == SwjSequenceProcess
    ensures Wf(r') && r'.tx.len == r.tx.len && r'.tx.txed == r.tx.txed && r'.tx.block[0] == r.tx.block[0]
    ensures !(b.valid && accepted) ==> r'.state == SwjSequenceProcess && r'.swjbits == r.swjbits
    ensures b.valid && accepted ==>
              && (r'.state == Respond <==> SwjOwed(r.swjbits) <= 8 || b.last)
              && (r'.state == Respond ==> r'.tx.block == r.tx.block[1 := if SwjOwed(r.swjbits) <= 8 && b.last then 0 else 1])
              && (r'.state != Respond ==> r'.state == SwjSequenceProcess && SwjOwed(r'.swjbits) == SwjOwed(r.swjbits) - 8 && r'.tx == r.tx)
  {
    var r0 := r.(streamIn := r.streamIn.(valid := false));
    if b.valid && accepted then
      var r1 := r0.(swjbits := (r.swjbits as int - 8) % 256);
      if SwjOwed(r.swjbits) <= 8 || b.last then
        r1.(tx := r.tx.(block := r.tx.block[1 := if SwjOwed(r.swjbits) <= 8 && b.last then 0 else 1]), state := Respond)
      else r1
    else r0
  }

  /** The corrected step fed the data bytes of a packet, each delivered, until it answers or the bytes run out. */
  function SwjFixedRun(r: Registers, data: seq<byte>): (r': Registers)
    requires Wf(r) && r.state == SwjSequenceProcess
    ensures Wf(r') && r'.tx.len == r.tx.len && r'.tx.block[0] == r.tx.block[0]
    decreases |data|
  {
    if data == [] then r
    else
      var r1 := StepSwjFixed(r, Beat(true, false, |data| == 1, data[0]), true);
      if r1.state == SwjSequenceProcess then SwjFixedRun(r1, data[1..]) else r1
  }

  /** One clock of the engine, `b` being offered on the OUT stream and `inReady` the IN stream's readiness. */
  function Step(r: Registers, b: Beat, inReady: bool): (r': Registers)
    requires Wf(r)
    ensures Wf(r')
    ensures r.state !in {Idle, RxParams, Respond, SwjSequenceProcess} ==> r'.state == Respond && r'.tx.len == 1 && r'.tx.block[0] == DAP_Invalid
  {
    match r.state
    case Idle => StepIdle(r, b)
    case RxParams => StepRxParams(r, b)
    case Respond => StepRespond(r, inReady)
    case SwjSequenceProcess => StepSwj(r, b)
    case _ => Invalid(r.(streamIn := r.streamIn.(valid := false)))
  }

  /** The engine as a hardware block: its registers, clocked by `Clock`. */
  class Engine {
    var state: FsmState
    var rx: Rx
    var tx: Tx
    var busy: bool
    var connected: bool
    var running: bool
    var swjbits: byte
    var streamIn: Beat

    ghost function Snapshot(): Registers
      reads this
    {
      Registers(state, rx, tx, busy, connected, running, swjbits, streamIn)
    }

    ghost predicate Valid()
      reads this
    {
      Wf(Snapshot())
    }

    /** Every register at zero and the engine idle. */
    constructor ()
      ensures Valid() && Snapshot() == INITIAL
    {
      state, rx, tx := Idle, INITIAL.rx, INITIAL.tx;
      busy, connected, running, swjbits, streamIn := false, false, false, 0, INITIAL.streamIn;
    }

    /** `RESP_Invalid`. */
    method RespInvalid()
      requires |tx.block| == 6
      modifies this
      ensures Snapshot() == Invalid(old(Snapshot()))
    {
      tx := tx.(block := tx.block[0 := DAP_Invalid], len := 1);
      busy := true;
      state := Respond;
    }

    /** The `IDLE` state's clock. */
    method IdleClock(b: Beat)
      requires Valid() && state == Idle
      modifies this
      ensures Snapshot() == StepIdle(old(Snapshot()), b)
    {
      streamIn := streamIn.(valid := false);
      tx := tx.(txed := 0);
      busy := false;
      if b.valid && b.first {
        var c := b.payload;
        state := ProtocolError;
        rx := rx.(rxed := 1, block := rx.block[0 := c]);
        if Single(c) {
          rx := rx.(len := 1);
          state := RxParams;
        } else if PacketLen(c) >= 2 {
          rx := rx.(len := PacketLen(c));
          if !b.last {
            state := RxParams;
          }
        } else if LongState(c).Some? {
          if !b.last {
            state := LongState(c).value;
          }
        } else {
          RespInvalid();
        }
      }
    }

    /** The `RxParams` state's clock. */
    method RxParamsClock(b: Beat)
      requires Valid() && state == RxParams
      modifies this
      ensures Snapshot() == StepRxParams(old(Snapshot()), b)
    {
      var rx0 := rx;
      streamIn := streamIn.(valid := false);
      if rx0.rxed == rx0.len {
        var d := Dispatch(Registers(state, rx, tx, true, connected, running, swjbits, streamIn));
        state, rx, tx, busy, connected, running, swjbits, streamIn := d.state, d.rx, d.tx, d.busy, d.connected, d.running, d.swjbits, d.streamIn;
      } else if b.valid {
        rx := rx.(block := rx.block[rx0.rxed := b.payload], rxed := rx0.rxed + 1);
      }
      if b.last && rx0.rxed + 1 != rx0.len {
        RespInvalid();
      }
    }

    /** The `RESPOND` state's clock. */
    method RespondClock(inReady: bool)
      requires Valid() && state == Respond
      modifies this
      ensures Snapshot() == StepRespond(old(Snapshot()), inReady)
    {
      streamIn := streamIn.(valid := false);
      if tx.txed < tx.len {
        if inReady {
          streamIn := streamIn.(payload := tx.block[tx.txed], valid := true, last := tx.txed + 1 == tx.len);
          tx := tx.(txed := tx.txed + 1);
        }
      } else {
        streamIn := streamIn.(valid := false, last := false);
        rx := rx.(rxed := 0);
        busy := false;
        state := Idle;
      }
    }

    /** The `RESP_SWJ_Sequence_Process` state's clock. */
    method SwjClock(b: Beat)
      requires Valid() && state == SwjSequenceProcess
      modifies this
      ensures Snapshot() == StepSwj(old(Snapshot()), b)
    {
      var tx0, swj0 := tx, swjbits;
      streamIn := streamIn.(valid := false);
      if b.valid {
        swjbits := (swj0 as int - 8) % 256;
        if swj0 < 9 {
          tx := tx.(block := tx0.block[1 := if b.last then 0 else 1]);
          state := Respond;
        }
      }
      if b.last {
        tx := tx.(block := tx.block[1 := if swj0 != 0 then 1 else 0]);
        state := Respond;
      }
    }

    /** One rising edge of the USB clock. */
    method Clock(b: Beat, inReady: bool)
      requires Valid()
      modifies this
      ensures Valid() && Snapshot() == Step(old(Snapshot()), b, inReady)
    {
      match state
      case Idle => IdleClock(b);
      case RxParams => RxParamsClock(b);
      case Respond => RespondClock(inReady);
      case SwjSequenceProcess => SwjClock(b);
      case _ =>
        streamIn := streamIn.(valid := false);
        RespInvalid();
    }
  }

  /** The host side: the beats of packets still to be offered, and the bytes the engine has sent back. */
  datatype Trace = Trace(regs: Registers, pending: seq<Beat>, out: seq<byte>)

  /** One clock with a host that is always ready: the first pending beat is offered and taken if the engine is not busy. */
  function Tick(t: Trace): (t': Trace)
    requires Wf(t.regs)
    ensures Wf(t'.regs)
  {
    var b := if t.pending == [] then QUIET else t.pending[0];
    var r' := Step(t.regs, b, true);
    Trace(r', if !t.regs.busy && t.pending != [] then t.pending[1..] else t.pending,
          t.out + (if r'.streamIn.valid then [r'.streamIn.payload] else []))
  }

  /** A clock of any trace: `Tick` where the registers are well formed, nothing otherwise. */
  function Next(t: Trace): (t': Trace)
    ensures Wf(t.regs) ==> t' == Tick(t)
  {
    if Wf(t.regs) then Tick(t) else t
  }

  /**
   * `f` clocks the engine: on well-formed registers it is `Tick`.  The
   * lemmas below reason about any such `f`, so that each clock is looked
   * into only where a proof names it.
   */
  ghost predicate Clocked(f: Trace -> Trace)
  {
    forall x: Trace {:trigger Tick(x)} :: Wf(x.regs) ==> f(x) == Tick(x)
  }

  lemma NextClocked()
    ensures Clocked(Next)
  {
  }

  /** `n` applications of `f`. */
  function Iterate(f: Trace -> Trace, t: Trace, n: nat): Trace
    decreases n
  {
    if n == 0 then t else f(Iterate(f, t, n - 1))
  }

  /** The first of `n + 1` applications comes first. */
  lemma {:induction false} IterateFirst(f: Trace -> Trace, t: Trace, n: nat)
    ensures Iterate(f, t, n + 1) == Iterate(f, f(t), n)
    decreases n
  {
    if n > 0 {
      IterateFirst(f, t, n - 1);
    }
  }

  /** Applying `f` `a` times and then `b` more is applying it `a + b` times. */
  lemma {:induction false} IterateAdd(f: Trace -> Trace, t: Trace, a: nat, b: nat)
    ensures Iterate(f, t, a + b) == Iterate(f, Iterate(f, t, a), b)
    decreases b
  {
    if b > 0 {
      IterateAdd(f, t, a, b - 1);
    }
  }

  /** Clocking keeps the registers well formed. */
  lemma {:induction false} IterateWf(f: Trace -> Trace, t: Trace, n: nat)
    requires Clocked(f) && Wf(t.regs)
    ensures Wf(Iterate(f, t, n).regs)
    decreases n
  {
    if n > 0 {
      IterateWf(f, t, n - 1);
      var u := Iterate(f, t, n - 1);
      assert f(u) == Tick(u);
    }
  }

  /** The beats of a packet sent as one USB transfer. */
  function Packet(p: seq<byte>): (bs: seq<Beat>)
    ensures |bs| == |p|
    ensures forall i :: 0 <= i < |p| ==> bs[i] == Beat(true, i == 0, i == |p| - 1, p[i])
  {
    seq(|p|, i requires 0 <= i < |p| => Beat(true, i == 0, i == |p| - 1, p[i]))
  }

  /**
   * The answer CMSIS-DAP gives to a packet of the length its command fixes,
   * for the commands the engine answers at once: the implemented ones, and
   * 0xFF for the others.
   */
  function Response(p: seq<byte>): (a: seq<byte>)
    requires 1 <= |p| && |p| == PacketLen(p[0]) && p[0] != DAP_SWJ_Sequence
    ensures 1 <= |a| <= 6
  {
    var c := p[0];
    if c == DAP_Info then
      (match InfoAnswer(p[1]) case Some(x) => [DAP_Info] + x case None => [DAP_Invalid])
    else if c == DAP_HostStatus then (if p[1] <= 1 then [DAP_HostStatus, 0] else [DAP_Invalid])
    else if c == DAP_Connect then (if p[1] <= 1 then [DAP_Connect, 1] else [DAP_Invalid])
    else if c == DAP_Disconnect then [DAP_Disconnect, 0]
    else if c == DAP_WriteABORT then [DAP_WriteABORT, 0]
    else if c == DAP_Delay then [DAP_Delay, 0]
    else if c == DAP_ResetTarget then [DAP_ResetTarget, 0, 0]
    else if c == DAP_SWJ_Pins then [DAP_SWJ_Pins, 0x99]
    else if c == DAP_SWJ_Clock then [DAP_SWJ_Clock, 0]
    else [DAP_Invalid]
  }

  /** The engine is idle and every earlier answer has been sent. */
  predicate Ready(t: Trace)
  {
    Wf(t.regs) && t.regs.state == Idle && !t.regs.busy
  }

  /** The first clock of a packet takes its command byte. */
  lemma TakeCommand(f: Trace -> Trace, t: Trace, p: seq<byte>)
    requires Clocked(f) && Ready(t) && 1 <= |p| && t.pending == Packet(p)
    ensures var t1 := f(t);
            && Wf(t1.regs) && t1.pending == Packet(p)[1..] && t1.out == t.out && t1.regs.tx.txed == 0
            && t1.regs.rx.rxed == 1 && t1.regs.rx.block[..1] == p[..1]
            && t1.regs.connected == t.regs.connected && t1.regs.running == t.regs.running
    ensures PacketLen(p[0]) >= 1 && (|p| >= 2 || Single(p[0])) ==> f(t).regs.state == RxParams && f(t).regs.rx.len == PacketLen(p[0])
    ensures PacketLen(p[0]) >= 2 && |p| == 1 ==> f(t).regs.state == ProtocolError
    ensures PacketLen(p[0]) == 0 && LongState(p[0]).None? ==>
              f(t).regs.state == Respond && f(t).regs.tx.len == 1 && f(t).regs.tx.block[0] == DAP_Invalid
  {
    assert f(t) == Tick(t);
    assert t.pending[0] == Beat(true, true, |p| == 1, p[0]);
  }

  /** A clock in `RxParams` stores the next byte offered; a last byte that leaves the packet short gives 0xFF. */
  lemma StoreByte(f: Trace -> Trace, t: Trace, p: seq<byte>, i: nat)
    requires Clocked(f) && Wf(t.regs) && t.regs.state == RxParams && 1 <= i < |p| <= t.regs.rx.len
    requires t.regs.rx.rxed == i && t.pending == Packet(p)[i..]
    ensures var t1 := f(t);
            && Wf(t1.regs) && t1.pending == Packet(p)[i + 1..] && t1.out == t.out
            && t1.regs.rx == t.regs.rx.(rxed := i + 1, block := t.regs.rx.block[i := p[i]])
            && t1.regs.connected == t.regs.connected && t1.regs.running == t.regs.running
    ensures i + 1 < |p| || |p| == t.regs.rx.len ==> f(t).regs.state == RxParams && f(t).regs.tx == t.regs.tx
    ensures i + 1 == |p| < t.regs.rx.len ==>
              f(t).regs.state == Respond && f(t).regs.tx.len == 1 && f(t).regs.tx.txed == 0 && f(t).regs.tx.block[0] == DAP_Invalid
  {
    assert f(t) == Tick(t);
    assert t.pending[0] == Packet(p)[i];
  }

  /** While parameters arrive, each clock stores the next packet byte. */
  lemma {:induction false} ReceiveRest(f: Trace -> Trace, t: Trace, p: seq<byte>, i: nat)
    requires Clocked(f) && Wf(t.regs) && t.regs.state == RxParams && 1 <= i <= |p| && t.regs.rx.len == |p|
    requires t.regs.rx.rxed == i && t.regs.rx.block[..i] == p[..i] && t.pending == Packet(p)[i..]
    ensures var t' := Iterate(f, t, |p| - i);
            && Wf(t'.regs) && t'.regs.state == RxParams && t'.regs.rx.rxed == |p| && t'.regs.rx.len == |p|
            && t'.regs.rx.block[..|p|] == p && t'.pending == [] && t'.out == t.out && t'.regs.tx == t.regs.tx
            && t'.regs.connected == t.regs.connected && t'.regs.running == t.regs.running
    decreases |p| - i
  {
    if i < |p| {
      StoreByte(f, t, p, i);
      var t1 := f(t);
      assert t1.regs.rx.block[..i + 1] == p[..i + 1];
      IterateFirst(f, t, |p| - i - 1);
      ReceiveRest(f, t1, p, i + 1);
    } else {
      assert Packet(p)[i..] == [];
    }
  }

  /** A whole packet of the length its command fixes is taken in, one byte a clock. */
  lemma Receive(f: Trace -> Trace, t: Trace, p: seq<byte>)
    requires Clocked(f) && Ready(t) && 1 <= |p| && |p| == PacketLen(p[0]) && t.pending == Packet(p)
    ensures var t' := Iterate(f, t, |p|);
            && Wf(t'.regs) && t'.regs.state == RxParams && t'.regs.rx.rxed == |p| && t'.regs.rx.len == |p|
            && t'.regs.rx.block[..|p|] == p && t'.pending == [] && t'.out == t.out && t'.regs.tx.txed == 0
            && t'.regs.connected == t.regs.connected && t'.regs.running == t.regs.running
  {
    TakeCommand(f, t, p);
    IterateFirst(f, t, |p| - 1);
    ReceiveRest(f, f(t), p, 1);
  }

  /** Dispatching a complete packet loads the CMSIS-DAP answer to it. */
  lemma DispatchResponse(r: Registers, p: seq<byte>)
    requires |r.tx.block| == 6 && |r.rx.block| == 7 && r.busy
    requires 1 <= |p| && |p| == PacketLen(p[0]) && p[0] != DAP_SWJ_Sequence && r.rx.block[..|p|] == p
    ensures var d := Dispatch(r);
            && d.state == Respond && d.tx.block[..d.tx.len] == Response(p)
            && d.connected == (if p[0] == DAP_HostStatus && p[1] == 0 then p[2] == 1 else r.connected)
            && d.running == (if p[0] == DAP_HostStatus && p[1] == 1 then p[2] == 1 else r.running)
  {
    assert r.rx.block[0] == p[0];
    if |p| >= 2 {
      assert r.rx.block[1] == p[1];
    }
    if |p| >= 3 {
      assert r.rx.block[2] == p[2];
    }
  }

  /** With the packet complete, one clock dispatches it and loads the answer. */
  lemma DispatchAnswers(f: Trace -> Trace, t: Trace, p: seq<byte>)
    requires Clocked(f) && Wf(t.regs) && t.regs.state == RxParams && 1 <= |p| && |p| == PacketLen(p[0]) && p[0] != DAP_SWJ_Sequence
    requires t.regs.rx.rxed == |p| && t.regs.rx.len == |p| && t.regs.rx.block[..|p|] == p && t.pending == [] && t.regs.tx.txed == 0
    ensures var t' := f(t);
            && Wf(t'.regs) && t'.regs.state == Respond && t'.regs.tx.txed == 0 && t'.regs.tx.block[..t'.regs.tx.len] == Response(p)
            && t'.pending == [] && t'.out == t.out
            && t'.regs.connected == (if p[0] == DAP_HostStatus && p[1] == 0 then p[2] == 1 else t.regs.connected)
            && t'.regs.running == (if p[0] == DAP_HostStatus && p[1] == 1 then p[2] == 1 else t.regs.running)
  {
    var r0 := t.regs.(streamIn := t.regs.streamIn.(valid := false), busy := true);
    DispatchResponse(r0, p);
    assert f(t) == Tick(t);
    assert Tick(t).regs == Dispatch(r0);
  }

  /** One clock of an answering engine sends the next answer byte, or ends the answer. */
  lemma SendByte(f: Trace -> Trace, t: Trace)
    requires Clocked(f) && Wf(t.regs) && t.regs.state == Respond
    ensures var t1, r := f(t), t.regs;
            && Wf(t1.regs) && t1.pending == t.pending && t1.regs.connected == r.connected && t1.regs.running == r.running
            && (r.tx.txed < r.tx.len ==>
                  t1.regs.state == Respond && t1.regs.tx == r.tx.(txed := r.tx.txed + 1) && t1.out == t.out + [r.tx.block[r.tx.txed]])
            && (r.tx.txed >= r.tx.len ==> Ready(t1) && t1.regs.rx.rxed == 0 && t1.out == t.out)
  {
    assert f(t) == Tick(t);
  }

  /** A protocol error, or a command the engine does not carry out, is answered with 0xFF. */
  lemma RejectCommand(f: Trace -> Trace, t: Trace)
    requires Clocked(f) && Wf(t.regs) && t.regs.state !in {Idle, RxParams, Respond, SwjSequenceProcess} && t.pending == []
    ensures var t1 := f(t);
            && Wf(t1.regs) && t1.pending == [] && t1.out == t.out
            && t1.regs.state == Respond && t1.regs.tx.len == 1 && t1.regs.tx.txed == 0 && t1.regs.tx.block[0] == DAP_Invalid
  {
    assert f(t) == Tick(t);
  }

  /** Once the answer is sent, the engine goes idle. */
  lemma {:induction false} Drain(f: Trace -> Trace, t: Trace)
    requires Clocked(f) && Wf(t.regs) && t.regs.state == Respond
    ensures var t' := Iterate(f, t, t.regs.tx.len - t.regs.tx.txed + 1);
            && Ready(t') && t'.pending == t.pending && t'.regs.rx.rxed == 0
            && t'.regs.connected == t.regs.connected && t'.regs.running == t.regs.running
    decreases t.regs.tx.len - t.regs.tx.txed
  {
    var tx := t.regs.tx;
    SendByte(f, t);
    IterateFirst(f, t, tx.len - tx.txed);
    if tx.txed < tx.len {
      Drain(f, f(t));
    }
  }

  /** The answer is sent one byte a clock, in order. */
  lemma {:induction false} DrainSends(f: Trace -> Trace, t: Trace)
    requires Clocked(f) && Wf(t.regs) && t.regs.state == Respond
    ensures Iterate(f, t, t.regs.tx.len - t.regs.tx.txed + 1).out == t.out + t.regs.tx.block[t.regs.tx.txed..t.regs.tx.len]
    decreases t.regs.tx.len - t.regs.tx.txed
  {
    var tx := t.regs.tx;
    SendByte(f, t);
    IterateFirst(f, t, tx.len - tx.txed);
    if tx.txed < tx.len {
      DrainSends(f, f(t));
      assert tx.block[tx.txed..tx.len] == [tx.block[tx.txed]] + tx.block[tx.txed + 1..tx.len];
    } else {
      assert tx.block[tx.txed..tx.len] == [];
    }
  }

  /**
   * A packet of the length its command fixes, sent to an idle engine, is
   * answered with exactly the CMSIS-DAP answer, after which the engine is
   * idle again; a host status packet sets the light it names.
   */
  lemma Exchange(f: Trace -> Trace, t: Trace, p: seq<byte>)
    requires Clocked(f) && Ready(t) && 1 <= |p| && |p| == PacketLen(p[0]) && p[0] != DAP_SWJ_Sequence && t.pending == Packet(p)
    ensures var t' := Iterate(f, t, |p| + 2 + |Response(p)|);
            && Ready(t') && t'.pending == [] && t'.out == t.out + Response(p)
            && t'.regs.connected == (if p[0] == DAP_HostStatus && p[1] == 0 then p[2] == 1 else t.regs.connected)
            && t'.regs.running == (if p[0] == DAP_HostStatus && p[1] == 1 then p[2] == 1 else t.regs.running)
  {
    Receive(f, t, p);
    var t1 := Iterate(f, t, |p|);
    DispatchAnswers(f, t1, p);
    var t2 := f(t1);
    IterateAdd(f, t, |p|, 1);
    assert Iterate(f, t, |p| + 1) == t2;
    Drain(f, t2);
    DrainSends(f, t2);
    assert t2.regs.tx.block[0..t2.regs.tx.len] == Response(p);
    IterateAdd(f, t, |p| + 1, |Response(p)| + 1);
  }

  /** A packet that starts with a command the engine does not know is answered with the single byte 0xFF. */
  lemma UnknownCommand(f: Trace -> Trace, t: Trace, c: byte)
    requires Clocked(f) && Ready(t) && PacketLen(c) == 0 && LongState(c).None? && t.pending == Packet([c])
    ensures var t' := Iterate(f, t, 3);
            Ready(t') && t'.pending == [] && t'.out == t.out + [DAP_Invalid]
  {
    TakeCommand(f, t, [c]);
    var t1 := f(t);
    IterateFirst(f, t, 2);
    Drain(f, t1);
    DrainSends(f, t1);
    assert t1.regs.tx.block[0..1] == [DAP_Invalid];
  }

  /** A packet that ends before its command's parameters have all arrived is answered with 0xFF. */
  lemma ShortPacket(f: Trace -> Trace, t: Trace, p: seq<byte>)
    requires Clocked(f) && Ready(t) && 1 <= |p| < PacketLen(p[0]) && t.pending == Packet(p)
    ensures var t' := Iterate(f, t, if |p| == 1 then 4 else |p| + 2);
            Ready(t') && t'.pending == [] && t'.out == t.out + [DAP_Invalid]
  {
    TakeCommand(f, t, p);
    var t1 := f(t);
    if |p| == 1 {
      IterateFirst(f, t, 3);
      ProtocolErrorAnswer(f, t1);
    } else {
      IterateFirst(f, t, |p| + 1);
      ShortRest(f, t1, p, 1);
    }
  }

  /** A protocol error is answered with 0xFF. */
  lemma ProtocolErrorAnswer(f: Trace -> Trace, t: Trace)
    requires Clocked(f) && Wf(t.regs) && t.regs.state == ProtocolError && t.pending == []
    ensures var t' := Iterate(f, t, 3);
            Ready(t') && t'.pending == [] && t'.out == t.out + [DAP_Invalid]
  {
    RejectCommand(f, t);
    var t1 := f(t);
    IterateFirst(f, t, 2);
    Drain(f, t1);
    DrainSends(f, t1);
    assert t1.regs.tx.block[0..1] == [DAP_Invalid];
  }

  /** The bytes of a short packet are stored until the last, which gives 0xFF. */
  lemma {:induction false} ShortRest(f: Trace -> Trace, t: Trace, p: seq<byte>, i: nat)
    requires Clocked(f) && Wf(t.regs) && t.regs.state == RxParams && 1 <= i < |p| < t.regs.rx.len
    requires t.regs.rx.rxed == i && t.pending == Packet(p)[i..]
    ensures var t' := Iterate(f, t, |p| - i + 2);
            Ready(t') && t'.pending == [] && t'.out == t.out + [DAP_Invalid]
    decreases |p| - i
  {
    StoreByte(f, t, p, i);
    var t1 := f(t);
    IterateFirst(f, t, |p| - i + 1);
    if i + 1 < |p| {
      ShortRest(f, t1, p, i + 1);
    } else {
      assert Packet(p)[i + 1..] == [];
      Drain(f, t1);
      DrainSends(f, t1);
      assert t1.regs.tx.block[0..1] == [DAP_Invalid];
    }
  }

  /** A parameter byte that is not the packet's last is stored, in a packet longer than its command's length. */
  lemma StoreEarly(f: Trace -> Trace, t: Trace, p: seq<byte>, i: nat)
    requires Clocked(f) && Wf(t.regs) && t.regs.state == RxParams && 1 <= i < t.regs.rx.len < |p|
    requires t.regs.rx.rxed == i && t.pending == Packet(p)[i..]
    ensures var t1 := f(t);
            && Wf(t1.regs) && t1.regs.state == RxParams && t1.regs.rx.rxed == i + 1 && t1.regs.rx.len == t.regs.rx.len
            && t1.regs.rx.block == t.regs.rx.block[i := p[i]] && t1.regs.tx == t.regs.tx
            && t1.pending == Packet(p)[i + 1..] && t1.out == t.out
  {
    assert f(t) == Tick(t);
    assert t.pending[0] == Packet(p)[i];
  }

  /** The parameters of a packet one byte longer than its command's length arrive one a clock. */
  lemma {:induction false} ReceiveOver(f: Trace -> Trace, t: Trace, p: seq<byte>, i: nat)
    requires Clocked(f) && Wf(t.regs) && t.regs.state == RxParams && 1 <= i <= t.regs.rx.len && t.regs.rx.len + 1 == |p|
    requires t.regs.rx.rxed == i && t.pending == Packet(p)[i..]
    ensures var t' := Iterate(f, t, |p| - 1 - i);
            && Wf(t'.regs) && t'.regs.state == RxParams && t'.regs.rx.rxed == |p| - 1 && t'.regs.rx.len == |p| - 1
            && t'.pending == Packet(p)[|p| - 1..] && t'.out == t.out
    decreases |p| - i
  {
    if i < |p| - 1 {
      StoreEarly(f, t, p, i);
      IterateFirst(f, t, |p| - 2 - i);
      ReceiveOver(f, f(t), p, i + 1);
    }
  }

  /**
   * The clock that dispatches a complete packet still takes the beat
   * offered, as input is refused only from the next clock on; a beat that
   * ends the packet there turns the answer into 0xFF.
   */
  lemma ExtraByteClock(f: Trace -> Trace, t: Trace, p: seq<byte>)
    requires Clocked(f) && Wf(t.regs) && t.regs.state == RxParams && 2 <= |p| && t.regs.rx.len + 1 == |p|
    requires t.regs.rx.rxed == |p| - 1 && t.pending == Packet(p)[|p| - 1..]
    ensures var t1 := f(t);
            && Wf(t1.regs) && t1.regs.state == Respond && t1.regs.tx.len == 1 && t1.regs.tx.txed == 0
            && t1.regs.tx.block[0] == DAP_Invalid && t1.pending == [] && t1.out == t.out
  {
    assert f(t) == Tick(t);
    assert t.pending == [Beat(true, false, true, p[|p| - 1])];
  }

  /**
   * A packet one byte longer than its command's length is answered with
   * 0xFF: its last byte arrives in the clock that dispatches the command,
   * where the test for a short packet sees a last byte that does not
   * complete the parameters.
   */
  lemma OverlongPacket(f: Trace -> Trace, t: Trace, p: seq<byte>)
    requires Clocked(f) && Ready(t) && 2 <= |p| && |p| == PacketLen(p[0]) + 1 && t.pending == Packet(p)
    ensures var t' := Iterate(f, t, |p| + 2);
            Ready(t') && t'.pending == [] && t'.out == t.out + [DAP_Invalid]
  {
    TakeCommand(f, t, p);
    var t1 := f(t);
    ReceiveOver(f, t1, p, 1);
    var t2 := Iterate(f, t1, |p| - 2);
    ExtraByteClock(f, t2, p);
    var t3 := f(t2);
    Drain(f, t3);
    DrainSends(f, t3);
    assert t3.regs.tx.block[0..1] == [DAP_Invalid];
    IterateFirst(f, t, |p| - 2);
    IterateAdd(f, t1, |p| - 2, 1);
    IterateAdd(f, t1, |p| - 1, 2);
    IterateFirst(f, t, |p| + 1);
  }

  /**
   * The one-data-byte bit sequence `12 03 01` of the unused second list of
   * vectors in the unit's test script is answered with 0xFF by the engine,
   * where that list expects `12 00`.
   */
  lemma SwjSequenceVector(f: Trace -> Trace, t: Trace)
    requires Clocked(f) && Ready(t) && t.pending == Packet([DAP_SWJ_Sequence, 0x03, 0x01])
    ensures var t' := Iterate(f, t, 5);
            Ready(t') && t'.pending == [] && t'.out == t.out + [DAP_Invalid]
  {
    OverlongPacket(f, t, [DAP_SWJ_Sequence, 0x03, 0x01]);
  }

  /** The clocks a held beat is counted for before the engine answers: one for each eight bits, and one for a count of 0. */
  function SwjClocks(x: byte): (n: nat)
    ensures 1 <= n <= 32 && (x >= 9 ==> n == SwjClocks((x as int - 8) as byte) + 1)
  {
    if x == 0 then 1 else (x as nat - 1) / 8 + 1
  }

  /**
   * The clock that dispatches a `DAP_SWJ_Sequence` packet takes its first
   * data byte, which is lost, and starts the sequence with the packet's bit
   * count.
   */
  lemma SwjDispatchClock(f: Trace -> Trace, t: Trace, p: seq<byte>)
    requires Clocked(f) && Wf(t.regs) && t.regs.state == RxParams && 4 <= |p| && p[0] == DAP_SWJ_Sequence
    requires t.regs.rx.len == 2 && t.regs.rx.rxed == 2 && t.regs.rx.block[..2] == p[..2] && t.regs.tx.txed == 0
    requires t.pending == Packet(p)[2..]
    ensures var t1 := f(t);
            && Wf(t1.regs) && t1.regs.state == SwjSequenceProcess && t1.regs.swjbits == p[1]
            && t1.regs.tx.block[0] == DAP_SWJ_Sequence && t1.regs.tx.len == 2 && t1.regs.tx.txed == 0
            && t1.pending == Packet(p)[3..] && t1.out == t.out
  {
    assert f(t) == Tick(t);
    assert t.regs.rx.block[0] == p[0] && t.regs.rx.block[1] == p[1];
    assert t.pending[0] == Beat(true, false, false, p[2]);
  }

  /**
   * In SWJ sequence processing the engine is busy and refuses input, yet
   * each clock counts the beat offered: one byte not marked last is counted
   * again and again until the engine answers, with status 1.
   */
  lemma SwjHeldClock(f: Trace -> Trace, t: Trace)
    requires Clocked(f) && Wf(t.regs) && t.regs.state == SwjSequenceProcess
    requires t.pending != [] && t.pending[0].valid && !t.pending[0].last
    ensures var t1, r := f(t), t.regs;
            && Wf(t1.regs) && t1.pending == t.pending && t1.out == t.out
            && t1.regs.swjbits as int == (r.swjbits as int - 8) % 256
            && (r.swjbits < 9 ==> t1.regs.state == Respond && t1.regs.tx == r.tx.(block := r.tx.block[1 := 1]))
            && (r.swjbits >= 9 ==> t1.regs.state == SwjSequenceProcess && t1.regs.tx == r.tx)
  {
    assert f(t) == Tick(t);
  }

  /** A held beat is counted until at most eight bits remain, and the answer's status is then 1. */
  lemma {:induction false} SwjCountsHeldBeat(f: Trace -> Trace, t: Trace)
    requires Clocked(f) && Wf(t.regs) && t.regs.state == SwjSequenceProcess
    requires t.pending != [] && t.pending[0].valid && !t.pending[0].last
    ensures var t' := Iterate(f, t, SwjClocks(t.regs.swjbits));
            && Wf(t'.regs) && t'.regs.state == Respond && t'.regs.tx == t.regs.tx.(block := t.regs.tx.block[1 := 1])
            && t'.pending == t.pending && t'.out == t.out
    decreases t.regs.swjbits
  {
    var x := t.regs.swjbits;
    SwjHeldClock(f, t);
    var t1 := f(t);
    IterateFirst(f, t, SwjClocks(x) - 1);
    if x >= 9 {
      assert t1.regs.swjbits == (x as int - 8) as byte;
      SwjCountsHeldBeat(f, t1);
    } else {
      assert Iterate(f, t1, 0) == t1;
    }
  }

  /**
   * A clock that offers a byte marked last ends the sequence at once,
   * whether or not the busy engine takes it: the status is `swjbits != 0`
   * on the count before this byte is taken off.
   */
  lemma SwjLastClock(f: Trace -> Trace, t: Trace)
    requires Clocked(f) && Wf(t.regs) && t.regs.state == SwjSequenceProcess
    requires t.pending != [] && t.pending[0].valid && t.pending[0].last
    ensures var t1, r := f(t), t.regs;
            && Wf(t1.regs) && t1.pending == t.pending && t1.out == t.out && t1.regs.state == Respond
            && t1.regs.tx == r.tx.(block := r.tx.block[1 := if r.swjbits != 0 then 1 else 0])
  {
    assert f(t) == Tick(t);
  }

  /** The step as written fed the data bytes of a packet, each delivered, until it answers or the bytes run out. */
  function SwjDeliveredAsWritten(r: Registers, data: seq<byte>): (r': Registers)
    requires Wf(r) && r.state == SwjSequenceProcess
    ensures Wf(r') && r'.tx.len == r.tx.len && r'.tx.block[0] == r.tx.block[0]
    decreases |data|
  {
    if data == [] then r
    else
      var r1 := StepSwj(r, Beat(true, false, |data| == 1, data[0]));
      if r1.state == SwjSequenceProcess then SwjDeliveredAsWritten(r1, data[1..]) else r1
  }

  /**
   * Even with every data byte delivered, the sequence as written answers
   * status 1 for every count from 1 to 255, whatever the packet's length;
   * only a count of 0 with a single data byte is answered 0.
   */
  lemma {:induction false} SwjDeliveredAsWrittenAnswers(r: Registers, data: seq<byte>)
    requires Wf(r) && r.state == SwjSequenceProcess && 1 <= |data|
    ensures var r' := SwjDeliveredAsWritten(r, data);
            && r'.state == Respond && r'.tx.len == r.tx.len
            && r'.tx.block == r.tx.block[1 := if r.swjbits == 0 && |data| == 1 then 0 else 1]
    decreases |data|
  {
    var r1 := StepSwj(r, Beat(true, false, |data| == 1, data[0]));
    if r1.state == SwjSequenceProcess {
      assert r1.swjbits != 0 && r1.tx == r.tx;
      SwjDeliveredAsWrittenAnswers(r1, data[1..]);
    }
  }

  /** As written, the reset sequence of the test script is answered `12 01` even with all seven data bytes delivered. */
  lemma SwjDeliveredResetVector(r: Registers)
    requires Wf(r) && r.state == SwjSequenceProcess && r.swjbits == 0x33
    requires r.tx.len == 2 && r.tx.block[0] == DAP_SWJ_Sequence
    ensures var r' := SwjDeliveredAsWritten(r, [0x01, 0x01, 0x01, 0x01, 0x01, 0xff, 0x00]);
            r'.state == Respond && r'.tx.block[..r'.tx.len] == [DAP_SWJ_Sequence, 0x01]
  {
    SwjDeliveredAsWrittenAnswers(r, [0x01, 0x01, 0x01, 0x01, 0x01, 0xff, 0x00]);
  }

  /**
   * As written, every `DAP_SWJ_Sequence` packet of five bytes or more is
   * answered `12 01`: the dispatching clock drops the first data byte, and
   * the next one, never taken, is counted every clock until the count runs
   * out, as if more bytes followed.
   */
  lemma SwjSequenceAsWritten(f: Trace -> Trace, t: Trace, p: seq<byte>)
    requires Clocked(f) && Ready(t) && 5 <= |p| && p[0] == DAP_SWJ_Sequence && t.pending == Packet(p)
    ensures var t' := Iterate(f, t, SwjClocks(p[1]) + 6);
            Ready(t') && t'.pending == Packet(p)[3..] && t'.out == t.out + [DAP_SWJ_Sequence, 1]
  {
    TakeCommand(f, t, p);
    var t1 := f(t);
    StoreEarly(f, t1, p, 1);
    var t2 := f(t1);
    assert t2.regs.rx.block[..2] == p[..2];
    SwjDispatchClock(f, t2, p);
    var t3 := f(t2);
    assert t3.pending[0] == Beat(true, false, false, p[3]);
    var k := SwjClocks(p[1]);
    SwjCountsHeldBeat(f, t3);
    var t4 := Iterate(f, t3, k);
    Drain(f, t4);
    DrainSends(f, t4);
    assert t4.regs.tx.block[0..2] == [DAP_SWJ_Sequence, 1];
    IterateFirst(f, t, 2);
    IterateFirst(f, t1, 1);
    assert Iterate(f, t, 3) == t3;
    IterateAdd(f, t, 3, k);
    IterateAdd(f, t, 3 + k, 3);
  }

  /**
   * The reset sequence of the unit's test script, 51 bits in seven data
   * bytes, is answered `12 01` as written, where the script expects `12 00`.
   */
  lemma SwjResetVector(f: Trace -> Trace, t: Trace)
    requires Clocked(f) && Ready(t) && t.pending == Packet([0x12, 0x33, 0x01, 0x01, 0x01, 0x01, 0x01, 0xff, 0x00])
    ensures var t' := Iterate(f, t, 13);
            Ready(t') && t'.out == t.out + [0x12, 0x01]
  {
    var p: seq<byte> := [0x12, 0x33, 0x01, 0x01, 0x01, 0x01, 0x01, 0xff, 0x00];
    assert SwjClocks(p[1]) == 7;
    SwjSequenceAsWritten(f, t, p);
  }

  /**
   * With every data byte delivered, the corrected sequence answers status
   * 0 exactly when the packet carries the bytes its count needs, no fewer
   * and no more; otherwise status 1.
   */
  lemma {:induction false} SwjFixedDelivers(r: Registers, data: seq<byte>)
    requires Wf(r) && r.state == SwjSequenceProcess && 1 <= |data|
    ensures var r' := SwjFixedRun(r, data);
            && r'.state == Respond && r'.tx.len == r.tx.len
            && r'.tx.block == r.tx.block[1 := if 8 * (|data| - 1) < SwjOwed(r.swjbits) <= 8 * |data| then 0 else 1]
    decreases |data|
  {
    var r1 := StepSwjFixed(r, Beat(true, false, |data| == 1, data[0]), true);
    if r1.state == SwjSequenceProcess {
      SwjFixedDelivers(r1, data[1..]);
    }
  }

  /** Corrected, the reset sequence of the test script is answered `12 00`, as the script expects. */
  lemma SwjFixedResetVector(r: Registers)
    requires Wf(r) && r.state == SwjSequenceProcess && r.swjbits == 0x33
    requires r.tx.len == 2 && r.tx.block[0] == DAP_SWJ_Sequence
    ensures var r' := SwjFixedRun(r, [0x01, 0x01, 0x01, 0x01, 0x01, 0xff, 0x00]);
            r'.state == Respond && r'.tx.block[..r'.tx.len] == [DAP_SWJ_Sequence, 0x00]
  {
    SwjFixedDelivers(r, [0x01, 0x01, 0x01, 0x01, 0x01, 0xff, 0x00]);
  }

  /** The answers to the information requests of the unit's own test script. */
  lemma InfoVectors()
    ensures Response([0x00, 0x04]) == [0x00, 0x04, 0x31, 0x2e, 0x30, 0x30]
    ensures Response([0x00, 0xf0]) == [0x00, 0x01, 0x01]
    ensures Response([0x00, 0xf1]) == [0x00, 0x08, 0x00, 0xca, 0x9a, 0x3b]
    ensures Response([0x00, 0xfd]) == [0x00, 0x04, 0xe8, 0x03, 0x00, 0x00]
    ensures Response([0x00, 0xfe]) == [0x00, 0x01, 0x40]
    ensures Response([0x00, 0xff]) == [0x00, 0x02, 0x40, 0x00]
  {
    NumericItems();
  }

  /** The bytes of the timer frequency and of the trace buffer size. */
  lemma NumericItems()
    ensures WordBytesLE(DAP_TD_TIMER_FREQ) == [0x00, 0xca, 0x9a, 0x3b]
    ensures WordBytesLE(DAP_TB_SIZE) == [0xe8, 0x03, 0x00, 0x00]
  {
    DivModUnique(0x3B9ACA00, 0x1_0000, 0x3B9A, 0xCA00);
    DivModUnique(0xCA00, 256, 0xCA, 0);
    DivModUnique(0x3B9A, 256, 0x3B, 0x9A);
    DivModUnique(1000, 0x1_0000, 0, 1000);
    DivModUnique(1000, 256, 3, 0xe8);
    DivModUnique(0, 256, 0, 0);
  }

  /** The other answers of the unit's own test script. */
  lemma CommandVectors()
    ensures Response([0x01, 0x00, 0x01]) == [0x01, 0x00] && Response([0x01, 0x02, 0x01]) == [0xff]
    ensures Response([0x02, 0x00]) == [0x02, 0x01] && Response([0x02, 0x02]) == [0xff]
    ensures Response([0x03]) == [0x03, 0x00] && Response([0x0a]) == [0x0a, 0x00, 0x00]
    ensures Response([0x10, 0x17, 0x17, 0x00, 0x01, 0x02, 0x03]) == [0x10, 0x99]
  {
  }
}
