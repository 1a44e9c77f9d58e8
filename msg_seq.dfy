/**
 * The message sequencer: decoded ITM messages wait in a ring buffer, except
 * timestamps, which are held apart so that they are released ahead of the
 * messages already queued.
 */
module MsgSeq {
  import opened Bytes
  import ItmDecoder
  import opened MsgDecoder

  /** The slot after `i` in a ring of `n` slots, which `(i + 1) % n` computes for `i < n`. */
  function Next(i: nat, n: nat): (r: nat)
    requires i < n
    ensures r < n
  {
    if i + 1 == n then 0 else i + 1
  }

  /** How many slots a reader at `rp` must advance to reach the writer at `wp`. */
  function Count(n: nat, rp: nat, wp: nat): (c: nat)
    requires rp < n && wp < n
    ensures c < n && (c == 0 <==> rp == wp) && (rp + c == wp || rp + c == wp + n)
  {
    if rp <= wp then wp - rp else wp + n - rp
  }

  /** The messages waiting in the ring `buf`, oldest first: from the read slot up to, not including, the write slot. */
  function Queue(buf: seq<Msg>, rp: nat, wp: nat): (q: seq<Msg>)
    requires rp < |buf| && wp < |buf|
    ensures |q| == Count(|buf|, rp, wp)
    decreases Count(|buf|, rp, wp)
  {
    if rp == wp then [] else [buf[rp]] + Queue(buf, Next(rp, |buf|), wp)
  }

  /** Writing the free slot at `wp` leaves the queued messages alone. */
  lemma {:induction false} QueueFrame(buf: seq<Msg>, rp: nat, wp: nat, m: Msg)
    requires rp < |buf| && wp < |buf|
    ensures Queue(buf[wp := m], rp, wp) == Queue(buf, rp, wp)
    decreases Count(|buf|, rp, wp)
  {
    if rp != wp {
      QueueFrame(buf, Next(rp, |buf|), wp, m);
    }
  }

  /** Writing the free slot and advancing the writer appends to the queue, as long as a slot stays free. */
  lemma {:induction false} QueueAppend(buf: seq<Msg>, rp: nat, wp: nat, m: Msg)
    requires rp < |buf| && wp < |buf| && Count(|buf|, rp, wp) < |buf| - 1
    ensures Queue(buf[wp := m], rp, Next(wp, |buf|)) == Queue(buf, rp, wp) + [m]
    decreases Count(|buf|, rp, wp)
  {
    var b := buf[wp := m];
    var n := |buf|;
    if rp == wp {
      assert Queue(b, Next(rp, n), Next(wp, n)) == [];
    } else {
      QueueAppend(buf, Next(rp, n), wp, m);
      assert b[rp] == buf[rp];
    }
  }

  /** Advancing the reader drops the oldest message. */
  lemma QueuePop(buf: seq<Msg>, rp: nat, wp: nat)
    requires rp < |buf| && wp < |buf| && rp != wp
    ensures var q := Queue(buf, rp, wp);
            q != [] && q[0] == buf[rp] && Queue(buf, Next(rp, |buf|), wp) == q[1..]
  {
    var q := Queue(buf, rp, wp);
    assert q == [buf[rp]] + Queue(buf, Next(rp, |buf|), wp);
  }

  /** `struct MSGSeq`: the ITM decoder it reads from and the ring buffer of decoded messages. */
  class Sequencer {
    var itm: ItmDecoder.Decoder
    var wp: nat
    var rp: nat
    var pbl: nat
    var releaseTimeMsg: bool
    var pbuffer: array<Msg>

    ghost predicate Valid()
      reads this, itm
    {
      pbuffer.Length == pbl && 2 <= pbl && wp < pbl && rp < pbl && ItmDecoder.Inv(itm.State())
    }

    /** The messages queued for release, oldest first. */
    ghost function Pending(): seq<Msg>
      requires Valid()
      reads this, itm, pbuffer
    {
      Queue(pbuffer[..], rp, wp)
    }

    /** The timestamp waiting to be released ahead of the queue, if any: it sits in the free slot at `wp`. */
    ghost function Held(): Option<Msg>
      requires Valid()
      reads this, itm, pbuffer
    {
      if releaseTimeMsg then Some(pbuffer[wp]) else None
    }

    /** `MSGSeqInit`: an empty buffer of `maxEntries` zeroed messages reading from `i`. */
    constructor (i: ItmDecoder.Decoder, maxEntries: nat)
      requires 2 <= maxEntries && ItmDecoder.Inv(i.State())
      ensures Valid() && itm == i && pbl == maxEntries && fresh(pbuffer)
      ensures Pending() == [] && Held() == None
    {
      itm := i;
      wp, rp := 0, 0;
      pbl := maxEntries;
      releaseTimeMsg := false;
      pbuffer := new Msg[maxEntries](_ => Generic(MsgUnknown));
    }

    /**
     * `_bufferPacket`: the message just decoded goes to the free slot.  A
     * timestamp stays there, held for release first; anything else is queued.
     * The answer says whether the caller should empty the queue now. A
     * message queued while a timestamp is still held overwrites it, and the
     * slot after it becomes the one held.
     */
    method BufferPacket(ok: bool, m: Msg) returns (r: bool)
      requires Valid() && Count(pbl, rp, wp) < pbl - 1
      modifies this, pbuffer
      ensures Valid() && itm == old(itm) && pbuffer == old(pbuffer) && pbl == old(pbl) && rp == old(rp)
      ensures !ok ==> !r && Pending() == old(Pending()) && Held() == old(Held()) && wp == old(wp)
      ensures ok && TypeOf(m) == MsgTS ==> r && Pending() == old(Pending()) && Held() == Some(m) && wp == old(wp)
      ensures ok && TypeOf(m) != MsgTS ==>
                Pending() == old(Pending()) + [m] && releaseTimeMsg == old(releaseTimeMsg)
                && (r <==> |Pending()| == pbl - 1)
      ensures ok && TypeOf(m) != MsgTS ==>
                Held() == if old(releaseTimeMsg) then Some(old(pbuffer[Next(wp, pbl)])) else None
    {
      if !ok {
        return false;
      }
      QueueFrame(pbuffer[..], rp, wp, m);
      QueueAppend(pbuffer[..], rp, wp, m);
      pbuffer[wp] := m;
      if TypeOf(m) == MsgTS {
        releaseTimeMsg := true;
        return true;
      }
      wp := Next(wp, pbl);
      r := Next(wp, pbl) == rp;
      assert r <==> Count(pbl, rp, wp) == pbl - 1;
    }

    /**
     * `MSGSeqGetPacket`: the held timestamp if there is one, else the oldest
     * queued message, else nothing.
     */
    method GetPacket() returns (m: Option<Msg>)
      requires Valid()
      modifies this
      ensures Valid() && itm == old(itm) && pbuffer == old(pbuffer) && pbl == old(pbl) && wp == old(wp)
      ensures old(releaseTimeMsg) ==> m == old(Held()) && Held() == None && Pending() == old(Pending())
      ensures !old(releaseTimeMsg) && old(Pending()) == [] ==> m == None && Held() == None && rp == old(rp)
      ensures !old(releaseTimeMsg) && old(Pending()) != [] ==>
                m == Some(old(Pending())[0]) && Held() == None && Pending() == old(Pending())[1..]
    {
      if releaseTimeMsg {
        releaseTimeMsg := false;
        return Some(pbuffer[wp]);
      }
      if wp == rp {
        return None;
      }
      QueuePop(pbuffer[..], rp, wp);
      m := Some(pbuffer[rp]);
      rp := Next(rp, pbl);
    }

    /**
     * `MSGSeqPump`: one byte into the ITM decoder; a packet it completes is
     * decoded and buffered.  Every other decoder event leaves the buffer alone.
     */
    method Pump(c: byte) returns (r: bool)
      requires Valid() && Count(pbl, rp, wp) < pbl - 1
      modifies this, itm, pbuffer
      ensures Valid() && itm == old(itm) && pbuffer == old(pbuffer) && pbl == old(pbl) && rp == old(rp)
      ensures !r ==> Count(pbl, rp, wp) < pbl - 1
      ensures var (regs, ev) := ItmDecoder.Step(old(itm.State()), c);
              itm.State() == regs &&
              var (ok, m) := Decode(regs.pk);
              if ev != ItmDecoder.EvPacketRxed || !ok then
                !r && Pending() == old(Pending()) && Held() == old(Held()) && wp == old(wp)
              else if TypeOf(m) == MsgTS then
                r && Pending() == old(Pending()) && Held() == Some(m)
              else
                Pending() == old(Pending()) + [m] && releaseTimeMsg == old(releaseTimeMsg)
                && (r <==> |Pending()| == pbl - 1)
    {
      var ev := itm.Pump(c);
      if ev == ItmDecoder.EvPacketRxed {
        var (ok, m) := Decode(itm.pk);
        r := BufferPacket(ok, m);
      } else {
        r := false;
      }
    }
  }
}
