/**
 * The post-mortem buffer of orbmortem: a ring of `buflen` bytes that keeps
 * the most recent trace (or, in single-shot mode, stops when full), the
 * bytes handed to the trace decoder when the buffer is dumped, and the
 * editor command built from a template with `%f` and `%l` placeholders.
 */
module OrbMortem {
  import opened Bytes

  /**
   * The bytes held in the ring `s`, oldest first: from the read index up to
   * (not including) the write index, wrapping round the end.
   */
  function Ring(s: seq<byte>, rp: nat, wp: nat): (r: seq<byte>)
    requires rp < |s| && wp < |s|
    ensures |r| <= |s| - 1
    ensures |r| == if rp <= wp then wp - rp else |s| - rp + wp
  {
    if rp <= wp then s[rp..wp] else s[rp..] + s[..wp]
  }

  /** The index after `i` in a ring of `n`. */
  function Next(i: nat, n: nat): nat
  {
    if i + 1 == n then 0 else i + 1
  }

  /** The wrap-around of the source's `( i + 1 ) % n`. */
  lemma NextMod(i: nat, n: nat)
    requires i < n
    ensures (i + 1) % n == Next(i, n)
  {
    if i + 1 == n {
      DivModUnique(i + 1, n, 1, 0);
    } else {
      DivModUnique(i + 1, n, 0, i + 1);
    }
  }

  /** The number of bytes `_dumpBuffer` computes as available. */
  function Available(rp: nat, wp: nat, buflen: nat): nat
    requires buflen > 0
  {
    (wp + buflen - rp) % buflen
  }

  /** The available-bytes formula counts exactly the bytes in the ring. */
  lemma AvailableCounts(s: seq<byte>, rp: nat, wp: nat)
    requires rp < |s| && wp < |s|
    ensures Available(rp, wp, |s|) == |Ring(s, rp, wp)|
  {
    var n := |s|;
    if rp <= wp {
      DivModUnique(wp + n - rp, n, 1, wp - rp);
    } else {
      DivModUnique(wp + n - rp, n, 0, n - rp + wp);
    }
  }

  /** Storing at the write index, which is never inside the ring, leaves the ring as it was. */
  lemma StoreOutside(s: seq<byte>, rp: nat, wp: nat, c: byte)
    requires rp < |s| && wp < |s|
    ensures Ring(s[wp := c], rp, wp) == Ring(s, rp, wp)
  {
    var t := s[wp := c];
    if rp <= wp {
      assert t[rp..wp] == s[rp..wp];
    } else {
      assert t[rp..] == s[rp..] && t[..wp] == s[..wp];
    }
  }

  /** A byte stored at the write index with the write index advanced past it joins the ring at the new end. */
  lemma Push(s: seq<byte>, rp: nat, wp: nat, c: byte)
    requires rp < |s| && wp < |s|
    requires Next(wp, |s|) != rp
    ensures Ring(s[wp := c], rp, Next(wp, |s|)) == Ring(s, rp, wp) + [c]
  {
    var t := s[wp := c];
    var n := |s|;
    if rp <= wp {
      if wp + 1 == n {
        assert t[rp..] == s[rp..wp] + [c];
        assert t[..0] == [];
      } else {
        assert t[rp..wp + 1] == s[rp..wp] + [c];
      }
    } else {
      assert t[rp..] == s[rp..];
      assert t[..wp + 1] == s[..wp] + [c];
    }
  }

  /** A full ring that takes one more byte drops its oldest. */
  lemma PushFull(s: seq<byte>, rp: nat, wp: nat, c: byte)
    requires rp < |s| && wp < |s|
    requires Next(wp, |s|) == rp
    ensures Ring(s[wp := c], Next(rp, |s|), rp) == (Ring(s, rp, wp) + [c])[1..]
  {
    var t := s[wp := c];
    var n := |s|;
    var r := Ring(s, rp, wp);
    if rp == 0 {
      assert wp == n - 1;
      if n == 1 {
        assert r == [];
      } else {
        assert Ring(t, 1, 0) == t[1..] + t[..0];
        assert t[1..] == s[1..wp] + [c];
        assert r == s[0..wp];
      }
    } else {
      assert wp + 1 == rp;
      if rp + 1 == n {
        assert Ring(t, 0, rp) == t[0..rp];
        assert r == s[rp..] + s[..wp];
        assert t[0..rp] == s[..wp] + [c];
        assert (r + [c])[1..] == s[..wp] + [c];
      } else {
        assert Ring(t, rp + 1, rp) == t[rp + 1..] + t[..rp];
        assert r == s[rp..] + s[..wp];
        assert t[rp + 1..] == s[rp + 1..] && t[..rp] == s[..wp] + [c];
        assert (r + [c])[1..] == s[rp + 1..] + s[..wp] + [c];
      }
    }
  }

  /**
   * What `_dumpBuffer` hands the trace decoder, as written: a resync request
   * when a wrapping buffer is full, then the bytes from the read index to
   * the end of the buffer and the bytes from its start to the write index.
   */
  function DumpAsWritten(s: seq<byte>, rp: nat, wp: nat, singleShot: bool): (res: (bool, seq<byte>))
    requires rp < |s| && wp < |s|
    ensures res.0 <==> |Ring(s, rp, wp)| == |s| - 1 && !singleShot
    ensures |res.1| == |s| - rp + wp
    ensures wp < rp ==> res.1 == Ring(s, rp, wp)
  {
    AvailableCounts(s, rp, wp);
    (Available(rp, wp, |s|) == |s| - 1 && !singleShot, s[rp..] + s[..wp])
  }

  /**
   * Unless the ring has wrapped, the bytes handed over as written are not
   * the ring: with a read index of 0 and one byte held in four, the decoder
   * is handed all four bytes of the buffer and then the held byte again.
   */
  lemma DumpAsWrittenRepeats()
    ensures DumpAsWritten([1, 2, 3, 4], 0, 1, false).1 == [1, 2, 3, 4, 1]
    ensures Ring([1, 2, 3, 4], 0, 1) == [1]
  {
    var s: seq<byte> := [1, 2, 3, 4];
    assert s[0..] + s[..1] == [1, 2, 3, 4, 1];
  }

  /** `_dumpBuffer` handing over the ring itself, oldest byte first, whether or not it has wrapped. */
  function Dump(s: seq<byte>, rp: nat, wp: nat, singleShot: bool): (res: (bool, seq<byte>))
    requires rp < |s| && wp < |s|
    ensures res.0 <==> |res.1| == |s| - 1 && !singleShot
    ensures |res.1| == Available(rp, wp, |s|)
    ensures wp < rp ==> res == DumpAsWritten(s, rp, wp, singleShot)
  {
    AvailableCounts(s, rp, wp);
    (Available(rp, wp, |s|) == |s| - 1 && !singleShot, Ring(s, rp, wp))
  }

  /** The capture state of orbmortem (`struct RunTime`, ring part). */
  class Capture {
    const pmBuffer: array<byte>
    var wp: nat
    var rp: nat
    var held: bool
    const singleShot: bool
    var newTotalBytes: nat

    /** A buffer of at least one byte (a zero length is refused at start-up) and both indices inside it. */
    ghost predicate Valid()
      reads this
    {
      pmBuffer.Length > 0 && wp < pmBuffer.Length && rp < pmBuffer.Length
    }

    /** The bytes held, oldest first. */
    ghost function Contents(): seq<byte>
      reads this, pmBuffer
      requires Valid()
    {
      Ring(pmBuffer[..], rp, wp)
    }

    /** A zeroed buffer of `buflen` bytes, empty, not held. */
    constructor (buflen: nat, singleShotSet: bool)
      requires buflen > 0
      ensures Valid() && fresh(pmBuffer) && pmBuffer.Length == buflen && Contents() == []
      ensures singleShot == singleShotSet && !held && newTotalBytes == 0
    {
      pmBuffer := new byte[buflen](_ => 0);
      wp, rp, held, singleShot, newTotalBytes := 0, 0, false, singleShotSet, 0;
    }

    /**
     * `_rxAdd`: counts the byte and stores it at the write index.  If that
     * fills the ring, single-shot capture stops (held, answer true, nothing
     * moves) and otherwise the oldest byte is dropped; the new byte then
     * joins the ring.
     */
    method RxAdd(c: byte) returns (full: bool)
      requires Valid()
      modifies this, pmBuffer
      ensures Valid() && newTotalBytes == old(newTotalBytes) + 1
      ensures pmBuffer[..] == old(pmBuffer[..])[old(wp) := c]
      ensures var stop := Next(old(wp), pmBuffer.Length) == old(rp);
              && (full <==> stop && singleShot)
              && (full ==> held && wp == old(wp) && rp == old(rp) && Contents() == old(Contents()))
              && (!full ==> held == old(held) && wp == Next(old(wp), pmBuffer.Length))
              && (!full && stop ==> rp == Next(old(rp), pmBuffer.Length) && Contents() == (old(Contents()) + [c])[1..])
              && (!stop ==> Contents() == old(Contents()) + [c] && rp == old(rp))
    {
      newTotalBytes := newTotalBytes + 1;
      ghost var s := pmBuffer[..];
      pmBuffer[wp] := c;
      var nwp := (wp + 1) % pmBuffer.Length;
      NextMod(wp, pmBuffer.Length);
      if nwp == rp {
        if singleShot {
          held := true;
          StoreOutside(s, rp, wp, c);
          return true;
        } else {
          PushFull(s, rp, wp, c);
          NextMod(rp, pmBuffer.Length);
          rp := (rp + 1) % pmBuffer.Length;
        }
      } else {
        Push(s, rp, wp, c);
      }
      wp := nwp;
      return false;
    }
  }

  /**
   * The editor command of `_openFileCommand` from `t[i..]`, as written: `%f`
   * is the file name, `%l` the line in decimal, `%` before any other
   * character that character; `None` when the template ends with a lone `%`,
   * where the code copies the terminator and reads on past it.
   */
  function ExpandAsWritten(t: string, i: nat, file: string, line: int): (r: Option<string>)
    requires i <= |t|
    ensures r.None? ==> exists k :: i <= k < |t| && t[k] == '%'
    decreases |t| - i
  {
    if i == |t| then Some([])
    else if t[i] != '%' then
      var rest := ExpandAsWritten(t, i + 1, file, line); if rest.None? then None else Some([t[i]] + rest.value)
    else if i + 1 == |t| then None
    else
      var piece := if t[i + 1] == 'f' then file else if t[i + 1] == 'l' then SignedDecimal(line) else [t[i + 1]];
      var rest := ExpandAsWritten(t, i + 2, file, line); if rest.None? then None else Some(piece + rest.value)
  }

  /** The expansion with a lone `%` at the end of the template ending it. */
  function Expand(t: string, i: nat, file: string, line: int): (r: string)
    requires i <= |t|
    decreases |t| - i
  {
    if i == |t| then []
    else if t[i] != '%' then [t[i]] + Expand(t, i + 1, file, line)
    else if i + 1 == |t| then []
    else
      var piece := if t[i + 1] == 'f' then file else if t[i + 1] == 'l' then SignedDecimal(line) else [t[i + 1]];
      piece + Expand(t, i + 2, file, line)
  }

  /** Wherever the code as written gives an answer, the corrected expansion gives the same one. */
  lemma {:induction false} ExpandAgrees(t: string, i: nat, file: string, line: int)
    requires i <= |t| && ExpandAsWritten(t, i, file, line).Some?
    ensures ExpandAsWritten(t, i, file, line).value == Expand(t, i, file, line)
    decreases |t| - i
  {
    if i < |t| {
      if t[i] != '%' {
        ExpandAgrees(t, i + 1, file, line);
      } else if i + 1 < |t| {
        ExpandAgrees(t, i + 2, file, line);
      }
    }
  }

  /** A template ending in a lone `%` sends the code as written past the end of the template. */
  lemma TrailingPercentOverruns(file: string, line: int)
    ensures ExpandAsWritten("vi %", 0, file, line).None?
    ensures Expand("vi %", 0, file, line) == "vi "
  {
    assert ExpandAsWritten("vi %", 3, file, line).None?;
    assert Expand("vi %", 3, file, line) == [];
  }

  /** A template without `%` is copied as it is. */
  lemma {:induction false} PlainTemplate(t: string, i: nat, file: string, line: int)
    requires i <= |t| && forall k :: i <= k < |t| ==> t[k] != '%'
    ensures Expand(t, i, file, line) == t[i..]
    decreases |t| - i
  {
    if i < |t| {
      PlainTemplate(t, i + 1, file, line);
      assert t[i..] == [t[i]] + t[i + 1..];
    }
  }

  /** `%f` and `%l` are replaced by the file and line; `%%` gives `%`. */
  lemma {:induction false} Placeholders(t: string, i: nat, file: string, line: int)
    requires i + 1 < |t| && t[i] == '%'
    ensures t[i + 1] == 'f' ==> Expand(t, i, file, line) == file + Expand(t, i + 2, file, line)
    ensures t[i + 1] == 'l' ==> Expand(t, i, file, line) == SignedDecimal(line) + Expand(t, i + 2, file, line)
    ensures t[i + 1] == '%' ==> Expand(t, i, file, line) == "%" + Expand(t, i + 2, file, line)
  {
  }

  /**
   * `_openFileCommand`: without a template there is no command; otherwise
   * the template expanded and followed by " &" so the editor runs detached.
   */
  method OpenFileCommand(template: Option<string>, fileToOpen: string, line: int) returns (cmd: Option<string>)
    ensures template.None? ==> cmd.None?
    ensures template.Some? ==> cmd == Some(Expand(template.value, 0, fileToOpen, line) + " &")
  {
    if template.None? {
      return None;
    }
    var a := template.value;
    var i := 0;
    var b := [];
    while i < |a| && !(a[i] == '%' && i + 1 == |a|)
      invariant i <= |a|
      invariant b + Expand(a, i, fileToOpen, line) == Expand(a, 0, fileToOpen, line)
      decreases |a| - i
    {
      var piece;
      if a[i] != '%' {
        piece := [a[i]];
        i := i + 1;
      } else {
        if a[i + 1] == 'f' {
          piece := fileToOpen;
        } else if a[i + 1] == 'l' {
          piece := SignedDecimal(line);
        } else {
          piece := [a[i + 1]];
        }
        i := i + 2;
      }
      assert (b + piece) + Expand(a, i, fileToOpen, line) == b + (piece + Expand(a, i, fileToOpen, line));
      b := b + piece;
    }
    assert Expand(a, i, fileToOpen, line) == [];
    assert b + [] == b;
    return Some(b + " &");
  }
}
