/**
 * Consistent Overhead Byte Stuffing (Cheshire and Baker, IEEE/ACM Transactions
 * on Networking 7(2), 1999) as used to frame orbuculum's network protocol:
 * the encoder, the streaming decoder (`COBSPump`), the one-shot decoder and the
 * frame-extent scan.
 */
module Cobs {
  import opened Bytes

  const SYNC_CHAR: byte := 0
  const FRONTMATTER: nat := 10
  const MAX_PACKET_LEN: nat := 4096
  const OVERALL_MAX_PACKET_LEN: nat := MAX_PACKET_LEN + FRONTMATTER
  /** Size of `Frame.d` as the source declares it. */
  const MAX_ENC_PACKET_LEN: nat := OVERALL_MAX_PACKET_LEN + OVERALL_MAX_PACKET_LEN / 254
  /** Room the encoder really needs: one code byte per started run of 254 bytes, plus the terminator. */
  const ENC_FRAME_LEN: nat := OVERALL_MAX_PACKET_LEN + (OVERALL_MAX_PACKET_LEN + 253) / 254 + 1

  // ------------------------------------------------------------------------------------------
  // Encoding
  // ------------------------------------------------------------------------------------------

  /**
   * The code blocks the encoder emits for the pending run `seg` (already copied,
   * its code byte not yet known) followed by the unread bytes `rest`; the
   * terminating sync byte is not included.
   */
  function Blocks(code: byte, seg: seq<byte>, rest: seq<byte>): (r: seq<byte>)
    requires NoZero(seg) && |seg| < 254 && code == |seg| + 1
    ensures |r| >= |seg| + |rest| + 1 && NoZero(r)
    decreases |rest|
  {
    if rest == [] then [code] + seg
    else if rest[0] == SYNC_CHAR then [code] + seg + Blocks(1, [], rest[1..])
    else if code == 0xfe then [0xff] + seg + [rest[0]] + (if |rest| == 1 then [] else Blocks(1, [], rest[1..]))
    else Blocks(code + 1, seg + [rest[0]], rest[1..])
  }

  /** The complete encoding of `x`: its code blocks and one sync byte. */
  function Encoded(x: seq<byte>): (r: seq<byte>)
    ensures |r| >= 1 && r[|r| - 1] == SYNC_CHAR && NoZero(r[..|r| - 1])
    ensures x == [] <==> r == [SYNC_CHAR]
  {
    if x == [] then [SYNC_CHAR]
    else
      var b := Blocks(1, [], x);
      assert (b + [SYNC_CHAR])[..|b|] == b;
      b + [SYNC_CHAR]
  }

  /** `COBSEncode`: the front matter then the message, stuffed into `o`. */
  method Encode(front: seq<byte>, input: seq<byte>, o: array<byte>) returns (len: nat)
    requires |front| + |input| <= OVERALL_MAX_PACKET_LEN
    requires o.Length >= ENC_FRAME_LEN
    modifies o
    ensures len <= o.Length && o[..len] == Encoded(front + input)
  {
    ghost var x := front + input;
    var wp := 0;
    if |front| + |input| > 0 {
      wp := StuffBlocks(front, input, o);
    }
    ghost var blocks := o[..wp];
    assert Encoded(x) == blocks + [SYNC_CHAR];
    o[wp] := SYNC_CHAR;
    AppendSync(o[..wp + 1], blocks);
    wp := wp + 1;
    len := wp;
  }

  /**
   * Where the encoder loop stands: the closed code blocks `done` and, while
   * `open`, the run `seg` whose code byte will be `code`.
   */
  datatype EncState = EncState(done: seq<byte>, code: byte, seg: seq<byte>, open: bool)

  /** One pass of the `COBSEncode` loop over the byte `b`; `more` says whether input remains after it. */
  function EncStep(st: EncState, b: byte, more: bool): EncState
  {
    if b == SYNC_CHAR then EncState(st.done + [st.code] + st.seg, 1, [], true)
    else if st.code == 0xfe then EncState(st.done + [0xff] + (st.seg + [b]), 1, [], more)
    else EncState(st.done, (st.code + 1) % 256, st.seg + [b], true)
  }

  /** The loop state after the first `i` bytes of the non-empty message `x`. */
  function EncRun(x: seq<byte>, i: nat): EncState
    requires i <= |x|
  {
    if i == 0 then EncState([], 1, [], true)
    else EncStep(EncRun(x, i - 1), x[i - 1], i < |x|)
  }

  /**
   * The loop state accounts for the code blocks of `x`: the closed blocks
   * are a prefix of them, and the open run with the unread bytes yields the
   * rest. A closed run happens only after the last byte.
   */
  lemma {:induction false} EncRunBlocks(x: seq<byte>, i: nat)
    requires 0 < |x| && i <= |x|
    ensures EncAccounts(x, i, EncRun(x, i))
  {
    if i == 0 {
      assert [] + Blocks(1, [], x) == Blocks(1, [], x);
    } else {
      EncRunBlocks(x, i - 1);
      EncStepAccounts(x, i - 1, EncRun(x, i - 1));
    }
  }

  /**
   * `st` accounts for the code blocks of `x` after `i` bytes: while open, the
   * closed blocks and the blocks of the open run with the unread bytes make
   * them up; once closed, no byte is left and the closed blocks are all of them.
   */
  ghost predicate EncAccounts(x: seq<byte>, i: nat, st: EncState)
    requires 0 < |x| && i <= |x|
  {
    if st.open then
      st.code == |st.seg| + 1 && NoZero(st.seg) && |st.seg| < 254 &&
      Blocks(1, [], x) == st.done + Blocks(st.code, st.seg, x[i..])
    else i == |x| && st.done == Blocks(1, [], x)
  }

  /** One pass of the loop keeps the account. */
  lemma EncStepAccounts(x: seq<byte>, i: nat, st: EncState)
    requires 0 < |x| && i < |x| && EncAccounts(x, i, st)
    ensures EncAccounts(x, i + 1, EncStep(st, x[i], i + 1 < |x|))
  {
    if x[i] == SYNC_CHAR || st.code == 0xfe {
      EncAccountsClosed(x, i, st);
    } else {
      EncAccountsGrown(x, i, st);
    }
  }

  lemma EncAccountsClosed(x: seq<byte>, i: nat, st: EncState)
    requires 0 < |x| && i < |x| && EncAccounts(x, i, st) && (x[i] == SYNC_CHAR || st.code == 0xfe)
    ensures EncAccounts(x, i + 1, EncStep(st, x[i], i + 1 < |x|))
  {
    assert st.open;
    var whole := Blocks(1, [], x);
    EncodeStep(whole, x, i, st.done, st.code, st.seg);
    assert [] + x[i + 1..] == x[i + 1..];
  }

  lemma EncAccountsGrown(x: seq<byte>, i: nat, st: EncState)
    requires 0 < |x| && i < |x| && EncAccounts(x, i, st) && x[i] != SYNC_CHAR && st.code != 0xfe
    ensures EncAccounts(x, i + 1, EncStep(st, x[i], i + 1 < |x|))
  {
    assert st.open;
    var whole := Blocks(1, [], x);
    EncodeStep(whole, x, i, st.done, st.code, st.seg);
    var st' := EncState(st.done, st.code + 1, st.seg + [x[i]], true);
    assert EncStep(st, x[i], i + 1 < |x|) == st';
    assert st'.code == |st'.seg| + 1;
  }

  /** While the run is open its cells and at least one more code byte fit in the encoding. */
  lemma EncRunRoom(x: seq<byte>, i: nat)
    requires 0 < |x| && i < |x|
    ensures var st := EncRun(x, i);
            st.open && |st.done| + |st.seg| + 2 <= |Blocks(1, [], x)|
  {
    EncRunBlocks(x, i);
  }

  /** The cells `o[..wp]` hold the closed blocks of `st`, a code byte still to be set, then its open run. */
  ghost predicate Written(o: array<byte>, cp: nat, wp: nat, st: EncState)
    reads o
  {
    cp == |st.done| && wp == cp + (if st.open then 1 + |st.seg| else 0) && wp <= o.Length &&
    (forall j :: 0 <= j < cp ==> o[j] == st.done[j]) &&
    (forall j :: cp < j < wp ==> o[j] == st.seg[j - cp - 1])
  }

  /** The loop of `COBSEncode`: the code blocks of a non-empty message, in `o[..wp]`. */
  method StuffBlocks(front: seq<byte>, input: seq<byte>, o: array<byte>) returns (wp: nat)
    requires 0 < |front| + |input| <= OVERALL_MAX_PACKET_LEN
    requires o.Length >= ENC_FRAME_LEN
    modifies o
    ensures wp < o.Length && o[..wp] == Blocks(1, [], front + input)
  {
    ghost var x := front + input;
    var n := |front| + |input|;
    EncodedFits(x);
    assert |Blocks(1, [], x)| < o.Length by {
      assert Encoded(x) == Blocks(1, [], x) + [SYNC_CHAR];
    }
    var cp: nat := 0;
    wp := 1;
    var seglen: byte := 1;
    var i := 0;
    while i < n
      invariant 0 <= i <= n && Written(o, cp, wp, EncRun(x, i)) && seglen == EncRun(x, i).code
      decreases n - i
    {
      var b := if i < |front| then front[i] else input[i - |front|];
      assert b == x[i];
      EncRunRoom(x, i);
      cp, wp, seglen := EncodeByte(o, b, i + 1 < n, cp, wp, seglen, EncRun(x, i));
      i := i + 1;
    }
    EncRunBlocks(x, n);
    ghost var st := EncRun(x, n);
    if st.open {
      assert x[n..] == [];
      assert Blocks(st.code, st.seg, []) == [st.code] + st.seg;
    }
    SetCode(o, cp, wp, seglen, st);
  }

  /** The final `*cp = seglen` of `COBSEncode`: sets the open run's code byte. */
  method SetCode(o: array<byte>, cp: nat, wp: nat, seglen: byte, ghost st: EncState)
    requires Written(o, cp, wp, st) && cp < o.Length
    modifies o
    ensures o[..wp] == st.done + (if st.open then [seglen] + st.seg else [])
  {
    o[cp] := seglen;
    if st.open {
      Collect(o[..wp], st.done, [seglen], st.seg);
      assert st.done + [seglen] + st.seg == st.done + ([seglen] + st.seg);
    } else {
      Collect(o[..wp], st.done, [], []);
      assert st.done + [] == st.done;
    }
  }

  /** Cells that agree one by one with `done`, then `code` and `seg` if `tail` holds `code`, form their concatenation. */
  lemma Collect(a: seq<byte>, done: seq<byte>, tail: seq<byte>, seg: seq<byte>)
    requires |tail| <= 1 && |a| == |done| + |tail| + (if tail == [] then 0 else |seg|)
    requires tail != [] ==> a[|done|] == tail[0]
    requires forall j :: 0 <= j < |done| ==> a[j] == done[j]
    requires forall j :: |done| < j < |a| ==> a[j] == seg[j - |done| - 1]
    ensures a == done + tail + (if tail == [] then [] else seg)
  {
  }

  /** The body of the `COBSEncode` loop for the byte `b`. */
  method EncodeByte(o: array<byte>, b: byte, more: bool, cp: nat, wp: nat, seglen: byte, ghost st: EncState)
    returns (cp': nat, wp': nat, seglen': byte)
    requires st.open && Written(o, cp, wp, st) && seglen == st.code && wp + 1 < o.Length
    modifies o
    ensures Written(o, cp', wp', EncStep(st, b, more)) && seglen' == EncStep(st, b, more).code
  {
    cp', wp', seglen' := cp, wp, seglen;
    if b != SYNC_CHAR {
      o[wp'] := b;
      wp' := wp' + 1;
      seglen' := (seglen' + 1) % 256;
    }
    if b == SYNC_CHAR || seglen' == 0xff {
      o[cp'] := seglen';
      seglen' := 1;
      cp' := wp';
      if b == SYNC_CHAR || more {
        wp' := wp' + 1;
      }
    }
  }

  /** `a` is `pre` followed by one sync byte. */
  lemma AppendSync(a: seq<byte>, p: seq<byte>)
    requires |a| == |p| + 1 && a[..|p|] == p && a[|p|] == SYNC_CHAR
    ensures a == p + [SYNC_CHAR]
  {
  }

  /** What one input byte does to the encoder's ghost state. */
  lemma EncodeStep(whole: seq<byte>, x: seq<byte>, i: nat, done: seq<byte>, code: byte, seg: seq<byte>)
    requires i < |x| && NoZero(seg) && |seg| < 254 && code == |seg| + 1
    requires whole == done + Blocks(code, seg, x[i..])
    ensures x[i] == SYNC_CHAR ==> whole == done + [code] + seg + Blocks(1, [], x[i + 1..])
    ensures x[i] != SYNC_CHAR && code == 0xfe ==>
      NoZero(seg + [x[i]]) &&
      (i + 1 < |x| ==> whole == done + [0xff] + (seg + [x[i]]) + Blocks(1, [], x[i + 1..])) &&
      (i + 1 == |x| ==> whole == done + [0xff] + (seg + [x[i]]))
    ensures x[i] != SYNC_CHAR && code != 0xfe ==>
      |seg| < 253 && code + 1 == |seg| + 2 && NoZero(seg + [x[i]]) &&
      whole == done + Blocks(code + 1, seg + [x[i]], x[i + 1..])
  {
    var rest := x[i..];
    assert rest[0] == x[i] && rest[1..] == x[i + 1..];
    BlocksNext(code, seg, rest);
    if x[i] == SYNC_CHAR {
      assert done + ([code] + seg + Blocks(1, [], x[i + 1..])) == done + [code] + seg + Blocks(1, [], x[i + 1..]);
    } else if code == 0xfe {
      var body := seg + [x[i]];
      if i + 1 < |x| {
        assert done + ([0xff] + body + Blocks(1, [], x[i + 1..])) == done + [0xff] + body + Blocks(1, [], x[i + 1..]);
      } else {
        assert done + ([0xff] + body + []) == done + [0xff] + body;
      }
    }
  }

  /** One step of the encoder loop, as the definition of Blocks unfolds it. */
  lemma BlocksNext(code: byte, seg: seq<byte>, rest: seq<byte>)
    requires NoZero(seg) && |seg| < 254 && code == |seg| + 1 && rest != []
    ensures rest[0] == SYNC_CHAR ==> Blocks(code, seg, rest) == [code] + seg + Blocks(1, [], rest[1..])
    ensures rest[0] != SYNC_CHAR && code == 0xfe ==>
      |seg| == 253 && NoZero(seg + [rest[0]]) &&
      Blocks(code, seg, rest) == [0xff] + (seg + [rest[0]]) + (if |rest| == 1 then [] else Blocks(1, [], rest[1..]))
    ensures rest[0] != SYNC_CHAR && code != 0xfe ==>
      |seg| < 253 && code + 1 == |seg| + 2 && NoZero(seg + [rest[0]]) &&
      Blocks(code, seg, rest) == Blocks(code + 1, seg + [rest[0]], rest[1..])
  {
  }

  /** Run length that the encoder gives an all-non-zero message of `m` bytes. */
  function StuffedLength(m: nat): nat
  {
    if m == 0 then 1 else m + (m + 253) / 254
  }

  lemma {:induction false} BlocksLengthBound(code: byte, seg: seq<byte>, rest: seq<byte>)
    requires NoZero(seg) && |seg| < 254 && code == |seg| + 1
    ensures |Blocks(code, seg, rest)| <= |seg| + |rest| + 1 + (|seg| + |rest|) / 254
    decreases |rest|
  {
    if rest != [] {
      BlocksNext(code, seg, rest);
      if rest[0] == SYNC_CHAR {
        BlocksLengthBound(1, [], rest[1..]);
      } else if code == 0xfe {
        if |rest| > 1 {
          BlocksLengthBound(1, [], rest[1..]);
        }
      } else {
        BlocksLengthBound(code + 1, seg + [rest[0]], rest[1..]);
      }
    }
  }

  lemma {:induction false} BlocksLengthNoZero(code: byte, seg: seq<byte>, rest: seq<byte>)
    requires NoZero(seg) && |seg| < 254 && code == |seg| + 1 && NoZero(rest)
    ensures |Blocks(code, seg, rest)| == StuffedLength(|seg| + |rest|)
    decreases |rest|
  {
    if rest != [] {
      BlocksNext(code, seg, rest);
      if code == 0xfe {
        if |rest| > 1 {
          BlocksLengthNoZero(1, [], rest[1..]);
        }
      } else {
        BlocksLengthNoZero(code + 1, seg + [rest[0]], rest[1..]);
      }
    }
  }

  /** Every message the encoder accepts fits in ENC_FRAME_LEN bytes once encoded. */
  lemma EncodedFits(x: seq<byte>)
    requires |x| <= OVERALL_MAX_PACKET_LEN
    ensures |Encoded(x)| <= ENC_FRAME_LEN
  {
    if x != [] {
      BlocksLengthBound(1, [], x);
    }
  }

  /**
   * The declared `Frame.d` is two bytes too short: a maximal message with no
   * zero byte encodes to ENC_FRAME_LEN bytes.
   */
  lemma EncodeOverrunsDeclaredFrame()
    ensures var x := seq<byte>(OVERALL_MAX_PACKET_LEN, _ => 1);
            |Encoded(x)| == ENC_FRAME_LEN > MAX_ENC_PACKET_LEN
  {
    var x := seq<byte>(OVERALL_MAX_PACKET_LEN, _ => 1);
    BlocksLengthNoZero(1, [], x);
  }

  // ------------------------------------------------------------------------------------------
  // One-shot decoding
  // ------------------------------------------------------------------------------------------

  /** Byte `i` of `s`; the decoder finds 0 beyond the end of its input. */
  function At(s: seq<byte>, i: nat): byte
  {
    if i < |s| then s[i] else 0
  }

  /** `s` without its leading sync bytes. */
  function DropSync(s: seq<byte>): (r: seq<byte>)
    ensures |r| <= |s| && (r == [] || r[0] != SYNC_CHAR)
  {
    if s == [] || s[0] != SYNC_CHAR then s else DropSync(s[1..])
  }

  /**
   * The bytes the decoder recovers from the block sequence `s`: None when a
   * block holds a sync byte or runs past the end.
   */
  function Unstuff(s: seq<byte>): (r: Option<seq<byte>>)
    ensures r.Some? ==> |r.value| <= |s|
    decreases |s|
  {
    if s == [] || s[0] == SYNC_CHAR then Some([])
    else
      var k := s[0];
      if k > |s| || !NoZero(s[1..k]) then None
      else
        var z := if s[0] != 0xff && At(s, k) != SYNC_CHAR then [SYNC_CHAR] else [];
        match Unstuff(s[k..])
        case None => None
        case Some(t) => Some(s[1..k] + z + t)
  }

  /** What `COBSSimpleDecode` yields for `s`: None when it returns false with length 0. */
  function Decoded(s: seq<byte>): Option<seq<byte>>
  {
    Unstuff(DropSync(s))
  }

  lemma DropSyncStep(s: seq<byte>, i: nat)
    requires i < |s| && s[i] == SYNC_CHAR
    ensures DropSync(s[i..]) == DropSync(s[i + 1..])
  {
    assert s[i..][1..] == s[i + 1..];
  }

  /** `COBSSimpleDecode`: the decoded frame in `o[..len]`; true iff it is non-empty. */
  method SimpleDecode(input: seq<byte>, o: array<byte>) returns (ok: bool, len: nat)
    requires o.Length >= |input|
    modifies o
    ensures len <= o.Length
    ensures Decoded(input).None? ==> !ok && len == 0
    ensures Decoded(input).Some? ==> o[..len] == Decoded(input).value && ok == (len > 0)
  {
    var fp := SkipSync(input);
    ghost var goal := Decoded(input);
    var op: nat := 0;
    PrefixedEmpty(Unstuff(input[fp..]));
    while fp < |input| && input[fp] != SYNC_CHAR
      invariant 0 <= op <= fp <= |input|
      invariant goal == Prefixed(o[..op], Unstuff(input[fp..]))
      decreases |input| - fp
    {
      var decoded;
      decoded, fp, op := DecodeBlock(input, fp, o, op);
      if !decoded {
        return false, 0;
      }
    }
    assert Unstuff(input[fp..]) == Some([]);
    assert o[..op] + [] == o[..op];
    len := op;
    ok := op != 0;
  }

  /** The first loop of `COBSSimpleDecode`: skips the leading sync bytes. */
  method SkipSync(input: seq<byte>) returns (fp: nat)
    ensures fp <= |input| && input[fp..] == DropSync(input)
  {
    fp := 0;
    while fp < |input| && input[fp] == SYNC_CHAR
      invariant 0 <= fp <= |input| && DropSync(input) == DropSync(input[fp..])
    {
      DropSyncStep(input, fp);
      fp := fp + 1;
    }
  }

  /**
   * One pass of the main loop of `COBSSimpleDecode` over the block whose code
   * byte is `input[fp0]`: its body, then the implied sync byte, appended to
   * `o[..op0]`.
   */
  method DecodeBlock(input: seq<byte>, fp0: nat, o: array<byte>, op0: nat) returns (ok: bool, fp: nat, op: nat)
    requires op0 <= fp0 < |input| && input[fp0] != SYNC_CHAR && o.Length >= |input|
    modifies o
    ensures !ok ==> Unstuff(input[fp0..]) == None
    ensures ok ==> fp0 < fp <= |input| && op <= fp
    ensures ok ==> Prefixed(old(o[..op0]), Unstuff(input[fp0..])) == Prefixed(o[..op], Unstuff(input[fp..]))
  {
    ghost var base := o[..op0];
    var interval := input[fp0];
    ok, fp, op := CopyRun(input, fp0, o, op0);
    if !ok {
      return;
    }
    ghost var body := input[fp0 + 1..fp];
    ghost var z := if interval != 0xff && At(input, fp) != SYNC_CHAR then [SYNC_CHAR] else [];
    if interval != 0xff && fp < |input| && input[fp] != SYNC_CHAR {
      o[op] := SYNC_CHAR;
      AppendSync(o[..op + 1], base + body);
      op := op + 1;
    }
    assert o[..op] == base + (body + z);
    PrefixedBlock(base, input, fp0, fp);
  }

  /** Decoding the block at `input[start]` after `base` extends `base` by its body and implied sync byte. */
  lemma PrefixedBlock(base: seq<byte>, input: seq<byte>, start: nat, fp: nat)
    requires start < |input| && input[start] != SYNC_CHAR && fp == start + input[start] <= |input|
    requires NoZero(input[start + 1..fp])
    ensures var z := if input[start] != 0xff && At(input, fp) != SYNC_CHAR then [SYNC_CHAR] else [];
            Prefixed(base, Unstuff(input[start..])) == Prefixed(base + (input[start + 1..fp] + z), Unstuff(input[fp..]))
  {
    var z := if input[start] != 0xff && At(input, fp) != SYNC_CHAR then [SYNC_CHAR] else [];
    UnstuffAt(input, start, fp);
    PrefixedPrefixed(base, input[start + 1..fp] + z, Unstuff(input[fp..]));
  }

  /**
   * The inner loop of `COBSSimpleDecode`: copies the body of the block whose
   * code byte is `input[fp0]`; fails at a sync byte or the end of the input.
   */
  method CopyRun(input: seq<byte>, fp0: nat, o: array<byte>, op0: nat) returns (ok: bool, fp: nat, op: nat)
    requires op0 <= fp0 < |input| && input[fp0] != SYNC_CHAR && o.Length >= |input|
    modifies o
    ensures !ok ==> Unstuff(input[fp0..]) == None
    ensures ok ==> fp == fp0 + input[fp0] <= |input| && op == op0 + input[fp0] - 1
    ensures ok ==> NoZero(input[fp0 + 1..fp]) && o[..op] == old(o[..op0]) + input[fp0 + 1..fp]
  {
    ghost var s := input[fp0..];
    ghost var base := o[..op0];
    var interval := input[fp0];
    fp, op := fp0 + 1, op0;
    var i := 1;
    while i < interval
      invariant 1 <= i <= interval && fp == fp0 + i && op == op0 + i - 1
      invariant fp <= |input| && op < fp
      invariant o[..op] == base + input[fp0 + 1..fp] && NoZero(input[fp0 + 1..fp])
      decreases interval - i
    {
      if fp >= |input| || input[fp] == SYNC_CHAR {
        assert At(s, i) == SYNC_CHAR;
        UnstuffZero(s, i);
        return false, fp, op;
      }
      o[op] := input[fp];
      assert input[fp0 + 1..fp + 1] == input[fp0 + 1..fp] + [input[fp]];
      op := op + 1;
      fp := fp + 1;
      i := i + 1;
    }
    ok := true;
  }

  /** Unstuff of the block that starts at `input[start]` and ends before `input[fp]`. */
  lemma UnstuffAt(input: seq<byte>, start: nat, fp: nat)
    requires start < |input| && input[start] != SYNC_CHAR && fp == start + input[start] <= |input|
    requires NoZero(input[start + 1..fp])
    ensures var z := if input[start] != 0xff && At(input, fp) != SYNC_CHAR then [SYNC_CHAR] else [];
            Unstuff(input[start..]) == Prefixed(input[start + 1..fp] + z, Unstuff(input[fp..]))
  {
    var s := input[start..];
    assert s[1..s[0]] == input[start + 1..fp];
    assert s[s[0]..] == input[fp..];
    assert At(s, s[0]) == At(input, fp);
    UnstuffStep(s);
  }


  /** One block of Unstuff, once its body is known to be free of sync bytes. */
  lemma UnstuffStep(s: seq<byte>)
    requires s != [] && s[0] != SYNC_CHAR && s[0] <= |s| && NoZero(s[1..s[0]])
    ensures var k := s[0];
            var z := if s[0] != 0xff && At(s, k) != SYNC_CHAR then [SYNC_CHAR] else [];
            Unstuff(s) == Prefixed(s[1..k] + z, Unstuff(s[k..]))
  {
  }

  lemma PrefixedEmpty(r: Option<seq<byte>>)
    ensures Prefixed([], r) == r
  {
    if r.Some? {
      assert [] + r.value == r.value;
    }
  }

  lemma PrefixedPrefixed(p: seq<byte>, q: seq<byte>, r: Option<seq<byte>>)
    ensures Prefixed(p, Prefixed(q, r)) == Prefixed(p + q, r)
  {
    if r.Some? {
      assert p + (q + r.value) == p + q + r.value;
    }
  }

  /** `Some(p + d)` for `Some(d)`, None for None. */
  function Prefixed(p: seq<byte>, r: Option<seq<byte>>): Option<seq<byte>>
  {
    match r
    case None => None
    case Some(d) => Some(p + d)
  }

  /** A sync byte inside the first block makes the whole decode fail. */
  lemma UnstuffZero(s: seq<byte>, j: nat)
    requires s != [] && s[0] != SYNC_CHAR && 1 <= j < s[0] && At(s, j) == SYNC_CHAR
    ensures Unstuff(s) == None
  {
    if s[0] <= |s| {
      assert s[1..s[0]][j - 1] == s[j];
    }
  }

  /** Leading sync bytes are skipped. */
  lemma DecodedSkipsSync(s: seq<byte>)
    ensures Decoded([SYNC_CHAR] + s) == Decoded(s)
  {
    assert ([SYNC_CHAR] + s)[1..] == s;
  }

  /** Unstuff of one well-formed block followed by more input. */
  lemma UnstuffBlock(code: byte, body: seq<byte>, tail: seq<byte>)
    requires code == |body| + 1 && NoZero(body)
    ensures var z := if code != 0xff && At(tail, 0) != SYNC_CHAR then [SYNC_CHAR] else [];
            Unstuff([code] + body + tail) == Prefixed(body + z, Unstuff(tail))
  {
    var s := [code] + body + tail;
    assert s[1..|body| + 1] == body && s[|body| + 1..] == tail;
    assert At(s, |body| + 1) == At(tail, 0);
  }

  /** Decoding undoes the blocks of a pending run and the message after it. */
  lemma {:induction false} UnstuffBlocks(code: byte, seg: seq<byte>, rest: seq<byte>)
    requires NoZero(seg) && |seg| < 254 && code == |seg| + 1
    ensures Unstuff(Blocks(code, seg, rest) + [SYNC_CHAR]) == Some(seg + rest)
    decreases |rest|
  {
    if rest == [] {
      assert seg + rest == seg;
      UnstuffLastBlock(code, seg);
    } else {
      BlocksNext(code, seg, rest);
      if rest[0] == SYNC_CHAR {
        UnstuffBlocks(1, [], rest[1..]);
        UnstuffBlockThenZero(code, seg, rest);
      } else if code == 0xfe {
        if |rest| == 1 {
          assert rest == [rest[0]];
          assert Blocks(code, seg, rest) == [0xff] + (seg + rest) + [];
          assert Blocks(code, seg, rest) == [0xff] + (seg + rest);
          UnstuffLastBlock(0xff, seg + rest);
        } else {
          UnstuffBlocks(1, [], rest[1..]);
          UnstuffFullBlock(seg, rest);
        }
      } else {
        UnstuffBlocks(code + 1, seg + [rest[0]], rest[1..]);
        SplitHead(seg, rest);
      }
    }
  }

  lemma SplitHead(p: seq<byte>, s: seq<byte>)
    requires s != []
    ensures p + [s[0]] + s[1..] == p + s
  {
  }

  lemma UnstuffLastBlock(code: byte, seg: seq<byte>)
    requires NoZero(seg) && code == |seg| + 1
    ensures Unstuff([code] + seg + [SYNC_CHAR]) == Some(seg)
  {
    UnstuffBlock(code, seg, [SYNC_CHAR]);
    assert seg + [] + [] == seg;
  }

  lemma UnstuffBlockThenZero(code: byte, seg: seq<byte>, rest: seq<byte>)
    requires NoZero(seg) && |seg| < 254 && code == |seg| + 1
    requires rest != [] && rest[0] == SYNC_CHAR
    requires Blocks(code, seg, rest) == [code] + seg + Blocks(1, [], rest[1..])
    requires Unstuff(Blocks(1, [], rest[1..]) + [SYNC_CHAR]) == Some([] + rest[1..])
    ensures Unstuff(Blocks(code, seg, rest) + [SYNC_CHAR]) == Some(seg + rest)
  {
    var more := rest[1..];
    var t := Blocks(1, [], more) + [SYNC_CHAR];
    assert Blocks(code, seg, rest) + [SYNC_CHAR] == [code] + seg + t;
    UnstuffBlock(code, seg, t);
    assert [] + more == more;
    assert At(t, 0) != SYNC_CHAR;
    assert Unstuff([code] + seg + t) == Some(seg + [SYNC_CHAR] + more);
    SplitHead(seg, rest);
  }

  lemma UnstuffFullBlock(seg: seq<byte>, rest: seq<byte>)
    requires |rest| > 1 && NoZero(seg) && NoZero(seg + [rest[0]]) && |seg| == 253
    requires Blocks(0xfe, seg, rest) == [0xff] + (seg + [rest[0]]) + Blocks(1, [], rest[1..])
    requires Unstuff(Blocks(1, [], rest[1..]) + [SYNC_CHAR]) == Some([] + rest[1..])
    ensures Unstuff(Blocks(0xfe, seg, rest) + [SYNC_CHAR]) == Some(seg + rest)
  {
    var more := rest[1..];
    var body := seg + [rest[0]];
    var t := Blocks(1, [], more) + [SYNC_CHAR];
    assert Blocks(0xfe, seg, rest) + [SYNC_CHAR] == [0xff] + body + t;
    UnstuffBlock(0xff, body, t);
    assert [] + more == more;
    assert body + [] == body;
    assert Unstuff([0xff] + body + t) == Some(body + more);
    SplitHead(seg, rest);
  }

  /** For any non-empty message the one-shot decoder inverts the encoder. */
  lemma DecodeEncoded(x: seq<byte>)
    requires x != []
    ensures Decoded(Encoded(x)) == Some(x)
  {
    UnstuffBlocks(1, [], x);
    assert Encoded(x)[0] != SYNC_CHAR;
    assert [] + x == x;
  }

  // ------------------------------------------------------------------------------------------
  // Frame extent
  // ------------------------------------------------------------------------------------------

  /** `COBSgetFrameExtent`: the first sync byte among the `len` bytes, else the last of them. */
  method FrameExtent(s: seq<byte>, len: int) returns (p: nat)
    requires 1 <= len <= |s|
    ensures p < len && (s[p] == SYNC_CHAR || p == len - 1)
    ensures forall j :: 0 <= j < p ==> s[j] != SYNC_CHAR
  {
    p := 0;
    var left := len;
    while s[p] != SYNC_CHAR
      invariant 0 <= p < len && left == len - p
      invariant forall j :: 0 <= j < p ==> s[j] != SYNC_CHAR
      decreases left
    {
      left := left - 1;
      if left == 0 {
        break;
      }
      p := p + 1;
    }
  }

  // ------------------------------------------------------------------------------------------
  // Streaming decoder
  // ------------------------------------------------------------------------------------------

  datatype PumpState = Idle | Rxing

  /** The registers of a `struct COBS` that the pump uses. */
  datatype PumpRegs = PumpRegs(s: PumpState, intervalCount: byte, maxCount: bool, error: nat, f: seq<byte>)

  /**
   * One byte of `COBSPump`, with the frame-length check applied before the
   * implicit zero at a block boundary is stored (see PumpStepAsWritten).
   * Returns the new registers and the frame handed to the callback, if any.
   */
  function PumpStep(r: PumpRegs, c: byte): (PumpRegs, Option<seq<byte>>)
  {
    match r.s
    case Idle =>
      if c != SYNC_CHAR then (r.(f := [], intervalCount := c, maxCount := c == 0xff, s := Rxing), None)
      else (r, None)
    case Rxing =>
      var n := Dec8(r.intervalCount);
      if n == 0 then
        if c == SYNC_CHAR then (r.(intervalCount := n, s := Idle), Some(r.f))
        else if !r.maxCount && |r.f| > MAX_PACKET_LEN then (r.(intervalCount := n, error := r.error + 1, s := Idle), None)
        else (r.(f := if r.maxCount then r.f else r.f + [SYNC_CHAR], intervalCount := c, maxCount := c == 0xff), None)
      else if |r.f| > MAX_PACKET_LEN || c == SYNC_CHAR then (r.(intervalCount := n, error := r.error + 1, s := Idle), None)
      else (r.(intervalCount := n, f := r.f + [c]), None)
  }

  /** One byte of `COBSPump` exactly as written: the implicit zero is stored unchecked. */
  function PumpStepAsWritten(r: PumpRegs, c: byte): PumpRegs
  {
    match r.s
    case Idle =>
      if c != SYNC_CHAR then r.(f := [], intervalCount := c, maxCount := c == 0xff, s := Rxing) else r
    case Rxing =>
      var n := Dec8(r.intervalCount);
      if n == 0 then
        if c == SYNC_CHAR then r.(intervalCount := n, s := Idle)
        else r.(f := if r.maxCount then r.f else r.f + [SYNC_CHAR], intervalCount := c, maxCount := c == 0xff)
      else if |r.f| > MAX_PACKET_LEN || c == SYNC_CHAR then r.(intervalCount := n, error := r.error + 1, s := Idle)
      else r.(intervalCount := n, f := r.f + [c])
  }

  function RunAsWritten(r: PumpRegs, cs: seq<byte>): PumpRegs
    decreases |cs|
  {
    if cs == [] then r else RunAsWritten(PumpStepAsWritten(r, cs[0]), cs[1..])
  }

  /** A run of 0x01 codes keeps storing implicit zeros without any length check. */
  lemma {:induction false} OnesGrowFrame(r: PumpRegs, k: nat)
    requires r.s == Rxing && r.intervalCount == 1 && !r.maxCount
    ensures RunAsWritten(r, seq<byte>(k, _ => 1)).f == r.f + seq(k, _ => SYNC_CHAR)
    decreases k
  {
    var ones := seq<byte>(k, _ => 1);
    if k > 0 {
      var r' := PumpStepAsWritten(r, 1);
      assert ones[1..] == seq<byte>(k - 1, _ => 1);
      OnesGrowFrame(r', k - 1);
      assert r'.f + seq(k - 1, _ => SYNC_CHAR) == r.f + seq(k, _ => SYNC_CHAR);
    }
  }

  /** As written, the pump writes past the end of `Frame.d` on 0x01 repeated. */
  lemma PumpOverrunsFrameAsWritten()
    ensures var cs := seq<byte>(MAX_ENC_PACKET_LEN + 2, _ => 1);
            |RunAsWritten(PumpRegs(Idle, 0, false, 0, []), cs).f| > MAX_ENC_PACKET_LEN
  {
    var cs := seq<byte>(MAX_ENC_PACKET_LEN + 2, _ => 1);
    var r := PumpStepAsWritten(PumpRegs(Idle, 0, false, 0, []), 1);
    assert cs[1..] == seq<byte>(MAX_ENC_PACKET_LEN + 1, _ => 1);
    OnesGrowFrame(r, MAX_ENC_PACKET_LEN + 1);
  }

  /** With the check in place the frame under construction never outgrows MAX_PACKET_LEN + 1. */
  lemma PumpStepKeepsFrameBounded(r: PumpRegs, c: byte)
    requires |r.f| <= MAX_PACKET_LEN + 1
    ensures |PumpStep(r, c).0.f| <= MAX_PACKET_LEN + 1
  {
  }

  /** A frame is handed over exactly when a block count expires on a sync byte, and the pump then idles. */
  lemma PumpDeliversOnSync(r: PumpRegs, c: byte)
    ensures PumpStep(r, c).1.Some? <==> r.s == Rxing && r.intervalCount == 1 && c == SYNC_CHAR
    ensures PumpStep(r, c).1.Some? ==> PumpStep(r, c).1.value == r.f && PumpStep(r, c).0.s == Idle
  {
  }

  /** A sync byte inside a block, or an over-long frame, counts an error and drops back to idle. */
  lemma PumpRejects(r: PumpRegs, c: byte)
    requires r.s == Rxing && r.intervalCount != 1 && (c == SYNC_CHAR || |r.f| > MAX_PACKET_LEN)
    ensures PumpStep(r, c).0.s == Idle && PumpStep(r, c).0.error == r.error + 1
    ensures PumpStep(r, c).1 == None && PumpStep(r, c).0.f == r.f
  {
  }

  /** The streaming decoder of a `struct COBS`; frames go to the caller instead of a callback. */
  class Pump {
    var s: PumpState
    var intervalCount: byte
    var maxCount: bool
    var error: nat
    var f: seq<byte>

    ghost function Regs(): PumpRegs
      reads this
    {
      PumpRegs(s, intervalCount, maxCount, error, f)
    }

    ghost predicate Valid()
      reads this
    {
      |f| <= MAX_PACKET_LEN + 1 && (s == Rxing ==> intervalCount != 0)
    }

    /** The zero-filled instance `COBSInit` allocates. */
    constructor ()
      ensures Valid() && Regs() == PumpRegs(Idle, 0, false, 0, [])
    {
      s, intervalCount, maxCount, error, f := Idle, 0, false, 0, [];
    }

    /** `COBSPump`: feeds `incoming` byte by byte and returns the completed frames in order. */
    method Feed(incoming: seq<byte>) returns (frames: seq<seq<byte>>)
      requires Valid()
      modifies this
      ensures Valid()
      ensures (Regs(), frames) == Run(old(Regs()), incoming)
    {
      frames := [];
      var i := 0;
      while i < |incoming|
        invariant 0 <= i <= |incoming| && Valid()
        invariant Run(old(Regs()), incoming) == Run2(Regs(), frames, incoming[i..])
        decreases |incoming| - i
      {
        ghost var before := Regs();
        ghost var acc := frames;
        var out := Step(incoming[i]);
        if out.Some? {
          frames := frames + [out.value];
        }
        Run2Next(before, acc, incoming[i..]);
        assert incoming[i..][1..] == incoming[i + 1..];
        i := i + 1;
      }
    }

    /** The body of the `COBSPump` loop for the byte `c`. */
    method Step(c: byte) returns (out: Option<seq<byte>>)
      requires Valid()
      modifies this
      ensures Valid()
      ensures (Regs(), out) == PumpStep(old(Regs()), c)
    {
      ghost var r := Regs();
      out := None;
      match s {
      case Idle =>
        if c != SYNC_CHAR {
          f := [];
          intervalCount := c;
          maxCount := c == 0xff;
          s := Rxing;
        }
      case Rxing =>
        intervalCount := Dec8(intervalCount);
        if intervalCount == 0 {
          if c == SYNC_CHAR {
            out := Some(f);
            s := Idle;
          } else if !maxCount && |f| > MAX_PACKET_LEN {
            error := error + 1;
            s := Idle;
          } else {
            if !maxCount {
              f := f + [SYNC_CHAR];
            }
            intervalCount := c;
            maxCount := c == 0xff;
          }
        } else if |f| > MAX_PACKET_LEN || c == SYNC_CHAR {
          error := error + 1;
          s := Idle;
        } else {
          f := f + [c];
        }
      }
      assert (Regs(), out) == PumpStep(r, c);
    }
  }

  /** The registers after pumping `cs`, and the frames delivered on the way. */
  function Run(r: PumpRegs, cs: seq<byte>): (PumpRegs, seq<seq<byte>>)
  {
    Run2(r, [], cs)
  }

  function Run2(r: PumpRegs, acc: seq<seq<byte>>, cs: seq<byte>): (PumpRegs, seq<seq<byte>>)
    decreases |cs|
  {
    if cs == [] then (r, acc)
    else
      var (r', out) := PumpStep(r, cs[0]);
      Run2(r', if out.Some? then acc + [out.value] else acc, cs[1..])
  }

  lemma Run2Next(r: PumpRegs, acc: seq<seq<byte>>, cs: seq<byte>)
    requires cs != []
    ensures var (r', out) := PumpStep(r, cs[0]);
            Run2(r, acc, cs) == Run2(r', if out.Some? then acc + [out.value] else acc, cs[1..])
  {
  }
}
