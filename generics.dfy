/**
 * The string helpers every orbuculum tool shares: turning control characters
 * into backslash escapes and back, the last element of a path, and the
 * report level.  Strings are C strings: the first NUL (or the end of the
 * sequence) ends them.  The escape routines write into a static buffer of
 * `_POSIX_ARG_MAX` characters and stop once it is (nearly) full.
 */
module Generics {
  import opened Bytes

  /** `_POSIX_ARG_MAX`, the size of the static working buffers. */
  const POSIX_ARG_MAX: nat := 4096

  const NUL: char := 0 as char
  const BACKSLASH: char := '\\'

  // ---------------------------------------------------------------- escape letters

  /** The letter of the escape for the seven control characters that have one (BEL, BS, FF, NL, CR, TAB, VT). */
  function Letter(c: char): Option<char>
  {
    if c == 7 as char then Some('a')
    else if c == 8 as char then Some('b')
    else if c == 12 as char then Some('f')
    else if c == 10 as char then Some('n')
    else if c == 13 as char then Some('r')
    else if c == 9 as char then Some('t')
    else if c == 11 as char then Some('v')
    else None
  }

  /** The control character an escape letter stands for. */
  function Control(l: char): Option<char>
  {
    match l
    case 'a' => Some(7 as char)
    case 'b' => Some(8 as char)
    case 'f' => Some(12 as char)
    case 'n' => Some(10 as char)
    case 'r' => Some(13 as char)
    case 't' => Some(9 as char)
    case 'v' => Some(11 as char)
    case _ => None
  }

  /** The two tables are inverse to each other; no escape letter is a backslash, a NUL or an octal digit. */
  lemma LetterControl(c: char, l: char)
    ensures Letter(c) == Some(l) <==> Control(l) == Some(c)
    ensures Letter(c).Some? ==> var m := Letter(c).value; m != BACKSLASH && m != NUL && !IsOctal(m)
  {
  }

  predicate IsOctal(c: char)
  {
    '0' <= c <= '7'
  }

  // ---------------------------------------------------------------- genericsEscape

  /** What `genericsEscape` writes for one character: a backslash and a letter, or the character itself. */
  function EscChar(c: char): (e: string)
    ensures 1 <= |e| <= 2
  {
    if Letter(c).Some? then [BACKSLASH, Letter(c).value] else [c]
  }

  /**
   * The escape loop from `s` on, with `d` written so far: each character is
   * written escaped, and the loop goes on while the input has not ended and
   * fewer than `limit` characters are written.  With `fit` set, an escape
   * that would take the output past `limit` ends the loop instead of being
   * written.  The terminator goes at index `|out|`.
   */
  function EscapeRun(s: string, d: string, limit: nat, fit: bool): (out: string)
    requires |d| < limit
    ensures d <= out <= d + EscapeAll(s) && |out| <= limit + 1
    ensures fit ==> |out| <= limit
    decreases |s|
  {
    if s == [] || s[0] == NUL then d
    else
      var e := EscChar(s[0]);
      if fit && |d| + |e| > limit then d
      else
        var d' := d + e;
        assert d' + EscapeAll(s[1..]) == d + EscapeAll(s);
        if |d'| < limit then EscapeRun(s[1..], d', limit, fit) else d'
  }

  /** The escape of a whole string, with no buffer limit. */
  function EscapeAll(s: string): (e: string)
    ensures |e| <= 2 * |s|
    decreases |s|
  {
    if s == [] || s[0] == NUL then [] else EscChar(s[0]) + EscapeAll(s[1..])
  }

  /** `genericsEscape` as written: it stops once 4095 characters are written, but an escape may have taken it to 4096. */
  function EscapeAsWritten(s: string): (out: string)
    ensures out <= EscapeAll(s) && |out| <= POSIX_ARG_MAX
  {
    EscapeRun(s, [], POSIX_ARG_MAX - 1, false)
  }

  /** `genericsEscape` with an escape that would not fit left out, so that the terminator always fits. */
  function EscapeBounded(s: string): (out: string)
    ensures out <= EscapeAll(s) && |out| <= POSIX_ARG_MAX - 1
  {
    EscapeRun(s, [], POSIX_ARG_MAX - 1, true)
  }

  /** Wherever the code as written stays within the buffer, the bounded escape writes the same. */
  lemma {:induction false} EscapeRunAgrees(s: string, d: string, limit: nat)
    requires |d| < limit && |EscapeRun(s, d, limit, false)| <= limit
    ensures EscapeRun(s, d, limit, true) == EscapeRun(s, d, limit, false)
    decreases |s|
  {
    if s != [] && s[0] != NUL {
      var d' := d + EscChar(s[0]);
      if |d'| < limit {
        EscapeRunAgrees(s[1..], d', limit);
      }
    }
  }

  /** The bounded escape differs from the code as written only where that overruns the buffer. */
  lemma EscapeBoundedAgrees(s: string)
    ensures |EscapeAsWritten(s)| <= POSIX_ARG_MAX - 1 ==> EscapeBounded(s) == EscapeAsWritten(s)
  {
    if |EscapeAsWritten(s)| <= POSIX_ARG_MAX - 1 {
      EscapeRunAgrees(s, [], POSIX_ARG_MAX - 1);
    }
  }

  /** `n` ordinary characters. */
  function Plain(n: nat): (s: string)
    ensures |s| == n && forall i :: 0 <= i < n ==> s[i] == 'x'
  {
    seq(n, _ => 'x')
  }

  /** Ordinary characters within the limit are copied one for one. */
  lemma {:induction false} EscapePlain(k: nat, t: string, d: string, limit: nat, fit: bool)
    requires |d| + k < limit
    ensures EscapeRun(Plain(k) + t, d, limit, fit) == EscapeRun(t, d + Plain(k), limit, fit)
    decreases k
  {
    if k > 0 {
      var s := Plain(k) + t;
      assert s[0] == 'x' && Letter('x') == None;
      assert s[1..] == Plain(k - 1) + t;
      EscapePlain(k - 1, t, d + ['x'], limit, fit);
      assert (d + ['x']) + Plain(k - 1) == d + Plain(k);
    } else {
      assert Plain(k) + t == t;
      assert d + Plain(k) == d;
    }
  }

  /**
   * 4094 ordinary characters and a newline: the escape of the newline takes
   * the output to 4096 characters, so the terminator is written one place
   * past the end of the buffer.  The bounded escape leaves the newline out.
   */
  lemma EscapeAsWrittenOverruns()
    ensures |EscapeAsWritten(Plain(4094) + [10 as char])| == POSIX_ARG_MAX
    ensures EscapeBounded(Plain(4094) + [10 as char]) == Plain(4094)
  {
    var nl := 10 as char;
    EscapePlain(4094, [nl], [], POSIX_ARG_MAX - 1, false);
    EscapePlain(4094, [nl], [], POSIX_ARG_MAX - 1, true);
    assert [] + Plain(4094) == Plain(4094);
    assert EscapeRun([nl], Plain(4094), POSIX_ARG_MAX - 1, false) == Plain(4094) + [BACKSLASH, 'n'];
  }

  /** A long plain string fills the buffer up to its terminator, in the code as written and in the bounded escape alike. */
  lemma EscapeLongPlain(n: nat)
    requires n >= POSIX_ARG_MAX - 1
    ensures EscapeAsWritten(Plain(n)) == EscapeBounded(Plain(n)) == Plain(POSIX_ARG_MAX - 1)
  {
    var k := POSIX_ARG_MAX - 2;
    var t := Plain(n - k);
    assert Plain(n) == Plain(k) + t;
    EscapePlain(k, t, [], POSIX_ARG_MAX - 1, false);
    EscapePlain(k, t, [], POSIX_ARG_MAX - 1, true);
    assert [] + Plain(k) == Plain(k);
    assert t[0] == 'x' && Letter('x') == None;
    assert Plain(k) + ['x'] == Plain(POSIX_ARG_MAX - 1);
  }

  /** Below the limit the loop writes the whole escape. */
  lemma {:induction false} EscapeRunAll(s: string, d: string, limit: nat, fit: bool)
    requires |d| + |EscapeAll(s)| < limit
    ensures EscapeRun(s, d, limit, fit) == d + EscapeAll(s)
    decreases |s|
  {
    if s != [] && s[0] != NUL {
      EscapeRunAll(s[1..], d + EscChar(s[0]), limit, fit);
      assert (d + EscChar(s[0])) + EscapeAll(s[1..]) == d + EscapeAll(s);
    }
  }

  /** `genericsEscape`, writing the buffer a character at a time and stopping before an escape that would not fit. */
  method Escape(str: string) returns (out: string)
    ensures out == EscapeBounded(str)
  {
    var limit := POSIX_ARG_MAX - 1;
    var i := 0;
    out := [];
    assert str[i..] == str;
    while i < |str| && str[i] != NUL
      invariant 0 <= i <= |str| && |out| < limit
      invariant EscapeRun(str[i..], out, limit, true) == EscapeBounded(str)
      decreases |str| - i
    {
      assert str[i..][1..] == str[i + 1..];
      var e := EscChar(str[i]);
      if |out| + |e| > limit {
        return;
      }
      out := out + e;
      i := i + 1;
      if |out| >= limit {
        return;
      }
    }
  }

  // ---------------------------------------------------------------- genericsUnescape

  /** The number of octal digits `s` starts with. */
  function OctalLen(s: string): (n: nat)
    ensures n <= |s|
    decreases |s|
  {
    if s != [] && IsOctal(s[0]) then 1 + OctalLen(s[1..]) else 0
  }

  /** The octal digits `ds` read into a `char`, eight bits kept after each digit. */
  function OctalByte(ds: string): (b: byte)
    decreases |ds|
  {
    if ds == [] then 0
    else (OctalByte(ds[..|ds| - 1]) * 8 + (ds[|ds| - 1] as int - '0' as int)) % 256
  }

  /**
   * The unescape loop from `s` on, with `d` written so far.  A backslash and
   * a letter give the control character, a backslash and octal digits give
   * the byte they spell, a backslash and anything else give that character,
   * and a backslash at the end gives nothing.  `skips` says whether the
   * character after an octal escape is passed over, as the code does.
   */
  function UnescapeRun(s: string, d: string, limit: nat, skips: bool): (out: string)
    requires |d| < limit
    ensures d <= out && |out| <= limit
    decreases |s|
  {
    if s == [] || s[0] == NUL then d
    else if s[0] != BACKSLASH then
      var d' := d + [s[0]];
      if |d'| < limit then UnescapeRun(s[1..], d', limit, skips) else d'
    else if |s| == 1 || s[1] == NUL then d
    else if Control(s[1]).Some? then
      var d' := d + [Control(s[1]).value];
      if |d'| < limit then UnescapeRun(s[2..], d', limit, skips) else d'
    else if IsOctal(s[1]) then
      var n := OctalLen(s[1..]);
      var d' := d + [OctalByte(s[1..1 + n]) as char];
      var after := s[1 + n..];
      if !skips then
        if |d'| < limit then UnescapeRun(after, d', limit, skips) else d'
      else if after == [] || after[0] == NUL then d'
      else if |d'| < limit then UnescapeRun(after[1..], d', limit, skips) else d'
    else
      var d' := d + [s[1]];
      if |d'| < limit then UnescapeRun(s[2..], d', limit, skips) else d'
  }

  /** `genericsUnescape` as written: the character after an octal escape is lost. */
  function UnescapeAsWritten(s: string): (out: string)
    ensures |out| <= POSIX_ARG_MAX - 1
  {
    UnescapeRun(s, [], POSIX_ARG_MAX - 1, true)
  }

  /** `genericsUnescape` going on from the character after an octal escape. */
  function UnescapeFixed(s: string): (out: string)
    ensures |out| <= POSIX_ARG_MAX - 1
  {
    UnescapeRun(s, [], POSIX_ARG_MAX - 1, false)
  }

  /** An octal escape followed by a character that is not a digit: the code drops that character, the intended reading keeps it. */
  lemma OctalEscapeThen(ds: string, x: char, t: string, d: string, limit: nat)
    requires ds != [] && (forall i :: 0 <= i < |ds| ==> IsOctal(ds[i]))
    requires !IsOctal(x) && x != NUL && |d| + 1 < limit
    ensures UnescapeRun([BACKSLASH] + ds + [x] + t, d, limit, true) == UnescapeRun(t, d + [OctalByte(ds) as char], limit, true)
    ensures UnescapeRun([BACKSLASH] + ds + [x] + t, d, limit, false) == UnescapeRun([x] + t, d + [OctalByte(ds) as char], limit, false)
  {
    var s := [BACKSLASH] + ds + [x] + t;
    var rest := [x] + t;
    assert s == [BACKSLASH] + (ds + rest);
    assert s[1..] == ds + rest;
    OctalLenOf(ds, rest);
    var n := |ds|;
    assert s[1..1 + n] == ds;
    assert s[1 + n..] == rest;
    assert rest[1..] == t;
    assert Control(ds[0]).None?;
    OctalStep(s, d, limit, true);
    OctalStep(s, d, limit, false);
  }

  /** One octal escape not at the end: its byte is written and the run goes on after the digits, or one further when `skips`. */
  lemma OctalStep(s: string, d: string, limit: nat, skips: bool)
    requires |s| >= 2 && s[0] == BACKSLASH && IsOctal(s[1]) && Control(s[1]).None? && |d| + 1 < limit
    requires 1 + OctalLen(s[1..]) < |s| && s[1 + OctalLen(s[1..])] != NUL
    ensures var n := OctalLen(s[1..]);
            UnescapeRun(s, d, limit, skips)
            == UnescapeRun(if skips then s[2 + n..] else s[1 + n..], d + [OctalByte(s[1..1 + n]) as char], limit, skips)
  {
    var n := OctalLen(s[1..]);
    assert s[1 + n..][1..] == s[2 + n..];
  }

  lemma {:induction false} OctalLenOf(ds: string, t: string)
    requires forall i :: 0 <= i < |ds| ==> IsOctal(ds[i])
    requires t != [] && !IsOctal(t[0])
    ensures OctalLen(ds + t) == |ds|
    decreases |ds|
  {
    if ds != [] {
      assert (ds + t)[1..] == ds[1..] + t;
      OctalLenOf(ds[1..], t);
    } else {
      assert ds + t == t;
    }
  }

  /** "\101B": the code gives "A", the intended reading "AB". */
  lemma UnescapeOctalExample()
    ensures UnescapeAsWritten(['\\', '1', '0', '1', 'B']) == ['A']
    ensures UnescapeFixed(['\\', '1', '0', '1', 'B']) == ['A', 'B']
  {
    var ds := ['1', '0', '1'];
    var limit := POSIX_ARG_MAX - 1;
    assert ds[..2] == ['1', '0'] && ['1', '0'][..1] == ['1'] && ['1'][..0] == [];
    assert OctalByte(['1']) == 1;
    assert OctalByte(['1', '0']) == 8;
    assert OctalByte(ds) == 65 && 65 as char == 'A';
    assert ['\\', '1', '0', '1', 'B'] == [BACKSLASH] + ds + ['B'] + [];
    OctalEscapeThen(ds, 'B', [], [], limit);
    assert [] + ['A'] == ['A'] && ['B'] + [] == ['B'] && ['B'][1..] == [];
    assert UnescapeRun(['B'], ['A'], limit, false) == ['A', 'B'];
  }

  /**
   * `genericsUnescape` (going on after an octal escape), writing the buffer a
   * character at a time and reading octal digits in an inner loop.
   */
  method Unescape(str: string) returns (out: string)
    ensures out == UnescapeFixed(str)
  {
    var limit := POSIX_ARG_MAX - 1;
    var i := 0;
    out := [];
    assert str[i..] == str;
    while i < |str| && str[i] != NUL
      invariant 0 <= i <= |str| && |out| < limit
      invariant UnescapeRun(str[i..], out, limit, false) == UnescapeFixed(str)
      decreases |str| - i
    {
      var s := str[i..];
      if str[i] != BACKSLASH {
        assert s[1..] == str[i + 1..];
        out := out + [str[i]];
        i := i + 1;
      } else if i + 1 == |str| || str[i + 1] == NUL {
        return;
      } else if Control(str[i + 1]).Some? {
        assert s[2..] == str[i + 2..];
        out := out + [Control(str[i + 1]).value];
        i := i + 2;
      } else if IsOctal(str[i + 1]) {
        var j, v := ReadOctal(str, i + 1);
        var n := j - i - 1;
        assert s[1..1 + n] == str[i + 1..j] && s[1 + n..] == str[j..];
        out := out + [v as char];
        i := j;
      } else {
        assert s[2..] == str[i + 2..];
        out := out + [str[i + 1]];
        i := i + 2;
      }
      if |out| >= limit {
        return;
      }
    }
  }

  /** The inner loop of `genericsUnescape`: the octal digits from `from` on, read into a byte. */
  method ReadOctal(str: string, from: nat) returns (j: nat, v: byte)
    requires from <= |str|
    ensures from <= j <= |str| && j - from == OctalLen(str[from..])
    ensures v == OctalByte(str[from..j])
  {
    j, v := from, 0;
    assert str[from..j] == [];
    while j < |str| && IsOctal(str[j])
      invariant from <= j <= |str|
      invariant v == OctalByte(str[from..j])
      invariant OctalLen(str[from..]) == (j - from) + OctalLen(str[j..])
      decreases |str| - j
    {
      assert str[from..j + 1][..j - from] == str[from..j];
      assert str[j..][1..] == str[j + 1..];
      v := (v * 8 + (str[j] as int - '0' as int)) % 256;
      j := j + 1;
    }
  }

  /** Unescaping an escape with nothing to undo but the letters gives the string back. */
  lemma {:induction false} UnescapeEscapeAll(s: string, d: string, limit: nat, skips: bool)
    requires forall i :: 0 <= i < |s| ==> s[i] != BACKSLASH && s[i] != NUL
    requires |d| + |s| < limit
    ensures UnescapeRun(EscapeAll(s), d, limit, skips) == d + s
    decreases |s|
  {
    if s != [] {
      var c := s[0];
      var e := EscapeAll(s);
      assert e == EscChar(c) + EscapeAll(s[1..]);
      UnescapeEscapeAll(s[1..], d + [c], limit, skips);
      assert (d + [c]) + s[1..] == d + s;
      if Letter(c).Some? {
        LetterControl(c, Letter(c).value);
        assert e[2..] == EscapeAll(s[1..]);
      } else {
        assert e[1..] == EscapeAll(s[1..]);
      }
    }
  }

  /** For a string without backslashes that escapes within the buffer, unescaping the escape gives it back. */
  lemma RoundTrip(s: string)
    requires forall i :: 0 <= i < |s| ==> s[i] != BACKSLASH && s[i] != NUL
    requires |EscapeAll(s)| < POSIX_ARG_MAX - 1
    ensures UnescapeFixed(EscapeBounded(s)) == s
  {
    EscapeRunAll(s, [], POSIX_ARG_MAX - 1, true);
    assert [] + EscapeAll(s) == EscapeAll(s);
    EscapeAllLonger(s);
    UnescapeEscapeAll(s, [], POSIX_ARG_MAX - 1, false);
    assert [] + s == s;
  }

  lemma {:induction false} EscapeAllLonger(s: string)
    requires forall i :: 0 <= i < |s| ==> s[i] != NUL
    ensures |EscapeAll(s)| >= |s|
    decreases |s|
  {
    if s != [] {
      EscapeAllLonger(s[1..]);
    }
  }

  // ---------------------------------------------------------------- genericsBasename(N)

  /** How many slashes `s` holds. */
  function Slashes(s: string): (n: nat)
    ensures n <= |s|
    decreases |s|
  {
    if s == [] then 0 else (if s[|s| - 1] == '/' then 1 else 0) + Slashes(s[..|s| - 1])
  }

  /** `p` is where the last element of `n` starts: just after the last '/', or 0 when there is none. */
  predicate IsBasenameStart(n: string, p: nat)
  {
    p <= |n| && (p == 0 || n[p - 1] == '/') && forall i :: p <= i < |n| ==> n[i] != '/'
  }

  /** `p` is where the last `c` + 1 elements of `n` start, or 0 when it has fewer. */
  predicate IsBasenameNStart(n: string, c: nat, p: nat)
  {
    p <= |n| && Slashes(n[p..]) <= c && (p > 0 ==> n[p - 1] == '/' && Slashes(n[p..]) == c)
  }

  /** `genericsBasename`: where the last element of the path starts; the answer is the suffix from there, "" when the path ends with '/'. */
  method BasenameStart(n: string) returns (p: nat)
    ensures IsBasenameStart(n, p)
  {
    p := |n|;
    while p != 0 && n[p - 1] != '/'
      invariant p <= |n|
      invariant forall i :: p <= i < |n| ==> n[i] != '/'
    {
      p := p - 1;
    }
  }

  /** There is only one such place. */
  lemma BasenameUnique(n: string, p: nat, q: nat)
    requires IsBasenameStart(n, p) && IsBasenameStart(n, q)
    ensures p == q
  {
  }

  /**
   * `genericsBasenameN` as written.  The test for a slash looks at the
   * character the loop has just checked is not one, so `c` never counts
   * down: any non-zero `c` gives the basename, and 0 gives "".
   */
  method BasenameNAsWritten(n: string, c: int) returns (p: nat)
    ensures c == 0 ==> p == |n|
    ensures c != 0 ==> IsBasenameStart(n, p)
  {
    p := |n|;
    var k := c;
    while p != 0 && k != 0 && n[p - 1] != '/'
      invariant p <= |n| && k == c && (c == 0 ==> p == |n|)
      invariant forall i :: p <= i < |n| ==> n[i] != '/'
    {
      p := p - 1;
      if n[p] == '/' {
        k := k - 1;
      }
    }
  }

  /**
   * `genericsBasenameN` counting the slashes it passes: the last element and
   * the `c` before it, or the whole path when it has fewer.
   */
  method BasenameN(n: string, c: nat) returns (p: nat)
    ensures IsBasenameNStart(n, c, p)
  {
    p := |n|;
    var k: nat := c;
    assert n[p..] == [];
    while p != 0 && (k != 0 || n[p - 1] != '/')
      invariant p <= |n| && k <= c && Slashes(n[p..]) == c - k
    {
      assert n[p - 1..][..|n[p - 1..]| - 1] == n[p - 1..|n| - 1];
      SlashesFront(n[p - 1..]);
      assert n[p - 1..][1..] == n[p..];
      if n[p - 1] == '/' {
        k := k - 1;
      }
      p := p - 1;
    }
  }

  /** Counting slashes from the front gives the same answer. */
  lemma {:induction false} SlashesFront(s: string)
    requires s != []
    ensures Slashes(s) == (if s[0] == '/' then 1 else 0) + Slashes(s[1..])
    decreases |s|
  {
    if |s| > 1 {
      var t := s[..|s| - 1];
      SlashesFront(t);
      assert t[1..] == s[1..][..|s[1..]| - 1];
    } else {
      assert s[1..] == [];
    }
  }

  /** No slash is counted exactly when there is none. */
  lemma {:induction false} NoSlashes(s: string)
    ensures Slashes(s) == 0 <==> forall i :: 0 <= i < |s| ==> s[i] != '/'
    decreases |s|
  {
    if s != [] {
      var t := s[..|s| - 1];
      NoSlashes(t);
      assert forall i :: 0 <= i < |t| ==> t[i] == s[i];
    }
  }

  /** With no extra elements asked for, the corrected `genericsBasenameN` agrees with `genericsBasename`. */
  lemma BasenameNZero(n: string, p: nat)
    requires p <= |n|
    ensures IsBasenameNStart(n, 0, p) <==> IsBasenameStart(n, p)
  {
    NoSlashes(n[p..]);
    assert forall i :: p <= i < |n| ==> n[i] == n[p..][i - p];
  }

  /** "a/b" with one element more asked for: the code answers "b", the corrected reading "a/b". */
  lemma BasenameNExample(p: nat, q: nat)
    requires IsBasenameStart(['a', '/', 'b'], p) && IsBasenameNStart(['a', '/', 'b'], 1, q)
    ensures p == 2 && q == 0
  {
    var n := ['a', '/', 'b'];
    assert n[2..] == ['b'] && n[3..] == [];
    assert ['b'][..0] == [];
    assert Slashes(['b']) == 0 && Slashes(n[3..]) == 0;
  }

  // ---------------------------------------------------------------- report level

  /** `enum verbLevel`: V_ERROR to V_DEBUG, then V_MAX_VERBLEVEL. */
  const V_ERROR: int := 0
  const V_WARN: int := 1
  const V_MAX_VERBLEVEL: int := 4

  /** The stored report level, `lstore`. */
  class Reporting {
    var lstore: int

    constructor ()
      ensures lstore == V_WARN
    {
      lstore := V_WARN;
    }

    /** `genericsSetReportLevel`: the level is stored whatever it is; the answer says whether it was in range (V_MAX_VERBLEVEL included). */
    method SetReportLevel(lset: int) returns (ok: bool)
      modifies this
      ensures lstore == lset
      ensures ok <==> V_ERROR <= lset <= V_MAX_VERBLEVEL
    {
      lstore := lset;
      if lset < V_ERROR || lset > V_MAX_VERBLEVEL {
        return false;
      }
      return true;
    }

    /** `genericsGetReportLevel`. */
    function GetReportLevel(): (l: int)
      reads this
      ensures l == lstore
    {
      lstore
    }
  }
}
