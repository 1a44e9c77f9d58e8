/**
 * The exception accounting of orbtop: a record per exception number, the
 * exception now current, and a depth counter.  Exception messages enter,
 * exit, or resume (unwind until a named exception is current again), and
 * each exit charges the time spent to the exception left and the time
 * stolen to the one that resumes.
 *
 * The chain of `prev` links may be overwritten by an enter while it is in
 * use, so it may become a cycle; what holds throughout is that the depth
 * never exceeds the number of links that can be followed from the current
 * exception, which is what makes the resume loop end.
 */
module OrbTop {

  /** `MAX_EXCEPTIONS` and `NO_EXCEPTION` of orbtop. */
  const MAX_EXCEPTIONS: nat := 512
  const NO_EXCEPTION: nat := 0xFFFF_FFFF

  /** `enum ExceptionEvents`. */
  const EXEVENT_ENTER: nat := 1
  const EXEVENT_EXIT: nat := 2
  const EXEVENT_RESUME: nat := 3

  /** orbtop's `struct exceptionRecord`; an entry time of 0 means the exception is not live. */
  datatype Rec = Rec(visits: nat, totalTime: int, minTime: int, maxTime: int, maxWallTime: int, maxDepth: nat,
                     entryTime: int, thisTime: int, stealTime: int, prev: nat)

  /** An exception number that can be followed: none, or a record index. */
  predicate Link(e: nat)
  {
    e == NO_EXCEPTION || e < MAX_EXCEPTIONS
  }

  /** At least `k` links can be followed from `x` (cycles allowed). */
  predicate Deep(s: seq<Rec>, x: nat, k: nat)
    decreases k
  {
    k == 0 || (x < |s| && Deep(s, s[x].prev, k - 1))
  }

  /** The first `k` links from `x` do not pass through `n`. */
  predicate Avoids(s: seq<Rec>, x: nat, k: nat, n: nat)
    decreases k
  {
    k == 0 || (x != n && x < |s| && Avoids(s, s[x].prev, k - 1, n))
  }

  /** `t` has the links of `s` except perhaps at `n`. */
  predicate Agree(s: seq<Rec>, t: seq<Rec>, n: nat)
  {
    |s| == |t| && forall i :: 0 <= i < |s| && i != n ==> t[i].prev == s[i].prev
  }

  /** A walk that misses the changed link is the same walk afterwards. */
  lemma {:induction false} DeepAvoiding(s: seq<Rec>, t: seq<Rec>, n: nat, x: nat, k: nat)
    requires Agree(s, t, n) && Deep(s, x, k) && Avoids(s, x, k, n)
    ensures Deep(t, x, k)
    decreases k
  {
    if k > 0 {
      DeepAvoiding(s, t, n, s[x].prev, k - 1);
    }
  }

  /** Walks depend on the links alone. */
  lemma {:induction false} DeepSame(s: seq<Rec>, t: seq<Rec>, x: nat, k: nat)
    requires |s| == |t| && (forall i :: 0 <= i < |s| ==> t[i].prev == s[i].prev) && Deep(s, x, k)
    ensures Deep(t, x, k)
    decreases k
  {
    if k > 0 {
      DeepSame(s, t, s[x].prev, k - 1);
    }
  }

  /** A walk from `x` that reaches `n`, whose link now leads to `c`, goes on as far as the walks from `c` do. */
  lemma {:induction false} DeepThrough(s: seq<Rec>, t: seq<Rec>, n: nat, c: nat, x: nat, k: nat, K: nat)
    requires Agree(s, t, n) && n < |t| && t[n].prev == c
    requires Deep(s, x, k) && !Avoids(s, x, k, n)
    requires forall K': nat :: K' < K ==> Deep(t, c, K')
    ensures Deep(t, x, K)
    decreases k
  {
    if K > 0 && x != n {
      DeepThrough(s, t, n, c, s[x].prev, k - 1, K - 1);
    }
  }

  /** Once the walk from `c` runs into `n` and `n` leads back to `c`, there is a cycle and walks from `c` never end. */
  lemma {:induction false} DeepCycle(s: seq<Rec>, t: seq<Rec>, n: nat, c: nat, d: nat, K: nat)
    requires Agree(s, t, n) && n < |t| && t[n].prev == c
    requires Deep(s, c, d) && !Avoids(s, c, d, n)
    ensures Deep(t, c, K)
    decreases K
  {
    forall K': nat | K' < K
      ensures Deep(t, c, K')
    {
      DeepCycle(s, t, n, c, d, K');
    }
    DeepThrough(s, t, n, c, c, d, K);
  }

  /** Entering `n` from `c`: the walk from `n` is one longer than the one from `c` was. */
  lemma EnterDeepens(s: seq<Rec>, t: seq<Rec>, n: nat, c: nat, d: nat)
    requires Agree(s, t, n) && n < |t| && t[n].prev == c && Deep(s, c, d)
    ensures Deep(t, n, d + 1)
  {
    if Avoids(s, c, d, n) {
      DeepAvoiding(s, t, n, c, d);
    } else {
      DeepCycle(s, t, n, c, d, d);
    }
  }

  /**
   * The record of the exception being left at `ts` (`_exitEx`): the time
   * since it was last (re)entered is added to this visit, the visit counted
   * and totalled, the entry time cleared, and the minimum (0 meaning none),
   * maxima and deepest nesting brought up to date.
   */
  function Left(r: Rec, ts: int, depth: nat): (r': Rec)
    ensures r'.thisTime == r.thisTime + (ts - r.entryTime)
    ensures r'.visits == r.visits + 1 && r'.totalTime == r.totalTime + r'.thisTime && r'.entryTime == 0
    ensures r'.minTime <= r'.thisTime && (r.minTime != 0 ==> r'.minTime <= r.minTime)
    ensures r'.minTime == r.minTime || r'.minTime == r'.thisTime
    ensures r'.maxTime >= r.maxTime && r'.maxTime >= r'.thisTime && (r'.maxTime == r.maxTime || r'.maxTime == r'.thisTime)
    ensures r'.maxWallTime >= r.maxWallTime && r'.maxWallTime >= r'.thisTime + r.stealTime
    ensures r'.maxDepth >= r.maxDepth && r'.maxDepth >= depth
    ensures r'.prev == r.prev && r'.stealTime == r.stealTime
  {
    var thisTime := r.thisTime + (ts - r.entryTime);
    var walltime := thisTime + r.stealTime;
    r.(thisTime := thisTime, visits := r.visits + 1, totalTime := r.totalTime + thisTime, entryTime := 0,
       minTime := if r.minTime == 0 || thisTime < r.minTime then thisTime else r.minTime,
       maxTime := if thisTime > r.maxTime then thisTime else r.maxTime,
       maxWallTime := if walltime > r.maxWallTime then walltime else r.maxWallTime,
       maxDepth := if depth > r.maxDepth then depth else r.maxDepth)
  }

  /**
   * `_exitEx` on the records `s` with `cur` current at depth `depth`: the
   * records, the new current exception and the new depth.  Nothing happens
   * with no exception current; otherwise the current one is left, its
   * `prev` becomes current with depth one less (never below 0), and that
   * one restarts its clock at `ts` and is charged the time stolen from it.
   */
  function ExitSpec(s: seq<Rec>, cur: nat, depth: nat, ts: int): (res: (seq<Rec>, nat, nat))
    requires |s| == MAX_EXCEPTIONS && Link(cur)
    ensures |res.0| == |s| && forall i :: 0 <= i < |s| ==> res.0[i].prev == s[i].prev
    ensures cur == NO_EXCEPTION ==> res.0 == s && res.1 == cur && res.2 == depth
    ensures cur != NO_EXCEPTION ==> res.1 == s[cur].prev && res.2 == (if depth > 0 then depth - 1 else 0)
    ensures cur != NO_EXCEPTION ==> res.0[cur].visits == s[cur].visits + 1
    ensures forall i :: 0 <= i < |s| && i != cur && i != res.1 ==> res.0[i] == s[i]
  {
    if cur == NO_EXCEPTION then (s, cur, depth)
    else
      var r := s[cur];
      var left := s[cur := Left(r, ts, depth)];
      var p := r.prev;
      var d := if depth > 0 then depth - 1 else 0;
      if p == NO_EXCEPTION || p >= |s| then (left, p, d)
      else (left[p := left[p].(entryTime := ts, stealTime := left[p].stealTime + (ts - r.entryTime) + r.stealTime)], p, d)
  }

  /** Leaving keeps the depth within the links that can be followed from the current exception. */
  lemma ExitKeepsDepth(s: seq<Rec>, cur: nat, depth: nat, ts: int)
    requires |s| == MAX_EXCEPTIONS && Link(cur) && Deep(s, cur, depth)
    ensures var res := ExitSpec(s, cur, depth, ts); Deep(res.0, res.1, res.2)
  {
    var res := ExitSpec(s, cur, depth, ts);
    if cur != NO_EXCEPTION && depth > 0 {
      DeepSame(s, res.0, res.1, depth - 1);
    }
  }

  /** No exception current means no depth. */
  lemma NoneIsShallow(s: seq<Rec>, depth: nat)
    requires |s| == MAX_EXCEPTIONS && Deep(s, NO_EXCEPTION, depth)
    ensures depth == 0
  {
  }

  /** Every link of the records leads to a record or to none. */
  predicate LinksOk(s: seq<Rec>)
  {
    forall i :: 0 <= i < |s| ==> Link(s[i].prev)
  }

  /**
   * The unwinding of a resume to `target`: `_exitEx` repeated, each exit
   * charging its exception and the one it returns to, until `target` is
   * current or the depth is 0.
   */
  function Unwind(s: seq<Rec>, cur: nat, depth: nat, target: nat, ts: int): (res: (seq<Rec>, nat, nat))
    requires |s| == MAX_EXCEPTIONS && Link(cur) && LinksOk(s) && Deep(s, cur, depth)
    ensures |res.0| == MAX_EXCEPTIONS && Link(res.1) && LinksOk(res.0) && Deep(res.0, res.1, res.2)
    ensures res.1 == target || res.2 == 0
    ensures res.2 <= depth
    ensures cur == target || depth == 0 ==> res == (s, cur, depth)
    decreases depth
  {
    if cur == target || depth == 0 then (s, cur, depth)
    else
      var next := ExitSpec(s, cur, depth, ts);
      ExitKeepsDepth(s, cur, depth, ts);
      Unwind(next.0, next.1, next.2, target, ts)
  }

  /** A resume unwinds one level at a time: the first exit leaves the caller current, one level shallower. */
  lemma UnwindStep(s: seq<Rec>, cur: nat, depth: nat, target: nat, ts: int)
    requires |s| == MAX_EXCEPTIONS && Link(cur) && LinksOk(s) && Deep(s, cur, depth)
    requires cur != target && depth > 0
    ensures var next := ExitSpec(s, cur, depth, ts);
            && cur != NO_EXCEPTION && next.1 == s[cur].prev && next.2 == depth - 1
            && next.0[cur].visits == s[cur].visits + 1
            && Deep(next.0, next.1, next.2)
  {
    ExitKeepsDepth(s, cur, depth, ts);
  }

  /** orbtop's exception state within `_r`. */
  class Top {
    const er: array<Rec>
    var currentException: nat
    var erDepth: nat
    var timeStamp: int

    /** One record per exception, links that lead to a record or to none, and a depth the links can carry. */
    ghost predicate Valid()
      reads this, er
    {
      && er.Length == MAX_EXCEPTIONS && Link(currentException)
      && (forall i :: 0 <= i < MAX_EXCEPTIONS ==> Link(er[i].prev))
      && Deep(er[..], currentException, erDepth)
    }

    /** The records start zeroed (static storage) with nothing current. */
    constructor ()
      ensures Valid() && fresh(er) && currentException == NO_EXCEPTION && erDepth == 0 && timeStamp == 0
      ensures forall i :: 0 <= i < MAX_EXCEPTIONS ==> er[i] == Rec(0, 0, 0, 0, 0, 0, 0, 0, 0, 0)
    {
      er := new Rec[MAX_EXCEPTIONS](_ => Rec(0, 0, 0, 0, 0, 0, 0, 0, 0, 0));
      currentException, erDepth, timeStamp := NO_EXCEPTION, 0, 0;
    }

    /** `_exitEx`. */
    method ExitEx(ts: int)
      requires Valid()
      modifies this, er
      ensures Valid() && timeStamp == old(timeStamp)
      ensures var res := ExitSpec(old(er[..]), old(currentException), old(erDepth), ts);
              er[..] == res.0 && currentException == res.1 && erDepth == res.2
    {
      ghost var res := ExitSpec(er[..], currentException, erDepth, ts);
      ExitKeepsDepth(er[..], currentException, erDepth, ts);
      if currentException == NO_EXCEPTION {
        return;
      }
      var r := er[currentException];
      er[currentException] := Left(r, ts, erDepth);
      currentException := r.prev;
      if erDepth > 0 {
        erDepth := erDepth - 1;
      }
      if currentException != NO_EXCEPTION {
        er[currentException] := er[currentException].(entryTime := ts,
                                                      stealTime := er[currentException].stealTime + (ts - r.entryTime) + r.stealTime);
      }
    }

    /**
     * `_handleException` for a message naming an exception below
     * `MAX_EXCEPTIONS` (the source asserts it): enter, exit one level,
     * resume (unwind until that exception is current or the depth is 0),
     * or ignore an unknown event.
     */
    method HandleException(exceptionNumber: nat, eventType: nat)
      requires Valid() && exceptionNumber < MAX_EXCEPTIONS
      modifies this, er
      ensures Valid() && timeStamp == old(timeStamp)
      ensures eventType == EXEVENT_ENTER && old(er[exceptionNumber].entryTime) != 0 ==>
                er[..] == old(er[..]) && currentException == old(currentException) && erDepth == old(erDepth)
      ensures eventType == EXEVENT_ENTER && old(er[exceptionNumber].entryTime) == 0 ==>
                var c := old(currentException);
                var s1 := if c == NO_EXCEPTION then old(er[..])
                          else old(er[..])[c := old(er[c]).(thisTime := old(er[c]).thisTime + (timeStamp - old(er[c]).entryTime))];
                && er[..] == s1[exceptionNumber := s1[exceptionNumber].(prev := c, entryTime := timeStamp, thisTime := 0, stealTime := 0)]
                && currentException == exceptionNumber && erDepth == old(erDepth) + 1
      ensures eventType == EXEVENT_EXIT ==>
                var res := ExitSpec(old(er[..]), old(currentException), old(erDepth), timeStamp);
                er[..] == res.0 && currentException == res.1 && erDepth == res.2
      ensures eventType == EXEVENT_RESUME ==>
                var res := Unwind(old(er[..]), old(currentException), old(erDepth), exceptionNumber, timeStamp);
                er[..] == res.0 && currentException == res.1 && erDepth == res.2
      ensures eventType == EXEVENT_RESUME ==> currentException == exceptionNumber || erDepth == 0
      ensures eventType == EXEVENT_RESUME ==> erDepth <= old(erDepth)
      ensures eventType !in {EXEVENT_ENTER, EXEVENT_EXIT, EXEVENT_RESUME} ==>
                er[..] == old(er[..]) && currentException == old(currentException) && erDepth == old(erDepth)
    {
      if eventType == EXEVENT_ENTER {
        if er[exceptionNumber].entryTime != 0 {
          return;
        }
        ghost var s := er[..];
        var c := currentException;
        if c != NO_EXCEPTION {
          er[c] := er[c].(thisTime := er[c].thisTime + (timeStamp - er[c].entryTime));
        }
        er[exceptionNumber] := er[exceptionNumber].(prev := c, entryTime := timeStamp, thisTime := 0, stealTime := 0);
        EnterDeepens(s, er[..], exceptionNumber, c, erDepth);
        currentException := exceptionNumber;
        erDepth := erDepth + 1;
      } else if eventType == EXEVENT_RESUME {
        while currentException != exceptionNumber && erDepth > 0
          invariant Valid() && timeStamp == old(timeStamp) && erDepth <= old(erDepth)
          invariant Unwind(er[..], currentException, erDepth, exceptionNumber, timeStamp)
                    == Unwind(old(er[..]), old(currentException), old(erDepth), exceptionNumber, timeStamp)
          decreases erDepth
        {
          UnwindStep(er[..], currentException, erDepth, exceptionNumber, timeStamp);
          ExitEx(timeStamp);
        }
      } else if eventType == EXEVENT_EXIT {
        ExitEx(timeStamp);
      }
    }

    /**
     * The end of a reporting interval: every record's statistics are
     * cleared, and after an ITM overflow the depth can no longer be trusted
     * and restarts at 0.
     */
    method EndInterval(overflowed: bool)
      requires Valid()
      modifies this, er
      ensures Valid() && timeStamp == old(timeStamp) && currentException == old(currentException)
      ensures forall i :: 0 <= i < MAX_EXCEPTIONS ==> er[i] == Cleared(old(er[i]))
      ensures erDepth == if overflowed then 0 else old(erDepth)
    {
      ghost var s := er[..];
      for e := 0 to MAX_EXCEPTIONS
        invariant forall i :: 0 <= i < e ==> er[i] == Cleared(s[i])
        invariant forall i :: e <= i < MAX_EXCEPTIONS ==> er[i] == s[i]
        invariant timeStamp == old(timeStamp) && currentException == old(currentException) && erDepth == old(erDepth)
      {
        er[e] := Cleared(er[e]);
      }
      DeepSame(s, er[..], currentException, erDepth);
      if overflowed {
        erDepth := 0;
      }
    }
  }

  /** The interval statistics of a record cleared for the next reporting interval; its live state is kept. */
  function Cleared(r: Rec): (r': Rec)
    ensures r'.visits == 0 && r'.maxDepth == 0 && r'.totalTime == 0 && r'.minTime == 0 && r'.maxTime == 0 && r'.maxWallTime == 0
    ensures r'.entryTime == r.entryTime && r'.thisTime == r.thisTime && r'.stealTime == r.stealTime && r'.prev == r.prev
  {
    r.(visits := 0, maxDepth := 0, totalTime := 0, minTime := 0, maxTime := 0, maxWallTime := 0)
  }

  /** An enter and then an exit at the same time stamp make the interrupted exception current again. */
  lemma EnterThenExit(s: seq<Rec>, c: nat, n: nat, depth: nat, ts: int)
    requires |s| == MAX_EXCEPTIONS && Link(c) && n < MAX_EXCEPTIONS
    ensures var t := s[n := s[n].(prev := c, entryTime := ts, thisTime := 0, stealTime := 0)];
            var res := ExitSpec(t, n, depth + 1, ts);
            res.1 == c && res.2 == depth && res.0[n].thisTime == 0 && res.0[n].visits == s[n].visits + 1
  {
  }
}
