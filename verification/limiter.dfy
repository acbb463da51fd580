/**
 * The request limiter of the beacon (`consume_limit_on` of crates/beacon/src/lib.rs): one row per key counts the
 * requests of a window that starts with the first request after the last window's end.
 */
module Limiter {
  import opened Common

  datatype Row = Row(requests: nat, resetsAt: nat)

  /** One statement inserts or updates the row. */
  function Consume(row: Option<Row>, now: nat, maximum: nat, seconds: nat): Row {
    if row.None? || row.value.resetsAt <= now then Row(1, now + seconds)
    else Row(if row.value.requests + 1 < maximum + 1 then row.value.requests + 1 else maximum + 1, row.value.resetsAt)
  }

  predicate Admits(row: Row, maximum: nat) { row.requests <= maximum }

  /** The row after the first n requests, made at the given times. */
  function After(times: seq<nat>, n: nat, maximum: nat, seconds: nat): Option<Row>
    requires n <= |times|
  {
    if n == 0 then None else Some(Consume(After(times, n - 1, maximum, seconds), times[n - 1], maximum, seconds))
  }

  /** Whether request i is let through. */
  ghost predicate Admitted(times: seq<nat>, i: nat, maximum: nat, seconds: nat)
    requires i < |times|
  {
    Admits(After(times, i + 1, maximum, seconds).value, maximum)
  }

  /** How many of the requests from lo to hi are let through. */
  ghost function Count(times: seq<nat>, lo: nat, hi: nat, maximum: nat, seconds: nat): nat
    requires lo <= hi <= |times|
  {
    if lo == hi then 0
    else Count(times, lo, hi - 1, maximum, seconds) + if Admitted(times, hi - 1, maximum, seconds) then 1 else 0
  }

  ghost predicate InTime(times: seq<nat>) {
    forall i, j :: 0 <= i <= j < |times| ==> times[i] <= times[j]
  }

  /** The end of the window request i falls into. */
  ghost function Reset(times: seq<nat>, i: nat, maximum: nat, seconds: nat): nat
    requires i < |times|
  {
    After(times, i + 1, maximum, seconds).value.resetsAt
  }

  /** The counter never passes the maximum by more than one. */
  lemma {:induction false} CounterStaysBounded(times: seq<nat>, n: nat, maximum: nat, seconds: nat)
    requires 0 < n <= |times|
    ensures 1 <= After(times, n, maximum, seconds).value.requests <= maximum + 1
  {
    if n > 1 { CounterStaysBounded(times, n - 1, maximum, seconds); }
  }

  /** A request lies in its window: before its end, and less than its length after its start. */
  lemma {:induction false} InItsWindow(times: seq<nat>, i: nat, maximum: nat, seconds: nat)
    requires i < |times| && InTime(times) && seconds > 0
    ensures times[i] < Reset(times, i, maximum, seconds) <= times[i] + seconds
  {
    if i > 0 {
      assert times[i - 1] <= times[i];
      InItsWindow(times, i - 1, maximum, seconds);
    } else {
      assert After(times, 0, maximum, seconds).None?;
    }
  }

  /** Windows follow each other: a later one ends at least one length after the request that found it expired. */
  lemma {:induction false} WindowsFollow(times: seq<nat>, i: nat, j: nat, maximum: nat, seconds: nat)
    requires i <= j < |times| && InTime(times) && seconds > 0
    ensures var a, b := Reset(times, i, maximum, seconds), Reset(times, j, maximum, seconds); b == a || b >= a + seconds
    decreases j
  {
    if i < j { WindowsFollow(times, i, j - 1, maximum, seconds); }
  }

  /** Within a window, what is let through from some request on is what the counter still allowed there. */
  lemma {:induction false} WindowCount(times: seq<nat>, lo: nat, hi: nat, maximum: nat, seconds: nat)
    requires lo < hi <= |times| && InTime(times) && seconds > 0
    requires Reset(times, lo, maximum, seconds) == Reset(times, hi - 1, maximum, seconds)
    ensures Count(times, lo, hi, maximum, seconds) + After(times, lo + 1, maximum, seconds).value.requests <= maximum + 1
    ensures Count(times, lo, hi, maximum, seconds) + After(times, lo + 1, maximum, seconds).value.requests
            <= After(times, hi, maximum, seconds).value.requests + 1
    decreases hi
  {
    CounterStaysBounded(times, hi, maximum, seconds);
    if hi == lo + 1 {
      assert Count(times, lo, lo, maximum, seconds) == 0;
    } else {
      SameWindowBetween(times, lo, hi - 2, hi - 1, maximum, seconds);
      WindowCount(times, lo, hi - 1, maximum, seconds);
      InItsWindow(times, hi - 1, maximum, seconds);
      InItsWindow(times, hi - 2, maximum, seconds);
    }
  }

  lemma {:induction false} SameWindowBetween(times: seq<nat>, i: nat, k: nat, j: nat, maximum: nat, seconds: nat)
    requires i <= k <= j < |times| && InTime(times) && seconds > 0
    requires Reset(times, i, maximum, seconds) == Reset(times, j, maximum, seconds)
    ensures Reset(times, k, maximum, seconds) == Reset(times, i, maximum, seconds)
  {
    WindowsFollow(times, i, k, maximum, seconds);
    WindowsFollow(times, k, j, maximum, seconds);
  }

  lemma {:induction false} CountSplits(times: seq<nat>, lo: nat, m: nat, hi: nat, maximum: nat, seconds: nat)
    requires lo <= m <= hi <= |times|
    ensures Count(times, lo, hi, maximum, seconds) == Count(times, lo, m, maximum, seconds) + Count(times, m, hi, maximum, seconds)
    decreases hi
  {
    if m < hi { CountSplits(times, lo, m, hi - 1, maximum, seconds); }
  }

  /** Requests that lie within one length of time fall into at most two windows. */
  lemma {:induction false} AtMostTwoWindows(times: seq<nat>, lo: nat, hi: nat, maximum: nat, seconds: nat) returns (m: nat)
    requires lo < hi <= |times| && InTime(times) && seconds > 0 && times[hi - 1] < times[lo] + seconds
    ensures lo < m <= hi && Reset(times, m - 1, maximum, seconds) == Reset(times, lo, maximum, seconds)
    ensures m < hi ==> Reset(times, m, maximum, seconds) == Reset(times, hi - 1, maximum, seconds)
                       && Reset(times, m, maximum, seconds) != Reset(times, lo, maximum, seconds)
  {
    m := lo + 1;
    while m < hi && Reset(times, m, maximum, seconds) == Reset(times, lo, maximum, seconds)
      invariant lo < m <= hi && Reset(times, m - 1, maximum, seconds) == Reset(times, lo, maximum, seconds)
    {
      m := m + 1;
    }
    if m < hi {
      WindowsFollow(times, lo, m, maximum, seconds);
      WindowsFollow(times, m, hi - 1, maximum, seconds);
      InItsWindow(times, lo, maximum, seconds);
      InItsWindow(times, m, maximum, seconds);
      InItsWindow(times, hi - 1, maximum, seconds);
    }
  }

  /** The first request of the window that request i falls into: a window starts where the last one had ended. */
  ghost function FirstOf(times: seq<nat>, i: nat, seconds: nat): (first: nat)
    requires i < |times|
    ensures first <= i
  {
    if i == 0 || times[FirstOf(times, i - 1, seconds)] + seconds <= times[i] then i else FirstOf(times, i - 1, seconds)
  }

  /** A request is let through exactly if fewer than `maximum` requests of its window came before it. */
  lemma {:induction false} AdmittedIff(times: seq<nat>, i: nat, maximum: nat, seconds: nat)
    requires i < |times|
    ensures Reset(times, i, maximum, seconds) == times[FirstOf(times, i, seconds)] + seconds
    ensures Admitted(times, i, maximum, seconds) <==> i - FirstOf(times, i, seconds) < maximum
    ensures var n := i - FirstOf(times, i, seconds) + 1;
            After(times, i + 1, maximum, seconds).value.requests == if i == FirstOf(times, i, seconds) then 1
                                                                    else if n <= maximum then n else maximum + 1
  {
    if i > 0 {
      var m := i - 1;
      AdmittedIff(times, m, maximum, seconds);
      assert After(times, i, maximum, seconds) == After(times, m + 1, maximum, seconds);
    } else {
      assert After(times, 0, maximum, seconds).None?;
    }
  }

  /** At most `maximum` requests are let through per window. */
  lemma {:induction false} AtMostTheMaximumPerWindow(times: seq<nat>, lo: nat, hi: nat, maximum: nat, seconds: nat)
    requires lo < hi <= |times| && InTime(times) && seconds > 0
    requires Reset(times, lo, maximum, seconds) == Reset(times, hi - 1, maximum, seconds)
    ensures Count(times, lo, hi, maximum, seconds) <= maximum
  {
    WindowCount(times, lo, hi, maximum, seconds);
    CounterStaysBounded(times, lo + 1, maximum, seconds);
  }

  /** The first request of a window puts its end one length away. */
  lemma FirstOfItsWindow(times: seq<nat>, i: nat, maximum: nat, seconds: nat)
    requires i < |times| && InTime(times) && seconds > 0 && maximum > 0
    requires After(times, i + 1, maximum, seconds).value.requests == 1
    ensures Reset(times, i, maximum, seconds) == times[i] + seconds
  {
    if i > 0 { CounterStaysBounded(times, i, maximum, seconds); }
  }

  /**
   * For requests at non-decreasing times, fewer than twice `maximum` are let through in any interval of the window's
   * length: the request that started the earlier window is not among them.
   */
  lemma {:induction false} LessThanTwiceTheMaximum(times: seq<nat>, lo: nat, hi: nat, maximum: nat, seconds: nat)
    requires lo < hi <= |times| && InTime(times) && seconds > 0 && times[hi - 1] < times[lo] + seconds
    ensures Count(times, lo, hi, maximum, seconds) <= if maximum == 0 then 0 else 2 * maximum - 1
  {
    var m := AtMostTwoWindows(times, lo, hi, maximum, seconds);
    CountSplits(times, lo, m, hi, maximum, seconds);
    WindowCount(times, lo, m, maximum, seconds);
    CounterStaysBounded(times, lo + 1, maximum, seconds);
    if m < hi {
      AtMostTheMaximumPerWindow(times, m, hi, maximum, seconds);
      if maximum > 0 && After(times, lo + 1, maximum, seconds).value.requests == 1 {
        FirstOfItsWindow(times, lo, maximum, seconds);
        WindowsFollow(times, lo, m, maximum, seconds);
        LaterWindowsStartLater(times, lo, m, maximum, seconds);
        assert false;
      }
    }
  }

  /** A request of a later window comes no earlier than the end of the window before. */
  lemma {:induction false} LaterWindowsStartLater(times: seq<nat>, i: nat, j: nat, maximum: nat, seconds: nat)
    requires i <= j < |times| && InTime(times) && seconds > 0
    requires Reset(times, i, maximum, seconds) != Reset(times, j, maximum, seconds)
    ensures Reset(times, i, maximum, seconds) <= times[j]
    decreases j
  {
    if Reset(times, j - 1, maximum, seconds) != Reset(times, i, maximum, seconds) {
      LaterWindowsStartLater(times, i, j - 1, maximum, seconds);
      assert times[j - 1] <= times[j];
    }
  }

  /** The bound is met: one request late in a window of two, and two at the start of the next. */
  lemma {:induction false} BoundIsMet()
    ensures var times := [0, 59, 60, 61]; InTime(times) && times[3] < times[1] + 60 && Count(times, 1, 4, 2, 60) == 3
  {
    var times := [0, 59, 60, 61];
    assert After(times, 1, 2, 60) == Some(Row(1, 60)) && After(times, 2, 2, 60) == Some(Row(2, 60));
    assert After(times, 3, 2, 60) == Some(Row(1, 120)) && After(times, 4, 2, 60) == Some(Row(2, 120));
    assert Count(times, 1, 1, 2, 60) == 0 && Count(times, 1, 2, 2, 60) == 1 && Count(times, 1, 3, 2, 60) == 2;
  }

  /** Deleting the row of an expired window changes nothing. */
  lemma CleanupIsInvisible(row: Row, now: nat, maximum: nat, seconds: nat)
    requires row.resetsAt <= now
    ensures Consume(Some(row), now, maximum, seconds) == Consume(None, now, maximum, seconds)
  {
  }

  /** The table, as each request updates the row of its key. */
  class Limits {
    var rows: map<string, Row>

    constructor ()
      ensures rows == map[]
    {
      rows := map[];
    }

    method ConsumeLimit(key: string, now: nat, maximum: nat, seconds: nat) returns (admitted: bool)
      modifies this
      ensures var before := if key in old(rows) then Some(old(rows)[key]) else None;
              var row := Consume(before, now, maximum, seconds);
              rows == old(rows)[key := row] && admitted == Admits(row, maximum)
    {
      if key !in rows || rows[key].resetsAt <= now {
        rows := rows[key := Row(1, now + seconds)];
      } else {
        var requests := rows[key].requests + 1;
        if requests > maximum + 1 { requests := maximum + 1; }
        rows := rows[key := Row(requests, rows[key].resetsAt)];
      }
      admitted := rows[key].requests <= maximum;
    }
  }
}
