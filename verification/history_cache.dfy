/**
 * Keeping rows between visits: `restore` (apps/web/src/live-events.ts) rebuilds the message map from rows
 * alone, and `recentHistory` (apps/web/src/history-cache.ts) trims them to the most recent ones first. Folded
 * rows are not sorted by id, since a message keeps its place and takes the id of its last snapshot.
 */
module HistoryCache {
  import opened Common
  import opened LiveFeed
  import LiveRows
  import opened LiveRun

  // ----- What restoring reads off the rows -----

  /** No turn starts between two rows. */
  ghost predicate Quiet(rows: seq<Event>, from: nat, to: nat)
    requires to <= |rows|
  {
    forall k :: from < k < to ==> !rows[k].starts
  }

  ghost predicate IsMessage(row: Event, item: string) {
    row.message.Some? && row.message.value.item == item
  }

  /** An item is restored at its last row, if no turn starts after that. */
  lemma {:induction false} RestoredIsQuiet(rows: seq<Event>, n: nat, item: string)
    requires n <= |rows| && item in RestoredMap(rows, n)
    ensures Quiet(rows, RestoredMap(rows, n)[item], n)
  {
    if RestoredMap(rows, n)[item] < n - 1 { RestoredIsQuiet(rows, n - 1, item); }
  }

  lemma {:induction false} QuietIsRestored(rows: seq<Event>, n: nat, q: nat, item: string)
    requires q < n <= |rows| && IsMessage(rows[q], item) && Quiet(rows, q, n)
    ensures item in RestoredMap(rows, n) && q <= RestoredMap(rows, n)[item]
  {
    if q < n - 1 { QuietIsRestored(rows, n - 1, q, item); }
  }

  // ----- The current turn -----

  /** The row at which the current turn begins. */
  ghost function TurnBase(log: seq<Event>, n: nat): nat
    requires n <= |log|
  {
    if n == 0 then 0
    else if log[n - 1].starts then |Fold(log[..n - 1]).rows|
    else TurnBase(log, n - 1)
  }

  /** The rows from b on are those of the current turn; the map holds exactly their messages. */
  ghost predicate TurnShape(rows: seq<Event>, b: nat, messages: map<string, nat>) {
    && b <= |rows| && Quiet(rows, b, |rows|)
    && (forall item :: item in messages ==> b <= messages[item] < |rows| && IsMessage(rows[messages[item]], item))
    && (forall q :: b <= q < |rows| && rows[q].message.Some? ==>
          rows[q].message.value.item in messages && messages[rows[q].message.value.item] == q)
  }

  /** Earlier turns have smaller ids than the current one, although rows are not sorted. */
  ghost predicate TurnsAscend(f: Feed, b: nat) {
    && b <= |f.rows|
    && (forall p :: 0 <= p < |f.rows| ==> f.rows[p].id <= f.cursor)
    && (forall p, q :: 0 <= p < b <= q < |f.rows| ==> f.rows[p].id < f.rows[q].id)
  }

  lemma StepKeepsShape(f: Feed, b: nat, e: Event)
    requires Valid(f) && TurnShape(f.rows, b, f.messages)
    ensures TurnShape(Step(f, e).rows, if e.starts then |f.rows| else b, Step(f, e).messages)
  {
  }

  lemma StepKeepsOrder(f: Feed, b: nat, e: Event)
    requires Valid(f) && TurnShape(f.rows, b, f.messages) && TurnsAscend(f, b) && f.cursor < e.id
    ensures TurnsAscend(Step(f, e), if e.starts then |f.rows| else b)
  {
  }

  lemma {:induction false} FoldShape(log: seq<Event>, n: nat)
    requires n <= |log|
    ensures TurnShape(Fold(log[..n]).rows, TurnBase(log, n), Fold(log[..n]).messages)
  {
    if n > 0 {
      FoldShape(log, n - 1);
      assert log[..n][..n - 1] == log[..n - 1];
      StepKeepsShape(Fold(log[..n - 1]), TurnBase(log, n - 1), log[n - 1]);
    }
  }

  lemma {:induction false} FoldNext(log: seq<Event>, n: nat)
    requires n < |log| && Fresh(0, log)
    ensures Fold(log[..n + 1]) == Step(Fold(log[..n]), log[n]) && Fold(log[..n]).cursor < log[n].id
  {
    assert log[..n + 1][..n] == log[..n];
    CursorOf(EMPTY, log[..n]);
    assert n > 0 ==> log[..n][n - 1] == log[n - 1];
  }

  lemma {:induction false} FoldAscends(log: seq<Event>, n: nat)
    requires n <= |log| && Fresh(0, log)
    ensures TurnsAscend(Fold(log[..n]), TurnBase(log, n))
  {
    if n > 0 {
      FoldAscends(log, n - 1);
      FoldShape(log, n - 1);
      FoldNext(log, n - 1);
      StepKeepsOrder(Fold(log[..n - 1]), TurnBase(log, n - 1), log[n - 1]);
    }
  }

  // ----- Restoring all rows -----

  /** The current turn's first row still starts a turn. */
  ghost predicate StartKept(rows: seq<Event>, b: nat) {
    b < |rows| && rows[b].starts
  }

  /** Restoring never loses an entry. */
  lemma RestoreKeepsEntries(rows: seq<Event>, b: nat, messages: map<string, nat>)
    requires TurnShape(rows, b, messages)
    ensures forall item :: item in messages ==>
              item in RestoredMap(rows, |rows|) && RestoredMap(rows, |rows|)[item] == messages[item]
  {
    forall item | item in messages
      ensures item in RestoredMap(rows, |rows|) && RestoredMap(rows, |rows|)[item] == messages[item]
    {
      QuietIsRestored(rows, |rows|, messages[item], item);
    }
  }

  /** Row q is a message of an earlier turn, not in the map, and no row starts a turn between it and row b. */
  ghost predicate Leak(rows: seq<Event>, b: nat, messages: map<string, nat>, q: nat)
    requires b <= |rows|
  {
    q < b && rows[q].message.Some? && rows[q].message.value.item !in messages && Quiet(rows, q, b)
  }

  ghost predicate Leaks(rows: seq<Event>, b: nat, messages: map<string, nat>)
    requires b <= |rows|
  {
    exists q: nat :: Leak(rows, b, messages, q)
  }

  /** It adds no entry either, unless the turn's first row is gone and an earlier message shows through. */
  lemma RestoreAddsNothing(rows: seq<Event>, b: nat, messages: map<string, nat>)
    requires TurnShape(rows, b, messages)
    ensures RestoredMap(rows, |rows|).Keys <= messages.Keys <==> StartKept(rows, b) || !Leaks(rows, b, messages)
  {
    var r := RestoredMap(rows, |rows|);
    if StartKept(rows, b) {
      forall item | item in r ensures item in messages {
        RestoredIsQuiet(rows, |rows|, item);
        assert r[item] >= b;
      }
    } else if Leaks(rows, b, messages) {
      var q: nat :| Leak(rows, b, messages, q);
      QuietIsRestored(rows, |rows|, q, rows[q].message.value.item);
    } else {
      forall item | item in r ensures item in messages {
        RestoredIsQuiet(rows, |rows|, item);
        assert !Leak(rows, b, messages, r[item]);
      }
    }
  }

  lemma SameMap(a: map<string, nat>, b: map<string, nat>)
    requires forall item :: item in b ==> item in a && a[item] == b[item]
    ensures a == b <==> a.Keys <= b.Keys
  {
    if a.Keys <= b.Keys {
      assert forall item :: item in a ==> item in b;
    }
  }

  // ----- The same, said of the log -----

  /** The current turn of the first n events starts at s. */
  ghost predicate TurnStartsAt(log: seq<Event>, n: nat, s: nat)
    requires n <= |log|
  {
    s < n && log[s].starts && forall k :: s < k < n ==> !log[k].starts
  }

  lemma {:induction false} BaseWithoutTurn(log: seq<Event>, n: nat)
    requires n <= |log| && forall k :: 0 <= k < n ==> !log[k].starts
    ensures TurnBase(log, n) == 0
  {
    if n > 0 { BaseWithoutTurn(log, n - 1); }
  }

  lemma {:induction false} LatestStart(log: seq<Event>, n: nat) returns (s: nat)
    requires n <= |log| && exists k :: 0 <= k < n && log[k].starts
    ensures TurnStartsAt(log, n, s)
  {
    if log[n - 1].starts { s := n - 1; } else { s := LatestStart(log, n - 1); }
  }

  /** The turn's first row is that of its start. */
  lemma {:induction false} BaseIsTheStart(log: seq<Event>, n: nat, s: nat)
    requires n <= |log| && TurnStartsAt(log, n, s)
    ensures TurnBase(log, n) < |LiveRows.Heads(log, n)| && LiveRows.Heads(log, n)[TurnBase(log, n)] == s
  {
    if s == n - 1 {
      LiveRows.FoldIsRows(log, s);
      if log[s].message.Some? { LiveRows.HeadIffUnknown(log, s, Fold(log[..s]).messages); }
    } else {
      BaseIsTheStart(log, n - 1, s);
    }
  }

  /** The current turn was started by an agent message that has been updated since. */
  ghost predicate StartRewritten(log: seq<Event>) {
    exists s: nat, j: nat :: s < j < |log| && TurnStartsAt(log, |log|, s) && LiveRows.SameMessage(log, s, j)
  }

  /** The row of a turn's start starts a turn unless a later snapshot has replaced it. */
  lemma {:induction false} RowStartsIff(log: seq<Event>, n: nat, s: nat, row: Event)
    requires n <= |log| && TurnStartsAt(log, n, s) && LiveRows.RowIs(log, n, s, row)
    ensures row.starts <==> forall j :: s < j < n ==> !LiveRows.SameMessage(log, s, j)
  {
    var j :| s <= j < n && LiveRows.Shows(log, n, s, j, row);
  }

  lemma {:induction false} StartKeptIff(log: seq<Event>, s: nat)
    requires TurnStartsAt(log, |log|, s)
    ensures TurnBase(log, |log|) < |Fold(log).rows|
    ensures StartKept(Fold(log).rows, TurnBase(log, |log|)) <==> !StartRewritten(log)
  {
    var n, b := |log|, TurnBase(log, |log|);
    assert log[..n] == log;
    LiveRows.FoldIsRows(log, n);
    BaseIsTheStart(log, n, s);
    assert LiveRows.RowIs(log, n, LiveRows.Heads(log, n)[b], Fold(log).rows[b]);
    RowStartsIff(log, n, s, Fold(log).rows[b]);
    OneStart(log, s);
  }

  lemma {:induction false} OneStart(log: seq<Event>, s: nat)
    requires TurnStartsAt(log, |log|, s)
    ensures StartRewritten(log) <==> exists j :: s < j < |log| && LiveRows.SameMessage(log, s, j)
  {
    if StartRewritten(log) {
      var t: nat, k: nat :| t < k < |log| && TurnStartsAt(log, |log|, t) && LiveRows.SameMessage(log, t, k);
      assert t == s;
    }
  }

  /**
   * Restoring the rows built by appending a log rebuilds append's message map unless the current turn was started by
   * an agent message updated since, and an earlier message that is not in the map follows the last row to start a turn.
   */
  lemma {:induction false} RestoreIffNothingLeaks(log: seq<Event>)
    ensures var f, b := Fold(log), TurnBase(log, |log|);
            b <= |f.rows| && (Restored(f.rows, f.cursor) == f <==> !(StartRewritten(log) && Leaks(f.rows, b, f.messages)))
  {
    assert log[..|log|] == log;
    var f, b := Fold(log), TurnBase(log, |log|);
    FoldShape(log, |log|);
    RestoreKeepsEntries(f.rows, b, f.messages);
    RestoreAddsNothing(f.rows, b, f.messages);
    SameMap(RestoredMap(f.rows, |f.rows|), f.messages);
    if exists k :: 0 <= k < |log| && log[k].starts {
      var s := LatestStart(log, |log|);
      StartKeptIff(log, s);
    } else {
      BaseWithoutTurn(log, |log|);
    }
  }

  /** A turn start carries no agent message, as the installation writes them. */
  ghost predicate Plain(log: seq<Event>) {
    forall i :: 0 <= i < |log| ==> !(log[i].starts && log[i].message.Some?)
  }

  /** So with plain turn starts, restoring is exact. */
  lemma RestoreIsExact(log: seq<Event>)
    requires Plain(log)
    ensures Restored(Fold(log).rows, Fold(log).cursor) == Fold(log)
  {
    assert log[..|log|] == log;
    RestoreIffNothingLeaks(log);
  }

  /**
   * The exception: a turn started by an agent message, once that message has a second snapshot, is restored wrongly.
   * The installation writes no such log.
   */
  lemma RestoreCanAdd(a: string, b: string)
    requires a != b
    ensures var log := [Event(1, 0, false, Some(Snapshot(a, "")), 0), Event(2, 0, true, Some(Snapshot(b, "")), 0),
                        Event(3, 0, false, Some(Snapshot(b, "!")), 0)];
            Restored(Fold(log).rows, Fold(log).cursor) != Fold(log)
  {
    var x, y, z := Event(1, 0, false, Some(Snapshot(a, "")), 0), Event(2, 0, true, Some(Snapshot(b, "")), 0),
                   Event(3, 0, false, Some(Snapshot(b, "!")), 0);
    assert [x, y, z][..2] == [x, y] && [x, y][..1] == [x] && [x][..0] == [];
    assert Fold([]) == EMPTY && Fold([x]) == Step(EMPTY, x) && Fold([x, y]) == Step(Fold([x]), y);
    assert Fold([x, y, z]) == Step(Fold([x, y]), z);
    assert Fold([x, y, z]).messages == map[b := 1] && Fold([x, y, z]).rows == [x, z];
    assert RestoredMap([x, z], 0) == map[] && RestoredMap([x, z], 1) == map[a := 0];
    assert a in RestoredMap([x, z], 2);
  }

  // ----- Trimming -----

  /** The rows whose id is at least `oldest`, in place. */
  function Kept(rows: seq<Event>, oldest: nat): seq<Event> {
    if rows == [] then []
    else Kept(rows[..|rows| - 1], oldest) + if rows[|rows| - 1].id >= oldest then [rows[|rows| - 1]] else []
  }

  /** How many rows before p are kept: where row p goes. */
  function Rank(rows: seq<Event>, oldest: nat, p: nat): nat
    requires p <= |rows|
  {
    if p == 0 then 0 else Rank(rows, oldest, p - 1) + if rows[p - 1].id >= oldest then 1 else 0
  }

  /** Which row ended up at place i. */
  ghost function Source(rows: seq<Event>, oldest: nat, n: nat, i: nat): (p: nat)
    requires n <= |rows| && i < Rank(rows, oldest, n)
    ensures p < n && rows[p].id >= oldest && Rank(rows, oldest, p) == i
  {
    if i < Rank(rows, oldest, n - 1) then Source(rows, oldest, n - 1, i) else n - 1
  }

  lemma {:induction false} RankGrows(rows: seq<Event>, oldest: nat, p: nat, n: nat)
    requires p <= n <= |rows|
    ensures Rank(rows, oldest, p) <= Rank(rows, oldest, n)
    ensures p < n && rows[p].id >= oldest ==> Rank(rows, oldest, p) < Rank(rows, oldest, n)
    decreases n
  {
    if p < n { RankGrows(rows, oldest, p, n - 1); }
  }

  lemma {:induction false} KeptAt(rows: seq<Event>, oldest: nat, n: nat)
    requires n <= |rows|
    ensures |Kept(rows[..n], oldest)| == Rank(rows, oldest, n)
    ensures forall p :: 0 <= p < n && rows[p].id >= oldest ==>
              Rank(rows, oldest, p) < Rank(rows, oldest, n) && Kept(rows[..n], oldest)[Rank(rows, oldest, p)] == rows[p]
  {
    if n > 0 {
      KeptAt(rows, oldest, n - 1);
      assert rows[..n][..n - 1] == rows[..n - 1];
    }
  }

  /** The message map restricted to the kept rows, at their new places. */
  ghost function Restricted(rows: seq<Event>, oldest: nat, messages: map<string, nat>): map<string, nat> {
    map item | item in messages && messages[item] < |rows| && rows[messages[item]].id >= oldest
      :: Rank(rows, oldest, messages[item])
  }

  /** Where place i of the kept rows comes from. */
  lemma KeptFrom(rows: seq<Event>, oldest: nat, i: nat) returns (p: nat)
    requires i < |Kept(rows, oldest)|
    ensures p < |rows| && rows[p].id >= oldest && Rank(rows, oldest, p) == i && Kept(rows, oldest)[i] == rows[p]
  {
    assert rows[..|rows|] == rows;
    KeptAt(rows, oldest, |rows|);
    p := Source(rows, oldest, |rows|, i);
  }

  lemma TrimmedTurn(f: Feed, b: nat, oldest: nat)
    requires TurnShape(f.rows, b, f.messages)
    ensures TurnShape(Kept(f.rows, oldest), Rank(f.rows, oldest, b), Restricted(f.rows, oldest, f.messages))
  {
    var rows, kept, c := f.rows, Kept(f.rows, oldest), Rank(f.rows, oldest, b);
    assert rows[..|rows|] == rows;
    KeptAt(rows, oldest, |rows|);
    RankGrows(rows, oldest, b, |rows|);
    forall i | c <= i < |kept|
      ensures i > c ==> !kept[i].starts
      ensures kept[i].message.Some? ==>
                kept[i].message.value.item in Restricted(rows, oldest, f.messages)
                && Restricted(rows, oldest, f.messages)[kept[i].message.value.item] == i
    {
      var p := KeptFrom(rows, oldest, i);
      if p < b { RankGrows(rows, oldest, p, b); }
    }
    forall item | item in Restricted(rows, oldest, f.messages)
      ensures c <= Restricted(rows, oldest, f.messages)[item] < |kept|
      ensures IsMessage(kept[Restricted(rows, oldest, f.messages)[item]], item)
    {
      RankGrows(rows, oldest, b, f.messages[item]);
    }
  }

  /** Restoring trimmed rows rebuilds exactly the restriction of append's map, on the same condition as before. */
  lemma {:induction false} TrimmedRestoreIffNothingLeaks(log: seq<Event>, oldest: nat)
    requires Fresh(0, log)
    ensures var f, b := Fold(log), TurnBase(log, |log|);
            b <= |f.rows| &&
            var kept, c, messages := Kept(f.rows, oldest), Rank(f.rows, oldest, b), Restricted(f.rows, oldest, f.messages);
            c <= |kept| &&
            (RestoredMap(kept, |kept|) == messages <==> !(StartRewritten(log) && Leaks(kept, c, messages)))
  {
    assert log[..|log|] == log;
    var f, b := Fold(log), TurnBase(log, |log|);
    FoldShape(log, |log|);
    TrimmedTurn(f, b, oldest);
    var kept, c, messages := Kept(f.rows, oldest), Rank(f.rows, oldest, b), Restricted(f.rows, oldest, f.messages);
    RestoreKeepsEntries(kept, c, messages);
    RestoreAddsNothing(kept, c, messages);
    SameMap(RestoredMap(kept, |kept|), messages);
    if c > 0 {
      FoldAscends(log, |log|);
      if forall k :: 0 <= k < |log| ==> !log[k].starts {
        BaseWithoutTurn(log, |log|);
      } else {
        var s := LatestStart(log, |log|);
        StartKeptIff(log, s);
        StartIsKeptToo(f, b, oldest);
      }
    }
  }

  /** If a row before the turn is kept, so is the turn's first row. */
  lemma {:induction false} StartIsKeptToo(f: Feed, b: nat, oldest: nat)
    requires TurnsAscend(f, b) && b < |f.rows| && Rank(f.rows, oldest, b) > 0
    ensures StartKept(Kept(f.rows, oldest), Rank(f.rows, oldest, b)) <==> StartKept(f.rows, b)
  {
    assert f.rows[..|f.rows|] == f.rows;
    var p := Source(f.rows, oldest, b, 0);
    assert f.rows[p].id < f.rows[b].id;
    KeptAt(f.rows, oldest, |f.rows|);
  }

  /** So with plain turn starts and increasing ids, restoring trimmed rows gives exactly the restriction. */
  lemma TrimmedRestoreIsRestriction(log: seq<Event>, oldest: nat)
    requires Fresh(0, log) && Plain(log)
    ensures var f := Fold(log);
            var kept := Kept(f.rows, oldest);
            RestoredMap(kept, |kept|) == Restricted(f.rows, oldest, f.messages)
  {
    assert log[..|log|] == log;
    TrimmedRestoreIffNothingLeaks(log, oldest);
  }

  /** A visit resumed from untrimmed cached rows goes on as if it had never ended. */
  lemma CachedVisitsResume(log: seq<Event>, k: nat)
    requires k <= |log| && Plain(log)
    ensures var cached := Fold(log[..k]); Extend(Restored(cached.rows, cached.cursor), log[k..]) == Fold(log)
  {
    RestoreIsExact(log[..k]);
    ExtendSplit(EMPTY, log[..k], log[k..]);
    assert log[..k] + log[k..] == log;
  }

  // ----- Choosing what to keep -----

  const MAX_ROWS := 200
  const BUDGET := 3 * 1024 * 1024

  /** Rows sorted by id, as `toSorted` gives them. */
  function Sorted(rows: seq<Event>): seq<Event> {
    if rows == [] then [] else Inserted(Sorted(rows[1..]), rows[0])
  }

  function Inserted(rows: seq<Event>, row: Event): seq<Event> {
    if rows == [] || row.id <= rows[0].id then [row] + rows else [rows[0]] + Inserted(rows[1..], row)
  }

  ghost predicate Ascending(rows: seq<Event>) {
    forall i, j :: 0 <= i < j < |rows| ==> rows[i].id <= rows[j].id
  }

  ghost predicate DistinctIds(rows: seq<Event>) {
    forall i, j :: 0 <= i < j < |rows| ==> rows[i].id != rows[j].id
  }

  lemma {:induction false} InsertedAscends(rows: seq<Event>, row: Event)
    requires Ascending(rows)
    ensures |Inserted(rows, row)| == |rows| + 1 && Ascending(Inserted(rows, row))
    ensures Inserted(rows, row)[0] == row || (rows != [] && Inserted(rows, row)[0] == rows[0])
  {
    if rows != [] && row.id > rows[0].id {
      InsertedAscends(rows[1..], row);
      PrependAscends(Inserted(rows[1..], row), rows[0]);
    }
  }

  lemma PrependAscends(rows: seq<Event>, row: Event)
    requires Ascending(rows) && (rows != [] ==> row.id <= rows[0].id)
    ensures Ascending([row] + rows)
  {
  }

  lemma {:induction false} InsertedPermutes(rows: seq<Event>, row: Event)
    ensures multiset(Inserted(rows, row)) == multiset(rows) + multiset{row}
  {
    if rows != [] && row.id > rows[0].id {
      InsertedPermutes(rows[1..], row);
      assert rows == [rows[0]] + rows[1..];
    }
  }

  lemma {:induction false} SortedSorts(rows: seq<Event>)
    ensures Ascending(Sorted(rows)) && multiset(Sorted(rows)) == multiset(rows) && |Sorted(rows)| == |rows|
  {
    if rows != [] {
      SortedSorts(rows[1..]);
      InsertedAscends(Sorted(rows[1..]), rows[0]);
      InsertedPermutes(Sorted(rows[1..]), rows[0]);
      assert rows == [rows[0]] + rows[1..];
    }
  }

  /** The serialised size of the rows from `start` on. */
  function SizeFrom(rows: seq<Event>, start: nat, size: Event -> nat): nat
    requires start <= |rows|
    decreases |rows| - start
  {
    if start == |rows| then 0 else size(rows[start]) + SizeFrom(rows, start + 1, size)
  }

  /** How often a row is kept. */
  lemma {:induction false} KeptCount(rows: seq<Event>, oldest: nat, row: Event)
    ensures multiset(Kept(rows, oldest))[row] == if row.id >= oldest then multiset(rows)[row] else 0
  {
    if rows != [] {
      var n := |rows| - 1;
      KeptCount(rows[..n], oldest, row);
      assert rows == rows[..n] + [rows[n]];
    }
  }

  lemma {:induction false} KeptAll(rows: seq<Event>, oldest: nat, n: nat)
    requires n <= |rows| && forall i :: 0 <= i < |rows| ==> (rows[i].id >= oldest <==> i >= n)
    ensures Kept(rows, oldest) == rows[n..]
    decreases |rows|
  {
    if rows != [] {
      var last := |rows| - 1;
      if n <= last {
        KeptAll(rows[..last], oldest, n);
        assert rows[n..] == rows[..last][n..] + [rows[last]];
      } else {
        KeptAll(rows[..last], oldest, last);
        assert rows[..last][last..] == [] && rows[n..] == [];
      }
    }
  }

  lemma KeptPermutes(a: seq<Event>, b: seq<Event>, oldest: nat)
    requires multiset(a) == multiset(b)
    ensures multiset(Kept(a, oldest)) == multiset(Kept(b, oldest))
  {
    forall row: Event ensures multiset(Kept(a, oldest))[row] == multiset(Kept(b, oldest))[row] {
      KeptCount(a, oldest, row);
      KeptCount(b, oldest, row);
    }
  }

  /** Filtering by the id at `start` keeps exactly the sorted rows from there on. */
  lemma KeptIsTheRest(rows: seq<Event>, start: nat)
    requires DistinctIds(rows) && start < |Sorted(rows)|
    ensures multiset(Kept(rows, Sorted(rows)[start].id)) == multiset(Sorted(rows)[start..])
  {
    SortedSorts(rows);
    SortedDistinct(rows);
    KeptPermutes(rows, Sorted(rows), Sorted(rows)[start].id);
    KeptSuffix(Sorted(rows), start);
  }

  lemma KeptSuffix(ordered: seq<Event>, start: nat)
    requires start < |ordered| && Ascending(ordered) && DistinctIds(ordered)
    ensures Kept(ordered, ordered[start].id) == ordered[start..]
  {
    KeptAll(ordered, ordered[start].id, start);
  }

  /** With an id no row reaches, nothing is kept. */
  lemma KeptNone(rows: seq<Event>, oldest: nat)
    requires forall i :: 0 <= i < |rows| ==> rows[i].id < oldest
    ensures Kept(rows, oldest) == []
  {
    KeptAll(rows, oldest, |rows|);
  }

  lemma {:induction false} SortedDistinct(rows: seq<Event>)
    requires DistinctIds(rows)
    ensures DistinctIds(Sorted(rows))
  {
    if rows != [] {
      var rest := Sorted(rows[1..]);
      SortedDistinct(rows[1..]);
      SortedSorts(rows[1..]);
      forall i | 0 <= i < |rest| ensures rest[i].id != rows[0].id {
        assert rest[i] in multiset(rest) && rest[i] in multiset(rows[1..]);
      }
      InsertedDistinct(rest, rows[0]);
    }
  }

  lemma {:induction false} InsertedDistinct(rows: seq<Event>, row: Event)
    requires DistinctIds(rows) && Ascending(rows) && forall i :: 0 <= i < |rows| ==> rows[i].id != row.id
    ensures DistinctIds(Inserted(rows, row))
  {
    if rows != [] && row.id > rows[0].id {
      InsertedDistinct(rows[1..], row);
      InsertedPermutes(rows[1..], row);
      var rest := Inserted(rows[1..], row);
      forall i | 0 <= i < |rest| ensures rest[i].id != rows[0].id {
        assert rest[i] in multiset(rest);
      }
    }
  }

  /** The budget loop: as many of the last rows as fit. */
  method Fitting(ordered: seq<Event>, fixed: nat, size: Event -> nat) returns (start: nat)
    ensures start <= |ordered| <= start + MAX_ROWS
    ensures start < |ordered| ==> fixed + SizeFrom(ordered, start, size) <= BUDGET
    ensures start > 0 ==>
              |ordered| == start + MAX_ROWS || fixed + size(ordered[start - 1]) + SizeFrom(ordered, start, size) > BUDGET
  {
    var total := fixed;
    start := |ordered|;
    while start > 0 && |ordered| - start < MAX_ROWS
      invariant start <= |ordered| <= start + MAX_ROWS
      invariant total == fixed + SizeFrom(ordered, start, size) && (start < |ordered| ==> total <= BUDGET)
    {
      var bytes := size(ordered[start - 1]);
      if total + bytes > BUDGET { break; }
      total := total + bytes;
      start := start - 1;
    }
  }

  function Oldest(ordered: seq<Event>, start: nat, cursor: nat): nat {
    if start < |ordered| then ordered[start].id else cursor + 1
  }

  lemma ChosenRows(rows: seq<Event>, start: nat, cursor: nat)
    requires DistinctIds(rows) && start <= |Sorted(rows)| && forall i :: 0 <= i < |rows| ==> rows[i].id <= cursor
    ensures multiset(Kept(rows, Oldest(Sorted(rows), start, cursor))) == multiset(Sorted(rows)[start..])
  {
    if start < |Sorted(rows)| {
      KeptIsTheRest(rows, start);
    } else {
      KeptNone(rows, cursor + 1);
      assert Sorted(rows)[start..] == [];
    }
  }

  /**
   * `recentHistory`: the most recent rows by id that fit the budget, in their places. At most 200 rows and
   * 3 MiB are kept, and one more row would break one of the two limits. `size` is the serialised size of a row
   * and `fixed` that of everything else.
   */
  method RecentHistory(rows: seq<Event>, cursor: nat, fixed: nat, size: Event -> nat)
    returns (kept: seq<Event>, oldest: Option<nat>, start: nat)
    requires DistinctIds(rows) && forall i :: 0 <= i < |rows| ==> rows[i].id <= cursor
    ensures start <= |Sorted(rows)| <= start + MAX_ROWS && multiset(kept) == multiset(Sorted(rows)[start..])
    ensures kept == if oldest.Some? then Kept(rows, oldest.value) else rows
    ensures oldest.None? <==> start == 0
    ensures start < |Sorted(rows)| ==> fixed + SizeFrom(Sorted(rows), start, size) <= BUDGET
    ensures start > 0 ==>
              || |Sorted(rows)| == start + MAX_ROWS
              || fixed + size(Sorted(rows)[start - 1]) + SizeFrom(Sorted(rows), start, size) > BUDGET
  {
    var ordered := Sorted(rows);
    start := Fitting(ordered, fixed, size);
    if start == 0 {
      SortedSorts(rows);
      assert ordered[0..] == ordered;
      return rows, None, start;
    }
    ChosenRows(rows, start, cursor);
    oldest := Some(Oldest(ordered, start, cursor));
    kept := Kept(rows, oldest.value);
  }

  lemma StepIdsDiffer(f: Feed, e: Event)
    requires Valid(f) && DistinctIds(f.rows) && f.cursor < e.id
    requires forall p :: 0 <= p < |f.rows| ==> f.rows[p].id <= f.cursor
    ensures DistinctIds(Step(f, e).rows)
    ensures forall p :: 0 <= p < |Step(f, e).rows| ==> Step(f, e).rows[p].id <= Step(f, e).cursor
  {
  }

  /** Rows built by appending a log have distinct ids up to the cursor, so they can be trimmed. */
  lemma {:induction false} FoldedIdsDiffer(log: seq<Event>, n: nat)
    requires n <= |log| && Fresh(0, log)
    ensures DistinctIds(Fold(log[..n]).rows)
    ensures forall p :: 0 <= p < |Fold(log[..n]).rows| ==> Fold(log[..n]).rows[p].id <= Fold(log[..n]).cursor
  {
    if n > 0 {
      FoldedIdsDiffer(log, n - 1);
      FoldNext(log, n - 1);
      StepIdsDiffer(Fold(log[..n - 1]), log[n - 1]);
    }
  }
}
