/**
 * What the rows of a log should be, said without folding: one row per event that is not an agent message and
 * per message and turn, in the order of first appearance, showing the last snapshot under the first one's time.
 */
module LiveRows {
  import opened Common
  import opened LiveFeed

  /** How many turns have started among the first n events. */
  ghost function Turns(log: seq<Event>, n: nat): nat
    requires n <= |log|
  {
    if n == 0 then 0 else Turns(log, n - 1) + if log[n - 1].starts then 1 else 0
  }

  ghost predicate SameMessage(log: seq<Event>, i: nat, j: nat)
    requires i < |log| && j < |log|
  {
    && log[i].message.Some? && log[j].message.Some? && log[i].message.value.item == log[j].message.value.item
    && Turns(log, i + 1) == Turns(log, j + 1)
  }

  /** The event opens a row of its own. */
  ghost predicate IsHead(log: seq<Event>, i: nat)
    requires i < |log|
  {
    forall j :: 0 <= j < i ==> !SameMessage(log, j, i)
  }

  ghost function Heads(log: seq<Event>, n: nat): (heads: seq<nat>)
    requires n <= |log|
    ensures forall p :: 0 <= p < |heads| ==> heads[p] < n && IsHead(log, heads[p])
  {
    if n == 0 then [] else Heads(log, n - 1) + if IsHead(log, n - 1) then [n - 1] else []
  }

  /** The row of a head shows snapshot j: the head itself or a later snapshot of its message, and the last one. */
  ghost predicate Shows(log: seq<Event>, n: nat, head: nat, j: nat, row: Event)
    requires head < n <= |log| && j < n
  {
    && head <= j && (head < j ==> SameMessage(log, head, j))
    && (forall k :: j < k < n ==> !SameMessage(log, head, k))
    && row == log[j].(createdAt := log[head].createdAt)
  }

  ghost predicate RowIs(log: seq<Event>, n: nat, head: nat, row: Event)
    requires head < n <= |log|
  {
    exists j :: head <= j < n && Shows(log, n, head, j, row)
  }

  /** The rows are exactly the rows of the first n events. */
  ghost predicate RowsOf(log: seq<Event>, n: nat, rows: seq<Event>)
    requires n <= |log|
  {
    && |rows| == |Heads(log, n)|
    && forall p :: 0 <= p < |rows| ==> RowIs(log, n, Heads(log, n)[p], rows[p])
  }

  /** The message map holds the messages of the current turn, each at the row of its head. */
  ghost predicate MapOf(log: seq<Event>, n: nat, messages: map<string, nat>)
    requires n <= |log|
  {
    && (forall item :: item in messages ==>
         messages[item] < |Heads(log, n)| && Opens(log, n, Heads(log, n)[messages[item]], item))
    && (forall j :: 0 <= j < n && log[j].message.Some? && Turns(log, j + 1) == Turns(log, n) ==>
          log[j].message.value.item in messages)
  }

  ghost predicate Opens(log: seq<Event>, n: nat, head: nat, item: string)
    requires head < n <= |log|
  {
    log[head].message.Some? && log[head].message.value.item == item && Turns(log, head + 1) == Turns(log, n)
  }

  lemma {:induction false} TurnsGrow(log: seq<Event>, i: nat, n: nat)
    requires i <= n <= |log|
    ensures Turns(log, i) <= Turns(log, n)
    decreases n
  {
    if i < n { TurnsGrow(log, i, n - 1); }
  }

  /** A message event is a head exactly when its item is not in the map of its turn. */
  lemma HeadIffUnknown(log: seq<Event>, n: nat, messages: map<string, nat>)
    requires n < |log| && MapOf(log, n, messages) && log[n].message.Some?
    ensures IsHead(log, n) <==> log[n].starts || log[n].message.value.item !in messages
  {
    var item := log[n].message.value.item;
    if log[n].starts {
      forall j | 0 <= j < n ensures !SameMessage(log, j, n) { TurnsGrow(log, j + 1, n); }
    } else if item in messages {
      assert SameMessage(log, Heads(log, n)[messages[item]], n);
    }
  }

  /** A new head leaves the other rows alone. */
  lemma HeadsAddARow(log: seq<Event>, n: nat, rows: seq<Event>)
    requires n < |log| && RowsOf(log, n, rows) && IsHead(log, n)
    ensures RowsOf(log, n + 1, rows + [log[n]])
  {
    var rows' := rows + [log[n]];
    forall p | 0 <= p < |rows'| ensures RowIs(log, n + 1, Heads(log, n + 1)[p], rows'[p]) {
      if p < |rows| {
        RowStays(log, n, Heads(log, n)[p], rows[p]);
      } else {
        assert Shows(log, n + 1, n, n, log[n]);
      }
    }
  }

  lemma {:induction false} HeadsIncrease(log: seq<Event>, n: nat, p: nat, q: nat)
    requires n <= |log| && p < q < |Heads(log, n)|
    ensures Heads(log, n)[p] < Heads(log, n)[q]
  {
    if q < |Heads(log, n - 1)| { HeadsIncrease(log, n - 1, p, q); }
  }

  /** Two heads never open the same message. */
  lemma OneHeadPerMessage(log: seq<Event>, n: nat, p: nat, q: nat, k: nat)
    requires n <= |log| && p < |Heads(log, n)| && q < |Heads(log, n)| && p != q && k < |log|
    requires SameMessage(log, Heads(log, n)[p], k)
    ensures !SameMessage(log, Heads(log, n)[q], k)
  {
    var a, b := Heads(log, n)[p], Heads(log, n)[q];
    if p < q { HeadsIncrease(log, n, p, q); } else { HeadsIncrease(log, n, q, p); }
    assert IsHead(log, a) && IsHead(log, b);
    assert !(if a < b then SameMessage(log, a, b) else SameMessage(log, b, a));
  }

  /** A further snapshot changes the row of its head and no other. */
  lemma SnapshotsUpdateTheirRow(log: seq<Event>, n: nat, rows: seq<Event>, p: nat)
    requires n < |log| && RowsOf(log, n, rows) && p < |rows| && SameMessage(log, Heads(log, n)[p], n)
    ensures RowsOf(log, n + 1, rows[p := log[n].(createdAt := rows[p].createdAt)])
  {
    var rows' := rows[p := log[n].(createdAt := rows[p].createdAt)];
    assert !IsHead(log, n);
    assert Heads(log, n + 1) == Heads(log, n);
    forall q | 0 <= q < |rows'| ensures RowIs(log, n + 1, Heads(log, n)[q], rows'[q]) {
      assert RowIs(log, n, Heads(log, n)[q], rows[q]);
      if q == p {
        RowMovesOn(log, n, Heads(log, n)[q], rows[q]);
      } else {
        OneHeadPerMessage(log, n, p, q, n);
        RowStays(log, n, Heads(log, n)[q], rows[q]);
      }
    }
  }

  lemma RowStays(log: seq<Event>, n: nat, head: nat, row: Event)
    requires head < n < |log| && RowIs(log, n, head, row) && !SameMessage(log, head, n)
    ensures RowIs(log, n + 1, head, row)
  {
    var j :| head <= j < n && Shows(log, n, head, j, row);
    assert Shows(log, n + 1, head, j, row);
  }

  lemma RowMovesOn(log: seq<Event>, n: nat, head: nat, row: Event)
    requires head < n < |log| && RowIs(log, n, head, row) && SameMessage(log, head, n)
    ensures RowIs(log, n + 1, head, log[n].(createdAt := row.createdAt))
  {
    assert Shows(log, n + 1, head, n, log[n].(createdAt := row.createdAt));
  }

  lemma MapAdvances(log: seq<Event>, n: nat, f: Feed)
    requires n < |log| && Valid(f) && RowsOf(log, n, f.rows) && MapOf(log, n, f.messages)
    ensures MapOf(log, n + 1, Step(f, log[n]).messages)
  {
    var e := log[n];
    if e.message.Some? { HeadIffUnknown(log, n, f.messages); }
    forall j | 0 <= j < n + 1 && log[j].message.Some? && Turns(log, j + 1) == Turns(log, n + 1)
      ensures log[j].message.value.item in Step(f, e).messages
    {
      TurnsGrow(log, j + 1, n + 1);
      if j < n { TurnsGrow(log, j + 1, n); }
    }
  }

  lemma RowsAdvance(log: seq<Event>, n: nat, f: Feed)
    requires n < |log| && Valid(f) && RowsOf(log, n, f.rows) && MapOf(log, n, f.messages)
    ensures RowsOf(log, n + 1, Step(f, log[n]).rows)
  {
    var e := log[n];
    if e.message.None? {
      HeadsAddARow(log, n, f.rows);
    } else {
      HeadIffUnknown(log, n, f.messages);
      if IsHead(log, n) {
        HeadsAddARow(log, n, f.rows);
      } else {
        SnapshotsUpdateTheirRow(log, n, f.rows, f.messages[e.message.value.item]);
      }
    }
  }

  /** The fold computes exactly the rows of the log. */
  lemma {:induction false} FoldIsRows(log: seq<Event>, n: nat)
    requires n <= |log|
    ensures RowsOf(log, n, Fold(log[..n]).rows) && MapOf(log, n, Fold(log[..n]).messages)
  {
    if n > 0 {
      FoldIsRows(log, n - 1);
      assert log[..n][..n - 1] == log[..n - 1];
      RowsAdvance(log, n - 1, Fold(log[..n - 1]));
      MapAdvances(log, n - 1, Fold(log[..n - 1]));
    }
  }

  /** There is only one such list, so this says everything about the rows. */
  lemma RowsAreDetermined(log: seq<Event>, n: nat, a: seq<Event>, b: seq<Event>)
    requires n <= |log| && RowsOf(log, n, a) && RowsOf(log, n, b)
    ensures a == b
  {
    forall p | 0 <= p < |a| ensures a[p] == b[p] {
      var head := Heads(log, n)[p];
      var j :| head <= j < n && Shows(log, n, head, j, a[p]);
      var k :| head <= k < n && Shows(log, n, head, k, b[p]);
    }
  }
}
