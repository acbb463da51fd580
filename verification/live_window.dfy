/**
 * What a followed run shows when it does not start from nothing. A windowed stream starts from the most recent
 * events that no later snapshot supersedes (crates/installation/src/store.rs), and a visit starts from the rows an
 * earlier one kept: which rows are shown, and exactly when they are the rows of the whole log.
 */
module LiveWindow {
  import opened Common
  import opened LiveFeed
  import opened LiveRows
  import opened LiveRun
  import opened LiveReplication
  import opened HistoryCache

  // ----- The events a view received -----

  ghost predicate Rising(a: seq<nat>) {
    forall i, j :: 0 <= i < j < |a| ==> a[i] < a[j]
  }

  ghost predicate Within(log: seq<Event>, places: seq<nat>) {
    Rising(places) && forall i :: 0 <= i < |places| ==> places[i] < |log|
  }

  /** The events at some places of the log. */
  ghost function EventsAt(log: seq<Event>, places: seq<nat>): (events: seq<Event>)
    requires Within(log, places)
    ensures |events| == |places| && forall i :: 0 <= i < |events| ==> events[i] == log[places[i]]
  {
    seq(|places|, i requires 0 <= i < |places| => log[places[i]])
  }

  /** The last of the first n events that is a snapshot of the same message, or event i itself. */
  ghost function LastTo(log: seq<Event>, i: nat, n: nat): (last: nat)
    requires i < n <= |log|
    ensures i <= last < n && (i < last ==> SameMessage(log, i, last))
    ensures forall k :: last < k < n ==> !SameMessage(log, i, k)
  {
    if n == i + 1 then i else if SameMessage(log, i, n - 1) then n - 1 else LastTo(log, i, n - 1)
  }

  ghost function LastOf(log: seq<Event>, i: nat): (last: nat)
    requires i < |log|
    ensures i <= last < |log| && (i < last ==> SameMessage(log, i, last))
    ensures forall k :: last < k < |log| ==> !SameMessage(log, i, k)
  {
    LastTo(log, i, |log|)
  }

  /** With each snapshot received, the last one of its message was received too. */
  ghost predicate KeepsLasts(log: seq<Event>, places: seq<nat>)
    requires Within(log, places)
  {
    forall i {:trigger LastOf(log, places[i])} :: 0 <= i < |places| ==> LastOf(log, places[i]) in places
  }

  /** Every turn start after the first event received was received. */
  ghost predicate KeepsStarts(log: seq<Event>, places: seq<nat>) {
    places != [] ==> forall t :: places[0] < t < |log| && log[t].starts ==> t in places
  }

  ghost predicate Gathered(log: seq<Event>, places: seq<nat>) {
    Within(log, places) && KeepsLasts(log, places) && KeepsStarts(log, places)
  }

  ghost predicate SameRow(log: seq<Event>, i: nat, j: nat)
    requires i < |log| && j < |log|
  {
    i == j || SameMessage(log, i, j)
  }

  // ----- Turns -----

  lemma {:induction false} SameTurnIff(log: seq<Event>, i: nat, j: nat)
    requires i <= j <= |log|
    ensures Turns(log, i) == Turns(log, j) <==> forall t :: i <= t < j ==> !log[t].starts
    decreases j
  {
    if i < j {
      SameTurnIff(log, i, j - 1);
      TurnsGrow(log, i, j - 1);
    }
  }

  lemma PlaceBetween(places: seq<nat>, a: nat, b: nat, t: nat) returns (r: nat)
    requires Rising(places) && a < b < |places| && t in places && places[a] < t <= places[b]
    ensures a < r <= b && places[r] == t
  {
    r :| r < |places| && places[r] == t;
  }

  lemma SameTurns(log: seq<Event>, places: seq<nat>, a: nat, b: nat)
    requires Within(log, places) && KeepsStarts(log, places) && a < b < |places|
    ensures (forall t :: places[a] < t <= places[b] ==> !log[t].starts)
            <==> forall r :: a < r <= b ==> !EventsAt(log, places)[r].starts
  {
    if t: nat :| places[a] < t <= places[b] && log[t].starts {
      assert places[0] <= places[a];
      var r := PlaceBetween(places, a, b, t);
      assert EventsAt(log, places)[r].starts;
    }
    if r :| a < r <= b && EventsAt(log, places)[r].starts {
      assert places[a] < places[r] <= places[b];
    }
  }

  /** Two received events belong to the same message exactly when they do in the log. */
  lemma Aligned(log: seq<Event>, places: seq<nat>, a: nat, b: nat)
    requires Within(log, places) && KeepsStarts(log, places) && a < b < |places|
    ensures SameMessage(EventsAt(log, places), a, b) <==> SameMessage(log, places[a], places[b])
  {
    SameTurns(log, places, a, b);
    SameTurnIff(EventsAt(log, places), a + 1, b + 1);
    SameTurnIff(log, places[a] + 1, places[b] + 1);
  }

  // ----- Rows and the events that open them -----

  lemma {:induction false} HeadOf(log: seq<Event>, i: nat) returns (h: nat)
    requires i < |log|
    ensures h <= i && IsHead(log, h) && SameRow(log, h, i)
  {
    if IsHead(log, i) {
      h := i;
    } else {
      var j: nat :| j < i && SameMessage(log, j, i);
      h := HeadOf(log, j);
    }
  }

  lemma {:induction false} HeadsHas(log: seq<Event>, n: nat, h: nat) returns (p: nat)
    requires h < n <= |log| && IsHead(log, h)
    ensures p < |Heads(log, n)| && Heads(log, n)[p] == h
  {
    if h == n - 1 { p := |Heads(log, n)| - 1; } else { p := HeadsHas(log, n - 1, h); }
  }

  /** Of the events received, the one at a is the first of the row that h begins. */
  ghost predicate FirstSeen(log: seq<Event>, places: seq<nat>, a: nat, h: nat)
    requires Within(log, places)
  {
    && a < |places| && h < |log| && SameRow(log, h, places[a])
    && forall b :: 0 <= b < a ==> !SameRow(log, h, places[b])
  }

  lemma FirstSeenIffHead(log: seq<Event>, places: seq<nat>, a: nat, h: nat)
    requires Gathered(log, places) && a < |places| && h < |log| && SameRow(log, h, places[a])
    ensures FirstSeen(log, places, a, h) <==> IsHead(EventsAt(log, places), a)
  {
    var events := EventsAt(log, places);
    forall b | 0 <= b < a ensures SameMessage(events, b, a) <==> SameRow(log, h, places[b]) {
      Aligned(log, places, b, a);
      assert places[b] < places[a];
    }
  }

  lemma OneFirstSeen(log: seq<Event>, places: seq<nat>, a: nat, b: nat, h: nat)
    requires Within(log, places) && FirstSeen(log, places, a, h) && FirstSeen(log, places, b, h)
    ensures a == b
  {
  }

  lemma {:induction false} FirstOfRow(log: seq<Event>, places: seq<nat>, a: nat, h: nat) returns (first: nat)
    requires Within(log, places) && a < |places| && h < |log| && SameRow(log, h, places[a])
    ensures FirstSeen(log, places, first, h)
  {
    if b: nat :| b < a && SameRow(log, h, places[b]) {
      first := FirstOfRow(log, places, b, h);
    } else {
      first := a;
    }
  }

  // ----- When the rows of the events received are the rows of the log -----

  ghost predicate AllSeen(log: seq<Event>, places: seq<nat>)
    requires Within(log, places)
  {
    forall h :: 0 <= h < |log| && IsHead(log, h) ==> exists a: nat :: FirstSeen(log, places, a, h)
  }

  ghost predicate SeenInOrder(log: seq<Event>, places: seq<nat>)
    requires Within(log, places)
  {
    forall h: nat, g: nat, a: nat, b: nat ::
      h < g < |log| && IsHead(log, h) && IsHead(log, g) ==>
        FirstSeen(log, places, a, h) && FirstSeen(log, places, b, g) ==> a < b
  }

  ghost predicate SeenAtItsTime(log: seq<Event>, places: seq<nat>)
    requires Within(log, places)
  {
    forall h: nat, a: nat :: h < |log| && IsHead(log, h) && FirstSeen(log, places, a, h) ==>
      log[places[a]].createdAt == log[h].createdAt
  }

  /**
   * Some event of each row was received; the first ones were received in the order in which the rows began, and each
   * has the time at which its row began.
   */
  ghost predicate Faithful(log: seq<Event>, places: seq<nat>)
    requires Within(log, places)
  {
    AllSeen(log, places) && SeenInOrder(log, places) && SeenAtItsTime(log, places)
  }

  lemma RisingReflects(a: seq<nat>, i: nat, j: nat)
    requires Rising(a) && i < |a| && j < |a| && a[i] <= a[j]
    ensures i <= j
  {
  }

  /** A received event that no later one received supersedes is the last of its row in the log. */
  lemma LastIsReceived(log: seq<Event>, places: seq<nat>, x: nat)
    requires Gathered(log, places) && x < |places|
    requires forall k :: x < k < |places| ==> !SameMessage(EventsAt(log, places), x, k)
    ensures LastOf(log, places[x]) == places[x]
  {
    var z: nat :| z < |places| && places[z] == LastOf(log, places[x]);
    RisingReflects(places, x, z);
    if z > x { Aligned(log, places, x, z); }
  }

  /** The row that the event at `a` opens, as the received events show it. */
  lemma ReceivedRow(log: seq<Event>, places: seq<nat>, a: nat, row: Event) returns (x: nat)
    requires Gathered(log, places) && a < |places|
    requires RowIs(EventsAt(log, places), |places|, a, row)
    ensures a <= x < |places| && SameRow(log, places[a], places[x]) && LastOf(log, places[x]) == places[x]
    ensures row == log[places[x]].(createdAt := log[places[a]].createdAt)
  {
    var events := EventsAt(log, places);
    x :| a <= x < |places| && Shows(events, |places|, a, x, row);
    if a < x { Aligned(log, places, a, x); }
    forall k | x < k < |places| ensures !SameMessage(events, x, k) { assert !SameMessage(events, a, k); }
    LastIsReceived(log, places, x);
  }

  /** If the rows agree, the row at p is opened by the p-th event that opens a row among those received. */
  lemma RowsAgreeAt(log: seq<Event>, places: seq<nat>, rows: seq<Event>, p: nat)
    requires Fresh(0, log) && Gathered(log, places) && p < |rows|
    requires RowsOf(EventsAt(log, places), |places|, rows) && RowsOf(log, |log|, rows)
    ensures var a, h := Heads(EventsAt(log, places), |places|)[p], Heads(log, |log|)[p];
            FirstSeen(log, places, a, h) && log[places[a]].createdAt == log[h].createdAt
  {
    var events := EventsAt(log, places);
    var a, h := Heads(events, |places|)[p], Heads(log, |log|)[p];
    assert RowIs(events, |places|, a, rows[p]) && RowIs(log, |log|, h, rows[p]);
    var x := ReceivedRow(log, places, a, rows[p]);
    var y :| h <= y < |log| && Shows(log, |log|, h, y, rows[p]);
    assert log[places[x]].id == log[y].id;
    assert places[x] == y;
    FirstSeenIffHead(log, places, a, h);
  }

  lemma AgreeingIsFaithful(log: seq<Event>, places: seq<nat>, rows: seq<Event>)
    requires Fresh(0, log) && Gathered(log, places)
    requires RowsOf(EventsAt(log, places), |places|, rows) && RowsOf(log, |log|, rows)
    ensures Faithful(log, places)
  {
    var openers := Heads(EventsAt(log, places), |places|);
    forall h | 0 <= h < |log| && IsHead(log, h)
      ensures exists a: nat :: FirstSeen(log, places, a, h)
      ensures forall a: nat :: FirstSeen(log, places, a, h) ==> log[places[a]].createdAt == log[h].createdAt
    {
      var p := HeadsHas(log, |log|, h);
      RowsAgreeAt(log, places, rows, p);
      forall a: nat | FirstSeen(log, places, a, h) ensures a == openers[p] {
        OneFirstSeen(log, places, a, openers[p], h);
      }
    }
    forall h: nat, g: nat, a: nat, b: nat |
      h < g < |log| && IsHead(log, h) && IsHead(log, g) && FirstSeen(log, places, a, h) && FirstSeen(log, places, b, g)
      ensures a < b
    {
      AgreeInOrder(log, places, rows, h, g, a, b);
    }
  }

  lemma AgreeInOrder(log: seq<Event>, places: seq<nat>, rows: seq<Event>, h: nat, g: nat, a: nat, b: nat)
    requires Fresh(0, log) && Gathered(log, places)
    requires RowsOf(EventsAt(log, places), |places|, rows) && RowsOf(log, |log|, rows)
    requires h < g < |log| && IsHead(log, h) && IsHead(log, g)
    requires FirstSeen(log, places, a, h) && FirstSeen(log, places, b, g)
    ensures a < b
  {
    var openers := Heads(EventsAt(log, places), |places|);
    var p := HeadsHas(log, |log|, h);
    var q := HeadsHas(log, |log|, g);
    if q < p { HeadsIncrease(log, |log|, q, p); }
    RowsAgreeAt(log, places, rows, p);
    RowsAgreeAt(log, places, rows, q);
    OneFirstSeen(log, places, a, openers[p], h);
    OneFirstSeen(log, places, b, openers[q], g);
    HeadsIncrease(EventsAt(log, places), |places|, p, q);
  }

  lemma RisingFront(a: seq<nat>, x: nat)
    requires Rising(a) && a != []
    ensures x in a[..|a| - 1] <==> x in a && x < a[|a| - 1]
  {
  }

  lemma FrontsAgree(a: seq<nat>, b: seq<nat>, m: nat, n: nat)
    requires Rising(a) && Rising(b) && |a| == m + 1 && |b| == n + 1 && forall x :: x in a <==> x in b
    ensures a[m] == b[n] && forall x :: x in a[..m] <==> x in b[..n]
  {
    assert a[m] in b && b[n] in a;
    forall x ensures x in a[..m] <==> x in b[..n] {
      RisingFront(a, x);
      RisingFront(b, x);
    }
  }

  lemma BothOrNeither(a: seq<nat>, b: seq<nat>)
    requires forall x :: x in a <==> x in b
    ensures a == [] <==> b == []
  {
    assert (a == [] || a[0] in a) && (b == [] || b[0] in b);
  }

  lemma {:induction false} SameRising(a: seq<nat>, b: seq<nat>)
    requires Rising(a) && Rising(b) && forall x :: x in a <==> x in b
    ensures a == b
  {
    BothOrNeither(a, b);
    if a != [] {
      var m, n := |a| - 1, |b| - 1;
      FrontsAgree(a, b, m, n);
      SameRising(a[..m], b[..n]);
      assert a == a[..m] + [a[m]] && b == b[..n] + [b[n]];
    }
  }

  /** The events that open the rows of the log, in the order of the rows. */
  ghost function Openers(log: seq<Event>, places: seq<nat>): (openers: seq<nat>)
    requires Within(log, places) && AllSeen(log, places)
    ensures |openers| == |Heads(log, |log|)|
    ensures forall p :: 0 <= p < |openers| ==> FirstSeen(log, places, openers[p], Heads(log, |log|)[p])
  {
    var heads := Heads(log, |log|);
    seq(|heads|, p requires 0 <= p < |heads| => var a: nat :| FirstSeen(log, places, a, heads[p]); a)
  }

  lemma OpenersRise(log: seq<Event>, places: seq<nat>)
    requires Within(log, places) && AllSeen(log, places) && SeenInOrder(log, places)
    ensures Rising(Openers(log, places))
  {
    var openers, heads := Openers(log, places), Heads(log, |log|);
    forall p, q | 0 <= p < q < |openers| ensures openers[p] < openers[q] {
      HeadsIncrease(log, |log|, p, q);
      assert FirstSeen(log, places, openers[p], heads[p]) && FirstSeen(log, places, openers[q], heads[q]);
    }
  }

  lemma HeadsRise(log: seq<Event>)
    ensures Rising(Heads(log, |log|))
  {
    forall p, q | 0 <= p < q < |Heads(log, |log|)| ensures Heads(log, |log|)[p] < Heads(log, |log|)[q] {
      HeadsIncrease(log, |log|, p, q);
    }
  }

  lemma OpenersAreHeads(log: seq<Event>, places: seq<nat>, x: nat)
    requires Gathered(log, places) && AllSeen(log, places)
    ensures x in Openers(log, places) <==> x in Heads(EventsAt(log, places), |places|)
  {
    var openers, events := Openers(log, places), EventsAt(log, places);
    if x in openers {
      var p: nat :| p < |openers| && openers[p] == x;
      FirstSeenIffHead(log, places, x, Heads(log, |log|)[p]);
      var q := HeadsHas(events, |places|, x);
    }
    if x in Heads(events, |places|) {
      var h := HeadOf(log, places[x]);
      FirstSeenIffHead(log, places, x, h);
      var p := HeadsHas(log, |log|, h);
      OneFirstSeen(log, places, x, openers[p], h);
    }
  }

  lemma OpenersAreTheHeads(log: seq<Event>, places: seq<nat>)
    requires Gathered(log, places) && AllSeen(log, places) && SeenInOrder(log, places)
    ensures Openers(log, places) == Heads(EventsAt(log, places), |places|)
  {
    OpenersRise(log, places);
    HeadsRise(EventsAt(log, places));
    forall x ensures x in Openers(log, places) <==> x in Heads(EventsAt(log, places), |places|) {
      OpenersAreHeads(log, places, x);
    }
    SameRising(Openers(log, places), Heads(EventsAt(log, places), |places|));
  }

  lemma FaithfulRow(log: seq<Event>, places: seq<nat>, h: nat, a: nat, row: Event)
    requires Gathered(log, places) && FirstSeen(log, places, a, h) && IsHead(log, h)
    requires log[places[a]].createdAt == log[h].createdAt && RowIs(EventsAt(log, places), |places|, a, row)
    ensures RowIs(log, |log|, h, row)
  {
    var x := ReceivedRow(log, places, a, row);
    var j := places[x];
    assert SameRow(log, h, j);
    assert j < h ==> !SameMessage(log, j, h);
    forall k | j < k < |log| ensures !SameMessage(log, h, k) { assert !SameMessage(log, j, k); }
    assert Shows(log, |log|, h, j, row);
  }

  lemma FaithfulIsAgreeing(log: seq<Event>, places: seq<nat>, rows: seq<Event>)
    requires Gathered(log, places) && Faithful(log, places) && RowsOf(EventsAt(log, places), |places|, rows)
    ensures RowsOf(log, |log|, rows)
  {
    OpenersAreTheHeads(log, places);
    var openers, heads := Openers(log, places), Heads(log, |log|);
    forall p | 0 <= p < |rows| ensures RowIs(log, |log|, heads[p], rows[p]) {
      assert FirstSeen(log, places, openers[p], heads[p]);
      FaithfulRow(log, places, heads[p], openers[p], rows[p]);
    }
  }

  /** The rows of the events received are the rows of the log exactly when what was received is faithful. */
  lemma ReceivedRowsIff(log: seq<Event>, places: seq<nat>, rows: seq<Event>)
    requires Fresh(0, log) && Gathered(log, places) && RowsOf(EventsAt(log, places), |places|, rows)
    ensures RowsOf(log, |log|, rows) <==> Faithful(log, places)
  {
    if RowsOf(log, |log|, rows) { AgreeingIsFaithful(log, places, rows); }
    if Faithful(log, places) { FaithfulIsAgreeing(log, places, rows); }
  }

  // ----- Logs that grow -----

  lemma {:induction false} TurnsOfPrefix(log: seq<Event>, n: nat, m: nat)
    requires m <= n <= |log|
    ensures Turns(log[..n], m) == Turns(log, m)
  {
    if m > 0 { TurnsOfPrefix(log, n, m - 1); }
  }

  lemma SameMessageInPrefix(log: seq<Event>, n: nat, i: nat, j: nat)
    requires i < n <= |log| && j < n
    ensures SameMessage(log[..n], i, j) <==> SameMessage(log, i, j)
  {
    TurnsOfPrefix(log, n, i + 1);
    TurnsOfPrefix(log, n, j + 1);
  }

  /** If the last snapshot falls within the prefix, it is the last one there. */
  lemma LastInPrefix(log: seq<Event>, n: nat, i: nat)
    requires i < n <= |log| && LastOf(log, i) < n
    ensures LastOf(log[..n], i) == LastOf(log, i)
  {
    var last, early := LastOf(log, i), LastOf(log[..n], i);
    SameMessageInPrefix(log, n, i, last);
    SameMessageInPrefix(log, n, i, early);
  }

  lemma RowsOfPrefix(log: seq<Event>, n: nat, rows: seq<Event>)
    requires n <= |log|
    ensures RowsOf(log[..n], n, rows) <==> RowsOf(log, n, rows)
  {
    FoldIsRows(log, n);
    FoldIsRows(log[..n], n);
    assert log[..n][..n] == log[..n];
    var folded := Fold(log[..n]).rows;
    if RowsOf(log, n, rows) { RowsAreDetermined(log, n, rows, folded); }
    if RowsOf(log[..n], n, rows) { RowsAreDetermined(log[..n], n, rows, folded); }
  }

  /** The places received after all events from `from` up to `at` came in too. */
  ghost function GoneOn(places: seq<nat>, from: nat, at: nat): (all: seq<nat>)
    requires from <= at
    ensures |all| == |places| + at - from
    ensures forall i :: 0 <= i < |all| ==> all[i] == if i < |places| then places[i] else from + i - |places|
  {
    places + seq(at - from, i requires 0 <= i < at - from => from + i)
  }

  lemma GoneOnHas(places: seq<nat>, from: nat, at: nat, x: nat)
    requires from <= at && (x in places || from <= x < at)
    ensures x in GoneOn(places, from, at)
  {
    var all := GoneOn(places, from, at);
    if x in places {
      var i :| 0 <= i < |places| && places[i] == x;
      assert all[i] == x;
    } else {
      assert all[|places| + x - from] == x;
    }
  }

  lemma PlacesGoOn(log: seq<Event>, places: seq<nat>, from: nat)
    requires from <= |log| && Within(log[..from], places)
    ensures Within(log, GoneOn(places, from, |log|))
    ensures EventsAt(log, GoneOn(places, from, |log|)) == EventsAt(log[..from], places) + log[from..]
  {
  }

  lemma LastsGoOn(log: seq<Event>, places: seq<nat>, from: nat, i: nat)
    requires from <= |log| && Within(log[..from], places) && KeepsLasts(log[..from], places)
    requires Within(log, GoneOn(places, from, |log|)) && i < |GoneOn(places, from, |log|)|
    ensures LastOf(log, GoneOn(places, from, |log|)[i]) in GoneOn(places, from, |log|)
  {
    var last := LastOf(log, GoneOn(places, from, |log|)[i]);
    if last < from {
      LastInPrefix(log, from, places[i]);
      assert LastOf(log[..from], places[i]) in places;
    }
    GoneOnHas(places, from, |log|, last);
  }

  lemma StartsGoOn(log: seq<Event>, places: seq<nat>, from: nat, t: nat)
    requires from <= |log| && Within(log[..from], places) && KeepsStarts(log[..from], places)
    requires t < |log| && log[t].starts && GoneOn(places, from, |log|) != [] && GoneOn(places, from, |log|)[0] < t
    ensures t in GoneOn(places, from, |log|)
  {
    if t < from { assert log[..from][t].starts; }
    GoneOnHas(places, from, |log|, t);
  }

  lemma GatheredGoesOn(log: seq<Event>, places: seq<nat>, from: nat)
    requires from <= |log| && Gathered(log[..from], places)
    ensures Gathered(log, GoneOn(places, from, |log|))
  {
    var all := GoneOn(places, from, |log|);
    PlacesGoOn(log, places, from);
    forall i | 0 <= i < |all| ensures LastOf(log, all[i]) in all { LastsGoOn(log, places, from, i); }
    forall t | 0 <= t < |log| && log[t].starts && all != [] && all[0] < t ensures t in all {
      StartsGoOn(log, places, from, t);
    }
  }

  // ----- A page of recent events -----

  lemma {:induction false} LatestHas(log: seq<Event>, n: nat, i: nat) returns (p: nat)
    requires i < n <= |log| && !Superseded(log, i)
    ensures p < |Latest(log, n)| && Latest(log, n)[p] == i
  {
    if i == n - 1 { p := |Latest(log, n)| - 1; } else { p := LatestHas(log, n - 1, i); }
  }

  /** The places of a page that leaves out the first k events that are not superseded. */
  ghost function PagePlaces(log: seq<Event>, k: nat): (places: seq<nat>)
    requires k <= |Latest(log, |log|)|
    ensures |places| == |Latest(log, |log|)| - k
    ensures forall i :: 0 <= i < |places| ==> places[i] < |log| && places[i] == Latest(log, |log|)[k + i]
  {
    Latest(log, |log|)[k..]
  }

  lemma LatestAreLast(log: seq<Event>, k: nat)
    requires k <= |Latest(log, |log|)|
    ensures Within(log, PagePlaces(log, k)) && KeepsLasts(log, PagePlaces(log, k))
  {
    var places := PagePlaces(log, k);
    forall i, j | 0 <= i < j < |places| ensures places[i] < places[j] { LatestIncreases(log, |log|, k + i, k + j); }
    forall i | 0 <= i < |places| ensures LastOf(log, places[i]) in places {
      assert !Superseded(log, places[i]);
    }
  }

  lemma StartsAreLatest(log: seq<Event>, k: nat, t: nat)
    requires Plain(log) && k < |Latest(log, |log|)| && Latest(log, |log|)[k] < t < |log| && log[t].starts
    ensures t in PagePlaces(log, k)
  {
    assert !Superseded(log, t);
    var q := LatestHas(log, |log|, t);
    if q < k { LatestIncreases(log, |log|, q, k); }
    assert PagePlaces(log, k)[q - k] == t;
  }

  lemma PageIsGathered(log: seq<Event>, page: seq<Event>, k: nat)
    requires Plain(log) && HoldsFrom(log, page, k)
    ensures Gathered(log, PagePlaces(log, k)) && EventsAt(log, PagePlaces(log, k)) == page
  {
    LatestAreLast(log, k);
    var places := PagePlaces(log, k);
    forall t | 0 <= t < |log| && log[t].starts && places != [] && places[0] < t ensures t in places {
      StartsAreLatest(log, k, t);
    }
  }

  lemma {:induction false} EveryEventOpens(page: seq<Event>, n: nat)
    requires n <= |page| && forall a, b :: 0 <= a < b < |page| ==> !SameMessage(page, a, b)
    ensures |Heads(page, n)| == n && forall p :: 0 <= p < n ==> Heads(page, n)[p] == p
  {
    if n > 0 { EveryEventOpens(page, n - 1); }
  }

  lemma NoRepeats(log: seq<Event>, page: seq<Event>, k: nat, a: nat, b: nat)
    requires Plain(log) && HoldsFrom(log, page, k) && a < b < |page|
    ensures !SameMessage(page, a, b)
  {
    PageIsGathered(log, page, k);
    Aligned(log, PagePlaces(log, k), a, b);
    assert !Superseded(log, PagePlaces(log, k)[a]);
  }

  lemma EveryEventIsARow(page: seq<Event>)
    requires forall a, b :: 0 <= a < b < |page| ==> !SameMessage(page, a, b)
    ensures RowsOf(page, |page|, page)
  {
    EveryEventOpens(page, |page|);
    forall p | 0 <= p < |page| ensures RowIs(page, |page|, Heads(page, |page|)[p], page[p]) {
      assert Shows(page, |page|, p, p, page[p]);
    }
  }

  lemma RowsAreFolded(log: seq<Event>, rows: seq<Event>)
    requires RowsOf(log, |log|, rows)
    ensures Fold(log).rows == rows
  {
    assert log[..|log|] == log;
    FoldIsRows(log, |log|);
    RowsAreDetermined(log, |log|, rows, Fold(log).rows);
  }

  /** A page of recent events is shown as it is. */
  lemma PagesAreRows(log: seq<Event>, page: seq<Event>)
    requires Plain(log) && Recent(log, page)
    ensures Fold(page).rows == page
  {
    var k: nat :| HoldsFrom(log, page, k);
    forall a, b | 0 <= a < b < |page| ensures !SameMessage(page, a, b) { NoRepeats(log, page, k, a, b); }
    EveryEventIsARow(page);
    RowsAreFolded(page, page);
  }

  // ----- When a page is the rows of its log -----

  /** No row that began after another was last changed before it. */
  ghost predicate EndInOrder(log: seq<Event>) {
    forall g, h :: 0 <= g < h < |log| && IsHead(log, g) && IsHead(log, h) ==> LastOf(log, g) < LastOf(log, h)
  }

  /** Each row's last snapshot has the time of its first one. */
  ghost predicate SameTimes(log: seq<Event>) {
    forall h :: 0 <= h < |log| && IsHead(log, h) ==> log[LastOf(log, h)].createdAt == log[h].createdAt
  }

  /**
   * The page leaves out nothing that is not superseded, no row that began after another was last changed before it, and
   * no row's time changed.
   */
  ghost predicate Matches(log: seq<Event>, page: seq<Event>) {
    |page| == |Latest(log, |log|)| && EndInOrder(log) && SameTimes(log)
  }

  lemma LastIsLatest(log: seq<Event>, h: nat)
    requires h < |log|
    ensures !Superseded(log, LastOf(log, h))
  {
    var last := LastOf(log, h);
    forall k | last < k < |log| ensures !SameMessage(log, last, k) { assert !SameMessage(log, h, k); }
  }

  /** An event of the row that is not superseded is its last snapshot. */
  lemma UnsupersededIsLast(log: seq<Event>, h: nat, i: nat)
    requires h < |log| && i < |log| && IsHead(log, h) && SameRow(log, h, i) && !Superseded(log, i)
    ensures i == LastOf(log, h)
  {
    var last := LastOf(log, h);
    assert i < h ==> !SameMessage(log, i, h);
    assert i < last ==> SameMessage(log, i, last);
  }

  /** All that a page holds of a row is its last snapshot. */
  lemma PageSeesLasts(log: seq<Event>, k: nat)
    requires k <= |Latest(log, |log|)| && Within(log, PagePlaces(log, k))
    ensures forall h: nat, a: nat :: h < |log| && IsHead(log, h) && FirstSeen(log, PagePlaces(log, k), a, h) ==>
              PagePlaces(log, k)[a] == LastOf(log, h)
  {
    var places := PagePlaces(log, k);
    forall h: nat, a: nat | h < |log| && IsHead(log, h) && FirstSeen(log, places, a, h)
      ensures places[a] == LastOf(log, h)
    {
      UnsupersededIsLast(log, h, places[a]);
    }
  }

  lemma PageSeesInOrder(log: seq<Event>, k: nat)
    requires k <= |Latest(log, |log|)| && Within(log, PagePlaces(log, k)) && AllSeen(log, PagePlaces(log, k))
    ensures SeenInOrder(log, PagePlaces(log, k)) <==> EndInOrder(log)
  {
    PageSeesLasts(log, k);
  }

  lemma PageSeesItsTime(log: seq<Event>, k: nat)
    requires k <= |Latest(log, |log|)| && Within(log, PagePlaces(log, k)) && AllSeen(log, PagePlaces(log, k))
    ensures SeenAtItsTime(log, PagePlaces(log, k)) <==> SameTimes(log)
  {
    PageSeesLasts(log, k);
  }

  lemma WholePageSeesAll(log: seq<Event>)
    requires Within(log, PagePlaces(log, 0))
    ensures AllSeen(log, PagePlaces(log, 0))
  {
    var places := PagePlaces(log, 0);
    forall h | 0 <= h < |log| && IsHead(log, h) ensures exists a: nat :: FirstSeen(log, places, a, h) {
      LastIsLatest(log, h);
      var p := LatestHas(log, |log|, LastOf(log, h));
      assert places[p] == LastOf(log, h);
      var first := FirstOfRow(log, places, p, h);
    }
  }

  /** A page that leaves an event out has nothing of its row. */
  lemma PageMissesARow(log: seq<Event>, k: nat)
    requires 0 < k <= |Latest(log, |log|)| && Within(log, PagePlaces(log, k))
    ensures !AllSeen(log, PagePlaces(log, k))
  {
    var latest := Latest(log, |log|);
    var h := HeadOf(log, latest[0]);
    UnsupersededIsLast(log, h, latest[0]);
    PageSeesLasts(log, k);
    forall a: nat ensures !FirstSeen(log, PagePlaces(log, k), a, h) {
      if FirstSeen(log, PagePlaces(log, k), a, h) { LatestIncreases(log, |log|, 0, k + a); }
    }
  }

  lemma PageIsFaithfulIff(log: seq<Event>, k: nat)
    requires k <= |Latest(log, |log|)| && Within(log, PagePlaces(log, k))
    ensures Faithful(log, PagePlaces(log, k)) <==> k == 0 && EndInOrder(log) && SameTimes(log)
  {
    if k > 0 { PageMissesARow(log, k); } else { WholePageSeesAll(log); }
    if AllSeen(log, PagePlaces(log, k)) {
      PageSeesInOrder(log, k);
      PageSeesItsTime(log, k);
    }
  }

  /** A page of recent events is the rows of its log exactly when it matches the log. */
  lemma PageIsTheRowsIff(log: seq<Event>, page: seq<Event>)
    requires Fresh(0, log) && Plain(log) && Recent(log, page)
    ensures RowsOf(log, |log|, page) <==> Matches(log, page)
  {
    var k: nat :| HoldsFrom(log, page, k);
    PageIsGathered(log, page, k);
    PagesAreRows(log, page);
    assert page[..|page|] == page;
    FoldIsRows(page, |page|);
    ReceivedRowsIff(log, PagePlaces(log, k), page);
    PageIsFaithfulIff(log, k);
  }

  // ----- What a run shows -----

  ghost predicate Shown(logs: Logs, window: bool, w: World) {
    Ordered(logs) && Reachable(logs, window, w) && w.client.view.complete && w.client.view.history.Some?
  }

  ghost function LogOf(logs: Logs, w: World): seq<Event>
    requires w.client.view.history.Some? && w.client.view.history.value in logs
  {
    logs[w.client.view.history.value]
  }

  lemma FoldGoesOn(past: seq<Event>, events: seq<Event>)
    ensures RowsOf(past + events, |past + events|, Extend(Fold(past), events).rows)
  {
    ExtendSplit(EMPTY, past, events);
    var all := past + events;
    assert all[..|all|] == all;
    FoldIsRows(all, |all|);
  }

  /**
   * In every reachable complete view of a windowed stream the rows are those of the most recent events followed by all
   * later ones; right after the page that opened it they are that page itself.
   */
  lemma WindowedRows(logs: Logs, window: bool, w: World)
    requires Shown(logs, window, w) && w.origin.Window?
    ensures w.client.view.history.value in logs && w.from <= w.at <= |LogOf(logs, w)|
    ensures var log, page := LogOf(logs, w), w.origin.page;
            && Recent(log[..w.from], page)
            && RowsOf(page + log[w.from..w.at], |page| + w.at - w.from, w.client.view.shown)
            && (w.at == w.from && Plain(log) ==> w.client.view.shown == page)
  {
    ReachableInv(logs, window, w);
    var log, page := LogOf(logs, w), w.origin.page;
    FoldGoesOn(page, log[w.from..w.at]);
    if w.at == w.from && Plain(log) { PagesAreRows(log[..w.from], page); }
  }

  lemma ShownIsReceived(log: seq<Event>, places: seq<nat>, from: nat, at: nat)
    requires from <= at <= |log| && Gathered(log[..from], places)
    ensures Gathered(log[..at], GoneOn(places, from, at))
    ensures Extend(Fold(EventsAt(log[..from], places)), log[from..at])
            == Fold(EventsAt(log[..at], GoneOn(places, from, at)))
  {
    var known := log[..at];
    assert known[..from] == log[..from] && known[from..] == log[from..at];
    GatheredGoesOn(known, places, from);
    PlacesGoOn(known, places, from);
    ExtendSplit(EMPTY, EventsAt(log[..from], places), log[from..at]);
  }

  lemma FoldedIffFaithful(log: seq<Event>, at: nat, places: seq<nat>, shown: seq<Event>)
    requires Fresh(0, log) && at <= |log| && Gathered(log[..at], places)
    requires shown == Fold(EventsAt(log[..at], places)).rows
    ensures RowsOf(log, at, shown) <==> Faithful(log[..at], places)
  {
    var events := EventsAt(log[..at], places);
    assert events[..|events|] == events;
    FoldIsRows(events, |events|);
    ReceivedRowsIff(log[..at], places, shown);
    RowsOfPrefix(log, at, shown);
  }

  /** What a view shows that received the events at some places of log[..from], and every later one up to `at`. */
  lemma ShownIffFaithful(log: seq<Event>, places: seq<nat>, from: nat, at: nat, shown: seq<Event>)
    requires Fresh(0, log) && from <= at <= |log| && Gathered(log[..from], places)
    requires shown == Extend(Fold(EventsAt(log[..from], places)), log[from..at]).rows
    ensures Gathered(log[..at], GoneOn(places, from, at))
    ensures shown == Fold(EventsAt(log[..at], GoneOn(places, from, at))).rows
    ensures RowsOf(log, at, shown) <==> Faithful(log[..at], GoneOn(places, from, at))
  {
    ShownIsReceived(log, places, from, at);
    FoldedIffFaithful(log, at, GoneOn(places, from, at), shown);
  }

  /**
   * The rows of a windowed stream are the rows of the log up to its cursor exactly when what it received is faithful:
   * the recent events it opened with, without the first k that are not superseded, and all events since.
   */
  lemma WindowShowsTheLogIff(logs: Logs, window: bool, w: World, k: nat)
    requires Shown(logs, window, w) && w.origin.Window?
    requires forall h :: h in logs ==> Plain(logs[h])
    ensures w.client.view.history.value in logs && w.from <= w.at <= |LogOf(logs, w)|
    ensures var log := LogOf(logs, w);
            HoldsFrom(log[..w.from], w.origin.page, k) ==>
              var received := GoneOn(PagePlaces(log[..w.from], k), w.from, w.at);
              && Gathered(log[..w.at], received) && w.client.view.shown == Fold(EventsAt(log[..w.at], received)).rows
              && (RowsOf(log, w.at, w.client.view.shown) <==> Faithful(log[..w.at], received))
  {
    ReachableInv(logs, window, w);
    var log, page := LogOf(logs, w), w.origin.page;
    if HoldsFrom(log[..w.from], page, k) {
      PageIsGathered(log[..w.from], page, k);
      ShownIffFaithful(log, PagePlaces(log[..w.from], k), w.from, w.at, w.client.view.shown);
    }
  }

  /** Two logs with the same rows and the same last event have the same fold. */
  lemma SameRowsSameFold(a: seq<Event>, b: seq<Event>)
    requires Plain(a) && Plain(b) && Fold(a).rows == Fold(b).rows && LastId(a) == LastId(b)
    ensures Fold(a) == Fold(b)
  {
    RestoreIsExact(a);
    RestoreIsExact(b);
    CursorOf(EMPTY, a);
    CursorOf(EMPTY, b);
  }

  lemma WindowIsPlain(log: seq<Event>, page: seq<Event>)
    requires Plain(log) && Recent(log, page)
    ensures Plain(page)
  {
    var k: nat :| HoldsFrom(log, page, k);
  }

  lemma MatchingPageFolds(log: seq<Event>, page: seq<Event>)
    requires Plain(log) && Fresh(0, log) && Recent(log, page) && RowsOf(log, |log|, page)
    ensures Fold(page) == Fold(log)
  {
    RowsAreFolded(log, page);
    PagesAreRows(log, page);
    RecentIsFresh(log, page);
    WindowIsPlain(log, page);
    SameRowsSameFold(page, log);
  }

  lemma {:induction false} FoldToHere(log: seq<Event>, from: nat, at: nat)
    requires from <= at <= |log|
    ensures RowsOf(log, at, Extend(Fold(log[..from]), log[from..at]).rows)
  {
    ExtendSplit(EMPTY, log[..from], log[from..at]);
    assert log[..from] + log[from..at] == log[..at];
    FoldIsRows(log, at);
  }

  /**
   * Right after opening, the view shows the rows of the log exactly when its page matched the log as it then was;
   * and if it did, the view shows them ever after.
   */
  lemma MatchingPagesShowTheLog(logs: Logs, window: bool, w: World)
    requires Shown(logs, window, w) && w.origin.Window?
    requires forall h :: h in logs ==> Plain(logs[h])
    ensures w.client.view.history.value in logs && w.from <= w.at <= |LogOf(logs, w)|
    ensures var log, shown := LogOf(logs, w), w.client.view.shown;
            && (w.at == w.from ==> (RowsOf(log, w.at, shown) <==> Matches(log[..w.from], w.origin.page)))
            && (Matches(log[..w.from], w.origin.page) ==> RowsOf(log, w.at, shown))
  {
    ReachableInv(logs, window, w);
    WindowedRows(logs, window, w);
    var log, page := LogOf(logs, w), w.origin.page;
    var known := log[..w.from];
    PageIsTheRowsIff(known, page);
    RowsOfPrefix(log, w.from, page);
    if Matches(known, page) {
      MatchingPageFolds(known, page);
      FoldToHere(log, w.from, w.at);
    }
  }

  lemma RestoredIsFold(origin: Origin, past: seq<Event>, cursor: nat)
    requires origin.Cache? && origin.rows == Fold(past).rows && Plain(past) && cursor == LastId(past)
    ensures Base(origin, cursor) == Fold(past)
  {
    CursorOf(EMPTY, past);
    RestoreIsExact(past);
  }

  /** The rows are those of the events received, the last event of the log among them. */
  ghost predicate ComesFrom(log: seq<Event>, places: seq<nat>, rows: seq<Event>) {
    && Gathered(log, places) && rows == Fold(EventsAt(log, places)).rows
    && LastId(EventsAt(log, places)) == LastId(log)
  }

  /**
   * The same for a visit that starts from the rows an earlier one showed, `places` being what that visit had received
   * of the log, up to its last event so far.
   */
  lemma CachedVisitsShowTheLogIff(logs: Logs, window: bool, w: World, places: seq<nat>)
    requires Shown(logs, window, w) && w.origin.Cache?
    requires forall h :: h in logs ==> Plain(logs[h])
    ensures w.client.view.history.value in logs && w.from <= w.at <= |LogOf(logs, w)|
    ensures var log := LogOf(logs, w);
            ComesFrom(log[..w.from], places, w.origin.rows) ==>
              var received := GoneOn(places, w.from, w.at);
              && Gathered(log[..w.at], received) && w.client.view.shown == Fold(EventsAt(log[..w.at], received)).rows
              && (RowsOf(log, w.at, w.client.view.shown) <==> Faithful(log[..w.at], received))
  {
    ReachableInv(logs, window, w);
    var log := LogOf(logs, w);
    if ComesFrom(log[..w.from], places, w.origin.rows) {
      var past := EventsAt(log[..w.from], places);
      RestoredIsFold(w.origin, past, LastId(past));
      ShownIffFaithful(log, places, w.from, w.at, w.client.view.shown);
    }
  }

  /** A view that received every event shows the log. */
  lemma EverythingIsFaithful(log: seq<Event>)
    requires Fresh(0, log)
    ensures Gathered(log, GoneOn([], 0, |log|)) && Faithful(log, GoneOn([], 0, |log|))
  {
    var all := GoneOn([], 0, |log|);
    assert log[..0] == [] && log[0..] == log && log[..|log|] == log;
    GatheredGoesOn(log, [], 0);
    PlacesGoOn(log, [], 0);
    assert EventsAt(log, all) == log;
    FoldIsRows(log, |log|);
    ReceivedRowsIff(log, all, Fold(log).rows);
  }

  // ----- A page that is not the rows of its log -----

  ghost const START := Event(1, 10, false, Some(Snapshot("m", "a")), 0)
  ghost const TOOL := Event(2, 20, false, None, 0)
  ghost const END := Event(3, 30, false, Some(Snapshot("m", "ab")), 0)
  ghost const TALK := [START, TOOL, END]

  lemma {:induction false} TalkIsRecent()
    ensures Latest(TALK, 3) == [1, 2] && Recent(TALK, [TOOL, END])
  {
    assert Turns(TALK, 0) == Turns(TALK, 1) == Turns(TALK, 2) == Turns(TALK, 3);
    assert SameMessage(TALK, 0, 2) && Superseded(TALK, 0) && !Superseded(TALK, 1) && !Superseded(TALK, 2);
    assert Latest(TALK, 0) == [] && Latest(TALK, 1) == [] && Latest(TALK, 2) == [1];
    assert HoldsFrom(TALK, [TOOL, END], 0);
  }

  lemma {:induction false} FoldThree(x: Event, y: Event, z: Event)
    ensures Fold([x, y, z]) == Step(Step(Step(EMPTY, x), y), z)
  {
    assert [x, y, z][..2] == [x, y] && [x, y][..1] == [x] && [x][..0] == [];
    assert Fold([]) == EMPTY && Fold([x]) == Step(EMPTY, x) && Fold([x, y]) == Step(Fold([x]), y);
    assert Fold([x, y, z]) == Step(Fold([x, y]), z);
  }

  /**
   * A message, a tool and the message again: without a window the message comes first, under its first time; opened
   * with a window, the tool does.
   */
  lemma {:induction false} WindowsReorder()
    ensures Fold(TALK).rows == [END.(createdAt := START.createdAt), TOOL]
    ensures Recent(TALK, [TOOL, END]) && Fold([TOOL, END]).rows == [TOOL, END]
  {
    TalkIsRecent();
    PagesAreRows(TALK, [TOOL, END]);
    FoldThree(START, TOOL, END);
  }
}
