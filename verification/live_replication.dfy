/**
 * Whatever happens to the connection, the rows of a followed run are one fold of its log: what every step of
 * `LiveRun` keeps, and what follows for every run.
 */
module LiveReplication {
  import opened Common
  import opened LiveFeed
  import opened LiveRun
  import LiveRows

  // ----- What every step keeps -----

  /** Every log has positive, increasing ids. */
  ghost predicate Ordered(logs: Logs) {
    forall h :: h in logs ==> Fresh(0, logs[h])
  }

  /** The feed is the log up to event `at`, folded onto the view's origin. */
  ghost predicate Follows(log: seq<Event>, f: Feed, origin: Origin, from: nat, at: nat) {
    && from <= at <= |log|
    && f == Extend(Base(origin, LastId(log[..from])), log[from..at])
    && f.cursor == LastId(log[..at])
  }

  /** A window holds the most recent events of the log as far as the server had it. */
  ghost predicate OriginOk(log: seq<Event>, origin: Origin, from: nat) {
    origin.Window? ==> from <= |log| && Recent(log[..from], origin.page)
  }

  ghost predicate ViewOk(logs: Logs, v: View, origin: Origin, from: nat, at: nat) {
    && Valid(v.feed)
    && (v.feed.cursor == 0 ==> v.feed == EMPTY)
    && (v.history.None? || v.run.None? ==> v.feed == EMPTY)
    && (v.history.Some? ==>
          && v.history.value in logs && Follows(logs[v.history.value], v.feed, origin, from, at)
          && OriginOk(logs[v.history.value], origin, from)
          && (v.run.Some? ==> v.run.value == v.history.value.run))
  }

  ghost predicate Linked(c: Client, s: Subscription)
    requires Valid(c.view.feed)
  {
    && s.cursor == c.cursor && s.expected == c.history
    && (s.run.Some? ==> s.run == c.view.run)
    && if c.resetConsumer then s.texts == map[] && s.run.None? else Baselines(s.texts, c.view.feed)
  }

  ghost predicate Inv(logs: Logs, w: World) {
    var c := w.client;
    && Valid(c.view.feed)
    && (c.view.complete ==> c.view.shown == c.view.feed.rows)
    && (!c.resetConsumer || c.view.complete ==> ViewOk(logs, c.view, w.origin, w.from, w.at))
    && (if c.resetConsumer then c.cursor == 0 && c.history.None?
        else c.cursor == c.view.feed.cursor && c.history == c.view.history)
    && (c.open ==> Linked(c, w.subscription))
  }

  lemma {:induction false} AfterSplit(log: seq<Event>, at: nat)
    requires Fresh(0, log) && at <= |log|
    ensures After(log, LastId(log[..at])) == log[at..]
  {
    if at > 0 {
      var rest := log[1..];
      assert log[..at][at - 1] == log[at - 1];
      if at > 1 {
        assert rest[..at - 1][at - 2] == log[at - 1];
      } else {
        assert forall i :: 0 <= i < |rest| ==> log[0].id < rest[i].id;
        AfterAll(rest, log[0].id);
      }
      if at > 1 { AfterSplit(rest, at - 1); }
      assert rest[at - 1..] == log[at..];
    } else {
      assert log[0..] == log;
    }
  }

  lemma {:induction false} AfterAll(log: seq<Event>, cursor: nat)
    requires forall i :: 0 <= i < |log| ==> cursor < log[i].id
    ensures After(log, cursor) == log
  {
  }

  /** What a delivery meets: the view its subscription was opened for. */
  ghost predicate Meets(logs: Logs, window: bool, w: World, p: Page) {
    Ordered(logs) && Inv(logs, w) && w.client.open && Readable(logs, window, w.subscription, p)
  }

  ghost function Log(logs: Logs, p: Page): seq<Event>
    requires p.history in logs && p.known <= |logs[p.history]|
  {
    logs[p.history][..p.known]
  }

  ghost function Sending(logs: Logs, w: World, p: Page): Batch
    requires p.history in logs && p.known <= |logs[p.history]|
  {
    var b := BatchOf(w.subscription, Log(logs, p), p);
    if w.client.resetConsumer then b.(reset := true) else b
  }

  /** The view restarts only when the server starts afresh too. */
  lemma {:induction false} RestartsTogether(logs: Logs, window: bool, w: World, p: Page)
    requires Meets(logs, window, w, p)
    ensures var feed := Cleared(w.client.view, Sending(logs, w, p)).feed;
            && Valid(feed) && Baselines(Texts0(w.subscription, Log(logs, p), p), feed)
            && if Start(w.subscription, p.history, Log(logs, p)) == 0 then feed == EMPTY
               else feed == w.client.view.feed && !w.client.resetConsumer && w.client.view.history == Some(p.history)
  {
  }

  /** A page that goes on continues the log exactly where the view stands. */
  lemma {:induction false} PageGoesOn(logs: Logs, window: bool, w: World, p: Page)
    requires Meets(logs, window, w, p) && Start(w.subscription, p.history, Log(logs, p)) != 0
    requires w.client.view.history == Some(p.history) && !w.client.resetConsumer
    ensures w.at + |p.events| <= p.known && p.events == logs[p.history][w.at..w.at + |p.events|]
    ensures Fresh(w.client.view.feed.cursor, p.events)
  {
    var all, log := logs[p.history], Log(logs, p);
    var cursor := w.client.view.feed.cursor;
    assert Fresh(0, all) && Follows(all, w.client.view.feed, w.origin, w.from, w.at);
    assert cursor == LastId(all[..w.at]) && cursor <= LastId(log);
    assert w.at > 0 && all[..w.at][w.at - 1] == all[w.at - 1];
    assert w.at <= p.known;
    assert log[..w.at] == all[..w.at];
    AfterSplit(log, w.at);
    assert log[w.at..][..|p.events|] == p.events;
  }

  lemma {:induction false} LatestIncreases(log: seq<Event>, n: nat, p: nat, q: nat)
    requires n <= |log| && p < q < |Latest(log, n)|
    ensures Latest(log, n)[p] < Latest(log, n)[q]
  {
    if q < |Latest(log, n - 1)| { LatestIncreases(log, n - 1, p, q); }
  }

  /** A page of recent events is in order and ends with the log. */
  lemma {:induction false} RecentIsFresh(log: seq<Event>, page: seq<Event>)
    requires Fresh(0, log) && Recent(log, page)
    ensures Fresh(0, page) && LastId(page) == LastId(log)
  {
    var latest := Latest(log, |log|);
    var k: nat :| HoldsFrom(log, page, k);
    forall i, j | 0 <= i < j < |page| ensures page[i].id < page[j].id {
      LatestIncreases(log, |log|, k + i, k + j);
    }
    if log != [] {
      assert !Superseded(log, |log| - 1);
      assert latest[|latest| - 1] == |log| - 1;
      assert page[|page| - 1] == log[|log| - 1];
    }
  }

  /** A page that starts afresh in an unwindowed stream is the beginning of the log. */
  lemma {:induction false} PageBegins(logs: Logs, window: bool, w: World, p: Page)
    requires Meets(logs, window, w, p) && Start(w.subscription, p.history, Log(logs, p)) == 0
    ensures Fresh(0, p.events)
    ensures if window then LastId(p.events) == LastId(Log(logs, p))
            else |p.events| <= p.known && p.events == logs[p.history][..|p.events|]
  {
    var all, log := logs[p.history], Log(logs, p);
    assert Fresh(0, all);
    if window {
      RecentIsFresh(log, p.events);
    } else {
      AfterAll(log, 0);
      assert log[..|p.events|] == p.events;
    }
  }

  lemma {:induction false} BeginningFollows(logs: Logs, p: Page, feed: Feed)
    requires p.history in logs && p.known <= |logs[p.history]| && |p.events| <= p.known
    requires p.events == logs[p.history][..|p.events|] && feed == Extend(EMPTY, p.events)
    ensures Follows(logs[p.history], feed, Nothing, 0, |p.events|)
  {
    CursorOf(EMPTY, p.events);
    assert logs[p.history][0..|p.events|] == p.events;
  }

  lemma {:induction false} WindowFollows(logs: Logs, p: Page, feed: Feed)
    requires p.history in logs && p.known <= |logs[p.history]| && LastId(p.events) == LastId(Log(logs, p))
    requires feed == Extend(EMPTY, p.events)
    ensures Follows(logs[p.history], feed, Window(p.events), p.known, p.known)
  {
    CursorOf(EMPTY, p.events);
    assert logs[p.history][p.known..p.known] == [];
  }

  lemma {:induction false} ContinuationFollows(log: seq<Event>, f: Feed, origin: Origin, from: nat, at: nat, events: seq<Event>)
    requires Follows(log, f, origin, from, at) && at + |events| <= |log| && events == log[at..at + |events|]
    ensures Valid(f) && Follows(log, Extend(f, events), origin, from, at + |events|)
  {
    var base := Base(origin, LastId(log[..from]));
    assert log[from..at] + events == log[from..at + |events|];
    ExtendSplit(base, log[from..at], events);
    CursorOf(f, events);
    assert events != [] ==> events[|events| - 1] == log[..at + |events|][at + |events| - 1];
  }

  /** The accepted batch leaves exactly the events of its page folded onto what the view kept. */
  lemma {:induction false} BatchIsAccepted(logs: Logs, window: bool, w: World, p: Page)
    requires Meets(logs, window, w, p)
    ensures var feed := Cleared(w.client.view, Sending(logs, w, p)).feed;
            && Valid(feed) && Append(feed, Sending(logs, w, p).events) == Some(Extend(feed, p.events))
            && Baselines(Known(Texts0(w.subscription, Log(logs, p), p), p.events), Extend(feed, p.events))
            && Extend(feed, p.events).cursor == Reached(w.subscription, Log(logs, p), p)
  {
    var feed := Cleared(w.client.view, Sending(logs, w, p)).feed;
    RestartsTogether(logs, window, w, p);
    if Start(w.subscription, p.history, Log(logs, p)) == 0 {
      PageBegins(logs, window, w, p);
    } else {
      PageGoesOn(logs, window, w, p);
    }
    WireIsTransparent(Texts0(w.subscription, Log(logs, p), p), feed, p.events);
    CursorOf(feed, p.events);
  }

  lemma {:induction false} FreshPageFollows(logs: Logs, window: bool, w: World, p: Page)
    requires Meets(logs, window, w, p) && Start(w.subscription, p.history, Log(logs, p)) == 0
    ensures Follows(logs[p.history], Extend(EMPTY, p.events),
                    NextOrigin(window, w, p, true), NextFrom(window, w, p, true), NextAt(window, w, p, true))
  {
    PageBegins(logs, window, w, p);
    if window {
      WindowFollows(logs, p, Extend(EMPTY, p.events));
    } else {
      BeginningFollows(logs, p, Extend(EMPTY, p.events));
    }
  }

  lemma {:induction false} ViewFollows(logs: Logs, w: World, h: History)
    requires Inv(logs, w) && w.client.view.history == Some(h) && !w.client.resetConsumer
    ensures h in logs && Follows(logs[h], w.client.view.feed, w.origin, w.from, w.at)
  {
  }

  lemma {:induction false} NextPageFollows(logs: Logs, window: bool, w: World, p: Page)
    requires Meets(logs, window, w, p) && Start(w.subscription, p.history, Log(logs, p)) != 0
    requires w.client.view.history == Some(p.history) && !w.client.resetConsumer
    ensures Follows(logs[p.history], Extend(w.client.view.feed, p.events), w.origin, w.from, w.at + |p.events|)
  {
    PageGoesOn(logs, window, w, p);
    ViewFollows(logs, w, p.history);
    ContinuationFollows(logs[p.history], w.client.view.feed, w.origin, w.from, w.at, p.events);
  }

  lemma {:induction false} DeliveredFollows(logs: Logs, window: bool, w: World, p: Page, feed: Feed, afresh: bool)
    requires Meets(logs, window, w, p) && afresh == (Start(w.subscription, p.history, Log(logs, p)) == 0)
    requires if afresh then feed == EMPTY
             else feed == w.client.view.feed && w.client.view.history == Some(p.history) && !w.client.resetConsumer
    ensures Valid(feed)
    ensures Follows(logs[p.history], Extend(feed, p.events),
                    NextOrigin(window, w, p, afresh), NextFrom(window, w, p, afresh), NextAt(window, w, p, afresh))
  {
    if afresh {
      FreshPageFollows(logs, window, w, p);
    } else {
      NextPageFollows(logs, window, w, p);
    }
  }

  /** An intact batch is always accepted, and leaves the view at its page's last event. */
  lemma {:induction false} KeepsDelivered(logs: Logs, window: bool, w: World, p: Page, w': World)
    requires Meets(logs, window, w, p) && w' == Delivered(logs, window, w, p)
    ensures Inv(logs, w') && w'.client.open && !w'.client.resetConsumer && w'.client.history == Some(p.history)
  {
    var log, b := Log(logs, p), Sending(logs, w, p);
    var feed := Cleared(w.client.view, b).feed;
    BatchIsAccepted(logs, window, w, p);
    var next := Extend(feed, p.events);
    AcceptedView(w, b, next, Reached(w.subscription, log, p), w'.client);
    RestartsTogether(logs, window, w, p);
    DeliveredFollows(logs, window, w, p, feed, Start(w.subscription, p.history, log) == 0);
    EmptyAtZero(logs, window, w, p);
  }

  lemma {:induction false} AcceptedView(w: World, b: Batch, next: Feed, id: nat, c: Client)
    requires Valid(w.client.view.feed) && w.client.open && b.history.Some? && (w.client.resetConsumer ==> b.reset)
    requires Append(Cleared(w.client.view, b).feed, b.events) == Some(next)
    requires c == OnBatch(w.client, Some(b), Some(id))
    ensures c.cursor == id && c.history == b.history && !c.resetConsumer && c.open
    ensures c.view.feed == next && c.view.history == b.history && c.view.complete == !b.more
    ensures c.view.run == if b.run.Some? then b.run else w.client.view.run
    ensures c.view.complete ==> c.view.shown == next.rows
  {
    assert w.client.resetConsumer ==> b.(reset := true) == b;
  }

  /** Nothing is folded while the cursor is still zero. */
  lemma {:induction false} EmptyAtZero(logs: Logs, window: bool, w: World, p: Page)
    requires Meets(logs, window, w, p)
    ensures var feed := Cleared(w.client.view, Sending(logs, w, p)).feed;
            Valid(feed) && (Extend(feed, p.events).cursor == 0 ==> Extend(feed, p.events) == EMPTY)
  {
    var feed := Cleared(w.client.view, Sending(logs, w, p)).feed;
    RestartsTogether(logs, window, w, p);
    CursorOf(feed, p.events);
    if Start(w.subscription, p.history, Log(logs, p)) == 0 {
      PageBegins(logs, window, w, p);
    } else {
      PageGoesOn(logs, window, w, p);
    }
  }

  lemma {:induction false} KeepsInv(logs: Logs, window: bool, w: World, a: Action)
    requires Ordered(logs) && Inv(logs, w) && Enabled(logs, window, w, a)
    ensures Inv(logs, Apply(logs, window, w, a))
  {
    if a.Deliver? {
      KeepsDelivered(logs, window, w, a.page, Delivered(logs, window, w, a.page));
    }
  }

  lemma {:induction false} EveryRun(logs: Logs, window: bool, w: World, run: seq<Action>)
    requires Ordered(logs) && Inv(logs, w) && Runs(logs, window, w, run)
    ensures Inv(logs, End(logs, window, w, run))
    decreases |run|
  {
    if run != [] {
      KeepsInv(logs, window, w, run[0]);
      EveryRun(logs, window, Apply(logs, window, w, run[0]), run[1..]);
    }
  }

  lemma {:induction false} InitInv(logs: Logs, w: World)
    requires Ordered(logs) && Init(logs, w)
    ensures Inv(logs, w)
  {
    if w.origin.Cache? {
      assert logs[w.client.history.value][w.at..w.at] == [];
    }
  }

  lemma {:induction false} ReachableInv(logs: Logs, window: bool, w: World)
    requires Ordered(logs) && Reachable(logs, window, w)
    ensures Inv(logs, w)
  {
    var start, run :| Init(logs, start) && Runs(logs, window, start, run) && End(logs, window, start, run) == w;
    InitInv(logs, start);
    EveryRun(logs, window, start, run);
  }

  // ----- Main results -----

  /**
   * In every reachable state of a complete view, the rows shown are one fold of the log: from the origin the
   * view records, over exactly the events up to its cursor.
   */
  lemma {:induction false} ShownIsOneFold(logs: Logs, window: bool, w: World)
    requires Ordered(logs) && Reachable(logs, window, w) && w.client.view.complete && w.client.view.history.Some?
    ensures var v := w.client.view;
            && v.history.value in logs && w.from <= w.at <= |logs[v.history.value]|
            && v.feed.cursor == LastId(logs[v.history.value][..w.at])
            && v.shown == Extend(Base(w.origin, LastId(logs[v.history.value][..w.from])),
                                 logs[v.history.value][w.from..w.at]).rows
  {
    ReachableInv(logs, window, w);
  }

  /** A view that starts from nothing shows exactly the rows of the log up to its cursor. */
  lemma {:induction false} ShownIsTheLog(logs: Logs, window: bool, w: World)
    requires Ordered(logs) && Reachable(logs, window, w) && w.client.view.complete && w.client.view.history.Some?
    requires w.origin.Nothing? && w.from == 0
    ensures var v := w.client.view;
            && v.history.value in logs && w.at <= |logs[v.history.value]|
            && v.feed.cursor == LastId(logs[v.history.value][..w.at])
            && LiveRows.RowsOf(logs[v.history.value], w.at, v.shown)
  {
    ReachableInv(logs, window, w);
    var log := logs[w.client.view.history.value];
    LiveRows.FoldIsRows(log, w.at);
    assert log[0..w.at] == log[..w.at];
  }

  /** Without a window, rows are only ever built from nothing, or from the cache the visit started with. */
  lemma {:induction false} UnwindowedOrigins(logs: Logs, w: World, run: seq<Action>)
    requires Runs(logs, false, w, run) && !w.origin.Window? && (w.origin.Nothing? ==> w.from == 0)
    ensures var end := End(logs, false, w, run); !end.origin.Window? && (end.origin.Nothing? ==> end.from == 0)
    decreases |run|
  {
    if run != [] {
      UnwindowedOrigins(logs, Apply(logs, false, w, run[0]), run[1..]);
    }
  }

  /** A final batch leaves the view with everything the server had when it read the page. */
  lemma {:induction false} FinalBatchesHoldEverything(logs: Logs, window: bool, w: World, p: Page)
    requires Ordered(logs) && Reachable(logs, window, w) && Enabled(logs, window, w, Deliver(p))
    requires !BatchOf(w.subscription, Log(logs, p), p).more
    ensures Apply(logs, window, w, Deliver(p)).at == p.known
  {
    ReachableInv(logs, window, w);
    var all := logs[p.history];
    assert Fresh(0, all);
    if Start(w.subscription, p.history, Log(logs, p)) == 0 {
      PageBegins(logs, window, w, p);
    } else {
      RestartsTogether(logs, window, w, p);
      PageGoesOn(logs, window, w, p);
      assert Follows(all, w.client.view.feed, w.origin, w.from, w.at);
    }
  }

  /** No intact batch is ever refused, whatever came before it. */
  lemma {:induction false} IntactBatchesAreAccepted(logs: Logs, window: bool, w: World, p: Page)
    requires Ordered(logs) && Reachable(logs, window, w) && Enabled(logs, window, w, Deliver(p))
    ensures var c := Apply(logs, window, w, Deliver(p)).client;
            c.open && !c.resetConsumer && c.history == Some(p.history)
  {
    ReachableInv(logs, window, w);
    KeepsDelivered(logs, window, w, p, Delivered(logs, window, w, p));
  }

  /**
   * What a batch event makes of an open connection, case by case: data that cannot be read ends it and changes nothing
   * else; a server that no longer sends a history makes it start over; a batch the view refuses makes it start over
   * with a clear view; any other moves it to the event's identifier.
   */
  lemma {:induction false} BatchesAreHandled(c: Client, data: Option<Batch>, id: Option<nat>)
    requires Valid(c.view.feed) && c.open
    ensures var after := OnBatch(c, data, id);
            if data.None? || id.None? then after == c.(open := false)
            else if c.history.Some? && data.value.history.None? then
              after == c.(cursor := 0, history := None, open := false)
            else
              var accepted := Append(Cleared(c.view, data.value.(reset := data.value.reset || c.resetConsumer)).feed,
                                     data.value.events);
              if accepted.None? then
                after.cursor == 0 && after.history == None && after.resetConsumer && !after.open
                && after.view.shown == c.view.shown
              else
                after.cursor == id.value && after.history == data.value.history && !after.resetConsumer && after.open
                && after.view.feed == accepted.value && after.view.complete == !data.value.more
  {
    if data.Some? {
      var b := data.value;
      assert b.(reset := b.reset || c.resetConsumer) == if c.resetConsumer then b.(reset := true) else b;
    }
  }

  /** What is on screen changes only in a step that leaves the view complete, and then to the rows folded so far. */
  lemma {:induction false} ShownChangesWhenComplete(logs: Logs, window: bool, w: World, a: Action)
    requires Enabled(logs, window, w, a)
    ensures var before, after := w.client.view, Apply(logs, window, w, a).client.view;
            after.shown != before.shown ==> after.complete && after.shown == after.feed.rows
  {
  }

  /** A page of the history the view follows goes on exactly where the view stands: nothing is sent twice. */
  lemma {:induction false} PagesGoOn(logs: Logs, window: bool, w: World, p: Page)
    requires Ordered(logs) && Reachable(logs, window, w) && Enabled(logs, window, w, Deliver(p))
    requires w.client.view.history == Some(p.history) && !w.client.resetConsumer && 0 < w.at <= p.known
    ensures !BatchOf(w.subscription, Log(logs, p), p).reset
    ensures w.at + |p.events| <= p.known && p.events == logs[p.history][w.at..w.at + |p.events|]
    ensures Apply(logs, window, w, Deliver(p)).at == w.at + |p.events|
  {
    ReachableInv(logs, window, w);
    var all, log := logs[p.history], Log(logs, p);
    ViewFollows(logs, w, p.history);
    assert Fresh(0, all) && log[0] == all[0] && all[..w.at][w.at - 1] == all[w.at - 1];
    assert log[|log| - 1] == all[p.known - 1];
    PageGoesOn(logs, window, w, p);
  }

  // ----- A visit -----

  ghost const FIRST_EVENT := Event(1, 0, false, None, 0)
  ghost const ONE_LOG: Logs := map[History(0, 0) := [FIRST_EVENT]]
  ghost const FIRST_PAGE := Page(History(0, 0), 1, [FIRST_EVENT], true)
  ghost const NEW_VISIT := World(Client(0, None, false, false, NO_VIEW), IDLE, Nothing, 0, 0)
  ghost const CONNECTED := NEW_VISIT.(client := NEW_VISIT.client.(open := true))

  lemma {:induction false} OneEventIsRecent(e: Event)
    ensures Recent([e], [e])
  {
    assert !Superseded([e], 0) && Latest([e], 0) == [];
    assert Latest([e], 1) == [0];
    assert HoldsFrom([e], [e], 0);
  }

  lemma {:induction false} OneEventPage(window: bool, e: Event)
    requires e.id > 0
    ensures PageOk(window, 0, [e], [e])
  {
    OneEventIsRecent(e);
    assert After([e], 0) == [e];
  }

  lemma {:induction false} FirstPageIsReadable(window: bool)
    ensures Ordered(ONE_LOG) && Enabled(ONE_LOG, window, CONNECTED, Deliver(FIRST_PAGE))
  {
    assert ONE_LOG[History(0, 0)][..1] == [FIRST_EVENT];
    OneEventPage(window, FIRST_EVENT);
    assert Start(IDLE, History(0, 0), [FIRST_EVENT]) == 0;
  }

  lemma {:induction false} FirstEventIsFolded()
    ensures Append(EMPTY, Encode(map[], [FIRST_EVENT])) == Some(Feed(1, [FIRST_EVENT], map[]))
  {
    assert Baselines(map[], EMPTY) && Fresh(0, [FIRST_EVENT]);
    WireIsTransparent(map[], EMPTY, [FIRST_EVENT]);
    assert [FIRST_EVENT][..0] == [] && Extend(EMPTY, [FIRST_EVENT]) == Step(EMPTY, FIRST_EVENT);
    assert [] + [FIRST_EVENT] == [FIRST_EVENT];
  }

  lemma {:induction false} FirstBatch()
    ensures BatchOf(IDLE, [FIRST_EVENT], FIRST_PAGE)
            == Batch(Encode(map[], [FIRST_EVENT]), false, false, Some(History(0, 0)), Some(0))
    ensures Reached(IDLE, [FIRST_EVENT], FIRST_PAGE) == 1
  {
  }

  lemma {:induction false} FirstBatchShowsIt(window: bool)
    ensures Ordered(ONE_LOG) && Enabled(ONE_LOG, window, CONNECTED, Deliver(FIRST_PAGE))
    ensures var view := Delivered(ONE_LOG, window, CONNECTED, FIRST_PAGE).client.view;
            view.complete && view.shown == [FIRST_EVENT]
  {
    FirstPageIsReadable(window);
    FirstEventIsFolded();
    assert ONE_LOG[History(0, 0)][..1] == [FIRST_EVENT];
    FirstBatch();
    AcceptedView(CONNECTED, BatchOf(IDLE, [FIRST_EVENT], FIRST_PAGE), Feed(1, [FIRST_EVENT], map[]), 1,
                 Delivered(ONE_LOG, window, CONNECTED, FIRST_PAGE).client);
  }

  /** With or without a window, connecting and receiving one page gives a complete view of a log of one event. */
  lemma {:induction false} VisitsComplete(window: bool)
    ensures exists w :: Reachable(ONE_LOG, window, w) && w.client.view.complete && w.client.view.shown == [FIRST_EVENT]
  {
    FirstBatchShowsIt(window);
    var run := [Connect, Deliver(FIRST_PAGE)];
    var w := Delivered(ONE_LOG, window, CONNECTED, FIRST_PAGE);
    assert run[1..] == [Deliver(FIRST_PAGE)] && run[1..][1..] == [];
    assert Apply(ONE_LOG, window, NEW_VISIT, Connect) == CONNECTED;
    assert Runs(ONE_LOG, window, w, []) && End(ONE_LOG, window, w, []) == w;
    assert Runs(ONE_LOG, window, CONNECTED, run[1..]) && End(ONE_LOG, window, CONNECTED, run[1..]) == w;
    assert Init(ONE_LOG, NEW_VISIT) && Runs(ONE_LOG, window, NEW_VISIT, run) && End(ONE_LOG, window, NEW_VISIT, run) == w;
  }
}
