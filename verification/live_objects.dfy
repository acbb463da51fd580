/** The client's objects, method by method: each computes the step the models above specify. */
module LiveObjects {
  import opened Common
  import LiveFeed
  import LiveRun
  type Event = LiveFeed.Event
  type Wire = LiveFeed.Wire
  type Feed = LiveFeed.Feed

  lemma {:induction false} AppendsNext(f: Feed, wire: seq<Wire>, n: nat)
    requires LiveFeed.Valid(f) && n < |wire| && LiveFeed.Append(f, wire[..n]).Some?
    ensures LiveFeed.Append(f, wire[..n + 1]) == LiveFeed.Receive(LiveFeed.Append(f, wire[..n]).value, wire[n])
  {
    assert wire[..n + 1][..n] == wire[..n];
  }

  lemma {:induction false} RefusalStands(f: Feed, wire: seq<Wire>, n: nat)
    requires LiveFeed.Valid(f) && n <= |wire| && LiveFeed.Append(f, wire[..n]).None?
    ensures LiveFeed.Append(f, wire).None?
    decreases |wire|
  {
    if n < |wire| {
      assert wire[..|wire| - 1][..n] == wire[..n];
      RefusalStands(f, wire[..|wire| - 1], n);
    } else {
      assert wire[..n] == wire;
    }
  }

  /** `LiveEvents`. The rows themselves belong to the caller. */
  class LiveEvents {
    var cursor: nat
    var messages: map<string, nat>

    ghost predicate ValidFor(rows: seq<Event>)
      reads this
    {
      LiveFeed.Valid(LiveFeed.Feed(cursor, rows, messages))
    }

    constructor ()
      ensures cursor == 0 && messages == map[]
    {
      cursor, messages := 0, map[];
    }

    method Copy() returns (next: LiveEvents)
      ensures fresh(next) && next.cursor == cursor && next.messages == messages
    {
      next := new LiveEvents();
      next.cursor, next.messages := cursor, messages;
    }

    method Restore(rows: seq<Event>, at: nat)
      modifies this
      ensures ValidFor(rows) && LiveFeed.Feed(cursor, rows, messages) == LiveRun.Restored(rows, at)
    {
      messages := map[];
      cursor := at;
      var index := 0;
      while index < |rows|
        invariant index <= |rows| && cursor == at && messages == LiveRun.RestoredMap(rows, index)
      {
        var row := rows[index];
        if row.starts { messages := map[]; }
        if row.message.Some? { messages := messages[row.message.value.item := index]; }
        index := index + 1;
      }
    }

    /** Folds a batch onto the rows, or throws (`ok` is false) at a delta without its baseline. */
    method Append(target: seq<Event>, incoming: seq<Wire>) returns (rows: seq<Event>, ok: bool)
      requires ValidFor(target)
      modifies this
      ensures ok == LiveFeed.Append(LiveFeed.Feed(old(cursor), target, old(messages)), incoming).Some?
      ensures ok ==>
                Some(LiveFeed.Feed(cursor, rows, messages))
                == LiveFeed.Append(LiveFeed.Feed(old(cursor), target, old(messages)), incoming)
    {
      ghost var feed := LiveFeed.Feed(cursor, target, messages);
      rows := target;
      var i := 0;
      while i < |incoming|
        invariant i <= |incoming|
        invariant LiveFeed.Append(feed, incoming[..i]) == Some(LiveFeed.Feed(cursor, rows, messages))
      {
        ghost var before := LiveFeed.Feed(cursor, rows, messages);
        AppendsNext(feed, incoming, i);
        assert LiveFeed.Append(feed, incoming[..i + 1]) == LiveFeed.Receive(before, incoming[i]);
        var event, delta := incoming[i].event, incoming[i].delta;
        if event.id > cursor {
          if event.starts { messages := map[]; }
          if event.message.None? {
            rows := rows + [event];
            cursor := event.id;
          } else {
            var item := event.message.value.item;
            if delta.Some? {
              if item !in messages {
                RefusalStands(feed, incoming, i + 1);
                return rows, false;
              }
              var text := rows[messages[item]].message.value.text + delta.value;
              event := event.(message := Some(LiveFeed.Snapshot(item, text)));
            }
            cursor := event.id;
            if item in messages {
              rows := rows[messages[item] := event.(createdAt := rows[messages[item]].createdAt)];
            } else {
              messages := messages[item := |rows|];
              rows := rows + [event];
            }
          }
        }
        i := i + 1;
      }
      ok := true;
      assert incoming[..i] == incoming;
    }
  }

  /**
   * The variables of `liveConnection` and of the view that accepts its batches. Each event handler is one
   * method; `open` is whether a source is connected.
   */
  class LiveView {
    var cursor: nat
    var history: Option<LiveRun.History>
    var resetConsumer: bool
    var open: bool
    // The view's own variables.
    var accumulator: LiveEvents
    var rows: seq<Event>
    var viewHistory: Option<LiveRun.History>
    var run: Option<nat>
    var accepted: nat
    var complete: bool
    var shown: seq<Event>

    ghost function View(): LiveRun.View
      reads this, accumulator
    {
      LiveRun.View(LiveFeed.Feed(accumulator.cursor, rows, accumulator.messages), viewHistory, run, accepted, complete, shown)
    }

    ghost function Client(): LiveRun.Client
      reads this, accumulator
    {
      LiveRun.Client(cursor, history, resetConsumer, open, View())
    }

    ghost predicate Valid()
      reads this, accumulator
    {
      LiveFeed.Valid(View().feed)
    }

    constructor ()
      ensures Valid() && fresh(accumulator) && Client() == LiveRun.Client(0, None, false, false, LiveRun.NO_VIEW)
    {
      cursor, history, resetConsumer, open := 0, None, false, false;
      accumulator := new LiveEvents();
      rows, viewHistory, run, accepted, complete, shown := [], None, None, 0, false, [];
    }

    /** The batch acceptor: a refused batch leaves the rows as they were, or cleared if the batch restarted them. */
    method Accept(batch: LiveRun.Batch, at: nat) returns (ok: bool)
      requires Valid()
      modifies this`accumulator, this`rows, this`viewHistory, this`run, this`accepted, this`complete, this`shown
      ensures Valid() && (View(), ok) == LiveRun.Accept(old(View()), batch, at)
      ensures accumulator == old(accumulator) || fresh(accumulator)
    {
      if batch.reset || (viewHistory.Some? && batch.history != viewHistory) || (batch.run.Some? && run != batch.run) {
        rows := [];
        accumulator := new LiveEvents();
        complete := false;
      }
      var candidate := accumulator.Copy();
      var next;
      next, ok := candidate.Append(rows, batch.events);
      if ok {
        accumulator := candidate;
        rows := next;
        if batch.run.Some? { run := batch.run; }
        accepted := at;
        viewHistory := batch.history;
        complete := !batch.more;
        if complete { shown := rows; }
      }
    }

    /** A batch event; what cannot be read is `None`. */
    method OnBatch(data: Option<LiveRun.Batch>, id: Option<nat>)
      requires Valid()
      modifies this
      ensures Valid() && Client() == LiveRun.OnBatch(old(Client()), data, id)
    {
      if !open { return; }
      if data.None? || id.None? {
        open := false;
      } else if history.Some? && data.value.history.None? {
        cursor, history, open := 0, None, false;
      } else {
        var batch := if resetConsumer then data.value.(reset := true) else data.value;
        var ok := Accept(batch, id.value);
        if ok {
          resetConsumer := false;
          cursor := id.value;
          history := batch.history;
        } else {
          cursor, history, resetConsumer, open := 0, None, true, false;
        }
      }
    }
  }
}
