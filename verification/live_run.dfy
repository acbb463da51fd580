/**
 * A run followed over a connection that comes and goes: the reconnecting client
 * (apps/web/src/live-connection.ts), the view that accepts its batches (apps/web/src/use-live-run.ts) and the
 * pages the server answers with (crates/installation/src/live.rs).
 *
 * A history names a run and a revision of its retained log. Under one history the log only grows, so `logs`
 * gives each history its final log, and a page is read from some prefix of it: the server as it stood when
 * it read the page, however late the batch arrives.
 */
module LiveRun {
  import opened Common
  import opened LiveFeed
  import LiveRows

  datatype History = History(run: nat, revision: nat)

  type Logs = map<History, seq<Event>>

  /** `run` is the run of the metadata sent along, if any. */
  datatype Batch = Batch(events: seq<Wire>, reset: bool, more: bool, history: Option<History>, run: Option<nat>)

  // ----- The view -----

  datatype View = View(
    feed: Feed, history: Option<History>, run: Option<nat>, cursor: nat, complete: bool, shown: seq<Event>
  )

  predicate Restarts(v: View, b: Batch) {
    b.reset || (v.history.Some? && b.history != v.history) || (b.run.Some? && v.run != b.run)
  }

  function Cleared(v: View, b: Batch): View {
    if Restarts(v, b) then v.(feed := EMPTY, complete := false) else v
  }

  /** What accepting a batch makes of the view, and whether it was accepted. */
  function Accept(v: View, b: Batch, accepted: nat): (View, bool)
    requires Valid(v.feed)
  {
    var kept := Cleared(v, b);
    var next := Append(kept.feed, b.events);
    if next.None? then (kept, false)
    else
      (View(next.value, b.history, if b.run.Some? then b.run else v.run, accepted, !b.more,
            if b.more then v.shown else next.value.rows), true)
  }

  // ----- The connection -----

  datatype Client = Client(cursor: nat, history: Option<History>, resetConsumer: bool, open: bool, view: View)

  /** A batch event; data that cannot be read is `None`. */
  function OnBatch(c: Client, data: Option<Batch>, id: Option<nat>): Client
    requires Valid(c.view.feed)
  {
    if !c.open then c
    else if data.None? || id.None? then c.(open := false)
    else if c.history.Some? && data.value.history.None? then c.(cursor := 0, history := None, open := false)
    else
      var b := if c.resetConsumer then data.value.(reset := true) else data.value;
      var (view, ok) := Accept(c.view, b, id.value);
      if ok then Client(id.value, b.history, false, true, view)
      else Client(0, None, true, false, view)
  }

  // ----- The server's pages -----

  /** One subscription: what it has sent, and the snapshots its encoder remembers. */
  datatype Subscription = Subscription(
    cursor: nat, expected: Option<History>, texts: map<string, string>, run: Option<nat>
  )

  function LastId(log: seq<Event>): nat {
    if log == [] then 0 else log[|log| - 1].id
  }

  predicate Resets(s: Subscription, h: History, log: seq<Event>) {
    || s.cursor > LastId(log)
    || (s.cursor > 0 && log != [] && s.cursor < log[0].id)
    || (s.expected.Some? && s.expected.value != h)
  }

  /** Where a page starts reading. */
  function Start(s: Subscription, h: History, log: seq<Event>): nat {
    if Resets(s, h, log) then 0 else s.cursor
  }

  function After(log: seq<Event>, cursor: nat): seq<Event> {
    if log == [] || log[0].id > cursor then log else After(log[1..], cursor)
  }

  /** A later snapshot of the same message follows in the same turn. */
  ghost predicate Superseded(log: seq<Event>, i: nat)
    requires i < |log|
  {
    exists k :: i < k < |log| && LiveRows.SameMessage(log, i, k)
  }

  /** Which of the first n events are not superseded. */
  ghost function Latest(log: seq<Event>, n: nat): (latest: seq<nat>)
    requires n <= |log|
    ensures forall p :: 0 <= p < |latest| ==> latest[p] < n && !Superseded(log, latest[p])
  {
    if n == 0 then [] else Latest(log, n - 1) + if Superseded(log, n - 1) then [] else [n - 1]
  }

  /** The page holds the events of the log that are not superseded, without the first k of them. */
  ghost predicate HoldsFrom(log: seq<Event>, page: seq<Event>, k: nat) {
    var latest := Latest(log, |log|);
    k + |page| == |latest| && forall p :: 0 <= p < |page| ==> page[p] == log[latest[k + p]]
  }

  /** The most recent events of the log that are not superseded, and at least one. */
  ghost predicate Recent(log: seq<Event>, page: seq<Event>) {
    (page == [] ==> log == []) && exists k: nat :: HoldsFrom(log, page, k)
  }

  /**
   * The events a page may hold: the next ones of the log, as many as fit, or in a windowed stream that starts
   * afresh, the most recent events.
   */
  ghost predicate PageOk(window: bool, start: nat, log: seq<Event>, page: seq<Event>) {
    if window && start == 0 then Recent(log, page)
    else page <= After(log, start) && (page == [] ==> After(log, start) == [])
  }

  /** A page: under which history, how much of the log the server had, and whether metadata goes with it. */
  datatype Page = Page(history: History, known: nat, events: seq<Event>, metadata: bool)

  ghost predicate Readable(logs: Logs, window: bool, s: Subscription, p: Page) {
    && p.history in logs && p.known <= |logs[p.history]|
    && PageOk(window, Start(s, p.history, logs[p.history][..p.known]), logs[p.history][..p.known], p.events)
    && (s.run != Some(p.history.run) ==> p.metadata)
  }

  function Reached(s: Subscription, log: seq<Event>, p: Page): nat {
    if p.events == [] then Start(s, p.history, log) else LastId(p.events)
  }

  function Texts0(s: Subscription, log: seq<Event>, p: Page): map<string, string> {
    if Resets(s, p.history, log) then map[] else s.texts
  }

  function BatchOf(s: Subscription, log: seq<Event>, p: Page): Batch {
    Batch(Encode(Texts0(s, log, p), p.events), Resets(s, p.history, log), Reached(s, log, p) < LastId(log),
          Some(p.history), if p.metadata then Some(p.history.run) else None)
  }

  function Sent(s: Subscription, log: seq<Event>, p: Page): Subscription {
    Subscription(Reached(s, log, p), Some(p.history), Known(Texts0(s, log, p), p.events), Some(p.history.run))
  }

  // ----- Runs -----

  /** What the rows started from: nothing, a window of recent events, or rows kept from an earlier visit. */
  datatype Origin = Nothing | Window(page: seq<Event>) | Cache(rows: seq<Event>)

  /** `origin`, `from` and `at` only record how the view came about: log[from..at] was folded onto the origin. */
  datatype World = World(client: Client, subscription: Subscription, origin: Origin, from: nat, at: nat)

  datatype Action =
    | Connect
    | Drop
    | Deliver(page: Page)
    | Unreadable
    | Mangled(batch: Batch, id: nat)

  /** A mangled batch is one the view refuses. */
  ghost predicate Enabled(logs: Logs, window: bool, w: World, a: Action) {
    Valid(w.client.view.feed) &&
    match a
    case Connect => true
    case Drop => true
    case Deliver(p) => w.client.open && Readable(logs, window, w.subscription, p)
    case Unreadable => w.client.open
    case Mangled(b, id) =>
      w.client.open && b.history.Some? &&
      !Accept(w.client.view, if w.client.resetConsumer then b.(reset := true) else b, id).1
  }

  function Apply(logs: Logs, window: bool, w: World, a: Action): World
    requires Valid(w.client.view.feed)
    requires a.Deliver? ==> a.page.history in logs && a.page.known <= |logs[a.page.history]|
  {
    match a
    case Connect =>
      w.(client := w.client.(open := true),
         subscription := Subscription(w.client.cursor, w.client.history, map[], None))
    case Drop => w.(client := w.client.(open := false))
    case Deliver(p) => Delivered(logs, window, w, p)
    case Unreadable => w.(client := OnBatch(w.client, None, None))
    case Mangled(b, id) => w.(client := OnBatch(w.client, Some(b), Some(id)))
  }

  function Delivered(logs: Logs, window: bool, w: World, p: Page): World
    requires Valid(w.client.view.feed) && p.history in logs && p.known <= |logs[p.history]|
  {
    var log := logs[p.history][..p.known];
    var s := w.subscription;
    var afresh := Start(s, p.history, log) == 0;
    World(OnBatch(w.client, Some(BatchOf(s, log, p)), Some(Reached(s, log, p))), Sent(s, log, p),
          NextOrigin(window, w, p, afresh), NextFrom(window, w, p, afresh), NextAt(window, w, p, afresh))
  }

  function NextOrigin(window: bool, w: World, p: Page, afresh: bool): Origin {
    if !afresh then w.origin else if window then Window(p.events) else Nothing
  }

  function NextFrom(window: bool, w: World, p: Page, afresh: bool): nat {
    if !afresh then w.from else if window then p.known else 0
  }

  function NextAt(window: bool, w: World, p: Page, afresh: bool): nat {
    if !afresh then w.at + |p.events| else if window then p.known else |p.events|
  }

  /** The rows a view starts from, restored from the cache if there is one. */
  ghost function Base(origin: Origin, cursor: nat): (f: Feed)
    ensures Valid(f)
  {
    match origin
    case Nothing => EMPTY
    case Window(page) => Fold(page)
    case Cache(rows) => Restored(rows, cursor)
  }

  function Restored(rows: seq<Event>, cursor: nat): (f: Feed)
    ensures Valid(f)
  {
    Feed(cursor, rows, RestoredMap(rows, |rows|))
  }

  /** The message map `restore` builds from the first n rows. */
  function RestoredMap(rows: seq<Event>, n: nat): (messages: map<string, nat>)
    requires n <= |rows|
    ensures forall item :: item in messages ==>
              messages[item] < n && rows[messages[item]].message.Some?
              && rows[messages[item]].message.value.item == item
  {
    if n == 0 then map[]
    else
      var row := rows[n - 1];
      var messages := if row.starts then map[] else RestoredMap(rows, n - 1);
      if row.message.Some? then messages[row.message.value.item := n - 1] else messages
  }

  const NO_VIEW := View(EMPTY, None, None, 0, false, [])
  const IDLE := Subscription(0, None, map[], None)

  /** A visit starts empty, or from rows cached at some event of a history's log. */
  ghost predicate Init(logs: Logs, w: World) {
    !w.client.open && !w.client.resetConsumer &&
    if w.origin.Cache? then
      var rows := w.origin.rows;
      && w.client.history.Some? && w.client.history.value in logs && w.from == w.at
      && w.at <= |logs[w.client.history.value]| && w.client.cursor == LastId(logs[w.client.history.value][..w.at])
      && (w.client.cursor == 0 ==> rows == [])
      && w.client.view == View(Restored(rows, w.client.cursor), w.client.history, Some(w.client.history.value.run),
                               w.client.cursor, true, rows)
    else
      w.origin.Nothing? && w.from == w.at == 0 && w.client == Client(0, None, false, false, NO_VIEW)
  }

  ghost predicate Runs(logs: Logs, window: bool, w: World, run: seq<Action>)
    decreases |run|
  {
    run == [] || (Enabled(logs, window, w, run[0]) && Runs(logs, window, Apply(logs, window, w, run[0]), run[1..]))
  }

  ghost function End(logs: Logs, window: bool, w: World, run: seq<Action>): World
    requires Runs(logs, window, w, run)
    decreases |run|
  {
    if run == [] then w else End(logs, window, Apply(logs, window, w, run[0]), run[1..])
  }

  ghost predicate Reachable(logs: Logs, window: bool, w: World) {
    exists start, run :: Init(logs, start) && Runs(logs, window, start, run) && End(logs, window, start, run) == w
  }
}
