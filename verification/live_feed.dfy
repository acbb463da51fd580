/**
 * Folding a run's event log into rows (apps/web/src/live-events.ts), and the text compression the server
 * applies on the wire (crates/installation/src/live_text.rs). A run streams many snapshots of the same agent
 * message; the rows keep one entry per message and turn, where it first appeared, with its latest text.
 */
module LiveFeed {
  import opened Common

  /** An agent message with an id: the `item` of a payload. */
  datatype Snapshot = Snapshot(item: string, text: string)

  /** `starts` marks an event of type `turn.started`; `content` is everything else the event carries. */
  datatype Event = Event(id: nat, createdAt: int, starts: bool, message: Option<Snapshot>, content: nat)

  /** An event as sent: with a delta, the snapshot's text is left out. */
  datatype Wire = Wire(event: Event, delta: Option<string>)

  /** The accumulator with the rows it maintains. */
  datatype Feed = Feed(cursor: nat, rows: seq<Event>, messages: map<string, nat>)

  const EMPTY := Feed(0, [], map[])

  /** Every entry of the message map points at a row of that message. */
  ghost predicate Valid(f: Feed) {
    forall item :: item in f.messages ==>
      f.messages[item] < |f.rows| && f.rows[f.messages[item]].message.Some?
      && f.rows[f.messages[item]].message.value.item == item
  }

  // ----- One event -----

  function Current(f: Feed, e: Event): map<string, nat> {
    if e.starts then map[] else f.messages
  }

  /** What the rows become with one more event of the log. */
  function Step(f: Feed, e: Event): (g: Feed)
    requires Valid(f)
    ensures Valid(g)
  {
    var messages := Current(f, e);
    if e.message.None? then
      Feed(e.id, f.rows + [e], messages)
    else if e.message.value.item in messages then
      var i := messages[e.message.value.item];
      Feed(e.id, f.rows[i := e.(createdAt := f.rows[i].createdAt)], messages)
    else
      Feed(e.id, f.rows + [e], messages[e.message.value.item := |f.rows|])
  }

  function Extend(f: Feed, events: seq<Event>): (g: Feed)
    requires Valid(f)
    ensures Valid(g)
  {
    if events == [] then f else Step(Extend(f, events[..|events| - 1]), events[|events| - 1])
  }

  function Fold(log: seq<Event>): (g: Feed)
    ensures Valid(g)
  {
    Extend(EMPTY, log)
  }

  lemma {:induction false} ExtendSplit(f: Feed, a: seq<Event>, b: seq<Event>)
    requires Valid(f)
    ensures Extend(f, a + b) == Extend(Extend(f, a), b)
    decreases |b|
  {
    if b == [] {
      assert a + b == a;
    } else {
      var n := |b| - 1;
      assert (a + b)[..|a + b| - 1] == a + b[..n];
      ExtendSplit(f, a, b[..n]);
    }
  }

  // ----- The wire -----

  function Encode1(texts: map<string, string>, e: Event): Wire {
    var known := if e.starts then map[] else texts;
    if e.message.Some? && e.message.value.item in known && known[e.message.value.item] <= e.message.value.text then
      Wire(e.(message := Some(Snapshot(e.message.value.item, ""))),
           Some(e.message.value.text[|known[e.message.value.item]|..]))
    else
      Wire(e, None)
  }

  function Remember(texts: map<string, string>, e: Event): map<string, string> {
    var known := if e.starts then map[] else texts;
    if e.message.Some? then known[e.message.value.item := e.message.value.text] else known
  }

  function Encode(texts: map<string, string>, events: seq<Event>): (wire: seq<Wire>)
    ensures |wire| == |events|
  {
    if events == [] then []
    else
      var n := |events| - 1;
      Encode(texts, events[..n]) + [Encode1(Known(texts, events[..n]), events[n])]
  }

  /** The snapshots the encoder remembers after a batch. */
  function Known(texts: map<string, string>, events: seq<Event>): map<string, string> {
    if events == [] then texts else Remember(Known(texts, events[..|events| - 1]), events[|events| - 1])
  }

  /** Receiving one event: repeated events are skipped, and a delta without its baseline is an error. */
  function Receive(f: Feed, w: Wire): (g: Option<Feed>)
    requires Valid(f)
    ensures g.Some? ==> Valid(g.value)
  {
    var e := w.event;
    if e.id <= f.cursor then Some(f)
    else if e.message.None? || w.delta.None? then Some(Step(f, e))
    else if e.message.value.item !in Current(f, e) then None
    else
      var text := f.rows[Current(f, e)[e.message.value.item]].message.value.text + w.delta.value;
      Some(Step(f, e.(message := Some(Snapshot(e.message.value.item, text)))))
  }

  function Append(f: Feed, wire: seq<Wire>): (g: Option<Feed>)
    requires Valid(f)
    ensures g.Some? ==> Valid(g.value)
  {
    if wire == [] then Some(f)
    else
      var g := Append(f, wire[..|wire| - 1]);
      if g.None? then None else Receive(g.value, wire[|wire| - 1])
  }

  /** The client holds every snapshot the encoder may refer to. */
  ghost predicate Baselines(texts: map<string, string>, f: Feed)
    requires Valid(f)
  {
    forall item :: item in texts ==>
      item in f.messages && f.rows[f.messages[item]].message.value.text == texts[item]
  }

  ghost predicate Increasing(events: seq<Event>) {
    forall i, j :: 0 <= i < j < |events| ==> events[i].id < events[j].id
  }

  /** The events come after the cursor, in order. */
  ghost predicate Fresh(cursor: nat, events: seq<Event>) {
    Increasing(events) && forall i :: 0 <= i < |events| ==> cursor < events[i].id
  }

  lemma ReceivesOne(texts: map<string, string>, f: Feed, e: Event)
    requires Valid(f) && Baselines(texts, f) && f.cursor < e.id
    ensures Receive(f, Encode1(texts, e)) == Some(Step(f, e))
    ensures Baselines(Remember(texts, e), Step(f, e))
  {
    var known := if e.starts then map[] else texts;
    if e.message.Some? && e.message.value.item in known && known[e.message.value.item] <= e.message.value.text {
      var before := known[e.message.value.item];
      assert before + e.message.value.text[|before|..] == e.message.value.text;
      assert e.(message := Some(Snapshot(e.message.value.item, ""))).(message := e.message) == e;
    }
  }

  lemma {:induction false} CursorOf(f: Feed, events: seq<Event>)
    requires Valid(f)
    ensures Extend(f, events).cursor == if events == [] then f.cursor else events[|events| - 1].id
  {
  }

  /** Compression is transparent: receiving the encoded events folds the original ones. */
  lemma {:induction false} WireIsTransparent(texts: map<string, string>, f: Feed, events: seq<Event>)
    requires Valid(f) && Baselines(texts, f) && Fresh(f.cursor, events)
    ensures Append(f, Encode(texts, events)) == Some(Extend(f, events))
    ensures Baselines(Known(texts, events), Extend(f, events))
    decreases |events|
  {
    if events != [] {
      var n := |events| - 1;
      var early, last := events[..n], events[n];
      WireIsTransparent(texts, f, early);
      CursorOf(f, early);
      ReceivesOne(Known(texts, early), Extend(f, early), last);
      var wire := Encode(texts, events);
      assert wire[..|wire| - 1] == Encode(texts, early);
    }
  }

  // ----- Replaying what is already there -----

  /** The latest text of each message of the current turn. */
  function Texts(log: seq<Event>): map<string, string> {
    Known(map[], log)
  }

  /** Whatever the client's map holds carries the latest text of the log so far. */
  ghost predicate UpToDate(f: Feed, texts: map<string, string>)
    requires Valid(f)
  {
    forall item :: item in f.messages ==>
      item in texts && f.rows[f.messages[item]].message.value.text == texts[item]
  }

  ghost predicate Agrees(known: map<string, string>, texts: map<string, string>) {
    forall item :: item in known ==> item in texts && known[item] == texts[item]
  }

  lemma StepStaysUpToDate(f: Feed, texts: map<string, string>, e: Event)
    requires Valid(f) && UpToDate(f, texts)
    ensures UpToDate(Step(f, e), Remember(texts, e))
  {
  }

  /** A new event, with a delta against any text of the log, is folded exactly or refused. */
  lemma ReceivesOrRefuses(known: map<string, string>, texts: map<string, string>, f: Feed, e: Event)
    requires Valid(f) && UpToDate(f, texts) && Agrees(known, texts) && f.cursor < e.id
    ensures Receive(f, Encode1(known, e)).None? || Receive(f, Encode1(known, e)) == Some(Step(f, e))
  {
    var latest := if e.starts then map[] else known;
    if e.message.Some? && e.message.value.item in latest && latest[e.message.value.item] <= e.message.value.text {
      var before := latest[e.message.value.item];
      assert before + e.message.value.text[|before|..] == e.message.value.text;
      assert e.(message := Some(Snapshot(e.message.value.item, ""))).(message := e.message) == e;
    }
  }

  lemma {:induction false} KnownAgrees(log: seq<Event>, j: nat, m: nat)
    requires j <= m <= |log|
    ensures Agrees(Known(map[], log[j..m]), Texts(log[..m]))
    decreases m
  {
    if j < m {
      KnownAgrees(log, j, m - 1);
      assert log[j..m][..m - j - 1] == log[j..m - 1] && log[..m][..m - 1] == log[..m - 1];
      assert log[j..m][m - j - 1] == log[m - 1] && log[..m][m - 1] == log[m - 1];
    }
  }

  lemma {:induction false} ExtendSnoc(log: seq<Event>, f: Feed, k: nat, p: nat)
    requires Valid(f) && k <= p < |log|
    ensures Extend(f, log[k..p + 1]) == Step(Extend(f, log[k..p]), log[p])
  {
    assert log[k..p + 1][..p - k] == log[k..p] && log[k..p + 1][p - k] == log[p];
  }

  lemma {:induction false} TextsSnoc(log: seq<Event>, n: nat)
    requires n < |log|
    ensures Texts(log[..n + 1]) == Remember(Texts(log[..n]), log[n])
  {
    assert log[..n + 1][..n] == log[..n] && log[..n + 1][n] == log[n];
  }

  lemma {:induction false} ExtendStaysUpToDate(f: Feed, log: seq<Event>, k: nat, m: nat)
    requires Valid(f) && k <= m <= |log| && UpToDate(f, Texts(log[..k]))
    ensures UpToDate(Extend(f, log[k..m]), Texts(log[..m]))
    decreases m
  {
    if k == m {
      assert log[k..m] == [];
    } else {
      var n := m - 1;
      ExtendStaysUpToDate(f, log, k, n);
      ExtendSnoc(log, f, k, n);
      TextsSnoc(log, n);
      StepStaysUpToDate(Extend(f, log[k..n]), Texts(log[..n]), log[n]);
      assert n + 1 == m;
    }
  }

  /** The feed stands just after event k of the log. */
  ghost predicate At(log: seq<Event>, f: Feed, k: nat)
    requires k <= |log|
  {
    && Increasing(log) && Valid(f) && UpToDate(f, Texts(log[..k]))
    && (k > 0 ==> f.cursor == log[k - 1].id)
    && (k == 0 && |log| > 0 ==> f.cursor < log[0].id)
  }

  lemma {:induction false} AdvancesTo(log: seq<Event>, f: Feed, k: nat, p: nat)
    requires k <= p <= |log| && At(log, f, k)
    ensures At(log, Extend(f, log[k..p]), p)
  {
    CursorOf(f, log[k..p]);
    assert p > k ==> log[k..p][p - k - 1] == log[p - 1];
    ExtendStaysUpToDate(f, log, k, p);
  }

  lemma {:induction false} ReceivesTheNext(log: seq<Event>, g: Feed, j: nat, p: nat)
    requires j <= p < |log| && At(log, g, p)
    ensures var next := Receive(g, Encode1(Known(map[], log[j..p]), log[p])); next.None? || next == Some(Step(g, log[p]))
  {
    KnownAgrees(log, j, p);
    ReceivesOrRefuses(Known(map[], log[j..p]), Texts(log[..p]), g, log[p]);
  }

  lemma {:induction false} EncodeSnoc(log: seq<Event>, f: Feed, j: nat, p: nat)
    requires Valid(f) && j <= p < |log|
    ensures var before := Append(f, Encode(map[], log[j..p]));
            Append(f, Encode(map[], log[j..p + 1])) ==
            if before.None? then None else Receive(before.value, Encode1(Known(map[], log[j..p]), log[p]))
  {
    var wire := Encode(map[], log[j..p + 1]);
    assert log[j..p + 1][..p - j] == log[j..p] && log[j..p + 1][p - j] == log[p];
    assert wire[..|wire| - 1] == Encode(map[], log[j..p]);
  }

  /** Events the client already has change nothing. */
  lemma {:induction false} ReplaySkips(log: seq<Event>, f: Feed, j: nat, m: nat)
    requires j <= m <= |log| && Valid(f) && forall i :: j <= i < m ==> log[i].id <= f.cursor
    ensures Append(f, Encode(map[], log[j..m])) == Some(f)
    decreases m
  {
    if j < m {
      ReplaySkips(log, f, j, m - 1);
      EncodeSnoc(log, f, j, m - 1);
    }
  }

  /** What one more event makes of a batch folded or refused so far. */
  lemma {:induction false} ReplayGoesOn(log: seq<Event>, f: Feed, j: nat, k: nat, p: nat)
    requires j <= k <= p < |log| && At(log, f, k)
    requires Append(f, Encode(map[], log[j..p])) == Some(Extend(f, log[k..p]))
    ensures var next := Append(f, Encode(map[], log[j..p + 1])); next.None? || next == Some(Extend(f, log[k..p + 1]))
  {
    EncodeSnoc(log, f, j, p);
    AdvancesTo(log, f, k, p);
    ReceivesTheNext(log, Extend(f, log[k..p]), j, p);
    ExtendSnoc(log, f, k, p);
  }

  /**
   * A connection opened at event j sends log[j..m] to a client that has already folded log[..k], k >= j, and
   * may have dropped rows since: the client refuses the batch or ends up exactly at event m, with nothing
   * repeated.
   */
  lemma {:induction false} ReplayIsHarmless(log: seq<Event>, f: Feed, j: nat, k: nat, m: nat)
    requires j <= k <= m <= |log| && At(log, f, k)
    ensures var next := Append(f, Encode(map[], log[j..m])); next.None? || next == Some(Extend(f, log[k..m]))
    decreases m
  {
    if k == m {
      ReplaySkips(log, f, j, m);
    } else {
      ReplayIsHarmless(log, f, j, k, m - 1);
      EncodeSnoc(log, f, j, m - 1);
      if Append(f, Encode(map[], log[j..m - 1])).Some? {
        ReplayGoesOn(log, f, j, k, m - 1);
      }
    }
  }
}
