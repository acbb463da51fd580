/**
 * One Claude Code turn (crates/installation/src/claude_process.rs): which submitted messages it has delivered,
 * which background tasks keep it open, and when it may complete. A step is one line of the CLI's output or one
 * poll of the inbox.
 */
module ClaudeTurn {
  import opened Common

  /** The part of `Turn` that decides delivery and completion. */
  datatype Turn = Turn(
    initialId: string, wireId: string,
    submitted: set<string>, delivered: set<string>, pending: set<string>, consumed: set<string>,
    questions: set<string>, last: string, lastId: string,
    background: map<string, string>, awaiting: set<string>, replayed: bool, waiting: bool
  )

  datatype Task = Task(id: string, description: string, ambient: bool)
  datatype Message = Message(id: string, questionId: string)

  /** The user messages a result names. */
  datatype Named = All(ids: set<string>) | One(id: string) | Unnamed

  /** A line of output. `broken` marks a shell tool that could not start. */
  datatype Line =
    | Listing(tasks: seq<Task>)
    | User(uuid: string, notification: bool, broken: bool)
    | Assistant(reply: Option<(string, string)>)
    | MessageStart
    | Ask(question: string)
    | Result(success: bool, text: string, named: Named, notification: bool)
    | Ignored

  datatype Action = Handle(line: Line) | Poll(messages: seq<Message>)

  datatype Outcome = Running(turn: Turn) | Completed(turn: Turn) | Failed

  /** A resumed session gives the request a fresh wire id. */
  function Begin(initialId: string, wireId: string): Turn {
    Turn(initialId, wireId, {initialId}, {}, {initialId}, {}, {}, "", initialId + "-result", map[], {}, false, false)
  }

  function ChatId(t: Turn, id: string): string {
    if id == t.wireId then t.initialId else id
  }

  // ----- The inbox -----

  function Submit(t: Turn, m: Message): Turn {
    if m.id in t.submitted then t
    else if m.questionId in t.questions then
      t.(questions := t.questions - {m.questionId}, submitted := t.submitted + {m.id}, delivered := t.delivered + {m.id})
    else
      t.(submitted := t.submitted + {m.id}, pending := t.pending + {m.id}, waiting := false)
  }

  function SubmitAll(t: Turn, messages: seq<Message>): Turn {
    if messages == [] then t
    else Submit(SubmitAll(t, messages[..|messages| - 1]), messages[|messages| - 1])
  }

  // ----- Background tasks -----

  function Owned(tasks: seq<Task>): map<string, string> {
    if tasks == [] then map[]
    else
      var n := |tasks| - 1;
      if tasks[n].ambient then Owned(tasks[..n]) else Owned(tasks[..n])[tasks[n].id := tasks[n].description]
  }

  function Ambient(tasks: seq<Task>): set<string> {
    set i | 0 <= i < |tasks| && tasks[i].ambient :: tasks[i].id
  }

  function OnListing(t: Turn, tasks: seq<Task>): Turn {
    var background := Owned(tasks);
    t.(background := background,
       awaiting := t.awaiting + background.Keys - Ambient(tasks),
       waiting := if t.waiting && background != t.background then background != map[] else t.waiting)
  }

  // ----- Users and results -----

  function OnUser(t: Turn, uuid: string, notification: bool): Turn {
    var id := ChatId(t, uuid);
    var heard := if id in t.submitted then t.(consumed := t.consumed + {id}, delivered := t.delivered + {id}) else t;
    heard.(replayed := t.replayed || notification)
  }

  function ChatIds(t: Turn, ids: set<string>): set<string> {
    set id | id in ids :: ChatId(t, id)
  }

  /** The messages a result settles. */
  function Settled(t: Turn, named: Named, notification: bool): set<string> {
    match named
    case All(ids) => ids
    case One(id) => {id}
    case Unnamed => if notification then {} else t.consumed
  }

  /** What a result settles and releases. */
  function Absorb(t: Turn, text: string, named: Named, notification: bool): Turn {
    var settled := ChatIds(t, Settled(t, named, notification)) * t.pending;
    var pending := t.pending - settled;
    t.(last := if text == "" then t.last else text, pending := pending,
       delivered := t.delivered + settled, consumed := t.consumed * pending,
       awaiting := if t.replayed || notification then t.awaiting * t.background.Keys else t.awaiting,
       replayed := false)
  }

  function OnResult(t: Turn, text: string, named: Named, notification: bool): Outcome {
    var next := Absorb(t, text, named, notification);
    if next.pending != {} || next.background != map[] || next.awaiting != {} then
      Running(if next.pending == {} && next.background != map[] then next.(waiting := true) else next)
    else
      Completed(next)
  }

  function Step(t: Turn, a: Action): Outcome {
    match a
    case Poll(messages) => Running(SubmitAll(t, messages))
    case Handle(Listing(tasks)) => Running(OnListing(t, tasks))
    case Handle(User(uuid, notification, broken)) => if broken then Failed else Running(OnUser(t, uuid, notification))
    case Handle(Assistant(reply)) =>
      var heard := t.(waiting := false);
      Running(if reply.Some? then heard.(last := reply.value.0, lastId := reply.value.1) else heard)
    case Handle(MessageStart) => Running(t.(waiting := false))
    case Handle(Ask(question)) => Running(t.(questions := t.questions + {question}))
    case Handle(Result(success, text, named, notification)) =>
      if success then OnResult(t, text, named, notification) else Failed
    case Handle(Ignored) => Running(t)
  }

  /** The state after a run that is still going. */
  function After(t: Turn, run: seq<Action>): Outcome {
    if run == [] then Running(t)
    else
      var before := After(t, run[..|run| - 1]);
      if before.Running? then Step(before.turn, run[|run| - 1]) else before
  }

  // ----- Delivery -----

  /** Every submitted message is pending or delivered, and nothing else is. */
  ghost predicate Accounted(t: Turn) {
    && t.initialId in t.submitted
    && t.submitted == t.pending + t.delivered
    && t.consumed <= t.delivered
  }

  /** The agent only waits for background tasks when nothing is pending and some task is listed. */
  ghost predicate WaitsRightly(t: Turn) {
    t.waiting ==> t.pending == {} && t.background != map[]
  }

  ghost predicate Ok(o: Outcome) {
    !o.Failed? ==> Accounted(o.turn) && WaitsRightly(o.turn)
  }

  lemma {:induction false} SubmitAllKeeps(t: Turn, messages: seq<Message>)
    requires Accounted(t) && WaitsRightly(t)
    ensures Accounted(SubmitAll(t, messages)) && WaitsRightly(SubmitAll(t, messages))
    ensures SubmitAll(t, messages).background == t.background && SubmitAll(t, messages).awaiting == t.awaiting
    ensures SubmitAll(t, messages).replayed == t.replayed && SubmitAll(t, messages).initialId == t.initialId
  {
    if messages != [] {
      var n := |messages| - 1;
      SubmitAllKeeps(t, messages[..n]);
      var before := SubmitAll(t, messages[..n]);
      assert Accounted(Submit(before, messages[n]));
    }
  }

  lemma StepKeeps(t: Turn, a: Action)
    requires Accounted(t) && WaitsRightly(t)
    ensures Ok(Step(t, a)) && (!Step(t, a).Failed? ==> Step(t, a).turn.initialId == t.initialId)
  {
    match a {
      case Poll(messages) => SubmitAllKeeps(t, messages);
      case Handle(Result(success, text, named, notification)) =>
        assert success ==> Accounted(OnResult(t, text, named, notification).turn);
      case Handle(_) =>
    }
  }

  lemma {:induction false} EveryRunKeeps(initialId: string, wireId: string, run: seq<Action>)
    ensures Ok(After(Begin(initialId, wireId), run))
    ensures var o := After(Begin(initialId, wireId), run); !o.Failed? ==> o.turn.initialId == initialId
    decreases |run|
  {
    if run != [] {
      EveryRunKeeps(initialId, wireId, run[..|run| - 1]);
      var before := After(Begin(initialId, wireId), run[..|run| - 1]);
      if before.Running? { StepKeeps(before.turn, run[|run| - 1]); }
    }
  }

  lemma {:induction false} CompletionIsSettled(t: Turn, run: seq<Action>)
    requires After(t, run).Completed?
    ensures var c := After(t, run).turn; c.pending == {} && c.background == map[] && c.awaiting == {}
    decreases |run|
  {
    if run != [] {
      var before := After(t, run[..|run| - 1]);
      if before.Completed? { CompletionIsSettled(t, run[..|run| - 1]); }
    }
  }

  /** A turn completes only once every message ever submitted to it has been delivered. */
  lemma CompletionDeliversEverything(initialId: string, wireId: string, run: seq<Action>)
    requires After(Begin(initialId, wireId), run).Completed?
    ensures var t := After(Begin(initialId, wireId), run).turn;
            t.delivered == t.submitted && t.pending == {} && initialId in t.delivered
  {
    EveryRunKeeps(initialId, wireId, run);
    CompletionIsSettled(Begin(initialId, wireId), run);
  }

  /** In every state, an agent said to wait for background tasks has nothing pending and a task listed. */
  lemma WaitingMeansWaiting(initialId: string, wireId: string, run: seq<Action>)
    requires After(Begin(initialId, wireId), run).Running? && After(Begin(initialId, wireId), run).turn.waiting
    ensures var t := After(Begin(initialId, wireId), run).turn; t.pending == {} && t.background != map[]
  {
    EveryRunKeeps(initialId, wireId, run);
  }

  // ----- Background tasks, read off the whole run -----

  ghost predicate IsListing(a: Action) { a.Handle? && a.line.Listing? }
  ghost predicate IsResult(a: Action) { a.Handle? && a.line.Result? }

  /** A listing reports a background task as one of its own. */
  ghost predicate Reports(a: Action, id: string) {
    IsListing(a) && exists i :: 0 <= i < |a.line.tasks| && a.line.tasks[i].id == id && !a.line.tasks[i].ambient
  }

  ghost predicate ReportsAmbient(a: Action, id: string) {
    IsListing(a) && exists i :: 0 <= i < |a.line.tasks| && a.line.tasks[i].id == id && a.line.tasks[i].ambient
  }

  /** The last listing among the first n steps reports this background task. */
  ghost predicate Listed(run: seq<Action>, n: nat, id: string)
    requires n <= |run|
  {
    exists i :: 0 <= i < n && Reports(run[i], id) && forall k :: i < k < n ==> !IsListing(run[k])
  }

  /** A user line since the last result carried a task notification. */
  ghost predicate Notified(run: seq<Action>, n: nat)
    requires n <= |run|
  {
    exists i :: 0 <= i < n && run[i].Handle? && run[i].line.User? && run[i].line.notification
                && forall k :: i < k < n ==> !IsResult(run[k])
  }

  /** Step j lets the run stop waiting for a task: it turns ambient, or a notification's result finds it gone. */
  ghost predicate Releases(run: seq<Action>, j: nat, id: string)
    requires j < |run|
  {
    || ReportsAmbient(run[j], id)
    || (IsResult(run[j]) && (run[j].line.notification || Notified(run, j)) && !Listed(run, j, id))
  }

  /** It was reported and nothing has released it since. */
  ghost predicate Awaited(run: seq<Action>, n: nat, id: string)
    requires n <= |run|
  {
    exists i :: 0 <= i < n && Reports(run[i], id) && forall j :: i <= j < n ==> !Releases(run, j, id)
  }

  lemma {:induction false} OwnedIffReported(tasks: seq<Task>, id: string)
    ensures id in Owned(tasks) <==> exists i :: 0 <= i < |tasks| && tasks[i].id == id && !tasks[i].ambient
  {
    if tasks != [] {
      var n := |tasks| - 1;
      OwnedIffReported(tasks[..n], id);
      assert forall i :: 0 <= i < n ==> tasks[..n][i] == tasks[i];
      if id in Owned(tasks) && id in Owned(tasks[..n]) {
        var i :| 0 <= i < n && tasks[..n][i].id == id && !tasks[..n][i].ambient;
        assert tasks[i].id == id;
      }
    }
  }

  /** The fields say exactly what the run so far says. */
  ghost predicate Tracks(t: Turn, run: seq<Action>, n: nat)
    requires n <= |run|
  {
    && (forall id :: id in t.background <==> Listed(run, n, id))
    && (forall id :: id in t.awaiting <==> Awaited(run, n, id))
    && (t.replayed <==> Notified(run, n))
  }

  lemma ListedNext(run: seq<Action>, n: nat, id: string)
    requires n < |run|
    ensures Listed(run, n + 1, id) <==> if IsListing(run[n]) then Reports(run[n], id) else Listed(run, n, id)
  {
    if IsListing(run[n]) {
    } else if Listed(run, n, id) {
      var i :| 0 <= i < n && Reports(run[i], id) && forall k :: i < k < n ==> !IsListing(run[k]);
      assert Reports(run[i], id) && forall k :: i < k < n + 1 ==> !IsListing(run[k]);
    }
  }

  lemma NotifiedNext(run: seq<Action>, n: nat)
    requires n < |run|
    ensures Notified(run, n + 1) <==>
            !IsResult(run[n]) && (Notified(run, n) || (run[n].Handle? && run[n].line.User? && run[n].line.notification))
  {
    if !IsResult(run[n]) && Notified(run, n) {
      var i :| 0 <= i < n && run[i].Handle? && run[i].line.User? && run[i].line.notification
               && forall k :: i < k < n ==> !IsResult(run[k]);
      assert run[i].Handle? && forall k :: i < k < n + 1 ==> !IsResult(run[k]);
    }
  }

  lemma AwaitedNext(run: seq<Action>, n: nat, id: string)
    requires n < |run|
    ensures Awaited(run, n + 1, id) <==> !Releases(run, n, id) && (Awaited(run, n, id) || Reports(run[n], id))
  {
    if !Releases(run, n, id) && Awaited(run, n, id) {
      var i :| 0 <= i < n && Reports(run[i], id) && forall j :: i <= j < n ==> !Releases(run, j, id);
      assert Reports(run[i], id) && forall j :: i <= j < n + 1 ==> !Releases(run, j, id);
    }
  }

  lemma BackgroundNext(t: Turn, run: seq<Action>, n: nat, next: Turn)
    requires n < |run| && Tracks(t, run, n) && Accounted(t) && WaitsRightly(t)
    requires !Step(t, run[n]).Failed? && next == Step(t, run[n]).turn
    ensures forall id :: id in next.background <==> Listed(run, n + 1, id)
  {
    if run[n].Poll? { SubmitAllKeeps(t, run[n].messages); }
    forall id ensures id in next.background <==> Listed(run, n + 1, id) {
      ListedNext(run, n, id);
      if IsListing(run[n]) { OwnedIffReported(run[n].line.tasks, id); }
    }
  }

  function NextAwaiting(t: Turn, a: Action): set<string> {
    if a.Poll? then t.awaiting
    else if a.line.Listing? then t.awaiting + Owned(a.line.tasks).Keys - Ambient(a.line.tasks)
    else if a.line.Result? && (t.replayed || a.line.notification) then t.awaiting * t.background.Keys
    else t.awaiting
  }

  lemma StepAwaiting(t: Turn, a: Action)
    requires Accounted(t) && WaitsRightly(t) && !Step(t, a).Failed?
    ensures Step(t, a).turn.awaiting == NextAwaiting(t, a)
  {
    if a.Poll? { SubmitAllKeeps(t, a.messages); }
  }

  lemma AwaitingNext(t: Turn, run: seq<Action>, n: nat, id: string)
    requires n < |run| && Tracks(t, run, n)
    ensures id in NextAwaiting(t, run[n]) <==> Awaited(run, n + 1, id)
  {
    AwaitedNext(run, n, id);
    if IsListing(run[n]) {
      OwnedIffReported(run[n].line.tasks, id);
      assert id in Ambient(run[n].line.tasks) <==> ReportsAmbient(run[n], id);
    }
  }

  /** The run goes on until its last step. */
  ghost predicate GoesOn(t: Turn, run: seq<Action>, n: nat)
    requires n <= |run|
  {
    !After(t, run[..n]).Failed? && (n > 0 ==> After(t, run[..n - 1]).Running?)
  }

  lemma {:induction false} RunTracks(initialId: string, wireId: string, run: seq<Action>, n: nat)
    requires n <= |run| && GoesOn(Begin(initialId, wireId), run, n)
    ensures Tracks(After(Begin(initialId, wireId), run[..n]).turn, run, n)
  {
    if n > 0 {
      var begin := Begin(initialId, wireId);
      assert run[..n][..n - 1] == run[..n - 1];
      assert n > 1 ==> run[..n - 1][..n - 2] == run[..n - 2];
      RunTracks(initialId, wireId, run, n - 1);
      EveryRunKeeps(initialId, wireId, run[..n - 1]);
      TracksNext(After(begin, run[..n - 1]).turn, run, n - 1, After(begin, run[..n]).turn);
    }
  }

  lemma TracksNext(t: Turn, run: seq<Action>, n: nat, next: Turn)
    requires n < |run| && Tracks(t, run, n) && Accounted(t) && WaitsRightly(t)
    requires !Step(t, run[n]).Failed? && next == Step(t, run[n]).turn
    ensures Tracks(next, run, n + 1)
  {
    BackgroundNext(t, run, n, next);
    StepAwaiting(t, run[n]);
    forall id ensures id in next.awaiting <==> Awaited(run, n + 1, id) { AwaitingNext(t, run, n, id); }
    NotifiedNext(run, n);
    if run[n].Poll? { SubmitAllKeeps(t, run[n].messages); }
  }

  /**
   * When a turn completes, no task is listed, and every task ever reported as the run's own has since been
   * reported ambient, or was off the list when the result of a task notification arrived.
   */
  lemma CompletionAwaitsTasks(initialId: string, wireId: string, run: seq<Action>)
    requires run != [] && After(Begin(initialId, wireId), run).Completed?
    requires After(Begin(initialId, wireId), run[..|run| - 1]).Running?
    ensures forall id :: !Listed(run, |run|, id)
    ensures forall i, id :: 0 <= i < |run| && Reports(run[i], id) ==> exists j :: i <= j < |run| && Releases(run, j, id)
  {
    assert run[..|run|] == run;
    RunTracks(initialId, wireId, run, |run|);
    CompletionIsSettled(Begin(initialId, wireId), run);
    forall i, id | 0 <= i < |run| && Reports(run[i], id) ensures exists j :: i <= j < |run| && Releases(run, j, id) {
      assert !Awaited(run, |run|, id);
    }
  }

  // ----- Receipts -----

  datatype Receipt = Receipt(messageId: Option<string>, delivered: seq<string>, text: Option<string>, itemId: Option<string>)

  /** `Receipt::read`: a receipt counts only for its own request, and only if that request was delivered. */
  predicate Accepts(receipt: Receipt, messageId: string) {
    receipt.messageId == Some(messageId) && messageId in receipt.delivered
  }

  /** The receipt a completed turn saves; the order of the ids is that of a hash set. */
  ghost predicate ReceiptOf(t: Turn, receipt: Receipt) {
    && receipt.messageId == Some(t.initialId) && receipt.text == Some(t.last) && receipt.itemId == Some(t.lastId)
    && (forall id :: id in receipt.delivered <==> id in t.delivered)
  }

  /** Every receipt a turn writes is accepted for its request. */
  lemma ReceiptsAreAccepted(initialId: string, wireId: string, run: seq<Action>, receipt: Receipt)
    requires After(Begin(initialId, wireId), run).Completed?
    requires ReceiptOf(After(Begin(initialId, wireId), run).turn, receipt)
    ensures Accepts(receipt, initialId)
    ensures forall id :: id in receipt.delivered <==> id in After(Begin(initialId, wireId), run).turn.submitted
  {
    CompletionDeliversEverything(initialId, wireId, run);
    EveryRunKeeps(initialId, wireId, run);
  }

  // ----- Crashes -----

  /** What survives a crash, and how often the CLI has been started for the request. */
  datatype Disk = Disk(receipt: Option<Receipt>, output: Option<string>, starts: nat)

  /** Where an execution stands. `told` are the deliveries it has reported. */
  datatype Phase =
    | Stopped
    | Working(turn: Turn)
    | Finishing(turn: Turn)
    | Saved(turn: Turn)
    | Replaying(receipt: Receipt, told: set<string>)
    | Replayed(receipt: Receipt, told: set<string>)
    | Finished(text: string, told: set<string>)

  datatype Event =
    | Start(wireId: string)
    | Act(action: Action)
    | SaveReceipt(receipt: Receipt)
    | WriteOutput
    | Report
    | Crash

  ghost predicate Possible(disk: Disk, phase: Phase, e: Event) {
    match e
    case Start(_) => phase.Stopped?
    case Act(_) => phase.Working?
    case SaveReceipt(receipt) => phase.Finishing? && ReceiptOf(phase.turn, receipt)
    case WriteOutput => phase.Saved? || phase.Replaying?
    case Report => phase.Replayed?
    case Crash => true
  }

  function Told(receipt: Receipt): set<string> {
    set id | id in receipt.delivered
  }

  function Body(receipt: Receipt): string {
    if receipt.text.Some? then receipt.text.value else ""
  }

  /** The next phase; a replay reports its deliveries first. */
  function NextPhase(request: string, disk: Disk, phase: Phase, e: Event): Phase {
    match e
    case Start(wireId) =>
      if disk.receipt.Some? && Accepts(disk.receipt.value, request) then Replaying(disk.receipt.value, Told(disk.receipt.value))
      else Working(Begin(request, wireId))
    case Act(action) =>
      if !phase.Working? then phase
      else
        (match Step(phase.turn, action)
         case Running(t) => Working(t)
         case Completed(t) => Finishing(t)
         case Failed => Stopped)
    case SaveReceipt(_) => if phase.Finishing? then Saved(phase.turn) else phase
    case WriteOutput =>
      if phase.Saved? then Finished(phase.turn.last, phase.turn.delivered)
      else if phase.Replaying? then Replayed(phase.receipt, phase.told)
      else phase
    case Report => if phase.Replayed? then Finished(Body(phase.receipt), phase.told) else phase
    case Crash => Stopped
  }

  function NextDisk(request: string, disk: Disk, phase: Phase, e: Event): Disk {
    match e
    case Start(_) =>
      if disk.receipt.Some? && Accepts(disk.receipt.value, request) then disk else disk.(starts := disk.starts + 1)
    case SaveReceipt(receipt) => disk.(receipt := Some(receipt))
    case WriteOutput =>
      if phase.Saved? then disk.(output := Some(phase.turn.last))
      else if phase.Replaying? then disk.(output := Some(Body(phase.receipt)))
      else disk
    case _ => disk
  }

  ghost predicate Happens(request: string, disk: Disk, phase: Phase, events: seq<Event>)
    decreases |events|
  {
    events == [] ||
    (Possible(disk, phase, events[0]) &&
     Happens(request, NextDisk(request, disk, phase, events[0]), NextPhase(request, disk, phase, events[0]), events[1..]))
  }

  ghost function EndDisk(request: string, disk: Disk, phase: Phase, events: seq<Event>): Disk
    decreases |events|
  {
    if events == [] then disk
    else EndDisk(request, NextDisk(request, disk, phase, events[0]), NextPhase(request, disk, phase, events[0]), events[1..])
  }

  ghost function EndPhase(request: string, disk: Disk, phase: Phase, events: seq<Event>): Phase
    decreases |events|
  {
    if events == [] then phase
    else EndPhase(request, NextDisk(request, disk, phase, events[0]), NextPhase(request, disk, phase, events[0]), events[1..])
  }

  /** With an accepted receipt on disk, nothing runs but its own completion or its replay. */
  ghost predicate Settles(receipt: Receipt, disk: Disk, phase: Phase) {
    && disk.receipt == Some(receipt)
    && match phase
       case Stopped => true
       case Saved(t) => ReceiptOf(t, receipt)
       case Replaying(r, told) => r == receipt && told == Told(receipt)
       case Replayed(r, told) => r == receipt && told == Told(receipt) && disk.output == Some(Body(receipt))
       case Finished(text, told) => text == Body(receipt) && told == Told(receipt) && disk.output == Some(Body(receipt))
       case _ => false
  }

  /**
   * Once the receipt is durable, whatever happens next, including any number of crashes: the CLI is never
   * started again, the receipt stays, and an execution that finishes leaves the same output and the same
   * deliveries.
   */
  lemma {:induction false} ReceiptsSettle(
    request: string, receipt: Receipt, disk: Disk, phase: Phase, events: seq<Event>
  )
    requires Settles(receipt, disk, phase) && Accepts(receipt, request) && Happens(request, disk, phase, events)
    ensures Settles(receipt, EndDisk(request, disk, phase, events), EndPhase(request, disk, phase, events))
    ensures EndDisk(request, disk, phase, events).starts == disk.starts
    decreases |events|
  {
    if events != [] {
      var disk', phase' := NextDisk(request, disk, phase, events[0]), NextPhase(request, disk, phase, events[0]);
      if phase.Saved? && events[0].WriteOutput? {
        assert phase'.told == Told(receipt);
      }
      ReceiptsSettle(request, receipt, disk', phase', events[1..]);
    }
  }

  /** Until then, an execution is a run of its turn, and the receipt on disk is not one for this request. */
  ghost predicate Underway(request: string, disk: Disk, phase: Phase) {
    && !Answered(request, disk)
    && match phase
       case Working(t) => exists wireId, run :: After(Begin(request, wireId), run) == Running(t)
       case Finishing(t) => exists wireId, run :: After(Begin(request, wireId), run) == Completed(t)
       case _ => false
  }

  /** A receipt that completes the request is on disk. */
  ghost predicate Answered(request: string, disk: Disk) {
    disk.receipt.Some? && Accepts(disk.receipt.value, request)
  }

  ghost predicate Sound(request: string, disk: Disk, phase: Phase) {
    if Answered(request, disk) then Settles(disk.receipt.value, disk, phase)
    else phase.Stopped? || Underway(request, disk, phase)
  }

  lemma ActsOn(request: string, wireId: string, run: seq<Action>, t: Turn, a: Action)
    requires After(Begin(request, wireId), run) == Running(t)
    ensures After(Begin(request, wireId), run + [a]) == Step(t, a)
  {
    assert (run + [a])[..|run|] == run;
  }

  lemma {:induction false} StepStaysSound(request: string, disk: Disk, phase: Phase, e: Event)
    requires Sound(request, disk, phase) && Possible(disk, phase, e)
    ensures Sound(request, NextDisk(request, disk, phase, e), NextPhase(request, disk, phase, e))
    ensures Answered(request, disk) ==> NextDisk(request, disk, phase, e).receipt == disk.receipt
  {
    if Answered(request, disk) {
      assert Happens(request, disk, phase, [e]);
      ReceiptsSettle(request, disk.receipt.value, disk, phase, [e]);
    } else {
      match e {
        case Start(wireId) => assert After(Begin(request, wireId), []) == Running(Begin(request, wireId));
        case Act(a) =>
          var wireId, run :| After(Begin(request, wireId), run) == Running(phase.turn);
          ActsOn(request, wireId, run, phase.turn, a);
        case SaveReceipt(receipt) =>
          var wireId, run :| After(Begin(request, wireId), run) == Completed(phase.turn);
          ReceiptsAreAccepted(request, wireId, run, receipt);
        case _ =>
      }
    }
  }

  /**
   * Over every sequence of executions and crashes of a request, from any disk: until a receipt completes the
   * request only its own turns run, and from then on the receipt settles it (`ReceiptsSettle`).
   */
  lemma {:induction false} EveryExecution(request: string, disk: Disk, phase: Phase, events: seq<Event>)
    requires Sound(request, disk, phase) && Happens(request, disk, phase, events)
    ensures Sound(request, EndDisk(request, disk, phase, events), EndPhase(request, disk, phase, events))
    decreases |events|
  {
    if events != [] {
      StepStaysSound(request, disk, phase, events[0]);
      EveryExecution(request, NextDisk(request, disk, phase, events[0]), NextPhase(request, disk, phase, events[0]), events[1..]);
    }
  }
}
