/**
 * The message queue of one chat (crates/installation/src/chats.rs). Every transaction is one step. The rows are
 * kept in their order in the table, which is the order in which they were accepted.
 */
module Chats {
  import opened Common

  const MAX_UNDELIVERED := 20

  datatype Status = Queued | Sending | Delivered | Cancelled

  /** A row. `content` is what `same_content` compares; `serial` tells this row from any other row ever accepted. */
  datatype Message = Message(
    id: string, content: nat, steer: bool, question: Option<string>, status: Status, serial: nat
  )

  /**
   * `announced` are the `chat.user` events of the chat. `elsewhere` are the identifiers other chats use. `picked`
   * is the message the scheduler has chosen but not launched yet. `next` and `withdrawn` account for every row
   * ever accepted.
   */
  datatype State = State(
    messages: seq<Message>, announced: seq<string>, elsewhere: set<string>, active: bool, paused: bool,
    picked: Option<Message>, next: nat, withdrawn: set<nat>
  )

  const INITIAL := State([], [], {}, true, false, None, 0, {})

  datatype Response = Stored(message: Message) | Deleted | Conflict | NotFound

  datatype Action =
    | Send(id: string, content: nat, steer: bool, answer: Option<string>, permitted: bool)
    | Edit(id: string, content: nat, steer: bool, permitted: bool)
    | Withdraw(id: string)
    | Acknowledge(id: string)
    | ClaimSteering(delivering: Option<string>)
    | PickNext
    | Launch
    | SetPaused(paused: bool)
    | SetActive(active: bool)
    | UsedElsewhere(id: string)

  // ----- Reading -----

  /** The row with an identifier, if there is one. */
  function Find(messages: seq<Message>, id: string): (k: nat)
    ensures k <= |messages| && (k < |messages| ==> messages[k].id == id)
    ensures forall i :: 0 <= i < k ==> messages[i].id != id
  {
    if messages == [] || messages[0].id == id then 0 else 1 + Find(messages[1..], id)
  }

  predicate Pending(m: Message) { m.status.Queued? || m.status.Sending? }

  function Undelivered(messages: seq<Message>): nat {
    if messages == [] then 0
    else Undelivered(messages[..|messages| - 1]) + if messages[|messages| - 1].status.Delivered? then 0 else 1
  }

  // ----- Sending, editing, withdrawing -----

  function Respond(s: State, a: Action): Response
    requires a.Send?
  {
    var k := Find(s.messages, a.id);
    if !s.active then Conflict
    else if k < |s.messages| then
      if s.messages[k].content == a.content && (a.answer.Some? ==> s.messages[k].question == a.answer)
      then Stored(s.messages[k]) else Conflict
    else if Undelivered(s.messages) >= MAX_UNDELIVERED || a.id in s.elsewhere || !a.permitted then Conflict
    else Stored(Message(a.id, a.content, a.steer, a.answer, Queued, s.next))
  }

  function SendTo(s: State, a: Action): State
    requires a.Send?
  {
    if Find(s.messages, a.id) == |s.messages| && Respond(s, a).Stored? then
      s.(messages := s.messages + [Respond(s, a).message], next := s.next + 1)
    else s
  }

  function Updated(s: State, k: nat, m: Message): State
    requires k < |s.messages|
  {
    s.(messages := s.messages[k := m])
  }

  predicate Editable(s: State, id: string) {
    var k := Find(s.messages, id);
    s.active && k < |s.messages| && s.messages[k].status.Queued?
  }

  // ----- The scheduler -----

  function Requeued(m: Message): Message {
    if m.status.Sending? then m.(status := Queued) else m
  }

  function RequeueAll(messages: seq<Message>): (all: seq<Message>)
    ensures |all| == |messages| && forall i :: 0 <= i < |all| ==> all[i] == Requeued(messages[i])
  {
    if messages == [] then [] else RequeueAll(messages[..|messages| - 1]) + [Requeued(messages[|messages| - 1])]
  }

  /** The first queued row. */
  function FirstQueued(messages: seq<Message>): (k: nat)
    ensures k <= |messages| && (k < |messages| ==> messages[k].status.Queued?)
    ensures forall i :: 0 <= i < k ==> !messages[i].status.Queued?
  {
    if messages == [] || messages[0].status.Queued? then 0 else 1 + FirstQueued(messages[1..])
  }

  function Choice(messages: seq<Message>): Option<Message> {
    if FirstQueued(messages) < |messages| then Some(messages[FirstQueued(messages)]) else None
  }

  predicate Claimable(m: Message, paused: bool, delivering: Option<string>) {
    (!paused || m.question.Some?) && Pending(m) && m.steer && Some(m.id) != delivering
  }

  function ClaimAll(messages: seq<Message>, paused: bool, delivering: Option<string>): (all: seq<Message>)
    ensures |all| == |messages|
    ensures forall i :: 0 <= i < |all| ==>
              all[i] == if Claimable(messages[i], paused, delivering) then messages[i].(status := Sending) else messages[i]
  {
    if messages == [] then []
    else
      var m := messages[|messages| - 1];
      ClaimAll(messages[..|messages| - 1], paused, delivering)
      + [if Claimable(m, paused, delivering) then m.(status := Sending) else m]
  }

  /** The row still holds what was picked, and may be launched. */
  predicate Launches(s: State) {
    && s.picked.Some? && s.active && !s.paused
    && var k := Find(s.messages, s.picked.value.id);
       k < |s.messages| && s.messages[k].status.Queued? && s.messages[k].content == s.picked.value.content
  }

  // ----- Steps -----

  function Apply(s: State, a: Action): State {
    match a
    case Send(_, _, _, _, _) => SendTo(s, a)
    case Edit(id, content, steer, permitted) =>
      var k := Find(s.messages, id);
      if Editable(s, id) && s.messages[k].question.None? && permitted then
        Updated(s, k, s.messages[k].(content := content, steer := steer))
      else s
    case Withdraw(id) =>
      if Editable(s, id) then
        var k := Find(s.messages, id);
        s.(messages := s.messages[..k] + s.messages[k + 1..], withdrawn := s.withdrawn + {s.messages[k].serial})
      else s
    case Acknowledge(id) =>
      var k := Find(s.messages, id);
      if s.active && k < |s.messages| && Pending(s.messages[k]) then
        Updated(s, k, s.messages[k].(status := Delivered)).(announced := s.announced + [id])
      else s
    case ClaimSteering(delivering) =>
      if s.active then s.(messages := ClaimAll(s.messages, s.paused, delivering)) else s
    case PickNext => s.(messages := RequeueAll(s.messages), picked := Choice(RequeueAll(s.messages)))
    case Launch =>
      if Launches(s) then
        var k := Find(s.messages, s.picked.value.id);
        Updated(s, k, s.picked.value.(status := Sending, serial := s.messages[k].serial)).(picked := None)
      else s.(picked := None)
    case SetPaused(paused) => s.(paused := paused)
    case SetActive(active) => s.(active := active)
    case UsedElsewhere(id) => if Find(s.messages, id) == |s.messages| then s.(elsewhere := s.elsewhere + {id}) else s
  }

  ghost function End(s: State, run: seq<Action>): State
    decreases |run|
  {
    if run == [] then s else End(Apply(s, run[0]), run[1..])
  }

  ghost predicate Reachable(s: State) { exists run :: End(INITIAL, run) == s }

  // ----- What every step keeps -----

  ghost predicate DistinctIds(messages: seq<Message>) {
    forall i, j :: 0 <= i < j < |messages| ==> messages[i].id != messages[j].id
  }

  ghost predicate Ascending(messages: seq<Message>, next: nat) {
    && (forall i :: 0 <= i < |messages| ==> messages[i].serial < next)
    && (forall i, j :: 0 <= i < j < |messages| ==> messages[i].serial < messages[j].serial)
  }

  ghost predicate HasSerial(messages: seq<Message>, n: nat) {
    exists i :: 0 <= i < |messages| && messages[i].serial == n
  }

  /** Every row ever accepted is there or was withdrawn, and not both. */
  ghost predicate Conserved(s: State) {
    && (forall n :: 0 <= n < s.next ==> (HasSerial(s.messages, n) <==> n !in s.withdrawn))
    && (forall n :: n in s.withdrawn ==> n < s.next)
  }

  ghost predicate IsDelivered(messages: seq<Message>, id: string) {
    exists i :: 0 <= i < |messages| && messages[i].id == id && messages[i].status.Delivered?
  }

  /** Each delivered message has been announced once, and nothing else has. */
  ghost predicate AnnouncedOnce(s: State) {
    && (forall i, j :: 0 <= i < j < |s.announced| ==> s.announced[i] != s.announced[j])
    && (forall id :: id in s.announced <==> IsDelivered(s.messages, id))
  }

  ghost predicate Inv(s: State) {
    DistinctIds(s.messages) && Ascending(s.messages, s.next) && Conserved(s) && AnnouncedOnce(s)
    && Undelivered(s.messages) <= MAX_UNDELIVERED
  }

  // ----- Rows updated in place -----

  /** The same rows in the same places; no delivered one is changed back. */
  ghost predicate SameRows(a: seq<Message>, b: seq<Message>) {
    && |a| == |b|
    && forall i :: 0 <= i < |a| ==>
         a[i].id == b[i].id && a[i].serial == b[i].serial && (a[i].status.Delivered? ==> b[i].status.Delivered?)
  }

  lemma {:induction false} SameRowsCount(a: seq<Message>, b: seq<Message>)
    requires SameRows(a, b)
    ensures Undelivered(b) <= Undelivered(a)
  {
    if a != [] { SameRowsCount(a[..|a| - 1], b[..|b| - 1]); }
  }

  lemma SameRowsKeep(s: State, s': State)
    requires Inv(s) && SameRows(s.messages, s'.messages) && s'.next == s.next && s'.withdrawn == s.withdrawn
    requires AnnouncedOnce(s')
    ensures Inv(s')
  {
    SameRowsCount(s.messages, s'.messages);
    forall n | 0 <= n < s.next ensures HasSerial(s'.messages, n) <==> n !in s.withdrawn {
      if HasSerial(s.messages, n) {
        var i :| 0 <= i < |s.messages| && s.messages[i].serial == n;
        assert s'.messages[i].serial == n;
      }
      if HasSerial(s'.messages, n) {
        var i :| 0 <= i < |s'.messages| && s'.messages[i].serial == n;
        assert s.messages[i].serial == n;
      }
    }
  }

  /** Nothing becomes delivered, so nothing needs announcing. */
  lemma NothingDelivered(s: State, s': State)
    requires AnnouncedOnce(s) && SameRows(s.messages, s'.messages) && SameRows(s'.messages, s.messages)
    requires s'.announced == s.announced
    ensures AnnouncedOnce(s')
  {
    forall id ensures id in s'.announced <==> IsDelivered(s'.messages, id) {
      if IsDelivered(s.messages, id) {
        var i :| 0 <= i < |s.messages| && s.messages[i].id == id && s.messages[i].status.Delivered?;
        assert s'.messages[i].id == id && s'.messages[i].status.Delivered?;
      }
      if IsDelivered(s'.messages, id) {
        var i :| 0 <= i < |s'.messages| && s'.messages[i].id == id && s'.messages[i].status.Delivered?;
        assert s.messages[i].id == id && s.messages[i].status.Delivered?;
      }
    }
  }

  /** Everything but sending, withdrawing and acknowledging leaves the rows and what is delivered alone. */
  lemma UpdatesInPlace(s: State, a: Action)
    requires !a.Send? && !a.Withdraw? && !a.Acknowledge?
    ensures var s' := Apply(s, a);
            && SameRows(s.messages, s'.messages) && SameRows(s'.messages, s.messages)
            && s'.announced == s.announced && s'.next == s.next && s'.withdrawn == s.withdrawn
            && forall i :: 0 <= i < |s.messages| && Pending(s'.messages[i]) ==> Pending(s.messages[i])
  {
    if a.Edit? || a.Launch? { RewritesInPlace(s, a); }
  }

  lemma RewritesInPlace(s: State, a: Action)
    requires a.Edit? || a.Launch?
    ensures var s' := Apply(s, a);
            && SameRows(s.messages, s'.messages) && SameRows(s'.messages, s.messages)
            && s'.announced == s.announced && s'.next == s.next && s'.withdrawn == s.withdrawn
            && forall i :: 0 <= i < |s.messages| && Pending(s'.messages[i]) ==> Pending(s.messages[i])
  {
  }

  lemma UpdatesKeepInv(s: State, a: Action)
    requires Inv(s) && !a.Send? && !a.Withdraw? && !a.Acknowledge?
    ensures Inv(Apply(s, a))
  {
    UpdatesInPlace(s, a);
    NothingDelivered(s, Apply(s, a));
    SameRowsKeep(s, Apply(s, a));
  }

  lemma DeliveredOnce(s: State, k: nat, s': State)
    requires Inv(s) && k < |s.messages| && Pending(s.messages[k])
    requires s'.messages == s.messages[k := s.messages[k].(status := Delivered)]
    requires s'.announced == s.announced + [s.messages[k].id]
    ensures AnnouncedOnce(s')
  {
    var id := s.messages[k].id;
    assert !IsDelivered(s.messages, id);
    forall x ensures x in s'.announced <==> IsDelivered(s'.messages, x) {
      if IsDelivered(s.messages, x) {
        var i :| 0 <= i < |s.messages| && s.messages[i].id == x && s.messages[i].status.Delivered?;
        assert s'.messages[i].id == x && s'.messages[i].status.Delivered?;
      }
      if IsDelivered(s'.messages, x) && x != id {
        var i :| 0 <= i < |s'.messages| && s'.messages[i].id == x && s'.messages[i].status.Delivered?;
        assert s.messages[i].id == x && s.messages[i].status.Delivered?;
      }
      assert s'.messages[k].id == id && s'.messages[k].status.Delivered?;
    }
  }

  lemma AcknowledgeKeepsInv(s: State, id: string)
    requires Inv(s)
    ensures Inv(Apply(s, Acknowledge(id)))
  {
    var s' := Apply(s, Acknowledge(id));
    if s' != s {
      DeliveredOnce(s, Find(s.messages, id), s');
      SameRowsKeep(s, s');
    }
  }

  lemma UndeliveredSnoc(messages: seq<Message>, m: Message)
    ensures Undelivered(messages + [m]) == Undelivered(messages) + if m.status.Delivered? then 0 else 1
  {
    assert (messages + [m])[..|messages|] == messages;
  }

  lemma SendKeepsInv(s: State, a: Action)
    requires Inv(s) && a.Send?
    ensures Inv(Apply(s, a))
  {
    var s' := SendTo(s, a);
    if s' != s {
      var m := Respond(s, a).message;
      UndeliveredSnoc(s.messages, m);
      SendConserves(s, m, s');
      SendAnnouncesNothing(s, m, s');
    }
  }

  lemma SendConserves(s: State, m: Message, s': State)
    requires Conserved(s) && m.serial == s.next && s'.messages == s.messages + [m]
    requires s'.next == s.next + 1 && s'.withdrawn == s.withdrawn
    ensures Conserved(s')
  {
    forall n | 0 <= n < s'.next ensures HasSerial(s'.messages, n) <==> n !in s.withdrawn {
      if n == s.next {
        assert s'.messages[|s.messages|].serial == n;
      } else if HasSerial(s.messages, n) {
        var i :| 0 <= i < |s.messages| && s.messages[i].serial == n;
        assert s'.messages[i].serial == n;
      }
    }
  }

  lemma SendAnnouncesNothing(s: State, m: Message, s': State)
    requires AnnouncedOnce(s) && s'.messages == s.messages + [m] && s'.announced == s.announced && !m.status.Delivered?
    ensures AnnouncedOnce(s')
  {
    forall id ensures id in s'.announced <==> IsDelivered(s'.messages, id) {
      if IsDelivered(s.messages, id) {
        var i :| 0 <= i < |s.messages| && s.messages[i].id == id && s.messages[i].status.Delivered?;
        assert s'.messages[i].id == id && s'.messages[i].status.Delivered?;
      }
    }
  }

  function Without(messages: seq<Message>, k: nat): seq<Message>
    requires k < |messages|
  {
    messages[..k] + messages[k + 1..]
  }

  lemma {:induction false} WithoutCounts(messages: seq<Message>, k: nat)
    requires k < |messages|
    ensures Undelivered(Without(messages, k)) <= Undelivered(messages)
    decreases |messages|
  {
    var n := |messages| - 1;
    if k == n {
      assert Without(messages, k) == messages[..n];
    } else {
      WithoutCounts(messages[..n], k);
      assert Without(messages, k) == Without(messages[..n], k) + [messages[n]];
      UndeliveredSnoc(Without(messages[..n], k), messages[n]);
    }
  }

  /** The place of a row that stays when row k goes. */
  function Moved(i: nat, k: nat): nat
    requires i != k
  {
    if i < k then i else i - 1
  }

  lemma WithoutAnnounces(s: State, k: nat, s': State)
    requires Inv(s) && k < |s.messages| && s.messages[k].status.Queued?
    requires s'.messages == Without(s.messages, k) && s'.announced == s.announced
    ensures AnnouncedOnce(s')
  {
    forall id ensures id in s'.announced <==> IsDelivered(s'.messages, id) {
      if IsDelivered(s.messages, id) {
        var i :| 0 <= i < |s.messages| && s.messages[i].id == id && s.messages[i].status.Delivered?;
        assert s'.messages[Moved(i, k)] == s.messages[i];
      }
    }
  }

  lemma WithoutConserves(s: State, k: nat, s': State)
    requires Inv(s) && k < |s.messages| && s'.messages == Without(s.messages, k) && s'.next == s.next
    requires s'.withdrawn == s.withdrawn + {s.messages[k].serial}
    ensures Conserved(s')
  {
    assert HasSerial(s.messages, s.messages[k].serial);
    forall n | 0 <= n < s.next ensures HasSerial(s'.messages, n) <==> n !in s'.withdrawn {
      if HasSerial(s.messages, n) && n != s.messages[k].serial {
        var i :| 0 <= i < |s.messages| && s.messages[i].serial == n;
        assert s'.messages[Moved(i, k)].serial == n;
      }
    }
  }

  lemma WithoutOrders(messages: seq<Message>, k: nat, next: nat)
    requires k < |messages| && DistinctIds(messages) && Ascending(messages, next)
    ensures DistinctIds(Without(messages, k)) && Ascending(Without(messages, k), next)
  {
  }

  lemma WithdrawKeepsInv(s: State, id: string)
    requires Inv(s)
    ensures Inv(Apply(s, Withdraw(id)))
  {
    var s' := Apply(s, Withdraw(id));
    if Editable(s, id) {
      var k := Find(s.messages, id);
      assert s'.messages == Without(s.messages, k);
      WithoutOrders(s.messages, k, s.next);
      WithoutCounts(s.messages, k);
      WithoutAnnounces(s, k, s');
      WithoutConserves(s, k, s');
    }
  }

  lemma KeepsInv(s: State, a: Action)
    requires Inv(s)
    ensures Inv(Apply(s, a))
  {
    if a.Send? { SendKeepsInv(s, a); }
    else if a.Withdraw? { WithdrawKeepsInv(s, a.id); }
    else if a.Acknowledge? { AcknowledgeKeepsInv(s, a.id); }
    else { UpdatesKeepInv(s, a); }
  }

  // ----- What was picked -----

  /** No pending row is older than the row that was picked. */
  ghost predicate PickedOk(s: State) {
    s.picked.Some? ==>
      && s.picked.value.serial < s.next
      && (forall i :: 0 <= i < |s.messages| && s.messages[i].serial == s.picked.value.serial ==>
            s.messages[i].id == s.picked.value.id)
      && forall i :: 0 <= i < |s.messages| && s.messages[i].serial < s.picked.value.serial ==> !Pending(s.messages[i])
  }

  lemma PickingIsOk(s: State)
    requires Inv(s)
    ensures PickedOk(Apply(s, PickNext))
  {
  }

  lemma WithdrawingKeepsPicked(s: State, k: nat, s': State)
    requires PickedOk(s) && k < |s.messages|
    requires s'.messages == Without(s.messages, k) && s'.picked == s.picked && s'.next == s.next
    ensures PickedOk(s')
  {
  }

  lemma SendingKeepsPicked(s: State, a: Action)
    requires PickedOk(s) && a.Send?
    ensures PickedOk(SendTo(s, a))
  {
  }

  lemma AcknowledgingKeepsPicked(s: State, id: string)
    requires PickedOk(s)
    ensures PickedOk(Apply(s, Acknowledge(id)))
  {
  }

  lemma KeepsPickedOk(s: State, a: Action)
    requires Inv(s) && PickedOk(s)
    ensures PickedOk(Apply(s, a))
  {
    if a.PickNext? {
      PickingIsOk(s);
    } else if a.Withdraw? {
      if Editable(s, a.id) { WithdrawingKeepsPicked(s, Find(s.messages, a.id), Apply(s, a)); }
    } else if a.Send? {
      SendingKeepsPicked(s, a);
    } else if a.Acknowledge? {
      AcknowledgingKeepsPicked(s, a.id);
    } else {
      UpdatesInPlace(s, a);
    }
  }

  // ----- Main results -----

  lemma {:induction false} EveryRun(s: State, run: seq<Action>)
    requires Inv(s) && PickedOk(s)
    ensures Inv(End(s, run)) && PickedOk(End(s, run))
    decreases |run|
  {
    if run != [] {
      KeepsInv(s, run[0]);
      KeepsPickedOk(s, run[0]);
      EveryRun(Apply(s, run[0]), run[1..]);
    }
  }

  lemma ReachableInv(s: State)
    requires Reachable(s)
    ensures Inv(s) && PickedOk(s)
  {
    var run :| End(INITIAL, run) == s;
    EveryRun(INITIAL, run);
  }

  /**
   * Messages are conserved: every row ever accepted was withdrawn or is there, delivered or not; at most twenty
   * are undelivered; and each message is announced at most once, exactly when it is delivered.
   */
  lemma MessagesAreConserved(s: State)
    requires Reachable(s)
    ensures forall n :: 0 <= n < s.next ==> (HasSerial(s.messages, n) <==> n !in s.withdrawn)
    ensures Undelivered(s.messages) <= MAX_UNDELIVERED && DistinctIds(s.messages)
    ensures forall i, j :: 0 <= i < j < |s.announced| ==> s.announced[i] != s.announced[j]
    ensures forall id :: id in s.announced <==> IsDelivered(s.messages, id)
  {
    ReachableInv(s);
  }

  /** A delivered message stays delivered, whatever happens next. */
  lemma {:induction false} DeliveredForGood(s: State, run: seq<Action>, id: string)
    requires Inv(s) && PickedOk(s) && IsDelivered(s.messages, id)
    ensures IsDelivered(End(s, run).messages, id)
    decreases |run|
  {
    if run != [] {
      KeepsInv(s, run[0]);
      KeepsPickedOk(s, run[0]);
      StaysAnnounced(s, run[0], id);
      DeliveredForGood(Apply(s, run[0]), run[1..], id);
    }
  }

  lemma StaysAnnounced(s: State, a: Action, id: string)
    requires Inv(s) && IsDelivered(s.messages, id)
    ensures IsDelivered(Apply(s, a).messages, id)
  {
    KeepsInv(s, a);
    assert id in s.announced;
    var i :| 0 <= i < |s.announced| && s.announced[i] == id;
    assert Apply(s, a).announced[i] == id;
  }

  /** Sending the same message again changes nothing and answers with the row already stored. */
  lemma ResendingIsIdempotent(s: State, a: Action)
    requires Reachable(s) && a.Send? && Find(s.messages, a.id) == |s.messages| && Respond(s, a).Stored?
    ensures var s' := Apply(s, a);
            Respond(s', a) == Respond(s, a) && Apply(s', a) == s'
            && Find(s'.messages, a.id) < |s'.messages| && Undelivered(s'.messages) == Undelivered(s.messages) + 1
  {
    var s' := Apply(s, a);
    UndeliveredSnoc(s.messages, Respond(s, a).message);
    assert s'.messages[|s.messages|].id == a.id;
  }

  lemma {:induction false} RowStays(s: State, run: seq<Action>, id: string)
    requires Inv(s) && Find(s.messages, id) < |s.messages|
    requires forall i :: 0 <= i < |run| ==> run[i] != Withdraw(id)
    ensures var end := End(s, run).messages;
            Find(end, id) < |end| && end[Find(end, id)].serial == s.messages[Find(s.messages, id)].serial
    decreases |run|
  {
    if run != [] {
      KeepsInv(s, run[0]);
      RowStaysOnce(s, run[0], id);
      RowStays(Apply(s, run[0]), run[1..], id);
    }
  }

  lemma FoundAt(messages: seq<Message>, k: nat)
    requires DistinctIds(messages) && k < |messages|
    ensures Find(messages, messages[k].id) == k
  {
  }

  lemma RowMoves(messages: seq<Message>, k: nat, gone: nat)
    requires k < |messages| && gone < |messages| && k != gone && DistinctIds(messages)
    ensures var after := Without(messages, gone);
            Find(after, messages[k].id) < |after| && after[Find(after, messages[k].id)] == messages[k]
  {
    var after := Without(messages, gone);
    assert after[Moved(k, gone)] == messages[k];
    assert DistinctIds(after);
    FoundAt(after, Moved(k, gone));
  }

  lemma RowKeepsItsPlace(s: State, a: Action, k: nat)
    requires k < |s.messages| && !(a.Withdraw? && Editable(s, a.id))
    ensures var after := Apply(s, a).messages;
            k < |after| && after[k].id == s.messages[k].id && after[k].serial == s.messages[k].serial
  {
    if !a.Send? && !a.Acknowledge? && !a.Withdraw? { UpdatesInPlace(s, a); }
  }

  lemma RowStaysOnce(s: State, a: Action, id: string)
    requires Inv(s) && Find(s.messages, id) < |s.messages| && a != Withdraw(id)
    ensures var after := Apply(s, a).messages;
            Find(after, id) < |after| && after[Find(after, id)].serial == s.messages[Find(s.messages, id)].serial
  {
    var k := Find(s.messages, id);
    if a.Withdraw? && Editable(s, a.id) {
      RowMoves(s.messages, k, Find(s.messages, a.id));
    } else {
      RowKeepsItsPlace(s, a, k);
      KeepsInv(s, a);
      FoundAt(Apply(s, a).messages, k);
    }
  }

  /**
   * However often a message is sent again, and whatever else happens, short of withdrawing it the chat holds
   * exactly the row first stored for it, and sending it once more changes nothing.
   */
  lemma RetriesLeaveOneMessage(s: State, a: Action, run: seq<Action>)
    requires Reachable(s) && a.Send? && Respond(s, a).Stored?
    requires forall i :: 0 <= i < |run| ==> run[i] != Withdraw(a.id)
    ensures var end := End(Apply(s, a), run);
            && Find(end.messages, a.id) < |end.messages|
            && end.messages[Find(end.messages, a.id)].serial == Respond(s, a).message.serial
            && (forall i :: 0 <= i < |end.messages| && end.messages[i].id == a.id ==> i == Find(end.messages, a.id))
            && Apply(end, a) == end
  {
    ReachableInv(s);
    KeepsInv(s, a);
    var first := Apply(s, a);
    if Find(s.messages, a.id) == |s.messages| { FoundAt(first.messages, |s.messages|); }
    RowStays(first, run, a.id);
    KeepsPickedOk(s, a);
    EveryRun(first, run);
  }

  ghost predicate IsOldest(messages: seq<Message>, k: nat)
    requires k < |messages|
  {
    forall i :: 0 <= i < k ==> !Pending(messages[i])
  }

  // ----- Which message a launch takes -----

  lemma {:induction false} EndSnoc(s: State, run: seq<Action>, a: Action)
    ensures End(s, run + [a]) == Apply(End(s, run), a)
    decreases |run|
  {
    if run != [] {
      EndSnoc(Apply(s, run[0]), run[1..], a);
      assert (run + [a])[1..] == run[1..] + [a];
    } else {
      assert [a][1..] == [];
      assert End(Apply(s, a), []) == Apply(s, a);
    }
  }

  /** The state before step c. */
  ghost function At(run: seq<Action>, c: nat): State
    requires c <= |run|
  {
    End(INITIAL, run[..c])
  }

  lemma AtNext(run: seq<Action>, c: nat)
    requires c < |run|
    ensures At(run, c + 1) == Apply(At(run, c), run[c])
  {
    EndSnoc(INITIAL, run[..c], run[c]);
    assert run[..c + 1] == run[..c] + [run[c]];
  }

  lemma AtInv(run: seq<Action>, c: nat)
    requires c <= |run|
    ensures Inv(At(run, c)) && PickedOk(At(run, c))
  {
    EveryRun(INITIAL, run[..c]);
  }

  /** Step p is the last one at which the scheduler picked a message, and it has not launched it since. */
  ghost predicate PickedAt(run: seq<Action>, p: nat) {
    p < |run| && run[p].PickNext? && forall j :: p < j < |run| ==> !run[j].PickNext? && !run[j].Launch?
  }

  lemma {:induction false} PickedSomewhere(run: seq<Action>, n: nat)
    requires n <= |run| && At(run, n).picked.Some?
    requires forall j :: n <= j < |run| ==> !run[j].PickNext? && !run[j].Launch?
    ensures exists p: nat :: p < n && PickedAt(run, p)
  {
    assert n > 0;
    AtNext(run, n - 1);
    if run[n - 1].PickNext? {
      assert PickedAt(run, n - 1);
    } else {
      PickedSomewhere(run, n - 1);
    }
  }

  lemma {:induction false} PickStays(run: seq<Action>, p: nat, c: nat)
    requires PickedAt(run, p) && p < c <= |run|
    ensures At(run, c).picked == At(run, p + 1).picked
  {
    if c > p + 1 {
      AtNext(run, c - 1);
      PickStays(run, p, c - 1);
    }
  }

  ghost predicate HasRow(messages: seq<Message>, id: string, serial: nat) {
    exists i :: 0 <= i < |messages| && messages[i].id == id && messages[i].serial == serial
  }

  /** A message with this identifier is accepted, and it is not there yet. */
  ghost predicate Accepts(s: State, a: Action, id: string) {
    a.Send? && a.id == id && Find(s.messages, id) == |s.messages| && Respond(s, a).Stored?
  }

  lemma RowHasASource(s: State, a: Action, id: string, serial: nat)
    requires HasRow(Apply(s, a).messages, id, serial)
    ensures HasRow(s.messages, id, serial) || (Accepts(s, a, id) && serial == s.next)
  {
    var after := Apply(s, a).messages;
    var i :| 0 <= i < |after| && after[i].id == id && after[i].serial == serial;
    if a.Send? {
      if i < |s.messages| { assert s.messages[i] == after[i]; }
    } else if a.Withdraw? {
      if Editable(s, a.id) {
        var k := Find(s.messages, a.id);
        assert after[i] == s.messages[if i < k then i else i + 1];
      }
    } else if a.Acknowledge? {
      assert s.messages[i].id == id && s.messages[i].serial == serial;
    } else {
      UpdatesInPlace(s, a);
      assert s.messages[i].id == id && s.messages[i].serial == serial;
    }
  }

  /** A row is there from the start or was accepted by a step in between. */
  lemma {:induction false} RowWasSent(run: seq<Action>, p: nat, c: nat, id: string, serial: nat)
    requires p <= c <= |run| && HasRow(At(run, c).messages, id, serial)
    ensures HasRow(At(run, p).messages, id, serial)
            || exists d :: p <= d < c && Accepts(At(run, d), run[d], id) && At(run, d).next == serial
    decreases c
  {
    if p < c {
      AtNext(run, c - 1);
      RowHasASource(At(run, c - 1), run[c - 1], id, serial);
      if HasRow(At(run, c - 1).messages, id, serial) { RowWasSent(run, p, c - 1, id, serial); }
    }
  }

  /** The row with this identifier was accepted no earlier than the n-th. */
  ghost predicate NotBefore(s: State, id: string, n: nat) {
    n <= s.next && forall serial :: HasRow(s.messages, id, serial) ==> n <= serial
  }

  lemma KeepsNotBefore(s: State, a: Action, id: string, n: nat)
    requires NotBefore(s, id, n)
    ensures NotBefore(Apply(s, a), id, n)
  {
    forall serial | HasRow(Apply(s, a).messages, id, serial) ensures n <= serial { RowHasASource(s, a, id, serial); }
  }

  lemma {:induction false} StaysNotBefore(run: seq<Action>, c: nat, end: nat, id: string, n: nat)
    requires c <= end <= |run| && NotBefore(At(run, c), id, n)
    ensures NotBefore(At(run, end), id, n)
    decreases end
  {
    if c < end {
      StaysNotBefore(run, c, end - 1, id, n);
      AtNext(run, end - 1);
      KeepsNotBefore(At(run, end - 1), run[end - 1], id, n);
    }
  }

  lemma StaysWithdrawn(s: State, a: Action)
    ensures s.withdrawn <= Apply(s, a).withdrawn
  {
    if !a.Send? && !a.Withdraw? && !a.Acknowledge? { UpdatesInPlace(s, a); }
  }

  lemma {:induction false} WithdrawnForGood(run: seq<Action>, c: nat, end: nat)
    requires c <= end <= |run|
    ensures At(run, c).withdrawn <= At(run, end).withdrawn
    decreases end
  {
    if c < end {
      var n := end - 1;
      WithdrawnForGood(run, c, n);
      AtNext(run, n);
      StaysWithdrawn(At(run, n), run[n]);
    }
  }

  lemma SentAgainIsLater(run: seq<Action>, c: nat, id: string)
    requires c < |run| && Accepts(At(run, c), run[c], id)
    ensures NotBefore(At(run, c + 1), id, At(run, c).next)
  {
    AtNext(run, c);
    var s, a := At(run, c), run[c];
    forall serial | HasRow(Apply(s, a).messages, id, serial) ensures s.next <= serial {
      RowHasASource(s, a, id, serial);
    }
  }

  /** A row that was there before is still pending at the end. */
  ghost predicate StillWaiting(before: seq<Message>, after: seq<Message>) {
    exists i :: 0 <= i < |after| && Pending(after[i]) && HasSerial(before, after[i].serial)
  }

  /** After it was picked at step p, the message was accepted anew at step c, behind one that is still pending. */
  ghost predicate Overtakes(run: seq<Action>, p: nat, c: nat, id: string) {
    && PickedAt(run, p) && p < c < |run| && Accepts(At(run, c), run[c], id)
    && StillWaiting(At(run, c).messages, At(run, |run|).messages)
  }

  lemma OvertakingIsNotOldest(run: seq<Action>, p: nat, c: nat, k: nat)
    requires var end := At(run, |run|);
             k < |end.messages| && Overtakes(run, p, c, end.messages[k].id)
    ensures !IsOldest(At(run, |run|).messages, k)
  {
    var before, end := At(run, c), At(run, |run|);
    var id := end.messages[k].id;
    AtInv(run, c);
    AtInv(run, |run|);
    SentAgainIsLater(run, c, id);
    StaysNotBefore(run, c + 1, |run|, id, before.next);
    assert HasRow(end.messages, id, end.messages[k].serial);
    var i :| 0 <= i < |end.messages| && Pending(end.messages[i]) && HasSerial(before.messages, end.messages[i].serial);
    assert end.messages[i].serial < before.next <= end.messages[k].serial;
  }

  /** Right after picking, the row with the picked identifier is the row picked. */
  lemma PickedRow(run: seq<Action>, p: nat, serial: nat)
    requires p < |run| && run[p].PickNext? && At(run, p + 1).picked.Some?
    requires HasRow(At(run, p + 1).messages, At(run, p + 1).picked.value.id, serial)
    ensures serial == At(run, p + 1).picked.value.serial
  {
    AtInv(run, p + 1);
    AtNext(run, p);
  }

  lemma OlderRowsWereThere(run: seq<Action>, c: nat, i: nat)
    requires c <= |run| && i < |At(run, |run|).messages| && At(run, |run|).messages[i].serial < At(run, c).next
    ensures HasSerial(At(run, c).messages, At(run, |run|).messages[i].serial)
  {
    AtInv(run, c);
    AtInv(run, |run|);
    WithdrawnForGood(run, c, |run|);
    assert HasSerial(At(run, |run|).messages, At(run, |run|).messages[i].serial);
  }

  lemma PassedOverWasOvertaken(run: seq<Action>, p: nat, i: nat, k: nat)
    requires PickedAt(run, p)
    requires var end := At(run, |run|);
             && i < k < |end.messages| && Pending(end.messages[i])
             && end.picked.Some? && end.messages[k].id == end.picked.value.id
    ensures exists c :: Overtakes(run, p, c, At(run, |run|).messages[k].id)
  {
    var end := At(run, |run|);
    var row := end.messages[k];
    AtInv(run, |run|);
    PickStays(run, p, |run|);
    assert HasRow(end.messages, row.id, row.serial);
    RowWasSent(run, p + 1, |run|, row.id, row.serial);
    assert end.messages[i].serial < row.serial;
    if HasRow(At(run, p + 1).messages, row.id, row.serial) { PickedRow(run, p, row.serial); }
    var c :| p < c < |run| && Accepts(At(run, c), run[c], row.id) && At(run, c).next == row.serial;
    OlderRowsWereThere(run, c, i);
    assert Overtakes(run, p, c, row.id);
  }

  /**
   * Exactly when a launch passes over an older pending message: after the message it takes was picked, it was sent
   * anew (so it had been withdrawn), and a message that was there before that is still pending.
   */
  lemma LaunchTakesTheOldestIff(run: seq<Action>)
    requires Launches(At(run, |run|))
    ensures var end := At(run, |run|);
            var id := end.picked.value.id;
            var k := Find(end.messages, id);
            && k < |end.messages| && Apply(end, Launch).messages[k].status.Sending?
            && (!IsOldest(end.messages, k) <==> exists p, c :: Overtakes(run, p, c, id))
            && (end.messages[k].serial == end.picked.value.serial ==> IsOldest(end.messages, k))
  {
    var end := At(run, |run|);
    var k := Find(end.messages, end.picked.value.id);
    AtInv(run, |run|);
    if !IsOldest(end.messages, k) {
      var i: nat :| i < k && Pending(end.messages[i]);
      PickedSomewhere(run, |run|);
      var p: nat :| PickedAt(run, p);
      PassedOverWasOvertaken(run, p, i, k);
    }
    if p, c :| Overtakes(run, p, c, end.picked.value.id) { OvertakingIsNotOldest(run, p, c, k); }
  }

  // ----- Overtaking happens -----

  lemma Reach(s: State, a: Action, s': State)
    requires Reachable(s) && Apply(s, a) == s'
    ensures Reachable(s')
  {
    var run :| End(INITIAL, run) == s;
    EndSnoc(INITIAL, run, a);
    assert End(INITIAL, run + [a]) == s';
  }

  ghost function Row(id: string, serial: nat): Message { Message(id, 0, false, None, Queued, serial) }

  ghost const FIRST := INITIAL.(messages := [Row("a", 0)], next := 1)
  ghost const BOTH := FIRST.(messages := [Row("a", 0), Row("b", 1)], next := 2)
  ghost const PICKED := BOTH.(picked := Some(Row("a", 0)))
  ghost const TAKEN_BACK := PICKED.(messages := [Row("b", 1)], withdrawn := {0})
  ghost const SENT_AGAIN := TAKEN_BACK.(messages := [Row("b", 1), Row("a", 2)], next := 3)

  lemma BothAreReachable()
    ensures Reachable(BOTH)
  {
    assert End(INITIAL, []) == INITIAL;
    var a, b := Send("a", 0, false, None, true), Send("b", 0, false, None, true);
    assert Respond(INITIAL, a) == Stored(Row("a", 0));
    Reach(INITIAL, a, FIRST);
    assert "a" != "b" by { assert "a"[0] != "b"[0]; }
    assert FIRST.messages[1..] == [] && Find(FIRST.messages, "b") == 1;
    UndeliveredSnoc([], Row("a", 0));
    assert [] + [Row("a", 0)] == [Row("a", 0)];
    assert Respond(FIRST, b) == Stored(Row("b", 1));
    Reach(FIRST, b, BOTH);
  }

  lemma TakenBackIsReachable()
    ensures Reachable(TAKEN_BACK)
  {
    BothAreReachable();
    assert RequeueAll(BOTH.messages) == BOTH.messages && FirstQueued(BOTH.messages) == 0;
    Reach(BOTH, PickNext, PICKED);
    assert Find(PICKED.messages, "a") == 0;
    Reach(PICKED, Withdraw("a"), TAKEN_BACK);
  }

  /**
   * Messages a and b wait; a is picked, withdrawn, and sent again with the same content before its turn is
   * launched. The launch goes ahead with a, although b has been waiting longer.
   */
  lemma OvertakingHappens()
    ensures Reachable(SENT_AGAIN) && Launches(SENT_AGAIN)
    ensures Find(SENT_AGAIN.messages, "a") == 1 && !IsOldest(SENT_AGAIN.messages, 1)
  {
    TakenBackIsReachable();
    assert "a" != "b" by { assert "a"[0] != "b"[0]; }
    var a := Send("a", 0, false, None, true);
    assert TAKEN_BACK.messages[1..] == [] && Find(TAKEN_BACK.messages, "a") == 1;
    UndeliveredSnoc([], Row("b", 1));
    assert [] + [Row("b", 1)] == [Row("b", 1)];
    assert Respond(TAKEN_BACK, a) == Stored(Row("a", 2));
    Reach(TAKEN_BACK, a, SENT_AGAIN);
    assert SENT_AGAIN.messages[1..] == [Row("a", 2)] && Find([Row("a", 2)], "a") == 0;
    assert Find(SENT_AGAIN.messages, "a") == 1;
    assert Pending(SENT_AGAIN.messages[0]);
  }
}
