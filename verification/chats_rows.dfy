/**
 * What each transaction of the message queue does to the rows (crates/installation/src/chats.rs), said of the rows
 * alone: exactly when it acts, which row it changes and how, and that every other row stays as it is.
 */
module ChatsRows {
  import opened Common
  import opened Chats

  /** Row k has this identifier; in a reachable state no other row has. */
  ghost predicate IsRow(s: State, k: nat, id: string) {
    k < |s.messages| && s.messages[k].id == id
  }

  ghost predicate Absent(s: State, id: string) {
    forall i :: 0 <= i < |s.messages| ==> s.messages[i].id != id
  }

  lemma RowIsFound(s: State, k: nat, id: string)
    requires Reachable(s) && IsRow(s, k, id)
    ensures Find(s.messages, id) == k
  {
    ReachableInv(s);
    FoundAt(s.messages, k);
  }

  lemma AbsentIsNotFound(s: State, id: string)
    ensures Absent(s, id) <==> Find(s.messages, id) == |s.messages|
  {
  }

  // ----- Sending -----

  ghost function Waiting(messages: seq<Message>): set<nat> {
    set i: nat | i < |messages| && messages[i].status != Delivered
  }

  lemma {:induction false} UndeliveredIsWaiting(messages: seq<Message>)
    ensures Undelivered(messages) == |Waiting(messages)|
  {
    if messages != [] {
      var n := |messages| - 1;
      UndeliveredIsWaiting(messages[..n]);
      assert Waiting(messages) == Waiting(messages[..n]) + if messages[n].status != Delivered then {n} else {};
    }
  }

  /** An identifier that is there is answered with its row, if the content and the question answered are the same. */
  lemma SendingAgain(s: State, a: Action, k: nat)
    requires Reachable(s) && a.Send? && IsRow(s, k, a.id)
    ensures Apply(s, a) == s
    ensures Respond(s, a) == if s.active && s.messages[k].content == a.content
                                && (a.answer.Some? ==> s.messages[k].question == a.answer)
                             then Stored(s.messages[k]) else Conflict
  {
    RowIsFound(s, k, a.id);
  }

  /**
   * A new identifier is stored exactly if the chat is active, fewer than 20 messages are not delivered, no other chat has
   * used it and its sender may send it; then one queued row with what was sent comes last.
   */
  lemma SendingNew(s: State, a: Action)
    requires a.Send? && Absent(s, a.id)
    ensures if s.active && |Waiting(s.messages)| < 20 && a.id !in s.elsewhere && a.permitted then
              var row := Message(a.id, a.content, a.steer, a.answer, Queued, s.next);
              && Respond(s, a) == Stored(row) && Apply(s, a) == s.(messages := s.messages + [row], next := s.next + 1)
            else
              Respond(s, a) == Conflict && Apply(s, a) == s
  {
    AbsentIsNotFound(s, a.id);
    UndeliveredIsWaiting(s.messages);
  }

  // ----- Editing, withdrawing, acknowledging -----

  /** Only a queued row of an active chat that answers no question is edited, and only in its content and mode. */
  lemma Editing(s: State, k: nat, id: string, content: nat, steer: bool, permitted: bool)
    requires Reachable(s) && IsRow(s, k, id)
    ensures var m := s.messages[k];
            Apply(s, Edit(id, content, steer, permitted))
            == if s.active && m.status == Queued && m.question == None && permitted
               then s.(messages := s.messages[k := m.(content := content, steer := steer)]) else s
  {
    RowIsFound(s, k, id);
  }

  /** Only a queued row of an active chat is withdrawn, and only it. */
  lemma Withdrawing(s: State, k: nat, id: string)
    requires Reachable(s) && IsRow(s, k, id)
    ensures var m := s.messages[k];
            Apply(s, Withdraw(id))
            == if s.active && m.status == Queued
               then s.(messages := s.messages[..k] + s.messages[k + 1..], withdrawn := s.withdrawn + {m.serial}) else s
  {
    RowIsFound(s, k, id);
  }

  /** A queued or sending row of an active chat is delivered and announced. */
  lemma Acknowledging(s: State, k: nat, id: string)
    requires Reachable(s) && IsRow(s, k, id)
    ensures var m := s.messages[k];
            Apply(s, Acknowledge(id))
            == if s.active && (m.status == Queued || m.status == Sending)
               then s.(messages := s.messages[k := m.(status := Delivered)], announced := s.announced + [id]) else s
  {
    RowIsFound(s, k, id);
  }

  /** Nothing happens to a message that is not there. */
  lemma NobodyIsChanged(s: State, id: string, content: nat, steer: bool, permitted: bool)
    requires Absent(s, id)
    ensures Apply(s, Edit(id, content, steer, permitted)) == s
    ensures Apply(s, Withdraw(id)) == s && Apply(s, Acknowledge(id)) == s
  {
    AbsentIsNotFound(s, id);
  }

  // ----- The scheduler -----

  /**
   * A running turn may take the row: it is queued or sending, in steer mode, not the message being delivered, and while
   * the chat is paused an answer to a question.
   */
  ghost predicate Steers(s: State, m: Message, delivering: Option<string>) {
    && s.active && (m.status == Queued || m.status == Sending) && m.steer
    && (delivering.Some? ==> m.id != delivering.value) && (s.paused ==> m.question.Some?)
  }

  /** Claiming marks exactly those rows as sending. */
  lemma Claiming(s: State, delivering: Option<string>)
    ensures var s' := Apply(s, ClaimSteering(delivering));
            && s' == s.(messages := s'.messages) && |s'.messages| == |s.messages|
            && forall i :: 0 <= i < |s.messages| ==>
                 s'.messages[i] == if Steers(s, s.messages[i], delivering) then s.messages[i].(status := Sending)
                                   else s.messages[i]
  {
  }

  /** Picking requeues every sending row and takes the first row that is queued then, if there is one. */
  lemma Picking(s: State)
    ensures var s' := Apply(s, PickNext);
            && s' == s.(messages := s'.messages, picked := s'.picked) && |s'.messages| == |s.messages|
            && (forall i :: 0 <= i < |s.messages| ==>
                  s'.messages[i] == if s.messages[i].status == Sending then s.messages[i].(status := Queued) else s.messages[i])
            && (s'.picked.None? <==> forall i :: 0 <= i < |s.messages| ==> s'.messages[i].status != Queued)
            && (s'.picked.Some? ==> exists k ::
                  0 <= k < |s.messages| && s'.picked.value == s'.messages[k] && s'.messages[k].status == Queued
                  && forall i :: 0 <= i < k ==> s'.messages[i].status != Queued)
  {
    var s' := Apply(s, PickNext);
    var k := FirstQueued(s'.messages);
    if k < |s.messages| { assert s'.picked == Some(s'.messages[k]); }
  }

  /** The picked message is still queued, in row k, with the same content, and turns may start. */
  ghost predicate MayLaunch(s: State, k: nat) {
    && s.picked.Some? && s.active && !s.paused && IsRow(s, k, s.picked.value.id)
    && s.messages[k].status == Queued && s.messages[k].content == s.picked.value.content
  }

  /** A turn is launched exactly then, and its row is the only one that changes. */
  lemma Launching(s: State)
    requires Reachable(s)
    ensures Launches(s) <==> exists k: nat :: MayLaunch(s, k)
    ensures forall k: nat :: MayLaunch(s, k) ==>
              Apply(s, Launch) == s.(messages := s.messages[k := s.picked.value.(status := Sending, serial := s.messages[k].serial)],
                                     picked := None)
    ensures !Launches(s) ==> Apply(s, Launch) == s.(picked := None)
  {
    forall k: nat | MayLaunch(s, k) ensures Find(s.messages, s.picked.value.id) == k { RowIsFound(s, k, s.picked.value.id); }
    if Launches(s) { assert MayLaunch(s, Find(s.messages, s.picked.value.id)); }
  }
}
