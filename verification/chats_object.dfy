/** The chat queue as its transactions update the rows, row by row. */
module ChatsObject {
  import opened Common
  import Spec = Chats
  import Rows = ChatsRows
  type Message = Spec.Message

  class Queue {
    var messages: seq<Message>
    var announced: seq<string>
    var elsewhere: set<string>
    var active: bool
    var paused: bool
    var picked: Option<Message>
    var next: nat
    ghost var withdrawn: set<nat>

    ghost function State(): Spec.State
      reads this
    {
      Spec.State(messages, announced, elsewhere, active, paused, picked, next, withdrawn)
    }

    constructor ()
      ensures State() == Spec.INITIAL
    {
      messages, announced, elsewhere, active, paused := [], [], {}, true, false;
      picked, next, withdrawn := None, 0, {};
    }

    /** How many messages are not delivered yet. */
    method CountUndelivered() returns (count: nat)
      ensures count == Spec.Undelivered(messages)
    {
      count := 0;
      for i := 0 to |messages|
        invariant count == Spec.Undelivered(messages[..i])
      {
        assert messages[..i + 1][..i] == messages[..i];
        if !messages[i].status.Delivered? { count := count + 1; }
      }
      assert messages[..|messages|] == messages;
    }

    /** Stores a message; one sent again with the same content is only answered. */
    method Send(a: Spec.Action) returns (response: Spec.Response)
      requires a.Send?
      modifies this
      ensures response == Spec.Respond(old(State()), a) && State() == Spec.Apply(old(State()), a)
    {
      if !active { return Spec.Conflict; }
      var k := Spec.Find(messages, a.id);
      if k < |messages| {
        var same := messages[k].content == a.content && (a.answer.None? || messages[k].question == a.answer);
        return if same then Spec.Stored(messages[k]) else Spec.Conflict;
      }
      var undelivered := CountUndelivered();
      if undelivered >= Spec.MAX_UNDELIVERED || a.id in elsewhere || !a.permitted { return Spec.Conflict; }
      var message := Spec.Message(a.id, a.content, a.steer, a.answer, Spec.Queued, next);
      messages := messages + [message];
      next := next + 1;
      response := Spec.Stored(message);
    }

    /** Marks a message delivered and announces it, once. */
    method Acknowledge(id: string)
      modifies this
      ensures State() == Spec.Apply(old(State()), Spec.Acknowledge(id))
    {
      var k := Spec.Find(messages, id);
      if k == |messages| { return; }
      var settled := messages[k].status.Delivered? || messages[k].status.Cancelled?;
      if settled || !active { return; }
      messages := messages[k := messages[k].(status := Spec.Delivered)];
      announced := announced + [id];
    }

    /** Marks steering messages as sending, and answers with them in order. */
    method ClaimSteering(delivering: Option<string>) returns (steering: seq<Message>)
      modifies this`messages
      ensures State() == Spec.Apply(old(State()), Spec.ClaimSteering(delivering))
      ensures forall i :: 0 <= i < |messages| ==>
                messages[i] == if Rows.Steers(old(State()), old(messages)[i], delivering)
                               then old(messages)[i].(status := Spec.Sending) else old(messages)[i]
      ensures exists places :: AreRows(old(State()), messages, delivering, places, steering)
    {
      ghost var before := State();
      Rows.Claiming(before, delivering);
      if !active {
        assert AreRows(before, messages, delivering, [], []);
        return [];
      }
      ClaimedAreRows(before, messages, delivering);
      messages, steering := Claim(messages, paused, delivering);
    }

    /** Requeues what an interrupted turn left sending, and picks the first queued message. */
    method NextQueued()
      modifies this`messages, this`picked
      ensures State() == Spec.Apply(old(State()), Spec.PickNext)
    {
      var all := Requeue(messages);
      var choice := Spec.Choice(all);
      messages, picked := all, choice;
    }

    /** Starts the turn for the picked message, unless it or the chat changed meanwhile. */
    method LaunchTurn() returns (launched: bool)
      modifies this`messages, this`picked
      ensures launched == Spec.Launches(old(State())) && State() == Spec.Apply(old(State()), Spec.Launch)
      ensures launched ==> old(active) && !old(paused) && old(picked).Some?
    {
      if picked.None? { return false; }
      var message := picked.value;
      picked := None;
      var k := Spec.Find(messages, message.id);
      var current := k < |messages| && messages[k].status.Queued? && messages[k].content == message.content;
      if !active || paused || !current { return false; }
      messages := messages[k := message.(status := Spec.Sending, serial := messages[k].serial)];
      launched := true;
    }
  }

  /** The messages are those at these places of the rows, in order: exactly the rows a running turn may take. */
  ghost predicate AreRows(
    s: Spec.State, rows: seq<Message>, delivering: Option<string>, places: seq<nat>, steering: seq<Message>
  ) {
    && |places| == |steering| && |rows| == |s.messages|
    && (forall i, j :: 0 <= i < j < |places| ==> places[i] < places[j])
    && (forall i :: 0 <= i < |places| ==> places[i] < |rows| && steering[i] == rows[places[i]])
    && (forall p :: 0 <= p < |rows| ==> (p in places <==> Rows.Steers(s, s.messages[p], delivering)))
  }

  /** The messages claimed, as the running turn gets to see them. */
  function Claimed(rows: seq<Message>, paused: bool, delivering: Option<string>): seq<Message> {
    if rows == [] then []
    else
      var m := rows[|rows| - 1];
      Claimed(rows[..|rows| - 1], paused, delivering)
      + if Spec.Claimable(m, paused, delivering) then [m.(status := Spec.Sending)] else []
  }

  lemma {:induction false} ClaimedPlaces(rows: seq<Message>, paused: bool, delivering: Option<string>)
    returns (places: seq<nat>)
    ensures |places| == |Claimed(rows, paused, delivering)|
    ensures forall i, j :: 0 <= i < j < |places| ==> places[i] < places[j]
    ensures forall i :: 0 <= i < |places| ==>
              places[i] < |rows| && Claimed(rows, paused, delivering)[i] == rows[places[i]].(status := Spec.Sending)
    ensures forall p :: 0 <= p < |rows| ==> (p in places <==> Spec.Claimable(rows[p], paused, delivering))
  {
    if rows == [] {
      places := [];
    } else {
      var n := |rows| - 1;
      var front := rows[..n];
      places := ClaimedPlaces(front, paused, delivering);
      forall i | 0 <= i < |places| ensures rows[places[i]] == front[places[i]] {}
      forall p | 0 <= p < n ensures p in places <==> Spec.Claimable(rows[p], paused, delivering) {
        assert front[p] == rows[p];
      }
      if Spec.Claimable(rows[n], paused, delivering) { places := places + [n]; }
    }
  }

  lemma ClaimedAreRows(s: Spec.State, rows: seq<Message>, delivering: Option<string>)
    requires s.active && s.messages == rows
    ensures exists places :: AreRows(s, Spec.ClaimAll(rows, s.paused, delivering), delivering, places,
                                     Claimed(rows, s.paused, delivering))
  {
    var places := ClaimedPlaces(rows, s.paused, delivering);
    assert AreRows(s, Spec.ClaimAll(rows, s.paused, delivering), delivering, places, Claimed(rows, s.paused, delivering));
  }

  method Claim(rows: seq<Message>, paused: bool, delivering: Option<string>) returns (all: seq<Message>, steering: seq<Message>)
    ensures all == Spec.ClaimAll(rows, paused, delivering) && steering == Claimed(rows, paused, delivering)
  {
    all, steering := [], [];
    for i := 0 to |rows|
      invariant all == Spec.ClaimAll(rows[..i], paused, delivering) && steering == Claimed(rows[..i], paused, delivering)
    {
      assert rows[..i + 1][..i] == rows[..i] && rows[..i + 1][i] == rows[i];
      if Spec.Claimable(rows[i], paused, delivering) {
        all := all + [rows[i].(status := Spec.Sending)];
        steering := steering + [rows[i].(status := Spec.Sending)];
      } else {
        all := all + [rows[i]];
      }
    }
    assert rows[..|rows|] == rows;
  }

  method Requeue(rows: seq<Message>) returns (all: seq<Message>)
    ensures all == Spec.RequeueAll(rows)
  {
    all := [];
    for i := 0 to |rows|
      invariant all == Spec.RequeueAll(rows[..i])
    {
      assert rows[..i + 1][..i] == rows[..i];
      all := all + [if rows[i].status.Sending? then rows[i].(status := Spec.Queued) else rows[i]];
    }
    assert rows[..|rows|] == rows;
  }
}
