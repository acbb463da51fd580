/** `Turn` as the object the source updates in place, with what it reports to the chat. */
module ClaudeTurnObject {
  import opened Common
  import Spec = ClaudeTurn

  /** What the turn does to the outside, in order: events for the chat, and files written. */
  datatype Effect =
    | Delivered(id: string)
    | QuestionClosed(question: Option<string>)
    | Waiting(tasks: map<string, string>)
    | TurnCompleted
    | ReceiptSaved(receipt: Spec.Receipt)
    | OutputWritten(text: string)

  ghost function Deliveries(emitted: seq<Effect>): seq<string> {
    if emitted == [] then []
    else
      var n := |emitted| - 1;
      Deliveries(emitted[..n]) + if emitted[n].Delivered? then [emitted[n].id] else []
  }

  /** Each message is reported delivered once, and exactly the delivered ones are. */
  ghost predicate ReportsOnce(emitted: seq<Effect>, delivered: set<string>) {
    var ids := Deliveries(emitted);
    && (forall i, j :: 0 <= i < j < |ids| ==> ids[i] != ids[j])
    && (forall id :: id in ids <==> id in delivered)
  }

  lemma DeliveriesSnoc(emitted: seq<Effect>, e: Effect)
    ensures Deliveries(emitted + [e]) == Deliveries(emitted) + if e.Delivered? then [e.id] else []
  {
    assert (emitted + [e])[..|emitted|] == emitted;
  }

  lemma ReportsOnceMore(emitted: seq<Effect>, delivered: set<string>, id: string)
    requires ReportsOnce(emitted, delivered) && id !in delivered
    ensures ReportsOnce(emitted + [Delivered(id)], delivered + {id})
  {
    DeliveriesSnoc(emitted, Delivered(id));
    var ids := Deliveries(emitted);
    assert forall i :: 0 <= i < |ids| ==> ids[i] in ids;
    forall x ensures x in ids + [id] <==> x in delivered + {id} {}
  }

  lemma ReportsTheSame(emitted: seq<Effect>, delivered: set<string>, e: Effect)
    requires ReportsOnce(emitted, delivered) && !e.Delivered?
    ensures ReportsOnce(emitted + [e], delivered)
  {
    DeliveriesSnoc(emitted, e);
  }

  class Turn {
    const initialId: string
    const wireId: string
    var submitted: set<string>
    var delivered: set<string>
    var pending: set<string>
    var consumed: set<string>
    var questions: set<string>
    var last: string
    var lastId: string
    var background: map<string, string>
    var awaiting: set<string>
    var replayed: bool
    var waiting: bool
    var emitted: seq<Effect>
    var receipt: Option<Spec.Receipt>

    ghost function State(): Spec.Turn
      reads this
    {
      Spec.Turn(initialId, wireId, submitted, delivered, pending, consumed, questions, last, lastId, background,
                awaiting, replayed, waiting)
    }

    ghost predicate Valid()
      reads this
    {
      ReportsOnce(emitted, delivered)
    }

    constructor (initialId: string, wireId: string)
      ensures Valid() && State() == Spec.Begin(initialId, wireId) && emitted == [] && receipt.None?
    {
      this.initialId, this.wireId := initialId, wireId;
      submitted, delivered, pending, consumed, questions := {initialId}, {}, {initialId}, {}, {};
      last, lastId := "", initialId + "-result";
      background, awaiting, replayed, waiting := map[], {}, false, false;
      emitted, receipt := [], None;
    }

    method Deliver(id: string)
      requires Valid()
      modifies this`delivered, this`emitted
      ensures Valid() && State() == old(State()).(delivered := old(delivered) + {id})
    {
      if id !in delivered {
        ReportsOnceMore(emitted, delivered, id);
        delivered := delivered + {id};
        emitted := emitted + [Delivered(id)];
      } else {
        assert delivered + {id} == delivered;
      }
    }

    method Emit(e: Effect)
      requires Valid() && !e.Delivered?
      modifies this`emitted
      ensures Valid() && emitted == old(emitted) + [e]
    {
      ReportsTheSame(emitted, delivered, e);
      emitted := emitted + [e];
    }

    /** Submits one message, or answers a pending question with it. */
    method Submit(m: Spec.Message)
      requires Valid()
      modifies this
      ensures Valid() && State() == Spec.Submit(old(State()), m) && receipt == old(receipt)
    {
      if m.id in submitted { return; }
      if m.questionId in questions {
        questions := questions - {m.questionId};
        submitted := submitted + {m.id};
        Deliver(m.id);
        Emit(QuestionClosed(Some(m.questionId)));
      } else {
        submitted := submitted + {m.id};
        pending := pending + {m.id};
        waiting := false;
      }
    }

    method PollInbox(messages: seq<Spec.Message>)
      requires Valid()
      modifies this
      ensures Valid() && State() == Spec.SubmitAll(old(State()), messages) && receipt == old(receipt)
    {
      var i := 0;
      while i < |messages|
        invariant i <= |messages| && Valid() && receipt == old(receipt)
        invariant State() == Spec.SubmitAll(old(State()), messages[..i])
      {
        assert messages[..i + 1][..i] == messages[..i];
        Submit(messages[i]);
        i := i + 1;
      }
      assert messages[..i] == messages;
    }

    method AnnounceWaiting()
      requires Valid()
      modifies this`waiting, this`emitted
      ensures Valid() && State() == old(State()).(waiting := background != map[])
      ensures emitted == old(emitted) + [Waiting(background)]
    {
      waiting := background != map[];
      Emit(Waiting(background));
    }

    /** The list of background tasks changed; clients of a waiting agent are told the new list. */
    method BackgroundTasks(tasks: seq<Spec.Task>)
      requires Valid()
      modifies this
      ensures Valid() && State() == Spec.OnListing(old(State()), tasks) && receipt == old(receipt)
      ensures emitted == old(emitted)
                         + if old(waiting) && old(background) != background then [Waiting(background)] else []
    {
      var owned, ambient := Partition(tasks);
      var changed := owned != background;
      background := owned;
      awaiting := awaiting + background.Keys - ambient;
      if waiting && changed { AnnounceWaiting(); }
    }

    method OnUser(uuid: string, notification: bool)
      requires Valid()
      modifies this
      ensures Valid() && State() == Spec.OnUser(old(State()), uuid, notification) && receipt == old(receipt)
    {
      var id := if uuid == wireId then initialId else uuid;
      if id in submitted {
        consumed := consumed + {id};
        Deliver(id);
      }
      if notification { replayed := true; }
    }

    /** Delivers every pending message the result settles, in any order. */
    method Settle(ids: set<string>)
      requires Valid()
      modifies this`pending, this`delivered, this`emitted
      ensures Valid() && receipt == old(receipt)
      ensures var settled := Spec.ChatIds(old(State()), ids) * old(pending);
              State() == old(State()).(pending := old(pending) - settled, delivered := old(delivered) + settled)
    {
      ghost var before := State();
      var rest := ids;
      ghost var done: set<string> := {};
      while rest != {}
        invariant Valid() && receipt == old(receipt) && done !! rest && done + rest == ids
        invariant pending == before.pending - Spec.ChatIds(before, done)
        invariant delivered == before.delivered + Spec.ChatIds(before, done) * before.pending
        decreases rest
      {
        var wire :| wire in rest;
        var id := if wire == wireId then initialId else wire;
        assert Spec.ChatIds(before, done + {wire}) == Spec.ChatIds(before, done) + {id};
        if id in pending {
          pending := pending - {id};
          Deliver(id);
        }
        rest := rest - {wire};
        done := done + {wire};
      }
      assert done == ids;
      assert pending == before.pending - Spec.ChatIds(before, ids) * before.pending;
    }

    method Absorb(text: string, named: Spec.Named, notification: bool)
      requires Valid()
      modifies this
      ensures Valid() && State() == Spec.Absorb(old(State()), text, named, notification) && receipt == old(receipt)
    {
      ghost var before := State();
      var ids := match named
        case All(ids) => ids
        case One(id) => {id}
        case Unnamed => if notification then {} else consumed;
      assert ids == Spec.Settled(before, named, notification);
      Settle(ids);
      if text != "" { last := text; }
      consumed := consumed * pending;
      if replayed || notification { awaiting := awaiting * background.Keys; }
      replayed := false;
    }

    /** A successful result; answers whether the turn is complete. */
    method OnResult(text: string, named: Spec.Named, notification: bool) returns (complete: bool)
      requires Valid()
      modifies this
      ensures Valid() && State() == Spec.OnResult(old(State()), text, named, notification).turn
      ensures complete == Spec.OnResult(old(State()), text, named, notification).Completed?
      ensures complete ==> receipt.Some? && Spec.ReceiptOf(State(), receipt.value)
      ensures !complete ==> receipt == old(receipt)
    {
      Absorb(text, named, notification);
      if pending != {} || background != map[] || awaiting != {} {
        if pending == {} && background != map[] { AnnounceWaiting(); }
        return false;
      }
      Complete();
      complete := true;
    }

    /** Saves the receipt, then the output, before anything reports completion. */
    method Complete()
      requires Valid()
      modifies this`receipt, this`emitted
      ensures Valid() && State() == old(State()) && receipt.Some? && Spec.ReceiptOf(State(), receipt.value)
      ensures emitted == old(emitted) + [ReceiptSaved(receipt.value), OutputWritten(last), QuestionClosed(None), TurnCompleted]
    {
      var ids := Listed(delivered);
      var saved := Spec.Receipt(Some(initialId), ids, Some(last), Some(lastId));
      receipt := Some(saved);
      Emit(ReceiptSaved(saved));
      Emit(OutputWritten(last));
      Emit(QuestionClosed(None));
      Emit(TurnCompleted);
    }
  }

  method Partition(tasks: seq<Spec.Task>) returns (owned: map<string, string>, ambient: set<string>)
    ensures owned == Spec.Owned(tasks) && ambient == Spec.Ambient(tasks)
  {
    owned, ambient := map[], {};
    var i := 0;
    while i < |tasks|
      invariant i <= |tasks| && owned == Spec.Owned(tasks[..i]) && ambient == Spec.Ambient(tasks[..i])
    {
      assert tasks[..i + 1][..i] == tasks[..i];
      assert Spec.Ambient(tasks[..i + 1]) == Spec.Ambient(tasks[..i]) + if tasks[i].ambient then {tasks[i].id} else {};
      if tasks[i].ambient {
        ambient := ambient + {tasks[i].id};
      } else {
        owned := owned[tasks[i].id := tasks[i].description];
      }
      i := i + 1;
    }
    assert tasks[..i] == tasks;
  }

  /** A set as a list, in some order. */
  method Listed(ids: set<string>) returns (list: seq<string>)
    ensures forall id :: id in list <==> id in ids
  {
    list := [];
    var rest := ids;
    while rest != {}
      invariant rest <= ids && forall id :: id in list <==> id in ids - rest
      decreases rest
    {
      var id :| id in rest;
      rest := rest - {id};
      list := list + [id];
    }
  }
}
