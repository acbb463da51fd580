/** `Chat` of crates/installation/src/chat_process.rs, as far as it decides what is submitted to the thread. */
module CodexChat {
  import opened Common
  import opened CodexHistory
  import Spec = CodexThread

  datatype Inboxed = Inboxed(id: string, question: bool)

  /** What a steer request meets: whether the thread accepts it, and whether its answer comes back. */
  datatype Reply = Reply(accepted: bool, answered: bool)

  /** `Chat`, with the thread it talks to. */
  class Chat {
    var seen: set<string>
    var attempted: set<string>
    var completed: bool
    var delivered: seq<string>
    var thread: seq<Option<string>>

    /** Each message is reported delivered once. */
    ghost predicate Valid()
      reads this
    {
      && (forall i, j :: 0 <= i < j < |delivered| ==> delivered[i] != delivered[j])
      && (forall id :: id in delivered <==> id in seen)
    }

    constructor (thread: seq<Option<string>>)
      ensures Valid() && seen == attempted == {} && !completed && this.thread == thread && delivered == []
    {
      seen, attempted, completed, delivered, this.thread := {}, {}, false, [], thread;
    }

    method Acknowledge(id: string)
      requires Valid()
      modifies this`seen, this`delivered
      ensures Valid() && seen == old(seen) + {id}
    {
      if id !in seen {
        seen := seen + {id};
        delivered := delivered + [id];
      }
    }

    /** Acknowledges every message of the history before anything is submitted. */
    method AcknowledgeHistory(turns: seq<Turn>)
      requires Valid()
      modifies this`seen, this`delivered
      ensures Valid() && seen == old(seen) + Spec.AllIds(turns)
    {
      for i := 0 to |turns|
        invariant Valid() && seen == old(seen) + Spec.AllIds(turns[..i])
      {
        var ids := ClientIds(turns[i].items);
        ghost var before := seen;
        for k := 0 to |ids|
          invariant Valid() && seen == before + FirstIds(ids, k)
        {
          Acknowledge(ids[k]);
        }
        AllIdsSnoc(turns, i);
      }
      assert turns[..|turns|] == turns;
    }

    /** Submits one message, unless it is known; answers whether to go on with the next. */
    method SteerOne(message: Inboxed, reply: Reply) returns (more: bool)
      requires Valid() && (reply.answered ==> reply.accepted)
      modifies this`seen, this`attempted, this`delivered, this`thread
      ensures Valid()
      ensures var e := Spec.Execution("", false, true, completed, old(seen), old(attempted));
              var step := if message.question then Spec.Answer(message.id)
                          else Spec.Steer(message.id, reply.accepted, reply.answered);
              if Spec.Submittable(e, message.id) then
                Spec.State(thread, Some(e.(seen := seen, attempted := attempted))) == Spec.Apply(Spec.State(old(thread), Some(e)), step)
              else seen == old(seen) && attempted == old(attempted) && thread == old(thread)
      ensures if old(completed) || message.id in old(seen) || message.id in old(attempted) then
                more && seen == old(seen) && attempted == old(attempted) && thread == old(thread)
              else
                && attempted == old(attempted) + {message.id} && more == (message.question || reply.answered)
                && thread == old(thread) + (if !message.question && reply.accepted then [Some(message.id)] else [])
                && seen == old(seen) + (if !message.question && reply.answered then {message.id} else {})
    {
      if completed || message.id in seen || message.id in attempted { return true; }
      attempted := attempted + {message.id};
      if message.question { return true; }
      if reply.accepted { thread := thread + [Some(message.id)]; }
      if !reply.answered { return false; }
      Acknowledge(message.id);
      more := true;
    }

    /** Steers with the messages of the inbox; what is in the thread stays there at most once. */
    method Steer(messages: seq<Inboxed>, replies: seq<Reply>)
      requires Valid() && |replies| == |messages| && forall i :: 0 <= i < |replies| ==> replies[i].answered ==> replies[i].accepted
      requires Spec.AtMostOnce(thread) && forall id :: Some(id) in thread ==> id in seen || id in attempted
      modifies this`seen, this`attempted, this`delivered, this`thread
      ensures Valid() && old(thread) <= thread && old(seen) <= seen && old(attempted) <= attempted
      ensures Spec.AtMostOnce(thread) && forall id :: Some(id) in thread ==> id in seen || id in attempted
      ensures !completed && (forall i :: 0 <= i < |replies| ==> replies[i].answered) ==>
                forall i :: 0 <= i < |messages| ==> messages[i].id in seen || messages[i].id in attempted
    {
      var i, more := 0, true;
      while i < |messages| && more
        invariant i <= |messages| && Valid() && old(thread) <= thread && old(seen) <= seen && old(attempted) <= attempted
        invariant (forall k :: 0 <= k < |replies| ==> replies[k].answered) ==> more
        invariant !completed ==> forall k :: 0 <= k < i ==> messages[k].id in seen || messages[k].id in attempted
        invariant Spec.AtMostOnce(thread) && forall id :: Some(id) in thread ==> id in seen || id in attempted
      {
        more := SteerOne(messages[i], replies[i]);
        i := i + 1;
      }
    }
  }

  ghost function FirstIds(ids: seq<string>, k: nat): set<string>
    requires k <= |ids|
  {
    set j | 0 <= j < k :: ids[j]
  }

  lemma AllIdsSnoc(turns: seq<Turn>, i: nat)
    requires i < |turns|
    ensures var ids := ClientIds(turns[i].items); Spec.AllIds(turns[..i + 1]) == Spec.AllIds(turns[..i]) + FirstIds(ids, |ids|)
  {
    var ids := ClientIds(turns[i].items);
    assert forall id :: id in FirstIds(ids, |ids|) <==> id in ids;
    forall id ensures id in Spec.AllIds(turns[..i + 1]) <==> id in Spec.AllIds(turns[..i]) || id in ids {
      if id in Spec.AllIds(turns[..i + 1]) {
        var k :| 0 <= k < i + 1 && id in ClientIds(turns[..i + 1][k].items);
        assert k < i ==> turns[..i][k] == turns[k];
      }
      if id in Spec.AllIds(turns[..i]) {
        var k :| 0 <= k < i && id in ClientIds(turns[..i][k].items);
        assert turns[..i + 1][k] == turns[k];
      }
      if id in ids { assert turns[..i + 1][i] == turns[i]; }
    }
  }
}
