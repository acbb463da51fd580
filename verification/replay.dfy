/**
 * Falling back from the direct channel to the relay (apps/web/src/installation-transport.ts): which failed requests
 * may be sent again, and why none of them takes effect twice.
 */
module Replay {
  import opened Common
  import opened DirectChannel

  /** `Identified` is a chat message that carries its own identifier. */
  datatype Kind = Read | Identified | Mutation

  /**
   * The decision of `sendRequest`: anything never sent or refused by the peer before dispatch, and after a connection
   * lost before the response only what is safe to repeat. Once a response has started there is nothing to decide.
   */
  predicate Replayed(kind: Kind, how: Settled) {
    how.NotSent? || how.Refused? || (how.Lost? && !kind.Mutation?)
  }

  // ----- How often a request is transmitted -----

  function Unfinished(request: nat): Transfer -> nat {
    (t: Transfer) => if t.request == Some(request) && !Finished(t) then 1 else 0
  }

  ghost function Transmissions(done: seq<Completion>, request: nat): nat {
    if done == [] then 0
    else Transmissions(done[..|done| - 1], request) + if done[|done| - 1].request == Some(request) then 1 else 0
  }

  /** Frames of the request that are on their way, or complete. */
  ghost function Frames(s: Channel, request: nat): nat {
    Sum(s.waiting, Unfinished(request)) + Sum(s.active, Unfinished(request)) + Transmissions(s.completed, request)
  }

  ghost predicate Known(s: Channel, request: nat) {
    request in s.pending || request in s.settled
  }

  ghost predicate OneFrame(s: Channel, request: nat) {
    Frames(s, request) <= if Known(s, request) then 1 else 0
  }

  lemma TransmissionsSnoc(done: seq<Completion>, c: Completion, request: nat)
    ensures Transmissions(done + [c], request) == Transmissions(done, request) + if c.request == Some(request) then 1 else 0
  {
    assert (done + [c])[..|done|] == done;
  }

  lemma KnownForGood(s: Channel, a: Action, request: nat)
    requires Enabled(s, a) && Known(s, request)
    ensures Known(Apply(s, a), request)
  {
    if a.CloseWriting? {
      LatePacketsMarkNothing(s, a.index);
    } else if a.Write? {
      MarkingKeepsKeys(s.pending, s.active[a.index].request);
    }
  }

  /** A frame is added only when its request is made. */
  lemma EnqueueAdds(s: Channel, payload: Bytes, of: Option<nat>, request: nat)
    ensures Frames(Enqueue(s, payload, of), request) <= Frames(s, request) + if of == Some(request) then 1 else 0
  {
    if |payload| <= Fragments.MAX_FRAME {
      SumSnoc(s.waiting, Transfer(NextId(s.transfer), payload, 0, false, of), Unfinished(request));
    }
  }

  lemma WriteMoves(s: Channel, i: nat, request: nat)
    requires Writable(s, i)
    ensures Frames(WritePacket(s, i), request) <= Frames(s, request)
  {
    var t := s.active[i];
    if Wanted(s, t) {
      SumUpdate(s.active, i, Grown(t), Unfinished(request));
      TransmissionsSnoc(s.completed, Completion(t.payload, t.request), request);
    } else {
      SumUpdate(s.active, i, t.(stopped := true), Unfinished(request));
    }
  }

  lemma ReserveMoves(s: Channel, i: nat, request: nat)
    requires Enabled(s, Reserve(i))
    ensures Frames(Apply(s, Reserve(i)), request) == Frames(s, request)
  {
    SumRemove(s.waiting, i, Unfinished(request));
    SumSnoc(s.active, s.waiting[i], Unfinished(request));
  }

  lemma FramesStep(s: Channel, a: Action, request: nat)
    requires Enabled(s, a)
    ensures Frames(Apply(s, a), request) <= Frames(s, request) + if a.Request? && a.request == request then 1 else 0
  {
    match a {
      case Request(r, payload, streaming) =>
        EnqueueAdds(s.(pending := s.pending[r := Pending(streaming, false, false)]), payload, Some(r), request);
      case Control(payload) => EnqueueAdds(s, payload, None, request);
      case Reserve(i) => ReserveMoves(s, i, request);
      case GiveUp(i) => SumRemove(s.waiting, i, Unfinished(request));
      case Write(i) => WriteMoves(s, i, request);
      case CloseWriting(i) => WriteMoves(CloseAll(s), i, request);
      case Fail(i) => SumUpdate(s.active, i, s.active[i].(stopped := true), Unfinished(request));
      case Release(i) => SumRemove(s.active, i, Unfinished(request));
      case _ =>
    }
  }

  lemma {:induction false} EveryRunSendsOnce(s: Channel, run: seq<Action>, request: nat)
    requires Runs(s, run) && OneFrame(s, request)
    ensures OneFrame(End(s, run), request)
    decreases |run|
  {
    if run != [] {
      FramesStep(s, run[0], request);
      if Known(s, request) { KnownForGood(s, run[0], request); }
      EveryRunSendsOnce(Apply(s, run[0]), run[1..], request);
    }
  }

  lemma {:induction false} NoTransmission(done: seq<Completion>, request: nat)
    requires forall i :: 0 <= i < |done| ==> done[i].request != Some(request)
    ensures Transmissions(done, request) == 0
  {
    if done != [] { NoTransmission(done[..|done| - 1], request); }
  }

  /**
   * How often the installation dispatches a request: over the direct channel, unless it refused it there, and then
   * over the relay if it is replayed.
   */
  ghost function Executions(s: Channel, request: nat, kind: Kind): nat {
    (if request in s.settled && s.settled[request].Refused? then 0 else Transmissions(s.completed, request))
    + if request in s.settled && Replayed(kind, s.settled[request]) then 1 else 0
  }

  /**
   * In every reachable state the installation has assembled a request at most once, and a mutation at most once
   * over both routes together.
   */
  lemma MutationsAreExecutedOnce(s: Channel, request: nat)
    requires Reachable(s)
    ensures Transmissions(s.completed, request) <= 1
    ensures Executions(s, request, Mutation) <= 1
  {
    var run :| Runs(INITIAL, run) && End(INITIAL, run) == s;
    EveryRunSendsOnce(INITIAL, run, request);
    if request in s.settled && s.settled[request].NotSent? {
      NotSentIsNeverTransmitted(s, request);
      NoTransmission(s.completed, request);
    }
  }

  ghost predicate Marked(s: Channel, request: nat) {
    (request in s.pending && s.pending[request].sent) || (request in s.settled && s.settled[request].Lost?)
  }

  /** A request marked as sent, or settled as lost, has been transmitted. */
  ghost predicate SentIsTransmitted(s: Channel, request: nat) {
    Marked(s, request) ==> Transmissions(s.completed, request) > 0
  }

  /** Only writing marks a request, or completes one. */
  lemma OthersMarkNothing(s: Channel, a: Action, request: nat)
    requires Enabled(s, a) && !a.Write? && !a.CloseWriting?
    ensures Marked(Apply(s, a), request) ==> Marked(s, request)
  {
  }

  lemma OthersCompleteNothing(s: Channel, a: Action)
    requires Enabled(s, a) && !a.Write? && !a.CloseWriting?
    ensures Apply(s, a).completed == s.completed
  {
  }

  lemma WritingMarks(s: Channel, i: nat, request: nat)
    requires Writable(s, i) && SentIsTransmitted(s, request)
    ensures SentIsTransmitted(WritePacket(s, i), request)
  {
    if Wanted(s, s.active[i]) {
      TransmissionsSnoc(s.completed, Completion(s.active[i].payload, s.active[i].request), request);
    }
  }

  lemma KeepsTransmitted(s: Channel, a: Action, request: nat)
    requires Enabled(s, a) && SentIsTransmitted(s, request)
    ensures SentIsTransmitted(Apply(s, a), request)
  {
    if a.Write? {
      WritingMarks(s, a.index, request);
    } else if a.CloseWriting? {
      WritingMarks(CloseAll(s), a.index, request);
    } else {
      OthersMarkNothing(s, a, request);
      OthersCompleteNothing(s, a);
    }
  }

  lemma {:induction false} EveryRunTransmits(s: Channel, run: seq<Action>, request: nat)
    requires Runs(s, run) && SentIsTransmitted(s, request)
    ensures SentIsTransmitted(End(s, run), request)
    decreases |run|
  {
    if run != [] {
      KeepsTransmitted(s, run[0], request);
      EveryRunTransmits(Apply(s, run[0]), run[1..], request);
    }
  }

  /** An identified message gets there twice exactly if its connection was lost before its response had started. */
  lemma IdentifiedMessagesTwiceIffLost(s: Channel, request: nat)
    requires Reachable(s)
    ensures Executions(s, request, Identified) <= 2
    ensures Executions(s, request, Identified) == 2 <==> request in s.settled && s.settled[request].Lost?
  {
    MutationsAreExecutedOnce(s, request);
    var run :| Runs(INITIAL, run) && End(INITIAL, run) == s;
    EveryRunTransmits(INITIAL, run, request);
  }

  /**
   * Nothing is given up that is safe to try: a request that was never sent is dispatched exactly once, whatever its
   * kind, a refused one exactly once too, and a read whose connection was lost once more. A lost mutation is not, and
   * nothing else is sent twice.
   */
  lemma UnsentIsDispatchedOnce(s: Channel, request: nat, kind: Kind)
    requires Reachable(s) && request in s.settled
    ensures s.settled[request] == NotSent || s.settled[request] == Refused ==> Executions(s, request, kind) == 1
    ensures s.settled[request] == Lost && kind == Read ==> Executions(s, request, kind) == 2
    ensures s.settled[request] == Lost && kind == Mutation ==> Executions(s, request, kind) == 1
    ensures s.settled[request] !in {NotSent, Refused, Lost} ==>
              Executions(s, request, kind) == Transmissions(s.completed, request)
  {
    MutationsAreExecutedOnce(s, request);
    var run :| Runs(INITIAL, run) && End(INITIAL, run) == s;
    EveryRunTransmits(INITIAL, run, request);
    if s.settled[request].NotSent? {
      NotSentIsNeverTransmitted(s, request);
      NoTransmission(s.completed, request);
    }
  }
}
