/**
 * What the direct channel does do (apps/web/src/direct-channel.ts): a request is taken while there is room, its frame
 * goes out fragment by fragment and completes, nothing but the end of its request stops it, and what a failure reports
 * says truly whether it was transmitted.
 */
module DirectProgress {
  import opened Common
  import opened Fragments
  import opened DirectChannel
  import Replay

  /** Somebody still wants the frame: it belongs to no request, or to one that is pending. */
  ghost predicate Needed(s: Channel, t: Transfer) {
    t.request.Some? ==> t.request.value in s.pending
  }

  /** The frame is on its way and not wholly transmitted. */
  ghost predicate OnItsWay(s: Channel, i: nat) {
    i < |s.active| && !s.active[i].stopped && s.active[i].offset < |s.active[i].payload|
  }

  // ----- Requests -----

  lemma IdentifierFits(s: Channel)
    requires Reachable(s)
    ensures s.transfer < U32
  {
    ReachableInv(Browser, s);
  }

  lemma NextIdWraps(id: nat)
    requires id < U32
    ensures NextId(id) == if id == 0xFFFF_FFFF then 1 else id + 1
  {
  }

  lemma IdentifiersWrap(s: Channel)
    requires Reachable(s)
    ensures NextId(s.transfer) == if s.transfer == 0xFFFF_FFFF then 1 else s.transfer + 1
  {
    IdentifierFits(s);
    NextIdWraps(s.transfer);
  }

  /**
   * A request is taken exactly if the channel is usable and holds fewer than 32 requests, 8 of them streams: then it is
   * pending and its frame waits under the next identifier. Otherwise it is settled as not sent, and nothing waits.
   */
  lemma RequestsAreTaken(s: Channel, r: nat, payload: Bytes, streaming: bool)
    requires Reachable(s) && Enabled(s, Request(r, payload, streaming))
    ensures var s' := Apply(s, Request(r, payload, streaming));
            var streams := set q | q in s.pending && s.pending[q].streaming;
            if s.open && !s.closed && |s.pending| < 32 && (streaming ==> |streams| < 8) then
              && s'.pending == s.pending[r := Pending(streaming, false, false)] && s'.settled == s.settled
              && (|payload| <= 10_732_204 ==>
                    s'.waiting == s.waiting + [Transfer(if s.transfer == 0xFFFF_FFFF then 1 else s.transfer + 1,
                                                        payload, 0, false, Some(r))])
            else
              s'.pending == s.pending && s'.settled == s.settled[r := NotSent] && s'.waiting == s.waiting
  {
    IdentifiersWrap(s);
  }

  // ----- Fragments -----

  function FragmentLength(t: Transfer): nat
    requires t.offset <= |t.payload|
  {
    if |t.payload| - t.offset < 16_371 then |t.payload| - t.offset else 16_371
  }

  /**
   * The writer adds exactly the next fragment of a frame somebody needs, and changes nothing else, except that the last
   * fragment completes the payload and marks its request as sent.
   */
  lemma WritesTheNextFragment(s: Channel, i: nat)
    requires s.open && !s.closed && OnItsWay(s, i) && Needed(s, s.active[i])
    ensures Enabled(s, Write(i))
    ensures var t, s' := s.active[i], Apply(s, Write(i));
            var next := t.offset + FragmentLength(t);
            && s'.wire == s.wire + [Header(t.id, |t.payload|, t.offset, t.payload[t.offset..next])]
            && s'.active == s.active[i := t.(offset := next)]
            && s'.completed == s.completed + (if next == |t.payload| then [Completion(t.payload, t.request)] else [])
            && s'.pending == (if next == |t.payload| && t.request.Some? then
                                s.pending[t.request.value := s.pending[t.request.value].(sent := true)]
                              else s.pending)
            && s' == s.(wire := s'.wire, active := s'.active, completed := s'.completed, pending := s'.pending)
  {
  }

  /** The writer stops a frame exactly if nobody needs it, and tells the receiver if it has any of it. */
  lemma WritingStopsIff(s: Channel, i: nat)
    requires s.open && !s.closed && OnItsWay(s, i)
    ensures Enabled(s, Write(i))
    ensures var t, s' := s.active[i], Apply(s, Write(i));
            && (s'.active[i].stopped <==> t.request.Some? && t.request.value !in s.pending)
            && (s'.active[i].stopped ==>
                  && s'.wire == s.wire + (if t.offset > 0 then [Header(t.id, 0, 0, [])] else [])
                  && s'.completed == s.completed && s'.pending == s.pending)
  {
  }

  lemma {:induction false} RunsThen(s: Channel, a: seq<Action>, b: seq<Action>)
    requires Runs(s, a) && Runs(End(s, a), b)
    ensures Runs(s, a + b) && End(s, a + b) == End(End(s, a), b)
    decreases |a|
  {
    if a == [] {
      assert a + b == b;
    } else {
      var rest := a[1..];
      assert (a + b)[0] == a[0] && (a + b)[1..] == rest + b;
      RunsThen(Apply(s, a[0]), rest, b);
    }
  }

  lemma {:induction false} RunsOne(s: Channel, a: Action)
    requires Enabled(s, a)
    ensures Runs(s, [a]) && End(s, [a]) == Apply(s, a)
  {
    assert [a][1..] == [];
    assert Runs(Apply(s, a), []) && End(Apply(s, a), []) == Apply(s, a);
  }

  /** The rest of a frame is out: it is complete, and its request marked as sent. */
  ghost predicate WrittenOut(s: Channel, i: nat, e: Channel)
    requires i < |s.active|
  {
    var t := s.active[i];
    && e.active == s.active[i := t.(offset := |t.payload|)]
    && e.completed == s.completed + [Completion(t.payload, t.request)]
    && e.pending.Keys == s.pending.Keys
    && (t.request.Some? && t.request.value in e.pending ==> e.pending[t.request.value].sent)
    && e.waiting == s.waiting && e.outgoingBytes == s.outgoingBytes && e.open == s.open && e.closed == s.closed
    && e.settled == s.settled && e.transfer == s.transfer
  }

  /** As many writes as there are fragments left complete the payload. */
  lemma {:induction false} WritesComplete(s: Channel, i: nat) returns (run: seq<Action>)
    requires s.open && !s.closed && OnItsWay(s, i) && Needed(s, s.active[i])
    ensures |run| == (|s.active[i].payload| - s.active[i].offset + 16_370) / 16_371
    ensures (forall k :: 0 <= k < |run| ==> run[k] == Write(i)) && Runs(s, run) && WrittenOut(s, i, End(s, run))
    decreases if i < |s.active| then |s.active[i].payload| - s.active[i].offset else 0
  {
    WritesTheNextFragment(s, i);
    RunsOne(s, Write(i));
    var t, s' := s.active[i], Apply(s, Write(i));
    run := [Write(i)];
    if t.offset + FragmentLength(t) < |t.payload| {
      var rest := WritesComplete(s', i);
      RunsThen(s, run, rest);
      run := run + rest;
    }
  }

  // ----- Every frame can go out -----

  ghost predicate Working(s: Channel) {
    WellFormed(s) && s.open && !s.closed
  }

  lemma {:induction false} RunsKeepWellFormed(s: Channel, run: seq<Action>)
    requires WellFormed(s) && Runs(s, run)
    ensures WellFormed(End(s, run))
    decreases |run|
  {
    if run != [] {
      KeepsWellFormed(s, run[0]);
      RunsKeepWellFormed(Apply(s, run[0]), run[1..]);
    }
  }

  /** Only frames already there go on. */
  ghost predicate Internal(run: seq<Action>) {
    forall k :: 0 <= k < |run| ==> run[k].Write? || run[k].Release? || run[k].Reserve?
  }

  /** Other frames have gone on; what waits still waits, and whoever is pending still is. */
  ghost predicate Makes(s: Channel, e: Channel) {
    Working(e) && e.waiting == s.waiting && e.pending.Keys == s.pending.Keys && s.completed <= e.completed
  }

  lemma ReleaseNext(s: Channel)
    requires Working(s) && s.active != [] && Finished(s.active[0])
    ensures Runs(s, [Release(0)]) && Makes(s, End(s, [Release(0)]))
    ensures |End(s, [Release(0)]).active| == |s.active| - 1
  {
    RunsOne(s, Release(0));
    KeepsWellFormed(s, Release(0));
  }

  lemma StopNext(s: Channel)
    requires Working(s) && OnItsWay(s, 0) && !Needed(s, s.active[0])
    ensures Runs(s, [Write(0)]) && Makes(s, End(s, [Write(0)]))
    ensures var e := End(s, [Write(0)]); |e.active| == |s.active| && Finished(e.active[0])
  {
    WritingStopsIff(s, 0);
    RunsOne(s, Write(0));
    KeepsWellFormed(s, Write(0));
  }

  /** The first frame on its way is finished, or stopped if nobody needs it. */
  lemma FinishNext(s: Channel) returns (run: seq<Action>)
    requires Working(s) && s.active != []
    ensures Internal(run) && Runs(s, run) && Makes(s, End(s, run))
    ensures var e := End(s, run); |e.active| == |s.active| && Finished(e.active[0])
  {
    assert s.active[0] == (s.waiting + s.active)[|s.waiting|];
    if Finished(s.active[0]) {
      run := [];
    } else if Needed(s, s.active[0]) {
      run := WritesComplete(s, 0);
      RunsKeepWellFormed(s, run);
    } else {
      StopNext(s);
      run := [Write(0)];
    }
  }

  /** One frame on its way can always be got out of the way. */
  lemma ClearNext(s: Channel) returns (run: seq<Action>)
    requires Working(s) && s.active != []
    ensures Internal(run) && Runs(s, run) && Makes(s, End(s, run)) && |End(s, run).active| == |s.active| - 1
  {
    run := FinishNext(s);
    var e := End(s, run);
    ReleaseNext(e);
    RunsThen(s, run, [Release(0)]);
    run := run + [Release(0)];
  }

  /** So there will be room for any frame that waits. */
  lemma {:induction false} RoomComes(s: Channel, i: nat) returns (run: seq<Action>)
    requires Working(s) && i < |s.waiting|
    ensures Internal(run) && Runs(s, run) && Makes(s, End(s, run)) && !NoRoom(End(s, run), s.waiting[i].payload)
    decreases |s.active|
  {
    assert s.waiting[i] == (s.waiting + s.active)[i];
    if !NoRoom(s, s.waiting[i].payload) {
      run := [];
    } else {
      assert s.active != [];
      run := ClearNext(s);
      var e := End(s, run);
      var rest := RoomComes(e, i);
      RunsThen(s, run, rest);
      run := run + rest;
    }
  }

  /** With room, a frame that waits is reserved. */
  lemma ReservesNext(s: Channel, i: nat)
    requires Working(s) && i < |s.waiting| && !NoRoom(s, s.waiting[i].payload)
    ensures Runs(s, [Reserve(i)])
    ensures var e := End(s, [Reserve(i)]);
            Working(e) && e.active == s.active + [s.waiting[i]] && e.pending == s.pending && e.completed == s.completed
  {
    RunsOne(s, Reserve(i));
    KeepsWellFormed(s, Reserve(i));
  }

  /** A later state has completed this payload for this request, and the request, if pending, is marked as sent. */
  ghost predicate Completes(s: Channel, t: Transfer, e: Channel) {
    && s.completed < e.completed && e.completed[|e.completed| - 1] == Completion(t.payload, t.request)
    && (t.request.Some? ==> t.request.value in e.pending && e.pending[t.request.value].sent)
  }

  lemma WaitingIsWhole(s: Channel, i: nat)
    requires WellFormed(s) && i < |s.waiting|
    ensures s.waiting[i].offset == 0 && !s.waiting[i].stopped
  {
  }

  /** With room for it, a frame is reserved and then written out. */
  lemma GoesOut(s: Channel, i: nat) returns (run: seq<Action>)
    requires Working(s) && i < |s.waiting| && !NoRoom(s, s.waiting[i].payload)
    requires s.waiting[i].payload != [] && Needed(s, s.waiting[i])
    ensures Internal(run) && Runs(s, run) && Completes(s, s.waiting[i], End(s, run))
  {
    WaitingIsWhole(s, i);
    ReservesNext(s, i);
    var e := End(s, [Reserve(i)]);
    var rest := WritesComplete(e, |s.active|);
    RunsThen(s, [Reserve(i)], rest);
    run := [Reserve(i)] + rest;
  }

  lemma ReachableWorks(s: Channel)
    requires Reachable(s) && s.open && !s.closed
    ensures Working(s)
  {
    ReachableInv(Browser, s);
  }

  lemma CompletesLater(s: Channel, e: Channel, t: Transfer, later: Channel)
    requires s.completed <= e.completed && Completes(e, t, later)
    ensures Completes(s, t, later)
  {
  }

  lemma {:induction false} WaitingGoesOut(s: Channel, i: nat) returns (run: seq<Action>)
    requires Working(s) && i < |s.waiting| && s.waiting[i].payload != [] && Needed(s, s.waiting[i])
    ensures Internal(run) && Runs(s, run) && Completes(s, s.waiting[i], End(s, run))
  {
    var first := RoomComes(s, i);
    var e := End(s, first);
    var rest := GoesOut(e, i);
    RunsThen(s, first, rest);
    CompletesLater(s, e, s.waiting[i], End(e, rest));
    run := first + rest;
  }

  /** In every reachable usable channel, the frame of any pending request can be transmitted without another request. */
  lemma EveryFrameCanGoOut(s: Channel, i: nat) returns (run: seq<Action>)
    requires Reachable(s) && s.open && !s.closed
    requires i < |s.waiting| && s.waiting[i].payload != [] && Needed(s, s.waiting[i])
    ensures Internal(run) && Runs(s, run) && Completes(s, s.waiting[i], End(s, run))
  {
    ReachableWorks(s);
    run := WaitingGoesOut(s, i);
  }

  // ----- Why frames stop -----

  /** Whoever sent a frame is pending or settled, and while the channel is usable only frames of settled ones stop. */
  ghost predicate FrameOk(s: Channel, t: Transfer) {
    t.request.Some? ==>
      && (t.request.value in s.pending || t.request.value in s.settled)
      && (s.open && !s.closed && t.stopped ==> t.request.value in s.settled)
  }

  ghost predicate FramesOk(s: Channel) {
    && s.pending.Keys !! s.settled.Keys
    && (forall i :: 0 <= i < |s.waiting| ==> FrameOk(s, s.waiting[i]) && !s.waiting[i].stopped)
    && (forall i :: 0 <= i < |s.active| ==> FrameOk(s, s.active[i]))
    && (s.open && !s.closed ==> forall i :: 0 <= i < |s.active| && s.active[i].stopped ==> s.active[i].request.Some?)
  }

  /** No step makes an unusable channel usable, or forgets a request. */
  lemma UsableBefore(s: Channel, a: Action)
    requires Enabled(s, a)
    ensures Apply(s, a).open && !Apply(s, a).closed ==> s.open && !s.closed && !a.Fail? && !a.CloseWriting?
  {
  }

  lemma SettledStay(s: Channel, a: Action)
    requires Enabled(s, a) && s.pending.Keys !! s.settled.Keys
    ensures s.settled.Keys <= Apply(s, a).settled.Keys
    ensures forall r :: r in s.pending ==> r in Apply(s, a).pending || r in Apply(s, a).settled
    ensures Apply(s, a).pending.Keys !! Apply(s, a).settled.Keys
  {
    if a.CloseWriting? {
      LatePacketsMarkNothing(s, a.index);
    } else if a.Write? {
      MarkingKeepsKeys(s.pending, s.active[a.index].request);
    }
  }

  lemma FrameStaysOk(s: Channel, a: Action, t: Transfer)
    requires Enabled(s, a) && s.pending.Keys !! s.settled.Keys && FrameOk(s, t)
    ensures FrameOk(Apply(s, a), t)
  {
    SettledStay(s, a);
    UsableBefore(s, a);
  }

  /** A frame that changes in place. */
  lemma ChangedFrameIsOk(s: Channel, a: Action)
    requires FramesOk(s) && Enabled(s, a) && (a.Write? || a.Fail? || a.CloseWriting?)
    ensures var s' := Apply(s, a);
            && s'.waiting == s.waiting && |s'.active| == |s.active| && FrameOk(s', s'.active[a.index])
            && (forall i :: 0 <= i < |s.active| && i != a.index ==> s'.active[i] == s.active[i])
            && (s'.open && !s'.closed && s'.active[a.index].stopped ==> s'.active[a.index].request.Some?)
  {
    SettledStay(s, a);
    UsableBefore(s, a);
    if a.Write? { WritingStopsIff(s, a.index); }
  }

  lemma FramesStayOk(s: Channel, a: Action)
    requires FramesOk(s) && Enabled(s, a)
    ensures FramesOk(Apply(s, a))
  {
    var s' := Apply(s, a);
    SettledStay(s, a);
    UsableBefore(s, a);
    forall i | 0 <= i < |s.waiting| ensures FrameOk(s', s.waiting[i]) { FrameStaysOk(s, a, s.waiting[i]); }
    forall i | 0 <= i < |s.active| ensures FrameOk(s', s.active[i]) { FrameStaysOk(s, a, s.active[i]); }
    if a.Write? || a.Fail? || a.CloseWriting? { ChangedFrameIsOk(s, a); }
  }

  lemma {:induction false} FramesStayOkOver(s: Channel, run: seq<Action>)
    requires FramesOk(s) && Runs(s, run)
    ensures FramesOk(End(s, run))
    decreases |run|
  {
    if run != [] {
      FramesStayOk(s, run[0]);
      FramesStayOkOver(Apply(s, run[0]), run[1..]);
    }
  }

  /**
   * In every reachable usable channel, a frame on its way has been stopped only if its request is settled and so no
   * longer pending; `WritingStopsIff` is the other half.
   */
  lemma OnlySettledFramesStop(s: Channel, i: nat)
    requires Reachable(s) && s.open && !s.closed && i < |s.active| && s.active[i].stopped
    ensures var r := s.active[i].request; r.Some? && r.value in s.settled && r.value !in s.pending
  {
    var run :| Runs(INITIAL, run) && End(INITIAL, run) == s;
    FramesStayOkOver(INITIAL, run);
  }

  // ----- What failures report -----

  ghost predicate Transmitted(s: Channel, r: nat) {
    exists i :: 0 <= i < |s.completed| && s.completed[i].request == Some(r)
  }

  lemma {:induction false} CountedIsTransmitted(done: seq<Completion>, r: nat)
    requires Replay.Transmissions(done, r) > 0
    ensures exists i :: 0 <= i < |done| && done[i].request == Some(r)
  {
    var n := |done| - 1;
    if done[n].request != Some(r) {
      CountedIsTransmitted(done[..n], r);
      var i :| 0 <= i < n && done[..n][i].request == Some(r);
      assert done[i].request == Some(r);
    }
  }

  lemma SentIffTransmitted(s: Channel, r: nat)
    requires Reachable(s) && r in s.pending
    ensures s.pending[r].sent <==> Transmitted(s, r)
    ensures !s.closed
  {
    ReachableInv(Browser, s);
    if s.pending[r].sent {
      var run :| Runs(INITIAL, run) && End(INITIAL, run) == s;
      Replay.EveryRunTransmits(INITIAL, run, r);
      CountedIsTransmitted(s.completed, r);
    }
  }

  /**
   * A failure tells truly whether the request was wholly transmitted: a close settles it as lost if it was and as not
   * sent if it was not, unless its response had started, and so does a timeout.
   */
  lemma FailuresTellTheTruth(s: Channel, r: nat)
    requires Reachable(s) && r in s.pending
    ensures Apply(s, Close).closed && r in Apply(s, Close).settled
    ensures Apply(s, Close).settled[r]
            == if s.pending[r].started then Interrupted else if Transmitted(s, r) then Lost else NotSent
    ensures !s.pending[r].started ==>
              && Enabled(s, Timeout(r)) && r in Apply(s, Timeout(r)).settled
              && Apply(s, Timeout(r)).settled[r] == if Transmitted(s, r) then TimedOut else NotSent
  {
    SentIffTransmitted(s, r);
  }

  /** Whatever else ends a request settles it as what it is, and nothing but a response marks it as started. */
  lemma RequestsSettleAs(s: Channel, r: nat)
    requires r in s.pending
    ensures Enabled(s, Abort(r))
            && Apply(s, Abort(r)) == s.(pending := s.pending - {r}, settled := s.settled[r := Aborted])
    ensures Enabled(s, Answer(r, false))
            && Apply(s, Answer(r, false)) == s.(pending := s.pending - {r}, settled := s.settled[r := Answered])
    ensures Enabled(s, Answer(r, true))
            && Apply(s, Answer(r, true)) == s.(pending := s.pending - {r}, settled := s.settled[r := Refused])
    ensures !s.pending[r].started ==>
              && Enabled(s, Start(r))
              && Apply(s, Start(r)) == s.(pending := s.pending[r := s.pending[r].(started := true)])
  {
  }

  /** A control frame waits like a request's, but for nobody's sake. */
  lemma ControlFramesWait(s: Channel, payload: Bytes)
    requires Reachable(s) && Enabled(s, Control(payload))
    ensures |payload| <= 10_732_204 ==>
              Apply(s, Control(payload)).waiting
              == s.waiting + [Transfer(if s.transfer == 0xFFFF_FFFF then 1 else s.transfer + 1, payload, 0, false, None)]
    ensures Apply(s, Control(payload)).pending == s.pending && Apply(s, Control(payload)).settled == s.settled
  {
    IdentifiersWrap(s);
  }
}
