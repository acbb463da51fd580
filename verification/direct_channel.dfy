/**
 * The sending half of the direct channel (apps/web/src/direct-channel.ts) as a state machine over its
 * synchronous turns, composed with a receiver that may lag arbitrarily far behind.
 *
 * A call of `send` is suspended at its awaits; the suspended calls are the `waiting` transfers (no
 * reservation yet) and the `active` ones (reserved). Every other turn may run between two turns of a call.
 */
module DirectChannel {
  import opened Common
  import opened Fragments

  const MAX_PENDING := 32
  const MAX_STREAMS := 8

  /** A suspended call of `send`; `request` names the request whose presence `valid()` checks. */
  datatype Transfer = Transfer(id: nat, payload: Bytes, offset: nat, stopped: bool, request: Option<nat>)

  datatype Pending = Pending(streaming: bool, started: bool, sent: bool)

  /**
   * How a request's promise (or its stream) settled. `Interrupted` is a stream cut off after its response had
   * started; `Refused` is the peer's own refusal.
   */
  datatype Settled = NotSent | Lost | Interrupted | TimedOut | Aborted | Answered | Refused

  /** A payload whose last fragment was handed to the channel. */
  datatype Completion = Completion(payload: Bytes, request: Option<nat>)

  datatype Channel = Channel(
    transfer: nat,
    waiting: seq<Transfer>,
    active: seq<Transfer>,
    outgoingBytes: int,
    open: bool,
    closed: bool,
    pending: map<nat, Pending>,
    settled: map<nat, Settled>,
    wire: seq<Header>,
    completed: seq<Completion>
  )

  const INITIAL := Channel(0, [], [], 0, true, false, map[], map[], [], [])

  // ----- Transfer identifiers -----

  /** `(transfer + 1) >>> 0 || 1`. */
  function NextId(id: nat): nat {
    var bumped := (id + 1) % U32;
    if bumped == 0 then 1 else bumped
  }

  function IdAfter(sends: nat): nat {
    if sends == 0 then 0 else NextId(IdAfter(sends - 1))
  }

  lemma NextIdCounts(id: nat, k: nat)
    requires id == k % 0xFFFF_FFFF + 1
    ensures NextId(id) == (k + 1) % 0xFFFF_FFFF + 1
  {
  }

  lemma {:induction false} IdClosedForm(sends: nat)
    requires sends > 0
    ensures IdAfter(sends) == (sends - 1) % 0xFFFF_FFFF + 1
  {
    if sends > 1 {
      IdClosedForm(sends - 1);
      NextIdCounts(IdAfter(sends - 1), sends - 2);
    }
  }

  /** Two sends share an identifier exactly when a multiple of 2^32 - 1 sends lies between them. */
  lemma {:induction false} IdsRecur(a: nat, b: nat)
    requires 0 < a <= b
    ensures IdAfter(a) == IdAfter(b) <==> (b - a) % 0xFFFF_FFFF == 0
  {
    IdClosedForm(a);
    IdClosedForm(b);
    SameRemainder(a - 1, b - 1);
  }

  lemma {:induction false} SameRemainder(x: nat, y: nat)
    requires x <= y
    ensures x % 0xFFFF_FFFF == y % 0xFFFF_FFFF <==> (y - x) % 0xFFFF_FFFF == 0
  {
    var p, q, d := x / 0xFFFF_FFFF, y / 0xFFFF_FFFF, (y - x) / 0xFFFF_FFFF;
    assert y - x == 0xFFFF_FFFF * (q - p) + (y % 0xFFFF_FFFF - x % 0xFFFF_FFFF);
  }

  // ----- Turns -----

  /** `CloseWriting` closes the channel after a writer has waited for capacity: its packet still goes out. */
  datatype Action =
    | Request(request: nat, payload: Bytes, streaming: bool)
    | Control(payload: Bytes)
    | Reserve(index: nat)
    | GiveUp(index: nat)
    | Write(index: nat)
    | Fail(index: nat)
    | Release(index: nat)
    | Timeout(request: nat)
    | Abort(request: nat)
    | Start(request: nat)
    | Answer(request: nat, refused: bool)
    | ChannelDown
    | Close
    | CloseWriting(index: nat)

  predicate Usable(s: Channel) {
    s.open && !s.closed
  }

  /** `valid()`: a request's frame is sent only while the request is pending. */
  predicate Wanted(s: Channel, t: Transfer) {
    t.request.None? || t.request.value in s.pending
  }

  predicate NoRoom(s: Channel, payload: Bytes) {
    |s.active| >= MAX_TRANSFERS || s.outgoingBytes + |payload| > MAX_FRAME
  }

  function Streams(s: Channel): nat {
    |set r | r in s.pending && s.pending[r].streaming|
  }

  predicate Overloaded(s: Channel, streaming: bool) {
    |s.pending| >= MAX_PENDING || (streaming && Streams(s) >= MAX_STREAMS)
  }

  /** The start of `send`: an oversized frame throws, another gets the next identifier. */
  function Enqueue(s: Channel, payload: Bytes, request: Option<nat>): Channel {
    if |payload| > MAX_FRAME then s
    else
      var id := NextId(s.transfer);
      s.(transfer := id, waiting := s.waiting + [Transfer(id, payload, 0, false, request)])
  }

  function Remove<T>(list: seq<T>, index: nat): seq<T>
    requires index < |list|
  {
    list[..index] + list[index + 1..]
  }

  /** The next fragment's length. */
  function Span(t: Transfer): nat
    requires t.offset <= |t.payload|
  {
    if |t.payload| - t.offset < MAX_PACKET - HEADER then |t.payload| - t.offset else MAX_PACKET - HEADER
  }

  /** The header-only packet that abandons a transfer. */
  function AbandonPacket(id: nat): Header {
    Header(id, 0, 0, [])
  }

  function NextPacket(t: Transfer): Header
    requires t.offset <= |t.payload|
  {
    Header(t.id, |t.payload|, t.offset, t.payload[t.offset..t.offset + Span(t)])
  }

  function Grown(t: Transfer): Transfer
    requires t.offset <= |t.payload|
  {
    t.(offset := t.offset + Span(t))
  }

  /** One turn of the writer for a transfer: its next fragment, or its abandonment. */
  function WritePacket(s: Channel, index: nat): Channel
    requires index < |s.active| && s.active[index].offset <= |s.active[index].payload|
  {
    var t := s.active[index];
    if !Wanted(s, t) then
      s.(active := s.active[index := t.(stopped := true)],
         wire := if t.offset > 0 then s.wire + [AbandonPacket(t.id)] else s.wire)
    else
      var sent := s.(active := s.active[index := Grown(t)], wire := s.wire + [NextPacket(t)]);
      if !Finished(Grown(t)) then sent else
      sent.(completed := s.completed + [Completion(t.payload, t.request)],
            pending := MarkSent(s.pending, t.request))
  }

  /** The `sent` callback. */
  function MarkSent(pending: map<nat, Pending>, request: Option<nat>): map<nat, Pending> {
    if request.Some? && request.value in pending then
      pending[request.value := pending[request.value].(sent := true)]
    else
      pending
  }

  function Forget(s: Channel, request: nat, how: Settled): Channel {
    s.(pending := s.pending - {request}, settled := s.settled[request := how])
  }

  function OnClose(p: Pending): Settled {
    if p.started then Interrupted else if p.sent then Lost else NotSent
  }

  function SettleAll(pending: map<nat, Pending>): map<nat, Settled> {
    map r | r in pending :: OnClose(pending[r])
  }

  function CloseAll(s: Channel): Channel {
    if s.closed then s else s.(closed := true, pending := map[], settled := s.settled + SettleAll(s.pending))
  }

  predicate Finished(t: Transfer) {
    t.stopped || t.offset == |t.payload|
  }

  predicate Writable(s: Channel, index: nat) {
    index < |s.active| && !Finished(s.active[index]) && s.active[index].offset <= |s.active[index].payload|
  }

  /** The identifiers of suspended calls do not include the one the next call will take. */
  predicate IdFree(s: Channel) {
    forall t :: t in s.waiting + s.active ==> t.id != NextId(s.transfer)
  }

  predicate Enabled(s: Channel, a: Action) {
    match a
    case Request(r, _, _) => r !in s.pending && r !in s.settled && IdFree(s)
    case Control(_) => IdFree(s)
    case Reserve(i) => i < |s.waiting| && !NoRoom(s, s.waiting[i].payload)
    case GiveUp(i) =>
      i < |s.waiting| && NoRoom(s, s.waiting[i].payload) && (s.closed || !Wanted(s, s.waiting[i]))
    case Write(i) => Writable(s, i) && Usable(s)
    case Fail(i) => i < |s.active| && !Finished(s.active[i]) && !Usable(s)
    case Release(i) => i < |s.active| && Finished(s.active[i])
    case Timeout(r) => r in s.pending && !s.pending[r].started
    case Abort(r) => r in s.pending
    case Start(r) => r in s.pending && !s.pending[r].started
    case Answer(r, _) => r in s.pending
    case ChannelDown => true
    case Close => true
    case CloseWriting(i) => Writable(s, i) && Usable(s)
  }

  function Apply(s: Channel, a: Action): Channel
    requires Enabled(s, a)
  {
    match a
    case Request(r, payload, streaming) =>
      if !Usable(s) || Overloaded(s, streaming) then s.(settled := s.settled[r := NotSent])
      else Enqueue(s.(pending := s.pending[r := Pending(streaming, false, false)]), payload, Some(r))
    case Control(payload) => Enqueue(s, payload, None)
    case Reserve(i) =>
      var t := s.waiting[i];
      s.(waiting := Remove(s.waiting, i), active := s.active + [t],
         outgoingBytes := s.outgoingBytes + |t.payload|)
    case GiveUp(i) => s.(waiting := Remove(s.waiting, i))
    case Write(i) => WritePacket(s, i)
    case Fail(i) => s.(active := s.active[i := s.active[i].(stopped := true)])
    case Release(i) =>
      s.(active := Remove(s.active, i), outgoingBytes := s.outgoingBytes - |s.active[i].payload|)
    case Timeout(r) => Forget(s, r, if s.pending[r].sent then TimedOut else NotSent)
    case Abort(r) => Forget(s, r, Aborted)
    case Start(r) => s.(pending := s.pending[r := s.pending[r].(started := true)])
    case Answer(r, refused) => Forget(s, r, if refused then Refused else Answered)
    case ChannelDown => s.(open := false)
    case Close => CloseAll(s)
    case CloseWriting(i) => WritePacket(CloseAll(s), i)
  }

  /** Whether every turn of a run could be taken, and where the run ends. */
  ghost predicate Runs(s: Channel, run: seq<Action>)
    decreases |run|
  {
    run == [] || (Enabled(s, run[0]) && Runs(Apply(s, run[0]), run[1..]))
  }

  ghost function End(s: Channel, run: seq<Action>): Channel
    requires Runs(s, run)
    decreases |run|
  {
    if run == [] then s else End(Apply(s, run[0]), run[1..])
  }

  // ----- Sums over transfers -----

  ghost function Sum(ts: seq<Transfer>, f: Transfer -> nat): nat {
    if ts == [] then 0 else Sum(ts[..|ts| - 1], f) + f(ts[|ts| - 1])
  }

  lemma SumSnoc(ts: seq<Transfer>, t: Transfer, f: Transfer -> nat)
    ensures Sum(ts + [t], f) == Sum(ts, f) + f(t)
  {
    assert (ts + [t])[..|ts|] == ts;
  }

  lemma {:induction false} SumUpdate(ts: seq<Transfer>, i: nat, t: Transfer, f: Transfer -> nat)
    requires i < |ts|
    ensures Sum(ts[i := t], f) + f(ts[i]) == Sum(ts, f) + f(t)
    decreases |ts|
  {
    var last := |ts| - 1;
    if i == last {
      assert ts[i := t][..last] == ts[..last];
    } else {
      SumUpdate(ts[..last], i, t, f);
      assert ts[i := t][..last] == ts[..last][i := t];
    }
  }

  lemma {:induction false} SumRemove(ts: seq<Transfer>, i: nat, f: Transfer -> nat)
    requires i < |ts|
    ensures Sum(Remove(ts, i), f) + f(ts[i]) == Sum(ts, f)
    decreases |ts|
  {
    var last := |ts| - 1;
    if i == last {
      assert Remove(ts, i) == ts[..last];
    } else {
      SumRemove(ts[..last], i, f);
      assert Remove(ts, i) == Remove(ts[..last], i) + [ts[last]];
      SumSnoc(Remove(ts[..last], i), ts[last], f);
    }
  }

  lemma {:induction false} SumBelow(ts: seq<Transfer>, f: Transfer -> nat, g: Transfer -> nat)
    requires forall t :: t in ts ==> f(t) <= g(t)
    ensures Sum(ts, f) <= Sum(ts, g)
    decreases |ts|
  {
    if ts != [] {
      SumBelow(ts[..|ts| - 1], f, g);
    }
  }

  // ----- What every reachable channel keeps -----

  /** Part of the payload is with the receiver and the rest is still to come. */
  predicate Partial(t: Transfer) {
    !t.stopped && 0 < t.offset < |t.payload|
  }

  ghost const Reserved: Transfer -> nat := (t: Transfer) => |t.payload|
  ghost const Held: Transfer -> nat := (t: Transfer) => if Partial(t) then t.offset else 0
  ghost const Declared: Transfer -> nat := (t: Transfer) => if Partial(t) then |t.payload| else 0

  /** Identifiers are usable and distinct, and no transfer is past its end or above the frame limit. */
  ghost predicate Distinct(ts: seq<Transfer>) {
    && (forall i :: 0 <= i < |ts| ==> 0 < ts[i].id < U32 && ts[i].offset <= |ts[i].payload| <= MAX_FRAME)
    && (forall i, j :: 0 <= i < j < |ts| ==> ts[i].id != ts[j].id)
  }

  ghost predicate Untouched(ts: seq<Transfer>) {
    forall i :: 0 <= i < |ts| ==> ts[i].offset == 0 && !ts[i].stopped
  }

  ghost predicate Budgeted(s: Channel) {
    && s.outgoingBytes == Sum(s.active, Reserved) <= MAX_FRAME
    && |s.active| <= MAX_TRANSFERS
  }

  ghost predicate WellFormed(s: Channel) {
    s.transfer < U32 && Distinct(s.waiting + s.active) && Untouched(s.waiting) && Budgeted(s)
  }

  ghost predicate OnWire(s: Channel) {
    forall i :: 0 <= i < |s.wire| ==> Sendable(s.wire[i])
  }

  /** The receiver holds exactly the transmitted part of each partially sent transfer. */
  ghost predicate Mirrors(r: Receiver, ts: seq<Transfer>) {
    && r.buffered == Sum(ts, Held)
    && r.reserved == Sum(ts, Declared)
    && (forall i :: 0 <= i < |ts| && Partial(ts[i]) ==> HoldsPrefix(r, ts[i]))
    && (forall id :: id in r.assemblies ==> InProgress(ts, id))
  }

  ghost predicate InProgress(ts: seq<Transfer>, id: nat) {
    exists i :: 0 <= i < |ts| && Partial(ts[i]) && ts[i].id == id
  }

  ghost predicate HoldsPrefix(r: Receiver, t: Transfer) {
    && t.id in r.assemblies
    && var a := r.assemblies[t.id];
       a.total == |t.payload| && a.length == t.offset <= |t.payload| && Flatten(a.chunks) == t.payload[..t.offset]
  }

  ghost function Payloads(done: seq<Completion>): seq<Bytes> {
    if done == [] then [] else Payloads(done[..|done| - 1]) + [done[|done| - 1].payload]
  }

  /** The receiver took every packet so far and delivered exactly the completed payloads. */
  ghost predicate InStep(peer: Peer, s: Channel) {
    var got := ReceiveAll(peer, s.wire);
    && got.Healthy?
    && got.frames == Payloads(s.completed)
    && (Usable(s) ==> Mirrors(got.receiver, s.active))
  }

  /** A transmitted request is pending and marked sent, or settled otherwise than as not sent. */
  ghost predicate Accounted(request: nat, pending: map<nat, Pending>, settled: map<nat, Settled>) {
    || (request in pending && pending[request].sent)
    || (request in settled && settled[request] != NotSent)
  }

  ghost predicate Honest(s: Channel) {
    && (forall i :: 0 <= i < |s.completed| && s.completed[i].request.Some? ==>
          Accounted(s.completed[i].request.value, s.pending, s.settled))
    && s.pending.Keys !! s.settled.Keys
    && (s.closed ==> s.pending == map[])
  }

  ghost predicate Inv(peer: Peer, s: Channel) {
    WellFormed(s) && OnWire(s) && InStep(peer, s) && Honest(s)
  }

  // ----- Preservation -----

  lemma RemoveKeepsDistinct(ts: seq<Transfer>, i: nat)
    requires Distinct(ts) && i < |ts|
    ensures Distinct(Remove(ts, i)) && Distinct(Remove(ts, i) + [ts[i]])
  {
    var ts' := Remove(ts, i) + [ts[i]];
    var from := (z: nat) => if z < i then z else if z < |ts| - 1 then z + 1 else i;
    assert forall z: nat :: z < |ts'| ==> ts'[z] == ts[from(z)];
    forall x, y | 0 <= x < y < |ts'| ensures ts'[x].id != ts'[y].id {
      assert ts'[x] == ts[from(x)] && ts'[y] == ts[from(y)];
    }
    assert forall z :: 0 <= z < |ts| - 1 ==> Remove(ts, i)[z] == ts'[z];
  }

  lemma SnocKeepsDistinct(before: seq<Transfer>, t: Transfer, after: seq<Transfer>)
    requires Distinct(before + after) && 0 < t.id < U32 && t.offset <= |t.payload| <= MAX_FRAME
    requires forall u :: u in before + after ==> u.id != t.id
    ensures Distinct(before + [t] + after)
  {
    var all, all', w := before + after, before + [t] + after, |before|;
    var from := (z: nat) => if z < w then z else z - 1;
    assert forall z: nat :: z < |all'| && z != w ==> all'[z] == all[from(z)] && all[from(z)] in all;
    forall x, y | 0 <= x < y < |all'| ensures all'[x].id != all'[y].id {
      assert x != w ==> all'[x] == all[from(x)];
      assert y != w ==> all'[y] == all[from(y)];
    }
  }

  lemma MoveAcross(waiting: seq<Transfer>, active: seq<Transfer>, i: nat)
    requires i < |waiting|
    ensures Remove(waiting, i) + (active + [waiting[i]]) ==
            Remove(waiting + active, i) + [(waiting + active)[i]]
  {
  }

  lemma ReserveKeepsWellFormed(s: Channel, i: nat)
    requires WellFormed(s) && Enabled(s, Reserve(i))
    ensures WellFormed(Apply(s, Reserve(i)))
  {
    var s' := Apply(s, Reserve(i));
    assert Budgeted(s') by { SumSnoc(s.active, s.waiting[i], Reserved); }
    assert Distinct(s'.waiting + s'.active) by {
      MoveAcross(s.waiting, s.active, i);
      RemoveKeepsDistinct(s.waiting + s.active, i);
    }
  }

  lemma GiveUpKeepsWellFormed(s: Channel, i: nat)
    requires WellFormed(s) && Enabled(s, GiveUp(i))
    ensures WellFormed(Apply(s, GiveUp(i)))
  {
    var s' := Apply(s, GiveUp(i));
    RemoveKeepsDistinct(s.waiting + s.active, i);
    assert s'.waiting + s'.active == Remove(s.waiting + s.active, i);
  }

  lemma RemoveAcross(waiting: seq<Transfer>, active: seq<Transfer>, i: nat)
    requires i < |active|
    ensures waiting + Remove(active, i) == Remove(waiting + active, |waiting| + i)
  {
  }

  lemma ReleaseKeepsWellFormed(s: Channel, i: nat)
    requires WellFormed(s) && Enabled(s, Release(i))
    ensures WellFormed(Apply(s, Release(i)))
  {
    var s' := Apply(s, Release(i));
    assert Budgeted(s') by { SumRemove(s.active, i, Reserved); }
    assert Distinct(s'.waiting + s'.active) by {
      RemoveAcross(s.waiting, s.active, i);
      RemoveKeepsDistinct(s.waiting + s.active, |s.waiting| + i);
    }
  }

  lemma KeepsWellFormed(s: Channel, a: Action)
    requires WellFormed(s) && Enabled(s, a)
    ensures WellFormed(Apply(s, a))
  {
    match a
    case Request(r, payload, streaming) =>
      EnqueueKeepsWellFormed(s.(pending := s.pending[r := Pending(streaming, false, false)]), payload, Some(r));
    case Control(payload) => EnqueueKeepsWellFormed(s, payload, None);
    case Reserve(i) => ReserveKeepsWellFormed(s, i);
    case GiveUp(i) => GiveUpKeepsWellFormed(s, i);
    case Release(i) => ReleaseKeepsWellFormed(s, i);
    case Write(i) => UpdateKeepsWellFormed(s, i, Apply(s, a));
    case CloseWriting(i) => UpdateKeepsWellFormed(s, i, Apply(s, a));
    case Fail(i) =>
      assert s.active[i] == (s.waiting + s.active)[|s.waiting| + i];
      UpdateKeepsWellFormed(s, i, Apply(s, a));
    case _ =>
  }

  lemma EnqueueKeepsWellFormed(s: Channel, payload: Bytes, request: Option<nat>)
    requires WellFormed(s) && IdFree(s)
    ensures WellFormed(Enqueue(s, payload, request))
  {
    if |payload| <= MAX_FRAME {
      SnocKeepsDistinct(s.waiting, Transfer(NextId(s.transfer), payload, 0, false, request), s.active);
    }
  }

  /** Advancing or stopping one transfer changes neither identifiers nor reservations. */
  lemma UpdateKeepsWellFormed(s: Channel, i: nat, s': Channel)
    requires WellFormed(s) && i < |s.active| && |s'.active| == |s.active|
    requires s'.waiting == s.waiting && s'.transfer == s.transfer && s'.outgoingBytes == s.outgoingBytes
    requires s'.active == s.active[i := s'.active[i]]
    requires s'.active[i].id == s.active[i].id && s'.active[i].payload == s.active[i].payload
    requires s'.active[i].offset <= |s.active[i].payload|
    ensures WellFormed(s')
  {
    SumUpdate(s.active, i, s'.active[i], Reserved);
    var all, all', at := s.waiting + s.active, s'.waiting + s'.active, |s.waiting| + i;
    assert all[at] == s.active[i] && all'[at] == s'.active[i];
    assert forall x :: 0 <= x < |all| && x != at ==> all'[x] == all[x];
  }

  /** No turn turns an accounted request into one that is not. */
  lemma StaysAccounted(s: Channel, a: Action, request: nat)
    requires Enabled(s, a) && s.pending.Keys !! s.settled.Keys && Accounted(request, s.pending, s.settled)
    ensures Accounted(request, Apply(s, a).pending, Apply(s, a).settled)
  {
    if a.Write? {
      MarkingKeepsAccounted(s, s.active[a.index].request, request);
    } else if a.CloseWriting? {
      MarkingKeepsAccounted(CloseAll(s), s.active[a.index].request, request);
    }
  }

  lemma MarkingKeepsAccounted(s: Channel, sent: Option<nat>, request: nat)
    requires Accounted(request, s.pending, s.settled)
    ensures Accounted(request, MarkSent(s.pending, sent), s.settled)
  {
  }

  lemma KeepsHonest(s: Channel, a: Action)
    requires Honest(s) && Enabled(s, a)
    ensures Honest(Apply(s, a))
  {
    var s' := Apply(s, a);
    forall i | 0 <= i < |s'.completed| && s'.completed[i].request.Some?
      ensures Accounted(s'.completed[i].request.value, s'.pending, s'.settled)
    {
      if i < |s.completed| {
        assert s'.completed[i] == s.completed[i];
        StaysAccounted(s, a, s.completed[i].request.value);
      }
    }
    KeepsApart(s, a);
  }

  /** A packet that goes out while the channel closes finds nothing pending. */
  lemma LatePacketsMarkNothing(s: Channel, i: nat)
    requires Writable(s, i) && Usable(s)
    ensures var s' := WritePacket(CloseAll(s), i);
            s'.pending == map[] && s'.settled == CloseAll(s).settled && s'.closed
  {
  }

  lemma KeepsApart(s: Channel, a: Action)
    requires s.pending.Keys !! s.settled.Keys && (s.closed ==> s.pending == map[]) && Enabled(s, a)
    ensures Apply(s, a).pending.Keys !! Apply(s, a).settled.Keys
    ensures Apply(s, a).closed ==> Apply(s, a).pending == map[]
  {
    if a.CloseWriting? {
      LatePacketsMarkNothing(s, a.index);
    } else if a.Write? {
      MarkingKeepsKeys(s.pending, s.active[a.index].request);
    }
  }

  lemma MarkingKeepsKeys(pending: map<nat, Pending>, request: Option<nat>)
    ensures MarkSent(pending, request).Keys == pending.Keys
  {
  }

  /** A turn that transmits nothing and leaves every transfer as it is, bar those not in progress. */
  lemma QuietTurn(peer: Peer, s: Channel, s': Channel)
    requires InStep(peer, s) && s'.wire == s.wire && s'.completed == s.completed
    requires Usable(s') ==> Usable(s) && s'.active == s.active
    ensures InStep(peer, s')
  {
  }

  lemma AddingIdle(r: Receiver, ts: seq<Transfer>, t: Transfer)
    requires Mirrors(r, ts) && !Partial(t)
    ensures Mirrors(r, ts + [t])
  {
    SumSnoc(ts, t, Held);
    SumSnoc(ts, t, Declared);
    forall id | id in r.assemblies ensures InProgress(ts + [t], id) {
      var i :| 0 <= i < |ts| && Partial(ts[i]) && ts[i].id == id;
      assert (ts + [t])[i] == ts[i];
    }
  }

  lemma RemovingIdle(r: Receiver, ts: seq<Transfer>, i: nat, ts': seq<Transfer>)
    requires Mirrors(r, ts) && i < |ts| && !Partial(ts[i]) && ts' == Remove(ts, i)
    ensures Mirrors(r, ts')
  {
    SumRemove(ts, i, Held);
    SumRemove(ts, i, Declared);
    assert forall j :: 0 <= j < |ts'| ==> ts'[j] == ts[if j < i then j else j + 1];
    forall id | id in r.assemblies ensures InProgress(ts', id) {
      var j :| 0 <= j < |ts| && Partial(ts[j]) && ts[j].id == id;
      assert ts'[if j < i then j else j - 1] == ts[j];
    }
  }

  lemma StoppingIdle(r: Receiver, ts: seq<Transfer>, i: nat, t: Transfer)
    requires Mirrors(r, ts) && i < |ts| && !Partial(ts[i]) && !Partial(t)
    ensures Mirrors(r, ts[i := t])
  {
    SumUpdate(ts, i, t, Held);
    SumUpdate(ts, i, t, Declared);
    forall id | id in r.assemblies ensures InProgress(ts[i := t], id) {
      var j :| 0 <= j < |ts| && Partial(ts[j]) && ts[j].id == id;
      assert ts[i := t][j] == ts[j];
    }
  }

  // ----- One packet and its receiver -----

  lemma {:induction false} KeysBounded(keys: set<nat>, ts: seq<Transfer>)
    requires forall id :: id in keys ==> InProgress(ts, id)
    ensures |keys| <= |ts|
    decreases |ts|
  {
    if ts == [] {
      assert keys == {} by {
        assert forall id :: !InProgress(ts, id);
      }
    } else {
      var last := ts[|ts| - 1];
      var rest := keys - {last.id};
      forall id | id in rest ensures InProgress(ts[..|ts| - 1], id) {
        var i :| 0 <= i < |ts| && Partial(ts[i]) && ts[i].id == id;
        assert ts[..|ts| - 1][i] == ts[i];
      }
      KeysBounded(rest, ts[..|ts| - 1]);
      assert last.id in keys ==> keys == rest + {last.id};
      assert last.id !in keys ==> keys == rest;
    }
  }

  ghost const Offset: Transfer -> nat := (t: Transfer) => t.offset

  /** The sender's budget leaves room at the browser for the next fragment. */
  lemma RoomForBytes(r: Receiver, ts: seq<Transfer>, i: nat)
    requires Mirrors(r, ts) && Distinct(ts) && i < |ts| && !Finished(ts[i])
    requires Sum(ts, Reserved) <= MAX_FRAME
    ensures r.buffered + Span(ts[i]) <= MAX_FRAME
  {
    var t := ts[i];
    var grown := t.(offset := t.offset + Span(t));
    SumBelow(ts, Held, Offset);
    SumUpdate(ts, i, grown, Offset);
    SumUpdate(ts, i, grown, Reserved);
    SumBelow(ts[i := grown], Offset, Reserved);
  }

  /** The sender's budget leaves room for one more declared total at the installation. */
  lemma RoomForTotal(r: Receiver, ts: seq<Transfer>, i: nat)
    requires Mirrors(r, ts) && i < |ts| && !Partial(ts[i]) && Sum(ts, Reserved) <= MAX_FRAME
    ensures r.reserved + |ts[i].payload| <= MAX_FRAME
  {
    SumRemove(ts, i, Declared);
    SumRemove(ts, i, Reserved);
    SumBelow(Remove(ts, i), Declared, Reserved);
  }

  /** The sender's transfer limit leaves room for one more assembly. */
  lemma RoomForTransfer(r: Receiver, ts: seq<Transfer>, i: nat)
    requires Mirrors(r, ts) && Distinct(ts) && i < |ts| <= MAX_TRANSFERS && !Partial(ts[i])
    ensures |r.assemblies| < MAX_TRANSFERS && ts[i].id !in r.assemblies
  {
    var others := Remove(ts, i);
    forall id | id in r.assemblies ensures InProgress(others, id) && id != ts[i].id {
      var j :| 0 <= j < |ts| && Partial(ts[j]) && ts[j].id == id;
      assert others[if j < i then j else j - 1] == ts[j];
    }
    KeysBounded(r.assemblies.Keys, others);
  }

  ghost predicate SameElsewhere(m: map<nat, Assembly>, m': map<nat, Assembly>, key: nat) {
    && (forall id :: id != key ==> (id in m <==> id in m'))
    && (forall id :: id != key && id in m ==> m'[id] == m[id])
  }

  /** `r'` is `r` with the image of transfer `t` replaced by that of `t'`. */
  ghost predicate Reflects(r: Receiver, t: Transfer, r': Receiver, t': Transfer) {
    && t'.id == t.id
    && SameElsewhere(r.assemblies, r'.assemblies, t.id)
    && r'.buffered == r.buffered - Held(t) + Held(t')
    && r'.reserved == r.reserved - Declared(t) + Declared(t')
    && (if Partial(t') then HoldsPrefix(r', t') else t'.id !in r'.assemblies)
  }

  lemma MirrorsUpdate(r: Receiver, ts: seq<Transfer>, i: nat, t': Transfer, r': Receiver)
    requires Mirrors(r, ts) && Distinct(ts) && i < |ts| && Reflects(r, ts[i], r', t')
    ensures Mirrors(r', ts[i := t'])
  {
    SumUpdate(ts, i, t', Held);
    SumUpdate(ts, i, t', Declared);
    var ts' := ts[i := t'];
    forall id | id in r'.assemblies ensures InProgress(ts', id) {
      if id == t'.id {
        assert ts'[i] == t';
      } else {
        var j :| 0 <= j < |ts| && Partial(ts[j]) && ts[j].id == id;
        assert ts'[j] == ts[j];
      }
    }
  }

  lemma AbandonTaken(peer: Peer, r: Receiver, ts: seq<Transfer>, i: nat)
    requires Mirrors(r, ts) && Distinct(ts) && i < |ts| && Partial(ts[i])
    ensures var got := ReceiveHeader(peer, r, AbandonPacket(ts[i].id));
            got.Accepted? && got.frame.None? && Mirrors(got.next, ts[i := ts[i].(stopped := true)])
  {
    var t := ts[i];
    MirrorsUpdate(r, ts, i, t.(stopped := true), Discard(r, t.id));
  }

  /** Appending a transfer's next fragment to what the receiver holds of it. */
  lemma AppendNext(r: Receiver, t: Transfer, got: Outcome)
    requires t.offset < |t.payload| && !t.stopped && HoldsPrefix(r, t) && got == Append(r, NextPacket(t))
    ensures got.Accepted?
    ensures got.next.buffered == r.buffered - t.offset + Held(Grown(t))
    ensures got.next.reserved == r.reserved - |t.payload| + Declared(Grown(t))
    ensures got.frame == (if Finished(Grown(t)) then Some(t.payload) else None)
    ensures if Partial(Grown(t)) then HoldsPrefix(got.next, Grown(t)) else t.id !in got.next.assemblies
    ensures SameElsewhere(r.assemblies, got.next.assemblies, t.id)
  {
    var end := t.offset + Span(t);
    var chunk := t.payload[t.offset..end];
    FlattenSnoc(r.assemblies[t.id].chunks, chunk);
    assert t.payload[..t.offset] + chunk == t.payload[..end];
    assert end == |t.payload| ==> t.payload[..end] == t.payload;
  }

  /** Opening the assembly of a transfer not yet begun leaves the others as they are. */
  lemma Opened(r: Receiver, t: Transfer, begun: Receiver)
    requires t.offset < |t.payload| && !t.stopped && begun == Open(r, NextPacket(t))
    ensures SameElsewhere(r.assemblies, begun.assemblies, t.id)
    ensures begun.buffered == r.buffered
    ensures begun.reserved == r.reserved + (if t.offset == 0 then |t.payload| else 0)
  {
  }

  /** What one fragment changes at a receiver that holds the transfer so far. */
  lemma FragmentEffect(r: Receiver, t: Transfer, begun: Receiver, got: Outcome)
    requires t.offset < |t.payload| && !t.stopped && HoldsPrefix(begun, t)
    requires SameElsewhere(r.assemblies, begun.assemblies, t.id)
    requires begun.buffered == r.buffered
    requires begun.reserved == r.reserved + (if t.offset == 0 then |t.payload| else 0)
    requires got == Append(begun, NextPacket(t))
    ensures got.Accepted?
    ensures got.frame == (if Finished(Grown(t)) then Some(t.payload) else None)
    ensures Reflects(r, t, got.next, Grown(t))
  {
    AppendNext(begun, t, got);
  }

  /** A fragment meets the receiver's limits. */
  lemma LimitsMet(peer: Peer, r: Receiver, ts: seq<Transfer>, i: nat)
    requires Mirrors(r, ts) && Distinct(ts) && i < |ts| <= MAX_TRANSFERS && !Finished(ts[i])
    requires Sum(ts, Reserved) <= MAX_FRAME
    ensures !Full(peer, r, NextPacket(ts[i]))
    ensures ts[i].offset == 0 ==> |r.assemblies| < MAX_TRANSFERS && ts[i].id !in r.assemblies
  {
    RoomForBytes(r, ts, i);
    if ts[i].offset == 0 {
      RoomForTotal(r, ts, i);
      RoomForTransfer(r, ts, i);
    }
  }

  /** Within the limits, a fragment is appended to what the receiver holds of its transfer. */
  lemma FragmentFits(peer: Peer, r: Receiver, t: Transfer)
    requires 0 < t.id && t.offset < |t.payload| <= MAX_FRAME && !Full(peer, r, NextPacket(t))
    requires if t.offset == 0 then |r.assemblies| < MAX_TRANSFERS && t.id !in r.assemblies else HoldsPrefix(r, t)
    ensures var h := NextPacket(t);
            ReceiveHeader(peer, r, h) == Append(Open(r, h), h) && HoldsPrefix(Open(r, h), t)
  {
  }

  /** The receiver takes the next fragment of any transfer, and completes the frame with the last one. */
  lemma FragmentTaken(peer: Peer, r: Receiver, ts: seq<Transfer>, i: nat, got: Outcome)
    requires Mirrors(r, ts) && Distinct(ts) && i < |ts| <= MAX_TRANSFERS && !Finished(ts[i])
    requires Sum(ts, Reserved) <= MAX_FRAME
    requires got == ReceiveHeader(peer, r, NextPacket(ts[i]))
    ensures got.Accepted?
    ensures got.frame == (if Finished(Grown(ts[i])) then Some(ts[i].payload) else None)
    ensures Mirrors(got.next, ts[i := Grown(ts[i])])
  {
    LimitsMet(peer, r, ts, i);
    FragmentFits(peer, r, ts[i]);
    var begun := Open(r, NextPacket(ts[i]));
    Opened(r, ts[i], begun);
    FragmentEffect(r, ts[i], begun, got);
    MirrorsUpdate(r, ts, i, Grown(ts[i]), got.next);
  }

  lemma PayloadsSnoc(done: seq<Completion>, c: Completion)
    ensures Payloads(done + [c]) == Payloads(done) + [c.payload]
  {
    assert (done + [c])[..|done|] == done;
  }

  lemma FragmentReceived(peer: Peer, wire: seq<Header>, ts: seq<Transfer>, i: nat, after: Reception)
    requires ReceiveAll(peer, wire).Healthy? && Mirrors(ReceiveAll(peer, wire).receiver, ts)
    requires Distinct(ts) && i < |ts| <= MAX_TRANSFERS && !Finished(ts[i]) && Sum(ts, Reserved) <= MAX_FRAME
    requires after == ReceiveAll(peer, wire + [NextPacket(ts[i])])
    ensures after.Healthy? && Mirrors(after.receiver, ts[i := Grown(ts[i])])
    ensures after.frames == if Finished(Grown(ts[i])) then ReceiveAll(peer, wire).frames + [ts[i].payload]
                            else ReceiveAll(peer, wire).frames
  {
    var before := ReceiveAll(peer, wire);
    ReceiveAllSnoc(peer, wire, NextPacket(ts[i]));
    FragmentTaken(peer, before.receiver, ts, i, ReceiveHeader(peer, before.receiver, NextPacket(ts[i])));
  }

  lemma FragmentKeepsInStep(peer: Peer, s: Channel, i: nat, s': Channel)
    requires WellFormed(s) && InStep(peer, s) && Usable(s) && i < |s.active| && !Finished(s.active[i])
    requires s.active[i].offset <= |s.active[i].payload|
    requires s'.active == s.active[i := Grown(s.active[i])] && s'.wire == s.wire + [NextPacket(s.active[i])]
    requires s'.completed == if Finished(Grown(s.active[i]))
                             then s.completed + [Completion(s.active[i].payload, s.active[i].request)]
                             else s.completed
    ensures InStep(peer, s')
  {
    SuffixIsDistinct(s.waiting, s.active);
    FragmentReceived(peer, s.wire, s.active, i, ReceiveAll(peer, s'.wire));
    PayloadsSnoc(s.completed, Completion(s.active[i].payload, s.active[i].request));
  }

  lemma AbandonKeepsInStep(peer: Peer, s: Channel, i: nat, s': Channel)
    requires WellFormed(s) && InStep(peer, s) && Usable(s) && Writable(s, i) && s'.completed == s.completed
    requires s'.active == s.active[i := s.active[i].(stopped := true)]
    requires s'.wire == if s.active[i].offset > 0 then s.wire + [AbandonPacket(s.active[i].id)] else s.wire
    ensures InStep(peer, s')
  {
    var t := s.active[i];
    var r := ReceiveAll(peer, s.wire).receiver;
    SuffixIsDistinct(s.waiting, s.active);
    if t.offset > 0 {
      ReceiveAllSnoc(peer, s.wire, AbandonPacket(t.id));
      AbandonTaken(peer, r, s.active, i);
    } else {
      StoppingIdle(r, s.active, i, t.(stopped := true));
    }
  }

  lemma SuffixIsDistinct(before: seq<Transfer>, after: seq<Transfer>)
    requires Distinct(before + after)
    ensures Distinct(after)
  {
    assert forall i :: 0 <= i < |after| ==> (before + after)[|before| + i] == after[i];
  }

  /** Also if the channel is closed just before the packet goes out. */
  lemma WriteKeepsInStep(peer: Peer, s: Channel, i: nat, before: Channel)
    requires WellFormed(s) && InStep(peer, s) && Usable(s) && Writable(s, i)
    requires before == s || before == CloseAll(s)
    ensures InStep(peer, WritePacket(before, i))
  {
    if Wanted(before, s.active[i]) {
      FragmentKeepsInStep(peer, s, i, WritePacket(before, i));
    } else {
      AbandonKeepsInStep(peer, s, i, WritePacket(before, i));
    }
  }

  lemma KeepsInStep(peer: Peer, s: Channel, a: Action)
    requires WellFormed(s) && InStep(peer, s) && Enabled(s, a)
    ensures InStep(peer, Apply(s, a))
  {
    var r := ReceiveAll(peer, s.wire).receiver;
    if a.Write? {
      WriteKeepsInStep(peer, s, a.index, s);
    } else if a.CloseWriting? {
      WriteKeepsInStep(peer, s, a.index, CloseAll(s));
    } else if a.Reserve? {
      if Usable(s) { AddingIdle(r, s.active, s.waiting[a.index]); }
    } else if a.Release? {
      if Usable(s) { RemovingIdle(r, s.active, a.index, Remove(s.active, a.index)); }
    } else {
      QuietTurn(peer, s, Apply(s, a));
    }
  }

  lemma PacketsAreSendable(s: Channel, i: nat, before: Channel)
    requires WellFormed(s) && OnWire(s) && Writable(s, i) && (before == s || before == CloseAll(s))
    ensures OnWire(WritePacket(before, i))
  {
    assert s.active[i] == (s.waiting + s.active)[|s.waiting| + i];
  }

  lemma KeepsOnWire(s: Channel, a: Action)
    requires WellFormed(s) && OnWire(s) && Enabled(s, a)
    ensures OnWire(Apply(s, a))
  {
    if a.Write? {
      PacketsAreSendable(s, a.index, s);
    } else if a.CloseWriting? {
      PacketsAreSendable(s, a.index, CloseAll(s));
    }
  }

  lemma {:induction false} EveryRun(peer: Peer, s: Channel, run: seq<Action>)
    requires Inv(peer, s) && Runs(s, run)
    ensures Inv(peer, End(s, run))
    decreases |run|
  {
    if run != [] {
      KeepsWellFormed(s, run[0]);
      KeepsOnWire(s, run[0]);
      KeepsInStep(peer, s, run[0]);
      KeepsHonest(s, run[0]);
      EveryRun(peer, Apply(s, run[0]), run[1..]);
    }
  }

  // ----- Main results -----

  ghost predicate Reachable(s: Channel) {
    exists run :: Runs(INITIAL, run) && End(INITIAL, run) == s
  }

  lemma ReachableInv(peer: Peer, s: Channel)
    requires Reachable(s)
    ensures Inv(peer, s)
  {
    var run :| Runs(INITIAL, run) && End(INITIAL, run) == s;
    EveryRun(peer, INITIAL, run);
  }

  /**
   * Whatever the interleaving of sends, abandonments and failures, and however far the receiver lags,
   * neither receiver rejects a packet, and once it has caught up its frames are exactly the completed
   * payloads, byte for byte, once each and in the order of their last fragments.
   */
  lemma DeliversExactlyTheCompleted(peer: Peer, s: Channel, seen: nat)
    requires Reachable(s) && seen <= |s.wire|
    ensures OnWire(s)
    ensures ReceivePackets(peer, Serialise(s.wire[..seen])).Healthy? && ReceivePackets(peer, Serialise(s.wire)).Healthy?
    ensures ReceivePackets(peer, Serialise(s.wire[..seen])).frames <= Payloads(s.completed)
    ensures ReceivePackets(peer, Serialise(s.wire)).frames == Payloads(s.completed)
  {
    ReachableInv(peer, s);
    LaggingReceiver(peer, s.wire, seen);
    BytesAreTransparent(peer, s.wire);
    BytesAreTransparent(peer, s.wire[..seen]);
  }

  /** The installation's and the browser's limits accept the same traffic with the same effect. */
  lemma PeersAgree(s: Channel, seen: nat)
    requires Reachable(s) && seen <= |s.wire|
    ensures ReceiveAll(Browser, s.wire[..seen]) == ReceiveAll(Installation, s.wire[..seen])
  {
    ReachableInv(Browser, s);
    ReachableInv(Installation, s);
    LaggingReceiver(Browser, s.wire, seen);
    LaggingReceiver(Installation, s.wire, seen);
    HealthyPeersAgree(s.wire[..seen]);
  }

  lemma {:induction false} HealthyPeersAgree(wire: seq<Header>)
    requires ReceiveAll(Browser, wire).Healthy? && ReceiveAll(Installation, wire).Healthy?
    ensures ReceiveAll(Browser, wire) == ReceiveAll(Installation, wire)
    decreases |wire|
  {
    if wire != [] {
      HealthyPeersAgree(wire[..|wire| - 1]);
    }
  }

  /**
   * A request settled as not sent (by close, by timeout or refused locally) has no completed payload:
   * its last fragment was not transmitted and, the state being any reachable one, never will be.
   */
  lemma NotSentIsNeverTransmitted(s: Channel, request: nat)
    requires Reachable(s) && request in s.settled && s.settled[request] == NotSent
    ensures forall i :: 0 <= i < |s.completed| ==> s.completed[i].request != Some(request)
  {
    ReachableInv(Browser, s);
  }

  lemma StaysSettled(s: Channel, a: Action, request: nat)
    requires s.pending.Keys !! s.settled.Keys && Enabled(s, a) && request in s.settled
    ensures Apply(s, a).pending.Keys !! Apply(s, a).settled.Keys
    ensures request in Apply(s, a).settled && Apply(s, a).settled[request] == s.settled[request]
  {
    if a.CloseWriting? {
      LatePacketsMarkNothing(s, a.index);
    } else if a.Write? {
      MarkingKeepsKeys(s.pending, s.active[a.index].request);
    }
  }

  /** A settled request stays settled the same way. */
  lemma {:induction false} SettledForGood(s: Channel, run: seq<Action>, request: nat)
    requires s.pending.Keys !! s.settled.Keys && Runs(s, run) && request in s.settled
    ensures request in End(s, run).settled && End(s, run).settled[request] == s.settled[request]
    decreases |run|
  {
    if run != [] {
      StaysSettled(s, run[0], request);
      SettledForGood(Apply(s, run[0]), run[1..], request);
    }
  }
}
