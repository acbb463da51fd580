/**
 * The `DirectChannel` object of apps/web/src/direct-channel.ts: its fields, updated in place by one method
 * per synchronous turn. Each method is proved to take exactly one step of the state machine in
 * `DirectChannel`, or one `Receive` of `Fragments`.
 */
module DirectChannelObject {
  import opened Common
  import opened Fragments
  import opened DirectChannel

  class Connection {
    // The object's fields.
    var transfer: nat
    var outgoing: map<nat, nat>
    var outgoingBytes: int
    var open: bool
    var closed: bool
    var pending: map<nat, Pending>
    var assemblies: map<nat, Assembly>
    var buffered: int
    // The calls of `send` suspended at an await.
    var waiting: seq<Transfer>
    var active: seq<Transfer>
    // What the object has done to its promises and to the channel.
    var settled: map<nat, Settled>
    var wire: seq<Header>
    var completed: seq<Completion>

    ghost function View(): Channel
      reads this
    {
      Channel(transfer, waiting, active, outgoingBytes, open, closed, pending, settled, wire, completed)
    }

    /** `outgoing` holds the length of every reserved payload, by its transfer. */
    ghost predicate Valid()
      reads this
    {
      && |outgoing| == |active|
      && (forall i :: 0 <= i < |active| ==> active[i].id in outgoing && outgoing[active[i].id] == |active[i].payload|)
      && (forall i, j :: 0 <= i < j < |active| ==> active[i].id != active[j].id)
      && (forall i :: 0 <= i < |active| ==> active[i].offset <= |active[i].payload|)
    }

    constructor ()
      ensures Valid() && View() == INITIAL && assemblies == map[] && buffered == 0
    {
      transfer, outgoing, outgoingBytes := 0, map[], 0;
      open, closed := true, false;
      pending, assemblies, buffered := map[], map[], 0;
      waiting, active := [], [];
      settled, wire, completed := map[], [], [];
    }

    /** `send` up to its first await. */
    method Send(payload: Bytes, request: Option<nat>)
      requires Valid()
      modifies this`transfer, this`waiting
      ensures Valid() && View() == Enqueue(old(View()), payload, request)
    {
      if |payload| > MAX_FRAME {
        return; // throws
      }
      transfer := (transfer + 1) % U32;
      if transfer == 0 {
        transfer := 1;
      }
      waiting := waiting + [Transfer(transfer, payload, 0, false, request)];
    }

    /** One test of the reservation loop; reserves when there is room. */
    method TryReserve(i: nat) returns (reserved: bool)
      requires Valid() && i < |waiting| && waiting[i].id !in outgoing && waiting[i].offset == 0
      modifies this`waiting, this`active, this`outgoing, this`outgoingBytes
      ensures Valid() && reserved == Enabled(old(View()), Reserve(i))
      ensures View() == if reserved then Apply(old(View()), Reserve(i)) else old(View())
    {
      var t := waiting[i];
      if |outgoing| >= MAX_TRANSFERS || outgoingBytes + |t.payload| > MAX_FRAME {
        return false;
      }
      outgoing := outgoing[t.id := |t.payload|];
      outgoingBytes := outgoingBytes + |t.payload|;
      waiting := waiting[..i] + waiting[i + 1..];
      active := active + [t];
      return true;
    }

    /** The operation queued on the writer: the next fragment of a transfer, or its abandonment. */
    method WriteNext(i: nat)
      requires Valid() && Writable(View(), i)
      modifies this`active, this`wire, this`completed, this`pending
      ensures Valid() && View() == WritePacket(old(View()), i)
    {
      var t := active[i];
      if t.request.Some? && t.request.value !in pending {
        if t.offset > 0 {
          wire := wire + [Header(t.id, 0, 0, [])];
        }
        active := active[i := t.(stopped := true)];
        return;
      }
      var length := if MAX_PACKET - HEADER < |t.payload| - t.offset then MAX_PACKET - HEADER else |t.payload| - t.offset;
      wire := wire + [Header(t.id, |t.payload|, t.offset, t.payload[t.offset..t.offset + length])];
      active := active[i := t.(offset := t.offset + length)];
      if t.offset + length == |t.payload| {
        completed := completed + [Completion(t.payload, t.request)];
        if t.request.Some? {
          pending := pending[t.request.value := pending[t.request.value].(sent := true)];
        }
      }
    }

    /** The `finally` block of `send`. */
    method ReleaseTransfer(i: nat)
      requires Valid() && Enabled(View(), Release(i))
      modifies this`active, this`outgoing, this`outgoingBytes
      ensures Valid() && View() == Apply(old(View()), Release(i))
    {
      var t := active[i];
      outgoing := outgoing - {t.id};
      outgoingBytes := outgoingBytes - |t.payload|;
      active := active[..i] + active[i + 1..];
      assert old(outgoing).Keys == outgoing.Keys + {t.id};
      assert forall j :: i <= j < |active| ==> active[j] == old(active)[j + 1];
      assert forall j :: 0 <= j < i ==> active[j] == old(active)[j];
    }

    /** Settles every pending request; those not wholly transmitted are safe to send elsewhere. */
    method Shut()
      requires Valid() && pending.Keys !! settled.Keys
      modifies this`closed, this`pending, this`settled, this`assemblies, this`buffered
      ensures Valid() && View() == CloseAll(old(View()))
      ensures !old(closed) ==> assemblies == map[] && buffered == 0
    {
      if closed {
        return;
      }
      closed := true;
      settled := SettlePending(pending, settled);
      pending := map[];
      assemblies := map[];
      buffered := 0;
    }

    /**
     * `receive`: takes one packet; answers whether it was rejected and the frame it completed. The browser does not
     * count what is reserved, so that may be anything.
     */
    method Take(packet: Bytes, ghost reserved: int) returns (rejected: bool, frame: Option<Bytes>)
      modifies this`assemblies, this`buffered
      ensures var got := Receive(Browser, Receiver(old(assemblies), old(buffered), reserved), packet);
              rejected == got.Rejected? &&
              (!rejected ==> frame == got.frame && assemblies == got.next.assemblies && buffered == got.next.buffered)
    {
      if |packet| < HEADER || |packet| > MAX_PACKET || packet[0] != 1 {
        return true, None;
      }
      rejected, frame := TakeFragment(Parse(packet), reserved);
    }

    /** The rest of `receive`, once the header is read. */
    method TakeFragment(h: Header, ghost reserved: int) returns (rejected: bool, frame: Option<Bytes>)
      modifies this`assemblies, this`buffered
      ensures var got := ReceiveHeader(Browser, Receiver(old(assemblies), old(buffered), reserved), h);
              rejected == got.Rejected? &&
              (!rejected ==> frame == got.frame && assemblies == got.next.assemblies && buffered == got.next.buffered)
    {
      rejected, frame := true, None;
      if h.id == 0 || h.total > MAX_FRAME {
        return;
      }
      if h.total == 0 && h.offset == 0 && h.payload == [] {
        if h.id in assemblies {
          buffered := buffered - assemblies[h.id].length;
          assemblies := assemblies - {h.id};
        }
        rejected := false;
        return;
      }
      if h.payload == [] || h.offset + |h.payload| > h.total || buffered + |h.payload| > MAX_FRAME {
        return;
      }
      if h.offset == 0 {
        if h.id in assemblies || |assemblies| >= MAX_TRANSFERS {
          return;
        }
        assemblies := assemblies[h.id := Assembly(h.total, [], 0)];
      }
      if h.id !in assemblies || assemblies[h.id].total != h.total || assemblies[h.id].length != h.offset {
        return;
      }
      var a := assemblies[h.id];
      a := Assembly(a.total, a.chunks + [h.payload], a.length + |h.payload|);
      buffered := buffered + |h.payload|;
      rejected := false;
      if a.length != h.total {
        assemblies := assemblies[h.id := a];
        return;
      }
      assemblies := assemblies - {h.id};
      buffered := buffered - h.total;
      var whole := Concatenate(a.chunks);
      frame := Some(whole);
    }
  }

  /** The loop of `close` over the pending requests. */
  method SettlePending(pending: map<nat, Pending>, before: map<nat, Settled>) returns (settled: map<nat, Settled>)
    requires pending.Keys !! before.Keys
    ensures settled == before + SettleAll(pending)
  {
    settled := before;
    var left := pending.Keys;
    while left != {}
      invariant left <= pending.Keys && settled.Keys == before.Keys + (pending.Keys - left)
      invariant forall r :: r in before ==> settled[r] == before[r]
      invariant forall r :: r in pending && r !in left ==> settled[r] == OnClose(pending[r])
    {
      var r :| r in left;
      left := left - {r};
      settled := settled[r := if pending[r].started then Interrupted else if pending[r].sent then Lost else NotSent];
    }
  }

  /** Copies the chunks one after another into one buffer. */
  method Concatenate(chunks: seq<Bytes>) returns (whole: Bytes)
    ensures whole == Flatten(chunks)
  {
    whole := [];
    for i := 0 to |chunks|
      invariant whole == Flatten(chunks[..i])
    {
      FlattenSnoc(chunks[..i], chunks[i]);
      assert chunks[..i + 1] == chunks[..i] + [chunks[i]];
      whole := whole + chunks[i];
    }
    assert chunks[..|chunks|] == chunks;
  }
}
