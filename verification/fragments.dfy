/**
 * The binary envelope of the direct data channel and the two receivers that reassemble it:
 * the browser's `receive` (apps/web/src/direct-channel.ts) and the installation's
 * `FrameDecoder::push` (crates/protocol/src/data_channel.rs).
 */
module Fragments {
  import opened Common

  const MAX_FRAME := 10_732_204 // ceil(8_000_000 / 3) * 4 + 65536
  const MAX_PACKET := 16384
  const HEADER := 13
  const MAX_TRANSFERS := 32
  const U32 := 0x1_0000_0000

  // ----- Network-order integers -----

  /** The last k digits of n in base 256, most significant first. */
  function BigEndian(n: nat, k: nat): (b: Bytes)
    ensures |b| == k
  {
    if k == 0 then [] else BigEndian(n / 256, k - 1) + [(n % 256) as byte]
  }

  function Value(b: Bytes): nat {
    if b == [] then 0 else Value(b[..|b| - 1]) * 256 + b[|b| - 1] as nat
  }

  function Power256(k: nat): nat { if k == 0 then 1 else 256 * Power256(k - 1) }

  /** k bytes hold any number below 256 to the k. */
  lemma {:induction false} BytesRoundTrip(n: nat, k: nat)
    requires n < Power256(k)
    ensures Value(BigEndian(n, k)) == n
  {
    if k > 0 {
      BytesRoundTrip(n / 256, k - 1);
      assert BigEndian(n, k)[..k - 1] == BigEndian(n / 256, k - 1);
    }
  }

  function PutU32(n: nat): (b: Bytes)
    requires n < U32
    ensures |b| == 4
  {
    BigEndian(n, 4)
  }

  function GetU32(b: Bytes): nat
    requires |b| == 4
  {
    Value(b)
  }

  lemma {:induction false} U32RoundTrip(n: nat)
    requires n < U32
    ensures GetU32(PutU32(n)) == n
  {
    assert Power256(2) == 0x1_0000 && Power256(4) == U32;
    BytesRoundTrip(n, 4);
  }

  // ----- Packets -----

  /** One fragment: version byte, transfer, whole length, offset, payload. */
  function Packet(id: nat, total: nat, offset: nat, payload: Bytes): (packet: Bytes)
    requires id < U32 && total < U32 && offset < U32
    ensures |packet| == HEADER + |payload|
  {
    [1] + PutU32(id) + PutU32(total) + PutU32(offset) + payload
  }

  datatype Header = Header(id: nat, total: nat, offset: nat, payload: Bytes)

  function Parse(packet: Bytes): (h: Header)
    requires |packet| >= HEADER
  {
    Header(GetU32(packet[1..5]), GetU32(packet[5..9]), GetU32(packet[9..13]), packet[HEADER..])
  }

  lemma {:induction false} ParsePacket(id: nat, total: nat, offset: nat, payload: Bytes)
    requires id < U32 && total < U32 && offset < U32
    ensures var p := Packet(id, total, offset, payload);
            p[0] == 1 && Parse(p) == Header(id, total, offset, payload)
  {
    var p := Packet(id, total, offset, payload);
    assert p[1..5] == PutU32(id);
    assert p[5..9] == PutU32(total);
    assert p[9..13] == PutU32(offset);
    assert p[HEADER..] == payload;
    U32RoundTrip(id);
    U32RoundTrip(total);
    U32RoundTrip(offset);
  }

  // ----- Receivers -----

  /** `Browser` bounds the bytes buffered so far; `Installation` bounds the declared totals. */
  datatype Peer = Browser | Installation

  datatype Assembly = Assembly(total: nat, chunks: seq<Bytes>, length: nat)

  /**
   * `reserved` is the installation's running total of the sizes declared for incomplete transfers;
   * `buffered` is the browser's count of bytes held in incomplete transfers.
   */
  datatype Receiver = Receiver(assemblies: map<nat, Assembly>, buffered: int, reserved: int)

  const EMPTY := Receiver(map[], 0, 0)

  datatype Outcome = Rejected | Accepted(next: Receiver, frame: Option<Bytes>)

  /** Whether the peer has no room for this fragment. */
  predicate Full(peer: Peer, r: Receiver, h: Header) {
    match peer
    case Browser => r.buffered + |h.payload| > MAX_FRAME
    case Installation => h.offset == 0 && r.reserved + h.total > MAX_FRAME
  }

  function Discard(r: Receiver, id: nat): Receiver {
    if id in r.assemblies then
      Receiver(r.assemblies - {id}, r.buffered - r.assemblies[id].length, r.reserved - r.assemblies[id].total)
    else
      r
  }

  function Open(r: Receiver, h: Header): Receiver {
    if h.offset == 0 then
      Receiver(r.assemblies[h.id := Assembly(h.total, [], 0)], r.buffered, r.reserved + h.total)
    else
      r
  }

  /** Takes one packet: rejects it, or keeps it and perhaps completes a frame. */
  function Receive(peer: Peer, r: Receiver, packet: Bytes): Outcome {
    if |packet| < HEADER || |packet| > MAX_PACKET || packet[0] != 1 then Rejected
    else ReceiveHeader(peer, r, Parse(packet))
  }

  function ReceiveHeader(peer: Peer, r: Receiver, h: Header): Outcome {
    if h.id == 0 || h.total > MAX_FRAME then Rejected
    else if h.total == 0 && h.offset == 0 && h.payload == [] then Accepted(Discard(r, h.id), None)
    else if h.payload == [] || h.offset + |h.payload| > h.total || Full(peer, r, h) then Rejected
    else if h.offset == 0 && (h.id in r.assemblies || |r.assemblies| >= MAX_TRANSFERS) then Rejected
    else Append(Open(r, h), h)
  }

  function Append(r: Receiver, h: Header): Outcome {
    if h.id !in r.assemblies || r.assemblies[h.id].total != h.total || r.assemblies[h.id].length != h.offset then
      Rejected
    else
      var a := r.assemblies[h.id];
      var grown := Assembly(a.total, a.chunks + [h.payload], a.length + |h.payload|);
      if grown.length != h.total then
        Accepted(Receiver(r.assemblies[h.id := grown], r.buffered + |h.payload|, r.reserved), None)
      else
        Accepted(Receiver(r.assemblies - {h.id}, r.buffered + |h.payload| - h.total, r.reserved - h.total),
                 Some(Flatten(grown.chunks)))
  }

  // ----- A whole stream of packets -----

  datatype Reception = Broken | Healthy(receiver: Receiver, frames: seq<Bytes>)

  function Take(before: Reception, got: Outcome): Reception
    requires before.Healthy?
  {
    match got
    case Rejected => Broken
    case Accepted(next, None) => Healthy(next, before.frames)
    case Accepted(next, Some(frame)) => Healthy(next, before.frames + [frame])
  }

  /** What a receiver holds and has delivered after a stream of parsed packets. */
  function ReceiveAll(peer: Peer, wire: seq<Header>): Reception {
    if wire == [] then Healthy(EMPTY, [])
    else
      var before := ReceiveAll(peer, wire[..|wire| - 1]);
      if before.Broken? then Broken else Take(before, ReceiveHeader(peer, before.receiver, wire[|wire| - 1]))
  }

  /** The same on the bytes of the packets. */
  function ReceivePackets(peer: Peer, packets: seq<Bytes>): Reception {
    if packets == [] then Healthy(EMPTY, [])
    else
      var before := ReceivePackets(peer, packets[..|packets| - 1]);
      if before.Broken? then Broken else Take(before, Receive(peer, before.receiver, packets[|packets| - 1]))
  }

  lemma {:induction false} ReceiveAllSnoc(peer: Peer, wire: seq<Header>, h: Header)
    requires ReceiveAll(peer, wire).Healthy?
    ensures ReceiveAll(peer, wire + [h]) ==
            Take(ReceiveAll(peer, wire), ReceiveHeader(peer, ReceiveAll(peer, wire).receiver, h))
  {
    assert (wire + [h])[..|wire|] == wire;
  }

  /** The header fields fit their four bytes and the payload fits one packet. */
  predicate Sendable(h: Header) {
    h.id < U32 && h.total < U32 && h.offset < U32 && |h.payload| <= MAX_PACKET - HEADER
  }

  function Serialise(wire: seq<Header>): (packets: seq<Bytes>)
    requires forall i :: 0 <= i < |wire| ==> Sendable(wire[i])
    ensures |packets| == |wire|
  {
    if wire == [] then []
    else
      var h := wire[|wire| - 1];
      assert Sendable(h);
      Serialise(wire[..|wire| - 1]) + [Packet(h.id, h.total, h.offset, h.payload)]
  }

  lemma {:induction false} PacketIsReceived(peer: Peer, r: Receiver, h: Header)
    requires Sendable(h)
    ensures Receive(peer, r, Packet(h.id, h.total, h.offset, h.payload)) == ReceiveHeader(peer, r, h)
  {
    ParsePacket(h.id, h.total, h.offset, h.payload);
  }

  /** Writing packets to bytes and parsing them back changes nothing for the receiver. */
  lemma {:induction false} BytesAreTransparent(peer: Peer, wire: seq<Header>)
    requires forall i :: 0 <= i < |wire| ==> Sendable(wire[i])
    ensures ReceivePackets(peer, Serialise(wire)) == ReceiveAll(peer, wire)
    decreases |wire|
  {
    if wire != [] {
      var last := |wire| - 1;
      BytesAreTransparent(peer, wire[..last]);
      assert Serialise(wire)[..last] == Serialise(wire[..last]);
      var before := ReceiveAll(peer, wire[..last]);
      if before.Healthy? {
        PacketIsReceived(peer, before.receiver, wire[last]);
      }
    }
  }

  /** A receiver that lags behind has delivered an initial part of what it will deliver. */
  lemma {:induction false} LaggingReceiver(peer: Peer, wire: seq<Header>, seen: nat)
    requires seen <= |wire| && ReceiveAll(peer, wire).Healthy?
    ensures ReceiveAll(peer, wire[..seen]).Healthy?
    ensures ReceiveAll(peer, wire[..seen]).frames <= ReceiveAll(peer, wire).frames
    decreases |wire|
  {
    if seen == |wire| {
      assert wire[..seen] == wire;
    } else {
      var shorter := wire[..|wire| - 1];
      LaggingReceiver(peer, shorter, seen);
      assert shorter[..seen] == wire[..seen];
    }
  }

  // ----- Whatever arrives -----

  /** An assembly holds a proper part of what its first fragment declared. */
  ghost predicate AssemblyOk(a: Assembly) {
    0 < a.length < a.total <= MAX_FRAME && |Flatten(a.chunks)| == a.length
  }

  /** What a receiver holds, however its peer behaves: at most 32 unfinished frames, within its own limit. */
  ghost predicate Bounded(peer: Peer, r: Receiver) {
    && Proper(r.assemblies, None)
    && (match peer case Browser => r.buffered <= MAX_FRAME case Installation => r.reserved <= MAX_FRAME)
  }

  /**
   * A fragment is accepted only if it begins a frame under an unused identifier, or goes on exactly where the frame
   * with its identifier and size stands, and in any case stays within the size declared.
   */
  lemma AcceptedFragmentsFit(peer: Peer, r: Receiver, h: Header)
    requires ReceiveHeader(peer, r, h).Accepted? && h.total > 0
    ensures 0 < h.id && h.payload != [] && h.offset + |h.payload| <= h.total <= MAX_FRAME
    ensures if h.offset == 0 then h.id !in r.assemblies
            else h.id in r.assemblies && r.assemblies[h.id].total == h.total && r.assemblies[h.id].length == h.offset
    ensures ReceiveHeader(peer, r, h).frame.Some? <==> h.offset + |h.payload| == h.total
  {
  }

  /** At most 32 assemblies, each of them proper, bar perhaps the one that a fragment is about to extend. */
  ghost predicate Proper(assemblies: map<nat, Assembly>, except: Option<nat>) {
    && |assemblies| <= MAX_TRANSFERS
    && forall id :: id in assemblies && except != Some(id) ==> id > 0 && AssemblyOk(assemblies[id])
  }

  lemma CountWithout(assemblies: map<nat, Assembly>, id: nat)
    ensures |assemblies - {id}| <= |assemblies|
  {
    assert (assemblies - {id}).Keys == assemblies.Keys - {id};
  }

  lemma CountWith(assemblies: map<nat, Assembly>, id: nat, a: Assembly)
    ensures |assemblies[id := a]| == if id in assemblies then |assemblies| else |assemblies| + 1
  {
    assert assemblies[id := a].Keys == assemblies.Keys + {id};
    if id in assemblies { assert assemblies.Keys + {id} == assemblies.Keys; }
  }

  lemma DiscardingStaysBounded(r: Receiver, id: nat)
    requires Proper(r.assemblies, None)
    ensures Proper(Discard(r, id).assemblies, None)
  {
    CountWithout(r.assemblies, id);
  }

  lemma OpeningStaysBounded(r: Receiver, h: Header)
    requires Proper(r.assemblies, None) && h.id > 0 && 0 < h.total <= MAX_FRAME
    requires if h.offset == 0 then h.id !in r.assemblies && |r.assemblies| < MAX_TRANSFERS else h.id in r.assemblies
    ensures var open := Open(r, h);
            && Proper(open.assemblies, Some(h.id)) && h.id in open.assemblies
            && |Flatten(open.assemblies[h.id].chunks)| == open.assemblies[h.id].length
  {
    CountWith(r.assemblies, h.id, Assembly(h.total, [], 0));
  }

  /** What a fragment makes of its assembly, if there is more to come. */
  lemma AppendingIs(r: Receiver, h: Header, grown: Assembly)
    requires h.id in r.assemblies && Append(r, h).Accepted?
    requires grown == Assembly(r.assemblies[h.id].total, r.assemblies[h.id].chunks + [h.payload],
                               r.assemblies[h.id].length + |h.payload|)
    ensures grown.total == h.total && r.assemblies[h.id].length == h.offset
    ensures Append(r, h).next.assemblies
            == if grown.length != h.total then r.assemblies[h.id := grown] else r.assemblies - {h.id}
    ensures Append(r, h).frame == if grown.length != h.total then None else Some(Flatten(grown.chunks))
  {
  }

  lemma AppendingStaysBounded(r: Receiver, h: Header)
    requires Proper(r.assemblies, Some(h.id)) && h.id in r.assemblies && Append(r, h).Accepted?
    requires h.id > 0 && h.payload != [] && h.offset + |h.payload| <= h.total <= MAX_FRAME
    requires |Flatten(r.assemblies[h.id].chunks)| == r.assemblies[h.id].length
    ensures Proper(Append(r, h).next.assemblies, None)
    ensures Append(r, h).frame.Some? ==> |Append(r, h).frame.value| == h.total
  {
    var a := r.assemblies[h.id];
    var grown := Assembly(a.total, a.chunks + [h.payload], a.length + |h.payload|);
    FlattenSnoc(a.chunks, h.payload);
    AppendingIs(r, h, grown);
    CountWith(r.assemblies, h.id, grown);
    CountWithout(r.assemblies, h.id);
  }

  lemma TakingStaysBounded(peer: Peer, r: Receiver, h: Header)
    requires Bounded(peer, r) && ReceiveHeader(peer, r, h).Accepted?
    ensures Bounded(peer, ReceiveHeader(peer, r, h).next)
    ensures var frame := ReceiveHeader(peer, r, h).frame; frame.Some? ==> |frame.value| == h.total <= MAX_FRAME
  {
    if h.total > 0 {
      AcceptedFragmentsFit(peer, r, h);
      OpeningStaysBounded(r, h);
      AppendingStaysBounded(Open(r, h), h);
    } else {
      DiscardingStaysBounded(r, h.id);
    }
  }

  /** Whatever packets arrive, a receiver that has rejected none stays within its limits, and so do its frames. */
  lemma {:induction false} ReceiversStayBounded(peer: Peer, wire: seq<Header>)
    requires ReceiveAll(peer, wire).Healthy?
    ensures Bounded(peer, ReceiveAll(peer, wire).receiver)
    ensures forall i :: 0 <= i < |ReceiveAll(peer, wire).frames| ==> 0 < |ReceiveAll(peer, wire).frames[i]| <= MAX_FRAME
  {
    if wire != [] {
      var n := |wire| - 1;
      ReceiversStayBounded(peer, wire[..n]);
      TakingStaysBounded(peer, ReceiveAll(peer, wire[..n]).receiver, wire[n]);
    }
  }
}
