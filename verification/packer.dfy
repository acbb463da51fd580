/**
 * Filling chunks of limited size one item after the other. An item takes its own size and one byte for a
 * separator; a chunk takes two bytes for itself.
 */
module Packer {
  import opened Common

  datatype Packing<T> = Packing(done: seq<seq<T>>, chunk: seq<T>)

  function Sizes<T>(chunk: seq<T>, size: T -> nat): nat {
    if chunk == [] then 0 else Sizes(chunk[..|chunk| - 1], size) + size(chunk[|chunk| - 1])
  }

  /** The space a chunk takes up while it is filled. */
  function Filled<T>(chunk: seq<T>, size: T -> nat): nat {
    2 + Sizes(chunk, size) + |chunk|
  }

  function Place<T>(p: Packing<T>, item: T, size: T -> nat, limit: nat): Packing<T> {
    if Filled(p.chunk, size) + size(item) + 1 > limit then Packing(p.done + [p.chunk], [item])
    else Packing(p.done, p.chunk + [item])
  }

  function Pack<T>(items: seq<T>, size: T -> nat, limit: nat): Packing<T> {
    if items == [] then Packing([], [])
    else Place(Pack(items[..|items| - 1], size, limit), items[|items| - 1], size, limit)
  }

  function Chunks<T>(p: Packing<T>): seq<seq<T>> { p.done + [p.chunk] }

  lemma {:induction false} SizesSnoc<T>(chunk: seq<T>, item: T, size: T -> nat)
    ensures Filled(chunk + [item], size) == Filled(chunk, size) + size(item) + 1
  {
    assert (chunk + [item])[..|chunk|] == chunk;
  }

  lemma {:induction false} PackSnoc<T>(items: seq<T>, item: T, size: T -> nat, limit: nat)
    ensures Pack(items + [item], size, limit) == Place(Pack(items, size, limit), item, size, limit)
  {
    assert (items + [item])[..|items|] == items;
  }

  ghost predicate Fits<T>(item: T, size: T -> nat, limit: nat) { 2 + size(item) + 1 <= limit }

  /** The chunk could not have taken the next one's first item. */
  ghost predicate Full<T>(chunk: seq<T>, next: seq<T>, size: T -> nat, limit: nat) {
    next != [] && Filled(chunk, size) + size(next[0]) + 1 > limit
  }

  ghost predicate SizesOk<T>(p: Packing<T>, size: T -> nat, limit: nat) {
    && Filled(p.chunk, size) <= limit
    && forall k :: 0 <= k < |p.done| ==> p.done[k] != [] && Filled(p.done[k], size) <= limit
  }

  ghost predicate AllFull<T>(p: Packing<T>, size: T -> nat, limit: nat) {
    forall k :: 0 <= k < |p.done| ==> Full(p.done[k], Chunks(p)[k + 1], size, limit)
  }

  /** The chunks hold the items in order, fit the limit, are not empty, and are full but for the last. */
  ghost predicate Packed<T>(p: Packing<T>, items: seq<T>, size: T -> nat, limit: nat) {
    && Flatten(Chunks(p)) == items && SizesOk(p, size, limit) && AllFull(p, size, limit)
    && (items != [] ==> p.chunk != [])
  }

  lemma {:induction false} PlaceKeepsAll<T>(p: Packing<T>, item: T, size: T -> nat, limit: nat)
    ensures Flatten(Chunks(Place(p, item, size, limit))) == Flatten(Chunks(p)) + [item]
  {
    FlattenSnoc(p.done + [p.chunk], [item]);
    FlattenSnoc(p.done, p.chunk + [item]);
    FlattenSnoc(p.done, p.chunk);
  }

  lemma {:induction false} PlaceKeepsSizes<T>(p: Packing<T>, item: T, size: T -> nat, limit: nat)
    requires SizesOk(p, size, limit) && Fits(item, size, limit)
    ensures SizesOk(Place(p, item, size, limit), size, limit) && Place(p, item, size, limit).chunk != []
  {
    SizesSnoc(p.chunk, item, size);
    SizesSnoc([], item, size);
    assert [] + [item] == [item];
  }

  lemma {:induction false} PlaceKeepsFull<T>(p: Packing<T>, item: T, size: T -> nat, limit: nat)
    requires AllFull(p, size, limit)
    ensures AllFull(Place(p, item, size, limit), size, limit)
  {
    var q := Place(p, item, size, limit);
    forall k | 0 <= k < |q.done| ensures Full(q.done[k], Chunks(q)[k + 1], size, limit) {
      if k < |p.done| {
        assert Full(p.done[k], Chunks(p)[k + 1], size, limit);
        assert k + 1 < |p.done| ==> Chunks(q)[k + 1] == Chunks(p)[k + 1];
      }
    }
  }

  lemma {:induction false} PackPacks<T>(items: seq<T>, size: T -> nat, limit: nat)
    requires limit >= 2 && forall k :: 0 <= k < |items| ==> Fits(items[k], size, limit)
    ensures Packed(Pack(items, size, limit), items, size, limit)
  {
    if items == [] {
      FlattenSnoc<T>([], []);
    } else {
      var n := |items| - 1;
      PackPacks(items[..n], size, limit);
      var p := Pack(items[..n], size, limit);
      PlaceKeepsAll(p, items[n], size, limit);
      PlaceKeepsSizes(p, items[n], size, limit);
      PlaceKeepsFull(p, items[n], size, limit);
      assert items[..n] + [items[n]] == items;
    }
  }

  /** Items of at most `most` bytes: a full chunk of them holds at least limit / most - 1, roughly. */
  lemma {:induction false} SizesBound<T>(chunk: seq<T>, size: T -> nat, most: nat)
    requires forall k :: 0 <= k < |chunk| ==> size(chunk[k]) + 1 <= most
    ensures Filled(chunk, size) <= 2 + most * |chunk|
  {
    if chunk != [] {
      var n := |chunk| - 1;
      SizesBound(chunk[..n], size, most);
      assert most * (n + 1) == most * n + most;
    }
  }

  /** Items two of which never fit together end up in chunks of their own. */
  lemma {:induction false} LargeItemsStayAlone<T>(items: seq<T>, size: T -> nat, limit: nat)
    requires items != [] && forall k :: 0 <= k < |items| ==> Fits(items[k], size, limit) && 2 * size(items[k]) > limit
    ensures var p := Pack(items, size, limit); |p.done| == |items| - 1 && p.chunk == [items[|items| - 1]]
  {
    var n := |items| - 1;
    PackSnoc(items[..n], items[n], size, limit);
    assert items[..n] + [items[n]] == items;
    if n > 0 {
      LargeItemsStayAlone(items[..n], size, limit);
      SizesSnoc([], items[n - 1], size);
      assert [] + [items[n - 1]] == [items[n - 1]];
    } else {
      assert items[..0] == [];
    }
  }
}
