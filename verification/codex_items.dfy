/**
 * What reading back a Codex conversation keeps of its items (crates/installation/src/chat_process.rs): of each turn
 * all user messages and the last answer, in their order, whatever other turns' items come in between.
 */
module CodexItems {
  import opened Common
  import opened CodexHistory

  // ----- The items of one turn -----

  /** Items kept one after the other, on top of those already there. */
  function KeepAll(before: seq<Item>, items: seq<Item>): seq<Item> {
    if items == [] then before else Keep(KeepAll(before, items[..|items| - 1]), items[|items| - 1])
  }

  /** A user message, or the last answer. */
  ghost predicate IsKept(items: seq<Item>, i: nat)
    requires i < |items|
  {
    items[i].UserMessage? || (items[i].AgentMessage? && forall k :: i < k < |items| ==> !items[k].AgentMessage?)
  }

  /** Of the first n items, those that are kept. */
  ghost function Kept(items: seq<Item>, n: nat): seq<Item>
    requires n <= |items|
  {
    if n == 0 then [] else Kept(items, n - 1) + if IsKept(items, n - 1) then [items[n - 1]] else []
  }

  lemma {:induction false} NoNewAnswer(items: seq<Item>, item: Item, n: nat)
    requires n <= |items| && !item.AgentMessage?
    ensures Kept(items + [item], n) == Kept(items, n)
  {
    if n > 0 {
      NoNewAnswer(items, item, n - 1);
      var all := items + [item];
      assert all[n - 1] == items[n - 1];
      if IsKept(items, n - 1) {
        assert forall k :: n - 1 < k < |all| ==> all[k] == if k < |items| then items[k] else item;
      } else if items[n - 1].AgentMessage? {
        var k :| n - 1 < k < |items| && items[k].AgentMessage?;
        assert all[k].AgentMessage?;
      }
    }
  }

  lemma WithoutAnswersSnoc(items: seq<Item>, item: Item)
    ensures WithoutAnswers(items + [item]) == WithoutAnswers(items) + if item.AgentMessage? then [] else [item]
  {
    assert (items + [item])[..|items|] == items;
  }

  lemma {:induction false} NewAnswer(items: seq<Item>, item: Item, n: nat)
    requires n <= |items| && item.AgentMessage?
    ensures Kept(items + [item], n) == WithoutAnswers(Kept(items, n))
  {
    if n > 0 {
      var all, m := items + [item], n - 1;
      NewAnswer(items, item, m);
      assert all[m] == items[m] && all[|items|] == item;
      assert IsKept(all, m) <==> items[m].UserMessage?;
      if IsKept(items, m) {
        WithoutAnswersSnoc(Kept(items, m), items[m]);
      } else {
        assert Kept(items, n) == Kept(items, m);
      }
    }
  }

  /** Exactly the user messages and the last answer are kept, in their order. */
  lemma {:induction false} KeepsMessagesAndTheLastAnswer(items: seq<Item>)
    ensures KeepAll([], items) == Kept(items, |items|)
  {
    if items != [] {
      var n := |items| - 1;
      var front, last := items[..n], items[n];
      KeepsMessagesAndTheLastAnswer(front);
      assert items == front + [last];
      if last.AgentMessage? { NewAnswer(front, last, n); } else { NoNewAnswer(front, last, n); }
    }
  }

  // ----- The items of every turn -----

  /** The items the loop holds of a turn; none if it has not met it. */
  ghost function ItemsOf(l: Loading, id: nat): seq<Item>
    requires Valid(l)
  {
    if id in l.indices then l.turns[l.indices[id]].items else []
  }

  /** Those of the first n entries that belong to the turn. */
  ghost function EntriesOf(entries: seq<Entry>, n: nat, id: nat): seq<Item>
    requires n <= |entries|
  {
    if n == 0 then []
    else EntriesOf(entries, n - 1, id) + if entries[n - 1].turnId == id then [entries[n - 1].item] else []
  }

  lemma RecoveredKeepsItems(l: Loading, turn: nat, id: nat)
    requires Valid(l)
    ensures var r := Recovered(l, turn);
            && (id in r.indices <==> id in l.indices || id == turn)
            && (id in r.indices ==> r.indices[id] < |r.turns| && r.turns[r.indices[id]].id == id
                                    && r.turns[r.indices[id]].items == ItemsOf(l, id))
  {
    RecoveredIsValid(l, turn);
  }

  /** An entry changes the items of its own turn and of no other. */
  lemma EntryKeepsItems(l: Loading, e: Entry, id: nat)
    requires Valid(l)
    ensures ItemsOf(AddEntry(l, e), id) == if id == e.turnId then Keep(ItemsOf(l, id), e.item) else ItemsOf(l, id)
  {
    RecoveredIsValid(l, e.turnId);
    RecoveredKeepsItems(l, e.turnId, id);
    RecoveredKeepsItems(l, e.turnId, e.turnId);
  }

  ghost predicate HoldsItsItems(l: Loading, listed: seq<Item>, entries: seq<Entry>, n: nat, id: nat)
    requires Valid(l) && n <= |entries|
  {
    ItemsOf(LoadTo(l, entries, n), id) == KeepAll(listed, EntriesOf(entries, n, id))
  }

  lemma {:induction false} NextEntryIsKept(l: Loading, listed: seq<Item>, entries: seq<Entry>, n: nat, id: nat)
    requires Valid(l) && n < |entries| && HoldsItsItems(l, listed, entries, n, id)
    ensures HoldsItsItems(l, listed, entries, n + 1, id)
  {
    EntryKeepsItems(LoadTo(l, entries, n), entries[n], id);
    KeepAllSnoc(listed, EntriesOf(entries, n, id), entries[n].item);
    assert EntriesOf(entries, n, id) + [] == EntriesOf(entries, n, id);
  }

  lemma {:induction false} HoldsFromTheStart(l: Loading, listed: seq<Item>, entries: seq<Entry>, n: nat, id: nat)
    requires Valid(l) && n <= |entries| && HoldsItsItems(l, listed, entries, 0, id)
    ensures HoldsItsItems(l, listed, entries, n, id)
  {
    if n > 0 {
      var m := n - 1;
      HoldsFromTheStart(l, listed, entries, m, id);
      NextEntryIsKept(l, listed, entries, m, id);
      assert m + 1 == n;
    }
  }

  /** After any entries, each turn holds what was listed of it and then what is kept of its own entries. */
  lemma {:induction false} EachTurnKeepsItsItems(l: Loading, entries: seq<Entry>, id: nat)
    requires Valid(l)
    ensures ItemsOf(Load(l, entries), id) == KeepAll(ItemsOf(l, id), EntriesOf(entries, |entries|, id))
  {
    assert LoadTo(l, entries, 0) == l && EntriesOf(entries, 0, id) == [];
    HoldsFromTheStart(l, ItemsOf(l, id), entries, |entries|, id);
  }

  lemma KeepAllSnoc(before: seq<Item>, items: seq<Item>, item: Item)
    ensures KeepAll(before, items + [item]) == Keep(KeepAll(before, items), item)
  {
    assert (items + [item])[..|items|] == items;
  }

  /** A turn the listing lacks comes back with exactly its user messages and its last answer. */
  lemma LostTurnsComeBackWhole(turns: seq<Turn>, entries: seq<Entry>, id: nat)
    requires id !in Ids(turns)
    ensures var own := EntriesOf(entries, |entries|, id);
            ItemsOf(Load(Start(turns), entries), id) == Kept(own, |own|)
  {
    KnownIffThere(Start(turns), id);
    EachTurnKeepsItsItems(Start(turns), entries, id);
    KeepsMessagesAndTheLastAnswer(EntriesOf(entries, |entries|, id));
  }
}
