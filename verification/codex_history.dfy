/**
 * Reading back a Codex conversation (`load_items` and `keep_item` of crates/installation/src/chat_process.rs).
 * Turns are listed newest first; their items arrive one by one, oldest first, and may belong to turns the listing
 * has lost, which are put in where they belong.
 */
module CodexHistory {
  import opened Common

  datatype Item = UserMessage(clientId: Option<string>) | AgentMessage(text: string) | OtherItem
  datatype Status = Completed | Interrupted | InProgress
  datatype Turn = Turn(id: nat, status: Status, items: seq<Item>)
  datatype Entry = Entry(turnId: nat, item: Item)

  // ----- Items -----

  /** The items without agent messages. */
  function WithoutAnswers(items: seq<Item>): seq<Item> {
    if items == [] then []
    else
      var last := items[|items| - 1];
      WithoutAnswers(items[..|items| - 1]) + if last.AgentMessage? then [] else [last]
  }

  /** Keeps user messages, and of the agent's only the last one. */
  function Keep(items: seq<Item>, item: Item): seq<Item> {
    match item
    case UserMessage(_) => items + [item]
    case AgentMessage(_) => WithoutAnswers(items) + [item]
    case OtherItem => items
  }

  /** The message identifiers found among the items, in order. */
  function ClientIds(items: seq<Item>): seq<string> {
    if items == [] then []
    else
      var last := items[|items| - 1];
      ClientIds(items[..|items| - 1]) + if last.UserMessage? && last.clientId.Some? then [last.clientId.value] else []
  }

  lemma {:induction false} ClientIdsSnoc(items: seq<Item>, item: Item)
    ensures ClientIds(items + [item])
            == ClientIds(items) + if item.UserMessage? && item.clientId.Some? then [item.clientId.value] else []
  {
    assert (items + [item])[..|items|] == items;
  }

  lemma {:induction false} AnswersCarryNoIds(items: seq<Item>)
    ensures ClientIds(WithoutAnswers(items)) == ClientIds(items)
  {
    if items != [] {
      var n := |items| - 1;
      AnswersCarryNoIds(items[..n]);
      if items[n].AgentMessage? {
        assert WithoutAnswers(items) == WithoutAnswers(items[..n]);
      } else {
        ClientIdsSnoc(WithoutAnswers(items[..n]), items[n]);
      }
    }
  }

  /** Whatever is dropped, no message identifier is. */
  lemma {:induction false} KeepingKeepsIds(items: seq<Item>, item: Item)
    ensures ClientIds(Keep(items, item))
            == ClientIds(items) + if item.UserMessage? && item.clientId.Some? then [item.clientId.value] else []
  {
    match item {
      case UserMessage(_) => ClientIdsSnoc(items, item);
      case AgentMessage(_) =>
        AnswersCarryNoIds(items);
        ClientIdsSnoc(WithoutAnswers(items), item);
      case OtherItem =>
    }
  }

  // ----- Where turns go -----

  function Ids(turns: seq<Turn>): (ids: seq<nat>)
    ensures |ids| == |turns| && forall i :: 0 <= i < |ids| ==> ids[i] == turns[i].id
  {
    seq(|turns|, i requires 0 <= i < |turns| => turns[i].id)
  }

  function Inserted<T>(list: seq<T>, index: nat, x: T): seq<T>
    requires index <= |list|
  {
    list[..index] + [x] + list[index..]
  }

  /** The state of the loop: the turns so far, the index of each identifier, and the turn of the last item. */
  datatype Loading = Loading(turns: seq<Turn>, indices: map<nat, nat>, previous: Option<nat>)

  /** The index map matches the turn list. */
  ghost predicate Valid(l: Loading) {
    && (forall id :: id in l.indices ==> l.indices[id] < |l.turns| && l.turns[l.indices[id]].id == id)
    && (forall i :: 0 <= i < |l.turns| ==> l.turns[i].id in l.indices)
    && (l.previous.Some? ==> l.previous.value < |l.turns|)
  }

  function Shifted(indices: map<nat, nat>, index: nat): map<nat, nat> {
    map id | id in indices :: if indices[id] >= index then indices[id] + 1 else indices[id]
  }

  /** Where the turn of an item is, or goes. */
  function Place(l: Loading, id: nat): nat {
    if id in l.indices then l.indices[id]
    else if l.previous.Some? then l.previous.value
    else |l.turns|
  }

  function Recovered(l: Loading, id: nat): Loading
    requires Valid(l)
  {
    if id in l.indices then l
    else
      var index := Place(l, id);
      l.(turns := Inserted(l.turns, index, Turn(id, Interrupted, [])),
         indices := Shifted(l.indices, index)[id := index])
  }

  lemma {:induction false} RecoveredIsValid(l: Loading, id: nat)
    requires Valid(l)
    ensures var r := Recovered(l, id);
            && Place(l, id) < |r.turns| && r.turns[Place(l, id)].id == id
            && Valid(r.(previous := Some(Place(l, id))))
  {
    var r := Recovered(l, id);
    var index := Place(l, id);
    if id !in l.indices {
      forall i | 0 <= i < |r.turns| ensures r.turns[i].id in r.indices {
        if i < index {
          assert r.turns[i] == l.turns[i];
        } else if i > index {
          assert r.turns[i] == l.turns[i - 1];
        }
      }
      forall x | x in r.indices ensures r.indices[x] < |r.turns| && r.turns[r.indices[x]].id == x {
        if x != id {
          assert l.turns[l.indices[x]].id == x;
        }
      }
    }
  }

  function AddEntry(l: Loading, e: Entry): (next: Loading)
    requires Valid(l)
    ensures Valid(next)
  {
    RecoveredIsValid(l, e.turnId);
    var r, index := Recovered(l, e.turnId), Place(l, e.turnId);
    Loading(r.turns[index := r.turns[index].(items := Keep(r.turns[index].items, e.item))], r.indices, Some(index))
  }

  /** The state after the first n entries. */
  function LoadTo(l: Loading, entries: seq<Entry>, n: nat): (next: Loading)
    requires Valid(l) && n <= |entries|
    ensures Valid(next)
  {
    if n == 0 then l else AddEntry(LoadTo(l, entries, n - 1), entries[n - 1])
  }

  function Load(l: Loading, entries: seq<Entry>): (next: Loading)
    requires Valid(l)
    ensures Valid(next)
  {
    LoadTo(l, entries, |entries|)
  }

  /** The index of each listed turn; of turns listed twice, the last. */
  function Indexed(turns: seq<Turn>): (indices: map<nat, nat>)
    ensures forall id :: id in indices ==> indices[id] < |turns| && turns[indices[id]].id == id
    ensures forall i :: 0 <= i < |turns| ==> turns[i].id in indices
  {
    if turns == [] then map[]
    else Indexed(turns[..|turns| - 1])[turns[|turns| - 1].id := |turns| - 1]
  }

  function Start(turns: seq<Turn>): (l: Loading)
    ensures Valid(l)
  {
    Loading(turns, Indexed(turns), None)
  }

  // ----- The order of turns -----

  function Filter(ids: seq<nat>, keep: set<nat>): seq<nat> {
    if ids == [] then []
    else Filter(ids[..|ids| - 1], keep) + if ids[|ids| - 1] in keep then [ids[|ids| - 1]] else []
  }

  function Reverse(ids: seq<nat>): seq<nat> {
    if ids == [] then [] else [ids[|ids| - 1]] + Reverse(ids[..|ids| - 1])
  }

  function SetOf(ids: seq<nat>): set<nat> {
    set i | 0 <= i < |ids| :: ids[i]
  }

  /** The turns of the first n entries, in the order of their first item. */
  function FirstsTo(entries: seq<Entry>, n: nat): seq<nat>
    requires n <= |entries|
  {
    if n == 0 then []
    else
      var before := FirstsTo(entries, n - 1);
      var id := entries[n - 1].turnId;
      before + if id in before then [] else [id]
  }

  function Firsts(entries: seq<Entry>): seq<nat> {
    FirstsTo(entries, |entries|)
  }

  ghost predicate Distinct(ids: seq<nat>) {
    forall i, j :: 0 <= i < j < |ids| ==> ids[i] != ids[j]
  }

  lemma {:induction false} FilterAppend(a: seq<nat>, b: seq<nat>, keep: set<nat>)
    ensures Filter(a + b, keep) == Filter(a, keep) + Filter(b, keep)
    decreases |b|
  {
    if b == [] {
      assert a + b == a;
    } else {
      var n := |b| - 1;
      assert (a + b)[..|a + b| - 1] == a + b[..n];
      FilterAppend(a, b[..n], keep);
    }
  }

  lemma {:induction false} FilterIn(ids: seq<nat>, keep: set<nat>, x: nat)
    ensures x in Filter(ids, keep) <==> x in ids && x in keep
  {
    if ids != [] {
      FilterIn(ids[..|ids| - 1], keep, x);
      assert x in ids <==> x in ids[..|ids| - 1] || x == ids[|ids| - 1];
    }
  }

  lemma {:induction false} FilterDistinct(ids: seq<nat>, keep: set<nat>)
    requires Distinct(ids)
    ensures Distinct(Filter(ids, keep))
  {
    if ids != [] {
      var n := |ids| - 1;
      FilterDistinct(ids[..n], keep);
      FilterIn(ids[..n], keep, ids[n]);
      assert ids[n] !in ids[..n];
    }
  }

  lemma {:induction false} ReverseAppend(a: seq<nat>, b: seq<nat>)
    ensures Reverse(a + b) == Reverse(b) + Reverse(a)
    decreases |b|
  {
    if b == [] {
      assert a + b == a;
    } else {
      var n := |b| - 1;
      assert (a + b)[..|a + b| - 1] == a + b[..n];
      ReverseAppend(a, b[..n]);
    }
  }

  lemma {:induction false} FilterOne(x: nat, keep: set<nat>)
    ensures Filter([x], keep) == if x in keep then [x] else []
  {
    assert [x][..0] == [];
  }

  lemma {:induction false} SameSplit(front: seq<nat>, back: seq<nat>, u: seq<nat>, t: seq<nat>)
    requires front + back == u + t && Distinct(u + t) && back != [] && t != [] && back[0] == t[0]
    ensures front == u && back == t
  {
    assert (front + back)[|front|] == (u + t)[|u|];
    assert |front| == |u|;
    assert front == (front + back)[..|front|] && u == (u + t)[..|u|];
    assert back == (front + back)[|front|..] && t == (u + t)[|u|..];
  }

  lemma {:induction false} FilterHead(ids: seq<nat>, keep: set<nat>)
    requires ids != [] && ids[0] in keep
    ensures Filter(ids, keep) != [] && Filter(ids, keep)[0] == ids[0]
  {
    assert ids == [ids[0]] + ids[1..];
    FilterAppend([ids[0]], ids[1..], keep);
    FilterOne(ids[0], keep);
  }

  /** A list whose kept part is u + t splits at the place of t's first element. */
  lemma {:induction false} FilterSplit(ids: seq<nat>, keep: set<nat>, p: nat, u: seq<nat>, t: seq<nat>)
    requires Distinct(ids) && p < |ids| && t != [] && ids[p] == t[0] && ids[p] in keep && Filter(ids, keep) == u + t
    ensures Filter(ids[..p], keep) == u && Filter(ids[p..], keep) == t
  {
    assert ids[..p] + ids[p..] == ids;
    FilterAppend(ids[..p], ids[p..], keep);
    FilterDistinct(ids, keep);
    FilterHead(ids[p..], keep);
    SameSplit(Filter(ids[..p], keep), Filter(ids[p..], keep), u, t);
  }

  lemma {:induction false} FilterInserted(ids: seq<nat>, keep: set<nat>, p: nat, x: nat)
    requires p <= |ids|
    ensures Filter(Inserted(ids, p, x), keep)
            == Filter(ids[..p], keep) + (if x in keep then [x] else []) + Filter(ids[p..], keep)
  {
    FilterAppend(ids[..p] + [x], ids[p..], keep);
    FilterAppend(ids[..p], [x], keep);
    FilterOne(x, keep);
  }

  /** If entry n is the first of a turn that is not listed, the entry before it is of the turn met last. */
  ghost predicate FollowsTheLast(listed: seq<nat>, entries: seq<Entry>, n: nat)
    requires n < |entries|
  {
    entries[n].turnId !in listed && entries[n].turnId !in FirstsTo(entries, n) ==>
      n == 0 || IsLast(FirstsTo(entries, n), entries[n - 1].turnId)
  }

  ghost predicate IsLast(ids: seq<nat>, id: nat) {
    ids != [] && ids[|ids| - 1] == id
  }

  /** Of the turns that have items, `rest` is still to come and `done` has been met, in order. */
  ghost predicate InOrder(ids: seq<nat>, listed: seq<nat>, done: seq<nat>, rest: seq<nat>) {
    && Distinct(ids)
    && Filter(ids, SetOf(done + rest)) == Reverse(Filter(rest, SetOf(listed))) + Reverse(done)
    && (forall id :: id in ids <==> id in listed || id in done)
    && Filter(ids, SetOf(listed)) == listed
  }

  lemma {:induction false} ReverseHead(ids: seq<nat>, x: nat)
    ensures Reverse(ids + [x]) == [x] + Reverse(ids)
  {
    assert (ids + [x])[..|ids|] == ids;
  }

  lemma {:induction false} TakeListed(rest: seq<nat>, listed: set<nat>)
    requires rest != [] && rest[0] in listed
    ensures Reverse(Filter(rest, listed)) == Reverse(Filter(rest[1..], listed)) + [rest[0]]
  {
    var x := rest[0];
    assert rest == [x] + rest[1..];
    FilterAppend([x], rest[1..], listed);
    FilterOne(x, listed);
    ReverseAppend([x], Filter(rest[1..], listed));
    assert [x][..0] == [] && Reverse([x]) == [x];
  }

  /** The next turn is listed: it is already where it belongs. */
  lemma {:induction false} MeetListed(ids: seq<nat>, listed: seq<nat>, done: seq<nat>, rest: seq<nat>)
    requires InOrder(ids, listed, done, rest) && rest != [] && rest[0] in listed
    ensures InOrder(ids, listed, done + [rest[0]], rest[1..])
  {
    var x := rest[0];
    assert done + rest == (done + [x]) + rest[1..];
    TakeListed(rest, SetOf(listed));
    ReverseHead(done, x);
    var u := Reverse(Filter(rest[1..], SetOf(listed)));
    assert (u + [x]) + Reverse(done) == u + ([x] + Reverse(done));
  }

  /** Putting x where t begins, or at the end, puts it between u and t. */
  lemma {:induction false} LostGoesBetween(ids: seq<nat>, all: set<nat>, p: nat, x: nat, u: seq<nat>, t: seq<nat>)
    requires Distinct(ids) && x in all && Filter(ids, all) == u + t
    requires if t == [] then p == |ids| else p < |ids| && ids[p] == t[0] && ids[p] in all
    ensures Filter(Inserted(ids, p, x), all) == u + [x] + t
  {
    FilterInserted(ids, all, p, x);
    if t == [] {
      assert ids[..p] == ids && ids[p..] == [];
      assert u + t == u;
    } else {
      FilterSplit(ids, all, p, u, t);
    }
  }

  /** A turn that is not listed leaves the order of the listed ones alone. */
  lemma {:induction false} LostKeepsListed(ids: seq<nat>, listed: set<nat>, p: nat, x: nat)
    requires p <= |ids| && x !in listed
    ensures Filter(Inserted(ids, p, x), listed) == Filter(ids, listed)
  {
    FilterInserted(ids, listed, p, x);
    var front, back := Filter(ids[..p], listed), Filter(ids[p..], listed);
    assert front + [] + back == front + back;
    FilterAppend(ids[..p], ids[p..], listed);
    assert ids[..p] + ids[p..] == ids;
  }

  lemma {:induction false} InsertedIn(ids: seq<nat>, p: nat, x: nat, id: nat)
    requires p <= |ids|
    ensures id in Inserted(ids, p, x) <==> id in ids || id == x
  {
    assert ids == ids[..p] + ids[p..];
  }

  lemma {:induction false} SkipLost(rest: seq<nat>, listed: set<nat>)
    requires rest != [] && rest[0] !in listed
    ensures Filter(rest, listed) == Filter(rest[1..], listed)
  {
    assert rest == [rest[0]] + rest[1..];
    FilterAppend([rest[0]], rest[1..], listed);
    FilterOne(rest[0], listed);
  }

  /** The next turn is not listed: it goes before the last turn met, or at the end if none has been. */
  lemma {:induction false} MeetLost(ids: seq<nat>, listed: seq<nat>, done: seq<nat>, rest: seq<nat>, p: nat)
    requires InOrder(ids, listed, done, rest) && rest != [] && rest[0] !in listed && rest[0] !in done
    requires if done == [] then p == |ids| else p < |ids| && ids[p] == done[|done| - 1]
    ensures InOrder(Inserted(ids, p, rest[0]), listed, done + [rest[0]], rest[1..])
  {
    var x, all := rest[0], SetOf(done + rest);
    assert done + rest == (done + [x]) + rest[1..];
    assert x in all by { assert (done + rest)[|done|] == x; }
    assert done != [] ==> ids[p] in all by { assert done != [] ==> (done + rest)[|done| - 1] == ids[p]; }
    SkipLost(rest, SetOf(listed));
    var u := Reverse(Filter(rest, SetOf(listed)));
    LostGoesBetween(ids, all, p, x, u, Reverse(done));
    ReverseHead(done, x);
    assert u + [x] + Reverse(done) == u + Reverse(done + [x]);
    LostKeepsListed(ids, SetOf(listed), p, x);
    InsertedDistinct(ids, p, x);
    forall id ensures id in Inserted(ids, p, x) <==> id in listed || id in done + [x] { InsertedIn(ids, p, x, id); }
  }

  lemma {:induction false} InsertedDistinct(ids: seq<nat>, p: nat, x: nat)
    requires Distinct(ids) && p <= |ids| && x !in ids
    ensures Distinct(Inserted(ids, p, x))
  {
  }

  lemma {:induction false} IdsUpdate(turns: seq<Turn>, i: nat, t: Turn)
    requires i < |turns| && t.id == turns[i].id
    ensures Ids(turns[i := t]) == Ids(turns)
  {
    assert forall k :: 0 <= k < |turns| ==> Ids(turns[i := t])[k] == Ids(turns)[k];
  }

  lemma {:induction false} IdsInserted(turns: seq<Turn>, i: nat, t: Turn)
    requires i <= |turns|
    ensures Ids(Inserted(turns, i, t)) == Inserted(Ids(turns), i, t.id)
  {
    var after := Inserted(turns, i, t);
    forall k | 0 <= k < |after| ensures Ids(after)[k] == Inserted(Ids(turns), i, t.id)[k] {
      assert after[k] == if k < i then turns[k] else if k == i then t else turns[k - 1];
    }
  }

  lemma {:induction false} IdsAdd(l: Loading, e: Entry)
    requires Valid(l)
    ensures Ids(AddEntry(l, e).turns)
            == if e.turnId in l.indices then Ids(l.turns)
               else Inserted(Ids(l.turns), Place(l, e.turnId), e.turnId)
    ensures AddEntry(l, e).previous == Some(Place(l, e.turnId)) && Place(l, e.turnId) < |AddEntry(l, e).turns|
    ensures AddEntry(l, e).turns[Place(l, e.turnId)].id == e.turnId
  {
    RecoveredIsValid(l, e.turnId);
    var r, p := Recovered(l, e.turnId).turns, Place(l, e.turnId);
    IdsUpdate(r, p, r[p].(items := Keep(r[p].items, e.item)));
    if e.turnId !in l.indices { IdsInserted(l.turns, p, Turn(e.turnId, Interrupted, [])); }
  }

  lemma {:induction false} KnownIffThere(l: Loading, id: nat)
    requires Valid(l)
    ensures id in l.indices <==> id in Ids(l.turns)
  {
    if id in l.indices {
      assert Ids(l.turns)[l.indices[id]] == id;
    }
  }

  // ----- The order alone -----

  function IndexOf(ids: seq<nat>, x: nat): (k: nat)
    ensures k <= |ids| && (k < |ids| ==> ids[k] == x) && (x in ids ==> k < |ids|)
  {
    if ids == [] || ids[0] == x then 0 else 1 + IndexOf(ids[1..], x)
  }

  /** Where a lost turn goes: before the turn of the last item, or at the end. */
  function Slot(ids: seq<nat>, last: Option<nat>): (p: nat)
    ensures p <= |ids|
  {
    if last.None? then |ids| else IndexOf(ids, last.value)
  }

  function Met(ids: seq<nat>, last: Option<nat>, x: nat): seq<nat> {
    if x in ids then ids else Inserted(ids, Slot(ids, last), x)
  }

  ghost function LastTurn(entries: seq<Entry>, n: nat): Option<nat>
    requires n <= |entries|
  {
    if n == 0 then None else Some(entries[n - 1].turnId)
  }

  /** The order of the turns after the first n entries. */
  ghost function OrderTo(listed: seq<nat>, entries: seq<Entry>, n: nat): seq<nat>
    requires n <= |entries|
  {
    if n == 0 then listed else Met(OrderTo(listed, entries, n - 1), LastTurn(entries, n - 1), entries[n - 1].turnId)
  }

  /** What holds however the entries come. */
  ghost predicate Shape(ids: seq<nat>, listed: seq<nat>) {
    Distinct(ids) && Filter(ids, SetOf(listed)) == listed && forall id :: id in listed ==> id in ids
  }

  lemma {:induction false} MetKeepsShape(ids: seq<nat>, listed: seq<nat>, last: Option<nat>, x: nat)
    requires Shape(ids, listed)
    ensures Shape(Met(ids, last, x), listed)
  {
    if x !in ids {
      var p := Slot(ids, last);
      LostKeepsListed(ids, SetOf(listed), p, x);
      InsertedDistinct(ids, p, x);
      forall id | id in listed ensures id in Inserted(ids, p, x) { InsertedIn(ids, p, x, id); }
    }
  }

  lemma {:induction false} OrderKeepsShape(listed: seq<nat>, entries: seq<Entry>, n: nat)
    requires n <= |entries| && Distinct(listed)
    ensures Shape(OrderTo(listed, entries, n), listed)
  {
    if n == 0 {
      FilterAll(listed, SetOf(listed));
    } else {
      OrderKeepsShape(listed, entries, n - 1);
      MetKeepsShape(OrderTo(listed, entries, n - 1), listed, LastTurn(entries, n - 1), entries[n - 1].turnId);
    }
  }

  /** The loop's turns stand in that order, and its previous turn is that of the last entry. */
  ghost predicate Orders(l: Loading, ids: seq<nat>, last: Option<nat>)
    requires Valid(l)
  {
    && Ids(l.turns) == ids
    && if last.None? then l.previous.None? else l.previous.Some? && ids[l.previous.value] == last.value
  }

  lemma {:induction false} PlaceIsSlot(l: Loading, ids: seq<nat>, last: Option<nat>, id: nat)
    requires Valid(l) && Orders(l, ids, last) && Distinct(ids) && id !in l.indices
    ensures Place(l, id) == Slot(ids, last)
  {
    if last.Some? { assert IndexOf(ids, last.value) == l.previous.value; }
  }

  lemma {:induction false} EntryOrders(l: Loading, ids: seq<nat>, last: Option<nat>, e: Entry)
    requires Valid(l) && Orders(l, ids, last) && Distinct(ids)
    ensures Orders(AddEntry(l, e), Met(ids, last, e.turnId), Some(e.turnId))
  {
    KnownIffThere(l, e.turnId);
    IdsAdd(l, e);
    if e.turnId !in l.indices { PlaceIsSlot(l, ids, last, e.turnId); }
  }

  ghost predicate OrdersAt(l: Loading, entries: seq<Entry>, listed: seq<nat>, n: nat)
    requires Valid(l) && n <= |entries|
  {
    Orders(LoadTo(l, entries, n), OrderTo(listed, entries, n), LastTurn(entries, n))
  }

  lemma {:induction false} OrdersNext(l: Loading, entries: seq<Entry>, listed: seq<nat>, n: nat)
    requires Valid(l) && n < |entries| && Distinct(listed) && OrdersAt(l, entries, listed, n)
    ensures OrdersAt(l, entries, listed, n + 1)
  {
    OrderKeepsShape(listed, entries, n);
    EntryOrders(LoadTo(l, entries, n), OrderTo(listed, entries, n), LastTurn(entries, n), entries[n]);
  }

  lemma {:induction false} LoadOrders(l: Loading, entries: seq<Entry>, listed: seq<nat>, n: nat)
    requires Valid(l) && n <= |entries| && Distinct(listed) && OrdersAt(l, entries, listed, 0)
    ensures OrdersAt(l, entries, listed, n)
  {
    if n > 0 {
      var m := n - 1;
      LoadOrders(l, entries, listed, m);
      OrdersNext(l, entries, listed, m);
      assert m + 1 == n;
    }
  }

  /** The turns of `done` have been met, and `last` is one of them. */
  ghost predicate Stands(ids: seq<nat>, listed: seq<nat>, done: seq<nat>, rest: seq<nat>, last: Option<nat>) {
    InOrder(ids, listed, done, rest) && if last.None? then done == [] else last.value in done
  }

  /** The first item of the next turn. */
  lemma {:induction false} NextTurn(ids: seq<nat>, listed: seq<nat>, done: seq<nat>, rest: seq<nat>, last: Option<nat>)
    requires Stands(ids, listed, done, rest, last) && rest != [] && rest[0] !in done
    requires rest[0] !in listed ==> last.None? || IsLast(done, last.value)
    ensures Stands(Met(ids, last, rest[0]), listed, done + [rest[0]], rest[1..], Some(rest[0]))
  {
    if rest[0] in listed {
      MeetListed(ids, listed, done, rest);
    } else {
      MeetLost(ids, listed, done, rest, Slot(ids, last));
    }
  }

  lemma {:induction false} FilterAll(ids: seq<nat>, keep: set<nat>)
    requires SetOf(ids) <= keep
    ensures Filter(ids, keep) == ids
  {
    if ids != [] {
      var n := |ids| - 1;
      assert forall i :: 0 <= i < n ==> ids[..n][i] in SetOf(ids);
      FilterAll(ids[..n], keep);
      assert ids[n] in SetOf(ids);
    }
  }

  /** Where the loop stands when it has met `done` of the turns f. */
  ghost predicate StandsAt(ids: seq<nat>, listed: seq<nat>, f: seq<nat>, done: seq<nat>, last: Option<nat>) {
    done <= f && Stands(ids, listed, done, f[|done|..], last)
  }

  lemma {:induction false} StartStands(listed: seq<nat>, f: seq<nat>)
    requires Distinct(listed) && InListing(listed, f)
    ensures StandsAt(listed, listed, f, [], None)
  {
    assert f[0..] == f && [] + f == f;
    FilterAll(listed, SetOf(listed));
    assert Reverse(Filter(f, SetOf(listed))) + Reverse([]) == Reverse(Filter(f, SetOf(listed)));
  }

  lemma {:induction false} EntryStands(
    ids: seq<nat>, listed: seq<nat>, f: seq<nat>, done: seq<nat>, last: Option<nat>, x: nat, next: seq<nat>
  )
    requires StandsAt(ids, listed, f, done, last) && next <= f && next == if x in done then done else done + [x]
    requires x !in listed && x !in done ==> last.None? || IsLast(done, last.value)
    ensures StandsAt(Met(ids, last, x), listed, f, next, Some(x))
  {
    if x !in done {
      assert f[|done|] == next[|done|];
      NextTurn(ids, listed, done, f[|done|..], last);
      assert f[|done|..][1..] == f[|done| + 1..];
    }
  }

  /** The orders and the turns met after each entry, as two lists. */
  datatype Course = Course(listed: seq<nat>, turns: seq<nat>, orders: seq<seq<nat>>, firsts: seq<seq<nat>>)

  ghost predicate IsCourse(c: Course) {
    && |c.orders| == |c.firsts| == |c.turns| + 1 && c.orders[0] == c.listed && c.firsts[0] == []
    && (forall n :: 0 <= n < |c.turns| ==> Follows(c, n))
  }

  ghost function Previous(c: Course, n: nat): Option<nat>
    requires n <= |c.turns|
  {
    if n == 0 then None else Some(c.turns[n - 1])
  }

  ghost predicate Follows(c: Course, n: nat)
    requires n < |c.turns| && |c.orders| == |c.firsts| == |c.turns| + 1
  {
    && c.orders[n + 1] == Met(c.orders[n], Previous(c, n), c.turns[n])
    && c.firsts[n + 1] == if c.turns[n] in c.firsts[n] then c.firsts[n] else c.firsts[n] + [c.turns[n]]
  }

  ghost function All(c: Course): seq<nat>
    requires IsCourse(c)
  {
    c.firsts[|c.turns|]
  }

  /** The course of a loop over the entries. */
  ghost predicate Describes(c: Course, listed: seq<nat>, entries: seq<Entry>) {
    && c.listed == listed && |c.turns| == |entries| && |c.orders| == |c.firsts| == |entries| + 1
    && (forall n :: 0 <= n < |entries| ==> c.turns[n] == entries[n].turnId)
    && (forall n :: 0 <= n <= |entries| ==> c.orders[n] == OrderTo(listed, entries, n))
    && (forall n :: 0 <= n <= |entries| ==> c.firsts[n] == FirstsTo(entries, n))
  }

  lemma {:induction false} CourseExists(listed: seq<nat>, entries: seq<Entry>) returns (c: Course)
    ensures Describes(c, listed, entries)
  {
    c := Course(listed, seq(|entries|, i requires 0 <= i < |entries| => entries[i].turnId),
                seq(|entries| + 1, n requires 0 <= n <= |entries| => OrderTo(listed, entries, n)),
                seq(|entries| + 1, n requires 0 <= n <= |entries| => FirstsTo(entries, n)));
  }

  lemma {:induction false} DescribedFollows(c: Course, listed: seq<nat>, entries: seq<Entry>, n: nat)
    requires Describes(c, listed, entries) && n < |entries|
    ensures Follows(c, n)
  {
    assert Previous(c, n) == LastTurn(entries, n);
    assert c.orders[n + 1] == OrderTo(listed, entries, n + 1) && c.firsts[n + 1] == FirstsTo(entries, n + 1);
  }

  lemma {:induction false} DescribedIsCourse(c: Course, listed: seq<nat>, entries: seq<Entry>)
    requires Describes(c, listed, entries)
    ensures IsCourse(c)
  {
    assert c.orders[0] == OrderTo(listed, entries, 0) && c.firsts[0] == FirstsTo(entries, 0);
    forall n | 0 <= n < |entries| ensures Follows(c, n) { DescribedFollows(c, listed, entries, n); }
  }

  lemma {:induction false} FirstsGrow(c: Course, n: nat, m: nat)
    requires IsCourse(c) && n <= m <= |c.turns|
    ensures c.firsts[n] <= c.firsts[m]
    decreases m
  {
    if n < m {
      FirstsGrow(c, n, m - 1);
      assert Follows(c, m - 1);
    }
  }

  /** A turn that is not listed and met for the first time follows the turn met last. */
  ghost predicate LostFollows(c: Course, n: nat)
    requires IsCourse(c) && n < |c.turns|
  {
    c.turns[n] !in c.listed && c.turns[n] !in c.firsts[n] ==> n == 0 || IsLast(c.firsts[n], c.turns[n - 1])
  }

  ghost predicate CourseStands(c: Course, n: nat)
    requires IsCourse(c) && n <= |c.turns|
  {
    StandsAt(c.orders[n], c.listed, All(c), c.firsts[n], Previous(c, n))
  }

  lemma {:induction false} NextStands(c: Course, n: nat)
    requires IsCourse(c) && n < |c.turns| && CourseStands(c, n) && LostFollows(c, n)
    ensures CourseStands(c, n + 1)
  {
    assert Follows(c, n);
    FirstsGrow(c, n + 1, |c.turns|);
    EntryStands(c.orders[n], c.listed, All(c), c.firsts[n], Previous(c, n), c.turns[n], c.firsts[n + 1]);
  }

  lemma {:induction false} Stays(c: Course, n: nat)
    requires IsCourse(c) && n <= |c.turns| && CourseStands(c, 0) && forall m :: 0 <= m < n ==> LostFollows(c, m)
    ensures CourseStands(c, n)
  {
    if n > 0 {
      Stays(c, n - 1);
      NextStands(c, n - 1);
    }
  }

  /** Those of the turns f that are listed stand in the listing in the reverse order. */
  ghost predicate InListing(listed: seq<nat>, f: seq<nat>) {
    Filter(listed, SetOf(f)) == Reverse(Filter(f, SetOf(listed)))
  }

  /** The turns f stand newest first, exactly in their reverse order. */
  ghost predicate Reversed(ids: seq<nat>, f: seq<nat>) {
    Filter(ids, SetOf(f)) == Reverse(f)
  }

  lemma {:induction false} StandingIsReversed(c: Course)
    requires IsCourse(c) && CourseStands(c, |c.turns|)
    ensures Reversed(c.orders[|c.turns|], All(c))
  {
    var f := All(c);
    assert f[|f|..] == [] && f + [] == f;
    assert [] + Reverse(f) == Reverse(f);
  }

  // ----- The listed turns -----

  /** Whatever items come, and in whatever order, the listed turns keep theirs. */
  lemma {:induction false} ListedTurnsKeepTheirOrder(turns: seq<Turn>, entries: seq<Entry>)
    requires Distinct(Ids(turns))
    ensures Filter(Ids(Load(Start(turns), entries).turns), SetOf(Ids(turns))) == Ids(turns)
  {
    LoadOrders(Start(turns), entries, Ids(turns), |entries|);
    OrderKeepsShape(Ids(turns), entries, |entries|);
  }

  // ----- What the order needs -----

  lemma {:induction false} FilterTwice(ids: seq<nat>, a: set<nat>, b: set<nat>)
    ensures Filter(Filter(ids, a), b) == Filter(ids, a * b)
  {
    if ids != [] {
      var n := |ids| - 1;
      FilterTwice(ids[..n], a, b);
      FilterAppend(Filter(ids[..n], a), if ids[n] in a then [ids[n]] else [], b);
      FilterOne(ids[n], b);
    }
  }

  lemma {:induction false} FilterReverse(ids: seq<nat>, keep: set<nat>)
    ensures Filter(Reverse(ids), keep) == Reverse(Filter(ids, keep))
  {
    if ids != [] {
      var n := |ids| - 1;
      FilterReverse(ids[..n], keep);
      FilterAppend([ids[n]], Reverse(ids[..n]), keep);
      FilterOne(ids[n], keep);
      if ids[n] in keep {
        ReverseHead(Filter(ids[..n], keep), ids[n]);
      } else {
        assert Filter(ids, keep) == Filter(ids[..n], keep);
      }
    }
  }

  /** If the turns come back in order, the listing has them in order. */
  lemma {:induction false} ReversedIsInListing(ids: seq<nat>, listed: seq<nat>, f: seq<nat>)
    requires Filter(ids, SetOf(listed)) == listed && Reversed(ids, f)
    ensures InListing(listed, f)
  {
    FilterTwice(ids, SetOf(listed), SetOf(f));
    FilterTwice(ids, SetOf(f), SetOf(listed));
    assert SetOf(listed) * SetOf(f) == SetOf(f) * SetOf(listed);
    FilterReverse(f, SetOf(listed));
  }

  ghost predicate Before(ids: seq<nat>, a: nat, b: nat) {
    exists i, j :: 0 <= i < j < |ids| && ids[i] == a && ids[j] == b
  }

  lemma {:induction false} BeforeMet(ids: seq<nat>, last: Option<nat>, x: nat, a: nat, b: nat)
    requires Before(ids, a, b)
    ensures Before(Met(ids, last, x), a, b)
  {
    if x !in ids {
      var i, j :| 0 <= i < j < |ids| && ids[i] == a && ids[j] == b;
      var p := Slot(ids, last);
      var after := Inserted(ids, p, x);
      assert after[if i < p then i else i + 1] == a && after[if j < p then j else j + 1] == b;
    }
  }

  lemma {:induction false} BeforeFiltered(ids: seq<nat>, keep: set<nat>, a: nat, b: nat)
    requires Before(Filter(ids, keep), a, b)
    ensures Before(ids, a, b)
  {
    var n := |ids| - 1;
    var i, j :| 0 <= i < j < |Filter(ids, keep)| && Filter(ids, keep)[i] == a && Filter(ids, keep)[j] == b;
    if j < |Filter(ids[..n], keep)| {
      BeforeFiltered(ids[..n], keep, a, b);
      var k, m :| 0 <= k < m < n && ids[..n][k] == a && ids[..n][m] == b;
      assert ids[k] == a && ids[m] == b;
    } else {
      FilterIn(ids[..n], keep, a);
      var k :| 0 <= k < n && ids[..n][k] == a;
      assert ids[k] == a && ids[n] == b;
    }
  }

  lemma {:induction false} ReverseAt(ids: seq<nat>, k: nat)
    requires k < |ids|
    ensures |Reverse(ids)| == |ids| && Reverse(ids)[|ids| - 1 - k] == ids[k]
  {
    var n := |ids| - 1;
    if k < n {
      ReverseAt(ids[..n], k);
    } else if n > 0 {
      ReverseAt(ids[..n], 0);
    }
  }

  /** A turn put behind another stays behind it. */
  lemma {:induction false} MisplacedStays(c: Course, n: nat, m: nat, a: nat, b: nat)
    requires IsCourse(c) && n <= m <= |c.turns| && Before(c.orders[n], a, b)
    ensures Before(c.orders[m], a, b)
    decreases m
  {
    if n < m {
      MisplacedStays(c, n, m - 1, a, b);
      assert Follows(c, m - 1);
      BeforeMet(c.orders[m - 1], Previous(c, m - 1), c.turns[m - 1], a, b);
    }
  }

  /** In order, the turn met last comes before every other turn met. */
  lemma {:induction false} LastComesFirst(ids: seq<nat>, listed: seq<nat>, done: seq<nat>, rest: seq<nat>, p: nat)
    requires InOrder(ids, listed, done, rest) && p in done && done[|done| - 1] != p
    ensures Before(ids, done[|done| - 1], p)
  {
    var n := |done| - 1;
    var k :| 0 <= k < |done| && done[k] == p;
    ReverseAt(done, n);
    ReverseAt(done, k);
    var u := Reverse(Filter(rest, SetOf(listed)));
    var all := u + Reverse(done);
    assert all[|u|] == done[n] && all[|u| + n - k] == p;
    BeforeFiltered(ids, SetOf(done + rest), done[n], p);
  }

  /** A lost turn put in front of an earlier turn is behind the one met last. */
  lemma {:induction false} Misplaces(ids: seq<nat>, listed: seq<nat>, done: seq<nat>, rest: seq<nat>, last: nat, x: nat)
    requires InOrder(ids, listed, done, rest) && last in done && !IsLast(done, last) && x !in listed && x !in done
    ensures Before(Met(ids, Some(last), x), done[|done| - 1], x)
  {
    LastComesFirst(ids, listed, done, rest, last);
    var p := IndexOf(ids, last);
    var i, j :| 0 <= i < j < |ids| && ids[i] == done[|done| - 1] && ids[j] == last;
    assert j == p && x !in ids;
    assert Inserted(ids, p, x)[i] == done[|done| - 1] && Inserted(ids, p, x)[p] == x;
  }

  /** An order that has the later of two turns behind the earlier is not newest first. */
  lemma {:induction false} OutOfOrder(ids: seq<nat>, f: seq<nat>, k: nat)
    requires Distinct(ids) && 0 < k < |f| && Before(ids, f[k - 1], f[k])
    ensures !Reversed(ids, f)
  {
    ReverseAt(f, k - 1);
    ReverseAt(f, k);
    if Reversed(ids, f) {
      assert Before(Filter(ids, SetOf(f)), f[k], f[k - 1]);
      BeforeFiltered(ids, SetOf(f), f[k], f[k - 1]);
    }
  }

  /** A lost turn that does not follow the turn met last is put behind it. */
  lemma {:induction false} MisplacedAt(c: Course, n: nat)
    requires IsCourse(c) && n < |c.turns| && CourseStands(c, n) && !LostFollows(c, n)
    ensures var k := |c.firsts[n]|;
            0 < k < |All(c)| && All(c)[k] == c.turns[n] && Before(c.orders[n + 1], All(c)[k - 1], All(c)[k])
  {
    var done, f := c.firsts[n], All(c);
    assert Follows(c, n);
    FirstsGrow(c, n + 1, |c.turns|);
    Misplaces(c.orders[n], c.listed, done, f[|done|..], c.turns[n - 1], c.turns[n]);
    assert c.firsts[n + 1][|done| - 1] == f[|done| - 1] && c.firsts[n + 1][|done|] == f[|done|];
  }

  /** If the turns come back in order, each lost turn follows the turn met last. */
  lemma {:induction false} ReversedFollows(c: Course, n: nat)
    requires IsCourse(c) && n < |c.turns| && CourseStands(c, n)
    requires Distinct(c.orders[|c.turns|]) && Reversed(c.orders[|c.turns|], All(c))
    ensures LostFollows(c, n)
  {
    if !LostFollows(c, n) {
      MisplacedAt(c, n);
      var k := |c.firsts[n]|;
      MisplacedStays(c, n + 1, |c.turns|, All(c)[k - 1], All(c)[k]);
      OutOfOrder(c.orders[|c.turns|], All(c), k);
    }
  }

  lemma {:induction false} StandsOn(c: Course, n: nat)
    requires IsCourse(c) && n <= |c.turns| && CourseStands(c, 0)
    requires Distinct(c.orders[|c.turns|]) && Reversed(c.orders[|c.turns|], All(c))
    ensures CourseStands(c, n)
  {
    if n > 0 {
      StandsOn(c, n - 1);
      ReversedFollows(c, n - 1);
      NextStands(c, n - 1);
    }
  }

  lemma {:induction false} AllFollow(c: Course)
    requires IsCourse(c) && CourseStands(c, 0)
    requires Distinct(c.orders[|c.turns|]) && Reversed(c.orders[|c.turns|], All(c))
    ensures forall m :: 0 <= m < |c.turns| ==> LostFollows(c, m)
  {
    forall m | 0 <= m < |c.turns| ensures LostFollows(c, m) {
      StandsOn(c, m);
      ReversedFollows(c, m);
    }
  }

  lemma {:induction false} CourseIsReversedIff(c: Course)
    requires IsCourse(c) && Distinct(c.listed) && Distinct(c.orders[|c.turns|])
    requires Filter(c.orders[|c.turns|], SetOf(c.listed)) == c.listed
    ensures Reversed(c.orders[|c.turns|], All(c)) <==>
            InListing(c.listed, All(c)) && forall n :: 0 <= n < |c.turns| ==> LostFollows(c, n)
  {
    var ids, f := c.orders[|c.turns|], All(c);
    if Reversed(ids, f) { ReversedIsInListing(ids, c.listed, f); }
    if InListing(c.listed, f) {
      StartStands(c.listed, f);
      if Reversed(ids, f) { AllFollow(c); }
      if forall n :: 0 <= n < |c.turns| ==> LostFollows(c, n) {
        Stays(c, |c.turns|);
        StandingIsReversed(c);
      }
    }
  }

  lemma {:induction false} SameCondition(c: Course, listed: seq<nat>, entries: seq<Entry>, n: nat)
    requires Describes(c, listed, entries) && IsCourse(c) && n < |entries|
    ensures LostFollows(c, n) <==> FollowsTheLast(listed, entries, n)
  {
    assert c.firsts[n] == FirstsTo(entries, n);
  }

  lemma {:induction false} OrderIsReversedIff(listed: seq<nat>, entries: seq<Entry>)
    requires Distinct(listed)
    ensures Reversed(OrderTo(listed, entries, |entries|), FirstsTo(entries, |entries|)) <==>
            InListing(listed, FirstsTo(entries, |entries|))
            && forall n :: 0 <= n < |entries| ==> FollowsTheLast(listed, entries, n)
  {
    var c := CourseExists(listed, entries);
    DescribedIsCourse(c, listed, entries);
    OrderKeepsShape(listed, entries, |entries|);
    CourseIsReversedIff(c);
    forall n | 0 <= n < |entries| ensures LostFollows(c, n) <==> FollowsTheLast(listed, entries, n) {
      SameCondition(c, listed, entries, n);
    }
  }

  /** The turns that have items end up newest first, exactly in the reverse order of their first items. */
  ghost predicate NewestFirst(turns: seq<Turn>, entries: seq<Entry>) {
    Reversed(Ids(Load(Start(turns), entries).turns), Firsts(entries))
  }

  /**
   * Exactly when they do: those of them that are listed stand newest first in the listing, and the first item of each
   * lost turn follows an item of the turn met last.
   */
  lemma {:induction false} TurnsComeBackInOrderIff(turns: seq<Turn>, entries: seq<Entry>)
    requires Distinct(Ids(turns))
    ensures NewestFirst(turns, entries) <==>
            InListing(Ids(turns), Firsts(entries)) && forall n :: 0 <= n < |entries| ==> FollowsTheLast(Ids(turns), entries, n)
  {
    LoadOrders(Start(turns), entries, Ids(turns), |entries|);
    OrderIsReversedIff(Ids(turns), entries);
  }

  /** What one entry of a turn does to the order: nothing, or it puts the turn in at p. */
  lemma {:induction false} OrderAfter(l: Loading, ids: seq<nat>, id: nat, p: nat)
    requires Valid(l) && Ids(l.turns) == ids && (id in ids ==> p < |ids| && ids[p] == id && Distinct(ids))
    requires id !in ids ==> p == if l.previous.Some? then l.previous.value else |ids|
    ensures var next := AddEntry(l, Entry(id, OtherItem));
            next.previous == Some(p) && Ids(next.turns) == if id in ids then ids else Inserted(ids, p, id)
  {
    KnownIffThere(l, id);
    IdsAdd(l, Entry(id, OtherItem));
  }

  lemma {:induction false} ScatteredTail(l: Loading, a: nat, b: nat, c: nat)
    requires Valid(l) && Ids(l.turns) == [b, a] && a != b && b != c && a != c
    ensures Ids(AddEntry(AddEntry(l, Entry(a, OtherItem)), Entry(c, OtherItem)).turns) == [b, c, a]
  {
    OrderAfter(l, [b, a], a, 1);
    OrderAfter(AddEntry(l, Entry(a, OtherItem)), [b, a], c, 1);
    assert Inserted([b, a], 1, c) == [b, c, a];
  }

  /** Items of a, b, a again and c, none of them listed: c ends up behind b, although it came later. */
  lemma {:induction false} ScatteredItemsMisplace(a: nat, b: nat, c: nat)
    requires a != b && b != c && a != c
    ensures var l := AddEntry(AddEntry(Start([]), Entry(a, OtherItem)), Entry(b, OtherItem));
            Ids(AddEntry(AddEntry(l, Entry(a, OtherItem)), Entry(c, OtherItem)).turns) == [b, c, a]
  {
    var l0 := Start([]);
    OrderAfter(l0, [], a, 0);
    var l1 := AddEntry(l0, Entry(a, OtherItem));
    assert Inserted([], 0, a) == [a];
    OrderAfter(l1, [a], b, 0);
    assert Inserted([a], 0, b) == [b, a];
    ScatteredTail(AddEntry(l1, Entry(b, OtherItem)), a, b, c);
  }

  // ----- No message identifier is lost -----

  ghost predicate Mentions(turns: seq<Turn>, id: string) {
    turns != []
    && (id in ClientIds(turns[|turns| - 1].items) || Mentions(turns[..|turns| - 1], id))
  }

  lemma {:induction false} MentionedSomewhere(turns: seq<Turn>, id: string)
    ensures Mentions(turns, id) <==> exists i :: 0 <= i < |turns| && id in ClientIds(turns[i].items)
  {
    if turns != [] {
      var front := turns[..|turns| - 1];
      MentionedSomewhere(front, id);
      assert forall i :: 0 <= i < |front| ==> front[i] == turns[i];
    }
  }

  ghost predicate Brings(e: Entry, id: string) {
    e.item == UserMessage(Some(id))
  }

  lemma {:induction false} MentionsAppend(a: seq<Turn>, b: seq<Turn>, id: string)
    ensures Mentions(a + b, id) <==> Mentions(a, id) || Mentions(b, id)
  {
    if b == [] {
      assert a + b == a;
    } else {
      MentionsAppend(a, b[..|b| - 1], id);
      assert (a + b)[..|a + b| - 1] == a + b[..|b| - 1];
    }
  }

  lemma {:induction false} InsertedMentions(turns: seq<Turn>, p: nat, t: Turn, id: string)
    requires p <= |turns| && id !in ClientIds(t.items)
    ensures Mentions(Inserted(turns, p, t), id) <==> Mentions(turns, id)
  {
    MentionsAppend(turns[..p], turns[p..], id);
    assert turns[..p] + turns[p..] == turns;
    MentionsAppend(turns[..p] + [t], turns[p..], id);
    MentionsAppend(turns[..p], [t], id);
    assert [t][..0] == [];
  }

  lemma {:induction false} UpdatedMentions(turns: seq<Turn>, p: nat, t: Turn, id: string, brings: bool)
    requires p < |turns| && (id in ClientIds(t.items) <==> id in ClientIds(turns[p].items) || brings)
    ensures Mentions(turns[p := t], id) <==> Mentions(turns, id) || brings
  {
    MentionedSomewhere(turns, id);
    MentionedSomewhere(turns[p := t], id);
    assert turns[p := t][p] == t;
    forall i | 0 <= i < |turns| && i != p ensures turns[p := t][i] == turns[i] {}
  }

  lemma {:induction false} AddingMentions(l: Loading, e: Entry, id: string)
    requires Valid(l)
    ensures Mentions(AddEntry(l, e).turns, id) <==> Mentions(l.turns, id) || Brings(e, id)
  {
    RecoveredIsValid(l, e.turnId);
    var r, p := Recovered(l, e.turnId).turns, Place(l, e.turnId);
    if e.turnId !in l.indices { InsertedMentions(l.turns, p, Turn(e.turnId, Interrupted, []), id); }
    KeepingKeepsIds(r[p].items, e.item);
    UpdatedMentions(r, p, r[p].(items := Keep(r[p].items, e.item)), id, Brings(e, id));
  }

  /** One of the first n entries is a message with the identifier. */
  ghost predicate Brought(entries: seq<Entry>, n: nat, id: string)
    requires n <= |entries|
  {
    n > 0 && (Brings(entries[n - 1], id) || Brought(entries, n - 1, id))
  }

  lemma {:induction false} LoadAdds(l: Loading, entries: seq<Entry>, n: nat, id: string)
    requires Valid(l) && n < |entries|
    ensures Mentions(LoadTo(l, entries, n + 1).turns, id)
            <==> Mentions(LoadTo(l, entries, n).turns, id) || Brings(entries[n], id)
  {
    AddingMentions(LoadTo(l, entries, n), entries[n], id);
  }

  /** The turns read back mention exactly the message identifiers of the listing and of the items. */
  lemma {:induction false} LoadingLosesNoMessage(l: Loading, entries: seq<Entry>, n: nat, id: string)
    requires Valid(l) && n <= |entries|
    ensures Mentions(LoadTo(l, entries, n).turns, id) <==> Mentions(l.turns, id) || Brought(entries, n, id)
  {
    if n > 0 {
      var m := n - 1;
      LoadingLosesNoMessage(l, entries, m, id);
      LoadAdds(l, entries, m, id);
      assert m + 1 == n;
    }
  }

  // ----- The loops -----

  /** Makes room at an index: every position from there on moves up by one. */
  method Shift(indices: map<nat, nat>, index: nat) returns (moved: map<nat, nat>)
    ensures moved == Shifted(indices, index)
  {
    moved := indices;
    var rest := indices.Keys;
    while rest != {}
      invariant moved.Keys == indices.Keys && rest <= indices.Keys
      invariant forall id :: id in indices ==>
                  moved[id] == if id !in rest && indices[id] >= index then indices[id] + 1 else indices[id]
      decreases rest
    {
      var id :| id in rest;
      if moved[id] >= index { moved := moved[id := moved[id] + 1]; }
      rest := rest - {id};
    }
  }

  /** `load_items`, over the entries of all pages. */
  method LoadItems(listed: seq<Turn>, entries: seq<Entry>) returns (turns: seq<Turn>)
    ensures turns == Load(Start(listed), entries).turns
  {
    turns := listed;
    var indices: map<nat, nat> := Indexed(listed);
    var previous: Option<nat> := None;
    for i := 0 to |entries|
      invariant Loading(turns, indices, previous) == LoadTo(Start(listed), entries, i)
    {
      ghost var before := LoadTo(Start(listed), entries, i);
      RecoveredIsValid(before, entries[i].turnId);
      var id := entries[i].turnId;
      var index: nat;
      if id in indices {
        index := indices[id];
      } else {
        index := if previous.Some? then previous.value else |turns|;
        indices := Shift(indices, index);
        turns := turns[..index] + [Turn(id, Interrupted, [])] + turns[index..];
        indices := indices[id := index];
      }
      previous := Some(index);
      turns := turns[index := turns[index].(items := Keep(turns[index].items, entries[i].item))];
    }
  }
}
