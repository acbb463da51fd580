/**
 * Why a message of a Claude Code turn counts as delivered, read off the whole run
 * (crates/installation/src/claude_process.rs): what was submitted, which lines and results name it, and from that
 * what is pending, what is delivered, when the agent waits, and when the turn completes. Nothing here refers to the
 * fields a step updates.
 */
module ClaudeDeliveries {
  import opened Common
  import opened ClaudeTurn

  // ----- One message at a time -----

  function Singles(a: Action): seq<Action> {
    if a.Poll? then seq(|a.messages|, k requires 0 <= k < |a.messages| => Poll([a.messages[k]])) else [a]
  }

  /** The run with each poll of the inbox taken message by message. */
  function Spread(run: seq<Action>): (spread: seq<Action>) {
    if run == [] then [] else Spread(run[..|run| - 1]) + Singles(run[|run| - 1])
  }

  ghost predicate Single(run: seq<Action>) {
    forall i :: 0 <= i < |run| && run[i].Poll? ==> |run[i].messages| == 1
  }

  lemma {:induction false} SpreadIsSingle(run: seq<Action>)
    ensures Single(Spread(run))
  {
    if run != [] { SpreadIsSingle(run[..|run| - 1]); }
  }

  lemma {:induction false} AfterAppend(t: Turn, a: seq<Action>, b: seq<Action>)
    requires After(t, a).Running?
    ensures After(t, a + b) == After(After(t, a).turn, b)
    decreases |b|
  {
    if b == [] {
      assert a + b == a;
    } else {
      var n := |b| - 1;
      assert (a + b)[..|a + b| - 1] == a + b[..n];
      AfterAppend(t, a, b[..n]);
    }
  }

  lemma {:induction false} SinglesPoll(t: Turn, messages: seq<Message>)
    ensures After(t, Singles(Poll(messages))) == Running(SubmitAll(t, messages))
  {
    var all := Singles(Poll(messages));
    if messages != [] {
      var n := |messages| - 1;
      SinglesPoll(t, messages[..n]);
      assert all[..n] == Singles(Poll(messages[..n]));
      var before := SubmitAll(t, messages[..n]);
      assert [messages[n]][..0] == [] && SubmitAll(before, []) == before;
      assert SubmitAll(before, [messages[n]]) == Submit(before, messages[n]);
    }
  }

  lemma SinglesStep(t: Turn, a: Action)
    ensures After(t, Singles(a)) == Step(t, a)
  {
    if a.Poll? {
      SinglesPoll(t, a.messages);
    } else {
      assert [a][..0] == [] && After(t, []) == Running(t);
    }
  }

  lemma {:induction false} StopsForGood(t: Turn, a: seq<Action>, b: seq<Action>)
    requires !After(t, a).Running?
    ensures After(t, a + b) == After(t, a)
    decreases |b|
  {
    if b == [] {
      assert a + b == a;
    } else {
      var n := |b| - 1;
      assert (a + b)[..|a + b| - 1] == a + b[..n];
      StopsForGood(t, a, b[..n]);
    }
  }

  /** Taking polls message by message changes nothing. */
  lemma {:induction false} SpreadIsTheSame(t: Turn, run: seq<Action>)
    ensures After(t, Spread(run)) == After(t, run)
  {
    if run != [] {
      var front, last := run[..|run| - 1], run[|run| - 1];
      SpreadIsTheSame(t, front);
      if After(t, front).Running? {
        AfterAppend(t, Spread(front), Singles(last));
        SinglesStep(After(t, front).turn, last);
      } else {
        StopsForGood(t, Spread(front), Singles(last));
      }
    }
  }

  lemma {:induction false} RunningBefore(t: Turn, run: seq<Action>)
    requires run != [] && After(t, run).Running?
    ensures After(t, run[..|run| - 1]).Running?
  {
  }

  lemma SinglesGoOn(t: Turn, a: Action)
    requires Singles(a) != []
    ensures After(t, Singles(a)[..|Singles(a)| - 1]).Running?
  {
    if a.Poll? {
      var n := |a.messages| - 1;
      assert Singles(a)[..n] == Singles(Poll(a.messages[..n]));
      SinglesPoll(t, a.messages[..n]);
    } else {
      assert [a][..0] == [];
    }
  }

  lemma GoesOnWith(t: Turn, before: seq<Action>, more: seq<Action>)
    requires After(t, before).Running? && more != []
    requires After(After(t, before).turn, more[..|more| - 1]).Running?
    ensures After(t, (before + more)[..|before + more| - 1]).Running?
  {
    assert (before + more)[..|before + more| - 1] == before + more[..|more| - 1];
    AfterAppend(t, before, more[..|more| - 1]);
  }

  lemma {:induction false} SpreadGoesOn(t: Turn, run: seq<Action>)
    requires GoesOn(t, run, |run|)
    ensures GoesOn(t, Spread(run), |Spread(run)|)
  {
    assert run[..|run|] == run && Spread(run)[..|Spread(run)|] == Spread(run);
    SpreadIsTheSame(t, run);
    if run != [] {
      var front, last := run[..|run| - 1], run[|run| - 1];
      var before, more := Spread(front), Singles(last);
      SpreadIsTheSame(t, front);
      if more == [] {
        assert Spread(run) == before;
        if before != [] { RunningBefore(t, before); }
      } else {
        SinglesGoOn(After(t, before).turn, last);
        GoesOnWith(t, before, more);
      }
    }
  }

  lemma PollOfOne(t: Turn, a: Action)
    requires a.Poll? && |a.messages| == 1
    ensures Step(t, a) == Running(Submit(t, a.messages[0]))
  {
    assert a.messages[..0] == [] && SubmitAll(t, []) == t;
  }

  // ----- What the run says of a message -----

  /** The request's first message has this identifier; the CLI knows it by its wire identifier. */
  datatype Ids = Ids(initialId: string, wireId: string)

  ghost predicate Means(ids: Ids, wire: string, id: string) {
    id == if wire == ids.wireId then ids.initialId else wire
  }

  ghost predicate Brings(a: Action, id: string) {
    a.Poll? && exists k :: 0 <= k < |a.messages| && a.messages[k].id == id
  }

  /** It is the first message, or one of the first n steps took it from the inbox. */
  ghost predicate Known(ids: Ids, run: seq<Action>, n: nat, id: string)
    requires n <= |run|
  {
    id == ids.initialId || exists i :: 0 <= i < n && Brings(run[i], id)
  }

  /** A new message with the question's identifier. */
  ghost predicate Closes(ids: Ids, run: seq<Action>, k: nat, question: string)
    requires k < |run|
  {
    run[k].Poll? && |run[k].messages| == 1 && run[k].messages[0].questionId == question
    && !Known(ids, run, k, run[k].messages[0].id)
  }

  ghost predicate Asks(a: Action, question: string) {
    a.Handle? && a.line.Ask? && a.line.question == question
  }

  /** The question was asked and has not been answered since. */
  ghost predicate IsOpen(ids: Ids, run: seq<Action>, n: nat, question: string)
    requires n <= |run|
  {
    exists i :: 0 <= i < n && Asks(run[i], question) && forall k :: i < k < n ==> !Closes(ids, run, k, question)
  }

  /** Step k takes the message as the answer to an open question. */
  ghost predicate Answers(ids: Ids, run: seq<Action>, k: nat, id: string)
    requires k < |run|
  {
    && run[k].Poll? && |run[k].messages| == 1 && run[k].messages[0].id == id
    && !Known(ids, run, k, id) && IsOpen(ids, run, k, run[k].messages[0].questionId)
  }

  /** A user line carries its wire identifier. */
  ghost predicate Hears(ids: Ids, a: Action, id: string) {
    a.Handle? && a.line.User? && Means(ids, a.line.uuid, id)
  }

  ghost predicate Heard(ids: Ids, run: seq<Action>, n: nat, id: string)
    requires n <= |run|
  {
    exists i :: 0 <= i < n && Hears(ids, run[i], id) && Known(ids, run, i, id)
  }

  /** A result names it. */
  ghost predicate Names(ids: Ids, a: Action, id: string) {
    a.Handle? && a.line.Result? &&
    match a.line.named
    case All(named) => exists wire :: wire in named && Means(ids, wire, id)
    case One(wire) => Means(ids, wire, id)
    case Unnamed => false
  }

  /** A result settles it: by naming it, or by naming none, without a notification, after a user line carried it. */
  ghost predicate Settles(ids: Ids, run: seq<Action>, j: nat, id: string)
    requires j < |run|
  {
    || Names(ids, run[j], id)
    || (run[j].Handle? && run[j].line.Result? && run[j].line.named.Unnamed? && !run[j].line.notification
        && Heard(ids, run, j, id))
  }

  /** What delivers it: an answered question, a user line, or a result that settles it, once it was submitted. */
  ghost predicate Delivers(ids: Ids, run: seq<Action>, j: nat, id: string)
    requires j < |run|
  {
    Answers(ids, run, j, id) || (Known(ids, run, j, id) && (Hears(ids, run[j], id) || Settles(ids, run, j, id)))
  }

  ghost predicate IsDelivered(ids: Ids, run: seq<Action>, n: nat, id: string)
    requires n <= |run|
  {
    exists j :: 0 <= j < n && Delivers(ids, run, j, id)
  }

  /** It was submitted, answered no question, and no result has settled it since. */
  ghost predicate IsPending(ids: Ids, run: seq<Action>, n: nat, id: string)
    requires n <= |run|
  {
    && Known(ids, run, n, id)
    && forall j :: 0 <= j < n ==> !Answers(ids, run, j, id) && !(Known(ids, run, j, id) && Settles(ids, run, j, id))
  }

  // ----- One step more -----

  lemma KnownNext(ids: Ids, run: seq<Action>, n: nat, id: string)
    requires n < |run|
    ensures Known(ids, run, n + 1, id) <==> Known(ids, run, n, id) || Brings(run[n], id)
  {
  }

  lemma OpenNext(ids: Ids, run: seq<Action>, n: nat, question: string)
    requires n < |run|
    ensures IsOpen(ids, run, n + 1, question) <==>
            Asks(run[n], question) || (IsOpen(ids, run, n, question) && !Closes(ids, run, n, question))
  {
    if IsOpen(ids, run, n, question) && !Closes(ids, run, n, question) {
      var i :| 0 <= i < n && Asks(run[i], question) && forall k :: i < k < n ==> !Closes(ids, run, k, question);
      assert Asks(run[i], question) && forall k :: i < k < n + 1 ==> !Closes(ids, run, k, question);
    }
  }

  lemma HeardNext(ids: Ids, run: seq<Action>, n: nat, id: string)
    requires n < |run|
    ensures Heard(ids, run, n + 1, id) <==> Heard(ids, run, n, id) || (Hears(ids, run[n], id) && Known(ids, run, n, id))
  {
  }

  lemma DeliveredNext(ids: Ids, run: seq<Action>, n: nat, id: string)
    requires n < |run|
    ensures IsDelivered(ids, run, n + 1, id) <==> IsDelivered(ids, run, n, id) || Delivers(ids, run, n, id)
  {
  }

  lemma NothingBefore(ids: Ids, run: seq<Action>, n: nat, id: string)
    requires n <= |run| && !Known(ids, run, n, id)
    ensures forall j :: 0 <= j < n ==> !Answers(ids, run, j, id) && !Known(ids, run, j, id)
    ensures !Heard(ids, run, n, id)
  {
    forall j | 0 <= j < n ensures !Answers(ids, run, j, id) && !Known(ids, run, j, id) {
      if Answers(ids, run, j, id) { assert Brings(run[j], id); }
    }
  }

  lemma PendingNext(ids: Ids, run: seq<Action>, n: nat, id: string)
    requires n < |run|
    ensures IsPending(ids, run, n + 1, id) <==>
            if Known(ids, run, n, id) then IsPending(ids, run, n, id) && !Settles(ids, run, n, id)
            else Brings(run[n], id) && !Answers(ids, run, n, id)
  {
    KnownNext(ids, run, n, id);
    if !Known(ids, run, n, id) {
      NothingBefore(ids, run, n, id);
    } else {
      assert !Answers(ids, run, n, id);
    }
  }

  // ----- The fields say what the run says -----

  /** What the fields hold of one message. */
  ghost predicate SaysOf(ids: Ids, t: Turn, run: seq<Action>, n: nat, id: string)
    requires n <= |run|
  {
    && (id in t.submitted <==> Known(ids, run, n, id))
    && (id in t.delivered <==> IsDelivered(ids, run, n, id))
    && (id in t.pending <==> IsPending(ids, run, n, id))
    && (id in t.pending ==> (id in t.consumed <==> Heard(ids, run, n, id)))
  }

  ghost predicate Says(ids: Ids, t: Turn, run: seq<Action>, n: nat)
    requires n <= |run|
  {
    && t.initialId == ids.initialId && t.wireId == ids.wireId
    && (t.wireId in t.consumed ==> t.wireId == t.initialId)
    && (forall id :: SaysOf(ids, t, run, n, id))
    && (forall question :: question in t.questions <==> IsOpen(ids, run, n, question))
  }

  lemma SaysAtFirst(ids: Ids, run: seq<Action>)
    ensures Says(ids, Begin(ids.initialId, ids.wireId), run, 0)
  {
  }

  /** A poll of one message. */
  lemma PollSays(ids: Ids, t: Turn, run: seq<Action>, n: nat, id: string)
    requires n < |run| && Says(ids, t, run, n) && Accounted(t) && run[n].Poll? && |run[n].messages| == 1
    ensures SaysOf(ids, Submit(t, run[n].messages[0]), run, n + 1, id)
  {
    assert SaysOf(ids, t, run, n, id) && SaysOf(ids, t, run, n, run[n].messages[0].id);
    assert Brings(run[n], id) <==> id == run[n].messages[0].id;
    KnownNext(ids, run, n, id);
    DeliveredNext(ids, run, n, id);
    PendingNext(ids, run, n, id);
    HeardNext(ids, run, n, id);
    if !Known(ids, run, n, id) { NothingBefore(ids, run, n, id); }
  }

  /** A user line delivers the message it carries. */
  lemma UserSays(ids: Ids, t: Turn, run: seq<Action>, n: nat, id: string)
    requires n < |run| && Says(ids, t, run, n) && run[n].Handle? && run[n].line.User?
    ensures SaysOf(ids, OnUser(t, run[n].line.uuid, run[n].line.notification), run, n + 1, id)
  {
    assert SaysOf(ids, t, run, n, id);
    KnownNext(ids, run, n, id);
    DeliveredNext(ids, run, n, id);
    PendingNext(ids, run, n, id);
    HeardNext(ids, run, n, id);
  }

  /** Any other line leaves the messages alone. */
  lemma OtherSays(ids: Ids, t: Turn, run: seq<Action>, n: nat, next: Turn, id: string)
    requires n < |run| && Says(ids, t, run, n) && run[n].Handle? && !run[n].line.Result? && !run[n].line.User?
    requires next.submitted == t.submitted && next.delivered == t.delivered
    requires next.pending == t.pending && next.consumed == t.consumed
    ensures SaysOf(ids, next, run, n + 1, id)
  {
    assert SaysOf(ids, t, run, n, id);
    KnownNext(ids, run, n, id);
    DeliveredNext(ids, run, n, id);
    PendingNext(ids, run, n, id);
    HeardNext(ids, run, n, id);
  }

  /** Of the messages pending, a result settles exactly those the run says it does. */
  lemma SettledIff(ids: Ids, t: Turn, run: seq<Action>, n: nat, id: string)
    requires n < |run| && Says(ids, t, run, n) && run[n].Handle? && run[n].line.Result? && id in t.pending
    ensures id in ChatIds(t, Settled(t, run[n].line.named, run[n].line.notification)) <==> Settles(ids, run, n, id)
  {
    assert SaysOf(ids, t, run, n, id);
    match run[n].line.named {
      case All(named) =>
        if wire :| wire in named && Means(ids, wire, id) { assert ChatId(t, wire) == id; }
      case One(wire) =>
      case Unnamed =>
        if id in t.consumed { assert ChatId(t, id) == id; }
    }
  }

  lemma ResultSays(ids: Ids, t: Turn, run: seq<Action>, n: nat, id: string)
    requires n < |run| && Says(ids, t, run, n) && Accounted(t) && run[n].Handle? && run[n].line.Result?
    ensures var line := run[n].line; SaysOf(ids, Absorb(t, line.text, line.named, line.notification), run, n + 1, id)
  {
    assert SaysOf(ids, t, run, n, id);
    KnownNext(ids, run, n, id);
    DeliveredNext(ids, run, n, id);
    PendingNext(ids, run, n, id);
    HeardNext(ids, run, n, id);
    if id in t.pending { SettledIff(ids, t, run, n, id); }
  }

  lemma QuestionsSay(ids: Ids, t: Turn, run: seq<Action>, n: nat, next: Turn, question: string)
    requires n < |run| && Says(ids, t, run, n) && (run[n].Poll? ==> |run[n].messages| == 1)
    requires if run[n].Poll? then next == Submit(t, run[n].messages[0])
             else !Step(t, run[n]).Failed? && next == Step(t, run[n]).turn
    ensures question in next.questions <==> IsOpen(ids, run, n + 1, question)
  {
    OpenNext(ids, run, n, question);
    if run[n].Poll? { assert SaysOf(ids, t, run, n, run[n].messages[0].id); }
  }

  lemma StepSays(ids: Ids, t: Turn, run: seq<Action>, n: nat, next: Turn, id: string)
    requires n < |run| && Says(ids, t, run, n) && Accounted(t) && (run[n].Poll? ==> |run[n].messages| == 1)
    requires if run[n].Poll? then next == Submit(t, run[n].messages[0])
             else !Step(t, run[n]).Failed? && next == Step(t, run[n]).turn
    ensures SaysOf(ids, next, run, n + 1, id)
  {
    if run[n].Poll? {
      PollSays(ids, t, run, n, id);
    } else if run[n].line.Result? {
      ResultSays(ids, t, run, n, id);
    } else if run[n].line.User? {
      UserSays(ids, t, run, n, id);
    } else {
      OtherSays(ids, t, run, n, next, id);
    }
  }

  lemma SaysNext(ids: Ids, t: Turn, run: seq<Action>, n: nat, next: Turn)
    requires Single(run) && n < |run| && Says(ids, t, run, n) && Accounted(t)
    requires !Step(t, run[n]).Failed? && Step(t, run[n]).turn == next
    ensures Says(ids, next, run, n + 1)
  {
    if run[n].Poll? { PollOfOne(t, run[n]); }
    var m := n + 1;
    forall id ensures SaysOf(ids, next, run, m, id) { StepSays(ids, t, run, n, next, id); }
    forall question ensures question in next.questions <==> IsOpen(ids, run, n + 1, question) {
      QuestionsSay(ids, t, run, n, next, question);
    }
    WireIdIsNeverConsumed(t, run[n], next);
  }

  lemma WireIdIsNeverConsumed(t: Turn, a: Action, next: Turn)
    requires (t.wireId in t.consumed ==> t.wireId == t.initialId) && (a.Poll? ==> |a.messages| == 1)
    requires !Step(t, a).Failed? && Step(t, a).turn == next
    ensures next.initialId == t.initialId && next.wireId == t.wireId
    ensures next.wireId in next.consumed ==> next.wireId == next.initialId
  {
    if a.Poll? { PollOfOne(t, a); }
  }

  lemma {:induction false} RunSays(ids: Ids, run: seq<Action>, n: nat)
    requires Single(run) && n <= |run| && GoesOn(Begin(ids.initialId, ids.wireId), run, n)
    ensures Says(ids, After(Begin(ids.initialId, ids.wireId), run[..n]).turn, run, n)
  {
    var begin := Begin(ids.initialId, ids.wireId);
    if n == 0 {
      SaysAtFirst(ids, run);
    } else {
      assert run[..n][..n - 1] == run[..n - 1];
      if n > 1 {
        assert run[..n - 1][..n - 2] == run[..n - 2];
        RunningBefore(begin, run[..n - 1]);
      }
      RunSays(ids, run, n - 1);
      EveryRunKeeps(ids.initialId, ids.wireId, run[..n - 1]);
      SaysNext(ids, After(begin, run[..n - 1]).turn, run, n - 1, After(begin, run[..n]).turn);
    }
  }

  // ----- When the agent waits -----

  /** Nothing is pending and some background task is listed. */
  ghost predicate IsIdle(ids: Ids, run: seq<Action>, n: nat)
    requires n <= |run|
  {
    (forall id :: !IsPending(ids, run, n, id)) && exists id :: Listed(run, n, id)
  }

  ghost predicate NoneListed(run: seq<Action>, n: nat)
    requires n <= |run|
  {
    forall id :: !Listed(run, n, id)
  }

  /** The agent speaks again, gets a message that answers no question, or has no task left to wait for. */
  ghost predicate Resumes(ids: Ids, run: seq<Action>, k: nat)
    requires k < |run|
  {
    match run[k]
    case Poll(messages) => exists id :: Brings(run[k], id) && !Known(ids, run, k, id) && !Answers(ids, run, k, id)
    case Handle(Assistant(_)) => true
    case Handle(MessageStart) => true
    case Handle(Listing(_)) => NoneListed(run, k + 1)
    case Handle(_) => false
  }

  /** A result left the agent idle, and it has not resumed since. */
  ghost predicate Waits(ids: Ids, run: seq<Action>, n: nat)
    requires n <= |run|
  {
    exists j :: 0 <= j < n && IsResult(run[j]) && IsIdle(ids, run, j + 1)
                && forall k :: j < k < n ==> !Resumes(ids, run, k)
  }

  lemma WaitsNext(ids: Ids, run: seq<Action>, n: nat)
    requires n < |run|
    ensures Waits(ids, run, n + 1) <==>
            (IsResult(run[n]) && IsIdle(ids, run, n + 1)) || (Waits(ids, run, n) && !Resumes(ids, run, n))
  {
    if Waits(ids, run, n) && !Resumes(ids, run, n) {
      var j :| 0 <= j < n && IsResult(run[j]) && IsIdle(ids, run, j + 1)
               && forall k :: j < k < n ==> !Resumes(ids, run, k);
      assert IsResult(run[j]) && forall k :: j < k < n + 1 ==> !Resumes(ids, run, k);
    }
  }

  lemma IdleIff(ids: Ids, t: Turn, run: seq<Action>, n: nat)
    requires n <= |run| && Says(ids, t, run, n) && Tracks(t, run, n)
    ensures IsIdle(ids, run, n) <==> t.pending == {} && t.background != map[]
  {
    if t.pending == {} {
      forall id ensures !IsPending(ids, run, n, id) { assert SaysOf(ids, t, run, n, id); }
    }
    if id :| id in t.pending { assert SaysOf(ids, t, run, n, id); }
    if t.background != map[] {
      var id :| id in t.background;
      assert Listed(run, n, id);
    }
  }

  lemma PollResumesIff(ids: Ids, t: Turn, run: seq<Action>, n: nat)
    requires n < |run| && Says(ids, t, run, n) && run[n].Poll? && |run[n].messages| == 1
    ensures Resumes(ids, run, n) <==>
            run[n].messages[0].id !in t.submitted && run[n].messages[0].questionId !in t.questions
  {
    var m := run[n].messages[0];
    assert SaysOf(ids, t, run, n, m.id) && Brings(run[n], m.id);
  }

  lemma WaitingNext(ids: Ids, t: Turn, run: seq<Action>, n: nat, next: Turn)
    requires Single(run) && n < |run| && Says(ids, t, run, n) && Says(ids, next, run, n + 1)
    requires Tracks(next, run, n + 1) && WaitsRightly(t) && (t.waiting <==> Waits(ids, run, n))
    requires Step(t, run[n]) == Running(next)
    ensures next.waiting <==> Waits(ids, run, n + 1)
  {
    if run[n].Poll? {
      WaitsNext(ids, run, n);
      PollOfOne(t, run[n]);
      PollResumesIff(ids, t, run, n);
    } else {
      WaitingAfterLine(ids, t, run, n, next);
    }
  }

  lemma WaitingAfterLine(ids: Ids, t: Turn, run: seq<Action>, n: nat, next: Turn)
    requires n < |run| && run[n].Handle? && Says(ids, next, run, n + 1)
    requires Tracks(next, run, n + 1) && WaitsRightly(t) && (t.waiting <==> Waits(ids, run, n))
    requires Step(t, run[n]) == Running(next)
    ensures next.waiting <==> Waits(ids, run, n + 1)
  {
    WaitsNext(ids, run, n);
    if run[n].line.Result? {
      IdleIff(ids, next, run, n + 1);
    } else if run[n].line.Listing? {
      assert Resumes(ids, run, n) <==> next.background == map[] by {
        if id :| id in next.background { assert Listed(run, n + 1, id); }
      }
    }
  }

  // ----- The last words -----

  /** The line has something to say: a reply of the assistant, or a result with a text. */
  predicate Speaks(a: Action) {
    a.Handle? && ((a.line.Assistant? && a.line.reply.Some?) || (a.line.Result? && a.line.text != ""))
  }

  predicate Replies(a: Action) {
    a.Handle? && a.line.Assistant? && a.line.reply.Some?
  }

  function Words(a: Action): string
    requires Speaks(a)
  {
    if a.line.Result? then a.line.text else a.line.reply.value.0
  }

  /** What was said last: `""` until the first line that says something. */
  ghost function LastWords(run: seq<Action>, n: nat): string
    requires n <= |run|
  {
    if n == 0 then "" else if Speaks(run[n - 1]) then Words(run[n - 1]) else LastWords(run, n - 1)
  }

  /** The item of the last reply. */
  ghost function LastItem(ids: Ids, run: seq<Action>, n: nat): string
    requires n <= |run|
  {
    if n == 0 then ids.initialId + "-result"
    else if Replies(run[n - 1]) then run[n - 1].line.reply.value.1
    else LastItem(ids, run, n - 1)
  }

  lemma LastOfStep(t: Turn, a: Action, next: Turn)
    requires (a.Poll? ==> |a.messages| == 1) && !Step(t, a).Failed? && Step(t, a).turn == next
    ensures next.last == if Speaks(a) then Words(a) else t.last
    ensures next.lastId == if Replies(a) then a.line.reply.value.1 else t.lastId
  {
    if a.Poll? { PollOfOne(t, a); }
  }

  // ----- The whole turn -----

  /** Everything the turn holds is what its run says. */
  ghost predicate Reflects(ids: Ids, o: Outcome, run: seq<Action>, n: nat)
    requires n <= |run| && !o.Failed?
  {
    && Says(ids, o.turn, run, n) && Tracks(o.turn, run, n)
    && o.turn.last == LastWords(run, n) && o.turn.lastId == LastItem(ids, run, n)
    && (o.Running? ==> (o.turn.waiting <==> Waits(ids, run, n)))
  }

  lemma {:induction false} RunReflects(ids: Ids, run: seq<Action>, n: nat)
    requires Single(run) && n <= |run| && GoesOn(Begin(ids.initialId, ids.wireId), run, n)
    ensures Reflects(ids, After(Begin(ids.initialId, ids.wireId), run[..n]), run, n)
  {
    var begin := Begin(ids.initialId, ids.wireId);
    RunSays(ids, run, n);
    RunTracks(ids.initialId, ids.wireId, run, n);
    if n > 0 {
      assert run[..n][..n - 1] == run[..n - 1];
      if n > 1 {
        assert run[..n - 1][..n - 2] == run[..n - 2];
        RunningBefore(begin, run[..n - 1]);
      }
      RunReflects(ids, run, n - 1);
      EveryRunKeeps(ids.initialId, ids.wireId, run[..n - 1]);
      var t, o := After(begin, run[..n - 1]).turn, After(begin, run[..n]);
      LastOfStep(t, run[n - 1], o.turn);
      if o.Running? { WaitingNext(ids, t, run, n - 1, o.turn); }
    }
  }

  /**
   * Over any run, taken message by message: a message is delivered exactly if, once submitted, a user line carried it,
   * a result settled it, or it answered an open question; it is pending exactly if it was submitted otherwise and no
   * result has settled it; and the agent waits exactly if a result left it idle and it has not resumed.
   */
  lemma TurnReflectsItsRun(ids: Ids, run: seq<Action>)
    requires GoesOn(Begin(ids.initialId, ids.wireId), run, |run|)
    ensures !After(Begin(ids.initialId, ids.wireId), run).Failed?
    ensures Reflects(ids, After(Begin(ids.initialId, ids.wireId), run), Spread(run), |Spread(run)|)
  {
    var begin, spread := Begin(ids.initialId, ids.wireId), Spread(run);
    assert run[..|run|] == run && spread[..|spread|] == spread;
    SpreadIsTheSame(begin, run);
    SpreadGoesOn(begin, run);
    SpreadIsSingle(run);
    RunReflects(ids, spread, |spread|);
  }

  lemma ResultCompletesIff(t: Turn, a: Action)
    requires IsResult(a) && a.line.success
    ensures !Step(t, a).Failed?
    ensures var next := Step(t, a).turn;
            Step(t, a).Completed? <==> next.pending == {} && next.background == map[] && next.awaiting == {}
  {
  }

  /** Nothing is left to do. */
  ghost predicate IsDone(ids: Ids, run: seq<Action>, n: nat)
    requires n <= |run|
  {
    forall id :: !IsPending(ids, run, n, id) && !Listed(run, n, id) && !Awaited(run, n, id)
  }

  lemma DoneIff(ids: Ids, t: Turn, run: seq<Action>, n: nat)
    requires n <= |run| && Says(ids, t, run, n) && Tracks(t, run, n)
    ensures IsDone(ids, run, n) <==> t.pending == {} && t.background == map[] && t.awaiting == {}
  {
    if t.pending == {} {
      forall id ensures !IsPending(ids, run, n, id) { assert SaysOf(ids, t, run, n, id); }
    }
    if id :| id in t.pending { assert SaysOf(ids, t, run, n, id); }
    if id :| id in t.background { assert Listed(run, n, id); }
    if id :| id in t.awaiting { assert Awaited(run, n, id); }
  }

  /** A successful result completes the turn exactly if nothing is pending, listed or awaited any more. */
  lemma CompletesIff(ids: Ids, run: seq<Action>)
    requires run != [] && IsResult(run[|run| - 1]) && run[|run| - 1].line.success
    requires After(Begin(ids.initialId, ids.wireId), run[..|run| - 1]).Running?
    ensures After(Begin(ids.initialId, ids.wireId), run).Completed? <==> IsDone(ids, Spread(run), |Spread(run)|)
  {
    var begin := Begin(ids.initialId, ids.wireId);
    assert run[..|run|] == run;
    ResultCompletesIff(After(begin, run[..|run| - 1]).turn, run[|run| - 1]);
    TurnReflectsItsRun(ids, run);
    DoneIff(ids, After(begin, run).turn, Spread(run), |Spread(run)|);
  }
}
