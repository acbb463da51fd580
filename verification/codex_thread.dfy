/**
 * Submitting messages to a Codex thread across executions, failures and restarts (`execute`, `start_turn`, `steer`
 * and `acknowledge` of crates/installation/src/chat_process.rs). An execution is over when its process ends, so
 * nothing of an earlier one reaches the thread later.
 */
module CodexThread {
  import opened Common
  import opened CodexHistory

  /** One execution. `continuing` is whether its request was found in the history it read. */
  datatype Execution = Execution(
    message: string, continuing: bool, started: bool, completed: bool, seen: set<string>, attempted: set<string>
  )

  /** `thread` are the user messages the thread has accepted, with their client identifiers if they carry one. */
  datatype State = State(thread: seq<Option<string>>, execution: Option<Execution>)

  const INITIAL := State([], None)

  datatype Action =
    | Begin(message: string, turns: seq<Turn>)
    | StartTurn(accepted: bool, answered: bool)
    | Steer(id: string, accepted: bool, answered: bool)
    | Answer(id: string)
    | Hear(id: string)
    | Complete
    | Stop

  function AllIds(turns: seq<Turn>): set<string> {
    set i, id | 0 <= i < |turns| && id in ClientIds(turns[i].items) :: id
  }

  /** The history read back has every message of the thread. */
  ghost predicate Faithful(turns: seq<Turn>, thread: seq<Option<string>>) {
    forall id :: Mentions(turns, id) <==> Some(id) in thread
  }

  predicate Submittable(e: Execution, id: string) {
    e.started && !e.completed && id !in e.seen && id !in e.attempted
  }

  /** A request can be accepted although its answer is lost; an answer means it was accepted. */
  ghost predicate Enabled(s: State, a: Action) {
    match a
    case Begin(_, turns) => s.execution.None? && Faithful(turns, s.thread)
    case StartTurn(accepted, answered) => s.execution.Some? && !s.execution.value.started && (answered ==> accepted)
    case Steer(id, accepted, answered) => s.execution.Some? && Submittable(s.execution.value, id) && (answered ==> accepted)
    case Answer(id) => s.execution.Some? && Submittable(s.execution.value, id)
    case Hear(id) => s.execution.Some? && Some(id) in s.thread
    case Complete => s.execution.Some?
    case Stop => true
  }

  function Apply(s: State, a: Action): State
    requires Enabled(s, a)
  {
    match a
    case Begin(message, turns) =>
      s.(execution := Some(Execution(message, message in AllIds(turns), false, false, AllIds(turns), {})))
    case StartTurn(accepted, answered) =>
      var e := s.execution.value;
      State(if accepted then s.thread + [if e.continuing then None else Some(e.message)] else s.thread,
            if answered then Some(e.(started := true, seen := e.seen + {e.message})) else None)
    case Steer(id, accepted, answered) =>
      var e := s.execution.value;
      State(if accepted then s.thread + [Some(id)] else s.thread,
            Some(e.(attempted := e.attempted + {id}, seen := if answered then e.seen + {id} else e.seen)))
    case Answer(id) => s.(execution := Some(s.execution.value.(attempted := s.execution.value.attempted + {id})))
    case Hear(id) => s.(execution := Some(s.execution.value.(seen := s.execution.value.seen + {id})))
    case Complete => s.(execution := Some(s.execution.value.(completed := true)))
    case Stop => s.(execution := None)
  }

  ghost predicate Runs(s: State, run: seq<Action>)
    decreases |run|
  {
    run == [] || (Enabled(s, run[0]) && Runs(Apply(s, run[0]), run[1..]))
  }

  ghost function End(s: State, run: seq<Action>): State
    requires Runs(s, run)
    decreases |run|
  {
    if run == [] then s else End(Apply(s, run[0]), run[1..])
  }

  // ----- At most once -----

  /** No client identifier is in the thread twice. */
  ghost predicate AtMostOnce(thread: seq<Option<string>>) {
    forall i, j :: 0 <= i < j < |thread| && thread[i].Some? ==> thread[i] != thread[j]
  }

  /** An execution knows every identifier in the thread; a request not found in the history is not in it. */
  ghost predicate Inv(s: State) {
    && AtMostOnce(s.thread)
    && (s.execution.Some? ==>
          var e := s.execution.value;
          && (forall id :: Some(id) in s.thread ==> id in e.seen || id in e.attempted)
          && (!e.started ==> e.attempted == {} && (e.continuing || Some(e.message) !in s.thread)))
  }

  lemma AllIdsAreMentioned(turns: seq<Turn>, id: string)
    ensures id in AllIds(turns) <==> Mentions(turns, id)
  {
    MentionedSomewhere(turns, id);
  }

  lemma KeepsInv(s: State, a: Action)
    requires Inv(s) && Enabled(s, a)
    ensures Inv(Apply(s, a))
  {
    if a.Begin? {
      forall id ensures id in AllIds(a.turns) <==> Some(id) in s.thread { AllIdsAreMentioned(a.turns, id); }
    }
  }

  lemma {:induction false} EveryRun(s: State, run: seq<Action>)
    requires Inv(s) && Runs(s, run)
    ensures Inv(End(s, run))
    decreases |run|
  {
    if run != [] {
      KeepsInv(s, run[0]);
      EveryRun(Apply(s, run[0]), run[1..]);
    }
  }

  /** Over any sequence of executions, lost answers, failed steers and restarts, each message is accepted at most once. */
  lemma AcceptedAtMostOnce(run: seq<Action>)
    requires Runs(INITIAL, run)
    ensures AtMostOnce(End(INITIAL, run).thread)
  {
    EveryRun(INITIAL, run);
  }

  /** Loading the items of a thread yields a faithful history, whatever turns the listing has lost. */
  lemma LoadedHistoryIsFaithful(listed: seq<Turn>, entries: seq<Entry>, thread: seq<Option<string>>)
    requires forall id :: Brought(entries, |entries|, id) <==> Some(id) in thread
    requires forall id :: Mentions(listed, id) ==> Some(id) in thread
    ensures Faithful(Load(Start(listed), entries).turns, thread)
  {
    forall id ensures Mentions(Load(Start(listed), entries).turns, id) <==> Some(id) in thread {
      LoadingLosesNoMessage(Start(listed), entries, |entries|, id);
    }
  }

  /**
   * An execution goes on with its request exactly if the thread has it already, and knows exactly the thread's messages;
   * starting the turn then submits the request exactly if the thread did not have it.
   */
  lemma ExecutionsStartWithTheThread(s: State, a: Action, accepted: bool, answered: bool)
    requires a.Begin? && Enabled(s, a) && (answered ==> accepted)
    ensures var begun := Apply(s, a);
            && begun.thread == s.thread && begun.execution.Some?
            && (begun.execution.value.continuing <==> Some(a.message) in s.thread)
            && (forall id :: id in begun.execution.value.seen <==> Some(id) in s.thread)
            && Enabled(begun, StartTurn(accepted, answered))
            && Apply(begun, StartTurn(accepted, answered)).thread
               == if !accepted then s.thread
                  else s.thread + [if Some(a.message) in s.thread then None else Some(a.message)]
  {
    forall id ensures id in AllIds(a.turns) <==> Some(id) in s.thread { AllIdsAreMentioned(a.turns, id); }
  }
}
